/**
 * Single use of nonces: the in-memory store, which sweeps on every call, and the PostgreSQL store,
 * which sweeps once in a while. Times are nanoseconds since the epoch.
 */
module NonceStores {
  import opened Base

  /** One call of Consume: what it is given, and the clock when it runs. */
  datatype Call = Call(nonce: string, expiresAt: int, now: int)

  /** Nonces on record, each until it expires. */
  type Records = map<string, int>

  function Swept(records: Records, at: int): Records {
    map n | n in records && records[n] >= at :: records[n]
  }

  /** INSERT ... ON CONFLICT DO NOTHING, and whether it inserted. */
  function Insert(records: Records, c: Call): (Records, bool) {
    if c.nonce in records then (records, false) else (records[c.nonce := c.expiresAt], true)
  }

  // ---- The stores ------------------------------------------------------------------------------------

  class MemoryNonces {
    var seen: Records

    constructor ()
      ensures seen == map[]
    {
      seen := map[];
    }

    method Consume(nonce: string, expiresAt: int, now: int) returns (unused: bool)
      modifies this
      ensures (seen, unused) == Insert(Swept(old(seen), now), Call(nonce, expiresAt, now))
    {
      ghost var before := seen;
      var todo := seen.Keys;
      while todo != {}
        invariant todo <= before.Keys
        invariant forall n :: n in seen <==> n in before && (n in todo || before[n] >= now)
        invariant forall n :: n in seen ==> seen[n] == before[n]
        decreases |todo|
      {
        var n :| n in todo;
        todo := todo - {n};
        if now > seen[n] {
          seen := seen - {n};
        }
      }
      assert seen == Swept(before, now);
      if nonce in seen {
        return false;
      }
      seen := seen[nonce := expiresAt];
      return true;
    }
  }

  /** One call in 64 sweeps first, a 64-sided die deciding which. */
  const SWEEP_ODDS := 64

  class PostgresNonces {
    var table: Records

    constructor ()
      ensures table == map[]
    {
      table := map[];
    }

    /** Two statements. Either may fail, which fails the call, and may have landed all the same. */
    method Consume(nonce: string, expiresAt: int, now: int, luck: Luck) returns (unused: Option<bool>)
      requires luck.die < SWEEP_ODDS
      modifies this
      ensures (table, unused) == Consumed(old(table), Call(nonce, expiresAt, now), luck)
      ensures Remembers(old(table), table, Call(nonce, expiresAt, now), luck.die == 0, unused)
    {
      ConsumedRemembers(table, Call(nonce, expiresAt, now), luck);
      if luck.die == 0 {
        if !luck.sweepFails || luck.landed {
          table := map n | n in table && !(table[n] < now) :: table[n];
          assert table == Swept(old(table), now);
        }
        if luck.sweepFails {
          return None;
        }
      }
      var affected := 0;
      if nonce !in table && (!luck.insertFails || luck.landed) {
        table := table[nonce := expiresAt];
        affected := 1;
      }
      if luck.insertFails {
        return None;
      }
      return Some(affected == 1);
    }
  }

  /** Whether a call sweeps, which of its statements fail, and whether the one that fails has landed. */
  datatype Luck = Luck(die: nat, sweepFails: bool, insertFails: bool, landed: bool)

  /** What a call of the PostgreSQL store leaves and answers; None is an error. */
  function Consumed(records: Records, c: Call, luck: Luck): (Records, Option<bool>) {
    var swept := if luck.die == 0 then Swept(records, c.now) else records;
    var (inserted, unused) := Insert(swept, c);
    if luck.die == 0 && luck.sweepFails then (if luck.landed then swept else records, None)
    else if luck.insertFails then (if luck.landed then inserted else swept, None)
    else (inserted, Some(unused))
  }

  /** The record of n is as it was, or was swept as expired. */
  ghost predicate Unforgotten(before: Records, after: Records, n: string, now: int, sweeps: bool)
    requires n in before
  {
    (n in after && after[n] == before[n]) || (sweeps && before[n] < now && n !in after)
  }

  /**
   * What a call may do to the records: of all other nonces it forgets only expired ones, if it
   * sweeps, and adds none; its own it accepts exactly if it records it, with the given expiry, where
   * there was no record or one just swept, and refuses exactly for a record that stays.
   */
  ghost predicate Remembers(before: Records, after: Records, c: Call, sweeps: bool, unused: Option<bool>) {
    && (forall n :: n in before && n != c.nonce ==> Unforgotten(before, after, n, c.now, sweeps))
    && (forall n :: n in after && n != c.nonce ==> n in before)
    && match unused
       case Some(true) =>
         && c.nonce in after && after[c.nonce] == c.expiresAt
         && (c.nonce in before ==> sweeps && before[c.nonce] < c.now)
       case Some(false) => c.nonce in before && c.nonce in after && after[c.nonce] == before[c.nonce]
       case None =>
         && (c.nonce in after && c.nonce !in before ==> after[c.nonce] == c.expiresAt)
         && (c.nonce in before ==>
               || Unforgotten(before, after, c.nonce, c.now, sweeps)
               || (sweeps && before[c.nonce] < c.now && after[c.nonce] == c.expiresAt))
  }

  lemma ConsumedRemembers(records: Records, c: Call, luck: Luck)
    ensures var (after, unused) := Consumed(records, c, luck);
            Remembers(records, after, c, luck.die == 0, unused)
  {
  }

  /** The in-memory store's call, which always sweeps, does no more either. */
  lemma InsertRemembers(records: Records, c: Call)
    ensures var (after, unused) := Insert(Swept(records, c.now), c);
            Remembers(records, after, c, true, Some(unused))
  {
  }

  // ---- Runs ------------------------------------------------------------------------------------------

  ghost predicate Monotone(calls: seq<Call>) {
    forall i, j :: 0 <= i < j < |calls| ==> calls[i].now <= calls[j].now
  }

  /**
   * When, if at all, expired records are swept before each call. A sweep may lag behind the call's
   * own clock; several sweeps between two calls amount to the latest of them.
   */
  type Sweeps = nat -> Option<int>

  /** The database's clock runs at most `drift` ahead of the callers'. */
  ghost predicate WithinDrift(calls: seq<Call>, sweeps: Sweeps, drift: nat) {
    forall i :: 0 <= i < |calls| && sweeps(i).Some? ==> sweeps(i).value <= calls[i].now + drift
  }

  function SweptAt(records: Records, at: Option<int>): Records {
    if at.None? then records else Swept(records, at.value)
  }

  /** The records after the first n calls. */
  function After(calls: seq<Call>, sweeps: Sweeps, n: nat): Records
    requires n <= |calls|
  {
    if n == 0 then map[] else Insert(SweptAt(After(calls, sweeps, n - 1), sweeps(n - 1)), calls[n - 1]).0
  }

  /** What call n answers. */
  function Says(calls: seq<Call>, sweeps: Sweeps, n: nat): bool
    requires n < |calls|
  {
    Insert(SweptAt(After(calls, sweeps, n), sweeps(n)), calls[n]).1
  }

  /** The in-memory store sweeps before every call, by that call's clock. */
  function Inline(calls: seq<Call>): Sweeps {
    (i: nat) => if i < |calls| then Some(calls[i].now) else None
  }

  function NoSweeps(): Sweeps {
    (i: nat) => None
  }

  predicate FirstUse(calls: seq<Call>, n: nat)
    requires n < |calls|
  {
    forall i :: 0 <= i < n ==> calls[i].nonce != calls[n].nonce
  }

  /** Call n uses a nonce again that was first used by call i, after that use's expiry. */
  predicate LateReuse(calls: seq<Call>, i: nat, n: nat)
    requires i < n < |calls|
  {
    FirstUse(calls, i) && calls[i].nonce == calls[n].nonce && calls[n].now > calls[i].expiresAt
  }

  ghost predicate NoLateReuse(calls: seq<Call>, n: nat)
    requires n <= |calls|
  {
    forall i, j :: 0 <= i < j < n ==> !LateReuse(calls, i, j)
  }

  /** Only nonces already used are on record. */
  ghost predicate OnlyUsed(calls: seq<Call>, n: nat, records: Records)
    requires n <= |calls|
  {
    forall x :: x in records ==> UsedBefore(calls, n, x)
  }

  predicate UsedBefore(calls: seq<Call>, n: nat, x: string)
    requires n <= |calls|
  {
    exists i :: 0 <= i < n && calls[i].nonce == x
  }

  lemma {:induction false} OnlyUsedOnRecord(calls: seq<Call>, sweeps: Sweeps, n: nat)
    requires n <= |calls|
    ensures OnlyUsed(calls, n, After(calls, sweeps, n))
    decreases n
  {
    if n > 0 {
      OnlyUsedOnRecord(calls, sweeps, n - 1);
      forall x | x in After(calls, sweeps, n) ensures UsedBefore(calls, n, x) {
        if x != calls[n - 1].nonce {
          assert UsedBefore(calls, n - 1, x);
        }
      }
    }
  }

  /** However records are swept, an accepted nonce stays on record until its expiry has passed. */
  lemma {:induction false} OnRecordUntilExpiry(calls: seq<Call>, sweeps: Sweeps, drift: nat, i: nat, n: nat)
    requires Monotone(calls) && WithinDrift(calls, sweeps, drift) && i < n <= |calls| && Says(calls, sweeps, i)
    requires calls[n - 1].now + drift <= calls[i].expiresAt || n == i + 1
    ensures calls[i].nonce in After(calls, sweeps, n) && After(calls, sweeps, n)[calls[i].nonce] == calls[i].expiresAt
    decreases n
  {
    if n > i + 1 {
      assert calls[n - 2].now <= calls[n - 1].now;
      OnRecordUntilExpiry(calls, sweeps, drift, i, n - 1);
    }
  }

  /**
   * For every pattern of sweeps: if the same nonce is accepted twice, the second acceptance comes
   * strictly after the expiry the first one recorded, give or take the drift of the clocks.
   */
  lemma AcceptedTwiceIsLate(calls: seq<Call>, sweeps: Sweeps, drift: nat, i: nat, n: nat)
    requires Monotone(calls) && WithinDrift(calls, sweeps, drift) && i < n < |calls| && calls[i].nonce == calls[n].nonce
    requires Says(calls, sweeps, i) && Says(calls, sweeps, n)
    ensures calls[n].now + drift > calls[i].expiresAt
  {
    if calls[n].now + drift <= calls[i].expiresAt {
      assert calls[n - 1].now <= calls[n].now;
      OnRecordUntilExpiry(calls, sweeps, drift, i, n);
    }
  }

  /** A first use is always accepted. */
  lemma FirstUseAccepted(calls: seq<Call>, sweeps: Sweeps, n: nat)
    requires n < |calls| && FirstUse(calls, n)
    ensures Says(calls, sweeps, n)
  {
    OnlyUsedOnRecord(calls, sweeps, n);
    assert calls[n].nonce in After(calls, sweeps, n) ==> UsedBefore(calls, n, calls[n].nonce);
  }

  lemma {:induction false} FirstUseOf(calls: seq<Call>, n: nat) returns (i: nat)
    requires n < |calls|
    ensures i <= n && FirstUse(calls, i) && calls[i].nonce == calls[n].nonce
    decreases n
  {
    if FirstUse(calls, n) {
      i := n;
    } else {
      var m :| 0 <= m < n && calls[m].nonce == calls[n].nonce;
      i := FirstUseOf(calls, m);
    }
  }

  /** Without late reuse the answer is whether this is the nonce's first use, whatever is swept when. */
  lemma AnswersFirstUse(calls: seq<Call>, sweeps: Sweeps, n: nat)
    requires Monotone(calls) && WithinDrift(calls, sweeps, 0) && n < |calls|
    requires forall i :: 0 <= i < n ==> !LateReuse(calls, i, n)
    ensures Says(calls, sweeps, n) <==> FirstUse(calls, n)
  {
    var i := FirstUseOf(calls, n);
    FirstUseAccepted(calls, sweeps, i);
    if i < n {
      assert !LateReuse(calls, i, n);
      if Says(calls, sweeps, n) {
        AcceptedTwiceIsLate(calls, sweeps, 0, i, n);
      }
    }
  }

  /** Before any late reuse, the in-memory store has what the first use recorded, if anything. */
  lemma {:induction false} RecordsFirstUse(calls: seq<Call>, sweeps: Sweeps, i: nat, n: nat)
    requires Monotone(calls) && WithinDrift(calls, sweeps, 0) && i < n <= |calls| && FirstUse(calls, i)
    requires NoLateReuse(calls, n)
    ensures calls[i].nonce in After(calls, sweeps, n) ==> After(calls, sweeps, n)[calls[i].nonce] == calls[i].expiresAt
    decreases n
  {
    var m := n - 1;
    if i < m {
      RecordsFirstUse(calls, sweeps, i, m);
      forall k | 0 <= k < m ensures !LateReuse(calls, k, m) {
      }
      AnswersFirstUse(calls, sweeps, m);
      assert calls[m].nonce == calls[i].nonce ==> !FirstUse(calls, m);
    } else {
      FirstUseAccepted(calls, sweeps, i);
    }
  }

  /** A late reuse before which there is none is accepted by the in-memory store. */
  lemma InlineAcceptsLateReuse(calls: seq<Call>, i: nat, n: nat)
    requires Monotone(calls) && i < n < |calls| && NoLateReuse(calls, n) && LateReuse(calls, i, n)
    ensures Says(calls, Inline(calls), n)
  {
    RecordsFirstUse(calls, Inline(calls), i, n);
  }

  /** A store that never sweeps refuses every reuse. */
  lemma {:induction false} NoSweepsRemember(calls: seq<Call>, i: nat, n: nat)
    requires i < n <= |calls|
    ensures calls[i].nonce in After(calls, NoSweeps(), n)
    decreases n
  {
    if i < n - 1 {
      NoSweepsRemember(calls, i, n - 1);
    }
  }

  lemma {:induction false} EarliestLateReuse(calls: seq<Call>, i: nat, n: nat) returns (k: nat, m: nat)
    requires i < n < |calls| && LateReuse(calls, i, n)
    ensures k < m < |calls| && LateReuse(calls, k, m) && NoLateReuse(calls, m)
    decreases n
  {
    if NoLateReuse(calls, n) {
      k, m := i, n;
    } else {
      var a, b :| 0 <= a < b < n && LateReuse(calls, a, b);
      k, m := EarliestLateReuse(calls, a, b);
    }
  }

  ghost predicate SameAnswers(calls: seq<Call>, a: Sweeps, b: Sweeps) {
    forall n :: 0 <= n < |calls| ==> Says(calls, a, n) == Says(calls, b, n)
  }

  /** Every call but a nonce's first is refused, and the first is accepted. */
  ghost predicate SingleUse(calls: seq<Call>, sweeps: Sweeps) {
    forall n :: 0 <= n < |calls| ==> (Says(calls, sweeps, n) <==> FirstUse(calls, n))
  }

  /**
   * Single use as promised, "exactly once per nonce", holds of the in-memory store if and only if
   * no nonce comes back after the expiry its first use recorded.
   */
  lemma InMemorySingleUse(calls: seq<Call>)
    requires Monotone(calls)
    ensures SingleUse(calls, Inline(calls)) <==> NoLateReuse(calls, |calls|)
  {
    if NoLateReuse(calls, |calls|) {
      forall n | 0 <= n < |calls| ensures Says(calls, Inline(calls), n) <==> FirstUse(calls, n) {
        AnswersFirstUse(calls, Inline(calls), n);
      }
    } else {
      var i, n :| 0 <= i < n < |calls| && LateReuse(calls, i, n);
      var k, m := EarliestLateReuse(calls, i, n);
      InlineAcceptsLateReuse(calls, k, m);
      assert !FirstUse(calls, m);
    }
  }

  /**
   * The two stores give the same answers under every pattern of sweeps, none included, if and only
   * if no nonce comes back after the expiry its first use recorded.
   */
  lemma StoresAgreeExactly(calls: seq<Call>)
    requires Monotone(calls)
    ensures (forall sweeps: Sweeps :: WithinDrift(calls, sweeps, 0) ==> SameAnswers(calls, sweeps, Inline(calls)))
            <==> NoLateReuse(calls, |calls|)
  {
    if NoLateReuse(calls, |calls|) {
      forall sweeps: Sweeps | WithinDrift(calls, sweeps, 0) ensures SameAnswers(calls, sweeps, Inline(calls)) {
        forall n | 0 <= n < |calls| ensures Says(calls, sweeps, n) == Says(calls, Inline(calls), n) {
          AnswersFirstUse(calls, sweeps, n);
          AnswersFirstUse(calls, Inline(calls), n);
        }
      }
    } else {
      var i, n :| 0 <= i < n < |calls| && LateReuse(calls, i, n);
      var k, m := EarliestLateReuse(calls, i, n);
      InlineAcceptsLateReuse(calls, k, m);
      NoSweepsRemember(calls, k, m);
      assert WithinDrift(calls, NoSweeps(), 0);
      assert !SameAnswers(calls, NoSweeps(), Inline(calls));
    }
  }
}
