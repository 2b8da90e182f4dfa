/**
 * All requests the service receives, over time. Verify and Consume are separate steps on a clock
 * that never goes back; sweeps come at any time, as with the PostgreSQL nonce store, which also
 * covers the in-memory one, where a sweep comes right before every Consume. An admitted upload runs
 * its handler once, and that appends at most once.
 */
module Admissions {
  import opened Base
  import opened BlobKeys
  import opened AtomicLog
  import opened Encodings
  import opened NonceStores
  import opened AuthProof

  /** The entry an upload's target names, as the router and the query parameters give it. */
  datatype Target = Target(device: string, generation: int, seqNo: int, prev: string)

  /**
   * What stays fixed during a run: the wallet, the decoding of the header, the digest, and which
   * entry a request target names, if it names one that can be stored.
   */
  datatype Config = Config(wallet: Wallet, decode: Decoder, H: Hash, route: string -> Option<Target>)

  datatype Verified = Verified(proof: Proof, request: Incoming, digest: string, at: int)
  datatype Admission = Admission(proof: Proof, request: Incoming, digest: string, verifiedAt: int, consumedAt: int)

  /** An entry added to the log, and the admission that added it. */
  datatype Addition = Addition(admission: nat, key: BlobKey, blob: Blob)

  /**
   * `pending` are requests whose proof held and whose nonce has not been looked at yet; `handled`
   * are the admissions whose handler has called the store. Auxiliary: `since` is when the proof
   * behind a record was verified, `added` all the entries ever added to the log.
   */
  datatype State = State(
    clock: int, pending: map<nat, Verified>, records: Records, since: map<string, int>,
    admitted: seq<Admission>, handled: set<nat>, log: Log, added: seq<Addition>)

  function Init(clock: int): State {
    State(clock, map[], map[], map[], [], {}, map[], [])
  }

  datatype Step =
    | Tick(elapsed: nat)
    | Deliver(id: nat, request: Incoming)
    | Sweep
    | Consume(id: nat)
    | ConsumeFails(id: nat, landed: bool)
    | Upload(i: nat, data: Bytes, createdAt: nat)
    | Delete(scope: Scope)

  /** An upload can only store a non-empty body of the digest that was signed, where the request says. */
  predicate MayStore(c: Config, a: Admission, data: Bytes) {
    a.request.method' == "POST" && c.route(a.request.uri).Some? && data != [] && c.H(data) == a.digest
  }

  function KeyFor(c: Config, a: Admission): BlobKey
    requires c.route(a.request.uri).Some? && Signed(c.wallet, a.proof).Genuine?
  {
    var t := c.route(a.request.uri).value;
    BlobKey(Signed(c.wallet, a.proof).account, t.device, t.generation, t.seqNo)
  }

  predicate Enabled(c: Config, s: State, step: Step) {
    match step
    case Deliver(id, r) =>
      id !in s.pending && RequestLine(r.method', r.uri) && Judge(c.wallet, c.decode, r, s.clock).Sound?
    case Consume(id) => id in s.pending
    case ConsumeFails(id, _) => id in s.pending
    case Upload(i, data, _) =>
      && i < |s.admitted| && i !in s.handled
      && MayStore(c, s.admitted[i], data) && Signed(c.wallet, s.admitted[i].proof).Genuine?
    case _ => true
  }

  function CallOf(s: State, id: nat): Call
    requires id in s.pending
  {
    var p := s.pending[id].proof;
    Call(p.nonce, FromMilli(p.expiresAt), s.clock)
  }

  /** The insert of a Consume, and the time its record goes back to. */
  function Inserted(s: State, id: nat): State
    requires id in s.pending
  {
    var (records, unused) := Insert(s.records, CallOf(s, id));
    s.(records := records,
       since := if unused then s.since[CallOf(s, id).nonce := s.pending[id].at] else s.since,
       pending := s.pending - {id})
  }

  function Apply(c: Config, s: State, step: Step): State
    requires Enabled(c, s, step)
  {
    match step
    case Tick(d) => s.(clock := s.clock + d)
    case Deliver(id, r) =>
      var judged := Judge(c.wallet, c.decode, r, s.clock);
      s.(pending := s.pending[id := Verified(judged.proof, r, judged.digest, s.clock)])
    case Sweep => s.(records := Swept(s.records, s.clock))
    case Consume(id) =>
      var v := s.pending[id];
      if Insert(s.records, CallOf(s, id)).1
      then Inserted(s, id).(admitted := s.admitted + [NewAdmission(s, id)])
      else Inserted(s, id)
    case ConsumeFails(id, landed) => if landed then Inserted(s, id) else s.(pending := s.pending - {id})
    case Upload(i, data, createdAt) =>
      var key := KeyFor(c, s.admitted[i]);
      var blob := Blob(data, c.H(data), c.route(s.admitted[i].request.uri).value.prev, createdAt);
      var (log, outcome) := AtomicLog.Append(s.log, key, blob);
      s.(log := log, handled := s.handled + {i},
         added := if outcome.Stored? then s.added + [Addition(i, key, blob)] else s.added)
    case Delete(scope) => s.(log := Erase(s.log, scope).0)
  }

  function Run(c: Config, s: State, steps: seq<Step>): Option<State>
    decreases |steps|
  {
    if steps == [] then Some(s)
    else if Enabled(c, s, steps[0]) then Run(c, Apply(c, s, steps[0]), steps[1..])
    else None
  }

  ghost predicate Reachable(c: Config, s: State) {
    exists start, steps :: Run(c, Init(start), steps) == Some(s)
  }

  // ---- What every step keeps -------------------------------------------------------------------------

  /** By the clock at `at` the proof had not expired and was not too far in the future. */
  predicate FreshAt(expiresAt: int, at: int) {
    at < expiresAt <= at + WINDOW + SKEW
  }

  predicate PendingOk(s: State, id: nat)
    requires id in s.pending
  {
    var v := s.pending[id];
    FreshAt(FromMilli(v.proof.expiresAt), v.at) && v.at <= s.clock
  }

  predicate RecordOk(s: State, n: string)
    requires n in s.records
  {
    n in s.since && FreshAt(s.records[n], s.since[n]) && s.since[n] <= s.clock
  }

  /** The proof held before its nonce was consumed, and is on record until it has expired. */
  predicate AdmissionOk(s: State, a: Admission) {
    && FreshAt(FromMilli(a.proof.expiresAt), a.verifiedAt) && a.verifiedAt <= a.consumedAt <= s.clock
    && (s.clock <= FromMilli(a.proof.expiresAt) ==>
          a.proof.nonce in s.records && s.records[a.proof.nonce] == FromMilli(a.proof.expiresAt))
  }

  /** Of two admissions with one nonce the second came after the first one's expiry. */
  predicate SecondIsLate(s: State, i: nat, j: nat)
    requires i < j < |s.admitted|
  {
    s.admitted[i].proof.nonce == s.admitted[j].proof.nonce ==>
      s.admitted[j].consumedAt > FromMilli(s.admitted[i].proof.expiresAt)
  }

  ghost predicate HandlersOk(s: State) {
    && (forall i :: i in s.handled ==> i < |s.admitted|)
    && (forall j :: 0 <= j < |s.added| ==> s.added[j].admission in s.handled)
    && (forall j, k :: 0 <= j < k < |s.added| ==> s.added[j].admission != s.added[k].admission)
  }

  ghost predicate Inv(s: State) {
    && (forall id :: id in s.pending ==> PendingOk(s, id))
    && (forall n :: n in s.records ==> RecordOk(s, n))
    && (forall i :: 0 <= i < |s.admitted| ==> AdmissionOk(s, s.admitted[i]))
    && (forall i, j :: 0 <= i < j < |s.admitted| ==> SecondIsLate(s, i, j))
    && HandlersOk(s)
  }

  lemma InsertKeeps(s: State, id: nat)
    requires Inv(s) && id in s.pending
    ensures Inv(Inserted(s, id))
  {
    var s' := Inserted(s, id);
    assert PendingOk(s, id);
    forall n | n in s'.records ensures RecordOk(s', n) {
      assert n in s.records ==> RecordOk(s, n);
    }
    forall other | other in s'.pending ensures PendingOk(s', other) {
      assert PendingOk(s, other);
    }
    forall i | 0 <= i < |s'.admitted| ensures AdmissionOk(s', s'.admitted[i]) {
      assert AdmissionOk(s, s.admitted[i]);
    }
    forall i, j | 0 <= i < j < |s'.admitted| ensures SecondIsLate(s', i, j) {
      assert SecondIsLate(s, i, j);
    }
  }

  function NewAdmission(s: State, id: nat): Admission
    requires id in s.pending
  {
    var v := s.pending[id];
    Admission(v.proof, v.request, v.digest, v.at, s.clock)
  }

  /** A nonce that is not on record can be admitted: whoever used it before has expired. */
  lemma AdmitKeeps(s: State, id: nat)
    requires Inv(s) && id in s.pending && s.pending[id].proof.nonce !in s.records
    ensures Inv(Inserted(s, id).(admitted := s.admitted + [NewAdmission(s, id)]))
  {
    var v := s.pending[id];
    var s1 := Inserted(s, id);
    var s' := s1.(admitted := s.admitted + [NewAdmission(s, id)]);
    InsertKeeps(s, id);
    assert PendingOk(s, id);
    forall n | n in s'.records ensures RecordOk(s', n) {
      assert RecordOk(s1, n);
    }
    forall other | other in s'.pending ensures PendingOk(s', other) {
      assert PendingOk(s1, other);
    }
    forall i | 0 <= i < |s'.admitted| ensures AdmissionOk(s', s'.admitted[i]) {
      assert i < |s.admitted| ==> AdmissionOk(s1, s1.admitted[i]);
    }
    forall i, j | 0 <= i < j < |s'.admitted| ensures SecondIsLate(s', i, j) {
      assert AdmissionOk(s, s.admitted[i]);
      assert j < |s.admitted| ==> SecondIsLate(s, i, j);
    }
  }

  lemma SweepKeeps(s: State)
    requires Inv(s)
    ensures Inv(s.(records := Swept(s.records, s.clock)))
  {
    var s' := s.(records := Swept(s.records, s.clock));
    forall n | n in s'.records ensures RecordOk(s', n) {
      assert RecordOk(s, n);
    }
    forall id | id in s'.pending ensures PendingOk(s', id) {
      assert PendingOk(s, id);
    }
    forall i | 0 <= i < |s'.admitted| ensures AdmissionOk(s', s'.admitted[i]) {
      assert AdmissionOk(s, s.admitted[i]);
    }
    forall i, j | 0 <= i < j < |s'.admitted| ensures SecondIsLate(s', i, j) {
      assert SecondIsLate(s, i, j);
    }
  }

  lemma TickKeeps(s: State, d: nat)
    requires Inv(s)
    ensures Inv(s.(clock := s.clock + d))
  {
    var s' := s.(clock := s.clock + d);
    forall n | n in s'.records ensures RecordOk(s', n) {
      assert RecordOk(s, n);
    }
    forall id | id in s'.pending ensures PendingOk(s', id) {
      assert PendingOk(s, id);
    }
    forall i | 0 <= i < |s'.admitted| ensures AdmissionOk(s', s'.admitted[i]) {
      assert AdmissionOk(s, s.admitted[i]);
    }
    forall i, j | 0 <= i < j < |s'.admitted| ensures SecondIsLate(s', i, j) {
      assert SecondIsLate(s, i, j);
    }
  }

  /** The parts of the state that the nonce bookkeeping is about. */
  predicate SameNonces(s: State, s': State) {
    s'.clock == s.clock && s'.records == s.records && s'.since == s.since && s'.admitted == s.admitted
  }

  lemma OtherStepsKeep(s: State, s': State)
    requires Inv(s) && SameNonces(s, s') && HandlersOk(s')
    requires forall id :: id in s'.pending ==> PendingOk(s', id)
    ensures Inv(s')
  {
    forall n | n in s'.records ensures RecordOk(s', n) {
      assert RecordOk(s, n);
    }
    forall i | 0 <= i < |s'.admitted| ensures AdmissionOk(s', s'.admitted[i]) {
      assert AdmissionOk(s, s.admitted[i]);
    }
    forall i, j | 0 <= i < j < |s'.admitted| ensures SecondIsLate(s', i, j) {
      assert SecondIsLate(s, i, j);
    }
  }

  lemma DeliverKeeps(c: Config, s: State, id: nat, r: Incoming)
    requires Inv(s) && Enabled(c, s, Deliver(id, r))
    ensures Inv(Apply(c, s, Deliver(id, r)))
  {
    var p := Judge(c.wallet, c.decode, r, s.clock).proof;
    VerifiedIsFresh(c.wallet, p, p.action, s.clock);
    var s' := Apply(c, s, Deliver(id, r));
    forall other | other in s'.pending ensures PendingOk(s', other) {
      assert other != id ==> PendingOk(s, other);
    }
    OtherStepsKeep(s, s');
  }

  lemma StepKeeps(c: Config, s: State, step: Step)
    requires Inv(s) && Enabled(c, s, step)
    ensures Inv(Apply(c, s, step))
  {
    var s' := Apply(c, s, step);
    match step {
      case Tick(d) => TickKeeps(s, d);
      case Deliver(id, r) => DeliverKeeps(c, s, id, r);
      case Sweep => SweepKeeps(s);
      case Consume(id) =>
        InsertKeeps(s, id);
        if s.pending[id].proof.nonce !in s.records { AdmitKeeps(s, id); }
      case ConsumeFails(id, landed) =>
        if landed { InsertKeeps(s, id); } else { DropPending(s, id); }
      case _ =>
        forall id | id in s'.pending ensures PendingOk(s', id) { assert PendingOk(s, id); }
        OtherStepsKeep(s, s');
    }
  }

  lemma DropPending(s: State, id: nat)
    requires Inv(s)
    ensures Inv(s.(pending := s.pending - {id}))
  {
    var s' := s.(pending := s.pending - {id});
    forall other | other in s'.pending ensures PendingOk(s', other) { assert PendingOk(s, other); }
    OtherStepsKeep(s, s');
  }

  lemma {:induction false} RunKeeps(c: Config, s: State, steps: seq<Step>)
    requires Inv(s) && Run(c, s, steps).Some?
    ensures Inv(Run(c, s, steps).value)
    decreases |steps|
  {
    if steps != [] {
      StepKeeps(c, s, steps[0]);
      RunKeeps(c, Apply(c, s, steps[0]), steps[1..]);
    }
  }

  lemma ReachableKeeps(c: Config, s: State)
    requires Reachable(c, s)
    ensures Inv(s)
  {
    var start, steps :| Run(c, Init(start), steps) == Some(s);
    RunKeeps(c, Init(start), steps);
  }

  // ---- The guarantees --------------------------------------------------------------------------------

  /**
   * Over every run, with any sweeps and any failures: a nonce, and so a proof, is admitted a second
   * time only if its Consume runs strictly after the expiry of the proof admitted first.
   */
  lemma SecondAdmissionIsLate(c: Config, s: State, i: nat, j: nat)
    requires Reachable(c, s) && i < j < |s.admitted| && s.admitted[i].proof.nonce == s.admitted[j].proof.nonce
    ensures s.admitted[j].consumedAt > FromMilli(s.admitted[i].proof.expiresAt)
  {
    ReachableKeeps(c, s);
    assert SecondIsLate(s, i, j);
  }

  ghost predicate ConsumedByExpiry(s: State, p: Proof) {
    forall i :: 0 <= i < |s.admitted| && s.admitted[i].proof == p ==> s.admitted[i].consumedAt <= FromMilli(p.expiresAt)
  }

  /** The entries of the log that uploads carrying p ever added. */
  function AddedBy(s: State, p: Proof): set<nat> {
    set j: nat | j < |s.added| && s.added[j].admission < |s.admitted| && s.admitted[s.added[j].admission].proof == p
  }

  /**
   * However often the request is delivered: a proof that is always consumed by its expiry is
   * admitted at most once and adds at most one entry to the log.
   */
  lemma ProofAddsAtMostOne(c: Config, s: State, p: Proof)
    requires Reachable(c, s) && ConsumedByExpiry(s, p)
    ensures forall i, j :: 0 <= i < j < |s.admitted| && s.admitted[i].proof == p ==> s.admitted[j].proof != p
    ensures |AddedBy(s, p)| <= 1
  {
    forall i, j | 0 <= i < j < |s.admitted| && s.admitted[i].proof == p ensures s.admitted[j].proof != p {
      if s.admitted[j].proof == p {
        SecondAdmissionIsLate(c, s, i, j);
      }
    }
    ReachableKeeps(c, s);
    if AddedBy(s, p) != {} {
      var j := AnyOf(AddedBy(s, p));
      forall k | k in AddedBy(s, p) ensures k == j {
      }
      assert AddedBy(s, p) == {j};
    }
  }

  /** The record goes back to a proof verified within the last window and skew. */
  predicate Recent(s: State, n: string) {
    n in s.since && s.clock - (WINDOW + SKEW) <= s.since[n] <= s.clock
  }

  ghost predicate AllRecent(s: State) {
    forall n :: n in s.records ==> Recent(s, n)
  }

  lemma SweptAreRecent(s: State)
    requires Inv(s)
    ensures AllRecent(s.(records := Swept(s.records, s.clock)))
  {
    forall n | n in Swept(s.records, s.clock) ensures Recent(s, n) {
      assert RecordOk(s, n);
    }
  }

  /** What a Consume that sweeps first, as the in-memory store's does, leaves behind. */
  function SweepAndConsume(c: Config, s: State, id: nat): State
    requires id in s.pending
  {
    Apply(c, Apply(c, s, Sweep), Consume(id))
  }

  /**
   * After a Consume that sweeps first, all records go back to proofs verified within the last window
   * and skew if and only if the Consume refused, or its own proof was verified that recently.
   */
  lemma RecordsAreRecentExactly(c: Config, s: State, id: nat)
    requires Reachable(c, s) && id in s.pending
    ensures AllRecent(SweepAndConsume(c, s, id)) <==>
              || s.pending[id].proof.nonce in Swept(s.records, s.clock)
              || s.clock - (WINDOW + SKEW) <= s.pending[id].at
  {
    ReachableKeeps(c, s);
    SweptAreRecent(s);
    assert PendingOk(s, id);
    var swept := Apply(c, s, Sweep);
    var after := SweepAndConsume(c, s, id);
    var n := s.pending[id].proof.nonce;
    assert AllRecent(swept);
    forall m | m in after.records && m != n ensures Recent(after, m) {
      assert Recent(swept, m);
    }
    if n in swept.records {
      assert Recent(swept, n);
    } else {
      assert n in after.records && after.since[n] == s.pending[id].at;
    }
  }

  /** So a Consume that runs by the expiry leaves recent records only. */
  lemma TimelyConsumeLeavesRecent(c: Config, s: State, id: nat)
    requires Reachable(c, s) && id in s.pending && s.clock <= FromMilli(s.pending[id].proof.expiresAt)
    ensures AllRecent(SweepAndConsume(c, s, id))
  {
    ReachableKeeps(c, s);
    assert PendingOk(s, id);
    RecordsAreRecentExactly(c, s, id);
  }

  lemma RunOne(c: Config, s: State, step: Step, rest: seq<Step>)
    requires Enabled(c, s, step)
    ensures Run(c, s, [step] + rest) == Run(c, Apply(c, s, step), rest)
  {
    assert ([step] + rest)[1..] == rest;
  }

  /** A request delivered twice, the second copy verified in time but consumed `wait` later, after a sweep. */
  function Twice(r: Incoming, wait: nat): seq<Step> {
    [Deliver(0, r)] + ([Deliver(1, r)] + ([Consume(0)] + ([Tick(wait)] + ([Sweep] + ([Consume(1)] + [])))))
  }

  /**
   * Single use does depend on when Consume runs: for every request whose proof holds, the second
   * copy is admitted too if and only if its Consume runs after the proof's expiry.
   */
  lemma LateConsumeIsAdmitted(c: Config, r: Incoming, start: int, wait: nat)
    requires RequestLine(r.method', r.uri) && Judge(c.wallet, c.decode, r, start).Sound?
    ensures var end := Run(c, Init(start), Twice(r, wait));
            end.Some? && |end.value.admitted| ==
              if start + wait > FromMilli(Judge(c.wallet, c.decode, r, start).proof.expiresAt) then 2 else 1
  {
    var p := Judge(c.wallet, c.decode, r, start).proof;
    var n, expiry := p.nonce, FromMilli(p.expiresAt);
    var late := start + wait > expiry;
    var v := Verified(p, r, Judge(c.wallet, c.decode, r, start).digest, start);
    var a := Admission(p, r, v.digest, start, start);
    var s0 := Init(start);
    var s1 := s0.(pending := map[0 := v]);
    var s2 := s0.(pending := map[0 := v, 1 := v]);
    var s3 := s0.(pending := map[1 := v], records := map[n := expiry],
                    since := map[n := start], admitted := [a]);
    var s4 := s3.(clock := start + wait);
    var s5 := s4.(records := if late then map[] else map[n := expiry]);
    assert Apply(c, s0, Deliver(0, r)) == s1 && Apply(c, s1, Deliver(1, r)) == s2;
    assert Apply(c, s2, Consume(0)) == s3;
    assert Apply(c, s3, Tick(wait)) == s4 && Apply(c, s4, Sweep) == s5;
    RunOne(c, s5, Consume(1), []);
    RunOne(c, s4, Sweep, [Consume(1)] + []);
    RunOne(c, s3, Tick(wait), [Sweep] + ([Consume(1)] + []));
    RunOne(c, s2, Consume(0), [Tick(wait)] + ([Sweep] + ([Consume(1)] + [])));
    RunOne(c, s1, Deliver(1, r), [Consume(0)] + ([Tick(wait)] + ([Sweep] + ([Consume(1)] + []))));
    RunOne(c, s0, Deliver(0, r), [Deliver(1, r)] + ([Consume(0)] + ([Tick(wait)] + ([Sweep] + ([Consume(1)] + [])))));
  }

  /** A request delivered, and its nonce consumed `wait` later, after a sweep. */
  function Slow(r: Incoming, wait: nat): seq<Step> {
    [Deliver(0, r)] + ([Tick(wait)] + ([Sweep] + ([Consume(0)] + [])))
  }

  /**
   * "Verified within the last window and skew" does fail of a record: for every request whose proof
   * holds and every longer wait, a late Consume leaves a record that goes back further.
   */
  lemma LateConsumeLeavesOldRecord(c: Config, r: Incoming, start: int, wait: nat)
    requires RequestLine(r.method', r.uri) && Judge(c.wallet, c.decode, r, start).Sound?
    requires wait > WINDOW + SKEW
    ensures var end := Run(c, Init(start), Slow(r, wait));
            end.Some? && !AllRecent(end.value)
  {
    var judged := Judge(c.wallet, c.decode, r, start);
    var p, v := judged.proof, Verified(judged.proof, r, judged.digest, start);
    var s0 := Init(start);
    var s1 := s0.(pending := map[0 := v]);
    var s2 := s1.(clock := start + wait);
    assert Apply(c, s0, Deliver(0, r)) == s1 && Apply(c, s1, Tick(wait)) == s2;
    assert Apply(c, s2, Sweep) == s2;
    var s3 := Apply(c, s2, Consume(0));
    RunOne(c, s2, Consume(0), []);
    RunOne(c, s2, Sweep, [Consume(0)] + []);
    RunOne(c, s1, Tick(wait), [Sweep] + ([Consume(0)] + []));
    RunOne(c, s0, Deliver(0, r), [Tick(wait)] + ([Sweep] + ([Consume(0)] + [])));
    assert p.nonce in s3.records && s3.since[p.nonce] == start && !Recent(s3, p.nonce);
  }

  // ---- Where entries come from -----------------------------------------------------------------------

  /** The proof was genuine and signed this very request, with this digest. */
  predicate Genuinely(c: Config, p: Proof, r: Incoming, digest: string) {
    && Signed(c.wallet, p).Genuine?
    && p.action == Action(r.method', r.uri, digest) && DigestShape(digest) && RequestLine(r.method', r.uri)
  }

  /** The entry was signed for by its account, at its place and with its digest. */
  ghost predicate SignedFor(c: Config, s: State, a: Addition) {
    a.admission < |s.admitted| &&
    var adm := s.admitted[a.admission];
    && Genuinely(c, adm.proof, adm.request, adm.digest)
    && MayStore(c, adm, a.blob.data) && a.key == KeyFor(c, adm)
    && a.blob.sha == adm.digest == c.H(a.blob.data)
    && a.blob.prev == c.route(adm.request.uri).value.prev
  }

  predicate WasAdded(s: State, k: BlobKey) {
    k in s.log && exists j :: 0 <= j < |s.added| && s.added[j].key == k && s.added[j].blob == s.log[k]
  }

  ghost predicate Traced(c: Config, s: State) {
    && (forall id :: id in s.pending ==>
          Genuinely(c, s.pending[id].proof, s.pending[id].request, s.pending[id].digest))
    && (forall i :: 0 <= i < |s.admitted| ==>
          Genuinely(c, s.admitted[i].proof, s.admitted[i].request, s.admitted[i].digest))
    && (forall j :: 0 <= j < |s.added| ==> SignedFor(c, s, s.added[j]))
    && (forall k :: k in s.log ==> WasAdded(s, k))
  }

  lemma DeliverKeepsTrace(c: Config, s: State, id: nat, r: Incoming)
    requires Traced(c, s) && Enabled(c, s, Deliver(id, r))
    ensures Traced(c, Apply(c, s, Deliver(id, r)))
  {
    var judged := Judge(c.wallet, c.decode, r, s.clock);
    SoundExactly(c.wallet, c.decode, r, s.clock, judged.proof, judged.digest);
    var s' := Apply(c, s, Deliver(id, r));
    forall j | 0 <= j < |s'.added| ensures SignedFor(c, s', s'.added[j]) {
      assert SignedFor(c, s, s.added[j]);
    }
    forall k | k in s'.log ensures WasAdded(s', k) {
      assert WasAdded(s, k);
    }
  }

  /** More admissions, fewer pending requests, fewer entries: nothing to trace anew. */
  lemma SameAdditionsKeepTrace(c: Config, s: State, s': State)
    requires Traced(c, s) && s'.added == s.added && s.admitted <= s'.admitted
    requires forall id :: id in s'.pending ==> id in s.pending && s'.pending[id] == s.pending[id]
    requires forall i :: |s.admitted| <= i < |s'.admitted| ==>
               Genuinely(c, s'.admitted[i].proof, s'.admitted[i].request, s'.admitted[i].digest)
    requires forall k :: k in s'.log ==> k in s.log && s'.log[k] == s.log[k]
    ensures Traced(c, s')
  {
    forall j | 0 <= j < |s'.added| ensures SignedFor(c, s', s'.added[j]) {
      assert SignedFor(c, s, s.added[j]);
    }
    forall k | k in s'.log ensures WasAdded(s', k) {
      assert WasAdded(s, k);
    }
  }

  /** An upload adds its entry, signed for, or nothing. */
  lemma UploadIsSignedFor(c: Config, s: State, i: nat, data: Bytes, createdAt: nat)
    requires Traced(c, s) && Enabled(c, s, Upload(i, data, createdAt))
    ensures var s' := Apply(c, s, Upload(i, data, createdAt));
            forall j :: 0 <= j < |s'.added| ==> SignedFor(c, s', s'.added[j])
  {
    var s' := Apply(c, s, Upload(i, data, createdAt));
    forall j | 0 <= j < |s'.added| ensures SignedFor(c, s', s'.added[j]) {
      if j < |s.added| {
        assert SignedFor(c, s, s.added[j]);
      }
    }
  }

  lemma StaysAdded(s: State, s': State, k: BlobKey)
    requires WasAdded(s, k) && k in s'.log && s'.log[k] == s.log[k] && s.added <= s'.added
    ensures WasAdded(s', k)
  {
    var j :| 0 <= j < |s.added| && s.added[j].key == k && s.added[j].blob == s.log[k];
    assert s'.added[j] == s.added[j];
  }

  lemma UploadKeepsTrace(c: Config, s: State, i: nat, data: Bytes, createdAt: nat)
    requires Traced(c, s) && Enabled(c, s, Upload(i, data, createdAt))
    ensures Traced(c, Apply(c, s, Upload(i, data, createdAt)))
  {
    var s' := Apply(c, s, Upload(i, data, createdAt));
    UploadIsSignedFor(c, s, i, data, createdAt);
    forall k | k in s'.log ensures WasAdded(s', k) {
      if k == KeyFor(c, s.admitted[i]) && s'.added != s.added {
        assert s'.added[|s.added|].key == k;
      } else {
        StaysAdded(s, s', k);
      }
    }
  }

  lemma StepKeepsTrace(c: Config, s: State, step: Step)
    requires Traced(c, s) && Enabled(c, s, step)
    ensures Traced(c, Apply(c, s, step))
  {
    match step {
      case Deliver(id, r) => DeliverKeepsTrace(c, s, id, r);
      case Upload(i, data, createdAt) => UploadKeepsTrace(c, s, i, data, createdAt);
      case _ => SameAdditionsKeepTrace(c, s, Apply(c, s, step));
    }
  }

  lemma {:induction false} RunKeepsTrace(c: Config, s: State, steps: seq<Step>)
    requires Traced(c, s) && Run(c, s, steps).Some?
    ensures Traced(c, Run(c, s, steps).value)
    decreases |steps|
  {
    if steps != [] {
      StepKeepsTrace(c, s, steps[0]);
      RunKeepsTrace(c, Apply(c, s, steps[0]), steps[1..]);
    }
  }

  /**
   * Over every run: each entry ever added to the log, and so each entry in it, goes back to a
   * genuine proof of that entry's account, for an upload request whose target names that entry and
   * whose signed digest is the digest of the bytes stored.
   */
  lemma EveryEntryWasSignedFor(c: Config, s: State)
    requires Reachable(c, s)
    ensures forall j :: 0 <= j < |s.added| ==> SignedFor(c, s, s.added[j])
    ensures forall k :: k in s.log ==> WasAdded(s, k)
  {
    var start, steps :| Run(c, Init(start), steps) == Some(s);
    RunKeepsTrace(c, Init(start), steps);
  }
}
