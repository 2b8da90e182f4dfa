/**
 * The in-memory blob store: a map from row keys to rows, changed in place. Each method body that
 * holds the lock is one atomic step; Append holds it twice and drains the body in between.
 */
module MemoryStore {
  import opened Base
  import opened BlobKeys
  import opened AtomicLog
  import opened Encodings
  import opened LogQueries
  import opened Sorting
  import opened Readers
  import opened MemoryRows

  /** What another call can do to the store while an upload drains: one of its lock sections. */
  datatype Op =
    | Commit(row: Row)
    | Prune(pseudonym: string, device: string, generation: int)
    | EraseAccount(pseudonym: string)

  predicate OpOk(H: Hash, op: Op) {
    op.Commit? ==> CleanKey(op.row.key) && op.row.sha == H(op.row.data) && op.row.data != []
  }

  function SpecOp(log: Log, op: Op): (Log, Outcome) {
    match op
    case Commit(row) => AtomicLog.Append(log, row.key, row.Blob())
    case Prune(p, d, g) => AtomicLog.Prune(log, p, d, g)
    case EraseAccount(p) => Erase(log, Account(p))
  }

  function SpecOps(log: Log, ops: seq<Op>): Log
    decreases |ops|
  {
    if ops == [] then log else SpecOps(SpecOp(log, ops[0]).0, ops[1..])
  }

  lemma NewestIs(keys: set<BlobKey>, pseudonym: string, device: string, newest: Option<int>)
    requires newest.None? ==> forall k :: k in keys ==> !k.OfDevice(pseudonym, device)
    requires newest.Some? ==>
               && (exists k :: k in keys && k.OfDevice(pseudonym, device) && k.generation == newest.value)
               && forall k :: k in keys && k.OfDevice(pseudonym, device) ==> k.generation <= newest.value
    ensures Newest(keys, pseudonym, device) == newest
  {
  }

  /** What an upload may answer, given the log when it was called and the lock sections that ran while it drained. */
  ghost predicate AppendAnswers(
    H: Hash, before: Log, after: Log, body: Stack, spare: nat -> nat,
    k: BlobKey, prev: string, others: seq<Op>, createdAt: nat, outcome: Outcome)
    requires Consistent(body) && forall n :: spare(n) > 0
  {
    if k.seqNo != HeadSeq(before.Keys, k) + 1 then
      outcome == SeqConflict && after == before
    else
      var mid := SpecOps(before, others);
      var (_, data, err) := Collect(H, body, spare, []);
      if err != NoErr then outcome == ReadFailed(err) && after == mid
      else if data == [] then outcome == EmptyBlob && after == mid
      else (after, outcome) == AtomicLog.Append(mid, k, AtomicLog.Blob(data, H(data), prev, createdAt))
  }

  lemma {:induction false} SpecOpsKeepContiguous(log: Log, ops: seq<Op>)
    requires Contiguous(log.Keys)
    ensures Contiguous(SpecOps(log, ops).Keys)
    decreases |ops|
  {
    if ops != [] {
      match ops[0] {
        case Commit(row) => AppendKeepsContiguous(log, row.key, row.Blob());
        case Prune(p, d, g) => EraseKeepsContiguous(log, Generation(p, d, g));
        case EraseAccount(p) => EraseKeepsContiguous(log, Account(p));
      }
      SpecOpsKeepContiguous(SpecOp(log, ops[0]).0, ops[1..]);
    }
  }

  /**
   * The two-phase append is one atomic append: whatever ran while its body drained, a conflict is
   * what the atomic log answers at one of the two checks, and success what it answers at the
   * second; any other answer has left the log alone. No log ever has a gap.
   */
  lemma AppendIsAtomic(
      H: Hash, before: Log, after: Log, body: Stack, spare: nat -> nat,
      k: BlobKey, prev: string, others: seq<Op>, createdAt: nat, outcome: Outcome)
    requires Contiguous(before.Keys) && Consistent(body) && forall n :: spare(n) > 0
    requires AppendAnswers(H, before, after, body, spare, k, prev, others, createdAt, outcome)
    ensures Contiguous(after.Keys)
    ensures var mid := SpecOps(before, others);
            match outcome
            case SeqConflict =>
              exists blob ::
                (after, outcome) == AtomicLog.Append(before, k, blob) || (after, outcome) == AtomicLog.Append(mid, k, blob)
            case Stored(sha, size) =>
              && k !in mid && (k.seqNo == 1 || k.At(k.seqNo - 1) in mid)
              && k in after && after[k].sha == sha == H(after[k].data) && |after[k].data| == size > 0
              && (after, outcome) == AtomicLog.Append(mid, k, after[k])
            case _ => after == mid && (outcome == EmptyBlob || outcome.ReadFailed?)
  {
    var mid := SpecOps(before, others);
    SpecOpsKeepContiguous(before, others);
    var data := Collect(H, body, spare, []).1;
    var blob := AtomicLog.Blob(data, H(data), prev, createdAt);
    AppendKeepsContiguous(mid, k, blob);
    NextSlot(mid.Keys, k);
    assert outcome == SeqConflict ==>
      (after, outcome) == AtomicLog.Append(before, k, blob) || (after, outcome) == AtomicLog.Append(mid, k, blob);
  }

  /** How far an upload has read its body by the time it answers. */
  ghost function BodyAfter(H: Hash, before: Log, body: Stack, spare: nat -> nat, k: BlobKey): Stack
    requires Consistent(body) && forall n :: spare(n) > 0
  {
    if k.seqNo != HeadSeq(before.Keys, k) + 1 then body else Collect(H, body, spare, []).0
  }

  class Store {
    const H: Hash
    var rows: Rows

    ghost predicate Valid()
      reads this
    {
      RowsOk(H, rows)
    }

    ghost function Log(): Log
      requires Valid()
      reads this
    {
      LogOf(H, rows)
    }

    constructor (H: Hash)
      ensures this.H == H && rows == map[] && Valid() && Log() == map[]
    {
      this.H, rows := H, map[];
    }

    /** The highest sequence number of a log: one pass over all rows, in any order. */
    method HeadSeqLocked(k: BlobKey) returns (head: int)
      requires Valid()
      ensures head == HeadSeq(Log().Keys, k)
    {
      head := 0;
      var todo := rows.Keys;
      while todo != {}
        invariant todo <= rows.Keys
        invariant head >= 0 && (head > 0 ==> k.At(head) in KeysOf(rows))
        invariant forall id :: id in rows && id !in todo && rows[id].key.SameLog(k) ==> rows[id].key.seqNo <= head
        decreases |todo|
      {
        var id :| id in todo;
        todo := todo - {id};
        var r := rows[id];
        if r.key.SameLog(k) {
          if r.key.seqNo > head {
            head := r.key.seqNo;
            assert k.At(head) == r.key;
          }
        }
      }
      HeadIsLength(KeysOf(rows), k);
      forall i | k.At(i) in KeysOf(rows) ensures i <= head {
        var id :| id in rows && rows[id].key == k.At(i);
      }
      assert k.At(HeadSeq(KeysOf(rows), k)) in KeysOf(rows) || HeadSeq(KeysOf(rows), k) == 0;
    }

    /** Append's second lock section: the authoritative sequence check and the insert. */
    method CommitAppend(row: Row) returns (outcome: Outcome)
      requires Valid() && OpOk(H, Commit(row))
      modifies this
      ensures Valid() && (Log(), outcome) == SpecOp(old(Log()), Commit(row))
    {
      var head := HeadSeqLocked(row.key);
      if row.key.seqNo != head + 1 {
        return SeqConflict;
      }
      assert RowOk(H, RowKey(row.key), row);
      PutRow(H, rows, row);
      rows := rows[RowKey(row.key) := row];
      return Stored(row.sha, |row.data|);
    }

    /** The shared tail of both deletes: every covered row goes, and is counted. */
    method DeleteCovered(scope: Scope) returns (n: nat)
      requires Valid()
      modifies this
      ensures Valid() && (Log(), Removed(n)) == Erase(old(Log()), scope)
    {
      n := 0;
      ghost var rows0 := rows;
      var todo := rows.Keys;
      while todo != {}
        invariant todo <= rows0.Keys
        invariant Dropping(rows0, rows, todo, scope, n)
        decreases |todo|
      {
        var id :| id in todo;
        DropStep(H, rows0, rows, todo, id, scope, n);
        todo := todo - {id};
        if scope.Covers(rows[id].key) {
          rows := rows - {id};
          n := n + 1;
        }
      }
      DropRows(H, rows0, rows, scope);
      DroppedIsCovered(H, rows0, scope);
    }

    /** DeleteGeneration's first loop: the newest generation of a device, if it has any rows. */
    method NewestGeneration(pseudonym: string, device: string) returns (found: bool, newest: int)
      requires Valid()
      ensures Newest(Log().Keys, pseudonym, device) == if found then Some(newest) else None
    {
      newest, found := 0, false;
      var todo := rows.Keys;
      while todo != {}
        invariant todo <= rows.Keys && NewestSoFar(rows, todo, pseudonym, device, found, newest)
        decreases |todo|
      {
        var id :| id in todo;
        assert RowOk(H, id, rows[id]);
        NewestOneMore(rows, todo, id, pseudonym, device, found, newest);
        todo := todo - {id};
        var r := rows[id];
        if r.key.OfDevice(pseudonym, device) {
          found := true;
          if r.key.generation > newest {
            newest := r.key.generation;
          }
        }
      }
      NewestIs(KeysOf(rows), pseudonym, device, if found then Some(newest) else None);
    }

    /** DeleteGeneration: the guard and the removal, all under one lock. */
    method DeleteGeneration(pseudonym: string, device: string, generation: int) returns (outcome: Outcome)
      requires Valid()
      modifies this
      ensures Valid() && (Log(), outcome) == AtomicLog.Prune(old(Log()), pseudonym, device, generation)
      ensures PruneAnswers(old(Log()), Log(), pseudonym, device, generation, outcome)
    {
      PruneExactly(Log(), pseudonym, device, generation);
      var found, newest := NewestGeneration(pseudonym, device);
      if found && generation > newest - RETAINED_GENERATIONS {
        return RetentionGuard;
      }
      var n := DeleteCovered(Generation(pseudonym, device, generation));
      return Removed(n);
    }

    /** DeleteAccount: no guard, deliberately. */
    method DeleteAccount(pseudonym: string) returns (outcome: Outcome)
      requires Valid()
      modifies this
      ensures Valid() && (Log(), outcome) == Erase(old(Log()), Account(pseudonym))
      ensures Removes(old(Log()), Log(), (k: BlobKey) => k.pseudonym == pseudonym, outcome)
    {
      EraseAccountExactly(Log(), pseudonym);
      var n := DeleteCovered(Account(pseudonym));
      return Removed(n);
    }

    /** Other calls' lock sections, one after the other. */
    method RunOthers(ops: seq<Op>)
      requires Valid() && forall i :: 0 <= i < |ops| ==> OpOk(H, ops[i])
      modifies this
      ensures Valid() && Log() == SpecOps(old(Log()), ops)
    {
      var i := 0;
      while i < |ops|
        invariant 0 <= i <= |ops| && Valid()
        invariant SpecOps(old(Log()), ops) == SpecOps(Log(), ops[i..])
      {
        assert ops[i..][0] == ops[i] && ops[i..][1..] == ops[i + 1..];
        match ops[i] {
          case Commit(row) => var _ := CommitAppend(row);
          case Prune(p, d, g) => var _ := DeleteGeneration(p, d, g);
          case EraseAccount(p) => var _ := DeleteAccount(p);
        }
        i := i + 1;
      }
    }

    /**
     * Append: an advisory sequence check, the drain, during which any other calls run, and the
     * authoritative check. Either the first check refuses, as the atomic log would have there and
     * then; or the body fails and nothing is kept; or the outcome is the atomic log's at the end.
     */
    method Append(k: BlobKey, prev: string, body: DigestVerifyingBody, spare: nat -> nat, others: seq<Op>, createdAt: nat)
      returns (outcome: Outcome)
      requires Valid() && CleanKey(k) && (forall i :: 0 <= i < |others| ==> OpOk(H, others[i]))
      requires Consistent(body.State()) && body.H == H && forall n :: spare(n) > 0
      modifies this, body, body.rc, body.rc.rc, body.rc.guard`over
      ensures Valid()
      ensures AppendAnswers(H, old(Log()), Log(), old(body.State()), spare, k, prev, others, createdAt, outcome)
      ensures body.State() == BodyAfter(H, old(Log()), old(body.State()), spare, k)
    {
      ghost var log0, b0 := Log(), body.State();
      var head := HeadSeqLocked(k);
      var want := head + 1;
      if k.seqNo != want {
        return SeqConflict;
      }
      var data, err := body.ReadAll(spare);
      assert Log() == log0;
      RunOthers(others);
      if err != NoErr {
        return ReadFailed(err);
      }
      if |data| == 0 {
        return EmptyBlob;
      }
      var sha := H(data);
      outcome := CommitAppend(Row(k, sha, prev, data, createdAt));
    }

    /** Get: a copy of the data, or nothing. */
    method Get(k: BlobKey) returns (found: Option<Bytes>)
      requires Valid()
      ensures found == if k in Log() then Some(Log()[k].data) else None
    {
      FoundByKey(H, rows, k);
      if RowKey(k) !in rows {
        return None;
      }
      return Some(rows[RowKey(k)].data);
    }

    /** Index's loop: the entries that belong on the page, in map order. */
    method Gather(k: BlobKey, from: int) returns (out: seq<Entry>)
      requires Valid()
      ensures Gathers(Log(), k, from, out)
    {
      out := [];
      var todo := rows.Keys;
      ghost var ids: seq<string> := [];
      while todo != {}
        invariant todo <= rows.Keys
        invariant ListedSoFar(rows, todo, k, from, ids, out)
        decreases |todo|
      {
        var id :| id in todo;
        ListOneMore(rows, todo, id, k, from, ids, out);
        todo := todo - {id};
        var r := rows[id];
        if Listed(r, k, from) {
          out, ids := out + [RowEntry(r)], ids + [id];
        }
      }
      ListAll(H, rows, k, from, ids, out);
    }

    /** Index: gather, sort by sequence number, cut at the limit. */
    method Index(k: BlobKey, from: int, limit: int) returns (page: seq<Entry>)
      requires Valid()
      ensures OneToHead(Log().Keys, k) && page == IndexOf(Log(), k, from, limit)
    {
      var out := Gather(k, from);
      HeadIsLength(KeysOf(rows), k);
      SortedIsIndex(Log(), k, from, limit, out);
      page := Sort(EntryLess, out);
      if limit > 0 && |page| > limit {
        page := page[..limit];
      }
    }

    /** One row counted into the aggregate of its group. */
    method Tally(byDevGen: map<string, Agg>, r: Row) returns (a: Agg)
      ensures a == Bump(byDevGen, r)
    {
      var g := GroupOf(r);
      a := if g in byDevGen then byDevGen[g] else Agg(None, 0, 0);
      a := a.(total := a.total + |r.data|);
      if a.head.None? || r.key.seqNo > a.head.value.key.seqNo {
        a := a.(head := Some(r));
      }
      if r.createdAt > a.updatedAt {
        a := a.(updatedAt := r.createdAt);
      }
    }

    /** Manifest's first loop: one aggregate for each (device, generation), whatever the map order. */
    method Aggregate(pseudonym: string, ghost log: Log) returns (byDevGen: map<string, Agg>)
      requires Shows(rows, log)
      ensures Aggregated(rows, log, {}, pseudonym, byDevGen)
    {
      byDevGen := map[];
      var all := rows;
      var todo := all.Keys;
      while todo != {}
        invariant todo <= all.Keys
        invariant Aggregated(all, log, todo, pseudonym, byDevGen)
        decreases |todo|
      {
        var id :| id in todo;
        AggStep(all, log, todo, id, pseudonym, byDevGen);
        todo := todo - {id};
        var r := all[id];
        if r.key.pseudonym == pseudonym {
          var a := Tally(byDevGen, r);
          byDevGen := byDevGen[GroupOf(r) := a];
        }
      }
    }

    /** Manifest's second loop, again in any map order. */
    method Summaries(pseudonym: string, byDevGen: map<string, Agg>, ghost log: Log) returns (out: seq<Summary>)
      requires Shows(rows, log) && Aggregated(rows, log, {}, pseudonym, byDevGen)
      ensures IsManifest(log, pseudonym, Sort(SummaryLess, out))
    {
      out := [];
      var todo := byDevGen.Keys;
      ghost var gs: seq<string> := [];
      while todo != {}
        invariant todo <= byDevGen.Keys
        invariant SummedSoFar(byDevGen, todo, gs, out)
        decreases |todo|
      {
        var g :| g in todo;
        assert AggOk(rows, log, {}, pseudonym, g, byDevGen[g]);
        todo := todo - {g};
        out, gs := out + [SummaryOf(byDevGen[g])], gs + [g];
      }
      SortedIsManifest(rows, log, pseudonym, byDevGen, gs, out);
    }

    /** Manifest: aggregate, list the aggregates, sort. */
    method Manifest(pseudonym: string) returns (out: seq<Summary>)
      requires Valid()
      ensures IsManifest(Log(), pseudonym, out)
    {
      RowsShowLog(H, rows);
      var byDevGen := Aggregate(pseudonym, Log());
      out := Summaries(pseudonym, byDevGen, Log());
      out := Sort(SummaryLess, out);
    }
  }
}
