/** Concrete runs showing that the hypotheses of the theorems about the PostgreSQL store are needed. */
module PostgresCounterexamples {
  import opened Base
  import opened BlobKeys
  import opened PostgresModel
  import opened PostgresIntegrity

  lemma Take(H: Hash, s: State, step: Step)
    requires Reachable(H, s) && Enabled(s, step)
    ensures Reachable(H, Apply(H, s, step))
  {
    var steps :| Run(H, INIT, steps) == Some(s);
    RunSnoc(H, INIT, steps, step);
  }

  lemma InitReachable(H: Hash)
    ensures Reachable(H, INIT)
  {
    assert Run(H, INIT, []) == Some(INIT);
  }

  lemma HeadOf(keys: set<BlobKey>, k: BlobKey, head: nat)
    requires forall r :: r in keys && r.SameLog(k) ==> r.seqNo <= head
    requires if head == 0 then forall r :: r in keys ==> !r.SameLog(k) else k.At(head) in keys
    ensures HeadSeq(keys, k) == head
  {
    if head != 0 {
      assert k.At(head).SameLog(k);
    }
    var h := HeadSeq(keys, k);
    assert h != 0 ==> k.At(h).SameLog(k);
  }

  /** Other transactions that hold no row: the ones an uncontended append or delete can run beside. */
  ghost predicate Idle(others: map<Xid, Tx>) {
    forall y :: y in others ==>
      others[y].GoneChunks() == {} && others[y].GoneLog() == {} && (others[y].Appending? ==> others[y].chunks == [])
        && (others[y].Appending? ==> others[y].phase.Streaming?)
  }

  // ---- A one-byte append, statement by statement ---------------------------------------------

  lemma OpenAppend(H: Hash, s: State, k: BlobKey) returns (s': State)
    requires Reachable(H, s) && k.seqNo == HeadSeq(s.db.log.Keys, k) + 1
    ensures Reachable(H, s')
    ensures s' == s.(open := s.open[s.next := Appending(k, "", [], Streaming)], next := s.next + 1)
  {
    s' := Apply(H, s, HeadCheck(k, ""));
    Take(H, s, HeadCheck(k, ""));
  }

  lemma InsertOne(H: Hash, s: State, x: Xid, k: BlobKey, b: Byte) returns (s': State)
    requires Reachable(H, s) && x in s.open && s.open[x] == Appending(k, "", [], Streaming) && Idle(s.open - {x})
    requires ChunkKey(k, 0) !in s.db.chunks
    ensures Reachable(H, s') && s' == s.(open := s.open[x := Appending(k, "", [[b]], BodyEnded)])
  {
    assert forall y :: y in s.open && y != x ==> y in s.open - {x};
    s' := Apply(H, s, InsertChunk(x, [b]));
    assert [] + [[b]] == [[b]];
    Take(H, s, InsertChunk(x, [b]));
  }

  function OneRow(H: Hash, x: Xid, b: Byte): LogRow {
    LogRow(x, H(Flat([[b]])), None, |Flat([[b]])|, 0)
  }

  lemma LogOne(H: Hash, s: State, x: Xid, k: BlobKey, b: Byte) returns (s': State)
    requires Reachable(H, s) && x in s.open && s.open[x] == Appending(k, "", [[b]], BodyEnded) && Idle(s.open - {x})
    requires k !in s.db.log
    ensures Reachable(H, s') && s' == s.(open := s.open[x := Appending(k, "", [[b]], Logged(OneRow(H, x, b)))])
  {
    assert forall y :: y in s.open && y != x ==> y in s.open - {x};
    s' := Apply(H, s, InsertLog(x, 0));
    Take(H, s, InsertLog(x, 0));
  }

  /** The rest of a one-byte append whose head check has passed, without interference. */
  lemma FinishAppend(H: Hash, s: State, x: Xid, k: BlobKey, b: Byte) returns (s': State)
    requires Reachable(H, s) && x in s.open && s.open[x] == Appending(k, "", [], Streaming) && Idle(s.open - {x})
    requires k !in s.db.log && ChunkKey(k, 0) !in s.db.chunks
    ensures Reachable(H, s') && s'.open == s.open - {x} && s'.next == s.next
    ensures s'.db.log == s.db.log[k := OneRow(H, x, b)]
    ensures s'.db.chunks == s.db.chunks[ChunkKey(k, 0) := ChunkRow(x, [b])]
  {
    var s1 := InsertOne(H, s, x, k, b);
    assert s1.open - {x} == s.open - {x};
    var s2 := LogOne(H, s1, x, k, b);
    s' := CommitOne(H, s2, x, k, b);
    assert s'.open == s.open - {x};
  }

  lemma CommitOne(H: Hash, s: State, x: Xid, k: BlobKey, b: Byte) returns (s': State)
    requires Reachable(H, s) && x in s.open && s.open[x] == Appending(k, "", [[b]], Logged(OneRow(H, x, b)))
    ensures Reachable(H, s') && s'.open == s.open - {x} && s'.next == s.next
    ensures s'.db.log == s.db.log[k := OneRow(H, x, b)]
    ensures s'.db.chunks == s.db.chunks[ChunkKey(k, 0) := ChunkRow(x, [b])]
  {
    s' := Apply(H, s, CommitAppend(x));
    Take(H, s, CommitAppend(x));
    assert Without(s.open, x) == s.open - {x};
  }

  // ---- A delete, statement by statement ------------------------------------------------------

  /** The two moves of the first DELETE, when nobody else holds a row. */
  lemma SeeAndDeleteChunks(H: Hash, s: State, x: Xid) returns (s': State)
    requires InDelete(s, x) && s.open[x].stage.Begun? && Idle(s.open - {x})
    ensures Enabled(s, SeeChunks(x)) && Enabled(Apply(H, s, SeeChunks(x)), DeleteChunks(x))
    ensures s' == Apply(H, Apply(H, s, SeeChunks(x)), DeleteChunks(x))
    ensures s' == s.(open := s.open[x := s.open[x].(stage := ChunksGone(Seen(s.db, s.open[x].scope).Keys))])
  {
    assert forall y :: y in s.open && y != x ==> y in s.open - {x};
    var s1 := Apply(H, s, SeeChunks(x));
    assert forall c :: !ChunkHeldByOther(s1, x, c);
    s' := Apply(H, s1, DeleteChunks(x));
    assert s'.open[x].stage.gone == Seen(s.db, s.open[x].scope).Keys;
  }

  lemma RunFirstDelete(H: Hash, s: State, x: Xid) returns (s': State)
    requires Reachable(H, s) && InDelete(s, x) && s.open[x].stage.Begun? && Idle(s.open - {x})
    ensures Reachable(H, s')
    ensures s' == s.(open := s.open[x := s.open[x].(stage := ChunksGone(Seen(s.db, s.open[x].scope).Keys))])
  {
    s' := SeeAndDeleteChunks(H, s, x);
    Take(H, s, SeeChunks(x));
    Take(H, Apply(H, s, SeeChunks(x)), DeleteChunks(x));
  }

  /** The two moves of the second DELETE, when nobody else holds a row. */
  lemma SeeAndDeleteLog(H: Hash, s: State, x: Xid) returns (s': State)
    requires InDelete(s, x) && s.open[x].stage.ChunksGone? && Idle(s.open - {x})
    ensures Enabled(s, SeeLog(x)) && Enabled(Apply(H, s, SeeLog(x)), DeleteLog(x))
    ensures s' == Apply(H, Apply(H, s, SeeLog(x)), DeleteLog(x))
    ensures var held := LogGone(s.open[x].stage.gone, SeenLog(s.db, s.open[x].scope).Keys);
            s' == s.(open := s.open[x := s.open[x].(stage := held)])
  {
    assert forall y :: y in s.open && y != x ==> y in s.open - {x};
    var s1 := Apply(H, s, SeeLog(x));
    assert forall k :: !LogHeldByOther(s1, x, k);
    s' := Apply(H, s1, DeleteLog(x));
    assert s'.open[x].stage.goneLog == SeenLog(s.db, s.open[x].scope).Keys;
  }

  lemma RunSecondDelete(H: Hash, s: State, x: Xid) returns (s': State)
    requires Reachable(H, s) && InDelete(s, x) && s.open[x].stage.ChunksGone? && Idle(s.open - {x})
    ensures Reachable(H, s') && s'.open == s.open - {x} && s'.next == s.next
    ensures s'.db.log == s.db.log - SeenLog(s.db, s.open[x].scope).Keys
    ensures s'.db.chunks == s.db.chunks - s.open[x].stage.gone
  {
    var s2 := SeeAndDeleteLog(H, s, x);
    Take(H, s, SeeLog(x));
    Take(H, Apply(H, s, SeeLog(x)), DeleteLog(x));
    s' := Apply(H, s2, CommitDelete(x));
    Take(H, s2, CommitDelete(x));
    assert s'.open == s.open - {x};
  }

  /** The first upload to an empty database, beside transactions that hold no row. */
  lemma FirstUpload(H: Hash, s: State, k: BlobKey, b: Byte) returns (s': State)
    requires Reachable(H, s) && Idle(s.open) && s.next !in s.open
    requires k.seqNo == 1 && s.db.log == map[] && s.db.chunks == map[]
    ensures Reachable(H, s') && s'.open == s.open && s'.next == s.next + 1
    ensures s'.db.log == map[k := OneRow(H, s.next, b)]
    ensures s'.db.chunks == map[ChunkKey(k, 0) := ChunkRow(s.next, [b])]
  {
    HeadOf({}, k, 0);
    var s1 := OpenAppend(H, s, k);
    assert s1.open - {s.next} == s.open;
    s' := FinishAppend(H, s1, s.next, k, b);
  }

  lemma OneEntry(H: Hash, k: BlobKey, b: Byte) returns (s: State)
    requires k.seqNo == 1
    ensures Reachable(H, s) && s.open == map[] && s.db.log.Keys == {k} && s.db.chunks.Keys == {ChunkKey(k, 0)}
  {
    InitReachable(H);
    s := FirstUpload(H, INIT, k, b);
  }

  lemma BeginErase(H: Hash, s: State, p: string) returns (s': State)
    requires Reachable(H, s)
    ensures Reachable(H, s')
    ensures s' == s.(open := s.open[s.next := Deleting(Account(p), None, Begun)], next := s.next + 1)
  {
    s' := Apply(H, s, EraseBegin(p));
    Take(H, s, EraseBegin(p));
  }

  // ---- The runs ------------------------------------------------------------------------------

  /**
   * An erasure that commits while an append is open can leave a log without its first entry: the
   * append read the head before the erasure and commits its second entry after it.
   */
  lemma OverlapCanLoseTheFirstEntry(H: Hash, k: BlobKey, b: Byte)
    requires k.seqNo == 1
    ensures exists s :: Reachable(H, s) && s.open == map[] && s.db.log.Keys == {k.At(2)}
  {
    var s1 := OneEntry(H, k, b);
    HeadOf({k}, k.At(2), 1);
    var s2 := OpenAppend(H, s1, k.At(2));
    var s5 := EraseAll(H, s2, k.pseudonym);
    assert s5.open - {s1.next} == map[];
    var s6 := FinishAppend(H, s5, s1.next, k.At(2), b);
  }

  /** A whole erasure, beside transactions that hold no row. */
  lemma EraseAll(H: Hash, s: State, pseudonym: string) returns (s': State)
    requires Reachable(H, s) && Idle(s.open) && s.next !in s.open
    requires forall k :: k in s.db.log ==> k.pseudonym == pseudonym
    requires forall c :: c in s.db.chunks ==> c.blob.pseudonym == pseudonym
    ensures Reachable(H, s') && s'.open == s.open && s'.db.log == map[] && s'.db.chunks == map[]
    ensures s'.next == s.next + 1
  {
    var s1 := BeginErase(H, s, pseudonym);
    assert s1.open - {s.next} == s.open;
    var s2 := RunFirstDelete(H, s1, s.next);
    assert s2.open - {s.next} == s.open;
    s' := RunSecondDelete(H, s2, s.next);
  }

  /**
   * An append that commits between the two statements of an erasure leaves chunk rows whose log
   * row is gone. They hold the primary key of the log's first slot, which no append can then take.
   */
  lemma OverlapCanOrphanChunks(H: Hash, k: BlobKey, b: Byte)
    requires k.seqNo == 1
    ensures exists s :: Reachable(H, s) && s.open == map[] && s.db.log == map[] && s.db.chunks.Keys == {ChunkKey(k, 0)}
  {
    var s1 := EraseNoChunks(H, k.pseudonym);
    var s2 := FirstUpload(H, s1, k, b);
    assert s2.open - {0} == map[];
    var s3 := RunSecondDelete(H, s2, 0);
    assert s3.db.chunks == s2.db.chunks;
  }

  /** An erasure of an empty database that has got as far as its first statement. */
  lemma EraseNoChunks(H: Hash, pseudonym: string) returns (s: State)
    ensures Reachable(H, s) && s.db == INIT.db && s.next == 1
    ensures s.open == map[0 := Deleting(Account(pseudonym), None, ChunksGone({}))]
  {
    InitReachable(H);
    var s1 := BeginErase(H, INIT, pseudonym);
    assert s1.open - {0} == map[];
    s := RunFirstDelete(H, s1, 0);
    assert Seen(INIT.db, Account(pseudonym)).Keys == {};
  }

  /** An orphan sits on k's first chunk, and no delete is under way. */
  ghost predicate Blocked(s: State, k: BlobKey) {
    ChunkKey(k, 0) in s.db.chunks && k !in s.db.log && forall x :: x in s.open ==> s.open[x].Appending?
  }

  predicate NoDeletes(steps: seq<Step>) {
    forall i :: 0 <= i < |steps| ==> !steps[i].PruneAllowed? && !steps[i].EraseBegin?
  }

  /** An append that is ready to commit has inserted its first chunk, so it is not at the blocked slot. */
  lemma CommitElsewhere(H: Hash, s: State, x: Xid, k: BlobKey)
    requires Inv(H, s) && Blocked(s, k) && Enabled(s, CommitAppend(x))
    ensures s.open[x].key != k && Blocked(Apply(H, s, CommitAppend(x)), k)
  {
    var tx := s.open[x];
    assert TxOk(H, s.db, x, tx);
    assert tx.HasInserted(ChunkKey(tx.key, 0));
  }

  lemma StaysBlocked(H: Hash, s: State, step: Step, k: BlobKey)
    requires Inv(H, s) && Blocked(s, k) && Enabled(s, step) && !step.PruneAllowed? && !step.EraseBegin?
    ensures Blocked(Apply(H, s, step), k)
  {
    if step.CommitAppend? {
      CommitElsewhere(H, s, step.x, k);
    } else {
      assert step.CommitDelete? ==> InDelete(s, step.x);
      OnlyCommitsChangeTables(H, s, step);
      NoDeleteAppears(H, s, step);
    }
  }

  lemma NoDeleteAppears(H: Hash, s: State, step: Step)
    requires Enabled(s, step) && !step.PruneAllowed? && !step.EraseBegin? && !step.CommitAppend?
    requires forall x :: x in s.open ==> s.open[x].Appending?
    ensures forall x :: x in Apply(H, s, step).open ==> Apply(H, s, step).open[x].Appending?
  {
  }

  /** As long as no delete is begun, no append ever commits at a slot that an orphan blocks. */
  lemma {:induction false} OrphansBlockTheSlot(H: Hash, s: State, steps: seq<Step>, k: BlobKey)
    requires Inv(H, s) && Blocked(s, k) && Run(H, s, steps).Some? && NoDeletes(steps)
    ensures Blocked(Run(H, s, steps).value, k)
    decreases |steps|
  {
    if steps != [] {
      assert !steps[0].PruneAllowed? && !steps[0].EraseBegin?;
      StaysBlocked(H, s, steps[0], k);
      StepKeepsIntegrity(H, s, steps[0]);
      OrphansBlockTheSlot(H, Apply(H, s, steps[0]), steps[1..], k);
    }
  }

  /**
   * A prune whose newest-generation query found no row has nothing to compare with, so it passes
   * its guard for any generation; if the device's first upload commits before the DELETE
   * statements start, the prune removes it and the device is left empty.
   */
  lemma UnguardedPruneCanEmptyADevice(H: Hash, k: BlobKey, b: Byte)
    requires k.seqNo == 1
    ensures exists s, x ::
              && Reachable(H, s) && InDelete(s, x) && s.open[x].stage.LogGone?
              && s.open[x].scope == Generation(k.pseudonym, k.device, k.generation) && s.open[x].newest.None?
              && s.db.log.Keys == {k} && Apply(H, s, CommitDelete(x)).db.log == map[]
  {
    InitReachable(H);
    var scope := Generation(k.pseudonym, k.device, k.generation);
    var s1 := Apply(H, INIT, PruneAllowed(k.pseudonym, k.device, k.generation));
    Take(H, INIT, PruneAllowed(k.pseudonym, k.device, k.generation));
    assert s1.open == map[0 := Deleting(scope, None, Begun)];
    var s2 := FirstUpload(H, s1, k, b);
    assert s2.open - {0} == map[];
    var s3 := PruneAll(H, s2, 0, k);
    assert Reachable(H, s3) && InDelete(s3, 0);
  }

  /**
   * Nor is it enough that the guard found a row: if the account is erased and the device starts anew
   * with an older generation before the DELETE statements start, the prune empties it.
   */
  lemma StaleGuardCanEmptyADevice(H: Hash, k: BlobKey, b: Byte)
    requires k.seqNo == 1
    ensures exists s, x ::
              && Reachable(H, s) && InDelete(s, x) && s.open[x].stage.LogGone?
              && s.open[x].scope == Generation(k.pseudonym, k.device, k.generation)
              && s.open[x].newest == Some(k.generation + RETAINED_GENERATIONS)
              && s.db.log.Keys == {k} && Apply(H, s, CommitDelete(x)).db.log == map[]
  {
    var s2, x := GuardedPrune(H, k, b);
    var s3 := StartAnew(H, s2, k, b);
    var s4 := PruneAll(H, s3, x, k);
    assert Reachable(H, s4) && InDelete(s4, x);
  }

  /** An open prune, alone, of all there is. */
  lemma PruneAll(H: Hash, s: State, x: Xid, k: BlobKey) returns (s': State)
    requires Reachable(H, s) && InDelete(s, x) && s.open[x].stage.Begun? && s.open.Keys == {x}
    requires s.db.log.Keys == {k} && s.open[x].scope.Covers(k)
    ensures Reachable(H, s') && s'.db.log.Keys == {k} && InDelete(s', x) && SamePrune(s'.open[x], s.open[x])
    ensures s'.open[x].stage.LogGone? && Apply(H, s', CommitDelete(x)).db.log == map[]
  {
    assert s.open - {x} == map[];
    var s1 := RunFirstDelete(H, s, x);
    assert s1.open - {x} == map[];
    s' := HoldLog(H, s1, x, k);
    assert Apply(H, s', CommitDelete(x)).db.log == map[];
  }

  /** An account erased, and one entry uploaded anew, beside transactions that hold no row. */
  lemma StartAnew(H: Hash, s: State, k: BlobKey, b: Byte) returns (s': State)
    requires Reachable(H, s) && Idle(s.open) && k.seqNo == 1
    requires forall x :: x in s.open ==> x < s.next
    requires forall r :: r in s.db.log ==> r.pseudonym == k.pseudonym
    requires forall c :: c in s.db.chunks ==> c.blob.pseudonym == k.pseudonym
    ensures Reachable(H, s') && s'.open == s.open && s'.db.log.Keys == {k}
  {
    var s1 := EraseAll(H, s, k.pseudonym);
    s' := FirstUpload(H, s1, k, b);
  }

  /** A prune of k's generation that has passed its guard, two generations above which there is an entry. */
  lemma GuardedPrune(H: Hash, k: BlobKey, b: Byte) returns (s: State, x: Xid)
    requires k.seqNo == 1
    ensures var top := k.(generation := k.generation + RETAINED_GENERATIONS);
            && Reachable(H, s) && s.db.log.Keys == {top} && s.db.chunks.Keys == {ChunkKey(top, 0)}
            && x < s.next && s.open == map[x := Deleting(Generation(k.pseudonym, k.device, k.generation),
                                                         Some(top.generation), Begun)]
  {
    var top := k.(generation := k.generation + RETAINED_GENERATIONS);
    var s1 := OneEntry(H, top, b);
    assert top in s1.db.log.Keys && top.OfDevice(k.pseudonym, k.device);
    assert Newest(s1.db.log.Keys, k.pseudonym, k.device) == Some(top.generation);
    x := s1.next;
    s := Apply(H, s1, PruneAllowed(k.pseudonym, k.device, k.generation));
    Take(H, s1, PruneAllowed(k.pseudonym, k.device, k.generation));
  }

  lemma HoldLog(H: Hash, s: State, x: Xid, k: BlobKey) returns (s': State)
    requires Reachable(H, s) && InDelete(s, x) && s.open[x].stage.ChunksGone? && Idle(s.open - {x})
    requires s.db.log.Keys == {k} && s.open[x].scope.Covers(k)
    ensures Reachable(H, s') && s'.db == s.db && InDelete(s', x) && SamePrune(s'.open[x], s.open[x])
    ensures s'.open[x].stage.LogGone? && s'.open[x].stage.goneLog == {k}
  {
    var s1 := Apply(H, s, SeeLog(x));
    Take(H, s, SeeLog(x));
    assert forall y :: y in s.open && y != x ==> y in s.open - {x};
    assert forall r :: !LogHeldByOther(s1, x, r);
    s' := Apply(H, s1, DeleteLog(x));
    Take(H, s1, DeleteLog(x));
  }
}
