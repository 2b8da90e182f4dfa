/**
 * Racing appends refine the atomic log: exactly when a commit keeps a log whole, and that every
 * commit does if no delete statement runs while an append on the same log is open. All of it is
 * said of a watched part of the store, one log or everything: what happens on other logs does not
 * matter.
 */
module PostgresRefinement {
  import opened Base
  import opened BlobKeys
  import opened PostgresModel
  import opened PostgresIntegrity
  import opened AtomicLog

  /** What the statements below are about: all logs, or the log that a key belongs to. */
  datatype Watch = Everything | OneLog(key: BlobKey)
  {
    predicate Has(k: BlobKey) {
      Everything? || k.SameLog(key)
    }
  }

  /** The log the committed tables stand for. */
  function Abs(db: Tables, w: Watch): Log {
    map k | k in db.log && w.Has(k) :: BlobAt(db, db.log[k])
  }

  function BlobAt(db: Tables, row: LogRow): Blob {
    Blob(if row.xmin in db.history then Flat(db.history[row.xmin].chunks) else [],
         row.sha, Coalesce(row.prev), row.createdAt)
  }

  // ---- When a commit keeps the log whole ------------------------------------------------------

  /** No entry without its predecessor, and no chunk rows without their log row. */
  ghost predicate TablesLogOk(db: Tables, w: Watch) {
    && (forall k {:trigger Linked(db.log.Keys, k)} :: k in db.log && w.Has(k) ==> Linked(db.log.Keys, k))
    && (forall c :: c in db.chunks && w.Has(c.blob) ==> StillLogged(db, c))
  }

  /** The append's commit finds its predecessor still logged. */
  ghost predicate SafeAppend(db: Tables, tx: Tx, w: Watch)
    requires tx.Appending?
  {
    w.Has(tx.key) ==> Linked(db.log.Keys, tx.key)
  }

  /** The delete takes all chunk rows of the log rows it takes, and no log row from below one it leaves. */
  ghost predicate SafeDelete(db: Tables, tx: Tx, w: Watch)
    requires tx.Deleting? && tx.stage.LogGone?
  {
    && (forall c :: c in db.chunks && w.Has(c.blob) && c.blob in tx.stage.goneLog ==> c in tx.stage.gone)
    && (forall k :: k in db.log && w.Has(k) && k !in tx.stage.goneLog ==> !TakesBelow(tx, k))
  }

  predicate TakesBelow(tx: Tx, k: BlobKey)
    requires tx.Deleting? && tx.stage.LogGone?
  {
    k.seqNo > 1 && k.At(k.seqNo - 1) in tx.stage.goneLog
  }

  lemma SafeAppendKeepsTables(H: Hash, db: Tables, x: Xid, tx: Tx, w: Watch)
    requires TablesLogOk(db, w) && TxOk(H, db, x, tx) && tx.Appending? && tx.phase.Logged? && SafeAppend(db, tx, w)
    ensures TablesLogOk(CommittedAppend(db, x, tx), w)
  {
    var db' := CommittedAppend(db, x, tx);
    forall r | r in db'.log.Keys && w.Has(r) ensures Linked(db'.log.Keys, r) {
      assert r != tx.key ==> Linked(db.log.Keys, r);
    }
    forall c | c in db'.chunks && w.Has(c.blob) ensures StillLogged(db', c) {
      if c in db.chunks {
        assert StillLogged(db, c);
        assert !tx.HasInserted(c);
      }
    }
  }

  /**
   * An append's commit keeps the log whole if and only if its predecessor is still logged then;
   * the head check was some statements earlier.
   */
  lemma AppendKeepsTablesExactly(H: Hash, s: State, x: Xid, w: Watch)
    requires Inv(H, s) && TablesLogOk(s.db, w) && Enabled(s, CommitAppend(x))
    ensures TablesLogOk(Apply(H, s, CommitAppend(x)).db, w) <==> SafeAppend(s.db, s.open[x], w)
  {
    var tx := s.open[x];
    assert TxOk(H, s.db, x, tx);
    if SafeAppend(s.db, tx, w) {
      SafeAppendKeepsTables(H, s.db, x, tx, w);
    } else {
      var keys := Apply(H, s, CommitAppend(x)).db.log.Keys;
      assert tx.key.At(tx.key.seqNo - 1) != tx.key;
      assert tx.key in keys && !Linked(keys, tx.key);
    }
  }

  lemma SafeDeleteKeepsTables(db: Tables, tx: Tx, w: Watch)
    requires TablesLogOk(db, w) && tx.Deleting? && tx.stage.LogGone? && SafeDelete(db, tx, w)
    ensures TablesLogOk(CommittedDelete(db, tx), w)
  {
    var db' := CommittedDelete(db, tx);
    forall r | r in db'.log.Keys && w.Has(r) ensures Linked(db'.log.Keys, r) {
      assert Linked(db.log.Keys, r) && !TakesBelow(tx, r);
    }
    forall c | c in db'.chunks && w.Has(c.blob) ensures StillLogged(db', c) {
      assert StillLogged(db, c);
    }
  }

  /**
   * A delete's commit keeps the log whole if and only if it takes every chunk row of the log rows
   * it takes, and no log row from below one it leaves; its two statements had different snapshots.
   */
  lemma DeleteKeepsTablesExactly(H: Hash, s: State, x: Xid, w: Watch)
    requires Inv(H, s) && TablesLogOk(s.db, w) && Enabled(s, CommitDelete(x))
    ensures TablesLogOk(Apply(H, s, CommitDelete(x)).db, w) <==> SafeDelete(s.db, s.open[x], w)
  {
    var tx := s.open[x];
    var db' := Apply(H, s, CommitDelete(x)).db;
    if SafeDelete(s.db, tx, w) {
      SafeDeleteKeepsTables(s.db, tx, w);
    } else if c :| c in s.db.chunks && w.Has(c.blob) && c.blob in tx.stage.goneLog && c !in tx.stage.gone {
      assert c in db'.chunks && !StillLogged(db', c);
    } else {
      var k :| k in s.db.log && w.Has(k) && k !in tx.stage.goneLog && TakesBelow(tx, k);
      assert k in db'.log.Keys && !Linked(db'.log.Keys, k);
    }
  }

  /** The step is not a commit, or it is one that keeps the log whole. */
  ghost predicate SafeStep(s: State, step: Step, w: Watch)
    requires Enabled(s, step)
  {
    match step
    case CommitAppend(x) => SafeAppend(s.db, s.open[x], w)
    case CommitDelete(x) => SafeDelete(s.db, s.open[x], w)
    case _ => true
  }

  lemma StepKeepsTablesExactly(H: Hash, s: State, step: Step, w: Watch)
    requires Inv(H, s) && TablesLogOk(s.db, w) && Enabled(s, step)
    ensures TablesLogOk(Apply(H, s, step).db, w) <==> SafeStep(s, step, w)
  {
    if step.CommitAppend? {
      AppendKeepsTablesExactly(H, s, step.x, w);
    } else if step.CommitDelete? {
      DeleteKeepsTablesExactly(H, s, step.x, w);
    } else {
      OnlyCommitsChangeTables(H, s, step);
    }
  }

  ghost predicate AlwaysWhole(H: Hash, s: State, steps: seq<Step>, w: Watch)
    requires Run(H, s, steps).Some?
    decreases |steps|
  {
    TablesLogOk(s.db, w) && (steps != [] ==> AlwaysWhole(H, Apply(H, s, steps[0]), steps[1..], w))
  }

  ghost predicate CommitsSafe(H: Hash, s: State, steps: seq<Step>, w: Watch)
    requires Run(H, s, steps).Some?
    decreases |steps|
  {
    steps != [] ==> SafeStep(s, steps[0], w) && CommitsSafe(H, Apply(H, s, steps[0]), steps[1..], w)
  }

  /**
   * Over whole runs, whatever overlaps: the watched logs are gap-free and without orphan chunk rows
   * at every moment if and only if every commit on the way is safe when it happens.
   */
  lemma {:induction false} WholeExactlyIfCommitsSafe(H: Hash, s: State, steps: seq<Step>, w: Watch)
    requires Inv(H, s) && TablesLogOk(s.db, w) && Run(H, s, steps).Some?
    ensures AlwaysWhole(H, s, steps, w) <==> CommitsSafe(H, s, steps, w)
    decreases |steps|
  {
    if steps != [] {
      var s' := Apply(H, s, steps[0]);
      StepKeepsIntegrity(H, s, steps[0]);
      StepKeepsTablesExactly(H, s, steps[0], w);
      if TablesLogOk(s'.db, w) {
        WholeExactlyIfCommitsSafe(H, s', steps[1..], w);
      }
    }
  }

  // ---- Without overlap every commit is safe ---------------------------------------------------

  /** No open delete that has begun its first statement covers the log of an open append. */
  ghost predicate NoOverlap(s: State, w: Watch) {
    forall a, d :: InAppend(s, a) && w.Has(s.open[a].key) && InDelete(s, d) && !s.open[d].stage.Begun? ==>
      !s.open[d].scope.Covers(s.open[a].key)
  }

  /** A watched row that the delete is for. */
  predicate Wanted(tx: Tx, w: Watch, k: BlobKey)
    requires tx.Deleting?
  {
    tx.scope.Covers(k) && w.Has(k)
  }

  /** How far a delete has got with the rows it covers: it has seen, or it holds, all of them. */
  ghost predicate DeleteComplete(db: Tables, tx: Tx, w: Watch)
    requires tx.Deleting?
  {
    match tx.stage
    case Begun => true
    case ChunksSeen(seen) =>
      forall c :: c in db.chunks && Wanted(tx, w, c.blob) ==> c in seen && seen[c] == db.chunks[c].xmin
    case ChunksGone(gone) => forall c :: c in db.chunks && Wanted(tx, w, c.blob) ==> c in gone
    case LogSeen(gone, seenLog) =>
      && (forall c :: c in db.chunks && Wanted(tx, w, c.blob) ==> c in gone)
      && (forall k :: k in db.log && Wanted(tx, w, k) ==> k in seenLog && seenLog[k] == db.log[k].xmin)
    case LogGone(gone, goneLog) =>
      && (forall c :: c in db.chunks && Wanted(tx, w, c.blob) ==> c in gone)
      && (forall k :: k in db.log && Wanted(tx, w, k) ==> k in goneLog)
  }

  ghost predicate TxLogOk(db: Tables, tx: Tx, w: Watch) {
    && (tx.Appending? ==> SafeAppend(db, tx, w))
    && (tx.Deleting? ==> DeleteComplete(db, tx, w))
  }

  ghost predicate LogInv(s: State, w: Watch) {
    && TablesLogOk(s.db, w)
    && (forall x :: x in s.open ==> TxLogOk(s.db, s.open[x], w))
  }

  lemma CommitAppendKeepsTx(H: Hash, db: Tables, x: Xid, tx: Tx, other: Tx, w: Watch)
    requires TxOk(H, db, x, tx) && tx.Appending? && tx.phase.Logged?
    requires TxLogOk(db, other, w)
    requires other.Deleting? && !other.stage.Begun? ==> !Wanted(other, w, tx.key)
    ensures TxLogOk(CommittedAppend(db, x, tx), other, w)
  {
    var db' := CommittedAppend(db, x, tx);
    assert forall c :: c in db'.chunks && c.blob != tx.key ==> c in db.chunks && db'.chunks[c] == db.chunks[c];
    if other.Deleting? {
      assert DeleteComplete(db, other, w);
    }
  }

  lemma CommitAppendKeepsLog(H: Hash, s: State, x: Xid, w: Watch)
    requires Inv(H, s) && LogInv(s, w) && NoOverlap(s, w) && Enabled(s, CommitAppend(x))
    ensures LogInv(Apply(H, s, CommitAppend(x)), w)
  {
    var tx := s.open[x];
    var s' := Apply(H, s, CommitAppend(x));
    assert TxOk(H, s.db, x, tx) && TxLogOk(s.db, tx, w) && InAppend(s, x);
    SafeAppendKeepsTables(H, s.db, x, tx, w);
    forall y | y in s'.open ensures TxLogOk(s'.db, s'.open[y], w) {
      assert s.open[y].Deleting? ==> InDelete(s, y);
      CommitAppendKeepsTx(H, s.db, x, tx, s.open[y], w);
    }
  }

  lemma CompleteIsSafe(H: Hash, db: Tables, x: Xid, tx: Tx, w: Watch)
    requires TablesLogOk(db, w) && TxOk(H, db, x, tx) && tx.Deleting? && tx.stage.LogGone? && DeleteComplete(db, tx, w)
    ensures SafeDelete(db, tx, w)
    ensures forall k :: k in db.log && w.Has(k) ==> (k in tx.stage.goneLog <==> tx.scope.Covers(k))
  {
    forall k | k in db.log && w.Has(k) && k !in tx.stage.goneLog ensures !TakesBelow(tx, k) {
      assert !tx.scope.Covers(k.At(k.seqNo - 1));
    }
  }

  lemma CommitDeleteKeepsLog(H: Hash, s: State, x: Xid, w: Watch)
    requires Inv(H, s) && LogInv(s, w) && NoOverlap(s, w) && Enabled(s, CommitDelete(x))
    ensures LogInv(Apply(H, s, CommitDelete(x)), w)
  {
    var tx := s.open[x];
    var s' := Apply(H, s, CommitDelete(x));
    assert TxOk(H, s.db, x, tx) && TxLogOk(s.db, tx, w);
    CompleteIsSafe(H, s.db, x, tx, w);
    SafeDeleteKeepsTables(s.db, tx, w);
    forall y | y in s'.open ensures TxLogOk(s'.db, s'.open[y], w) {
      var other := s.open[y];
      assert TxLogOk(s.db, other, w);
      if other.Appending? && w.Has(other.key) {
        assert InAppend(s, y) && InDelete(s, x);
        assert w.Has(other.key.At(other.key.seqNo - 1)) && !tx.scope.Covers(other.key.At(other.key.seqNo - 1));
      }
    }
  }

  lemma PutKeepsLog(s: State, x: Xid, tx: Tx, next: Xid, w: Watch)
    requires LogInv(s, w) && TxLogOk(s.db, tx, w)
    ensures LogInv(s.(open := s.open[x := tx], next := next), w)
  {
    var s' := s.(open := s.open[x := tx], next := next);
    forall y | y in s'.open ensures TxLogOk(s'.db, s'.open[y], w) {
      assert y != x ==> TxLogOk(s.db, s.open[y], w);
    }
  }

  lemma DropKeepsLog(s: State, x: Xid, w: Watch)
    requires LogInv(s, w)
    ensures LogInv(s.(open := Without(s.open, x)), w)
  {
  }

  /** A statement that only moves its own transaction forward. */
  lemma MoveKeepsLog(H: Hash, s: State, step: Step, x: Xid, w: Watch)
    requires LogInv(s, w) && Enabled(s, step)
    requires step.InsertChunk? || step.EndBody? || step.InsertLog? || step.SeeChunks? || step.DeleteChunks? ||
             step.SeeLog? || step.DeleteLog?
    requires x == step.x
    ensures LogInv(Apply(H, s, step), w)
  {
    assert TxLogOk(s.db, s.open[x], w);
    PutKeepsLog(s, x, Apply(H, s, step).open[x], s.next, w);
  }

  lemma StepKeepsLog(H: Hash, s: State, step: Step, w: Watch)
    requires Inv(H, s) && LogInv(s, w) && NoOverlap(s, w) && Enabled(s, step)
    ensures LogInv(Apply(H, s, step), w)
  {
    match step
    case CommitAppend(x) => CommitAppendKeepsLog(H, s, x, w);
    case CommitDelete(x) => CommitDeleteKeepsLog(H, s, x, w);
    case HeadCheck(k, prev) =>
      if w.Has(k) { NextIsLinked(s.db, k, w); }
      PutKeepsLog(s, s.next, Appending(k, prev, [], Streaming), s.next + 1, w);
    case PruneAllowed(p, d, g) =>
      PutKeepsLog(s, s.next, Deleting(Generation(p, d, g), Newest(s.db.log.Keys, p, d), Begun), s.next + 1, w);
    case EraseBegin(p) => PutKeepsLog(s, s.next, Deleting(Account(p), None, Begun), s.next + 1, w);
    case PkConflict(x) => DropKeepsLog(s, x, w);
    case RefuseEmpty(x) => DropKeepsLog(s, x, w);
    case Abort(x) => DropKeepsLog(s, x, w);
    case InsertChunk(x, _) => MoveKeepsLog(H, s, step, x, w);
    case EndBody(x) => MoveKeepsLog(H, s, step, x, w);
    case InsertLog(x, _) => MoveKeepsLog(H, s, step, x, w);
    case SeeChunks(x) => MoveKeepsLog(H, s, step, x, w);
    case DeleteChunks(x) => MoveKeepsLog(H, s, step, x, w);
    case SeeLog(x) => MoveKeepsLog(H, s, step, x, w);
    case DeleteLog(x) => MoveKeepsLog(H, s, step, x, w);
    case _ =>
  }

  // ---- Refinement of the atomic log ----------------------------------------------------------

  /** The watched entries. */
  function Keys(db: Tables, w: Watch): set<BlobKey> {
    set k | k in db.log && w.Has(k)
  }

  lemma WatchedAreContiguous(db: Tables, w: Watch)
    requires TablesLogOk(db, w)
    ensures Contiguous(Keys(db, w))
  {
    forall k | k in Keys(db, w) ensures Linked(Keys(db, w), k) {
      assert Linked(db.log.Keys, k);
    }
  }

  /** The head of a watched log can be read off the watched entries. */
  lemma HeadOfWatched(db: Tables, w: Watch, k: BlobKey)
    requires w.Has(k)
    ensures HeadSeq(Keys(db, w), k) == HeadSeq(db.log.Keys, k)
  {
    var i, j := HeadSeq(Keys(db, w), k), HeadSeq(db.log.Keys, k);
    assert i != 0 ==> k.At(i) in db.log.Keys && k.At(i).SameLog(k);
    assert j != 0 ==> k.At(j) in Keys(db, w) && k.At(j).SameLog(k);
  }

  /** In a whole log the head check passes exactly for the free slot whose predecessor is logged. */
  lemma NextIsLinked(db: Tables, k: BlobKey, w: Watch)
    requires TablesLogOk(db, w) && w.Has(k)
    ensures k.seqNo == HeadSeq(db.log.Keys, k) + 1 <==> k !in db.log && Linked(db.log.Keys, k)
  {
    WatchedAreContiguous(db, w);
    HeadOfWatched(db, w, k);
    NextSlot(Keys(db, w), k);
  }

  /** What a step means to the callers of the store; a delete counts the watched entries it takes. */
  datatype Event =
    | Appended(key: BlobKey, blob: Blob)
    | AppendRefused(key: BlobKey)
    | Erased(scope: Scope, count: nat)
    | PruneGuarded(pseudonym: string, device: string, generation: int)
    | Silent

  function EventOf(s: State, step: Step, w: Watch): Event
    requires Enabled(s, step)
  {
    match step
    case CommitAppend(x) => if w.Has(s.open[x].key) then Appended(s.open[x].key, BlobOf(s.open[x])) else Silent
    case HeadRefused(k) => if w.Has(k) then AppendRefused(k) else Silent
    case PkConflict(x) => if w.Has(s.open[x].key) then AppendRefused(s.open[x].key) else Silent
    case CommitDelete(x) => Erased(s.open[x].scope, |TakenFrom(s.open[x], w)|)
    case PruneRefused(p, d, g) => if w.Everything? then PruneGuarded(p, d, g) else Silent
    case _ => Silent
  }

  function TakenFrom(tx: Tx, w: Watch): set<BlobKey>
    requires tx.Deleting? && tx.stage.LogGone?
  {
    set k | k in tx.stage.goneLog && w.Has(k)
  }

  /** The atomic log performs the event and gives its answer, or the event is impossible. */
  function SpecStep(log: Log, e: Event): Option<Log> {
    match e
    case Appended(k, blob) =>
      var (log', outcome) := Append(log, k, blob);
      if outcome == Stored(blob.sha, |blob.data|) then Some(log') else None
    case AppendRefused(k) =>
      if k.seqNo != HeadSeq(log.Keys, k) + 1 then Some(log) else None
    case Erased(scope, n) =>
      var (log', outcome) := Erase(log, scope);
      if outcome == Removed(n) then Some(log') else None
    case PruneGuarded(p, d, g) =>
      if Prune(log, p, d, g).1 == RetentionGuard then Some(log) else None
    case Silent => Some(log)
  }

  /** An event is possible exactly where the atomic operation gives the answer that the event stands for. */
  lemma EventsArePossibleExactly(log: Log, log': Log, k: BlobKey, blob: Blob, scope: Scope, n: nat)
    ensures SpecStep(log, Appended(k, blob)) == Some(log') <==> Append(log, k, blob) == (log', Stored(blob.sha, |blob.data|))
    ensures SpecStep(log, AppendRefused(k)) == Some(log') <==>
              log' == log && Append(log, k, blob) == (log, SeqConflict)
    ensures SpecStep(log, Erased(scope, n)) == Some(log') <==> Erase(log, scope) == (log', Removed(n))
    ensures scope.Generation? ==>
              (SpecStep(log, PruneGuarded(scope.pseudonym, scope.device, scope.generation)) == Some(log') <==>
                 log' == log && Retained(log.Keys, scope.pseudonym, scope.device, scope.generation))
  {
    if scope.Generation? {
      GuardRefusesExactly(log.Keys, scope.pseudonym, scope.device, scope.generation);
    }
  }

  /** Every answer that a caller hears is an event: of commits, refusals and conflicts on what is watched. */
  lemma AnswersAreEvents(s: State, step: Step, w: Watch)
    requires Enabled(s, step)
    ensures step.CommitAppend? && w.Has(s.open[step.x].key) ==>
              var e, tx := EventOf(s, step, w), s.open[step.x];
              && e.Appended? && e.key == tx.key
              && e.blob.data == Flat(tx.chunks) && e.blob.prev == tx.prev && e.blob.sha == tx.phase.row.sha
    ensures step.HeadRefused? && w.Has(step.key) ==> EventOf(s, step, w) == AppendRefused(step.key)
    ensures step.PkConflict? && w.Has(s.open[step.x].key) ==> EventOf(s, step, w) == AppendRefused(s.open[step.x].key)
    ensures step.PruneRefused? && w.Everything? ==>
              EventOf(s, step, w) == PruneGuarded(step.pseudonym, step.device, step.generation)
    ensures step.CommitDelete? && w.Everything? ==>
              EventOf(s, step, w) == Erased(s.open[step.x].scope, |s.open[step.x].stage.goneLog|)
  {
    if step.CommitDelete? && w.Everything? {
      assert TakenFrom(s.open[step.x], w) == s.open[step.x].stage.goneLog;
    }
  }

  /** A primary-key conflict is met only where the head check would have refused as well. */
  lemma ConflictIsStale(H: Hash, s: State, x: Xid, w: Watch)
    requires Inv(H, s) && LogInv(s, w) && Enabled(s, PkConflict(x)) && w.Has(s.open[x].key)
    ensures s.open[x].key.seqNo != HeadSeq(s.db.log.Keys, s.open[x].key) + 1
  {
    var k := s.open[x].key;
    if s.open[x].phase.Streaming? {
      assert StillLogged(s.db, ChunkKey(k, |s.open[x].chunks|));
    }
    NextIsLinked(s.db, k, w);
  }

  /** What an append adds: its chunks, and the predecessor's digest that its caller gave when it was opened. */
  function BlobOf(tx: Tx): Blob
    requires tx.Appending? && tx.phase.Logged?
  {
    Blob(Flat(tx.chunks), tx.phase.row.sha, tx.prev, tx.phase.row.createdAt)
  }

  /** An append is for the key and the predecessor that its head check was given, as long as it is open. */
  lemma KeyAndPrevStay(H: Hash, s: State, step: Step, x: Xid)
    requires Enabled(s, step) && InAppend(Apply(H, s, step), x)
    ensures var tx := Apply(H, s, step).open[x];
            if step.HeadCheck? && x == s.next then tx.key == step.key && tx.prev == step.prev
            else x in s.open && s.open[x].Appending? && tx.key == s.open[x].key && tx.prev == s.open[x].prev
  {
  }

  lemma AbsKeys(db: Tables, w: Watch)
    ensures Abs(db, w).Keys == Keys(db, w)
  {
  }

  /** A commit leaves the blobs of earlier rows as they are. */
  lemma AppendKeepsBlobs(H: Hash, db: Tables, x: Xid, tx: Tx)
    requires TablesOk(H, db) && TxOk(H, db, x, tx) && tx.Appending? && tx.phase.Logged?
    ensures forall k :: k in db.log ==> BlobAt(CommittedAppend(db, x, tx), db.log[k]) == BlobAt(db, db.log[k])
    ensures BlobAt(CommittedAppend(db, x, tx), tx.phase.row) == BlobOf(tx)
  {
    var db' := CommittedAppend(db, x, tx);
    forall k | k in db.log ensures BlobAt(db', db.log[k]) == BlobAt(db, db.log[k]) {
      assert LogOk(H, db, k);
    }
  }

  lemma AbsAppend(H: Hash, db: Tables, x: Xid, tx: Tx, w: Watch)
    requires TablesOk(H, db) && TxOk(H, db, x, tx) && tx.Appending? && tx.phase.Logged?
    ensures Abs(CommittedAppend(db, x, tx), w) ==
              if w.Has(tx.key) then Abs(db, w)[tx.key := BlobOf(tx)] else Abs(db, w)
  {
    var db' := CommittedAppend(db, x, tx);
    AppendKeepsBlobs(H, db, x, tx);
    assert tx.key !in db.log && db'.log == db.log[tx.key := tx.phase.row];
    OneMore(Abs(db, w), Abs(db', w), tx.key, BlobOf(tx), w.Has(tx.key));
  }

  lemma OneMore(log: Log, log': Log, k: BlobKey, blob: Blob, added: bool)
    requires k !in log && forall r :: r in log' <==> r in log || (added && r == k)
    requires (forall r :: r in log ==> log'[r] == log[r]) && (added ==> log'[k] == blob)
    ensures log' == if added then log[k := blob] else log
  {
  }

  lemma CommitAppendRefines(H: Hash, s: State, x: Xid, w: Watch)
    requires Inv(H, s) && LogInv(s, w) && Enabled(s, CommitAppend(x))
    ensures SpecStep(Abs(s.db, w), EventOf(s, CommitAppend(x), w)) == Some(Abs(CommittedAppend(s.db, x, s.open[x]), w))
  {
    var tx := s.open[x];
    assert TxOk(H, s.db, x, tx) && TxLogOk(s.db, tx, w);
    AbsKeys(s.db, w);
    AbsAppend(H, s.db, x, tx, w);
    if w.Has(tx.key) {
      NextIsLinked(s.db, tx.key, w);
      HeadOfWatched(s.db, w, tx.key);
    }
  }

  lemma AbsDelete(H: Hash, db: Tables, x: Xid, tx: Tx, w: Watch)
    requires TablesLogOk(db, w) && TxOk(H, db, x, tx) && tx.Deleting? && tx.stage.LogGone? && DeleteComplete(db, tx, w)
    ensures Erase(Abs(db, w), tx.scope) == (Abs(CommittedDelete(db, tx), w), Removed(|TakenFrom(tx, w)|))
  {
    CompleteIsSafe(H, db, x, tx, w);
    assert Covered(Abs(db, w), tx.scope) == TakenFrom(tx, w);
    assert Abs(CommittedDelete(db, tx), w) == Abs(db, w) - TakenFrom(tx, w);
  }

  lemma CommitDeleteRefines(H: Hash, s: State, x: Xid, w: Watch)
    requires Inv(H, s) && LogInv(s, w) && Enabled(s, CommitDelete(x))
    ensures SpecStep(Abs(s.db, w), EventOf(s, CommitDelete(x), w)) == Some(Abs(CommittedDelete(s.db, s.open[x]), w))
  {
    var tx := s.open[x];
    assert TxOk(H, s.db, x, tx) && TxLogOk(s.db, tx, w);
    AbsDelete(H, s.db, x, tx, w);
  }

  lemma RefusalRefines(H: Hash, s: State, step: Step, w: Watch)
    requires Inv(H, s) && LogInv(s, w) && Enabled(s, step)
    requires step.HeadRefused? || step.PkConflict? || step.PruneRefused?
    ensures SpecStep(Abs(s.db, w), EventOf(s, step, w)) == Some(Abs(s.db, w))
  {
    AbsKeys(s.db, w);
    if step.HeadRefused? && w.Has(step.key) {
      HeadOfWatched(s.db, w, step.key);
    } else if step.PkConflict? && w.Has(s.open[step.x].key) {
      ConflictRefines(H, s, step.x, w);
    } else if step.PruneRefused? && w.Everything? {
      assert Keys(s.db, w) == s.db.log.Keys;
    }
  }

  /** A loser at the primary key hears what the atomic log would have answered. */
  lemma ConflictRefines(H: Hash, s: State, x: Xid, w: Watch)
    requires Inv(H, s) && LogInv(s, w) && Enabled(s, PkConflict(x)) && w.Has(s.open[x].key)
    ensures SpecStep(Abs(s.db, w), EventOf(s, PkConflict(x), w)) == Some(Abs(s.db, w))
  {
    AbsKeys(s.db, w);
    ConflictIsStale(H, s, x, w);
    HeadOfWatched(s.db, w, s.open[x].key);
  }

  lemma SilentRefines(H: Hash, s: State, step: Step, w: Watch)
    requires Enabled(s, step) && Apply(H, s, step).db == s.db
    requires !step.CommitAppend? && !step.CommitDelete? && !step.HeadRefused? && !step.PkConflict? && !step.PruneRefused?
    ensures SpecStep(Abs(s.db, w), EventOf(s, step, w)) == Some(Abs(s.db, w))
  {
  }

  /** Each step is one atomic log operation with that operation's answer, or changes nothing visible. */
  lemma StepRefines(H: Hash, s: State, step: Step, w: Watch)
    requires Inv(H, s) && LogInv(s, w) && Enabled(s, step)
    ensures SpecStep(Abs(s.db, w), EventOf(s, step, w)) == Some(Abs(Apply(H, s, step).db, w))
    ensures !step.CommitAppend? && !step.CommitDelete? ==> Apply(H, s, step).db == s.db
  {
    if step.CommitAppend? {
      CommitAppendRefines(H, s, step.x, w);
    } else if step.CommitDelete? {
      CommitDeleteRefines(H, s, step.x, w);
    } else {
      OnlyCommitsChangeTables(H, s, step);
      if step.HeadRefused? || step.PkConflict? || step.PruneRefused? {
        RefusalRefines(H, s, step, w);
      } else {
        SilentRefines(H, s, step, w);
      }
    }
  }

  ghost predicate Quiet(H: Hash, s: State, steps: seq<Step>, w: Watch)
    requires Run(H, s, steps).Some?
    decreases |steps|
  {
    NoOverlap(s, w) && (steps != [] ==> Quiet(H, Apply(H, s, steps[0]), steps[1..], w))
  }

  function Events(H: Hash, s: State, steps: seq<Step>, w: Watch): seq<Event>
    requires Run(H, s, steps).Some?
    decreases |steps|
  {
    if steps == [] then [] else [EventOf(s, steps[0], w)] + Events(H, Apply(H, s, steps[0]), steps[1..], w)
  }

  function SpecRun(log: Log, events: seq<Event>): Option<Log>
    decreases |events|
  {
    if events == [] then Some(log)
    else
      var next := SpecStep(log, events[0]);
      if next.None? then None else SpecRun(next.value, events[1..])
  }

  lemma {:induction false} RunRefinesFrom(H: Hash, s: State, steps: seq<Step>, w: Watch)
    requires Inv(H, s) && LogInv(s, w) && Run(H, s, steps).Some? && Quiet(H, s, steps, w)
    ensures SpecRun(Abs(s.db, w), Events(H, s, steps, w)) == Some(Abs(Run(H, s, steps).value.db, w))
    ensures LogInv(Run(H, s, steps).value, w)
    decreases |steps|
  {
    if steps != [] {
      var s' := Apply(H, s, steps[0]);
      StepKeepsIntegrity(H, s, steps[0]);
      StepKeepsLog(H, s, steps[0], w);
      StepRefines(H, s, steps[0], w);
      RunRefinesFrom(H, s', steps[1..], w);
      var events := Events(H, s, steps, w);
      assert events[0] == EventOf(s, steps[0], w) && events[1..] == Events(H, s', steps[1..], w);
    }
  }

  /**
   * Every run in which no delete overlaps an append on a watched log, whatever happens elsewhere:
   * the atomic log, fed the run's events in order, gives each of them its answer and ends in the
   * log the tables stand for; every watched log is 1..n; and its chunk rows are of logged blobs.
   */
  lemma RunRefinesAtomicLog(H: Hash, steps: seq<Step>, w: Watch)
    requires Run(H, INIT, steps).Some? && Quiet(H, INIT, steps, w)
    ensures var s := Run(H, INIT, steps).value;
            && SpecRun(map[], Events(H, INIT, steps, w)) == Some(Abs(s.db, w))
            && (forall k :: w.Has(k) ==> OneToHead(s.db.log.Keys, k))
            && (forall c :: c in s.db.chunks && w.Has(c.blob) ==> c.blob in s.db.log)
  {
    InitOk(H, w);
    RunRefinesFrom(H, INIT, steps, w);
    QuietTables(Run(H, INIT, steps).value, w);
  }

  lemma InitOk(H: Hash, w: Watch)
    ensures Inv(H, INIT) && LogInv(INIT, w) && Abs(INIT.db, w) == map[]
  {
  }

  lemma QuietTables(s: State, w: Watch)
    requires LogInv(s, w)
    ensures forall k :: w.Has(k) ==> OneToHead(s.db.log.Keys, k)
    ensures forall c :: c in s.db.chunks && w.Has(c.blob) ==> c.blob in s.db.log
  {
    WatchedAreContiguous(s.db, w);
    forall k | w.Has(k) ensures OneToHead(s.db.log.Keys, k) {
      HeadIsLength(Keys(s.db, w), k);
      HeadOfWatched(s.db, w, k);
      assert forall i :: w.Has(k.At(i));
      forall i ensures k.At(i) in s.db.log.Keys <==> 1 <= i <= HeadSeq(s.db.log.Keys, k) {
        assert k.At(i) in Keys(s.db, w) <==> k.At(i) in s.db.log.Keys;
      }
    }
    forall c | c in s.db.chunks && w.Has(c.blob) ensures c.blob in s.db.log {
      assert StillLogged(s.db, c);
    }
  }
}
