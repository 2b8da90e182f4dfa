/**
 * The PostgreSQL store's methods, run statement by statement against the shared tables. Before
 * each statement any other transactions may run any statements of theirs; the statement itself may
 * fail, and one that is still blocked when its turn comes counts as cancelled.
 */
module PostgresStore {
  import opened Base
  import opened BlobKeys
  import opened PostgresModel
  import opened PostgresCalls
  import opened PostgresIntegrity
  import opened PostgresReads
  import opened AtomicLog
  import opened Readers
  import opened ChunkLoop

  /**
   * Why an append that went from s0 to `after` heard a conflict: in the state `before`, on its own
   * run and right before its last statement, the head check refused it, or the row it was to insert
   * had its primary key committed by another.
   */
  ghost predicate ConflictMet(H: Hash, s0: State, before: State, k: BlobKey, x: Xid, after: State) {
    && Reaches(H, s0, before)
    && (|| (k.seqNo != HeadSeq(before.db.log.Keys, k) + 1 && after == before)
        || (Enabled(before, PkConflict(x)) && before.open[x].key == k && after == Apply(H, before, PkConflict(x))))
  }

  /** Transaction x waits: its next statement wants a row that another open transaction holds. */
  predicate Waits(s: State, x: Xid) {
    x in s.open &&
    match s.open[x]
    case Appending(k, _, chunks, Streaming) =>
      var c := ChunkKey(k, |chunks|);
      InsertedByOther(s, x, c) || (c in s.db.chunks && ChunkHeldByOther(s, x, c))
    case Appending(k, _, _, BodyEnded) => LoggedByOther(s, x, k) || (k in s.db.log && LogHeldByOther(s, x, k))
    case Deleting(_, _, ChunksSeen(seen)) =>
      exists c :: c in seen && StillThere(s.db, c, seen[c]) && ChunkHeldByOther(s, x, c)
    case Deleting(_, _, LogSeen(_, seen)) =>
      exists k :: k in seen && StillLoggedBy(s.db, k, seen[k]) && LogHeldByOther(s, x, k)
    case _ => false
  }

  /** Which statement of its method a transaction is about to run; 0 is the one before it is opened. */
  function StatementNo(tx: Tx): nat {
    match tx
    case Appending(_, _, chunks, Logged(_)) => |chunks| + 2
    case Appending(_, _, chunks, _) => |chunks| + 1
    case Deleting(_, _, stage) => Rank(stage) + 1
  }

  /** Where a rollback of x leads. */
  function RolledBack(s: State, x: Xid): State {
    s.(open := Without(s.open, x))
  }

  /** Where a commit of x leads. */
  function Landed(s: State, x: Xid): State
    requires x in s.open && ReadyToCommit(s.open[x])
  {
    var tx := s.open[x];
    RolledBack(s, x).(db := if tx.Appending? then CommittedAppend(s.db, x, tx) else CommittedDelete(s.db, tx))
  }

  predicate ReadyToCommit(tx: Tx) {
    if tx.Appending? then tx.phase.Logged? else tx.stage.LogGone?
  }

  /** Transaction x is rolled back in `before` because its statement failed or was still waiting. */
  ghost predicate GivenUp(before: State, x: Xid, after: State, gap: Gap) {
    x in before.open && after == RolledBack(before, x) && (gap.fails || Waits(before, x))
  }

  /** The COMMIT of x landed and only its answer was lost. */
  ghost predicate LandsUnheard(before: State, x: Xid, after: State, gap: Gap) {
    x in before.open && ReadyToCommit(before.open[x]) && after == Landed(before, x) && gap.fails && gap.landed
  }

  /**
   * Why a method that went from s0 to `after` heard an error of the database: in the state `before`,
   * on its own run, the very statement that was next failed, or was still waiting at its turn.
   */
  ghost predicate ErrorMet(H: Hash, s0: State, before: State, x: Xid, after: State, schedule: Schedule) {
    && Reaches(H, s0, before)
    && if x in before.open then
         var gap := schedule(StatementNo(before.open[x]));
         GivenUp(before, x, after, gap) || LandsUnheard(before, x, after, gap)
       else schedule(0).fails && after == before
  }

  /** An append to k that answers a conflict or an error has met one on its own run. */
  ghost predicate Explained(
    H: Hash, s0: State, before: State, k: BlobKey, x: Xid, after: State, schedule: Schedule, answer: Outcome)
  {
    match answer
    case SeqConflict => ConflictMet(H, s0, before, k, x, after)
    case Unavailable => ErrorMet(H, s0, before, x, after, schedule)
    case _ => true
  }

  /** The delete, of which tx is an earlier stage, was given up in the state `before`. */
  ghost predicate Stops(H: Hash, s0: State, before: State, x: Xid, after: State, tx: Tx, schedule: Schedule) {
    && Reaches(H, s0, before) && InDelete(before, x) && SamePrune(before.open[x], tx)
    && GivenUp(before, x, after, schedule(StatementNo(before.open[x])))
  }

  /** An append that failed at its next insert has met a conflict or an error. */
  lemma FailureIsExplained(
      H: Hash, s0: State, before: State, tx: Tx, x: Xid, after: State, schedule: Schedule, answer: Outcome)
    requires Reaches(H, s0, before) && x in before.open && before.open[x] == tx && tx.Appending?
    requires answer == SeqConflict ==> Enabled(before, PkConflict(x)) && after == Apply(H, before, PkConflict(x))
    requires answer == Unavailable ==> GivenUp(before, x, after, schedule(StatementNo(tx)))
    ensures Explained(H, s0, before, tx.key, x, after, schedule, answer)
  {
  }

  lemma StopsIsErrorMet(H: Hash, s0: State, before: State, x: Xid, after: State, tx: Tx, schedule: Schedule)
    requires Stops(H, s0, before, x, after, tx, schedule)
    ensures DeleteEnds(H, s0, before, x, after, Unavailable, schedule)
  {
  }

  /** None of the first n statements failed. */
  ghost predicate AllSucceed(schedule: Schedule, n: nat) {
    forall i: nat :: i < n ==> !schedule(i).fails
  }

  lemma OneMoreSucceeds(schedule: Schedule, n: nat)
    requires AllSucceed(schedule, n) && !schedule(n).fails
    ensures AllSucceed(schedule, n + 1)
  {
  }

  lemma ReachesStep(H: Hash, s: State, m: State, step: Step)
    requires Reaches(H, s, m) && Enabled(m, step) && Inv(H, m)
    ensures Reaches(H, s, Apply(H, m, step)) && Inv(H, Apply(H, m, step))
  {
    var steps :| Run(H, s, steps) == Some(m);
    RunSnoc(H, s, steps, step);
    StepKeepsIntegrity(H, m, step);
  }

  lemma ReachesItself(H: Hash, s: State)
    ensures Reaches(H, s, s)
  {
    assert Run(H, s, []) == Some(s);
  }

  lemma {:induction false} RunThenRun(H: Hash, s: State, a: seq<Step>, b: seq<Step>)
    requires Run(H, s, a).Some?
    ensures Run(H, s, a + b) == Run(H, Run(H, s, a).value, b)
    decreases |a|
  {
    if a == [] {
      assert a + b == b;
    } else {
      assert (a + b)[0] == a[0] && (a + b)[1..] == a[1..] + b;
      RunThenRun(H, Apply(H, s, a[0]), a[1..], b);
    }
  }

  lemma {:induction false} NextGrows(H: Hash, s: State, steps: seq<Step>)
    requires Run(H, s, steps).Some?
    ensures Run(H, s, steps).value.next >= s.next
    decreases |steps|
  {
    if steps != [] {
      NextGrows(H, Apply(H, s, steps[0]), steps[1..]);
    }
  }

  lemma ReachesChain(H: Hash, a: State, b: State, c: State)
    requires Reaches(H, a, b) && Reaches(H, b, c)
    ensures Reaches(H, a, c)
  {
    var one :| Run(H, a, one) == Some(b);
    var two :| Run(H, b, two) == Some(c);
    RunThenRun(H, a, one, two);
  }

  /** A step of another transaction leaves transaction x as it is. */
  lemma ForeignStep(H: Hash, s: State, step: Step, x: Xid)
    requires Inv(H, s) && Enabled(s, step) && x in s.open && Subject(step) != Some(x)
    ensures x in Apply(H, s, step).open && Apply(H, s, step).open[x] == s.open[x]
  {
  }

  /** How many of its four moves before the commit a delete has made. */
  function Rank(stage: DeletePhase): nat {
    match stage
    case Begun => 0
    case ChunksSeen(_) => 1
    case ChunksGone(_) => 2
    case LogSeen(_, _) => 3
    case LogGone(_, _) => 4
  }

  function NextMove(x: Xid, stage: DeletePhase): Step
    requires !stage.LogGone?
  {
    match stage
    case Begun => SeeChunks(x)
    case ChunksSeen(_) => DeleteChunks(x)
    case ChunksGone(_) => SeeLog(x)
    case LogSeen(_, _) => DeleteLog(x)
  }

  /** A delete's next move takes it one further. */
  lemma MoveAdvances(H: Hash, s: State, x: Xid, step: Step)
    requires InDelete(s, x) && !s.open[x].stage.LogGone? && step == NextMove(x, s.open[x].stage) && Enabled(s, step)
    ensures var s' := Apply(H, s, step);
            && InDelete(s', x) && SamePrune(s'.open[x], s.open[x])
            && Rank(s'.open[x].stage) == Rank(s.open[x].stage) + 1
  {
  }

  /** A transaction's own step leaves it the append or the delete that it is. */
  lemma KindStays(H: Hash, s: State, step: Step, x: Xid)
    requires x in s.open && Enabled(s, step) && Subject(step) == Some(x)
    ensures x in Apply(H, s, step).open ==> (Apply(H, s, step).open[x].Appending? <==> s.open[x].Appending?)
  {
  }

  /** An insert of a chunk row that is not enabled meets a conflict or waits for a row. */
  lemma BlockedInsertWaits(s: State, x: Xid, bytes: Bytes)
    requires InAppend(s, x) && s.open[x].phase.Streaming? && 0 < |bytes| <= CHUNK_BYTES
    ensures Enabled(s, InsertChunk(x, bytes)) || Enabled(s, PkConflict(x)) || Waits(s, x)
  {
  }

  lemma BlockedLogWaits(s: State, x: Xid, createdAt: nat)
    requires InAppend(s, x) && s.open[x].phase.BodyEnded? && s.open[x].chunks != []
    ensures Enabled(s, InsertLog(x, createdAt)) || Enabled(s, PkConflict(x)) || Waits(s, x)
  {
  }

  /** A delete whose next move is not enabled waits for a row. */
  lemma BlockedMoveWaits(s: State, x: Xid)
    requires InDelete(s, x) && !s.open[x].stage.LogGone?
    ensures Enabled(s, NextMove(x, s.open[x].stage)) || Waits(s, x)
  {
  }

  /** A delete waits exactly if its next move cannot be made; a commit never does. */
  lemma DeleteWaitsExactly(s: State, x: Xid)
    requires InDelete(s, x)
    ensures if s.open[x].stage.LogGone? then !Waits(s, x)
            else Waits(s, x) <==> !Enabled(s, NextMove(x, s.open[x].stage))
  {
  }

  /** An append exactly if its next insert neither succeeds nor meets a conflict; its commit never does. */
  lemma AppendWaitsExactly(H: Hash, s: State, x: Xid, bytes: Bytes, createdAt: nat)
    requires Inv(H, s) && InAppend(s, x) && 0 < |bytes| <= CHUNK_BYTES
    ensures s.open[x].phase.Streaming? ==>
              (Waits(s, x) <==> !Enabled(s, InsertChunk(x, bytes)) && !Enabled(s, PkConflict(x)))
    ensures s.open[x].phase.BodyEnded? && s.open[x].chunks != [] ==>
              (Waits(s, x) <==> !Enabled(s, InsertLog(x, createdAt)) && !Enabled(s, PkConflict(x)))
    ensures s.open[x].phase.Logged? ==> !Waits(s, x)
  {
  }

  /** The commit of delete x takes `before` to `after` and removes n log rows, all of them in its scope. */
  ghost predicate DeleteCommits(H: Hash, before: State, x: Xid, after: State, n: nat) {
    && InDelete(before, x) && Enabled(before, CommitDelete(x)) && after == Apply(H, before, CommitDelete(x))
    && after.db.log.Keys <= before.db.log.Keys
    && n == |before.db.log.Keys - after.db.log.Keys|
    && forall k :: k in before.db.log.Keys - after.db.log.Keys ==> before.open[x].scope.Covers(k)
  }

  /** How a prune ends that passed its guard in the state `guard` and was opened right there. */
  ghost predicate PruneEnds(
    H: Hash, guard: State, before: State, x: Xid, after: State, outcome: Outcome, scope: Scope, schedule: Schedule)
    requires scope.Generation?
  {
    var begin := PruneAllowed(scope.pseudonym, scope.device, scope.generation);
    && x == guard.next && Enabled(guard, begin)
    && DeleteEnds(H, Apply(H, guard, begin), before, x, after, outcome, schedule)
    && before.open[x].scope == scope && before.open[x].newest == Newest(guard.db.log.Keys, scope.pseudonym, scope.device)
  }

  /** Delete x is given up: the step to `after` is its rollback. */
  ghost predicate DeleteAborts(H: Hash, before: State, x: Xid, after: State) {
    InDelete(before, x) && after == Apply(H, before, Abort(x))
  }

  /** Neither of the two moves after the first n failed. */
  predicate TwoSucceed(schedule: Schedule, n: nat) {
    !schedule(n + 1).fails && !schedule(n + 2).fails
  }

  /** How a delete run from s0 on ends: a commit that is counted; or a rollback, or a commit whose answer is lost. */
  ghost predicate DeleteEnds(
    H: Hash, s0: State, before: State, x: Xid, after: State, outcome: Outcome, schedule: Schedule)
  {
    && Reaches(H, s0, before) && InDelete(before, x)
    && match outcome
       case Removed(n) =>
         && DeleteCommits(H, before, x, after, n)
         && TwoSucceed(schedule, 0) && TwoSucceed(schedule, 2) && !schedule(5).fails
       case Unavailable =>
         && (DeleteAborts(H, before, x, after) || DeleteLands(H, before, x, after))
         && ErrorMet(H, s0, before, x, after, schedule)
       case _ => false
  }

  /** Where the commit of transaction x leads, heard or not. */
  function CommitLeads(before: State, x: Xid, gap: Gap): State
    requires x in before.open && ReadyToCommit(before.open[x])
  {
    if gap.fails && !gap.landed then RolledBack(before, x) else Landed(before, x)
  }

  function CommitOf(x: Xid, tx: Tx): Step {
    if tx.Appending? then CommitAppend(x) else CommitDelete(x)
  }

  lemma CommitLands(H: Hash, s: State, x: Xid)
    requires x in s.open && ReadyToCommit(s.open[x])
    ensures Enabled(s, CommitOf(x, s.open[x])) && Apply(H, s, CommitOf(x, s.open[x])) == Landed(s, x)
    ensures Apply(H, s, Abort(x)) == RolledBack(s, x)
  {
  }

  /** The rows of append tx are committed. */
  ghost predicate Has(db: Tables, x: Xid, tx: Tx)
    requires tx.Appending? && tx.phase.Logged?
  {
    && tx.key in db.log && db.log[tx.key] == tx.phase.row
    && x in db.history && db.history[x] == Upload(tx.key, tx.chunks)
  }

  lemma LandedHas(s: State, x: Xid)
    requires InAppend(s, x) && s.open[x].phase.Logged?
    ensures Has(Landed(s, x).db, x, s.open[x])
    ensures s.open.Keys == {x} ==> Landed(s, x) == s.(db := CommittedAppend(s.db, x, s.open[x]), open := map[])
  {
  }

  lemma FailedCommitIsErrorMet(H: Hash, s0: State, before: State, x: Xid, schedule: Schedule)
    requires Reaches(H, s0, before) && x in before.open && ReadyToCommit(before.open[x])
    requires schedule(StatementNo(before.open[x])).fails
    ensures ErrorMet(H, s0, before, x, CommitLeads(before, x, schedule(StatementNo(before.open[x]))), schedule)
  {
  }

  lemma LandedDelete(H: Hash, before: State, x: Xid)
    requires Inv(H, before) && Enabled(before, CommitDelete(x))
    ensures DeleteCommits(H, before, x, Landed(before, x), |before.open[x].stage.goneLog|)
    ensures DeleteLands(H, before, x, Landed(before, x)) && DeleteAborts(H, before, x, RolledBack(before, x))
  {
    CommitRemoves(H, before, x);
    assert Landed(before, x) == Apply(H, before, CommitDelete(x));
    assert RolledBack(before, x) == Apply(H, before, Abort(x));
  }

  lemma CommitEndsDelete(
      H: Hash, s0: State, before: State, x: Xid, after: State, outcome: Outcome, schedule: Schedule)
    requires Reaches(H, s0, before) && Inv(H, before) && Enabled(before, CommitDelete(x))
    requires TwoSucceed(schedule, 0) && TwoSucceed(schedule, 2) && after == CommitLeads(before, x, schedule(5))
    requires outcome == if schedule(5).fails then Unavailable else Removed(|before.open[x].stage.goneLog|)
    requires outcome == Unavailable ==> ErrorMet(H, s0, before, x, after, schedule)
    ensures DeleteEnds(H, s0, before, x, after, outcome, schedule)
  {
    LandedDelete(H, before, x);
  }

  ghost predicate DeleteLands(H: Hash, before: State, x: Xid, after: State) {
    Enabled(before, CommitDelete(x)) && DeleteCommits(H, before, x, after, |before.open[x].stage.goneLog|)
  }

  /** The tables once everything a scope covers is gone. */
  function Purged(db: Tables, scope: Scope): Tables {
    db.(log := db.log - SeenLog(db, scope).Keys, chunks := db.chunks - Seen(db, scope).Keys)
  }

  /** Of a generation that is purged no row is left, of either table, and all others are as they were. */
  lemma PurgedGenerationExactly(db: Tables, pseudonym: string, device: string, generation: int)
    ensures var db' := Purged(db, Generation(pseudonym, device, generation));
            && (forall k :: k in db'.log <==> k in db.log && !OfGeneration(k, pseudonym, device, generation))
            && (forall c :: c in db'.chunks <==> c in db.chunks && !OfGeneration(c.blob, pseudonym, device, generation))
            && (forall k :: k in db'.log ==> db'.log[k] == db.log[k])
            && (forall c :: c in db'.chunks ==> db'.chunks[c] == db.chunks[c])
  {
  }

  /** Nor of an account. */
  lemma PurgedAccountExactly(db: Tables, pseudonym: string)
    ensures var db' := Purged(db, Account(pseudonym));
            && (forall k :: k in db'.log <==> k in db.log && k.pseudonym != pseudonym)
            && (forall c :: c in db'.chunks <==> c in db.chunks && c.blob.pseudonym != pseudonym)
            && (forall k :: k in db'.log ==> db'.log[k] == db.log[k])
            && (forall c :: c in db'.chunks ==> db'.chunks[c] == db.chunks[c])
  {
  }

  /** A delete that is the only open transaction waits for nobody. */
  lemma AloneIsEnabled(s: State, x: Xid)
    requires InDelete(s, x) && !s.open[x].stage.LogGone? && s.open.Keys == {x}
    ensures Enabled(s, NextMove(x, s.open[x].stage))
  {
    assert forall y :: y in s.open ==> y == x;
  }

  /** What one undisturbed DELETE statement does to its transaction. */
  function AfterDelete(db: Tables, tx: Tx): Tx
    requires tx.Deleting? && (tx.stage.Begun? || tx.stage.ChunksGone?)
  {
    tx.(stage := if tx.stage.Begun? then ChunksGone(Seen(db, tx.scope).Keys)
                 else LogGone(tx.stage.gone, SeenLog(db, tx.scope).Keys))
  }

  /** What two of its moves come to: all rows the statement is for are held. */
  lemma TwoMoves(H: Hash, s: State, x: Xid) returns (s': State)
    requires InDelete(s, x) && (s.open[x].stage.Begun? || s.open[x].stage.ChunksGone?) && s.open.Keys == {x}
    ensures var step := NextMove(x, s.open[x].stage);
            Enabled(s, step) &&
            var s1 := Apply(H, s, step);
            InDelete(s1, x) && !s1.open[x].stage.LogGone? && Enabled(s1, NextMove(x, s1.open[x].stage)) &&
            s' == Apply(H, s1, NextMove(x, s1.open[x].stage))
    ensures s' == s.(open := map[x := AfterDelete(s.db, s.open[x])])
  {
    AloneIsEnabled(s, x);
    var s1 := Apply(H, s, NextMove(x, s.open[x].stage));
    AloneIsEnabled(s1, x);
    s' := Apply(H, s1, NextMove(x, s1.open[x].stage));
    if s.open[x].stage.Begun? {
      assert s'.open[x].stage.gone == Seen(s.db, s.open[x].scope).Keys;
    } else {
      assert s'.open[x].stage.goneLog == SeenLog(s.db, s.open[x].scope).Keys;
    }
    assert s'.open == map[x := s'.open[x]];
  }

  lemma PurgeAlone(H: Hash, s: State, x: Xid)
    requires InDelete(s, x) && s.open[x].stage.Begun?
    ensures var tx := AfterDelete(s.db, AfterDelete(s.db, s.open[x]));
            var held := s.(open := map[x := tx]);
            && tx.Deleting? && tx.stage.LogGone? && |tx.stage.goneLog| == |SeenLog(s.db, tx.scope)|
            && Enabled(held, CommitDelete(x))
            && Apply(H, held, CommitDelete(x)) == s.(db := Purged(s.db, s.open[x].scope), open := map[])
  {
    var tx := AfterDelete(s.db, AfterDelete(s.db, s.open[x]));
    var seen := SeenLog(s.db, tx.scope);
    assert |seen.Keys| == |seen|;
    assert Without(map[x := tx], x) == map[];
  }

  lemma CommitRemoves(H: Hash, s: State, x: Xid)
    requires Inv(H, s) && Enabled(s, CommitDelete(x))
    ensures DeleteCommits(H, s, x, Apply(H, s, CommitDelete(x)), |s.open[x].stage.goneLog|)
  {
    assert TxOk(H, s.db, x, s.open[x]);
    assert s.db.log.Keys - Apply(H, s, CommitDelete(x)).db.log.Keys == s.open[x].stage.goneLog;
  }

  /** No chunk row is stored under k's key; orphans of an overlapping erasure could be. */
  ghost predicate NoChunksOf(db: Tables, k: BlobKey) {
    forall c :: c in db.chunks ==> c.blob != k
  }

  ghost predicate FreeSlot(db: Tables, k: BlobKey) {
    k !in db.log && NoChunksOf(db, k)
  }

  /** The tables with one upload more: its log row and its chunk rows. */
  function WithUpload(H: Hash, db: Tables, x: Xid, k: BlobKey, prev: string, createdAt: nat, chunks: seq<Bytes>): Tables {
    var row := LogRow(x, H(Flat(chunks)), Nullable(prev), |Flat(chunks)|, createdAt);
    CommittedAppend(db, x, Appending(k, prev, chunks, Logged(row)))
  }

  /** The answer goes with how the body was cut; a conflict or a database error goes with any body. */
  ghost predicate AnswersBody(H: Hash, body: Stack, outcome: Outcome)
    requires Consistent(body)
  {
    var (_, chunks, end) := CutBody(H, body, []);
    match outcome
    case Stored(sha, size) => end == Ended && chunks != [] && sha == H(Flat(chunks)) && size == |Flat(chunks)|
    case ReadFailed(err) => end == Failed(err)
    case EmptyBlob => end == Ended && chunks == []
    case SeqConflict => true
    case Unavailable => true
    case _ => false
  }

  /** The body has been cut into these chunks, and that ended so. */
  ghost predicate CutTo(H: Hash, body: Stack, chunks: seq<Bytes>, end: LoopEnd) {
    Consistent(body) && CutBody(H, body, []).1 == chunks && CutBody(H, body, []).2 == end
  }

  /** The body has been read for as long as the chunk loop reads it, and that left this of it. */
  ghost predicate ReadUp(H: Hash, body: Stack, rest: Stack) {
    Consistent(body) && CutBody(H, body, []).0 == rest
  }

  /** And it has ended. */
  ghost predicate ReadOut(H: Hash, body: Stack, rest: Stack) {
    ReadUp(H, body, rest) && CutBody(H, body, []).2 == Ended
  }

  /** The answer is about the body, not about the database. */
  predicate IsOfBody(outcome: Outcome) {
    outcome.Stored? || outcome == EmptyBlob || outcome.ReadFailed?
  }

  /** What an append that nobody disturbs answers: the atomic log's answer, for the body as it was cut. */
  function AloneOutcome(H: Hash, db: Tables, body: Stack, k: BlobKey): Outcome
    requires Consistent(body)
  {
    if k.seqNo != HeadSeq(db.log.Keys, k) + 1 then SeqConflict
    else match CutBody(H, body, [])
      case (_, _, Failed(err)) => ReadFailed(err)
      case (_, chunks, Ended) => if chunks == [] then EmptyBlob else Stored(H(Flat(chunks)), |Flat(chunks)|)
  }

  /** Where the chunk loop stands once it has read n bytes of a chunk, with this error. */
  ghost predicate ChunkRead(H: Hash, b0: Stack, chunks: seq<Bytes>, b: Stack, n: nat, err: ReadErr) {
    && n <= CHUNK_BYTES && (err == NoErr <==> n == CHUNK_BYTES) && Consistent(b0) && Consistent(b)
    && if err == NoErr then Cutting(H, b0, b, chunks)
       else CutBody(H, b0, []) == (b, chunks, if err == EOF || err == UnexpectedEOF then Ended else Failed(err))
  }

  /** Once the body has ended, an empty one is refused as such, and anything else may be stored. */
  lemma AnswersEnded(H: Hash, body: Stack, chunks: seq<Bytes>, outcome: Outcome)
    requires CutTo(H, body, chunks, Ended) && body.hashed == []
    ensures Flat(chunks) == [] <==> chunks == []
    ensures var due := if Flat(chunks) == [] then EmptyBlob else Stored(H(Flat(chunks)), |Flat(chunks)|);
            outcome == due || outcome == SeqConflict || outcome == Unavailable ==> AnswersBody(H, body, outcome)
  {
    CutBodyStep(H, body, []);
    if chunks != [] {
      FlatNonEmpty(chunks);
    }
  }

  /**
   * For every transport: what Append stored is exactly what was delivered, not empty and within the
   * cap, and it has the digest the proof signed unless reading stopped at an io.ErrUnexpectedEOF.
   */
  lemma StoredUploadIsSigned(H: Hash, script: Script, limit: nat, want: string, outcome: Outcome)
    requires AnswersBody(H, Fresh(script, limit, want), outcome) && outcome.Stored?
    ensures var data := Flat(CutBody(H, Fresh(script, limit, want), []).1);
            && data == DeliveredChunked(script, 0) && 0 < |data| == outcome.size <= limit && outcome.sha == H(data)
            && (!StopsAtCut(H, script, [], limit, want) ==> outcome.sha == want)
  {
    ChunkedBodyIsSigned(H, script, limit, want);
    FlatNonEmpty(CutBody(H, Fresh(script, limit, want), []).1);
  }

  /**
   * Undisturbed, Append answers, for every transport whatever, what the atomic log would for the
   * body that its answers amount to, or says what is wrong with it.
   */
  lemma UndisturbedUploadIsAnswered(H: Hash, db: Tables, script: Script, limit: nat, want: string, k: BlobKey)
    ensures AloneOutcome(H, db, Fresh(script, limit, want), k) ==
              if k.seqNo != HeadSeq(db.log.Keys, k) + 1 then SeqConflict
              else match JudgeChunked(H, script, [], limit, want)
                case Broken(err) => ReadFailed(err)
                case Intact(data) => if data == [] then EmptyBlob else Stored(H(data), |data|)
  {
    CutBodyExactly(H, script, limit, want);
    CutBodyStep(H, Fresh(script, limit, want), []);
    var chunks := CutBody(H, Fresh(script, limit, want), []).1;
    if chunks != [] {
      FlatNonEmpty(chunks);
    }
  }

  /**
   * Chunked writing and chunked reading cancel out: however the transport fragments the body, and
   * whatever buffers the caller reads with, the reader over the chunks that were cut gives back
   * exactly the bytes that were delivered, then EOF.
   */
  lemma ChunkedRoundTrip(H: Hash, script: Script, limit: nat, want: string, k: BlobKey, rooms: seq<nat>)
    requires CutBody(H, Fresh(script, limit, want), []).2 == Ended
    requires forall i :: 0 <= i < |rooms| ==> rooms[i] > 0
    requires |rooms| > |DeliveredChunked(script, 0)|
    ensures var (c, eof) := ReadMany(StoredCursor(H, k, CutBody(H, Fresh(script, limit, want), []).1), rooms);
            eof && c.sent == DeliveredChunked(script, 0)
  {
    ChunkedBodyIsSigned(H, script, limit, want);
    var c := StoredCursor(H, k, CutBody(H, Fresh(script, limit, want), []).1);
    assert Whole(c) == Flat(c.rows);
    ReadingDrains(c, rooms);
  }

  /** The reader a Get opens over a blob that was stored in these chunks. */
  function StoredCursor(H: Hash, k: BlobKey, chunks: seq<Bytes>): Cursor {
    Cursor(k, |Flat(chunks)|, H(Flat(chunks)), chunks, [], [])
  }

  lemma AnswerAlone(H: Hash, db: Tables, body: Stack, k: BlobKey, outcome: Outcome)
    requires Consistent(body) && AnswersBody(H, body, outcome) && outcome != Unavailable
    requires outcome == SeqConflict <==> k.seqNo != HeadSeq(db.log.Keys, k) + 1
    ensures outcome == AloneOutcome(H, db, body, k)
  {
  }

  /** An upload under way: its transaction and body at the start, and whether nobody else is about. */
  datatype Uploading = Uploading(tx: Tx, quiet: bool, db: Tables, b0: Stack, s0: State)

  /** What Get answers: ErrNotFound and an error of the database are told apart. */
  datatype Found = Opened(reader: ChunkReader, size: nat) | NotFound | Unreachable

  class Store {
    const H: Hash
    var st: State

    /** What the last call has done so far. */
    ghost var call: Call

    constructor (H: Hash)
      ensures this.H == H && st == INIT && Inv(H, st)
    {
      this.H, st := H, INIT;
    }

    /** The tables and transactions have come here from s0, a state as runs reach it, by what is on record. */
    ghost predicate From(s0: State)
      reads this
    {
      Inv(H, s0) && Reaches(H, s0, st) && Recorded(H, call, st)
    }

    /** The call has opened its transaction, which is x. */
    ghost predicate Began(x: Xid)
      reads this
    {
      call.Opened() && call.x == x
    }

    /** It is x's turn, with the statement that comes next in the schedule. */
    ghost predicate OnTurn(x: Xid, schedule: Schedule)
      reads this
    {
      && Began(x) && call.schedule == schedule && x in st.open
      && Pauses(call.acts) == StatementNo(st.open[x]) && (call.begin.HeadCheck? <==> st.open[x].Appending?)
    }

    /** The others have had their turn before x's statement, which may now run. */
    ghost predicate Ready(x: Xid, schedule: Schedule)
      reads this
    {
      && Began(x) && call.schedule == schedule && x in st.open
      && Pauses(call.acts) == StatementNo(st.open[x]) + 1 && (call.begin.HeadCheck? <==> st.open[x].Appending?)
    }

    /** The others have had their first turn, and the call is about to open its transaction. */
    ghost predicate Guarded(begin: Step, schedule: Schedule)
      reads this
    {
      && Recorded(H, call, st) && call.Guarded() && Pauses(call.acts) == 1
      && call.begin == begin && call.schedule == schedule && call.x == st.next
    }

    /** A call starts: the others have their first turn. */
    method FirstTurn(begin: Step, schedule: Schedule) returns (gap: Gap)
      requires Inv(H, st)
      modifies this
      ensures From(old(st)) && Guarded(begin, schedule) && Continues(Opening(H, old(st), begin, schedule), call)
      ensures gap == schedule(0) && st == Interfered(H, old(st), None, gap.others)
      ensures st.next >= old(st).next && (Calm(gap) ==> st == old(st))
    {
      ghost var s0 := st;
      gap := schedule(0);
      call := Opening(H, st, begin, schedule);
      ReachesItself(H, s0);
      Others(None, gap.others, s0);
      Newer(s0);
    }

    /** The call opens its transaction. */
    method Begin(begin: Step, schedule: Schedule, ghost s0: State) returns (x: Xid)
      requires From(s0) && Guarded(begin, schedule) && Enabled(st, begin)
      requires begin.HeadCheck? || begin.PruneAllowed? || begin.EraseBegin?
      modifies this
      ensures From(s0) && Continues(old(call), call) && st == Apply(H, old(st), begin)
      ensures x == call.x == old(st).next && OnTurn(x, schedule)
    {
      x := st.next;
      Exec(begin, s0);
    }

    lemma Sound(s0: State)
      requires From(s0)
      ensures Inv(H, st)
    {
      var steps :| Run(H, s0, steps) == Some(st);
      RunKeepsIntegrity(H, s0, steps);
    }

    /** Transaction ids are never handed out twice. */
    lemma Newer(s0: State)
      requires From(s0)
      ensures st.next >= s0.next
    {
      var steps :| Run(H, s0, steps) == Some(st);
      NextGrows(H, s0, steps);
    }

    /** The other transactions' turn: those of the scripted steps that are theirs to take and enabled. */
    method Others(mine: Option<Xid>, steps: seq<Step>, ghost s0: State)
      requires From(s0) && Proper(call, Pause(mine, steps))
      requires mine.Some? ==> mine.value in st.open
      modifies this
      ensures From(s0) && call == Then(old(call), Pause(mine, steps))
      ensures st == Interfered(H, old(st), mine, steps)
      ensures Pauses(call.acts) == Pauses(old(call.acts)) + 1
      ensures mine.Some? ==> mine.value in st.open && st.open[mine.value] == old(st.open)[mine.value]
      ensures steps == [] ==> st == old(st)
    {
      Sound(s0);
      RunOthers(mine, steps, s0);
      RecordedThen(H, call, old(st), Pause(mine, steps), st);
      call := Then(call, Pause(mine, steps));
    }

    method RunOthers(mine: Option<Xid>, steps: seq<Step>, ghost s0: State)
      requires Inv(H, s0) && Reaches(H, s0, st) && Inv(H, st)
      requires mine.Some? ==> mine.value in st.open
      modifies this`st
      ensures Reaches(H, s0, st) && st == Interfered(H, old(st), mine, steps)
      ensures mine.Some? ==> mine.value in st.open && st.open[mine.value] == old(st.open)[mine.value]
    {
      var i := 0;
      while i < |steps|
        invariant i <= |steps| && Reaches(H, s0, st) && Inv(H, st) && st == Interfered(H, old(st), mine, steps[..i])
        invariant mine.Some? ==> mine.value in st.open && st.open[mine.value] == old(st.open)[mine.value]
      {
        assert steps[..i + 1][..i] == steps[..i];
        if Enabled(st, steps[i]) && (mine.None? || Subject(steps[i]) != mine) {
          if mine.Some? {
            ForeignStep(H, st, steps[i], mine.value);
          }
          ReachesStep(H, s0, st, steps[i]);
          st := Apply(H, st, steps[i]);
        }
        i := i + 1;
      }
      assert steps[..i] == steps;
    }

    /** One enabled statement of one's own. */
    method Exec(step: Step, ghost s0: State)
      requires From(s0) && Enabled(st, step) && Proper(call, Own(step))
      modifies this
      ensures From(s0) && st == Apply(H, old(st), step) && call == Then(old(call), Own(step))
      ensures Pauses(call.acts) == Pauses(old(call.acts))
    {
      Sound(s0);
      ReachesStep(H, s0, st, step);
      RecordedThen(H, call, st, Own(step), Apply(H, st, step));
      call := Then(call, Own(step));
      st := Apply(H, st, step);
    }

    /** The others' turn before the statement that comes next. */
    method Await(x: Xid, schedule: Schedule, ghost s0: State) returns (gap: Gap)
      requires From(s0) && OnTurn(x, schedule)
      modifies this
      ensures From(s0) && Ready(x, schedule) && Continues(old(call), call)
      ensures gap == schedule(StatementNo(old(st).open[x]))
      ensures st.open[x] == old(st).open[x] && (Calm(gap) ==> st == old(st))
    {
      gap := schedule(StatementNo(st.open[x]));
      Others(Some(x), gap.others, s0);
    }

    /** That statement, or the last one, which ends the transaction. */
    method Do(x: Xid, step: Step, schedule: Schedule, ghost s0: State)
      requires From(s0) && Ready(x, schedule) && Enabled(st, step) && Belongs(call, step)
      modifies this
      ensures From(s0) && st == Apply(H, old(st), step) && Continues(old(call), call) && Began(x)
      ensures x in st.open && StatementNo(st.open[x]) == StatementNo(old(st).open[x]) + 1 ==> OnTurn(x, schedule)
    {
      KindStays(H, st, step, x);
      Exec(step, s0);
    }

    /** Transaction x is over and none of its rows was ever committed. */
    ghost predicate LeftNoTrace(x: Xid)
      reads this
    {
      x !in st.open && x !in st.db.history
        && (forall c :: c in st.db.chunks ==> st.db.chunks[c].xmin != x)
        && (forall k :: k in st.db.log ==> st.db.log[k].xmin != x)
    }

    /** x is the only open transaction, and the tables are as given. */
    ghost predicate Alone(x: Xid, db: Tables)
      reads this
    {
      st.db == db && st.open.Keys == {x}
    }

    lemma NoTrace(x: Xid)
      requires Inv(H, st) && x !in st.open && x !in st.db.history
      ensures LeftNoTrace(x)
    {
      forall c | c in st.db.chunks ensures st.db.chunks[c].xmin != x {
        assert ChunkOk(st.db, c);
      }
      forall k | k in st.db.log ensures st.db.log[k].xmin != x {
        assert LogOk(H, st.db, k);
      }
    }

    /** INSERT of one chunk row, or the answer when it cannot be done. */
    method InsertChunkRow(x: Xid, bytes: Bytes, schedule: Schedule, ghost s0: State)
      returns (err: Option<Outcome>, ghost before: State)
      requires From(s0) && InAppend(st, x) && st.open[x].phase.Streaming? && OnTurn(x, schedule)
      requires 0 < |bytes| <= CHUNK_BYTES
      modifies this
      ensures From(s0) && Continues(old(call), call)
      ensures var tx := old(st).open[x];
              match err
              case Some(outcome) =>
                && (outcome == SeqConflict || outcome == Unavailable) && LeftNoTrace(x)
                && Explained(H, s0, before, tx.key, x, st, schedule, outcome)
              case None =>
                && OnTurn(x, schedule) && !schedule(StatementNo(tx)).fails
                && st.open[x] == tx.(chunks := tx.chunks + [bytes],
                     phase := if |bytes| < CHUNK_BYTES then BodyEnded else Streaming)
      ensures var tx := old(st).open[x];
              Undisturbed(schedule) && old(Alone(x, st.db)) && ChunkKey(tx.key, |tx.chunks|) !in old(st).db.chunks ==>
                err.None? && Alone(x, old(st).db)
    {
      var gap := Await(x, schedule, s0);
      before := st;
      BlockedInsertWaits(st, x, bytes);
      if !gap.fails && Enabled(st, InsertChunk(x, bytes)) {
        Do(x, InsertChunk(x, bytes), schedule, s0);
        return None, before;
      }
      err := Fail(x, gap, schedule, s0);
    }

    /** Transaction x is as given, and alone if nobody interferes. */
    ghost predicate Streams(x: Xid, tx: Tx, quiet: bool, db: Tables)
      reads this
    {
      x in st.open && st.open[x] == tx && (quiet ==> Alone(x, db))
    }

    /** The append is refused at one of its inserts, which does not happen if nobody interferes. */
    ghost predicate Refused(u: Uploading, before: State, x: Xid, schedule: Schedule, answer: Outcome)
      requires u.tx.Appending?
      reads this
    {
      && !u.quiet && LeftNoTrace(x) && (answer == SeqConflict || answer == Unavailable)
      && Explained(H, u.s0, before, u.tx.key, x, st, schedule, answer)
    }

    /** The insert of the next chunk, after `chunks`. */
    method InsertNext(x: Xid, bytes: Bytes, schedule: Schedule, idx: nat, ghost chunks: seq<Bytes>, ghost u: Uploading)
      returns (err: Option<Outcome>, ghost before: State)
      requires From(u.s0) && u.tx.Appending? && u.tx.phase.Streaming? && idx == |chunks| && OnTurn(x, schedule)
      requires Streams(x, u.tx.(chunks := chunks), u.quiet, u.db)
      requires 0 < |bytes| <= CHUNK_BYTES
      requires AllSucceed(schedule, idx + 1)
      requires u.quiet ==> Undisturbed(schedule) && NoChunksOf(u.db, u.tx.key)
      modifies this
      ensures From(u.s0) && Continues(old(call), call) && (err.None? ==> OnTurn(x, schedule))
      ensures err.None? ==>
                && AllSucceed(schedule, |chunks + [bytes]| + 1)
                && Streams(x, u.tx.(chunks := chunks + [bytes],
                                    phase := if |bytes| < CHUNK_BYTES then BodyEnded else Streaming), u.quiet, u.db)
      ensures err.Some? ==> Refused(u, before, x, schedule, err.value)
    {
      err, before := InsertChunkRow(x, bytes, schedule, u.s0);
      if err.None? {
        OneMoreSucceeds(schedule, 1 + idx);
      }
    }

    /** An insert that did not succeed: a key already committed is a conflict, a failure or a wait an error. */
    method Fail(x: Xid, gap: Gap, schedule: Schedule, ghost s0: State) returns (err: Option<Outcome>)
      requires From(s0) && InAppend(st, x) && (gap.fails || Enabled(st, PkConflict(x)) || Waits(st, x))
      requires Ready(x, schedule) && gap == schedule(StatementNo(st.open[x]))
      modifies this
      ensures From(s0) && Continues(old(call), call) && LeftNoTrace(x)
      ensures err == if !gap.fails && Enabled(old(st), PkConflict(x)) then Some(SeqConflict) else Some(Unavailable)
      ensures Explained(H, s0, old(st), old(st).open[x].key, x, st, schedule, err.value)
    {
      ghost var before, tx := st, st.open[x];
      if !gap.fails && Enabled(st, PkConflict(x)) {
        Sound(s0);
        assert TxOk(H, st.db, x, st.open[x]);
        Do(x, PkConflict(x), schedule, s0);
        err := Some(SeqConflict);
        Sound(s0);
        NoTrace(x);
      } else {
        var answer := Abandon(x, Unavailable, s0);
        err := Some(answer);
      }
      FailureIsExplained(H, s0, before, tx, x, st, schedule, err.value);
    }

    /** The rows of append x are committed, with these chunks. */
    ghost predicate Committed(x: Xid, k: BlobKey, prev: string, createdAt: nat, chunks: seq<Bytes>)
      reads this
    {
      && chunks != []
      && k in st.db.log
      && st.db.log[k] == LogRow(x, H(Flat(chunks)), Nullable(prev), |Flat(chunks)|, createdAt)
      && Coalesce(st.db.log[k].prev) == prev && (st.db.log[k].prev == None <==> prev == "")
      && x in st.db.history && st.db.history[x] == Upload(k, chunks)
    }

    /**
     * Append: head check, chunk rows while the body lasts, log row, commit. On success the entry
     * holds the chunks the body was cut into. On any other outcome no row of the transaction is
     * ever visible, except that an error may stand for a COMMIT that landed and was not answered.
     * A conflict is heard only where this very run met one. All that the call does is on record: the
     * others' turns as scripted, and statements of the one transaction that its head check opens.
     * Undisturbed, the answer and the tables left are the atomic log's.
     */
    method Append(k: BlobKey, prev: string, body: DigestVerifyingBody, createdAt: nat, schedule: Schedule)
      returns (outcome: Outcome, ghost x: Xid, ghost before: State)
      requires Inv(H, st) && body.H == H && Consistent(body.State()) && body.hashed == []
      modifies this, body, body.rc, body.rc.rc, body.rc.guard`over
      ensures From(old(st)) && AnswersBody(H, old(body.State()), outcome) && x >= old(st).next
      ensures Continues(Opening(H, old(st), HeadCheck(k, prev), schedule), call) && x == call.x
      ensures var chunks := CutBody(H, old(body.State()), []).1;
              if outcome.Stored? then Committed(x, k, prev, createdAt, chunks)
              else LeftNoTrace(x) || (outcome == Unavailable && Committed(x, k, prev, createdAt, chunks))
      ensures Explained(H, old(st), before, k, x, st, schedule, outcome)
      ensures outcome.Stored? ==> AllSucceed(schedule, |CutBody(H, old(body.State()), []).1| + 3)
      ensures LeftNoTrace(x) || ReadOut(H, old(body.State()), body.State())
      ensures Later(body.State(), old(body.State())) && (IsOfBody(outcome) ==> ReadUp(H, old(body.State()), body.State()))
      ensures !call.Opened() ==> body.State() == old(body.State())
      ensures Undisturbed(schedule) && old(st).open == map[] && NoChunksOf(old(st).db, k) ==>
                && outcome == AloneOutcome(H, old(st).db, old(body.State()), k)
                && (outcome == SeqConflict ==> !call.Opened())
                && Rests(if outcome.Stored?
                         then WithUpload(H, old(st).db, x, k, prev, createdAt, CutBody(H, old(body.State()), []).1)
                         else old(st).db)
    {
      ghost var s0, b0 := st, body.State();
      var err, tx;
      err, tx, before := OpenAppend(k, prev, schedule);
      x := tx;
      if err.Some? {
        outcome := err.value;
      } else {
        outcome, before := AppendBody(tx, body, createdAt, schedule, s0);
      }
      if Undisturbed(schedule) && s0.open == map[] && NoChunksOf(s0.db, k) {
        AnswerAlone(H, s0.db, b0, k, outcome);
      }
    }

    /** These are the tables, and no transaction is open. */
    ghost predicate Rests(db: Tables)
      reads this
    {
      st.db == db && st.open == map[]
    }

    /** The rest of Append, once the head check has passed. */
    method AppendBody(x: Xid, body: DigestVerifyingBody, createdAt: nat, schedule: Schedule, ghost s0: State)
      returns (outcome: Outcome, ghost before: State)
      requires From(s0) && x in st.open && body.H == H && Consistent(body.State()) && body.hashed == []
      requires st.open[x].Appending? && st.open[x].chunks == [] && st.open[x].phase.Streaming? && AllSucceed(schedule, 1)
      requires OnTurn(x, schedule)
      modifies this, body, body.rc, body.rc.rc, body.rc.guard`over
      ensures From(s0) && Continues(old(call), call) && AnswersBody(H, old(body.State()), outcome)
      ensures var tx := old(st).open[x];
              var chunks := CutBody(H, old(body.State()), []).1;
              if outcome.Stored? then Committed(x, tx.key, tx.prev, createdAt, chunks)
              else LeftNoTrace(x) || (outcome == Unavailable && Committed(x, tx.key, tx.prev, createdAt, chunks))
      ensures Explained(H, s0, before, old(st).open[x].key, x, st, schedule, outcome)
      ensures outcome.Stored? ==> AllSucceed(schedule, |CutBody(H, old(body.State()), []).1| + 3)
      ensures LeftNoTrace(x) || ReadOut(H, old(body.State()), body.State())
      ensures Later(body.State(), old(body.State())) && (IsOfBody(outcome) ==> ReadUp(H, old(body.State()), body.State()))
      ensures Undisturbed(schedule) && old(Alone(x, st.db)) && FreeSlot(old(st).db, old(st).open[x].key) ==>
                && IsOfBody(outcome)
                && var tx := old(st).open[x];
                   Rests(if outcome.Stored?
                         then WithUpload(H, old(st).db, x, tx.key, tx.prev, createdAt, CutBody(H, old(body.State()), []).1)
                         else old(st).db)
    {
      ghost var b0 := body.State();
      var err, sha, size;
      err, sha, size, before := StreamBody(x, body, schedule, s0);
      if err.Some? {
        return err.value, before;
      }
      outcome, before := FinishAppend(x, size, createdAt, schedule, b0, s0);
    }

    /** What follows the chunk loop: an empty body is refused, anything else logged and committed. */
    method FinishAppend(x: Xid, size: nat, createdAt: nat, schedule: Schedule, ghost b0: Stack, ghost s0: State)
      returns (outcome: Outcome, ghost before: State)
      requires From(s0) && InAppend(st, x) && st.open[x].phase.BodyEnded? && b0.hashed == []
      requires CutTo(H, b0, st.open[x].chunks, Ended) && size == |Flat(st.open[x].chunks)|
      requires AllSucceed(schedule, |st.open[x].chunks| + 1) && OnTurn(x, schedule)
      modifies this
      ensures From(s0) && Continues(old(call), call) && AnswersBody(H, b0, outcome)
      ensures var tx := old(st).open[x];
              if outcome.Stored? then Committed(x, tx.key, tx.prev, createdAt, tx.chunks)
              else LeftNoTrace(x) || (outcome == Unavailable && Committed(x, tx.key, tx.prev, createdAt, tx.chunks))
      ensures Explained(H, s0, before, old(st).open[x].key, x, st, schedule, outcome)
      ensures outcome.Stored? ==> AllSucceed(schedule, |old(st).open[x].chunks| + 3)
      ensures Undisturbed(schedule) && old(Alone(x, st.db)) && old(st).open[x].key !in old(st).db.log ==>
                && (outcome.Stored? || outcome == EmptyBlob)
                && var tx := old(st).open[x];
                   Rests(if outcome.Stored? then WithUpload(H, old(st).db, x, tx.key, tx.prev, createdAt, tx.chunks)
                         else old(st).db)
    {
      ghost var chunks := st.open[x].chunks;
      AnswersEnded(H, b0, chunks, EmptyBlob);
      if size == 0 {
        before := st;
        outcome := Abandon(x, EmptyBlob, s0);
        return;
      }
      outcome, before := InsertLogAndCommit(x, createdAt, schedule, s0);
      AnswersEnded(H, b0, chunks, outcome);
      if outcome.Stored? {
        OneMoreSucceeds(schedule, |chunks| + 1);
        OneMoreSucceeds(schedule, |chunks| + 2);
      }
    }

    /** The head check, which opens the transaction if it passes. */
    method OpenAppend(k: BlobKey, prev: string, schedule: Schedule)
      returns (err: Option<Outcome>, x: Xid, ghost before: State)
      requires Inv(H, st)
      modifies this
      ensures From(old(st)) && Continues(Opening(H, old(st), HeadCheck(k, prev), schedule), call) && x == call.x
      ensures match err
              case None => OnTurn(x, schedule) && st.open[x] == Appending(k, prev, [], Streaming) && AllSucceed(schedule, 1)
              case Some(answer) =>
                && LeftNoTrace(x) && (answer == SeqConflict || answer == Unavailable) && !call.Opened()
                && Explained(H, old(st), before, k, x, st, schedule, answer)
      ensures x >= old(st).next
      ensures Calm(schedule(0)) ==>
                if k.seqNo == HeadSeq(old(st).db.log.Keys, k) + 1
                then err.None? && st.db == old(st).db && st.open.Keys == old(st).open.Keys + {x}
                else err == Some(SeqConflict) && st == old(st)
    {
      ghost var s0 := st;
      var gap := FirstTurn(HeadCheck(k, prev), schedule);
      before, x := st, st.next;
      if gap.fails || k.seqNo != HeadSeq(st.db.log.Keys, k) + 1 {
        Sound(s0);
        NoTrace(x);
        return if gap.fails then Some(Unavailable) else Some(SeqConflict), x, before;
      }
      x := Begin(HeadCheck(k, prev), schedule, s0);
      return None, x, before;
    }

    /** The chunk loop of Append, inside transaction x. */
    method StreamBody(x: Xid, body: DigestVerifyingBody, schedule: Schedule, ghost s0: State)
      returns (err: Option<Outcome>, sha: string, size: nat, ghost before: State)
      requires From(s0) && x in st.open && body.H == H && Consistent(body.State())
      requires st.open[x].Appending? && st.open[x].chunks == [] && st.open[x].phase.Streaming? && AllSucceed(schedule, 1)
      requires OnTurn(x, schedule)
      modifies this, body, body.rc, body.rc.rc, body.rc.guard`over
      ensures From(s0) && Continues(old(call), call) && (err.None? ==> OnTurn(x, schedule))
      ensures Later(body.State(), old(body.State()))
      ensures var tx := old(st).open[x];
              var quiet := Undisturbed(schedule) && old(Alone(x, st.db)) && NoChunksOf(old(st).db, tx.key);
              if err.None? then
                var chunks := CutBody(H, old(body.State()), []).1;
                && CutTo(H, old(body.State()), chunks, Ended) && sha == H(Flat(chunks)) && size == |Flat(chunks)|
                && Streams(x, tx.(chunks := chunks, phase := BodyEnded), quiet, old(st).db)
                && AllSucceed(schedule, |chunks| + 1) && ReadOut(H, old(body.State()), body.State())
              else
                var u := Uploading(tx, quiet, old(st).db, old(body.State()), s0);
                StoppedBy(u, body.State(), before, x, schedule, err.value)
    {
      ghost var b0, tx, db := body.State(), st.open[x], st.db;
      ghost var quiet := Undisturbed(schedule) && Alone(x, db) && NoChunksOf(db, tx.key);
      var hasher: Bytes := [];
      size, err := 0, None;
      var idx := 0;
      var buf := new Byte[CHUNK_BYTES](_ => 0);
      ghost var chunks: seq<Bytes> := [];
      before := st;
      while true
        invariant From(s0) && fresh(buf) && buf.Length == CHUNK_BYTES
        invariant Continues(old(call), call) && OnTurn(x, schedule) && Later(body.State(), b0)
        invariant Streams(x, tx.(chunks := chunks), quiet, db)
        invariant idx == |chunks| && AllSucceed(schedule, |chunks| + 1)
        invariant hasher == Flat(chunks)
        invariant Cutting(H, b0, body.State(), chunks)
        decreases Work(body.State().script)
      {
        var done;
        ghost var upload := Uploading(tx, quiet, db, b0, s0);
        err, done, hasher, chunks, before := Turn(x, body, buf, schedule, idx, hasher, chunks, upload);
        if err.Some? || done {
          break;
        }
        idx := idx + 1;
      }
      return err, H(hasher), |hasher|, before;
    }

    /** Why the loop stopped early: the body failed, or, unless nobody interferes, the database did. */
    ghost predicate StoppedBy(u: Uploading, rest: Stack, before: State, x: Xid, schedule: Schedule, answer: Outcome)
      requires u.tx.Appending?
      reads this
    {
      && Consistent(u.b0) && AnswersBody(H, u.b0, answer)
      && (|| (answer.ReadFailed? && ReadUp(H, u.b0, rest) && LeftNoTrace(x) && (u.quiet ==> Rests(u.db)))
          || Refused(u, before, x, schedule, answer))
    }

    /** One turn of the loop: a chunk is read and, if not empty, hashed and inserted. */
    method Turn(x: Xid, body: DigestVerifyingBody, buf: array<Byte>, schedule: Schedule, idx: nat, hasher: Bytes,
                ghost chunks: seq<Bytes>, ghost u: Uploading)
      returns (err: Option<Outcome>, done: bool, hasher': Bytes, ghost chunks': seq<Bytes>, ghost before: State)
      requires From(u.s0) && u.tx.Appending? && u.tx.phase.Streaming?
      requires Streams(x, u.tx.(chunks := chunks), u.quiet, u.db)
      requires body.H == H && buf.Length == CHUNK_BYTES && hasher == Flat(chunks)
      requires Cutting(H, u.b0, body.State(), chunks) && Later(body.State(), u.b0)
      requires idx == |chunks| && AllSucceed(schedule, idx + 1)
      requires u.quiet ==> Undisturbed(schedule) && NoChunksOf(u.db, u.tx.key)
      requires OnTurn(x, schedule)
      modifies this, body, body.rc, body.rc.rc, body.rc.guard`over, buf
      ensures From(u.s0) && hasher' == Flat(chunks')
      ensures Continues(old(call), call) && (err.None? ==> OnTurn(x, schedule))
      ensures Later(body.State(), u.b0)
      ensures err.Some? ==> StoppedBy(u, body.State(), before, x, schedule, err.value)
      ensures err.None? ==> AllSucceed(schedule, |chunks'| + 1)
      ensures err.None? && !done ==> |chunks'| == idx + 1
      ensures err.None? && done ==>
                && CutTo(H, u.b0, chunks', Ended) && ReadOut(H, u.b0, body.State())
                && Streams(x, u.tx.(chunks := chunks', phase := BodyEnded), u.quiet, u.db)
      ensures err.None? && !done ==>
                && Cutting(H, u.b0, body.State(), chunks') && Streams(x, u.tx.(chunks := chunks'), u.quiet, u.db)
                && Work(body.State().script) < Work(old(body.State()).script)
    {
      err, done, hasher', before := None, false, hasher, st;
      var n, readErr;
      n, readErr, chunks' := ReadTurn(body, buf, chunks, u.b0);
      if n > 0 {
        FlatSnoc(chunks, buf[..n]);
        hasher' := hasher + buf[..n];
        err, before := InsertNext(x, buf[..n], schedule, idx, chunks, u);
        if err.Some? {
          return;
        }
      }
      err, done := EndTurn(x, n, readErr, schedule, chunks', u, body.State());
    }

    /** io.ReadFull of the next chunk. */
    method ReadTurn(body: DigestVerifyingBody, buf: array<Byte>, ghost chunks: seq<Bytes>, ghost b0: Stack)
      returns (n: nat, readErr: ReadErr, ghost chunks': seq<Bytes>)
      requires body.H == H && buf.Length == CHUNK_BYTES
      requires Cutting(H, b0, body.State(), chunks) && Later(body.State(), b0)
      modifies body, body.rc, body.rc.rc, body.rc.guard`over, buf
      ensures n <= buf.Length && chunks' == if n > 0 then chunks + [buf[..n]] else chunks
      ensures ChunkRead(H, b0, chunks', body.State(), n, readErr)
      ensures Later(body.State(), b0)
      ensures readErr == NoErr ==> Work(body.State().script) < Work(old(body.State()).script)
    {
      CuttingTurn(H, b0, body.State(), chunks);
      ghost var b := body.State();
      n, readErr := body.ReadFull(buf);
      LaterChain(body.State(), b, b0);
      chunks' := if n > 0 then chunks + [buf[..n]] else chunks;
      assert n > 0 <==> buf[..n] != [];
    }

    /** The end of a turn: the loop goes on, or the body has ended, or its error ends the append. */
    method EndTurn(x: Xid, n: nat, readErr: ReadErr, ghost schedule: Schedule, ghost chunks: seq<Bytes>, ghost u: Uploading,
                   ghost rest: Stack)
      returns (err: Option<Outcome>, done: bool)
      requires From(u.s0) && u.tx.Appending? && u.tx.phase.Streaming? && OnTurn(x, schedule)
      requires ChunkRead(H, u.b0, chunks, rest, n, readErr)
      requires var phase := if 0 < n < CHUNK_BYTES then BodyEnded else Streaming;
               Streams(x, u.tx.(chunks := chunks, phase := phase), u.quiet, u.db)
      modifies this
      ensures From(u.s0) && Continues(old(call), call) && (err.None? ==> OnTurn(x, schedule))
      ensures err.Some? && u.quiet ==> Rests(u.db)
      ensures err.Some? ==>
                LeftNoTrace(x) && err.value.ReadFailed? && AnswersBody(H, u.b0, err.value) && ReadUp(H, u.b0, rest)
      ensures err.None? && done ==> CutTo(H, u.b0, chunks, Ended) && ReadOut(H, u.b0, rest)
      ensures err.None? && !done ==> readErr == NoErr && Cutting(H, u.b0, rest, chunks)
      ensures err.None? ==>
                Streams(x, u.tx.(chunks := chunks, phase := if done then BodyEnded else Streaming), u.quiet, u.db)
    {
      err, done := None, false;
      if readErr == EOF || readErr == UnexpectedEOF {
        if n == 0 {
          Exec(EndBody(x), u.s0);
        }
        done := true;
      } else if readErr != NoErr {
        var answer := Abandon(x, ReadFailed(readErr), u.s0);
        err := Some(answer);
      }
    }

    method Abandon(x: Xid, answer: Outcome, ghost s0: State) returns (outcome: Outcome)
      requires From(s0) && x in st.open && Began(x)
      modifies this
      ensures From(s0) && Continues(old(call), call)
      ensures LeftNoTrace(x) && outcome == answer && st == Apply(H, old(st), Abort(x))
      ensures old(st).open.Keys == {x} ==> Rests(old(st).db)
    {
      Sound(s0);
      assert TxOk(H, st.db, x, st.open[x]);
      Exec(Abort(x), s0);
      Sound(s0);
      NoTrace(x);
      outcome := answer;
    }

    /** INSERT of the metadata row, or the answer when it cannot be done. */
    method InsertLogRow(x: Xid, createdAt: nat, schedule: Schedule, ghost s0: State)
      returns (err: Option<Outcome>, ghost before: State)
      requires From(s0) && InAppend(st, x) && st.open[x].phase.BodyEnded? && st.open[x].chunks != []
      requires OnTurn(x, schedule)
      modifies this
      ensures From(s0) && Continues(old(call), call) && (err.None? ==> OnTurn(x, schedule))
      ensures var tx := old(st.open)[x];
              match err
              case Some(answer) =>
                && (answer == SeqConflict || answer == Unavailable) && LeftNoTrace(x)
                && Explained(H, s0, before, tx.key, x, st, schedule, answer)
              case None =>
                && !schedule(StatementNo(tx)).fails && x in st.open
                && var data := Flat(tx.chunks);
                   st.open[x] == tx.(phase := Logged(LogRow(x, H(data), Nullable(tx.prev), |data|, createdAt)))
      ensures Undisturbed(schedule) && old(Alone(x, st.db)) && old(st).open[x].key !in old(st).db.log ==>
                err.None? && Alone(x, old(st).db)
    {
      var gap := Await(x, schedule, s0);
      before := st;
      BlockedLogWaits(st, x, createdAt);
      if !gap.fails && Enabled(st, InsertLog(x, createdAt)) {
        Do(x, InsertLog(x, createdAt), schedule, s0);
        return None, before;
      }
      err := Fail(x, gap, schedule, s0);
    }

    /** COMMIT of an append: it may fail, and may then have landed all the same. */
    method Commit(x: Xid, schedule: Schedule, ghost s0: State) returns (outcome: Outcome, ghost before: State)
      requires From(s0) && InAppend(st, x) && st.open[x].phase.Logged? && OnTurn(x, schedule)
      modifies this
      ensures From(s0) && Continues(old(call), call)
      ensures var tx := old(st.open)[x];
              && (outcome == Unavailable || outcome == Stored(tx.phase.row.sha, tx.phase.row.size))
              && (outcome.Stored? ==> Has(st.db, x, tx) && !schedule(StatementNo(tx)).fails)
              && (outcome == Unavailable ==> (LeftNoTrace(x) || Has(st.db, x, tx)) && ErrorMet(H, s0, before, x, st, schedule))
      ensures Undisturbed(schedule) ==> outcome.Stored?
      ensures Undisturbed(schedule) && old(st).open.Keys == {x} ==> Rests(CommittedAppend(old(st).db, x, old(st).open[x]))
    {
      ghost var tx := st.open[x];
      outcome := Stored(st.open[x].phase.row.sha, st.open[x].phase.row.size);
      var gap;
      gap, before := CommitAs(x, CommitAppend(x), schedule, s0);
      LandedHas(before, x);
      if gap.fails {
        outcome := Unavailable;
      }
    }

    /** COMMIT of any transaction. It is a rollback if it fails, unless it landed and only its answer was lost. */
    method CommitAs(x: Xid, step: Step, schedule: Schedule, ghost s0: State) returns (gap: Gap, ghost before: State)
      requires From(s0) && OnTurn(x, schedule) && ReadyToCommit(st.open[x])
      requires step == CommitOf(x, st.open[x])
      modifies this
      ensures From(s0) && Continues(old(call), call)
      ensures Reaches(H, s0, before) && Inv(H, before) && x in before.open && before.open[x] == old(st).open[x]
      ensures gap == schedule(StatementNo(before.open[x])) && (Calm(gap) ==> before == old(st))
      ensures st == CommitLeads(before, x, gap) && (gap.fails && !gap.landed ==> LeftNoTrace(x))
      ensures gap.fails ==> ErrorMet(H, s0, before, x, st, schedule)
    {
      gap := Await(x, schedule, s0);
      before := st;
      Sound(s0);
      CommitLands(H, st, x);
      if gap.fails && !gap.landed {
        var _ := Abandon(x, Unavailable, s0);
      } else {
        Do(x, step, schedule, s0);
      }
      if gap.fails {
        FailedCommitIsErrorMet(H, s0, before, x, schedule);
      }
    }

    /** The metadata row and the commit. */
    method InsertLogAndCommit(x: Xid, createdAt: nat, schedule: Schedule, ghost s0: State)
      returns (outcome: Outcome, ghost before: State)
      requires From(s0) && InAppend(st, x) && st.open[x].phase.BodyEnded? && st.open[x].chunks != []
      requires OnTurn(x, schedule)
      modifies this
      ensures From(s0) && Continues(old(call), call)
      ensures var tx := old(st.open)[x];
              match outcome
              case Stored(sha, size) =>
                && sha == H(Flat(tx.chunks)) && size == |Flat(tx.chunks)|
                && Committed(x, tx.key, tx.prev, createdAt, tx.chunks)
                && !schedule(|tx.chunks| + 1).fails && !schedule(|tx.chunks| + 2).fails
              case SeqConflict => LeftNoTrace(x)
              case Unavailable => LeftNoTrace(x) || Committed(x, tx.key, tx.prev, createdAt, tx.chunks)
              case _ => false
      ensures Explained(H, s0, before, old(st).open[x].key, x, st, schedule, outcome)
      ensures Undisturbed(schedule) && old(Alone(x, st.db)) && old(st).open[x].key !in old(st).db.log ==>
                && outcome.Stored?
                && var tx := old(st).open[x];
                   Rests(WithUpload(H, old(st).db, x, tx.key, tx.prev, createdAt, tx.chunks))
    {
      var err;
      err, before := InsertLogRow(x, createdAt, schedule, s0);
      if err.Some? {
        return err.value, before;
      }
      outcome, before := Commit(x, schedule, s0);
    }

    /** One move of open delete x, or its abandonment when the statement fails or is cancelled. */
    method Advance(x: Xid, schedule: Schedule, ghost tx: Tx, ghost s0: State) returns (ok: bool, ghost before: State)
      requires From(s0) && Underway(x, tx) && Rank(st.open[x].stage) < 4 && OnTurn(x, schedule)
      modifies this
      ensures From(s0) && Continues(old(call), call) && (ok ==> OnTurn(x, schedule))
      ensures ok ==> Underway(x, tx) && Rank(st.open[x].stage) == Rank(old(st).open[x].stage) + 1
                     && !schedule(Rank(st.open[x].stage)).fails
      ensures !ok ==> Stops(H, s0, before, x, st, tx, schedule)
      ensures var step := NextMove(x, old(st).open[x].stage);
              Undisturbed(schedule) && Enabled(old(st), step) ==> ok && st == Apply(H, old(st), step)
    {
      var gap := Await(x, schedule, s0);
      before := st;
      ok := !gap.fails && Enabled(st, NextMove(x, st.open[x].stage));
      if ok {
        Move(x, schedule, tx, s0);
      } else {
        GiveUp(x, gap, schedule, tx, s0);
      }
    }

    /** The next move of an open delete. */
    method Move(x: Xid, schedule: Schedule, ghost tx: Tx, ghost s0: State)
      requires From(s0) && Ready(x, schedule) && Underway(x, tx) && Rank(st.open[x].stage) < 4
      requires Enabled(st, NextMove(x, st.open[x].stage))
      modifies this
      ensures From(s0) && Continues(old(call), call) && OnTurn(x, schedule)
      ensures Underway(x, tx) && Rank(st.open[x].stage) == Rank(old(st).open[x].stage) + 1
      ensures st == Apply(H, old(st), NextMove(x, old(st).open[x].stage))
    {
      var step := NextMove(x, st.open[x].stage);
      MoveAdvances(H, st, x, step);
      Do(x, step, schedule, s0);
    }

    /** The end of an open delete whose next move failed or still waits. */
    method GiveUp(x: Xid, gap: Gap, schedule: Schedule, ghost tx: Tx, ghost s0: State)
      requires From(s0) && Ready(x, schedule) && Underway(x, tx) && Rank(st.open[x].stage) < 4
      requires gap == schedule(StatementNo(st.open[x])) && (gap.fails || !Enabled(st, NextMove(x, st.open[x].stage)))
      modifies this
      ensures From(s0) && Continues(old(call), call)
      ensures Stops(H, s0, old(st), x, st, tx, schedule)
    {
      BlockedMoveWaits(st, x);
      var _ := Abandon(x, Unavailable, s0);
    }

    /** Delete x is open, and tx was an earlier stage of it. */
    ghost predicate Underway(x: Xid, tx: Tx)
      reads this
    {
      InDelete(st, x) && SamePrune(st.open[x], tx)
    }

    /** One DELETE statement: its snapshot, then, once the rows are free, the deletion. */
    method DeleteStatement(x: Xid, schedule: Schedule, ghost tx: Tx, ghost s0: State) returns (ok: bool, ghost before: State)
      requires From(s0) && Underway(x, tx) && OnTurn(x, schedule)
      requires st.open[x].stage.Begun? || st.open[x].stage.ChunksGone?
      modifies this
      ensures From(s0) && Continues(old(call), call) && (ok ==> OnTurn(x, schedule))
      ensures ok ==> Underway(x, tx) && TwoSucceed(schedule, if old(st).open[x].stage.Begun? then 0 else 2)
      ensures ok ==> if old(st).open[x].stage.Begun? then st.open[x].stage.ChunksGone? else st.open[x].stage.LogGone?
      ensures !ok ==> Stops(H, s0, before, x, st, tx, schedule)
      ensures Undisturbed(schedule) && old(st).open.Keys == {x} ==>
                ok && st == old(st).(open := map[x := AfterDelete(old(st).db, old(st).open[x])])
    {
      if Undisturbed(schedule) && st.open.Keys == {x} {
        ghost var end := TwoMoves(H, st, x);
      }
      ok, before := Advance(x, schedule, tx, s0);
      if ok {
        ok, before := Advance(x, schedule, tx, s0);
      }
    }

    /** The two DELETE statements of a transaction. */
    method BothStatements(x: Xid, schedule: Schedule, ghost s0: State) returns (ok: bool, ghost before: State)
      requires From(s0) && InDelete(st, x) && st.open[x].stage.Begun? && OnTurn(x, schedule)
      modifies this
      ensures From(s0) && Continues(old(call), call) && (ok ==> OnTurn(x, schedule))
      ensures ok ==> InDelete(st, x) && SamePrune(st.open[x], old(st).open[x]) && st.open[x].stage.LogGone?
      ensures ok ==> TwoSucceed(schedule, 0) && TwoSucceed(schedule, 2)
      ensures !ok ==> Stops(H, s0, before, x, st, old(st).open[x], schedule)
      ensures Undisturbed(schedule) && old(st).open.Keys == {x} ==>
                ok && st == old(st).(open := map[x := AfterDelete(old(st).db, AfterDelete(old(st).db, old(st).open[x]))])
    {
      ghost var tx := st.open[x];
      ok, before := DeleteStatement(x, schedule, tx, s0);
      if ok {
        ok, before := DeleteStatement(x, schedule, tx, s0);
      }
    }

    method FinishDelete(x: Xid, schedule: Schedule, ghost s0: State) returns (outcome: Outcome, ghost before: State)
      requires From(s0) && InDelete(st, x) && st.open[x].stage.LogGone? && OnTurn(x, schedule)
      requires TwoSucceed(schedule, 0) && TwoSucceed(schedule, 2)
      modifies this
      ensures From(s0) && Continues(old(call), call)
      ensures DeleteEnds(H, s0, before, x, st, outcome, schedule)
      ensures SamePrune(before.open[x], old(st).open[x])
      ensures Undisturbed(schedule) ==>
                outcome == Removed(|old(st).open[x].stage.goneLog|) && st == Apply(H, old(st), CommitDelete(x))
    {
      var n := |st.open[x].stage.goneLog|;
      var gap;
      gap, before := CommitAs(x, CommitDelete(x), schedule, s0);
      outcome := if gap.fails then Unavailable else Removed(n);
      CommitEndsDelete(H, s0, before, x, st, outcome, schedule);
    }

    /**
     * The two DELETE statements and the commit of an open delete. It ends with the commit, and a
     * count of the log rows that went, or with an error, which stands for a rollback or for a commit
     * whose answer was lost. Alone, it purges its scope.
     */
    method RunDelete(x: Xid, schedule: Schedule, ghost s0: State) returns (outcome: Outcome, ghost before: State)
      requires From(s0) && InDelete(st, x) && st.open[x].stage.Begun? && OnTurn(x, schedule)
      modifies this
      ensures From(s0) && Continues(old(call), call)
      ensures DeleteEnds(H, s0, before, x, st, outcome, schedule)
      ensures SamePrune(before.open[x], old(st).open[x])
      ensures Undisturbed(schedule) && old(st).open.Keys == {x} ==>
                var scope := old(st).open[x].scope;
                outcome == Removed(|SeenLog(old(st).db, scope)|) &&
                st.db == Purged(old(st).db, scope) && st.open == map[]
    {
      PurgeAlone(H, st, x);
      ghost var tx := st.open[x];
      var ok;
      ok, before := BothStatements(x, schedule, s0);
      if !ok {
        StopsIsErrorMet(H, s0, before, x, st, tx, schedule);
        return Unavailable, before;
      }
      outcome, before := FinishDelete(x, schedule, s0);
    }

    /**
     * DeleteGeneration: the guard reads the newest generation first, outside the transaction. A
     * count is that of a commit; an error is that of a failed guard, a rollback, or a commit whose
     * answer was lost; undisturbed, the answer and the tables left are the atomic prune's. All that
     * the call does is on record, as with Append.
     */
    method DeleteGeneration(pseudonym: string, device: string, generation: int, schedule: Schedule)
      returns (outcome: Outcome, ghost guard: State, ghost x: Xid, ghost before: State)
      requires Inv(H, st)
      modifies this
      ensures From(old(st)) && Reaches(H, old(st), guard)
      ensures Continues(Opening(H, old(st), PruneAllowed(pseudonym, device, generation), schedule), call)
      ensures guard == Interfered(H, old(st), None, schedule(0).others)
      ensures outcome == RetentionGuard ==>
                st == guard && Retained(guard.db.log.Keys, pseudonym, device, generation)
      ensures outcome != RetentionGuard ==>
                || (outcome == Unavailable && schedule(0).fails && st == guard)
                || (&& !Retained(guard.db.log.Keys, pseudonym, device, generation)
                    && PruneEnds(H, guard, before, x, st, outcome, Generation(pseudonym, device, generation), schedule))
      ensures Undisturbed(schedule) && old(st).open == map[] ==>
                var scope := Generation(pseudonym, device, generation);
                if Retained(old(st).db.log.Keys, pseudonym, device, generation)
                then outcome == RetentionGuard && st == old(st)
                else outcome == Removed(|SeenLog(old(st).db, scope)|) && st.db == Purged(old(st).db, scope)
    {
      ghost var s0 := st;
      var gap := FirstTurn(PruneAllowed(pseudonym, device, generation), schedule);
      guard, before, x := st, st, st.next;
      GuardRefusesExactly(st.db.log.Keys, pseudonym, device, generation);
      if gap.fails {
        return Unavailable, guard, x, before;
      }
      if GuardRefuses(Newest(st.db.log.Keys, pseudonym, device), generation) {
        return RetentionGuard, guard, x, before;
      }
      Sound(s0);
      outcome, before := RunPrune(pseudonym, device, generation, schedule);
      ReachesChain(H, s0, guard, st);
    }

    /** What follows the guard's query, which has just let the prune pass. */
    method RunPrune(pseudonym: string, device: string, generation: int, schedule: Schedule)
      returns (outcome: Outcome, ghost before: State)
      requires Inv(H, st) && Enabled(st, PruneAllowed(pseudonym, device, generation))
      requires Guarded(PruneAllowed(pseudonym, device, generation), schedule)
      modifies this
      ensures From(old(st)) && Continues(old(call), call)
      ensures PruneEnds(H, old(st), before, old(st).next, st, outcome, Generation(pseudonym, device, generation), schedule)
      ensures Undisturbed(schedule) && old(st).open == map[] ==>
                var scope := Generation(pseudonym, device, generation);
                outcome == Removed(|SeenLog(old(st).db, scope)|) && st.db == Purged(old(st).db, scope)
    {
      ghost var guard := st;
      ReachesItself(H, guard);
      var x := Begin(PruneAllowed(pseudonym, device, generation), schedule, guard);
      ghost var s1 := st;
      Sound(guard);
      ReachesItself(H, s1);
      outcome, before := RunDelete(x, schedule, s1);
      ReachesChain(H, guard, s1, st);
    }

    /** DeleteAccount: no guard. */
    method DeleteAccount(pseudonym: string, schedule: Schedule)
      returns (outcome: Outcome, ghost x: Xid, ghost before: State)
      requires Inv(H, st)
      modifies this
      ensures From(old(st)) && DeleteEnds(H, old(st), before, x, st, outcome, schedule)
      ensures Continues(Opening(H, old(st), EraseBegin(pseudonym), schedule), call) && x == call.x
      ensures x >= old(st).next && before.open[x].scope == Account(pseudonym)
      ensures Undisturbed(schedule) && old(st).open == map[] ==>
                outcome == Removed(|SeenLog(old(st).db, Account(pseudonym))|) &&
                st.db == Purged(old(st).db, Account(pseudonym))
    {
      ghost var s0 := st;
      var _ := FirstTurn(EraseBegin(pseudonym), schedule);
      var tx := Begin(EraseBegin(pseudonym), schedule, s0);
      x := tx;
      outcome, before := RunDelete(tx, schedule, s0);
    }

    /** The chunk rows of k in the order of their numbers. */
    method ScanRows(k: BlobKey) returns (rows: seq<Bytes>)
      requires Inv(H, st) && k in st.db.log
      ensures rows == st.db.history[st.db.log[k].xmin].chunks
    {
      ghost var chunks := st.db.history[st.db.log[k].xmin].chunks;
      RowsOfLoggedBlob(H, st.db, k);
      rows := [];
      while ChunkKey(k, |rows|) in st.db.chunks
        invariant rows <= chunks
        decreases |chunks| - |rows|
      {
        rows := rows + [st.db.chunks[ChunkKey(k, |rows|)].bytes];
      }
    }

    /**
     * Get: the size the log row promises, and a reader over the chunk rows of the same snapshot. The
     * connection may be lost while the rows are fetched, after the first `fetched` of them.
     */
    method Get(k: BlobKey, gap: Gap, fetched: Option<nat>) returns (found: Found)
      requires Inv(H, st)
      modifies this
      ensures From(old(st)) && st == Interfered(H, old(st), None, gap.others)
      ensures match found
              case Unreachable => gap.fails
              case NotFound => !gap.fails && k !in st.db.log
              case Opened(r, size) =>
                && !gap.fails && k in st.db.log && fresh(r) && r.Valid()
                && size == st.db.log[k].size && CompleteBlob(H, st.db, k)
                && var blob := StoredBytes(st.db, k, ChunkCount(size));
                && |blob| == size && H(blob) == st.db.log[k].sha
                && r.Remaining() <= blob && (!r.broken ==> r.Remaining() == blob)
                && (fetched.None? ==> !r.broken)
    {
      ghost var s0 := st;
      var _ := FirstTurn(GetMissing(k), (_: nat) => gap);
      Sound(s0);
      if gap.fails {
        return Unreachable;
      }
      if k !in st.db.log {
        return NotFound;
      }
      LogRowIsComplete(H, st.db, k);
      var rows := ScanRows(k);
      var r := OpenReader(rows, fetched);
      return Opened(r, st.db.log[k].size);
    }
  }

  /** A reader over the rows, or over the first of them if the connection is lost after that many. */
  method OpenReader(rows: seq<Bytes>, fetched: Option<nat>) returns (r: ChunkReader)
    ensures fresh(r) && r.Valid() && r.Remaining() <= Flat(rows)
    ensures !r.broken ==> r.Remaining() == Flat(rows)
    ensures r.broken <==> fetched.Some? && fetched.value <= |rows|
  {
    if fetched.Some? && fetched.value <= |rows| {
      FlatAppend(rows[..fetched.value], rows[fetched.value..]);
      assert rows == rows[..fetched.value] + rows[fetched.value..];
      r := new ChunkReader(rows[..fetched.value], true);
    } else {
      r := new ChunkReader(rows, false);
    }
  }
}
