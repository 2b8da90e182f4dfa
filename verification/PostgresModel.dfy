/**
 * The PostgreSQL blob store as a transition system: two tables and a set of open transactions.
 *
 * One step is one SQL statement. A statement sees the rows committed when it starts (READ
 * COMMITTED, section 13.2.1 of the PostgreSQL manual). A DELETE is two steps, because it takes
 * its snapshot when it starts but finishes only once no other open transaction holds one of the
 * rows it wants. A read cursor works on the snapshot of its first query (REPEATABLE READ,
 * section 13.2.2). An insert whose primary key another open transaction has inserted, or has
 * deleted without committing yet, is not enabled; if the key is committed it fails (23505).
 */
module PostgresModel {
  import opened Base
  import opened BlobKeys

  /** How much of a blob one blob_chunks row holds. */
  const CHUNK_BYTES := 0x10_0000

  type Xid = nat

  /** A row remembers the transaction that inserted it, as the xmin system column does. */
  datatype LogRow = LogRow(xmin: Xid, sha: string, prev: Option<string>, size: nat, createdAt: nat)
  datatype ChunkKey = ChunkKey(blob: BlobKey, idx: nat)
  datatype ChunkRow = ChunkRow(xmin: Xid, bytes: Bytes)

  datatype AppendPhase = Streaming | BodyEnded | Logged(row: LogRow)

  /** Where a delete stands; `gone` and `goneLog` are the rows it has deleted and holds locked. */
  datatype DeletePhase =
    | Begun
    | ChunksSeen(seen: map<ChunkKey, Xid>)
    | ChunksGone(gone: set<ChunkKey>)
    | LogSeen(gone: set<ChunkKey>, seenLog: map<BlobKey, Xid>)
    | LogGone(gone: set<ChunkKey>, goneLog: set<BlobKey>)

  datatype Tx =
    | Appending(key: BlobKey, prev: string, chunks: seq<Bytes>, phase: AppendPhase)
    | Deleting(scope: Scope, newest: Option<int>, stage: DeletePhase)
  {
    function GoneChunks(): set<ChunkKey> {
      if Deleting? && (stage.ChunksGone? || stage.LogSeen? || stage.LogGone?) then stage.gone else {}
    }

    function GoneLog(): set<BlobKey> {
      if Deleting? && stage.LogGone? then stage.goneLog else {}
    }

    predicate HasInserted(c: ChunkKey) {
      Appending? && key == c.blob && c.idx < |chunks|
    }
  }

  /** Auxiliary: what each committed append wrote. */
  datatype Upload = Upload(key: BlobKey, chunks: seq<Bytes>)

  /** An open Get: what it promised, the rows its snapshot still holds, and what it has sent. */
  datatype Cursor = Cursor(key: BlobKey, size: nat, sha: string, rows: seq<Bytes>, buf: Bytes, sent: Bytes)

  /** The committed tables, and the auxiliary record of who wrote what. */
  datatype Tables = Tables(
    log: map<BlobKey, LogRow>,
    chunks: map<ChunkKey, ChunkRow>,
    history: map<Xid, Upload>)

  datatype State = State(db: Tables, open: map<Xid, Tx>, next: Xid, cursors: map<nat, Cursor>)

  const INIT := State(Tables(map[], map[], map[]), map[], 0, map[])

  datatype Step =
    | HeadCheck(key: BlobKey, prev: string)
    | HeadRefused(key: BlobKey)
    | InsertChunk(x: Xid, bytes: Bytes)
    | EndBody(x: Xid)
    | InsertLog(x: Xid, createdAt: nat)
    | PkConflict(x: Xid)
    | RefuseEmpty(x: Xid)
    | CommitAppend(x: Xid)
    | Abort(x: Xid)
    | PruneRefused(pseudonym: string, device: string, generation: int)
    | PruneAllowed(pseudonym: string, device: string, generation: int)
    | EraseBegin(pseudonym: string)
    | SeeChunks(x: Xid)
    | DeleteChunks(x: Xid)
    | SeeLog(x: Xid)
    | DeleteLog(x: Xid)
    | CommitDelete(x: Xid)
    | OpenGet(id: nat, key: BlobKey, idxs: seq<nat>)
    | GetMissing(key: BlobKey)
    | ReadGet(id: nat, room: nat)
    | CloseGet(id: nat)

  function Nullable(prev: string): Option<string> {
    if prev == "" then None else Some(prev)
  }

  /** COALESCE(prev_sha256, ''), as the index query reads the column. */
  function Coalesce(prev: Option<string>): string {
    if prev.None? then "" else prev.value
  }

  /** The column gives back what the caller gave, and is NULL for the empty string only. */
  lemma PrevReadsBack(prev: string)
    ensures Coalesce(Nullable(prev)) == prev && (Nullable(prev) == None <==> prev == "")
  {
  }

  predicate InsertedByOther(s: State, x: Xid, c: ChunkKey) {
    exists y :: y in s.open && y != x && s.open[y].HasInserted(c)
  }

  predicate LoggedByOther(s: State, x: Xid, k: BlobKey) {
    exists y :: y in s.open && y != x && s.open[y].Appending? && s.open[y].key == k && s.open[y].phase.Logged?
  }

  predicate ChunkHeldByOther(s: State, x: Xid, c: ChunkKey) {
    exists y :: y in s.open && y != x && c in s.open[y].GoneChunks()
  }

  predicate LogHeldByOther(s: State, x: Xid, k: BlobKey) {
    exists y :: y in s.open && y != x && k in s.open[y].GoneLog()
  }

  /** The very row version that a DELETE's snapshot saw is still committed. */
  predicate StillThere(db: Tables, c: ChunkKey, w: Xid) {
    c in db.chunks && db.chunks[c].xmin == w
  }

  predicate StillLoggedBy(db: Tables, k: BlobKey, w: Xid) {
    k in db.log && db.log[k].xmin == w
  }

  predicate InAppend(s: State, x: Xid) {
    x in s.open && s.open[x].Appending?
  }

  predicate InDelete(s: State, x: Xid) {
    x in s.open && s.open[x].Deleting?
  }

  /** idxs lists, in increasing order, exactly the chunk numbers stored for k: ORDER BY idx. */
  predicate Scans(chunks: map<ChunkKey, ChunkRow>, k: BlobKey, idxs: seq<nat>) {
    && (forall i, j :: 0 <= i < j < |idxs| ==> idxs[i] < idxs[j])
    && (forall i :: 0 <= i < |idxs| ==> ChunkKey(k, idxs[i]) in chunks)
    && (forall c :: c in chunks && c.blob == k ==> c.idx in idxs)
  }

  function Seen(db: Tables, scope: Scope): map<ChunkKey, Xid> {
    map c | c in db.chunks && scope.Covers(c.blob) :: db.chunks[c].xmin
  }

  function SeenLog(db: Tables, scope: Scope): map<BlobKey, Xid> {
    map k | k in db.log && scope.Covers(k) :: db.log[k].xmin
  }

  predicate Enabled(s: State, step: Step) {
    match step
    case HeadCheck(k, _) => k.seqNo == HeadSeq(s.db.log.Keys, k) + 1
    case HeadRefused(k) => k.seqNo != HeadSeq(s.db.log.Keys, k) + 1
    case InsertChunk(x, bytes) =>
      && InAppend(s, x) && s.open[x].phase.Streaming?
      && 0 < |bytes| <= CHUNK_BYTES
      && var c := ChunkKey(s.open[x].key, |s.open[x].chunks|);
      c !in s.db.chunks && !InsertedByOther(s, x, c)
    case EndBody(x) => InAppend(s, x) && s.open[x].phase.Streaming?
    case InsertLog(x, _) =>
      && InAppend(s, x) && s.open[x].phase.BodyEnded? && s.open[x].chunks != []
      && s.open[x].key !in s.db.log && !LoggedByOther(s, x, s.open[x].key)
    case PkConflict(x) =>
      && InAppend(s, x)
      && (|| (s.open[x].phase.Streaming?
              && var c := ChunkKey(s.open[x].key, |s.open[x].chunks|);
              c in s.db.chunks && !ChunkHeldByOther(s, x, c))
          || (s.open[x].phase.BodyEnded? && s.open[x].chunks != []
              && s.open[x].key in s.db.log && !LogHeldByOther(s, x, s.open[x].key)))
    case RefuseEmpty(x) => InAppend(s, x) && s.open[x].phase.BodyEnded? && s.open[x].chunks == []
    case CommitAppend(x) => InAppend(s, x) && s.open[x].phase.Logged?
    case Abort(x) => x in s.open
    case PruneRefused(p, d, g) => GuardRefuses(Newest(s.db.log.Keys, p, d), g)
    case PruneAllowed(p, d, g) => !GuardRefuses(Newest(s.db.log.Keys, p, d), g)
    case EraseBegin(_) => true
    case SeeChunks(x) => InDelete(s, x) && s.open[x].stage.Begun?
    case DeleteChunks(x) =>
      && InDelete(s, x) && s.open[x].stage.ChunksSeen?
      && var seen := s.open[x].stage.seen;
         forall c :: c in seen && StillThere(s.db, c, seen[c]) ==> !ChunkHeldByOther(s, x, c)
    case SeeLog(x) => InDelete(s, x) && s.open[x].stage.ChunksGone?
    case DeleteLog(x) =>
      && InDelete(s, x) && s.open[x].stage.LogSeen?
      && var seen := s.open[x].stage.seenLog;
         forall k :: k in seen && StillLoggedBy(s.db, k, seen[k]) ==> !LogHeldByOther(s, x, k)
    case CommitDelete(x) => InDelete(s, x) && s.open[x].stage.LogGone?
    case OpenGet(id, k, idxs) => id !in s.cursors && k in s.db.log && Scans(s.db.chunks, k, idxs)
    case GetMissing(k) => k !in s.db.log
    case ReadGet(id, _) => id in s.cursors
    case CloseGet(id) => id in s.cursors
  }

  /** One chunkReader.Read into a buffer of `room` bytes: skip drained rows, then copy what fits. */
  function ReadCursor(c: Cursor, room: nat): (r: (Cursor, Bytes, bool))
    decreases |c.rows|
  {
    if c.buf == [] && c.rows == [] then (c, [], true)
    else if c.buf == [] then ReadCursor(c.(buf := c.rows[0], rows := c.rows[1..]), room)
    else
      var n := if room < |c.buf| then room else |c.buf|;
      (c.(buf := c.buf[n..], sent := c.sent + c.buf[..n]), c.buf[..n], false)
  }

  function Without(open: map<Xid, Tx>, x: Xid): map<Xid, Tx> {
    map y | y in open && y != x :: open[y]
  }

  function CommittedAppend(db: Tables, x: Xid, tx: Tx): Tables
    requires tx.Appending? && tx.phase.Logged?
  {
    Tables(
      db.log[tx.key := tx.phase.row],
      db.chunks + (map j | 0 <= j < |tx.chunks| :: ChunkKey(tx.key, j) := ChunkRow(x, tx.chunks[j])),
      db.history[x := Upload(tx.key, tx.chunks)])
  }

  function CommittedDelete(db: Tables, tx: Tx): Tables
    requires tx.Deleting? && tx.stage.LogGone?
  {
    db.(log := db.log - tx.stage.goneLog, chunks := db.chunks - tx.stage.gone)
  }

  function Apply(H: Hash, s: State, step: Step): State
    requires Enabled(s, step)
  {
    match step
    case HeadCheck(k, prev) =>
      s.(open := s.open[s.next := Appending(k, prev, [], Streaming)], next := s.next + 1)
    case InsertChunk(x, bytes) =>
      var tx := s.open[x];
      s.(open := s.open[x := tx.(chunks := tx.chunks + [bytes],
                                 phase := if |bytes| < CHUNK_BYTES then BodyEnded else Streaming)])
    case EndBody(x) => s.(open := s.open[x := s.open[x].(phase := BodyEnded)])
    case InsertLog(x, createdAt) =>
      var tx := s.open[x];
      var data := Flat(tx.chunks);
      s.(open := s.open[x := tx.(phase := Logged(LogRow(x, H(data), Nullable(tx.prev), |data|, createdAt)))])
    case CommitAppend(x) =>
      var tx := s.open[x];
      s.(db := CommittedAppend(s.db, x, tx), open := Without(s.open, x))
    case PkConflict(x) => s.(open := Without(s.open, x))
    case RefuseEmpty(x) => s.(open := Without(s.open, x))
    case Abort(x) => s.(open := Without(s.open, x))
    case PruneAllowed(p, d, g) =>
      s.(open := s.open[s.next := Deleting(Generation(p, d, g), Newest(s.db.log.Keys, p, d), Begun)], next := s.next + 1)
    case EraseBegin(p) =>
      s.(open := s.open[s.next := Deleting(Account(p), None, Begun)], next := s.next + 1)
    case SeeChunks(x) =>
      s.(open := s.open[x := s.open[x].(stage := ChunksSeen(Seen(s.db, s.open[x].scope)))])
    case DeleteChunks(x) =>
      var seen := s.open[x].stage.seen;
      var gone := set c | c in seen && StillThere(s.db, c, seen[c]);
      s.(open := s.open[x := s.open[x].(stage := ChunksGone(gone))])
    case SeeLog(x) =>
      s.(open := s.open[x := s.open[x].(stage := LogSeen(s.open[x].stage.gone, SeenLog(s.db, s.open[x].scope)))])
    case DeleteLog(x) =>
      var seen := s.open[x].stage.seenLog;
      var gone := set k | k in seen && StillLoggedBy(s.db, k, seen[k]);
      s.(open := s.open[x := s.open[x].(stage := LogGone(s.open[x].stage.gone, gone))])
    case CommitDelete(x) =>
      s.(db := CommittedDelete(s.db, s.open[x]), open := Without(s.open, x))
    case OpenGet(id, k, idxs) =>
      var rows := seq(|idxs|, i requires 0 <= i < |idxs| => s.db.chunks[ChunkKey(k, idxs[i])].bytes);
      s.(cursors := s.cursors[id := Cursor(k, s.db.log[k].size, s.db.log[k].sha, rows, [], [])])
    case ReadGet(id, room) => s.(cursors := s.cursors[id := ReadCursor(s.cursors[id], room).0])
    case CloseGet(id) => s.(cursors := s.cursors - {id})
    case HeadRefused(_) => s
    case PruneRefused(_, _, _) => s
    case GetMissing(_) => s
  }

  /** The state a list of steps leads to, or None if one of them is not enabled when its turn comes. */
  function Run(H: Hash, s: State, steps: seq<Step>): Option<State>
    decreases |steps|
  {
    if steps == [] then Some(s)
    else if Enabled(s, steps[0]) then Run(H, Apply(H, s, steps[0]), steps[1..])
    else None
  }

  ghost predicate Reachable(H: Hash, s: State) {
    exists steps :: Run(H, INIT, steps) == Some(s)
  }

  ghost predicate Reaches(H: Hash, s: State, s': State) {
    exists steps :: Run(H, s, steps) == Some(s')
  }

  lemma {:induction false} RunSnoc(H: Hash, s: State, steps: seq<Step>, step: Step)
    requires Run(H, s, steps).Some? && Enabled(Run(H, s, steps).value, step)
    ensures Run(H, s, steps + [step]) == Some(Apply(H, Run(H, s, steps).value, step))
    decreases |steps|
  {
    if steps == [] {
      assert [step][1..] == [];
    } else {
      RunSnoc(H, Apply(H, s, steps[0]), steps[1..], step);
      assert (steps + [step])[0] == steps[0] && (steps + [step])[1..] == steps[1..] + [step];
    }
  }

  /** Two stages of one delete: its scope and what its guard read never change. */
  predicate SamePrune(a: Tx, b: Tx) {
    a.Deleting? && b.Deleting? && a.scope == b.scope && a.newest == b.newest
  }
}
