/**
 * What every statement of every transaction keeps, under any interleaving: a committed log row
 * has exactly the chunk rows its own append wrote, and a read cursor delivers what it promised.
 */
module PostgresIntegrity {
  import opened Base
  import opened BlobKeys
  import opened PostgresModel

  /** How an append cuts a body: full chunks, then at most one shorter, non-empty one. */
  ghost predicate Shaped(chunks: seq<Bytes>) {
    forall i :: 0 <= i < |chunks| ==>
      0 < |chunks[i]| <= CHUNK_BYTES && (i < |chunks| - 1 ==> |chunks[i]| == CHUNK_BYTES)
  }

  ghost predicate AllFull(chunks: seq<Bytes>) {
    forall i :: 0 <= i < |chunks| ==> |chunks[i]| == CHUNK_BYTES
  }

  lemma {:induction false} FullLength(chunks: seq<Bytes>)
    requires AllFull(chunks)
    ensures |Flat(chunks)| == |chunks| * CHUNK_BYTES
    decreases |chunks|
  {
    if chunks != [] {
      FullLength(chunks[..|chunks| - 1]);
    }
  }

  /** Chunk row j of upload u is committed and was written by w. */
  ghost predicate Holds(db: Tables, w: Xid, u: Upload, j: nat) {
    ChunkKey(u.key, j) in db.chunks && db.chunks[ChunkKey(u.key, j)].xmin == w
  }

  ghost predicate HoldsAll(db: Tables, w: Xid) {
    w in db.history && forall j: nat :: j < |db.history[w].chunks| ==> Holds(db, w, db.history[w], j)
  }

  ghost predicate ChunkOk(db: Tables, c: ChunkKey)
    requires c in db.chunks
  {
    var w := db.chunks[c].xmin;
    && HoldsAll(db, w)
    && db.history[w].key == c.blob
    && c.idx < |db.history[w].chunks|
    && db.history[w].chunks[c.idx] == db.chunks[c].bytes
  }

  ghost predicate LogOk(H: Hash, db: Tables, k: BlobKey)
    requires k in db.log
  {
    var w := db.log[k].xmin;
    && HoldsAll(db, w)
    && db.history[w].key == k
    && db.log[k].sha == H(Flat(db.history[w].chunks))
    && db.log[k].size == |Flat(db.history[w].chunks)|
  }

  ghost predicate TablesOk(H: Hash, db: Tables) {
    && (forall w :: w in db.history ==> db.history[w].chunks != [] && Shaped(db.history[w].chunks))
    && (forall c :: c in db.chunks ==> ChunkOk(db, c))
    && (forall k :: k in db.log ==> LogOk(H, db, k))
  }

  ghost predicate AppendOk(H: Hash, db: Tables, x: Xid, tx: Tx)
    requires tx.Appending?
  {
    && (if tx.phase.Streaming? then AllFull(tx.chunks) else Shaped(tx.chunks))
    && (forall c :: tx.HasInserted(c) ==> c !in db.chunks)
    && (tx.phase.Logged? ==>
          && tx.chunks != []
          && tx.key !in db.log
          && tx.phase.row.xmin == x
          && tx.phase.row.sha == H(Flat(tx.chunks))
          && Coalesce(tx.phase.row.prev) == tx.prev
          && tx.phase.row.size == |Flat(tx.chunks)|)
  }

  /** A set of deleted chunk rows that contains whole uploads only. */
  ghost predicate WholeUploads(db: Tables, gone: set<ChunkKey>) {
    forall c :: c in gone ==> c in db.chunks && SiblingsIn(db, gone, db.chunks[c].xmin)
  }

  ghost predicate SiblingsIn(db: Tables, gone: set<ChunkKey>, w: Xid) {
    w in db.history &&
    forall j: nat :: j < |db.history[w].chunks| ==> ChunkKey(db.history[w].key, j) in gone
  }

  ghost predicate SeenWhole(db: Tables, seen: map<ChunkKey, Xid>) {
    forall c :: c in seen ==> SiblingsSeen(db, seen, seen[c])
  }

  ghost predicate SiblingsSeen(db: Tables, seen: map<ChunkKey, Xid>, w: Xid) {
    w in db.history &&
    forall j: nat :: j < |db.history[w].chunks| ==>
      ChunkKey(db.history[w].key, j) in seen && seen[ChunkKey(db.history[w].key, j)] == w
  }

  /** The log row that belongs to chunk row c is still committed. */
  predicate StillLogged(db: Tables, c: ChunkKey) {
    c in db.chunks && c.blob in db.log && db.log[c.blob].xmin == db.chunks[c].xmin
  }

  ghost predicate DeleteOk(db: Tables, tx: Tx)
    requires tx.Deleting?
  {
    && WholeUploads(db, tx.GoneChunks())
    && (forall c :: c in tx.GoneChunks() ==> tx.scope.Covers(c.blob))
    && (forall k :: k in tx.GoneLog() ==> k in db.log && tx.scope.Covers(k))
    && match tx.stage
       case Begun => true
       case ChunksSeen(seen) =>
         SeenWhole(db, seen) && forall c :: c in seen ==> tx.scope.Covers(c.blob)
       case ChunksGone(_) => true
       case LogSeen(gone, seenLog) =>
         && (forall k :: k in seenLog ==> tx.scope.Covers(k))
         && (forall c :: c in gone && StillLogged(db, c) ==>
               c.blob in seenLog && seenLog[c.blob] == db.chunks[c].xmin)
       case LogGone(gone, goneLog) =>
         forall c :: c in gone && StillLogged(db, c) ==> c.blob in goneLog
  }

  ghost predicate TxOk(H: Hash, db: Tables, x: Xid, tx: Tx) {
    && x !in db.history
    && (tx.Appending? ==> AppendOk(H, db, x, tx))
    && (tx.Deleting? ==> DeleteOk(db, tx))
  }

  /** Two open transactions never hold the same row. */
  ghost predicate Apart(a: Tx, b: Tx) {
    && a.GoneChunks() !! b.GoneChunks()
    && a.GoneLog() !! b.GoneLog()
    && (a.Appending? && b.Appending? && a.key == b.key ==> a.chunks == [] || b.chunks == [])
  }

  ghost predicate OpenOk(H: Hash, s: State) {
    && (forall x :: x in s.open ==> TxOk(H, s.db, x, s.open[x]))
    && (forall x, y :: x in s.open && y in s.open && x != y ==> Apart(s.open[x], s.open[y]))
  }

  ghost predicate Ids(s: State) {
    && (forall x :: x in s.open ==> x < s.next)
    && (forall w :: w in s.db.history ==> w < s.next)
  }

  /** The bytes still to come plus the bytes sent are what the cursor promised. */
  ghost predicate CursorOk(H: Hash, c: Cursor) {
    var whole := c.sent + c.buf + Flat(c.rows);
    |whole| == c.size && H(whole) == c.sha
  }

  ghost predicate Inv(H: Hash, s: State) {
    && Ids(s)
    && TablesOk(H, s.db)
    && OpenOk(H, s)
    && forall id :: id in s.cursors ==> CursorOk(H, s.cursors[id])
  }

  // ---- Commits -----------------------------------------------------------------------------

  lemma AppendTables(H: Hash, db: Tables, x: Xid, tx: Tx)
    requires TablesOk(H, db) && TxOk(H, db, x, tx) && tx.Appending? && tx.phase.Logged?
    ensures TablesOk(H, CommittedAppend(db, x, tx))
  {
    var db' := CommittedAppend(db, x, tx);
    assert forall c :: c in db.chunks ==> c in db'.chunks && db'.chunks[c] == db.chunks[c];
    forall w | w in db.history && HoldsAll(db, w) ensures HoldsAll(db', w) {
      forall j: nat | j < |db'.history[w].chunks| ensures Holds(db', w, db'.history[w], j) {
        assert Holds(db, w, db.history[w], j);
      }
    }
    assert HoldsAll(db', x);
    forall c | c in db'.chunks ensures ChunkOk(db', c) {
      if c in db.chunks {
        assert ChunkOk(db, c);
      }
    }
    forall k | k in db'.log ensures LogOk(H, db', k) {
      if k != tx.key {
        assert LogOk(H, db, k);
      }
    }
  }

  /** An append that commits does not disturb any other open transaction. */
  lemma AppendDisturbsNone(H: Hash, db: Tables, x: Xid, tx: Tx, y: Xid, other: Tx)
    requires TablesOk(H, db) && TxOk(H, db, x, tx) && tx.Appending? && tx.phase.Logged?
    requires TxOk(H, db, y, other) && x != y && Apart(tx, other)
    ensures TxOk(H, CommittedAppend(db, x, tx), y, other)
  {
    var db' := CommittedAppend(db, x, tx);
    assert forall c :: c in db.chunks ==> c in db'.chunks && db'.chunks[c] == db.chunks[c];
    if other.Appending? {
      assert other.key == tx.key ==> other.chunks == [];
      assert AppendOk(H, db', y, other);
    } else {
      assert WholeUploads(db', other.GoneChunks()) by {
        forall c | c in other.GoneChunks() ensures SiblingsIn(db', other.GoneChunks(), db'.chunks[c].xmin) {
          assert SiblingsIn(db, other.GoneChunks(), db.chunks[c].xmin);
        }
      }
      if other.stage.ChunksSeen? {
        forall c | c in other.stage.seen ensures SiblingsSeen(db', other.stage.seen, other.stage.seen[c]) {
          assert SiblingsSeen(db, other.stage.seen, other.stage.seen[c]);
        }
      }
      assert forall c :: c in other.GoneChunks() && StillLogged(db', c) ==> StillLogged(db, c);
      assert DeleteOk(db', other);
    }
  }

  lemma DeleteTables(H: Hash, db: Tables, tx: Tx)
    requires TablesOk(H, db) && tx.Deleting? && tx.stage.LogGone? && DeleteOk(db, tx)
    ensures TablesOk(H, CommittedDelete(db, tx))
  {
    var db' := CommittedDelete(db, tx);
    var gone := tx.stage.gone;
    forall c | c in db'.chunks ensures ChunkOk(db', c) {
      var w := db.chunks[c].xmin;
      assert ChunkOk(db, c);
      forall j: nat | j < |db.history[w].chunks| ensures Holds(db', w, db.history[w], j) {
        assert Holds(db, w, db.history[w], j);
        assert ChunkKey(c.blob, j) in gone ==> SiblingsIn(db, gone, w);
        assert c == ChunkKey(c.blob, c.idx);
      }
    }
    forall k | k in db'.log ensures LogOk(H, db', k) {
      var w := db.log[k].xmin;
      assert LogOk(H, db, k);
      forall j: nat | j < |db.history[w].chunks| ensures Holds(db', w, db.history[w], j) {
        assert Holds(db, w, db.history[w], j);
        assert StillLogged(db, ChunkKey(k, j));
      }
    }
  }

  /** A delete that commits does not disturb any other open transaction. */
  lemma DeleteDisturbsNone(H: Hash, db: Tables, tx: Tx, y: Xid, other: Tx)
    requires tx.Deleting? && tx.stage.LogGone? && DeleteOk(db, tx)
    requires TxOk(H, db, y, other) && Apart(tx, other)
    ensures TxOk(H, CommittedDelete(db, tx), y, other)
  {
    var db' := CommittedDelete(db, tx);
    if other.Deleting? {
      assert WholeUploads(db', other.GoneChunks()) by {
        forall c | c in other.GoneChunks()
          ensures c in db'.chunks && SiblingsIn(db', other.GoneChunks(), db'.chunks[c].xmin)
        {
          assert SiblingsIn(db, other.GoneChunks(), db.chunks[c].xmin);
        }
      }
      if other.stage.ChunksSeen? {
        forall c | c in other.stage.seen ensures SiblingsSeen(db', other.stage.seen, other.stage.seen[c]) {
          assert SiblingsSeen(db, other.stage.seen, other.stage.seen[c]);
        }
      }
      assert forall c :: c in other.GoneChunks() && StillLogged(db', c) ==> StillLogged(db, c);
      assert DeleteOk(db', other);
    }
  }

  // ---- Statements inside a transaction -----------------------------------------------------

  /** Replacing one transaction by another that is sound and apart from the rest keeps the invariant. */
  lemma PutKeeps(H: Hash, s: State, x: Xid, tx: Tx, next: Xid)
    requires Inv(H, s) && x < next && s.next <= next && TxOk(H, s.db, x, tx)
    requires forall y :: y in s.open && y != x ==> Apart(tx, s.open[y])
    ensures Inv(H, s.(open := s.open[x := tx], next := next))
  {
    var s' := s.(open := s.open[x := tx], next := next);
    forall y | y in s'.open ensures TxOk(H, s'.db, y, s'.open[y]) {
      if y != x { assert TxOk(H, s.db, y, s.open[y]); }
    }
    forall y, z | y in s'.open && z in s'.open && y != z ensures Apart(s'.open[y], s'.open[z]) {
      if y != x && z != x {
        assert Apart(s.open[y], s.open[z]);
      } else if y == x {
        assert Apart(tx, s.open[z]);
      } else {
        assert Apart(tx, s.open[y]);
      }
    }
  }

  lemma DropKeeps(H: Hash, s: State, x: Xid)
    requires Inv(H, s)
    ensures Inv(H, s.(open := Without(s.open, x)))
  {
    var s' := s.(open := Without(s.open, x));
    forall y | y in s'.open ensures TxOk(H, s'.db, y, s'.open[y]) {
      assert TxOk(H, s.db, y, s.open[y]);
    }
    forall y, z | y in s'.open && z in s'.open && y != z ensures Apart(s'.open[y], s'.open[z]) {
      assert Apart(s.open[y], s.open[z]);
    }
  }

  lemma CommitAppendKeeps(H: Hash, s: State, x: Xid)
    requires Inv(H, s) && Enabled(s, CommitAppend(x))
    ensures Inv(H, Apply(H, s, CommitAppend(x)))
  {
    var tx := s.open[x];
    var s' := Apply(H, s, CommitAppend(x));
    AppendTables(H, s.db, x, tx);
    DropKeeps(H, s, x);
    forall y | y in s'.open ensures TxOk(H, s'.db, y, s'.open[y]) {
      AppendDisturbsNone(H, s.db, x, tx, y, s.open[y]);
    }
  }

  lemma CommitDeleteKeeps(H: Hash, s: State, x: Xid)
    requires Inv(H, s) && Enabled(s, CommitDelete(x))
    ensures Inv(H, Apply(H, s, CommitDelete(x)))
  {
    var tx := s.open[x];
    var s' := Apply(H, s, CommitDelete(x));
    DeleteTables(H, s.db, tx);
    DropKeeps(H, s, x);
    forall y | y in s'.open ensures TxOk(H, s'.db, y, s'.open[y]) {
      DeleteDisturbsNone(H, s.db, tx, y, s.open[y]);
    }
  }

  lemma InsertChunkKeeps(H: Hash, s: State, x: Xid, bytes: Bytes)
    requires Inv(H, s) && Enabled(s, InsertChunk(x, bytes))
    ensures Inv(H, Apply(H, s, InsertChunk(x, bytes)))
  {
    var tx := s.open[x];
    var c := ChunkKey(tx.key, |tx.chunks|);
    var tx' := tx.(chunks := tx.chunks + [bytes], phase := if |bytes| < CHUNK_BYTES then BodyEnded else Streaming);
    assert TxOk(H, s.db, x, tx);
    assert AppendOk(H, s.db, x, tx') by {
      assert forall d :: tx'.HasInserted(d) ==> d == c || tx.HasInserted(d);
    }
    forall y | y in s.open && y != x ensures Apart(tx', s.open[y]) {
      assert Apart(tx, s.open[y]);
      if s.open[y].Appending? && s.open[y].key == tx.key {
        assert !s.open[y].HasInserted(c);
      }
    }
    PutKeeps(H, s, x, tx', s.next);
  }

  lemma EndBodyKeeps(H: Hash, s: State, x: Xid)
    requires Inv(H, s) && Enabled(s, EndBody(x))
    ensures Inv(H, Apply(H, s, EndBody(x)))
  {
    var tx := s.open[x];
    assert TxOk(H, s.db, x, tx);
    forall y | y in s.open && y != x ensures Apart(tx.(phase := BodyEnded), s.open[y]) {
      assert Apart(tx, s.open[y]);
    }
    PutKeeps(H, s, x, tx.(phase := BodyEnded), s.next);
  }

  lemma InsertLogKeeps(H: Hash, s: State, x: Xid, createdAt: nat)
    requires Inv(H, s) && Enabled(s, InsertLog(x, createdAt))
    ensures Inv(H, Apply(H, s, InsertLog(x, createdAt)))
  {
    var tx := s.open[x];
    var data := Flat(tx.chunks);
    var tx' := tx.(phase := Logged(LogRow(x, H(data), Nullable(tx.prev), |data|, createdAt)));
    assert TxOk(H, s.db, x, tx);
    assert AppendOk(H, s.db, x, tx') by {
      assert forall d :: tx'.HasInserted(d) ==> tx.HasInserted(d);
    }
    forall y | y in s.open && y != x ensures Apart(tx', s.open[y]) {
      assert Apart(tx, s.open[y]);
    }
    PutKeeps(H, s, x, tx', s.next);
  }

  lemma SeeChunksKeeps(H: Hash, s: State, x: Xid)
    requires Inv(H, s) && Enabled(s, SeeChunks(x))
    ensures Inv(H, Apply(H, s, SeeChunks(x)))
  {
    var tx := s.open[x];
    var seen := Seen(s.db, tx.scope);
    assert TxOk(H, s.db, x, tx);
    forall c | c in seen ensures SiblingsSeen(s.db, seen, seen[c]) {
      assert ChunkOk(s.db, c);
      var w := s.db.chunks[c].xmin;
      forall j: nat | j < |s.db.history[w].chunks|
        ensures ChunkKey(c.blob, j) in seen && seen[ChunkKey(c.blob, j)] == w
      {
        assert Holds(s.db, w, s.db.history[w], j);
      }
    }
    forall y | y in s.open && y != x ensures Apart(tx.(stage := ChunksSeen(seen)), s.open[y]) {
      assert Apart(tx, s.open[y]);
    }
    PutKeeps(H, s, x, tx.(stage := ChunksSeen(seen)), s.next);
  }

  /** The chunk rows that a DELETE finds still there are all the rows of the uploads they belong to. */
  lemma GoneWithSiblings(H: Hash, s: State, x: Xid, gone: set<ChunkKey>)
    requires Inv(H, s) && Enabled(s, DeleteChunks(x))
    requires gone == GoneNow(s, x)
    ensures forall c :: c in gone ==> SiblingsIn(s.db, gone, s.db.chunks[c].xmin)
  {
    var seen := s.open[x].stage.seen;
    assert TxOk(H, s.db, x, s.open[x]);
    forall c | c in gone ensures SiblingsIn(s.db, gone, s.db.chunks[c].xmin) {
      var w := seen[c];
      assert ChunkOk(s.db, c) && SiblingsSeen(s.db, seen, w);
      forall j: nat | j < |s.db.history[w].chunks| ensures ChunkKey(c.blob, j) in gone {
        assert Holds(s.db, w, s.db.history[w], j);
      }
    }
  }

  function GoneNow(s: State, x: Xid): set<ChunkKey>
    requires InDelete(s, x) && s.open[x].stage.ChunksSeen?
  {
    set c | c in s.open[x].stage.seen && StillThere(s.db, c, s.open[x].stage.seen[c])
  }

  lemma GoneApart(H: Hash, s: State, x: Xid, y: Xid)
    requires Inv(H, s) && Enabled(s, DeleteChunks(x)) && y in s.open && y != x
    ensures Apart(s.open[x].(stage := ChunksGone(GoneNow(s, x))), s.open[y])
  {
    assert Apart(s.open[x], s.open[y]);
    forall c | c in GoneNow(s, x) ensures c !in s.open[y].GoneChunks() {
      assert !ChunkHeldByOther(s, x, c);
    }
  }

  lemma DeleteChunksKeeps(H: Hash, s: State, x: Xid)
    requires Inv(H, s) && Enabled(s, DeleteChunks(x))
    ensures Inv(H, Apply(H, s, DeleteChunks(x)))
  {
    var tx := s.open[x];
    GoneWithSiblings(H, s, x, GoneNow(s, x));
    assert TxOk(H, s.db, x, tx);
    forall y | y in s.open && y != x ensures Apart(tx.(stage := ChunksGone(GoneNow(s, x))), s.open[y]) {
      GoneApart(H, s, x, y);
    }
    PutKeeps(H, s, x, tx.(stage := ChunksGone(GoneNow(s, x))), s.next);
  }

  lemma SeeLogKeeps(H: Hash, s: State, x: Xid)
    requires Inv(H, s) && Enabled(s, SeeLog(x))
    ensures Inv(H, Apply(H, s, SeeLog(x)))
  {
    var tx := s.open[x];
    var tx' := tx.(stage := LogSeen(tx.stage.gone, SeenLog(s.db, tx.scope)));
    assert TxOk(H, s.db, x, tx);
    forall y | y in s.open && y != x ensures Apart(tx', s.open[y]) {
      assert Apart(tx, s.open[y]);
    }
    PutKeeps(H, s, x, tx', s.next);
  }

  function GoneLogNow(s: State, x: Xid): set<BlobKey>
    requires InDelete(s, x) && s.open[x].stage.LogSeen?
  {
    set k | k in s.open[x].stage.seenLog && StillLoggedBy(s.db, k, s.open[x].stage.seenLog[k])
  }

  lemma GoneLogApart(H: Hash, s: State, x: Xid, y: Xid)
    requires Inv(H, s) && Enabled(s, DeleteLog(x)) && y in s.open && y != x
    ensures Apart(s.open[x].(stage := LogGone(s.open[x].stage.gone, GoneLogNow(s, x))), s.open[y])
  {
    assert Apart(s.open[x], s.open[y]);
    forall k | k in GoneLogNow(s, x) ensures k !in s.open[y].GoneLog() {
      assert !LogHeldByOther(s, x, k);
    }
  }

  lemma DeleteLogKeeps(H: Hash, s: State, x: Xid)
    requires Inv(H, s) && Enabled(s, DeleteLog(x))
    ensures Inv(H, Apply(H, s, DeleteLog(x)))
  {
    var tx := s.open[x];
    var tx' := tx.(stage := LogGone(tx.stage.gone, GoneLogNow(s, x)));
    assert TxOk(H, s.db, x, tx);
    forall y | y in s.open && y != x ensures Apart(tx', s.open[y]) {
      GoneLogApart(H, s, x, y);
    }
    PutKeeps(H, s, x, tx', s.next);
  }

  // ---- Read cursors ------------------------------------------------------------------------

  /** Increasing numbers that are exactly 0..n-1 are 0..n-1 in that order. */
  lemma {:induction false} ScanIsCount(idxs: seq<nat>, n: nat)
    requires forall i, j :: 0 <= i < j < |idxs| ==> idxs[i] < idxs[j]
    requires forall i :: i in idxs <==> 0 <= i < n
    ensures |idxs| == n && forall i :: 0 <= i < n ==> idxs[i] == i
    decreases n
  {
    if |idxs| == 0 {
      assert n == 0 || 0 in idxs;
    } else {
      var m := |idxs| - 1;
      assert idxs[m] in idxs && n - 1 in idxs;
      var init := idxs[..m];
      forall i ensures i in init ==> i < n - 1 {
        if i in init {
          var j :| 0 <= j < m && init[j] == i;
          assert idxs[j] < idxs[m];
        }
      }
      forall i ensures 0 <= i < n - 1 ==> i in init {
        if 0 <= i < n - 1 {
          assert i in idxs;
        }
      }
      ScanIsCount(init, n - 1);
    }
  }

  /** An ORDER BY idx scan of a logged blob's chunk rows returns the chunks its append wrote. */
  lemma ScanReturnsUpload(H: Hash, db: Tables, k: BlobKey, idxs: seq<nat>)
    requires TablesOk(H, db) && k in db.log && Scans(db.chunks, k, idxs)
    ensures seq(|idxs|, i requires 0 <= i < |idxs| => db.chunks[ChunkKey(k, idxs[i])].bytes)
            == db.history[db.log[k].xmin].chunks
  {
    var w := db.log[k].xmin;
    var u := db.history[w];
    assert LogOk(H, db, k);
    assert Holds(db, w, u, 0);
    forall i: nat ensures i in idxs ==> i < |u.chunks| {
      if i in idxs {
        ChunksOfOneAppend(H, db, k, ChunkKey(k, i));
      }
    }
    forall i: nat | i < |u.chunks| ensures i in idxs {
      assert Holds(db, w, u, i);
    }
    ScanIsCount(idxs, |u.chunks|);
    forall i | 0 <= i < |idxs| ensures db.chunks[ChunkKey(k, idxs[i])].bytes == u.chunks[i] {
      ChunksOfOneAppend(H, db, k, ChunkKey(k, i));
    }
  }

  /** All chunk rows stored under a logged key come from the append that wrote the log row. */
  lemma ChunksOfOneAppend(H: Hash, db: Tables, k: BlobKey, c: ChunkKey)
    requires TablesOk(H, db) && k in db.log && c in db.chunks && c.blob == k
    ensures db.chunks[c].xmin == db.log[k].xmin
    ensures c.idx < |db.history[db.log[k].xmin].chunks|
    ensures db.chunks[c].bytes == db.history[db.log[k].xmin].chunks[c.idx]
  {
    var w, v := db.log[k].xmin, db.chunks[c].xmin;
    assert LogOk(H, db, k) && ChunkOk(db, c);
    assert Holds(db, w, db.history[w], 0);
    assert Holds(db, v, db.history[v], 0);
  }

  lemma {:induction false} ReadCursorKeeps(H: Hash, c: Cursor, room: nat)
    requires CursorOk(H, c)
    ensures CursorOk(H, ReadCursor(c, room).0)
    decreases |c.rows|
  {
    if c.buf == [] && c.rows != [] {
      assert c.rows == [c.rows[0]] + c.rows[1..];
      FlatAppend([c.rows[0]], c.rows[1..]);
      assert [c.rows[0]][..0] == [];
      assert c.sent + c.buf + Flat(c.rows) == c.sent + c.rows[0] + Flat(c.rows[1..]);
      ReadCursorKeeps(H, c.(buf := c.rows[0], rows := c.rows[1..]), room);
    } else if c.buf != [] {
      var n := if room < |c.buf| then room else |c.buf|;
      assert (c.sent + c.buf[..n]) + c.buf[n..] + Flat(c.rows) == c.sent + c.buf + Flat(c.rows);
    }
  }

  lemma OpenGetKeeps(H: Hash, s: State, id: nat, k: BlobKey, idxs: seq<nat>)
    requires Inv(H, s) && Enabled(s, OpenGet(id, k, idxs))
    ensures Inv(H, Apply(H, s, OpenGet(id, k, idxs)))
  {
    var s' := Apply(H, s, OpenGet(id, k, idxs));
    ScanReturnsUpload(H, s.db, k, idxs);
    assert LogOk(H, s.db, k);
    var c := s'.cursors[id];
    assert c.sent + c.buf + Flat(c.rows) == Flat(s.db.history[s.db.log[k].xmin].chunks);
  }

  // ---- Every step, every run ---------------------------------------------------------------

  lemma OnlyCommitsChangeTables(H: Hash, s: State, step: Step)
    requires Enabled(s, step) && !step.CommitAppend? && !step.CommitDelete?
    ensures Apply(H, s, step).db == s.db
  {
  }

  lemma AppendStepKeeps(H: Hash, s: State, step: Step)
    requires Inv(H, s) && Enabled(s, step)
    requires step.InsertChunk? || step.EndBody? || step.InsertLog? || step.CommitAppend?
    ensures Inv(H, Apply(H, s, step))
  {
    match step
    case InsertChunk(x, bytes) => InsertChunkKeeps(H, s, x, bytes);
    case EndBody(x) => EndBodyKeeps(H, s, x);
    case InsertLog(x, createdAt) => InsertLogKeeps(H, s, x, createdAt);
    case CommitAppend(x) => CommitAppendKeeps(H, s, x);
  }

  lemma DeleteStepKeeps(H: Hash, s: State, step: Step)
    requires Inv(H, s) && Enabled(s, step)
    requires step.SeeChunks? || step.DeleteChunks? || step.SeeLog? || step.DeleteLog? || step.CommitDelete?
    ensures Inv(H, Apply(H, s, step))
  {
    match step
    case SeeChunks(x) => SeeChunksKeeps(H, s, x);
    case DeleteChunks(x) => DeleteChunksKeeps(H, s, x);
    case SeeLog(x) => SeeLogKeeps(H, s, x);
    case DeleteLog(x) => DeleteLogKeeps(H, s, x);
    case CommitDelete(x) => CommitDeleteKeeps(H, s, x);
  }

  /** A transaction that begins holds no row yet. */
  lemma BeginKeeps(H: Hash, s: State, step: Step)
    requires Inv(H, s) && Enabled(s, step) && (step.HeadCheck? || step.PruneAllowed? || step.EraseBegin?)
    ensures Inv(H, Apply(H, s, step))
  {
    match step
    case HeadCheck(k, prev) => PutKeeps(H, s, s.next, Appending(k, prev, [], Streaming), s.next + 1);
    case PruneAllowed(p, d, g) =>
      PutKeeps(H, s, s.next, Deleting(Generation(p, d, g), Newest(s.db.log.Keys, p, d), Begun), s.next + 1);
    case EraseBegin(p) => PutKeeps(H, s, s.next, Deleting(Account(p), None, Begun), s.next + 1);
  }

  /** One statement of any transaction, in any state that satisfies the invariant, keeps it. */
  lemma StepKeepsIntegrity(H: Hash, s: State, step: Step)
    requires Inv(H, s) && Enabled(s, step)
    ensures Inv(H, Apply(H, s, step))
  {
    match step
    case HeadCheck(_, _) => BeginKeeps(H, s, step);
    case InsertChunk(_, _) => AppendStepKeeps(H, s, step);
    case EndBody(_) => AppendStepKeeps(H, s, step);
    case InsertLog(_, _) => AppendStepKeeps(H, s, step);
    case CommitAppend(_) => AppendStepKeeps(H, s, step);
    case PkConflict(x) => DropKeeps(H, s, x);
    case RefuseEmpty(x) => DropKeeps(H, s, x);
    case Abort(x) => DropKeeps(H, s, x);
    case PruneAllowed(_, _, _) => BeginKeeps(H, s, step);
    case EraseBegin(_) => BeginKeeps(H, s, step);
    case SeeChunks(_) => DeleteStepKeeps(H, s, step);
    case DeleteChunks(_) => DeleteStepKeeps(H, s, step);
    case SeeLog(_) => DeleteStepKeeps(H, s, step);
    case DeleteLog(_) => DeleteStepKeeps(H, s, step);
    case CommitDelete(_) => DeleteStepKeeps(H, s, step);
    case OpenGet(id, k, idxs) => OpenGetKeeps(H, s, id, k, idxs);
    case ReadGet(id, room) => ReadCursorKeeps(H, s.cursors[id], room);
    case CloseGet(_) =>
    case HeadRefused(_) =>
    case PruneRefused(_, _, _) =>
    case GetMissing(_) =>
  }

  lemma {:induction false} RunKeepsIntegrity(H: Hash, s: State, steps: seq<Step>)
    requires Inv(H, s) && Run(H, s, steps).Some?
    ensures Inv(H, Run(H, s, steps).value)
    decreases |steps|
  {
    if steps != [] {
      StepKeepsIntegrity(H, s, steps[0]);
      RunKeepsIntegrity(H, Apply(H, s, steps[0]), steps[1..]);
    }
  }

  lemma ReachableKeepsIntegrity(H: Hash, s: State)
    requires Reachable(H, s)
    ensures Inv(H, s)
  {
    var steps :| Run(H, INIT, steps) == Some(s);
    RunKeepsIntegrity(H, INIT, steps);
  }
}
