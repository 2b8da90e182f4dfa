/** Reading back: complete blobs in every reachable state, and streams that no later statement disturbs. */
module PostgresReads {
  import opened Base
  import opened BlobKeys
  import opened PostgresModel
  import opened PostgresIntegrity

  /** How many chunk rows a blob of the given size takes. */
  function ChunkCount(size: nat): nat {
    (size + CHUNK_BYTES - 1) / CHUNK_BYTES
  }

  lemma ShapedCount(chunks: seq<Bytes>)
    requires Shaped(chunks)
    ensures |chunks| == ChunkCount(|Flat(chunks)|)
  {
    if chunks != [] {
      var last := |chunks| - 1;
      FullLength(chunks[..last]);
    }
  }

  /** The chunk rows 0..n-1 stored for k, concatenated. */
  function StoredBytes(db: Tables, k: BlobKey, n: nat): Bytes
    requires forall i: nat :: i < n ==> ChunkKey(k, i) in db.chunks
  {
    Flat(seq(n, i requires 0 <= i < n => db.chunks[ChunkKey(k, i)].bytes))
  }

  /** The chunk rows stored for k are exactly the ones its log row accounts for. */
  ghost predicate CompleteBlob(H: Hash, db: Tables, k: BlobKey)
    requires k in db.log
  {
    var row := db.log[k];
    var n := ChunkCount(row.size);
    && (forall c :: c in db.chunks && c.blob == k ==> c.idx < n)
    && (forall i: nat :: i < n ==> ChunkKey(k, i) in db.chunks)
    && (forall i: nat :: i < n ==> db.chunks[ChunkKey(k, i)].xmin == row.xmin)
    && (forall i: nat :: i < n - 1 ==> |db.chunks[ChunkKey(k, i)].bytes| == CHUNK_BYTES)
    && (forall i: nat :: i < n ==> 0 < |db.chunks[ChunkKey(k, i)].bytes| <= CHUNK_BYTES)
    && row.size > 0
    && |StoredBytes(db, k, n)| == row.size
    && H(StoredBytes(db, k, n)) == row.sha
  }

  /** The chunk rows stored for k are the chunks of `chunks`, all written by w. */
  ghost predicate RowsAre(db: Tables, k: BlobKey, w: Xid, chunks: seq<Bytes>) {
    && (forall c :: c in db.chunks && c.blob == k ==> c.idx < |chunks|)
    && (forall i: nat :: i < |chunks| ==> ChunkKey(k, i) in db.chunks && db.chunks[ChunkKey(k, i)] == ChunkRow(w, chunks[i]))
  }

  lemma RowsOfLoggedBlob(H: Hash, db: Tables, k: BlobKey)
    requires TablesOk(H, db) && k in db.log
    ensures RowsAre(db, k, db.log[k].xmin, db.history[db.log[k].xmin].chunks)
  {
    var w := db.log[k].xmin;
    var u := db.history[w];
    assert LogOk(H, db, k);
    forall i: nat | i < |u.chunks|
      ensures ChunkKey(k, i) in db.chunks && db.chunks[ChunkKey(k, i)] == ChunkRow(w, u.chunks[i])
    {
      assert Holds(db, w, u, i);
      ChunksOfOneAppend(H, db, k, ChunkKey(k, i));
    }
    forall c | c in db.chunks && c.blob == k ensures c.idx < |u.chunks| {
      ChunksOfOneAppend(H, db, k, c);
    }
  }

  lemma StoredIsFlat(db: Tables, k: BlobKey, w: Xid, chunks: seq<Bytes>)
    requires RowsAre(db, k, w, chunks)
    ensures StoredBytes(db, k, |chunks|) == Flat(chunks)
  {
    assert seq(|chunks|, i requires 0 <= i < |chunks| => db.chunks[ChunkKey(k, i)].bytes) == chunks;
  }

  lemma FlatNonEmpty(chunks: seq<Bytes>)
    requires Shaped(chunks) && chunks != []
    ensures |Flat(chunks)| > 0
  {
  }

  lemma LogRowIsComplete(H: Hash, db: Tables, k: BlobKey)
    requires TablesOk(H, db) && k in db.log
    ensures CompleteBlob(H, db, k)
    ensures StoredBytes(db, k, ChunkCount(db.log[k].size)) == Flat(db.history[db.log[k].xmin].chunks)
  {
    var w := db.log[k].xmin;
    var chunks := db.history[w].chunks;
    assert LogOk(H, db, k);
    assert chunks != [] && Shaped(chunks);
    RowsOfLoggedBlob(H, db, k);
    ShapedCount(chunks);
    FlatNonEmpty(chunks);
    StoredIsFlat(db, k, w, chunks);
  }

  /**
   * In every reachable state, whatever appends, prunes and erasures ran or are still open, and
   * however their statements interleaved: a committed log row has all its chunk rows and no
   * others, written by the append that wrote the log row, with the row's size and digest.
   */
  lemma EveryLoggedBlobIsComplete(H: Hash, s: State)
    requires Reachable(H, s)
    ensures forall k :: k in s.db.log ==> CompleteBlob(H, s.db, k)
  {
    ReachableKeepsIntegrity(H, s);
    forall k | k in s.db.log ensures CompleteBlob(H, s.db, k) {
      LogRowIsComplete(H, s.db, k);
    }
  }

  // ---- Streams -------------------------------------------------------------------------------

  /** Everything a cursor delivers over its lifetime. */
  function Whole(c: Cursor): Bytes {
    c.sent + c.buf + Flat(c.rows)
  }

  predicate Drained(c: Cursor) {
    c.buf == [] && c.rows == []
  }

  /** What is fixed when a Get opens. */
  predicate SameStream(c: Cursor, d: Cursor) {
    Whole(c) == Whole(d) && c.size == d.size && c.sha == d.sha && c.key == d.key
  }

  lemma {:induction false} ReadStaysOnStream(c: Cursor, room: nat)
    ensures var (c', bytes, eof) := ReadCursor(c, room);
            && SameStream(c', c)
            && c'.sent == c.sent + bytes
            && |bytes| <= room
            && (eof ==> bytes == [] && Drained(c'))
            && (!eof && room > 0 ==> bytes != [])
    decreases |c.rows|
  {
    if c.buf == [] && c.rows != [] {
      FlatFirst(c.rows);
      assert Whole(c) == Whole(c.(buf := c.rows[0], rows := c.rows[1..]));
      ReadStaysOnStream(c.(buf := c.rows[0], rows := c.rows[1..]), room);
    } else if c.buf != [] {
      var n := if room < |c.buf| then room else |c.buf|;
      assert (c.sent + c.buf[..n]) + c.buf[n..] + Flat(c.rows) == c.sent + c.buf + Flat(c.rows);
    }
  }

  /** A Get says not found exactly of what has no log row; no Get touches tables, transactions or another Get. */
  lemma GetsTouchNothingElse(H: Hash, s: State, step: Step, k: BlobKey, id: nat)
    requires Enabled(s, step)
    ensures Enabled(s, GetMissing(k)) <==> k !in s.db.log
    ensures step.OpenGet? || step.ReadGet? || step.CloseGet? ==>
              && Apply(H, s, step).(cursors := map[]) == s.(cursors := map[])
              && (step.CloseGet? ==> step.id !in Apply(H, s, step).cursors)
              && (id != step.id && id in s.cursors ==>
                    id in Apply(H, s, step).cursors && Apply(H, s, step).cursors[id] == s.cursors[id])
    ensures step.GetMissing? ==> Apply(H, s, step) == s
  {
  }

  predicate LeavesOpen(steps: seq<Step>, id: nat) {
    forall i :: 0 <= i < |steps| ==> steps[i] != CloseGet(id)
  }

  lemma {:induction false} StreamSurvives(H: Hash, s: State, steps: seq<Step>, id: nat)
    requires id in s.cursors && Run(H, s, steps).Some? && LeavesOpen(steps, id)
    ensures var s' := Run(H, s, steps).value;
            id in s'.cursors && SameStream(s'.cursors[id], s.cursors[id])
    decreases |steps|
  {
    if steps != [] {
      var s' := Apply(H, s, steps[0]);
      assert steps[0] != CloseGet(id);
      if steps[0].ReadGet? && steps[0].id == id {
        ReadStaysOnStream(s.cursors[id], steps[0].room);
      }
      StreamSurvives(H, s', steps[1..], id);
    }
  }

  lemma OpenedCursor(H: Hash, s: State, id: nat, k: BlobKey, idxs: seq<nat>, chunks: seq<Bytes>)
    requires Enabled(s, OpenGet(id, k, idxs))
    requires seq(|idxs|, i requires 0 <= i < |idxs| => s.db.chunks[ChunkKey(k, idxs[i])].bytes) == chunks
    ensures Apply(H, s, OpenGet(id, k, idxs)).cursors[id] == Cursor(k, s.db.log[k].size, s.db.log[k].sha, chunks, [], [])
  {
  }

  lemma CursorHoldsBlob(H: Hash, s: State, id: nat, k: BlobKey, idxs: seq<nat>)
    requires TablesOk(H, s.db) && Enabled(s, OpenGet(id, k, idxs))
    ensures CompleteBlob(H, s.db, k)
    ensures var c := Apply(H, s, OpenGet(id, k, idxs)).cursors[id];
            Whole(c) == StoredBytes(s.db, k, ChunkCount(s.db.log[k].size))
            && c.size == s.db.log[k].size && c.sha == s.db.log[k].sha && c.key == k
  {
    LogRowIsComplete(H, s.db, k);
    ScanReturnsUpload(H, s.db, k, idxs);
    OpenedCursor(H, s, id, k, idxs, s.db.history[s.db.log[k].xmin].chunks);
  }

  /**
   * A Get opened in any reachable state streams the blob it found, byte for byte and to exactly
   * the promised size and digest, no matter which statements of which transactions run between
   * its reads: what it has sent is a prefix of that blob, and once drained it is all of it.
   */
  lemma GetStreamsWhatItPromised(H: Hash, s: State, id: nat, k: BlobKey, idxs: seq<nat>, steps: seq<Step>)
    requires Reachable(H, s) && Enabled(s, OpenGet(id, k, idxs))
    requires Run(H, Apply(H, s, OpenGet(id, k, idxs)), steps).Some? && LeavesOpen(steps, id)
    ensures CompleteBlob(H, s.db, k)
    ensures var s' := Run(H, Apply(H, s, OpenGet(id, k, idxs)), steps).value;
            id in s'.cursors && var c := s'.cursors[id];
            && c.size == s.db.log[k].size
            && c.sent <= StoredBytes(s.db, k, ChunkCount(c.size))
            && (Drained(c) ==> c.sent == StoredBytes(s.db, k, ChunkCount(c.size))
                               && |c.sent| == c.size && H(c.sent) == s.db.log[k].sha)
  {
    ReachableKeepsIntegrity(H, s);
    LogRowIsComplete(H, s.db, k);
    CursorHoldsBlob(H, s, id, k, idxs);
    StreamSurvives(H, Apply(H, s, OpenGet(id, k, idxs)), steps, id);
  }

  /** Reads into buffers of the given sizes, one after the other. */
  function ReadMany(c: Cursor, rooms: seq<nat>): (Cursor, bool)
    decreases |rooms|
  {
    if rooms == [] then (c, false)
    else
      var (c', _, eof) := ReadCursor(c, rooms[0]);
      if eof then (c', true) else ReadMany(c', rooms[1..])
  }

  /** For every sequence of buffer sizes, as long as enough of them are tried, the stream is drained to its end. */
  lemma {:induction false} ReadingDrains(c: Cursor, rooms: seq<nat>)
    requires forall i :: 0 <= i < |rooms| ==> rooms[i] > 0
    requires |rooms| > |Whole(c)| - |c.sent|
    ensures var (c', eof) := ReadMany(c, rooms);
            eof && c'.sent == Whole(c)
    decreases |rooms|
  {
    var (c', bytes, eof) := ReadCursor(c, rooms[0]);
    ReadStaysOnStream(c, rooms[0]);
    if !eof {
      ReadingDrains(c', rooms[1..]);
    }
  }

  /** The builtin copy. */
  method Copy(p: array<Byte>, src: Bytes) returns (n: nat)
    modifies p
    ensures n == if p.Length < |src| then p.Length else |src|
    ensures p[..n] == src[..n] && p[n..] == old(p[n..])
  {
    n := if p.Length < |src| then p.Length else |src|;
    forall i | 0 <= i < n {
      p[i] := src[i];
    }
  }

  /**
   * Adapts a result set to a stream of bytes: the rows not fetched yet, and the rest of the last one.
   * A broken result set ends with an error of the database, from rows.Err or from a Scan.
   */
  class ChunkReader {
    const broken: bool
    var rows: seq<Bytes>
    var buf: Bytes
    var err: ReadErr

    ghost predicate Valid()
      reads this
    {
      err == NoErr || (err == End() && buf == [] && rows == [])
    }

    /** The bytes this reader has yet to deliver. */
    ghost function Remaining(): Bytes
      reads this
    {
      buf + Flat(rows)
    }

    /** How the stream ends. */
    function End(): (err: ReadErr)
      ensures err == EOF <==> !broken
    {
      if broken then Lost else EOF
    }

    constructor (rows: seq<Bytes>, broken: bool)
      ensures Valid() && Remaining() == Flat(rows)
      ensures this.rows == rows && this.broken == broken && buf == [] && err == NoErr
    {
      this.rows, this.broken, buf, err := rows, broken, [], NoErr;
    }

    /**
     * One Read: the reader's state and answer are those of ReadCursor, except that a broken result
     * set ends with its error, which stays; p is written up to n only.
     */
    method Read(p: array<Byte>) returns (n: nat, e: ReadErr)
      requires Valid()
      modifies this, p
      ensures Valid()
      ensures n <= p.Length && p[n..] == old(p[n..])
      ensures e != NoErr ==> n == 0 && old(Remaining()) == [] && e == err == End()
      ensures e == NoErr && p.Length > 0 ==> n > 0
      ensures old(Remaining()) == p[..n] + Remaining()
      ensures forall c: Cursor :: c.buf == old(buf) && c.rows == old(rows) ==>
                ReadCursor(c, p.Length) ==
                  (c.(buf := buf, rows := rows, sent := if e != NoErr then c.sent else c.sent + p[..n]), p[..n], e != NoErr)
    {
      ghost var buf0, rows0 := buf, rows;
      while |buf| == 0
        invariant Valid() && p[..] == old(p[..])
        invariant buf + Flat(rows) == buf0 + Flat(rows0)
        invariant forall c: Cursor :: c.buf == buf0 && c.rows == rows0 ==>
                    ReadCursor(c, p.Length) == ReadCursor(c.(buf := buf, rows := rows), p.Length)
        decreases |rows|, |buf| == 0
      {
        if err != NoErr {
          return 0, err;
        }
        if |rows| == 0 {
          err := End();
          return 0, err;
        }
        FlatFirst(rows);
        buf, rows := rows[0], rows[1..];
      }
      n := Copy(p, buf);
      e := NoErr;
      buf := buf[n..];
    }
  }

  /**
   * io.Copy out of the reader through a buffer of any positive size: it delivers all the rows that
   * could be fetched, and reports an error exactly if the result set was broken.
   */
  method CopyAll(r: ChunkReader, room: nat) returns (out: Bytes, failed: bool)
    requires r.Valid() && room > 0
    modifies r
    ensures out == old(r.Remaining()) && r.Remaining() == [] && (failed <==> r.broken)
  {
    out := [];
    var p := new Byte[room](_ => 0);
    var e := NoErr;
    while e == NoErr
      invariant r.Valid() && fresh(p) && p.Length == room
      invariant out + r.Remaining() == old(r.Remaining())
      invariant e != NoErr ==> r.Remaining() == [] && e == r.End()
      decreases e == NoErr, |r.Remaining()|
    {
      var n;
      ghost var sofar := out;
      n, e := r.Read(p);
      out := out + p[..n];
      Regroup(sofar, p[..n], r.Remaining());
    }
    failed := e != EOF;
  }
}
