/** How the PostgreSQL store's Append cuts the body stream into chunk rows, and when it stops. */
module ChunkLoop {
  import opened Base
  import opened Readers
  import opened PostgresModel
  import opened PostgresIntegrity

  datatype LoopEnd = Ended | Failed(err: ReadErr)

  /** The read loop: ReadFull a chunk, keep it if not empty, stop at either kind of EOF, fail on any other error. */
  function CutBody(H: Hash, s: Stack, done: seq<Bytes>): (Stack, seq<Bytes>, LoopEnd)
    requires Consistent(s)
    decreases Work(s.script)
  {
    FillStep(H, s, CHUNK_BYTES, []);
    FillWork(H, s, CHUNK_BYTES, []);
    var (s', bytes, err) := ReadFullResult(H, s, CHUNK_BYTES);
    var done' := if bytes != [] then done + [bytes] else done;
    if err == EOF || err == UnexpectedEOF then (s', done', Ended)
    else if err != NoErr then (s', done', Failed(err))
    else CutBody(H, s', done')
  }

  /** One turn of the loop, whatever the transport answers. */
  lemma ReadChunkStep(H: Hash, s: Stack)
    requires Consistent(s)
    ensures var (s', bytes, err) := ReadFullResult(H, s, CHUNK_BYTES);
            && Later(s', s)
            && |bytes| <= CHUNK_BYTES
            && s'.hashed == s.hashed + bytes
            && (err == NoErr ==> |bytes| == CHUNK_BYTES && Work(s'.script) < Work(s.script))
            && (err != NoErr ==> |bytes| < CHUNK_BYTES)
            && (err == EOF ==> bytes == [])
            && (err == EOF || err == UnexpectedEOF ==>
                  !s'.over && (NeverCuts(s.script) ==> H(s'.hashed) == s'.want))
  {
    FillStep(H, s, CHUNK_BYTES, []);
    FillWork(H, s, CHUNK_BYTES, []);
    var (_, got, _) := Fill(H, s, CHUNK_BYTES, []);
    assert got[0..] == got;
  }

  /** The read loop started on b0 has come to b with `chunks` kept. */
  ghost predicate Cutting(H: Hash, b0: Stack, b: Stack, chunks: seq<Bytes>) {
    Consistent(b0) && Consistent(b) && CutBody(H, b0, []) == CutBody(H, b, chunks)
  }

  lemma CuttingTurn(H: Hash, b0: Stack, b: Stack, chunks: seq<Bytes>)
    requires Cutting(H, b0, b, chunks)
    ensures var (b', bytes, err) := ReadFullResult(H, b, CHUNK_BYTES);
            var chunks' := if bytes != [] then chunks + [bytes] else chunks;
            && |bytes| <= CHUNK_BYTES
            && (err == NoErr <==> |bytes| == CHUNK_BYTES)
            && (err == EOF ==> bytes == [])
            && Consistent(b')
            && (if err == EOF || err == UnexpectedEOF then CutBody(H, b0, []) == (b', chunks', Ended)
                else if err != NoErr then CutBody(H, b0, []) == (b', chunks', Failed(err))
                else Cutting(H, b0, b', chunks') && Work(b'.script) < Work(b.script))
  {
    ReadChunkStep(H, b);
  }

  /** Kept chunks and hashed bytes advance together. */
  lemma KeepChunk(done: seq<Bytes>, bytes: Bytes)
    requires AllFull(done) && |bytes| <= CHUNK_BYTES
    ensures var done' := if bytes != [] then done + [bytes] else done;
            && Flat(done') == Flat(done) + bytes
            && Shaped(done')
            && (|bytes| == CHUNK_BYTES ==> AllFull(done'))
  {
    FlatSnoc(done, bytes);
  }

  lemma {:induction false} CutBodyStep(H: Hash, s: Stack, done: seq<Bytes>)
    requires Consistent(s) && AllFull(done) && Flat(done) == s.hashed
    ensures var (s', chunks, end) := CutBody(H, s, done);
            && Later(s', s)
            && Shaped(chunks)
            && Flat(chunks) == s'.hashed
            && (end == Ended ==> !s'.over && (NeverCuts(s.script) ==> H(s'.hashed) == s'.want))
    decreases Work(s.script)
  {
    var (s1, bytes, err) := ReadFullResult(H, s, CHUNK_BYTES);
    ReadChunkStep(H, s);
    KeepChunk(done, bytes);
    if err == NoErr {
      CutBodyStep(H, s1, done + [bytes]);
      LaterChain(CutBody(H, s1, done + [bytes]).0, s1, s);
    }
  }

  // ---- What cutting a body comes to ----------------------------------------------------------------

  /** ReadFull drops an error that comes with the bytes that fill its buffer; `total` have been read then. */
  predicate Dropped(a: Answer, total: nat) {
    a.bytes != [] && total % CHUNK_BYTES == 0
  }

  /** What the loop must come to, answer by answer and without buffers, after `sofar` has been read. */
  function JudgeChunked(H: Hash, script: Script, sofar: Bytes, limit: nat, want: string): Judged {
    if script == [] then
      if |sofar| > limit then Broken(BodyTooLarge) else AtEof(H, sofar, want)
    else
      var now, err := sofar + script[0].bytes, script[0].err;
      if |now| > limit then Broken(BodyTooLarge)
      else if err == EOF && H(now) != want then Broken(DigestMismatch)
      else if err == NoErr || Dropped(script[0], |now|) then JudgeChunked(H, script[1..], now, limit, want)
      else if err == EOF || err == UnexpectedEOF then Intact(now)
      else Broken(err)
  }

  function OutlookChunked(H: Hash, s: Stack): Judged {
    if s.failed then Broken(DigestMismatch) else JudgeChunked(H, s.script, s.hashed, s.limit, s.want)
  }

  /** How far into a chunk the body has been read. */
  predicate AtOffset(s: Stack, got: nat) {
    got <= |s.hashed| && (|s.hashed| - got) % CHUNK_BYTES == 0
  }

  lemma FullChunk(before: nat, got: nat, n: nat)
    requires got <= before && (before - got) % CHUNK_BYTES == 0 && got + n <= CHUNK_BYTES && got < CHUNK_BYTES
    ensures (before + n) % CHUNK_BYTES == 0 <==> got + n == CHUNK_BYTES || (got == 0 && n == 0)
  {
    var q := (before - got) / CHUNK_BYTES;
    assert before == q * CHUNK_BYTES + got;
    assert (before + n) % CHUNK_BYTES == (got + n) % CHUNK_BYTES;
  }

  /** An answer that is split at a full chunk is judged like the whole one. */
  lemma SplitKeepsJudgement(H: Hash, s: Stack, room: nat)
    requires s.script != [] && |s.script[0].bytes| > room
    ensures var (rest, bytes, _) := TransportRead(s.script, room);
            |s.hashed| + room <= s.limit ==>
              JudgeChunked(H, s.script, s.hashed, s.limit, s.want) ==
              JudgeChunked(H, rest, s.hashed + bytes, s.limit, s.want)
  {
    var a := s.script[0];
    var rest := [Answer(a.bytes[room..], a.err)] + s.script[1..];
    assert rest[1..] == s.script[1..];
    Regroup(s.hashed, a.bytes[..room], a.bytes[room..]);
    assert a.bytes[..room] + a.bytes[room..] == a.bytes;
  }

  /** Every read into a chunk buffer leaves the outlook as it is, even if its error is dropped, or fulfils it. */
  lemma ReadKeepsOutlookChunked(H: Hash, s: Stack, got: nat)
    requires Consistent(s) && got < CHUNK_BYTES && AtOffset(s, got)
    ensures var (s', bytes, err) := DigestRead(H, s, CHUNK_BYTES - got);
            && |bytes| <= CHUNK_BYTES - got && |s'.hashed| == |s.hashed| + |bytes|
            && OutlookChunked(H, s) == if err == NoErr || got + |bytes| == CHUNK_BYTES then OutlookChunked(H, s')
                                       else if err == EOF || err == UnexpectedEOF then Intact(s'.hashed)
                                       else Broken(err)
  {
    var room := CHUNK_BYTES - got;
    DigestReadBytes(H, s, room);
    if !s.failed {
      CountingReadStep(s, room);
      if s.script != [] {
        var a := s.script[0];
        if |a.bytes| > room {
          SplitKeepsJudgement(H, s, room);
        } else {
          FullChunk(|s.hashed|, got, |a.bytes|);
        }
      } else {
        assert s.hashed + [] == s.hashed;
      }
    }
  }

  /** What is ahead of s, once a buffer is filled to `out` and the last read answered err. */
  ghost predicate FillMeets(H: Hash, judged: Judged, s: Stack, out: Bytes, err: ReadErr) {
    && |out| <= CHUNK_BYTES
    && judged == if |out| == CHUNK_BYTES then OutlookChunked(H, s)
                 else if err == EOF || err == UnexpectedEOF then Intact(s.hashed) else Broken(err)
  }

  lemma OffsetAdvances(s: Stack, got: nat, s': Stack, n: nat)
    requires AtOffset(s, got) && |s'.hashed| == |s.hashed| + n
    ensures AtOffset(s', got + n)
  {
  }

  /** One read of a chunk goes on within the chunk. */
  lemma ReadMovesOffset(H: Hash, s: Stack, got: Bytes)
    requires Consistent(s) && |got| < CHUNK_BYTES && AtOffset(s, |got|)
    ensures var (s', bytes, err) := DigestRead(H, s, CHUNK_BYTES - |got|);
            && Consistent(s') && |got + bytes| <= CHUNK_BYTES && AtOffset(s', |got + bytes|)
            && (err == NoErr ==> Work(s'.script) < Work(s.script))
  {
    DigestReadBytes(H, s, CHUNK_BYTES - |got|);
    DigestReadErr(H, s, CHUNK_BYTES - |got|);
    var (s', bytes, _) := DigestRead(H, s, CHUNK_BYTES - |got|);
    OffsetAdvances(s, |got|, s', |bytes|);
  }

  /** And either keeps what is ahead or comes to it. */
  lemma ReadMeets(H: Hash, s: Stack, got: Bytes)
    requires Consistent(s) && |got| < CHUNK_BYTES && AtOffset(s, |got|)
    ensures var (s', bytes, err) := DigestRead(H, s, CHUNK_BYTES - |got|);
            if err == NoErr then OutlookChunked(H, s') == OutlookChunked(H, s)
            else FillMeets(H, OutlookChunked(H, s), s', got + bytes, err)
  {
    ReadKeepsOutlookChunked(H, s, |got|);
  }

  lemma {:induction false} FillKeepsOutlook(H: Hash, s: Stack, got: Bytes, judged: Judged)
    requires Consistent(s) && |got| <= CHUNK_BYTES && AtOffset(s, |got|) && judged == OutlookChunked(H, s)
    ensures var (s', out, err) := Fill(H, s, CHUNK_BYTES, got);
            FillMeets(H, judged, s', out, err)
    decreases Work(s.script)
  {
    if |got| < CHUNK_BYTES {
      var (s1, bytes, err) := DigestRead(H, s, CHUNK_BYTES - |got|);
      ReadMovesOffset(H, s, got);
      ReadMeets(H, s, got);
      if err == NoErr {
        FillKeepsOutlook(H, s1, got + bytes, judged);
      }
    }
  }

  /** What the loop ended with, as a judgement of the body. */
  function Kept(chunks: seq<Bytes>, end: LoopEnd): Judged {
    if end == Ended then Intact(Flat(chunks)) else Broken(end.err)
  }

  lemma AllFullIsAligned(chunks: seq<Bytes>)
    requires AllFull(chunks)
    ensures |Flat(chunks)| % CHUNK_BYTES == 0
  {
    FullLength(chunks);
  }

  lemma {:induction false} CutMeetsOutlook(H: Hash, s: Stack, done: seq<Bytes>)
    requires Consistent(s) && AllFull(done) && Flat(done) == s.hashed
    ensures var (_, chunks, end) := CutBody(H, s, done);
            OutlookChunked(H, s) == Kept(chunks, end)
    decreases Work(s.script)
  {
    AllFullIsAligned(done);
    FillKeepsOutlook(H, s, [], OutlookChunked(H, s));
    ReadChunkStep(H, s);
    var (s1, bytes, err) := ReadFullResult(H, s, CHUNK_BYTES);
    KeepChunk(done, bytes);
    if err == NoErr {
      CutMeetsOutlook(H, s1, done + [bytes]);
    }
  }

  /**
   * For every transport whatever: the loop, with its buffer, its two kinds of EOF and the errors
   * that ReadFull drops, comes to what the answers, taken one by one, amount to.
   */
  lemma CutBodyExactly(H: Hash, script: Script, limit: nat, want: string)
    ensures var (_, chunks, end) := CutBody(H, Fresh(script, limit, want), []);
            Kept(chunks, end) == JudgeChunked(H, script, [], limit, want)
  {
    CutMeetsOutlook(H, Fresh(script, limit, want), []);
  }

  // ---- When the body overruns ------------------------------------------------------------------------

  /**
   * All that the loop draws from a transport if no cap stops it: the bytes up to and with the first
   * answer whose error is not dropped, or is an EOF on other bytes than were signed.
   */
  function Drawn(H: Hash, script: Script, sofar: Bytes, want: string): Bytes {
    if script == [] then sofar
    else
      var now, err := sofar + script[0].bytes, script[0].err;
      if err == EOF && H(now) != want then now
      else if err == NoErr || Dropped(script[0], |now|) then Drawn(H, script[1..], now, want)
      else now
  }

  lemma {:induction false} DrawnGrows(H: Hash, script: Script, sofar: Bytes, want: string)
    ensures |Drawn(H, script, sofar, want)| >= |sofar|
    decreases |script|
  {
    if script != [] {
      DrawnGrows(H, script[1..], sofar + script[0].bytes, want);
    }
  }

  /** What is drawn in all exceeds the cap. */
  predicate TooMuch(H: Hash, s: Stack) {
    |s.hashed| > s.limit || (!s.failed && |Drawn(H, s.script, s.hashed, s.want)| > s.limit)
  }

  lemma SplitKeepsTooMuch(H: Hash, s: Stack, room: nat)
    requires s.script != [] && |s.script[0].bytes| > room && !s.failed
    ensures var (rest, bytes, _) := TransportRead(s.script, room);
            Drawn(H, s.script, s.hashed, s.want) == Drawn(H, rest, s.hashed + bytes, s.want)
  {
    var a := s.script[0];
    var rest := [Answer(a.bytes[room..], a.err)] + s.script[1..];
    assert rest[1..] == s.script[1..];
    Regroup(s.hashed, a.bytes[..room], a.bytes[room..]);
    assert a.bytes[..room] + a.bytes[room..] == a.bytes;
  }

  /** Every read into a chunk buffer leaves what is drawn in all, or ends it. */
  lemma ReadKeepsTooMuch(H: Hash, s: Stack, got: nat)
    requires Consistent(s) && got < CHUNK_BYTES && AtOffset(s, got)
    ensures var (s', bytes, err) := DigestRead(H, s, CHUNK_BYTES - got);
            && s'.limit == s.limit
            && (if err == NoErr || got + |bytes| == CHUNK_BYTES then TooMuch(H, s') == TooMuch(H, s)
                else s'.over == TooMuch(H, s))
  {
    var room := CHUNK_BYTES - got;
    DigestReadBytes(H, s, room);
    DigestReadErr(H, s, room);
    if !s.failed {
      CountingReadStep(s, room);
      DrawnGrows(H, s.script, s.hashed, s.want);
      if s.script == [] {
        assert s.hashed + [] == s.hashed;
      } else if |s.script[0].bytes| > room {
        DrawnGrows(H, s.script[1..], s.hashed + s.script[0].bytes, s.want);
        SplitKeepsTooMuch(H, s, room);
      } else {
        WholeAnswerKeepsTooMuch(H, s, got);
      }
    }
  }

  /** The same for an answer that fits the buffer. */
  lemma WholeAnswerKeepsTooMuch(H: Hash, s: Stack, got: nat)
    requires Consistent(s) && got < CHUNK_BYTES && AtOffset(s, got) && !s.failed
    requires s.script != [] && |s.script[0].bytes| <= CHUNK_BYTES - got
    ensures var (s', bytes, err) := DigestRead(H, s, CHUNK_BYTES - got);
            if err == NoErr || got + |bytes| == CHUNK_BYTES then TooMuch(H, s') == TooMuch(H, s)
            else s'.over == TooMuch(H, s)
  {
    var a := s.script[0];
    CountingReadStep(s, CHUNK_BYTES - got);
    DrawnGrows(H, s.script[1..], s.hashed + a.bytes, s.want);
    FullChunk(|s.hashed|, got, |a.bytes|);
  }

  /** The buffer is full and the question still open, or the guard has the answer. */
  ghost predicate FillDecides(H: Hash, tooMuch: bool, s: Stack, out: Bytes) {
    tooMuch == if |out| == CHUNK_BYTES then TooMuch(H, s) else s.over
  }

  lemma {:induction false} FillKeepsTooMuch(H: Hash, s: Stack, got: Bytes, tooMuch: bool)
    requires Consistent(s) && |got| <= CHUNK_BYTES && AtOffset(s, |got|) && tooMuch == TooMuch(H, s)
    ensures var (s', out, _) := Fill(H, s, CHUNK_BYTES, got);
            FillDecides(H, tooMuch, s', out)
    decreases Work(s.script)
  {
    if |got| < CHUNK_BYTES {
      var (s1, bytes, err) := DigestRead(H, s, CHUNK_BYTES - |got|);
      ReadMovesOffset(H, s, got);
      ReadKeepsTooMuch(H, s, |got|);
      if err == NoErr {
        FillKeepsTooMuch(H, s1, got + bytes, tooMuch);
      }
    }
  }

  lemma {:induction false} CutKeepsTooMuch(H: Hash, s: Stack, done: seq<Bytes>)
    requires Consistent(s) && AllFull(done) && Flat(done) == s.hashed
    ensures CutBody(H, s, done).0.over == TooMuch(H, s)
    decreases Work(s.script)
  {
    AllFullIsAligned(done);
    FillKeepsTooMuch(H, s, [], TooMuch(H, s));
    ReadChunkStep(H, s);
    var (s1, bytes, err) := ReadFullResult(H, s, CHUNK_BYTES);
    KeepChunk(done, bytes);
    if err == NoErr {
      CutKeepsTooMuch(H, s1, done + [bytes]);
    }
  }

  /** For every transport whatever: the guard is flagged exactly if what the loop draws exceeds the cap. */
  lemma CutOverrunsExactly(H: Hash, script: Script, limit: nat, want: string)
    ensures CutBody(H, Fresh(script, limit, want), []).0.over <==> |Drawn(H, script, [], want)| > limit
  {
    CutKeepsTooMuch(H, Fresh(script, limit, want), []);
  }

  /** Of a body that is delivered in full all of it is drawn. */
  lemma {:induction false} HonestIsDrawn(H: Hash, script: Script, sofar: Bytes, want: string)
    requires Honest(script)
    ensures Drawn(H, script, sofar, want) == sofar + Payload(script)
    decreases |script|
  {
    if script == [] {
      assert sofar + [] == sofar;
    } else {
      HonestIsDrawn(H, script[1..], sofar + script[0].bytes, want);
      Regroup(sofar, script[0].bytes, Payload(script[1..]));
      if script[0].err == EOF {
        assert script[1..] == [] && script[0].bytes + [] == script[0].bytes;
      }
    }
  }

  /** The bytes delivered up to and with the first answer whose error is not dropped; n were read before. */
  function DeliveredChunked(script: Script, n: nat): Bytes {
    if script == [] then []
    else
      var now := n + |script[0].bytes|;
      if script[0].err == NoErr || Dropped(script[0], now)
      then script[0].bytes + DeliveredChunked(script[1..], now)
      else script[0].bytes
  }

  /** Reading stops at an io.ErrUnexpectedEOF that is not dropped, which the loop takes for the end. */
  predicate StopsAtCut(H: Hash, script: Script, sofar: Bytes, limit: nat, want: string) {
    script != [] &&
    var now, err := sofar + script[0].bytes, script[0].err;
    && |now| <= limit && (err == EOF ==> H(now) == want)
    && if err == NoErr || Dropped(script[0], |now|) then StopsAtCut(H, script[1..], now, limit, want)
       else err == UnexpectedEOF
  }

  lemma {:induction false} IntactChunked(H: Hash, script: Script, sofar: Bytes, limit: nat, want: string)
    ensures var judged := JudgeChunked(H, script, sofar, limit, want);
            && (judged.Intact? ==> judged.data == sofar + DeliveredChunked(script, |sofar|) && |judged.data| <= limit)
            && (judged.Intact? && !StopsAtCut(H, script, sofar, limit, want) ==> H(judged.data) == want)
            && (StopsAtCut(H, script, sofar, limit, want) ==> judged.Intact?)
            && (NeverCuts(script) ==> !StopsAtCut(H, script, sofar, limit, want))
    decreases |script|
  {
    if script == [] {
      assert sofar + [] == sofar;
    } else {
      IntactChunked(H, script[1..], sofar + script[0].bytes, limit, want);
      Regroup(sofar, script[0].bytes, DeliveredChunked(script[1..], |sofar + script[0].bytes|));
    }
  }

  lemma KeptIsSigned(H: Hash, script: Script, limit: nat, want: string)
    ensures var judged, cut := JudgeChunked(H, script, [], limit, want), StopsAtCut(H, script, [], limit, want);
            && (judged.Intact? ==> judged.data == DeliveredChunked(script, 0) && |judged.data| <= limit)
            && (judged.Intact? && !cut ==> H(judged.data) == want)
            && (cut ==> judged.Intact?) && (NeverCuts(script) ==> !cut)
  {
    IntactChunked(H, script, [], limit, want);
    assert [] + DeliveredChunked(script, 0) == DeliveredChunked(script, 0);
  }

  /**
   * If the loop ends normally, the chunks hold exactly what was delivered, in order, within the
   * cap, full but for the last and none empty; and they have the signed digest, unless reading
   * stopped at an io.ErrUnexpectedEOF, in which case they are accepted unseen.
   */
  lemma ChunkedBodyIsSigned(H: Hash, script: Script, limit: nat, want: string)
    ensures var (s', chunks, end) := CutBody(H, Fresh(script, limit, want), []);
            end == Ended ==>
              && Flat(chunks) == DeliveredChunked(script, 0) && |Flat(chunks)| <= limit && Shaped(chunks) && !s'.over
              && (!StopsAtCut(H, script, [], limit, want) ==> H(Flat(chunks)) == want)
    ensures StopsAtCut(H, script, [], limit, want) ==> CutBody(H, Fresh(script, limit, want), []).2 == Ended
    ensures NeverCuts(script) ==> !StopsAtCut(H, script, [], limit, want)
  {
    CutBodyExactly(H, script, limit, want);
    KeptIsSigned(H, script, limit, want);
    CutBodyStep(H, Fresh(script, limit, want), []);
  }

  // ---- Transports that deliver and then stop -------------------------------------------------------

  /** Bytes in any fragmentation, then `err`, with the last of them or after. */
  ghost predicate Finishes(script: Script, err: ReadErr) {
    && script != [] && script[|script| - 1].err == err != NoErr
    && forall i :: 0 <= i < |script| - 1 ==> script[i].err == NoErr
  }

  /** The last error arrives with bytes that fill the last chunk, so that ReadFull drops it. */
  predicate LastDropped(script: Script)
    requires script != []
  {
    Dropped(script[|script| - 1], |Payload(script)|)
  }

  /** What a body that is delivered and then stopped by `err` must come to. */
  function StoppedVerdict(H: Hash, total: Bytes, err: ReadErr, limit: nat, want: string, dropped: bool): Judged {
    if |total| > limit then Broken(BodyTooLarge)
    else if err == EOF || dropped then AtEof(H, total, want)
    else if err == UnexpectedEOF then Intact(total)
    else Broken(err)
  }

  lemma {:induction false} FinishedIsJudged(H: Hash, script: Script, err: ReadErr, sofar: Bytes, limit: nat, want: string)
    requires Finishes(script, err)
    ensures JudgeChunked(H, script, sofar, limit, want) ==
              StoppedVerdict(H, sofar + Payload(script), err, limit, want,
                             Dropped(script[|script| - 1], |sofar + Payload(script)|))
    decreases |script|
  {
    var now := sofar + script[0].bytes;
    if |script| == 1 {
      assert script[1..] == [] && Payload(script) == script[0].bytes + [] == script[0].bytes;
    } else {
      assert script[1..][|script| - 2] == script[|script| - 1];
      FinishedIsJudged(H, script[1..], err, now, limit, want);
      Regroup(sofar, script[0].bytes, Payload(script[1..]));
      assert |now + Payload(script[1..])| >= |now|;
    }
  }

  /**
   * What becomes of a body that is delivered, in whatever fragments, and then stopped: cut whole,
   * or refused for the reason that applies; only io.ErrUnexpectedEOF, unless dropped, has it
   * accepted unseen.
   */
  lemma StoppedUploadIsJudged(H: Hash, script: Script, err: ReadErr, limit: nat, want: string)
    requires Finishes(script, err)
    ensures var (_, chunks, end) := CutBody(H, Fresh(script, limit, want), []);
            Kept(chunks, end) == StoppedVerdict(H, Payload(script), err, limit, want, LastDropped(script))
  {
    CutBodyExactly(H, script, limit, want);
    FinishedIsJudged(H, script, err, [], limit, want);
    assert [] + Payload(script) == Payload(script);
  }

  // ---- Exactly when the digest goes unchecked ------------------------------------------------------

  predicate Accepts(H: Hash, script: Script, limit: nat, want: string) {
    CutBody(H, Fresh(script, limit, want), []).2 == Ended
  }

  /** Whatever digest is signed, a body is accepted only if what was delivered has it. */
  ghost predicate DigestChecked(H: Hash, script: Script, limit: nat) {
    forall want :: Accepts(H, script, limit, want) ==> H(DeliveredChunked(script, 0)) == want
  }

  /** By lengths and errors alone: reading gets within the cap to an io.ErrUnexpectedEOF that is not dropped. */
  predicate CutsOff(script: Script, n: nat, limit: nat) {
    script != [] &&
    var now := n + |script[0].bytes|;
    && now <= limit
    && if script[0].err == NoErr || Dropped(script[0], now) then CutsOff(script[1..], now, limit)
       else script[0].err == UnexpectedEOF
  }

  /**
   * The digests that the EOFs demand which were dropped on the way, of what had been read by then; a
   * transport that answers EOF once and for all has none before a cut.
   */
  function Demanded(H: Hash, script: Script, sofar: Bytes): seq<string> {
    if script == [] then []
    else
      var now := sofar + script[0].bytes;
      if script[0].err == NoErr || Dropped(script[0], |now|)
      then (if script[0].err == EOF then [H(now)] else []) + Demanded(H, script[1..], now)
      else []
  }

  ghost predicate AllAre(demanded: seq<string>, want: string) {
    forall d :: d in demanded ==> d == want
  }

  lemma AllAreOneMore(first: string, rest: seq<string>, want: string)
    ensures AllAre([first] + rest, want) <==> first == want && AllAre(rest, want)
  {
    assert first in [first] + rest;
    assert forall d :: d in rest ==> d in [first] + rest;
  }

  /** Reading stops at a cut if the script cuts off and the signed digest is what the dropped EOFs demand. */
  lemma {:induction false} StopsExactly(H: Hash, script: Script, sofar: Bytes, limit: nat, want: string)
    ensures StopsAtCut(H, script, sofar, limit, want) <==>
              CutsOff(script, |sofar|, limit) && AllAre(Demanded(H, script, sofar), want)
    decreases |script|
  {
    if script != [] {
      var now := sofar + script[0].bytes;
      StopsExactly(H, script[1..], now, limit, want);
      if script[0].err == EOF && Dropped(script[0], |now|) {
        AllAreOneMore(H(now), Demanded(H, script[1..], now), want);
      } else if script[0].err == NoErr || Dropped(script[0], |now|) {
        assert Demanded(H, script, sofar) == Demanded(H, script[1..], now);
      }
    }
  }

  /** The EOFs dropped before the cut do not leave the digest of what was delivered as the only one. */
  ghost predicate LeavesUnchecked(demanded: seq<string>, digest: string) {
    demanded == [] || (demanded[0] != digest && AllAre(demanded, demanded[0]))
  }

  lemma AcceptedAtCut(H: Hash, script: Script, limit: nat, want: string)
    ensures StopsAtCut(H, script, [], limit, want) ==> Accepts(H, script, limit, want)
    ensures Accepts(H, script, limit, want) && !StopsAtCut(H, script, [], limit, want) ==>
              H(DeliveredChunked(script, 0)) == want
    ensures StopsAtCut(H, script, [], limit, want) <==>
              CutsOff(script, 0, limit) && AllAre(Demanded(H, script, []), want)
  {
    ChunkedBodyIsSigned(H, script, limit, want);
    StopsExactly(H, script, [], limit, want);
  }

  /**
   * For every transport whatever: the digest of what was delivered is checked if and only if reading
   * does not get to an io.ErrUnexpectedEOF within the cap, or EOFs dropped on the way, which a
   * transport does not take back, have it checked all the same.
   */
  lemma DigestCheckedExactly(H: Hash, script: Script, limit: nat)
    ensures DigestChecked(H, script, limit) <==>
              !CutsOff(script, 0, limit) || !LeavesUnchecked(Demanded(H, script, []), H(DeliveredChunked(script, 0)))
  {
    var demanded, digest := Demanded(H, script, []), H(DeliveredChunked(script, 0));
    forall want | Accepts(H, script, limit, want) &&
                  (!CutsOff(script, 0, limit) || !LeavesUnchecked(demanded, digest))
      ensures digest == want
    {
      AcceptedAtCut(H, script, limit, want);
      if StopsAtCut(H, script, [], limit, want) {
        assert AllAre(demanded, want) && demanded[0] in demanded;
      }
    }
    if CutsOff(script, 0, limit) && LeavesUnchecked(demanded, digest) {
      var want := if demanded == [] then digest + "-" else demanded[0];
      assert |digest + "-"| > |digest|;
      AcceptedAtCut(H, script, limit, want);
      assert Accepts(H, script, limit, want) && digest != want;
    }
  }

  ghost predicate NeverEnds(script: Script) {
    forall i :: 0 <= i < |script| ==> script[i].err != EOF
  }

  lemma {:induction false} NothingDemanded(H: Hash, script: Script, sofar: Bytes)
    requires NeverEnds(script)
    ensures Demanded(H, script, sofar) == []
    decreases |script|
  {
    if script != [] {
      NothingDemanded(H, script[1..], sofar + script[0].bytes);
    }
  }

  /** Of a transport that does not answer EOF: checked if and only if reading gets to no cut within the cap. */
  lemma CutBodyIsUnchecked(H: Hash, script: Script, limit: nat)
    requires NeverEnds(script)
    ensures DigestChecked(H, script, limit) <==> !CutsOff(script, 0, limit)
  {
    NothingDemanded(H, script, []);
    DigestCheckedExactly(H, script, limit);
  }

  /** A script whose last error stays, as net/http's do. */
  function Staying(script: Script, err: ReadErr): Script {
    script + [Answer([], err)]
  }

  /**
   * The failing family: a body in any fragments, stopped by an io.ErrUnexpectedEOF that stays, is cut
   * off, and so accepted under every signed digest, if and only if it is within the cap.
   */
  lemma {:induction false} StayingCutExactly(script: Script, n: nat, limit: nat)
    requires Finishes(script, UnexpectedEOF)
    ensures CutsOff(Staying(script, UnexpectedEOF), n, limit) <==> n + |Payload(script)| <= limit
    decreases |script|
  {
    var all := Staying(script, UnexpectedEOF);
    var now := n + |script[0].bytes|;
    assert all[0] == script[0] && |Payload(script)| == |script[0].bytes| + |Payload(script[1..])|;
    if |script| == 1 {
      assert all[1..] == [Answer([], UnexpectedEOF)];
      assert CutsOff([Answer([], UnexpectedEOF)], now, limit) <==> now <= limit;
      assert script[1..] == [];
    } else {
      assert all[1..] == Staying(script[1..], UnexpectedEOF);
      assert script[1..][|script| - 2] == script[|script| - 1];
      StayingCutExactly(script[1..], now, limit);
    }
  }

  lemma {:induction false} StayingDelivers(script: Script, n: nat)
    requires Finishes(script, UnexpectedEOF)
    ensures DeliveredChunked(Staying(script, UnexpectedEOF), n) == Payload(script)
    decreases |script|
  {
    var all := Staying(script, UnexpectedEOF);
    var now := n + |script[0].bytes|;
    assert all[0] == script[0];
    if |script| == 1 {
      assert all[1..] == [Answer([], UnexpectedEOF)] && script[1..] == [];
      assert DeliveredChunked([Answer([], UnexpectedEOF)], now) == [];
    } else {
      assert all[1..] == Staying(script[1..], UnexpectedEOF);
      assert script[1..][|script| - 2] == script[|script| - 1];
      StayingDelivers(script[1..], now);
    }
  }

  /** And what is accepted of it, whatever digest was signed, is all of it. */
  lemma StayingCutIsAcceptedExactly(H: Hash, script: Script, limit: nat, want: string)
    requires Finishes(script, UnexpectedEOF)
    ensures Accepts(H, Staying(script, UnexpectedEOF), limit, want) <==> |Payload(script)| <= limit
    ensures Accepts(H, Staying(script, UnexpectedEOF), limit, want) ==>
              Flat(CutBody(H, Fresh(Staying(script, UnexpectedEOF), limit, want), []).1) == Payload(script)
  {
    var all := Staying(script, UnexpectedEOF);
    StayingCutExactly(script, 0, limit);
    StayingDelivers(script, 0);
    NothingDemanded(H, all, []);
    AcceptedAtCut(H, all, limit, want);
    ChunkedBodyIsSigned(H, all, limit, want);
  }

  /**
   * A body that is delivered in full, in whatever fragments, is cut whole if it is within the cap
   * and of the signed digest, and otherwise refused for the reason that applies.
   */
  lemma HonestUploadIsJudged(H: Hash, script: Script, limit: nat, want: string)
    requires Honest(script)
    ensures var (_, chunks, end) := CutBody(H, Fresh(script, limit, want), []);
            Kept(chunks, end) == Verdict(H, Payload(script), limit, want)
  {
    CutBodyExactly(H, script, limit, want);
    HonestIsJudgedChunked(H, script, [], limit, want);
    assert [] + Payload(script) == Payload(script);
  }

  lemma {:induction false} HonestIsJudgedChunked(H: Hash, script: Script, sofar: Bytes, limit: nat, want: string)
    requires Honest(script)
    ensures JudgeChunked(H, script, sofar, limit, want) == Verdict(H, sofar + Payload(script), limit, want)
    decreases |script|
  {
    if script == [] {
      assert sofar + [] == sofar;
    } else {
      var now := sofar + script[0].bytes;
      HonestIsJudgedChunked(H, script[1..], now, limit, want);
      Regroup(sofar, script[0].bytes, Payload(script[1..]));
      assert |now + Payload(script[1..])| >= |now|;
      if script[0].err == EOF {
        assert script[1..] == [] && now + [] == now && script[0].bytes + [] == script[0].bytes;
      }
    }
  }
}
