/**
 * The body of an upload as the store reads it: the transport, counted against the cap, hashed
 * against the digest the proof signed, and drained with io.ReadFull or io.ReadAll.
 */
module Readers {
  import opened Base
  import opened ResponseGuard

  /** One answer of the transport: bytes, possibly none, and an error that comes with them. */
  datatype Answer = Answer(bytes: Bytes, err: ReadErr)

  /** An arbitrary transport: whatever it will answer, in order. A read smaller than an answer splits it. */
  type Script = seq<Answer>

  function Payload(script: Script): Bytes {
    if script == [] then [] else script[0].bytes + Payload(script[1..])
  }

  /** How much reading is left; every read into a non-empty buffer uses some of it up. */
  function Work(script: Script): nat {
    if script == [] then 0 else 1 + |script[0].bytes| + Work(script[1..])
  }

  function TransportRead(script: Script, room: nat): (Script, Bytes, ReadErr) {
    if script == [] then ([], [], EOF)
    else
      var a := script[0];
      if |a.bytes| <= room then (script[1..], a.bytes, a.err)
      else ([Answer(a.bytes[room..], a.err)] + script[1..], a.bytes[..room], NoErr)
  }

  /** The transport never answers io.ErrUnexpectedEOF. */
  ghost predicate NeverCuts(script: Script) {
    forall i :: 0 <= i < |script| ==> script[i].err != UnexpectedEOF
  }

  lemma TransportDelivers(script: Script, room: nat)
    ensures var (rest, bytes, err) := TransportRead(script, room);
            && |bytes| <= room
            && bytes + Payload(rest) == Payload(script)
            && (room > 0 && script != [] ==> Work(rest) < Work(script))
            && (script == [] ==> err == EOF)
            && Work(rest) <= Work(script)
  {
    if script != [] && |script[0].bytes| > room {
      var a := script[0];
      var rest := [Answer(a.bytes[room..], a.err)] + script[1..];
      assert rest[1..] == script[1..];
      assert a.bytes[..room] + (a.bytes[room..] + Payload(script[1..])) == a.bytes + Payload(script[1..]);
    }
  }

  lemma TransportNeverCuts(script: Script, room: nat)
    requires NeverCuts(script)
    ensures var (rest, _, err) := TransportRead(script, room);
            NeverCuts(rest) && err != UnexpectedEOF
  {
  }

  /** The two wrappers around the transport: countingBody's fields, then digestVerifyingBody's. */
  datatype Stack = Stack(
    script: Script, limit: nat, read: nat, over: bool,
    hashed: Bytes, want: string, failed: bool)

  function Fresh(script: Script, limit: nat, want: string): Stack {
    Stack(script, limit, 0, false, [], want, false)
  }

  function CountingRead(s: Stack, room: nat): (Stack, Bytes, ReadErr) {
    var (rest, bytes, err) := TransportRead(s.script, room);
    var s' := s.(script := rest, read := s.read + |bytes|);
    if s'.read > s'.limit then (s'.(over := true), bytes, BodyTooLarge) else (s', bytes, err)
  }

  function DigestRead(H: Hash, s: Stack, room: nat): (Stack, Bytes, ReadErr) {
    if s.failed then (s, [], DigestMismatch)
    else
      var (s1, bytes, err) := CountingRead(s, room);
      var s2 := s1.(hashed := s1.hashed + bytes);
      if err == EOF && H(s2.hashed) != s2.want then (s2.(failed := true), bytes, DigestMismatch)
      else (s2, bytes, err)
  }

  /** What never changes, and what the byte counts say. */
  predicate Consistent(s: Stack) {
    s.read == |s.hashed| && (s.over <==> s.read > s.limit)
  }

  /** s came from `from` by reading: the same upload, further on. */
  ghost predicate Later(s: Stack, from: Stack) {
    && Consistent(s)
    && s.limit == from.limit && s.want == from.want
    && s.hashed + Payload(s.script) == from.hashed + Payload(from.script)
    && (from.over ==> s.over) && (from.failed ==> s.failed)
    && (NeverCuts(from.script) ==> NeverCuts(s.script))
  }

  lemma CountingReadStep(s: Stack, room: nat)
    requires Consistent(s)
    ensures var (s1, bytes, err) := CountingRead(s, room);
            && Consistent(s1.(hashed := s.hashed + bytes))
            && s1 == s.(script := TransportRead(s.script, room).0, read := s1.read, over := s1.over)
            && bytes == TransportRead(s.script, room).1
            && (s.over ==> s1.over)
            && (if s1.over then err == BodyTooLarge else err == TransportRead(s.script, room).2)
  {
  }

  /** The bytes of one read: as many as fit, and none lost. */
  lemma DigestReadBytes(H: Hash, s: Stack, room: nat)
    requires Consistent(s)
    ensures var (s', bytes, err) := DigestRead(H, s, room);
            && |bytes| <= room
            && s'.hashed == s.hashed + bytes
            && s'.hashed + Payload(s'.script) == s.hashed + Payload(s.script)
            && ((err == NoErr && room > 0) || bytes != [] ==> Work(s'.script) < Work(s.script))
            && Work(s'.script) <= Work(s.script)
  {
    if s.failed {
      assert s.hashed + [] == s.hashed;
    } else {
      TransportDelivers(s.script, room);
      CountingReadStep(s, room);
      var (rest, bytes, _) := TransportRead(s.script, room);
      Regroup(s.hashed, bytes, Payload(rest));
    }
  }

  /** The error of one read, and the flags. */
  lemma DigestReadErr(H: Hash, s: Stack, room: nat)
    requires Consistent(s)
    ensures var (s', bytes, err) := DigestRead(H, s, room);
            && Consistent(s')
            && s'.limit == s.limit && s'.want == s.want
            && (s.over ==> s'.over) && (s.failed ==> s'.failed)
            && (NeverCuts(s.script) ==> NeverCuts(s'.script))
            && (err == EOF ==> H(s'.hashed) == s'.want && !s'.over)
            && (err == UnexpectedEOF ==> !s'.over && !NeverCuts(s.script))
            && (s.over || s.failed ==> err != NoErr && err != EOF && err != UnexpectedEOF)
  {
    if !s.failed {
      if NeverCuts(s.script) { TransportNeverCuts(s.script, room); }
      CountingReadStep(s, room);
    }
  }

  /** One read of the whole stack, in any state it can be in. */
  lemma DigestReadStep(H: Hash, s: Stack, room: nat)
    requires Consistent(s)
    ensures var (s', bytes, err) := DigestRead(H, s, room);
            && Later(s', s)
            && |bytes| <= room
            && s'.hashed == s.hashed + bytes
            && (err == EOF ==> H(s'.hashed) == s'.want && !s'.over)
            && (err == UnexpectedEOF ==> !s'.over && !NeverCuts(s.script))
            && (s.over || s.failed ==> err != NoErr && err != EOF && err != UnexpectedEOF)
            && ((err == NoErr && room > 0) || bytes != [] ==> Work(s'.script) < Work(s.script))
            && Work(s'.script) <= Work(s.script)
  {
    DigestReadBytes(H, s, room);
    DigestReadErr(H, s, room);
  }

  lemma LaterChain(c: Stack, b: Stack, a: Stack)
    requires Later(c, b) && Later(b, a)
    ensures Later(c, a)
  {
  }

  /** What was hashed grows by what was read. */
  lemma Extends(hashed: Bytes, got: Bytes, bytes: Bytes, out: Bytes)
    requires got + bytes <= out
    ensures got <= out && (hashed + bytes) + out[|got + bytes|..] == hashed + out[|got|..]
  {
    assert out[|got|..] == bytes + out[|got + bytes|..];
  }

  /** The loop of io.ReadFull: read until the buffer is full or an error comes. */
  function Fill(H: Hash, s: Stack, room: nat, got: Bytes): (r: (Stack, Bytes, ReadErr))
    requires Consistent(s) && |got| <= room
    decreases Work(s.script)
  {
    if |got| == room then (s, got, NoErr)
    else
      DigestReadStep(H, s, room - |got|);
      var (s', bytes, err) := DigestRead(H, s, room - |got|);
      if err == NoErr then Fill(H, s', room, got + bytes) else (s', got + bytes, err)
  }

  /** Where the ReadFull loop stands: `got` of a buffer of `room` bytes is filled, err was the last answer. */
  ghost predicate Filling(H: Hash, s0: Stack, room: nat, s: Stack, got: Bytes, err: ReadErr) {
    && Consistent(s0) && Later(s, s0) && |got| <= room
    && Fill(H, s0, room, []) == if err == NoErr then Fill(H, s, room, got) else (s, got, err)
  }

  /** One more read of an upload under way. */
  lemma StaysLater(H: Hash, s0: Stack, s: Stack, room: nat, s': Stack, bytes: Bytes, err: ReadErr)
    requires Consistent(s0) && Later(s, s0) && room > 0 && (s', bytes, err) == DigestRead(H, s, room)
    ensures Later(s', s0) && |bytes| <= room
    ensures err == NoErr ==> Work(s'.script) < Work(s.script)
  {
    DigestReadStep(H, s, room);
    LaterChain(s', s, s0);
  }

  lemma FillingStep(H: Hash, s0: Stack, room: nat, s: Stack, got: Bytes, s': Stack, bytes: Bytes, err: ReadErr)
    requires |got| < room && Filling(H, s0, room, s, got, NoErr)
    requires (s', bytes, err) == DigestRead(H, s, room - |got|)
    ensures Filling(H, s0, room, s', got + bytes, err)
    ensures err == NoErr ==> Work(s'.script) < Work(s.script)
  {
    StaysLater(H, s0, s, room - |got|, s', bytes, err);
  }

  /** io.ReadFull: a full buffer drops the error that came with it, EOF after some bytes is unexpected. */
  function ReadFullResult(H: Hash, s: Stack, room: nat): (Stack, Bytes, ReadErr)
    requires Consistent(s)
  {
    var (s', got, err) := Fill(H, s, room, []);
    if |got| >= room then (s', got, NoErr)
    else if |got| > 0 && err == EOF then (s', got, UnexpectedEOF)
    else (s', got, err)
  }

  /** How Fill stopped: its bytes are the bytes hashed meanwhile, and its error is the last read's. */
  lemma {:induction false} FillStep(H: Hash, s: Stack, room: nat, got: Bytes)
    requires Consistent(s) && |got| <= room
    ensures var (s', out, err) := Fill(H, s, room, got);
            && Later(s', s)
            && |out| <= room && got <= out
            && s'.hashed == s.hashed + out[|got|..]
            && (err == NoErr ==> |out| == room)
            && (err == EOF ==> H(s'.hashed) == s'.want && !s'.over)
            && (err == UnexpectedEOF ==> !s'.over && !NeverCuts(s.script))
            && (|got| < room && (s.over || s.failed) ==> err != NoErr && err != EOF && err != UnexpectedEOF)
    decreases Work(s.script)
  {
    if |got| < room {
      DigestReadStep(H, s, room - |got|);
      var (s1, bytes, err) := DigestRead(H, s, room - |got|);
      if err == NoErr {
        FillStep(H, s1, room, got + bytes);
        var (s', out, _) := Fill(H, s1, room, got + bytes);
        Extends(s.hashed, got, bytes, out);
        LaterChain(s', s1, s);
      } else {
        assert (got + bytes)[|got|..] == bytes;
      }
    }
  }

  /** Filling a buffer uses up some of the transport, unless nothing was read. */
  lemma {:induction false} FillWork(H: Hash, s: Stack, room: nat, got: Bytes)
    requires Consistent(s) && |got| <= room
    ensures var (s', out, err) := Fill(H, s, room, got);
            && |out| <= room
            && Work(s'.script) <= Work(s.script)
            && ((err == NoErr && |got| < room) || |got| < |out| ==> Work(s'.script) < Work(s.script))
    decreases Work(s.script)
  {
    if |got| < room {
      DigestReadStep(H, s, room - |got|);
      var (s1, bytes, err) := DigestRead(H, s, room - |got|);
      if err == NoErr {
        FillWork(H, s1, room, got + bytes);
      }
    }
  }

  /** The loop of io.ReadAll, with whatever spare capacity the growing buffer happens to have. */
  function Collect(H: Hash, s: Stack, spare: nat -> nat, got: Bytes): (Stack, Bytes, ReadErr)
    requires Consistent(s) && forall n :: spare(n) > 0
    decreases Work(s.script)
  {
    DigestReadStep(H, s, spare(|got|));
    var (s', bytes, err) := DigestRead(H, s, spare(|got|));
    if err == NoErr then Collect(H, s', spare, got + bytes)
    else (s', got + bytes, if err == EOF then NoErr else err)
  }

  /** Where the ReadAll loop stands: data was read so far, err was the last answer. */
  ghost predicate Collecting(H: Hash, s0: Stack, spare: nat -> nat, s: Stack, data: Bytes, err: ReadErr)
    requires forall n :: spare(n) > 0
  {
    && Consistent(s0) && Later(s, s0)
    && Collect(H, s0, spare, []) == if err == NoErr then Collect(H, s, spare, data)
                                    else (s, data, if err == EOF then NoErr else err)
  }

  lemma CollectingStep(
      H: Hash, s0: Stack, spare: nat -> nat, s: Stack, data: Bytes, s': Stack, bytes: Bytes, err: ReadErr)
    requires (forall n :: spare(n) > 0) && Collecting(H, s0, spare, s, data, NoErr)
    requires (s', bytes, err) == DigestRead(H, s, spare(|data|))
    ensures Collecting(H, s0, spare, s', data + bytes, err)
    ensures err == NoErr ==> Work(s'.script) < Work(s.script)
  {
    StaysLater(H, s0, s, spare(|data|), s', bytes, err);
  }

  lemma {:induction false} CollectStep(H: Hash, s: Stack, spare: nat -> nat, got: Bytes)
    requires Consistent(s) && forall n :: spare(n) > 0
    ensures var (s', data, err) := Collect(H, s, spare, got);
            && Later(s', s)
            && got <= data
            && s'.hashed == s.hashed + data[|got|..]
            && (err == NoErr ==> H(s'.hashed) == s'.want && !s'.over)
    decreases Work(s.script)
  {
    DigestReadStep(H, s, spare(|got|));
    var (s1, bytes, err) := DigestRead(H, s, spare(|got|));
    if err == NoErr {
      CollectStep(H, s1, spare, got + bytes);
      var (s', data, _) := Collect(H, s1, spare, got + bytes);
      Extends(s.hashed, got, bytes, data);
      LaterChain(s', s1, s);
    } else {
      assert (got + bytes)[|got|..] == bytes;
    }
  }

  // ---- What reading a body comes to ----------------------------------------------------------------

  /** The bytes delivered up to and with the first answer that carries an error. */
  function Delivered(script: Script): Bytes {
    if script == [] then []
    else if script[0].err != NoErr then script[0].bytes
    else script[0].bytes + Delivered(script[1..])
  }

  datatype Judged = Intact(data: Bytes) | Broken(err: ReadErr)

  function AtEof(H: Hash, data: Bytes, want: string): Judged {
    if H(data) == want then Intact(data) else Broken(DigestMismatch)
  }

  /** What io.ReadAll must come to, answer by answer and without buffers, after `sofar` has been read. */
  function JudgeBody(H: Hash, script: Script, sofar: Bytes, limit: nat, want: string): Judged {
    if script == [] then
      if |sofar| > limit then Broken(BodyTooLarge) else AtEof(H, sofar, want)
    else
      var now := sofar + script[0].bytes;
      if |now| > limit then Broken(BodyTooLarge)
      else match script[0].err
        case NoErr => JudgeBody(H, script[1..], now, limit, want)
        case EOF => AtEof(H, now, want)
        case err => Broken(err)
  }

  function Outlook(H: Hash, s: Stack): Judged {
    if s.failed then Broken(DigestMismatch) else JudgeBody(H, s.script, s.hashed, s.limit, s.want)
  }

  /** Every read leaves the outlook as it is, or fulfils it. */
  lemma ReadKeepsOutlook(H: Hash, s: Stack, room: nat)
    requires Consistent(s) && room > 0
    ensures var (s', bytes, err) := DigestRead(H, s, room);
            Outlook(H, s) == if err == NoErr then Outlook(H, s')
                             else if err == EOF then Intact(s'.hashed) else Broken(err)
  {
    if !s.failed {
      CountingReadStep(s, room);
      if s.script != [] {
        var a := s.script[0];
        if |a.bytes| > room {
          var rest := [Answer(a.bytes[room..], a.err)] + s.script[1..];
          assert rest[1..] == s.script[1..];
          Regroup(s.hashed, a.bytes[..room], a.bytes[room..]);
          assert a.bytes[..room] + a.bytes[room..] == a.bytes;
        }
      } else {
        assert s.hashed + [] == s.hashed;
      }
    }
  }

  lemma {:induction false} CollectMeetsOutlook(H: Hash, s: Stack, spare: nat -> nat)
    requires Consistent(s) && forall n :: spare(n) > 0
    ensures var (s', data, err) := Collect(H, s, spare, s.hashed);
            Outlook(H, s) == (if err == NoErr then Intact(data) else Broken(err)) && data == s'.hashed
    decreases Work(s.script)
  {
    ReadKeepsOutlook(H, s, spare(|s.hashed|));
    DigestReadStep(H, s, spare(|s.hashed|));
    var (s', _, err) := DigestRead(H, s, spare(|s.hashed|));
    if err == NoErr {
      CollectMeetsOutlook(H, s', spare);
    }
  }

  /** All that there is to read before reading stops. */
  function Total(s: Stack): Bytes {
    s.hashed + Delivered(s.script)
  }

  lemma ReadTowardsTotal(H: Hash, s: Stack, room: nat)
    requires Consistent(s) && room > 0 && !s.failed
    ensures var (s', _, err) := DigestRead(H, s, room);
            if err == NoErr then Total(s') == Total(s) && !s'.failed && s'.limit == s.limit
            else s'.over <==> |Total(s)| > s.limit
  {
    CountingReadStep(s, room);
    if s.script != [] {
      var a := s.script[0];
      if |a.bytes| > room {
        var rest := [Answer(a.bytes[room..], a.err)] + s.script[1..];
        assert rest[1..] == s.script[1..];
        assert a.bytes[..room] + a.bytes[room..] == a.bytes;
        assert Delivered(s.script) == a.bytes[..room] + Delivered(rest);
        Regroup(s.hashed, a.bytes[..room], Delivered(rest));
      } else {
        Regroup(s.hashed, a.bytes, Delivered(s.script[1..]));
      }
    }
  }

  lemma {:induction false} CollectOverruns(H: Hash, s: Stack, spare: nat -> nat)
    requires Consistent(s) && !s.failed && forall n :: spare(n) > 0
    ensures Collect(H, s, spare, s.hashed).0.over <==> |Total(s)| > s.limit
    decreases Work(s.script)
  {
    ReadTowardsTotal(H, s, spare(|s.hashed|));
    DigestReadStep(H, s, spare(|s.hashed|));
    var (s', _, err) := DigestRead(H, s, spare(|s.hashed|));
    if err == NoErr {
      CollectOverruns(H, s', spare);
    }
  }

  lemma {:induction false} IntactIsSigned(H: Hash, script: Script, sofar: Bytes, limit: nat, want: string)
    ensures match JudgeBody(H, script, sofar, limit, want)
            case Intact(data) => data == sofar + Delivered(script) && |data| <= limit && H(data) == want
            case Broken(_) => true
    decreases |script|
  {
    if script == [] {
      assert sofar + [] == sofar;
    } else {
      IntactIsSigned(H, script[1..], sofar + script[0].bytes, limit, want);
      Regroup(sofar, script[0].bytes, Delivered(script[1..]));
    }
  }

  /**
   * The memory store's body, for every transport whatever and every growth of the buffer: io.ReadAll
   * comes to what the answers, taken one by one, amount to, and the guard is flagged exactly if
   * what they deliver exceeds the cap.
   */
  lemma CollectExactly(H: Hash, script: Script, limit: nat, want: string, spare: nat -> nat)
    requires forall n :: spare(n) > 0
    ensures var (s', data, err) := Collect(H, Fresh(script, limit, want), spare, []);
            && JudgeBody(H, script, [], limit, want) == (if err == NoErr then Intact(data) else Broken(err))
            && (s'.over <==> |Delivered(script)| > limit)
  {
    var s0 := Fresh(script, limit, want);
    CollectMeetsOutlook(H, s0, spare);
    CollectOverruns(H, s0, spare);
    assert [] + Delivered(script) == Delivered(script);
  }

  /**
   * If io.ReadAll succeeds, what it returns is exactly what the transport delivered, within the cap
   * and of the signed digest.
   */
  lemma CollectedBodyIsSigned(H: Hash, script: Script, limit: nat, want: string, spare: nat -> nat)
    requires forall n :: spare(n) > 0
    ensures var (s', data, err) := Collect(H, Fresh(script, limit, want), spare, []);
            err == NoErr ==> data == Delivered(script) && |data| <= limit && H(data) == want && !s'.over
  {
    CollectExactly(H, script, limit, want, spare);
    IntactIsSigned(H, script, [], limit, want);
    assert [] + Delivered(script) == Delivered(script);
  }

  // ---- Transports that just deliver ----------------------------------------------------------------

  /** Bytes in any fragmentation, then EOF, with the last of them or after. */
  ghost predicate Honest(script: Script) {
    forall i :: 0 <= i < |script| ==> script[i].err == NoErr || (i == |script| - 1 && script[i].err == EOF)
  }

  /** What reading a body to its end must come to. */
  function Verdict(H: Hash, total: Bytes, limit: nat, want: string): Judged {
    if |total| > limit then Broken(BodyTooLarge) else AtEof(H, total, want)
  }

  lemma {:induction false} HonestIsJudged(H: Hash, script: Script, sofar: Bytes, limit: nat, want: string)
    requires Honest(script)
    ensures JudgeBody(H, script, sofar, limit, want) == Verdict(H, sofar + Payload(script), limit, want)
    ensures Delivered(script) == Payload(script)
    decreases |script|
  {
    if script == [] {
      assert sofar + [] == sofar;
    } else {
      HonestIsJudged(H, script[1..], sofar + script[0].bytes, limit, want);
      Regroup(sofar, script[0].bytes, Payload(script[1..]));
      assert |(sofar + script[0].bytes) + Payload(script[1..])| >= |sofar + script[0].bytes|;
      if script[0].err == EOF {
        assert script[1..] == [] && script[0].bytes + [] == script[0].bytes;
      }
    }
  }

  /**
   * A body that is delivered in full, in whatever fragments, is accepted whole if it is within the
   * cap and of the signed digest, and otherwise refused for the reason that applies.
   */
  lemma HonestBodyIsJudged(H: Hash, script: Script, limit: nat, want: string, spare: nat -> nat)
    requires Honest(script) && forall n :: spare(n) > 0
    ensures var (s', data, err) := Collect(H, Fresh(script, limit, want), spare, []);
            && (if err == NoErr then Intact(data) else Broken(err)) == Verdict(H, Payload(script), limit, want)
            && (s'.over <==> |Payload(script)| > limit)
  {
    CollectExactly(H, script, limit, want, spare);
    HonestIsJudged(H, script, [], limit, want);
    assert [] + Payload(script) == Payload(script);
  }

  // ---- The readers -----------------------------------------------------------------------------

  class Transport {
    var script: Script

    constructor (script: Script)
      ensures this.script == script
    {
      this.script := script;
    }

    method Read(p: array<Byte>, lo: nat) returns (n: nat, err: ReadErr, ghost bytes: Bytes)
      requires lo <= p.Length
      modifies this, p
      ensures lo + n <= p.Length && p[..lo + n] == old(p[..lo]) + bytes
      ensures (script, bytes, err) == TransportRead(old(script), p.Length - lo)
    {
      if |script| == 0 {
        return 0, EOF, [];
      }
      var room := p.Length - lo;
      var a := script[0];
      if |a.bytes| <= room {
        n, err, bytes, script := |a.bytes|, a.err, a.bytes, script[1..];
      } else {
        n, err, bytes, script := room, NoErr, a.bytes[..room], [Answer(a.bytes[room..], a.err)] + script[1..];
      }
      forall i | 0 <= i < n {
        p[lo + i] := a.bytes[i];
      }
      assert p[..lo + n] == old(p[..lo]) + bytes;
    }
  }

  /** Fails the read once the body overruns, and tells the guard why. */
  class CountingBody {
    const rc: Transport
    const limit: nat
    const guard: SizeGuard
    var read: nat

    constructor (rc: Transport, limit: nat, guard: SizeGuard)
      ensures this.rc == rc && this.limit == limit && this.guard == guard && read == 0
    {
      this.rc, this.limit, this.guard, read := rc, limit, guard, 0;
    }

    method Read(p: array<Byte>, lo: nat) returns (n: nat, err: ReadErr, ghost bytes: Bytes)
      requires lo <= p.Length
      modifies this, rc, guard`over, p
      ensures lo + n <= p.Length && p[..lo + n] == old(p[..lo]) + bytes
      ensures forall s: Stack ::
                s.script == old(rc.script) && s.limit == limit && s.read == old(read) && s.over == old(guard.over) ==>
                  CountingRead(s, p.Length - lo) ==
                    (s.(script := rc.script, read := read, over := guard.over), bytes, err)
    {
      n, err, bytes := rc.Read(p, lo);
      read := read + n;
      if read > limit {
        guard.over := true;
        err := BodyTooLarge;
      }
    }
  }

  /** Hashes the body as it streams and turns EOF into a mismatch unless the digest is the signed one. */
  class DigestVerifyingBody {
    const rc: CountingBody
    const want: string
    const H: Hash
    var hashed: Bytes
    var failed: bool

    ghost function State(): Stack
      reads this, rc, rc.rc, rc.guard
    {
      Stack(rc.rc.script, rc.limit, rc.read, rc.guard.over, hashed, want, failed)
    }

    constructor (rc: CountingBody, want: string, H: Hash)
      ensures this.rc == rc && this.want == want && this.H == H && hashed == [] && !failed
    {
      this.rc, this.want, this.H, hashed, failed := rc, want, H, [], false;
    }

    method Read(p: array<Byte>, lo: nat) returns (n: nat, err: ReadErr, ghost bytes: Bytes)
      requires lo <= p.Length
      modifies this, rc, rc.rc, rc.guard`over, p
      ensures lo + n <= p.Length && p[..lo + n] == old(p[..lo]) + bytes
      ensures (State(), bytes, err) == DigestRead(H, old(State()), p.Length - lo)
    {
      if failed {
        return 0, DigestMismatch, [];
      }
      ghost var s := State();
      n, err, bytes := rc.Read(p, lo);
      assert CountingRead(s, p.Length - lo) ==
        (s.(script := rc.rc.script, read := rc.read, over := rc.guard.over), bytes, err);
      assert p[lo..lo + n] == bytes;
      hashed := hashed + p[lo..lo + n];
      if err == EOF {
        if H(hashed) != want {
          failed := true;
          err := DigestMismatch;
        }
      }
    }

    /** The loop of io.ReadFull. */
    method FillBuffer(p: array<Byte>) returns (n: nat, err: ReadErr)
      requires Consistent(State())
      modifies this, rc, rc.rc, rc.guard`over, p
      ensures n <= p.Length && Later(State(), old(State()))
      ensures (State(), p[..n], err) == Fill(H, old(State()), p.Length, [])
    {
      n, err := 0, NoErr;
      ghost var s0, got: Bytes := State(), [];
      while n < p.Length && err == NoErr
        invariant n <= p.Length && got == p[..n]
        invariant Filling(H, s0, p.Length, State(), got, err)
        decreases err == NoErr, Work(State().script)
      {
        n, err, got := FillOnce(p, n, s0, got);
      }
    }

    /** One turn of that loop. */
    method FillOnce(p: array<Byte>, n: nat, ghost s0: Stack, ghost got: Bytes)
      returns (n': nat, err: ReadErr, ghost got': Bytes)
      requires n < p.Length && got == p[..n] && Filling(H, s0, p.Length, State(), got, NoErr)
      modifies this, rc, rc.rc, rc.guard`over, p
      ensures n' <= p.Length && got' == p[..n'] && Filling(H, s0, p.Length, State(), got', err)
      ensures err == NoErr ==> Work(State().script) < Work(old(State()).script)
    {
      ghost var s := State();
      var nn;
      ghost var bytes;
      nn, err, bytes := Read(p, n);
      n', got' := n + nn, got + bytes;
      FillingStep(H, s0, p.Length, s, got, State(), bytes, err);
    }

    /** io.ReadFull of this body into p. */
    method ReadFull(p: array<Byte>) returns (n: nat, err: ReadErr)
      requires Consistent(State())
      modifies this, rc, rc.rc, rc.guard`over, p
      ensures n <= p.Length && Later(State(), old(State()))
      ensures (State(), p[..n], err) == ReadFullResult(H, old(State()), p.Length)
    {
      n, err := FillBuffer(p);
      if n >= p.Length {
        err := NoErr;
      } else if n > 0 && err == EOF {
        err := UnexpectedEOF;
      }
    }

    /** io.ReadAll of this body, the buffer having spare(len) free bytes whenever len are filled. */
    method ReadAll(spare: nat -> nat) returns (data: Bytes, err: ReadErr)
      requires Consistent(State()) && forall n :: spare(n) > 0
      modifies this, rc, rc.rc, rc.guard`over
      ensures Later(State(), old(State()))
      ensures (State(), data, err) == Collect(H, old(State()), spare, [])
    {
      data, err := [], NoErr;
      ghost var s0 := State();
      while err == NoErr
        invariant Collecting(H, s0, spare, State(), data, err)
        decreases err == NoErr, Work(State().script)
      {
        data, err := CollectOnce(spare, data, s0);
      }
      if err == EOF {
        err := NoErr;
      }
    }

    /** One turn of its loop, with a buffer of its own for the spare room. */
    method CollectOnce(spare: nat -> nat, sofar: Bytes, ghost s0: Stack) returns (data: Bytes, err: ReadErr)
      requires (forall n :: spare(n) > 0) && Collecting(H, s0, spare, State(), sofar, NoErr)
      modifies this, rc, rc.rc, rc.guard`over
      ensures Collecting(H, s0, spare, State(), data, err)
      ensures err == NoErr ==> Work(State().script) < Work(old(State()).script)
    {
      var p := new Byte[spare(|sofar|)](_ => 0);
      ghost var s := State();
      var n;
      ghost var bytes;
      n, err, bytes := Read(p, 0);
      assert p[..n] == bytes;
      data := sofar + p[..n];
      CollectingStep(H, s0, spare, s, sofar, State(), bytes, err);
    }
  }
}
