/**
 * POST /v1/log/{deviceId} from the body cap down to the in-memory store and back: which requests
 * store something, what they store, and which response the client sees.
 */
module UploadRoute {
  import opened Base
  import opened BlobKeys
  import opened AtomicLog
  import opened Decimal
  import opened Encodings
  import opened NonceStores
  import opened AuthProof
  import opened ResponseGuard
  import opened Readers
  import opened MemoryRows
  import MemoryStore

  const OCTET_STREAM := "application/octet-stream"
  const POST := "POST"

  /** A request as the router hands it on. The length is None when the body is chunked. */
  datatype Post = Post(
    uri: string, authHeader: string, contentType: string, contentLength: Option<nat>,
    device: string, seqParam: string, generationParam: string, prev: string)

  /** What the handler, or the middleware before it, answers; how it is rendered is not modelled. */
  datatype Answer =
    | Unauthorized(reason: Reason)
    | UnsupportedMediaType
    | InvalidDevice
    | InvalidParams
    | Conflict
    | Empty
    | BodyMismatch
    | Internal
    | Created(seqNo: int, sha: string, size: nat)
  {
    function Status(): nat {
      match this
      case Unauthorized(_) => 401
      case UnsupportedMediaType => 415
      case InvalidDevice => 400
      case InvalidParams => 400
      case Conflict => 409
      case Empty => 400
      case BodyMismatch => 400
      case Internal => 500
      case Created(_, _, _) => 201
    }
  }

  /** What the key and the outcome have to say, without the order in which things are checked. */
  predicate Addressable(r: Post) {
    && r.contentType == OCTET_STREAM && ValidDeviceId(r.device)
    && PositiveIntParam(r.seqParam).Some? && PositiveIntParam(r.generationParam).Some?
  }

  function KeyOf(r: Post, account: string): BlobKey
    requires Addressable(r)
  {
    BlobKey(account, r.device, PositiveIntParam(r.generationParam).value, PositiveIntParam(r.seqParam).value)
  }

  /** A request is addressable exactly if its type, its device and both its numbers are as they must be. */
  lemma AddressableExactly(r: Post)
    ensures Addressable(r) <==>
              && r.contentType == "application/octet-stream"
              && |r.device| == 32 && (forall c :: c in r.device ==> c in "0123456789abcdef")
              && PositiveIntParam(r.seqParam).Some? && PositiveIntParam(r.generationParam).Some?
  {
    HexDigits(r.device);
  }

  /** Of one that is not, or whose slot is not next, the first thing wrong decides the status. */
  lemma UnheardStatus(r: Post)
    ensures Unheard(r).Status() ==
              if r.contentType != "application/octet-stream" then 415
              else if |r.device| != 32 || exists c :: c in r.device && c !in "0123456789abcdef" then 400
              else if PositiveIntParam(r.seqParam).None? || PositiveIntParam(r.generationParam).None? then 400
              else 409
  {
    HexDigits(r.device);
  }

  /** One status for each kind of answer. */
  lemma StatusExactly(answer: Answer)
    ensures answer.Status() == 201 <==> answer.Created?
    ensures answer.Status() == 401 <==> answer.Unauthorized?
    ensures answer.Status() == 409 <==> answer == Conflict
    ensures answer.Status() == 415 <==> answer == UnsupportedMediaType
    ensures answer.Status() == 500 <==> answer == Internal
    ensures answer.Status() == 400 <==>
              answer == InvalidDevice || answer == InvalidParams || answer == Empty || answer == BodyMismatch
  {
  }

  /** The first thing wrong with a request that is not addressable. */
  function Unaddressable(r: Post): Answer {
    if r.contentType != OCTET_STREAM then UnsupportedMediaType
    else if !ValidDeviceId(r.device) then InvalidDevice
    else InvalidParams
  }

  function AnswerFor(k: BlobKey, outcome: Outcome): Answer {
    match outcome
    case SeqConflict => Conflict
    case EmptyBlob => Empty
    case ReadFailed(DigestMismatch) => BodyMismatch
    case Stored(sha, size) => Created(k.seqNo, sha, size)
    case _ => Internal
  }

  /** Accounts are compressed public keys in lowercase hex. */
  ghost predicate HexAccounts(w: Wallet) {
    forall a, b, c, d :: w(a, b, c, d).Genuine? ==> HexText(w(a, b, c, d).account)
  }

  predicate HexText(s: string) {
    forall i :: 0 <= i < |s| ==> IsHex(s[i])
  }

  /** Everything the environment decides: clocks, other calls, buffer growth, and how answers are rendered. */
  datatype World = World(
    wallet: Wallet, decode: Decoder, verifiedAt: int, consumedAt: int,
    spare: nat -> nat, others: seq<MemoryStore.Op>, createdAt: nat, render: Answer -> Bytes)

  ghost predicate WorldOk(H: Hash, world: World) {
    && HexAccounts(world.wallet)
    && (forall n :: world.spare(n) > 0)
    && (forall i :: 0 <= i < |world.others| ==> MemoryStore.OpOk(H, world.others[i]))
  }

  /** responses.WriteJSON through the guard. */
  function Respond(x: Exchange, answer: Answer, render: Answer -> Bytes, envelope: Bytes): Exchange {
    var tagged := Do(x, SetHeader("Content-Type", "application/json"), envelope);
    Do(Do(tagged, Op.WriteHeader(answer.Status()), envelope), Op.Write(render(answer)), envelope)
  }

  method WriteAnswer(guard: SizeGuard, answer: Answer, render: Answer -> Bytes)
    requires guard.Valid()
    modifies guard, guard.w
    ensures guard.Valid() && guard.State() == Respond(old(guard.State()), answer, render, guard.envelope)
  {
    guard.w.headers := guard.w.headers["Content-Type" := "application/json"];
    guard.WriteHeader(answer.Status());
    guard.Write(render(answer));
  }

  /** An admitted upload on its way: the request, who signed it, its body so far, and everything around it. */
  datatype Upload = Upload(post: Post, account: string, body: Stack, world: World) {
    function Key(): BlobKey
      requires Addressable(post)
    {
      KeyOf(post, account)
    }
  }

  /** What came of it: the log before and after, the answer, and whether the body overran. */
  datatype Ending = Ending(before: Log, after: Log, answer: Answer, over: bool)

  ghost predicate Sane(H: Hash, u: Upload) {
    Consistent(u.body) && WorldOk(H, u.world)
  }

  /** Nothing of the body has been read yet. */
  ghost predicate Unread(body: Stack) {
    body == Fresh(body.script, body.limit, body.want)
  }

  /** The log once the other calls have run that come in while the body drains. */
  ghost function Meanwhile(u: Upload, before: Log): Log {
    MemoryStore.SpecOps(before, u.world.others)
  }

  ghost predicate StoreSays(H: Hash, u: Upload, e: Ending, outcome: Outcome)
    requires Sane(H, u) && Addressable(u.post)
  {
    && e.answer == AnswerFor(u.Key(), outcome)
    && MemoryStore.AppendAnswers(H, e.before, e.after, u.body, u.world.spare, u.Key(), u.post.prev,
                                 u.world.others, u.world.createdAt, outcome)
  }

  /** What an admitted upload may answer, what it leaves, and whether its body overran. */
  ghost predicate Handled(H: Hash, u: Upload, e: Ending)
    requires Sane(H, u)
  {
    if Addressable(u.post) then
      && e.over == MemoryStore.BodyAfter(H, e.before, u.body, u.world.spare, u.Key()).over
      && exists outcome :: StoreSays(H, u, e, outcome)
    else
      e.answer == Unaddressable(u.post) && e.after == e.before && e.over == u.body.over
  }

  /** The log gained exactly this entry, on top of what the other calls did. */
  ghost predicate Gained(H: Hash, u: Upload, e: Ending, data: Bytes)
    requires Addressable(u.post)
  {
    var mid := Meanwhile(u, e.before);
    && u.Key().seqNo == HeadSeq(mid.Keys, u.Key()) + 1
    && e.after == mid[u.Key() := Blob(data, H(data), u.post.prev, u.world.createdAt)]
  }

  /** data is exactly what the transport delivered, and may be kept: not empty, within the cap, and as signed. */
  ghost predicate AsSigned(H: Hash, body: Stack, data: Bytes) {
    data != [] && data == Delivered(body.script) && |data| <= body.limit && H(data) == body.want
  }

  /** The request stored an entry whose bytes are as signed. */
  ghost predicate Acknowledged(H: Hash, u: Upload, e: Ending) {
    Addressable(u.post) &&
    var data := Delivered(u.body.script);
    && AsSigned(H, u.body, data) && Gained(H, u, e, data)
    && e.answer == Created(u.Key().seqNo, u.body.want, |data|)
  }

  /** The request itself has not touched the log; other calls may have, while its body drained. */
  ghost predicate LeftAlone(u: Upload, e: Ending) {
    e.after == e.before || e.after == Meanwhile(u, e.before)
  }

  /** An admitted upload is acknowledged for what it stored, or has left the log alone. */
  ghost predicate Settled(H: Hash, u: Upload, e: Ending) {
    if e.answer.Status() == 201 then !e.over && Acknowledged(H, u, e) else LeftAlone(u, e)
  }

  lemma NotStoredLeavesAlone(H: Hash, u: Upload, e: Ending, outcome: Outcome)
    requires Sane(H, u) && Addressable(u.post) && !outcome.Stored? && StoreSays(H, u, e, outcome)
    ensures LeftAlone(u, e) && e.answer.Status() != 201
  {
  }

  lemma StoredIsSigned(H: Hash, u: Upload, e: Ending, outcome: Outcome)
    requires Sane(H, u) && Addressable(u.post) && Unread(u.body) && outcome.Stored? && StoreSays(H, u, e, outcome)
    requires e.over == MemoryStore.BodyAfter(H, e.before, u.body, u.world.spare, u.Key()).over
    ensures !e.over && Acknowledged(H, u, e)
  {
    CollectedBodyIsSigned(H, u.body.script, u.body.limit, u.body.want, u.world.spare);
    var data := Delivered(u.body.script);
    assert AsSigned(H, u.body, data);
    assert Gained(H, u, e, data);
  }

  /**
   * Whatever the transport does: an admitted upload is acknowledged only for an entry whose bytes
   * are as signed, and in every other case it has itself left the log alone.
   */
  lemma AcknowledgedIsSigned(H: Hash, u: Upload, e: Ending)
    requires Sane(H, u) && Unread(u.body) && Handled(H, u, e)
    ensures Settled(H, u, e)
  {
    if Addressable(u.post) {
      var outcome :| StoreSays(H, u, e, outcome);
      if outcome.Stored? {
        StoredIsSigned(H, u, e, outcome);
      } else {
        NotStoredLeavesAlone(H, u, e, outcome);
      }
    }
  }

  // ---- Which answer an upload gets -----------------------------------------------------------------

  /** The store starts on the body: the request is addressable and the slot free at the first check. */
  ghost predicate BodyIsRead(u: Upload, before: Log) {
    Addressable(u.post) && u.Key().seqNo == HeadSeq(before.Keys, u.Key()) + 1
  }

  /** The answer to a request whose body is left unread. */
  function Unheard(r: Post): Answer {
    if Addressable(r) then Conflict else Unaddressable(r)
  }

  /**
   * An admitted upload overruns if and only if its body is read and more than the cap is delivered;
   * if its body is not read, it is answered 415, 400 or 409, whatever its size.
   */
  lemma OverrunsExactly(H: Hash, u: Upload, e: Ending)
    requires Sane(H, u) && Unread(u.body) && Handled(H, u, e)
    ensures e.over <==> BodyIsRead(u, e.before) && |Delivered(u.body.script)| > u.body.limit
    ensures !BodyIsRead(u, e.before) ==> e.answer == Unheard(u.post) && e.after == e.before
  {
    if Addressable(u.post) {
      var outcome :| StoreSays(H, u, e, outcome);
      CollectExactly(H, u.body.script, u.body.limit, u.body.want, u.world.spare);
    }
  }

  /** Which answer a body deserves that is read, given what its bytes amount to and what else ran; None is the 413. */
  function Deserved(delivered: nat, limit: nat, judged: Judged, digest: string, mid: Log, k: BlobKey): Option<Answer> {
    if delivered > limit then None
    else match judged
      case Broken(DigestMismatch) => Some(BodyMismatch)
      case Broken(_) => Some(Internal)
      case Intact(data) =>
        if data == [] then Some(Empty)
        else if k.seqNo != HeadSeq(mid.Keys, k) + 1 then Some(Conflict)
        else Some(Created(k.seqNo, digest, |data|))
  }

  /** The ending is the deserved one, and the bytes are stored exactly if that is Created. */
  ghost predicate GetsItsDeserts(u: Upload, e: Ending, delivered: Bytes, judged: Judged)
    requires Addressable(u.post)
  {
    var mid := Meanwhile(u, e.before);
    var deserved := Deserved(|delivered|, u.body.limit, judged, u.body.want, mid, u.Key());
    && (e.over <==> deserved == None)
    && (deserved.Some? ==> e.answer == deserved.value)
    && e.after == if deserved.Some? && deserved.value.Created?
                  then mid[u.Key() := Blob(delivered, u.body.want, u.post.prev, u.world.createdAt)]
                  else mid
  }

  lemma StoreGivesDeserts(H: Hash, u: Upload, e: Ending, outcome: Outcome)
    requires Sane(H, u) && Unread(u.body) && BodyIsRead(u, e.before) && StoreSays(H, u, e, outcome)
    requires e.over <==> |Delivered(u.body.script)| > u.body.limit
    ensures GetsItsDeserts(u, e, Delivered(u.body.script), JudgeBody(H, u.body.script, [], u.body.limit, u.body.want))
  {
    CollectExactly(H, u.body.script, u.body.limit, u.body.want, u.world.spare);
    CollectedBodyIsSigned(H, u.body.script, u.body.limit, u.body.want, u.world.spare);
    IntactIsSigned(H, u.body.script, [], u.body.limit, u.body.want);
    assert [] + Delivered(u.body.script) == Delivered(u.body.script);
  }

  /**
   * For every transport whatever, an upload whose body is read gets the answer that what was
   * delivered deserves, and what was delivered is stored exactly if it was delivered without error,
   * is within the cap, signed and not empty, and the slot is still free at the second check.
   */
  lemma ReadUploadIsAnswered(H: Hash, u: Upload, e: Ending)
    requires Sane(H, u) && Unread(u.body) && Handled(H, u, e) && BodyIsRead(u, e.before)
    ensures GetsItsDeserts(u, e, Delivered(u.body.script), JudgeBody(H, u.body.script, [], u.body.limit, u.body.want))
  {
    var outcome :| StoreSays(H, u, e, outcome);
    OverrunsExactly(H, u, e);
    StoreGivesDeserts(H, u, e, outcome);
  }

  /**
   * When the transport just delivers the body, in whatever fragments, that is: the body overruns
   * exactly when it is over the cap, and all of it is stored exactly when it is within the cap,
   * signed and not empty, and the slot free at both checks.
   */
  lemma DeliveredUploadIsAnswered(H: Hash, u: Upload, e: Ending)
    requires Sane(H, u) && Unread(u.body) && Handled(H, u, e) && BodyIsRead(u, e.before) && Honest(u.body.script)
    ensures GetsItsDeserts(u, e, Payload(u.body.script),
                           Readers.Verdict(H, Payload(u.body.script), u.body.limit, u.body.want))
  {
    ReadUploadIsAnswered(H, u, e);
    HonestIsJudged(H, u.body.script, [], u.body.limit, u.body.want);
    assert [] + Payload(u.body.script) == Payload(u.body.script);
  }

  /** The handler's checks, in order, and the key they come to. */
  method Address(r: Post, account: string) returns (refusal: Option<Answer>, key: BlobKey)
    ensures refusal == if Addressable(r) then None else Some(Unaddressable(r))
    ensures Addressable(r) ==> key == KeyOf(r, account)
  {
    key := BlobKey(account, r.device, 0, 0);
    if r.contentType != OCTET_STREAM {
      return Some(UnsupportedMediaType), key;
    }
    if !ValidDeviceId(r.device) {
      return Some(InvalidDevice), key;
    }
    var seqNo := PositiveIntParam(r.seqParam);
    var generation := PositiveIntParam(r.generationParam);
    if seqNo.None? || generation.None? {
      return Some(InvalidParams), key;
    }
    return None, BlobKey(account, r.device, generation.value, seqNo.value);
  }

  /** The handler: ordered checks, one store call, one answer. */
  method HandleAppend(store: MemoryStore.Store, r: Post, account: string, body: DigestVerifyingBody, world: World)
    returns (answer: Answer)
    requires store.Valid() && WorldOk(store.H, world) && HexText(account)
    requires Consistent(body.State()) && body.H == store.H
    modifies store, body, body.rc, body.rc.rc, body.rc.guard`over
    ensures store.Valid()
    ensures Handled(store.H, Upload(r, account, old(body.State()), world),
                    Ending(old(store.Log()), store.Log(), answer, body.rc.guard.over))
  {
    ghost var u, before := Upload(r, account, body.State(), world), store.Log();
    var refusal, key := Address(r, account);
    if refusal.Some? {
      return refusal.value;
    }
    HandlerKeysAreNulFree(key);
    var outcome := store.Append(key, r.prev, body, world.spare, world.others, world.createdAt);
    answer := AnswerFor(key, outcome);
    assert StoreSays(store.H, u, Ending(before, store.Log(), answer, body.rc.guard.over), outcome);
  }

  // ---- The whole route -------------------------------------------------------------------------------

  /** The one response to a handled request: the handler's own, or the 413 with CORS headers only. */
  lemma RespondedOnce(x: Exchange, answer: Answer, render: Answer -> Bytes, envelope: Bytes)
    requires !x.wrote && x.statuses == [] && x.body == []
    ensures var y := Finish(Respond(x, answer, render, envelope), envelope);
            if x.over
            then y.statuses == [413] && SentOf(x.headers, y.sent, true) && y.body == envelope
            else y.statuses == [answer.Status()] && SentOf(x.headers, y.sent, false) && y.body == render(answer)
  {
    TaggedIsSent(x.headers);
    assert CorsOnly(Tagged(x.headers)) == CorsOnly(x.headers);
  }

  /** The one response that goes out: the 413 envelope, or the rendered answer with its status; and its headers. */
  ghost predicate OneResponse(h: Headers, w: ResponseWriter, tooLarge: bool, corsOnly: bool, status: nat, rendered: Bytes,
                              envelope: Bytes)
    reads w
  {
    && SentOf(h, w.sent, corsOnly)
    && if tooLarge then w.statuses == [413] && w.body == envelope
       else w.statuses == [status] && w.body == rendered
  }

  /** The end of a guarded request. */
  method Conclude(guard: SizeGuard, answer: Answer, render: Answer -> Bytes)
    requires guard.Valid() && !guard.wrote && guard.w.statuses == [] && guard.w.body == []
    modifies guard, guard.w
    ensures OneResponse(old(guard.w.headers), guard.w, old(guard.over), old(guard.over), answer.Status(), render(answer),
                        guard.envelope)
  {
    RespondedOnce(guard.State(), answer, render, guard.envelope);
    WriteAnswer(guard, answer, render);
    guard.FinishRequest();
  }

  /** The answer to a request whose declared length is over the cap. */
  method RefuseDeclared(w: ResponseWriter, envelope: Bytes)
    requires w.statuses == [] && w.body == []
    modifies w
    ensures OneResponse(old(w.headers), w, true, false, 413, envelope, envelope)
  {
    TaggedIsSent(w.headers);
    WriteTooLarge(w, envelope);
  }

  /** The cap and what the transport will deliver. */
  datatype Wire = Wire(script: Script, limit: nat)

  function UploadOf(r: Post, reply: Reply, wire: Wire, world: World): Upload
    requires reply.Admitted?
  {
    Upload(r, reply.account, Fresh(wire.script, wire.limit, reply.digest), world)
  }

  /** What becomes of a request behind the size guard. */
  ghost predicate Served(H: Hash, r: Post, reply: Reply, wire: Wire, world: World, e: Ending)
    requires WorldOk(H, world)
  {
    match reply
    case Refused(reason) => e.answer == Unauthorized(reason) && e.after == e.before && !e.over
    case Admitted(_, _) => Handled(H, UploadOf(r, reply, wire, world), e)
  }

  /** What the middleware makes of the request. */
  function ReplyTo(seen: Records, r: Post, world: World): (Records, Reply) {
    Authenticated(seen, world.wallet, world.decode, Incoming(POST, r.uri, r.authHeader), world.verifiedAt, world.consumedAt)
  }

  /**
   * The whole route, for every request, transport and interleaving. Status 201 means that the bytes
   * delivered, exactly those, are now the log's newest entry, in the account that signed for them,
   * and that they are not empty, within the cap and of the signed digest. Otherwise the request has
   * not touched the log.
   */
  lemma UploadIsAllOrNothing(H: Hash, r: Post, reply: Reply, wire: Wire, world: World, e: Ending)
    requires WorldOk(H, world) && Served(H, r, reply, wire, world, e)
    ensures e.answer.Status() == 201 ==> reply.Admitted?
    ensures if reply.Admitted? then Settled(H, UploadOf(r, reply, wire, world), e) else e.after == e.before
  {
    if reply.Admitted? {
      AcknowledgedIsSigned(H, UploadOf(r, reply, wire, world), e);
    }
  }

  /** The request gets as far as its body. */
  ghost predicate Reads(r: Post, reply: Reply, wire: Wire, world: World, before: Log) {
    reply.Admitted? && BodyIsRead(UploadOf(r, reply, wire, world), before)
  }

  /**
   * Which undeclared bodies over the cap are answered 413, for every transport: exactly those of
   * requests that are admitted, addressable and next in their log by the first check. The others
   * are answered 401, 415, 400 or 409 with their body unread.
   */
  lemma UndeclaredOverrunExactly(H: Hash, r: Post, reply: Reply, wire: Wire, world: World, e: Ending)
    requires WorldOk(H, world) && Served(H, r, reply, wire, world, e)
    ensures e.over <==> Reads(r, reply, wire, world, e.before) && |Delivered(wire.script)| > wire.limit
    ensures !Reads(r, reply, wire, world, e.before) ==>
              && e.answer == (if reply.Admitted? then Unheard(r) else Unauthorized(reply.reason))
              && (e.answer.Status() == 401 <==> reply.Refused?)
  {
    if reply.Admitted? {
      OverrunsExactly(H, UploadOf(r, reply, wire, world), e);
    }
  }

  /**
   * So "an oversize body is answered 413 before authentication" does fail: under any cap and in any
   * world, an undeclared body of any size whose request carries no proof has one possible ending, a
   * 401 with the body unread.
   */
  lemma UnprovenIsAnswered401(H: Hash, r: Post, wire: Wire, seen: Records, world: World, e: Ending)
    requires WorldOk(H, world) && r.authHeader == ""
    ensures Served(H, r, ReplyTo(seen, r, world).1, wire, world, e) <==>
              e == Ending(e.before, e.before, Unauthorized(MissingHeader), false)
  {
  }

  /** An upload as a router hands it on, but for the proof, whose chunked body is one byte over the cap. */
  function Oversize(limit: nat): (Post, Wire) {
    var device := seq(32, _ => 'a');
    (Post("/v1/log/" + device + "?seq=1&generation=1", "", OCTET_STREAM, None, device, "1", "1", ""),
     Wire([Readers.Answer(seq(limit + 1, _ => 0), EOF)], limit))
  }

  /** One of them is a well-formed upload of the first entry of a log, over the cap by one byte. */
  lemma OversizeCanBeAnswered401(H: Hash, limit: nat, seen: Records, world: World, e: Ending)
    requires WorldOk(H, world)
    ensures var (r, wire) := Oversize(limit);
            && RequestLine(POST, r.uri) && Addressable(r) && r.contentLength.None?
            && |Delivered(wire.script)| > limit
            && (Served(H, r, ReplyTo(seen, r, world).1, wire, world, e) <==>
                  e == Ending(e.before, e.before, Unauthorized(MissingHeader), false))
  {
    var (r, wire) := Oversize(limit);
    PrintedNumbersParse(1);
    assert Dec(1) == "1";
    var device: string := seq(32, _ => 'a');
    assert ValidDeviceId(device);
    assert SpaceFree("/v1/log/" + device + "?seq=1&generation=1") by {
      assert SpaceFree("/v1/log/") && SpaceFree(device) && SpaceFree("?seq=1&generation=1");
    }
    UnprovenIsAnswered401(H, r, wire, seen, world, e);
  }

  /** The middleware has left the nonces so, and the request has been served with its reply. */
  ghost predicate AuthenticatedAndServed(
    H: Hash, r: Post, before: Records, after: Records, wire: Wire, world: World, e: Ending)
    requires WorldOk(H, world)
  {
    after == ReplyTo(before, r, world).0 && Served(H, r, ReplyTo(before, r, world).1, wire, world, e)
  }

  /** The wrapped body, and the handler. */
  method ServeAdmitted(store: MemoryStore.Store, counting: CountingBody, r: Post, account: string, digest: string,
                       world: World)
    returns (answer: Answer)
    requires store.Valid() && WorldOk(store.H, world) && HexText(account)
    requires counting.read == 0 && !counting.guard.over
    modifies store, counting, counting.rc, counting.guard`over
    ensures store.Valid()
    ensures Handled(store.H, UploadOf(r, Admitted(account, digest), Wire(old(counting.rc.script), counting.limit), world),
                    Ending(old(store.Log()), store.Log(), answer, counting.guard.over))
  {
    var body := new DigestVerifyingBody(counting, digest, store.H);
    assert body.State() == Fresh(counting.rc.script, counting.limit, digest);
    answer := HandleAppend(store, r, account, body, world);
  }

  /** Behind the size guard: authentication, then the handler. */
  method ServeGuarded(store: MemoryStore.Store, nonces: MemoryNonces, counting: CountingBody, r: Post, world: World)
    returns (answer: Answer)
    requires store.Valid() && WorldOk(store.H, world)
    requires counting.read == 0 && !counting.guard.over
    modifies store, nonces, counting, counting.rc, counting.guard`over
    ensures store.Valid()
    ensures nonces.seen == ReplyTo(old(nonces.seen), r, world).0
    ensures Served(store.H, r, ReplyTo(old(nonces.seen), r, world).1, Wire(old(counting.rc.script), counting.limit),
                   world, Ending(old(store.Log()), store.Log(), answer, counting.guard.over))
  {
    var reply := Authenticate(nonces, world.wallet, world.decode, Incoming(POST, r.uri, r.authHeader),
                              world.verifiedAt, world.consumedAt);
    match reply {
      case Refused(reason) => answer := Unauthorized(reason);
      case Admitted(account, digest) => answer := ServeAdmitted(store, counting, r, account, digest, world);
    }
  }

  /**
   * maxBody around it all: a declared length over the cap is answered at once, and a body found
   * over the cap while it was read turns whatever was answered into the 413. One response goes out.
   */
  method ServeUpload(store: MemoryStore.Store, nonces: MemoryNonces, transport: Transport, w: ResponseWriter,
                     limit: nat, envelope: Bytes, r: Post, world: World)
    returns (answer: Answer, over: bool)
    requires store.Valid() && WorldOk(store.H, world) && w.statuses == [] && w.body == []
    modifies store, nonces, transport, w
    ensures store.Valid()
    ensures r.contentLength.Some? && r.contentLength.value > limit ==>
              && over && answer == Internal && unchanged(store) && unchanged(nonces) && unchanged(transport)
              && OneResponse(old(w.headers), w, true, false, 413, envelope, envelope)
    ensures !(r.contentLength.Some? && r.contentLength.value > limit) ==>
              && OneResponse(old(w.headers), w, over, over, answer.Status(), world.render(answer), envelope)
              && AuthenticatedAndServed(store.H, r, old(nonces.seen), nonces.seen, Wire(old(transport.script), limit), world,
                                        Ending(old(store.Log()), store.Log(), answer, over))
  {
    if r.contentLength.Some? && r.contentLength.value > limit {
      RefuseDeclared(w, envelope);
      answer, over := Internal, true;
    } else {
      answer, over := ServeCounted(store, nonces, transport, w, limit, envelope, r, world);
    }
  }

  /** A request whose length is not declared too large, behind the guard. */
  method ServeCounted(store: MemoryStore.Store, nonces: MemoryNonces, transport: Transport, w: ResponseWriter,
                      limit: nat, envelope: Bytes, r: Post, world: World)
    returns (answer: Answer, over: bool)
    requires store.Valid() && WorldOk(store.H, world) && w.statuses == [] && w.body == []
    modifies store, nonces, transport, w
    ensures store.Valid()
    ensures OneResponse(old(w.headers), w, over, over, answer.Status(), world.render(answer), envelope)
    ensures AuthenticatedAndServed(store.H, r, old(nonces.seen), nonces.seen, Wire(old(transport.script), limit), world,
                                   Ending(old(store.Log()), store.Log(), answer, over))
  {
    var guard := new SizeGuard(w, envelope);
    var counting := new CountingBody(transport, limit, guard);
    answer := ServeGuarded(store, nonces, counting, r, world);
    over := guard.over;
    Conclude(guard, answer, world.render);
  }
}
