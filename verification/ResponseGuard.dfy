/** The size guard: which response reaches the client when the request body may overrun the cap. */
module ResponseGuard {
  import opened Base

  type Headers = map<string, string>

  const STATUS_OK := 200
  const STATUS_TOO_LARGE := 413

  /**
   * The response as the client sees it, plus the guard's two flags. `statuses` lists the status
   * codes handed to the underlying writer, `sent` the headers that went out with the first.
   */
  datatype Exchange = Exchange(
    headers: Headers, statuses: seq<nat>, sent: Headers, body: Bytes, over: bool, wrote: bool)

  function Start(headers: Headers): Exchange {
    Exchange(headers, [], map[], [], false, false)
  }

  /** What the handler does, and the one thing a body read can do to the response. */
  datatype Op =
    | Overrun
    | SetHeader(name: string, value: string)
    | WriteHeader(code: nat)
    | Write(bytes: Bytes)

  predicate IsCors(name: string) {
    "Access-Control-" <= name
  }

  function CorsOnly(h: Headers): Headers {
    map name | name in h && IsCors(name) :: h[name]
  }

  function Tagged(h: Headers): Headers {
    h["Content-Type" := "application/json"]
  }

  /**
   * What goes out of the headers h: the content type of the envelopes, and of the others all, or only
   * those whose names start with "Access-Control-".
   */
  ghost predicate SentOf(h: Headers, sent: Headers, corsOnly: bool) {
    && "Content-Type" in sent && sent["Content-Type"] == "application/json"
    && (forall name :: name != "Content-Type" ==>
          (name in sent <==> name in h && (corsOnly ==> |name| >= 15 && name[..15] == "Access-Control-")))
    && (forall name :: name != "Content-Type" && name in sent ==> name in h && sent[name] == h[name])
  }

  lemma TaggedIsSent(h: Headers)
    ensures SentOf(h, Tagged(CorsOnly(h)), true) && SentOf(h, Tagged(h), false)
  {
  }

  /** sizeGuard.WriteHeader on the flags and the underlying response. */
  function DoWriteHeader(x: Exchange, code: nat, envelope: Bytes): Exchange {
    if x.wrote then x
    else if x.over then
      var h := Tagged(CorsOnly(x.headers));
      Exchange(h, x.statuses + [STATUS_TOO_LARGE], if x.statuses == [] then h else x.sent, x.body + envelope, true, true)
    else
      x.(statuses := x.statuses + [code], sent := if x.statuses == [] then x.headers else x.sent, wrote := true)
  }

  function Do(x: Exchange, op: Op, envelope: Bytes): Exchange {
    match op
    case Overrun => x.(over := true)
    case SetHeader(name, value) => x.(headers := x.headers[name := value])
    case WriteHeader(code) => DoWriteHeader(x, code, envelope)
    case Write(bytes) =>
      var y := DoWriteHeader(x, STATUS_OK, envelope);
      if y.over then y else y.(body := y.body + bytes)
  }

  function DoAll(x: Exchange, ops: seq<Op>, envelope: Bytes): Exchange
    decreases |ops|
  {
    if ops == [] then x else DoAll(Do(x, ops[0], envelope), ops[1..], envelope)
  }

  /** What maxBody adds after the handler has returned. */
  function Finish(x: Exchange, envelope: Bytes): Exchange {
    if x.over && !x.wrote then DoWriteHeader(x, STATUS_TOO_LARGE, envelope) else x
  }

  // ---- What it should do, said without the flags -----------------------------------------------

  predicate Answers(op: Op) {
    op.WriteHeader? || op.Write?
  }

  /** The handler's operations up to its first attempt to answer. */
  function BeforeAnswer(ops: seq<Op>): seq<Op> {
    if ops == [] || Answers(ops[0]) then [] else [ops[0]] + BeforeAnswer(ops[1..])
  }

  function HeadersAfter(h: Headers, ops: seq<Op>): Headers
    decreases |ops|
  {
    if ops == [] then h
    else if ops[0].SetHeader? then HeadersAfter(h[ops[0].name := ops[0].value], ops[1..])
    else HeadersAfter(h, ops[1..])
  }

  /** The bytes the handler wrote before any overrun. */
  function WrittenBeforeOverrun(ops: seq<Op>): Bytes {
    if ops == [] || ops[0].Overrun? then []
    else (if ops[0].Write? then ops[0].bytes else []) + WrittenBeforeOverrun(ops[1..])
  }

  /** The status the handler's first attempt to answer asks for. */
  function AskedStatus(ops: seq<Op>): Option<nat> {
    if ops == [] then None
    else match ops[0]
      case WriteHeader(code) => Some(code)
      case Write(_) => Some(STATUS_OK)
      case _ => AskedStatus(ops[1..])
  }

  /** One call after the first answer. */
  lemma DoAfterAnswer(x: Exchange, op: Op, envelope: Bytes)
    requires x.wrote
    ensures var y := Do(x, op, envelope);
            && y.wrote && y.statuses == x.statuses && y.sent == x.sent
            && y.over == (x.over || op.Overrun?)
            && y.body == x.body + if op.Write? && !x.over then op.bytes else []
  {
  }

  /** After the first answer nothing but the body can change, and that only until an overrun. */
  lemma {:induction false} AfterAnswer(x: Exchange, ops: seq<Op>, envelope: Bytes)
    requires x.wrote
    ensures var y := Finish(DoAll(x, ops, envelope), envelope);
            && y.statuses == x.statuses && y.sent == x.sent
            && y.body == x.body + if x.over then [] else WrittenBeforeOverrun(ops)
    decreases |ops|
  {
    if ops != [] {
      var y := Do(x, ops[0], envelope);
      DoAfterAnswer(x, ops[0], envelope);
      AfterAnswer(y, ops[1..], envelope);
      if !x.over && !ops[0].Overrun? {
        Regroup(x.body, if ops[0].Write? then ops[0].bytes else [], WrittenBeforeOverrun(ops[1..]));
      }
    }
  }

  /** The response y that an exchange x, unanswered yet, must come to with these operations. */
  ghost predicate Deserves(x: Exchange, ops: seq<Op>, y: Exchange, envelope: Bytes) {
    var early := BeforeAnswer(ops);
    if x.over || Overrun in early then
      && y.statuses == [STATUS_TOO_LARGE] && y.body == envelope
      && y.sent == Tagged(CorsOnly(HeadersAfter(x.headers, early)))
    else if AskedStatus(ops).Some? then
      && y.statuses == [AskedStatus(ops).value] && y.body == WrittenBeforeOverrun(ops)
      && y.sent == HeadersAfter(x.headers, early)
    else y.statuses == [] && y.body == []
  }

  /** The first answer settles the response. */
  lemma FirstAnswer(x: Exchange, ops: seq<Op>, envelope: Bytes)
    requires !x.wrote && x.statuses == [] && x.body == [] && ops != [] && Answers(ops[0])
    ensures Deserves(x, ops, Finish(DoAll(x, ops, envelope), envelope), envelope)
  {
    AfterAnswer(Do(x, ops[0], envelope), ops[1..], envelope);
  }

  /** An operation before it carries over what the rest deserves. */
  lemma StillDeserves(x: Exchange, ops: seq<Op>, y: Exchange, envelope: Bytes)
    requires ops != [] && !Answers(ops[0]) && Deserves(Do(x, ops[0], envelope), ops[1..], y, envelope)
    ensures Deserves(x, ops, y, envelope)
  {
    var early, rest := BeforeAnswer(ops), BeforeAnswer(ops[1..]);
    assert early == [ops[0]] + rest && early[1..] == rest;
    assert Overrun in early <==> ops[0] == Overrun || Overrun in rest;
  }

  lemma {:induction false} BeforeFirstAnswer(x: Exchange, ops: seq<Op>, envelope: Bytes)
    requires !x.wrote && x.statuses == [] && x.body == []
    ensures Deserves(x, ops, Finish(DoAll(x, ops, envelope), envelope), envelope)
    decreases |ops|
  {
    if ops != [] {
      if Answers(ops[0]) {
        FirstAnswer(x, ops, envelope);
      } else {
        var y := Do(x, ops[0], envelope);
        BeforeFirstAnswer(y, ops[1..], envelope);
        StillDeserves(x, ops, Finish(DoAll(x, ops, envelope), envelope), envelope);
      }
    }
  }

  /**
   * Whatever order body reads and handler calls come in, at most one status reaches the client. If
   * the body overran before the handler's first attempt to answer, or the handler never answered
   * an overrun, the response is the 413 envelope, none of the handler's bytes, and of its headers
   * only the CORS ones. Otherwise it is the handler's own answer, cut off at the first overrun.
   */
  lemma GuardedResponse(headers: Headers, ops: seq<Op>, envelope: Bytes)
    ensures var y := Finish(DoAll(Start(headers), ops, envelope), envelope);
            var early := BeforeAnswer(ops);
            && |y.statuses| <= 1
            && (Overrun in early ==>
                  && y.statuses == [413] && y.body == envelope
                  && SentOf(HeadersAfter(headers, early), y.sent, true))
            && (Overrun !in early && AskedStatus(ops).Some? ==>
                  && y.statuses == [AskedStatus(ops).value] && y.body == WrittenBeforeOverrun(ops)
                  && y.sent == HeadersAfter(headers, early))
            && (Overrun !in early && AskedStatus(ops).None? ==> y.statuses == [] && y.body == [])
  {
    BeforeFirstAnswer(Start(headers), ops, envelope);
    TaggedIsSent(HeadersAfter(headers, BeforeAnswer(ops)));
  }

  // ---- The writers -----------------------------------------------------------------------------

  /** net/http's response writer: the first WriteHeader sends the headers, a bare Write implies 200. */
  class ResponseWriter {
    var headers: Headers
    var statuses: seq<nat>
    var sent: Headers
    var body: Bytes

    constructor (headers: Headers)
      ensures this.headers == headers && statuses == [] && sent == map[] && body == []
    {
      this.headers, statuses, sent, body := headers, [], map[], [];
    }

    method WriteHeader(code: nat)
      modifies this
      ensures headers == old(headers) && body == old(body)
      ensures statuses == old(statuses) + [code]
      ensures sent == if old(statuses) == [] then headers else old(sent)
    {
      if |statuses| == 0 {
        sent := headers;
      }
      statuses := statuses + [code];
    }

    method Write(bytes: Bytes)
      requires statuses != []
      modifies this`body
      ensures body == old(body) + bytes
    {
      body := body + bytes;
    }
  }

  /** Replaces whatever the wrapped handler says with a 413 once the body overran. */
  class SizeGuard {
    const w: ResponseWriter
    const envelope: Bytes
    var over: bool
    var wrote: bool

    ghost predicate Valid()
      reads this, w
    {
      wrote ==> w.statuses != []
    }

    ghost function State(): Exchange
      reads this, w
    {
      Exchange(w.headers, w.statuses, w.sent, w.body, over, wrote)
    }

    constructor (w: ResponseWriter, envelope: Bytes)
      requires w.statuses == []
      ensures Valid() && this.w == w && this.envelope == envelope && !over && !wrote
    {
      this.w, this.envelope, over, wrote := w, envelope, false, false;
    }

    method WriteHeader(code: nat)
      requires Valid()
      modifies this, w
      ensures Valid()
      ensures State() == DoWriteHeader(old(State()), code, envelope)
    {
      if wrote {
        return;
      }
      wrote := true;
      if over {
        var h := w.headers;
        var names := h.Keys;
        while names != {}
          invariant names <= old(w.headers).Keys
          invariant h == map name | name in old(w.headers) && (name in names || IsCors(name)) :: old(w.headers)[name]
          decreases |names|
        {
          var name :| name in names;
          names := names - {name};
          if !("Access-Control-" <= name) {
            h := h - {name};
          }
        }
        w.headers := h;
        WriteTooLarge(w, envelope);
        return;
      }
      w.WriteHeader(code);
    }

    method Write(bytes: Bytes)
      requires Valid()
      modifies this, w
      ensures Valid()
      ensures State() == Do(old(State()), Op.Write(bytes), envelope)
    {
      if !wrote {
        WriteHeader(STATUS_OK);
      }
      if over {
        return;
      }
      w.Write(bytes);
    }

    /** The tail of maxBody: a handler that abandoned an oversize request still owes an answer. */
    method FinishRequest()
      requires Valid()
      modifies this, w
      ensures Valid()
      ensures State() == Finish(old(State()), envelope)
    {
      if over && !wrote {
        WriteHeader(STATUS_TOO_LARGE);
      }
    }
  }

  method WriteTooLarge(w: ResponseWriter, envelope: Bytes)
    modifies w
    ensures w.headers == Tagged(old(w.headers))
    ensures w.statuses == old(w.statuses) + [STATUS_TOO_LARGE]
    ensures w.sent == if old(w.statuses) == [] then w.headers else old(w.sent)
    ensures w.body == old(w.body) + envelope
  {
    w.headers := w.headers["Content-Type" := "application/json"];
    w.WriteHeader(STATUS_TOO_LARGE);
    w.Write(envelope);
  }
}
