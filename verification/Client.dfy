/** The Go client: how many proofs a call signs, and what an upload's proof stands for. */
module Client {
  import opened Base
  import opened Decimal
  import opened Encodings
  import opened AuthProof

  /** What one request attempt comes back with; NoAnswer is any error without an answer from the service. */
  datatype Response = NoAnswer | Got(status: nat, code: string, message: string)

  /** The replay guard refusing a proof it has already accepted once. */
  ghost predicate IsSpentProofRefusal(r: Response) {
    r.Got? && r.status == STATUS_UNAUTHORIZED && r.code == AUTH_REQUIRED && Contains(r.message, USED)
  }

  function Rendered(reason: Reason): Response {
    Got(STATUS_UNAUTHORIZED, AUTH_REQUIRED, Text(reason))
  }

  /** Of all the ways the service refuses a proof, the client retries after exactly one. */
  lemma SpentRefusalIsReplay(reason: Reason)
    ensures IsSpentProofRefusal(Rendered(reason)) <==> reason == AlreadyUsed
  {
    OnlyReplaysSayUsed(reason);
  }

  method FindText(s: string, t: string) returns (found: bool)
    ensures found <==> Contains(s, t)
  {
    var i := 0;
    while i <= |s|
      invariant 0 <= i <= |s| + 1
      invariant forall j: nat :: j < i ==> !OccursAt(s, t, j)
    {
      if OccursAt(s, t, i) {
        return true;
      }
      i := i + 1;
    }
    return false;
  }

  /** The network and the service behind it, as one client sees them: the n-th attempt gets the n-th answer. */
  class Wire {
    const answers: nat -> Response
    var sent: seq<Proof>

    constructor (answers: nat -> Response)
      ensures this.answers == answers && sent == []
    {
      this.answers, sent := answers, [];
    }

    method Send(p: Proof) returns (r: Response)
      modifies this
      ensures sent == old(sent) + [p] && r == answers(|old(sent)|)
    {
      r := answers(|sent|);
      sent := sent + [p];
    }
  }

  /** The key that signs, and what it makes of bytes. */
  datatype Signer = Signer(identityKey: string, sign: string -> string)

  /** One request to make; `upload` says that it has a body. */
  datatype Request = Request(method': string, uri: string, digest: string, upload: bool)

  /** What the environment supplies to each attempt: the clock and 32 random bytes, if they can be had. */
  datatype Draw = Draw(nonce: Option<string>, now: int)

  function ProofFor(key: Signer, req: Request, nonce: string, now: int): Proof {
    Sign(key.sign, key.identityKey, Action(req.method', req.uri, req.digest), nonce, now)
  }

  /** Sign one proof and make one attempt. */
  method RoundTrip(wire: Wire, key: Signer, req: Request, draw: Draw) returns (r: Response)
    modifies wire
    ensures if draw.nonce.None? then r == NoAnswer && wire.sent == old(wire.sent)
            else r == wire.answers(|old(wire.sent)|) &&
                 wire.sent == old(wire.sent) + [ProofFor(key, req, draw.nonce.value, draw.now)]
  {
    if draw.nonce.None? {
      return NoAnswer;
    }
    r := wire.Send(ProofFor(key, req, draw.nonce.value, draw.now));
  }

  /**
   * One call of the client, whatever the network answers. It signs at most two proofs; an upload at
   * most one; and a second only when the first attempt was refused as spent. Each proof is for this
   * very request, with a nonce and a clock reading of its own. The answer is the last attempt's, and
   * NoAnswer if there was none or the one that was due could not be signed.
   */
  method Do(wire: Wire, key: Signer, ready: bool, req: Request, first: Draw, second: Draw) returns (r: Response)
    modifies wire
    ensures old(wire.sent) <= wire.sent && |wire.sent| <= |old(wire.sent)| + 2
    ensures ready && first.nonce.Some? <==> |wire.sent| > |old(wire.sent)|
    ensures |wire.sent| == |old(wire.sent)| + 2 <==>
              ready && first.nonce.Some? && second.nonce.Some? && !req.upload &&
              IsSpentProofRefusal(wire.answers(|old(wire.sent)|))
    ensures |wire.sent| > |old(wire.sent)| ==>
              wire.sent[|old(wire.sent)|] == ProofFor(key, req, first.nonce.value, first.now)
    ensures |wire.sent| > |old(wire.sent)| + 1 ==>
              wire.sent[|old(wire.sent)| + 1] == ProofFor(key, req, second.nonce.value, second.now)
    ensures r == if !ready || first.nonce.None? then NoAnswer
                 else
                   var one := wire.answers(|old(wire.sent)|);
                   if req.upload || !IsSpentProofRefusal(one) then one
                   else if second.nonce.None? then NoAnswer
                   else wire.answers(|old(wire.sent)| + 1)
  {
    if !ready {
      return NoAnswer;
    }
    r := RoundTrip(wire, key, req, first);
    if !req.upload && r.Got? && r.status == STATUS_UNAUTHORIZED && r.code == AUTH_REQUIRED {
      var spent := FindText(r.message, USED);
      if spent {
        r := RoundTrip(wire, key, req, second);
      }
    }
  }

  // ---- Uploads -------------------------------------------------------------------------------------

  /** url.PathEscape or url.QueryEscape: one to one, and free of what would end the component. */
  ghost predicate Escapes(escape: string -> string, ends: set<char>) {
    && (forall a, b :: escape(a) == escape(b) ==> a == b)
    && (forall a, c :: c in ends ==> c !in escape(a))
  }

  const PATH_ENDS := {' ', '/', '?'}
  const QUERY_ENDS := {' ', '&'}

  datatype Slot = Slot(device: string, generation: int, seqNo: int, prev: string)

  function PrevParam(e: Slot, query: string -> string): string {
    if e.prev == "" then "" else ['&'] + ("prevSha256=" + query(e.prev))
  }

  function AppendUri(e: Slot, path: string -> string, query: string -> string): string {
    "/v1/log/" + path(e.device) + ['?'] +
    ("seq=" + Dec(e.seqNo) + ['&'] + ("generation=" + Dec(e.generation) + PrevParam(e, query)))
  }

  lemma NumbersAreClean(e: Slot, c: char)
    requires !IsDigit(c) && c != '-' && c !in "seq=" && c !in "generation="
    ensures c !in "seq=" + Dec(e.seqNo) && c !in "generation=" + Dec(e.generation)
  {
    DecFreeOf(e.seqNo, c);
    DecFreeOf(e.generation, c);
  }

  /** The target of an upload is fit for a request line. */
  lemma AppendUriIsTarget(e: Slot, path: string -> string, query: string -> string)
    requires Escapes(path, PATH_ENDS) && Escapes(query, QUERY_ENDS)
    ensures RequestLine("POST", AppendUri(e, path, query))
  {
    NumbersAreClean(e, ' ');
    assert ' ' !in path(e.device) && ' ' !in query(e.prev);
    assert SpaceFree("POST");
    assert ' ' !in PrevParam(e, query);
  }

  lemma PrevInjective(a: Slot, b: Slot, x: string, y: string, query: string -> string)
    requires Escapes(query, QUERY_ENDS) && '&' !in x && '&' !in y
    requires x + PrevParam(a, query) == y + PrevParam(b, query)
    ensures x == y && a.prev == b.prev
  {
    assert (x + PrevParam(a, query))[|x|..] == PrevParam(a, query);
    assert (y + PrevParam(b, query))[|y|..] == PrevParam(b, query);
    assert a.prev != "" <==> '&' in x + PrevParam(a, query);
    assert b.prev != "" <==> '&' in y + PrevParam(b, query);
    if a.prev != "" {
      assert x + PrevParam(a, query) == x + ['&'] + ("prevSha256=" + query(a.prev));
      assert y + PrevParam(b, query) == y + ['&'] + ("prevSha256=" + query(b.prev));
      SplitUnique(x, "prevSha256=" + query(a.prev), y, "prevSha256=" + query(b.prev), '&');
      assert ("prevSha256=" + query(a.prev))[11..] == query(a.prev);
      assert ("prevSha256=" + query(b.prev))[11..] == query(b.prev);
    }
  }

  lemma TailInjective(a: Slot, b: Slot, query: string -> string)
    requires Escapes(query, QUERY_ENDS)
    requires "generation=" + Dec(a.generation) + PrevParam(a, query) ==
             "generation=" + Dec(b.generation) + PrevParam(b, query)
    ensures a.generation == b.generation && a.prev == b.prev
  {
    NumbersAreClean(a, '&');
    NumbersAreClean(b, '&');
    var x, y := "generation=" + Dec(a.generation), "generation=" + Dec(b.generation);
    PrevInjective(a, b, x, y, query);
    assert x[11..] == Dec(a.generation) && y[11..] == Dec(b.generation);
    DecInjective(a.generation, b.generation);
  }

  /** Different entries have different targets. */
  lemma AppendUriInjective(a: Slot, b: Slot, path: string -> string, query: string -> string)
    requires Escapes(path, PATH_ENDS) && Escapes(query, QUERY_ENDS)
    requires AppendUri(a, path, query) == AppendUri(b, path, query)
    ensures a == b
  {
    var x, y := "/v1/log/" + path(a.device), "/v1/log/" + path(b.device);
    var s := "generation=" + Dec(a.generation) + PrevParam(a, query);
    var t := "generation=" + Dec(b.generation) + PrevParam(b, query);
    assert '?' !in path(a.device) && '?' !in path(b.device);
    SplitUnique(x, "seq=" + Dec(a.seqNo) + ['&'] + s, y, "seq=" + Dec(b.seqNo) + ['&'] + t, '?');
    assert x[8..] == path(a.device) && y[8..] == path(b.device);
    NumbersAreClean(a, '&');
    NumbersAreClean(b, '&');
    SplitUnique("seq=" + Dec(a.seqNo), s, "seq=" + Dec(b.seqNo), t, '&');
    assert ("seq=" + Dec(a.seqNo))[4..] == Dec(a.seqNo) && ("seq=" + Dec(b.seqNo))[4..] == Dec(b.seqNo);
    DecInjective(a.seqNo, b.seqNo);
    TailInjective(a, b, query);
  }

  // ---- What the service reads in a target ------------------------------------------------------------

  function Before(s: string, sep: char): string {
    if s == "" || s[0] == sep then "" else [s[0]] + Before(s[1..], sep)
  }

  function After(s: string, sep: char): (rest: string)
    ensures s != "" ==> |rest| < |s|
  {
    if s == "" then "" else if s[0] == sep then s[1..] else After(s[1..], sep)
  }

  /** A parameter of a query, not unescaped: what stands behind the first such name, or nothing. */
  function Param(query: string, name: string): string
    decreases |query|
  {
    if query == "" then ""
    else
      var field := Before(query, '&');
      if Before(field, '=') == name then After(field, '=') else Param(After(query, '&'), name)
  }

  lemma {:induction false} CutAt(a: string, sep: char, b: string)
    requires sep !in a
    ensures Before(a + [sep] + b, sep) == a && After(a + [sep] + b, sep) == b
    decreases |a|
  {
    var s := a + [sep] + b;
    if a != "" {
      assert s[0] == a[0] && s[1..] == a[1..] + [sep] + b;
      CutAt(a[1..], sep, b);
    } else {
      assert s[1..] == b;
    }
  }

  lemma {:induction false} Uncut(a: string, sep: char)
    requires sep !in a
    ensures Before(a, sep) == a && After(a, sep) == ""
    decreases |a|
  {
    if a != "" {
      Uncut(a[1..], sep);
    }
  }

  /** A query that starts with a field: what the field says, and what the rest says. */
  lemma FieldFirst(name: string, value: string, rest: string, other: string)
    requires '=' !in name && '&' !in name && '&' !in value && other != name
    ensures var field := name + ['='] + value;
            && Param(field + ['&'] + rest, name) == value && Param(field + ['&'] + rest, other) == Param(rest, other)
            && Param(field, name) == value && Param(field, other) == ""
  {
    var field := name + ['='] + value;
    CutAt(name, '=', value);
    CutAt(field, '&', rest);
    Uncut(field, '&');
  }

  lemma OneField(x: string)
    requires '&' !in x
    ensures Param("generation=" + x, "generation") == x && Param("generation=" + x, "prevSha256") == ""
  {
    assert "generation=" + x == "generation" + ['='] + x;
    FieldFirst("generation", x, "", "prevSha256");
  }

  lemma TwoFields(x: string, y: string)
    requires '&' !in x && '&' !in y
    ensures var q := "generation=" + x + ['&'] + ("prevSha256=" + y);
            Param(q, "generation") == x && Param(q, "prevSha256") == y
  {
    assert "generation=" + x == "generation" + ['='] + x && "prevSha256=" + y == "prevSha256" + ['='] + y;
    FieldFirst("generation", x, "prevSha256=" + y, "prevSha256");
    FieldFirst("prevSha256", y, "", "generation");
  }

  lemma PrevReadsBack(e: Slot, query: string -> string, x: string)
    requires Escapes(query, QUERY_ENDS) && '&' !in x
    ensures var q := "generation=" + x + PrevParam(e, query);
            && Param(q, "generation") == x
            && Param(q, "prevSha256") == if e.prev == "" then "" else query(e.prev)
  {
    if e.prev == "" {
      OneField(x);
      assert "generation=" + x + "" == "generation=" + x;
    } else {
      assert '&' !in query(e.prev);
      TwoFields(x, query(e.prev));
      assert "generation=" + x + PrevParam(e, query) == "generation=" + x + ['&'] + ("prevSha256=" + query(e.prev));
    }
  }

  /** Each part of the target reads back as what the client put there. */
  lemma TargetReadsBack(e: Slot, path: string -> string, query: string -> string)
    requires Escapes(path, PATH_ENDS) && Escapes(query, QUERY_ENDS)
    ensures var uri := AppendUri(e, path, query);
            && Before(uri, '?') == "/v1/log/" + path(e.device)
            && Param(After(uri, '?'), "seq") == Dec(e.seqNo)
            && Param(After(uri, '?'), "generation") == Dec(e.generation)
            && Param(After(uri, '?'), "prevSha256") == if e.prev == "" then "" else query(e.prev)
  {
    var tail := "generation=" + Dec(e.generation) + PrevParam(e, query);
    var q := "seq=" + Dec(e.seqNo) + ['&'] + tail;
    assert '?' !in path(e.device) && '?' !in "/v1/log/";
    CutAt("/v1/log/" + path(e.device), '?', q);
    assert AppendUri(e, path, query) == "/v1/log/" + path(e.device) + ['?'] + q;
    DecFreeOf(e.seqNo, '&');
    DecFreeOf(e.generation, '&');
    assert "seq=" + Dec(e.seqNo) == "seq" + ['='] + Dec(e.seqNo);
    FieldFirst("seq", Dec(e.seqNo), tail, "generation");
    FieldFirst("seq", Dec(e.seqNo), tail, "prevSha256");
    PrevReadsBack(e, query, Dec(e.generation));
  }

  function AppendRequest(e: Slot, digest: string, path: string -> string, query: string -> string): Request {
    Request("POST", AppendUri(e, path, query), digest, true)
  }

  /** Append: one proof at the most, whatever happens, and it is for this entry and this body. */
  method Append(wire: Wire, key: Signer, ready: bool, e: Slot, digest: string,
                path: string -> string, query: string -> string, draw: Draw) returns (r: Response)
    modifies wire
    ensures wire.sent ==
              if ready && draw.nonce.Some?
              then old(wire.sent) + [ProofFor(key, AppendRequest(e, digest, path, query), draw.nonce.value, draw.now)]
              else old(wire.sent)
    ensures r == if ready && draw.nonce.Some? then wire.answers(|old(wire.sent)|) else NoAnswer
  {
    r := Do(wire, key, ready, AppendRequest(e, digest, path, query), draw, draw);
  }

  /**
   * The proof an upload signs proves one request and no other: the upload of a body with that
   * digest, as that entry.
   */
  lemma UploadProofBindsSlot(
      w: Wallet, decode: Decoder, r: Incoming, now: int, p: Proof, digest': string,
      key: Signer, nonce: string, signedAt: int, e: Slot, digest: string, path: string -> string, query: string -> string)
    requires Escapes(path, PATH_ENDS) && Escapes(query, QUERY_ENDS) && HexDigest(digest)
    requires RequestLine(r.method', r.uri)
    requires p == ProofFor(key, AppendRequest(e, digest, path, query), nonce, signedAt)
    requires Judge(w, decode, r, now) == Sound(p, digest')
    ensures r.method' == "POST" && r.uri == AppendUri(e, path, query) && digest' == digest
  {
    AppendUriIsTarget(e, path, query);
    SoundExactly(w, decode, r, now, p, digest');
    ActionInjective(r.method', r.uri, digest', "POST", AppendUri(e, path, query), digest);
  }
}
