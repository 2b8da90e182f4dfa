/** The proof a request carries, and the middleware that admits the request on the strength of it. */
module AuthProof {
  import opened Base
  import opened Encodings
  import opened NonceStores

  // ---- Freshness -------------------------------------------------------------------------------------

  /** A clock reads nanoseconds since the epoch; a proof expires at a whole millisecond. */
  const MILLISECOND := 1_000_000
  const WINDOW := 120_000 * MILLISECOND
  const SKEW := 30_000 * MILLISECOND

  function UnixMilli(t: int): int {
    t / MILLISECOND
  }

  function FromMilli(ms: int): int {
    ms * MILLISECOND
  }

  datatype Proof = Proof(action: string, identityKey: string, expiresAt: int, nonce: string, signature: string)

  /** What the wallet makes of a signature; a genuine one identifies the account. */
  datatype Verdict = NotAKey | NotASignature | Wrong | Genuine(account: string)

  /** The wallet, given the signed bytes, the claimed key, the key id and the signature. */
  type Wallet = (string, string, string, string) -> Verdict

  function Signed(w: Wallet, p: Proof): Verdict {
    w(Canonical(p.action, p.identityKey, p.expiresAt, p.nonce), p.identityKey, p.nonce, p.signature)
  }

  /** Why a request is refused with 401. */
  datatype Reason =
    | MissingHeader
    | MalformedProof
    | DigestNotHex
    | DigestMissing
    | ActionMismatch
    | Expired
    | TooFarFuture
    | SignatureInvalid
    | AlreadyUsed

  /** Verify, with its errors as the middleware words them; None if the proof holds. */
  function Verify(w: Wallet, p: Proof, expected: string, now: int): Option<Reason> {
    if p.action != expected then Some(ActionMismatch)
    else if UnixMilli(now) >= p.expiresAt then Some(Expired)
    else if p.expiresAt - UnixMilli(now) > UnixMilli(WINDOW + SKEW) then Some(TooFarFuture)
    else if !Signed(w, p).Genuine? then Some(SignatureInvalid)
    else None
  }

  /** A proof that holds has not expired by the nanosecond clock, and expires within window and skew. */
  lemma VerifiedIsFresh(w: Wallet, p: Proof, expected: string, now: int)
    requires Verify(w, p, expected, now) == None
    ensures now < FromMilli(p.expiresAt) <= now + WINDOW + SKEW
  {
  }

  /** Sign: the expiry is fixed when the proof is made. */
  function Sign(sign: string -> string, identityKey: string, action: string, nonce: string, now: int): Proof {
    var expiresAt := UnixMilli(now + WINDOW);
    Proof(action, identityKey, expiresAt, nonce, sign(Canonical(action, identityKey, expiresAt, nonce)))
  }

  lemma MilliOfWindow(t: int)
    ensures UnixMilli(t + WINDOW) == UnixMilli(t) + 120_000
    ensures UnixMilli(WINDOW) == 120_000 && UnixMilli(SKEW) == 30_000 && UnixMilli(WINDOW + SKEW) == 150_000
  {
  }

  /**
   * A genuine proof signed by the client's clock is accepted by the server's clock exactly from
   * one skew before to one window after the signing, in whole milliseconds.
   */
  lemma SignedProofHolds(
      w: Wallet, sign: string -> string, key: string, action: string, nonce: string, signedAt: int, now: int)
    requires Signed(w, Sign(sign, key, action, nonce, signedAt)).Genuine?
    ensures Verify(w, Sign(sign, key, action, nonce, signedAt), action, now) ==
              if UnixMilli(now) >= UnixMilli(signedAt) + UnixMilli(WINDOW) then Some(Expired)
              else if UnixMilli(now) + UnixMilli(SKEW) < UnixMilli(signedAt) then Some(TooFarFuture)
              else None
  {
    MilliOfWindow(signedAt);
  }

  // ---- The middleware --------------------------------------------------------------------------------

  /** base64 and JSON, not modelled: any function from header values to proofs. */
  type Decoder = string -> Option<Proof>

  predicate Complete(p: Proof) {
    p.action != "" && p.identityKey != "" && p.nonce != "" && p.signature != ""
  }

  /** The wallet accepts whatever `sign` makes of any bytes, as that key's, and knows the account by it. */
  ghost predicate Trusts(w: Wallet, identityKey: string, sign: string -> string, account: string) {
    forall bytes, nonce :: w(bytes, identityKey, nonce, sign(bytes)) == Genuine(account)
  }

  /** A signature is good for one byte string only. */
  ghost predicate SignsOneText(w: Wallet) {
    forall b, k, n, b', k', n', signature ::
      w(b, k, n, signature).Genuine? && w(b', k', n', signature).Genuine? ==> b == b'
  }

  /** The signature covers every field: of two genuine single-line proofs with one signature all fields agree. */
  lemma SignatureCoversAll(w: Wallet, p: Proof, q: Proof)
    requires SignsOneText(w) && Signed(w, p).Genuine? && Signed(w, q).Genuine? && p.signature == q.signature
    requires '\n' !in p.action && '\n' !in p.identityKey && '\n' !in q.action && '\n' !in q.identityKey
    ensures p == q
  {
    CanonicalInjective(p.action, p.identityKey, p.expiresAt, p.nonce, q.action, q.identityKey, q.expiresAt, q.nonce);
  }

  datatype Incoming = Incoming(method': string, uri: string, header: string)

  datatype Judgement = Rejected(reason: Reason) | Sound(proof: Proof, digest: string)

  /** Everything that is checked before the nonce is looked at. */
  function Judge(w: Wallet, decode: Decoder, r: Incoming, now: int): Judgement {
    if r.header == "" then Rejected(MissingHeader)
    else
      var decoded := decode(r.header);
      if decoded.None? || !Complete(decoded.value) then Rejected(MalformedProof)
      else
        var p := decoded.value;
        match CheckAction(r.method', r.uri, p.action)
        case BadDigest => Rejected(DigestNotHex)
        case MissingDigest => Rejected(DigestMissing)
        case Mismatch => Rejected(ActionMismatch)
        case Fits(digest) =>
          var refusal := Verify(w, p, p.action, now);
          if refusal.Some? then Rejected(refusal.value) else Sound(p, digest)
  }

  /** A proof is sound for a request exactly when all of this holds of it. */
  ghost predicate ProvesRequest(w: Wallet, p: Proof, digest: string, r: Incoming, now: int) {
    && p.action != "" && p.identityKey != "" && p.nonce != "" && p.signature != ""
    && p.action == Action(r.method', r.uri, digest) && DigestShape(digest) && (r.method' == "POST" ==> digest != "")
    && UnixMilli(now) < p.expiresAt <= UnixMilli(now) + UnixMilli(WINDOW + SKEW)
    && Signed(w, p).Genuine?
  }

  lemma SoundExactly(w: Wallet, decode: Decoder, r: Incoming, now: int, p: Proof, digest: string)
    requires RequestLine(r.method', r.uri)
    ensures Judge(w, decode, r, now) == Sound(p, digest) <==>
              r.header != "" && decode(r.header) == Some(p) && ProvesRequest(w, p, digest, r, now)
  {
    FitsExactly(r.method', r.uri, p.action, digest);
    FitsExactly(r.method', r.uri, p.action, BodySha256(p.action));
    var check := CheckAction(r.method', r.uri, p.action);
    assert check.Fits? ==> check.digest == BodySha256(p.action);
  }

  /** From one skew before to one window after its signing, by the server's clock, in whole milliseconds. */
  predicate InWindow(signedAt: int, now: int) {
    UnixMilli(signedAt) - 30_000 <= UnixMilli(now) < UnixMilli(signedAt) + 120_000
  }

  /** What an honest client signs for its request holds for it, in its account, all through the window. */
  lemma HonestProofIsSound(
      w: Wallet, decode: Decoder, r: Incoming, digest: string, key: string, sign: string -> string, account: string,
      nonce: string, signedAt: int, now: int)
    requires RequestLine(r.method', r.uri) && DigestShape(digest) && (r.method' == "POST" ==> digest != "")
    requires Trusts(w, key, sign, account) && key != "" && nonce != "" && forall bytes :: sign(bytes) != ""
    requires r.header != "" && InWindow(signedAt, now)
    requires decode(r.header) == Some(Sign(sign, key, Action(r.method', r.uri, digest), nonce, signedAt))
    ensures var p := Sign(sign, key, Action(r.method', r.uri, digest), nonce, signedAt);
            Judge(w, decode, r, now) == Sound(p, digest) && Signed(w, p) == Genuine(account)
  {
    var p := Sign(sign, key, Action(r.method', r.uri, digest), nonce, signedAt);
    MilliOfWindow(signedAt);
    SoundExactly(w, decode, r, now, p, digest);
    assert p.action != "";
  }

  /** The first of the checks that a request fails, each said on its own; otherwise its proof is sound. */
  lemma FirstFailureExactly(w: Wallet, decode: Decoder, r: Incoming, now: int)
    ensures var judged := Judge(w, decode, r, now);
            if r.header == "" then judged == Rejected(MissingHeader)
            else if decode(r.header).None? then judged == Rejected(MalformedProof)
            else
              var p := decode(r.header).value;
              var digest := BodySha256(p.action);
              if p.action == "" || p.identityKey == "" || p.nonce == "" || p.signature == ""
              then judged == Rejected(MalformedProof)
              else if digest != "" && !HexDigest(digest) then judged == Rejected(DigestNotHex)
              else if r.method' == "POST" && digest == "" then judged == Rejected(DigestMissing)
              else if p.action != Action(r.method', r.uri, digest) then judged == Rejected(ActionMismatch)
              else if UnixMilli(now) >= p.expiresAt then judged == Rejected(Expired)
              else if p.expiresAt > UnixMilli(now) + 150_000 then judged == Rejected(TooFarFuture)
              else if !Signed(w, p).Genuine? then judged == Rejected(SignatureInvalid)
              else judged == Sound(p, digest)
  {
    MilliOfWindow(0);
  }

  /** A proof is good for one request line and one body digest, whenever it is presented. */
  lemma OneRequestPerProof(w: Wallet, decode: Decoder, r: Incoming, t: int, r': Incoming, t': int)
    requires RequestLine(r.method', r.uri) && RequestLine(r'.method', r'.uri)
    requires Judge(w, decode, r, t).Sound? && Judge(w, decode, r', t').Sound?
    requires Judge(w, decode, r, t).proof == Judge(w, decode, r', t').proof
    ensures r.method' == r'.method' && r.uri == r'.uri
    ensures Judge(w, decode, r, t).digest == Judge(w, decode, r', t').digest
  {
    var one, two := Judge(w, decode, r, t), Judge(w, decode, r', t');
    SoundExactly(w, decode, r, t, one.proof, one.digest);
    SoundExactly(w, decode, r', t', two.proof, two.digest);
    ActionInjective(r.method', r.uri, one.digest, r'.method', r'.uri, two.digest);
  }

  datatype Reply = Refused(reason: Reason) | Admitted(account: string, digest: string)

  /** What the middleware does to the nonces and answers, given the two clock readings. */
  function Authenticated(
      seen: Records, w: Wallet, decode: Decoder, r: Incoming, verifiedAt: int, consumedAt: int): (Records, Reply)
  {
    match Judge(w, decode, r, verifiedAt)
    case Rejected(reason) => (seen, Refused(reason))
    case Sound(p, digest) =>
      var (records, unused) := Insert(Swept(seen, consumedAt), Call(p.nonce, FromMilli(p.expiresAt), consumedAt));
      (records, if unused then Admitted(Signed(w, p).account, digest) else Refused(AlreadyUsed))
  }

  /**
   * A request is admitted exactly if its proof holds and its nonce is not on record, and only then
   * is a nonce recorded; a request refused for any other reason leaves the records as they were.
   */
  lemma AdmittedExactly(
      seen: Records, w: Wallet, decode: Decoder, r: Incoming, verifiedAt: int, consumedAt: int, p: Proof, digest: string)
    requires RequestLine(r.method', r.uri) && decode(r.header) == Some(p)
    ensures var (records, reply) := Authenticated(seen, w, decode, r, verifiedAt, consumedAt);
            && (reply.Admitted? && reply.digest == digest <==>
                  r.header != "" && ProvesRequest(w, p, digest, r, verifiedAt) && p.nonce !in Swept(seen, consumedAt))
            && (reply.Admitted? ==> reply.account == Signed(w, p).account)
            && (forall n :: n in records && n !in seen ==> reply.Admitted? && n == p.nonce)
            && (!reply.Admitted? && reply.reason != AlreadyUsed ==> records == seen)
  {
    SoundExactly(w, decode, r, verifiedAt, p, digest);
  }

  /** The ordered checks of the middleware before it looks at the nonce. */
  method Check(w: Wallet, decode: Decoder, r: Incoming, verifiedAt: int) returns (judged: Judgement)
    ensures judged == Judge(w, decode, r, verifiedAt)
  {
    if r.header == "" {
      return Rejected(MissingHeader);
    }
    var decoded := decode(r.header);
    if decoded.None? || !Complete(decoded.value) {
      return Rejected(MalformedProof);
    }
    var proof := decoded.value;
    var digest := BodySha256(proof.action);
    if digest != "" && !HexDigest(digest) {
      return Rejected(DigestNotHex);
    }
    if r.method' == "POST" && digest == "" {
      return Rejected(DigestMissing);
    }
    var expected := Action(r.method', r.uri, digest);
    var refusal := Verify(w, proof, expected, verifiedAt);
    if refusal.Some? {
      return Rejected(refusal.value);
    }
    return Sound(proof, digest);
  }

  /** AuthProof with the in-memory nonce store. Verify and Consume read the clock separately. */
  method Authenticate(nonces: MemoryNonces, w: Wallet, decode: Decoder, r: Incoming, verifiedAt: int, consumedAt: int)
    returns (reply: Reply)
    modifies nonces
    ensures (nonces.seen, reply) == Authenticated(old(nonces.seen), w, decode, r, verifiedAt, consumedAt)
  {
    var judged := Check(w, decode, r, verifiedAt);
    if judged.Rejected? {
      return Refused(judged.reason);
    }
    var unused := nonces.Consume(judged.proof.nonce, FromMilli(judged.proof.expiresAt), consumedAt);
    if !unused {
      return Refused(AlreadyUsed);
    }
    return Admitted(Signed(w, judged.proof).account, judged.digest);
  }

  /** The same with the PostgreSQL nonce store; None is a 500, when that store fails. */
  function AuthenticatedPersistently(
      table: Records, w: Wallet, decode: Decoder, r: Incoming, verifiedAt: int, consumedAt: int, luck: Luck)
    : (Records, Option<Reply>)
  {
    match Judge(w, decode, r, verifiedAt)
    case Rejected(reason) => (table, Some(Refused(reason)))
    case Sound(p, digest) =>
      var (records, unused) := Consumed(table, Call(p.nonce, FromMilli(p.expiresAt), consumedAt), luck);
      (records, match unused
                case None => None
                case Some(true) => Some(Admitted(Signed(w, p).account, digest))
                case Some(false) => Some(Refused(AlreadyUsed)))
  }

  method AuthenticatePersistently(
      nonces: PostgresNonces, w: Wallet, decode: Decoder, r: Incoming, verifiedAt: int, consumedAt: int, luck: Luck)
    returns (reply: Option<Reply>)
    requires luck.die < SWEEP_ODDS
    modifies nonces
    ensures (nonces.table, reply) ==
              AuthenticatedPersistently(old(nonces.table), w, decode, r, verifiedAt, consumedAt, luck)
  {
    var judged := Check(w, decode, r, verifiedAt);
    if judged.Rejected? {
      return Some(Refused(judged.reason));
    }
    var unused := nonces.Consume(judged.proof.nonce, FromMilli(judged.proof.expiresAt), consumedAt, luck);
    if unused.None? {
      return None;
    }
    if !unused.value {
      return Some(Refused(AlreadyUsed));
    }
    return Some(Admitted(Signed(w, judged.proof).account, judged.digest));
  }

  /**
   * With that store a request is admitted exactly if its proof holds, its nonce is not on record, but
   * for records just swept as expired, and no statement fails; it is a 500 only if one does; and
   * nothing but the request's own nonce is ever recorded, by an admission or a failure that landed.
   */
  lemma AdmittedPersistently(
      table: Records, w: Wallet, decode: Decoder, r: Incoming, verifiedAt: int, consumedAt: int, luck: Luck,
      p: Proof, digest: string)
    requires RequestLine(r.method', r.uri) && decode(r.header) == Some(p)
    ensures var (records, reply) := AuthenticatedPersistently(table, w, decode, r, verifiedAt, consumedAt, luck);
            var swept := if luck.die == 0 then Swept(table, consumedAt) else table;
            var fails := luck.insertFails || (luck.die == 0 && luck.sweepFails);
            var admitted := reply.Some? && reply.value.Admitted?;
            && (admitted && reply.value.digest == digest <==>
                  && r.header != "" && ProvesRequest(w, p, digest, r, verifiedAt)
                  && p.nonce !in swept && !fails)
            && (admitted ==> reply.value.account == Signed(w, p).account && p.nonce in records)
            && (reply == None ==> fails)
            && (forall n :: n in records && n !in table ==> n == p.nonce && (admitted || (reply == None && luck.landed)))
  {
    SoundExactly(w, decode, r, verifiedAt, p, digest);
  }

  // ---- What the client can tell from a refusal -----------------------------------------------------

  const STATUS_UNAUTHORIZED := 401
  const AUTH_REQUIRED := "ERR_AUTH_REQUIRED"
  const USED := "proof already used"

  const REQUIRED := "Authentication required: "

  function Detail(reason: Reason): string {
    match reason
    case MissingHeader => "missing X-Bsv-Auth header."
    case MalformedProof => "proof is malformed."
    case DigestNotHex => "body digest is not a sha256 hex."
    case DigestMissing => "an upload proof must bind the body digest."
    case ActionMismatch => "proof does not describe this request."
    case Expired => "proof expired."
    case TooFarFuture => "proof expiry too far in the future."
    case SignatureInvalid => "proof signature invalid."
    case AlreadyUsed => "proof already used."
  }

  function Text(reason: Reason): string {
    REQUIRED + Detail(reason)
  }

  ghost predicate Contains(s: string, t: string) {
    exists i: nat :: OccursAt(s, t, i)
  }

  /** An 'l' followed by an 'r', as in "already". */
  predicate LrAt(s: string, i: nat) {
    i + 1 < |s| && s[i] == 'l' && s[i + 1] == 'r'
  }

  lemma UsedNeedsLr(s: string, i: nat)
    requires OccursAt(s, USED, i)
    ensures LrAt(s, i + 7)
  {
    assert s[i + 7] == s[i..i + |USED|][7];
    assert s[i + 8] == s[i..i + |USED|][8];
  }

  lemma NoOtherLr(reason: Reason, i: nat)
    requires !reason.AlreadyUsed?
    ensures !LrAt(Text(reason), i)
  {
    DetailHasNoLr(reason, i - |REQUIRED|);
    assert i < |REQUIRED| ==> REQUIRED[i] != 'l';
  }

  lemma DetailHasNoLr(reason: Reason, i: int)
    requires !reason.AlreadyUsed?
    ensures i >= 0 ==> !LrAt(Detail(reason), i)
  {
    if reason.MissingHeader? || reason.MalformedProof? || reason.DigestNotHex? {
      EarlyDetails(reason, i);
    } else if reason.DigestMissing? {
      DigestDetail(i);
    } else {
      VerifyDetails(reason, i);
    }
  }

  lemma EarlyDetails(reason: Reason, i: int)
    requires reason.MissingHeader? || reason.MalformedProof? || reason.DigestNotHex?
    ensures i >= 0 ==> !LrAt(Detail(reason), i)
  {
  }

  lemma DigestDetail(i: int)
    ensures i >= 0 ==> !LrAt(Detail(DigestMissing), i)
  {
  }

  lemma VerifyDetails(reason: Reason, i: int)
    requires reason.ActionMismatch? || reason.Expired? || reason.TooFarFuture? || reason.SignatureInvalid?
    ensures i >= 0 ==> !LrAt(Detail(reason), i)
  {
  }

  /** The words the client looks for occur in the replay refusal and in no other. */
  lemma OnlyReplaysSayUsed(reason: Reason)
    ensures Contains(Text(reason), USED) <==> reason == AlreadyUsed
  {
    if reason == AlreadyUsed {
      assert Text(reason)[|REQUIRED|..|REQUIRED| + |USED|] == USED;
      assert OccursAt(Text(reason), USED, |REQUIRED|);
    } else {
      forall i: nat ensures !OccursAt(Text(reason), USED, i) {
        if OccursAt(Text(reason), USED, i) {
          NoOtherLr(reason, i + 7);
          UsedNeedsLr(Text(reason), i);
        }
      }
    }
  }
}
