/** The strings that carry meaning: the signed action, the signed bytes, and the memory store's row keys. */
module Encodings {
  import opened BlobKeys
  import opened Decimal

  // ---- Splitting at a separator --------------------------------------------------------------------

  /** Text up to the first separator is determined if it cannot contain the separator. */
  lemma SplitUnique(a: string, x: string, b: string, y: string, sep: char)
    requires sep !in a && sep !in b && a + [sep] + x == b + [sep] + y
    ensures a == b && x == y
  {
    var s, t := a + [sep] + x, b + [sep] + y;
    assert s[|a|] == sep && t[|b|] == sep;
    assert s[..|a|] == a && t[..|b|] == b;
    assert s[|a| + 1..] == x && t[|b| + 1..] == y;
  }

  // ---- The memory store's row keys -----------------------------------------------------------------

  const NUL: char := '\0'

  function RowKey(k: BlobKey): string {
    k.pseudonym + [NUL] + (k.device + [NUL] + (Dec(k.generation) + [NUL] + Dec(k.seqNo)))
  }

  predicate NulFree(k: BlobKey) {
    NUL !in k.pseudonym && NUL !in k.device
  }

  lemma RowKeyNuls(k: BlobKey)
    ensures multiset(RowKey(k))[NUL] == 3 + multiset(k.pseudonym)[NUL] + multiset(k.device)[NUL]
  {
    DecFreeOf(k.generation, NUL);
    DecFreeOf(k.seqNo, NUL);
    assert NUL !in multiset(Dec(k.generation)) && NUL !in multiset(Dec(k.seqNo));
  }

  /** The row key of a NUL-free address is no other address's, whatever that address contains. */
  lemma RowKeyInjective(a: BlobKey, b: BlobKey)
    requires NulFree(a) && RowKey(a) == RowKey(b)
    ensures a == b
  {
    RowKeyNuls(a);
    RowKeyNuls(b);
    assert NUL !in multiset(a.pseudonym) && NUL !in multiset(a.device);
    assert NUL !in multiset(b.pseudonym) && NUL !in multiset(b.device);
    SplitUnique(a.pseudonym, a.device + [NUL] + (Dec(a.generation) + [NUL] + Dec(a.seqNo)),
                b.pseudonym, b.device + [NUL] + (Dec(b.generation) + [NUL] + Dec(b.seqNo)), NUL);
    SplitUnique(a.device, Dec(a.generation) + [NUL] + Dec(a.seqNo),
                b.device, Dec(b.generation) + [NUL] + Dec(b.seqNo), NUL);
    DecFreeOf(a.generation, NUL);
    DecFreeOf(b.generation, NUL);
    SplitUnique(Dec(a.generation), Dec(a.seqNo), Dec(b.generation), Dec(b.seqNo), NUL);
    DecInjective(a.generation, b.generation);
    DecInjective(a.seqNo, b.seqNo);
  }

  lemma Regroup(nul: string, device: string, rest: string)
    requires nul == [NUL]
    ensures nul + [NUL] + (device + [NUL] + rest) == "" + [NUL] + ((nul + device) + [NUL] + rest)
  {
    assert (nul + device) + [NUL] + rest == nul + (device + [NUL] + rest);
  }

  /** With NULs allowed, for every device there are different addresses that share a row key. */
  lemma NulKeysCollide(device: string, generation: int, seqNo: int)
    ensures var a, b := BlobKey([NUL], device, generation, seqNo), BlobKey("", [NUL] + device, generation, seqNo);
            a != b && RowKey(a) == RowKey(b)
  {
    var numbers := Dec(generation) + [NUL] + Dec(seqNo);
    Regroup([NUL], device, numbers);
  }

  /** The key Manifest groups by. */
  function GroupKey(device: string, generation: int): string {
    device + [NUL] + Dec(generation)
  }

  lemma GroupKeyInjective(d: string, g: int, e: string, h: int)
    requires NUL !in d && NUL !in e && GroupKey(d, g) == GroupKey(e, h)
    ensures d == e && g == h
  {
    SplitUnique(d, Dec(g), e, Dec(h), NUL);
    DecInjective(g, h);
  }

  predicate IsHex(c: char) {
    '0' <= c <= '9' || 'a' <= c <= 'f'
  }

  lemma HexDigits(s: string)
    ensures (forall i :: 0 <= i < |s| ==> IsHex(s[i])) <==> forall c :: c in s ==> c in "0123456789abcdef"
  {
    assert forall c :: IsHex(c) <==> c in "0123456789abcdef";
    assert forall i :: 0 <= i < |s| ==> s[i] in s;
  }

  /** 32 lowercase hex characters: the only device ids the handlers let through. */
  predicate ValidDeviceId(raw: string) {
    |raw| == 32 && forall i :: 0 <= i < |raw| ==> IsHex(raw[i])
  }

  /** A key built by the Append handler: hex pseudonym, valid device id, positive numbers. */
  lemma HandlerKeysAreNulFree(k: BlobKey)
    requires ValidDeviceId(k.device) && forall i :: 0 <= i < |k.pseudonym| ==> IsHex(k.pseudonym[i])
    ensures NulFree(k)
  {
  }

  // ---- Actions ---------------------------------------------------------------------------------------

  const DIGEST_TAG: string := " sha256="

  function Action(method': string, uri: string, digest: string): string {
    if digest == "" then method' + " " + uri else method' + " " + uri + DIGEST_TAG + digest
  }

  predicate OccursAt(s: string, t: string, i: nat) {
    i + |t| <= |s| && s[i..i + |t|] == t
  }

  /** strings.LastIndex, searching at or below i. */
  function LastIndexFrom(s: string, t: string, i: nat): (at: int)
    ensures at >= 0 ==> OccursAt(s, t, at)
  {
    if OccursAt(s, t, i) then i else if i == 0 then -1 else LastIndexFrom(s, t, i - 1)
  }

  lemma {:induction false} LastIndexIs(s: string, t: string, i: nat, at: int)
    requires -1 <= at <= i
    requires at >= 0 ==> OccursAt(s, t, at)
    requires forall j :: at < j <= i ==> !OccursAt(s, t, j)
    ensures LastIndexFrom(s, t, i) == at
    decreases i
  {
    if at < i {
      assert !OccursAt(s, t, i);
      if i > 0 {
        LastIndexIs(s, t, i - 1, at);
      }
    }
  }

  function BodySha256(action: string): string {
    var i := LastIndexFrom(action, DIGEST_TAG, |action|);
    if i < 0 then "" else action[i + |DIGEST_TAG|..]
  }

  predicate SpaceFree(s: string) {
    ' ' !in s
  }

  /** Section 3.2 of RFC 9112: a request line has no spaces in its parts; origin-form targets start with '/'. */
  predicate RequestLine(method': string, uri: string) {
    SpaceFree(method') && SpaceFree(uri) && uri != "" && uri[0] == '/'
  }

  predicate HexDigest(d: string) {
    |d| == 64 && forall i :: 0 <= i < |d| ==> IsHex(d[i])
  }

  predicate DigestShape(d: string) {
    d == "" || HexDigest(d)
  }

  /** The digest tag starts with a space, so it can only occur where a space is. */
  lemma TagNeedsSpace(s: string, i: nat)
    requires OccursAt(s, DIGEST_TAG, i)
    ensures s[i] == ' ' && s[i + 1] == 's'
  {
    assert s[i..i + |DIGEST_TAG|][0] == DIGEST_TAG[0];
    assert s[i..i + |DIGEST_TAG|][1] == DIGEST_TAG[1];
  }

  /** The middleware reads back exactly the digest the client signed. */
  lemma BodySha256Inverts(method': string, uri: string, digest: string)
    requires RequestLine(method', uri) && DigestShape(digest)
    ensures BodySha256(Action(method', uri, digest)) == digest
  {
    var a := Action(method', uri, digest);
    var head := method' + " " + uri;
    if digest == "" {
      forall j: nat | j <= |a| ensures !OccursAt(a, DIGEST_TAG, j) {
        if OccursAt(a, DIGEST_TAG, j) {
          TagNeedsSpace(a, j);
          HeadSpaces(method', uri, j);
        }
      }
      LastIndexIs(a, DIGEST_TAG, |a|, -1);
    } else {
      assert a[|head|..|head| + |DIGEST_TAG|] == DIGEST_TAG;
      forall j | |head| < j <= |a| ensures !OccursAt(a, DIGEST_TAG, j) {
        if OccursAt(a, DIGEST_TAG, j) {
          TagNeedsSpace(a, j);
        }
      }
      LastIndexIs(a, DIGEST_TAG, |a|, |head|);
    }
  }

  /** The only space in a request line is the one before the target, which starts with '/'. */
  lemma HeadSpaces(method': string, uri: string, j: nat)
    requires RequestLine(method', uri) && j < |method'| + 1 + |uri|
    ensures var head := method' + " " + uri;
            head[j] == ' ' ==> j == |method'| && head[j + 1] == '/'
  {
  }

  /** One action, one request: method, target and digest can all be read off it. */
  lemma ActionInjective(m: string, u: string, d: string, m': string, u': string, d': string)
    requires RequestLine(m, u) && DigestShape(d) && RequestLine(m', u') && DigestShape(d')
    requires Action(m, u, d) == Action(m', u', d')
    ensures m == m' && u == u' && d == d'
  {
    BodySha256Inverts(m, u, d);
    BodySha256Inverts(m', u', d');
    var tail := if d == "" then "" else DIGEST_TAG + d;
    assert Action(m, u, d) == m + [' '] + (u + tail);
    assert Action(m', u', d') == m' + [' '] + (u' + tail);
    SplitUnique(m, u + tail, m', u' + tail, ' ');
    assert (u + tail)[..|u|] == u && (u' + tail)[..|u'|] == u';
  }

  /** What the middleware makes of a proof's action for a request, before it looks at the signature. */
  datatype ActionCheck = BadDigest | MissingDigest | Mismatch | Fits(digest: string)

  function CheckAction(method': string, uri: string, action: string): ActionCheck {
    var digest := BodySha256(action);
    if digest != "" && !HexDigest(digest) then BadDigest
    else if method' == "POST" && digest == "" then MissingDigest
    else if action != Action(method', uri, digest) then Mismatch
    else Fits(digest)
  }

  /**
   * A proof fits a request exactly when it signed that very method and target, with a well-formed
   * digest, which an upload cannot go without; and the digest it is held to is the one it signed.
   */
  lemma FitsExactly(method': string, uri: string, action: string, digest: string)
    requires RequestLine(method', uri)
    ensures CheckAction(method', uri, action) == Fits(digest) <==>
              action == Action(method', uri, digest) && DigestShape(digest) && (method' == "POST" ==> digest != "")
  {
    if action == Action(method', uri, digest) && DigestShape(digest) {
      BodySha256Inverts(method', uri, digest);
    }
  }

  // ---- The signed bytes ------------------------------------------------------------------------------

  function Canonical(action: string, identityKey: string, expiresAt: int, nonce: string): string {
    action + "\n" + (identityKey + "\n" + (Dec(expiresAt) + "\n" + nonce))
  }

  /** The signature covers each of the four fields, provided the first two are single lines. */
  lemma CanonicalInjective(a: string, k: string, e: int, n: string, a': string, k': string, e': int, n': string)
    requires '\n' !in a && '\n' !in k && '\n' !in a' && '\n' !in k'
    requires Canonical(a, k, e, n) == Canonical(a', k', e', n')
    ensures a == a' && k == k' && e == e' && n == n'
  {
    SplitUnique(a, k + "\n" + (Dec(e) + "\n" + n), a', k' + "\n" + (Dec(e') + "\n" + n'), '\n');
    SplitUnique(k, Dec(e) + "\n" + n, k', Dec(e') + "\n" + n', '\n');
    DecFreeOf(e, '\n');
    DecFreeOf(e', '\n');
    SplitUnique(Dec(e), n, Dec(e'), n', '\n');
    DecInjective(e, e');
  }
}
