/** Known answers: the constants and the texts that both ends of the wire have to agree on, spelled out. */
module KnownAnswers {
  import opened Base
  import opened BlobKeys
  import opened Decimal
  import opened Encodings
  import opened NonceStores
  import opened AuthProof
  import opened PostgresModel
  import ResponseGuard
  import Sorting
  import Client

  /** Two minutes and half a minute, of nanoseconds; a chunk is 2^20 bytes, a parameter at most 2^30. */
  lemma Constants()
    ensures WINDOW == 120_000_000_000 && SKEW == 30_000_000_000
    ensures UnixMilli(1_999_999) == 1 && FromMilli(3) == 3_000_000
    ensures CHUNK_BYTES == 1048576 && PARAM_MAX == 1073741824 && SWEEP_ODDS == 64
    ensures RETAINED_GENERATIONS == 2 && ResponseGuard.STATUS_TOO_LARGE == 413 && ResponseGuard.STATUS_OK == 200
  {
  }

  /** The action of an upload, and of a request without a body; then the bytes that are signed. */
  lemma SignedTexts()
    ensures Action("POST", "/v1/log/d?seq=1", "ab") == "POST /v1/log/d?seq=1 sha256=ab"
    ensures Action("GET", "/v1/manifest", "") == "GET /v1/manifest"
  {
  }

  lemma SignedBytes()
    ensures Canonical("GET /x", "02ab", -12, "n") == "GET /x\n02ab\n-12\nn"
  {
    SmallNumbers();
  }

  lemma SmallNumbers()
    ensures Dec(7) == "7" && Dec(12) == "12" && Dec(-12) == "-12"
  {
    assert Digits(1) == "1" && Digits(12) == Digits(1) + "2";
  }

  lemma Values()
    ensures AllDigits("12") && Value("12") == 12 && AllDigits("012") && Value("012") == 12
    ensures AllDigits("0") && Value("0") == 0
  {
    SmallNumbers();
    ValueOfDigits(12);
    LeadingZero("12");
    assert "0" + "12" == "012";
    ValueOfDigits(0);
    assert Digits(0) == "0";
  }

  /** Digits are read in base ten, with or without sign and leading zeros, up to 2^30. */
  lemma Numbers()
    ensures Atoi("12") == Some(12) && Atoi("+12") == Some(12) && Atoi("-12") == Some(-12) && Atoi("012") == Some(12)
    ensures Atoi("") == None && Atoi("-") == None && Atoi("1x") == None
  {
    Values();
    AtoiExactly("12");
    AtoiExactly("012");
    assert "+" + "12" == "+12" && "-" + "12" == "-12";
    assert !IsDigit("1x"[1]);
  }

  /** A path segment takes digits only, and no zero. */
  lemma PathNumbers()
    ensures PathInt("12") == Some(12) && PathInt("012") == Some(12)
    ensures PathInt("+12") == None && PathInt("0") == None && PathInt("") == None
  {
    Values();
    assert !IsDigit("+12"[0]);
  }

  /** The first character that differs decides, and a prefix comes first. */
  lemma Order()
    ensures Sorting.StringLess("a", "b") && !Sorting.StringLess("b", "a")
    ensures Sorting.StringLess("a", "ab") && !Sorting.StringLess("ab", "a")
    ensures Sorting.StringLess("0f", "10")
  {
  }

  /** The target of an upload, for escapings that leave these texts alone. */
  lemma Targets(path: string -> string, query: string -> string)
    requires path("d") == "d" && query("ff") == "ff"
    ensures Client.AppendUri(Client.Slot("d", 12, 7, ""), path, query) == "/v1/log/d?seq=7&generation=12"
    ensures Client.AppendUri(Client.Slot("d", 12, 7, "ff"), path, query) ==
              "/v1/log/d?seq=7&generation=12" + "&prevSha256=ff"
  {
    SmallNumbers();
  }

  /** The refusals, word for word. */
  lemma Refusals()
    ensures Text(MissingHeader) == REQUIRED + "missing X-Bsv-Auth header."
    ensures Text(MalformedProof) == REQUIRED + "proof is malformed."
    ensures Text(DigestNotHex) == REQUIRED + "body digest is not a sha256 hex."
    ensures Text(DigestMissing) == REQUIRED + "an upload proof must bind the body digest."
    ensures Text(ActionMismatch) == REQUIRED + "proof does not describe this request."
    ensures Text(Expired) == REQUIRED + "proof expired."
    ensures Text(TooFarFuture) == REQUIRED + "proof expiry too far in the future."
    ensures Text(SignatureInvalid) == REQUIRED + "proof signature invalid."
    ensures Text(AlreadyUsed) == REQUIRED + "proof already used."
    ensures REQUIRED == "Authentication required: " && AUTH_REQUIRED == "ERR_AUTH_REQUIRED"
    ensures STATUS_UNAUTHORIZED == 401 && USED == "proof already used"
  {
  }

  lemma DeviceIds(device: string)
    ensures ValidDeviceId(device) <==> |device| == 32 && forall c :: c in device ==> c in "0123456789abcdef"
    ensures HexDigest(device) <==> |device| == 64 && forall c :: c in device ==> c in "0123456789abcdef"
  {
    HexDigits(device);
  }
}
