/** Decimal numbers in text: what fmt prints, what strconv.Atoi and parsePathInt read. */
module Decimal {
  import opened Base

  predicate IsDigit(c: char) {
    '0' <= c <= '9'
  }

  predicate AllDigits(s: string) {
    forall i :: 0 <= i < |s| ==> IsDigit(s[i])
  }

  function DigitOf(c: char): nat
    requires IsDigit(c)
  {
    c as int - '0' as int
  }

  function DigitChar(d: nat): (c: char)
    requires d < 10
    ensures IsDigit(c) && DigitOf(c) == d
  {
    ('0' as int + d) as char
  }

  /** %d of a natural number. */
  function Digits(n: nat): string {
    if n < 10 then [DigitChar(n)] else Digits(n / 10) + [DigitChar(n % 10)]
  }

  /** %d of any integer. */
  function Dec(i: int): string {
    if i < 0 then "-" + Digits(-i) else Digits(i)
  }

  /** The number a string of digits stands for. */
  function Value(s: string): nat
    requires AllDigits(s)
  {
    if s == "" then 0 else Value(s[..|s| - 1]) * 10 + DigitOf(s[|s| - 1])
  }

  lemma {:induction false} ValueOfDigits(n: nat)
    ensures Digits(n) != "" && AllDigits(Digits(n)) && Value(Digits(n)) == n
    decreases n
  {
    if n >= 10 {
      ValueOfDigits(n / 10);
      assert Digits(n)[..|Digits(n)| - 1] == Digits(n / 10);
    } else {
      assert Digits(n)[..0] == "";
    }
  }

  /** Printing an integer loses nothing. */
  lemma DecInjective(i: int, j: int)
    requires Dec(i) == Dec(j)
    ensures i == j
  {
    ValueOfDigits(if i < 0 then -i else i);
    ValueOfDigits(if j < 0 then -j else j);
    assert i < 0 <==> Dec(i)[0] == '-';
    assert j < 0 <==> Dec(j)[0] == '-';
    if i < 0 && j < 0 {
      assert Dec(i)[1..] == Digits(-i) && Dec(j)[1..] == Digits(-j);
    }
  }

  /** A separator that is neither a digit nor a minus sign does not occur in a printed number. */
  lemma DecFreeOf(i: int, sep: char)
    requires !IsDigit(sep) && sep != '-'
    ensures sep !in Dec(i)
  {
    ValueOfDigits(if i < 0 then -i else i);
  }

  // ---- parsePathInt ------------------------------------------------------------------------------

  const PARAM_MAX := 0x4000_0000
  const INT64_MAX := 0x7FFF_FFFF_FFFF_FFFF

  /** Go's int on a 64-bit platform; arithmetic on it has to stay in range. */
  newtype Int64 = x: int | -INT64_MAX - 1 <= x <= INT64_MAX

  lemma {:induction false} PrefixValue(s: string, i: nat)
    requires AllDigits(s) && i <= |s|
    ensures Value(s[..i]) <= Value(s)
    decreases |s|
  {
    if i == |s| {
      assert s[..i] == s;
    } else {
      var init := s[..|s| - 1];
      PrefixValue(init, i);
      assert init[..i] == s[..i];
    }
  }

  /** What a path segment says: the non-empty digit strings whose value is in range. */
  function PathInt(raw: string): Option<nat> {
    if raw != "" && AllDigits(raw) && 1 <= Value(raw) <= PARAM_MAX then Some(Value(raw)) else None
  }

  /** The loop reads digit by digit, in 64-bit arithmetic, and gives up before that could overflow. */
  method ParsePathInt(raw: string) returns (n: Int64, ok: bool)
    ensures (if ok then Some(n as int) else None) == PathInt(raw)
    ensures !ok ==> n == 0
  {
    n := 0;
    if raw == "" {
      return 0, false;
    }
    var i := 0;
    while i < |raw|
      invariant 0 <= i <= |raw|
      invariant AllDigits(raw[..i]) && n as int == Value(raw[..i]) <= PARAM_MAX
    {
      var c := raw[i];
      if c < '0' || c > '9' {
        assert !IsDigit(raw[i]);
        return 0, false;
      }
      assert raw[..i + 1][..i] == raw[..i];
      n := n * 10 + DigitOf(c) as Int64;
      i := i + 1;
      if n > PARAM_MAX as Int64 {
        if AllDigits(raw) {
          PrefixValue(raw, i);
        }
        return 0, false;
      }
    }
    assert raw[..i] == raw;
    if n < 1 {
      return 0, false;
    }
    return n, true;
  }

  // ---- strconv.Atoi and the query parameters -------------------------------------------------------

  /** strconv.Atoi: an optional sign, at least one digit, and a value that fits 64 bits. */
  function Atoi(s: string): Option<int> {
    var signed := s != "" && (s[0] == '-' || s[0] == '+');
    var digits := if signed then s[1..] else s;
    if digits == "" || !AllDigits(digits) then None
    else
      var magnitude: int := Value(digits);
      var v := if signed && s[0] == '-' then -magnitude else magnitude;
      if -INT64_MAX - 1 <= v <= INT64_MAX then Some(v) else None
  }

  /** A non-empty string of digits reads as its value, with a sign or without, as long as that fits 64 bits. */
  lemma AtoiExactly(digits: string)
    requires digits != "" && AllDigits(digits)
    ensures Atoi(digits) == Atoi("+" + digits) == if Value(digits) <= INT64_MAX then Some(Value(digits)) else None
    ensures Atoi("-" + digits) == if Value(digits) <= INT64_MAX + 1 then Some(0 - Value(digits)) else None
    ensures Value("0" + digits) == Value(digits)
  {
    assert ("+" + digits)[1..] == digits && ("-" + digits)[1..] == digits;
    assert digits[0] != '+' && digits[0] != '-';
    LeadingZero(digits);
  }

  lemma {:induction false} LeadingZero(digits: string)
    requires AllDigits(digits)
    ensures AllDigits("0" + digits) && Value("0" + digits) == Value(digits)
    decreases |digits|
  {
    if digits == "" {
      assert ("0" + digits)[..0] == "";
    } else {
      var init := digits[..|digits| - 1];
      LeadingZero(init);
      assert ("0" + digits)[..|digits|] == "0" + init;
    }
  }

  /** Nothing else is a number. */
  lemma AtoiRefuses(s: string)
    requires Atoi(s).Some?
    ensures s != ""
    ensures exists digits :: digits != "" && AllDigits(digits) && SignedBy(s, digits)
  {
    var digits := if s[0] == '-' || s[0] == '+' then s[1..] else s;
    assert s == digits || s == [s[0]] + digits;
    assert SignedBy(s, digits);
  }

  predicate SignedBy(s: string, digits: string) {
    s == digits || s == "+" + digits || s == "-" + digits
  }

  function PositiveIntParam(raw: string): Option<nat> {
    match Atoi(raw)
    case None => None
    case Some(v) => if v < 1 || v > PARAM_MAX then None else Some(v)
  }

  /** Printed numbers are read back by both parsers, over exactly the same range. */
  lemma PrintedNumbersParse(v: int)
    ensures PathInt(Dec(v)) == PositiveIntParam(Dec(v)) == if 1 <= v <= PARAM_MAX then Some(v) else None
  {
    ValueOfDigits(if v < 0 then -v else v);
    if v < 0 {
      assert Dec(v)[0] == '-' && Dec(v)[1..] == Digits(-v);
      assert !IsDigit(Dec(v)[0]);
    }
  }

  /**
   * Whatever a query parameter let Append write, however it was spelled, the path routes can
   * address: its printed form is a path segment for that number.
   */
  lemma WritableIsAddressable(raw: string)
    requires PositiveIntParam(raw).Some?
    ensures PathInt(Dec(PositiveIntParam(raw).value)) == PositiveIntParam(raw)
  {
    PrintedNumbersParse(PositiveIntParam(raw).value);
  }
}
