/**
 * Base-10 rendering and parsing of 64-bit signed integers, as Go's `fmt`
 * verb `%d` and `strconv.ParseInt(s, 10, 64)` do them. The relay uses the
 * parser to read its configured user ID and the renderer to name uploaded
 * objects after a nanosecond timestamp.
 */
module Decimal {
  import opened Wrappers

  const Pow63: int := 0x8000_0000_0000_0000
  const MaxUint64: int := 0xFFFF_FFFF_FFFF_FFFF

  /** Go's `int64`. */
  newtype int64 = x: int | -Pow63 <= x < Pow63

  /** The two reasons `strconv.ParseInt` gives for refusing a string. */
  datatype NumError = ErrSyntax | ErrRange

  predicate IsDigit(c: char) { '0' <= c <= '9' }

  predicate AllDigits(s: string) { forall i :: 0 <= i < |s| ==> IsDigit(s[i]) }

  function DigitChar(d: nat): (c: char)
    requires d < 10
    ensures IsDigit(c) && c as int - '0' as int == d
  {
    ['0', '1', '2', '3', '4', '5', '6', '7', '8', '9'][d]
  }

  /** The value of a string of decimal digits, most significant first. */
  function DigitsValue(s: string): nat
    requires AllDigits(s)
  {
    if s == [] then 0
    else DigitsValue(s[..|s| - 1]) * 10 + (s[|s| - 1] as int - '0' as int)
  }

  /** The length of the run of digits that starts the string. */
  function LeadingDigits(s: string): (k: nat)
    ensures k <= |s| && AllDigits(s[..k])
    ensures k < |s| ==> !IsDigit(s[k])
  {
    if s == [] || !IsDigit(s[0]) then 0
    else
      var k := 1 + LeadingDigits(s[1..]);
      assert s[..k] == [s[0]] + s[1..][..k - 1];
      k
  }

  /** A string of digits is its own leading run of digits. */
  lemma {:induction false} LeadingDigitsOfDigits(s: string)
    ensures AllDigits(s) ==> LeadingDigits(s) == |s|
  {
    if s != [] && AllDigits(s) {
      LeadingDigitsOfDigits(s[1..]);
    }
  }

  /** `strconv.FormatUint(n, 10)`: no sign, no leading zeros. */
  function FormatNat(n: nat): (s: string)
    ensures |s| > 0 && AllDigits(s)
    decreases n
  {
    if n < 10 then [DigitChar(n)] else FormatNat(n / 10) + [DigitChar(n % 10)]
  }

  /** What `%d` prints for a signed integer. */
  function FormatInt(n: int): string
  {
    if n < 0 then "-" + FormatNat(-n) else FormatNat(n)
  }

  /**
   * `strconv.ParseUint(s, 10, 64)`. Digits are consumed left to right; the
   * first one that makes the value exceed 2^64 - 1 gives ErrRange at once,
   * so a string whose leading digits already overflow is a range error even
   * when a non-digit follows them. Any other non-digit, or nothing at all,
   * is a syntax error.
   */
  function ParseUint64(s: string): (r: Result<nat, NumError>)
    ensures r.Success? ==> |s| > 0 && AllDigits(s) && r.value == DigitsValue(s) <= MaxUint64
    ensures |s| > 0 && AllDigits(s) ==>
      r == if DigitsValue(s) <= MaxUint64 then Success(DigitsValue(s)) else Failure(ErrRange)
  {
    if s == [] then Failure(ErrSyntax)
    else
      LeadingDigitsOfDigits(s);
      var k := LeadingDigits(s);
      assert AllDigits(s) ==> s[..k] == s;
      if DigitsValue(s[..k]) > MaxUint64 then Failure(ErrRange)
      else if k < |s| then Failure(ErrSyntax)
      else assert s[..k] == s; Success(DigitsValue(s))
  }

  /** An optional sign followed by at least one decimal digit. */
  predicate SignedDigits(s: string) {
    |s| > 0 && |Unsigned(s)| > 0 && AllDigits(Unsigned(s))
  }

  /** The string without its sign, if it has one. */
  function Unsigned(s: string): string
    requires |s| > 0
  {
    if s[0] == '+' || s[0] == '-' then s[1..] else s
  }

  /** The value an optionally signed digit string denotes. */
  function SignedValue(s: string): int
    requires SignedDigits(s)
  {
    if s[0] == '-' then -(DigitsValue(s[1..]) as int) else DigitsValue(Unsigned(s)) as int
  }

  predicate InInt64Range(x: int) { -Pow63 <= x < Pow63 }

  /**
   * `strconv.ParseInt(s, 10, 64)`: one optional '+' or '-', then what
   * ParseUint64 accepts, then a range check against the signed 64-bit bounds.
   * No base prefix and no underscores are accepted, because the base is 10.
   */
  function ParseInt64(s: string): (r: Result<int64, NumError>)
    ensures r.Success? <==> SignedDigits(s) && InInt64Range(SignedValue(s))
    ensures r.Success? ==> r.value as int == SignedValue(s)
    ensures SignedDigits(s) && !InInt64Range(SignedValue(s)) ==> r == Failure(ErrRange)
  {
    if s == [] then Failure(ErrSyntax)
    else
      var neg := s[0] == '-';
      match ParseUint64(Unsigned(s))
      case Failure(e) => Failure(e)
      case Success(u) =>
        if !neg && u >= Pow63 then Failure(ErrRange)
        else if neg && u > Pow63 then Failure(ErrRange)
        else Success((if neg then -(u as int) else u as int) as int64)
  }

  lemma {:induction false} DigitsValueOfFormat(n: nat)
    ensures DigitsValue(FormatNat(n)) == n
    decreases n
  {
    var s := FormatNat(n);
    if n >= 10 {
      DigitsValueOfFormat(n / 10);
      assert s[..|s| - 1] == FormatNat(n / 10);
    }
  }

  /** Reading back what `%d` printed gives the same 64-bit integer. */
  lemma ParseFormatRoundTrip(n: int64)
    ensures ParseInt64(FormatInt(n as int)) == Success(n)
  {
    var m: nat := if n < 0 then -(n as int) else n as int;
    var digits := FormatNat(m);
    DigitsValueOfFormat(m);
    assert LeadingDigits(digits) == |digits|;
    assert digits[..|digits|] == digits;
    assert ParseUint64(digits) == Success(m);
    var s := FormatInt(n as int);
    if n < 0 {
      assert s[0] == '-' && s[1..] == digits;
    } else {
      assert s == digits && IsDigit(s[0]);
    }
  }

  /** Distinct 64-bit integers print differently. */
  lemma FormatIntInjective(a: int64, b: int64)
    requires a != b
    ensures FormatInt(a as int) != FormatInt(b as int)
  {
    ParseFormatRoundTrip(a);
    ParseFormatRoundTrip(b);
  }
}
