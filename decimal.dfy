/**
  Decimal integers as Go writes and reads them: `fmt.Sprintf("%d", n)` and
  `strconv.ParseInt(s, 10, 64)` (which is also what `strconv.Atoi` does for
  64-bit `int`).
*/
module Decimal {
  import opened Wrappers

  const Int64Min: int := -0x8000_0000_0000_0000
  const Int64Max: int := 0x7FFF_FFFF_FFFF_FFFF

  predicate IsDigit(c: char) {
    '0' <= c <= '9'
  }

  predicate AllDigits(s: string) {
    forall i :: 0 <= i < |s| ==> IsDigit(s[i])
  }

  function DigitChar(d: nat): (c: char)
    requires d < 10
    ensures IsDigit(c)
  {
    (d + '0' as int) as char
  }

  /** The value of a string of decimal digits, most significant first (leading zeros allowed). */
  function DigitsValue(s: string): nat
    requires AllDigits(s)
  {
    if s == [] then 0 else DigitsValue(s[..|s| - 1]) * 10 + (s[|s| - 1] as int - '0' as int)
  }

  /** The decimal digits of `n`; reading them back gives `n`. */
  function FormatNat(n: nat): (r: string)
    ensures r != [] && AllDigits(r)
    ensures DigitsValue(r) == n
  {
    if n < 10 then [DigitChar(n)]
    else
      var prefix := FormatNat(n / 10);
      var r := prefix + [DigitChar(n % 10)];
      assert r[..|r| - 1] == prefix;
      r
  }

  /** `fmt.Sprintf("%d", n)`: a minus sign for negatives, then the digits of the magnitude. */
  function FormatInt(n: int): (r: string)
    ensures r != []
    ensures n >= 0 ==> AllDigits(r) && DigitsValue(r) == n
    ensures n < 0 ==> r[0] == '-' && AllDigits(r[1..]) && DigitsValue(r[1..]) == -n
  {
    if n < 0 then
      var digits := FormatNat(-n);
      assert ("-" + digits)[1..] == digits;
      "-" + digits
    else FormatNat(n)
  }

  /**
    `strconv.ParseInt(s, 10, 64)`: an optional `+` or `-`, then one or more
    decimal digits, and a value that fits in 64 bits; anything else is an
    error (`None`).
  */
  function ParseInt64(s: string): (r: Option<int>)
    ensures r.Some? ==> Int64Min <= r.value <= Int64Max
  {
    var signed := s != [] && (s[0] == '+' || s[0] == '-');
    var digits := if signed then s[1..] else s;
    if digits == [] || !AllDigits(digits) then None
    else
      var magnitude: int := DigitsValue(digits);
      var v: int := if signed && s[0] == '-' then -magnitude else magnitude;
      if Int64Min <= v <= Int64Max then Some(v) else None
  }

  /** Parsing what `%d` prints gives the number back, for every 64-bit value. */
  lemma ParseFormatRoundTrip(n: int)
    requires Int64Min <= n <= Int64Max
    ensures ParseInt64(FormatInt(n)) == Some(n)
  {
    var s := FormatInt(n);
    if n < 0 {
      assert s[1..] == FormatNat(-n);
    }
  }

  /** Distinct integers print differently. */
  lemma FormatIntInjective(a: int, b: int)
    requires FormatInt(a) == FormatInt(b)
    ensures a == b
  {
    var sa, sb := FormatInt(a), FormatInt(b);
    // the first character says the sign: '-' for negatives, a digit otherwise
    if a < 0 { assert sa[0] == '-'; } else { assert IsDigit(sa[0]); }
    if b < 0 { assert sb[0] == '-'; } else { assert IsDigit(sb[0]); }
    if a < 0 {
      assert sa[1..] == FormatNat(-a);
      assert sb[1..] == FormatNat(-b);
    } else {
      assert DigitsValue(FormatNat(a)) == a && DigitsValue(FormatNat(b)) == b;
    }
  }
}
