/** Decimal text of 64-bit integers, the form in which a message cursor travels
    (`strconv.FormatInt` and `strconv.ParseInt` in base 10). */
module Decimal {
  import opened Wrappers

  const MIN_INT64: int := -0x8000_0000_0000_0000
  const MAX_INT64: int := 0x7fff_ffff_ffff_ffff

  function FormatNat(n: nat): string {
    (if n < 10 then "" else FormatNat(n / 10)) + [('0' as int + n % 10) as char]
  }

  function FormatInt(n: int): string {
    if n < 0 then "-" + FormatNat(-n) else FormatNat(n)
  }

  function ParseDigits(s: string): Option<nat> {
    if s == [] then Some(0)
    else
      var last := s[|s|-1];
      match ParseDigits(s[..|s|-1])
      case Some(n) => if '0' <= last <= '9' then Some(10 * n + (last as int - '0' as int)) else None
      case None => None
  }

  /** Empty text, a bare sign, a non-digit and a value out of range are errors. */
  function ParseInt(s: string): Option<int> {
    if s == [] then None
    else
      var negative := s[0] == '-';
      var digits := if s[0] == '-' || s[0] == '+' then s[1..] else s;
      if digits == [] then None
      else
        match ParseDigits(digits)
        case None => None
        case Some(n) =>
          var v := if negative then 0 - n else n;
          if MIN_INT64 <= v <= MAX_INT64 then Some(v) else None
  }

  lemma {:induction false} DigitsRoundTrip(n: nat)
    ensures FormatNat(n) != [] && '0' <= FormatNat(n)[0] <= '9'
    ensures ParseDigits(FormatNat(n)) == Some(n)
  {
    var s := FormatNat(n);
    if n >= 10 {
      DigitsRoundTrip(n / 10);
    }
    assert s[..|s|-1] == if n < 10 then "" else FormatNat(n / 10);
  }

  lemma ParseSigned(digits: string, n: nat)
    requires digits != [] && '0' <= digits[0] <= '9' && ParseDigits(digits) == Some(n)
    ensures n <= MAX_INT64 ==> ParseInt(digits) == Some(n)
    ensures n <= -MIN_INT64 ==> ParseInt("-" + digits) == Some(0 - n)
  {
    assert ("-" + digits)[1..] == digits;
  }

  /** A cursor is never empty and parses back to the sequence number it was made from. */
  lemma CursorRoundTrip(n: int)
    requires MIN_INT64 <= n <= MAX_INT64
    ensures FormatInt(n) != ""
    ensures ParseInt(FormatInt(n)) == Some(n)
  {
    var k: nat := if n < 0 then -n else n;
    DigitsRoundTrip(k);
    ParseSigned(FormatNat(k), k);
  }

  // ---------- The notation is decimal ----------

  function Digit(d: nat): char
    requires d < 10
  {
    "0123456789"[d]
  }

  lemma LastDigit(d: nat)
    requires d < 10
    ensures ('0' as int + d) as char == Digit(d)
  {
  }

  lemma FormatIsDecimal(n: nat, d: nat)
    requires d < 10
    ensures FormatNat(d) == [Digit(d)]
    ensures n > 0 ==> FormatNat(10 * n + d) == FormatNat(n) + [Digit(d)]
    ensures FormatInt(n) == FormatNat(n) && (n > 0 ==> FormatInt(0 - n) == "-" + FormatNat(n))
  {
    LastDigit(d);
    assert (10 * n + d) / 10 == n && (10 * n + d) % 10 == d;
  }

  ghost predicate AllDigits(s: string) { forall i :: 0 <= i < |s| ==> '0' <= s[i] <= '9' }

  lemma {:induction false} DigitsParse(s: string)
    ensures ParseDigits(s).Some? <==> AllDigits(s)
  {
    if s != [] {
      DigitsParse(s[..|s|-1]);
    }
  }

  /** Digits whose value is at most `max`. */
  ghost predicate UpTo(digits: string, max: int) {
    digits != "" && AllDigits(digits) && ParseDigits(digits).Some? && ParseDigits(digits).value <= max
  }

  /** What is accepted: digits with at most one sign before them whose value fits 64 bits. */
  lemma AcceptedExactly(s: string)
    ensures ParseInt(s).Some? <==>
              || UpTo(s, 9223372036854775807)
              || (s != "" && s[0] == '+' && UpTo(s[1..], 9223372036854775807))
              || (s != "" && s[0] == '-' && UpTo(s[1..], 9223372036854775808))
  {
    DigitsParse(s);
    if s != "" {
      DigitsParse(s[1..]);
    }
  }

  /** The value of digits, from the left. */
  lemma DigitsValue(s: string, d: nat)
    requires d < 10
    ensures ParseDigits("") == Some(0)
    ensures ParseDigits(s).Some? ==> ParseDigits(s + [Digit(d)]) == Some(10 * ParseDigits(s).value + d)
  {
    assert (s + [Digit(d)])[..|s + [Digit(d)]|-1] == s;
  }
}
