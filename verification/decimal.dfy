/** Decimal text of integers: what Rust's integer `Display` prints and what
    `str::parse` for an integer type accepts. */
module Decimal {
  import opened Wrappers

  /** Rust's fixed-width integer types used by the source. */
  type U8 = x: int | 0 <= x < 0x100
  type U16 = x: int | 0 <= x < 0x1_0000
  type I32 = x: int | -0x8000_0000 <= x < 0x8000_0000

  predicate IsDigit(c: char) {
    '0' <= c <= '9'
  }

  function DigitValue(c: char): nat
    requires IsDigit(c)
  {
    (c as int) - ('0' as int)
  }

  function DigitChar(d: nat): (c: char)
    requires d < 10
    ensures IsDigit(c) && DigitValue(c) == d
  {
    ('0' as int + d) as char
  }

  predicate AllDigits(s: string) {
    forall i :: 0 <= i < |s| ==> IsDigit(s[i])
  }

  /** The number a string of digits denotes, most significant digit first. */
  function DigitsValue(s: string): nat
    requires AllDigits(s)
  {
    if |s| == 0 then 0 else DigitsValue(s[..|s| - 1]) * 10 + DigitValue(s[|s| - 1])
  }

  /** Canonical decimal of a natural number: digits only, no leading zero. */
  function NatToString(n: nat): (s: string)
    ensures |s| >= 1 && AllDigits(s)
    ensures |s| > 1 ==> s[0] != '0'
  {
    if n < 10 then [DigitChar(n)] else NatToString(n / 10) + [DigitChar(n % 10)]
  }

  /** Rust's `Display` for a signed integer: a '-' only for negative values. */
  function IntToString(i: int): (s: string)
    ensures |s| >= 1
    ensures s[0] == '-' <==> i < 0
    ensures i < 0 ==> s[1..] == NatToString(-i)
    ensures i >= 0 ==> s == NatToString(i)
  {
    if i < 0 then "-" + NatToString(-i) else NatToString(i)
  }

  /** Rust's `bool` `Display`. */
  function BoolToString(b: bool): string {
    if b then "true" else "false"
  }

  /** Rust's `str::parse::<bool>()`: exactly "true" or "false". */
  function ParseBool(s: string): (r: Option<bool>)
    ensures r.Some? <==> s == "true" || s == "false"
    ensures r.Some? ==> BoolToString(r.value) == s
  {
    if s == "true" then Some(true) else if s == "false" then Some(false) else None
  }

  /** Rust's decimal `str::parse` for an integer type whose range is
      [lo, hi]: an optional '+' (or '-' when the type is signed) followed by
      at least one ASCII digit, the value lying in the range. */
  function ParseInteger(s: string, signed: bool, lo: int, hi: int): (r: Option<int>)
    ensures r.Some? ==> lo <= r.value <= hi
    ensures r.Some? ==> |s| >= 1 && (IsDigit(s[0]) || s[0] == '+' || (signed && s[0] == '-'))
    ensures r.Some? ==> AllDigits(s) || (|s| >= 2 && AllDigits(s[1..]))
    ensures |s| >= 1 && AllDigits(s) ==>
              r == if lo <= DigitsValue(s) <= hi then Some(DigitsValue(s)) else None
    ensures |s| >= 2 && s[0] == '+' && AllDigits(s[1..]) ==>
              r == if lo <= DigitsValue(s[1..]) <= hi then Some(DigitsValue(s[1..])) else None
    ensures |s| >= 2 && s[0] == '-' && AllDigits(s[1..]) ==>
              r == if signed && lo <= 0 - DigitsValue(s[1..]) <= hi then Some(0 - DigitsValue(s[1..])) else None
  {
    if |s| == 0 then None
    else if (s[0] == '+' || s[0] == '-') && |s| == 1 then None
    else
      var negative := signed && s[0] == '-';
      var digits := if s[0] == '+' || negative then s[1..] else s;
      if !AllDigits(digits) then None
      else
        var magnitude: int := DigitsValue(digits);
        var v := if negative then -magnitude else magnitude;
        if lo <= v <= hi then Some(v) else None
  }

  /** `str::parse::<i16>()`. */
  function ParseI16(s: string): Option<int> {
    ParseInteger(s, true, -0x8000, 0x7FFF)
  }

  /** `str::parse::<u8>()`. */
  function ParseU8(s: string): Option<int> {
    ParseInteger(s, false, 0, 0xFF)
  }

  /** `str::parse::<u16>()`. */
  function ParseU16(s: string): Option<int> {
    ParseInteger(s, false, 0, 0xFFFF)
  }

  /** Reading back the canonical decimal of n gives n. */
  lemma {:induction false} NatToStringRoundTrip(n: nat)
    ensures DigitsValue(NatToString(n)) == n
  {
    if n >= 10 {
      var s := NatToString(n);
      assert s[..|s| - 1] == NatToString(n / 10);
      NatToStringRoundTrip(n / 10);
    }
  }

  /** Parsing what `Display` printed gives the value back exactly when the
      type can hold it: in range, and non-negative for an unsigned type. */
  lemma ParseIntToString(i: int, signed: bool, lo: int, hi: int)
    ensures ParseInteger(IntToString(i), signed, lo, hi)
         == if (signed || i >= 0) && lo <= i <= hi then Some(i) else None
  {
    var s := IntToString(i);
    if i < 0 {
      NatToStringRoundTrip(-i);
      assert s[0] == '-' && |s| >= 2;
      if !signed {
        assert !IsDigit(s[0]);
      }
    } else {
      NatToStringRoundTrip(i);
      assert IsDigit(s[0]);
    }
  }

  /** A string beginning with a character that is neither a digit nor a sign
      never parses as an integer. */
  lemma ParseRejectsLeadingJunk(s: string, signed: bool, lo: int, hi: int)
    requires |s| >= 1 && !IsDigit(s[0]) && s[0] != '+' && s[0] != '-'
    ensures ParseInteger(s, signed, lo, hi) == None
  {
  }
}
