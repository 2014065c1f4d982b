/** Kotlin/JVM integer and string primitives the engine relies on: 32-bit
    `Int` wrap-around, `String.toIntOrNull()`, `Int.toString()` and
    `String.hashCode()`. */
module Text {
  import opened Wrappers

  const IntMin: int := -0x8000_0000
  const IntMax: int := 0x7FFF_FFFF
  const TwoTo32: int := 0x1_0000_0000

  predicate IsInt32(n: int) {
    IntMin <= n <= IntMax
  }

  /** The JVM `Int` holding the low 32 bits of `n` (two's complement). */
  function ToInt32(n: int): (r: int)
    ensures IsInt32(r)
    ensures (n - r) % TwoTo32 == 0
    ensures IsInt32(n) ==> r == n
  {
    var u := n % TwoTo32;
    if u <= IntMax then u else u - TwoTo32
  }

  predicate IsDigit(c: char) {
    '0' <= c <= '9'
  }

  function DigitValue(c: char): (d: nat)
    requires IsDigit(c)
    ensures d < 10
  {
    (c as int) - ('0' as int)
  }

  function DigitChar(d: nat): (c: char)
    requires d < 10
    ensures IsDigit(c) && DigitValue(c) == d
  {
    ('0' as int + d) as char
  }

  predicate AllDigits(s: string) {
    forall i :: 0 <= i < |s| ==> IsDigit(s[i])
  }

  /** The value of a string of decimal digits, most significant first. */
  function DigitsValue(s: string): nat
    requires AllDigits(s)
  {
    if s == [] then 0 else DigitsValue(s[..|s| - 1]) * 10 + DigitValue(s[|s| - 1])
  }

  /** Decimal rendering of a natural number, without leading zeros. */
  function NatToString(n: nat): (s: string)
    ensures |s| >= 1 && AllDigits(s)
    ensures n < 10 <==> |s| == 1
  {
    if n < 10 then [DigitChar(n)] else NatToString(n / 10) + [DigitChar(n % 10)]
  }

  /** `Int.toString()`: a minus sign for negative values, then the digits. */
  function IntToString(n: int): string {
    if n < 0 then "-" + NatToString(-n) else NatToString(n)
  }

  /** Reads an optional leading '+' or '-' and then one or more decimal
      digits, with no bound on the value. This is the syntax that Kotlin's
      `toIntOrNull()` accepts; the range check is in `ToIntOrNull`. */
  function ParseInteger(s: string): (r: Option<int>)
    ensures r.Some? ==> |s| >= 1
  {
    if |s| == 0 then None
    else if s[0] == '-' || s[0] == '+' then
      if |s| == 1 || !AllDigits(s[1..]) then None
      else if s[0] == '-' then Some(-(DigitsValue(s[1..]) as int))
      else Some(DigitsValue(s[1..]))
    else if AllDigits(s) then Some(DigitsValue(s))
    else None
  }

  /** Kotlin's `String.toIntOrNull()`: the parsed value when it fits an
      `Int`, `null` (None) for malformed text and for values out of range. */
  function ToIntOrNull(s: string): (r: Option<int>)
    ensures r.Some? <==> ParseInteger(s).Some? && IsInt32(ParseInteger(s).value)
    ensures r.Some? ==> r == ParseInteger(s)
  {
    var p := ParseInteger(s);
    if p.Some? && IsInt32(p.value) then p else None
  }

  lemma {:induction false} NatToStringRoundTrip(n: nat)
    ensures DigitsValue(NatToString(n)) == n
  {
    if n >= 10 {
      var s := NatToString(n);
      var prefix := NatToString(n / 10);
      assert s[..|s| - 1] == prefix;
      NatToStringRoundTrip(n / 10);
    }
  }

  /** Parsing what `Int.toString()` printed gives the number back. */
  lemma IntToStringRoundTrip(n: int)
    ensures ParseInteger(IntToString(n)) == Some(n)
  {
    var s := IntToString(n);
    if n < 0 {
      NatToStringRoundTrip(-n);
      assert s[1..] == NatToString(-n);
    } else {
      NatToStringRoundTrip(n);
    }
  }

  /** The polynomial `s[0]*31^(n-1) + ... + s[n-1]` of `String.hashCode()`,
      before truncation to 32 bits. */
  function HashSum(s: string): int {
    if s == [] then 0 else 31 * HashSum(s[..|s| - 1]) + (s[|s| - 1] as int)
  }

  /** `String.hashCode()`: the polynomial hash taken modulo 2^32 as a signed `Int`. */
  function HashCode(s: string): (h: int)
    ensures IsInt32(h)
    ensures (h - HashSum(s)) % TwoTo32 == 0
  {
    ToInt32(HashSum(s))
  }

  /** A non-empty set has an element. */
  lemma NonEmptyHasElement(s: set<int>)
    requires s != {}
    ensures exists y :: y in s
  {
    if forall y :: y !in s {
      assert false;
    }
  }

  /** The largest element of a non-empty set. */
  ghost function SetMax(s: set<int>): (m: int)
    requires s != {}
    ensures m in s && forall x :: x in s ==> x <= m
    decreases |s|
  {
    NonEmptyHasElement(s);
    var y: int :| y in s;
    var rest := s - {y};
    if rest == {} then
      assert forall x :: x in s ==> x in rest || x == y;
      y
    else
      var m := SetMax(rest);
      assert forall x :: x in s ==> x in rest || x == y;
      if m < y then y else m
  }

  /** `maxOrNull()`: the largest element, or None for an empty set. */
  function MaxOrNull(s: set<int>): (r: Option<int>)
    ensures r.None? <==> s == {}
    ensures r.Some? ==> r.value in s && forall x :: x in s ==> x <= r.value
  {
    if s == {} then None
    else
      assert SetMax(s) in s && forall x :: x in s ==> x <= SetMax(s);
      var m :| m in s && forall x :: x in s ==> x <= m;
      Some(m)
  }
}
