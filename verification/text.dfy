/** The string operations of the .NET base library that the services rely on:
    whitespace tests and trimming, upper-casing (of ASCII letters), prefix
    tests, and the decimal rendering and parsing of integers. */
module Text {
  import opened Wrappers

  /** `char.IsWhiteSpace`: the control characters U+0009 to U+000D and U+0085,
      and the Unicode space, line and paragraph separators. */
  predicate IsWhiteSpace(c: char) {
    ('\U{0009}' <= c <= '\U{000D}') || c == ' ' || c == '\U{0085}' || c == '\U{00A0}'
    || c == '\U{1680}' || ('\U{2000}' <= c <= '\U{200A}') || c == '\U{2028}' || c == '\U{2029}'
    || c == '\U{202F}' || c == '\U{205F}' || c == '\U{3000}'
  }

  function UpperChar(c: char): (u: char)
    ensures IsWhiteSpace(u) == IsWhiteSpace(c)
    ensures 'a' <= c <= 'z' ==> u == c - 'a' + 'A'
    ensures !('a' <= c <= 'z') ==> u == c
  {
    if 'a' <= c <= 'z' then c - 'a' + 'A' else c
  }

  function LowerChar(c: char): char {
    if 'A' <= c <= 'Z' then c - 'A' + 'a' else c
  }

  /** `ToUpperInvariant` on ASCII text. */
  function ToUpper(s: string): (u: string)
    ensures |u| == |s|
    ensures forall i :: 0 <= i < |s| ==> u[i] == UpperChar(s[i])
  {
    seq(|s|, i requires 0 <= i < |s| => UpperChar(s[i]))
  }

  /** Case-insensitive (ordinal) equality. */
  predicate EqualsIgnoreCase(a: string, b: string) {
    |a| == |b| && forall i :: 0 <= i < |a| ==> LowerChar(a[i]) == LowerChar(b[i])
  }

  predicate StartsWith(s: string, prefix: string) {
    |prefix| <= |s| && s[..|prefix|] == prefix
  }

  predicate AllWhiteSpace(s: string) {
    forall i :: 0 <= i < |s| ==> IsWhiteSpace(s[i])
  }

  /** `string.IsNullOrWhiteSpace`, with `None` for null. */
  predicate IsNullOrWhiteSpace(s: Option<string>) {
    s.None? || AllWhiteSpace(s.value)
  }

  function TrimStart(s: string): (r: string)
    ensures |r| <= |s| && r == s[|s| - |r|..]
    ensures r == [] || !IsWhiteSpace(r[0])
    ensures forall i :: 0 <= i < |s| - |r| ==> IsWhiteSpace(s[i])
  {
    if |s| > 0 && IsWhiteSpace(s[0]) then TrimStart(s[1..]) else s
  }

  function TrimEnd(s: string): (r: string)
    ensures |r| <= |s| && r == s[..|r|]
    ensures r == [] || !IsWhiteSpace(r[|r| - 1])
    ensures forall i :: |r| <= i < |s| ==> IsWhiteSpace(s[i])
  {
    if |s| > 0 && IsWhiteSpace(s[|s| - 1]) then TrimEnd(s[..|s| - 1]) else s
  }

  /** `string.Trim`: drops leading and trailing whitespace. */
  function Trim(s: string): (r: string)
    ensures r == [] || (!IsWhiteSpace(r[0]) && !IsWhiteSpace(r[|r| - 1]))
    ensures r == [] <==> AllWhiteSpace(s)
  {
    TrimEnd(TrimStart(s))
  }

  lemma {:induction false} TrimStartOfNonBlank(s: string)
    requires s == [] || !IsWhiteSpace(s[0])
    ensures TrimStart(s) == s
  {
  }

  lemma {:induction false} TrimEndOfNonBlank(s: string)
    requires s == [] || !IsWhiteSpace(s[|s| - 1])
    ensures TrimEnd(s) == s
  {
  }

  /** Trimming an already trimmed string changes nothing. */
  lemma TrimIdempotent(s: string)
    ensures Trim(Trim(s)) == Trim(s)
  {
    var t := Trim(s);
    TrimStartOfNonBlank(t);
    TrimEndOfNonBlank(t);
  }

  /** Upper-casing maps whitespace to whitespace and nothing else to it, so it
      commutes with trimming. */
  lemma {:induction false} TrimStartUpper(s: string)
    ensures TrimStart(ToUpper(s)) == ToUpper(TrimStart(s))
  {
    if |s| > 0 && IsWhiteSpace(s[0]) {
      assert ToUpper(s)[1..] == ToUpper(s[1..]);
      TrimStartUpper(s[1..]);
    }
  }

  lemma {:induction false} TrimEndUpper(s: string)
    ensures TrimEnd(ToUpper(s)) == ToUpper(TrimEnd(s))
  {
    if |s| > 0 && IsWhiteSpace(s[|s| - 1]) {
      assert ToUpper(s)[..|s| - 1] == ToUpper(s[..|s| - 1]);
      TrimEndUpper(s[..|s| - 1]);
    }
  }

  lemma TrimUpper(s: string)
    ensures Trim(ToUpper(s)) == ToUpper(Trim(s))
  {
    TrimStartUpper(s);
    TrimEndUpper(TrimStart(s));
  }

  lemma UpperIdempotent(s: string)
    ensures ToUpper(ToUpper(s)) == ToUpper(s)
  {
  }

  // Decimal rendering and parsing of integers.

  function DigitChar(d: nat): char
    requires d < 10
  {
    '0' + d as char
  }

  predicate IsDigit(c: char) {
    '0' <= c <= '9'
  }

  predicate AllDigits(s: string) {
    forall i :: 0 <= i < |s| ==> IsDigit(s[i])
  }

  function NatToString(n: nat): (s: string)
    ensures |s| > 0
    ensures AllDigits(s)
  {
    if n < 10 then [DigitChar(n)] else NatToString(n / 10) + [DigitChar(n % 10)]
  }

  /** How the service renders an integer cell or a Guid: decimal digits,
      preceded by '-' when negative. */
  function IntToString(n: int): string {
    if n < 0 then "-" + NatToString(-n) else NatToString(n)
  }

  /** The value of a string of decimal digits. */
  function DigitsValue(s: string): nat
    requires AllDigits(s)
  {
    if s == [] then 0
    else assert IsDigit(s[|s| - 1]); DigitsValue(s[..|s| - 1]) * 10 + (s[|s| - 1] as int - '0' as int)
  }

  predicate IsInt32(n: int) {
    -0x8000_0000 <= n < 0x8000_0000
  }

  /** Reading a C# `int` with the invariant culture: an optional sign, '+' or
      '-', then at least one digit, and the value must fit in 32 bits. */
  function ParseInt32(s: string): (r: Option<int>)
    ensures r.Some? ==> IsInt32(r.value)
    ensures r.Some? ==> |s| > 0 && (IsDigit(s[0]) || s[0] == '-' || s[0] == '+')
    ensures AllDigits(s) && |s| > 0 && DigitsValue(s) < 0x8000_0000 ==> r == Some(DigitsValue(s) as int)
  {
    var signed := |s| > 0 && (s[0] == '-' || s[0] == '+');
    var digits := if signed then s[1..] else s;
    if digits == [] || !AllDigits(digits) then None
    else
      var v := if s[0] == '-' then -(DigitsValue(digits) as int) else DigitsValue(digits) as int;
      if IsInt32(v) then Some(v) else None
  }

  /** A leading '+' changes nothing. */
  lemma ParseInt32Plus(s: string)
    requires |s| > 0 && IsDigit(s[0])
    ensures ParseInt32("+" + s) == ParseInt32(s)
  {
    assert ("+" + s)[1..] == s;
  }

  lemma {:induction false} DigitsOfNat(n: nat)
    ensures DigitsValue(NatToString(n)) == n
  {
    if n >= 10 {
      var s := NatToString(n);
      assert s[..|s| - 1] == NatToString(n / 10);
      DigitsOfNat(n / 10);
    }
  }

  /** Letter case does not matter to number parsing: digits and the sign are
      not letters. */
  lemma ParseInt32Upper(s: string)
    ensures ParseInt32(ToUpper(s)) == ParseInt32(s)
  {
    var u := ToUpper(s);
    var signed := |s| > 0 && (s[0] == '-' || s[0] == '+');
    var digits := if signed then s[1..] else s;
    var udigits := if signed then u[1..] else u;
    assert |u| > 0 && (u[0] == '-' || u[0] == '+') <==> signed;
    assert |s| > 0 ==> (u[0] == '-' <==> s[0] == '-');
    assert |udigits| == |digits|;
    assert forall i :: 0 <= i < |digits| ==> udigits[i] == UpperChar(digits[i]);
    if AllDigits(digits) {
      assert u == s;
    } else {
      var k :| 0 <= k < |digits| && !IsDigit(digits[k]);
      assert !IsDigit(udigits[k]);
    }
  }

  lemma LowerUpper(c: char)
    ensures LowerChar(UpperChar(c)) == LowerChar(c)
  {
  }

  /** Upper-casing keeps a string equal to itself ignoring case. */
  lemma UpperEqualsIgnoreCase(s: string, t: string)
    ensures EqualsIgnoreCase(ToUpper(s), t) <==> EqualsIgnoreCase(s, t)
  {
    forall i | 0 <= i < |s| {
      LowerUpper(s[i]);
    }
  }

  /** Every 32-bit integer written by `IntToString` reads back as itself. */
  lemma ParseIntToString(n: int)
    requires IsInt32(n)
    ensures ParseInt32(IntToString(n)) == Some(n)
  {
    if n < 0 {
      var s := IntToString(n);
      assert s[1..] == NatToString(-n);
      DigitsOfNat(-n);
    } else {
      var s := NatToString(n);
      assert s[0] != '-' && s[0] != '+';
      DigitsOfNat(n);
    }
  }
}
