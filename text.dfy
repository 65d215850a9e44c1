/**
 * The .NET string helpers the core relies on: `char.IsWhiteSpace`, `string.TrimStart`,
 * `string.Trim`, `string.IsNullOrWhiteSpace`, the invariant-culture rendering of an
 * integer in an interpolated string, and the UTF-16 code units a .NET string is made of.
 */
module Text {

  /** `char.IsWhiteSpace`: U+0009..U+000D, U+0085 and the Unicode space, line and paragraph separators. */
  predicate IsWhiteSpace(c: char) {
    ('\t' <= c <= '\r') || c == ' ' || c == '\U{0085}' || c == '\U{00A0}' || c == '\U{1680}'
    || ('\U{2000}' <= c <= '\U{200A}') || c == '\U{2028}' || c == '\U{2029}'
    || c == '\U{202F}' || c == '\U{205F}' || c == '\U{3000}'
  }

  /** `string.IsNullOrWhiteSpace` for a non-null string. */
  predicate AllWhiteSpace(s: string) {
    forall i :: 0 <= i < |s| ==> IsWhiteSpace(s[i])
  }

  /** How many white-space characters the string starts with. */
  function LeadingBlanks(s: string): (n: nat)
    ensures n <= |s| && (n == |s| || !IsWhiteSpace(s[n]))
    ensures forall i :: 0 <= i < n ==> IsWhiteSpace(s[i])
  {
    if s != [] && IsWhiteSpace(s[0]) then
      var n := 1 + LeadingBlanks(s[1..]);
      assert forall i :: 1 <= i < n ==> s[1..][i - 1] == s[i];
      n
    else
      0
  }

  /** How many white-space characters the string ends with. */
  function TrailingBlanks(s: string): (n: nat)
    ensures n <= |s| && (n == |s| || !IsWhiteSpace(s[|s| - n - 1]))
    ensures forall i :: |s| - n <= i < |s| ==> IsWhiteSpace(s[i])
  {
    if s != [] && IsWhiteSpace(s[|s| - 1]) then
      var n := 1 + TrailingBlanks(s[..|s| - 1]);
      assert forall i :: |s| - n <= i < |s| - 1 ==> s[..|s| - 1][i] == s[i];
      n
    else
      0
  }

  /** `string.TrimStart()`: drops the leading white space, and nothing else. */
  function TrimStart(s: string): (r: string)
    ensures |r| <= |s| && forall i :: 0 <= i < |r| ==> r[i] == s[|s| - |r| + i]
    ensures AllWhiteSpace(s[..|s| - |r|])
    ensures r == [] || !IsWhiteSpace(r[0])
  {
    s[LeadingBlanks(s)..]
  }

  /** `string.TrimEnd()`: drops the trailing white space, and nothing else. */
  function TrimEnd(s: string): (r: string)
    ensures |r| <= |s| && forall i :: 0 <= i < |r| ==> r[i] == s[i]
    ensures AllWhiteSpace(s[|r|..])
    ensures r == [] || !IsWhiteSpace(r[|r| - 1])
  {
    s[..|s| - TrailingBlanks(s)]
  }

  /** `string.Trim()`. */
  function Trim(s: string): string {
    TrimEnd(TrimStart(s))
  }

  /** A string is blank exactly when trimming its start leaves nothing. */
  lemma BlankIffTrimStartEmpty(s: string)
    ensures AllWhiteSpace(s) <==> TrimStart(s) == []
  {
    if TrimStart(s) == [] {
      assert s[..|s|] == s;
    }
  }

  /** Trimming keeps every non-blank string non-empty, with no white space at either end. */
  lemma TrimOfNonBlank(s: string)
    requires !AllWhiteSpace(s)
    ensures Trim(s) != []
    ensures !IsWhiteSpace(Trim(s)[0]) && !IsWhiteSpace(Trim(s)[|Trim(s)| - 1])
  {
    BlankIffTrimStartEmpty(s);
    var t := TrimStart(s);
    assert TrimEnd(t)[0] == t[0];
  }

  function DigitChar(d: nat): (c: char)
    requires d < 10
    ensures '0' <= c <= '9' && c as int - '0' as int == d
  {
    "0123456789"[d]
  }

  predicate IsDigits(s: string) {
    forall i :: 0 <= i < |s| ==> '0' <= s[i] <= '9'
  }

  /** Invariant-culture decimal rendering of a non-negative integer: no sign, no leading zero. */
  function NatToString(n: nat): (r: string)
    ensures |r| >= 1 && IsDigits(r)
    ensures r[0] == '0' ==> n == 0
  {
    if n < 10 then [DigitChar(n)] else NatToString(n / 10) + [DigitChar(n % 10)]
  }

  /** The value of a string of decimal digits (an independent reading of NatToString). */
  function DecimalValue(s: string): nat
    requires IsDigits(s)
  {
    if s == [] then 0 else DecimalValue(s[..|s| - 1]) * 10 + (s[|s| - 1] as int - '0' as int)
  }

  lemma {:induction false} DecimalRoundTrip(n: nat)
    ensures DecimalValue(NatToString(n)) == n
  {
    if n >= 10 {
      DecimalRoundTrip(n / 10);
      var r := NatToString(n);
      assert r[..|r| - 1] == NatToString(n / 10);
    }
  }

  /** Distinct numbers are rendered differently. */
  lemma NatToStringInjective(m: nat, n: nat)
    requires NatToString(m) == NatToString(n)
    ensures m == n
  {
    DecimalRoundTrip(m);
    DecimalRoundTrip(n);
  }

  /** Invariant-culture rendering of a (possibly negative) integer. */
  function IntToString(i: int): (r: string)
    ensures |r| >= 1
    ensures r[0] == '-' <==> i < 0
  {
    if i < 0 then "-" + NatToString(-i) else NatToString(i)
  }

  /** A UTF-16 code unit: what `string.Length` counts and `string[..n]` cuts. */
  type CodeUnit = u: int | 0 <= u < 0x1_0000

  const HighSurrogateStart: CodeUnit := 0xD800
  const LowSurrogateStart: CodeUnit := 0xDC00

  predicate IsHighSurrogate(u: CodeUnit) {
    HighSurrogateStart <= u < LowSurrogateStart
  }

  /** One character in UTF-16: itself inside the Basic Multilingual Plane, else a surrogate pair. */
  function CharUnits(c: char): (r: seq<CodeUnit>)
    ensures |r| == 1 || (|r| == 2 && IsHighSurrogate(r[0]))
    ensures |r| == 1 <==> (c as int) < 0x1_0000
  {
    if (c as int) < 0x1_0000 then [c as int]
    else
      var v := c as int - 0x1_0000;
      [HighSurrogateStart + v / 0x400, LowSurrogateStart + v % 0x400]
  }

  /** A text as the UTF-16 code units of a .NET string. */
  function Utf16(s: string): (r: seq<CodeUnit>)
    ensures |s| <= |r| <= 2 * |s|
  {
    if s == [] then [] else CharUnits(s[0]) + Utf16(s[1..])
  }

  /** Encoding a concatenation concatenates the encodings. */
  lemma {:induction false} Utf16Append(a: string, b: string)
    ensures Utf16(a + b) == Utf16(a) + Utf16(b)
  {
    if a != [] {
      assert (a + b)[0] == a[0] && (a + b)[1..] == a[1..] + b;
      Utf16Append(a[1..], b);
    } else {
      assert a + b == b;
    }
  }

  /** A text without characters outside the Basic Multilingual Plane has one code unit per character. */
  lemma {:induction false} Utf16OfBmp(s: string)
    requires forall i :: 0 <= i < |s| ==> (s[i] as int) < 0x1_0000
    ensures |Utf16(s)| == |s| && forall i :: 0 <= i < |s| ==> Utf16(s)[i] == s[i] as int
  {
    if s != [] {
      Utf16OfBmp(s[1..]);
    }
  }
}
