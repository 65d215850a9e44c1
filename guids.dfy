/**
 * System.Guid as the core uses it: sixteen bytes, printed in the lower-case "D" format
 * (`Guid.ToString()`, which names every note's RTF file) and read back by `Guid.TryParse`.
 */
module Guids {
  import opened Wrappers
  import opened Text

  type Byte = b: int | 0 <= b < 256

  /** A Guid as its sixteen bytes, in the order of `Guid.ToByteArray()` and `new Guid(byte[])`. */
  type Guid = s: seq<Byte> | |s| == 16 witness [0, 0, 0, 0, 0, 0, 0, 0, 0, 0, 0, 0, 0, 0, 0, 0]

  /** `Guid.Empty`. */
  const EmptyGuid: Guid := [0, 0, 0, 0, 0, 0, 0, 0, 0, 0, 0, 0, 0, 0, 0, 0]

  /**
   * The k-th byte printed in the "D" text is byte TextOrder[k] of the array: the first three
   * fields are little-endian integers (4, 2 and 2 bytes), the last eight bytes go in order.
   */
  const TextOrder: seq<nat> := [3, 2, 1, 0, 5, 4, 7, 6, 8, 9, 10, 11, 12, 13, 14, 15]

  function Printed(g: seq<Byte>): (p: seq<Byte>)
    requires |g| == 16
    ensures |p| == 16
  {
    seq(16, k requires 0 <= k < 16 => g[TextOrder[k]])
  }

  /** Printing order is its own inverse, so reading the text back undoes it. */
  lemma PrintedInvolution(g: seq<Byte>)
    requires |g| == 16
    ensures Printed(Printed(g)) == g
  {
    forall k | 0 <= k < 16
      ensures TextOrder[TextOrder[k]] == k
    {
    }
  }

  predicate IsLowerHexDigit(c: char) {
    ('0' <= c <= '9') || ('a' <= c <= 'f')
  }

  function HexDigit(n: nat): (c: char)
    requires n < 16
    ensures IsLowerHexDigit(c)
  {
    "0123456789abcdef"[n]
  }

  /** The value of one hexadecimal digit, either case; None for any other character. */
  function HexValue(c: char): (r: Option<nat>)
    ensures r.Some? ==> r.value < 16
    ensures r.Some? <==> ('0' <= c <= '9') || ('a' <= c <= 'f') || ('A' <= c <= 'F')
  {
    if '0' <= c <= '9' then Some(c as int - '0' as int)
    else if 'a' <= c <= 'f' then Some(c as int - 'a' as int + 10)
    else if 'A' <= c <= 'F' then Some(c as int - 'A' as int + 10)
    else None
  }

  lemma HexDigitValue(n: nat)
    requires n < 16
    ensures HexValue(HexDigit(n)) == Some(n)
  {
  }

  /** A hex letter in lower case; every other character unchanged. */
  function LowerHex(c: char): char {
    if 'A' <= c <= 'F' then (c as int + 32) as char else c
  }

  /** A hex letter in upper case; every other character unchanged. */
  function UpperHex(c: char): char {
    if 'a' <= c <= 'f' then (c as int - 32) as char else c
  }

  /** A text with its hex letters in lower case. */
  function Lowered(t: string): (r: string)
    ensures |r| == |t|
  {
    seq(|t|, i requires 0 <= i < |t| => LowerHex(t[i]))
  }

  /** A text with its hex letters in upper case, as `ToString("N").ToUpperInvariant()` gives. */
  function Uppered(t: string): (r: string)
    ensures |r| == |t|
  {
    seq(|t|, i requires 0 <= i < |t| => UpperHex(t[i]))
  }

  /** The digit printed for a character's value is that character in lower case. */
  lemma DigitOfValue(c: char)
    requires HexValue(c).Some?
    ensures HexDigit(HexValue(c).value) == LowerHex(c)
  {
    var n := HexValue(c).value;
    assert "0123456789abcdef"[n] == HexDigit(n);
  }

  /** Two lower-case hex digits per byte, high nibble first. */
  function Hex(bs: seq<Byte>): (h: string)
    ensures |h| == 2 * |bs|
    ensures forall i :: 0 <= i < |h| ==> IsLowerHexDigit(h[i])
  {
    if bs == [] then [] else [HexDigit(bs[0] / 16), HexDigit(bs[0] % 16)] + Hex(bs[1..])
  }

  /** Reads pairs of hex digits (either case) as bytes; None on an odd length or a non-digit. */
  function ParseHex(h: string): (r: Option<seq<Byte>>)
    ensures r.Some? ==> 2 * |r.value| == |h|
  {
    if h == [] then Some([])
    else if |h| == 1 then None
    else match (HexValue(h[0]), HexValue(h[1]), ParseHex(h[2..]))
      case (Some(hi), Some(lo), Some(rest)) => Some([hi * 16 + lo] + rest)
      case _ => None
  }

  /** Two digits in front of a readable text add one byte in front of what it reads as. */
  lemma ParseHexPair(a: char, b: char, t: string)
    requires HexValue(a).Some? && HexValue(b).Some? && ParseHex(t).Some?
    ensures ParseHex([a, b] + t) == Some([HexValue(a).value * 16 + HexValue(b).value] + ParseHex(t).value)
  {
    var h := [a, b] + t;
    assert h[0] == a && h[1] == b && h[2..] == t;
  }

  lemma {:induction false} ParseHexRoundTrip(bs: seq<Byte>)
    ensures ParseHex(Hex(bs)) == Some(bs)
  {
    if bs != [] {
      var hi, lo := bs[0] / 16, bs[0] % 16;
      HexDigitValue(hi);
      HexDigitValue(lo);
      ParseHexRoundTrip(bs[1..]);
      ParseHexPair(HexDigit(hi), HexDigit(lo), Hex(bs[1..]));
      assert [bs[0]] + bs[1..] == bs;
    }
  }

  /** Reading hex digits is sound: the digits read, in lower case, are the digits printed for the bytes. */
  lemma {:induction false} ParseHexSound(h: string)
    requires ParseHex(h).Some?
    ensures Lowered(h) == Hex(ParseHex(h).value)
  {
    if h != [] {
      var hi, lo := HexValue(h[0]).value, HexValue(h[1]).value;
      var bs := ParseHex(h).value;
      ParseHexSound(h[2..]);
      DigitOfValue(h[0]);
      DigitOfValue(h[1]);
      assert bs[0] == hi * 16 + lo && bs[1..] == ParseHex(h[2..]).value;
      assert bs[0] / 16 == hi && bs[0] % 16 == lo;
      assert Lowered(h) == [LowerHex(h[0]), LowerHex(h[1])] + Lowered(h[2..]);
    }
  }

  /** Reading hex digits ignores their case. */
  lemma {:induction false} ParseHexIgnoresCase(h: string)
    ensures ParseHex(Uppered(h)) == ParseHex(h)
  {
    if |h| >= 2 {
      var u := Uppered(h);
      assert u[2..] == Uppered(h[2..]);
      assert HexValue(u[0]) == HexValue(h[0]) && HexValue(u[1]) == HexValue(h[1]);
      ParseHexIgnoresCase(h[2..]);
    }
  }

  /** Splits 32 hex digits into the 8-4-4-4-12 groups of the "D" format. */
  function Grouped(h: string): (t: string)
    requires |h| == 32
    ensures |t| == 36
  {
    h[..8] + "-" + h[8..12] + "-" + h[12..16] + "-" + h[16..20] + "-" + h[20..]
  }

  predicate HasDashes(t: string)
    requires |t| == 36
  {
    t[8] == '-' && t[13] == '-' && t[18] == '-' && t[23] == '-'
  }

  /** The 32 characters of a 36-character "D" text other than its four dashes. */
  function Ungrouped(t: string): (h: string)
    requires |t| == 36
    ensures |h| == 32
  {
    t[..8] + t[9..13] + t[14..18] + t[19..23] + t[24..]
  }

  lemma UngroupGrouped(h: string)
    requires |h| == 32
    ensures HasDashes(Grouped(h)) && Ungrouped(Grouped(h)) == h
  {
    var t := Grouped(h);
    assert t[..8] == h[..8];
    assert t[9..13] == h[8..12];
    assert t[14..18] == h[12..16];
    assert t[19..23] == h[16..20];
    assert t[24..] == h[20..];
    assert h == h[..8] + h[8..12] + h[12..16] + h[16..20] + h[20..];
  }

  /** `Guid.ToString()`: the lower-case "D" format, e.g. 00112233-4455-6677-8899-aabbccddeeff. */
  function ToText(g: Guid): (t: string)
    ensures |t| == 36
    ensures forall i :: 0 <= i < |t| ==> IsLowerHexDigit(t[i]) || t[i] == '-'
  {
    Grouped(Hex(Printed(g)))
  }

  /** 32 hex digits in printed order, as a Guid. */
  function FromDigits(h: string): Option<Guid> {
    match ParseHex(h)
    case Some(p) => if |p| == 16 then Some(Printed(p)) else None
    case None => None
  }

  /**
   * The 32 hex digits of a trimmed text in one of the formats `Guid.TryParse` accepts: "N"
   * (32 digits), "D" (8-4-4-4-12 with dashes), "B" and "P" ("D" inside braces or parentheses).
   */
  function GuidDigits(t: string): (r: Option<string>)
    ensures r.Some? ==> |r.value| == 32 && |t| in {32, 36, 38}
  {
    if |t| == 36 then
      if HasDashes(t) then Some(Ungrouped(t)) else None
    else if |t| == 32 then
      Some(t)
    else if |t| == 38 && ((t[0] == '{' && t[37] == '}') || (t[0] == '(' && t[37] == ')')) then
      var d := t[1..37];
      if HasDashes(d) then Some(Ungrouped(d)) else None
    else
      None
  }

  /**
   * `Guid.TryParse` for the "D", "N", "B" and "P" formats: surrounding white space is ignored,
   * hex digits may be of either case.
   */
  function TryParse(s: string): (r: Option<Guid>)
    ensures r.Some? ==> |Trim(s)| in {32, 36, 38}
  {
    match GuidDigits(Trim(s))
    case Some(h) => FromDigits(h)
    case None => None
  }

  /** A text that starts and ends with a non-blank character is left alone by Trim. */
  lemma TrimNoOp(s: string)
    requires s != [] && !IsWhiteSpace(s[0]) && !IsWhiteSpace(s[|s| - 1])
    ensures Trim(s) == s
  {
  }

  /** Every Guid's text parses back to that Guid: the name of a note's file identifies the note. */
  lemma ParseToText(g: Guid)
    ensures TryParse(ToText(g)) == Some(g)
  {
    var h := Hex(Printed(g));
    var t := ToText(g);
    assert IsLowerHexDigit(t[0]) && IsLowerHexDigit(t[35]);
    TrimNoOp(t);
    UngroupGrouped(h);
    ParseHexRoundTrip(Printed(g));
    PrintedInvolution(g);
  }

  /** Distinct Guids have distinct texts. */
  lemma ToTextInjective(g1: Guid, g2: Guid)
    requires ToText(g1) == ToText(g2)
    ensures g1 == g2
  {
    ParseToText(g1);
    ParseToText(g2);
  }

  /**
   * `Guid.TryParse` is sound: when it gives a Guid, the text is in an accepted format and its
   * 32 digits, in lower case, are the digits of that Guid's "N" text.
   */
  lemma TryParseSound(s: string, g: Guid)
    requires TryParse(s) == Some(g)
    ensures GuidDigits(Trim(s)).Some? && Lowered(GuidDigits(Trim(s)).value) == Hex(Printed(g))
  {
    var h := GuidDigits(Trim(s)).value;
    var p := ParseHex(h).value;
    ParseHexSound(h);
    PrintedInvolution(p);
  }

  /** The digits of a Guid's "N" text read back as the Guid. */
  lemma DigitsRoundTrip(g: Guid)
    ensures FromDigits(Hex(Printed(g))) == Some(g)
  {
    ParseHexRoundTrip(Printed(g));
    PrintedInvolution(g);
  }

  /** 32 digits that survive trimming are their own accepted "N" text. */
  lemma PlainDigits(h: string)
    requires |h| == 32 && !IsWhiteSpace(h[0]) && !IsWhiteSpace(h[31])
    ensures Trim(h) == h && GuidDigits(Trim(h)) == Some(h)
  {
    TrimNoOp(h);
  }

  /** The 32 digits of the "N" text of a Guid, in lower or upper case, read back as the Guid. */
  lemma ParseDigitsFormat(g: Guid)
    ensures TryParse(Hex(Printed(g))) == Some(g)
    ensures TryParse(Uppered(Hex(Printed(g)))) == Some(g)
  {
    var h := Hex(Printed(g));
    var u := Uppered(h);
    assert IsLowerHexDigit(h[0]) && IsLowerHexDigit(h[31]);
    assert !IsWhiteSpace(u[0]) && !IsWhiteSpace(u[31]);
    PlainDigits(h);
    PlainDigits(u);
    DigitsRoundTrip(g);
    ParseHexIgnoresCase(h);
    assert FromDigits(u) == FromDigits(h);
  }

  /** A "D" text inside braces or parentheses is left alone by Trim and yields its 32 digits. */
  lemma EnclosedDigits(t: string, open: char, close: char)
    requires |t| == 36 && HasDashes(t)
    requires (open == '{' && close == '}') || (open == '(' && close == ')')
    ensures Trim([open] + t + [close]) == [open] + t + [close]
    ensures GuidDigits([open] + t + [close]) == Some(Ungrouped(t))
  {
    var e := [open] + t + [close];
    assert e[0] == open && e[37] == close && e[1..37] == t;
    TrimNoOp(e);
  }

  /** The "B" and "P" texts of a Guid, its "D" text in braces or parentheses, read back as the Guid. */
  lemma ParseEnclosedFormats(g: Guid)
    ensures TryParse("{" + ToText(g) + "}") == Some(g)
    ensures TryParse("(" + ToText(g) + ")") == Some(g)
  {
    var t := ToText(g);
    UngroupGrouped(Hex(Printed(g)));
    DigitsRoundTrip(g);
    EnclosedDigits(t, '{', '}');
    EnclosedDigits(t, '(', ')');
  }

  /** Upper-casing keeps the dashes of a "D" text and commutes with removing them. */
  lemma UpperedDashes(t: string)
    requires |t| == 36 && HasDashes(t)
    ensures HasDashes(Uppered(t)) && Ungrouped(Uppered(t)) == Uppered(Ungrouped(t))
  {
  }

  /** The "D" text of a Guid in upper case reads back as the Guid. */
  lemma ParseUpperCaseText(g: Guid)
    ensures TryParse(Uppered(ToText(g))) == Some(g)
  {
    var h := Hex(Printed(g));
    var t := ToText(g);
    var u := Uppered(t);
    assert IsLowerHexDigit(t[0]) && IsLowerHexDigit(t[35]);
    assert !IsWhiteSpace(u[0]) && !IsWhiteSpace(u[35]);
    TrimNoOp(u);
    UngroupGrouped(h);
    UpperedDashes(t);
    ParseHexIgnoresCase(h);
    DigitsRoundTrip(g);
  }
}
