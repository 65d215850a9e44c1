/**
 * The one-line preview of a note's text shown in the Z-order list: the first line that is not
 * blank, trimmed, and cut to 50 UTF-16 code units followed by an ellipsis. Trimming and
 * splitting look only at characters of the Basic Multilingual Plane, so they are stated on
 * characters; the length test and the cut count code units, as `string.Length` and
 * `string[..50]` do, and the cut can fall inside a surrogate pair.
 */
module NotePreview {
  import opened Wrappers
  import opened Text

  const MaxPreviewLength: nat := 50
  /** U+2026 HORIZONTAL ELLIPSIS. */
  const Ellipsis: CodeUnit := 0x2026

  predicate IsLineBreak(c: char) {
    c == '\n' || c == '\r'
  }

  predicate NoLineBreak(s: string) {
    forall i :: 0 <= i < |s| ==> !IsLineBreak(s[i])
  }

  /** The characters before the first line break (all of s when it has none). */
  function LineHead(s: string): (r: string)
    ensures |r| <= |s| && r == s[..|r|] && NoLineBreak(r)
    ensures |r| < |s| ==> IsLineBreak(s[|r|])
  {
    if s == [] || IsLineBreak(s[0]) then [] else [s[0]] + LineHead(s[1..])
  }

  /** Leading line breaks dropped. */
  function SkipBreaks(s: string): (r: string)
    ensures |r| <= |s| && r == s[|s| - |r|..]
    ensures r == [] || !IsLineBreak(r[0])
  {
    if s != [] && IsLineBreak(s[0]) then SkipBreaks(s[1..]) else s
  }

  /** The first piece of `s.Split(new[] {'\n', '\r'}, StringSplitOptions.RemoveEmptyEntries)`, if any. */
  function FirstEntry(s: string): Option<string> {
    var t := SkipBreaks(s);
    if t == [] then None else Some(LineHead(t))
  }

  /** A line longer than 50 code units becomes its first 50 code units and "…". */
  function Shorten(line: string): (r: seq<CodeUnit>)
    ensures |r| <= MaxPreviewLength + 1
    ensures |Utf16(line)| <= MaxPreviewLength ==> r == Utf16(line)
    ensures |Utf16(line)| > MaxPreviewLength ==> r == Utf16(line)[..MaxPreviewLength] + [Ellipsis]
  {
    var units := Utf16(line);
    if |units| > MaxPreviewLength then units[..MaxPreviewLength] + [Ellipsis] else units
  }

  /** `NoteWindow.GetFirstLinePreview` on the document's plain text. */
  function Preview(text: string): seq<CodeUnit> {
    PreviewOfTrimmed(TrimStart(text))
  }

  /** The preview of a text whose leading white space is already gone. */
  function PreviewOfTrimmed(t: string): seq<CodeUnit> {
    if AllWhiteSpace(t) then []
    else match FirstEntry(t)
      case None => []
      case Some(entry) =>
        var line := Trim(entry);
        if line == [] then [] else Shorten(line)
  }

  /**
   * Reference reading: the lines of `s` are the pieces between '\n' and '\r' characters;
   * the answer is the first of them that is not blank.
   */
  function FirstNonBlankLine(s: string): (r: Option<string>)
    decreases |s|
  {
    var h := LineHead(s);
    if !AllWhiteSpace(h) then Some(h)
    else if |h| == |s| then None
    else FirstNonBlankLine(s[|h| + 1..])
  }

  /** The preview as the reference reading states it. */
  function ReferencePreview(text: string): seq<CodeUnit> {
    match FirstNonBlankLine(text)
    case None => []
    case Some(line) => Shorten(Trim(line))
  }

  lemma {:induction false} TrimStartBlankPrefix(a: string, b: string)
    requires AllWhiteSpace(a)
    ensures TrimStart(a + b) == TrimStart(b)
  {
    if a == [] {
      assert a + b == b;
    } else {
      assert (a + b)[0] == a[0];
      assert (a + b)[1..] == a[1..] + b;
      TrimStartBlankPrefix(a[1..], b);
    }
  }

  lemma {:induction false} TrimStartNonBlankPrefix(a: string, b: string)
    requires !AllWhiteSpace(a)
    ensures TrimStart(a + b) == TrimStart(a) + b
  {
    assert (a + b)[0] == a[0];
    if IsWhiteSpace(a[0]) {
      assert (a + b)[1..] == a[1..] + b;
      TrimStartNonBlankPrefix(a[1..], b);
    }
  }

  lemma TrimStartIdempotent(s: string)
    ensures TrimStart(TrimStart(s)) == TrimStart(s)
  {
  }

  /** A break-free text followed by a break (or nothing) is its own line head. */
  lemma {:induction false} LineHeadOfLine(a: string, b: string)
    requires NoLineBreak(a)
    requires b == [] || IsLineBreak(b[0])
    ensures LineHead(a + b) == a
  {
    if a == [] {
      assert a + b == b;
    } else {
      assert (a + b)[0] == a[0];
      assert (a + b)[1..] == a[1..] + b;
      LineHeadOfLine(a[1..], b);
    }
  }

  /** The preview of a blank text is empty. */
  lemma PreviewOfBlank(text: string)
    requires AllWhiteSpace(text)
    ensures Preview(text) == []
  {
    BlankIffTrimStartEmpty(text);
  }

  /** Past the leading white space of a non-blank text, the first split entry is the rest of that line. */
  lemma FirstEntryOfNonBlank(text: string)
    requires !AllWhiteSpace(text)
    ensures var t := TrimStart(text);
            !AllWhiteSpace(t) && FirstEntry(t) == Some(LineHead(t))
            && LineHead(t) != [] && !IsWhiteSpace(LineHead(t)[0])
  {
    BlankIffTrimStartEmpty(text);
    var t := TrimStart(text);
    assert !IsLineBreak(t[0]);
    assert SkipBreaks(t) == t;
    assert LineHead(t)[0] == t[0];
  }

  /** The preview of a non-blank text is the shortened, trimmed rest of its first non-blank line. */
  lemma PreviewOfNonBlank(text: string)
    requires !AllWhiteSpace(text)
    ensures Trim(LineHead(TrimStart(text))) != []
    ensures Preview(text) == Shorten(Trim(LineHead(TrimStart(text))))
  {
    FirstEntryOfNonBlank(text);
    var entry := LineHead(TrimStart(text));
    assert !AllWhiteSpace(entry) by {
      assert !IsWhiteSpace(entry[0]);
    }
    TrimOfNonBlank(entry);
  }

  /** A blank first line and the break after it are white space. */
  lemma BlankHeadWithBreak(text: string, h: string)
    requires h == LineHead(text) && AllWhiteSpace(h) && |h| < |text|
    ensures AllWhiteSpace(text[..|h| + 1])
  {
    var lead := text[..|h| + 1];
    forall i | 0 <= i < |lead|
      ensures IsWhiteSpace(lead[i])
    {
      if i < |h| {
        assert lead[i] == h[i];
      } else {
        assert IsLineBreak(text[|h|]);
      }
    }
  }

  /** Past a blank first line, both readings move on to the rest of the text. */
  lemma BlankHeadSkipped(text: string)
    requires AllWhiteSpace(LineHead(text)) && |LineHead(text)| < |text|
    ensures TrimStart(text) == TrimStart(text[|LineHead(text)| + 1..])
    ensures FirstNonBlankLine(text) == FirstNonBlankLine(text[|LineHead(text)| + 1..])
  {
    var h := LineHead(text);
    var after := text[|h| + 1..];
    var lead := text[..|h| + 1];
    BlankHeadWithBreak(text, h);
    assert text == lead + after;
    TrimStartBlankPrefix(lead, after);
  }

  /** When the first line is not blank, both readings take that line, trimmed. */
  lemma NonBlankHeadTaken(text: string)
    requires !AllWhiteSpace(LineHead(text))
    ensures !AllWhiteSpace(text)
    ensures Trim(LineHead(TrimStart(text))) == Trim(LineHead(text))
    ensures FirstNonBlankLine(text) == Some(LineHead(text))
  {
    var h := LineHead(text);
    var rest := text[|h|..];
    assert text == h + rest;
    TrimStartNonBlankPrefix(h, rest);
    var th := TrimStart(h);
    assert th == h[LeadingBlanks(h)..];
    assert NoLineBreak(th);
    LineHeadOfLine(th, rest);
    assert LineHead(TrimStart(text)) == th;
    TrimStartIdempotent(h);
  }

  /** The implementation agrees with the reference reading on every text. */
  lemma {:induction false} PreviewMatchesReference(text: string)
    ensures Preview(text) == ReferencePreview(text)
    decreases |text|
  {
    var h := LineHead(text);
    if AllWhiteSpace(h) {
      if |h| == |text| {
        assert text[..|h|] == text;
        PreviewOfBlank(text);
      } else {
        var after := text[|h| + 1..];
        BlankHeadSkipped(text);
        PreviewMatchesReference(after);
        PreviewDependsOnTrimmed(text, after);
      }
    } else {
      NonBlankHeadTaken(text);
      PreviewOfNonBlank(text);
    }
  }

  /** The preview depends only on the text past its leading white space. */
  lemma PreviewDependsOnTrimmed(a: string, b: string)
    requires TrimStart(a) == TrimStart(b)
    ensures Preview(a) == Preview(b)
  {
  }

  /** The preview is empty exactly for blank text. */
  lemma PreviewEmptyIffBlank(text: string)
    ensures Preview(text) == [] <==> AllWhiteSpace(text)
  {
    if AllWhiteSpace(text) {
      PreviewOfBlank(text);
    } else {
      PreviewOfNonBlank(text);
    }
  }

  /** A trimmed line of a single line has no line break. */
  lemma TrimmedLineHasNoBreak(s: string)
    requires NoLineBreak(s)
    ensures NoLineBreak(Trim(s))
  {
    var t := TrimStart(s);
    assert NoLineBreak(t);
  }

  /** No code unit is CR or LF. */
  predicate NoLineBreakUnit(u: seq<CodeUnit>) {
    forall i :: 0 <= i < |u| ==> u[i] != '\n' as int && u[i] != '\r' as int
  }

  /** A text without line breaks encodes to code units without CR or LF. */
  lemma {:induction false} Utf16KeepsSingleLine(s: string)
    requires NoLineBreak(s)
    ensures NoLineBreakUnit(Utf16(s))
  {
    if s != [] {
      Utf16KeepsSingleLine(s[1..]);
      assert !IsLineBreak(s[0]);
    }
  }

  /** The preview fits in 51 code units and is a single line. */
  lemma PreviewShape(text: string)
    ensures |Preview(text)| <= MaxPreviewLength + 1
    ensures NoLineBreakUnit(Preview(text))
  {
    if AllWhiteSpace(text) {
      PreviewOfBlank(text);
    } else {
      PreviewOfNonBlank(text);
      var line := Trim(LineHead(TrimStart(text)));
      TrimmedLineHasNoBreak(LineHead(TrimStart(text)));
      ShortenKeepsSingleLine(line);
    }
  }

  lemma ShortenKeepsSingleLine(line: string)
    requires NoLineBreak(line)
    ensures NoLineBreakUnit(Shorten(line))
  {
    Utf16KeepsSingleLine(line);
    if |Utf16(line)| > MaxPreviewLength {
      assert NoLineBreakUnit(Utf16(line)[..MaxPreviewLength]);
    }
  }

  /** `n` copies of `c`. */
  function Repeated(c: char, n: nat): (r: string)
    ensures |r| == n
  {
    if n == 0 then [] else [c] + Repeated(c, n - 1)
  }

  lemma {:induction false} RepeatedSplit(c: char, m: nat, n: nat)
    ensures Repeated(c, m + n) == Repeated(c, m) + Repeated(c, n)
  {
    if m > 0 {
      RepeatedSplit(c, m - 1, n);
    }
  }

  /**
   * Characters outside the Basic Multilingual Plane take two code units each, and every
   * even-numbered unit starts a pair.
   */
  lemma {:induction false} RepeatedAstralUnits(c: char, n: nat)
    requires (c as int) >= 0x1_0000
    ensures |Utf16(Repeated(c, n))| == 2 * n
    ensures forall j :: 0 <= j < 2 * n && j % 2 == 0 ==> IsHighSurrogate(Utf16(Repeated(c, n))[j])
  {
    if n > 0 {
      var r := Repeated(c, n);
      assert r[0] == c && r[1..] == Repeated(c, n - 1);
      RepeatedAstralUnits(c, n - 1);
    }
  }

  /**
   * The cut counts code units, not characters: a line of more than 25 characters from outside
   * the Basic Multilingual Plane (emoji, say) keeps 25 of them.
   */
  lemma ShortenCountsCodeUnits(c: char, n: nat)
    requires (c as int) >= 0x1_0000 && n > 25
    ensures Shorten(Repeated(c, n)) == Utf16(Repeated(c, 25)) + [Ellipsis]
  {
    RepeatedSplit(c, 25, n - 25);
    Utf16Append(Repeated(c, 25), Repeated(c, n - 25));
    RepeatedAstralUnits(c, 25);
    RepeatedAstralUnits(c, n - 25);
  }

  /**
   * The cut can split a surrogate pair: after one BMP character and 25 or more characters from
   * outside it, the unit just before the ellipsis is a high surrogate whose partner was cut off.
   */
  lemma ShortenCanSplitPair(c: char, n: nat)
    requires (c as int) >= 0x1_0000 && n >= 25
    ensures var r := Shorten("a" + Repeated(c, n));
            |r| == MaxPreviewLength + 1 && IsHighSurrogate(r[MaxPreviewLength - 1]) && r[MaxPreviewLength] == Ellipsis
  {
    var rest := Repeated(c, n);
    Utf16Append("a", rest);
    RepeatedAstralUnits(c, n);
    assert Utf16("a") == ['a' as int];
    assert Utf16("a" + rest)[49] == Utf16(rest)[48];
  }
}
