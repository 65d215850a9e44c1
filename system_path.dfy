/**
 * The parts of System.IO.Path (Windows flavour) the core uses: `Combine`, `GetFileName` and
 * `GetFileNameWithoutExtension`, on path strings.
 */
module SystemPath {

  predicate IsSeparator(c: char) {
    c == '\\' || c == '/'
  }

  predicate IsAsciiLetter(c: char) {
    ('a' <= c <= 'z') || ('A' <= c <= 'Z')
  }

  /** `Path.IsPathRooted`: starts with a separator or with a drive letter and a colon. */
  predicate IsRooted(p: string) {
    (|p| >= 1 && IsSeparator(p[0])) || (|p| >= 2 && IsAsciiLetter(p[0]) && p[1] == ':')
  }

  predicate NoSeparator(s: string) {
    forall i :: 0 <= i < |s| ==> !IsSeparator(s[i])
  }

  /** `Path.Combine(a, b)`: a rooted b wins; otherwise one backslash joins the two, unless a already ends in a separator. */
  function Combine(a: string, b: string): (r: string)
    ensures b != [] && a != [] && !IsRooted(b) && !IsSeparator(a[|a| - 1]) ==> r == a + "\\" + b
  {
    if b == [] then a
    else if a == [] then b
    else if IsRooted(b) then b
    else if IsSeparator(a[|a| - 1]) then a + b
    else a + "\\" + b
  }

  /** The last index of a character from `cs`, or -1. */
  function LastIndexIn(s: string, cs: set<char>): (r: int)
    ensures -1 <= r < |s|
    ensures r >= 0 ==> s[r] in cs
    ensures forall i :: r < i < |s| ==> s[i] !in cs
  {
    if s == [] then -1 else if s[|s| - 1] in cs then |s| - 1 else LastIndexIn(s[..|s| - 1], cs)
  }

  const Separators: set<char> := {'\\', '/'}

  /** `Path.GetFileName`: what follows the last separator. */
  function GetFileName(p: string): (r: string)
    ensures NoSeparator(r) && |r| <= |p| && r == p[|p| - |r|..]
  {
    p[LastIndexIn(p, Separators) + 1..]
  }

  /** `Path.GetFileNameWithoutExtension`: the file name up to its last '.', or all of it when it has none. */
  function GetFileNameWithoutExtension(p: string): string {
    var name := GetFileName(p);
    var dot := LastIndexIn(name, {'.'});
    if dot < 0 then name else name[..dot]
  }

  /** The last character of `cs` in `a + [c] + b` is that c, when b holds none. */
  lemma {:induction false} LastIndexAfter(a: string, c: char, b: string, cs: set<char>)
    requires c in cs
    requires forall i :: 0 <= i < |b| ==> b[i] !in cs
    ensures LastIndexIn(a + [c] + b, cs) == |a|
  {
    if b != [] {
      var s := a + [c] + b;
      assert s[..|s| - 1] == a + [c] + b[..|b| - 1];
      LastIndexAfter(a, c, b[..|b| - 1], cs);
    }
  }

  /** The name joined to a directory is the file name of the result. */
  lemma FileNameOfCombine(dir: string, name: string)
    requires dir != [] && !IsSeparator(dir[|dir| - 1])
    requires name != [] && NoSeparator(name) && !IsRooted(name)
    ensures GetFileName(Combine(dir, name)) == name
  {
    LastIndexAfter(dir, '\\', name, Separators);
  }

  /** A stem without dots followed by an extension (one '.', then no other) gives back the stem. */
  lemma StemOfName(dir: string, stem: string, ext: string)
    requires dir != [] && !IsSeparator(dir[|dir| - 1])
    requires stem != [] && NoSeparator(stem + ext) && !IsRooted(stem + ext)
    requires forall i :: 0 <= i < |stem| ==> stem[i] != '.'
    requires |ext| >= 1 && ext[0] == '.' && forall i :: 1 <= i < |ext| ==> ext[i] != '.'
    ensures GetFileNameWithoutExtension(Combine(dir, stem + ext)) == stem
  {
    var name := stem + ext;
    assert name == stem + ['.'] + ext[1..];
    FileNameOfCombine(dir, name);
    LastIndexAfter(stem, '.', ext[1..], {'.'});
  }
}
