/**
 * Where the application keeps its data: every path is built from the user's local
 * application-data folder, which is an input here (the OS supplies it at start-up).
 */
module AppDataPaths {
  import opened SystemPath
  import opened Guids

  /** `%LocalAppData%\TopFusen\TopFusen`. */
  function Base(localAppData: string): string {
    Combine(Combine(localAppData, "TopFusen"), "TopFusen")
  }

  function SettingsJson(localAppData: string): string {
    Combine(Base(localAppData), "settings.json")
  }

  function SettingsJsonBak(localAppData: string): string {
    Combine(Base(localAppData), "settings.json.bak")
  }

  function NotesJson(localAppData: string): string {
    Combine(Base(localAppData), "notes.json")
  }

  function NotesJsonBak(localAppData: string): string {
    Combine(Base(localAppData), "notes.json.bak")
  }

  /** The folder holding one RTF file per note. */
  function NotesDirectory(localAppData: string): string {
    Combine(Base(localAppData), "notes")
  }

  function LogsDirectory(localAppData: string): string {
    Combine(Base(localAppData), "logs")
  }

  /** The RTF file of a note: `<NotesDirectory>\<id>.rtf`. */
  function GetRtfPath(localAppData: string, noteId: Guid): string {
    Combine(NotesDirectory(localAppData), ToText(noteId) + ".rtf")
  }

  /** The base folder ends in the folder name "TopFusen". */
  lemma BaseShape(localAppData: string)
    ensures |Base(localAppData)| >= 8
    ensures Base(localAppData)[|Base(localAppData)| - 8..] == "TopFusen"
  {
    var first := Combine(localAppData, "TopFusen");
    assert first != [];
    if !IsSeparator(first[|first| - 1]) {
      assert Base(localAppData) == first + "\\" + "TopFusen";
    }
  }

  /** `child` sits directly inside `parent`: one separator, then a name without separators. */
  predicate IsDirectChild(child: string, parent: string) {
    |child| > |parent| + 1 && child[..|parent|] == parent && IsSeparator(child[|parent|])
    && NoSeparator(child[|parent| + 1..])
  }

  /** A name that `Combine` appends as it is: non-empty, without separators and not rooted. */
  predicate PlainName(name: string) {
    name != [] && NoSeparator(name) && !IsRooted(name)
  }

  /** Combining the base folder with a plain name joins the two with one backslash. */
  lemma ChildPath(localAppData: string, name: string)
    requires PlainName(name)
    ensures Combine(Base(localAppData), name) == Base(localAppData) + "\\" + name
  {
    BaseShape(localAppData);
    var b := Base(localAppData);
    assert b[|b| - 1] == 'n';
  }

  /** Combining the base folder with a plain name puts the name directly inside it. */
  lemma ChildOfBase(localAppData: string, name: string)
    requires PlainName(name)
    ensures IsDirectChild(Combine(Base(localAppData), name), Base(localAppData))
  {
    ChildPath(localAppData, name);
    var b := Base(localAppData);
    var c := b + "\\" + name;
    assert c[..|b|] == b;
    assert c[|b| + 1..] == name;
  }

  /** A backup name inside the base folder is the main name's path with ".bak" appended. */
  lemma BackupOf(localAppData: string, name: string)
    requires PlainName(name)
    ensures Combine(Base(localAppData), name + ".bak") == Combine(Base(localAppData), name) + ".bak"
  {
    var b := Base(localAppData);
    ChildPath(localAppData, name);
    ChildPath(localAppData, name + ".bak");
    assert b + "\\" + (name + ".bak") == b + "\\" + name + ".bak";
  }

  lemma BackupLiterals()
    ensures "settings.json" + ".bak" == "settings.json.bak"
    ensures "notes.json" + ".bak" == "notes.json.bak"
  {
  }

  /** Each backup file is its main file with ".bak" appended. */
  lemma BackupNames(localAppData: string)
    ensures SettingsJsonBak(localAppData) == SettingsJson(localAppData) + ".bak"
    ensures NotesJsonBak(localAppData) == NotesJson(localAppData) + ".bak"
  {
    BackupLiterals();
    BackupOf(localAppData, "settings.json");
    BackupOf(localAppData, "notes.json");
  }

  /** The notes and logs folders are direct children of the base folder. */
  lemma FoldersInsideBase(localAppData: string)
    ensures IsDirectChild(NotesDirectory(localAppData), Base(localAppData))
    ensures IsDirectChild(LogsDirectory(localAppData), Base(localAppData))
  {
    ChildOfBase(localAppData, "notes");
    ChildOfBase(localAppData, "logs");
  }

  /** The names of the entries directly inside the base folder, in declaration order. */
  const ChildNames: seq<string> :=
    ["settings.json", "settings.json.bak", "notes.json", "notes.json.bak", "notes", "logs"]

  /** Every named path, the base folder first. */
  function NamedPaths(localAppData: string): (ps: seq<string>)
    ensures |ps| == 7
  {
    [Base(localAppData), SettingsJson(localAppData), SettingsJsonBak(localAppData), NotesJson(localAppData),
     NotesJsonBak(localAppData), NotesDirectory(localAppData), LogsDirectory(localAppData)]
  }

  lemma PrefixCancel(b: string, x: string, y: string)
    requires b + x == b + y
    ensures x == y
  {
    assert x == (b + x)[|b|..];
  }

  /** Different names give different children of one folder. */
  lemma ChildrenDiffer(b: string, x: string, y: string)
    requires x != y
    ensures b + "\\" + x != b + "\\" + y
  {
    if b + "\\" + x == b + "\\" + y {
      assert b + "\\" + x == b + ("\\" + x);
      assert b + "\\" + y == b + ("\\" + y);
      PrefixCancel(b, "\\" + x, "\\" + y);
      PrefixCancel("\\", x, y);
    }
  }

  lemma ChildNamesDistinct()
    ensures forall i, j :: 0 <= i < j < |ChildNames| ==> ChildNames[i] != ChildNames[j]
  {
  }

  /** Every named path but the first is the base folder, a backslash and a child name. */
  lemma NamedPathsForm(localAppData: string)
    ensures NamedPaths(localAppData)[0] == Base(localAppData)
    ensures forall k :: 0 <= k < 6 ==> NamedPaths(localAppData)[k + 1] == Base(localAppData) + "\\" + ChildNames[k]
  {
    var ps := NamedPaths(localAppData);
    var b := Base(localAppData);
    ChildPath(localAppData, "settings.json");
    ChildPath(localAppData, "settings.json.bak");
    ChildPath(localAppData, "notes.json");
    ChildPath(localAppData, "notes.json.bak");
    ChildPath(localAppData, "notes");
    ChildPath(localAppData, "logs");
    assert ps[1] == b + "\\" + ChildNames[0];
    assert ps[2] == b + "\\" + ChildNames[1];
    assert ps[3] == b + "\\" + ChildNames[2];
    assert ps[4] == b + "\\" + ChildNames[3];
    assert ps[5] == b + "\\" + ChildNames[4];
    assert ps[6] == b + "\\" + ChildNames[5];
  }

  /** No two named paths coincide. */
  lemma NamedPathsDistinct(localAppData: string)
    ensures forall i, j :: 0 <= i < j < 7 ==> NamedPaths(localAppData)[i] != NamedPaths(localAppData)[j]
  {
    var b := Base(localAppData);
    var ps := NamedPaths(localAppData);
    NamedPathsForm(localAppData);
    ChildNamesDistinct();
    forall i, j | 0 <= i < j < 7
      ensures ps[i] != ps[j]
    {
      if i == 0 {
        assert |ps[j]| > |b|;
      } else {
        ChildrenDiffer(b, ChildNames[i - 1], ChildNames[j - 1]);
      }
    }
  }

  /** A note's file name `<id>.rtf` has no separator, no drive prefix and exactly one '.'. */
  lemma RtfNamePlain(noteId: Guid)
    ensures NoSeparator(ToText(noteId) + ".rtf") && !IsRooted(ToText(noteId) + ".rtf")
    ensures NoSeparator(ToText(noteId)) && forall i :: 0 <= i < 36 ==> ToText(noteId)[i] != '.'
  {
    var t := ToText(noteId);
    assert IsLowerHexDigit(t[0]) && IsLowerHexDigit(t[1]);
  }

  /** The notes folder is the base folder followed by "\\notes". */
  lemma NotesDirectoryForm(localAppData: string)
    ensures NotesDirectory(localAppData) == Base(localAppData) + "\\" + "notes"
    ensures |NotesDirectory(localAppData)| > 0 && NotesDirectory(localAppData)[|NotesDirectory(localAppData)| - 1] == 's'
  {
    ChildPath(localAppData, "notes");
  }

  /** The RTF path of a note is directly inside the notes folder and is named `<id>.rtf`. */
  lemma RtfPathShape(localAppData: string, noteId: Guid)
    ensures IsDirectChild(GetRtfPath(localAppData, noteId), NotesDirectory(localAppData))
    ensures GetFileName(GetRtfPath(localAppData, noteId)) == ToText(noteId) + ".rtf"
    ensures GetFileNameWithoutExtension(GetRtfPath(localAppData, noteId)) == ToText(noteId)
  {
    var dir := NotesDirectory(localAppData);
    NotesDirectoryForm(localAppData);
    RtfNamePlain(noteId);
    RtfPathInDirectory(dir, noteId);
  }

  lemma RtfPathInDirectory(dir: string, noteId: Guid)
    requires |dir| > 0 && !IsSeparator(dir[|dir| - 1])
    ensures IsDirectChild(Combine(dir, ToText(noteId) + ".rtf"), dir)
    ensures GetFileName(Combine(dir, ToText(noteId) + ".rtf")) == ToText(noteId) + ".rtf"
    ensures GetFileNameWithoutExtension(Combine(dir, ToText(noteId) + ".rtf")) == ToText(noteId)
  {
    RtfNamePlain(noteId);
    StemInDirectory(dir, ToText(noteId), ".rtf");
  }

  /** A plain `stem.ext` joined to a folder is a direct child of it, with that name and stem. */
  lemma StemInDirectory(dir: string, stem: string, ext: string)
    requires |dir| > 0 && !IsSeparator(dir[|dir| - 1])
    requires stem != [] && NoSeparator(stem + ext) && !IsRooted(stem + ext)
    requires forall i :: 0 <= i < |stem| ==> stem[i] != '.'
    requires |ext| >= 1 && ext[0] == '.' && forall i :: 1 <= i < |ext| ==> ext[i] != '.'
    ensures IsDirectChild(Combine(dir, stem + ext), dir)
    ensures GetFileName(Combine(dir, stem + ext)) == stem + ext
    ensures GetFileNameWithoutExtension(Combine(dir, stem + ext)) == stem
  {
    var name := stem + ext;
    var p := dir + "\\" + name;
    assert Combine(dir, name) == p;
    assert p[..|dir|] == dir;
    assert p[|dir| + 1..] == name;
    FileNameOfCombine(dir, name);
    StemOfName(dir, stem, ext);
  }
}
