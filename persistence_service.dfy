/**
 * `PersistenceService`: the debounced save request, the main-then-backup JSON load with its
 * recovery bookkeeping, the atomic write (temporary file, then replace with backup), the RTF
 * file operations and the removal of RTF files that belong to no note. The file system is a
 * map from path to content; JSON (de)serialisation is a pair of functions given by the caller.
 */
module Persistence {
  import opened Wrappers
  import opened Guids
  import opened SystemPath
  import opened AppDataPaths

  // ---------------------------------------------------------------------------------------------
  // The file system
  // ---------------------------------------------------------------------------------------------

  /** The files on disk, the folders that exist, and the paths whose reading, writing or deleting throws. */
  class FileSystem {
    var files: map<string, seq<Byte>>
    var directories: set<string>
    var locked: set<string>

    constructor (files: map<string, seq<Byte>>, directories: set<string>, locked: set<string>)
      ensures this.files == files && this.directories == directories && this.locked == locked
    {
      this.files, this.directories, this.locked := files, directories, locked;
    }

    /** `File.ReadAllBytes` (and `ReadAllText`): None when the file is missing or cannot be read. */
    method ReadAllBytes(path: string) returns (content: Option<seq<Byte>>)
      ensures content == (if path in files && path !in locked then Some(files[path]) else None)
    {
      if path in files && path !in locked {
        content := Some(files[path]);
      } else {
        content := None;
      }
    }

    /** `File.WriteAllBytes` (and `WriteAllText`): creates or overwrites, unless the path is locked. */
    method WriteAllBytes(path: string, content: seq<Byte>) returns (ok: bool)
      modifies this
      ensures ok <==> path !in locked
      ensures files == (if ok then old(files)[path := content] else old(files))
      ensures directories == old(directories) && locked == old(locked)
    {
      ok := path !in locked;
      if ok {
        files := files[path := content];
      }
    }

    /** `File.Delete`: removes the file (a missing file is no error), unless the path is locked. */
    method Delete(path: string) returns (ok: bool)
      modifies this
      ensures ok <==> path !in locked
      ensures files == (if ok then old(files) - {path} else old(files))
      ensures directories == old(directories) && locked == old(locked)
    {
      ok := path !in locked;
      if ok {
        files := files - {path};
      }
    }

    /** `File.Exists`. */
    method Exists(path: string) returns (b: bool)
      ensures b <==> path in files
    {
      b := path in files;
    }

    /**
     * `File.Replace(source, destination, backup)`: the destination's old content becomes the
     * backup. It throws, changing nothing, when either file is missing or any of the three is locked.
     */
    method Replace(source: string, destination: string, backup: string) returns (ok: bool)
      requires source != destination && backup != source && backup != destination
      modifies this
      ensures ok <==> source in old(files) && destination in old(files) && source !in locked && destination !in locked
                      && backup !in locked
      ensures files == if ok then (old(files) - {source})[destination := old(files)[source]][backup := old(files)[destination]]
                       else old(files)
      ensures directories == old(directories) && locked == old(locked)
    {
      ok := source in files && destination in files && source !in locked && destination !in locked && backup !in locked;
      if ok {
        files := (files - {source})[destination := files[source]][backup := files[destination]];
      }
    }

    /** `File.Move(source, destination)`: throws, changing nothing, when a file is already at the destination or either path is locked. */
    method Move(source: string, destination: string) returns (ok: bool)
      modifies this
      ensures ok <==> source in old(files) && destination !in old(files) && source !in locked && destination !in locked
      ensures files == if ok then (old(files) - {source})[destination := old(files)[source]] else old(files)
      ensures directories == old(directories) && locked == old(locked)
    {
      ok := source in files && destination !in files && source !in locked && destination !in locked;
      if ok {
        files := (files - {source})[destination := files[source]];
      }
    }

    /** `File.Copy(source, destination, overwrite: true)`: throws, changing nothing, when the source is missing or either path is locked. */
    method Copy(source: string, destination: string) returns (ok: bool)
      modifies this
      ensures ok <==> source in old(files) && source !in locked && destination !in locked
      ensures files == if ok then old(files)[destination := old(files)[source]] else old(files)
      ensures directories == old(directories) && locked == old(locked)
    {
      ok := source in files && source !in locked && destination !in locked;
      if ok {
        files := files[destination := files[source]];
      }
    }
  }

  // ---------------------------------------------------------------------------------------------
  // Atomic write
  // ---------------------------------------------------------------------------------------------

  /** The temporary file an atomic write goes through. */
  function TempPath(filePath: string): string {
    filePath + ".tmp"
  }

  /** The files after a successful atomic write of `content` to `filePath`, keeping the old content in `bakPath`. */
  function AtomicWritten(files: map<string, seq<Byte>>, filePath: string, bakPath: string, content: seq<Byte>)
    : map<string, seq<Byte>>
  {
    var written := files - {TempPath(filePath)};
    if filePath in files then written[filePath := content][bakPath := files[filePath]]
    else written[filePath := content]
  }

  /** The paths an atomic write touches are three different files. */
  predicate DistinctWritePaths(filePath: string, bakPath: string) {
    bakPath != filePath && bakPath != TempPath(filePath)
  }

  /**
   * The files after `AtomicWrite`, locks included. A locked `.tmp` cannot be written, so nothing
   * changes. A locked main file makes both the replace and the fallback copy throw, so the
   * `.tmp` stays behind. When only the backup is locked, the replace throws and the fallback
   * copies the `.tmp` over the main file and deletes it, leaving the backup as it was. Otherwise
   * the write succeeds.
   */
  function AtomicWriteOutcome(files: map<string, seq<Byte>>, locked: set<string>, filePath: string, bakPath: string,
                              content: seq<Byte>): map<string, seq<Byte>>
  {
    var tmpPath := TempPath(filePath);
    if tmpPath in locked then files
    else if filePath in locked then files[tmpPath := content]
    else if filePath in files && bakPath in locked then (files - {tmpPath})[filePath := content]
    else AtomicWritten(files, filePath, bakPath, content)
  }

  /**
   * `AtomicWrite`: write the `.tmp`, then replace the main file (its old content becomes the
   * backup) or move the `.tmp` into place; when either throws, copy a remaining `.tmp` over the
   * main file and delete it. Every exception is caught and logged.
   */
  method AtomicWrite(fs: FileSystem, filePath: string, bakPath: string, content: seq<Byte>)
    requires DistinctWritePaths(filePath, bakPath)
    modifies fs
    ensures fs.files == AtomicWriteOutcome(old(fs.files), old(fs.locked), filePath, bakPath, content)
    ensures fs.directories == old(fs.directories) && fs.locked == old(fs.locked)
  {
    var tmpPath := TempPath(filePath);
    ghost var before := fs.files;
    var ok := fs.WriteAllBytes(tmpPath, content);
    if ok {
      var present := fs.Exists(filePath);
      if present {
        ok := fs.Replace(tmpPath, filePath, bakPath);
      } else {
        ok := fs.Move(tmpPath, filePath);
      }
    }
    if !ok {
      var tmpExists := fs.Exists(tmpPath);
      if tmpExists {
        var copied := fs.Copy(tmpPath, filePath);
        if copied {
          var deleted := fs.Delete(tmpPath);
        }
      }
    }
    assert fs.files == AtomicWriteOutcome(before, fs.locked, filePath, bakPath, content);
  }

  /** With none of the three paths locked, `AtomicWrite` succeeds. */
  lemma AtomicWriteUnlocked(files: map<string, seq<Byte>>, locked: set<string>, filePath: string, bakPath: string,
                            content: seq<Byte>)
    requires TempPath(filePath) !in locked && filePath !in locked && bakPath !in locked
    ensures AtomicWriteOutcome(files, locked, filePath, bakPath, content) == AtomicWritten(files, filePath, bakPath, content)
  {
  }

  /**
   * `AtomicWrite` never loses the main file: afterwards it holds the new content or its old
   * content, and the new content whenever the main file and the `.tmp` are writable. The backup
   * is unchanged or holds the main file's previous content, the `.tmp` is gone or holds the new
   * content, and every other file is as it was.
   */
  lemma AtomicWriteKeepsData(files: map<string, seq<Byte>>, locked: set<string>, filePath: string, bakPath: string,
                             content: seq<Byte>)
    requires DistinctWritePaths(filePath, bakPath)
    ensures var after := AtomicWriteOutcome(files, locked, filePath, bakPath, content);
            (filePath in files ==> filePath in after)
            && (filePath in after ==> after[filePath] == content || (filePath in files && after[filePath] == files[filePath]))
    ensures var after := AtomicWriteOutcome(files, locked, filePath, bakPath, content);
            TempPath(filePath) !in locked && filePath !in locked ==> filePath in after && after[filePath] == content
    ensures var after := AtomicWriteOutcome(files, locked, filePath, bakPath, content);
            (bakPath in files ==> bakPath in after)
            && (bakPath in after ==> (bakPath in files && after[bakPath] == files[bakPath])
                                     || (filePath in files && after[bakPath] == files[filePath]))
    ensures var after := AtomicWriteOutcome(files, locked, filePath, bakPath, content);
            TempPath(filePath) in after ==> after[TempPath(filePath)] == content
                                            || (TempPath(filePath) in files && after[TempPath(filePath)] == files[TempPath(filePath)])
    ensures var after := AtomicWriteOutcome(files, locked, filePath, bakPath, content);
            forall p :: p != filePath && p != bakPath && p != TempPath(filePath) ==>
              (p in after <==> p in files) && (p in files ==> after[p] == files[p])
  {
    AtomicWriteEffect(files, filePath, bakPath, content);
  }

  /**
   * A successful atomic write leaves the main file holding the content and no temporary file;
   * the backup holds the main file's previous content when there was one, and every other file
   * is as it was.
   */
  lemma AtomicWriteEffect(files: map<string, seq<Byte>>, filePath: string, bakPath: string, content: seq<Byte>)
    requires DistinctWritePaths(filePath, bakPath)
    ensures var after := AtomicWritten(files, filePath, bakPath, content);
            filePath in after && after[filePath] == content && TempPath(filePath) !in after
    ensures var after := AtomicWritten(files, filePath, bakPath, content);
            filePath in files ==> bakPath in after && after[bakPath] == files[filePath]
    ensures var after := AtomicWritten(files, filePath, bakPath, content);
            filePath !in files ==>
              (bakPath in after <==> bakPath in files) && (bakPath in files ==> after[bakPath] == files[bakPath])
    ensures var after := AtomicWritten(files, filePath, bakPath, content);
            forall p :: p != filePath && p != bakPath && p != TempPath(filePath) ==>
              (p in after <==> p in files) && (p in files ==> after[p] == files[p])
  {
    assert TempPath(filePath) != filePath;
  }

  /** After two saves the backup holds the first content and the main file the second. */
  lemma BackupHoldsPreviousSave(files: map<string, seq<Byte>>, filePath: string, bakPath: string,
                                first: seq<Byte>, second: seq<Byte>)
    requires DistinctWritePaths(filePath, bakPath)
    ensures var after := AtomicWritten(AtomicWritten(files, filePath, bakPath, first), filePath, bakPath, second);
            filePath in after && after[filePath] == second && bakPath in after && after[bakPath] == first
  {
    AtomicWriteEffect(files, filePath, bakPath, first);
    AtomicWriteEffect(AtomicWritten(files, filePath, bakPath, first), filePath, bakPath, second);
  }

  // ---------------------------------------------------------------------------------------------
  // Loading with fallback
  // ---------------------------------------------------------------------------------------------

  /** What reading and deserialising one file gives: no file, a failure (exception or null), or a value. */
  datatype ReadResult<T> = Missing | Failed | Parsed(value: T)

  /** Reading `path` and deserialising it; `deserialize` answers None for an exception or a null result. */
  function ReadJson<T>(files: map<string, seq<Byte>>, locked: set<string>, path: string,
                       deserialize: seq<Byte> -> Option<T>): ReadResult<T>
  {
    if path !in files then Missing
    else if path in locked then Failed
    else match deserialize(files[path])
      case Some(v) => Parsed(v)
      case None => Failed
  }

  /** Where a load took its data from. */
  datatype LoadOutcome<T> = FromMain(value: T) | FromBackup(value: T) | NoData

  /** The main file when it parses, else the backup when it parses, else nothing. */
  function ChooseLoad<T>(main: ReadResult<T>, backup: ReadResult<T>): LoadOutcome<T> {
    if main.Parsed? then FromMain(main.value)
    else if backup.Parsed? then FromBackup(backup.value)
    else NoData
  }

  /** The data a load returns, if any. */
  function LoadedData<T>(outcome: LoadOutcome<T>): (r: Option<T>)
    ensures r.None? <==> outcome.NoData?
  {
    match outcome
    case FromMain(v) => Some(v)
    case FromBackup(v) => Some(v)
    case NoData => None
  }

  /** The user notice for one file restored from its backup. */
  function RecoveryLine(displayName: string): string {
    displayName + " が破損していたため、バックアップから復旧しました。"
  }

  /** The recovery message after one more restored file: the new line, joined by a newline onto any earlier message. */
  function WithRecovery(message: Option<string>, displayName: string): string {
    match message
    case None => RecoveryLine(displayName)
    case Some(m) => m + "\n" + RecoveryLine(displayName)
  }

  /** Each recovery keeps the earlier message as the text before a newline, and ends with the new notice. */
  lemma RecoveryMessageAppends(message: Option<string>, displayName: string)
    ensures var m := WithRecovery(message, displayName);
            |m| >= |RecoveryLine(displayName)| && m[|m| - |RecoveryLine(displayName)|..] == RecoveryLine(displayName)
    ensures message.Some? ==> var m := WithRecovery(message, displayName);
            |m| > |message.value| && m[..|message.value|] == message.value && m[|message.value|] == '\n'
  {
    var line := RecoveryLine(displayName);
    if message.Some? {
      var m := WithRecovery(message, displayName);
      assert m == message.value + ("\n" + line);
      assert m[|m| - |line|..] == line;
    }
  }

  /**
   * A save that the deserialiser reads back is what the next load returns, from the main file,
   * whenever the main file and its `.tmp` are writable (a locked backup does not matter).
   */
  lemma LoadAfterSave<T>(files: map<string, seq<Byte>>, locked: set<string>, filePath: string, bakPath: string,
                         content: seq<Byte>, deserialize: seq<Byte> -> Option<T>, data: T)
    requires DistinctWritePaths(filePath, bakPath) && filePath !in locked && TempPath(filePath) !in locked
    requires deserialize(content) == Some(data)
    ensures var after := AtomicWriteOutcome(files, locked, filePath, bakPath, content);
            ChooseLoad(ReadJson(after, locked, filePath, deserialize), ReadJson(after, locked, bakPath, deserialize))
              == FromMain(data)
  {
    AtomicWriteKeepsData(files, locked, filePath, bakPath, content);
  }

  /**
   * After two saves, a main file that no longer parses falls back to the first save: the
   * backup made by the second save.
   */
  lemma RecoveryAfterCorruption<T>(files: map<string, seq<Byte>>, locked: set<string>, filePath: string,
                                   bakPath: string, first: seq<Byte>, second: seq<Byte>, damaged: seq<Byte>,
                                   deserialize: seq<Byte> -> Option<T>, data: T)
    requires DistinctWritePaths(filePath, bakPath)
    requires TempPath(filePath) !in locked && filePath !in locked && bakPath !in locked
    requires deserialize(first) == Some(data) && deserialize(damaged).None?
    ensures var saved := AtomicWriteOutcome(AtomicWriteOutcome(files, locked, filePath, bakPath, first), locked,
                                            filePath, bakPath, second);
            var after := saved[filePath := damaged];
            ChooseLoad(ReadJson(after, locked, filePath, deserialize), ReadJson(after, locked, bakPath, deserialize))
              == FromBackup(data)
  {
    AtomicWriteUnlocked(files, locked, filePath, bakPath, first);
    AtomicWriteUnlocked(AtomicWritten(files, filePath, bakPath, first), locked, filePath, bakPath, second);
    BackupHoldsPreviousSave(files, filePath, bakPath, first, second);
  }

  // ---------------------------------------------------------------------------------------------
  // Orphaned RTF files
  // ---------------------------------------------------------------------------------------------

  /** The name ends in ".rtf", as the "*.rtf" search pattern asks. */
  predicate HasRtfExtension(p: string) {
    |p| >= 4 && p[|p| - 4..] == ".rtf"
  }

  /** What `Directory.GetFiles(dir, "*.rtf")` lists. */
  predicate ListedRtf(p: string, dir: string) {
    IsDirectChild(p, dir) && HasRtfExtension(p)
  }

  /** The file is named after a Guid that is not one of the valid notes. */
  predicate IsOrphan(p: string, valid: set<Guid>) {
    match TryParse(GetFileNameWithoutExtension(p))
    case Some(id) => id !in valid
    case None => false
  }

  /** The files the cleanup removes: listed, orphaned and deletable. */
  function Orphans(paths: set<string>, dir: string, valid: set<Guid>, locked: set<string>): set<string> {
    set p | p in paths && ListedRtf(p, dir) && IsOrphan(p, valid) && p !in locked
  }

  /** The name of file `p` parsed as a Guid (a method, so the loop below does not unfold the parser). */
  method ParseStem(p: string) returns (id: Option<Guid>)
    ensures id == TryParse(GetFileNameWithoutExtension(p))
  {
    id := TryParse(GetFileNameWithoutExtension(p));
  }

  /**
   * `CleanupOrphanedRtfFiles`: nothing when the notes folder is missing; otherwise every listed
   * RTF file named after a Guid outside `valid` is deleted, a failed delete being skipped and not
   * counted.
   */
  method CleanupOrphanedRtfFiles(fs: FileSystem, notesDir: string, valid: set<Guid>) returns (cleaned: nat)
    modifies fs
    ensures notesDir !in old(fs.directories) ==> fs.files == old(fs.files) && cleaned == 0
    ensures notesDir in old(fs.directories) ==>
              var removed := Orphans(old(fs.files).Keys, notesDir, valid, old(fs.locked));
              fs.files == old(fs.files) - removed && cleaned == |removed|
    ensures fs.directories == old(fs.directories) && fs.locked == old(fs.locked)
  {
    if notesDir !in fs.directories {
      return 0;
    }
    ghost var before := fs.files;
    var listing := set p | p in fs.files.Keys && ListedRtf(p, notesDir);
    ghost var removable := Orphans(listing, notesDir, valid, fs.locked);
    var remaining := listing;
    ghost var gone: set<string> := {};
    cleaned := 0;
    while remaining != {}
      invariant remaining <= listing && gone <= removable && gone !! remaining
      invariant fs.directories == old(fs.directories) && fs.locked == old(fs.locked)
      invariant fs.files == before - gone && cleaned == |gone|
      invariant forall q :: q in listing && q !in remaining ==> (q in gone <==> q in removable)
      decreases |remaining|
    {
      var p :| p in remaining;
      var deleted := CleanOne(fs, p, valid);
      if deleted {
        cleaned := cleaned + 1;
        MapMinusStep(before, gone, p);
        gone := gone + {p};
      }
      remaining := remaining - {p};
    }
    assert gone == removable;
    OrphansOfListing(before.Keys, listing, notesDir, valid, fs.locked);
  }

  /** One turn of the cleanup: deletes `p` when it is an orphan, telling whether it went. */
  method CleanOne(fs: FileSystem, p: string, valid: set<Guid>) returns (deleted: bool)
    modifies fs
    ensures deleted <==> IsOrphan(p, valid) && p !in fs.locked
    ensures fs.files == (if deleted then old(fs.files) - {p} else old(fs.files))
    ensures fs.directories == old(fs.directories) && fs.locked == old(fs.locked)
  {
    var id := ParseStem(p);
    deleted := false;
    if id.Some? && id.value !in valid {
      deleted := fs.Delete(p);
    }
  }

  /** Removing one more key from a map with keys already removed. */
  lemma MapMinusStep(m: map<string, seq<Byte>>, gone: set<string>, p: string)
    ensures (m - gone) - {p} == m - (gone + {p})
  {
  }

  /** Cleaning the listing removes the same files as cleaning the whole folder. */
  lemma OrphansOfListing(paths: set<string>, listing: set<string>, dir: string, valid: set<Guid>, locked: set<string>)
    requires listing == set p | p in paths && ListedRtf(p, dir)
    ensures Orphans(listing, dir, valid, locked) == Orphans(paths, dir, valid, locked)
  {
  }

  /** A note's RTF file is listed by the cleanup, and its name parses back to the note's id. */
  lemma RtfPathListed(localAppData: string, id: Guid)
    ensures ListedRtf(GetRtfPath(localAppData, id), NotesDirectory(localAppData))
    ensures TryParse(GetFileNameWithoutExtension(GetRtfPath(localAppData, id))) == Some(id)
  {
    RtfPathShape(localAppData, id);
    RtfPathEndsInRtf(GetRtfPath(localAppData, id), ToText(id));
    ParseToText(id);
  }

  /** A path whose file name is `<stem>.rtf` ends in ".rtf". */
  lemma RtfPathEndsInRtf(p: string, stem: string)
    requires GetFileName(p) == stem + ".rtf"
    ensures HasRtfExtension(p)
  {
    var name := GetFileName(p);
    assert name[|name| - 4..] == ".rtf";
    assert p[|p| - 4..] == name[|name| - 4..];
  }

  /** A valid note's RTF file is never removed by the cleanup. */
  lemma CleanupKeepsValidNotes(localAppData: string, paths: set<string>, valid: set<Guid>, locked: set<string>,
                               id: Guid)
    requires id in valid
    ensures GetRtfPath(localAppData, id) !in Orphans(paths, NotesDirectory(localAppData), valid, locked)
  {
    RtfPathListed(localAppData, id);
  }

  /** The RTF file of a note that is not valid is removed, when it exists and can be deleted. */
  lemma CleanupRemovesOrphanNote(localAppData: string, paths: set<string>, valid: set<Guid>, locked: set<string>,
                                 id: Guid)
    requires id !in valid && GetRtfPath(localAppData, id) in paths && GetRtfPath(localAppData, id) !in locked
    ensures GetRtfPath(localAppData, id) in Orphans(paths, NotesDirectory(localAppData), valid, locked)
  {
    RtfPathListed(localAppData, id);
  }

  // ---------------------------------------------------------------------------------------------
  // The service
  // ---------------------------------------------------------------------------------------------

  /** The debounce interval, in milliseconds. */
  const DebounceMillis := 3000

  class PersistenceService {
    /** The local application-data folder the paths are built on. */
    const localAppData: string
    /** Whether the debounce timer runs, and when it fires if it does. */
    var timerRunning: bool
    var deadline: int
    var isDisposed: bool
    /** How many times `SaveRequested` has been raised. */
    var saveRequests: nat
    var corruptionRecovered: bool
    var recoveryMessage: Option<string>

    /** A disposed service has its timer stopped. */
    predicate Valid()
      reads this
    {
      isDisposed ==> !timerRunning
    }

    constructor (localAppData: string)
      ensures Valid() && this.localAppData == localAppData
      ensures !timerRunning && !isDisposed && saveRequests == 0
      ensures !corruptionRecovered && recoveryMessage == None
    {
      this.localAppData := localAppData;
      timerRunning, deadline, isDisposed, saveRequests := false, 0, false, 0;
      corruptionRecovered, recoveryMessage := false, None;
    }

    /** `ScheduleSave` at time `now`: restarts the timer, so it fires one interval after the last call. */
    method ScheduleSave(now: int)
      requires Valid()
      modifies this
      ensures Valid()
      ensures old(isDisposed) ==> timerRunning == old(timerRunning) && deadline == old(deadline)
      ensures !old(isDisposed) ==> timerRunning && deadline == now + DebounceMillis
      ensures isDisposed == old(isDisposed) && saveRequests == old(saveRequests)
      ensures corruptionRecovered == old(corruptionRecovered) && recoveryMessage == old(recoveryMessage)
    {
      if isDisposed {
        return;
      }
      timerRunning := false;
      timerRunning, deadline := true, now + DebounceMillis;
    }

    /** Stops the timer and raises `SaveRequested` once; an exception from a handler is caught. */
    method RaiseSave()
      requires Valid()
      modifies this
      ensures Valid() && !timerRunning && saveRequests == old(saveRequests) + 1
      ensures deadline == old(deadline) && isDisposed == old(isDisposed)
      ensures corruptionRecovered == old(corruptionRecovered) && recoveryMessage == old(recoveryMessage)
    {
      timerRunning := false;
      saveRequests := saveRequests + 1;
    }

    /** `FlushSave`: saves now, whether or not the timer runs or the service is disposed. */
    method FlushSave()
      requires Valid()
      modifies this
      ensures Valid() && !timerRunning && saveRequests == old(saveRequests) + 1
      ensures deadline == old(deadline) && isDisposed == old(isDisposed)
      ensures corruptionRecovered == old(corruptionRecovered) && recoveryMessage == old(recoveryMessage)
    {
      RaiseSave();
    }

    /** `OnDebounceTick`: the timer fires once, then stays stopped until the next `ScheduleSave`. */
    method OnDebounceTick()
      requires Valid()
      modifies this
      ensures Valid() && !timerRunning && saveRequests == old(saveRequests) + 1
      ensures deadline == old(deadline) && isDisposed == old(isDisposed)
      ensures corruptionRecovered == old(corruptionRecovered) && recoveryMessage == old(recoveryMessage)
    {
      RaiseSave();
    }

    /** `Dispose`: idempotent; afterwards the timer is stopped and `ScheduleSave` does nothing. */
    method Dispose()
      requires Valid()
      modifies this
      ensures Valid() && isDisposed && !timerRunning
      ensures old(isDisposed) ==> timerRunning == old(timerRunning)
      ensures deadline == old(deadline) && saveRequests == old(saveRequests)
      ensures corruptionRecovered == old(corruptionRecovered) && recoveryMessage == old(recoveryMessage)
    {
      if isDisposed {
        return;
      }
      isDisposed := true;
      timerRunning := false;
    }

    /** Reads and deserialises one file; a missing file, an unreadable file or a failed parse gives no value. */
    method ReadJsonFile<T>(fs: FileSystem, path: string, deserialize: seq<Byte> -> Option<T>)
      returns (r: ReadResult<T>)
      ensures r == ReadJson(fs.files, fs.locked, path, deserialize)
    {
      if path !in fs.files {
        return Missing;
      }
      var content := fs.ReadAllBytes(path);
      if content.None? {
        return Failed;
      }
      var data := deserialize(content.value);
      r := if data.Some? then Parsed(data.value) else Failed;
    }

    /**
     * `LoadJsonWithFallback`: the main file's data if it parses, else the backup's, recording the
     * recovery; nothing when neither parses.
     */
    method LoadJsonWithFallback<T>(fs: FileSystem, mainPath: string, bakPath: string, displayName: string,
                                   deserialize: seq<Byte> -> Option<T>)
      returns (data: Option<T>)
      requires Valid()
      modifies this
      ensures Valid()
      ensures var outcome := ChooseLoad(ReadJson(fs.files, fs.locked, mainPath, deserialize),
                                        ReadJson(fs.files, fs.locked, bakPath, deserialize));
              data == LoadedData(outcome)
              && (outcome.FromBackup? ==>
                    corruptionRecovered && recoveryMessage == Some(WithRecovery(old(recoveryMessage), displayName)))
              && (!outcome.FromBackup? ==>
                    corruptionRecovered == old(corruptionRecovered) && recoveryMessage == old(recoveryMessage))
      ensures timerRunning == old(timerRunning) && deadline == old(deadline)
      ensures isDisposed == old(isDisposed) && saveRequests == old(saveRequests)
    {
      var main := ReadJsonFile(fs, mainPath, deserialize);
      if main.Parsed? {
        return Some(main.value);
      }
      var backup := ReadJsonFile(fs, bakPath, deserialize);
      if backup.Parsed? {
        corruptionRecovered := true;
        recoveryMessage := Some(WithRecovery(recoveryMessage, displayName));
        return Some(backup.value);
      }
      return None;
    }

    /** `LoadNotesData`: notes.json, falling back to notes.json.bak. */
    method LoadNotesData<T>(fs: FileSystem, deserialize: seq<Byte> -> Option<T>) returns (data: Option<T>)
      requires Valid()
      modifies this
      ensures Valid()
      ensures data == LoadedData(ChooseLoad(ReadJson(fs.files, fs.locked, NotesJson(localAppData), deserialize),
                                            ReadJson(fs.files, fs.locked, NotesJsonBak(localAppData), deserialize)))
      ensures timerRunning == old(timerRunning) && isDisposed == old(isDisposed) && saveRequests == old(saveRequests)
    {
      data := LoadJsonWithFallback(fs, NotesJson(localAppData), NotesJsonBak(localAppData), "notes.json", deserialize);
    }

    /** `LoadSettings`: settings.json, falling back to settings.json.bak. */
    method LoadSettings<T>(fs: FileSystem, deserialize: seq<Byte> -> Option<T>) returns (data: Option<T>)
      requires Valid()
      modifies this
      ensures Valid()
      ensures data == LoadedData(ChooseLoad(ReadJson(fs.files, fs.locked, SettingsJson(localAppData), deserialize),
                                            ReadJson(fs.files, fs.locked, SettingsJsonBak(localAppData), deserialize)))
      ensures timerRunning == old(timerRunning) && isDisposed == old(isDisposed) && saveRequests == old(saveRequests)
    {
      data := LoadJsonWithFallback(fs, SettingsJson(localAppData), SettingsJsonBak(localAppData), "settings.json",
                                   deserialize);
    }

    /** `SaveNotesData`: the serialised notes, written atomically to notes.json with notes.json.bak as backup. */
    method SaveNotesData(fs: FileSystem, json: seq<Byte>)
      modifies fs
      ensures fs.files == AtomicWriteOutcome(old(fs.files), old(fs.locked), NotesJson(localAppData), NotesJsonBak(localAppData), json)
      ensures fs.directories == old(fs.directories) && fs.locked == old(fs.locked)
    {
      BackupNamesDistinct(localAppData);
      AtomicWrite(fs, NotesJson(localAppData), NotesJsonBak(localAppData), json);
    }

    /** `SaveSettings`: the serialised settings, written atomically to settings.json with settings.json.bak as backup. */
    method SaveSettings(fs: FileSystem, json: seq<Byte>)
      modifies fs
      ensures fs.files == AtomicWriteOutcome(old(fs.files), old(fs.locked), SettingsJson(localAppData), SettingsJsonBak(localAppData), json)
      ensures fs.directories == old(fs.directories) && fs.locked == old(fs.locked)
    {
      BackupNamesDistinct(localAppData);
      AtomicWrite(fs, SettingsJson(localAppData), SettingsJsonBak(localAppData), json);
    }

    /** `LoadRtf`: the note's RTF bytes, or None when the file is missing or cannot be read. */
    method LoadRtf(fs: FileSystem, noteId: Guid) returns (content: Option<seq<Byte>>)
      ensures content == RtfContent(fs.files, fs.locked, localAppData, noteId)
    {
      var path := GetRtfPath(localAppData, noteId);
      if path !in fs.files {
        return None;
      }
      content := fs.ReadAllBytes(path);
    }

    /** `SaveRtf`: writes the note's RTF bytes; a failed write is logged and changes nothing. */
    method SaveRtf(fs: FileSystem, noteId: Guid, rtf: seq<Byte>)
      modifies fs
      ensures var path := GetRtfPath(localAppData, noteId);
              fs.files == (if path in fs.locked then old(fs.files) else old(fs.files)[path := rtf])
      ensures fs.directories == old(fs.directories) && fs.locked == old(fs.locked)
    {
      var ok := fs.WriteAllBytes(GetRtfPath(localAppData, noteId), rtf);
    }

    /** `DeleteRtf`: removes the note's RTF file if it exists; a failed delete changes nothing. */
    method DeleteRtf(fs: FileSystem, noteId: Guid)
      modifies fs
      ensures var path := GetRtfPath(localAppData, noteId);
              fs.files == (if path in fs.locked then old(fs.files) else old(fs.files) - {path})
      ensures fs.directories == old(fs.directories) && fs.locked == old(fs.locked)
    {
      var path := GetRtfPath(localAppData, noteId);
      if path in fs.files {
        var ok := fs.Delete(path);
      }
    }

    /** `CleanupOrphanedRtfFiles` on the notes folder. */
    method CleanupOrphans(fs: FileSystem, valid: set<Guid>) returns (cleaned: nat)
      modifies fs
      ensures var dir := NotesDirectory(localAppData);
              var removed := if dir in old(fs.directories) then Orphans(old(fs.files).Keys, dir, valid, old(fs.locked)) else {};
              fs.files == old(fs.files) - removed && cleaned == |removed|
      ensures fs.directories == old(fs.directories) && fs.locked == old(fs.locked)
    {
      cleaned := CleanupOrphanedRtfFiles(fs, NotesDirectory(localAppData), valid);
    }
  }

  /** The backup of each JSON file is neither that file nor its temporary file. */
  lemma BackupNamesDistinct(localAppData: string)
    ensures DistinctWritePaths(NotesJson(localAppData), NotesJsonBak(localAppData))
    ensures DistinctWritePaths(SettingsJson(localAppData), SettingsJsonBak(localAppData))
  {
    BackupNames(localAppData);
    var n, s := NotesJson(localAppData), SettingsJson(localAppData);
    assert (n + ".bak")[|n| + 1] == 'b' && TempPath(n)[|n| + 1] == 't';
    assert (s + ".bak")[|s| + 1] == 'b' && TempPath(s)[|s| + 1] == 't';
  }

  /** What `LoadRtf` returns for a note. */
  function RtfContent(files: map<string, seq<Byte>>, locked: set<string>, localAppData: string, noteId: Guid)
    : Option<seq<Byte>>
  {
    var path := GetRtfPath(localAppData, noteId);
    if path in files && path !in locked then Some(files[path]) else None
  }

  /** RTF bytes saved for a note are what loading that note gives back; other notes' files are untouched. */
  lemma RtfSaveLoadRoundTrip(files: map<string, seq<Byte>>, locked: set<string>, localAppData: string,
                             noteId: Guid, other: Guid, rtf: seq<Byte>)
    requires GetRtfPath(localAppData, noteId) !in locked && other != noteId
    ensures var saved := files[GetRtfPath(localAppData, noteId) := rtf];
            RtfContent(saved, locked, localAppData, noteId) == Some(rtf)
            && RtfContent(saved, locked, localAppData, other) == RtfContent(files, locked, localAppData, other)
  {
    RtfPathsDistinct(localAppData, noteId, other);
  }

  /** Different notes have different RTF files. */
  lemma RtfPathsDistinct(localAppData: string, a: Guid, b: Guid)
    requires a != b
    ensures GetRtfPath(localAppData, a) != GetRtfPath(localAppData, b)
  {
    RtfPathShape(localAppData, a);
    RtfPathShape(localAppData, b);
    if GetRtfPath(localAppData, a) == GetRtfPath(localAppData, b) {
      ToTextInjective(a, b);
    }
  }
}
