// The virtual-desktop query layer: COM answers turned into "id or unknown", and the registry's
// list of desktops decoded from its 16-bytes-per-desktop blob.
module Desktops {
  import opened Wrappers
  import opened Text
  import opened Guids

  // ---------------------------------------------------------------------------------------------
  // The registry (HKEY_CURRENT_USER), as a snapshot
  // ---------------------------------------------------------------------------------------------

  /** A registry value: only the kinds the service reads are told apart. */
  datatype RegValue = Binary(bytes: seq<Byte>) | Str(text: string) | Number(n: int)

  /** A key's values, by case-folded value name. */
  datatype RegistryKey = RegistryKey(values: map<string, RegValue>)

  /**
   * The current user's hive: keys by case-folded path, and the paths whose opening or reading
   * fails with an exception (access denied, key deleted while open, ...).
   */
  datatype Registry = Registry(keys: map<string, RegistryKey>, denied: set<string>)

  datatype KeyLookup = Opened(key: RegistryKey) | NotFound | Failed

  /** Registry names compare without regard to ASCII case. */
  function FoldChar(c: char): char {
    if 'A' <= c <= 'Z' then (c as int + 32) as char else c
  }

  function Fold(s: string): (r: string)
    ensures |r| == |s|
  {
    seq(|s|, i requires 0 <= i < |s| => FoldChar(s[i]))
  }

  /** `Registry.CurrentUser.OpenSubKey(path)`, with its exception as `Failed`. */
  function OpenSubKey(reg: Registry, path: string): KeyLookup {
    if Fold(path) in reg.denied then Failed
    else if Fold(path) in reg.keys then Opened(reg.keys[Fold(path)])
    else NotFound
  }

  function GetValue(key: RegistryKey, name: string): Option<RegValue> {
    if Fold(name) in key.values then Some(key.values[Fold(name)]) else None
  }

  const VdRegPath: string := "SOFTWARE\\Microsoft\\Windows\\CurrentVersion\\Explorer\\VirtualDesktops"
  const VdDesktopsPath: string := VdRegPath + "\\Desktops"

  /** The key holding one desktop's settings: `...\Desktops\{<id>}`. */
  function DesktopKeyPath(id: Guid): string {
    VdDesktopsPath + "\\{" + ToText(id) + "}"
  }

  /** A desktop's stored name: the desktop key's "Name" value when it is a string; any failure gives none. */
  function DesktopName(reg: Registry, id: Guid): Option<string> {
    match OpenSubKey(reg, DesktopKeyPath(id))
    case Opened(key) =>
      (match GetValue(key, "Name")
       case Some(Str(name)) => Some(name)
       case _ => None)
    case _ => None
  }

  // ---------------------------------------------------------------------------------------------
  // The desktop list
  // ---------------------------------------------------------------------------------------------

  datatype DesktopEntry = DesktopEntry(id: Guid, name: string)

  /** The label of a desktop without a stored name, numbered from 1 in list order. */
  function FallbackLabel(position: nat): string {
    "Desktop " + NatToString(position)
  }

  /**
   * The entries decoded from byte `i` of the blob on, `count` entries having been decoded
   * before: one entry per whole 16-byte block, a shorter tail being ignored.
   */
  function Entries(names: Guid -> Option<string>, blob: seq<Byte>, i: nat, count: nat): seq<DesktopEntry>
    decreases |blob| - i
  {
    if i + 16 > |blob| then []
    else
      [EntryFor(names, blob[i..i + 16], count)] + Entries(names, blob, i + 16, count + 1)
  }

  /** The entry for identifier `id` after `count` others: its stored name, else its position. */
  function EntryFor(names: Guid -> Option<string>, id: Guid, count: nat): DesktopEntry {
    DesktopEntry(id, names(id).GetOr(FallbackLabel(count + 1)))
  }

  /** The desktop names a registry snapshot holds, looked up by identifier. */
  function NamesIn(reg: Registry): Guid -> Option<string> {
    (id: Guid) => DesktopName(reg, id)
  }

  /** The blob stored under the VirtualDesktops key, when the key opens and the value is binary. */
  function IdsBlob(reg: Registry): Option<seq<Byte>> {
    match OpenSubKey(reg, VdRegPath)
    case Opened(key) =>
      (match GetValue(key, "VirtualDesktopIDs")
       case Some(Binary(bytes)) => Some(bytes)
       case _ => None)
    case _ => None
  }

  /** A blob the list is decoded from: non-empty and a whole number of identifiers. */
  predicate WellFormedBlob(blob: seq<Byte>) {
    |blob| > 0 && |blob| % 16 == 0
  }

  /** What `GetDesktopListFromRegistry` returns for a registry snapshot. */
  function DesktopList(reg: Registry): seq<DesktopEntry> {
    match IdsBlob(reg)
    case Some(blob) => if WellFormedBlob(blob) then Entries(NamesIn(reg), blob, 0, 0) else []
    case None => []
  }

  /** The identifiers of a list laid end to end, as they are stored in the blob. */
  function ConcatIds(es: seq<DesktopEntry>): (bs: seq<Byte>)
    ensures |bs| == 16 * |es|
  {
    if es == [] then [] else es[0].id + ConcatIds(es[1..])
  }

  lemma {:induction false} EntriesCount(names: Guid -> Option<string>, blob: seq<Byte>, i: nat, count: nat)
    requires i <= |blob|
    ensures |Entries(names, blob, i, count)| == (|blob| - i) / 16
    decreases |blob| - i
  {
    if i + 16 <= |blob| {
      EntriesCount(names, blob, i + 16, count + 1);
    }
  }

  /** Entry k decoded from byte `i` on is block k from there, named or labelled by its overall position. */
  lemma {:induction false} EntryAt(names: Guid -> Option<string>, blob: seq<Byte>, i: nat, count: nat, k: nat)
    requires k < |Entries(names, blob, i, count)|
    ensures i + 16 * k + 16 <= |blob|
    ensures Entries(names, blob, i, count)[k] == EntryFor(names, blob[i + 16 * k..i + 16 * k + 16], count + k)
    decreases |blob| - i
  {
    if k > 0 {
      EntryAt(names, blob, i + 16, count + 1, k - 1);
    }
  }

  /** Laying the identifiers end to end gives back the blob from byte `i` on, when that is whole blocks. */
  lemma {:induction false} EntriesRebuildBlob(names: Guid -> Option<string>, blob: seq<Byte>, i: nat, count: nat)
    requires i <= |blob| && (|blob| - i) % 16 == 0
    ensures ConcatIds(Entries(names, blob, i, count)) == blob[i..]
    decreases |blob| - i
  {
    if i + 16 <= |blob| {
      var es := Entries(names, blob, i, count);
      EntriesRebuildBlob(names, blob, i + 16, count + 1);
      assert es[1..] == Entries(names, blob, i + 16, count + 1);
      assert blob[i..] == blob[i..i + 16] + blob[i + 16..];
    } else {
      assert i == |blob|;
    }
  }

  /** A missing key, a missing or non-binary value, or an empty blob gives an empty list. */
  lemma NoBlobGivesEmptyList(reg: Registry)
    requires IdsBlob(reg).None? || IdsBlob(reg) == Some([])
    ensures DesktopList(reg) == []
  {
  }

  /** A blob that is not a whole number of 16-byte identifiers gives an empty list. */
  lemma RaggedBlobGivesEmptyList(reg: Registry)
    requires IdsBlob(reg).Some? && |IdsBlob(reg).value| % 16 != 0
    ensures DesktopList(reg) == []
  {
  }

  /**
   * A well-formed blob gives one entry per identifier, in stored order: the list's identifiers
   * laid end to end are the blob again.
   */
  lemma WellFormedBlobDecoded(reg: Registry)
    requires IdsBlob(reg).Some? && WellFormedBlob(IdsBlob(reg).value)
    ensures |DesktopList(reg)| == |IdsBlob(reg).value| / 16
    ensures ConcatIds(DesktopList(reg)) == IdsBlob(reg).value
  {
    var blob := IdsBlob(reg).value;
    EntriesCount(NamesIn(reg), blob, 0, 0);
    EntriesRebuildBlob(NamesIn(reg), blob, 0, 0);
    assert blob[0..] == blob;
  }

  /** Entry i holds bytes [16i, 16i+16) and is named from the registry, else "Desktop i+1". */
  lemma DesktopListEntry(reg: Registry, i: nat)
    requires i < |DesktopList(reg)|
    ensures IdsBlob(reg).Some? && 16 * i + 16 <= |IdsBlob(reg).value|
    ensures DesktopList(reg)[i].id == IdsBlob(reg).value[16 * i..16 * i + 16]
    ensures DesktopName(reg, DesktopList(reg)[i].id).None? ==> DesktopList(reg)[i].name == FallbackLabel(i + 1)
    ensures DesktopName(reg, DesktopList(reg)[i].id).Some? ==>
              DesktopList(reg)[i].name == DesktopName(reg, DesktopList(reg)[i].id).value
  {
    var blob := IdsBlob(reg).value;
    EntryAt(NamesIn(reg), blob, 0, 0, i);
  }

  /** Two unnamed desktops at different positions get different labels. */
  lemma FallbackLabelsDistinct(i: nat, j: nat)
    requires i != j
    ensures FallbackLabel(i + 1) != FallbackLabel(j + 1)
  {
    if FallbackLabel(i + 1) == FallbackLabel(j + 1) {
      assert NatToString(i + 1) == FallbackLabel(i + 1)[8..];
      assert NatToString(j + 1) == FallbackLabel(j + 1)[8..];
      NatToStringInjective(i + 1, j + 1);
    }
  }

  // ---------------------------------------------------------------------------------------------
  // The COM manager, as answers given to the service
  // ---------------------------------------------------------------------------------------------

  /** How creating the desktop manager goes: class unknown, created (and the right interface or not), or an exception. */
  datatype Activation = ClassMissing | Created(isManager: bool) | ActivationFailed

  /** The outcome of one COM call: the HRESULT with the out-value, or an exception. */
  datatype ComCall<T> = Returned(hr: int, value: T) | Threw

  /** How the current-desktop probe goes, step by step. */
  datatype Probe =
    | WindowFailed             // creating the throwaway window throws
    | ShowFailed               // showing it throws
    | QueryFailed              // the COM call throws
    | Answered(hr: int, id: Guid)

  /** `GetDesktopName`: reads the desktop's key; a missing key, a non-string value or an exception gives none. */
  method GetDesktopName(reg: Registry, id: Guid) returns (name: Option<string>)
    ensures name == DesktopName(reg, id)
  {
    var path := DesktopKeyPath(id);
    match OpenSubKey(reg, path) {
      case Opened(key) =>
        match GetValue(key, "Name") {
          case Some(Str(s)) =>
            return Some(s);
          case _ =>
            return None;
        }
      case _ =>
        return None;
    }
  }

  /** One turn of the decoding loop: the entry for one identifier. */
  method DecodeEntry(reg: Registry, id: Guid, count: nat) returns (e: DesktopEntry)
    ensures e == EntryFor(NamesIn(reg), id, count)
  {
    var name := GetDesktopName(reg, id);
    e := DesktopEntry(id, if name.Some? then name.value else FallbackLabel(count + 1));
  }

  /** The decoding loop: 16 bytes at a time, each block named from its key or by its position. */
  method DecodeBlob(reg: Registry, blob: seq<Byte>) returns (result: seq<DesktopEntry>)
    ensures result == Entries(NamesIn(reg), blob, 0, 0)
  {
    result := [];
    var i := 0;
    while i + 16 <= |blob|
      invariant i <= |blob|
      invariant result + Entries(NamesIn(reg), blob, i, |result|) == Entries(NamesIn(reg), blob, 0, 0)
      decreases |blob| - i
    {
      var e := DecodeEntry(reg, blob[i..i + 16], |result|);
      ghost var later := Entries(NamesIn(reg), blob, i + 16, |result| + 1);
      assert result + ([e] + later) == (result + [e]) + later;
      result := result + [e];
      i := i + 16;
    }
  }

  class VirtualDesktopService {
    /** Whether the service holds a desktop-manager object. */
    var hasManager: bool
    /** `IsAvailable`. */
    var isAvailable: bool
    /** Throwaway probe windows created and not yet closed. */
    var openProbeWindows: nat

    /** The service only reports itself available while it holds a manager. */
    predicate Valid()
      reads this
    {
      isAvailable ==> hasManager
    }

    constructor ()
      ensures Valid() && !hasManager && !isAvailable && openProbeWindows == 0
    {
      hasManager := false;
      isAvailable := false;
      openProbeWindows := 0;
    }

    /**
     * `Initialize`: available exactly when the manager is created and has the expected interface.
     * When creation fails before the cast, a manager held from an earlier call is kept.
     */
    method Initialize(activation: Activation) returns (ok: bool)
      modifies this
      ensures ok == isAvailable && Valid()
      ensures ok <==> activation == Created(true)
      ensures activation.Created? ==> hasManager == activation.isManager
      ensures !activation.Created? ==> hasManager == old(hasManager)
      ensures openProbeWindows == old(openProbeWindows)
    {
      match activation
      case ClassMissing =>
        isAvailable := false;
        return false;
      case Created(isManager) =>
        hasManager := isManager;
        isAvailable := hasManager;
        return isAvailable;
      case ActivationFailed =>
        isAvailable := false;
        return false;
    }

    /**
     * `GetCurrentDesktopId`: an id only from a successful probe that reports a non-empty id; the
     * throwaway window is closed on every path.
     */
    method GetCurrentDesktopId(probe: Probe) returns (r: Option<Guid>)
      modifies this
      ensures r.Some? <==> hasManager && probe.Answered? && probe.hr == 0 && probe.id != EmptyGuid
      ensures r.Some? ==> r.value == probe.id
      ensures openProbeWindows == old(openProbeWindows)
      ensures hasManager == old(hasManager) && isAvailable == old(isAvailable)
    {
      if !hasManager {
        return None;
      }
      var windowHeld := false;
      r := None;
      // try
      if !probe.WindowFailed? {
        windowHeld := true;
        openProbeWindows := openProbeWindows + 1;
        match probe
        case Answered(hr, id) =>
          openProbeWindows := openProbeWindows - 1;
          windowHeld := false;
          if hr == 0 && id != EmptyGuid {
            r := Some(id);
          }
        case _ =>
          // the exception is caught and the answer is unknown
          r := None;
      }
      // finally
      if windowHeld {
        openProbeWindows := openProbeWindows - 1;
        windowHeld := false;
      }
    }

    /** `GetWindowDesktopId`: an id only when the call succeeds with a non-empty id. */
    method GetWindowDesktopId(call: ComCall<Guid>) returns (r: Option<Guid>)
      ensures r.Some? <==> hasManager && call.Returned? && call.hr == 0 && call.value != EmptyGuid
      ensures r.Some? ==> r.value == call.value
    {
      if !hasManager {
        return None;
      }
      match call
      case Returned(hr, id) =>
        if hr == 0 && id != EmptyGuid {
          return Some(id);
        }
        return None;
      case Threw =>
        return None;
    }

    /** `IsWindowOnCurrentDesktop`: the reported flag when the call succeeds, otherwise unknown. */
    method IsWindowOnCurrentDesktop(call: ComCall<bool>) returns (r: Option<bool>)
      ensures r.Some? <==> hasManager && call.Returned? && call.hr == 0
      ensures r.Some? ==> r.value == call.value
    {
      if !hasManager {
        return None;
      }
      match call
      case Returned(hr, onCurrent) =>
        if hr == 0 {
          return Some(onCurrent);
        }
        return None;
      case Threw =>
        return None;
    }

    /** `MoveWindowToDesktop`: true exactly when the service holds a manager and the call succeeds. */
    method MoveWindowToDesktop(call: ComCall<()>) returns (moved: bool)
      ensures moved <==> hasManager && call.Returned? && call.hr == 0
    {
      if !hasManager {
        return false;
      }
      match call
      case Returned(hr, _) =>
        return hr == 0;
      case Threw =>
        return false;
    }

    /**
     * `GetDesktopListFromRegistry`: walks the blob 16 bytes at a time, naming each desktop from
     * its key or by its position.
     */
    method GetDesktopListFromRegistry(reg: Registry) returns (result: seq<DesktopEntry>)
      ensures result == DesktopList(reg)
    {
      result := [];
      var key: RegistryKey;
      match OpenSubKey(reg, VdRegPath) {
        case Opened(k) =>
          key := k;
        case _ =>
          return;
      }
      var blob: seq<Byte>;
      match GetValue(key, "VirtualDesktopIDs") {
        case Some(Binary(bytes)) =>
          blob := bytes;
        case _ =>
          return;
      }
      if |blob| == 0 {
        return;
      }
      if |blob| % 16 != 0 {
        return;
      }
      result := DecodeBlob(reg, blob);
    }

    /** `Dispose`: the manager is released and the service is no longer available. */
    method Dispose()
      modifies this
      ensures !hasManager && !isAvailable && Valid()
      ensures openProbeWindows == old(openProbeWindows)
    {
      hasManager := false;
      isAvailable := false;
    }
  }
}
