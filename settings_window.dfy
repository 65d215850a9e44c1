/**
 * The settings window: the hotkey preset tables and their lookup, the
 * `_isInitializing`-guarded checkbox and preset handlers, the font
 * allow-list editor and the note-order tab's synchronisation.
 *
 * The window edits the shared `AppSettings` object in place; here it owns
 * a copy of those settings, and the calls it makes into other services
 * (`HotkeyService.UpdateSettings`, `PersistenceService.ScheduleSave`,
 * `NoteManager.UpdateZOrder`) are recorded in order in its state.
 */
module SettingsView {
  import opened Wrappers
  import opened Guids
  import opened Text
  import opened Settings

  /** A combo-box entry: its caption, Win32 MOD_* flags and virtual-key code. */
  datatype HotkeyPreset = HotkeyPreset(name: string, modifiers: Int32, key: Int32)

  /** The Win32 modifier flags the preset labels name. */
  const MOD_ALT: int := 0x0001
  const MOD_CONTROL: int := 0x0002
  const MOD_SHIFT: int := 0x0004
  const MOD_WIN: int := 0x0008

  /** Presets for the show/edit hotkey. */
  const Presets: seq<HotkeyPreset> := [
    HotkeyPreset("Ctrl+Shift+Alt+E", 0x0007, 0x45),
    HotkeyPreset("Ctrl+Shift+F12", 0x0006, 0x7B),
    HotkeyPreset("Ctrl+Alt+F11", 0x0003, 0x7A),
    HotkeyPreset("Ctrl+Win+N", 0x000A, 0x4E),
    HotkeyPreset("Ctrl+Shift+F9", 0x0006, 0x78)
  ]

  /** Presets for the hide hotkey. */
  const HidePresets: seq<HotkeyPreset> := [
    HotkeyPreset("Ctrl+Shift+Alt+H", 0x0007, 0x48),
    HotkeyPreset("Ctrl+Shift+F11", 0x0006, 0x7A),
    HotkeyPreset("Ctrl+Alt+F10", 0x0003, 0x79),
    HotkeyPreset("Ctrl+Win+H", 0x000A, 0x48),
    HotkeyPreset("Ctrl+Shift+F8", 0x0006, 0x77)
  ]

  predicate Matches(p: HotkeyPreset, modifiers: int, key: int) {
    p.modifiers == modifiers && p.key == key
  }

  /** No two presets of a table bind the same key combination. */
  predicate DistinctCombinations(presets: seq<HotkeyPreset>) {
    forall i, j :: 0 <= i < j < |presets| ==> !Matches(presets[j], presets[i].modifiers, presets[i].key)
  }

  // ---------------------------------------------------------------------
  //  Preset lookup
  // ---------------------------------------------------------------------

  /** The index of the first preset binding (modifiers, key), or -1 when none does. */
  function FirstMatch(presets: seq<HotkeyPreset>, modifiers: int, key: int): (r: int)
    ensures -1 <= r < |presets|
    ensures r >= 0 ==> Matches(presets[r], modifiers, key)
    ensures r >= 0 ==> forall i :: 0 <= i < r ==> !Matches(presets[i], modifiers, key)
    ensures r == -1 <==> forall i :: 0 <= i < |presets| ==> !Matches(presets[i], modifiers, key)
  {
    if |presets| == 0 then -1
    else
      var front := presets[..|presets| - 1];
      var r := FirstMatch(front, modifiers, key);
      assert forall i :: 0 <= i < |front| ==> front[i] == presets[i];
      if r >= 0 then r
      else if Matches(presets[|presets| - 1], modifiers, key) then |presets| - 1
      else -1
  }

  /** The preset loop of the settings window: first match, or -1. */
  method FindPresetIndex(presets: seq<HotkeyPreset>, modifiers: int, key: int) returns (index: int)
    ensures index == FirstMatch(presets, modifiers, key)
  {
    var i := 0;
    while i < |presets|
      invariant 0 <= i <= |presets|
      invariant forall j :: 0 <= j < i ==> !Matches(presets[j], modifiers, key)
    {
      if presets[i].modifiers == modifiers && presets[i].key == key {
        return i;
      }
      i := i + 1;
    }
    return -1;
  }

  /** The combo-box index shown when the window opens: the matching preset, else the first. */
  function InitialIndex(presets: seq<HotkeyPreset>, hotkey: HotkeySettings): int {
    var found := FirstMatch(presets, hotkey.modifiers, hotkey.key);
    if found >= 0 then found else 0
  }

  /** The opening index is the first preset binding the current hotkey, or 0 when none binds it. */
  lemma InitialIndexOutcome(presets: seq<HotkeyPreset>, hotkey: HotkeySettings)
    requires |presets| > 0
    ensures 0 <= InitialIndex(presets, hotkey) < |presets|
    ensures (exists i :: 0 <= i < |presets| && Matches(presets[i], hotkey.modifiers, hotkey.key)) ==>
      Matches(presets[InitialIndex(presets, hotkey)], hotkey.modifiers, hotkey.key)
    ensures (forall i :: 0 <= i < |presets| ==> !Matches(presets[i], hotkey.modifiers, hotkey.key)) ==>
      InitialIndex(presets, hotkey) == 0
  {
  }

  /** Both tables bind pairwise-distinct key combinations. */
  lemma PresetTablesDistinct()
    ensures |Presets| == 5 && |HidePresets| == 5
    ensures DistinctCombinations(Presets)
    ensures DistinctCombinations(HidePresets)
  {
    assert DistinctCombinations(Presets) by {
      forall i, j | 0 <= i < j < |Presets|
        ensures !Matches(Presets[j], Presets[i].modifiers, Presets[i].key)
      {
        assert Presets[0].key == 0x45 && Presets[1].key == 0x7B && Presets[2].key == 0x7A;
        assert Presets[3].key == 0x4E && Presets[4].key == 0x78;
      }
    }
    assert DistinctCombinations(HidePresets) by {
      forall i, j | 0 <= i < j < |HidePresets|
        ensures !Matches(HidePresets[j], HidePresets[i].modifiers, HidePresets[i].key)
      {
        assert HidePresets[0].modifiers == 0x0007 && HidePresets[3].modifiers == 0x000A;
        assert HidePresets[1].key == 0x7A && HidePresets[2].key == 0x79 && HidePresets[4].key == 0x77;
      }
    }
  }

  /** The hotkey a preset choice produces: the preset's combination, the old `enabled` flag. */
  function WithPreset(hotkey: HotkeySettings, preset: HotkeyPreset): HotkeySettings {
    hotkey.(modifiers := preset.modifiers, key := preset.key)
  }

  /**
   * Choosing a preset and reopening the window selects that same preset
   * again, because no other entry of the table binds its combination.
   */
  lemma ReopenSelectsChosenPreset(presets: seq<HotkeyPreset>, hotkey: HotkeySettings, idx: int)
    requires DistinctCombinations(presets) && 0 <= idx < |presets|
    ensures InitialIndex(presets, WithPreset(hotkey, presets[idx])) == idx
  {
    var chosen := WithPreset(hotkey, presets[idx]);
    var r := FirstMatch(presets, chosen.modifiers, chosen.key);
    assert Matches(presets[idx], chosen.modifiers, chosen.key);
    assert 0 <= r <= idx;
  }

  /**
   * The default hotkey (modifiers 0x0003, key 'E') is in neither table, so
   * the window opens on the first preset, "Ctrl+Shift+Alt+E", while the
   * registered hotkey is Ctrl+Alt+E.
   */
  lemma DefaultOpensOnFirstPreset()
    ensures FirstMatch(Presets, DefaultHotkey.modifiers, DefaultHotkey.key) == -1
    ensures InitialIndex(Presets, DefaultHotkey) == 0
    ensures Presets[0].name == "Ctrl+Shift+Alt+E"
    ensures FirstMatch(HidePresets, DefaultHotkey.modifiers, DefaultHotkey.key) == -1
  {
    assert forall i :: 0 <= i < |Presets| ==> !Matches(Presets[i], DefaultHotkey.modifiers, DefaultHotkey.key) by {
      forall i | 0 <= i < |Presets|
        ensures !Matches(Presets[i], DefaultHotkey.modifiers, DefaultHotkey.key)
      {
        assert Presets[0].modifiers == 0x0007 && Presets[1].key == 0x7B && Presets[2].key == 0x7A;
        assert Presets[3].key == 0x4E && Presets[4].key == 0x78;
      }
    }
    assert forall i :: 0 <= i < |HidePresets| ==> !Matches(HidePresets[i], DefaultHotkey.modifiers, DefaultHotkey.key) by {
      forall i | 0 <= i < |HidePresets|
        ensures !Matches(HidePresets[i], DefaultHotkey.modifiers, DefaultHotkey.key)
      {
        assert HidePresets[0].key == 0x48 && HidePresets[1].key == 0x7A && HidePresets[2].key == 0x79;
        assert HidePresets[3].key == 0x48 && HidePresets[4].key == 0x77;
      }
    }
  }

  /**
   * The default modifiers 0x0003 are MOD_ALT | MOD_CONTROL, the flags the
   * "Ctrl+Alt+F11" preset also uses, and not MOD_CONTROL | MOD_WIN: the
   * default hotkey is Ctrl+Alt+E.
   */
  lemma DefaultHotkeyIsCtrlAlt()
    ensures DefaultHotkey.modifiers == MOD_ALT + MOD_CONTROL == Presets[2].modifiers
    ensures DefaultHotkey.modifiers != MOD_CONTROL + MOD_WIN
    ensures Presets[3].modifiers == MOD_CONTROL + MOD_WIN && Presets[3].name[..8] == "Ctrl+Win"
  {
  }

  // ---------------------------------------------------------------------
  //  Status line
  // ---------------------------------------------------------------------

  datatype StatusTone = Failure | Success | Muted

  /** The hotkey status line: its text and its colour. */
  datatype Status = Status(text: string, tone: StatusTone)

  const RegisterFailedText: string := "ホットキー登録に失敗しました"
  const RegisteredText: string := "✓ ホットキーは正常に登録されています"
  const DisabledText: string := "ホットキーは無効です"

  /** The status line for the hotkey service's registration state and the enabled setting. */
  function HotkeyStatus(isRegistered: bool, lastError: Option<string>, enabled: bool): (r: Status)
    ensures r.tone == Failure <==> enabled && !isRegistered
    ensures r.tone == Success <==> enabled && isRegistered
    ensures r.tone == Muted <==> !enabled
    ensures r.tone == Failure ==> (lastError.Some? ==> r.text == lastError.value) && (lastError.None? ==> r.text == RegisterFailedText)
  {
    if !isRegistered && enabled then Status(lastError.GetOr(RegisterFailedText), Failure)
    else if enabled then Status(RegisteredText, Success)
    else Status(DisabledText, Muted)
  }

  // ---------------------------------------------------------------------
  //  Font allow-list
  // ---------------------------------------------------------------------

  /** The index of the first occurrence of `x`, or -1. */
  function IndexOf(xs: seq<string>, x: string): (r: int)
    ensures -1 <= r < |xs|
    ensures r >= 0 ==> xs[r] == x && x !in xs[..r]
    ensures r == -1 <==> x !in xs
  {
    if |xs| == 0 then -1
    else
      var r := IndexOf(xs[1..], x);
      if xs[0] == x then 0
      else if r < 0 then -1
      else
        assert xs[..r + 1] == [xs[0]] + xs[1..][..r];
        r + 1
  }

  /** `List<string>.Remove`: drops the first occurrence of `x`, if any. */
  function RemoveFirst(xs: seq<string>, x: string): seq<string> {
    var i := IndexOf(xs, x);
    if i < 0 then xs else xs[..i] + xs[i + 1..]
  }

  /** Dropping position i removes one copy of xs[i] from the multiset. */
  lemma DropAtMultiset(xs: seq<string>, i: int)
    requires 0 <= i < |xs|
    ensures multiset(xs[..i] + xs[i + 1..]) == multiset(xs) - multiset{xs[i]}
  {
    assert xs == xs[..i] + [xs[i]] + xs[i + 1..];
  }

  /** Dropping a position of a duplicate-free list keeps it duplicate-free and removes that name. */
  lemma DropAtDistinct(xs: seq<string>, i: int)
    requires 0 <= i < |xs| && NoDuplicates(xs)
    ensures NoDuplicates(xs[..i] + xs[i + 1..]) && xs[i] !in xs[..i] + xs[i + 1..]
  {
    var r := xs[..i] + xs[i + 1..];
    forall k | 0 <= k < |r|
      ensures r[k] == xs[if k < i then k else k + 1]
    {
    }
    forall a, b | 0 <= a < b < |r|
      ensures r[a] != r[b]
    {
      assert r[a] == xs[if a < i then a else a + 1];
    }
    forall k | 0 <= k < |r|
      ensures r[k] != xs[i]
    {
      assert r[k] == xs[if k < i then k else k + 1];
    }
  }

  /** Removal deletes exactly one copy of a present name, keeps the order of the rest and changes nothing otherwise. */
  lemma RemoveFirstOutcome(xs: seq<string>, x: string)
    ensures x !in xs ==> RemoveFirst(xs, x) == xs
    ensures x in xs ==> |RemoveFirst(xs, x)| == |xs| - 1
    ensures multiset(RemoveFirst(xs, x)) == multiset(xs) - multiset{x}
    ensures NoDuplicates(xs) ==> NoDuplicates(RemoveFirst(xs, x)) && x !in RemoveFirst(xs, x)
  {
    var i := IndexOf(xs, x);
    if i >= 0 {
      DropAtMultiset(xs, i);
      if NoDuplicates(xs) {
        DropAtDistinct(xs, i);
      }
    }
  }

  /** Appending a name not yet listed keeps a list duplicate-free. */
  lemma AppendAbsentDistinct(xs: seq<string>, x: string)
    requires NoDuplicates(xs) && x !in xs
    ensures NoDuplicates(xs + [x])
  {
    forall i, j | 0 <= i < j < |xs + [x]|
      ensures (xs + [x])[i] != (xs + [x])[j]
    {
      assert (xs + [x])[i] == xs[i];
    }
  }

  /** The confirmation shown when the name is already allowed. */
  function AlreadyListedNotice(fontName: string): string {
    "「" + fontName + "」は既に許可リストに含まれています。"
  }

  /** The name the add button takes from the combo box: the trimmed text, or "" for no text. */
  function EnteredFontName(text: Option<string>): string {
    match text
    case None => ""
    case Some(t) => Trim(t)
  }

  // ---------------------------------------------------------------------
  //  Window state and handlers
  // ---------------------------------------------------------------------

  /** A call `NoteManager.UpdateZOrder(desktopId, noteIds)`. */
  datatype ZOrderCall = ZOrderCall(desktopId: Guid, noteIds: seq<Guid>)

  /**
   * A snapshot of the window: its controls, the settings it edits and the calls it has made.
   * `fontListPushes` holds each font list handed to every note window's `SetFontAllowList`.
   */
  datatype WindowState = WindowState(
    initializing: bool,
    settings: AppSettings,
    hideHotkey: HotkeySettings,
    autoStartChecked: bool,
    hotkeyIndex: int,
    hideIndex: int,
    hotkeyPanelEnabled: bool,
    hidePanelEnabled: bool,
    hotkeyUpdates: seq<HotkeySettings>,
    hideUpdates: seq<HotkeySettings>,
    saves: nat,
    notices: seq<string>,
    desktopId: Guid,
    zOrderItems: seq<Guid>,
    processingZOrderChange: bool,
    zOrderCalls: seq<ZOrderCall>,
    fontListPushes: seq<seq<string>>)

  /** The hotkey combo box moves to `idx`; outside initialisation an in-range preset is applied and saved. */
  function HotkeyPresetChosen(s: WindowState, idx: int): WindowState {
    var moved := s.(hotkeyIndex := idx);
    if s.initializing || idx < 0 || idx >= |Presets| then moved
    else
      var hk := WithPreset(s.settings.hotkey, Presets[idx]);
      moved.(settings := s.settings.(hotkey := hk),
             hotkeyUpdates := if hk.enabled then s.hotkeyUpdates + [hk] else s.hotkeyUpdates,
             saves := s.saves + 1)
  }

  /** The hide-hotkey combo box moves to `idx`; the same rule over the hide table. */
  function HidePresetChosen(s: WindowState, idx: int): WindowState {
    var moved := s.(hideIndex := idx);
    if s.initializing || idx < 0 || idx >= |HidePresets| then moved
    else
      var hk := WithPreset(s.hideHotkey, HidePresets[idx]);
      moved.(hideHotkey := hk,
             hideUpdates := if hk.enabled then s.hideUpdates + [hk] else s.hideUpdates,
             saves := s.saves + 1)
  }

  /** The hotkey checkbox becomes `enabled`. */
  function HotkeyToggled(s: WindowState, enabled: bool): WindowState {
    if s.initializing then s
    else
      var hk := s.settings.hotkey.(enabled := enabled);
      s.(settings := s.settings.(hotkey := hk), hotkeyUpdates := s.hotkeyUpdates + [hk],
         hotkeyPanelEnabled := enabled, saves := s.saves + 1)
  }

  /** The hide-hotkey checkbox becomes `enabled`. */
  function HideToggled(s: WindowState, enabled: bool): WindowState {
    if s.initializing then s
    else
      var hk := s.hideHotkey.(enabled := enabled);
      s.(hideHotkey := hk, hideUpdates := s.hideUpdates + [hk],
         hidePanelEnabled := enabled, saves := s.saves + 1)
  }

  /**
   * The auto-start checkbox becomes `enabled`; `applied` is whether the
   * Run-key write succeeded. On failure the checkbox is put back.
   */
  function AutoStartToggled(s: WindowState, enabled: bool, applied: bool): WindowState {
    var ticked := s.(autoStartChecked := enabled);
    if s.initializing then ticked
    else if applied then ticked.(settings := s.settings.(autoStartEnabled := enabled), saves := s.saves + 1)
    else ticked.(autoStartChecked := !enabled)
  }

  /** The add button with the combo box's text. */
  function FontAdded(s: WindowState, text: Option<string>): WindowState {
    var name := EnteredFontName(text);
    if name == "" then s
    else if name in s.settings.fontAllowList then s.(notices := s.notices + [AlreadyListedNotice(name)])
    else
      var list := s.settings.fontAllowList + [name];
      s.(settings := s.settings.(fontAllowList := list), saves := s.saves + 1, fontListPushes := s.fontListPushes + [list])
  }

  /** The remove button with the list box's selection. */
  function FontRemoved(s: WindowState, selected: Option<string>): WindowState {
    if selected.None? || selected.value == "" then s
    else
      var list := RemoveFirst(s.settings.fontAllowList, selected.value);
      s.(settings := s.settings.(fontAllowList := list), saves := s.saves + 1, fontListPushes := s.fontListPushes + [list])
  }

  /** `SyncZOrderToManager`: hand the list's order to the note manager, unless there is no desktop. */
  function ZOrderSynced(s: WindowState): WindowState {
    if s.desktopId == EmptyGuid then s
    else s.(zOrderCalls := s.zOrderCalls + [ZOrderCall(s.desktopId, s.zOrderItems)])
  }

  /** The list's collection-changed handler: ignored while the list is being refilled. */
  function ZOrderItemsChanged(s: WindowState): WindowState {
    if s.processingZOrderChange then s else ZOrderSynced(s)
  }

  /** The window right after construction. */
  function Opened(settings: AppSettings, hideHotkey: HotkeySettings, autoStartOn: bool,
                  currentDesktop: Option<Guid>, orderedNotes: seq<Guid>): WindowState {
    WindowState(false, settings, hideHotkey, autoStartOn,
      InitialIndex(Presets, settings.hotkey), InitialIndex(HidePresets, hideHotkey),
      settings.hotkey.enabled, hideHotkey.enabled, [], [], 0, [],
      currentDesktop.GetOr(EmptyGuid), orderedNotes, false, [], [])
  }

  // ---------------------------------------------------------------------
  //  Properties of the handlers
  // ---------------------------------------------------------------------

  /** Nothing but the control that fired changes while the window is initialising. */
  lemma GuardedWhileInitializing(s: WindowState, idx: int, enabled: bool, applied: bool)
    requires s.initializing
    ensures HotkeyPresetChosen(s, idx) == s.(hotkeyIndex := idx)
    ensures HidePresetChosen(s, idx) == s.(hideIndex := idx)
    ensures HotkeyToggled(s, enabled) == s && HideToggled(s, enabled) == s
    ensures AutoStartToggled(s, enabled, applied) == s.(autoStartChecked := enabled)
  {
  }

  /**
   * An index outside the table leaves the settings and calls alone; an
   * index inside it copies exactly that preset's combination, keeps
   * `enabled`, re-registers only an enabled hotkey and schedules one save.
   */
  lemma HotkeyPresetOutcome(s: WindowState, idx: int)
    ensures var t := HotkeyPresetChosen(s, idx);
      t.hotkeyIndex == idx && t.hideHotkey == s.hideHotkey && t.zOrderCalls == s.zOrderCalls
    ensures (idx < 0 || idx >= |Presets|) ==> HotkeyPresetChosen(s, idx) == s.(hotkeyIndex := idx)
    ensures !s.initializing && 0 <= idx < |Presets| ==>
      var t := HotkeyPresetChosen(s, idx);
      && t.settings.hotkey.enabled == s.settings.hotkey.enabled
      && Matches(Presets[idx], t.settings.hotkey.modifiers, t.settings.hotkey.key)
      && t.settings.(hotkey := s.settings.hotkey) == s.settings
      && (s.settings.hotkey.enabled ==> t.hotkeyUpdates == s.hotkeyUpdates + [t.settings.hotkey])
      && (!s.settings.hotkey.enabled ==> t.hotkeyUpdates == s.hotkeyUpdates)
      && t.saves == s.saves + 1
  {
  }

  /** The same rule for the hide-hotkey table. */
  lemma HidePresetOutcome(s: WindowState, idx: int)
    ensures var t := HidePresetChosen(s, idx);
      t.hideIndex == idx && t.settings == s.settings && t.hotkeyUpdates == s.hotkeyUpdates
    ensures (idx < 0 || idx >= |HidePresets|) ==> HidePresetChosen(s, idx) == s.(hideIndex := idx)
    ensures !s.initializing && 0 <= idx < |HidePresets| ==>
      var t := HidePresetChosen(s, idx);
      && t.hideHotkey.enabled == s.hideHotkey.enabled
      && Matches(HidePresets[idx], t.hideHotkey.modifiers, t.hideHotkey.key)
      && (s.hideHotkey.enabled ==> t.hideUpdates == s.hideUpdates + [t.hideHotkey])
      && (!s.hideHotkey.enabled ==> t.hideUpdates == s.hideUpdates)
      && t.saves == s.saves + 1
  {
  }

  /** Toggling the hotkey changes only `enabled`, always re-registers and saves, and shows or hides the presets. */
  lemma HotkeyToggleOutcome(s: WindowState, enabled: bool)
    requires !s.initializing
    ensures var t := HotkeyToggled(s, enabled);
      && t.settings.hotkey == s.settings.hotkey.(enabled := enabled)
      && t.settings.(hotkey := s.settings.hotkey) == s.settings
      && t.hotkeyUpdates == s.hotkeyUpdates + [t.settings.hotkey]
      && t.hotkeyPanelEnabled == enabled
      && t.saves == s.saves + 1
  {
  }

  /** The stored auto-start flag follows the checkbox only when the Run-key write succeeded. */
  lemma AutoStartOutcome(s: WindowState, enabled: bool, applied: bool)
    requires !s.initializing
    ensures var t := AutoStartToggled(s, enabled, applied);
      && (applied ==> t.settings.autoStartEnabled == enabled && t.autoStartChecked == enabled && t.saves == s.saves + 1)
      && (!applied ==> t.settings == s.settings && t.autoStartChecked == !enabled && t.saves == s.saves)
  {
  }

  /**
   * Adding a font ignores a blank name, reports one already listed and
   * otherwise appends the trimmed name; the list stays duplicate-free.
   */
  lemma FontAddOutcome(s: WindowState, text: Option<string>)
    ensures var t := FontAdded(s, text);
      && (EnteredFontName(text) == "" ==> t == s)
      && (EnteredFontName(text) != "" && EnteredFontName(text) in s.settings.fontAllowList ==>
            t.settings == s.settings && t.notices == s.notices + [AlreadyListedNotice(EnteredFontName(text))])
      && (EnteredFontName(text) != "" && EnteredFontName(text) !in s.settings.fontAllowList ==>
            t.settings.fontAllowList == s.settings.fontAllowList + [EnteredFontName(text)] && t.saves == s.saves + 1
            && t.fontListPushes == s.fontListPushes + [t.settings.fontAllowList])
      && (t.fontListPushes != s.fontListPushes <==> EnteredFontName(text) != "" && EnteredFontName(text) !in s.settings.fontAllowList)
    ensures NoDuplicates(s.settings.fontAllowList) ==> NoDuplicates(FontAdded(s, text).settings.fontAllowList)
  {
    var name := EnteredFontName(text);
    if NoDuplicates(s.settings.fontAllowList) && name != "" && name !in s.settings.fontAllowList {
      AppendAbsentDistinct(s.settings.fontAllowList, name);
    }
  }

  /** Removing with no selection is a no-op; otherwise the first copy goes and the list stays duplicate-free. */
  lemma FontRemoveOutcome(s: WindowState, selected: Option<string>)
    ensures selected.None? || selected == Some("") ==> FontRemoved(s, selected) == s
    ensures selected.Some? && selected.value != "" ==>
      var t := FontRemoved(s, selected);
      && multiset(t.settings.fontAllowList) == multiset(s.settings.fontAllowList) - multiset{selected.value}
      && t.saves == s.saves + 1
      && t.fontListPushes == s.fontListPushes + [t.settings.fontAllowList]
      && (NoDuplicates(s.settings.fontAllowList) ==>
            NoDuplicates(t.settings.fontAllowList) && selected.value !in t.settings.fontAllowList)
  {
    if selected.Some? && selected.value != "" {
      RemoveFirstOutcome(s.settings.fontAllowList, selected.value);
    }
  }

  /** A sync with no current desktop calls nothing; otherwise it passes the list's ids in order. */
  lemma ZOrderSyncOutcome(s: WindowState)
    ensures s.desktopId == EmptyGuid ==> ZOrderSynced(s) == s
    ensures s.desktopId != EmptyGuid ==>
      ZOrderSynced(s).zOrderCalls == s.zOrderCalls + [ZOrderCall(s.desktopId, s.zOrderItems)]
      && ZOrderSynced(s).(zOrderCalls := s.zOrderCalls) == s
  {
  }

  /**
   * Opening the window changes no setting, makes no call and schedules no
   * save; the combo boxes show the presets that bind the current hotkeys.
   */
  lemma OpenedOutcome(settings: AppSettings, hideHotkey: HotkeySettings, autoStartOn: bool,
                      currentDesktop: Option<Guid>, orderedNotes: seq<Guid>)
    ensures var s := Opened(settings, hideHotkey, autoStartOn, currentDesktop, orderedNotes);
      && s.settings == settings && s.hideHotkey == hideHotkey
      && s.hotkeyUpdates == [] && s.hideUpdates == [] && s.saves == 0 && s.zOrderCalls == []
      && s.fontListPushes == []
      && !s.initializing
      && 0 <= s.hotkeyIndex < |Presets| && 0 <= s.hideIndex < |HidePresets|
      && (FirstMatch(Presets, settings.hotkey.modifiers, settings.hotkey.key) >= 0 ==>
            Matches(Presets[s.hotkeyIndex], settings.hotkey.modifiers, settings.hotkey.key))
      && (currentDesktop.None? ==> s.desktopId == EmptyGuid)
  {
  }

  // ---------------------------------------------------------------------
  //  The window
  // ---------------------------------------------------------------------

  class SettingsWindow {
    var isInitializing: bool
    var settings: AppSettings
    var hideHotkey: HotkeySettings
    var autoStartChecked: bool
    var hotkeyIndex: int
    var hideIndex: int
    var hotkeyPanelEnabled: bool
    var hidePanelEnabled: bool
    var hotkeyUpdates: seq<HotkeySettings>
    var hideUpdates: seq<HotkeySettings>
    var saves: nat
    var notices: seq<string>
    var desktopId: Guid
    var zOrderItems: seq<Guid>
    var isProcessingZOrderChange: bool
    var zOrderCalls: seq<ZOrderCall>
    var fontListPushes: seq<seq<string>>

    function State(): WindowState
      reads this
    {
      WindowState(isInitializing, settings, hideHotkey, autoStartChecked, hotkeyIndex, hideIndex,
        hotkeyPanelEnabled, hidePanelEnabled, hotkeyUpdates, hideUpdates, saves, notices,
        desktopId, zOrderItems, isProcessingZOrderChange, zOrderCalls, fontListPushes)
    }

    /**
     * Builds the window over the current settings. The combo boxes open on
     * the presets that bind the current hotkeys, or on the first preset;
     * `isInitializing` is held while they are filled, so the change handlers
     * they fire apply nothing (`GuardedWhileInitializing`), and the note list
     * is filled with the processing flag set, so no order is synchronised.
     */
    constructor(settings0: AppSettings, hideHotkey0: HotkeySettings, autoStartOn: bool,
                currentDesktop: Option<Guid>, orderedNotes: seq<Guid>)
      ensures State() == Opened(settings0, hideHotkey0, autoStartOn, currentDesktop, orderedNotes)
    {
      var found := FindPresetIndex(Presets, settings0.hotkey.modifiers, settings0.hotkey.key);
      var hideFound := FindPresetIndex(HidePresets, hideHotkey0.modifiers, hideHotkey0.key);
      isInitializing := false;
      settings := settings0;
      hideHotkey := hideHotkey0;
      autoStartChecked := autoStartOn;
      hotkeyIndex := if found >= 0 then found else 0;
      hideIndex := if hideFound >= 0 then hideFound else 0;
      hotkeyPanelEnabled := settings0.hotkey.enabled;
      hidePanelEnabled := hideHotkey0.enabled;
      hotkeyUpdates := [];
      hideUpdates := [];
      saves := 0;
      notices := [];
      desktopId := currentDesktop.GetOr(EmptyGuid);
      zOrderItems := orderedNotes;
      isProcessingZOrderChange := false;
      zOrderCalls := [];
      fontListPushes := [];
    }

    /** The hotkey combo box's selection becomes `idx`. */
    method SelectHotkeyPreset(idx: int)
      modifies this
      ensures State() == HotkeyPresetChosen(old(State()), idx)
    {
      hotkeyIndex := idx;
      if isInitializing {
        return;
      }
      if idx < 0 || idx >= |Presets| {
        return;
      }
      var hotkey := WithPreset(settings.hotkey, Presets[idx]);
      settings := settings.(hotkey := hotkey);
      if hotkey.enabled {
        hotkeyUpdates := hotkeyUpdates + [hotkey];
      }
      saves := saves + 1;
    }

    /** The hide-hotkey combo box's selection becomes `idx`. */
    method SelectHidePreset(idx: int)
      modifies this
      ensures State() == HidePresetChosen(old(State()), idx)
    {
      hideIndex := idx;
      if isInitializing {
        return;
      }
      if idx < 0 || idx >= |HidePresets| {
        return;
      }
      var hotkey := WithPreset(hideHotkey, HidePresets[idx]);
      hideHotkey := hotkey;
      if hotkey.enabled {
        hideUpdates := hideUpdates + [hotkey];
      }
      saves := saves + 1;
    }

    /** The hotkey checkbox is set to `enabled`. */
    method ToggleHotkey(enabled: bool)
      modifies this
      ensures State() == HotkeyToggled(old(State()), enabled)
    {
      if isInitializing {
        return;
      }
      var hotkey := settings.hotkey.(enabled := enabled);
      settings := settings.(hotkey := hotkey);
      hotkeyUpdates := hotkeyUpdates + [hotkey];
      hotkeyPanelEnabled := enabled;
      saves := saves + 1;
    }

    /** The hide-hotkey checkbox is set to `enabled`. */
    method ToggleHideHotkey(enabled: bool)
      modifies this
      ensures State() == HideToggled(old(State()), enabled)
    {
      if isInitializing {
        return;
      }
      hideHotkey := hideHotkey.(enabled := enabled);
      hideUpdates := hideUpdates + [hideHotkey];
      hidePanelEnabled := enabled;
      saves := saves + 1;
    }

    /** The auto-start checkbox is set to `enabled`; `applied` is the Run-key write's result. */
    method ToggleAutoStart(enabled: bool, applied: bool)
      modifies this
      ensures State() == AutoStartToggled(old(State()), enabled, applied)
    {
      autoStartChecked := enabled;
      if isInitializing {
        return;
      }
      if applied {
        settings := settings.(autoStartEnabled := enabled);
        saves := saves + 1;
      } else {
        autoStartChecked := !enabled;
      }
    }

    /** The add button, with the combo box's text (None for null). */
    method AddFont(text: Option<string>)
      modifies this
      ensures State() == FontAdded(old(State()), text)
    {
      var fontName := if text.Some? then Trim(text.value) else "";
      if fontName == "" {
        return;
      }
      if fontName in settings.fontAllowList {
        notices := notices + [AlreadyListedNotice(fontName)];
        return;
      }
      settings := settings.(fontAllowList := settings.fontAllowList + [fontName]);
      saves := saves + 1;
      fontListPushes := fontListPushes + [settings.fontAllowList];
    }

    /** The remove button, with the list box's selection (None for none). */
    method RemoveFont(selected: Option<string>)
      modifies this
      ensures State() == FontRemoved(old(State()), selected)
    {
      if selected.None? || selected.value == "" {
        return;
      }
      settings := settings.(fontAllowList := RemoveFirst(settings.fontAllowList, selected.value));
      saves := saves + 1;
      fontListPushes := fontListPushes + [settings.fontAllowList];
    }

    /** Refills the note list; the collection-changed handler ignores the refill. */
    method PopulateZOrderList(orderedNotes: seq<Guid>)
      modifies this
      ensures State() == old(State()).(zOrderItems := orderedNotes, processingZOrderChange := false)
    {
      isProcessingZOrderChange := true;
      zOrderItems := [];
      OnZOrderItemsChanged();
      zOrderItems := orderedNotes;
      OnZOrderItemsChanged();
      isProcessingZOrderChange := false;
    }

    /** The list's collection-changed event. */
    method OnZOrderItemsChanged()
      modifies this
      ensures State() == ZOrderItemsChanged(old(State()))
    {
      if isProcessingZOrderChange {
        return;
      }
      SyncZOrderToManager();
    }

    /** The user drags the notes into `order`. */
    method ReorderNotes(order: seq<Guid>)
      modifies this
      requires !isProcessingZOrderChange
      ensures State() == ZOrderSynced(old(State()).(zOrderItems := order))
    {
      zOrderItems := order;
      OnZOrderItemsChanged();
    }

    /** Hands the list's order to the note manager for the current desktop. */
    method SyncZOrderToManager()
      modifies this
      ensures State() == ZOrderSynced(old(State()))
    {
      if desktopId == EmptyGuid {
        return;
      }
      zOrderCalls := zOrderCalls + [ZOrderCall(desktopId, zOrderItems)];
    }
  }
}
