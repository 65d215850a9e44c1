/** Application-wide settings and their defaults. */
module Settings {
  import opened Guids
  import Notes

  /** A C# `int`. */
  type Int32 = i: int | -0x8000_0000 <= i < 0x8000_0000

  /** The global hotkey: Win32 MOD_* flags and a virtual-key code. */
  datatype HotkeySettings = HotkeySettings(enabled: bool, modifiers: Int32, key: Int32)

  /** Enabled, MOD_ALT | MOD_CONTROL (0x0003), virtual key 0x45 ('E'). */
  const DefaultHotkey: HotkeySettings := HotkeySettings(true, 0x0003, 0x45)

  const DefaultFontAllowList: seq<string> := [
    "Yu Gothic UI", "Meiryo UI", "MS Gothic", "MS Mincho", "Segoe UI",
    "Arial", "Consolas", "BIZ UDGothic", "BIZ UDMincho"
  ]

  /** The stored settings; `zOrderByDesktop` maps a desktop id to its note ids, front first. */
  datatype AppSettings = AppSettings(
    isHidden: bool,
    hotkey: HotkeySettings,
    fontAllowList: seq<string>,
    zOrderByDesktop: map<Guid, seq<Guid>>,
    autoStartEnabled: bool)

  /** `new AppSettings()`. */
  const DefaultSettings: AppSettings := AppSettings(false, DefaultHotkey, DefaultFontAllowList, map[], false)

  predicate NoDuplicates<T(==)>(s: seq<T>) {
    forall i, j :: 0 <= i < j < |s| ==> s[i] != s[j]
  }

  /** The default allow-list holds nine distinct fonts, the default note font among them. */
  lemma DefaultFonts()
    ensures |DefaultSettings.fontAllowList| == 9 && NoDuplicates(DefaultSettings.fontAllowList)
    ensures "Yu Gothic UI" in DefaultSettings.fontAllowList
    ensures Notes.DefaultStyle.fontFamilyName in DefaultSettings.fontAllowList
  {
  }

  /** Fresh settings: hotkey on as Ctrl+Alt+E, nothing hidden, no stored Z-order, no auto-start. */
  lemma DefaultValues()
    ensures DefaultSettings.hotkey == HotkeySettings(true, 0x0003, 0x45)
    ensures !DefaultSettings.isHidden && !DefaultSettings.autoStartEnabled
    ensures DefaultSettings.zOrderByDesktop == map[]
  {
  }
}
