# TopFusen core, modelled in Dafny

TopFusen is a Windows sticky-note application. Its notes are borderless always-on-top
windows that sit on the desktop. Out of edit mode the notes are click-through, so mouse
clicks go to the window below. In edit mode one note at a time can be selected, and the
selected note shows a formatting toolbar. Notes and settings are saved as JSON files
under `%LOCALAPPDATA%\TopFusen\TopFusen`, with `.bak` backups and atomic replacement.
Each note's rich text is saved as an RTF file named after the note's GUID. A global
hotkey toggles edit mode, and the settings window chooses that hotkey from a table of
presets.

This project models that core as Dafny modules, one per source file:

- `Wrappers` (wrappers.dfy): `Option` values.
- `Text` (text.dfy): `string.Trim*`, invariant-culture number rendering, and the UTF-16 code units of a .NET string.
- `Guids` (guids.dfy): a GUID as 16 bytes printed in .NET's byte order, its "D" text form and `Guid.TryParse`.
- `SystemPath` (system_path.dfy): `Path.Combine`, `Path.GetFileName`, `Path.GetFileNameWithoutExtension`.
- `Settings` (app_settings.dfy): `AppSettings` and `HotkeySettings` with their defaults.
- `Palette` (palette.dfy): the background palette table and `GetHexColor`.
- `AppDataPaths` (app_data_paths.dfy): the data folder's paths and `GetRtfPath`.
- `Notes` (note_model.dfy): `NoteModel`, `NotePlacement`, `NoteStyle` and `RtfFileName`.
- `NotePreview` (note_preview.dfy): the first-line preview of a note, in UTF-16 code units.
- `NoteWindows` (note_window.dfy): the per-note window: flags, visual rules, hit test, pending format, change tracking.
- `NoteManagement` (note_manager.dfy): the list of notes with edit mode, selection, create, duplicate, delete, close-all.
- `Desktops` (virtual_desktop_service.dfy): COM answers as "id or unknown", and the registry's desktop list.
- `Persistence` (persistence_service.dfy): debounced saving, atomic write, main-then-backup load, orphan RTF cleanup.
- `Hotkeys` (hotkey_service.dfy): the global hotkey's registration state machine.
- `SettingsView` (settings_window.dfy): preset lookup and handlers, font allow-list, Z-order sync guard.

The modules follow the form of the code.

- Objects whose methods update fields are classes: `NoteWindow`, `NoteManager`,
  `PersistenceService`, `HotkeyService`, `VirtualDesktopService` and `SettingsWindow`.
  - Each class exposes its fields as a snapshot value (`State()`).
  - Each method's postcondition ties the new snapshot to a pure transition function of
    the old one.
  - Lemmas state what those transitions promise: invariants kept, idempotence, both
    directions of each "exactly when".
- The stepping loops of the source are `while` loops with their invariants, proved
  against a specification function:
  - the preset search, the overlap shift and the desktop-blob decoding;
  - the orphan cleanup;
  - each `foreach` of the note manager.
- Static tables, paths and model defaults are functions and lemmas.

Native and framework calls are parameters carrying their result. These are
`RegisterHotKey`, the COM calls with their HRESULT, the registry, the file system
(a map from path to bytes), the RTF reader, the clock and the new-GUID generator. The
file system is a small class (`Persistence.FileSystem`) whose methods are the `File.*`
calls the service makes.

The product design also describes a visibility engine: cloaking per virtual desktop,
desktop polling, rescue of orphaned notes, and re-applying the stored Z-order. The code
modelled here contains none of that. The model follows the code.

The default hotkey is modifiers 0x0003 with key 0x45, which is MOD_ALT | MOD_CONTROL, so
Ctrl+Alt+E. Comments in `AppSettings.cs` and `HotkeyService.cs` call it Ctrl+Win. The
model follows the values: `SettingsView.DefaultHotkeyIsCtrlAlt` states the discrepancy,
and `SettingsView.DefaultOpensOnFirstPreset` states that the default is in neither
preset table.

## Model

| member | source | states |
|---|---|---|
| `Text.TrimStart` | TopFusen/Views/NoteWindow.xaml.cs:827 | only leading white space is removed: the result is a suffix of the input, what was dropped is all white space, and the result does not start with white space |
| `Text.TrimEnd` | TopFusen/Views/SettingsWindow.xaml.cs:296 | only trailing white space is removed: the result is a prefix, the dropped tail is white space, and the result does not end with white space |
| `Text.BlankIffTrimStartEmpty` | TopFusen/Views/NoteWindow.xaml.cs:827-828 | a text is null-or-white-space exactly when trimming its start leaves nothing |
| `Text.TrimOfNonBlank` | TopFusen/Views/NoteWindow.xaml.cs:831-832 | trimming a non-blank text leaves a non-empty text with no white space at either end |
| `Text.NatToString` | TopFusen/Services/VirtualDesktopService.cs:266 | the decimal rendering of a count is a non-empty string of digits that starts with 0 only for zero |
| `Text.DecimalRoundTrip` | TopFusen/Services/VirtualDesktopService.cs:266 | reading the rendered digits back gives the number |
| `Text.IntToString` | TopFusen/Services/HotkeyService.cs:98 | an integer is rendered with a leading minus sign exactly when it is negative |
| `Text.NatToStringInjective` | TopFusen/Services/VirtualDesktopService.cs:266 | different numbers are rendered differently |
| `Text.CharUnits` | TopFusen/Views/NoteWindow.xaml.cs:834 | a character is one code unit exactly when it lies in the Basic Multilingual Plane, and otherwise a surrogate pair that starts with a high surrogate |
| `Text.Utf16` | TopFusen/Views/NoteWindow.xaml.cs:834 | a text has at least as many and at most twice as many code units as characters |
| `Text.Utf16Append` | TopFusen/Views/NoteWindow.xaml.cs:834 | the code units of a concatenation are the code units of its parts, concatenated |
| `Text.Utf16OfBmp` | TopFusen/Views/NoteWindow.xaml.cs:834 | a text of Basic Multilingual Plane characters has one code unit per character, equal to its value |
| `Guids.ToText` | TopFusen/Models/NoteModel.cs:14 | a GUID's text is 36 characters of lower-case hex digits and dashes |
| `Guids.TryParse` | TopFusen/Services/PersistenceService.cs:207-208 | a text that parses as a GUID is 32, 36 or 38 characters long once trimmed |
| `Guids.HexValue` | TopFusen/Services/PersistenceService.cs:208 | a character has a hex value exactly when it is a digit or a letter a-f in either case, and the value is below 16 |
| `Guids.UngroupGrouped` | TopFusen/Services/PersistenceService.cs:208 | 32 hex digits grouped with dashes into the 36-character form read back, dashes removed, as the same digits |
| `Guids.ParseHexRoundTrip` | TopFusen/Services/PersistenceService.cs:208 | hex digits written for some bytes read back as those bytes |
| `Guids.ParseToText` | TopFusen/Services/PersistenceService.cs:207-208 | the text of every GUID parses back to that GUID, so an RTF file's name identifies its note |
| `Guids.ToTextInjective` | TopFusen/Services/AppDataPaths.cs:49-50 | different GUIDs have different texts |
| `Guids.GuidDigits` | TopFusen/Services/PersistenceService.cs:208 | an accepted "N", "D", "B" or "P" text yields 32 digits and is 32, 36 or 38 characters long |
| `Guids.DigitOfValue` | TopFusen/Services/PersistenceService.cs:208 | the digit printed for a hex character's value is that character in lower case |
| `Guids.ParseHexSound` | TopFusen/Services/PersistenceService.cs:208 | hex digits that read as bytes are, in lower case, exactly the digits printed for those bytes |
| `Guids.ParseHexIgnoresCase` | TopFusen/Services/PersistenceService.cs:208 | upper-casing hex digits does not change what they read as |
| `Guids.TryParseSound` | TopFusen/Services/PersistenceService.cs:207-208 | a text that parses as a GUID is in an accepted format, and its 32 digits, in lower case, are the digits of that GUID |
| `Guids.DigitsRoundTrip` | TopFusen/Services/PersistenceService.cs:208 | the 32 digits of a GUID's "N" text read back as that GUID |
| `Guids.ParseDigitsFormat` | TopFusen/Services/PersistenceService.cs:207-208 | the "N" text of a GUID, in lower or upper case, parses back to that GUID |
| `Guids.EnclosedDigits` | TopFusen/Services/PersistenceService.cs:208 | a "D" text in braces or parentheses survives trimming and yields its 32 digits |
| `Guids.ParseEnclosedFormats` | TopFusen/Services/PersistenceService.cs:207-208 | the "B" and "P" texts of a GUID parse back to that GUID |
| `Guids.ParseUpperCaseText` | TopFusen/Services/PersistenceService.cs:207-208 | the "D" text of a GUID in upper case parses back to that GUID |
| `SystemPath.Combine` | TopFusen/Services/AppDataPaths.cs:19-34 | a non-empty folder not ending in a separator, joined with a non-rooted name, gives folder, one backslash, name |
| `SystemPath.GetFileName` | TopFusen/Services/PersistenceService.cs:207 | the file name is a suffix of the path and contains no separator |
| `SystemPath.FileNameOfCombine` | TopFusen/Services/AppDataPaths.cs:49-50 | the file name of a plain name joined to a folder is that name |
| `SystemPath.StemOfName` | TopFusen/Services/PersistenceService.cs:207 | for a dot-free stem plus a one-dot extension joined to a folder, the name without extension is the stem |
| `Settings.DefaultFonts` | TopFusen/Models/AppSettings.cs:15-26 | the default font allow-list has nine distinct names, including "Yu Gothic UI", the default note font |
| `Settings.DefaultValues` | TopFusen/Models/AppSettings.cs:9-47 | the default hotkey is enabled with modifiers 0x0003 and key 0x45; nothing is hidden, there is no auto-start, and the Z-order map is empty |
| `Palette.FindCategory` | TopFusen/Models/Palette.cs:41 | the category found has the requested id; none is found only when no category has it |
| `Palette.FindColor` | TopFusen/Models/Palette.cs:43 | the colour found has the requested id; none is found only when no colour has it |
| `Palette.GetHexColor` | TopFusen/Models/Palette.cs:39-45 | an unknown category gives null; any code returned is the code of a table entry with both requested ids |
| `Palette.TableShape` | TopFusen/Models/Palette.cs:10-34 | there are exactly two categories, "vivid" then "natural", with eight colours each; ids are distinct and every code is "#" and six hex digits |
| `Palette.FindColorUnique` | TopFusen/Models/Palette.cs:43 | with distinct ids, looking up an entry's id finds that entry |
| `Palette.FindCategoryUnique` | TopFusen/Models/Palette.cs:41 | with distinct ids, looking up a category's id finds that category |
| `Palette.GetHexColorFindsEntry` | TopFusen/Models/Palette.cs:39-45 | every table entry is found by its two ids and gives its own code |
| `Palette.GetHexColorUnknownColor` | TopFusen/Models/Palette.cs:43-44 | a known category with a colour id it does not list gives null |
| `Palette.DefaultIsVividYellow` | TopFusen/Models/Palette.cs:14-48 | the vivid/yellow lookup gives the default colour "#FBE38C" |
| `AppDataPaths.BaseShape` | TopFusen/Services/AppDataPaths.cs:11-16 | the base folder ends in the folder name "TopFusen" |
| `AppDataPaths.ChildPath` | TopFusen/Services/AppDataPaths.cs:19-34 | a plain name combined with the base folder gives the base folder, one backslash and the name |
| `AppDataPaths.ChildOfBase` | TopFusen/Services/AppDataPaths.cs:19-34 | a plain name combined with the base folder lies directly inside it |
| `AppDataPaths.BackupOf` | TopFusen/Services/AppDataPaths.cs:19-28 | a ".bak" name inside the base folder is the main file's path with ".bak" appended |
| `AppDataPaths.BackupNames` | TopFusen/Services/AppDataPaths.cs:19-28 | `SettingsJsonBak` is `SettingsJson` + ".bak", and `NotesJsonBak` is `NotesJson` + ".bak" |
| `AppDataPaths.FoldersInsideBase` | TopFusen/Services/AppDataPaths.cs:31-34 | the notes and logs folders are direct children of the base folder |
| `AppDataPaths.NamedPathsForm` | TopFusen/Services/AppDataPaths.cs:16-34 | the first named path is the base folder; every other one is the base, a backslash and its child name |
| `AppDataPaths.NamedPathsDistinct` | TopFusen/Services/AppDataPaths.cs:16-34 | no two named paths coincide |
| `AppDataPaths.RtfNamePlain` | TopFusen/Services/AppDataPaths.cs:49-50 | a note's `<id>.rtf` name has no separator, no drive prefix, and no dot before the extension |
| `AppDataPaths.NotesDirectoryForm` | TopFusen/Services/AppDataPaths.cs:31 | the notes folder is the base folder followed by `\notes` |
| `AppDataPaths.RtfPathShape` | TopFusen/Services/AppDataPaths.cs:49-50 | a note's RTF path lies directly inside the notes folder; its file name is `<id>.rtf` and its stem is the id's text |
| `AppDataPaths.RtfPathInDirectory` | TopFusen/Services/AppDataPaths.cs:49-50 | the same shape holds for `<id>.rtf` joined to any folder |
| `Notes.NewNoteModel` | TopFusen/Models/NoteModel.cs:11-30 | a new note model carries the identifier it was given |
| `Notes.NewNoteDefaults` | TopFusen/Models/NoteModel.cs:17-93 | a new note has the empty desktop id and is 240 x 180 at scale 1.0; its style is vivid/yellow, opacity 100 (within 0..100), no text colour, "Yu Gothic UI", aligned top; its preview is empty |
| `Notes.DefaultStyleColor` | TopFusen/Models/NoteModel.cs:78-81 | the default style names the palette's default colour |
| `Notes.RtfFileNameMatchesPath` | TopFusen/Models/NoteModel.cs:14 | `RtfFileName` is the file name of the note's `GetRtfPath`, and its stem parses back to the note's id |
| `NotePreview.LineHead` | TopFusen/Views/NoteWindow.xaml.cs:830 | the first line is a prefix with no CR or LF, followed by a break or the end |
| `NotePreview.SkipBreaks` | TopFusen/Views/NoteWindow.xaml.cs:830 | dropping leading breaks leaves a suffix that does not start with a break |
| `NotePreview.Shorten` | TopFusen/Views/NoteWindow.xaml.cs:834 | a line of at most 50 UTF-16 code units is kept as its code units; a longer one becomes its first 50 code units and "…" |
| `NotePreview.TrimStartBlankPrefix` | TopFusen/Views/NoteWindow.xaml.cs:827 | a white-space prefix disappears under `TrimStart` |
| `NotePreview.TrimStartNonBlankPrefix` | TopFusen/Views/NoteWindow.xaml.cs:827 | a prefix that is not all white space shields the rest from `TrimStart` |
| `NotePreview.TrimStartIdempotent` | TopFusen/Views/NoteWindow.xaml.cs:827 | trimming the start twice is trimming it once |
| `NotePreview.LineHeadOfLine` | TopFusen/Views/NoteWindow.xaml.cs:830 | a break-free text followed by a break or nothing is its own first line |
| `NotePreview.PreviewOfBlank` | TopFusen/Views/NoteWindow.xaml.cs:828 | the preview of blank text is empty |
| `NotePreview.FirstEntryOfNonBlank` | TopFusen/Views/NoteWindow.xaml.cs:830-831 | for non-blank text, the first split entry after `TrimStart` is the first line, which starts with a non-blank character |
| `NotePreview.PreviewOfNonBlank` | TopFusen/Views/NoteWindow.xaml.cs:822-835 | for non-blank text the trimmed first line is non-empty, and the preview is that line shortened |
| `NotePreview.BlankHeadWithBreak` | TopFusen/Views/NoteWindow.xaml.cs:827 | a blank first line and the break after it are all white space |
| `NotePreview.BlankHeadSkipped` | TopFusen/Views/NoteWindow.xaml.cs:827-830 | past a blank first line, both the code and the reference reading move on to the rest of the text |
| `NotePreview.NonBlankHeadTaken` | TopFusen/Views/NoteWindow.xaml.cs:827-831 | when the first line is not blank, both readings take that line, trimmed |
| `NotePreview.PreviewMatchesReference` | TopFusen/Views/NoteWindow.xaml.cs:822-835 | the preview equals the reference reading on every text: the first non-blank line, trimmed and shortened, or empty when there is none |
| `NotePreview.PreviewDependsOnTrimmed` | TopFusen/Views/NoteWindow.xaml.cs:827 | texts that agree after their leading white space have the same preview |
| `NotePreview.PreviewEmptyIffBlank` | TopFusen/Views/NoteWindow.xaml.cs:822-835 | the preview is empty exactly when the text is blank |
| `NotePreview.TrimmedLineHasNoBreak` | TopFusen/Views/NoteWindow.xaml.cs:831 | trimming a single line keeps it free of CR and LF |
| `NotePreview.PreviewShape` | TopFusen/Views/NoteWindow.xaml.cs:822-835 | the preview is at most 51 code units long and has no CR or LF code unit |
| `NotePreview.ShortenKeepsSingleLine` | TopFusen/Views/NoteWindow.xaml.cs:834 | shortening a single line gives code units without CR or LF |
| `NotePreview.Utf16KeepsSingleLine` | TopFusen/Views/NoteWindow.xaml.cs:834 | a text without line breaks has no CR or LF code unit |
| `NotePreview.RepeatedAstralUnits` | TopFusen/Views/NoteWindow.xaml.cs:834 | characters outside the Basic Multilingual Plane take two code units each, a high surrogate first |
| `NotePreview.ShortenCountsCodeUnits` | TopFusen/Views/NoteWindow.xaml.cs:834 | a line of more than 25 characters from outside the Basic Multilingual Plane (emoji) keeps only 25 of them before "…" |
| `NotePreview.ShortenCanSplitPair` | TopFusen/Views/NoteWindow.xaml.cs:834 | after one plain character and 25 or more emoji, the unit just before "…" is a high surrogate whose low half was cut off |
| `NoteWindows.StripExStyle` | TopFusen/Views/NoteWindow.xaml.cs:141-154 | the TOOLWINDOW, TRANSPARENT and NOACTIVATE bits are cleared and every other extended-style bit is kept |
| `NoteWindows.Toggled` | TopFusen/Views/NoteWindow.xaml.cs:575-588 | the toggled decoration is present exactly when it was absent; every other decoration is kept as it was |
| `NoteWindows.NewWindowState` | TopFusen/Views/NoteWindow.xaml.cs:101-162 | a new shown window is out of edit mode and unselected, has click-through set from the constructor argument and the stripped extended style, keeps its model, and neither tracks nor has notified changes |
| `NoteWindows.SettersIdempotent` | TopFusen/Views/NoteWindow.xaml.cs:185-216 | `SetClickThrough`, `SetSelected` and `SetInEditMode` with the current value change nothing |
| `NoteWindows.SettersSetTheirFlag` | TopFusen/Views/NoteWindow.xaml.cs:185-216 | each setter sets its own flag and no other flag |
| `NoteWindows.VisualsUpdatedFollowRules` | TopFusen/Views/NoteWindow.xaml.cs:224-265 | after `UpdateVisualState`: toolbar, bottom bar, selection frame, scroll bar, focusable and editable text are on exactly in edit mode while selected; the text is hit-testable exactly in edit mode; the colour popup is closed when the UI is hidden |
| `NoteWindows.SettersKeepVisualRules` | TopFusen/Views/NoteWindow.xaml.cs:201-216 | changing the selection or the edit mode re-derives the visual rules; setting an equal value keeps rules that held |
| `NoteWindows.ColorButtonKeepsVisualRules` | TopFusen/Views/NoteWindow.xaml.cs:687-690 | flipping the colour popup keeps the rules exactly when the toolbar is shown or the popup was open |
| `NoteWindows.BoldToggles` | TopFusen/Views/NoteWindow.xaml.cs:535-561 | with an empty selection, bold flips the effective weight, twice gives it back, and no other pending key changes |
| `NoteWindows.DecorationToggles` | TopFusen/Views/NoteWindow.xaml.cs:564-623 | with an empty selection, underline or strikethrough flips only its own decoration and keeps the others |
| `NoteWindows.TextEditNotifies` | TopFusen/Views/NoteWindow.xaml.cs:853-858 | a text change notifies exactly when tracking is on and no load is running, and then stores the new preview |
| `NoteWindows.SelectionFormattingNotifies` | TopFusen/Views/NoteWindow.xaml.cs:540-544 | formatting a non-empty selection (bold, underline, strikethrough, size, colour) keeps the text and the pending format and notifies exactly when tracking is on and no load is running, with the preview refreshed |
| `NoteWindows.TypedTextInserted` | TopFusen/Views/NoteWindow.xaml.cs:400-424 | typing with a pending format puts the typed text at the caret, keeps the text before and after it, clears the pending format and notifies exactly when tracking is on and no load is running; without one nothing changes |
| `NoteWindows.LoadNeverNotifies` | TopFusen/Views/NoteWindow.xaml.cs:785-806 | loading RTF never notifies and ends with the loading flag down; empty input changes nothing; a readable document replaces the text |
| `NoteWindows.GeometryNotifies` | TopFusen/Views/NoteWindow.xaml.cs:839-844 | a move notifies exactly when tracking is on, and then copies the new position into the note; otherwise the note is untouched |
| `NoteWindows.NoteWindow.constructor` | TopFusen/Views/NoteWindow.xaml.cs:101-124 | the new window's state is the constructed state of the model, the click-through argument and the markup |
| `NoteWindows.NoteWindow.OnSourceInitialized` | TopFusen/Views/NoteWindow.xaml.cs:136-162 | the stripped extended style is written back and click-through takes the constructor's value |
| `NoteWindows.NoteWindow.Show` | TopFusen/Services/NoteManager.cs:124 | showing creates the native window, which runs source initialisation |
| `NoteWindows.NoteWindow.Close` | TopFusen/Services/NoteManager.cs:212 | the window moves to the closing lifecycle state |
| `NoteWindows.NoteWindow.WndProc` | TopFusen/Views/NoteWindow.xaml.cs:169-178 | returns HTTRANSPARENT (-1) and sets handled exactly for WM_NCHITTEST (0x84) under click-through; otherwise returns 0 and leaves handled alone |
| `NoteWindows.NoteWindow.SetClickThrough` | TopFusen/Views/NoteWindow.xaml.cs:185-192 | the new state is the click-through transition of the old one |
| `NoteWindows.NoteWindow.SetSelected` | TopFusen/Views/NoteWindow.xaml.cs:201-206 | the new state is the selection transition of the old one |
| `NoteWindows.NoteWindow.SetInEditMode` | TopFusen/Views/NoteWindow.xaml.cs:211-216 | the new state is the edit-mode transition of the old one |
| `NoteWindows.NoteWindow.UpdateVisualState` | TopFusen/Views/NoteWindow.xaml.cs:224-265 | the visuals are re-derived from the flags |
| `NoteWindows.NoteWindow.OnActivated` | TopFusen/Views/NoteWindow.xaml.cs:302-310 | activation is reported to the manager exactly in edit mode |
| `NoteWindows.NoteWindow.SelectionChanged` | TopFusen/Views/NoteWindow.xaml.cs:388-393 | in edit mode while selected, moving the caret clears the pending format |
| `NoteWindows.NoteWindow.PreviewTextInput` | TopFusen/Views/NoteWindow.xaml.cs:400-424 | with a pending format the typed text is inserted at the caret, which raises TextChanged, and the pending format is cleared, and the input is reported handled; without one nothing changes |
| `NoteWindows.NoteWindow.BoldButtonClick` | TopFusen/Views/NoteWindow.xaml.cs:535-561 | the new state is the bold transition: on a selection the formatting raises the gated TextChanged handler, an empty selection toggles the pending weight |
| `NoteWindows.NoteWindow.UnderlineButtonClick` | TopFusen/Views/NoteWindow.xaml.cs:564-591 | the new state is the underline transition: on a selection the gated TextChanged handler runs, an empty selection toggles the pending underline |
| `NoteWindows.NoteWindow.StrikethroughButtonClick` | TopFusen/Views/NoteWindow.xaml.cs:594-653 | the new state is the strikethrough transition: on a selection the gated TextChanged handler runs, an empty selection toggles the pending strikethrough |
| `NoteWindows.NoteWindow.FontSizeSelected` | TopFusen/Views/NoteWindow.xaml.cs:658-676 | the new state is the font-size transition: applied to a selection it runs the gated TextChanged handler, else the size is stored as pending |
| `NoteWindows.NoteWindow.TextColorButtonClick` | TopFusen/Views/NoteWindow.xaml.cs:687-690 | the colour popup flips |
| `NoteWindows.NoteWindow.TextColorSwatchClick` | TopFusen/Views/NoteWindow.xaml.cs:693-717 | on a selection the gated TextChanged handler runs, otherwise the colour is stored as pending; the popup closes either way |
| `NoteWindows.NoteWindow.EnableChangeTracking` | TopFusen/Views/NoteWindow.xaml.cs:755-758 | only the tracking flag changes, to true |
| `NoteWindows.NoteWindow.OnTextChanged` | TopFusen/Views/NoteWindow.xaml.cs:853-858 | the new state is the text-changed transition |
| `NoteWindows.NoteWindow.GetFirstLinePreview` | TopFusen/Views/NoteWindow.xaml.cs:822-835 | returns the preview of the document text, in UTF-16 code units |
| `NoteWindows.NoteWindow.EditText` | TopFusen/Views/NoteWindow.xaml.cs:853-858 | an edit replaces the text and raises the text-changed handler |
| `NoteWindows.NoteWindow.LoadRtfBytes` | TopFusen/Views/NoteWindow.xaml.cs:785-806 | the new state is the load transition for the input's length and decoded text |
| `NoteWindows.NoteWindow.SyncModelFromWindow` | TopFusen/Views/NoteWindow.xaml.cs:811-817 | position and size are copied into the note, with the actual size preferred when positive |
| `NoteWindows.NoteWindow.OnGeometryChanged` | TopFusen/Views/NoteWindow.xaml.cs:839-851 | when tracking, the geometry is synced and one change is notified |
| `NoteWindows.NoteWindow.MoveTo` | TopFusen/Views/NoteWindow.xaml.cs:839-844 | a move sets the position and raises the location handler |
| `NoteWindows.NoteWindow.ResizeTo` | TopFusen/Views/NoteWindow.xaml.cs:846-851 | a resize sets the size and raises the size handler |
| `NoteManagement.ClampBounds` | TopFusen/Services/NoteManager.cs:315-321 | only the position moves; the top-left ends inside the work area, and the right and bottom edges too when the note fits; a coordinate already inside is kept |
| `NoteManagement.ShiftedIsFirstFreeCandidate` | TopFusen/Services/NoteManager.cs:284-310 | the chosen placement is the first candidate (0 to 10 steps of +24 then clamp) that overlaps no note within 10 DIP on both axes, or the last candidate when all overlap |
| `NoteManagement.ShiftedBounds` | TopFusen/Services/NoteManager.cs:284-310 | a placement overlapping nothing is kept; a moved one lies inside the work area; the size never changes |
| `NoteManagement.Centered` | TopFusen/Services/NoteManager.cs:110-111 | a new note has the default size and equal margins on both sides of the work area |
| `NoteManagement.DuplicateCopiesSource` | TopFusen/Services/NoteManager.cs:147-170 | a duplicate has the new id, the source's size, colours, opacity, text colour and font, the default alignment, no desktop and an empty preview; its position is +24 on each axis where that fits, and never left of or above the work area |
| `NoteManagement.IndexOf` | TopFusen/Services/NoteManager.cs:140 | the index of the first note with the id, or -1 exactly when none has it |
| `NoteManagement.ModeEntry` | TopFusen/Services/NoteManager.cs:48-52 | one loop turn sets the window's click-through to the opposite of edit mode and its edit flag to edit mode, and keeps note, selection and lifecycle |
| `NoteManagement.SelectionEntry` | TopFusen/Services/NoteManager.cs:78 | one loop turn sets the window's selection and keeps note, mode flags and lifecycle |
| `NoteManagement.ModeAppliedKeepsConsistent` | TopFusen/Services/NoteManager.cs:43-53 | applying the mode makes every window agree with it and keeps the manager's invariants |
| `NoteManagement.DeselectKeepsConsistent` | TopFusen/Services/NoteManager.cs:87-94 | after `DeselectAll` no window is selected and the mode flags are unchanged |
| `NoteManagement.EditModeSwitchAgrees` | TopFusen/Services/NoteManager.cs:43-58 | after `SetEditMode(b)` every window has click-through equal to not b and edit flag equal to b; when b is false, nothing is selected |
| `NoteManagement.SelectedOnlyEntries` | TopFusen/Services/NoteManager.cs:76-79 | `SelectNote`'s loop selects exactly the windows of that id and keeps everything else |
| `NoteManagement.SelectKeepsConsistent` | TopFusen/Services/NoteManager.cs:71-82 | after `SelectNote(id)` the selection is that id and the invariants hold |
| `NoteManagement.SelectKeepsMode` | TopFusen/Services/NoteManager.cs:71-82 | selecting never changes a window's mode flags |
| `NoteManagement.AtMostOneSelected` | TopFusen/Services/NoteManager.cs:71-94 | under the manager's invariants at most one window is selected |
| `NoteManagement.RemoveKeepsConsistent` | TopFusen/Services/NoteManager.cs:211-218 | removing an entry, and forgetting the selection when it pointed at it, keeps the invariants |
| `NoteManagement.AppendKeepsConsistent` | TopFusen/Services/NoteManager.cs:123-124 | appending an unselected, shown window with a fresh id keeps the invariants |
| `NoteManagement.AddedWindowState` | TopFusen/Services/NoteManager.cs:117-124 | a window the manager adds is shown, unselected, click-through exactly out of edit mode, and itself out of edit mode |
| `NoteManagement.CreatedInEditModeDisagrees` | TopFusen/Services/NoteManager.cs:117-124 | as written, a note created in edit mode is neither click-through nor in edit mode, so the windows no longer agree with the mode |
| `NoteManagement.DuplicatedInEditModeHidesToolbar` | TopFusen/Services/NoteManager.cs:172-185 | as written, a duplicate made in edit mode is selected yet shows no toolbar and cannot be edited |
| `NoteManagement.SyncedWindowAgrees` | TopFusen/Services/NoteManager.cs:117-124 | with the mode applied after `Show`, adding a note keeps every window in agreement with the mode |
| `NoteManagement.SyncedDuplicateAgrees` | TopFusen/Services/NoteManager.cs:172-185 | with the mode applied, duplicating keeps every window in agreement with the mode, whether it is then selected or not |
| `NoteManagement.SyncedDuplicateShowsToolbar` | TopFusen/Services/NoteManager.cs:182-185 | with the mode applied, a duplicate selected in edit mode shows its toolbar, is editable and follows the visual rules |
| `NoteManagement.ApplyOverlapOffset` | TopFusen/Services/NoteManager.cs:284-310 | the loop returns the shifted placement, at most ten steps |
| `NoteManagement.ApplyModeToEach` | TopFusen/Services/NoteManager.cs:48-52 | the windows' states become the mode-applied states of the old ones |
| `NoteManagement.SelectEach` | TopFusen/Services/NoteManager.cs:76-79 | the windows' states become the states with exactly the id's windows selected |
| `NoteManagement.DeselectEach` | TopFusen/Services/NoteManager.cs:89-92 | every window's state becomes unselected |
| `NoteManagement.CloseEach` | TopFusen/Services/NoteManager.cs:232-236 | every window is closed |
| `NoteManagement.FindIndex` | TopFusen/Services/NoteManager.cs:140 | the loop returns the index of the first note with the id, or -1 |
| `NoteManagement.MakeWindow` | TopFusen/Services/NoteManager.cs:117-124 | a new window for the model, click-through out of edit mode, is shown and unselected |
| `NoteManagement.RemoveNote` | TopFusen/Services/NoteManager.cs:206-218 | the entry at the found index is removed, the others keep their order, the removed window is closed, and the selection is forgotten when it was that note |
| `NoteManagement.NoteManager.Notes` | TopFusen/Services/NoteManager.cs:19-20 | the notes are the windows' models, in list order |
| `NoteManagement.NoteManager.constructor` | TopFusen/Services/NoteManager.cs:16-33 | no notes, out of edit mode, nothing selected |
| `NoteManagement.NoteManager.SetEditMode` | TopFusen/Services/NoteManager.cs:43-62 | the mode is stored and every window agrees with it; leaving edit mode clears the selection; the list is unchanged |
| `NoteManagement.NoteManager.SelectNote` | TopFusen/Services/NoteManager.cs:71-82 | the windows' states become the select transition (unchanged when the id is already selected), and the selected id becomes the id |
| `NoteManagement.NoteManager.DeselectAll` | TopFusen/Services/NoteManager.cs:87-94 | every window is unselected and the selected id is cleared |
| `NoteManagement.NoteManager.AddWindow` | TopFusen/Services/NoteManager.cs:117-124 | exactly one new window is appended at the end, and the existing entries are unchanged |
| `NoteManagement.NoteManager.CreateNote` | TopFusen/Services/NoteManager.cs:104-133 | exactly one entry is appended: a centred, overlap-shifted note in a window made click-through out of edit mode; existing entries, mode and selection are unchanged |
| `NoteManagement.NoteManager.CreateNoteSynced` | TopFusen/Services/NoteManager.cs:104-133 | as `CreateNote`, with the new window also put in the manager's edit mode |
| `NoteManagement.NoteManager.DuplicateNote` | TopFusen/Services/NoteManager.cs:138-192 | an unknown id returns null and changes nothing; otherwise the copy is appended, and in edit mode it is selected |
| `NoteManagement.NoteManager.DuplicateNoteSynced` | TopFusen/Services/NoteManager.cs:138-192 | as `DuplicateNote`, with the new window put in the manager's edit mode before it is selected |
| `NoteManagement.NoteManager.DeleteNote` | TopFusen/Services/NoteManager.cs:197-223 | an unknown id returns false and changes nothing; otherwise exactly that entry is removed and closed, the rest keep their order, and the selection is cleared if it pointed at the note |
| `NoteManagement.NoteManager.CloseAllWindows` | TopFusen/Services/NoteManager.cs:228-240 | every window is closed, the list is emptied, nothing is selected and the edit mode is kept |
| `NoteManagement.NoteManager.ActivateWindow` | TopFusen/Services/NoteManager.cs:266-269 | a click on a window in edit mode selects its note; outside edit mode nothing changes |
| `Desktops.EntriesCount` | TopFusen/Services/VirtualDesktopService.cs:260-268 | the loop decodes one entry per whole 16-byte block |
| `Desktops.EntryAt` | TopFusen/Services/VirtualDesktopService.cs:260-268 | entry k holds block k and is named from the registry or by its position |
| `Desktops.EntriesRebuildBlob` | TopFusen/Services/VirtualDesktopService.cs:260-268 | for whole blocks, the decoded ids laid end to end are the bytes again |
| `Desktops.NoBlobGivesEmptyList` | TopFusen/Services/VirtualDesktopService.cs:238-250 | a missing key or value, or an empty blob, gives an empty list |
| `Desktops.RaggedBlobGivesEmptyList` | TopFusen/Services/VirtualDesktopService.cs:252-257 | a blob whose length is not a multiple of 16 gives an empty list |
| `Desktops.WellFormedBlobDecoded` | TopFusen/Services/VirtualDesktopService.cs:260-268 | a well-formed blob gives length/16 entries whose ids, laid end to end, are the blob |
| `Desktops.DesktopListEntry` | TopFusen/Services/VirtualDesktopService.cs:260-268 | entry i holds bytes 16i to 16i+16 and has its registry name, or "Desktop i+1" when there is none |
| `Desktops.FallbackLabelsDistinct` | TopFusen/Services/VirtualDesktopService.cs:266 | unnamed desktops at different positions get different labels |
| `Desktops.GetDesktopName` | TopFusen/Services/VirtualDesktopService.cs:284-296 | the name is the desktop key's string "Name" value; a missing key or value, or an exception, gives none |
| `Desktops.DecodeEntry` | TopFusen/Services/VirtualDesktopService.cs:263-267 | one loop turn builds the entry for one identifier |
| `Desktops.DecodeBlob` | TopFusen/Services/VirtualDesktopService.cs:259-268 | the stepping loop returns exactly the entries of the blob |
| `Desktops.VirtualDesktopService.constructor` | TopFusen/Services/VirtualDesktopService.cs:21-24 | no manager is held and the service is not available |
| `Desktops.VirtualDesktopService.Initialize` | TopFusen/Services/VirtualDesktopService.cs:41-80 | the service is available exactly when the manager is created with the expected interface; a failed creation keeps an earlier manager |
| `Desktops.VirtualDesktopService.GetCurrentDesktopId` | TopFusen/Services/VirtualDesktopService.cs:94-141 | an id is returned exactly when a manager is held and the probe succeeds (HRESULT 0) with a non-empty id; the probe window is closed on every path |
| `Desktops.VirtualDesktopService.GetWindowDesktopId` | TopFusen/Services/VirtualDesktopService.cs:146-166 | an id is returned exactly when a manager is held and the call succeeds with a non-empty id |
| `Desktops.VirtualDesktopService.IsWindowOnCurrentDesktop` | TopFusen/Services/VirtualDesktopService.cs:175-192 | the reported flag is returned exactly when a manager is held and the call succeeds; otherwise null |
| `Desktops.VirtualDesktopService.MoveWindowToDesktop` | TopFusen/Services/VirtualDesktopService.cs:197-220 | true exactly when a manager is held and the call succeeds |
| `Desktops.VirtualDesktopService.GetDesktopListFromRegistry` | TopFusen/Services/VirtualDesktopService.cs:232-279 | the result is the desktop list of the registry snapshot |
| `Desktops.VirtualDesktopService.Dispose` | TopFusen/Services/VirtualDesktopService.cs:302-311 | the manager is released and the service is no longer available |
| `Persistence.FileSystem.constructor` | TopFusen/Services/PersistenceService.cs:145 | the file system holds the given files, folders and locked paths |
| `Persistence.FileSystem.ReadAllBytes` | TopFusen/Services/PersistenceService.cs:145-155 | a present, readable file gives its content; anything else gives none |
| `Persistence.FileSystem.WriteAllBytes` | TopFusen/Services/PersistenceService.cs:166 | the write succeeds exactly when the path is not locked, and then only that path changes |
| `Persistence.FileSystem.Delete` | TopFusen/Services/PersistenceService.cs:184 | the delete succeeds exactly when the path is not locked, and then only that path disappears |
| `Persistence.FileSystem.Replace` | TopFusen/Services/PersistenceService.cs:249 | it throws, changing nothing, when either file is missing or any of the three paths is locked; otherwise the source becomes the destination and the destination's old content becomes the backup |
| `Persistence.FileSystem.Move` | TopFusen/Services/PersistenceService.cs:254 | it throws, changing nothing, when the source is missing, a file is at the destination or either path is locked; otherwise the source is renamed to the destination |
| `Persistence.FileSystem.Exists` | TopFusen/Services/PersistenceService.cs:247 | the answer is whether a file is at the path |
| `Persistence.FileSystem.Copy` | TopFusen/Services/PersistenceService.cs:266 | the copy succeeds exactly when the source exists and neither path is locked, and then the destination gets the source's content |
| `Persistence.AtomicWrite` | TopFusen/Services/PersistenceService.cs:237-276 | the files become the atomic-write outcome: a locked `.tmp` changes nothing; a locked main file leaves the `.tmp` written and the main file alone; with only the backup locked the fallback copies the `.tmp` over the main file and deletes it; otherwise the main file is replaced (old main to backup) or the `.tmp` is moved into place |
| `Persistence.AtomicWriteUnlocked` | TopFusen/Services/PersistenceService.cs:237-256 | with none of the three paths locked, the write takes the path where nothing throws |
| `Persistence.AtomicWriteKeepsData` | TopFusen/Services/PersistenceService.cs:237-276 | the main file is never lost: it holds the new or its old content, and the new content whenever it and the `.tmp` are writable; the backup is unchanged or holds the previous main content; the `.tmp` is gone or holds the content; every other file is unchanged |
| `Persistence.AtomicWriteEffect` | TopFusen/Services/PersistenceService.cs:239-255 | afterwards the main file holds the content and there is no `.tmp`; the backup holds the previous main content when there was one; every other file is unchanged |
| `Persistence.BackupHoldsPreviousSave` | TopFusen/Services/PersistenceService.cs:247-249 | after two saves the backup holds the first content and the main file the second |
| `Persistence.LoadedData` | TopFusen/Services/PersistenceService.cs:281-329 | a load yields data exactly unless neither file gave data |
| `Persistence.RecoveryMessageAppends` | TopFusen/Services/PersistenceService.cs:314-316 | a recovery message ends with the new notice, and an earlier message is kept in front, followed by a newline |
| `Persistence.LoadAfterSave` | TopFusen/Services/PersistenceService.cs:284-294 | content that parses, once saved with the main file and its `.tmp` writable, is what the next load returns, from the main file, even when the backup is locked |
| `Persistence.RecoveryAfterCorruption` | TopFusen/Services/PersistenceService.cs:304-317 | after two saves with the three paths writable and a corrupted main file, the load falls back to the first save held in the backup |
| `Persistence.ParseStem` | TopFusen/Services/PersistenceService.cs:207-208 | the file's stem parsed as a GUID |
| `Persistence.CleanupOrphanedRtfFiles` | TopFusen/Services/PersistenceService.cs:197-227 | with no notes folder nothing changes; otherwise exactly the listed `.rtf` files named by a GUID outside the valid set are deleted (locked ones skipped), and the count is their number |
| `Persistence.CleanOne` | TopFusen/Services/PersistenceService.cs:207-221 | one loop turn deletes the file exactly when it is an orphan that can be deleted |
| `Persistence.OrphansOfListing` | TopFusen/Services/PersistenceService.cs:202 | cleaning the `*.rtf` listing removes the same files as cleaning the whole folder |
| `Persistence.RtfPathListed` | TopFusen/Services/PersistenceService.cs:202-208 | a note's RTF file is in the listing and its name parses back to the note's id |
| `Persistence.RtfPathEndsInRtf` | TopFusen/Services/PersistenceService.cs:202 | a file named `<stem>.rtf` matches the listing's extension |
| `Persistence.CleanupKeepsValidNotes` | TopFusen/Services/PersistenceService.cs:208 | a valid note's RTF file is never deleted |
| `Persistence.CleanupRemovesOrphanNote` | TopFusen/Services/PersistenceService.cs:208-213 | the RTF file of a note outside the valid set is deleted when it exists and is not locked |
| `Persistence.PersistenceService.constructor` | TopFusen/Services/PersistenceService.cs:40-47 | the timer is stopped, the service is not disposed, no save has been requested, and there is no recovery state |
| `Persistence.PersistenceService.ScheduleSave` | TopFusen/Services/PersistenceService.cs:57-62 | after `Dispose` nothing changes; otherwise the timer runs with its deadline one interval (3 s) from now |
| `Persistence.PersistenceService.RaiseSave` | TopFusen/Services/PersistenceService.cs:69-77 | the timer stops and `SaveRequested` is raised once |
| `Persistence.PersistenceService.FlushSave` | TopFusen/Services/PersistenceService.cs:67-78 | the timer stops and `SaveRequested` is raised once, immediately |
| `Persistence.PersistenceService.OnDebounceTick` | TopFusen/Services/PersistenceService.cs:80-91 | the timer stops and `SaveRequested` is raised once |
| `Persistence.PersistenceService.Dispose` | TopFusen/Services/PersistenceService.cs:331-336 | the service is disposed and the timer stopped; disposing again changes nothing |
| `Persistence.PersistenceService.ReadJsonFile` | TopFusen/Services/PersistenceService.cs:284-301 | a missing or unreadable file, or one that does not parse to data, gives no value |
| `Persistence.PersistenceService.LoadJsonWithFallback` | TopFusen/Services/PersistenceService.cs:281-329 | main data if it parses, recovery state untouched; else backup data with the recovery flag set and one line appended; else null with the recovery state untouched |
| `Persistence.PersistenceService.LoadNotesData` | TopFusen/Services/PersistenceService.cs:100-104 | the fallback load of notes.json and notes.json.bak |
| `Persistence.PersistenceService.LoadSettings` | TopFusen/Services/PersistenceService.cs:119-123 | the fallback load of settings.json and settings.json.bak |
| `Persistence.PersistenceService.SaveNotesData` | TopFusen/Services/PersistenceService.cs:109-114 | an atomic write of notes.json with notes.json.bak as backup, fallback included |
| `Persistence.PersistenceService.SaveSettings` | TopFusen/Services/PersistenceService.cs:128-133 | an atomic write of settings.json with settings.json.bak as backup, fallback included |
| `Persistence.PersistenceService.LoadRtf` | TopFusen/Services/PersistenceService.cs:142-156 | the note's RTF bytes, or null when the file is missing or unreadable |
| `Persistence.PersistenceService.SaveRtf` | TopFusen/Services/PersistenceService.cs:161-172 | the note's RTF file holds the bytes, unless the write fails, which changes nothing |
| `Persistence.PersistenceService.DeleteRtf` | TopFusen/Services/PersistenceService.cs:177-192 | the note's RTF file is gone, unless the delete fails, which changes nothing |
| `Persistence.PersistenceService.CleanupOrphans` | TopFusen/Services/PersistenceService.cs:197-227 | the orphan cleanup on the notes folder |
| `Persistence.BackupNamesDistinct` | TopFusen/Services/PersistenceService.cs:102-131 | each JSON file's backup is neither the file nor its `.tmp` |
| `Persistence.RtfSaveLoadRoundTrip` | TopFusen/Services/PersistenceService.cs:142-172 | RTF bytes saved for a note are what loading it returns; other notes' files are untouched |
| `Persistence.RtfPathsDistinct` | TopFusen/Services/PersistenceService.cs:144-179 | different notes have different RTF files |
| `Hotkeys.ToUInt32` | TopFusen/Services/HotkeyService.cs:84-85 | the `(uint)` cast wraps into 32 bits and keeps non-negative values |
| `Hotkeys.FreshValid` | TopFusen/Services/HotkeyService.cs:21-35 | a new service holds nothing, has no error and has the default settings |
| `Hotkeys.RegisterWithoutWindow` | TopFusen/Services/HotkeyService.cs:76 | with no hook window, `Register` returns false and changes nothing |
| `Hotkeys.RegisterOutcome` | TopFusen/Services/HotkeyService.cs:74-104 | any old registration is dropped first; on success exactly the requested hotkey is held and the error is null; on failure nothing is held and the error is the failure message |
| `Hotkeys.RegisterAgain` | TopFusen/Services/HotkeyService.cs:78-85 | registering twice with the same settings is registering once |
| `Hotkeys.UnregisterOutcome` | TopFusen/Services/HotkeyService.cs:109-117 | afterwards nothing is registered, and only the registration fields change |
| `Hotkeys.UpdateSettingsOutcome` | TopFusen/Services/HotkeyService.cs:122-135 | the settings are stored; disabled leaves nothing registered and no error; enabled behaves as `Register` with the new settings |
| `Hotkeys.InitializeOutcome` | TopFusen/Services/HotkeyService.cs:45-69 | the window and settings are stored; registration happens only with a message source and enabled settings, and then succeeds exactly when the window is non-zero and the native call succeeds |
| `Hotkeys.InitializeSameWindow` | TopFusen/Services/HotkeyService.cs:45-69 | initialising again on the window in use keeps `IsRegistered` in step with what the system holds; without a registration, what the system holds is unchanged |
| `Hotkeys.InitializeOtherWindowLeaks` | TopFusen/Services/HotkeyService.cs:109-117 | initialising a registered service on another window leaves the old window's hotkey held; with no registration after it `IsRegistered` stays true although nothing is held for the new window, and a successful one leaves two hotkeys held |
| `Hotkeys.DisposeOutcome` | TopFusen/Services/HotkeyService.cs:152-164 | disposing a live service leaves nothing registered and no hook; disposing again changes nothing |
| `Hotkeys.NoRepeatRequest` | TopFusen/Services/HotkeyService.cs:84 | the requested modifiers carry MOD_NOREPEAT and pass the ALT/CONTROL/SHIFT/WIN bits on unchanged |
| `Hotkeys.DefaultRequest` | TopFusen/Services/HotkeyService.cs:84-85 | the default hotkey is requested as modifiers 0x4003 and key 0x45 |
| `Hotkeys.HotkeyService.constructor` | TopFusen/Services/HotkeyService.cs:21-35 | the new state is the fresh state |
| `Hotkeys.HotkeyService.Initialize` | TopFusen/Services/HotkeyService.cs:45-69 | the new state is the initialise transition |
| `Hotkeys.HotkeyService.Register` | TopFusen/Services/HotkeyService.cs:74-104 | the new state is the register transition, and the result says whether the hotkey is held |
| `Hotkeys.HotkeyService.Unregister` | TopFusen/Services/HotkeyService.cs:109-117 | the new state is the unregister transition |
| `Hotkeys.HotkeyService.UpdateSettings` | TopFusen/Services/HotkeyService.cs:122-135 | the new state is the settings transition |
| `Hotkeys.HotkeyService.WndProc` | TopFusen/Services/HotkeyService.cs:140-150 | returns 0; marks handled and raises `HotkeyPressed` exactly for WM_HOTKEY with the service's id 1 |
| `Hotkeys.HotkeyService.Dispose` | TopFusen/Services/HotkeyService.cs:152-164 | the new state is the dispose transition |
| `SettingsView.FirstMatch` | TopFusen/Views/SettingsWindow.xaml.cs:126-134 | the least index whose preset has the modifiers and key, or -1 exactly when none does |
| `SettingsView.FindPresetIndex` | TopFusen/Views/SettingsWindow.xaml.cs:126-134 | the index loop returns the first match or -1 |
| `SettingsView.InitialIndexOutcome` | TopFusen/Views/SettingsWindow.xaml.cs:102-103 | the combo opens on a matching preset when one exists, and on 0 when none does |
| `SettingsView.PresetTablesDistinct` | TopFusen/Views/SettingsWindow.xaml.cs:32-49 | both tables have five entries with pairwise-distinct key combinations |
| `SettingsView.ReopenSelectsChosenPreset` | TopFusen/Views/SettingsWindow.xaml.cs:102-103 | after choosing a preset, reopening the window selects that same preset |
| `SettingsView.DefaultOpensOnFirstPreset` | TopFusen/Views/SettingsWindow.xaml.cs:102-103 | the default hotkey matches no preset, so the combo opens on "Ctrl+Shift+Alt+E"; it matches no hide-hotkey preset either |
| `SettingsView.DefaultHotkeyIsCtrlAlt` | TopFusen/Models/AppSettings.cs:44 | the default modifiers 0x0003 are MOD_ALT + MOD_CONTROL, the flags of "Ctrl+Alt+F11", and not Ctrl+Win |
| `SettingsView.HotkeyStatus` | TopFusen/Views/SettingsWindow.xaml.cs:136-153 | failure tone exactly when enabled and not registered, with the service's error or the fallback text; success tone exactly when enabled and registered; muted exactly when disabled |
| `SettingsView.IndexOf` | TopFusen/Views/SettingsWindow.xaml.cs:323 | the first position of the name, or -1 exactly when it is absent |
| `SettingsView.RemoveFirstOutcome` | TopFusen/Views/SettingsWindow.xaml.cs:323 | an absent name leaves the list alone; otherwise exactly one copy goes; a duplicate-free list stays duplicate-free and loses the name |
| `SettingsView.GuardedWhileInitializing` | TopFusen/Views/SettingsWindow.xaml.cs:155-245 | while initialising, the checkbox and preset handlers change nothing but the control that fired |
| `SettingsView.HotkeyPresetOutcome` | TopFusen/Views/SettingsWindow.xaml.cs:186-205 | an index outside the table changes no setting; inside it, exactly that preset's modifiers and key are copied, enabled is kept, an enabled hotkey is re-registered, and one save is scheduled |
| `SettingsView.HidePresetOutcome` | TopFusen/Views/SettingsWindow.xaml.cs:243-262 | the same rule for the hide-hotkey table |
| `SettingsView.HotkeyToggleOutcome` | TopFusen/Views/SettingsWindow.xaml.cs:173-184 | only enabled changes; the hotkey is re-registered, the preset panel follows, and one save is scheduled |
| `SettingsView.AutoStartOutcome` | TopFusen/Views/SettingsWindow.xaml.cs:155-171 | the stored flag follows the checkbox when the Run-key write succeeds; otherwise the checkbox reverts and nothing is saved |
| `SettingsView.FontAddOutcome` | TopFusen/Views/SettingsWindow.xaml.cs:294-316 | a blank name is ignored; a listed name is reported; otherwise the trimmed name is appended, saved and the new list pushed to the note windows, and only then is a list pushed; the list stays duplicate-free |
| `SettingsView.FontRemoveOutcome` | TopFusen/Views/SettingsWindow.xaml.cs:318-333 | no selection is a no-op; otherwise one copy goes, a save is scheduled and the new list is pushed to the note windows; a duplicate-free list stays duplicate-free without the name |
| `SettingsView.ZOrderSyncOutcome` | TopFusen/Views/SettingsWindow.xaml.cs:396-403 | an empty desktop id calls nothing; otherwise one call passes the list's ids in order |
| `SettingsView.OpenedOutcome` | TopFusen/Views/SettingsWindow.xaml.cs:66-124 | opening changes no setting, makes no call and saves nothing; the combos open in range, on the matching preset when there is one |
| `SettingsView.SettingsWindow.constructor` | TopFusen/Views/SettingsWindow.xaml.cs:66-80 | the window's state is the opened state of the current settings |
| `SettingsView.SettingsWindow.SelectHotkeyPreset` | TopFusen/Views/SettingsWindow.xaml.cs:186-205 | the new state is the hotkey-preset transition |
| `SettingsView.SettingsWindow.SelectHidePreset` | TopFusen/Views/SettingsWindow.xaml.cs:243-262 | the new state is the hide-preset transition |
| `SettingsView.SettingsWindow.ToggleHotkey` | TopFusen/Views/SettingsWindow.xaml.cs:173-184 | the new state is the hotkey-toggle transition |
| `SettingsView.SettingsWindow.ToggleHideHotkey` | TopFusen/Views/SettingsWindow.xaml.cs:230-241 | the new state is the hide-toggle transition |
| `SettingsView.SettingsWindow.ToggleAutoStart` | TopFusen/Views/SettingsWindow.xaml.cs:155-171 | the new state is the auto-start transition |
| `SettingsView.SettingsWindow.AddFont` | TopFusen/Views/SettingsWindow.xaml.cs:294-316 | the new state is the font-add transition |
| `SettingsView.SettingsWindow.RemoveFont` | TopFusen/Views/SettingsWindow.xaml.cs:318-333 | the new state is the font-remove transition |
| `SettingsView.SettingsWindow.PopulateZOrderList` | TopFusen/Views/SettingsWindow.xaml.cs:354-388 | the list holds the ordered notes, no sync call is made while it is rebuilt, and the processing flag ends down |
| `SettingsView.SettingsWindow.OnZOrderItemsChanged` | TopFusen/Views/SettingsWindow.xaml.cs:390-394 | ignored while the list is being rebuilt; otherwise it syncs |
| `SettingsView.SettingsWindow.ReorderNotes` | TopFusen/Views/SettingsWindow.xaml.cs:390-403 | a user reorder stores the new order and syncs it |
| `SettingsView.SettingsWindow.SyncZOrderToManager` | TopFusen/Views/SettingsWindow.xaml.cs:396-403 | the new state is the sync transition |

## Left out

- Rendering and text layout are left out: WPF rendering, brushes, borders, shadows, focus handling, the RichTextBox's RTF reading and writing, and the run properties that range formatting writes (only the TextChanged notification it raises is modelled). The RTF reader's result is a parameter of `LoadRtfBytes`, and a document's plain text is a string.
- JSON serialisation is left out: a deserialiser is a parameter of the loads, and a save takes the serialised bytes. `NotesData` is used as the plain list it wraps.
- The `Math.Round` font-size mapping of the toolbar, at NoteWindow.xaml.cs:490-499, is left out. It is floating point.
- Coordinates and sizes are real numbers, not IEEE doubles.
- Timers are a running flag plus a deadline. Real-time firing is left out.
- Events become counters and call records: `SaveRequested`, `NoteChanged`, `HotkeyPressed` and `NoteActivated`. Subscribers and the exceptions they might throw are left out.
- Logging, `Directory.CreateDirectory` (`EnsureDirectories`) and message boxes are left out.
- App.xaml.cs, SingleInstanceService.cs, LoggingService.cs, AutoStartService.cs, ZOrderWindow.xaml.cs and the P/Invoke and COM declarations are not part of this model. The auto-start write appears only as its success flag.
- The product design's visibility engine (cloaking, desktop polling, orphan rescue, Z-order re-application) is left out because it is not in the code.
- `Guids.TryParse`: the "X" format and the `0x` and sign quirks of .NET parsing are not modelled. Only "D", "N", "B" and "P" are.
- `Persistence.AtomicWrite`: a locked path is the only cause of a failing file call. A full disk, a missing folder and any partial effect of a failing `File.Replace` are not modelled.
- `Persistence.CleanupOrphanedRtfFiles`: the listing matches names ending in ".rtf" exactly. Windows' case-insensitive matching and 8.3 short names are not modelled, and `Directory.GetFiles` is assumed not to throw.
- `Hotkeys.InitializeOutcome`: the outcome is stated only for a service that holds no registration beforehand, the case at start-up. `Hotkeys.InitializeSameWindow` and `Hotkeys.InitializeOtherWindowLeaks` state the registered cases.
- `Hotkeys.HotkeyService.WndProc`: `wParam.ToInt32()` is taken as the exact integer; its overflow on 64-bit values is not modelled. The result of `UnregisterHotKey` is ignored, as in the source.
- `Desktops.VirtualDesktopService.GetCurrentDesktopId`: the probe window is an abstract count of open windows; its native creation is left out.
- Registry reads are a snapshot with ASCII case folding of key and value names. Other registry value kinds are not told apart.
- The hide hotkey, `UpdateHideSettings`, `SetFontAllowList`, `UpdateZOrder`, `GetOrderedNotesForDesktop` and `GetCurrentDesktopId` on the note manager are used by SettingsWindow.xaml.cs but are not in the modelled sources. The settings window keeps its own hide-hotkey value and records these calls, each list handed to `SetFontAllowList` included, instead of modelling their effect.
- The hide-hotkey status text (SettingsWindow.xaml.cs:211-228) is left out, because it reads `IsHideRegistered`, which the modelled hotkey service does not have.
- Left out of the settings window: `DeleteNoteButton_Click` with its confirmation box, the details tab, the log-folder button, and the diagnostic ZIP (SettingsWindow.xaml.cs:408-607).
- `NoteWindows.NoteWindow.FontSizeSelected`: the `_isUpdatingToolbar` guard (NoteWindow.xaml.cs:660) is not modelled. Only `UpdateToolbarState` raises it, and that refresh is left out, so every modelled choice is the user's.
- `SettingsView.AutoStartOutcome`: when the write fails, putting the checkbox back may raise the checkbox's change event again. The markup that wires it is not part of this model, so that second call, and a save if it succeeds, are not modelled.
- `SettingsView.SettingsWindow.ReorderNotes`: the `Dispatcher.BeginInvoke` deferral of the sync is modelled as an immediate sync.
- `SettingsView.SettingsWindow.constructor`: the combo boxes are set directly while initialising. `SettingsView.GuardedWhileInitializing` states that the handlers this fires change nothing else.
- Left out of the note window: the toolbar state refresh (`UpdateToolbarState`), the Ctrl+B/Ctrl+U key routing, drag-move, the delete and duplicate buttons, and paste font normalisation. They are UI plumbing over the modelled handlers.

## Findings

| source | as written | input that shows it | evidently intended | confidence | as-written member | corrected member |
|---|---|---|---|---|---|---|
| TopFusen/Services/NoteManager.cs:117-124 | `CreateNote` gives the new window click-through `!IsEditMode` but never calls `SetInEditMode`; `NoteWindow` always starts out of edit mode | `CreateNote()` while `IsEditMode` is true: the new note is not click-through, is not in edit mode, and clicking it never selects it | the new window follows the manager's edit mode, which the `NoteWindow` constructor comment (NoteWindow.xaml.cs:104-105) says the manager sets after `Show()` | high, not executed | `NoteManagement.NoteManager.CreateNote`, `NoteManagement.CreatedInEditModeDisagrees` | `NoteManagement.NoteManager.CreateNoteSynced`, `NoteManagement.SyncedWindowAgrees` |
| TopFusen/Services/NoteManager.cs:172-185 | `DuplicateNote` in edit mode selects the copy, but the copy was never put in edit mode | `DuplicateNote(id)` of an existing note while `IsEditMode` is true: the copy is selected yet shows no toolbar and its text is read-only | a selected duplicate in edit mode shows its toolbar and can be edited, like every other selected note | high, not executed | `NoteManagement.NoteManager.DuplicateNote`, `NoteManagement.DuplicatedInEditModeHidesToolbar` | `NoteManagement.NoteManager.DuplicateNoteSynced`, `NoteManagement.SyncedDuplicateAgrees`, `NoteManagement.SyncedDuplicateShowsToolbar` |
