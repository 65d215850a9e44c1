/** The data of one sticky note and its defaults. */
module Notes {
  import opened Wrappers
  import opened Guids
  import opened SystemPath
  import AppDataPaths
  import Palette
  import Text

  /** Which monitor the note was on: the display-config device path, with the GDI device name as fallback. */
  datatype MonitorIdentity = MonitorIdentity(devicePath: Option<string>, nameFallback: Option<string>)

  /** Position and size in device-independent pixels, plus the position relative to the monitor work area. */
  datatype NotePlacement = NotePlacement(
    relativeX: real, relativeY: real,
    dipX: real, dipY: real, dipWidth: real, dipHeight: real,
    dpiScale: real)

  datatype NoteStyle = NoteStyle(
    bgPaletteCategoryId: string,
    bgColorId: string,
    opacity0to100: int,
    textColor: Option<string>,
    fontFamilyName: string,
    verticalTextAlignment: string)

  /** One note; its text lives in a separate RTF file named after `noteId`. */
  datatype NoteModel = NoteModel(
    noteId: Guid,
    desktopId: Guid,
    monitor: MonitorIdentity,
    placement: NotePlacement,
    style: NoteStyle,
    firstLinePreview: seq<Text.CodeUnit>)

  const DefaultPlacement: NotePlacement := NotePlacement(0.0, 0.0, 0.0, 0.0, 240.0, 180.0, 1.0)

  const DefaultStyle: NoteStyle := NoteStyle("vivid", "yellow", 100, None, "Yu Gothic UI", "top")

  /** `new NoteModel()`; the identifier `Guid.NewGuid()` would draw is passed in. */
  function NewNoteModel(noteId: Guid): (m: NoteModel)
    ensures m.noteId == noteId
  {
    NoteModel(noteId, EmptyGuid, MonitorIdentity(None, None), DefaultPlacement, DefaultStyle, [])
  }

  /** The name of the note's RTF file, relative to the notes folder. */
  function RtfFileName(m: NoteModel): string {
    ToText(m.noteId) + ".rtf"
  }

  /** A new note is unassigned to any desktop, 240 x 180 at scale 1.0, vivid yellow, fully opaque. */
  lemma NewNoteDefaults(noteId: Guid)
    ensures NewNoteModel(noteId).desktopId == EmptyGuid
    ensures NewNoteModel(noteId).placement.dipWidth == 240.0 && NewNoteModel(noteId).placement.dipHeight == 180.0
    ensures NewNoteModel(noteId).placement.dpiScale == 1.0
    ensures var st := NewNoteModel(noteId).style;
            st.bgPaletteCategoryId == "vivid" && st.bgColorId == "yellow" && 0 <= st.opacity0to100 <= 100
            && st.opacity0to100 == 100 && st.textColor == None
            && st.fontFamilyName == "Yu Gothic UI" && st.verticalTextAlignment == "top"
    ensures NewNoteModel(noteId).firstLinePreview == []
  {
  }

  /** The default style names the palette's default colour. */
  lemma DefaultStyleColor()
    ensures Palette.GetHexColor(DefaultStyle.bgPaletteCategoryId, DefaultStyle.bgColorId) == Some(Palette.DefaultHexColor)
  {
    Palette.DefaultIsVividYellow();
  }

  /**
   * The file name is the last component of the note's RTF path, and the name without its
   * extension parses back to the note's id.
   */
  lemma RtfFileNameMatchesPath(localAppData: string, m: NoteModel)
    ensures GetFileName(AppDataPaths.GetRtfPath(localAppData, m.noteId)) == RtfFileName(m)
    ensures TryParse(GetFileNameWithoutExtension(AppDataPaths.GetRtfPath(localAppData, m.noteId))) == Some(m.noteId)
  {
    AppDataPaths.RtfPathShape(localAppData, m.noteId);
    ParseToText(m.noteId);
  }
}
