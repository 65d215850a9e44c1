/**
 * One note window: its flags (click-through, selected, edit mode, change tracking, loading),
 * the visual state derived from them, the hit-test hook, the extended-style masking done when
 * the native window is created, the pending text format for an empty selection, and the
 * change notifications it raises.
 *
 * Every operation is a pure transition on a `WindowState` snapshot; the `NoteWindow` class
 * holds the same fields and each method is proved to perform its transition.
 */
module NoteWindows {
  import opened Wrappers
  import opened Guids
  import opened Notes
  import opened NotePreview
  import Text

  // ---- Win32 constants ----

  const WM_NCHITTEST: int := 0x0084
  const HTTRANSPARENT: int := -1

  const WS_EX_TRANSPARENT: bv32 := 0x0000_0020
  const WS_EX_TOOLWINDOW: bv32 := 0x0000_0080
  const WS_EX_NOACTIVATE: bv32 := 0x0800_0000

  /** The extended-style bits a note window must not carry: they break virtual-desktop tracking. */
  const ForbiddenExStyle: bv32 := WS_EX_TOOLWINDOW | WS_EX_TRANSPARENT | WS_EX_NOACTIVATE

  /** The extended style written back at source initialisation. */
  function StripExStyle(exStyle: bv32): (r: bv32)
    ensures r & ForbiddenExStyle == 0
    ensures r & !ForbiddenExStyle == exStyle & !ForbiddenExStyle
  {
    exStyle & !WS_EX_TOOLWINDOW & !WS_EX_TRANSPARENT & !WS_EX_NOACTIVATE
  }

  // ---- State ----

  /** What the window shows; set from the markup at construction, then by UpdateVisualState. */
  datatype Visuals = Visuals(
    toolbarVisible: bool,
    bottomBarVisible: bool,
    selectionFrame: bool,
    textReadOnly: bool,
    textFocusable: bool,
    textHitTestVisible: bool,
    scrollBarAuto: bool,
    colorPopupOpen: bool)

  datatype Decoration = Underline | Strikethrough | Overline | Baseline

  /** The dependency properties a pending format can set. */
  datatype FormatKey = FontWeightKey | TextDecorationsKey | FontSizeKey | ForegroundKey

  datatype FormatValue =
    | Weight(bold: bool)
    | Decorations(decorations: set<Decoration>)
    | FontSize(size: real)
    | Foreground(color: string)

  datatype Lifecycle = Created | Shown | Closed

  datatype WindowState = WindowState(
    model: NoteModel,
    initialClickThrough: bool,
    isClickThrough: bool,
    isSelected: bool,
    isInEditMode: bool,
    isTrackingChanges: bool,
    isLoadingContent: bool,
    pendingFormat: map<FormatKey, FormatValue>,
    visuals: Visuals,
    exStyle: Option<bv32>,
    lifecycle: Lifecycle,
    left: real, top: real, width: real, height: real,
    actualWidth: real, actualHeight: real,
    documentText: string,
    changeNotifications: nat)

  // ---- Transitions ----

  /** The constructor: out of edit mode, unselected, not yet click-through, geometry from the placement. */
  function Constructed(model: NoteModel, clickThrough: bool, markup: Visuals): WindowState {
    WindowState(model, clickThrough, false, false, false, false, false, map[], markup, None, Created,
                model.placement.dipX, model.placement.dipY, model.placement.dipWidth, model.placement.dipHeight,
                0.0, 0.0, "", 0)
  }

  /** OnSourceInitialized: mask the extended style and apply the initial click-through. */
  function SourceInitialized(s: WindowState, osExStyle: bv32): WindowState {
    s.(exStyle := Some(StripExStyle(osExStyle)), isClickThrough := s.initialClickThrough)
  }

  /** `Show()`: the first show creates the native window, which runs OnSourceInitialized. */
  function Showed(s: WindowState, osExStyle: bv32): WindowState {
    if s.lifecycle == Created then SourceInitialized(s, osExStyle).(lifecycle := Shown) else s
  }

  function Closing(s: WindowState): WindowState {
    s.(lifecycle := Closed)
  }

  function ClickThroughSet(s: WindowState, transparent: bool): WindowState {
    if s.isClickThrough == transparent then s else s.(isClickThrough := transparent)
  }

  /** UpdateVisualState. */
  function VisualsFor(inEditMode: bool, selected: bool, popupOpen: bool): Visuals {
    var showUI := inEditMode && selected;
    Visuals(showUI, showUI, showUI, !showUI, showUI, inEditMode, showUI, showUI && popupOpen)
  }

  function VisualsUpdated(s: WindowState): WindowState {
    s.(visuals := VisualsFor(s.isInEditMode, s.isSelected, s.visuals.colorPopupOpen))
  }

  function SelectedSet(s: WindowState, selected: bool): WindowState {
    if s.isSelected == selected then s else VisualsUpdated(s.(isSelected := selected))
  }

  function EditModeSet(s: WindowState, editMode: bool): WindowState {
    if s.isInEditMode == editMode then s else VisualsUpdated(s.(isInEditMode := editMode))
  }

  /** The rules the visual state follows once it has been derived from the flags. */
  predicate VisualRulesHold(s: WindowState) {
    var showUI := s.isInEditMode && s.isSelected;
    s.visuals.toolbarVisible == showUI && s.visuals.bottomBarVisible == showUI
    && s.visuals.selectionFrame == showUI
    && s.visuals.textReadOnly == !showUI && s.visuals.textFocusable == showUI
    && s.visuals.scrollBarAuto == showUI
    && s.visuals.textHitTestVisible == s.isInEditMode
    && (!showUI ==> !s.visuals.colorPopupOpen)
  }

  /** SelectionChanged: moving the caret drops the pending format, in edit mode on a selected note. */
  function SelectionMoved(s: WindowState): WindowState {
    if !s.isInEditMode || !s.isSelected then s else s.(pendingFormat := map[])
  }

  /** Whether the next typed text is bold: the pending weight if any, else the selection's. */
  function EffectiveBold(pending: map<FormatKey, FormatValue>, selectionBold: bool): bool {
    if FontWeightKey in pending then pending[FontWeightKey] == Weight(true) else selectionBold
  }

  /** The decorations of the next typed text: the pending ones if any, else the selection's (None when mixed). */
  function EffectiveDecorations(pending: map<FormatKey, FormatValue>, selection: Option<set<Decoration>>)
    : Option<set<Decoration>>
  {
    if TextDecorationsKey in pending then
      match pending[TextDecorationsKey]
      case Decorations(ds) => Some(ds)
      case _ => None
    else selection
  }

  /** Removes every `d` when present, adds one otherwise. */
  function Toggled(current: Option<set<Decoration>>, d: Decoration): (r: set<Decoration>)
    ensures d in r <==> !(current.Some? && d in current.value)
    ensures forall e :: e != d ==> (e in r <==> current.Some? && e in current.value)
  {
    var ds := current.GetOr({});
    if d in ds then ds - {d} else ds + {d}
  }

  /**
   * BoldButton_Click: with an empty selection the pending weight becomes the opposite of the
   * effective one; on a selection the toggled run formatting raises TextChanged.
   */
  function BoldClicked(s: WindowState, selectionEmpty: bool, selectionBold: bool): WindowState {
    if !selectionEmpty then TextChanged(s)
    else s.(pendingFormat := s.pendingFormat[FontWeightKey := Weight(!EffectiveBold(s.pendingFormat, selectionBold))])
  }

  /** UnderlineButton_Click / StrikethroughButton_Click with decoration `d`; formatting a selection raises TextChanged. */
  function DecorationClicked(s: WindowState, d: Decoration, selectionEmpty: bool, selection: Option<set<Decoration>>)
    : WindowState
  {
    if !selectionEmpty then TextChanged(s)
    else s.(pendingFormat := s.pendingFormat[TextDecorationsKey :=
              Decorations(Toggled(EffectiveDecorations(s.pendingFormat, selection), d))])
  }

  /** FontSizeCombo_SelectionChanged with a preset size; applying it to a selection raises TextChanged. */
  function FontSizeChosen(s: WindowState, size: int, selectionEmpty: bool): WindowState {
    if !selectionEmpty then TextChanged(s) else s.(pendingFormat := s.pendingFormat[FontSizeKey := FontSize(size as real)])
  }

  /** TextColorButton_Click toggles the colour popup. */
  function ColorButtonClicked(s: WindowState): WindowState {
    s.(visuals := s.visuals.(colorPopupOpen := !s.visuals.colorPopupOpen))
  }

  /**
   * TextColorSwatch_Click: pending colour for an empty selection, otherwise the colour applied to
   * the selection raises TextChanged; the popup closes.
   */
  function SwatchClicked(s: WindowState, color: string, selectionEmpty: bool): WindowState {
    var t := if selectionEmpty then s.(pendingFormat := s.pendingFormat[ForegroundKey := Foreground(color)])
             else TextChanged(s);
    t.(visuals := t.visuals.(colorPopupOpen := false))
  }

  /** The document text with `typed` inserted at the caret. */
  function Inserted(text: string, caret: nat, typed: string): string
    requires caret <= |text|
  {
    text[..caret] + typed + text[caret..]
  }

  /**
   * PreviewTextInput: with a pending format the handler inserts the typed text at the caret
   * itself (the insertion raises TextChanged) and consumes the pending format; without one it
   * leaves the text to the text box, whose own insertion is `TextEdited`.
   */
  function TextTyped(s: WindowState, caret: nat, typed: string): WindowState
    requires caret <= |s.documentText|
  {
    if |s.pendingFormat| == 0 then s
    else TextEdited(s, Inserted(s.documentText, caret, typed)).(pendingFormat := map[])
  }

  /** OnRichTextBoxTextChanged: refresh the preview and raise NoteChanged, unless gated. */
  function TextChanged(s: WindowState): WindowState {
    if !s.isTrackingChanges || s.isLoadingContent then s
    else s.(model := s.model.(firstLinePreview := Preview(s.documentText)),
            changeNotifications := s.changeNotifications + 1)
  }

  /** The user edits the text. */
  function TextEdited(s: WindowState, text: string): WindowState {
    TextChanged(s.(documentText := text))
  }

  /** LoadRtfBytes; `decoded` is the text the RTF reader produced, None when it threw. */
  function RtfLoaded(s: WindowState, rtfLength: nat, decoded: Option<string>): WindowState {
    if rtfLength == 0 then s
    else
      var loading := s.(isLoadingContent := true);
      var loaded := match decoded
        case Some(text) => TextChanged(loading.(documentText := text))
        case None => loading;
      loaded.(isLoadingContent := false)
  }

  /** SyncModelFromWindow: position, and the rendered size when there is one. */
  function Synced(s: WindowState): WindowState {
    var w := if s.actualWidth > 0.0 then s.actualWidth else s.width;
    var h := if s.actualHeight > 0.0 then s.actualHeight else s.height;
    s.(model := s.model.(placement := s.model.placement.(dipX := s.left, dipY := s.top, dipWidth := w, dipHeight := h)))
  }

  /** OnWindowLocationChanged / OnWindowSizeChanged. */
  function GeometryChanged(s: WindowState): WindowState {
    if !s.isTrackingChanges then s else Synced(s).(changeNotifications := s.changeNotifications + 1)
  }

  function Moved(s: WindowState, left: real, top: real): WindowState {
    GeometryChanged(s.(left := left, top := top))
  }

  function Resized(s: WindowState, width: real, height: real, actualWidth: real, actualHeight: real): WindowState {
    GeometryChanged(s.(width := width, height := height, actualWidth := actualWidth, actualHeight := actualHeight))
  }

  // ---- Properties of the transitions ----

  /** A new window starts out of edit mode and unselected; showing it applies the constructor's click-through. */
  lemma NewWindowState(model: NoteModel, clickThrough: bool, markup: Visuals, osExStyle: bv32)
    ensures var s := Showed(Constructed(model, clickThrough, markup), osExStyle);
            !s.isInEditMode && !s.isSelected && s.isClickThrough == clickThrough
            && s.lifecycle == Shown && s.exStyle == Some(StripExStyle(osExStyle))
            && s.model == model && s.changeNotifications == 0 && !s.isTrackingChanges
  {
  }

  /** Passing the current value to a setter changes nothing. */
  lemma SettersIdempotent(s: WindowState)
    ensures ClickThroughSet(s, s.isClickThrough) == s
    ensures SelectedSet(s, s.isSelected) == s
    ensures EditModeSet(s, s.isInEditMode) == s
  {
  }

  /** The setters set their flag and touch no other flag. */
  lemma SettersSetTheirFlag(s: WindowState, b: bool)
    ensures ClickThroughSet(s, b).isClickThrough == b
    ensures SelectedSet(s, b).isSelected == b && SelectedSet(s, b).isInEditMode == s.isInEditMode
    ensures EditModeSet(s, b).isInEditMode == b && EditModeSet(s, b).isSelected == s.isSelected
    ensures SelectedSet(s, b).isClickThrough == s.isClickThrough && EditModeSet(s, b).isClickThrough == s.isClickThrough
    ensures ClickThroughSet(s, b).isSelected == s.isSelected && ClickThroughSet(s, b).isInEditMode == s.isInEditMode
  {
  }

  /** UpdateVisualState establishes the visual rules. */
  lemma VisualsUpdatedFollowRules(s: WindowState)
    ensures VisualRulesHold(VisualsUpdated(s))
  {
  }

  /** Setting a flag to a new value re-derives the visuals; to the same value, keeps them consistent. */
  lemma SettersKeepVisualRules(s: WindowState, b: bool)
    ensures b != s.isSelected ==> VisualRulesHold(SelectedSet(s, b))
    ensures b != s.isInEditMode ==> VisualRulesHold(EditModeSet(s, b))
    ensures VisualRulesHold(s) ==> VisualRulesHold(SelectedSet(s, b)) && VisualRulesHold(EditModeSet(s, b))
                                   && VisualRulesHold(ClickThroughSet(s, b))
  {
  }

  /** The colour popup can only be opened while the toolbar is shown without breaking the rules. */
  lemma ColorButtonKeepsVisualRules(s: WindowState)
    requires VisualRulesHold(s)
    ensures VisualRulesHold(ColorButtonClicked(s)) <==> (s.isInEditMode && s.isSelected) || s.visuals.colorPopupOpen
  {
  }

  /** Bold with an empty selection flips the effective weight; twice gives it back. Other keys are kept. */
  lemma BoldToggles(s: WindowState, selectionBold: bool)
    ensures EffectiveBold(BoldClicked(s, true, selectionBold).pendingFormat, selectionBold)
            == !EffectiveBold(s.pendingFormat, selectionBold)
    ensures EffectiveBold(BoldClicked(BoldClicked(s, true, selectionBold), true, selectionBold).pendingFormat, selectionBold)
            == EffectiveBold(s.pendingFormat, selectionBold)
    ensures forall k :: k != FontWeightKey ==>
              (k in BoldClicked(s, true, selectionBold).pendingFormat <==> k in s.pendingFormat)
  {
  }

  /** Underline or strikethrough with an empty selection flips only that decoration. */
  lemma DecorationToggles(s: WindowState, d: Decoration, selection: Option<set<Decoration>>)
    ensures var after := EffectiveDecorations(DecorationClicked(s, d, true, selection).pendingFormat, selection);
            var before := EffectiveDecorations(s.pendingFormat, selection);
            after.Some?
            && (d in after.value <==> !(before.Some? && d in before.value))
            && (forall e :: e != d ==> (e in after.value <==> before.Some? && e in before.value))
  {
  }

  /** Editing text notifies exactly when tracking is on and no load is running, and then refreshes the preview. */
  lemma TextEditNotifies(s: WindowState, text: string)
    ensures var t := TextEdited(s, text);
            (t.changeNotifications == s.changeNotifications + 1 <==> s.isTrackingChanges && !s.isLoadingContent)
            && (t.changeNotifications == s.changeNotifications <==> !(s.isTrackingChanges && !s.isLoadingContent))
            && (s.isTrackingChanges && !s.isLoadingContent ==> t.model.firstLinePreview == Preview(text))
  {
  }

  /** `t` follows `s` the way a formatting change of the selection does: same text, gated notification. */
  predicate FormattingNotified(s: WindowState, t: WindowState) {
    var gate := s.isTrackingChanges && !s.isLoadingContent;
    t.documentText == s.documentText && t.pendingFormat == s.pendingFormat
    && (t.changeNotifications == s.changeNotifications + 1 <==> gate)
    && (t.changeNotifications == s.changeNotifications <==> !gate)
    && (gate ==> t.model.firstLinePreview == Preview(s.documentText))
  }

  /**
   * Formatting a non-empty selection keeps the text and the pending format, and notifies like a
   * text edit: exactly when tracking is on and no load is running.
   */
  lemma SelectionFormattingNotifies(s: WindowState, d: Decoration, selection: Option<set<Decoration>>,
                                    selectionBold: bool, size: int, color: string)
    ensures FormattingNotified(s, BoldClicked(s, false, selectionBold))
    ensures FormattingNotified(s, DecorationClicked(s, d, false, selection))
    ensures FormattingNotified(s, FontSizeChosen(s, size, false))
    ensures FormattingNotified(s, SwatchClicked(s, color, false))
    ensures !SwatchClicked(s, color, false).visuals.colorPopupOpen
  {
  }

  /**
   * Typing with a pending format puts the typed text at the caret, keeps the text before and
   * after it, consumes the pending format and notifies like any edit; without a pending format
   * the handler changes nothing.
   */
  lemma TypedTextInserted(s: WindowState, caret: nat, typed: string)
    requires caret <= |s.documentText|
    ensures var t := TextTyped(s, caret, typed);
            |s.pendingFormat| > 0 ==>
              |t.documentText| == |s.documentText| + |typed|
              && t.documentText[..caret] == s.documentText[..caret]
              && t.documentText[caret..caret + |typed|] == typed
              && t.documentText[caret + |typed|..] == s.documentText[caret..]
              && t.pendingFormat == map[]
              && (t.changeNotifications == s.changeNotifications + 1 <==> s.isTrackingChanges && !s.isLoadingContent)
    ensures |s.pendingFormat| == 0 ==> TextTyped(s, caret, typed) == s
  {
    if |s.pendingFormat| > 0 {
      var text := Inserted(s.documentText, caret, typed);
      assert text[..caret] == s.documentText[..caret];
      assert text[caret..caret + |typed|] == typed;
      assert text[caret + |typed|..] == s.documentText[caret..];
      TextEditNotifies(s, text);
    }
  }

  /** Loading RTF never notifies, ends with the loading flag down, and does nothing for empty input. */
  lemma LoadNeverNotifies(s: WindowState, rtfLength: nat, decoded: Option<string>)
    ensures RtfLoaded(s, rtfLength, decoded).changeNotifications == s.changeNotifications
    ensures rtfLength > 0 ==> !RtfLoaded(s, rtfLength, decoded).isLoadingContent
    ensures rtfLength == 0 ==> RtfLoaded(s, rtfLength, decoded) == s
    ensures rtfLength > 0 && decoded.Some? ==> RtfLoaded(s, rtfLength, decoded).documentText == decoded.value
  {
    if rtfLength > 0 && decoded.Some? {
      var loading := s.(isLoadingContent := true, documentText := decoded.value);
      assert TextChanged(loading) == loading;
    }
  }

  /** A move or resize notifies exactly when tracking is on, and then stores the window's geometry in the note. */
  lemma GeometryNotifies(s: WindowState, left: real, top: real)
    ensures var t := Moved(s, left, top);
            (t.changeNotifications == s.changeNotifications + 1 <==> s.isTrackingChanges)
            && (s.isTrackingChanges ==> t.model.placement.dipX == left && t.model.placement.dipY == top)
            && (!s.isTrackingChanges ==> t.model == s.model)
  {
  }

  // ---- The window ----

  class NoteWindow {
    var model: NoteModel
    const initialClickThrough: bool
    var isClickThrough: bool
    var isSelected: bool
    var isInEditMode: bool
    var isTrackingChanges: bool
    var isLoadingContent: bool
    var pendingFormat: map<FormatKey, FormatValue>
    var visuals: Visuals
    var exStyle: Option<bv32>
    var lifecycle: Lifecycle
    var left: real
    var top: real
    var width: real
    var height: real
    var actualWidth: real
    var actualHeight: real
    var documentText: string
    /** How many NoteChanged events the window has raised. */
    var changeNotifications: nat

    function State(): WindowState
      reads this
    {
      WindowState(model, initialClickThrough, isClickThrough, isSelected, isInEditMode, isTrackingChanges,
                  isLoadingContent, pendingFormat, visuals, exStyle, lifecycle, left, top, width, height,
                  actualWidth, actualHeight, documentText, changeNotifications)
    }

    /** `markup` is the visual state the window's markup declares. */
    constructor(model: NoteModel, clickThrough: bool, markup: Visuals)
      ensures State() == Constructed(model, clickThrough, markup)
    {
      this.model := model;
      initialClickThrough := clickThrough;
      isInEditMode := false;
      isClickThrough := false;
      isSelected := false;
      isTrackingChanges := false;
      isLoadingContent := false;
      pendingFormat := map[];
      visuals := markup;
      exStyle := None;
      lifecycle := Created;
      left := model.placement.dipX;
      top := model.placement.dipY;
      width := model.placement.dipWidth;
      height := model.placement.dipHeight;
      actualWidth := 0.0;
      actualHeight := 0.0;
      documentText := "";
      changeNotifications := 0;
    }

    /** `osExStyle` is the extended style the OS gave the new native window. */
    method OnSourceInitialized(osExStyle: bv32)
      modifies this
      ensures State() == SourceInitialized(old(State()), osExStyle)
    {
      var style := osExStyle;
      style := style & !WS_EX_TOOLWINDOW;
      style := style & !WS_EX_TRANSPARENT;
      style := style & !WS_EX_NOACTIVATE;
      exStyle := Some(style);
      isClickThrough := initialClickThrough;
    }

    method Show(osExStyle: bv32)
      modifies this
      ensures State() == Showed(old(State()), osExStyle)
    {
      if lifecycle == Created {
        OnSourceInitialized(osExStyle);
        lifecycle := Shown;
      }
    }

    method Close()
      modifies this
      ensures State() == Closing(old(State()))
    {
      lifecycle := Closed;
    }

    /** The message hook: a hit test is passed through to the window below while click-through is on. */
    method WndProc(msg: int, handled: bool) returns (result: int, handledOut: bool)
      ensures msg == WM_NCHITTEST && isClickThrough ==> result == HTTRANSPARENT && handledOut
      ensures !(msg == WM_NCHITTEST && isClickThrough) ==> result == 0 && handledOut == handled
    {
      handledOut := handled;
      if msg == WM_NCHITTEST && isClickThrough {
        handledOut := true;
        return HTTRANSPARENT, handledOut;
      }
      return 0, handledOut;
    }

    method SetClickThrough(transparent: bool)
      modifies this
      ensures State() == ClickThroughSet(old(State()), transparent)
    {
      if isClickThrough == transparent {
        return;
      }
      isClickThrough := transparent;
    }

    method SetSelected(selected: bool)
      modifies this
      ensures State() == SelectedSet(old(State()), selected)
    {
      if isSelected == selected {
        return;
      }
      isSelected := selected;
      UpdateVisualState();
    }

    method SetInEditMode(editMode: bool)
      modifies this
      ensures State() == EditModeSet(old(State()), editMode)
    {
      if isInEditMode == editMode {
        return;
      }
      isInEditMode := editMode;
      UpdateVisualState();
    }

    method UpdateVisualState()
      modifies this
      ensures State() == VisualsUpdated(old(State()))
    {
      var showUI := isInEditMode && isSelected;
      var canEdit := isInEditMode && isSelected;
      var popupOpen := visuals.colorPopupOpen;
      if !showUI {
        popupOpen := false;
      }
      visuals := Visuals(showUI, showUI, showUI, !canEdit, canEdit, isInEditMode, canEdit, popupOpen);
    }

    /** OnActivated: in edit mode the window reports its activation (NoteActivated) to the manager. */
    method OnActivated() returns (noteActivated: bool)
      ensures noteActivated <==> isInEditMode
    {
      noteActivated := isInEditMode;
    }

    method SelectionChanged()
      modifies this
      ensures State() == SelectionMoved(old(State()))
    {
      if !isInEditMode || !isSelected {
        return;
      }
      pendingFormat := map[];
    }

    /** `typed` arrives with the caret at `caret`; returns whether the text was taken over to carry the pending format. */
    method PreviewTextInput(caret: nat, typed: string) returns (handled: bool)
      requires caret <= |documentText|
      modifies this
      ensures State() == TextTyped(old(State()), caret, typed)
      ensures handled <==> |old(pendingFormat)| > 0
    {
      if |pendingFormat| == 0 {
        return false;
      }
      handled := true;
      EditText(Inserted(documentText, caret, typed));
      pendingFormat := map[];
    }

    method BoldButtonClick(selectionEmpty: bool, selectionBold: bool)
      modifies this
      ensures State() == BoldClicked(old(State()), selectionEmpty, selectionBold)
    {
      if selectionEmpty {
        var isBold: bool;
        if FontWeightKey in pendingFormat {
          isBold := pendingFormat[FontWeightKey] == Weight(true);
        } else {
          isBold := selectionBold;
        }
        pendingFormat := pendingFormat[FontWeightKey := Weight(!isBold)];
      } else {
        OnTextChanged();
      }
    }

    method UnderlineButtonClick(selectionEmpty: bool, selection: Option<set<Decoration>>)
      modifies this
      ensures State() == DecorationClicked(old(State()), Underline, selectionEmpty, selection)
    {
      if selectionEmpty {
        var current := EffectiveDecorations(pendingFormat, selection);
        pendingFormat := pendingFormat[TextDecorationsKey := Decorations(Toggled(current, Underline))];
      } else {
        OnTextChanged();
      }
    }

    method StrikethroughButtonClick(selectionEmpty: bool, selection: Option<set<Decoration>>)
      modifies this
      ensures State() == DecorationClicked(old(State()), Strikethrough, selectionEmpty, selection)
    {
      if selectionEmpty {
        var current := EffectiveDecorations(pendingFormat, selection);
        pendingFormat := pendingFormat[TextDecorationsKey := Decorations(Toggled(current, Strikethrough))];
      } else {
        OnTextChanged();
      }
    }

    method FontSizeSelected(size: int, selectionEmpty: bool)
      modifies this
      ensures State() == FontSizeChosen(old(State()), size, selectionEmpty)
    {
      if selectionEmpty {
        pendingFormat := pendingFormat[FontSizeKey := FontSize(size as real)];
      } else {
        OnTextChanged();
      }
    }

    method TextColorButtonClick()
      modifies this
      ensures State() == ColorButtonClicked(old(State()))
    {
      visuals := visuals.(colorPopupOpen := !visuals.colorPopupOpen);
    }

    method TextColorSwatchClick(color: string, selectionEmpty: bool)
      modifies this
      ensures State() == SwatchClicked(old(State()), color, selectionEmpty)
    {
      if selectionEmpty {
        pendingFormat := pendingFormat[ForegroundKey := Foreground(color)];
      } else {
        OnTextChanged();
      }
      visuals := visuals.(colorPopupOpen := false);
    }

    method EnableChangeTracking()
      modifies this
      ensures State() == old(State()).(isTrackingChanges := true)
    {
      isTrackingChanges := true;
    }

    method OnTextChanged()
      modifies this
      ensures State() == TextChanged(old(State()))
    {
      if !isTrackingChanges || isLoadingContent {
        return;
      }
      var preview := GetFirstLinePreview();
      model := model.(firstLinePreview := preview);
      changeNotifications := changeNotifications + 1;
    }

    method GetFirstLinePreview() returns (preview: seq<Text.CodeUnit>)
      ensures preview == Preview(documentText)
    {
      preview := Preview(documentText);
    }

    /** The user changes the text to `text`; the text box then raises TextChanged. */
    method EditText(text: string)
      modifies this
      ensures State() == TextEdited(old(State()), text)
    {
      documentText := text;
      OnTextChanged();
    }

    /** `decoded` is what the RTF reader makes of `rtf`, or None when it throws. */
    method LoadRtfBytes(rtf: seq<Byte>, decoded: Option<string>)
      modifies this
      ensures State() == RtfLoaded(old(State()), |rtf|, decoded)
    {
      if |rtf| == 0 {
        return;
      }
      isLoadingContent := true;
      if decoded.Some? {
        documentText := decoded.value;
        OnTextChanged();
      }
      isLoadingContent := false;
    }

    method SyncModelFromWindow()
      modifies this
      ensures State() == Synced(old(State()))
    {
      var w := if actualWidth > 0.0 then actualWidth else width;
      var h := if actualHeight > 0.0 then actualHeight else height;
      model := model.(placement := model.placement.(dipX := left, dipY := top, dipWidth := w, dipHeight := h));
    }

    method OnGeometryChanged()
      modifies this
      ensures State() == GeometryChanged(old(State()))
    {
      if !isTrackingChanges {
        return;
      }
      SyncModelFromWindow();
      changeNotifications := changeNotifications + 1;
    }

    /** The window is dragged to (`newLeft`, `newTop`); WPF raises LocationChanged. */
    method MoveTo(newLeft: real, newTop: real)
      modifies this
      ensures State() == Moved(old(State()), newLeft, newTop)
    {
      ghost var before := State();
      left, top := newLeft, newTop;
      assert State() == before.(left := newLeft, top := newTop);
      OnGeometryChanged();
    }

    /** The window is resized; WPF raises SizeChanged. */
    method ResizeTo(newWidth: real, newHeight: real, newActualWidth: real, newActualHeight: real)
      modifies this
      ensures State() == Resized(old(State()), newWidth, newHeight, newActualWidth, newActualHeight)
    {
      ghost var before := State();
      width, height, actualWidth, actualHeight := newWidth, newHeight, newActualWidth, newActualHeight;
      assert State() == before.(width := newWidth, height := newHeight, actualWidth := newActualWidth,
                                actualHeight := newActualHeight);
      OnGeometryChanged();
    }
  }
}
