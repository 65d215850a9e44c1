/**
 * The note manager: the list of open note windows, the global edit mode and the selected
 * note. It creates, duplicates and deletes notes, switches the mode of every window at once,
 * keeps at most one note selected, and places new notes so that they do not cover existing ones.
 *
 * The window list is a sequence of `NoteWindow` objects; each note's data is its window's
 * `model`. What the methods do to the windows is stated as pure maps over the windows' states.
 */
module NoteManagement {
  import opened Wrappers
  import opened Guids
  import opened Notes
  import opened NoteWindows

  // ---- Geometry ----

  /** A WPF `Rect`: the work area of the primary monitor. */
  datatype Rect = Rect(left: real, top: real, width: real, height: real) {
    function Right(): real { left + width }
    function Bottom(): real { top + height }
  }

  /** Offset of a duplicate, and of each step away from an overlapped note. */
  const Offset: real := 24.0
  /** Steps tried at most when a new note overlaps an existing one. */
  const MaxOverlapAttempts: nat := 10
  /** Two notes overlap when both coordinates are closer than this. */
  const OverlapTolerance: real := 10.0

  function Abs(x: real): (r: real)
    ensures r >= 0.0 && (r == x || r == -x)
  {
    if x < 0.0 then -x else x
  }

  function Max(a: real, b: real): (r: real)
    ensures r >= a && r >= b && (r == a || r == b)
  {
    if a >= b then a else b
  }

  function Min(a: real, b: real): (r: real)
    ensures r <= a && r <= b && (r == a || r == b)
  {
    if a <= b then a else b
  }

  /** ClampToWorkArea. */
  function Clamp(p: NotePlacement, workArea: Rect): NotePlacement {
    p.(dipX := Max(workArea.left, Min(p.dipX, workArea.Right() - p.dipWidth)),
       dipY := Max(workArea.top, Min(p.dipY, workArea.Bottom() - p.dipHeight)))
  }

  /**
   * Clamping moves only the position: the top-left corner ends inside the work area, the
   * right and bottom edges too when the note fits, and a coordinate already inside is kept.
   */
  lemma ClampBounds(p: NotePlacement, workArea: Rect)
    ensures var r := Clamp(p, workArea);
            r == p.(dipX := r.dipX, dipY := r.dipY)
            && r.dipX >= workArea.left && r.dipY >= workArea.top
            && r.dipX <= Max(workArea.left, workArea.Right() - p.dipWidth)
            && r.dipY <= Max(workArea.top, workArea.Bottom() - p.dipHeight)
            && (p.dipWidth <= workArea.width ==> r.dipX + r.dipWidth <= workArea.Right())
            && (p.dipHeight <= workArea.height ==> r.dipY + r.dipHeight <= workArea.Bottom())
            && (workArea.left <= p.dipX && p.dipX + p.dipWidth <= workArea.Right() ==> r.dipX == p.dipX)
            && (workArea.top <= p.dipY && p.dipY + p.dipHeight <= workArea.Bottom() ==> r.dipY == p.dipY)
  {
  }

  predicate Overlaps(existing: NotePlacement, p: NotePlacement) {
    Abs(existing.dipX - p.dipX) < OverlapTolerance && Abs(existing.dipY - p.dipY) < OverlapTolerance
  }

  predicate OverlapsAny(existing: seq<NotePlacement>, p: NotePlacement) {
    exists k :: 0 <= k < |existing| && Overlaps(existing[k], p)
  }

  /** One step away: 24 down and right, then clamped. */
  function Stepped(p: NotePlacement, workArea: Rect): NotePlacement {
    Clamp(p.(dipX := p.dipX + Offset, dipY := p.dipY + Offset), workArea)
  }

  /** ApplyOverlapOffset with `attempts` steps left. */
  function Shifted(existing: seq<NotePlacement>, p: NotePlacement, workArea: Rect, attempts: nat): NotePlacement
    decreases attempts
  {
    if attempts == 0 || !OverlapsAny(existing, p) then p
    else Shifted(existing, Stepped(p, workArea), workArea, attempts - 1)
  }

  /** The k-th candidate position: `p` stepped k times. */
  function Candidate(p: NotePlacement, workArea: Rect, k: nat): NotePlacement {
    if k == 0 then p else Stepped(Candidate(p, workArea, k - 1), workArea)
  }

  lemma {:induction false} CandidateAfterStep(p: NotePlacement, workArea: Rect, k: nat)
    ensures Candidate(Stepped(p, workArea), workArea, k) == Candidate(p, workArea, k + 1)
  {
    if k > 0 {
      CandidateAfterStep(p, workArea, k - 1);
    }
  }

  /** The candidates after one step are the original candidates from the second on. */
  lemma OverlapsAfterStep(existing: seq<NotePlacement>, p: NotePlacement, workArea: Rect, k: nat)
    requires forall j :: 0 <= j < k + 1 ==> OverlapsAny(existing, Candidate(p, workArea, j))
    ensures forall j :: 0 <= j < k ==> OverlapsAny(existing, Candidate(Stepped(p, workArea), workArea, j))
  {
    forall j | 0 <= j < k
      ensures OverlapsAny(existing, Candidate(Stepped(p, workArea), workArea, j))
    {
      CandidateAfterStep(p, workArea, j);
      assert OverlapsAny(existing, Candidate(p, workArea, j + 1));
    }
  }

  /**
   * The placement chosen for a new note is the first of the candidates p, p stepped once, ...,
   * p stepped `attempts` times that overlaps no existing note, or the last one when all overlap.
   */
  lemma {:induction false} ShiftedIsFirstFreeCandidate(existing: seq<NotePlacement>, p: NotePlacement,
                                                       workArea: Rect, attempts: nat, k: nat)
    requires k <= attempts
    requires forall j :: 0 <= j < k ==> OverlapsAny(existing, Candidate(p, workArea, j))
    requires k == attempts || !OverlapsAny(existing, Candidate(p, workArea, k))
    ensures Shifted(existing, p, workArea, attempts) == Candidate(p, workArea, k)
    decreases k
  {
    if k > 0 {
      assert Candidate(p, workArea, 0) == p;
      var q := Stepped(p, workArea);
      OverlapsAfterStep(existing, p, workArea, k - 1);
      CandidateAfterStep(p, workArea, k - 1);
      ShiftedIsFirstFreeCandidate(existing, q, workArea, attempts - 1, k - 1);
    }
  }

  /** A position that overlaps nothing is kept; a moved one lies inside the work area, and the size never changes. */
  lemma {:induction false} ShiftedBounds(existing: seq<NotePlacement>, p: NotePlacement, workArea: Rect, attempts: nat)
    ensures !OverlapsAny(existing, p) ==> Shifted(existing, p, workArea, attempts) == p
    ensures var r := Shifted(existing, p, workArea, attempts);
            r.dipWidth == p.dipWidth && r.dipHeight == p.dipHeight
            && (r != p ==> r.dipX >= workArea.left && r.dipY >= workArea.top)
            && (r != p && p.dipWidth <= workArea.width ==> r.dipX + r.dipWidth <= workArea.Right())
            && (r != p && p.dipHeight <= workArea.height ==> r.dipY + r.dipHeight <= workArea.Bottom())
    decreases attempts
  {
    if attempts > 0 && OverlapsAny(existing, p) {
      var q := Stepped(p, workArea);
      ShiftedBounds(existing, q, workArea, attempts - 1);
      var r := Shifted(existing, q, workArea, attempts - 1);
      ClampBounds(p.(dipX := p.dipX + Offset, dipY := p.dipY + Offset), workArea);
      if r == q {
        assert q.dipX >= workArea.left && q.dipY >= workArea.top;
      }
    }
  }

  /** The centre of the work area for a note of the default size (CreateNote's first choice). */
  function Centered(workArea: Rect): (p: NotePlacement)
    ensures p.dipWidth == DefaultPlacement.dipWidth && p.dipHeight == DefaultPlacement.dipHeight
    ensures p.dipX - workArea.left == workArea.Right() - (p.dipX + p.dipWidth)
    ensures p.dipY - workArea.top == workArea.Bottom() - (p.dipY + p.dipHeight)
  {
    DefaultPlacement.(dipX := workArea.left + (workArea.width - DefaultPlacement.dipWidth) / 2.0,
                      dipY := workArea.top + (workArea.height - DefaultPlacement.dipHeight) / 2.0)
  }

  /** The note CreateNote makes. */
  function CreatedModel(newId: Guid, existing: seq<NotePlacement>, workArea: Rect): NoteModel {
    NewNoteModel(newId).(placement := Shifted(existing, Centered(workArea), workArea, MaxOverlapAttempts))
  }

  /** The note DuplicateNote makes from `source`: same size and style, 24 down and right, clamped. */
  function DuplicatedModel(source: NoteModel, newId: Guid, workArea: Rect): NoteModel {
    var blank := NewNoteModel(newId);
    var placement := blank.placement.(dipWidth := source.placement.dipWidth, dipHeight := source.placement.dipHeight,
                                      dipX := source.placement.dipX + Offset, dipY := source.placement.dipY + Offset);
    var style := NoteStyle(source.style.bgPaletteCategoryId, source.style.bgColorId, source.style.opacity0to100,
                           source.style.textColor, source.style.fontFamilyName, blank.style.verticalTextAlignment);
    blank.(placement := Clamp(placement, workArea), style := style)
  }

  /** A duplicate has a new id, the source's size and colours and font, and sits 24 down and right when that fits. */
  lemma DuplicateCopiesSource(source: NoteModel, newId: Guid, workArea: Rect)
    ensures var d := DuplicatedModel(source, newId, workArea);
            d.noteId == newId && d.desktopId == EmptyGuid && d.firstLinePreview == []
            && d.placement.dipWidth == source.placement.dipWidth && d.placement.dipHeight == source.placement.dipHeight
            && d.style.bgPaletteCategoryId == source.style.bgPaletteCategoryId
            && d.style.bgColorId == source.style.bgColorId
            && d.style.opacity0to100 == source.style.opacity0to100
            && d.style.textColor == source.style.textColor
            && d.style.fontFamilyName == source.style.fontFamilyName
            && d.style.verticalTextAlignment == DefaultStyle.verticalTextAlignment
            && d.placement.dipX >= workArea.left && d.placement.dipY >= workArea.top
            && (workArea.left <= source.placement.dipX + Offset
                && source.placement.dipX + Offset + source.placement.dipWidth <= workArea.Right()
                ==> d.placement.dipX == source.placement.dipX + Offset)
            && (workArea.top <= source.placement.dipY + Offset
                && source.placement.dipY + Offset + source.placement.dipHeight <= workArea.Bottom()
                ==> d.placement.dipY == source.placement.dipY + Offset)
  {
    var d := DuplicatedModel(source, newId, workArea);
    ClampBounds(d.placement.(dipX := source.placement.dipX + Offset, dipY := source.placement.dipY + Offset), workArea);
  }

  // ---- The window list as states ----

  /** The state of a window the manager has just made and shown. */
  function AddedWindow(model: NoteModel, editMode: bool, markup: Visuals, osExStyle: bv32): WindowState {
    Showed(Constructed(model, !editMode, markup), osExStyle)
  }

  predicate DistinctIds(ss: seq<WindowState>) {
    forall i, j :: 0 <= i < |ss| && 0 <= j < |ss| && i != j ==> IdsOf(ss)[i] != IdsOf(ss)[j]
  }

  /** Exactly the window whose note is the selected one shows as selected. */
  predicate SelectionExact(ss: seq<WindowState>, selected: Option<Guid>) {
    forall i :: 0 <= i < |ss| ==> (ss[i].isSelected <==> selected == Some(ss[i].model.noteId))
  }

  predicate AllShown(ss: seq<WindowState>) {
    forall i :: 0 <= i < |ss| ==> ss[i].lifecycle == Shown
  }

  /** Every window follows the manager's mode: editable and hit-testable in edit mode, click-through otherwise. */
  predicate ModeAgreement(ss: seq<WindowState>, editMode: bool) {
    forall i :: 0 <= i < |ss| ==> ss[i].isInEditMode == editMode && ss[i].isClickThrough == !editMode
  }

  predicate Consistent(ss: seq<WindowState>, selected: Option<Guid>) {
    DistinctIds(ss) && SelectionExact(ss, selected) && AllShown(ss)
  }

  function IdsOf(ss: seq<WindowState>): seq<Guid> {
    seq(|ss|, i requires 0 <= i < |ss| => ss[i].model.noteId)
  }

  /** `_notes.FindIndex(n => n.Model.NoteId == id)`. */
  function IndexOf(ss: seq<WindowState>, id: Guid): (r: int)
    ensures -1 <= r < |ss|
    ensures r >= 0 ==> ss[r].model.noteId == id && forall k :: 0 <= k < r ==> ss[k].model.noteId != id
    ensures r < 0 ==> forall k :: 0 <= k < |ss| ==> ss[k].model.noteId != id
  {
    if ss == [] then -1
    else if ss[0].model.noteId == id then 0
    else
      var r := IndexOf(ss[1..], id);
      if r < 0 then -1 else r + 1
  }

  /** Each window made click-through or not, then put in or out of edit mode (SetEditMode's loop). */
  function ModeApplied(ss: seq<WindowState>, editMode: bool): (r: seq<WindowState>)
    ensures |r| == |ss|
  {
    seq(|ss|, i requires 0 <= i < |ss| => EditModeSet(ClickThroughSet(ss[i], !editMode), editMode))
  }

  /** Each window selected exactly when it shows `id` (SelectNote's loop). */
  function SelectedOnly(ss: seq<WindowState>, id: Guid): (r: seq<WindowState>)
    ensures |r| == |ss|
  {
    seq(|ss|, i requires 0 <= i < |ss| => SelectedSet(ss[i], ss[i].model.noteId == id))
  }

  /** Every window unselected (DeselectAll's loop). */
  function NoneSelected(ss: seq<WindowState>): (r: seq<WindowState>)
    ensures |r| == |ss|
  {
    seq(|ss|, i requires 0 <= i < |ss| => SelectedSet(ss[i], false))
  }

  /** SetEditMode on the states: the mode applied, and the selection cleared when leaving edit mode. */
  function EditModeSwitched(ss: seq<WindowState>, editMode: bool): seq<WindowState> {
    if editMode then ModeApplied(ss, editMode) else NoneSelected(ModeApplied(ss, editMode))
  }

  /** SelectNote on the states, including its early exit when the note is already selected. */
  function NoteSelected(ss: seq<WindowState>, selected: Option<Guid>, id: Guid): seq<WindowState> {
    if selected == Some(id) then ss else SelectedOnly(ss, id)
  }

  // ---- Properties of the maps ----

  /** Applying the mode to one window sets its two mode flags and keeps its note, selection and lifecycle. */
  lemma ModeEntry(s: WindowState, editMode: bool)
    ensures var t := EditModeSet(ClickThroughSet(s, !editMode), editMode);
            t.isInEditMode == editMode && t.isClickThrough == !editMode
            && t.model == s.model && t.isSelected == s.isSelected && t.lifecycle == s.lifecycle
  {
  }

  /** Selecting or unselecting one window sets its selection and keeps its note, mode flags and lifecycle. */
  lemma SelectionEntry(s: WindowState, selected: bool)
    ensures var t := SelectedSet(s, selected);
            t.isSelected == selected && t.model == s.model && t.lifecycle == s.lifecycle
            && t.isInEditMode == s.isInEditMode && t.isClickThrough == s.isClickThrough
  {
  }

  /** Applying the mode makes every window agree with it and keeps the invariants. */
  lemma ModeAppliedKeepsConsistent(ss: seq<WindowState>, selected: Option<Guid>, editMode: bool)
    requires Consistent(ss, selected)
    ensures Consistent(ModeApplied(ss, editMode), selected) && ModeAgreement(ModeApplied(ss, editMode), editMode)
  {
    var t := ModeApplied(ss, editMode);
    forall i | 0 <= i < |ss|
      ensures t[i].isInEditMode == editMode && t[i].isClickThrough == !editMode
      ensures t[i].model == ss[i].model && t[i].isSelected == ss[i].isSelected && t[i].lifecycle == ss[i].lifecycle
    {
      ModeEntry(ss[i], editMode);
    }
    assert IdsOf(t) == IdsOf(ss);
  }

  /** After DeselectAll no window is selected; the mode flags are kept. */
  lemma DeselectKeepsConsistent(ss: seq<WindowState>)
    requires DistinctIds(ss) && AllShown(ss)
    ensures Consistent(NoneSelected(ss), None)
    ensures forall i :: 0 <= i < |ss| ==> !NoneSelected(ss)[i].isSelected
    ensures forall e :: ModeAgreement(ss, e) ==> ModeAgreement(NoneSelected(ss), e)
  {
    var t := NoneSelected(ss);
    forall i | 0 <= i < |ss|
      ensures !t[i].isSelected && t[i].model == ss[i].model && t[i].lifecycle == ss[i].lifecycle
      ensures t[i].isInEditMode == ss[i].isInEditMode && t[i].isClickThrough == ss[i].isClickThrough
    {
      SelectionEntry(ss[i], false);
    }
    assert IdsOf(t) == IdsOf(ss);
  }

  /** Switching the mode makes every window agree with it and keeps the manager's invariants. */
  lemma EditModeSwitchAgrees(ss: seq<WindowState>, selected: Option<Guid>, editMode: bool)
    requires Consistent(ss, selected)
    ensures ModeAgreement(EditModeSwitched(ss, editMode), editMode)
    ensures Consistent(EditModeSwitched(ss, editMode), if editMode then selected else None)
  {
    ModeAppliedKeepsConsistent(ss, selected, editMode);
    if !editMode {
      DeselectKeepsConsistent(ModeApplied(ss, editMode));
    }
  }

  /** SelectNote's loop selects exactly the windows showing `id` and keeps notes, mode flags and lifecycles. */
  lemma SelectedOnlyEntries(ss: seq<WindowState>, id: Guid)
    ensures var t := SelectedOnly(ss, id);
            forall i :: 0 <= i < |ss| ==>
              (t[i].isSelected <==> ss[i].model.noteId == id) && t[i].model == ss[i].model
              && t[i].lifecycle == ss[i].lifecycle
              && t[i].isInEditMode == ss[i].isInEditMode && t[i].isClickThrough == ss[i].isClickThrough
  {
    var t := SelectedOnly(ss, id);
    forall i | 0 <= i < |ss|
      ensures (t[i].isSelected <==> ss[i].model.noteId == id) && t[i].model == ss[i].model
      ensures t[i].lifecycle == ss[i].lifecycle
      ensures t[i].isInEditMode == ss[i].isInEditMode && t[i].isClickThrough == ss[i].isClickThrough
    {
      SelectionEntry(ss[i], ss[i].model.noteId == id);
    }
  }

  /** After SelectNote(id) exactly the window showing `id` is selected. */
  lemma SelectKeepsConsistent(ss: seq<WindowState>, selected: Option<Guid>, id: Guid)
    requires Consistent(ss, selected)
    ensures Consistent(NoteSelected(ss, selected, id), Some(id))
  {
    SelectedOnlyEntries(ss, id);
    assert IdsOf(NoteSelected(ss, selected, id)) == IdsOf(ss);
  }

  /** Selecting never changes a window's mode flags. */
  lemma SelectKeepsMode(ss: seq<WindowState>, id: Guid, editMode: bool)
    requires ModeAgreement(ss, editMode)
    ensures ModeAgreement(SelectedOnly(ss, id), editMode)
  {
    SelectedOnlyEntries(ss, id);
  }

  /** Under the invariants, at most one window is selected. */
  lemma AtMostOneSelected(ss: seq<WindowState>, selected: Option<Guid>, i: nat, j: nat)
    requires Consistent(ss, selected)
    requires i < |ss| && j < |ss| && ss[i].isSelected && ss[j].isSelected
    ensures i == j
  {
    assert IdsOf(ss)[i] == IdsOf(ss)[j];
  }

  /** Removing a window, and forgetting the selection when it was the selected one, keeps the invariants. */
  lemma RemoveKeepsConsistent(ss: seq<WindowState>, selected: Option<Guid>, i: nat)
    requires Consistent(ss, selected) && i < |ss|
    ensures var id := ss[i].model.noteId;
            Consistent(ss[..i] + ss[i + 1..], if selected == Some(id) then None else selected)
    ensures forall e :: ModeAgreement(ss, e) ==> ModeAgreement(ss[..i] + ss[i + 1..], e)
  {
    var rest := ss[..i] + ss[i + 1..];
    assert forall k :: 0 <= k < |rest| ==> rest[k] == ss[if k < i then k else k + 1];
    assert forall k :: 0 <= k < |rest| ==> IdsOf(rest)[k] == IdsOf(ss)[if k < i then k else k + 1];
    assert forall k :: 0 <= k < |ss| ==> IdsOf(ss)[k] == ss[k].model.noteId;
  }

  /** Appending an unselected, shown window with a new id keeps the invariants. */
  lemma AppendKeepsConsistent(ss: seq<WindowState>, selected: Option<Guid>, w: WindowState)
    requires Consistent(ss, selected)
    requires forall k :: 0 <= k < |ss| ==> ss[k].model.noteId != w.model.noteId
    requires selected != Some(w.model.noteId) && !w.isSelected && w.lifecycle == Shown
    ensures Consistent(ss + [w], selected)
  {
    var t := ss + [w];
    assert forall k :: 0 <= k < |ss| ==> t[k] == ss[k];
    assert IdsOf(t) == IdsOf(ss) + [w.model.noteId];
  }

  /** A window the manager adds is shown, unselected, click-through exactly out of edit mode, and out of edit mode. */
  lemma AddedWindowState(model: NoteModel, editMode: bool, markup: Visuals, osExStyle: bv32)
    ensures var w := AddedWindow(model, editMode, markup, osExStyle);
            w.lifecycle == Shown && !w.isSelected && w.model == model
            && w.isClickThrough == !editMode && !w.isInEditMode
  {
  }

  /**
   * As written, a note created in edit mode does not follow the mode: it stops being click-through
   * but stays out of edit mode, so clicking it never selects it (OnActivated reports nothing).
   */
  lemma CreatedInEditModeDisagrees(ss: seq<WindowState>, model: NoteModel, markup: Visuals, osExStyle: bv32)
    ensures var w := AddedWindow(model, true, markup, osExStyle);
            !ModeAgreement(ss + [w], true) && !w.isInEditMode && !w.isClickThrough
  {
    var w := AddedWindow(model, true, markup, osExStyle);
    assert (ss + [w])[|ss|] == w;
  }

  /** As written, a duplicate made in edit mode is selected yet shows no toolbar and cannot be edited. */
  lemma DuplicatedInEditModeHidesToolbar(ss: seq<WindowState>, model: NoteModel, markup: Visuals, osExStyle: bv32)
    ensures var t := SelectedOnly(ss + [AddedWindow(model, true, markup, osExStyle)], model.noteId);
            var w := t[|ss|];
            w.isSelected && !w.visuals.toolbarVisible && w.visuals.textReadOnly && !w.visuals.textHitTestVisible
  {
  }

  /** The intended window: shown and then put in the manager's mode, as the window's constructor expects. */
  function SyncedWindow(model: NoteModel, editMode: bool, markup: Visuals, osExStyle: bv32): WindowState {
    EditModeSet(AddedWindow(model, editMode, markup, osExStyle), editMode)
  }

  /** With the mode applied after showing, adding a note keeps every window in agreement with the mode. */
  lemma SyncedWindowAgrees(ss: seq<WindowState>, model: NoteModel, editMode: bool, markup: Visuals, osExStyle: bv32)
    requires ModeAgreement(ss, editMode)
    ensures var w := SyncedWindow(model, editMode, markup, osExStyle);
            ModeAgreement(ss + [w], editMode) && !w.isSelected && w.lifecycle == Shown && w.model == model
  {
    var t := ss + [SyncedWindow(model, editMode, markup, osExStyle)];
    assert forall k :: 0 <= k < |ss| ==> t[k] == ss[k];
  }

  /** With the mode applied, duplicating keeps every window in agreement with the mode, selected or not. */
  lemma SyncedDuplicateAgrees(ss: seq<WindowState>, model: NoteModel, editMode: bool, markup: Visuals, osExStyle: bv32)
    requires ModeAgreement(ss, editMode)
    ensures var added := ss + [SyncedWindow(model, editMode, markup, osExStyle)];
            ModeAgreement(if editMode then SelectedOnly(added, model.noteId) else added, editMode)
  {
    var added := ss + [SyncedWindow(model, editMode, markup, osExStyle)];
    SyncedWindowAgrees(ss, model, editMode, markup, osExStyle);
    SelectKeepsMode(added, model.noteId, editMode);
  }

  /** With the mode applied, a duplicate selected in edit mode shows its toolbar and can be edited. */
  lemma SyncedDuplicateShowsToolbar(ss: seq<WindowState>, model: NoteModel, markup: Visuals, osExStyle: bv32)
    ensures var t := SelectedOnly(ss + [SyncedWindow(model, true, markup, osExStyle)], model.noteId);
            var w := t[|ss|];
            w.isSelected && w.visuals.toolbarVisible && !w.visuals.textReadOnly && w.visuals.textHitTestVisible
            && VisualRulesHold(w)
  {
  }

  // ---- The manager ----

  /** The states of the windows `ws`, in order. */
  function StatesOf(ws: seq<NoteWindow>): (r: seq<WindowState>)
    reads ws
    ensures |r| == |ws|
  {
    seq(|ws|, i requires 0 <= i < |ws| reads ws => ws[i].State())
  }

  function ModelsIn(ss: seq<WindowState>): (r: seq<NoteModel>)
    ensures |r| == |ss|
  {
    seq(|ss|, i requires 0 <= i < |ss| => ss[i].model)
  }

  function PlacementsIn(ss: seq<WindowState>): (r: seq<NotePlacement>)
    ensures |r| == |ss|
  {
    seq(|ss|, i requires 0 <= i < |ss| => ss[i].model.placement)
  }

  predicate DistinctWindows(ws: seq<NoteWindow>) {
    forall i, j :: 0 <= i < |ws| && 0 <= j < |ws| && i != j ==> ws[i] != ws[j]
  }

  /** ApplyOverlapOffset: step the new note away from the existing notes, at most ten times. */
  method ApplyOverlapOffset(existing: seq<NotePlacement>, p: NotePlacement, workArea: Rect) returns (r: NotePlacement)
    ensures r == Shifted(existing, p, workArea, MaxOverlapAttempts)
  {
    r := p;
    var attempt := 0;
    while attempt < MaxOverlapAttempts
      invariant 0 <= attempt <= MaxOverlapAttempts
      invariant Shifted(existing, r, workArea, MaxOverlapAttempts - attempt)
                == Shifted(existing, p, workArea, MaxOverlapAttempts)
    {
      var overlaps := false;
      var k := 0;
      while k < |existing|
        invariant 0 <= k <= |existing|
        invariant !overlaps ==> forall j :: 0 <= j < k ==> !Overlaps(existing[j], r)
        invariant overlaps ==> OverlapsAny(existing, r)
      {
        if Abs(existing[k].dipX - r.dipX) < OverlapTolerance && Abs(existing[k].dipY - r.dipY) < OverlapTolerance {
          overlaps := true;
          break;
        }
        k := k + 1;
      }
      if !overlaps {
        break;
      }
      r := r.(dipX := r.dipX + Offset, dipY := r.dipY + Offset);
      r := Clamp(r, workArea);
      attempt := attempt + 1;
    }
  }

  /** SetEditMode's loop over the windows. */
  method ApplyModeToEach(ws: seq<NoteWindow>, editMode: bool)
    requires DistinctWindows(ws)
    modifies ws
    ensures StatesOf(ws) == ModeApplied(old(StatesOf(ws)), editMode)
  {
    ghost var before := StatesOf(ws);
    var clickThrough := !editMode;
    var i := 0;
    while i < |ws|
      invariant 0 <= i <= |ws|
      invariant forall k :: 0 <= k < i ==> ws[k].State() == EditModeSet(ClickThroughSet(before[k], !editMode), editMode)
      invariant forall k :: i <= k < |ws| ==> ws[k].State() == before[k]
    {
      ws[i].SetClickThrough(clickThrough);
      ws[i].SetInEditMode(editMode);
      i := i + 1;
    }
    assert StatesOf(ws) == ModeApplied(before, editMode);
  }

  /** SelectNote's loop over the windows. */
  method SelectEach(ws: seq<NoteWindow>, id: Guid)
    requires DistinctWindows(ws)
    modifies ws
    ensures StatesOf(ws) == SelectedOnly(old(StatesOf(ws)), id)
  {
    ghost var before := StatesOf(ws);
    var i := 0;
    while i < |ws|
      invariant 0 <= i <= |ws|
      invariant forall k :: 0 <= k < i ==> ws[k].State() == SelectedSet(before[k], before[k].model.noteId == id)
      invariant forall k :: i <= k < |ws| ==> ws[k].State() == before[k]
    {
      ws[i].SetSelected(ws[i].model.noteId == id);
      i := i + 1;
    }
    assert StatesOf(ws) == SelectedOnly(before, id);
  }

  /** DeselectAll's loop over the windows. */
  method DeselectEach(ws: seq<NoteWindow>)
    requires DistinctWindows(ws)
    modifies ws
    ensures StatesOf(ws) == NoneSelected(old(StatesOf(ws)))
  {
    ghost var before := StatesOf(ws);
    var i := 0;
    while i < |ws|
      invariant 0 <= i <= |ws|
      invariant forall k :: 0 <= k < i ==> ws[k].State() == SelectedSet(before[k], false)
      invariant forall k :: i <= k < |ws| ==> ws[k].State() == before[k]
    {
      ws[i].SetSelected(false);
      i := i + 1;
    }
    assert StatesOf(ws) == NoneSelected(before);
  }

  /** CloseAllWindows' loop over the windows. */
  method CloseEach(ws: seq<NoteWindow>)
    requires DistinctWindows(ws)
    modifies ws
    ensures forall k :: 0 <= k < |ws| ==> ws[k].State() == Closing(old(ws[k].State()))
  {
    var i := 0;
    while i < |ws|
      invariant 0 <= i <= |ws|
      invariant forall k :: 0 <= k < i ==> ws[k].State() == Closing(old(ws[k].State()))
      invariant forall k :: i <= k < |ws| ==> ws[k].State() == old(ws[k].State())
    {
      ws[i].Close();
      i := i + 1;
    }
  }

  /** The first window showing `id`, or -1. */
  method FindIndex(ws: seq<NoteWindow>, id: Guid) returns (index: int)
    ensures index == IndexOf(StatesOf(ws), id)
  {
    var i := 0;
    while i < |ws|
      invariant 0 <= i <= |ws|
      invariant forall k :: 0 <= k < i ==> ws[k].model.noteId != id
    {
      if ws[i].model.noteId == id {
        IndexOfFirst(StatesOf(ws), id, i);
        return i;
      }
      i := i + 1;
    }
    IndexOfFirst(StatesOf(ws), id, -1);
    return -1;
  }

  /** `new NoteWindow(model, !editMode)` then `Show()`; `synced` then also applies the mode. */
  method MakeWindow(model: NoteModel, editMode: bool, markup: Visuals, osExStyle: bv32, synced: bool)
    returns (window: NoteWindow)
    ensures fresh(window)
    ensures window.State() == if synced then SyncedWindow(model, editMode, markup, osExStyle)
                              else AddedWindow(model, editMode, markup, osExStyle)
    ensures !window.State().isSelected && window.State().lifecycle == Shown && window.State().model == model
  {
    var clickThrough := !editMode;
    window := new NoteWindow(model, clickThrough, markup);
    window.Show(osExStyle);
    if synced {
      window.SetInEditMode(editMode);
    }
  }

  class NoteManager {
    var windows: seq<NoteWindow>
    var isEditMode: bool
    var selectedNoteId: Option<Guid>
    /** The visual state a note window's markup declares. */
    const windowMarkup: Visuals

    /** `Notes`: the managed notes, in creation order. */
    function Notes(): (r: seq<NoteModel>)
      reads this, windows
      ensures |r| == |windows| && forall i :: 0 <= i < |r| ==> r[i] == windows[i].model
    {
      ModelsIn(StatesOf(windows))
    }

    predicate Valid()
      reads this, windows
    {
      DistinctWindows(windows) && Consistent(StatesOf(windows), selectedNoteId)
    }

    /** `id` is what Guid.NewGuid() draws: no note and no selection has it. */
    predicate IsNewId(id: Guid)
      reads this, windows
    {
      (forall k :: 0 <= k < |windows| ==> windows[k].model.noteId != id) && selectedNoteId != Some(id)
    }

    constructor(markup: Visuals)
      ensures windows == [] && !isEditMode && selectedNoteId == None && windowMarkup == markup
      ensures Valid()
    {
      windows := [];
      isEditMode := false;
      selectedNoteId := None;
      windowMarkup := markup;
    }

    method SetEditMode(editMode: bool)
      requires Valid()
      modifies this, windows
      ensures Valid() && ModeAgreement(StatesOf(windows), editMode)
      ensures windows == old(windows) && isEditMode == editMode
      ensures StatesOf(windows) == EditModeSwitched(old(StatesOf(windows)), editMode)
      ensures selectedNoteId == if editMode then old(selectedNoteId) else None
    {
      ghost var before := StatesOf(windows);
      isEditMode := editMode;
      ApplyModeToEach(windows, editMode);
      ModeAppliedKeepsConsistent(before, selectedNoteId, editMode);
      if !editMode {
        DeselectAll();
        DeselectKeepsConsistent(ModeApplied(before, editMode));
      }
    }

    method SelectNote(id: Guid)
      requires Valid()
      modifies this, windows
      ensures Valid() && windows == old(windows) && isEditMode == old(isEditMode)
      ensures StatesOf(windows) == NoteSelected(old(StatesOf(windows)), old(selectedNoteId), id)
      ensures selectedNoteId == Some(id)
    {
      if selectedNoteId == Some(id) {
        return;
      }
      ghost var before := StatesOf(windows);
      SelectEach(windows, id);
      SelectKeepsConsistent(before, selectedNoteId, id);
      selectedNoteId := Some(id);
    }

    method DeselectAll()
      requires DistinctWindows(windows) && DistinctIds(StatesOf(windows)) && AllShown(StatesOf(windows))
      modifies this, windows
      ensures Valid() && windows == old(windows) && isEditMode == old(isEditMode)
      ensures StatesOf(windows) == NoneSelected(old(StatesOf(windows))) && selectedNoteId == None
    {
      ghost var before := StatesOf(windows);
      DeselectEach(windows);
      DeselectKeepsConsistent(before);
      selectedNoteId := None;
    }

    /** Appends the window of `model`, made and shown by MakeWindow. */
    method AddWindow(model: NoteModel, osExStyle: bv32, synced: bool) returns (window: NoteWindow)
      requires Valid() && IsNewId(model.noteId)
      modifies this
      ensures Valid() && fresh(window) && windows == old(windows) + [window]
      ensures StatesOf(windows) == old(StatesOf(windows)) + [
                if synced then SyncedWindow(model, isEditMode, windowMarkup, osExStyle)
                else AddedWindow(model, isEditMode, windowMarkup, osExStyle)]
      ensures isEditMode == old(isEditMode) && selectedNoteId == old(selectedNoteId)
    {
      window := MakeWindow(model, isEditMode, windowMarkup, osExStyle, synced);
      ghost var before := StatesOf(windows);
      windows := windows + [window];
      assert StatesOf(windows) == before + [window.State()];
      AppendKeepsConsistent(before, selectedNoteId, window.State());
    }

    /** CreateNote; `newId` is the note's new identifier and `osExStyle` the style its native window gets. */
    method CreateNote(newId: Guid, workArea: Rect, osExStyle: bv32) returns (window: NoteWindow)
      requires Valid() && IsNewId(newId)
      modifies this
      ensures Valid() && fresh(window) && windows == old(windows) + [window]
      ensures StatesOf(windows) == old(StatesOf(windows)) + [
                AddedWindow(CreatedModel(newId, PlacementsIn(old(StatesOf(windows))), workArea),
                            isEditMode, windowMarkup, osExStyle)]
      ensures isEditMode == old(isEditMode) && selectedNoteId == old(selectedNoteId)
    {
      var model := NewNoteModel(newId);
      var placement := model.placement.(
        dipX := workArea.left + (workArea.width - model.placement.dipWidth) / 2.0,
        dipY := workArea.top + (workArea.height - model.placement.dipHeight) / 2.0);
      placement := ApplyOverlapOffset(PlacementsIn(StatesOf(windows)), placement, workArea);
      model := model.(placement := placement);
      window := AddWindow(model, osExStyle, false);
    }

    /** CreateNote with the new window put in the manager's mode after it is shown. */
    method CreateNoteSynced(newId: Guid, workArea: Rect, osExStyle: bv32) returns (window: NoteWindow)
      requires Valid() && IsNewId(newId)
      modifies this
      ensures Valid() && fresh(window) && windows == old(windows) + [window]
      ensures StatesOf(windows) == old(StatesOf(windows)) + [
                SyncedWindow(CreatedModel(newId, PlacementsIn(old(StatesOf(windows))), workArea),
                             isEditMode, windowMarkup, osExStyle)]
      ensures isEditMode == old(isEditMode) && selectedNoteId == old(selectedNoteId)
    {
      var model := NewNoteModel(newId);
      var placement := model.placement.(
        dipX := workArea.left + (workArea.width - model.placement.dipWidth) / 2.0,
        dipY := workArea.top + (workArea.height - model.placement.dipHeight) / 2.0);
      placement := ApplyOverlapOffset(PlacementsIn(StatesOf(windows)), placement, workArea);
      model := model.(placement := placement);
      window := AddWindow(model, osExStyle, true);
    }

    /** DuplicateNote; None when no note has `sourceId`. */
    method DuplicateNote(sourceId: Guid, newId: Guid, workArea: Rect, osExStyle: bv32)
      returns (window: Option<NoteWindow>)
      requires Valid() && IsNewId(newId)
      modifies this, windows
      ensures Valid() && isEditMode == old(isEditMode)
      ensures var i := IndexOf(old(StatesOf(windows)), sourceId);
              if i < 0 then
                window == None && windows == old(windows) && StatesOf(windows) == old(StatesOf(windows))
                && selectedNoteId == old(selectedNoteId)
              else
                var added := old(StatesOf(windows)) + [
                  AddedWindow(DuplicatedModel(old(StatesOf(windows))[i].model, newId, workArea),
                              isEditMode, windowMarkup, osExStyle)];
                window.Some? && fresh(window.value) && windows == old(windows) + [window.value]
                && StatesOf(windows) == (if isEditMode then SelectedOnly(added, newId) else added)
                && selectedNoteId == (if isEditMode then Some(newId) else old(selectedNoteId))
    {
      var sourceIndex := FindIndex(windows, sourceId);
      if sourceIndex < 0 {
        return None;
      }
      var model := DuplicatedModel(windows[sourceIndex].model, newId, workArea);
      var w := AddWindow(model, osExStyle, false);
      if isEditMode {
        SelectNote(newId);
      }
      window := Some(w);
    }

    /** DuplicateNote with the new window put in the manager's mode before it is selected. */
    method DuplicateNoteSynced(sourceId: Guid, newId: Guid, workArea: Rect, osExStyle: bv32)
      returns (window: Option<NoteWindow>)
      requires Valid() && IsNewId(newId)
      modifies this, windows
      ensures Valid() && isEditMode == old(isEditMode)
      ensures var i := IndexOf(old(StatesOf(windows)), sourceId);
              if i < 0 then
                window == None && windows == old(windows) && StatesOf(windows) == old(StatesOf(windows))
                && selectedNoteId == old(selectedNoteId)
              else
                var added := old(StatesOf(windows)) + [
                  SyncedWindow(DuplicatedModel(old(StatesOf(windows))[i].model, newId, workArea),
                               isEditMode, windowMarkup, osExStyle)];
                window.Some? && fresh(window.value) && windows == old(windows) + [window.value]
                && StatesOf(windows) == (if isEditMode then SelectedOnly(added, newId) else added)
                && selectedNoteId == (if isEditMode then Some(newId) else old(selectedNoteId))
    {
      var sourceIndex := FindIndex(windows, sourceId);
      if sourceIndex < 0 {
        return None;
      }
      var model := DuplicatedModel(windows[sourceIndex].model, newId, workArea);
      var w := AddWindow(model, osExStyle, true);
      if isEditMode {
        SelectNote(newId);
      }
      window := Some(w);
    }

    /** DeleteNote: close and forget the note's window; false when no note has `id`. */
    method DeleteNote(id: Guid) returns (deleted: bool)
      requires Valid()
      modifies this, windows
      ensures Valid() && isEditMode == old(isEditMode)
      ensures deleted <==> IndexOf(old(StatesOf(windows)), id) >= 0
      ensures !deleted ==> windows == old(windows) && StatesOf(windows) == old(StatesOf(windows))
                           && selectedNoteId == old(selectedNoteId)
      ensures deleted ==>
                var i := IndexOf(old(StatesOf(windows)), id);
                windows == old(windows[..i] + windows[i + 1..])
                && StatesOf(windows) == old(StatesOf(windows)[..i] + StatesOf(windows)[i + 1..])
                && old(windows[i]).State() == Closing(old(windows[i].State()))
                && selectedNoteId == (if old(selectedNoteId) == Some(id) then None else old(selectedNoteId))
    {
      var index := FindIndex(windows, id);
      if index < 0 {
        return false;
      }
      windows, selectedNoteId := RemoveNote(windows, selectedNoteId, index);
      return true;
    }

    /** CloseAllWindows: every window closed, the list emptied, nothing selected. */
    method CloseAllWindows()
      requires DistinctWindows(windows)
      modifies this, windows
      ensures windows == [] && selectedNoteId == None && Valid()
      ensures isEditMode == old(isEditMode)
      ensures forall k :: 0 <= k < |old(windows)| ==> old(windows)[k].State() == Closing(old(windows[k].State()))
    {
      CloseEach(windows);
      windows := [];
      selectedNoteId := None;
    }

    /** A click activates window `i`; in edit mode it reports itself and the manager selects it (OnNoteActivated). */
    method ActivateWindow(i: nat)
      requires Valid() && i < |windows|
      modifies this, windows
      ensures Valid() && windows == old(windows) && isEditMode == old(isEditMode)
      ensures old(windows[i].isInEditMode) ==>
                StatesOf(windows) == NoteSelected(old(StatesOf(windows)), old(selectedNoteId), old(windows[i].model.noteId))
                && selectedNoteId == Some(old(windows[i].model.noteId))
      ensures !old(windows[i].isInEditMode) ==>
                StatesOf(windows) == old(StatesOf(windows)) && selectedNoteId == old(selectedNoteId)
    {
      var activated := windows[i].OnActivated();
      if activated {
        SelectNote(windows[i].model.noteId);
      }
    }
  }

  /**
   * DeleteNote once the note is found at `i`: `_notes.RemoveAt(i)`, the removed window closed, and
   * the selection forgotten when it was that note.
   */
  method RemoveNote(ws: seq<NoteWindow>, selected: Option<Guid>, i: nat) returns (rest: seq<NoteWindow>, sel: Option<Guid>)
    requires DistinctWindows(ws) && Consistent(StatesOf(ws), selected) && i < |ws|
    modifies ws[i]
    ensures DistinctWindows(rest) && Consistent(StatesOf(rest), sel)
    ensures rest == ws[..i] + ws[i + 1..]
    ensures StatesOf(rest) == old(StatesOf(ws)[..i] + StatesOf(ws)[i + 1..])
    ensures ws[i].State() == Closing(old(ws[i].State()))
    ensures sel == if selected == Some(old(ws[i].model.noteId)) then None else selected
  {
    ghost var before := StatesOf(ws);
    var id := ws[i].model.noteId;
    StatesOfRemoved(ws, i);
    RemoveKeepsConsistent(before, selected, i);
    rest := ws[..i] + ws[i + 1..];
    ws[i].Close();
    sel := selected;
    if sel == Some(id) {
      sel := None;
    }
  }

  /** The states of a window list with one window removed, which no longer appears in it. */
  lemma StatesOfRemoved(ws: seq<NoteWindow>, i: nat)
    requires DistinctWindows(ws) && i < |ws|
    ensures StatesOf(ws[..i] + ws[i + 1..]) == StatesOf(ws)[..i] + StatesOf(ws)[i + 1..]
    ensures ws[i] !in ws[..i] + ws[i + 1..] && DistinctWindows(ws[..i] + ws[i + 1..])
  {
    var rest := ws[..i] + ws[i + 1..];
    assert forall k :: 0 <= k < |rest| ==> rest[k] == ws[if k < i then k else k + 1];
  }

  /** Pins IndexOf at a known first position `i` (or at -1 when there is none). */
  lemma {:induction false} IndexOfFirst(ss: seq<WindowState>, id: Guid, i: int)
    requires -1 <= i < |ss|
    requires i >= 0 ==> ss[i].model.noteId == id
    requires forall k :: 0 <= k < (if i < 0 then |ss| else i) ==> ss[k].model.noteId != id
    ensures IndexOf(ss, id) == i
  {
  }
}
