/** The drawing session of src/main.ts as a value: the module-level variables
    (lines 59-76) and one transition function per event handler. The class
    `Session` of module Sketchpad performs these transitions in place and is
    specified by them. */
module Board {
  import opened Options
  import opened Marks
  import opened Previews

  /** `drawing`, `lines`, `redoStack`, `currentThickness`, `toolPreview`,
      `currentSticker` and the sticker palette `stickers`, plus how many
      "drawing-changed" and "tool-moved" notifications have been dispatched. */
  datatype State = State(
    drawing: bool,
    lines: seq<Mark>,
    redoStack: seq<Mark>,
    thickness: int,
    preview: Option<Preview>,
    sticker: Option<string>,
    palette: seq<string>,
    changeEvents: nat,
    moveEvents: nat)

  /** The five emoji stickers the palette starts with. */
  const InitialPalette: seq<string> :=
    ["\U{1F624}", "\U{1F976}", "\U{1F3F9}", "\U{1F44A}", "\U{270C}\U{FE0F}"]

  const Thin := 2
  const Thick := 7

  function Initial(): (s: State)
    ensures Valid(s) && !s.drawing && s.lines == [] && s.redoStack == []
  {
    State(false, [], [], 1, None, None, InitialPalette, 0, 0)
  }

  // ---------------------------------------------------------------------
  // The session invariant

  /** The marker thicknesses the session can hold: the initial 1, thin and thick. */
  predicate ValidThickness(t: int) {
    t == 1 || t == Thin || t == Thick
  }

  predicate MarkOk(m: Mark, palette: seq<string>) {
    match m
    case Line(ps, t) => |ps| >= 1 && ValidThickness(t)
    case Sticker(_, c) => c in palette
  }

  predicate PreviewOk(pv: Preview, palette: seq<string>) {
    match pv
    case Circle(_, t) => ValidThickness(t)
    case Glyph(_, c) => c in palette
  }

  /** Every palette entry is non-empty text, the selected sticker and every
      sticker mark and glyph preview come from the palette, and every line holds
      at least one point and a thickness the tool buttons can set. */
  predicate Valid(s: State) {
    && (forall c :: c in s.palette ==> c != "")
    && ValidThickness(s.thickness)
    && (s.sticker.Some? ==> s.sticker.value in s.palette)
    && (forall m :: m in s.lines ==> MarkOk(m, s.palette))
    && (forall m :: m in s.redoStack ==> MarkOk(m, s.palette))
    && (s.preview.Some? ==> PreviewOk(s.preview.value, s.palette))
  }

  // ---------------------------------------------------------------------
  // The undo timeline

  /** The elements of `q`, last first. */
  function Reversed<T>(q: seq<T>): (r: seq<T>)
    ensures |r| == |q|
  {
    if q == [] then [] else Reversed(q[1..]) + [q[0]]
  }

  lemma {:induction false} ReversedSnoc<T>(q: seq<T>, x: T)
    ensures Reversed(q + [x]) == [x] + Reversed(q)
    decreases |q|
  {
    if q != [] {
      assert (q + [x])[1..] == q[1..] + [x];
      ReversedSnoc(q[1..], x);
    }
  }

  /** The committed marks followed by the marks redo would bring back, in the
      order redo brings them back. Undo and redo only move the boundary. */
  function Timeline(s: State): seq<Mark> {
    s.lines + Reversed(s.redoStack)
  }

  // ---------------------------------------------------------------------
  // Pointer handlers

  /** mousedown: in sticker mode a sticker mark is committed at `p`; otherwise a
      one-point line of the current thickness is committed and drawing starts. */
  function MouseDown(s: State, p: Point): (r: State)
    ensures r.(drawing := s.drawing, lines := s.lines, changeEvents := s.changeEvents) == s
    ensures Valid(s) ==> Valid(r)
  {
    if StickerMode(s.sticker) then
      s.(lines := s.lines + [Sticker(p, s.sticker.value)], changeEvents := s.changeEvents + 1)
    else
      s.(drawing := true, lines := s.lines + [Line([p], s.thickness)])
  }

  /** mousemove while drawing with no committed mark: `lines[lines.length - 1]`
      is undefined and the handler throws before changing anything. */
  predicate MoveThrows(s: State) {
    s.drawing && |s.lines| == 0
  }

  /** mousemove: while drawing, the newest mark is dragged to `p`; otherwise the
      preview follows the pointer. */
  function MouseMove(s: State, p: Point): (r: State)
    ensures Valid(s) ==> Valid(r)
  {
    if s.drawing then
      if |s.lines| == 0 then s
      else
        var n := |s.lines| - 1;
        var dragged := s.lines[n := Drag(s.lines[n], p)];
        assert forall m :: m in dragged ==> m == Drag(s.lines[n], p) || m in s.lines by {
          forall m | m in dragged ensures m == Drag(s.lines[n], p) || m in s.lines {
            var k :| 0 <= k < |dragged| && dragged[k] == m;
            if k != n { assert m == s.lines[k]; }
          }
        }
        assert MarkOk(s.lines[n], s.palette) ==> MarkOk(Drag(s.lines[n], p), s.palette);
        s.(lines := dragged, changeEvents := s.changeEvents + 1)
    else
      s.(preview := Some(NextPreview(s.preview, s.sticker, s.thickness, p)),
         moveEvents := s.moveEvents + 1)
  }

  /** mouseup: drawing stops; nothing else changes. */
  function MouseUp(s: State): (r: State)
    ensures !r.drawing && r.(drawing := s.drawing) == s
    ensures Valid(s) ==> Valid(r)
  {
    s.(drawing := false)
  }

  // ---------------------------------------------------------------------
  // Buttons

  /** Clear: both stacks are emptied. */
  function Clear(s: State): (r: State)
    ensures r.lines == [] && r.redoStack == [] && Timeline(r) == []
    ensures r.(lines := s.lines, redoStack := s.redoStack, changeEvents := s.changeEvents) == s
    ensures Valid(s) ==> Valid(r)
  {
    s.(lines := [], redoStack := [], changeEvents := s.changeEvents + 1)
  }

  /** Undo: the newest committed mark moves onto the redo stack; nothing happens
      when no mark is committed. The timeline is conserved. */
  function Undo(s: State): (r: State)
    ensures Timeline(r) == Timeline(s)
    ensures |s.lines| > 0 ==> |r.lines| == |s.lines| - 1 && r.changeEvents == s.changeEvents + 1
    ensures |s.lines| == 0 ==> r == s
    ensures r.(lines := s.lines, redoStack := s.redoStack, changeEvents := s.changeEvents) == s
    ensures Valid(s) ==> Valid(r)
  {
    if |s.lines| > 0 then
      var n := |s.lines| - 1;
      ReversedSnoc(s.redoStack, s.lines[n]);
      assert s.lines == s.lines[..n] + [s.lines[n]];
      s.(lines := s.lines[..n], redoStack := s.redoStack + [s.lines[n]],
         changeEvents := s.changeEvents + 1)
    else
      s
  }

  /** Redo: the top of the redo stack is committed again; nothing happens when
      the redo stack is empty. The timeline is conserved. */
  function Redo(s: State): (r: State)
    ensures Timeline(r) == Timeline(s)
    ensures |s.redoStack| > 0 ==> |r.lines| == |s.lines| + 1 && r.changeEvents == s.changeEvents + 1
    ensures |s.redoStack| == 0 ==> r == s
    ensures r.(lines := s.lines, redoStack := s.redoStack, changeEvents := s.changeEvents) == s
    ensures Valid(s) ==> Valid(r)
  {
    if |s.redoStack| > 0 then
      var n := |s.redoStack| - 1;
      ReversedSnoc(s.redoStack[..n], s.redoStack[n]);
      assert s.redoStack == s.redoStack[..n] + [s.redoStack[n]];
      s.(lines := s.lines + [s.redoStack[n]], redoStack := s.redoStack[..n],
         changeEvents := s.changeEvents + 1)
    else
      s
  }

  /** Thin: marker mode with thickness 2. */
  function SelectThin(s: State): (r: State)
    ensures !StickerMode(r.sticker) && r.thickness == Thin
    ensures r.(thickness := s.thickness, sticker := s.sticker) == s
    ensures Valid(s) ==> Valid(r)
  {
    s.(thickness := Thin, sticker := None)
  }

  /** Thick: marker mode with thickness 7. */
  function SelectThick(s: State): (r: State)
    ensures !StickerMode(r.sticker) && r.thickness == Thick
    ensures r.(thickness := s.thickness, sticker := s.sticker) == s
    ensures Valid(s) ==> Valid(r)
  {
    s.(thickness := Thick, sticker := None)
  }

  /** A sticker button: the `i`-th palette entry becomes the selected sticker;
      the marker thickness is kept for when a marker is selected again. */
  function SelectSticker(s: State, i: nat): (r: State)
    requires i < |s.palette|
    ensures r.sticker == Some(s.palette[i]) && r.thickness == s.thickness
    ensures r.moveEvents == s.moveEvents + 1
    ensures r.(sticker := s.sticker, moveEvents := s.moveEvents) == s
    ensures Valid(s) ==> Valid(r) && StickerMode(r.sticker)
  {
    s.(sticker := Some(s.palette[i]), moveEvents := s.moveEvents + 1)
  }

  /** Add Custom Sticker, given what the prompt returned (`None` when cancelled):
      non-empty text becomes a new palette entry. */
  function AddCustomSticker(s: State, response: Option<string>): (r: State)
    ensures response.Some? && response.value != "" ==> r.palette == s.palette + [response.value]
    ensures response.None? || response.value == "" ==> r.palette == s.palette
    ensures r.(palette := s.palette) == s
    ensures Valid(s) ==> Valid(r)
  {
    if response.Some? && response.value != "" then
      s.(palette := s.palette + [response.value])
    else
      s
  }
}
