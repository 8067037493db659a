/** What the session's handlers guarantee, stated over the transition
    functions of module Board. */
module BoardLaws {
  import opened Options
  import opened Marks
  import opened Previews
  import opened Board

  // ---------------------------------------------------------------------
  // Undo, redo and clear

  /** Undo with a committed mark moves exactly that newest mark to the top of
      the redo stack and leaves every other mark where it was. */
  lemma UndoMovesNewest(s: State)
    requires |s.lines| > 0
    ensures Undo(s).lines == s.lines[..|s.lines| - 1]
    ensures Undo(s).redoStack == s.redoStack + [s.lines[|s.lines| - 1]]
  {
    var r := Undo(s);
    assert r.lines + Reversed(r.redoStack) == s.lines + Reversed(s.redoStack);
  }

  /** Redo with a non-empty redo stack commits exactly its top mark again. */
  lemma RedoRestoresTop(s: State)
    requires |s.redoStack| > 0
    ensures Redo(s).lines == s.lines + [s.redoStack[|s.redoStack| - 1]]
    ensures Redo(s).redoStack == s.redoStack[..|s.redoStack| - 1]
  {
  }

  /** Undo with nothing committed and redo with nothing to redo change nothing
      at all, not even the redraw count. */
  lemma EmptyUndoRedoAreNoOps(s: State)
    ensures |s.lines| == 0 ==> Undo(s) == s
    ensures |s.redoStack| == 0 ==> Redo(s) == s
  {
  }

  /** Redo undoes an undo, and undo undoes a redo: both stacks are back as they
      were; only the two redraws are left. */
  lemma UndoRedoInverse(s: State)
    ensures |s.lines| > 0 ==> Redo(Undo(s)) == s.(changeEvents := s.changeEvents + 2)
    ensures |s.redoStack| > 0 ==> Undo(Redo(s)) == s.(changeEvents := s.changeEvents + 2)
  {
    if |s.lines| > 0 {
      assert s.lines[..|s.lines| - 1] + [s.lines[|s.lines| - 1]] == s.lines;
    }
    if |s.redoStack| > 0 {
      assert s.redoStack[..|s.redoStack| - 1] + [s.redoStack[|s.redoStack| - 1]] == s.redoStack;
    }
  }

  /** Clear empties both stacks whatever they held; the tools are kept. */
  lemma ClearForgetsEverything(s: State)
    ensures Clear(s).lines == [] && Clear(s).redoStack == []
    ensures Redo(Clear(s)) == Clear(s) && Undo(Clear(s)) == Clear(s)
    ensures Clear(s).thickness == s.thickness && Clear(s).sticker == s.sticker
  {
  }

  lemma {:induction false} ReversedTwice<T>(q: seq<T>)
    ensures Reversed(Reversed(q)) == q
    decreases |q|
  {
    if q != [] {
      ReversedSnoc(Reversed(q[1..]), q[0]);
      ReversedTwice(q[1..]);
      assert [q[0]] + q[1..] == q;
    }
  }

  /** `k` undos in a row. */
  function UndoN(s: State, k: nat): State
    decreases k
  {
    if k == 0 then s else UndoN(Undo(s), k - 1)
  }

  /** `k` redos in a row. */
  function RedoN(s: State, k: nat): State
    decreases k
  {
    if k == 0 then s else RedoN(Redo(s), k - 1)
  }

  /** `k` undos only move the boundary of the timeline back by `k` marks, with
      one redraw each; nothing else changes. */
  lemma {:induction false} UndoNConservesTimeline(s: State, k: nat)
    requires k <= |s.lines|
    ensures var r := UndoN(s, k);
            Timeline(r) == Timeline(s) && |r.lines| == |s.lines| - k
            && r.changeEvents == s.changeEvents + k
            && r.(lines := s.lines, redoStack := s.redoStack, changeEvents := s.changeEvents) == s
    decreases k
  {
    if k > 0 {
      UndoNConservesTimeline(Undo(s), k - 1);
    }
  }

  /** `k` redos only move the boundary of the timeline forward by `k` marks,
      with one redraw each; nothing else changes. */
  lemma {:induction false} RedoNConservesTimeline(s: State, k: nat)
    requires k <= |s.redoStack|
    ensures var r := RedoN(s, k);
            Timeline(r) == Timeline(s) && |r.lines| == |s.lines| + k
            && r.changeEvents == s.changeEvents + k
            && r.(lines := s.lines, redoStack := s.redoStack, changeEvents := s.changeEvents) == s
    decreases k
  {
    if k > 0 {
      RedoNConservesTimeline(Redo(s), k - 1);
    }
  }

  /** Two sessions with the same timeline and the same number of committed
      marks have the same stacks. */
  lemma SameBoundarySameStacks(a: State, b: State)
    requires Timeline(a) == Timeline(b) && |a.lines| == |b.lines|
    ensures a.lines == b.lines && a.redoStack == b.redoStack
  {
    assert a.lines == Timeline(a)[..|a.lines|];
    assert b.lines == Timeline(b)[..|b.lines|];
    assert Reversed(a.redoStack) == Timeline(a)[|a.lines|..];
    assert Reversed(b.redoStack) == Timeline(b)[|b.lines|..];
    ReversedTwice(a.redoStack);
    ReversedTwice(b.redoStack);
  }

  /** Any number of undos, up to the number of committed marks, is undone by as
      many redos. */
  lemma UndoNThenRedoN(s: State, k: nat)
    requires k <= |s.lines|
    ensures RedoN(UndoN(s, k), k) == s.(changeEvents := s.changeEvents + 2 * k)
  {
    var t := UndoN(s, k);
    UndoNConservesTimeline(s, k);
    assert |t.redoStack| == |s.redoStack| + k by {
      assert |Timeline(t)| == |Timeline(s)|;
    }
    var r := RedoN(t, k);
    RedoNConservesTimeline(t, k);
    SameBoundarySameStacks(r, s);
  }

  /** Any number of redos, up to the size of the redo stack, is undone by as
      many undos. */
  lemma RedoNThenUndoN(s: State, k: nat)
    requires k <= |s.redoStack|
    ensures UndoN(RedoN(s, k), k) == s.(changeEvents := s.changeEvents + 2 * k)
  {
    var t := RedoN(s, k);
    RedoNConservesTimeline(s, k);
    var r := UndoN(t, k);
    UndoNConservesTimeline(t, k);
    SameBoundarySameStacks(r, s);
  }

  /** A new mark does not discard the redo stack: a redo right after it
      commits the undone mark on top of the new one. */
  lemma RedoSurvivesNewMark(s: State, p: Point)
    requires |s.lines| > 0
    ensures var n := |s.lines|;
            var r := Redo(MouseDown(Undo(s), p));
            var placed := if StickerMode(s.sticker) then Sticker(p, s.sticker.value)
                          else Line([p], s.thickness);
            r.lines == s.lines[..n - 1] + [placed] + [s.lines[n - 1]]
            && r.redoStack == s.redoStack
  {
    UndoMovesNewest(s);
  }

  // ---------------------------------------------------------------------
  // Pointer handlers and the drag protocol

  /** mousedown in sticker mode commits one sticker with the selected glyph at
      the pointer and leaves `drawing` as it was. */
  lemma MouseDownWithSticker(s: State, p: Point)
    requires StickerMode(s.sticker)
    ensures MouseDown(s, p).lines == s.lines + [Sticker(p, s.sticker.value)]
    ensures MouseDown(s, p).drawing == s.drawing
    ensures MouseDown(s, p).redoStack == s.redoStack
  {
  }

  /** mousedown in marker mode commits a one-point line of the current
      thickness and starts drawing; no redraw is requested. */
  lemma MouseDownWithMarker(s: State, p: Point)
    requires !StickerMode(s.sticker)
    ensures MouseDown(s, p).lines == s.lines + [Line([p], s.thickness)]
    ensures MouseDown(s, p).drawing
    ensures MouseDown(s, p).redoStack == s.redoStack
    ensures MouseDown(s, p).changeEvents == s.changeEvents
  {
  }

  /** Undo right after a mousedown takes back exactly the mark it committed,
      whichever tool made it, and puts it on top of the redo stack. */
  lemma UndoTakesBackMouseDown(s: State, p: Point)
    ensures var d := MouseDown(s, p);
            Undo(d).lines == s.lines
            && Undo(d).redoStack == s.redoStack + [d.lines[|s.lines|]]
            && (StickerMode(s.sticker) ==> d.lines[|s.lines|] == Sticker(p, s.sticker.value))
            && (!StickerMode(s.sticker) ==> d.lines[|s.lines|] == Line([p], s.thickness))
  {
    UndoMovesNewest(MouseDown(s, p));
  }

  /** mousemove while drawing drags only the newest mark, whichever tool is
      selected: a line gains the point, a sticker is moved to it. */
  lemma MouseMoveDragsNewest(s: State, p: Point)
    requires s.drawing && |s.lines| > 0
    ensures var r := MouseMove(s, p); var n := |s.lines| - 1;
            |r.lines| == |s.lines| && r.lines[..n] == s.lines[..n]
            && r.lines[n] == Drag(s.lines[n], p) && Anchor(r.lines[n]) == p
            && r.redoStack == s.redoStack && r.drawing
            && r.sticker == s.sticker && r.thickness == s.thickness && r.preview == s.preview
            && r.palette == s.palette
            && r.changeEvents == s.changeEvents + 1 && r.moveEvents == s.moveEvents
  {
  }

  /** mousemove while drawing with nothing committed throws and so changes nothing. */
  lemma MouseMoveThrowsUnchanged(s: State, p: Point)
    requires MoveThrows(s)
    ensures MouseMove(s, p) == s
  {
  }

  /** The hazard of keeping the stroke in progress at the tail of `lines`: an
      undo in mid-stroke on an empty board leaves the session drawing with no
      mark to drag, so the next mousemove throws. */
  lemma UndoMidStrokeThrows(s: State, p: Point)
    requires !StickerMode(s.sticker) && s.lines == []
    ensures MoveThrows(Undo(MouseDown(s, p)))
  {
  }

  /** With a sticker at the tail while still drawing (a sticker placed before a
      missed mouseup), mousemove moves that sticker. */
  lemma MouseMoveMovesTailSticker(s: State, p: Point)
    requires s.drawing && |s.lines| > 0 && s.lines[|s.lines| - 1].Sticker?
    ensures var r := MouseMove(s, p);
            r.lines[|s.lines| - 1] == s.lines[|s.lines| - 1].(pos := p)
  {
  }

  /** `|ps|` mousemoves in a row. */
  function Moves(s: State, ps: seq<Point>): State
    decreases |ps|
  {
    if ps == [] then s else Moves(MouseMove(s, ps[0]), ps[1..])
  }

  /** While drawing, a run of mousemoves drags the newest mark through every
      position in order and touches no other mark. */
  lemma {:induction false} MovesWhileDrawing(s: State, ps: seq<Point>)
    requires s.drawing && |s.lines| > 0
    ensures var r := Moves(s, ps); var n := |s.lines| - 1;
            r.drawing && |r.lines| == |s.lines| && r.lines[..n] == s.lines[..n]
            && r.lines[n] == DragAll(s.lines[n], ps)
            && r.redoStack == s.redoStack && r.changeEvents == s.changeEvents + |ps|
    decreases |ps|
  {
    if ps != [] {
      MouseMoveDragsNewest(s, ps[0]);
      MovesWhileDrawing(MouseMove(s, ps[0]), ps[1..]);
    }
  }

  /** A marker stroke is the down position followed by every move position, in
      order, at the thickness selected when it started. */
  lemma StrokeRecordsEveryPosition(s: State, p: Point, ps: seq<Point>)
    requires !StickerMode(s.sticker)
    ensures Moves(MouseDown(s, p), ps).lines == s.lines + [Line([p] + ps, s.thickness)]
  {
    var d := MouseDown(s, p);
    var n := |s.lines|;
    MovesWhileDrawing(d, ps);
    DragAllLine([p], s.thickness, ps);
    var r := Moves(d, ps);
    assert r.lines == r.lines[..n] + [r.lines[n]];
  }

  /** mousemove while not drawing only moves the preview: it sits at the
      pointer and is a glyph exactly in sticker mode; the marks, the tools and
      the palette are unchanged and only a "tool-moved" is dispatched. */
  lemma MouseMoveWhileIdle(s: State, p: Point)
    requires !s.drawing
    ensures var r := MouseMove(s, p);
            r.preview.Some? && r.preview.value.pos == p
            && (r.preview.value.Glyph? <==> StickerMode(s.sticker))
            && r.lines == s.lines && r.redoStack == s.redoStack && !r.drawing
            && r.thickness == s.thickness && r.sticker == s.sticker && r.palette == s.palette
            && r.changeEvents == s.changeEvents && r.moveEvents == s.moveEvents + 1
  {
  }

  /** mouseup ends drawing, and a mousemove after it only moves the preview to
      the pointer, in the shape of the selected tool. */
  lemma MouseUpStopsDrawing(s: State, p: Point)
    ensures !MouseUp(s).drawing
    ensures var r := MouseMove(MouseUp(s), p);
            r.preview.Some? && r.preview.value.pos == p
            && (r.preview.value.Glyph? <==> StickerMode(s.sticker))
            && r.lines == s.lines && r.redoStack == s.redoStack && !r.drawing
            && r.thickness == s.thickness && r.sticker == s.sticker && r.palette == s.palette
            && r.changeEvents == s.changeEvents
  {
    MouseMoveWhileIdle(MouseUp(s), p);
  }

  // ---------------------------------------------------------------------
  // Tools and the preview

  /** Thin and thick select the marker and forget the sticker; a sticker
      selection keeps the thickness, and a selected sticker takes precedence
      over the marker at the next mousedown. */
  lemma ToolSelection(s: State, i: nat, p: Point)
    requires Valid(s) && i < |s.palette|
    ensures SelectThin(s).thickness == 2 && SelectThin(s).sticker == None
    ensures SelectThick(s).thickness == 7 && SelectThick(s).sticker == None
    ensures SelectSticker(s, i).thickness == s.thickness
    ensures MouseDown(SelectSticker(s, i), p).lines == s.lines + [Sticker(p, s.palette[i])]
    ensures MouseDown(SelectThin(s), p).lines == s.lines + [Line([p], 2)]
  {
  }

  /** In a valid session a selected sticker is never empty text, so sticker
      mode is exactly "a sticker is selected". */
  lemma ModeIsSelection(s: State)
    requires Valid(s)
    ensures StickerMode(s.sticker) <==> s.sticker.Some?
  {
  }

  /** Switching the marker from thin to thick does not refresh a circle preview
      that is already shown: it keeps thickness 2 until the preview kind changes. */
  lemma PreviewKeepsStaleThickness(s: State, p: Point, q: Point)
    requires !s.drawing && (s.preview.None? || s.preview.value.Glyph?)
    ensures MouseMove(SelectThin(s), p).preview == Some(Circle(p, Thin))
    ensures MouseMove(SelectThick(MouseMove(SelectThin(s), p)), q).preview == Some(Circle(q, Thin))
  {
  }

  /** Likewise a glyph preview keeps the first sticker's glyph when another
      sticker is selected without a marker in between. */
  lemma PreviewKeepsStaleGlyph(s: State, i: nat, j: nat, p: Point, q: Point)
    requires Valid(s) && !s.drawing && i < |s.palette| && j < |s.palette|
    requires s.preview.None? || s.preview.value.Circle?
    ensures MouseMove(SelectSticker(s, i), p).preview == Some(Glyph(p, s.palette[i]))
    ensures MouseMove(SelectSticker(MouseMove(SelectSticker(s, i), p), j), q).preview
            == Some(Glyph(q, s.palette[i]))
  {
  }

  // ---------------------------------------------------------------------
  // Scenarios

  /** Stroke A, sticker B, undo, undo, redo. */
  lemma UndoRedoScenario(a: Mark, b: Mark, s: State)
    requires s.lines == [] && s.redoStack == []
    ensures var s1 := s.(lines := [a, b]);
            Undo(s1).lines == [a] && Undo(s1).redoStack == [b]
            && Undo(Undo(s1)).lines == [] && Undo(Undo(s1)).redoStack == [b, a]
            && Redo(Undo(Undo(s1))).lines == [a] && Redo(Undo(Undo(s1))).redoStack == [b]
  {
  }

  /** A custom sticker typed into the prompt can be selected and placed. */
  lemma CustomStickerScenario(p: Point)
    ensures var s := AddCustomSticker(Initial(), Some("\U{1F3B2}"));
            |s.palette| == |InitialPalette| + 1
            && SelectSticker(s, |InitialPalette|).sticker == Some("\U{1F3B2}")
            && MouseDown(SelectSticker(s, |InitialPalette|), p).lines == [Sticker(p, "\U{1F3B2}")]
  {
  }

  /** A cancelled or empty prompt leaves the palette as it was. */
  lemma CancelledPromptAddsNothing(s: State)
    ensures AddCustomSticker(s, None) == s && AddCustomSticker(s, Some("")) == s
  {
  }
}
