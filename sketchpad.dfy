/** The sketchpad's event handlers as they run: the module-level variables of
    src/main.ts are the fields of one `Session` object and every handler
    updates them in place. Each method is specified by the transition function
    of module Board that it performs, whose properties module BoardLaws proves. */
module Sketchpad {
  import opened Options
  import opened Marks
  import opened Previews
  import Board

  class Session {
    var drawing: bool
    var lines: seq<Mark>
    var redoStack: seq<Mark>
    var currentThickness: int
    var toolPreview: Option<Preview>
    var currentSticker: Option<string>
    /** The sticker palette; each entry has a button. */
    var stickers: seq<string>
    /** How many "drawing-changed" notifications (full redraws) were dispatched. */
    var changeEvents: nat
    /** How many "tool-moved" notifications (preview overlays) were dispatched. */
    var moveEvents: nat

    function State(): Board.State
      reads this
    {
      Board.State(drawing, lines, redoStack, currentThickness, toolPreview,
                  currentSticker, stickers, changeEvents, moveEvents)
    }

    ghost predicate Valid()
      reads this
    {
      Board.Valid(State())
    }

    constructor ()
      ensures State() == Board.Initial() && Valid()
    {
      drawing := false;
      lines := [];
      redoStack := [];
      currentThickness := 1;
      toolPreview := None;
      currentSticker := None;
      stickers := Board.InitialPalette;
      changeEvents := 0;
      moveEvents := 0;
    }

    method MouseDown(x: int, y: int)
      requires Valid()
      modifies this
      ensures State() == Board.MouseDown(old(State()), Point(x, y)) && Valid()
    {
      if StickerMode(currentSticker) {
        var sticker := Sticker(Point(x, y), currentSticker.value);
        lines := lines + [sticker];
        changeEvents := changeEvents + 1;
      } else {
        drawing := true;
        var line := Line([Point(x, y)], currentThickness);
        lines := lines + [line];
      }
    }

    /** `threw` reports the TypeError of dragging the last mark when there is none. */
    method MouseMove(x: int, y: int) returns (threw: bool)
      requires Valid()
      modifies this
      ensures threw == Board.MoveThrows(old(State()))
      ensures State() == Board.MouseMove(old(State()), Point(x, y)) && Valid()
    {
      var p := Point(x, y);
      threw := false;
      if drawing {
        if |lines| == 0 {
          threw := true;
          return;
        }
        var n := |lines| - 1;
        lines := lines[n := Drag(lines[n], p)];
        changeEvents := changeEvents + 1;
      } else {
        if StickerMode(currentSticker) {
          if toolPreview.None? || !toolPreview.value.Glyph? {
            toolPreview := Some(Glyph(p, currentSticker.value));
          } else {
            toolPreview := Some(UpdatePosition(toolPreview.value, p));
          }
        } else {
          if toolPreview.None? || !toolPreview.value.Circle? {
            toolPreview := Some(Circle(p, currentThickness));
          } else {
            toolPreview := Some(UpdatePosition(toolPreview.value, p));
          }
        }
        moveEvents := moveEvents + 1;
      }
    }

    method MouseUp()
      requires Valid()
      modifies this
      ensures State() == Board.MouseUp(old(State())) && Valid()
    {
      drawing := false;
    }

    method Clear()
      requires Valid()
      modifies this
      ensures State() == Board.Clear(old(State())) && Valid()
    {
      lines := [];
      redoStack := [];
      changeEvents := changeEvents + 1;
    }

    method Undo()
      requires Valid()
      modifies this
      ensures State() == Board.Undo(old(State())) && Valid()
    {
      if |lines| > 0 {
        var lastLine := lines[|lines| - 1];
        lines := lines[..|lines| - 1];
        redoStack := redoStack + [lastLine];
        changeEvents := changeEvents + 1;
      }
    }

    method Redo()
      requires Valid()
      modifies this
      ensures State() == Board.Redo(old(State())) && Valid()
    {
      if |redoStack| > 0 {
        var lastLine := redoStack[|redoStack| - 1];
        redoStack := redoStack[..|redoStack| - 1];
        lines := lines + [lastLine];
        changeEvents := changeEvents + 1;
      }
    }

    method SelectThin()
      requires Valid()
      modifies this
      ensures State() == Board.SelectThin(old(State())) && Valid()
    {
      currentThickness := Board.Thin;
      currentSticker := None;
    }

    method SelectThick()
      requires Valid()
      modifies this
      ensures State() == Board.SelectThick(old(State())) && Valid()
    {
      currentThickness := Board.Thick;
      currentSticker := None;
    }

    /** The button of the `i`-th palette entry. */
    method SelectSticker(i: nat)
      requires Valid() && i < |stickers|
      modifies this
      ensures State() == Board.SelectSticker(old(State()), i) && Valid()
    {
      currentSticker := Some(stickers[i]);
      moveEvents := moveEvents + 1;
    }

    /** `response` is what the prompt returned; `None` when it was cancelled. */
    method AddCustomSticker(response: Option<string>)
      requires Valid()
      modifies this
      ensures State() == Board.AddCustomSticker(old(State()), response) && Valid()
    {
      if response.Some? && response.value != "" {
        stickers := stickers + [response.value];
      }
    }
  }
}
