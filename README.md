# Brainstorming Board: drawing session model

This project models, in Dafny, the in-memory drawing session of the
"Brainstorming Board" sketchpad (`src/main.ts`): the committed marks
(`lines`), the redo stack (`redoStack`), the marker thickness and the selected
sticker, the tool preview, the sticker palette, and the `drawing` flag that
the pointer handlers switch. Every handler (mousedown, mousemove, mouseup,
Clear, Undo, Redo, Thin, Thick, a sticker button, Add Custom Sticker) is one
atomic transition, since the browser runs them one at a time.

Layout:

- `options.dfy` (`Options`): the optional value used for `null`able variables
  and for the prompt's result.
- `marks.dfy` (`Marks`): `Point`, and `Mark` with two tagged kinds, `Line`
  (`MarkerLine`) and `Sticker`. The source stores stickers in the line array
  through a cast; here the tag replaces the cast. `Drag` is both `drag` methods.
- `previews.dfy` (`Previews`): `Preview` with the kinds `Circle` (`ToolPreview`)
  and `Glyph` (`StickerPreview`), `UpdatePosition`, the sticker-mode test, and
  `NextPreview`, the preview rule of mousemove.
- `board.dfy` (`Board`): the session as a value `State` and one transition
  function per handler. It also holds the invariant `Valid` and the undo
  timeline `Timeline` (committed marks, then the marks redo would bring back).
- `board_laws.dfy` (`BoardLaws`): the properties of those transitions.
- `sketchpad.dfy` (`Sketchpad`): the class `Session`, whose fields are the
  module-level variables. Its methods update the fields in place as the
  handlers do, and each one is proved to perform its `Board` transition. The
  methods require and keep `Valid()`, the invariant the constructor sets up:
  every palette entry is non-empty, and every line has a point and a
  thickness of 1, 2 or 7.

Marks are values, not objects. This loses nothing: a mark object is only ever
in one of `lines` and `redoStack`, because undo and redo move it and never
copy it. In-place updates of a mark (`drag`) or a preview (`updatePosition`)
become a replacement of the list slot or of the variable.

Choices where the source leaves room:

- `if (currentSticker)` tests JavaScript truthiness, so an empty string selects
  the marker, like `null` does (`StickerMode`). Under `Valid` a selected
  sticker is never empty (`ModeIsSelection`).
- mousemove while drawing with no committed mark reads
  `lines[lines.length - 1]`, which is `undefined`. Calling `drag` on it throws
  before anything changes. The model does not require a non-empty `lines`
  there: `Board.MoveThrows` names this case, `Board.MouseMove` leaves the state
  unchanged in it, and `Sketchpad.Session.MouseMove` returns `threw = true`.
  `UndoMidStrokeThrows` shows that an undo in mid-stroke reaches this case.
- The "drawing-changed" and "tool-moved" notifications are counted
  (`changeEvents`, `moveEvents`) instead of being drawn.

Behaviour of the code that the model reproduces as written:

- `mousedown` keeps the redo stack, so a redo after a new mark brings back the
  undone mark on top of it (`RedoSurvivesNewMark`).
- A marker `mousedown` dispatches no "drawing-changed" (`MouseDownWithMarker`).
- A sticker `mousedown` leaves `drawing` as it was. While `drawing` is true, a
  sticker at the tail of `lines` is dragged by mousemove through `Sticker.drag`
  (`MouseMoveMovesTailSticker`).
- The preview is only rebuilt when its kind (circle or glyph) changes. After a
  switch from thin to thick, or from one sticker to another, it keeps the old
  thickness or glyph (`PreviewKeepsStaleThickness`, `PreviewKeepsStaleGlyph`).

## Model

| member | source | states |
|---|---|---|
| `Marks.Drag` | src/main.ts:89-91 | A dragged mark keeps its kind and its thickness or content, and ends anchored at the new point. A line keeps all its earlier points and gains exactly one; a sticker (`Sticker.drag`, lines 147-150) is moved. |
| `Marks.DragAllLine` | src/main.ts:88-91 | Dragging a line through a run of positions appends all of them, in order, to its points. |
| `Marks.DragAllSticker` | src/main.ts:146-150 | Dragging a sticker through a run of positions leaves it at the last one with its content unchanged. |
| `Previews.UpdatePosition` | src/main.ts:120-124 | `updatePosition` (also lines 171-175) moves a preview and keeps its kind and its thickness or glyph. |
| `Previews.StickerMode` | src/main.ts:218 | The test `if (currentSticker)` (also line 240) uses JavaScript truthiness: sticker mode holds when a sticker is selected and it is not the empty string. |
| `Previews.NextPreview` | src/main.ts:240-252 | The preview is a glyph exactly when a sticker is selected, and it sits at the pointer. It keeps its old thickness or glyph when its kind is unchanged. It takes them from the current tool when it is new or changes kind. |
| `Board.Initial` | src/main.ts:58-76 | The session starts valid: not drawing, with both stacks empty. |
| `Board.MouseDown` | src/main.ts:214-228 | mousedown changes only `drawing`, `lines` and the redraw count, and keeps the session invariant. |
| `Board.MoveThrows` | src/main.ts:236-237 | `lines[lines.length - 1].drag` throws a TypeError exactly when drawing with no committed mark. |
| `Board.MouseMove` | src/main.ts:231-255 | mousemove keeps the session invariant, also when it drags the newest mark. |
| `Board.MouseUp` | src/main.ts:258-260 | mouseup clears `drawing` and changes nothing else. |
| `Board.Clear` | src/main.ts:263-267 | Clear leaves both stacks, and so the timeline, empty. It changes nothing else but the redraw count, and keeps the invariant. |
| `Board.Undo` | src/main.ts:270-276 | Undo conserves the timeline and shortens `lines` by one with one redraw. With nothing committed it changes nothing. It changes no other variable and keeps the invariant. |
| `Board.Redo` | src/main.ts:279-285 | Redo conserves the timeline and lengthens `lines` by one with one redraw. With an empty redo stack it changes nothing. It changes no other variable and keeps the invariant. |
| `Board.SelectThin` | src/main.ts:288-294 | Thin selects the marker (no sticker) with thickness 2, changes nothing else and keeps the invariant. |
| `Board.SelectThick` | src/main.ts:297-303 | Thick selects the marker (no sticker) with thickness 7, changes nothing else and keeps the invariant. |
| `Board.SelectSticker` | src/main.ts:188-194 | A sticker button selects its palette entry and dispatches one "tool-moved". It keeps the thickness and everything else and, in a valid session, switches to sticker mode. |
| `Board.AddCustomSticker` | src/main.ts:204-211 | Non-empty prompt text is appended to the palette as exactly one entry. A cancelled or empty prompt leaves the palette unchanged. Nothing else changes, and the invariant is kept. |
| `BoardLaws.UndoMovesNewest` | src/main.ts:270-276 | Undo with a committed mark removes exactly the newest one and pushes it on the redo stack; all other marks stay. |
| `BoardLaws.RedoRestoresTop` | src/main.ts:279-285 | Redo with a non-empty redo stack pops exactly its top and commits it. |
| `BoardLaws.EmptyUndoRedoAreNoOps` | src/main.ts:271 | Undo with nothing committed, and redo with nothing to redo (line 280), leave the whole state unchanged. |
| `BoardLaws.UndoRedoInverse` | src/main.ts:270-285 | Redo after undo, and undo after redo, restore both stacks; only two redraws remain. |
| `BoardLaws.ClearForgetsEverything` | src/main.ts:263-267 | After Clear both stacks are empty, undo and redo do nothing, and the tools are kept. |
| `BoardLaws.UndoNConservesTimeline` | src/main.ts:270-276 | `k` undos in a row, up to the number of committed marks, keep the timeline and move its boundary back by `k`, with `k` redraws; nothing else changes. |
| `BoardLaws.RedoNConservesTimeline` | src/main.ts:279-285 | `k` redos in a row, up to the size of the redo stack, keep the timeline and move its boundary forward by `k`, with `k` redraws; nothing else changes. |
| `BoardLaws.SameBoundarySameStacks` | src/main.ts:270-285 | The timeline and the number of committed marks determine both stacks, so undo and redo can lose or duplicate no mark. |
| `BoardLaws.UndoNThenRedoN` | src/main.ts:270-285 | Any `k` undos, up to the number of committed marks, are undone by `k` redos. |
| `BoardLaws.RedoNThenUndoN` | src/main.ts:270-285 | Any `k` redos, up to the size of the redo stack, are undone by `k` undos. |
| `BoardLaws.RedoSurvivesNewMark` | src/main.ts:214-228 | A mousedown after an undo does not discard the redo stack. A redo then gives the earlier marks, the mark mousedown placed, and the undone mark on top; the redo stack is back as it was before the undo. |
| `BoardLaws.MouseDownWithSticker` | src/main.ts:218-221 | In sticker mode mousedown commits exactly one sticker with the selected glyph at the pointer. It leaves `drawing` and the redo stack as they were. |
| `BoardLaws.MouseDownWithMarker` | src/main.ts:222-227 | In marker mode mousedown starts drawing and commits exactly one line: the pointer as its only point, at the current thickness. The redo stack is untouched and no redraw is requested. |
| `BoardLaws.UndoTakesBackMouseDown` | src/main.ts:214-228 | Undo right after mousedown takes back exactly the mark mousedown committed. |
| `BoardLaws.MouseMoveDragsNewest` | src/main.ts:236-238 | While drawing, mousemove drags only the newest mark, whichever tool is selected, and dispatches one redraw. The number of marks, every earlier mark, the redo stack, the thickness, the sticker, the preview and the palette are unchanged. |
| `BoardLaws.MouseMoveThrowsUnchanged` | src/main.ts:237 | While drawing with nothing committed, mousemove changes nothing. |
| `BoardLaws.UndoMidStrokeThrows` | src/main.ts:223-237 | An undo between mousedown and mousemove on an empty board leaves the session drawing with no mark, so the next mousemove throws. |
| `BoardLaws.MouseMoveMovesTailSticker` | src/main.ts:236-238 | While drawing, a sticker at the tail is moved to the pointer. |
| `BoardLaws.MovesWhileDrawing` | src/main.ts:236-238 | While drawing, a run of mousemoves drags the newest mark through every position in order and touches no other mark and not the redo stack. |
| `BoardLaws.StrokeRecordsEveryPosition` | src/main.ts:222-238 | A marker stroke holds the mousedown position followed by every mousemove position, in order, at the thickness selected when it began. |
| `BoardLaws.MouseMoveWhileIdle` | src/main.ts:239-254 | While not drawing, mousemove puts the preview at the pointer, as a glyph exactly in sticker mode. The marks, the redo stack, `drawing`, the tools and the palette are unchanged, and only a "tool-moved" is dispatched. |
| `BoardLaws.MouseUpStopsDrawing` | src/main.ts:258-260 | After mouseup, `drawing` is false and a mousemove only moves the preview to the pointer, in the shape of the selected tool; marks, redo stack, tools and palette are unchanged and no redraw is requested. |
| `BoardLaws.ToolSelection` | src/main.ts:288-303 | Thin sets thickness 2 and Thick sets 7, and both forget the sticker. A sticker button (line 189) keeps the thickness, and the sticker then wins at mousedown (line 218). |
| `BoardLaws.ModeIsSelection` | src/main.ts:218 | In a valid session sticker mode holds exactly when a sticker is selected. |
| `BoardLaws.PreviewKeepsStaleThickness` | src/main.ts:247-251 | A circle preview that is already shown keeps thickness 2 after a switch from Thin to Thick. |
| `BoardLaws.PreviewKeepsStaleGlyph` | src/main.ts:241-245 | A glyph preview keeps the first sticker's glyph after another sticker is selected. |
| `BoardLaws.UndoRedoScenario` | src/main.ts:270-285 | From `[A, B]`: undo gives `[A]` with `[B]`, undo again gives `[]` with `[B, A]`, and redo gives `[A]` with `[B]`. |
| `BoardLaws.CustomStickerScenario` | src/main.ts:204-221 | A custom sticker entered at the prompt can be selected, and the next mousedown places it. |
| `BoardLaws.CancelledPromptAddsNothing` | src/main.ts:206 | A cancelled or empty prompt leaves the whole state unchanged. |
| `Sketchpad.Session.constructor` | src/main.ts:58-76 | The variables start as the source initialises them, and the invariant holds. |
| `Sketchpad.Session.MouseDown` | src/main.ts:214-228 | Performs `Board.MouseDown` in place and keeps the invariant. |
| `Sketchpad.Session.MouseMove` | src/main.ts:231-255 | Performs `Board.MouseMove` in place and keeps the invariant. It reports a throw exactly when drawing with nothing committed. |
| `Sketchpad.Session.MouseUp` | src/main.ts:258-260 | Performs `Board.MouseUp` in place. |
| `Sketchpad.Session.Clear` | src/main.ts:263-267 | Performs `Board.Clear` in place. |
| `Sketchpad.Session.Undo` | src/main.ts:270-276 | Performs `Board.Undo` in place with pop and push. |
| `Sketchpad.Session.Redo` | src/main.ts:279-285 | Performs `Board.Redo` in place with pop and push. |
| `Sketchpad.Session.SelectThin` | src/main.ts:288-290 | Performs `Board.SelectThin` in place. |
| `Sketchpad.Session.SelectThick` | src/main.ts:297-299 | Performs `Board.SelectThick` in place. |
| `Sketchpad.Session.SelectSticker` | src/main.ts:188-189 | Performs `Board.SelectSticker` in place. |
| `Sketchpad.Session.AddCustomSticker` | src/main.ts:204-211 | Performs `Board.AddCustomSticker` in place. |

## Left out

- Page and button construction, sticker buttons and the `selectedTool` highlight (src/main.ts:1-56, 185-201, 291-302): these are DOM calls with no state beyond the tool variables.
- Canvas rendering: the `display` methods, `ctx.beginPath` in mousedown, and the "drawing-changed" and "tool-moved" listeners (src/main.ts:94-105, 127-131, 153-156, 178-181, 226, 319-330). These are canvas API calls, and the circle radius `thickness / 2` is floating point. Only the number of notifications is kept.
- Export (src/main.ts:305-317): an offscreen canvas, a scale transform, PNG encoding and a download link, all browser APIs.
- Coordinate translation with `getBoundingClientRect` (src/main.ts:215-217, 232-234): pointer positions are taken as given integers. Fractional coordinates are not modelled.
- The `prompt` dialog (src/main.ts:205): only its result is modelled, as an optional string.
- Event dispatch: each handler is one atomic step, as on the browser's single-threaded event loop.
- Sketchpad.Session methods: they require `Valid()`, the invariant the constructor establishes and every method keeps. The source states no such requirement; it holds in every reachable state.
