/** The tool preview drawn under the pointer while not drawing
    (`ToolPreview` and `StickerPreview` in src/main.ts), and the tool state it is taken from. */
module Previews {
  import opened Options
  import opened Marks

  /** A circle of the marker thickness, or the selected sticker's glyph. */
  datatype Preview =
    | Circle(pos: Point, thickness: int)
    | Glyph(pos: Point, content: string)

  /** `if (currentSticker)`: JavaScript truthiness, so neither `null` nor the
      empty string selects sticker mode. */
  predicate StickerMode(sticker: Option<string>) {
    sticker.Some? && sticker.value != ""
  }

  /** `updatePosition(x, y)`: the preview moves and keeps its kind and its thickness or glyph. */
  function UpdatePosition(pv: Preview, p: Point): (r: Preview)
    ensures r.Circle? <==> pv.Circle?
    ensures r.pos == p
    ensures pv.Circle? ==> r.thickness == pv.thickness
    ensures pv.Glyph? ==> r.content == pv.content
  {
    match pv
    case Circle(_, t) => Circle(p, t)
    case Glyph(_, c) => Glyph(p, c)
  }

  /** The preview after a pointer move to `p` while not drawing. A new preview
      object is built from the current tool only when the existing one is
      missing or of the other kind; otherwise the existing one is moved, and its
      thickness or glyph is kept even if the tool has changed since. */
  function NextPreview(pv: Option<Preview>, sticker: Option<string>, thickness: int, p: Point): (r: Preview)
    ensures r.Glyph? <==> StickerMode(sticker)
    ensures r.pos == p
    ensures pv.Some? && (pv.value.Glyph? <==> r.Glyph?) ==>
              (r.Circle? ==> r.thickness == pv.value.thickness) && (r.Glyph? ==> r.content == pv.value.content)
    ensures (pv.None? || (pv.value.Glyph? <==> r.Circle?)) ==>
              (r.Circle? ==> r.thickness == thickness) && (r.Glyph? ==> r.content == sticker.value)
  {
    if StickerMode(sticker) then
      if pv.None? || !pv.value.Glyph? then Glyph(p, sticker.value) else UpdatePosition(pv.value, p)
    else
      if pv.None? || !pv.value.Circle? then Circle(p, thickness) else UpdatePosition(pv.value, p)
  }
}
