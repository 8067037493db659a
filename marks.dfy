/** Committed marks: freehand marker lines and placed stickers
    (`MarkerLine` and `Sticker` in src/main.ts). The source keeps both kinds in
    one array through a cast; here the kind is the datatype's tag. */
module Marks {

  /** A canvas-local pointer position; the browser's coordinates are taken as opaque integers. */
  datatype Point = Point(x: int, y: int)

  datatype Mark =
    | Line(points: seq<Point>, thickness: int)
    | Sticker(pos: Point, content: string)

  /** A marker line always holds the point it was started at. */
  predicate WellFormed(m: Mark) {
    m.Line? ==> |m.points| >= 1
  }

  /** Where the mark was last put: a line's newest point, a sticker's position. */
  function Anchor(m: Mark): Point
    requires WellFormed(m)
  {
    match m
    case Line(ps, _) => ps[|ps| - 1]
    case Sticker(p, _) => p
  }

  /** `drag(x, y)`: a line grows by one point, a sticker is moved. Either way the
      mark keeps its kind, its thickness or content, and ends anchored at `p`. */
  function Drag(m: Mark, p: Point): (r: Mark)
    ensures r.Line? <==> m.Line?
    ensures WellFormed(r) && Anchor(r) == p
    ensures m.Line? ==> r.thickness == m.thickness
                        && |r.points| == |m.points| + 1 && r.points[..|m.points|] == m.points
    ensures m.Sticker? ==> r.content == m.content
  {
    match m
    case Line(ps, t) => Line(ps + [p], t)
    case Sticker(_, c) => Sticker(p, c)
  }

  /** The mark after one `drag` per position of `ps`, in order. */
  function DragAll(m: Mark, ps: seq<Point>): Mark
    decreases |ps|
  {
    if ps == [] then m else DragAll(Drag(m, ps[0]), ps[1..])
  }

  /** Dragging a line records every position it is dragged through, in order,
      after the points it already had. */
  lemma {:induction false} DragAllLine(pts: seq<Point>, t: int, ps: seq<Point>)
    ensures DragAll(Line(pts, t), ps) == Line(pts + ps, t)
    decreases |ps|
  {
    if ps != [] {
      DragAllLine(pts + [ps[0]], t, ps[1..]);
      assert (pts + [ps[0]]) + ps[1..] == pts + ps;
    }
  }

  /** Dragging a sticker keeps only the last position it is dragged to. */
  lemma {:induction false} DragAllSticker(q: Point, c: string, ps: seq<Point>)
    requires ps != []
    ensures DragAll(Sticker(q, c), ps) == Sticker(ps[|ps| - 1], c)
    decreases |ps|
  {
    if |ps| > 1 {
      DragAllSticker(ps[0], c, ps[1..]);
    }
  }
}
