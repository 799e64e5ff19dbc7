/**
 * The persistent bitmap of DrawingSurfaceView, abstracted to the list of line segments
 * drawn onto it since it was last cleared. commitStrokeToBitmap appends segments and
 * redrawAllStrokes clears and replays; pixels, anti-aliasing and compositing are not modelled.
 */
module Raster {
  import opened Wrappers
  import opened Points
  import opened Strokes

  /** The paint a segment is drawn with: the stroke's colour, or the PorterDuff CLEAR eraser paint. */
  datatype Paint = Ink(color: int) | ClearMode

  /** One drawLine call: endpoints, stroke width and paint. */
  datatype Segment = Segment(x1: real, y1: real, x2: real, y2: real, width: real, paint: Paint)

  /** A bitmap of the given size and everything drawn on it since its last clear. */
  datatype Bitmap = Bitmap(width: int, height: int, log: seq<Segment>)

  /** mBitmap/mBitmapCanvas: absent until the surface is first sized. */
  type Canvas = Option<Bitmap>

  function PaintOf(s: StrokeValue): Paint {
    if s.isEraser then ClearMode else Ink(s.color)
  }

  /** The width of a segment that starts at p: p's pressure times the stroke's base width. */
  function WidthAt(s: StrokeValue, p: Point): real {
    p.pressure * s.baseStrokeWidth
  }

  /** The segment from p1 to p2, as wide as WidthAt gives for p1. */
  function SegmentOf(s: StrokeValue, p1: Point, p2: Point): Segment {
    Segment(p1.x, p1.y, p2.x, p2.y, WidthAt(s, p1), PaintOf(s))
  }

  /** What commitStrokeToBitmap draws for one stroke. */
  function StrokeSegments(s: StrokeValue): (r: seq<Segment>)
    ensures |s.points| < 2 ==> r == []
    ensures |s.points| >= 2 ==> |r| == |s.points| - 1
    ensures forall i {:trigger r[i]} :: 0 <= i < |r| ==>
      && r[i].x1 == s.points[i].x && r[i].y1 == s.points[i].y
      && r[i].x2 == s.points[i + 1].x && r[i].y2 == s.points[i + 1].y
      && (r[i].paint == ClearMode <==> s.isEraser)
      && (!s.isEraser ==> r[i].paint == Ink(s.color))
    ensures forall i {:trigger r[i]} :: 0 <= i < |r| ==> r[i].width == WidthAt(s, s.points[i])
  {
    if |s.points| < 2 then []
    else
      var r := seq(|s.points| - 1, i requires 0 <= i < |s.points| - 1 => SegmentOf(s, s.points[i], s.points[i + 1]));
      assert forall i {:trigger r[i]} :: 0 <= i < |r| ==> r[i] == SegmentOf(s, s.points[i], s.points[i + 1]) && r[i].paint == PaintOf(s);
      r
  }

  /** The segments of a list of strokes, drawn in list order (deque head first). */
  function Replay(strokes: seq<StrokeValue>): seq<Segment> {
    if strokes == [] then [] else StrokeSegments(strokes[0]) + Replay(strokes[1..])
  }

  /** commitStrokeToBitmap: without a bitmap canvas nothing happens. */
  function Bake(c: Canvas, s: StrokeValue): Canvas {
    if c.None? then c else Some(c.value.(log := c.value.log + StrokeSegments(s)))
  }

  /** redrawAllStrokes: clear the bitmap, then bake every stroke in the given order. */
  function Redraw(c: Canvas, strokes: seq<StrokeValue>): Canvas {
    if c.None? then c else Some(c.value.(log := Replay(strokes)))
  }

  lemma {:induction false} ReplayAppend(a: seq<StrokeValue>, b: seq<StrokeValue>)
    ensures Replay(a + b) == Replay(a) + Replay(b)
  {
    if a == [] {
      assert a + b == b;
    } else {
      assert (a + b)[1..] == a[1..] + b;
      ReplayAppend(a[1..], b);
    }
  }

  /** Replaying one more stroke at the end adds exactly its segments. */
  lemma ReplaySnoc(a: seq<StrokeValue>, s: StrokeValue)
    ensures Replay(a + [s]) == Replay(a) + StrokeSegments(s)
  {
    ReplayAppend(a, [s]);
    assert Replay([s]) == StrokeSegments(s) + Replay([]);
  }
}
