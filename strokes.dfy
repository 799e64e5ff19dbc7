/** Stroke.java: an ordered list of points plus the paint attributes fixed when the stroke starts. */
module Strokes {
  import opened Points

  /** The value of a stroke once it is completed and handed to the history stacks. */
  datatype StrokeValue = StrokeValue(points: seq<Point>, color: int, baseStrokeWidth: real, isEraser: bool)

  /** A stroke with one more point at its end. */
  function WithPoint(s: StrokeValue, p: Point): (r: StrokeValue)
    ensures |r.points| == |s.points| + 1
    ensures r.points[|s.points|] == p
    ensures r.points[..|s.points|] == s.points
    ensures r.color == s.color && r.baseStrokeWidth == s.baseStrokeWidth && r.isEraser == s.isEraser
  {
    s.(points := s.points + [p])
  }

  /** The mutable in-progress stroke that the capture state machine appends samples to. */
  class Stroke {
    var points: seq<Point>
    var color: int
    var baseStrokeWidth: real
    var isEraser: bool

    function Value(): StrokeValue
      reads this
    {
      StrokeValue(points, color, baseStrokeWidth, isEraser)
    }

    /** The constructor starts with no points and stores the attributes unvalidated. */
    constructor (color: int, baseStrokeWidth: real, isEraser: bool)
      ensures points == []
      ensures this.color == color && this.baseStrokeWidth == baseStrokeWidth && this.isEraser == isEraser
    {
      this.points := [];
      this.color := color;
      this.baseStrokeWidth := baseStrokeWidth;
      this.isEraser := isEraser;
    }

    method AddPoint(p: Point)
      modifies this
      ensures Value() == WithPoint(old(Value()), p)
    {
      points := points + [p];
    }
  }
}
