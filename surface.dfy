/**
 * DrawingSurfaceView: the undo/redo stacks, the stylus capture state machine and the
 * rules that bake strokes into the bitmap. ViewState is the value of the view's fields;
 * the functions below say what each public operation does to it, and the class
 * DrawingSurfaceView performs the operations in place and is proved against them.
 */
module Surface {
  import opened Wrappers
  import opened Points
  import opened Strokes
  import opened Raster

  /** android.graphics.Color constants, as Java ints. */
  const ColorBlack: int := -0x100_0000   // 0xFF000000
  const ColorRed: int := -0x1_0000       // 0xFFFF0000
  const ColorBlue: int := -0xFF_FF01     // 0xFF0000FF

  /** MotionEvent.BUTTON_STYLUS_SECONDARY */
  const ButtonStylusSecondary: bv32 := 0x40

  /** MotionEvent tool types; only Stylus is drawn with. */
  datatype ToolType = Unknown | Finger | Stylus | Mouse | EraserTool

  /** MotionEvent.getAction(): the three handled actions, and every other one. */
  datatype Action = Down | Move | Up | OtherAction

  datatype MotionEvent = MotionEvent(tool: ToolType, action: Action, buttonState: bv32, x: real, y: real, pressure: real)

  /** What onTouchEvent returns: true, or whatever the SurfaceView superclass answers. */
  datatype TouchResult = Handled | PassedToSuper

  /** The two DrawingCallback notifications, in the order the view issues them. */
  datatype Notice = NewStroke(stroke: StrokeValue) | HistoryChanged(canUndo: bool, canRedo: bool)

  /**
   * The state of a view. The stacks are ArrayDeques with their head (the top) at index 0.
   * `listening` says whether a callback is registered and `notices` logs the calls made to it.
   */
  datatype ViewState = ViewState(
    undo: seq<StrokeValue>,
    redo: seq<StrokeValue>,
    current: Option<StrokeValue>,
    color: int,
    baseWidth: real,
    eraser: bool,
    canvas: Canvas,
    listening: bool,
    notices: seq<Notice>)

  /** The freshly constructed view. */
  const Initial: ViewState := ViewState([], [], None, ColorBlack, 10.0, false, None, false, [])

  /** The point built from an event: position and pressure are taken as they are. */
  function SamplePoint(e: MotionEvent): (p: Point)
    ensures p.x == e.x && p.y == e.y && p.pressure == e.pressure
  {
    Point(e.x, e.y, e.pressure)
  }

  predicate SecondaryHeld(e: MotionEvent) {
    e.buttonState & ButtonStylusSecondary != 0
  }

  /** Issue a callback, if one is registered. */
  function Notify(v: ViewState, n: Notice): ViewState {
    if v.listening then v.(notices := v.notices + [n]) else v
  }

  /** updateHistoryState */
  function AnnounceHistory(v: ViewState): ViewState {
    Notify(v, HistoryChanged(v.undo != [], v.redo != []))
  }

  /** onTouchEvent */
  function TouchStep(v: ViewState, e: MotionEvent): (ViewState, TouchResult) {
    if e.tool != Stylus then (v, PassedToSuper)
    else
      var v1 := v.(eraser := SecondaryHeld(e));
      var p := SamplePoint(e);
      var v2 :=
        match e.action
        case Down =>
          AnnounceHistory(v1.(current := Some(WithPoint(StrokeValue([], v1.color, v1.baseWidth, v1.eraser), p)), redo := []))
        case Move =>
          if v1.current.Some? then v1.(current := Some(WithPoint(v1.current.value, p))) else v1
        case Up =>
          if v1.current.Some? then
            var s := WithPoint(v1.current.value, p);
            var pushed := v1.(undo := [s] + v1.undo, canvas := Bake(v1.canvas, s));
            AnnounceHistory(Notify(pushed, NewStroke(s))).(current := None)
          else v1
        case OtherAction => v1;
      (v2, Handled)
  }

  /** undo */
  function UndoStep(v: ViewState): ViewState {
    if v.undo == [] then v
    else
      var moved := v.(undo := v.undo[1..], redo := [v.undo[0]] + v.redo);
      AnnounceHistory(moved.(canvas := Redraw(moved.canvas, moved.undo)))
  }

  /** redo */
  function RedoStep(v: ViewState): ViewState {
    if v.redo == [] then v
    else
      var s := v.redo[0];
      AnnounceHistory(v.(redo := v.redo[1..], undo := [s] + v.undo, canvas := Bake(v.canvas, s)))
  }

  /** clearCanvas */
  function ClearStep(v: ViewState): ViewState {
    AnnounceHistory(v.(undo := [], redo := [], canvas := Redraw(v.canvas, [])))
  }

  /** setStrokes; a null list is None. */
  function SetStrokesStep(v: ViewState, strokes: Option<seq<StrokeValue>>): ViewState {
    var undo := if strokes.Some? then strokes.value else [];
    AnnounceHistory(v.(undo := undo, redo := [], canvas := Redraw(v.canvas, undo)))
  }

  /** surfaceChanged: a new, empty bitmap of the new size, then redrawAllStrokes. */
  function ResizeStep(v: ViewState, width: int, height: int): ViewState {
    v.(canvas := Redraw(Some(Bitmap(width, height, [])), v.undo))
  }

  /** setPenColor also leaves eraser mode. */
  function PenColorStep(v: ViewState, color: int): ViewState {
    v.(color := color, eraser := false)
  }

  class DrawingSurfaceView {
    var undoStack: seq<StrokeValue>
    var redoStack: seq<StrokeValue>
    var currentStroke: Stroke?
    var currentColor: int
    var currentBaseStrokeWidth: real
    var isEraserMode: bool
    var bitmap: Canvas
    var hasCallback: bool
    var notices: seq<Notice>

    /** The value of the view's fields, with the in-progress stroke read through its reference. */
    ghost function Model(): ViewState
      reads this, currentStroke
    {
      ViewState(undoStack, redoStack, if currentStroke == null then None else Some(currentStroke.Value()),
        currentColor, currentBaseStrokeWidth, isEraserMode, bitmap, hasCallback, notices)
    }

    constructor ()
      ensures Model() == Initial
    {
      undoStack, redoStack := [], [];
      currentStroke := null;
      currentColor, currentBaseStrokeWidth, isEraserMode := ColorBlack, 10.0, false;
      bitmap := None;
      hasCallback, notices := false, [];
    }

    method SetCallback()
      modifies this
      ensures Model() == old(Model()).(listening := true)
    {
      hasCallback := true;
    }

    method OnTouchEvent(e: MotionEvent) returns (r: TouchResult)
      modifies this, currentStroke
      ensures (Model(), r) == TouchStep(old(Model()), e)
    {
      if e.tool != Stylus {
        return PassedToSuper;
      }
      SetEraserMode(e.buttonState & ButtonStylusSecondary != 0);
      var point := Point(e.x, e.y, e.pressure);
      match e.action {
        case Down =>
          var s := new Stroke(currentColor, currentBaseStrokeWidth, isEraserMode);
          s.AddPoint(point);
          currentStroke := s;
          redoStack := [];
          UpdateHistoryState();
        case Move =>
          if currentStroke != null {
            currentStroke.AddPoint(point);
          }
        case Up =>
          if currentStroke != null {
            currentStroke.AddPoint(point);
            var s := currentStroke.Value();
            undoStack := [s] + undoStack;
            CommitStrokeToBitmap(s);
            if hasCallback {
              notices := notices + [NewStroke(s)];
            }
            UpdateHistoryState();
          }
          currentStroke := null;
        case OtherAction =>
      }
      r := Handled;
    }

    /** Draw one segment per pair of consecutive points onto the bitmap, if there is one. */
    method CommitStrokeToBitmap(s: StrokeValue)
      modifies this`bitmap
      ensures bitmap == Bake(old(bitmap), s)
    {
      ghost var start := bitmap;
      ghost var segments := StrokeSegments(s);
      if bitmap.None? || |s.points| < 2 {
        assert bitmap.Some? ==> start.value.log + segments == start.value.log;
        return;
      }
      var paint := if s.isEraser then ClearMode else Ink(s.color);
      var points := s.points;
      assert start.value.log + segments[..0] == start.value.log;
      for i := 1 to |points|
        invariant bitmap == Some(start.value.(log := start.value.log + segments[..i - 1]))
      {
        var p1 := points[i - 1];
        var p2 := points[i];
        var width := WidthAt(s, p1);
        assert segments[i - 1] == Segment(p1.x, p1.y, p2.x, p2.y, width, paint);
        bitmap := Some(bitmap.value.(log := bitmap.value.log + [Segment(p1.x, p1.y, p2.x, p2.y, width, paint)]));
        assert segments[..i] == segments[..i - 1] + [segments[i - 1]];
        assert start.value.log + segments[..i] == (start.value.log + segments[..i - 1]) + [segments[i - 1]];
      }
      assert segments[..|points| - 1] == segments;
    }

    /** Clear the bitmap and bake the undo stack's strokes, iterating the deque from its head. */
    method RedrawAllStrokes()
      modifies this`bitmap
      ensures bitmap == Redraw(old(bitmap), undoStack)
    {
      if bitmap.Some? {
        bitmap := Some(bitmap.value.(log := []));
        var strokes := undoStack;
        for i := 0 to |strokes|
          invariant bitmap == Some(old(bitmap).value.(log := Replay(strokes[..i])))
        {
          CommitStrokeToBitmap(strokes[i]);
          ReplaySnoc(strokes[..i], strokes[i]);
          assert strokes[..i + 1] == strokes[..i] + [strokes[i]];
        }
        assert strokes[..|strokes|] == strokes;
      }
    }

    method Undo()
      modifies this
      ensures Model() == UndoStep(old(Model()))
    {
      if undoStack != [] {
        var top := undoStack[0];
        undoStack := undoStack[1..];
        redoStack := [top] + redoStack;
        RedrawAllStrokes();
        UpdateHistoryState();
      }
    }

    method Redo()
      modifies this
      ensures Model() == RedoStep(old(Model()))
    {
      if redoStack != [] {
        var redone := redoStack[0];
        redoStack := redoStack[1..];
        undoStack := [redone] + undoStack;
        CommitStrokeToBitmap(redone);
        UpdateHistoryState();
      }
    }

    method UpdateHistoryState()
      modifies this`notices
      ensures Model() == AnnounceHistory(old(Model()))
    {
      if hasCallback {
        notices := notices + [HistoryChanged(undoStack != [], redoStack != [])];
      }
    }

    /** Android calls this with the new, positive surface size. */
    method SurfaceChanged(width: int, height: int)
      requires width > 0 && height > 0
      modifies this
      ensures Model() == ResizeStep(old(Model()), width, height)
    {
      bitmap := Some(Bitmap(width, height, []));
      RedrawAllStrokes();
    }

    method ClearCanvas()
      modifies this
      ensures Model() == ClearStep(old(Model()))
    {
      undoStack := [];
      redoStack := [];
      if bitmap.Some? {
        bitmap := Some(bitmap.value.(log := []));
      }
      UpdateHistoryState();
    }

    method SetPenColor(color: int)
      modifies this
      ensures Model() == PenColorStep(old(Model()), color)
    {
      currentColor := color;
      isEraserMode := false;
    }

    method SetStrokeWidth(width: real)
      modifies this
      ensures Model() == old(Model()).(baseWidth := width)
    {
      currentBaseStrokeWidth := width;
    }

    method SetEraserMode(isEraser: bool)
      modifies this`isEraserMode
      ensures Model() == old(Model()).(eraser := isEraser)
    {
      isEraserMode := isEraser;
    }

    /** A copy of the undo deque, head (newest) first. */
    method GetStrokes() returns (strokes: seq<StrokeValue>)
      ensures strokes == undoStack
    {
      strokes := undoStack;
    }

    method SetStrokes(strokes: Option<seq<StrokeValue>>)
      modifies this
      ensures Model() == SetStrokesStep(old(Model()), strokes)
    {
      undoStack := [];
      redoStack := [];
      if strokes.Some? {
        var list := strokes.value;
        for i := 0 to |list|
          modifies this`undoStack
          invariant undoStack == list[..i]
        {
          undoStack := undoStack + [list[i]];
        }
        assert list[..|list|] == list;
      }
      RedrawAllStrokes();
      UpdateHistoryState();
    }
  }
}
