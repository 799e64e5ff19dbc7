/**
 * What the view's operations guarantee, proved about the functions in module Surface
 * that DrawingSurfaceView's methods are verified against.
 */
module SurfaceLaws {
  import opened Wrappers
  import opened Points
  import opened Strokes
  import opened Raster
  import opened Surface

  /** Every entry point of the view that changes its state. */
  datatype Op =
    | Touch(e: MotionEvent)
    | UndoOp
    | RedoOp
    | ClearOp
    | SetStrokesOp(strokes: Option<seq<StrokeValue>>)
    | SurfaceChangedOp(width: int, height: int)
    | SetPenColorOp(color: int)
    | SetStrokeWidthOp(baseWidth: real)
    | SetEraserModeOp(isEraser: bool)
    | SetCallbackOp

  function Step(v: ViewState, op: Op): ViewState {
    match op
    case Touch(e) => TouchStep(v, e).0
    case UndoOp => UndoStep(v)
    case RedoOp => RedoStep(v)
    case ClearOp => ClearStep(v)
    case SetStrokesOp(strokes) => SetStrokesStep(v, strokes)
    case SurfaceChangedOp(width, height) => ResizeStep(v, width, height)
    case SetPenColorOp(color) => PenColorStep(v, color)
    case SetStrokeWidthOp(baseWidth) => v.(baseWidth := baseWidth)
    case SetEraserModeOp(isEraser) => v.(eraser := isEraser)
    case SetCallbackOp => v.(listening := true)
  }

  function Steps(v: ViewState, ops: seq<Op>): ViewState
    decreases |ops|
  {
    if ops == [] then v else Steps(Step(v, ops[0]), ops[1..])
  }

  /** A stream of touch events delivered to the view. */
  function Run(v: ViewState, events: seq<MotionEvent>): ViewState
    decreases |events|
  {
    if events == [] then v else Run(TouchStep(v, events[0]).0, events[1..])
  }

  function Samples(events: seq<MotionEvent>): (ps: seq<Point>)
    ensures |ps| == |events|
  {
    seq(|events|, i requires 0 <= i < |events| => SamplePoint(events[i]))
  }

  predicate StylusMoves(events: seq<MotionEvent>) {
    forall k :: 0 <= k < |events| ==> events[k].tool == Stylus && events[k].action == Move
  }

  // ----- the capture state machine -----

  /** Events from anything but the stylus change nothing and are passed to the superclass. */
  lemma NonStylusEventIgnored(v: ViewState, e: MotionEvent)
    requires e.tool != Stylus
    ensures TouchStep(v, e) == (v, PassedToSuper)
  {
  }

  /**
   * Every stylus event sets eraser mode to whether the barrel button is held, so the mode
   * set before the event (by the eraser button or setPenColor) has no effect on it.
   */
  lemma StylusEventDecidesEraserMode(v: ViewState, e: MotionEvent, before: bool)
    requires e.tool == Stylus
    ensures TouchStep(v, e).1 == Handled
    ensures TouchStep(v, e).0.eraser == SecondaryHeld(e)
    ensures TouchStep(v.(eraser := before), e) == TouchStep(v, e)
  {
  }

  /** DOWN starts a one-point stroke with the current modes and empties the redo stack at once. */
  lemma DownStartsStroke(v: ViewState, e: MotionEvent)
    requires e.tool == Stylus && e.action == Down
    ensures var w := TouchStep(v, e).0;
      && w.redo == [] && w.undo == v.undo && w.canvas == v.canvas
      && w.current == Some(StrokeValue([SamplePoint(e)], v.color, v.baseWidth, SecondaryHeld(e)))
  {
  }

  /** MOVE or UP while no stroke is in progress pushes nothing and draws nothing. */
  lemma StrayEventPushesNothing(v: ViewState, e: MotionEvent)
    requires e.tool == Stylus && (e.action == Move || e.action == Up) && v.current.None?
    ensures TouchStep(v, e).0 == v.(eraser := SecondaryHeld(e))
  {
  }

  lemma {:induction false} RunAppend(v: ViewState, a: seq<MotionEvent>, b: seq<MotionEvent>)
    ensures Run(v, a + b) == Run(Run(v, a), b)
    decreases |a|
  {
    if a != [] {
      assert (a + b)[0] == a[0];
      assert (a + b)[1..] == a[1..] + b;
      RunAppend(TouchStep(v, a[0]).0, a[1..], b);
    } else {
      assert a + b == b;
    }
  }

  /** A run of stylus MOVEs during a stroke only appends their points (and sets eraser mode). */
  lemma {:induction false} MovesAppendPoints(v: ViewState, moves: seq<MotionEvent>)
    requires v.current.Some?
    requires StylusMoves(moves)
    ensures Run(v, moves) == v.(
      current := Some(v.current.value.(points := v.current.value.points + Samples(moves))),
      eraser := if moves == [] then v.eraser else SecondaryHeld(moves[|moves| - 1]))
    decreases |moves|
  {
    var s := v.current.value;
    if moves == [] {
      assert s.points + Samples(moves) == s.points;
    } else {
      var w := TouchStep(v, moves[0]).0;
      assert w == v.(current := Some(WithPoint(s, SamplePoint(moves[0]))), eraser := SecondaryHeld(moves[0]));
      assert StylusMoves(moves[1..]) by {
        forall k | 0 <= k < |moves[1..]| ensures moves[1..][k].tool == Stylus && moves[1..][k].action == Move {
          assert moves[1..][k] == moves[k + 1];
        }
      }
      MovesAppendPoints(w, moves[1..]);
      assert Samples(moves) == [SamplePoint(moves[0])] + Samples(moves[1..]);
      assert (s.points + [SamplePoint(moves[0])]) + Samples(moves[1..]) == s.points + Samples(moves);
      if |moves| > 1 {
        assert moves[1..][|moves[1..]| - 1] == moves[|moves| - 1];
      }
    }
  }

  /**
   * A complete gesture DOWN, k MOVEs, UP pushes exactly one stroke of k + 2 points, built
   * with the modes in force at DOWN, bakes it onto the bitmap and leaves nothing in progress.
   */
  lemma GestureCommitsOneStroke(v: ViewState, down: MotionEvent, moves: seq<MotionEvent>, up: MotionEvent)
    requires down.tool == Stylus && down.action == Down
    requires StylusMoves(moves)
    requires up.tool == Stylus && up.action == Up
    ensures var s := StrokeValue([SamplePoint(down)] + Samples(moves) + [SamplePoint(up)],
                                 v.color, v.baseWidth, SecondaryHeld(down));
      var w := Run(v, [down] + moves + [up]);
      && |s.points| == |moves| + 2
      && w.undo == [s] + v.undo
      && w.redo == []
      && w.current == None
      && w.canvas == Bake(v.canvas, s)
  {
    var afterDown := TouchStep(v, down).0;
    var started := StrokeValue([SamplePoint(down)], v.color, v.baseWidth, SecondaryHeld(down));
    assert afterDown.current == Some(started);
    assert Run(v, [down]) == afterDown;
    MovesAppendPoints(afterDown, moves);
    var afterMoves := Run(afterDown, moves);
    RunAppend(v, [down], moves);
    RunAppend(v, [down] + moves, [up]);
    assert Run(afterMoves, [up]) == TouchStep(afterMoves, up).0;
  }

  // ----- history -----

  /** undo on an empty stack changes nothing; otherwise the top moves to the redo stack and the bitmap is replayed. */
  lemma UndoMovesTop(v: ViewState)
    ensures v.undo == [] ==> UndoStep(v) == v
    ensures v.undo != [] ==> var w := UndoStep(v);
      && w.undo == v.undo[1..] && w.redo == [v.undo[0]] + v.redo
      && w.canvas == Redraw(v.canvas, w.undo)
  {
  }

  /** redo on an empty stack changes nothing; otherwise it bakes only the redone stroke on top of the bitmap. */
  lemma RedoBakesOnlyRedone(v: ViewState)
    ensures v.redo == [] ==> RedoStep(v) == v
    ensures v.redo != [] ==> var w := RedoStep(v);
      && w.undo == [v.redo[0]] + v.undo && w.redo == v.redo[1..]
      && (v.canvas.Some? ==> w.canvas.value.log == v.canvas.value.log + StrokeSegments(v.redo[0]))
  {
  }

  /** undo followed by redo restores both stacks exactly. */
  lemma UndoThenRedoRestoresStacks(v: ViewState)
    requires v.undo != []
    ensures RedoStep(UndoStep(v)).undo == v.undo
    ensures RedoStep(UndoStep(v)).redo == v.redo
  {
    assert [v.undo[0]] + v.undo[1..] == v.undo;
  }

  /** clearCanvas empties both stacks and the bitmap and announces (false, false). */
  lemma ClearEmptiesEverything(v: ViewState)
    ensures var w := ClearStep(v);
      && w.undo == [] && w.redo == []
      && (w.canvas.Some? ==> w.canvas.value.log == [])
      && (v.listening ==> w.notices == v.notices + [HistoryChanged(false, false)])
  {
  }

  /** setStrokes(getStrokes()) keeps the undo deque; a null list empties it; both empty the redo stack. */
  lemma SetStrokesKeepsOrder(v: ViewState, strokes: seq<StrokeValue>)
    ensures SetStrokesStep(v, Some(strokes)).undo == strokes
    ensures SetStrokesStep(v, Some(v.undo)).undo == v.undo
    ensures SetStrokesStep(v, None).undo == []
    ensures SetStrokesStep(v, Some(strokes)).redo == [] && SetStrokesStep(v, None).redo == []
  {
  }

  /** After setStrokes or a surface change the bitmap is exactly a replay of the undo deque. */
  lemma RasterReplayedAfterLoadOrResize(v: ViewState, strokes: Option<seq<StrokeValue>>, width: int, height: int)
    ensures var w := SetStrokesStep(v, strokes);
      w.canvas.Some? ==> w.canvas.value.log == Replay(w.undo)
    ensures var w := ResizeStep(v, width, height);
      w.canvas == Some(Bitmap(width, height, Replay(v.undo)))
  {
  }

  // ----- invariants kept by every operation -----

  /** The history state most recently announced to the callback, if any. */
  function LastAnnounced(ns: seq<Notice>): Option<(bool, bool)>
    decreases |ns|
  {
    if ns == [] then None
    else if ns[|ns| - 1].HistoryChanged? then Some((ns[|ns| - 1].canUndo, ns[|ns| - 1].canRedo))
    else LastAnnounced(ns[..|ns| - 1])
  }

  /** The bitmap holds exactly the segments of the undo deque's strokes (in some order). */
  ghost predicate RasterHoldsCommitted(v: ViewState) {
    v.canvas.Some? ==> multiset(v.canvas.value.log) == multiset(Replay(v.undo))
  }

  /** The undo/redo buttons, driven by the last announcement, always match the stacks. */
  predicate HistoryInSync(v: ViewState) {
    && (!v.listening ==> v.notices == [])
    && (LastAnnounced(v.notices).None? || LastAnnounced(v.notices) == Some((v.undo != [], v.redo != [])))
  }

  ghost predicate Consistent(v: ViewState) {
    RasterHoldsCommitted(v) && HistoryInSync(v)
  }

  lemma AnnounceSyncs(v: ViewState)
    requires !v.listening ==> v.notices == []
    ensures HistoryInSync(AnnounceHistory(v))
  {
    var w := AnnounceHistory(v);
    if v.listening {
      assert w.notices[..|w.notices| - 1] == v.notices;
    }
  }

  lemma NotifyNewStrokeKeepsLast(v: ViewState, s: StrokeValue)
    ensures LastAnnounced(Notify(v, NewStroke(s)).notices) == LastAnnounced(v.notices)
  {
    var w := Notify(v, NewStroke(s));
    if v.listening {
      assert w.notices[..|w.notices| - 1] == v.notices;
    }
  }

  lemma ReplayPush(s: StrokeValue, undo: seq<StrokeValue>)
    ensures Replay([s] + undo) == StrokeSegments(s) + Replay(undo)
  {
    assert ([s] + undo)[1..] == undo;
  }

  lemma InitialConsistent()
    ensures Consistent(Initial)
  {
  }

  lemma UpKeepsConsistent(v: ViewState, e: MotionEvent)
    requires Consistent(v) && e.tool == Stylus && e.action == Up && v.current.Some?
    ensures Consistent(TouchStep(v, e).0)
  {
    var v1 := v.(eraser := SecondaryHeld(e));
    var s := WithPoint(v1.current.value, SamplePoint(e));
    var pushed := v1.(undo := [s] + v1.undo, canvas := Bake(v1.canvas, s));
    ReplayPush(s, v.undo);
    if v.canvas.Some? {
      calc {
        multiset(pushed.canvas.value.log);
        multiset(v.canvas.value.log) + multiset(StrokeSegments(s));
        multiset(Replay(v.undo)) + multiset(StrokeSegments(s));
        multiset(Replay(pushed.undo));
      }
    }
    NotifyNewStrokeKeepsLast(pushed, s);
    var w := AnnounceHistory(Notify(pushed, NewStroke(s)));
    AnnounceSyncs(Notify(pushed, NewStroke(s)));
    assert TouchStep(v, e).0 == w.(current := None);
  }

  lemma TouchKeepsConsistent(v: ViewState, e: MotionEvent)
    requires Consistent(v)
    ensures Consistent(TouchStep(v, e).0)
  {
    if e.tool == Stylus {
      var v1 := v.(eraser := SecondaryHeld(e));
      match e.action
      case Down =>
        AnnounceSyncs(v1.(current := Some(WithPoint(StrokeValue([], v1.color, v1.baseWidth, v1.eraser), SamplePoint(e))), redo := []));
      case Move =>
      case Up =>
        if v.current.Some? {
          UpKeepsConsistent(v, e);
        }
      case OtherAction =>
    }
  }

  lemma UndoKeepsConsistent(v: ViewState)
    requires Consistent(v)
    ensures Consistent(UndoStep(v))
  {
    if v.undo != [] {
      var moved := v.(undo := v.undo[1..], redo := [v.undo[0]] + v.redo);
      AnnounceSyncs(moved.(canvas := Redraw(moved.canvas, moved.undo)));
    }
  }

  lemma RedoKeepsConsistent(v: ViewState)
    requires Consistent(v)
    ensures Consistent(RedoStep(v))
  {
    if v.redo != [] {
      var s := v.redo[0];
      ReplayPush(s, v.undo);
      AnnounceSyncs(v.(redo := v.redo[1..], undo := [s] + v.undo, canvas := Bake(v.canvas, s)));
    }
  }

  /** Every operation keeps the bitmap's segments equal to the committed ones and the buttons in sync. */
  lemma {:induction false} StepKeepsConsistent(v: ViewState, op: Op)
    requires Consistent(v)
    ensures Consistent(Step(v, op))
  {
    match op
    case Touch(e) => TouchKeepsConsistent(v, e);
    case UndoOp => UndoKeepsConsistent(v);
    case RedoOp => RedoKeepsConsistent(v);
    case ClearOp =>
      AnnounceSyncs(v.(undo := [], redo := [], canvas := Redraw(v.canvas, [])));
    case SetStrokesOp(strokes) =>
      var undo := if strokes.Some? then strokes.value else [];
      AnnounceSyncs(v.(undo := undo, redo := [], canvas := Redraw(v.canvas, undo)));
    case SurfaceChangedOp(width, height) =>
    case SetPenColorOp(color) =>
    case SetStrokeWidthOp(baseWidth) =>
    case SetEraserModeOp(isEraser) =>
    case SetCallbackOp =>
  }

  lemma {:induction false} StepsKeepConsistent(v: ViewState, ops: seq<Op>)
    requires Consistent(v)
    ensures Consistent(Steps(v, ops))
    decreases |ops|
  {
    if ops != [] {
      StepKeepsConsistent(v, ops[0]);
      StepsKeepConsistent(Step(v, ops[0]), ops[1..]);
    }
  }
}

/**
 * redrawAllStrokes iterates the undo deque from its head, so it replays the newest stroke
 * first, while strokes drawn live were baked oldest first. An ink line, an eraser line
 * crossing it and a third line show that undo then redo restores the stacks but paints
 * the erase under the ink it had removed.
 */
module RedrawOrder {
  import opened Wrappers
  import opened Points
  import opened Strokes
  import opened Raster
  import opened Surface
  import opened SurfaceLaws

  /** A straight two-point stylus stroke at full pressure, drawn with the barrel button held when eraser. */
  datatype Line = Line(x1: real, y1: real, x2: real, y2: real, eraser: bool)

  function ButtonFor(l: Line): bv32 {
    if l.eraser then ButtonStylusSecondary else 0
  }

  /** The DOWN and UP events that draw the line. */
  function Gesture(l: Line): seq<Op> {
    [Touch(MotionEvent(Stylus, Down, ButtonFor(l), l.x1, l.y1, 1.0)),
     Touch(MotionEvent(Stylus, Up, ButtonFor(l), l.x2, l.y2, 1.0))]
  }

  /** The stroke the gesture commits with the initial black pen of width 10. */
  function StrokeOf(l: Line): StrokeValue {
    StrokeValue([Point(l.x1, l.y1, 1.0), Point(l.x2, l.y2, 1.0)], ColorBlack, 10.0, l.eraser)
  }

  function SegmentOfLine(l: Line): Segment {
    Segment(l.x1, l.y1, l.x2, l.y2, 10.0, if l.eraser then ClearMode else Ink(ColorBlack))
  }

  /** An ink line at x = 0, an eraser line crossing it at (0, 1), and an unrelated ink line at x = 5. */
  const InkA: Line := Line(0.0, 0.0, 0.0, 2.0, false)
  const EraseB: Line := Line(-1.0, 1.0, 1.0, 1.0, true)
  const InkC: Line := Line(5.0, 0.0, 5.0, 2.0, false)

  lemma LineSegments(l: Line)
    ensures StrokeSegments(StrokeOf(l)) == [SegmentOfLine(l)]
  {
    var s := StrokeOf(l);
    assert StrokeSegments(s) == [SegmentOf(s, s.points[0], s.points[1])];
  }

  lemma StepsPair(v: ViewState, a: Op, b: Op)
    ensures Steps(v, [a, b]) == Step(Step(v, a), b)
  {
    assert [a, b][1..] == [b];
    assert [b][1..] == [];
    assert Steps(v, [a, b]) == Steps(Step(v, a), [b]);
    assert Steps(Step(v, a), [b]) == Steps(Step(Step(v, a), b), []);
  }

  /** Drawing a line pushes its stroke and bakes its one segment onto the bitmap. */
  lemma GestureCommits(v: ViewState, l: Line)
    requires v.current.None? && v.color == ColorBlack && v.baseWidth == 10.0 && v.canvas.Some?
    ensures var w := Steps(v, Gesture(l));
      && w.undo == [StrokeOf(l)] + v.undo
      && w.canvas == Some(v.canvas.value.(log := v.canvas.value.log + [SegmentOfLine(l)]))
      && w.current.None? && w.color == ColorBlack && w.baseWidth == 10.0
  {
    var s := StrokeOf(l);
    LineSegments(l);
    StepsPair(v, Gesture(l)[0], Gesture(l)[1]);
    var down := MotionEvent(Stylus, Down, ButtonFor(l), l.x1, l.y1, 1.0);
    var up := MotionEvent(Stylus, Up, ButtonFor(l), l.x2, l.y2, 1.0);
    assert SecondaryHeld(down) == l.eraser && SecondaryHeld(up) == l.eraser;
    var w1 := Step(v, Touch(down));
    assert w1.current == Some(StrokeValue([Point(l.x1, l.y1, 1.0)], ColorBlack, 10.0, l.eraser));
    assert w1.undo == v.undo && w1.canvas == v.canvas && w1.color == ColorBlack && w1.baseWidth == 10.0;
    var finished := WithPoint(w1.current.value, SamplePoint(up));
    assert finished.points == [Point(l.x1, l.y1, 1.0), Point(l.x2, l.y2, 1.0)];
    assert finished == s;
    var w2 := Step(w1, Touch(up));
    assert w2.undo == [s] + v.undo;
    assert w2.canvas == Bake(v.canvas, s);
  }

  /** The view after it is sized and the three lines are drawn in the order A, B, C. */
  function ThreeLines(): ViewState {
    Steps(Steps(Steps(Steps(Initial, [SurfaceChangedOp(100, 100)]), Gesture(InkA)), Gesture(EraseB)), Gesture(InkC))
  }

  lemma ThreeLinesDrawn()
    ensures ThreeLines().undo == [StrokeOf(InkC), StrokeOf(EraseB), StrokeOf(InkA)]
    ensures ThreeLines().canvas == Some(Bitmap(100, 100, [SegmentOfLine(InkA), SegmentOfLine(EraseB), SegmentOfLine(InkC)]))
  {
    var v0 := Steps(Initial, [SurfaceChangedOp(100, 100)]);
    assert [SurfaceChangedOp(100, 100)][1..] == [];
    assert v0 == Initial.(canvas := Some(Bitmap(100, 100, [])));
    GestureCommits(v0, InkA);
    var v1 := Steps(v0, Gesture(InkA));
    assert [] + [SegmentOfLine(InkA)] == [SegmentOfLine(InkA)];
    GestureCommits(v1, EraseB);
    var v2 := Steps(v1, Gesture(EraseB));
    assert [SegmentOfLine(InkA)] + [SegmentOfLine(EraseB)] == [SegmentOfLine(InkA), SegmentOfLine(EraseB)];
    GestureCommits(v2, InkC);
    assert [SegmentOfLine(InkA), SegmentOfLine(EraseB)] + [SegmentOfLine(InkC)]
        == [SegmentOfLine(InkA), SegmentOfLine(EraseB), SegmentOfLine(InkC)];
  }

  /** Undoing C replays the remaining deque newest first: the eraser line B before the ink line A. */
  lemma UndoReplaysNewestFirst(drawn: ViewState)
    requires drawn.undo == [StrokeOf(InkC), StrokeOf(EraseB), StrokeOf(InkA)]
    requires drawn.canvas.Some? && drawn.canvas.value.width == 100 && drawn.canvas.value.height == 100
    ensures UndoStep(drawn).canvas == Some(Bitmap(100, 100, [SegmentOfLine(EraseB), SegmentOfLine(InkA)]))
    ensures UndoStep(drawn).redo == [StrokeOf(InkC)] + drawn.redo
  {
    var a, b := StrokeOf(InkA), StrokeOf(EraseB);
    LineSegments(InkA);
    LineSegments(EraseB);
    assert drawn.undo[1..] == [b, a];
    assert [b, a][1..] == [a];
    assert [a][1..] == [];
    assert Replay([a]) == StrokeSegments(a) + Replay([]) == [SegmentOfLine(InkA)];
    assert Replay([b, a]) == StrokeSegments(b) + Replay([a]) == [SegmentOfLine(EraseB), SegmentOfLine(InkA)];
    assert UndoStep(drawn).canvas == Redraw(drawn.canvas, [b, a]);
  }

  /**
   * From the bitmap of A, B, C drawn in that order, undo then redo gives back both stacks,
   * but the bitmap is no longer the one drawn: the eraser line is now painted before the
   * ink line it crossed, so the ink it had erased at (0, 1) shows again.
   */
  lemma UndoThenRedoReordersBitmap(drawn: ViewState)
    requires drawn.undo == [StrokeOf(InkC), StrokeOf(EraseB), StrokeOf(InkA)]
    requires drawn.canvas == Some(Bitmap(100, 100, [SegmentOfLine(InkA), SegmentOfLine(EraseB), SegmentOfLine(InkC)]))
    ensures var back := RedoStep(UndoStep(drawn));
      && back.undo == drawn.undo && back.redo == drawn.redo
      && back.canvas == Some(Bitmap(100, 100, [SegmentOfLine(EraseB), SegmentOfLine(InkA), SegmentOfLine(InkC)]))
      && drawn.canvas.value.log[0].paint == Ink(ColorBlack) && drawn.canvas.value.log[1].paint == ClearMode
      && back.canvas.value.log[0].paint == ClearMode && back.canvas.value.log[1].paint == Ink(ColorBlack)
  {
    UndoReplaysNewestFirst(drawn);
    UndoThenRedoRestoresStacks(drawn);
    LineSegments(InkC);
    var undone := UndoStep(drawn);
    assert undone.redo[0] == StrokeOf(InkC);
    assert [SegmentOfLine(EraseB), SegmentOfLine(InkA)] + [SegmentOfLine(InkC)]
        == [SegmentOfLine(EraseB), SegmentOfLine(InkA), SegmentOfLine(InkC)];
  }

  /** Drawing A, B, C on a freshly sized view, then undo and redo, leaves B's erase under A's ink. */
  lemma ThreeLinesUndoRedo()
    ensures RedoStep(UndoStep(ThreeLines())).undo == ThreeLines().undo
    ensures RedoStep(UndoStep(ThreeLines())).canvas
        == Some(Bitmap(100, 100, [SegmentOfLine(EraseB), SegmentOfLine(InkA), SegmentOfLine(InkC)]))
    ensures RedoStep(UndoStep(ThreeLines())).canvas != ThreeLines().canvas
  {
    ThreeLinesDrawn();
    UndoThenRedoReordersBitmap(ThreeLines());
  }
}
