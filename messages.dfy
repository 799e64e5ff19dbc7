/**
 * The outbound sync messages: the objects DrawingActivity hands to Gson before sending
 * the resulting text. What Gson writes for them is not modelled.
 */
module Messages {
  import opened Strokes

  /** A draw message (type "draw", field data) or a control message (type "control", field event_name). */
  datatype Message = Draw(data: StrokeValue) | Control(eventName: string) {
    function Type(): string {
      if Draw? then "draw" else "control"
    }
  }

  const ClearCanvasEvent: string := "clear_canvas"
}
