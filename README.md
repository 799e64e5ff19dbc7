# StylusSync drawing core, modelled in Dafny

StylusSync is an Android drawing app. A stylus draws on a `DrawingSurfaceView`. Each finished stroke
is sent to a server over a WebSocket. Drawings are saved as `.json` files and can be loaded again.
This project models the core of the app:

- the view's stroke capture state machine (stylus DOWN / MOVE / UP);
- its two history stacks (undo deque and redo deque) and the history notification;
- the rules by which strokes are baked into the persistent bitmap;
- the rules the screen, the file store, the file list and the WebSocket client apply around it.

Stateful Java classes are Dafny classes with the same fields and methods. The view exposes a ghost
`Model()` of type `ViewState`. Each view method that changes the view's state is proved equal to a
pure step function in module `Surface`. The two bitmap helpers, `CommitStrokeToBitmap` and
`RedrawAllStrokes`, are proved against `Raster.Bake` and `Raster.Redraw`. `GetStrokes` changes
nothing and returns the undo deque. Module `SurfaceLaws` proves what those steps guarantee. `RedrawOrder` gives a concrete
counterexample for the redraw order.

Modules:

- `Points`, `Strokes`: the point value and the stroke (`Stroke.addPoint`).
- `Raster`: the bitmap as a log of drawn segments (no pixels).
- `Surface`: `DrawingSurfaceView` and its step functions.
- `SurfaceLaws`: the laws of those steps, and the invariants every operation keeps.
- `RedrawOrder`: the counterexample for the redraw order.
- `Repository`: `FileRepository` over a name→content map.
- `Socket`: `WebSocketClient`.
- `FileList`: `FileListAdapter`.
- `Messages`: the two outgoing message shapes.
- `Activity`: `DrawingActivity`'s listeners.
- `Text`, `Wrappers`: `String.trim`/`toLowerCase` and `Option`.

Where the code and its stated design differ, the model follows the code:

- `redrawAllStrokes` replays the undo deque from its head, that is newest stroke first. Its comment
  says oldest first. So after undo and then redo, the bitmap's segments come out in a different
  order. `RedrawOrder.UndoThenRedoReordersBitmap` shows this with three one-segment strokes.
- A segment's width is the pressure of its first point times the stroke's base width. There is no
  averaging and no lower bound of 1.
- Every stylus event sets eraser mode from the barrel (secondary) button. This overrides whatever
  the activity's eraser button set. The button's `isEraserActive` flag is never reset, by this or
  by a colour button.
- `connect` hands the normalised URL to OkHttp's `Request.Builder.url`, which throws on a URL it
  cannot parse (for example an address containing a space). By then "connecting" has been reported
  and the client created, but no socket exists, and the exception escapes the connect dialog.
  Whether the URL parses is a parameter (`urlParses`), and the throw is the result `threw`.
- `undo` and `redo` return nothing. A call on an empty stack has no effect and no notification.

The outcome of each foreign call is a parameter: `writeSucceeds`, `deleteSucceeds` and
`socketAccepts` and `urlParses`. Gson is abstracted. A stored file either parses to a stroke list (`Drawing`) or it
does not (`Unparsable`).

## Model

| member | source | states |
|---|---|---|
| Strokes.WithPoint | app/src/main/java/com/example/stylussync/data/Stroke.java:20-22 | appending a point adds exactly one point, at the end; the earlier points, colour, base width and eraser flag are unchanged |
| Strokes.Stroke.constructor | app/src/main/java/com/example/stylussync/data/Stroke.java:13-18 | a new stroke has no points; colour, base width and eraser flag are stored exactly as given |
| Strokes.Stroke.AddPoint | app/src/main/java/com/example/stylussync/data/Stroke.java:20-22 | the stroke's new value is the old one with the point appended (see WithPoint) |
| Surface.SamplePoint | app/src/main/java/com/example/stylussync/data/Point.java:9-13 | the point stores the event's x, y and pressure unchanged, with no clamping of pressure |
| Raster.StrokeSegments | app/src/main/java/com/example/stylussync/view/DrawingSurfaceView.java:147-172 | a stroke with fewer than 2 points draws nothing; otherwise one segment per consecutive pair, from point i to point i+1, with width pressure(i) × base width, CLEAR paint exactly when it is an eraser, and otherwise ink of the stroke's colour |
| Raster.ReplayAppend | app/src/main/java/com/example/stylussync/view/DrawingSurfaceView.java:188-198 | replaying a concatenation draws the first part's segments, then the second's |
| Raster.ReplaySnoc | app/src/main/java/com/example/stylussync/view/DrawingSurfaceView.java:188-198 | replaying one more stroke at the end adds exactly that stroke's segments |
| Surface.DrawingSurfaceView.constructor | app/src/main/java/com/example/stylussync/view/DrawingSurfaceView.java:39-45 | a new view has empty stacks, no stroke in progress, black ink, base width 10, eraser off, no bitmap and no callback |
| Surface.DrawingSurfaceView.SetCallback | app/src/main/java/com/example/stylussync/view/DrawingSurfaceView.java:255-257 | only the callback registration changes |
| Surface.DrawingSurfaceView.OnTouchEvent | app/src/main/java/com/example/stylussync/view/DrawingSurfaceView.java:77-123 | the view's new state and the handled/passed result are those of the touch step for the old state and the event |
| Surface.DrawingSurfaceView.CommitStrokeToBitmap | app/src/main/java/com/example/stylussync/view/DrawingSurfaceView.java:147-172 | with no bitmap nothing changes; otherwise the stroke's segments are appended, in point order, to what the bitmap already holds |
| Surface.DrawingSurfaceView.RedrawAllStrokes | app/src/main/java/com/example/stylussync/view/DrawingSurfaceView.java:188-198 | with no bitmap nothing changes; otherwise the bitmap holds exactly the replay of the undo deque, head (newest) first |
| Surface.DrawingSurfaceView.Undo | app/src/main/java/com/example/stylussync/view/DrawingSurfaceView.java:202-208 | the new state is the undo step of the old one (see UndoMovesTop) |
| Surface.DrawingSurfaceView.Redo | app/src/main/java/com/example/stylussync/view/DrawingSurfaceView.java:210-217 | the new state is the redo step of the old one (see RedoBakesOnlyRedone) |
| Surface.DrawingSurfaceView.UpdateHistoryState | app/src/main/java/com/example/stylussync/view/DrawingSurfaceView.java:219-223 | with a callback, one notification (undo non-empty, redo non-empty) is added; without one nothing changes |
| Surface.DrawingSurfaceView.SurfaceChanged | app/src/main/java/com/example/stylussync/view/DrawingSurfaceView.java:234-241 | a fresh bitmap of the new size is created and holds the replay of the undo deque |
| Surface.DrawingSurfaceView.ClearCanvas | app/src/main/java/com/example/stylussync/view/DrawingSurfaceView.java:259-266 | the new state is the clear step of the old one (see ClearEmptiesEverything) |
| Surface.DrawingSurfaceView.SetPenColor | app/src/main/java/com/example/stylussync/view/DrawingSurfaceView.java:268-271 | the colour is set and eraser mode is switched off; nothing else changes |
| Surface.DrawingSurfaceView.SetStrokeWidth | app/src/main/java/com/example/stylussync/view/DrawingSurfaceView.java:273-275 | only the base width changes |
| Surface.DrawingSurfaceView.SetEraserMode | app/src/main/java/com/example/stylussync/view/DrawingSurfaceView.java:277-279 | only eraser mode changes |
| Surface.DrawingSurfaceView.GetStrokes | app/src/main/java/com/example/stylussync/view/DrawingSurfaceView.java:281-283 | the result is the undo deque in head-to-tail order |
| Surface.DrawingSurfaceView.SetStrokes | app/src/main/java/com/example/stylussync/view/DrawingSurfaceView.java:285-293 | the new state is the set-strokes step of the old one (see SetStrokesKeepsOrder) |
| SurfaceLaws.NonStylusEventIgnored | app/src/main/java/com/example/stylussync/view/DrawingSurfaceView.java:78-80 | an event from any tool but the stylus changes no state and is passed to the superclass |
| SurfaceLaws.StylusEventDecidesEraserMode | app/src/main/java/com/example/stylussync/view/DrawingSurfaceView.java:83 | every stylus event is handled and sets eraser mode to "secondary button held"; the mode set before it has no effect on the outcome |
| SurfaceLaws.DownStartsStroke | app/src/main/java/com/example/stylussync/view/DrawingSurfaceView.java:91-98 | DOWN empties the redo stack before anything is committed, and starts a one-point stroke with the current colour and width and the event's eraser mode |
| SurfaceLaws.StrayEventPushesNothing | app/src/main/java/com/example/stylussync/view/DrawingSurfaceView.java:100-120 | MOVE or UP with no stroke in progress changes only eraser mode: nothing is pushed or drawn |
| SurfaceLaws.MovesAppendPoints | app/src/main/java/com/example/stylussync/view/DrawingSurfaceView.java:100-106 | a run of stylus MOVEs during a stroke appends their points in order and changes nothing else but eraser mode |
| SurfaceLaws.GestureCommitsOneStroke | app/src/main/java/com/example/stylussync/view/DrawingSurfaceView.java:91-120 | DOWN, k MOVEs, UP pushes exactly one stroke of k+2 points, with the modes in force at DOWN, on top of the undo deque; it empties redo, clears the stroke in progress and bakes that one stroke onto the bitmap |
| SurfaceLaws.UndoMovesTop | app/src/main/java/com/example/stylussync/view/DrawingSurfaceView.java:202-208 | undo on an empty stack changes nothing; otherwise the undo top becomes the redo top, the rest of both stacks is kept, and the bitmap is a replay of the remaining deque |
| SurfaceLaws.RedoBakesOnlyRedone | app/src/main/java/com/example/stylussync/view/DrawingSurfaceView.java:210-217 | redo on an empty stack changes nothing; otherwise the redo top becomes the undo top and only its segments are appended to the bitmap |
| SurfaceLaws.UndoThenRedoRestoresStacks | app/src/main/java/com/example/stylussync/view/DrawingSurfaceView.java:202-217 | undo followed by redo restores both stacks exactly |
| SurfaceLaws.ClearEmptiesEverything | app/src/main/java/com/example/stylussync/view/DrawingSurfaceView.java:259-266 | clear empties both stacks and the bitmap log, and announces (false, false) to a registered callback |
| SurfaceLaws.SetStrokesKeepsOrder | app/src/main/java/com/example/stylussync/view/DrawingSurfaceView.java:281-293 | setStrokes makes the undo deque equal the given list in order (null gives empty) and empties redo; setStrokes(getStrokes()) keeps the deque |
| SurfaceLaws.RasterReplayedAfterLoadOrResize | app/src/main/java/com/example/stylussync/view/DrawingSurfaceView.java:234-241 | after setStrokes or a surface change, the bitmap is exactly a full replay of the undo deque |
| SurfaceLaws.AnnounceSyncs | app/src/main/java/com/example/stylussync/view/DrawingSurfaceView.java:219-223 | after a history notice, the last notice carries (undo non-empty, redo non-empty) |
| SurfaceLaws.InitialConsistent | app/src/main/java/com/example/stylussync/view/DrawingSurfaceView.java:39-45 | a new view satisfies the invariant: the bitmap holds the segments of the committed strokes, and the last notice matches the stacks |
| SurfaceLaws.UpKeepsConsistent | app/src/main/java/com/example/stylussync/view/DrawingSurfaceView.java:108-120 | committing a stroke on UP keeps the invariant |
| SurfaceLaws.TouchKeepsConsistent | app/src/main/java/com/example/stylussync/view/DrawingSurfaceView.java:77-123 | every touch event keeps the invariant |
| SurfaceLaws.UndoKeepsConsistent | app/src/main/java/com/example/stylussync/view/DrawingSurfaceView.java:202-208 | undo keeps the invariant |
| SurfaceLaws.RedoKeepsConsistent | app/src/main/java/com/example/stylussync/view/DrawingSurfaceView.java:210-217 | redo keeps the invariant |
| SurfaceLaws.StepKeepsConsistent | app/src/main/java/com/example/stylussync/view/DrawingSurfaceView.java:77-293 | every state-changing entry point of the view keeps the invariant |
| SurfaceLaws.StepsKeepConsistent | app/src/main/java/com/example/stylussync/view/DrawingSurfaceView.java:77-293 | any sequence of entry-point calls keeps the invariant |
| RedrawOrder.ThreeLinesDrawn | app/src/main/java/com/example/stylussync/view/DrawingSurfaceView.java:91-120 | drawing an ink line A, an eraser line B crossing it, and an ink line C on a sized surface leaves C, B, A on the deque and A, B, C's segments on the bitmap, in drawing order |
| RedrawOrder.UndoReplaysNewestFirst | app/src/main/java/com/example/stylussync/view/DrawingSurfaceView.java:188-208 | undoing C replays the rest of the deque head first: B's erase is drawn before A's ink |
| RedrawOrder.UndoThenRedoReordersBitmap | app/src/main/java/com/example/stylussync/view/DrawingSurfaceView.java:188-217 | from that state, undo then redo restores both stacks, but the bitmap now has the erase painted before the ink it crossed (CLEAR then ink, where the drawing had ink then CLEAR), so the erased ink shows again |
| RedrawOrder.ThreeLinesUndoRedo | app/src/main/java/com/example/stylussync/view/DrawingSurfaceView.java:194 | this happens on a state reached from the initial view: the stacks come back, the bitmap does not |
| Text.Lower | app/src/main/java/com/example/stylussync/storage/FileRepository.java:50 | lower-casing keeps the length and maps each character by LowerChar: ASCII capitals to their lower case, every other character unchanged |
| Text.Trim | app/src/main/java/com/example/stylussync/activity/DrawingActivity.java:202 | trim removes exactly the leading and trailing characters ≤ U+0020; the result is empty exactly when every character is such a blank |
| Repository.JsonName | app/src/main/java/com/example/stylussync/storage/FileRepository.java:50 | the saved name always ends in ".json" (any case); the given name is a prefix; it is unchanged exactly when it already ends in ".json", otherwise ".json" is appended |
| Repository.JsonNameIdempotent | app/src/main/java/com/example/stylussync/storage/FileRepository.java:50 | normalising twice equals normalising once |
| Repository.LoadResult | app/src/main/java/com/example/stylussync/storage/FileRepository.java:67-86 | load gives the stored strokes exactly when the file exists and parses; otherwise null, never a partial list |
| Repository.SaveThenLoad | app/src/main/java/com/example/stylussync/storage/FileRepository.java:48-86 | after a successful save, loading under the normalised name gives the saved strokes back |
| Repository.LoadDoesNotNormalise | app/src/main/java/com/example/stylussync/storage/FileRepository.java:67-70 | load uses the name verbatim: saving under a name without ".json" leaves what loading that same name gives unchanged |
| Repository.FileRepository.constructor | app/src/main/java/com/example/stylussync/storage/FileRepository.java:31-35 | the repository works over the given store |
| Repository.FileRepository.SaveDrawing | app/src/main/java/com/example/stylussync/storage/FileRepository.java:48-64 | a successful write stores the strokes under the normalised name; the outcome reported is the write's; a failed write changes nothing |
| Repository.FileRepository.LoadDrawing | app/src/main/java/com/example/stylussync/storage/FileRepository.java:67-86 | the result is LoadResult of the store and the verbatim name |
| Repository.FileRepository.ListDrawingFiles | app/src/main/java/com/example/stylussync/storage/FileRepository.java:89-95 | a name is listed exactly when it is stored and ends in ".json" (any case), and each name appears once |
| Repository.FileRepository.DeleteDrawing | app/src/main/java/com/example/stylussync/storage/FileRepository.java:97-107 | deleting a missing file reports false and changes nothing; an existing one is removed exactly when the deletion succeeds |
| Socket.NormaliseUrl | app/src/main/java/com/example/stylussync/network/WebSocketClient.java:38-40 | a URL starting with "ws://" or "wss://" is kept unchanged; any other is prefixed with exactly "ws://"; the result always has one of the two schemes |
| Socket.NormaliseUrlIdempotent | app/src/main/java/com/example/stylussync/network/WebSocketClient.java:38-40 | normalising twice equals normalising once |
| Socket.WebSocketClient.constructor | app/src/main/java/com/example/stylussync/network/WebSocketClient.java:19-26 | a new client has no socket, no OkHttp client and no listener, and nothing has been reported, closed or sent |
| Socket.WebSocketClient.SetStatusListener | app/src/main/java/com/example/stylussync/network/WebSocketClient.java:28-30 | only the listener registration changes |
| Socket.WebSocketClient.Connect | app/src/main/java/com/example/stylussync/network/WebSocketClient.java:32-59 | an open socket is closed first; the listener hears "disconnected" (if a socket was open) and then "connecting"; the client is created; if OkHttp accepts the URL the socket targets the normalised URL, otherwise the call throws and no socket remains |
| Socket.WebSocketClient.Disconnect | app/src/main/java/com/example/stylussync/network/WebSocketClient.java:61-74 | an open socket is closed; afterwards there is no socket and no client; the listener always hears "disconnected" |
| Socket.WebSocketClient.Send | app/src/main/java/com/example/stylussync/network/WebSocketClient.java:76-84 | without a socket the result is false and nothing is sent; with one, the message is sent exactly when the socket accepts it |
| Socket.DisconnectThenSend | app/src/main/java/com/example/stylussync/network/WebSocketClient.java:61-84 | after disconnect, send returns false and sends nothing |
| FileList.RemoveAt | app/src/main/java/com/example/stylussync/activity/FileListAdapter.java:66-71 | removing position i shortens the list by one; the elements before i keep their place, and those after it move down one |
| FileList.FileListAdapter.constructor | app/src/main/java/com/example/stylussync/activity/FileListAdapter.java:18 | the list starts empty |
| FileList.FileListAdapter.GetItemCount | app/src/main/java/com/example/stylussync/activity/FileListAdapter.java:54-56 | the count is the list's length |
| FileList.FileListAdapter.SetFiles | app/src/main/java/com/example/stylussync/activity/FileListAdapter.java:58-64 | the list becomes the given names in order; a null array leaves it empty |
| FileList.FileListAdapter.RemoveItem | app/src/main/java/com/example/stylussync/activity/FileListAdapter.java:66-71 | an in-range position removes exactly that element (see RemoveAt); a negative or out-of-range one leaves the list unchanged |
| Activity.SaveRouteFor | app/src/main/java/com/example/stylussync/activity/DrawingActivity.java:132-146 | save writes to the current file exactly when there is one and save-as was not forced; otherwise it goes to the save-as dialog |
| Activity.SaveAsName | app/src/main/java/com/example/stylussync/activity/DrawingActivity.java:201-206 | the save-as input is rejected exactly when it is all blanks; otherwise the name is the trimmed input, which is non-empty |
| Activity.StrokeWidthFor | app/src/main/java/com/example/stylussync/activity/DrawingActivity.java:102-105 | the slider's width is never below 1; it is progress/2 whenever that is at least 1 |
| Activity.ConnectAddress | app/src/main/java/com/example/stylussync/activity/DrawingActivity.java:182-187 | an all-blank input gives no address; otherwise the address is the trimmed input followed by "/ws" |
| Activity.MessageShapes | app/src/main/java/com/example/stylussync/activity/DrawingActivity.java:222-240 | a draw message has type "draw" and carries the stroke; the clear message has type "control" and event name "clear_canvas" |
| Activity.DrawingActivity.constructor | app/src/main/java/com/example/stylussync/activity/DrawingActivity.java:39-56 | eraser flag off, no current file, a fresh client with its listener set, no socket and no OkHttp client, and nothing yet reported, closed or sent |
| Activity.DrawingActivity.OnCreate | app/src/main/java/com/example/stylussync/activity/DrawingActivity.java:112-129 | the view gets its callback; a load result replaces the view's strokes and keeps the name; a null result clears the name and leaves the strokes alone |
| Activity.DrawingActivity.SaveCurrentFile | app/src/main/java/com/example/stylussync/activity/DrawingActivity.java:132-146 | the route is SaveRouteFor; a direct save writes the view's strokes under the current name; the dialog route changes no file |
| Activity.DrawingActivity.OnSaveAsConfirmed | app/src/main/java/com/example/stylussync/activity/DrawingActivity.java:201-217 | an empty trimmed name saves nothing; otherwise the strokes are saved under that name; after a successful save the current name is the ".json"-normalised name, and loading it gives the view's strokes back |
| Activity.DrawingActivity.OnEraserClick | app/src/main/java/com/example/stylussync/activity/DrawingActivity.java:86-90 | the flag flips and the view's eraser mode becomes the new flag; nothing else in the view changes |
| Activity.DrawingActivity.OnColorClick | app/src/main/java/com/example/stylussync/activity/DrawingActivity.java:79-81 | the three colour buttons set that colour on the view, which switches eraser mode off |
| Activity.DrawingActivity.OnUndoClick | app/src/main/java/com/example/stylussync/activity/DrawingActivity.java:97 | the undo button performs the view's undo |
| Activity.DrawingActivity.OnRedoClick | app/src/main/java/com/example/stylussync/activity/DrawingActivity.java:98 | the redo button performs the view's redo |
| Activity.DrawingActivity.OnProgressChanged | app/src/main/java/com/example/stylussync/activity/DrawingActivity.java:102-105 | the view's base width becomes StrokeWidthFor(progress), which is at least 1 |
| Activity.DrawingActivity.OnConnectConfirmed | app/src/main/java/com/example/stylussync/activity/DrawingActivity.java:182-187 | a blank input changes nothing in the client; otherwise the client connects to the trimmed input plus "/ws", with connect's close, status and throw effects |
| Activity.DrawingActivity.OnNewStroke | app/src/main/java/com/example/stylussync/activity/DrawingActivity.java:158-162 | a finished stroke is sent as a draw message when a socket is open and accepts it; the client's socket, OkHttp client, listener, status and close logs are unchanged |
| Activity.DrawingActivity.OnClearClick | app/src/main/java/com/example/stylussync/activity/DrawingActivity.java:82-85 | the view is cleared first, then the clear_canvas control message is sent; the client's socket, OkHttp client, listener, status and close logs are unchanged |
| Activity.DrawingActivity.SendDrawMessage | app/src/main/java/com/example/stylussync/activity/DrawingActivity.java:222-230 | the message object handed over is Draw(stroke), recorded as sent exactly when a socket is open and accepts it; the socket is left as it was; the client's socket, OkHttp client, listener, status and close logs are unchanged |
| Activity.DrawingActivity.SendControlMessage | app/src/main/java/com/example/stylussync/activity/DrawingActivity.java:232-240 | the message object handed over is Control(event), recorded as sent exactly when a socket is open and accepts it; the socket is left as it was; the client's socket, OkHttp client, listener, status and close logs are unchanged |
| Activity.DrawingActivity.OnDestroy | app/src/main/java/com/example/stylussync/activity/DrawingActivity.java:242-248 | an open socket is closed and no socket or client remains; the listener hears "disconnected"; nothing is sent |

## Left out

- Pixels: the Android `Canvas`, `Paint`, `Bitmap` and `Path` objects, anti-aliasing, round caps, `quadTo` smoothing and PorterDuff CLEAR compositing. These are foreign graphics calls. The bitmap is the list of `drawLine` calls made on it since it was last cleared.
- The draw thread, `run()`, `surfaceCreated`, `surfaceDestroyed` and `mIsDrawing`. This is concurrency with no locking to state.
- The live preview (`mCurrentPath`, `drawCurrentPath`). It is a transient overlay with no lasting effect.
- Gson's text for the outgoing messages. `Messages.Message` is the object handed to `gson.toJson`. The draw and control messages are instances of classes declared inside `sendDrawMessage` and `sendControlMessage`, and Gson's default handling of such local classes is not modelled, so the text that actually goes over the socket is not stated.
- Gson. A stored file is either a parsed stroke list or unparsable. The model assumes that a file written by `saveDrawing` (`gson.toJson`) parses back with `gson.fromJson` to exactly the strokes written. This assumption is not proved, because the library is not part of this model. Repository.SaveThenLoad and the load-back clause of Activity.DrawingActivity.OnSaveAsConfirmed rest on it. Only the file-name half is derived: the file is found under `JsonName(name)`.
- OkHttp's connection and the listener callbacks (`onOpen`, `onMessage`, `onClosing`, `onClosed`, `onFailure`) with their status strings. An open socket is the URL it was opened to. Whether a message is accepted is a parameter.
- Real file I/O, `AppExecutors` thread hops, partial writes and I/O exceptions. A write or deletion reports the outcome it is given; `dir.list()` returning null and subdirectories are not modelled.
- Toasts, titles, dialogs, button enabling (`onHistoryChanged`), `updateEraserButtonUI`, the status text view and the timestamp default in the save-as dialog. These are UI only.
- FileListActivity, and the RecyclerView notifications and item-click listener of FileListAdapter. They are UI.
- Socket.WebSocketClient.Connect: OkHttp's URL validation is a parameter, and its IllegalArgumentException is the result `threw`; the app crash that follows when it escapes the dialog listener is not modelled.
- Text.Lower: only ASCII letters are lower-cased, unlike Java's full Unicode `toLowerCase`; this is enough for the ".json" test, whose suffix is ASCII.
- Surface.DrawingSurfaceView.SurfaceChanged: requires a positive size, because `Bitmap.createBitmap` throws on an empty one.
- Java `int` and `float` widths: coordinates, pressure and widths are reals, and colours are unbounded integers. No rounding is modelled.
- Object identity: the undo and redo deques hold stroke values, so the aliasing between the pushed stroke object and the one given to the callback is not modelled.
- Null strokes and null point lists inside a loaded file are not modelled; a parsed file always gives a list of strokes.
- `setCallback(null)`: the model registers a callback and never removes it.
