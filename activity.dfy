/**
 * DrawingActivity: the decisions the screen makes around the view, the file store and
 * the socket: which save path to take, the save-as name, the load outcome, the eraser
 * toggle, the width slider, the connect address and the outgoing messages.
 */
module Activity {
  import opened Wrappers
  import opened Text
  import opened Strokes
  import opened Surface
  import opened Messages
  import opened Repository
  import opened Socket

  /** Save writes straight to the current file, or opens the save-as dialog. */
  datatype SaveRoute = SaveTo(fileName: string) | AskForName

  /** saveCurrentFile's branch. */
  function SaveRouteFor(currentFileName: Option<string>, forceSaveAs: bool): (r: SaveRoute)
    ensures r.SaveTo? <==> currentFileName.Some? && !forceSaveAs
    ensures r.SaveTo? ==> r.fileName == currentFileName.value
  {
    if currentFileName.Some? && !forceSaveAs then SaveTo(currentFileName.value) else AskForName
  }

  /** The name the save-as dialog accepts: the trimmed input, unless that is empty. */
  function SaveAsName(input: string): (r: Option<string>)
    ensures r.None? <==> forall i :: 0 <= i < |input| ==> IsTrimmed(input[i])
    ensures r.Some? ==> r.value == Trim(input) && r.value != []
  {
    var name := Trim(input);
    if name == [] then None else Some(name)
  }

  /** The width slider: half the progress, but never below 1. */
  function StrokeWidthFor(progress: int): (w: real)
    ensures w >= 1.0
    ensures w == 1.0 || w == progress as real / 2.0
    ensures progress >= 2 ==> w == progress as real / 2.0
  {
    if progress as real / 2.0 > 1.0 then progress as real / 2.0 else 1.0
  }

  /** The connect dialog: the trimmed address with "/ws" appended, or nothing when it is empty. */
  function ConnectAddress(input: string): (r: Option<string>)
    ensures r.None? <==> forall i :: 0 <= i < |input| ==> IsTrimmed(input[i])
    ensures r.Some? ==> EndsWith(r.value, "/ws") && r.value[..|r.value| - 3] == Trim(input)
  {
    var url := Trim(input);
    if url == [] then None
    else
      assert (url + "/ws")[..|url|] == url;
      Some(url + "/ws")
  }

  class DrawingActivity {
    const view: DrawingSurfaceView
    const repository: FileRepository
    const client: WebSocketClient
    var isEraserActive: bool
    var currentFileName: Option<string>

    ghost predicate Valid()
      reads this, client
    {
      client.Valid()
    }

    constructor (view: DrawingSurfaceView, repository: FileRepository)
      ensures Valid() && fresh(client)
      ensures this.view == view && this.repository == repository
      ensures !isEraserActive && currentFileName == None
      ensures client.webSocket == None && !client.hasClient && client.hasStatusListener
      ensures client.statusLog == [] && client.closed == [] && client.sent == []
    {
      this.view := view;
      this.repository := repository;
      var c := new WebSocketClient();
      c.SetStatusListener();
      this.client := c;
      isEraserActive := false;
      currentFileName := None;
    }

    /** Register as the view's callback, then load the file named by the launching intent, if any. */
    method OnCreate(fileToLoad: Option<string>)
      modifies this, view
      ensures var loaded := if fileToLoad.Some? then LoadResult(repository.store, fileToLoad.value) else None;
        var listening := old(view.Model()).(listening := true);
        && currentFileName == (if loaded.Some? then fileToLoad else None)
        && view.Model() == (if loaded.Some? then SetStrokesStep(listening, loaded) else listening)
      ensures isEraserActive == old(isEraserActive)
    {
      view.SetCallback();
      if fileToLoad.Some? {
        currentFileName := fileToLoad;
        var strokes := repository.LoadDrawing(fileToLoad.value);
        if strokes.Some? {
          view.SetStrokes(strokes);
        } else {
          currentFileName := None;
        }
      } else {
        currentFileName := None;
      }
    }

    /** The save button (forceSaveAs false) and the save-as button (true). */
    method SaveCurrentFile(forceSaveAs: bool, writeSucceeds: bool) returns (route: SaveRoute)
      modifies repository
      ensures route == SaveRouteFor(currentFileName, forceSaveAs)
      ensures repository.store == if route.SaveTo?
        then AfterSave(old(repository.store), view.undoStack, route.fileName, writeSucceeds)
        else old(repository.store)
    {
      route := SaveRouteFor(currentFileName, forceSaveAs);
      if currentFileName.Some? && !forceSaveAs {
        var strokes := view.GetStrokes();
        var _ := repository.SaveDrawing(strokes, currentFileName.value, writeSucceeds);
      }
    }

    /**
     * The save-as dialog's confirm button. An empty name is rejected; after a successful
     * save the current file is the file just written, so loading it gives the strokes back.
     */
    method OnSaveAsConfirmed(input: string, writeSucceeds: bool) returns (saved: bool)
      modifies this, repository
      ensures saved <==> SaveAsName(input).Some? && writeSucceeds
      ensures repository.store == if SaveAsName(input).Some?
        then AfterSave(old(repository.store), view.undoStack, Trim(input), writeSucceeds)
        else old(repository.store)
      ensures currentFileName == if saved then Some(JsonName(Trim(input))) else old(currentFileName)
      ensures saved ==> LoadResult(repository.store, currentFileName.value) == Some(view.undoStack)
      ensures isEraserActive == old(isEraserActive)
    {
      var fileName := Trim(input);
      if fileName == [] {
        return false;
      }
      var strokes := view.GetStrokes();
      saved := repository.SaveDrawing(strokes, fileName, writeSucceeds);
      if saved {
        var finalFileName := if EndsWith(Lower(fileName), ".json") then fileName else fileName + ".json";
        currentFileName := Some(finalFileName);
        SaveThenLoad(old(repository.store), strokes, fileName);
      }
    }

    /** The eraser button flips the flag and hands the new value to the view. */
    method OnEraserClick()
      modifies this, view
      ensures isEraserActive == !old(isEraserActive)
      ensures view.Model() == old(view.Model()).(eraser := isEraserActive)
      ensures currentFileName == old(currentFileName)
    {
      isEraserActive := !isEraserActive;
      view.SetEraserMode(isEraserActive);
    }

    /** The black, red and blue buttons. */
    method OnColorClick(color: int)
      requires color == ColorBlack || color == ColorRed || color == ColorBlue
      modifies view
      ensures view.Model() == PenColorStep(old(view.Model()), color)
    {
      view.SetPenColor(color);
    }

    /** The undo and redo buttons hand straight to the view. */
    method OnUndoClick()
      modifies view
      ensures view.Model() == UndoStep(old(view.Model()))
    {
      view.Undo();
    }

    method OnRedoClick()
      modifies view
      ensures view.Model() == RedoStep(old(view.Model()))
    {
      view.Redo();
    }

    method OnProgressChanged(progress: int)
      modifies view
      ensures view.Model() == old(view.Model()).(baseWidth := StrokeWidthFor(progress))
      ensures view.Model().baseWidth >= 1.0
    {
      var strokeWidth := if 1.0 >= progress as real / 2.0 then 1.0 else progress as real / 2.0;
      view.SetStrokeWidth(strokeWidth);
    }

    /**
     * The connect dialog's confirm button. A blank input does nothing at all. Otherwise the
     * client connects to the address; when OkHttp rejects the URL (urlParses false) the
     * exception escapes the listener, reported here as threw.
     */
    method OnConnectConfirmed(input: string, urlParses: bool) returns (threw: bool)
      requires Valid()
      modifies client
      ensures Valid()
      ensures ConnectAddress(input).None? ==> !threw && unchanged(client)
      ensures ConnectAddress(input).Some? ==>
        && (threw <==> !urlParses)
        && client.hasClient
        && client.webSocket == (if urlParses then Some(NormaliseUrl(ConnectAddress(input).value)) else None)
        && client.closed == old(client.closed) + (if old(client.webSocket).Some? then [old(client.webSocket).value] else [])
        && client.statusLog == old(client.statusLog) + (if !client.hasStatusListener then []
                                                        else if old(client.webSocket).Some? then [Disconnected, Connecting]
                                                        else [Connecting])
        && client.hasStatusListener == old(client.hasStatusListener)
        && client.sent == old(client.sent)
    {
      threw := false;
      var url := Trim(input);
      if url != [] {
        threw := client.Connect(url + "/ws", urlParses);
      }
    }

    /** DrawingCallback.onNewStroke: the finished stroke goes out as a draw message. */
    method OnNewStroke(stroke: StrokeValue, socketAccepts: bool)
      requires Valid()
      modifies client
      ensures Valid() && client.webSocket == old(client.webSocket)
      ensures client.sent == old(client.sent) + (if old(client.webSocket).Some? && socketAccepts then [Draw(stroke)] else [])
      ensures client.statusLog == old(client.statusLog) && client.closed == old(client.closed)
      ensures client.hasClient == old(client.hasClient) && client.hasStatusListener == old(client.hasStatusListener)
    {
      SendDrawMessage(stroke, socketAccepts);
    }

    /** The clear button clears the view, then sends the clear_canvas control message. */
    method OnClearClick(socketAccepts: bool)
      requires Valid()
      modifies view, client
      ensures Valid() && client.webSocket == old(client.webSocket)
      ensures view.Model() == ClearStep(old(view.Model()))
      ensures client.sent == old(client.sent) + (if old(client.webSocket).Some? && socketAccepts then [Control(ClearCanvasEvent)] else [])
      ensures client.statusLog == old(client.statusLog) && client.closed == old(client.closed)
      ensures client.hasClient == old(client.hasClient) && client.hasStatusListener == old(client.hasStatusListener)
    {
      view.ClearCanvas();
      SendControlMessage(ClearCanvasEvent, socketAccepts);
    }

    method SendDrawMessage(stroke: StrokeValue, socketAccepts: bool)
      requires Valid()
      modifies client
      ensures Valid() && client.webSocket == old(client.webSocket)
      ensures client.sent == old(client.sent) + (if old(client.webSocket).Some? && socketAccepts then [Draw(stroke)] else [])
      ensures client.statusLog == old(client.statusLog) && client.closed == old(client.closed)
      ensures client.hasClient == old(client.hasClient) && client.hasStatusListener == old(client.hasStatusListener)
    {
      var _ := client.Send(Draw(stroke), socketAccepts);
    }

    method SendControlMessage(event: string, socketAccepts: bool)
      requires Valid()
      modifies client
      ensures Valid() && client.webSocket == old(client.webSocket)
      ensures client.sent == old(client.sent) + (if old(client.webSocket).Some? && socketAccepts then [Control(event)] else [])
      ensures client.statusLog == old(client.statusLog) && client.closed == old(client.closed)
      ensures client.hasClient == old(client.hasClient) && client.hasStatusListener == old(client.hasStatusListener)
    {
      var _ := client.Send(Control(event), socketAccepts);
    }

    /** onDestroy releases the connection: an open socket is closed and the client dropped. */
    method OnDestroy()
      requires Valid()
      modifies client
      ensures Valid() && client.webSocket == None && !client.hasClient
      ensures client.closed == old(client.closed) + (if old(client.webSocket).Some? then [old(client.webSocket).value] else [])
      ensures client.statusLog == old(client.statusLog) + (if client.hasStatusListener then [Disconnected] else [])
      ensures client.hasStatusListener == old(client.hasStatusListener) && client.sent == old(client.sent)
    {
      client.Disconnect();
    }
  }

  /** The two message objects carry their type tags and payloads. */
  lemma MessageShapes(s: StrokeValue)
    ensures Draw(s).Type() == "draw" && Draw(s).data == s
    ensures Control(ClearCanvasEvent).Type() == "control" && Control(ClearCanvasEvent).eventName == "clear_canvas"
  {
  }
}
