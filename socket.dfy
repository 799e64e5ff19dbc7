/**
 * WebSocketClient: the URL rule of connect and the guard that send and disconnect
 * apply to the socket field. The OkHttp connection itself is not modelled: an open
 * socket is represented by the URL it was opened to, and whether it accepts a message
 * is the library's answer, passed in.
 */
module Socket {
  import opened Wrappers
  import opened Text
  import opened Messages

  /** The status strings connect and disconnect report: "正在连接..." and "已断开". */
  datatype Status = Connecting | Disconnected

  predicate HasWebSocketScheme(url: string) {
    StartsWith(url, "ws://") || StartsWith(url, "wss://")
  }

  /** connect's URL rule: "ws://" is put in front unless the URL already names ws:// or wss://. */
  function NormaliseUrl(url: string): (r: string)
    ensures HasWebSocketScheme(r)
    ensures HasWebSocketScheme(url) ==> r == url
    ensures !HasWebSocketScheme(url) ==> |r| == |url| + 5 && r[..5] == "ws://" && r[5..] == url
  {
    if HasWebSocketScheme(url) then url
    else
      assert ("ws://" + url)[..5] == "ws://";
      "ws://" + url
  }

  lemma NormaliseUrlIdempotent(url: string)
    ensures NormaliseUrl(NormaliseUrl(url)) == NormaliseUrl(url)
  {
  }

  class WebSocketClient {
    /** The webSocket field: None when null, else the URL the socket was opened to. */
    var webSocket: Option<string>
    /** Whether the OkHttpClient field is set. */
    var hasClient: bool
    var hasStatusListener: bool
    var statusLog: seq<Status>
    /** Every webSocket.close(1000, "Client disconnected") call, by URL. */
    var closed: seq<string>
    /** The messages an open socket accepted, in order. */
    var sent: seq<Message>

    /** A socket is only ever held together with the client that opened it. */
    ghost predicate Valid()
      reads this
    {
      webSocket.Some? ==> hasClient
    }

    constructor ()
      ensures Valid() && webSocket == None && !hasClient && !hasStatusListener
      ensures statusLog == [] && closed == [] && sent == []
    {
      webSocket := None;
      hasClient := false;
      hasStatusListener := false;
      statusLog, closed, sent := [], [], [];
    }

    method SetStatusListener()
      modifies this
      ensures hasStatusListener
      ensures webSocket == old(webSocket) && hasClient == old(hasClient)
      ensures statusLog == old(statusLog) && closed == old(closed) && sent == old(sent)
    {
      hasStatusListener := true;
    }

    /**
     * Whether OkHttp's Request.Builder accepts the normalised URL is the library's answer,
     * passed in as urlParses. When it does not, the builder throws: by then "connecting"
     * has been reported and the client created, but no socket is opened.
     */
    method Connect(url: string, urlParses: bool) returns (threw: bool)
      requires Valid()
      modifies this
      ensures Valid() && hasClient
      ensures threw <==> !urlParses
      ensures webSocket == if urlParses then Some(NormaliseUrl(url)) else None
      ensures closed == old(closed) + (if old(webSocket).Some? then [old(webSocket).value] else [])
      ensures statusLog == old(statusLog) + (if !hasStatusListener then []
                                             else if old(webSocket).Some? then [Disconnected, Connecting]
                                             else [Connecting])
      ensures hasStatusListener == old(hasStatusListener) && sent == old(sent)
    {
      if webSocket.Some? {
        Disconnect();
      }
      var target := url;
      if !StartsWith(target, "ws://") && !StartsWith(target, "wss://") {
        target := "ws://" + target;
      }
      if hasStatusListener {
        statusLog := statusLog + [Connecting];
      }
      hasClient := true;
      if !urlParses {
        return true;
      }
      webSocket := Some(target);
      threw := false;
    }

    method Disconnect()
      requires Valid()
      modifies this
      ensures Valid() && webSocket == None && !hasClient
      ensures closed == old(closed) + (if old(webSocket).Some? then [old(webSocket).value] else [])
      ensures statusLog == old(statusLog) + (if hasStatusListener then [Disconnected] else [])
      ensures hasStatusListener == old(hasStatusListener) && sent == old(sent)
    {
      if webSocket.Some? {
        closed := closed + [webSocket.value];
        webSocket := None;
      }
      if hasClient {
        hasClient := false;
      }
      if hasStatusListener {
        statusLog := statusLog + [Disconnected];
      }
    }

    /** Without a socket nothing is sent and the answer is false; otherwise the socket's own answer. */
    method Send(message: Message, socketAccepts: bool) returns (ok: bool)
      modifies this
      ensures ok <==> webSocket.Some? && socketAccepts
      ensures sent == old(sent) + (if ok then [message] else [])
      ensures webSocket == old(webSocket) && hasClient == old(hasClient) && hasStatusListener == old(hasStatusListener)
      ensures statusLog == old(statusLog) && closed == old(closed)
    {
      if webSocket.Some? {
        ok := socketAccepts;
        if ok {
          sent := sent + [message];
        }
      } else {
        ok := false;
      }
    }
  }

  /** After disconnect every send fails and sends nothing. */
  method DisconnectThenSend(client: WebSocketClient, message: Message, socketAccepts: bool) returns (ok: bool)
    requires client.Valid()
    modifies client
    ensures !ok && client.sent == old(client.sent)
  {
    client.Disconnect();
    ok := client.Send(message, socketAccepts);
  }
}
