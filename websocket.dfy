/**
 * The websocket transport of plugins/websocket.ts: when the `websocket`
 * option is set it replaces the client's `connect`, `send` and `disconnect`
 * with hooks over one nullable `websocket` variable, and turns the socket's
 * `open`, `message` and `error` events into client events. The WebSocket
 * object, URL parsing and the message parser are abstract.
 */
module Websocket {
  import opened Wrappers
  import opened Protocol
  import opened Errors
  import opened Encoder
  import opened Text
  import opened Client
  import Utf8

  const InsecurePort: int := 80
  const TlsPort: int := 443

  /** A WebSocket object, told apart from other sockets by `id`. */
  datatype Socket = Socket(id: nat)

  /** The parts of a parsed URL the hook reads. */
  datatype Url = Url(hostname: string, pathname: string)

  /** What `new WebSocket(url)` did: it made a socket, or it threw. */
  datatype Construction = Constructed(socket: Socket) | ConstructionThrew(fault: Fault)

  /** What the connect hook did: it returned null, or `new URL` threw out of it. */
  datatype ConnectReturn = ReturnedNull | InvalidUrl

  /** What `parseMessage` did with an incoming frame. */
  datatype Parsing = Parsed(msg: Message) | ParseThrew(fault: Fault)

  /**
   * One call the hooks make on WebSockets: `new WebSocket(url)`,
   * `websocket.send(bytes)` or `websocket.close(code)`.
   */
  datatype SocketCall =
    | Construct(url: string)
    | SendFrame(socket: Socket, bytes: seq<Utf8.byte>)
    | CloseSocket(socket: Socket, code: int)

  /**
   * The port default of the connect hook as written, `port ?? tls ? 443 : 80`,
   * which JavaScript reads as `(port ?? tls) ? 443 : 80`: a given non-zero port
   * becomes 443, a given 0 becomes 80, and only an absent port looks at `tls`.
   * (A number is truthy unless it is 0; NaN does not occur here.)
   */
  function PortAsWritten(port: Option<int>, tls: Option<bool>): (p: int)
    ensures p == TlsPort || p == InsecurePort
    ensures port.Some? ==> (p == TlsPort <==> port.value != 0)
    ensures port.None? ==> (p == TlsPort <==> tls == Some(true))
  {
    var chosen := match port
      case Some(n) => n != 0
      case None => tls == Some(true);
    if chosen then TlsPort else InsecurePort
  }

  /**
   * The evidently intended default, `port ?? (tls ? 443 : 80)`: a given port
   * is kept, and an absent one defaults by `tls`.
   */
  function IntendedPort(port: Option<int>, tls: Option<bool>): (p: int)
    ensures port.Some? ==> p == port.value
    ensures port.None? ==> p == (if tls == Some(true) then TlsPort else InsecurePort)
  {
    match port
    case Some(n) => n
    case None => if tls == Some(true) then TlsPort else InsecurePort
  }

  /** The two agree exactly when no port is given. */
  lemma PortDefaultsAgree(tls: Option<bool>)
    ensures PortAsWritten(None, tls) == IntendedPort(None, tls)
  {
  }

  /** As written, the usual plain IRC port 6667 is replaced by 443, without TLS. */
  lemma PortAsWrittenDiscardsPort()
    ensures PortAsWritten(Some(6667), Some(false)) == TlsPort
    ensures IntendedPort(Some(6667), Some(false)) == 6667
  {
  }

  /** The URL text the connect hook builds: `${scheme}${serverAndPath}:${port}`. */
  function WebsocketUrl(serverAndPath: string, port: int, tls: Option<bool>): string
  {
    var scheme := if tls == Some(true) then "wss://" else "ws://";
    scheme + serverAndPath + ":" + NumberToString(port)
  }

  /**
   * The layout of that URL: the scheme by `tls` (`wss://` exactly with TLS),
   * then server and path, then ':'; for a non-negative port the text after
   * the last ':' is exactly the port's decimal digits.
   */
  lemma WebsocketUrlLayout(serverAndPath: string, port: int, tls: Option<bool>)
    ensures var u := WebsocketUrl(serverAndPath, port, tls);
            var scheme := if tls == Some(true) then "wss://" else "ws://";
            && |scheme| + |serverAndPath| < |u|
            && u[..|scheme|] == scheme
            && u[|scheme|..|scheme| + |serverAndPath|] == serverAndPath
            && u[|scheme| + |serverAndPath|] == ':'
    ensures port >= 0 ==>
              var u := WebsocketUrl(serverAndPath, port, tls);
              var k := |u| - |NatToString(port)|;
              1 <= k && u[k - 1] == ':' && u[k..] == NatToString(port)
  {
    var scheme := if tls == Some(true) then "wss://" else "ws://";
    var head := scheme + serverAndPath + ":";
    UrlLayout(scheme, serverAndPath, NumberToString(port));
    if port >= 0 {
      assert NumberToString(port) == NatToString(port);
      PortSuffix(head, NatToString(port));
    }
  }

  /** The digits after the URL's last ':' read back as the port the hook chose. */
  lemma UrlPortReadsBack(serverAndPath: string, port: nat, tls: Option<bool>)
    ensures var u := WebsocketUrl(serverAndPath, port, tls);
            var k := |u| - |NatToString(port)|;
            && 1 <= k && u[k - 1] == ':'
            && (forall i :: k <= i < |u| ==> '0' <= u[i] <= '9')
            && DigitsValue(u[k..]) == port
  {
    WebsocketUrlLayout(serverAndPath, port, tls);
    NatToStringValue(port);
  }

  lemma UrlLayout(scheme: string, serverAndPath: string, digits: string)
    ensures var u := scheme + serverAndPath + ":" + digits;
            && |scheme| + |serverAndPath| < |u|
            && u[..|scheme|] == scheme
            && u[|scheme|..|scheme| + |serverAndPath|] == serverAndPath
            && u[|scheme| + |serverAndPath|] == ':'
  {
    var u := scheme + serverAndPath + ":" + digits;
    assert u == scheme + (serverAndPath + (":" + digits));
  }

  lemma PortSuffix(head: string, digits: string)
    requires head != [] && head[|head| - 1] == ':'
    ensures var u := head + digits;
            var k := |u| - |digits|;
            1 <= k && u[k - 1] == ':' && u[k..] == digits
  {
    var u := head + digits;
    assert u[|head|..] == digits;
  }

  /**
   * What the disconnect hook emits: with a socket, `disconnected` when closing
   * it succeeds and the `close` error when it throws; without one,
   * `disconnected` all the same.
   */
  function DisconnectEvents(websocket: Option<Socket>, addr: RemoteAddr, closing: Outcome): (r: seq<Event>)
    ensures websocket.None? || closing.Done? ==> r == [Disconnected(addr)]
    ensures websocket.Some? && closing.Threw? ==> r == FaultEvents(ClientErrorType.Close, closing.fault)
  {
    if websocket.None? then [Disconnected(addr)]
    else match closing
      case Done => [Disconnected(addr)]
      case Threw(f) => FaultEvents(ClientErrorType.Close, f)
  }

  /**
   * Unlike the core `close()`, which emits nothing once the connection is gone,
   * a second websocket disconnect emits `disconnected` again.
   */
  lemma DisconnectNotIdempotent(addr: RemoteAddr, closing: Outcome, closing': Outcome)
    ensures DisconnectEvents(None, addr, closing') == [Disconnected(addr)]
    ensures CloseEvents(None, addr, closing') == []
  {
  }

  /**
   * What the message handler emits: one `raw:<command>` event for a frame that
   * parses, and for one that does not, no raw event but the `read` error.
   */
  function MessageEvents(parsing: Parsing): (r: seq<Event>)
    ensures parsing.Parsed? ==> |r| == 1 && r[0] == RawEvent(parsing.msg)
                                && EventName(r[0]) == "raw:" + parsing.msg.command
    ensures parsing.ParseThrew? ==> (forall e :: e in r ==> !e.RawEvent?) && r == FaultEvents(ClientErrorType.Read, parsing.fault)
  {
    match parsing
    case Parsed(msg) => [RawEvent(msg)]
    case ParseThrew(f) => FaultEvents(ClientErrorType.Read, f)
  }

  class WebsocketHooks {
    /** The client whose state the hooks update and on which they emit. */
    const client: CoreClient
    /** The closure variable `websocket`. */
    var websocket: Option<Socket>
    /** Every call the hooks made on a WebSocket, in order. */
    var calls: seq<SocketCall>

    constructor (client: CoreClient)
      ensures this.client == client
      ensures websocket == None && calls == []
    {
      this.client := client;
      websocket := None;
      calls := [];
    }

    /**
     * The connect hook `(serverAndPath, port, tls)`. It builds the URL, and when
     * `new URL` throws nothing else happens. Otherwise it closes the current
     * socket with code 1000, stores the new address (the URL's host name and
     * path) and emits `connecting` with it, then constructs the socket. A
     * construction failure emits the `connect` error and leaves the old socket in
     * `websocket`. The hook returns null either way; `connected` comes later from
     * the open handler.
     */
    method Connect(serverAndPath: string, port: Option<int>, tls: Option<bool>,
                   parseUrl: string -> Option<Url>, construction: Construction)
      returns (result: ConnectReturn)
      modifies this, client
      ensures var p := IntendedPort(port, tls);
              var text := WebsocketUrl(serverAndPath, p, tls);
              match parseUrl(text)
              case None =>
                && result == InvalidUrl
                && websocket == old(websocket) && calls == old(calls)
                && client.emitted == old(client.emitted) && client.remoteAddr == old(client.remoteAddr)
              case Some(url) =>
                var addr := RemoteAddr(url.hostname, p, tls, Some(url.pathname));
                && result == ReturnedNull
                && client.remoteAddr == addr
                && calls == old(calls) + (if old(websocket).Some? then [CloseSocket(old(websocket).value, 1000)] else []) + [Construct(text)]
                && client.emitted == old(client.emitted) + [Connecting(addr)]
                   + (if construction.ConstructionThrew? then FaultEvents(ClientErrorType.Connect, construction.fault) else [])
                && websocket == (if construction.Constructed? then Some(construction.socket) else old(websocket))
      ensures client.conn == old(client.conn)
      ensures client.transport == old(client.transport)
    {
      var p := IntendedPort(port, tls);
      var text := WebsocketUrl(serverAndPath, p, tls);
      var parsed := parseUrl(text);
      if parsed.None? {
        return InvalidUrl;
      }
      var url := parsed.value;
      var closeOld := if websocket.Some? then [CloseSocket(websocket.value, 1000)] else [];
      calls := calls + closeOld;
      client.remoteAddr := RemoteAddr(url.hostname, p, tls, Some(url.pathname));
      var addr := client.remoteAddr;
      client.Emit(Connecting(addr));
      calls := calls + [Construct(text)];
      if construction.ConstructionThrew? {
        client.EmitFault(ClientErrorType.Connect, construction.fault);
      } else {
        websocket := Some(construction.socket);
        assert client.emitted == client.emitted + [];
      }
      result := ReturnedNull;
    }

    /**
     * The send hook: without a socket, a `write` error and null, and nothing is
     * sent. Otherwise the same three steps as the core `send`, then the bytes
     * go to the socket and the line is returned, or null after a `write` error
     * when sending threw.
     */
    method Send(command: string, params: seq<Param>, sending: Outcome) returns (r: Option<string>)
      modifies this, client
      ensures old(websocket).None? ==>
        && r == None && calls == old(calls)
        && client.emitted == old(client.emitted) + FaultEvents(ClientErrorType.Write, Fault(OtherError, UnableToSend))
      ensures old(websocket).Some? ==>
        && calls == old(calls) + [SendFrame(old(websocket).value, Utf8.Encode(SendLine(command, params)))]
        && r == (if sending.Done? then Some(SendLine(command, params)) else None)
        && client.emitted == old(client.emitted) + (if sending.Threw? then FaultEvents(ClientErrorType.Write, sending.fault) else [])
      ensures websocket == old(websocket)
      ensures client.remoteAddr == old(client.remoteAddr) && client.conn == old(client.conn)
      ensures client.transport == old(client.transport)
    {
      if websocket.None? {
        client.EmitError(ClientErrorType.Write, Described(UnableToSend));
        return None;
      }
      var encoded := PrepareLine(command, params);
      calls := calls + [SendFrame(websocket.value, encoded.bytes)];
      match sending {
        case Done => r := Some(encoded.raw);
        case Threw(f) =>
          client.EmitFault(ClientErrorType.Write, f);
          r := None;
      }
    }

    /**
     * The disconnect hook: closes the socket, if any, with code 1000 and emits
     * `disconnected`, or the `close` error when closing threw; `websocket` is
     * null afterwards in every case.
     */
    method Disconnect(closing: Outcome)
      modifies this, client
      ensures websocket == None
      ensures calls == old(calls) + (if old(websocket).Some? then [CloseSocket(old(websocket).value, 1000)] else [])
      ensures client.emitted == old(client.emitted) + DisconnectEvents(old(websocket), client.remoteAddr, closing)
      ensures client.remoteAddr == old(client.remoteAddr) && client.conn == old(client.conn)
      ensures client.transport == old(client.transport)
    {
      if websocket.Some? {
        calls := calls + [CloseSocket(websocket.value, 1000)];
        match closing {
          case Done => client.Emit(Disconnected(client.remoteAddr));
          case Threw(f) => client.EmitFault(ClientErrorType.Close, f);
        }
      } else {
        client.Emit(Disconnected(client.remoteAddr));
      }
      websocket := None;
    }

    /** The socket's `open` event: `connected` with the current address. */
    method OpenHandler()
      modifies client
      ensures client.emitted == old(client.emitted) + [Connected(client.remoteAddr)]
      ensures client.remoteAddr == old(client.remoteAddr) && client.conn == old(client.conn)
      ensures client.transport == old(client.transport)
    {
      client.Emit(Connected(client.remoteAddr));
    }

    /** The socket's `message` event, given what the parser made of the frame. */
    method MessageHandler(parsing: Parsing)
      modifies client
      ensures client.emitted == old(client.emitted) + MessageEvents(parsing)
      ensures client.remoteAddr == old(client.remoteAddr) && client.conn == old(client.conn)
      ensures client.transport == old(client.transport)
    {
      match parsing {
        case Parsed(msg) => client.Emit(RawEvent(msg));
        case ParseThrew(f) => client.EmitFault(ClientErrorType.Read, f);
      }
    }

    /**
     * The socket's `error` event: always exactly one `read` error, carrying the
     * text of the event.
     */
    method ErrorHandler(eventText: string)
      modifies client
      ensures client.emitted == old(client.emitted) + FaultEvents(ClientErrorType.Read, Fault(OtherError, eventText))
      ensures |client.emitted| == |old(client.emitted)| + 1
      ensures client.remoteAddr == old(client.remoteAddr) && client.conn == old(client.conn)
      ensures client.transport == old(client.transport)
    {
      var err := new Error(OtherError, eventText);
      client.EmitError(ClientErrorType.Read, Thrown(err));
    }
  }

  /**
   * Installing the plugin: hooks exist exactly when the `websocket` option is
   * true; they start without a socket.
   */
  method Install(client: CoreClient, websocketOption: Option<bool>) returns (hooks: Option<WebsocketHooks>)
    ensures hooks.Some? <==> websocketOption == Some(true)
    ensures hooks.Some? ==> fresh(hooks.value) && hooks.value.client == client && hooks.value.websocket == None
  {
    if websocketOption != Some(true) {
      return None;
    }
    var h := new WebsocketHooks(client);
    hooks := Some(h);
  }
}
