/**
 * The connection state machine of `CoreClient` (core/client.ts): a nullable
 * connection and the remote address, driven by `connect`, the read `loop`,
 * `close`/`disconnect`, `send` and `emitError`. The socket and the parser are
 * abstract: every call into them is a parameter describing what it did, and
 * every event the client emits is appended to the trace `emitted`.
 */
module Client {
  import opened Wrappers
  import opened Protocol
  import opened Errors
  import opened Encoder
  import Utf8

  /** An open socket, told apart from other sockets by `id`. */
  datatype Conn = Conn(id: nat)

  /** What a socket call that returns nothing did: it returned, or it threw. */
  datatype Outcome = Done | Threw(fault: Fault)

  /** What opening a socket did: it resolved with a connection, or it threw. */
  datatype Opening = Opened(conn: Conn) | OpenThrew(fault: Fault)

  /** What one `conn.read` did, with the decoded text when it read something. */
  datatype ReadResult = Chunk(text: string) | EndOfStream | ReadThrew(fault: Fault)

  /** `connect`'s optional third argument. */
  datatype ConnectOptions = ConnectOptions(tls: Option<bool>, path: Option<string>)

  /**
   * One call the client makes on the transport: an attempt to open a socket
   * (`connectTls` when `tls`, `connect` otherwise), one `conn.write` of encoded
   * bytes, or one `conn.close()`.
   */
  datatype TransportCall =
    | Dial(hostname: string, port: int, tls: bool)
    | Sent(conn: Conn, bytes: seq<Utf8.byte>)
    | Closed(conn: Conn)

  /** The events of the core client, with their payloads. */
  datatype Event =
    | Connecting(addr: RemoteAddr)
    | Connected(addr: RemoteAddr)
    | Disconnected(addr: RemoteAddr)
    | ErrorEvent(err: ClientError)
    | RawEvent(msg: Message)

  /**
   * The name an event is emitted under. Parsed messages go to `raw:<command>`;
   * no other event's name starts with `raw:`.
   */
  function EventName(e: Event): (r: string)
    ensures e.RawEvent? <==> |r| >= 4 && r[..4] == "raw:"
    ensures e.RawEvent? ==> r[4..] == e.msg.command
  {
    match e
    case Connecting(_) => assert "connecting"[..4][0] == 'c'; "connecting"
    case Connected(_) => assert "connected"[..4][0] == 'c'; "connected"
    case Disconnected(_) => assert "disconnected"[..4][0] == 'd'; "disconnected"
    case ErrorEvent(_) => assert "error"[..4][0] == 'e'; "error"
    case RawEvent(msg) => "raw:" + msg.command
  }

  /** The address `state.remoteAddr` holds before the first `connect`. */
  const InitialAddr := RemoteAddr("", 0, Some(false), None)

  /** The message of the error `send` reports when there is no connection. */
  const UnableToSend := "Unable to send message"

  /**
   * What `emitError(type, error)` emits for an error of class `kind` with
   * `message`: nothing for the teardown classes, otherwise exactly one `error`
   * event whose type is `t` and whose message gives back `t` and `message`.
   * A string argument becomes a plain `Error`, so it is never silent.
   */
  function FaultEvents(t: ClientErrorType, f: Fault): (r: seq<Event>)
    ensures |r| <= 1
    ensures r == [] <==> IsSilent(f.kind)
    ensures r != [] ==> r[0].ErrorEvent? && r[0].err.errorType == t
    ensures r != [] ==> ParseClientMessage(r[0].err.message) == Some((t, f.message))
  {
    if IsSilent(f.kind) then []
    else
      ClientMessageRoundTrip(t, f.message);
      [ErrorEvent(ClientError(t, ClientMessage(t, f.message)))]
  }

  /**
   * What `close()` emits: nothing without a connection; otherwise
   * `disconnected` with the current address when `conn.close()` returns, and
   * the `close` error instead when it throws.
   */
  function CloseEvents(conn: Option<Conn>, addr: RemoteAddr, closing: Outcome): (r: seq<Event>)
    ensures conn.None? ==> r == []
    ensures conn.Some? && closing.Done? ==> r == [Disconnected(addr)]
    ensures conn.Some? && closing.Threw? ==> r == FaultEvents(Close, closing.fault)
    ensures forall e :: e in r ==> e.Disconnected? || (e.ErrorEvent? && e.err.errorType == Close)
  {
    if conn.None? then []
    else match closing
      case Done => [Disconnected(addr)]
      case Threw(f) => FaultEvents(Close, f)
  }

  /**
   * What `connect` emits: the events of closing the previous connection, then
   * `connecting`, then `connected` or the `connect` error. All of them carry the
   * new address, the `disconnected` of the old connection included. So
   * `connecting` comes exactly once, right after what closing the old
   * connection emitted, and `connected` exactly when the socket opened, as the
   * last event; a failed open ends with at most the `connect` error.
   */
  function ConnectEvents(previous: Option<Conn>, addr: RemoteAddr, closing: Outcome, opening: Opening): (r: seq<Event>)
    ensures var k := |CloseEvents(previous, addr, closing)|;
            && k <= 1 && k < |r| && r[k] == Connecting(addr)
            && r[..k] == CloseEvents(previous, addr, closing)
            && (opening.Opened? ==> |r| == k + 2)
            && (forall i :: 0 <= i < |r| && i != k ==> !r[i].Connecting?)
            && (Connected(addr) in r <==> opening.Opened?)
            && (opening.Opened? ==> r[|r| - 1] == Connected(addr))
            && (opening.OpenThrew? ==> r[k + 1..] == FaultEvents(Connect, opening.fault))
  {
    CloseEvents(previous, addr, closing) + [Connecting(addr)]
      + match opening
        case Opened(_) => [Connected(addr)]
        case OpenThrew(f) => FaultEvents(Connect, f)
  }

  /**
   * Reconnecting over a live connection whose close succeeds announces the old
   * connection's end under the address just requested, before `connecting`.
   */
  lemma ReconnectReportsNewAddress(c: Conn, addr: RemoteAddr, opening: Opening)
    ensures ConnectEvents(Some(c), addr, Done, opening)[..2] == [Disconnected(addr), Connecting(addr)]
  {
  }

  /** Appending three pieces one by one is appending their concatenation. */
  lemma ConcatAssoc<T>(a: seq<T>, b: seq<T>, c: seq<T>, d: seq<T>)
    ensures a + b + c + d == a + (b + c + d)
  {
  }

  /** `raw:<command>` events, one per parsed message and in parser order. */
  function RawEvents(ms: seq<Message>): (r: seq<Event>)
    ensures |r| == |ms|
    ensures forall i :: 0 <= i < |r| ==> r[i].RawEvent? && r[i].msg == ms[i]
    ensures forall i :: 0 <= i < |r| ==> EventName(r[i]) == "raw:" + ms[i].command
  {
    seq(|ms|, i requires 0 <= i < |ms| => RawEvent(ms[i]))
  }

  /** The events of two batches are those of their concatenation. */
  lemma RawEventsConcat(a: seq<Message>, b: seq<Message>)
    ensures RawEvents(a + b) == RawEvents(a) + RawEvents(b)
  {
  }

  /** All messages of consecutive batches, in order. */
  function Flatten(batches: seq<seq<Message>>): seq<Message>
    decreases |batches|
  {
    if batches == [] then [] else Flatten(batches[..|batches| - 1]) + batches[|batches| - 1]
  }

  /** The messages of one more batch follow those already flattened. */
  lemma FlattenSnoc(batches: seq<seq<Message>>, i: nat)
    requires i < |batches|
    ensures Flatten(batches[..i + 1]) == Flatten(batches[..i]) + batches[i]
  {
    assert batches[..i + 1][..i] == batches[..i];
  }

  /** What `read` emits: the `read` error when `conn.read` threw, nothing otherwise. */
  function ReadEvents(r: ReadResult): (e: seq<Event>)
    ensures r.ReadThrew? ==> e == FaultEvents(Read, r.fault)
    ensures !r.ReadThrew? ==> e == []
  {
    if r.ReadThrew? then FaultEvents(Read, r.fault) else []
  }

  /**
   * The position of the first read that yields nothing (end of stream or an
   * error): the loop consumes the chunks before it and stops there.
   */
  function Stop(script: seq<ReadResult>): (k: nat)
    ensures k <= |script|
    ensures forall i :: 0 <= i < k ==> script[i].Chunk?
    ensures k < |script| ==> !script[k].Chunk?
    decreases |script|
  {
    if script == [] || !script[0].Chunk? then 0 else 1 + Stop(script[1..])
  }

  /** `Stop` is the only position with its two properties. */
  lemma {:induction false} StopUnique(script: seq<ReadResult>, k: nat)
    requires k <= |script|
    requires forall i :: 0 <= i < k ==> script[i].Chunk?
    requires k < |script| ==> !script[k].Chunk?
    ensures k == Stop(script)
  {
    var s := Stop(script);
    assert !(k < s) && !(s < k);
  }

  /**
   * What the read loop emits, given what its successive reads return and the
   * parser's batch for each chunk: one raw event per message of every chunk before the stop, in order;
   * then, if the loop stopped, what the failed read emitted and what `close()`
   * emitted. A script that never stops describes a loop still running. So the
   * raw events come first, and at most two other events follow them.
   */
  function LoopEvents(script: seq<ReadResult>, batches: seq<seq<Message>>, conn: Option<Conn>, addr: RemoteAddr, closing: Outcome): (r: seq<Event>)
    requires |batches| == |script|
    ensures var n := |Flatten(batches[..Stop(script)])|;
            && n <= |r| <= n + 2
            && (forall i :: 0 <= i < n ==> r[i].RawEvent?)
            && (forall i :: n <= i < |r| ==> !r[i].RawEvent?)
            && (Stop(script) == |script| ==> |r| == n)
  {
    var k := Stop(script);
    var tail := if k < |script| then ReadEvents(script[k]) + CloseEvents(conn, addr, closing) else [];
    assert forall e :: e in tail ==> !e.RawEvent?;
    RawEvents(Flatten(batches[..k])) + tail
  }

  /**
   * The loop emits every parsed message before anything else, and when the
   * stream ends on a live connection that closes cleanly, `disconnected` is
   * the single event after them.
   */
  lemma LoopEndsWithDisconnect(script: seq<ReadResult>, batches: seq<seq<Message>>, c: Conn, addr: RemoteAddr)
    requires |batches| == |script|
    requires Stop(script) < |script| && script[Stop(script)].EndOfStream?
    ensures var r := LoopEvents(script, batches, Some(c), addr, Done);
            var n := |Flatten(batches[..Stop(script)])|;
            && |r| == n + 1 && r[n] == Disconnected(addr)
            && forall i :: 0 <= i < n ==> r[i].RawEvent?
  {
  }

  /** The events of a loop that stopped at read `k`. */
  lemma LoopEventsStopped(script: seq<ReadResult>, batches: seq<seq<Message>>, conn: Option<Conn>, addr: RemoteAddr, closing: Outcome, k: nat)
    requires |batches| == |script| && k == Stop(script) < |script|
    ensures LoopEvents(script, batches, conn, addr, closing)
         == RawEvents(Flatten(batches[..k])) + ReadEvents(script[k]) + CloseEvents(conn, addr, closing)
  {
  }

  /** The events of a loop whose script has not reached a null read. */
  lemma LoopEventsRunning(script: seq<ReadResult>, batches: seq<seq<Message>>, conn: Option<Conn>, addr: RemoteAddr, closing: Outcome)
    requires |batches| == |script| && Stop(script) == |script|
    ensures LoopEvents(script, batches, conn, addr, closing) == RawEvents(Flatten(batches[..|script|]))
  {
  }

  class CoreClient {
    /** `conn`: the open socket, or null. */
    var conn: Option<Conn>
    /** `state.remoteAddr`. */
    var remoteAddr: RemoteAddr
    /** Every event emitted so far, in order. */
    var emitted: seq<Event>
    /** Every call the client made on the transport, in order. */
    var transport: seq<TransportCall>

    constructor ()
      ensures conn == None && remoteAddr == InitialAddr
      ensures emitted == [] && transport == []
    {
      conn := None;
      remoteAddr := InitialAddr;
      emitted := [];
      transport := [];
    }

    /** `emit(name, payload)`: appends the event to the trace and changes nothing else. */
    method Emit(e: Event)
      modifies this
      ensures emitted == old(emitted) + [e]
      ensures conn == old(conn) && remoteAddr == old(remoteAddr)
      ensures transport == old(transport)
    {
      emitted := emitted + [e];
    }

    /**
     * `emitError(type, error)`: a BadResource or Interrupted error is dropped
     * untouched; any other is classified by `toClientError` (which changes a
     * passed error object in place) and emitted as one `error` event.
     */
    method EmitError(t: ClientErrorType, arg: ErrorArg)
      modifies this, if arg.Thrown? then {arg.err} else {}
      ensures emitted == old(emitted) + FaultEvents(t,
        if arg.Thrown? then Fault(arg.err.kind, old(arg.err.message)) else Fault(OtherError, arg.text))
      ensures arg.Thrown? && IsSilent(arg.err.kind) ==>
        arg.err.message == old(arg.err.message) && arg.err.clientType == old(arg.err.clientType)
      ensures arg.Thrown? && !IsSilent(arg.err.kind) ==>
        arg.err.message == ClientMessage(t, old(arg.err.message)) && arg.err.clientType == Some(t)
      ensures conn == old(conn) && remoteAddr == old(remoteAddr)
      ensures transport == old(transport)
    {
      if arg.Thrown? && IsSilent(arg.err.kind) {
        return;
      }
      var e := ToClientError(t, arg);
      Emit(ErrorEvent(ClientError(t, e.message)));
    }

    /** `emitError(type, error)` for an error a socket call threw. */
    method EmitFault(t: ClientErrorType, f: Fault)
      modifies this
      ensures emitted == old(emitted) + FaultEvents(t, f)
      ensures conn == old(conn) && remoteAddr == old(remoteAddr)
      ensures transport == old(transport)
    {
      var err := new Error(f.kind, f.message);
      EmitError(t, Thrown(err));
    }

    /**
     * `close()`: nothing without a connection. Otherwise the socket is closed,
     * `disconnected` or the `close` error is emitted, and the connection is
     * dropped whether or not closing threw.
     */
    method Close(closing: Outcome)
      modifies this
      ensures conn == None
      ensures emitted == old(emitted) + CloseEvents(old(conn), remoteAddr, closing)
      ensures transport == old(transport) + (if old(conn).Some? then [Closed(old(conn).value)] else [])
      ensures remoteAddr == old(remoteAddr)
    {
      if conn.None? {
        return;
      }
      transport := transport + [Closed(conn.value)];
      match closing {
        case Done => Emit(Disconnected(remoteAddr));
        case Threw(f) => EmitFault(ClientErrorType.Close, f);
      }
      conn := None;
    }

    /** `disconnect()`: the same as `close()`. */
    method Disconnect(closing: Outcome)
      modifies this
      ensures conn == None
      ensures emitted == old(emitted) + CloseEvents(old(conn), remoteAddr, closing)
      ensures transport == old(transport) + (if old(conn).Some? then [Closed(old(conn).value)] else [])
      ensures remoteAddr == old(remoteAddr)
    {
      Close(closing);
    }

    /**
     * `connect(hostname, port, options)`: records the new address first, closes
     * any open connection, emits `connecting`, and opens a socket (TLS when
     * `options.tls`). It returns the new connection, or null after a `connect`
     * error, leaving the client without a connection.
     */
    method Connect(hostname: string, port: int, options: Option<ConnectOptions>, closing: Outcome, opening: Opening)
      returns (result: Option<Conn>)
      modifies this
      ensures var tls := options.Some? && options.value.tls == Some(true);
        && remoteAddr == RemoteAddr(hostname, port, Some(tls), None)
        && transport == old(transport) + (if old(conn).Some? then [Closed(old(conn).value)] else []) + [Dial(hostname, port, tls)]
      ensures emitted == old(emitted) + ConnectEvents(old(conn), remoteAddr, closing, opening)
      ensures result == conn == (if opening.Opened? then Some(opening.conn) else None)
    {
      var tls := if options.Some? then options.value.tls.GetOr(false) else false;
      remoteAddr := RemoteAddr(hostname, port, Some(tls), None);
      ghost var closeEvents := CloseEvents(conn, remoteAddr, closing);
      if conn.Some? {
        Close(closing);
      } else {
        assert emitted == emitted + closeEvents;
      }
      var addr := remoteAddr;
      Emit(Connecting(addr));
      transport := transport + [Dial(hostname, port, tls)];
      match opening {
        case Opened(c) =>
          conn := Some(c);
          Emit(Connected(addr));
          ConcatAssoc(old(emitted), closeEvents, [Connecting(addr)], [Connected(addr)]);
        case OpenThrew(f) =>
          EmitFault(ClientErrorType.Connect, f);
          ConcatAssoc(old(emitted), closeEvents, [Connecting(addr)], FaultEvents(ClientErrorType.Connect, f));
          return None;
      }
      result := conn;
    }

    /**
     * `read(conn)`: the decoded text of one read, or null at the end of the
     * stream or after a `read` error.
     */
    method Read(c: Conn, r: ReadResult) returns (chunk: Option<string>)
      modifies this
      ensures chunk == (if r.Chunk? then Some(r.text) else None)
      ensures emitted == old(emitted) + ReadEvents(r)
      ensures conn == old(conn) && remoteAddr == old(remoteAddr)
      ensures transport == old(transport)
    {
      match r {
        case Chunk(text) => chunk := Some(text);
        case EndOfStream => chunk := None;
        case ReadThrew(f) =>
          EmitFault(ClientErrorType.Read, f);
          chunk := None;
      }
    }

    /** Emits `raw:<command>` for each message the parser produced, in order. */
    method EmitRaw(ms: seq<Message>)
      modifies this
      ensures emitted == old(emitted) + RawEvents(ms)
      ensures conn == old(conn) && remoteAddr == old(remoteAddr)
      ensures transport == old(transport)
    {
      for j := 0 to |ms|
        invariant emitted == old(emitted) + RawEvents(ms[..j])
        invariant conn == old(conn) && remoteAddr == old(remoteAddr)
        invariant transport == old(transport)
      {
        assert ms[..j + 1] == ms[..j] + [ms[j]];
        RawEventsConcat(ms[..j], [ms[j]]);
        Emit(RawEvent(ms[j]));
      }
      assert ms[..|ms|] == ms;
    }

    /**
     * `loop(conn)`: reads until a read yields null, emitting the parsed
     * messages of each chunk before reading again, and then calls `close()`.
     * `script` is what the successive reads return and `batches[i]` what the
     * parser makes of the i-th chunk; when the script runs out without a null
     * read the loop is still waiting and has not closed.
     */
    method Loop(c: Conn, script: seq<ReadResult>, batches: seq<seq<Message>>, closing: Outcome)
      returns (stopped: bool)
      requires |batches| == |script|
      modifies this
      ensures stopped <==> Stop(script) < |script|
      ensures emitted == old(emitted) + LoopEvents(script, batches, old(conn), remoteAddr, closing)
      ensures conn == (if stopped then None else old(conn))
      ensures transport == old(transport) + (if stopped && old(conn).Some? then [Closed(old(conn).value)] else [])
      ensures remoteAddr == old(remoteAddr)
    {
      stopped := false;
      var i: nat := 0;
      while i < |script|
        invariant i <= Stop(script)
        invariant emitted == old(emitted) + RawEvents(Flatten(batches[..i]))
        invariant conn == old(conn) && remoteAddr == old(remoteAddr)
        invariant transport == old(transport)
      {
        var chunk := Read(c, script[i]);
        if chunk.None? {
          assert i == Stop(script) by {
            StopUnique(script, i);
          }
          stopped := true;
          break;
        }
        ghost var done := RawEvents(Flatten(batches[..i]));
        EmitRaw(batches[i]);
        assert RawEvents(Flatten(batches[..i + 1])) == done + RawEvents(batches[i]) by {
          FlattenSnoc(batches, i);
          RawEventsConcat(Flatten(batches[..i]), batches[i]);
        }
        i := i + 1;
      }
      if stopped {
        ghost var raw := RawEvents(Flatten(batches[..i]));
        Close(closing);
        LoopEventsStopped(script, batches, old(conn), remoteAddr, closing, i);
        ConcatAssoc(old(emitted), raw, ReadEvents(script[i]), CloseEvents(old(conn), remoteAddr, closing));
      } else {
        assert i == Stop(script) by {
          StopUnique(script, i);
        }
        LoopEventsRunning(script, batches, old(conn), remoteAddr, closing);
      }
    }

    /**
     * `send(command, ...params)`: without a connection, a `write` error and
     * null, and nothing is written. Otherwise the encoded line is written to the
     * connection and returned, or null after a `write` error when writing threw.
     */
    method Send(command: string, params: seq<Param>, writing: Outcome) returns (r: Option<string>)
      modifies this
      ensures old(conn).None? ==>
        && r == None && transport == old(transport)
        && emitted == old(emitted) + FaultEvents(ClientErrorType.Write, Fault(OtherError, UnableToSend))
      ensures old(conn).Some? ==>
        && transport == old(transport) + [Sent(old(conn).value, Utf8.Encode(SendLine(command, params)))]
        && r == (if writing.Done? then Some(SendLine(command, params)) else None)
        && emitted == old(emitted) + (if writing.Threw? then FaultEvents(ClientErrorType.Write, writing.fault) else [])
      ensures conn == old(conn) && remoteAddr == old(remoteAddr)
    {
      if conn.None? {
        EmitError(ClientErrorType.Write, Described(UnableToSend));
        return None;
      }
      var encoded := PrepareLine(command, params);
      transport := transport + [Sent(conn.value, encoded.bytes)];
      if writing.Threw? {
        EmitFault(ClientErrorType.Write, writing.fault);
        r := None;
      } else {
        r := Some(encoded.raw);
      }
    }
  }
}
