/** The error taxonomy of the client and `toClientError` (core/errors.ts). */
module Errors {
  import opened Wrappers

  /** `ClientErrorType`: the operation a failure is attributed to. */
  datatype ClientErrorType = Connect | Read | Write | Close

  /** The string value of a type: a short non-empty word with no ':' and no space. */
  function TypeName(t: ClientErrorType): (r: string)
    ensures 4 <= |r| <= 7
    ensures forall i :: 0 <= i < |r| ==> r[i] != ':' && r[i] != ' '
  {
    match t
    case Connect => "connect"
    case Read => "read"
    case Write => "write"
    case Close => "close"
  }

  /** The class of a thrown error, as far as `emitError` looks at it. */
  datatype ErrorKind = BadResource | Interrupted | OtherError

  /** `Deno.errors.BadResource` and `Deno.errors.Interrupted` are the expected-teardown errors. */
  predicate IsSilent(k: ErrorKind) {
    k == BadResource || k == Interrupted
  }

  /** What a foreign call threw: the class and message of a new error object. */
  datatype Fault = Fault(kind: ErrorKind, message: string)

  /** A JavaScript `Error` object; `clientType` is the `type` property `toClientError` adds. */
  class Error {
    const kind: ErrorKind
    var message: string
    var clientType: Option<ClientErrorType>

    constructor (kind: ErrorKind, message: string)
      ensures this.kind == kind && this.message == message && clientType == None
    {
      this.kind := kind;
      this.message := message;
      clientType := None;
    }
  }

  /** The second argument of `toClientError`: an error object, or a description to wrap in one. */
  datatype ErrorArg = Thrown(err: Error) | Described(text: string)

  /** What an `error` listener reads from a client error when it is emitted. */
  datatype ClientError = ClientError(errorType: ClientErrorType, message: string)

  /** The message of a classified error: `"<type>: <message>"`. */
  function ClientMessage(t: ClientErrorType, message: string): (r: string)
    ensures var k := |TypeName(t)|;
            && |r| == k + 2 + |message|
            && r[..k] == TypeName(t)
            && (forall i :: 0 <= i < k ==> r[i] != ':')
            && r[k] == ':' && r[k + 1] == ' '
            && r[k + 2..] == message
  {
    TypeName(t) + ": " + message
  }

  /** Recovers the type and the original message from a classified message. */
  function ParseClientMessage(m: string): Option<(ClientErrorType, string)> {
    if |m| >= 9 && m[..9] == "connect: " then Some((Connect, m[9..]))
    else if |m| >= 6 && m[..6] == "read: " then Some((Read, m[6..]))
    else if |m| >= 7 && m[..7] == "write: " then Some((Write, m[7..]))
    else if |m| >= 7 && m[..7] == "close: " then Some((Close, m[7..]))
    else None
  }

  /**
   * A classified message determines both the type and the original message:
   * no two (type, message) pairs give the same text.
   */
  lemma ClientMessageRoundTrip(t: ClientErrorType, message: string)
    ensures ParseClientMessage(ClientMessage(t, message)) == Some((t, message))
  {
    var m := ClientMessage(t, message);
    var name := TypeName(t) + ": ";
    assert m == name + message;
    assert m[..|name|] == name;
    assert m[|name|..] == message;
    // the four names already differ in their first three characters
    assert m[0] == name[0] && m[2] == name[2];
    assert |m| >= 9 ==> m[..9][0] == m[0] && m[..9][2] == m[2];
    assert |m| >= 7 ==> m[..7][0] == m[0] && m[..7][2] == m[2];
    assert |m| >= 6 ==> m[..6][0] == m[0];
  }

  /**
   * `toClientError(type, error)`: a description first becomes a new error with
   * that message; the error then gets `type` and its message is prefixed with
   * the type. An error object passed in is the one returned, changed in place.
   */
  method ToClientError(t: ClientErrorType, arg: ErrorArg) returns (e: Error)
    modifies if arg.Thrown? then {arg.err} else {}
    ensures arg.Thrown? ==> e == arg.err
    ensures arg.Described? ==> fresh(e) && e.kind == OtherError
    ensures e.clientType == Some(t)
    ensures e.message == ClientMessage(t, if arg.Thrown? then old(arg.err.message) else arg.text)
  {
    match arg {
      case Described(text) =>
        e := new Error(OtherError, text);
      case Thrown(err) =>
        e := err;
    }
    e.clientType := Some(t);
    e.message := ClientMessage(t, e.message);
  }
}
