/** Values shared by the client and its plugins. */
module Protocol {
  import opened Wrappers

  /**
   * A parsed protocol message (the parser's `Raw`): the command, the origin
   * prefix if the line had one, and the parameters in order.
   */
  datatype Message = Message(command: string, prefix: Option<string>, params: seq<string>)

  /** `msg.params[i]`, which is `undefined` past the end of the list. */
  function ParamAt(msg: Message, i: nat): (p: Option<string>)
    ensures p.Some? <==> i < |msg.params|
    ensures p.Some? ==> p.value == msg.params[i]
  {
    if i < |msg.params| then Some(msg.params[i]) else None
  }

  /** Where the client is, or was last asked to be, connected. */
  datatype RemoteAddr = RemoteAddr(hostname: string, port: int, tls: Option<bool>, path: Option<string>)

  /** The arguments of one `client.send(command, ...params)` call; a parameter may be `undefined`. */
  datatype SendArgs = SendArgs(command: string, params: seq<Option<string>>)
}
