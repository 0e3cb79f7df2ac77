/**
 * The CTCP ACTION plugin of plugins/action.ts: the `action` and `me`
 * commands, which go through `client.ctcp`, and the `ctcp_action` event made
 * from incoming CTCP events. The CTCP plugin itself is taken as given.
 */
module ActionPlugin {
  import opened Wrappers

  /** One `client.ctcp(target, command, param)` call. */
  datatype CtcpCall = CtcpCall(target: string, command: string, param: string)

  /** The CTCP event the plugin listens to. */
  datatype CtcpEvent<Mask> = CtcpEvent(command: string, origin: Mask, target: string, param: Option<string>)

  /** The `ctcp_action` event. */
  datatype ActionEvent<Mask> = ActionEvent(origin: Mask, target: string, text: string)

  /** `sendAction(target, text)`: one CTCP `ACTION` to `target` with `text` as its parameter. */
  function SendAction(target: string, text: string): (c: CtcpCall)
    ensures c.command == "ACTION" && c.target == target && c.param == text
  {
    CtcpCall(target, "ACTION", text)
  }

  /**
   * The commands the plugin adds to the client, by name: `action` and `me`,
   * and `me` is the same function as `action`, sending a CTCP `ACTION`.
   */
  function Commands(): (r: map<string, (string, string) -> CtcpCall>)
    ensures r.Keys == {"action", "me"}
    ensures r["me"] == r["action"]
    ensures forall target, text :: r["action"](target, text) == CtcpCall(target, "ACTION", text)
  {
    map["action" := SendAction, "me" := SendAction]
  }

  /**
   * `emitAction(msg)`: nothing for a CTCP command other than `ACTION` or one
   * without a parameter; otherwise one `ctcp_action` with the origin and target
   * passed through and the parameter as text.
   */
  function EmitAction<Mask>(msg: CtcpEvent<Mask>): (r: Option<ActionEvent<Mask>>)
    ensures r.Some? <==> msg.command == "ACTION" && msg.param.Some?
    ensures r.Some? ==> r.value == ActionEvent(msg.origin, msg.target, msg.param.value)
  {
    if msg.command != "ACTION" || msg.param.None? then None
    else Some(ActionEvent(msg.origin, msg.target, msg.param.value))
  }
}
