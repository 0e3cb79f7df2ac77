/**
 * The PRIVMSG plugin of plugins/msg.ts (section 3.3.1 of RFC 2812): the
 * `msg` command, and the routing of incoming `PRIVMSG` messages to the `msg`,
 * `msg:channel` and `msg:private` events. `isCtcp`, `isChannel` and
 * `parseUserMask` are taken as given functions.
 */
module MsgPlugin {
  import opened Wrappers
  import opened Protocol

  /** The three events, with their payloads; a missing parameter is `undefined`. */
  datatype MsgEvent<Mask> =
    | Msg(origin: Mask, target: Option<string>, text: Option<string>)
    | ChannelMsg(origin: Mask, channel: Option<string>, text: Option<string>)
    | PrivateMsg(origin: Mask, text: Option<string>)

  function EventName<Mask>(e: MsgEvent<Mask>): string {
    match e
    case Msg(_, _, _) => "msg"
    case ChannelMsg(_, _, _) => "msg:channel"
    case PrivateMsg(_, _) => "msg:private"
  }

  /**
   * `client.msg`, which is `client.send` bound to `"PRIVMSG"`: every argument
   * is passed on unchanged and in order after the command.
   */
  function MsgCommand(args: seq<Option<string>>): (s: SendArgs)
    ensures s.command == "PRIVMSG" && s.params == args
  {
    SendArgs("PRIVMSG", args)
  }

  /**
   * The events one raw message produces: none unless it is a `PRIVMSG` that is
   * not CTCP; otherwise `msg` with the origin, target and text, followed by
   * `msg:channel` when the target is a channel and `msg:private` when not.
   */
  function MsgEvents<Mask>(msg: Message, isCtcp: Message -> bool, isChannel: Option<string> -> bool,
                           parseUserMask: Option<string> -> Mask): (r: seq<MsgEvent<Mask>>)
    ensures msg.command != "PRIVMSG" || isCtcp(msg) ==> r == []
    ensures msg.command == "PRIVMSG" && !isCtcp(msg) ==>
      var origin := parseUserMask(msg.prefix);
      && |r| == 2
      && r[0] == Msg(origin, ParamAt(msg, 0), ParamAt(msg, 1))
      && (r[1].ChannelMsg? <==> isChannel(ParamAt(msg, 0)))
      && (r[1].ChannelMsg? ==> r[1] == ChannelMsg(origin, ParamAt(msg, 0), ParamAt(msg, 1)))
      && (!r[1].ChannelMsg? ==> r[1] == PrivateMsg(origin, ParamAt(msg, 1)))
  {
    if msg.command != "PRIVMSG" then []
    else if isCtcp(msg) then []
    else
      var origin := parseUserMask(msg.prefix);
      var target := ParamAt(msg, 0);
      var text := ParamAt(msg, 1);
      [Msg(origin, target, text)]
        + if isChannel(target) then [ChannelMsg(origin, target, text)] else [PrivateMsg(origin, text)]
  }

  /**
   * Every non-CTCP `PRIVMSG` produces exactly one `msg` event, first, and
   * exactly one of `msg:channel` and `msg:private` after it.
   */
  lemma ExactlyOneRoute<Mask>(msg: Message, isCtcp: Message -> bool, isChannel: Option<string> -> bool,
                              parseUserMask: Option<string> -> Mask)
    requires msg.command == "PRIVMSG" && !isCtcp(msg)
    ensures var r := MsgEvents(msg, isCtcp, isChannel, parseUserMask);
            && EventName(r[0]) == "msg"
            && (forall i :: 1 <= i < |r| ==> EventName(r[i]) != "msg")
            && |set i | 1 <= i < |r| && (EventName(r[i]) == "msg:channel" || EventName(r[i]) == "msg:private")| == 1
  {
    var r := MsgEvents(msg, isCtcp, isChannel, parseUserMask);
    assert (set i | 1 <= i < |r| && (EventName(r[i]) == "msg:channel" || EventName(r[i]) == "msg:private")) == {1};
  }
}
