/**
 * The KILL plugin of plugins/kill.ts (section 3.7.1 of RFC 2812): the `kill`
 * command and the `kill` event. `parseUserMask` is taken as a given function.
 */
module KillPlugin {
  import opened Wrappers
  import opened Protocol
  import opened Text
  import opened Encoder

  /** The `kill` event; a missing parameter is `undefined`. */
  datatype KillEvent<Mask> = KillEvent(origin: Mask, nick: Option<string>, comment: Option<string>)

  /** `kill(...params)`: one `send("KILL", ...params)` with the parameters unchanged and in order. */
  function SendKill(params: seq<string>): (s: SendArgs)
    ensures s.command == "KILL" && |s.params| == |params|
    ensures forall i :: 0 <= i < |params| ==> s.params[i] == Some(params[i])
  {
    SendArgs("KILL", seq(|params|, i requires 0 <= i < |params| => Some(params[i])))
  }

  /**
   * `emitKill(msg)`: nothing for any command but `KILL`; for `KILL`, one event
   * with the first two parameters as nick and comment and the parsed prefix as
   * origin.
   */
  function EmitKill<Mask>(msg: Message, parseUserMask: Option<string> -> Mask): (r: Option<KillEvent<Mask>>)
    ensures r.Some? <==> msg.command == "KILL"
    ensures r.Some? ==> r.value.nick == ParamAt(msg, 0) && r.value.comment == ParamAt(msg, 1)
    ensures r.Some? ==> r.value.origin == parseUserMask(msg.prefix)
  {
    if msg.command != "KILL" then None
    else Some(KillEvent(parseUserMask(msg.prefix), ParamAt(msg, 0), ParamAt(msg, 1)))
  }

  /** A comment with a space in it travels as the trailing parameter: `KILL <nick> :<comment>`. */
  lemma KillLineWithComment(nick: string, comment: string)
    requires IncludesFrom(comment, ' ', 1)
    ensures var s := SendKill([nick, comment]);
            SendLine(s.command, s.params) == TrimEnd("KILL " + nick + " " + ":" + comment) + CRLF
  {
    var s := SendKill([nick, comment]);
    assert s.params == [Some(nick)] + [Some(comment)];
    calc {
      SendLine(s.command, s.params);
      { TrailingGetsColon("KILL", [Some(nick)], comment); }
      TrimEnd("KILL" + " " + (JoinParams([Some(nick)]) + " ") + ":" + comment) + CRLF;
      { assert "KILL" + " " + (nick + " ") + ":" + comment == "KILL " + nick + " " + ":" + comment; }
      TrimEnd("KILL " + nick + " " + ":" + comment) + CRLF;
    }
  }
}
