/**
 * The JOIN plugin of plugins/join.ts: `join(...channels)` builds the
 * parameters of one `JOIN` line (section 3.2.1 of RFC 2812), and incoming
 * `JOIN` messages become `join` events.
 */
module JoinPlugin {
  import opened Wrappers
  import opened Protocol
  import opened Text
  import opened Encoder

  /** One argument of `join`: a channel name alone, or a `[channel, key]` pair. */
  datatype ChannelSpec = Bare(channel: string) | Keyed(channel: string, key: string)

  /** The `join` event: who joined, and the first parameter (`undefined` when missing). */
  datatype JoinEvent<Mask> = JoinEvent(origin: Mask, channel: Option<string>)

  /** The key `join` records for an argument: "" for a bare name. */
  function KeyOf(p: ChannelSpec): string {
    match p
    case Bare(_) => ""
    case Keyed(_, key) => key
  }

  /** The channel names, in argument order. */
  function Channels(ps: seq<ChannelSpec>): (r: seq<string>)
    ensures |r| == |ps|
    ensures forall i :: 0 <= i < |ps| ==> r[i] == ps[i].channel
  {
    seq(|ps|, i requires 0 <= i < |ps| => ps[i].channel)
  }

  /** The keys, one per argument and in argument order. */
  function Keys(ps: seq<ChannelSpec>): (r: seq<string>)
    ensures |r| == |ps|
    ensures forall i :: 0 <= i < |ps| && ps[i].Bare? ==> r[i] == ""
    ensures forall i :: 0 <= i < |ps| && ps[i].Keyed? ==> r[i] == ps[i].key
  {
    seq(|ps|, i requires 0 <= i < |ps| => KeyOf(ps[i]))
  }

  /** Whether some argument carries a non-empty key. */
  predicate AnyKey(ps: seq<ChannelSpec>) {
    exists i :: 0 <= i < |ps| && KeyOf(ps[i]) != ""
  }

  /**
   * The `JOIN` parameters: one or two, all defined; the first is the names
   * joined by ","; the second, the keys joined by ",", is present exactly when
   * some key is non-empty.
   */
  function JoinCommandParams(ps: seq<ChannelSpec>): (r: seq<Param>)
    ensures 1 <= |r| <= 2 && (forall i :: 0 <= i < |r| ==> r[i].Some?)
    ensures r[0] == Some(Join(Channels(ps), ","))
    ensures |r| == 2 <==> AnyKey(ps)
    ensures |r| == 2 ==> r[1] == Some(Join(Keys(ps), ","))
  {
    [Some(Join(Channels(ps), ","))] + if AnyKey(ps) then [Some(Join(Keys(ps), ","))] else []
  }

  /**
   * The two lists pair up: when no name or key contains a comma, splitting the
   * parameters on commas gives back the names and the keys, equally many, so
   * the i-th key belongs to the i-th channel.
   */
  lemma {:induction false} JoinKeysPairUp(ps: seq<ChannelSpec>)
    requires ps != [] && AnyKey(ps)
    requires forall k, i :: 0 <= k < |ps| && 0 <= i < |ps[k].channel| ==> ps[k].channel[i] != ','
    requires forall k, i :: 0 <= k < |ps| && 0 <= i < |KeyOf(ps[k])| ==> KeyOf(ps[k])[i] != ','
    ensures var r := JoinCommandParams(ps);
            && |r| == 2
            && Split(r[0].value, ',') == Channels(ps)
            && Split(r[1].value, ',') == Keys(ps)
            && |Split(r[0].value, ',')| == |Split(r[1].value, ',')|
  {
    var names := Channels(ps);
    var keys := Keys(ps);
    assert forall k, i :: 0 <= k < |names| && 0 <= i < |names[k]| ==> names[k][i] != ',' by {
      forall k, i | 0 <= k < |names| && 0 <= i < |names[k]|
        ensures names[k][i] != ','
      {
        assert names[k] == ps[k].channel;
      }
    }
    assert forall k, i :: 0 <= k < |keys| && 0 <= i < |keys[k]| ==> keys[k][i] != ',' by {
      forall k, i | 0 <= k < |keys| && 0 <= i < |keys[k]|
        ensures keys[k][i] != ','
      {
        assert keys[k] == KeyOf(ps[k]);
      }
    }
    SplitJoin(names, ',');
    SplitJoin(keys, ',');
  }

  /**
   * `sendJoin(...params)`: collects the names and keys with a loop, then makes
   * one `send("JOIN", ...)` with the parameters above.
   */
  method SendJoin(params: seq<ChannelSpec>) returns (args: SendArgs)
    ensures args == SendArgs("JOIN", JoinCommandParams(params))
  {
    var channels: seq<string> := [];
    var keys: seq<string> := [];
    for i := 0 to |params|
      invariant |channels| == |keys| == i
      invariant forall k :: 0 <= k < i ==> channels[k] == params[k].channel
      invariant forall k :: 0 <= k < i ==> keys[k] == KeyOf(params[k])
    {
      match params[i] {
        case Bare(channel) =>
          channels := channels + [channel];
          keys := keys + [""];
        case Keyed(channel, key) =>
          channels := channels + [channel];
          keys := keys + [key];
      }
    }
    assert channels == Channels(params);
    assert keys == Keys(params);
    var commandParams := [Some(Join(channels, ","))];
    if exists k :: 0 <= k < |keys| && keys[k] != "" {
      commandParams := commandParams + [Some(Join(keys, ","))];
    }
    args := SendArgs("JOIN", commandParams);
  }

  /** The parameters `join("#channel1", "#channel2")` sends. */
  lemma BareChannelsParams()
    ensures JoinCommandParams([Bare("#channel1"), Bare("#channel2")]) == [Some("#channel1,#channel2")]
  {
    var ps := [Bare("#channel1"), Bare("#channel2")];
    assert Channels(ps) == ["#channel1", "#channel2"];
    assert !AnyKey(ps);
    assert Join(Channels(ps), ",") == "#channel1,#channel2";
  }

  /** A single parameter without spaces or a leading ':' is written as it is. */
  lemma PlainParamLine(command: string, p: string)
    requires p != [] && p[0] != ':' && !IsJsWhitespace(p[|p| - 1])
    requires forall i :: 0 <= i < |p| ==> p[i] != ' '
    ensures SendLine(command, [Some(p)]) == command + " " + p + CRLF
  {
    var params := [Some(p)];
    assert TrimUndefined(params) == params;
    assert !IncludesFrom(p, ' ', 1);
    assert SendParams(params) == params;
    assert JoinParams(params) == p;
    var line := command + " " + p;
    assert line[|line| - 1] == p[|p| - 1];
    assert TrimEnd(line) == line;
  }

  /** The command, a space and the joined names spell the expected line. */
  lemma BareChannelsSpelling()
    ensures "JOIN" + " " + "#channel1,#channel2" == "JOIN #channel1,#channel2"
  {
    var line := "JOIN" + " " + "#channel1,#channel2";
    var expected := "JOIN #channel1,#channel2";
    forall i | 0 <= i < |line|
      ensures line[i] == expected[i]
    {
      if i < 5 {
        assert line[i] == ("JOIN" + " ")[i];
      } else {
        assert line[i] == "#channel1,#channel2"[i - 5];
      }
    }
  }

  /** With bare names only, the line is `JOIN #channel1,#channel2`, as the plugin's test expects. */
  lemma BareChannelsLine()
    ensures SendLine("JOIN", JoinCommandParams([Bare("#channel1"), Bare("#channel2")]))
         == "JOIN #channel1,#channel2" + CRLF
  {
    BareChannelsParams();
    PlainParamLine("JOIN", "#channel1,#channel2");
    BareChannelsSpelling();
  }

  /**
   * `emitJoin(msg)`: nothing for any command but `JOIN`; for `JOIN`, one event
   * with the first parameter as channel and the parsed prefix as origin.
   */
  function EmitJoin<Mask>(msg: Message, parseUserMask: Option<string> -> Mask): (r: Option<JoinEvent<Mask>>)
    ensures r.Some? <==> msg.command == "JOIN"
    ensures r.Some? ==> r.value.channel == ParamAt(msg, 0) && r.value.origin == parseUserMask(msg.prefix)
  {
    if msg.command != "JOIN" then None
    else Some(JoinEvent(parseUserMask(msg.prefix), ParamAt(msg, 0)))
  }
}
