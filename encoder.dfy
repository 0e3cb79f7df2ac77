/**
 * The outbound line encoder of core/client.ts: `removeUndefinedParameters`,
 * `prefixTrailingParameter` and `encodeRawMessage`, which together turn
 * `send(command, ...params)` into one wire line.
 */
module Encoder {
  import opened Wrappers
  import opened Text
  import Utf8

  /** A `send` parameter, which may be `undefined`. */
  type Param = Option<string>

  /**
   * The longest prefix of `params` that is empty or ends in a defined parameter:
   * exactly the trailing `undefined`s are dropped, interior ones stay.
   */
  function TrimUndefined(params: seq<Param>): (r: seq<Param>)
    ensures r <= params
    ensures r == [] || r[|r| - 1].Some?
    ensures forall i :: |r| <= i < |params| ==> params[i].None?
    decreases |params|
  {
    if |params| > 0 && params[|params| - 1].None? then TrimUndefined(params[..|params| - 1]) else params
  }

  /** The three properties of TrimUndefined determine it: no other prefix has them. */
  lemma TrimUndefinedUnique(params: seq<Param>, r: seq<Param>)
    requires r <= params
    requires r == [] || r[|r| - 1].Some?
    requires forall i :: |r| <= i < |params| ==> params[i].None?
    ensures r == TrimUndefined(params)
  {
    var t := TrimUndefined(params);
    assert r == params[..|r|] && t == params[..|t|];
  }

  /** Dropping trailing `undefined`s a second time changes nothing. */
  lemma TrimUndefinedIdempotent(params: seq<Param>)
    ensures TrimUndefined(TrimUndefined(params)) == TrimUndefined(params)
  {
    var t := TrimUndefined(params);
    TrimUndefinedUnique(t, t);
  }

  /**
   * `removeUndefinedParameters(params)`: walks back from the end, popping each
   * `undefined`, and stops (by setting `i = 0`) at the first defined parameter.
   */
  method RemoveUndefinedParameters(params: seq<Param>) returns (kept: seq<Param>)
    ensures kept == TrimUndefined(params)
  {
    kept := params;
    var i := |kept| - 1;
    while i >= 0
      invariant i >= 0 ==> i == |kept| - 1
      invariant i < 0 ==> kept == [] || kept[|kept| - 1].Some?
      invariant TrimUndefined(kept) == TrimUndefined(params)
      decreases i + 1
    {
      if kept[i].None? {
        kept := kept[..|kept| - 1];  // params.pop()
      } else {
        i := 0;
      }
      i := i - 1;
    }
  }

  /**
   * The condition of `prefixTrailingParameter`: the parameter is defined and
   * starts with ':' or has a space at index 1 or later.
   */
  predicate NeedsColon(p: Param)
    ensures NeedsColon(p) ==> p.Some? && p.value != ""
    ensures p.Some? && p.value != "" && p.value[0] == ':' ==> NeedsColon(p)
    ensures p.Some? && p.value != "" && ' ' in p.value[1..] ==> NeedsColon(p)
  {
    p.Some? && (StartsWith(p.value, ':') || IncludesFrom(p.value, ' ', 1))
  }

  /**
   * `prefixTrailingParameter(params)`: only the last parameter can change, and
   * only by gaining a leading ':', which it does exactly when it needs one.
   */
  function PrefixTrailing(params: seq<Param>): (r: seq<Param>)
    ensures |r| == |params|
    ensures forall i :: 0 <= i < |params| - 1 ==> r[i] == params[i]
    ensures r != params <==> |params| > 0 && NeedsColon(params[|params| - 1])
    ensures r != params ==> r[|r| - 1] == Some(":" + params[|params| - 1].value)
  {
    var last := |params| - 1;
    if |params| > 0 && NeedsColon(params[last]) then
      assert (":" + params[last].value)[0] == ':';
      params[last := Some(":" + params[last].value)]
    else params
  }

  /**
   * `params.join(" ")`, in which `Array.prototype.join` writes `undefined` as
   * "": no parameters give "", one gives its text, and `JoinParamsSnoc` gives
   * every longer list.
   */
  function JoinParams(params: seq<Param>): (r: string)
    ensures params == [] ==> r == ""
    ensures |params| == 1 ==> r == params[0].GetOr("")
  {
    Join(seq(|params|, i requires 0 <= i < |params| => params[i].GetOr("")), " ")
  }

  const CRLF: string := "\r\n"

  /** The `[raw, bytes]` pair `encodeRawMessage` returns. */
  datatype Encoded = Encoded(raw: string, bytes: seq<Utf8.byte>)

  /**
   * `encodeRawMessage(command, params, encoder, skipSuffix)`: the raw line is
   * `command + " " + params.join(" ")` with its trailing whitespace removed,
   * followed by CR LF unless `skipSuffix`; the bytes are the UTF-8 encoding of
   * exactly that line.
   */
  function EncodeRawMessage(command: string, params: seq<Param>, skipSuffix: bool): (e: Encoded)
    ensures TrimmedLayout(e.raw, command + " " + JoinParams(params), if skipSuffix then "" else CRLF)
    ensures e.bytes == Utf8.Encode(e.raw)
    ensures Utf8.Decode(e.bytes) == Some(e.raw)
  {
    var line := command + " " + JoinParams(params);
    var suffix := if skipSuffix then "" else CRLF;
    var raw := TrimEnd(line) + suffix;
    TrimmedWithSuffix(line, suffix);
    Utf8.DecodeEncode(raw);
    Encoded(raw, Utf8.Encode(raw))
  }

  /**
   * `raw` is `line` with its trailing whitespace removed, then `suffix`: it
   * keeps a prefix of the line that does not end in whitespace, every character
   * after that prefix is whitespace, and `suffix` follows.
   */
  ghost predicate TrimmedLayout(raw: string, line: string, suffix: string) {
    var n := |raw| - |suffix|;
    && 0 <= n
    && raw[..n] <= line
    && (forall i :: n <= i < |line| ==> IsJsWhitespace(line[i]))
    && (n == 0 || !IsJsWhitespace(raw[n - 1]))
    && raw[n..] == suffix
  }

  /** A trimmed line followed by a suffix has that layout. */
  lemma TrimmedWithSuffix(line: string, suffix: string)
    ensures TrimmedLayout(TrimEnd(line) + suffix, line, suffix)
  {
    var body := TrimEnd(line);
    var raw := body + suffix;
    assert raw[..|body|] == body;
    assert raw[|body|..] == suffix;
  }

  /** The parameters `send` encodes: trailing `undefined`s dropped, then the last one prefixed. */
  function SendParams(params: seq<Param>): (r: seq<Param>)
    ensures |r| <= |params| && (r == [] || r[|r| - 1].Some?)
    ensures forall i :: |r| <= i < |params| ==> params[i].None?
    ensures forall i :: 0 <= i < |r| - 1 ==> r[i] == params[i]
    ensures r != [] ==> params[|r| - 1].Some?
    ensures r != [] ==>
      var last := params[|r| - 1].value;
      r[|r| - 1] == Some(if NeedsColon(Some(last)) then ":" + last else last)
  {
    PrefixTrailing(TrimUndefined(params))
  }

  /**
   * The line a `send(command, ...params)` writes and returns, CR LF included:
   * the prepared parameters joined after the command, trimmed, then CR LF.
   */
  function SendLine(command: string, params: seq<Param>): (r: string)
    ensures TrimmedLayout(r, command + " " + JoinParams(SendParams(params)), CRLF)
  {
    TrimmedWithSuffix(command + " " + JoinParams(SendParams(params)), CRLF);
    TrimEnd(command + " " + JoinParams(SendParams(params))) + CRLF
  }

  /**
   * The three steps `send` takes on its parameters before writing, in the
   * order it takes them: drop trailing `undefined`s, prefix the last parameter,
   * encode with CR LF. The result is the line `SendLine` describes and its bytes.
   */
  method PrepareLine(command: string, params: seq<Param>) returns (e: Encoded)
    ensures e.raw == SendLine(command, params)
    ensures e.bytes == Utf8.Encode(e.raw)
  {
    var kept := RemoveUndefinedParameters(params);
    var prefixed := PrefixTrailing(kept);
    e := EncodeRawMessage(command, prefixed, false);
    SendLineEncoded(command, params);
  }

  /** `SendLine` is the raw line `encodeRawMessage` makes of the prepared parameters. */
  lemma SendLineEncoded(command: string, params: seq<Param>)
    ensures SendLine(command, params) == EncodeRawMessage(command, SendParams(params), false).raw
  {
  }

  /** `JoinParams` of one more parameter. */
  lemma JoinParamsSnoc(params: seq<Param>, p: Param)
    ensures JoinParams(params + [p])
         == (if params == [] then p.GetOr("") else JoinParams(params) + " " + p.GetOr(""))
  {
    var xs := seq(|params|, i requires 0 <= i < |params| => params[i].GetOr(""));
    var ys := seq(|params + [p]|, i requires 0 <= i < |params + [p]| => (params + [p])[i].GetOr(""));
    assert ys == xs + [p.GetOr("")];
    if params != [] {
      JoinSnoc(xs, p.GetOr(""), " ");
    }
  }

  /**
   * The trailing-parameter rule: a defined last parameter that starts with ':'
   * or has a space after its first character is written after a ':', so that
   * the receiver reads it as one parameter; the rest are written as they are.
   */
  lemma TrailingGetsColon(command: string, params: seq<Param>, last: string)
    requires NeedsColon(Some(last))
    ensures SendLine(command, params + [Some(last)])
         == TrimEnd(command + " " + (if params == [] then "" else JoinParams(params) + " ") + ":" + last) + CRLF
  {
    ColonLastPrepared(params, last);
    ColonLastJoined(command, params, last);
  }

  /** The preparation steps keep every parameter and prefix a last one that needs it. */
  lemma ColonLastPrepared(params: seq<Param>, last: string)
    requires NeedsColon(Some(last))
    ensures SendParams(params + [Some(last)]) == params + [Some(":" + last)]
  {
    assert TrimUndefined(params + [Some(last)]) == params + [Some(last)];
  }

  /** The joined line of parameters whose last one carries the ':'. */
  lemma ColonLastJoined(command: string, params: seq<Param>, last: string)
    ensures command + " " + JoinParams(params + [Some(":" + last)])
         == command + " " + (if params == [] then "" else JoinParams(params) + " ") + ":" + last
  {
    JoinParamsSnoc(params, Some(":" + last));
    if params == [] {
      assert command + " " + JoinParams(params + [Some(":" + last)]) == command + " " + "" + ":" + last;
    } else {
      assert command + " " + JoinParams(params + [Some(":" + last)]) == command + " " + (JoinParams(params) + " ") + ":" + last;
    }
  }

  /**
   * `trimEnd` also reaches into a ':'-prefixed trailing parameter: whitespace
   * at its end is not sent.
   */
  lemma TrailingWhitespaceLost(command: string, params: seq<Param>, last: string, w: string)
    requires NeedsColon(Some(last))
    requires forall i :: 0 <= i < |w| ==> IsJsWhitespace(w[i])
    ensures SendLine(command, params + [Some(last + w)]) == SendLine(command, params + [Some(last)])
  {
    var lw := last + w;
    NeedsColonExtends(last, w);
    var head := command + " " + (if params == [] then "" else JoinParams(params) + " ") + ":";
    calc {
      SendLine(command, params + [Some(lw)]);
      { TrailingGetsColon(command, params, lw); }
      TrimEnd(head + lw) + CRLF;
      { assert head + lw == (head + last) + w;
        TrimEndIgnoresTrailingWhitespace(head + last, w); }
      TrimEnd(head + last) + CRLF;
      { TrailingGetsColon(command, params, last); }
      SendLine(command, params + [Some(last)]);
    }
  }

  /** Text appended to a parameter that needs the ':' leaves it needing one. */
  lemma NeedsColonExtends(last: string, w: string)
    requires NeedsColon(Some(last))
    ensures NeedsColon(Some(last + w))
  {
    var lw := last + w;
    if StartsWith(last, ':') {
      assert lw[0] == last[0];
    } else {
      var i :| 1 <= i < |last| && last[i] == ' ';
      assert lw[i] == ' ';
    }
  }

  /** What `prefixTrailingParameter` leaves alone: no parameters, `undefined`, "", or a lone leading space. */
  lemma NoColonCases(params: seq<Param>, s: string)
    requires forall i :: 0 <= i < |s| ==> s[i] != ' ' && s[i] != ':'
    ensures PrefixTrailing([]) == []
    ensures PrefixTrailing(params + [None]) == params + [None]
    ensures PrefixTrailing(params + [Some("")]) == params + [Some("")]
    ensures PrefixTrailing(params + [Some(" " + s)]) == params + [Some(" " + s)]
  {
    var t := " " + s;
    assert !IncludesFrom(t, ' ', 1) by {
      forall i | 1 <= i < |t|
        ensures t[i] != ' '
      {
        assert t[i] == s[i - 1];
      }
    }
  }

  /**
   * An empty last parameter is neither prefixed nor kept: `trimEnd` erases it
   * together with its separator, and the parameters before it are written as
   * they are, without the ':' the previous one might otherwise have received.
   */
  lemma EmptyTrailingErased(command: string, params: seq<Param>)
    ensures SendLine(command, params + [Some("")])
         == TrimEnd(command + " " + JoinParams(params)) + CRLF
  {
    EmptyLastKept(params);
    EmptyLastTrimmed(command, params);
  }

  /** An empty last parameter is neither dropped nor prefixed by the preparation steps. */
  lemma EmptyLastKept(params: seq<Param>)
    ensures SendParams(params + [Some("")]) == params + [Some("")]
  {
    var ps := params + [Some("")];
    assert TrimUndefined(ps) == ps;
    assert !StartsWith("", ':') && !IncludesFrom("", ' ', 1);
  }

  /** `trimEnd` removes an empty last parameter together with the space before it. */
  lemma EmptyLastTrimmed(command: string, params: seq<Param>)
    ensures TrimEnd(command + " " + JoinParams(params + [Some("")])) == TrimEnd(command + " " + JoinParams(params))
  {
    var ps := params + [Some("")];
    JoinParamsSnoc(params, Some(""));
    if params == [] {
      assert command + " " + JoinParams(ps) == command + " ";
      TrimEndIgnoresTrailingWhitespace(command, " ");
      TrimEndIgnoresTrailingWhitespace(command + " ", "");
    } else {
      assert command + " " + JoinParams(ps) == (command + " " + JoinParams(params)) + " ";
      TrimEndIgnoresTrailingWhitespace(command + " " + JoinParams(params), " ");
    }
  }
}
