# deno-irc core, modelled in Dafny

This project models the core of the deno-irc client library:

- **Outbound line encoder.** It turns `send(command, ...params)` into one wire line. Trailing `undefined` parameters are dropped. The last parameter gets a `:` when it starts with `:` or has a space after its first character; this is the trailing-parameter rule of section 2.3.1 of RFC 2812. The parameters are then joined, `trimEnd` is applied, and CR LF is appended. The result is encoded as UTF-8.
- **`CoreClient` connection state machine.** Its state is a nullable socket plus the remote address. It has `connect`, the read `loop`, `close`/`disconnect`, `send` and `emitError`.
- **Listener registry.** `EventEmitter` provides `on`, `once`, `off`, `emit` and `listenerCount`.
- **Error classification.** `toClientError` attaches the error type and prefixes the message.
- **Websocket transport.** These hooks replace `connect`, `send` and `disconnect` when the `websocket` option is set.
- **Four plugins** built on the above:
  - JOIN (section 3.2.1 of RFC 2812);
  - PRIVMSG routing (section 3.3.1 of RFC 2812);
  - KILL (section 3.7.1 of RFC 2812);
  - CTCP ACTION.

Modules follow the source files:

| module | file |
|---|---|
| `Encoder` | `core/client.ts:17-46` |
| `Client` | `CoreClient` |
| `Events` | `core/events.ts` |
| `Errors` | `core/errors.ts` |
| `Websocket` | `plugins/websocket.ts` |
| `JoinPlugin`, `MsgPlugin`, `KillPlugin`, `ActionPlugin` | the plugins |
| `Text` | the JavaScript string operations the encoder uses (`trimEnd`, `join`, `includes`, `split` on commas, decimal rendering of a number) |
| `Utf8` | `TextEncoder`: UTF-8 with a decoder, and the round trip between them |

The client and the websocket hooks are classes whose methods update their fields in place.

- Every event the client emits is appended to the trace `CoreClient.emitted`. Claims about order and counts ("exactly one `error` event", "`disconnected` before `connecting`") are therefore statements about that trace.
- Sockets, URL parsing and the message parser are foreign code. Each call into them is a method parameter describing what the call did:
  - `Outcome`, `Opening` and `ReadResult` for socket calls;
  - `Construction` for `new WebSocket`;
  - `Parsing` for the message parser;
  - a batch of parsed messages per chunk;
  - a `parseUrl` function.
- What the client does to the transport is recorded as well, in one ordered trace per object: `CoreClient.transport` holds the core client's `Dial`, `Sent` and `Closed` calls, and `WebsocketHooks.calls` holds the hooks' `Construct`, `SendFrame` and `CloseSocket` calls. Claims such as "the old socket is closed before the new one is opened" are statements about these traces.

Three behaviours are stated as lemmas:

- Reconnecting over a live connection emits `disconnected` for the old socket carrying the **new** address. This is because the address is stored before `close()` runs.
- The websocket `disconnect` is not idempotent: it emits `disconnected` even with no socket. The core `close()` is idempotent.
- `trimEnd` erases an empty last parameter. It also erases trailing whitespace of a `:`-prefixed trailing parameter.

## Model

| member | source | states |
|---|---|---|
| `Encoder.TrimUndefined` | core/client.ts:17-21 | the result is a prefix of the parameters that is empty or ends in a defined one, and every dropped parameter is `undefined` |
| `Encoder.TrimUndefinedUnique` | core/client.ts:17-21 | those three properties determine the result: only trailing `undefined`s are removed, interior ones stay |
| `Encoder.TrimUndefinedIdempotent` | core/client.ts:17-21 | removing trailing `undefined`s twice is the same as once |
| `Encoder.RemoveUndefinedParameters` | core/client.ts:17-21 | the backward pop loop leaves exactly `TrimUndefined` of its input |
| `Encoder.PrefixTrailing` | core/client.ts:24-32 | same length; only the last parameter can change; it changes exactly when it is defined and starts with ':' or has a space at index 1 or later, and then it becomes ':' followed by the old value |
| `Encoder.NeedsColon` | core/client.ts:27-30 | a parameter that gets a ':' is defined and non-empty; a leading ':' or a space at index 1 or later makes it get one |
| `Encoder.NoColonCases` | core/client.ts:24-32 | no parameters, an `undefined` last parameter, "", and a space followed by a word without spaces or ':' are all left unprefixed |
| `Encoder.EncodeRawMessage` | core/client.ts:35-46 | `raw` is `command + " " + params.join(" ")` with trailing whitespace removed (every removed character is whitespace and the kept part does not end in whitespace), then CR LF unless `skipSuffix`; `bytes` is exactly the UTF-8 encoding of `raw`, and decodes back to it |
| `Encoder.JoinParams` | core/client.ts:41 | `params.join(" ")` of no parameters is "", and of one parameter is its text, with `undefined` written as "" |
| `Encoder.SendParams` | core/client.ts:241-243 | the parameters `send` encodes: a prefix of the arguments that is empty or ends in a defined one; every dropped argument is `undefined`; all but the last are unchanged; the last is the argument at that position, with a ':' added exactly when it needs one |
| `Encoder.SendLine` | core/client.ts:241-245 | the line `send` writes is `command + " " + join(" ")` of `SendParams` with only trailing whitespace removed and the kept part not ending in whitespace, then CR LF |
| `Encoder.TrimmedWithSuffix` | core/client.ts:41-42 | `trimEnd` followed by a suffix has that layout for every line and suffix |
| `Encoder.PrepareLine` | core/client.ts:241-245 | the trim, prefix and encode steps of `send`, in that order, produce `SendLine` and its UTF-8 bytes |
| `Encoder.SendLineEncoded` | core/client.ts:241-245 | `SendLine` is the raw line `encodeRawMessage` makes of the prepared parameters |
| `Encoder.JoinParamsSnoc` | core/client.ts:41 | `join(" ")` of one more parameter appends a space and its text, with `undefined` written as "" |
| `Encoder.TrailingGetsColon` | core/client.ts:24-46 | a last parameter that needs a ':' is written after " :" while the others are written unchanged |
| `Encoder.TrailingWhitespaceLost` | core/client.ts:41 | whitespace at the end of a ':'-prefixed trailing parameter never reaches the wire |
| `Encoder.EmptyTrailingErased` | core/client.ts:41 | an empty last parameter is erased together with its separator, and the parameter before it gets no ':' |
| `Text.TrimEnd` | core/client.ts:41 | `trimEnd` keeps a prefix, drops only ECMAScript whitespace, and leaves no whitespace at the end |
| `Text.TrimEndIgnoresTrailingWhitespace` | core/client.ts:41 | appending whitespace does not change the result of `trimEnd` |
| `Text.JoinSnoc` | core/client.ts:41 | `join` of one more element appends the separator and that element |
| `Text.JoinLayout` | core/client.ts:41 | `join` of no elements is ""; otherwise its length is the elements' total length plus one separator between each pair, it starts with the first element and ends with the last |
| `Utf8.EncodeChar` | core/client.ts:43 | one scalar value takes one to four bytes |
| `Utf8.Encode` | core/client.ts:43 | a string of n scalar values takes between n and 4n bytes, and an all-ASCII string is written byte for byte |
| `Utf8.EncodeCharDecodes` | core/client.ts:43 | each encoded scalar value decodes back from its lead byte, under a decoder that rejects bad continuation bytes, overlong forms, surrogates and values past U+10FFFF |
| `Utf8.DecodeEncode` | core/client.ts:43 | decoding the encoding of a string gives the string back |
| `Utf8.EncodeInjective` | core/client.ts:43 | two strings with the same bytes are equal, so the bytes written determine the returned line |
| `Errors.ClientMessageRoundTrip` | core/errors.ts:25 | `"<type>: <message>"` determines both the type and the original message |
| `Errors.TypeName` | core/errors.ts:1 | the four error type names are 4 to 7 characters long, with no ':' or space |
| `Errors.ClientMessage` | core/errors.ts:25 | the message is the type name, then ": ", then the old message unchanged, and the first ':' is the one after the type name |
| `Errors.ToClientError` | core/errors.ts:16-28 | a string becomes a new error with that message; an error object is returned itself, changed in place; the result's type is the given one and its message is `"<type>: "` plus the old message |
| `Client.FaultEvents` | core/client.ts:263-271 | BadResource and Interrupted errors emit nothing; any other error emits exactly one `error` event of the given type, whose message gives back the type and the original message |
| `Client.CloseEvents` | core/client.ts:213-226 | nothing without a connection; `disconnected` with the current address when closing returns; the `close` error instead when it throws |
| `Client.EventName` | core/client.ts:164-270 | an event's name starts with `raw:` exactly for a raw message event, and then the rest is the message's command |
| `Client.ConnectEvents` | core/client.ts:157-174 | `connect` first emits exactly the events of closing the old socket (`CloseEvents`: nothing, `disconnected`, or the `close` error), then `connecting`, which occurs nowhere else; `connected` is emitted exactly when the socket opened, directly after `connecting` and as the last event; after a failed open only `FaultEvents` of the `connect` error follow |
| `Client.ReconnectReportsNewAddress` | core/client.ts:157-164 | over a live connection, the events start `disconnected(new address)`, `connecting(new address)` |
| `Client.RawEvents` | core/client.ts:188-190 | one `raw:<command>` event per parsed message, in parser order |
| `Client.RawEventsConcat` | core/client.ts:186-190 | the raw events of consecutive chunks are those of all their messages in order |
| `Client.ReadEvents` | core/client.ts:196-211 | a read emits the `read` error when `conn.read` throws, and nothing otherwise |
| `Client.Stop` | core/client.ts:182-184 | the loop stops at the first read that yields null; every read before it yielded a chunk |
| `Client.StopUnique` | core/client.ts:182-184 | no other position has those two properties |
| `Client.LoopEventsStopped` | core/client.ts:181-194 | a loop that stopped at read k emits the raw events of the chunks before k, then the events of read k, then those of `close()` |
| `Client.LoopEventsRunning` | core/client.ts:181-190 | a loop that has not met a null read has emitted only raw events, those of every chunk so far |
| `Client.LoopEvents` | core/client.ts:181-194 | the raw events of every chunk before the stopping read come first, and at most two non-raw events follow them; a loop that met no null read emits only those raw events |
| `Client.LoopEndsWithDisconnect` | core/client.ts:181-194 | when the stream ends on a live connection that closes cleanly, the loop emits all parsed messages and then exactly `disconnected` |
| `Client.CoreClient.constructor` | core/client.ts:126-127 | no connection; the address is `{hostname: "", port: 0, tls: false}` |
| `Client.CoreClient.Emit` | core/client.ts:164 | appends exactly one event to the trace and changes nothing else |
| `Client.CoreClient.EmitError` | core/client.ts:263-271 | silent errors are dropped and left untouched; any other is classified in place and emitted once |
| `Client.CoreClient.EmitFault` | core/client.ts:263-271 | a thrown error emits `FaultEvents` of its type and nothing else changes |
| `Client.CoreClient.Close` | core/client.ts:213-226 | afterwards there is no connection, even when closing threw; the transport trace gains exactly one `Closed` of the old socket if there was one, and nothing otherwise; the event trace grows by `CloseEvents` |
| `Client.CoreClient.Disconnect` | core/client.ts:258-260 | the same as `close()` |
| `Client.CoreClient.Connect` | core/client.ts:151-179 | the address `{hostname, port, tls}` is stored first, with `tls` defaulting to false; the transport trace gains the old socket's `Closed` (when there was one) and then one `Dial`, with TLS exactly when asked, in that order; the event trace grows by `ConnectEvents`; the result and the new connection are the opened socket, or null on failure |
| `Client.CoreClient.Read` | core/client.ts:196-211 | returns the chunk's text, or null at end of stream or on error, emitting only `ReadEvents` |
| `Client.CoreClient.EmitRaw` | core/client.ts:186-190 | emits the raw events of one chunk's messages, in order |
| `Client.CoreClient.Loop` | core/client.ts:181-194 | it stops exactly at the first null read; the raw events of every earlier chunk come first, then the read error if any, then what `close()` emits; the connection is dropped, and its `Closed` recorded on the transport trace, only when the loop stopped |
| `Client.CoreClient.Send` | core/client.ts:232-255 | without a connection: one `write` error, null, and nothing added to the transport trace; otherwise exactly one `Sent` of the bytes of `SendLine` on the connection is recorded, and it returns `SendLine` on success, or null plus `FaultEvents` of the `write` error when writing threw |
| `Events.WithoutConcat` | core/events.ts:72-73 | `filter` distributes over concatenation |
| `Events.Without` | core/events.ts:72-73 | the filtered list is no longer than before and no longer contains the listener |
| `Events.WithoutOnce` | core/events.ts:53-56 | after every `once` closure has removed itself, exactly the plain listeners of the list remain |
| `Events.Assign` | core/events.ts:72-77 | storing an empty list deletes the name; storing a non-empty one makes it the name's list |
| `Events.WithoutCounts` | core/events.ts:72-73 | every registration of the listener goes, and every other listener keeps its number of occurrences |
| `Events.WithoutAbsent` | core/events.ts:72-73 | filtering out a listener that is not registered changes nothing |
| `Events.WithoutSingle` | core/events.ts:72-73 | removing a listener that occurs once leaves the rest in order |
| `Events.WithoutOnceHasNoWrapper` | core/events.ts:53-56 | after every `once` closure has fired, only plain listeners remain, all of them from before |
| `Events.WellFormedAfterOff` | core/events.ts:72-77 | `off` keeps the registry well formed: no empty lists, and no `once` closure twice |
| `Events.WellFormedAfterAppend` | core/events.ts:32-33 | `on` and `once` keep the registry well formed |
| `Events.AssignEffect` | core/events.ts:72-77 | storing a list leaves every other name as it was, and an empty list deletes the name |
| `Events.AssignTwice` | core/events.ts:72-77 | storing a non-empty list and then another under the same name is the same as storing only the second |
| `Events.PendingStepFn` | core/events.ts:22-24 | invoking a plain listener leaves the list `emit` is walking unchanged |
| `Events.PendingStepOnce` | core/events.ts:53-56 | a `once` closure removes exactly itself, so the listeners after it in the snapshot still run |
| `Events.EmitStep` | core/events.ts:22-24 | one step of `emit` moves the registry from one position of the snapshot to the next |
| `Events.EventEmitter.constructor` | core/events.ts:11 | no listeners and no calls |
| `Events.EventEmitter.ListenerCount` | core/events.ts:81-83 | the length of the name's list, and 0 exactly when the name has no entry |
| `Events.EventEmitter.On` | core/events.ts:28-35 | appends the listener at the end of the name's list and returns its remover |
| `Events.EventEmitter.Once` | core/events.ts:48-56 | appends a new self-removing closure around the callback |
| `Events.EventEmitter.Off` | core/events.ts:68-78 | for a name with no entry it throws and changes nothing; otherwise it removes every registration of the listener, keeps the rest in order, and deletes the name when the list becomes empty |
| `Events.EventEmitter.Remove` | core/events.ts:34 | the function `on` returns is `off(name, listener)` |
| `Events.EventEmitter.Invoke` | core/events.ts:53-56 | a `once` closure first unregisters itself, which cannot throw, and then calls its callback; a plain listener is called |
| `Events.EventEmitter.Emit` | core/events.ts:14-25 | a name with no entry: no effect; otherwise every listener registered when `emit` began is called once, in registration order, with the payload; afterwards the fired `once` closures are gone and only plain listeners remain |
| `Websocket.PortAsWritten` | plugins/websocket.ts:42 | the port as written: a given non-zero port becomes 443, a given 0 becomes 80, and only an absent port follows `tls` |
| `Websocket.IntendedPort` | plugins/websocket.ts:42 | the evidently intended default: a given port is kept, and an absent one is 443 with TLS and 80 without |
| `Websocket.PortDefaultsAgree` | plugins/websocket.ts:42 | the two agree when no port is given |
| `Websocket.PortAsWrittenDiscardsPort` | plugins/websocket.ts:42 | port 6667 without TLS becomes 443 as written, but stays 6667 as intended |
| `Websocket.WebsocketUrlLayout` | plugins/websocket.ts:43-45 | the URL text is `wss://` with TLS and `ws://` otherwise, then `serverAndPath`, then ':'; a non-negative port follows the ':' as its decimal digits and ends the text |
| `Websocket.UrlPortReadsBack` | plugins/websocket.ts:43-45 | the characters after the last ':' are decimal digits that read back as the port |
| `Websocket.DisconnectEvents` | plugins/websocket.ts:94-103 | `disconnected` when there is no socket or closing succeeds; the `close` error when closing throws |
| `Websocket.DisconnectNotIdempotent` | plugins/websocket.ts:94-103 | a second websocket disconnect emits `disconnected` again, where the core `close()` emits nothing |
| `Websocket.MessageEvents` | plugins/websocket.ts:28-35 | a frame that parses emits exactly one `raw:<command>`; one that does not emits no raw event, only the `read` error |
| `Websocket.WebsocketHooks.constructor` | plugins/websocket.ts:22 | the hooks start without a socket |
| `Websocket.WebsocketHooks.Connect` | plugins/websocket.ts:41-71 | if the URL does not parse, nothing changes. Otherwise the hooks' call trace gains `CloseSocket(old socket, 1000)` (when there was one) and then `Construct(url)`, in that order; the address (URL host, port, `tls`, URL path) is stored and `connecting` is emitted carrying it; a construction failure emits the `connect` error and keeps the old socket; the core client's connection and transport trace are untouched. The hook returns null |
| `Websocket.WebsocketHooks.Send` | plugins/websocket.ts:73-92 | without a socket: one `write` error, null, and nothing added to the call trace; otherwise exactly one `SendFrame` of the bytes of `SendLine` is recorded, and it returns `SendLine`, or null plus `FaultEvents` of the `write` error when sending threw |
| `Websocket.WebsocketHooks.Disconnect` | plugins/websocket.ts:94-103 | afterwards there is no socket; the call trace gains `CloseSocket(socket, 1000)` if there was one, and nothing otherwise; `disconnected` is emitted even without a socket |
| `Websocket.WebsocketHooks.OpenHandler` | plugins/websocket.ts:24-26 | emits `connected` with the current address |
| `Websocket.WebsocketHooks.MessageHandler` | plugins/websocket.ts:28-35 | emits `MessageEvents` of the parsed frame |
| `Websocket.WebsocketHooks.ErrorHandler` | plugins/websocket.ts:37-39 | always exactly one `read` error event |
| `Websocket.Install` | plugins/websocket.ts:20-22 | hooks are installed exactly when the `websocket` option is true |
| `JoinPlugin.Channels` | plugins/join.ts:35-43 | one name per argument, in argument order: the string itself, or the first element of a `[channel, key]` pair |
| `JoinPlugin.Keys` | plugins/join.ts:35-43 | one key per argument, in argument order: "" for a bare name, the pair's second element otherwise |
| `JoinPlugin.JoinCommandParams` | plugins/join.ts:45-49 | one or two defined parameters: the first is the names joined by ","; the second, the keys joined by ",", is present exactly when some key is non-empty |
| `JoinPlugin.JoinKeysPairUp` | plugins/join.ts:35-49 | without commas in names and keys, splitting the two parameters gives back the names and keys, equally many, so the i-th key belongs to the i-th channel |
| `JoinPlugin.SendJoin` | plugins/join.ts:31-52 | the loop builds the one `send("JOIN", ...)` with those parameters |
| `JoinPlugin.BareChannelsParams` | plugins/join.ts:45-49 | bare `#channel1`, `#channel2` give the single parameter `#channel1,#channel2` |
| `JoinPlugin.PlainParamLine` | core/client.ts:24-46 | a single parameter without spaces or a leading ':' is written as it is |
| `JoinPlugin.BareChannelsLine` | plugins/join_on_register_test.ts:21 | joining `#channel1` and `#channel2` sends `JOIN #channel1,#channel2` |
| `JoinPlugin.EmitJoin` | plugins/join.ts:54-63 | an event exactly for `JOIN`, with `channel = params[0]` and the parsed prefix as origin |
| `MsgPlugin.MsgCommand` | plugins/msg.ts:47 | `msg(...args)` is `send("PRIVMSG", ...args)` |
| `MsgPlugin.MsgEvents` | plugins/msg.ts:50-82 | no events unless the message is a non-CTCP `PRIVMSG`; then `msg` with origin, target and text, followed by `msg:channel` (with the channel) exactly when the target is a channel, and `msg:private` (origin and text only) otherwise |
| `MsgPlugin.ExactlyOneRoute` | plugins/msg.ts:63-80 | `msg` comes first, and exactly one of `msg:channel` and `msg:private` follows |
| `KillPlugin.SendKill` | plugins/kill.ts:26-28 | `send("KILL", ...)` with the parameters unchanged and in order |
| `KillPlugin.EmitKill` | plugins/kill.ts:30-39 | an event exactly for `KILL`, with `nick = params[0]`, `comment = params[1]` and the parsed prefix as origin |
| `KillPlugin.KillLineWithComment` | plugins/kill.ts:26-28 | a comment with a space after its first character is sent as the trailing parameter: the line is `KILL <nick> :<comment>` with trailing whitespace removed, then CR LF |
| `ActionPlugin.SendAction` | plugins/action.ts:30-32 | `action(target, text)` is `ctcp(target, "ACTION", text)` |
| `ActionPlugin.Commands` | plugins/action.ts:46-47 | the plugin installs exactly `action` and `me`, the same function, and each sends `ctcp(target, "ACTION", text)` |
| `ActionPlugin.EmitAction` | plugins/action.ts:34-44 | an event exactly for `ACTION` with a parameter; origin and target pass through and the text is the parameter |
| `Protocol.ParamAt` | plugins/join.ts:59 | `params[i]` is defined exactly below the number of parameters |
| `Text.SplitJoin` | plugins/join.ts:45-48 | splitting a comma-joined list without commas in its elements gives the list back |
| `Text.NatToString` | plugins/websocket.ts:45 | the decimal digits of a port, without leading zeros |
| `Text.NatToStringValue` | plugins/websocket.ts:45 | the digits read back as the port number |
| `Text.NumberToString` | plugins/websocket.ts:45 | a port is rendered as decimal digits without a leading zero that read back as its magnitude, after a '-' exactly when it is negative |

## Left out

- Promise scheduling is not modelled: every operation is one sequential step. In the source, `connect` starts the read loop without awaiting it; here `Client.CoreClient.Loop` is a separate step that the caller takes after `Connect`. A socket closed while a read is pending is covered only by the outcome passed to that read.
- Foreign I/O is not modelled; each call is described by a parameter. This covers `Deno.connect`, `Deno.connectTls`, `conn.read`, `conn.write`, `conn.close`, `WebSocket` and `URL`.
- `TextDecoder` and the receive buffer (size 4096 by default, or `bufferSize`) are not modelled: a read yields its decoded text directly.
- The message parsers (`parseMessages`, `parseMessage`) are foreign code: the loop receives the parser's batch for each chunk. The parser's buffering of partial lines across chunks therefore lies inside those batches.
- Other code that is not part of this model:
  - `Hooks.hookCall`, `loadPlugins`, `createMultiEvent` (the `raw` event that stands for every `raw:*` event), `memorizeCurrentListenerCounts`, `generateRawEvents` and `PROTOCOL`;
  - `parseUserMask`, `isChannel` and `isCtcp`, which are function parameters;
  - `client.ctcp`, which is recorded as a `CtcpCall` value.
- `Client.CoreClient.Emit` only records the event. The client's own listeners are not run: a listener that throws or re-enters the client is not modelled. The registry itself is modelled separately in `Events`.
- `Errors.ToClientError`: `Error.captureStackTrace` and stack contents are not modelled.
- `Events.EventEmitter.Once`: only the callback form is modelled. The promise form of `once` is not.
- `Events.EventEmitter.Off`: only calls with a listener are modelled. `off(name)` without one filters out nothing.
- `Encoder.RemoveUndefinedParameters` and `Encoder.PrefixTrailing` return new sequences. In the source they mutate the caller's array in place and `send` reads the mutated array; the model passes the returned sequence on instead, and aliasing of the caller's array is not modelled.
- `Websocket.WebsocketHooks.Connect` uses the corrected port default `IntendedPort` (see Findings). Line 42 as written is modelled by `PortAsWritten`.
- `Websocket.WebsocketHooks.Connect`: the hook's fourth argument is taken as an optional boolean, as its name says. What the hook registry actually passes there is not part of this model.
- Ports are integers. NaN and fractional ports are not modelled. `Text.NumberToString` gives JavaScript's decimal rendering only for magnitudes below 10^21; above that JavaScript writes an exponent form, which is not modelled.
- Strings are sequences of Unicode scalar values. A JavaScript string can also hold a lone surrogate, which `TextEncoder` writes as the bytes EF BF BD, the same bytes as U+FFFD. Lone surrogates are not represented, so `Utf8.EncodeInjective`, `Utf8.DecodeEncode` and the byte clauses of `Encoder.EncodeRawMessage` hold only for strings without them.
- `Events.EventEmitter.Emit`: listener callbacks are taken to have no effect on the emitter and never to throw. Callbacks that call `on`, `off`, `once` or `emit` on the same emitter while it iterates are not modelled. Two cases the source handles differently are therefore missing. First, `on(name, g)` during `emit(name)`, before any `off` on that name in the same emit, pushes `g` onto the array being iterated, so `g` runs in the same emit. Second, a re-entrant `emit` that fires another `once` closure can delete the name; the outer emit then reaches that closure, and its `off` throws on the missing list. A listener that throws, which ends the emit early, is not modelled either.
- `Events.EventEmitter.Invoke`: it requires a `once` closure to be still registered. The re-entrant case above, in which the closure's `off` throws, is not modelled.
- `Events.EventEmitter.ListenerCount`: JavaScript's `in` also finds names on the object's prototype chain, such as `"constructor"` or `"toString"`. For `"constructor"`, `listenerCount` returns the `length` of the `Object` function, which is 1, and `emit` throws because a function is not iterable. For `"constructor"`, `on` and `once` throw as well: `??=` at core/events.ts:32 does not assign, because the name is already defined, and `.push` at :33 does not exist on a function. The model treats such names as unregistered: `listenerCount` returns 0 for them, `emit` does nothing, and `On` and `Once` append to a new list.
- The `error` event carries the error object; the trace records its type and message, which is all that `toClientError` sets.

## Findings

| source | as written | input that shows it | evidently intended | confidence | as-written member | corrected member |
|---|---|---|---|---|---|---|
| plugins/websocket.ts:42 | `port = port ?? tls ? TLS_PORT : INSECURE_PORT` parses as `(port ?? tls) ? 443 : 80`, so a given port is replaced | port 6667 without TLS gives 443 (`PortAsWrittenDiscardsPort`) | `port ?? (tls ? 443 : 80)`: keep a given port, and default by `tls` only when none is given | high (not executed) | `Websocket.PortAsWritten` | `Websocket.IntendedPort` |
