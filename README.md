# mango-shake streaming, signing and trading core in Dafny

This project models the parts of the mango-shake trading bot that hold exact,
stateful logic:

- **Bitget streaming client** (`BitgetWebsocketClient`). It keeps a registry of
  subscription keys and sends `subscribe`/`unsubscribe` envelopes for the
  difference between a request and the registry. On every new connection it
  resubscribes the whole registry. It reconnects with a capped, doubling
  backoff that resets after each successful handshake. Its receive loop skips
  `pong` frames and survives malformed JSON. Its key type (`SubscribeReq`), the
  envelope (`BaseWsReq`) and the seed list built by `BitgetStreamManager` are
  modelled alongside it.
- **Legacy Bitget client** (`BitgetWebsocketPublicClient`). It sends a fixed
  candle subscription, checks the acknowledgement, and backs off without ever
  resetting the delay.
- **Kiwoom WebSocket client** (`KiwoomWS`). A state machine over the socket and
  the `connected` and `keep_running` flags: it logs in on connect, connects
  automatically on send, echoes PING, and ends the loop on a rejected login.
- **Request signing.** Covers dropping `None` parameters, the `k=v&...` query
  string, the GET-only query rule, the minified body, the four authentication
  headers and the pre-sign string `timestamp ++ METHOD ++ path[?query] ++ body`.
  HMAC-SHA256 (RFC 2104) and Base64 (section 4 of RFC 4648) are parameters.
- **Secret masking** for request logs (`TracingClientSession`).
- **Bitget error decoding** (`BitgetError`, `BitgetErrorCode`).
- **The trading script `0458.py`.** Covers the candle predicates, tick and size
  step derivation, rounding down to a step, the buy and sell rules, order
  sizing and the order of steps in `execute_strategy`. Its `Decimal` arithmetic
  is modelled over exact reals.

## Modelling conventions

- **Stateful code stays stateful.** Classes whose fields the source mutates
  are Dafny classes with the same fields and `modifies` frames: the new and
  legacy Bitget clients, and the Kiwoom client. Each method's `ensures` ties
  the new state to a pure function of the old state. The properties are
  proved as lemmas about those functions.
- **The outside world becomes inputs**, listed here per component.
  - Bitget client: each reconnect pass is an `Attempt` record. It says whether
    the handshake succeeded, whether the server closed the new socket before
    the resubscription was written, how many heartbeat ticks ran, which frames
    arrived and whether `close` was called.
  - Legacy client: each connection is a `Connection` record. It says how the
    send, the acknowledgement and the session ended.
  - Kiwoom client: each socket operation takes a `Net` record of outcomes.
  - Sleeps are recorded, not taken.
  - Frames written to a socket go into a log tagged with the socket's number.
- **Library functions are parameters.** This covers `json.loads`,
  `json.dumps`, `repr`, `hash`, HMAC-SHA256, Base64 and the millisecond
  clock.
- **Python's truthiness and `dict.get` are written out.** Examples: a missing
  key versus a JSON `null`, and `if params:` on an empty dict.

## Model

| member | source | states |
|---|---|---|
| WsDto.EqualityIsStructural | src/exchange/bitget/dto/websocket.py:14-20 | two subscription keys are equal iff `inst_type`, `channel` and `inst_id` are all equal |
| WsDto.HashRespectsEquality | src/exchange/bitget/dto/websocket.py:22-23 | keys with equal attributes have equal hashes, whatever the string hash function is |
| WsDto.HashCollisionKeepsBoth | src/exchange/bitget/dto/websocket.py:19-23 | `("ab","c",x)` and `("a","bc",x)` hash alike, yet are unequal, so a set holds both |
| WsDto.Vars | src/exchange/bitget/dto/websocket.py:14-17 | `vars(ch)` is an object with exactly the keys `inst_type`, `channel`, `inst_id`, each holding that attribute |
| WsDto.VarsInjective | src/exchange/bitget/dto/websocket.py:14-17 | distinct keys serialise to distinct argument objects |
| WsDto.ArgsJson | src/exchange/bitget/websocket_public_client.py:115 | the argument list has one `vars` object per key, in the keys' order |
| WsDto.Payload | src/exchange/bitget/websocket_public_client.py:104-105 | the envelope is an object with exactly `op` and `args`; `op` is copied and `args` lists each key's `vars` object in order |
| WsDto.PayloadInjective | src/exchange/bitget/dto/websocket.py:4-8 | an envelope determines its `op` and its argument list |
| StreamManager.RowsLength | src/exchange/bitget/stream_manager.py:22-23 | one strategy contributes `len(intervals) * len(universe)` entries |
| StreamManager.RowsAt | src/exchange/bitget/stream_manager.py:16-23 | the entry for interval i and symbol j sits at position `i * len(universe) + j`: interval outer, symbol inner |
| StreamManager.StrategyChannelsAt | src/bitget/stream_manager.py:15-24 | the legacy copy has the same per-strategy layout: entry (i, j) at `i * len(universe) + j` |
| StreamManager.ChannelsLength | src/exchange/bitget/stream_manager.py:15-24 | the list's length is the sum over strategies of `len(intervals) * len(universe)` |
| StreamManager.ChannelsAppend | src/exchange/bitget/stream_manager.py:21 | strategies are the outermost loop: the list for `a + b` is the list for `a` followed by the list for `b` |
| StreamManager.EmptyStrategyContributesNothing | src/exchange/bitget/stream_manager.py:22-23 | a strategy with no intervals or no symbols contributes no entry |
| StreamManager.StrategyMembership | src/exchange/bitget/stream_manager.py:16-20 | a key is in a strategy's block iff it is `(product_type, "candle" + interval, symbol)` for one of its intervals and symbols |
| StreamManager.ChannelsMembership | src/bitget/stream_manager.py:15-24 | a key is in the list iff some strategy produces it |
| StreamManager.EntriesAreCandleChannels | src/exchange/bitget/stream_manager.py:16-20 | every entry's channel starts with `candle`, and its instrument type is some strategy's product type |
| StreamManager.DuplicatesAcrossStrategiesKept | src/exchange/bitget/stream_manager.py:15-24 | two identical strategies give the same entry twice: the list does not deduplicate |
| Backoff.Next | src/exchange/bitget/websocket_public_client.py:73 | the next delay is at most the cap and at most twice the current delay |
| Backoff.DoubleStep | src/exchange/bitget/websocket_public_client.py:73 | one step from the k-th capped doubling gives the (k+1)-th |
| Backoff.DefaultDoubling | src/exchange/bitget/websocket_public_client.py:38-39 | with the default delay 1 and cap 60, the capped doublings are 1, 2, 4, 8, 16, 32, 60, 60 |
| BitgetWsClient.NewEntries | src/exchange/bitget/websocket_public_client.py:110 | the keys to subscribe are exactly the input keys not in the registry |
| BitgetWsClient.NewEntriesCounts | src/exchange/bitget/websocket_public_client.py:110 | an unregistered key appears in the delta as often as in the input, so duplicates are sent twice; a registered key never appears |
| BitgetWsClient.NewEntriesOrder | src/exchange/bitget/websocket_public_client.py:110 | the delta is a subsequence of the input: input order is kept |
| BitgetWsClient.PresentEntries | src/exchange/bitget/websocket_public_client.py:118 | the keys to remove are exactly the input keys in the registry |
| BitgetWsClient.PresentEntriesCounts | src/exchange/bitget/websocket_public_client.py:118 | a registered key appears in the removal list as often as in the input |
| BitgetWsClient.PresentEntriesOrder | src/exchange/bitget/websocket_public_client.py:118 | the removal list is a subsequence of the input: input order is kept |
| BitgetWsClient.PresentElements | src/exchange/bitget/websocket_public_client.py:118 | the set of keys to remove is the input's set intersected with the registry |
| BitgetWsClient.FirstRepeat | src/exchange/bitget/websocket_public_client.py:122-123 | the index where `remove` first meets a key already removed; no repeat before it |
| BitgetWsClient.DistinctIffNoRepeat | src/exchange/bitget/websocket_public_client.py:122-123 | the removal loop finishes without `KeyError` iff the list has no repeated key |
| BitgetWsClient.SeedSetSize | src/exchange/bitget/websocket_public_client.py:50 | the registry seeded from the stream manager's list is no larger than the list, and strictly smaller when the list repeats a key |
| BitgetWsClient.Schedule | src/exchange/bitget/websocket_public_client.py:72 | the reconnect loop sleeps once per pass |
| BitgetWsClient.SchedulePrefix | src/exchange/bitget/websocket_public_client.py:72-73 | the sleeps of the first k passes depend only on those passes |
| BitgetWsClient.ScheduleAt | src/exchange/bitget/websocket_public_client.py:62-73 | pass k sleeps the reset delay after a successful handshake, else the delay reached after the earlier passes |
| BitgetWsClient.ResetAfterSuccess | src/exchange/bitget/websocket_public_client.py:62 | a pass whose handshake succeeded sleeps exactly the initial delay |
| BitgetWsClient.DelayAfterFailures | src/exchange/bitget/websocket_public_client.py:55-73 | after k failed handshakes the delay is the initial delay doubled k times, capped |
| BitgetWsClient.BackoffDoubles | src/exchange/bitget/websocket_public_client.py:55-73 | under repeated failures, the k-th sleep is the initial delay doubled k times, capped |
| BitgetWsClient.DefaultBackoff | src/exchange/bitget/websocket_public_client.py:38-39 | with the defaults, eight failed passes sleep 1, 2, 4, 8, 16, 32, 60, 60 |
| BitgetWsClient.ScheduleBounded | src/exchange/bitget/websocket_public_client.py:73 | no delay or sleep exceeds the larger of the initial delay and the cap |
| BitgetWsClient.EveryFrameAccounted | src/exchange/bitget/websocket_public_client.py:80-87 | each inbound frame is exactly one of: a skipped `pong`, a decoded message, or a logged invalid frame |
| BitgetWsClient.ReceivedAppend | src/exchange/bitget/websocket_public_client.py:80-87 | decoding a stream is decoding its parts in turn: no frame ends the loop |
| BitgetWsClient.PongNeverDecoded | src/exchange/bitget/websocket_public_client.py:82-83 | a `pong` frame is skipped before decoding, whatever the decoder would make of it |
| BitgetWsClient.MalformedFrameSkipped | src/exchange/bitget/websocket_public_client.py:86-87 | a frame that fails to decode adds nothing; the frames after it are still decoded |
| BitgetWsClient.Pings | src/exchange/bitget/websocket_public_client.py:93 | the heartbeat writes n `ping` frames, all on the current socket |
| BitgetWsClient.Passes | src/exchange/bitget/websocket_public_client.py:56 | the loop runs until the first pass during which `close` is called, and that pass is the last |
| BitgetWsClient.PassStep | src/exchange/bitget/websocket_public_client.py:72-73 | one more pass adds its sleep to the schedule and its socket to the count |
| BitgetWsClient.PassesBeyond | src/exchange/bitget/websocket_public_client.py:56 | a pass reached with no stop request before it is counted |
| BitgetWsClient.ClosedEarlyPass | src/exchange/bitget/websocket_public_client.py:62-72 | a pass whose new socket the server closes before the resubscription is written writes no frame, yet sleeps the reset delay |
| BitgetWsClient.PassesAt | src/exchange/bitget/websocket_public_client.py:132 | the pass during which `close` is called is the last pass |
| BitgetWsClient.BitgetWebsocketClient.constructor | src/exchange/bitget/websocket_public_client.py:34-52 | the registry is the set of the seed list; no socket; both events clear; the configuration is stored |
| BitgetWsClient.BitgetWebsocketClient.Send | src/exchange/bitget/websocket_public_client.py:100-107 | with no socket, a logged no-op; otherwise one envelope written to the current socket, or an exception when it is closed |
| BitgetWsClient.BitgetWebsocketClient.Subscribe | src/exchange/bitget/websocket_public_client.py:109-115 | with nothing new, no send and no change; otherwise the registry becomes old ∪ input, and exactly one `subscribe` envelope carries the delta |
| BitgetWsClient.BitgetWebsocketClient.RemoveEach | src/exchange/bitget/websocket_public_client.py:122-123 | succeeds iff the list has no repeat; removes every key before the first repeat |
| BitgetWsClient.BitgetWebsocketClient.Unsubscribe | src/exchange/bitget/websocket_public_client.py:117-124 | nothing present means no change; otherwise the present keys are removed and one `unsubscribe` envelope is sent; a present key listed twice raises `KeyError` with no send, leaving the earlier keys removed |
| BitgetWsClient.BitgetWebsocketClient.ResubscribeAll | src/exchange/bitget/websocket_public_client.py:126-129 | an empty registry sends nothing; otherwise one `subscribe` envelope whose arguments list every registered key exactly once |
| BitgetWsClient.BitgetWebsocketClient.OpenSession | src/exchange/bitget/websocket_public_client.py:59-64 | a new socket becomes `_ws`, the connected event is set, the delay is reset and the whole registry is resubscribed on that socket; if the server has already closed the socket, the resubscription raises ConnectionClosed (for a non-empty registry) and nothing is written |
| BitgetWsClient.BitgetWebsocketClient.Heartbeat | src/exchange/bitget/websocket_public_client.py:89-98 | one `ping` per tick while the socket is open; the first failed send ends it |
| BitgetWsClient.BitgetWebsocketClient.ReceiverLoop | src/exchange/bitget/websocket_public_client.py:78-87 | decodes every frame but `pong`; counts the malformed ones |
| BitgetWsClient.BitgetWebsocketClient.Close | src/exchange/bitget/websocket_public_client.py:131-134 | the stop event is set and the socket is closed |
| BitgetWsClient.BitgetWebsocketClient.EndPass | src/exchange/bitget/websocket_public_client.py:70-73 | the connected event is cleared, the current delay is slept, and the delay doubles up to the cap |
| BitgetWsClient.BitgetWebsocketClient.Pass | src/exchange/bitget/websocket_public_client.py:57-73 | one pass sleeps the reset delay after a successful handshake, else the running delay; it counts one socket per handshake and records a stop request; after a handshake on a socket that stays open it writes, on the new socket, one `subscribe` envelope listing every registry key exactly once (none for an empty registry) and then one ping per heartbeat tick; without a handshake, or when the server closed the new socket before the first write, it writes nothing |
| BitgetWsClient.BitgetWebsocketClient.Connect | src/exchange/bitget/websocket_public_client.py:54-73 | the sleeps taken are the backoff schedule of the handshake results, up to the pass where `close` is called; the final delay is the one that schedule leaves; the connected flag ends cleared; the frames written are, pass after pass, each pass's resubscription and pings on the socket numbered after the handshakes before it, or nothing for a pass without a handshake or whose socket the server closed before the first write |
| BitgetWsClient.BitgetWebsocketClient.ConnectTurn | src/exchange/bitget/websocket_public_client.py:56-73 | one turn of the reconnect loop carries the backoff delay, the sleep schedule, the socket count and the frames written from the passes before it to one pass more |
| BitgetWsClient.TurnAccounts | src/exchange/bitget/websocket_public_client.py:56-73 | if delay, sleeps, socket count and frames account for the passes before a pass, and the pass changes them as one pass does, they account for one pass more |
| BitgetWsClient.PassesFramesStep | src/exchange/bitget/websocket_public_client.py:59-64 | a pass's frames, on the socket after the earlier handshakes, extend the record of the earlier passes' frames by one chunk |
| LegacyBitgetWs.FixedSubscribe | src/bitget/websocket_public_client.py:30-39 | the subscription is an object with exactly `op` and `args` for `USDT-FUTURES`/`candle1m`/`BTCUSDT`, with camelCase keys |
| LegacyBitgetWs.EndingOf | src/bitget/websocket_public_client.py:42-57 | an acknowledgement that does not decode, or whose `event` is not `subscribe`, ends in the fixed 5-second sleep |
| LegacyBitgetWs.DelayNeverReset | src/bitget/websocket_public_client.py:27-53 | the delay is 1 doubled once per transport error, capped: a successful connection never resets it |
| LegacyBitgetWs.AckFailureSleepsFixed | src/bitget/websocket_public_client.py:55-57 | a failed acknowledgement adds a 5-second sleep and leaves the delay unchanged |
| LegacyBitgetWs.SleepsBounded | src/bitget/websocket_public_client.py:50-57 | no sleep exceeds the larger of the cap, the initial delay and 5 seconds |
| LegacyBitgetWs.BitgetWebsocketPublicClient.constructor | src/bitget/websocket_public_client.py:22-24 | the URL and the maximum delay (default 60) are stored |
| LegacyBitgetWs.BitgetWebsocketPublicClient.SubscribeCandlestick | src/bitget/websocket_public_client.py:26-57 | one fixed subscription written per connection whose send succeeded; the sleeps and final delay follow the classification of each connection's end |
| LegacyBitgetWs.Heartbeat | src/bitget/websocket_public_client.py:14-17 | each tick sends `ping` and sleeps 30 seconds |
| KiwoomWs.LoginFrame | src/exchange/kiwoom/ws_client.py:38 | the login frame has exactly `trnm = "LOGIN"` and the token |
| KiwoomWs.Serialize | src/exchange/kiwoom/ws_client.py:55-56 | a string is sent unchanged; a dict is sent as its compact JSON |
| KiwoomWs.Write | src/exchange/kiwoom/ws_client.py:57 | a successful write appends the frame on the current socket; a failed one changes nothing and reports the closed connection |
| KiwoomWs.AfterConnect | src/exchange/kiwoom/ws_client.py:32-43 | connect succeeds iff the handshake and the login write succeed; `connected` then holds exactly on success; a new socket is numbered after the others; the login frame is the only frame written |
| KiwoomWs.AfterSend | src/exchange/kiwoom/ws_client.py:52-58 | a connected client writes the serialised message on its socket; otherwise it connects first |
| KiwoomWs.AfterDisconnect | src/exchange/kiwoom/ws_client.py:45-50 | afterwards `keep_running` and `connected` are false; the socket is closed only if the client was connected |
| KiwoomWs.DisconnectIdempotent | src/exchange/kiwoom/ws_client.py:45-50 | disconnecting twice is the same as disconnecting once |
| KiwoomWs.ConnectKeepsSane | src/exchange/kiwoom/ws_client.py:32-43 | connect keeps the invariant that the current socket and every written frame's socket are among those opened so far |
| KiwoomWs.SendKeepsSane | src/exchange/kiwoom/ws_client.py:52-58 | send keeps the same invariant |
| KiwoomWs.LoginPrecedesFirstFrame | src/exchange/kiwoom/ws_client.py:52-57 | a send that has to connect writes the login frame, then the message, both on a new socket no earlier frame used |
| KiwoomWs.OnlyApplicationFramesDelivered | src/exchange/kiwoom/ws_client.py:71-85 | only frames whose `trnm` is neither LOGIN nor PING reach `on_message`, and nothing is delivered without a callback |
| KiwoomWs.InvalidJsonSkipped | src/exchange/kiwoom/ws_client.py:65-69 | a frame that is not JSON is counted and the loop continues with the next frame |
| KiwoomWs.PingEchoed | src/exchange/kiwoom/ws_client.py:78-80 | a PING frame is re-serialised and written back on the current socket |
| KiwoomWs.LoopEnds | src/exchange/kiwoom/ws_client.py:60-88 | a rejected login leaves the client stopped and disconnected; a server close leaves it disconnected; the loop stops only when `keep_running` is false |
| KiwoomWs.KiwoomWS.constructor | src/exchange/kiwoom/ws_client.py:23-29 | a new client has no socket, is not connected, and is set to keep running |
| KiwoomWs.KiwoomWS.WriteFrame | src/exchange/kiwoom/ws_client.py:57 | the write as specified by `Write` |
| KiwoomWs.KiwoomWS.Connect | src/exchange/kiwoom/ws_client.py:32-43 | the new state and error are those of `AfterConnect` |
| KiwoomWs.KiwoomWS.Send | src/exchange/kiwoom/ws_client.py:52-58 | the new state and error are those of `AfterSend` |
| KiwoomWs.KiwoomWS.Disconnect | src/exchange/kiwoom/ws_client.py:45-50 | the new state is that of `AfterDisconnect` |
| KiwoomWs.KiwoomWS.HandleFrame | src/exchange/kiwoom/ws_client.py:71-85 | one decoded frame: a non-object raises, a bad login disconnects, PING is echoed, and other frames are delivered only when a callback exists |
| KiwoomWs.KiwoomWS.ReceiveLoop | src/exchange/kiwoom/ws_client.py:60-88 | the loop's final state, deliveries, invalid count and ending are those of `Receive` over the events |
| KiwoomWs.KiwoomWS.RunSession | src/exchange/kiwoom/ws_client.py:90-92 | a failed connect propagates and no frame is read; otherwise the receive loop runs from the connected state |
| Params.DropNone | src/exchange/bitget/client/signature_client.py:56-57 | a pair is kept iff its value is not `None`; order is kept |
| Params.DropNoneAppend | src/exchange/bitget/client/signature_client.py:57 | filtering distributes over concatenation, so order is kept |
| Params.FilterParams | src/exchange/bitget/client/signature_client.py:56-57 | absent parameters stay absent; otherwise exactly the non-`None` pairs remain |
| Params.DropNoneKeepsComplete | src/shared/http/tracing_client_session.py:50-51 | parameters with no `None` value pass through the filter unchanged |
| Text.NatToStringRoundTrip | src/exchange/bitget/client/signature_client.py:32 | the decimal timestamp string reads back as the millisecond count |
| Signature.SignedPath | src/bitget/utils/signature.py:26-28 | the signed path is the request path when the query is empty, otherwise path, `?`, query |
| Signature.SignedPathRoundTrip | src/bitget/utils/signature.py:26-28 | for a path without `?`, the signed path splits back into path and query |
| Signature.PreSign | src/bitget/utils/signature.py:25-29 | the pre-sign string is, position by position, the timestamp, then the upper-cased method, then the path with `?query` only for a non-empty query, then the body (empty when there is none) |
| Signature.SignatureDependsOnPreSign | src/bitget/utils/signature.py:29-31 | requests with the same pre-sign string get the same signature |
| Signature.MethodCaseIgnored | src/bitget/utils/signature.py:25 | methods that agree after upper-casing give the same pre-sign string |
| Signature.PathBodyBoundaryAmbiguous | src/bitget/utils/signature.py:29 | path `/a` with body `b` and path `/ab` with no body give the same pre-sign string |
| SignatureClient.QueryString | src/exchange/bitget/client/signature_client.py:33-36 | the query string is empty iff the parameters are absent or empty |
| SignatureClient.Pairs | src/exchange/bitget/client/signature_client.py:36 | one `k=v` item per parameter, in insertion order |
| SignatureClient.QueryStringRoundTrip | src/exchange/bitget/client/signature_client.py:36 | parameters free of `&` and `=` in keys, and of `&` in values, are recovered from the query string |
| SignatureClient.UnencodedValuesCollide | src/exchange/bitget/client/signature_client.py:36 | with no URL encoding, `a=1&b=2` as one value signs the same as two parameters |
| SignatureClient.BodyString | src/exchange/bitget/client/signature_client.py:58-61 | the body string is empty when there is no JSON body |
| SignatureClient.SignatureClient.DefaultHeaders | src/exchange/bitget/client/signature_client.py:13-18 | the session headers carry the access key and neither the signature nor the passphrase |
| SignatureClient.SignatureClient.Sign | src/exchange/bitget/client/signature_client.py:24-45 | exactly the four headers, in order; the timestamp is a non-empty digit string whose value is the clock in milliseconds; the signature is that of the pre-sign string |
| SignatureClient.SignatureClient.Request | src/exchange/bitget/client/signature_client.py:47-73 | GET sends and signs the filtered parameters and no body; every other method sends the body and no parameters; the headers are only the signed ones |
| SignatureClient.NoneParamsNeverSent | src/exchange/bitget/client/signature_client.py:56-70 | a parameter whose value is `None` is neither sent nor signed |
| SignatureClient.OnlyGetSignsQuery | src/exchange/bitget/client/signature_client.py:63-70 | a non-GET request sends no parameters and signs an empty query |
| SignatureClient.GetSignsEmptyBody | src/exchange/bitget/client/signature_client.py:58-63 | a GET without a body signs the empty body string |
| SignatureClient.SentData | src/exchange/bitget/client/signature_client.py:71 | a body is transmitted iff there is a JSON body |
| SignatureClient.SignedBodyIsSentBody | src/exchange/bitget/client/signature_client.py:58-71 | for a non-GET request, the signed body string is the minified body that is sent |
| SignatureClient.CallerHeadersDropped | src/exchange/bitget/client/signature_client.py:65 | the headers passed in by the caller do not affect the request |
| Tracing.MaskedHeaders | src/shared/http/tracing_client_session.py:9-19 | same keys in the same order; a key whose upper-case form is ACCESS-KEY, ACCESS-SIGN or ACCESS-PASSPHRASE maps to `****`, all others are unchanged |
| Tracing.MaskedHeadersIdempotent | src/shared/http/tracing_client_session.py:11-18 | masking twice is masking once |
| Tracing.NoCredentialLogged | src/shared/http/tracing_client_session.py:13-16 | wherever a value other than `****` appears in the masked headers, its key is not sensitive and the value is the original one |
| Tracing.MaskSensitiveHeaders | src/shared/http/tracing_client_session.py:9-19 | the accumulation loop builds exactly the masked headers |
| Tracing.MaskedFields | src/shared/http/tracing_client_session.py:26-29 | same keys; a key whose upper-case form is APPKEY or SECRETKEY maps to `****`, all others are unchanged |
| Tracing.MaskFields | src/shared/http/tracing_client_session.py:26-29 | the in-place overwrite loop produces exactly the masked fields |
| Tracing.MaskedBody | src/shared/http/tracing_client_session.py:21-32 | a body that does not parse is returned verbatim; non-object JSON is re-serialised; an object is re-serialised with its sensitive fields masked |
| Tracing.MaskSensitiveBody | src/shared/http/tracing_client_session.py:21-32 | the method computes the masked body |
| Tracing.MaskedBodyIdempotent | src/shared/http/tracing_client_session.py:21-32 | masking twice is masking once, when the parser reads back what the serialiser writes |
| Tracing.BodyRepr | src/shared/http/tracing_client_session.py:58-66 | only POST, PUT and PATCH (in any case) have a body to log; for them it is the serialised `json` keyword whenever that is present (`json=None` serialises JSON `null`), else the `data` keyword whenever present (`data=None` shows as `None`), else nothing |
| Tracing.TraceRequest | src/shared/http/tracing_client_session.py:41-74 | the headers are forwarded unchanged and logged masked; non-empty parameters lose their `None` values; a body is logged exactly when the body text is present and non-empty, and then it is that text masked |
| Tracing.GetLogsNoBody | src/shared/http/tracing_client_session.py:59 | a GET request never logs a body |
| Tracing.PostWithNoneDataLogsNone | src/shared/http/tracing_client_session.py:65-72 | a POST sent with `data=None` (as the Bitget REST client does for a request without a JSON body) logs the body `None` |
| BitgetError.CodeOf | src/exchange/bitget/dto/bitget_error.py:7 | the enumeration lookup succeeds iff the code is the string `40762`, giving the member with that value |
| BitgetError.PyGet | src/exchange/bitget/dto/bitget_error.py:7-10 | `dict.get` yields a value iff the key is present and not `null` |
| BitgetError.Show | src/exchange/bitget/dto/bitget_error.py:11 | `None` formats as `None`, and a string formats as itself |
| BitgetError.FromResponse | src/exchange/bitget/dto/bitget_error.py:6-11 | construction succeeds iff the response's code is `"40762"`, otherwise it fails with that code; `msg`, `requestTime` and `data` are copied, defaulting to `None` |
| BitgetError.MessageMentionsCodeAndMsg | src/exchange/bitget/dto/bitget_error.py:11 | the message contains the code's name, its value and the formatted `msg` |
| BitgetError.MessageParts | src/exchange/bitget/dto/bitget_error.py:11 | `Bitget API Error NAME(VALUE): msg` contains NAME, VALUE and msg |
| BitgetError.InsufficientBalanceExample | src/exchange/bitget/dto/bitget_error.py:6-15 | the insufficient-balance response decodes to `INSUFFICIENT_BALANCE` with its fields copied |
| BitgetError.NumericCodeRejected | src/exchange/bitget/dto/bitget_error.py:7 | the number 40762 is not the enumeration's string value, so construction fails |
| Trading.Candle.BodySize | src/scripts/0458.py:51-54 | the body is non-negative, and zero iff the candle is neither bullish nor bearish |
| Trading.Candle.ChangeRate | src/scripts/0458.py:56-61 | 0 when open is 0, otherwise (close − open) / open · 100 |
| Trading.CandleDirections | src/scripts/0458.py:41-61 | never both bullish and bearish; with a positive open, the change rate is positive when bullish and negative when bearish |
| Trading.TruncBounds | src/scripts/0458.py:119 | rounding toward zero: the result is within one unit of x, on the side of zero |
| Trading.RoundToStep | src/scripts/0458.py:115-119 | a zero step returns the value unchanged |
| Trading.RoundToStepIsMultiple | src/scripts/0458.py:119 | with a non-zero step, the result is an integer multiple of the step |
| Trading.RoundToStepBounds | src/scripts/0458.py:115-119 | for value ≥ 0 and step > 0: 0 ≤ result ≤ value < result + step |
| Trading.RoundToStepIdempotent | src/scripts/0458.py:115-119 | rounding twice is rounding once |
| Trading.RoundToStepNegative | src/scripts/0458.py:119 | a negative value rounds up toward zero, by less than one step |
| Trading.GetTradingSpecs | src/scripts/0458.py:100-113 | the size step is sizeMultiplier when present; the minimums are copied, defaulting to 0 |
| Trading.TickScale | src/scripts/0458.py:100-102 | tick · 10^pricePlace = priceEndStep, with pricePlace defaulting to 1 and priceEndStep to 1 |
| Trading.QtyStepScale | src/scripts/0458.py:104-108 | without a size multiplier, qtyStep · 10^volumePlace = 1, with volumePlace defaulting to 4 |
| Trading.HardCodedSpecs | src/scripts/0458.py:90-113 | the hard-coded spec gives tick 0.1, size step 0.0001, minimum size 0.0001 and minimum notional 5 |
| Trading.CheckBuyConditions | src/scripts/0458.py:145-178 | false for fewer than 3 candles; otherwise true iff condition 1 or condition 2 holds; a buy always has a bearish last candle with an above-average body |
| Trading.UniformBodiesNeverBuy | src/scripts/0458.py:150-165 | when all bodies are equal, no candle is above average, so no buy |
| Trading.AtLeast | src/scripts/0458.py:186-187 | the floored quantity is at least the minimum, and unchanged when already at it |
| Trading.BuySizingOutcome | src/scripts/0458.py:184-196 | fails iff the bid is 0, or the rounded price is 0 with a positive minimum notional; otherwise the price is the bid rounded to the tick and the size is at least the minimum size |
| Trading.PlaceBuyOrder | src/scripts/0458.py:184-196 | the step-by-step sizing computes exactly `BuySizing`, whose outcome `BuySizingOutcome` states |
| Trading.Correct | src/scripts/0458.py:193-196 | the minimum-notional correction statements compute exactly `MinNotionalCorrection`: below the minimum, a zero price raises and any other price recomputes the size from the minimum notional |
| Trading.BuyPriceAtMostBid | src/scripts/0458.py:190 | the buy price is at most the bid and within one tick of it |
| Trading.CorrectionCanStayBelowMinimum | src/scripts/0458.py:193-196 | the corrected quantity is rounded down too, so an order can stay below the minimum notional (300 × 3 < 1000) |
| Trading.HardCodedOrderMeetsMinimum | src/scripts/0458.py:184-193 | with the hard-coded spec, any order at a non-zero price is worth at least 5 before correction |
| Trading.Latest | src/scripts/0458.py:238 | `candles[-20:]` is the last min(n, len) candles |
| Trading.ShortHistoryDilutesAverage | src/scripts/0458.py:238 | with fewer than 20 candles, the average still divides by 20 |
| Trading.LowerOr | src/scripts/0458.py:258-259 | a missing or empty value falls back to the lower-cased default; a present non-empty value is returned lower-cased; either way the result has no upper-case ASCII letter |
| Trading.PartialCloseOrder | src/scripts/0458.py:258-261 | the close price is the ask rounded to the tick; the size is half the available size rounded to the size step; the hold side and margin mode are the position's, lower-cased, defaulting to `long` and `crossed` |
| Trading.CloseOrderDefaults | src/scripts/0458.py:258-259 | a position reporting no (or an empty) hold side and margin mode is closed as `long` in `crossed` margin |
| Trading.CheckSellConditions | src/scripts/0458.py:224-248 | no positions or no size means no action; a zero average price raises; otherwise a partial close happens iff the gain is at least both the 20-candle average change and 0.3 |
| Trading.SellOnlyAtProfit | src/scripts/0458.py:239-242 | a partial close happens only at an ask at least 0.3% above the average entry price |
| Trading.GainAtLeastMinimum | src/scripts/0458.py:242 | a gain of at least 0.3% means ask · 1000 ≥ average · 1003 |
| Trading.PartialCloseBounded | src/scripts/0458.py:260-261 | the close size is at most half the size and within one size step of it; the close price is at most the ask |
| Trading.ExecuteStrategy | src/scripts/0458.py:295-317 | a failed cancel stops; fewer than 3 candles stop; a buy happens iff the buy rule holds; a sell check uses the sell rule |
| Trading.SellCheckedIffBullish | src/scripts/0458.py:309-315 | the sell check runs iff the cancel succeeded, there are enough candles and the last candle is bullish |

## Left out

- Async concurrency is not modelled: tasks, events, `wait_connected`, and the heartbeat task that `connect` starts but never awaits. Sessions are sequential steps, and a heartbeat's ticks are an input of the session.
- The websockets and aiohttp transports are not modelled. Their outcomes are inputs: the handshake, inbound frames and server close for every client; whether a write succeeds for the legacy `Connection` and the Kiwoom `Net`. For the new Bitget client a write succeeds exactly when the socket is still open (`Send`, `Heartbeat`), and `closedEarly` says whether the server closed the socket before the resubscription.
- `json.loads`, `json.dumps`, `repr`, `str.__hash__`, HMAC-SHA256 and Base64 are function parameters; their internals are not modelled.
- The `Decimal` context's 28-digit rounding of quotients is not modelled; the trading arithmetic is exact over reals.
- Floats in JSON are not modelled. The JSON model has null, booleans, integers, strings, arrays and objects.
- Text.Upper and Text.Lower: ASCII letters only; Python's full Unicode case mapping is not modelled.
- The trading script's broken I/O paths are left out. These are the nonexistent ticker call, the `place_order` keyword arguments the trade client does not accept, and the undefined `NO_ORDER_TO_CANCEL` code.
- Trading.ExecuteStrategy: the cancel result is an input boolean. Which exception ended a failed cancel is not modelled.
- Fetching candles and positions (`get_klines`, `get_position`) and parsing the exchange's number strings are not modelled; candles, positions and specs are inputs.
- Trading.GetTradingSpecs: the decimal places are integers taken as given; parsing them with `int()` is not modelled.
- LegacyBitgetWs.BitgetWebsocketPublicClient.SubscribeCandlestick: the reconnecting iterator's own retry policy is not modelled, because it belongs to the websockets library. The logging of each inbound message is not modelled either.
- KiwoomWs.KiwoomWS.ReceiveLoop: an exception raised by the `on_message` callback is not modelled; a delivered frame is only recorded.
- KiwoomWs.KiwoomWS.Disconnect: a failing `close()` is not modelled, and neither is a disconnect running concurrently with the loop.
- Tracing.TraceRequest: an explicit `headers=None`, the `str()` fallback when a body cannot be serialised, and trace identifiers and timing hooks are not modelled.
- SignatureClient.SignatureClient.Sign: the clock is the `nowMs` parameter.
- Headers are modelled as sequences of pairs, so Python's merging of duplicate dictionary keys is not modelled.
- The module-level `_heartbeat` function of the new Bitget client is not modelled; nothing calls it.
- `BitgetClient._request`, the base REST client the signature client forwards to, is not part of this model beyond SignatureClient.SentData.
- `WsLoginReq` is modelled as a record only; no code in this model builds or sends it.
