# txdnsdoh in Dafny

txdnsdoh is a DNS proxy built on Twisted. It accepts plain DNS queries over
UDP and TCP and forwards each one to an upstream DNS-over-HTTPS (DoH)
server. The query goes either as a GET with a base64url `dns` parameter or
as a POST with the wire bytes as the body. Each upstream is pinned to a
configured IP address: the connection always goes to that address, while
TLS still verifies the host name in the upstream's URL.

This project models the core of that proxy as pure functions over immutable
data and proves properties of the model:

- `TcpFraming` models the TCP listener (`TCPServer.dataReceived`). It splits
  the byte stream into messages, each preceded by a two-byte big-endian
  length. The `while` loop is modelled exactly as written:
  - `RunLoop` is the loop given a number of passes (fuel).
  - `Drain` is the same loop as a total function. It reports `Stuck` in the
    one state where the loop never ends.
  - The module also covers framing a response for writing back.
- `TcpFramingFixed` is the same framer with the loop condition it evidently
  needs (the body can make progress). Its body is restructured to do one
  action per pass: read a prefix, or take a message. `BothIfsAgreeWithFixed`
  shows that the body as written, with both `if`s in one pass, drains every
  state to the same result under that condition. The module proves the round
  trip the code as written does not have.
- `Base64Url` is the URL-safe base64 alphabet with `=` padding, as
  `base64.urlsafe_b64encode` produces it. It also has an independent decoder
  and the unpadded form.
- `Util` models `BytesProducer`, `Gather` and `GatherAndLog`.
- `Agent` models the endpoint factory that pins connections to one address,
  and the agent's pool settings.
- `HttpsClient` models request construction for the GET and POST clients,
  and how an agent outcome settles the client's `finished` deferred.
- `Startup` models `main`:
  - the fold over the configured upstreams into a registry of clients;
  - the UDP listener loop, then the TCP listener loop, each looking up its
    client by id.
- `Bytes` holds the byte type, `Option`/`Result`, concatenation and the
  16-bit big-endian packing.

Deferreds are modelled as the one value they are settled with. Log output
is modelled as a list of entries where the behaviour depends on it.

Section 4.1 of RFC 8484 requires the GET form's `dns` parameter to be
base64url without padding. The code calls `urlsafe_b64encode`, which pads;
the model follows the code and also gives the unpadded form (see Findings).

A listener that names an unknown upstream makes `upstreams[uid]` raise
`KeyError` inside the listener loop. The ports of the listeners before it
are already bound by then, and the model keeps them.

## Model

| member | source | states |
|---|---|---|
| `Bytes.PackUint16` | txdnsdoh/tcp_server.py:82 | `struct.pack('!H', n)`: two bytes whose big-endian value is `n` |
| `Bytes.UnpackUint16` | txdnsdoh/tcp_server.py:55 | `struct.unpack('!H', ...)`: the result lies in 0..65535 |
| `Bytes.UnpackPack` | txdnsdoh/tcp_server.py:82 | unpacking a packed length gives the length back |
| `Bytes.PackUnpack` | txdnsdoh/tcp_server.py:55 | packing an unpacked pair of bytes gives the pair back |
| `TcpFraming.Init` | txdnsdoh/tcp_server.py:40-41 | a new connection has an empty buffer and `expecting == 0` |
| `TcpFraming.Guard` | txdnsdoh/tcp_server.py:53 | the `while` condition; `GuardVersusProgress` states where it admits or refuses a state the body can or cannot advance |
| `TcpFraming.ReadPrefix` | txdnsdoh/tcp_server.py:54-56 | with no count pending and two bytes buffered, they become the 16-bit count and are consumed; otherwise nothing changes |
| `TcpFraming.TakeMessage` | txdnsdoh/tcp_server.py:59-62 | with `0 < expecting <= len(buffer)`, exactly the first `expecting` bytes are dispatched, the rest stays buffered and `expecting` returns to 0; otherwise nothing changes |
| `TcpFraming.Step` | txdnsdoh/tcp_server.py:54-67 | a pass keeps the state well formed; it shrinks the buffer and emits events exactly when the body can make progress, and changes nothing otherwise |
| `TcpFraming.GuardVersusProgress` | txdnsdoh/tcp_server.py:53-62 | the `while` condition admits a state the body cannot advance exactly when one byte is buffered with no count pending; it refuses an advanceable state exactly when the buffer holds precisely the expected count |
| `TcpFraming.StepConserves` | txdnsdoh/tcp_server.py:54-62 | a pass only moves bytes from the front of the buffer into its events, in order |
| `TcpFraming.RunLoop` | txdnsdoh/tcp_server.py:53-67 | when the loop exits, the `while` condition is false and the state is still well formed |
| `TcpFraming.DrainSettles` | txdnsdoh/tcp_server.py:53-67 | the loop halts only where the condition fails, and gets stuck only in the one-byte spinning state |
| `TcpFraming.DrainConserves` | txdnsdoh/tcp_server.py:53-62 | consumed prefixes and dispatched messages, in order, followed by what is left, are the buffer the loop started from |
| `TcpFraming.SpinForever` | txdnsdoh/tcp_server.py:53-62 | in the spinning state the loop never exits, for any number of passes |
| `TcpFraming.LoopAgreesWithDrain` | txdnsdoh/tcp_server.py:53-67 | the total `Drain` is what the loop computes: the same state and events when it halts, no exit at all when it is stuck |
| `TcpFraming.ExitAgreesWithDrain` | txdnsdoh/tcp_server.py:53-67 | whenever the loop exits, with any fuel, `Drain` halts in the same state with the same events |
| `TcpFraming.Drain` | txdnsdoh/tcp_server.py:53-62 | the loop as a total function; see `DrainSettles`, `DrainConserves`, `LoopAgreesWithDrain` and `ExitAgreesWithDrain` |
| `TcpFraming.DataReceived` | txdnsdoh/tcp_server.py:49-69 | after an arrival, the events plus the remaining buffer are the old buffer plus the arrival; on exit, no more bytes are buffered than are expected |
| `TcpFraming.Feed` | txdnsdoh/tcp_server.py:49-69 | `dataReceived` once per arrival, never past a spinning loop; see `FeedConserves` and `FeedStuckConserves` |
| `TcpFraming.FeedConserves` | txdnsdoh/tcp_server.py:49-69 | over a connection's life, events plus the remaining buffer are exactly the bytes of all arrivals, in order |
| `TcpFraming.FeedStuckConserves` | txdnsdoh/tcp_server.py:49-69 | once an arrival makes the loop spin, the events so far account for exactly the arrivals up to that one |
| `TcpFraming.StepFrame` | txdnsdoh/tcp_server.py:54-62 | a whole leading frame is read and dispatched in a single pass |
| `TcpFraming.Frame` | txdnsdoh/tcp_server.py:82-83 | a framed message is its 16-bit big-endian length followed by exactly its bytes |
| `TcpFraming.FramesRoundTrip` | txdnsdoh/tcp_server.py:53-62 | back-to-back frames of non-empty messages are dispatched exactly and in order, leaving a fresh connection |
| `TcpFraming.OneChunkRoundTrip` | txdnsdoh/tcp_server.py:49-69 | the same round trip through one `dataReceived` call |
| `TcpFraming.MessagesOfFrame` | txdnsdoh/tcp_server.py:54-62 | a prefix followed by its message contributes exactly that message |
| `TcpFraming.ZeroPrefixDropped` | txdnsdoh/tcp_server.py:54-59 | a zero length prefix consumes two bytes and dispatches nothing |
| `TcpFraming.StallsOnExactBody` | txdnsdoh/tcp_server.py:53 | with exactly `expecting` bytes buffered, the loop does not run even though the body would dispatch them |
| `TcpFraming.PrefixThenBodyStalls` | txdnsdoh/tcp_server.py:53-62 | for any framable message, its prefix and its body in separate arrivals dispatch nothing and leave the body buffered, although the whole frame in one arrival dispatches the message |
| `TcpFraming.FrameThenOneByteHangs` | txdnsdoh/tcp_server.py:53-62 | any framed message followed by one more byte, in one arrival, dispatches the message and then spins on the lone byte forever |
| `TcpFraming.LoneByteSpins` | txdnsdoh/tcp_server.py:53-62 | a single byte arriving on a fresh connection makes the loop spin forever, with nothing dispatched |
| `TcpFraming.FrameResponse` | txdnsdoh/tcp_server.py:82-83 | the response is written as its 16-bit length then its bytes; this succeeds exactly when the length fits in 16 bits |
| `TcpFraming.Respond` | txdnsdoh/tcp_server.py:65-89 | the connection writes exactly when the request succeeded with a framable response, and otherwise loses the connection |
| `TcpFraming.ResponseReadsBack` | txdnsdoh/tcp_server.py:78-83 | a framed response read by a fresh framer yields exactly that response |
| `TcpFramingFixed.FixedStep` | txdnsdoh/tcp_server.py:54-62 | a corrected pass, taken only when the body can make progress, shrinks the buffer, only moves bytes into its events, and keeps the state well formed |
| `TcpFramingFixed.BothIfsAgreeWithFixed` | txdnsdoh/tcp_server.py:53-62 | under the corrected loop condition, the body as written (both `if`s per pass) and the one-action body drain every state to the same final state and the same events |
| `TcpFramingFixed.DrainFixed` | txdnsdoh/tcp_server.py:53-62 | the corrected loop run to its end; see `DrainFixedSettles`, `DrainFixedConserves` and `FixedLoopExits` |
| `TcpFramingFixed.DrainFixedSettles` | txdnsdoh/tcp_server.py:53-62 | the corrected loop always ends, in a state where the body cannot make progress |
| `TcpFramingFixed.RunLoopFixed` | txdnsdoh/tcp_server.py:53-62 | when the corrected loop exits, the body cannot make progress |
| `TcpFramingFixed.FixedLoopExits` | txdnsdoh/tcp_server.py:53-62 | the corrected loop exits once it has more passes than buffered bytes |
| `TcpFramingFixed.DrainFixedConserves` | txdnsdoh/tcp_server.py:53-62 | under the corrected loop, events plus the remaining buffer are the starting buffer |
| `TcpFramingFixed.DrainFixedAppend` | txdnsdoh/tcp_server.py:52-62 | draining then appending more bytes and draining again equals appending first and draining once |
| `TcpFramingFixed.DataReceivedFixed` | txdnsdoh/tcp_server.py:49-69 | after an arrival the corrected loop ends where the body cannot make progress, in a well-formed state |
| `TcpFramingFixed.FeedFixed` | txdnsdoh/tcp_server.py:49-69 | the corrected `dataReceived` once per arrival; see `SplitInvariant` and `SplitDeliveryRoundTrip` |
| `TcpFramingFixed.SplitInvariant` | txdnsdoh/tcp_server.py:49-69 | with the corrected loop, a sequence of arrivals acts exactly like one arrival of their concatenation |
| `TcpFramingFixed.DrainFixedFrames` | txdnsdoh/tcp_server.py:53-62 | the corrected loop dispatches back-to-back frames exactly and in order |
| `TcpFramingFixed.SplitDeliveryRoundTrip` | txdnsdoh/tcp_server.py:49-69 | however a stream of frames is split into arrivals, the corrected framer dispatches exactly its messages, in order, and ends idle |
| `TcpFramingFixed.PrefixThenBodyDispatches` | txdnsdoh/tcp_server.py:49-69 | the split that stalls as written dispatches the message under the corrected loop |
| `Base64Url.Symbol` | txdnsdoh/https_client.py:97 | every 6-bit value maps to a character of the URL-safe alphabet |
| `Base64Url.SymbolValue` | txdnsdoh/https_client.py:97 | every alphabet character has a 6-bit value that maps back to it |
| `Base64Url.PadCount` | txdnsdoh/https_client.py:97 | the padding is at most two characters and fills the last group of three bytes |
| `Base64Url.NoPaddingIffMultipleOfThree` | txdnsdoh/https_client.py:97 | there is no padding exactly when the input length is a multiple of three |
| `Base64Url.Encode` | txdnsdoh/https_client.py:97 | `urlsafe_b64encode`; see `EncodeShape`, `DecodeEncode` and `KnownAnswers` |
| `Base64Url.EncodeShape` | txdnsdoh/https_client.py:97 | `urlsafe_b64encode` output has four characters per started group of three bytes: alphabet characters, then exactly the padding `=` |
| `Base64Url.DecodeEncode` | txdnsdoh/https_client.py:97 | decoding the encoded form gives the input back |
| `Base64Url.KnownAnswers` | txdnsdoh/https_client.py:97 | the encoder gives the RFC 4648 section 10 test vectors and uses `-` and `_` for 62 and 63 |
| `Base64Url.EncodeUnpadded` | txdnsdoh/https_client.py:97 | the unpadded form has one character per 6 bits of input, all from the alphabet, and padding it gives the padded form |
| `Base64Url.UnpaddedRoundTrip` | txdnsdoh/https_client.py:97 | the unpadded form decodes back to the input and contains no `=` |
| `Base64Url.PaddedUnlessMultipleOfThree` | txdnsdoh/https_client.py:97 | the encoding contains `=` exactly when the length is not a multiple of three, and then differs from the unpadded form |
| `Util.NewProducer` | txdnsdoh/util.py:20-23 | the producer keeps the body and announces its length |
| `Util.StartProducing` | txdnsdoh/util.py:25-28 | one write, and the returned deferred has already fired |
| `Util.ProducerDeliversBody` | txdnsdoh/util.py:20-28 | the consumer receives exactly the body, as many bytes as announced |
| `Util.NewCollector` | txdnsdoh/util.py:71-74 | a new collector has no chunks and keeps whether it was given a `finished` |
| `Util.Received` | txdnsdoh/util.py:76-78 | a chunk is appended after everything received before it |
| `Util.ReceivedAll` | txdnsdoh/util.py:76-78 | `dataReceived` for each chunk in order; see `ReceivedAllConcat` |
| `Util.GatherConnectionLost` | txdnsdoh/util.py:84-92 | `finished` fires exactly when it was given, with the in-order join of all chunks; an abnormal reason is logged at debug level |
| `Util.GatherAndLogConnectionLost` | txdnsdoh/util.py:53-63 | the same delivery; an abnormal reason is logged as an error, and the joined buffer is always logged last |
| `Util.ReceivedAllConcat` | txdnsdoh/util.py:76-78 | after a run of chunks, the collected bytes are the old ones followed by all the chunks, in order |
| `Util.GatherDeliversBody` | txdnsdoh/util.py:71-92 | a fresh `Gather` with `finished` delivers the join of the chunks, however the body was split and whatever ended it |
| `Util.GatherWithoutFinished` | txdnsdoh/util.py:62-63 | without `finished`, neither collector delivers anything |
| `Util.CollectorsAgree` | txdnsdoh/util.py:53-92 | `Gather` and `GatherAndLog` deliver the same value |
| `Agent.EndpointForUri` | txdnsdoh/agent.py:33-41 | an endpoint exists exactly for `http` and `https`; it is TLS exactly for `https`; the TCP connection always goes to the factory's address on the URI's port; TLS verifies the URI's host |
| `Agent.HostDoesNotRoute` | txdnsdoh/agent.py:36 | two URIs differing only in their host open the same TCP connection |
| `Agent.AgentForAddress` | txdnsdoh/agent.py:44-51 | a persistent pool with at most two idle connections per host and the quiet client factory, and an endpoint factory for the address |
| `Agent.AgentConnectsOnlyTo` | txdnsdoh/agent.py:44-51 | an agent built for an address connects only to that address |
| `HttpsClient.Add` | txdnsdoh/https_client.py:99-101 | `url.add` appends one query parameter and changes nothing else |
| `HttpsClient.UriOf` | txdnsdoh/https_client.py:46-47 | the agent sees the URL's scheme, host and port |
| `HttpsClient.NewClient` | txdnsdoh/https_client.py:33-39 | the client keeps its fields, and its agent is built for its own address |
| `HttpsClient.MethodOf` | txdnsdoh/https_client.py:91-111 | `GET` for the GET client and `POST` for the POST client; `MakeRequest` states the request carries it |
| `HttpsClient.HeadersOf` | txdnsdoh/https_client.py:91-113 | both clients send `Accept: application/dns-message`; only POST adds `Content-Type` |
| `HttpsClient.DnsParam` | txdnsdoh/https_client.py:97 | the `dns` value decodes back to the query |
| `HttpsClient.MakeRequest` | txdnsdoh/https_client.py:86-120 | GET appends `dns` then `ct` and has no body; POST keeps the URL and sends the query as its body |
| `HttpsClient.RequestCarriesQuery` | txdnsdoh/https_client.py:94-120 | either form carries exactly the query bytes to the server |
| `HttpsClient.GetParamKeepsPadding` | txdnsdoh/https_client.py:97 | the `dns` value contains `=` exactly when the query length is not a multiple of three, and then is not the unpadded form |
| `HttpsClient.PaddingExamples` | txdnsdoh/https_client.py:97 | a 12-byte query (a header alone) has no padding; a 29-byte query, such as the A query for `example.com`, ends in exactly one `=` |
| `HttpsClient.MakeRequestUnpadded` | txdnsdoh/https_client.py:94-103 | the corrected GET: `dns` without `=`, decoding back to the query, followed by `ct` |
| `HttpsClient.UnpaddedIsPaddedWithoutPadding` | txdnsdoh/https_client.py:97 | the two GET forms differ only in the trailing `=` |
| `HttpsClient.RequestGoesToPinnedAddress` | txdnsdoh/https_client.py:33-53 | an `https` request opens TLS to the pinned address, verified against the URL host |
| `HttpsClient.GatherBody` | txdnsdoh/https_client.py:58-61 | the body is the in-order join of the response chunks |
| `HttpsClient.Settle` | txdnsdoh/https_client.py:55-83 | `finished` succeeds exactly for status 200, with the body; any other status fails with `HttpsClientError(code, body)`; a transport failure is passed on unchanged |
| `HttpsClient.TruncatedBodyIsAnswered` | txdnsdoh/https_client.py:55-61 | a 200 response whose body was cut off still settles as an answer |
| `HttpsClient.SettleIgnoresChunking` | txdnsdoh/https_client.py:55-71 | the settlement depends only on the status and the body bytes |
| `Startup.KindOf` | txdnsdoh/main.py:44-55 | only `https_post` and `https_get` name a client; `https_post` names the POST client |
| `Startup.ClientFor` | txdnsdoh/main.py:44-52 | an accepted upstream is stored with its id, URL, canonical address and client kind |
| `Startup.Absorb` | txdnsdoh/main.py:33-55 | one pass: an invalid `ip` fails exactly when `address` was never bound, and otherwise logs the stale address and skips; an invalid `ip` leaves `address` unchanged, so later lines inherit the stale value; a valid `ip` rebinds `address`; an unknown method is logged and skipped |
| `Startup.Fold` | txdnsdoh/main.py:33-55 | the upstream loop can fail only with the unbound `address`, and once `address` is bound it stays bound |
| `Startup.BuildRegistry` | txdnsdoh/main.py:31-55 | the loop from an empty registry; see `BuildFailsIffFirstIpInvalid`, `RegistryKeys` and `RegistryValues` |
| `Startup.FoldNeverFailsOnceBound` | txdnsdoh/main.py:38-42 | once `address` is bound, no later upstream can fail the loop |
| `Startup.BuildFailsIffFirstIpInvalid` | txdnsdoh/main.py:31-55 | building the registry fails exactly when the first upstream's `ip` is invalid |
| `Startup.SomeAcceptedCons` | txdnsdoh/main.py:33-55 | an id is accepted in a list exactly when the head has it or the rest does |
| `Startup.FoldKeys` | txdnsdoh/main.py:33-55 | an id is stored exactly when it was stored already or some accepted upstream has it |
| `Startup.RegistryKeys` | txdnsdoh/main.py:31-55 | the registry's ids are exactly those of the accepted upstreams |
| `Startup.FoldKeepsUntouched` | txdnsdoh/main.py:46-52 | entries no later accepted upstream names are kept |
| `Startup.FoldLastWins` | txdnsdoh/main.py:46-52 | a later upstream with the same id overwrites an earlier one |
| `Startup.RegistryValues` | txdnsdoh/main.py:31-55 | each id maps to the client built from its last accepted upstream, with that upstream's canonical address |
| `Startup.BindingFor` | txdnsdoh/main.py:60-65 | a listener binds its port and interface (default empty) to the client its upstream names |
| `Startup.BindAll` | txdnsdoh/main.py:60-72 | a listener loop fails exactly when some listener names an unknown upstream; it stops at the first such listener, which names the error, and the earlier listeners stay bound in order |
| `Startup.Start` | txdnsdoh/main.py:25-72 | the registry is the one the upstream loop builds, and its failure binds nothing; on success, binding i is the i-th UDP listener bound to its client, followed by the i-th TCP listener at position `len(udp) + i`; start-up succeeds exactly when the registry builds, both listener lists are present and every listener names a stored upstream; a missing UDP list fails with `MissingListeners(Udp)` and binds nothing; a missing TCP list, after every UDP listener resolved, fails with `MissingListeners(Tcp)` and leaves exactly the UDP listeners bound |
| `Startup.UnknownUdpUpstream` | txdnsdoh/main.py:60-65 | a UDP listener naming an unknown id stops start-up there, with the earlier UDP listeners bound |
| `Startup.UnknownTcpUpstream` | txdnsdoh/main.py:60-72 | a TCP listener naming an unknown id stops start-up with all UDP listeners and the earlier TCP ones bound |
| `Startup.MissingServerFails` | txdnsdoh/main.py:60 | without a `server` mapping nothing is bound and the UDP loop fails |
| `Startup.AbsorbFixed` | txdnsdoh/main.py:38-55 | the corrected pass: an invalid `ip` logs that `ip` and skips; accepted upstreams are stored as before |
| `Startup.FoldFixedKeys` | txdnsdoh/main.py:33-55 | the corrected loop stores an id exactly when it was stored already or some accepted upstream has it |
| `Startup.FixedRegistryKeys` | txdnsdoh/main.py:31-55 | the corrected registry always exists and holds exactly the accepted ids |
| `Startup.FoldFixedAgrees` | txdnsdoh/main.py:33-55 | wherever the loop as written succeeds, the corrected loop stores the same entries |
| `Startup.FixedRegistryAgrees` | txdnsdoh/main.py:31-55 | wherever the loop as written succeeds, the corrected registry is the same |

## Left out

- The Twisted runtime is not modelled: the reactor, transports, deferred chaining and scheduling. Each callback is modelled as the value it receives.
- The debug logging in `dataReceived`, `connectionMade` and `connectionLost` of `tcp_server.py` is not modelled. It changes no state.
- `dns.message.from_wire` in the logging at `tcp_server.py:63` and `tcp_server.py:81` is not modelled. It is a foreign parser, and it raises on any message that does not parse, such as one shorter than a 12-byte header. At line 63 the exception escapes `dataReceived`. Twisted's reactor logs it and closes the connection, so the message, the rest of the buffer and any later query on that connection are lost; the model dispatches every complete message instead. At line 81 the exception inside `return_response` reaches `error_response`, which closes the connection, the same path as an oversized response in `TcpFraming.Respond`; the model writes the response instead.
- `TcpFraming.RunLoop`: the loop is given fuel. An `OutOfFuel` result stands for a loop that does not end within that many passes. `LoopAgreesWithDrain` and `SpinForever` show that fuel beyond the buffer length changes nothing except in the spinning state, where no fuel suffices.
- `TcpFraming.Respond`: a dispatched request's callback chain is modelled as the one action it causes. A response that does not fit in 16 bits makes `struct.pack` raise inside the callback; the errback chained after it then closes the connection, and that is what the model does. The failure logging in `error_response` is not modelled.
- Which responses are written back in what order, when several requests are outstanding, is not modelled.
- `udp_server.py`, `resolver.py`, `test.py` and `setup.py` are not part of this model.
- Reading `config.yaml` with YAML is not modelled. The configuration is a typed record: missing keys that the code reads with `[...]` cannot occur, and optional ones are `Option`s.
- `URL.from_text` and `bytes(url)` are not modelled. A URL is a record of the fields the code reads or changes.
- `ipaddress.ip_address` and `str` are not modelled. IP parsing is a parameter that returns the canonical text of a valid literal, or nothing.
- The listening itself (`listenUDP` / `listenTCP`) is a recorded binding. A port that fails to bind is not modelled.
- The browser-like TLS policy and the HTTP connection pool are not modelled. Only the values passed to them are kept: host, port and pool settings.
- The header logging in `handle_response` and the `Cache-Control` logging are not modelled. So are the failure logging in `handle_error` and `HttpsClientError.__str__`.
- `pauseProducing` and `stopProducing` are not modelled. They do nothing.
- `Gather.connectionMade` is not modelled. It only writes a debug line.
- `Base64Url.Decode` is a strict reference decoder written for this model. It is not Python's `urlsafe_b64decode`, which also accepts other inputs. The model only relies on it to show what the encoder's output carries.

## Findings

| source | as written | input that shows it | evidently intended | confidence | as-written member | corrected member |
|---|---|---|---|---|---|---|
| txdnsdoh/tcp_server.py:53-62 | the loop runs while `len(buffer) > expecting`, which also holds for one buffered byte with no count pending, a state the body cannot change | a single byte as the first arrival on a connection, or one arrival holding a framed query followed by one more byte: the loop spins forever on that byte and blocks the event loop | loop while the body can make progress (two bytes for a prefix, or `expecting` bytes for a message) | not executed | `TcpFraming.FrameThenOneByteHangs` | `TcpFramingFixed.FixedLoopExits` |
| txdnsdoh/tcp_server.py:53 | with exactly `expecting` bytes buffered the condition is false, so a body that arrives after its prefix is never dispatched until more bytes follow | a framed query whose two-byte prefix arrives first and whose body arrives next: nothing is dispatched | loop while the body can make progress, so that a message is dispatched as soon as all its bytes have arrived, however the stream is split | not executed | `TcpFraming.PrefixThenBodyStalls` | `TcpFramingFixed.SplitDeliveryRoundTrip` |
| txdnsdoh/https_client.py:97 | the GET `dns` parameter is `urlsafe_b64encode(data)`, which keeps `=` padding | the 29-byte A query for `example.com`: its `dns` value ends in `=` | the unpadded base64url section 4.1 of RFC 8484 requires | not executed | `HttpsClient.GetParamKeepsPadding` | `HttpsClient.MakeRequestUnpadded` |
| txdnsdoh/main.py:38-42 | the `except` branch logs `address`, which the failing line did not assign; for the first upstream it was never bound, so the handler itself fails and start-up stops | a first upstream whose `ip` is `not-an-ip` | log the invalid `ip` and skip that upstream | not executed | `Startup.BuildFailsIffFirstIpInvalid` | `Startup.FixedRegistryKeys` |
