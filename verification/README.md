# Verification of the HTTP, MQTT, SHA-1, WebSocket and LCD code

A Dafny model of five parts of an mbed application that serves web pages, speaks MQTT and drives
a character display, with proofs about each of them. Loops and objects that change state are
methods and classes, each proved equal to a function; the laws are lemmas about these functions.

**The HTTP/1.1 parser** (`Http*.dfy`). `HttpAutomaton` is one pass through the big switch of
`http_parser_execute`, state by state. `HttpScan` runs it byte by byte, with open marks, the
`goto reexecute` and the header limit; `Feed` is one call. `HttpExecute` is the loop as it is
written, with its moving marks, inner loops and bulk skips over `memchr`, and is equal to `Feed`.
On top of that:

- every `assert` holds for every input in every fragmentation (`HttpInvariant`);
- callbacks and parser do not depend on the fragmentation exactly when header values hold header
  characters (`HttpFragments`), and then neither does the `HttpResponse` (`HttpResponses`,
  `HttpReceive`), nor the error and its place in a stream that is refused (`HttpErrors`);
- announced lengths are read exactly and conserved (`HttpValues`, `HttpChunks`, `HttpLength`);
- the parser inverts the request builder, the response builder and the chunked sender exactly when
  the head keeps to the header limit (`HttpRequestBuilders`, `HttpResponseBuilders`, `HttpSender`,
  `HttpLimit`), and a built response that is cut anywhere goes through the receive loop to its
  status code, its headers and its body (`HttpEndToEnd`, `HttpArrival`);
- the body of a response overflows its buffer on exactly the streams, of any number of messages, in
  which `atoi` reads the first Content-Length as less than what is delivered before a chunk
  (`HttpCourse`, `HttpHeed`, `HttpOrder`, `HttpHeard`, `HttpOverflows`);
- an upgrade is reported exactly for CONNECT, or for an Upgrade header beside a Connection header
  that says upgrade, and ends the call at the last byte of the message; requests that keep the
  connection are read one behind the other, and nothing is read behind one that does not
  (`HttpConnection`, `HttpSections`, `HttpMessages`, `HttpConversations`, `HttpReplies`);
- a word is taken for a method exactly when it is the name of one, and what else is refused is
  refused at its first wrong byte (`HttpRefusals`); a parser of either kind settles for one of them
  (`HttpKinds`);
- the handler of a request is given what was sent (`HttpRequestMade`);
- the URL parser inverts printing (`HttpUrl`, `HttpUrlPrint`).

Strict mode is modelled (`HTTP_PARSER_STRICT` is 1), with callbacks that return 0. A failed
`assert` is an error value of its own, which is proved never to occur.

**The MQTT codec** (`Mqtt*.dfy`). The variable-length integer, strings, the connect, subscribe and
publish packets in both directions; the resumable reader, which refines the blocking one over every
schedule of short reads; the topic filter matcher, against the specification level by level.

**SHA-1** (`Sha1Spec.dfy`, `Sha1.dfy`, `Sha1Example.dfy`). The context with its block, counter and
two paddings gives the digest of RFC 3174, however the message is cut.

**WebSockets** (`WebSocket.dfy`, `ClientConnections.dfy`, `HttpHandshake.dfy`, `WebSocketOpening.dfy`,
`Base64.dfy`). Frame headers and masking against RFC 6455, sending and handling frames, base64
against RFC 4648, and the handshake from the bytes of the request to what the peer reads in the
answer.

**The character display** (`TextLcd.dfy`). The memory of one or two controllers mirrors a plain
grid over every sequence of operations, on every panel type.

`dafny verify dfyconfig.toml` checks everything.

Sockets are byte streams with an arbitrary schedule of short reads and writes (`Sockets`). Bytes of
HTTP text are `char`, other bytes are numbers below 256 (`Buffers`).

Where the code differs from its documentation or from a standard, the model follows the code, and a
lemma says exactly when the two agree:

- `MQTTPacket_len` asks for one byte too many at four lengths (`MqttCodec.PacketLenExact`).
- `MQTTPacket_read` goes on when the length field is cut off or too long, where the resumable
  reader gives up, and the resumable reader passes over packets of type 0
  (`MqttReader.ReadersCompared`, `MqttReader.BlindRead`).
- `MQTTDeserialize_connect` refuses packets in which an empty user name or password is the last
  field, a password without a user name, and every version 3 packet of the serializer: it looks for
  the protocol name "MQIdsp", the serializer writes "MQIsdp" (`MqttConnect.ConnectReadBack`).
- `MQTTSerialize_connect` predicts twelve bytes too few for versions other than 3 and 4
  (`MqttConnect.PacketIsFrame`, `MqttConnect.BoundHolds`).
- `MQTTDeserialize_subscribe` and `MQTTDeserialize_publish` reuse the return code of the length
  field, and report success for packets that run short (`MqttSubscribe.SuccessMeans`,
  `MqttPublish.SuccessMeans`).
- `isTopicMatched` never lets a wildcard stand for an empty level, nor `#` for no level
  (`MqttTopic.IsTopicMatched`, `MqttTopic.ParentLevelMissed`).
- Only the first byte of a header value in each buffer is checked (`HttpFragments.CutAtUnchecked`,
  `HttpFragments.FragmentationIndependence`, `HttpErrors.ErrorsIndependent`).
- An element of a Connection list that is a proper prefix of a keyword swallows the comma behind it
  (`HttpConnection.ConnectionList`).
- Builders announce a body of 10^9 bytes or more with a cut-off length (`HttpText.SizeTextExact`),
  print status codes that the parser refuses, and print heads above its limit
  (`HttpLimit.RequestReadBack`, `HttpLimit.ResponseReadBack`).
- `set_body` copies a body behind the end of its buffer when `atoi` reads the Content-Length as less
  than the parser does, and when a second message with a body reaches the same object
  (`HttpOverflows.BodyOverflows`, `HttpOverflows.BlankOverflows`, `HttpOverflows.SecondOverflows`).
- `build` copies a body behind the end of its buffer when the headers announce chunks
  (`HttpRequestBuilders.HttpRequestBuilder.Build`), and `send_buffer` drops the rest of a buffer
  when a call takes nothing, without an error (`HttpSender.DrainExact`, `HttpSender.OutExact`,
  `HttpSender.ChunkedSent`, `HttpSender.StallDrops`).
- A request for a WebSocket that spells Upgrade or websocket in another case is an upgrade for the
  parser, and is not answered (`WebSocketOpening.SpellingDecides`).
- `createHeader` uses the 64-bit length form for 65535 bytes (`WebSocket.ShortestForm`).
- `handleWebSocket` drops messages in several frames (`ClientConnections.StreamHandled`).
- `sendFrame` sends the payload even when the header was not sent (`ClientConnections.HeaderLost`).
- `base64Encode` does not notice a buffer of size 0 (`Base64.TestHolds`).

## Model

| member | source | states |
|---|---|---|
| `HttpExecute.HttpParser.Execute` | mbed-http/http_parser/http_parser.c:634-2091 | the loop with its marks, inner loops, `memchr` skips and `reexecute` leaves the parser, the byte count and the callbacks that the byte-by-byte automaton gives, and never leaves the buffer; an overflow of the headers is reported where the limit is exceeded, with the callbacks up to there, and whenever it is exceeded and nothing else is wrong |
| `HttpExecute.HttpParser.EndStream` | mbed-http/http_parser/http_parser.c:655-677 | a call of length 0 is the end of the stream: parser, result and callbacks are those of the run that completes a body without length and fails within a message |
| `HttpExecute.MemChr` | mbed-http/http_parser/http_parser.c:1541-1549 | the first place of the byte within the limit, or none |
| `HttpExecute.HttpParser.constructor` | mbed-http/http_parser/http_parser.c:2144-2153 | `http_parser_init`: a fresh parser of each kind is valid |
| `HttpInvariant.TripKeepsSound` | mbed-http/http_parser/http_parser.c:702-2075 | from every sound state, every dispatch keeps the state sound, sets no second mark and fails no `assert`, and `reexecute` goes to a state of lower rank, so that it ends |
| `HttpInvariant.AssertsHold` | mbed-http/http_parser/http_parser.c:634-2091 | every `assert` holds for every byte sequence in every fragmentation |
| `HttpInvariant.FeedAllKeepsValid` | mbed-http/http_parser/http_parser.c:634-2091 | the invariant (nread at a chunk start, F_CHUNKED in chunk states, length neither 0 nor the sentinel in bodies, index within its keyword, at most one open mark) over whole runs |
| `HttpNread.LikeTrip` | mbed-http/http_parser/http_parser.c:702-2075 | no dispatch depends on `nread`, nor on whether a header character is checked or skipped |
| `HttpFragments.FragmentationIndependence` | mbed-http/http_parser/http_parser.c:634-2091 | a clean stream gives the same joined callbacks and the same parser but for `nread` in every fragmentation if and only if its header values hold header characters |
| `HttpFragments.PiecesAgree` | mbed-http/http_parser/http_parser.c:634-2091 | any cut of such a stream agrees with one call, from any valid state |
| `HttpFragments.CutAtUnchecked` | mbed-http/http_parser/http_parser.c:1527-1558 | a byte that only `memchr` let through is refused when a buffer begins with it |
| `HttpFragments.AllUsed` | mbed-http/http_parser/http_parser.c:2077-2091 | a call that returns its whole length has met no error |
| `HttpErrors.ErrorsIndependent` | mbed-http/http_parser/http_parser.c:634-2091 | a stream that is refused is refused at the same byte, with the same error, in every fragmentation if and only if the header values before that byte hold header characters |
| `HttpResponses.JoinedUpdates` | mbed-http/source/http_response.h:96-173 | header names, header values, body and flags depend on the joined data events only |
| `HttpResponses.Collects` | mbed-http/source/http_response.h:96-173 | as long as no copy overflows (see `HttpOverflows.BodyOverflows`), names, values and body are the joined data of their kind, in order |
| `HttpReceive.HttpResponse.SetHeaderField` | mbed-http/source/http_response.h:96-108 | appends to the open name or starts one, as the update function says, and closes the value |
| `HttpReceive.HttpResponse.SetHeaderValue` | mbed-http/source/http_response.h:110-122 | appends to the open value or starts one, and closes the name |
| `HttpReceive.HttpResponse.CompleteHeaders` | mbed-http/source/http_response.h:124-131 | finds the announced length among the headers, whatever the case of the name |
| `HttpReceive.HttpResponse.AppendBody` | mbed-http/source/http_response.h:145-173 | the body grows by exactly the piece, in place within the announced length or in a larger copy; a piece that does not fit the announced length makes the response undefined |
| `HttpReceive.HttpResponse.Notify` | mbed-http/source/http_request_parser.h:74-135 | each callback, the status code included, changes the response as the update function says |
| `HttpReceive.ResponseReader.Execute` | mbed-http/source/http_request_parser.h:64-119 | parser and response move together: the response is the update by all callbacks so far, or by all but those for the body, which a body callback gets one by one |
| `HttpReceive.CreateHttpResponse` | mbed-http/source/http_request_base.h:287-332 | the receive loop: it stops at the first piece that completes the response; success, parsing failure and socket failure, each with exactly what has been read; at the header limit the piece, where the loop ends, and the message made by exactly the callbacks up to the byte that exceeds it |
| `HttpReceive.ReceivedIsWhole` | mbed-http/source/http_request_parser.h:64-66 | the message after all pieces of a clean stream and its end does not depend on how the stream is cut |
| `HttpReceive.CompleteOnce` | mbed-http/source/http_request_parser.h:121-125 | as long as no copy overflows, the response is complete if and only if message-complete was called |
| `HttpLength.LengthsConserved` | mbed-http/http_parser/http_parser.c:1882-2075 | in every reachable body state delivered plus owed is the announced length, and no chunk or message of known length completes before all of it is delivered, but for a CONNECT, of which nothing is |
| `HttpHeed.TripCounted` | mbed-http/http_parser/http_parser.c:702-2075 | in a first message every dispatch keeps the first Content-Length value the number that is counted, and the body within it |
| `HttpOrder.TripOrdered` | mbed-http/http_parser/http_parser.c:702-2075 | every dispatch, of whichever message, keeps the order of the callbacks: a value for each name, trailers included, and no value right behind the end of the headers |
| `HttpHeard.FeedAllHeld` | mbed-http/http_parser/http_parser.c:1882-2036 | no body callback of any run, from any parser, gets an empty fragment |
| `HttpCourse.TellAll` | mbed-http/source/http_response.h:96-173 | over every such course, of any number of messages, the response overflows, or sizes its body by no number, exactly when its first Content-Length says so, and otherwise holds the lists and the body of the course |
| `HttpCourse.LengthTextIs` | mbed-http/source/http_response.h:124-131 | the text that decides is the value, joined from its fragments, of the first header so named before the end of the headers |
| `HttpCourse.TextKept` | mbed-http/source/http_response.h:124-131 | once a Content-Length value is in force, it stays in force in all later messages |
| `HttpCourse.BodyTextIs` | mbed-http/source/http_response.h:145-173 | the value in force at the first byte of body is the one in force behind the callbacks before it |
| `HttpCourse.LooseIs` | mbed-http/source/http_request_parser.h:127-131 | the bytes that have to fit are those delivered before the first chunk |
| `HttpOverflows.BodyOverflows` | mbed-http/source/http_response.h:145-173 | on every stream, of any number of messages and however it is cut: the copy overflows, or `atoi` does, if and only if the Content-Length value in force has no `atoi` value, or the one in force at the first byte of body is not 0 and below the bytes delivered before the first chunk; otherwise the body is what was delivered |
| `HttpOverflows.OneOverflows` | mbed-http/source/http_response.h:145-173 | with one message, if and only if its first Content-Length value has no `atoi` value, or one that is not 0 and below the bytes delivered |
| `HttpOverflows.SecondOverflows` | mbed-http/source/http_request_parser.h:74-125 | of two built responses that reach the same object, where the first keeps the connection, the second overflows it if and only if both have a body |
| `HttpOverflows.TakenOverflows` | mbed-http/source/http_request_parser.h:109-119 | with a body callback only a Content-Length without an `atoi` value is left |
| `HttpOverflows.DigitsFit` | mbed-http/source/http_response.h:124-173 | a Content-Length of digits only, below 2^31, never overflows |
| `HttpOverflows.BlankOverflows` | mbed-http/http_parser/http_parser.c:1565-1590 | "Content-Length: 1 0" with ten bytes of body is read without an error and overflows |
| `HttpValues.ContentLengthExact` | mbed-http/http_parser/http_parser.c:1565-1590 | a run of digits is accumulated exactly or refused; it never wraps and never is the sentinel |
| `HttpChunks.ChunkSizeExact` | mbed-http/http_parser/http_parser.c:1934-1985 | the same for hexadecimal chunk sizes |
| `HttpNames.ShapeMeans` | mbed-http/http_parser/http_parser.c:1298-1405 | the keyword automaton ends in a special state exactly for the special names |
| `HttpNames.NameWalk` | mbed-http/http_parser/http_parser.c:1298-1405 | on every token name the automaton computes that shape, ignoring case |
| `HttpHeaders.ReadHeaders` | mbed-http/http_parser/http_parser.c:1248-1773 | a printed header section is read back name by name and value by value, with its length and its encoding |
| `HttpSections.ReadLines` | mbed-http/http_parser/http_parser.c:1248-1773 | every section of plain headers, Upgrade headers, Connection lists, chunked headers and a length is read name by name and value by value, and leaves exactly the flags and the length that the lines say |
| `HttpRequestLine.ReadRequestLine` | mbed-http/http_parser/http_parser.c:954-1246 | a request line with any method but CONNECT, any path and any query is read back; `ReadTarget`, `ReadAuthority` and `ReadVersion` say the same of its parts |
| `HttpBodies.ReadMessage` | mbed-http/http_parser/http_parser.c:1775-1932 | headers, empty line and body are read back, and the message completes behind its last byte |
| `HttpMessages.ReadRest` | mbed-http/http_parser/http_parser.c:1775-2058 | headers of any of these sorts, and the body, or the chunks with their trailer, that they announce, are read to the last byte; the message completes there, the call ends there if it asks for an upgrade, and otherwise the parser waits for another message, or for none |
| `HttpMessages.ReadToEnd` | mbed-http/http_parser/http_parser.c:1868-1923 | without a length a response is read up to the end of the stream |
| `HttpConversations.UpgradeReported` | mbed-http/http_parser/http_parser.c:1775-1880 | every request of a conversation is recognised; HeadersComplete and the parser report an upgrade if and only if the method is CONNECT, or some Upgrade header has a value and some Connection list says upgrade; an upgrade ends the call at the last byte of the request, whatever follows |
| `HttpConversations.NothingBehindClose` | mbed-http/http_parser/http_parser.c:2118-2134 | behind a request that says close, or that says HTTP/1.0 and not keep-alive, the first byte that is no end of a line is an error and is not taken |
| `HttpConversations.EndsCleanly` | mbed-http/http_parser/http_parser.c:655-677 | behind a whole request the stream may end |
| `HttpReplies.ReplyReported` | mbed-http/http_parser/http_parser.c:1775-1932 | a response with any headers is recognised with status, headers and body, a switch of protocols included; another one may follow unless a Connection header says close, or only the end of the stream could have told its end |
| `HttpReplies.ReplyToEnd` | mbed-http/http_parser/http_parser.c:2095-2115 | without a length, without chunks and with a status that allows a body, the body is everything up to the end of the stream, which completes the message |
| `HttpKinds.KindSettled` | mbed-http/http_parser/http_parser.c:721-756 | a parser of either kind does on every stream exactly what one of requests does, unless the stream begins with HT, and then what one of responses does; H and any letter but T and E is an error |
| `HttpRefusals.MethodExact` | mbed-http/http_parser/http_parser.c:954-1051 | a word in front of a space is read without an error if and only if it is the name of a method |
| `HttpRefusals.TargetRefused` | mbed-http/http_parser/http_parser.c:1053-1124 | a target ends at the first byte that is neither visible nor a blank nor the end of the line: everything before it is taken |
| `HttpRefusals.VersionRefused` | mbed-http/http_parser/http_parser.c:1126-1191 | a byte that does not go on with HTTP/ and a digit other than 0 is refused, with the error of its place |
| `HttpRefusals.NameRefused` | mbed-http/http_parser/http_parser.c:1298-1425 | so is a byte in a header name that is neither a token byte nor the colon |
| `HttpRefusals.SecondLengthRefused` | mbed-http/http_parser/http_parser.c:1466-1477 | a second announced length is refused at its first digit |
| `HttpRefusals.EndRefused` | mbed-http/http_parser/http_parser.c:1775-1792 | chunks together with a length are refused at the end of the headers, and so is a carriage return there that no line feed follows |
| `HttpRefusals.CutOffRefused` | mbed-http/http_parser/http_parser.c:655-677 | a stream that ends within the headers is refused |
| `HttpConnection.ConnectionList` | mbed-http/http_parser/http_parser.c:1481-1731 | the flags are set by exactly the compared elements that spell a keyword, in any case |
| `HttpConnection.PlainList` | mbed-http/http_parser/http_parser.c:1603-1662 | without elements that swallow the comma or begin with an underscore, that is split-and-compare |
| `HttpText.SizeTextExact` | mbed-http/source/http_request_builder.h:72-76 | the number printed into a buffer of 10 bytes reads back if and only if it is below 10^9 |
| `HttpText.PutIsUpdate` | mbed-http/source/http_request_builder.h:56-65 | setting a header keeps the map order, holds the value, and changes no other key |
| `HttpText.PutShape` | mbed-http/source/http_request_builder.h:56-65 | exactly one entry of the map is new or replaced |
| `HttpText.SetHeader` | mbed-http/source/http_request_builder.h:56-65 | the loop over the map finds the place of the key |
| `HttpText.HasHeader` | mbed-http/source/http_request_builder.h:133-144 | with a name and a value, true exactly when the map holds that header |
| `HttpText.PrintMessage` | mbed-http/source/http_request_builder.h:99-129 | line, headers, empty line and body through one moving pointer fill exactly the buffer |
| `HttpText.SizeOfHeaders` | mbed-http/source/http_request_builder.h:83-88 | the computed size is the size that is printed |
| `HttpRequestBuilders.HttpRequestBuilder.Build` | mbed-http/source/http_request_builder.h:67-130 | exactly `size` bytes, which are the printed request with its length header; beside a chunked header the body is left out of `size`, and its copy ends behind the buffer if and only if it has more than one byte |
| `HttpRequestBuilders.LengthAnnounced` | mbed-http/source/http_request_builder.h:70-76 | an empty body is announced for POST, PUT and DELETE alone, any other for every method; nothing else changes, and beside chunks nothing at all |
| `HttpRequestBuilders.HostReadBack` | mbed-http/source/http_request_builder.h:32-49 | the host parser finds host and port in the Host header, the port being left out exactly where it is the default one of the scheme |
| `HttpRequestBuilders.RequestFeeds` | mbed-http/source/http_request_builder.h:67-130 | but for the header limit, the parser recovers method, URL, headers in map order and body from what `build` writes, then completes |
| `HttpResponseBuilders.HttpResponseBuilder.Build` | mbed-http/source/http_response_builder.h:113-164 | exactly `size` bytes, which are the printed response |
| `HttpResponseBuilders.StatusIsRegistered` | mbed-http/source/http_response_builder.h:26-89 | the status message is the registered reason phrase of the code, and "Unknown" for every other one |
| `HttpResponseBuilders.StatusExact` | mbed-http/http_parser/http_parser.c:870-914 | a status code is read exactly, or refused above 999 |
| `HttpResponseBuilders.ResponseFeeds` | mbed-http/source/http_response_builder.h:113-164 | but for the header limit, the parser recovers the printed response if the status is at most 999, and refuses it otherwise |
| `HttpSender.HttpRequestBase.SendBuffer` | mbed-http/source/http_request_base.h:256-285 | what the socket has taken is a prefix of the buffer, and the result its length, on every schedule |
| `HttpSender.DrainExact` | mbed-http/source/http_request_base.h:256-285 | on every schedule a buffer is lost in part without an error if and only if the first call that is not positive is reached before the buffer is sent and takes nothing, and an error is returned if and only if it is negative; the bytes taken are the sum of the calls |
| `HttpSender.OutExact` | mbed-http/source/http_request_base.h:256-285 | buffers sent one by one with success went out as a whole if and only if no call that was used took nothing; without such a call a prefix goes out in any case |
| `HttpSender.HttpRequestBase.Send` | mbed-http/source/http_request_base.h:88-111 | result, schedule and bytes that went out are those of sending the printed request, on every schedule; a body beside a chunked header does not go out |
| `HttpSender.HttpRequestBase.SendChunked` | mbed-http/source/http_request_base.h:120-184 | result, schedule and bytes that went out are those of sending one by one the request, the three buffers of each chunk up to the first empty one, and the last chunk, on every schedule |
| `HttpSender.ChunkedSent` | mbed-http/source/http_request_base.h:120-184 | a reported success means that the whole chunked text went out if and only if no call that was used took nothing; without such a call a prefix of it goes out in any case |
| `HttpSender.StallDrops` | mbed-http/source/http_request_base.h:256-285 | such a schedule: the rest of a buffer is dropped, the next buffer goes out behind the gap, and success is reported |
| `HttpSender.ChunkedFeeds` | mbed-http/source/http_request_base.h:145-184 | but for the header limit, the parser recovers the request and the chunks one by one, then completes once |
| `HttpLimit.HeadLimit` | mbed-http/http_parser/http_parser.c:154-163 | a message behind whose head nothing is counted exceeds the header limit if and only if its head, counted on from `nread`, is longer than the limit |
| `HttpLimit.RequestReadBack` | mbed-http/source/http_request_builder.h:67-130 | one call of `http_parser_execute` on a built request recovers all of it if request line, headers and empty line have at most 80 KB, and reports an overflow otherwise |
| `HttpLimit.ResponseReadBack` | mbed-http/source/http_response_builder.h:113-164 | the same for a built response; a status above 999 is refused |
| `HttpLimit.ChunkedReadBack` | mbed-http/source/http_request_base.h:145-184 | the same for a chunked request; its chunks never reach the limit, however many there are |
| `HttpChunks.ReadChunkedBody` | mbed-http/http_parser/http_parser.c:1934-2058 | from the chunk-size start every sequence of chunks is read back with one chunk header each and one for the end |
| `HttpChunks.ReadExtendedSize` | mbed-http/http_parser/http_parser.c:1955-2013 | extensions behind a chunk size are passed over |
| `HttpChunks.ChunksDeliver` | mbed-http/http_parser/http_parser.c:2015-2036 | the body callbacks deliver the concatenation of the chunks |
| `HttpEndToEnd.AtoiReads` | mbed-http/source/http_response.h:124-131 | `atoi` reads back the printed length |
| `HttpEndToEnd.ResponseMakes` | mbed-http/source/http_response.h:96-173 | the callbacks of a printed response make the message it was printed from, with its status code |
| `HttpEndToEnd.ResponseMade` | mbed-http/source/http_request_parser.h:64-135 | a built response, fed in any pieces, is exactly its status code, its headers and its body |
| `HttpRequestMade.RequestMade` | mbed-http/source/http_request_parser.h:74-135 | the object made of a request has its method, its target, its upgrade, all headers in order, those behind the last chunk at the end, and its body, complete |
| `HttpArrival.ResponseUnfinished` | mbed-http/http_parser/http_parser.c:1882-1932 | no proper prefix of a built response completes |
| `HttpArrival.ResponseArrives` | mbed-http/source/http_request_base.h:287-332 | when the calls of `recv` deliver a built response in any pieces, and whatever would come after it, `create_http_response` reads exactly these pieces, succeeds, and gives its status code, headers and body, the body to a body callback if there is one, if and only if the header limit is kept in every piece; a head that leaves one byte of the limit for each piece keeps it, a head above the limit does not |
| `HttpUrl.HttpParserUrl.ReadHost` | mbed-http/http_parser/http_parser.c:2255-2335 | the loop over the host gives the spans of user info, host and port, or a failure |
| `HttpUrl.HttpParserUrl.Read` | mbed-http/http_parser/http_parser.c:2342-2444 | `http_parser_parse_url` is the fold over the bytes; all fields are within bounds and the port has 16 bits |
| `HttpUrlPrint.UrlReadBack` | mbed-http/http_parser/http_parser.c:2342-2444 | every printed URL is accepted, with exactly its components, each where it is printed, and its port |
| `HttpUrlPrint.SpansDisjoint` | mbed-http/http_parser/http_parser.c:2342-2444 | the reported spans do not overlap |
| `MqttCodec.Encode` | libs/MQTTPacket/MQTTPacket.c:29-44 | writes the base-128 digits of the length and nothing else |
| `MqttCodec.EncodedIsStandard` | libs/MQTTPacket/MQTTPacket.c:29-44 | these digits are the form of MQTT 3.1.1, section 2.2.3: seven bits a byte, the top bit on all but the last, and no zero byte at the end |
| `MqttCodec.LengthReadBack` | libs/MQTTPacket/MQTTPacket.c:29-81 | every length up to 268435455 takes 1 to 4 bytes and is decoded to itself, whatever follows |
| `MqttCodec.PacketLenExact` | libs/MQTTPacket/MQTTPacket.c:84-98 | never below the size needed; equal to it except at 127, 16383, 2097150 and 2097151, where it is one more |
| `MqttCodec.StringReadBack` | libs/MQTTPacket/MQTTPacket.c:194-234 | a written string is read back and the pointer stands behind it |
| `MqttCodec.WriteString` | libs/MQTTPacket/MQTTPacket.c:194-206 | the length and the bytes of the form that is set |
| `MqttCodec.ReadString` | libs/MQTTPacket/MQTTPacket.c:215-234 | takes the string exactly when it ends within the data |
| `MqttReader.Stream.DecodeLength` | libs/MQTTPacket/MQTTPacket.c:54-81 | value, return code and bytes taken, for every stream |
| `MqttReader.Stream.Read` | libs/MQTTPacket/MQTTPacket.c:290-316 | return code, whole buffer and what is left of the stream after a blocking read, for every stream |
| `MqttReader.Transport.ReadNb` | libs/MQTTPacket/MQTTPacket.c:324-411 | on every stream, each call of `MQTTPacket_readnb` keeps the place in the packet, or ends in state 0 with the result for that packet: its type, or -1 for a bad length field, a packet too long or a stream that ends |
| `MqttReader.Transport.ReadAll` | libs/MQTTPacket/MQTTPacket.c:324-411 | on every stream and every schedule of short reads, calling again until there is a result gives the return code and buffer of the first packet whose type is not 0, and leaves what follows it |
| `MqttReader.ReadersCompared` | libs/MQTTPacket/MQTTPacket.c:290-411 | with a whole length field the two readers agree if and only if the packet type is not 0, or the packet is cut off or too long for the buffer; with a cut off or overlong one, if and only if the blocking reader, going on with the value it has, runs out of room or of bytes |
| `MqttReader.BlindRead` | libs/MQTTPacket/MQTTPacket.c:303-303 | on every stream that ends within the length field `MQTTPacket_readnb` fails, and `MQTTPacket_read` returns a packet type exactly when the bits read make 0 and two bytes fit |
| `MqttConnect.Serialize` | libs/MQTTPacket/MQTTConnectClient.c:58-121 | for every protocol version writes exactly the packet, or nothing when the predicted length does not fit; within the buffer for the versions 3 and 4, and up to twelve bytes behind it for the others |
| `MqttConnect.PacketIsFrame` | libs/MQTTPacket/MQTTConnectClient.c:26-47 | the length field of the packet is right if and only if the version is 3 or 4 |
| `MqttConnect.ConnectHead` | libs/MQTTPacket/MQTTConnectClient.c:73-97 | for level 4 the packet begins with the bytes of MQTT 3.1.1, section 3.1.2: type, name, level, each flag at its bit, keep-alive |
| `MqttConnect.BoundHolds` | libs/MQTTPacket/MQTTConnectClient.c:67-71 | the length test keeps the packet within every buffer if and only if the version is 3 or 4 |
| `MqttConnect.Deserialize` | libs/MQTTPacket/MQTTConnectServer.c:51-108 | return code and stored options, for every buffer, on failure too |
| `MqttConnect.ConnectReadBack` | libs/MQTTPacket/MQTTConnectServer.c:30-108 | a packet of any version gives back all options if and only if the version is 4, a password comes with a user name and the last login field is not empty |
| `MqttFrame.HeaderReadBack` | libs/MQTTPacket/MQTTPacket.h:53-73 | the header byte gives back type, dup, QoS and retain bits |
| `MqttFrame.UnframeFrame` | libs/MQTTPacket/MQTTSubscribeServer.c:45-51 | header byte and length of a packet lead to its body |
| `MqttFrame.FrameRead` | libs/MQTTPacket/MQTTPacket.c:290-411 | both readers take such a packet as it is, give its type and leave what follows it; only the resumable one passes over a packet of type 0 |
| `MqttSubscribe.SubscribeLength` | libs/MQTTPacket/MQTTSubscribeClient.c:28-36 | the predicted length is the length of the body |
| `MqttSubscribe.Serialize` | libs/MQTTPacket/MQTTSubscribeClient.c:50-86 | writes exactly the packet, within the bound, or nothing |
| `MqttSubscribe.FirstByte` | libs/MQTTPacket/MQTTSubscribeClient.c:66-70 | the first byte has type 8, QoS 1 and no retain bit, as section 3.8.1 of MQTT 3.1.1 asks, and the dup bit as told |
| `MqttSubscribe.Example` | libs/MQTTPacket/MQTTSubscribeClient.c:50-86 | the example of MQTT 3.1.1, section 3.8.3, byte by byte |
| `MqttSubscribe.Deserialize` | libs/MQTTPacket/MQTTSubscribeServer.c:35-70 | return code, flags, count and both arrays, for every buffer and also when an entry runs short |
| `MqttSubscribe.SubscribeReadBack` | libs/MQTTPacket/MQTTSubscribeServer.c:35-70 | any list of filters comes back in order, with the low byte of each QoS |
| `MqttSubscribe.ListedAt` | libs/MQTTPacket/MQTTSubscribeClient.c:76-80 | entry k of the list is filter k with its QoS |
| `MqttSubscribe.SuccessMeans` | libs/MQTTPacket/MQTTSubscribeServer.c:35-70 | for every buffer that is read: the code is 1 if and only if all entries are complete or the length field has one byte |
| `MqttSubscribe.ShortPacketAccepted` | libs/MQTTPacket/MQTTSubscribeServer.c:50-68 | a packet that runs short and yet returns 1 |
| `MqttPublish.Serialize` | libs/MQTTPacket/MQTTSerializePublish.c:55-91 | writes exactly the packet, within the bound, or nothing |
| `MqttPublish.FirstByte` | libs/MQTTPacket/MQTTSerializePublish.c:70-74 | the first byte has type 3, then dup, QoS and retain (section 3.3.1 of MQTT 3.1.1) |
| `MqttPublish.Example` | libs/MQTTPacket/MQTTSerializePublish.c:55-91 | the example of MQTT 3.1.1, section 3.3.2, with a payload, byte by byte |
| `MqttPublish.Deserialize` | libs/MQTTPacket/MQTTDeserializePublish.c:36-69 | return code and all out parameters, for every buffer |
| `MqttPublish.SuccessMeans` | libs/MQTTPacket/MQTTDeserializePublish.c:36-69 | for every buffer: the code is 1 if and only if the topic is read or the length field has one byte, and the packet is complete if and only if, besides, the payload length is not negative |
| `MqttPublish.ShortPacketAccepted` | libs/MQTTPacket/MQTTDeserializePublish.c:46-66 | two packets that run short and yet return 1, one with a payload length of -2 |
| `MqttPublish.PublishReadBack` | libs/MQTTPacket/MQTTDeserializePublish.c:36-69 | flags, QoS, topic, payload, and the packet id when there is one, come back |
| `MqttTopic.IsTopicMatched` | libs/MQTTClient/MQTTThreadedClient.cpp:692-717 | for every valid filter: true if and only if the name meets the filter and no wildcard has to stand for an empty level or for none |
| `MqttTopic.WalkIsLevels` | libs/MQTTClient/MQTTThreadedClient.cpp:692-717 | the pointer walk decides level by level |
| `MqttTopic.AgreeWithoutEmptyLevels` | libs/MQTTClient/MQTTThreadedClient.cpp:692-717 | with no empty level and enough levels for `#`, it agrees with the specification |
| `MqttTopic.ParentLevelMissed` | libs/MQTTClient/MQTTThreadedClient.cpp:692-717 | `a/#` is not found to match `a` |
| `Sha1.Sha1Context.constructor` | mbed-http/source/sha1_ws.cpp:61-82 | `SHA1Reset`: an empty message has been absorbed |
| `Sha1.Sha1Context.ProcessMessageBlock` | mbed-http/source/sha1_ws.cpp:231-314 | schedule and four loops compute the compression function of the standard |
| `Sha1.FourRounds` | mbed-http/source/sha1_ws.cpp:260-306 | the 80 turns, with the function and constant of each quarter |
| `Sha1.Sha1Context.AddByte` | mbed-http/source/sha1_ws.cpp:184-206 | one byte keeps index, length pair, block and hash in step with the message, up to 2^61 bytes |
| `Sha1.Sha1Context.Input` | mbed-http/source/sha1_ws.cpp:160-209 | the bytes are appended; input after the result, and a message that is too long, corrupt the context |
| `Sha1.Sha1Context.PadMessage` | mbed-http/source/sha1_ws.cpp:341-386 | both paddings end on a block boundary with the hash of the padded message |
| `Sha1.Sha1Context.Result` | mbed-http/source/sha1_ws.cpp:103-138 | the digest of everything put in, as often as it is asked for |
| `Sha1.DigestOfPieces` | mbed-http/source/sha1_ws.cpp:103-386 | however a message under 2^61 bytes is cut, the digest is that of RFC 3174 for the whole |
| `Sha1.OneBlock` | mbed-http/source/sha1_ws.cpp:364-386 | padding within the last block |
| `Sha1.TwoBlocks` | mbed-http/source/sha1_ws.cpp:349-386 | padding into a second block |
| `Sha1Example.DigestOfAbc` | mbed-http/source/sha1_ws.cpp:231-314 | the digest of "abc" is the one that RFC 3174 gives in section 7.3 |
| `Base64.Encode` | mbed-http/source/ClientConnection.cpp:216-254 | the encoded text and its end, nothing behind it changed; fails exactly when the text does not pass the size test |
| `Base64.TestHolds` | mbed-http/source/ClientConnection.cpp:227-230 | that test keeps text and end within the buffer if and only if the size is not 0 |
| `Base64.EncodedLength` | mbed-http/source/ClientConnection.cpp:227-227 | four symbols for every three bytes or part of them |
| `Base64.Base64ReadBack` | mbed-http/source/ClientConnection.cpp:216-254 | the decoder of RFC 4648 gives every byte string back |
| `Base64.Base64Canonical` | mbed-http/source/ClientConnection.cpp:216-254 | every string that decodes is the one written for its bytes |
| `Base64.Vectors` | mbed-http/source/ClientConnection.cpp:216-254 | the vectors of RFC 4648, section 10, and the last two symbols of the alphabet |
| `WebSocket.CreateHeader` | mbed-http/source/ClientConnection.cpp:303-377 | writes exactly the header and returns its size |
| `WebSocket.HeaderReadBack` | mbed-http/source/ClientConnection.cpp:303-377 | section 5.2 of RFC 6455 reads back every length below 2^32, opcode, fin bit and key, and consumes exactly the returned size |
| `WebSocket.Examples` | mbed-http/source/ClientConnection.cpp:303-377 | the examples of RFC 6455, section 5.7: a masked text, and the headers of 256 and 65536 bytes |
| `WebSocket.ShortestForm` | mbed-http/source/ClientConnection.cpp:305-366 | the length field is the shortest if and only if the length is not 65535 |
| `WebSocket.MaskedTwice` | mbed-http/source/ClientConnection.cpp:492-494 | masking undoes itself, and a zero key changes nothing |
| `WebSocket.MaskInPlace` | mbed-http/source/ClientConnection.cpp:196-201 | the loop masks exactly its stretch of the buffer |
| `WebSocket.FrameReadBack` | mbed-http/source/ClientConnection.cpp:303-377 | sections 5.2 and 5.3 give back header, payload and what follows |
| `ClientConnections.ClientConnection.SendFrame` | mbed-http/source/ClientConnection.cpp:410-527 | on every schedule, and on each of the three ways to send, exactly the bytes of one frame that the socket takes go out, and the result is true if and only if that is the whole frame |
| `ClientConnections.OnWireParts` | mbed-http/source/ClientConnection.cpp:497-515 | what goes out is a beginning of the header and a beginning of the payload, and a beginning of the frame unless the header was cut in a call of its own |
| `ClientConnections.HeaderLost` | mbed-http/source/ClientConnection.cpp:504-515 | a call that takes nothing of the header leaves the payload without it |
| `ClientConnections.ClientConnection.HandleWebSocket` | mbed-http/source/ClientConnection.cpp:159-214 | result, last fin bit, events, bytes sent and the whole buffer afterwards, for every buffer |
| `ClientConnections.BufferKept` | mbed-http/source/ClientConnection.cpp:159-214 | the payload is unmasked where it lies, a text ends with a zero byte that overwrites the next one, and nothing else behind the first byte changes |
| `ClientConnections.FrameHandled` | mbed-http/source/ClientConnection.cpp:159-214 | a peer's frame delivers its original payload, answers a ping or closes, whatever the buffer holds behind it |
| `ClientConnections.StreamHandled` | mbed-http/source/ClientConnection.cpp:159-214 | over every valid stream, exactly the messages in one short frame are delivered, in order, pings answered, and a close ends it |
| `ClientConnections.ClientConnection.SendUpgradeResponse` | mbed-http/source/ClientConnection.cpp:256-292 | the answer carries base64 of SHA-1 of key and magic number, and goes out as far as the socket takes it; it fails if and only if the key does not fit or the socket reports an error |
| `HttpHandshake.AnswerReadBack` | mbed-http/source/ClientConnection.cpp:256-292 | a peer's parser reads in the answer status 101, an upgrade, and exactly the headers Upgrade, Connection and Sec-WebSocket-Accept, and stops behind it; the value of the last, decoded as base64, is the SHA-1 digest of the key and, behind it, the number of RFC 6455, section 1.3 |
| `ClientConnections.ClientConnection.HandleUpgradeRequest` | mbed-http/source/ClientConnection.cpp:115-157 | the two searches through the headers: the handshake is answered, and the handler told, exactly when protocol and key are named, there is a handler and room, and the key fits; nothing happens otherwise |
| `WebSocketOpening.OpeningUnderstood` | mbed-http/source/ClientConnection.cpp:96-157 | every request for an upgrade is taken up to its last byte, makes an object that asks for it, and has its key answered if and only if one header is, letter by letter, Upgrade: websocket and one is named Sec-WebSocket-Key; the first of that name holds the key |
| `WebSocketOpening.SpellingDecides` | mbed-http/source/ClientConnection.cpp:115-142 | for every key, the text of an opening handshake gets its key answered; spelled "upgrade", which RFC 6455 allows, it is an upgrade that nothing answers |
| `TextLcd.PanelsFit` | libs/TextLCD/TextLCD.h:192-238 | every panel type has a shape for which its addressing mode works |
| `TextLcd.AddressInjective` | libs/TextLCD/TextLCD.cpp:1798-1951 | no two cells of a panel share a place in the memory of one controller |
| `TextLcd.RowRuns` | libs/TextLCD/TextLCD.cpp:1798-1951 | along a row the addresses go up by one, but for the middle of a row that is split |
| `TextLcd.RowsLie` | libs/TextLCD/TextLCD.cpp:1798-1951 | where each row begins, for every addressing mode: in mode A the rows 2 and 3 go on where the rows 0 and 1 end, in mode E they are the same lines of the other controller |
| `TextLcd.TextLCD.GetAddress` | libs/TextLCD/TextLCD.cpp:1798-1951 | the address of the cell, with its controller selected and the cursor shown there only |
| `TextLcd.TextLCD.SetAddress` | libs/TextLCD/TextLCD.cpp:1959-1984 | the cursor goes to the nearest cell inside, and nothing else on the screen changes |
| `TextLcd.TextLCD.PutC` | libs/TextLCD/TextLCD.cpp:1543-1603 | the character appears at the cursor, which moves on and wraps; a newline starts the next row |
| `TextLcd.TextLCD.Clear` | libs/TextLCD/TextLCD.cpp:1485-1523 | every cell is blank, on both controllers, and the cursor at the start |
| `TextLcd.TextLCD.SetMode` | libs/TextLCD/TextLCD.cpp:2030-2073 | the display is switched on or off on both controllers, as bit 2 of their control registers says, the cursor of the one in use stays as it was, and so does everything else on the screen |
| `TextLcd.TextLCD.Perform` | libs/TextLCD/TextLCD.cpp:1485-2073 | over every sequence of operations the memory at the address of each cell is the plain grid, and the counter in use is the address of the cursor's cell |
| `TextLcd.StoreShows` | libs/TextLCD/TextLCD.cpp:1543-1603 | writing at the address of a cell changes that cell of the grid and no other |

## Left out

- HttpFragments.FragmentationIndependence: streams with an upgrade are not covered; the call then returns before the end of its buffer (`HttpConversations.UpgradeReported`), and what is behind depends on the cut. The header limit depends on the cut too, because nread counts a byte twice where a buffer ends inside a name or a value.
- HttpSender.HttpRequestBase.SendChunked: chunks with 8 hex digits of length are excluded, because their size line does not fit its buffer; the request log buffer is not modelled.
- HttpChunks.ChunkSizeExact: bytes above 127 are excluded, because the table of hexadecimal digits lists 128 entries and the rest are zero.
- HttpUrl.HttpParserUrl.Read: buffers of 65536 bytes and more are excluded, because offsets have 16 bits.
- HttpSections.ReadLines: header lines that are folded, that end with a line feed alone, or that name another transfer encoding than "chunked" are not printed; HttpRequestLine.ReadTarget: nor targets that begin with a scheme.
- ClientConnections.ClientConnection.HandleUpgradeRequest: a path without a handler, which makes the source call a null pointer, is excluded; the count of open WebSockets is a parameter.
- Lenient headers, pausing, callbacks that return non-zero or change the parser.
- HttpResponse.set_url and the status text of set_status: they overwrite; only headers and body are joined.
- HttpResponse on 2^32 bytes and more: sizes and offsets have 32 bits there.
- MqttReader.Stream.Read: the memory at the buffer has five bytes at least, which the header and the length take before any test of the size; the same holds for MqttReader.Transport.ReadNb and MqttReader.Transport.ReadAll.
- MqttConnect.Serialize: for versions other than 3 and 4 the twelve bytes behind the buffer are part of the memory that the method may write.
- MqttConnect.Deserialize: a string that fails keeps its old value, where the source already stores its length.
- MqttSubscribe.Serialize: remaining lengths above 268435455 are excluded; the encoder would write a fifth byte. A string with both forms set is excluded, because length and writer prefer different ones.
- MqttSubscribe.Deserialize: a packet whose length field claims more than the buffer holds is a read behind the buffer, and excluded.
- MqttTopic.IsTopicMatched: the rule for topics that start with a dollar sign, which the source does not have.
- Suback, unsubscribe and plain acknowledgements: easy copies of the same round trips.
- Sha1.Sha1Context.Input: null pointers.
- ClientConnections.ClientConnection.HandleWebSocket: each frame is taken to arrive whole at the start of the receive buffer; the last fin bit starts as true, although the source does not initialise it.
- ClientConnections.ClientConnection.SendUpgradeResponse: the response is put together as a value, not by writing over a template.
- TextLcd.TextLCD.PutC: fonts other than the default one; how a controller moves its counter by itself is left open.
- TextLcd.TextLCD.constructor: starts behind the initialisation of the controllers, with any memory.
- Sockets, TLS, threads, timers, memory allocation failure (but for sendFrame), the server's dispatch and counting, drivers of other devices.
