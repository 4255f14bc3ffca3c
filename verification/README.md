# Verified model of the websocket-std client

`websocket-std` is a WebSocket client (the client half of RFC 6455) driven by repeated calls of
`event_loop`. Each call reads at most once from a non-blocking socket, parses at most one frame, handles
at most one input event and writes at most one output event. This project models that client, its frame
codec and its handshake messages in Dafny, and proves what holds over every run.
`dafny verify dfyconfig.toml` checks everything.

## How it is organised

| file | contents |
|---|---|
| `Bits`, `Bytes`, `Utf8`, `Text`, `Wrappers` | bit operators on numbers, big-endian numbers, UTF-8, string operations, options |
| `Unicode`, `Strings` | what those mean: UTF-8 against the table of RFC 3629, the string operations by positions and bytes |
| `Rfc6455` | an independent receiver written from sections 5.2, 5.3 and 5.4 of RFC 6455 |
| `Frames` | headers, frames, the serializer and the parser, as methods proved against functions |
| `Codec` | the serializer and the parser against the receiver |
| `Http`, `HttpRoundTrip` | request printer, response parser, and that they are inverse on header blocks |
| `Session` | the client as a state machine on values, one function per method of `WSClient` |
| `Client`, `Driver` | `class WSClient`: the methods on mutable fields, each proved to compute its `Session` function; runs of calls on an object |
| `Runs`, `Outgoing` | runs of user calls; what one iteration amounts to; the shape of frames |
| `Lifecycle` | invariants of all runs, with errors, panics and the drop |
| `Output`, `Fragmentation`, `Writes`, `EndToEnd` | from `send` to the bytes on the socket and the messages a server receives |
| `Requests`, `Settings`, `Setup` | what the request says; what a run stores and keeps; the requests queued by connecting |
| `Opening` | which response of the server opens the connection |
| `Streaming`, `Reassembly`, `Replies` | from the server's bytes to callbacks and answers |
| `CloseHandshake`, `Dropping` | the closing handshake of either side |
| `Progress` | what is bound to happen while the socket takes what it is given |
| `Failures`, `Outcomes` | which iterations panic or fail, with which error, and what they lose |

Conventions. A byte is a number below 256 and a string is its bytes, as in Rust. An abort of the program
(`unwrap` of `None`, a slice out of range, `todo!()`, a cut inside a character) or a loop without end is an
outcome `Panic(kind)`, not a precondition. What the socket, the random generator, the hasher of the header
map and the user's callback do is the input of a step, so every theorem holds for all of them; the callback
may call `send` any number of times. A run is a list of calls `init`, `set_message_size`, `send`,
`event_loop` and finally the drop. An `OkRun` is one in which every call succeeds and the drop has not
happened; `SingleInit` runs also contain failing calls. The fields `written`, `wire`, `enqueued`,
`payloads`, `received`, `dispatched` and `callbacks` of a state are a trace that no method reads; `wire` is
the bytes passed to the socket.

## What the code does not do

Some expected laws are false of the code. The model keeps the code's behaviour and states exactly when
the law holds.

- The messages a server sends are reported once and whole if and only if every data frame has flags exactly
  FIN or is an empty final frame. Any other fragment p is reported at once as p followed by p
  (`Reassembly.SentMessagesReported`, `FragmentDoubled`).
- A text cut inside a character by fragmentation, which section 5.4 of RFC 6455 allows, is refused, and so is
  every whole text after it, because the bytes of the refused fragment are kept (`Reassembly.Remembered`,
  `CutCharacterBlocks`).
- The reply to a server's CLOSE is written, and its status reported, if and only if no PONG was held when
  the CLOSE arrived and no PING got ahead of the reply; otherwise a PONG ends the connection and status 0
  is reported (`CloseHandshake.CloseHandshakeTheorem`). A PING in one iteration and a CLOSE in the next,
  with nothing else going on, is enough (`PingBeforeClose`).
- The parser ignores the mask bit: it finds the end of a data frame if and only if the frame is not masked
  (`Codec.OffsetRightIffUnmasked`).
- On a server's stream the parser panics if and only if a read ends inside an extended length, or a control
  frame has fewer than two payload bytes, or a length overflows 64 bits (`Streaming.StoragePanicsIff`). An
  empty PING, which RFC 6455 allows, is enough (`EmptyPingPanics`).
- A control frame loses as many payload bytes as its extended length has, and is cut to 124 if more than 125
  are left (`Codec.ParsedControlLength`). So one that the client itself serialized comes back whole if and
  only if it has 2 to 124 bytes (`Codec.ControlRoundTrip`).
- The length encoding is the shortest, as section 5.2 of RFC 6455 demands, if and only if the payload is
  not 125 bytes long (`Codec.MinimalEncodingUnless125`). So what the client writes meets that demand if and
  only if no frame written has 125 payload bytes (`EndToEnd.EndToEndTheorem`); a `send` of 125 bytes at the
  default message size breaks it.
- `ControlFrame::new` with more than 125 bytes announces 125 and keeps 124, so the frame is complete on
  the wire if and only if nothing was cut (`Codec.ControlFrameCompleteIff`); the client never does this
  (`Lifecycle.LifecycleTheorem`).
- `send` gets through if and only if the payload is empty, or the message size is not 0 and none of its
  multiples falls inside a character (`Fragmentation.CutsOkIff`, `Failures.SendAllOkIff`); with size 0 it
  never returns.
- `event_loop` panics, on any client initialised at most once, if and only if the list of protocols is empty,
  the status line of a response is cut short, the parser of frames panics on the storage, a PONG is complete
  in it, or the callback sends a payload that does not get through (`Failures.NextIterationPanicsIff`).
- A response whose status line has one word, or two of which the second is a number, makes the client panic,
  and one whose second word is not a number is waited for without end; the other responses open the
  connection or fail (`HttpRoundTrip.StatusLineDecides`, `Opening.OpeningTheorem`). A server that leaves the
  reason out, and the blank before it, is enough (`HttpRoundTrip.NoReasonPanics`).
- A complete frame with a reserved opcode ends its step in InvalidFrame, except that one with opcode 3 or 11
  whose payload is shorter than its own first bytes, up to the end of the length, makes the parser panic
  (`Replies.ReservedOpcodes`).
- An iteration that fails after the output event has left its queue loses that event: no data frame is lost
  if and only if the read failed or the head of the queue was not a data frame (`Failures.LostEventIff`).
  The frames that make the input fail are those with opcode 3, 10 or 11, texts that are not UTF-8, and
  texts on which the callback panics (`Failures.InputFailsIff`).
- The client enters the handshake with one request in front of the queue for each time `set_nonblocking`
  failed and one more, so a single request goes first if and only if it never failed
  (`Setup.OneRequestIff`). If it fails once and the next iteration connects, there are two
  (`RequestQueuedTwice`).
- A failing write of the request loses it: the client stays in the handshake with only frames to send
  (`Progress.RequestIsLost`).
- Data frames may follow the CLOSE that the drop sends, against section 5.5.1 of RFC 6455: they are the first
  of those that callbacks queue during the drop, and while the closing loop does not fail there are none if
  and only if all of those are still in the queue (`Dropping.NoDataAfterCloseIff`). A callback that answers a
  text is enough (`AnswerFollowsClose`).

The documentation of `read_into_buffer` (core/net.rs) speaks of an error `Custom` at the end of the stream;
the code returns `ConnectionClose`, and so does the model.

## Model

| member | source | states |
|---|---|---|
| Bytes.BytesToU16 | websocket/src/core/binary.rs:13-18 | defined exactly on two bytes; to_be_bytes of the result gives them back |
| Bytes.BytesToU64 | websocket/src/core/binary.rs:5-10 | defined exactly on eight bytes; to_be_bytes of the result gives them back |
| Bytes.BeRoundTrip | websocket/src/ws_basic/header.rs:87-91 | reading the big-endian bytes of a number that fits gives the number |
| Bytes.BeValueFront | websocket/src/core/binary.rs:5-18 | the first byte weighs 256 to the number of bytes behind it |
| Bytes.BeValueOfTwo | websocket/src/core/binary.rs:13-18 | 256 a + b |
| Bytes.BeValueOfEight | websocket/src/core/binary.rs:5-10 | the eight bytes with their weights |
| Bits.XorBits | websocket/src/ws_basic/frame.rs:43 | XOR has a one exactly where one of the two numbers has |
| Bits.AndBits | websocket/src/ws_basic/frame.rs:156-175 | AND has a one exactly where both numbers have |
| Bits.OrBits | websocket/src/ws_basic/header.rs:71-93 | OR has a one exactly where either number has |
| Utf8.ValidConcat | websocket/src/sync/client.rs:273-278 | appending one valid string to another gives a valid string |
| Utf8.LossyIsValid | websocket/src/http/response.rs:43 | what is left after dropping ill-formed bytes is valid UTF-8 |
| Unicode.ValidIff | websocket/src/sync/client.rs:262-275 | the bytes accepted are exactly the encodings of Unicode scalar values by the table of RFC 3629, section 3 |
| Unicode.BoundaryIff | websocket/src/sync/client.rs:200 | in a string, a boundary is exactly where both halves are strings |
| Unicode.LossyOfString | websocket/src/http/response.rs:43 | of a string, the replacement characters are dropped and nothing else |
| Unicode.LossyConcat | websocket/src/http/response.rs:43 | a string in front of other bytes is decoded by itself |
| Unicode.LossySkips | websocket/src/http/response.rs:43 | a byte that begins no character is dropped |
| Strings.LowerIff | websocket/src/http/response.rs:27 | lower-casing identifies exactly the names that differ in nothing but the case of letters |
| Strings.LowerMeaning | websocket/src/http/response.rs:79 | it gives the same name without capitals |
| Strings.FindMeaning | websocket/src/http/response.rs:45 | the first position at which the pattern stands, or none if it stands nowhere |
| Strings.SplitMeaning | websocket/src/http/response.rs:52-55 | the pieces make up the text again and do not contain the separator |
| Strings.SplitJoined | websocket/src/http/response.rs:52 | splitting recovers the pieces that were joined |
| Strings.TrimMeaning | websocket/src/http/response.rs:76-77 | whatever blanks stand around a text without blanks at its ends, trimming gives that text |
| Strings.ParseU16Meaning | websocket/src/http/response.rs:57 | a number is read exactly if it has a digit, nothing but digits after an optional plus sign, and a decimal value below 65536 |
| Frames.FlagFromBits | websocket/src/ws_basic/frame.rs:156-161 | a flag byte is accepted exactly when its low nibble is clear |
| Frames.OpcodeFromBits | websocket/src/ws_basic/header.rs:9-16 | an opcode byte is accepted exactly when it is below 4 or from 8 to 11 |
| Frames.MaskTestIsFalse | websocket/src/ws_basic/frame.rs:172 | no byte passes the parser's test of the mask bit |
| Frames.SerializeHeader | websocket/src/ws_basic/header.rs:68-101 | merging bits with OR yields the header bytes with each field in its place |
| Frames.Serialize | websocket/src/ws_basic/frame.rs:35-53 | the masking loop with its wrapping counter applies the mask as section 5.3 of RFC 6455 defines it; Codec.MaskedBits says it bit by bit |
| Codec.MaskedBits | websocket/src/ws_basic/frame.rs:43 | octet j travels with a one exactly where it and octet j mod 4 of the mask differ |
| Frames.BytesToFrame | websocket/src/ws_basic/frame.rs:147-217 | the parser returns Parse, which Codec.ParseUnmasked characterises for every input whose mask bit is clear |
| Codec.SerializedFrameDecodes | websocket/src/ws_basic/frame.rs:35-53 | a standard receiver recovers flags, opcode, mask and payload of every serialized frame, whatever follows it |
| Codec.MinimalEncodingUnless125 | websocket/src/ws_basic/header.rs:81-92 | the length encoding is minimal exactly when the payload is not 125 bytes |
| Codec.ControlFrameCompleteIff | websocket/src/ws_basic/frame.rs:104-123 | a control frame is complete on the wire exactly when its payload was not cut |
| Codec.ParseUnmasked | websocket/src/ws_basic/frame.rs:147-217 | for every input with the mask bit clear, the parser returns what Understood says in terms of the standard's decoder: when it waits, rejects, panics, and which frame it builds, with the bytes a control frame loses |
| Codec.ParsedShort | websocket/src/ws_basic/frame.rs:212-215 | a control frame in the 7-bit form comes out with its whole payload and its first two bytes as status |
| Codec.ParsedControlLength | websocket/src/ws_basic/frame.rs:214 | which first part of the payload comes out of a control frame of any length |
| Codec.DataRoundTrip | websocket/src/ws_basic/frame.rs:207-209 | parsing a serialized data frame followed by anything returns that frame and its exact length |
| Codec.StrictPrefix | websocket/src/ws_basic/frame.rs:174-187 | on strict prefixes of a frame the parser waits, and panics exactly inside the extended length |
| Codec.ControlRoundTrip | websocket/src/ws_basic/frame.rs:104-123 | an uncut control frame comes back with payload and status exactly when it has 2 to 124 bytes; at 0 and 1 the parser panics, at 125 it returns 123 of them |
| Codec.OffsetRightIffUnmasked | websocket/src/ws_basic/frame.rs:172-204 | the end of a data frame is found exactly when it is unmasked; otherwise the key is taken for data |
| Http.SerializeRequest | websocket/src/http/request.rs:38-60 | request line, one line per header in the iteration order of the map, blank line |
| Http.ResponseParse | websocket/src/http/response.rs:41-88 | the parser returns ParseResponse, with its error and panic cases |
| HttpRoundTrip.AnyLine | websocket/src/http/response.rs:67-80 | a header line with any blanks around name and value is read as the lower-cased name and the value, colons in the value included |
| HttpRoundTrip.LineRoundTrip | websocket/src/http/response.rs:67-80 | the same for a line as the client prints it |
| HttpRoundTrip.LastLineWins | websocket/src/http/response.rs:79 | of several lines with one name the last decides |
| HttpRoundTrip.ParseErrorIff | websocket/src/http/response.rs:45-80 | any text: exactly when the parser reports an error, which is when the client waits |
| HttpRoundTrip.FindBlank | websocket/src/http/response.rs:45-50 | the first blank line found is the end of the header block |
| HttpRoundTrip.HeaderRoundTrip | websocket/src/http/request.rs:50-57 | header blocks printed in any order are read back: version, code, reason, body and every lookup by a name that differs at most in case |
| Client.WSClient.constructor | websocket/src/sync/client.rs:105-126 | a new client is the initial state |
| Client.WSClient.Init | websocket/src/sync/client.rs:128-140 | changes exactly path, callback, protocols and status |
| Client.WSClient.SetMessageSize | websocket/src/sync/client.rs:183-185 | changes exactly the message size, 0 included |
| Client.WSClient.Send | websocket/src/sync/client.rs:191-207 | computes Session.Send: nothing when closed, else the fragments are appended; endless on size 0 |
| Client.WSClient.QueueFragments | websocket/src/sync/client.rs:197-206 | the loop appends exactly Fragments, and stops at the first cut inside a character |
| Client.WSClient.StartInit | websocket/src/sync/client.rs:142-175 | puts the request in front of the queue and stores the key; then stores the stream and moves to the handshake, unless set_nonblocking fails |
| Client.WSClient.ProtocolsValue | websocket/src/sync/client.rs:156-161 | the protocols joined with a separator after each |
| Client.WSClient.EventLoop | websocket/src/sync/client.rs:209-226 | computes Session.EventLoop, the output event being popped before the input event is handled |
| Client.WSClient.PopOutputEvent | websocket/src/sync/client.rs:228-238 | takes the head unless it is a frame during the handshake |
| Client.WSClient.HandleRecvBytesFrame | websocket/src/sync/client.rs:240-250 | a complete frame is removed from the storage, otherwise the storage is kept |
| Client.WSClient.HandleRecvFrame | websocket/src/sync/client.rs:252-298 | computes Session.HandleFrame for data, control and undefined frames |
| Client.WSClient.HandleRecvBytesHttpResponse | websocket/src/sync/client.rs:300-310 | a complete response clears the storage |
| Client.WSClient.HandleRecvHttpResponse | websocket/src/sync/client.rs:312-349 | the connection opens only on an accepted key and status 101 |
| Client.WSClient.HandleSendFrame | websocket/src/sync/client.rs:351-374 | exactly the bytes of the frame go to the socket; a blocked frame returns to the front; a control frame sent while the server closes ends the connection |
| Client.WSClient.Shutdown | websocket/src/sync/client.rs:362-371 | status, stream and ON_CLOSE at the end of the connection |
| Client.WSClient.HandleSendHttpRequest | websocket/src/sync/client.rs:376-382 | exactly the bytes of the request go to the socket; a blocked request returns to the front |
| Client.WSClient.HandleEvent | websocket/src/sync/client.rs:384-407 | dispatch by direction and kind of event |
| Client.WSClient.ReadBytesFromSocket | websocket/src/sync/client.rs:409-434 | appends what was read, then parses according to the status |
| Client.WSClient.InsertInputEvent | websocket/src/sync/client.rs:436-450 | control frames go to the front of the input queue |
| Client.WSClient.TryWrite | websocket/src/sync/client.rs:452-466 | the bytes are sent, would block, or fail with an I/O error; only when sent do they extend what went to the socket |
| Client.WSClient.HandleControlFrame | websocket/src/sync/client.rs:468-475 | a PING queues a PONG at the front |
| Client.WSClient.HandleCloseFrame | websocket/src/sync/client.rs:476-522 | a CLOSE replaces both queues by the reply, or ends the client's own closing |
| Client.WSClient.RunCallback | websocket/src/sync/client.rs:259-281 | a callback that calls send any number of times |
| Client.WSClient.Drop | websocket/src/sync/client.rs:531-546 | both queues are replaced by the close frame if the connection is in use |
| Client.WSClient.AwaitClose | websocket/src/sync/client.rs:551-563 | the closing loop, ended by CLOSE, an error or the timeout |
| Driver.PerformAll | websocket/src/sync/client.rs:128-226 | any list of calls on an object leads to the state that After gives for it |
| Driver.UseClient | websocket/src/sync/client.rs:191-238 | an object used in any way reports callbacks in order; if all calls succeed, a server reads what it passed to the socket as the payloads |
| Runs.EventLoopIsTurn | websocket/src/sync/client.rs:214-217 | the input queue holds at most the event just read, so events are handled in order of arrival |
| Outgoing.FragmentsAreOut | websocket/src/sync/client.rs:197-206 | every fragment is masked, non-empty and announces its own length |
| Outgoing.ParsedIncoming | websocket/src/ws_basic/frame.rs:212-215 | parsed control frames hold 2 to 125 bytes and a status equal to the first two |
| Outgoing.OutFrameIsLegal | websocket/src/sync/client.rs:470-498 | every frame the client builds decodes and meets the demands of section 5 of RFC 6455 on client frames, and its length encoding is minimal exactly when it has not 125 bytes |
| Lifecycle.TurnSound | websocket/src/sync/client.rs:209-226 | one iteration keeps all lifecycle invariants, also when it fails |
| Lifecycle.DropLoopSound | websocket/src/sync/client.rs:551-563 | the stream is still there after the closing loop |
| Lifecycle.RunSound | websocket/src/sync/client.rs:209-226 | stream presence, callback order, empty input queue and legal output hold after every run; the status never goes back |
| Lifecycle.LifecycleTheorem | websocket/src/sync/client.rs:252-371 | callbacks form (ON_CONNECT ON_TEXT* ON_CLOSE?)? on every run, errors and drop included, and every text reported is valid UTF-8 |
| Lifecycle.NextCallNoInternalPanic | websocket/src/sync/client.rs:362-365 | no reachable call panics on a missing stream, a downcast, a short close or a missing status |
| Failures.SendAllOkIff | websocket/src/sync/client.rs:197-206 | calls of send get through exactly when each payload is empty, or the size is not 0 and cuts no character |
| Failures.SendAllTakes | websocket/src/sync/client.rs:191-207 | calls that get through are all taken, in order |
| Failures.NextIterationPanicsIff | websocket/src/sync/client.rs:209-226 | on any client initialised at most once, exactly when the next iteration panics, in terms of the protocols, the status line, the frame in the storage and what the callback sends |
| Outcomes.NextIterationOutcome | websocket/src/sync/client.rs:209-226 | on any run with one init: whether the next iteration succeeds, panics or fails, and with which error, in terms of what it meets |
| Outcomes.ErrorsIff | websocket/src/sync/client.rs:209-226 | on any run with one init: exactly when the next iteration returns UnreachableHost, ConnectionClose, HandShake, InvalidFrame and DecodingFromUTF8 |
| Outcomes.FrameStatus | websocket/src/sync/client.rs:484-522 | only a CLOSE changes the status, and to what |
| Outcomes.NothingBeforeOrAfter | websocket/src/sync/client.rs:210-212 | before init an iteration does nothing; after the end it does nothing and fails with ConnectionClose |
| Outcomes.TheEndIsFinal | websocket/src/sync/client.rs:212 | so no successful run iterates after the end |
| Failures.InputFailsIff | websocket/src/sync/client.rs:252-297 | exactly which complete frame in the storage makes the input of an open client fail |
| Failures.LostEventIff | websocket/src/sync/client.rs:217-223 | a failing iteration of an open client keeps every data frame exactly when the read failed or the head of the queue was not data |
| Output.SendAllConserved | websocket/src/sync/client.rs:203-205 | sending keeps conservation and the place of the request |
| Output.PongConserved | websocket/src/sync/client.rs:470-474 | a PONG in front of the queue does not disturb the data |
| Output.ReplyConserved | websocket/src/sync/client.rs:494-500 | after a CLOSE the data still to be written is a prefix |
| Output.BlockedOrderly | websocket/src/sync/client.rs:360 | a blocked write changes nothing |
| Output.OutputConservation | websocket/src/sync/client.rs:209-238 | data frames written and queued are those ever queued, in order; after a server's CLOSE the written ones are a prefix |
| Output.HandshakeGoesFirst | websocket/src/sync/client.rs:217-238 | the request is the first thing written, and only frames follow |
| Fragmentation.FragmentShape | websocket/src/sync/client.rs:191-207 | ceil(length/size) frames of 1 to size bytes that concatenate to the payload; TEXT first, FIN last only |
| Fragmentation.FragmentMask | websocket/src/sync/client.rs:203 | every fragment has the mask generated for it |
| Fragmentation.CutsOkIff | websocket/src/sync/client.rs:198-200 | send gets through exactly when no multiple of the size falls inside a character |
| Fragmentation.DeliverFragments | websocket/src/sync/client.rs:201-203 | a receiver that got k fragments is part way through the payload; all of them complete it |
| EndToEnd.StreamDecodes | websocket/src/sync/client.rs:351-352 | the written bytes decode to exactly the written frames |
| Writes.TurnWrites | websocket/src/sync/client.rs:217-223 | an iteration passes to the socket exactly the bytes of the head of the queue, if the input was handled and the write was taken, and else nothing |
| Writes.RunSpells | websocket/src/sync/client.rs:351-382 | on every run, failures and the drop included, the bytes passed to the socket are those of the events written, in order |
| Writes.WireTheorem | websocket/src/sync/client.rs:351-382 | on every successful run these are one serialized request and then the frames |
| EndToEnd.EndToEndTheorem | websocket/src/sync/client.rs:191-238 | in the bytes passed to the socket after the request, a server reads a prefix of the payloads given to send, in order, and at most one unfinished part; all length encodings are minimal exactly when no frame written has 125 bytes |
| EndToEnd.DrainedMeansReceived | websocket/src/sync/client.rs:191-238 | with no data left in the queue of an open connection, the server has received every payload |
| Progress.RequestIsSent | websocket/src/sync/client.rs:376-382 | the first unblocked iteration of the handshake writes the request |
| Progress.RequestIsLost | websocket/src/sync/client.rs:376-382 | if that write fails the request is gone and the client stays in the handshake |
| Progress.SentRemovesHead | websocket/src/sync/client.rs:217-223 | an iteration of an open client whose write is taken writes exactly the head of the queue; the rest stays, behind a PONG and ahead of what the callback sent |
| Progress.QuietDelivery | websocket/src/sync/client.rs:209-226 | as many iterations with no input and taken writes as there are events queued all succeed, and the server has then received every payload |
| Progress.Delivery | websocket/src/sync/client.rs:209-226 | n events queued, any traffic with p PINGs, writes taken: after n + p iterations the server has received every payload given to send before |
| Requests.RequestLayout | websocket/src/http/request.rs:38-60 | the bytes of a request: method, path, version, one line a header, a blank line |
| Requests.RequestContents | websocket/src/sync/client.rs:147-165 | GET, the path, HTTP/1.1, the five fixed headers with the key, and the protocols if any are offered |
| Requests.JoinedOffer | websocket/src/sync/client.rs:156-162 | the protocols are separated by a comma and a blank, which also ends what is cut off |
| Requests.OfferRead | websocket/src/sync/client.rs:156-162 | a server that splits the offer finds the protocols |
| Settings.SettingsTheorem | websocket/src/sync/client.rs:128-185 | on any run with one init: the message size is the one set last, 1024 at first; path, callback and protocols are those of init |
| Settings.KeyTheorem | websocket/src/sync/client.rs:142-172 | on any run with one init: the iteration that enters the handshake queues in front a request with the key generated in it, the path and the protocols, and that key is kept ever after |
| Settings.WrittenRequest | websocket/src/sync/client.rs:165-168 | on every successful run, the request written carries the key that a response is checked against |
| Setup.OneRequestIff | websocket/src/sync/client.rs:142-172 | on any run with one init, the requests in front of the queue on entering the handshake are one more than the failures of set_nonblocking, so a single one goes first exactly when it never failed |
| Setup.RequestQueuedTwice | websocket/src/sync/client.rs:167-170 | the input: one failure, then an iteration that connects |
| HttpRoundTrip.StatusLineDecides | websocket/src/http/response.rs:52-62 | any status line before a good header block: panic exactly on one word or on two of which the second is a number, parse error exactly on a second word that is no number |
| HttpRoundTrip.ParsePanicsIff | websocket/src/http/response.rs:45-62 | any text: the parser panics exactly when the header is complete and the first line is cut short |
| HttpRoundTrip.NoReasonPanics | websocket/src/http/response.rs:62 | the input: status line HTTP/1.1 101 |
| Opening.ResponseIsRead | websocket/src/sync/client.rs:300-310 | a complete ASCII response in the storage is taken off whole, with its code, headers and body, unless its status line makes the parser panic or wait |
| Opening.OpeningTheorem | websocket/src/sync/client.rs:312-349 | any status line: the client panics or waits as the line decides; otherwise the response opens the connection, stores the protocol named, and reports ON_CONNECT with its body once, exactly when its code is 101 and its Sec-WebSocket-Accept, in any case, fits the key, and else the step fails in the handshake with nothing reported |
| Opening.OpeningOnRun | websocket/src/sync/client.rs:312-349 | the same on every successful run, for the key in the request that was written |
| Opening.OpeningForKey | websocket/src/sync/client.rs:312-349 | the same on any run with one init, for the key generated by the iteration that entered the handshake |
| Streaming.ParseHead | websocket/src/sync/client.rs:240-250 | a frame taken off the storage is the next frame of the server's stream, with its exact length |
| Streaming.StreamingTheorem | websocket/src/sync/client.rs:409-450 | for any cutting into reads, the frames handled are the first of the stream and no byte is lost |
| Streaming.EveryFrameHandled | websocket/src/sync/client.rs:240-247 | with the whole stream received, k more iterations handle k more frames until all are handled, exactly those sent, and the storage is empty |
| Streaming.NextFrameIsHandled | websocket/src/sync/client.rs:240-247 | an iteration that finds the next frame complete handles exactly it |
| Streaming.StoragePanicsIff | websocket/src/ws_basic/frame.rs:178-214 | on a server's stream: the parser rejects exactly RSV3, and panics exactly inside an extended length, on an overflowing length, and on a control frame with fewer than two payload bytes |
| Streaming.EmptyPingPanics | websocket/src/ws_basic/frame.rs:213 | the parser panics on an empty PING, a legal frame |
| Reassembly.ReportsTheorem | websocket/src/sync/client.rs:252-293 | each data frame is reported once; a fragment that is not flagged exactly FIN is doubled |
| Reassembly.ReassemblyIff | websocket/src/sync/client.rs:255-291 | the reports are the reassembled messages exactly when every frame is whole |
| Reassembly.ReassemblyTheorem | websocket/src/sync/client.rs:252-293 | the same for the frames handled on every successful run |
| Reassembly.SentMessagesReported | websocket/src/sync/client.rs:252-293 | with the whole stream of the server received and enough iterations, the texts reported are the messages it sent exactly when each was sent whole |
| Reassembly.FragmentDoubled | websocket/src/sync/client.rs:255-287 | a non-empty fragment p without FIN is reported as p + p and forgotten |
| Reassembly.Remembered | websocket/src/sync/client.rs:255-287 | exactly which bytes are kept of a data frame, reported, refused or without a callback |
| Reassembly.CutCharacterBlocks | websocket/src/sync/client.rs:255-275 | after a refused fragment every whole text is refused and changes nothing |
| Reassembly.DecodingErrorIff | websocket/src/sync/client.rs:262-263 | a data frame is refused exactly when it is not UTF-8 |
| Replies.PingIsEchoed | websocket/src/sync/client.rs:470-474 | the answer to a PING decodes to one PONG with the same payload, at the front of the queue |
| Replies.CloseIsEchoed | websocket/src/sync/client.rs:476-503 | all an open client still has to write becomes one CLOSE, which a receiver reads with the status (1000, 1001 and 1004 echoed, otherwise 1002) and the reason received |
| Replies.RefusedByParser | websocket/src/ws_basic/frame.rs:165-170 | opcodes 4-7 and 12-15 end the step with InvalidFrame and no effect |
| Replies.ReservedOpcodes | websocket/src/sync/client.rs:217-223 | every complete frame with a reserved opcode, of any length and masked or not, is silent and ends in InvalidFrame, except for a panic on opcodes 3 and 11 with a payload shorter than what precedes it; past the parser, the popped event is lost |
| CloseHandshake.CloseArrival | websocket/src/sync/client.rs:485-503 | after the iteration that handles the CLOSE, the client is about to write the held event and the reply, or a held PONG is in the way |
| CloseHandshake.TurnTrack | websocket/src/sync/client.rs:209-226 | one iteration while the server closes |
| CloseHandshake.CloseHandshakeTheorem | websocket/src/sync/client.rs:351-374 | on a whole successful run, the connection ends with the held event, the reply and its status exactly when no PONG was held and none got ahead |
| CloseHandshake.ReplyOnWire | websocket/src/sync/client.rs:476-503 | what then goes to the socket after the CLOSE is the held event and one frame, read as a CLOSE with the answered status and the reason received |
| CloseHandshake.PingBeforeClose | websocket/src/sync/client.rs:362-365 | a PING and then a CLOSE on an idle open connection: both iterations succeed, the PONG alone is written, and the connection ends with status 0 |
| Progress.ClosesWithinTwo | websocket/src/sync/client.rs:351-374 | after a server's CLOSE, at most two successful unblocked iterations close the connection |
| CloseHandshake.NothingElseWritten | websocket/src/sync/client.rs:494-503 | at any time before that end, only a part of the held event and the reply is written |
| Dropping.TurnNext | websocket/src/sync/client.rs:470-474 | while the client closes, nothing overtakes its close frame |
| Dropping.CloseGoesFirst | websocket/src/sync/client.rs:537-561 | the first thing written after the drop begins is Close(1000, Done) |
| Dropping.CloseOnWire | websocket/src/sync/client.rs:537-539 | on the wire it is a CLOSE with status 1000 and the reason Done |
| Dropping.CloseIsWritten | websocket/src/sync/client.rs:545-553 | it is written by the first iteration whose input is handled and whose write is taken |
| Dropping.DropIsRun | websocket/src/sync/client.rs:549-562 | the drop of a connected client is that frame in the queue and iterations until the time is over, the connection is closed or one fails |
| Dropping.DropElse | websocket/src/sync/client.rs:532-535 | any other client is dropped without effect |
| Dropping.NoDataAfterCloseIff | websocket/src/sync/client.rs:537-561 | the data written during the drop is the first of what callbacks queued during it; none follows the CLOSE without a callback, and in a loop that does not fail exactly when all of it is still queued |
| Dropping.AnswerFollowsClose | websocket/src/sync/client.rs:551-554 | the input: a text answered by the callback while the CLOSE is written |
| Dropping.AnswerIsReported | websocket/src/sync/client.rs:504-515 | a CLOSE from the server while the client closes ends the connection and reports CLIENT_CLOSE with the first two bytes of its payload on the wire |

## Left out

- TCP connection set-up, `set_nonblocking`, shutdown and `read` are inputs of a step.
- Client.WSClient.TryWrite: a write is all or nothing, because partial progress inside `write_all` belongs to the operating system.
- Key generation, SHA-1 and base64 (`verify_key`) are a function given with the step; masks are arbitrary four-byte values.
- The clock of the drop: the timeout strikes when the list of inputs ends, and every list is considered.
- Client.WSClient.RunCallback: the callback calls only `send`; a nested `event_loop` or `init` is not modelled, and `init` happens at most once.
- Http.ResponseParse: white space and letter case are those of ASCII, so text outside ASCII is trimmed and lower-cased less than Rust would.
- EndToEnd.EndToEndTheorem: stops at the drop, which replaces the queue by its close frame; what is written after that is the subject of Dropping.NoDataAfterCloseIff.
- Integers are those of a 64-bit target: on a 32-bit one, lengths above 2^32 are cut by `as usize`.
- Extensions and parameters, error texts, the C interface, `host`, `port`, `cb_data` and `close_iters`.
