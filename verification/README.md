# A Dafny model of a Socket.IO v5 / Engine.IO v4 client

The repository is a Rust client for the Socket.IO protocol v5 over the Engine.IO protocol v4, in a
blocking and an asynchronous form. This project models its two hard parts and proves what they promise.

**The wire stack.** A packet is printed to text, split into a header and attachments, wrapped as
Engine.IO packets, joined into payloads (or put into WebSocket frames), split, decoded, buffered and
reassembled. Each layer has its own module with its own exact law, and `Stack` composes them.

| module | layer |
|---|---|
| `Utf8`, `Json`, `JsonProofs` | text, JSON values, their printer and parser (RFC 3629, RFC 8259) |
| `Base64` | the standard alphabet with padding (section 4 of RFC 4648) |
| `EngineCodec` | Engine.IO packets, 0x1e framing, WebSocket frames |
| `EngineClient` | the blocking poll with its buffered payload, as a class |
| `SocketCodec`, `SocketCodecProofs`, `SocketFormat` | Socket.IO packets as text: the codec, what survives it, the grammar it follows |
| `Reassembly`, `Grouping` | sending and reassembling headers and attachments, as a class; what groups are |
| `Events` | event names, building packets, dispatching them |
| `Stack` | the composition, from emit to callback |
| `AckRoundTrip` | emitting with an ack, and the ack's way back to its callback |

**The asynchronous life cycle.** A reader task reconnects for ever, spawns dispatch tasks, and is torn
down by detached teardown tasks that any clone may start; each socket it installs has a transport owner
whose calls interleave with everything else. Every block between two awaits is one action of a state
machine over values, so a property "of every run" quantifies over all interleavings. The classes in
`TransportBlocks` and `ClientBlocks` run the same blocks as methods on the shared fields and are proved
to do exactly what the state machines say.

| module | part |
|---|---|
| `TransportOwner`, `TransportOwnerProofs`, `TransportOutcomes`, `TransportBlocks` | the owner of one Engine.IO transport: ownership, how its calls end |
| `Lifecycle`, `ClientBlocks`, `DispatchList` | the client: reader, reconnect, dispatch, teardown |
| `LifecycleFence`, `LifecycleProgress` | what a finished teardown guarantees; every teardown can finish, and does under fairness |
| `LifecycleRuns`, `LifecycleTeardown` | the states of a run; what a teardown sets, sends and reports |
| `LifecycleDispatch`, `LifecycleAborts` | what is dispatched for which packet, and what may abort it |
| `LifecycleAttempts`, `LifecycleFlags` | decisions, rounds and what opens a session; the flags and streams of its sockets |
| `LifecycleTrace`, `LifecycleSessions`, `LifecycleCloses` | sessions, epochs, close notifications over whole runs |
| `LifecycleWitness` | the runs in which a session gets no close, or several |
| `AckTable`, `ReconnectRound`, `Heartbeat` | outstanding acks, one reconnect round, the ping deadline |

Text is modelled as its UTF-8 bytes. An error keeps its kind and loses its message. A transport is the
list of the responses it will give and the number of writes it will take.

Places where the code falls short of an ideal law are stated exactly, as an if-and-only-if or by a
run: a binary event name survives only without characters that JSON must escape (`NameRecovered`);
`Connect` as a text event arrives renamed (`TextDelivery`); a WebSocket binary frame that is empty or
holds 0x1e is not one message (`BinaryFrameExactly`); the two clients treat repeated ack ids
differently (`SameInBothClients`); a limit of 255 attempts overflows the counter (`RoundBound`); an
exhausted round lets the outer loop report the same session again (`SettledCloses`,
`EveryRoundClosesAgain`).

One session, one close: the exact number of closes is proved for every run without a manual disconnect,
whatever the server sends and however the client is configured (`CloseLaw`). A session of an orderly
server, after which no round is exhausted, gets exactly one close unless its stream ends before its
CONNECT was handled while the reason still is the server's from the session before; then it gets none
(`ExactlyOneClose`). Only a CONNECT resets the reason (socketio/src/asynchronous/client/client.rs:851),
so this happens exactly in clients that reconnect after a DISCONNECT: `AlwaysOneClose` excludes it for
all others, and `StaleSessionClosesNothing` gives the run for these.

The comment at socketio/src/asynchronous/socket.rs:53-54 says that disconnecting sends a Disconnect
packet; the function itself only closes the stream and the engine, and the model follows the function.

## Model

| member | source | states |
|---|---|---|
| Stack.PollingStack | socketio/src/socket.rs:55-160 | Any list of sendable packets, sent in turn, encoded and cut into payloads at any points, is returned by exactly as many polls as the same list in order, attachments included, and the stream then holds nothing more |
| Stack.WebSocketStack | engineio/src/asynchronous/async_transports/websocket_general.rs:88-128 | The same over WebSocket frames, for attachments that are non-empty and free of 0x1e |
| Stack.EmitsAreDelivered | socketio/src/packet.rs:37-90 | Every canonical emit, text or binary, reaches the handler on the other side of the whole stack with its event, payload and ack id, in order |
| Stack.TakesAll | socketio/src/asynchronous/socket.rs:97-167 | Reassembly depends only on the data of message packets: frames of either message id that carry what was sent give the sent packets back |
| Stack.BuiltIsSendable | socketio/src/packet.rs:37-90 | What a canonical emit builds meets every condition of the stack round trip |
| Stack.BinaryEmitWithId | socketio/src/packet.rs:44-55 | A binary emit with an ack id is tagged as a binary ack, and so reaches no event handler |
| Stack.TextIsFree | socketio/src/packet.rs:203-245 | A header text contains the payload separator only if its namespace or data does |
| Grouping.TakesItsGroup | socketio/src/socket.rs:88-160 | A received packet consumed one header that decodes to it and exactly as many further messages as the header announces, which are its attachments, and no other message |
| Grouping.ReceivedExactly | socketio/src/socket.rs:128-160 | A group is received if and only if the announced number of packets directly behind its header are all messages |
| Grouping.BrokenExactly | socketio/src/socket.rs:128-160 | What breaks a group is the first packet behind the header that is not a message; a control packet gives the type error, a failure its own error, the end an incomplete packet (or the panic of the unwrapped form), and the stream is left just behind it |
| Grouping.BadHeader | socketio/src/socket.rs:129 | A header that does not decode is the one packet consumed, and its error the result |
| Grouping.BetweenGroups | socketio/src/socket.rs:100-106 | Between groups a clean end is no packet, and an error is passed on |
| Grouping.MessagesArePartitioned | socketio/src/socket.rs:88-160 | Over any run of successful polls the consumed messages are the headers and attachments of the results laid end to end: each belongs to exactly one result |
| Reassembly.Socket.Poll | socketio/src/socket.rs:88-125 | The loop over engine polls returns the result of the index-based grouping specification and consumes exactly the stretch it names; a received CONNECT sets the flag, a DISCONNECT or CONNECT_ERROR clears it, any other result leaves it |
| Reassembly.Socket.HandleSocketioPacket | socketio/src/socket.rs:112-125 | What each kind of packet does to the flag, the kinds written out |
| Reassembly.LastSwitchDecides | socketio/src/socket.rs:30-125 | Over any run of polls, sends, connects and disconnects the flag is what the last turn that switches it says, and unchanged if there is none |
| Reassembly.RefusedAfterDisconnect | socketio/src/socket.rs:55-125 | Behind a received DISCONNECT, until a CONNECT is received or the socket connects anew, every send is refused as premature and changes nothing |
| Reassembly.Socket.Connect | socketio/src/socket.rs:30-38 | Opens the engine with a pong, and sets the flag only if that could be written |
| Reassembly.Socket.Disconnect | socketio/src/socket.rs:42-50 | Closes the engine and clears the flag, whether or not the close packet could be written |
| Reassembly.HeaderThenAttachments | socketio/src/socket.rs:60-69 | A packet is sent as one text message and then its attachments as binary messages, in order |
| Reassembly.Socket.HandleEnginePacket | socketio/src/socket.rs:128-160 | Decodes a header and, if it announces attachments, collects them; every error leaves the stream just behind the packet that caused it |
| Reassembly.Socket.ReadAttachments | socketio/src/asynchronous/socket.rs:135-167 | The countdown loop takes the first n packets if all are messages, and otherwise stops behind the first that is not; the asynchronous form panics at the end of the stream where the blocking one reports an incomplete packet |
| Reassembly.Socket.Send | socketio/src/socket.rs:55-72 | Writes nothing unless both layers are connected; otherwise a prefix of header and attachments in order, the whole of it exactly if the result is Ok |
| Reassembly.Socket.SendAttachments | socketio/src/asynchronous/socket.rs:64-82 | The loop over the attachments writes them in order up to the first write that fails |
| EngineClient.Client.PollSocket | engineio/src/socket.rs:127-162 | The poll loop with its stored iterator does one step of the functional poll |
| EngineClient.Client.Poll | engineio/src/client/client.rs:313-345 | The same with the client's handling: close disconnects, a ping is answered or, if its pong cannot be written, ends the poll with an error, open and pong panic |
| EngineClient.SocketTakesHead | engineio/src/socket.rs:127-162 | A connected poll hands out exactly the head of buffered packets followed by the decoded responses, a refused response being one error, an empty one nothing |
| EngineClient.PollTakesNext | engineio/src/client/client.rs:313-345 | Repeated polls walk the view of the stream: pings fail once the transport takes no more writes, and behind a close packet it has ended for good |
| EngineClient.NothingIsLost | engineio/src/socket.rs:127-162 | Over any run of polls, arriving responses, connects and disconnects, what was delivered followed by what is pending is what was pending followed by what arrived |
| EngineClient.PongsAnswerPings | engineio/src/client/client.rs:334-337 | Over any run every ping handed out was answered by exactly one pong, nothing else was, and each pong took one write |
| EngineCodec.EncodePayload | engineio/src/packet.rs:184-201 | The loop that appends a separator behind each packet and drops the last one computes the packets joined by separators |
| EngineCodec.PacketRoundTrip | engineio/src/packet.rs:108-156 | A packet survives encoding if and only if it is not an empty message |
| EngineCodec.PacketCanonical | engineio/src/packet.rs:56-156 | An accepted byte string is the encoding of its packet if and only if it does not begin with a numeric packet id |
| EngineCodec.PayloadRoundTrip | engineio/src/packet.rs:171-201 | Decoding undoes encoding if and only if no packet is an empty message or non-binary data with 0x1e |
| EngineCodec.SplitExactly | engineio/src/packet.rs:175-181 | Splitting gives separator-free parts, one more than there are separators, which join to the original |
| EngineCodec.SplitInvertsJoin | engineio/src/packet.rs:171-201 | Separator-free parts come back from their joined form |
| EngineCodec.AcceptedCount | engineio/src/packet.rs:175-181 | Every accepted payload yields exactly separators + 1 packets |
| EngineCodec.DecodeAllExactly | engineio/src/packet.rs:175-181 | A payload is accepted with given packets if and only if each part decodes to the packet at its place |
| EngineCodec.EncodedSeparators | engineio/src/packet.rs:144-156 | An encoded packet is free of separators if and only if it is binary or its data is free of them |
| EngineCodec.BinaryFrameExactly | engineio/src/asynchronous/async_transports/websocket_general.rs:102-127 | A binary frame read through the payload decoder is the one message it was if and only if it is non-empty and free of 0x1e |
| EngineCodec.WireFormat | engineio/src/packet.rs:25-54 | The first character of the encoding of each packet type, as a literal |
| EngineCodec.PayloadFormat | engineio/src/packet.rs:184-201 | The packets of a payload stand in order with one 0x1e between them |
| EngineCodec.FrameFormat | engineio/src/asynchronous/async_transports/websocket_general.rs:88-127 | A binary frame is raw data and read with the number 4 in front; a text frame is read as it is |
| EngineCodec.RefusedExactly | engineio/src/packet.rs:56-140 | For each error of the packet decoder exactly the inputs it stands for |
| EngineCodec.FirstRefusal | engineio/src/packet.rs:175-181 | A refused payload reports the error of its first refused part |
| Base64.DecodeExactly | engineio/src/packet.rs:116-124 | A text decodes to given bytes if and only if it is their encoding: the strict decoder accepts nothing else |
| Base64.DecodeInvertsEncode | engineio/src/packet.rs:144-156 | Decoding inverts encoding for all bytes |
| Base64.EncodeIsPrintable | engineio/src/packet.rs:144-156 | Encoded data contains only characters of the alphabet and so never 0x1e |
| Base64.Alphabet | engineio/src/packet.rs:144-156 | The digits are capitals, small letters, figures, plus and slash in the order of the standard, the padding an equals sign |
| Base64.SameBits | engineio/src/packet.rs:144-156 | Four digits hold the bits of three bytes, most significant first |
| SocketCodec.Encode | socketio/src/packet.rs:203-245 | The buffer built piece by piece is the packet's header text |
| SocketCodec.Decode | socketio/src/packet.rs:256-324 | The parser that advances through the payload computes the specification of decoding, error cases included |
| SocketCodecProofs.TextExactly | socketio/src/packet.rs:203-324 | A packet without attachments survives print and parse if and only if its namespace starts with '/' and has no ',', its id is non-negative and followed by data, and its data is JSON text not starting with a digit |
| SocketCodecProofs.TextRoundTrip | socketio/src/packet.rs:203-324 | The direction of it that the stack uses |
| SocketCodecProofs.Normalised | socketio/src/packet.rs:256-324 | Every accepted text gives a namespace with '/' and without ',', an id within 0..2^31-1, a count within 0..255 that is non-zero only for binary kinds, and for other kinds a packet that survives printing |
| SocketCodecProofs.ParseIsStable | socketio/src/packet.rs:203-324 | For the kinds without attachments decoding what the decoded packet prints to gives that packet again |
| SocketCodecProofs.RemoveExactly | socketio/src/packet.rs:310 | Text replacement leaves a text alone if and only if the pattern does not occur in it |
| SocketCodecProofs.BinaryReads | socketio/src/packet.rs:229-318 | A binary header with any number of attachments and any JSON value as data comes back with its fields; its data has lost every copy of the placeholder number zero and kept a placeholder of any other number |
| SocketCodecProofs.BinaryExactly | socketio/src/packet.rs:203-324 | A packet with attachments survives print and parse if and only if there is exactly one, its namespace and id are ready and its data does not contain the text of the placeholder |
| SocketCodecProofs.RemoveApart | socketio/src/packet.rs:310 | A text that begins like the pattern is replaced apart from what stands before it |
| SocketCodecProofs.EventLiteralIsFree | socketio/src/packet.rs:44-55 | No event string has a JSON literal in which the placeholder occurs |
| SocketCodecProofs.EventHeaderRoundTrip | socketio/src/packet.rs:229-318 | Decoding a binary header returns exactly the event literal it was built with, or none |
| SocketCodecProofs.BodyPrints | socketio/src/packet.rs:229-240 | The body the encoder writes by hand is the JSON text of an array of the data and the placeholder object, for any number of attachments |
| SocketCodecProofs.HeaderReads | socketio/src/packet.rs:256-324 | Count, namespace and id are read back from a header whatever body follows |
| SocketFormat.FollowsGrammar | socketio/src/packet.rs:203-245 | An encoded packet is type digit, count and dash, namespace and comma, id, and body, with every fixed piece a literal of the protocol |
| SocketFormat.DigitsAreDecimal | socketio/src/packet.rs:210-225 | Counts and ids are printed in decimal, most significant digit first, without leading zeros |
| SocketFormat.ReadsAs | socketio/src/packet.rs:265-324 | What every text cut by the grammar is read as, field by field: a bad count or too large an id is an invalid packet, a body that is not JSON is refused, digits with nothing behind them are dropped |
| SocketFormat.EveryTextIsCut | socketio/src/packet.rs:265-324 | Every text with a type digit, and with its dash if the type needs one, is cut by the grammar or ends in an open namespace |
| SocketFormat.OpenNamespace | socketio/src/packet.rs:282-287 | A namespace without a comma behind it makes the packet incomplete |
| SocketFormat.RefusedTexts | socketio/src/packet.rs:265-279 | Exactly the texts refused for their encoding or their type; an empty one, and a binary one without a dash, are incomplete |
| SocketFormat.BinaryDataOf | socketio/src/packet.rs:304-318 | Around data without a placeholder one pair of brackets and then one comma at the end are taken off; if nothing is left there is no data |
| JsonProofs.ParseInvertsPrint | socketio/src/packet.rs:73-88 | The JSON parser inverts the JSON printer on every value |
| JsonProofs.PrintIsClean | socketio/src/packet.rs:73-88 | Printed JSON is UTF-8 text without control characters |
| JsonProofs.EscapesAreStandard | socketio/src/packet.rs:73-88 | Which characters are escaped and how, as literals |
| JsonProofs.NothingBehind | socketio/src/packet.rs:301-302 | A text is one value with nothing but space behind it |
| Events.TextDelivery | socketio/src/client/raw_client.rs:458-486 | An event with arguments arrives with the same event, arguments and id if and only if there is an argument, the event is not Connect and a custom name is not a reserved word in any case; an array of one element goes to Message |
| Events.BinaryDelivery | socketio/src/client/raw_client.rs:437-454 | A binary event arrives as sent if and only if a custom name is not reserved and has no character that JSON must escape |
| Events.HandlesEvent | socketio/src/client/raw_client.rs:458-486 | What an event packet with any data does: nothing without an array, an error for an empty one, Message for a single element or an array that begins with no string, else the named event with the rest |
| Events.HandlesBinaryEvent | socketio/src/client/raw_client.rs:437-454 | A binary event goes with its first attachment and its id, without data to Message, without an attachment nowhere |
| Events.NameRecovered | socketio/src/client/raw_client.rs:437-442 | Dropping the quotes from the JSON literal of a string recovers it if and only if nothing in it had to be escaped |
| Events.ReadsName | socketio/src/event.rs:13-39 | The name of an event reads back as the event for all but Connect and reserved custom names |
| Events.ReadsBinaryName | socketio/src/event.rs:25-53 | The same for the owned conversion that binary packets use, where Connect reads back too |
| Events.ReservedNames | socketio/src/event.rs:25-39 | A received name means a built-in event exactly if it spells message, error, open or close in any case, and otherwise itself |
| Events.SentNames | socketio/src/event.rs:13-53 | The words sent for the built-in events; the two conversions differ for Connect only |
| Events.AckArrives | socketio/src/packet.rs:93-133 | A text or binary ack is tagged as such and comes back from the wire as built, its values parsed back, its attachment aside |
| AckRoundTrip.Emitter.EmitWithAck | socketio/src/asynchronous/client/client.rs:600-627 | Registers the callback under the id that the sent packet carries, and keeps it registered whatever prefix of the frames could be written |
| AckRoundTrip.AcksReachTheirCallbacks | socketio/src/asynchronous/client/client.rs:726-767 | Any list of text and binary acks, through the whole stack, is received in order as acks with its ids, and handling each calls every matching callback read before started + timeout exactly once with the acknowledged payload, and no other |
| TransportOwnerProofs.TransportOwnership | engineio/src/asynchronous/async_socket.rs:72-276 | In every interleaving: connected implies present; the transport is taken once, with one disconnect-side on_close; the disconnect that took it, if it ends well, has begun and finished the one Close frame, and no other call begins one; writes never overlap; no emit starts a write after the take |
| TransportOwnerProofs.RetirementIsPermanent | engineio/src/asynchronous/async_socket.rs:155-215 | From a retired owner on, no run reconnects it, gives it a transport, or lets another emit succeed |
| TransportOutcomes.OutcomesExactly | engineio/src/asynchronous/async_socket.rs:72-223 | In every interleaving an emit or connect has ended well exactly if its write succeeded while nobody was closing, and a disconnect exactly if it found the transport gone or its Close frame was written with success |
| TransportOutcomes.PeerCloseRefusesEmits | engineio/src/asynchronous/async_socket.rs:186-190 | After a close from the peer and until a connect publishes the flag, every emit not yet past its check, or called later, writes nothing and does not end well |
| TransportOutcomes.PeerCloseKeepsTheRest | engineio/src/asynchronous/async_socket.rs:269-276 | The close from the peer leaves transport, lock and calls alone |
| TransportOutcomes.LoneEmit | engineio/src/asynchronous/async_socket.rs:185-223 | On a connected owner that nobody else uses an emit writes once and ends as its write does |
| TransportOutcomes.LoneConnect | engineio/src/asynchronous/async_socket.rs:72-96 | On such an owner a connect publishes the flag, writes one pong and ends as that write does |
| TransportOutcomes.LoneDisconnect | engineio/src/asynchronous/async_socket.rs:155-182 | On such an owner a disconnect retires it, calls on_close, writes one Close frame and ends as that write does |
| TransportOutcomes.LateDisconnect | engineio/src/asynchronous/async_socket.rs:162-182 | A disconnect that finds the transport gone ends well at once; one whose wait for the lock times out does not end well |
| TransportOutcomes.RefusedOnTheSpot | engineio/src/asynchronous/async_socket.rs:72-210 | An emit that finds the flag cleared, the transport gone or the owner closing, and a connect that finds it gone, are refused without a trace |
| TransportOwnerProofs.InvPreserved | engineio/src/asynchronous/async_socket.rs:72-276 | Every block of every call keeps the ownership, lock, history, close frame and taker invariants |
| TransportBlocks.Socket.Emit | engineio/src/asynchronous/async_socket.rs:185-223 | The blocks of emit: two checks, the lock against the close signal, the write |
| TransportBlocks.Socket.Connect | engineio/src/asynchronous/async_socket.rs:72-96 | The blocks of connect: publish under the transport lock only while it is present, then send a pong |
| TransportBlocks.Socket.Disconnect | engineio/src/asynchronous/async_socket.rs:155-182 | The blocks of disconnect: revoke and take, wait for the lock, send the close frame |
| TransportBlocks.Socket.HandleClose | engineio/src/asynchronous/async_socket.rs:269-276 | A close from the peer clears the flag and nothing else |
| TransportBlocks.Socket.Drop | engineio/src/asynchronous/async_socket.rs:185-223 | A dropped call releases the lock it holds and never succeeds |
| LifecycleFence.DisconnectFence | socketio/src/asynchronous/client/client.rs:498-549 | Once any teardown has completed, whatever its result, in every continuation no reader step is possible, epoch, installed socket and history stay, its transport stays retired, no send may start and none succeeds |
| LifecycleFence.InvPreserved | socketio/src/asynchronous/client/client.rs:185-549 | Every action keeps the invariants on placement, teardown order, reader, work, engines, detached calls and tracking |
| LifecycleProgress.EveryTeardownCanComplete | socketio/src/asynchronous/client/client.rs:498-549 | From every reachable state there is a run of clean-up actions that completes every teardown called so far |
| LifecycleProgress.CleanupAdvances | socketio/src/asynchronous/client/client.rs:498-549 | The next clean-up action of the teardown in turn is enabled and brings it closer to its end |
| LifecycleProgress.RankNeverRises | socketio/src/asynchronous/client/client.rs:498-549 | No action of anyone takes the active teardown further from its end or changes what it needs next before it has moved on |
| LifecycleProgress.FairRunsComplete | socketio/src/asynchronous/client/client.rs:498-549 | The active teardown completes in every run that takes its next clean-up action often enough, whatever happens in between |
| LifecycleTeardown.TeardownReport | socketio/src/asynchronous/client/client.rs:498-549 | What a completed teardown did: it came to its Disconnect packet exactly once; if both flags of the installed socket were set then, it started one emit and waited for it, else it sent nothing; it asked the engine to disconnect; and it reports Ok exactly if that ended well and the emit, if any, did too |
| LifecycleTeardown.PacketOrClosed | socketio/src/asynchronous/client/client.rs:518-546 | In every reachable state a teardown that waits for its packet has sent it, and one that passed it over found a flag cleared |
| LifecycleTeardown.SendsExactly | socketio/src/asynchronous/client/client.rs:510-528 | With both flags set the block starts exactly one emit on the installed engine and waits for it, otherwise it starts nothing and goes on |
| LifecycleTeardown.StaysManual | socketio/src/asynchronous/client/client.rs:505 | From the block that sets it the reason is manual until the reader handles a CONNECT, or a DISCONNECT it had already taken |
| LifecycleSessions.DispatchTracking | socketio/src/asynchronous/client/client.rs:633-659 | In every reachable state live dispatch is tracked; while deciding or reconnecting only terminal notifications are live; live event and ack dispatch belongs to the current session; after a teardown none is live |
| LifecycleDispatch.NothingIsUndispatched | socketio/src/asynchronous/client/client.rs:828-907 | Over any run the tasks ever spawned are, in order, exactly those owed to the packets of the client's namespace, the stream errors and the closes decided, each with its callback, terminal flag and session; only the last may be still in hand, or dropped by a disconnect |
| LifecycleDispatch.HandlingSpawns | socketio/src/asynchronous/client/client.rs:828-975 | Handling a packet of the client's namespace or an error appends exactly one live task, given by a table of the kinds; another namespace appends none |
| LifecycleAborts.OnlyEndsAbort | socketio/src/asynchronous/client/client.rs:645-659 | A terminal notification is aborted only by a teardown; any other task only by the end of the stream or a DISCONNECT in its session, or with the aborted reader |
| LifecycleFlags.LastSwitchDecides | socketio/src/asynchronous/socket.rs:40-61 | Over any run the flag of a socket is what its last switch says: a connected engine or a CONNECT read sets it, a DISCONNECT or CONNECT_ERROR read or a teardown clears it |
| LifecycleFlags.StartsCleared | socketio/src/asynchronous/client/client.rs:213-226 | A new socket is put in place by the reader only, with its flag cleared and a fresh engine |
| LifecycleFlags.OpenUntilTornDown | socketio/src/asynchronous/socket.rs:55-61 | The installed socket is always the newest, and its stream is open exactly until a teardown closes it |
| LifecycleAttempts.ReconnectsAsDecided | socketio/src/asynchronous/client/client.rs:266-301 | Whenever the reader works on a reconnect, its last decision was one the configuration permits, and it ends by itself only after one that it does not |
| LifecycleAttempts.DecisionExactly | socketio/src/asynchronous/client/client.rs:266-301 | A decision opens a round exactly if the reason is unknown and reconnect is on, or the server's and reconnect after a disconnect is on |
| LifecycleAttempts.RoundsAreLimited | socketio/src/asynchronous/client/client.rs:302-330 | Over any run with a limit a round is given up after exactly that many failed attempts since its decision, and no attempt fails or succeeds beyond it |
| LifecycleAttempts.SessionReport | socketio/src/asynchronous/client/client.rs:167-183 | A session begins exactly when, on the installed socket, the engine's connect has ended well, then the opening packet was sent with both flags set, and that has ended well too |
| LifecycleAttempts.InstallsOnlyCreated | socketio/src/asynchronous/client/client.rs:185-226 | A socket is put in place only after the reconnect callback has run and then a socket was created |
| LifecycleSessions.EpochAttribution | socketio/src/asynchronous/client/client.rs:167-293 | The epoch counts the successful connects; every close carries the count of its own moment, at least 1, non-decreasing, and below the epoch of every later session |
| LifecycleCloses.CloseAccounting | socketio/src/asynchronous/client/client.rs:254-298 | For every epoch the server-disconnect closes are the DISCONNECTs processed, and without a manual disconnect the transport closes are the ends of stream decided with an unknown reason |
| LifecycleCloses.CloseLaw | socketio/src/asynchronous/client/client.rs:254-333 | In every run without manual disconnect, for any server and configuration: the closes of a session are one for its ended stream, plus its DISCONNECTs, plus the rounds exhausted after it, minus the decisions that found the server's reason |
| LifecycleCloses.SettledCloses | socketio/src/asynchronous/client/client.rs:254-333 | A session whose packets are over when its stream first ends has, besides one close per DISCONNECT, none if the server had the last word and otherwise one plus one per exhausted round |
| LifecycleCloses.ExactlyOneClose | socketio/src/asynchronous/client/client.rs:254-330 | Without manual disconnect or exhausted round, every ended session with at most one CONNECT and then at most one DISCONNECT has exactly one close, or none exactly if it ended before its CONNECT under the server's reason of the session before; the close says server-disconnect if and only if a DISCONNECT was processed |
| LifecycleCloses.AlwaysOneClose | socketio/src/asynchronous/client/client.rs:239-330 | With no limit of attempts and no reconnect after a DISCONNECT it is always exactly one |
| LifecycleCloses.NoLimitNeverExhausts | socketio/src/asynchronous/client/client.rs:308-317 | Without a limit of attempts no run exhausts a round |
| LifecycleWitness.StaleSessionClosesNothing | socketio/src/asynchronous/client/client.rs:266-299 | Every client that reconnects after a DISCONNECT without a limit has a run in which an ended session of an orderly server gets no close |
| LifecycleWitness.EveryRoundClosesAgain | socketio/src/asynchronous/client/client.rs:302-333 | With any limit of attempts and for any n there is a run in which session one is closed n + 1 times |
| LifecycleWitness.StreamEnds | socketio/src/asynchronous/client/client.rs:254-299 | Whenever the outer loop is entered and the installed stream ends, an unknown reason spawns a close for the current epoch, and the server's reason spawns nothing |
| LifecycleSessions.ReaderCloseTasks | socketio/src/asynchronous/client/client.rs:272-298 | The close notifications a reader block spawns are exactly the closes it records |
| LifecycleTrace.ReaderMarks | socketio/src/asynchronous/client/client.rs:239-338 | What each reader block adds to the history |
| ClientBlocks.Client.PollStream | socketio/src/asynchronous/client/client.rs:239-338 | The next block of the reader on the client's fields is the reader action of the state machine |
| ClientBlocks.Client.HandlePacket | socketio/src/asynchronous/client/client.rs:828-907 | A packet of another namespace is ignored, a manual disconnect ends the stream, and each kind sets the reason or spawns its dispatch |
| ClientBlocks.Client.Decide | socketio/src/asynchronous/client/client.rs:266-299 | An unknown reason is reported as a transport close with the epoch of the dying session, before a reconnect |
| ClientBlocks.Client.Reconnect | socketio/src/asynchronous/client/client.rs:185-236 | The blocks of one attempt: limit, callback, new socket, installation, back-off |
| ClientBlocks.Client.Connect | socketio/src/asynchronous/client/client.rs:167-183 | The blocks of connect: the epoch rises only when the opening packet was sent |
| ClientBlocks.Client.Disconnect | socketio/src/asynchronous/client/client.rs:498-549 | The blocks of the detached teardown, in turn with other teardowns: reason, abort and join of the reader, bounded send, stream, engine, dispatch |
| ClientBlocks.Client.CallbackClose | socketio/src/asynchronous/client/client.rs:277-293 | A close notification is a terminal dispatch that carries the epoch captured when it was spawned |
| ClientBlocks.Client.Drop | socketio/src/asynchronous/client/client.rs:986-993 | A dropped reader that holds a stream aborts that stream's dispatch |
| DispatchList.DispatchTasks.SpawnDispatch | socketio/src/asynchronous/client/client.rs:633-643 | Prunes the finished handles, then appends the new one; the handles stay in the order of their spawns |
| DispatchList.DispatchTasks.AbortDispatch | socketio/src/asynchronous/client/client.rs:648-659 | Drains the handles: aborts and forgets what is cut, keeps the terminal ones in order of their spawns unless they are included |
| DispatchList.SpawnRefines | socketio/src/asynchronous/client/client.rs:633-643 | The list of handles after a spawn holds exactly the tasks the state machine tracks |
| DispatchList.AbortRefines | socketio/src/asynchronous/client/client.rs:648-659 | Aborting along the list of handles aborts exactly the tracked, live, non-exempt tasks |
| AckTable.OutstandingAcks.Drain | socketio/src/asynchronous/client/client.rs:731-743 | The in-place removal loop takes out all acks with the id in order and leaves the others in order |
| AckTable.OutstandingAcks.TakeOldest | socketio/src/client/raw_client.rs:404-410 | Takes out the first ack with the id, if there is one |
| AckTable.OutstandingAcks.HandleAck | socketio/src/asynchronous/client/client.rs:726-767 | Removes all matched acks and calls, in order, exactly the callbacks whose time is read before started + timeout, each with the payload, text before binary |
| AckTable.OutstandingAcks.HandleOldest | socketio/src/client/raw_client.rs:399-433 | Removes the oldest matching ack only and calls it with the payload exactly if the time is before started + timeout |
| AckTable.CallsExactly | socketio/src/asynchronous/client/client.rs:745-766 | A matched ack calls exactly if it has a timeout, the time is before started + timeout and there is data or an attachment; each call has the packet's id |
| AckTable.TextBeforeBinary | socketio/src/asynchronous/client/client.rs:751-761 | An ack in time passes on the text first, then the first attachment, each once |
| AckTable.AllCallsAreTimely | socketio/src/asynchronous/client/client.rs:745-766 | The calls for all matched acks are those of the acks in time, in order |
| AckTable.PassesText | socketio/src/payload.rs:23-31 | JSON is passed on as its value, any other text as one string |
| AckTable.StablePartition | socketio/src/asynchronous/client/client.rs:731-743 | Every ack lands at its rank in the part its id puts it in |
| AckTable.RankGrows | socketio/src/asynchronous/client/client.rs:731-743 | Ranks keep the order of registration within each part |
| AckTable.OldestFirst | socketio/src/client/raw_client.rs:404-410 | The first match is the oldest, and taking it leaves the younger matches and all others |
| AckTable.SameInBothClients | socketio/src/client/raw_client.rs:404-410 | The two clients leave the same table if and only if at most one outstanding ack has the id |
| AckTable.AckConservation | socketio/src/asynchronous/client/client.rs:600-743 | Over any run of emits and acks registered = outstanding + consumed as multisets, and nothing is consumed more often than registered |
| ReconnectRound.AsyncRound | socketio/src/asynchronous/client/client.rs:301-330 | The loop makes exactly the specified attempts and waits after each failure |
| ReconnectRound.SyncRound | socketio/src/client/client.rs:196-232 | The loop makes the same attempts, waits before each, and makes none if reconnecting is off |
| ReconnectRound.RoundBound | socketio/src/asynchronous/client/builder.rs:42 | A round makes min(limit, index of the first success) attempts; its 8-bit counter overflows if and only if the limit is 255 and the first 255 attempts fail |
| Heartbeat.Watch.Follow | engineio/src/asynchronous/async_socket.rs:98-126 | The reader's loop consumes arrivals until a wait expires, each wait starting when the packet before has been handled, and only pings move the deadline |
| Heartbeat.RemainingAgree | engineio/src/socket.rs:185-197 | The blocking and the asynchronous formula for the remaining time agree |
| Heartbeat.ExpiryWindow | engineio/src/asynchronous/async_socket.rs:245-253 | A wait expires not before the deadline, less than 1 ms after it or at once, and after whole milliseconds |
| Heartbeat.GivesUpInTime | engineio/src/asynchronous/async_socket.rs:279-310 | Over any arrivals the reader gives up within that window of the last ping it handled |
| Heartbeat.EveryWaitExpires | engineio/src/asynchronous/async_socket.rs:290-310 | Of the arrivals taken, each came less than 1 ms after the deadline set by the last ping before it, or at the moment its wait began; the first one not taken came after that deadline |
| Heartbeat.LateIsNeverTaken | engineio/src/asynchronous/async_socket.rs:290-310 | An arrival 1 ms or more past its deadline, for which the reader was already waiting, is never taken |
| Heartbeat.LastPingIs | engineio/src/asynchronous/async_socket.rs:114-117 | Only pings move the deadline: it is set by the last ping, or by the connect |
| Heartbeat.InTimeIsNeverGivenUp | engineio/src/asynchronous/async_socket.rs:279-310 | A server whose packets all come in time is never given up on |
| Utf8.ValidAppend | socketio/src/packet.rs:265-266 | Behind valid text, a text is valid if and only if the whole is |
| Utf8.ValidBeforeAscii | socketio/src/packet.rs:265-288 | Cutting valid text at an ASCII separator gives two valid texts |
| Utf8.ValidExactly | socketio/src/packet.rs:265-266 | Bytes are valid text exactly if they are the encodings of code points other than surrogates |

## Left out

- SocketCodecProofs.EventHeaderRoundTrip: for one attachment; with more there is no round trip, as BinaryExactly shows.
- Stack.PollingStack: sequential sends only; nothing in the code keeps the header and attachments of concurrent senders together.
- Events.TextDelivery: JSON numbers keep their text and objects their field order, where the original's value type normalises floats and may sort keys; its recursion limit and its refusal of lone surrogates in values are not modelled.
- Reassembly.Socket.Poll: of the asynchronous form only the unwrapped end of the stream is told apart; its stream also ends for good after the first error, and an open or pong packet is an error there, not a panic.
- LifecycleProgress.FairRunsComplete: for the teardown that holds the operation lock; who gets the lock next is up to the lock.
- Concurrency: the life cycle is proved on values, since its tasks interleave; the classes give each block in imperative form, one block per call. Memory ordering of atomics and poisoned locks are not modelled.
- An aborted reader may go on for any number of blocks in the model, and calls of a dropped reader into its engine may go on; both only add runs.
- The 8-bit attempt counter overflows only in ReconnectRound; in Lifecycle it is unbounded.
- The two user callbacks behind a close notification, and the blocking client's close callback being taken out and put back.
- Binary emits with an ack id: the code tags them as acks, so they reach no event handler.
- Payload::String (deprecated), callbacks' contents, on_any, builders, reconnect settings and authentication data: plumbing without a run-level invariant.
- Handshake data, namespaces per client, and the payload of connect packets: not needed by the properties.
- HTTP, TLS, WebSocket handshakes, the upgrade probe and the choice of a transport: foreign I/O.
- The blocking client's own threads.
