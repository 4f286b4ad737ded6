# tsanet, modelled and verified

A tsanet hub owns tinySA spectrum analysers on serial ports; one controller at
a time drives it over a framed socket. This project models the parts whose
correctness does not show from reading one function - the step systems formed
by several threads, the caches and ledgers, and the formats - and proves their
properties in Dafny. Nothing of the original program is executed.

Code that changes state is modelled by classes whose methods are proved against
functions on values; the concurrent parts are step systems over the same
functions, one step per critical section or per socket operation, and the
theorems about them hold in every state of every run. Code made of expressions
is modelled by functions.

| file | component |
|---|---|
| `Pipe.dfy`, `ByteLevel.dfy` | one direction of a connection in bytes, a queue seen from outside; client and hub joined by two such pipes, a refinement of `RpcMultiplex` |
| `RpcMultiplex.dfy` | many callers on one connection: client, both channels, hub loop, reader, event thread |
| `Sessions.dfy` | admission, takeover and the cleanup race of the serve threads |
| `LiveGraph.dfy`, `Subscriptions.dfy` | the delta stream of the live graph, and the life cycle of its threads |
| `Registry.dfy` | device reconciliation and the ledger of serial handles |
| `Messages.dfy`, `Framing.dfy`, `Handshake.dfy` | message schema, frames over chunked streams, token handshake |
| `Screenshot.dfy`, `Frequency.dfy`, `Stats.dfy`, `SerialExchange.dfy` | RGB565 to PNG, frequency printer and parser, trace statistics, serial protocol |
| `Prelude.dfy`, `Text.dfy` | options, results, bytes, big-endian integers; white space and letter case |

## Where the code does less than it says

Each of these is stated exactly, with the condition under which the code does
meet the expectation.

- `_record_error` is documented to unblock all pending callers
  (`rpc_client.py:186-192`), but only overwrites entries that are already in
  `_pending`. `WaitingCallReturnsIff` says in every state which waiting calls
  can still return. Its cases: when the reader dies, exactly those whose
  id had an entry (`ReleasedOrStranded`, with `UnblockingAllFails` as the run);
  when a send fails, also those whose answer can still be read, since the
  reader goes on (`SendFailureSplit`, `CallOutlivesRecordedError`), while good
  answers not yet collected are thrown away (`GoodAnswerOverwritten`).
- `close` (`rpc_client.py:89-105`) unblocks nobody either. The reader tests
  `_running` before every `recv` (`rpc_client.py:155`), so after it at most one
  more message is taken: a call without an entry returns only if its answer is
  that message and the reader is already waiting for it (`CloseSplit`), not even
  if it is in the stream behind an event (`CloseStrandsAnswer`). When the reader
  has stopped, such calls are stranded with no error recorded (`StopSplit`,
  `CloseStrandsCall`).
- A refused controller is sent an unsolicited response with id 0
  (`server.py:139`), which its first call takes for its answer; the same
  happens when the session just admitted is gone before a device is selected
  for it: `RefusedReplyReachesCallZero`.
- A receive timeout inside a frame drops the bytes already read
  (`transport.py:61-70` under `rpc_client.py:158-159`). `ReaderLoop` is exact as
  long as no timeout tears a frame in this way. After the header it is always
  fatal (`HeaderTimeoutIsFatal`); elsewhere exactly if the bytes then taken for
  a header exceed the limit, and otherwise that many bytes are taken for a
  payload (`TimeoutInsideHeader`, `TimeoutInsidePayload`, `TimeoutNearEnd`); a
  lost first byte of a short frame goes unnoticed (`FirstByteLostIsSilent`).
- The cleanup of a serve thread checks and clears the session in two lock
  acquisitions (`server.py:155-157`). `CleanupClearsOwnSession`: it hits a
  foreign session iff an admission succeeded in between, and
  `CleanupCanClearForeignSession` reaches such a state. Without any race, a
  `disconnect` request of a controller that was taken over ends its successor's
  session (`dispatcher.py:141-143`): `DisconnectEndsOwnSession`,
  `EvictedControllerEndsForeignSession`. The hub is nevertheless never wedged
  (`NeverWedged`).
- Automatic selection after an admission goes to whatever session is current by
  then (`server.py:178`), another controller's iff one was admitted since:
  `AutoSelectHitsOwnSession`.
- A refusal whose response cannot be sent ends its serve thread before the
  connection is closed (`server.py:138-141`): `GoneThreadLeavesOpen` says exactly
  which connections stay open, `FailedRefusalLeavesConnectionOpen` reaches one.
- `message_from_dict(m.to_dict()) == m` fails for requests whose arguments are
  falsy but not `{}` (`messages.py:106`): `MessageRoundTrip` is the exact law.
- The controller ignores an empty frequency axis (`live_graph.py:133`) while the
  hub remembers it: `ControllerAxisIsHubs` is an equivalence with that exception.
- Events are not checked for the subscription they belong to, and each stopped
  subscription may send one late (`LateEventAfterNext`, `SeveralLateEvents`):
  `LatePush` says exactly when they leave the controller with a wrong axis,
  `StrayAxisStays` that the hub's cache then keeps it there.
- `encode_png` accepts zero dimensions and images of 2^31 bytes and more, which
  RFC 2083 (sections 3.2 and 4.1.1) forbids: `PngRoundTrip` says exactly which
  files a conforming reader accepts.
- The printer formats negative frequencies, the parser rejects them:
  `FrequencyRoundTrip` holds iff `hz >= 0`.
- Negative voltages can break the order between average, crest factor and
  flatness. The exact conditions: `VoltageFlatness`, `VoltagePapr`,
  `VoltageAverage`, `VoltageAverageBounded`; a witness is
  `NegativeVoltageBreaksOrder`.
- Resetting the input discards what has arrived, not what is in transit
  (`_legacy.py:86`): every reply comes through exactly if nothing of an earlier
  one is still in transit at the reset (`NoLeakIffNothingLate`), and a late reply
  is taken for the next one's (`LateReplyTaken`). Text replies are read whole
  iff echo and body have no prompt (`FramedReads`). The result of reading the
  echo of a binary reply is ignored (`_legacy.py:66`): payloads are exact iff
  late bytes and echo have no line feed and the line feed after them arrives
  before that read gives up (`BinaryExactIff`).

## Model

| member | source | states |
|---|---|---|
| RpcMultiplex.EachIdInOnePlace | src/tsanet/controller/rpc_client.py:113-149 | in every run, with failures, closing, a hub that ends and timeouts that tear a frame, until bytes of a torn frame are taken for a message: an issued id is in exactly one of seven places, once (caller's hand, request channel, hub, response channel, lost with a torn frame, `_pending`, returned), no other id is anywhere, and the waiting calls are the issued ones neither in hand nor returned |
| RpcMultiplex.ReturnsOwnAnswer | src/tsanet/controller/rpc_client.py:137-149 | a call that returns gets the hub's answer to that very call, or a fatal error and that only after the connection failed |
| RpcMultiplex.PublishedInIssueOrder | src/tsanet/hub/server.py:160-169 | published, lost, travelling, dispatched, queued and in-hand ids form 0, 1, 2, ... without gap or duplicate, so responses are read in issue order, whatever events come between |
| RpcMultiplex.CallsComeBack | src/tsanet/controller/rpc_client.py:153-184 | while the connection is healthy and the hub serves it, an outstanding call always leaves some working step enabled, and each such step reduces the work that only new calls or events add: no deadlock, no livelock |
| RpcMultiplex.ReleasedOrStranded | src/tsanet/controller/rpc_client.py:186-192 | after the reader records a fatal error, a waiting call returns in some continuation iff its id had an entry, then with a fatal error only |
| RpcMultiplex.WaitingCallReturnsIff | src/tsanet/controller/rpc_client.py:137-164 | in every state of every run: a waiting call can still return iff its id has an entry, or its answer can still be read: from an untorn stream that holds it or that the hub still serves, and after `close` only as the one message the reader is already waiting for |
| RpcMultiplex.SendFailureSplit | src/tsanet/controller/rpc_client.py:132-136 | after a failed send is recorded: calls with an entry, good answers included, return a fatal error only; of the others exactly those return whose answer can still be read, be the client running or closing |
| RpcMultiplex.CloseSplit | src/tsanet/controller/rpc_client.py:89-93 | after `close` has cleared `_running`: exactly the calls with an entry return, and the one whose answer is next to arrive if the reader is already waiting |
| RpcMultiplex.StopSplit | src/tsanet/controller/rpc_client.py:155-164 | when the reader stops after `close`: exactly the calls with an entry return, and neither entries nor error change |
| RpcMultiplex.CloseStrandsAnswer | src/tsanet/controller/rpc_client.py:155-164 | a reachable state in which an answer already in the stream, behind an event, is never read |
| RpcMultiplex.CallOutlivesRecordedError | src/tsanet/controller/rpc_client.py:132-136 | a reachable state with a recorded error in which a call without an entry can still return |
| RpcMultiplex.GoodAnswerOverwritten | src/tsanet/controller/rpc_client.py:189-191 | a reachable published answer that another call's failed send replaces by its error |
| RpcMultiplex.CloseStrandsCall | src/tsanet/controller/rpc_client.py:89-97 | a reachable state in which `close` has stranded a call with no error recorded |
| RpcMultiplex.StrandedForever | src/tsanet/controller/rpc_client.py:137-140 | a waiting call whose answer is neither published nor readable nor still to be given returns in no continuation |
| RpcMultiplex.LaterCallsFailAtCheck | src/tsanet/controller/rpc_client.py:122-127 | once an error is recorded it stays, no id is issued again and no call passes the check |
| RpcMultiplex.ClosedReaderEnds | src/tsanet/controller/rpc_client.py:153-166 | after `close` every step of the reader leads it to its test or out, and from its test it leaves at once |
| RpcMultiplex.NothingAfterDisconnect | src/tsanet/controller/rpc_client.py:89-105 | once `close` has dropped the connection no id is issued and nothing is sent or read in the rest of the run |
| RpcMultiplex.HubEndsForGood | src/tsanet/hub/server.py:143-169 | once the request loop has ended it takes, answers and sends nothing more, and the request it was at stays unanswered |
| RpcMultiplex.TornStreamForgesAnswer | src/tsanet/controller/rpc_client.py:155-166 | a reachable state, after a timeout tore a frame, in which a call has returned data although the hub answered nothing |
| RpcMultiplex.UnblockingAllFails | src/tsanet/controller/rpc_client.py:186-192 | a reachable state after a recorded error in which a waiting call can never return |
| RpcMultiplex.RefusedReplyReachesCallZero | src/tsanet/hub/server.py:134-141 | for both reasons of refusal: the outcomes other than a fatal error that a call of a refused controller can return are exactly that of call 0 being told the reason |
| RpcMultiplex.RpcClient.BeginCall | src/tsanet/controller/rpc_client.py:122-136 | the locked block of `call`: not connected, recorded error, next id sent, or send failure that is recorded and raised; whole new state of each |
| RpcMultiplex.RpcClient.TryCollect | src/tsanet/controller/rpc_client.py:138-141 | takes exactly the entry of this id out of `_pending`, or changes nothing |
| RpcMultiplex.RpcClient.RecordError | src/tsanet/controller/rpc_client.py:186-192 | every entry present becomes the error; no entry is added |
| RpcMultiplex.RpcClient.DispatchResponse | src/tsanet/controller/rpc_client.py:194-200 | publishes data, or the error with its default text, under the response's id |
| Sessions.NeverWedged | src/tsanet/hub/server.py:129-158 | in every interleaving of serve threads the current session belongs to a thread that can still give it up; when none can, the next admission is uncontested; threads that ended in order have closed their connection |
| Sessions.CleanupClearsOwnSession | src/tsanet/hub/server.py:155-157 | cleanup of a live session hits a foreign one iff an admission succeeded since its check |
| Sessions.SeenIsEpochOfCheck | src/tsanet/hub/server.py:155-156 | the epoch compared there is the one at which this thread made its check, since when it has not moved |
| Sessions.CleanupCanClearForeignSession | src/tsanet/hub/server.py:155-157 | a reachable state in which a closing thread ends the session of the controller that took over |
| Sessions.FailedRefusalLeavesConnectionOpen | src/tsanet/hub/server.py:138-141 | a reachable state in which a refused connection whose id-0 response could not be sent stays open although its thread is gone |
| Sessions.GoneThreadLeavesOpen | src/tsanet/hub/server.py:138-158 | a connection whose thread is gone is open iff the thread died refusing it and no takeover had closed it |
| Sessions.DisconnectEndsOwnSession | src/tsanet/hub/dispatcher.py:141-143 | a `disconnect` request ends a live session that is not the caller's iff another admission has succeeded since the caller's own |
| Sessions.EvictedControllerEndsForeignSession | src/tsanet/hub/dispatcher.py:141-143 | a reachable state in which a controller that was taken over ends its successor's session |
| Sessions.TakeoversNeedGrants | src/tsanet/hub/session.py:37-53 | over any history unforced takeovers plus the grant in hand never exceed the grants given |
| Sessions.GrantBetweenTakeovers | src/tsanet/hub/session.py:102-109 | between any two unforced takeovers a grant was given |
| Sessions.GrantInHand | src/tsanet/hub/session.py:46-53 | takeover stands granted iff some grant in the history has met no contested admission since; nothing else uses one up or creates one |
| Sessions.SessionBalance | src/tsanet/hub/session.py:37-62 | over any history every session admitted was evicted once, disconnected once, or is the current one |
| Sessions.CurrentReigns | src/tsanet/hub/session.py:37-62 | the current session is that of the successful admission after which nobody was admitted and nobody disconnected |
| Sessions.SessionHolds | src/tsanet/hub/session.py:37-69 | the current session has the peer and transport of its admission, and the device last selected since then, none if none was: a takeover starts without a device |
| Sessions.AdmissionSucceedsIff | src/tsanet/hub/session.py:37-53 | read off the history: an admission succeeds iff it is forced, or nobody reigns, or a grant is unused |
| Sessions.HubHasHistory | src/tsanet/hub/session.py:37-109 | in every state of every interleaving of serve threads the session manager is that of one history of operations, so all laws about histories hold of it |
| Sessions.AutoSelectHitsOwnSession | src/tsanet/hub/server.py:173-178 | automatic selection succeeds iff there is a session; the device goes to the current one, which is another controller's iff one was admitted since |
| Sessions.RefusedWhen | src/tsanet/hub/server.py:129-141 | a connection is turned away iff it finds the hub busy without a grant, or no session any more when its device is to be selected |
| Sessions.ThreadsRunOut | src/tsanet/hub/server.py:129-158 | no serve thread gets stuck or goes round in circles: until it has ended or died it can move, and each move uses up one of the few left, whatever the others do |
| Sessions.ClosedWhenEvicted | src/tsanet/hub/session.py:46-53 | over any history, an operation closes a connection iff it is a successful admission while that connection's own still reigns; never a disconnect |
| Sessions.ConnectionBalance | src/tsanet/hub/session.py:37-62 | connection by connection: admissions = closings + disconnects + 1 if it is current |
| Sessions.SessionManager.Admit | src/tsanet/hub/session.py:37-53 | succeeds iff uncontested, forced or granted; new session and grant state; closes the evicted connection, and nothing on refusal |
| Sessions.SessionManager.Disconnect | src/tsanet/hub/session.py:55-62 | ends the session and closes no connection |
| LiveGraph.Subscription.Run | src/tsanet/hub/subscriptions.py:126-166 | the push loop sends exactly the delta encoding of the full stream, with failed reads, stop flags and a dying connection anywhere; what that shows of the device is said by `DisplayFollowsDevice` and `EventCarriesReadings` |
| LiveGraph.Subscription.Push | src/tsanet/hub/subscriptions.py:174-183 | sends iff the flag is clear and the connection lives |
| LiveGraph.Subscription.ReadTraces | src/tsanet/hub/subscriptions.py:138-148 | yields the dictionary of all requested traces, and is complete iff no read raised |
| LiveGraph.LiveGraphPanel.OnEvent | src/tsanet/controller/gui/live_graph.py:129-143 | axis and all three curves after an event, cut to the shorter of axis and values |
| LiveGraph.DeltasShowFullStream | src/tsanet/controller/gui/live_graph.py:129-143 | after any number of events the panel, axis and curves, is what the full stream would have produced |
| LiveGraph.ControllerAxisIsHubs | src/tsanet/hub/subscriptions.py:126-157 | after each delivered event the controller's axis is the one the hub holds, once one has been read; exactly except for an empty axis over a non-empty one |
| LiveGraph.DisplayFollowsDevice | src/tsanet/hub/subscriptions.py:126-157 | told by the device's answers alone: after the events of the first n passes the controller shows the latest non-empty axis read in a pass all of whose reads succeeded, else the first axis, else what it showed before |
| LiveGraph.StreamEnds | src/tsanet/hub/subscriptions.py:126-166 | the stream has one event for the first axis and one per completed pass, up to the pass that ends the loop, and no more |
| LiveGraph.EventCarriesReadings | src/tsanet/hub/subscriptions.py:138-157 | the event of a completed pass carries for each requested trace the values read for it in that pass |
| LiveGraph.CurvesAfterEvent | src/tsanet/controller/gui/live_graph.py:129-143 | curve i plots the values of trace i + 1 over the new axis, point by point up to the shorter of both, iff it is visible and they are given; otherwise it is left alone |
| LiveGraph.SentStream | src/tsanet/hub/subscriptions.py:149-157 | of two successive axis-carrying events the axes differ, and every event but the initial one carries exactly the requested traces |
| LiveGraph.LatePush | src/tsanet/controller/gui/live_graph.py:124-134 | with any events of earlier subscriptions interleaved anywhere: the axis shown is the right one iff the last event that brought an axis was an own one or brought that very axis |
| LiveGraph.StrayAxisStays | src/tsanet/controller/gui/live_graph.py:129-134 | a stray axis stays on display through any number of own events as long as the hub's axis does not change |
| Subscriptions.AtMostOneActive | src/tsanet/hub/subscriptions.py:42-66 | in every interleaving at most one subscription has not been told to stop, and it is the active one |
| Subscriptions.FailedSubscribeLeavesNone | src/tsanet/hub/subscriptions.py:48-58 | a failing subscribe leaves none active and every earlier one flagged |
| Subscriptions.IdsIncrease | src/tsanet/hub/subscriptions.py:59-60 | a later subscription has a larger and unused id |
| Subscriptions.AtMostOneLateEvent | src/tsanet/hub/subscriptions.py:174-183 | after the stop flag at most one more event in the whole run, and only from a thread past its test |
| Subscriptions.SilentAfterJoin | src/tsanet/hub/subscriptions.py:118-122 | none after a completed join |
| Subscriptions.SilentAfterEnd | src/tsanet/hub/subscriptions.py:126-166 | none after the thread has found its flag set or has died of a lost connection or device |
| Subscriptions.LateEventAfterNext | src/tsanet/hub/subscriptions.py:118-122 | a reachable state in which the next subscription has already sent and the stopped one is still about to |
| Subscriptions.SeveralLateEvents | src/tsanet/hub/subscriptions.py:118-122 | a reachable state in which two stopped subscriptions can both still send while a third is active |
| Subscriptions.SubscriptionManager.Subscribe | src/tsanet/hub/subscriptions.py:42-66 | stops the old subscription first; on success a fresh id and an active subscription, on each of the three errors none |
| Registry.DeviceRegistry.Scan | src/tsanet/hub/registry.py:55-72 | index = survivors, untouched, plus newly identified ports on fresh handles; handles of vanished devices are closed; every ledger entry legal |
| Registry.DeviceRegistry.PollThenStop | src/tsanet/hub/registry.py:161-170 | after any number of scans and the shutdown of `server.py:81-91` every handle ever opened is closed, and the books balance in every state on the way |
| Registry.DeviceRegistry.ProbePort | src/tsanet/hub/registry.py:119-134 | a device comes out iff it identifies itself and opens again; exactly its handle stays open |
| Registry.DeviceRegistry.Probe | src/tsanet/device/discovery.py:32-65 | which attempt decides, how many handles are opened, and that all of them are closed |
| Registry.IdentifiedIff | src/tsanet/device/discovery.py:32-65 | a port is identified with the version of the first attempt that is not indecisive, and only if that is a version |
| Registry.OpensUntilDecided | src/tsanet/device/discovery.py:32-65 | one handle is opened for each indecisive attempt, one more for the version, and none after that |
| Registry.FoundIff | src/tsanet/hub/registry.py:97-134 | a device is found iff some attempt reports its version, all before it were indecisive, and the port opens once more |
| Registry.DeviceRegistry.Get | src/tsanet/hub/registry.py:79-85 | the device registered under this id, or none |
| Registry.DeviceRegistry.Close | src/tsanet/hub/registry.py:91-95 | empties the index; the closed handles are then exactly those ever opened |
| Registry.BalancedThroughout | src/tsanet/hub/registry.py:136-139 | in every state along a legal ledger, opened minus closed handles are the registered devices plus the one in flight |
| Registry.ClosedAtMostOnce | src/tsanet/hub/registry.py:136-139 | no handle is closed twice |
| Messages.MessageRoundTrip | src/tsanet/protocol/messages.py:40-124 | a message survives `to_dict` and `message_from_dict` iff it is no request with falsy args other than `{}` |
| Messages.ParsePrintParse | src/tsanet/protocol/messages.py:87-124 | whatever parses is in normal form and a fixed point of print and parse |
| Messages.ParserTotal | src/tsanet/protocol/messages.py:87-124 | a value parses iff it is a well-formed message, into the message of its own fields; everything else is a frame error |
| Messages.FirstMissingIsFirst | src/tsanet/protocol/messages.py:94-124 | a missing-field error names the first missing field |
| Messages.ParserErrors | src/tsanet/protocol/messages.py:87-124 | which frame error which value gives: no map, unknown type, first missing field, unknown status; each an equivalence |
| Framing.FrameRoundTrip | src/tsanet/protocol/codec.py:22-46 | a message is encoded iff it packs and fits; the frame's header is accepted, names its payload's length, and the payload decodes to the message |
| Framing.HeaderAccepted | src/tsanet/protocol/codec.py:22-37 | a header is accepted for a length iff it is that length in four bytes, high byte first; up to the limit |
| Framing.FrameBytes | src/tsanet/protocol/codec.py:22-31 | a frame is the length, the first of its four bytes counting 2^24, and what was packed |
| Framing.CodecErrors | src/tsanet/protocol/codec.py:22-46 | each error of the codec, with exactly the inputs that raise it, the limit being 64 MiB |
| Framing.BadPayloadEndsStream | src/tsanet/protocol/transport.py:57-59 | a framed payload that does not decode ends the stream with its error, whatever follows |
| Framing.CutStream | src/tsanet/protocol/transport.py:57-70 | frames cut anywhere: exactly the messages with complete frames come out, in order, then ConnectionClosed |
| Framing.SharedChannelDelivers | src/tsanet/protocol/transport.py:52-55 | any number of senders, writes split anywhere: at all times the receiver can reassemble exactly the messages sent in lock order, all but possibly one still being written |
| Pipe.AcquireKeepsQueue | src/tsanet/protocol/transport.py:52-55 | taking the send lock puts nothing into the queue yet |
| Pipe.WriteQueues | src/tsanet/protocol/transport.py:52-55 | a message enters the queue with the last byte of its frame, and not before |
| Pipe.ReceiveTakesFirst | src/tsanet/protocol/transport.py:57-70 | a frame completed in any chunks is that of the first message of the queue, and decodes to it |
| ByteLevel.StepRefines | src/tsanet/protocol/transport.py:52-70 | every step on bytes - a piece written, a chunk read, a frame decoded - is exactly one step of the message-level system, or none |
| ByteLevel.BytesRefineMessages | src/tsanet/controller/rpc_client.py:113-184 | every state of every byte-level run without torn frame is, through its pipes, a state of a run of the message-level system, so all its theorems hold |
| ByteLevel.BytesReturnOwnAnswer | src/tsanet/controller/rpc_client.py:137-149 | in particular a call returns the answer to that very call or a fatal error, however writes are split and reads chunked |
| Framing.ByteStream.RecvExact | src/tsanet/protocol/transport.py:61-70 | exactly `count` bytes for any chunking; a close only if fewer arrive; a timeout loses exactly the bytes already taken |
| Framing.Connection.Recv | src/tsanet/protocol/transport.py:57-59 | for any chunking the outcome and the rest of the stream are those of one whole read |
| Framing.Connection.ReaderLoop | src/tsanet/controller/rpc_client.py:155-166 | timeouts between frames cost nothing: the deliveries are a prefix of the stream's messages, all of them with the right end when it ended |
| Framing.HeaderTimeoutIsFatal | src/tsanet/protocol/transport.py:61-70 | a timeout between header and payload makes the payload the next header, which for a MessagePack map is over the limit |
| Framing.TimeoutInsideHeader | src/tsanet/protocol/transport.py:61-70 | after a timeout inside the header its rest followed by the payload's first bytes is the next header: TooLarge iff over the limit, else that many bytes are awaited and taken for a payload |
| Framing.TimeoutInsidePayload | src/tsanet/protocol/transport.py:61-70 | after a timeout inside the payload, the same of its next four bytes |
| Framing.TimeoutNearEnd | src/tsanet/protocol/transport.py:61-70 | after a timeout within the payload's last three bytes, the same of these followed by the first bytes of the next frame's header |
| Framing.FirstByteLostIsSilent | src/tsanet/protocol/transport.py:61-70 | a frame of less than 2^18 bytes that lost its first byte raises nothing: the receiver waits for over 255 times as many bytes |
| Handshake.HandshakeAgreement | src/tsanet/protocol/security.py:85-122 | in every state of every run, for all tokens and chunkings: both sides succeed only on equal tokens and fail only on different ones, never disagree, and leave unread exactly the framed traffic |
| Handshake.HandshakeProgress | src/tsanet/protocol/security.py:108-134 | until both are done a handshake step is enabled, and each one uses up work |
| Handshake.TokenSecurity.Verify | src/tsanet/protocol/security.py:114-122 | consumes exactly one presented token; accepts iff it equals the own one; acknowledges and closes accordingly; peer gone only if no whole token arrived |
| Handshake.TokenSecurity.Present | src/tsanet/protocol/security.py:108-112 | writes length and token, consumes one acknowledgement byte, fails and closes on anything but success |
| Handshake.HelloBytes | src/tsanet/protocol/security.py:108-112 | a hello is the token's length in two bytes, high byte first, and the token |
| Screenshot.LosslessScreenshot | src/tsanet/device/rgb565.py:11-32 | an RFC 2083 reader recovers dimensions and pixels from the file, and the pixels' top 5, 6 and 5 bits are the framebuffer |
| Screenshot.PngRoundTrip | src/tsanet/device/png.py:25-38 | the reader accepts a written file iff dimensions are positive and all sizes below 2^31, and then recovers the image |
| Screenshot.RoundingMeetsNoTie | src/tsanet/device/rgb565.py:24-31 | with an odd divisor the rounding is to the unique nearest integer |
| Screenshot.DecodeRgb565 | src/tsanet/device/rgb565.py:11-32 | the in-place loop yields the pixel image, or ValueError iff the size is wrong; the values are those of `ChannelsNearest` |
| Screenshot.ChannelsNearest | src/tsanet/device/rgb565.py:24-31 | for every pixel, told by the framebuffer's two bytes: red, green and blue are the 8-bit values nearest to their share of 255, alpha is 255 |
| Screenshot.FileBytes | src/tsanet/device/png.py:13-38 | the signature and the three chunk types are those of RFC 2083, sections 3.1 and 4.1 |
| Screenshot.EncodePng | src/tsanet/device/png.py:16-38 | the scanline loop yields the file, ValueError for a wrong size, struct.error for a field that does not fit |
| Frequency.FrequencyRoundTrip | src/tsanet/controller/cli/app.py:938-957 | `parse_frequency(_fmt_hz(hz)) == hz` iff `hz >= 0`, in exact arithmetic |
| Frequency.FloatRoundTrip | src/tsanet/controller/parse.py:29-54 | still for `hz <= 2^50` when conversion and product are each off by relative error 2^-53 |
| Frequency.PrintedForm | src/tsanet/controller/cli/app.py:938-957 | every frequency is printed exactly, in the largest unit of which it holds at least one, without superfluous zeros |
| Frequency.ParseAccepts | src/tsanet/controller/parse.py:29-67 | a text parses iff it is a number and an optional suffix of the table with white space around and between; in exact arithmetic the value is the rounded product of the two |
| Frequency.WholeNumberWithSuffix | src/tsanet/controller/parse.py:29-67 | in exact arithmetic: whole numbers with every suffix in any letter case and any space between, by `parse_frequency` in hertz and by `parse_time` in microseconds |
| Frequency.SuffixMeaning | src/tsanet/controller/parse.py:10-67 | what each suffix stands for, long or short, in any letter case: whole numbers come back times its factor; no suffix means hertz and microseconds |
| Frequency.FloatAccepts | src/tsanet/controller/parse.py:29-67 | among digits and dots exactly the texts with at least one digit and at most one dot are numbers |
| Frequency.RoundIs | src/tsanet/controller/parse.py:29-67 | `round` is the nearest integer, of two equally near the even one |
| Frequency.WholeNumberInFloats | src/tsanet/controller/parse.py:29-67 | for whole numbers the floating-point result is the exact one up to 2^50, if conversion and product are each off by relative error 2^-53 |
| Stats.OccupiedBandwidth | src/tsanet/controller/stats.py:164-191 | the loop computes the distance between the two edges below, zero without power |
| Stats.EdgesAreLeast | src/tsanet/controller/stats.py:164-191 | with positive power both edges exist, low not above high, each the least index to reach its share |
| Stats.BandHoldsPower | src/tsanet/controller/stats.py:164-191 | less than 0.5% below, at most 0.5% above, more than 99% inside |
| Stats.BandwidthWithinSpan | src/tsanet/controller/stats.py:164-191 | between zero and the whole span for ascending frequencies |
| Stats.BandwidthIs | src/tsanet/controller/stats.py:164-191 | the bandwidth is the distance between the first point up to which 0.5% of the power has come and the first up to which 99.5% has; zero without power |
| Stats.BandwidthIgnoresOffset | src/tsanet/controller/stats.py:130-142 | a common dB offset leaves the bandwidth unchanged |
| Stats.EdgesScaleFree | src/tsanet/controller/stats.py:164-191 | scaling all powers by a positive factor moves neither edge |
| Stats.AverageBetweenExtremes | src/tsanet/controller/stats.py:107-119 | minimum <= average <= maximum in every unit |
| Stats.AverageMakesTotal | src/tsanet/controller/stats.py:107-119 | in every unit the average is the level whose power, at every point, makes up the total power |
| Stats.AveragesCombine | src/tsanet/controller/stats.py:107-119 | in every unit averages of two parts combine by their power, weighted with the number of points |
| Stats.AverageOfOne | src/tsanet/controller/stats.py:107-119 | the average of one reading is the reading, of a voltage its magnitude |
| Stats.PaprBelowFlatness | src/tsanet/controller/stats.py:194-208 | neither ratio raises, and 0 <= PAPR <= flatness |
| Stats.VoltageFlatness | src/tsanet/controller/stats.py:203-208 | for voltages: flatness exists iff neither extreme is zero, and is not negative iff minimum + maximum is not, or they are equal |
| Stats.VoltagePapr | src/tsanet/controller/stats.py:194-200 | for voltages: PAPR exists iff some power does, is never negative, and is at most flatness iff flatness is not negative and the mean square reaches the square of the minimum |
| Stats.VoltageAverage | src/tsanet/controller/stats.py:107-119 | for voltages: never below the minimum, and at most the maximum iff that is not negative and its square reaches the mean square |
| Stats.VoltageAverageBounded | src/tsanet/controller/stats.py:107-119 | two extremes bound the average of all readings between them iff minimum + maximum >= 0 |
| Stats.NegativeVoltageBreaksOrder | src/tsanet/controller/stats.py:194-208 | a witness: readings -2 V and 1 V have a negative flatness, and a crest factor above it |
| Stats.DbFlatnessIsSpan | src/tsanet/controller/stats.py:203-208 | in dB units flatness is maximum - minimum |
| Stats.DbChannelPowerIsAveragePlusCount | src/tsanet/controller/stats.py:145-161 | in dB units channel power is average + 10 log10 n |
| Stats.VoltagePowersAdd | src/tsanet/controller/stats.py:145-161 | in V and Vpp the channel power is not negative, its square for two parts is the sum of their squares, and for one reading the square of it |
| Stats.PlainPowersAdd | src/tsanet/controller/stats.py:145-161 | in W and RAW the channel power of two parts is the sum of theirs, and of one reading the reading |
| Stats.DbRatios | src/tsanet/controller/stats.py:194-208 | in dB units crest factor and flatness are maximum minus average and maximum minus minimum |
| Stats.PlainRatios | src/tsanet/controller/stats.py:194-208 | in W and RAW they exist iff average and minimum are positive, and are the dB value of the ratio maximum : average and maximum : minimum |
| Stats.VoltageRatios | src/tsanet/controller/stats.py:194-208 | in V and Vpp they are the dB value of the ratio of the squares, the peak being the reading of larger magnitude |
| Stats.MedianSplitsValues | src/tsanet/controller/stats.py:122-127 | sorting permutes; at most half of the values, rounded down, on either side of the median; between the extremes |
| Stats.MedianOfSorted | src/tsanet/controller/stats.py:122-127 | by any sorted arrangement of the values twice the median is the sum of the two middle ones, which are one if their number is odd |
| Stats.Filter | src/tsanet/controller/stats.py:97-104 | the loop keeps frequency and value of the points in range, pairwise and in order |
| Stats.KeptIsRange | src/tsanet/controller/stats.py:97-104 | the kept indices ascend and are exactly those in range |
| Stats.Extremes | src/tsanet/controller/stats.py:60-91 | both extremes with their first occurrences |
| Stats.ComputeStats | src/tsanet/controller/stats.py:34-94 | reports iff the values allow it; each field of the report, extremes at the first in-range occurrence |
| SerialExchange.SendReturnsBody | src/tsanet/device/_legacy.py:48-55 | if round k is the first in which a prompt is seen, all that is in transit has settled at its reset, and its reply is well framed and in time, then `send` returns its body (or rejects it as usage text) after k + 1 writes |
| SerialExchange.ComingIs | src/tsanet/device/_legacy.py:83-90 | what comes in a round, byte by byte: of the bytes in transit all but those that had settled at the reset, then the reply |
| SerialExchange.LeftIs | src/tsanet/device/_legacy.py:83-99 | what a round leaves in transit, byte by byte: all that comes in it but what has arrived |
| SerialExchange.SendOutcome | src/tsanet/device/_legacy.py:48-55 | `send` reports a timeout iff every attempt timed out, else the reply's stripped text or its rejection, and never a framing error |
| SerialExchange.StripIs | src/tsanet/device/_legacy.py:112-118 | of any reply: prompt, a leading echo and the line breaks at both ends are taken off and nothing else; a byte beyond ASCII becomes the replacement character |
| SerialExchange.RejectedIff | src/tsanet/device/_legacy.py:121-131 | a reply is rejected iff it has an opening brace or, after white space and in any letter case, starts with `usage:` |
| SerialExchange.NoLeakIffNothingLate | src/tsanet/device/_legacy.py:85-90 | for a command with more than line breaks: every well-framed reply comes through iff nothing of an earlier reply is in transit when the input is reset |
| SerialExchange.LateReplyTaken | src/tsanet/device/_legacy.py:85-90 | a run in which the late reply to the first attempt is returned for the second |
| SerialExchange.BinaryPayloadExact | src/tsanet/device/_legacy.py:57-75 | over a whole exchange with late bytes and three reads that may each give up: the payload of round k comes back byte for byte if late bytes and command have no line feed and everything is in time |
| SerialExchange.BinaryOutcome | src/tsanet/device/_legacy.py:65-75 | the payload iff the prompt follows, a protocol error if something else does, a timeout iff either read is short |
| SerialExchange.BinaryExactIff | src/tsanet/device/_legacy.py:65-71 | every payload whose own reads are in time comes back exactly iff late bytes and echo have no line feed and the line feed after them arrives before the echo's read gives up |
| SerialExchange.LineEndMissed | src/tsanet/device/_legacy.py:65-71 | if the echo has a line feed, or its own comes too late, some payload is misread |
| SerialExchange.TimeoutOnlyIfAllTimeOut | src/tsanet/device/_legacy.py:83-93 | a timeout is reported iff every attempt timed out, after writing each time |
| SerialExchange.FramedReads | src/tsanet/device/_legacy.py:95-99 | a framed reply is read whole iff echo and body are prompt-free |
| SerialExchange.TinySA.Exchange | src/tsanet/device/_legacy.py:83-93 | the first answer that is not a timeout, how often the command was written for it, and what remains in transit |
| SerialExchange.LineAfter | src/tsanet/device/_legacy.py:83-93 | after k rounds the command has been written k times, k rounds are used up, and in transit is what they left there |
| SerialExchange.TinySA.ReadExact | src/tsanet/device/_legacy.py:101-110 | exactly `count` bytes for any chunking, or a timeout iff fewer arrived |
| SerialExchange.TinySA.Send | src/tsanet/device/_legacy.py:48-55 | echo, line breaks and prompt stripped, usage text rejected, non-ASCII commands never written |
| SerialExchange.TinySA.SendBinary | src/tsanet/device/_legacy.py:57-75 | the payload, a timeout, or a protocol error when no prompt follows |
| Prelude.BigEndianRoundTrip | src/tsanet/protocol/codec.py:22-37 | big-endian headers of any width decode to the number encoded |

## Hypotheses

- Of MessagePack it is assumed, for the messages at hand, that what packs is
  unpacked to the same value (`Framing.Survives`); packing may fail. zlib
  compression and decompression are an inverse pair (`Screenshot.InversePair`);
  `hmac.compare_digest` is equality; CRC-32 is some function of its input.
- A packed message starts with byte 0x80 or more, as every MessagePack map of up
  to fifteen entries does (`HeaderTimeoutIsFatal`).
- At the level of bytes: no timeout tears a frame, and after a failed send nothing
  more is written to that socket (`ByteLevel`).
- The theorems about calls speak of runs in which no bytes of a torn frame are
  taken for a message (`mangled` in `RpcMultiplex`): once that has happened
  anything can be read from the stream, even data for a call that was never
  answered (`TornStreamForgesAnswer`).
- `10 ** x` and `log10` are inverse, increasing and multiplicative, and `sqrt` is
  a square root (`Stats.Sound`); statistics are in exact arithmetic.
- Sockets and ports deliver bytes in order, in pieces of any size; a connection
  with a timeout set may time out at any `recv`.
- The registry has one scanner thread; other threads read between its steps.

## Left out

- MessagePack, zlib and CRC internals, sockets, keepalive and the serial driver: libraries.
- `Dispatcher` routing: per-domain command chains; the request loop takes the hub's answer to a request as given, one per request with its id.
- Liveness after a connection error or a timeout inside a frame: the code does not provide it.
- Wall-clock time, pacing and uptime: a timeout is a step that may happen.
- Connecting the same client object a second time: the run starts from one connection.
- RpcMultiplex.CallsComeBack: says that work is finite and never stuck, not that the scheduler is fair.
- LiveGraph.ControllerAxisIsHubs: one subscription on a fresh panel; late pushes of an earlier one are the subject of `LatePush`.
- Registry.DeviceRegistry.Scan: the order of probing within a scan is left arbitrary, where the source sorts the ports, and a probe that raises anything but its own errors is not modelled.
- The registry's injected `open_port` callback and the `busy` flag: used by tests and listings only.
- Handshake.HandshakeAgreement: no connection loss between the two sides; `Verify` and `Present` cover a vanished peer and a timeout one side at a time.
- `write_only`: a plain write.
- Frequency.ParseAccepts: the value is stated in exact arithmetic; the conversion to a double rounds whole numbers beyond 2^53, and one of several hundred digits raises OverflowError.
- Frequency.WholeNumberWithSuffix: in exact arithmetic; `WholeNumberInFloats` is the statement for doubles.
- `parse_frequency`: digits, letters and white space beyond ASCII, which the regular expression, `strip()` and `lower()` also accept, are not modelled.
- Sessions.SessionManager.Admit: a session is a value in the manager, so a caller holding the returned session sees no later selection; peer and transport are carried, uptime is not.
- Field strength conversion, discovery listing, configuration, command line and graphical interface other than the functions cited.
