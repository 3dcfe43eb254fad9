# Verification of the tunnel protocol

This project models a reliable byte-stream protocol that runs over an unreliable, duplicating and
reordering batch transport, and proves what it promises. Sessions are cut into numbered frames, frames of
many sessions travel in encrypted batches through HTTP relays, and each side reassembles its sessions.

| files | what they model |
|---|---|
| `SessionTx`, `SessionRuns` | the sending half of a session: chunking, SYN and FIN, limited drains, whole runs |
| `SessionRx`, `RxChannel` | the receiving half: reassembly, and the interleavings around the receive channel |
| `Session`, `VirtualConn` | the session object and the connection built on it, with the methods of the program |
| `FrameCodec`, `Base64`, `BatchCodec` | the wire formats |
| `EndToEnd` | sender, carrier, transport, receiver and reader composed |
| `SharedNumbers`, `SessionStreams`, `Resets` | frames of several senders, and resets, that share one identifier's numbers; what a reset does |
| `Drains`, `ExitDrain`, `ExitRounds`, `ExitFairness`, `ExitLimits` | the server's drain order: caps, who is served and when, where the budget fails |
| `ExitServer`, `ExitPoll`, `ExitRouting` | the server's session table; drainAll and routeIncoming as objects that run step by step |
| `ExitWorld`, `ExitLedger`, `ExitBatch`, `ExitHandler` | every interleaving on the server, with an account of every frame; batches and responses in it |
| `ExitHistory`, `ExitReopen`, `ExitResets`, `ExitOverflow` | runs of the server: rounds of polls, and runs in which a natural claim fails |
| `CarrierDrain`, `Carrier`, `CarrierPoll`, `CarrierRouting` | the client: request packing, session table, drainAll step by step, every interleaving |
| `Endpoints`, `Coalescer` | endpoint rotation with blacklists, and the coalesced wake-ups |
| `Bytes`, `Frames`, `SessionTables` | shared definitions |

## How it is built

- A mutable object of the program is a class here, and a section the program runs under a mutex is one
  method. A method is proved against a transition function (`SessionRuns.Next`, `SessionRx.Deliver`,
  `ExitDrain.Serve`, `CarrierDrain.Pack`), and the theorems are about these functions and their runs.
- Sections need nothing but the invariant of their object. Calls that drop a mutex half way (`routeIncoming`,
  `routeRx`, and the two `drainAll`s, which hold the table's mutex but take each session's anew) are objects
  with a step counter; the loops of both `gcDoneSessions` and of `releaseInFlight` let others in between as
  well. `ExitWorlds.AnyRun` and `CarrierRouting.AnyRun` choose steps of any goroutine at every turn; during such
  a loop, of any that needs no table mutex. Their conclusions hold in all these interleavings.
- `Server.DrainAll`, `Client.DrainAll`, `ReleaseInFlight` and both `GcDoneSessions` run with nothing in between;
  `Serve` and `Pack` say exactly what a drain returns, and the theorems on order, fairness and sizes are about them.
- The receiving half of a session object, seen through `Session.Side`, moves by the steps of `RxChannel` alone.
- `callbacks` stands for OnTx calls that wait for the mutex, `polls` for requests still to release their
  sessions. Ghost fields hold history: the accepted stream, the emitted frames, who a session heard from, how
  often a session was lost.
- Times are nanoseconds passed in; 0 is the zero time. Sealing and compression are functions with inverse
  laws, and `BatchCodec.LawfulIsPossible` shows that the laws can be met.
- Where a natural claim fails, the failing input and the exact condition stand side by side:

| claim | fails in | holds if and only if |
|---|---|---|
| a response stays under 32 MiB | `ExitOverflows.Overflow` | `BatchCodec.RawBodySize` |
| writes leave in call order | `SessionRuns.EarlyWritesReverse` | `SessionRuns.WriteAppendsIff`, for each write |
| no send meets a closed channel | `RxChannel.CloseRxRace` | `RxChannel.SendsSafeIff` |
| a waiting session is served | `ExitFairness.StarvesForLong` | `ExitFairness.WaitsIff`, for each round |
| one identifier, one stream | `ExitReopens.Reopened` | `SharedNumbers.OneStreamIff` |
| the reader sees a prefix of the stream | `ExitResets.SynLost`, `EndToEnd.EarlyResetLoses` | `SharedNumbers.ResetOrderIff` |
| a reset ends the server's session | `Resets.ResetAtStart`, and past frame 0 `Resets.ResetIgnoredIff` | `Resets.ResetEndsIff`, `Resets.ResetsEndSessionIff` |
| a kick is not delayed past the cap | any configuration with step over max | `Coalescer.TimelyIff` |

## Where the code and its comments differ

- internal/exit/exit.go:87-97 says the response budget stays under the client's 32 MiB cap with room for one
  more frame. A drain can exceed it by a whole session's share of eight frames, and headers come on top:
  `ExitOverflows.Overflow` gives a response over the cap, `BatchCodec.RawBodySize` the exact condition.
- internal/session/session.go:152-153 speaks of initial data; `VirtualConn.Write` calls it for every write, so
  two writes before the SYN come out reversed (`SessionRuns.EarlyWritesReverse`, `SessionRuns.WriteAppendsIff`).
- internal/carrier/client.go:340-346 says a shutdown reset releases the server's connections. The server has no
  case for a reset: a session that has taken its first frame ignores it, and one that has not takes it as frame 0
  and drops the real one (`ExitResets.SynLost`); it ends only a session that waits for nothing but frame 0
  (`Resets.ResetEndsIff`).
- internal/session/session.go:97-98 asks that Stop come after the removal from the table; the upstream pump
  (internal/exit/exit.go:604-611) stops registered sessions. No invariant depends on it.

## Model

| member | source | states |
|---|---|---|
| `EndToEnd.ReaderSeesPrefix` | internal/session/session.go:254-356 | the end-to-end safety theorem: over every run of writes, drains, posts with any number of drains to a body, resets posted on shutdown, duplicated, reordered or lost deliveries, receive-loop steps and any way of shutting down, in which no reset is taken while rxSeq is 0, the bytes returned to the reader are a prefix of the bytes the sender accepted; from server to client this is every run |
| `EndToEnd.EarlyResetLoses` | internal/carrier/client.go:340-366 | in every other run the reader loses exactly the payload of frame 0, and sees a prefix of the rest of the stream |
| `EndToEnd.DisplacedIff` | internal/session/session.go:402-431 | a reset stands in the place of frame 0 if and only if rxLoop took one while rxSeq was still 0 |
| `EndToEnd.ReaderSeesAll` | internal/session/session.go:396-450 | in a run in which nothing shut the receiver early and no reset was taken in the place of frame 0, the channel is closed exactly when the FIN was processed and sent on; once every emitted frame was taken in, the reader has or finds waiting all that was emitted, the whole stream if the FIN is out |
| `EndToEnd.StepKeeps` | internal/session/session.go:106-128 | each step of sender, carrier, transport, receive loop or reader keeps the end-to-end invariant: posted and held frames are genuine, and read bytes plus waiting bytes are the bytes sent on the channel |
| `EndToEnd.DeliverStep` | internal/frame/crypto.go:244-325 | whatever the transport decodes for a session, with padding or white space added by a relay, is a frame its sender emitted under that number, or a reset the client posted; on the client resets never enter the inbox |
| `EndToEnd.DeliveredIsPrefix` | internal/session/session.go:412-431 | what reassembly has delivered is the payloads of the first rxSeq frames as the receiver numbers them |
| `SharedNumbers.OneStreamIff` | internal/exit/exit.go:456-493 | several sessions opened under one identifier: whatever arrives, the delivered bytes are a prefix of one session's stream, if and only if no session that emitted a frame shares the identifier with one that emitted two; an identifier opened once always meets this |
| `SharedNumbers.ResetOrderIff` | internal/session/session.go:396-431 | a client's resets among its frames: whatever n frames were emitted, the delivered bytes are a prefix of the stream if and only if no reset is processed while rxSeq is 0, or frame 1 never comes |
| `SharedNumbers.ResetFirstLoses` | internal/session/session.go:396-431 | a reset that came first costs exactly the bytes of frame 0: what is delivered is the payloads of frames 1, 2, … |
| `Resets.ResetEndsIff` | internal/carrier/client.go:340-366 | a shutdown reset ends an open session if and only if the session has not taken its frame 0 and the rest of the stream is already queued, without a gap up to the FIN |
| `Resets.ResetAtStart` | internal/session/session.go:396-431 | so it ends no session that was just opened: such a session takes the reset as its frame 0 and goes on |
| `Resets.ResetsEndSessionIff` | internal/carrier/client.go:340-366 | over any sequence of a session's frames and resets: resets end a session that its own frames leave open if and only if its FIN and every frame before it but the first arrived, the first did not, and a reset did |
| `ExitResets.SynLost` | internal/exit/exit.go:441-486 | a run of the server in which a reset overtakes its session's own SYN: the session ends up past frame 0 with nothing of the SYN's data delivered, queued or waiting |
| `ExitReopens.Reopened` | internal/exit/exit.go:456-493 | a run of the server, two SYN calls for one identifier that both looked up and checked their dials before either opened, with a poll after each: frame 0 of the first session and frame 1 of the second are reassembled to a prefix of neither stream |
| `ExitReopens.OpenedOnce` | internal/exit/exit.go:554-571 | in any reachable world, if a client's sessions under an identifier are one object, whatever polls returned of it is reassembled to a prefix of that session's stream |
| `SessionTx.ChunksCover` | internal/session/session.go:311-325 | cutting a buffer into chunks loses and adds nothing, and every chunk is non-empty and within the payload cap |
| `SessionTx.ChunksCount` | internal/session/session.go:272-275 | the number of chunks is the ceiling of buffer size over payload cap |
| `SessionTx.ChunksSuffix` | internal/session/session.go:312-324 | what is left after m chunks is cut into exactly the other chunks |
| `SessionTx.PendingCount` | internal/session/session.go:201-205 | the frames owed are ceil(buffer / cap), at least one for an unsent SYN, plus one for an unsent FIN; some are owed exactly when HasPendingTx |
| `SessionTx.PendingAfterDrain` | internal/session/session.go:248-252 | after a limited drain exactly the rest of the owed frames is still owed |
| `SessionTx.DrainTwice` | internal/session/session.go:254-356 | draining a frames and then b gives the frames and the state of draining a + b at once |
| `SessionRuns.DrainConserves` | internal/session/session.go:288-325 | emitted payloads followed by the remaining buffer are the buffer before the drain |
| `SessionRuns.StepInv` | internal/session/session.go:130-188 | every write, close or drain keeps: emitted payloads plus buffer are the accepted stream, numbers are 0, 1, 2, …, SYN and target on frame 0 of a client session only, FIN last and alone |
| `SessionRuns.RunInv` | internal/session/session.go:254-356 | the same over whole runs of any length |
| `SessionRuns.EmittedGrows` | internal/session/session.go:254-356 | in any continuation of a run the frames already emitted stay as they are |
| `SessionRuns.FinIsFinal` | internal/session/session.go:337-347 | once the FIN is out, no continuation emits a frame, accepts a byte, or owes anything |
| `SessionRuns.DoneLosesNothing` | internal/session/session.go:228-239 | a session that sent its FIN has emitted its whole stream, FIN last, and owes nothing, whatever its receive side still waits for |
| `SessionRuns.FinTime` | internal/session/session.go:337-347 | in every run finSentAt is the time of the drain that emitted the FIN |
| `SessionRuns.PayloadsCapped` | internal/session/session.go:298-324 | no emitted payload is larger than the cap of the drains in the run |
| `SessionRuns.QueuedSince` | internal/session/session.go:130-356 | in every run a session that owes frames has a queue time, the time of the first write or close since it was last drained completely; no partial drain and no later write moves it |
| `SessionRuns.WritesInOrder` | internal/session/session.go:154-172 | the accepted stream is the writes in call order whenever no connection write meets a non-empty buffer before the SYN |
| `SessionRuns.WriteAppendsIff` | internal/session/session.go:154-172 | EnqueueInitialData appends whatever it is given if and only if nothing is buffered behind an unsent SYN, or the SYN is out and no close was requested |
| `SessionRuns.EarlyWritesReverse` | internal/socks/conn.go:70-77 | two writes made before the first drain leave in the opposite order |
| `Sessions.Session.constructor` | internal/session/session.go:79-95 | a new session owes its SYN, or nothing, and has delivered nothing |
| `Sessions.Session.EnqueueTx` | internal/session/session.go:130-150 | one attempt: waits exactly over the high-water mark with no close requested, refuses after a close request, else appends, so the buffer never exceeds the mark by more than one write; the history step is that of the run model |
| `Sessions.Session.EnqueueInitialData` | internal/session/session.go:152-172 | prepends before the SYN, otherwise behaves as EnqueueTx |
| `Sessions.Session.RequestClose` | internal/session/session.go:174-188 | marks the session for closing and stamps the queue time if unset |
| `Sessions.Session.HasPendingTx` | internal/session/session.go:200-205 | true exactly when a drain would emit a frame |
| `Sessions.Session.IsDone` | internal/session/session.go:228-239 | true exactly if the FIN is out and either the receive side is closed or the FIN left more than 30 s ago |
| `Sessions.Session.TakeSyn` | internal/session/session.go:288-309 | the SYN takes the first chunk with it; the frame is the first one owed |
| `Sessions.Session.TakeChunks` | internal/session/session.go:311-325 | the payload loop yields the owed data frames in order, up to the frame cap |
| `Sessions.Session.TakeFin` | internal/session/session.go:337-352 | the FIN follows only an empty buffer and only within the cap; the resulting state is that of the model |
| `Sessions.Session.DrainTx` | internal/session/session.go:254-356 | emits the first min(maxFrames, N) of the N owed frames, keeps owing the others, and keeps the run invariant |
| `Sessions.Session.CloseRx` | internal/session/session.go:190-198 | closes the channel exactly if the receive side was not yet closed; a step of the channel model |
| `Sessions.Session.EnterRx` | internal/session/session.go:365-371 | the locked check of ProcessRx: the frame goes on exactly while the receive side is open; who it came from is recorded |
| `Sessions.Session.OfferRx` | internal/session/session.go:372-391 | the frame enters the inbox only if there is room; it is dropped only by a stopped session, and a full inbox that stays full stops it |
| `Sessions.Session.DeliverInOrder` | internal/session/session.go:412-430 | the inner loop ends at the first number not held or after a FIN, sends the non-empty payloads up to there, and leaves only later frames queued |
| `Sessions.Session.DeliverRx` | internal/session/session.go:396-431 | the locked part of deliverRx is the transition of the reassembly model |
| `Sessions.Session.RxStep` | internal/session/session.go:99-128 | every step of rxLoop, of deliverRx after its locked part and of the channel's reader is the step of the channel model, taken exactly when that is enabled; with no guard the program lacks, no close meets a closed channel |
| `SessionRx.TakeInv` | internal/session/session.go:396-431 | every arrival keeps: delivered bytes are the payloads of frames [0, rxSeq), rxSeq is the first number not received (or the one after the FIN), queued numbers are greater |
| `SessionRx.TakeAllInv` | internal/session/session.go:396-431 | the same over any sequence of arrivals |
| `SessionRx.OrderAndDuplicatesDoNotMatter` | internal/session/session.go:402-430 | two arrival sequences with the same frames, in any order and repetition, deliver the same bytes and end at the same number and closed flag |
| `RxChannel.ClosedAtMostOnce` | internal/session/session.go:99-128 | over every interleaving of the split steps the channel is closed at most once, and is closed once rxLoop is gone |
| `RxChannel.SendsSafeIff` | internal/session/session.go:433-444 | at every state of a run it is certain that no continuation without a further CloseRx panics, if and only if no CloseRx of the run took effect while a deliverRx call held unsent payloads |
| `RxChannel.PanicIff` | internal/session/session.go:433-448 | the only step that panics is a send by a deliverRx call whose channel was closed under it |
| `RxChannel.StopOnlyIsSafe` | internal/exit/exit.go:603-612 | runs that shut down through Stop alone never send on a closed channel |
| `RxChannel.CloseRxRace` | internal/session/session.go:190-198 | a run of four steps in which CloseRx makes a pending send panic |
| `VirtualConns.VirtualConn.Read` | internal/socks/conn.go:28-68 | no byte is skipped, repeated or reordered; without a deadline Read returns bytes exactly if some are unread, the end exactly with nothing unread on a closed channel, and waits otherwise; a deadline that has passed is reported unless bytes were left over |
| `RxChannel.ReadOnceKeeps` | internal/socks/conn.go:28-68 | one read, as the method and the end-to-end pipe both take it: what is returned and what stays unread are what was unread, in order |
| `VirtualConns.VirtualConn.Write` | internal/socks/conn.go:70-77 | every non-empty write goes through EnqueueInitialData; an empty one does nothing |
| `FrameCodec.PrefixFree` | internal/frame/frame.go:37-45 | at most one frame starts at the front of any data: encodings are prefix-free |
| `FrameCodec.Marshal` | internal/frame/frame.go:46-70 | fails exactly on an oversized target or payload, else fills the array with the encoding, which parses back to the frame |
| `FrameCodec.Unmarshal` | internal/frame/frame.go:74-111 | succeeds exactly when the data starts with an encoding, returning that frame and its length; each failure is named by its cause |
| `FrameCodec.ValueOfBigEndian` | internal/frame/frame.go:58-66 | reading a big-endian number back gives the number |
| `FrameCodec.BigEndianOfValue` | internal/frame/frame.go:82-95 | writing the number read gives the bytes back |
| `Base64.EncodeLength` | internal/frame/crypto.go:231-232 | unpadded base64 of n bytes has ceil(4n/3) characters (section 3.2 of RFC 4648) |
| `Base64.Alphabet` | internal/frame/crypto.go:31 | the digits are the 64 characters of table 1 of RFC 4648, in its order |
| `Base64.EncodesBits` | internal/frame/crypto.go:231-232 | three bytes are written as the four base-64 digits of one number, the first byte and the highest digit first (section 4 of RFC 4648) |
| `Base64.EncodesTail` | internal/frame/crypto.go:231-232 | one or two bytes at the end are filled up with zero bits, and not padded |
| `Base64.DecodeOfEncode` | internal/frame/crypto.go:28-31 | decoding an encoding gives the bytes back (section 4 of RFC 4648) |
| `Base64.DecodeDigitsIff` | internal/frame/crypto.go:256-261 | text decodes if and only if it has digits only and no lone digit at its end |
| `Base64.EncodeOfDecode` | internal/frame/crypto.go:256-261 | what was decoded encodes to the same text but for its last digit, whose low bits may be lost |
| `Base64.DecodeTolerant` | internal/frame/crypto.go:249-261 | so it does with padding appended and any white space around it, ASCII or other Unicode in UTF-8 |
| `BatchCodec.EncodeBatch` | internal/frame/crypto.go:152-234 | fails exactly on too many frames or one that cannot be marshalled; the body decodes to the client and the frames |
| `BatchCodec.DecodeBatch` | internal/frame/crypto.go:244-325 | returns what the body carries, or the error of the first thing that is wrong with it; what that is exactly is in DecodesIff |
| `BatchCodec.UnpackFrames` | internal/frame/crypto.go:305-323 | the offset loop reads the entries the length prefixes delimit, or stops at the first faulty one |
| `BatchCodec.UnpackedIff` | internal/frame/crypto.go:305-323 | a packed section decodes to these frames if and only if it starts with as many length-delimited entries as announced, each starting with its frame |
| `BatchCodec.DecodesIff` | internal/frame/crypto.go:244-325 | a body decodes to a client and frames if and only if it is the text of a sealed plaintext, raw, zstd or deflate, that names the client and the count and holds that many entries, each starting with its frame; anything cut off or unknown is an error |
| `BatchCodec.RoundTrip` | internal/frame/crypto.go:152-325 | decoding an encoded batch gives the client and frames back on the raw and on the zstd branch, padded or not; the sealed plaintext is at most one byte longer than the packed frames |
| `BatchCodec.AnyFormDecodes` | internal/frame/crypto.go:264-296 | so does any body sealed in one of the three forms, deflate of an older peer included |
| `BatchCodec.RawBodySize` | internal/carrier/client.go:615 | P payload bytes in n target-less uncompressed frames are sealed into P + 47 + 34n bytes, and the body fits 32 MiB if and only if these fit 24 MiB |
| `BatchCodec.LawfulIsPossible` | internal/frame/crypto.go:55-80 | the laws asked of sealing and compression can be met |
| `Drains.SortByAge` | internal/exit/exit.go:678-680 | some arrangement of the snapshot by queue age, each session once |
| `ExitDrain.ServeBounds` | internal/exit/exit.go:662-723 | one drain keeps its frame cap, and goes past its byte budget by less than one session's whole drain |
| `ExitDrain.ServeCounts` | internal/exit/exit.go:717-723 | slots and budget used up are the frames and payload bytes returned |
| `ExitDrain.ServeConserves` | internal/exit/exit.go:682-724 | the frames returned are as many as the sessions stop owing |
| `ExitDrain.ServeProgress` | internal/exit/exit.go:682-724 | a drain with room and budget takes something if a listed session owes something |
| `ExitDrain.ServeInOrder` | internal/exit/exit.go:665-692 | a session is served only after every one queued before it got eight frames or all it owed |
| `ExitDrain.ServeOthers` | internal/exit/exit.go:682-724 | sessions not listed owe what they owed |
| `ExitDrain.ServeFrom` | internal/exit/exit.go:693-722 | every frame returned was owed by a listed session |
| `ExitDrain.ServedIff` | internal/exit/exit.go:665-692 | a listed session that owes something is served if and only if the full shares of the sessions listed before it leave a slot and their bytes leave some budget |
| `ExitLimits.BudgetOverflows` | internal/exit/exit.go:87-97 | twelve sessions with two mebibytes buffered, the oldest with one byte less, among 24 or more make one response of 24 MiB - 1 payload bytes in 96 frames |
| `ExitLimits.ResponseOverflows` | internal/exit/exit.go:87-97 | a server holding such sessions of one client packs, within its budget check at every step, a response whose body is over the client's 32 MiB cap if its bytes do not compress |
| `ExitFairness.Starves` | internal/exit/exit.go:665-680 | sessions queued earlier and refilled to more than one drain each stay ahead in every queue by age, and enough of them keep a younger session unserved in any number of rounds |
| `ExitFairness.WaitsIff` | internal/exit/exit.go:682-692 | in any one round a session is passed over if and only if the shares of its elders leave no slot or no budget |
| `ExitFairness.ServedInTime` | internal/exit/exit.go:665-692 | if nothing is added before its turn, a session is served no later than after as many rounds as frames were owed before it |
| `ExitFairness.PlaceKept` | internal/session/session.go:349-352 | a session keeps its place in the queue through every response that does not drain it completely |
| `ExitServer.Server.UpstreamRead` | internal/exit/exit.go:580-596 | an upstream read on any session object keeps every table invariant; an accepted read leaves an OnTx call on its way |
| `ExitServer.Server.UpstreamEnd` | internal/exit/exit.go:597-613 | closing requests the FIN, stops the session and leaves an OnTx call on its way |
| `ExitServer.Server.OnTx` | internal/exit/exit.go:558-563 | the callback marks the session ready |
| `ExitServer.Server.RxTurn` | internal/session/session.go:99-128 | a step of rxLoop on any session object is the step of the channel model and keeps every table invariant |
| `ExitServer.Server.EnterRx` | internal/session/session.go:365-371 | the check of ProcessRx on any session object keeps every table invariant |
| `ExitServer.Server.OfferRx` | internal/session/session.go:372-391 | so does the send into the inbox |
| `ExitServer.Server.DrainOne` | internal/exit/exit.go:689-702 | one session gives its first frames, and loses its ready mark exactly if nothing is left to send |
| `ExitServer.Server.ServeList` | internal/exit/exit.go:682-724 | the drain loop computes the specified service of the list, and books first replies and activity for exactly the sessions served |
| `ExitServer.Server.DrainAll` | internal/exit/exit.go:642-727 | queued control and reset frames, then the client's ready sessions oldest first under the caps; every session shed what it gave in the way of drainTx; every session frame was owed by a session this client opened; urgent exactly on queued frames or a first reply |
| `ExitServer.Server.Register` | internal/exit/exit.go:565-571 | registration keeps the tables in step, also over an existing session |
| `ExitServer.Server.OpenSession` | internal/exit/exit.go:554-571 | the new session belongs to the client whose SYN opened it |
| `ExitServer.Server.QueueRST` | internal/exit/exit.go:499-505 | one reset is appended to that client's queue and to no other |
| `ExitServer.Server.QueueVersionResponse` | internal/exit/exit.go:507-517 | one control frame is appended to that client's queue and to no other |
| `ExitServer.Server.Touch` | internal/exit/exit.go:489-493 | activity is touched only while the session is registered |
| `ExitServer.Server.Forget` | internal/exit/exit.go:733-738 | all per-session tables lose exactly that session |
| `ExitServer.Server.IsDialSuppressed` | internal/exit/exit.go:859-872 | true exactly until the recorded time; an expired record is dropped |
| `ExitServer.Server.RecordDialFailure` | internal/exit/exit.go:874-881 | an eligible failure suppresses dials to the target for two seconds |
| `ExitServer.Server.GcDoneSessions` | internal/exit/exit.go:729-743 | removes exactly the sessions whose FIN is out and that cannot receive, or sent it more than 30 s ago: no other loses what it could still receive, and each has emitted its whole stream and is stopped; every other table loses exactly their entries |
| `ExitServer.Server.GcIdleSessions` | internal/exit/exit.go:763-799 | removes exactly the sessions idle for the timeout, and returns them; every other table loses exactly their entries |
| `ExitServer.Server.ForceClose` | internal/exit/exit.go:801-816 | force-closing a victim, whatever has happened to its entry since, keeps every table invariant |
| `ExitRouting.Route.Look` | internal/exit/exit.go:441-465 | where the first look at the tables sends a frame; an existing session is only entered by the client that opened it |
| `ExitRouting.ProbeIff` | internal/protocol/protocol.go:27-39 | a payload is a probe if and only if it is the bare prefix, or is made as EncodeProbePayload makes them: the prefix, a bar, and anything |
| `ExitRouting.Route.CheckDial` | internal/exit/exit.go:469-474 | a suppressed target is rejected, any other is dialled |
| `ExitRouting.Route.Open` | internal/exit/exit.go:476-485 | a successful dial registers a session of this client, whatever happened since the look-up |
| `ExitRouting.Route.Clear` | internal/exit/exit.go:483-484 | a successful dial ends the suppression of its target |
| `ExitRouting.Route.Enter` | internal/exit/exit.go:486 | the frame of a call goes on to a session its own client opened, and that client is recorded |
| `ExitRouting.Route.Offer` | internal/exit/exit.go:486 | the frame is in the inbox of that session, or the session is stopped |
| `ExitRouting.Route.Advance` | internal/exit/exit.go:441-494 | every step of a routing call keeps the server invariant and brings the call nearer its end; resets and probe answers are queued exactly where the step says; a frame that was handed over is in the inbox of its session, or that session is closed for reading or stopped |
| `ExitRouting.Route.AtEnd` | internal/exit/exit.go:441-494 | how a call ends: a frame for a session of its client's, or for one it opened, was handed over; any other drew a reset, or the answer to a probe, or its dial failed |
| `ExitPolls.Drain.DrainNext` | internal/exit/exit.go:684-698 | one DrainTxLimited call of drainAll, on the next session listed: the session emits exactly the frames drained, min(8, slots left, frames owed) of them, and the accounts of slots and bytes are kept |
| `ExitPolls.Drain.Check` | internal/exit/exit.go:706 | HasPendingTx is a step of its own |
| `ExitPolls.Drain.Book` | internal/exit/exit.go:706-724 | the bookkeeping acts on what was seen then: a session that was written to in between keeps its callback, so clearing its mark strands nothing |
| `ExitPolls.OwedFrames` | internal/session/session.go:288-347 | sessions emit no resets, and no payload over the cap, so the resets of a response are those that were queued |
| `ExitWorlds.Turn` | internal/exit/exit.go:441-494 | a step of any routing call, at any time, keeps the world, no frame on its way is lost, and new session objects have emitted nothing |
| `ExitWorlds.Poll` | internal/exit/exit.go:642-727 | drainAll step by step, with pumps, receive loops, forced closes and ProcessRx halves between any two steps: it returns the client's queued frames, all of them, and then exactly what every session object emitted meanwhile, in order; caps and budget bound hold; every ready session of the client gave eight frames or has nothing left, unless a cap was reached; every session frame is of a session this client opened |
| `ExitWorlds.Collect` | internal/exit/exit.go:729-743 | gcDoneSessions session by session, with anything that needs no table mutex around each IsDone: all sessions that were done at the start are gone, and what is gone has emitted its whole stream and either cannot receive or sent its FIN more than 30 s ago; the world is kept |
| `ExitWorlds.Sweep` | internal/exit/exit.go:763-816 | gcIdleSessions: exactly the sessions active within the timeout stay, the others leave the tables and are then closed and stopped one by one, with anything that needs no server mutex in between |
| `ExitWorlds.Interleave` | internal/exit/exit.go:127-158 | any interleaving of routing calls of any clients with polls, collectors, sweeps, pumps, receive loops and callbacks keeps the world: emitted frames stay, every frame emitted was returned by some poll, and a session stays its client's until it is lost |
| `ExitWorlds.AnyRun` | internal/exit/exit.go:127-158 | in every reachable state the tables are in step, a registered session that owes a frame is marked ready or has a callback on its way, every session object heard from its opener alone, what a call registered is its client's unless it was lost since, and every call that is through ended as `AtEnd` says |
| `ExitBatches.RouteData` | internal/exit/exit.go:319-323 | a data frame changes no registration, draws a reset exactly if its session is another client's, or unknown and the frame is no probe, and joins the inbox of its client's session unless that is closed, stopped or full |
| `ExitBatches.RouteBatch` | internal/exit/exit.go:303-324 | SYNs first, then the other frames, with anything else in between: every call ends as `AtEnd` says; a data frame draws a reset exactly if its look found another client's session, or none and the frame is no probe; so none is drawn for a session whose SYN came in the same batch, was dialled, and that was not lost since |
| `ExitHandler.Round` | internal/exit/exit.go:352-372 | one more drain of the response loop, after and during anything else: what it returns is all that it took out of the sessions, the budget is exceeded by less than one session's drain, and all session frames so far are of sessions of this client |
| `ExitHandler.Respond` | internal/exit/exit.go:335-372 | over all rounds of one response, whatever runs between and during them: the response is all that its own drains took out of the sessions, in order, and all that anything else took is in another answer; session payload stays below 22 MiB plus one session's drain; every session frame is of a session this client opened; an urgent or small first drain is answered at once, any other response goes on for all its rounds or until its budget is used up |
| `ExitLedgers.BalancedOn` | internal/exit/exit.go:352-372 | accounts of what polls took out of the sessions add up over consecutive stretches of a run |
| `ExitHandler.DrainEmpties` | internal/exit/exit.go:684-725 | a drain takes away exactly the frames it returns, and returns none only if the client is owed none |
| `ExitHandler.Flush` | internal/exit/exit.go:333-400 | with no new data, polling ends with the client's sessions and queues empty, after exactly the frames they owed |
| `SessionTables.FinEmittedAll` | internal/session/session.go:228-239 | a session object that sent its FIN has emitted its stream and owes nothing |
| `SessionTables.PendingShrinks` | internal/session/session.go:250-252 | a capped drain leaves exactly the rest of the owed frames |
| `CarrierDrain.PackSound` | internal/carrier/client.go:826-895 | every request drains a session at most once, none already in flight, one to eight frames each, in order, within the frame cap, and strands nobody |
| `CarrierDrain.SynsFirst` | internal/carrier/client.go:883-892 | if a ready session with an unsent SYN is left out, the request is full and holds only sessions with unsent SYNs |
| `CarrierDrain.PassInOrder` | internal/carrier/client.go:850-892 | within a pass a session is served only after every eligible one queued before it got its full share |
| `CarrierDrain.PassTakes` | internal/carrier/client.go:854-881 | an eligible session that owes something is taken unless the request is full |
| `CarrierDrain.PollStarts` | internal/carrier/client.go:878-879 | a starting poll adds its sessions to those in flight; outstanding polls stay disjoint and cover exactly what is in flight |
| `CarrierDrain.PollEnds` | internal/carrier/client.go:897-901 | an ending poll takes exactly its own sessions out of the air |
| `Carrier.Client.NewSession` | internal/carrier/client.go:314-333 | the new session is registered and marked ready; the invariant does not depend on its identifier being new |
| `Carrier.Client.Write` | internal/socks/conn.go:70-77 | a connection write on any session object keeps the invariant |
| `Carrier.Client.OnTx` | internal/carrier/client.go:322-326 | the callback marks the session ready |
| `Carrier.Client.Drain` | internal/carrier/client.go:854-882 | one call of the closure is the specified turn |
| `Carrier.Client.DrainAll` | internal/carrier/client.go:826-895 | the request is the specified packing of the state it starts from, and its poll holds what it drained |
| `Carrier.Client.StartPoll` | internal/carrier/client.go:470-474 | the poll sends exactly the frames that every session emitted, in order; they belong to the sessions it drained, none of which any other poll holds; the frame cap holds |
| `Carrier.Client.ReleaseInFlight` | internal/carrier/client.go:897-908 | exactly the poll's sessions leave the air, and exactly those with something left become ready |
| `Carrier.Client.GcDoneSessions` | internal/carrier/client.go:947-961 | removes exactly the sessions whose FIN is out and that cannot receive, or sent it more than 30 s ago: no other loses what it could still receive, and each has emitted its whole stream |
| `Carrier.Client.Remove` | internal/carrier/client.go:931-934 | taking a session out of the table keeps the invariant even while a poll holds it |
| `CarrierRouting.Reply.Look` | internal/carrier/client.go:910-930 | an unknown session drops the frame, a reset starts the teardown, any other frame is handed over |
| `CarrierRouting.Reply.TearDown` | internal/carrier/client.go:910-945 | a reset closes its session for reading, then requests its close, and after the removal stops it |
| `CarrierRouting.Reply.StepAside` | internal/carrier/client.go:910-945 | the steps of a reply that need no client mutex, ProcessRx and the teardown included, keep the client invariant and lose no frame |
| `CarrierRouting.Reply.Advance` | internal/carrier/client.go:910-945 | so does every step of a reply; a frame that was handed over is in the inbox of its session, or that session is closed for reading or stopped |
| `CarrierPolls.Pack.Choose` | internal/carrier/client.go:854-872 | the head of the closure: a session is skipped exactly if no slot is left, it is in flight, or a SYN pass finds its SYN sent |
| `CarrierPolls.Pack.DrainChosen` | internal/carrier/client.go:869-873 | one DrainTxLimited call of drainAll, under the caps |
| `CarrierPolls.Pack.Book` | internal/carrier/client.go:874-881 | the bookkeeping that follows holds also if the session was written to in between; the poll holds each session once |
| `CarrierRouting.Begin` | internal/carrier/client.go:826-895 | drainAll step by step, with writes, closes, receive loops and replies between any two steps: the request holds exactly what every session object emitted meanwhile, in order; the cap holds, no session is drained twice or is in another poll; unless the request is full every ready session is in flight or has nothing left |
| `CarrierRouting.End` | internal/carrier/client.go:897-908 | releaseInFlight session by session, with writes, receive loops and replies between HasPendingTx and the bookkeeping: nobody is stranded and the polls left stay disjoint |
| `CarrierRouting.Collect` | internal/carrier/client.go:947-961 | the same on the client |
| `CarrierRouting.DialledOnce` | internal/carrier/client.go:314-333 | if a client's sessions under an identifier are one object, whatever requests carried of it is reassembled on the server to a prefix of that session's stream |
| `CarrierRouting.AnyRun` | internal/carrier/client.go:419-474 | in every reachable interleaving a registered session that owes a frame is ready, in flight or has a callback on its way, outstanding polls are disjoint and make up what is in flight, and every reply that is through handed its frame over, or tore its session down if it was a reset |
| `Endpoints.TtlMonotone` | internal/carrier/client.go:809-824 | blacklist times never decrease with the failure count, start at 3 s and never exceed an hour |
| `Endpoints.TtlSteps` | internal/carrier/client.go:809-824 | the times are 3, 6, 12, 24 and 48 s, five minutes, half an hour, and then an hour |
| `Endpoints.BackoffGrows` | internal/carrier/client.go:778-797 | along any run of failures blacklist times never shrink, and reach the hour after eight |
| `Endpoints.TurnRotates` | internal/carrier/client.go:705-713 | the endpoint picked moves to the end of the order of the next search |
| `Endpoints.Rotation` | internal/carrier/client.go:705-713 | while the healthy set is unchanged, as many picks as it has members visit each exactly once |
| `Endpoints.Relays.PickRound` | internal/carrier/client.go:696-745 | so do as many calls of the pick in a row, at times with the same healthy set, with successes marked in between |
| `Endpoints.BlacklistedIsSkipped` | internal/carrier/client.go:708-711 | a blacklisted endpoint is not picked while any other is healthy |
| `Endpoints.PickMeans` | internal/carrier/client.go:696-727 | the pick is the first healthy endpoint going round from the last one picked, and with none healthy the one that comes back first |
| `Endpoints.Relays.Pick` | internal/carrier/client.go:696-727 | the first healthy endpoint of the rotation, or else the one whose blacklist ends first |
| `Endpoints.Relays.MarkSuccess` | internal/carrier/client.go:729-745 | a success clears failures and blacklist; an index out of range changes nothing |
| `Endpoints.Relays.MarkFailureWith` | internal/carrier/client.go:778-794 | a failure counts from its floor and blacklists for the time of its count; an index out of range changes nothing |
| `Endpoints.MarkedTreats` | internal/carrier/client.go:729-797 | outcome by outcome: clean after a reply or an empty answer; out for five minutes after a 403 or a hard error page, for 24 s after a 429, for 3 s after any other failure, and at least that whatever came before |
| `Endpoints.Relays.PollOnce` | internal/carrier/client.go:524-669 | the body of a poll is posted a second time exactly if there is more than one endpoint and the first answer was none of reply, empty, or cancelled, and then elsewhere if another endpoint is healthy; each endpoint is left as its last answer deserves, all others as they were; the poll reports work exactly as its last outcome says |
| `Coalescer.StepInv` | internal/carrier/client.go:989-1026 | every kick, timer expiry, firing and broadcast, in any order, keeps a broadcast coming for every waiting kick |
| `Coalescer.KicksAreNotLost` | internal/carrier/client.go:989-1026 | in every timed run a waiting kick has a running goroutine, or its burst's timer armed for at most max after the burst began |
| `Coalescer.NeverPastDeadline` | internal/carrier/client.go:1007-1017 | the timer of the current burst never stands past the burst's deadline |
| `Coalescer.TimelyIff` | internal/carrier/client.go:989-1026 | every timed run keeps its timers within their deadlines and its kicks covered if and only if step is at most max |
| `Coalescer.LoadedIsTimely` | internal/config/client.go:390-393 | so it does with what the configuration loader sets |
| `Coalescer.ResetRacesFire` | internal/carrier/client.go:1021-1026 | a timer reset after it fired wakes a later burst, early and not late |
| `Coalescer.Kicker.Kick` | internal/carrier/client.go:989-1018 | the method is the specified step |
| `Coalescer.Kicker.FireCoalesceWake` | internal/carrier/client.go:1021-1026 | the locked part of the wake is the specified step |

## Left out

- AES-GCM, zstd and DEFLATE internals, and the buffer pools: sealing and compression are abstract functions with inverse laws.
- Slice aliasing: payloads are values. In particular the append to the caller's own slice in internal/session/session.go:163 is a value concatenation here.
- HTTP, TLS, fronting, DNS, dialling, the SOCKS5 library, upstream sockets and Apps Script: a dial, a read or a response is an arbitrary outcome.
- Configuration parsing, diagnosis, error-page classification, statistics, quotas and logging: they would only add easy members.
- Idle poll slots, worker back-off and the choice of HTTP client: they bound how often polls run, and no modelled property depends on them.
- Lost wake-ups: the program does not rule them out. The collector may delete a channel a handler waits on, and a worker captures its wake channel after its poll, so no claim is made that a waiting handler is woken.
- Eventual delivery: frames of a poll that fails on every attempt, or of a response whose request is cancelled, are not sent again, so only the prefix property is claimed, and completeness under the condition that every emitted frame was taken in.
- A bound on the frames of a whole response: only each drain is capped, and queued resets and control frames are outside every cap.
- Wrap-around of sequence numbers: numbers are unbounded, and encoding asks for numbers below 2^64.
- EndToEnd.ReaderSeesPrefix: has one sender to a link; that several sessions under one identifier break it, and when they do not, is in `ExitReopens` and `SharedNumbers`. Runs in which a reset is taken in the place of frame 0 are those of `EndToEnd.EarlyResetLoses`.
- EndToEnd.ReaderSeesAll: does not claim that frames arrive, and says nothing of runs in which CloseRx or Stop cut a delivery short.
- Sessions.Session.EnqueueTx: does not wait; a blocked attempt is answered with `Blocked` and is made again later.
- Sessions.Session.OfferRx: does not model the five seconds of waiting on a full inbox; when they end is an arbitrary choice between room and stopping. `RxChannel.Arrive` is this send without the check before it, so that module allows more runs than the program has.
- VirtualConns.VirtualConn.Read: does not model two readers at once, which the program does not keep apart between its two critical sections.
- ExitBatches.RouteBatch: says which calls queue a reset, not what the client's queue then holds, since polls of the same client may empty it at any time; `ExitBatches.RouteData` has the queue for one frame with nothing in between.
- ExitWorlds.Poll: takes the snapshot of queue ages in one step, though the program reads them session by session; the order is arbitrary among equals, and no bound depends on it.
- Sessions.Session.RxStep: marks a session whose rxLoop sent on a closed channel and stops that rxLoop; the program ends there, while other goroutines of the model go on.
- ExitHandler.Flush: does not model the wait between polls.
- Endpoints.Relays.PollOnce: does not interleave other workers between its two attempts.
- Coalescer.KicksAreNotLost: does not bound how long a started goroutine waits for the lock.
