# NDN protocol machinery: a Dafny model and its proofs

The Android port of the NDN forwarding daemon ships the client library ndn-cxx and a few
components of its own. This project models the parts of that code that hold state or encode
packets, in the order of how much depends on them, and proves what their documentation and
comments promise. `dafny verify dfyconfig.toml` checks everything.

| file | models |
|---|---|
| `tlv.dfy` | VAR-NUMBERs and non-negative integers of the NDN Packet Format Specification, sections "Variable Size Encoding for type (T) and length (L)" and "Non-Negative Integer Encoding"; blocks; the stream readers |
| `framing.dfy`, `transport_link.dfy`, `stream_transport.dfy` | the stream transport: reassembly in one 8800-byte buffer, connection state, and the send queue with its single writer |
| `face_model.dfy`, `face_properties.dfy`, `face_passes.dfy`, `face.dfy` | the client Face: pending Interests with timers and callbacks, registered prefixes, posted tasks, on top of the transport's link |
| `signal.dfy` | `Signal`: emission over a list that handlers change |
| `dispatcher_model.dfy`, `dispatcher_properties.dfy`, `dispatcher_registrations.dfy`, `dispatcher_history.dfy`, `dispatcher.dfy` | the management Dispatcher, its posted Face operations, its prefix registrations and its notification streams |
| `encoder.dfy` | the two-ended encoder, the estimator, and the helpers that build plain and nested blocks |
| `lp_packet.dfy` | the ordered field list of an NDNLPv2 packet |
| `opp_queue.dfy`, `jni_channels.dfy` | the opportunistic transport's send queue and the Java channel references behind it |
| `logging.dfy`, `logger_factory.dfy` | the two tables of logger levels |

Code that updates fields in place is modelled as a class whose methods and loops are proved
against functions on an immutable view of the state; the properties are then proved about
those functions, mostly for every run of every sequence of events. What the functions do is
also said a second time, from outside: the state after any run is computed from the events and
the inputs alone, by a definition that shares nothing with the step functions
(`TransportLink.HistoryTells`, `DispatcherHistory.HistoryTells`, `OppQueue.HistoryTells`,
`JniChannels.FacesAreSeparate`, `LpPacket.BuiltPacketGivesBack`, `FacePasses.DataPass` and
`FacePasses.NackPass`, `Signal.ConnectedExactly` with `Signal.EmittedNew`). Sockets, the event loop
and Java are an environment: which events it may produce is written down in predicates named
`Enabled`, `Possible` or `FaceEnabled`.

## What the proofs found

Most promises hold as documented. These hold under a condition, which is stated exactly:

- A `pause()` that takes effect while a write is outstanding cancels the write, and the
  cancelled write returns without starting the next one. From then on the transport accepts
  and never sends until it is closed. This is the only step with that effect
  (`StallsExactlyByPauseDuringWrite`, `PauseLosesTheWriter`), and the Face's own check takes
  it exactly when both tables are empty during a write (`FaceStallsExactly`,
  `CheckStallsWriter`).
- Operations that a pause or a close cancels may report that it was too late. Exactly four kinds
  of step break the rule of one read, one write and one connect at a time
  (`TransportLink.StepKeepsInv`); a late read goes on reading while the transport is paused
  (`LateReadDoublesReads`). The Face posts its pauses so that a callback cannot pause and
  resume under a read handler, but a resume is not posted: if a read that a pause
  cancelled reports a packet after all and a callback for it sends something, the transport
  resumes under the handler, which is undefined. It happens exactly when such a packet and
  such a callback meet a connected transport that is not receiving
  (`StepFaultsExactly`, `LateInterestFaults`).
- A top prefix that is removed before the response to its registration stays registered for
  good, because the request to unregister finds nothing to undo
  (`RemovedStaysRegisteredExactly`, `LateGrantStaysRegistered`).
- Two requests to unregister one prefix end in the erasure of a record that is gone
  (`UnregisterTwiceRuns`). The Dispatcher never makes two (`RunKeepsRegistrations`).
- A delivery pass visits Interests that callbacks express, except those expressed by the
  callback of the entry that was last: an Interest expressed again from there waits although
  the Data at hand satisfies it (`PassLeavesNoMatch`).
- A signal handler that disconnects itself and then throws leaves a slot nobody can
  disconnect, and a single-shot handler that throws runs again (`SelfDisconnectNeedsReturn`,
  `SingleShotNeedsReturn`).
- `sizeOfNonNegativeInteger` promises the bytes necessary; it gives two instead of one for
  253, 254 and 255 (`NonNegativeIntegerShortest`).
- `Packet::add` accepts an empty fragment, after which `get` and `list` throw
  (`AddExtendsList`).
- Removing the packet in flight by nonce, bringing the link up before the last report, or
  reporting a success that answers no transmission makes the opportunistic queue drop packets that were not transmitted
  (`RemovalDropsNextPacket`, `ResendDropsNextPacket`), or pop an empty queue
  (`RemovalPopsNothing`); a failed transmission stops it until the link comes up again
  (`StopsExactly`).
- Destroying a face that is up leaks its reference to the Java channel (`ApplyKeepsSafe`).
- A dry run of the logging section raises an error exactly when the real run does, but it may
  be a different one (`DifferentErrors`). A malformed logging string takes effect up to its
  malformed piece (`SetLevelConfig`).

Where code and documentation disagree the model follows the code: overlapping top-level
prefixes raise `out_of_range` (`app/src/main/jni/android/ndn-cxx/mgmt/dispatcher.cpp:83-85`),
not the `domain_error` of the procedure in
`app/src/main/jni/android/ndn-cxx/mgmt/dispatcher.hpp:162-163`.

## Model

| member | source | states |
|---|---|---|
| Tlv.VarNumberRoundTrip | app/src/main/jni/include/ndn-cxx/encoding/tlv.hpp:244-287 | for every 64-bit number, reading what was written, with any bytes after it, returns the number and consumes exactly `sizeOfVarNumber` bytes |
| Tlv.VarNumberPrefixFree | app/src/main/jni/include/ndn-cxx/encoding/tlv.hpp:407-432 | an encoding that is a prefix of another is that encoding: the two numbers are equal |
| Tlv.VarNumberShortest | app/src/main/jni/include/ndn-cxx/encoding/tlv.hpp:390-405 | every accepted encoding of a number is at least as long as the one written, and equally long exactly when it is the one written |
| Tlv.ReadVarNumberStable | app/src/main/jni/include/ndn-cxx/encoding/tlv.hpp:244-287 | bytes that arrive later do not change a number already read; if reading fails and later succeeds, the encoding reaches beyond what was there |
| Tlv.ReadVarNumberFromStream | app/src/main/jni/include/ndn-cxx/encoding/tlv.hpp:319-375 | the shift-and-or loops over a stream accept the same inputs as the pointer form and give the same value and length; on failure the stream is at its end |
| Tlv.ReadNonNegativeIntegerFromStream | app/src/main/jni/include/ndn-cxx/encoding/tlv.hpp:479-542 | the stream form gives the same value, length or error as the pointer form, for every length and input |
| Tlv.ShiftInOctets | app/src/main/jni/include/ndn-cxx/encoding/tlv.hpp:338-342 | the loop reads as many octets as it wants or as there are, and its value is their big-endian number |
| Tlv.ShiftInOctet | app/src/main/jni/include/ndn-cxx/encoding/tlv.hpp:340 | on a 64-bit register shifting left by 8 and or-ing an octet in is 256 v + b, bit by bit, as long as v fits 56 bits |
| Tlv.BigEndianRoundTrip | app/src/main/jni/include/ndn-cxx/encoding/tlv.hpp:416-429 | writing k octets in big-endian order and reading them back is the identity on numbers of k octets |
| Tlv.NonNegativeIntegerRoundTrip | app/src/main/jni/include/ndn-cxx/encoding/tlv.hpp:562-584 | reading at the length `sizeOfNonNegativeInteger` gives back the number that was written, whatever follows |
| Tlv.NonNegativeIntegerShortest | app/src/main/jni/include/ndn-cxx/encoding/tlv.hpp:544-559 | the length is the smallest allowed one if and only if the number is not 253, 254 or 255 |
| Tlv.FromBuffer | app/src/main/jni/include/ndn-cxx/encoding/block.hpp:150-161 | a block that is found is a non-empty prefix of the buffer of at least two bytes |
| Tlv.BlockRoundTrip | app/src/main/jni/include/ndn-cxx/encoding/block.hpp:150-161 | decoding an encoded block followed by any bytes gives its type, value and wire form |
| Tlv.FromBufferStable | app/src/main/jni/include/ndn-cxx/encoding/block.hpp:150-161 | more bytes never change a block already found; a block found only with more bytes is longer than what was there |
| Framing.ParseAllConserves | app/src/main/jni/include/ndn-cxx/transport/stream-transport-impl.hpp:250-264 | the elements delivered and the unparsed rest are the input, byte for byte, and no element starts the rest |
| Framing.ParseAllResumes | app/src/main/jni/include/ndn-cxx/transport/stream-transport-impl.hpp:250-264 | parsing, then parsing the rest with more bytes behind it, is parsing everything at once |
| Framing.OnBytesFollowsFrame | app/src/main/jni/include/ndn-cxx/transport/stream-transport-impl.hpp:212-248 | one receive completion takes the receiver from the state for the bytes so far to the state for those and the new ones |
| Framing.ChunkingIndependence | app/src/main/jni/include/ndn-cxx/transport/stream-transport-impl.hpp:212-264 | for every stream and every split into reads that fit the room offered, buffer, delivered elements and failure depend on the bytes alone |
| Framing.DeliversMaximalParse | app/src/main/jni/include/ndn-cxx/transport/stream-transport-impl.hpp:212-264 | without a failure the delivered elements are the maximal parse of all bytes received, the buffer is exactly the unparsed rest, nothing is lost, and less than 8800 bytes are kept |
| Framing.ResumedStream | app/src/main/jni/include/ndn-cxx/transport/stream-transport-impl.hpp:97-108 | after a resume, whatever was delivered before: the same for the bytes received since, with the same condition for failure |
| Framing.FrameIsMaximalParse | app/src/main/jni/include/ndn-cxx/transport/stream-transport-impl.hpp:212-264 | the receiver that sees only 8800 bytes at a time agrees with a parser that sees the whole stream |
| Framing.FailsExactlyWhenStuck | app/src/main/jni/include/ndn-cxx/transport/stream-transport-impl.hpp:230-235 | the transport fails if and only if the 8800 bytes after some element boundary hold no complete element |
| Framing.FrameLeavesRoom | app/src/main/jni/include/ndn-cxx/transport/stream-transport-impl.hpp:204-210 | the buffer never exceeds 8800 bytes and is full only after a failure: each read is offered some room |
| Framing.SentElementsArrive | app/src/main/jni/include/ndn-cxx/transport/stream-transport-impl.hpp:212-264 | elements of at most 8800 bytes each, written one after the other and cut into any reads, arrive as exactly that list with an empty buffer |
| TransportLink.StepKeepsInv | app/src/main/jni/include/ndn-cxx/transport/stream-transport-impl.hpp:54-248 | with the invariant "completed plus queued is what was accepted since the last close, an outstanding write is on the front, one read is outstanding exactly while receiving and one connect exactly while connecting, nothing undefined happened": a step breaks it if and only if it connects a connected transport or is one of three late reports of success of a cancelled operation |
| TransportLink.RunKeepsInv | app/src/main/jni/include/ndn-cxx/transport/stream-transport-impl.hpp:54-248 | the invariant holds over every run without such a step, with cancelled operations reporting at any later time |
| TransportLink.LateReadDoublesReads | app/src/main/jni/include/ndn-cxx/transport/stream-transport-impl.hpp:212-248 | a read that reports success after the pause that cancelled it goes on reading while the transport is paused, and the next resume makes two reads on one buffer, which is counted as a fault |
| TransportLink.LateWriteFaults | app/src/main/jni/include/ndn-cxx/transport/stream-transport-impl.hpp:70-83 | a run from a fresh transport: a write reports success after the close that cancelled it, on the next connection, and erases a queue item that is gone |
| TransportLink.LateConnectFaults | app/src/main/jni/include/ndn-cxx/transport/stream-transport-impl.hpp:128-140 | a run: a connect reports success after the close that cancelled it, during the next attempt, whose success then starts a second write |
| TransportLink.FaultsExactly | app/src/main/jni/include/ndn-cxx/transport/stream-transport-impl.hpp:85-248 | from any state, which steps start a read or a write beside another, or erase an item that is gone |
| TransportLink.SingleWriter | app/src/main/jni/include/ndn-cxx/transport/stream-transport-impl.hpp:159-202 | on such runs without a pause during a write, a connected transport has one write outstanding exactly when the queue is not empty, and completed writes are a prefix of the accepted ones |
| TransportLink.StallsExactlyByPauseDuringWrite | app/src/main/jni/include/ndn-cxx/transport/stream-transport-impl.hpp:85-95 | a step leaves accepted sequences waiting without a writer if and only if it is an effective `pause` while a write is outstanding |
| TransportLink.DeadUntilClosed | app/src/main/jni/include/ndn-cxx/transport/stream-transport-impl.hpp:159-187 | once a cancelled write has reported, nothing completes another write short of a close, or of a connect from before the last close that succeeds now |
| TransportLink.PauseLosesTheWriter | app/src/main/jni/include/ndn-cxx/transport/stream-transport-impl.hpp:180-187 | from every state with a write outstanding: pause, cancellation, resume, send leads to a connected, receiving transport that never writes what it accepts |
| TransportLink.WriterStartsOnConnect | app/src/main/jni/include/ndn-cxx/transport/stream-transport-impl.hpp:128-140 | sending while connecting leads to such a state |
| TransportLink.WriteTakesFront | app/src/main/jni/include/ndn-cxx/transport/stream-transport-impl.hpp:189-202 | a write that succeeds takes the front item off the queue and completes it: nothing else changes among the items accepted |
| TransportLink.HistoryTells | app/src/main/jni/include/ndn-cxx/transport/stream-transport-impl.hpp:54-202 | over every undisturbed run of a fresh transport, from the events alone: the sequences accepted are those sent since the last close, the first ones of them are completed, one for each success, the queue is the rest in order, and after as many successes as sends everything is completed and the queue is empty; and whether it is connecting, connected and receiving |
| TransportLink.ConnectsReportOnce | app/src/main/jni/include/ndn-cxx/transport/stream-transport-impl.hpp:54-157 | each connect that was started reports once, whatever closes and errors come between |
| TransportLink.WritesReportOnce | app/src/main/jni/include/ndn-cxx/transport/stream-transport-impl.hpp:70-202 | closes, pauses and errors forget no write; one that was cut off by a close reports once, and one that fails does not report again |
| TransportLink.ReadsReportOnce | app/src/main/jni/include/ndn-cxx/transport/stream-transport-impl.hpp:70-248 | the same for reads, and one that succeeds starts the next |
| TransportLink.ErasesSlot | app/src/main/jni/include/ndn-cxx/transport/stream-transport-impl.hpp:197 | the item of the write is erased, wherever it is, and the others stay in order |
| TransportLink.CancelledStillReport | app/src/main/jni/include/ndn-cxx/transport/stream-transport-impl.hpp:70-95 | close and pause forget no operation that was outstanding |
| StreamTransport.Transport.constructor | app/src/main/jni/include/ndn-cxx/transport/stream-transport-impl.hpp:45-52 | a fresh transport is in the initial link and receiver states |
| StreamTransport.Transport.Connect | app/src/main/jni/include/ndn-cxx/transport/stream-transport-impl.hpp:54-68 | makes the link step from any state; on a connected transport opening the socket throws |
| StreamTransport.Transport.Close | app/src/main/jni/include/ndn-cxx/transport/stream-transport-impl.hpp:70-83 | from any state, also within an operation: the link is reset, whatever was outstanding is still to report, the bytes and the deliveries stay |
| StreamTransport.Transport.Pause | app/src/main/jni/include/ndn-cxx/transport/stream-transport-impl.hpp:85-95 | makes the link step: the outstanding read and write are cancelled and still to report; the receiver stays |
| StreamTransport.Transport.Resume | app/src/main/jni/include/ndn-cxx/transport/stream-transport-impl.hpp:97-108 | makes the link step; the buffer is emptied exactly when receiving starts |
| StreamTransport.Transport.AsyncReceive | app/src/main/jni/include/ndn-cxx/transport/stream-transport-impl.hpp:204-210 | a read is outstanding; starting one beside another is counted as a fault |
| StreamTransport.Transport.Send | app/src/main/jni/include/ndn-cxx/transport/stream-transport-impl.hpp:159-170 | makes the link step and keeps the receiver |
| StreamTransport.Transport.AsyncWrite | app/src/main/jni/include/ndn-cxx/transport/stream-transport-impl.hpp:172-178 | the front of the queue is being written; starting a write beside another is counted as a fault |
| StreamTransport.Transport.ConnectHandler | app/src/main/jni/include/ndn-cxx/transport/stream-transport-impl.hpp:128-147 | makes the link step for a connect of this connection or one from before the last close, and throws exactly when it failed |
| StreamTransport.Transport.ConnectTimeoutHandler | app/src/main/jni/include/ndn-cxx/transport/stream-transport-impl.hpp:149-157 | closes and throws, unless the timer was cancelled |
| StreamTransport.Transport.HandleAsyncWrite | app/src/main/jni/include/ndn-cxx/transport/stream-transport-impl.hpp:180-202 | makes the link step for each outcome of a write of this connection or one from before the last close, and throws exactly on an error other than cancellation; that a success takes the front item off the queue is `WriteTakesFront` |
| StreamTransport.Transport.HandleAsyncReceive | app/src/main/jni/include/ndn-cxx/transport/stream-transport-impl.hpp:212-248 | for any read, cancelled or not, with any byte count and callbacks that may resume: unless the bytes exceed the buffer or a callback resumes the transport, which is counted as an overrun, the array-based handler does to the buffer and the deliveries what the receiver function does, throws exactly on its failure or an error, closes then, and else starts the next read |
| StreamTransport.Transport.TakeIn | app/src/main/jni/include/ndn-cxx/transport/stream-transport-impl.hpp:225-245 | counting, delivering and compacting keep the buffer within bounds and leave room for the next read unless it is stuck; exactly the two cases of an overrun are counted |
| StreamTransport.Transport.Receive | app/src/main/jni/include/ndn-cxx/transport/stream-transport-impl.hpp:204-248 | a read that was not cancelled and got at most the room offered keeps the transport valid and never overruns, also if a callback resumes |
| StreamTransport.Transport.ProcessAllReceived | app/src/main/jni/include/ndn-cxx/transport/stream-transport-impl.hpp:250-264 | the loop delivers the maximal parse of the bytes, returns its length, and says whether that was everything |
| StreamTransport.Transport.MoveToFront | app/src/main/jni/include/ndn-cxx/transport/stream-transport-impl.hpp:237-245 | the overlapping forward copy within the one array preserves the unparsed tail byte for byte |
| StreamTransport.Transport.DropProcessed | app/src/main/jni/include/ndn-cxx/transport/stream-transport-impl.hpp:237-245 | in each of its three cases the buffer afterwards holds exactly the unparsed bytes |
| StreamTransport.Transport.Store | app/src/main/jni/include/ndn-cxx/transport/stream-transport-impl.hpp:204-210 | what the socket writes behind the used part extends it by the received bytes |
| FaceModel.PlayAppends | app/src/main/jni/include/ndn-cxx/detail/face-impl.hpp:77-105 | whatever a callback does, the pending-Interest table is only appended to, with ids not used before, and nothing is settled |
| FaceModel.DeliverToShape | app/src/main/jni/include/ndn-cxx/detail/face-impl.hpp:123-127 | one delivery erases its entry, appends what the callback expresses, settles that entry and invokes at most that callback |
| FaceModel.DeliverToShrinks | app/src/main/jni/include/ndn-cxx/detail/face-impl.hpp:119-132 | the delivery loop terminates although callbacks append to the list it walks |
| FaceProperties.FaceStepKeepsInv | app/src/main/jni/include/ndn-cxx/detail/face-impl.hpp:76-292 | every operation, packet, timer, posted task and report of the socket, however late, keeps the accounting of Interests, timers and callbacks and the listening condition |
| FaceProperties.FaceRunKeepsInv | app/src/main/jni/include/ndn-cxx/detail/face-impl.hpp:76-292 | the same over every run |
| FaceProperties.AtMostOneOutcome | app/src/main/jni/include/ndn-cxx/detail/pending-interest.hpp:50-66 | over any run at most one callback of each Interest is invoked, each Interest is pending or settled but not both, and the live timers are exactly those of the pending ones |
| FaceProperties.TimeoutKeeps | app/src/main/jni/include/ndn-cxx/detail/pending-interest.hpp:114-123 | a timeout whose callback expresses, removes or answers anything still erases exactly its own entry |
| FaceProperties.KeepsListening | app/src/main/jni/include/ndn-cxx/detail/face-impl.hpp:58-105 | after any run, unless the transport was closed and nothing sent since, if an Interest is pending or a prefix registered then the transport is receiving with a read outstanding, or connecting with something queued that will make it resume |
| FaceProperties.StepFaultsExactly | app/src/main/jni/include/ndn-cxx/detail/face-impl.hpp:64-70 | how many undefined steps an event causes, computed from it, the tables and the link: each unregistration finalised without its record, and one if a packet arrives on a connected transport that is not receiving and some callback for it sends |
| FaceProperties.RunFaultsExactly | app/src/main/jni/include/ndn-cxx/detail/face-impl.hpp:64-70 | a run is free of them if and only if no event of it causes one |
| FaceProperties.PassFooting | app/src/main/jni/include/ndn-cxx/detail/face-impl.hpp:119-148 | what a delivery pass does to the link, the registered prefixes and the posted tasks is what the actions of its callbacks do in order, found from the Interests of the table alone |
| FacePasses.DataPass | app/src/main/jni/include/ndn-cxx/detail/face-impl.hpp:119-132 | Data settle as satisfied the Interests they reach, invoke the Data callbacks these have, do to the link, the registered prefixes and the posted tasks what the scripts in their `onData` fields do, in that order, cancel their timers, and leave the table that is computed entry by entry from the one before |
| FacePasses.NackPass | app/src/main/jni/include/ndn-cxx/detail/face-impl.hpp:134-148 | a Nack does the same with the fate and the `onNack` fields |
| FacePasses.PassTable | app/src/main/jni/include/ndn-cxx/detail/face-impl.hpp:119-148 | the table after a pass, entry by entry and with the new identities: those that do not match, then what the callbacks expressed and the pass did not reach |
| FacePasses.PassReaches | app/src/main/jni/include/ndn-cxx/detail/face-impl.hpp:119-148 | whom a pass reaches and in which order, from the table alone |
| FacePasses.TimesOut | app/src/main/jni/include/ndn-cxx/detail/pending-interest.hpp:114-123 | a timeout runs the script in the `onTimeout` field, takes exactly its own entry and keeps the others in order |
| FacePasses.RemovesOne | app/src/main/jni/include/ndn-cxx/detail/face-impl.hpp:107-111 | removal takes exactly the entry with this id and its timer, keeps the others in order, runs no callback, and posts the check exactly if the table is empty then |
| FacePasses.RemovesFrom | app/src/main/jni/include/ndn-cxx/detail/face-impl.hpp:113-117 | removal of all settles every entry in order, cancels their timers and touches nothing else |
| FacePasses.RecordsPrefixes | app/src/main/jni/include/ndn-cxx/detail/face-impl.hpp:209-268 | a granted registration adds one record of the prefix, and a successful unregistration takes one away, and no other, and posts the check exactly if it was the last |
| FacePasses.ErasedRest | app/src/main/jni/include/ndn-cxx/detail/container-with-on-empty-signal.hpp:65-73 | erasing an entry leaves the others in order and posts the check exactly if it was the last |
| FacePasses.UnregistersKnown | app/src/main/jni/include/ndn-cxx/detail/face-impl.hpp:225-257 | a request to unregister expresses its command exactly if the prefix is in the table |
| FacePasses.HandsOver | app/src/main/jni/include/ndn-cxx/detail/face-impl.hpp:77-105 | expressing an Interest and putting a packet hand exactly one sequence to the transport, behind those before |
| FacePasses.OldestFirst | app/src/main/jni/include/ndn-cxx/detail/face-impl.hpp:64-70 | posted tasks run in order, and each does to the table what it is for |
| FaceProperties.ActionsResume | app/src/main/jni/include/ndn-cxx/detail/face-impl.hpp:271-281 | callbacks leave the transport receiving if and only if it was, or it was connected and not connecting and one of them expresses or puts something |
| FaceProperties.LateInterestFaults | app/src/main/jni/include/ndn-cxx/detail/face-impl.hpp:271-292 | a run from a fresh Face: the read that the pause check has cancelled reports an Interest, and its callback puts a packet, which empties the buffer under the handler |
| FaceProperties.PauseCheckStalls | app/src/main/jni/include/ndn-cxx/detail/face-impl.hpp:283-292 | the posted check stalls the send queue if and only if both tables are empty and a write is outstanding on a receiving transport |
| FaceProperties.FaceStallsExactly | app/src/main/jni/include/ndn-cxx/detail/face-impl.hpp:283-292 | undisturbed by such late reports, a step of the Face leaves its accepted packets without a writer if and only if it is the pause check running with both tables empty during a write |
| FaceProperties.FaceKeepsWriter | app/src/main/jni/include/ndn-cxx/detail/face-impl.hpp:77-292 | over every Face run without such a check, and without late successes, one write is outstanding exactly when the queue of the connected transport is not empty |
| FaceProperties.CheckStallsWriter | app/src/main/jni/include/ndn-cxx/detail/face-impl.hpp:113-117 | such a run from a fresh Face: put, connected, remove all pending Interests, and the two posted tasks |
| FaceProperties.EmptyingPostsCheck | app/src/main/jni/include/ndn-cxx/detail/container-with-on-empty-signal.hpp:65-95 | whichever event takes away the last pending Interest or registered prefix, the pause check has been posted |
| FaceProperties.IdleFacePauses | app/src/main/jni/include/ndn-cxx/detail/face-impl.hpp:283-292 | on an idle, established Face no read is outstanding once the posted check has had its turn, apart from cancelled ones still to report |
| FaceProperties.PutListens | app/src/main/jni/include/ndn-cxx/detail/face-impl.hpp:271-281 | after sending anything the transport is listening, whatever its state was |
| FaceProperties.SocketKeepsListening | app/src/main/jni/include/ndn-cxx/transport/stream-transport-impl.hpp:128-140 | no report of the socket, however late, ends listening unless it closes the transport; connecting resumes what was queued |
| FaceProperties.PassKeepsTheRest | app/src/main/jni/include/ndn-cxx/detail/face-impl.hpp:119-132 | a delivery pass keeps the entries that do not match, in order and in front; what follows them was expressed during the pass |
| FaceProperties.PassCallsInOrder | app/src/main/jni/include/ndn-cxx/detail/face-impl.hpp:119-132 | it invokes the callbacks of the entries that match, once each and in table order, before those of entries expressed during the pass |
| FaceProperties.PassLeavesNoMatch | app/src/main/jni/include/ndn-cxx/detail/face-impl.hpp:119-148 | a matching entry is left pending if and only if one is expressed by the callback of the Interest that is last when its turn comes, computed from the Interests of the table alone |
| FaceProperties.ReexpressedInterestWaits | app/src/main/jni/include/ndn-cxx/detail/face-impl.hpp:119-132 | such a state: an Interest that its Data callback expresses again stays pending although the Data satisfies it |
| FaceProperties.UnregisterFaultsExactly | app/src/main/jni/include/ndn-cxx/detail/face-impl.hpp:259-268 | the continuation of an unregister command in itself is defined if and only if its record is still in the table |
| FaceProperties.UnregisterTwiceFaults | app/src/main/jni/include/ndn-cxx/detail/face-impl.hpp:225-268 | two requests to unregister one prefix both start a command, and the second response erases a record that is gone |
| FaceProperties.UnregisterTwiceRuns | app/src/main/jni/include/ndn-cxx/detail/face-impl.hpp:209-268 | such a run from a fresh Face, with the registration before it |
| Face.FaceImpl.EnsureConnected | app/src/main/jni/include/ndn-cxx/detail/face-impl.hpp:271-281 | connects if not connected and resumes if wanted and not receiving |
| Face.FaceImpl.AsyncExpressInterest | app/src/main/jni/include/ndn-cxx/detail/face-impl.hpp:77-105 | refines the step that connects, inserts with a timer, and sends |
| Face.FaceImpl.AsyncSend | app/src/main/jni/include/ndn-cxx/detail/face-impl.hpp:178-183 | refines the step that connects, resumes and sends |
| Face.FaceImpl.AsyncRemovePendingInterest | app/src/main/jni/include/ndn-cxx/detail/face-impl.hpp:107-111 | refines removal of the one entry with this id; the check is posted whenever the table is empty afterwards |
| Face.FaceImpl.AsyncRemoveAllPendingInterests | app/src/main/jni/include/ndn-cxx/detail/face-impl.hpp:113-117 | refines removal of all entries with their timers; the check is always posted |
| Face.FaceImpl.SatisfyPendingInterests | app/src/main/jni/include/ndn-cxx/detail/face-impl.hpp:119-132 | the erase-while-iterating loop with callbacks refines the recursive pass |
| Face.FaceImpl.NackPendingInterests | app/src/main/jni/include/ndn-cxx/detail/face-impl.hpp:134-148 | the same for Nacks with the Nack callbacks, which `NackPass` describes by the fields |
| Face.FaceImpl.AsyncRegistered | app/src/main/jni/include/ndn-cxx/detail/face-impl.hpp:209-223 | records the prefix and touches nothing else |
| Face.FaceImpl.AsyncUnregisterPrefix | app/src/main/jni/include/ndn-cxx/detail/face-impl.hpp:225-257 | starts a command exactly when the prefix is registered |
| Face.FaceImpl.FinalizeUnregister | app/src/main/jni/include/ndn-cxx/detail/face-impl.hpp:259-268 | erases the prefix and posts the check when it was the last; a record that is gone is counted as a fault |
| Face.FaceImpl.OnEmptyPitOrNoPrefixes | app/src/main/jni/include/ndn-cxx/detail/face-impl.hpp:283-292 | pauses exactly when both tables are empty |
| Face.FaceImpl.Erase | app/src/main/jni/include/ndn-cxx/detail/container-with-on-empty-signal.hpp:65-73 | erases one entry and posts the check when the table becomes empty |
| Face.FaceImpl.RunCallback | app/src/main/jni/include/ndn-cxx/detail/pending-interest.hpp:81-99 | the loop over what a callback does refines the recursive script |
| Face.FaceImpl.InvokeTimeoutCallback | app/src/main/jni/include/ndn-cxx/detail/pending-interest.hpp:114-123 | callback first, then the deleter: refines the timeout step and keeps the invariant |
| Face.FaceImpl.RunPosted | app/src/main/jni/include/ndn-cxx/detail/face-impl.hpp:64-70 | runs the oldest posted task and keeps the invariant |
| Signal.Signal.Emit | app/src/main/jni/include/ndn-cxx/util/signal-signal.hpp:217-251 | one emission runs exactly the initial handlers in order, or those up to the first that throws, none added meanwhile; leaves the slots the specification gives; and the signal can be emitted again |
| Signal.Signal.RunSlot | app/src/main/jni/include/ndn-cxx/util/signal-signal.hpp:233-243 | one round calls the handler, erases its slot exactly when it returned and disconnected itself, and moves on correctly |
| Signal.Signal.CallHandler | app/src/main/jni/include/ndn-cxx/util/signal-signal.hpp:172-186 | the handler acts; then a single-shot one is disconnected if it returned and has not disconnected itself already, and any other is not; `EmittedKeeps` says who is left without these terms |
| Signal.Signal.RunActions | app/src/main/jni/include/ndn-cxx/util/signal-signal.hpp:162-208 | connections made by a handler go to the end in order; disconnecting itself any number of times marks the current slot once |
| Signal.Signal.Add | app/src/main/jni/include/ndn-cxx/util/signal-signal.hpp:162-170 | appends a connected slot with a new identity |
| Signal.Signal.Disconnect | app/src/main/jni/include/ndn-cxx/util/signal-signal.hpp:188-208 | during an emission only marks the current slot and expires its connections; outside it erases the slot |
| Signal.Signal.DisconnectConnection | app/src/main/jni/include/ndn-cxx/util/signal-signal.hpp:188-208 | erases the slot of a connection that has not expired and does nothing otherwise |
| Signal.Signal.IsEmpty | app/src/main/jni/include/ndn-cxx/util/signal-signal.hpp:210-215 | true exactly when there is no slot and no emission |
| Signal.RoundReturns | app/src/main/jni/include/ndn-cxx/util/signal-signal.hpp:231-243 | after each handler that returns, the list is the survivors so far, the slots still to run, then the new ones |
| Signal.RoundThrows | app/src/main/jni/include/ndn-cxx/util/signal-signal.hpp:237-248 | when a handler throws, the list is already the specified result |
| Signal.EmittedKeeps | app/src/main/jni/include/ndn-cxx/util/signal-signal.hpp:217-251 | an initial slot is still there unchanged if and only if it had expired, comes after the thrower, or its handler did not disconnect itself and either threw or is not single-shot |
| Signal.EmittedOnly | app/src/main/jni/include/ndn-cxx/util/signal-signal.hpp:217-251 | an emission brings back no old slot: what is left was there, or is the thrower's, expired |
| Signal.EmittedNew | app/src/main/jni/include/ndn-cxx/util/signal-signal.hpp:162-170 | the list ends with what the handlers that ran have connected, in the order of their calls and of the connects within a call, with new identities; everything before was there |
| Signal.RanIs | app/src/main/jni/include/ndn-cxx/util/signal-signal.hpp:217-251 | the handlers that run are a prefix of the list that ends with the first one that throws, or all of them |
| Signal.ConnectedExactly | app/src/main/jni/include/ndn-cxx/util/signal-signal.hpp:162-251 | over any sequence of connects, disconnects and emissions a handler stays connected if and only if it was never disconnected from outside, by itself while running, or as a single-shot handler by returning |
| Signal.AttachedExactly | app/src/main/jni/include/ndn-cxx/util/signal-signal.hpp:162-170 | a handler that is connected is there from then on, after any sequence of operations, exactly until something takes it away |
| Signal.OrdinaryStays | app/src/main/jni/include/ndn-cxx/util/signal-signal.hpp:162-251 | a handler that is not single-shot and that neither a caller nor itself disconnects is still connected after any such sequence |
| Signal.ApplyOrdered | app/src/main/jni/include/ndn-cxx/util/signal-signal.hpp:162-251 | every operation keeps the slots in the order of connecting, with distinct identities |
| Signal.SingleShotNeedsReturn | app/src/main/jni/include/ndn-cxx/util/signal-signal.hpp:172-186 | a single-shot slot that runs stays connected if and only if its handler throws |
| Signal.SelfDisconnectNeedsReturn | app/src/main/jni/include/ndn-cxx/util/signal-signal.hpp:188-248 | a handler that disconnects itself leaves its slot behind if and only if it then throws; that slot survives every later operation |
| Signal.DeadSlotStays | app/src/main/jni/include/ndn-cxx/util/signal-signal.hpp:188-208 | a slot whose connections have expired is never removed by any sequence of connects, disconnects and emissions |
| DispatcherProperties.UniqueDispatch | app/src/main/jni/android/ndn-cxx/mgmt/dispatcher.cpp:73-145 | after any run, posted operations run or not, at most one filter matches an Interest name; and a name under a top prefix and a relative prefix reaches exactly their handler |
| DispatcherProperties.FilterBookkeeping | app/src/main/jni/android/ndn-cxx/mgmt/dispatcher.cpp:73-128 | after any run the drained filter table is the current top prefixes times the handlers, each pair once |
| DispatcherProperties.StepKeepsInv | app/src/main/jni/android/ndn-cxx/mgmt/dispatcher.cpp:57-145 | every operation keeps prefixes apart, the filters owned and complete, and every intermediate table without two filters for one name |
| DispatcherProperties.RunKeepsInv | app/src/main/jni/android/ndn-cxx/mgmt/dispatcher.cpp:57-145 | the same over every run |
| DispatcherProperties.JoinedApart | app/src/main/jni/android/ndn-cxx/mgmt/dispatcher.cpp:78-106 | joined prefixes overlap only if both parts are equal, given that top prefixes and relative prefixes each do not overlap |
| DispatcherProperties.AddTopKeepsInv | app/src/main/jni/android/ndn-cxx/mgmt/dispatcher.cpp:73-108 | adding a top prefix, in any traversal order of the handlers, keeps the invariant and touches neither streams nor notifications |
| DispatcherProperties.RemoveTopKeepsInv | app/src/main/jni/android/ndn-cxx/mgmt/dispatcher.cpp:110-128 | removing a top prefix removes exactly its own filters |
| DispatcherProperties.DestructorLeavesNothing | app/src/main/jni/android/ndn-cxx/mgmt/dispatcher.cpp:57-71 | the destructor leaves no top prefix and no filter |
| DispatcherProperties.AddHandlerKeepsInv | app/src/main/jni/android/ndn-cxx/mgmt/dispatcher.hpp:479-508 | adding a command, dataset or stream keeps the invariant |
| DispatcherProperties.UniqueMatchesOnce | app/src/main/jni/include/ndn-cxx/detail/face-impl.hpp:168-176 | in a table without overlapping filters the filter loop finds at most one match |
| DispatcherProperties.NumberedWithoutGaps | app/src/main/jni/android/ndn-cxx/mgmt/dispatcher.cpp:353-369 | over any run, including removed and re-added top prefixes and new streams, each full stream name is numbered 0, 1, 2, ... as 64-bit numbers |
| DispatcherProperties.SendKeepsNumbered | app/src/main/jni/android/ndn-cxx/mgmt/dispatcher.cpp:361-363 | a notification takes the next number of its full name |
| DispatcherProperties.AddHandlerKeepsNumbered | app/src/main/jni/android/ndn-cxx/mgmt/dispatcher.cpp:333-351 | setting the counter of a new stream to 0 never resets one that is in use |
| DispatcherProperties.NamesNeverRepeat | app/src/main/jni/android/ndn-cxx/mgmt/dispatcher.cpp:353-369 | all Data names of notifications are distinct if and only if no stream has been used more than 2^64 times |
| DispatcherRegistrations.RemovedStaysRegisteredExactly | app/src/main/jni/include/ndn-cxx/detail/face-impl.hpp:225-257 | over any run, with nothing on its way: the prefix of a removed top prefix is still registered if and only if the response that granted it came after the request to unregister had run, or the command to unregister failed |
| DispatcherRegistrations.LateGrantStaysRegistered | app/src/main/jni/android/ndn-cxx/mgmt/dispatcher.cpp:110-128 | such a run: adding and removing a top prefix before the response leaves it registered with no top prefix left |
| DispatcherRegistrations.CurrentIsRegisteredExactly | app/src/main/jni/android/ndn-cxx/mgmt/dispatcher.cpp:87-97 | the prefix of a current top prefix that wanted it is registered, under its own name, if and only if it was not refused |
| DispatcherRegistrations.RunKeepsRegistrations | app/src/main/jni/android/ndn-cxx/mgmt/dispatcher.cpp:57-128 | over any run every registration is asked for once, and unregistered once exactly if no current top prefix has it; the Face tables follow from what has happened |
| DispatcherRegistrations.StepKeepsRegistrations | app/src/main/jni/android/ndn-cxx/mgmt/dispatcher.cpp:57-128 | each operation, posted operation and response keeps this |
| DispatcherRegistrations.DestructorUnregistersAll | app/src/main/jni/android/ndn-cxx/mgmt/dispatcher.cpp:57-71 | after the destructor every registration ever asked for has its request to unregister posted or run |
| DispatcherRegistrations.RegisterReplyTraced | app/src/main/jni/include/ndn-cxx/detail/face-impl.hpp:200-213 | the response to a register command puts the prefix in the table, or not |
| DispatcherRegistrations.RegisterTraced | app/src/main/jni/include/ndn-cxx/detail/face-impl.hpp:186-207 | registering starts its command at once, ahead of what is still posted |
| DispatcherRegistrations.UnregisterTraced | app/src/main/jni/include/ndn-cxx/detail/face-impl.hpp:230-254 | a request to unregister starts a command only for a prefix in the table |
| DispatcherRegistrations.UnregisterReplyTraced | app/src/main/jni/include/ndn-cxx/detail/face-impl.hpp:244-247 | the response to an unregister command erases the prefix, or leaves it |
| DispatcherHistory.HistoryTells | app/src/main/jni/android/ndn-cxx/mgmt/dispatcher.cpp:73-369 | over any run, from the calls alone: the handlers are the relative prefixes that were added while there was no top prefix and no handler or stream name in the way; the top prefixes are those added without overlap and not removed; the notifications sent are those posted under exactly one top prefix, named under it; and what the next add will answer |
| DispatcherHistory.DispatchFromCalls | app/src/main/jni/include/ndn-cxx/detail/face-impl.hpp:168-176 | after any run, posted operations drained: an Interest invokes the handler of an accepted relative prefix under a current top prefix if its name goes on from the two, and nothing if there is no such pair |
| DispatcherHistory.FaceCatchesUp | app/src/main/jni/android/ndn-cxx/mgmt/dispatcher.cpp:73-128 | after as many turns of the Face as operations are posted, the tables are the drained ones and nothing is posted |
| DispatcherHistory.StepRecords | app/src/main/jni/android/ndn-cxx/mgmt/dispatcher.cpp:73-128 | a top prefix that wants it has its registration started when it is added; requests to unregister and responses are recorded when they come |
| Dispatcher.MgmtDispatcher.IsOverlappedWithOthers | app/src/main/jni/android/ndn-cxx/mgmt/dispatcher.cpp:130-145 | true exactly when some handler or stream name is a prefix of the name or the other way round |
| Dispatcher.MgmtDispatcher.Add | app/src/main/jni/android/ndn-cxx/mgmt/dispatcher.cpp:258-281 | domain error with any top prefix, out-of-range error on overlap, else the handler is stored under its relative prefix beside the others: the same for commands, datasets and streams |
| Dispatcher.MgmtDispatcher.SetInterestFilter | app/src/main/jni/android/ndn-cxx/mgmt/dispatcher.cpp:99-107 | posts one filter for the joined prefix and remembers its id |
| Dispatcher.MgmtDispatcher.AddTopPrefix | app/src/main/jni/android/ndn-cxx/mgmt/dispatcher.cpp:73-108 | the loops over both maps refine the step, for the order in which the handlers were traversed; out-of-range exactly on overlap |
| Dispatcher.MgmtDispatcher.RemoveTopPrefix | app/src/main/jni/android/ndn-cxx/mgmt/dispatcher.cpp:110-128 | the loop over the remembered ids refines the step; unknown prefixes change nothing |
| Dispatcher.MgmtDispatcher.Destroy | app/src/main/jni/android/ndn-cxx/mgmt/dispatcher.cpp:57-71 | empties the prefix table, and the Face's filters once the posted operations have run, and asks to unregister every registration |
| Dispatcher.MgmtDispatcher.PostNotification | app/src/main/jni/android/ndn-cxx/mgmt/dispatcher.cpp:353-369 | nothing happens unless there is exactly one top prefix, else its next notification is sent |
| Dispatcher.MgmtDispatcher.FaceRuns | app/src/main/jni/include/ndn-cxx/detail/face-impl.hpp:151-257 | runs the oldest posted operation on the Face tables; unregistering starts a command only for a prefix that is registered |
| Dispatcher.MgmtDispatcher.AfterRegisterReply | app/src/main/jni/include/ndn-cxx/detail/face-impl.hpp:200-223 | makes the step for the response and throws exactly on a failure |
| Dispatcher.MgmtDispatcher.AfterUnregisterReply | app/src/main/jni/include/ndn-cxx/detail/face-impl.hpp:244-268 | makes the step for the response |
| Dispatcher.MgmtDispatcher.ProcessInterestFilters | app/src/main/jni/include/ndn-cxx/detail/face-impl.hpp:168-176 | the loop invokes the matching filters in table order, which is at most one |
| Encoder.Encoder.constructor | app/src/main/jni/include/ndn-cxx/encoding/encoder.hpp:39-45 | an empty buffer with the given room behind and the rest in front |
| Encoder.Encoder.Reallocate | app/src/main/jni/include/ndn-cxx/encoding/encoder.hpp:160-170 | moves the contents to a new buffer unchanged |
| Encoder.Encoder.ReserveFront | app/src/main/jni/include/ndn-cxx/encoding/encoder.hpp:180-186 | room in front afterwards, contents unchanged, and no reallocation if there was room |
| Encoder.Encoder.ReserveBack | app/src/main/jni/include/ndn-cxx/encoding/encoder.hpp:172-178 | room behind afterwards and contents unchanged |
| Encoder.Encoder.PrependRange | app/src/main/jni/include/ndn-cxx/encoding/encoder.hpp:315-325 | the contents are extended in front by exactly the bytes; the buffer is kept if it had room |
| Encoder.Encoder.AppendRange | app/src/main/jni/include/ndn-cxx/encoding/encoder.hpp:328-338 | the contents are extended behind by exactly the bytes |
| Encoder.Encoder.PrependVarNumber | app/src/main/jni/include/ndn-cxx/encoding/encoder.hpp:90-95 | prepends what `writeVarNumber` writes and returns what `sizeOfVarNumber` says |
| Encoder.BlockIsExact | app/src/main/jni/include/ndn-cxx/encoding/block-helpers.hpp:124-128 | the estimated size is the encoded size, and the bytes decode to the type and value |
| Encoder.DataBlockFast | app/src/main/jni/include/ndn-cxx/encoding/block-helpers.hpp:115-137 | gives the block with this type and value, in a buffer of exactly its size |
| Encoder.DataBlockSlow | app/src/main/jni/include/ndn-cxx/encoding/block-helpers.hpp:142-160 | gives the same block with the same bytes by appending first |
| Encoder.Encode | app/src/main/jni/include/ndn-cxx/encoding/block-helpers.hpp:191-203 | the bytes of a nested element are as many as the estimator adds up |
| Encoder.NestedRoundTrip | app/src/main/jni/include/ndn-cxx/encoding/block-helpers.hpp:191-221 | decoding a nested block followed by any bytes gives its type and value |
| Encoder.ChildrenRoundTrip | app/src/main/jni/include/ndn-cxx/encoding/block-helpers.hpp:191-221 | parsing its value gives exactly its children and leaves nothing |
| Encoder.PrependWire | app/src/main/jni/include/ndn-cxx/encoding/block-helpers.hpp:191-203 | driving the encoder over a nested structure prepends its encoding, returns its estimate, and does not grow a buffer with that much room |
| Encoder.MakeNestedBlock | app/src/main/jni/include/ndn-cxx/encoding/block-helpers.hpp:210-221 | the two passes give that block in a buffer of exactly its size |
| LpPacket.FieldRoundTrip | app/src/main/jni/include/ndn-cxx/lp/detail/field-decl.hpp:49-106 | a field decodes to the value that was encoded if and only if it is not an empty fragment, which is refused |
| LpPacket.FieldsApart | app/src/main/jni/include/ndn-cxx/lp/detail/field-decl.hpp:49-106 | no field decodes what was encoded for another |
| LpPacket.UpperBoundSplits | app/src/main/jni/include/ndn-cxx/lp/packet.hpp:168-169 | in an ordered list the bound separates what does not sort after the type from what does |
| LpPacket.InsertKeepsOrdered | app/src/main/jni/include/ndn-cxx/lp/detail/field-info.hpp:86-91 | inserting at the upper bound keeps the header fields by ascending TLV-TYPE and the fragment last |
| LpPacket.OrderedCompares | app/src/main/jni/include/ndn-cxx/lp/detail/field-info.hpp:86-91 | this order is the one that the comparison by location and then type induces |
| LpPacket.OrderedUnique | app/src/main/jni/include/ndn-cxx/lp/detail/field-info.hpp:86-91 | two ordered packets with the same elements of every type are the same |
| LpPacket.InsertExtends | app/src/main/jni/include/ndn-cxx/lp/packet.hpp:168-170 | the new element is the last of its type; the elements of other types are unchanged |
| LpPacket.BuiltPacket | app/src/main/jni/include/ndn-cxx/lp/packet.hpp:138-210 | a packet built from empty by any sequence of add, set, remove and clear has its header fields by ascending TLV-TYPE, then the fragment, and no field twice but acknowledgements |
| LpPacket.BuiltPacketGivesBack | app/src/main/jni/include/ndn-cxx/lp/packet.hpp:94-210 | `list` and `get` of such a packet give back, field by field and at each index, the values that the calls have left: `add` appends unless the field is taken and not repeatable, `set` replaces, `remove` takes one, `clear` all; an empty fragment is the one value refused |
| LpPacket.SameFieldsSamePacket | app/src/main/jni/include/ndn-cxx/lp/packet.hpp:138-210 | two call sequences that leave the same values in every field build the same packet |
| LpPacket.AddExtendsList | app/src/main/jni/include/ndn-cxx/lp/packet.hpp:117-173 | `add` extends the field's `list` by the value at the end and leaves every other list alone, if and only if the value is not an empty fragment |
| LpPacket.SetReplaces | app/src/main/jni/include/ndn-cxx/lp/packet.hpp:138-148 | on any ordered packet `set` is `clear` then `add`, never throws, and leaves the one value and all other fields |
| LpPacket.RemoveNthIs | app/src/main/jni/include/ndn-cxx/lp/packet.hpp:175-198 | `remove` takes exactly the index-th occurrence of the field |
| LpPacket.RemoveKeeps | app/src/main/jni/include/ndn-cxx/lp/packet.hpp:175-198 | `remove` keeps an ordered packet ordered, and free of repetitions if it was |
| LpPacket.RemoveAllIs | app/src/main/jni/include/ndn-cxx/lp/packet.hpp:200-210 | `clear` removes every occurrence and nothing else |
| LpPacket.ClearKeeps | app/src/main/jni/include/ndn-cxx/lp/packet.hpp:200-210 | `clear` keeps an ordered packet ordered, and free of repetitions if it was |
| LpPacket.ApplyAllKeeps | app/src/main/jni/include/ndn-cxx/lp/packet.hpp:138-210 | any sequence of add, set, remove and clear keeps an ordered packet ordered, and free of repetitions if it was |
| LpPacket.Packet.GetAt | app/src/main/jni/include/ndn-cxx/lp/packet.hpp:94-115 | the counting loop finds the index-th occurrence, or is out of range |
| LpPacket.Packet.ListAll | app/src/main/jni/include/ndn-cxx/lp/packet.hpp:117-136 | the loop collects the values of all occurrences, or the first decoding error |
| LpPacket.Packet.FindUpperBound | app/src/main/jni/include/ndn-cxx/lp/packet.hpp:168-169 | the binary search finds the bound in an ordered list |
| LpPacket.Packet.AddField | app/src/main/jni/include/ndn-cxx/lp/packet.hpp:150-173 | length error exactly when a non-repeatable field is there, leaving the packet unchanged; else the ordered insertion |
| LpPacket.Packet.FindNth | app/src/main/jni/include/ndn-cxx/lp/packet.hpp:185-195 | the loop stops at the index-th occurrence, or at the end exactly when there is none |
| LpPacket.Packet.RemoveField | app/src/main/jni/include/ndn-cxx/lp/packet.hpp:175-198 | removes that occurrence, or is out of range leaving the packet unchanged |
| LpPacket.Packet.ClearField | app/src/main/jni/include/ndn-cxx/lp/packet.hpp:200-210 | leaves the packet without the field |
| LpPacket.Packet.SetField | app/src/main/jni/include/ndn-cxx/lp/packet.hpp:138-148 | clears and adds |
| OppQueue.RunConserves | app/src/main/jni/android/ndn-fwd/daemon/face/opp-transport.cpp:27-101 | over any run of sends, link changes, reports and removals that never pops an empty queue, also with reports that answer nothing, every accepted packet is completed, removed or queued, exactly one of these; completed and queued packets are in order of acceptance; only Interests are removed |
| OppQueue.StepConserves | app/src/main/jni/android/ndn-fwd/daemon/face/opp-transport.cpp:78-85 | a step breaks this if and only if it reports success while the queue is empty |
| OppQueue.RemovalPopsNothing | app/src/main/jni/android/ndn-fwd/daemon/face/opp-transport.cpp:49-82 | a run that does: the only packet is removed while it is in flight and then reported as transmitted |
| OppQueue.RemovesFirstInterest | app/src/main/jni/android/ndn-fwd/daemon/face/opp-transport.cpp:49-72 | removal by nonce takes exactly the first matching Interest, or nothing if there is none |
| OppQueue.BreaksExactly | app/src/main/jni/android/ndn-fwd/daemon/face/opp-transport.cpp:27-85 | a step breaks "at most one transmission, that of the front packet, completed packets are those transmitted, nothing undefined" if and only if it removes the packet in flight, brings the link up before the last report, or reports a success that answers no transmission |
| OppQueue.CompletedAreTransmitted | app/src/main/jni/android/ndn-fwd/daemon/face/opp-transport.cpp:42-101 | on runs without these the packets completed are exactly those reported as transmitted, in order of acceptance |
| OppQueue.InStepPopsSomething | app/src/main/jni/android/ndn-fwd/daemon/face/opp-transport.cpp:78-85 | on these runs nothing is popped off an empty queue |
| OppQueue.RemovalDropsNextPacket | app/src/main/jni/android/ndn-fwd/daemon/face/opp-transport.cpp:49-85 | otherwise a packet is lost: the packet in flight is removed, and its success takes the next one off the queue, which was never handed over |
| OppQueue.ResendDropsNextPacket | app/src/main/jni/android/ndn-fwd/daemon/face/opp-transport.cpp:27-47 | or: the link goes down and up during a transmission, and the next packet leaves the queue although its own transmission fails |
| OppQueue.StopsExactly | app/src/main/jni/android/ndn-fwd/daemon/face/opp-transport.cpp:78-101 | the queue of a link that is up stops if and only if a transmission fails or no buffer can be allocated for a packet that is due |
| OppQueue.FailureWaitsForLinkUp | app/src/main/jni/android/ndn-fwd/daemon/face/opp-transport.cpp:78-101 | then no amount of further sends starts it again |
| OppQueue.HistoryTells | app/src/main/jni/android/ndn-fwd/daemon/face/opp-transport.cpp:27-101 | over every run, from the calls and reports alone: what is accepted is what was sent; the queue is that without the first Interest for each removal and the front for each success; and the front is handed over when the link comes up, when the queue was empty before a send, and on each success |
| OppQueue.OppTransport.Send | app/src/main/jni/android/ndn-fwd/daemon/face/opp-transport.cpp:42-47 | hands the front packet over, if there is one and the link is up |
| OppQueue.OppTransport.Commute | app/src/main/jni/android/ndn-fwd/daemon/face/opp-transport.cpp:27-32 | sets the state and starts sending exactly when the link comes up |
| OppQueue.OppTransport.Find | app/src/main/jni/android/ndn-fwd/daemon/face/opp-transport.cpp:50-66 | the search finds the first Interest with the nonce |
| OppQueue.OppTransport.Remove | app/src/main/jni/android/ndn-fwd/daemon/face/opp-transport.cpp:49-72 | refines removal and keeps conservation |
| OppQueue.OppTransport.SendComplete | app/src/main/jni/android/ndn-fwd/daemon/face/opp-transport.cpp:78-85 | pops the front and sends the next on any success, leaves the queue on failure; a pop off an empty queue is counted as a fault |
| OppQueue.OppTransport.DoSendPacket | app/src/main/jni/android/ndn-fwd/daemon/face/opp-transport.cpp:87-101 | queues and sends exactly when the link is up and the queue was empty |
| JniChannels.ChannelReferences | app/src/main/jni/android/nfd-jni.cpp:259-359 | over any interleaving of calls every face that is up has its own live reference and no reference is used or deleted that is not live; if no face is destroyed while it is up, every live reference is that of a face that is up |
| JniChannels.ApplyKeepsSafe | app/src/main/jni/android/nfd-jni.cpp:259-359 | each call keeps the references safe, and leaks one if and only if it destroys a face that is up |
| JniChannels.BringUpKeeps | app/src/main/jni/android/nfd-jni.cpp:309-326 | the reference is there before the queue starts sending; a face that is up gets no second one |
| JniChannels.BringDownKeeps | app/src/main/jni/android/nfd-jni.cpp:328-344 | exactly the face's own reference is deleted, and the stale map entry does no harm |
| JniChannels.DestroyKeeps | app/src/main/jni/android/nfd-jni.cpp:353-360 | destroying a face that is up leaves its reference behind; the other faces keep theirs |
| JniChannels.FacesAreSeparate | app/src/main/jni/android/nfd-jni.cpp:259-359 | over any interleaving of calls the transport of each face is what the calls that name it make of it, from its creation on; the other calls leave it alone |
| JniChannels.CountsDeadReferences | app/src/main/jni/android/nfd-jni.cpp:261-344 | a packet handed over, or a reference deleted, is counted exactly if the reference found is not live |
| JniChannels.NfdJni.Move | app/src/main/jni/android/nfd-jni.cpp:261-277 | the transport moves and, if it hands a packet over, the channel that is found is used; using one that is not live is counted as a fault |
| JniChannels.NfdJni.JniBringUpFace | app/src/main/jni/android/nfd-jni.cpp:309-326 | refines bring-up and keeps the invariant |
| JniChannels.NfdJni.JniBringDownFace | app/src/main/jni/android/nfd-jni.cpp:328-344 | refines bring-down and keeps the invariant |
| JniChannels.NfdJni.JniDestroyFace | app/src/main/jni/android/nfd-jni.cpp:353-360 | removes the face and deletes no reference |
| JniChannels.NfdJni.JniSendComplete | app/src/main/jni/android/nfd-jni.cpp:279-290 | refines the report, whether or not it answers a transmission, and keeps the references safe; unknown faces change nothing |
| Logging.LastAssignmentWins | app/src/main/jni/android/ndn-cxx/ndn-cxx-custom-logging.cpp:62-106 | after any assignments the rule gives a module its last one or that of the last "*", whichever came later, else what it was before |
| Logging.ParsedAll | app/src/main/jni/android/ndn-cxx/ndn-cxx-custom-logging.cpp:94-105 | all pieces are applied exactly when every piece is well formed |
| Logging.ConfigRoundTrip | app/src/main/jni/android/ndn-cxx/ndn-cxx-custom-logging.cpp:90-106 | a config string written from any assignments whose names hold no colon and no equals sign is well formed and gives them back in order |
| Logging.LevelNames | app/src/main/jni/android/ndn-cxx/ndn-cxx-custom-logger.cpp:57-83 | a level is read from its own name and from nothing else |
| Logging.LoggingFacility.AddLoggerImpl | app/src/main/jni/android/ndn-cxx/ndn-cxx-custom-logging.cpp:46-60 | a new logger gets the level of the rule, and all cached levels agree with the rule |
| Logging.LoggingFacility.SetDefaultLevel | app/src/main/jni/android/ndn-cxx/ndn-cxx-custom-logging.cpp:79-88 | forgets all individual levels; all cached levels agree with the rule afterwards |
| Logging.LoggingFacility.SetLevelImpl | app/src/main/jni/android/ndn-cxx/ndn-cxx-custom-logging.cpp:62-77 | sets one module, or the default for "*"; all cached levels agree with the rule afterwards |
| Logging.LoggingFacility.SetLevels | app/src/main/jni/android/ndn-cxx/ndn-cxx-custom-logging.cpp:73-76 | the loop changes the chosen loggers and no other |
| Logging.LoggingFacility.SetLevelConfig | app/src/main/jni/android/ndn-cxx/ndn-cxx-custom-logging.cpp:90-106 | throws exactly on a malformed string, with the assignments before the malformed piece applied; each logger ends with its last assignment, else as before |
| LoggerFactory.DryRunPredicts | app/src/main/jni/android/ndn-fwd/custom-logger-factory.cpp:113-171 | a dry run changes no level, and raises an error exactly when the real run does, which is when some item has no valid level |
| LoggerFactory.WhichError | app/src/main/jni/android/ndn-fwd/custom-logger-factory.cpp:113-171 | which error each of the two runs raises: the dry run that of the first bad item, the real run that of a bad first `default_level` before any other |
| LoggerFactory.DifferentErrors | app/src/main/jni/android/ndn-fwd/custom-logger-factory.cpp:132-150 | a section for which the two errors differ |
| LoggerFactory.LoopError | app/src/main/jni/android/ndn-fwd/custom-logger-factory.cpp:146-170 | the loop stops at the first bad item |
| LoggerFactory.LevelsExactly | app/src/main/jni/android/ndn-fwd/custom-logger-factory.cpp:60-91 | which strings give which level: the name in any case but FATAL, or, if no name matches, what is cast to its number; anything else is refused |
| LoggerFactory.ItemLevelsExactly | app/src/main/jni/android/ndn-fwd/custom-logger-factory.cpp:93-111 | an item without a value has no level, any other the one its value means; and which error is raised |
| LoggerFactory.ConfiguredLevels | app/src/main/jni/android/ndn-fwd/custom-logger-factory.cpp:132-184 | after a real run without error every logger has the level of the last item naming it, else the configured default, else INFO |
| LoggerFactory.LoggerFactoryImpl.SetDefault | app/src/main/jni/android/ndn-fwd/custom-logger-factory.cpp:173-184 | the loop gives every logger the new default |
| LoggerFactory.LoggerFactoryImpl.Create | app/src/main/jni/android/ndn-fwd/custom-logger-factory.cpp:192-202 | an existing logger is returned as it is; a new one gets the default |
| LoggerFactory.LoggerFactoryImpl.OnConfigSection | app/src/main/jni/android/ndn-fwd/custom-logger-factory.cpp:113-171 | the two-phase method refines the specification for both kinds of run, with its error |

## Left out

Bodies that are not in the repository and are modelled from their contracts:

- `Block::fromBuffer` is a type, a length, and a check that the value fits; `readNonNegativeInteger(Block)` reads the whole value of the block.
- The encoder's constructor, reserve functions and `prependVarNumber` promise only what their comments say; how much more than asked `reserveFront` and `reserveBack` allocate is not part of this model.
- `Packet::comparePos` and the `FieldInfo` constructor: a type that is no declared field sorts as a header. `wireEncode` and `wireDecode` of packets are not part of this model, so a packet is its parsed list of elements.

Assumptions about the environment:

- Receive callbacks do not pause or close the transport themselves; the Face keeps to this by posting its pauses. They may resume it.
- Undefined steps of the C++ code are counted: a write or a read started beside another, a resume under a read handler, bytes beyond the end of the receive buffer, the erasure of a queue item or registered prefix that is gone, `pop_front` on an empty queue, the use or deletion of a reference that is not live. What a model does after such a step means nothing.
- During an emission a handler disconnects only itself and does not emit the same signal; the connections of a handler are not kept by the model beyond whether they have expired.
- What a callback of the Face does is a finite script of operations; whether Data or a Nack matches an Interest is any predicate.
- `boost::lexical_cast` is a parameter of the logger factory.

Contracts that say less than the code does:

- Face.FaceImpl.AsyncExpressInterest: Interests carry no bytes, and the header fields added for the next-hop and congestion tags are not modelled.
- Face.FaceImpl.AsyncRegistered: the filter of a combined operation is not modelled; the success callback is the rest of the script the continuation runs in.
- Face.FaceImpl.AsyncUnregisterPrefix: neither the removal of that filter nor the failure callback is modelled.
- Face.FaceImpl.OnEmptyPitOrNoPrefixes: the timeout of `processEvents` is not modelled.
- LpPacket.FieldRoundTrip: Nack and CachePolicy values are opaque bytes; how they encode is not in the repository.

Parts of the modelled files:

- The Face's Interest filter table is in the Dispatcher's modules, which also have their own view of its registered prefixes.
- Threads, and the mutexes of the logging facility.
- Pointers used as identities (`PendingInterestId`, `InterestFilterId`, iterators) are numbers that are never reused.
- Interest nonces in the opportunistic queue are numbers; the byte order of a four-byte nonce is not modelled, nor are `doClose` and the closing states, `handleReceive` and the MTU.
- The daemon's face table: creating a face makes its transport down, destroying it removes it at once.

Not modelled:

- What a handler does with an Interest once it has been dispatched: parsing control parameters, authorization, in-memory storage, signing. Its main parts are calls into code that is not in the repository.
- Name and component comparison, selectors, Interest and Data codecs, schedulers, segment fetching, validators and key chains: only declarations are in the repository.
- Control parameter and status getters and setters and version headers, which hold no state that depends on an order of calls; and the Java side.
