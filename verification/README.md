# Counter-drone communication layer: a verified model

The server accepts TCP connections from drones, cuts their byte streams into telemetry frames, keeps a table of the
latest packet per drone, and logs from a thread of its own. This project models that pipeline in Dafny and proves what
it promises for every byte stream, every cut into chunks, every client interleaving and every thread interleaving.

- **Bytes and checksum.** `Bytes` (big-endian fields), `Crc` (the register, with the receiver's and the sender's loops
  proved to compute it), `CrcStandard` (its published values), `CrcBits` (the register bit by bit; a turn is linear and
  injective), `CrcOrder` (the lowest bit comes back after a multiple of 32767 turns and never otherwise), `CrcDetection`
  (bursts, pairs, parity), `CrcFrames` (damage to data and checksum together), `FrameIntegrity` (what that means for
  damaged frames). The checksum is that of "MODBUS over Serial Line, Specification and Implementation Guide V1.02",
  section 6.2.2, but is sent high byte first.
- **One client.** `RingBuffers` (the circular buffer as a class over an array), `Codec` (both ends of the wire format),
  `ReferenceParse` (the simple form: a stateless left-to-right scan of the whole stream), `FrameSkipping` (when that scan
  skips nothing valid), `ParserMachine` (the three-state machine, proved to agree with the scan).
- **All clients.** `StreamingParser` (the parser as the object it is, proved against the machine and against `Routing`),
  `Sessions` (isolation of sessions, also when a socket number is used again), `RoundTrip` (sender to receiver),
  `WireLayout` (the bytes of a packet, and the scan in terms of the sender's frames).
- **Threads.** `QueueProtocol` (the blocking queue as an interleaving of steps of sleeping and woken threads),
  `Listener`, `DroneTracking`, `Logger` (the other three components as classes), and `Pipeline`, an interleaving of the
  queue operations of all threads with main's shutdown sequence, which composes everything above. Its steps take one
  queue operation each as atomic, and let a pop wait only while its queue is empty and its thread has not been asked to
  stop. `QueueProtocol.StepIsAtomic`, `QueueProtocol.SleepsOnlyIfBlocked` and `QueueProtocol.NeverStuck` are the reasons
  why they may; `Pipeline` itself does not run the queue's steps. `Delivery` adds when the threads end, and what they can
  always bring to its end.
- **Helpers.** `Wrappers` and `Sequences`.

The listener's class is related to the pipeline's listener steps by `Listener.RunLeads`, the parser's class by
`Routing.Deliver` and `Pipeline.PushesFollowBook`, and the drone table's class by `DroneTracking.Handle`.

Two statements of the repository's own documentation do not hold of the code, and the model follows the code:

- `README.md:263` (of the repository) says that the resynchronisation never skips valid data, and `README.md:116` that a
  valid packet within the payload of an apparently corrupted one is still found. A frame inside the payload of a frame
  whose checksum is right is skipped (`RoundTrip.NestedPacketSkipped`); it stays so when the whole is in turn the payload
  of a frame whose checksum is wrong (`RoundTrip.RejectedNestSkipped`); and a false header holds up complete packets until
  262 bytes have arrived (`RoundTrip.StalledPackets`). The exact condition is on the bytes alone: every valid frame of a
  stream is taken if and only if no two valid frames overlap and no unfinished frame begins before a valid one, unless
  inside another valid one (`FrameSkipping.EveryFrameTakenExactly`).
- `README.md:42` says that the queues between threads are bounded; `src/main.cpp:85-87` makes them with a maximum of zero.
  The number of items is bounded over all runs if and only if the maximum is not zero (`QueueProtocol.BoundedExactly`).

Two more properties turned out to hold only under a condition, which is proved to be exact. The sender builds packets
for ids of up to 65493 characters, but a stream comes through if and only if no id is longer than 214
(`RoundTrip.StreamRoundTrip`). And a producer can miss a wake-up, but only through a push abandoned after its wait
succeeded (`QueueProtocol.ProducersMissNothing`, `QueueProtocol.MissedWakeUp`), and then exactly when a producer sleeps and
no more producers are awake than places are free (`QueueProtocol.AbandonAwakeExactly`).

To check everything: `dafny verify dfyconfig.toml`.

## Model

| member | source | states |
|---|---|---|
| `Bytes.BigEndian16Injective` | src/streamingParser.cpp:24-30 | different byte pairs are different 16-bit numbers, so a big-endian field determines its bytes |
| `Bytes.Word16OfEncoded` | tests/drone_load_test.py:116 | the receiver's reading of a checksum field inverts the sender's packing of it |
| `Bytes.Word64OfEncoded` | tests/drone_load_test.py:90-92 | the same for an eight-byte field |
| `Bytes.EncodedOfWord64` | src/streamingParser.cpp:270-278 | and packing a field read from eight bytes gives back those bytes |
| `Bytes.Encode16Bytes` | tests/drone_load_test.py:106-107 | of a sixteen-bit length the quotient by 256 is sent first and then the remainder |
| `Bytes.EncodeWord16Bytes` | tests/drone_load_test.py:116 | of the checksum the upper half is sent first |
| `Bytes.EncodeWord64Bytes` | tests/drone_load_test.py:90-92 | byte `i` of an eight-byte field is what lies 56 - 8 i bits up in the word |
| `Crc.ComputeCrc16` | src/streamingParser.cpp:239-251 | the server's nested loop computes the CRC-16/MODBUS of the first `len` bytes |
| `Crc.Crc16Modbus` | tests/drone_load_test.py:63-76 | the sender's loops over a wider integer, masked only at the end, compute the same function |
| `CrcStandard.StartValue` | src/streamingParser.cpp:240 | the checksum of anything behind two full bytes is what an empty register makes of it, which fixes the start value |
| `CrcStandard.FullBytesFed` | tests/drone_load_test.py:68 | two full bytes bring the start value to zero |
| `CrcStandard.CheckValue` | src/streamingParser.cpp:239-251 | the digits one to nine have the published check value 0x4B37, which fixes polynomial, start value and bit order |
| `CrcBits.FeedIsFeedBits` | src/streamingParser.cpp:241-248 | feeding bytes is feeding their bits one by one, least significant first |
| `CrcBits.ShiftsLinear` | src/streamingParser.cpp:243-248 | any number of register turns distributes over bitwise addition |
| `CrcBits.ShiftsInjective` | src/streamingParser.cpp:243-248 | and loses no information |
| `CrcBits.FeedBitsAtOnce` | src/streamingParser.cpp:241-248 | feeding bits one by one equals adding one word that stands for all of them and turning the register once per bit |
| `CrcOrder.OrderOfGenerator` | src/streamingParser.cpp:243-248 | the lowest bit of the register returns after `d` turns if and only if `d` is a multiple of 32767 |
| `CrcDetection.BurstDetected` | src/streamingParser.cpp:239-251 | different inputs of equal length that agree outside sixteen consecutive bits have different checksums |
| `CrcDetection.PairDetected` | src/streamingParser.cpp:239-251 | inputs that differ in exactly two bits share a checksum if and only if the bits are a multiple of 32767 apart |
| `CrcDetection.PairInFrameDetected` | src/streamingParser.cpp:184-188 | so two flipped bits in at most 260 covered bytes always change the checksum |
| `CrcDetection.ChecksumParity` | src/streamingParser.cpp:239-251 | the checksum has as many one bits, modulo two, as the data |
| `CrcDetection.CheckedIsEven` | src/streamingParser.cpp:184-203 | data followed by its checksum, high byte first, has an even number of one bits |
| `CrcDetection.OddFlipsDetected` | src/streamingParser.cpp:184-203 | flipping an odd number of bits of such a string, data or checksum, leaves one whose checksum is wrong |
| `CrcFrames.CheckedExactly` | src/streamingParser.cpp:184-195 | a frame's checksum is right if and only if, with its two checksum bytes exchanged, the checksum of the whole is zero |
| `CrcFrames.DamageUnnoticedExactly` | src/streamingParser.cpp:184-203 | any damage goes unnoticed if and only if the flipped bits, with the two checksum bytes exchanged, drive an empty register back to zero |
| `CrcFrames.PairUnnoticedExactly` | src/streamingParser.cpp:184-203 | any two flipped bits, in data or checksum or one in each, go unnoticed if and only if, with the checksum bytes exchanged, they are a multiple of 32767 apart |
| `CrcFrames.PairFlipsDetected` | src/streamingParser.cpp:184-203 | so any two flipped bits of at most 262 bytes of data and checksum leave a wrong checksum |
| `CrcFrames.ShortBurstDetected` | src/streamingParser.cpp:184-203 | any damage within eight consecutive bits as sent, anywhere in data and checksum, leaves a wrong checksum |
| `CrcFrames.BurstUnnoticedExactly` | src/streamingParser.cpp:184-203 | damage within sixteen consecutive bits as sent goes unnoticed if and only if it crosses into the checksum and, in register order, drives an empty register back to zero |
| `CrcFrames.NineBitBurstUnnoticed` | src/streamingParser.cpp:184-203 | in every frame, one pattern within nine bits across the border leaves a right checksum |
| `FrameIntegrity.OddDamageRejected` | src/streamingParser.cpp:195-203 | a valid frame with an odd number of payload or checksum bits flipped is rejected and counted where it stands |
| `FrameIntegrity.BurstDamageRejected` | src/streamingParser.cpp:195-203 | so is one whose payload is damaged within sixteen consecutive bits |
| `FrameIntegrity.ShortBurstDamageRejected` | src/streamingParser.cpp:195-203 | and one damaged within eight consecutive bits anywhere in payload and checksum field |
| `FrameIntegrity.BurstDamageTakenExactly` | src/streamingParser.cpp:195-206 | one damaged within sixteen consecutive bits anywhere is taken all the same exactly when the damage crosses into the checksum field and cancels in the register; otherwise it is rejected |
| `FrameIntegrity.PairDamageRejected` | src/streamingParser.cpp:195-203 | and one with any two bits flipped, each of them in the payload or in the checksum field |
| `RingBuffers.RingBuffer.constructor` | src/ringBuffer.cpp:14-15 | a new buffer is valid and empty |
| `RingBuffers.RingBuffer.Size` | src/ringBuffer.cpp:51-53 | the number of unread bytes |
| `RingBuffers.RingBuffer.FreeSpace` | src/ringBuffer.cpp:118-120 | the number of bytes that still fit |
| `RingBuffers.RingBuffer.CopyIn` | src/ringBuffer.cpp:36-43 | the two-part copy lays the data out around the end of the array and touches no other cell |
| `RingBuffers.RingBuffer.Store` | src/ringBuffer.cpp:35-43 | the data lies behind the unread bytes, which keep their contents |
| `RingBuffers.RingBuffer.Push` | src/ringBuffer.cpp:26-48 | a push appends, or overflows and changes nothing, exactly when there is no room; indices stay valid |
| `RingBuffers.RingBuffer.Peek` | src/ringBuffer.cpp:64-82 | a peek copies the oldest bytes across the wrap-around and changes nothing, or is out of range and leaves the destination alone |
| `RingBuffers.RingBuffer.Consume` | src/ringBuffer.cpp:92-103 | a consume drops the oldest bytes, or is out of range and changes nothing |
| `RingBuffers.RingBuffer.Clear` | src/ringBuffer.cpp:106-110 | clearing leaves a valid, empty buffer |
| `RingBuffers.UnrollSplit` | src/ringBuffer.cpp:36-47 | a stretch of the circle is a shorter stretch followed by the one that starts where it ends |
| `RingBuffers.Written` | src/ringBuffer.cpp:36-43 | after the copy the bytes read from the old head are the data, and the unread bytes before it are untouched |
| `Codec.ReadField16` | src/streamingParser.cpp:270-278 | a field is read and the offset advanced exactly when enough bytes are left |
| `Codec.ReadField64` | src/streamingParser.cpp:270-278 | the same for the eight-byte fields |
| `Codec.DeserializePayload` | src/streamingParser.cpp:264-307 | reading field by field never leaves the payload and computes the decoding function |
| `Codec.DecodeOfEncoded` | tests/drone_load_test.py:89-92 | decoding anything that begins with an encoded record gives that record |
| `Codec.EncodeOfDecoded` | src/streamingParser.cpp:281-306 | whatever a payload decodes to, its encoding is the beginning of that payload |
| `Codec.DeserializeExact` | src/streamingParser.cpp:264-307 | a payload decodes to a record if and only if the record's encoding is a prefix of it; trailing bytes are ignored |
| `ReferenceParse.DecideStable` | src/streamingParser.cpp:126-206 | more bytes never change a decision to skip, reject or take |
| `ReferenceParse.ParseResumes` | src/streamingParser.cpp:121-227 | scanning a stream is scanning a beginning of it and then its leftover with the continuation |
| `ReferenceParse.ChunkingIrrelevant` | src/streamingParser.cpp:121-227 | however a stream is cut into chunks, events and leftover are those of the one-shot scan |
| `ReferenceParse.LeftoverBound` | src/streamingParser.cpp:173-178 | at most 261 bytes are left undecided |
| `ReferenceParse.BytesConserved` | src/streamingParser.cpp:137-218 | dropped bytes, frame sizes and leftover add up to the stream; frames take at least 48 bytes if emitted and 7 if malformed; failures are exactly the rejected and the malformed |
| `ReferenceParse.EventDecided` | src/streamingParser.cpp:126-206 | every event is what stands at its offset in the stream |
| `ReferenceParse.FramesTakenExactly` | src/streamingParser.cpp:137-206 | at a decided position a frame is taken if and only if a complete valid frame stands there and the position is not strictly inside one taken earlier |
| `ReferenceParse.FrameReportedExactly` | src/streamingParser.cpp:137-206 | a complete valid frame is taken, or inside a taken one, if and only if the leftover is shorter than the stream from the frame on |
| `ReferenceParse.NoFrameSkipped` | src/streamingParser.cpp:137-206 | once 262 bytes from a valid frame on have arrived, it has been taken or lies inside a taken valid frame, whatever surrounds it |
| `FrameSkipping.EveryFrameTakenExactly` | src/streamingParser.cpp:126-206 | every valid frame of a stream is taken if and only if no two valid frames overlap and no unfinished frame begins before a valid one, unless inside another valid one |
| `FrameSkipping.UnfinishedExactly` | src/streamingParser.cpp:126-178 | the scan stops exactly where fewer than two bytes, or a header with too few bytes behind it, are left |
| `ReferenceParse.TakenFramesValidAndDisjoint` | src/streamingParser.cpp:195-218 | taken frames are valid, in increasing order, and do not overlap |
| `ParserMachine.IterationAgrees` | src/streamingParser.cpp:121-227 | one pass through the switch keeps the invariant that ties state and cached length to the bytes at the front, and decides what the scan decides |
| `ParserMachine.AppendKeepsConsistent` | src/streamingParser.cpp:80-92 | that invariant survives the arrival of a chunk between calls |
| `ParserMachine.RoundsCostPotential` | src/streamingParser.cpp:121-227 | every non-returning iteration uses up some of three units per byte less the state's rank |
| `ParserMachine.RunIsScan` | src/streamingParser.cpp:121-227 | a call yields the events and leftover of the scan of its buffer, within a number of rounds bounded by the potential used |
| `ParserMachine.SessionIsScan` | src/streamingParser.cpp:121-227 | over a whole session, in any chunking, the machine yields the scan of the stream in at most three rounds per byte |
| `StreamingParser.ClientState.constructor` | include/streamingParser.h:82-87 | a new client waits for a header with an empty buffer |
| `StreamingParser.Parser.constructor` | src/streamingParser.cpp:42-44 | a new parser has no clients and has counted nothing |
| `StreamingParser.Parser.WaitHeaderCase` | src/streamingParser.cpp:126-146 | the case over the ring buffer is the machine's: return, drop a byte, or go on to the length |
| `StreamingParser.Parser.WaitLengthCase` | src/streamingParser.cpp:148-171 | likewise, with lengths outside 1..256 dropped as garbage |
| `StreamingParser.Parser.WaitPayloadCase` | src/streamingParser.cpp:173-223 | likewise, and counter, log and parsed queue change by exactly the event |
| `StreamingParser.Parser.RejectFrame` | src/streamingParser.cpp:195-203 | a wrong checksum costs one byte and one count |
| `StreamingParser.Parser.TakeFrame` | src/streamingParser.cpp:205-222 | a right one takes the whole frame off and delivers its payload |
| `StreamingParser.Parser.DeliverPayload` | src/streamingParser.cpp:208-219 | a payload that decodes is emitted; one that does not is counted and logged |
| `StreamingParser.Parser.ProcessClient` | src/streamingParser.cpp:121-227 | the loop over the client's buffer terminates, never peeks or consumes out of range, and has exactly the effect of the machine's run |
| `StreamingParser.Parser.FeedClient` | src/streamingParser.cpp:79-92 | a chunk is refused exactly when it does not fit, and then nothing else happens |
| `StreamingParser.Parser.HandleChunk` | src/streamingParser.cpp:65-99 | one chunk changes one client and the shared book as the routing function says, and leaves all other clients' objects alone |
| `StreamingParser.Parser.Run` | src/streamingParser.cpp:57-107 | a whole run over the popped chunks has the state, output, counter and log of the routing function |
| `Routing.RecordConcat` | src/streamingParser.cpp:195-219 | entering two runs of events into queue, wrapping counter and log is entering their concatenation |
| `Routing.MessagesConcat` | src/streamingParser.cpp:195-219 | the log messages of two runs are those of the first and then those of the second |
| `Sessions.ClientsFollowSessions` | src/streamingParser.cpp:60-92 | after any history, the state kept for a socket is that of its open session alone |
| `Sessions.ChunkFollows` | src/streamingParser.cpp:80-92 | a chunk that fits beside the leftover of its session continues the scan of that session |
| `Sessions.SessionIsolated` | src/streamingParser.cpp:60-100 | for every interleaving of clients and disconnections in which every chunk fits beside the leftover of its session, each session yields exactly the scan of its own bytes |
| `Sessions.DroppedExactly` | src/streamingParser.cpp:80-88 | a client is dropped in a history if and only if some chunk does not fit beside the leftover of its session |
| `Sessions.BoundedNeverOverflows` | src/streamingParser.cpp:80-88 | chunks of at most 65275 bytes, beside which any leftover fits, never overflow |
| `Sessions.BookOfEvents` | src/streamingParser.cpp:81-104 | what was emitted and counted is that of all sessions' events, dropped clients or not |
| `Sessions.CounterIsSumOverSessions` | src/streamingParser.cpp:196-217 | the failure counter is the sum of the failures of all sessions of all sockets, modulo its width |
| `Sessions.CounterBelowWidth` | include/streamingParser.h:91 | while that sum is below two to the 64, the counter is the sum |
| `Sessions.MessagesCounted` | src/streamingParser.cpp:196-218 | each mismatch and each malformed payload is logged once, and events log nothing else |
| `Sessions.CleanUpsLogged` | src/streamingParser.cpp:67-76 | each session that has ended is logged as cleaned up, once |
| `Sessions.WholeRun` | src/streamingParser.cpp:57-107 | a whole run handles every chunk, between its first message and its last, which shows the counter |
| `Sessions.YieldedSoFar` | src/streamingParser.cpp:60-92 | having taken part of the history, the parser has yielded a beginning of each session's scan |
| `RoundTrip.PacketBuiltExactly` | tests/drone_load_test.py:89-107 | the script builds a packet if and only if the id is ASCII and the payload length fits its field |
| `RoundTrip.CorruptPacketRejected` | tests/drone_load_test.py:113-114 | a packet corrupted on purpose is rejected and counted where it stands |
| `RoundTrip.FrameIsTaken` | tests/drone_load_test.py:105-117 | a framed legal payload is taken, whatever follows, and the rest is scanned as if it stood alone |
| `RoundTrip.LongFrameIsNotTaken` | src/streamingParser.cpp:161-166 | a frame with a payload of more than 256 bytes is garbage |
| `RoundTrip.EmittedIdsAreShort` | include/streamingParser.h:60 | no record ever emitted has an id longer than 214 |
| `RoundTrip.StreamRoundTrip` | tests/drone_load_test.py:81-117 | the packets of a list of reports, in any chunking, come back as records that carry, in order, the same characters and the same five numbers, if and only if no id is longer than 214; then nothing fails and nothing is left |
| `RoundTrip.CarriesExactly` | tests/drone_load_test.py:89-92 | a record carries a report, character by character and number by number, if and only if it is the one the encoder makes of it |
| `RoundTrip.DronesKeptApart` | src/businessLogic.cpp:44 | two records have the same table key if and only if the reports they carry have the same id |
| `WireLayout.PacketHead` | tests/drone_load_test.py:103-110 | a packet of an id of `n` characters has 48 + n bytes and begins 0xAA, 0x55, 42 + n in two bytes, n in two bytes |
| `WireLayout.PacketId` | tests/drone_load_test.py:89-91 | then come the characters of the id, one byte each |
| `WireLayout.PacketFields` | tests/drone_load_test.py:90-92 | then latitude, longitude, altitude, speed and timestamp, eight bytes each |
| `WireLayout.PacketChecksum` | tests/drone_load_test.py:110-117 | then the checksum of all bytes before it, upper half first |
| `WireLayout.CorruptionFlips` | tests/drone_load_test.py:113-114 | a packet corrupted on purpose has the bits of 0xBEEF flipped in its checksum |
| `WireLayout.EmittedExactly` | src/streamingParser.cpp:195-214 | telemetry is emitted if and only if the stream begins with the sender's frame of a payload of 1 to 256 bytes that begins with the telemetry's encoding |
| `WireLayout.MalformedExactly` | src/streamingParser.cpp:208-219 | a payload is malformed if and only if it is so framed and shorter than its id length says |
| `WireLayout.BadCrcExactly` | src/streamingParser.cpp:195-203 | a mismatch is counted if and only if the stream begins with a frame of such a payload with another checksum |
| `WireLayout.WaitsExactly` | src/streamingParser.cpp:126-178 | the scan waits if and only if it has fewer than two bytes, a header and fewer than four, or the beginning of such a frame |
| `RoundTrip.NestedPacketSkipped` | src/streamingParser.cpp:205-222 | a valid packet inside the payload of a frame with a right checksum is not reported |
| `RoundTrip.RejectedNestSkipped` | src/streamingParser.cpp:195-222 | a valid packet two frames deep, inside a right one inside a wrong one, is not reported either, whatever follows |
| `RoundTrip.StalledPackets` | src/streamingParser.cpp:173-178 | a false header announcing the longest payload holds up everything behind it until 262 bytes are there |
| `QueueProtocol.SafeStep` | include/threadSafeQueue.h:77-101 | every step keeps order and conservation of items, mutual exclusion, and the bound |
| `QueueProtocol.AwakeStep` | include/threadSafeQueue.h:77-101 | every step keeps that, if anybody sleeps, all there is to be had is spoken for by threads that are awake; for producers, unless a push is abandoned |
| `QueueProtocol.AbandonAwakeExactly` | include/threadSafeQueue.h:81-85 | an abandoned push keeps it for producers if and only if none of them sleeps or more of them are awake than places are free |
| `QueueProtocol.StoppedAwakeStep` | include/threadSafeQueue.h:81-94 | no thread sleeps on after its token was asked to stop |
| `QueueProtocol.QueueTheorem` | include/threadSafeQueue.h:77-101 | after any run of any number of threads: pops returned a prefix of the accepted items, the bound holds, no consumer missed a wake-up, nobody sleeps on a stopped token |
| `QueueProtocol.StepIsAtomic` | include/threadSafeQueue.h:77-101 | each step accepts one item at the back, returns the one at the front, or leaves the items and both histories as they are |
| `QueueProtocol.SleepsOnlyIfBlocked` | include/threadSafeQueue.h:92-96 | in any run, a consumer that sleeps while no other is awake does so because the queue is empty and its token not stopped |
| `QueueProtocol.BoundedExactly` | include/threadSafeQueue.h:79-84 | some number of items is never exceeded in any run if and only if the queue has a maximum; a maximum of zero means none |
| `QueueProtocol.NeverStuck` | include/threadSafeQueue.h:77-101 | while some thread is inside a call and awake, one such thread can take its next step |
| `QueueProtocol.EmptyAnswerExactly` | include/threadSafeQueue.h:92-96 | a pop returns nothing if and only if it finds its token stopped and the queue empty |
| `QueueProtocol.RefusedExactly` | include/threadSafeQueue.h:80-85 | a push answers false if and only if it finds its token stopped, in the wait on a full queue or after the wait has succeeded |
| `QueueProtocol.TokensExactly` | include/threadSafeQueue.h:78-94 | a call brings the state of its token with it, a stop marks exactly the threads it is about, and nothing else changes a token |
| `QueueProtocol.StopWakesExactly` | include/threadSafeQueue.h:81-94 | a stop wakes those asleep on a condition exactly if one of the threads it is about waits on it |
| `QueueProtocol.PopFromBeginningToEnd` | include/threadSafeQueue.h:92-101 | a pop on a free queue takes the front item, stopped or not; on an empty one it answers at once with nothing if its token is stopped, and sleeps if not |
| `QueueProtocol.PushFromBeginningToEnd` | include/threadSafeQueue.h:78-89 | a push on a free queue with room queues its item last, unless its token is stopped; without room it answers false if stopped, and sleeps if not |
| `QueueProtocol.SleepersMayWake` | include/threadSafeQueue.h:81-94 | a sleeping thread may wake for no reason, and a stop may come, at any time |
| `QueueProtocol.ProducersMissNothing` | include/threadSafeQueue.h:77-101 | in runs without abandoned pushes, producers miss no wake-up either |
| `QueueProtocol.MissedWakeUp` | include/threadSafeQueue.h:81-85 | a run, with one abandoned push, in which a producer sleeps on beside a free place |
| `DroneTracking.BusinessLogic.constructor` | src/businessLogic.cpp:14-16 | a new table is empty and its counters are zero |
| `DroneTracking.BusinessLogic.ActiveDroneCount` | src/businessLogic.cpp:70-72 | the number of drones in the table |
| `DroneTracking.BusinessLogic.CheckAlerts` | src/businessLogic.cpp:78-95 | an alert for each threshold exceeded, and nothing else changes |
| `DroneTracking.BusinessLogic.ReportThroughput` | src/businessLogic.cpp:103-133 | a report with the packets since the last one, exactly when the interval has elapsed |
| `DroneTracking.BusinessLogic.HandlePacket` | src/businessLogic.cpp:41-51 | one packet is entered, counted, checked for alerts and perhaps reported, as the tracking function says |
| `DroneTracking.BusinessLogic.Run` | src/businessLogic.cpp:30-67 | a whole run has the table, counters and notes of the tracking function |
| `DroneTracking.TableHoldsLatest` | src/businessLogic.cpp:36-52 | the table holds the latest packet of every drone heard of and nothing else, and the counter the number of packets, modulo two to the 64, whatever the clock showed |
| `DroneTracking.ReportsAddUp` | src/businessLogic.cpp:103-133 | the intervals of all reports and the packets since the last one add up to the packets handled, modulo the counter's width |
| `DroneTracking.WholeTrackerRun` | src/businessLogic.cpp:30-67 | a whole run handles every packet, between its first note and its last, which shows the counter and the number of drones |
| `DroneTracking.AlertsExactly` | src/businessLogic.cpp:78-95 | there is an altitude alert exactly on patterns above that of 120.0 and at most that of infinity, a speed alert likewise above 50.0, and nothing else |
| `DroneTracking.NotesOfPacket` | src/businessLogic.cpp:103-133 | a packet adds its alerts, and a report with the three right counts if and only if five seconds have gone by |
| `Logger.AsyncLogger.WriteMessage` | src/asyncLogger.cpp:56-65 | a message goes to standard output, and the file, if open, mirrors it |
| `Logger.AsyncLogger.Drain` | src/asyncLogger.cpp:90-99 | draining terminates, writes what was queued in order, and leaves nothing |
| `Logger.AsyncLogger.Run` | src/asyncLogger.cpp:78-100 | the main loop takes one message a pop as long as the input goes on, unless a pop finds nothing; everything pushed until its last pop is written once, in order, and nothing is left |
| `Listener.NetworkListener.constructor` | src/listener.cpp:74-76 | a new listener owns no sockets and a receive buffer of 4096 bytes |
| `Listener.NetworkListener.HandleAccept` | src/listener.cpp:195-263 | every accepted socket that could be set up becomes a client; one that could not is logged and not kept |
| `Listener.NetworkListener.HandleClientData` | src/listener.cpp:275-307 | each piece received is pushed as a chunk of its own, in order, and the result tells whether the socket stays |
| `Listener.NetworkListener.DisconnectClient` | src/listener.cpp:318-333 | the client is erased and an empty chunk pushed |
| `Listener.NetworkListener.HandleEvent` | src/listener.cpp:375-406 | one ready event has the effect its flags and the results of its calls decide |
| `Listener.NetworkListener.HandleBatch` | src/listener.cpp:374-407 | the events of a batch in order, up to a shutdown event |
| `Listener.NetworkListener.Run` | src/listener.cpp:346-408 | a whole run has the clients, raw queue and log of the listener function |
| `Listener.AcceptDisciplined` | src/listener.cpp:259-261 | a socket number accepted again begins a session of its own |
| `Listener.ReceiveDisciplined` | src/listener.cpp:280-286 | received bytes join the session of the connection they arrived on, and no other |
| `Listener.DisconnectDisciplined` | src/listener.cpp:318-326 | a disconnection ends exactly that session |
| `Listener.DispatchDisciplined` | src/listener.cpp:375-406 | every event keeps sessions and connections in step, and the sockets still to be served in a batch stay open |
| `Listener.SessionsAreConnections` | src/listener.cpp:346-408 | after any run, the sessions cut out of the raw queue for a socket are exactly what was received on its connections, one by one, even if the number is reused; chunks are at most 4096 bytes |
| `Listener.RunLeads` | src/listener.cpp:346-408 | whatever the listener does is a sequence of possible single operations, each with at most one push |
| `Listener.ClientEventEffect` | src/listener.cpp:394-405 | after an event its socket is open if and only if there was no hang-up and reading, if possible, drained it; what was read joins the connection and the raw queue piece by piece; no other socket is concerned |
| `Listener.IncomingEffect` | src/listener.cpp:195-263 | exactly the arrivals that could be set up become connections, and nothing is pushed |
| `Listener.RunServesEveryEvent` | src/listener.cpp:359-407 | while no wait fails and no shutdown comes, every event of every wait is served, in order, across interrupted waits |
| `Listener.OneConnectionServed` | src/listener.cpp:346-408 | a connection on any socket, with any pieces received on it, is possible and is served from its acceptance to its end |
| `Pipeline.PushesFollowBook` | src/streamingParser.cpp:65-99 | what the parser thread pushes for a chunk, one by one, is what handling the chunk emits and logs; it drops the client exactly when the chunk does not fit |
| `Pipeline.SoundStep` | src/main.cpp:95-130 | every step of every thread keeps: sessions are connections, the parser's debt to the parsed queue, the table, the logger's order, and main's joins |
| `Pipeline.EndToEnd` | src/businessLogic.cpp:36-52 | after any run: what was emitted, with what is about to be, is the telemetry of the chunks taken; the table holds the latest packets of a prefix of it; counter and queue length add up; no client was dropped |
| `Pipeline.ConnectionScanned` | src/streamingParser.cpp:57-107 | after any run, the events of each connection are a beginning of the scan of the bytes received on it, and all of it once the raw queue is used up |
| `Pipeline.YieldInterleavesScans` | src/streamingParser.cpp:57-107 | after any run, every event yielded belongs to exactly one connection, whose events in their order are a beginning of its scan |
| `Pipeline.LoggerLosesNothing` | src/asyncLogger.cpp:78-100 | after any run, the logger has written a beginning of all messages ever pushed, and all of them if it has ended |
| `Pipeline.EveryStepWorks` | src/main.cpp:111-130 | once the listener has ended, each step of any thread leaves less work in a well-founded order |
| `Pipeline.NeverStuck` | src/main.cpp:115-130 | while main waits to join a thread, that thread can take a step or can be joined |
| `Pipeline.AwaitedIsSchedule` | src/main.cpp:115-130 | letting the awaited thread take the next step is a schedule, so schedules exist |
| `Pipeline.ShutdownCompletes` | src/main.cpp:109-130 | after the interrupt and the end of the listener, every schedule brings main to its end, with every message ever pushed written |
| `Delivery.NobodyEndsEarly` | src/main.cpp:105-130 | in every run, the parser ends only after the listener has been joined, the drone table only after the parser, the logger only after both; before the interrupt none of them does |
| `Delivery.ParserLoop` | src/streamingParser.cpp:60-63 | at its head the parser goes on to pop unless main has come to stop it; a pop takes what there is, stopped or not, ends the loop if there is nothing and it is stopped, and blocks otherwise |
| `Delivery.LogicLoop` | src/businessLogic.cpp:36-39 | the same for the drone table |
| `Delivery.LoggerLoop` | src/asyncLogger.cpp:80-96 | the same for the logger, and its drain ends exactly when there is nothing left |
| `Delivery.ParserCatchesUp` | src/streamingParser.cpp:60-100 | from every state before the interrupt, steps of the parser alone take and push everything received |
| `Delivery.LogicCatchesUp` | src/businessLogic.cpp:36-52 | likewise the drone table takes every packet pushed |
| `Delivery.LoggerCatchesUp` | src/asyncLogger.cpp:80-85 | likewise the logger writes every message pushed |
| `Delivery.EverythingReceivedIsDelivered` | src/main.cpp:95-107 | from every state reached before the interrupt, these threads can go on so that the table holds the latest packet of every drone in the scans of all sessions, and every message is written |
| `Delivery.PacketReachesTable` | src/main.cpp:95-107 | from the beginning, one packet received on any connection can be brought into the table |
| `Delivery.FinalLog` | src/main.cpp:111-130 | when main has come to its end, what was written holds, in order, every message of the listener, of the parser from first to last, and of the drone table |

## Left out

- Sockets, epoll, fcntl and eventfd themselves: what these calls return is input. That the events of a batch name distinct sockets registered when the wait returned, that `accept` returns no number that is still open here, and that `recv` returns 1 to 4096 bytes are assumptions on that input (`Listener.BatchPossible`).
- Failures of the listener's setup calls, which throw out of its thread, and files or directories the logger cannot open.
- Log text and number formatting: a message is a value; the rates in throughput reports and in the final summary, which are floating-point quotients of a count and a time, are not part of it.
- Floating-point meaning: the four fields are 64-bit patterns that travel unchanged. Only the two alert thresholds look inside, through the order of positive patterns.
- Timestamps are 64-bit patterns, so the sender's exception for a timestamp outside that range is not modelled.
- Host byte order and memory copies: a field is read as the big-endian value of its bytes, and a block copy is a parallel assignment. Allocation failure is out.
- The width of `size_t`: sizes and offsets are unbounded. The two 64-bit counters wrap.
- Threads blocked on a full queue inside the pipeline: main makes all queues unbounded; `QueueProtocol` covers bounded ones.
- The queue as an object: it is modelled as steps of its threads, since its point is their interleaving.
- RingBuffers.RingBuffer.Push: does not cover pushing nothing into a buffer of no capacity, because the remainder by zero there is undefined; the same holds of consuming nothing from one.
- FrameIntegrity.BurstDamageRejected: is about damage to the bytes the checksum covers; `FrameIntegrity.BurstDamageTakenExactly` is about damage anywhere.
- Listener.NetworkListener.HandleAccept: does not state that a socket which could not be set up is closed, because closing is left to the handle's destructor and sockets themselves are not modelled.
- DroneTracking.BusinessLogic.Run: reads the clock once per packet and once at the start, as inputs; the reading at shutdown, used only for a rate, is left out.
- Logger.AsyncLogger.Run: takes what others push during its main loop as input, and assumes nothing about when; that nobody pushes during the drain is proved in `Pipeline`.
- Pipeline.EndToEnd: does not claim delivery of everything at shutdown, because the parser and the drone table stop without draining their queues.
- Pipeline.ShutdownCompletes: begins when the listener has ended, because a peer that never stops sending can keep the listener in its read loop.
- The switch inside `process_client` is split into one method per case, and the try blocks around push and processing into statuses; the handler for unexpected errors is unreachable.
- Load-test profiles, dashboard, statistics, command-line parsing and build scripts.
