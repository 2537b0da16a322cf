# Stack-chan bridge and firmware: a verified model

The firmware of the desktop robot and its ROS bridge keep several pieces of state that have to stay
right over long, messy runs: chunks of audio that arrive out of order, an audio codec written three
times, a motion scheduler driven by ticks and servos that may fail, event queues with priorities and
cursors, and speech sessions that are invalidated while transcriptions are in flight. This project
models those pieces in Dafny and proves what they promise over every input and every run.

Each core has a value-level model (what one call or one step does) and, where the program updates its
variables in place, a class whose methods are proved to do exactly that. The theorems are about the
value-level model; the methods connect them to fields, arrays and loops.

- **Reassembly of a loaded transfer.** `Reorder` is the abstract windowed receiver, `LoadedAudio` the
  session, `LoadedDelivery` its delivery theorems, `SlotTable` and `LoadedReassembler` the 32 slots and
  the variables. After any deliverable order the session is determined by the set of chunks delivered.
- **Streaming playback.** `Streaming`, `StreamingPlayer` and `FrameWriter`: jitter buffer, chunk guard and
  320-sample frames move in lockstep, and the speaker hears each sample once and in order.
- **IMA ADPCM** (section 4.5.1 of RFC 3551, with a little-endian header, low nibble first and the header
  sample emitted). `Ima`, `AdpcmStream`, `AdpcmEncoder`, `AdpcmDecoder`, `AdpcmRoundTrip`,
  `LoadedPlayback`, `EndToEnd`: encoder, payload decoder and incremental playback have one meaning.
- **Motion.** `Servo`, `Easing`, `MotionPlan`, `Runtime`, `Scheduler`, `MotionAnswers`, `ShakeWave`,
  `MotionRuns`, `MotionTiming`, `MotionControl`: every write stays inside the limits, every planned waypoint is
  reached once and in order, every accepted motion takes its time and is over in bounded time, and scheduler and
  runtime state agree.
- **Calibration.** `Calibration`: the FNV-1a checksum detects every single-byte corruption of the stored image.
- **Speech sessions.** `Speech`, `SpeechTables`: invalidation is final for work in flight, and of every other
  utterance exactly its outcome is told.
- **Events.** `EventQueue`, `EventRing`: a bounded FIFO with eviction, and its ledger. `Json`,
  `JsonRoundTrip`, `JsonRecogniser`, `JsonPayload`: the recogniser accepts exactly a grammar (sections 4,
  6 and 7 of RFC 8259 without nesting or exponents, leading zeros allowed), and everything ever queued is
  accepted. `Collections`, `OrderedTable`, `EventIds`, `EventBuffer`, `EventDelivery`, `EventStore`: the bridge's
  rings and cursors. `Debounce`, `DebounceTable`: suppression against the full history.
- **Voice activity.** `Vad`, `VadMachine`: utterances are disjoint slices of the stream, and no onset of
  speech is missed.

Where a wished-for property is false of the code, the code is modelled as it is and the exact condition
is proved:

- A transfer is not accepted in every windowed order. A loaded chunk ahead of its turn has to be at most 256
  bytes, although up to 1280 are allowed: every chunk of an order is accepted exactly when it starts with chunk
  0, stays in the window and sends only such chunks early (`LoadedDelivery.AcceptedExactlyWhen`); a larger one is
  refused and leaves no trace (`EarlyLargeChunkIsDropped`, `EarlyLargeRun`). A streaming session survives exactly
  the orders that stay in its window and send only chunks of at most 640 bytes early
  (`Streaming.ActiveExactlyWhen`); a larger one ends it (`EarlyLargeChunkEndsSession`).
- The shake trajectory ignores the intensity that its waypoints are validated with. Its yaw offset runs from
  -84 to 85 degrees, so of every accepted shake some tick leaves the degree limits exactly when home does not
  leave that room (`ShakeWave.ShakeInsideExactlyWhen`, `MotionRuns.AcceptedShakeExactlyWhen`); from home 60 a
  shake at intensity 0 is sent to 145 degrees at its first peak (`MotionRuns.GentleShakeOvershoots`). It still
  comes to rest from homes between -60 and 84 degrees of yaw, and only from those, where the raw check lets it
  through (`MotionTiming.AcceptedMotionComesToRest`, `ShakeWithoutRoomNeverRests`).
- A chunk stored when the millisecond clock reads 0 leaves a session that never lapses, because 0 also stands for
  "never"; in any other session another command takes over 6000 ms after the last stored chunk, and not before
  (`LoadedDelivery.TakeoverExactlyWhen`).
- A streaming goal at 8 kHz is admitted by the shape check and ended by the guard on its first chunk
  (`Streaming.PlaysExactlyAt16kHz`).
- A declared ADPCM size one sample short passes for padding when the sample count is odd
  (`AdpcmRoundTrip.DeclaredExactlyWhen`), and admitted sizes above 131058 bytes cannot fit the load buffer
  (`AdpcmStream.AdmittedPayloadFits`).
- The payload decoder writes one byte past an odd capacity below the total, exactly when a sample is left for
  the last byte (`AdpcmDecoder.OverrunsExactlyWhen`, with an input in `ThreeBytesOverrun`). The contract tests,
  which alone call it, are given even capacities.
- The load service advances past held chunks without draining them. An accepted request keeps the held chunks
  inside the window exactly when it opens a session or the next chunk is not held
  (`LoadedAudio.ServiceKeepsWindowExactlyWhen`, with a run in `LoadedDelivery.MixedRunStrands`), so slot claims
  are for topic-only sessions; the prefix claim survives every mix (`LoadedDelivery.PrefixSurvivesEveryMix`).
- After a totals mismatch during draining the slot counter wraps to 255 (`DrainSlot`, exactly when the final
  check fails); nothing reads it before it is reset, because the session has to start again.
- Looking left or right is accepted only below a sixth or from five sixths of full intensity
  (`MotionPlan.AcceptedExactlyWhen`), for intensities as exact reals. The 32-bit float nearest to five sixths,
  0.83333331, lies just below, so the condition refuses it; the code accepts it, because six times it rounds
  to 5.0.
- An utterance ended by silence is empty exactly when the end silence is not longer than the post-roll
  (`Vad.EmptyExactlyWhen`).
- A tombstone without jobs in flight lapses after 300 seconds (`Speech.ForgottenExactlyWhen`).
- Eviction from the debounce table forgets: the whole history decides exactly while no more emissions than the
  table holds are within the window (`Debounce.WholeHistoryExactlyWhen`), and otherwise the last emissions do,
  as many as the table holds (`Debounce.SuppressedExactlyWhen`).

Conventions: time is a natural number that the caller passes in; servo, torque, speaker, transport and
recogniser outcomes are arguments; 32-bit wrap-around is written out with `Wrap32` where it can matter,
and counters that are a byte wide wrap at 256. Python's `|`, `<<` and `>>` and C's masks on non-negative
values are written as sums, products and quotients by powers of two. Sizes such as 32 load
slots and 8 jitter slots are those of the default build.

## Model

| member | source | states |
|---|---|---|
| Reorder.RunTracks | firmware/m5stackchan-microros/src/main.cpp:8530-8632 | After any windowed delivery of in-range chunks, in any order and with duplicates, the next awaited number is the first gap of the delivered set, the output is the plain concatenation below it and the held chunks are exactly the delivered ones above it |
| Reorder.Confluence | firmware/m5stackchan-microros/src/main.cpp:8576-8632 | Two windowed deliveries of the same set of chunks end in the same receiver state, whatever their orders and duplicates |
| Reorder.WindowLeavesRoom | firmware/m5stackchan-microros/src/main.cpp:8383-8440 | Pigeonhole: distinct numbers strictly inside the window, one of its numbers missing, are fewer than the slots |
| SlotTable.FullWhenCountReached | firmware/m5stackchan-microros/src/main.cpp:8412-8424 | A slot table holds no more sequences than it has slots, and exactly as many when every slot is occupied |
| SlotTable.Table.Find | firmware/m5stackchan-microros/src/main.cpp:8373-8381 | Finds a slot exactly when the sequence is held, and that slot holds it |
| SlotTable.Table.Hold | firmware/m5stackchan-microros/src/main.cpp:8412-8437 | Stores the item under its sequence in a free slot, or refuses exactly when every slot is occupied, changing nothing |
| SlotTable.Table.Release | firmware/m5stackchan-microros/src/main.cpp:8554-8558 | Frees one slot: exactly its sequence is no longer held |
| LoadedAudio.ProcessKeepsSound | firmware/m5stackchan-microros/src/main.cpp:8442-8528 | Processing the awaited chunk keeps the session sound, including that a complete session has all its chunks and, for PCM, all its bytes |
| LoadedAudio.DrainKeepsSound | firmware/m5stackchan-microros/src/main.cpp:8530-8574 | Draining keeps the session sound and leaves every held chunk strictly above the awaited number |
| LoadedAudio.TopicKeepsSound | firmware/m5stackchan-microros/src/main.cpp:8576-8632 | A topic chunk keeps the session sound and its held chunks strictly inside the window of 32 |
| LoadedAudio.ServiceKeepsSound | firmware/m5stackchan-microros/src/main.cpp:8634-8727 | A load request keeps the session sound |
| LoadedAudio.TopicNeverFindsBufferFull | firmware/m5stackchan-microros/src/main.cpp:8412-8424 | A topic chunk that would be held always finds a free slot: the branch for a full future buffer is unreachable for topic-only sessions |
| LoadedAudio.ResetsExactlyWhen | firmware/m5stackchan-microros/src/main.cpp:8442-8528 | A later chunk resets the session exactly when it ends the stream, fits, and the totals, counted with it, do not match |
| LoadedAudio.ServiceKeepsWindowExactlyWhen | firmware/m5stackchan-microros/src/main.cpp:8688-8703 | An accepted load request keeps the held chunks strictly inside the window exactly when it opens a session or the next chunk is not held |
| LoadedAudio.EveryRunIsSound | firmware/m5stackchan-microros/src/main.cpp:8576-8727 | Every run of both transports is sound; every topic-only run also keeps its held chunks inside the window |
| LoadedDelivery.ProcessExtendsPrefix | firmware/m5stackchan-microros/src/main.cpp:8442-8528 | The awaited chunk of a well-formed transfer is accepted, extends the stored prefix by exactly its bytes, notes the time, and completes the session exactly when it is the last |
| LoadedDelivery.PrefixSurvivesEveryMix | firmware/m5stackchan-microros/src/main.cpp:8576-8727 | From the empty session every mix of topic chunks and load requests of a transfer, in any order, with duplicates and restarts, leaves the empty session or the concatenation of chunks 0 to expected - 1 |
| LoadedDelivery.MixedRunStrands | firmware/m5stackchan-microros/src/main.cpp:8688-8703 | From the empty session, topic chunks 0 and 2 and service chunk 1 leave chunk 2 in its slot although it is the awaited one |
| LoadedDelivery.TopicAgrees | firmware/m5stackchan-microros/src/main.cpp:8576-8632 | One topic delivery inside the window, of at most 256 bytes if it is ahead of its turn, is accepted and does exactly what the abstract in-order receiver does |
| LoadedDelivery.AcceptedExactlyWhen | firmware/m5stackchan-microros/src/main.cpp:8251-8440 | From every ready session, every chunk of an order is accepted exactly when the order is deliverable: it starts with chunk 0, stays within 32 of the awaited chunk, and only chunks of at most 256 bytes come ahead of their turn |
| LoadedDelivery.EarlyLargeChunkIsDropped | firmware/m5stackchan-microros/src/main.cpp:8396-8402 | A chunk of more than 256 bytes ahead of its turn is refused inside the window and leaves no trace |
| LoadedDelivery.EarlyLargeRun | firmware/m5stackchan-microros/src/main.cpp:8396-8402 | From the empty session chunk 0 and then a chunk 2 of more than 256 bytes leave what chunk 0 left, and the malformed code |
| LoadedDelivery.DeliveryDeterminesSession | firmware/m5stackchan-microros/src/main.cpp:8251-8632 | After any deliverable order the session is determined by the set delivered: first gap, concatenation below it, held chunks above it, complete exactly when nothing is missing |
| LoadedDelivery.FullDelivery | firmware/m5stackchan-microros/src/main.cpp:8251-8632 | When every chunk has arrived in a deliverable order the session is complete and holds the whole transfer |
| LoadedDelivery.LoadedConfluence | firmware/m5stackchan-microros/src/main.cpp:8251-8632 | Equal sets delivered in deliverable orders leave equal sessions, from any ready sessions, at any times |
| LoadedDelivery.PastWindowIsDropped | firmware/m5stackchan-microros/src/main.cpp:8403-8411 | A chunk more than 32 past the awaited one is refused and leaves no trace |
| LoadedDelivery.EarlyChunkAnswers | firmware/m5stackchan-microros/src/main.cpp:8383-8440 | A chunk ahead of its turn inside the window is held, or answered as held already, exactly when it is held already or of at most 256 bytes with a slot free; otherwise it is refused and nothing changes |
| LoadedDelivery.WrongShapeIsRefused | firmware/m5stackchan-microros/src/main.cpp:8262-8320 | A chunk of the wrong device, during a goal, of the wrong format, size or totals changes nothing, and the first requirement it misses decides the code |
| LoadedDelivery.MisfitIsRefused | firmware/m5stackchan-microros/src/main.cpp:8327-8371 | A well-shaped chunk that opens no session is refused without change: busy for another command while one is loading, unsupported for another format or rate, malformed for other totals or the wrong turn |
| LoadedDelivery.FirstChunkAcceptedExactlyWhen | firmware/m5stackchan-microros/src/main.cpp:8144-8241 | Into the empty session goes exactly a first chunk of the right shape outside a goal, one that claims to be the last only if it is all there is; it opens the session with its own fields and bytes |
| LoadedDelivery.ProcessAnswers | firmware/m5stackchan-microros/src/main.cpp:8442-8528 | A later chunk is stored behind the others, refused without change when it does not fit 32 KiB, or resets the session when it ends a stream whose totals do not match |
| LoadedDelivery.TakeoverExactlyWhen | firmware/m5stackchan-microros/src/main.cpp:8136-8142 | Chunk 0 of another command opens that command's session, over either transport, exactly when the present one is empty, complete, or neither playing nor younger than 6000 ms since its last stored chunk; otherwise it leaves the session as it is with the busy code |
| LoadedDelivery.SecondCommandWaits | firmware/m5stackchan-microros/src/main.cpp:8322-8340 | From the empty session: after chunk 0 of one command, chunk 0 of a second one is refused as busy for 6000 ms and then takes over |
| LoadedDelivery.PlayingIsNotTakenOver | firmware/m5stackchan-microros/src/main.cpp:8136-8142 | While the buffer plays, an unfinished session is not taken over, however old it is |
| LoadedDelivery.DeliveryIsARun | firmware/m5stackchan-microros/src/main.cpp:8576-8632 | A delivery is a run of topic inputs of the session |
| LoadedReassembler.Reassembler.Reset | firmware/m5stackchan-microros/src/main.cpp:758-795 | Afterwards the variables stand for the empty session and no slot is occupied |
| LoadedReassembler.Reassembler.BufferFuture | firmware/m5stackchan-microros/src/main.cpp:8383-8440 | The slots, the counter and the result are those of holding the chunk; the counter always equals the occupied slots |
| LoadedReassembler.Reassembler.Append | firmware/m5stackchan-microros/src/main.cpp:8442-8528 | The payload is copied behind what is stored, or refused without change exactly when it does not fit |
| LoadedReassembler.Reassembler.Store | firmware/m5stackchan-microros/src/main.cpp:8442-8528 | Payload, awaited number, completion and final check follow the session; a mismatch leaves the reset session |
| LoadedReassembler.Reassembler.ProcessInOrder | firmware/m5stackchan-microros/src/main.cpp:8442-8528 | The variables follow the session step; chunk 0 opens a new session first |
| LoadedReassembler.Reassembler.DrainSlot | firmware/m5stackchan-microros/src/main.cpp:8542-8561 | One held chunk is played and its slot freed; the counter falls by one, or wraps to 255 exactly when the final check on that chunk fails |
| LoadedReassembler.Reassembler.DrainFuture | firmware/m5stackchan-microros/src/main.cpp:8530-8574 | The loop does what recursive draining does, and stops at the first gap or error |
| LoadedReassembler.Reassembler.HandleTopic | firmware/m5stackchan-microros/src/main.cpp:8576-8632 | The variables, slots and counter follow the topic step for every chunk, with its result code |
| LoadedReassembler.Reassembler.HandleService | firmware/m5stackchan-microros/src/main.cpp:8634-8727 | The variables follow the service step for every request, with its result code |
| LoadedReassembler.Reassembler.SessionStale | firmware/m5stackchan-microros/src/main.cpp:8136-8142 | Whether the session on these variables is a stale one, which `LoadedDelivery.TakeoverExactlyWhen` ties to 6000 ms |
| LoadedReassembler.Reassembler.ValidateTopicChunk | firmware/m5stackchan-microros/src/main.cpp:8262-8371 | The result code of the topic checks on these variables |
| LoadedReassembler.Reassembler.ValidateServiceRequest | firmware/m5stackchan-microros/src/main.cpp:8144-8241 | The result code of the load request checks on these variables |
| FrameWriter.Writer.QueueFrame | firmware/m5stackchan-microros/src/main.cpp:6665-6719 | The partial frame leaves as one frame unless the speaker refuses it; the samples heard and still buffered stay the same sequence |
| FrameWriter.Writer.CopySamples | firmware/m5stackchan-microros/src/main.cpp:6780-6786 | Copies samples behind the partial frame and touches nothing before it |
| FrameWriter.Writer.AppendBlock | firmware/m5stackchan-microros/src/main.cpp:6774-6802 | One block of at most a frame: the sequence of all samples grows by exactly the block |
| FrameWriter.Writer.AppendPcm | firmware/m5stackchan-microros/src/main.cpp:6766-6805 | All samples so far, queued frames first and the partial frame last, grow by exactly the samples of the chunk; full frames leave, and a full partial frame is never kept |
| FrameWriter.Writer.AppendSample | firmware/m5stackchan-microros/src/main.cpp:6807-6827 | The same for a single sample |
| Streaming.AcceptKeepsSound | firmware/m5stackchan-microros/src/main.cpp:7799-7873 | Whatever arrives, pending chunks stay well shaped, of at most 640 bytes and strictly inside the window of 8 |
| Streaming.JitterBufferNeverFull | firmware/m5stackchan-microros/src/main.cpp:6872-6944 | A pending chunk inside the window always finds a slot |
| Streaming.PlaysExactlyAt16kHz | firmware/m5stackchan-microros/src/main.cpp:6829-6870 | A well-shaped awaited chunk is played exactly when the session runs at 16 kHz; at 8 kHz the guard ends the session |
| Streaming.EveryRunIsSound | firmware/m5stackchan-microros/src/main.cpp:7799-7873 | Every run of chunks, malformed ones included, keeps the pending chunks in the window |
| Streaming.AcceptAgrees | firmware/m5stackchan-microros/src/main.cpp:7799-7873 | One delivery inside the window, of at most 640 bytes if it is ahead of its turn, does exactly what the abstract in-order receiver does |
| Streaming.ActiveExactlyWhen | firmware/m5stackchan-microros/src/main.cpp:6872-7050 | A session survives a delivery exactly when its order is deliverable: it stays within 7 of the awaited chunk, and only chunks of at most 640 bytes come ahead of their turn |
| Streaming.EarlyLargeChunkEndsSession | firmware/m5stackchan-microros/src/main.cpp:6889-6895 | Chunk 1 of more than 640 bytes before chunk 0 ends the session |
| Streaming.DeliveryDeterminesStream | firmware/m5stackchan-microros/src/main.cpp:6872-7050 | After any deliverable order the speaker has heard exactly the samples of the chunks below the first gap, each once, in order |
| Streaming.GuardAnswers | firmware/m5stackchan-microros/include/stackchan/audio.hpp:80-121 | The guard accepts exactly the awaited 16 kHz mono chunk of 1 to 1280 bytes of its session, and the first requirement missed decides the code |
| Streaming.ShapeAnswers | firmware/m5stackchan-microros/src/main.cpp:7799-7873 | The shape check lets through PCM of the session at its rate, 8 or 16 kHz, mono, of 1 to 1280 bytes and whole samples, and the first requirement missed decides the code |
| Streaming.AcceptAnswers | firmware/m5stackchan-microros/src/main.cpp:7799-7873 | What becomes of every chunk in every session: one played before is ignored, a foreign or misshapen one ends the session, one ahead is held if of at most 640 bytes and less than 8 ahead and else ends it, the awaited one at 8 kHz ends it |
| StreamingPlayer.ChunkGuard.StartSession | firmware/m5stackchan-microros/include/stackchan/audio.hpp:63-71 | Starts only an idle guard, awaiting sequence 0 of that command |
| StreamingPlayer.ChunkGuard.FinishSession | firmware/m5stackchan-microros/include/stackchan/audio.hpp:73-78 | The guard is idle again |
| StreamingPlayer.ChunkGuard.ValidateChunk | firmware/m5stackchan-microros/include/stackchan/audio.hpp:80-121 | Accepts exactly the awaited 16 kHz mono chunk of the session and then awaits the next; a refusal changes nothing |
| StreamingPlayer.Player.Start | firmware/m5stackchan-microros/src/main.cpp:7568-7674 | A session starts empty and with no frame refused, unless one is active, which stays as it is |
| StreamingPlayer.Player.Finish | firmware/m5stackchan-microros/src/main.cpp:7128-7165 | A finished or aborted session leaves nothing pending and no partial frame |
| StreamingPlayer.Player.BufferPending | firmware/m5stackchan-microros/src/main.cpp:6872-6944 | The slots and the counter follow holding the chunk, and it fails exactly when the session has to end |
| StreamingPlayer.Player.ProcessInOrder | firmware/m5stackchan-microros/src/main.cpp:6946-7016 | With guard and pull sequence in lockstep the gap rejection cannot fire; the chunk is heard whole, or the session ends |
| StreamingPlayer.Player.DrainOne | firmware/m5stackchan-microros/src/main.cpp:7018-7050 | The pending chunk is heard and its slot freed |
| StreamingPlayer.Player.DrainPending | firmware/m5stackchan-microros/src/main.cpp:7018-7050 | The loop does what recursive draining does |
| StreamingPlayer.Player.Accept | firmware/m5stackchan-microros/src/main.cpp:7799-7873 | Guard, pull sequence, slots and frames together follow the session step for every chunk, active or not, and stay in lockstep; a refused frame ends the session |
| StreamingPlayer.Player.Deliver | firmware/m5stackchan-microros/src/main.cpp:7799-7873 | Chunk after chunk the player follows the run of the session, until the speaker refuses a frame |
| StreamingPlayer.Player.PlaySession | firmware/m5stackchan-microros/src/main.cpp:7568-7873 | A session started and delivered in any order is still active exactly when the order is deliverable and no frame was refused, and then the speaker has been given exactly the samples below the first gap |
| Ima.QuantisationBound | ros/stackchan_bridge/stackchan_bridge/audio_codec.py:135-171 | A sample within two steps of the predictor is reconstructed to within step/8 + 2 even after clamping; otherwise the error strictly shrinks and the step index rises by 8, up to 88 |
| Ima.OverloadRaisesIndex | ros/stackchan_bridge/stackchan_bridge/audio_codec.py:135-155 | After n overloaded samples the step index is the starting one plus 8n, capped at 88: eleven reach the cap from any start |
| Ima.StepsGrowByATenth | firmware/m5stackchan-microros/include/stackchan/adpcm.hpp:49-58 | The step table rises from 7 to 32767, each step but the last a tenth more than the one before, rounded down or up |
| Ima.MagnitudeInEighths | firmware/m5stackchan-microros/include/stackchan/adpcm.hpp:63-72 | The difference a nibble stands for is an odd number of eighths of the step, twice its low bits plus one, up to rounding of the quotients |
| Ima.IndexFollowsDifference | ros/stackchan_bridge/stackchan_bridge/audio_codec.py:135-171 | The index falls by one for a difference below the step and rises by 2, 4, 6 or 8 quarter by quarter from there on |
| Ima.SignFollowsDifference | ros/stackchan_bridge/stackchan_bridge/audio_codec.py:135-155 | The sign bit is set exactly for a sample below the predictor, and decoding moves the predictor that way, clamped |
| Ima.Clamps | firmware/m5stackchan-microros/include/stackchan/adpcm.hpp:22-40 | Samples and indices beyond an end of their range become that end, and stay themselves inside it |
| AdpcmStream.UnpackPack | ros/stackchan_bridge/stackchan_bridge/audio_codec.py:121-132 | Unpacking the packed nibbles gives them back, a padding zero after an odd count |
| AdpcmStream.DecodeSplit | firmware/m5stackchan-microros/include/stackchan/adpcm.hpp:141-164 | Decoding two runs of nibbles in a row is decoding them as one |
| AdpcmStream.Lockstep | ros/stackchan_bridge/stackchan_bridge/audio_codec.py:135-171 | After every prefix the decoder is in the state of the encoder |
| AdpcmStream.AdmittedPayloadFits | firmware/m5stackchan-microros/src/main.cpp:291-292 | An encoded payload fits the 32 KiB load buffer exactly up to 131058 decoded bytes, although up to 128 KiB are admitted |
| AdpcmEncoder.EncodeNibble | ros/stackchan_bridge/stackchan_bridge/audio_codec.py:135-171 | Computes the quantised nibble and the decoder-visible next state |
| AdpcmEncoder.EncodeSamples | ros/stackchan_bridge/stackchan_bridge/audio_codec.py:113-132 | The loop produces the header and the packed nibbles of the whole input |
| AdpcmEncoder.EncodeIma4Bit | ros/stackchan_bridge/stackchan_bridge/audio_codec.py:113-132 | Refuses empty and odd-length input and otherwise produces the encoded payload |
| AdpcmDecoder.DecoderState.DecodeNibble | firmware/m5stackchan-microros/include/stackchan/adpcm.hpp:48-82 | Updates predictor and step index in place to the next decoder state |
| AdpcmDecoder.DecodeByte | firmware/m5stackchan-microros/include/stackchan/adpcm.hpp:141-164 | Low nibble first, up to two samples as long as the limit is not reached, or an overflow that is not mere padding |
| AdpcmDecoder.DecodeBytes | firmware/m5stackchan-microros/include/stackchan/adpcm.hpp:141-164 | The loops write the decoded samples of the bytes and leave the rest of the output untouched |
| AdpcmDecoder.DecodeIma4BitPayload | firmware/m5stackchan-microros/include/stackchan/adpcm.hpp:84-167 | For every input and every capacity the result code, the bytes written, the output array and the decoder state are those of the payload meaning, if the array holds what is written |
| AdpcmDecoder.OverrunsExactlyWhen | firmware/m5stackchan-microros/include/stackchan/adpcm.hpp:141-164 | More than the capacity is written, by one byte, exactly when it is odd and below the total and a sample is left for its last byte |
| AdpcmDecoder.ThreeBytesOverrun | firmware/m5stackchan-microros/include/stackchan/adpcm.hpp:141-164 | A header and one byte of nibbles into a capacity of three write four bytes |
| AdpcmDecoder.PayloadAnswers | firmware/m5stackchan-microros/include/stackchan/adpcm.hpp:84-167 | Total, header with its index and reserved byte, room for the header sample, and a continuation begun are required in this order and decide the code; then how many samples are decoded, and whether they fit but for one of padding at the end of the stream |
| AdpcmRoundTrip.RoundTrip | ros/stackchan_bridge/stackchan_bridge/audio_codec.py:113-171 | For every non-empty even-length PCM, decoding the encoder output with its true byte count succeeds with exactly that many bytes, an exact first sample, the encoder's predictors and the encoder's final state |
| AdpcmRoundTrip.DecodesExactlyWhen | firmware/m5stackchan-microros/include/stackchan/adpcm.hpp:84-167 | Exactly which declared byte counts and capacities decode: those that let every sample begin, and one sample less when the sample count is odd |
| AdpcmRoundTrip.DeclaredExactlyWhen | firmware/m5stackchan-microros/include/stackchan/adpcm.hpp:84-167 | With room for the whole transfer: the true byte count or more, and one sample less when the sample count is odd |
| AdpcmRoundTrip.ReconstructionError | ros/stackchan_bridge/stackchan_bridge/audio_codec.py:113-171 | Every decoded sample is within the quantisation bound of the encoded one, or the encoder was overloaded there and moved closer |
| AdpcmRoundTrip.SplitPayload | firmware/m5stackchan-microros/include/stackchan/adpcm.hpp:84-167 | A payload split anywhere after its header and decoded in two calls with what is left of capacity and total gives the result, the samples and the state of one call |
| AdpcmRoundTrip.SplitContinuation | firmware/m5stackchan-microros/include/stackchan/adpcm.hpp:84-167 | The same for a continuation without header |
| LoadedPlayback.Player.StepPcm | firmware/m5stackchan-microros/src/main.cpp:7312-7332 | One frame of the PCM buffer is queued; what has been heard stays a prefix of its samples |
| LoadedPlayback.Player.StartAdpcm | firmware/m5stackchan-microros/src/main.cpp:7336-7374 | The header sample is the first one heard, or a bad header ends the goal |
| LoadedPlayback.Player.PlayNibble | firmware/m5stackchan-microros/src/main.cpp:7386-7402 | The next decoded sample is heard, and the frame fill stays below 320 |
| LoadedPlayback.Player.PlayByte | firmware/m5stackchan-microros/src/main.cpp:7379-7403 | Both nibbles of a byte are heard unless the declared total ends between them: the mid-byte break drops no high nibble |
| LoadedPlayback.Player.StepAdpcm | firmware/m5stackchan-microros/src/main.cpp:7333-7416 | A step decodes to the end of the buffer or the declared total |
| LoadedPlayback.Player.Step | firmware/m5stackchan-microros/src/main.cpp:7307-7447 | When the end of the stream is seen, exactly the samples of the whole buffer have been heard, by either format; until then every step moves on, and only a refused frame or a buffer short of samples ends the goal |
| LoadedPlayback.Player.PlayToEnd | firmware/m5stackchan-microros/src/main.cpp:7307-7447 | Repeated steps reach the end of the stream, with exactly the samples of the whole buffer heard, exactly when the buffer holds every declared sample and no frame is refused |
| EndToEnd.EncodedBufferPlaysReconstruction | firmware/m5stackchan-microros/include/stackchan/adpcm.hpp:84-167 | The samples a complete encoded buffer stands for are the encoder's own reconstruction |
| EndToEnd.EncodedTransferPlaysReconstruction | firmware/m5stackchan-microros/src/main.cpp:8251-8632 | Encoded, sent in any deliverable order and fully received, the buffer stands for that reconstruction |
| EndToEnd.PlayEncoded | firmware/m5stackchan-microros/src/main.cpp:7307-7447 | Played step by step, an encoded buffer gives the speaker exactly the reconstruction, and the end of the stream is reached unless a frame is refused |
| EndToEnd.PlayPcm | firmware/m5stackchan-microros/src/main.cpp:7307-7447 | Played step by step, a PCM buffer is heard byte for byte |
| EndToEnd.PlayTransfer | firmware/m5stackchan-microros/src/main.cpp:7307-8632 | The same as for an encoded buffer, for one that was encoded, sent in any deliverable order and fully received |
| Calibration.HashByteInjective | firmware/m5stackchan-microros/include/stackchan/calibration.hpp:34-44 | Each hash step is injective in the hash and in the byte |
| Calibration.OneByteChangesHash | firmware/m5stackchan-microros/include/stackchan/calibration.hpp:34-59 | Changing exactly one hashed byte changes the hash |
| Calibration.HashWordsIsBytes | firmware/m5stackchan-microros/include/stackchan/calibration.hpp:34-59 | Hashing words is hashing their bytes, low byte first |
| Calibration.MadeRecordValidates | firmware/m5stackchan-microros/include/stackchan/calibration.hpp:102-112 | A made record validates exactly when its servo bounds are safe |
| Calibration.ImageReadsBack | firmware/m5stackchan-microros/include/stackchan/calibration.hpp:17-32 | The 20-byte packed image of a record, written without the hash in mind, is the record: each field reads back from its own bytes |
| Calibration.HashedIsTheImage | firmware/m5stackchan-microros/include/stackchan/calibration.hpp:46-59 | The bytes that are hashed are exactly those of the image, each 16-bit field with two zero bytes behind it: every field is hashed |
| Calibration.ImageCorruptionDetected | firmware/m5stackchan-microros/include/stackchan/calibration.hpp:46-100 | Two records whose images differ in exactly one byte, with the same stored checksum, do not both validate |
| Calibration.ValidatesExactlyWhen | firmware/m5stackchan-microros/include/stackchan/calibration.hpp:61-100 | A record validates exactly with the magic number, version 1, size 24, angles within their degrees and the FNV-1a hash of its image as checksum |
| Calibration.PublishedHashes | firmware/m5stackchan-microros/include/stackchan/calibration.hpp:34-49 | The hash gives the published FNV-1a values of the empty text and of "a" |
| Calibration.FieldCorruptionDetected | firmware/m5stackchan-microros/include/stackchan/calibration.hpp:78-100 | A valid record with exactly one of the hashed bytes changed does not validate; `HashedIsTheImage` says which bytes those are |
| Calibration.ChecksumCorruptionDetected | firmware/m5stackchan-microros/include/stackchan/calibration.hpp:78-100 | A valid record with a different stored checksum does not validate |
| Calibration.Store.Load | firmware/m5stackchan-microros/include/stackchan/calibration.hpp:114-141 | Replaces the record exactly when the new one validates, and otherwise leaves nothing valid behind |
| Servo.LimitsImplyRawValid | firmware/m5stackchan-microros/src/main.cpp:1300-1303 | Inside the degree limits the raw-limit rejection cannot fire |
| Servo.RawValidExactly | firmware/m5stackchan-microros/src/main.cpp:2107-2114 | Exactly which targets the raw check lets through: more than the degree limits do |
| Easing.NoOverflow | firmware/m5stackchan-microros/src/main.cpp:2356-2374 | No intermediate product wraps, so each curve is its mathematical one, within 0 to 1000 |
| Easing.ProgressMonotone | firmware/m5stackchan-microros/src/main.cpp:2376-2396 | Progress stays within 0 to 1000 and never goes back, for every curve and 16-bit duration |
| Easing.ProgressIsTheCurve | firmware/m5stackchan-microros/src/main.cpp:2376-2396 | Progress is the curve at the share of the time that is over, in thousandths rounded down, and 1000 from its end on |
| Easing.CurveShapes | firmware/m5stackchan-microros/src/main.cpp:2341-2374 | Every curve goes from 0 to 1000; those that ease out run ahead of the time, the one that eases in and out is behind in the first half and ahead in the second |
| Easing.InterpolateBetween | firmware/m5stackchan-microros/src/main.cpp:2398-2406 | An interpolated axis lies between its endpoints and reaches them |
| Easing.InterpolateRounds | firmware/m5stackchan-microros/src/main.cpp:2398-2406 | It is the exact point between them rounded to the nearest degree |
| Easing.InterpolateInside | firmware/m5stackchan-microros/src/main.cpp:2408-2416 | Between targets inside a box, the degree limits for one, every interpolated target is inside it |
| MotionPlan.AcceptedPlanIsSafe | firmware/m5stackchan-microros/include/stackchan/motion_safety.hpp:255-309 | Whatever is planned has at most 24 waypoints, each inside the normal limits and with a positive 16-bit time |
| MotionPlan.AcceptedExactlyWhen | firmware/m5stackchan-microros/include/stackchan/motion_safety.hpp:306-563 | With calibration and servos in order a motion is accepted exactly at these intensities: every scaled pitch vanishes or reaches the normal band |
| MotionPlan.AcceptedPlanHoldsRows | firmware/m5stackchan-microros/include/stackchan/motion_safety.hpp:255-563 | An accepted plan has one waypoint for each row of its table, in order, and the servo time of the table |
| MotionPlan.FullPlanTakesNoMore | firmware/m5stackchan-microros/include/stackchan/motion_safety.hpp:255-290 | A 25th waypoint is refused, whatever it is |
| MotionPlan.FullIntensityPlansPreset | firmware/m5stackchan-microros/tests/motion_safety_contract_test.cpp:68-145 | At full intensity and usual duration every motion plans exactly its preset: offsets, holds, times and curves, left and right mirrored |
| MotionPlan.EveryPlanIsScaled | firmware/m5stackchan-microros/include/stackchan/motion_safety.hpp:238-304 | Every accepted plan is its preset with the offsets scaled by the intensity and truncated toward zero, and each hold prolonged with the duration, rounded down but 50 ms at least |
| MotionAnswers.UnplannableIsRejected | firmware/m5stackchan-microros/include/stackchan/motion_safety.hpp:306-347 | Name, intensity in 0 to 1 and duration 0 or 100 to 2000 ms are required before anything is planned, and decide the code in this order; a rejected plan is empty |
| MotionAnswers.PlanAnswers | firmware/m5stackchan-microros/include/stackchan/motion_safety.hpp:347-563 | Then calibration, servos and fault state decide the code, and last whether the intensity is an accepted one |
| MotionAnswers.ValidatedExactlyWhen | firmware/m5stackchan-microros/src/main.cpp:2656-2668 | The targets are let through exactly when home lies within 128 and 0 to 90 degrees and every stop within 128 and at 0 or 5 to 85 degrees |
| MotionAnswers.CommandAnswers | firmware/m5stackchan-microros/src/main.cpp:9055-9108 | Priority, a busy or faulty scheduler, the plan, the targets, the adapter and the torque decide the code in this order; a refused command schedules and writes nothing |
| MotionAnswers.BusyEnqueueChangesNothing | firmware/m5stackchan-microros/src/main.cpp:2637-2647 | Enqueueing refuses while something is under way and changes nothing |
| MotionAnswers.ConnectionAnswers | firmware/m5stackchan-microros/include/stackchan/state_machine.hpp:14-53 | The agent coming makes the runtime idle and its going degrades it, but for a fault, and nothing else changes |
| MotionAnswers.PoseWrittenExactlyWhen | firmware/m5stackchan-microros/src/main.cpp:8890-8990 | A pose is written exactly when the scheduler is free, the pose planned and calibrated, home and target reachable and the servos answer; servos that fail raise a fault |
| MotionAnswers.FailedJobFaultsExactlyWhen | firmware/m5stackchan-microros/src/main.cpp:2620-2635 | A failed job leaves a fault exactly when the code is a safety one or home cannot be written, and home is written whenever it can be |
| MotionAnswers.LegTick | firmware/m5stackchan-microros/src/main.cpp:2515-2562 | A tick on a leg sends where the leg stands, if its end or 25 ms are due, and a target that is not taken ends the job; an end that is taken has been sent and has arrived |
| MotionAnswers.TickAdds | firmware/m5stackchan-microros/src/main.cpp:2703-2856 | Whatever happens, what was sent stays sent and what has arrived stays arrived |
| MotionAnswers.ShakeTick | firmware/m5stackchan-microros/src/main.cpp:2738-2765 | A tick of a shake sends where the trajectory stands, 25 ms after the last one, and a target that is not taken ends the job; after 3000 ms the way home begins |
| MotionAnswers.HoldTick | firmware/m5stackchan-microros/src/main.cpp:2838-2856 | A hold lasts its time, and then the next leg begins, or the way home after the last waypoint |
| Scheduler.TickKeepsAgreeing | firmware/m5stackchan-microros/src/main.cpp:2602-2856 | A tick keeps scheduler and runtime state in agreement; a fault stays, and ends any job |
| Scheduler.StepKeepsAgreeing | firmware/m5stackchan-microros/src/main.cpp:2602-2856 | So does any command, pose, connection change or tick |
| Scheduler.Run | firmware/m5stackchan-microros/src/main.cpp:2564-2856 | Over every interleaving: acting means a job is active, the current motion names the active job or is idle, and a fault is never left |
| Scheduler.SetupAgrees | firmware/m5stackchan-microros/include/stackchan/state_machine.hpp:14-53 | Setup leaves scheduler and state in agreement |
| ShakeWave.YawRange | firmware/m5stackchan-microros/src/main.cpp:2426-2449 | With any wave that mirrors every 300 ms and stays under its parabola, as the sine does, the yaw of the trajectory stays within -84.452 and 85.484 degrees: the first two peaks |
| ShakeWave.SomeWaveIsSine | firmware/m5stackchan-microros/src/main.cpp:2422-2424 | Some wave meets what is asked of the sine |
| ShakeWave.Extremes | firmware/m5stackchan-microros/src/main.cpp:2426-2449 | At 150, 300 and 450 ms the trajectory stands at 85 and 11, at 8, and at -84 and 11 degrees from home |
| ShakeWave.ShakeInsideExactlyWhen | firmware/m5stackchan-microros/src/main.cpp:2426-2449 | The trajectory stays inside a box at every moment from 25 ms on exactly when home leaves it 84 and 85 degrees of yaw and 11 of pitch, less 8 below |
| ShakeWave.ShakeRoomInDegrees | firmware/m5stackchan-microros/src/main.cpp:1300-1303 | For the degree limits home has to lie between -44 and 43 degrees of yaw and between -8 and 79 of pitch; for the raw check, a home inside the limits, between -60 and 84 degrees of yaw |
| MotionRuns.FullShakeLeavesRoom | firmware/m5stackchan-microros/src/main.cpp:2656-2668 | At intensity 1 the enqueued waypoints already demand the room inside the degree limits |
| MotionRuns.AcceptedShakeExactlyWhen | firmware/m5stackchan-microros/src/main.cpp:2738-2765 | Of every accepted shake, at any intensity, some first tick writes past the degree limits or fails exactly when home leaves no room inside them, and some first tick fails exactly when it leaves none inside the raw limits |
| MotionRuns.GentleShakeLeavesTheLimits | firmware/m5stackchan-microros/src/main.cpp:2738-2765 | At intensity 0 a shake is accepted from every home in the normal limits, so that case occurs |
| MotionRuns.GentleShakeOvershoots | firmware/m5stackchan-microros/src/main.cpp:2426-2449 | From a home past 43 degrees of yaw, say 60, the accepted shake writes home + 85, say 145, 150 ms after it began |
| MotionRuns.AdvanceSafe | firmware/m5stackchan-microros/src/main.cpp:2515-2562 | A segment between safe targets writes only safe targets, and its completion writes its end |
| MotionRuns.TickSafe | firmware/m5stackchan-microros/src/main.cpp:2703-2856 | For the degree limits and for the raw ones: a tick writes only inside them and keeps the stops in order; with working servos no fault is raised, at most one stop is reached, and the job ends only after home |
| MotionRuns.EveryRunIsSafe | firmware/m5stackchan-microros/src/main.cpp:2592-2856 | From setup, with any calibration record, no run writes a target outside the degree limits, recovery included, except a scaled-down shake from a home without room |
| MotionTiming.TickInTime | firmware/m5stackchan-microros/src/main.cpp:2703-2856 | Whatever the servos answer, a tick at most d late moves no deadline back or ends the job |
| MotionTiming.RemainingIsTheSum | firmware/m5stackchan-microros/src/main.cpp:2497-2562 | The time allowed is the plain sum of segments, holds, return and 1200 ms settling, plus one d for each phase |
| MotionTiming.AcceptedMotionEnds | firmware/m5stackchan-microros/src/main.cpp:2602-2856 | With ticks at most d apart every accepted motion ends within the time of its plan, whatever the servos answer and whatever is commanded in between |
| MotionTiming.AcceptedMotionComesToRest | firmware/m5stackchan-microros/src/main.cpp:2637-2856 | With working servos on every tick, and for a shake full intensity or room inside the raw limits, it ends at rest at home, each waypoint of its plan reached once in order and home last, and stays there until the next command |
| MotionTiming.AcceptedIsPlanned | firmware/m5stackchan-microros/src/main.cpp:2680-2701 | An accepted command schedules its plan as it is: every waypoint, the servo time, the motion and the calibrated home; only the idle motion schedules nothing |
| MotionTiming.ArrivedAtRest | firmware/m5stackchan-microros/src/main.cpp:2774-2856 | What has arrived at rest is home offset by each planned waypoint, in order, and then home; of the shake only home |
| MotionTiming.AcceptedMotionTakesItsTime | firmware/m5stackchan-microros/src/main.cpp:2703-2856 | With working servos the motion is still under way as long as its legs, holds, the way home and 250 ms of settling have not all had their time |
| MotionTiming.SettlesExactlyWhen | firmware/m5stackchan-microros/src/main.cpp:2718-2736 | Settling is over after 1200 ms, or after 250 ms once the servos answer that they have stopped, and at no other time |
| MotionTiming.StartsLeg | firmware/m5stackchan-microros/src/main.cpp:2497-2513 | A leg starts from the stop before, or where the shake ends, and goes to the next stop or home, in its own time and on its own curve |
| MotionTiming.LegTakes | firmware/m5stackchan-microros/src/main.cpp:2467-2495 | A leg takes its style time; a cheerful one at least 190 ms and 7 ms for each degree of its longer axis, but 1200 ms at most |
| MotionTiming.ShakeWithoutRoomNeverRests | firmware/m5stackchan-microros/src/main.cpp:2738-2765 | Without that room an accepted shake has a moment at which its first tick ends it in a fault, after which it never rests |
| MotionControl.MotionController.Move | firmware/m5stackchan-microros/src/main.cpp:2098-2146 | Writes the target or reports which check refused it |
| MotionControl.MotionController.Finish | firmware/m5stackchan-microros/src/main.cpp:2602-2618 | The new state is the finished job's |
| MotionControl.MotionController.Fail | firmware/m5stackchan-microros/src/main.cpp:2620-2635 | The new state is the failed job's, with recovery and fault |
| MotionControl.MotionController.BeginSegment | firmware/m5stackchan-microros/src/main.cpp:2497-2513 | The job gains exactly the new segment |
| MotionControl.MotionController.Advance | firmware/m5stackchan-microros/src/main.cpp:2515-2562 | Code, completion, writes and retarget time are those of advancing the segment |
| MotionControl.MotionController.ReturnTick | firmware/m5stackchan-microros/src/main.cpp:2774-2796 | The new state is that of one tick on the way home |
| MotionControl.MotionController.MoveTick | firmware/m5stackchan-microros/src/main.cpp:2798-2836 | The new state is that of one tick towards a waypoint, recursion included |
| MotionControl.MotionController.ShakeTick | firmware/m5stackchan-microros/src/main.cpp:2738-2765 | The new state is that of one shake tick |
| MotionControl.MotionController.HoldTick | firmware/m5stackchan-microros/src/main.cpp:2838-2856 | The new state is that of one tick of a hold |
| MotionControl.MotionController.Step | firmware/m5stackchan-microros/src/main.cpp:2703-2856 | The fields updated in place follow the tick exactly, the recursive step nesting at most once |
| MotionControl.MotionController.Validate | firmware/m5stackchan-microros/src/main.cpp:2656-2668 | Refuses exactly when home or some target is outside its limits |
| MotionControl.MotionController.CopyWaypoints | firmware/m5stackchan-microros/src/main.cpp:2680-2688 | The array starts with the plan's waypoints |
| MotionControl.MotionController.EnqueuePlan | firmware/m5stackchan-microros/src/main.cpp:2637-2701 | State and code are those of enqueueing |
| MotionControl.MotionController.HandleMotion | firmware/m5stackchan-microros/src/main.cpp:9055-9108 | State and code are those of the command |
| MotionControl.MotionController.HandlePose | firmware/m5stackchan-microros/src/main.cpp:8890-8990 | The new state is that of the pose command: at most one write and a recovery, never a job |
| Speech.StepKeepsSound | ros/stackchan_bridge/stackchan_bridge/speech_node.py:136-316 | Every atomic step keeps the counts, the doomed jobs, the store and, for each job, exactly the events told of it, in order |
| Speech.Run | ros/stackchan_bridge/stackchan_bridge/speech_node.py:136-316 | Over every interleaving: the pending count of a session equals its jobs in flight, the worker count its jobs within 0 to its maximum, and a job before its check is doomed exactly when its session has a tombstone |
| Speech.InvalidationIsFinal | ros/stackchan_bridge/stackchan_bridge/speech_node.py:136-162 | A job not yet past its check when its session is invalidated is never stored, announced or reported, in any continuation |
| Speech.InvalidationSilencesRun | ros/stackchan_bridge/stackchan_bridge/speech_node.py:136-162 | The same of every run from the empty tables, wherever the invalidation falls in it |
| Speech.EveryRunPublishesOnce | ros/stackchan_bridge/stackchan_bridge/speech_node.py:136-258 | In every run from the empty tables the check suppresses exactly the doomed jobs, a finished confident transcript is stored and announced once or, doomed, not at all |
| Speech.EveryRunTellsTheOutcome | ros/stackchan_bridge/stackchan_bridge/speech_node.py:164-258 | In every run from the empty tables, of an utterance that is over: one turned away by the full queue has one failure told; a doomed one nothing; a recogniser error one failure; low confidence one semantic event marked so; a confident one `transcript_ready` and then one semantic event, and it alone is stored |
| Speech.OutcomeIsGiven | ros/stackchan_bridge/stackchan_bridge/speech_node.py:164-228 | The verdict told is the recogniser's, an utterance is turned away only while as many as allowed are at the worker, and only an invalidation of its session before its check dooms it |
| Speech.EveryUtteranceGetsThrough | ros/stackchan_bridge/stackchan_bridge/speech_node.py:164-258 | With room at the worker and no tombstone every utterance gets to its end: exactly its events and its store entry are added, and afterwards it is counted nowhere |
| Speech.FullQueueTurnsAway | ros/stackchan_bridge/stackchan_bridge/speech_node.py:164-192 | With a full queue an utterance is told to have failed and is counted nowhere afterwards |
| Speech.RefusedUtteranceDisappears | ros/stackchan_bridge/stackchan_bridge/speech_node.py:190-192 | One that the executor does not take disappears without a word and is counted nowhere |
| Speech.InvalidationIsTold | ros/stackchan_bridge/stackchan_bridge/speech_node.py:136-162 | An invalidation is told once and leaves a tombstone of that moment |
| Speech.SuppressedExactlyWhenDoomed | ros/stackchan_bridge/stackchan_bridge/speech_node.py:217-218 | The check suppresses exactly the jobs whose session had a tombstone at some moment since they were counted |
| Speech.SureTranscriptIsPublishedOnce | ros/stackchan_bridge/stackchan_bridge/speech_node.py:209-258 | A finished confident transcript is stored once and announced once exactly when it was not doomed |
| Speech.TombstoneOutlivesJobs | ros/stackchan_bridge/stackchan_bridge/speech_node.py:308-316 | No step removes the tombstone of a session that still has a pending job |
| Speech.AllOverIsIdle | ros/stackchan_bridge/stackchan_bridge/asr.py:97-134 | When every job is over the worker count and the pending table are empty |
| Speech.ForgottenExactlyWhen | ros/stackchan_bridge/stackchan_bridge/speech_node.py:308-316 | A purge forgets a tombstone exactly when it is 300 seconds old and none of its jobs is in flight |
| Speech.ForgottenSessionSpeaksAgain | ros/stackchan_bridge/stackchan_bridge/speech_node.py:288-316 | After that, later speech of the same session is published again |
| SpeechTables.Sessions.PurgeExpired | ros/stackchan_bridge/stackchan_bridge/speech_node.py:308-316 | The two loops drop exactly the expired tombstones |
| Speech.DecrementUndoesIncrement | ros/stackchan_bridge/stackchan_bridge/speech_node.py:293-306 | Counting an utterance in and out again leaves the pending table as it was, without an empty entry; in between, only that key counts one more |
| SpeechTables.Sessions.DecrementPending | ros/stackchan_bridge/stackchan_bridge/speech_node.py:298-306 | The key's count is one less or gone, and expired tombstones are purged |
| SpeechTables.Sessions.Invalidate | ros/stackchan_bridge/stackchan_bridge/speech_node.py:144-150 | The session has a tombstone of now, and expired ones are gone |
| SpeechTables.Sessions.CaptureSessionInvalidated | ros/stackchan_bridge/stackchan_bridge/speech_node.py:288-291 | Whether a tombstone is left after purging |
| SpeechTables.Worker.Submit | ros/stackchan_bridge/stackchan_bridge/asr.py:97-114 | The count stays within its bounds and grows exactly when the utterance is taken |
| SpeechTables.Worker.Finish | ros/stackchan_bridge/stackchan_bridge/asr.py:116-132 | The count falls by one |
| EventQueue.PublishKeepsSound | firmware/m5stackchan-microros/include/stackchan/events.hpp:553-594 | Publishing keeps every accepted event on the books exactly once |
| EventQueue.DrainKeepsSound | firmware/m5stackchan-microros/include/stackchan/events.hpp:524-543 | Draining, failed or not, only moves events from the front of the queue to the end of the delivered ones |
| EventQueue.DrainsAsFarAsItCan | firmware/m5stackchan-microros/include/stackchan/events.hpp:524-543 | A drain delivers from the front, in order, until nothing is left, the limit is reached or the transport takes no more, and not before |
| EventQueue.RunsInARow | firmware/m5stackchan-microros/include/stackchan/events.hpp:524-594 | A run goes on where it stopped |
| EventQueue.Run | firmware/m5stackchan-microros/include/stackchan/events.hpp:524-594 | Over every interleaving: accepted is delivered plus queued plus evicted, each ticket once, at most 8 queued, only ordinary events evicted |
| EventQueue.PriorityIsNeverLost | firmware/m5stackchan-microros/include/stackchan/events.hpp:703-719 | An accepted priority event waits or has been delivered |
| EventQueue.DeliveryIsASubsequence | firmware/m5stackchan-microros/include/stackchan/events.hpp:524-543 | Delivered events are in acceptance order, none twice, all before what is queued |
| EventQueue.EvictsOldestOrdinary | firmware/m5stackchan-microros/include/stackchan/events.hpp:703-719 | At most one event is evicted, for a priority event, from a full queue, and every older one is a priority event |
| EventQueue.RefusedExactlyWhen | firmware/m5stackchan-microros/include/stackchan/events.hpp:582-589 | Refused exactly when the queue is full and the event is ordinary or everything queued is priority |
| EventQueue.LedgerFollowsQueue | firmware/m5stackchan-microros/include/stackchan/events.hpp:553-594 | The queue of the ledger is the queue of the items |
| EventRing.StoredPayloadIsAccepted | firmware/m5stackchan-microros/include/stackchan/events.hpp:561-568 | Every stored payload is one the recogniser accepts, at most 256 characters; an accepted one is stored unchanged, a longer or invalid one is replaced by the reason why |
| EventRing.EventKeepsWhatWasPublished | firmware/m5stackchan-microros/include/stackchan/events.hpp:553-594 | An event keeps name, stamp and an accepted payload, and of the command id all but what is past 36 characters |
| EventRing.WhatLeavesIsVetted | firmware/m5stackchan-microros/include/stackchan/events.hpp:524-594 | With every taken event vetted, so is every queued and every delivered one |
| EventRing.EventPublisher.ShiftDown | firmware/m5stackchan-microros/include/stackchan/events.hpp:709-713 | Every later item moves one place forward, no earlier one changes |
| EventRing.EventPublisher.DropOldestOrdinary | firmware/m5stackchan-microros/include/stackchan/events.hpp:703-719 | Removes exactly the oldest ordinary item of the circular buffer, or finds none |
| EventRing.EventPublisher.Append | firmware/m5stackchan-microros/include/stackchan/events.hpp:590-592 | The circular buffer gains the item at the end |
| EventRing.EventPublisher.PublishName | firmware/m5stackchan-microros/include/stackchan/events.hpp:553-594 | Outcome, queue, counter and ledger follow publishing; every event ever taken has a known name and an accepted payload |
| EventRing.EventPublisher.Drain | firmware/m5stackchan-microros/include/stackchan/events.hpp:524-543 | Outcome, queue and ledger follow draining, for any point at which the transport refuses; the events still queued are vetted as before |
| Json.ParseObject | firmware/m5stackchan-microros/include/stackchan/events.hpp:375-421 | What is parsed is an object of the grammar whose text is the input |
| JsonRoundTrip.RoundTrip | firmware/m5stackchan-microros/include/stackchan/events.hpp:375-421 | Every object of the grammar is parsed back from its text |
| JsonRoundTrip.AcceptsExactlyTheGrammar | firmware/m5stackchan-microros/include/stackchan/events.hpp:375-421 | The parser accepts exactly the texts of the grammar |
| JsonRoundTrip.Unambiguous | firmware/m5stackchan-microros/include/stackchan/events.hpp:375-421 | No text has two readings |
| Json.CharacterClasses | firmware/m5stackchan-microros/include/stackchan/events.hpp:251-359 | White space, digits, hexadecimal digits and short escapes are exactly those of RFC 8259 |
| JsonRecogniser.AcceptedExactly | firmware/m5stackchan-microros/include/stackchan/events.hpp:375-421 | Accepted means 2 to 256 characters and a text of the grammar |
| JsonRecogniser.SkipWs | firmware/m5stackchan-microros/include/stackchan/events.hpp:251-259 | The index stops at the first other character |
| JsonRecogniser.ParseEscapeAt | firmware/m5stackchan-microros/include/stackchan/events.hpp:267-289 | The index stays in bounds and moves past exactly one escape, or fails |
| JsonRecogniser.ParseStringAt | firmware/m5stackchan-microros/include/stackchan/events.hpp:291-315 | The index stays in bounds and moves past exactly one string, or fails |
| JsonRecogniser.ParseLiteralAt | firmware/m5stackchan-microros/include/stackchan/events.hpp:316-330 | The index moves past the literal, or stays |
| JsonRecogniser.ParseNumberAt | firmware/m5stackchan-microros/include/stackchan/events.hpp:332-359 | The index moves past the longest number without exponent, or fails |
| JsonRecogniser.ParseValueAt | firmware/m5stackchan-microros/include/stackchan/events.hpp:361-373 | White space and one value |
| JsonRecogniser.ParseMembersAt | firmware/m5stackchan-microros/include/stackchan/events.hpp:395-420 | The member loop reads exactly the members up to the closing brace |
| JsonRecogniser.IsBoundedObject | firmware/m5stackchan-microros/include/stackchan/events.hpp:375-421 | A missing payload is accepted, any other exactly when it is a flat object of the grammar with 2 to 256 characters |
| JsonPayload.CopyEventString | firmware/m5stackchan-microros/include/stackchan/events.hpp:222-228 | The buffer holds the text, cut to its size |
| JsonPayload.SanitizeJsonValue | firmware/m5stackchan-microros/include/stackchan/events.hpp:431-446 | The buffer holds the value, unsafe characters replaced, cut to its size |
| JsonPayload.MakeStringPayload | firmware/m5stackchan-microros/include/stackchan/events.hpp:448-477 | The buffer holds the one-field payload, or the replacement when the key is too long, whatever its size, if the sanitised value fits the local buffer |
| JsonPayload.EveryValueAccepted | firmware/m5stackchan-microros/include/stackchan/events.hpp:448-477 | With a clean key and the usual buffer every value makes an accepted payload |
| JsonPayload.AcceptedExactlyWhenItFits | firmware/m5stackchan-microros/include/stackchan/events.hpp:448-477 | In any smaller buffer, exactly when the key fits or the replacement does |
| JsonPayload.SanitizedAt | firmware/m5stackchan-microros/include/stackchan/events.hpp:431-446 | Character by character a printable character that needs no escape stays as it is and every other becomes an underscore |
| JsonPayload.HarmlessValueIsCarried | firmware/m5stackchan-microros/include/stackchan/events.hpp:448-477 | A value of such characters that fits is carried unchanged |
| JsonPayload.LongKeyIsReplaced | firmware/m5stackchan-microros/include/stackchan/events.hpp:448-477 | A key that leaves no room is replaced by the reason why, as far as that fits |
| VadMachine.VadStateMachine.FeedFrame | ros/stackchan_bridge/stackchan_bridge/audio_session.py:139-171 | Update and new state are those of feeding the frame |
| Vad.EveryStreamIsSound | ros/stackchan_bridge/stackchan_bridge/audio_session.py:139-195 | At every moment of every stream the lists are slices of it, and every delivery lies before the frames still open |
| Vad.UtterancesPartitionTheStream | ros/stackchan_bridge/stackchan_bridge/audio_session.py:139-195 | With enough pre-roll, room and end silence, the emitted utterances are contiguous, disjoint, ordered slices of at most the maximal length, each holding its detected speech, one ended by silence keeping exactly the post-roll |
| Vad.NoOnsetIsMissed | ros/stackchan_bridge/stackchan_bridge/audio_session.py:139-195 | With the same settings every frame at which enough speech begins lies in an emitted utterance, in one dropped as shorter than the minimum, or in the open one |
| Vad.EmptyExactlyWhen | ros/stackchan_bridge/stackchan_bridge/audio_session.py:160-170 | An utterance ended by silence is empty exactly when the end silence is not longer than the post-roll |
| Vad.DetectedExactlyWhen | ros/stackchan_bridge/stackchan_bridge/audio_session.py:139-151 | Speech is detected, and an utterance opened, exactly when enough speech frames have come in a row since the last utterance was finished; nothing is emitted then |
| Vad.FinishedExactlyWhen | ros/stackchan_bridge/stackchan_bridge/audio_session.py:153-192 | An open utterance is finished exactly when it is as long as allowed, and then whole, or when the silence that ends it has come, and then cut to the post-roll and dropped if too short; it has the session of the frame that finished it and the next number |
| Vad.CounterCounts | ros/stackchan_bridge/stackchan_bridge/audio_session.py:173-189 | Utterances are numbered in the order they were finished, the dropped ones included |
| Vad.FramesFit | ros/stackchan_bridge/stackchan_bridge/audio_session.py:194-195 | A time is as many frames as fit into it, but one at least |
| EventIds.FallbacksDiffer | ros/stackchan_bridge/stackchan_bridge/event_buffer.py:206-215 | Below 10^32 two numbers never share an identifier |
| EventIds.FallbackReads | ros/stackchan_bridge/stackchan_bridge/event_buffer.py:206-215 | Behind `evt-` stands the number, in eight digits as long as it has no more |
| EventIds.Pigeonhole | ros/stackchan_bridge/stackchan_bridge/event_buffer.py:206-215 | Finitely many identifiers cannot take up more numbers than that |
| EventIds.SearchIsShort | ros/stackchan_bridge/stackchan_bridge/event_buffer.py:206-215 | Below 10^32 the search passes over no more numbers than identifiers are taken |
| EventIds.FreeAhead | ros/stackchan_bridge/stackchan_bridge/event_buffer.py:206-215 | From every number on there is a free identifier, longer numbers being cut to 32 digits, unless all 9 x 10^31 of those are taken |
| EventIds.UniqueEventId | ros/stackchan_bridge/stackchan_bridge/event_buffer.py:206-215 | From every sequence number the search ends with a free identifier, the first one from that number on |
| EventBuffer.StepKeeps | ros/stackchan_bridge/stackchan_bridge/event_buffer.py:64-177 | Appending, reading and clearing keep every ring short, ordered and free of equal ids, and both cursor tables on one key set of bounded size |
| EventBuffer.RoomTakesTheOldest | ros/stackchan_bridge/stackchan_bridge/event_buffer.py:173-177 | Every cursor dropped for a new one was touched longer ago than every one that stays, or at the same time but inserted first |
| EventDelivery.ReadReturnsTheNext | ros/stackchan_bridge/stackchan_bridge/event_buffer.py:116-135 | A read returns the next retained records after the cursor and passes over none: as many as wait, but no more than the limit |
| EventDelivery.EveryReadGetsOn | ros/stackchan_bridge/stackchan_bridge/event_buffer.py:106-135 | Every read that is not refused delivers these from the cursor or from where the caller says, so a positive limit with something waiting always delivers; the cursor moves to the last one delivered and is touched, or nothing changes but expired cursors |
| EventDelivery.ExpiresExactlyWhen | ros/stackchan_bridge/stackchan_bridge/event_buffer.py:158-171 | A cursor is still there exactly when it was touched less than the time to live ago, and never with a time to live of zero |
| EventDelivery.ClearsExactly | ros/stackchan_bridge/stackchan_bridge/event_buffer.py:137-150 | Clearing takes exactly the cursors of the named consumer, of the named device if one is named, and nothing else |
| EventDelivery.NumbersAreConsecutive | ros/stackchan_bridge/stackchan_bridge/event_buffer.py:81-97 | Whatever the device, the events of a run are numbered one after the other |
| EventDelivery.EveryRunFollows | ros/stackchan_bridge/stackchan_bridge/event_buffer.py:64-177 | Over every run from the empty buffer that leaves its cursor alone a consumer receives an ascending sequence of appended events that passes over only events no longer retained, and events are numbered from 1 |
| EventStore.Events.AppendEvent | ros/stackchan_bridge/stackchan_bridge/event_buffer.py:64-98 | The buffer gains the record under a free identifier |
| EventStore.Events.PruneCursors | ros/stackchan_bridge/stackchan_bridge/event_buffer.py:158-171 | Both tables lose exactly the expired cursors |
| EventStore.Events.ReserveCursorSlot | ros/stackchan_bridge/stackchan_bridge/event_buffer.py:173-177 | Cursors go, the one touched longest ago first and of equally old ones the first inserted, until there is room for one |
| EventStore.Events.ReadEvents | ros/stackchan_bridge/stackchan_bridge/event_buffer.py:106-135 | Answer and new buffer are those of the read, errors included |
| EventStore.Events.ClearCursor | ros/stackchan_bridge/stackchan_bridge/event_buffer.py:137-150 | Both tables lose exactly the consumer's cursors |
| Debounce.SuppressedExactlyWhen | ros/stackchan_bridge/stackchan_bridge/event_aggregator.py:46-101 | With a clock that never goes back, an event is suppressed exactly when one of the last emissions, as many as the table holds, is of its key and within the window |
| Debounce.HistoryGoesOn | ros/stackchan_bridge/stackchan_bridge/event_aggregator.py:46-82 | The history grows by exactly the events not so suppressed |
| Debounce.WholeHistoryExactlyWhen | ros/stackchan_bridge/stackchan_bridge/event_aggregator.py:97-101 | The whole history decides for every key exactly while no more emissions than the table holds are within the window |
| OrderedTable.FindOldest | ros/stackchan_bridge/stackchan_bridge/event_aggregator.py:99-100 | The loop finds the first of the entries with the smallest time |
| Debounce.RunKeeps | ros/stackchan_bridge/stackchan_bridge/event_aggregator.py:46-101 | Over every run the table is the end of the history, within its capacity, one entry a key, and holds whatever of the last emissions is still within the window |
| Debounce.JustEmittedStays | ros/stackchan_bridge/stackchan_bridge/event_aggregator.py:97-101 | The key just emitted is never the one evicted |
| Debounce.EvictionForgets | ros/stackchan_bridge/stackchan_bridge/event_aggregator.py:97-101 | Once they are more, the key of the emission just past the reach of the table was emitted recently and yet is not suppressed |
| DebounceTable.EventAggregator.PruneDebounce | ros/stackchan_bridge/stackchan_bridge/event_aggregator.py:84-95 | Exactly the expired entries are gone |
| DebounceTable.EventAggregator.ReserveDebounceSlot | ros/stackchan_bridge/stackchan_bridge/event_aggregator.py:97-101 | Entries are dropped oldest first until the table fits |
| DebounceTable.EventAggregator.Add | ros/stackchan_bridge/stackchan_bridge/event_aggregator.py:46-82 | Table and answer are those of adding the event |

## Left out

- ROS and rclc entity setup, publishers, action transport, heartbeats, diagnostics counters and log texts: foreign calls and plumbing.
- Display, LEDs, camera, NFC, IR, power, sensors and NVS access: hardware input and output.
- Timeouts of the streaming goal (no chunk, inter-chunk and gap) and the play-audio result protocol: clock comparisons around the modelled state.
- The pull-load path (`accept_loaded_audio_pull_chunk`): a third way into the same buffer that only takes the next chunk.
- The 24-slot jitter buffer of the extended build: the same code with another constant.
- Stray streaming chunks while a loaded buffer is playing: the two sessions are modelled one at a time.
- What the main loop does between playback steps, and the finish of the goal after the end of the stream: `LoadedPlayback.Player.PlayToEnd` only repeats the step.
- What the speaker's DMA reads from a frame after it was queued: a queued frame is its contents at that moment.
- Message bounds: command ids are at most 36 and chunks at most 1280 bytes by their message types, so truncating copies of them never cut anything and are not modelled.
- Null pointers and embedded NUL characters: a C string is the sequence of its characters before the NUL.
- Floating point: intensities and the shake trajectory are exact reals, and of the sine only its mirrored half waves, its peak and a parabola over it are used.
- MotionPlan.AcceptedExactlyWhen: intensities are exact reals; the 32-bit float 0.83333331 just below five sixths is refused here and accepted by the code, where six times it rounds to 5.0.
- Head pose planning from float degrees: a pose command enters the motion model as planned or not, with its integer target.
- Filling the motion plan in place: a plan is the sequence of its waypoints.
- `split_capture_chunk`, the energy detector, echo control and the transcript store: validation and one-branch state around the utterance assembly.
- Thread pools and locks: every region under a lock and every call of a collaborator is one atomic step.
- Event payload normalisation and redaction in the bridge, name aliases, `records` without a cursor, device event fields other than name, stamp, command and payload.
- Streaming.DeliveryDeterminesStream: sequence numbers are natural, so the wrap of a stream longer than 2^32 chunks is not modelled.
- Scheduler.Run: the millisecond clock is natural, so its wrap after 49 days is not modelled; `recovered` is never called and is not an input.
