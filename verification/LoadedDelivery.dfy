/** What the loaded-audio session promises for a well-formed sender, in any delivery order. */
module LoadedDelivery {
  import opened Wire
  import opened LoadedAudio
  import Reorder

  /** One transfer: numbered payloads whose totals are declared on every chunk. */
  datatype Source = Source(commandId: string, format: Format, sampleRate: u32, totalBytes: u32,
                           payloads: seq<seq<byte>>)

  ghost predicate WellFormed(src: Source) {
    && |src.payloads| > 0
    && src.format != OtherFormat && (src.sampleRate == 16000 || src.sampleRate == 8000)
    && (forall k :: 0 <= k < |src.payloads| ==>
          && 0 < |src.payloads[k]| <= 1280
          && (src.format == PcmS16Le ==> |src.payloads[k]| % 2 == 0))
    && (src.format == ImaAdpcm4Bit ==> |src.payloads[0]| >= 4)
    && 0 < src.totalBytes && src.totalBytes % 2 == 0
    && src.totalBytes <= (if src.format == ImaAdpcm4Bit then 0x2_0000 else 0x8000)
    && |Concat(src.payloads)| <= 0x8000
    && |src.payloads| < 0x1_0000_0000
    && (src.format == PcmS16Le ==> |Concat(src.payloads)| == src.totalBytes)
  }

  ghost function ChunkOf(src: Source, k: nat): Chunk
    requires WellFormed(src) && k < |src.payloads|
  {
    Chunk(true, src.commandId, k, |src.payloads|, src.totalBytes, src.format, src.sampleRate, 1,
          k == |src.payloads| - 1, src.payloads[k])
  }

  /** The session holds a prefix of the source, and chunks of it in its future slots. */
  ghost predicate Prefix(s: Session, src: Source)
    requires WellFormed(src)
  {
    && s.commandId == src.commandId && s.format == src.format && s.sampleRate == src.sampleRate
    && s.totalBytes == src.totalBytes && s.totalChunks == |src.payloads|
    && 0 < s.expected <= |src.payloads|
    && s.stored == Concat(src.payloads[..s.expected])
    && (s.complete <==> s.expected == |src.payloads|)
    && (forall k :: k in s.future ==> 0 < k < |src.payloads| && s.future[k] == ChunkOf(src, k))
  }

  lemma FitsPrefix(src: Source, k: nat)
    requires WellFormed(src) && k < |src.payloads|
    ensures Concat(src.payloads[..k]) + src.payloads[k] == Concat(src.payloads[..k + 1])
    ensures |Concat(src.payloads[..k + 1])| <= BUFFER_BYTES
  {
    assert src.payloads[..k + 1] == src.payloads[..k] + [src.payloads[k]];
    ConcatSnoc(src.payloads[..k], src.payloads[k]);
    ConcatPrefix(src.payloads, k + 1);
  }

  /** Processing chunk `k` where the prefix stops, or chunk 0 from any state, extends the prefix. */
  lemma ProcessExtendsPrefix(s: Session, src: Source, k: nat, now: u32)
    requires WellFormed(src) && k < |src.payloads|
    requires k == 0 || (Prefix(s, src) && s.expected == k)
    ensures var (s1, code) := ProcessInOrder(s, ChunkOf(src, k), now);
            && code == Ok && Prefix(s1, src) && s1.expected == k + 1 && s1.lastWriteMs == now
            && s1.future == (if k == 0 then map[] else s.future)
            && s1.playing == (k > 0 && s.playing)
  {
    FitsPrefix(src, k);
    if k == 0 {
      assert Concat(src.payloads[..0]) == [];
    }
    if k == |src.payloads| - 1 {
      assert src.payloads[..k + 1] == src.payloads;
    }
  }

  ghost predicate Consistent(r: Reorder.State<seq<byte>>, src: Source) {
    && r.next <= |src.payloads| && r.out == src.payloads[..r.next]
    && (forall k :: k in r.held ==> k < |src.payloads| && r.held[k] == src.payloads[k])
  }

  /** A session that agrees with the abstract receiver. */
  ghost predicate Agrees(s: Session, src: Source, r: Reorder.State<seq<byte>>)
    requires WellFormed(src)
  {
    Prefix(s, src) && Consistent(r, src) && s.expected == r.next && s.future.Keys == r.held.Keys
  }

  /** Chunk `k` at the front of both receivers moves both one place on. */
  lemma AdvanceAgrees(s: Session, src: Source, r: Reorder.State<seq<byte>>, now: u32)
    requires WellFormed(src) && Agrees(s, src, r) && s.expected < |src.payloads| && s.expected !in s.future
    ensures var (s1, code) := ProcessInOrder(s, ChunkOf(src, s.expected), now);
            && code == Ok && s1.future == s.future
            && Agrees(s1, src, Reorder.State(r.next + 1, r.held, r.out + [src.payloads[r.next]]))
  {
    ProcessExtendsPrefix(s, src, s.expected, now);
    assert r.out + [src.payloads[r.next]] == src.payloads[..r.next + 1];
  }

  lemma TakeFrontAgrees(s: Session, src: Source, r: Reorder.State<seq<byte>>, k: nat)
    requires WellFormed(src) && Agrees(s, src, r)
    ensures Agrees(s.(future := s.future - {k}), src, r.(held := r.held - {k}))
  {
  }

  lemma {:induction false} DrainAgrees(s: Session, src: Source, r: Reorder.State<seq<byte>>, now: u32)
    requires WellFormed(src) && Agrees(s, src, r)
    ensures Drain(s, now).1 == Ok
    ensures Agrees(Drain(s, now).0, src, Reorder.Drain(r))
    decreases s.future.Keys
  {
    if s.expected in s.future {
      var k := s.expected;
      var s0, r0 := s.(future := s.future - {k}), r.(held := r.held - {k});
      TakeFrontAgrees(s, src, r, k);
      AdvanceAgrees(s0, src, r0, now);
      assert s.future[k] == ChunkOf(src, k) && r.held[k] == src.payloads[k];
      var s1 := ProcessInOrder(s0, s.future[k], now).0;
      DrainAgrees(s1, src, Reorder.State(k + 1, r0.held, r.out + [r.held[k]]), now);
      assert Drain(s, now) == Drain(s1, now);
    }
  }

  /**
   The prefix survives every mix of topic chunks and load requests of the transfer, in any
   order and at any times; the service may even restart it from chunk 0.
   */
  lemma PrefixSurvivesMixing(s: Session, src: Source, k: nat, viaService: bool, goalActive: bool, now: u32)
    requires WellFormed(src) && Prefix(s, src) && k < |src.payloads|
    ensures Prefix(if viaService then HandleService(s, ChunkOf(src, k), goalActive, now).0
                   else HandleTopic(s, ChunkOf(src, k), goalActive, now).0, src)
  {
    var c := ChunkOf(src, k);
    if viaService {
      if ValidateService(s, c, goalActive, now) == Ok { ProcessExtendsPrefix(s, src, k, now); }
    } else if !IsDuplicate(s, c) && ValidateTopic(s, c, goalActive, now) == Ok && k == s.expected {
      ProcessExtendsPrefix(s, src, k, now);
      var s1 := ProcessInOrder(s, c, now).0;
      var r := Reorder.State(s1.expected, map j | j in s1.future :: s1.future[j].pcm, src.payloads[..s1.expected]);
      assert r.held.Keys == s1.future.Keys;
      DrainAgrees(s1, src, r, now);
    }
  }

  // ---- Mixed traffic ----

  /** One chunk of the transfer over one of the two transports. */
  datatype Arrival = Arrival(k: nat, viaService: bool, goalActive: bool, now: u32)

  ghost function Arrive(s: Session, src: Source, a: Arrival): Session
    requires WellFormed(src) && a.k < |src.payloads|
  {
    if a.viaService then HandleService(s, ChunkOf(src, a.k), a.goalActive, a.now).0
    else HandleTopic(s, ChunkOf(src, a.k), a.goalActive, a.now).0
  }

  ghost predicate OfTransfer(src: Source, arrivals: seq<Arrival>) {
    forall i :: 0 <= i < |arrivals| ==> arrivals[i].k < |src.payloads|
  }

  ghost function MixedRun(s: Session, src: Source, arrivals: seq<Arrival>): Session
    requires WellFormed(src) && OfTransfer(src, arrivals)
    decreases |arrivals|
  {
    if arrivals == [] then s else MixedRun(Arrive(s, src, arrivals[0]), src, arrivals[1..])
  }

  /** Before chunk 0 nothing is taken; chunk 0 opens the session unless a goal is active. */
  lemma ArrivalAtReset(src: Source, a: Arrival)
    requires WellFormed(src) && a.k < |src.payloads|
    ensures var s1 := Arrive(RESET, src, a);
            if a.k == 0 && !a.goalActive then Prefix(s1, src) else s1 == RESET
  {
    if a.k == 0 {
      ProcessExtendsPrefix(RESET, src, 0, a.now);
      var s1 := ProcessInOrder(RESET, ChunkOf(src, 0), a.now).0;
      assert Drain(s1, a.now) == (s1, Ok);
    }
  }

  /**
   From the empty session every mix of topic chunks and load requests of a transfer, in any order, at
   any times, with duplicates, restarts and playback goals in between, leaves either the empty session
   or a prefix of the transfer.
   */
  lemma {:induction false} PrefixSurvivesEveryMix(s: Session, src: Source, arrivals: seq<Arrival>)
    requires WellFormed(src) && OfTransfer(src, arrivals) && (s == RESET || Prefix(s, src))
    ensures var last := MixedRun(s, src, arrivals); last == RESET || Prefix(last, src)
    decreases |arrivals|
  {
    if arrivals != [] {
      var a := arrivals[0];
      if s == RESET {
        ArrivalAtReset(src, a);
      } else {
        PrefixSurvivesMixing(s, src, a.k, a.viaService, a.goalActive, a.now);
      }
      PrefixSurvivesEveryMix(Arrive(s, src, a), src, arrivals[1..]);
    }
  }

  /** Chunks 0 and 2 from the topic and 1 from the service strand chunk 2 in its slot. */
  lemma MixedRunStrands(src: Source, now: u32)
    requires WellFormed(src) && |src.payloads| > 2 && |src.payloads[2]| <= FUTURE_CHUNK_BYTES
    ensures var s := MixedRun(RESET, src, [Arrival(0, false, false, now), Arrival(2, false, false, now),
                                           Arrival(1, true, false, now)]);
            s.expected == 2 && 2 in s.future && !InWindow(s)
  {
    ProcessExtendsPrefix(RESET, src, 0, now);
    var s0 := ProcessInOrder(RESET, ChunkOf(src, 0), now).0;
    assert Drain(s0, now) == (s0, Ok);
    var a1, a2 := Arrival(2, false, false, now), Arrival(1, true, false, now);
    var s1 := s0.(future := map[2 := ChunkOf(src, 2)]);
    assert Arrive(s0, src, a1) == s1;
    ProcessExtendsPrefix(s1, src, 1, now);
    assert Arrive(s1, src, a2) == ProcessInOrder(s1, ChunkOf(src, 1), now).0;
    var all := [Arrival(0, false, false, now), a1, a2];
    assert all[1..] == [a1, a2] && all[1..][1..] == [a2] && [a2][1..] == [];
    assert MixedRun(Arrive(s1, src, a2), src, []) == Arrive(s1, src, a2);
    assert MixedRun(s1, src, [a2]) == Arrive(s1, src, a2);
    assert MixedRun(s0, src, [a1, a2]) == MixedRun(s1, src, [a2]);
  }

  lemma FrontIsProcessed(s: Session, src: Source, k: nat, now: u32)
    requires WellFormed(src) && Prefix(s, src) && k == s.expected < |src.payloads|
    ensures ProcessInOrder(s, ChunkOf(src, k), now).1 == Ok
    ensures HandleTopic(s, ChunkOf(src, k), false, now) == Drain(ProcessInOrder(s, ChunkOf(src, k), now).0, now)
  {
    ProcessExtendsPrefix(s, src, k, now);
  }

  lemma FrontAgrees(s: Session, src: Source, r: Reorder.State<seq<byte>>, k: nat, now: u32)
    requires WellFormed(src) && Agrees(s, src, r) && InWindow(s) && k == s.expected < |src.payloads|
    ensures var (s1, code) := HandleTopic(s, ChunkOf(src, k), false, now);
            code == Ok && Agrees(s1, src, Reorder.Deliver(r, FUTURE_SLOTS, k, src.payloads[k]))
  {
    var c := ChunkOf(src, k);
    AdvanceAgrees(s, src, r, now);
    FrontIsProcessed(s, src, k, now);
    var s1 := ProcessInOrder(s, c, now).0;
    DrainAgrees(s1, src, Reorder.State(r.next + 1, r.held, r.out + [src.payloads[k]]), now);
  }

  lemma AheadIsValid(s: Session, src: Source, k: nat, now: u32)
    requires WellFormed(src) && Prefix(s, src) && s.expected < k < |src.payloads| && k <= s.expected + FUTURE_SLOTS
    ensures ValidateTopic(s, ChunkOf(src, k), false, now) == Ok && !IsDuplicate(s, ChunkOf(src, k))
  {
  }

  lemma HoldAgrees(s: Session, src: Source, r: Reorder.State<seq<byte>>, k: nat)
    requires WellFormed(src) && Agrees(s, src, r) && 0 < k < |src.payloads|
    ensures Agrees(s.(future := s.future[k := ChunkOf(src, k)]), src, r.(held := r.held[k := src.payloads[k]]))
  {
  }

  lemma AheadAgrees(s: Session, src: Source, r: Reorder.State<seq<byte>>, k: nat, now: u32)
    requires WellFormed(src) && Agrees(s, src, r) && Sound(s) && InWindow(s)
    requires s.expected < k < |src.payloads| && k <= r.next + FUTURE_SLOTS && |src.payloads[k]| <= FUTURE_CHUNK_BYTES
    ensures var (s1, code) := HandleTopic(s, ChunkOf(src, k), false, now);
            code == Ok && Agrees(s1, src, if k in r.held then r else r.(held := r.held[k := src.payloads[k]]))
  {
    var c := ChunkOf(src, k);
    AheadIsValid(s, src, k, now);
    if k !in s.future {
      TopicNeverFindsBufferFull(s, c, false, now);
      HoldAgrees(s, src, r, k);
    }
    assert HandleTopic(s, c, false, now) == (if k in s.future then s else s.(future := s.future[k := c]), Ok);
  }

  /** One windowed delivery: the session does exactly what the abstract receiver does. */
  lemma TopicAgrees(s: Session, src: Source, r: Reorder.State<seq<byte>>, k: nat, now: u32)
    requires WellFormed(src) && Agrees(s, src, r) && Sound(s) && InWindow(s)
    requires k < |src.payloads| && k <= r.next + FUTURE_SLOTS
    requires k > r.next ==> |src.payloads[k]| <= FUTURE_CHUNK_BYTES
    ensures var (s1, code) := HandleTopic(s, ChunkOf(src, k), false, now);
            code == Ok && Agrees(s1, src, Reorder.Deliver(r, FUTURE_SLOTS, k, src.payloads[k]))
  {
    if k == s.expected {
      FrontAgrees(s, src, r, k, now);
    } else if k > s.expected {
      AheadAgrees(s, src, r, k, now);
    } else {
      assert IsDuplicate(s, ChunkOf(src, k));
    }
  }

  // ---- What is refused, and why ----

  /** One of the two formats, at 8 or 16 kHz, mono. */
  predicate Playable(c: Chunk) {
    c.format != OtherFormat && (c.sampleRate == 16000 || c.sampleRate == 8000) && c.channels == 1
  }

  /** 1 to 1280 bytes, whole samples, and in the first ADPCM chunk the header. */
  predicate RightSize(c: Chunk) {
    && 0 < |c.pcm| <= 1280 && (c.format == PcmS16Le ==> |c.pcm| % 2 == 0)
    && (c.format == ImaAdpcm4Bit && c.sequence == 0 ==> |c.pcm| >= 4)
  }

  /** Totals that fit: 32 KiB of samples as they are, 128 KiB once decoded. */
  predicate RightTotals(c: Chunk) {
    && c.totalBytes > 0 && c.totalBytes % 2 == 0 && c.totalChunks > 0
    && c.totalBytes <= (if c.format == ImaAdpcm4Bit then 0x2_0000 else 0x8000)
  }

  predicate RightShape(c: Chunk) { c.deviceMatches && Playable(c) && RightSize(c) && RightTotals(c) }

  /** One call of one of the two entrances. */
  function Handle(s: Session, c: Chunk, viaService: bool, goalActive: bool, now: u32): (Session, Code) {
    if viaService then HandleService(s, c, goalActive, now) else HandleTopic(s, c, goalActive, now)
  }

  /** A chunk of the topic that the session has already stored. */
  predicate SentAgain(s: Session, c: Chunk) { c.commandId == s.commandId && c.sequence < s.expected }

  /** A chunk of the wrong shape changes nothing, and the first requirement it misses decides the answer. */
  lemma WrongShapeIsRefused(s: Session, c: Chunk, viaService: bool, goalActive: bool, now: u32)
    requires viaService || !SentAgain(s, c)
    ensures var answer := Handle(s, c, viaService, goalActive, now);
            && (!c.deviceMatches ==> answer == (s, InvalidDeviceId))
            && (c.deviceMatches && goalActive ==> answer == (s, FirmwareBusy))
            && (c.deviceMatches && !goalActive && !Playable(c) ==> answer == (s, UnsupportedFeature))
            && (c.deviceMatches && !goalActive && Playable(c) && !RightSize(c) ==> answer == (s, MalformedAudioChunk))
            && (c.deviceMatches && !goalActive && Playable(c) && RightSize(c) && !RightTotals(c) ==>
                  answer == (s, AudioBufferOverflow))
  {
  }

  /**
   A chunk of the right shape that opens no session is held against the one that is there: while it is loading,
   another command is told that the firmware is busy; another format is not supported, and other totals or the wrong
   turn make the chunk malformed.
   */
  lemma MisfitIsRefused(s: Session, c: Chunk, viaService: bool, now: u32)
    requires RightShape(c) && (viaService || !SentAgain(s, c)) && (c.sequence > 0 || !GivenUp(s, now))
    ensures var answer := Handle(s, c, viaService, false, now);
            var mine := s.complete || c.commandId == s.commandId;
            var sameFormat := c.format == s.format && c.sampleRate == s.sampleRate;
            var fits := sameFormat && c.totalBytes == s.totalBytes && c.totalChunks == s.totalChunks;
            var outOfTurn := if viaService then c.sequence != s.expected
                             else s.expected == 0 || c.sequence > s.expected + 32;
            && (!mine ==> answer == (s, FirmwareBusy))
            && (mine && !sameFormat ==> answer == (s, UnsupportedFeature))
            && (mine && sameFormat && !fits ==> answer == (s, MalformedAudioChunk))
            && (mine && fits && outOfTurn ==> answer == (s, MalformedAudioChunk))
            && (mine && fits && viaService && c.sequence == s.expected ==> answer == ProcessInOrder(s, c, now))
  {
    WrappedDifference(s.lastWriteMs, now);
  }

  /**
   Into the empty session goes only a first chunk of the right shape, and one that claims to be the last only if
   it is all there is; it leaves the session it opens, or the empty one.
   */
  lemma FirstChunkAcceptedExactlyWhen(c: Chunk, viaService: bool, goalActive: bool, now: u32)
    ensures var (s1, code) := Handle(RESET, c, viaService, goalActive, now);
            && (code == Ok <==>
                  RightShape(c) && !goalActive && c.sequence == 0
                  && (c.endOfStream ==> c.totalChunks == 1 && (c.format == PcmS16Le ==> |c.pcm| == c.totalBytes)))
            && (code == Ok ==>
                  s1.commandId == c.commandId && s1.format == c.format && s1.sampleRate == c.sampleRate
                  && s1.totalBytes == c.totalBytes && s1.totalChunks == c.totalChunks && s1.expected == 1
                  && s1.stored == c.pcm && s1.future == map[] && s1.complete == c.endOfStream && s1.lastWriteMs == now)
            && (code != Ok ==> s1 == RESET)
  {
    if RightShape(c) && !goalActive && c.sequence == 0 {
      var (s1, code) := ProcessInOrder(RESET, c, now);
      if code == Ok { assert Drain(s1, now) == (s1, Ok); }
    }
  }

  /** What becomes of a later chunk that is processed: stored behind the others, or refused for want of room. */
  lemma ProcessAnswers(s: Session, c: Chunk, now: u32)
    requires c.sequence > 0
    ensures var (s1, code) := ProcessInOrder(s, c, now);
            var fits := |s.stored| + |c.pcm| <= 0x8000;
            && (!fits ==> (s1, code) == (s, AudioBufferOverflow))
            && (fits && FinalCheckFails(s, c) ==> (s1, code) == (RESET, MalformedAudioChunk))
            && (fits && !FinalCheckFails(s, c) ==>
                  code == Ok && s1 == s.(stored := s.stored + c.pcm, expected := c.sequence + 1, lastWriteMs := now,
                                         complete := c.endOfStream))
  {
  }

  // ---- Taking over from another command ----

  /** Milliseconds from one reading of the clock to a later one; the clock wraps at 2^32. */
  function Elapsed(before: u32, now: u32): nat {
    if before <= now then now - before else 0x1_0000_0000 - before + now
  }

  lemma WrappedDifference(before: u32, now: u32)
    ensures Wrap32(now - before) == Elapsed(before, now)
  {
  }

  /** Nothing is loaded, loading has ended, or it is not playing and the last chunk is six seconds old. */
  predicate GivenUp(s: Session, now: u32) {
    || s.expected == 0 || s.complete
    || (!s.playing && s.lastWriteMs != 0 && Elapsed(s.lastWriteMs, now) >= 6000)
  }

  /**
   Chunk 0 of another command opens that command's session exactly when the present one is given up;
   otherwise the present one stays as it is and the sender is told that the firmware is busy.
   */
  lemma TakeoverExactlyWhen(s: Session, src: Source, viaService: bool, now: u32)
    requires WellFormed(src) && (s.expected > 0 ==> s.commandId != src.commandId)
    ensures var c := ChunkOf(src, 0);
            var (s1, code) := if viaService then HandleService(s, c, false, now) else HandleTopic(s, c, false, now);
            if GivenUp(s, now) then
              code == Ok && Prefix(s1, src) && s1.expected == 1 && s1.stored == src.payloads[0]
              && s1.lastWriteMs == now && s1.future == map[] && !s1.playing
            else s1 == s && code == FirmwareBusy
  {
    var c := ChunkOf(src, 0);
    WrappedDifference(s.lastWriteMs, now);
    ProcessExtendsPrefix(s, src, 0, now);
    var s1 := ProcessInOrder(s, c, now).0;
    assert Drain(s1, now) == (s1, Ok);
  }

  /** So of two commands the second is refused for six seconds after the first one's chunk, and then takes over. */
  lemma SecondCommandWaits(first: Source, second: Source, before: u32, now: u32, viaService: bool)
    requires WellFormed(first) && WellFormed(second) && first.commandId != second.commandId
    requires |first.payloads| > 1 && before > 0
    ensures var s := HandleTopic(RESET, ChunkOf(first, 0), false, before).0;
            var c := ChunkOf(second, 0);
            var (s1, code) := if viaService then HandleService(s, c, false, now) else HandleTopic(s, c, false, now);
            if Elapsed(before, now) < 6000 then s1 == s && s1.commandId == first.commandId && code == FirmwareBusy
            else s1.commandId == second.commandId && s1.expected == 1 && code == Ok
  {
    TakeoverExactlyWhen(RESET, first, false, before);
    var s := HandleTopic(RESET, ChunkOf(first, 0), false, before).0;
    TakeoverExactlyWhen(s, second, viaService, now);
  }

  /** While the buffer plays, an unfinished session is not taken over, however old it is. */
  lemma PlayingIsNotTakenOver(s: Session, src: Source, viaService: bool, now: u32)
    requires WellFormed(src) && s.expected > 0 && !s.complete && s.commandId != src.commandId
    ensures var playing := Step(s, StartPlaying);
            Handle(playing, ChunkOf(src, 0), viaService, false, now) == (playing, FirmwareBusy)
  {
    TakeoverExactlyWhen(Step(s, StartPlaying), src, viaService, now);
  }

  // ---- Whole deliveries ----

  /** A state in which chunk 0 of the transfer opens a new session. */
  ghost predicate Ready(s: Session, src: Source, now: u32) {
    s.expected == 0 || ((s.complete || Stale(s, now)) && s.commandId != src.commandId)
  }

  /**
   The orders in which every chunk is accepted: start with chunk 0, stay in the window, send only chunks of
   at most 256 bytes ahead of their turn.
   */
  ghost predicate Deliverable(src: Source, order: seq<nat>) {
    && |order| > 0 && order[0] == 0
    && (forall i :: 0 <= i < |order| ==> order[i] < |src.payloads|)
    && Reorder.WithinWindow(order, 32)
    && (forall i :: 0 <= i < |order| && order[i] > Reorder.Mex(Reorder.Delivered(order[..i])) ==>
          |src.payloads[order[i]]| <= 256)
  }

  ghost function RunTopic(s: Session, src: Source, order: seq<nat>, times: seq<u32>): (Session, bool)
    requires WellFormed(src) && |times| == |order|
    requires forall i :: 0 <= i < |order| ==> order[i] < |src.payloads|
  {
    if order == [] then (s, true)
    else
      var n := |order| - 1;
      var (s1, allOk) := RunTopic(s, src, order[..n], times[..n]);
      var (s2, code) := HandleTopic(s1, ChunkOf(src, order[n]), false, times[n]);
      (s2, allOk && code == Ok)
  }

  /** Chunk 0 opens the session, and there is nothing to drain. */
  lemma OpenerIsProcessed(s: Session, src: Source, now: u32)
    requires WellFormed(src) && Ready(s, src, now)
    ensures HandleTopic(s, ChunkOf(src, 0), false, now) == ProcessInOrder(s, ChunkOf(src, 0), now)
  {
    ProcessExtendsPrefix(s, src, 0, now);
    var s1 := ProcessInOrder(s, ChunkOf(src, 0), now).0;
    assert Drain(s1, now) == (s1, Ok);
  }

  lemma FirstAgrees(s: Session, src: Source)
    requires WellFormed(src) && Prefix(s, src) && s.expected == 1 && s.future == map[]
    ensures Agrees(s, src, Reorder.State(1, map[], [src.payloads[0]]))
  {
    assert [src.payloads[0]] == src.payloads[..1];
  }

  lemma FirstDelivered<T>(x: T)
    ensures Reorder.Deliver(Reorder.Start(), FUTURE_SLOTS, 0, x) == Reorder.State(1, map[], [x])
  {
  }

  ghost function TopicInputs(src: Source, order: seq<nat>, times: seq<u32>): seq<Input>
    requires WellFormed(src) && |times| == |order|
    requires forall i :: 0 <= i < |order| ==> order[i] < |src.payloads|
  {
    seq(|order|, i requires 0 <= i < |order| => Topic(ChunkOf(src, order[i]), false, times[i]))
  }

  /** A delivery is a run of the session. */
  lemma {:induction false} DeliveryIsARun(s: Session, src: Source, order: seq<nat>, times: seq<u32>)
    requires WellFormed(src) && |times| == |order|
    requires forall i :: 0 <= i < |order| ==> order[i] < |src.payloads|
    ensures RunTopic(s, src, order, times).0 == Run(s, TopicInputs(src, order, times))
    decreases |order|
  {
    if order != [] {
      var n := |order| - 1;
      DeliveryIsARun(s, src, order[..n], times[..n]);
      assert TopicInputs(src, order, times)[..n] == TopicInputs(src, order[..n], times[..n]);
    }
  }

  lemma FirstChunkAgrees(s: Session, src: Source, now: u32)
    requires WellFormed(src) && Sound(s) && Ready(s, src, now)
    ensures var (s1, code) := HandleTopic(s, ChunkOf(src, 0), false, now);
            code == Ok && InStep(s1, src, Reorder.Deliver(Reorder.Start(), FUTURE_SLOTS, 0, src.payloads[0]))
  {
    ProcessExtendsPrefix(s, src, 0, now);
    OpenerIsProcessed(s, src, now);
    ProcessKeepsSound(s, ChunkOf(src, 0), now);
    FirstAgrees(ProcessInOrder(s, ChunkOf(src, 0), now).0, src);
    FirstDelivered(src.payloads[0]);
  }

  ghost predicate InStep(s: Session, src: Source, r: Reorder.State<seq<byte>>)
    requires WellFormed(src)
  {
    Sound(s) && InWindow(s) && Agrees(s, src, r)
  }

  lemma StepAgrees(s: Session, src: Source, r: Reorder.State<seq<byte>>, k: nat, now: u32)
    requires WellFormed(src) && InStep(s, src, r)
    requires k < |src.payloads| && k <= r.next + FUTURE_SLOTS
    requires k > r.next ==> |src.payloads[k]| <= FUTURE_CHUNK_BYTES
    ensures HandleTopic(s, ChunkOf(src, k), false, now).1 == Ok
    ensures InStep(HandleTopic(s, ChunkOf(src, k), false, now).0, src,
                   Reorder.Deliver(r, FUTURE_SLOTS, k, src.payloads[k]))
  {
    TopicAgrees(s, src, r, k, now);
    TopicKeepsSound(s, ChunkOf(src, k), false, now);
  }

  lemma DeliverableFront(src: Source, order: seq<nat>)
    requires Deliverable(src, order) && |order| > 1
    ensures Deliverable(src, order[..|order| - 1])
  {
    var front := order[..|order| - 1];
    assert forall i :: 0 <= i < |front| ==> front[..i] == order[..i];
  }

  lemma {:induction false} RunTopicAgrees(s: Session, src: Source, order: seq<nat>, times: seq<u32>)
    requires WellFormed(src) && |times| == |order| && Deliverable(src, order)
    requires Sound(s) && Ready(s, src, times[0])
    ensures RunTopic(s, src, order, times).1
    ensures InStep(RunTopic(s, src, order, times).0, src,
                   Reorder.Run(Reorder.Start(), FUTURE_SLOTS, src.payloads, order))
  {
    var n := |order| - 1;
    var front, last := order[..n], order[n];
    if n == 0 {
      FirstChunkAgrees(s, src, times[0]);
      assert RunTopic(s, src, front, times[..n]) == (s, true);
      assert Reorder.Run(Reorder.Start(), FUTURE_SLOTS, src.payloads, front) == Reorder.Start();
    } else {
      DeliverableFront(src, order);
      RunTopicAgrees(s, src, front, times[..n]);
      var r1 := Reorder.Run(Reorder.Start(), FUTURE_SLOTS, src.payloads, front);
      assert r1.next == Reorder.Mex(Reorder.Delivered(order[..n])) by {
        Reorder.RunTracks(FUTURE_SLOTS, src.payloads, front);
      }
      StepAgrees(RunTopic(s, src, front, times[..n]).0, src, r1, last, times[n]);
    }
  }

  // ---- Which orders are accepted ----

  lemma DeliverableSnoc(src: Source, order: seq<nat>)
    requires |order| > 1 && Deliverable(src, order[..|order| - 1])
    requires var k, gap := order[|order| - 1], Reorder.Mex(Reorder.Delivered(order[..|order| - 1]));
             k < |src.payloads| && k <= gap + FUTURE_SLOTS && (k > gap ==> |src.payloads[k]| <= FUTURE_CHUNK_BYTES)
    ensures Deliverable(src, order)
  {
    var front := order[..|order| - 1];
    forall i | 0 <= i < |order|
      ensures order[i] <= Reorder.Mex(Reorder.Delivered(order[..i])) + FUTURE_SLOTS
      ensures order[i] > Reorder.Mex(Reorder.Delivered(order[..i])) ==> |src.payloads[order[i]]| <= FUTURE_CHUNK_BYTES
    {
      if i < |front| { assert front[i] == order[i] && front[..i] == order[..i]; }
    }
  }

  /** Before chunk 0 nothing else of the transfer is accepted. */
  lemma OnlyFirstOpens(s: Session, src: Source, k: nat, now: u32)
    requires WellFormed(src) && Sound(s) && Ready(s, src, now) && 0 < k < |src.payloads|
    ensures HandleTopic(s, ChunkOf(src, k), false, now).1 != Ok
  {
  }

  lemma HeldAreSmall(s: Session, src: Source)
    requires WellFormed(src) && Sound(s) && Prefix(s, src)
    ensures forall j :: j in s.future ==> |src.payloads[j]| <= FUTURE_CHUNK_BYTES
  {
    forall j | j in s.future ensures |src.payloads[j]| <= FUTURE_CHUNK_BYTES { assert Belongs(s, j, s.future[j]); }
  }

  /** A chunk accepted ahead of its turn is inside the window and small. */
  lemma AcceptedAhead(s: Session, src: Source, k: nat, now: u32)
    requires WellFormed(src) && Sound(s) && Prefix(s, src) && s.expected < k < |src.payloads|
    requires HandleTopic(s, ChunkOf(src, k), false, now).1 == Ok
    ensures k <= s.expected + FUTURE_SLOTS && |src.payloads[k]| <= FUTURE_CHUNK_BYTES
  {
    HeldAreSmall(s, src);
  }

  lemma {:induction false} AcceptedIsDeliverable(s: Session, src: Source, order: seq<nat>, times: seq<u32>)
    requires WellFormed(src) && |times| == |order| > 0 && forall i :: 0 <= i < |order| ==> order[i] < |src.payloads|
    requires Sound(s) && Ready(s, src, times[0]) && RunTopic(s, src, order, times).1
    ensures Deliverable(src, order)
    decreases |order|
  {
    var n := |order| - 1;
    var front, k := order[..n], order[n];
    if n == 0 {
      assert RunTopic(s, src, front, times[..n]) == (s, true);
      if k > 0 { OnlyFirstOpens(s, src, k, times[0]); }
      assert order[..0] == [] && Reorder.Delivered([]) == {};
      Reorder.MexOfEmpty();
    } else {
      AcceptedIsDeliverable(s, src, front, times[..n]);
      RunTopicAgrees(s, src, front, times[..n]);
      Reorder.RunTracks(FUTURE_SLOTS, src.payloads, front);
      var s1 := RunTopic(s, src, front, times[..n]).0;
      if k > s1.expected { AcceptedAhead(s1, src, k, times[n]); }
      DeliverableSnoc(src, order);
    }
  }

  /** Every chunk of an order is accepted exactly when the order is deliverable. */
  lemma AcceptedExactlyWhen(s: Session, src: Source, order: seq<nat>, times: seq<u32>)
    requires WellFormed(src) && |times| == |order| > 0 && forall i :: 0 <= i < |order| ==> order[i] < |src.payloads|
    requires Sound(s) && Ready(s, src, times[0])
    ensures RunTopic(s, src, order, times).1 <==> Deliverable(src, order)
  {
    if Deliverable(src, order) { RunTopicAgrees(s, src, order, times); }
    if RunTopic(s, src, order, times).1 { AcceptedIsDeliverable(s, src, order, times); }
  }

  /** An early chunk of more than 256 bytes is refused although it is inside the window, and leaves no trace. */
  lemma EarlyLargeChunkIsDropped(s: Session, src: Source, k: nat, now: u32)
    requires WellFormed(src) && Sound(s) && Prefix(s, src)
    requires s.expected < k < |src.payloads| && k <= s.expected + FUTURE_SLOTS && |src.payloads[k]| > FUTURE_CHUNK_BYTES
    ensures HandleTopic(s, ChunkOf(src, k), false, now) == (s, MalformedAudioChunk)
  {
    AheadIsValid(s, src, k, now);
    HeldAreSmall(s, src);
  }

  /** What becomes of any chunk ahead of its turn, inside the window: held, if it is small and a slot is free. */
  lemma EarlyChunkAnswers(s: Session, src: Source, k: nat, now: u32)
    requires WellFormed(src) && Sound(s) && Prefix(s, src)
    requires s.expected < k < |src.payloads| && k <= s.expected + 32
    ensures HandleTopic(s, ChunkOf(src, k), false, now) ==
            if k in s.future then (s, Ok)
            else if |src.payloads[k]| > 256 || |s.future| == 32 then (s, MalformedAudioChunk)
            else (s.(future := s.future[k := ChunkOf(src, k)]), Ok)
  {
    AheadIsValid(s, src, k, now);
  }

  /** So from the empty session chunk 0 and then a large chunk 2 leave what chunk 0 left. */
  lemma EarlyLargeRun(src: Source, now: u32)
    requires WellFormed(src) && |src.payloads| > 2 && |src.payloads[2]| > FUTURE_CHUNK_BYTES
    ensures var s := HandleTopic(RESET, ChunkOf(src, 0), false, now).0;
            s.expected == 1 && HandleTopic(s, ChunkOf(src, 2), false, now) == (s, MalformedAudioChunk)
  {
    FirstChunkAgrees(RESET, src, now);
    EarlyLargeChunkIsDropped(HandleTopic(RESET, ChunkOf(src, 0), false, now).0, src, 2, now);
  }

  /**
   The session is determined by the set of delivered chunks: `expected` is the first gap, the
   buffer is the concatenation of everything below it, and the future slots hold the rest.
   */
  lemma DeliveryDeterminesSession(s: Session, src: Source, order: seq<nat>, times: seq<u32>)
    requires WellFormed(src) && |times| == |order| && Deliverable(src, order)
    requires Sound(s) && Ready(s, src, times[0])
    ensures var (s1, allOk) := RunTopic(s, src, order, times);
            var d := Reorder.Delivered(order);
            && allOk && s1.format == src.format && s1.totalBytes == src.totalBytes
            && s1.expected == Reorder.Mex(d) <= |src.payloads|
            && s1.stored == Concat(src.payloads[..s1.expected])
            && s1.future.Keys == Reorder.Above(d, s1.expected)
            && (forall k :: k in s1.future ==> s1.future[k] == ChunkOf(src, k))
            && (s1.complete <==> forall k: nat :: k < |src.payloads| ==> k in d)
            && (s1.complete ==> s1.stored == Concat(src.payloads))
  {
    RunTopicAgrees(s, src, order, times);
    Reorder.RunTracks(FUTURE_SLOTS, src.payloads, order);
    var s1 := RunTopic(s, src, order, times).0;
    var d := Reorder.Delivered(order);
    if s1.complete {
      assert src.payloads[..s1.expected] == src.payloads;
    }
    if forall k: nat :: k < |src.payloads| ==> k in d {
      assert s1.expected == |src.payloads|;
    }
  }

  /** Once every chunk has arrived, the buffer is the whole transfer. */
  lemma FullDelivery(s: Session, src: Source, order: seq<nat>, times: seq<u32>)
    requires WellFormed(src) && |times| == |order| && Deliverable(src, order)
    requires Sound(s) && Ready(s, src, times[0])
    requires forall k: nat :: k < |src.payloads| ==> k in Reorder.Delivered(order)
    ensures var s1 := RunTopic(s, src, order, times).0;
            s1.complete && s1.stored == Concat(src.payloads) && s1.format == src.format
              && s1.totalBytes == src.totalBytes
  {
    DeliveryDeterminesSession(s, src, order, times);
  }

  /** Confluence: equal delivered sets leave equal sessions, whatever the orders and times. */
  lemma LoadedConfluence(s: Session, s': Session, src: Source, a: seq<nat>, b: seq<nat>, ta: seq<u32>, tb: seq<u32>)
    requires WellFormed(src) && |ta| == |a| && |tb| == |b| && Deliverable(src, a) && Deliverable(src, b)
    requires Sound(s) && Sound(s') && Ready(s, src, ta[0]) && Ready(s', src, tb[0])
    requires Reorder.Delivered(a) == Reorder.Delivered(b)
    ensures var x, y := RunTopic(s, src, a, ta).0, RunTopic(s', src, b, tb).0;
            x.stored == y.stored && x.expected == y.expected && x.future == y.future && x.complete == y.complete
  {
    DeliveryDeterminesSession(s, src, a, ta);
    DeliveryDeterminesSession(s', src, b, tb);
  }

  /** A chunk past the window is refused and leaves no trace. */
  lemma PastWindowIsDropped(s: Session, src: Source, k: nat, now: u32)
    requires WellFormed(src) && Prefix(s, src)
    requires s.expected + FUTURE_SLOTS < k < |src.payloads|
    ensures HandleTopic(s, ChunkOf(src, k), false, now) == (s, MalformedAudioChunk)
  {
  }
}
