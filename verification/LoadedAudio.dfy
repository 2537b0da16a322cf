/**
 The loaded-audio session as values: what one topic chunk or one load-service request does
 to the session, and what that means for whole deliveries. `LoadedReassembler` refines it.
 */
module LoadedAudio {
  import opened Wire
  import Reorder

  const BUFFER_BYTES := 32 * 1024
  const ADPCM_MAX_DECODED_BYTES := 128 * 1024
  const FUTURE_SLOTS := 32
  const FUTURE_CHUNK_BYTES := 256
  const INTER_CHUNK_TIMEOUT_MS := 6000

  datatype Session = Session(
    commandId: string,
    totalBytes: u32,
    totalChunks: u32,
    format: Format,
    sampleRate: u32,
    expected: nat,
    stored: seq<byte>,
    future: map<nat, Chunk>,
    complete: bool,
    playing: bool,
    lastWriteMs: u32)

  const RESET := Session("", 0, 0, PcmS16Le, SAMPLE_RATE, 0, [], map[], false, false, 0)

  predicate Stale(s: Session, now: u32) {
    && !s.complete && !s.playing && s.expected > 0 && s.lastWriteMs != 0
    && Wrap32(now - s.lastWriteMs) >= INTER_CHUNK_TIMEOUT_MS
  }

  /** The checks both entrances share before they look at the session. */
  function ValidateShape(c: Chunk, goalActive: bool): Code {
    if !c.deviceMatches then InvalidDeviceId
    else if goalActive then FirmwareBusy
    else if c.format == OtherFormat || !SampleRateSupported(c.sampleRate) || c.channels != CHANNELS then
      UnsupportedFeature
    else if |c.pcm| == 0 || |c.pcm| > MAX_CHUNK_BYTES || (c.format == PcmS16Le && |c.pcm| % 2 != 0) then
      MalformedAudioChunk
    else if c.format == ImaAdpcm4Bit && c.sequence == 0 && |c.pcm| < ADPCM_HEADER_BYTES then
      MalformedAudioChunk
    else if c.totalBytes == 0 || c.totalBytes % 2 != 0 || c.totalChunks == 0
            || c.totalBytes > (if c.format == ImaAdpcm4Bit then ADPCM_MAX_DECODED_BYTES else BUFFER_BYTES) then
      AudioBufferOverflow
    else Ok
  }

  predicate StartsSession(s: Session, c: Chunk, now: u32) {
    (s.expected == 0 || s.complete || Stale(s, now)) && c.sequence == 0
  }

  /** The checks against the session that both entrances share. */
  function ValidateAgainst(s: Session, c: Chunk): Code {
    if !s.complete && c.commandId != s.commandId then FirmwareBusy
    else if c.format != s.format || c.sampleRate != s.sampleRate then UnsupportedFeature
    else if c.totalBytes != s.totalBytes || c.totalChunks != s.totalChunks then MalformedAudioChunk
    else Ok
  }

  predicate IsDuplicate(s: Session, c: Chunk) {
    s.expected > 0 && c.commandId == s.commandId && c.sequence < s.expected
  }

  function ValidateTopic(s: Session, c: Chunk, goalActive: bool, now: u32): Code {
    if ValidateShape(c, goalActive) != Ok then ValidateShape(c, goalActive)
    else if StartsSession(s, c, now) then Ok
    else if IsDuplicate(s, c) then Ok
    else if ValidateAgainst(s, c) != Ok then ValidateAgainst(s, c)
    else if c.sequence != s.expected
            && !(c.sequence > s.expected > 0 && c.sequence <= s.expected + FUTURE_SLOTS) then
      MalformedAudioChunk
    else Ok
  }

  function ValidateService(s: Session, c: Chunk, goalActive: bool, now: u32): Code {
    if ValidateShape(c, goalActive) != Ok then ValidateShape(c, goalActive)
    else if StartsSession(s, c, now) then Ok
    else if ValidateAgainst(s, c) != Ok then ValidateAgainst(s, c)
    else if c.sequence != s.expected then MalformedAudioChunk
    else Ok
  }

  predicate TotalsMismatch(s: Session, c: Chunk) {
    || (c.format == PcmS16Le && |s.stored| != c.totalBytes)
    || s.totalBytes != c.totalBytes
    || s.expected != c.totalChunks
  }

  function Opened(c: Chunk): Session {
    RESET.(commandId := c.commandId, totalBytes := c.totalBytes, totalChunks := c.totalChunks,
           sampleRate := c.sampleRate, format := c.format)
  }

  /** Append the payload; a failed final check resets the session. */
  function Store(s: Session, c: Chunk, now: u32): (Session, Code) {
    if |s.stored| + |c.pcm| > BUFFER_BYTES then (s, AudioBufferOverflow)
    else
      var s1 := s.(stored := s.stored + c.pcm, expected := c.sequence + 1, lastWriteMs := now,
                   complete := c.endOfStream);
      if s1.complete && TotalsMismatch(s1, c) then (RESET, MalformedAudioChunk) else (s1, Ok)
  }

  /** One chunk in order; sequence 0 opens a new session first. */
  function ProcessInOrder(s: Session, c: Chunk, now: u32): (Session, Code) {
    Store(if c.sequence == 0 then Opened(c) else s, c, now)
  }

  /** The last chunk, appended, does not match the declared totals: the session is reset. */
  predicate FinalCheckFails(s: Session, c: Chunk) {
    && c.endOfStream && |s.stored| + |c.pcm| <= BUFFER_BYTES
    && TotalsMismatch(s.(stored := s.stored + c.pcm, expected := c.sequence + 1), c)
  }

  lemma ResetsExactlyWhen(s: Session, c: Chunk, now: u32)
    requires s.expected > 0 && c.sequence > 0
    ensures ProcessInOrder(s, c, now).0.expected == 0 <==> FinalCheckFails(s, c)
  {
  }

  function Drain(s: Session, now: u32): (Session, Code)
    decreases s.future.Keys
  {
    if s.expected !in s.future then (s, Ok)
    else
      var (s1, code) := ProcessInOrder(s.(future := s.future - {s.expected}), s.future[s.expected], now);
      if code != Ok then (s1, code) else Drain(s1, now)
  }

  function HoldFuture(s: Session, c: Chunk): (Session, Code) {
    if c.sequence in s.future then (s, Ok)
    else if |c.pcm| > FUTURE_CHUNK_BYTES then (s, MalformedAudioChunk)
    else if c.sequence > s.expected + FUTURE_SLOTS then (s, MalformedAudioChunk)
    else if |s.future| >= FUTURE_SLOTS then (s, MalformedAudioChunk)
    else (s.(future := s.future[c.sequence := c]), Ok)
  }

  function HandleTopic(s: Session, c: Chunk, goalActive: bool, now: u32): (Session, Code) {
    if IsDuplicate(s, c) then (s, Ok)
    else if ValidateTopic(s, c, goalActive, now) != Ok then (s, ValidateTopic(s, c, goalActive, now))
    else if c.sequence > s.expected > 0 then HoldFuture(s, c)
    else
      var (s1, code) := ProcessInOrder(s, c, now);
      if code != Ok then (s1, code) else Drain(s1, now)
  }

  function HandleService(s: Session, c: Chunk, goalActive: bool, now: u32): (Session, Code) {
    if ValidateService(s, c, goalActive, now) != Ok then (s, ValidateService(s, c, goalActive, now))
    else ProcessInOrder(s, c, now)
  }

  // ---- Facts about every run, whatever arrives ----

  predicate Matches(s: Session, c: Chunk) {
    c.format == s.format && c.totalBytes == s.totalBytes && c.totalChunks == s.totalChunks
  }

  ghost predicate Belongs(s: Session, k: nat, c: Chunk) {
    k == c.sequence > 0 && 0 < |c.pcm| <= 256 && Matches(s, c)
  }

  ghost predicate Sound(s: Session) {
    && s.expected <= |s.stored| <= 0x8000
    && (s.expected == 0 ==> s.future == map[] && !s.complete)
    && |s.future| <= 32
    && (forall k :: k in s.future ==> Belongs(s, k, s.future[k]))
    && (s.complete ==> s.expected == s.totalChunks && (s.format == PcmS16Le ==> |s.stored| == s.totalBytes))
  }

  /** Held sequences lie strictly inside the window. */
  ghost predicate InWindow(s: Session) {
    forall k :: k in s.future ==> s.expected < k <= s.expected + 32
  }

  lemma ProcessKeepsSound(s: Session, c: Chunk, now: u32)
    requires Sound(s) && 0 < |c.pcm| <= MAX_CHUNK_BYTES
    requires c.sequence == 0 || (c.sequence == s.expected && Matches(s, c))
    ensures Sound(ProcessInOrder(s, c, now).0)
    ensures var (s1, code) := ProcessInOrder(s, c, now);
            && (code == Ok ==> s1.expected == c.sequence + 1)
            && (c.sequence == 0 ==> s1.future == map[])
            && (c.sequence > 0 && code == Ok ==> s1.future == s.future)
            && (c.sequence > 0 && code != Ok ==> s1 == s || s1 == RESET)
  {
  }

  /** Processing a later chunk neither reads nor changes what is held, short of a reset. */
  lemma ProcessIgnoresFuture(s: Session, future: map<nat, Chunk>, c: Chunk, now: u32)
    requires s.expected > 0 && c.sequence > 0
    ensures var (s1, code) := ProcessInOrder(s, c, now);
            && (s1.expected == 0 ==> s1 == RESET && code != Ok)
            && (s1.expected > 0 ==> s1.future == s.future)
            && ProcessInOrder(s.(future := future), c, now) ==
                 (if s1.expected == 0 then RESET else s1.(future := future), code)
  {
  }

  lemma RemoveKey<V>(m: map<nat, V>, k: nat)
    requires k in m
    ensures |m - {k}| == |m| - 1
  {
    assert (m - {k}).Keys == m.Keys - {k};
    assert |m.Keys| == |m| && |(m - {k}).Keys| == |m - {k}|;
  }

  /** The held chunk that has become the awaited one. */
  function ProcessHeld(s: Session, now: u32): (Session, Code)
    requires s.expected in s.future
  {
    ProcessInOrder(s.(future := s.future - {s.expected}), s.future[s.expected], now)
  }

  /** One turn of draining. */
  lemma DrainTurn(s: Session, now: u32)
    requires Sound(s) && s.expected in s.future
    ensures s.expected > 0 && Belongs(s, s.expected, s.future[s.expected])
    ensures var (s1, code) := ProcessHeld(s, now);
            && Sound(s1) && (code != Ok ==> Drain(s, now) == (s1, code))
            && (code == Ok ==> Drain(s, now) == Drain(s1, now) && s1.expected == s.expected + 1
                               && s1.future == s.future - {s.expected} && s1.future.Keys < s.future.Keys)
  {
    var c := s.future[s.expected];
    var s0 := s.(future := s.future - {s.expected});
    assert Belongs(s, s.expected, c);
    RemoveKey(s.future, s.expected);
    ProcessKeepsSound(s0, c, now);
    assert s0.future.Keys == s.future.Keys - {s.expected};
  }

  lemma {:induction false} DrainKeepsSound(s: Session, now: u32)
    requires Sound(s)
    ensures Sound(Drain(s, now).0)
    ensures (forall k :: k in s.future ==> s.expected <= k <= s.expected + FUTURE_SLOTS) ==> InWindow(Drain(s, now).0)
    decreases s.future.Keys
  {
    if s.expected in s.future {
      DrainTurn(s, now);
      var (s1, code) := ProcessHeld(s, now);
      if code == Ok { DrainKeepsSound(s1, now); }
    }
  }

  lemma TopicKeepsSound(s: Session, c: Chunk, goalActive: bool, now: u32)
    requires Sound(s)
    ensures Sound(HandleTopic(s, c, goalActive, now).0)
    ensures InWindow(s) ==> InWindow(HandleTopic(s, c, goalActive, now).0)
  {
    if !IsDuplicate(s, c) && ValidateTopic(s, c, goalActive, now) == Ok && !(c.sequence > s.expected > 0) {
      ProcessKeepsSound(s, c, now);
      var (s1, code) := ProcessInOrder(s, c, now);
      if code == Ok { DrainKeepsSound(s1, now); }
    }
  }

  lemma ServiceKeepsSound(s: Session, c: Chunk, goalActive: bool, now: u32)
    requires Sound(s)
    ensures Sound(HandleService(s, c, goalActive, now).0)
  {
    if ValidateService(s, c, goalActive, now) == Ok {
      ProcessKeepsSound(s, c, now);
    }
  }

  /**
   With topic traffic only, a future chunk that passes validation always finds a free slot:
   the "future buffer full" branch is dead.
   */
  lemma TopicNeverFindsBufferFull(s: Session, c: Chunk, goalActive: bool, now: u32)
    requires Sound(s) && InWindow(s)
    requires ValidateTopic(s, c, goalActive, now) == Ok && c.sequence > s.expected > 0 && c.sequence !in s.future
    ensures |s.future| < FUTURE_SLOTS
  {
    Reorder.WindowLeavesRoom(s.future.Keys, s.expected, FUTURE_SLOTS, c.sequence);
  }

  /**
   The load service advances `expected` without draining. An accepted request keeps the held chunks
   inside the window exactly when it opens a session or its successor is not held; otherwise that
   successor's slot stays occupied until a reset.
   */
  lemma ServiceKeepsWindowExactlyWhen(s: Session, c: Chunk, goalActive: bool, now: u32)
    requires Sound(s) && InWindow(s) && HandleService(s, c, goalActive, now).1 == Ok
    ensures InWindow(HandleService(s, c, goalActive, now).0) <==> c.sequence == 0 || c.sequence + 1 !in s.future
  {
    ProcessKeepsSound(s, c, now);
    if c.sequence > 0 { assert HandleService(s, c, goalActive, now).0.future == s.future; }
  }

  // ---- Runs over every interleaving of the entrances ----

  datatype Input =
    | Topic(chunk: Chunk, goalActive: bool, now: u32)
    | Service(chunk: Chunk, goalActive: bool, now: u32)
    | Clear
    | StartPlaying

  function Step(s: Session, i: Input): Session {
    match i
    case Topic(c, goalActive, now) => HandleTopic(s, c, goalActive, now).0
    case Service(c, goalActive, now) => HandleService(s, c, goalActive, now).0
    case Clear => RESET
    case StartPlaying => s.(playing := true)
  }

  function Run(s: Session, inputs: seq<Input>): Session {
    if inputs == [] then s else Step(Run(s, inputs[..|inputs| - 1]), inputs[|inputs| - 1])
  }

  /** `complete` always means every declared chunk and, for PCM, every declared byte is stored. */
  lemma {:induction false} EveryRunIsSound(inputs: seq<Input>)
    ensures Sound(Run(RESET, inputs))
    ensures (forall i :: 0 <= i < |inputs| ==> !inputs[i].Service?) ==> InWindow(Run(RESET, inputs))
  {
    if inputs != [] {
      var front, last := inputs[..|inputs| - 1], inputs[|inputs| - 1];
      EveryRunIsSound(front);
      var s := Run(RESET, front);
      match last {
        case Topic(c, goalActive, now) => TopicKeepsSound(s, c, goalActive, now);
        case Service(c, goalActive, now) => ServiceKeepsSound(s, c, goalActive, now);
        case Clear =>
        case StartPlaying =>
      }
    }
  }
}
