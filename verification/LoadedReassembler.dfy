/** The session variables, future slots and byte buffer of the firmware, refining `LoadedAudio`. */
module LoadedReassembler {
  import opened Wire
  import opened LoadedAudio
  import SlotTable

  const NO_CHUNK := Chunk(false, "", 0, 0, 0, PcmS16Le, 0, 0, false, [])

  class Reassembler {
    var commandId: string
    var totalBytes: u32
    var totalChunks: u32
    var format: Format
    var sampleRate: u32
    var expected: u32
    var encodedBytes: u32
    var complete: bool
    var playing: bool
    var lastWriteMs: u32
    var futureCount: byte
    const buffer: array<byte>
    const future: SlotTable.Table<Chunk>

    ghost predicate Allocated()
      reads future, future.slots
    {
      buffer.Length == BUFFER_BYTES && future.slots.Length == FUTURE_SLOTS && future.Valid()
    }

    /** The representation invariant; the count is only meaningful while a session is open. */
    ghost predicate Consistent()
      reads this, future, future.slots
    {
      && Allocated()
      && expected <= encodedBytes <= BUFFER_BYTES
      && (expected > 0 ==> futureCount == |future.held|)
    }

    ghost predicate Valid()
      reads this, buffer, future, future.slots
    {
      Consistent() && Sound(Session())
    }

    /** The session these variables stand for. */
    ghost function Session(): LoadedAudio.Session
      reads this, buffer, future
      requires encodedBytes <= buffer.Length
    {
      LoadedAudio.Session(commandId, totalBytes, totalChunks, format, sampleRate, expected,
                          buffer[..encodedBytes], future.held, complete, playing, lastWriteMs)
    }

    constructor ()
      ensures Valid() && Session() == RESET
      ensures fresh(buffer) && fresh(future) && fresh(future.slots)
    {
      commandId, totalBytes, totalChunks, format, sampleRate := "", 0, 0, PcmS16Le, SAMPLE_RATE;
      expected, encodedBytes, complete, playing, lastWriteMs, futureCount := 0, 0, false, false, 0, 0;
      buffer := new byte[BUFFER_BYTES](_ => 0);
      future := new SlotTable.Table(FUTURE_SLOTS, NO_CHUNK);
    }

    method ClearVariables()
      modifies this
      ensures encodedBytes == futureCount == 0
      ensures encodedBytes <= buffer.Length && Session() == RESET.(future := future.held)
    {
      commandId, totalBytes, totalChunks, format, sampleRate := "", 0, 0, PcmS16Le, SAMPLE_RATE;
      expected, encodedBytes, complete, playing, lastWriteMs := 0, 0, false, false, 0;
      futureCount := 0;
    }

    method Reset()
      requires Allocated()
      modifies this, future, future.slots
      ensures Consistent() && Session() == RESET && futureCount == 0
    {
      future.Clear();
      ClearVariables();
    }

    method OpenSession(c: Chunk)
      requires encodedBytes == 0 && Session() == RESET
      modifies this
      ensures encodedBytes == 0 && Session() == Opened(c) && futureCount == old(futureCount)
    {
      commandId, totalBytes, encodedBytes, totalChunks := c.commandId, c.totalBytes, 0, c.totalChunks;
      sampleRate, format := c.sampleRate, c.format;
    }

    method BufferFuture(c: Chunk) returns (code: Code)
      requires Consistent() && expected > 0
      modifies this`futureCount, future, future.slots
      ensures Consistent()
      ensures (Session(), code) == HoldFuture(old(Session()), c)
    {
      var found := future.Find(c.sequence);
      if found >= 0 { return Ok; }
      if |c.pcm| > FUTURE_CHUNK_BYTES { return MalformedAudioChunk; }
      if c.sequence > Wrap32(expected + FUTURE_SLOTS) { return MalformedAudioChunk; }
      var held := future.Hold(c.sequence, c);
      if !held { return MalformedAudioChunk; }
      futureCount := (futureCount + 1) % 256;
      code := Ok;
    }

    /** `memcpy` of one payload behind the bytes stored so far, unless the buffer would overflow. */
    method Append(pcm: seq<byte>) returns (code: Code)
      requires buffer.Length == BUFFER_BYTES && encodedBytes <= BUFFER_BYTES && |pcm| <= MAX_CHUNK_BYTES
      modifies this`encodedBytes, buffer
      ensures code == if old(encodedBytes) + |pcm| > BUFFER_BYTES then AudioBufferOverflow else Ok
      ensures encodedBytes == old(encodedBytes) + (if code == Ok then |pcm| else 0) <= BUFFER_BYTES
      ensures buffer[..encodedBytes] == old(buffer[..encodedBytes]) + if code == Ok then pcm else []
    {
      if Wrap32(encodedBytes + |pcm|) > BUFFER_BYTES { return AudioBufferOverflow; }
      forall i | 0 <= i < |pcm| {
        buffer[encodedBytes + i] := pcm[i];
      }
      encodedBytes := Wrap32(encodedBytes + |pcm|);
      code := Ok;
    }

    /** Advance past a stored chunk; false when it ends the stream but the totals do not add up. */
    method Advance(c: Chunk, now: u32) returns (totalsOk: bool)
      requires encodedBytes <= buffer.Length
      modifies this`expected, this`lastWriteMs, this`complete
      ensures expected == Wrap32(c.sequence + 1)
      ensures Session() == old(Session()).(expected := Wrap32(c.sequence + 1), lastWriteMs := now,
                                           complete := c.endOfStream)
      ensures totalsOk <==> !(c.endOfStream && TotalsMismatch(Session(), c))
    {
      expected := Wrap32(c.sequence + 1);
      lastWriteMs := now;
      complete := c.endOfStream;
      totalsOk := !(complete
                    && ((c.format == PcmS16Le && encodedBytes != c.totalBytes)
                        || totalBytes != c.totalBytes
                        || expected != c.totalChunks));
    }

    method ProcessInOrder(c: Chunk, now: u32) returns (code: Code)
      requires Consistent() && 0 < |c.pcm| <= MAX_CHUNK_BYTES
      requires c.sequence == 0 || c.sequence == expected > 0
      modifies this, buffer, future, future.slots
      ensures Consistent()
      ensures (Session(), code) == LoadedAudio.ProcessInOrder(old(Session()), c, now)
      ensures c.sequence > 0 && expected > 0 ==>
                future.slots[..] == old(future.slots[..]) && futureCount == old(futureCount)
      ensures expected == 0 ==> futureCount == 0
    {
      if c.sequence == 0 {
        Reset();
        OpenSession(c);
      }
      code := Store(c, now);
    }

    /** The payload behind the stored bytes, then the totals, if it was the last chunk. */
    method Store(c: Chunk, now: u32) returns (code: Code)
      requires Consistent() && 0 < |c.pcm| <= MAX_CHUNK_BYTES && c.sequence == expected
      requires expected == 0 ==> futureCount == 0 && future.held == map[]
      modifies this, buffer, future, future.slots
      ensures Consistent()
      ensures (Session(), code) == LoadedAudio.Store(old(Session()), c, now)
      ensures expected > 0 ==> future.slots[..] == old(future.slots[..]) && futureCount == old(futureCount)
      ensures expected == 0 ==> futureCount == 0
    {
      ghost var s0 := Session();
      code := Append(c.pcm);
      assert Session() == s0.(stored := if code == Ok then s0.stored + c.pcm else s0.stored);
      if code != Ok { return; }
      var totalsOk := Advance(c, now);
      if !totalsOk {
        code := MalformedAudioChunk;
        Reset();
      }
    }

    /** Process and free one slot. A failed final check has already freed it and zeroed the count, which then wraps. */
    method DrainSlot(index: nat, now: u32) returns (code: Code)
      requires Consistent() && expected > 0 && index < FUTURE_SLOTS
      requires future.slots[index].occupied && future.slots[index].sequence == expected
               == future.slots[index].item.sequence
      requires 0 < |future.slots[index].item.pcm| <= MAX_CHUNK_BYTES && expected in future.held
      modifies this, buffer, future, future.slots
      ensures Consistent()
      ensures (Session(), code) == ProcessHeld(old(Session()), now)
      ensures futureCount == if old(FinalCheckFails(Session(), future.slots[index].item)) then 255
              else old(futureCount) - 1
    {
      var c := future.slots[index].item;
      ghost var s0, k, slot := Session(), expected, future.slots[..][index];
      ResetsExactlyWhen(s0, c, now);
      ghost var left := s0.future - {k};
      assert |left| == |s0.future| - 1 by { RemoveKey(s0.future, k); }
      ProcessIgnoresFuture(s0, left, c, now);
      code := ProcessInOrder(c, now);
      // The same two assignments follow in both cases; they are apart for the proof only.
      if expected > 0 {
        assert future.slots[..][index] == slot;
        FreeSlot(index);
        assert future.held == left;
      } else {
        FreeSlot(index);
        assert future.held == map[];
      }
    }

    method FreeSlot(index: nat)
      requires Allocated() && index < FUTURE_SLOTS
      modifies this`futureCount, future, future.slots
      ensures future.Valid() && future.held == SlotTable.Without(old(future.slots[..]), old(future.held), index)
      ensures futureCount == if old(futureCount) == 0 then 255 else old(futureCount) - 1
    {
      future.Release(index);
      futureCount := (futureCount + 255) % 256;
    }

    /** Drain everything that has become contiguous. */
    method DrainFuture(now: u32) returns (code: Code)
      requires Valid() && expected > 0
      modifies this, buffer, future, future.slots
      ensures Consistent()
      ensures (Session(), code) == Drain(old(Session()), now)
    {
      code := Ok;
      while futureCount > 0
        invariant Consistent() && Sound(Session()) && expected > 0 && code == Ok
        invariant Drain(Session(), now) == old(Drain(Session(), now))
        decreases future.held.Keys
      {
        var index := future.Find(expected);
        if index < 0 { return; }
        DrainTurn(Session(), now);
        code := DrainSlot(index, now);
        if code != Ok { return; }
      }
    }

    method HandleTopic(c: Chunk, goalActive: bool, now: u32) returns (code: Code)
      requires Valid()
      modifies this, buffer, future, future.slots
      ensures Valid()
      ensures (Session(), code) == LoadedAudio.HandleTopic(old(Session()), c, goalActive, now)
    {
      TopicKeepsSound(Session(), c, goalActive, now);
      if expected > 0 && c.commandId == commandId && c.sequence < expected { return Ok; }
      code := ValidateTopicChunk(c, goalActive, now);
      if code != Ok { return; }
      if c.sequence > expected && expected > 0 {
        code := BufferFuture(c);
      } else {
        ProcessKeepsSound(Session(), c, now);
        code := ProcessInOrder(c, now);
        if code == Ok {
          code := DrainFuture(now);
        }
      }
    }

    method HandleService(c: Chunk, goalActive: bool, now: u32) returns (code: Code)
      requires Valid()
      modifies this, buffer, future, future.slots
      ensures Valid()
      ensures (Session(), code) == LoadedAudio.HandleService(old(Session()), c, goalActive, now)
    {
      ServiceKeepsSound(Session(), c, goalActive, now);
      code := ValidateServiceRequest(c, goalActive, now);
      if code != Ok { return; }
      code := ProcessInOrder(c, now);
    }

    method SessionStale(now: u32) returns (stale: bool)
      requires Consistent()
      ensures stale <==> Stale(Session(), now)
    {
      stale := !complete && !playing && expected > 0 && lastWriteMs != 0
               && Wrap32(now - lastWriteMs) >= INTER_CHUNK_TIMEOUT_MS;
    }

    method ValidateTopicChunk(c: Chunk, goalActive: bool, now: u32) returns (code: Code)
      requires Consistent()
      ensures code == ValidateTopic(Session(), c, goalActive, now)
    {
      code := ValidateShape(c, goalActive);
      if code != Ok { return; }
      var stale := SessionStale(now);
      if (expected == 0 || complete || stale) && c.sequence == 0 { return Ok; }
      if expected > 0 && c.commandId == commandId && c.sequence < expected { return Ok; }
      if !complete && c.commandId != commandId { return FirmwareBusy; }
      if c.format != format || c.sampleRate != sampleRate { return UnsupportedFeature; }
      if c.totalBytes != totalBytes || c.totalChunks != totalChunks { return MalformedAudioChunk; }
      if c.sequence != expected {
        if c.sequence > expected && expected > 0 && c.sequence <= Wrap32(expected + FUTURE_SLOTS) { return Ok; }
        return MalformedAudioChunk;
      }
    }

    method ValidateServiceRequest(c: Chunk, goalActive: bool, now: u32) returns (code: Code)
      requires Consistent()
      ensures code == ValidateService(Session(), c, goalActive, now)
    {
      code := ValidateShape(c, goalActive);
      if code != Ok { return; }
      var stale := SessionStale(now);
      if (expected == 0 || complete || stale) && c.sequence == 0 { return Ok; }
      if !complete && c.commandId != commandId { return FirmwareBusy; }
      if c.format != format || c.sampleRate != sampleRate { return UnsupportedFeature; }
      if c.totalBytes != totalBytes || c.totalChunks != totalChunks { return MalformedAudioChunk; }
      if c.sequence != expected { return MalformedAudioChunk; }
    }
  }
}
