/** The chunk guard, the jitter slots and the frame writer of the firmware, refining `Streaming`. */
module StreamingPlayer {
  import opened Wire
  import opened Streaming
  import opened FrameWriter
  import Reorder
  import SlotTable

  const NO_CHUNK := Chunk(false, "", 0, 0, 0, PcmS16Le, 0, 0, false, [])

  class ChunkGuard {
    var active: bool
    var expected: nat
    var commandId: string

    constructor ()
      ensures !active && expected == 0 && commandId == ""
    {
      active, expected, commandId := false, 0, "";
    }

    method StartSession(commandId: string) returns (code: Code)
      modifies this
      ensures code == if old(active) then FirmwareBusy else Ok
      ensures active && (code == Ok ==> expected == 0 && this.commandId == commandId)
      ensures code != Ok ==> expected == old(expected) && this.commandId == old(this.commandId)
    {
      if active { return FirmwareBusy; }
      this.commandId := commandId;
      expected := 0;
      active := true;
      code := Ok;
    }

    method FinishSession()
      modifies this
      ensures !active && expected == 0 && commandId == ""
    {
      active, expected, commandId := false, 0, "";
    }

    /** Accepts exactly the awaited chunk, and then awaits the next one. */
    method ValidateChunk(c: Chunk) returns (code: Code)
      modifies this`expected
      ensures code == GuardCode(active, commandId, old(expected), c)
      ensures expected == if code == Ok then old(expected) + 1 else old(expected)
    {
      if !active { return UnknownCommand; }
      if c.commandId != commandId { return UnknownCommand; }
      if c.format != PcmS16Le || c.sampleRate != SAMPLE_RATE || c.channels != CHANNELS { return UnsupportedFeature; }
      if |c.pcm| == 0 || |c.pcm| > MAX_CHUNK_BYTES { return MalformedAudioChunk; }
      if c.sequence != expected { return AudioUnderrun; }
      expected := expected + 1;
      code := Ok;
    }
  }

  class Player {
    const guard: ChunkGuard
    const pending: SlotTable.Table<Chunk>
    const writer: Writer
    var pendingCount: byte
    var nextPull: nat
    var sampleRate: u32
    var commandId: string
    /** The speaker has refused a frame since the last session was started, which ended that session. */
    ghost var refused: bool

    /** The stream these variables stand for. */
    ghost function Stream(): Streaming.Stream
      reads this, guard, pending, writer
    {
      if guard.active then Active(commandId, sampleRate, nextPull, pending.held, writer.Output()) else Idle
    }

    ghost predicate PendingOk()
      reads this, pending, pending.slots
    {
      pending.Valid() && pending.slots.Length == PENDING_SLOTS && pendingCount == |pending.held|
    }

    ghost predicate WriterOk()
      reads writer, writer.buffers
    {
      writer.Valid() && writer.fill < FRAME_SAMPLES
    }

    /** The guard awaits the chunk the session pulls next, and every frame so far was full and taken. */
    ghost predicate Lockstep()
      reads this, guard, writer
    {
      guard.active ==>
        guard.expected == nextPull && guard.commandId == commandId && FullFrames(writer.queued) && !refused
    }

    ghost predicate Consistent()
      reads this, guard, pending, pending.slots, writer, writer.buffers
    {
      PendingOk() && WriterOk() && Lockstep()
    }

    constructor ()
      ensures Consistent() && Stream() == Idle && !refused
      ensures fresh(guard) && fresh(pending) && fresh(pending.slots) && fresh(writer) && fresh(writer.buffers)
    {
      guard := new ChunkGuard();
      pending := new SlotTable.Table(PENDING_SLOTS, NO_CHUNK);
      writer := new Writer();
      pendingCount, nextPull, sampleRate, commandId, refused := 0, 0, SAMPLE_RATE, "", false;
    }

    method Start(commandId: string, sampleRate: u32) returns (code: Code)
      requires Consistent()
      modifies this, guard, pending, pending.slots, writer
      ensures Consistent()
      ensures code == if old(guard.active) then FirmwareBusy else Ok
      ensures code == Ok ==> Stream() == Active(commandId, sampleRate, 0, map[], []) && !refused
      ensures code != Ok ==> Stream() == old(Stream()) && refused == old(refused)
    {
      if guard.active { return FirmwareBusy; }
      code := guard.StartSession(commandId);
      writer.Restart();
      pending.Clear();
      pendingCount, nextPull, this.sampleRate, this.commandId, refused := 0, 0, sampleRate, commandId, false;
      assert Concat<Ima.int16>([]) + [] == [];
    }

    method Finish()
      requires pending.Valid() && pending.slots.Length == PENDING_SLOTS && writer.Valid()
      modifies this`pendingCount, guard, pending, pending.slots, writer`fill, writer`partial
      ensures Consistent() && Stream() == Idle
    {
      writer.DropPartial();
      pending.Clear();
      pendingCount := 0;
      guard.FinishSession();
    }

    method BufferPending(c: Chunk) returns (ok: bool)
      requires PendingOk() && guard.active
      modifies this`pendingCount, pending, pending.slots
      ensures PendingOk()
      ensures ok <==> HoldPending(old(Stream()), c).Active?
      ensures ok ==> Stream() == HoldPending(old(Stream()), c)
    {
      var found := pending.Find(c.sequence);
      if found >= 0 { return true; }
      if |c.pcm| > PENDING_CHUNK_BYTES { return false; }
      if c.sequence >= nextPull + PENDING_SLOTS { return false; }
      ok := pending.Hold(c.sequence, c);
      if ok { pendingCount := (pendingCount + 1) % 256; }
    }

    /**
     Play the awaited chunk. With guard and pull sequence in lockstep the guard's sequence-gap
     rejection cannot fire; only an 8 kHz session or a refused speaker frame ends the goal here.
     */
    method ProcessInOrder(c: Chunk) returns (ok: bool)
      requires Consistent() && guard.active
      requires ShapeCode(Stream(), c) == Ok && c.sequence == nextPull
      modifies this`pendingCount, this`nextPull, this`refused, guard, pending, pending.slots, writer, writer.buffers
      ensures Consistent() && (ok <==> guard.active)
      ensures !refused ==> Stream() == Play(old(Stream()), c)
      ensures refused ==> Stream() == Idle
      ensures ok ==> pending.held == old(pending.held) && pending.slots[..] == old(pending.slots[..])
    {
      ghost var s0 := Stream();
      var code := guard.ValidateChunk(c);
      assert code != AudioUnderrun;
      if code != Ok {
        Finish();
        return false;
      }
      ok := writer.AppendPcm(c.pcm);
      if !ok {
        refused := true;
        Finish();
        return;
      }
      nextPull := c.sequence + 1;
    }

    /** Play the chunk in a slot, then free the slot. */
    method DrainOne(index: nat) returns (ok: bool)
      requires Consistent() && guard.active
      requires index < PENDING_SLOTS && nextPull in pending.held
      requires pending.slots[index].occupied && pending.slots[index].sequence == nextPull
               == pending.slots[index].item.sequence
      requires ShapeCode(Stream(), pending.slots[index].item) == Ok
      modifies this`pendingCount, this`nextPull, this`refused, guard, pending, pending.slots, writer, writer.buffers
      ensures Consistent() && (ok <==> guard.active)
      ensures !refused ==> Stream() == Released(Play(old(Stream()), old(pending.slots[index].item)), old(nextPull))
      ensures refused ==> Stream() == Idle
    {
      ghost var slot := pending.slots[..][index];
      ok := ProcessInOrder(pending.slots[index].item);
      if !ok { return; }
      assert pending.slots[..][index] == slot;
      ghost var s1 := Stream();
      FreeSlot(index);
      assert Stream() == s1.(pending := pending.held);
    }

    method DrainNext(index: nat) returns (ok: bool)
      requires Consistent() && guard.active && SoundWhileDraining(Stream())
      requires index < PENDING_SLOTS && nextPull in pending.held
      requires pending.slots[index].occupied && pending.slots[index].sequence == nextPull
      requires pending.slots[index].item == pending.held[nextPull]
      modifies this`pendingCount, this`nextPull, this`refused, guard, pending, pending.slots, writer, writer.buffers
      ensures Consistent() && (ok <==> guard.active)
      ensures !refused ==> Stream() == PlayPending(old(Stream()))
      ensures refused ==> Stream() == Idle
    {
      PlayPendingKeepsSound(Stream());
      ok := DrainOne(index);
    }

    method FreeSlot(index: nat)
      requires PendingOk() && index < PENDING_SLOTS && pending.slots[index].occupied
               && pending.slots[index].sequence in pending.held
      modifies this`pendingCount, pending, pending.slots
      ensures PendingOk() && pending.held == old(pending.held) - {old(pending.slots[index].sequence)}
    {
      ghost var held, k := pending.held, pending.slots[index].sequence;
      assert (held - {k}).Keys == held.Keys - {k} && |(held - {k}).Keys| == |held - {k}| && |held.Keys| == |held|;
      assert pending.slots[..][index] == pending.slots[index];
      pending.Release(index);
      pendingCount := (pendingCount + 255) % 256;
    }

    method DrainPending()
      requires Consistent() && guard.active && SoundWhileDraining(Stream())
      modifies this`pendingCount, this`nextPull, this`refused, guard, pending, pending.slots, writer, writer.buffers
      ensures Consistent()
      ensures !refused ==> Stream() == Drain(old(Stream()))
      ensures refused ==> Stream() == Idle
    {
      while pendingCount > 0
        invariant Consistent() && guard.active && SoundWhileDraining(Stream())
        invariant Drain(Stream()) == old(Drain(Stream()))
        decreases pending.held.Keys
      {
        var index := pending.Find(nextPull);
        if index < 0 { return; }
        DrainTurn(Stream());
        var ok := DrainNext(index);
        if !ok { return; }
      }
    }

    /** One chunk from the topic or from the pull service. */
    method Accept(c: Chunk)
      requires Consistent() && Sound(Stream())
      modifies this`pendingCount, this`nextPull, this`refused, guard, pending, pending.slots, writer, writer.buffers
      ensures Consistent() && Sound(Stream()) && (old(refused) ==> refused)
      ensures !refused ==> Stream() == Streaming.Accept(old(Stream()), c)
      ensures refused ==> Stream() == Idle
    {
      AcceptKeepsSound(Stream(), c);
      if guard.active && c.commandId == guard.commandId && c.sequence < guard.expected { return; }
      if !ShapeOk(c) {
        Finish();
        return;
      }
      if c.sequence > nextPull {
        var held := BufferPending(c);
        if !held { Finish(); }
        return;
      }
      var ok := ProcessInOrder(c);
      if !ok { return; }
      DrainPending();
    }

    function ShapeOk(c: Chunk): (ok: bool)
      reads this, guard, pending, writer
      ensures ok <==> ShapeCode(Stream(), c) == Ok
    {
      && guard.active && c.commandId == commandId
      && c.format == PcmS16Le && SampleRateSupported(c.sampleRate) && c.sampleRate == sampleRate
         && c.channels == CHANNELS
      && |c.pcm| != 0 && |c.pcm| % 2 == 0 && |c.pcm| <= MAX_CHUNK_BYTES
    }

    /** Chunk after chunk, whatever they hold: the session follows the value-level run until the speaker refuses. */
    method Deliver(chunks: seq<Chunk>)
      requires Consistent() && Sound(Stream())
      modifies this`pendingCount, this`nextPull, this`refused, guard, pending, pending.slots, writer, writer.buffers
      ensures Consistent() && Sound(Stream())
      ensures !refused ==> Stream() == Run(old(Stream()), chunks)
      ensures refused ==> Stream() == Idle
    {
      for i := 0 to |chunks|
        invariant Consistent() && Sound(Stream())
        invariant !refused ==> Stream() == Run(old(Stream()), chunks[..i])
        invariant refused ==> Stream() == Idle
      {
        assert chunks[..i + 1][..i] == chunks[..i];
        Accept(chunks[i]);
      }
      assert chunks[..|chunks|] == chunks;
    }

    /**
     A whole session of an idle player: its chunks come in any order. It is still active exactly when the order
     is deliverable and no frame was refused, and then the speaker has been given exactly the samples below
     the first gap, each once, in order.
     */
    method PlaySession(commandId: string, chunks: seq<Chunk>, ghost src: Source, ghost order: seq<nat>)
      requires Consistent() && !guard.active
      requires WellFormed(src) && commandId == src.commandId
      requires (forall i :: 0 <= i < |order| ==> order[i] < |src.payloads|) && chunks == ChunksOf(src, order)
      modifies this, guard, pending, pending.slots, writer, writer.buffers
      ensures Consistent() && (guard.active <==> !refused && Deliverable(src, order))
      ensures var gap := Reorder.Mex(Reorder.Delivered(order));
              guard.active ==>
                gap <= |src.payloads| && writer.Output() == SamplesOf(src.payloads[..gap])
                && ((forall k: nat :: k < |src.payloads| ==> k in Reorder.Delivered(order)) ==>
                      writer.Output() == SamplesOf(src.payloads))
    {
      var code := Start(commandId, SAMPLE_RATE);
      Deliver(chunks);
      ActiveExactlyWhen(src, order);
      if Deliverable(src, order) { DeliveryDeterminesStream(src, order); }
    }
  }
}
