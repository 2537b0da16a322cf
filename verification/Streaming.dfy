/**
 A streaming playback session as a value, and what it promises: in any windowed order the speaker
 hears the chunks' samples, each once, in order. `StreamingPlayer` refines it.
 */
module Streaming {
  import opened Wire
  import opened Ima
  import opened AdpcmStream
  import Reorder

  const PENDING_SLOTS := 8
  const PENDING_CHUNK_BYTES := 640
  /** The largest distance of a pending chunk from the one that is awaited. */
  const WINDOW: nat := PENDING_SLOTS - 1

  /** `heard` is everything handed to the speaker frames so far; a finished or aborted session is `Idle`. */
  datatype Stream =
    | Idle
    | Active(commandId: string, sampleRate: u32, next: nat, pending: map<nat, Chunk>, heard: seq<int16>)

  /** What the chunk guard answers for a chunk of a session that awaits `expected`. */
  function GuardCode(active: bool, commandId: string, expected: nat, c: Chunk): Code {
    if !active || c.commandId != commandId then UnknownCommand
    else if c.format != PcmS16Le || c.sampleRate != SAMPLE_RATE || c.channels != CHANNELS then UnsupportedFeature
    else if |c.pcm| == 0 || |c.pcm| > MAX_CHUNK_BYTES then MalformedAudioChunk
    else if c.sequence != expected then AudioUnderrun
    else Ok
  }

  function ShapeCode(s: Stream, c: Chunk): Code {
    if s.Idle? || c.commandId != s.commandId then UnknownCommand
    else if c.format != PcmS16Le || !SampleRateSupported(c.sampleRate) || c.sampleRate != s.sampleRate
            || c.channels != CHANNELS then UnsupportedFeature
    else if |c.pcm| == 0 || |c.pcm| % 2 != 0 || |c.pcm| > MAX_CHUNK_BYTES then MalformedAudioChunk
    else Ok
  }

  /** Play the awaited chunk; the guard refuses anything but 16 kHz, which ends the session. */
  function Play(s: Stream, c: Chunk): Stream
    requires s.Active?
  {
    if GuardCode(true, s.commandId, s.next, c) != Ok then Idle
    else s.(next := s.next + 1, heard := s.heard + PcmSamples(c.pcm))
  }

  function Drain(s: Stream): Stream
    requires s.Active?
    decreases s.pending.Keys
  {
    if s.next !in s.pending then s
    else
      var s1 := PlayPending(s);
      if s1.Idle? then Idle else Drain(s1)
  }

  function HoldPending(s: Stream, c: Chunk): Stream
    requires s.Active?
  {
    if c.sequence in s.pending then s
    else if |c.pcm| > PENDING_CHUNK_BYTES || c.sequence >= s.next + PENDING_SLOTS
            || |s.pending| >= PENDING_SLOTS then Idle
    else s.(pending := s.pending[c.sequence := c])
  }

  /** One chunk, while the speaker takes every frame. */
  function Accept(s: Stream, c: Chunk): Stream
  {
    if s.Active? && c.commandId == s.commandId && c.sequence < s.next then s
    else if ShapeCode(s, c) != Ok then Idle
    else if c.sequence > s.next then HoldPending(s, c)
    else
      var s1 := Play(s, c);
      if s1.Idle? then Idle else Drain(s1)
  }

  // ---- Invariants of every run ----

  ghost predicate PendingOk(s: Stream, k: nat)
    requires s.Active? && k in s.pending
  {
    s.pending[k].sequence == k && ShapeCode(s, s.pending[k]) == Ok && |s.pending[k].pcm| <= PENDING_CHUNK_BYTES
  }

  /** Pending chunks are well shaped, small and lie strictly inside the window. */
  ghost predicate Sound(s: Stream) {
    s.Active? ==> forall k :: k in s.pending ==>
      s.next < k < s.next + PENDING_SLOTS && PendingOk(s, k)
  }

  /** Between releasing a chunk and draining, the next pending chunk may be the awaited one. */
  ghost predicate SoundWhileDraining(s: Stream) {
    s.Active? ==> forall k :: k in s.pending ==>
      s.next <= k < s.next + PENDING_SLOTS && PendingOk(s, k)
  }

  /** The pending chunk that has become the awaited one. */
  function PlayPending(s: Stream): Stream
    requires s.Active? && s.next in s.pending
  {
    Play(s.(pending := s.pending - {s.next}), s.pending[s.next])
  }

  /** The stream with one pending chunk released. */
  function Released(s: Stream, k: nat): Stream { if s.Idle? then Idle else s.(pending := s.pending - {k}) }

  lemma PlayPendingKeepsSound(s: Stream)
    requires s.Active? && s.next in s.pending && SoundWhileDraining(s)
    ensures SoundWhileDraining(PlayPending(s))
    ensures PlayPending(s) == Released(Play(s, s.pending[s.next]), s.next)
    ensures ShapeCode(s, s.pending[s.next]) == Ok && s.pending[s.next].sequence == s.next
    ensures |s.pending - {s.next}| == |s.pending| - 1
  {
    assert (s.pending - {s.next}).Keys == s.pending.Keys - {s.next};
    assert |s.pending.Keys| == |s.pending| && |(s.pending - {s.next}).Keys| == |s.pending - {s.next}|;
  }

  /** One turn of draining. */
  lemma DrainTurn(s: Stream)
    requires s.Active? && s.next in s.pending && SoundWhileDraining(s)
    ensures SoundWhileDraining(PlayPending(s))
    ensures Drain(s) == if PlayPending(s).Idle? then Idle else Drain(PlayPending(s))
    ensures PlayPending(s).Active? ==> PlayPending(s).pending.Keys < s.pending.Keys
  {
    PlayPendingKeepsSound(s);
    assert (s.pending - {s.next}).Keys == s.pending.Keys - {s.next};
  }

  lemma {:induction false} DrainKeepsSound(s: Stream)
    requires s.Active? && SoundWhileDraining(s)
    ensures Sound(Drain(s))
    decreases s.pending.Keys
  {
    if s.next in s.pending {
      PlayPendingKeepsSound(s);
      if PlayPending(s).Active? { DrainKeepsSound(PlayPending(s)); }
    }
  }

  lemma AcceptKeepsSound(s: Stream, c: Chunk)
    requires Sound(s)
    ensures Sound(Accept(s, c))
  {
    if s.Active? && ShapeCode(s, c) == Ok && c.sequence == s.next {
      var s1 := Play(s, c);
      if s1.Active? { DrainKeepsSound(s1); }
    }
  }

  /** A pending chunk inside the window always finds a slot: the jitter buffer is never full. */
  lemma JitterBufferNeverFull(s: Stream, c: Chunk)
    requires Sound(s) && s.Active? && c.sequence !in s.pending && s.next < c.sequence < s.next + PENDING_SLOTS
    ensures |s.pending| < PENDING_SLOTS
  {
    Reorder.WindowLeavesRoom(s.pending.Keys, s.next, WINDOW, c.sequence);
  }

  /** The guard and the shape check disagree on 8 kHz: a well-shaped awaited chunk plays exactly at 16 kHz. */
  lemma PlaysExactlyAt16kHz(s: Stream, c: Chunk)
    requires Sound(s) && ShapeCode(s, c) == Ok && c.sequence == s.next
    ensures Accept(s, c).Active? <==> s.sampleRate == 16000
  {
    if s.sampleRate == SAMPLE_RATE { DrainStaysActive(Play(s, c)); }
  }

  lemma {:induction false} DrainStaysActive(s: Stream)
    requires s.Active? && SoundWhileDraining(s) && s.sampleRate == SAMPLE_RATE
    ensures Drain(s).Active?
    decreases s.pending.Keys
  {
    if s.next in s.pending {
      PlayPendingKeepsSound(s);
      DrainStaysActive(PlayPending(s));
    }
  }

  // ---- What is refused, and why ----

  /** The guard plays one session, and of it only the awaited 16 kHz mono chunk of 1 to 1280 bytes. */
  lemma GuardAnswers(active: bool, commandId: string, expected: nat, c: Chunk)
    ensures var code := GuardCode(active, commandId, expected, c);
            var mine := active && c.commandId == commandId;
            var playable := c.format == PcmS16Le && c.sampleRate == 16000 && c.channels == 1;
            var sized := 0 < |c.pcm| <= 1280;
            && (code == Ok <==> mine && playable && sized && c.sequence == expected)
            && (!mine ==> code == UnknownCommand)
            && (mine && !playable ==> code == UnsupportedFeature)
            && (mine && playable && !sized ==> code == MalformedAudioChunk)
            && (mine && playable && sized && c.sequence != expected ==> code == AudioUnderrun)
  {
  }

  /** PCM at the session's rate, 8 or 16 kHz, mono. */
  predicate Playable(sampleRate: int, c: Chunk) {
    && c.format == PcmS16Le && c.sampleRate == sampleRate && (c.sampleRate == 16000 || c.sampleRate == 8000)
    && c.channels == 1
  }

  /** 1 to 1280 bytes, whole samples. */
  predicate Sized(c: Chunk) { 0 < |c.pcm| <= 1280 && |c.pcm| % 2 == 0 }

  lemma ShapeAnswers(s: Stream, c: Chunk)
    ensures var code := ShapeCode(s, c);
            var mine := s.Active? && c.commandId == s.commandId;
            && (!mine ==> code == UnknownCommand)
            && (mine && !Playable(s.sampleRate, c) ==> code == UnsupportedFeature)
            && (mine && Playable(s.sampleRate, c) && !Sized(c) ==> code == MalformedAudioChunk)
            && (mine && Playable(s.sampleRate, c) && Sized(c) ==> code == Ok)
  {
  }

  /**
   What becomes of a chunk in any session: one played before is ignored, one of the wrong shape or of another
   command ends the session, one ahead of its turn is held if it is small and near enough, and else ends it.
   */
  lemma AcceptAnswers(s: Stream, c: Chunk)
    requires Sound(s) && s.Active?
    ensures var s1 := Accept(s, c);
            var again := c.commandId == s.commandId && c.sequence < s.next;
            var right := c.commandId == s.commandId && Playable(s.sampleRate, c) && Sized(c);
            && (again ==> s1 == s)
            && (!again && !right ==> s1 == Idle)
            && (!again && right && c.sequence > s.next ==>
                  s1 == if c.sequence in s.pending then s
                        else if |c.pcm| <= 640 && c.sequence < s.next + 8 then s.(pending := s.pending[c.sequence := c])
                        else Idle)
            && (!again && right && c.sequence == s.next ==> (s1 == Idle <==> c.sampleRate == 8000))
  {
    ShapeAnswers(s, c);
    if ShapeCode(s, c) == Ok && c.sequence == s.next { PlaysExactlyAt16kHz(s, c); }
    if c.sequence > s.next && c.sequence < s.next + 8 && c.sequence !in s.pending { JitterBufferNeverFull(s, c); }
  }

  function Run(s: Stream, chunks: seq<Chunk>): Stream {
    if chunks == [] then s else Accept(Run(s, chunks[..|chunks| - 1]), chunks[|chunks| - 1])
  }

  lemma {:induction false} EveryRunIsSound(s: Stream, chunks: seq<Chunk>)
    requires Sound(s)
    ensures Sound(Run(s, chunks))
  {
    if chunks != [] {
      EveryRunIsSound(s, chunks[..|chunks| - 1]);
      AcceptKeepsSound(Run(s, chunks[..|chunks| - 1]), chunks[|chunks| - 1]);
    }
  }

  // ---- A well-formed 16 kHz stream ----

  function Opened(src: Source): Stream { Active(src.commandId, SAMPLE_RATE, 0, map[], []) }

  datatype Source = Source(commandId: string, payloads: seq<seq<byte>>)

  ghost predicate WellFormed(src: Source) {
    && |src.payloads| < 0x1_0000_0000
    && forall k :: 0 <= k < |src.payloads| ==> 0 < |src.payloads[k]| <= 1280 && |src.payloads[k]| % 2 == 0
  }

  ghost function ChunkOf(src: Source, k: nat): Chunk
    requires WellFormed(src) && k < |src.payloads|
  {
    Chunk(true, src.commandId, k, 0, 0, PcmS16Le, 16000, 1, false, src.payloads[k])
  }

  /** The samples of the first chunks, by plain concatenation. */
  function SamplesOf(payloads: seq<seq<byte>>): seq<int16>
  {
    if payloads == [] then [] else SamplesOf(payloads[..|payloads| - 1]) + PcmSamples(payloads[|payloads| - 1])
  }

  ghost predicate Agrees(s: Stream, src: Source, r: Reorder.State<seq<byte>>)
    requires WellFormed(src)
  {
    && s.Active? && s.commandId == src.commandId && s.sampleRate == SAMPLE_RATE
    && s.next == r.next <= |src.payloads| && r.out == src.payloads[..r.next]
    && s.heard == SamplesOf(src.payloads[..r.next])
    && s.pending.Keys == r.held.Keys
    && (forall k :: k in s.pending ==>
          k < |src.payloads| && s.pending[k] == ChunkOf(src, k) && r.held[k] == src.payloads[k])
  }

  lemma PlayAgrees(s: Stream, src: Source, r: Reorder.State<seq<byte>>)
    requires WellFormed(src) && Agrees(s, src, r) && s.next < |src.payloads|
    ensures Agrees(Play(s, ChunkOf(src, s.next)), src,
                   Reorder.State(r.next + 1, r.held, r.out + [src.payloads[r.next]]))
  {
    var k := s.next;
    assert src.payloads[..k + 1] == src.payloads[..k] + [src.payloads[k]];
    assert src.payloads[..k + 1][..k] == src.payloads[..k];
  }

  lemma {:induction false} DrainAgrees(s: Stream, src: Source, r: Reorder.State<seq<byte>>)
    requires WellFormed(src) && Agrees(s, src, r)
    ensures Agrees(Drain(s), src, Reorder.Drain(r))
    decreases s.pending.Keys
  {
    if s.next in s.pending {
      var k := s.next;
      var s0, r0 := s.(pending := s.pending - {k}), r.(held := r.held - {k});
      assert Agrees(s0, src, r0);
      PlayAgrees(s0, src, r0);
      DrainAgrees(Play(s0, s.pending[k]), src, Reorder.State(k + 1, r0.held, r.out + [r.held[k]]));
    }
  }

  /** One windowed delivery does exactly what the abstract receiver does. */
  lemma AcceptAgrees(s: Stream, src: Source, r: Reorder.State<seq<byte>>, k: nat)
    requires WellFormed(src) && Sound(s) && Agrees(s, src, r)
    requires k < |src.payloads| && k <= r.next + WINDOW
    requires k > r.next ==> |src.payloads[k]| <= PENDING_CHUNK_BYTES
    ensures Agrees(Accept(s, ChunkOf(src, k)), src, Reorder.Deliver(r, WINDOW, k, src.payloads[k]))
  {
    var c := ChunkOf(src, k);
    if k == s.next {
      PlayAgrees(s, src, r);
      DrainAgrees(Play(s, c), src, Reorder.State(r.next + 1, r.held, r.out + [src.payloads[k]]));
      assert k !in r.held;
    } else if k > s.next {
      HoldAgrees(s, src, r, k);
    }
  }

  lemma HoldAgrees(s: Stream, src: Source, r: Reorder.State<seq<byte>>, k: nat)
    requires WellFormed(src) && Sound(s) && Agrees(s, src, r)
    requires k < |src.payloads| && r.next < k <= r.next + WINDOW && |src.payloads[k]| <= PENDING_CHUNK_BYTES
    ensures Agrees(HoldPending(s, ChunkOf(src, k)), src,
                   if k in r.held then r else r.(held := r.held[k := src.payloads[k]]))
  {
    if k !in s.pending { JitterBufferNeverFull(s, ChunkOf(src, k)); }
  }

  /** The orders a session survives: stay in the window, send only chunks of at most 640 bytes ahead of their turn. */
  ghost predicate Deliverable(src: Source, order: seq<nat>) {
    && (forall i :: 0 <= i < |order| ==> order[i] < |src.payloads|)
    && Reorder.WithinWindow(order, 7)
    && (forall i :: 0 <= i < |order| && order[i] > Reorder.Mex(Reorder.Delivered(order[..i])) ==>
          |src.payloads[order[i]]| <= 640)
  }

  ghost function ChunksOf(src: Source, order: seq<nat>): seq<Chunk>
    requires WellFormed(src) && forall i :: 0 <= i < |order| ==> order[i] < |src.payloads|
  {
    seq(|order|, i requires 0 <= i < |order| => ChunkOf(src, order[i]))
  }

  lemma {:induction false} RunAgrees(src: Source, order: seq<nat>)
    requires WellFormed(src) && Deliverable(src, order)
    ensures Agrees(Run(Opened(src), ChunksOf(src, order)), src,
                   Reorder.Run(Reorder.Start(), WINDOW, src.payloads, order))
  {
    if order != [] {
      var n := |order| - 1;
      var front := order[..n];
      assert forall i :: 0 <= i < n ==> front[..i] == order[..i];
      RunAgrees(src, front);
      assert ChunksOf(src, order)[..n] == ChunksOf(src, front);
      EveryRunIsSound(Opened(src), ChunksOf(src, front));
      assert Reorder.Run(Reorder.Start(), WINDOW, src.payloads, front).next
             == Reorder.Mex(Reorder.Delivered(front)) by {
        Reorder.RunTracks(WINDOW, src.payloads, front);
      }
      AcceptAgrees(Run(Opened(src), ChunksOf(src, front)), src,
                   Reorder.Run(Reorder.Start(), WINDOW, src.payloads, front), order[n]);
    }
  }

  // ---- Which orders are accepted ----

  lemma DeliverableSnoc(src: Source, order: seq<nat>)
    requires order != [] && Deliverable(src, order[..|order| - 1])
    requires var k, gap := order[|order| - 1], Reorder.Mex(Reorder.Delivered(order[..|order| - 1]));
             k < |src.payloads| && k <= gap + WINDOW && (k > gap ==> |src.payloads[k]| <= PENDING_CHUNK_BYTES)
    ensures Deliverable(src, order)
  {
    var front := order[..|order| - 1];
    forall i | 0 <= i < |order|
      ensures order[i] <= Reorder.Mex(Reorder.Delivered(order[..i])) + WINDOW
      ensures order[i] > Reorder.Mex(Reorder.Delivered(order[..i])) ==> |src.payloads[order[i]]| <= PENDING_CHUNK_BYTES
    {
      if i < |front| { assert front[i] == order[i] && front[..i] == order[..i]; }
    }
  }

  /** A chunk accepted ahead of its turn is inside the window and small; any other ends the session. */
  lemma AcceptedAhead(s: Stream, src: Source, r: Reorder.State<seq<byte>>, k: nat)
    requires WellFormed(src) && Sound(s) && Agrees(s, src, r) && s.next < k < |src.payloads|
    ensures Accept(s, ChunkOf(src, k)).Active? <==> k <= s.next + WINDOW && |src.payloads[k]| <= PENDING_CHUNK_BYTES
  {
    if k in s.pending {
      assert PendingOk(s, k);
    } else if k <= s.next + WINDOW {
      JitterBufferNeverFull(s, ChunkOf(src, k));
    }
  }

  lemma {:induction false} ActiveIsDeliverable(src: Source, order: seq<nat>)
    requires WellFormed(src) && forall i :: 0 <= i < |order| ==> order[i] < |src.payloads|
    requires Run(Opened(src), ChunksOf(src, order)).Active?
    ensures Deliverable(src, order)
  {
    if order != [] {
      var n := |order| - 1;
      var front, k := order[..n], order[n];
      var s := Run(Opened(src), ChunksOf(src, front));
      assert ChunksOf(src, order)[..n] == ChunksOf(src, front);
      ActiveIsDeliverable(src, front);
      RunAgrees(src, front);
      EveryRunIsSound(Opened(src), ChunksOf(src, front));
      Reorder.RunTracks(WINDOW, src.payloads, front);
      if k > s.next { AcceptedAhead(s, src, Reorder.Run(Reorder.Start(), WINDOW, src.payloads, front), k); }
      DeliverableSnoc(src, order);
    }
  }

  /** A session survives a delivery exactly when the order is deliverable. */
  lemma ActiveExactlyWhen(src: Source, order: seq<nat>)
    requires WellFormed(src) && forall i :: 0 <= i < |order| ==> order[i] < |src.payloads|
    ensures Run(Opened(src), ChunksOf(src, order)).Active? <==> Deliverable(src, order)
  {
    if Deliverable(src, order) { RunAgrees(src, order); }
    if Run(Opened(src), ChunksOf(src, order)).Active? { ActiveIsDeliverable(src, order); }
  }

  /** An early chunk of more than 640 bytes ends the session although it is inside the window. */
  lemma EarlyLargeChunkEndsSession(src: Source)
    requires WellFormed(src) && |src.payloads| > 1 && |src.payloads[1]| > PENDING_CHUNK_BYTES
    ensures Run(Opened(src), ChunksOf(src, [1])) == Idle
  {
    assert ChunksOf(src, [1])[..0] == [];
    assert Run(Opened(src), ChunksOf(src, [1])) == Accept(Opened(src), ChunkOf(src, 1));
  }

  /**
   Conservation: after any windowed delivery the session is still active and the speaker has been given
   exactly the samples below the first gap, each once, in order; the rest is pending.
   */
  lemma DeliveryDeterminesStream(src: Source, order: seq<nat>)
    requires WellFormed(src) && Deliverable(src, order)
    ensures var s := Run(Opened(src), ChunksOf(src, order));
            var gap := Reorder.Mex(Reorder.Delivered(order));
            && s.Active? && s.next == gap <= |src.payloads|
            && s.heard == SamplesOf(src.payloads[..gap])
            && s.pending.Keys == Reorder.Above(Reorder.Delivered(order), gap)
            && ((forall k: nat :: k < |src.payloads| ==> k in Reorder.Delivered(order)) ==>
                s.heard == SamplesOf(src.payloads))
  {
    RunAgrees(src, order);
    Reorder.RunTracks(WINDOW, src.payloads, order);
    if forall k: nat :: k < |src.payloads| ==> k in Reorder.Delivered(order) {
      assert src.payloads[..|src.payloads|] == src.payloads;
    }
  }
}
