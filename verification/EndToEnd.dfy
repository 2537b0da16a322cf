/** Encoder, transport and playback together. */
module EndToEnd {
  import opened Wire
  import opened Ima
  import opened AdpcmStream
  import AdpcmRoundTrip
  import LoadedAudio
  import opened LoadedDelivery
  import LoadedPlayback
  import Reorder
  import AdpcmDecoder
  import opened FrameWriter

  lemma EncodedBufferPlaysReconstruction(samples: seq<int16>)
    requires samples != []
    ensures LoadedPlayback.WholeBuffer(ImaAdpcm4Bit, EncodedPayload(samples), 2 * |samples|) == Reconstruction(samples)
  {
    var pcm := PcmBytes(samples);
    PcmSamplesOfBytes(samples);
    AdpcmRoundTrip.RoundTrip(pcm, |pcm|, AdpcmDecoder.Uninitialized);
  }

  /** A transfer of the encoded samples. */
  ghost predicate Carries(src: Source, samples: seq<int16>)
    requires samples != []
  {
    && WellFormed(src) && src.format == ImaAdpcm4Bit
    && Concat(src.payloads) == EncodedPayload(samples) && src.totalBytes == 2 * |samples|
  }

  /**
   Speech encoded by the bridge, cut into chunks, delivered in any windowed order with any duplicates
   and fully received, plays back as the encoder's reconstruction of the original samples.
   */
  lemma EncodedTransferPlaysReconstruction(
    samples: seq<int16>, s: LoadedAudio.Session, src: Source, order: seq<nat>, times: seq<u32>)
    requires samples != [] && Carries(src, samples)
    requires |times| == |order| && Deliverable(src, order)
    requires LoadedAudio.Sound(s) && Ready(s, src, times[0])
    requires forall k: nat :: k < |src.payloads| ==> k in Reorder.Delivered(order)
    ensures var received := RunTopic(s, src, order, times).0;
            && received.complete
            && LoadedPlayback.WholeBuffer(received.format, received.stored, received.totalBytes)
               == Reconstruction(samples)
  {
    FullDelivery(s, src, order, times);
    EncodedBufferPlaysReconstruction(samples);
  }

  /**
   The buffer of encoded speech, played step by step: the speaker hears exactly the reconstruction, and
   the end of the stream is reached, unless it refuses a frame on the way.
   */
  method PlayEncoded(ghost samples: seq<int16>, buffer: seq<byte>, totalBytes: nat, writer: Writer)
    returns (player: LoadedPlayback.Player)
    requires samples != [] && buffer == EncodedPayload(samples) && totalBytes == 2 * |samples|
    requires writer.Valid() && writer.queued == [] && writer.partial == []
    modifies writer, writer.buffers
    ensures fresh(player) && player.writer == writer && (player.refused <==> !player.goalActive)
    ensures !player.refused ==> player.endOfStreamSeen && writer.Output() == Reconstruction(samples)
  {
    EncodedBufferPlaysReconstruction(samples);
    EncodedIsPlayable(samples);
    player := new LoadedPlayback.Player(ImaAdpcm4Bit, buffer, totalBytes, writer);
    player.PlayToEnd();
  }

  lemma EncodedIsPlayable(samples: seq<int16>)
    requires samples != []
    ensures LoadedPlayback.Playable(ImaAdpcm4Bit, EncodedPayload(samples), 2 * |samples|)
  {
    AdpcmRoundTrip.PayloadParts(samples);
  }

  /** A PCM buffer is played byte for byte. */
  method PlayPcm(buffer: seq<byte>, writer: Writer) returns (player: LoadedPlayback.Player)
    requires buffer != [] && |buffer| % 2 == 0
    requires writer.Valid() && writer.queued == [] && writer.partial == []
    modifies writer, writer.buffers
    ensures fresh(player) && player.writer == writer && (player.refused <==> !player.goalActive)
    ensures !player.refused ==> player.endOfStreamSeen && PcmBytes(writer.Output()) == buffer
  {
    PcmRoundTrip(buffer);
    player := new LoadedPlayback.Player(PcmS16Le, buffer, |buffer|, writer);
    player.PlayToEnd();
  }

  /** Encoder, transport and playback: what the speaker hears of a fully delivered transfer. */
  method PlayTransfer(ghost samples: seq<int16>, ghost s: LoadedAudio.Session, ghost src: Source, ghost order: seq<nat>,
                      ghost times: seq<u32>, received: LoadedAudio.Session, writer: Writer)
    returns (player: LoadedPlayback.Player)
    requires samples != [] && Carries(src, samples)
    requires |times| == |order| && Deliverable(src, order)
    requires LoadedAudio.Sound(s) && Ready(s, src, times[0])
    requires forall k: nat :: k < |src.payloads| ==> k in Reorder.Delivered(order)
    requires received == RunTopic(s, src, order, times).0
    requires writer.Valid() && writer.queued == [] && writer.partial == []
    modifies writer, writer.buffers
    ensures player.writer == writer && (player.refused <==> !player.goalActive)
    ensures !player.refused ==> player.endOfStreamSeen && writer.Output() == Reconstruction(samples)
  {
    FullDelivery(s, src, order, times);
    player := PlayEncoded(samples, received.stored, received.totalBytes, writer);
  }
}
