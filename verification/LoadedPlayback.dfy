/** Playing a complete loaded buffer: each step feeds more of it to the speaker frames. */
module LoadedPlayback {
  import opened Wire
  import opened Ima
  import opened AdpcmStream
  import opened AdpcmDecoder
  import opened FrameWriter

  const FRAME_BYTES := 640

  /** The samples a complete buffer stands for. */
  function WholeBuffer(format: Format, buffer: seq<byte>, totalBytes: nat): seq<int16>
  {
    match format
    case PcmS16Le => PcmSamples(buffer)
    case ImaAdpcm4Bit => DecodePayload(buffer, true, true, totalBytes, totalBytes, Uninitialized).samples
    case OtherFormat => []
  }

  /** The buffer holds every sample that was declared. */
  predicate Playable(format: Format, buffer: seq<byte>, totalBytes: nat) {
    match format
    case PcmS16Le => true
    case ImaAdpcm4Bit => HeaderOk(buffer, totalBytes) && 4 * (|buffer| - ADPCM_HEADER_BYTES) + 2 >= totalBytes
    case OtherFormat => false
  }

  predicate HeaderOk(buffer: seq<byte>, totalBytes: nat) {
    |buffer| >= ADPCM_HEADER_BYTES && totalBytes >= 2 && buffer[2] <= 88 && buffer[3] == 0
  }

  class Player {
    const format: Format
    const buffer: seq<byte>
    const totalBytes: nat
    const adpcm: DecoderState
    const writer: Writer
    var playOffset: nat
    var decodedBytes: nat
    ghost var nibbles: nat
    var endOfStreamSeen: bool
    var goalActive: bool
    /** The speaker has refused a frame, which ended the goal. */
    ghost var refused: bool

    ghost predicate WriterReady()
      reads writer, writer.buffers
    {
      writer.Valid() && writer.fill < FRAME_SAMPLES && FullFrames(writer.queued)
    }

    ghost predicate PcmValid()
      reads this, writer
    {
      && |buffer| == totalBytes && playOffset <= totalBytes && playOffset % 2 == 0
      && writer.Output() == PcmSamples(buffer[..playOffset])
      && (endOfStreamSeen ==> playOffset == totalBytes)
    }

    ghost predicate AdpcmValid()
      reads this, adpcm, writer
    {
      && (if !adpcm.initialized then writer.Output() == [] && decodedBytes == 0 && playOffset == 0
          else HeaderOk(buffer, totalBytes) && AdpcmProgress())
      && (endOfStreamSeen <==> adpcm.initialized && decodedBytes >= totalBytes)
    }

    /** What has been played so far is always a prefix of the buffer's samples, in whole frames but the last. */
    ghost predicate Valid()
      reads this, adpcm, writer, writer.buffers
    {
      && WriterReady() && totalBytes > 0 && totalBytes % 2 == 0 && !refused
      && (format == PcmS16Le ==> PcmValid())
      && (format == ImaAdpcm4Bit ==> AdpcmValid())
    }

    /** `k` nibbles have been decoded and handed to the speaker frames. */
    ghost predicate Played(k: nat)
      reads this, adpcm, writer
      requires HeaderOk(buffer, totalBytes)
    {
      var st, ns := Header(buffer), Unpack(buffer[ADPCM_HEADER_BYTES..]);
      && k <= |ns| && decodedBytes == 2 + 2 * k <= totalBytes
      && writer.Output() == [st.predictor] + Decoded(st, ns[..k])
      && adpcm.Now() == StateAfter(st, ns[..k])
    }

    /** Decoding stands after whole bytes, or after the declared total. */
    ghost predicate AdpcmProgress()
      reads this, adpcm, writer
      requires HeaderOk(buffer, totalBytes)
    {
      && ADPCM_HEADER_BYTES <= playOffset <= |buffer|
      && Played(nibbles) && nibbles == Min(2 * (playOffset - ADPCM_HEADER_BYTES), totalBytes / 2 - 1)
    }

    constructor (format: Format, buffer: seq<byte>, totalBytes: nat, writer: Writer)
      requires totalBytes > 0 && totalBytes % 2 == 0 && (format == PcmS16Le ==> |buffer| == totalBytes)
      requires writer.Valid() && writer.queued == [] && writer.partial == []
      ensures Valid() && goalActive && !endOfStreamSeen && fresh(adpcm)
      ensures this.format == format && this.buffer == buffer && this.totalBytes == totalBytes && this.writer == writer
    {
      this.format, this.buffer, this.totalBytes, this.writer := format, buffer, totalBytes, writer;
      playOffset, decodedBytes, nibbles, endOfStreamSeen, goalActive, refused := 0, 0, 0, false, true, false;
      adpcm := new DecoderState();
    }

    /** One frame of PCM, or what is left of it. */
    method StepPcm()
      requires WriterReady() && PcmValid() && totalBytes % 2 == 0 && goalActive && !refused
      modifies this`playOffset, this`goalActive, this`refused, this`endOfStreamSeen, writer, writer.buffers
      ensures goalActive ==> WriterReady() && PcmValid()
      ensures goalActive ==> playOffset == Min(old(playOffset) + 640, totalBytes)
      ensures goalActive && playOffset == totalBytes ==> endOfStreamSeen
      ensures refused <==> !goalActive
    {
      var remaining := totalBytes - playOffset;
      if remaining == 0 {
        endOfStreamSeen := true;
        return;
      }
      var count := if remaining < FRAME_BYTES then remaining else FRAME_BYTES;
      PcmSplit(buffer, playOffset, playOffset + count);
      var ok := writer.AppendPcm(buffer[playOffset..playOffset + count]);
      if !ok {
        goalActive, refused := false, true;
        return;
      }
      playOffset := playOffset + count;
      if playOffset >= totalBytes {
        endOfStreamSeen := true;
      }
    }

    /** The header sample. */
    method StartAdpcm()
      requires WriterReady() && AdpcmValid() && totalBytes % 2 == 0 && goalActive && !refused && !adpcm.initialized
      modifies this`playOffset, this`decodedBytes, this`nibbles, this`goalActive, this`refused, adpcm, writer,
          writer.buffers
      ensures goalActive ==> WriterReady() && adpcm.initialized && HeaderOk(buffer, totalBytes) && AdpcmProgress()
      ensures goalActive <==> HeaderOk(buffer, totalBytes) && !refused
    {
      if |buffer| < ADPCM_HEADER_BYTES || totalBytes < 2 || buffer[2] > 88 || buffer[3] != 0 {
        goalActive := false;
        return;
      }
      adpcm.predictor := SampleAt(buffer[0], buffer[1]);
      adpcm.stepIndex := buffer[2];
      adpcm.initialized := true;
      playOffset := ADPCM_HEADER_BYTES;
      var ok := writer.AppendSample(adpcm.predictor);
      if !ok {
        goalActive, refused := false, true;
        return;
      }
      decodedBytes, nibbles := decodedBytes + 2, 0;
    }

    method PlayNibble(nibble: Nibble)
      requires goalActive && !refused && HeaderOk(buffer, totalBytes) && Played(nibbles)
      requires writer.Valid() && writer.fill < FRAME_SAMPLES && FullFrames(writer.queued)
      requires decodedBytes + 2 <= totalBytes && 2 * (|buffer| - ADPCM_HEADER_BYTES) > nibbles
      requires nibble == Unpack(buffer[ADPCM_HEADER_BYTES..])[nibbles]
      modifies this`decodedBytes, this`nibbles, this`goalActive, this`refused, adpcm`predictor, adpcm`stepIndex,
          writer, writer.buffers
      ensures writer.Valid() && FullFrames(writer.queued) && (refused <==> !goalActive)
      ensures goalActive ==> writer.fill < FRAME_SAMPLES && nibbles == old(nibbles) + 1 && Played(nibbles)
    {
      DecodedNext(Header(buffer), Unpack(buffer[ADPCM_HEADER_BYTES..]), nibbles);
      var sample := adpcm.DecodeNibble(nibble);
      var ok := writer.AppendSample(sample);
      if !ok {
        goalActive, refused := false, true;
        return;
      }
      decodedBytes, nibbles := decodedBytes + 2, nibbles + 1;
      // The frame is never full here, so the firmware's mid-byte break after it drops no high nibble.
    }

    method PlayByte()
      requires WriterReady() && goalActive && !refused && totalBytes % 2 == 0
      requires HeaderOk(buffer, totalBytes) && AdpcmProgress() && decodedBytes < totalBytes && playOffset < |buffer|
      modifies this`decodedBytes, this`nibbles, this`goalActive, this`refused, this`playOffset, adpcm`predictor,
          adpcm`stepIndex, writer, writer.buffers
      ensures goalActive ==> WriterReady() && AdpcmProgress()
      ensures goalActive ==> playOffset == old(playOffset) + 1 && decodedBytes > old(decodedBytes)
      ensures refused <==> !goalActive
    {
      var value := buffer[playOffset];
      NibblesOfByte(buffer, playOffset);
      assert nibbles == 2 * (playOffset - ADPCM_HEADER_BYTES);
      playOffset := playOffset + 1;
      PlayNibble(value % 16);
      if !goalActive || decodedBytes >= totalBytes { return; }
      PlayNibble(value / 16);
    }

    /** Once started, a step decodes everything there is: the frames empty as they fill. */
    method StepAdpcm()
      requires WriterReady() && AdpcmValid() && totalBytes > 0 && totalBytes % 2 == 0 && goalActive && !refused
      modifies this, adpcm, writer, writer.buffers
      ensures goalActive ==> WriterReady() && AdpcmValid() && adpcm.initialized && !refused
      ensures goalActive ==> decodedBytes >= totalBytes || playOffset >= |buffer|
      ensures goalActive ==> endOfStreamSeen || playOffset > old(playOffset)
      ensures !goalActive ==> refused || !Playable(ImaAdpcm4Bit, buffer, totalBytes)
    {
      var before := decodedBytes;
      if !adpcm.initialized {
        StartAdpcm();
        if !goalActive { return; }
      }
      assert HeaderOk(buffer, totalBytes) && AdpcmProgress();
      while decodedBytes < totalBytes && playOffset < |buffer| && writer.fill < FRAME_SAMPLES
        invariant goalActive && !refused && adpcm.initialized && WriterReady() && HeaderOk(buffer, totalBytes)
                  && AdpcmProgress()
        invariant decodedBytes >= before && (decodedBytes > before <==> playOffset > old(playOffset))
        invariant endOfStreamSeen == old(endOfStreamSeen)
        decreases |buffer| - playOffset
      {
        PlayByte();
        if !goalActive { return; }
      }
      if decodedBytes == before && decodedBytes < totalBytes && playOffset >= |buffer| {
        goalActive := false;
        return;
      }
      if decodedBytes > before && decodedBytes >= totalBytes {
        endOfStreamSeen := true;
      }
    }

    /** One playback step; a refused speaker frame or a broken buffer ends the goal. */
    method Step()
      requires Valid() && goalActive
      modifies this, adpcm, writer, writer.buffers
      ensures goalActive ==> Valid()
      ensures goalActive && format == PcmS16Le ==> playOffset == Min(old(playOffset) + 640, totalBytes)
      ensures goalActive && endOfStreamSeen ==>
                writer.Output() == WholeBuffer(format, buffer, totalBytes) && Playable(format, buffer, totalBytes)
      ensures goalActive && !endOfStreamSeen ==> old(playOffset) < playOffset <= |buffer|
      ensures !goalActive ==> refused || !Playable(format, buffer, totalBytes)
    {
      if format == PcmS16Le {
        StepPcm();
        if goalActive && endOfStreamSeen { PlayedWholePcm(); }
      } else if format == ImaAdpcm4Bit {
        StepAdpcm();
        if goalActive && endOfStreamSeen { PlayedWholeAdpcm(); }
      } else {
        goalActive := false;
      }
    }

    /**
     Step after step, as the main loop takes them: the goal reaches the end of the stream, with every sample of
     the buffer heard, exactly when the buffer holds every declared sample and the speaker refuses no frame.
     */
    method PlayToEnd()
      requires Valid() && goalActive && !endOfStreamSeen
      modifies this, adpcm, writer, writer.buffers
      ensures goalActive <==> !refused && Playable(format, buffer, totalBytes)
      ensures goalActive ==> endOfStreamSeen && writer.Output() == WholeBuffer(format, buffer, totalBytes)
    {
      while goalActive && !endOfStreamSeen
        invariant goalActive ==> Valid()
        invariant goalActive && endOfStreamSeen ==>
                    writer.Output() == WholeBuffer(format, buffer, totalBytes) && Playable(format, buffer, totalBytes)
        invariant !goalActive ==> refused || !Playable(format, buffer, totalBytes)
        decreases goalActive, !endOfStreamSeen, |buffer| - playOffset
      {
        Step();
      }
    }

    lemma PlayedWholePcm()
      requires format == PcmS16Le && PcmValid() && playOffset == totalBytes
      ensures totalBytes % 2 == 0 && writer.Output() == WholeBuffer(format, buffer, totalBytes)
    {
      assert buffer[..playOffset] == buffer;
    }

    lemma PlayedWholeAdpcm()
      requires format == ImaAdpcm4Bit && HeaderOk(buffer, totalBytes) && AdpcmProgress() && totalBytes % 2 == 0
      requires decodedBytes >= totalBytes || playOffset >= |buffer|
      ensures writer.Output() == WholeBuffer(format, buffer, totalBytes)
      ensures decodedBytes >= totalBytes ==> Playable(format, buffer, totalBytes)
    {
      assert nibbles == Min(2 * (|buffer| - ADPCM_HEADER_BYTES), totalBytes / 2 - 1);
    }
  }

  lemma NibblesOfByte(buffer: seq<byte>, i: nat)
    requires ADPCM_HEADER_BYTES <= i < |buffer|
    ensures var ns, k := Unpack(buffer[ADPCM_HEADER_BYTES..]), 2 * (i - ADPCM_HEADER_BYTES);
            k + 1 < |ns| && ns[k] == buffer[i] % 16 && ns[k + 1] == buffer[i] / 16
  {
    assert buffer[i] == buffer[ADPCM_HEADER_BYTES..][i - ADPCM_HEADER_BYTES];
  }

  lemma DecodedNext(st: State, ns: seq<Nibble>, k: nat)
    requires k < |ns|
    ensures StateAfter(st, ns[..k + 1]) == Decode(StateAfter(st, ns[..k]), ns[k])
    ensures Decoded(st, ns[..k + 1]) == Decoded(st, ns[..k]) + [StateAfter(st, ns[..k + 1]).predictor]
  {
    assert ns[..k + 1][..k] == ns[..k];
  }

  lemma PcmSplit(pcm: seq<byte>, i: nat, j: nat)
    requires i <= j <= |pcm| && i % 2 == 0 && j % 2 == 0
    ensures PcmSamples(pcm[..j]) == PcmSamples(pcm[..i]) + PcmSamples(pcm[i..j])
  {
  }
}
