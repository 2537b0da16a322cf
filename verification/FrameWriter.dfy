/** The speaker frame writer: samples go into one of four rotating buffers and leave in frames of 320. */
module FrameWriter {
  import opened Wire
  import opened Ima
  import opened AdpcmStream

  const FRAME_SAMPLES := 320
  const BUFFER_COUNT := 4
  const BUFFER_SAMPLES := 640

  ghost predicate FullFrames(frames: seq<seq<int16>>) {
    forall i :: 0 <= i < |frames| ==> |frames[i]| == 320
  }

  /**
   What the speaker has been given: full frames `queued`, then `partial` still in the buffer.
   Every sample accepted so far is in exactly one of them, in order.
   */
  class Writer {
    const buffers: array2<int16>
    var index: nat
    var fill: nat
    ghost var queued: seq<seq<int16>>
    ghost var partial: seq<int16>

    ghost predicate Valid()
      reads this, buffers
    {
      && buffers.Length0 == BUFFER_COUNT && buffers.Length1 == BUFFER_SAMPLES
      && index < BUFFER_COUNT && fill == |partial| <= FRAME_SAMPLES
      && (forall i :: 0 <= i < fill ==> buffers[index, i] == partial[i])
    }

    ghost function Output(): seq<int16>
      reads this
    {
      Concat(queued) + partial
    }

    constructor ()
      ensures Valid() && fresh(buffers) && queued == [] && partial == []
    {
      buffers := new int16[BUFFER_COUNT, BUFFER_SAMPLES]((_, _) => 0);
      index, fill := 0, 0;
      queued, partial := [], [];
    }

    /** A new session forgets the samples of the last one. */
    method Restart()
      requires Valid()
      modifies this
      ensures Valid() && queued == [] && partial == []
    {
      index, fill := 0, 0;
      queued, partial := [], [];
    }

    /** An aborted session drops the frame it was filling. */
    method DropPartial()
      requires Valid()
      modifies this`fill, this`partial
      ensures Valid() && partial == []
    {
      fill, partial := 0, [];
    }

    /** Hand the current buffer to the speaker, which may refuse it. */
    method QueueFrame() returns (ok: bool)
      requires Valid()
      modifies this
      ensures Valid()
      ensures ok ==> partial == [] && Output() == old(Output())
      ensures ok ==> queued == old(queued) + if old(partial) == [] then [] else [old(partial)]
      ensures !ok ==> queued == old(queued) && partial == old(partial)
    {
      if fill == 0 { return true; }
      var played: bool := *;
      if !played { return false; }
      ConcatSnoc(queued, partial);
      queued, partial := queued + [partial], [];
      index := (index + 1) % BUFFER_COUNT;
      fill := 0;
      ok := true;
    }

    method CopySamples(samples: seq<int16>)
      requires Valid() && fill + |samples| <= FRAME_SAMPLES
      modifies this`fill, this`partial, buffers
      ensures Valid() && partial == old(partial) + samples && fill == old(fill) + |samples|
    {
      for i := 0 to |samples|
        invariant fill == old(fill) && partial == old(partial)
        invariant forall j :: 0 <= j < fill ==> buffers[index, j] == partial[j]
        invariant forall j :: 0 <= j < i ==> buffers[index, fill + j] == samples[j]
      {
        buffers[index, fill + i] := samples[i];
      }
      fill := fill + |samples|;
      partial := partial + samples;
    }

    /** Copy what fits into the current frame and hand the frame over once it is full. */
    method AppendBlock(block: seq<int16>) returns (ok: bool)
      requires Valid() && fill + |block| <= FRAME_SAMPLES && FullFrames(queued)
      modifies this, buffers
      ensures Valid() && FullFrames(queued)
      ensures ok ==> fill < FRAME_SAMPLES
      ensures Output() == old(Output()) + block
    {
      CopySamples(block);
      assert Output() == old(Output()) + block;
      ok := true;
      if fill >= FRAME_SAMPLES {
        ok := QueueFrame();
        // A queued frame empties the buffer, so the firmware's back-pressure check after it never fires.
      }
    }

    /** Append one PCM payload; a refused frame leaves only an ordered prefix of it with the speaker. */
    method AppendPcm(pcm: seq<byte>) returns (ok: bool)
      requires Valid() && fill < FRAME_SAMPLES && FullFrames(queued) && |pcm| % 2 == 0
      modifies this, buffers
      ensures Valid() && FullFrames(queued)
      ensures ok ==> fill < FRAME_SAMPLES && Output() == old(Output()) + PcmSamples(pcm)
      ensures !ok ==> Output() <= old(Output()) + PcmSamples(pcm)
    {
      var samples := PcmSamples(pcm);
      var offset := 0;
      ghost var before := Output();
      assert before == before + samples[..0];
      while offset < |samples|
        invariant Valid() && fill < FRAME_SAMPLES && FullFrames(queued)
        invariant 0 <= offset <= |samples|
        invariant Output() == before + samples[..offset]
      {
        var space := FRAME_SAMPLES - fill;
        var count := if |samples| - offset < space then |samples| - offset else space;
        assert samples[..offset + count] == samples[..offset] + samples[offset..offset + count];
        ok := AppendBlock(samples[offset..offset + count]);
        offset := offset + count;
        assert Output() == before + samples[..offset];
        if !ok { return; }
      }
      assert samples[..offset] == samples;
      ok := true;
    }

    method AppendSample(sample: int16) returns (ok: bool)
      requires Valid() && fill < FRAME_SAMPLES && FullFrames(queued)
      modifies this, buffers
      ensures Valid() && FullFrames(queued)
      ensures ok ==> fill < FRAME_SAMPLES
      ensures Output() == old(Output()) + [sample]
    {
      ok := AppendBlock([sample]);
    }
  }
}
