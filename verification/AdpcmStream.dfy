/** Whole ADPCM streams: what a payload encodes, and that decoding undoes encoding. */
module AdpcmStream {
  import opened Wire
  import opened Ima

  // ---- PCM bytes and samples ----

  function SampleAt(lo: byte, hi: byte): int16 {
    if lo + 256 * hi >= 32768 then lo + 256 * hi - 65536 else lo + 256 * hi
  }

  /** Little-endian bytes of a sample. */
  function SampleBytes(x: int16): (b: seq<byte>)
    ensures |b| == 2 && SampleAt(b[0], b[1]) == x
  {
    var u := if x < 0 then x + 65536 else x;
    [u % 256, u / 256]
  }

  function PcmBytes(samples: seq<int16>): (b: seq<byte>)
    ensures |b| == 2 * |samples|
  {
    if samples == [] then [] else PcmBytes(samples[..|samples| - 1]) + SampleBytes(samples[|samples| - 1])
  }

  /** A trailing odd byte is ignored. */
  function PcmSamples(pcm: seq<byte>): (xs: seq<int16>)
    ensures |xs| == |pcm| / 2
  {
    seq(|pcm| / 2, i requires 0 <= i < |pcm| / 2 => SampleAt(pcm[2 * i], pcm[2 * i + 1]))
  }

  lemma {:induction false} PcmRoundTrip(pcm: seq<byte>)
    requires |pcm| % 2 == 0
    ensures PcmBytes(PcmSamples(pcm)) == pcm
  {
    if pcm != [] {
      var n := |pcm| - 2;
      PcmRoundTrip(pcm[..n]);
      assert PcmSamples(pcm)[..n / 2] == PcmSamples(pcm[..n]);
      assert pcm == pcm[..n] + [pcm[n], pcm[n + 1]];
    }
  }

  lemma {:induction false} PcmSamplesOfBytes(samples: seq<int16>)
    ensures PcmSamples(PcmBytes(samples)) == samples
  {
    if samples != [] {
      var n := |samples| - 1;
      PcmSamplesOfBytes(samples[..n]);
      var pcm := PcmBytes(samples);
      assert pcm[..2 * n] == PcmBytes(samples[..n]);
      assert PcmSamples(pcm)[..n] == PcmSamples(pcm[..2 * n]);
    }
  }

  // ---- Nibbles and bytes, low nibble first ----

  function PackByte(low: Nibble, high: Nibble): (b: byte)
    ensures b % 16 == low && b / 16 == high
  {
    low as int + 16 * high
  }

  function Pack(ns: seq<Nibble>): (bytes: seq<byte>)
    ensures |bytes| == (|ns| + 1) / 2
  {
    seq((|ns| + 1) / 2, i requires 0 <= i < (|ns| + 1) / 2 =>
      PackByte(ns[2 * i], if 2 * i + 1 < |ns| then ns[2 * i + 1] else 0))
  }

  function Unpack(bytes: seq<byte>): (ns: seq<Nibble>)
    ensures |ns| == 2 * |bytes|
  {
    seq(2 * |bytes|, i requires 0 <= i < 2 * |bytes| => if i % 2 == 0 then bytes[i / 2] % 16 else bytes[i / 2] / 16)
  }

  lemma UnpackPack(ns: seq<Nibble>)
    ensures Unpack(Pack(ns)) == ns + (if |ns| % 2 == 1 then [0] else [])
  {
    var back := Unpack(Pack(ns));
    forall i | 0 <= i < |back| ensures back[i] == (ns + (if |ns| % 2 == 1 then [0] else []))[i] {
      assert i == i / 2 * 2 || i == i / 2 * 2 + 1;
    }
  }

  // ---- The decoder over a run of nibbles ----

  function StateAfter(st: State, ns: seq<Nibble>): State {
    if ns == [] then st else Decode(StateAfter(st, ns[..|ns| - 1]), ns[|ns| - 1])
  }

  /** The predictor after every nibble. */
  function Decoded(st: State, ns: seq<Nibble>): (xs: seq<int16>)
    ensures |xs| == |ns|
  {
    if ns == [] then [] else Decoded(st, ns[..|ns| - 1]) + [StateAfter(st, ns).predictor]
  }

  /** Carrying the state across a split changes nothing. */
  lemma {:induction false} DecodeSplit(st: State, a: seq<Nibble>, b: seq<Nibble>)
    ensures StateAfter(st, a + b) == StateAfter(StateAfter(st, a), b)
    ensures Decoded(st, a + b) == Decoded(st, a) + Decoded(StateAfter(st, a), b)
  {
    if b == [] {
      assert a + b == a;
    } else {
      var n := |b| - 1;
      DecodeSplit(st, a, b[..n]);
      assert (a + b)[..|a + b| - 1] == a + b[..n];
    }
  }

  lemma {:induction false} DecodedAt(st: State, ns: seq<Nibble>, i: nat)
    requires i < |ns|
    ensures Decoded(st, ns)[i] == StateAfter(st, ns[..i + 1]).predictor
  {
    if i < |ns| - 1 {
      DecodedAt(st, ns[..|ns| - 1], i);
      assert ns[..|ns| - 1][..i + 1] == ns[..i + 1];
    } else {
      assert ns[..i + 1] == ns;
    }
  }

  // ---- The encoder over a run of samples ----

  function Nibbles(st: State, samples: seq<int16>): (ns: seq<Nibble>)
    ensures |ns| == |samples|
  {
    if samples == [] then []
    else
      var front := samples[..|samples| - 1];
      Nibbles(st, front) + [Encode(samples[|samples| - 1], EncoderState(st, front)).0]
  }

  lemma {:induction false} NibblesPrefix(st: State, samples: seq<int16>, i: nat)
    requires i <= |samples|
    ensures Nibbles(st, samples)[..i] == Nibbles(st, samples[..i])
  {
    if i < |samples| {
      NibblesPrefix(st, samples[..|samples| - 1], i);
      assert samples[..|samples| - 1][..i] == samples[..i];
    } else {
      assert samples[..i] == samples;
    }
  }

  /** Lockstep: decoding the nibbles written so far leaves the decoder in the encoder's state. */
  lemma {:induction false} Lockstep(st: State, samples: seq<int16>)
    ensures StateAfter(st, Nibbles(st, samples)) == EncoderState(st, samples)
  {
    if samples != [] {
      Lockstep(st, samples[..|samples| - 1]);
      assert Nibbles(st, samples)[..|samples| - 1] == Nibbles(st, samples[..|samples| - 1]);
    }
  }

  /** What the listener hears: the first sample exactly, then the encoder's own predictor after each sample. */
  function Reconstruction(samples: seq<int16>): (xs: seq<int16>)
    requires samples != []
    ensures |xs| == |samples|
  {
    seq(|samples|, i requires 0 <= i < |samples| => EncoderState(State(samples[0], 0), samples[1..i + 1]).predictor)
  }

  lemma DecodedAtIsReconstruction(st: State, samples: seq<int16>, i: nat)
    requires i < |samples|
    ensures Decoded(st, Nibbles(st, samples))[i] == EncoderState(st, samples[..i + 1]).predictor
  {
    DecodedAt(st, Nibbles(st, samples), i);
    NibblesPrefix(st, samples, i + 1);
    Lockstep(st, samples[..i + 1]);
  }

  lemma HeardAt(samples: seq<int16>, i: nat)
    requires 0 < i < |samples|
    ensures var st := State(samples[0], 0);
            Decoded(st, Nibbles(st, samples[1..]))[i - 1] == Reconstruction(samples)[i]
  {
    assert samples[1..][..i] == samples[1..i + 1];
    DecodedAtIsReconstruction(State(samples[0], 0), samples[1..], i - 1);
  }

  lemma DecodedIsReconstruction(samples: seq<int16>)
    requires samples != []
    ensures var st := State(samples[0], 0);
            [samples[0]] + Decoded(st, Nibbles(st, samples[1..])) == Reconstruction(samples)
  {
    var st, heard := State(samples[0], 0), Reconstruction(samples);
    var decoded := Decoded(st, Nibbles(st, samples[1..]));
    assert heard[0] == samples[0];
    forall i | 0 < i < |samples| ensures decoded[i - 1] == heard[i] {
      HeardAt(samples, i);
    }
    assert [samples[0]] + decoded == heard;
  }

  // ---- The encoded payload ----

  function EncodedPayload(samples: seq<int16>): seq<byte>
    requires samples != []
  {
    SampleBytes(samples[0]) + [0, 0] + Pack(Nibbles(State(samples[0], 0), samples[1..]))
  }

  /**
   The declared-size check admits transfers of up to 128 KiB of decoded PCM, yet the encoded payload
   fits the 32 KiB load buffer exactly up to 131058 decoded bytes: the last seven sizes can only overflow.
   */
  lemma AdmittedPayloadFits(samples: seq<int16>)
    requires samples != []
    ensures |EncodedPayload(samples)| <= 32 * 1024 <==> 2 * |samples| <= 131058
  {
  }
}
