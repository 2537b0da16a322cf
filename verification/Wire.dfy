/** Values that cross the playback transports, and the integer widths they use. */
module Wire {

  type byte = x: int | 0 <= x < 256
  type u32 = x: int | 0 <= x < 0x1_0000_0000

  /** `uint32_t` arithmetic wraps. */
  function Wrap32(x: int): u32 { x % 0x1_0000_0000 }

  datatype Format = PcmS16Le | ImaAdpcm4Bit | OtherFormat

  /** The error codes of the structured results; `Ok` is an accepted result. */
  datatype Code =
    | Ok
    | MalformedAudioChunk
    | InvalidDeviceId
    | FirmwareBusy
    | UnsupportedFeature
    | AudioBufferOverflow
    | AudioUnderrun
    | UnknownCommand
    | InvalidPriority
    | ServoLimitExceeded
    | ServoReadFailed
    | CalibrationInvalid
    | MotionInterrupted

  const SAMPLE_RATE := 16000
  const LOW_SAMPLE_RATE := 8000
  const CHANNELS := 1
  const MAX_CHUNK_BYTES := 1280
  const ADPCM_HEADER_BYTES := 4

  predicate SampleRateSupported(rate: int) { rate == SAMPLE_RATE || rate == LOW_SAMPLE_RATE }

  /** An `AudioChunk` message or a load request; the message type bounds `commandId` to 36 bytes. */
  datatype Chunk = Chunk(
    deviceMatches: bool,
    commandId: string,
    sequence: u32,
    totalChunks: u32,
    totalBytes: u32,
    format: Format,
    sampleRate: u32,
    channels: byte,
    endOfStream: bool,
    pcm: seq<byte>)

  function Concat<T>(parts: seq<seq<T>>): seq<T> {
    if parts == [] then [] else Concat(parts[..|parts| - 1]) + parts[|parts| - 1]
  }

  lemma ConcatSnoc<T>(parts: seq<seq<T>>, part: seq<T>)
    ensures Concat(parts + [part]) == Concat(parts) + part
  {
    assert (parts + [part])[..|parts|] == parts;
  }

  lemma {:induction false} ConcatPrefix<T>(parts: seq<seq<T>>, n: nat)
    requires n <= |parts|
    ensures Concat(parts[..n]) <= Concat(parts)
  {
    if n < |parts| {
      var front := parts[..|parts| - 1];
      ConcatPrefix(front, n);
      assert front[..n] == parts[..n];
    } else {
      assert parts[..n] == parts;
    }
  }
}
