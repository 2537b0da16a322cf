/** The servo calibration record: its FNV-1a checksum, its bounds, and what the store accepts. */
module Calibration {
  import opened Wire
  import Servo

  const MAGIC: u32 := 0x5354434E
  const SCHEMA_VERSION: u16 := 1
  /** `sizeof(CalibrationRecord)`: 4 + 2 + 2 + 6 * 2 + 4. */
  const RECORD_SIZE: u16 := 24
  const MAX_CORRECTION := 30
  const FNV_OFFSET: u32 := 2166136261
  const FNV_PRIME := 16777619

  type u16 = x: int | 0 <= x < 0x1_0000
  type i16 = x: int | -0x8000 <= x < 0x8000

  datatype Settings = Settings(homeX: i16, homeY: i16, correctionX: i16, correctionY: i16, reserved0: i16,
                               reserved1: i16)

  datatype Record = Record(magic: u32, schemaVersion: u16, recordSize: u16, servo: Settings, checksum: u32)

  /** The bit pattern of a signed field. */
  function Pattern(x: i16): u16 { if x < 0 then x + 0x1_0000 else x }

  // ---- The hash ----

  function Pow2(n: nat): (p: nat)
    ensures p > 0
  {
    if n == 0 then 1 else 2 * Pow2(n - 1)
  }

  /** Exclusive or of the low `n` bits. */
  function Xor(x: nat, y: nat, n: nat): (z: nat)
    ensures z < Pow2(n)
  {
    if n == 0 then 0 else (x + y) % 2 + 2 * Xor(x / 2, y / 2, n - 1)
  }

  function XorByte(x: byte, y: byte): (z: byte) {
    assert Pow2(8) == 256;
    Xor(x, y, 8)
  }

  /** `(hash ^ b) * prime` in 32 bits; the byte only meets the low byte of the hash. */
  function HashByte(hash: u32, b: byte): u32 {
    Wrap32(Mixed(hash, b) * FNV_PRIME)
  }

  function WordBytes(v: u32): (b: seq<byte>)
    ensures |b| == 4
  {
    [v % 256, v / 0x100 % 256, v / 0x1_0000 % 256, v / 0x100_0000 % 256]
  }

  function HashBytes(hash: u32, bytes: seq<byte>): u32 {
    if bytes == [] then hash else HashByte(HashBytes(hash, bytes[..|bytes| - 1]), bytes[|bytes| - 1])
  }

  lemma LowBit(bit: nat, rest: nat)
    requires bit < 2
    ensures (bit + 2 * rest) % 2 == bit && (bit + 2 * rest) / 2 == rest
  {
  }

  lemma BitTwice(x: nat, y: nat, z: nat)
    requires z % 2 == (x + y) % 2
    ensures (z + y) % 2 == x % 2
  {
  }

  lemma {:induction false} XorInvolutive(x: nat, y: nat, n: nat)
    requires x < Pow2(n)
    ensures Xor(Xor(x, y, n), y, n) == x
  {
    if n > 0 {
      LowBit((x + y) % 2, Xor(x / 2, y / 2, n - 1));
      BitTwice(x, y, Xor(x, y, n));
      XorInvolutive(x / 2, y / 2, n - 1);
    }
  }

  lemma {:induction false} XorCommutes(x: nat, y: nat, n: nat)
    ensures Xor(x, y, n) == Xor(y, x, n)
  {
    if n > 0 { XorCommutes(x / 2, y / 2, n - 1); }
  }

  lemma XorByteInjective(x: byte, y: byte, z: byte)
    ensures XorByte(x, z) == XorByte(y, z) ==> x == y
    ensures XorByte(z, x) == XorByte(z, y) ==> x == y
  {
    assert Pow2(8) == 256;
    XorInvolutive(x, z, 8);
    XorInvolutive(y, z, 8);
    XorCommutes(x, z, 8);
    XorCommutes(y, z, 8);
  }

  /** The prime is odd: 16777619 * 899433627 == 3513497 * 2^32 + 1, so multiplying by it is injective. */
  lemma MultiplyInjective(x: u32, y: u32)
    requires Wrap32(x * FNV_PRIME) == Wrap32(y * FNV_PRIME)
    ensures x == y
  {
    var t := x * FNV_PRIME / 0x1_0000_0000 - y * FNV_PRIME / 0x1_0000_0000;
    assert (x - y) * FNV_PRIME == 0x1_0000_0000 * t;
    assert x - y == 0x1_0000_0000 * (899433627 * t - 3513497 * (x - y));
  }

  /** What is multiplied: the hash with its low byte exchanged. */
  function Mixed(h: u32, b: byte): u32 { h - h % 256 + XorByte(h % 256, b) }

  lemma LowByte(high: nat, low: nat)
    requires low < 256
    ensures (256 * high + low) % 256 == low && (256 * high + low) / 256 == high
  {
  }

  lemma MixedParts(h: u32, b: byte)
    ensures Mixed(h, b) % 256 == XorByte(h % 256, b) && Mixed(h, b) / 256 == h / 256
  {
    assert h - h % 256 == 256 * (h / 256);
    LowByte(h / 256, XorByte(h % 256, b));
  }

  /** Each hash step is a bijection of the hash and injective in the byte. */
  lemma HashByteInjective(h: u32, h': u32, b: byte, b': byte)
    requires HashByte(h, b) == HashByte(h', b')
    ensures b == b' ==> h == h'
    ensures h == h' ==> b == b'
  {
    MultiplyInjective(Mixed(h, b), Mixed(h', b'));
    MixedParts(h, b);
    MixedParts(h', b');
    XorByteInjective(h % 256, h' % 256, b);
    XorByteInjective(b, b', h % 256);
  }

  lemma {:induction false} HashBytesInvertible(h: u32, h': u32, bytes: seq<byte>)
    requires HashBytes(h, bytes) == HashBytes(h', bytes)
    ensures h == h'
  {
    if bytes != [] {
      var n := |bytes| - 1;
      HashByteInjective(HashBytes(h, bytes[..n]), HashBytes(h', bytes[..n]), bytes[n], bytes[n]);
      HashBytesInvertible(h, h', bytes[..n]);
    }
  }

  lemma {:induction false} HashBytesConcat(h: u32, a: seq<byte>, b: seq<byte>)
    ensures HashBytes(h, a + b) == HashBytes(HashBytes(h, a), b)
  {
    if b == [] {
      assert a + b == a;
    } else {
      HashBytesConcat(h, a, b[..|b| - 1]);
      assert (a + b)[..|a + b| - 1] == a + b[..|b| - 1];
    }
  }

  lemma HashOfOne(h: u32, b: byte)
    ensures HashBytes(h, [b]) == HashByte(h, b)
  {
    assert [b][..0] == [];
  }

  /** Changing exactly one byte always changes the hash. */
  lemma OneByteChangesHash(h: u32, bytes: seq<byte>, i: nat, b: byte)
    requires i < |bytes| && bytes[i] != b
    ensures HashBytes(h, bytes[i := b]) != HashBytes(h, bytes)
  {
    var front, rest := bytes[..i], bytes[i + 1..];
    assert bytes == front + ([bytes[i]] + rest) && bytes[i := b] == front + ([b] + rest);
    var mid := HashBytes(h, front);
    HashBytesConcat(h, front, [bytes[i]] + rest);
    HashBytesConcat(h, front, [b] + rest);
    HashBytesConcat(mid, [bytes[i]], rest);
    HashBytesConcat(mid, [b], rest);
    HashOfOne(mid, bytes[i]);
    HashOfOne(mid, b);
    if HashBytes(h, bytes[i := b]) == HashBytes(h, bytes) {
      HashBytesInvertible(HashByte(mid, bytes[i]), HashByte(mid, b), rest);
      HashByteInjective(mid, mid, bytes[i], b);
    }
  }

  // ---- The record ----

  /** One call of `calibration_hash_step`: the four bytes of a word, low byte first. */
  function HashStep(hash: u32, v: u32): u32 {
    HashByte(HashByte(HashByte(HashByte(hash, v % 256), v / 0x100 % 256), v / 0x1_0000 % 256), v / 0x100_0000 % 256)
  }

  /** The nine words that are hashed, the 16-bit fields zero-extended. */
  function Words(r: Record): seq<u32> {
    [r.magic, r.schemaVersion, r.recordSize, Pattern(r.servo.homeX), Pattern(r.servo.homeY),
     Pattern(r.servo.correctionX), Pattern(r.servo.correctionY), Pattern(r.servo.reserved0), Pattern(r.servo.reserved1)]
  }

  function HashWords(hash: u32, words: seq<u32>): u32 {
    if words == [] then hash else HashStep(HashWords(hash, words[..|words| - 1]), words[|words| - 1])
  }

  function Checksum(r: Record): u32 { HashWords(FNV_OFFSET, Words(r)) }

  function BytesOf(words: seq<u32>): seq<byte> {
    if words == [] then [] else BytesOf(words[..|words| - 1]) + WordBytes(words[|words| - 1])
  }

  lemma HashStepIsFourBytes(h: u32, v: u32)
    ensures HashStep(h, v) == HashBytes(h, WordBytes(v))
  {
    var w := WordBytes(v);
    assert w[..3][..2] == w[..2] && w[..2][..1] == w[..1] && w[..1][..0] == [];
    assert HashBytes(h, w[..1]) == HashByte(h, w[0]);
    assert HashBytes(h, w[..2]) == HashByte(HashBytes(h, w[..1]), w[1]);
    assert HashBytes(h, w[..3]) == HashByte(HashBytes(h, w[..2]), w[2]);
  }

  lemma {:induction false} HashWordsIsBytes(h: u32, words: seq<u32>)
    ensures HashWords(h, words) == HashBytes(h, BytesOf(words))
  {
    if words != [] {
      var n := |words| - 1;
      HashWordsIsBytes(h, words[..n]);
      HashStepIsFourBytes(HashWords(h, words[..n]), words[n]);
      HashBytesConcat(h, BytesOf(words[..n]), WordBytes(words[n]));
    }
  }

  function Home(s: Settings): Servo.Target { Servo.Target(s.homeX, s.homeY) }

  /** The calibrated home: basis plus correction. */
  function CorrectedHome(s: Settings): Servo.Target { Servo.Target(s.homeX + s.correctionX, s.homeY + s.correctionY) }

  predicate BoundsSafe(s: Settings) {
    && Servo.WithinLimits(Home(s)) && Servo.WithinLimits(CorrectedHome(s))
    && -MAX_CORRECTION <= s.correctionX <= MAX_CORRECTION && -MAX_CORRECTION <= s.correctionY <= MAX_CORRECTION
  }

  predicate Validates(r: Record) {
    && r.magic == MAGIC && r.schemaVersion == SCHEMA_VERSION && r.recordSize == RECORD_SIZE
    && BoundsSafe(r.servo) && r.checksum == Checksum(r)
  }

  function Make(s: Settings): Record {
    var r := Record(MAGIC, SCHEMA_VERSION, RECORD_SIZE, s, 0);
    r.(checksum := Checksum(r))
  }

  /** A freshly made record validates exactly when its servo bounds are safe. */
  lemma MadeRecordValidates(s: Settings)
    ensures Validates(Make(s)) <==> BoundsSafe(s)
  {
    assert Words(Make(s)) == Words(Record(MAGIC, SCHEMA_VERSION, RECORD_SIZE, s, 0));
  }

  /** The hashed bytes differ in exactly one place; the stored checksum is the same. */
  predicate OneByteDamaged(r: Record, damaged: Record, i: nat, b: byte) {
    && damaged.checksum == r.checksum
    && i < |BytesOf(Words(r))| && b != BytesOf(Words(r))[i]
    && BytesOf(Words(damaged)) == BytesOf(Words(r))[i := b]
  }

  /** Every single-byte corruption of a valid record's fields is detected ... */
  lemma FieldCorruptionDetected(r: Record, damaged: Record, i: nat, b: byte)
    ensures Validates(r) && OneByteDamaged(r, damaged, i, b) ==> !Validates(damaged)
  {
    if OneByteDamaged(r, damaged, i, b) {
      HashWordsIsBytes(FNV_OFFSET, Words(r));
      HashWordsIsBytes(FNV_OFFSET, Words(damaged));
      OneByteChangesHash(FNV_OFFSET, BytesOf(Words(r)), i, b);
    }
  }

  // ---- The record as it is stored ----

  /** The 16-bit fields in their order. */
  function Fields(r: Record): seq<u16> {
    [r.schemaVersion, r.recordSize, Pattern(r.servo.homeX), Pattern(r.servo.homeY),
     Pattern(r.servo.correctionX), Pattern(r.servo.correctionY), Pattern(r.servo.reserved0), Pattern(r.servo.reserved1)]
  }

  /** Low byte first. */
  function Pairs(fields: seq<u16>): (bytes: seq<byte>)
    ensures |bytes| == 2 * |fields|
  {
    seq(2 * |fields|, i requires 0 <= i < 2 * |fields| =>
      if i % 2 == 0 then fields[i / 2] % 256 else fields[i / 2] / 256)
  }

  /** The packed image of the fields before the checksum: one of 32 bits, then eight of 16. */
  function Image(r: Record): (image: seq<byte>)
    ensures |image| == 20
  {
    WordBytes(r.magic) + Pairs(Fields(r))
  }

  function Little(low: int, high: int): int { low + 256 * high }

  /** Two's complement. */
  function Signed(low: byte, high: byte): int {
    if high >= 128 then Little(low, high) - 0x1_0000 else Little(low, high)
  }

  /** The image is the record: each field can be read back from its own bytes. */
  lemma ImageReadsBack(r: Record)
    ensures var b := Image(r);
            && r.magic == Little(Little(b[0], b[1]), Little(b[2], b[3]) * 256)
            && r.schemaVersion == Little(b[4], b[5]) && r.recordSize == Little(b[6], b[7])
            && r.servo.homeX == Signed(b[8], b[9]) && r.servo.homeY == Signed(b[10], b[11])
            && r.servo.correctionX == Signed(b[12], b[13]) && r.servo.correctionY == Signed(b[14], b[15])
            && r.servo.reserved0 == Signed(b[16], b[17]) && r.servo.reserved1 == Signed(b[18], b[19])
  {
    var b, pairs := Image(r), Pairs(Fields(r));
    WordReadsBack(r.magic);
    assert b[..4] == WordBytes(r.magic) && b[4..] == pairs;
  }

  lemma Digits(v: nat, q: nat, qq: nat)
    requires q == v / 0x100 && qq == q / 0x100
    ensures v == v % 0x100 + 0x100 * (q % 0x100) + 0x1_0000 * qq && v / 0x1_0000 == qq
  {
  }

  lemma TopByte(v: u32, qq: nat)
    requires qq == v / 0x1_0000
    ensures v / 0x100_0000 == qq / 0x100 && v / 0x100_0000 % 0x100 == v / 0x100_0000
  {
  }

  lemma WordReadsBack(v: u32)
    ensures var b := WordBytes(v); v == Little(Little(b[0], b[1]), Little(b[2], b[3]) * 256)
  {
    var b, qq := WordBytes(v), v / 0x1_0000;
    Digits(v, v / 0x100, v / 0x100 / 0x100);
    TopByte(v, qq);
    assert b[2] == qq % 0x100 && b[3] == qq / 0x100;
  }

  /** What is hashed of an image: the first word as it is, each 16-bit field with two zero bytes behind it. */
  function Hashed(image: seq<byte>): (bytes: seq<byte>)
    requires |image| == 20
  {
    seq(36, p requires 0 <= p < 36 => if p < 4 then image[p] else if p % 4 < 2 then image[2 + p / 4 * 2 + p % 4] else 0)
  }

  lemma {:induction false} BytesOfLength(words: seq<u32>)
    ensures |BytesOf(words)| == 4 * |words|
    decreases |words|
  {
    if words != [] { BytesOfLength(words[..|words| - 1]); }
  }

  lemma {:induction false} BytesOfAt(words: seq<u32>, w: nat, k: nat)
    requires w < |words| && k < 4
    ensures 4 * w + k < |BytesOf(words)| && BytesOf(words)[4 * w + k] == WordBytes(words[w])[k]
    decreases |words|
  {
    var n := |words| - 1;
    BytesOfLength(words);
    BytesOfLength(words[..n]);
    if w < n { BytesOfAt(words[..n], w, k); }
  }

  lemma WordOfField(field: u16, k: nat)
    requires k < 4
    ensures WordBytes(field)[k] == if k == 0 then field % 256 else if k == 1 then field / 256 else 0
  {
  }

  lemma PairAt(fields: seq<u16>, f: nat)
    requires f < |fields|
    ensures Pairs(fields)[2 * f] == fields[f] % 256 && Pairs(fields)[2 * f + 1] == fields[f] / 256
  {
  }

  lemma HashedFieldAt(r: Record, f: nat, k: nat)
    requires f < 8 && k < 4
    ensures Hashed(Image(r))[4 * (f + 1) + k] == WordBytes(Fields(r)[f])[k]
  {
    var image, p := Image(r), 4 * (f + 1) + k;
    assert p / 4 == f + 1 && p % 4 == k;
    WordOfField(Fields(r)[f], k);
    PairAt(Fields(r), f);
    if k < 2 { assert image[4 + (2 * f + k)] == Pairs(Fields(r))[2 * f + k]; }
  }

  lemma WordsAreFields(r: Record, words: seq<u32>)
    requires words == Words(r)
    ensures |words| == 9 && words[0] == r.magic && forall f :: 0 <= f < 8 ==> words[f + 1] == Fields(r)[f]
  {
    assert words == [r.magic] + Fields(r);
  }

  lemma HashedByteAt(r: Record, words: seq<u32>, w: nat, k: nat)
    requires words == Words(r) && w < 9 && k < 4
    ensures |BytesOf(words)| == 36 && BytesOf(words)[4 * w + k] == Hashed(Image(r))[4 * w + k]
  {
    WordsAreFields(r, words);
    BytesOfLength(words);
    BytesOfAt(words, w, k);
    if w > 0 { HashedFieldAt(r, w - 1, k); }
  }

  /** Every field is hashed. */
  lemma HashedIsTheImage(r: Record)
    ensures BytesOf(Words(r)) == Hashed(Image(r))
  {
    var words := Words(r);
    HashedByteAt(r, words, 0, 0);
    forall p | 0 <= p < 36
      ensures BytesOf(words)[p] == Hashed(Image(r))[p]
    {
      HashedByteAt(r, words, p / 4, p % 4);
    }
  }

  /** Yaw within 128 degrees and pitch from 0 to 90, corrected or not, by no more than 30 degrees either way. */
  predicate SafeAngles(s: Settings) {
    && -128 <= s.homeX <= 128 && 0 <= s.homeY <= 90
    && -30 <= s.correctionX <= 30 && -30 <= s.correctionY <= 30
    && -128 <= s.homeX + s.correctionX <= 128 && 0 <= s.homeY + s.correctionY <= 90
  }

  /** A record is valid exactly when it is of this kind, its angles are safe and its image hashes to its checksum. */
  lemma ValidatesExactlyWhen(r: Record)
    ensures Validates(r) <==>
              && r.magic == 0x5354434E && r.schemaVersion == 1 && r.recordSize == 24 && SafeAngles(r.servo)
              && r.checksum == HashBytes(FNV_OFFSET, Hashed(Image(r)))
  {
    HashWordsIsBytes(FNV_OFFSET, Words(r));
    HashedIsTheImage(r);
  }

  function HashedPosition(i: nat): nat { if i < 4 then i else 4 * (i / 2 - 1) + i % 2 }

  lemma OneByteHashed(image: seq<byte>, i: nat, b: byte)
    requires |image| == 20 && i < 20
    ensures HashedPosition(i) < 36 && Hashed(image)[HashedPosition(i)] == image[i]
    ensures Hashed(image[i := b]) == Hashed(image)[HashedPosition(i) := b]
  {
    var p := HashedPosition(i);
    if i >= 4 { assert p / 4 == i / 2 - 1 && p % 4 == i % 2; }
    var now, was := Hashed(image[i := b]), Hashed(image);
    forall q | 0 <= q < |now|
      ensures now[q] == was[p := b][q]
    {
    }
  }

  /**
   Two records whose images differ in exactly one byte, with the same stored checksum, do not both validate:
   no single damaged byte of any field goes undetected.
   */
  lemma ImageCorruptionDetected(r: Record, damaged: Record, i: nat, b: byte)
    requires i < 20 && Image(damaged) == Image(r)[i := b] && b != Image(r)[i] && damaged.checksum == r.checksum
    ensures !(Validates(r) && Validates(damaged))
  {
    HashedIsTheImage(r);
    HashedIsTheImage(damaged);
    OneByteHashed(Image(r), i, b);
    FieldCorruptionDetected(r, damaged, HashedPosition(i), b);
  }

  lemma XorOfA()
    ensures XorByte(0xC5, 0x61) == 0xA4
  {
    assert Xor(0x3, 0x1, 2) == 0x2;
    assert Xor(0xC, 0x6, 4) == 0xA by { assert Xor(0x6, 0x3, 3) == 0x5; }
    assert Xor(0x31, 0x18, 6) == 0x29 by { assert Xor(0x18, 0xC, 5) == 0x14; }
    assert Xor(0x62, 0x30, 7) == 0x52;
  }

  lemma Product(mixed: int)
    requires mixed == 0x811C9DA4
    ensures Wrap32(mixed * FNV_PRIME) == 0xE40C292C
  {
  }

  lemma MixedIs(h: u32, b: byte, low: byte, mixed: byte)
    requires h % 256 == low && XorByte(low, b) == mixed
    ensures Mixed(h, b) == h - low + mixed
  {
  }

  lemma HashOfA(h: u32, a: byte)
    requires h == FNV_OFFSET && a == 0x61
    ensures HashByte(h, a) == 0xE40C292C
  {
    XorOfA();
    MixedIs(h, a, 0xC5, 0xA4);
    Product(Mixed(h, a));
  }

  /** The published FNV-1a values of the empty text and of "a". */
  lemma PublishedHashes(h: u32, a: byte)
    requires h == FNV_OFFSET && a == 0x61
    ensures HashBytes(h, []) == 0x811C9DC5 && HashBytes(h, [a]) == 0xE40C292C
  {
    HashOfOne(h, a);
    HashOfA(h, a);
  }

  /** ... and so is any corruption of the stored checksum. */
  lemma ChecksumCorruptionDetected(r: Record, checksum: u32)
    ensures Validates(r) && checksum != r.checksum ==> !Validates(r.(checksum := checksum))
  {
    assert Words(r.(checksum := checksum)) == Words(r);
  }

  const EMPTY := Record(0, 0, 0, Settings(0, 0, 0, 0, 0, 0), 0)

  class Store {
    var record: Record
    var valid: bool

    /** What the rest of the firmware relies on: a valid store holds a record that validates. */
    ghost predicate Valid()
      reads this
    {
      if valid then Validates(record) else record == EMPTY
    }

    constructor ()
      ensures Valid() && !valid
    {
      record, valid := EMPTY, false;
    }

    method Reset()
      modifies this
      ensures Valid() && !valid
    {
      record, valid := EMPTY, false;
    }

    /** Loading replaces the record exactly when it validates, and otherwise leaves nothing valid behind. */
    method Load(r: Record) returns (ok: bool)
      modifies this
      ensures Valid()
      ensures ok == valid == Validates(r)
      ensures ok ==> record == r
    {
      ok := Validates(r);
      if !ok {
        Reset();
        return;
      }
      record, valid := r, true;
    }
  }
}
