/**
 * FPackedNormal: a unit vector packed into four signed bytes X, Y, Z, W that overlay the
 * 32-bit word `Data` (X at byte offset 0, W at offset 3, little-endian). Archives written
 * before the IncreaseNormalPrecision rendering version store each byte with a +128 bias;
 * newer ones store the signed byte itself, so loading XORs the word with 0x80808080.
 */
module PackedNormal {

  type int8 = x: int | -0x80 <= x < 0x80

  /** The mask that flips the top bit of each of the four bytes. */
  const BIAS_MASK: bv32 := 0x8080_8080

  /** The struct is its word; the four components are views of it. */
  datatype FPackedNormal = FPackedNormal(Data: bv32)

  /** The unsigned byte at offset `k` of a little-endian word. */
  function ByteAt(d: bv32, k: nat): bv8
    requires k < 4
  {
    if k == 0 then (d & 0xFF) as bv8
    else if k == 1 then ((d >> 8) & 0xFF) as bv8
    else if k == 2 then ((d >> 16) & 0xFF) as bv8
    else ((d >> 24) & 0xFF) as bv8
  }

  /** A byte read as `sbyte` (two's complement). */
  function Int8Of(b: bv8): (r: int8)
    ensures b < 0x80 ==> r == b as int
    ensures b >= 0x80 ==> r == b as int - 0x100
  {
    if b < 0x80 then b as int else b as int - 0x100
  }

  /** The nibble whose unsigned value is `y`. */
  function NibbleOf(y: int): (b: bv4)
    requires 0 <= y < 0x10
    ensures b as int == y
  {
    y as bv4
  }

  /** The byte whose unsigned value is `y`, assembled from its two nibbles. */
  function ByteOf(y: int): (b: bv8)
    requires 0 <= y < 0x100
    ensures b as int == y
  {
    var hi := NibbleOf(y / 0x10);
    var lo := NibbleOf(y % 0x10);
    ((hi as bv8) << 4) | (lo as bv8)
  }

  /** An `sbyte` stored as a byte (two's complement). */
  function ByteOfInt8(x: int8): (b: bv8)
    ensures Int8Of(b) == x
  {
    ByteOf((x + 0x100) % 0x100)
  }

  /** The overlay: the signed component at offset `k` (X = 0, Y = 1, Z = 2, W = 3). */
  function Component(n: FPackedNormal, k: nat): int8
    requires k < 4
  {
    Int8Of(ByteAt(n.Data, k))
  }

  function X(n: FPackedNormal): int8 { Component(n, 0) }
  function Y(n: FPackedNormal): int8 { Component(n, 1) }
  function Z(n: FPackedNormal): int8 { Component(n, 2) }
  function W(n: FPackedNormal): int8 { Component(n, 3) }

  /** The word whose four bytes, from offset 0 up, are the given ones. */
  function Pack(b0: bv8, b1: bv8, b2: bv8, b3: bv8): (d: bv32)
    ensures ByteAt(d, 0) == b0 && ByteAt(d, 1) == b1 && ByteAt(d, 2) == b2 && ByteAt(d, 3) == b3
  {
    (b0 as bv32) | ((b1 as bv32) << 8) | ((b2 as bv32) << 16) | ((b3 as bv32) << 24)
  }

  /** A word is determined by its four bytes: the overlay loses nothing. */
  lemma PackBytes(d: bv32)
    ensures Pack(ByteAt(d, 0), ByteAt(d, 1), ByteAt(d, 2), ByteAt(d, 3)) == d
  {
  }

  /**
   * `new FPackedNormal(Ar)`: the raw word, with every byte's top bit flipped when the
   * archive's rendering version is at least IncreaseNormalPrecision (`increasedPrecision`).
   */
  function FromArchive(raw: bv32, increasedPrecision: bool): (n: FPackedNormal)
    ensures forall k :: 0 <= k < 4 ==> ByteAt(n.Data, k) == if increasedPrecision then ByteAt(raw, k) ^ 0x80 else ByteAt(raw, k)
  {
    if increasedPrecision then FPackedNormal(raw ^ BIAS_MASK) else FPackedNormal(raw)
  }

  /** Flipping the top bits twice restores the word. */
  lemma BiasInvolutive(d: bv32)
    ensures (d ^ BIAS_MASK) ^ BIAS_MASK == d
  {
  }

  /**
   * In a newer archive every stored byte is the component plus 128: after the flip each
   * signed component is the stored unsigned byte minus 128, the value the deprecated
   * unpacking (`(Data >> 8k) & 0xFF`, then `/ 127.5 - 1`) reads from the old format.
   */
  lemma ArchiveRemovesBias(raw: bv32, k: nat)
    requires k < 4
    ensures Component(FromArchive(raw, true), k) == DeprecatedComponent(FPackedNormal(raw), k) - 0x80
  {
    var u := ByteAt(raw, k);
    assert ByteAt(FromArchive(raw, true).Data, k) == u ^ 0x80;
    FlipTopBit(u);
  }

  lemma FlipTopBit(u: bv8)
    ensures Int8Of(u ^ 0x80) == u as int - 0x80
  {
    if u < 0x80 {
      assert u ^ 0x80 == u + 0x80;
    } else {
      assert u ^ 0x80 == u - 0x80;
    }
  }

  /** `FDeprecatedSerializedPackedNormal`: component `k` is `(Data >> 8k) & 0xFF`. */
  function DeprecatedComponent(n: FPackedNormal, k: nat): (r: int)
    requires k < 4
    ensures 0 <= r <= 0xFF
  {
    ByteAt(n.Data, k) as int
  }

  /** `RescaleToInt8` after rounding: `value * 127` rounded, clamped to the `sbyte` range. */
  function RescaleToInt8(rounded: int): (r: int8)
    ensures -0x80 <= rounded < 0x80 ==> r == rounded
    ensures rounded < -0x80 ==> r == -0x80
    ensures rounded >= 0x80 ==> r == 0x7F
  {
    if rounded < -0x80 then -0x80 else if rounded > 0x7F then 0x7F else rounded
  }

  /** The clamp never decreases: a larger rounded value packs to a component at least as large. */
  lemma RescaleMonotone(a: int, b: int)
    requires a <= b
    ensures RescaleToInt8(a) <= RescaleToInt8(b)
  {
  }

  /** `new FPackedNormal(FVector)`: X, Y, Z rescaled, W = `sbyte.MaxValue`. */
  function FromVector(x: int, y: int, z: int): (n: FPackedNormal)
    ensures X(n) == RescaleToInt8(x) && Y(n) == RescaleToInt8(y) && Z(n) == RescaleToInt8(z)
    ensures W(n) == 0x7F
  {
    FPackedNormal(Pack(ByteOfInt8(RescaleToInt8(x)), ByteOfInt8(RescaleToInt8(y)), ByteOfInt8(RescaleToInt8(z)), ByteOfInt8(0x7F)))
  }

  /** `new FPackedNormal(FVector4)`: all four components rescaled. */
  function FromVector4(x: int, y: int, z: int, w: int): (n: FPackedNormal)
    ensures X(n) == RescaleToInt8(x) && Y(n) == RescaleToInt8(y) && Z(n) == RescaleToInt8(z)
    ensures W(n) == RescaleToInt8(w)
  {
    FPackedNormal(Pack(ByteOfInt8(RescaleToInt8(x)), ByteOfInt8(RescaleToInt8(y)), ByteOfInt8(RescaleToInt8(z)), ByteOfInt8(RescaleToInt8(w))))
  }

  /** `operator ==`: the words and all four components compare equal. */
  predicate Equal(a: FPackedNormal, b: FPackedNormal)
    ensures Equal(a, b) <==> a.Data == b.Data
  {
    a.Data == b.Data && X(a) == X(b) && Y(a) == Y(b) && Z(a) == Z(b) && W(a) == W(b)
  }

  /** `operator !=`: some word or component differs. */
  predicate NotEqual(a: FPackedNormal, b: FPackedNormal)
    ensures NotEqual(a, b) <==> !Equal(a, b)
  {
    a.Data != b.Data || X(a) != X(b) || Y(a) != Y(b) || Z(a) != Z(b) || W(a) != W(b)
  }

  /** With the overlay, equal components mean equal words. */
  lemma ComponentsDetermineData(a: FPackedNormal, b: FPackedNormal)
    requires X(a) == X(b) && Y(a) == Y(b) && Z(a) == Z(b) && W(a) == W(b)
    ensures a == b
  {
    Int8Injective(ByteAt(a.Data, 0), ByteAt(b.Data, 0));
    Int8Injective(ByteAt(a.Data, 1), ByteAt(b.Data, 1));
    Int8Injective(ByteAt(a.Data, 2), ByteAt(b.Data, 2));
    Int8Injective(ByteAt(a.Data, 3), ByteAt(b.Data, 3));
    PackBytes(a.Data);
    PackBytes(b.Data);
  }

  lemma Int8Injective(u: bv8, v: bv8)
    requires Int8Of(u) == Int8Of(v)
    ensures u == v
  {
  }
}
