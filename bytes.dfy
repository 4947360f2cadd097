/**
 * Fixed-width integers, their little-endian byte layout as .NET's BinaryWriter and Python's
 * struct module (on a little-endian machine) lay them out, IEEE-754 single floats as bit
 * patterns, and the length-prefixed string layout shared by the writer and the reader.
 */
module Bytes {

  type byte = x: int | 0 <= x < 0x100
  type int16 = x: int | -0x8000 <= x < 0x8000
  type int32 = x: int | -0x8000_0000 <= x < 0x8000_0000
  type uint32 = x: int | 0 <= x < 0x1_0000_0000

  const TWO_16: int := 0x1_0000
  const TWO_31: int := 0x8000_0000
  const TWO_32: int := 0x1_0000_0000

  /** C#'s unchecked narrowing of an integer to `int` (two's complement wrap-around). */
  function WrapInt32(x: int): (r: int32)
    ensures -TWO_31 <= x < TWO_31 ==> r == x
    ensures (r - x) % TWO_32 == 0
  {
    var m := x % TWO_32;
    if m >= TWO_31 then m - TWO_32 else m
  }

  /** Incrementing a wrapped counter wraps the incremented count (`Count++` on an int). */
  lemma WrapInt32Succ(n: int)
    ensures WrapInt32(WrapInt32(n) + 1) == WrapInt32(n + 1)
  {
    var w := WrapInt32(n);
    assert (w + 1 - (n + 1)) % TWO_32 == 0;
  }

  /** The four bytes of an unsigned 32-bit value, least significant first. */
  function UInt32Bytes(u: uint32): (r: seq<byte>)
    ensures |r| == 4
  {
    var q1 := u / 0x100;
    var q2 := q1 / 0x100;
    [u % 0x100, q1 % 0x100, q2 % 0x100, q2 / 0x100]
  }

  /** The unsigned value of four little-endian bytes. */
  function UInt32Of(b: seq<byte>): uint32
    requires |b| == 4
  {
    b[0] as int + 0x100 * b[1] as int + 0x1_0000 * b[2] as int + 0x100_0000 * b[3] as int
  }

  lemma UInt32RoundTrip(u: uint32)
    ensures UInt32Of(UInt32Bytes(u)) == u
  {
    var q1 := u / 0x100;
    var q2 := q1 / 0x100;
    assert u == u % 0x100 + 0x100 * q1;
    assert q1 == q1 % 0x100 + 0x100 * q2;
    assert q2 == q2 % 0x100 + 0x100 * (q2 / 0x100);
  }

  /** Two's complement bytes of a signed 32-bit value (BinaryWriter.Write(int), struct "i"). */
  function Int32Bytes(v: int32): (r: seq<byte>)
    ensures |r| == 4
  {
    UInt32Bytes(if v < 0 then v + TWO_32 else v)
  }

  function Int32Of(b: seq<byte>): int32
    requires |b| == 4
  {
    var u := UInt32Of(b);
    if u >= TWO_31 then u - TWO_32 else u
  }

  lemma Int32RoundTrip(v: int32)
    ensures Int32Of(Int32Bytes(v)) == v
  {
    UInt32RoundTrip(if v < 0 then v + TWO_32 else v);
  }

  /** Two's complement bytes of a signed 16-bit value (BinaryWriter.Write(short), struct "h"). */
  function Int16Bytes(v: int16): (r: seq<byte>)
    ensures |r| == 2
  {
    var u := if v < 0 then v + TWO_16 else v;
    [u % 0x100, u / 0x100]
  }

  function Int16Of(b: seq<byte>): int16
    requires |b| == 2
  {
    var u := b[0] as int + 0x100 * b[1] as int;
    if u >= 0x8000 then u - TWO_16 else u
  }

  lemma Int16RoundTrip(v: int16)
    ensures Int16Of(Int16Bytes(v)) == v
  {
  }

  /**
   * A single-precision float, represented by its IEEE-754 bit pattern. Unary minus on a
   * float flips the sign bit and nothing else, so negation is exact on this representation.
   */
  type Float32 = uint32

  function Negate(f: Float32): (r: Float32)
    ensures r != f
    ensures r % TWO_31 == f % TWO_31
  {
    if f < TWO_31 then f + TWO_31 else f - TWO_31
  }

  lemma NegateInvolutive(f: Float32)
    ensures Negate(Negate(f)) == f
  {
  }

  /** BinaryWriter.Write(float) and struct "f": the bit pattern, little-endian. */
  function FloatBytes(f: Float32): (r: seq<byte>)
    ensures |r| == 4
  {
    UInt32Bytes(f)
  }

  /** BinaryWriter.Write(bool): one byte, 1 for true and 0 for false. */
  function BoolBytes(b: bool): (r: seq<byte>)
    ensures |r| == 1 && (r[0] != 0 <==> b)
  {
    if b then [1] else [0]
  }

  /** A string the signed 32-bit length prefix can describe. */
  type FStr = s: seq<byte> | |s| < TWO_31

  /**
   * The string layout both sides agree on: a signed 32-bit length followed by that many
   * bytes, with no terminator.
   */
  function FStringBytes(s: FStr): (r: seq<byte>)
    ensures |r| == 4 + |s| && r[4..] == s
  {
    Int32Bytes(|s|) + s
  }

  /** The text of a string literal as bytes (all literals used here are ASCII). */
  function Ascii(s: string): (r: seq<byte>)
    ensures |r| == |s|
  {
    seq(|s|, i requires 0 <= i < |s| => (s[i] as int) % 0x100)
  }

  /**
   * Python's `bytes.rstrip(b'\x00')`: removes every trailing NUL byte and nothing else.
   */
  function StripNuls(s: seq<byte>): (r: seq<byte>)
    ensures |r| <= |s| && r == s[..|r|]
    ensures r == [] || r[|r| - 1] != 0
    ensures forall i :: |r| <= i < |s| ==> s[i] == 0
  {
    if s == [] then []
    else if s[|s| - 1] == 0 then StripNuls(s[..|s| - 1])
    else s
  }

  /** A string survives the reader's NUL stripping exactly when it does not end in NUL. */
  lemma {:induction false} StripNulsIdentity(s: seq<byte>)
    ensures StripNuls(s) == s <==> (s == [] || s[|s| - 1] != 0)
  {
  }

  /** The two halves of a concatenation. */
  lemma SplitAt(a: seq<byte>, b: seq<byte>)
    ensures (a + b)[..|a|] == a && (a + b)[|a|..] == b
  {
  }

  /** Appending in two steps is appending the concatenation. */
  lemma AppendAssoc(a: seq<byte>, b: seq<byte>, c: seq<byte>)
    ensures (a + b) + c == a + (b + c)
  {
  }

  /** The concatenated encodings of a list of records, in list order. */
  function EncodeAll<T>(enc: T -> seq<byte>, xs: seq<T>): (r: seq<byte>)
    ensures xs == [] ==> r == []
  {
    if xs == [] then [] else EncodeAll(enc, xs[..|xs| - 1]) + enc(xs[|xs| - 1])
  }

  lemma {:induction false} EncodeAllCons<T>(enc: T -> seq<byte>, x: T, xs: seq<T>)
    ensures EncodeAll(enc, [x] + xs) == enc(x) + EncodeAll(enc, xs)
    decreases |xs|
  {
    if xs == [] {
      assert [x] + xs == [x];
      assert [x][..0] == [];
    } else {
      var ys := [x] + xs;
      assert ys[..|ys| - 1] == [x] + xs[..|xs| - 1];
      EncodeAllCons(enc, x, xs[..|xs| - 1]);
    }
  }

  /** Encoding a list record by record and appending one more record extends the bytes. */
  lemma EncodeAllSnoc<T>(enc: T -> seq<byte>, xs: seq<T>, x: T)
    ensures EncodeAll(enc, xs + [x]) == EncodeAll(enc, xs) + enc(x)
  {
    assert (xs + [x])[..|xs + [x]| - 1] == xs;
  }

  /** The encoding of a concatenation is the concatenation of the encodings. */
  lemma {:induction false} EncodeAllConcat<T>(enc: T -> seq<byte>, xs: seq<T>, ys: seq<T>)
    ensures EncodeAll(enc, xs + ys) == EncodeAll(enc, xs) + EncodeAll(enc, ys)
    decreases |ys|
  {
    if ys == [] {
      assert xs + ys == xs;
    } else {
      var init := ys[..|ys| - 1];
      var last := ys[|ys| - 1];
      assert ys == init + [last];
      assert xs + ys == (xs + init) + [last];
      EncodeAllSnoc(enc, xs + init, last);
      EncodeAllSnoc(enc, init, last);
      EncodeAllConcat(enc, xs, init);
      AppendAssoc(EncodeAll(enc, xs), EncodeAll(enc, init), enc(last));
    }
  }

  /** One more record of a list, encoded after the ones before it. */
  lemma EncodeAllPrefixStep<T>(enc: T -> seq<byte>, xs: seq<T>, i: nat)
    requires i < |xs|
    ensures EncodeAll(enc, xs[..i + 1]) == EncodeAll(enc, xs[..i]) + enc(xs[i])
  {
    assert xs[..i + 1] == xs[..i] + [xs[i]];
    EncodeAllSnoc(enc, xs[..i], xs[i]);
  }

  /** When every record has the same width, the bytes are that width times the count. */
  lemma {:induction false} EncodeAllLength<T>(enc: T -> seq<byte>, xs: seq<T>, width: nat)
    requires forall x :: x in xs ==> |enc(x)| == width
    ensures |EncodeAll(enc, xs)| == width * |xs|
    decreases |xs|
  {
    if xs != [] {
      var init := xs[..|xs| - 1];
      assert forall x :: x in init ==> x in xs;
      EncodeAllLength(enc, init, width);
      assert |EncodeAll(enc, xs)| == width * |init| + width;
      assert width * |init| + width == width * (|init| + 1);
    }
  }
}
