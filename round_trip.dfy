/**
 * The importer reads back what the exporter writes: for every primitive and record the
 * exporter serializes, the matching reader returns the written value (as the importer
 * represents it) and leaves exactly the bytes that followed.
 */
module RoundTrip {
  import opened Wrappers
  import opened Bytes
  import opened MeshData
  import opened MorphTarget
  import opened UnrealReader
  import UnrealModel

  /** `f` applied to every element, in order. */
  function Map<T, U>(f: T -> U, xs: seq<T>): (r: seq<U>)
    ensures |r| == |xs|
  {
    if xs == [] then [] else [f(xs[0])] + Map(f, xs[1..])
  }

  /** `rd` reads back what `enc` writes, as the value `f` gives, leaving whatever followed. */
  ghost predicate Inverts<T(!new), U>(rd: seq<byte> -> Option<Parsed<U>>, enc: T -> seq<byte>, f: T -> U)
  {
    forall x, t :: rd(enc(x) + t) == Some(Parsed(f(x), t))
  }

  /**
   * `read_bulk_array(len(xs), rd)` over the records of `xs` written back to back returns
   * each record's value in order and stops exactly after the last one.
   */
  lemma {:induction false} BulkRoundTrip<T(!new), U>(rd: seq<byte> -> Option<Parsed<U>>, enc: T -> seq<byte>, f: T -> U, xs: seq<T>, t: seq<byte>)
    requires Consumes(rd) && Inverts(rd, enc, f)
    ensures ReadBulk(EncodeAll(enc, xs) + t, |xs|, rd) == Some(Parsed(Map(f, xs), t))
    decreases |xs|
  {
    if xs != [] {
      var x, rest := xs[0], xs[1..];
      assert xs == [x] + rest;
      var d, d' := EncodeAll(enc, xs) + t, EncodeAll(enc, rest) + t;
      EncodeAllCons(enc, x, rest);
      AppendAssoc(enc(x), EncodeAll(enc, rest), t);
      assert d == enc(x) + d';
      assert rd(d) == Some(Parsed(f(x), d'));
      BulkRoundTrip(rd, enc, f, rest, t);
    }
  }

  // ------------------------------------------------------------------ list shapes

  lemma EncodeTwo<T>(enc: T -> seq<byte>, a: T, b: T)
    ensures EncodeAll(enc, [a, b]) == enc(a) + enc(b)
  {
    assert [a, b][..1] == [a];
    assert [a][..0] == [];
  }

  lemma EncodeThree<T>(enc: T -> seq<byte>, a: T, b: T, c: T)
    ensures EncodeAll(enc, [a, b, c]) == enc(a) + enc(b) + enc(c)
  {
    assert [a, b, c][..2] == [a, b];
    EncodeTwo(enc, a, b);
  }

  lemma EncodeFour<T>(enc: T -> seq<byte>, a: T, b: T, c: T, d: T)
    ensures EncodeAll(enc, [a, b, c, d]) == enc(a) + enc(b) + enc(c) + enc(d)
  {
    assert [a, b, c, d][..3] == [a, b, c];
    EncodeThree(enc, a, b, c);
  }

  lemma Assoc3(a: seq<byte>, b: seq<byte>, c: seq<byte>, t: seq<byte>)
    ensures a + b + c + t == a + (b + (c + t))
  {
    AppendAssoc(a + b, c, t);
    AppendAssoc(a, b, c + t);
  }

  lemma Assoc4(a: seq<byte>, b: seq<byte>, c: seq<byte>, d: seq<byte>, t: seq<byte>)
    ensures a + b + c + d + t == a + (b + (c + (d + t)))
  {
    AppendAssoc(a + b + c, d, t);
    Assoc3(a, b, c, d + t);
  }

  lemma Assoc5(a: seq<byte>, b: seq<byte>, c: seq<byte>, d: seq<byte>, e: seq<byte>, t: seq<byte>)
    ensures a + b + c + d + e + t == a + (b + (c + (d + (e + t))))
  {
    AppendAssoc(a + b + c + d, e, t);
    Assoc4(a, b, c, d, e + t);
  }

  // ------------------------------------------------------------------- primitives

  /** `struct.unpack("i", ...)` reads back `BinaryWriter.Write(int)`. */
  lemma IntRoundTrip(v: int32, t: seq<byte>)
    ensures ReadInt(Int32Bytes(v) + t) == Some(Parsed(v, t))
  {
    SplitAt(Int32Bytes(v), t);
    Int32RoundTrip(v);
  }

  /** An int written signed and read as "I" comes back as its unsigned 32-bit value. */
  function AsUnsigned(v: int32): (r: uint32)
    ensures r % TWO_32 == v % TWO_32
  {
    if v < 0 then v + TWO_32 else v
  }

  lemma UIntRoundTrip(v: int32, t: seq<byte>)
    ensures ReadUInt(Int32Bytes(v) + t) == Some(Parsed(AsUnsigned(v), t))
  {
    SplitAt(Int32Bytes(v), t);
    UInt32RoundTrip(AsUnsigned(v));
  }

  /** An unsigned int read back with "i" comes back as its two's-complement signed value. */
  function AsSigned(u: uint32): (r: int32)
    ensures r % TWO_32 == u % TWO_32
  {
    if u >= TWO_31 then u - TWO_32 else u
  }

  lemma SignedRoundTrip(u: uint32, t: seq<byte>)
    ensures ReadInt(UInt32Bytes(u) + t) == Some(Parsed(AsSigned(u), t))
  {
    SplitAt(UInt32Bytes(u), t);
    UInt32RoundTrip(u);
  }

  lemma ShortRoundTrip(v: int16, t: seq<byte>)
    ensures ReadShort(Int16Bytes(v) + t) == Some(Parsed(v, t))
  {
    SplitAt(Int16Bytes(v), t);
    Int16RoundTrip(v);
  }

  /** A float's bit pattern survives the trip unchanged. */
  lemma FloatRoundTrip(f: Float32, t: seq<byte>)
    ensures ReadFloat(FloatBytes(f) + t) == Some(Parsed(f, t))
  {
    SplitAt(FloatBytes(f), t);
    UInt32RoundTrip(f);
  }

  /** `read_fstring` reads back a written FString, minus any trailing NULs. */
  lemma FStringRoundTrip(s: FStr, t: seq<byte>)
    ensures ReadFString(FStringBytes(s) + t) == Some(Parsed(StripNuls(s), t))
  {
    AppendAssoc(Int32Bytes(|s|), s, t);
    IntRoundTrip(|s|, s + t);
    SplitAt(s, t);
  }

  function Id<T>(x: T): T
  {
    x
  }

  function ByteBytes(b: byte): seq<byte>
  {
    [b]
  }

  lemma PrimitivesInvert()
    ensures Inverts(ReadFloat, FloatBytes, Id<Float32>)
    ensures Inverts(ReadUInt, Int32Bytes, AsUnsigned)
    ensures Inverts(ReadByte, ByteBytes, Id<byte>)
    ensures Inverts(ReadFString, (s: FStr) => FStringBytes(s), (s: FStr) => StripNuls(s))
  {
    forall f: Float32, t: seq<byte> ensures ReadFloat(FloatBytes(f) + t) == Some(Parsed(Id(f), t)) {
      FloatRoundTrip(f, t);
    }
    forall v: int32, t: seq<byte> ensures ReadUInt(Int32Bytes(v) + t) == Some(Parsed(AsUnsigned(v), t)) {
      UIntRoundTrip(v, t);
    }
    forall s: FStr, t: seq<byte> ensures ReadFString(FStringBytes(s) + t) == Some(Parsed(StripNuls(s), t)) {
      FStringRoundTrip(s, t);
    }
  }

  lemma MapId<T>(xs: seq<T>)
    ensures Map(Id<T>, xs) == xs
  {
  }

  // ---------------------------------------------------------------- small vectors

  /** A vector as the importer holds it: its three components in order. */
  function VectorValue(v: FVector): seq<Float32>
  {
    [v.X, v.Y, v.Z]
  }

  function UVValue(uv: FMeshUVFloat): seq<Float32>
  {
    [uv.U, uv.V]
  }

  function QuatValue(q: FQuat): seq<Float32>
  {
    [q.X, q.Y, q.Z, q.W]
  }

  function RotatorValue(r: FRotator): seq<Float32>
  {
    [r.Pitch, r.Yaw, r.Roll]
  }

  function ColorValue(c: FColor): seq<byte>
  {
    [c.R, c.G, c.B, c.A]
  }

  /** `read_float_vector(3)` reads back a written FVector, component by component. */
  lemma VectorRoundTrip(v: FVector, t: seq<byte>)
    ensures ReadFloatVector(VectorBytes(v) + t, 3) == Some(Parsed(VectorValue(v), t))
  {
    PrimitivesInvert();
    ConsumesPrimitives();
    EncodeThree(FloatBytes, v.X, v.Y, v.Z);
    BulkRoundTrip(ReadFloat, FloatBytes, Id<Float32>, VectorValue(v), t);
    MapId(VectorValue(v));
  }

  lemma UVRoundTrip(uv: FMeshUVFloat, t: seq<byte>)
    ensures ReadFloatVector(UVBytes(uv) + t, 2) == Some(Parsed(UVValue(uv), t))
  {
    PrimitivesInvert();
    ConsumesPrimitives();
    EncodeTwo(FloatBytes, uv.U, uv.V);
    BulkRoundTrip(ReadFloat, FloatBytes, Id<Float32>, UVValue(uv), t);
    MapId(UVValue(uv));
  }

  lemma QuatRoundTrip(q: FQuat, t: seq<byte>)
    ensures ReadFloatVector(QuatBytes(q) + t, 4) == Some(Parsed(QuatValue(q), t))
  {
    PrimitivesInvert();
    ConsumesPrimitives();
    EncodeFour(FloatBytes, q.X, q.Y, q.Z, q.W);
    BulkRoundTrip(ReadFloat, FloatBytes, Id<Float32>, QuatValue(q), t);
    MapId(QuatValue(q));
  }

  lemma RotatorRoundTrip(r: FRotator, t: seq<byte>)
    ensures ReadFloatVector(RotatorBytes(r) + t, 3) == Some(Parsed(RotatorValue(r), t))
  {
    PrimitivesInvert();
    ConsumesPrimitives();
    EncodeThree(FloatBytes, r.Pitch, r.Yaw, r.Roll);
    BulkRoundTrip(ReadFloat, FloatBytes, Id<Float32>, RotatorValue(r), t);
    MapId(RotatorValue(r));
  }

  /** `read_byte_vector(4)` reads the colour's four bytes in the order they were written. */
  lemma ColorRoundTrip(c: FColor, t: seq<byte>)
    ensures ReadColor(ColorBytes(c) + t) == Some(Parsed(ColorValue(c), t))
  {
    PrimitivesInvert();
    ConsumesPrimitives();
    EncodeFour(ByteBytes, c.R, c.G, c.B, c.A);
    assert ColorBytes(c) == ByteBytes(c.R) + ByteBytes(c.G) + ByteBytes(c.B) + ByteBytes(c.A);
    BulkRoundTrip(ReadByte, ByteBytes, Id<byte>, ColorValue(c), t);
    MapId(ColorValue(c));
  }

  // ---------------------------------------------------------------------- records

  /** A WEIGHTS record as the importer holds it: the same three fields. */
  function WeightValue(w: UnrealModel.WeightRecord): WeightRec
  {
    WeightRec(w.BoneIndex, w.VertexIndex, w.Weight)
  }

  lemma WeightRoundTrip(w: UnrealModel.WeightRecord, t: seq<byte>)
    ensures ReadWeight(UnrealModel.WeightBytes(w) + t) == Some(Parsed(WeightValue(w), t))
  {
    Assoc3(Int16Bytes(w.BoneIndex), Int32Bytes(w.VertexIndex), FloatBytes(w.Weight), t);
    ShortRoundTrip(w.BoneIndex, Int32Bytes(w.VertexIndex) + (FloatBytes(w.Weight) + t));
    IntRoundTrip(w.VertexIndex, FloatBytes(w.Weight) + t);
    FloatRoundTrip(w.Weight, t);
  }

  /** A bone as imported: name, parent, and the transform as the exporter converted it. */
  function BoneValue(b: UnrealModel.CSkelMeshBone): BoneRec
  {
    BoneRec(StripNuls(b.Name), b.ParentIndex, VectorValue(FlipY(b.Position)), QuatValue(FlipYW(b.Orientation)))
  }

  lemma BoneRoundTrip(b: UnrealModel.CSkelMeshBone, t: seq<byte>)
    ensures ReadBone(UnrealModel.BoneBytes(b) + t) == Some(Parsed(BoneValue(b), t))
  {
    var pos, rot := VectorBytes(FlipY(b.Position)), QuatBytes(FlipYW(b.Orientation));
    Assoc4(FStringBytes(b.Name), Int32Bytes(b.ParentIndex), pos, rot, t);
    FStringRoundTrip(b.Name, Int32Bytes(b.ParentIndex) + (pos + (rot + t)));
    IntRoundTrip(b.ParentIndex, pos + (rot + t));
    VectorRoundTrip(FlipY(b.Position), rot + t);
    QuatRoundTrip(FlipYW(b.Orientation), t);
  }

  /** One morph delta as imported; the unsigned vertex index comes back through "i". */
  function MorphDataValue(m: FMorphData): MorphTargetDataRec
  {
    MorphTargetDataRec(VectorValue(m.PositionDelta), VectorValue(m.TangentZDelta), AsSigned(m.VertexIndex))
  }

  lemma MorphDataRoundTrip(m: FMorphData, t: seq<byte>)
    ensures ReadMorphTargetData(MorphDataBytes(m) + t) == Some(Parsed(MorphDataValue(m), t))
  {
    var pos, tan, idx := VectorBytes(m.PositionDelta), VectorBytes(m.TangentZDelta), UInt32Bytes(m.VertexIndex);
    Assoc3(pos, tan, idx, t);
    VectorRoundTrip(m.PositionDelta, tan + (idx + t));
    VectorRoundTrip(m.TangentZDelta, idx + t);
    SignedRoundTrip(m.VertexIndex, t);
  }

  /** A serialized morph target as imported: its name and one record per delta of the LOD. */
  function LoadedMorphValue(m: UnrealModel.LoadedMorph): MorphTargetRec
  {
    MorphTargetRec(StripNuls(m.Name), Map(MorphDataValue, UnrealModel.MorphDataList(m.Lod)))
  }

  lemma MorphTargetRoundTrip(m: UnrealModel.LoadedMorph, t: seq<byte>)
    ensures ReadMorphTarget(UnrealModel.LoadedMorphBytes(m) + t) == Some(Parsed(LoadedMorphValue(m), t))
  {
    var data := UnrealModel.MorphDataList(m.Lod);
    var body := EncodeAll(MorphDataBytes, data);
    Assoc3(FStringBytes(m.Name), Int32Bytes(|m.Lod|), body, t);
    FStringRoundTrip(m.Name, Int32Bytes(|m.Lod|) + (body + t));
    IntRoundTrip(|m.Lod|, body + t);
    forall d: FMorphData, t': seq<byte> ensures ReadMorphTargetData(MorphDataBytes(d) + t') == Some(Parsed(MorphDataValue(d), t')) {
      MorphDataRoundTrip(d, t');
    }
    ConsumesRecords();
    BulkRoundTrip(ReadMorphTargetData, MorphDataBytes, MorphDataValue, data, t);
  }

  /** A socket as imported: both names, then location, rotation and scale as converted. */
  function SocketValue(s: UnrealModel.USkeletalMeshSocket): SocketRec
  {
    SocketRec(StripNuls(s.SocketName), StripNuls(s.BoneName), VectorValue(FlipY(s.RelativeLocation)),
      RotatorValue(FlipYaw(s.RelativeRotation)), VectorValue(FlipY(s.RelativeScale)))
  }

  lemma SocketRoundTrip(s: UnrealModel.USkeletalMeshSocket, t: seq<byte>)
    ensures ReadSocket(UnrealModel.SocketBytes(s) + t) == Some(Parsed(SocketValue(s), t))
  {
    var name, bone := FStringBytes(s.SocketName), FStringBytes(s.BoneName);
    var loc, rot, scale := VectorBytes(FlipY(s.RelativeLocation)), RotatorBytes(FlipYaw(s.RelativeRotation)), VectorBytes(FlipY(s.RelativeScale));
    AppendAssoc(name + bone, loc + rot, scale);
    AppendAssoc(name + bone, loc, rot);
    assert UnrealModel.SocketBytes(s) == name + bone + loc + rot + scale;
    Assoc5(name, bone, loc, rot, scale, t);
    FStringRoundTrip(s.SocketName, bone + (loc + (rot + (scale + t))));
    FStringRoundTrip(s.BoneName, loc + (rot + (scale + t)));
    VectorRoundTrip(FlipY(s.RelativeLocation), rot + (scale + t));
    RotatorRoundTrip(FlipYaw(s.RelativeRotation), scale + t);
    VectorRoundTrip(FlipY(s.RelativeScale), t);
  }
}
