/**
 * FMorphTarget: one morph target of one LOD, as written into the MORPHTARGETS chunk. Each
 * delta is converted on construction (Y of both vectors negated) and the record is
 * serialized as name, vertex count, then the deltas.
 */
module MorphTarget {
  import opened Bytes
  import opened MeshData
  import opened ArchiveWriter

  /** One vertex delta of FMorphTargetLODModel.Vertices. */
  datatype FMorphTargetDelta = FMorphTargetDelta(PositionDelta: FVector, TangentZDelta: FVector, SourceIdx: uint32)

  /** FMorphData: a delta converted to the interchange handedness. */
  datatype FMorphData = FMorphData(PositionDelta: FVector, TangentZDelta: FVector, VertexIndex: uint32)

  function MorphDataOf(d: FMorphTargetDelta): (r: FMorphData)
    ensures r.PositionDelta == FVector(d.PositionDelta.X, Negate(d.PositionDelta.Y), d.PositionDelta.Z)
    ensures r.TangentZDelta == FVector(d.TangentZDelta.X, Negate(d.TangentZDelta.Y), d.TangentZDelta.Z)
    ensures r.VertexIndex == d.SourceIdx
  {
    FMorphData(FlipY(d.PositionDelta), FlipY(d.TangentZDelta), d.SourceIdx)
  }

  function MorphDataBytes(m: FMorphData): (r: seq<byte>)
    ensures |r| == 28
  {
    VectorBytes(m.PositionDelta) + VectorBytes(m.TangentZDelta) + UInt32Bytes(m.VertexIndex)
  }

  class FMorphTarget {
    const MorphName: seq<byte>
    var MorphData: seq<FMorphData>
    const VertexCount: int32

    /** Converts every delta of the LOD, in order. */
    constructor (morphName: seq<byte>, vertices: seq<FMorphTargetDelta>)
      requires |vertices| < TWO_31
      ensures MorphName == morphName && VertexCount == |vertices|
      ensures |MorphData| == |vertices|
      ensures forall i :: 0 <= i < |vertices| ==> MorphData[i] == MorphDataOf(vertices[i])
    {
      MorphName := morphName;
      VertexCount := |vertices|;
      MorphData := [];
      new;
      var i := 0;
      while i < |vertices|
        invariant 0 <= i <= |vertices|
        invariant |MorphData| == i
        invariant forall j :: 0 <= j < i ==> MorphData[j] == MorphDataOf(vertices[j])
      {
        MorphData := MorphData + [MorphDataOf(vertices[i])];
        i := i + 1;
      }
    }

    /** Name, vertex count, then each record; the target itself is left as it was. */
    method Serialize(ar: FArchiveWriter)
      requires ar.Valid() && |MorphName| < TWO_31
      modifies ar
      ensures ar.Valid()
      ensures ar.buffer == old(ar.buffer) + MorphTargetBytes(MorphName, VertexCount, MorphData)
    {
      ghost var start := ar.buffer;
      ar.WriteFString(MorphName);
      ar.WriteInt32(VertexCount);
      AppendAssoc(start, FStringBytes(MorphName), Int32Bytes(VertexCount));
      WriteEach(ar, MorphDataBytes, MorphData);
      AppendAssoc(start, FStringBytes(MorphName) + Int32Bytes(VertexCount), EncodeAll(MorphDataBytes, MorphData));
    }
  }

  function MorphTargetBytes(name: seq<byte>, count: int32, data: seq<FMorphData>): seq<byte>
    requires |name| < TWO_31
  {
    FStringBytes(name) + Int32Bytes(count) + EncodeAll(MorphDataBytes, data)
  }
}
