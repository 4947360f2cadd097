/**
 * Importing what the mesh exporter writes: every chunk the exporter flushes is read by
 * `import_umodel_data` into the list its tag names, so a static mesh, and a skeletal mesh
 * written with consistent counts, come back whole. Two lemmas show where the skeletal
 * serializer as written breaks the reader.
 */
module MeshRoundTrip {
  import opened Wrappers
  import opened Bytes
  import opened MeshData
  import opened MorphTarget
  import opened UnrealReader
  import opened DataChunk
  import opened RoundTrip
  import UnrealModel

  /** No tag ends in NUL, and the dispatch tells each tag apart from those tested before it. */
  lemma TagFacts()
    ensures StripNuls(VERTICES) == VERTICES && StripNuls(NORMALS) == NORMALS && StripNuls(TANGENTS) == TANGENTS
    ensures StripNuls(TEXCOORDS) == TEXCOORDS && StripNuls(INDICES) == INDICES && StripNuls(VERTEXCOLORS) == VERTEXCOLORS
    ensures StripNuls(MATERIALS) == MATERIALS && StripNuls(WEIGHTS) == WEIGHTS && StripNuls(BONES) == BONES
    ensures StripNuls(MORPHTARGETS) == MORPHTARGETS && StripNuls(SOCKETS) == SOCKETS
    ensures VERTICES != INDICES && VERTICES != NORMALS && VERTICES != TANGENTS && VERTICES != VERTEXCOLORS
    ensures VERTICES != TEXCOORDS && VERTICES != MATERIALS && VERTICES != WEIGHTS && VERTICES != BONES
    ensures VERTICES != MORPHTARGETS && VERTICES != SOCKETS
    ensures INDICES != NORMALS && INDICES != TANGENTS && INDICES != VERTEXCOLORS && INDICES != TEXCOORDS
    ensures INDICES != MATERIALS && INDICES != WEIGHTS && INDICES != BONES && INDICES != MORPHTARGETS && INDICES != SOCKETS
    ensures NORMALS != TANGENTS && NORMALS != VERTEXCOLORS && NORMALS != TEXCOORDS && NORMALS != MATERIALS
    ensures NORMALS != WEIGHTS && NORMALS != BONES && NORMALS != MORPHTARGETS && NORMALS != SOCKETS
    ensures TANGENTS != VERTEXCOLORS && TANGENTS != TEXCOORDS && TANGENTS != MATERIALS && TANGENTS != WEIGHTS
    ensures TANGENTS != BONES && TANGENTS != MORPHTARGETS && TANGENTS != SOCKETS
    ensures VERTEXCOLORS != TEXCOORDS && VERTEXCOLORS != MATERIALS && VERTEXCOLORS != WEIGHTS
    ensures VERTEXCOLORS != BONES && VERTEXCOLORS != MORPHTARGETS && VERTEXCOLORS != SOCKETS
    ensures TEXCOORDS != MATERIALS && TEXCOORDS != WEIGHTS && TEXCOORDS != BONES && TEXCOORDS != MORPHTARGETS && TEXCOORDS != SOCKETS
    ensures MATERIALS != WEIGHTS && MATERIALS != BONES && MATERIALS != MORPHTARGETS && MATERIALS != SOCKETS
    ensures WEIGHTS != BONES && WEIGHTS != MORPHTARGETS && WEIGHTS != SOCKETS
    ensures BONES != MORPHTARGETS && BONES != SOCKETS && MORPHTARGETS != SOCKETS
  {
    assert VERTICES[0] == 86 && VERTICES[7] == 83;
    assert NORMALS[0] == 78 && NORMALS[6] == 83;
    assert TANGENTS[0] == 84 && TANGENTS[7] == 83;
    assert TEXCOORDS[0] == 84 && TEXCOORDS[8] == 83;
    assert INDICES[0] == 73 && INDICES[6] == 83;
    assert VERTEXCOLORS[0] == 86 && VERTEXCOLORS[11] == 83;
    assert MATERIALS[0] == 77 && MATERIALS[8] == 83;
    assert WEIGHTS[0] == 87 && WEIGHTS[6] == 83;
    assert BONES[0] == 66 && BONES[4] == 83;
    assert MORPHTARGETS[0] == 77 && MORPHTARGETS[11] == 83;
    assert SOCKETS[0] == 83 && SOCKETS[6] == 83;
    StripNulsIdentity(VERTICES);
    StripNulsIdentity(NORMALS);
    StripNulsIdentity(TANGENTS);
    StripNulsIdentity(TEXCOORDS);
    StripNulsIdentity(INDICES);
    StripNulsIdentity(VERTEXCOLORS);
    StripNulsIdentity(MATERIALS);
    StripNulsIdentity(WEIGHTS);
    StripNulsIdentity(BONES);
    StripNulsIdentity(MORPHTARGETS);
    StripNulsIdentity(SOCKETS);
  }

  /** The header the reader sees in front of a written chunk. */
  function HeaderOf(c: FDataChunk): ChunkHeader
  {
    ChunkHeader(StripNuls(c.Tag), c.Count, WrapInt32(|c.Body|))
  }

  /** A written chunk's tag, count and size read back, leaving its payload at the front. */
  lemma ChunkHeaderRoundTrip(c: FDataChunk, t: seq<byte>)
    ensures ReadChunkHeader(ChunkBytesOf(c) + t) == Some(Parsed(HeaderOf(c), c.Body + t))
  {
    var size := WrapInt32(|c.Body|);
    Assoc4(FStringBytes(c.Tag), Int32Bytes(c.Count), Int32Bytes(size), c.Body, t);
    FStringRoundTrip(c.Tag, Int32Bytes(c.Count) + (Int32Bytes(size) + (c.Body + t)));
    IntRoundTrip(c.Count, Int32Bytes(size) + (c.Body + t));
    IntRoundTrip(size, c.Body + t);
  }

  /** One loop pass: the chunk's header, then whatever its payload read leaves. */
  lemma ChunkStep(c: FDataChunk, after: seq<byte>, m: UModel, p: Parsed<UModel>)
    requires UModelPayload(HeaderOf(c), c.Body + after, m) == Some(p)
    ensures UModelChunks(ChunkBytesOf(c) + after, m) == UModelChunks(p.rest, p.value)
  {
    var d := ChunkBytesOf(c) + after;
    ChunkHeaderRoundTrip(c, after);
    assert UModelChunk(d, m) == Some(p);
  }

  /** One loop pass consumes a chunk whose payload the dispatch reads exactly. */
  lemma ReadsChunk(c: FDataChunk, t: seq<byte>, m: UModel, m': UModel)
    requires UModelPayload(HeaderOf(c), c.Body + t, m) == Some(Parsed(m', t))
    ensures UModelChunks(ChunkBytesOf(c) + t, m) == UModelChunks(t, m')
  {
    var d := ChunkBytesOf(c) + t;
    ChunkHeaderRoundTrip(c, t);
    assert UModelChunk(d, m) == Some(Parsed(m', t));
  }

  // --------------------------------------------------------------- static chunks

  function PositionValue(v: CMeshVertex): seq<Float32>
  {
    VectorValue(FlipY(v.Position))
  }

  function NormalValue(normalize: FVector -> FVector): CMeshVertex -> seq<Float32>
  {
    (v: CMeshVertex) => VectorValue(FlipY(normalize(v.Normal)))
  }

  function TangentValue(normalize: FVector -> FVector): CMeshVertex -> seq<Float32>
  {
    (v: CMeshVertex) => VectorValue(FlipY(normalize(v.Tangent)))
  }

  function TexCoordValue(v: CMeshVertex): seq<Float32>
  {
    UVValue(FlipV(v.UV))
  }

  function MaterialValue(m: Option<FStr>): seq<byte>
  {
    StripNuls(UnrealModel.MaterialName(m))
  }

  /** Every static encoder is read back by the reader its chunk's tag selects. */
  lemma StaticEncodersInvert(normalize: FVector -> FVector)
    ensures Inverts(ReadVector3, UnrealModel.PositionBytes, PositionValue)
    ensures Inverts(ReadVector3, UnrealModel.NormalEncoder(normalize), NormalValue(normalize))
    ensures Inverts(ReadVector3, UnrealModel.TangentEncoder(normalize), TangentValue(normalize))
    ensures Inverts(ReadUV, UnrealModel.TexCoordBytes, TexCoordValue)
    ensures Inverts(ReadColor, ColorBytes, ColorValue)
    ensures Inverts(ReadFString, UnrealModel.MaterialBytes, MaterialValue)
  {
    forall v: CMeshVertex, t: seq<byte> ensures ReadVector3(UnrealModel.PositionBytes(v) + t) == Some(Parsed(PositionValue(v), t)) {
      VectorRoundTrip(FlipY(v.Position), t);
    }
    forall v: CMeshVertex, t: seq<byte> ensures ReadVector3(UnrealModel.NormalEncoder(normalize)(v) + t) == Some(Parsed(NormalValue(normalize)(v), t)) {
      VectorRoundTrip(FlipY(normalize(v.Normal)), t);
    }
    forall v: CMeshVertex, t: seq<byte> ensures ReadVector3(UnrealModel.TangentEncoder(normalize)(v) + t) == Some(Parsed(TangentValue(normalize)(v), t)) {
      VectorRoundTrip(FlipY(normalize(v.Tangent)), t);
    }
    forall v: CMeshVertex, t: seq<byte> ensures ReadUV(UnrealModel.TexCoordBytes(v) + t) == Some(Parsed(TexCoordValue(v), t)) {
      UVRoundTrip(FlipV(v.UV), t);
    }
    forall c: FColor, t: seq<byte> ensures ReadColor(ColorBytes(c) + t) == Some(Parsed(ColorValue(c), t)) {
      ColorRoundTrip(c, t);
    }
    forall m: Option<FStr>, t: seq<byte> ensures ReadFString(UnrealModel.MaterialBytes(m) + t) == Some(Parsed(MaterialValue(m), t)) {
      FStringRoundTrip(UnrealModel.MaterialName(m), t);
    }
  }

  lemma VerticesChunk(verts: seq<CMeshVertex>, t: seq<byte>, m: UModel)
    requires |verts| < TWO_31
    ensures UModelChunks(ChunkBytesOf(FDataChunk(VERTICES, |verts|, EncodeAll(UnrealModel.PositionBytes, verts))) + t, m)
         == UModelChunks(t, m.(Vertices := Map(PositionValue, verts)))
  {
    TagFacts();
    StaticEncodersInvert(x => x);
    ConsumesChunkRecords();
    BulkRoundTrip(ReadVector3, UnrealModel.PositionBytes, PositionValue, verts, t);
    ReadsChunk(FDataChunk(VERTICES, |verts|, EncodeAll(UnrealModel.PositionBytes, verts)), t, m, m.(Vertices := Map(PositionValue, verts)));
  }

  lemma NormalsChunk(verts: seq<CMeshVertex>, normalize: FVector -> FVector, t: seq<byte>, m: UModel)
    requires |verts| < TWO_31
    ensures UModelChunks(ChunkBytesOf(FDataChunk(NORMALS, |verts|, EncodeAll(UnrealModel.NormalEncoder(normalize), verts))) + t, m)
         == UModelChunks(t, m.(Normals := Map(NormalValue(normalize), verts)))
  {
    TagFacts();
    StaticEncodersInvert(normalize);
    ConsumesChunkRecords();
    BulkRoundTrip(ReadVector3, UnrealModel.NormalEncoder(normalize), NormalValue(normalize), verts, t);
    ReadsChunk(FDataChunk(NORMALS, |verts|, EncodeAll(UnrealModel.NormalEncoder(normalize), verts)), t, m, m.(Normals := Map(NormalValue(normalize), verts)));
  }

  lemma TangentsChunk(verts: seq<CMeshVertex>, normalize: FVector -> FVector, t: seq<byte>, m: UModel)
    requires |verts| < TWO_31
    ensures UModelChunks(ChunkBytesOf(FDataChunk(TANGENTS, |verts|, EncodeAll(UnrealModel.TangentEncoder(normalize), verts))) + t, m)
         == UModelChunks(t, m.(Tangents := Map(TangentValue(normalize), verts)))
  {
    TagFacts();
    StaticEncodersInvert(normalize);
    ConsumesChunkRecords();
    BulkRoundTrip(ReadVector3, UnrealModel.TangentEncoder(normalize), TangentValue(normalize), verts, t);
    ReadsChunk(FDataChunk(TANGENTS, |verts|, EncodeAll(UnrealModel.TangentEncoder(normalize), verts)), t, m, m.(Tangents := Map(TangentValue(normalize), verts)));
  }

  lemma TexCoordsChunk(verts: seq<CMeshVertex>, t: seq<byte>, m: UModel)
    requires |verts| < TWO_31
    ensures UModelChunks(ChunkBytesOf(FDataChunk(TEXCOORDS, |verts|, EncodeAll(UnrealModel.TexCoordBytes, verts))) + t, m)
         == UModelChunks(t, m.(UVs := Map(TexCoordValue, verts)))
  {
    TagFacts();
    StaticEncodersInvert(x => x);
    ConsumesChunkRecords();
    BulkRoundTrip(ReadUV, UnrealModel.TexCoordBytes, TexCoordValue, verts, t);
    ReadsChunk(FDataChunk(TEXCOORDS, |verts|, EncodeAll(UnrealModel.TexCoordBytes, verts)), t, m, m.(UVs := Map(TexCoordValue, verts)));
  }

  /** The index list regrouped the way the importer reads it: unsigned triples in order. */
  function Triangles(indices: seq<int32>): (r: seq<seq<uint32>>)
    requires |indices| % 3 == 0
    ensures |r| == |indices| / 3
    decreases |indices|
  {
    if indices == [] then [] else [Map(AsUnsigned, indices[..3])] + Triangles(indices[3..])
  }

  /** Triangle k of the import holds indices 3k, 3k+1 and 3k+2, each as unsigned. */
  lemma {:induction false} TrianglesAt(indices: seq<int32>, k: nat)
    requires |indices| % 3 == 0 && k < |indices| / 3
    ensures Triangles(indices)[k] == [AsUnsigned(indices[3 * k]), AsUnsigned(indices[3 * k + 1]), AsUnsigned(indices[3 * k + 2])]
    decreases k
  {
    if k == 0 {
      var tri := indices[..3];
      assert Map(AsUnsigned, tri) == [AsUnsigned(tri[0])] + Map(AsUnsigned, tri[1..]);
      assert Map(AsUnsigned, tri[1..]) == [AsUnsigned(tri[1])] + Map(AsUnsigned, tri[2..]);
      assert Map(AsUnsigned, tri[2..]) == [AsUnsigned(tri[2])] + Map(AsUnsigned, tri[3..]);
    } else {
      TrianglesAt(indices[3..], k - 1);
      assert indices[3..][3 * (k - 1)] == indices[3 * k];
      assert indices[3..][3 * (k - 1) + 1] == indices[3 * k + 1];
      assert indices[3..][3 * (k - 1) + 2] == indices[3 * k + 2];
    }
  }

  /** INDICES' payload, one int per index, read a third of the count as triangles. */
  lemma {:induction false} TrianglesRoundTrip(indices: seq<int32>, t: seq<byte>)
    requires |indices| % 3 == 0
    ensures ReadBulk(EncodeAll(Int32Bytes, indices) + t, |indices| / 3, ReadTriangle) == Some(Parsed(Triangles(indices), t))
    decreases |indices|
  {
    ConsumesChunkRecords();
    if indices != [] {
      var tri, rest := indices[..3], indices[3..];
      assert indices == tri + rest;
      TriangleStep(tri, rest, t);
      TrianglesRoundTrip(rest, t);
      assert |rest| / 3 == |indices| / 3 - 1;
      assert Triangles(indices) == [Map(AsUnsigned, tri)] + Triangles(rest);
    }
  }

  /** The first triangle of a written index list. */
  lemma TriangleStep(tri: seq<int32>, rest: seq<int32>, t: seq<byte>)
    requires |tri| == 3
    ensures ReadTriangle(EncodeAll(Int32Bytes, tri + rest) + t) == Some(Parsed(Map(AsUnsigned, tri), EncodeAll(Int32Bytes, rest) + t))
  {
    EncodeAllConcat(Int32Bytes, tri, rest);
    AppendAssoc(EncodeAll(Int32Bytes, tri), EncodeAll(Int32Bytes, rest), t);
    PrimitivesInvert();
    ConsumesPrimitives();
    BulkRoundTrip(ReadUInt, Int32Bytes, AsUnsigned, tri, EncodeAll(Int32Bytes, rest) + t);
  }

  lemma IndicesChunk(indices: seq<int32>, t: seq<byte>, m: UModel)
    requires |indices| < TWO_31 && |indices| % 3 == 0
    ensures UModelChunks(ChunkBytesOf(FDataChunk(INDICES, |indices|, EncodeAll(Int32Bytes, indices))) + t, m)
         == UModelChunks(t, m.(Indices := Triangles(indices)))
  {
    TagFacts();
    ConsumesChunkRecords();
    TrianglesRoundTrip(indices, t);
    assert TriangleCount(|indices|) == |indices| / 3;
    ReadsChunk(FDataChunk(INDICES, |indices|, EncodeAll(Int32Bytes, indices)), t, m, m.(Indices := Triangles(indices)));
  }

  lemma ColorsChunk(colors: seq<FColor>, t: seq<byte>, m: UModel)
    requires |colors| < TWO_31
    ensures UModelChunks(ChunkBytesOf(FDataChunk(VERTEXCOLORS, |colors|, EncodeAll(ColorBytes, colors))) + t, m)
         == UModelChunks(t, m.(Colors := Map(ColorValue, colors)))
  {
    TagFacts();
    StaticEncodersInvert(x => x);
    ConsumesChunkRecords();
    BulkRoundTrip(ReadColor, ColorBytes, ColorValue, colors, t);
    ReadsChunk(FDataChunk(VERTEXCOLORS, |colors|, EncodeAll(ColorBytes, colors)), t, m, m.(Colors := Map(ColorValue, colors)));
  }

  lemma MaterialsChunk(materials: seq<Option<FStr>>, t: seq<byte>, m: UModel)
    requires |materials| < TWO_31
    ensures UModelChunks(ChunkBytesOf(FDataChunk(MATERIALS, |materials|, EncodeAll(UnrealModel.MaterialBytes, materials))) + t, m)
         == UModelChunks(t, m.(Materials := Map(MaterialValue, materials)))
  {
    TagFacts();
    StaticEncodersInvert(x => x);
    ConsumesChunkRecords();
    BulkRoundTrip(ReadFString, UnrealModel.MaterialBytes, MaterialValue, materials, t);
    ReadsChunk(FDataChunk(MATERIALS, |materials|, EncodeAll(UnrealModel.MaterialBytes, materials)), t, m, m.(Materials := Map(MaterialValue, materials)));
  }

  /** The optional VERTEXCOLORS chunk: read when present, and the colours left alone otherwise. */
  lemma ColorPart(colors: Option<seq<FColor>>, t: seq<byte>, m: UModel)
    requires colors.Some? ==> |colors.value| < TWO_31
    ensures var part := if colors.Some? then [FDataChunk(VERTEXCOLORS, |colors.value|, EncodeAll(ColorBytes, colors.value))] else [];
      UModelChunks(EncodeAll(ChunkBytesOf, part) + t, m)
      == UModelChunks(t, if colors.Some? then m.(Colors := Map(ColorValue, colors.value)) else m)
  {
    if colors.Some? {
      var c := FDataChunk(VERTEXCOLORS, |colors.value|, EncodeAll(ColorBytes, colors.value));
      assert EncodeAll(ChunkBytesOf, [c]) == ChunkBytesOf(c) by {
        assert [c][..0] == [];
      }
      ColorsChunk(colors.value, t, m);
    } else {
      assert [] + t == t;
    }
  }

  /** The four per-vertex chunks, read one after another. */
  lemma VertexChunks(verts: seq<CMeshVertex>, normalize: FVector -> FVector, t: seq<byte>, m: UModel)
    requires |verts| < TWO_31
    ensures UModelChunks(EncodeAll(ChunkBytesOf, UnrealModel.VertexChunkList(verts, normalize)) + t, m)
         == UModelChunks(t, m.(Vertices := Map(PositionValue, verts), Normals := Map(NormalValue(normalize), verts),
                               Tangents := Map(TangentValue(normalize), verts), UVs := Map(TexCoordValue, verts)))
  {
    var list := UnrealModel.VertexChunkList(verts, normalize);
    EncodeFour(ChunkBytesOf, list[0], list[1], list[2], list[3]);
    Assoc4(ChunkBytesOf(list[0]), ChunkBytesOf(list[1]), ChunkBytesOf(list[2]), ChunkBytesOf(list[3]), t);
    var t3 := ChunkBytesOf(list[3]) + t;
    var t2 := ChunkBytesOf(list[2]) + t3;
    var t1 := ChunkBytesOf(list[1]) + t2;
    var m1 := m.(Vertices := Map(PositionValue, verts));
    var m2 := m1.(Normals := Map(NormalValue(normalize), verts));
    var m3 := m2.(Tangents := Map(TangentValue(normalize), verts));
    VerticesChunk(verts, t1, m);
    NormalsChunk(verts, normalize, t2, m1);
    TangentsChunk(verts, normalize, t3, m2);
    TexCoordsChunk(verts, t, m3);
  }

  /** What the importer holds after the static chunks: each of their lists as written, converted. */
  function StaticImported(m: UModel, verts: seq<CMeshVertex>, indices: seq<int32>, colors: Option<seq<FColor>>, materials: seq<Option<FStr>>, normalize: FVector -> FVector): UModel
    requires |indices| % 3 == 0
  {
    m.(Vertices := Map(PositionValue, verts), Normals := Map(NormalValue(normalize), verts),
       Tangents := Map(TangentValue(normalize), verts), UVs := Map(TexCoordValue, verts),
       Indices := Triangles(indices),
       Colors := if colors.Some? then Map(ColorValue, colors.value) else m.Colors,
       Materials := Map(MaterialValue, materials))
  }

  lemma FourPieces(a: seq<byte>, b: seq<byte>, c: seq<byte>, d: seq<byte>, t: seq<byte>)
    ensures ((a + b) + c) + d + t == a + (b + (c + (d + t)))
  {
    Assoc4(a, b, c, d, t);
  }

  /**
   * The static chunks the exporter flushes are read back in order: vertices, normals,
   * tangents and UVs per vertex, the indices as triangles, the colours when there are any,
   * and the material names.
   */
  lemma StaticChunksRoundTrip(verts: seq<CMeshVertex>, indices: seq<int32>, colors: Option<seq<FColor>>, materials: seq<Option<FStr>>, normalize: FVector -> FVector, t: seq<byte>, m: UModel)
    requires UnrealModel.StaticSizesOk(verts, indices, colors, materials) && |indices| % 3 == 0
    ensures UModelChunks(EncodeAll(ChunkBytesOf, UnrealModel.StaticMeshChunks(verts, indices, colors, materials, normalize)) + t, m)
         == UModelChunks(t, StaticImported(m, verts, indices, colors, materials, normalize))
  {
    var vl := UnrealModel.VertexChunkList(verts, normalize);
    var ci := FDataChunk(INDICES, |indices|, EncodeAll(Int32Bytes, indices));
    var cp := if colors.Some? then [FDataChunk(VERTEXCOLORS, |colors.value|, EncodeAll(ColorBytes, colors.value))] else [];
    var cm := FDataChunk(MATERIALS, |materials|, EncodeAll(UnrealModel.MaterialBytes, materials));
    EncodeAllSnoc(ChunkBytesOf, vl, ci);
    EncodeAllConcat(ChunkBytesOf, vl + [ci], cp);
    EncodeAllSnoc(ChunkBytesOf, vl + [ci] + cp, cm);
    FourPieces(EncodeAll(ChunkBytesOf, vl), ChunkBytesOf(ci), EncodeAll(ChunkBytesOf, cp), ChunkBytesOf(cm), t);
    var t3 := ChunkBytesOf(cm) + t;
    var t2 := EncodeAll(ChunkBytesOf, cp) + t3;
    var t1 := ChunkBytesOf(ci) + t2;
    var m1 := m.(Vertices := Map(PositionValue, verts), Normals := Map(NormalValue(normalize), verts),
                 Tangents := Map(TangentValue(normalize), verts), UVs := Map(TexCoordValue, verts));
    var m2 := m1.(Indices := Triangles(indices));
    var m3 := if colors.Some? then m2.(Colors := Map(ColorValue, colors.value)) else m2;
    VertexChunks(verts, normalize, t1, m);
    IndicesChunk(indices, t2, m1);
    ColorPart(colors, t3, m2);
    MaterialsChunk(materials, t, m3);
  }

  /**
   * A static mesh survives export and import: the chunks of `NewStaticModel`'s body, read
   * from the start with an empty model, give back every list the exporter wrote.
   */
  lemma StaticMeshRoundTrip(verts: seq<CMeshVertex>, indices: seq<int32>, colors: Option<seq<FColor>>, materials: seq<Option<FStr>>, normalize: FVector -> FVector)
    requires UnrealModel.StaticSizesOk(verts, indices, colors, materials) && |indices| % 3 == 0
    ensures UModelChunks(EncodeAll(ChunkBytesOf, UnrealModel.StaticMeshChunks(verts, indices, colors, materials, normalize)), EmptyUModel)
         == Some(StaticImported(EmptyUModel, verts, indices, colors, materials, normalize))
  {
    var body := EncodeAll(ChunkBytesOf, UnrealModel.StaticMeshChunks(verts, indices, colors, materials, normalize));
    assert body + [] == body;
    StaticChunksRoundTrip(verts, indices, colors, materials, normalize, [], EmptyUModel);
  }

  /** Vertex i comes back with its position's Y negated, as a three-component list. */
  lemma ImportedPosition(verts: seq<CMeshVertex>, i: nat)
    requires i < |verts|
    ensures Map(PositionValue, verts)[i] == [verts[i].Position.X, Negate(verts[i].Position.Y), verts[i].Position.Z]
    ensures FlipY(FVector(Map(PositionValue, verts)[i][0], Map(PositionValue, verts)[i][1], Map(PositionValue, verts)[i][2])) == verts[i].Position
  {
    MapAt(PositionValue, verts, i);
    NegateInvolutive(verts[i].Position.Y);
  }

  lemma {:induction false} MapAt<T, U>(f: T -> U, xs: seq<T>, i: nat)
    requires i < |xs|
    ensures Map(f, xs)[i] == f(xs[i])
    decreases i
  {
    if i > 0 {
      MapAt(f, xs[1..], i - 1);
    }
  }

  // ------------------------------------------------------------- skeletal chunks

  lemma WeightsInvert()
    ensures Inverts(ReadWeight, UnrealModel.WeightBytes, WeightValue)
  {
    forall w: UnrealModel.WeightRecord, t: seq<byte> ensures ReadWeight(UnrealModel.WeightBytes(w) + t) == Some(Parsed(WeightValue(w), t)) {
      WeightRoundTrip(w, t);
    }
  }

  lemma BonesInvert()
    ensures Inverts(ReadBone, UnrealModel.BoneBytes, BoneValue)
  {
    forall b: UnrealModel.CSkelMeshBone, t: seq<byte> ensures ReadBone(UnrealModel.BoneBytes(b) + t) == Some(Parsed(BoneValue(b), t)) {
      BoneRoundTrip(b, t);
    }
  }

  lemma MorphsInvert()
    ensures Inverts(ReadMorphTarget, UnrealModel.LoadedMorphBytes, LoadedMorphValue)
  {
    forall m: UnrealModel.LoadedMorph, t: seq<byte> ensures ReadMorphTarget(UnrealModel.LoadedMorphBytes(m) + t) == Some(Parsed(LoadedMorphValue(m), t)) {
      MorphTargetRoundTrip(m, t);
    }
  }

  lemma SocketsInvert()
    ensures Inverts(ReadSocket, UnrealModel.SocketBytes, SocketValue)
  {
    forall s: UnrealModel.USkeletalMeshSocket, t: seq<byte> ensures ReadSocket(UnrealModel.SocketBytes(s) + t) == Some(Parsed(SocketValue(s), t)) {
      SocketRoundTrip(s, t);
    }
  }

  /** The WEIGHTS chunk, when its record count fits the int it is declared in. */
  lemma WeightsChunkRoundTrip(records: seq<UnrealModel.WeightRecord>, t: seq<byte>, m: UModel)
    requires |records| < TWO_31
    ensures UModelChunks(ChunkBytesOf(FDataChunk(WEIGHTS, WrapInt32(|records|), EncodeAll(UnrealModel.WeightBytes, records))) + t, m)
         == UModelChunks(t, m.(Weights := Map(WeightValue, records)))
  {
    var n: int32 := |records|;
    assert WrapInt32(|records|) == n;
    var c := FDataChunk(WEIGHTS, n, EncodeAll(UnrealModel.WeightBytes, records));
    TagFacts();
    WeightsInvert();
    ConsumesChunkRecords();
    BulkRoundTrip(ReadWeight, UnrealModel.WeightBytes, WeightValue, records, t);
    ReadsChunk(c, t, m, m.(Weights := Map(WeightValue, records)));
  }

  lemma BonesChunk(bones: seq<UnrealModel.CSkelMeshBone>, t: seq<byte>, m: UModel)
    requires |bones| < TWO_31
    ensures UModelChunks(ChunkBytesOf(FDataChunk(BONES, |bones|, EncodeAll(UnrealModel.BoneBytes, bones))) + t, m)
         == UModelChunks(t, m.(Bones := Map(BoneValue, bones)))
  {
    TagFacts();
    BonesInvert();
    ConsumesChunkRecords();
    BulkRoundTrip(ReadBone, UnrealModel.BoneBytes, BoneValue, bones, t);
    ReadsChunk(FDataChunk(BONES, |bones|, EncodeAll(UnrealModel.BoneBytes, bones)), t, m, m.(Bones := Map(BoneValue, bones)));
  }

  /** The corrected MORPHTARGETS chunk: as many targets are read as were serialized. */
  lemma LoadedMorphsChunk(morphTargets: seq<Option<UnrealModel.UMorphTarget>>, lodIndex: nat, t: seq<byte>, m: UModel)
    requires |morphTargets| < TWO_31
    ensures UModelChunks(ChunkBytesOf(FDataChunk(MORPHTARGETS, |UnrealModel.LoadedMorphs(morphTargets, lodIndex)|, EncodeAll(UnrealModel.MorphEncoder(lodIndex), morphTargets))) + t, m)
         == UModelChunks(t, m.(Morphs := Map(LoadedMorphValue, UnrealModel.LoadedMorphs(morphTargets, lodIndex))))
  {
    var loaded := UnrealModel.LoadedMorphs(morphTargets, lodIndex);
    UnrealModel.MorphPayloadIsLoadedTargets(morphTargets, lodIndex);
    TagFacts();
    MorphsInvert();
    ConsumesChunkRecords();
    BulkRoundTrip(ReadMorphTarget, UnrealModel.LoadedMorphBytes, LoadedMorphValue, loaded, t);
    ReadsChunk(FDataChunk(MORPHTARGETS, |loaded|, EncodeAll(UnrealModel.LoadedMorphBytes, loaded)), t, m, m.(Morphs := Map(LoadedMorphValue, loaded)));
  }

  /** The corrected SOCKETS chunk: one whole record per loaded socket. */
  lemma SocketsChunk(sockets: seq<Option<UnrealModel.USkeletalMeshSocket>>, t: seq<byte>, m: UModel)
    requires |sockets| < TWO_31
    ensures UModelChunks(ChunkBytesOf(FDataChunk(SOCKETS, |Present(sockets)|, EncodeAll(UnrealModel.SocketBytes, Present(sockets)))) + t, m)
         == UModelChunks(t, m.(Sockets := Map(SocketValue, Present(sockets))))
  {
    var loaded := Present(sockets);
    TagFacts();
    SocketsInvert();
    ConsumesChunkRecords();
    BulkRoundTrip(ReadSocket, UnrealModel.SocketBytes, SocketValue, loaded, t);
    ReadsChunk(FDataChunk(SOCKETS, |loaded|, EncodeAll(UnrealModel.SocketBytes, loaded)), t, m, m.(Sockets := Map(SocketValue, loaded)));
  }

  /** The optional MORPHTARGETS chunk of the corrected serializer. */
  lemma MorphPart(morphTargets: Option<seq<Option<UnrealModel.UMorphTarget>>>, lodIndex: nat, t: seq<byte>, m: UModel)
    requires morphTargets.Some? ==> |morphTargets.value| < TWO_31
    ensures var part := if morphTargets.Some? then
        [FDataChunk(MORPHTARGETS, |UnrealModel.LoadedMorphs(morphTargets.value, lodIndex)|, EncodeAll(UnrealModel.MorphEncoder(lodIndex), morphTargets.value))]
      else [];
      UModelChunks(EncodeAll(ChunkBytesOf, part) + t, m)
      == UModelChunks(t, if morphTargets.Some? then m.(Morphs := Map(LoadedMorphValue, UnrealModel.LoadedMorphs(morphTargets.value, lodIndex))) else m)
  {
    if morphTargets.Some? {
      var c := FDataChunk(MORPHTARGETS, |UnrealModel.LoadedMorphs(morphTargets.value, lodIndex)|, EncodeAll(UnrealModel.MorphEncoder(lodIndex), morphTargets.value));
      assert EncodeAll(ChunkBytesOf, [c]) == ChunkBytesOf(c) by {
        assert [c][..0] == [];
      }
      LoadedMorphsChunk(morphTargets.value, lodIndex, t, m);
    } else {
      assert [] + t == t;
    }
  }

  /** What the importer holds after the corrected skeletal chunks. */
  function SkeletalImported(m: UModel, verts: seq<UnrealModel.CSkelMeshVertex>, bones: seq<UnrealModel.CSkelMeshBone>,
                            morphTargets: Option<seq<Option<UnrealModel.UMorphTarget>>>, sockets: seq<Option<UnrealModel.USkeletalMeshSocket>>, lodIndex: nat): UModel
    requires UnrealModel.WeightsOk(verts)
  {
    m.(Weights := Map(WeightValue, UnrealModel.WeightRecords(verts, |verts|)),
       Morphs := if morphTargets.Some? then Map(LoadedMorphValue, UnrealModel.LoadedMorphs(morphTargets.value, lodIndex)) else m.Morphs,
       Bones := Map(BoneValue, bones),
       Sockets := Map(SocketValue, Present(sockets)))
  }

  /** The byte layout of the corrected skeletal chunk list, piece by piece. */
  lemma SkeletalPieces(cw: FDataChunk, mp: seq<FDataChunk>, cb: FDataChunk, cs: FDataChunk, t: seq<byte>)
    requires |mp| <= 1
    ensures EncodeAll(ChunkBytesOf, [cw] + mp + [cb] + [cs]) + t
         == ChunkBytesOf(cw) + (EncodeAll(ChunkBytesOf, mp) + (ChunkBytesOf(cb) + (ChunkBytesOf(cs) + t)))
  {
    assert EncodeAll(ChunkBytesOf, [cw]) == ChunkBytesOf(cw) by {
      assert [cw][..0] == [];
    }
    EncodeAllConcat(ChunkBytesOf, [cw], mp);
    EncodeAllSnoc(ChunkBytesOf, [cw] + mp, cb);
    EncodeAllSnoc(ChunkBytesOf, [cw] + mp + [cb], cs);
    FourPieces(ChunkBytesOf(cw), EncodeAll(ChunkBytesOf, mp), ChunkBytesOf(cb), ChunkBytesOf(cs), t);
  }

  /**
   * The corrected skeletal chunks are read back whole: every weight record, every target
   * that was serialized, every bone and every loaded socket.
   */
  lemma SkeletalChunksRoundTrip(verts: seq<UnrealModel.CSkelMeshVertex>, bones: seq<UnrealModel.CSkelMeshBone>,
                                morphTargets: Option<seq<Option<UnrealModel.UMorphTarget>>>, sockets: seq<Option<UnrealModel.USkeletalMeshSocket>>,
                                lodIndex: nat, t: seq<byte>, m: UModel)
    requires UnrealModel.WeightsOk(verts) && |bones| < TWO_31 && |sockets| < TWO_31
    requires morphTargets.Some? ==> |morphTargets.value| < TWO_31
    requires |UnrealModel.WeightRecords(verts, |verts|)| < TWO_31
    ensures UModelChunks(EncodeAll(ChunkBytesOf, UnrealModel.SkeletalMeshChunks(verts, bones, morphTargets, sockets, lodIndex)) + t, m)
         == UModelChunks(t, SkeletalImported(m, verts, bones, morphTargets, sockets, lodIndex))
  {
    var records := UnrealModel.WeightRecords(verts, |verts|);
    var cw := FDataChunk(WEIGHTS, WrapInt32(|records|), EncodeAll(UnrealModel.WeightBytes, records));
    var mp := if morphTargets.Some? then
        [FDataChunk(MORPHTARGETS, |UnrealModel.LoadedMorphs(morphTargets.value, lodIndex)|, EncodeAll(UnrealModel.MorphEncoder(lodIndex), morphTargets.value))]
      else [];
    var cb := FDataChunk(BONES, |bones|, EncodeAll(UnrealModel.BoneBytes, bones));
    var cs := FDataChunk(SOCKETS, |Present(sockets)|, EncodeAll(UnrealModel.SocketBytes, Present(sockets)));
    assert UnrealModel.SkeletalMeshChunks(verts, bones, morphTargets, sockets, lodIndex) == [cw] + mp + [cb] + [cs];
    SkeletalPieces(cw, mp, cb, cs, t);
    var t3 := ChunkBytesOf(cs) + t;
    var t2 := ChunkBytesOf(cb) + t3;
    var t1 := EncodeAll(ChunkBytesOf, mp) + t2;
    var m1 := m.(Weights := Map(WeightValue, records));
    var m2 := if morphTargets.Some? then m1.(Morphs := Map(LoadedMorphValue, UnrealModel.LoadedMorphs(morphTargets.value, lodIndex))) else m1;
    var m3 := m2.(Bones := Map(BoneValue, bones));
    WeightsChunkRoundTrip(records, t1, m);
    MorphPart(morphTargets, lodIndex, t2, m1);
    BonesChunk(bones, t3, m2);
    SocketsChunk(sockets, t, m3);
  }

  /** Two chunk lists read one after the other. */
  lemma ChunksInSequence(a: seq<FDataChunk>, b: seq<FDataChunk>, m: UModel, m1: UModel, m2: UModel)
    requires UModelChunks(EncodeAll(ChunkBytesOf, a) + EncodeAll(ChunkBytesOf, b), m) == UModelChunks(EncodeAll(ChunkBytesOf, b), m1)
    requires UModelChunks(EncodeAll(ChunkBytesOf, b) + [], m1) == UModelChunks([], m2)
    ensures UModelChunks(EncodeAll(ChunkBytesOf, a + b), m) == Some(m2)
  {
    EncodeAllConcat(ChunkBytesOf, a, b);
    assert EncodeAll(ChunkBytesOf, b) + [] == EncodeAll(ChunkBytesOf, b);
  }

  /**
   * A skeletal LOD written with the corrected serializer (the body `NewSkeletalModel`
   * produces) is imported whole: the static lists of its vertices, then its weights,
   * morph targets, bones and sockets.
   */
  lemma SkeletalMeshRoundTrip(verts: seq<UnrealModel.CSkelMeshVertex>, indices: seq<int32>, colors: Option<seq<FColor>>, materials: seq<Option<FStr>>,
                              bones: seq<UnrealModel.CSkelMeshBone>, morphTargets: Option<seq<Option<UnrealModel.UMorphTarget>>>,
                              sockets: seq<Option<UnrealModel.USkeletalMeshSocket>>, lodIndex: nat, normalize: FVector -> FVector)
    requires UnrealModel.StaticSizesOk(UnrealModel.StaticVertices(verts), indices, colors, materials) && |indices| % 3 == 0
    requires UnrealModel.WeightsOk(verts) && |bones| < TWO_31 && |sockets| < TWO_31
    requires morphTargets.Some? ==> |morphTargets.value| < TWO_31
    requires |UnrealModel.WeightRecords(verts, |verts|)| < TWO_31
    ensures UModelChunks(EncodeAll(ChunkBytesOf, UnrealModel.StaticMeshChunks(UnrealModel.StaticVertices(verts), indices, colors, materials, normalize)
                                                 + UnrealModel.SkeletalMeshChunks(verts, bones, morphTargets, sockets, lodIndex)), EmptyUModel)
         == Some(SkeletalImported(StaticImported(EmptyUModel, UnrealModel.StaticVertices(verts), indices, colors, materials, normalize),
                                  verts, bones, morphTargets, sockets, lodIndex))
  {
    var sv := UnrealModel.StaticVertices(verts);
    var a := UnrealModel.StaticMeshChunks(sv, indices, colors, materials, normalize);
    var b := UnrealModel.SkeletalMeshChunks(verts, bones, morphTargets, sockets, lodIndex);
    var m1 := StaticImported(EmptyUModel, sv, indices, colors, materials, normalize);
    StaticChunksRoundTrip(sv, indices, colors, materials, normalize, EncodeAll(ChunkBytesOf, b), EmptyUModel);
    SkeletalChunksRoundTrip(verts, bones, morphTargets, sockets, lodIndex, [], m1);
    ChunksInSequence(a, b, EmptyUModel, m1, SkeletalImported(m1, verts, bones, morphTargets, sockets, lodIndex));
  }

  // -------------------------------------------------------- the serializer as written

  /** A chunk header read over two length-prefixed strings: the first is the tag, the second's length the count. */
  lemma HeaderOverStrings(a: FStr, b: FStr, r: seq<byte>)
    requires |r| >= 4
    ensures var h := ReadChunkHeader(FStringBytes(a) + FStringBytes(b) + r);
      h.Some? && h.value.value.Tag == StripNuls(a) && h.value.value.Count == |b|
  {
    var d := FStringBytes(a) + FStringBytes(b) + r;
    Assoc3(Int32Bytes(|a|), a, FStringBytes(b), r);
    AppendAssoc(Int32Bytes(|a|), a, FStringBytes(b));
    AppendAssoc(FStringBytes(a), FStringBytes(b), r);
    FStringRoundTrip(a, FStringBytes(b) + r);
    AppendAssoc(Int32Bytes(|b|), b, r);
    IntRoundTrip(|b|, b + r);
    assert |b + r| >= 4;
  }

  /**
   * As written, the socket names go straight into the asset's archive after BONES, so the
   * importer reads the first loaded socket's name as the next chunk's tag and the length
   * of its bone name as that chunk's count.
   */
  lemma SocketNameReadAsChunkTag(sockets: seq<Option<UnrealModel.USkeletalMeshSocket>>, t: seq<byte>)
    requires sockets != [] && sockets[0].Some? && |t| >= 4
    ensures var h := ReadChunkHeader(EncodeAll(UnrealModel.SocketNameBytes, sockets) + t);
      && h.Some?
      && h.value.value.Tag == StripNuls(sockets[0].value.SocketName)
      && h.value.value.Count == |sockets[0].value.BoneName|
  {
    var s := sockets[0].value;
    var tail := EncodeAll(UnrealModel.SocketNameBytes, sockets[1..]);
    assert sockets == [sockets[0]] + sockets[1..];
    EncodeAllCons(UnrealModel.SocketNameBytes, sockets[0], sockets[1..]);
    AppendAssoc(FStringBytes(s.SocketName) + FStringBytes(s.BoneName), tail, t);
    HeaderOverStrings(s.SocketName, s.BoneName, tail + t);
  }

  /** A bulk read of one record is that record. */
  lemma ReadOne<T>(d: seq<byte>, rd: seq<byte> -> Option<Parsed<T>>)
    requires Consumes(rd) && rd(d).Some?
    ensures ReadBulk(d, 1, rd) == Some(Parsed([rd(d).value.value], rd(d).value.rest))
  {
    var p := rd(d).value;
    assert ReadBulk(p.rest, 0, rd) == Some(Parsed([], p.rest));
    assert [p.value] + [] == [p.value];
  }

  /** The bytes of an empty BONES chunk, read as a morph target, give a target named BONES. */
  lemma EmptyBonesAsMorph(t: seq<byte>)
    ensures ReadMorphTarget(ChunkBytesOf(FDataChunk(BONES, 0, [])) + t) == Some(Parsed(MorphTargetRec(BONES, []), Int32Bytes(0) + t))
  {
    var rest := Int32Bytes(0) + (Int32Bytes(0) + t);
    var d := FStringBytes(BONES) + rest;
    assert ChunkBytesOf(FDataChunk(BONES, 0, [])) + t == d by {
      var empty: seq<byte> := [];
      assert WrapInt32(|empty|) == 0;
      Assoc3(FStringBytes(BONES), Int32Bytes(0), Int32Bytes(0), t);
    }
    assert BONES[4] == 83;
    StripNulsIdentity(BONES);
    FStringRoundTrip(BONES, rest);
    IntRoundTrip(0, Int32Bytes(0) + t);
    ConsumesRecords();
    assert ReadBulk(Int32Bytes(0) + t, 0, ReadMorphTargetData) == Some(Parsed([], Int32Bytes(0) + t));
  }

  /**
   * As written, MORPHTARGETS declares every reference while a skipped one writes nothing.
   * With one unloaded reference followed by an empty BONES chunk, the importer reads that
   * BONES chunk as a morph target named BONES and resumes inside the bytes after it.
   */
  lemma MorphCountOverReads(lodIndex: nat, t: seq<byte>, m: UModel)
    ensures var asWritten := FDataChunk(MORPHTARGETS, |[Option<UnrealModel.UMorphTarget>.None]|, EncodeAll(UnrealModel.MorphEncoder(lodIndex), [None]));
      UModelChunks(ChunkBytesOf(asWritten) + (ChunkBytesOf(FDataChunk(BONES, 0, [])) + t), m)
      == UModelChunks(Int32Bytes(0) + t, m.(Morphs := [MorphTargetRec(BONES, [])]))
  {
    var none: Option<UnrealModel.UMorphTarget> := None;
    assert EncodeAll(UnrealModel.MorphEncoder(lodIndex), [none]) == [] by {
      assert [none][..0] == [];
    }
    var asWritten := FDataChunk(MORPHTARGETS, 1, []);
    var after := ChunkBytesOf(FDataChunk(BONES, 0, [])) + t;
    var p := Parsed(m.(Morphs := [MorphTargetRec(BONES, [])]), Int32Bytes(0) + t);
    assert UModelPayload(HeaderOf(asWritten), asWritten.Body + after, m) == Some(p) by {
      TagFacts();
      assert [] + after == after;
      EmptyBonesAsMorph(t);
      ConsumesChunkRecords();
      ReadOne(after, ReadMorphTarget);
    }
    ChunkStep(asWritten, after, m, p);
  }
}
