/**
 * UnrealModel: a mesh LOD written as a UMODEL asset. The static part emits the vertex
 * streams, indices, optional colours and material names as chunks; the skeletal part adds
 * weights, morph targets, bones and sockets. Every emitted vector is converted to the
 * interchange handedness by negating Y (V for texture coordinates).
 */
module UnrealModel {
  import opened Wrappers
  import opened Bytes
  import opened ArchiveWriter
  import opened DataChunk
  import opened MeshData
  import opened MorphTarget
  import UnrealHeader
  import ExportableAsset

  const UMODEL: FStr := Ascii("UMODEL")

  /**
   * The private constructor shared by both public ones: an empty body and the header
   * "UMODEL", version 1, with the exporter's compression format.
   */
  method NewModel(name: FStr, compression: UnrealHeader.EFileCompressionFormat) returns (model: ExportableAsset.ExportableUnrealAssetBase)
    ensures fresh(model) && fresh(model.Ar) && model.Valid() && model.Ar.buffer == []
    ensures model.Header.Identifier == UMODEL && model.Header.FileVersion == 1
    ensures model.Header.ObjectName == name && model.Header.CompressionFormat == compression
  {
    var header := new UnrealHeader.FUnrealHeader(UMODEL, 1, name, compression);
    model := new ExportableAsset.ExportableUnrealAssetBase(header);
  }

  // ---------------------------------------------------------------- static mesh data

  function PositionBytes(v: CMeshVertex): seq<byte>
  {
    VectorBytes(FlipY(v.Position))
  }

  /** `Normalize()` is floating-point arithmetic and is taken as a parameter. */
  function NormalBytes(normalize: FVector -> FVector, v: CMeshVertex): (r: seq<byte>)
    ensures |r| == 12
  {
    VectorBytes(FlipY(normalize(v.Normal)))
  }

  function TangentBytes(normalize: FVector -> FVector, v: CMeshVertex): (r: seq<byte>)
    ensures |r| == 12
  {
    VectorBytes(FlipY(normalize(v.Tangent)))
  }

  function NormalEncoder(normalize: FVector -> FVector): CMeshVertex -> seq<byte>
  {
    (v: CMeshVertex) => NormalBytes(normalize, v)
  }

  function TangentEncoder(normalize: FVector -> FVector): CMeshVertex -> seq<byte>
  {
    (v: CMeshVertex) => TangentBytes(normalize, v)
  }

  function TexCoordBytes(v: CMeshVertex): seq<byte>
  {
    UVBytes(FlipV(v.UV))
  }

  /** A section's material name, or the empty string when it has no loadable material. */
  function MaterialName(material: Option<FStr>): FStr
  {
    if material.Some? then material.value else []
  }

  function MaterialBytes(material: Option<FStr>): seq<byte>
  {
    FStringBytes(MaterialName(material))
  }

  /** .NET arrays hold fewer than 2^31 elements, so every count fits the int field. */
  predicate StaticSizesOk(verts: seq<CMeshVertex>, indices: seq<int32>, vertexColors: Option<seq<FColor>>, materials: seq<Option<FStr>>)
  {
    && |verts| < TWO_31
    && |indices| < TWO_31
    && (vertexColors.Some? ==> |vertexColors.value| < TWO_31)
    && |materials| < TWO_31
  }

  /**
   * The static chunks in their fixed order: VERTICES, NORMALS, TANGENTS, TEXCOORDS (each
   * counting every vertex), INDICES, VERTEXCOLORS only when colours exist, MATERIALS.
   */
  function StaticMeshChunks(verts: seq<CMeshVertex>, indices: seq<int32>, vertexColors: Option<seq<FColor>>, materials: seq<Option<FStr>>, normalize: FVector -> FVector): seq<FDataChunk>
    requires StaticSizesOk(verts, indices, vertexColors, materials)
  {
    VertexChunkList(verts, normalize)
    + [FDataChunk(INDICES, |indices|, EncodeAll(Int32Bytes, indices))]
    + (if vertexColors.Some? then [FDataChunk(VERTEXCOLORS, |vertexColors.value|, EncodeAll(ColorBytes, vertexColors.value))] else [])
    + [FDataChunk(MATERIALS, |materials|, EncodeAll(MaterialBytes, materials))]
  }

  /** The four per-vertex chunks, each counting every vertex. */
  function VertexChunkList(verts: seq<CMeshVertex>, normalize: FVector -> FVector): seq<FDataChunk>
    requires |verts| < TWO_31
  {
    [ FDataChunk(VERTICES, |verts|, EncodeAll(PositionBytes, verts)),
      FDataChunk(NORMALS, |verts|, EncodeAll(NormalEncoder(normalize), verts)),
      FDataChunk(TANGENTS, |verts|, EncodeAll(TangentEncoder(normalize), verts)),
      FDataChunk(TEXCOORDS, |verts|, EncodeAll(TexCoordBytes, verts)) ]
  }

  /** Four appends to the empty list give the list of the four. */
  lemma FourSnocs<T>(a: T, b: T, c: T, d: T)
    ensures [] + [a] + [b] + [c] + [d] == [a, b, c, d]
  {
  }

  /** The four per-vertex chunks, filled by one pass over the vertices. */
  method VertexChunks(verts: seq<CMeshVertex>, normalize: FVector -> FVector) returns (positions: FDataChunk, normals: FDataChunk, tangents: FDataChunk, texCoords: FDataChunk)
    requires |verts| < TWO_31
    ensures positions == FDataChunk(VERTICES, |verts|, EncodeAll(PositionBytes, verts))
    ensures normals == FDataChunk(NORMALS, |verts|, EncodeAll(NormalEncoder(normalize), verts))
    ensures tangents == FDataChunk(TANGENTS, |verts|, EncodeAll(TangentEncoder(normalize), verts))
    ensures texCoords == FDataChunk(TEXCOORDS, |verts|, EncodeAll(TexCoordBytes, verts))
  {
    positions := NewChunk(VERTICES, |verts|);
    normals := NewChunk(NORMALS, |verts|);
    tangents := NewChunk(TANGENTS, |verts|);
    texCoords := NewChunk(TEXCOORDS, |verts|);
    var normalEnc, tangentEnc := NormalEncoder(normalize), TangentEncoder(normalize);
    var i := 0;
    while i < |verts|
      invariant 0 <= i <= |verts|
      invariant positions == FDataChunk(VERTICES, |verts|, EncodeAll(PositionBytes, verts[..i]))
      invariant normals == FDataChunk(NORMALS, |verts|, EncodeAll(normalEnc, verts[..i]))
      invariant tangents == FDataChunk(TANGENTS, |verts|, EncodeAll(tangentEnc, verts[..i]))
      invariant texCoords == FDataChunk(TEXCOORDS, |verts|, EncodeAll(TexCoordBytes, verts[..i]))
    {
      // Each encoder negates Y (V for the UV) before writing the components.
      positions := AppendRecord(positions, PositionBytes, verts[i], verts, i);
      normals := AppendRecord(normals, normalEnc, verts[i], verts, i);
      tangents := AppendRecord(tangents, tangentEnc, verts[i], verts, i);
      texCoords := AppendRecord(texCoords, TexCoordBytes, verts[i], verts, i);
      i := i + 1;
    }
    assert verts[..i] == verts;
  }

  /** The VERTEXCOLORS chunk, flushed only when the mesh has vertex colours. */
  method FlushVertexColors(ar: FArchiveWriter, vertexColors: Option<seq<FColor>>, ghost start: seq<byte>, ghost flushed: seq<FDataChunk>)
    returns (ghost part: seq<FDataChunk>)
    requires ar.Valid() && ar.buffer == start + EncodeAll(ChunkBytesOf, flushed)
    requires vertexColors.Some? ==> |vertexColors.value| < TWO_31
    modifies ar
    ensures ar.Valid() && ar.buffer == start + EncodeAll(ChunkBytesOf, flushed + part)
    ensures part == if vertexColors.Some? then [FDataChunk(VERTEXCOLORS, |vertexColors.value|, EncodeAll(ColorBytes, vertexColors.value))] else []
  {
    if vertexColors.Some? {
      var vertexColorChunk := BuildChunk(VERTEXCOLORS, ColorBytes, vertexColors.value);
      FlushChunk(vertexColorChunk, ar, start, flushed);
      part := [vertexColorChunk];
    } else {
      part := [];
      assert flushed + part == flushed;
    }
  }

  /**
   * SerializeStaticMeshData: the static chunks appended to the body in their fixed order.
   * `materials` holds, per section, the name of its loaded material if there is one.
   */
  method SerializeStaticMeshData(ar: FArchiveWriter, verts: seq<CMeshVertex>, indices: seq<int32>, vertexColors: Option<seq<FColor>>, materials: seq<Option<FStr>>, normalize: FVector -> FVector)
    requires ar.Valid() && StaticSizesOk(verts, indices, vertexColors, materials)
    modifies ar
    ensures ar.Valid()
    ensures ar.buffer == old(ar.buffer) + EncodeAll(ChunkBytesOf, StaticMeshChunks(verts, indices, vertexColors, materials, normalize))
  {
    var vertexChunk, normalsChunk, tangentsChunk, texCoordsChunk := VertexChunks(verts, normalize);
    ghost var start := ar.buffer;
    FlushChunk(vertexChunk, ar, start, []);
    FlushChunk(normalsChunk, ar, start, [] + [vertexChunk]);
    FlushChunk(tangentsChunk, ar, start, [] + [vertexChunk] + [normalsChunk]);
    FlushChunk(texCoordsChunk, ar, start, [] + [vertexChunk] + [normalsChunk] + [tangentsChunk]);
    FourSnocs(vertexChunk, normalsChunk, tangentsChunk, texCoordsChunk);
    ghost var vertexPart := [vertexChunk, normalsChunk, tangentsChunk, texCoordsChunk];

    var indexChunk := BuildChunk(INDICES, Int32Bytes, indices);
    FlushChunk(indexChunk, ar, start, vertexPart);

    ghost var colorPart := FlushVertexColors(ar, vertexColors, start, vertexPart + [indexChunk]);

    // A section without a loadable material contributes the empty string.
    var materialChunk := BuildChunk(MATERIALS, MaterialBytes, materials);
    FlushChunk(materialChunk, ar, start, vertexPart + [indexChunk] + colorPart);
    assert vertexPart == VertexChunkList(verts, normalize);
    assert StaticMeshChunks(verts, indices, vertexColors, materials, normalize) == vertexPart + [indexChunk] + colorPart + [materialChunk];
  }

  // -------------------------------------------------------------- skeletal mesh data

  /**
   * CSkelMeshVertex as the WEIGHTS chunk sees it: the static vertex, the bone indices (absent
   * on an unskinned vertex) and the weights UnpackWeights yields. CSkelMeshVertex and
   * UnpackWeights are not part of this model; their result is carried with the vertex.
   */
  datatype CSkelMeshVertex = CSkelMeshVertex(Vertex: CMeshVertex, Bone: Option<seq<int16>>, Weights: seq<Float32>)

  datatype CSkelMeshBone = CSkelMeshBone(Name: FStr, ParentIndex: int32, Position: FVector, Orientation: FQuat)

  /** The vertex deltas of one morph LOD model. */
  type Deltas = s: seq<FMorphTargetDelta> | |s| < TWO_31

  /** A loaded UMorphTarget: its name and its per-LOD models, when it has any. */
  datatype UMorphTarget = UMorphTarget(Name: FStr, MorphLODModels: Option<seq<Deltas>>)

  datatype USkeletalMeshSocket = USkeletalMeshSocket(SocketName: FStr, BoneName: FStr, RelativeLocation: FVector, RelativeRotation: FRotator, RelativeScale: FVector)

  /** One WEIGHTS record as written field by field: bone index, vertex index, weight. */
  datatype WeightRecord = WeightRecord(BoneIndex: int16, VertexIndex: int32, Weight: Float32)

  function WeightBytes(w: WeightRecord): (r: seq<byte>)
    ensures |r| == 10
  {
    Int16Bytes(w.BoneIndex) + Int32Bytes(w.VertexIndex) + FloatBytes(w.Weight)
  }

  /** A skinned vertex has a bone index for every weight (`vertBones[index]` would throw otherwise). */
  predicate BonesCoverWeights(v: CSkelMeshVertex)
  {
    v.Bone.Some? ==> |v.Weights| <= |v.Bone.value|
  }

  /** What the weights loop needs to stay in bounds; vertex indices also fit an int. */
  predicate WeightsOk(verts: seq<CSkelMeshVertex>)
  {
    |verts| < TWO_31 && forall i :: 0 <= i < |verts| ==> BonesCoverWeights(verts[i])
  }

  /** The records of vertex `vi`: one per weight, none when the vertex has no bones. */
  function VertexWeights(v: CSkelMeshVertex, vi: int32): (r: seq<WeightRecord>)
    requires BonesCoverWeights(v)
    ensures v.Bone.None? ==> r == []
    ensures v.Bone.Some? ==> |r| == |v.Weights|
    ensures forall k :: 0 <= k < |r| ==> r[k].VertexIndex == vi
  {
    if v.Bone.None? then []
    else seq(|v.Weights|, k requires 0 <= k < |v.Weights| => WeightRecord(v.Bone.value[k], vi, v.Weights[k]))
  }

  /** The records of the first n vertices, vertex by vertex. */
  function WeightRecords(verts: seq<CSkelMeshVertex>, n: nat): seq<WeightRecord>
    requires WeightsOk(verts) && n <= |verts|
  {
    if n == 0 then [] else WeightRecords(verts, n - 1) + VertexWeights(verts[n - 1], n - 1)
  }

  /** The number of weights on the skinned vertices among the first n. */
  function SkinnedWeightCount(verts: seq<CSkelMeshVertex>, n: nat): nat
    requires n <= |verts|
  {
    if n == 0 then 0
    else SkinnedWeightCount(verts, n - 1) + (if verts[n - 1].Bone.Some? then |verts[n - 1].Weights| else 0)
  }

  /** There is one WEIGHTS record per weight of each skinned vertex. */
  lemma {:induction false} WeightRecordsCount(verts: seq<CSkelMeshVertex>, n: nat)
    requires WeightsOk(verts) && n <= |verts|
    ensures |WeightRecords(verts, n)| == SkinnedWeightCount(verts, n)
  {
    if n > 0 {
      WeightRecordsCount(verts, n - 1);
    }
  }

  /**
   * Every WEIGHTS record belongs to a skinned vertex among the first n and is one of that
   * vertex's own records; unskinned vertices contribute none.
   */
  lemma {:induction false} WeightRecordsSound(verts: seq<CSkelMeshVertex>, n: nat)
    requires WeightsOk(verts) && n <= |verts|
    ensures forall j :: 0 <= j < |WeightRecords(verts, n)| ==>
      && 0 <= WeightRecords(verts, n)[j].VertexIndex < n
      && verts[WeightRecords(verts, n)[j].VertexIndex].Bone.Some?
      && WeightRecords(verts, n)[j] in VertexWeights(verts[WeightRecords(verts, n)[j].VertexIndex], WeightRecords(verts, n)[j].VertexIndex)
  {
    if n > 0 {
      WeightRecordsSound(verts, n - 1);
      var before := WeightRecords(verts, n - 1);
      var mine := VertexWeights(verts[n - 1], n - 1);
      var records := WeightRecords(verts, n);
      assert records == before + mine;
      forall j | 0 <= j < |records|
        ensures 0 <= records[j].VertexIndex < n && verts[records[j].VertexIndex].Bone.Some?
        ensures records[j] in VertexWeights(verts[records[j].VertexIndex], records[j].VertexIndex)
      {
        if j < |before| {
          assert records[j] == before[j];
          assert 0 <= before[j].VertexIndex < n - 1;
        } else {
          var k := j - |before|;
          assert records[j] == mine[k];
          assert mine[k].VertexIndex == n - 1;
          assert mine[k] in mine;
        }
      }
    }
  }

  /**
   * The weights loop: for every skinned vertex, one record per weight, each bumping the
   * chunk's count (an int, so it wraps like `Count++`).
   */
  method WeightsChunk(verts: seq<CSkelMeshVertex>) returns (c: FDataChunk)
    requires WeightsOk(verts)
    ensures c == FDataChunk(WEIGHTS, WrapInt32(|WeightRecords(verts, |verts|)|), EncodeAll(WeightBytes, WeightRecords(verts, |verts|)))
  {
    c := NewChunk(WEIGHTS);
    for vertexIndex := 0 to |verts|
      invariant c == FDataChunk(WEIGHTS, WrapInt32(|WeightRecords(verts, vertexIndex)|), EncodeAll(WeightBytes, WeightRecords(verts, vertexIndex)))
    {
      c := AppendVertexWeights(c, verts[vertexIndex], vertexIndex, WeightBytes, WeightRecords(verts, vertexIndex));
    }
  }

  /** The record for the weight at `index` of a skinned vertex, after the earlier records. */
  lemma RecordAt(done: seq<WeightRecord>, vert: CSkelMeshVertex, vi: int32, index: nat)
    requires BonesCoverWeights(vert) && vert.Bone.Some? && index < |vert.Weights|
    ensures |done| + index < |done + VertexWeights(vert, vi)|
    ensures (done + VertexWeights(vert, vi))[|done| + index] == WeightRecord(vert.Bone.value[index], vi, vert.Weights[index])
  {
  }

  /**
   * The inner loop for the vertex at `vi`; an unskinned vertex is skipped. The record
   * layout `enc` is WeightBytes at the one call site.
   */
  method AppendVertexWeights(c: FDataChunk, vert: CSkelMeshVertex, vi: int32, enc: WeightRecord -> seq<byte>, ghost done: seq<WeightRecord>) returns (c': FDataChunk)
    requires BonesCoverWeights(vert)
    requires c == FDataChunk(WEIGHTS, WrapInt32(|done|), EncodeAll(enc, done))
    ensures c' == FDataChunk(WEIGHTS, WrapInt32(|done + VertexWeights(vert, vi)|), EncodeAll(enc, done + VertexWeights(vert, vi)))
  {
    ghost var all := done + VertexWeights(vert, vi);
    assert all[..|done|] == done;
    c' := c;
    var vertBones := vert.Bone;
    if vertBones.None? {
      assert all == done;
      return;
    }
    var weights := vert.Weights;
    for index := 0 to |weights|
      invariant c' == FDataChunk(WEIGHTS, WrapInt32(|done| + index), EncodeAll(enc, all[..|done| + index]))
    {
      // Bone index, vertex index and weight: the three fields of the record.
      RecordAt(done, vert, vi, index);
      c' := AppendCounted(c', enc, WeightRecord(vertBones.value[index], vi, weights[index]), all, |done| + index);
    }
    assert all[..|done| + |weights|] == all;
  }

  /**
   * The LOD model the exporter serializes for one morph-target reference, or nothing when
   * the target did not load, has no LOD models, or has none at `lodIndex`.
   */
  function MorphLod(m: Option<UMorphTarget>, lodIndex: nat): (r: Option<Deltas>)
    ensures r.Some? <==> m.Some? && m.value.MorphLODModels.Some? && lodIndex < |m.value.MorphLODModels.value|
    ensures r.Some? ==> r.value == m.value.MorphLODModels.value[lodIndex]
  {
    if m.None? || m.value.MorphLODModels.None? || lodIndex >= |m.value.MorphLODModels.value| then None
    else Some(m.value.MorphLODModels.value[lodIndex])
  }

  /** FMorphTarget's conversion of a whole LOD model: one FMorphData per delta, in order. */
  function MorphDataList(deltas: Deltas): (r: seq<FMorphData>)
    ensures |r| == |deltas| && forall i :: 0 <= i < |deltas| ==> r[i] == MorphDataOf(deltas[i])
  {
    seq(|deltas|, i requires 0 <= i < |deltas| => MorphDataOf(deltas[i]))
  }

  /** What one reference contributes to the MORPHTARGETS payload; nothing when skipped. */
  function MorphEntryBytes(lodIndex: nat, m: Option<UMorphTarget>): seq<byte>
  {
    var lod := MorphLod(m, lodIndex);
    if lod.None? then [] else MorphTargetBytes(m.value.Name, |lod.value|, MorphDataList(lod.value))
  }

  function MorphEncoder(lodIndex: nat): Option<UMorphTarget> -> seq<byte>
  {
    (m: Option<UMorphTarget>) => MorphEntryBytes(lodIndex, m)
  }

  /**
   * The MORPHTARGETS loop as written: the count is the number of references, while a
   * skipped reference writes nothing. The payload is written through an FMorphTarget per
   * serialized target.
   */
  method MorphTargetsChunk(morphTargets: seq<Option<UMorphTarget>>, lodIndex: nat) returns (c: FDataChunk)
    requires |morphTargets| < TWO_31
    ensures c == FDataChunk(MORPHTARGETS, |morphTargets|, EncodeAll(MorphEncoder(lodIndex), morphTargets))
  {
    var payload := new FArchiveWriter();
    var enc := MorphEncoder(lodIndex);
    for i := 0 to |morphTargets|
      invariant payload.Valid() && payload.buffer == EncodeAll(enc, morphTargets[..i])
    {
      EncodeAllPrefixStep(enc, morphTargets, i);
      var _ := SerializeMorphReference(payload, morphTargets[i], lodIndex);
    }
    assert morphTargets[..|morphTargets|] == morphTargets;
    var body := payload.GetBuffer();
    c := FDataChunk(MORPHTARGETS, |morphTargets|, body);
  }

  /**
   * One iteration of the MORPHTARGETS loop: a target that loaded and has the LOD is
   * converted by an FMorphTarget and serialized; any other reference is skipped.
   */
  method SerializeMorphReference(payload: FArchiveWriter, m: Option<UMorphTarget>, lodIndex: nat) returns (serialized: bool)
    requires payload.Valid()
    modifies payload
    ensures payload.Valid() && payload.buffer == old(payload.buffer) + MorphEntryBytes(lodIndex, m)
    ensures serialized == MorphLod(m, lodIndex).Some?
  {
    var morphLod := MorphLod(m, lodIndex);
    if morphLod.None? {
      return false;
    }
    var morphData := new FMorphTarget(m.value.Name, morphLod.value);
    assert morphData.MorphData == MorphDataList(morphLod.value);
    morphData.Serialize(payload);
    return true;
  }

  /** One BONES record: name, parent index, position with Y negated, rotation with Y and W negated. */
  function BoneBytes(b: CSkelMeshBone): seq<byte>
  {
    FStringBytes(b.Name) + Int32Bytes(b.ParentIndex) + VectorBytes(FlipY(b.Position)) + QuatBytes(FlipYW(b.Orientation))
  }

  /** The names a loaded socket writes: socket name, then bone name. */
  function SocketNameBytes(s: Option<USkeletalMeshSocket>): seq<byte>
  {
    if s.None? then [] else FStringBytes(s.value.SocketName) + FStringBytes(s.value.BoneName)
  }

  /** The transform a loaded socket writes: location Y, yaw and scale Y negated. */
  function SocketTransformBytes(s: Option<USkeletalMeshSocket>): (r: seq<byte>)
    ensures s.None? ==> r == []
    ensures s.Some? ==> |r| == 36
  {
    if s.None? then []
    else VectorBytes(FlipY(s.value.RelativeLocation)) + RotatorBytes(FlipYaw(s.value.RelativeRotation)) + VectorBytes(FlipY(s.value.RelativeScale))
  }

  /** One iteration of the SOCKETS loop as written; an unloaded socket writes nothing. */
  method SocketStep(ar: FArchiveWriter, c: FDataChunk, sockets: seq<Option<USkeletalMeshSocket>>, i: nat, ghost head: seq<byte>) returns (c': FDataChunk)
    requires ar.Valid() && i < |sockets| < TWO_31 && ar.buffer == head + EncodeAll(SocketNameBytes, sockets[..i])
    requires c == FDataChunk(SOCKETS, |sockets|, EncodeAll(SocketTransformBytes, sockets[..i]))
    modifies ar
    ensures ar.Valid() && ar.buffer == head + EncodeAll(SocketNameBytes, sockets[..i + 1])
    ensures c' == FDataChunk(SOCKETS, |sockets|, EncodeAll(SocketTransformBytes, sockets[..i + 1]))
  {
    EncodeAllPrefixStep(SocketNameBytes, sockets, i);
    EncodeAllPrefixStep(SocketTransformBytes, sockets, i);
    c' := c;
    var socket := sockets[i];
    if socket.None? {
      return;
    }
    ghost var prev := ar.buffer;
    ar.WriteFString(socket.value.SocketName);
    ar.WriteFString(socket.value.BoneName);
    AppendAssoc(prev, FStringBytes(socket.value.SocketName), FStringBytes(socket.value.BoneName));
    AppendAssoc(head, EncodeAll(SocketNameBytes, sockets[..i]), SocketNameBytes(socket));
    c' := c'.(Body := c'.Body + SocketTransformBytes(socket));
  }

  /**
   * The SOCKETS loop as written: each loaded socket's names go to the asset's own archive
   * at once, its transform to the chunk; the chunk (counting every reference) follows.
   */
  method SerializeSocketsAsWritten(ar: FArchiveWriter, sockets: seq<Option<USkeletalMeshSocket>>)
    requires ar.Valid() && |sockets| < TWO_31
    modifies ar
    ensures ar.Valid()
    ensures ar.buffer == old(ar.buffer) + EncodeAll(SocketNameBytes, sockets)
      + ChunkBytesOf(FDataChunk(SOCKETS, |sockets|, EncodeAll(SocketTransformBytes, sockets)))
  {
    var socketChunk := NewChunk(SOCKETS, |sockets|);
    for i := 0 to |sockets|
      invariant ar.Valid() && ar.buffer == old(ar.buffer) + EncodeAll(SocketNameBytes, sockets[..i])
      invariant socketChunk == FDataChunk(SOCKETS, |sockets|, EncodeAll(SocketTransformBytes, sockets[..i]))
    {
      socketChunk := SocketStep(ar, socketChunk, sockets, i, old(ar.buffer));
    }
    assert sockets[..|sockets|] == sockets;
    SerializeChunk(socketChunk, ar);
  }

  /**
   * SerializeSkeletalMeshData as written: WEIGHTS, MORPHTARGETS when morph targets are
   * given, BONES, then the socket names straight into the archive followed by SOCKETS.
   */
  function SkeletalChunksAsWritten(verts: seq<CSkelMeshVertex>, bones: seq<CSkelMeshBone>, morphTargets: Option<seq<Option<UMorphTarget>>>, lodIndex: nat): seq<FDataChunk>
    requires WeightsOk(verts) && |bones| < TWO_31 && (morphTargets.Some? ==> |morphTargets.value| < TWO_31)
  {
    [FDataChunk(WEIGHTS, WrapInt32(|WeightRecords(verts, |verts|)|), EncodeAll(WeightBytes, WeightRecords(verts, |verts|)))]
    + (if morphTargets.Some? then [FDataChunk(MORPHTARGETS, |morphTargets.value|, EncodeAll(MorphEncoder(lodIndex), morphTargets.value))] else [])
    + [FDataChunk(BONES, |bones|, EncodeAll(BoneBytes, bones))]
  }

  method SerializeSkeletalMeshData(ar: FArchiveWriter, verts: seq<CSkelMeshVertex>, bones: seq<CSkelMeshBone>, morphTargets: Option<seq<Option<UMorphTarget>>>, sockets: seq<Option<USkeletalMeshSocket>>, lodIndex: nat)
    requires ar.Valid() && WeightsOk(verts) && |bones| < TWO_31 && |sockets| < TWO_31
    requires morphTargets.Some? ==> |morphTargets.value| < TWO_31
    modifies ar
    ensures ar.Valid()
    ensures ar.buffer == old(ar.buffer) + EncodeAll(ChunkBytesOf, SkeletalChunksAsWritten(verts, bones, morphTargets, lodIndex))
      + EncodeAll(SocketNameBytes, sockets) + ChunkBytesOf(FDataChunk(SOCKETS, |sockets|, EncodeAll(SocketTransformBytes, sockets)))
  {
    ghost var start := ar.buffer;
    var weightsChunk := WeightsChunk(verts);
    FlushChunk(weightsChunk, ar, start, []);
    ghost var flushed := [] + [weightsChunk];
    if morphTargets.Some? {
      var morphTargetsChunk := MorphTargetsChunk(morphTargets.value, lodIndex);
      FlushChunk(morphTargetsChunk, ar, start, flushed);
      flushed := flushed + [morphTargetsChunk];
    } else {
      assert flushed == flushed + [];
    }
    var boneChunk := BuildChunk(BONES, BoneBytes, bones);
    FlushChunk(boneChunk, ar, start, flushed);
    flushed := flushed + [boneChunk];
    assert flushed == SkeletalChunksAsWritten(verts, bones, morphTargets, lodIndex);
    SerializeSocketsAsWritten(ar, sockets);
  }

  // ------------------------------------------------ skeletal mesh data, counts corrected

  /** A morph target the exporter serializes, with the deltas of the requested LOD. */
  datatype LoadedMorph = LoadedMorph(Name: FStr, Lod: Deltas)

  function LoadedMorphOf(m: Option<UMorphTarget>, lodIndex: nat): (r: Option<LoadedMorph>)
    ensures r.Some? <==> MorphLod(m, lodIndex).Some?
  {
    var lod := MorphLod(m, lodIndex);
    if lod.None? then None else Some(LoadedMorph(m.value.Name, lod.value))
  }

  /** The references that are serialized, in order. */
  function LoadedMorphs(morphTargets: seq<Option<UMorphTarget>>, lodIndex: nat): (r: seq<LoadedMorph>)
    ensures |r| <= |morphTargets|
  {
    if morphTargets == [] then []
    else
      var last := LoadedMorphOf(morphTargets[|morphTargets| - 1], lodIndex);
      LoadedMorphs(morphTargets[..|morphTargets| - 1], lodIndex) + (if last.Some? then [last.value] else [])
  }

  function LoadedMorphBytes(m: LoadedMorph): seq<byte>
  {
    MorphTargetBytes(m.Name, |m.Lod|, MorphDataList(m.Lod))
  }

  /**
   * The payload as written is exactly the serialized targets: a skipped reference
   * contributes no bytes, so only the declared count is off.
   */
  lemma {:induction false} MorphPayloadIsLoadedTargets(morphTargets: seq<Option<UMorphTarget>>, lodIndex: nat)
    ensures EncodeAll(MorphEncoder(lodIndex), morphTargets) == EncodeAll(LoadedMorphBytes, LoadedMorphs(morphTargets, lodIndex))
    decreases |morphTargets|
  {
    if morphTargets != [] {
      var n := |morphTargets|;
      var init := morphTargets[..n - 1];
      MorphPayloadIsLoadedTargets(init, lodIndex);
      var last := LoadedMorphOf(morphTargets[n - 1], lodIndex);
      if last.Some? {
        EncodeAllSnoc(LoadedMorphBytes, LoadedMorphs(init, lodIndex), last.value);
      } else {
        assert LoadedMorphs(morphTargets, lodIndex) == LoadedMorphs(init, lodIndex);
      }
    }
  }

  /** A socket's whole record inside the chunk: its names, then its transform. */
  function SocketBytes(s: USkeletalMeshSocket): seq<byte>
  {
    SocketNameBytes(Some(s)) + SocketTransformBytes(Some(s))
  }

  /**
   * The skeletal chunks with every count equal to the number of records its payload
   * holds and every socket record inside SOCKETS.
   */
  function SkeletalMeshChunks(verts: seq<CSkelMeshVertex>, bones: seq<CSkelMeshBone>, morphTargets: Option<seq<Option<UMorphTarget>>>, sockets: seq<Option<USkeletalMeshSocket>>, lodIndex: nat): seq<FDataChunk>
    requires WeightsOk(verts) && |bones| < TWO_31 && |sockets| < TWO_31
    requires morphTargets.Some? ==> |morphTargets.value| < TWO_31
  {
    [FDataChunk(WEIGHTS, WrapInt32(|WeightRecords(verts, |verts|)|), EncodeAll(WeightBytes, WeightRecords(verts, |verts|)))]
    + (if morphTargets.Some? then
         [FDataChunk(MORPHTARGETS, |LoadedMorphs(morphTargets.value, lodIndex)|, EncodeAll(MorphEncoder(lodIndex), morphTargets.value))]
       else [])
    + [FDataChunk(BONES, |bones|, EncodeAll(BoneBytes, bones)),
       FDataChunk(SOCKETS, |Present(sockets)|, EncodeAll(SocketBytes, Present(sockets)))]
  }

  /** The MORPHTARGETS loop, counting the targets it serializes. */
  method LoadedMorphTargetsChunk(morphTargets: seq<Option<UMorphTarget>>, lodIndex: nat) returns (c: FDataChunk)
    requires |morphTargets| < TWO_31
    ensures c == FDataChunk(MORPHTARGETS, |LoadedMorphs(morphTargets, lodIndex)|, EncodeAll(MorphEncoder(lodIndex), morphTargets))
  {
    var payload := new FArchiveWriter();
    var enc := MorphEncoder(lodIndex);
    var count := 0;
    for i := 0 to |morphTargets|
      invariant payload.Valid() && payload.buffer == EncodeAll(enc, morphTargets[..i])
      invariant count == |LoadedMorphs(morphTargets[..i], lodIndex)| <= i
    {
      EncodeAllPrefixStep(enc, morphTargets, i);
      LoadedMorphsStep(morphTargets, i, lodIndex);
      var serialized := SerializeMorphReference(payload, morphTargets[i], lodIndex);
      if serialized {
        count := count + 1;
      }
    }
    assert morphTargets[..|morphTargets|] == morphTargets;
    var body := payload.GetBuffer();
    c := FDataChunk(MORPHTARGETS, count, body);
  }

  /** LoadedMorphs, one reference further. */
  lemma LoadedMorphsStep(morphTargets: seq<Option<UMorphTarget>>, i: nat, lodIndex: nat)
    requires i < |morphTargets|
    ensures |LoadedMorphs(morphTargets[..i + 1], lodIndex)|
      == |LoadedMorphs(morphTargets[..i], lodIndex)| + (if MorphLod(morphTargets[i], lodIndex).Some? then 1 else 0)
  {
    assert morphTargets[..i + 1][..i] == morphTargets[..i];
  }

  lemma ChunkListShape<T>(a: T, m: seq<T>, b: T, c: T)
    ensures [a] + m + [b] + [c] == [a] + m + [b, c]
  {
  }

  /** SerializeSkeletalMeshData with the counts and the socket names corrected. */
  method SerializeSkeletalMeshDataCorrected(ar: FArchiveWriter, verts: seq<CSkelMeshVertex>, bones: seq<CSkelMeshBone>, morphTargets: Option<seq<Option<UMorphTarget>>>, sockets: seq<Option<USkeletalMeshSocket>>, lodIndex: nat)
    requires ar.Valid() && WeightsOk(verts) && |bones| < TWO_31 && |sockets| < TWO_31
    requires morphTargets.Some? ==> |morphTargets.value| < TWO_31
    modifies ar
    ensures ar.Valid()
    ensures ar.buffer == old(ar.buffer) + EncodeAll(ChunkBytesOf, SkeletalMeshChunks(verts, bones, morphTargets, sockets, lodIndex))
  {
    ghost var start := ar.buffer;
    var weightsChunk := WeightsChunk(verts);
    FlushChunk(weightsChunk, ar, start, []);
    ghost var morphPart: seq<FDataChunk> := [];
    if morphTargets.Some? {
      var morphTargetsChunk := LoadedMorphTargetsChunk(morphTargets.value, lodIndex);
      FlushChunk(morphTargetsChunk, ar, start, [weightsChunk]);
      morphPart := [morphTargetsChunk];
    }
    var boneChunk := BuildChunk(BONES, BoneBytes, bones);
    FlushChunk(boneChunk, ar, start, [weightsChunk] + morphPart);
    var socketChunk := BuildCountedChunk(SOCKETS, SocketBytes, sockets);
    FlushChunk(socketChunk, ar, start, [weightsChunk] + morphPart + [boneChunk]);
    ChunkListShape(weightsChunk, morphPart, boneChunk, socketChunk);
  }

  // ------------------------------------------------------------------- constructors

  /** The static vertex of every skinned vertex, in order. */
  function StaticVertices(verts: seq<CSkelMeshVertex>): (r: seq<CMeshVertex>)
    ensures |r| == |verts| && forall i :: 0 <= i < |verts| ==> r[i] == verts[i].Vertex
  {
    seq(|verts|, i requires 0 <= i < |verts| => verts[i].Vertex)
  }

  /** A UMODEL asset for a static mesh LOD: the header, and the static chunks as its body. */
  method NewStaticModel(verts: seq<CMeshVertex>, indices: seq<int32>, vertexColors: Option<seq<FColor>>, materials: seq<Option<FStr>>,
                        name: FStr, compression: UnrealHeader.EFileCompressionFormat, normalize: FVector -> FVector)
    returns (model: ExportableAsset.ExportableUnrealAssetBase)
    requires StaticSizesOk(verts, indices, vertexColors, materials)
    ensures fresh(model) && model.Valid()
    ensures model.Header.Identifier == UMODEL && model.Header.FileVersion == 1
    ensures model.Header.ObjectName == name && model.Header.CompressionFormat == compression
    ensures model.Ar.buffer == EncodeAll(ChunkBytesOf, StaticMeshChunks(verts, indices, vertexColors, materials, normalize))
  {
    model := NewModel(name, compression);
    SerializeStaticMeshData(model.Ar, verts, indices, vertexColors, materials, normalize);
  }

  /** The body of a skeletal UMODEL: the static chunks of its vertices, then the skeletal chunks. */
  method SerializeSkeletalLod(ar: FArchiveWriter, verts: seq<CSkelMeshVertex>, indices: seq<int32>, vertexColors: Option<seq<FColor>>, materials: seq<Option<FStr>>,
                              bones: seq<CSkelMeshBone>, morphTargets: Option<seq<Option<UMorphTarget>>>,
                              sockets: seq<Option<USkeletalMeshSocket>>, lodIndex: nat, normalize: FVector -> FVector)
    requires ar.Valid() && StaticSizesOk(StaticVertices(verts), indices, vertexColors, materials)
    requires WeightsOk(verts) && |bones| < TWO_31 && |sockets| < TWO_31
    requires morphTargets.Some? ==> |morphTargets.value| < TWO_31
    modifies ar
    ensures ar.Valid()
    ensures ar.buffer == old(ar.buffer) + EncodeAll(ChunkBytesOf, StaticMeshChunks(StaticVertices(verts), indices, vertexColors, materials, normalize)
                                                                   + SkeletalMeshChunks(verts, bones, morphTargets, sockets, lodIndex))
  {
    ghost var start := ar.buffer;
    var staticVerts := StaticVertices(verts);
    ghost var staticChunks := StaticMeshChunks(staticVerts, indices, vertexColors, materials, normalize);
    ghost var skeletalChunks := SkeletalMeshChunks(verts, bones, morphTargets, sockets, lodIndex);
    SerializeStaticMeshData(ar, staticVerts, indices, vertexColors, materials, normalize);
    SerializeSkeletalMeshDataCorrected(ar, verts, bones, morphTargets, sockets, lodIndex);
    EncodeAllConcat(ChunkBytesOf, staticChunks, skeletalChunks);
    AppendAssoc(start, EncodeAll(ChunkBytesOf, staticChunks), EncodeAll(ChunkBytesOf, skeletalChunks));
  }

  /**
   * A UMODEL asset for a skeletal mesh LOD: the static chunks of its vertices, then the
   * skeletal chunks (with the corrected counts and socket records).
   */
  method NewSkeletalModel(verts: seq<CSkelMeshVertex>, indices: seq<int32>, vertexColors: Option<seq<FColor>>, materials: seq<Option<FStr>>,
                          name: FStr, bones: seq<CSkelMeshBone>, morphTargets: Option<seq<Option<UMorphTarget>>>,
                          sockets: seq<Option<USkeletalMeshSocket>>, lodIndex: nat,
                          compression: UnrealHeader.EFileCompressionFormat, normalize: FVector -> FVector)
    returns (model: ExportableAsset.ExportableUnrealAssetBase)
    requires StaticSizesOk(StaticVertices(verts), indices, vertexColors, materials)
    requires WeightsOk(verts) && |bones| < TWO_31 && |sockets| < TWO_31
    requires morphTargets.Some? ==> |morphTargets.value| < TWO_31
    ensures fresh(model) && model.Valid()
    ensures model.Header.Identifier == UMODEL && model.Header.FileVersion == 1
    ensures model.Header.ObjectName == name && model.Header.CompressionFormat == compression
    ensures model.Ar.buffer == EncodeAll(ChunkBytesOf, StaticMeshChunks(StaticVertices(verts), indices, vertexColors, materials, normalize)
                                                        + SkeletalMeshChunks(verts, bones, morphTargets, sockets, lodIndex))
  {
    model := NewModel(name, compression);
    SerializeSkeletalLod(model.Ar, verts, indices, vertexColors, materials, bones, morphTargets, sockets, lodIndex, normalize);
  }
}
