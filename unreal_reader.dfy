/**
 * The importer's decoding of the interchange format, as functions on the bytes not yet
 * read: each reader returns the value and the bytes after it, or None where
 * `struct.unpack` raises on a short read (an exception aborts the whole import). The
 * imperative cursor that applies these readers is in module ArchiveReader.
 */
module UnrealReader {
  import opened Wrappers
  import opened Bytes
  import DataChunk

  /** A value read from the front of the input, and the input left after it. */
  datatype Parsed<+T> = Parsed(value: T, rest: seq<byte>)

  /** `r` is what remains of `d` after reading from its front. */
  predicate IsSuffix(r: seq<byte>, d: seq<byte>)
  {
    |r| <= |d| && d[|d| - |r|..] == r
  }

  lemma SuffixTrans(a: seq<byte>, b: seq<byte>, c: seq<byte>)
    requires IsSuffix(a, b) && IsSuffix(b, c)
    ensures IsSuffix(a, c)
  {
    assert c[|c| - |a|..] == c[|c| - |b|..][|b| - |a|..];
  }

  /** A reader only ever consumes bytes from the front of its input. */
  ghost predicate Consumes<T>(rd: seq<byte> -> Option<Parsed<T>>)
  {
    forall d :: rd(d).Some? ==> IsSuffix(rd(d).value.rest, d)
  }

  // ------------------------------------------------------------------ primitive reads

  /** `BytesIO.read(n)`: at most n bytes, fewer at the end; a negative n reads everything. */
  function ReadBytes(d: seq<byte>, n: int): (r: Parsed<seq<byte>>)
    ensures r.value + r.rest == d && IsSuffix(r.rest, d)
    ensures 0 <= n <= |d| ==> |r.value| == n
    ensures n < 0 || n >= |d| ==> r.rest == []
  {
    var k := if n < 0 || n > |d| then |d| else n;
    assert d[..k] + d[k..] == d;
    Parsed(d[..k], d[k..])
  }

  /** `struct.unpack("i", read(4))`. */
  function ReadInt(d: seq<byte>): (r: Option<Parsed<int32>>)
    ensures r.Some? <==> |d| >= 4
    ensures r.Some? ==> r.value.rest == d[4..] && IsSuffix(r.value.rest, d)
  {
    if |d| < 4 then None else Some(Parsed(Int32Of(d[..4]), d[4..]))
  }

  /** `struct.unpack("I", ...)`: one unsigned element of `read_int_vector`. */
  function ReadUInt(d: seq<byte>): (r: Option<Parsed<uint32>>)
    ensures r.Some? <==> |d| >= 4
    ensures r.Some? ==> r.value.rest == d[4..] && IsSuffix(r.value.rest, d)
  {
    if |d| < 4 then None else Some(Parsed(UInt32Of(d[..4]), d[4..]))
  }

  /** `struct.unpack("h", read(2))`. */
  function ReadShort(d: seq<byte>): (r: Option<Parsed<int16>>)
    ensures r.Some? <==> |d| >= 2
    ensures r.Some? ==> r.value.rest == d[2..] && IsSuffix(r.value.rest, d)
  {
    if |d| < 2 then None else Some(Parsed(Int16Of(d[..2]), d[2..]))
  }

  /** `struct.unpack("f", read(4))`, kept as the float's bit pattern. */
  function ReadFloat(d: seq<byte>): (r: Option<Parsed<Float32>>)
    ensures r.Some? <==> |d| >= 4
    ensures r.Some? ==> r.value.rest == d[4..] && IsSuffix(r.value.rest, d)
  {
    if |d| < 4 then None else Some(Parsed(UInt32Of(d[..4]), d[4..]))
  }

  /** `struct.unpack("B", ...)`: one element of `read_byte_vector`. */
  function ReadByte(d: seq<byte>): (r: Option<Parsed<byte>>)
    ensures r.Some? <==> |d| >= 1
    ensures r.Some? ==> r.value.rest == d[1..] && IsSuffix(r.value.rest, d)
  {
    if |d| < 1 then None else Some(Parsed(d[0], d[1..]))
  }

  /** `struct.unpack("?", read(1))`: any non-zero byte reads as True. */
  function ReadBool(d: seq<byte>): (r: Option<Parsed<bool>>)
    ensures r.Some? <==> |d| >= 1
    ensures r.Some? ==> r.value.rest == d[1..] && (r.value.value <==> d[0] != 0)
  {
    if |d| < 1 then None else Some(Parsed(d[0] != 0, d[1..]))
  }

  /**
   * `read_fstring`: a signed 32-bit length, then `read(length)` (so a short input yields a
   * short string and a negative length reads to the end), with trailing NULs stripped.
   * Decoding the bytes as UTF-8 is not part of this model: strings stay bytes.
   */
  function ReadFString(d: seq<byte>): (r: Option<Parsed<seq<byte>>>)
    ensures r.Some? <==> |d| >= 4
    ensures r.Some? ==> IsSuffix(r.value.rest, d) && |r.value.rest| <= |d| - 4
  {
    match ReadInt(d)
    case None => None
    case Some(size) =>
      var s := ReadBytes(size.rest, size.value);
      SuffixTrans(s.rest, size.rest, d);
      Some(Parsed(StripNuls(s.value), s.rest))
  }

  /**
   * `read_bulk_array(count, predicate)`: `predicate` applied `count` times in order (none
   * when count is not positive); any failure aborts.
   */
  function ReadBulk<T>(d: seq<byte>, count: int, rd: seq<byte> -> Option<Parsed<T>>): (r: Option<Parsed<seq<T>>>)
    requires Consumes(rd)
    ensures r.Some? ==> IsSuffix(r.value.rest, d)
    ensures r.Some? ==> |r.value.value| == if count < 0 then 0 else count
    decreases if count < 0 then 0 else count
  {
    if count <= 0 then Some(Parsed([], d))
    else
      match rd(d)
      case None => None
      case Some(p) =>
        match ReadBulk(p.rest, count - 1, rd)
        case None => None
        case Some(q) =>
          SuffixTrans(q.rest, p.rest, d);
          Some(Parsed([p.value] + q.value, q.rest))
  }

  lemma ConsumesPrimitives()
    ensures Consumes(ReadFloat) && Consumes(ReadUInt) && Consumes(ReadByte) && Consumes(ReadFString)
  {
  }

  /** `read_float_vector(n)`: n floats, all or nothing. */
  function ReadFloatVector(d: seq<byte>, n: nat): (r: Option<Parsed<seq<Float32>>>)
    ensures r.Some? ==> IsSuffix(r.value.rest, d) && |r.value.value| == n
  {
    ConsumesPrimitives();
    ReadBulk(d, n, ReadFloat)
  }

  /** `read_int_vector(n)`: n unsigned 32-bit ints. */
  function ReadIntVector(d: seq<byte>, n: nat): (r: Option<Parsed<seq<uint32>>>)
    ensures r.Some? ==> IsSuffix(r.value.rest, d) && |r.value.value| == n
  {
    ConsumesPrimitives();
    ReadBulk(d, n, ReadUInt)
  }

  /** `read_byte_vector(n)`: n unsigned bytes. */
  function ReadByteVector(d: seq<byte>, n: nat): (r: Option<Parsed<seq<byte>>>)
    ensures r.Some? ==> IsSuffix(r.value.rest, d) && |r.value.value| == n
  {
    ConsumesPrimitives();
    ReadBulk(d, n, ReadByte)
  }

  // ---------------------------------------------------------------------- records

  datatype WeightRec = WeightRec(BoneIndex: int16, VertexIndex: int32, Weight: Float32)

  /**
   * The positions the importer scales by 0.01 are kept as read: that scaling is
   * floating-point arithmetic and is not part of this model.
   */
  datatype BoneRec = BoneRec(Name: seq<byte>, ParentIndex: int32, Position: seq<Float32>, Rotation: seq<Float32>)

  datatype MorphTargetDataRec = MorphTargetDataRec(Position: seq<Float32>, Normals: seq<Float32>, VertexIndex: int32)

  datatype MorphTargetRec = MorphTargetRec(Name: seq<byte>, Deltas: seq<MorphTargetDataRec>)

  datatype SocketRec = SocketRec(Name: seq<byte>, ParentName: seq<byte>, Position: seq<Float32>, Rotation: seq<Float32>, Scale: seq<Float32>)

  datatype HashedMeshRec = HashedMeshRec(Hash: int32, Data: seq<byte>)

  datatype ActorRec = ActorRec(Hash: int32, Name: seq<byte>, Position: seq<Float32>, Rotation: seq<Float32>, Scale: seq<Float32>)

  /** `Weight(ar)`: bone index, vertex index, weight. */
  function ReadWeight(d: seq<byte>): (r: Option<Parsed<WeightRec>>)
    ensures r.Some? <==> |d| >= 10
    ensures r.Some? ==> r.value.rest == d[10..]
  {
    match ReadShort(d)
    case None => None
    case Some(b) =>
      match ReadInt(b.rest)
      case None => None
      case Some(v) =>
        match ReadFloat(v.rest)
        case None => None
        case Some(w) => Some(Parsed(WeightRec(b.value, v.value, w.value), w.rest))
  }

  /** `Bone(ar)`: name, parent index, position (3 floats), rotation (4 floats). */
  function ReadBone(d: seq<byte>): (r: Option<Parsed<BoneRec>>)
    ensures r.Some? ==> IsSuffix(r.value.rest, d)
  {
    match ReadFString(d)
    case None => None
    case Some(name) =>
      match ReadInt(name.rest)
      case None => None
      case Some(parent) =>
        match ReadFloatVector(parent.rest, 3)
        case None => None
        case Some(pos) =>
          match ReadFloatVector(pos.rest, 4)
          case None => None
          case Some(rot) =>
            SuffixTrans(parent.rest, name.rest, d);
            SuffixTrans(pos.rest, parent.rest, d);
            SuffixTrans(rot.rest, pos.rest, d);
            Some(Parsed(BoneRec(name.value, parent.value, pos.value, rot.value), rot.rest))
  }

  /** `MorphTargetData(ar)`: position delta, normal delta, vertex index. */
  function ReadMorphTargetData(d: seq<byte>): (r: Option<Parsed<MorphTargetDataRec>>)
    ensures r.Some? ==> IsSuffix(r.value.rest, d)
  {
    match ReadFloatVector(d, 3)
    case None => None
    case Some(pos) =>
      match ReadFloatVector(pos.rest, 3)
      case None => None
      case Some(nrm) =>
        match ReadInt(nrm.rest)
        case None => None
        case Some(idx) =>
          SuffixTrans(nrm.rest, pos.rest, d);
          SuffixTrans(idx.rest, nrm.rest, d);
          Some(Parsed(MorphTargetDataRec(pos.value, nrm.value, idx.value), idx.rest))
  }

  lemma ConsumesRecords()
    ensures Consumes(ReadWeight) && Consumes(ReadBone) && Consumes(ReadMorphTargetData)
  {
    forall d | ReadWeight(d).Some?
      ensures IsSuffix(ReadWeight(d).value.rest, d)
    {
      assert d[|d| - (|d| - 10)..] == d[10..];
    }
  }

  /** `MorphTarget(ar)`: name, delta count, then that many deltas. */
  function ReadMorphTarget(d: seq<byte>): (r: Option<Parsed<MorphTargetRec>>)
    ensures r.Some? ==> IsSuffix(r.value.rest, d) && |r.value.rest| <= |d| - 8
  {
    match ReadFString(d)
    case None => None
    case Some(name) =>
      match ReadInt(name.rest)
      case None => None
      case Some(count) =>
        ConsumesRecords();
        match ReadBulk(count.rest, count.value, ReadMorphTargetData)
        case None => None
        case Some(deltas) =>
          SuffixTrans(count.rest, name.rest, d);
          SuffixTrans(deltas.rest, count.rest, d);
          Some(Parsed(MorphTargetRec(name.value, deltas.value), deltas.rest))
  }

  /** `Socket(ar)`: name, parent bone name, then position, rotation and scale (3 floats each). */
  function ReadSocket(d: seq<byte>): (r: Option<Parsed<SocketRec>>)
    ensures r.Some? ==> IsSuffix(r.value.rest, d)
  {
    match ReadFString(d)
    case None => None
    case Some(name) =>
      match ReadFString(name.rest)
      case None => None
      case Some(parent) =>
        match ReadFloatVector(parent.rest, 3)
        case None => None
        case Some(pos) =>
          match ReadFloatVector(pos.rest, 3)
          case None => None
          case Some(rot) =>
            match ReadFloatVector(rot.rest, 3)
            case None => None
            case Some(scale) =>
              SuffixTrans(parent.rest, name.rest, d);
              SuffixTrans(pos.rest, parent.rest, d);
              SuffixTrans(rot.rest, pos.rest, d);
              SuffixTrans(scale.rest, rot.rest, d);
              Some(Parsed(SocketRec(name.value, parent.value, pos.value, rot.value, scale.value), scale.rest))
  }

  /** `HashedMesh(ar)`: hash, data size, then `read(data_size)`. */
  function ReadHashedMesh(d: seq<byte>): (r: Option<Parsed<HashedMeshRec>>)
    ensures r.Some? <==> |d| >= 8
    ensures r.Some? ==> IsSuffix(r.value.rest, d)
  {
    match ReadInt(d)
    case None => None
    case Some(hash) =>
      match ReadInt(hash.rest)
      case None => None
      case Some(size) =>
        var data := ReadBytes(size.rest, size.value);
        SuffixTrans(size.rest, hash.rest, d);
        SuffixTrans(data.rest, size.rest, d);
        Some(Parsed(HashedMeshRec(hash.value, data.value), data.rest))
  }

  /** `Actor(ar)`: mesh hash, name, then position, rotation and scale. */
  function ReadActor(d: seq<byte>): (r: Option<Parsed<ActorRec>>)
    ensures r.Some? ==> IsSuffix(r.value.rest, d)
  {
    match ReadInt(d)
    case None => None
    case Some(hash) =>
      match ReadFString(hash.rest)
      case None => None
      case Some(name) =>
        match ReadFloatVector(name.rest, 3)
        case None => None
        case Some(pos) =>
          match ReadFloatVector(pos.rest, 3)
          case None => None
          case Some(rot) =>
            match ReadFloatVector(rot.rest, 3)
            case None => None
            case Some(scale) =>
              SuffixTrans(name.rest, hash.rest, d);
              SuffixTrans(pos.rest, name.rest, d);
              SuffixTrans(rot.rest, pos.rest, d);
              SuffixTrans(scale.rest, rot.rest, d);
              Some(Parsed(ActorRec(hash.value, name.value, pos.value, rot.value, scale.value), scale.rest))
  }

  // ------------------------------------------------------------------- chunk loops

  /** The three fields in front of every chunk's payload. */
  datatype ChunkHeader = ChunkHeader(Tag: seq<byte>, Count: int32, ByteSize: int32)

  function ReadChunkHeader(d: seq<byte>): (r: Option<Parsed<ChunkHeader>>)
    ensures r.Some? ==> IsSuffix(r.value.rest, d) && |r.value.rest| <= |d| - 12
  {
    match ReadFString(d)
    case None => None
    case Some(tag) =>
      match ReadInt(tag.rest)
      case None => None
      case Some(count) =>
        match ReadInt(count.rest)
        case None => None
        case Some(size) =>
          SuffixTrans(count.rest, tag.rest, d);
          SuffixTrans(size.rest, count.rest, d);
          Some(Parsed(ChunkHeader(tag.value, count.value, size.value), size.rest))
  }

  function ReadVector3(d: seq<byte>): (r: Option<Parsed<seq<Float32>>>)
    ensures r.Some? ==> IsSuffix(r.value.rest, d) && |r.value.value| == 3
  {
    ReadFloatVector(d, 3)
  }

  function ReadUV(d: seq<byte>): (r: Option<Parsed<seq<Float32>>>)
    ensures r.Some? ==> IsSuffix(r.value.rest, d) && |r.value.value| == 2
  {
    ReadFloatVector(d, 2)
  }

  function ReadTriangle(d: seq<byte>): (r: Option<Parsed<seq<uint32>>>)
    ensures r.Some? ==> IsSuffix(r.value.rest, d) && |r.value.value| == 3
  {
    ReadIntVector(d, 3)
  }

  function ReadColor(d: seq<byte>): (r: Option<Parsed<seq<byte>>>)
    ensures r.Some? ==> IsSuffix(r.value.rest, d) && |r.value.value| == 4
  {
    ReadByteVector(d, 4)
  }

  lemma ConsumesChunkRecords()
    ensures Consumes(ReadVector3) && Consumes(ReadUV) && Consumes(ReadTriangle) && Consumes(ReadColor)
    ensures Consumes(ReadFString) && Consumes(ReadWeight) && Consumes(ReadBone)
    ensures Consumes(ReadMorphTarget) && Consumes(ReadSocket) && Consumes(ReadHashedMesh) && Consumes(ReadActor)
  {
    ConsumesPrimitives();
    ConsumesRecords();
  }

  /** Python's `int(array_size / 3)`: the quotient truncated toward zero. */
  function TriangleCount(arraySize: int32): (r: int)
    ensures arraySize >= 0 ==> 3 * r <= arraySize < 3 * r + 3
    ensures arraySize < 0 ==> r <= 0
  {
    var a: int := arraySize;
    if a >= 0 then a / 3 else -((-a) / 3)
  }

  /** The importer's mesh: every list starts empty and a chunk replaces one list wholesale. */
  datatype UModel = UModel(
    Vertices: seq<seq<Float32>>, Indices: seq<seq<uint32>>, Normals: seq<seq<Float32>>,
    Tangents: seq<seq<Float32>>, Colors: seq<seq<byte>>, UVs: seq<seq<Float32>>,
    Materials: seq<seq<byte>>, Morphs: seq<MorphTargetRec>, Weights: seq<WeightRec>,
    Bones: seq<BoneRec>, Sockets: seq<SocketRec>)

  const EmptyUModel := UModel([], [], [], [], [], [], [], [], [], [], [])

  /** A bulk read stored into the model, or the failure passed on. */
  function Store<T, M>(r: Option<Parsed<T>>, put: T -> M): (s: Option<Parsed<M>>)
    ensures s.Some? <==> r.Some?
    ensures s.Some? ==> s.value == Parsed(put(r.value.value), r.value.rest)
  {
    match r
    case None => None
    case Some(p) => Some(Parsed(put(p.value), p.rest))
  }

  /**
   * The payload of one `import_umodel_data` chunk, read with the reader its tag selects
   * (INDICES reads a third of the count as triangles); an unknown tag skips the declared
   * byte size.
   */
  function UModelPayload(h: ChunkHeader, body: seq<byte>, m: UModel): (r: Option<Parsed<UModel>>)
    ensures r.Some? ==> IsSuffix(r.value.rest, body)
  {
    ConsumesChunkRecords();
    var tag, n := h.Tag, h.Count;
    if tag == DataChunk.VERTICES then Store(ReadBulk(body, n, ReadVector3), (v: seq<seq<Float32>>) => m.(Vertices := v))
    else if tag == DataChunk.INDICES then Store(ReadBulk(body, TriangleCount(n), ReadTriangle), (v: seq<seq<uint32>>) => m.(Indices := v))
    else if tag == DataChunk.NORMALS then Store(ReadBulk(body, n, ReadVector3), (v: seq<seq<Float32>>) => m.(Normals := v))
    else if tag == DataChunk.TANGENTS then Store(ReadBulk(body, n, ReadVector3), (v: seq<seq<Float32>>) => m.(Tangents := v))
    else if tag == DataChunk.VERTEXCOLORS then Store(ReadBulk(body, n, ReadColor), (v: seq<seq<byte>>) => m.(Colors := v))
    else if tag == DataChunk.TEXCOORDS then Store(ReadBulk(body, n, ReadUV), (v: seq<seq<Float32>>) => m.(UVs := v))
    else if tag == DataChunk.MATERIALS then Store(ReadBulk(body, n, ReadFString), (v: seq<seq<byte>>) => m.(Materials := v))
    else if tag == DataChunk.WEIGHTS then Store(ReadBulk(body, n, ReadWeight), (v: seq<WeightRec>) => m.(Weights := v))
    else if tag == DataChunk.BONES then Store(ReadBulk(body, n, ReadBone), (v: seq<BoneRec>) => m.(Bones := v))
    else if tag == DataChunk.MORPHTARGETS then Store(ReadBulk(body, n, ReadMorphTarget), (v: seq<MorphTargetRec>) => m.(Morphs := v))
    else if tag == DataChunk.SOCKETS then Store(ReadBulk(body, n, ReadSocket), (v: seq<SocketRec>) => m.(Sockets := v))
    else Some(Parsed(m, ReadBytes(body, h.ByteSize).rest))
  }

  /** One pass of `import_umodel_data`'s loop: the chunk header, then its payload. */
  function UModelChunk(d: seq<byte>, m: UModel): (r: Option<Parsed<UModel>>)
    ensures r.Some? ==> IsSuffix(r.value.rest, d) && |r.value.rest| < |d|
  {
    match ReadChunkHeader(d)
    case None => None
    case Some(h) =>
      var out := UModelPayload(h.value, h.rest, m);
      if out.None? then None
      else
        SuffixTrans(out.value.rest, h.rest, d);
        out
  }

  /** `while not ar.eof()`: chunks until no byte is left. */
  function UModelChunks(d: seq<byte>, m: UModel): Option<UModel>
    decreases |d|
  {
    if d == [] then Some(m)
    else
      match UModelChunk(d, m)
      case None => None
      case Some(p) => UModelChunks(p.rest, p.value)
  }

  /** The importer's world: the meshes and actors chunks, each replacing its list. */
  datatype UWorld = UWorld(Meshes: seq<HashedMeshRec>, Actors: seq<ActorRec>)

  const EmptyUWorld := UWorld([], [])

  /** The payload of one `import_uworld_data` chunk. */
  function UWorldPayload(h: ChunkHeader, body: seq<byte>, w: UWorld): (r: Option<Parsed<UWorld>>)
    ensures r.Some? ==> IsSuffix(r.value.rest, body)
  {
    ConsumesChunkRecords();
    if h.Tag == DataChunk.MESHES then Store(ReadBulk(body, h.Count, ReadHashedMesh), (v: seq<HashedMeshRec>) => w.(Meshes := v))
    else if h.Tag == DataChunk.ACTORS then Store(ReadBulk(body, h.Count, ReadActor), (v: seq<ActorRec>) => w.(Actors := v))
    else Some(Parsed(w, ReadBytes(body, h.ByteSize).rest))
  }

  /** One pass of `import_uworld_data`'s loop. */
  function UWorldChunk(d: seq<byte>, w: UWorld): (r: Option<Parsed<UWorld>>)
    ensures r.Some? ==> IsSuffix(r.value.rest, d) && |r.value.rest| < |d|
  {
    match ReadChunkHeader(d)
    case None => None
    case Some(h) =>
      var out := UWorldPayload(h.value, h.rest, w);
      if out.None? then None
      else
        SuffixTrans(out.value.rest, h.rest, d);
        out
  }

  function UWorldChunks(d: seq<byte>, w: UWorld): Option<UWorld>
    decreases |d|
  {
    if d == [] then Some(w)
    else
      match UWorldChunk(d, w)
      case None => None
      case Some(p) => UWorldChunks(p.rest, p.value)
  }

  // ------------------------------------------------------------------ import_data

  const MAGIC: seq<byte> := Ascii("UNREALFORMAT")
  const MESH_IDENTIFIER: seq<byte> := Ascii("UMODEL")
  const WORLD_IDENTIFIER: seq<byte> := Ascii("UWORLD")
  const GZIP_NAME: seq<byte> := Ascii("GZIP")
  const ZSTD_NAME: seq<byte> := Ascii("ZSTD")

  /** The header fields after the magic; the compression name is read only when flagged. */
  datatype HeaderRec = HeaderRec(Identifier: seq<byte>, FileVersion: int32, ObjectName: seq<byte>, IsCompressed: bool, CompressionType: seq<byte>)

  /** The compressed flag and, only when it is set, the compression name. */
  function ReadCompression(d: seq<byte>): (r: Option<Parsed<(bool, seq<byte>)>>)
    ensures r.Some? ==> IsSuffix(r.value.rest, d)
    ensures r.Some? ==> |d| >= 1
    ensures r.Some? ==> (r.value.value.0 <==> d[0] != 0)
    ensures r.Some? && !r.value.value.0 ==> r.value.value.1 == [] && r.value.rest == d[1..]
  {
    match ReadBool(d)
    case None => None
    case Some(flag) =>
      if !flag.value then Some(Parsed((false, []), flag.rest))
      else
        match ReadFString(flag.rest)
        case None => None
        case Some(compression) =>
          SuffixTrans(compression.rest, flag.rest, d);
          Some(Parsed((true, compression.value), compression.rest))
  }

  function ReadHeader(d: seq<byte>): (r: Option<Parsed<HeaderRec>>)
    ensures r.Some? ==> IsSuffix(r.value.rest, d)
    ensures r.Some? && !r.value.value.IsCompressed ==> r.value.value.CompressionType == []
  {
    match ReadFString(d)
    case None => None
    case Some(identifier) =>
      match ReadInt(identifier.rest)
      case None => None
      case Some(version) =>
        match ReadFString(version.rest)
        case None => None
        case Some(name) =>
          match ReadCompression(name.rest)
          case None => None
          case Some(c) =>
            SuffixTrans(version.rest, identifier.rest, d);
            SuffixTrans(name.rest, version.rest, d);
            SuffixTrans(c.rest, name.rest, d);
            Some(Parsed(HeaderRec(identifier.value, version.value, name.value, c.value.0, c.value.1), c.rest))
  }

  /**
   * What `import_data` produces: None (bad magic, unknown compression or identifier), an
   * exception, the mesh of a UMODEL, or, for a UWORLD, the world and its mesh table once
   * every actor has found its mesh (the world import itself returns None).
   */
  datatype Imported =
    | NoResult
    | Raised
    | ModelImported(Name: seq<byte>, Model: UModel)
    | WorldImported(Name: seq<byte>, World: UWorld, MeshMap: map<int32, Imported>)

  /**
   * `import_data`. The decompressors are parameters; `depth` is what remains of Python's
   * recursion limit for worlds nested through their meshes, and its exhaustion raises.
   */
  function ImportData(d: seq<byte>, gunzip: seq<byte> -> seq<byte>, unzstd: seq<byte> -> seq<byte>, depth: nat): (r: Imported)
    ensures StripNuls(ReadBytes(d, |MAGIC|).value) != MAGIC ==> r == NoResult
    decreases depth, 2, 0
  {
    var magic := ReadBytes(d, |MAGIC|);
    if StripNuls(magic.value) != MAGIC then NoResult
    else
      match ReadHeader(magic.rest)
      case None => Raised
      case Some(h) =>
        var header := h.value;
        var body :=
          if !header.IsCompressed then Some(h.rest)
          else if header.CompressionType == GZIP_NAME then Some(gunzip(h.rest))
          else if header.CompressionType == ZSTD_NAME then Some(unzstd(h.rest))
          else None;
        if body.None? then NoResult
        else if header.Identifier == MESH_IDENTIFIER then
          match UModelChunks(body.value, EmptyUModel)
          case None => Raised
          case Some(m) => ModelImported(header.ObjectName, m)
        else if header.Identifier == WORLD_IDENTIFIER then ImportWorld(header.ObjectName, body.value, gunzip, unzstd, depth)
        else NoResult
  }

  /**
   * `import_uworld_data`: the chunks, then each mesh imported in turn into `mesh_map`
   * (a later mesh with the same hash replaces an earlier one), then every actor looks its
   * mesh up. A nested import that raises ends the whole import inside the loop; a missing
   * hash raises KeyError and a mesh that imported as None raises on `.data`.
   */
  function ImportWorld(name: seq<byte>, d: seq<byte>, gunzip: seq<byte> -> seq<byte>, unzstd: seq<byte> -> seq<byte>, depth: nat): (r: Imported)
    ensures r.WorldImported? ==> forall a :: a in r.World.Actors ==> a.Hash in r.MeshMap && r.MeshMap[a.Hash].ModelImported?
    decreases depth, 1, 0
  {
    match UWorldChunks(d, EmptyUWorld)
    case None => Raised
    case Some(w) =>
      if w.Meshes != [] && depth == 0 then Raised
      else
        var inner := if depth == 0 then 0 else depth - 1;
        if NestedRaises(w.Meshes, gunzip, unzstd, inner, depth) then Raised
        else
          var meshMap := MeshMap(w.Meshes, gunzip, unzstd, inner, depth);
          if forall a :: a in w.Actors ==> a.Hash in meshMap && meshMap[a.Hash].ModelImported? then
            WorldImported(name, w, meshMap)
          else Raised
  }

  /** Whether one of the nested `import_data` calls of the `mesh_map` loop raises. */
  predicate NestedRaises(meshes: seq<HashedMeshRec>, gunzip: seq<byte> -> seq<byte>, unzstd: seq<byte> -> seq<byte>, inner: nat, ghost depth: nat)
    requires meshes != [] ==> inner < depth
    decreases depth, 0, |meshes|
  {
    exists i :: 0 <= i < |meshes| && ImportData(meshes[i].Data, gunzip, unzstd, inner).Raised?
  }

  /** The loop filling `mesh_map`: one nested `import_data` per mesh, in order. */
  function MeshMap(meshes: seq<HashedMeshRec>, gunzip: seq<byte> -> seq<byte>, unzstd: seq<byte> -> seq<byte>, inner: nat, ghost depth: nat): (r: map<int32, Imported>)
    requires meshes != [] ==> inner < depth
    ensures r.Keys == set m | m in meshes :: m.Hash
    decreases depth, 0, |meshes|
  {
    if meshes == [] then map[]
    else
      var last := meshes[|meshes| - 1];
      MeshMap(meshes[..|meshes| - 1], gunzip, unzstd, inner, depth)[last.Hash := ImportData(last.Data, gunzip, unzstd, inner)]
  }
}
