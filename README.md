# CUE4Parse export core in Dafny

This project models the parts of CUE4Parse that turn engine assets into files, and it proves properties about that model.

**The UNREALFORMAT interchange format.** This is a chunked binary file format with two kinds of asset: `UMODEL` (a mesh) and `UWORLD` (a level).
- The append-only `FArchiveWriter` is a class whose byte buffer the writes extend.
- `FUnrealHeader` writes the magic, identifier, version, object name, the compressed flag and, only when compressed, the compression name.
- `ExportableUnrealAssetBase` saves or measures the header plus the whole body. The body is compressed as one piece. Compression is a codec parameter with a lossless round trip.
- Data chunks are values: a tag, a count and a body. A chunk is written as tag, count, byte size and payload.
- `UnrealModel` and `FMorphTarget` serialize static and skeletal meshes. This covers the chunk order, the counts and the sign flips of Y, V and the rotation components.
- `UnrealWorld` serializes levels. It de-duplicates meshes by hash, filters actors, and writes each embedded mesh with its byte length.
- The Python importer (`unreal.py`) is modelled twice:
  - as functions on the unread suffix of the input;
  - as a cursor class.
  The model covers the header check, length-prefixed strings with trailing NULs stripped, the chunk loops (which skip unknown tags by their byte size) and the record readers.
- The round-trip lemmas prove that the importer reads back what the writers write:
  - field by field for headers, chunks and records;
  - whole meshes and worlds, compressed or not.

**Mesh values.** The model covers:
- `FPackedNormal`: the version-gated XOR with `0x80808080`, the signed-byte overlay, the W default, the `RescaleToInt8` clamp and equality;
- the `CBaseMeshLod` buffer allocation and `SkipLod`;
- the `MeshExporter` LOD selection loops, file naming, extension choice and `TryWriteToDir` result.

**Landscapes.** The model covers:
- `ULandscapeComponent` extents and defaults;
- `FWeightmapLayerAllocationInfo` equality;
- the `FLandscapeComponentDataInterface`:
  - size derivation and construction errors;
  - subsection and texel coordinate maps, and the vertex index maps;
  - 16-bit height decoding;
  - the weight-layer search;
  - weight-channel extraction with its per-layer cache;
- the exporter's mesh assembly (`DoThings3_Mesh`), run sequentially:
  - the bounding box and the counts;
  - one vertex slice per component;
  - lazily created per-layer colour buffers;
  - the index buffer with two triangles per quad;
  - the single section;
  - its three failures: a component whose data interface cannot be built, a vertex height read that throws inside a task (a division by zero or an index past the height data), and a weight lookup that throws inside a task.

Floats are carried as their IEEE-754 bit patterns. Negating a float flips its sign bit, which is exact. Strings are byte sequences.

The writer (`CUE4Parse-Conversion/UnrealFormat/FUnrealHeader.cs:14, 26-29`) and the importer (`CUE4Parse-Conversion/UnrealFormat/unreal.py:207-209`) both use the 12 bytes of `UNREALFORMAT`.

## Model

| member | source | states |
|---|---|---|
| Bytes.WrapInt32 | CUE4Parse-Conversion/Meshes/UnrealFormat/UnrealModel.cs:113 | the narrowing agrees with the value whenever it fits in 32 bits and differs from it by a multiple of 2^32 otherwise |
| Bytes.WrapInt32Succ | CUE4Parse-Conversion/Meshes/UnrealFormat/UnrealModel.cs:113 | bumping a wrapped counter gives the wrapped count plus one, so `Count++` repeated n times is the count n wrapped |
| Bytes.UInt32RoundTrip | CUE4Parse-Conversion/UnrealFormat/unreal.py:63-64 | reading four little-endian bytes as an unsigned int gives back the value that was written |
| Bytes.Int32RoundTrip | CUE4Parse-Conversion/UnrealFormat/unreal.py:60-61 | reading struct "i" over the writer's `Write(int)` bytes gives back the signed value |
| Bytes.Int16RoundTrip | CUE4Parse-Conversion/UnrealFormat/unreal.py:66-67 | reading struct "h" over the writer's `Write(short)` bytes gives back the signed value |
| Bytes.Negate | CUE4Parse-Conversion/Meshes/UnrealFormat/UnrealModel.cs:41 | a float negation changes the value and keeps every bit except the sign |
| Bytes.NegateInvolutive | CUE4Parse-Conversion/Meshes/UnrealFormat/UnrealModel.cs:41 | negating twice gives back the original float |
| Bytes.BoolBytes | CUE4Parse-Conversion/UnrealFormat/unreal.py:48-49 | a bool is one byte, non-zero exactly when it is true |
| Bytes.FStringBytes | CUE4Parse-Conversion/UnrealFormat/unreal.py:55-58 | a string is a 4-byte length followed by exactly its bytes, with no terminator |
| Bytes.StripNuls | CUE4Parse-Conversion/UnrealFormat/unreal.py:19-20 | `rstrip(b'\x00')` gives a prefix of the input that does not end in NUL, and everything it removes is NUL |
| Bytes.StripNulsIdentity | CUE4Parse-Conversion/UnrealFormat/unreal.py:19-20 | a string survives the reader's NUL stripping exactly when it is empty or does not end in NUL |
| Bytes.EncodeAllConcat | CUE4Parse-Conversion/Meshes/UnrealFormat/FMorphTarget.cs:29 | writing two lists of records one after the other gives the encoding of their concatenation |
| Bytes.EncodeAllLength | CUE4Parse-Conversion/UnrealFormat/unreal.py:87-91 | records of a fixed width occupy the width times the count |
| ArchiveWriter.FArchiveWriter.constructor | CUE4Parse/UE4/Writers/FArchiveWriter.cs:11-15 | a new writer has an empty stream with its cursor at 0 |
| ArchiveWriter.FArchiveWriter.Length | CUE4Parse/UE4/Writers/FArchiveWriter.cs:35 | the length is the number of bytes written |
| ArchiveWriter.FArchiveWriter.GetBuffer | CUE4Parse/UE4/Writers/FArchiveWriter.cs:33 | the copy holds every byte written, in order, and its size is the cursor position |
| ArchiveWriter.FArchiveWriter.Write | CUE4Parse/UE4/Writers/FArchiveWriter.cs:7 | the bytes are appended unchanged and the cursor moves past them |
| ArchiveWriter.FArchiveWriter.DumpStruct | CUE4Parse/UE4/Writers/FArchiveWriter.cs:17-23 | the struct's memory image is appended unchanged |
| ArchiveWriter.FArchiveWriter.WriteArray | CUE4Parse/UE4/Writers/FArchiveWriter.cs:25-31 | a non-empty array appends SizeOf<T> times its length bytes and leaves what was written before; an empty array writes nothing |
| ArchiveWriter.FArchiveWriter.WriteInt32 | CUE4Parse/UE4/Writers/FArchiveWriter.cs:7 | appends the 4-byte two's complement little-endian layout |
| ArchiveWriter.FArchiveWriter.WriteUInt32 | CUE4Parse/UE4/Writers/FArchiveWriter.cs:7 | appends the 4-byte little-endian layout |
| ArchiveWriter.FArchiveWriter.WriteInt16 | CUE4Parse/UE4/Writers/FArchiveWriter.cs:7 | appends the 2-byte two's complement little-endian layout |
| ArchiveWriter.FArchiveWriter.WriteFloat | CUE4Parse/UE4/Writers/FArchiveWriter.cs:7 | appends the float's bit pattern, little-endian |
| ArchiveWriter.FArchiveWriter.WriteBool | CUE4Parse/UE4/Writers/FArchiveWriter.cs:7 | appends one byte, non-zero exactly for true |
| ArchiveWriter.FArchiveWriter.WriteFString | CUE4Parse-Conversion/UnrealFormat/FUnrealHeader.cs:31 | appends the length-prefixed string layout |
| ArchiveWriter.GetBufferThenWrite | CUE4Parse/UE4/Writers/FArchiveWriter.cs:33-36 | GetBuffer returns a snapshot that later writes do not change, and position stays equal to length |
| ArchiveWriter.WriteEach | CUE4Parse-Conversion/Meshes/UnrealFormat/FMorphTarget.cs:29 | `ForEach(x => x.Serialize(Ar))` appends every record's encoding, in list order |
| UnrealHeader.FormatName | CUE4Parse-Conversion/UnrealFormat/FUnrealHeader.cs:39 | every compression format's written name is four characters |
| UnrealHeader.HeaderBytes | CUE4Parse-Conversion/UnrealFormat/FUnrealHeader.cs:24-41 | the header's size is the 12-byte magic, the two strings with their prefixes, the version, the flag and, only when compressed, the algorithm name |
| UnrealHeader.HeaderLayout | CUE4Parse-Conversion/UnrealFormat/FUnrealHeader.cs:24-41 | the header starts with the 12-byte magic, then identifier, version and object name; the flag byte is non-zero exactly when compressed, and only then is the algorithm's name appended |
| UnrealHeader.FUnrealHeader.constructor | CUE4Parse-Conversion/UnrealFormat/FUnrealHeader.cs:16-22 | stores the four fields; the compression format defaults to None |
| UnrealHeader.FUnrealHeader.Serialize | CUE4Parse-Conversion/UnrealFormat/FUnrealHeader.cs:24-41 | appends exactly the header bytes and leaves the header unchanged |
| UnrealHeader.SerializeTwice | CUE4Parse-Conversion/UnrealFormat/FUnrealHeader.cs:24-41 | serializing one header into two fresh writers gives equal bytes, longer than the magic, so Save and GetLength agree on it |
| ExportableAsset.FinalData | CUE4Parse-Conversion/UnrealFormat/ExportableUnrealAssetBase.cs:18-22 | the switch fails exactly for ZSTD, passes the body through for None, and for GZIP gives a blob a lossless codec decompresses back to the body |
| ExportableAsset.ExportableUnrealAssetBase.constructor | CUE4Parse-Conversion/UnrealFormat/ExportableUnrealAssetBase.cs:10-11 | a new asset has an empty body writer of its own and the given header |
| ExportableAsset.ExportableUnrealAssetBase.Save | CUE4Parse-Conversion/UnrealFormat/ExportableUnrealAssetBase.cs:13-25 | succeeds exactly when the format is not ZSTD and then appends the header and the final data; on ZSTD the header has already been written when it fails |
| ExportableAsset.ExportableUnrealAssetBase.GetLength | CUE4Parse-Conversion/UnrealFormat/ExportableUnrealAssetBase.cs:27-42 | fails exactly for ZSTD; otherwise it is the size of what Save appends, narrowed to int |
| ExportableAsset.LengthThenSave | CUE4Parse-Conversion/UnrealFormat/ExportableUnrealAssetBase.cs:8 | Length and Save agree: below 2 GiB, the declared length is exactly the number of bytes Save appends |
| DataChunk.ChunkBytes | CUE4Parse-Conversion/UnrealFormat/unreal.py:268-271 | a chunk is its tag string, count and payload size (12 bytes plus the tag) followed by the payload |
| DataChunk.NewChunk | CUE4Parse-Conversion/Meshes/UnrealFormat/UnrealModel.cs:34 | a new chunk has the given tag and count and an empty payload |
| DataChunk.BuildChunk | CUE4Parse-Conversion/Meshes/UnrealFormat/UnrealModel.cs:84-93 | a counted loop gives a chunk whose count is the number of records and whose payload is their encodings in order |
| DataChunk.Present | CUE4Parse-Conversion/Meshes/UnrealFormat/UnrealModel.cs:159-162 | the loaded entries of a reference list are at most as many as the references |
| DataChunk.BuildCountedChunk | CUE4Parse-Conversion/Meshes/UnrealFormat/UnrealModel.cs:98-117 | a loop that skips absent entries and bumps the count per record gives a count equal to the records written |
| DataChunk.ChunkBytesOf | CUE4Parse-Conversion/Meshes/UnrealFormat/UnrealModel.cs:59 | a chunk's bytes are 12 plus its tag plus its payload long |
| DataChunk.FlushChunk | CUE4Parse-Conversion/Meshes/UnrealFormat/UnrealModel.cs:59-62 | flushing chunks one after another leaves the archive holding their layouts in flush order |
| DataChunk.SerializeChunk | CUE4Parse-Conversion/Meshes/UnrealFormat/UnrealModel.cs:59 | appends the tag, count, payload size and payload |
| MeshData.FlipY | CUE4Parse-Conversion/Meshes/UnrealFormat/UnrealModel.cs:40-42 | `position.Y = -position.Y` negates Y and keeps X and Z |
| MeshData.FlipYInvolutive | CUE4Parse-Conversion/Meshes/UnrealFormat/UnrealModel.cs:40-42 | flipping Y twice gives back the vector |
| MeshData.FlipV | CUE4Parse-Conversion/Meshes/UnrealFormat/UnrealModel.cs:54-56 | `uv.V = -uv.V` negates V and keeps U |
| MeshData.FlipYW | CUE4Parse-Conversion/Meshes/UnrealFormat/UnrealModel.cs:149-152 | the bone orientation negates Y and W and keeps X and Z |
| MeshData.FlipYaw | CUE4Parse-Conversion/Meshes/UnrealFormat/UnrealModel.cs:171-173 | the socket rotation negates yaw and keeps pitch and roll |
| MeshData.VectorBytes | CUE4Parse-Conversion/UnrealFormat/unreal.py:75-76 | a vector is three 4-byte floats |
| MeshData.UVBytes | CUE4Parse-Conversion/UnrealFormat/unreal.py:284 | a UV is two 4-byte floats |
| MeshData.QuatBytes | CUE4Parse-Conversion/UnrealFormat/unreal.py:116 | a quaternion is four 4-byte floats |
| MeshData.RotatorBytes | CUE4Parse-Conversion/UnrealFormat/unreal.py:187 | a rotator is three 4-byte floats |
| MeshData.ColorBytes | CUE4Parse-Conversion/UnrealFormat/unreal.py:282 | a colour is four bytes |
| MorphTarget.MorphDataOf | CUE4Parse-Conversion/Meshes/UnrealFormat/FMorphTarget.cs:39-48 | FMorphData is each delta with its Y negated and X and Z kept, and the source vertex index |
| MorphTarget.MorphDataBytes | CUE4Parse-Conversion/Meshes/UnrealFormat/FMorphTarget.cs:50-55 | a morph record is 28 bytes: two vectors and the vertex index |
| MorphTarget.FMorphTarget.constructor | CUE4Parse-Conversion/Meshes/UnrealFormat/FMorphTarget.cs:15-23 | keeps the name, counts the vertices, and converts every delta in order |
| MorphTarget.FMorphTarget.Serialize | CUE4Parse-Conversion/Meshes/UnrealFormat/FMorphTarget.cs:25-30 | appends the name, the vertex count, then every record in order |
| UnrealModel.NewModel | CUE4Parse-Conversion/Meshes/UnrealFormat/UnrealModel.cs:15-19 | a new model has an empty body and the header "UMODEL", version 1, with the name and the exporter's compression format |
| UnrealModel.NormalBytes | CUE4Parse-Conversion/Meshes/UnrealFormat/UnrealModel.cs:44-47 | a normal record is one 12-byte vector |
| UnrealModel.TangentBytes | CUE4Parse-Conversion/Meshes/UnrealFormat/UnrealModel.cs:49-52 | a tangent record is one 12-byte vector |
| UnrealModel.VertexChunks | CUE4Parse-Conversion/Meshes/UnrealFormat/UnrealModel.cs:34-57 | one pass over the vertices fills VERTICES, NORMALS, TANGENTS and TEXCOORDS, each counting every vertex and holding one record per vertex in order |
| UnrealModel.FlushVertexColors | CUE4Parse-Conversion/Meshes/UnrealFormat/UnrealModel.cs:74-82 | the VERTEXCOLORS chunk is flushed exactly when colours are present, with one record per colour |
| UnrealModel.SerializeStaticMeshData | CUE4Parse-Conversion/Meshes/UnrealFormat/UnrealModel.cs:32-94 | the body gains VERTICES, NORMALS, TANGENTS, TEXCOORDS, INDICES, VERTEXCOLORS (only with colours) and MATERIALS, in that order |
| UnrealModel.WeightBytes | CUE4Parse-Conversion/Meshes/UnrealFormat/UnrealModel.cs:110-112 | a weight record is 10 bytes: bone index, vertex index, weight |
| UnrealModel.VertexWeights | CUE4Parse-Conversion/Meshes/UnrealFormat/UnrealModel.cs:102-114 | a vertex without bones gives no record; otherwise there is one record per weight, each naming that vertex |
| UnrealModel.WeightRecordsCount | CUE4Parse-Conversion/Meshes/UnrealFormat/UnrealModel.cs:100-115 | there is one WEIGHTS record per weight of each skinned vertex |
| UnrealModel.WeightRecordsSound | CUE4Parse-Conversion/Meshes/UnrealFormat/UnrealModel.cs:100-115 | every WEIGHTS record belongs to a skinned vertex and is one of that vertex's own records |
| UnrealModel.WeightsChunk | CUE4Parse-Conversion/Meshes/UnrealFormat/UnrealModel.cs:98-118 | the chunk's count, bumped once per record, is the number of records (wrapped like an int) and its payload is the records in vertex order |
| UnrealModel.AppendVertexWeights | CUE4Parse-Conversion/Meshes/UnrealFormat/UnrealModel.cs:104-114 | one vertex's inner loop appends its records and bumps the count once per record; a vertex without bones is skipped |
| UnrealModel.MorphLod | CUE4Parse-Conversion/Meshes/UnrealFormat/UnrealModel.cs:125-128 | a target is serialized exactly when it loads, has LOD models and has one at the LOD index, and then that LOD's deltas are used |
| UnrealModel.MorphDataList | CUE4Parse-Conversion/Meshes/UnrealFormat/FMorphTarget.cs:15-23 | the conversion of a whole LOD model is one FMorphData per delta, in order |
| UnrealModel.MorphTargetsChunk | CUE4Parse-Conversion/Meshes/UnrealFormat/UnrealModel.cs:120-134 | as written, the count is the number of references while each skipped reference contributes no bytes |
| UnrealModel.SerializeMorphReference | CUE4Parse-Conversion/Meshes/UnrealFormat/UnrealModel.cs:125-131 | one reference writes a whole FMorphTarget exactly when it is serialized, and nothing otherwise |
| UnrealModel.SocketTransformBytes | CUE4Parse-Conversion/Meshes/UnrealFormat/UnrealModel.cs:167-177 | an unloaded socket writes no transform; a loaded one writes 36 bytes |
| UnrealModel.SocketStep | CUE4Parse-Conversion/Meshes/UnrealFormat/UnrealModel.cs:159-178 | one socket's names go to the asset's archive and its transform to the chunk; an unloaded socket writes nothing |
| UnrealModel.SerializeSocketsAsWritten | CUE4Parse-Conversion/Meshes/UnrealFormat/UnrealModel.cs:157-181 | as written, every loaded socket's two names land in the body before the SOCKETS chunk, and the chunk holds only the transforms |
| UnrealModel.SerializeSkeletalMeshData | CUE4Parse-Conversion/Meshes/UnrealFormat/UnrealModel.cs:96-183 | as written: WEIGHTS, MORPHTARGETS (only with morph targets), BONES, then the socket names straight into the body, then SOCKETS |
| UnrealModel.LoadedMorphOf | CUE4Parse-Conversion/Meshes/UnrealFormat/UnrealModel.cs:125-130 | a reference is serialized exactly when MorphLod finds its LOD |
| UnrealModel.LoadedMorphs | CUE4Parse-Conversion/Meshes/UnrealFormat/UnrealModel.cs:123-132 | the serialized targets are at most as many as the references |
| UnrealModel.MorphPayloadIsLoadedTargets | CUE4Parse-Conversion/Meshes/UnrealFormat/UnrealModel.cs:120-134 | the payload as written is exactly the serialized targets' records, so only the declared count is off |
| UnrealModel.LoadedMorphTargetsChunk | CUE4Parse-Conversion/Meshes/UnrealFormat/UnrealModel.cs:120-134 | corrected: the count is the number of targets actually serialized, with the same payload |
| UnrealModel.SerializeSkeletalMeshDataCorrected | CUE4Parse-Conversion/Meshes/UnrealFormat/UnrealModel.cs:96-183 | corrected: each chunk's count equals its records, and every socket record (names and transform) sits inside SOCKETS |
| UnrealModel.StaticVertices | CUE4Parse-Conversion/Meshes/UnrealFormat/UnrealModel.cs:28 | a skeletal LOD's static chunks are built from each vertex's static part, in order |
| UnrealModel.NewStaticModel | CUE4Parse-Conversion/Meshes/UnrealFormat/UnrealModel.cs:21-24 | a static-mesh UMODEL: the header, and the static chunks as its body |
| UnrealModel.SerializeSkeletalLod | CUE4Parse-Conversion/Meshes/UnrealFormat/UnrealModel.cs:26-30 | a skeletal body is the static chunks of its vertices followed by the skeletal chunks, in their corrected form |
| UnrealModel.NewSkeletalModel | CUE4Parse-Conversion/Meshes/UnrealFormat/UnrealModel.cs:26-30 | a skeletal-mesh UMODEL: the header, then the static chunks, then the corrected skeletal chunks |
| UnrealReader.SuffixTrans | CUE4Parse-Conversion/UnrealFormat/unreal.py:22-91 | consuming from the front twice is consuming from the front |
| UnrealReader.ReadBytes | CUE4Parse-Conversion/UnrealFormat/unreal.py:42-43 | `read(n)` returns a prefix of the unread bytes and leaves the rest: n bytes when there are that many, everything when n is negative or too large |
| UnrealReader.ReadInt | CUE4Parse-Conversion/UnrealFormat/unreal.py:60-61 | succeeds exactly when four bytes remain, and consumes exactly those four |
| UnrealReader.ReadUInt | CUE4Parse-Conversion/UnrealFormat/unreal.py:63-64 | succeeds exactly when four bytes remain, and consumes exactly those four |
| UnrealReader.ReadShort | CUE4Parse-Conversion/UnrealFormat/unreal.py:66-67 | succeeds exactly when two bytes remain, and consumes exactly those two |
| UnrealReader.ReadFloat | CUE4Parse-Conversion/UnrealFormat/unreal.py:72-73 | succeeds exactly when four bytes remain, and consumes exactly those four |
| UnrealReader.ReadByte | CUE4Parse-Conversion/UnrealFormat/unreal.py:81-82 | succeeds exactly when a byte remains, and consumes exactly that byte |
| UnrealReader.ReadBool | CUE4Parse-Conversion/UnrealFormat/unreal.py:48-49 | succeeds exactly when a byte remains; any non-zero byte reads as True |
| UnrealReader.ReadFString | CUE4Parse-Conversion/UnrealFormat/unreal.py:55-58 | succeeds exactly when the 4-byte length is there, and always consumes at least the length |
| UnrealReader.ReadBulk | CUE4Parse-Conversion/UnrealFormat/unreal.py:87-91 | a successful bulk read returns exactly `count` records (none for a count that is not positive) and consumes from the front |
| UnrealReader.ConsumesPrimitives | CUE4Parse-Conversion/UnrealFormat/unreal.py:63-82 | the element readers only ever consume from the front |
| UnrealReader.ReadFloatVector | CUE4Parse-Conversion/UnrealFormat/unreal.py:75-76 | n floats, all or nothing |
| UnrealReader.ReadIntVector | CUE4Parse-Conversion/UnrealFormat/unreal.py:63-64 | n unsigned ints, all or nothing |
| UnrealReader.ReadByteVector | CUE4Parse-Conversion/UnrealFormat/unreal.py:81-82 | n bytes, all or nothing |
| UnrealReader.ReadWeight | CUE4Parse-Conversion/UnrealFormat/unreal.py:118-126 | `Weight(ar)` succeeds exactly when ten bytes remain, and consumes exactly those |
| UnrealReader.ReadBone | CUE4Parse-Conversion/UnrealFormat/unreal.py:106-116 | `Bone(ar)` consumes from the front |
| UnrealReader.ReadMorphTargetData | CUE4Parse-Conversion/UnrealFormat/unreal.py:138-146 | `MorphTargetData(ar)` consumes from the front |
| UnrealReader.ConsumesRecords | CUE4Parse-Conversion/UnrealFormat/unreal.py:106-146 | the weight, bone and morph delta readers only ever consume from the front |
| UnrealReader.ReadMorphTarget | CUE4Parse-Conversion/UnrealFormat/unreal.py:128-136 | `MorphTarget(ar)` consumes at least its name length and its count |
| UnrealReader.ReadSocket | CUE4Parse-Conversion/UnrealFormat/unreal.py:148-160 | `Socket(ar)` consumes from the front |
| UnrealReader.ReadHashedMesh | CUE4Parse-Conversion/UnrealFormat/unreal.py:166-174 | `HashedMesh(ar)` succeeds exactly when the hash and the size are there |
| UnrealReader.ReadActor | CUE4Parse-Conversion/UnrealFormat/unreal.py:176-188 | `Actor(ar)` consumes from the front |
| UnrealReader.ReadChunkHeader | CUE4Parse-Conversion/UnrealFormat/unreal.py:269-271 | a chunk header consumes at least its 12 fixed bytes |
| UnrealReader.ReadVector3 | CUE4Parse-Conversion/UnrealFormat/unreal.py:274 | a position, normal or tangent is three floats |
| UnrealReader.ReadUV | CUE4Parse-Conversion/UnrealFormat/unreal.py:284 | a texture coordinate is two floats |
| UnrealReader.ReadTriangle | CUE4Parse-Conversion/UnrealFormat/unreal.py:276 | a triangle is three unsigned indices |
| UnrealReader.ReadColor | CUE4Parse-Conversion/UnrealFormat/unreal.py:282 | a colour is four bytes |
| UnrealReader.ConsumesChunkRecords | CUE4Parse-Conversion/UnrealFormat/unreal.py:273-294 | every record reader a chunk tag selects only ever consumes from the front |
| UnrealReader.TriangleCount | CUE4Parse-Conversion/UnrealFormat/unreal.py:276 | `int(array_size / 3)` truncates toward zero: for a non-negative size it is the largest multiple of 3 not above it, divided by 3 |
| UnrealReader.Store | CUE4Parse-Conversion/UnrealFormat/unreal.py:273-294 | a bulk read stored into the model fails exactly when the read fails |
| UnrealReader.UModelPayload | CUE4Parse-Conversion/UnrealFormat/unreal.py:273-296 | one chunk's payload, read with the reader its tag selects or skipped for an unknown tag, consumes from the front |
| UnrealReader.UModelChunk | CUE4Parse-Conversion/UnrealFormat/unreal.py:268-296 | each pass of the chunk loop consumes at least one byte, so the loop ends |
| UnrealReader.UWorldPayload | CUE4Parse-Conversion/UnrealFormat/unreal.py:245-250 | one world chunk's payload, MESHES or ACTORS or skipped, consumes from the front |
| UnrealReader.UWorldChunk | CUE4Parse-Conversion/UnrealFormat/unreal.py:240-250 | each pass of the world chunk loop consumes at least one byte |
| UnrealReader.ReadCompression | CUE4Parse-Conversion/UnrealFormat/unreal.py:217-219 | the flag is true exactly for a non-zero byte, and only then is the compression name read |
| UnrealReader.ReadHeader | CUE4Parse-Conversion/UnrealFormat/unreal.py:211-219 | an uncompressed header carries no compression name |
| UnrealReader.ImportData | CUE4Parse-Conversion/UnrealFormat/unreal.py:205-234 | a file whose first 12 bytes, NULs stripped, are not "UNREALFORMAT" imports as nothing |
| UnrealReader.ImportWorld | CUE4Parse-Conversion/UnrealFormat/unreal.py:237-263 | a world imports only when no nested mesh import raises and every actor's hash is in the mesh table and names a mesh that imported as a model; otherwise the import raises |
| UnrealReader.MeshMap | CUE4Parse-Conversion/UnrealFormat/unreal.py:252-254 | the mesh table's keys are exactly the hashes of the meshes read, each mapped to its nested import |
| ArchiveReader.FArchiveReader.constructor | CUE4Parse-Conversion/UnrealFormat/unreal.py:26-29 | a new reader's unread bytes are the whole input |
| ArchiveReader.FArchiveReader.Eof | CUE4Parse-Conversion/UnrealFormat/unreal.py:39-40 | end of file exactly when no byte is left unread |
| ArchiveReader.FArchiveReader.Read | CUE4Parse-Conversion/UnrealFormat/unreal.py:42-43 | reads what ReadBytes describes and advances past it |
| ArchiveReader.FArchiveReader.ReadToEnd | CUE4Parse-Conversion/UnrealFormat/unreal.py:45-46 | returns every unread byte and leaves none |
| ArchiveReader.FArchiveReader.Skip | CUE4Parse-Conversion/UnrealFormat/unreal.py:84-85 | advances exactly as far as `read(n)` would |
| ArchiveReader.FArchiveReader.ReadInt | CUE4Parse-Conversion/UnrealFormat/unreal.py:60-61 | fails exactly when ReadInt fails, and otherwise returns its value and advances past it |
| ArchiveReader.FArchiveReader.ReadFString | CUE4Parse-Conversion/UnrealFormat/unreal.py:55-58 | fails exactly when ReadFString fails, and otherwise returns its value and advances past it |
| ArchiveReader.FArchiveReader.ReadWith | CUE4Parse-Conversion/UnrealFormat/unreal.py:106-188 | a record constructor at the cursor agrees with its reading function |
| ArchiveReader.FArchiveReader.ReadBulkArray | CUE4Parse-Conversion/UnrealFormat/unreal.py:87-91 | the loop of `count` constructor calls agrees with ReadBulk: the same records, or failure exactly when it fails |
| ArchiveReader.ReadChunkHeaderAt | CUE4Parse-Conversion/UnrealFormat/unreal.py:269-271 | reads the tag, array size and byte size exactly as ReadChunkHeader describes |
| ArchiveReader.ReadUModelPayload | CUE4Parse-Conversion/UnrealFormat/unreal.py:273-296 | reads a chunk body exactly as UModelPayload describes |
| ArchiveReader.ImportUModelData | CUE4Parse-Conversion/UnrealFormat/unreal.py:265-296 | the `while not ar.eof()` loop builds exactly the model UModelChunks describes |
| ArchiveReader.ReadUWorldPayload | CUE4Parse-Conversion/UnrealFormat/unreal.py:245-250 | reads a world chunk body exactly as UWorldPayload describes |
| ArchiveReader.ImportUWorldChunks | CUE4Parse-Conversion/UnrealFormat/unreal.py:237-250 | the world chunk loop builds exactly the world UWorldChunks describes |
| ArchiveReader.BulkStep | CUE4Parse-Conversion/UnrealFormat/unreal.py:87-91 | a bulk read is its first record followed by a bulk read of one fewer |
| RoundTrip.Map | CUE4Parse-Conversion/UnrealFormat/unreal.py:87-91 | mapping keeps the length |
| RoundTrip.BulkRoundTrip | CUE4Parse-Conversion/UnrealFormat/unreal.py:87-91 | `read_bulk_array(len(xs), rd)` over records written back to back returns each record's value in order and stops exactly after the last one |
| RoundTrip.IntRoundTrip | CUE4Parse-Conversion/UnrealFormat/unreal.py:60-61 | `read_int` reads back `Write(int)` and leaves what follows |
| RoundTrip.AsUnsigned | CUE4Parse-Conversion/UnrealFormat/unreal.py:63-64 | a signed int read as "I" is congruent to it modulo 2^32 |
| RoundTrip.UIntRoundTrip | CUE4Parse-Conversion/UnrealFormat/unreal.py:276 | an index written signed and read as "I" comes back as its unsigned value |
| RoundTrip.AsSigned | CUE4Parse-Conversion/UnrealFormat/unreal.py:146 | an unsigned int read as "i" is congruent to it modulo 2^32 |
| RoundTrip.SignedRoundTrip | CUE4Parse-Conversion/UnrealFormat/unreal.py:146 | a vertex index written unsigned and read with "i" comes back as its two's complement value |
| RoundTrip.ShortRoundTrip | CUE4Parse-Conversion/UnrealFormat/unreal.py:124 | `read_short` reads back `Write(short)` |
| RoundTrip.FloatRoundTrip | CUE4Parse-Conversion/UnrealFormat/unreal.py:72-73 | a float's bit pattern survives the trip unchanged |
| RoundTrip.FStringRoundTrip | CUE4Parse-Conversion/UnrealFormat/unreal.py:55-58 | `read_fstring` reads back a written FString minus any trailing NULs |
| RoundTrip.PrimitivesInvert | CUE4Parse-Conversion/UnrealFormat/unreal.py:63-82 | the float, unsigned int, byte and string readers each invert their writers |
| RoundTrip.VectorRoundTrip | CUE4Parse-Conversion/UnrealFormat/unreal.py:75-76 | `read_float_vector(3)` reads back a written FVector component by component |
| RoundTrip.UVRoundTrip | CUE4Parse-Conversion/UnrealFormat/unreal.py:284 | `read_float_vector(2)` reads back a written UV |
| RoundTrip.QuatRoundTrip | CUE4Parse-Conversion/UnrealFormat/unreal.py:116 | `read_float_vector(4)` reads back a written quaternion |
| RoundTrip.RotatorRoundTrip | CUE4Parse-Conversion/UnrealFormat/unreal.py:187 | `read_float_vector(3)` reads back a written rotator as pitch, yaw, roll |
| RoundTrip.ColorRoundTrip | CUE4Parse-Conversion/UnrealFormat/unreal.py:282 | `read_byte_vector(4)` reads the colour's four bytes in the order they were written |
| RoundTrip.WeightRoundTrip | CUE4Parse-Conversion/UnrealFormat/unreal.py:123-126 | `Weight(ar)` reads back a WEIGHTS record field by field |
| RoundTrip.BoneRoundTrip | CUE4Parse-Conversion/UnrealFormat/unreal.py:112-116 | `Bone(ar)` reads back a BONES record: name, parent, converted position and rotation |
| RoundTrip.MorphDataRoundTrip | CUE4Parse-Conversion/UnrealFormat/unreal.py:143-146 | `MorphTargetData(ar)` reads back an FMorphData record |
| RoundTrip.MorphTargetRoundTrip | CUE4Parse-Conversion/UnrealFormat/unreal.py:132-136 | `MorphTarget(ar)` reads back a serialized FMorphTarget: its name and one delta per vertex of the LOD |
| RoundTrip.SocketRoundTrip | CUE4Parse-Conversion/UnrealFormat/unreal.py:155-160 | `Socket(ar)` reads back a corrected socket record: both names, then location, rotation and scale |
| MeshRoundTrip.TagFacts | CUE4Parse-Conversion/UnrealFormat/unreal.py:273-294 | no chunk tag ends in NUL, and the importer's dispatch tells every tag apart |
| MeshRoundTrip.ChunkHeaderRoundTrip | CUE4Parse-Conversion/UnrealFormat/unreal.py:269-271 | a written chunk's tag, count and size are read back, leaving its payload at the front |
| MeshRoundTrip.ChunkStep | CUE4Parse-Conversion/UnrealFormat/unreal.py:268-296 | one pass of the chunk loop is the header read followed by the payload read |
| MeshRoundTrip.ReadsChunk | CUE4Parse-Conversion/UnrealFormat/unreal.py:268-296 | a chunk whose payload the dispatch reads exactly is consumed whole, and the loop goes on after it |
| MeshRoundTrip.StaticEncodersInvert | CUE4Parse-Conversion/UnrealFormat/unreal.py:273-286 | every static chunk's record is read back by the reader its tag selects |
| MeshRoundTrip.VerticesChunk | CUE4Parse-Conversion/UnrealFormat/unreal.py:273-274 | a VERTICES chunk is read back as every vertex position, with Y negated |
| MeshRoundTrip.NormalsChunk | CUE4Parse-Conversion/UnrealFormat/unreal.py:277-278 | a NORMALS chunk is read back as every written normal |
| MeshRoundTrip.TangentsChunk | CUE4Parse-Conversion/UnrealFormat/unreal.py:279-280 | a TANGENTS chunk is read back as every written tangent |
| MeshRoundTrip.TexCoordsChunk | CUE4Parse-Conversion/UnrealFormat/unreal.py:283-284 | a TEXCOORDS chunk is read back as every written UV, with V negated |
| MeshRoundTrip.Triangles | CUE4Parse-Conversion/UnrealFormat/unreal.py:276 | the index list regrouped as the importer reads it has a third as many triangles |
| MeshRoundTrip.TrianglesAt | CUE4Parse-Conversion/UnrealFormat/unreal.py:276 | triangle k of the import holds indices 3k, 3k+1 and 3k+2, each as unsigned |
| MeshRoundTrip.TrianglesRoundTrip | CUE4Parse-Conversion/UnrealFormat/unreal.py:276 | the INDICES payload, read as a third of its count of triangles, gives back the triangles in order |
| MeshRoundTrip.IndicesChunk | CUE4Parse-Conversion/Meshes/UnrealFormat/UnrealModel.cs:64-72 | an INDICES chunk is read back as the triangles of the index list |
| MeshRoundTrip.ColorsChunk | CUE4Parse-Conversion/UnrealFormat/unreal.py:281-282 | a VERTEXCOLORS chunk is read back as every colour's four bytes |
| MeshRoundTrip.MaterialsChunk | CUE4Parse-Conversion/UnrealFormat/unreal.py:285-286 | a MATERIALS chunk is read back as every material name, empty for a section without one |
| MeshRoundTrip.ColorPart | CUE4Parse-Conversion/Meshes/UnrealFormat/UnrealModel.cs:74-82 | the optional colour chunk is read when it is present, and the colour list is left alone otherwise |
| MeshRoundTrip.VertexChunks | CUE4Parse-Conversion/Meshes/UnrealFormat/UnrealModel.cs:59-62 | the four per-vertex chunks are read back one after another |
| MeshRoundTrip.StaticChunksRoundTrip | CUE4Parse-Conversion/Meshes/UnrealFormat/UnrealModel.cs:32-94 | the static chunks are read back in order: positions, normals, tangents and UVs, the triangles, the colours when any, and the material names |
| MeshRoundTrip.StaticMeshRoundTrip | CUE4Parse-Conversion/UnrealFormat/unreal.py:265-296 | a static body read from the start with an empty model gives back every list the exporter wrote |
| MeshRoundTrip.ImportedPosition | CUE4Parse-Conversion/Meshes/UnrealFormat/UnrealModel.cs:40-42 | vertex i comes back with its position's Y negated |
| MeshRoundTrip.WeightsInvert | CUE4Parse-Conversion/UnrealFormat/unreal.py:123-126 | the WEIGHTS record reader inverts the record writer |
| MeshRoundTrip.BonesInvert | CUE4Parse-Conversion/UnrealFormat/unreal.py:112-116 | the BONES record reader inverts the record writer |
| MeshRoundTrip.MorphsInvert | CUE4Parse-Conversion/UnrealFormat/unreal.py:132-136 | the morph target reader inverts the writer of a serialized target |
| MeshRoundTrip.SocketsInvert | CUE4Parse-Conversion/UnrealFormat/unreal.py:155-160 | the socket reader inverts the corrected socket record |
| MeshRoundTrip.WeightsChunkRoundTrip | CUE4Parse-Conversion/UnrealFormat/unreal.py:287-288 | a WEIGHTS chunk whose count fits an int is read back as every weight record |
| MeshRoundTrip.BonesChunk | CUE4Parse-Conversion/UnrealFormat/unreal.py:289-290 | a BONES chunk is read back as every bone, converted |
| MeshRoundTrip.LoadedMorphsChunk | CUE4Parse-Conversion/UnrealFormat/unreal.py:291-292 | the corrected MORPHTARGETS chunk is read back as exactly the targets that were serialized |
| MeshRoundTrip.SocketsChunk | CUE4Parse-Conversion/UnrealFormat/unreal.py:293-294 | the corrected SOCKETS chunk is read back as one whole record per loaded socket |
| MeshRoundTrip.MorphPart | CUE4Parse-Conversion/Meshes/UnrealFormat/UnrealModel.cs:120-134 | the optional corrected MORPHTARGETS chunk is read when morph targets are given, and the morph list is left alone otherwise |
| MeshRoundTrip.SkeletalChunksRoundTrip | CUE4Parse-Conversion/Meshes/UnrealFormat/UnrealModel.cs:96-183 | the corrected skeletal chunks are read back whole: every weight, every serialized target, every bone and every loaded socket |
| MeshRoundTrip.ChunksInSequence | CUE4Parse-Conversion/UnrealFormat/unreal.py:268 | two chunk lists are read one after the other |
| MeshRoundTrip.SkeletalMeshRoundTrip | CUE4Parse-Conversion/UnrealFormat/unreal.py:265-296 | a skeletal LOD body written with the corrected serializer imports whole: the static lists, then weights, morph targets, bones and sockets |
| MeshRoundTrip.HeaderOverStrings | CUE4Parse-Conversion/UnrealFormat/unreal.py:269-271 | a chunk header read over two strings takes the first as the tag and the second's length as the count |
| MeshRoundTrip.SocketNameReadAsChunkTag | CUE4Parse-Conversion/Meshes/UnrealFormat/UnrealModel.cs:164-165 | as written, the importer reads the first loaded socket's name as the next chunk's tag and its bone name's length as that chunk's count |
| MeshRoundTrip.EmptyBonesAsMorph | CUE4Parse-Conversion/UnrealFormat/unreal.py:132-136 | the bytes of an empty BONES chunk, read as a morph target, give a target named BONES |
| MeshRoundTrip.MorphCountOverReads | CUE4Parse-Conversion/Meshes/UnrealFormat/UnrealModel.cs:122-126 | as written, one skipped reference followed by an empty BONES chunk makes the importer read BONES as a morph target and resume inside the bytes after it |
| FileRoundTrip.MagicAgrees | CUE4Parse-Conversion/UnrealFormat/unreal.py:190 | the writer's magic and the reader's are the same twelve bytes, none of them NUL |
| FileRoundTrip.NamesAgree | CUE4Parse-Conversion/UnrealFormat/unreal.py:191-192 | the identifiers and compression names the writer puts in the header are the ones the reader compares against |
| FileRoundTrip.CompressionRoundTrip | CUE4Parse-Conversion/UnrealFormat/unreal.py:217-219 | the compressed flag and, when set, the format name are read back |
| FileRoundTrip.HeaderFieldsRoundTrip | CUE4Parse-Conversion/UnrealFormat/unreal.py:211-219 | the fields of a written header are read back in order |
| FileRoundTrip.HeaderFromFields | CUE4Parse-Conversion/UnrealFormat/unreal.py:211-219 | reading the header is its four field reads in sequence |
| FileRoundTrip.HeaderRoundTrip | CUE4Parse-Conversion/UnrealFormat/unreal.py:207-219 | a written header passes the magic test and is read back field by field, leaving exactly the bytes after it |
| FileRoundTrip.ModelResult | CUE4Parse-Conversion/UnrealFormat/unreal.py:231-232 | a mesh whose chunks read imports as that mesh, and a failing read raises |
| FileRoundTrip.ImportSavedModel | CUE4Parse-Conversion/UnrealFormat/unreal.py:205-232 | a UMODEL file saved uncompressed or with a lossless GZIP codec imports as the mesh read from its original body |
| FileRoundTrip.ImportsModel | CUE4Parse-Conversion/UnrealFormat/unreal.py:205-232 | a file whose header names a mesh imports as the mesh its body reads as |
| FileRoundTrip.SavedAssetImports | CUE4Parse-Conversion/UnrealFormat/unreal.py:205-232 | a UMODEL asset that saves (any format but ZSTD) imports as the mesh read from its body writer |
| FileRoundTrip.StaticAssetRoundTrip | CUE4Parse-Conversion/UnrealFormat/unreal.py:265-296 | end to end, a saved static LOD imports as every position, normal, tangent and UV, every triangle, the colours when any and every material slot |
| FileRoundTrip.SkeletalAssetRoundTrip | CUE4Parse-Conversion/UnrealFormat/unreal.py:265-296 | end to end, a saved skeletal LOD written with the corrected serializer imports with every weight, serialized target, bone and loaded socket |
| WorldFormat.ActorBytes | CUE4Parse-Conversion/UnrealFormat/unreal.py:183-188 | an actor record is its hash, its name string and nine floats |
| WorldFormat.FlipYZ | CUE4Parse-Conversion/Worlds/UnrealFormat/UnrealWorld.cs:85-87 | the actor orientation negates the quaternion's Y and Z and keeps X and W |
| WorldFormat.FlipYZInvolutive | CUE4Parse-Conversion/Worlds/UnrealFormat/UnrealWorld.cs:85-87 | flipping Y and Z twice gives back the quaternion |
| WorldFormat.ActorOf | CUE4Parse-Conversion/Worlds/UnrealFormat/UnrealWorld.cs:81-91 | the recorded actor keeps the hash, name and scale, and its position is the location with Y negated |
| WorldFormat.Insert | CUE4Parse-Conversion/Worlds/UnrealFormat/UnrealWorld.cs:75-79 | a converted mesh whose hash is new gets a table entry; existing entries are kept and the key list stays in step with the table |
| WorldFormat.MeshStep | CUE4Parse-Conversion/Worlds/UnrealFormat/UnrealWorld.cs:70-92 | ProcessMesh keeps existing entries, adds the hash exactly when the mesh converts, and keeps the key list in step; the corrected variant records only actors whose mesh is in the table |
| WorldFormat.LevelOkSuffix | CUE4Parse-Conversion/Worlds/UnrealFormat/UnrealWorld.cs:58-67 | what holds of every actor of a level holds of every actor still to be processed |
| WorldFormat.Processed | CUE4Parse-Conversion/Worlds/UnrealFormat/UnrealWorld.cs:53-68 | ProcessWorld keeps the table consistent and adds at most one key and one actor per level entry; the corrected variant keeps every actor resolved |
| WorldFormat.ActorStepTable | CUE4Parse-Conversion/Worlds/UnrealFormat/UnrealWorld.cs:76-79 | one pass adds the entry's conversion under a hash unless that hash is already taken |
| WorldFormat.MeshMapIsFirstConversion | CUE4Parse-Conversion/Worlds/UnrealFormat/UnrealWorld.cs:76-79 | the table keeps the first successful conversion of every hash: a hash is present exactly when it was before or some kept actor converted it, and maps to that entry |
| WorldFormat.CorrectedAgrees | CUE4Parse-Conversion/Worlds/UnrealFormat/UnrealWorld.cs:53-92 | when every mesh converts, the corrected writer records exactly what the original does |
| WorldFormat.ActorStepAsWritten | CUE4Parse-Conversion/Worlds/UnrealFormat/UnrealWorld.cs:91 | as written, one pass appends the entry's actor whether or not its mesh converted |
| WorldFormat.LevelActors | CUE4Parse-Conversion/Worlds/UnrealFormat/UnrealWorld.cs:58-67 | at most one actor per level entry |
| WorldFormat.ActorsAsWritten | CUE4Parse-Conversion/Worlds/UnrealFormat/UnrealWorld.cs:58-91 | as written, an actor is recorded for every kept component, in level order, converted or not |
| WorldFormat.OrphanActor | CUE4Parse-Conversion/Worlds/UnrealFormat/UnrealWorld.cs:76-91 | as written, a level whose only actor's mesh fails to convert gives a world whose actor's hash has no table entry |
| WorldFormat.UnrealWorld.constructor | CUE4Parse-Conversion/Worlds/UnrealFormat/UnrealWorld.cs:17-23 | a new world has an empty mesh table and no actors |
| WorldFormat.UnrealWorld.ProcessMesh | CUE4Parse-Conversion/Worlds/UnrealFormat/UnrealWorld.cs:70-92 | an actor without a loadable component changes nothing; otherwise the state is MeshStep's |
| WorldFormat.UnrealWorld.ProcessWorld | CUE4Parse-Conversion/Worlds/UnrealFormat/UnrealWorld.cs:53-68 | the loop over the level's actors leaves exactly the state Processed describes |
| WorldFormat.MeshRecordBytes | CUE4Parse-Conversion/Worlds/UnrealFormat/UnrealWorld.cs:33-35 | a MESHES record is the hash, the saved length, then the saved model |
| WorldFormat.MeshRecords | CUE4Parse-Conversion/Worlds/UnrealFormat/UnrealWorld.cs:31-36 | one record per table key, in enumeration order, each holding that key's saved model |
| WorldFormat.KeySet | CUE4Parse-Conversion/Worlds/UnrealFormat/UnrealWorld.cs:31 | the keys enumerated are exactly the key list's elements |
| WorldFormat.DistinctCard | CUE4Parse-Conversion/Worlds/UnrealFormat/UnrealWorld.cs:29 | a key list without repeats has as many keys as entries |
| WorldFormat.MeshCountIsTableSize | CUE4Parse-Conversion/Worlds/UnrealFormat/UnrealWorld.cs:29 | the MESHES count `MeshMap.Count` is the number of records written |
| WorldFormat.ProcessedFromEmpty | CUE4Parse-Conversion/Worlds/UnrealFormat/UnrealWorld.cs:25-27 | a world processed from scratch keeps the table consistent and within the sizes the chunk counts allow |
| WorldFormat.NewWorld | CUE4Parse-Conversion/Worlds/UnrealFormat/UnrealWorld.cs:25-51 | the header is "UWORLD", version 1; the state is the level processed; the body is the MESHES chunk then the ACTORS chunk |
| WorldFormat.FlushWorldChunks | CUE4Parse-Conversion/Worlds/UnrealFormat/UnrealWorld.cs:29-50 | the body holds the MESHES chunk followed by the ACTORS chunk of the processed world |
| WorldRoundTrip.HashedMeshRoundTrip | CUE4Parse-Conversion/UnrealFormat/unreal.py:170-174 | a mesh record whose saved model fits its int length reads back whole |
| WorldRoundTrip.MeshRecordsRoundTrip | CUE4Parse-Conversion/UnrealFormat/unreal.py:246 | `read_bulk_array(n, HashedMesh)` over n written mesh records reads each of them back, in order |
| WorldRoundTrip.ActorRoundTrip | CUE4Parse-Conversion/UnrealFormat/unreal.py:183-188 | `Actor(ar)` reads back a written actor |
| WorldRoundTrip.ActorsInvert | CUE4Parse-Conversion/UnrealFormat/unreal.py:183-188 | the actor reader inverts the actor writer |
| WorldRoundTrip.WorldChunkReads | CUE4Parse-Conversion/UnrealFormat/unreal.py:240-250 | one pass of the world chunk loop consumes a chunk whose payload is read exactly |
| WorldRoundTrip.WorldTagFacts | CUE4Parse-Conversion/UnrealFormat/unreal.py:245-248 | neither world tag ends in NUL, and the two differ |
| WorldRoundTrip.MeshesChunkReads | CUE4Parse-Conversion/UnrealFormat/unreal.py:245-246 | the MESHES chunk replaces the importer's mesh list with every record written |
| WorldRoundTrip.ActorsChunkReads | CUE4Parse-Conversion/UnrealFormat/unreal.py:247-248 | the ACTORS chunk replaces the importer's actor list with every actor written |
| WorldRoundTrip.WorldChunksRoundTrip | CUE4Parse-Conversion/UnrealFormat/unreal.py:237-250 | the body of a written world reads back as every mesh record and every actor, in order |
| WorldRoundTrip.MeshMapAt | CUE4Parse-Conversion/UnrealFormat/unreal.py:252-254 | with distinct hashes, `mesh_map` holds each record's own import under its hash |
| WorldRoundTrip.ImportPlainModel | CUE4Parse-Conversion/UnrealFormat/unreal.py:205-232 | an uncompressed UMODEL header followed by a body imports as the mesh read from that body |
| WorldRoundTrip.SavedModelImports | CUE4Parse-Conversion/UnrealFormat/unreal.py:254 | a saved table entry imports, at any depth, as the mesh of its LOD |
| WorldRoundTrip.ImportedTable | CUE4Parse-Conversion/UnrealFormat/unreal.py:252-254 | the expected table has exactly the writer's keys |
| WorldRoundTrip.WorldRecords | CUE4Parse-Conversion/Worlds/UnrealFormat/UnrealWorld.cs:31-36 | the MESHES records are one per key, in enumeration order |
| WorldRoundTrip.MeshMapIs | CUE4Parse-Conversion/UnrealFormat/unreal.py:252-254 | with distinct hashes, `mesh_map` is the table holding each record's own import |
| WorldRoundTrip.RecordsImport | CUE4Parse-Conversion/UnrealFormat/unreal.py:252-254 | every MESHES record of a written world imports as its table entry |
| WorldRoundTrip.RecordImportsAt | CUE4Parse-Conversion/UnrealFormat/unreal.py:254 | the i-th MESHES record imports as the table entry of the i-th key |
| WorldRoundTrip.TableImports | CUE4Parse-Conversion/UnrealFormat/unreal.py:252-254 | `mesh_map` rebuilt from the MESHES records is the writer's table, each entry imported |
| WorldRoundTrip.WorldNameAgrees | CUE4Parse-Conversion/UnrealFormat/unreal.py:192 | the identifier the world writer uses is the one the importer compares against |
| WorldRoundTrip.ImportsWorld | CUE4Parse-Conversion/UnrealFormat/unreal.py:205-234 | a file whose header names a world reaches the world importer with its body |
| WorldRoundTrip.ImportSavedWorld | CUE4Parse-Conversion/UnrealFormat/unreal.py:205-234 | a UWORLD file saved uncompressed or with a lossless GZIP codec reaches the world importer with its original body |
| WorldRoundTrip.ActorsFound | CUE4Parse-Conversion/UnrealFormat/unreal.py:256-257 | the importer's actor lookup succeeds for every actor exactly when the writer's state is resolved |
| WorldRoundTrip.WorldFromChunks | CUE4Parse-Conversion/UnrealFormat/unreal.py:237-263 | once the chunks are read and `mesh_map` built, the import is the world exactly when every actor resolves |
| WorldRoundTrip.NestedRaiseAborts | CUE4Parse-Conversion/UnrealFormat/unreal.py:252-254 | a nested import that raises makes the whole world import raise, whatever the actors |
| WorldRoundTrip.RecordsModels | CUE4Parse-Conversion/UnrealFormat/unreal.py:252-254 | every mesh record the writer saves imports, nested, as a mesh, so no nested import raises |
| WorldRoundTrip.SavedWorldImports | CUE4Parse-Conversion/UnrealFormat/unreal.py:205-263 | a saved world (any format but ZSTD, room for one nested level) comes back with every record, actor and imported mesh exactly when every actor's mesh is in the table; otherwise the import raises |
| WorldRoundTrip.SavedBodyImports | CUE4Parse-Conversion/UnrealFormat/unreal.py:205-263 | save then import for any world body whose chunks and table are known |
| WorldRoundTrip.WorldResultIs | CUE4Parse-Conversion/UnrealFormat/unreal.py:252-263 | the world import is the world, or raises when an actor's mesh is not among the keys |
| WorldRoundTrip.OrphanWorldRaises | CUE4Parse-Conversion/Worlds/UnrealFormat/UnrealWorld.cs:76-91 | as written, a world from a level whose only actor's mesh fails to convert does not import: the actor's hash is missing from `mesh_map` |
| WorldRoundTrip.CorrectedWorldImports | CUE4Parse-Conversion/UnrealFormat/unreal.py:237-263 | every world the corrected writer produces from a level whose meshes can be read back imports, with all its actors |
| PackedNormal.Int8Of | CUE4Parse/UE4/Objects/RenderCore/FPackedNormal.cs:16-23 | a component byte read as `sbyte` is the byte itself below 0x80 and the byte minus 256 from 0x80 up |
| PackedNormal.ByteOfInt8 | CUE4Parse/UE4/Objects/RenderCore/FPackedNormal.cs:16-23 | storing an `sbyte` component as a byte and reading it back gives the component |
| PackedNormal.Pack | CUE4Parse/UE4/Objects/RenderCore/FPackedNormal.cs:16-26 | the word assembled from four bytes has those bytes at offsets 0 to 3 |
| PackedNormal.PackBytes | CUE4Parse/UE4/Objects/RenderCore/FPackedNormal.cs:16-26 | the word is recovered from its four overlaid bytes: the overlay loses nothing |
| PackedNormal.FromArchive | CUE4Parse/UE4/Objects/RenderCore/FPackedNormal.cs:34-39 | loading keeps every byte of the raw word, with its top bit flipped when the rendering version is at least IncreaseNormalPrecision |
| PackedNormal.BiasInvolutive | CUE4Parse/UE4/Objects/RenderCore/FPackedNormal.cs:38 | the XOR with 0x80808080 undoes itself |
| PackedNormal.ArchiveRemovesBias | CUE4Parse/UE4/Objects/RenderCore/FPackedNormal.cs:34-39 | after the flip, each signed component is the deprecated unpacking's unsigned byte minus 128 |
| PackedNormal.DeprecatedComponent | CUE4Parse/UE4/Objects/RenderCore/FPackedNormal.cs:107-111 | each deprecated component is the unsigned byte `(Data >> 8k) & 0xFF`, between 0 and 255 |
| PackedNormal.RescaleToInt8 | CUE4Parse/UE4/Objects/RenderCore/FPackedNormal.cs:67-68 | a rounded value inside the `sbyte` range is kept; below it becomes -128 and above it 127 |
| PackedNormal.RescaleMonotone | CUE4Parse/UE4/Objects/RenderCore/FPackedNormal.cs:67-68 | a larger rounded value never packs to a smaller component |
| PackedNormal.FromVector | CUE4Parse/UE4/Objects/RenderCore/FPackedNormal.cs:46-53 | the packed X, Y and Z are the rescaled coordinates, and W is `sbyte.MaxValue` |
| PackedNormal.FromVector4 | CUE4Parse/UE4/Objects/RenderCore/FPackedNormal.cs:55-62 | all four packed components are the rescaled coordinates |
| PackedNormal.Equal | CUE4Parse/UE4/Objects/RenderCore/FPackedNormal.cs:96 | `==` holds exactly when the two words are equal |
| PackedNormal.NotEqual | CUE4Parse/UE4/Objects/RenderCore/FPackedNormal.cs:97 | `!=` is the negation of `==` |
| PackedNormal.ComponentsDetermineData | CUE4Parse/UE4/Objects/RenderCore/FPackedNormal.cs:13-26 | two normals with equal X, Y, Z and W are the same normal |
| BaseMeshLod.ExtraUVCount | CUE4Parse-Conversion/Meshes/PSK/CBaseMeshLod.cs:39-44 | no extra UV channel for at most one texture-coordinate channel; otherwise one fewer than the channel count |
| BaseMeshLod.CBaseMeshLod.constructor | CUE4Parse-Conversion/Meshes/PSK/CBaseMeshLod.cs:22-31 | a new LOD has zero counts, all flags false and nothing allocated |
| BaseMeshLod.CBaseMeshLod.SkipLod | CUE4Parse-Conversion/Meshes/PSK/CBaseMeshLod.cs:32 | a kept LOD has at least one section and an index buffer; a LOD missing either is skipped |
| BaseMeshLod.CBaseMeshLod.AllocateUVBuffers | CUE4Parse-Conversion/Meshes/PSK/CBaseMeshLod.cs:34-56 | ExtraUV holds one distinct new array of NumVerts zero UVs per channel after the first; no other field changes |
| BaseMeshLod.CBaseMeshLod.AllocateVertexColorBuffer | CUE4Parse-Conversion/Meshes/PSK/CBaseMeshLod.cs:58-67 | VertexColors is a new array of NumVerts default colours, and there are no extra colour buffers; no other field changes |
| BaseMeshLod.ZeroUVs | CUE4Parse-Conversion/Meshes/PSK/CBaseMeshLod.cs:48-52 | a new array of `n` UVs, each (0, 0) |
| BaseMeshLod.ZeroUVRows | CUE4Parse-Conversion/Meshes/PSK/CBaseMeshLod.cs:46-53 | `count` new arrays, pairwise distinct, each of `n` zero UVs |
| BaseMeshLod.DefaultColors | CUE4Parse-Conversion/Meshes/PSK/CBaseMeshLod.cs:60-64 | a new array of `n` colours, each the default colour |
| LandscapeComponent.FarCorner | CUE4Parse/UE4/Assets/Exports/Component/Landscape/ULandscapeComponent.cs:39-40 | the far corner is `base + size` when that fits in 32 bits, wrapped otherwise |
| LandscapeComponent.Merge | CUE4Parse/UE4/Assets/Exports/Component/Landscape/ULandscapeComponent.cs:35-41 | the merged box never shrinks, reaches the component's corner and far corner, and each bound is the old one or the component's |
| LandscapeComponent.MergeIdempotent | CUE4Parse/UE4/Assets/Exports/Component/Landscape/ULandscapeComponent.cs:35-41 | merging the same component twice is merging it once |
| LandscapeComponent.MergeCommutes | CUE4Parse/UE4/Assets/Exports/Component/Landscape/ULandscapeComponent.cs:35-41 | the order of two merges does not matter |
| LandscapeComponent.MergeContains | CUE4Parse/UE4/Assets/Exports/Component/Landscape/ULandscapeComponent.cs:35-41 | when the far corner does not overflow, the merged box contains the whole component |
| LandscapeComponent.FoldBounds | CUE4Parse/UE4/Assets/Exports/Component/Landscape/ULandscapeComponent.cs:35-41 | after merging a list of components, each bound is the start's or some component's, and the box covers every component |
| LandscapeComponent.FoldOrderIndependent | CUE4Parse/UE4/Assets/Exports/Component/Landscape/ULandscapeComponent.cs:35-41 | merging components gives the same box whatever their order or repetition |
| LandscapeComponent.ULandscapeComponent.constructor | CUE4Parse/UE4/Assets/Exports/Component/Landscape/ULandscapeComponent.cs:10-17 | a new component's integer fields are all 0 |
| LandscapeComponent.ULandscapeComponent.Deserialize | CUE4Parse/UE4/Assets/Exports/Component/Landscape/ULandscapeComponent.cs:19-33 | every present property is taken; a missing one defaults to 0 or the zero vector, except NumSubsections, which defaults to 1 |
| LandscapeComponent.ULandscapeComponent.GetComponentExtent | CUE4Parse/UE4/Assets/Exports/Component/Landscape/ULandscapeComponent.cs:35-41 | the four accumulators become the merge of the old ones with this component |
| LandscapeComponent.ULandscapeComponent.GetComponentExtentRect | CUE4Parse/UE4/Assets/Exports/Component/Landscape/ULandscapeComponent.cs:43-49 | starting from the int sentinels, the rectangle is exactly this component's corner and far corner |
| WeightmapAllocation.FromFallback | CUE4Parse/UE4/Assets/Exports/Component/Landscape/FWeightmapLayerAllocationInfo.cs:15-19 | each present property is taken; a missing LayerInfo becomes the null package index and a missing byte 0 |
| WeightmapAllocation.FieldsEqual | CUE4Parse/UE4/Assets/Exports/Component/Landscape/FWeightmapLayerAllocationInfo.cs:24-25 | the field comparison holds exactly when the two allocations have the same values |
| WeightmapAllocation.Equals | CUE4Parse/UE4/Assets/Exports/Component/Landscape/FWeightmapLayerAllocationInfo.cs:21-26 | null is never equal and the same object always is; otherwise the fields decide |
| WeightmapAllocation.ObjectEquals | CUE4Parse/UE4/Assets/Exports/Component/Landscape/FWeightmapLayerAllocationInfo.cs:28-33 | null and objects of another runtime type are never equal; an allocation is compared by the typed Equals |
| WeightmapAllocation.EqualsIffFields | CUE4Parse/UE4/Assets/Exports/Component/Landscape/FWeightmapLayerAllocationInfo.cs:21-26 | two allocations are equal exactly when owner, index, texture index and channel all agree |
| WeightmapAllocation.EqualsReflexive | CUE4Parse/UE4/Assets/Exports/Component/Landscape/FWeightmapLayerAllocationInfo.cs:23 | an allocation equals itself under both overloads |
| WeightmapAllocation.EqualsSymmetric | CUE4Parse/UE4/Assets/Exports/Component/Landscape/FWeightmapLayerAllocationInfo.cs:21-26 | Equals is symmetric |
| WeightmapAllocation.EqualsTransitive | CUE4Parse/UE4/Assets/Exports/Component/Landscape/FWeightmapLayerAllocationInfo.cs:21-26 | Equals is transitive |
| WeightmapAllocation.ValueSemantics | CUE4Parse/UE4/Assets/Exports/Component/Landscape/FWeightmapLayerAllocationInfo.cs:21-33 | distinct objects with the same fields are equal; an object of another type never is |
| LandscapeDataAccess.ShiftRightBounds | CUE4Parse-Extensions/LandscapeDataAccess.cs:50-56 | the `>> mip` of the derived sizes never moves a value away from zero or across it |
| LandscapeDataAccess.SubsectionOfFirst | CUE4Parse-Extensions/LandscapeDataAccess.cs:333-345 | vertex 0 is offset 0 of subsection 0 |
| LandscapeDataAccess.SubsectionOfInterior | CUE4Parse-Extensions/LandscapeDataAccess.cs:324-331 | every later vertex lies at an offset between 1 and s - 1 of subsection (c - 1) div (s - 1) |
| LandscapeDataAccess.SubsectionOfBoundary | CUE4Parse-Extensions/LandscapeDataAccess.cs:326-331 | a shared boundary vertex is the last vertex of the lower subsection |
| LandscapeDataAccess.TexelClosedForm | CUE4Parse-Extensions/LandscapeDataAccess.cs:316-322 | each subsection boundary adds one duplicated texel: texel = c + (c - 1) div (s - 1) |
| LandscapeDataAccess.TexelStrictlyIncreasing | CUE4Parse-Extensions/LandscapeDataAccess.cs:316-346 | the vertex-to-texel map is strictly increasing on each axis, so distinct vertices read distinct texels |
| LandscapeDataAccess.VertexIndexRoundTrip | CUE4Parse-Extensions/LandscapeDataAccess.cs:348-373 | VertexIndexToXY then XYtoVertexIndex gives back every vertex index of the component |
| LandscapeDataAccess.XYRoundTrip | CUE4Parse-Extensions/LandscapeDataAccess.cs:348-373 | XYtoVertexIndex then VertexIndexToXY gives back every vertex's coordinates |
| LandscapeDataAccess.ColorsOf | CUE4Parse-Extensions/LandscapeDataAccess.cs:72 | the height data holds one colour per whole four bytes of bulk data |
| LandscapeDataAccess.MemoryBytes | CUE4Parse-Extensions/LandscapeDataAccess.cs:217 | an FColor occupies four bytes in memory |
| LandscapeDataAccess.ColorsOfMemory | CUE4Parse-Extensions/LandscapeDataAccess.cs:72 | reading colours back from their in-memory bytes gives the colours |
| LandscapeDataAccess.ChannelOffsetsMatchLayout | CUE4Parse-Extensions/LandscapeDataAccess.cs:219-222 | the `Marshal.OffsetOf` offsets of R, G, B, A pick that channel out of a BGRA texel |
| LandscapeDataAccess.DecodedChannel | CUE4Parse-Extensions/LandscapeDataAccess.cs:225-243 | the channel loop produces one byte per texel |
| LandscapeDataAccess.DecodedChannelIsChannel | CUE4Parse-Extensions/LandscapeDataAccess.cs:219-243 | each decoded weight is the allocation's channel of the texel at the same position |
| LandscapeDataAccess.HeightCode | CUE4Parse-Extensions/LandscapeDataAccess.cs:363-368 | the height is a 16-bit code whose high byte is R and low byte G |
| LandscapeDataAccess.HeightmapCheck | CUE4Parse-Extensions/LandscapeDataAccess.cs:45-83 | construction fails on an unsupported format, then on a mip level past the mips, then on missing bulk data, and succeeds exactly otherwise |
| LandscapeDataAccess.FirstMatch | CUE4Parse-Extensions/LandscapeDataAccess.cs:152-163 | the index of the first allocation for the layer, or -1 when there is none |
| LandscapeDataAccess.DecodeWeightmap | CUE4Parse-Extensions/LandscapeDataAccess.cs:187-243 | a layer without a usable allocation gives (false, empty); a decoded layer has WeightmapSize² weights |
| LandscapeDataAccess.WeightmapData | CUE4Parse-Extensions/LandscapeDataAccess.cs:179-185 | a cached layer name answers from the cache; otherwise the layer is decoded |
| LandscapeDataAccess.LayerWeight | CUE4Parse-Extensions/LandscapeDataAccess.cs:277-308 | a subsection of one vertex divides by zero; a layer without a usable allocation weighs 0 |
| LandscapeDataAccess.LayerWeightFound | CUE4Parse-Extensions/LandscapeDataAccess.cs:297-305 | with found data, the weight is the data at the vertex's texture-wide position, or an out-of-range read |
| LandscapeDataAccess.LayerWeightReadsDecodedPrefix | CUE4Parse-Extensions/LandscapeDataAccess.cs:196-227 | on a cache miss, a position among the decoded weights reads that texel's channel byte, and a later one throws |
| LandscapeDataAccess.LayerWeightCorrected | CUE4Parse-Extensions/LandscapeDataAccess.cs:297-303 | the corrected lookup has the same error and zero cases as the original |
| LandscapeDataAccess.CorrectedReadsChannel | CUE4Parse-Extensions/LandscapeDataAccess.cs:297-303 | where the texel lies in the mip, the corrected lookup reads the allocation's channel of it |
| LandscapeDataAccess.CorrectedAgreesWhereReadSucceeds | CUE4Parse-Extensions/LandscapeDataAccess.cs:297-303 | wherever the original lookup succeeds, the corrected one gives the same weight |
| LandscapeDataAccess.SecondRowReadsPastDecoded | CUE4Parse-Extensions/LandscapeDataAccess.cs:196-227 | with no texture offset, vertex (0, 1) reads position `stride`, and throws when that is not among the decoded weights |
| LandscapeDataAccess.SecondRowCorrected | CUE4Parse-Extensions/LandscapeDataAccess.cs:297-303 | the corrected lookup reads the channel of texel `stride` for vertex (0, 1) |
| LandscapeDataAccess.WideWeightmapComponent | CUE4Parse-Extensions/LandscapeDataAccess.cs:196-227 | a component of the counterexample's shape exists for any 64 bytes of weight data |
| LandscapeDataAccess.FirstTexels | CUE4Parse-Extensions/LandscapeDataAccess.cs:316-346 | the first two vertices of an axis are its first two texels |
| LandscapeDataAccess.WeightIndexSecondRow | CUE4Parse-Extensions/LandscapeDataAccess.cs:297-303 | with no offset, vertex (0, 1) reads the first texel of the texture's second row |
| LandscapeDataAccess.WideWeightmapShape | CUE4Parse-Extensions/LandscapeDataAccess.cs:196-222 | the counterexample component has subsections of two vertices, weight size 2 and a texture of stride 4 |
| LandscapeDataAccess.WideWeightmapDecodes | CUE4Parse-Extensions/LandscapeDataAccess.cs:196-243 | its layer decodes to the red channel of the texture's first four texels |
| LandscapeDataAccess.WeightReadOutsideDecodedSlice | CUE4Parse-Extensions/LandscapeDataAccess.cs:196-303 | as written, the weight of vertex (0, 1) throws, though its texel lies in the texture |
| LandscapeDataAccess.WeightReadCorrected | CUE4Parse-Extensions/LandscapeDataAccess.cs:297-303 | corrected, the weight of vertex (0, 1) is the red channel of texel 4 |
| LandscapeDataAccess.FLandscapeComponentDataInterface.Init | CUE4Parse-Extensions/LandscapeDataAccess.cs:33-57 | the fields take the component, the mip level, the heightmap stride and offsets and the sizes shifted by the mip; the cache starts empty |
| LandscapeDataAccess.FLandscapeComponentDataInterface.GetHeightData | CUE4Parse-Extensions/LandscapeDataAccess.cs:262-275 | the read succeeds exactly when the vertex's texel index lies in the height data |
| LandscapeDataAccess.FLandscapeComponentDataInterface.GetHeight | CUE4Parse-Extensions/LandscapeDataAccess.cs:363-368 | a subsection of one vertex divides by zero; otherwise the height is the 16-bit code of the texel's R and G, or an index error when the texel is outside the height data |
| LandscapeDataAccess.FLandscapeComponentDataInterface.GetHeightAt | CUE4Parse-Extensions/LandscapeDataAccess.cs:357-361 | a zero component size divides by zero; otherwise the height at the index's coordinates |
| LandscapeDataAccess.VertexHeightRead | CUE4Parse-Extensions/LandscapeDataAccess.cs:262-274 | the height read of a vertex index on a built interface: a division by zero for a zero component size or a one-vertex subsection, otherwise the 16-bit height of its texel or an index past the height data |
| LandscapeDataAccess.GetHeightAtAgrees | CUE4Parse-Extensions/LandscapeDataAccess.cs:357-368 | on an interface built for mip 0, `GetHeightAt` gives exactly what `VertexHeightRead` of its component gives |
| LandscapeDataAccess.ShortHeightDataThrows | CUE4Parse-Extensions/LandscapeDataAccess.cs:272 | height bulk data shorter than one texel passes the construction checks, yet every vertex read throws an index past the data |
| LandscapeDataAccess.FLandscapeComponentDataInterface.GetWeightMapIndex | CUE4Parse-Extensions/LandscapeDataAccess.cs:150-177 | the index is the first allocation for the layer (-1 if none), and the verdict holds exactly when its texture index and channel are in range |
| LandscapeDataAccess.FLandscapeComponentDataInterface.GetWeightmapTextureData | CUE4Parse-Extensions/LandscapeDataAccess.cs:179-260 | the answer comes from the cache or the decoder; a newly decoded layer is cached under its name, and every cache entry stays a decoding of its layer |
| LandscapeDataAccess.FLandscapeComponentDataInterface.GetLayerWeight | CUE4Parse-Extensions/LandscapeDataAccess.cs:277-308 | the weight is LayerWeight's over the cache as it was; the cache gains the layer's decoded data exactly when it was absent and found, and stays valid |
| LandscapeDataAccess.FLandscapeComponentDataInterface.CachedIsDecoded | CUE4Parse-Extensions/LandscapeDataAccess.cs:181-185 | with distinct layer names, answering from the cache is the same as decoding afresh |
| LandscapeDataAccess.FirstMatchUnique | CUE4Parse-Extensions/LandscapeDataAccess.cs:156-163 | a search result that is the first match is FirstMatch |
| LandscapeDataAccess.ExtractChannel | CUE4Parse-Extensions/LandscapeDataAccess.cs:225-243 | the loop decodes the channel, or fails when the bulk data ends before the last byte read |
| LandscapeDataAccess.ReadColors | CUE4Parse-Extensions/LandscapeDataAccess.cs:70-74 | a new array holding every whole texel of the bulk data |
| LandscapeDataAccess.NewDataInterface | CUE4Parse-Extensions/LandscapeDataAccess.cs:33-84 | the checks fail in source order; otherwise a new interface with the decoded height data, the derived sizes and an empty, valid cache |
| LandscapeExport.Tiles | CUE4Parse-Extensions/LandscapeExporter.cs:177-186 | one tile per component, in order, as the fold reads them |
| LandscapeExport.ExportSizeQuads | CUE4Parse-Extensions/LandscapeExporter.cs:189 | `((componentSize + 1) >> 0) - 1` in 32-bit arithmetic is the component size itself, even at `int.MaxValue` |
| LandscapeExport.RasterSpan | CUE4Parse-Extensions/LandscapeExporter.cs:199-200 | the raster edge is `Max - Min + 1` whenever that fits in 32 bits |
| LandscapeExport.SlotBefore | CUE4Parse-Extensions/LandscapeExporter.cs:230 | an earlier component's slots lie before a later component's slice |
| LandscapeExport.SlotWithin | CUE4Parse-Extensions/LandscapeExporter.cs:230 | every component's slice lies within the `VertexCount` slots |
| LandscapeExport.SlotUnique | CUE4Parse-Extensions/LandscapeExporter.cs:230 | a slot belongs to exactly one (component, vertex) pair: the slices are disjoint |
| LandscapeExport.SlotCovers | CUE4Parse-Extensions/LandscapeExporter.cs:230 | every slot below `VertexCount` is the slot of some component's vertex |
| LandscapeExport.LayersBeforeAll | CUE4Parse-Extensions/LandscapeExporter.cs:260-289 | gathering the layer names one component at a time gives every name some component allocates |
| LandscapeExport.LastIndexOf | CUE4Parse-Extensions/LandscapeExporter.cs:260-289 | the last allocation naming a layer, after which no allocation names it |
| LandscapeExport.IndexOfFrom | CUE4Parse-Extensions/LandscapeExporter.cs:275 | the first position from `k` where the separator occurs, or -1 when it occurs nowhere from there |
| LandscapeExport.ShortNameShape | CUE4Parse-Extensions/LandscapeExporter.cs:275-276 | the short name is a prefix of the layer name, at most 14 characters, free of `_LayerInfo`; a name without the suffix is just cut to 14 |
| LandscapeExport.ShortNameOfLayerInfo | CUE4Parse-Extensions/LandscapeExporter.cs:275-276 | `<stem>_LayerInfo` is exported under its stem cut to 14 characters |
| LandscapeExport.Gray | CUE4Parse-Extensions/LandscapeExporter.cs:284 | the layer colour has the weight in all four channels |
| LandscapeExport.RasterMap | CUE4Parse-Extensions/LandscapeExporter.cs:267-270 | one raster of the landscape's width and height per layer name met |
| LandscapeExport.AddLayerWeightSized | CUE4Parse-Extensions/LandscapeExporter.cs:273-278 | a write's layer gets a buffer of `VertexCount` slots; other buffers are left as they are |
| LandscapeExport.ApplySnoc | CUE4Parse-Extensions/LandscapeExporter.cs:260-289 | one more allocation is one more single write |
| LandscapeExport.ApplyAppend | CUE4Parse-Extensions/LandscapeExporter.cs:225-298 | writing two runs one after the other is writing their concatenation |
| LandscapeExport.ApplyKeys | CUE4Parse-Extensions/LandscapeExporter.cs:273-278 | the writes add exactly one buffer per layer name they carry |
| LandscapeExport.ApplyName | CUE4Parse-Extensions/LandscapeExporter.cs:275-277 | a buffer keeps the short name it was created with |
| LandscapeExport.LastWeightAppend | CUE4Parse-Extensions/LandscapeExporter.cs:284 | a later run's last write to a slot wins over an earlier run's |
| LandscapeExport.LastWeightSnoc | CUE4Parse-Extensions/LandscapeExporter.cs:284 | one more write wins exactly when it is to that slot of that layer |
| LandscapeExport.ApplyColor | CUE4Parse-Extensions/LandscapeExporter.cs:273-284 | after the writes, a slot holds the grey of the last write to it; an unwritten slot keeps its colour, or the default in a new buffer |
| LandscapeExport.VertexWriteNames | CUE4Parse-Extensions/LandscapeExporter.cs:260-289 | a vertex writes every layer its component allocates |
| LandscapeExport.VertexLastWeight | CUE4Parse-Extensions/LandscapeExporter.cs:260-289 | a vertex's last write to a layer comes from the layer's last allocation, and no other slot is written |
| LandscapeExport.ComponentWriteNames | CUE4Parse-Extensions/LandscapeExporter.cs:235-295 | a component with vertices writes each of its layer names |
| LandscapeExport.ComponentWritesPlaced | CUE4Parse-Extensions/LandscapeExporter.cs:235-295 | a component writes only its own slice: slot `base + v` of a layer gets vertex v's weight from its last allocation |
| LandscapeExport.ComponentWritesOutside | CUE4Parse-Extensions/LandscapeExporter.cs:284 | a component writes nothing outside its slice |
| LandscapeExport.MeshWriteNames | CUE4Parse-Extensions/LandscapeExporter.cs:225-298 | the layer names written are those the components allocate, none when components have no vertices |
| LandscapeExport.MeshWritesTail | CUE4Parse-Extensions/LandscapeExporter.cs:225-298 | no slot of the components still to come is written |
| LandscapeExport.MeshLastWeight | CUE4Parse-Extensions/LandscapeExporter.cs:225-298 | the last write to slot c·V + w of a layer carries component c's weight from its last allocation of it, none when c lacks the layer |
| LandscapeExport.MeshLastWeightOwn | CUE4Parse-Extensions/LandscapeExporter.cs:284 | right after component c, its own writes are the last to its slice |
| LandscapeExport.MeshColors | CUE4Parse-Extensions/LandscapeExporter.cs:225-305 | after every component: one buffer per allocated layer, each of `VertexCount` slots under its short name, each slot holding the expected colour |
| LandscapeExport.WriteLayer | CUE4Parse-Extensions/LandscapeExporter.cs:267-284 | one allocation: a new layer gets a raster and a buffer of default colours, then the vertex's slot holds the grey of its weight |
| LandscapeExport.WriteVertexLayers | CUE4Parse-Extensions/LandscapeExporter.cs:260-289 | the allocation loop of a vertex applies every allocation's write, in order |
| LandscapeExport.Fill | CUE4Parse-Extensions/LandscapeExporter.cs:292-294 | filling a slice keeps the buffer's length |
| LandscapeExport.FillAt | CUE4Parse-Extensions/LandscapeExporter.cs:292-294 | a filled slice holds the given values and every slot outside it is unchanged |
| LandscapeExport.FillVertex | CUE4Parse-Extensions/LandscapeExporter.cs:235-294 | one vertex writes its layer greys, its vertex and its weight-map UV at slot `base + v` |
| LandscapeExport.FillComponent | CUE4Parse-Extensions/LandscapeExporter.cs:234-296 | one component's task fills its slice with its vertices, UVs and layer greys, and writes nothing outside it |
| LandscapeExport.BuildIndices | CUE4Parse-Extensions/LandscapeExporter.cs:321-359 | the index loops produce the quads of every component, in loop order |
| LandscapeExport.AppendComponentQuads | CUE4Parse-Extensions/LandscapeExporter.cs:327-356 | the Y loop appends one component's rows |
| LandscapeExport.AppendRowQuads | CUE4Parse-Extensions/LandscapeExporter.cs:329-355 | the X loop appends two triangles per quad of the row |
| LandscapeExport.IndexCount | CUE4Parse-Extensions/LandscapeExporter.cs:321-359 | the buffer holds six indices per quad: `TriangleCount * 3` when the component size is not negative |
| LandscapeExport.TriangleIndices | CUE4Parse-Extensions/LandscapeExporter.cs:321 | three indices per triangle, two triangles per quad |
| LandscapeExport.CornerInSlice | CUE4Parse-Extensions/LandscapeExporter.cs:333-346 | a quad corner inside the component lies in the component's slice |
| LandscapeExport.CornerNamesVertex | CUE4Parse-Extensions/LandscapeExporter.cs:333-346 | each index names the vertex the fill loop wrote for that local position |
| LandscapeExport.QuadInSlice | CUE4Parse-Extensions/LandscapeExporter.cs:333-350 | all six indices of a quad lie in the component's slice |
| LandscapeExport.IndicesInRange | CUE4Parse-Extensions/LandscapeExporter.cs:321-359 | every index lies below `VertexCount`, so it names a vertex some component wrote |
| LandscapeExport.ComponentIndicesPlaced | CUE4Parse-Extensions/LandscapeExporter.cs:323-357 | component i's indices occupy positions [6iQ, 6(i+1)Q) of the buffer, all in its own slice |
| LandscapeExport.RowQuadPlaced | CUE4Parse-Extensions/LandscapeExporter.cs:329-355 | quad x of a row sits at positions [6x, 6x + 6) of the row |
| LandscapeExport.QuadPlaced | CUE4Parse-Extensions/LandscapeExporter.cs:327-356 | quad (x, y) sits at positions [6(y·csq + x), +6) of its component, as the two triangles of the source's winding |
| LandscapeExport.QuadCoversCell | CUE4Parse-Extensions/LandscapeExporter.cs:333-350 | the two triangles share the diagonal (x,y)-(x+1,y+1) and together use the cell's four distinct corners |
| LandscapeExport.ColorBuffers | CUE4Parse-Extensions/LandscapeExporter.cs:305 | one new colour buffer per layer, in an unspecified order without repeats, each holding that layer's colours under its short name |
| LandscapeExport.WeightPixel | CUE4Parse-Extensions/LandscapeExporter.cs:280-283 | the pixel set is the component-local (x, y), whatever the tile |
| LandscapeExport.WeightPixelCorrected | CUE4Parse-Extensions/LandscapeExporter.cs:250-255 | the corrected pixel is the vertex's landscape position less the box's corner |
| LandscapeExport.WeightPixelsCollide | CUE4Parse-Extensions/LandscapeExporter.cs:280-283 | as written, vertex (1, 0) of two neighbouring tiles sets the same pixel, though their landscape positions differ; the corrected pixels differ |
| LandscapeExport.CorrectedPixelInRaster | CUE4Parse-Extensions/LandscapeExporter.cs:196-200 | when nothing wraps, every corrected pixel lies inside the `Width` by `Height` raster |
| LandscapeExport.FirstSize | CUE4Parse-Extensions/LandscapeExporter.cs:179-184 | `_componentSize` starting at -1 ends as the first component size other than -1, or -1 when there is none |
| LandscapeExport.FillComponents | CUE4Parse-Extensions/LandscapeExporter.cs:224-300 | the loop fails exactly as ExportOutcome says (first unbuildable component, else a failed height read or weight lookup in some task); when it succeeds every slot holds its component's vertex and UV, the buffers are every component's writes, and each layer has a raster |
| LandscapeExport.FillNextComponent | CUE4Parse-Extensions/LandscapeExporter.cs:225-298 | one turn fails to build the data interface exactly when HeightmapCheck fails, writing nothing; otherwise it keeps earlier slots, fills component i's slice and reports a task failure exactly when one of its vertices' height reads or weight lookups fails |
| LandscapeExport.LoopOutcomeMeans | CUE4Parse-Extensions/LandscapeExporter.cs:224-300 | after i turns the loop has succeeded exactly when every component so far builds and no task fails (a task fails when one of its vertices' height reads or weight lookups throws); a construction failure names the first component that does not build, with its error; otherwise it fails with the tasks exactly when some task fails |
| LandscapeExport.ConstructionFailureSticks | CUE4Parse-Extensions/LandscapeExporter.cs:225-227 | a construction failure ends the loop: later turns do not change the outcome |
| LandscapeExport.SucceededLookups | CUE4Parse-Extensions/LandscapeExporter.cs:268 | when the loop succeeds, every weight lookup succeeds and the weight written is the one looked up |
| LandscapeExport.SucceededHeightReads | CUE4Parse-Extensions/LandscapeExporter.cs:238-241 | when the loop succeeds, every component was built and the height read of each of its vertices succeeded |
| LandscapeExport.SlotsKept | CUE4Parse-Extensions/LandscapeExporter.cs:225-298 | slots of earlier components keep their values when the next component's slice is filled |
| LandscapeExport.BuffersHoldColors | CUE4Parse-Extensions/LandscapeExporter.cs:304-305 | the exported buffers are exactly one per allocated layer, each holding the expected colour at every slot |
| LandscapeExport.FillLayers | CUE4Parse-Extensions/LandscapeExporter.cs:204-305 | fails exactly as ExportOutcome says (unbuildable component, failed height read, failed weight lookup); on success one raster and one buffer per allocated layer, each slot holding its vertex, UV and expected colours |
| LandscapeExport.NewLod | CUE4Parse-Extensions/LandscapeExporter.cs:208-212 | two texture channels, `VertexCount` vertices, one extra UV channel, default vertex colours and no colour buffers yet |
| LandscapeExport.BuildLod | CUE4Parse-Extensions/LandscapeExporter.cs:188-372 | fails exactly as ExportOutcome says (unbuildable component, failed height read, failed weight lookup); on success the LOD holds every vertex, UV and layer colour at its slot, one section of `TriangleCount` triangles and the quads' index buffer |
| LandscapeExport.LandscapeExporter.constructor | CUE4Parse-Extensions/LandscapeExporter.cs:38-48 | the component size comes from the proxy, the components are given, and there are no weight maps yet |
| LandscapeExport.LandscapeExporter.FoldComponents | CUE4Parse-Extensions/LandscapeExporter.cs:174-186 | the box is the fold of every tile from the sentinels; a size of -1 becomes the first component size |
| LandscapeExport.LandscapeExporter.DoThings3Mesh | CUE4Parse-Extensions/LandscapeExporter.cs:172-372 | fails exactly as ExportOutcome says (unbuildable component, failed height read, failed weight lookup), leaving WeightMaps unchanged; on success the LOD holds every component's vertices, UVs and layer colours at their slots, one section and the quads' indices, and `WeightMaps` has one raster of the box's size per layer |
| MeshExport.Digit | CUE4Parse-Conversion/Meshes/MeshExporter.cs:86 | a decimal digit character, whose code less '0' is the digit |
| MeshExport.Quot10 | CUE4Parse-Conversion/Meshes/MeshExporter.cs:86 | the quotient by ten |
| MeshExport.Rem10 | CUE4Parse-Conversion/Meshes/MeshExporter.cs:86 | the remainder by ten, which with the quotient rebuilds the number |
| MeshExport.Decimal | CUE4Parse-Conversion/Meshes/MeshExporter.cs:86 | `{i}` in a file name is a non-empty string of decimal digits |
| MeshExport.DecimalRoundTrip | CUE4Parse-Conversion/Meshes/MeshExporter.cs:145 | reading the digits back gives the LOD number |
| MeshExport.LodFileNameInjective | CUE4Parse-Conversion/Meshes/MeshExporter.cs:86 | two `{PackagePath}_LOD{i}.{ext}` names of one package are equal only for the same LOD number and extension |
| MeshExport.DigitsBeforeDot | CUE4Parse-Conversion/Meshes/MeshExporter.cs:145 | a run of digits followed by a dot splits in one way only |
| MeshExport.DotAfter | CUE4Parse-Conversion/Meshes/MeshExporter.cs:145 | the character after the digits is the dot |
| MeshExport.KeptIndices | CUE4Parse-Conversion/Meshes/MeshExporter.cs:56-63 | at most one kept position per LOD walked |
| MeshExport.KeptIndicesSound | CUE4Parse-Conversion/Meshes/MeshExporter.cs:59-63 | every kept position is a LOD that is not skipped |
| MeshExport.KeptIndicesComplete | CUE4Parse-Conversion/Meshes/MeshExporter.cs:115-119 | every LOD that is not skipped is kept |
| MeshExport.KeptIndicesIncreasing | CUE4Parse-Conversion/Meshes/MeshExporter.cs:56-88 | the kept positions are in increasing order, so no LOD is exported twice |
| MeshExport.KeptIndicesPrefix | CUE4Parse-Conversion/Meshes/MeshExporter.cs:56-88 | what was kept among the first LODs is how the later kept list starts |
| MeshExport.SelectedSound | CUE4Parse-Conversion/Meshes/MeshExporter.cs:56-88 | only LODs that are not skipped are exported, in increasing order |
| MeshExport.SelectedFirstLod | CUE4Parse-Conversion/Meshes/MeshExporter.cs:87 | under FirstLod at most one LOD is exported: the first that is not skipped |
| MeshExport.SelectedAllLods | CUE4Parse-Conversion/Meshes/MeshExporter.cs:112-148 | otherwise every LOD that is not skipped is exported |
| MeshExport.SelectedNone | CUE4Parse-Conversion/Meshes/MeshExporter.cs:56-88 | nothing is exported exactly when every LOD is skipped |
| MeshExport.NamesDistinct | CUE4Parse-Conversion/Meshes/MeshExporter.cs:86 | files named after strictly increasing LOD numbers have pairwise distinct names |
| MeshExport.SelectedWhenKept | CUE4Parse-Conversion/Meshes/MeshExporter.cs:146 | once a LOD is kept something is exported; under FirstLod only that first kept LOD |
| MeshExport.SelectedOnKept | CUE4Parse-Conversion/Meshes/MeshExporter.cs:59-87 | reaching a LOD that is not skipped keeps it; under FirstLod with none kept before, it is the only one exported |
| MeshExport.KeptIndicesSkip | CUE4Parse-Conversion/Meshes/MeshExporter.cs:115-119 | a skipped LOD adds nothing |
| MeshExport.StaticExtension | CUE4Parse-Conversion/Meshes/MeshExporter.cs:68-84 | a known format has an extension, ActorX's being "pskx"; an unknown format has none |
| MeshExport.StaticFiles | CUE4Parse-Conversion/Meshes/MeshExporter.cs:86 | one file per exported static LOD |
| MeshExport.StaticFilesSnoc | CUE4Parse-Conversion/Meshes/MeshExporter.cs:86 | one more exported LOD adds its file at the end |
| MeshExport.StaticFileNamesDistinct | CUE4Parse-Conversion/Meshes/MeshExporter.cs:55-88 | the exported static-mesh files never share a name |
| MeshExport.StaticMeshLods | CUE4Parse-Conversion/Meshes/MeshExporter.cs:45-89 | an unknown format throws once a LOD is exported and gives nothing otherwise; a known one gives the selected LODs' files, each named by its position among all LODs |
| MeshExport.ExportStaticLod | CUE4Parse-Conversion/Meshes/MeshExporter.cs:65-86 | one LOD's file appended to those before it, or the format error exactly for an unknown format |
| MeshExport.ExportStaticLods | CUE4Parse-Conversion/Meshes/MeshExporter.cs:55-88 | the static LOD loop gives the selected LODs' files, or the format error |
| MeshExport.SkeletalExtension | CUE4Parse-Conversion/Meshes/MeshExporter.cs:124-143 | a known format has an extension; ActorX's is "pskx" exactly above 65536 vertices and "psk" otherwise |
| MeshExport.SkeletalFilesAsWritten | CUE4Parse-Conversion/Meshes/MeshExporter.cs:127 | one file per exported skeletal LOD, the j-th named `_LOD{j}` |
| MeshExport.SkeletalFiles | CUE4Parse-Conversion/Meshes/MeshExporter.cs:145 | one file per exported skeletal LOD with its own LOD's extension |
| MeshExport.SkeletalFilesActorX | CUE4Parse-Conversion/Meshes/MeshExporter.cs:145 | each corrected ActorX file is "pskx" exactly when the LOD it holds has more than 65536 vertices |
| MeshExport.SkeletalFilesAsWrittenSnoc | CUE4Parse-Conversion/Meshes/MeshExporter.cs:145 | one more exported LOD adds its file at the end |
| MeshExport.SkeletalFilesSnoc | CUE4Parse-Conversion/Meshes/MeshExporter.cs:145 | one more exported LOD adds its file at the end |
| MeshExport.SkeletalFileNamesAsWrittenDistinct | CUE4Parse-Conversion/Meshes/MeshExporter.cs:111-147 | the skeletal files are numbered consecutively, so they never share a name |
| MeshExport.SkeletalFileNamesDistinct | CUE4Parse-Conversion/Meshes/MeshExporter.cs:111-147 | the corrected skeletal files never share a name either |
| MeshExport.SkeletalMeshLods | CUE4Parse-Conversion/Meshes/MeshExporter.cs:91-149 | as written: the selected LODs' files numbered 0, 1, 2, ... with the extension of `LODs[i]`, or the format error |
| MeshExport.ExportSkeletalLod | CUE4Parse-Conversion/Meshes/MeshExporter.cs:121-147 | one LOD's file, numbered by the export counter with the extension of `LODs[i]`, or the format error exactly for an unknown format |
| MeshExport.ExportSkeletalLods | CUE4Parse-Conversion/Meshes/MeshExporter.cs:111-148 | the skeletal LOD loop as written |
| MeshExport.SkeletalMeshLodsCorrected | CUE4Parse-Conversion/Meshes/MeshExporter.cs:91-149 | the selected LODs' files numbered 0, 1, 2, ... each with its own LOD's extension, or the format error |
| MeshExport.ExportSkeletalLodCorrected | CUE4Parse-Conversion/Meshes/MeshExporter.cs:121-147 | one LOD's file with its own extension, or the format error exactly for an unknown format |
| MeshExport.ExportSkeletalLodsCorrected | CUE4Parse-Conversion/Meshes/MeshExporter.cs:111-148 | the corrected skeletal LOD loop |
| MeshExport.SkeletalExtensionFromSkippedLod | CUE4Parse-Conversion/Meshes/MeshExporter.cs:127 | with LOD 0 skipped at 70000 vertices and LOD 1 exported at 100, the file as written is "pskx" while the corrected one is "psk" |
| MeshExport.SkeletonMeshLods | CUE4Parse-Conversion/Meshes/MeshExporter.cs:25-43 | nothing without bones; otherwise one file `{PackagePath}.psk` holding the skeleton's data |
| MeshExport.LodNumbers | CUE4Parse-Conversion/Meshes/MeshExporter.cs:162-167 | the label starts with "LOD " |
| MeshExport.TryWriteToDir | CUE4Parse-Conversion/Meshes/MeshExporter.cs:155-171 | as written: true exactly when at least one LOD file was written, false without LODs; the label lists every LOD number |
| MeshExport.TryWriteToDirCorrected | CUE4Parse-Conversion/Meshes/MeshExporter.cs:151-171 | as documented: true exactly when there are LODs and all of them were written |
| MeshExport.OneFailedWriteReportedAsSuccess | CUE4Parse-Conversion/Meshes/MeshExporter.cs:154-165 | with the first of two files failing, the result as written reports success though not all LODs were written |

## Left out

- Floating-point arithmetic is not interpreted. This covers:
  - `Normalize()` in `UnrealModel`;
  - the rotator/quaternion conversions in `UnrealWorld`;
  - the rounding inside `RescaleToInt8`;
  - the landscape's local height, vertex, normal and tangent computations;
  - the UV scale and the scale-bias offsets.
  Their results are parameters of the model, or values carried unchanged. Only sign flips are modelled, as sign-bit flips.
- The importer's 0.01 position scaling is floating-point work, so positions are kept as read.
- The Blender object construction in `unreal.py`, and its logging and entry points, are not modelled because they drive an external application.
- UTF-8 encoding and decoding of strings is not modelled. Names are byte strings, written and read unchanged.
- Gzip and Zstandard are uninterpreted codec parameters, assumed lossless.
  - The writer's `Save` and `GetLength` have no arm for ZSTD. The model reports that case as an error.
  - A ZSTD-compressed file is therefore not round-tripped.
- `WriteFString`, `FString`, `FDataChunk`, `FColor.Serialize`, `FVector.Serialize` and `FActor.Serialize` are not part of this model. Their byte layout is the one the importer reads: an int32 length and the bytes; a chunk as tag, count, byte size and payload; fixed-size records.
- `FArchiveWriter.WriteArray`'s contents are not modelled. It stores the array reference, not the elements, so only its byte count and its failure on an empty array are modelled.
- The importer's recursion into embedded meshes is bounded by an explicit `depth` parameter, which stands in for Python's unbounded recursion.
- The importer's INDICES reader takes `int(array_size / 3)` triples for any count, as modelled; only the INDICES round trip is stated for counts divisible by 3, the only ones the writer produces.
- Level loading (`Load<>`, `TryConvert`, level traversal, `LoadComponents`, `InitComponentsFromWorld`) is not modelled; `ProcessWorld` itself is, over the loaded level given as input. The loading results are given as inputs, for example which morph targets and sockets load and which meshes convert.
- `ProcessAdditionalWords` is not part of this model.
- Platform deswizzling, pixel-format tables and texture loading are not modelled. The decoded bulk bytes are inputs.
- `GetHeightmapTextureData` is not modelled. It throws `NotImplementedException`.
- The concurrent per-component tasks of the landscape export are modelled as a sequential loop. The components write disjoint slices, and that is the invariant proved.
- The insert-if-absent dictionaries are modelled as maps.
- SkiaSharp rasters, PNG encoding and all file writing are not modelled. For a layer's raster, only its size and the pixel that each weight is written to are modelled.
- The landscape exporter's own `TryWriteToDir` (`CUE4Parse-Extensions/LandscapeExporter.cs:387-397`) is not modelled. It writes files to disk.
- The component-size check in the landscape export is a `Debug.Assert`, compiled out of release builds, so it is not modelled.
- Section material objects are not modelled. Sections keep only their material index, first index and face count.
- The mesh encoders (ActorX, glTF, OBJ) are parameters. Logging is not modelled.
- `TryWriteToZip` and `AppendToZip` are not modelled. They throw `NotImplementedException`.
- Integer counts in the landscape export are unbounded. The C# `int` overflow of very large terrains is not modelled.
- Strings are compared ordinally, as `IndexOf` with an ordinal comparison does.
- BaseMeshLod.CBaseMeshLod.AllocateUVBuffers: requires a non-negative `NumVerts` when there are extra channels, and so does AllocateVertexColorBuffer; the `OverflowException` C# throws for a negative array size is not modelled.
- BaseMeshLod.CBaseMeshLod.AllocateUVBuffers: allocates at once, where the source wraps the allocation in a `TaskLazy` that runs on first use (`CUE4Parse-Conversion/Meshes/PSK/CBaseMeshLod.cs:36`); when the allocation happens is not modelled.
- UnrealModel.WeightsChunk: requires `WeightsOk`, which excludes a vertex with more weights than bone indices; the `IndexOutOfRangeException` that `vertBones[index]` then throws (`CUE4Parse-Conversion/Meshes/UnrealFormat/UnrealModel.cs:110`) is not modelled.
- LandscapeDataAccess.LayerWeight: one `WeightmapOffsetX`/`WeightmapOffsetY` pair serves every weight-map texture of a component, where the source computes the offset from each texture's own size and the scale-bias (`CUE4Parse-Extensions/LandscapeDataAccess.cs:298-299`); a component whose weight-map textures differ in size is not modelled.
- LandscapeExport.LandscapeExporter.DoThings3Mesh: when the method fails, the LOD it built is not specified, since the source throws and drops it; the tasks that may still be running when a construction fails are not modelled.

## Findings

| source | as written | input that shows it | evidently intended | confidence | as-written member | corrected member |
|---|---|---|---|---|---|---|
| CUE4Parse-Conversion/Meshes/UnrealFormat/UnrealModel.cs:164-165 | each loaded socket's name and bone name are written to the outer archive, ahead of the SOCKETS chunk, not into it | a skeletal mesh with one loaded socket: the importer reads the socket name as the next chunk's tag | both names written into the socket chunk, before the socket's transform | not executed | MeshRoundTrip.SocketNameReadAsChunkTag | UnrealModel.SerializeSkeletalMeshDataCorrected |
| CUE4Parse-Conversion/Meshes/UnrealFormat/UnrealModel.cs:122-126 | MORPHTARGETS declares one entry per reference, but references that fail to load or lack the LOD write nothing | one morph target reference that is skipped, followed by an empty BONES chunk: the importer reads the BONES chunk's bytes as a morph target | the count equals the number of morph targets written | not executed | MeshRoundTrip.MorphCountOverReads | UnrealModel.LoadedMorphTargetsChunk |
| CUE4Parse-Conversion/Worlds/UnrealFormat/UnrealWorld.cs:76-91 | an actor is recorded even when its mesh failed to convert, so no mesh with its hash is written | a level whose only actor's mesh fails to convert: the importer's lookup of the actor's hash in the mesh map raises | actors are recorded only with a written mesh | not executed | WorldRoundTrip.OrphanWorldRaises | WorldRoundTrip.CorrectedWorldImports |
| CUE4Parse-Conversion/Meshes/MeshExporter.cs:127 | the ActorX extension is chosen from `LODs[i]`, where `i` counts exported LODs, not the LOD being exported | LOD 0 skipped with 70000 vertices and LOD 1 with 100 vertices: the file is named `pskx` | the extension of the LOD being exported, `psk` here | not executed | MeshExport.SkeletalExtensionFromSkippedLod | MeshExport.SkeletalMeshLodsCorrected |
| CUE4Parse-Conversion/Meshes/MeshExporter.cs:154-170 | the result is the OR of the per-file results, though the method is documented as true only if all files are written | two files, the first failing to write: the result is true | true only when every file is written | not executed | MeshExport.OneFailedWriteReportedAsSuccess | MeshExport.TryWriteToDirCorrected |
| CUE4Parse-Extensions/LandscapeDataAccess.cs:196-227 | only `WeightmapSize^2` texels are decoded, but a weight is read at the texture-wide stride and offset | one subsection of one quad, a 4x4 weight texture of 64 bytes, vertex (0,1): the read index 4 is past the 4 decoded weights and throws | the decoded slice indexed with its own row length | not executed | LandscapeDataAccess.WeightReadOutsideDecodedSlice | LandscapeDataAccess.WeightReadCorrected |
| CUE4Parse-Extensions/LandscapeExporter.cs:280-283 | the raster pixel is the component-local vertex coordinate, so every component writes the same pixels | tiles at (0,0) and (7,0) of size 7, vertex (1,0): both set pixel (1,0) | the pixel offset by the tile's position within the bounding box | not executed | LandscapeExport.WeightPixelsCollide | LandscapeExport.WeightPixelCorrected |
