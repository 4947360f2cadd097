/**
 * The whole file: a saved UMODEL asset (header, then its body, compressed as a whole with
 * GZIP when the header says so) is recognised by `import_data` as a mesh, and the mesh it
 * imports is exactly what `import_umodel_data` reads from the uncompressed body.
 */
module FileRoundTrip {
  import opened Wrappers
  import opened Bytes
  import opened MeshData
  import opened UnrealReader
  import opened DataChunk
  import opened RoundTrip
  import opened MeshRoundTrip
  import UnrealHeader
  import ExportableAsset
  import UnrealModel

  /** The writer's magic and the reader's are the same twelve bytes, none of them NUL. */
  lemma MagicAgrees()
    ensures UnrealHeader.MAGIC == UnrealReader.MAGIC
    ensures StripNuls(UnrealReader.MAGIC) == UnrealReader.MAGIC
  {
    assert UnrealReader.MAGIC[11] == 0x54;
    StripNulsIdentity(UnrealReader.MAGIC);
  }

  /** The names the writer puts in the header are the ones the reader compares against. */
  lemma NamesAgree()
    ensures StripNuls(UnrealModel.UMODEL) == MESH_IDENTIFIER
    ensures StripNuls(UnrealHeader.FormatName(UnrealHeader.GZIP)) == GZIP_NAME
    ensures StripNuls(UnrealHeader.FormatName(UnrealHeader.ZSTD)) == ZSTD_NAME
    ensures GZIP_NAME != ZSTD_NAME
  {
    assert MESH_IDENTIFIER[5] == 0x4C;
    assert GZIP_NAME[3] == 0x50 && GZIP_NAME[0] == 0x47;
    assert ZSTD_NAME[3] == 0x44 && ZSTD_NAME[0] == 0x5A;
    StripNulsIdentity(MESH_IDENTIFIER);
    StripNulsIdentity(GZIP_NAME);
    StripNulsIdentity(ZSTD_NAME);
  }

  /** The header record the reader builds from a written header. */
  function HeaderValue(identifier: FStr, version: int32, objectName: FStr, format: UnrealHeader.EFileCompressionFormat): HeaderRec
  {
    HeaderRec(StripNuls(identifier), version, StripNuls(objectName), format != UnrealHeader.None,
      if format != UnrealHeader.None then StripNuls(UnrealHeader.FormatName(format)) else [])
  }

  /** The fields after the magic, nested to the right. */
  function HeaderFields(identifier: FStr, version: int32, objectName: FStr, format: UnrealHeader.EFileCompressionFormat, t: seq<byte>): seq<byte>
  {
    FStringBytes(identifier) + (Int32Bytes(version) + (FStringBytes(objectName)
      + (BoolBytes(format != UnrealHeader.None)
      + ((if format != UnrealHeader.None then FStringBytes(UnrealHeader.FormatName(format)) else []) + t))))
  }

  /** `ReadCompression` reads back the compressed flag and, when it is set, the format name. */
  lemma CompressionRoundTrip(format: UnrealHeader.EFileCompressionFormat, t: seq<byte>)
    ensures var flag := format != UnrealHeader.None;
      ReadCompression(BoolBytes(flag) + ((if flag then FStringBytes(UnrealHeader.FormatName(format)) else []) + t))
      == Some(Parsed((flag, if flag then StripNuls(UnrealHeader.FormatName(format)) else []), t))
  {
    var flag := format != UnrealHeader.None;
    var c := if flag then FStringBytes(UnrealHeader.FormatName(format)) else [];
    SplitAt(BoolBytes(flag), c + t);
    if flag {
      FStringRoundTrip(UnrealHeader.FormatName(format), t);
    } else {
      assert c + t == t;
    }
  }

  /** The fields of a written header, read back by `ReadHeader`. */
  lemma HeaderFieldsRoundTrip(identifier: FStr, version: int32, objectName: FStr, format: UnrealHeader.EFileCompressionFormat, t: seq<byte>)
    ensures ReadHeader(HeaderFields(identifier, version, objectName, format, t)) == Some(Parsed(HeaderValue(identifier, version, objectName, format), t))
  {
    var flag := format != UnrealHeader.None;
    var c := if flag then FStringBytes(UnrealHeader.FormatName(format)) else [];
    var r3 := BoolBytes(flag) + (c + t);
    var r2 := FStringBytes(objectName) + r3;
    var r1 := Int32Bytes(version) + r2;
    var d := HeaderFields(identifier, version, objectName, format, t);
    assert d == FStringBytes(identifier) + r1;
    FStringRoundTrip(identifier, r1);
    IntRoundTrip(version, r2);
    FStringRoundTrip(objectName, r3);
    CompressionRoundTrip(format, t);
    HeaderFromFields(d, Parsed(StripNuls(identifier), r1), Parsed(version, r2), Parsed(StripNuls(objectName), r3),
      Parsed((flag, if flag then StripNuls(UnrealHeader.FormatName(format)) else []), t));
  }

  /** `ReadHeader` is its four field reads in sequence. */
  lemma HeaderFromFields(d: seq<byte>, id: Parsed<seq<byte>>, ver: Parsed<int32>, name: Parsed<seq<byte>>, comp: Parsed<(bool, seq<byte>)>)
    requires ReadFString(d) == Some(id) && ReadInt(id.rest) == Some(ver)
    requires ReadFString(ver.rest) == Some(name) && ReadCompression(name.rest) == Some(comp)
    ensures ReadHeader(d) == Some(Parsed(HeaderRec(id.value, ver.value, name.value, comp.value.0, comp.value.1), comp.rest))
  {
  }

  /**
   * A header written by `FUnrealHeader.Serialize` passes the magic test and is read back
   * field by field by `read_header`, leaving exactly the bytes that follow it.
   */
  lemma HeaderRoundTrip(identifier: FStr, version: int32, objectName: FStr, format: UnrealHeader.EFileCompressionFormat, t: seq<byte>)
    ensures var magic := ReadBytes(UnrealHeader.HeaderBytes(identifier, version, objectName, format) + t, |UnrealReader.MAGIC|);
      && StripNuls(magic.value) == UnrealReader.MAGIC
      && ReadHeader(magic.rest) == Some(Parsed(HeaderValue(identifier, version, objectName, format), t))
  {
    var flag := format != UnrealHeader.None;
    var c := if flag then FStringBytes(UnrealHeader.FormatName(format)) else [];
    var fields := HeaderFields(identifier, version, objectName, format, t);
    assert UnrealHeader.HeaderBytes(identifier, version, objectName, format) + t == UnrealHeader.MAGIC + fields by {
      var a, b, i, o, f := UnrealHeader.MAGIC, FStringBytes(identifier), Int32Bytes(version), FStringBytes(objectName), BoolBytes(flag);
      AppendAssoc(a + b + i + o + f, c, t);
      Assoc5(a, b, i, o, f, c + t);
    }
    MagicAgrees();
    SplitAt(UnrealHeader.MAGIC, fields);
    HeaderFieldsRoundTrip(identifier, version, objectName, format, t);
  }

  /** `import_data`'s answer for a mesh whose chunks read as `chunks`. */
  function ModelResult(name: seq<byte>, chunks: Option<UModel>): (r: Imported)
    ensures r.ModelImported? <==> chunks.Some?
  {
    if chunks.Some? then ModelImported(name, chunks.value) else Raised
  }

  /**
   * A UMODEL file saved uncompressed or with a lossless GZIP codec imports as the mesh
   * `import_umodel_data` reads from the original body: the decompressor undoes the
   * compression, and the identifier selects the mesh importer.
   */
  lemma ImportSavedModel(version: int32, objectName: FStr, format: UnrealHeader.EFileCompressionFormat, body: seq<byte>,
                         gzip: ExportableAsset.Codec, unzstd: seq<byte> -> seq<byte>, depth: nat)
    requires format != UnrealHeader.ZSTD && ExportableAsset.Lossless(gzip)
    ensures ExportableAsset.FinalData(format, body, gzip).Some?
    ensures ImportData(UnrealHeader.HeaderBytes(UnrealModel.UMODEL, version, objectName, format) + ExportableAsset.FinalData(format, body, gzip).value,
                       gzip.decompress, unzstd, depth)
         == ModelResult(StripNuls(objectName), UModelChunks(body, EmptyUModel))
  {
    var blob := ExportableAsset.FinalData(format, body, gzip).value;
    var d := UnrealHeader.HeaderBytes(UnrealModel.UMODEL, version, objectName, format) + blob;
    HeaderRoundTrip(UnrealModel.UMODEL, version, objectName, format, blob);
    NamesAgree();
    assert format == UnrealHeader.GZIP ==> gzip.decompress(blob) == body;
    ImportsModel(d, gzip.decompress, unzstd, depth, HeaderValue(UnrealModel.UMODEL, version, objectName, format), blob, body);
  }

  /** `import_data` on a file whose header names a mesh, uncompressed or GZIP-compressed. */
  lemma ImportsModel(d: seq<byte>, gunzip: seq<byte> -> seq<byte>, unzstd: seq<byte> -> seq<byte>, depth: nat,
                     h: HeaderRec, blob: seq<byte>, body: seq<byte>)
    requires StripNuls(ReadBytes(d, |UnrealReader.MAGIC|).value) == UnrealReader.MAGIC
    requires ReadHeader(ReadBytes(d, |UnrealReader.MAGIC|).rest) == Some(Parsed(h, blob))
    requires h.Identifier == MESH_IDENTIFIER
    requires (!h.IsCompressed && body == blob) || (h.IsCompressed && h.CompressionType == GZIP_NAME && body == gunzip(blob))
    ensures ImportData(d, gunzip, unzstd, depth) == ModelResult(h.ObjectName, UModelChunks(body, EmptyUModel))
  {
  }

  /**
   * Save followed by `import_data`: a UMODEL asset that saves (any format but ZSTD) imports
   * as the mesh read from its body writer.
   */
  lemma SavedAssetImports(asset: ExportableAsset.ExportableUnrealAssetBase, gzip: ExportableAsset.Codec, unzstd: seq<byte> -> seq<byte>, depth: nat)
    requires asset.Valid() && asset.Header.Identifier == UnrealModel.UMODEL
    requires asset.Header.CompressionFormat != UnrealHeader.ZSTD && ExportableAsset.Lossless(gzip)
    ensures asset.SavedBytes(gzip).Some?
    ensures ImportData(asset.SavedBytes(gzip).value, gzip.decompress, unzstd, depth)
         == ModelResult(StripNuls(asset.Header.ObjectName), UModelChunks(asset.Ar.buffer, EmptyUModel))
  {
    ImportSavedModel(asset.Header.FileVersion, asset.Header.ObjectName, asset.Header.CompressionFormat, asset.Ar.buffer, gzip, unzstd, depth);
  }

  /**
   * End to end for a static mesh LOD: the file `NewStaticModel` and Save produce imports
   * as a mesh holding every vertex position, normal, tangent and UV, every triangle, the
   * colours when there were any and every material slot.
   */
  lemma StaticAssetRoundTrip(verts: seq<CMeshVertex>, indices: seq<int32>, colors: Option<seq<FColor>>, materials: seq<Option<FStr>>,
                             objectName: FStr, format: UnrealHeader.EFileCompressionFormat, normalize: FVector -> FVector,
                             gzip: ExportableAsset.Codec, unzstd: seq<byte> -> seq<byte>, depth: nat)
    requires UnrealModel.StaticSizesOk(verts, indices, colors, materials) && |indices| % 3 == 0
    requires format != UnrealHeader.ZSTD && ExportableAsset.Lossless(gzip)
    ensures var body := EncodeAll(ChunkBytesOf, UnrealModel.StaticMeshChunks(verts, indices, colors, materials, normalize));
      ImportData(UnrealHeader.HeaderBytes(UnrealModel.UMODEL, 1, objectName, format) + ExportableAsset.FinalData(format, body, gzip).value,
                 gzip.decompress, unzstd, depth)
      == ModelImported(StripNuls(objectName), StaticImported(EmptyUModel, verts, indices, colors, materials, normalize))
  {
    var body := EncodeAll(ChunkBytesOf, UnrealModel.StaticMeshChunks(verts, indices, colors, materials, normalize));
    ImportSavedModel(1, objectName, format, body, gzip, unzstd, depth);
    StaticMeshRoundTrip(verts, indices, colors, materials, normalize);
  }

  /**
   * End to end for a skeletal mesh LOD written with the corrected serializer: the static
   * lists of its vertices and every weight, serialized morph target, bone and loaded socket.
   */
  lemma SkeletalAssetRoundTrip(verts: seq<UnrealModel.CSkelMeshVertex>, indices: seq<int32>, colors: Option<seq<FColor>>, materials: seq<Option<FStr>>,
                               bones: seq<UnrealModel.CSkelMeshBone>, morphTargets: Option<seq<Option<UnrealModel.UMorphTarget>>>,
                               sockets: seq<Option<UnrealModel.USkeletalMeshSocket>>, lodIndex: nat,
                               objectName: FStr, format: UnrealHeader.EFileCompressionFormat, normalize: FVector -> FVector,
                               gzip: ExportableAsset.Codec, unzstd: seq<byte> -> seq<byte>, depth: nat)
    requires UnrealModel.StaticSizesOk(UnrealModel.StaticVertices(verts), indices, colors, materials) && |indices| % 3 == 0
    requires UnrealModel.WeightsOk(verts) && |bones| < TWO_31 && |sockets| < TWO_31
    requires morphTargets.Some? ==> |morphTargets.value| < TWO_31
    requires |UnrealModel.WeightRecords(verts, |verts|)| < TWO_31
    requires format != UnrealHeader.ZSTD && ExportableAsset.Lossless(gzip)
    ensures var body := EncodeAll(ChunkBytesOf, UnrealModel.StaticMeshChunks(UnrealModel.StaticVertices(verts), indices, colors, materials, normalize)
                                                + UnrealModel.SkeletalMeshChunks(verts, bones, morphTargets, sockets, lodIndex));
      ImportData(UnrealHeader.HeaderBytes(UnrealModel.UMODEL, 1, objectName, format) + ExportableAsset.FinalData(format, body, gzip).value,
                 gzip.decompress, unzstd, depth)
      == ModelImported(StripNuls(objectName),
           SkeletalImported(StaticImported(EmptyUModel, UnrealModel.StaticVertices(verts), indices, colors, materials, normalize),
                            verts, bones, morphTargets, sockets, lodIndex))
  {
    var body := EncodeAll(ChunkBytesOf, UnrealModel.StaticMeshChunks(UnrealModel.StaticVertices(verts), indices, colors, materials, normalize)
                                        + UnrealModel.SkeletalMeshChunks(verts, bones, morphTargets, sockets, lodIndex));
    ImportSavedModel(1, objectName, format, body, gzip, unzstd, depth);
    SkeletalMeshRoundTrip(verts, indices, colors, materials, bones, morphTargets, sockets, lodIndex, normalize);
  }
}
