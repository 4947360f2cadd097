/**
 * Importing what the world exporter writes: `import_uworld_data` reads back every mesh
 * record and every actor, each mesh record imports as the model it was saved from, and the
 * whole world imports exactly when every recorded actor's mesh is in the table. The writer
 * as written records actors whose mesh failed to convert, and such a world raises.
 */
module WorldRoundTrip {
  import opened Wrappers
  import opened Bytes
  import opened MeshData
  import opened UnrealReader
  import opened DataChunk
  import opened RoundTrip
  import opened MeshRoundTrip
  import opened FileRoundTrip
  import opened WorldFormat
  import UnrealHeader
  import ExportableAsset
  import UnrealModel

  // ------------------------------------------------------------------ records

  /** A mesh record as imported: the hash and the saved bytes. */
  function MeshRecValue(r: MeshRecord): HashedMeshRec
  {
    HashedMeshRec(r.Hash, r.Saved)
  }

  /** A mesh record whose saved model fits the int its length is written in reads back whole. */
  lemma HashedMeshRoundTrip(r: MeshRecord, t: seq<byte>)
    requires |r.Saved| < TWO_31
    ensures ReadHashedMesh(MeshRecordBytes(r) + t) == Some(Parsed(MeshRecValue(r), t))
  {
    var n: int32 := |r.Saved|;
    assert WrapInt32(|r.Saved|) == n;
    Assoc3(Int32Bytes(r.Hash), Int32Bytes(n), r.Saved, t);
    IntRoundTrip(r.Hash, Int32Bytes(n) + (r.Saved + t));
    IntRoundTrip(n, r.Saved + t);
    SplitAt(r.Saved, t);
  }

  /** Every record's saved model fits its length field. */
  predicate RecordsFit(xs: seq<MeshRecord>)
  {
    forall i :: 0 <= i < |xs| ==> |xs[i].Saved| < TWO_31
  }

  /** `read_bulk_array(n, HashedMesh)` over n written mesh records reads each of them back. */
  lemma {:induction false} MeshRecordsRoundTrip(xs: seq<MeshRecord>, t: seq<byte>)
    requires RecordsFit(xs)
    ensures ReadBulk(EncodeAll(MeshRecordBytes, xs) + t, |xs|, ReadHashedMesh) == Some(Parsed(Map(MeshRecValue, xs), t))
    decreases |xs|
  {
    ConsumesChunkRecords();
    if xs != [] {
      var x, rest := xs[0], xs[1..];
      assert xs == [x] + rest;
      assert RecordsFit(rest) by {
        forall i | 0 <= i < |rest| ensures rest[i] == xs[i + 1] { }
      }
      var d, d' := EncodeAll(MeshRecordBytes, xs) + t, EncodeAll(MeshRecordBytes, rest) + t;
      EncodeAllCons(MeshRecordBytes, x, rest);
      AppendAssoc(MeshRecordBytes(x), EncodeAll(MeshRecordBytes, rest), t);
      assert d == MeshRecordBytes(x) + d';
      HashedMeshRoundTrip(x, d');
      MeshRecordsRoundTrip(rest, t);
    }
  }

  /** An actor as imported: hash, name, then position, rotation and scale as floats. */
  function ActorValue(a: FActor): ActorRec
  {
    ActorRec(a.Hash, StripNuls(a.Name), VectorValue(a.Position), RotatorValue(a.Rotation), VectorValue(a.Scale))
  }

  lemma ActorRoundTrip(a: FActor, t: seq<byte>)
    ensures ReadActor(ActorBytes(a) + t) == Some(Parsed(ActorValue(a), t))
  {
    var h, name := Int32Bytes(a.Hash), FStringBytes(a.Name);
    var pos, rot, scale := VectorBytes(a.Position), RotatorBytes(a.Rotation), VectorBytes(a.Scale);
    AppendAssoc(h + name, pos + rot, scale);
    AppendAssoc(h + name, pos, rot);
    assert ActorBytes(a) == h + name + pos + rot + scale;
    Assoc5(h, name, pos, rot, scale, t);
    IntRoundTrip(a.Hash, name + (pos + (rot + (scale + t))));
    FStringRoundTrip(a.Name, pos + (rot + (scale + t)));
    VectorRoundTrip(a.Position, rot + (scale + t));
    RotatorRoundTrip(a.Rotation, scale + t);
    VectorRoundTrip(a.Scale, t);
  }

  lemma ActorsInvert()
    ensures Inverts(ReadActor, ActorBytes, ActorValue)
  {
    forall a: FActor, t: seq<byte> ensures ReadActor(ActorBytes(a) + t) == Some(Parsed(ActorValue(a), t)) {
      ActorRoundTrip(a, t);
    }
  }

  // ------------------------------------------------------------------ chunks

  /** One pass of `import_uworld_data`'s loop consumes a chunk whose payload is read exactly. */
  lemma WorldChunkReads(c: FDataChunk, t: seq<byte>, w: UWorld, w': UWorld)
    requires UWorldPayload(HeaderOf(c), c.Body + t, w) == Some(Parsed(w', t))
    ensures UWorldChunks(ChunkBytesOf(c) + t, w) == UWorldChunks(t, w')
  {
    var d := ChunkBytesOf(c) + t;
    ChunkHeaderRoundTrip(c, t);
    assert UWorldChunk(d, w) == Some(Parsed(w', t));
  }

  /** Neither world tag ends in NUL, and the two differ. */
  lemma WorldTagFacts()
    ensures StripNuls(MESHES) == MESHES && StripNuls(ACTORS) == ACTORS && MESHES != ACTORS
  {
    assert MESHES[0] == 77 && MESHES[5] == 83;
    assert ACTORS[0] == 65 && ACTORS[5] == 83;
    StripNulsIdentity(MESHES);
    StripNulsIdentity(ACTORS);
  }

  /** The MESHES chunk replaces the importer's mesh list with every record written. */
  lemma MeshesChunkReads(xs: seq<MeshRecord>, t: seq<byte>, w: UWorld)
    requires |xs| < TWO_31 && RecordsFit(xs)
    ensures UWorldChunks(ChunkBytesOf(FDataChunk(MESHES, |xs|, EncodeAll(MeshRecordBytes, xs))) + t, w)
         == UWorldChunks(t, w.(Meshes := Map(MeshRecValue, xs)))
  {
    WorldTagFacts();
    MeshRecordsRoundTrip(xs, t);
    WorldChunkReads(FDataChunk(MESHES, |xs|, EncodeAll(MeshRecordBytes, xs)), t, w, w.(Meshes := Map(MeshRecValue, xs)));
  }

  /** The ACTORS chunk replaces the importer's actor list with every actor written. */
  lemma ActorsChunkReads(actors: seq<FActor>, t: seq<byte>, w: UWorld)
    requires |actors| < TWO_31
    ensures UWorldChunks(ChunkBytesOf(FDataChunk(ACTORS, |actors|, EncodeAll(ActorBytes, actors))) + t, w)
         == UWorldChunks(t, w.(Actors := Map(ActorValue, actors)))
  {
    WorldTagFacts();
    ActorsInvert();
    ConsumesChunkRecords();
    BulkRoundTrip(ReadActor, ActorBytes, ActorValue, actors, t);
    WorldChunkReads(FDataChunk(ACTORS, |actors|, EncodeAll(ActorBytes, actors)), t, w, w.(Actors := Map(ActorValue, actors)));
  }

  /** Every table entry's indices form whole triangles. */
  predicate Triangulated(s: WorldState)
  {
    forall h :: h in s.MeshMap ==> |s.MeshMap[h].Lod.Indices| % 3 == 0
  }

  /** Every table entry's saved model fits the int its length is written in. */
  predicate SavedFit(s: WorldState, normalize: FVector -> FVector)
    requires Consistent(s)
  {
    forall h :: h in s.MeshMap ==> |SavedModel(s.MeshMap[h], normalize)| < TWO_31
  }

  /** Every table entry can be read back. */
  predicate TableFits(s: WorldState, normalize: FVector -> FVector)
    requires Consistent(s)
  {
    Triangulated(s) && SavedFit(s, normalize)
  }

  /** A world the writer can produce and the reader can take back. */
  predicate WorldFits(s: WorldState, normalize: FVector -> FVector)
  {
    Consistent(s) && |s.MeshHashes| < TWO_31 && |s.Actors| < TWO_31 && TableFits(s, normalize)
  }

  /** The world the importer reads from a written body. */
  function WorldValue(s: WorldState, normalize: FVector -> FVector): UWorld
    requires Consistent(s)
  {
    UWorld(Map(MeshRecValue, MeshRecords(s, normalize)), Map(ActorValue, s.Actors))
  }

  /** The body of a world reads back as every mesh record and every actor, in order. */
  lemma WorldChunksRoundTrip(s: WorldState, normalize: FVector -> FVector)
    requires WorldFits(s, normalize)
    ensures UWorldChunks(EncodeAll(ChunkBytesOf, WorldChunks(s, normalize)), EmptyUWorld) == Some(WorldValue(s, normalize))
  {
    var records := MeshRecords(s, normalize);
    assert RecordsFit(records);
    var cs := WorldChunks(s, normalize);
    var actorBytes := ChunkBytesOf(cs[1]);
    EncodeTwo(ChunkBytesOf, cs[0], cs[1]);
    MeshesChunkReads(records, actorBytes, EmptyUWorld);
    assert actorBytes == actorBytes + [];
    ActorsChunkReads(s.Actors, [], EmptyUWorld.(Meshes := Map(MeshRecValue, records)));
  }

  // ------------------------------------------------------------------ the mesh table

  predicate DistinctHashes(meshes: seq<HashedMeshRec>)
  {
    forall i, j :: 0 <= i < j < |meshes| ==> meshes[i].Hash != meshes[j].Hash
  }

  /** With distinct hashes, `mesh_map` holds each record's own import under its hash. */
  lemma {:induction false} MeshMapAt(meshes: seq<HashedMeshRec>, gunzip: seq<byte> -> seq<byte>, unzstd: seq<byte> -> seq<byte>,
                                     inner: nat, depth: nat, i: nat)
    requires DistinctHashes(meshes) && inner < depth && i < |meshes|
    ensures var mm := MeshMap(meshes, gunzip, unzstd, inner, depth);
      meshes[i].Hash in mm && mm[meshes[i].Hash] == ImportData(meshes[i].Data, gunzip, unzstd, inner)
    decreases |meshes|
  {
    var init := meshes[..|meshes| - 1];
    if i < |init| {
      assert DistinctHashes(init) by {
        forall a, b | 0 <= a < b < |init| ensures init[a] == meshes[a] && init[b] == meshes[b] { }
      }
      MeshMapAt(init, gunzip, unzstd, inner, depth, i);
      assert meshes[|meshes| - 1].Hash != meshes[i].Hash;
      assert init[i] == meshes[i];
    }
  }

  /** `import_data` on a UMODEL header (version any, uncompressed) followed by a body. */
  lemma ImportPlainModel(version: int32, objectName: FStr, body: seq<byte>, gunzip: seq<byte> -> seq<byte>, unzstd: seq<byte> -> seq<byte>, depth: nat)
    ensures ImportData(UnrealHeader.HeaderBytes(UnrealModel.UMODEL, version, objectName, UnrealHeader.None) + body, gunzip, unzstd, depth)
         == ModelResult(StripNuls(objectName), UModelChunks(body, EmptyUModel))
  {
    var d := UnrealHeader.HeaderBytes(UnrealModel.UMODEL, version, objectName, UnrealHeader.None) + body;
    HeaderRoundTrip(UnrealModel.UMODEL, version, objectName, UnrealHeader.None, body);
    NamesAgree();
    ImportsModel(d, gunzip, unzstd, depth, HeaderValue(UnrealModel.UMODEL, version, objectName, UnrealHeader.None), body, body);
  }

  /** The mesh a table entry imports as. */
  function ModelValue(m: MeshModel, normalize: FVector -> FVector): Imported
    requires |m.Lod.Indices| % 3 == 0
  {
    ModelImported(StripNuls(m.Name), StaticImported(EmptyUModel, m.Lod.Verts, m.Lod.Indices, m.Lod.Colors, m.Lod.Materials, normalize))
  }

  /** A saved table entry imports, at any depth, as the mesh of its LOD. */
  lemma SavedModelImports(m: MeshModel, normalize: FVector -> FVector, gunzip: seq<byte> -> seq<byte>, unzstd: seq<byte> -> seq<byte>, depth: nat)
    requires LodOk(m.Lod) && |m.Lod.Indices| % 3 == 0
    ensures ImportData(SavedModel(m, normalize), gunzip, unzstd, depth) == ModelValue(m, normalize)
  {
    var body := EncodeAll(ChunkBytesOf, UnrealModel.StaticMeshChunks(m.Lod.Verts, m.Lod.Indices, m.Lod.Colors, m.Lod.Materials, normalize));
    ImportPlainModel(1, m.Name, body, gunzip, unzstd, depth);
    StaticMeshRoundTrip(m.Lod.Verts, m.Lod.Indices, m.Lod.Colors, m.Lod.Materials, normalize);
  }

  /** The table the importer should rebuild: every entry imported as its mesh. */
  function ImportedTable(s: WorldState, normalize: FVector -> FVector): (r: map<int32, Imported>)
    requires Consistent(s) && Triangulated(s)
    ensures forall h :: h in r <==> h in s.MeshMap
    ensures forall h :: h in r ==> r[h].ModelImported?
  {
    map h | h in s.MeshMap :: ModelValue(s.MeshMap[h], normalize)
  }

  /** The records the MESHES chunk holds, one per key in enumeration order. */
  predicate RecordsOf(meshes: seq<HashedMeshRec>, s: WorldState, normalize: FVector -> FVector)
    requires Consistent(s)
  {
    && |meshes| == |s.MeshHashes|
    && forall i :: 0 <= i < |meshes| ==> meshes[i].Hash == s.MeshHashes[i] && meshes[i].Data == SavedModel(s.MeshMap[s.MeshHashes[i]], normalize)
  }

  lemma WorldRecords(s: WorldState, normalize: FVector -> FVector)
    requires Consistent(s)
    ensures RecordsOf(WorldValue(s, normalize).Meshes, s, normalize) && DistinctHashes(WorldValue(s, normalize).Meshes)
  {
    var records := MeshRecords(s, normalize);
    forall i | 0 <= i < |records| ensures Map(MeshRecValue, records)[i] == MeshRecValue(records[i]) {
      MapAt(MeshRecValue, records, i);
    }
  }

  /** With distinct hashes, `mesh_map` is the table holding each record's own import under its hash. */
  lemma MeshMapIs(meshes: seq<HashedMeshRec>, table: map<int32, Imported>,
                  gunzip: seq<byte> -> seq<byte>, unzstd: seq<byte> -> seq<byte>, inner: nat, depth: nat)
    requires DistinctHashes(meshes) && inner < depth
    requires forall h :: h in table ==> exists i :: 0 <= i < |meshes| && meshes[i].Hash == h
    requires forall i :: 0 <= i < |meshes| ==> meshes[i].Hash in table && table[meshes[i].Hash] == ImportData(meshes[i].Data, gunzip, unzstd, inner)
    ensures MeshMap(meshes, gunzip, unzstd, inner, depth) == table
  {
    var mm := MeshMap(meshes, gunzip, unzstd, inner, depth);
    forall h | h in table ensures h in mm && mm[h] == table[h] {
      var i :| 0 <= i < |meshes| && meshes[i].Hash == h;
      MeshMapAt(meshes, gunzip, unzstd, inner, depth, i);
    }
    forall h | h in mm ensures h in table {
      var m :| m in meshes && m.Hash == h;
      var i :| 0 <= i < |meshes| && meshes[i] == m;
    }
    MapsAgree(mm, table);
  }

  /** Every MESHES record of a written world imports as its table entry. */
  lemma RecordsImport(s: WorldState, normalize: FVector -> FVector, gunzip: seq<byte> -> seq<byte>, unzstd: seq<byte> -> seq<byte>, inner: nat)
    requires Consistent(s) && Triangulated(s)
    ensures var meshes := WorldValue(s, normalize).Meshes;
      var table := ImportedTable(s, normalize);
      && DistinctHashes(meshes)
      && (forall h :: h in table ==> exists i :: 0 <= i < |meshes| && meshes[i].Hash == h)
      && (forall i :: 0 <= i < |meshes| ==> meshes[i].Hash in table && table[meshes[i].Hash] == ImportData(meshes[i].Data, gunzip, unzstd, inner))
  {
    var meshes := WorldValue(s, normalize).Meshes;
    var table := ImportedTable(s, normalize);
    WorldRecords(s, normalize);
    forall i | 0 <= i < |meshes|
      ensures meshes[i].Hash in table && table[meshes[i].Hash] == ImportData(meshes[i].Data, gunzip, unzstd, inner)
    {
      RecordImportsAt(s, normalize, gunzip, unzstd, inner, i);
    }
    forall h | h in table ensures exists i :: 0 <= i < |meshes| && meshes[i].Hash == h {
      var i :| 0 <= i < |s.MeshHashes| && s.MeshHashes[i] == h;
      assert meshes[i].Hash == h;
    }
  }

  /** The i-th MESHES record imports as the table entry of the i-th key. */
  lemma RecordImportsAt(s: WorldState, normalize: FVector -> FVector, gunzip: seq<byte> -> seq<byte>, unzstd: seq<byte> -> seq<byte>, inner: nat, i: nat)
    requires Consistent(s) && Triangulated(s) && i < |s.MeshHashes|
    ensures var m := WorldValue(s, normalize).Meshes;
      |m| == |s.MeshHashes| && m[i].Hash == s.MeshHashes[i]
      && ImportData(m[i].Data, gunzip, unzstd, inner) == ImportedTable(s, normalize)[s.MeshHashes[i]]
  {
    WorldRecords(s, normalize);
    SavedModelImports(s.MeshMap[s.MeshHashes[i]], normalize, gunzip, unzstd, inner);
  }

  /** `mesh_map` rebuilt from the MESHES records is the writer's table, each entry imported. */
  lemma TableImports(s: WorldState, normalize: FVector -> FVector, gunzip: seq<byte> -> seq<byte>, unzstd: seq<byte> -> seq<byte>, inner: nat, depth: nat)
    requires Consistent(s) && Triangulated(s) && inner < depth
    ensures MeshMap(WorldValue(s, normalize).Meshes, gunzip, unzstd, inner, depth) == ImportedTable(s, normalize)
  {
    RecordsImport(s, normalize, gunzip, unzstd, inner);
    MeshMapIs(WorldValue(s, normalize).Meshes, ImportedTable(s, normalize), gunzip, unzstd, inner, depth);
  }

  /** Two maps with the same keys and the same value at every key are equal. */
  lemma MapsAgree<K, V>(a: map<K, V>, b: map<K, V>)
    requires forall k :: k in a <==> k in b
    requires forall k :: k in a ==> a[k] == b[k]
    ensures a == b
  {
  }

  // ------------------------------------------------------------------ the whole file

  lemma WorldNameAgrees()
    ensures StripNuls(UWORLD) == WORLD_IDENTIFIER && WORLD_IDENTIFIER != MESH_IDENTIFIER
  {
    assert WORLD_IDENTIFIER[0] == 0x55 && WORLD_IDENTIFIER[1] == 0x57 && MESH_IDENTIFIER[1] == 0x4D;
    assert WORLD_IDENTIFIER[5] == 0x44;
    StripNulsIdentity(WORLD_IDENTIFIER);
  }

  /** `import_data` on a file whose header names a world, uncompressed or GZIP-compressed. */
  lemma ImportsWorld(d: seq<byte>, gunzip: seq<byte> -> seq<byte>, unzstd: seq<byte> -> seq<byte>, depth: nat,
                     h: HeaderRec, blob: seq<byte>, body: seq<byte>)
    requires StripNuls(ReadBytes(d, |UnrealReader.MAGIC|).value) == UnrealReader.MAGIC
    requires ReadHeader(ReadBytes(d, |UnrealReader.MAGIC|).rest) == Some(Parsed(h, blob))
    requires h.Identifier == WORLD_IDENTIFIER && WORLD_IDENTIFIER != MESH_IDENTIFIER
    requires (!h.IsCompressed && body == blob) || (h.IsCompressed && h.CompressionType == GZIP_NAME && body == gunzip(blob))
    ensures ImportData(d, gunzip, unzstd, depth) == ImportWorld(h.ObjectName, body, gunzip, unzstd, depth)
  {
  }

  /** A UWORLD file saved uncompressed or with a lossless GZIP codec reaches the world importer with its body. */
  lemma ImportSavedWorld(version: int32, objectName: FStr, format: UnrealHeader.EFileCompressionFormat, body: seq<byte>,
                         gzip: ExportableAsset.Codec, unzstd: seq<byte> -> seq<byte>, depth: nat)
    requires format != UnrealHeader.ZSTD && ExportableAsset.Lossless(gzip)
    ensures ExportableAsset.FinalData(format, body, gzip).Some?
    ensures ImportData(UnrealHeader.HeaderBytes(UWORLD, version, objectName, format) + ExportableAsset.FinalData(format, body, gzip).value,
                       gzip.decompress, unzstd, depth)
         == ImportWorld(StripNuls(objectName), body, gzip.decompress, unzstd, depth)
  {
    var blob := ExportableAsset.FinalData(format, body, gzip).value;
    var d := UnrealHeader.HeaderBytes(UWORLD, version, objectName, format) + blob;
    HeaderRoundTrip(UWORLD, version, objectName, format, blob);
    NamesAgree();
    WorldNameAgrees();
    assert format == UnrealHeader.GZIP ==> gzip.decompress(blob) == body;
    ImportsWorld(d, gzip.decompress, unzstd, depth, HeaderValue(UWORLD, version, objectName, format), blob, body);
  }

  /** What importing a saved world gives: the world and its table when every actor resolves, else an exception. */
  function WorldResult(s: WorldState, objectName: FStr, normalize: FVector -> FVector): Imported
    requires Consistent(s) && Triangulated(s)
  {
    if Resolved(s) then WorldImported(StripNuls(objectName), WorldValue(s, normalize), ImportedTable(s, normalize))
    else Raised
  }

  /** The importer's actor test on a table with the writer's keys is the writer's `Resolved`. */
  lemma ActorsFound(actors: seq<FActor>, keys: map<int32, MeshModel>, table: map<int32, Imported>)
    requires forall h :: h in table <==> h in keys
    requires forall h :: h in table ==> table[h].ModelImported?
    ensures (forall a :: a in Map(ActorValue, actors) ==> a.Hash in table && table[a.Hash].ModelImported?)
        <==> (forall a :: a in actors ==> a.Hash in keys)
  {
    var values := Map(ActorValue, actors);
    forall i | 0 <= i < |actors| ensures values[i].Hash == actors[i].Hash {
      MapAt(ActorValue, actors, i);
    }
    if forall a :: a in actors ==> a.Hash in keys {
      forall a | a in values ensures a.Hash in table {
        var i :| 0 <= i < |values| && values[i] == a;
        assert actors[i] in actors;
      }
    } else {
      var b :| b in actors && b.Hash !in keys;
      var i :| 0 <= i < |actors| && actors[i] == b;
      assert values[i] in values;
    }
  }

  /** `import_uworld_data` once its chunks have been read and `mesh_map` built. */
  lemma WorldFromChunks(name: seq<byte>, d: seq<byte>, gunzip: seq<byte> -> seq<byte>, unzstd: seq<byte> -> seq<byte>, inner: nat, depth: nat,
                        w: UWorld, table: map<int32, Imported>)
    requires UWorldChunks(d, EmptyUWorld) == Some(w) && inner + 1 == depth
    requires NestedModels(w.Meshes, gunzip, unzstd, inner)
    requires MeshMap(w.Meshes, gunzip, unzstd, inner, depth) == table
    ensures ImportWorld(name, d, gunzip, unzstd, depth)
         == if forall a :: a in w.Actors ==> a.Hash in table && table[a.Hash].ModelImported? then WorldImported(name, w, table) else Raised
  {
    assert (if depth == 0 then 0 else depth - 1) == inner;
    assert !NestedRaises(w.Meshes, gunzip, unzstd, inner, depth);
  }

  /** Every record of the MESHES chunk imports, nested, as a mesh. */
  predicate NestedModels(meshes: seq<HashedMeshRec>, gunzip: seq<byte> -> seq<byte>, unzstd: seq<byte> -> seq<byte>, inner: nat)
  {
    forall i :: 0 <= i < |meshes| ==> ImportData(meshes[i].Data, gunzip, unzstd, inner).ModelImported?
  }

  /**
   * The first nested `import_data` of the `mesh_map` loop that raises ends the world import,
   * whatever the actors are.
   */
  lemma NestedRaiseAborts(name: seq<byte>, d: seq<byte>, gunzip: seq<byte> -> seq<byte>, unzstd: seq<byte> -> seq<byte>, depth: nat,
                          w: UWorld, i: nat)
    requires UWorldChunks(d, EmptyUWorld) == Some(w) && depth >= 1
    requires i < |w.Meshes| && ImportData(w.Meshes[i].Data, gunzip, unzstd, depth - 1).Raised?
    ensures ImportWorld(name, d, gunzip, unzstd, depth) == Raised
  {
    assert NestedRaises(w.Meshes, gunzip, unzstd, depth - 1, depth);
  }

  /**
   * Save followed by `import_data` for a world (any format but ZSTD, and room for one level
   * of nested meshes): the world comes back with every record and actor, and with its table
   * of meshes each imported as written, exactly when every actor's mesh is in the table;
   * otherwise the import raises.
   */
  lemma SavedWorldImports(s: WorldState, objectName: FStr, format: UnrealHeader.EFileCompressionFormat, normalize: FVector -> FVector,
                          gzip: ExportableAsset.Codec, unzstd: seq<byte> -> seq<byte>, depth: nat)
    requires WorldFits(s, normalize)
    requires format != UnrealHeader.ZSTD && ExportableAsset.Lossless(gzip) && depth >= 1
    ensures var body := EncodeAll(ChunkBytesOf, WorldChunks(s, normalize));
      ImportData(UnrealHeader.HeaderBytes(UWORLD, 1, objectName, format) + ExportableAsset.FinalData(format, body, gzip).value,
                 gzip.decompress, unzstd, depth)
      == WorldResult(s, objectName, normalize)
  {
    var body := EncodeAll(ChunkBytesOf, WorldChunks(s, normalize));
    var inner := depth - 1;
    WorldChunksRoundTrip(s, normalize);
    TableImports(s, normalize, gzip.decompress, unzstd, inner, depth);
    RecordsModels(s, normalize, gzip.decompress, unzstd, inner);
    SavedBodyImports(objectName, format, body, gzip, unzstd, inner, depth, WorldValue(s, normalize), ImportedTable(s, normalize), s.MeshMap, s.Actors);
  }

  /** Every mesh record the writer saves imports, nested, as a mesh: none of the nested imports raises. */
  lemma RecordsModels(s: WorldState, normalize: FVector -> FVector, gunzip: seq<byte> -> seq<byte>, unzstd: seq<byte> -> seq<byte>, inner: nat)
    requires Consistent(s) && Triangulated(s)
    ensures NestedModels(WorldValue(s, normalize).Meshes, gunzip, unzstd, inner)
  {
    RecordsImport(s, normalize, gunzip, unzstd, inner);
  }

  /** Save followed by `import_data` for any world body whose chunks and table are known. */
  lemma SavedBodyImports(objectName: FStr, format: UnrealHeader.EFileCompressionFormat, body: seq<byte>,
                         gzip: ExportableAsset.Codec, unzstd: seq<byte> -> seq<byte>, inner: nat, depth: nat,
                         w: UWorld, table: map<int32, Imported>, keys: map<int32, MeshModel>, actors: seq<FActor>)
    requires format != UnrealHeader.ZSTD && ExportableAsset.Lossless(gzip) && inner + 1 == depth
    requires UWorldChunks(body, EmptyUWorld) == Some(w)
    requires NestedModels(w.Meshes, gzip.decompress, unzstd, inner)
    requires MeshMap(w.Meshes, gzip.decompress, unzstd, inner, depth) == table
    requires w.Actors == Map(ActorValue, actors)
    requires forall h :: h in table <==> h in keys
    requires forall h :: h in table ==> table[h].ModelImported?
    ensures ExportableAsset.FinalData(format, body, gzip).Some?
    ensures ImportData(UnrealHeader.HeaderBytes(UWORLD, 1, objectName, format) + ExportableAsset.FinalData(format, body, gzip).value,
                       gzip.decompress, unzstd, depth)
         == if forall a :: a in actors ==> a.Hash in keys then WorldImported(StripNuls(objectName), w, table) else Raised
  {
    ImportSavedWorld(1, objectName, format, body, gzip, unzstd, depth);
    WorldResultIs(StripNuls(objectName), body, gzip.decompress, unzstd, inner, depth, w, table, keys, actors);
  }

  /**
   * `import_uworld_data` once its chunks have been read as `w` and `mesh_map` built as a
   * table of imported meshes over the writer's keys: the world, or an exception when an
   * actor's mesh is not among the keys.
   */
  lemma WorldResultIs(name: seq<byte>, body: seq<byte>, gunzip: seq<byte> -> seq<byte>, unzstd: seq<byte> -> seq<byte>, inner: nat, depth: nat,
                      w: UWorld, table: map<int32, Imported>, keys: map<int32, MeshModel>, actors: seq<FActor>)
    requires UWorldChunks(body, EmptyUWorld) == Some(w) && inner + 1 == depth
    requires NestedModels(w.Meshes, gunzip, unzstd, inner)
    requires MeshMap(w.Meshes, gunzip, unzstd, inner, depth) == table
    requires w.Actors == Map(ActorValue, actors)
    requires forall h :: h in table <==> h in keys
    requires forall h :: h in table ==> table[h].ModelImported?
    ensures ImportWorld(name, body, gunzip, unzstd, depth)
         == if forall a :: a in actors ==> a.Hash in keys then WorldImported(name, w, table) else Raised
  {
    ActorsFound(actors, keys, table);
    WorldFromChunks(name, body, gunzip, unzstd, inner, depth, w, table);
  }

  /**
   * The world written as written from a level whose only actor's mesh fails to convert
   * does not import: the actor's hash is missing from `mesh_map`.
   */
  lemma OrphanWorldRaises(location: FVector, rotation: FQuat, scale: FVector, toRotator: FQuat -> FRotator,
                          objectName: FStr, format: UnrealHeader.EFileCompressionFormat, normalize: FVector -> FVector,
                          gzip: ExportableAsset.Codec, unzstd: seq<byte> -> seq<byte>, depth: nat)
    requires format != UnrealHeader.ZSTD && ExportableAsset.Lossless(gzip) && depth >= 1
    ensures var level := [Some(LevelActor(Ascii("StaticMeshActor"), Ascii("Rock"), Some(MeshComponent(7, Ascii("SM_Rock"), None, location, rotation, scale))))];
      var s := Processed(EmptyWorld, level, toRotator, false);
      WorldFits(s, normalize)
      && ImportData(UnrealHeader.HeaderBytes(UWORLD, 1, objectName, format)
                    + ExportableAsset.FinalData(format, EncodeAll(ChunkBytesOf, WorldChunks(s, normalize)), gzip).value,
                    gzip.decompress, unzstd, depth)
         == Raised
  {
    var level := [Some(LevelActor(Ascii("StaticMeshActor"), Ascii("Rock"), Some(MeshComponent(7, Ascii("SM_Rock"), None, location, rotation, scale))))];
    var s := Processed(EmptyWorld, level, toRotator, false);
    OrphanActor(location, rotation, scale, toRotator);
    MeshMapIsFirstConversion(EmptyWorld, level, toRotator, false, 7);
    assert s.MeshMap.Keys == {} by {
      forall h ensures h !in s.MeshMap {
        MeshMapIsFirstConversion(EmptyWorld, level, toRotator, false, h);
        assert level[1..] == [];
      }
    }
    assert WorldFits(s, normalize);
    SavedWorldImports(s, objectName, format, normalize, gzip, unzstd, depth);
  }

  /**
   * With the corrected writer, every world it writes from a level whose meshes can be read
   * back imports, with all its actors.
   */
  lemma CorrectedWorldImports(level: seq<Option<LevelActor>>, toRotator: FQuat -> FRotator,
                              objectName: FStr, format: UnrealHeader.EFileCompressionFormat, normalize: FVector -> FVector,
                              gzip: ExportableAsset.Codec, unzstd: seq<byte> -> seq<byte>, depth: nat)
    requires LevelOk(level) && |level| < TWO_31
    requires TableFits(Processed(EmptyWorld, level, toRotator, true), normalize)
    requires format != UnrealHeader.ZSTD && ExportableAsset.Lossless(gzip) && depth >= 1
    ensures var s := Processed(EmptyWorld, level, toRotator, true);
      var r := ImportData(UnrealHeader.HeaderBytes(UWORLD, 1, objectName, format)
                          + ExportableAsset.FinalData(format, EncodeAll(ChunkBytesOf, WorldChunks(s, normalize)), gzip).value,
                          gzip.decompress, unzstd, depth);
      r.WorldImported? && r.World.Actors == Map(ActorValue, s.Actors) && r.MeshMap == ImportedTable(s, normalize)
  {
    var s := Processed(EmptyWorld, level, toRotator, true);
    assert Resolved(s);
    SavedWorldImports(s, objectName, format, normalize, gzip, unzstd, depth);
  }
}
