/**
 * UnrealWorld: a level written as a UWORLD asset. Processing the level's actors fills a
 * mesh table keyed by the hash of the mesh's path (the first successful conversion of a
 * path is kept) and a list of placed actors; the asset body is then a MESHES chunk (the
 * hash, saved length and saved bytes of each model, in insertion order) followed by an
 * ACTORS chunk.
 */
module WorldFormat {
  import opened Wrappers
  import opened Bytes
  import opened ArchiveWriter
  import opened DataChunk
  import opened MeshData
  import UnrealHeader
  import UnrealModel
  import ExportableAsset

  const UWORLD: FStr := Ascii("UWORLD")
  const LOD_ACTOR: seq<byte> := Ascii("LODActor")
  const LF_PREFIX: seq<byte> := Ascii("LF_")

  /** The first LOD of a converted static mesh: what `new UnrealModel(lod, name, default)` serializes. */
  datatype StaticLod = StaticLod(Verts: seq<CMeshVertex>, Indices: seq<int32>, Colors: Option<seq<FColor>>, Materials: seq<Option<FStr>>)

  predicate LodOk(lod: StaticLod)
  {
    UnrealModel.StaticSizesOk(lod.Verts, lod.Indices, lod.Colors, lod.Materials)
  }

  /**
   * An actor's static mesh component once it has loaded: the hash of the mesh's path, the
   * mesh's name, its conversion (None when TryConvert fails) and the relative transform
   * with the parent offset already added (a floating-point sum outside this model).
   */
  datatype MeshComponent = MeshComponent(Hash: int32, MeshName: FStr, Converted: Option<StaticLod>, Location: FVector, Rotation: FQuat, Scale: FVector)

  /** A loaded actor of the level; `Component` is None when it has no loadable static mesh. */
  datatype LevelActor = LevelActor(ExportType: seq<byte>, Name: FStr, Component: Option<MeshComponent>)

  /** A mesh table entry: the model built from a converted LOD. */
  datatype MeshModel = MeshModel(Name: FStr, Lod: StaticLod)

  /** A placed actor as the ACTORS chunk records it. */
  datatype FActor = FActor(Hash: int32, Name: FStr, Position: FVector, Rotation: FRotator, Scale: FVector)

  /** FActor.Serialize is not part of this model; its layout is the one `Actor(ar)` reads. */
  function ActorBytes(a: FActor): (r: seq<byte>)
    ensures |r| == 4 + 4 + |a.Name| + 36
  {
    Int32Bytes(a.Hash) + FStringBytes(a.Name) + VectorBytes(a.Position) + RotatorBytes(a.Rotation) + VectorBytes(a.Scale)
  }

  /** The actor orientation as written: the quaternion's Y and Z negated, X and W kept. */
  function FlipYZ(q: FQuat): (r: FQuat)
    ensures r.X == q.X && r.W == q.W && r.Y != q.Y && r.Z != q.Z
    ensures r.Y == Negate(q.Y) && r.Z == Negate(q.Z)
  {
    q.(Y := Negate(q.Y), Z := Negate(q.Z))
  }

  lemma FlipYZInvolutive(q: FQuat)
    ensures FlipYZ(FlipYZ(q)) == q
  {
    NegateInvolutive(q.Y);
    NegateInvolutive(q.Z);
  }

  /**
   * The actor recorded for a component: position with Y negated, the quaternion flipped
   * and converted back to a rotator (`toRotator`, floating point), scale unchanged.
   */
  function ActorOf(name: FStr, c: MeshComponent, toRotator: FQuat -> FRotator): (a: FActor)
    ensures a.Hash == c.Hash && a.Name == name && a.Scale == c.Scale
    ensures FlipY(a.Position) == c.Location
    ensures a.Position.X == c.Location.X && a.Position.Z == c.Location.Z
  {
    FlipYInvolutive(c.Location);
    FActor(c.Hash, name, FlipY(c.Location), toRotator(FlipYZ(c.Rotation)), c.Scale)
  }

  predicate StartsWith(s: seq<byte>, prefix: seq<byte>)
  {
    |prefix| <= |s| && s[..|prefix|] == prefix
  }

  /** ProcessWorld's filter: unloadable actors, LOD actors and "LF_" actors are passed over. */
  predicate Skipped(a: Option<LevelActor>)
  {
    a.None? || a.value.ExportType == LOD_ACTOR || StartsWith(a.value.Name, LF_PREFIX)
  }

  /**
   * The writer's state: the mesh table's keys in insertion order (the order a Dictionary
   * without removals enumerates), the table, and the actor list.
   */
  datatype WorldState = WorldState(MeshHashes: seq<int32>, MeshMap: map<int32, MeshModel>, Actors: seq<FActor>)

  const EmptyWorld := WorldState([], map[], [])

  /** The key list enumerates the table's keys, each once. */
  predicate Consistent(s: WorldState)
  {
    && (forall i, j :: 0 <= i < j < |s.MeshHashes| ==> s.MeshHashes[i] != s.MeshHashes[j])
    && (forall h :: h in s.MeshMap ==> h in s.MeshHashes)
    && (forall h :: h in s.MeshHashes ==> h in s.MeshMap)
    && (forall h :: h in s.MeshMap ==> LodOk(s.MeshMap[h].Lod))
  }

  /** Every recorded actor's mesh is in the table: what the importer needs to place it. */
  predicate Resolved(s: WorldState)
  {
    forall a :: a in s.Actors ==> a.Hash in s.MeshMap
  }

  /** Every converted LOD of the level can be serialized. */
  predicate LevelOk(level: seq<Option<LevelActor>>)
  {
    forall i :: 0 <= i < |level| && level[i].Some? && level[i].value.Component.Some? && level[i].value.Component.value.Converted.Some?
      ==> LodOk(level[i].value.Component.value.Converted.value)
  }

  /** The table insertion of ProcessMesh: a converted mesh whose hash is new gets an entry. */
  function Insert(s: WorldState, c: MeshComponent): (r: WorldState)
    requires c.Converted.Some? ==> LodOk(c.Converted.value)
    ensures Consistent(s) ==> Consistent(r)
    ensures forall h :: h in s.MeshMap ==> h in r.MeshMap && r.MeshMap[h] == s.MeshMap[h]
    ensures r.MeshMap.Keys == s.MeshMap.Keys + (if c.Converted.Some? then {c.Hash} else {})
    ensures r.Actors == s.Actors && |r.MeshHashes| <= |s.MeshHashes| + 1
  {
    if c.Hash !in s.MeshMap && c.Converted.Some? then
      s.(MeshHashes := s.MeshHashes + [c.Hash], MeshMap := s.MeshMap[c.Hash := MeshModel(c.MeshName, c.Converted.value)])
    else s
  }

  /**
   * ProcessMesh for a loaded component. As written (`requireMesh` false) the actor is
   * recorded whether or not its mesh made it into the table; the corrected variant
   * (`requireMesh` true) records it only when it did.
   */
  function MeshStep(s: WorldState, name: FStr, c: MeshComponent, toRotator: FQuat -> FRotator, requireMesh: bool): (r: WorldState)
    requires c.Converted.Some? ==> LodOk(c.Converted.value)
    ensures Consistent(s) ==> Consistent(r)
    ensures requireMesh && Resolved(s) ==> Resolved(r)
    ensures forall h :: h in s.MeshMap ==> h in r.MeshMap && r.MeshMap[h] == s.MeshMap[h]
    ensures r.MeshMap.Keys == s.MeshMap.Keys + (if c.Converted.Some? then {c.Hash} else {})
    ensures |r.MeshHashes| <= |s.MeshHashes| + 1 && |r.Actors| <= |s.Actors| + 1
  {
    var s1 := Insert(s, c);
    if requireMesh && c.Hash !in s1.MeshMap then s1
    else s1.(Actors := s1.Actors + [ActorOf(name, c, toRotator)])
  }

  /** One pass of ProcessWorld's loop. */
  function ActorStep(s: WorldState, a: Option<LevelActor>, toRotator: FQuat -> FRotator, requireMesh: bool): WorldState
    requires a.Some? && a.value.Component.Some? && a.value.Component.value.Converted.Some? ==> LodOk(a.value.Component.value.Converted.value)
  {
    if Skipped(a) || a.value.Component.None? then s
    else MeshStep(s, a.value.Name, a.value.Component.value, toRotator, requireMesh)
  }

  lemma LevelOkSuffix(level: seq<Option<LevelActor>>, k: nat)
    requires LevelOk(level) && k <= |level|
    ensures LevelOk(level[k..])
  {
    forall i | 0 <= i < |level| - k
      ensures level[k..][i] == level[k + i]
    {
    }
  }

  /** ProcessWorld over a level's actors, in order. */
  function Processed(s: WorldState, level: seq<Option<LevelActor>>, toRotator: FQuat -> FRotator, requireMesh: bool): (r: WorldState)
    requires LevelOk(level)
    ensures Consistent(s) ==> Consistent(r)
    ensures requireMesh && Resolved(s) ==> Resolved(r)
    ensures |r.MeshHashes| <= |s.MeshHashes| + |level| && |r.Actors| <= |s.Actors| + |level|
    decreases |level|
  {
    if level == [] then s
    else
      LevelOkSuffix(level, 1);
      Processed(ActorStep(s, level[0], toRotator, requireMesh), level[1..], toRotator, requireMesh)
  }

  // ------------------------------------------------------------- reference definitions

  /** The mesh an actor would contribute under hash `h`, if it is kept and converts. */
  function Candidate(a: Option<LevelActor>, h: int32): Option<MeshModel>
  {
    if !Skipped(a) && a.value.Component.Some? && a.value.Component.value.Hash == h && a.value.Component.value.Converted.Some?
    then Some(MeshModel(a.value.Component.value.MeshName, a.value.Component.value.Converted.value))
    else None
  }

  /** The first successful conversion of hash `h` in the level. */
  function FirstConversion(level: seq<Option<LevelActor>>, h: int32): Option<MeshModel>
  {
    if level == [] then None
    else if Candidate(level[0], h).Some? then Candidate(level[0], h)
    else FirstConversion(level[1..], h)
  }

  /** One loop pass adds the entry's candidate under `h` unless `h` is already taken. */
  lemma ActorStepTable(s: WorldState, a: Option<LevelActor>, toRotator: FQuat -> FRotator, requireMesh: bool, h: int32)
    requires a.Some? && a.value.Component.Some? && a.value.Component.value.Converted.Some? ==> LodOk(a.value.Component.value.Converted.value)
    ensures var r := ActorStep(s, a, toRotator, requireMesh);
      && (h in r.MeshMap <==> h in s.MeshMap || Candidate(a, h).Some?)
      && (h in r.MeshMap ==> r.MeshMap[h] == if h in s.MeshMap then s.MeshMap[h] else Candidate(a, h).value)
  {
  }

  /**
   * The table keeps the first successful conversion of every hash: a hash is in the table
   * exactly when it was there before or some kept actor converted it, and then maps to the
   * earlier entry or to that first conversion.
   */
  lemma {:induction false} MeshMapIsFirstConversion(s: WorldState, level: seq<Option<LevelActor>>, toRotator: FQuat -> FRotator, requireMesh: bool, h: int32)
    requires LevelOk(level)
    decreases |level|
    ensures var r := Processed(s, level, toRotator, requireMesh);
      && (h in r.MeshMap <==> h in s.MeshMap || FirstConversion(level, h).Some?)
      && (h in r.MeshMap ==> r.MeshMap[h] == if h in s.MeshMap then s.MeshMap[h] else FirstConversion(level, h).value)
  {
    if level != [] {
      LevelOkSuffix(level, 1);
      var s1 := ActorStep(s, level[0], toRotator, requireMesh);
      ActorStepTable(s, level[0], toRotator, requireMesh, h);
      MeshMapIsFirstConversion(s1, level[1..], toRotator, requireMesh, h);
    }
  }

  /** Every kept actor with a component converts. */
  predicate AllConvert(level: seq<Option<LevelActor>>)
  {
    forall i :: 0 <= i < |level| && !Skipped(level[i]) && level[i].value.Component.Some? ==> level[i].value.Component.value.Converted.Some?
  }

  /** When every mesh converts, the corrected writer records exactly what the original does. */
  lemma {:induction false} CorrectedAgrees(s: WorldState, level: seq<Option<LevelActor>>, toRotator: FQuat -> FRotator)
    requires LevelOk(level) && AllConvert(level)
    decreases |level|
    ensures Processed(s, level, toRotator, true) == Processed(s, level, toRotator, false)
  {
    if level != [] {
      LevelOkSuffix(level, 1);
      assert AllConvert(level[1..]) by {
        forall i | 0 <= i < |level| - 1 ensures level[1..][i] == level[i + 1] { }
      }
      assert ActorStep(s, level[0], toRotator, true) == ActorStep(s, level[0], toRotator, false);
      CorrectedAgrees(ActorStep(s, level[0], toRotator, true), level[1..], toRotator);
    }
  }

  /** The actor a level entry contributes as written: one for every kept component. */
  function ActorsOf(a: Option<LevelActor>, toRotator: FQuat -> FRotator): seq<FActor>
  {
    if !Skipped(a) && a.value.Component.Some? then [ActorOf(a.value.Name, a.value.Component.value, toRotator)] else []
  }

  lemma ActorStepAsWritten(s: WorldState, a: Option<LevelActor>, toRotator: FQuat -> FRotator)
    requires a.Some? && a.value.Component.Some? && a.value.Component.value.Converted.Some? ==> LodOk(a.value.Component.value.Converted.value)
    ensures ActorStep(s, a, toRotator, false).Actors == s.Actors + ActorsOf(a, toRotator)
  {
  }

  /** The actors ProcessWorld records as written: every kept actor with a component, in order. */
  function LevelActors(level: seq<Option<LevelActor>>, toRotator: FQuat -> FRotator): (r: seq<FActor>)
    ensures |r| <= |level|
  {
    if level == [] then []
    else ActorsOf(level[0], toRotator) + LevelActors(level[1..], toRotator)
  }

  /** As written, an actor is recorded for every kept component, converted or not. */
  lemma {:induction false} ActorsAsWritten(s: WorldState, level: seq<Option<LevelActor>>, toRotator: FQuat -> FRotator)
    requires LevelOk(level)
    decreases |level|
    ensures Processed(s, level, toRotator, false).Actors == s.Actors + LevelActors(level, toRotator)
  {
    if level != [] {
      LevelOkSuffix(level, 1);
      var s1 := ActorStep(s, level[0], toRotator, false);
      ActorsAsWritten(s1, level[1..], toRotator);
      var head := ActorsOf(level[0], toRotator);
      ActorStepAsWritten(s, level[0], toRotator);
      assert Processed(s, level, toRotator, false) == Processed(s1, level[1..], toRotator, false);
      assert s.Actors + head + LevelActors(level[1..], toRotator) == s.Actors + (head + LevelActors(level[1..], toRotator));
    }
  }

  /**
   * As written, one actor whose mesh fails to convert leaves the world with an actor whose
   * hash has no table entry.
   */
  lemma OrphanActor(location: FVector, rotation: FQuat, scale: FVector, toRotator: FQuat -> FRotator)
    ensures var level := [Some(LevelActor(Ascii("StaticMeshActor"), Ascii("Rock"), Some(MeshComponent(7, Ascii("SM_Rock"), None, location, rotation, scale))))];
      var r := Processed(EmptyWorld, level, toRotator, false);
      |r.Actors| == 1 && r.Actors[0].Hash == 7 && 7 !in r.MeshMap && !Resolved(r)
  {
    var actor := LevelActor(Ascii("StaticMeshActor"), Ascii("Rock"), Some(MeshComponent(7, Ascii("SM_Rock"), None, location, rotation, scale)));
    assert |actor.ExportType| != |LOD_ACTOR|;
    assert actor.Name[0] != LF_PREFIX[0];
    assert !Skipped(Some(actor));
    var level := [Some(actor)];
    assert level[1..] == [];
    var s1 := ActorStep(EmptyWorld, level[0], toRotator, false);
    assert s1 == MeshStep(EmptyWorld, actor.Name, actor.Component.value, toRotator, false);
    var r := Processed(EmptyWorld, level, toRotator, false);
    assert r == Processed(s1, [], toRotator, false) == s1;
    assert r.Actors[0] in r.Actors;
  }

  // ------------------------------------------------------------------ the writer

  class UnrealWorld {
    var MeshHashes: seq<int32>
    var MeshMap: map<int32, MeshModel>
    var Actors: seq<FActor>

    function State(): WorldState
      reads this
    {
      WorldState(MeshHashes, MeshMap, Actors)
    }

    /** Empty mesh table and actor list. */
    constructor ()
      ensures State() == EmptyWorld
    {
      MeshHashes := [];
      MeshMap := map[];
      Actors := [];
    }

    /** ProcessMesh: an actor without a loadable static mesh component changes nothing. */
    method ProcessMesh(actor: LevelActor, toRotator: FQuat -> FRotator, requireMesh: bool)
      requires actor.Component.Some? && actor.Component.value.Converted.Some? ==> LodOk(actor.Component.value.Converted.value)
      modifies this
      ensures State() == if actor.Component.None? then old(State())
                         else MeshStep(old(State()), actor.Name, actor.Component.value, toRotator, requireMesh)
    {
      if actor.Component.None? {
        return;
      }
      var c := actor.Component.value;
      if c.Hash !in MeshMap && c.Converted.Some? {
        MeshHashes := MeshHashes + [c.Hash];
        MeshMap := MeshMap[c.Hash := MeshModel(c.MeshName, c.Converted.value)];
      }
      if requireMesh && c.Hash !in MeshMap {
        return;
      }
      Actors := Actors + [ActorOf(actor.Name, c, toRotator)];
    }

    /** ProcessWorld: the level's actors in order, minus the skipped ones. */
    method ProcessWorld(level: seq<Option<LevelActor>>, toRotator: FQuat -> FRotator, requireMesh: bool)
      requires LevelOk(level)
      modifies this
      ensures State() == Processed(old(State()), level, toRotator, requireMesh)
    {
      for i := 0 to |level|
        invariant LevelOk(level[i..])
        invariant Processed(State(), level[i..], toRotator, requireMesh) == Processed(old(State()), level, toRotator, requireMesh)
      {
        assert level[i..][0] == level[i] && level[i..][1..] == level[i + 1..];
        LevelOkSuffix(level, i + 1);
        var actor := level[i];
        if actor.None? || actor.value.ExportType == LOD_ACTOR || StartsWith(actor.value.Name, LF_PREFIX) {
          continue;
        }
        ProcessMesh(actor.value, toRotator, requireMesh);
      }
      assert level[|level|..] == [];
    }
  }

  // ------------------------------------------------------------------ serialization

  /** One MESHES record: the hash, the saved model's length, then the saved model. */
  datatype MeshRecord = MeshRecord(Hash: int32, Saved: seq<byte>)

  function MeshRecordBytes(m: MeshRecord): (r: seq<byte>)
    ensures |r| == 8 + |m.Saved|
  {
    Int32Bytes(m.Hash) + Int32Bytes(WrapInt32(|m.Saved|)) + m.Saved
  }

  /**
   * What a table entry's model saves: a UMODEL header (version 1, the default options'
   * format None) followed by its static chunks.
   */
  function SavedModel(m: MeshModel, normalize: FVector -> FVector): seq<byte>
    requires LodOk(m.Lod)
  {
    UnrealHeader.HeaderBytes(UnrealModel.UMODEL, 1, m.Name, UnrealHeader.None)
    + EncodeAll(ChunkBytesOf, UnrealModel.StaticMeshChunks(m.Lod.Verts, m.Lod.Indices, m.Lod.Colors, m.Lod.Materials, normalize))
  }

  /** The MESHES records in the table's enumeration order. */
  function MeshRecords(s: WorldState, normalize: FVector -> FVector): (r: seq<MeshRecord>)
    requires Consistent(s)
    ensures |r| == |s.MeshHashes|
    ensures forall i :: 0 <= i < |r| ==> r[i].Hash == s.MeshHashes[i] && r[i].Saved == SavedModel(s.MeshMap[s.MeshHashes[i]], normalize)
  {
    seq(|s.MeshHashes|, i requires 0 <= i < |s.MeshHashes| => MeshRecord(s.MeshHashes[i], SavedModel(s.MeshMap[s.MeshHashes[i]], normalize)))
  }

  /** The two chunks of a world body. */
  function WorldChunks(s: WorldState, normalize: FVector -> FVector): seq<FDataChunk>
    requires Consistent(s) && |s.MeshHashes| < TWO_31 && |s.Actors| < TWO_31
  {
    [FDataChunk(MESHES, |s.MeshHashes|, EncodeAll(MeshRecordBytes, MeshRecords(s, normalize))),
     FDataChunk(ACTORS, |s.Actors|, EncodeAll(ActorBytes, s.Actors))]
  }

  /** The elements of a key list. */
  function KeySet(xs: seq<int32>): (r: set<int32>)
    ensures forall h :: h in r <==> h in xs
  {
    if xs == [] then {} else {xs[0]} + KeySet(xs[1..])
  }

  /** A list without repeats has as many distinct elements as entries. */
  lemma {:induction false} DistinctCard(xs: seq<int32>)
    requires forall i, j :: 0 <= i < j < |xs| ==> xs[i] != xs[j]
    ensures |KeySet(xs)| == |xs|
  {
    if xs != [] {
      var tail := xs[1..];
      assert forall i, j :: 0 <= i < j < |tail| ==> tail[i] != tail[j] by {
        forall i, j | 0 <= i < j < |tail| ensures tail[i] != tail[j] {
          assert tail[i] == xs[i + 1] && tail[j] == xs[j + 1];
        }
      }
      DistinctCard(tail);
      assert xs[0] !in KeySet(tail) by {
        forall j | 0 <= j < |tail| ensures tail[j] != xs[0] {
          assert tail[j] == xs[j + 1];
        }
      }
      assert KeySet(xs) == {xs[0]} + KeySet(tail);
    }
  }

  /** The MESHES count is the table's size (`MeshMap.Count`). */
  lemma MeshCountIsTableSize(s: WorldState)
    requires Consistent(s)
    ensures |s.MeshMap| == |s.MeshHashes|
  {
    DistinctCard(s.MeshHashes);
    assert s.MeshMap.Keys == KeySet(s.MeshHashes);
  }

  /** A world processed from scratch keeps the table consistent and within the sizes the chunk counts allow. */
  lemma ProcessedFromEmpty(level: seq<Option<LevelActor>>, toRotator: FQuat -> FRotator, requireMesh: bool)
    requires LevelOk(level) && |level| < TWO_31
    ensures var r := Processed(EmptyWorld, level, toRotator, requireMesh);
      Consistent(r) && |r.MeshHashes| < TWO_31 && |r.Actors| < TWO_31
  {
    assert Consistent(EmptyWorld);
  }

  /**
   * `new UnrealWorld(world, name, options)`: the header "UWORLD", version 1; the level
   * processed; then the MESHES and ACTORS chunks flushed into the body.
   */
  method NewWorld(name: FStr, compression: UnrealHeader.EFileCompressionFormat, level: seq<Option<LevelActor>>,
                  toRotator: FQuat -> FRotator, normalize: FVector -> FVector, requireMesh: bool)
    returns (asset: ExportableAsset.ExportableUnrealAssetBase, world: UnrealWorld)
    requires LevelOk(level) && |level| < TWO_31
    ensures fresh(asset) && asset.Valid() && fresh(world)
    ensures asset.Header.Identifier == UWORLD && asset.Header.FileVersion == 1
    ensures asset.Header.ObjectName == name && asset.Header.CompressionFormat == compression
    ensures world.State() == Processed(EmptyWorld, level, toRotator, requireMesh)
    ensures Consistent(world.State())
    ensures asset.Ar.buffer == EncodeAll(ChunkBytesOf, WorldChunks(world.State(), normalize))
  {
    var header := new UnrealHeader.FUnrealHeader(UWORLD, 1, name, compression);
    asset := new ExportableAsset.ExportableUnrealAssetBase(header);
    world := new UnrealWorld();
    world.ProcessWorld(level, toRotator, requireMesh);
    ProcessedFromEmpty(level, toRotator, requireMesh);
    FlushWorldChunks(world.State(), normalize, asset.Ar);
  }

  /** The MESHES chunk, then the ACTORS chunk, built from the world and flushed into an empty body. */
  method FlushWorldChunks(s: WorldState, normalize: FVector -> FVector, ar: FArchiveWriter)
    requires Consistent(s) && |s.MeshHashes| < TWO_31 && |s.Actors| < TWO_31
    requires ar.Valid() && ar.buffer == []
    modifies ar
    ensures ar.Valid() && ar.buffer == EncodeAll(ChunkBytesOf, WorldChunks(s, normalize))
  {
    var records := MeshRecords(s, normalize);
    var meshChunk := BuildChunk(MESHES, MeshRecordBytes, records);
    assert EncodeAll(ChunkBytesOf, []) == [];
    FlushChunk(meshChunk, ar, [], []);
    var actorChunk := BuildChunk(ACTORS, ActorBytes, s.Actors);
    FlushChunk(actorChunk, ar, [], [meshChunk]);
    assert [meshChunk] + [actorChunk] == WorldChunks(s, normalize);
  }
}
