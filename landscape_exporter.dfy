/**
 * The landscape exporter's mesh assembly (`DoThings3_Mesh`), run sequentially.
 *
 * The assembly works in these steps:
 *  - It folds every component's tile into a bounding box, starting from the sentinels.
 *  - It sizes the buffers. Each component owns `V = (ComponentSizeQuads + 1)^2` consecutive
 *    vertex slots, so component `i` owns the slice `[i*V, (i+1)*V)`.
 *  - For every vertex of every component, it writes the vertex, its weight-map UV and
 *    one grey colour per weight-map allocation into that slice. A layer's colour buffer
 *    and raster are created the first time the layer's name is met.
 *  - It emits two triangles per quad into the index buffer and one section that covers
 *    all the triangles.
 *
 * The floating-point values are parameters of the model: `vertexOf(i, v)` and
 * `uvOf(i, v)` give the vertex and the weight-map UV of vertex `v` of component `i`, and
 * `weightOf(i, v, j)` gives what `GetLayerWeight` returns for allocation `j`: a weight, or
 * the error it throws. The height read behind `GetLocalVertex` and `GetLocalTangentVectors`
 * is `LandscapeDataAccess.VertexHeightRead` of the component's input.
 *
 * The assembly fails in three ways:
 *  - A component's data interface can fail to be built. That happens in the component loop
 *    itself and ends the assembly there.
 *  - A vertex's height read can fail: a division by zero when a subsection has one vertex,
 *    or an index past the height data. That ends the component's task.
 *  - A weight lookup can fail. That also ends the component's task.
 * `Task.WaitAll` rethrows a task's failure after the loop. Whatever the failure,
 * `WeightMaps` is left as it was.
 */
module LandscapeExport {
  import opened Wrappers
  import opened Bytes
  import opened MeshData
  import opened BaseMeshLod
  import opened LandscapeComponent
  import Access = LandscapeDataAccess

  /**
   * What the assembly reads of one component: its tile, what its data interface reads (the
   * height-map texture decides whether the interface can be built, and the height reads of
   * its vertices can throw) and the layer name of each weight-map allocation, in order.
   */
  datatype ExportComponent = ExportComponent(Tile: Footprint, Input: Access.ComponentInput, Layers: seq<string>)

  /**
   * Why `DoThings3_Mesh` throws: component `Component` is the first whose data interface
   * cannot be built, or a component task threw and `Task.WaitAll` rethrows it.
   */
  datatype ExportFailure = ConstructionFailed(Component: nat, Error: Access.LandscapeError) | TasksFailed

  /** A layer's weight-map raster: its size (the pixel contents are not part of this model). */
  datatype Raster = Raster(Width: int32, Height: int32)

  /** A layer's colour buffer while it is filled: the short name and one colour per vertex slot. */
  datatype LayerBuffer = LayerBuffer(ShortName: string, Colors: seq<FColor>)

  /** The tiles of the components, in order. */
  function Tiles(cs: seq<ExportComponent>): (ts: seq<Footprint>)
    ensures |ts| == |cs| && forall i :: 0 <= i < |cs| ==> ts[i] == cs[i].Tile
  {
    seq(|cs|, i requires 0 <= i < |cs| => cs[i].Tile)
  }

  // ---------------------------------------------------------------------------------------
  // Counts
  // ---------------------------------------------------------------------------------------

  /**
   * `((componentSize + 1) >> ExportLOD) - 1` with the export LOD at 0, in 32-bit
   * arithmetic. It is the component size itself, even at `int.MaxValue`, where the
   * increment wraps and the decrement wraps back.
   */
  function ExportSizeQuads(componentSize: int32): (r: int32)
    ensures r == componentSize
  {
    WrapInt32(Access.Shr(WrapInt32(componentSize + 1), 0) - 1)
  }

  /** `VertexCountPerComponent`: the vertices of a square of `csq` quads a side. */
  function VertsPerComponent(csq: int): nat
  {
    (csq + 1) * (csq + 1)
  }

  /** `VertexCount`: every component's vertices. */
  function VertexCount(n: nat, csq: int): nat
  {
    n * VertsPerComponent(csq)
  }

  /** `TriangleCount`: two triangles per quad. */
  function TriangleCount(n: nat, csq: int): int
  {
    n * (csq * csq) * 2
  }

  /** The raster edge `Max - Min + 1`, evaluated in 32-bit arithmetic. */
  function RasterSpan(min: int32, max: int32): (r: int32)
    ensures -TWO_31 <= max - min + 1 < TWO_31 ==> r == max - min + 1
  {
    WrapInt32(max - min + 1)
  }

  // ---------------------------------------------------------------------------------------
  // Vertex slots
  // ---------------------------------------------------------------------------------------

  /**
   * `a * b`, spelled out as repeated addition (`TimesIsProduct`). The slot and index-buffer
   * proofs reason through it, which keeps products out of the solver's nonlinear arithmetic.
   */
  function Times(a: int, b: int): int
    decreases if a < 0 then -a else a
  {
    if a == 0 then 0
    else if a > 0 then Times(a - 1, b) + b
    else Times(a + 1, b) - b
  }

  lemma {:induction false} TimesIsProduct(a: int, b: int)
    ensures Times(a, b) == a * b
    decreases if a < 0 then -a else a
  {
    if a > 0 {
      TimesIsProduct(a - 1, b);
      assert (a - 1) * b + b == a * b;
    } else if a < 0 {
      TimesIsProduct(a + 1, b);
      assert (a + 1) * b - b == a * b;
    }
  }

  lemma TimesNext(a: int, b: int)
    ensures Times(a + 1, b) == Times(a, b) + b
  {
  }

  /** For a non-negative factor `b`, `Times(_, b)` is non-negative and grows with its first argument. */
  lemma {:induction false} TimesMono(a: int, a': int, b: int)
    requires 0 <= a <= a' && b >= 0
    ensures 0 <= Times(a, b) <= Times(a', b)
    decreases a'
  {
    if a' > 0 {
      if a == a' {
        TimesMono(a - 1, a' - 1, b);
      } else {
        TimesMono(a, a' - 1, b);
      }
    }
  }

  /** `baseVertIndex + vertIndex`: the slot of vertex `w` of component `c`. */
  function Slot(c: int, w: int, perComponent: int): int
  {
    Times(c, perComponent) + w
  }

  /** The next component's slice starts where this one's ends. */
  lemma SlotNext(i: int, perComponent: int)
    ensures Slot(i + 1, 0, perComponent) == Slot(i, 0, perComponent) + perComponent
  {
    TimesNext(i, perComponent);
  }

  /** The slice before component `i` ends where component `i`'s starts. */
  lemma SlotPrev(i: int, perComponent: int)
    ensures Slot(i - 1, 0, perComponent) + perComponent == Slot(i, 0, perComponent)
  {
    TimesNext(i - 1, perComponent);
  }

  /** Vertex `w` of a component sits `w` slots into its slice. */
  lemma SlotOffset(c: int, w: int, perComponent: int)
    ensures Slot(c, w, perComponent) == Slot(c, 0, perComponent) + w
  {
  }

  /** An earlier component's slots lie before a later component's slice. */
  lemma SlotBefore(c: int, w: int, i: int, perComponent: int)
    requires 0 <= c < i && 0 <= w < perComponent
    ensures 0 <= Slot(c, w, perComponent) < Slot(i, 0, perComponent)
  {
    TimesMono(c, c + 1, perComponent);
    TimesMono(c + 1, i, perComponent);
    SlotNext(c, perComponent);
  }

  /** Component `i` of `n` has its whole slice below the `n` components' slot count. */
  lemma SlotWithin(i: int, n: int, perComponent: int)
    requires 0 <= i < n && perComponent >= 0
    ensures 0 <= Slot(i, 0, perComponent) && Slot(i, 0, perComponent) + perComponent <= Slot(n, 0, perComponent)
  {
    TimesMono(0, i, perComponent);
    TimesMono(i + 1, n, perComponent);
    SlotNext(i, perComponent);
  }

  /** Disjointness: a slot belongs to exactly one (component, vertex) pair. */
  lemma SlotUnique(c1: int, w1: int, c2: int, w2: int, perComponent: int)
    requires 0 <= w1 < perComponent && 0 <= w2 < perComponent
    requires Slot(c1, w1, perComponent) == Slot(c2, w2, perComponent)
    ensures c1 == c2 && w1 == w2
  {
    var k := Slot(c1, w1, perComponent);
    TimesIsProduct(c1, perComponent);
    TimesIsProduct(c2, perComponent);
    Access.DivModUnique(k, perComponent, c1, w1);
    Access.DivModUnique(k, perComponent, c2, w2);
  }

  /** Coverage: every slot below `n * V` is the slot of a vertex of one of the `n` components. */
  lemma SlotCovers(k: int, n: nat, perComponent: int)
    requires perComponent > 0 && 0 <= k < n * perComponent
    ensures 0 <= k / perComponent < n && 0 <= k % perComponent < perComponent
    ensures Slot(k / perComponent, k % perComponent, perComponent) == k
  {
    var q := k / perComponent;
    TimesIsProduct(q, perComponent);
    if q >= n {
      Access.MulMono(perComponent, n, q);
      assert false;
    }
  }

  // ---------------------------------------------------------------------------------------
  // Layer names
  // ---------------------------------------------------------------------------------------

  function LayerSet(layers: seq<string>): set<string>
  {
    set L | L in layers
  }

  /** The layer names of a run of components: the names some component allocates. */
  function LayersOf(cs: seq<ExportComponent>): set<string>
  {
    set c, L | 0 <= c < |cs| && L in cs[c].Layers :: L
  }

  /** The layer names of components `[0, i)` are those of `[0, i - 1)` and component `i - 1`'s. */
  lemma LayersOfSnoc(cs: seq<ExportComponent>, i: int)
    requires 0 < i <= |cs|
    ensures LayersOf(cs[..i]) == LayersOf(cs[..i - 1]) + LayerSet(cs[i - 1].Layers)
  {
    assert cs[..i][..i - 1] == cs[..i - 1];
  }

  /** The layer names of components `[0, i)`, gathered one component at a time. */
  function LayersBefore(cs: seq<ExportComponent>, i: nat): set<string>
    requires i <= |cs|
  {
    if i == 0 then {} else LayersBefore(cs, i - 1) + LayerSet(cs[i - 1].Layers)
  }

  /** Gathering the names one component at a time gives every name some component allocates. */
  lemma {:induction false} LayersBeforeAll(cs: seq<ExportComponent>, i: nat)
    requires i <= |cs|
    ensures LayersBefore(cs, i) == LayersOf(cs[..i])
  {
    if i == 0 {
      assert cs[..0] == [];
    } else {
      LayersBeforeAll(cs, i - 1);
      LayersOfSnoc(cs, i);
    }
  }

  /** The position of the last allocation naming `L`: the allocation whose write to a shared slot stays. */
  function LastIndexOf(layers: seq<string>, L: string): (j: int)
    requires L in layers
    ensures 0 <= j < |layers| && layers[j] == L
    ensures forall k :: j < k < |layers| ==> layers[k] != L
  {
    var last := |layers| - 1;
    if layers[last] == L then last
    else
      assert L in layers[..last] by {
        var k :| 0 <= k < |layers| && layers[k] == L;
        assert layers[..last][k] == L;
      }
      LastIndexOf(layers[..last], L)
  }

  // ---------------------------------------------------------------------------------------
  // Short names
  // ---------------------------------------------------------------------------------------

  const LAYER_INFO_SUFFIX := "_LayerInfo"

  /** The short name's bound: `20 - 6` characters. */
  const SHORT_NAME_LENGTH := 14

  predicate OccursAt(s: string, d: string, m: int)
  {
    0 <= m && m + |d| <= |s| && s[m..m + |d|] == d
  }

  /** `s.IndexOf(d)` from position `k`, comparing characters ordinally; -1 when `d` does not occur. */
  function IndexOfFrom(s: string, d: string, k: nat): (r: int)
    decreases |s| - k
    ensures r == -1 || (k <= r && OccursAt(s, d, r))
    ensures forall m :: k <= m && (r == -1 || m < r) ==> !OccursAt(s, d, m)
  {
    if k + |d| > |s| then -1
    else if s[k..k + |d|] == d then k
    else IndexOfFrom(s, d, k + 1)
  }

  /** `SubstringBefore(d)`: the text before the first `d`, or all of `s`. */
  function SubstringBefore(s: string, d: string): string
  {
    var i := IndexOfFrom(s, d, 0);
    if i == -1 then s else s[..i]
  }

  /** The name under which a layer's colour buffer is exported. */
  function ShortName(layerName: string): string
  {
    var before := SubstringBefore(layerName, LAYER_INFO_SUFFIX);
    before[..Min(SHORT_NAME_LENGTH, |before|)]
  }

  /** A prefix of a string without an occurrence of `d` has none either. */
  lemma NoOccurrenceInPrefix(s: string, d: string, n: int)
    requires 0 <= n <= |s|
    requires forall m :: !OccursAt(s, d, m)
    ensures forall m :: !OccursAt(s[..n], d, m)
  {
    forall m
      ensures !OccursAt(s[..n], d, m)
    {
      if 0 <= m && m + |d| <= n {
        assert s[..n][m..m + |d|] == s[m..m + |d|];
        assert !OccursAt(s, d, m);
      }
    }
  }

  /**
   * The short name is a prefix of the layer name, at most 14 characters long, and free of
   * `_LayerInfo`. When the name has no `_LayerInfo`, it is the name cut to 14 characters.
   */
  lemma ShortNameShape(layerName: string)
    ensures var r := ShortName(layerName);
      |r| <= SHORT_NAME_LENGTH && r <= layerName &&
      (forall m :: !OccursAt(r, LAYER_INFO_SUFFIX, m)) &&
      ((forall m :: !OccursAt(layerName, LAYER_INFO_SUFFIX, m)) ==> r == layerName[..Min(SHORT_NAME_LENGTH, |layerName|)])
  {
    var d := LAYER_INFO_SUFFIX;
    var i := IndexOfFrom(layerName, d, 0);
    var before := SubstringBefore(layerName, d);
    if i == -1 {
      assert before == layerName;
    } else {
      assert before == layerName[..i];
      forall m
        ensures !OccursAt(before, d, m)
      {
        if 0 <= m && m + |d| <= i {
          assert layerName[..i][m..m + |d|] == layerName[m..m + |d|];
          assert !OccursAt(layerName, d, m);
        }
      }
    }
    NoOccurrenceInPrefix(before, d, Min(SHORT_NAME_LENGTH, |before|));
    var r := ShortName(layerName);
    assert before <= layerName;
  }

  /**
   * A layer-info asset named `<stem>_LayerInfo`, whose stem does not contain the suffix,
   * is exported under its stem, cut to 14 characters.
   */
  lemma ShortNameOfLayerInfo(stem: string)
    requires forall m :: !OccursAt(stem, LAYER_INFO_SUFFIX, m)
    ensures ShortName(stem + LAYER_INFO_SUFFIX) == stem[..Min(SHORT_NAME_LENGTH, |stem|)]
  {
    var d := LAYER_INFO_SUFFIX;
    var s := stem + d;
    assert OccursAt(s, d, |stem|) by { assert s[|stem|..|stem| + |d|] == d; }
    forall m | 0 <= m < |stem|
      ensures !OccursAt(s, d, m)
    {
      if m + |d| <= |stem| {
        assert s[m..m + |d|] == stem[m..m + |d|];
        assert !OccursAt(stem, d, m);
      } else if m + |d| <= |s| {
        // The window reaches into the suffix copy: it holds the suffix's '_' at a
        // position where the suffix itself has another character.
        assert s[m..m + |d|][|stem| - m] == s[|stem|] == '_';
        assert d[|stem| - m] != '_';
      }
    }
    var i := IndexOfFrom(s, d, 0);
    assert i == |stem|;
    assert SubstringBefore(s, d) == stem;
  }

  // ---------------------------------------------------------------------------------------
  // Layer colours
  // ---------------------------------------------------------------------------------------

  /** `new FColor(weight, weight, weight, weight)`. */
  function Gray(weight: byte): (r: FColor)
    ensures r.R == weight && r.G == weight && r.B == weight && r.A == weight
  {
    FColor(weight, weight, weight, weight)
  }

  /**
   * The colour a layer's buffer holds for vertex `w` of component `c` once every component
   * is written: the grey of the weight from the component's last allocation of that layer,
   * or the default colour when the component does not allocate the layer.
   */
  function ExpectedColor(cs: seq<ExportComponent>, weightOf: (int, int, int) -> byte, c: int, w: int, L: string): FColor
    requires 0 <= c < |cs|
  {
    if L in cs[c].Layers then Gray(weightOf(c, w, LastIndexOf(cs[c].Layers, L))) else DEFAULT_COLOR
  }

  /** Every buffer in `colors` has `n` slots. */
  predicate Sized(colors: map<string, LayerBuffer>, n: int)
  {
    forall L :: L in colors ==> |colors[L].Colors| == n
  }

  /** The weight-map rasters: one of the landscape's size for each layer name in `names`. */
  function RasterMap(names: set<string>, width: int32, height: int32): (r: map<string, Raster>)
    ensures r.Keys == names
    ensures forall L :: L in r ==> r[L] == Raster(width, height)
  {
    map L | L in names :: Raster(width, height)
  }

  lemma RasterMapAdd(names: set<string>, L: string, width: int32, height: int32)
    ensures RasterMap(names + {L}, width, height) == RasterMap(names, width, height)[L := Raster(width, height)]
  {
  }

  /** One weight-map allocation as the colour buffers see it: the grey of `Weight` written to slot `Slot` of layer `Layer`. */
  datatype ColorWrite = ColorWrite(Layer: string, Slot: int, Weight: byte)

  /**
   * One write (LandscapeExporter.cs:273-278, 284). The first time a layer is met, its
   * buffer is created under its short name with `vertexCount` default colours. The buffer
   * then holds the grey of the weight at the slot. A slot outside the buffer, where the
   * source would throw, leaves it as it is; the exporter writes only inside
   * (`ComponentWritesPlaced`).
   */
  function AddLayerWeight(colors: map<string, LayerBuffer>, write: ColorWrite, vertexCount: nat): map<string, LayerBuffer>
  {
    var name := write.Layer;
    var buffer := if name in colors then colors[name] else LayerBuffer(ShortName(name), seq(vertexCount, _ => DEFAULT_COLOR));
    var written := if 0 <= write.Slot < |buffer.Colors| then buffer.Colors[write.Slot := Gray(write.Weight)] else buffer.Colors;
    colors[name := buffer.(Colors := written)]
  }

  /** The writes, in order. */
  function Apply(colors: map<string, LayerBuffer>, writes: seq<ColorWrite>, vertexCount: nat): map<string, LayerBuffer>
  {
    ApplyFirst(colors, writes, |writes|, vertexCount)
  }

  /** The first `m` writes, in order. */
  function ApplyFirst(colors: map<string, LayerBuffer>, writes: seq<ColorWrite>, m: nat, vertexCount: nat): map<string, LayerBuffer>
    requires m <= |writes|
  {
    if m == 0 then colors
    else AddLayerWeight(ApplyFirst(colors, writes, m - 1, vertexCount), writes[m - 1], vertexCount)
  }

  lemma {:induction false} ApplyFirstPrefix(colors: map<string, LayerBuffer>, a: seq<ColorWrite>, b: seq<ColorWrite>, m: nat, vertexCount: nat)
    requires m <= |a|
    ensures ApplyFirst(colors, a + b, m, vertexCount) == ApplyFirst(colors, a, m, vertexCount)
  {
    if m > 0 {
      ApplyFirstPrefix(colors, a, b, m - 1, vertexCount);
      assert (a + b)[m - 1] == a[m - 1];
    }
  }

  lemma {:induction false} ApplyFirstSuffix(colors: map<string, LayerBuffer>, a: seq<ColorWrite>, b: seq<ColorWrite>, k: nat, vertexCount: nat)
    requires |a| <= k <= |a| + |b|
    ensures ApplyFirst(colors, a + b, k, vertexCount) == ApplyFirst(Apply(colors, a, vertexCount), b, k - |a|, vertexCount)
  {
    if k > |a| {
      ApplyFirstSuffix(colors, a, b, k - 1, vertexCount);
      assert (a + b)[k - 1] == b[k - 1 - |a|];
      ApplyFirstStep(colors, a + b, k - 1, Apply(colors, a, vertexCount), b, k - 1 - |a|, vertexCount);
    } else {
      ApplyFirstPrefix(colors, a, b, |a|, vertexCount);
    }
  }

  /** Two runs that agree after `m` and `n` writes agree after one more equal write. */
  lemma ApplyFirstStep(colors: map<string, LayerBuffer>, writes: seq<ColorWrite>, m: nat,
                       colors': map<string, LayerBuffer>, writes': seq<ColorWrite>, n: nat, vertexCount: nat)
    requires m < |writes| && n < |writes'| && writes[m] == writes'[n]
    requires ApplyFirst(colors, writes, m, vertexCount) == ApplyFirst(colors', writes', n, vertexCount)
    ensures ApplyFirst(colors, writes, m + 1, vertexCount) == ApplyFirst(colors', writes', n + 1, vertexCount)
  {
  }

  /** A write's buffer gets `vertexCount` slots; every other buffer is left as it is. */
  lemma AddLayerWeightSized(colors: map<string, LayerBuffer>, write: ColorWrite, vertexCount: nat)
    requires Sized(colors, vertexCount)
    ensures AddLayerWeight(colors, write, vertexCount).Keys == colors.Keys + {write.Layer}
    ensures Sized(AddLayerWeight(colors, write, vertexCount), vertexCount)
  {
  }

  /** One more write is one more `AddLayerWeight`. */
  lemma ApplySnoc(colors: map<string, LayerBuffer>, a: seq<ColorWrite>, write: ColorWrite, vertexCount: nat)
    ensures Apply(colors, a + [write], vertexCount) == AddLayerWeight(Apply(colors, a, vertexCount), write, vertexCount)
  {
    ApplyAppend(colors, a, [write], vertexCount);
    assert ApplyFirst(Apply(colors, a, vertexCount), [write], 0, vertexCount) == Apply(colors, a, vertexCount);
  }

  /** Writing two runs one after the other is writing their concatenation. */
  lemma ApplyAppend(colors: map<string, LayerBuffer>, a: seq<ColorWrite>, b: seq<ColorWrite>, vertexCount: nat)
    ensures Apply(Apply(colors, a, vertexCount), b, vertexCount) == Apply(colors, a + b, vertexCount)
  {
    ApplyFirstSuffix(colors, a, b, |a| + |b|, vertexCount);
  }

  function WriteNames(writes: seq<ColorWrite>): set<string>
  {
    set w | w in writes :: w.Layer
  }

  /** The writes add one buffer per layer name they carry. */
  lemma {:induction false} ApplyKeys(colors: map<string, LayerBuffer>, writes: seq<ColorWrite>, vertexCount: nat)
    ensures Apply(colors, writes, vertexCount).Keys == colors.Keys + WriteNames(writes)
  {
    if writes != [] {
      var n := |writes| - 1;
      ApplyKeys(colors, writes[..n], vertexCount);
      assert writes == writes[..n] + [writes[n]];
      ApplySnoc(colors, writes[..n], writes[n], vertexCount);
    }
  }

  /** A buffer keeps the short name it was created with: the layer name less `_LayerInfo`, at most 14 characters. */
  lemma {:induction false} ApplyName(colors: map<string, LayerBuffer>, writes: seq<ColorWrite>, vertexCount: nat, L: string)
    requires L in Apply(colors, writes, vertexCount)
    ensures Apply(colors, writes, vertexCount)[L].ShortName == if L in colors then colors[L].ShortName else ShortName(L)
  {
    if writes != [] {
      var n := |writes| - 1;
      ApplyKeys(colors, writes[..n], vertexCount);
      assert writes == writes[..n] + [writes[n]];
      ApplySnoc(colors, writes[..n], writes[n], vertexCount);
      if L in Apply(colors, writes[..n], vertexCount) {
        ApplyName(colors, writes[..n], vertexCount, L);
      }
    }
  }

  /** The weight of the last write to slot `k` of layer `L`, if any. */
  function LastWeight(writes: seq<ColorWrite>, L: string, k: int): Option<byte>
  {
    LastWeightBefore(writes, |writes|, L, k)
  }

  /** The weight of the last write to slot `k` of layer `L` among the first `m` writes. */
  function LastWeightBefore(writes: seq<ColorWrite>, m: nat, L: string, k: int): Option<byte>
    requires m <= |writes|
  {
    if m == 0 then None
    else if writes[m - 1].Layer == L && writes[m - 1].Slot == k then Some(writes[m - 1].Weight)
    else LastWeightBefore(writes, m - 1, L, k)
  }

  /** Writes after the first `m` do not change what the first `m` say. */
  lemma {:induction false} LastWeightBeforePrefix(a: seq<ColorWrite>, b: seq<ColorWrite>, m: nat, L: string, k: int)
    requires m <= |a|
    ensures LastWeightBefore(a + b, m, L, k) == LastWeightBefore(a, m, L, k)
  {
    if m > 0 {
      LastWeightBeforePrefix(a, b, m - 1, L, k);
    }
  }

  lemma {:induction false} LastWeightBeforeSuffix(a: seq<ColorWrite>, b: seq<ColorWrite>, m: nat, L: string, k: int)
    requires m <= |b|
    ensures LastWeightBefore(a + b, |a| + m, L, k) ==
      if LastWeightBefore(b, m, L, k).Some? then LastWeightBefore(b, m, L, k) else LastWeight(a, L, k)
  {
    if m > 0 {
      LastWeightBeforeSuffix(a, b, m - 1, L, k);
    } else {
      LastWeightBeforePrefix(a, b, |a|, L, k);
    }
  }

  /** A later run's last write to a slot wins over an earlier run's. */
  lemma LastWeightAppend(a: seq<ColorWrite>, b: seq<ColorWrite>, L: string, k: int)
    ensures LastWeight(a + b, L, k) == if LastWeight(b, L, k).Some? then LastWeight(b, L, k) else LastWeight(a, L, k)
  {
    LastWeightBeforeSuffix(a, b, |b|, L, k);
  }

  /** One more write: it wins when it is to slot `k` of layer `L`. */
  lemma LastWeightSnoc(a: seq<ColorWrite>, w: ColorWrite, L: string, k: int)
    ensures LastWeight(a + [w], L, k) == if w.Layer == L && w.Slot == k then Some(w.Weight) else LastWeight(a, L, k)
  {
    LastWeightAppend(a, [w], L, k);
    assert LastWeightBefore([w], 0, L, k) == None;
  }

  lemma {:induction false} LastWeightNamed(writes: seq<ColorWrite>, L: string, k: int)
    requires LastWeight(writes, L, k).Some?
    ensures L in WriteNames(writes)
    decreases |writes|
  {
    var n := |writes| - 1;
    assert writes == writes[..n] + [writes[n]];
    LastWeightSnoc(writes[..n], writes[n], L, k);
    if !(writes[n].Layer == L && writes[n].Slot == k) {
      LastWeightNamed(writes[..n], L, k);
      assert writes[..n] <= writes;
    }
  }

  /**
   * After the writes, every buffer has `VertexCount` slots, and slot `k` of layer `L` holds
   * the grey of the last write to it; a slot no write reached keeps its colour, or holds
   * the default colour in a new buffer.
   */
  lemma {:induction false} ApplyColor(colors: map<string, LayerBuffer>, writes: seq<ColorWrite>, vertexCount: nat, L: string, k: int)
    requires Sized(colors, vertexCount) && 0 <= k < vertexCount
    requires L in Apply(colors, writes, vertexCount)
    ensures |Apply(colors, writes, vertexCount)[L].Colors| == vertexCount
    ensures Apply(colors, writes, vertexCount)[L].Colors[k] ==
      match LastWeight(writes, L, k)
      case Some(weight) => Gray(weight)
      case None => if L in colors then colors[L].Colors[k] else DEFAULT_COLOR
  {
    if writes != [] {
      var n := |writes| - 1;
      var prev := Apply(colors, writes[..n], vertexCount);
      ApplyKeys(colors, writes[..n], vertexCount);
      assert writes == writes[..n] + [writes[n]];
      ApplySnoc(colors, writes[..n], writes[n], vertexCount);
      LastWeightSnoc(writes[..n], writes[n], L, k);
      if L in prev {
        ApplyColor(colors, writes[..n], vertexCount, L, k);
      } else if LastWeight(writes[..n], L, k).Some? {
        LastWeightNamed(writes[..n], L, k);
      }
    }
  }

  lemma ApplySized(colors: map<string, LayerBuffer>, writes: seq<ColorWrite>, vertexCount: nat)
    requires Sized(colors, vertexCount)
    ensures Sized(Apply(colors, writes, vertexCount), vertexCount)
  {
    forall L | L in Apply(colors, writes, vertexCount)
      ensures |Apply(colors, writes, vertexCount)[L].Colors| == vertexCount
    {
      if vertexCount > 0 {
        ApplyColor(colors, writes, vertexCount, L, 0);
      } else {
        ApplyLength(colors, writes, vertexCount, L);
      }
    }
  }

  lemma {:induction false} ApplyLength(colors: map<string, LayerBuffer>, writes: seq<ColorWrite>, vertexCount: nat, L: string)
    requires Sized(colors, vertexCount) && L in Apply(colors, writes, vertexCount)
    ensures |Apply(colors, writes, vertexCount)[L].Colors| == vertexCount
  {
    if writes != [] {
      var n := |writes| - 1;
      assert writes == writes[..n] + [writes[n]];
      ApplySnoc(colors, writes[..n], writes[n], vertexCount);
      if L in Apply(colors, writes[..n], vertexCount) {
        ApplyLength(colors, writes[..n], vertexCount, L);
      }
    }
  }

  /** The allocations of vertex `v` of component `c`, in order, all at slot `slot`; allocation `j` has weight `weightOf(c, v, j)`. */
  function VertexWrites(layers: seq<string>, c: int, v: int, slot: int, weightOf: (int, int, int) -> byte): seq<ColorWrite>
    decreases |layers|
  {
    if layers == [] then []
    else
      var n := |layers| - 1;
      VertexWrites(layers[..n], c, v, slot, weightOf) + [ColorWrite(layers[n], slot, weightOf(c, v, n))]
  }

  /** The vertex writes carry its layer names. */
  lemma {:induction false} VertexWriteNames(layers: seq<string>, c: int, v: int, slot: int, weightOf: (int, int, int) -> byte)
    ensures WriteNames(VertexWrites(layers, c, v, slot, weightOf)) == LayerSet(layers)
    decreases |layers|
  {
    if layers != [] {
      var n := |layers| - 1;
      VertexWriteNames(layers[..n], c, v, slot, weightOf);
      WriteNamesAppend(VertexWrites(layers[..n], c, v, slot, weightOf), [ColorWrite(layers[n], slot, weightOf(c, v, n))]);
      assert layers == layers[..n] + [layers[n]];
      assert WriteNames([ColorWrite(layers[n], slot, weightOf(c, v, n))]) == {layers[n]};
    }
  }

  /**
   * The last write of a vertex to its slot of layer `L` is the layer's last allocation:
   * a later allocation of the same name overwrites an earlier one. No other slot is written.
   */
  lemma {:induction false} VertexLastWeight(layers: seq<string>, c: int, v: int, slot: int, weightOf: (int, int, int) -> byte,
                                            L: string, k: int)
    ensures LastWeight(VertexWrites(layers, c, v, slot, weightOf), L, k) ==
      if k == slot && L in layers then Some(weightOf(c, v, LastIndexOf(layers, L))) else None
    decreases |layers|
  {
    if layers != [] {
      var n := |layers| - 1;
      assert layers == layers[..n] + [layers[n]];
      VertexLastWeight(layers[..n], c, v, slot, weightOf, L, k);
      LastWeightSnoc(VertexWrites(layers[..n], c, v, slot, weightOf), ColorWrite(layers[n], slot, weightOf(c, v, n)), L, k);
      if layers[n] != L {
        assert L in layers <==> L in layers[..n];
      }
    }
  }

  /** Vertices `[0, n)` of component `i`, in order, vertex `v` writing slot `base + v`. */
  function ComponentWrites(comp: ExportComponent, i: int, base: int, n: nat, weightOf: (int, int, int) -> byte): seq<ColorWrite>
  {
    if n == 0 then []
    else ComponentWrites(comp, i, base, n - 1, weightOf) + VertexWrites(comp.Layers, i, n - 1, base + n - 1, weightOf)
  }

  lemma ComponentWritesSnoc(comp: ExportComponent, i: int, base: int, n: nat, weightOf: (int, int, int) -> byte)
    ensures ComponentWrites(comp, i, base, n + 1, weightOf) ==
      ComponentWrites(comp, i, base, n, weightOf) + VertexWrites(comp.Layers, i, n, base + n, weightOf)
  {
  }

  /** A component with vertices writes each of its layer names. */
  lemma {:induction false} ComponentWriteNames(comp: ExportComponent, i: int, base: int, n: nat, weightOf: (int, int, int) -> byte)
    ensures WriteNames(ComponentWrites(comp, i, base, n, weightOf)) == if n > 0 then LayerSet(comp.Layers) else {}
  {
    if n > 0 {
      ComponentWriteNames(comp, i, base, n - 1, weightOf);
      VertexWriteNames(comp.Layers, i, n - 1, base + n - 1, weightOf);
      WriteNamesAppend(ComponentWrites(comp, i, base, n - 1, weightOf), VertexWrites(comp.Layers, i, n - 1, base + n - 1, weightOf));
    }
  }

  lemma WriteNamesAppend(a: seq<ColorWrite>, b: seq<ColorWrite>)
    ensures WriteNames(a + b) == WriteNames(a) + WriteNames(b)
  {
    forall L | L in WriteNames(a + b) ensures L in WriteNames(a) + WriteNames(b) {
      var w :| w in a + b && w.Layer == L;
    }
  }

  /**
   * A component writes only its own slice: slot `base + v` of each layer it allocates gets
   * the weight of vertex `v`'s last allocation of it, and no other slot is written.
   */
  lemma {:induction false} ComponentWritesPlaced(comp: ExportComponent, i: int, base: int, n: nat, weightOf: (int, int, int) -> byte,
                                                 L: string, k: int)
    ensures LastWeight(ComponentWrites(comp, i, base, n, weightOf), L, k) ==
      if base <= k < base + n && L in comp.Layers then Some(weightOf(i, k - base, LastIndexOf(comp.Layers, L))) else None
  {
    if n > 0 {
      var a := ComponentWrites(comp, i, base, n - 1, weightOf);
      var b := VertexWrites(comp.Layers, i, n - 1, base + n - 1, weightOf);
      ComponentWritesPlaced(comp, i, base, n - 1, weightOf, L, k);
      VertexLastWeight(comp.Layers, i, n - 1, base + n - 1, weightOf, L, k);
      LastWeightAppend(a, b, L, k);
    }
  }

  /** A component writes nothing outside its slice. */
  lemma ComponentWritesOutside(comp: ExportComponent, i: int, base: int, n: nat, weightOf: (int, int, int) -> byte,
                               L: string, k: int)
    requires !(base <= k < base + n)
    ensures LastWeight(ComponentWrites(comp, i, base, n, weightOf), L, k) == None
  {
    ComponentWritesPlaced(comp, i, base, n, weightOf, L, k);
  }

  /** Components `[0, i)`, in order, component `c` writing the slice that starts at `c * V`. */
  function MeshWrites(cs: seq<ExportComponent>, perComponent: nat, weightOf: (int, int, int) -> byte, i: nat): seq<ColorWrite>
    requires i <= |cs|
  {
    if i == 0 then []
    else MeshWrites(cs, perComponent, weightOf, i - 1) + ComponentWrites(cs[i - 1], i - 1, Slot(i - 1, 0, perComponent), perComponent, weightOf)
  }

  /** The layer names written are those the components allocate, or none when components have no vertices. */
  lemma {:induction false} MeshWriteNames(cs: seq<ExportComponent>, perComponent: nat, weightOf: (int, int, int) -> byte, i: nat)
    requires i <= |cs|
    ensures WriteNames(MeshWrites(cs, perComponent, weightOf, i)) == if perComponent > 0 then LayersBefore(cs, i) else {}
  {
    if i > 0 {
      var a := MeshWrites(cs, perComponent, weightOf, i - 1);
      var b := ComponentWrites(cs[i - 1], i - 1, Slot(i - 1, 0, perComponent), perComponent, weightOf);
      MeshWriteNames(cs, perComponent, weightOf, i - 1);
      ComponentWriteNames(cs[i - 1], i - 1, Slot(i - 1, 0, perComponent), perComponent, weightOf);
      ghost var x, y := WriteNames(a), WriteNames(b);
      assert x == if perComponent > 0 then LayersBefore(cs, i - 1) else {};
      assert y == if perComponent > 0 then LayerSet(cs[i - 1].Layers) else {};
      UnionWhen(x, y, LayersBefore(cs, i - 1), LayerSet(cs[i - 1].Layers), perComponent > 0);
      assert MeshWrites(cs, perComponent, weightOf, i) == a + b;
      WriteNamesAppend(a, b);
    }
  }

  lemma UnionWhen(x: set<string>, y: set<string>, a: set<string>, b: set<string>, p: bool)
    requires x == (if p then a else {}) && y == (if p then b else {})
    ensures x + y == if p then a + b else {}
  {
  }

  /** No slot of the components still to come is written. */
  lemma {:induction false} MeshWritesTail(cs: seq<ExportComponent>, perComponent: nat, weightOf: (int, int, int) -> byte,
                                          i: nat, L: string, k: int)
    requires i <= |cs| && Slot(i, 0, perComponent) <= k
    ensures LastWeight(MeshWrites(cs, perComponent, weightOf, i), L, k) == None
  {
    if i > 0 {
      var base := Slot(i - 1, 0, perComponent);
      var a := MeshWrites(cs, perComponent, weightOf, i - 1);
      var b := ComponentWrites(cs[i - 1], i - 1, base, perComponent, weightOf);
      assert MeshWrites(cs, perComponent, weightOf, i) == a + b;
      SlotPrev(i, perComponent);
      MeshWritesTail(cs, perComponent, weightOf, i - 1, L, k);
      ComponentWritesOutside(cs[i - 1], i - 1, base, perComponent, weightOf, L, k);
      LastWeightAppend(a, b, L, k);
    }
  }

  /**
   * The last write to slot `c*V + w` of layer `L` carries component `c`'s weight from its
   * last allocation of `L` at vertex `w`; there is none when `c` does not allocate `L`.
   */
  lemma {:induction false} MeshLastWeight(cs: seq<ExportComponent>, perComponent: nat, weightOf: (int, int, int) -> byte,
                                          i: nat, L: string, c: int, w: int)
    requires i <= |cs| && 0 <= c < i && 0 <= w < perComponent
    ensures LastWeight(MeshWrites(cs, perComponent, weightOf, i), L, Slot(c, w, perComponent)) ==
      if L in cs[c].Layers then Some(weightOf(c, w, LastIndexOf(cs[c].Layers, L))) else None
  {
    if c == i - 1 {
      MeshLastWeightOwn(cs, perComponent, weightOf, i, L, c, w);
    } else {
      var base := Slot(i - 1, 0, perComponent);
      var k := Slot(c, w, perComponent);
      var a := MeshWrites(cs, perComponent, weightOf, i - 1);
      var b := ComponentWrites(cs[i - 1], i - 1, base, perComponent, weightOf);
      assert MeshWrites(cs, perComponent, weightOf, i) == a + b;
      LastWeightAppend(a, b, L, k);
      SlotBefore(c, w, i - 1, perComponent);
      ComponentWritesOutside(cs[i - 1], i - 1, base, perComponent, weightOf, L, k);
      MeshLastWeight(cs, perComponent, weightOf, i - 1, L, c, w);
    }
  }

  /** `MeshLastWeight` right after component `c`: its own writes are the last to its slice. */
  lemma MeshLastWeightOwn(cs: seq<ExportComponent>, perComponent: nat, weightOf: (int, int, int) -> byte,
                          i: nat, L: string, c: int, w: int)
    requires i <= |cs| && c == i - 1 && 0 <= c && 0 <= w < perComponent
    ensures LastWeight(MeshWrites(cs, perComponent, weightOf, i), L, Slot(c, w, perComponent)) ==
      if L in cs[c].Layers then Some(weightOf(c, w, LastIndexOf(cs[c].Layers, L))) else None
  {
    var k, base := Slot(c, w, perComponent), Slot(c, 0, perComponent);
    var a := MeshWrites(cs, perComponent, weightOf, c);
    var b := ComponentWrites(cs[c], c, base, perComponent, weightOf);
    assert MeshWrites(cs, perComponent, weightOf, i) == a + b;
    LastWeightAppend(a, b, L, k);
    SlotOffset(c, w, perComponent);
    assert base <= k < base + perComponent && k - base == w;
    ComponentWritesPlaced(cs[c], c, base, perComponent, weightOf, L, k);
    if L !in cs[c].Layers {
      MeshWritesTail(cs, perComponent, weightOf, c, L, k);
    }
  }

  /**
   * The colour buffers after every component: one per layer the components allocate
   * (none when components have no vertices), each of `VertexCount` slots under its short
   * name, slot `c*V + w` holding the expected colour.
   */
  lemma MeshColors(cs: seq<ExportComponent>, perComponent: nat, vertexCount: nat, weightOf: (int, int, int) -> byte, L: string)
    requires vertexCount == Slot(|cs|, 0, perComponent)
    ensures var colors := Apply(map[], MeshWrites(cs, perComponent, weightOf, |cs|), vertexCount);
      (L in colors <==> perComponent > 0 && L in LayersOf(cs)) &&
      (L in colors ==> colors[L].ShortName == ShortName(L) && |colors[L].Colors| == vertexCount)
    ensures var colors := Apply(map[], MeshWrites(cs, perComponent, weightOf, |cs|), vertexCount);
      forall c, w :: L in colors && 0 <= c < |cs| && 0 <= w < perComponent ==>
        0 <= Slot(c, w, perComponent) < vertexCount &&
        colors[L].Colors[Slot(c, w, perComponent)] == ExpectedColor(cs, weightOf, c, w, L)
  {
    var writes := MeshWrites(cs, perComponent, weightOf, |cs|);
    var colors := Apply(map[], writes, vertexCount);
    ApplyKeys(map[], writes, vertexCount);
    MeshWriteNames(cs, perComponent, weightOf, |cs|);
    LayersBeforeAll(cs, |cs|);
    assert cs[..|cs|] == cs;
    if L in colors {
      ApplyName(map[], writes, vertexCount, L);
      ApplyLength(map[], writes, vertexCount, L);
      forall c, w | 0 <= c < |cs| && 0 <= w < perComponent
        ensures 0 <= Slot(c, w, perComponent) < vertexCount
        ensures colors[L].Colors[Slot(c, w, perComponent)] == ExpectedColor(cs, weightOf, c, w, L)
      {
        SlotBefore(c, w, |cs|, perComponent);
        ApplyColor(map[], writes, vertexCount, L, Slot(c, w, perComponent));
        MeshLastWeight(cs, perComponent, weightOf, |cs|, L, c, w);
      }
    }
  }

  /**
   * One allocation (LandscapeExporter.cs:273-278, 284): the first time a layer is met, it
   * gets a raster of the landscape's size and a buffer of default colours under its short
   * name; the allocation then writes its grey to the vertex's slot.
   */
  method WriteLayer(colors: map<string, LayerBuffer>, rasters: map<string, Raster>, layerName: string,
                    slot: int, weight: byte, vertexCount: nat, width: int32, height: int32)
    returns (colors': map<string, LayerBuffer>, rasters': map<string, Raster>)
    requires 0 <= slot < vertexCount && Sized(colors, vertexCount)
    requires rasters == RasterMap(colors.Keys, width, height)
    ensures colors' == AddLayerWeight(colors, ColorWrite(layerName, slot, weight), vertexCount)
    ensures Sized(colors', vertexCount) && rasters' == RasterMap(colors'.Keys, width, height)
  {
    rasters' := rasters;
    if layerName !in rasters' {
      rasters' := rasters'[layerName := Raster(width, height)];
    }
    var buffer;
    if layerName in colors {
      buffer := colors[layerName];
    } else {
      buffer := LayerBuffer(ShortName(layerName), seq(vertexCount, _ => DEFAULT_COLOR));
    }
    colors' := colors[layerName := buffer.(Colors := buffer.Colors[slot := Gray(weight)])];
    AddLayerWeightSized(colors, ColorWrite(layerName, slot, weight), vertexCount);
    RasterMapAdd(colors.Keys, layerName, width, height);
  }

  /**
   * The allocation loop of one vertex (LandscapeExporter.cs:260-289), with the vertex's
   * weights given by `weightOf(c, v, j)`: every allocation in order, each by `WriteLayer`.
   */
  method WriteVertexLayers(colors: map<string, LayerBuffer>, rasters: map<string, Raster>, layers: seq<string>,
                           c: int, v: int, slot: int, vertexCount: nat, width: int32, height: int32,
                           weightOf: (int, int, int) -> byte)
    returns (colors': map<string, LayerBuffer>, rasters': map<string, Raster>)
    requires 0 <= slot < vertexCount && Sized(colors, vertexCount)
    requires rasters == RasterMap(colors.Keys, width, height)
    ensures colors' == Apply(colors, VertexWrites(layers, c, v, slot, weightOf), vertexCount)
    ensures Sized(colors', vertexCount) && rasters' == RasterMap(colors'.Keys, width, height)
  {
    colors', rasters' := colors, rasters;
    var j := 0;
    while j < |layers|
      invariant 0 <= j <= |layers|
      invariant colors' == Apply(colors, VertexWrites(layers[..j], c, v, slot, weightOf), vertexCount)
      invariant Sized(colors', vertexCount)
      invariant rasters' == RasterMap(colors'.Keys, width, height)
    {
      var layerName := layers[j];
      var weight := weightOf(c, v, j);
      colors', rasters' := WriteLayer(colors', rasters', layerName, slot, weight, vertexCount, width, height);
      ghost var write := ColorWrite(layerName, slot, weight);
      assert layers[..j + 1][..j] == layers[..j];
      assert VertexWrites(layers[..j + 1], c, v, slot, weightOf) == VertexWrites(layers[..j], c, v, slot, weightOf) + [write];
      ApplySnoc(colors, VertexWrites(layers[..j], c, v, slot, weightOf), write, vertexCount);
      j := j + 1;
    }
    assert layers[..|layers|] == layers;
  }

  /** `s` with slot `base + v` set to `f(v)` for every `v` below `n`, in increasing order. */
  function Fill<T>(s: seq<T>, base: int, n: nat, f: int -> T): (r: seq<T>)
    requires 0 <= base && base + n <= |s|
    ensures |r| == |s|
  {
    if n == 0 then s else Fill(s, base, n - 1, f)[base + n - 1 := f(n - 1)]
  }

  /** A filled slice holds `f`'s values; every slot outside it is unchanged. */
  lemma {:induction false} FillAt<T>(s: seq<T>, base: int, n: nat, f: int -> T, k: int)
    requires 0 <= base && base + n <= |s| && 0 <= k < |s|
    ensures Fill(s, base, n, f)[k] == if base <= k < base + n then f(k - base) else s[k]
  {
    if n > 0 {
      FillAt(s, base, n - 1, f, k);
    }
  }

  /**
   * One pass of a component task's loop (LandscapeExporter.cs:235-294): vertex `v` of
   * component `c` writes its layer greys, then itself and its weight-map UV, all at slot
   * `base + v`. The buffers then hold what the component's first `v + 1` vertices write
   * over `start`, given that they held what its first `v` vertices write.
   */
  method FillVertex(comp: ExportComponent, c: int, base: int, v: nat,
                    verts: array<Option<CMeshVertex>>, uvs: array<FMeshUVFloat>,
                    colors: map<string, LayerBuffer>, rasters: map<string, Raster>, vertexCount: nat, width: int32, height: int32,
                    vertexOf: (int, int) -> CMeshVertex, uvOf: (int, int) -> FMeshUVFloat, weightOf: (int, int, int) -> byte,
                    ghost start: map<string, LayerBuffer>)
    returns (colors': map<string, LayerBuffer>, rasters': map<string, Raster>)
    requires 0 <= base + v < vertexCount && verts.Length == vertexCount && uvs.Length == vertexCount
    requires Sized(colors, vertexCount) && rasters == RasterMap(colors.Keys, width, height)
    requires colors == Apply(start, ComponentWrites(comp, c, base, v, weightOf), vertexCount)
    modifies verts, uvs
    ensures colors' == Apply(start, ComponentWrites(comp, c, base, v + 1, weightOf), vertexCount)
    ensures Sized(colors', vertexCount) && rasters' == RasterMap(colors'.Keys, width, height)
    ensures verts[..] == old(verts[..])[base + v := Some(vertexOf(c, v))]
    ensures uvs[..] == old(uvs[..])[base + v := uvOf(c, v)]
  {
    var slot := base + v;
    colors', rasters' := WriteVertexLayers(colors, rasters, comp.Layers, c, v, slot, vertexCount, width, height, weightOf);
    verts[slot] := Some(vertexOf(c, v));
    uvs[slot] := uvOf(c, v);
    ComponentWritesSnoc(comp, c, base, v, weightOf);
    ApplyAppend(start, ComponentWrites(comp, c, base, v, weightOf), VertexWrites(comp.Layers, c, v, slot, weightOf), vertexCount);
  }

  /**
   * One component's task (LandscapeExporter.cs:234-296), run to completion. For every `v`
   * below `V`, it writes vertex `v`, its weight-map UV and its layer greys to slot
   * `base + v`. It writes nothing outside its slice.
   */
  method FillComponent(comp: ExportComponent, i: int, base: int, perComponent: nat, vertexCount: nat,
                       verts: array<Option<CMeshVertex>>, uvs: array<FMeshUVFloat>,
                       colors: map<string, LayerBuffer>, rasters: map<string, Raster>, width: int32, height: int32,
                       vertexOf: (int, int) -> CMeshVertex, uvOf: (int, int) -> FMeshUVFloat, weightOf: (int, int, int) -> byte,
                       ghost start: map<string, LayerBuffer>, ghost earlier: seq<ColorWrite>)
    returns (colors': map<string, LayerBuffer>, rasters': map<string, Raster>)
    requires 0 <= base && base + perComponent <= vertexCount
    requires verts.Length == vertexCount && uvs.Length == vertexCount
    requires Sized(colors, vertexCount) && rasters == RasterMap(colors.Keys, width, height)
    requires colors == Apply(start, earlier, vertexCount)
    modifies verts, uvs
    ensures verts[..] == Fill(old(verts[..]), base, perComponent, v => Some(vertexOf(i, v)))
    ensures uvs[..] == Fill(old(uvs[..]), base, perComponent, v => uvOf(i, v))
    ensures colors' == Apply(start, earlier + ComponentWrites(comp, i, base, perComponent, weightOf), vertexCount)
    ensures Sized(colors', vertexCount) && rasters' == RasterMap(colors'.Keys, width, height)
  {
    colors', rasters' := colors, rasters;
    var vertIndex := 0;
    while vertIndex < perComponent
      invariant 0 <= vertIndex <= perComponent
      invariant verts[..] == Fill(old(verts[..]), base, vertIndex, v => Some(vertexOf(i, v)))
      invariant uvs[..] == Fill(old(uvs[..]), base, vertIndex, v => uvOf(i, v))
      invariant colors' == Apply(colors, ComponentWrites(comp, i, base, vertIndex, weightOf), vertexCount)
      invariant Sized(colors', vertexCount) && rasters' == RasterMap(colors'.Keys, width, height)
    {
      colors', rasters' := FillVertex(comp, i, base, vertIndex, verts, uvs, colors', rasters', vertexCount, width, height,
                                      vertexOf, uvOf, weightOf, colors);
      vertIndex := vertIndex + 1;
    }
    ApplyAppend(start, earlier, ComponentWrites(comp, i, base, perComponent, weightOf), vertexCount);
  }

  // ---------------------------------------------------------------------------------------
  // Index buffer
  // ---------------------------------------------------------------------------------------

  /** How many quads a side the loops `for (Y = 0; Y < csq; Y++)` visit. */
  function QuadsPerSide(csq: int): nat
  {
    if csq > 0 then csq else 0
  }

  /** The vertex slot of local position (x, y) in the component whose slice starts at `base`. */
  function Corner(base: int, row: int, x: int, y: int): int
  {
    base + Access.XYToVertexIndex(x, y, row)
  }

  /** The six indices of quad (x, y): triangles (x,y),(x+1,y+1),(x+1,y) and (x,y),(x,y+1),(x+1,y+1). */
  function Quad(base: int, row: int, x: int, y: int): seq<int>
  {
    [Corner(base, row, x, y), Corner(base, row, x + 1, y + 1), Corner(base, row, x + 1, y),
     Corner(base, row, x, y), Corner(base, row, x, y + 1), Corner(base, row, x + 1, y + 1)]
  }

  /** The quads `X < xs` of row `y`, in loop order. */
  function RowQuads(base: int, csq: int, y: int, xs: nat): seq<int>
  {
    if xs == 0 then [] else RowQuads(base, csq, y, xs - 1) + Quad(base, csq + 1, xs - 1, y)
  }

  /** The rows `Y < ys` of one component, in loop order. */
  function ComponentQuads(base: int, csq: int, ys: nat): seq<int>
  {
    if ys == 0 then [] else ComponentQuads(base, csq, ys - 1) + RowQuads(base, csq, ys - 1, QuadsPerSide(csq))
  }

  /** The components `componentIndex < cs`, in loop order. */
  function MeshQuads(csq: int, cs: nat): seq<int>
  {
    if cs == 0 then []
    else MeshQuads(csq, cs - 1) + ComponentQuads(Slot(cs - 1, 0, VertsPerComponent(csq)), csq, QuadsPerSide(csq))
  }

  /** The index loops (LandscapeExporter.cs:321-359), as a list of 32-bit indices. */
  method BuildIndices(n: nat, csq: int) returns (indices: seq<int>)
    ensures indices == MeshQuads(csq, n)
  {
    var perComponent := VertsPerComponent(csq);
    indices := [];
    var componentIndex := 0;
    while componentIndex < n
      invariant 0 <= componentIndex <= n
      invariant indices == MeshQuads(csq, componentIndex)
    {
      var baseVertIndex := componentIndex * perComponent;
      TimesIsProduct(componentIndex, perComponent);
      indices := AppendComponentQuads(indices, baseVertIndex, csq);
      componentIndex := componentIndex + 1;
    }
  }

  /** The `Y` loop of one component (LandscapeExporter.cs:327-356). */
  method AppendComponentQuads(indices: seq<int>, baseVertIndex: int, csq: int) returns (indices': seq<int>)
    ensures indices' == indices + ComponentQuads(baseVertIndex, csq, QuadsPerSide(csq))
  {
    indices' := indices;
    var y := 0;
    while y < csq
      invariant 0 <= y <= QuadsPerSide(csq)
      invariant indices' == indices + ComponentQuads(baseVertIndex, csq, y)
    {
      indices' := AppendRowQuads(indices', baseVertIndex, csq, y);
      y := y + 1;
    }
  }

  /** The `X` loop of row `y` (LandscapeExporter.cs:329-355): two triangles per quad. */
  method AppendRowQuads(indices: seq<int>, baseVertIndex: int, csq: int, y: int) returns (indices': seq<int>)
    ensures indices' == indices + RowQuads(baseVertIndex, csq, y, QuadsPerSide(csq))
  {
    indices' := indices;
    var x := 0;
    while x < csq
      invariant 0 <= x <= QuadsPerSide(csq)
      invariant indices' == indices + RowQuads(baseVertIndex, csq, y, x)
    {
      var w1 := baseVertIndex + (x + 0) + (y + 0) * (csq + 1);
      var w2 := baseVertIndex + (x + 1) + (y + 1) * (csq + 1);
      var w3 := baseVertIndex + (x + 1) + (y + 0) * (csq + 1);
      indices' := indices' + [w1, w2, w3];
      var w4 := baseVertIndex + (x + 0) + (y + 0) * (csq + 1);
      var w5 := baseVertIndex + (x + 0) + (y + 1) * (csq + 1);
      var w6 := baseVertIndex + (x + 1) + (y + 1) * (csq + 1);
      indices' := indices' + [w4, w5, w6];
      assert [w1, w2, w3] + [w4, w5, w6] == Quad(baseVertIndex, csq + 1, x, y);
      x := x + 1;
    }
  }

  lemma {:induction false} RowQuadsLength(base: int, csq: int, y: int, xs: nat)
    ensures |RowQuads(base, csq, y, xs)| == 6 * xs
  {
    if xs > 0 {
      RowQuadsLength(base, csq, y, xs - 1);
    }
  }

  lemma {:induction false} ComponentQuadsLength(base: int, csq: int, ys: nat)
    ensures |ComponentQuads(base, csq, ys)| == 6 * Times(ys, QuadsPerSide(csq))
  {
    if ys > 0 {
      ComponentQuadsLength(base, csq, ys - 1);
      RowQuadsLength(base, csq, ys - 1, QuadsPerSide(csq));
    }
  }

  /** `Q`: the quads of one component, `QuadsPerSide` squared. */
  function ComponentQuadCount(csq: int): nat
  {
    TimesIsProduct(QuadsPerSide(csq), QuadsPerSide(csq));
    Times(QuadsPerSide(csq), QuadsPerSide(csq))
  }

  lemma {:induction false} MeshQuadsLength(csq: int, cs: nat)
    ensures |MeshQuads(csq, cs)| == 6 * Times(cs, ComponentQuadCount(csq))
  {
    if cs > 0 {
      MeshQuadsLength(csq, cs - 1);
      ComponentQuadsLength(Slot(cs - 1, 0, VertsPerComponent(csq)), csq, QuadsPerSide(csq));
    }
  }

  /** The index buffer holds six indices per quad: exactly `TriangleCount * 3` when the component size is not negative. */
  lemma IndexCount(n: nat, csq: int)
    ensures |MeshQuads(csq, n)| == 6 * (n * (QuadsPerSide(csq) * QuadsPerSide(csq)))
    ensures csq >= 0 ==> |MeshQuads(csq, n)| == 3 * TriangleCount(n, csq)
  {
    var q := QuadsPerSide(csq);
    MeshQuadsLength(csq, n);
    TimesIsProduct(q, q);
    TimesIsProduct(n, ComponentQuadCount(csq));
    assert ComponentQuadCount(csq) == q * q;
    if csq >= 0 {
      assert q == csq;
      TriangleIndices(n, csq);
    }
  }

  /** Three indices per triangle, two triangles per quad. */
  lemma TriangleIndices(n: nat, csq: int)
    ensures 3 * TriangleCount(n, csq) == 6 * (n * (csq * csq))
  {
  }

  /** A corner of a quad inside the component lies in the component's slice. */
  lemma CornerInSlice(base: int, row: int, x: int, y: int)
    requires 0 <= x < row && 0 <= y < row
    ensures base <= Corner(base, row, x, y) < base + row * row
  {
    Access.XYRoundTrip(x, y, row);
  }

  /**
   * Every index names the vertex that the fill loop wrote for that local position:
   * `VertexIndexToXY` of the index's offset in its slice gives the corner's (x, y) back.
   */
  lemma CornerNamesVertex(base: int, row: int, x: int, y: int)
    requires 0 <= x < row && 0 <= y < row
    ensures Access.VertexIndexToXY(Corner(base, row, x, y) - base, row) == (x, y)
  {
    Access.XYRoundTrip(x, y, row);
  }

  /** The corners of a quad inside the component lie in the component's slice. */
  lemma QuadInSlice(base: int, row: int, x: int, y: int)
    requires 0 <= x && x + 1 < row && 0 <= y && y + 1 < row
    ensures forall j :: 0 <= j < 6 ==> base <= Quad(base, row, x, y)[j] < base + VertsPerComponent(row - 1)
  {
    CornerInSlice(base, row, x, y);
    CornerInSlice(base, row, x + 1, y + 1);
    CornerInSlice(base, row, x + 1, y);
    CornerInSlice(base, row, x, y + 1);
  }

  lemma {:induction false} RowQuadsInSlice(base: int, csq: int, y: int, xs: nat)
    requires 0 <= y < csq && xs <= csq
    ensures forall j :: 0 <= j < |RowQuads(base, csq, y, xs)| ==>
      base <= RowQuads(base, csq, y, xs)[j] < base + VertsPerComponent(csq)
  {
    if xs > 0 {
      RowQuadsInSlice(base, csq, y, xs - 1);
      QuadInSlice(base, csq + 1, xs - 1, y);
    }
  }

  lemma {:induction false} ComponentQuadsInSlice(base: int, csq: int, ys: nat)
    requires ys <= QuadsPerSide(csq)
    ensures forall j :: 0 <= j < |ComponentQuads(base, csq, ys)| ==>
      base <= ComponentQuads(base, csq, ys)[j] < base + VertsPerComponent(csq)
  {
    if ys > 0 {
      ComponentQuadsInSlice(base, csq, ys - 1);
      RowQuadsInSlice(base, csq, ys - 1, QuadsPerSide(csq));
    }
  }

  lemma {:induction false} MeshQuadsBelow(csq: int, cs: nat)
    ensures forall j :: 0 <= j < |MeshQuads(csq, cs)| ==> 0 <= MeshQuads(csq, cs)[j] < Slot(cs, 0, VertsPerComponent(csq))
  {
    if cs > 0 {
      var perComponent := VertsPerComponent(csq);
      MeshQuadsBelow(csq, cs - 1);
      ComponentQuadsInSlice(Slot(cs - 1, 0, perComponent), csq, QuadsPerSide(csq));
      SlotPrev(cs, perComponent);
      TimesMono(0, cs - 1, perComponent);
    }
  }

  /** Every index lies below `VertexCount`: it names a vertex some component wrote. */
  lemma IndicesInRange(csq: int, cs: nat)
    ensures forall j :: 0 <= j < |MeshQuads(csq, cs)| ==> 0 <= MeshQuads(csq, cs)[j] < VertexCount(cs, csq)
  {
    MeshQuadsBelow(csq, cs);
    TimesIsProduct(cs, VertsPerComponent(csq));
  }

  lemma {:induction false} MeshQuadsPrefix(csq: int, i: nat, n: nat)
    requires i <= n
    ensures MeshQuads(csq, i) <= MeshQuads(csq, n)
  {
    if i < n {
      MeshQuadsPrefix(csq, i, n - 1);
    }
  }

  /**
   * Component `i`'s indices occupy positions `[6*i*Q, 6*(i+1)*Q)` of the buffer, where `Q`
   * is the number of quads per component (`Times` is the product). Each of them lies in
   * the component's own vertex slice.
   */
  lemma ComponentIndicesPlaced(n: nat, csq: int, i: nat)
    requires i < n
    ensures var lo, hi := 6 * Times(i, ComponentQuadCount(csq)), 6 * Times(i + 1, ComponentQuadCount(csq));
      var mesh := MeshQuads(csq, n);
      0 <= lo <= hi <= |mesh| && mesh[lo .. hi] == ComponentQuads(Slot(i, 0, VertsPerComponent(csq)), csq, QuadsPerSide(csq))
    ensures var lo, hi := 6 * Times(i, ComponentQuadCount(csq)), 6 * Times(i + 1, ComponentQuadCount(csq));
      forall j :: lo <= j < hi ==>
        Slot(i, 0, VertsPerComponent(csq)) <= MeshQuads(csq, n)[j] < Slot(i + 1, 0, VertsPerComponent(csq))
  {
    var base := Slot(i, 0, VertsPerComponent(csq));
    var comp := ComponentQuads(base, csq, QuadsPerSide(csq));
    TimesMono(i, i + 1, ComponentQuadCount(csq));
    MeshQuadsPrefix(csq, i + 1, n);
    MeshQuadsLength(csq, i);
    MeshQuadsLength(csq, i + 1);
    ComponentQuadsInSlice(base, csq, QuadsPerSide(csq));
    SlotNext(i, VertsPerComponent(csq));
    var mesh := MeshQuads(csq, n);
    var upto := MeshQuads(csq, i + 1);
    var lo, hi := 6 * Times(i, ComponentQuadCount(csq)), 6 * Times(i + 1, ComponentQuadCount(csq));
    assert upto == MeshQuads(csq, i) + comp;
    assert |MeshQuads(csq, i)| == lo && |upto| == hi;
    SliceOfPrefix(upto, mesh, lo, hi);
    SliceOfAppend(MeshQuads(csq, i), comp, lo, hi);
    assert comp[0 .. hi - lo] == comp;
    forall j | lo <= j < hi
      ensures base <= mesh[j] < Slot(i + 1, 0, VertsPerComponent(csq))
    {
      assert mesh[j] == comp[j - lo];
    }
  }

  lemma {:induction false} RowQuadsPrefix(base: int, csq: int, y: int, x: nat, xs: nat)
    requires x <= xs
    ensures RowQuads(base, csq, y, x) <= RowQuads(base, csq, y, xs)
  {
    if x < xs {
      RowQuadsPrefix(base, csq, y, x, xs - 1);
    }
  }

  lemma {:induction false} ComponentQuadsPrefix(base: int, csq: int, y: nat, ys: nat)
    requires y <= ys
    ensures ComponentQuads(base, csq, y) <= ComponentQuads(base, csq, ys)
  {
    if y < ys {
      ComponentQuadsPrefix(base, csq, y, ys - 1);
    }
  }

  /** A slice of the second half of a concatenation. */
  lemma SliceOfAppend(a: seq<int>, b: seq<int>, i: int, j: int)
    requires |a| <= i <= j <= |a| + |b|
    ensures (a + b)[i .. j] == b[i - |a| .. j - |a|]
  {
  }

  /** A slice within a prefix is the prefix's slice. */
  lemma SliceOfPrefix(a: seq<int>, b: seq<int>, i: int, j: int)
    requires a <= b && 0 <= i <= j <= |a|
    ensures b[i .. j] == a[i .. j]
  {
  }

  /** Quad `x` of a row sits at positions `[6*x, 6*x + 6)` of the row's indices. */
  lemma RowQuadPlaced(base: int, csq: int, x: nat, y: int)
    requires x < csq
    ensures var row := RowQuads(base, csq, y, csq);
      6 * x + 6 <= |row| && row[6 * x .. 6 * x + 6] == Quad(base, csq + 1, x, y)
  {
    var row := RowQuads(base, csq, y, csq);
    var rowUpto := RowQuads(base, csq, y, x + 1);
    RowQuadsPrefix(base, csq, y, x + 1, csq);
    RowQuadsLength(base, csq, y, x);
    RowQuadsLength(base, csq, y, csq);
    assert rowUpto == RowQuads(base, csq, y, x) + Quad(base, csq + 1, x, y);
    assert rowUpto[6 * x .. 6 * x + 6] == Quad(base, csq + 1, x, y);
  }

  /**
   * The winding: quad (x, y) of a component sits at positions `[6*(y*csq + x), +6)` of the
   * component's indices (`Times` is the product), as the triangles (x,y),(x+1,y+1),(x+1,y)
   * and (x,y),(x,y+1),(x+1,y+1).
   */
  lemma QuadPlaced(base: int, csq: int, x: nat, y: nat)
    requires x < csq && y < csq
    ensures var comp := ComponentQuads(base, csq, csq);
      var p := 6 * Times(y, csq) + 6 * x;
      0 <= p && p + 6 <= |comp| && comp[p .. p + 6] == Quad(base, csq + 1, x, y)
  {
    assert QuadsPerSide(csq) == csq;
    TimesMono(0, y, csq);
    var comp := ComponentQuads(base, csq, csq);
    var before := ComponentQuads(base, csq, y);
    var upto := ComponentQuads(base, csq, y + 1);
    var row := RowQuads(base, csq, y, csq);
    ComponentQuadsPrefix(base, csq, y + 1, csq);
    ComponentQuadsLength(base, csq, y);
    RowQuadPlaced(base, csq, x, y);
    var r := 6 * Times(y, csq);
    var p := r + 6 * x;
    assert |before| == r;
    assert upto == before + row;
    SliceOfAppend(before, row, p, p + 6);
    SliceOfPrefix(upto, comp, p, p + 6);
  }

  /** The two triangles of a quad share the diagonal (x,y)-(x+1,y+1) and together use its four corners. */
  lemma QuadCoversCell(base: int, row: int, x: int, y: int)
    requires 0 <= x && x + 1 < row && 0 <= y && y + 1 < row
    ensures var q := Quad(base, row, x, y);
      q[0] == q[3] && q[1] == q[5] &&
      {q[0], q[1], q[2], q[4]} == {Corner(base, row, x, y), Corner(base, row, x + 1, y), Corner(base, row, x, y + 1), Corner(base, row, x + 1, y + 1)} &&
      |{q[0], q[1], q[2], q[4]}| == 4
  {
    var a, b, c, d := Corner(base, row, x, y), Corner(base, row, x + 1, y), Corner(base, row, x, y + 1), Corner(base, row, x + 1, y + 1);
    assert b == a + 1 && d == c + 1;
    assert c == a + row by {
      assert (y + 1) * row == y * row + row;
    }
    assert |{a, d, b, c}| == 4;
  }

  // ---------------------------------------------------------------------------------------
  // Colour buffers of the LOD
  // ---------------------------------------------------------------------------------------

  /**
   * `ExtraVertexColorMap.Values.ToArray()`: one `CVertexColor` per layer, in an order the
   * dictionary does not specify (`order` records it). Each buffer is a new array holding
   * the layer's colours under its short name.
   */
  method ColorBuffers(colors: map<string, LayerBuffer>) returns (buffers: seq<CVertexColor>, ghost order: seq<string>)
    ensures |order| == |buffers| == |colors.Keys|
    ensures forall L :: L in colors <==> L in order
    ensures forall j, m :: 0 <= j < m < |order| ==> order[j] != order[m]
    ensures forall j :: 0 <= j < |buffers| ==>
      order[j] in colors && fresh(buffers[j].Colors) &&
      buffers[j].Name == colors[order[j]].ShortName && buffers[j].Colors[..] == colors[order[j]].Colors
    ensures forall j, m :: 0 <= j < m < |buffers| ==> buffers[j].Colors != buffers[m].Colors
  {
    buffers, order := [], [];
    var remaining := colors.Keys;
    while remaining != {}
      invariant remaining <= colors.Keys
      invariant |order| == |buffers|
      invariant forall L :: L in colors ==> (L in order <==> L !in remaining)
      invariant forall L :: L in order ==> L in colors
      invariant forall j, m :: 0 <= j < m < |order| ==> order[j] != order[m]
      invariant |order| + |remaining| == |colors.Keys|
      invariant forall j :: 0 <= j < |buffers| ==>
        order[j] in colors && fresh(buffers[j].Colors) &&
        buffers[j].Name == colors[order[j]].ShortName && buffers[j].Colors[..] == colors[order[j]].Colors
      invariant forall j, m :: 0 <= j < m < |buffers| ==> buffers[j].Colors != buffers[m].Colors
      decreases |remaining|
    {
      var L :| L in remaining;
      var layer := colors[L];
      var colorArray := new FColor[|layer.Colors|](k requires 0 <= k < |layer.Colors| => layer.Colors[k]);
      assert colorArray[..] == layer.Colors;
      buffers := buffers + [CVertexColor(layer.ShortName, colorArray)];
      order := order + [L];
      remaining := remaining - {L};
    }
    assert forall L :: L in colors <==> L in order;
  }

  // ---------------------------------------------------------------------------------------
  // Weight-map pixels
  // ---------------------------------------------------------------------------------------

  /** The landscape position of local vertex (x, y) of a tile. */
  function LandscapePosition(tile: Footprint, x: int, y: int): (int, int)
  {
    (tile.SectionBaseX + x, tile.SectionBaseY + y)
  }

  /**
   * The pixel the source sets for local vertex (x, y): `(vertX * ScaleFactor, vertY *
   * ScaleFactor)` with the factor 1. This is the component-local position, so it does
   * not depend on the tile.
   */
  function WeightPixel(tile: Footprint, x: int, y: int): (p: (int, int))
    ensures p == (x, y)
  {
    (x, y)
  }

  /** The pixel of the vertex in the landscape-wide raster: its landscape position less the box's corner. */
  function WeightPixelCorrected(box: Extent, tile: Footprint, x: int, y: int): (p: (int, int))
    ensures p.0 - x == tile.SectionBaseX - box.MinX && p.1 - y == tile.SectionBaseY - box.MinY
  {
    var pos := LandscapePosition(tile, x, y);
    (pos.0 - box.MinX, pos.1 - box.MinY)
  }

  /**
   * As written, two vertices at different landscape positions share a pixel. Vertex (1, 0)
   * of the tile at the origin and vertex (1, 0) of its right neighbour both set pixel
   * (1, 0), so the raster keeps only the later component's weight. The corrected pixels
   * are distinct.
   */
  lemma WeightPixelsCollide()
    ensures var t1, t2 := Footprint(0, 0, 7), Footprint(7, 0, 7);
      var box := Fold(EmptyExtent, [t1, t2]);
      LandscapePosition(t1, 1, 0) != LandscapePosition(t2, 1, 0) &&
      WeightPixel(t1, 1, 0) == WeightPixel(t2, 1, 0) &&
      WeightPixelCorrected(box, t1, 1, 0) != WeightPixelCorrected(box, t2, 1, 0)
  {
  }

  /**
   * The corrected pixel of every vertex of every tile lies inside the raster of
   * `RasterSpan` pixels a side, provided no far corner and no raster edge wraps. Distinct
   * landscape positions get distinct pixels.
   */
  lemma CorrectedPixelInRaster(tiles: seq<Footprint>, t: Footprint, x: int, y: int)
    requires t in tiles && 0 <= t.ComponentSizeQuads
    requires 0 <= x <= t.ComponentSizeQuads && 0 <= y <= t.ComponentSizeQuads
    requires forall f :: f in tiles ==> f.SectionBaseX + f.ComponentSizeQuads < TWO_31 && f.SectionBaseY + f.ComponentSizeQuads < TWO_31
    requires var box := Fold(EmptyExtent, tiles); box.MaxX - box.MinX + 1 < TWO_31 && box.MaxY - box.MinY + 1 < TWO_31
    ensures var box := Fold(EmptyExtent, tiles); var p := WeightPixelCorrected(box, t, x, y);
      0 <= p.0 < RasterSpan(box.MinX, box.MaxX) && 0 <= p.1 < RasterSpan(box.MinY, box.MaxY)
  {
    FoldBounds(EmptyExtent, tiles);
    var box := Fold(EmptyExtent, tiles);
    assert FarCorner(t.SectionBaseX, t.ComponentSizeQuads) == t.SectionBaseX + t.ComponentSizeQuads;
    assert FarCorner(t.SectionBaseY, t.ComponentSizeQuads) == t.SectionBaseY + t.ComponentSizeQuads;
  }

  // ---------------------------------------------------------------------------------------
  // The exporter
  // ---------------------------------------------------------------------------------------

  /**
   * The component size `_componentSize` ends with when it starts at -1: the first
   * component size that is not -1, or -1 when every component has size -1.
   */
  function FirstSize(cs: seq<ExportComponent>): (r: int32)
    ensures r == -1 <==> forall j :: 0 <= j < |cs| ==> cs[j].Tile.ComponentSizeQuads == -1
    ensures r != -1 ==> exists j :: 0 <= j < |cs| && cs[j].Tile.ComponentSizeQuads == r
  {
    if cs == [] then -1
    else if cs[0].Tile.ComponentSizeQuads != -1 then cs[0].Tile.ComponentSizeQuads
    else
      var r := FirstSize(cs[1..]);
      assert forall j :: 1 <= j < |cs| ==> cs[j] == cs[1..][j - 1];
      r
  }

  /** The weights the tasks write: a failed lookup's slot is never read, since the assembly then fails, so 0 stands in for it. */
  function WeightValues(weightOf: (int, int, int) -> Result<byte, Access.LandscapeError>): (int, int, int) -> byte
  {
    (c, v, j) => if weightOf(c, v, j).Success? then weightOf(c, v, j).value else 0
  }

  /**
   * Whether component `i`'s task throws: for one of its vertices, the height read behind
   * `GetLocalVertex` and `GetLocalTangentVectors` fails, or one of its weight lookups fails.
   */
  ghost predicate TaskFails(cs: seq<ExportComponent>, i: int, perComponent: nat,
                            weightOf: (int, int, int) -> Result<byte, Access.LandscapeError>)
    requires 0 <= i < |cs| && Built(cs, i)
  {
    HeightReadFails(cs[i].Input, perComponent) || LookupFails(cs, i, perComponent, weightOf)
  }

  /** Whether the height read of one of the first `perComponent` vertices throws. */
  ghost predicate HeightReadFails(c: Access.ComponentInput, perComponent: nat)
    requires Access.HeightmapCheck(c.Heightmap, 0).None?
  {
    exists v :: 0 <= v < perComponent && Access.VertexHeightRead(c, v).Failure?
  }

  /** Whether one of component `i`'s weight lookups throws. */
  ghost predicate LookupFails(cs: seq<ExportComponent>, i: int, perComponent: nat,
                              weightOf: (int, int, int) -> Result<byte, Access.LandscapeError>)
    requires 0 <= i < |cs|
  {
    exists v, j :: 0 <= v < perComponent && 0 <= j < |cs[i].Layers| && weightOf(i, v, j).Failure?
  }

  /** Whether component `i`'s data interface can be built: `new FLandscapeComponentDataInterface(comp, 0, false)` does not throw. */
  predicate Built(cs: seq<ExportComponent>, i: int)
    requires 0 <= i < |cs|
  {
    Access.HeightmapCheck(cs[i].Input.Heightmap, 0).None?
  }

  /**
   * How the component loop of `DoThings3_Mesh` stands after its first `i` turns. The first
   * component whose data interface cannot be built ends the loop with that error.
   * Otherwise a task that threw makes `Task.WaitAll` throw afterwards.
   */
  ghost function LoopOutcome(cs: seq<ExportComponent>, perComponent: nat,
                             weightOf: (int, int, int) -> Result<byte, Access.LandscapeError>, i: nat): (r: Option<ExportFailure>)
    requires i <= |cs|
    decreases i
  {
    if i == 0 then None
    else
      var prev := LoopOutcome(cs, perComponent, weightOf, i - 1);
      if prev.Some? && prev.value.ConstructionFailed? then prev
      else if !Built(cs, i - 1) then Some(ConstructionFailed(i - 1, Access.HeightmapCheck(cs[i - 1].Input.Heightmap, 0).value))
      else if prev.Some? || TaskFails(cs, i - 1, perComponent, weightOf) then Some(TasksFailed)
      else None
  }

  /**
   * What the outcome after `i` turns means: success exactly when every component so far was
   * built and its task did not throw; a construction failure names the first component that
   * could not be built, with its error; and a task failure exactly when every component was
   * built and some task threw.
   */
  lemma {:induction false} LoopOutcomeMeans(cs: seq<ExportComponent>, perComponent: nat,
                                            weightOf: (int, int, int) -> Result<byte, Access.LandscapeError>, i: nat)
    requires i <= |cs|
    ensures var r := LoopOutcome(cs, perComponent, weightOf, i);
      r.None? <==> forall k :: 0 <= k < i ==> Built(cs, k) && !TaskFails(cs, k, perComponent, weightOf)
    ensures var r := LoopOutcome(cs, perComponent, weightOf, i);
      r.Some? && r.value.ConstructionFailed? ==>
        r.value.Component < i && Access.HeightmapCheck(cs[r.value.Component].Input.Heightmap, 0) == Some(r.value.Error) &&
        forall k :: 0 <= k < r.value.Component ==> Built(cs, k)
    ensures var r := LoopOutcome(cs, perComponent, weightOf, i);
      r == Some(TasksFailed) <==>
        (forall k :: 0 <= k < i ==> Built(cs, k)) && exists k :: 0 <= k < i && Built(cs, k) && TaskFails(cs, k, perComponent, weightOf)
    decreases i
  {
    if i > 0 {
      LoopOutcomeMeans(cs, perComponent, weightOf, i - 1);
    }
  }

  /** How the whole component loop ends. */
  ghost function ExportOutcome(cs: seq<ExportComponent>, perComponent: nat,
                               weightOf: (int, int, int) -> Result<byte, Access.LandscapeError>): Option<ExportFailure>
  {
    LoopOutcome(cs, perComponent, weightOf, |cs|)
  }

  /** A construction failure ends the loop: no later turn changes the outcome. */
  lemma {:induction false} ConstructionFailureSticks(cs: seq<ExportComponent>, perComponent: nat,
                                                     weightOf: (int, int, int) -> Result<byte, Access.LandscapeError>, i: nat, n: nat)
    requires i <= n <= |cs|
    requires LoopOutcome(cs, perComponent, weightOf, i).Some? && LoopOutcome(cs, perComponent, weightOf, i).value.ConstructionFailed?
    ensures LoopOutcome(cs, perComponent, weightOf, n) == LoopOutcome(cs, perComponent, weightOf, i)
    decreases n
  {
    if n > i {
      ConstructionFailureSticks(cs, perComponent, weightOf, i, n - 1);
      ghost var prev := LoopOutcome(cs, perComponent, weightOf, n - 1);
      assert prev.Some? && prev.value.ConstructionFailed?;
    }
  }

  /** One turn of the loop, from a state without a construction failure. */
  lemma LoopStep(cs: seq<ExportComponent>, perComponent: nat,
                 weightOf: (int, int, int) -> Result<byte, Access.LandscapeError>, i: nat, failed: bool)
    requires i < |cs| && LoopOutcome(cs, perComponent, weightOf, i) == if failed then Some(TasksFailed) else None
    ensures !Built(cs, i) ==>
      LoopOutcome(cs, perComponent, weightOf, i + 1) == Some(ConstructionFailed(i, Access.HeightmapCheck(cs[i].Input.Heightmap, 0).value))
    ensures Built(cs, i) ==>
      LoopOutcome(cs, perComponent, weightOf, i + 1) ==
        if failed || TaskFails(cs, i, perComponent, weightOf) then Some(TasksFailed) else None
  {
  }

  /**
   * When the loop succeeds, every weight lookup of every component's vertices succeeds, and
   * the weights written are the ones looked up.
   */
  lemma SucceededLookups(cs: seq<ExportComponent>, perComponent: nat,
                         weightOf: (int, int, int) -> Result<byte, Access.LandscapeError>, c: int, v: int, j: int)
    requires ExportOutcome(cs, perComponent, weightOf).None?
    requires 0 <= c < |cs| && 0 <= v < perComponent && 0 <= j < |cs[c].Layers|
    ensures weightOf(c, v, j).Success? && WeightValues(weightOf)(c, v, j) == weightOf(c, v, j).value
  {
    LoopOutcomeMeans(cs, perComponent, weightOf, |cs|);
    assert Built(cs, c) && !TaskFails(cs, c, perComponent, weightOf);
  }

  /**
   * When the loop succeeds, every component's data interface was built and the height read
   * of each of its vertices succeeded.
   */
  lemma SucceededHeightReads(cs: seq<ExportComponent>, perComponent: nat,
                             weightOf: (int, int, int) -> Result<byte, Access.LandscapeError>, c: int, v: int)
    requires ExportOutcome(cs, perComponent, weightOf).None?
    requires 0 <= c < |cs| && 0 <= v < perComponent
    ensures Built(cs, c) && Access.VertexHeightRead(cs[c].Input, v).Success?
  {
    LoopOutcomeMeans(cs, perComponent, weightOf, |cs|);
    assert Built(cs, c) && !TaskFails(cs, c, perComponent, weightOf);
  }

  /**
   * The component loop of `DoThings3_Mesh` (LandscapeExporter.cs:224-300), with the tasks
   * run one after another. Component `i` fills the slice that starts at `i * V`.
   * The loop fails as `ExportOutcome` says. When it succeeds, every slot holds its
   * component's vertex and UV, the colour buffers are those every component's writes give,
   * and there is one raster of the landscape's size per layer.
   */
  method FillComponents(cs: seq<ExportComponent>, perComponent: nat, vertexCount: nat,
                        verts: array<Option<CMeshVertex>>, uvs: array<FMeshUVFloat>, width: int32, height: int32,
                        vertexOf: (int, int) -> CMeshVertex, uvOf: (int, int) -> FMeshUVFloat,
                        weightOf: (int, int, int) -> Result<byte, Access.LandscapeError>)
    returns (failure: Option<ExportFailure>, colors: map<string, LayerBuffer>, rasters: map<string, Raster>)
    requires vertexCount == Slot(|cs|, 0, perComponent)
    requires verts.Length == vertexCount && uvs.Length == vertexCount
    modifies verts, uvs
    ensures failure == ExportOutcome(cs, perComponent, weightOf)
    ensures failure.None? ==> colors == Apply(map[], MeshWrites(cs, perComponent, WeightValues(weightOf), |cs|), vertexCount)
    ensures failure.None? ==> rasters == RasterMap(colors.Keys, width, height)
    ensures failure.None? ==> forall c, w :: 0 <= c < |cs| && 0 <= w < perComponent ==>
      0 <= Slot(c, w, perComponent) < vertexCount &&
      verts[Slot(c, w, perComponent)] == Some(vertexOf(c, w)) && uvs[Slot(c, w, perComponent)] == uvOf(c, w)
  {
    colors, rasters := map[], map[];
    var tasksFailed := false;
    var i := 0;
    while i < |cs|
      invariant 0 <= i <= |cs|
      invariant Slot(i, 0, perComponent) <= vertexCount
      invariant LoopOutcome(cs, perComponent, weightOf, i) == if tasksFailed then Some(TasksFailed) else None
      invariant Filled(cs, i, perComponent, vertexCount, verts[..], uvs[..], colors, rasters, width, height, vertexOf, uvOf, weightOf)
    {
      LoopStep(cs, perComponent, weightOf, i, tasksFailed);
      var unbuilt, taskFailed;
      unbuilt, taskFailed, colors, rasters := FillNextComponent(cs, i, perComponent, vertexCount, verts, uvs, colors, rasters,
                                                                width, height, vertexOf, uvOf, weightOf);
      if unbuilt.Some? {
        failure := Some(ConstructionFailed(i, unbuilt.value));
        ConstructionFailureSticks(cs, perComponent, weightOf, i + 1, |cs|);
        return;
      }
      tasksFailed := tasksFailed || taskFailed;
      i := i + 1;
    }
    if tasksFailed {
      return Some(TasksFailed), colors, rasters;
    }
    failure := None;
    assert forall k :: 0 <= k < vertexCount ==> verts[..][k] == verts[k] && uvs[..][k] == uvs[k];
  }

  /**
   * One turn of the component loop. It builds component `i`'s data interface, which fails
   * as `HeightmapCheck` says, and then writes nothing. Otherwise it runs the component's
   * task, after which components `0..i` hold their slots. The task throws exactly when one
   * of its vertices' height reads or weight lookups fails.
   */
  method FillNextComponent(cs: seq<ExportComponent>, i: nat, perComponent: nat, vertexCount: nat,
                           verts: array<Option<CMeshVertex>>, uvs: array<FMeshUVFloat>,
                           colors: map<string, LayerBuffer>, rasters: map<string, Raster>, width: int32, height: int32,
                           vertexOf: (int, int) -> CMeshVertex, uvOf: (int, int) -> FMeshUVFloat,
                           weightOf: (int, int, int) -> Result<byte, Access.LandscapeError>)
    returns (unbuilt: Option<Access.LandscapeError>, taskFailed: bool,
             colors': map<string, LayerBuffer>, rasters': map<string, Raster>)
    requires i < |cs| && vertexCount == Slot(|cs|, 0, perComponent)
    requires verts.Length == vertexCount && uvs.Length == vertexCount
    requires Filled(cs, i, perComponent, vertexCount, verts[..], uvs[..], colors, rasters, width, height, vertexOf, uvOf, weightOf)
    modifies verts, uvs
    ensures unbuilt == Access.HeightmapCheck(cs[i].Input.Heightmap, 0)
    ensures taskFailed <==> Built(cs, i) && TaskFails(cs, i, perComponent, weightOf)
    ensures unbuilt.Some? ==> unchanged(verts) && unchanged(uvs) && colors' == colors && rasters' == rasters
    ensures Slot(i + 1, 0, perComponent) <= vertexCount
    ensures unbuilt.None? ==>
      Filled(cs, i + 1, perComponent, vertexCount, verts[..], uvs[..], colors', rasters', width, height, vertexOf, uvOf, weightOf)
  {
    SlotWithin(i, |cs|, perComponent);
    SlotNext(i, perComponent);
    unbuilt := Access.HeightmapCheck(cs[i].Input.Heightmap, 0);
    if unbuilt.Some? {
      return unbuilt, false, colors, rasters;
    }
    var baseVertIndex := Slot(i, 0, perComponent);
    var weight := WeightValues(weightOf);
    ghost var vertsBefore, uvsBefore := verts[..], uvs[..];
    colors', rasters' := FillComponent(cs[i], i, baseVertIndex, perComponent, vertexCount, verts, uvs,
                                       colors, rasters, width, height, vertexOf, uvOf, weight,
                                       map[], MeshWrites(cs, perComponent, weight, i));
    SlotsKept(vertsBefore, verts[..], i, perComponent, (c, w) => Some(vertexOf(c, w)), v => Some(vertexOf(i, v)));
    SlotsKept(uvsBefore, uvs[..], i, perComponent, uvOf, v => uvOf(i, v));
    var heightFailed := exists v | 0 <= v < perComponent :: Access.VertexHeightRead(cs[i].Input, v).Failure?;
    var lookupFailed := exists v, j | 0 <= v < perComponent && 0 <= j < |cs[i].Layers| :: weightOf(i, v, j).Failure?;
    taskFailed := heightFailed || lookupFailed;
  }

  /**
   * The state after the tasks of components `0..i`: the colour buffers are those their
   * writes give, there is one raster per layer, and their slots hold their vertices and UVs.
   */
  ghost predicate Filled(cs: seq<ExportComponent>, i: nat, perComponent: nat, vertexCount: nat,
                         verts: seq<Option<CMeshVertex>>, uvs: seq<FMeshUVFloat>,
                         colors: map<string, LayerBuffer>, rasters: map<string, Raster>, width: int32, height: int32,
                         vertexOf: (int, int) -> CMeshVertex, uvOf: (int, int) -> FMeshUVFloat,
                         weightOf: (int, int, int) -> Result<byte, Access.LandscapeError>)
    requires i <= |cs|
  {
    colors == Apply(map[], MeshWrites(cs, perComponent, WeightValues(weightOf), i), vertexCount) &&
    Sized(colors, vertexCount) && rasters == RasterMap(colors.Keys, width, height) &&
    SlotsHold(verts, i, perComponent, (c, w) => Some(vertexOf(c, w))) && SlotsHold(uvs, i, perComponent, uvOf)
  }

  /** Slot `c*V + w` of `s` holds `f(c, w)` for every component `c` below `i`. */
  ghost predicate SlotsHold<T>(s: seq<T>, i: int, perComponent: nat, f: (int, int) -> T)
  {
    forall c, w :: 0 <= c < i && 0 <= w < perComponent ==>
      0 <= Slot(c, w, perComponent) < |s| && s[Slot(c, w, perComponent)] == f(c, w)
  }

  /**
   * The slots after component `i`'s task: those of earlier components keep their values,
   * which the task leaves alone, and component `i`'s slice gets its own.
   */
  lemma SlotsKept<T>(before: seq<T>, after: seq<T>, i: nat, perComponent: nat, f: (int, int) -> T, g: int -> T)
    requires 0 <= Slot(i, 0, perComponent) && Slot(i, 0, perComponent) + perComponent <= |before|
    requires SlotsHold(before, i, perComponent, f)
    requires after == Fill(before, Slot(i, 0, perComponent), perComponent, g)
    requires forall v :: 0 <= v < perComponent ==> g(v) == f(i, v)
    ensures SlotsHold(after, i + 1, perComponent, f)
  {
    forall c, w | 0 <= c < i + 1 && 0 <= w < perComponent
      ensures 0 <= Slot(c, w, perComponent) < |after| && after[Slot(c, w, perComponent)] == f(c, w)
    {
      if c < i {
        SlotBefore(c, w, i, perComponent);
      }
      FillAt(before, Slot(i, 0, perComponent), perComponent, g, Slot(c, w, perComponent));
    }
  }

  /** The exported colour buffers hold the colours every component's writes give. */
  lemma BuffersHoldColors(cs: seq<ExportComponent>, weightOf: (int, int, int) -> byte, perComponent: nat, vertexCount: nat,
                          colors: map<string, LayerBuffer>, buffers: seq<CVertexColor>, order: seq<string>)
    requires vertexCount == Slot(|cs|, 0, perComponent)
    requires colors == Apply(map[], MeshWrites(cs, perComponent, weightOf, |cs|), vertexCount)
    requires |order| == |buffers|
    requires forall L :: L in colors <==> L in order
    requires forall j :: 0 <= j < |buffers| ==>
      order[j] in colors && buffers[j].Name == colors[order[j]].ShortName && buffers[j].Colors[..] == colors[order[j]].Colors
    ensures forall L :: L in order <==> perComponent > 0 && L in LayersOf(cs)
    ensures forall j :: 0 <= j < |buffers| ==> buffers[j].Name == ShortName(order[j]) && buffers[j].Colors.Length == vertexCount
    ensures forall j, c, w :: 0 <= j < |buffers| && 0 <= c < |cs| && 0 <= w < perComponent ==>
      0 <= Slot(c, w, perComponent) < vertexCount &&
      buffers[j].Colors[Slot(c, w, perComponent)] == ExpectedColor(cs, weightOf, c, w, order[j])
  {
    forall L ensures L in order <==> perComponent > 0 && L in LayersOf(cs) {
      MeshColors(cs, perComponent, vertexCount, weightOf, L);
    }
    forall j | 0 <= j < |buffers|
      ensures buffers[j].Name == ShortName(order[j]) && buffers[j].Colors.Length == vertexCount
    {
      MeshColors(cs, perComponent, vertexCount, weightOf, order[j]);
    }
    forall c, w | 0 <= c < |cs| && 0 <= w < perComponent
      ensures 0 <= Slot(c, w, perComponent) < vertexCount
    {
      SlotBefore(c, w, |cs|, perComponent);
    }
    forall j, c, w | 0 <= j < |buffers| && 0 <= c < |cs| && 0 <= w < perComponent
      ensures buffers[j].Colors[Slot(c, w, perComponent)] == ExpectedColor(cs, weightOf, c, w, order[j])
    {
      MeshColors(cs, perComponent, vertexCount, weightOf, order[j]);
      var k := Slot(c, w, perComponent);
      assert buffers[j].Colors[k] == buffers[j].Colors[..][k];
    }
  }

  /**
   * The component tasks and the colour-buffer export of `DoThings3_Mesh`
   * (LandscapeExporter.cs:204-305). It fails as `ExportOutcome` says. When it succeeds,
   * every slot gets its vertex and UV, and there is one buffer per layer, holding the
   * colours `ExpectedColor` gives, beside one raster of `width` by `height` per layer.
   */
  method FillLayers(cs: seq<ExportComponent>, perComponent: nat, vertexCount: nat,
                    verts: array<Option<CMeshVertex>>, uvs: array<FMeshUVFloat>, width: int32, height: int32,
                    vertexOf: (int, int) -> CMeshVertex, uvOf: (int, int) -> FMeshUVFloat,
                    weightOf: (int, int, int) -> Result<byte, Access.LandscapeError>)
    returns (failure: Option<ExportFailure>, buffers: seq<CVertexColor>, rasters: map<string, Raster>, ghost order: seq<string>)
    requires vertexCount == Slot(|cs|, 0, perComponent)
    requires verts.Length == vertexCount && uvs.Length == vertexCount
    modifies verts, uvs
    ensures failure == ExportOutcome(cs, perComponent, weightOf)
    ensures failure.None? ==> rasters.Keys == (if perComponent > 0 then LayersOf(cs) else {})
    ensures failure.None? ==> forall L :: L in rasters ==> rasters[L] == Raster(width, height)
    ensures failure.None? ==> |buffers| == |order|
    ensures failure.None? ==> forall L :: L in rasters <==> L in order
    ensures failure.None? ==> forall j, m :: 0 <= j < m < |order| ==> order[j] != order[m]
    ensures forall c, w :: 0 <= c < |cs| && 0 <= w < perComponent ==> 0 <= Slot(c, w, perComponent) < vertexCount
    ensures failure.None? ==> forall c, w :: 0 <= c < |cs| && 0 <= w < perComponent ==>
      verts[Slot(c, w, perComponent)] == Some(vertexOf(c, w)) && uvs[Slot(c, w, perComponent)] == uvOf(c, w)
    ensures failure.None? ==> forall j :: 0 <= j < |buffers| ==>
      buffers[j].Name == ShortName(order[j]) && buffers[j].Colors.Length == vertexCount
    ensures failure.None? ==> forall j, c, w :: 0 <= j < |buffers| && 0 <= c < |cs| && 0 <= w < perComponent ==>
      buffers[j].Colors[Slot(c, w, perComponent)] == ExpectedColor(cs, WeightValues(weightOf), c, w, order[j])
  {
    forall c, w | 0 <= c < |cs| && 0 <= w < perComponent
      ensures 0 <= Slot(c, w, perComponent) < vertexCount
    {
      SlotBefore(c, w, |cs|, perComponent);
    }
    var colors;
    failure, colors, rasters := FillComponents(cs, perComponent, vertexCount, verts, uvs, width, height, vertexOf, uvOf, weightOf);
    if failure.Some? {
      return failure, [], rasters, [];
    }
    buffers, order := ColorBuffers(colors);
    BuffersHoldColors(cs, WeightValues(weightOf), perComponent, vertexCount, colors, buffers, order);
  }

  /**
   * The LOD as `DoThings3_Mesh` starts it (LandscapeExporter.cs:192-202): two texture
   * channels, `vertexCount` vertices, the extra UV channel, the default vertex colours and
   * no colour buffers yet, beside an empty vertex array.
   */
  method NewLod(vertexCount: nat) returns (lod: CBaseMeshLod, verts: array<Option<CMeshVertex>>, uvs: array<FMeshUVFloat>)
    ensures fresh(lod) && fresh(verts) && fresh(uvs)
    ensures lod.NumTexCoords == 2 && lod.NumVerts == vertexCount && verts.Length == vertexCount
    ensures lod.ExtraUV == Some([uvs]) && uvs.Length == vertexCount
    ensures lod.VertexColors != null && fresh(lod.VertexColors) && lod.VertexColors.Length == vertexCount
    ensures forall k :: 0 <= k < vertexCount ==> lod.VertexColors[k] == DEFAULT_COLOR
    ensures lod.Sections.None? && lod.Indices.None? && lod.ExtraVertexColors == Some([])
  {
    lod := new CBaseMeshLod();
    lod.NumTexCoords := 2;
    lod.NumVerts := vertexCount;
    verts := new Option<CMeshVertex>[vertexCount](_ => None);
    lod.AllocateUVBuffers();
    lod.AllocateVertexColorBuffer();
    uvs := lod.ExtraUV.value[0];
    assert lod.ExtraUV.value == [uvs];
  }

  /**
   * The body of `DoThings3_Mesh` after the fold (LandscapeExporter.cs:188-372) over the
   * components `cs` of `csq` quads a side and a raster of `width` by `height`. It fails as
   * `ExportOutcome` says, before the index buffer is built.
   */
  method BuildLod(cs: seq<ExportComponent>, csq: int32, width: int32, height: int32,
                  vertexOf: (int, int) -> CMeshVertex, uvOf: (int, int) -> FMeshUVFloat,
                  weightOf: (int, int, int) -> Result<byte, Access.LandscapeError>)
    returns (failure: Option<ExportFailure>, lod: CBaseMeshLod, verts: array<Option<CMeshVertex>>,
             rasters: map<string, Raster>, ghost order: seq<string>)
    ensures failure == ExportOutcome(cs, VertsPerComponent(csq), weightOf)
    ensures fresh(lod) && fresh(verts)
    ensures failure.None? ==> rasters.Keys == (if VertsPerComponent(csq) > 0 then LayersOf(cs) else {})
    ensures failure.None? ==> forall L :: L in rasters ==> rasters[L] == Raster(width, height)
    ensures failure.None? ==> lod.NumTexCoords == 2 && lod.NumVerts == Slot(|cs|, 0, VertsPerComponent(csq)) && verts.Length == lod.NumVerts
    ensures failure.None? ==> lod.ExtraUV.Some? && |lod.ExtraUV.value| == 1 && lod.ExtraUV.value[0].Length == lod.NumVerts
    ensures failure.None? ==> forall c, w :: 0 <= c < |cs| && 0 <= w < VertsPerComponent(csq) ==>
      0 <= Slot(c, w, VertsPerComponent(csq)) < lod.NumVerts
    ensures failure.None? ==> forall c, w :: 0 <= c < |cs| && 0 <= w < VertsPerComponent(csq) ==>
      verts[Slot(c, w, VertsPerComponent(csq))] == Some(vertexOf(c, w)) &&
      lod.ExtraUV.value[0][Slot(c, w, VertsPerComponent(csq))] == uvOf(c, w)
    ensures failure.None? ==> lod.VertexColors != null && lod.VertexColors.Length == lod.NumVerts
    ensures failure.None? ==> forall k :: 0 <= k < lod.NumVerts ==> lod.VertexColors[k] == DEFAULT_COLOR
    ensures failure.None? ==> lod.ExtraVertexColors.Some? && |lod.ExtraVertexColors.value| == |order|
    ensures failure.None? ==> forall L :: L in rasters <==> L in order
    ensures failure.None? ==> forall j, m :: 0 <= j < m < |order| ==> order[j] != order[m]
    ensures failure.None? ==> forall j :: 0 <= j < |order| ==>
      lod.ExtraVertexColors.value[j].Name == ShortName(order[j]) &&
      lod.ExtraVertexColors.value[j].Colors.Length == lod.NumVerts
    ensures failure.None? ==> forall j, c, w :: 0 <= j < |order| && 0 <= c < |cs| && 0 <= w < VertsPerComponent(csq) ==>
      lod.ExtraVertexColors.value[j].Colors[Slot(c, w, VertsPerComponent(csq))] ==
        ExpectedColor(cs, WeightValues(weightOf), c, w, order[j])
    ensures failure.None? ==> lod.Sections == Some([CMeshSection(0, 0, TriangleCount(|cs|, csq))])
    ensures failure.None? ==> lod.Indices == Some(MeshQuads(csq, |cs|))
  {
    var n := |cs|;
    var perComponent := VertsPerComponent(csq);
    TimesMono(0, n, perComponent);
    var vertexCount := Slot(n, 0, perComponent);
    var uvs;
    lod, verts, uvs := NewLod(vertexCount);
    var buffers;
    failure, buffers, rasters, order := FillLayers(cs, perComponent, vertexCount, verts, uvs, width, height, vertexOf, uvOf, weightOf);
    if failure.Some? {
      return;
    }
    lod.ExtraVertexColors := Some(buffers);
    lod.Sections := Some([CMeshSection(0, 0, TriangleCount(n, csq))]);
    var indices := BuildIndices(n, csq);
    lod.Indices := Some(indices);
  }

  class LandscapeExporter {
    /** `_componentSize`, taken from the landscape proxy and set from a component when it is -1. */
    var ComponentSize: int32
    /** `_landscapeComponents`. */
    const Components: seq<ExportComponent>
    /** `WeightMaps`: one raster per layer name. */
    var WeightMaps: map<string, Raster>

    /** The exporter over a proxy's components, `_componentSize` taken from the proxy (`LoadLandscapeInfo`). */
    constructor(proxyComponentSizeQuads: int32, components: seq<ExportComponent>)
      ensures ComponentSize == proxyComponentSizeQuads && Components == components && WeightMaps == map[]
    {
      ComponentSize := proxyComponentSizeQuads;
      Components := components;
      WeightMaps := map[];
    }

    /**
     * The first loop of `DoThings3_Mesh` (LandscapeExporter.cs:174-186). It folds every
     * tile into the box, starting from the sentinels. While `_componentSize` is -1, it
     * takes each component's size. The `Debug.Assert` on the other components is compiled
     * out of release builds, so it is not modelled.
     */
    method FoldComponents() returns (box: Extent)
      modifies this
      ensures box == Fold(EmptyExtent, Tiles(Components))
      ensures ComponentSize == if old(ComponentSize) == -1 then FirstSize(Components) else old(ComponentSize)
      ensures WeightMaps == old(WeightMaps)
    {
      var tiles := Tiles(Components);
      box := EmptyExtent;
      var i := 0;
      while i < |Components|
        invariant 0 <= i <= |Components|
        invariant Fold(box, tiles[i..]) == Fold(EmptyExtent, tiles)
        invariant old(ComponentSize) != -1 ==> ComponentSize == old(ComponentSize)
        invariant old(ComponentSize) == -1 ==>
          FirstSize(Components) == if ComponentSize == -1 then FirstSize(Components[i..]) else ComponentSize
        invariant WeightMaps == old(WeightMaps)
      {
        var comp := Components[i];
        assert Components[i..][1..] == Components[i + 1..];
        if ComponentSize == -1 {
          ComponentSize := comp.Tile.ComponentSizeQuads;
        }
        assert tiles[i..][1..] == tiles[i + 1..];
        box := Merge(box, comp.Tile);
        i := i + 1;
      }
    }

    /**
     * `DoThings3_Mesh` (LandscapeExporter.cs:172-372), with the component tasks run one
     * after another. The resulting LOD:
     *  - has two texture-coordinate channels and `VertexCount` vertices;
     *  - holds component `c`'s vertex `w` and its weight-map UV at slot `c*V + w`;
     *  - keeps the default main vertex colours;
     *  - has one colour buffer per layer. Its slot `c*V + w` holds the grey of component
     *    `c`'s weight for the layer, or the default colour when `c` lacks the layer;
     *  - has one section of `TriangleCount` triangles and the quads' index buffer.
     * `WeightMaps` gets one raster of the box's size per layer. The method fails as
     * `ExportOutcome` says: on the first component whose data interface cannot be built, or
     * else when a vertex's height read or weight lookup throws in a task. It then leaves
     * `WeightMaps` as it was; `_componentSize` is set either way.
     */
    method DoThings3Mesh(vertexOf: (int, int) -> CMeshVertex, uvOf: (int, int) -> FMeshUVFloat,
                         weightOf: (int, int, int) -> Result<byte, Access.LandscapeError>)
      returns (failure: Option<ExportFailure>, lod: CBaseMeshLod, verts: array<Option<CMeshVertex>>, ghost layerOrder: seq<string>)
      modifies this
      ensures ComponentSize == if old(ComponentSize) == -1 then FirstSize(Components) else old(ComponentSize)
      ensures failure == ExportOutcome(Components, VertsPerComponent(ComponentSize), weightOf)
      ensures failure.Some? ==> WeightMaps == old(WeightMaps)
      ensures failure.None? ==> var box := Fold(EmptyExtent, Tiles(Components));
        WeightMaps.Keys == (if VertsPerComponent(ComponentSize) > 0 then LayersOf(Components) else {}) &&
        forall L :: L in WeightMaps ==> WeightMaps[L] == Raster(RasterSpan(box.MinX, box.MaxX), RasterSpan(box.MinY, box.MaxY))
      ensures fresh(lod) && fresh(verts)
      ensures failure.None? ==> lod.NumTexCoords == 2 && lod.NumVerts == VertexCount(|Components|, ComponentSize) && verts.Length == lod.NumVerts
      ensures failure.None? ==> lod.ExtraUV.Some? && |lod.ExtraUV.value| == 1 && lod.ExtraUV.value[0].Length == lod.NumVerts
      ensures failure.None? ==> forall c, w :: 0 <= c < |Components| && 0 <= w < VertsPerComponent(ComponentSize) ==>
        0 <= Slot(c, w, VertsPerComponent(ComponentSize)) < lod.NumVerts &&
        verts[Slot(c, w, VertsPerComponent(ComponentSize))] == Some(vertexOf(c, w)) &&
        lod.ExtraUV.value[0][Slot(c, w, VertsPerComponent(ComponentSize))] == uvOf(c, w)
      ensures failure.None? ==> lod.VertexColors != null && lod.VertexColors.Length == lod.NumVerts
      ensures failure.None? ==> forall k :: 0 <= k < lod.NumVerts ==> lod.VertexColors[k] == DEFAULT_COLOR
      ensures failure.None? ==> lod.ExtraVertexColors.Some? && |lod.ExtraVertexColors.value| == |layerOrder|
      ensures failure.None? ==> forall L :: L in WeightMaps <==> L in layerOrder
      ensures failure.None? ==> forall j, m :: 0 <= j < m < |layerOrder| ==> layerOrder[j] != layerOrder[m]
      ensures failure.None? ==> forall j :: 0 <= j < |layerOrder| ==>
        lod.ExtraVertexColors.value[j].Name == ShortName(layerOrder[j]) &&
        lod.ExtraVertexColors.value[j].Colors.Length == lod.NumVerts
      ensures failure.None? ==> forall j, c, w :: 0 <= j < |layerOrder| && 0 <= c < |Components| && 0 <= w < VertsPerComponent(ComponentSize) ==>
        0 <= Slot(c, w, VertsPerComponent(ComponentSize)) < lod.NumVerts &&
        lod.ExtraVertexColors.value[j].Colors[Slot(c, w, VertsPerComponent(ComponentSize))] ==
          ExpectedColor(Components, WeightValues(weightOf), c, w, layerOrder[j])
      ensures failure.None? ==> lod.Sections == Some([CMeshSection(0, 0, TriangleCount(|Components|, ComponentSize))])
      ensures failure.None? ==> lod.Indices == Some(MeshQuads(ComponentSize, |Components|))
    {
      var box := FoldComponents();
      var csq := ExportSizeQuads(ComponentSize);
      var width := RasterSpan(box.MinX, box.MaxX);
      var height := RasterSpan(box.MinY, box.MaxY);
      var rasters;
      failure, lod, verts, rasters, layerOrder := BuildLod(Components, csq, width, height, vertexOf, uvOf, weightOf);
      if failure.Some? {
        return;
      }
      TimesIsProduct(|Components|, VertsPerComponent(csq));
      WeightMaps := rasters;
    }
  }
}
