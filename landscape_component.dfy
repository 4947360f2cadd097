/**
 * ULandscapeComponent: one square tile of a landscape. Its section base is the tile's
 * corner in landscape quads, and `ComponentSizeQuads` its edge. Merging a tile into an
 * accumulated extent takes the minimum of the corner and the maximum of the far corner on
 * each axis. Folding that merge over all tiles yields the landscape's bounding rectangle.
 * The far corner is a 32-bit addition, and it wraps as C# `int` arithmetic does.
 */
module LandscapeComponent {
  import opened Wrappers
  import opened Bytes

  const INT_MAX: int32 := 0x7FFF_FFFF
  const INT_MIN: int32 := -0x8000_0000

  /** `FVector4` with its float components as bit patterns. */
  datatype FVector4 = FVector4(X: Float32, Y: Float32, Z: Float32, W: Float32)

  datatype FIntPoint = FIntPoint(X: int32, Y: int32)
  datatype FIntRect = FIntRect(Min: FIntPoint, Max: FIntPoint)

  /** The four `ref` accumulators of the merge. */
  datatype Extent = Extent(MinX: int32, MinY: int32, MaxX: int32, MaxY: int32)

  /** The sentinels the no-argument overload and the exporter start from. */
  const EmptyExtent := Extent(INT_MAX, INT_MAX, INT_MIN, INT_MIN)

  /** What the merge reads of a component: its corner and its edge length. */
  datatype Footprint = Footprint(SectionBaseX: int32, SectionBaseY: int32, ComponentSizeQuads: int32)

  /** The properties `Deserialize` looks up; `None` where the property is missing. */
  datatype ComponentProperties = ComponentProperties(
    SectionBaseX: Option<int32>, SectionBaseY: Option<int32>,
    ComponentSizeQuads: Option<int32>, SubsectionSizeQuads: Option<int32>, NumSubsections: Option<int32>,
    HeightmapScaleBias: Option<FVector4>, WeightmapScaleBias: Option<int32>, WeightmapSubsectionOffset: Option<Float32>)

  function Or<T>(o: Option<T>, default: T): T {
    if o.Some? then o.value else default
  }

  /** The far corner on one axis, `base + size` in 32-bit arithmetic. */
  function FarCorner(base: int32, size: int32): (r: int32)
    ensures -0x8000_0000 <= base + size < 0x8000_0000 ==> r == base + size
  {
    WrapInt32(base + size)
  }

  function Min(a: int, b: int): int { if a <= b then a else b }
  function Max(a: int, b: int): int { if a >= b then a else b }

  /** The merge of `GetComponentExtent(ref ...)`. */
  function Merge(e: Extent, f: Footprint): (r: Extent)
    ensures r.MinX <= e.MinX && r.MinY <= e.MinY && r.MaxX >= e.MaxX && r.MaxY >= e.MaxY
    ensures r.MinX <= f.SectionBaseX && r.MinY <= f.SectionBaseY
    ensures r.MaxX >= FarCorner(f.SectionBaseX, f.ComponentSizeQuads) && r.MaxY >= FarCorner(f.SectionBaseY, f.ComponentSizeQuads)
    ensures r.MinX == e.MinX || r.MinX == f.SectionBaseX
    ensures r.MaxX == e.MaxX || r.MaxX == FarCorner(f.SectionBaseX, f.ComponentSizeQuads)
  {
    Extent(Min(f.SectionBaseX, e.MinX), Min(f.SectionBaseY, e.MinY),
           Max(FarCorner(f.SectionBaseX, f.ComponentSizeQuads), e.MaxX),
           Max(FarCorner(f.SectionBaseY, f.ComponentSizeQuads), e.MaxY))
  }

  /** Merging the same component twice changes nothing the first merge did not. */
  lemma MergeIdempotent(e: Extent, f: Footprint)
    ensures Merge(Merge(e, f), f) == Merge(e, f)
  {
  }

  /** Two merges commute. */
  lemma MergeCommutes(e: Extent, f: Footprint, g: Footprint)
    ensures Merge(Merge(e, f), g) == Merge(Merge(e, g), f)
  {
  }

  /** When the far corner does not overflow, the merged box contains the whole tile. */
  lemma MergeContains(e: Extent, f: Footprint)
    requires f.ComponentSizeQuads >= 0
    requires f.SectionBaseX + f.ComponentSizeQuads < 0x8000_0000 && f.SectionBaseY + f.ComponentSizeQuads < 0x8000_0000
    ensures var r := Merge(e, f);
      r.MinX <= f.SectionBaseX <= f.SectionBaseX + f.ComponentSizeQuads <= r.MaxX &&
      r.MinY <= f.SectionBaseY <= f.SectionBaseY + f.ComponentSizeQuads <= r.MaxY
  {
  }

  /** The exporter's fold: merge every component, in order, into the accumulators. */
  function Fold(e: Extent, fs: seq<Footprint>): Extent
    decreases fs
  {
    if fs == [] then e else Fold(Merge(e, fs[0]), fs[1..])
  }

  /**
   * The folded box, coordinate by coordinate: the minimum corner is no larger than the
   * start and every component's corner and is one of them; likewise the maximum.
   */
  lemma {:induction false} FoldBounds(e: Extent, fs: seq<Footprint>)
    decreases fs
    ensures var r := Fold(e, fs);
      r.MinX <= e.MinX && r.MaxX >= e.MaxX && r.MinY <= e.MinY && r.MaxY >= e.MaxY &&
      (forall f :: f in fs ==> r.MinX <= f.SectionBaseX && r.MinY <= f.SectionBaseY) &&
      (forall f :: f in fs ==> r.MaxX >= FarCorner(f.SectionBaseX, f.ComponentSizeQuads) &&
                               r.MaxY >= FarCorner(f.SectionBaseY, f.ComponentSizeQuads)) &&
      (r.MinX == e.MinX || exists f :: f in fs && r.MinX == f.SectionBaseX) &&
      (r.MinY == e.MinY || exists f :: f in fs && r.MinY == f.SectionBaseY) &&
      (r.MaxX == e.MaxX || exists f :: f in fs && r.MaxX == FarCorner(f.SectionBaseX, f.ComponentSizeQuads)) &&
      (r.MaxY == e.MaxY || exists f :: f in fs && r.MaxY == FarCorner(f.SectionBaseY, f.ComponentSizeQuads))
  {
    if fs != [] {
      var m := Merge(e, fs[0]);
      FoldBounds(m, fs[1..]);
      var r := Fold(e, fs);
      assert r == Fold(m, fs[1..]);
      assert forall f :: f in fs ==> f == fs[0] || f in fs[1..];
      if r.MinX != e.MinX && r.MinX != m.MinX {
        var f :| f in fs[1..] && r.MinX == f.SectionBaseX;
        assert f in fs;
      }
      if r.MinY != e.MinY && r.MinY != m.MinY {
        var f :| f in fs[1..] && r.MinY == f.SectionBaseY;
        assert f in fs;
      }
      if r.MaxX != e.MaxX && r.MaxX != m.MaxX {
        var f :| f in fs[1..] && r.MaxX == FarCorner(f.SectionBaseX, f.ComponentSizeQuads);
        assert f in fs;
      }
      if r.MaxY != e.MaxY && r.MaxY != m.MaxY {
        var f :| f in fs[1..] && r.MaxY == FarCorner(f.SectionBaseY, f.ComponentSizeQuads);
        assert f in fs;
      }
    }
  }

  /** The fold depends only on which components there are, not on their order or repetition. */
  lemma FoldOrderIndependent(e: Extent, fs: seq<Footprint>, gs: seq<Footprint>)
    requires forall f :: f in fs <==> f in gs
    ensures Fold(e, fs) == Fold(e, gs)
  {
    FoldBounds(e, fs);
    FoldBounds(e, gs);
    var r, s := Fold(e, fs), Fold(e, gs);
    assert r.MinX == s.MinX;
    assert r.MinY == s.MinY;
    assert r.MaxX == s.MaxX;
    assert r.MaxY == s.MaxY;
  }

  class ULandscapeComponent {
    var SectionBaseX: int32
    var SectionBaseY: int32
    var ComponentSizeQuads: int32
    var SubsectionSizeQuads: int32
    var NumSubsections: int32
    var HeightmapScaleBias: FVector4
    var WeightmapScaleBias: int32
    var WeightmapSubsectionOffset: Float32

    constructor()
      ensures SectionBaseX == 0 && SectionBaseY == 0 && ComponentSizeQuads == 0 && SubsectionSizeQuads == 0
      ensures NumSubsections == 0 && WeightmapScaleBias == 0
    {
      SectionBaseX := 0;
      SectionBaseY := 0;
      ComponentSizeQuads := 0;
      SubsectionSizeQuads := 0;
      NumSubsections := 0;
      HeightmapScaleBias := FVector4(0, 0, 0, 0);
      WeightmapScaleBias := 0;
      WeightmapSubsectionOffset := 0;
    }

    /**
     * `Deserialize`: every field takes its property when present; a missing one defaults to
     * 0 (to the zero vector for the scale-bias), except `NumSubsections`, which defaults to 1.
     */
    method Deserialize(props: ComponentProperties)
      modifies this
      ensures props.SectionBaseX.None? ==> SectionBaseX == 0
      ensures props.SectionBaseY.None? ==> SectionBaseY == 0
      ensures props.ComponentSizeQuads.None? ==> ComponentSizeQuads == 0
      ensures props.SubsectionSizeQuads.None? ==> SubsectionSizeQuads == 0
      ensures props.NumSubsections.None? ==> NumSubsections == 1
      ensures props.HeightmapScaleBias.None? ==> HeightmapScaleBias == FVector4(0, 0, 0, 0)
      ensures props.WeightmapScaleBias.None? ==> WeightmapScaleBias == 0
      ensures props.WeightmapSubsectionOffset.None? ==> WeightmapSubsectionOffset == 0
      ensures props.SectionBaseX.Some? ==> SectionBaseX == props.SectionBaseX.value
      ensures props.SectionBaseY.Some? ==> SectionBaseY == props.SectionBaseY.value
      ensures props.ComponentSizeQuads.Some? ==> ComponentSizeQuads == props.ComponentSizeQuads.value
      ensures props.SubsectionSizeQuads.Some? ==> SubsectionSizeQuads == props.SubsectionSizeQuads.value
      ensures props.NumSubsections.Some? ==> NumSubsections == props.NumSubsections.value
      ensures props.HeightmapScaleBias.Some? ==> HeightmapScaleBias == props.HeightmapScaleBias.value
      ensures props.WeightmapScaleBias.Some? ==> WeightmapScaleBias == props.WeightmapScaleBias.value
      ensures props.WeightmapSubsectionOffset.Some? ==> WeightmapSubsectionOffset == props.WeightmapSubsectionOffset.value
    {
      SectionBaseX := Or(props.SectionBaseX, 0);
      SectionBaseY := Or(props.SectionBaseY, 0);
      ComponentSizeQuads := Or(props.ComponentSizeQuads, 0);
      SubsectionSizeQuads := Or(props.SubsectionSizeQuads, 0);
      NumSubsections := Or(props.NumSubsections, 1);
      HeightmapScaleBias := Or(props.HeightmapScaleBias, FVector4(0, 0, 0, 0));
      WeightmapScaleBias := Or(props.WeightmapScaleBias, 0);
      WeightmapSubsectionOffset := Or(props.WeightmapSubsectionOffset, 0);
    }

    /** The corner and edge the merge reads. */
    function Tile(): Footprint
      reads this
    {
      Footprint(SectionBaseX, SectionBaseY, ComponentSizeQuads)
    }

    /** `GetComponentExtent(ref MinX, ref MinY, ref MaxX, ref MaxY)`: the four accumulators after the merge. */
    method GetComponentExtent(minX: int32, minY: int32, maxX: int32, maxY: int32)
      returns (minX': int32, minY': int32, maxX': int32, maxY': int32)
      ensures Extent(minX', minY', maxX', maxY') == Merge(Extent(minX, minY, maxX, maxY), Tile())
    {
      minX' := Min(SectionBaseX, minX);
      minY' := Min(SectionBaseY, minY);
      maxX' := Max(FarCorner(SectionBaseX, ComponentSizeQuads), maxX);
      maxY' := Max(FarCorner(SectionBaseY, ComponentSizeQuads), maxY);
    }

    /**
     * The no-argument overload: merging into the sentinels gives exactly this component's
     * corner and far corner.
     */
    method GetComponentExtentRect() returns (r: FIntRect)
      ensures r.Min == FIntPoint(SectionBaseX, SectionBaseY)
      ensures r.Max == FIntPoint(FarCorner(SectionBaseX, ComponentSizeQuads), FarCorner(SectionBaseY, ComponentSizeQuads))
    {
      var minX, minY, maxX, maxY := GetComponentExtent(INT_MAX, INT_MAX, INT_MIN, INT_MIN);
      r := FIntRect(FIntPoint(minX, minY), FIntPoint(maxX, maxY));
    }
  }
}
