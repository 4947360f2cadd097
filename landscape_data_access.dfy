/**
 * FLandscapeComponentDataInterface: read access to one landscape component's height map and
 * weight maps at a given mip level.
 *
 * A component's vertices are laid out in `NumSubsections`² subsections of
 * `SubsectionSizeVerts` vertices per edge. Neighbouring subsections store their shared edge
 * vertex twice in the textures, so a component vertex maps to a texel through its
 * subsection; a shared vertex is read from the lower-numbered subsection. Heights are 16-bit
 * codes split over the R (high byte) and G (low byte) channels of a BGRA texel. A paint
 * layer's weight is one channel of one weight-map texture, chosen by the component's
 * allocation list.
 *
 * The pure parts (coordinate mapping, decoding, lookups) are functions of the component's
 * data; the class holds the decoded height data and the per-layer cache and its methods are
 * proved against those functions.
 */
module LandscapeDataAccess {
  import opened Wrappers
  import opened Bytes
  import opened MeshData
  import opened WeightmapAllocation

  /** The exceptions the source can raise here. */
  datatype LandscapeError =
    | UnsupportedPixelFormat   // NotImplementedException: the texture's pixel format is not supported
    | MipLevelTooLarge         // Exception: the mip level is not below the texture's mip count
    | NullBulkData             // InvalidOperationException: the mip has no bulk data
    | IndexOutOfRange          // IndexOutOfRangeException from an array or reader index
    | DivideByZero             // DivideByZeroException in the coordinate mapping

  /**
   * A texture as the reader sees it: whether its pixel format is supported, its size and the
   * bulk bytes of each mip (after platform deswizzling, `None` when absent).
   */
  datatype Texture2D = Texture2D(FormatSupported: bool, SizeX: int32, SizeY: int32, Mips: seq<Option<seq<byte>>>)

  /**
   * What the data interface reads of its component: the size fields, the height-map texture
   * with the component's texel offset into it, the weight-layer allocations and weight-map
   * textures, and the component's texel offset into a weight-map texture.
   */
  datatype ComponentInput = ComponentInput(
    ComponentSizeQuads: int32, SubsectionSizeQuads: int32, NumSubsections: int32,
    Heightmap: Texture2D, HeightmapOffsetX: int, HeightmapOffsetY: int,
    Allocations: seq<Allocation>, WeightmapTextures: seq<Texture2D>,
    WeightmapOffsetX: int, WeightmapOffsetY: int)

  // ---------------------------------------------------------------------------------------
  // C# integer operators

  /** C# `/` on `int`: the quotient truncated toward zero. */
  function CDiv(a: int, b: int): int
    requires b != 0
  {
    if a >= 0 && b > 0 then a / b
    else if a >= 0 then -(a / -b)
    else if b > 0 then -((-a) / b)
    else (-a) / (-b)
  }

  /** C# `%` on `int`: the remainder takes the sign of the dividend. */
  function CRem(a: int, b: int): int
    requires b != 0
  {
    a - CDiv(a, b) * b
  }

  /** C# `x >> m` on `int`: an arithmetic shift by the low five bits of `m`. */
  function Shr(x: int, m: int): int
  {
    ShiftRight(x, m % 32)
  }

  /** `n` one-bit arithmetic shifts, each a floor division by 2. */
  function ShiftRight(x: int, n: nat): int
  {
    if n == 0 then x else ShiftRight(x, n - 1) / 2
  }

  /** A shift never moves a value away from zero or across it. */
  lemma {:induction false} ShiftRightBounds(x: int, n: nat)
    ensures x >= 0 ==> 0 <= ShiftRight(x, n) <= x
    ensures x < 0 ==> x <= ShiftRight(x, n) < 0
  {
    if n > 0 {
      ShiftRightBounds(x, n - 1);
    }
  }

  // ---------------------------------------------------------------------------------------
  // Coordinates

  /**
   * `ComponentXYToSubsectionXY` on one axis: the subsection number and the offset in it,
   * computed from the previous vertex `c - 1` with C# division, with a negative subsection
   * number reset to (0, 0). The divisor `s - 1` must not be 0.
   */
  function SubsectionOf(c: int, s: int): (r: (int, int))
    requires s != 1
  {
    var subNum := CDiv(c - 1, s - 1);
    var sub := CRem(c - 1, s - 1) + 1;
    if subNum < 0 then (0, 0) else (subNum, sub)
  }

  /** The first vertex is offset 0 of subsection 0. */
  lemma SubsectionOfFirst(s: int)
    requires s >= 2
    ensures SubsectionOf(0, s) == (0, 0)
  {
  }

  /**
   * Every later vertex sits at an offset in [1, s - 1] of subsection `(c - 1) div (s - 1)`:
   * the shared last vertex of a subsection belongs to it, not to the next one.
   */
  lemma SubsectionOfInterior(c: int, s: int)
    requires s >= 2 && c >= 1
    ensures SubsectionOf(c, s) == ((c - 1) / (s - 1), (c - 1) % (s - 1) + 1)
    ensures 1 <= SubsectionOf(c, s).1 <= s - 1
  {
  }

  /** The boundary vertex `k(s - 1)` is the last vertex (offset s - 1) of subsection k - 1. */
  lemma SubsectionOfBoundary(k: int, s: int)
    requires s >= 2 && k >= 1
    ensures SubsectionOf(k * (s - 1), s) == (k - 1, s - 1)
  {
    var c := k * (s - 1);
    SubsectionOfInterior(c, s);
    assert c - 1 == (k - 1) * (s - 1) + (s - 2);
    DivModUnique(c - 1, s - 1, k - 1, s - 2);
  }

  lemma DivModUnique(a: int, d: int, q: int, r: int)
    requires d > 0 && 0 <= r < d && a == q * d + r
    ensures a / d == q && a % d == r
  {
    var q', r' := a / d, a % d;
    assert a == q' * d + r';
    if q' < q {
      MulMono(d, q' + 1, q);
      assert false;
    } else if q < q' {
      MulMono(d, q + 1, q');
      assert false;
    }
  }

  lemma MulMono(d: int, x: int, y: int)
    requires d >= 0 && x <= y
    ensures d * x <= d * y
  {
    assert d * y - d * x == d * (y - x);
  }

  /** `VertexXYToTexelXY` on one axis: the subsection's first texel plus the offset in it. */
  function TexelOf(c: int, s: int): int
    requires s != 1
  {
    var p := SubsectionOf(c, s);
    p.0 * s + p.1
  }

  /** Each subsection boundary adds one duplicated texel: texel = c + (c - 1) div (s - 1). */
  lemma TexelClosedForm(c: int, s: int)
    requires s >= 2 && c >= 1
    ensures TexelOf(c, s) == c + (c - 1) / (s - 1)
  {
    SubsectionOfInterior(c, s);
    var q, r := (c - 1) / (s - 1), (c - 1) % (s - 1);
    assert c - 1 == q * (s - 1) + r;
    assert TexelOf(c, s) == q * s + r + 1;
  }

  /** The vertex-to-texel map is strictly increasing on each axis, hence injective. */
  lemma TexelStrictlyIncreasing(a: int, b: int, s: int)
    requires s >= 2 && 0 <= a < b
    ensures TexelOf(a, s) < TexelOf(b, s)
  {
    TexelClosedForm(b, s);
    var qb := (b - 1) / (s - 1);
    assert qb >= 0;
    if a == 0 {
      SubsectionOfFirst(s);
      assert TexelOf(a, s) == 0;
    } else {
      TexelClosedForm(a, s);
      DivMonotone(a - 1, b - 1, s - 1);
    }
  }

  lemma DivMonotone(a: int, b: int, d: int)
    requires 0 <= a <= b && d > 0
    ensures a / d <= b / d
  {
    if a / d > b / d {
      MulMono(d, b / d + 1, a / d);
      assert false;
    }
  }

  /** `VertexIndexToXY`: column and row of a vertex index in a square of `n` vertices per row. */
  function VertexIndexToXY(vertexIndex: int, n: int): (r: (int, int))
    requires n != 0
  {
    (CRem(vertexIndex, n), CDiv(vertexIndex, n))
  }

  /** `XYtoVertexIndex`: the row-major index of a vertex. */
  function XYToVertexIndex(x: int, y: int, n: int): int
  {
    y * n + x
  }

  /** Index to coordinates and back is the identity on the component's vertices. */
  lemma VertexIndexRoundTrip(vertexIndex: int, n: int)
    requires n > 0 && 0 <= vertexIndex < n * n
    ensures var p := VertexIndexToXY(vertexIndex, n);
      0 <= p.0 < n && 0 <= p.1 < n && XYToVertexIndex(p.0, p.1, n) == vertexIndex
  {
    var q, m := vertexIndex / n, vertexIndex % n;
    assert vertexIndex == q * n + m;
    assert CDiv(vertexIndex, n) == q;
    assert CRem(vertexIndex, n) == m;
    assert VertexIndexToXY(vertexIndex, n) == (m, q);
    if q >= n {
      MulMono(n, n, q);
      assert false;
    }
  }

  /** Coordinates to index and back is the identity on the component's vertices. */
  lemma XYRoundTrip(x: int, y: int, n: int)
    requires n > 0 && 0 <= x < n && 0 <= y < n
    ensures 0 <= XYToVertexIndex(x, y, n) < n * n
    ensures VertexIndexToXY(XYToVertexIndex(x, y, n), n) == (x, y)
  {
    var i := XYToVertexIndex(x, y, n);
    DivModUnique(i, n, y, x);
    MulMono(n, y + 1, n);
  }

  // ---------------------------------------------------------------------------------------
  // Texture bytes

  /** The colour at texel `i` of BGRA bulk bytes (the in-memory order of `FColor`). */
  function ColorAt(bulk: seq<byte>, i: nat): FColor
    requires 4 * i + 3 < |bulk|
  {
    FColor(bulk[4 * i], bulk[4 * i + 1], bulk[4 * i + 2], bulk[4 * i + 3])
  }

  /** `ReadArray<FColor>(bulk.Length / 4)`: every whole texel of the bulk bytes. */
  function ColorsOf(bulk: seq<byte>): (r: seq<FColor>)
    ensures |r| == |bulk| / 4
  {
    seq(|bulk| / 4, i requires 0 <= i < |bulk| / 4 => ColorAt(bulk, i))
  }

  /** The in-memory bytes of one `FColor`: B, G, R, A. */
  function MemoryBytes(c: FColor): (r: seq<byte>)
    ensures |r| == 4
  {
    [c.B, c.G, c.R, c.A]
  }

  /** Decoding colours laid out in memory gives them back. */
  lemma ColorsOfMemory(cs: seq<FColor>)
    ensures ColorsOf(EncodeAll(MemoryBytes, cs)) == cs
  {
    var bulk := EncodeAll(MemoryBytes, cs);
    EncodeAllLength(MemoryBytes, cs, 4);
    forall i | 0 <= i < |cs|
      ensures ColorAt(bulk, i) == cs[i]
    {
      MemoryBytesAt(cs, i);
    }
  }

  lemma MemoryBytesAt(cs: seq<FColor>, i: nat)
    requires i < |cs|
    ensures |EncodeAll(MemoryBytes, cs)| == 4 * |cs|
    ensures EncodeAll(MemoryBytes, cs)[4 * i .. 4 * i + 4] == MemoryBytes(cs[i])
  {
    EncodeAllLength(MemoryBytes, cs, 4);
    EncodeAllLength(MemoryBytes, cs[..i], 4);
    EncodeAllPrefixStep(MemoryBytes, cs, i);
    assert cs == cs[..i + 1] + cs[i + 1..];
    EncodeAllConcat(MemoryBytes, cs[..i + 1], cs[i + 1..]);
  }

  /** `Marshal.OffsetOf<FColor>` of R, G, B, A: the byte offset of each weight channel. */
  const CHANNEL_OFFSETS: seq<int> := [2, 1, 0, 3]

  /** Weight channel `k` of a colour: 0 is R, 1 is G, 2 is B, 3 is A. */
  function ChannelOf(c: FColor, k: int): byte
    requires 0 <= k < 4
  {
    if k == 0 then c.R else if k == 1 then c.G else if k == 2 then c.B else c.A
  }

  /** The channel offsets pick the named channel out of a texel's in-memory bytes. */
  lemma ChannelOffsetsMatchLayout(bulk: seq<byte>, i: nat, k: int)
    requires 0 <= k < 4 && 4 * i + 3 < |bulk|
    ensures bulk[4 * i + CHANNEL_OFFSETS[k]] == ChannelOf(ColorAt(bulk, i), k)
  {
  }

  /**
   * The loop of `GetWeightmapTextureData`: byte `off` of each of the first `n` texels; every
   * read lies in the bulk data, the last one at `4 * (n - 1) + off`.
   */
  function DecodedChannel(bulk: seq<byte>, off: int, n: nat): (r: seq<byte>)
    requires 0 <= off < 4 && 4 * (n - 1) + off < |bulk|
    ensures |r| == n
  {
    seq(n, i requires 0 <= i < n => bulk[4 * i + off])
  }

  /** Each decoded weight is the chosen channel of the texel at the same position. */
  lemma DecodedChannelIsChannel(bulk: seq<byte>, k: int, n: nat, i: nat)
    requires 0 <= k < 4 && 4 * n <= |bulk| && i < n
    ensures DecodedChannel(bulk, CHANNEL_OFFSETS[k], n)[i] == ChannelOf(ColorsOf(bulk)[i], k)
  {
  }

  /** `GetHeight`: the 16-bit height code `(R << 8) + G`. */
  function HeightCode(texel: FColor): (h: int)
    ensures 0 <= h <= 0xFFFF
    ensures h / 0x100 == texel.R && h % 0x100 == texel.G
  {
    DivModUnique(texel.R * 0x100 + texel.G, 0x100, texel.R, texel.G);
    texel.R * 0x100 + texel.G
  }

  // ---------------------------------------------------------------------------------------
  // Derived sizes and the height map

  function ComponentSizeVertsOf(c: ComponentInput, mip: int): int { Shr(c.ComponentSizeQuads + 1, mip) }
  function SubsectionSizeVertsOf(c: ComponentInput, mip: int): int { Shr(c.SubsectionSizeQuads + 1, mip) }

  /** The edge of a component's weight data: `((SubsectionSizeQuads + 1) * NumSubsections) >> mip`. */
  function WeightmapSize(c: ComponentInput, mip: int): int { Shr((c.SubsectionSizeQuads + 1) * c.NumSubsections, mip) }

  /** Why construction fails, if it does: format, then mip count, then missing bulk data. */
  function HeightmapCheck(tex: Texture2D, mip: int): (r: Option<LandscapeError>)
    ensures r == None <==> tex.FormatSupported && 0 <= mip < |tex.Mips| && tex.Mips[mip].Some?
    ensures !tex.FormatSupported ==> r == Some(UnsupportedPixelFormat)
    ensures tex.FormatSupported && mip >= |tex.Mips| ==> r == Some(MipLevelTooLarge)
    ensures tex.FormatSupported && 0 <= mip < |tex.Mips| && tex.Mips[mip].None? ==> r == Some(NullBulkData)
  {
    if !tex.FormatSupported then Some(UnsupportedPixelFormat)
    else if mip >= |tex.Mips| then Some(MipLevelTooLarge)
    else if mip < 0 then Some(IndexOutOfRange)
    else if tex.Mips[mip].None? then Some(NullBulkData)
    else None
  }

  /** A texel position in the height data: `texelX + offX + (texelY + offY) * stride`. */
  function TexelIndex(texelX: int, texelY: int, offX: int, offY: int, stride: int): int
  {
    texelX + offX + (texelY + offY) * stride
  }

  // ---------------------------------------------------------------------------------------
  // Weight maps

  /** The first allocation whose layer is `layer`, or -1. */
  function FirstMatch(allocs: seq<Allocation>, layer: FPackageIndex): (r: int)
    ensures -1 <= r < |allocs|
    ensures r >= 0 ==> allocs[r].LayerInfo == layer && forall k :: 0 <= k < r ==> allocs[k].LayerInfo != layer
    ensures r == -1 ==> forall k :: 0 <= k < |allocs| ==> allocs[k].LayerInfo != layer
  {
    if allocs == [] then -1
    else if allocs[0].LayerInfo == layer then 0
    else
      var r := FirstMatch(allocs[1..], layer);
      if r < 0 then -1 else r + 1
  }

  /** `GetWeightMapIndex`'s verdict: a match whose texture index and channel are both in range. */
  predicate AllocationUsable(c: ComponentInput, layerIdx: int)
  {
    0 <= layerIdx < |c.Allocations| &&
    c.Allocations[layerIdx].WeightmapTextureIndex < |c.WeightmapTextures| &&
    c.Allocations[layerIdx].WeightmapTextureChannel < 4
  }

  /** What `GetWeightmapTextureData` reports: whether the layer was found, and its bytes. */
  datatype WeightData = WeightData(Found: bool, Data: seq<byte>)

  /**
   * `GetWeightmapTextureData` without the cache: an unusable allocation gives (false, []);
   * otherwise the chosen texture's chosen channel over the first `WeightmapSize`² texels,
   * failing on an unsupported format, a mip index out of range, missing bulk data or bulk
   * data that ends before the last byte read.
   */
  function DecodeWeightmap(c: ComponentInput, mip: int, layer: FPackageIndex): (r: Result<WeightData, LandscapeError>)
    ensures !AllocationUsable(c, FirstMatch(c.Allocations, layer)) ==> r == Success(WeightData(false, []))
    ensures r.Success? && r.value.Found ==> |r.value.Data| == WeightmapSize(c, mip) * WeightmapSize(c, mip)
  {
    var idx := FirstMatch(c.Allocations, layer);
    if !AllocationUsable(c, idx) then Success(WeightData(false, []))
    else
      var alloc := c.Allocations[idx];
      var tex := c.WeightmapTextures[alloc.WeightmapTextureIndex];
      var size := WeightmapSize(c, mip);
      if !tex.FormatSupported then Failure(UnsupportedPixelFormat)
      else if !(0 <= mip < |tex.Mips|) then Failure(IndexOutOfRange)
      else if tex.Mips[mip].None? then Failure(NullBulkData)
      else if 4 * (size * size - 1) + CHANNEL_OFFSETS[alloc.WeightmapTextureChannel] >= |tex.Mips[mip].value| then Failure(IndexOutOfRange)
      else Success(WeightData(true, DecodedChannel(tex.Mips[mip].value, CHANNEL_OFFSETS[alloc.WeightmapTextureChannel], size * size)))
  }

  /** `GetWeightmapTextureData` with the cache: a cached layer name answers from the cache. */
  function WeightmapData(cache: map<string, seq<byte>>, name: string, c: ComponentInput, mip: int, layer: FPackageIndex): (r: Result<WeightData, LandscapeError>)
    ensures name in cache ==> r == Success(WeightData(true, cache[name]))
    ensures name !in cache ==> r == DecodeWeightmap(c, mip, layer)
  {
    if name in cache then Success(WeightData(true, cache[name])) else DecodeWeightmap(c, mip, layer)
  }

  /**
   * The position `GetLayerWeight` reads for vertex (x, y): the vertex's texel, shifted by the
   * component's offset into the weight-map texture, in rows of the whole texture's width.
   */
  function WeightIndex(c: ComponentInput, mip: int, x: int, y: int, layer: FPackageIndex): int
    requires SubsectionSizeVertsOf(c, mip) != 1 && AllocationUsable(c, FirstMatch(c.Allocations, layer))
  {
    var s := SubsectionSizeVertsOf(c, mip);
    var tex := c.WeightmapTextures[c.Allocations[FirstMatch(c.Allocations, layer)].WeightmapTextureIndex];
    TexelIndex(TexelOf(x, s), TexelOf(y, s), c.WeightmapOffsetX, c.WeightmapOffsetY, Shr(tex.SizeX, mip))
  }

  /**
   * `GetLayerWeight` as written: map the vertex to its texel, fetch the layer's data, return
   * 0 when the layer has no usable allocation or no data, and otherwise read the fetched data
   * at the vertex's texture-wide position.
   */
  function LayerWeight(cache: map<string, seq<byte>>, name: string, c: ComponentInput, mip: int,
                       x: int, y: int, layer: FPackageIndex): (r: Result<byte, LandscapeError>)
    ensures SubsectionSizeVertsOf(c, mip) == 1 ==> r == Failure(DivideByZero)
    ensures (SubsectionSizeVertsOf(c, mip) != 1 && WeightmapData(cache, name, c, mip, layer).Success? &&
             !AllocationUsable(c, FirstMatch(c.Allocations, layer))) ==> r == Success(0)
  {
    if SubsectionSizeVertsOf(c, mip) == 1 then Failure(DivideByZero)
    else
      var wd := WeightmapData(cache, name, c, mip, layer);
      if wd.Failure? then Failure(wd.error)
      else if !AllocationUsable(c, FirstMatch(c.Allocations, layer)) then Success(0)
      else if !wd.value.Found then Success(0)
      else
        var i := WeightIndex(c, mip, x, y, layer);
        if 0 <= i < |wd.value.Data| then Success(wd.value.Data[i]) else Failure(IndexOutOfRange)
  }

  /** With usable, found data the lookup reads the data at `WeightIndex`, if it is there. */
  lemma LayerWeightFound(cache: map<string, seq<byte>>, name: string, c: ComponentInput, mip: int,
                         x: int, y: int, layer: FPackageIndex)
    requires SubsectionSizeVertsOf(c, mip) != 1 && AllocationUsable(c, FirstMatch(c.Allocations, layer))
    requires WeightmapData(cache, name, c, mip, layer).Success? && WeightmapData(cache, name, c, mip, layer).value.Found
    ensures var d := WeightmapData(cache, name, c, mip, layer).value.Data;
      var i := WeightIndex(c, mip, x, y, layer);
      LayerWeight(cache, name, c, mip, x, y, layer) == if 0 <= i < |d| then Success(d[i]) else Failure(IndexOutOfRange)
  {
  }

  /** The layer's allocation is usable and its texture has bulk data at the mip. */
  predicate LayerMipPresent(c: ComponentInput, mip: int, layer: FPackageIndex)
  {
    AllocationUsable(c, FirstMatch(c.Allocations, layer)) &&
    var tex := c.WeightmapTextures[c.Allocations[FirstMatch(c.Allocations, layer)].WeightmapTextureIndex];
    tex.FormatSupported && 0 <= mip < |tex.Mips| && tex.Mips[mip].Some?
  }

  /** The channel the layer's allocation names. */
  function LayerChannel(c: ComponentInput, layer: FPackageIndex): int
    requires AllocationUsable(c, FirstMatch(c.Allocations, layer))
  {
    c.Allocations[FirstMatch(c.Allocations, layer)].WeightmapTextureChannel as int
  }

  /** The bulk bytes of the layer's texture at the mip. */
  function LayerBulk(c: ComponentInput, mip: int, layer: FPackageIndex): seq<byte>
    requires LayerMipPresent(c, mip, layer)
  {
    c.WeightmapTextures[c.Allocations[FirstMatch(c.Allocations, layer)].WeightmapTextureIndex].Mips[mip].value
  }

  /**
   * On a cache miss the lookup reads the texel's channel byte when the position falls inside
   * the decoded `WeightmapSize`² texels, and throws when it falls past them, wherever the
   * texture itself ends.
   */
  lemma LayerWeightReadsDecodedPrefix(cache: map<string, seq<byte>>, name: string, c: ComponentInput, mip: int,
                                      x: int, y: int, layer: FPackageIndex)
    requires name !in cache
    requires SubsectionSizeVertsOf(c, mip) != 1 && AllocationUsable(c, FirstMatch(c.Allocations, layer))
    requires DecodeWeightmap(c, mip, layer).Success?
    ensures LayerMipPresent(c, mip, layer)
    ensures var i := WeightIndex(c, mip, x, y, layer);
      var n := |DecodeWeightmap(c, mip, layer).value.Data|;
      var off := CHANNEL_OFFSETS[LayerChannel(c, layer)];
      n == WeightmapSize(c, mip) * WeightmapSize(c, mip) &&
      4 * (n - 1) + off < |LayerBulk(c, mip, layer)| &&
      (0 <= i < n ==> LayerWeight(cache, name, c, mip, x, y, layer) == Success(LayerBulk(c, mip, layer)[4 * i + off])) &&
      (i >= n ==> LayerWeight(cache, name, c, mip, x, y, layer) == Failure(IndexOutOfRange))
  {
  }

  /**
   * The lookup the index arithmetic evidently intends: the channel of the texel at the
   * vertex's texture-wide position, read from the whole mip rather than from its first
   * `WeightmapSize`² texels.
   */
  function LayerWeightCorrected(c: ComponentInput, mip: int, x: int, y: int, layer: FPackageIndex): (r: Result<byte, LandscapeError>)
    ensures SubsectionSizeVertsOf(c, mip) == 1 ==> r == Failure(DivideByZero)
    ensures SubsectionSizeVertsOf(c, mip) != 1 && !AllocationUsable(c, FirstMatch(c.Allocations, layer)) ==> r == Success(0)
  {
    if SubsectionSizeVertsOf(c, mip) == 1 then Failure(DivideByZero)
    else if !AllocationUsable(c, FirstMatch(c.Allocations, layer)) then Success(0)
    else
      var alloc := c.Allocations[FirstMatch(c.Allocations, layer)];
      var tex := c.WeightmapTextures[alloc.WeightmapTextureIndex];
      if !tex.FormatSupported then Failure(UnsupportedPixelFormat)
      else if !(0 <= mip < |tex.Mips|) then Failure(IndexOutOfRange)
      else if tex.Mips[mip].None? then Failure(NullBulkData)
      else
        var bulk := tex.Mips[mip].value;
        var i := WeightIndex(c, mip, x, y, layer);
        if 0 <= i && 4 * i + CHANNEL_OFFSETS[alloc.WeightmapTextureChannel] < |bulk| then Success(bulk[4 * i + CHANNEL_OFFSETS[alloc.WeightmapTextureChannel]])
        else Failure(IndexOutOfRange)
  }

  /** Where the texel lies in the mip, the corrected lookup reads the allocation's channel of it. */
  lemma CorrectedReadsChannel(c: ComponentInput, mip: int, x: int, y: int, layer: FPackageIndex)
    requires SubsectionSizeVertsOf(c, mip) != 1 && LayerMipPresent(c, mip, layer)
    ensures var i := WeightIndex(c, mip, x, y, layer);
      0 <= i && 4 * i + 3 < |LayerBulk(c, mip, layer)| ==>
        LayerWeightCorrected(c, mip, x, y, layer) == Success(ChannelOf(ColorAt(LayerBulk(c, mip, layer), i), LayerChannel(c, layer)))
  {
    var i := WeightIndex(c, mip, x, y, layer);
    if 0 <= i && 4 * i + 3 < |LayerBulk(c, mip, layer)| {
      ChannelOffsetsMatchLayout(LayerBulk(c, mip, layer), i, LayerChannel(c, layer));
    }
  }

  /**
   * The corrected lookup agrees with the lookup as written wherever the latter succeeds in
   * reading the data.
   */
  lemma CorrectedAgreesWhereReadSucceeds(cache: map<string, seq<byte>>, name: string, c: ComponentInput, mip: int,
                                         x: int, y: int, layer: FPackageIndex)
    requires SubsectionSizeVertsOf(c, mip) != 1 && AllocationUsable(c, FirstMatch(c.Allocations, layer))
    requires name !in cache && DecodeWeightmap(c, mip, layer).Success?
    ensures LayerWeight(cache, name, c, mip, x, y, layer).Success? ==>
      LayerWeightCorrected(c, mip, x, y, layer) == LayerWeight(cache, name, c, mip, x, y, layer)
  {
    LayerWeightReadsDecodedPrefix(cache, name, c, mip, x, y, layer);
  }

  const LAYER := FPackageIndex(Some(1), 1)

  /**
   * With no offset into the texture, vertex (0, 1) reads texture-wide position `stride`, the
   * texture's width at the mip; when that is at least the number of decoded weights, the
   * lookup as written throws.
   */
  lemma SecondRowReadsPastDecoded(cache: map<string, seq<byte>>, name: string, c: ComponentInput, mip: int,
                                  layer: FPackageIndex, stride: int)
    requires name !in cache
    requires SubsectionSizeVertsOf(c, mip) >= 2 && AllocationUsable(c, FirstMatch(c.Allocations, layer))
    requires c.WeightmapOffsetX == 0 && c.WeightmapOffsetY == 0
    requires stride == Shr(c.WeightmapTextures[c.Allocations[FirstMatch(c.Allocations, layer)].WeightmapTextureIndex].SizeX, mip)
    requires DecodeWeightmap(c, mip, layer).Success?
    requires stride >= WeightmapSize(c, mip) * WeightmapSize(c, mip)
    ensures LayerWeight(cache, name, c, mip, 0, 1, layer) == Failure(IndexOutOfRange)
  {
    WeightIndexSecondRow(c, mip, layer, stride);
    LayerWeightReadsDecodedPrefix(cache, name, c, mip, 0, 1, layer);
  }

  /**
   * Under the same offsets the corrected lookup of vertex (0, 1) reads the allocation's
   * channel of texel `stride`, whenever that texel lies in the mip.
   */
  lemma SecondRowCorrected(c: ComponentInput, mip: int, layer: FPackageIndex, stride: int)
    requires SubsectionSizeVertsOf(c, mip) >= 2 && LayerMipPresent(c, mip, layer)
    requires c.WeightmapOffsetX == 0 && c.WeightmapOffsetY == 0
    requires stride == Shr(c.WeightmapTextures[c.Allocations[FirstMatch(c.Allocations, layer)].WeightmapTextureIndex].SizeX, mip)
    requires 0 <= stride && 4 * stride + 3 < |LayerBulk(c, mip, layer)|
    ensures LayerWeightCorrected(c, mip, 0, 1, layer) ==
      Success(ChannelOf(ColorAt(LayerBulk(c, mip, layer), stride), LayerChannel(c, layer)))
  {
    WeightIndexSecondRow(c, mip, layer, stride);
    CorrectedReadsChannel(c, mip, 0, 1, layer);
  }

  /**
   * The counterexample's shape: one subsection of one quad (2 x 2 vertices at mip 0) whose
   * weights sit at the top left of a 4 x 4 weight-map texture of 64 bulk bytes, with one
   * allocation for `LAYER` on the texture's red channel.
   */
  predicate IsWideWeightmap(c: ComponentInput, bulk: seq<byte>)
  {
    |bulk| == 64 &&
    c == ComponentInput(1, 1, 1, c.Heightmap, c.HeightmapOffsetX, c.HeightmapOffsetY,
                        [Allocation(LAYER, 0, 0)], [Texture2D(true, 4, 4, [Some(bulk)])], 0, 0)
  }

  /** A component of that shape, for any 64 bytes of weight-map data. */
  function WideWeightmapComponent(bulk: seq<byte>): (c: ComponentInput)
    requires |bulk| == 64
    ensures IsWideWeightmap(c, bulk)
  {
    var tex := Texture2D(true, 4, 4, [Some(bulk)]);
    ComponentInput(1, 1, 1, tex, 0, 0, [Allocation(LAYER, 0, 0)], [tex], 0, 0)
  }

  /** For any subsection size, the first two vertices of an axis are its first two texels. */
  lemma FirstTexels(s: int)
    requires s >= 2
    ensures TexelOf(0, s) == 0 && TexelOf(1, s) == 1
  {
    SubsectionOfFirst(s);
    DivModUnique(0, s - 1, 0, 0);
    assert CDiv(0, s - 1) == 0 && CRem(0, s - 1) == 0;
    assert SubsectionOf(1, s) == (0, 1);
  }

  /** With no offset into the texture, vertex (0, 1) reads the first texel of the second row. */
  lemma WeightIndexSecondRow(c: ComponentInput, mip: int, layer: FPackageIndex, stride: int)
    requires SubsectionSizeVertsOf(c, mip) >= 2 && AllocationUsable(c, FirstMatch(c.Allocations, layer))
    requires c.WeightmapOffsetX == 0 && c.WeightmapOffsetY == 0
    requires stride == Shr(c.WeightmapTextures[c.Allocations[FirstMatch(c.Allocations, layer)].WeightmapTextureIndex].SizeX, mip)
    ensures WeightIndex(c, mip, 0, 1, layer) == stride
  {
    FirstTexels(SubsectionSizeVertsOf(c, mip));
  }

  /** Such a component has subsections of 2 vertices, its one allocation, stride 4. */
  lemma WideWeightmapShape(c: ComponentInput, bulk: seq<byte>)
    requires IsWideWeightmap(c, bulk)
    ensures SubsectionSizeVertsOf(c, 0) == 2 && WeightmapSize(c, 0) == 2
    ensures FirstMatch(c.Allocations, LAYER) == 0 && AllocationUsable(c, 0)
    ensures Shr(c.WeightmapTextures[0].SizeX, 0) == 4
    ensures LayerMipPresent(c, 0, LAYER) && LayerBulk(c, 0, LAYER) == bulk && LayerChannel(c, LAYER) == 0
  {
    assert c.Allocations[0].LayerInfo == LAYER;
  }

  /** Its layer decodes to the 4 weights of the texture's first 4 texels. */
  lemma WideWeightmapDecodes(c: ComponentInput, bulk: seq<byte>)
    requires IsWideWeightmap(c, bulk)
    ensures DecodeWeightmap(c, 0, LAYER) == Success(WeightData(true, DecodedChannel(bulk, 2, 4)))
  {
    WideWeightmapShape(c, bulk);
  }

  /**
   * The discrepancy, as written: the texel of vertex (0, 1) (texture-wide position 4) lies in
   * the mip, yet the lookup throws because only 4 weights were decoded.
   */
  lemma WeightReadOutsideDecodedSlice(c: ComponentInput, bulk: seq<byte>)
    requires IsWideWeightmap(c, bulk)
    ensures LayerWeight(map[], "Layer", c, 0, 0, 1, LAYER) == Failure(IndexOutOfRange)
  {
    WideWeightmapShape(c, bulk);
    WideWeightmapDecodes(c, bulk);
    SecondRowReadsPastDecoded(map[], "Layer", c, 0, LAYER, 4);
  }

  /** The corrected lookup on the same component reads the red channel of texel 4. */
  lemma WeightReadCorrected(c: ComponentInput, bulk: seq<byte>)
    requires IsWideWeightmap(c, bulk)
    ensures LayerWeightCorrected(c, 0, 0, 1, LAYER) == Success(ChannelOf(ColorAt(bulk, 4), 0))
  {
    WideWeightmapShape(c, bulk);
    SecondRowCorrected(c, 0, LAYER, 4);
  }

  // ---------------------------------------------------------------------------------------
  // The data interface

  class FLandscapeComponentDataInterface {
    const Component: ComponentInput
    const MipLevel: int
    /** `LayerInfo.Name`: the name a layer reference resolves to, the cache key. */
    const NameOf: FPackageIndex -> string
    const HeightmapStride: int
    const HeightmapComponentOffsetX: int
    const HeightmapComponentOffsetY: int
    const HeightmapSubsectionOffset: int
    const ComponentSizeVerts: int
    const SubsectionSizeVerts: int
    const ComponentNumSubsections: int
    const HeightMipData: array<FColor>
    /** Decoded weight data per layer name. */
    var Cache: map<string, seq<byte>>

    /** Every cached entry is the decoded data of a layer with that name. */
    ghost predicate CacheValid()
      reads this
    {
      forall n :: n in Cache ==> exists l :: NameOf(l) == n && DecodeWeightmap(Component, MipLevel, l) == Success(WeightData(true, Cache[n]))
    }

    /** The derived sizes are those of the component at the interface's mip level. */
    predicate SizesDerived()
    {
      SubsectionSizeVerts == SubsectionSizeVertsOf(Component, MipLevel) &&
      ComponentSizeVerts == ComponentSizeVertsOf(Component, MipLevel)
    }

    /** The field assignments of the constructor, once the height data is decoded. */
    constructor Init(component: ComponentInput, mipLevel: int, nameOf: FPackageIndex -> string, heightMipData: array<FColor>)
      ensures Component == component && MipLevel == mipLevel && NameOf == nameOf && HeightMipData == heightMipData
      ensures HeightmapStride == Shr(component.Heightmap.SizeX, mipLevel)
      ensures HeightmapComponentOffsetX == component.HeightmapOffsetX && HeightmapComponentOffsetY == component.HeightmapOffsetY
      ensures HeightmapSubsectionOffset == Shr(component.SubsectionSizeQuads + 1, mipLevel)
      ensures ComponentSizeVerts == ComponentSizeVertsOf(component, mipLevel)
      ensures SubsectionSizeVerts == SubsectionSizeVertsOf(component, mipLevel)
      ensures ComponentNumSubsections == component.NumSubsections
      ensures Cache == map[]
    {
      Component := component;
      MipLevel := mipLevel;
      NameOf := nameOf;
      HeightmapStride := Shr(component.Heightmap.SizeX, mipLevel);
      HeightmapComponentOffsetX := component.HeightmapOffsetX;
      HeightmapComponentOffsetY := component.HeightmapOffsetY;
      HeightmapSubsectionOffset := Shr(component.SubsectionSizeQuads + 1, mipLevel);
      ComponentSizeVerts := ComponentSizeVertsOf(component, mipLevel);
      SubsectionSizeVerts := SubsectionSizeVertsOf(component, mipLevel);
      ComponentNumSubsections := component.NumSubsections;
      HeightMipData := heightMipData;
      Cache := map[];
    }

    /** `GetHeightData`: the texel of a component vertex, or an out-of-range read. */
    function GetHeightData(localX: int, localY: int): (r: Result<FColor, LandscapeError>)
      reads HeightMipData
      requires SubsectionSizeVerts != 1
      ensures r.Success? <==> 0 <= TexelIndex(TexelOf(localX, SubsectionSizeVerts), TexelOf(localY, SubsectionSizeVerts),
                                              HeightmapComponentOffsetX, HeightmapComponentOffsetY, HeightmapStride) < HeightMipData.Length
    {
      var i := TexelIndex(TexelOf(localX, SubsectionSizeVerts), TexelOf(localY, SubsectionSizeVerts),
                          HeightmapComponentOffsetX, HeightmapComponentOffsetY, HeightmapStride);
      if 0 <= i < HeightMipData.Length then Success(HeightMipData[i]) else Failure(IndexOutOfRange)
    }

    /** `GetHeight(x, y)`: the 16-bit code of the vertex's texel, split back into its R and G bytes. */
    function GetHeight(localX: int, localY: int): (r: Result<int, LandscapeError>)
      reads HeightMipData
      ensures SubsectionSizeVerts == 1 ==> r == Failure(DivideByZero)
      ensures r.Success? ==> (SubsectionSizeVerts != 1 && GetHeightData(localX, localY).Success? &&
        0 <= r.value <= 0xFFFF &&
        r.value / 0x100 == GetHeightData(localX, localY).value.R &&
        r.value % 0x100 == GetHeightData(localX, localY).value.G)
      ensures SubsectionSizeVerts != 1 && GetHeightData(localX, localY).Success? ==>
        r == Success(HeightCode(GetHeightData(localX, localY).value))
      ensures SubsectionSizeVerts != 1 && GetHeightData(localX, localY).Failure? ==> r == Failure(IndexOutOfRange)
    {
      if SubsectionSizeVerts == 1 then Failure(DivideByZero)
      else
        var t := GetHeightData(localX, localY);
        if t.Failure? then Failure(t.error) else Success(HeightCode(t.value))
    }

    /** `GetHeight(vertexIndex)`: the height at the vertex's coordinates. */
    function GetHeightAt(vertexIndex: int): (r: Result<int, LandscapeError>)
      reads HeightMipData
      ensures ComponentSizeVerts == 0 ==> r == Failure(DivideByZero)
      ensures ComponentSizeVerts != 0 ==>
        r == GetHeight(VertexIndexToXY(vertexIndex, ComponentSizeVerts).0, VertexIndexToXY(vertexIndex, ComponentSizeVerts).1)
    {
      if ComponentSizeVerts == 0 then Failure(DivideByZero)
      else
        var p := VertexIndexToXY(vertexIndex, ComponentSizeVerts);
        GetHeight(p.0, p.1)
    }

    /**
     * `GetWeightMapIndex`: the index of the first allocation for the layer (-1 if none), and
     * whether that allocation's texture index and channel are in range.
     */
    method GetWeightMapIndex(layerInfo: FPackageIndex) returns (found: bool, layerIdx: int)
      ensures layerIdx == FirstMatch(Component.Allocations, layerInfo)
      ensures found <==> AllocationUsable(Component, layerIdx)
    {
      var allocs := Component.Allocations;
      layerIdx := -1;
      var idx := 0;
      while idx < |allocs|
        invariant 0 <= idx <= |allocs|
        invariant forall k :: 0 <= k < idx ==> allocs[k].LayerInfo != layerInfo
      {
        if allocs[idx].LayerInfo == layerInfo {
          layerIdx := idx;
          break;
        }
        idx := idx + 1;
      }
      FirstMatchUnique(allocs, layerInfo, layerIdx);
      if layerIdx < 0 {
        return false, layerIdx;
      }
      if allocs[layerIdx].WeightmapTextureIndex >= |Component.WeightmapTextures| {
        return false, layerIdx;
      }
      if allocs[layerIdx].WeightmapTextureChannel >= 4 {
        return false, layerIdx;
      }
      return true, layerIdx;
    }

    /**
     * `GetWeightmapTextureData`: a cached layer name answers from the cache; otherwise the
     * layer's channel is decoded and, on success, cached under the layer's name.
     */
    method GetWeightmapTextureData(layerInfo: FPackageIndex) returns (r: Result<WeightData, LandscapeError>)
      requires CacheValid()
      modifies this
      ensures r == WeightmapData(old(Cache), NameOf(layerInfo), Component, MipLevel, layerInfo)
      ensures NameOf(layerInfo) in old(Cache) ==> Cache == old(Cache)
      ensures NameOf(layerInfo) !in old(Cache) && r.Success? && r.value.Found ==> Cache == old(Cache)[NameOf(layerInfo) := r.value.Data]
      ensures NameOf(layerInfo) !in old(Cache) && !(r.Success? && r.value.Found) ==> Cache == old(Cache)
      ensures CacheValid()
    {
      var name := NameOf(layerInfo);
      if name in Cache {
        return Success(WeightData(true, Cache[name]));
      }
      var found, layerIdx := GetWeightMapIndex(layerInfo);
      if !found {
        return Success(WeightData(false, []));
      }
      var alloc := Component.Allocations[layerIdx];
      var size := WeightmapSize(Component, MipLevel);
      var tex := Component.WeightmapTextures[alloc.WeightmapTextureIndex];
      if !tex.FormatSupported {
        return Failure(UnsupportedPixelFormat);
      }
      if !(0 <= MipLevel < |tex.Mips|) {
        return Failure(IndexOutOfRange);
      }
      if tex.Mips[MipLevel].None? {
        return Failure(NullBulkData);
      }
      var bulk := tex.Mips[MipLevel].value;
      var n := size * size;
      var data := ExtractChannel(bulk, CHANNEL_OFFSETS[alloc.WeightmapTextureChannel], n);
      if data.None? {
        return Failure(IndexOutOfRange);
      }
      r := Success(WeightData(true, data.value));
      assert DecodeWeightmap(Component, MipLevel, layerInfo) == r;
      Cache := Cache[name := data.value];
    }

    /**
     * `GetLayerWeight`: the layer's weight at a component vertex, 0 when the layer has no
     * usable allocation or data, with the weight data fetched through the cache.
     */
    method GetLayerWeight(localX: int, localY: int, layerInfo: FPackageIndex) returns (r: Result<byte, LandscapeError>)
      requires SizesDerived() && CacheValid()
      modifies this
      ensures r == LayerWeight(old(Cache), NameOf(layerInfo), Component, MipLevel, localX, localY, layerInfo)
      ensures SubsectionSizeVerts == 1 || NameOf(layerInfo) in old(Cache) ==> Cache == old(Cache)
      ensures SubsectionSizeVerts != 1 && NameOf(layerInfo) !in old(Cache) &&
              DecodeWeightmap(Component, MipLevel, layerInfo).Success? && DecodeWeightmap(Component, MipLevel, layerInfo).value.Found ==>
                Cache == old(Cache)[NameOf(layerInfo) := DecodeWeightmap(Component, MipLevel, layerInfo).value.Data]
      ensures SubsectionSizeVerts != 1 && NameOf(layerInfo) !in old(Cache) &&
              !(DecodeWeightmap(Component, MipLevel, layerInfo).Success? && DecodeWeightmap(Component, MipLevel, layerInfo).value.Found) ==>
                Cache == old(Cache)
      ensures CacheValid()
    {
      assert SubsectionSizeVerts == SubsectionSizeVertsOf(Component, MipLevel);
      if SubsectionSizeVerts == 1 {
        return Failure(DivideByZero);
      }
      var texelX, texelY := TexelOf(localX, SubsectionSizeVerts), TexelOf(localY, SubsectionSizeVerts);
      var weightData := GetWeightmapTextureData(layerInfo);
      if weightData.Failure? {
        return Failure(weightData.error);
      }
      var found, layerIdx := GetWeightMapIndex(layerInfo);
      if !found {
        return Success(0);
      }
      var tex := Component.WeightmapTextures[Component.Allocations[layerIdx].WeightmapTextureIndex];
      var stride := Shr(tex.SizeX, MipLevel);
      if weightData.value.Found {
        var i := TexelIndex(texelX, texelY, Component.WeightmapOffsetX, Component.WeightmapOffsetY, stride);
        assert i == WeightIndex(Component, MipLevel, localX, localY, layerInfo);
        LayerWeightFound(old(Cache), NameOf(layerInfo), Component, MipLevel, localX, localY, layerInfo);
        if 0 <= i < |weightData.value.Data| {
          return Success(weightData.value.Data[i]);
        }
        return Failure(IndexOutOfRange);
      }
      return Success(0);
    }

    /** With distinct layer names, answering from the cache is the same as decoding afresh. */
    lemma CachedIsDecoded(layer: FPackageIndex)
      requires CacheValid()
      requires forall a, b :: NameOf(a) == NameOf(b) ==> a == b
      ensures WeightmapData(Cache, NameOf(layer), Component, MipLevel, layer) == DecodeWeightmap(Component, MipLevel, layer)
    {
      if NameOf(layer) in Cache {
        var l :| NameOf(l) == NameOf(layer) && DecodeWeightmap(Component, MipLevel, l) == Success(WeightData(true, Cache[NameOf(layer)]));
      }
    }
  }

  /** A search result that satisfies `FirstMatch`'s characterisation is `FirstMatch`. */
  lemma FirstMatchUnique(allocs: seq<Allocation>, layer: FPackageIndex, r: int)
    requires -1 <= r < |allocs|
    requires r >= 0 ==> allocs[r].LayerInfo == layer && forall k :: 0 <= k < r ==> allocs[k].LayerInfo != layer
    requires r == -1 ==> forall k :: 0 <= k < |allocs| ==> allocs[k].LayerInfo != layer
    ensures r == FirstMatch(allocs, layer)
  {
  }

  /**
   * The channel-separation loop: byte `off` of each of the first `n` texels, or `None` when
   * the bulk data ends before the last one (the reader throws).
   */
  method ExtractChannel(bulk: seq<byte>, off: int, n: int) returns (r: Option<seq<byte>>)
    requires 0 <= off < 4 && n >= 0
    ensures 4 * (n - 1) + off >= |bulk| ==> r.None?
    ensures 4 * (n - 1) + off < |bulk| ==> r == Some(DecodedChannel(bulk, off, n))
  {
    if 4 * (n - 1) + off >= |bulk| {
      return None;
    }
    var out := new byte[n];
    var i := 0;
    while i < n
      invariant 0 <= i <= n
      invariant forall k :: 0 <= k < i ==> out[k] == bulk[4 * k + off]
    {
      out[i] := bulk[4 * i + off];
      i := i + 1;
    }
    assert out[..] == DecodedChannel(bulk, off, n);
    return Some(out[..]);
  }

  /** `ReadArray<FColor>(bulk.Length / 4)`: the height data as a new array of colours. */
  method ReadColors(bulk: seq<byte>) returns (a: array<FColor>)
    ensures fresh(a) && a[..] == ColorsOf(bulk)
  {
    var n := |bulk| / 4;
    a := new FColor[n];
    var i := 0;
    while i < n
      invariant 0 <= i <= n
      invariant forall k :: 0 <= k < i ==> a[k] == ColorAt(bulk, k)
    {
      a[i] := ColorAt(bulk, i);
      i := i + 1;
    }
  }

  /**
   * The height read an export task makes for one vertex at mip 0 (`VertexIndexToXY`, then
   * `GetHeight` through `GetLocalVertex`; `GetLocalTangentVectors` reads the same texel). It
   * divides by zero when the component has no vertices a side or its subsections one vertex,
   * and fails with an index error when the texel lies outside the decoded height data, whose
   * size is never checked.
   */
  function VertexHeightRead(c: ComponentInput, vertexIndex: int): (r: Result<int, LandscapeError>)
    requires HeightmapCheck(c.Heightmap, 0).None?
    ensures ComponentSizeVertsOf(c, 0) == 0 || SubsectionSizeVertsOf(c, 0) == 1 ==> r == Failure(DivideByZero)
    ensures r.Success? ==> 0 <= r.value <= 0xFFFF
    ensures r.Failure? ==> r.error == DivideByZero || r.error == IndexOutOfRange
  {
    var n := ComponentSizeVertsOf(c, 0);
    var s := SubsectionSizeVertsOf(c, 0);
    if n == 0 || s == 1 then Failure(DivideByZero)
    else
      var p := VertexIndexToXY(vertexIndex, n);
      var data := ColorsOf(c.Heightmap.Mips[0].value);
      var i := TexelIndex(TexelOf(p.0, s), TexelOf(p.1, s), c.HeightmapOffsetX, c.HeightmapOffsetY, Shr(c.Heightmap.SizeX, 0));
      if 0 <= i < |data| then Success(HeightCode(data[i])) else Failure(IndexOutOfRange)
  }

  /** The data interface built at mip 0 reads a vertex's height as `VertexHeightRead` says. */
  lemma GetHeightAtAgrees(d: FLandscapeComponentDataInterface, vertexIndex: int)
    requires d.MipLevel == 0 && d.SizesDerived() && HeightmapCheck(d.Component.Heightmap, 0).None?
    requires d.HeightmapStride == Shr(d.Component.Heightmap.SizeX, 0)
    requires d.HeightmapComponentOffsetX == d.Component.HeightmapOffsetX && d.HeightmapComponentOffsetY == d.Component.HeightmapOffsetY
    requires d.HeightMipData[..] == ColorsOf(d.Component.Heightmap.Mips[0].value)
    ensures d.GetHeightAt(vertexIndex) == VertexHeightRead(d.Component, vertexIndex)
  {
    var c := d.Component;
    if ComponentSizeVertsOf(c, 0) != 0 && SubsectionSizeVertsOf(c, 0) != 1 {
      var p := VertexIndexToXY(vertexIndex, d.ComponentSizeVerts);
      var i := TexelIndex(TexelOf(p.0, d.SubsectionSizeVerts), TexelOf(p.1, d.SubsectionSizeVerts),
                          d.HeightmapComponentOffsetX, d.HeightmapComponentOffsetY, d.HeightmapStride);
      if 0 <= i < d.HeightMipData.Length {
        assert d.HeightMipData[i] == d.HeightMipData[..][i];
      }
    }
  }

  /**
   * Height bulk data shorter than one texel passes the construction checks, yet every vertex
   * read of a component whose sizes do not divide by zero throws `IndexOutOfRange`.
   */
  lemma ShortHeightDataThrows(c: ComponentInput, v: int)
    requires c.Heightmap.FormatSupported && |c.Heightmap.Mips| >= 1
    requires c.Heightmap.Mips[0].Some? && |c.Heightmap.Mips[0].value| < 4
    requires ComponentSizeVertsOf(c, 0) != 0 && SubsectionSizeVertsOf(c, 0) != 1
    ensures HeightmapCheck(c.Heightmap, 0).None?
    ensures VertexHeightRead(c, v) == Failure(IndexOutOfRange)
  {
    assert |ColorsOf(c.Heightmap.Mips[0].value)| == 0;
  }

  /**
   * The constructor: the checks in source order (pixel format, mip count, bulk data), then
   * the height data decoded from the chosen mip's bulk bytes and the derived sizes.
   */
  method NewDataInterface(component: ComponentInput, mipLevel: int, nameOf: FPackageIndex -> string)
    returns (r: Result<FLandscapeComponentDataInterface, LandscapeError>)
    ensures HeightmapCheck(component.Heightmap, mipLevel).Some? ==> r == Failure(HeightmapCheck(component.Heightmap, mipLevel).value)
    ensures HeightmapCheck(component.Heightmap, mipLevel).None? ==> (r.Success? &&
      fresh(r.value) && fresh(r.value.HeightMipData) &&
      r.value.Component == component && r.value.MipLevel == mipLevel && r.value.NameOf == nameOf &&
      r.value.HeightMipData[..] == ColorsOf(component.Heightmap.Mips[mipLevel].value) &&
      r.value.ComponentSizeVerts == ComponentSizeVertsOf(component, mipLevel) &&
      r.value.SubsectionSizeVerts == SubsectionSizeVertsOf(component, mipLevel) &&
      r.value.HeightmapStride == Shr(component.Heightmap.SizeX, mipLevel) &&
      r.value.HeightmapComponentOffsetX == component.HeightmapOffsetX &&
      r.value.HeightmapComponentOffsetY == component.HeightmapOffsetY &&
      r.value.SizesDerived() && r.value.Cache == map[] && r.value.CacheValid())
  {
    var check := HeightmapCheck(component.Heightmap, mipLevel);
    if check.Some? {
      return Failure(check.value);
    }
    var heightMipData := ReadColors(component.Heightmap.Mips[mipLevel].value);
    var d := new FLandscapeComponentDataInterface.Init(component, mipLevel, nameOf, heightMipData);
    return Success(d);
  }
}
