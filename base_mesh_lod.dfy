/**
 * CBaseMeshLod: the part of a converted mesh LOD that every mesh kind shares (vertex and
 * texture-coordinate counts, sections, extra UV channels, vertex colours, index buffer) and
 * the two allocators that size its per-vertex buffers. CVertexColor is a named colour
 * buffer.
 *
 * The lazily computed members (`Sections`, `ExtraUV`, `Indices`) are held by their value;
 * `None` stands for a lazy member that was never assigned or whose value is null.
 */
module BaseMeshLod {
  import opened Wrappers
  import opened Bytes
  import opened MeshData

  /** `new FMeshUVFloat(0, 0)`: both coordinates +0.0f. */
  const ZERO_UV := FMeshUVFloat(0, 0)

  /** `new FColor()`: all four channels 0. */
  const DEFAULT_COLOR := FColor(0, 0, 0, 0)

  /** CVertexColor: a name and a colour buffer, stored by the constructor as given. */
  datatype CVertexColor = CVertexColor(Name: string, Colors: array<FColor>)

  /** A mesh section: material index, first index and face count (material objects are left out). */
  datatype CMeshSection = CMeshSection(MaterialIndex: int, FirstIndex: int, NumFaces: int)

  /** How many extra UV channels a LOD with `numTexCoords` channels carries besides the first. */
  function ExtraUVCount(numTexCoords: int): (n: nat)
    ensures numTexCoords <= 1 ==> n == 0
    ensures numTexCoords >= 1 ==> n + 1 == numTexCoords
  {
    if numTexCoords > 0 then numTexCoords - 1 else 0
  }

  class CBaseMeshLod {
    var NumVerts: int
    var NumTexCoords: int
    var HasNormals: bool
    var HasTangents: bool
    var IsTwoSided: bool
    var Sections: Option<seq<CMeshSection>>
    var ExtraUV: Option<seq<array<FMeshUVFloat>>>
    var VertexColors: array?<FColor>
    var ExtraVertexColors: Option<seq<CVertexColor>>
    var Indices: Option<seq<int>>

    /** A fresh LOD: zero counts, all flags false, nothing allocated. */
    constructor()
      ensures NumVerts == 0 && NumTexCoords == 0 && !HasNormals && !HasTangents && !IsTwoSided
      ensures Sections.None? && ExtraUV.None? && VertexColors == null && ExtraVertexColors.None? && Indices.None?
    {
      NumVerts := 0;
      NumTexCoords := 0;
      HasNormals := false;
      HasTangents := false;
      IsTwoSided := false;
      Sections := None;
      ExtraUV := None;
      VertexColors := null;
      ExtraVertexColors := None;
      Indices := None;
    }

    /**
     * `SkipLod`: a LOD is skipped when it has no section or no index buffer; a LOD that is
     * kept has both.
     */
    predicate SkipLod()
      reads this
      requires Sections.Some?
      ensures !SkipLod() ==> |Sections.value| >= 1 && Indices.Some?
      ensures (Sections.value == [] || Indices == None) ==> SkipLod()
    {
      |Sections.value| < 1 || Indices.None?
    }

    /**
     * `AllocateUVBuffers`: one array per texture-coordinate channel after the first (none
     * when there are no channels), each a new array of `NumVerts` zero UVs. The source
     * throws when it would have to allocate an array of negative length.
     */
    method AllocateUVBuffers()
      requires NumTexCoords <= 1 || NumVerts >= 0
      modifies this
      ensures NumVerts == old(NumVerts) && NumTexCoords == old(NumTexCoords)
      ensures HasNormals == old(HasNormals) && HasTangents == old(HasTangents) && IsTwoSided == old(IsTwoSided)
      ensures Sections == old(Sections) && VertexColors == old(VertexColors)
      ensures ExtraVertexColors == old(ExtraVertexColors) && Indices == old(Indices)
      ensures ExtraUV.Some? && |ExtraUV.value| == ExtraUVCount(NumTexCoords)
      ensures forall i :: 0 <= i < |ExtraUV.value| ==> fresh(ExtraUV.value[i]) && ExtraUV.value[i].Length == NumVerts
      ensures forall i, j :: 0 <= i < |ExtraUV.value| && 0 <= j < NumVerts ==> ExtraUV.value[i][j] == ZERO_UV
      ensures forall i, k :: 0 <= i < k < |ExtraUV.value| ==> ExtraUV.value[i] != ExtraUV.value[k]
    {
      var ret := ZeroUVRows(ExtraUVCount(NumTexCoords), NumVerts);
      ExtraUV := Some(ret);
    }

    /**
     * `AllocateVertexColorBuffer`: a new array of `NumVerts` default colours, and no extra
     * colour buffers. The source throws on a negative vertex count.
     */
    method AllocateVertexColorBuffer()
      requires NumVerts >= 0
      modifies this
      ensures NumVerts == old(NumVerts) && NumTexCoords == old(NumTexCoords)
      ensures HasNormals == old(HasNormals) && HasTangents == old(HasTangents) && IsTwoSided == old(IsTwoSided)
      ensures Sections == old(Sections) && ExtraUV == old(ExtraUV) && Indices == old(Indices)
      ensures VertexColors != null && fresh(VertexColors) && VertexColors.Length == NumVerts
      ensures forall i :: 0 <= i < NumVerts ==> VertexColors[i] == DEFAULT_COLOR
      ensures ExtraVertexColors == Some([])
    {
      var colors := DefaultColors(NumVerts);
      VertexColors := colors;
      ExtraVertexColors := Some([]);
    }
  }

  /** One extra UV channel: a new array of `n` zero UVs. */
  method ZeroUVs(n: nat) returns (row: array<FMeshUVFloat>)
    ensures fresh(row) && row.Length == n
    ensures forall j :: 0 <= j < n ==> row[j] == ZERO_UV
  {
    row := new FMeshUVFloat[n];
    var j := 0;
    while j < n
      invariant 0 <= j <= n
      invariant forall m :: 0 <= m < j ==> row[m] == ZERO_UV
    {
      row[j] := ZERO_UV;
      j := j + 1;
    }
  }

  /** `count` distinct new arrays of `n` zero UVs each. */
  method ZeroUVRows(count: nat, n: int) returns (rows: seq<array<FMeshUVFloat>>)
    requires count > 0 ==> n >= 0
    ensures |rows| == count
    ensures forall m :: 0 <= m < count ==> fresh(rows[m]) && rows[m].Length == n
    ensures forall m, j :: 0 <= m < count && 0 <= j < n ==> rows[m][j] == ZERO_UV
    ensures forall m, k :: 0 <= m < k < count ==> rows[m] != rows[k]
  {
    rows := [];
    var i := 0;
    while i < count
      invariant 0 <= i <= count && |rows| == i
      invariant forall m :: 0 <= m < i ==> fresh(rows[m]) && rows[m].Length == n
      invariant forall m, j :: 0 <= m < i && 0 <= j < n ==> rows[m][j] == ZERO_UV
      invariant forall m, k :: 0 <= m < k < i ==> rows[m] != rows[k]
    {
      var row := ZeroUVs(n);
      rows := rows + [row];
      i := i + 1;
    }
  }

  /** A new array of `n` default colours. */
  method DefaultColors(n: nat) returns (colors: array<FColor>)
    ensures fresh(colors) && colors.Length == n
    ensures forall i :: 0 <= i < n ==> colors[i] == DEFAULT_COLOR
  {
    colors := new FColor[n];
    var i := 0;
    while i < n
      invariant 0 <= i <= n
      invariant forall m :: 0 <= m < i ==> colors[m] == DEFAULT_COLOR
    {
      colors[i] := DEFAULT_COLOR;
      i := i + 1;
    }
  }
}
