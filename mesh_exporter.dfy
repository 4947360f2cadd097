/**
 * MeshExporter: which LODs of a converted static or skeletal mesh are exported, the file
 * name and extension each one gets, and how writing the exported LODs to a directory is
 * reported.
 *
 * The per-format encoders (the ActorX writers of PSKExporter and the glTF/OBJ writer) are not
 * part of this model: the bytes of an exported LOD are a parameter `encode(format, lodIndex)`.
 * A converted LOD is seen through what the exporter reads of it (`LodView`): its `SkipLod`
 * flag and its vertex count. Writing one file (Mesh.TryWriteToDir) is a parameter too.
 */
module MeshExport {
  import opened Wrappers
  import opened Bytes
  import opened BaseMeshLod

  /** The output format; a C# enum may hold any other value, which `Undefined` stands for. */
  datatype EMeshFormat = ActorX | Gltf2 | OBJ | Undefined(code: int)

  datatype ELodFormat = FirstLod | AllLods

  /** An exported file: its relative name and its bytes (the material exports are left out). */
  datatype Mesh = Mesh(FileName: string, Data: seq<byte>)

  /** The ArgumentOutOfRangeException thrown for a format without an encoder. */
  datatype ExportError = FormatOutOfRange(format: EMeshFormat)

  /** What the exporter reads of one converted LOD. */
  datatype LodView = LodView(Skip: bool, NumVerts: int)

  /** The view of a CBaseMeshLod: its `SkipLod` and its vertex count. */
  function ViewOf(lod: CBaseMeshLod): LodView
    reads lod
    requires lod.Sections.Some?
  {
    LodView(lod.SkipLod(), lod.NumVerts)
  }

  /** A failed conversion and a conversion without LODs both leave nothing to export. */
  function LodsOf(converted: Option<seq<LodView>>): seq<LodView>
  {
    if converted.Some? then converted.value else []
  }

  predicate KnownFormat(format: EMeshFormat)
  {
    format == ActorX || format == Gltf2 || format == OBJ
  }

  // ------------------------------------------------------------ decimal numbers in names

  predicate IsDigits(s: string)
  {
    forall k :: 0 <= k < |s| ==> '0' <= s[k] <= '9'
  }

  function Digit(d: nat): (c: char)
    requires d < 10
    ensures '0' <= c <= '9' && (c as int) - ('0' as int) == d
  {
    (('0' as int) + d) as char
  }

  /** `n / 10`, by repeated subtraction. */
  function Quot10(n: nat): (q: nat)
    ensures 10 * q <= n < 10 * q + 10
  {
    if n < 10 then 0 else Quot10(n - 10) + 1
  }

  /** `n % 10`. */
  function Rem10(n: nat): (d: nat)
    ensures d < 10 && 10 * Quot10(n) + d == n
  {
    n - 10 * Quot10(n)
  }

  /** `{i}` in an interpolated string: the decimal digits of `n`, most significant first. */
  function Decimal(n: nat): (r: string)
    ensures |r| >= 1 && IsDigits(r)
  {
    if n < 10 then [Digit(n)] else Decimal(Quot10(n)) + [Digit(Rem10(n))]
  }

  /** The number a string of decimal digits denotes. */
  function DecimalValue(s: string): nat
    requires IsDigits(s)
  {
    if |s| == 0 then 0 else DecimalValue(s[..|s| - 1]) * 10 + ((s[|s| - 1] as int) - ('0' as int))
  }

  /** Reading the digits back gives the number: distinct LOD numbers give distinct digit strings. */
  lemma {:induction false} DecimalRoundTrip(n: nat)
    ensures DecimalValue(Decimal(n)) == n
  {
    if n >= 10 {
      var s := Decimal(n);
      assert s[..|s| - 1] == Decimal(Quot10(n));
      DecimalRoundTrip(Quot10(n));
    }
  }

  /** `$"{PackagePath}_LOD{i}.{ext}"`. */
  function LodFileName(packagePath: string, i: nat, ext: string): string
  {
    packagePath + "_LOD" + Decimal(i) + "." + ext
  }

  /**
   * Two LOD file names of one package are equal only for the same LOD number and the same
   * extension: the digits cannot run into the dot before the extension.
   */
  lemma LodFileNameInjective(packagePath: string, i: nat, j: nat, e1: string, e2: string)
    requires LodFileName(packagePath, i, e1) == LodFileName(packagePath, j, e2)
    ensures i == j && e1 == e2
  {
    var pre := packagePath + "_LOD";
    var a, b := Decimal(i) + "." + e1, Decimal(j) + "." + e2;
    assert LodFileName(packagePath, i, e1) == pre + a;
    assert LodFileName(packagePath, j, e2) == pre + b;
    assert a == (pre + a)[|pre|..];
    DigitsBeforeDot(Decimal(i), e1, Decimal(j), e2);
    DecimalRoundTrip(i);
    DecimalRoundTrip(j);
  }

  /** A string of digits followed by a dot splits at that dot in one way only. */
  lemma DigitsBeforeDot(d1: string, e1: string, d2: string, e2: string)
    requires IsDigits(d1) && IsDigits(d2)
    requires d1 + "." + e1 == d2 + "." + e2
    ensures d1 == d2 && e1 == e2
  {
    var s := d1 + "." + e1;
    if |d1| < |d2| {
      DotAfter(d1, e1);
      assert false;
    } else if |d2| < |d1| {
      DotAfter(d2, e2);
      assert false;
    }
    assert d1 == s[..|d1|];
    assert e1 == s[|d1| + 1..];
  }

  lemma DotAfter(d: string, e: string)
    ensures (d + "." + e)[|d|] == '.'
  {
  }

  // ------------------------------------------------------------ which LODs are exported

  /** The positions, among the first `n` LODs, of those that are not skipped, in order. */
  function KeptIndices(lods: seq<LodView>, n: nat): (r: seq<nat>)
    requires n <= |lods|
    ensures |r| <= n
  {
    if n == 0 then [] else KeptIndices(lods, n - 1) + (if lods[n - 1].Skip then [] else [n - 1])
  }

  /** Every kept position is a LOD below `n` that is not skipped. */
  lemma {:induction false} KeptIndicesSound(lods: seq<LodView>, n: nat)
    requires n <= |lods|
    ensures forall j :: 0 <= j < |KeptIndices(lods, n)| ==> KeptIndices(lods, n)[j] < n && !lods[KeptIndices(lods, n)[j]].Skip
  {
    if n > 0 {
      KeptIndicesSound(lods, n - 1);
    }
  }

  /** Every LOD below `n` that is not skipped is kept. */
  lemma {:induction false} KeptIndicesComplete(lods: seq<LodView>, n: nat)
    requires n <= |lods|
    ensures forall k {:trigger k in KeptIndices(lods, n)} :: 0 <= k < n && !lods[k].Skip ==> k in KeptIndices(lods, n)
  {
    if n > 0 {
      KeptIndicesComplete(lods, n - 1);
    }
  }

  /** The kept positions are in increasing order, so none is kept twice. */
  lemma {:induction false} KeptIndicesIncreasing(lods: seq<LodView>, n: nat)
    requires n <= |lods|
    ensures forall a, b :: 0 <= a < b < |KeptIndices(lods, n)| ==> KeptIndices(lods, n)[a] < KeptIndices(lods, n)[b]
  {
    if n > 0 {
      KeptIndicesIncreasing(lods, n - 1);
      KeptIndicesSound(lods, n - 1);
    }
  }

  /** What was kept among the first `a` LODs is how the kept list of the first `b` LODs starts. */
  lemma {:induction false} KeptIndicesPrefix(lods: seq<LodView>, a: nat, b: nat)
    requires a <= b <= |lods|
    ensures |KeptIndices(lods, a)| <= |KeptIndices(lods, b)|
    ensures KeptIndices(lods, b)[..|KeptIndices(lods, a)|] == KeptIndices(lods, a)
  {
    if a < b {
      KeptIndicesPrefix(lods, a, b - 1);
      var ka, kb1 := KeptIndices(lods, a), KeptIndices(lods, b - 1);
      assert KeptIndices(lods, b) == kb1 + (if lods[b - 1].Skip then [] else [b - 1]);
      assert KeptIndices(lods, b)[..|ka|] == kb1[..|ka|];
    }
  }

  /**
   * The LODs an exporter writes, by position in the converted mesh: every LOD that is not
   * skipped, or only the first of them under `FirstLod`.
   */
  function Selected(lods: seq<LodView>, lodFormat: ELodFormat): (r: seq<nat>)
  {
    var kept := KeptIndices(lods, |lods|);
    if lodFormat == FirstLod && |kept| > 0 then kept[..1] else kept
  }

  /** Only LODs that are not skipped are selected, in increasing order. */
  lemma SelectedSound(lods: seq<LodView>, lodFormat: ELodFormat)
    ensures forall j :: 0 <= j < |Selected(lods, lodFormat)| ==>
      Selected(lods, lodFormat)[j] < |lods| && !lods[Selected(lods, lodFormat)[j]].Skip
    ensures forall a, b :: 0 <= a < b < |Selected(lods, lodFormat)| ==> Selected(lods, lodFormat)[a] < Selected(lods, lodFormat)[b]
  {
    KeptIndicesSound(lods, |lods|);
    KeptIndicesIncreasing(lods, |lods|);
  }

  /** Under `FirstLod` at most one LOD is selected: the first one that is not skipped. */
  lemma SelectedFirstLod(lods: seq<LodView>)
    ensures |Selected(lods, FirstLod)| <= 1
    ensures |Selected(lods, FirstLod)| == 1 ==>
      Selected(lods, FirstLod)[0] < |lods| && forall k :: 0 <= k < Selected(lods, FirstLod)[0] ==> lods[k].Skip
  {
    KeptIndicesSound(lods, |lods|);
    KeptIndicesComplete(lods, |lods|);
    KeptIndicesIncreasing(lods, |lods|);
    var kept := KeptIndices(lods, |lods|);
    forall k | 0 <= k < |lods| && !lods[k].Skip
      ensures |kept| > 0 && kept[0] <= k
    {
      assert k in kept;
    }
  }

  /** Under `AllLods` every LOD that is not skipped is selected. */
  lemma SelectedAllLods(lods: seq<LodView>)
    ensures forall k {:trigger k in Selected(lods, AllLods)} :: 0 <= k < |lods| && !lods[k].Skip ==> k in Selected(lods, AllLods)
  {
    KeptIndicesComplete(lods, |lods|);
  }

  /** Nothing is selected exactly when every LOD is skipped. */
  lemma SelectedNone(lods: seq<LodView>, lodFormat: ELodFormat)
    ensures |Selected(lods, lodFormat)| == 0 <==> forall k :: 0 <= k < |lods| ==> lods[k].Skip
  {
    KeptIndicesSound(lods, |lods|);
    KeptIndicesComplete(lods, |lods|);
    var kept := KeptIndices(lods, |lods|);
    assert |Selected(lods, lodFormat)| == 0 <==> |kept| == 0;
    if |kept| > 0 {
      assert kept[0] < |lods| && !lods[kept[0]].Skip;
    }
    forall k | 0 <= k < |lods| && !lods[k].Skip
      ensures |kept| > 0
    {
      assert k in kept;
    }
  }

  /** Files named after strictly increasing LOD numbers have pairwise distinct names. */
  lemma NamesDistinct(packagePath: string, meshLods: seq<Mesh>, numbers: seq<nat>, extOf: nat -> string)
    requires |meshLods| == |numbers|
    requires forall a, b :: 0 <= a < b < |numbers| ==> numbers[a] < numbers[b]
    requires forall j :: 0 <= j < |meshLods| ==> meshLods[j].FileName == LodFileName(packagePath, numbers[j], extOf(j))
    ensures forall a, b :: 0 <= a < b < |meshLods| ==> meshLods[a].FileName != meshLods[b].FileName
  {
    forall a, b | 0 <= a < b < |meshLods|
      ensures meshLods[a].FileName != meshLods[b].FileName
    {
      if meshLods[a].FileName == meshLods[b].FileName {
        LodFileNameInjective(packagePath, numbers[a], numbers[b], extOf(a), extOf(b));
      }
    }
  }

  /**
   * Once a LOD among the first `n` is kept, something is selected; under `FirstLod` the
   * first kept LOD is all that is selected.
   */
  lemma SelectedWhenKept(lods: seq<LodView>, lodFormat: ELodFormat, n: nat)
    requires n <= |lods| && |KeptIndices(lods, n)| > 0
    ensures |Selected(lods, lodFormat)| > 0
    ensures lodFormat == FirstLod && |KeptIndices(lods, n)| == 1 ==> Selected(lods, lodFormat) == KeptIndices(lods, n)
  {
    KeptIndicesPrefix(lods, n, |lods|);
  }

  /**
   * Reaching a LOD `n` that is not skipped means something is selected; under `FirstLod`,
   * when no earlier LOD was kept, it is exactly the LODs kept so far.
   */
  lemma SelectedOnKept(lods: seq<LodView>, lodFormat: ELodFormat, n: nat)
    requires n < |lods| && !lods[n].Skip
    ensures KeptIndices(lods, n + 1) == KeptIndices(lods, n) + [n]
    ensures |Selected(lods, lodFormat)| > 0
    ensures lodFormat == FirstLod && KeptIndices(lods, n) == [] ==> Selected(lods, lodFormat) == KeptIndices(lods, n + 1)
  {
    assert KeptIndices(lods, n + 1) == KeptIndices(lods, n) + [n];
    SelectedWhenKept(lods, lodFormat, n + 1);
  }

  /** A skipped LOD adds nothing to the kept LODs. */
  lemma KeptIndicesSkip(lods: seq<LodView>, n: nat)
    requires n < |lods| && lods[n].Skip
    ensures KeptIndices(lods, n + 1) == KeptIndices(lods, n)
  {
    assert KeptIndices(lods, n + 1) == KeptIndices(lods, n) + [];
  }

  // ------------------------------------------------------------ static meshes

  /** The extension a static-mesh LOD is written with, none for an unknown format. */
  function StaticExtension(format: EMeshFormat): (r: Option<string>)
    ensures r.Some? <==> KnownFormat(format)
    ensures format == ActorX ==> r == Some("pskx")
  {
    match format
    case ActorX => Some("pskx")
    case Gltf2 => Some("glb")
    case OBJ => Some("obj")
    case Undefined(_) => None
  }

  /**
   * The files of the static-mesh LODs `numbers`: each named after the LOD's own position and
   * holding that LOD's encoding.
   */
  function StaticFiles(packagePath: string, numbers: seq<nat>, ext: string, format: EMeshFormat,
                       encode: (EMeshFormat, nat) -> seq<byte>): (r: seq<Mesh>)
    ensures |r| == |numbers|
  {
    seq(|numbers|, j requires 0 <= j < |numbers| =>
      Mesh(LodFileName(packagePath, numbers[j], ext), encode(format, numbers[j])))
  }

  /** One more exported LOD adds its file at the end. */
  lemma StaticFilesSnoc(packagePath: string, numbers: seq<nat>, k: nat, ext: string, format: EMeshFormat,
                        encode: (EMeshFormat, nat) -> seq<byte>)
    ensures StaticFiles(packagePath, numbers + [k], ext, format, encode) ==
      StaticFiles(packagePath, numbers, ext, format, encode) + [Mesh(LodFileName(packagePath, k, ext), encode(format, k))]
  {
  }

  /** The exported static-mesh files never share a name. */
  lemma StaticFileNamesDistinct(packagePath: string, lods: seq<LodView>, lodFormat: ELodFormat, ext: string,
                                format: EMeshFormat, encode: (EMeshFormat, nat) -> seq<byte>)
    ensures forall a, b :: 0 <= a < b < |Selected(lods, lodFormat)| ==>
      StaticFiles(packagePath, Selected(lods, lodFormat), ext, format, encode)[a].FileName !=
      StaticFiles(packagePath, Selected(lods, lodFormat), ext, format, encode)[b].FileName
  {
    SelectedSound(lods, lodFormat);
    NamesDistinct(packagePath, StaticFiles(packagePath, Selected(lods, lodFormat), ext, format, encode),
                  Selected(lods, lodFormat), _ => ext);
  }

  /**
   * The static-mesh constructor: walks the converted LODs, skips those marked `SkipLod`,
   * names each exported one by its position among all LODs (the counter is advanced before
   * the skip test), and stops after the first export under `FirstLod`. An unknown format
   * throws on the first LOD that is not skipped.
   */
  method StaticMeshLods(packagePath: string, converted: Option<seq<LodView>>, format: EMeshFormat,
                        lodFormat: ELodFormat, encode: (EMeshFormat, nat) -> seq<byte>)
    returns (r: Result<seq<Mesh>, ExportError>)
    ensures !KnownFormat(format) && |Selected(LodsOf(converted), lodFormat)| > 0 ==> r == Failure(FormatOutOfRange(format))
    ensures !KnownFormat(format) && |Selected(LodsOf(converted), lodFormat)| == 0 ==> r == Success([])
    ensures KnownFormat(format) ==>
      r == Success(StaticFiles(packagePath, Selected(LodsOf(converted), lodFormat), StaticExtension(format).value, format, encode))
  {
    if converted.None? || |converted.value| == 0 {
      return Success([]);
    }
    r := ExportStaticLods(packagePath, converted.value, format, lodFormat, encode);
  }

  /**
   * One static-mesh LOD that is not skipped: its file, named by its position `lodIndex`,
   * appended to the files of the LODs `kept` before it, or the format error.
   */
  method ExportStaticLod(packagePath: string, lodIndex: nat, ghost kept: seq<nat>, meshLods: seq<Mesh>,
                         format: EMeshFormat, encode: (EMeshFormat, nat) -> seq<byte>)
    returns (r: Result<seq<Mesh>, ExportError>)
    requires KnownFormat(format) ==> meshLods == StaticFiles(packagePath, kept, StaticExtension(format).value, format, encode)
    ensures r.Failure? <==> !KnownFormat(format)
    ensures r.Failure? ==> r.error == FormatOutOfRange(format)
    ensures KnownFormat(format) ==>
      r.value == StaticFiles(packagePath, kept + [lodIndex], StaticExtension(format).value, format, encode)
  {
    var ext := StaticExtension(format);
    if ext.None? {
      return Failure(FormatOutOfRange(format));
    }
    StaticFilesSnoc(packagePath, kept, lodIndex, ext.value, format, encode);
    return Success(meshLods + [Mesh(LodFileName(packagePath, lodIndex, ext.value), encode(format, lodIndex))]);
  }

  /** The LOD loop of the static-mesh constructor, over the converted LODs. */
  method ExportStaticLods(packagePath: string, lods: seq<LodView>, format: EMeshFormat,
                          lodFormat: ELodFormat, encode: (EMeshFormat, nat) -> seq<byte>)
    returns (r: Result<seq<Mesh>, ExportError>)
    ensures !KnownFormat(format) && |Selected(lods, lodFormat)| > 0 ==> r == Failure(FormatOutOfRange(format))
    ensures !KnownFormat(format) && |Selected(lods, lodFormat)| == 0 ==> r == Success([])
    ensures KnownFormat(format) ==>
      r == Success(StaticFiles(packagePath, Selected(lods, lodFormat), StaticExtension(format).value, format, encode))
  {
    var meshLods: seq<Mesh> := [];
    ghost var kept: seq<nat> := [];
    var i: int := -1;
    var next := 0;
    while next < |lods|
      invariant 0 <= next <= |lods| && i == next - 1
      invariant kept == KeptIndices(lods, next)
      invariant KnownFormat(format) ==> meshLods == StaticFiles(packagePath, kept, StaticExtension(format).value, format, encode)
      invariant !KnownFormat(format) ==> kept == [] && meshLods == []
      invariant lodFormat == FirstLod ==> kept == []
    {
      var lod := lods[next];
      next := next + 1;
      i := i + 1;
      if lod.Skip {
        KeptIndicesSkip(lods, i);
        continue;
      }
      SelectedOnKept(lods, lodFormat, i);
      var step := ExportStaticLod(packagePath, i, kept, meshLods, format, encode);
      if step.Failure? {
        return Failure(step.error);
      }
      meshLods := step.value;
      kept := kept + [i];
      if lodFormat == FirstLod {
        break;
      }
    }
    return Success(meshLods);
  }

  // ------------------------------------------------------------ skeletal meshes

  /**
   * The extension a skeletal-mesh LOD is written with when the extension is decided by `lod`:
   * ActorX uses the wide-index variant above 65536 vertices.
   */
  function SkeletalExtension(format: EMeshFormat, lod: LodView): (r: Option<string>)
    ensures r.Some? <==> KnownFormat(format)
    ensures format == ActorX ==> (r == Some("pskx") <==> lod.NumVerts > 65536)
    ensures format == ActorX ==> (r == Some("psk") <==> lod.NumVerts <= 65536)
  {
    match format
    case ActorX => Some(if lod.NumVerts > 65536 then "pskx" else "psk")
    case Gltf2 => Some("glb")
    case OBJ => Some("obj")
    case Undefined(_) => None
  }

  /**
   * The extension of the file that takes it from LOD `k` of the converted mesh; both
   * constructors below read only positions of the mesh, and the empty string past its end
   * only keeps the function total.
   */
  function LodExtension(format: EMeshFormat, lods: seq<LodView>, k: nat): string
    requires KnownFormat(format)
  {
    if k < |lods| then SkeletalExtension(format, lods[k]).value else ""
  }

  /**
   * The skeletal-mesh files as written for the LODs `numbers`: the `j`-th is named `_LOD{j}`,
   * holds LOD `numbers[j]`, and takes its extension from LOD `j` of the converted mesh.
   */
  function SkeletalFilesAsWritten(packagePath: string, lods: seq<LodView>, numbers: seq<nat>, format: EMeshFormat,
                                  encode: (EMeshFormat, nat) -> seq<byte>): (r: seq<Mesh>)
    requires KnownFormat(format)
    ensures |r| == |numbers|
  {
    seq(|numbers|, j requires 0 <= j < |numbers| =>
      Mesh(LodFileName(packagePath, j, LodExtension(format, lods, j)), encode(format, numbers[j])))
  }

  /**
   * The skeletal-mesh files for the LODs `numbers` with the extension of the LOD each one
   * holds: the `j`-th is named `_LOD{j}` and holds LOD `numbers[j]`.
   */
  function SkeletalFiles(packagePath: string, lods: seq<LodView>, numbers: seq<nat>, format: EMeshFormat,
                         encode: (EMeshFormat, nat) -> seq<byte>): (r: seq<Mesh>)
    requires KnownFormat(format)
    ensures |r| == |numbers|
  {
    seq(|numbers|, j requires 0 <= j < |numbers| =>
      Mesh(LodFileName(packagePath, j, LodExtension(format, lods, numbers[j])), encode(format, numbers[j])))
  }

  /**
   * Each corrected ActorX file holds a selected LOD and is named `pskx` exactly when that
   * LOD has more than 65536 vertices.
   */
  lemma SkeletalFilesActorX(packagePath: string, lods: seq<LodView>, lodFormat: ELodFormat,
                            encode: (EMeshFormat, nat) -> seq<byte>)
    ensures forall j :: 0 <= j < |Selected(lods, lodFormat)| ==>
      Selected(lods, lodFormat)[j] < |lods| &&
      SkeletalFiles(packagePath, lods, Selected(lods, lodFormat), ActorX, encode)[j].FileName ==
      LodFileName(packagePath, j, if lods[Selected(lods, lodFormat)[j]].NumVerts > 65536 then "pskx" else "psk")
  {
    SelectedSound(lods, lodFormat);
    var sel := Selected(lods, lodFormat);
    forall j | 0 <= j < |sel|
      ensures SkeletalFiles(packagePath, lods, sel, ActorX, encode)[j].FileName ==
        LodFileName(packagePath, j, if lods[sel[j]].NumVerts > 65536 then "pskx" else "psk")
    {
      var ext := SkeletalExtension(ActorX, lods[sel[j]]);
      assert LodExtension(ActorX, lods, sel[j]) == ext.value;
    }
  }

  lemma SkeletalFilesAsWrittenSnoc(packagePath: string, lods: seq<LodView>, numbers: seq<nat>, k: nat, format: EMeshFormat,
                                   encode: (EMeshFormat, nat) -> seq<byte>)
    requires KnownFormat(format)
    ensures SkeletalFilesAsWritten(packagePath, lods, numbers + [k], format, encode) ==
      SkeletalFilesAsWritten(packagePath, lods, numbers, format, encode) +
      [Mesh(LodFileName(packagePath, |numbers|, LodExtension(format, lods, |numbers|)), encode(format, k))]
  {
  }

  lemma SkeletalFilesSnoc(packagePath: string, lods: seq<LodView>, numbers: seq<nat>, k: nat, format: EMeshFormat,
                          encode: (EMeshFormat, nat) -> seq<byte>)
    requires KnownFormat(format)
    ensures SkeletalFiles(packagePath, lods, numbers + [k], format, encode) ==
      SkeletalFiles(packagePath, lods, numbers, format, encode) +
      [Mesh(LodFileName(packagePath, |numbers|, LodExtension(format, lods, k)), encode(format, k))]
  {
  }

  /** Skeletal-mesh files are numbered consecutively, so they never share a name. */
  lemma SkeletalFileNamesAsWrittenDistinct(packagePath: string, lods: seq<LodView>, numbers: seq<nat>, format: EMeshFormat,
                                           encode: (EMeshFormat, nat) -> seq<byte>)
    requires KnownFormat(format)
    ensures forall a, b :: 0 <= a < b < |numbers| ==>
      SkeletalFilesAsWritten(packagePath, lods, numbers, format, encode)[a].FileName !=
      SkeletalFilesAsWritten(packagePath, lods, numbers, format, encode)[b].FileName
  {
    NamesDistinct(packagePath, SkeletalFilesAsWritten(packagePath, lods, numbers, format, encode), seq(|numbers|, j => j),
                  (j: nat) => LodExtension(format, lods, j));
  }

  /** The same holds with the extension taken from each file's own LOD. */
  lemma SkeletalFileNamesDistinct(packagePath: string, lods: seq<LodView>, numbers: seq<nat>, format: EMeshFormat,
                                  encode: (EMeshFormat, nat) -> seq<byte>)
    requires KnownFormat(format)
    ensures forall a, b :: 0 <= a < b < |numbers| ==>
      SkeletalFiles(packagePath, lods, numbers, format, encode)[a].FileName !=
      SkeletalFiles(packagePath, lods, numbers, format, encode)[b].FileName
  {
    forall a, b | 0 <= a < b < |numbers|
      ensures SkeletalFiles(packagePath, lods, numbers, format, encode)[a].FileName !=
              SkeletalFiles(packagePath, lods, numbers, format, encode)[b].FileName
    {
      if SkeletalFiles(packagePath, lods, numbers, format, encode)[a].FileName ==
         SkeletalFiles(packagePath, lods, numbers, format, encode)[b].FileName {
        LodFileNameInjective(packagePath, a, b, LodExtension(format, lods, numbers[a]), LodExtension(format, lods, numbers[b]));
      }
    }
  }

  /**
   * The skeletal-mesh constructor as written: skipped LODs are passed over without advancing
   * the export counter `i`, so the exported LODs are numbered 0, 1, 2, ... in order; the
   * ActorX extension is decided by `LODs[i]`, the LOD at the export counter's position, not
   * by the LOD being exported.
   */
  method SkeletalMeshLods(packagePath: string, converted: Option<seq<LodView>>, format: EMeshFormat,
                          lodFormat: ELodFormat, encode: (EMeshFormat, nat) -> seq<byte>)
    returns (r: Result<seq<Mesh>, ExportError>)
    ensures !KnownFormat(format) && |Selected(LodsOf(converted), lodFormat)| > 0 ==> r == Failure(FormatOutOfRange(format))
    ensures !KnownFormat(format) && |Selected(LodsOf(converted), lodFormat)| == 0 ==> r == Success([])
    ensures KnownFormat(format) ==>
      r == Success(SkeletalFilesAsWritten(packagePath, LodsOf(converted), Selected(LodsOf(converted), lodFormat), format, encode))
  {
    if converted.None? || |converted.value| == 0 {
      return Success([]);
    }
    r := ExportSkeletalLods(packagePath, converted.value, format, lodFormat, encode);
  }

  /** One LOD that is not skipped, as written: the file numbered by the export counter `i`, with the extension of `LODs[i]`. */
  method ExportSkeletalLod(packagePath: string, lods: seq<LodView>, lodIndex: nat, i: nat, ghost kept: seq<nat>,
      meshLods: seq<Mesh>, format: EMeshFormat, encode: (EMeshFormat, nat) -> seq<byte>)
    returns (r: Result<seq<Mesh>, ExportError>)
    requires lodIndex < |lods| && i == |kept| && i <= lodIndex
    requires KnownFormat(format) ==> meshLods == SkeletalFilesAsWritten(packagePath, lods, kept, format, encode)
    ensures r.Failure? <==> !KnownFormat(format)
    ensures r.Failure? ==> r.error == FormatOutOfRange(format)
    ensures KnownFormat(format) ==> r.value == SkeletalFilesAsWritten(packagePath, lods, kept + [lodIndex], format, encode)
  {
    var ext := SkeletalExtension(format, lods[i]);
    if ext.None? {
      return Failure(FormatOutOfRange(format));
    }
    SkeletalFilesAsWrittenSnoc(packagePath, lods, kept, lodIndex, format, encode);
    return Success(meshLods + [Mesh(LodFileName(packagePath, i, ext.value), encode(format, lodIndex))]);
  }

  /** The LOD loop of the skeletal-mesh constructor as written, over the converted LODs. */
  method ExportSkeletalLods(packagePath: string, lods: seq<LodView>, format: EMeshFormat,
      lodFormat: ELodFormat, encode: (EMeshFormat, nat) -> seq<byte>)
    returns (r: Result<seq<Mesh>, ExportError>)
    ensures !KnownFormat(format) && |Selected(lods, lodFormat)| > 0 ==> r == Failure(FormatOutOfRange(format))
    ensures !KnownFormat(format) && |Selected(lods, lodFormat)| == 0 ==> r == Success([])
    ensures KnownFormat(format) ==>
      r == Success(SkeletalFilesAsWritten(packagePath, lods, Selected(lods, lodFormat), format, encode))
  {
    var meshLods: seq<Mesh> := [];
    var i := 0;
    ghost var kept: seq<nat> := [];
    for lodIndex := 0 to |lods|
      invariant kept == KeptIndices(lods, lodIndex) && i == |kept| && i <= lodIndex
      invariant KnownFormat(format) ==> meshLods == SkeletalFilesAsWritten(packagePath, lods, kept, format, encode)
      invariant !KnownFormat(format) ==> kept == [] && meshLods == []
      invariant lodFormat == FirstLod ==> i == 0
    {
      var lod := lods[lodIndex];
      if lod.Skip {
        KeptIndicesSkip(lods, lodIndex);
        continue;
      }
      SelectedOnKept(lods, lodFormat, lodIndex);
      var step := ExportSkeletalLod(packagePath, lods, lodIndex, i, kept, meshLods, format, encode);
      if step.Failure? {
        return Failure(step.error);
      }
      meshLods := step.value;
      kept := kept + [lodIndex];
      if lodFormat == FirstLod {
        break;
      }
      i := i + 1;
    }
    return Success(meshLods);
  }

  /**
   * The skeletal-mesh constructor with the extension decided by the LOD being exported,
   * `LODs[lodIndex]`: an ActorX file is `pskx` exactly when its own LOD has more than 65536
   * vertices.
   */
  method SkeletalMeshLodsCorrected(packagePath: string, converted: Option<seq<LodView>>, format: EMeshFormat,
                                   lodFormat: ELodFormat, encode: (EMeshFormat, nat) -> seq<byte>)
    returns (r: Result<seq<Mesh>, ExportError>)
    ensures !KnownFormat(format) && |Selected(LodsOf(converted), lodFormat)| > 0 ==> r == Failure(FormatOutOfRange(format))
    ensures !KnownFormat(format) && |Selected(LodsOf(converted), lodFormat)| == 0 ==> r == Success([])
    ensures KnownFormat(format) ==>
      r == Success(SkeletalFiles(packagePath, LodsOf(converted), Selected(LodsOf(converted), lodFormat), format, encode))
  {
    if converted.None? || |converted.value| == 0 {
      return Success([]);
    }
    r := ExportSkeletalLodsCorrected(packagePath, converted.value, format, lodFormat, encode);
  }

  /** One LOD, with the extension of the LOD itself. */
  method ExportSkeletalLodCorrected(packagePath: string, lods: seq<LodView>, lodIndex: nat, i: nat, ghost kept: seq<nat>,
      meshLods: seq<Mesh>, format: EMeshFormat, encode: (EMeshFormat, nat) -> seq<byte>)
    returns (r: Result<seq<Mesh>, ExportError>)
    requires lodIndex < |lods| && i == |kept|
    requires KnownFormat(format) ==> meshLods == SkeletalFiles(packagePath, lods, kept, format, encode)
    ensures r.Failure? <==> !KnownFormat(format)
    ensures r.Failure? ==> r.error == FormatOutOfRange(format)
    ensures KnownFormat(format) ==> r.value == SkeletalFiles(packagePath, lods, kept + [lodIndex], format, encode)
  {
    var ext := SkeletalExtension(format, lods[lodIndex]);
    if ext.None? {
      return Failure(FormatOutOfRange(format));
    }
    SkeletalFilesSnoc(packagePath, lods, kept, lodIndex, format, encode);
    return Success(meshLods + [Mesh(LodFileName(packagePath, i, ext.value), encode(format, lodIndex))]);
  }

  /** The LOD loop of the corrected skeletal-mesh constructor, over the converted LODs. */
  method ExportSkeletalLodsCorrected(packagePath: string, lods: seq<LodView>, format: EMeshFormat,
      lodFormat: ELodFormat, encode: (EMeshFormat, nat) -> seq<byte>)
    returns (r: Result<seq<Mesh>, ExportError>)
    ensures !KnownFormat(format) && |Selected(lods, lodFormat)| > 0 ==> r == Failure(FormatOutOfRange(format))
    ensures !KnownFormat(format) && |Selected(lods, lodFormat)| == 0 ==> r == Success([])
    ensures KnownFormat(format) ==>
      r == Success(SkeletalFiles(packagePath, lods, Selected(lods, lodFormat), format, encode))
  {
    var meshLods: seq<Mesh> := [];
    var i := 0;
    ghost var kept: seq<nat> := [];
    for lodIndex := 0 to |lods|
      invariant kept == KeptIndices(lods, lodIndex) && i == |kept| && i <= lodIndex
      invariant KnownFormat(format) ==> meshLods == SkeletalFiles(packagePath, lods, kept, format, encode)
      invariant !KnownFormat(format) ==> kept == [] && meshLods == []
      invariant lodFormat == FirstLod ==> i == 0
    {
      var lod := lods[lodIndex];
      if lod.Skip {
        KeptIndicesSkip(lods, lodIndex);
        continue;
      }
      SelectedOnKept(lods, lodFormat, lodIndex);
      var step := ExportSkeletalLodCorrected(packagePath, lods, lodIndex, i, kept, meshLods, format, encode);
      if step.Failure? {
        return Failure(step.error);
      }
      meshLods := step.value;
      kept := kept + [lodIndex];
      if lodFormat == FirstLod {
        break;
      }
      i := i + 1;
    }
    return Success(meshLods);
  }

  /**
   * With LOD 0 skipped and of more than 65536 vertices and LOD 1 exported with 100, the
   * constructor as written names the only file after LOD 0's vertex count (`pskx`) while the
   * corrected one, like the LOD in the file, calls for `psk`.
   */
  lemma SkeletalExtensionFromSkippedLod(packagePath: string, encode: (EMeshFormat, nat) -> seq<byte>)
    ensures var lods := [LodView(true, 70000), LodView(false, 100)];
      Selected(lods, AllLods) == [1] &&
      SkeletalFilesAsWritten(packagePath, lods, [1], ActorX, encode) == [Mesh(LodFileName(packagePath, 0, "pskx"), encode(ActorX, 1))] &&
      SkeletalFiles(packagePath, lods, [1], ActorX, encode) == [Mesh(LodFileName(packagePath, 0, "psk"), encode(ActorX, 1))]
  {
    var lods := [LodView(true, 70000), LodView(false, 100)];
    assert KeptIndices(lods, 1) == [];
    assert KeptIndices(lods, 2) == [1];
  }

  // ------------------------------------------------------------ the skeleton

  /**
   * The skeleton constructor: nothing when the skeleton does not convert or has no bone,
   * otherwise one file `{PackagePath}.psk` holding `data` (the ACTRHEAD header, the sockets
   * and the bones, whose writers are not part of this model).
   */
  function SkeletonMeshLods(packagePath: string, boneCount: Option<nat>, data: seq<byte>): (r: seq<Mesh>)
    ensures |r| <= 1
    ensures |r| == 1 <==> boneCount.Some? && boneCount.value > 0
    ensures |r| == 1 ==> r[0].FileName == packagePath + ".psk" && r[0].Data == data
  {
    if boneCount.None? || boneCount.value == 0 then [] else [Mesh(packagePath + ".psk", data)]
  }

  // ------------------------------------------------------------ writing to a directory

  /** What writing one file reports: success, and the path it was saved under. */
  datatype WriteOutcome = WriteOutcome(Written: bool, SavedFilePath: string)

  /** `"LOD "` followed by `"0 1 ... (n-1) "`. */
  function LodNumbers(n: nat): (r: string)
    ensures |r| >= 4 && r[..4] == "LOD "
  {
    if n == 0 then "LOD " else LodNumbers(n - 1) + Decimal(n - 1) + " "
  }

  predicate SomeWritten(meshLods: seq<Mesh>, write: Mesh -> WriteOutcome)
  {
    exists j :: 0 <= j < |meshLods| && write(meshLods[j]).Written
  }

  predicate AllWritten(meshLods: seq<Mesh>, write: Mesh -> WriteOutcome)
  {
    forall j :: 0 <= j < |meshLods| ==> write(meshLods[j]).Written
  }

  /**
   * `TryWriteToDir` as written: every LOD file is written, and the result is true when at
   * least one of them was; the label lists the LOD numbers and the last saved file's
   * extension (`ext`, StringUtils' `SubstringAfterWithLast('.')`, which is not part of this
   * model). Without LODs nothing is written and the result is false.
   */
  method TryWriteToDir(meshLods: seq<Mesh>, packagePath: string, exportName: string,
                       write: Mesh -> WriteOutcome, ext: string -> string)
    returns (b: bool, outLabel: string, savedFilePath: string)
    ensures b <==> SomeWritten(meshLods, write)
    ensures |meshLods| == 0 ==> !b && outLabel == "" && savedFilePath == packagePath
    ensures |meshLods| > 0 ==> savedFilePath == write(meshLods[|meshLods| - 1]).SavedFilePath
    ensures |meshLods| > 0 ==>
      outLabel == LodNumbers(|meshLods|) + "as '" + ext(savedFilePath) + "' for '" + exportName + "'"
  {
    b := false;
    outLabel := "";
    savedFilePath := packagePath;
    if |meshLods| == 0 {
      return;
    }
    var outText := "LOD ";
    for i := 0 to |meshLods|
      invariant b <==> exists j :: 0 <= j < i && write(meshLods[j]).Written
      invariant outText == LodNumbers(i)
      invariant i > 0 ==> savedFilePath == write(meshLods[i - 1]).SavedFilePath
    {
      var outcome := write(meshLods[i]);
      b := b || outcome.Written;
      savedFilePath := outcome.SavedFilePath;
      outText := outText + Decimal(i) + " ";
    }
    outLabel := outText + "as '" + ext(savedFilePath) + "' for '" + exportName + "'";
  }

  /** `TryWriteToDir` as documented: true exactly when there are LODs and all of them were written. */
  method TryWriteToDirCorrected(meshLods: seq<Mesh>, packagePath: string, exportName: string,
                                write: Mesh -> WriteOutcome, ext: string -> string)
    returns (b: bool, outLabel: string, savedFilePath: string)
    ensures b <==> |meshLods| > 0 && AllWritten(meshLods, write)
    ensures |meshLods| == 0 ==> outLabel == "" && savedFilePath == packagePath
    ensures |meshLods| > 0 ==> savedFilePath == write(meshLods[|meshLods| - 1]).SavedFilePath
    ensures |meshLods| > 0 ==>
      outLabel == LodNumbers(|meshLods|) + "as '" + ext(savedFilePath) + "' for '" + exportName + "'"
  {
    b := false;
    outLabel := "";
    savedFilePath := packagePath;
    if |meshLods| == 0 {
      return;
    }
    b := true;
    var outText := "LOD ";
    for i := 0 to |meshLods|
      invariant b <==> forall j :: 0 <= j < i ==> write(meshLods[j]).Written
      invariant outText == LodNumbers(i)
      invariant i > 0 ==> savedFilePath == write(meshLods[i - 1]).SavedFilePath
    {
      var outcome := write(meshLods[i]);
      b := b && outcome.Written;
      savedFilePath := outcome.SavedFilePath;
      outText := outText + Decimal(i) + " ";
    }
    outLabel := outText + "as '" + ext(savedFilePath) + "' for '" + exportName + "'";
  }

  /**
   * Two LOD files, the first failing to write and the second written: the result as written
   * reports success although not all LODs were exported.
   */
  lemma OneFailedWriteReportedAsSuccess(m1: Mesh, m2: Mesh, write: Mesh -> WriteOutcome)
    requires !write(m1).Written && write(m2).Written
    ensures SomeWritten([m1, m2], write) && !AllWritten([m1, m2], write)
  {
    assert [m1, m2][1] == m2;
    assert [m1, m2][0] == m1;
  }
}
