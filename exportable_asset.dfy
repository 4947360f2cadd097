/**
 * ExportableUnrealAssetBase: an asset under construction. Producers write chunks into its
 * body writer `Ar`; Save emits the header followed by the body, compressed as a whole when
 * the header says so. Length is the size Save would append, computed with a scratch writer.
 */
module ExportableAsset {
  import Wrappers
  import opened Bytes
  import opened ArchiveWriter
  import opened UnrealHeader

  /**
   * A whole-buffer compressor and its matching decompressor (GZipStream.CompressBuffer
   * and the reader's gzip.decompress are library code outside this model).
   */
  datatype Codec = Codec(compress: seq<byte> -> seq<byte>, decompress: seq<byte> -> seq<byte>)

  ghost predicate Lossless(c: Codec)
  {
    forall b :: c.decompress(c.compress(b)) == b
  }

  /**
   * The blob that follows the header: the body itself, its GZIP compression, or a failure
   * for any other format (the switch in Save has no arm for it).
   */
  function FinalData(format: EFileCompressionFormat, data: seq<byte>, gzip: Codec): (r: Wrappers.Option<seq<byte>>)
    ensures r.None? <==> format == ZSTD
    ensures format == None ==> r == Wrappers.Some(data)
    ensures Lossless(gzip) && format == GZIP ==> gzip.decompress(r.value) == data
  {
    match format
    case None => Wrappers.Some(data)
    case GZIP => Wrappers.Some(gzip.compress(data))
    case ZSTD => Wrappers.None
  }

  class ExportableUnrealAssetBase {
    /** The body: every chunk the producer has serialized so far. */
    const Ar: FArchiveWriter
    const Header: FUnrealHeader

    ghost predicate Valid()
      reads this, Ar, Header
    {
      Ar.Valid()
    }

    /** An asset with an empty body and the given header. */
    constructor (header: FUnrealHeader)
      ensures Valid() && fresh(Ar) && Ar.buffer == [] && Header == header
    {
      Ar := new FArchiveWriter();
      Header := header;
    }

    /** The bytes Save appends when it succeeds. */
    ghost function SavedBytes(gzip: Codec): Wrappers.Option<seq<byte>>
      reads this, Ar, Header
      requires Valid()
    {
      var header := HeaderBytes(Header.Identifier, Header.FileVersion, Header.ObjectName, Header.CompressionFormat);
      var blob := FinalData(Header.CompressionFormat, Ar.buffer, gzip);
      if blob.None? then Wrappers.None else Wrappers.Some(header + blob.value)
    }

    /**
     * Save: the header, then the (possibly compressed) body. With an unsupported format the
     * header has already been written when the switch fails, so the archive keeps it.
     */
    method Save(archive: FArchiveWriter, gzip: Codec) returns (ok: bool)
      requires Valid() && archive.Valid() && archive != Ar
      modifies archive
      ensures archive.Valid() && Valid()
      ensures ok <==> Header.CompressionFormat != ZSTD
      ensures ok ==> archive.buffer == old(archive.buffer) + SavedBytes(gzip).value
      ensures !ok ==> archive.buffer == old(archive.buffer) + HeaderBytes(Header.Identifier, Header.FileVersion, Header.ObjectName, Header.CompressionFormat)
    {
      Header.Serialize(archive);
      var data := Ar.GetBuffer();
      var finalData := FinalData(Header.CompressionFormat, data, gzip);
      if finalData.None? {
        return false;
      }
      archive.Write(finalData.value);
      ok := true;
    }

    /**
     * GetLength: the number of bytes Save appends, narrowed to `int`. The body writer and
     * the header are left as they were; only the scratch writer is written.
     */
    method GetLength(gzip: Codec) returns (r: Wrappers.Option<int32>)
      requires Valid()
      ensures r.None? <==> Header.CompressionFormat == ZSTD
      ensures r.Some? ==> r.value == WrapInt32(|SavedBytes(gzip).value|)
    {
      var miniArchive := new FArchiveWriter();
      Header.Serialize(miniArchive);
      var data := Ar.GetBuffer();
      var finalData := FinalData(Header.CompressionFormat, data, gzip);
      if finalData.None? {
        return Wrappers.None;
      }
      miniArchive.Write(finalData.value);
      r := Wrappers.Some(WrapInt32(miniArchive.Length()));
    }
  }

  /**
   * Length agrees with Save: when the asset is smaller than 2 GiB, the value a container
   * records before the asset's bytes is exactly how many bytes Save then appends.
   */
  method LengthThenSave(asset: ExportableUnrealAssetBase, archive: FArchiveWriter, gzip: Codec) returns (declared: Wrappers.Option<int32>, ok: bool)
    requires asset.Valid() && archive.Valid() && archive != asset.Ar
    modifies archive
    ensures declared.Some? <==> ok
    ensures ok && declared.value >= 0 && old(asset.SavedBytes(gzip)).Some? && |old(asset.SavedBytes(gzip)).value| < TWO_31
      ==> |archive.buffer| == |old(archive.buffer)| + declared.value
  {
    declared := asset.GetLength(gzip);
    ok := asset.Save(archive, gzip);
  }
}
