/**
 * FUnrealHeader: the envelope written in front of every exported asset: magic, format
 * identifier, version, object name, a compressed flag and, only when compressed, the name
 * of the compression algorithm.
 */
module UnrealHeader {
  import opened Bytes
  import opened ArchiveWriter

  /** EFileCompressionFormat; the written name of each member is its enum name. */
  datatype EFileCompressionFormat = None | GZIP | ZSTD

  function FormatName(f: EFileCompressionFormat): (r: seq<byte>)
    ensures |r| == 4
  {
    match f
    case None => Ascii("None")
    case GZIP => Ascii("GZIP")
    case ZSTD => Ascii("ZSTD")
  }

  /** The ASCII bytes of "UNREALFORMAT". */
  const MAGIC: seq<byte> := [0x55, 0x4E, 0x52, 0x45, 0x41, 0x4C, 0x46, 0x4F, 0x52, 0x4D, 0x41, 0x54]

  /** The bytes Serialize appends, field by field. */
  function HeaderBytes(identifier: FStr, version: int32, objectName: FStr, format: EFileCompressionFormat): (r: seq<byte>)
    ensures |r| == 12 + 4 + |identifier| + 4 + 4 + |objectName| + 1 + (if format != None then 8 else 0)
  {
    MAGIC + FStringBytes(identifier) + Int32Bytes(version) + FStringBytes(objectName)
    + BoolBytes(format != None)
    + (if format != None then FStringBytes(FormatName(format)) else [])
  }

  /**
   * The header starts with the 12-byte magic; the byte after the object name is non-zero
   * exactly when the asset is compressed, and the algorithm's name follows only then.
   */
  lemma HeaderLayout(identifier: FStr, version: int32, objectName: FStr, format: EFileCompressionFormat)
    ensures var r := HeaderBytes(identifier, version, objectName, format);
      var flagAt := 12 + 4 + |identifier| + 4 + 4 + |objectName|;
      && r[..12] == MAGIC
      && r[12..flagAt] == FStringBytes(identifier) + Int32Bytes(version) + FStringBytes(objectName)
      && (r[flagAt] != 0 <==> format != None)
      && r[flagAt + 1..] == (if format != None then FStringBytes(FormatName(format)) else [])
  {
    HeaderSplit(MAGIC, FStringBytes(identifier), Int32Bytes(version), FStringBytes(objectName),
      BoolBytes(format != None), if format != None then FStringBytes(FormatName(format)) else []);
  }

  /** Slicing six concatenated pieces back apart: the header's layout, field by field. */
  lemma HeaderSplit(m: seq<byte>, i: seq<byte>, v: seq<byte>, o: seq<byte>, f: seq<byte>, t: seq<byte>)
    requires |f| == 1
    ensures var r := m + i + v + o + f + t;
      && r[..|m|] == m
      && r[|m|..|m| + |i| + |v| + |o|] == i + v + o
      && r[|m| + |i| + |v| + |o|] == f[0]
      && r[|m| + |i| + |v| + |o| + 1..] == t
  {
    var r := m + i + v + o + f + t;
    AppendAssoc(m, i, v);
    AppendAssoc(m, i + v, o);
    assert m + i + v + o == m + (i + v + o);
    SplitAt(m, i + v + o);
    SplitAt(m + i + v + o, f + t);
    assert r == (m + i + v + o) + (f + t);
  }

  class FUnrealHeader {
    var CompressionFormat: EFileCompressionFormat
    const Identifier: FStr
    const FileVersion: int32
    const ObjectName: FStr

    /** Stores its arguments; the compression format defaults to None. */
    constructor (identifier: FStr, fileVersion: int32, objectName: FStr, compressionFormat: EFileCompressionFormat := None)
      ensures Identifier == identifier && FileVersion == fileVersion && ObjectName == objectName
      ensures CompressionFormat == compressionFormat
    {
      Identifier := identifier;
      FileVersion := fileVersion;
      ObjectName := objectName;
      CompressionFormat := compressionFormat;
    }

    /** Writes the header to `ar` and leaves the header itself untouched. */
    method Serialize(ar: FArchiveWriter)
      requires ar.Valid()
      modifies ar
      ensures ar.Valid()
      ensures ar.buffer == old(ar.buffer) + HeaderBytes(Identifier, FileVersion, ObjectName, CompressionFormat)
    {
      // The magic is copied into a buffer of exactly its own length, so no padding remains.
      var padded := seq(|MAGIC|, _ => 0);
      var bytes := MAGIC;
      padded := bytes + padded[|bytes|..];
      assert padded == MAGIC;
      ghost var start := ar.buffer;
      ar.Write(padded);
      ghost var written := MAGIC;

      ar.WriteFString(Identifier);
      AppendAssoc(start, written, FStringBytes(Identifier));
      written := written + FStringBytes(Identifier);
      ar.WriteInt32(FileVersion);
      AppendAssoc(start, written, Int32Bytes(FileVersion));
      written := written + Int32Bytes(FileVersion);
      ar.WriteFString(ObjectName);
      AppendAssoc(start, written, FStringBytes(ObjectName));
      written := written + FStringBytes(ObjectName);

      var isCompressed := CompressionFormat != None;
      ar.WriteBool(isCompressed);
      AppendAssoc(start, written, BoolBytes(isCompressed));
      written := written + BoolBytes(isCompressed);
      if isCompressed {
        ar.WriteFString(FormatName(CompressionFormat));
        AppendAssoc(start, written, FStringBytes(FormatName(CompressionFormat)));
        written := written + FStringBytes(FormatName(CompressionFormat));
      } else {
        assert written + [] == written;
      }
    }
  }

  /** Serializing the same header twice appends the same bytes twice. */
  method SerializeTwice(h: FUnrealHeader, a: FArchiveWriter, b: FArchiveWriter)
    requires a.Valid() && b.Valid() && a != b && a.buffer == [] && b.buffer == []
    modifies a, b
    ensures a.buffer == b.buffer && |a.buffer| > 12
  {
    h.Serialize(a);
    h.Serialize(b);
  }
}
