/**
 * FArchiveReader: the importer's cursor over an in-memory byte stream, and the two
 * `while not ar.eof()` chunk loops that fill a UModel or a UWorld. Every method is tied to
 * the function in module UnrealReader that reads the same bytes from the unread suffix.
 */
module ArchiveReader {
  import opened Wrappers
  import opened Bytes
  import opened UnrealReader
  import DataChunk

  class FArchiveReader {
    const data: seq<byte>
    const size: nat
    /** `data.tell()`. */
    var position: nat

    ghost predicate Valid()
      reads this
    {
      size == |data| && position <= size
    }

    /** The bytes not yet read. */
    function Rest(): seq<byte>
      reads this
      requires Valid()
    {
      data[position..]
    }

    /** A reader over `data`, positioned at its first byte. */
    constructor (data: seq<byte>)
      ensures Valid() && this.data == data && Rest() == data
    {
      this.data := data;
      size := |data|;
      position := 0;
    }

    /** `eof`: the cursor is at or beyond the size. */
    method Eof() returns (b: bool)
      requires Valid()
      ensures b <==> Rest() == []
    {
      b := position >= size;
    }

    /** Moves the cursor to just before `rest`, a suffix of the unread bytes. */
    method SkipTo(rest: seq<byte>)
      requires Valid() && IsSuffix(rest, Rest())
      modifies this
      ensures Valid() && Rest() == rest
    {
      position := size - |rest|;
      assert data[position..] == data[old(position)..][|old(Rest())| - |rest|..];
    }

    /** `read(n)`: at most n bytes; a negative n reads to the end. */
    method Read(n: int) returns (s: seq<byte>)
      requires Valid()
      modifies this
      ensures Valid() && Parsed(s, Rest()) == ReadBytes(old(Rest()), n)
    {
      var p := ReadBytes(data[position..], n);
      s := p.value;
      SkipTo(p.rest);
    }

    /** `read_to_end`: every byte not yet read. */
    method ReadToEnd() returns (s: seq<byte>)
      requires Valid()
      modifies this
      ensures Valid() && s == old(Rest()) && Rest() == []
    {
      s := Read(size - position);
    }

    /** `skip(n)`: `read(n)` with the bytes dropped. */
    method Skip(n: int)
      requires Valid()
      modifies this
      ensures Valid() && Rest() == ReadBytes(old(Rest()), n).rest
    {
      var _ := Read(n);
    }

    /** `read_int`; None where `struct.unpack` raises on a short read. */
    method ReadInt() returns (r: Option<int32>)
      requires Valid()
      modifies this
      ensures Valid()
      ensures r.None? <==> UnrealReader.ReadInt(old(Rest())).None?
      ensures r.Some? ==> r.value == UnrealReader.ReadInt(old(Rest())).value.value && Rest() == UnrealReader.ReadInt(old(Rest())).value.rest
    {
      var b := Read(4);
      if |b| < 4 {
        return None;
      }
      r := Some(Int32Of(b));
    }

    /** `read_fstring`: the length, then that many bytes with trailing NULs stripped. */
    method ReadFString() returns (r: Option<seq<byte>>)
      requires Valid()
      modifies this
      ensures Valid()
      ensures r.None? <==> UnrealReader.ReadFString(old(Rest())).None?
      ensures r.Some? ==> r.value == UnrealReader.ReadFString(old(Rest())).value.value && Rest() == UnrealReader.ReadFString(old(Rest())).value.rest
    {
      var size := ReadInt();
      if size.None? {
        return None;
      }
      var s := Read(size.value);
      r := Some(StripNuls(s));
    }

    /** A record constructor such as `Weight(ar)`, reading its fields at the cursor. */
    method ReadWith<T>(rd: seq<byte> -> Option<Parsed<T>>) returns (r: Option<T>)
      requires Valid() && Consumes(rd)
      modifies this
      ensures Valid()
      ensures r.None? <==> rd(old(Rest())).None?
      ensures r.Some? ==> r.value == rd(old(Rest())).value.value && Rest() == rd(old(Rest())).value.rest
    {
      var p := rd(data[position..]);
      if p.None? {
        return None;
      }
      SkipTo(p.value.rest);
      r := Some(p.value.value);
    }

    /** `read_bulk_array(count, predicate)`: `count` records in order, or the first failure. */
    method ReadBulkArray<T>(count: int, rd: seq<byte> -> Option<Parsed<T>>) returns (r: Option<seq<T>>)
      requires Valid() && Consumes(rd)
      modifies this
      ensures Valid()
      ensures r.None? <==> ReadBulk(old(Rest()), count, rd).None?
      ensures r.Some? ==> r.value == ReadBulk(old(Rest()), count, rd).value.value && Rest() == ReadBulk(old(Rest()), count, rd).value.rest
    {
      var bulkArray: seq<T> := [];
      var counter := 0;
      ghost var total := ReadBulk(Rest(), count, rd);
      PrependNothing(total);
      while counter < count
        invariant Valid()
        invariant 0 <= counter && (count >= 0 ==> counter <= count)
        invariant total == Prepend(bulkArray, ReadBulk(Rest(), count - counter, rd))
        decreases count - counter
      {
        ghost var before := Rest();
        var item := ReadWith(rd);
        if item.None? {
          return None;
        }
        BulkLoopStep(total, bulkArray, before, item.value, Rest(), count - counter, rd);
        bulkArray := bulkArray + [item.value];
        counter := counter + 1;
      }
      assert ReadBulk(Rest(), count - counter, rd) == Some(Parsed([], Rest()));
      r := Some(bulkArray);
    }
  }

  /** The tag, array size and byte size at the front of every chunk. */
  method ReadChunkHeaderAt(ar: FArchiveReader) returns (r: Option<ChunkHeader>)
    requires ar.Valid()
    modifies ar
    ensures ar.Valid()
    ensures r.None? <==> ReadChunkHeader(old(ar.Rest())).None?
    ensures r.Some? ==> r.value == ReadChunkHeader(old(ar.Rest())).value.value && ar.Rest() == ReadChunkHeader(old(ar.Rest())).value.rest
  {
    var headerName := ar.ReadFString();
    if headerName.None? {
      return None;
    }
    var arraySize := ar.ReadInt();
    if arraySize.None? {
      return None;
    }
    var byteSize := ar.ReadInt();
    if byteSize.None? {
      return None;
    }
    r := Some(ChunkHeader(headerName.value, arraySize.value, byteSize.value));
  }

  /** The body of one `import_umodel_data` chunk: the bulk read its tag selects, or a skip. */
  method ReadUModelPayload(ar: FArchiveReader, h: ChunkHeader, umodel: UModel) returns (r: Option<UModel>)
    requires ar.Valid()
    modifies ar
    ensures ar.Valid()
    ensures r.None? <==> UModelPayload(h, old(ar.Rest()), umodel).None?
    ensures r.Some? ==> r.value == UModelPayload(h, old(ar.Rest()), umodel).value.value && ar.Rest() == UModelPayload(h, old(ar.Rest()), umodel).value.rest
  {
    ConsumesChunkRecords();
    var headerName, arraySize := h.Tag, h.Count;
    if headerName == DataChunk.VERTICES {
      var v := ar.ReadBulkArray(arraySize, ReadVector3);
      r := if v.None? then None else Some(umodel.(Vertices := v.value));
    } else if headerName == DataChunk.INDICES {
      var v := ar.ReadBulkArray(TriangleCount(arraySize), ReadTriangle);
      r := if v.None? then None else Some(umodel.(Indices := v.value));
    } else if headerName == DataChunk.NORMALS {
      var v := ar.ReadBulkArray(arraySize, ReadVector3);
      r := if v.None? then None else Some(umodel.(Normals := v.value));
    } else if headerName == DataChunk.TANGENTS {
      var v := ar.ReadBulkArray(arraySize, ReadVector3);
      r := if v.None? then None else Some(umodel.(Tangents := v.value));
    } else if headerName == DataChunk.VERTEXCOLORS {
      var v := ar.ReadBulkArray(arraySize, ReadColor);
      r := if v.None? then None else Some(umodel.(Colors := v.value));
    } else if headerName == DataChunk.TEXCOORDS {
      var v := ar.ReadBulkArray(arraySize, ReadUV);
      r := if v.None? then None else Some(umodel.(UVs := v.value));
    } else if headerName == DataChunk.MATERIALS {
      var v := ar.ReadBulkArray(arraySize, ReadFString);
      r := if v.None? then None else Some(umodel.(Materials := v.value));
    } else if headerName == DataChunk.WEIGHTS {
      var v := ar.ReadBulkArray(arraySize, ReadWeight);
      r := if v.None? then None else Some(umodel.(Weights := v.value));
    } else if headerName == DataChunk.BONES {
      var v := ar.ReadBulkArray(arraySize, ReadBone);
      r := if v.None? then None else Some(umodel.(Bones := v.value));
    } else if headerName == DataChunk.MORPHTARGETS {
      var v := ar.ReadBulkArray(arraySize, ReadMorphTarget);
      r := if v.None? then None else Some(umodel.(Morphs := v.value));
    } else if headerName == DataChunk.SOCKETS {
      var v := ar.ReadBulkArray(arraySize, ReadSocket);
      r := if v.None? then None else Some(umodel.(Sockets := v.value));
    } else {
      ar.Skip(h.ByteSize);
      r := Some(umodel);
    }
  }

  /**
   * `import_umodel_data`'s loop: chunk after chunk until end of file, each replacing one
   * list of the model; any short read aborts the import.
   */
  method ImportUModelData(ar: FArchiveReader) returns (r: Option<UModel>)
    requires ar.Valid()
    modifies ar
    ensures r == UModelChunks(old(ar.Rest()), EmptyUModel)
  {
    var umodel := EmptyUModel;
    var eof := ar.Eof();
    while !eof
      invariant ar.Valid()
      invariant eof <==> ar.Rest() == []
      invariant UModelChunks(ar.Rest(), umodel) == UModelChunks(old(ar.Rest()), EmptyUModel)
      decreases |ar.Rest()|
    {
      ghost var before := ar.Rest();
      var h := ReadChunkHeaderAt(ar);
      if h.None? {
        return None;
      }
      var next := ReadUModelPayload(ar, h.value, umodel);
      if next.None? {
        return None;
      }
      SuffixTrans(ar.Rest(), ReadChunkHeader(before).value.rest, before);
      umodel := next.value;
      eof := ar.Eof();
    }
    r := Some(umodel);
  }

  /** The body of one `import_uworld_data` chunk. */
  method ReadUWorldPayload(ar: FArchiveReader, h: ChunkHeader, uworld: UWorld) returns (r: Option<UWorld>)
    requires ar.Valid()
    modifies ar
    ensures ar.Valid()
    ensures r.None? <==> UWorldPayload(h, old(ar.Rest()), uworld).None?
    ensures r.Some? ==> r.value == UWorldPayload(h, old(ar.Rest()), uworld).value.value && ar.Rest() == UWorldPayload(h, old(ar.Rest()), uworld).value.rest
  {
    ConsumesChunkRecords();
    if h.Tag == DataChunk.MESHES {
      var v := ar.ReadBulkArray(h.Count, ReadHashedMesh);
      r := if v.None? then None else Some(uworld.(Meshes := v.value));
    } else if h.Tag == DataChunk.ACTORS {
      var v := ar.ReadBulkArray(h.Count, ReadActor);
      r := if v.None? then None else Some(uworld.(Actors := v.value));
    } else {
      ar.Skip(h.ByteSize);
      r := Some(uworld);
    }
  }

  /** `import_uworld_data`'s chunk loop, before the meshes are imported. */
  method ImportUWorldChunks(ar: FArchiveReader) returns (r: Option<UWorld>)
    requires ar.Valid()
    modifies ar
    ensures r == UWorldChunks(old(ar.Rest()), EmptyUWorld)
  {
    var uworld := EmptyUWorld;
    var eof := ar.Eof();
    while !eof
      invariant ar.Valid()
      invariant eof <==> ar.Rest() == []
      invariant UWorldChunks(ar.Rest(), uworld) == UWorldChunks(old(ar.Rest()), EmptyUWorld)
      decreases |ar.Rest()|
    {
      ghost var before := ar.Rest();
      var h := ReadChunkHeaderAt(ar);
      if h.None? {
        return None;
      }
      var next := ReadUWorldPayload(ar, h.value, uworld);
      if next.None? {
        return None;
      }
      SuffixTrans(ar.Rest(), ReadChunkHeader(before).value.rest, before);
      uworld := next.value;
      eof := ar.Eof();
    }
    r := Some(uworld);
  }

  /** Records read before a bulk read's remainder, in front of its result. */
  function Prepend<T>(before: seq<T>, r: Option<Parsed<seq<T>>>): (s: Option<Parsed<seq<T>>>)
    ensures s.Some? <==> r.Some?
    ensures s.Some? ==> s.value.value == before + r.value.value && s.value.rest == r.value.rest
  {
    match r
    case None => None
    case Some(p) => Some(Parsed(before + p.value, p.rest))
  }

  lemma PrependNothing<T>(r: Option<Parsed<seq<T>>>)
    ensures Prepend([], r) == r
  {
    if r.Some? {
      assert [] + r.value.value == r.value.value;
    }
  }

  lemma PrependTwice<T>(a: seq<T>, b: seq<T>, r: Option<Parsed<seq<T>>>)
    ensures Prepend(a, Prepend(b, r)) == Prepend(a + b, r)
  {
    if r.Some? {
      assert a + (b + r.value.value) == a + b + r.value.value;
    }
  }

  /** The bulk loop's invariant survives reading one more record. */
  lemma BulkLoopStep<T>(total: Option<Parsed<seq<T>>>, done: seq<T>, d: seq<byte>, item: T, rest: seq<byte>, left: int, rd: seq<byte> -> Option<Parsed<T>>)
    requires Consumes(rd) && left > 0 && rd(d) == Some(Parsed(item, rest))
    requires total == Prepend(done, ReadBulk(d, left, rd))
    ensures total == Prepend(done + [item], ReadBulk(rest, left - 1, rd))
  {
    BulkStep(d, left, rd);
    PrependTwice(done, [item], ReadBulk(rest, left - 1, rd));
  }

  /** One record read off the front of a bulk read. */
  lemma BulkStep<T>(d: seq<byte>, count: int, rd: seq<byte> -> Option<Parsed<T>>)
    requires Consumes(rd) && count > 0 && rd(d).Some?
    ensures ReadBulk(d, count, rd) == Prepend([rd(d).value.value], ReadBulk(rd(d).value.rest, count - 1, rd))
  {
  }
}
