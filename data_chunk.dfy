/**
 * FDataChunk: a named, counted region of an asset body. It owns a writer for its payload;
 * serializing it appends the tag string, the element count, the payload size and the payload.
 */
module DataChunk {
  import opened Wrappers
  import opened Bytes
  import opened ArchiveWriter

  /** The chunk tags, as ASCII. */
  const VERTICES: FStr := Ascii("VERTICES")
  const NORMALS: FStr := Ascii("NORMALS")
  const TANGENTS: FStr := Ascii("TANGENTS")
  const TEXCOORDS: FStr := Ascii("TEXCOORDS")
  const INDICES: FStr := Ascii("INDICES")
  const VERTEXCOLORS: FStr := Ascii("VERTEXCOLORS")
  const MATERIALS: FStr := Ascii("MATERIALS")
  const WEIGHTS: FStr := Ascii("WEIGHTS")
  const MORPHTARGETS: FStr := Ascii("MORPHTARGETS")
  const BONES: FStr := Ascii("BONES")
  const SOCKETS: FStr := Ascii("SOCKETS")
  const MESHES: FStr := Ascii("MESHES")
  const ACTORS: FStr := Ascii("ACTORS")

  /**
   * The chunk layout the reader expects: tag, element count, payload size, payload. The
   * size is the payload length narrowed to a 32-bit int.
   */
  function ChunkBytes(tag: FStr, count: int32, payload: seq<byte>): (r: seq<byte>)
    ensures |r| == 12 + |tag| + |payload|
  {
    FStringBytes(tag) + Int32Bytes(count) + Int32Bytes(WrapInt32(|payload|)) + payload
  }

  /**
   * A chunk under construction. Every chunk is created, filled and flushed inside one
   * serializer method and never shared, so it is modelled as a value: the tag, the element
   * count (bumped by producers of variable-arity records) and the payload written so far.
   */
  datatype FDataChunk = FDataChunk(Tag: FStr, Count: int32, Body: seq<byte>)

  /** `new FDataChunk(tag, count)`: an empty payload; the count defaults to 0. */
  function NewChunk(tag: FStr, count: int32 := 0): (c: FDataChunk)
    ensures c.Tag == tag && c.Count == count && c.Body == []
  {
    FDataChunk(tag, count, [])
  }

  /**
   * One `record.Serialize(chunk)` call inside a loop over `xs`: after the records before
   * position i, the payload also holds the encoding of record i.
   */
  method AppendRecord<T>(c: FDataChunk, enc: T -> seq<byte>, x: T, ghost xs: seq<T>, ghost i: nat) returns (c': FDataChunk)
    requires i < |xs| && xs[i] == x && c.Body == EncodeAll(enc, xs[..i])
    ensures c' == c.(Body := EncodeAll(enc, xs[..i + 1]))
  {
    EncodeAllPrefixStep(enc, xs, i);
    c' := c.(Body := c.Body + enc(x));
  }


  /**
   * A record written by a producer that counts its own records: the record's bytes, then
   * `Count++` (an int, so the count wraps).
   */
  method AppendCounted<T>(c: FDataChunk, enc: T -> seq<byte>, x: T, ghost xs: seq<T>, ghost k: nat) returns (c': FDataChunk)
    requires k < |xs| && xs[k] == x && c.Count == WrapInt32(k) && c.Body == EncodeAll(enc, xs[..k])
    ensures c' == FDataChunk(c.Tag, WrapInt32(k + 1), EncodeAll(enc, xs[..k + 1]))
  {
    c' := AppendRecord(c, enc, x, xs, k);
    WrapInt32Succ(k);
    c' := c'.(Count := WrapInt32(c'.Count + 1));
  }

  /** A chunk holding one record per element of `xs`, appended in order by a loop. */
  method BuildChunk<T>(tag: FStr, enc: T -> seq<byte>, xs: seq<T>) returns (c: FDataChunk)
    requires |xs| < TWO_31
    ensures c == FDataChunk(tag, |xs|, EncodeAll(enc, xs))
  {
    c := NewChunk(tag, |xs|);
    var i := 0;
    while i < |xs|
      invariant 0 <= i <= |xs|
      invariant c == FDataChunk(tag, |xs|, EncodeAll(enc, xs[..i]))
    {
      c := AppendRecord(c, enc, xs[i], xs, i);
      i := i + 1;
    }
    assert xs[..i] == xs;
  }

  /** The present elements of a list of optional values, in order. */
  function Present<T>(xs: seq<Option<T>>): (r: seq<T>)
    ensures |r| <= |xs|
  {
    if xs == [] then []
    else Present(xs[..|xs| - 1]) + (if xs[|xs| - 1].Some? then [xs[|xs| - 1].value] else [])
  }

  /** Present, one element further. */
  lemma PresentStep<T>(xs: seq<Option<T>>, i: nat)
    requires i < |xs|
    ensures Present(xs[..i + 1]) == Present(xs[..i]) + (if xs[i].Some? then [xs[i].value] else [])
  {
    assert xs[..i + 1][..i] == xs[..i];
  }

  /**
   * A chunk filled by a loop that skips absent elements and counts the records it writes,
   * so the count always equals the number of records in the payload.
   */
  method BuildCountedChunk<T>(tag: FStr, enc: T -> seq<byte>, xs: seq<Option<T>>) returns (c: FDataChunk)
    requires |xs| < TWO_31
    ensures c == FDataChunk(tag, |Present(xs)|, EncodeAll(enc, Present(xs)))
  {
    c := NewChunk(tag);
    for i := 0 to |xs|
      invariant c == FDataChunk(tag, |Present(xs[..i])|, EncodeAll(enc, Present(xs[..i])))
      invariant |Present(xs[..i])| <= i
    {
      PresentStep(xs, i);
      if xs[i].None? {
        assert Present(xs[..i]) + [] == Present(xs[..i]);
        continue;
      }
      EncodeAllSnoc(enc, Present(xs[..i]), xs[i].value);
      c := c.(Body := c.Body + enc(xs[i].value), Count := c.Count + 1);
    }
    assert xs[..|xs|] == xs;
  }

  /** The bytes of one chunk. */
  function ChunkBytesOf(c: FDataChunk): (r: seq<byte>)
    ensures |r| == 12 + |c.Tag| + |c.Body|
  {
    ChunkBytes(c.Tag, c.Count, c.Body)
  }

  /**
   * A flush in a sequence of flushes: if the archive held `start` followed by the chunks
   * `flushed`, it now also holds chunk `c`.
   */
  method FlushChunk(c: FDataChunk, ar: FArchiveWriter, ghost start: seq<byte>, ghost flushed: seq<FDataChunk>)
    requires ar.Valid() && ar.buffer == start + EncodeAll(ChunkBytesOf, flushed)
    modifies ar
    ensures ar.Valid() && ar.buffer == start + EncodeAll(ChunkBytesOf, flushed + [c])
  {
    SerializeChunk(c, ar);
    EncodeAllSnoc(ChunkBytesOf, flushed, c);
    AppendAssoc(start, EncodeAll(ChunkBytesOf, flushed), ChunkBytesOf(c));
  }

  /** `chunk.Serialize(ar)`: the chunk's bytes appended to the archive. */
  method SerializeChunk(c: FDataChunk, ar: FArchiveWriter)
    requires ar.Valid()
    modifies ar
    ensures ar.Valid() && ar.buffer == old(ar.buffer) + ChunkBytes(c.Tag, c.Count, c.Body)
  {
    ar.WriteFString(c.Tag);
    ar.WriteInt32(c.Count);
    ar.WriteInt32(WrapInt32(|c.Body|));
    ar.Write(c.Body);
  }
}
