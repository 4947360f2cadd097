/**
 * FArchiveWriter: a BinaryWriter whose output stream is an in-memory buffer. Every write
 * appends at the end, so the stream's position always equals its length.
 */
module ArchiveWriter {
  import opened Bytes

  class FArchiveWriter {
    /** The bytes of the underlying memory stream. */
    var buffer: seq<byte>
    /** The memory stream's cursor. */
    var position: nat

    ghost predicate Valid()
      reads this
    {
      position == |buffer|
    }

    /** A fresh writer: an empty stream with its cursor at 0. */
    constructor ()
      ensures Valid() && buffer == [] && position == 0
    {
      buffer := [];
      position := 0;
    }

    /** The stream's length. */
    function Length(): (n: nat)
      reads this
      ensures n == |buffer|
    {
      |buffer|
    }

    /** GetBuffer: a copy of every byte written so far, in order. */
    method GetBuffer() returns (r: seq<byte>)
      requires Valid()
      ensures r == buffer && |r| == position
    {
      r := buffer;
    }

    /** Stream.Write(byte[]): appends the bytes as they are. */
    method Write(bytes: seq<byte>)
      requires Valid()
      modifies this
      ensures Valid() && buffer == old(buffer) + bytes
      ensures position == old(position) + |bytes|
    {
      buffer := buffer + bytes;
      position := position + |bytes|;
    }

    /**
     * DumpStruct<T>: copies the struct's raw memory image, whose length is SizeOf<T>
     * (never zero for a .NET struct), into a new array and appends it.
     */
    method DumpStruct(image: seq<byte>)
      requires Valid() && |image| >= 1
      modifies this
      ensures Valid() && buffer == old(buffer) + image
      ensures position == old(position) + |image|
    {
      var bytes := image;
      Write(bytes);
    }

    /**
     * WriteArray<T>: allocates SizeOf<T> * array.Length bytes and appends them. The element
     * bytes are not copied (the source stores the array reference into the first bytes), so
     * only the length of what is appended is specified. An empty array (or a zero-sized
     * element) makes `bytes[0]` fail before anything is written.
     */
    method WriteArray(elementSize: nat, count: nat) returns (ok: bool)
      requires Valid()
      modifies this
      ensures Valid()
      ensures ok <==> elementSize * count > 0
      ensures ok ==> |buffer| == old(|buffer|) + elementSize * count && buffer[..old(|buffer|)] == old(buffer)
      ensures !ok ==> buffer == old(buffer)
    {
      var size := elementSize * count;
      if size == 0 {
        return false;
      }
      var bytes := seq(size, _ => 0);
      Write(bytes);
      ok := true;
    }

    /** BinaryWriter.Write(int). */
    method WriteInt32(v: int32)
      requires Valid()
      modifies this
      ensures Valid() && buffer == old(buffer) + Int32Bytes(v)
    {
      Write(Int32Bytes(v));
    }

    /** BinaryWriter.Write(uint). */
    method WriteUInt32(v: uint32)
      requires Valid()
      modifies this
      ensures Valid() && buffer == old(buffer) + UInt32Bytes(v)
    {
      Write(UInt32Bytes(v));
    }

    /** BinaryWriter.Write(short). */
    method WriteInt16(v: int16)
      requires Valid()
      modifies this
      ensures Valid() && buffer == old(buffer) + Int16Bytes(v)
    {
      Write(Int16Bytes(v));
    }

    /** BinaryWriter.Write(float). */
    method WriteFloat(f: Float32)
      requires Valid()
      modifies this
      ensures Valid() && buffer == old(buffer) + FloatBytes(f)
    {
      Write(FloatBytes(f));
    }

    /** BinaryWriter.Write(bool). */
    method WriteBool(b: bool)
      requires Valid()
      modifies this
      ensures Valid() && buffer == old(buffer) + BoolBytes(b)
    {
      Write(BoolBytes(b));
    }

    /** WriteFString: the length-prefixed string layout. */
    method WriteFString(s: seq<byte>)
      requires Valid() && |s| < TWO_31
      modifies this
      ensures Valid() && buffer == old(buffer) + FStringBytes(s)
    {
      Write(FStringBytes(s));
    }
  }

  /**
   * What GetBuffer returns is a value: writes made after the call leave it as it was,
   * and the writer keeps Position == Length throughout.
   */
  method GetBufferThenWrite(w: FArchiveWriter, later: seq<byte>) returns (snapshot: seq<byte>)
    requires w.Valid()
    modifies w
    ensures snapshot == old(w.buffer)
    ensures w.Valid() && w.buffer == snapshot + later
    ensures w.position == w.Length()
  {
    snapshot := w.GetBuffer();
    w.Write(later);
  }

  /**
   * One `record.Serialize(w)` call inside a loop over `xs`: after the records before
   * position i, the writer also holds the encoding of record i.
   */
  method WriteRecord<T>(w: FArchiveWriter, enc: T -> seq<byte>, xs: seq<T>, i: nat, ghost head: seq<byte>)
    requires w.Valid() && i < |xs| && w.buffer == head + EncodeAll(enc, xs[..i])
    modifies w
    ensures w.Valid() && w.buffer == head + EncodeAll(enc, xs[..i + 1])
  {
    EncodeAllPrefixStep(enc, xs, i);
    w.Write(enc(xs[i]));
  }

  /** `xs.ForEach(x => x.Serialize(w))`: every record's encoding, in order. */
  method WriteEach<T>(w: FArchiveWriter, enc: T -> seq<byte>, xs: seq<T>)
    requires w.Valid()
    modifies w
    ensures w.Valid() && w.buffer == old(w.buffer) + EncodeAll(enc, xs)
  {
    var i := 0;
    while i < |xs|
      invariant 0 <= i <= |xs| && w.Valid()
      invariant w.buffer == old(w.buffer) + EncodeAll(enc, xs[..i])
    {
      WriteRecord(w, enc, xs, i, old(w.buffer));
      i := i + 1;
    }
    assert xs[..i] == xs;
  }
}
