/** `BufferOutputStream`: a `java.io.OutputStream` whose writes append to a
    Vert.x buffer. */
module BufferOutputStreams {
  import opened VertxBuffer

  class BufferOutputStream {
    /** The buffer every write appends to. */
    const buffer: Buffer

    constructor (buffer: Buffer)
      ensures this.buffer == buffer
    {
      this.buffer := buffer;
    }

    /** `write(b: Int)`: exactly one byte, the low eight bits of `b`. */
    method WriteByte(b: int)
      modifies buffer
      ensures buffer.bytes == old(buffer.bytes) + [ToByte(b)]
    {
      buffer.AppendByte(ToByte(b));
    }

    /** `write(b: ByteArray)`: all of `b`, in order. */
    method Write(b: array<Byte>)
      modifies buffer
      ensures buffer.bytes == old(buffer.bytes) + b[..]
    {
      buffer.AppendBytes(b);
    }

    /** `write(b, off, len)`: exactly `b[off .. off + len)`. */
    method WriteRange(b: array<Byte>, off: int, len: int)
      requires 0 <= off && 0 <= len && off + len <= b.Length
      modifies buffer
      ensures buffer.bytes == old(buffer.bytes) + b[off..off + len]
    {
      buffer.AppendBytesRange(b, off, len);
    }
  }

  /** `Buffer.toOutputStream()`: a new stream over this very buffer. */
  method ToOutputStream(buffer: Buffer) returns (stream: BufferOutputStream)
    ensures fresh(stream) && stream.buffer == buffer
  {
    stream := new BufferOutputStream(buffer);
  }

  /** Writes through the stream land in the original buffer: the earlier
      contents stay as they were and the length grows by what was written. */
  method WriteThrough(buffer: Buffer, b: int, more: array<Byte>)
    modifies buffer
    ensures buffer.bytes == old(buffer.bytes) + [ToByte(b)] + more[..]
    ensures |buffer.bytes| == |old(buffer.bytes)| + 1 + more.Length
    ensures buffer.bytes[..|old(buffer.bytes)|] == old(buffer.bytes)
  {
    var stream := ToOutputStream(buffer);
    stream.WriteByte(b);
    stream.Write(more);
  }
}
