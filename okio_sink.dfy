/** `VertxBufferSink`: an Okio `Sink` that moves the bytes written to it from
    an Okio buffer to the end of a Vert.x buffer. */
module OkioSink {
  import opened VertxBuffer

  /** The part of Okio's `Buffer` the sink uses: a queue of bytes read from
      the front. */
  class OkioBuffer {
    var bytes: seq<Byte>

    constructor (bytes: seq<Byte>)
      ensures this.bytes == bytes
    {
      this.bytes := bytes;
    }

    /** `readByteArray(byteCount)`: removes the first `byteCount` bytes and
        returns them in a new array. */
    method ReadByteArray(byteCount: int) returns (a: array<Byte>)
      requires 0 <= byteCount <= |bytes|
      modifies this
      ensures fresh(a)
      ensures a[..] == old(bytes)[..byteCount]
      ensures bytes == old(bytes)[byteCount..]
    {
      var front := bytes[..byteCount];
      a := new Byte[byteCount](i requires 0 <= i < |front| => front[i]);
      bytes := bytes[byteCount..];
    }
  }

  class VertxBufferSink {
    /** The buffer the sink appends to. */
    const vertxBuffer: Buffer

    constructor (vertxBuffer: Buffer)
      ensures this.vertxBuffer == vertxBuffer
    {
      this.vertxBuffer := vertxBuffer;
    }

    /** `write(source, byteCount)`: the first `byteCount` bytes of `source`
        move to the end of the Vert.x buffer; no byte is lost or duplicated. */
    method Write(source: OkioBuffer, byteCount: int)
      requires 0 <= byteCount <= |source.bytes|
      modifies source, vertxBuffer
      ensures vertxBuffer.bytes == old(vertxBuffer.bytes) + old(source.bytes)[..byteCount]
      ensures source.bytes == old(source.bytes)[byteCount..]
      ensures vertxBuffer.bytes + source.bytes == old(vertxBuffer.bytes) + old(source.bytes)
    {
      var moved := source.ReadByteArray(byteCount);
      vertxBuffer.AppendBytes(moved);
      assert old(source.bytes) == old(source.bytes)[..byteCount] + old(source.bytes)[byteCount..];
    }

    /** `flush`: nothing to do. */
    method Flush()
      ensures unchanged(vertxBuffer)
    {
    }

    /** `close`: nothing to do; the buffer keeps its contents and further
        writes still append. */
    method Close()
      ensures unchanged(vertxBuffer)
    {
    }
  }

  /** `VertxBuffer.toSink()`: a new sink over this very buffer. */
  method ToSink(buffer: Buffer) returns (sink: VertxBufferSink)
    ensures fresh(sink) && sink.vertxBuffer == buffer
  {
    sink := new VertxBufferSink(buffer);
  }

  /** Draining a whole source through a sink leaves the source empty and
      its bytes, in order, at the end of the original buffer. */
  method Drain(buffer: Buffer, source: OkioBuffer)
    modifies buffer, source
    ensures buffer.bytes == old(buffer.bytes) + old(source.bytes)
    ensures source.bytes == []
  {
    var sink := ToSink(buffer);
    sink.Write(source, |source.bytes|);
    sink.Flush();
    sink.Close();
  }
}
