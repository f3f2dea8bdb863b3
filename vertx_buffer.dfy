/** The part of Vert.x's growable byte `Buffer` that the stream adapters use:
    its contents and the operations that append to them. */
module VertxBuffer {

  /** An octet, as the bit pattern of a JVM `byte`. */
  newtype Byte = b: int | 0 <= b < 256

  /** Kotlin's `Int.toByte()`: the low eight bits, as a bit pattern. */
  function ToByte(b: int): Byte
  {
    (b % 256) as Byte
  }

  /** The value of a byte read as Kotlin's signed `Byte`. */
  function SignedValue(x: Byte): (v: int)
    ensures -128 <= v <= 127
  {
    if x < 128 then x as int else x as int - 256
  }

  /** Every `Byte` value survives `toByte`: converting a number in
      [-128, 127] and reading it back as signed gives the number. */
  lemma ToByteOfByteValue(v: int)
    requires -128 <= v <= 127
    ensures SignedValue(ToByte(v)) == v
  {
  }

  /** Only the low eight bits count: numbers that differ by a multiple of
      256 give the same byte. */
  lemma {:induction false} ToByteIgnoresHighBits(b: int, k: int)
    ensures ToByte(b + 256 * k) == ToByte(b)
  {
    var q := b / 256;
    var r := b % 256;
    assert b + 256 * k == 256 * (q + k) + r;
    assert (b + 256 * k) % 256 == r by {
      ModOfMultiplePlus(q + k, r);
    }
  }

  lemma ModOfMultiplePlus(q: int, r: int)
    requires 0 <= r < 256
    ensures (256 * q + r) % 256 == r
  {
  }

  /** A Vert.x `Buffer`: bytes that only ever grow at the end. */
  class Buffer {
    var bytes: seq<Byte>

    constructor ()
      ensures bytes == []
    {
      bytes := [];
    }

    /** `appendByte`. */
    method AppendByte(b: Byte)
      modifies this
      ensures bytes == old(bytes) + [b]
    {
      bytes := bytes + [b];
    }

    /** `appendBytes(ByteArray)`: all of the array, in order. */
    method AppendBytes(src: array<Byte>)
      modifies this
      ensures bytes == old(bytes) + src[..]
    {
      bytes := bytes + src[..];
    }

    /** `appendBytes(ByteArray, offset, len)`: the `len` bytes from `offset`. */
    method AppendBytesRange(src: array<Byte>, offset: int, len: int)
      requires 0 <= offset && 0 <= len && offset + len <= src.Length
      modifies this
      ensures bytes == old(bytes) + src[offset..offset + len]
    {
      bytes := bytes + src[offset..offset + len];
    }
  }
}
