/** The byte-level vocabulary of the `.splat` format: octets, little-endian
    float32 words, and a failure-compatible result type. */
module SplatFormat {

  /** One octet of a `.splat` buffer. */
  type byte = b: int | 0 <= b < 256

  /** A 32-bit word. */
  type Word32 = w: int | 0 <= w < 0x1_0000_0000

  /** An IEEE-754 single-precision value, identified by its bit pattern.
      Its numeric value is not modelled: every property stated here is about
      which bytes a value is read from. */
  datatype Float32 = Float32(bits: Word32)

  /** The float32 whose bit pattern is the little-endian word b0 b1 b2 b3
      (b0 least significant), as `DataView.getFloat32(at, true)` reads it. */
  function F32LE(b0: byte, b1: byte, b2: byte, b3: byte): Float32
  {
    Float32(b0 + 0x100 * (b1 + 0x100 * (b2 + 0x100 * b3)))
  }

  /** The float32 stored at bytes [at, at + 4) of `data`. */
  function Float32At(data: seq<byte>, at: nat): Float32
    requires at + 4 <= |data|
  {
    F32LE(data[at], data[at + 1], data[at + 2], data[at + 3])
  }

  /** The four bytes that store `f`, least significant first. */
  function F32Bytes(f: Float32): (bs: seq<byte>)
    ensures |bs| == 4
  {
    [f.bits % 0x100, f.bits / 0x100 % 0x100, f.bits / 0x1_0000 % 0x100, f.bits / 0x100_0000]
  }

  lemma SplitByte(lo: int, hi: int)
    requires 0 <= lo < 0x100
    ensures (lo + 0x100 * hi) % 0x100 == lo
    ensures (lo + 0x100 * hi) / 0x100 == hi
  {
  }

  /** Reading four bytes as a little-endian float32 loses nothing: writing
      the value back yields the same four bytes. */
  lemma {:induction false} F32LERoundTrip(b0: byte, b1: byte, b2: byte, b3: byte)
    ensures F32Bytes(F32LE(b0, b1, b2, b3)) == [b0, b1, b2, b3]
  {
    var w := F32LE(b0, b1, b2, b3).bits;
    var hi2 := b2 + 0x100 * b3;
    var hi1 := b1 + 0x100 * hi2;
    SplitByte(b0, hi1);
    SplitByte(b1, hi2);
    SplitByte(b2, b3);
    assert w / 0x100 == hi1;
    assert w / 0x1_0000 == w / 0x100 / 0x100;
    assert w / 0x1_0000 == hi2;
    assert w / 0x100_0000 == w / 0x1_0000 / 0x100;
    assert w / 0x100_0000 == b3;
  }

  /** Every float32 is read back from the bytes that store it. */
  lemma {:induction false} F32BytesRoundTrip(f: Float32)
    ensures var bs := F32Bytes(f); F32LE(bs[0], bs[1], bs[2], bs[3]) == f
  {
    var w := f.bits;
    assert w == w % 0x100 + 0x100 * (w / 0x100);
    var w1 := w / 0x100;
    assert w1 == w1 % 0x100 + 0x100 * (w1 / 0x100);
    var w2 := w1 / 0x100;
    assert w2 == w2 % 0x100 + 0x100 * (w2 / 0x100);
    assert w2 == w / 0x1_0000;
    assert w2 / 0x100 == w / 0x100_0000;
  }

  /** The outcome of an operation that can raise an error of type E. */
  datatype Result<+T, +E> = Ok(value: T) | Err(error: E) {
    predicate IsFailure() {
      Err?
    }

    function PropagateFailure<U>(): Result<U, E>
      requires Err?
    {
      Err(error)
    }

    function Extract(): T
      requires Ok?
    {
      value
    }
  }
}
