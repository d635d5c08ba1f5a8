/** `readSplatFile` of the web viewer: the buffer fetched from the server is
    walked in 32-byte strides through a `DataView`, and each stride becomes
    one splat record. The fetch itself is not modelled: the decoder starts
    from the byte sequence the fetch delivered. */
module SplatReader {
  import opened SplatFormat

  /** Bytes per record: 3 + 3 float32 words, then 4 + 4 single bytes. */
  const SplatSize: nat := 32

  type Vec3 = s: seq<Float32> | |s| == 3 witness [Float32(0), Float32(0), Float32(0)]
  type Vec4 = s: seq<real> | |s| == 4 witness [0.0, 0.0, 0.0, 0.0]

  /** One decoded record, as the object `{ position, scale, color, rotation }`
      pushed by the decode loop. */
  datatype Splat = Splat(position: Vec3, scale: Vec3, color: Vec4, rotation: Vec4)

  /** The `RangeError` a `DataView` read raises when the bytes it asks for,
      starting at offset `at`, are not all inside the buffer. */
  datatype RangeError = RangeError(at: int)

  /** What a load does: either the callback is invoked with the splats, or
      the error reaches the `.catch` handler, which only logs it, so the
      callback never runs and no partial result escapes. */
  datatype Outcome = Delivered(splats: seq<Splat>) | Logged(error: RangeError)

  /** `dataView.getFloat32(at, true)`. */
  function GetFloat32(data: seq<byte>, at: nat): Result<Float32, RangeError>
  {
    if at + 4 <= |data| then Ok(Float32At(data, at)) else Err(RangeError(at))
  }

  /** `dataView.getUint8(at)`. */
  function GetUint8(data: seq<byte>, at: nat): Result<byte, RangeError>
  {
    if at < |data| then Ok(data[at]) else Err(RangeError(at))
  }

  /** A colour channel, `byte / 255`. The byte is recovered from the channel,
      and the channel lies in [0, 1]. */
  function ColorChannel(b: byte): (c: real)
    ensures 0.0 <= c <= 1.0
    ensures c * 255.0 == b as real
  {
    b as real / 255.0
  }

  /** A rotation component, `(byte - 128) / 128`, not renormalised. The byte
      is recovered from the component, and the component lies in
      [-1, 127/128]. */
  function RotationComponent(b: byte): (q: real)
    ensures -1.0 <= q <= 127.0 / 128.0
    ensures q * 128.0 + 128.0 == b as real
  {
    (b as real - 128.0) / 128.0
  }

  /** The offset of the first read of a record at `off` that falls outside a
      buffer of `len` bytes: the six float reads cover [off, off + 24) four
      bytes at a time, the eight byte reads cover [off + 24, off + 32). */
  function FirstBadRead(off: nat, len: nat): nat
  {
    if len <= off then off
    else if len < off + 24 then off + (len - off) / 4 * 4
    else len
  }

  /** One iteration of the decode loop: the record whose first byte is at
      `off`, read field by field in the order the source reads them. */
  function ReadRecord(data: seq<byte>, off: nat): (r: Result<Splat, RangeError>)
    ensures r.Ok? <==> off + SplatSize <= |data|
    ensures r.Err? ==> r.error == RangeError(FirstBadRead(off, |data|))
  {
    var x :- GetFloat32(data, off);
    var y :- GetFloat32(data, off + 4);
    var z :- GetFloat32(data, off + 8);
    var sx :- GetFloat32(data, off + 12);
    var sy :- GetFloat32(data, off + 16);
    var sz :- GetFloat32(data, off + 20);
    var r :- GetUint8(data, off + 24);
    var g :- GetUint8(data, off + 25);
    var b :- GetUint8(data, off + 26);
    var a :- GetUint8(data, off + 27);
    var qx :- GetUint8(data, off + 28);
    var qy :- GetUint8(data, off + 29);
    var qz :- GetUint8(data, off + 30);
    var qw :- GetUint8(data, off + 31);
    Ok(Splat([x, y, z], [sx, sy, sz],
             [ColorChannel(r), ColorChannel(g), ColorChannel(b), ColorChannel(a)],
             [RotationComponent(qx), RotationComponent(qy), RotationComponent(qz), RotationComponent(qw)]))
  }

  /** The reference meaning of a load: a buffer of a whole number of records
      delivers those records in file order; any other buffer fails at the
      first out-of-range read of its incomplete last record. */
  function Decode(data: seq<byte>): Outcome
  {
    var n := |data| / SplatSize;
    if |data| % SplatSize == 0 then
      Delivered(seq(n, i requires 0 <= i < n => ReadRecord(data, SplatSize * i).value))
    else
      Logged(RangeError(FirstBadRead(SplatSize * n, |data|)))
  }

  /** The decode loop of `readSplatFile`: `offset` advances by 32 while it is
      below the buffer length, and each record is pushed in turn. */
  method ReadSplatFile(data: seq<byte>) returns (outcome: Outcome)
    ensures outcome == Decode(data)
    ensures outcome.Delivered? <==> |data| % 32 == 0
    ensures outcome.Delivered? ==> |outcome.splats| == |data| / 32
    ensures outcome.Delivered? ==>
      forall i :: 0 <= i < |outcome.splats| ==> ReadRecord(data, 32 * i) == Ok(outcome.splats[i])
  {
    var splats: seq<Splat> := [];
    var offset: nat := 0;
    while offset < |data|
      invariant offset <= |data|
      invariant offset == 32 * |splats|
      invariant forall i :: 0 <= i < |splats| ==> ReadRecord(data, 32 * i) == Ok(splats[i])
    {
      var record := ReadRecord(data, offset);
      if record.Err? {
        assert |data| / 32 == |splats|;
        return Logged(record.error);
      }
      splats := splats + [record.value];
      offset := offset + SplatSize;
    }
    assert |data| / 32 == |splats|;
    return Delivered(splats);
  }

  /** Where each field of a complete record comes from. */
  lemma RecordLayout(data: seq<byte>, off: nat)
    requires off + 32 <= |data|
    ensures ReadRecord(data, off).Ok?
    ensures forall k :: 0 <= k < 3 ==> ReadRecord(data, off).value.position[k] == Float32At(data, off + 4 * k)
    ensures forall k :: 0 <= k < 3 ==> ReadRecord(data, off).value.scale[k] == Float32At(data, off + 12 + 4 * k)
    ensures forall k :: 0 <= k < 4 ==> ReadRecord(data, off).value.color[k] == ColorChannel(data[off + 24 + k])
    ensures forall k :: 0 <= k < 4 ==> ReadRecord(data, off).value.rotation[k] == RotationComponent(data[off + 28 + k])
  {
  }

  /** A record is read only from its own 32 bytes. */
  lemma RecordIsLocal(data: seq<byte>, off: nat)
    requires off + 32 <= |data|
    ensures ReadRecord(data, off) == ReadRecord(data[off..off + 32], 0)
  {
    RecordLayout(data, off);
    RecordLayout(data[off..off + 32], 0);
  }

  /** An empty buffer is not an error: the callback receives no splats. */
  lemma EmptyBufferDeliversNothing()
    ensures Decode([]) == Delivered([])
  {
  }

  /** Records never overlap: after a whole number of records, the rest of the
      buffer decodes on its own, and the records follow in file order. */
  lemma {:induction false} DecodeConcat(a: seq<byte>, b: seq<byte>)
    requires |a| % 32 == 0
    ensures Decode(a + b).Delivered? <==> Decode(b).Delivered?
    ensures Decode(b).Delivered? ==> Decode(a + b).splats == Decode(a).splats + Decode(b).splats
  {
    var ab := a + b;
    assert |ab| % 32 == |b| % 32;
    if |b| % 32 == 0 {
      var na := |a| / 32;
      var sa, sb, sab := Decode(a).splats, Decode(b).splats, Decode(ab).splats;
      assert |sab| == |sa| + |sb|;
      forall i | 0 <= i < |sab|
        ensures sab[i] == (sa + sb)[i]
      {
        if i < na {
          assert ab[32 * i..32 * i + 32] == a[32 * i..32 * i + 32];
          RecordIsLocal(ab, 32 * i);
          RecordIsLocal(a, 32 * i);
        } else {
          var j := i - na;
          assert ab[32 * i..32 * i + 32] == b[32 * j..32 * j + 32];
          RecordIsLocal(ab, 32 * i);
          RecordIsLocal(b, 32 * j);
        }
      }
    }
  }

  // The encoder: the inverse of the decoder, used to show it is lossless.

  /** The byte a colour channel is decoded from (clamped to a byte). */
  function ColorByte(c: real): byte
  {
    var k := (c * 255.0).Floor;
    if k < 0 then 0 else if k > 255 then 255 else k
  }

  /** The byte a rotation component is decoded from (clamped to a byte). */
  function RotationByte(q: real): byte
  {
    var k := (q * 128.0 + 128.0).Floor;
    if k < 0 then 0 else if k > 255 then 255 else k
  }

  /** A value some byte decodes to. */
  predicate IsColorLevel(c: real)
  {
    0.0 <= c <= 1.0 && (c * 255.0).Floor as real == c * 255.0
  }

  predicate IsRotationLevel(q: real)
  {
    -1.0 <= q <= 127.0 / 128.0 && (q * 128.0).Floor as real == q * 128.0
  }

  /** A splat that some 32-byte record decodes to. */
  predicate Encodable(s: Splat)
  {
    (forall k :: 0 <= k < 4 ==> IsColorLevel(s.color[k])) &&
    (forall k :: 0 <= k < 4 ==> IsRotationLevel(s.rotation[k]))
  }

  /** The 32 bytes of one record. */
  function EncodeSplat(s: Splat): (bs: seq<byte>)
    ensures |bs| == 32
  {
    F32Bytes(s.position[0]) + F32Bytes(s.position[1]) + F32Bytes(s.position[2]) +
    F32Bytes(s.scale[0]) + F32Bytes(s.scale[1]) + F32Bytes(s.scale[2]) +
    [ColorByte(s.color[0]), ColorByte(s.color[1]), ColorByte(s.color[2]), ColorByte(s.color[3])] +
    [RotationByte(s.rotation[0]), RotationByte(s.rotation[1]), RotationByte(s.rotation[2]), RotationByte(s.rotation[3])]
  }

  /** A `.splat` buffer holding `splats` in order. */
  function EncodeFile(splats: seq<Splat>): (bs: seq<byte>)
  {
    if splats == [] then [] else EncodeSplat(splats[0]) + EncodeFile(splats[1..])
  }

  lemma {:induction false} EncodeFileLength(splats: seq<Splat>)
    ensures |EncodeFile(splats)| == 32 * |splats|
  {
    if splats != [] {
      EncodeFileLength(splats[1..]);
    }
  }

  lemma ColorByteInverse(b: byte)
    ensures ColorByte(ColorChannel(b)) == b
    ensures IsColorLevel(ColorChannel(b))
  {
  }

  lemma ColorLevelInverse(c: real)
    requires IsColorLevel(c)
    ensures ColorChannel(ColorByte(c)) == c
  {
  }

  lemma RotationByteInverse(b: byte)
    ensures RotationByte(RotationComponent(b)) == b
    ensures IsRotationLevel(RotationComponent(b))
  {
  }

  lemma RotationLevelInverse(q: real)
    requires IsRotationLevel(q)
    ensures RotationComponent(RotationByte(q)) == q
  {
  }

  /** Encoding a record and reading it back yields the same splat. */
  lemma {:induction false} ReadEncodedRecord(s: Splat)
    requires Encodable(s)
    ensures ReadRecord(EncodeSplat(s), 0) == Ok(s)
  {
    var bs := EncodeSplat(s);
    RecordLayout(bs, 0);
    var t := ReadRecord(bs, 0).value;
    forall k | 0 <= k < 3
      ensures t.position[k] == s.position[k] && t.scale[k] == s.scale[k]
    {
      assert bs[4 * k..4 * k + 4] == F32Bytes(s.position[k]);
      assert bs[12 + 4 * k..12 + 4 * k + 4] == F32Bytes(s.scale[k]);
      F32BytesRoundTrip(s.position[k]);
      F32BytesRoundTrip(s.scale[k]);
    }
    forall k | 0 <= k < 4
      ensures t.color[k] == s.color[k] && t.rotation[k] == s.rotation[k]
    {
      ColorLevelInverse(s.color[k]);
      RotationLevelInverse(s.rotation[k]);
    }
    assert t.position == s.position && t.scale == s.scale;
    assert t.color == s.color && t.rotation == s.rotation;
  }

  /** Reading a record and encoding it again yields the same 32 bytes. */
  lemma {:induction false} EncodeReadRecord(data: seq<byte>)
    requires |data| == 32
    ensures EncodeSplat(ReadRecord(data, 0).value) == data
  {
    var s := ReadRecord(data, 0).value;
    FloatBytesOfRecord(data, s);
    ByteFieldsOfRecord(data, s);
    assert data == data[0..4] + data[4..8] + data[8..12] + data[12..16] + data[16..20] + data[20..24] +
                   data[24..28] + data[28..32];
  }

  lemma FloatBytesOfRecord(data: seq<byte>, s: Splat)
    requires |data| == 32 && ReadRecord(data, 0) == Ok(s)
    ensures F32Bytes(s.position[0]) == data[0..4]
    ensures F32Bytes(s.position[1]) == data[4..8]
    ensures F32Bytes(s.position[2]) == data[8..12]
    ensures F32Bytes(s.scale[0]) == data[12..16]
    ensures F32Bytes(s.scale[1]) == data[16..20]
    ensures F32Bytes(s.scale[2]) == data[20..24]
  {
    RecordLayout(data, 0);
    forall k | 0 <= k < 6
      ensures F32Bytes(Float32At(data, 4 * k)) == data[4 * k..4 * k + 4]
    {
      F32LERoundTrip(data[4 * k], data[4 * k + 1], data[4 * k + 2], data[4 * k + 3]);
    }
    assert s.position[1] == Float32At(data, 4 * 1);
    assert s.position[2] == Float32At(data, 4 * 2);
    assert s.scale[0] == Float32At(data, 4 * 3);
    assert s.scale[1] == Float32At(data, 4 * 4);
    assert s.scale[2] == Float32At(data, 4 * 5);
  }

  lemma ByteFieldsOfRecord(data: seq<byte>, s: Splat)
    requires |data| == 32 && ReadRecord(data, 0) == Ok(s)
    ensures [ColorByte(s.color[0]), ColorByte(s.color[1]), ColorByte(s.color[2]), ColorByte(s.color[3])] == data[24..28]
    ensures [RotationByte(s.rotation[0]), RotationByte(s.rotation[1]), RotationByte(s.rotation[2]), RotationByte(s.rotation[3])] == data[28..32]
  {
    RecordLayout(data, 0);
    forall k | 0 <= k < 4
      ensures ColorByte(s.color[k]) == data[24 + k] && RotationByte(s.rotation[k]) == data[28 + k]
    {
      ColorByteInverse(data[24 + k]);
      RotationByteInverse(data[28 + k]);
    }
  }

  /** Decoding is lossless: a delivered result re-encodes to the buffer. */
  lemma {:induction false} DecodeIsLossless(data: seq<byte>)
    requires Decode(data).Delivered?
    ensures EncodeFile(Decode(data).splats) == data
    decreases |data|
  {
    if data != [] {
      var head, tail := data[..32], data[32..];
      assert data == head + tail;
      DecodeConcat(head, tail);
      DecodeIsLossless(tail);
      EncodeReadRecord(head);
      assert Decode(head).splats == [ReadRecord(head, 0).value];
    }
  }

  /** Every sequence of encodable splats survives encoding then decoding. */
  lemma {:induction false} DecodeEncode(splats: seq<Splat>)
    requires forall s <- splats :: Encodable(s)
    ensures Decode(EncodeFile(splats)) == Delivered(splats)
  {
    if splats != [] {
      var head := EncodeSplat(splats[0]);
      var tail := EncodeFile(splats[1..]);
      EncodeFileLength(splats[1..]);
      DecodeConcat(head, tail);
      DecodeEncode(splats[1..]);
      ReadEncodedRecord(splats[0]);
      assert Decode(head).splats == [splats[0]];
    }
  }
}
