/** `read_splat_file` of the Python visualisation helper: the file is read
    32 bytes at a time and each chunk is unpacked with the `struct` format
    `'3f3f4B4b'`. Opening the file is not modelled: the reader works on the
    file's bytes, and `file.read(n)` is a slice of them from the current
    position. The native layout of `struct` is taken to be little-endian with
    no padding, so the format occupies exactly 32 bytes. */
module Visualize {
  import opened SplatFormat

  /** Bytes per chunk: the argument of `file.read` and the size of the
      `struct` format. */
  const ChunkSize: nat := 32

  /** A value `struct.unpack` yields: a Python float read from a float32, or
      a Python int read from a single byte. */
  datatype PyValue = PyFloat(f: Float32) | PyInt(i: int)

  /** `struct.error`: the buffer handed to `unpack` has `size` bytes instead
      of the 32 the format needs. */
  datatype StructError = StructError(size: nat)

  /** The dictionary appended per chunk. `position`, `scale` and `color` are
      slices of the unpacked tuple; `rotation` is the mapped list. */
  datatype PySplat = PySplat(position: seq<PyValue>, scale: seq<PyValue>, color: seq<PyValue>, rotation: seq<real>)

  /** What a call does: the list is returned, or `struct.error` propagates
      out of the call and nothing is returned. */
  datatype PyOutcome = Returned(splats: seq<PySplat>) | Raised(error: StructError)

  /** `file.read(size)` with the file positioned at `pos`: at most `size`
      bytes, fewer at the end of the file, none once the end is reached. */
  function Read(file: seq<byte>, pos: nat, size: nat): (chunk: seq<byte>)
    requires pos <= |file|
    ensures |chunk| <= size
    ensures chunk == [] <==> size == 0 || pos == |file|
    ensures pos + |chunk| <= |file| && chunk == file[pos..pos + |chunk|]
    ensures |chunk| < size ==> pos + |chunk| == |file|
  {
    if pos + size <= |file| then file[pos..pos + size] else file[pos..]
  }

  /** The `b` format: the byte read as a two's-complement signed value. */
  function Int8(b: byte): (v: int)
    ensures -128 <= v < 128
    ensures v % 256 == b
  {
    if b < 128 then b else b - 256
  }

  /** `struct.unpack('3f3f4B4b', chunk)`: six floats, four unsigned bytes and
      four signed bytes, or `struct.error` for a chunk of any other size. */
  function Unpack(chunk: seq<byte>): (r: Result<seq<PyValue>, StructError>)
    ensures r.Ok? <==> |chunk| == ChunkSize
    ensures r.Err? ==> r.error == StructError(|chunk|)
    ensures r.Ok? ==> |r.value| == 14
    ensures r.Ok? ==> forall k :: 0 <= k < 6 ==> r.value[k] == PyFloat(Float32At(chunk, 4 * k))
    ensures r.Ok? ==> forall k :: 6 <= k < 10 ==> r.value[k] == PyInt(chunk[18 + k])
    ensures r.Ok? ==> forall k :: 10 <= k < 14 ==> r.value[k] == PyInt(Int8(chunk[18 + k]))
  {
    if |chunk| != ChunkSize then
      Err(StructError(|chunk|))
    else
      Ok([PyFloat(Float32At(chunk, 0)), PyFloat(Float32At(chunk, 4)), PyFloat(Float32At(chunk, 8)),
          PyFloat(Float32At(chunk, 12)), PyFloat(Float32At(chunk, 16)), PyFloat(Float32At(chunk, 20)),
          PyInt(chunk[24]), PyInt(chunk[25]), PyInt(chunk[26]), PyInt(chunk[27]),
          PyInt(Int8(chunk[28])), PyInt(Int8(chunk[29])), PyInt(Int8(chunk[30])), PyInt(Int8(chunk[31]))])
  }

  /** `[(c - 128) / 128.0 for c in values]`. */
  function RotationMap(values: seq<PyValue>): (r: seq<real>)
    requires forall v <- values :: v.PyInt?
    ensures |r| == |values|
    ensures forall k :: 0 <= k < |values| ==> r[k] * 128.0 + 128.0 == values[k].i as real
  {
    seq(|values|, k requires 0 <= k < |values| => (values[k].i as real - 128.0) / 128.0)
  }

  /** The dictionary built from one unpacked tuple. */
  function ToSplat(data: seq<PyValue>): PySplat
    requires |data| == 14
    requires forall k :: 10 <= k < 14 ==> data[k].PyInt?
  {
    PySplat(data[..3], data[3..6], data[6..10], RotationMap(data[10..]))
  }

  /** The dictionary for a complete 32-byte chunk. */
  function ChunkSplat(chunk: seq<byte>): PySplat
    requires |chunk| == ChunkSize
  {
    ToSplat(Unpack(chunk).value)
  }

  /** The reference meaning of a call: a file of whole chunks yields one
      dictionary per chunk, in file order; otherwise the short last chunk
      raises `struct.error`. */
  function PyDecode(file: seq<byte>): PyOutcome
  {
    var n := |file| / ChunkSize;
    if |file| % ChunkSize == 0 then
      Returned(seq(n, i requires 0 <= i < n => ChunkSplat(file[ChunkSize * i..ChunkSize * i + ChunkSize])))
    else
      Raised(StructError(|file| % ChunkSize))
  }

  /** The `while chunk := file.read(32)` loop of `read_splat_file`. */
  method ReadSplatFile(file: seq<byte>) returns (outcome: PyOutcome)
    ensures outcome == PyDecode(file)
    ensures outcome.Returned? <==> |file| % 32 == 0
    ensures outcome.Returned? ==> |outcome.splats| == |file| / 32
    ensures outcome.Raised? ==> outcome.error == StructError(|file| % 32)
  {
    var splats: seq<PySplat> := [];
    var pos: nat := 0;
    var chunk := Read(file, pos, ChunkSize);
    pos := pos + |chunk|;
    while chunk != []
      invariant pos <= |file|
      invariant pos == 32 * |splats| + |chunk|
      invariant chunk == file[32 * |splats|..pos]
      invariant |chunk| < 32 ==> pos == |file|
      invariant |chunk| <= 32
      invariant chunk == [] ==> pos == |file|
      invariant forall i :: 0 <= i < |splats| ==> splats[i] == ChunkSplat(file[32 * i..32 * i + 32])
      decreases |file| - 32 * |splats|
    {
      var data := Unpack(chunk);
      if data.Err? {
        assert |file| / 32 == |splats|;
        return Raised(data.error);
      }
      splats := splats + [ToSplat(data.value)];
      chunk := Read(file, pos, ChunkSize);
      pos := pos + |chunk|;
    }
    assert |file| / 32 == |splats|;
    return Returned(splats);
  }

  /** An empty file yields an empty list. */
  lemma EmptyFileReturnsNothing()
    ensures PyDecode([]) == Returned([])
  {
  }

  /** The fields of the dictionary built from one chunk: the first three and
      next three floats, the four colour bytes kept as raw integers in
      0..255, and four rotation values from the signed bytes, which all lie
      in [-2, -1/128]. */
  lemma ChunkFields(chunk: seq<byte>)
    requires |chunk| == ChunkSize
    ensures var s := ChunkSplat(chunk);
      && |s.position| == 3 && |s.scale| == 3 && |s.color| == 4 && |s.rotation| == 4
      && (forall k :: 0 <= k < 3 ==> s.position[k] == PyFloat(Float32At(chunk, 4 * k)))
      && (forall k :: 0 <= k < 3 ==> s.scale[k] == PyFloat(Float32At(chunk, 12 + 4 * k)))
      && (forall k :: 0 <= k < 4 ==> s.color[k] == PyInt(chunk[24 + k]) && 0 <= s.color[k].i <= 255)
      && (forall k :: 0 <= k < 4 ==> s.rotation[k] == (Int8(chunk[28 + k]) as real - 128.0) / 128.0)
      && (forall k :: 0 <= k < 4 ==> -2.0 <= s.rotation[k] <= -1.0 / 128.0)
  {
    var s := ChunkSplat(chunk);
    var data := Unpack(chunk).value;
    forall k | 0 <= k < 3
      ensures s.position[k] == PyFloat(Float32At(chunk, 4 * k))
      ensures s.scale[k] == PyFloat(Float32At(chunk, 12 + 4 * k))
    {
      assert s.position[k] == data[k];
      assert s.scale[k] == data[3 + k];
    }
    forall k | 0 <= k < 4
      ensures s.color[k] == PyInt(chunk[24 + k])
      ensures s.rotation[k] == (Int8(chunk[28 + k]) as real - 128.0) / 128.0
    {
      assert s.color[k] == data[6 + k];
      assert data[10 + k] == PyInt(Int8(chunk[28 + k]));
    }
  }
}
