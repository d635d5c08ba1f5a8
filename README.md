# Gaussian-splat viewer: decoder and point renderer

This project models the core of a small WebGL viewer for Gaussian-splat
point clouds, and proves properties of the model.

- **The `.splat` decoder.** A file is a run of 32-byte records. Bytes 0–11
  hold the position (three little-endian float32 values). Bytes 12–23 hold
  the scale (three more). Bytes 24–27 hold the colour (four bytes, each
  divided by 255). Bytes 28–31 hold the rotation (four bytes, each mapped
  by `(b - 128) / 128`). Two copies of the decoder are modelled:
  - `readSplatFile` of the web viewer (module `SplatReader`);
  - `read_splat_file` of the Python helper (module `Visualize`).
  Module `ReaderAgreement` proves how the two relate.
- **The point renderer** of `initWebGL` (module `Renderer`). It flattens
  the splats into a position array and a colour array, with alpha forced
  to 1.0. It draws one point per splat, sized by the vertex shader's
  inverse-depth rule. A slider changes only the scaling factor and redraws.

Module `SplatFormat` holds the shared vocabulary: bytes, float32 values
and a result type. A float32 is modelled by its 32-bit pattern, which
`F32LE` assembles from four bytes, least significant first. Its numeric
value is not modelled.

Each loop of the source is a method proved against a closed-form
specification:
- `SplatReader.ReadSplatFile` against `SplatReader.Decode`;
- `Visualize.ReadSplatFile` against `Visualize.PyDecode`;
- `Renderer.FlattenSplats` against `IsPositionArray` and `IsColorArray`.

The lemmas state the properties of those specifications. The decoder's
partner is an encoder, and decoding is proved lossless in both directions.

**A trailing partial record is not skipped.** The JavaScript loop runs
while `offset < byteLength`, so it reads past the end. The `DataView` read
throws a `RangeError`, and the `.catch` only logs it. The callback is never
called. The Python copy likewise raises `struct.error` on a short last
chunk. A buffer whose length is not a multiple of 32 yields no splats at
all.

**The two decoders differ.** The Python copy keeps colours as raw integers
0–255. It also unpacks the rotation bytes as signed (`4b`), so its
`(c - 128) / 128` lies in [-2, -1/128]. The JavaScript components lie in
[-1, 127/128]. `ReaderAgreement.ReadersAgree` proves the exact relation.
The two agree for bytes below 128. For other bytes, the Python value is
exactly 2 lower.

## Model

| member | source | states |
|---|---|---|
| `SplatFormat.F32LERoundTrip` | js/SplatReader.js:10-20 | a little-endian float32 read loses nothing: writing the value back yields the same four bytes |
| `SplatFormat.F32BytesRoundTrip` | js/SplatReader.js:10-20 | every float32 is read back from the four bytes that store it |
| `SplatReader.ColorChannel` | js/SplatReader.js:22-27 | a colour channel `b / 255` lies in [0, 1], and 255 times it is the byte |
| `SplatReader.RotationComponent` | js/SplatReader.js:29-34 | a rotation component `(b - 128) / 128` lies in [-1, 127/128] and determines its byte; it is not renormalised |
| `SplatReader.ReadRecord` | js/SplatReader.js:10-34 | a record read at `off` succeeds exactly when all 32 bytes lie in the buffer; otherwise it fails with the `RangeError` of the first `getFloat32`/`getUint8` call that reads out of range |
| `SplatReader.ReadSplatFile` | js/SplatReader.js:5-39 | the decode loop yields the reference outcome: the callback gets `length / 32` records exactly when the length is a multiple of 32, and record i is read at offset 32·i; any other length is only logged, and no partial result escapes |
| `SplatReader.RecordLayout` | js/SplatReader.js:10-34 | position k is the float32 at off+4k, scale k the float32 at off+12+4k, colour k is `byte(off+24+k) / 255`, rotation k is `(byte(off+28+k) - 128) / 128` |
| `SplatReader.RecordIsLocal` | js/SplatReader.js:7-9 | a record is decoded only from its own bytes [off, off+32) |
| `SplatReader.EmptyBufferDeliversNothing` | js/SplatReader.js:9-39 | an empty buffer is not an error: the callback is invoked with no splats |
| `SplatReader.DecodeConcat` | js/SplatReader.js:9-36 | records never overlap: after a whole number of records the rest decodes on its own, and the records follow in file order |
| `SplatReader.ColorByteInverse` | js/SplatReader.js:22-27 | the colour map is injective on bytes: the encoder recovers every byte from its channel |
| `SplatReader.ColorLevelInverse` | js/SplatReader.js:22-27 | every value of the form k/255 in [0, 1] is a channel some byte decodes to |
| `SplatReader.RotationByteInverse` | js/SplatReader.js:29-34 | the rotation map is injective on bytes: the encoder recovers every byte from its component |
| `SplatReader.RotationLevelInverse` | js/SplatReader.js:29-34 | every value of the form k/128 in [-1, 127/128] is a component some byte decodes to |
| `SplatReader.EncodeFileLength` | js/SplatReader.js:7-9 | the encoder writes 32 bytes per splat |
| `SplatReader.ReadEncodedRecord` | js/SplatReader.js:10-36 | encoding a splat whose colour and rotation values are byte levels, then reading it back, yields the same splat |
| `SplatReader.EncodeReadRecord` | js/SplatReader.js:10-36 | reading a 32-byte record, then encoding it, yields the same 32 bytes |
| `SplatReader.DecodeIsLossless` | js/SplatReader.js:9-39 | a delivered decode re-encodes to exactly the input buffer |
| `SplatReader.DecodeEncode` | js/SplatReader.js:9-39 | every sequence of encodable splats survives encoding and decoding unchanged, in order |
| `Visualize.Read` | visualize.py:14 | `file.read(32)` yields at most 32 bytes from the current position, fewer only at the end of the file, and none exactly at the end |
| `Visualize.Int8` | visualize.py:15 | the `b` format reads a byte as the signed value in -128..127 congruent to it modulo 256 |
| `Visualize.Unpack` | visualize.py:15 | `struct.unpack('3f3f4B4b')` succeeds exactly on 32 bytes and otherwise raises `struct.error`; on success it yields 14 values: six floats from bytes 0–23, four unsigned bytes 24–27, four signed bytes 28–31 |
| `Visualize.RotationMap` | visualize.py:22 | the comprehension keeps the length, and each value v satisfies v·128 + 128 = c |
| `Visualize.ReadSplatFile` | visualize.py:10-31 | the read loop yields the reference outcome: one dictionary per 32-byte chunk, in file order, exactly when the length is a multiple of 32; otherwise `struct.error` for the short last chunk, and no list is returned |
| `Visualize.EmptyFileReturnsNothing` | visualize.py:14-31 | an empty file yields an empty list |
| `Visualize.ChunkFields` | visualize.py:15-29 | position = first three values, scale = next three, colour = raw bytes in 0..255 (not divided by 255), rotation = `(signed byte - 128) / 128`, in [-2, -1/128] |
| `ReaderAgreement.RecordsCorrespond` | visualize.py:15-22 | one record read by both decoders: equal floats, Python colour = 255 × JavaScript channel, Python rotation = JavaScript rotation for bytes below 128 and 2 less otherwise |
| `ReaderAgreement.ReadersAgree` | visualize.py:10-31 | both decoders succeed on exactly the same files, and then yield the same number of records, in the same order, pairwise corresponding |
| `Renderer.FlattenSplats` | js/main.js:40-43 | `positions` has 3n entries and holds splat i's position at 3i..3i+3; `colors` has 4n entries, holds splat i's red, green and blue at 4i..4i+3 and 1.0 at 4i+3; empty for no splats |
| `Renderer.DrawCount` | js/main.js:100 | `positions.length / 3` is a whole number when the length is a multiple of three |
| `Renderer.DrawCountIsSplatCount` | js/main.js:100 | the number of points drawn is the number of splats (0 for none) |
| `Renderer.PointSize` | js/main.js:126-127 | the point size times the distance `-z` is the scaling factor when the distance is non-zero, and the size is exactly 1.0 at distance zero |
| `Renderer.PointSizeScalesWithFactor` | js/main.js:126-127 | scaling the factor by c scales every point size off the camera plane by c and leaves size 1.0 at distance zero |
| `Renderer.SplatScene.constructor` | js/main.js:24-72 | `initWebGL` builds both arrays from the splats and starts the scaling factor at 1.0 |
| `Renderer.SplatScene.Render` | js/main.js:74-101 | point i drawn is splat i: its position, its colour with alpha 1.0, and the inverse-depth size for the current scaling factor |
| `Renderer.SplatScene.OnSliderInput` | js/main.js:106-109 | the slider sets only the scaling factor; the arrays are not rebuilt, and the redraw keeps every point's position and colour and changes only its size |

## Left out

- The `fetch`/Promise plumbing and console logging of `readSplatFile` (js/SplatReader.js:2-4, 41) are asynchronous I/O. The decoder starts from the fetched bytes, and the `Logged` outcome stands for the `.catch` handler.
- The numeric value of a float32 (IEEE-754 decoding) is floating point and is not modelled: a float32 is its bit pattern.
- `SplatReader.DecodeIsLossless`, `SplatReader.EncodeReadRecord` and `SplatFormat.F32LERoundTrip` hold of bit patterns. A JavaScript Number collapses every NaN bit pattern into the one NaN value that `getFloat32` returns, so for NaN patterns these round trips do not hold of the Numbers the decoder yields.
- `SplatReader.ColorChannel`: the channel is the exact rational b/255. JavaScript stores the nearest double, and `new Float32Array(colors)` (js/main.js:52) rounds it again to float32.
- `Renderer.PointSize`: computed over the reals, not in GLSL `float` precision. The size a GPU uses for a negative result (a point behind the camera) is not modelled.
- WebGL itself is graphics-device plumbing and is not modelled: buffer creation and upload, `initShaderProgram` (which is not part of this model), attribute and uniform binding, `gl.drawArrays` and `resizeCanvasToDisplaySize`. `Renderer.DrawPoints` stands for what the draw call feeds the vertex shader.
- `mat4.perspective` and `mat4.translate` (js/main.js:66-70) come from a foreign matrix library and use float math. The view-space z of each point is an input to the renderer.
- The fragment shader (js/main.js:134-143) only passes the colour through.
- `Renderer.SplatScene.OnSliderInput`: the slider's value is given as a real. `parseFloat` of the input string, and a NaN it may return, are not modelled.
- `Renderer.SplatScene.constructor`: the first `render()` call inside `initWebGL` (js/main.js:103) is not a separate step. It is `Render` applied to the new state.
- Opening the file and the plotly visualisation in the Python helper (visualize.py:13, 33-63) are I/O and UI.
- The native byte order and alignment of Python's `struct` (visualize.py:15) depend on the platform. The model assumes little-endian and no padding, so the format is 32 bytes in the field order above.
- Depth sorting, quad or billboard expansion, premultiplied colours, index buffers, blending state and a Gaussian fragment falloff do not occur in the code and are not modelled.
