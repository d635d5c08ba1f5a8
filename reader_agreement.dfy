/** How the two copies of the record decoder relate: the web viewer's
    `readSplatFile` and the Python helper's `read_splat_file` accept exactly
    the same files and read the same bytes for every field, but the Python
    copy keeps colours as raw bytes and reads the rotation bytes as signed. */
module ReaderAgreement {
  import opened SplatFormat
  import SplatReader
  import Visualize

  /** The Python dictionary `p` and the JavaScript record `j` come from the
      same 32 bytes: equal float32 fields, colour bytes equal to 255 times
      the JavaScript channels, and rotation values equal to the JavaScript
      ones for bytes below 128 and exactly 2 lower for the others (exactly
      the JavaScript components that are not negative). */
  ghost predicate Corresponds(j: SplatReader.Splat, p: Visualize.PySplat)
  {
    && |p.position| == 3 && |p.scale| == 3 && |p.color| == 4 && |p.rotation| == 4
    && (forall k :: 0 <= k < 3 ==> p.position[k] == Visualize.PyFloat(j.position[k]))
    && (forall k :: 0 <= k < 3 ==> p.scale[k] == Visualize.PyFloat(j.scale[k]))
    && (forall k :: 0 <= k < 4 ==> p.color[k].PyInt? && p.color[k].i as real == j.color[k] * 255.0)
    && (forall k :: 0 <= k < 4 ==>
          p.rotation[k] == if j.rotation[k] < 0.0 then j.rotation[k] else j.rotation[k] - 2.0)
  }

  /** One 32-byte record, read by both decoders. */
  lemma RecordsCorrespond(chunk: seq<byte>)
    requires |chunk| == 32
    ensures Corresponds(SplatReader.ReadRecord(chunk, 0).value, Visualize.ChunkSplat(chunk))
  {
    SplatReader.RecordLayout(chunk, 0);
    Visualize.ChunkFields(chunk);
  }

  /** Both decoders succeed on exactly the same files (those made of whole
      32-byte records), and then produce the same number of records, in the
      same order, pairwise corresponding. */
  lemma {:induction false} ReadersAgree(file: seq<byte>)
    ensures SplatReader.Decode(file).Delivered? <==> Visualize.PyDecode(file).Returned?
    ensures SplatReader.Decode(file).Delivered? ==>
      var js, py := SplatReader.Decode(file).splats, Visualize.PyDecode(file).splats;
      |js| == |py| && forall i :: 0 <= i < |js| ==> Corresponds(js[i], py[i])
  {
    if |file| % 32 == 0 {
      var js, py := SplatReader.Decode(file).splats, Visualize.PyDecode(file).splats;
      forall i | 0 <= i < |js|
        ensures Corresponds(js[i], py[i])
      {
        var chunk := file[32 * i..32 * i + 32];
        SplatReader.RecordIsLocal(file, 32 * i);
        RecordsCorrespond(chunk);
      }
    }
  }
}
