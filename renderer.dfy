/** `initWebGL` of the web viewer: the decoded splats are flattened once into
    a position array and a colour array, the points are drawn with a size
    given by the vertex shader's inverse-depth rule, and a slider changes
    only the scaling factor and redraws. Graphics-device calls, shader
    compilation and the gl-matrix transforms are not modelled; the view-space
    z of each point, which the model-view matrix determines, is an input. */
module Renderer {
  import opened SplatFormat
  import opened SplatReader

  /** `positions` holds the splats' positions, three values per splat, in
      splat order. */
  ghost predicate IsPositionArray(splats: seq<Splat>, positions: seq<Float32>)
  {
    |positions| == 3 * |splats| &&
    forall i :: 0 <= i < |splats| ==> positions[3 * i..3 * i + 3] == splats[i].position
  }

  /** `colors` holds, per splat and in splat order, its red, green and blue
      channels followed by an alpha of 1.0, whatever the splat's own alpha. */
  ghost predicate IsColorArray(splats: seq<Splat>, colors: seq<real>)
  {
    |colors| == 4 * |splats| &&
    forall i :: 0 <= i < |splats| ==> colors[4 * i..4 * i + 4] == splats[i].color[..3] + [1.0]
  }

  /** The loop that pushes `...splats[i].position` and
      `...splats[i].color.slice(0, 3), 1.0` for each splat. */
  method FlattenSplats(splats: seq<Splat>) returns (positions: seq<Float32>, colors: seq<real>)
    ensures IsPositionArray(splats, positions)
    ensures IsColorArray(splats, colors)
  {
    positions, colors := [], [];
    for i := 0 to |splats|
      invariant IsPositionArray(splats[..i], positions)
      invariant IsColorArray(splats[..i], colors)
    {
      var rgba := splats[i].color[..3] + [1.0];
      assert forall j :: 0 <= j < i ==> (positions + splats[i].position)[3 * j..3 * j + 3] == positions[3 * j..3 * j + 3];
      assert forall j :: 0 <= j < i ==> (colors + rgba)[4 * j..4 * j + 4] == colors[4 * j..4 * j + 4];
      positions := positions + splats[i].position;
      colors := colors + rgba;
    }
    assert splats[..|splats|] == splats;
  }

  /** `positions.length / 3`, the vertex count handed to `gl.drawArrays`. */
  function DrawCount(positions: seq<Float32>): (count: real)
    ensures |positions| % 3 == 0 ==> count == (|positions| / 3) as real
  {
    |positions| as real / 3.0
  }

  /** The draw count is the number of splats, so every splat is drawn. */
  lemma DrawCountIsSplatCount(splats: seq<Splat>, positions: seq<Float32>)
    requires IsPositionArray(splats, positions)
    ensures DrawCount(positions) == |splats| as real
  {
  }

  /** `gl_PointSize` in the vertex shader, where the distance is the negated
      view-space z: the scaling factor over the distance, and 1.0 for a point
      at distance zero. */
  function PointSize(scalingFactor: real, viewZ: real): (size: real)
    ensures viewZ != 0.0 ==> size * -viewZ == scalingFactor
    ensures viewZ == 0.0 ==> size == 1.0
  {
    var distance := -viewZ;
    if distance != 0.0 then scalingFactor / distance else 1.0
  }

  /** Multiplying the scaling factor by `c` multiplies the size of every
      point off the camera plane by `c` and leaves the others at 1.0. */
  lemma PointSizeScalesWithFactor(scalingFactor: real, c: real, viewZ: real)
    ensures viewZ != 0.0 ==> PointSize(c * scalingFactor, viewZ) == c * PointSize(scalingFactor, viewZ)
    ensures viewZ == 0.0 ==> PointSize(c * scalingFactor, viewZ) == PointSize(scalingFactor, viewZ)
  {
  }

  /** A point as the vertex shader emits it. */
  datatype Point = Point(position: seq<Float32>, color: seq<real>, size: real)

  /** `gl.drawArrays(gl.POINTS, 0, positions.length / 3)` with the position
      attribute read three values per vertex and the colour attribute four
      values per vertex; `viewZ[i]` is the view-space z of vertex i. */
  function DrawPoints(positions: seq<Float32>, colors: seq<real>, scalingFactor: real, viewZ: seq<real>): seq<Point>
    requires |positions| % 3 == 0
    requires |colors| == 4 * (|positions| / 3)
    requires |viewZ| == |positions| / 3
  {
    var n := |positions| / 3;
    seq(n, i requires 0 <= i < n =>
      Point(positions[3 * i..3 * i + 3], colors[4 * i..4 * i + 4], PointSize(scalingFactor, viewZ[i])))
  }

  /** The state `initWebGL` keeps alive for its `render` closure and the
      slider listener: the two arrays, built once, and `scalingFactor`. */
  class SplatScene {
    ghost const splats: seq<Splat>
    var positions: seq<Float32>
    var colors: seq<real>
    var scalingFactor: real

    ghost predicate Valid()
      reads this
    {
      IsPositionArray(splats, positions) && IsColorArray(splats, colors)
    }

    /** `initWebGL(splats)`: both arrays are built from the splats and the
        scaling factor starts at 1.0. */
    constructor (splats: seq<Splat>)
      ensures Valid()
      ensures this.splats == splats
      ensures scalingFactor == 1.0
    {
      this.splats := splats;
      var p, c := FlattenSplats(splats);
      positions, colors := p, c;
      scalingFactor := 1.0;
    }

    /** `render()`: point i on screen is splat i, at its position, with its
        colour made opaque and the inverse-depth size for the current
        scaling factor. */
    function Render(viewZ: seq<real>): (points: seq<Point>)
      reads this
      requires Valid()
      requires |viewZ| == |splats|
      ensures |points| == |splats|
      ensures forall i :: 0 <= i < |splats| ==>
        points[i] == Point(splats[i].position, splats[i].color[..3] + [1.0], PointSize(scalingFactor, viewZ[i]))
    {
      DrawPoints(positions, colors, scalingFactor, viewZ)
    }

    /** The slider's `input` listener: only the scaling factor changes; the
        arrays are not rebuilt, and the redraw moves no point and recolours
        none, it only resizes them. */
    method OnSliderInput(value: real, viewZ: seq<real>) returns (frame: seq<Point>)
      requires Valid()
      requires |viewZ| == |splats|
      modifies this`scalingFactor
      ensures Valid()
      ensures scalingFactor == value
      ensures positions == old(positions) && colors == old(colors)
      ensures frame == Render(viewZ)
      ensures |frame| == |old(Render(viewZ))|
      ensures forall i :: 0 <= i < |frame| ==>
        frame[i] == old(Render(viewZ))[i].(size := PointSize(value, viewZ[i]))
    {
      scalingFactor := value;
      frame := Render(viewZ);
    }
  }
}
