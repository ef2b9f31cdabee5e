/** The frame and depth buffers of main.cc and the depth-tested span writer that fills them. */
module Raster {
  import opened Conversions
  import opened ClampUtil
  import opened Vector2Util
  import opened Vector3Util
  import opened ColorModel

  const ImageW: int := 400
  const ImageH: int := 400
  /** The depth every Z-buffer cell is cleared to: nothing in the scene lies farther away. */
  const ZMAX: real := 10000.0

  /** `framebuffer[ImageH][ImageW][3]`, rows stored top row first. */
  predicate IsFramebuffer(fb: array3<real>)
  {
    fb.Length0 == ImageH && fb.Length1 == ImageW && fb.Length2 == 3
  }

  /** `zbuffer[ImageH][ImageW]` */
  predicate IsZbuffer(zb: array2<real>)
  {
    zb.Length0 == ImageH && zb.Length1 == ImageW
  }

  predicate InImage(p: Vector2)
  {
    0 <= p.x < ImageW && 0 <= p.y < ImageH
  }

  /** The buffer row of a pixel given with the origin at the lower left. */
  function FlipRow(y: int): (r: int)
    ensures 0 <= y < ImageH <==> 0 <= r < ImageH
  {
    ImageH - 1 - y
  }

  /** `repositionOrigin(position)`: moves the origin from the lower-left to the upper-left
      corner; `x` is kept. */
  method RepositionOrigin(position: Vector2) returns (moved: Vector2)
    ensures moved == Vector2(position.x, FlipRow(position.y))
    ensures InImage(position) <==> InImage(moved)
  {
    moved := position;
    moved := moved.(y := ImageH - 1 - moved.y);
  }

  /** Flipping twice gives back the row. */
  lemma FlipRowInvolutive(y: int)
    ensures FlipRow(FlipRow(y)) == y
  {
  }

  /** Flipping maps the rows of the image onto themselves: every row is the flip of a row. */
  lemma FlipRowOnto(y: int)
    requires 0 <= y < ImageH
    ensures 0 <= FlipRow(y) < ImageH
    ensures exists w :: 0 <= w < ImageH && FlipRow(w) == y
  {
    assert FlipRow(FlipRow(y)) == y;
  }

  /** `clampFloat(f)`: `f` forced into `[0, 1]`. */
  function ClampFloat(f: real): (r: real)
    ensures 0.0 <= r <= 1.0
    ensures 0.0 <= f <= 1.0 ==> r == f
    ensures f < 0.0 ==> r == 0.0
    ensures f > 1.0 ==> r == 1.0
  {
    if f < 0.0 then 0.0
    else if f > 1.0 then 1.0
    else f
  }

  /** `clampFloat` is `clamp(0, 1, f)`. */
  lemma ClampFloatIsClamp(f: real)
    ensures ClampFloat(f) == Clamp(0.0, 1.0, f)
  {
  }

  /** `clampColorValues(color)`: a new colour whose channels are the clamped displayed channels
      of `color`; being newly constructed, its intensity is `(0, 0, 0)`. */
  method ClampColorValues(color: Color) returns (clamped: Color)
    requires |color.rgb| >= 3
    ensures fresh(clamped) && clamped.Valid() && clamped.intensity == Zero
    ensures |clamped.rgb| == 3
    ensures clamped.rgb == [ClampFloat(color.Red()), ClampFloat(color.Green()), ClampFloat(color.Blue())]
    ensures forall k :: 0 <= k < 3 ==> 0.0 <= clamped.rgb[k] <= 1.0
  {
    clamped := new Color([ClampFloat(color.Red()), ClampFloat(color.Green()), ClampFloat(color.Blue())]);
  }

  /** `setFramebuffer(position, color)`: the three channels of the pixel, at its flipped row. */
  method SetFramebuffer(fb: array3<real>, position: Vector2, color: Color)
    requires IsFramebuffer(fb) && InImage(position) && |color.rgb| >= 3
    modifies fb
    ensures forall i, j, k :: 0 <= i < ImageH && 0 <= j < ImageW && 0 <= k < 3 ==>
      fb[i, j, k] == if i == FlipRow(position.y) && j == position.x
                     then Channel(color.rgb, color.intensity, k) else old(fb[i, j, k])
  {
    var p := RepositionOrigin(position);
    fb[p.y, p.x, 0] := color.Red();
    fb[p.y, p.x, 1] := color.Green();
    fb[p.y, p.x, 2] := color.Blue();
  }

  /** `getDepth(position)`: the stored depth of the pixel, truncated to `int`. */
  function GetDepth(zb: array2<real>, position: Vector2): (d: int)
    reads zb
    requires IsZbuffer(zb) && InImage(position)
    ensures zb[FlipRow(position.y), position.x] >= 0.0 ==>
      d as real <= zb[FlipRow(position.y), position.x] < d as real + 1.0
    ensures zb[FlipRow(position.y), position.x] < 0.0 ==>
      d as real - 1.0 < zb[FlipRow(position.y), position.x] <= d as real <= 0.0
  {
    Trunc(zb[FlipRow(position.y), position.x])
  }

  /** `setZbuffer(position, depth)`: the depth of the pixel, at its flipped row; reading it back
      gives the depth truncated. */
  method SetZbuffer(zb: array2<real>, position: Vector2, depth: real)
    requires IsZbuffer(zb) && InImage(position)
    modifies zb
    ensures forall i, j :: 0 <= i < ImageH && 0 <= j < ImageW ==>
      zb[i, j] == if i == FlipRow(position.y) && j == position.x then depth else old(zb[i, j])
    ensures GetDepth(zb, position) == Trunc(depth)
  {
    var p := RepositionOrigin(position);
    zb[p.y, p.x] := depth;
  }

  /** `calculateAndApplyIntensity(tri, normal, color)`, given the summed light `lighting` it
      computes: a copy of `color` whose intensity is that light, clamped. */
  method CalculateAndApplyIntensity(color: Color, lighting: Vector3) returns (result: Color)
    ensures fresh(result) && result.Valid()
    ensures result.rgb == color.rgb && result.intensity == ClampVector(0, 1, lighting)
  {
    result := new Color(color.rgb);
    result.SetIntensity(lighting);
  }

  /** The depth test of `drawScanLine`: nearer than the stored depth as `getDepth` reads it. */
  predicate DepthPasses(z: real, stored: real)
    ensures 0.0 <= stored && z <= stored - 1.0 ==> DepthPasses(z, stored)
    ensures 0.0 <= stored && DepthPasses(z, stored) ==> z < stored
  {
    z < Trunc(stored) as real
  }

  /** A depth that passed the test never lies behind the stored one, unless both are
      fractions in `(-1, 0)` apart from the new one being negative. */
  predicate NoDeeper(now: real, before: real)
  {
    now <= before || now < 0.0
  }

  /** Passing the depth test never moves a cell farther away. */
  lemma PassingIsNoDeeper(z: real, stored: real)
    requires DepthPasses(z, stored)
    ensures NoDeeper(z, stored)
    ensures stored >= 0.0 ==> z < stored
  {
  }

  /** The depth `drawScanLine` has reached at column `x`: `startZ` less one step
      `normal.x / normal.z` per column. */
  function DepthAt(startX: int, startZ: int, normal: Vector3, x: int): (z: real)
    requires normal.z != 0.0
    ensures x == startX ==> z == startZ as real
  {
    startZ as real - (x - startX) as real * (normal.x / normal.z)
  }

  /** Each column the depth moves by `-normal.x / normal.z`, as `drawScanLine` steps `z`; the
      depths walked so stay on the plane through `startZ` with that normal. */
  lemma DepthAtStep(startX: int, startZ: int, normal: Vector3, x: int)
    requires normal.z != 0.0
    ensures DepthAt(startX, startZ, normal, x + 1) == DepthAt(startX, startZ, normal, x) - normal.x / normal.z
    ensures (DepthAt(startX, startZ, normal, x) - startZ as real) * normal.z == -((x - startX) as real * normal.x)
  {
    var q := normal.x / normal.z;
    assert q * normal.z == normal.x;
    assert (DepthAt(startX, startZ, normal, x) - startZ as real) * normal.z == -((x - startX) as real * q * normal.z);
  }

  /** The cells `drawScanLine` may write: row `y` (flipped), columns `startX` to `endX - 2`. */
  predicate InSpan(i: int, j: int, y: int, startX: int, endX: int)
  {
    i == FlipRow(y) && startX <= j < endX - 1
  }

  /** `drawScanLine(y, startX, endX, startZ, normal, tri, color)`, with the light sum as
      `lighting`: walks the span left to right, and where the running depth passes the
      depth test writes that depth and the shaded colour; nothing else changes. */
  method DrawScanLine(fb: array3<real>, zb: array2<real>, y: int, startX: int, endX: int, startZ: int,
                      normal: Vector3, lighting: Vector3, color: Color)
    requires IsFramebuffer(fb) && IsZbuffer(zb) && |color.rgb| >= 3
    requires startX < endX - 1 ==> 0 <= startX && endX - 1 <= ImageW && 0 <= y < ImageH && normal.z != 0.0
    modifies fb, zb
    ensures forall i, j :: 0 <= i < ImageH && 0 <= j < ImageW ==>
      zb[i, j] == if InSpan(i, j, y, startX, endX) && DepthPasses(DepthAt(startX, startZ, normal, j), old(zb[i, j]))
                  then DepthAt(startX, startZ, normal, j) else old(zb[i, j])
    ensures forall i, j, k :: 0 <= i < ImageH && 0 <= j < ImageW && 0 <= k < 3 ==>
      fb[i, j, k] == if InSpan(i, j, y, startX, endX) && DepthPasses(DepthAt(startX, startZ, normal, j), old(zb[i, j]))
                     then Channel(color.rgb, ClampVector(0, 1, lighting), k) else old(fb[i, j, k])
    ensures forall i, j :: 0 <= i < ImageH && 0 <= j < ImageW ==> NoDeeper(zb[i, j], old(zb[i, j]))
  {
    var shaded := color;
    var z: real := startZ as real;
    var x := startX;
    while x < endX - 1
      invariant startX <= x && (startX < endX - 1 ==> x <= endX - 1) && (startX >= endX - 1 ==> x == startX)
      invariant x > startX ==> normal.z != 0.0
      invariant normal.z != 0.0 ==> z == DepthAt(startX, startZ, normal, x)
      invariant shaded.rgb == color.rgb
      invariant forall i, j :: 0 <= i < ImageH && 0 <= j < ImageW ==>
        zb[i, j] == if InSpan(i, j, y, startX, x + 1) && DepthPasses(DepthAt(startX, startZ, normal, j), old(zb[i, j]))
                    then DepthAt(startX, startZ, normal, j) else old(zb[i, j])
      invariant forall i, j, k :: 0 <= i < ImageH && 0 <= j < ImageW && 0 <= k < 3 ==>
        fb[i, j, k] == if InSpan(i, j, y, startX, x + 1) && DepthPasses(DepthAt(startX, startZ, normal, j), old(zb[i, j]))
                       then Channel(color.rgb, ClampVector(0, 1, lighting), k) else old(fb[i, j, k])
    {
      var p := Vector2(x, y);
      if z < GetDepth(zb, p) as real {
        SetZbuffer(zb, p, z);
        shaded := CalculateAndApplyIntensity(shaded, lighting);
        SetFramebuffer(fb, p, shaded);
      }
      DepthAtStep(startX, startZ, normal, x);
      x := x + 1;
      z := z - normal.x / normal.z;
    }
    assert forall i, j :: InSpan(i, j, y, startX, x + 1) <==> InSpan(i, j, y, startX, endX);
    forall i, j | 0 <= i < ImageH && 0 <= j < ImageW
      ensures NoDeeper(zb[i, j], old(zb[i, j]))
    {
      if zb[i, j] != old(zb[i, j]) {
        PassingIsNoDeeper(zb[i, j], old(zb[i, j]));
      }
    }
  }

  /** The buffer clear of `init`: every channel black, every depth `ZMAX`. */
  method ClearBuffers(fb: array3<real>, zb: array2<real>)
    requires IsFramebuffer(fb) && IsZbuffer(zb)
    modifies fb, zb
    ensures forall i, j, k :: 0 <= i < ImageH && 0 <= j < ImageW && 0 <= k < 3 ==> fb[i, j, k] == 0.0
    ensures forall i, j :: 0 <= i < ImageH && 0 <= j < ImageW ==> zb[i, j] == ZMAX
  {
    for i := 0 to ImageH
      invariant forall a, b, k :: 0 <= a < i && 0 <= b < ImageW && 0 <= k < 3 ==> fb[a, b, k] == 0.0
      invariant forall a, b :: 0 <= a < i && 0 <= b < ImageW ==> zb[a, b] == ZMAX
    {
      for j := 0 to ImageW
        invariant forall a, b, k :: 0 <= a < i && 0 <= b < ImageW && 0 <= k < 3 ==> fb[a, b, k] == 0.0
        invariant forall a, b :: 0 <= a < i && 0 <= b < ImageW ==> zb[a, b] == ZMAX
        invariant forall b, k :: 0 <= b < j && 0 <= k < 3 ==> fb[i, b, k] == 0.0
        invariant forall b :: 0 <= b < j ==> zb[i, b] == ZMAX
      {
        fb[i, j, 0] := 0.0;
        fb[i, j, 1] := 0.0;
        fb[i, j, 2] := 0.0;
        zb[i, j] := ZMAX;
      }
    }
  }
}
