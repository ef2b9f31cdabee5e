/** Texture lookup in main.cc: nearest-neighbour texel addressing with clamping, over the
    column-major (x-major) RGB layout the scene loader fills. */
module Texturing {
  import opened Conversions

  /** main.cc's `color` record: one RGB triple. */
  datatype Rgb = Rgb(r: real, g: real, b: real)

  /** A texture: `xsize` by `ysize` texels, three floats each. */
  datatype Texture = Texture(xsize: int, ysize: int, elements: seq<real>)

  /** A texture as the loader allocates it: at least one texel, `3 * xsize * ysize` floats. */
  predicate WellFormed(t: Texture)
  {
    t.xsize >= 1 && t.ysize >= 1 && |t.elements| == 3 * t.xsize * t.ysize
  }

  /** The texel row or column a coordinate selects: below 0 the first, from 1 on the last,
      and in between the cell `c * size` falls in. */
  function TexelIndex(c: real, size: int): (i: int)
    ensures c < 0.0 ==> i == 0
    ensures c >= 1.0 ==> i == size - 1
    ensures size >= 1 && 0.0 <= c < 1.0 ==> i as real <= c * size as real < i as real + 1.0
    ensures size >= 1 ==> 0 <= i <= size - 1
  {
    if c < 1.0 then
      if c >= 0.0 then
        ScaledBelow(c, size);
        Trunc(c * size as real)
      else 0
    else size - 1
  }

  /** A fraction in `[0, 1)` of a non-negative size stays in `[0, size)` (or is 0). */
  lemma ScaledBelow(c: real, size: int)
    requires 0.0 <= c < 1.0
    ensures size >= 1 ==> 0.0 <= c * size as real < size as real
    ensures size <= 0 ==> c * size as real <= 0.0
  {
    if size >= 1 {
      assert c * size as real < 1.0 * size as real;
    } else {
      assert c * size as real <= 0.0 * size as real;
    }
  }

  /** Where the three floats of texel `(x, y)` begin: `3 * (x * ysize + y)`. */
  function TexelOffset(t: Texture, x: int, y: int): int
  {
    3 * (x * t.ysize + y)
  }

  /** Every texel of a well-formed texture lies inside its element array. */
  lemma OffsetInBounds(t: Texture, x: int, y: int)
    requires WellFormed(t) && 0 <= x < t.xsize && 0 <= y < t.ysize
    ensures 0 <= TexelOffset(t, x, y) && TexelOffset(t, x, y) + 2 < |t.elements|
  {
    assert x * t.ysize <= (t.xsize - 1) * t.ysize;
    assert (t.xsize - 1) * t.ysize == t.xsize * t.ysize - t.ysize;
    assert 0 <= x * t.ysize;
  }

  /** The three floats of texel `(x, y)`. */
  function TexelAt(t: Texture, x: int, y: int): Rgb
    requires WellFormed(t) && 0 <= x < t.xsize && 0 <= y < t.ysize
  {
    OffsetInBounds(t, x, y);
    var o := TexelOffset(t, x, y);
    Rgb(t.elements[o], t.elements[o + 1], t.elements[o + 2])
  }

  /** `getTextureRGB(t, u, v, R, G, B)`: the texel nearest to `(u, v)`, coordinates clamped
      to the texture. */
  function GetTextureRGB(t: Texture, u: real, v: real): (rgb: Rgb)
    requires WellFormed(t)
    ensures (forall i :: 0 <= i < |t.elements| ==> 0.0 <= t.elements[i] <= 1.0) ==>
      0.0 <= rgb.r <= 1.0 && 0.0 <= rgb.g <= 1.0 && 0.0 <= rgb.b <= 1.0
  {
    var x, y := TexelIndex(u, t.xsize), TexelIndex(v, t.ysize);
    OffsetInBounds(t, x, y);
    var o := TexelOffset(t, x, y);
    Rgb(t.elements[o], t.elements[o + 1], t.elements[o + 2])
  }

  /** `t` holds the texel grid `grid` (`grid[x][y]`) in the order the scene loader stores it. */
  ghost predicate LoadedFrom(t: Texture, grid: seq<seq<Rgb>>)
    requires WellFormed(t)
  {
    && |grid| == t.xsize
    && (forall x :: 0 <= x < t.xsize ==> |grid[x]| == t.ysize)
    && forall x, y :: 0 <= x < t.xsize && 0 <= y < t.ysize ==> TexelAt(t, x, y) == grid[x][y]
  }

  /** A lookup in a loaded texture returns the grid cell the clamped coordinates select. */
  lemma LookupReadsGrid(t: Texture, grid: seq<seq<Rgb>>, u: real, v: real)
    requires WellFormed(t) && LoadedFrom(t, grid)
    ensures GetTextureRGB(t, u, v) == grid[TexelIndex(u, t.xsize)][TexelIndex(v, t.ysize)]
  {
    var x, y := TexelIndex(u, t.xsize), TexelIndex(v, t.ysize);
    OffsetInBounds(t, x, y);
    assert 0 <= x < t.xsize && 0 <= y < t.ysize;
  }

  /** Distinct texels never share a float, so the loader's layout can hold any grid. */
  lemma OffsetsDistinct(t: Texture, x1: int, y1: int, x2: int, y2: int)
    requires WellFormed(t)
    requires 0 <= x1 < t.xsize && 0 <= y1 < t.ysize && 0 <= x2 < t.xsize && 0 <= y2 < t.ysize
    requires (x1, y1) != (x2, y2)
    ensures TexelOffset(t, x1, y1) + 2 < TexelOffset(t, x2, y2) || TexelOffset(t, x2, y2) + 2 < TexelOffset(t, x1, y1)
  {
    var ys := t.ysize;
    if x1 < x2 {
      MulMonotone(x1 + 1, x2, ys);
      assert (x1 + 1) * ys == x1 * ys + ys;
    } else if x2 < x1 {
      MulMonotone(x2 + 1, x1, ys);
      assert (x2 + 1) * ys == x2 * ys + ys;
    }
  }

  lemma MulMonotone(a: int, b: int, n: int)
    requires a <= b && n >= 0
    ensures a * n <= b * n
  {
    assert b * n - a * n == (b - a) * n;
  }
}
