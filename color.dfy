/** scan/color.hh: an RGB colour with an intensity that scales each channel. */
module ColorModel {
  import opened Vector3Util

  /** Every component of `v` lies in `[0, 1]`. */
  predicate InUnitCube(v: Vector3)
  {
    0.0 <= v.x <= 1.0 && 0.0 <= v.y <= 1.0 && 0.0 <= v.z <= 1.0
  }

  /** Channel `k` (0 red, 1 green, 2 blue) of a colour with base `rgb` under `intensity`. */
  function Channel(rgb: seq<real>, intensity: Vector3, k: nat): (r: real)
    requires k < 3 && k < |rgb|
    ensures InUnitCube(intensity) && 0.0 <= rgb[k] <= 1.0 ==> 0.0 <= r <= 1.0
    ensures k == 0 ==> r == rgb[0] * intensity.x
    ensures k == 1 ==> r == rgb[1] * intensity.y
    ensures k == 2 ==> r == rgb[2] * intensity.z
  {
    var w := if k == 0 then intensity.x else if k == 1 then intensity.y else intensity.z;
    UnitProduct(rgb[k], w);
    rgb[k] * w
  }

  /** A product of two values in `[0, 1]` stays in `[0, 1]`. */
  lemma UnitProduct(a: real, b: real)
    ensures 0.0 <= a <= 1.0 && 0.0 <= b <= 1.0 ==> 0.0 <= a * b <= 1.0
  {
    if 0.0 <= a <= 1.0 && 0.0 <= b <= 1.0 {
      assert a * b <= 1.0 * b;
    }
  }

  class Color {
    var rgb: seq<real>
    var intensity: Vector3

    /** The intensity is always clamped to the unit cube. */
    ghost predicate Valid()
      reads this
    {
      InUnitCube(intensity)
    }

    /** `Color{r, g, b}`: the given channels with intensity `(0, 0, 0)`. */
    constructor (rgb: seq<real>)
      ensures this.rgb == rgb && intensity == Zero
      ensures Valid()
    {
      this.rgb := rgb;
      intensity := Zero;
    }

    function Red(): (r: real)
      reads this
      requires |rgb| >= 1
      ensures r == rgb[0] * intensity.x
      ensures Valid() && 0.0 <= rgb[0] <= 1.0 ==> 0.0 <= r <= 1.0
    {
      Channel(rgb, intensity, 0)
    }

    function Green(): (r: real)
      reads this
      requires |rgb| >= 2
      ensures r == rgb[1] * intensity.y
      ensures Valid() && 0.0 <= rgb[1] <= 1.0 ==> 0.0 <= r <= 1.0
    {
      Channel(rgb, intensity, 1)
    }

    function Blue(): (r: real)
      reads this
      requires |rgb| >= 3
      ensures r == rgb[2] * intensity.z
      ensures Valid() && 0.0 <= rgb[2] <= 1.0 ==> 0.0 <= r <= 1.0
    {
      Channel(rgb, intensity, 2)
    }

    /** `set_intensity(value)`: stores `value` clamped to `[0, 1]` per component. */
    method SetIntensity(value: Vector3)
      modifies this`intensity
      ensures intensity == ClampVector(0, 1, value)
      ensures rgb == old(rgb)
      ensures Valid()
    {
      intensity := ClampVector(0, 1, value);
    }
  }

  /** `operator==`: equal when the three displayed channels are equal, whatever the stored parts. */
  predicate Equals(lhs: Color, rhs: Color)
    reads lhs, rhs
    requires |lhs.rgb| >= 3 && |rhs.rgb| >= 3
    ensures lhs == rhs ==> Equals(lhs, rhs)
    ensures lhs.intensity == Zero && rhs.intensity == Zero ==> Equals(lhs, rhs)
    ensures Equals(lhs, rhs) ==> lhs.Red() == rhs.Red()
  {
    lhs.Red() == rhs.Red() && lhs.Green() == rhs.Green() && lhs.Blue() == rhs.Blue()
  }

  /** A freshly made colour displays black whatever its channels. */
  lemma NewColorIsBlack(c: Color)
    requires |c.rgb| >= 3 && c.intensity == Zero
    ensures c.Red() == 0.0 && c.Green() == 0.0 && c.Blue() == 0.0
  {
  }
}
