/** util/vector3.hh: three-component float vectors (positions, normals, texture coordinates). */
module Vector3Util {
  import opened ClampUtil

  datatype Vector3 = Vector3(x: real, y: real, z: real)

  const Zero := Vector3(0.0, 0.0, 0.0)

  /** `-v` */
  function Neg(v: Vector3): (r: Vector3)
    ensures Add(v, r) == Zero
  {
    Vector3(-v.x, -v.y, -v.z)
  }

  /** `lhs - rhs` */
  function Sub(lhs: Vector3, rhs: Vector3): (r: Vector3)
    ensures Add(r, rhs) == lhs
  {
    Vector3(lhs.x - rhs.x, lhs.y - rhs.y, lhs.z - rhs.z)
  }

  /** `lhs + rhs`, used by the edge list's `+=` (componentwise); the zero vector adds nothing
      on either side. */
  function Add(lhs: Vector3, rhs: Vector3): (r: Vector3)
    ensures rhs == Zero ==> r == lhs
    ensures lhs == Zero ==> r == rhs
  {
    Vector3(lhs.x + rhs.x, lhs.y + rhs.y, lhs.z + rhs.z)
  }

  /** `lhs * rhs` with a scalar on the right: 1 keeps the vector and 0 gives the zero vector. */
  function Scale(v: Vector3, s: real): (r: Vector3)
    ensures s == 1.0 ==> r == v
    ensures s == 0.0 ==> r == Zero
  {
    Vector3(v.x * s, v.y * s, v.z * s)
  }

  /** `rhs * lhs` with the scalar on the left: the same as with the scalar on the right. */
  function ScaleLeft(s: real, v: Vector3): (r: Vector3)
    ensures r == Scale(v, s)
    ensures r.x == s * v.x && r.y == s * v.y && r.z == s * v.z
  {
    Scale(v, s)
  }

  /** `v / s`, used by the edge setup (componentwise division). */
  function Div(v: Vector3, s: real): (r: Vector3)
    requires s != 0.0
    ensures Scale(r, s) == v
  {
    Vector3(v.x / s, v.y / s, v.z / s)
  }

  /** `operator==`: componentwise equality, which is value equality. */
  predicate Equal(lhs: Vector3, rhs: Vector3)
    ensures Equal(lhs, rhs) <==> lhs == rhs
  {
    lhs.x == rhs.x && lhs.y == rhs.y && lhs.z == rhs.z
  }

  /** `lhs -= rhs`: the updated left operand. */
  method SubAssign(lhs: Vector3, rhs: Vector3) returns (updated: Vector3)
    ensures updated == Sub(lhs, rhs)
    ensures Add(updated, rhs) == lhs
  {
    updated := Sub(lhs, rhs);
  }

  /** `lhs /= rhs`: each component divided; the same value the `/` operator gives. */
  method DivAssign(lhs: Vector3, rhs: real) returns (updated: Vector3)
    requires rhs != 0.0
    ensures updated == Div(lhs, rhs)
    ensures Scale(updated, rhs) == lhs
  {
    updated := lhs;
    updated := updated.(x := updated.x / rhs);
    updated := updated.(y := updated.y / rhs);
    updated := updated.(z := updated.z / rhs);
  }

  /** `dot(u, v)` */
  function Dot(u: Vector3, v: Vector3): real
  {
    u.x * v.x + u.y * v.y + u.z * v.z
  }

  /** A vector's dot product with itself is never negative, and zero only for the zero vector. */
  lemma DotSelf(v: Vector3)
    ensures Dot(v, v) >= 0.0
    ensures Dot(v, v) == 0.0 <==> v == Zero
  {
    Square(v.x, v.x * v.x);
    Square(v.y, v.y * v.y);
    Square(v.z, v.z * v.z);
  }

  function Cross(u: Vector3, v: Vector3): (r: Vector3)
    ensures Dot(r, u) == 0.0 && Dot(r, v) == 0.0
  {
    var r := Vector3(u.y * v.z - u.z * v.y, u.z * v.x - u.x * v.z, u.x * v.y - u.y * v.x);
    CrossOrthogonal(u, v, r);
    r
  }

  lemma CrossOrthogonal(u: Vector3, v: Vector3, r: Vector3)
    requires r == Vector3(u.y * v.z - u.z * v.y, u.z * v.x - u.x * v.z, u.x * v.y - u.y * v.x)
    ensures Dot(r, u) == 0.0 && Dot(r, v) == 0.0
  {
    assert Dot(r, u) == (u.y * v.z - u.z * v.y) * u.x + (u.z * v.x - u.x * v.z) * u.y + (u.x * v.y - u.y * v.x) * u.z;
    assert Dot(r, v) == (u.y * v.z - u.z * v.y) * v.x + (u.z * v.x - u.x * v.z) * v.y + (u.x * v.y - u.y * v.x) * v.z;
  }

  /** `mag` is what `magnitude(v)` computes: the non-negative square root of `dot(v, v)`. */
  predicate IsMagnitude(v: Vector3, mag: real)
  {
    mag >= 0.0 && mag * mag == Dot(v, v)
  }

  /** `normalize(v)`, with the square root supplied as `mag`: the zero vector exactly when
      `v` is zero, otherwise `v` divided by its magnitude. */
  function Normalize(v: Vector3, mag: real): (r: Vector3)
    requires IsMagnitude(v, mag)
    ensures r == Zero <==> v == Zero
    ensures mag > 0.0 ==> Scale(r, mag) == v
  {
    if mag > 0.0 then
      Div(v, mag)
    else
      MagnitudeZero(v, mag);
      Zero
  }

  /** A zero magnitude only belongs to the zero vector. */
  lemma MagnitudeZero(v: Vector3, mag: real)
    requires IsMagnitude(v, mag)
    ensures mag == 0.0 <==> v == Zero
  {
    var sq, a, b, c := mag * mag, v.x * v.x, v.y * v.y, v.z * v.z;
    Square(v.x, a);
    Square(v.y, b);
    Square(v.z, c);
    Square(mag, sq);
    assert sq == a + b + c;
  }

  /** `sq` is the square of `t`: never negative, and positive unless `t` is zero. */
  lemma Square(t: real, sq: real)
    requires sq == t * t
    ensures sq >= 0.0
    ensures t != 0.0 ==> sq > 0.0
  {
    if t > 0.0 {
      ProductPositive(t, t, sq);
    } else if t < 0.0 {
      assert sq == (-t) * (-t);
      ProductPositive(-t, -t, sq);
    }
  }

  lemma ProductPositive(a: real, b: real, p: real)
    requires p == a * b && a > 0.0 && b > 0.0
    ensures p > 0.0
  {
  }

  /** `clamp(min, max, v)`: each component clamped to `[min, max]`. */
  function ClampVector(min: int, max: int, v: Vector3): (r: Vector3)
    ensures min <= max ==> min as real <= r.x <= max as real
    ensures min <= max ==> min as real <= r.y <= max as real
    ensures min <= max ==> min as real <= r.z <= max as real
    ensures (min as real <= v.x <= max as real && min as real <= v.y <= max as real
             && min as real <= v.z <= max as real) ==> r == v
  {
    Vector3(Clamp(min as real, max as real, v.x),
            Clamp(min as real, max as real, v.y),
            Clamp(min as real, max as real, v.z))
  }

  lemma NegInvolutive(v: Vector3)
    ensures Neg(Neg(v)) == v
  {
  }

  lemma SubSelf(v: Vector3)
    ensures Sub(v, v) == Zero
  {
  }

  lemma DotCommutative(u: Vector3, v: Vector3)
    ensures Dot(u, v) == Dot(v, u)
  {
  }

  lemma CrossSelf(u: Vector3)
    ensures Cross(u, u) == Zero
  {
  }

  lemma CrossAntiCommutative(u: Vector3, v: Vector3)
    ensures Cross(u, v) == Neg(Cross(v, u))
  {
  }
}
