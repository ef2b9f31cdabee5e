/** util/vector2.hh: integer 2-D vectors (pixel positions and row ranges). */
module Vector2Util {

  datatype Vector2 = Vector2(x: int, y: int)

  /** `-v` */
  function Neg(v: Vector2): (r: Vector2)
    ensures r.x + v.x == 0 && r.y + v.y == 0
  {
    Vector2(-v.x, -v.y)
  }

  /** `operator==`: componentwise equality, which is value equality. */
  predicate Equal(lhs: Vector2, rhs: Vector2)
    ensures Equal(lhs, rhs) <==> lhs == rhs
  {
    lhs.x == rhs.x && lhs.y == rhs.y
  }

  /** `lhs - rhs` */
  function Sub(lhs: Vector2, rhs: Vector2): (r: Vector2)
    ensures r.x + rhs.x == lhs.x && r.y + rhs.y == lhs.y
  {
    Vector2(lhs.x - rhs.x, lhs.y - rhs.y)
  }

  /** `lhs -= rhs`: the updated left operand. */
  method SubAssign(lhs: Vector2, rhs: Vector2) returns (updated: Vector2)
    ensures updated == Sub(lhs, rhs)
  {
    updated := Sub(lhs, rhs);
  }

  /** The value `translate(v, offset)` leaves in `v`. */
  function Translated(v: Vector2, offset: int): Vector2
  {
    v.(x := v.x + offset)
  }

  /** `translate(v, offset)`: shifts `x` by `offset`; `y` is untouched. */
  method Translate(v: Vector2, offset: int) returns (updated: Vector2)
    ensures updated.x == v.x + offset && updated.y == v.y
    ensures updated == Translated(v, offset)
  {
    updated := v;
    updated := updated.(x := updated.x + offset);
  }

  lemma NegInvolutive(v: Vector2)
    ensures Neg(Neg(v)) == v
  {
  }

  lemma SubSelf(v: Vector2)
    ensures Sub(v, v) == Vector2(0, 0)
  {
  }

  /** Two translations add up to one. */
  lemma TranslateTwice(v: Vector2, a: int, b: int)
    ensures Translated(Translated(v, a), b) == Translated(v, a + b)
  {
  }
}
