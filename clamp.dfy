/** util/clamp.hh: clamping one float to a closed range. */
module ClampUtil {

  /** `clamp(min, max, value)`: `min` when below it, `max` when above it, otherwise `value`. */
  function Clamp(min: real, max: real, value: real): (r: real)
    ensures min <= max ==> min <= r <= max
    ensures min <= value <= max ==> r == value
    ensures value < min ==> r == min
    ensures min <= max && max < value ==> r == max
  {
    if value < min then min
    else if value > max then max
    else value
  }

  /** Clamping a clamped value changes nothing. */
  lemma ClampIdempotent(min: real, max: real, x: real)
    requires min <= max
    ensures Clamp(min, max, Clamp(min, max, x)) == Clamp(min, max, x)
  {
  }

  /** Clamping preserves the order of its inputs. */
  lemma ClampMonotone(min: real, max: real, a: real, b: real)
    requires min <= max && a <= b
    ensures Clamp(min, max, a) <= Clamp(min, max, b)
  {
  }
}
