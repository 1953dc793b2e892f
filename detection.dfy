/**
 * A detection: the centre (x, y) of a square window, its side length `scale`, and the
 * classifier score (src/Detection.php). It is immutable: the datatype's destructors are
 * the getters getX, getY, getScale and getScore.
 */
module Detections {

  datatype Detection = Detection(x: int, y: int, scale: int, score: real)

  /** `i` is `r` with its fractional part dropped, i.e. rounded toward zero. */
  predicate TowardZero(i: int, r: real) {
    (r >= 0.0 ==> 0 <= i && i as real <= r < i as real + 1.0) &&
    (r < 0.0 ==> i <= 0 && i as real - 1.0 < r <= i as real)
  }

  /** PHP's `(int)` cast of a float: truncation toward zero. */
  function Truncate(r: real): (i: int)
    ensures TowardZero(i, r)
  {
    if r >= 0.0 then r.Floor else -((-r).Floor)
  }

  /** Truncation toward zero never increases the magnitude. */
  lemma TruncateShrinks(r: real)
    ensures -r <= Truncate(r) as real <= r || r <= Truncate(r) as real <= -r
    ensures Truncate(-r) == -Truncate(r)
  {
    if r < 0.0 {
      assert -(-r) == r;
    }
  }

  /** The constructor: coordinates and scale truncated toward zero, the score kept unchanged. */
  function NewDetection(x: real, y: real, scale: real, score: real): (d: Detection)
    ensures d.score == score
    ensures TowardZero(d.x, x) && TowardZero(d.y, y) && TowardZero(d.scale, scale)
  {
    Detection(Truncate(x), Truncate(y), Truncate(scale), score)
  }

  /** Constructing from integer-valued floats keeps the coordinates exactly. */
  lemma {:induction false} IntegralInputsKept(x: int, y: int, scale: int, score: real)
    ensures NewDetection(x as real, y as real, scale as real, score) == Detection(x, y, scale, score)
  {
    TruncateOfInt(x);
    TruncateOfInt(y);
    TruncateOfInt(scale);
  }

  lemma TruncateOfInt(n: int)
    ensures Truncate(n as real) == n
  {
    if n < 0 {
      assert (-(n as real)).Floor == -n;
    }
  }
}
