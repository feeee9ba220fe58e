/** Python's `round`: to the nearest integer, ties to the even neighbour. */
module Rounding {
  function HalfEven(x: real): (n: int)
    ensures -0.5 <= n as real - x <= 0.5
    ensures n as real - x == 0.5 || n as real - x == -0.5 ==> n % 2 == 0
  {
    var f := x.Floor;
    var d := x - f as real;
    if d < 0.5 then f else if d > 0.5 then f + 1 else if f % 2 == 0 then f else f + 1
  }

  lemma HalfEvenMonotone(x: real, y: real)
    requires x <= y
    ensures HalfEven(x) <= HalfEven(y)
  {
    // Otherwise both results are half a unit away from x == y, on opposite sides, and both even.
    assert HalfEven(y) < HalfEven(x) ==> x == y;
  }

  lemma HalfEvenOfInt(n: int)
    ensures HalfEven(n as real) == n
  {
    assert (n as real).Floor == n;
  }

  /** The output clock: the nearest millisecond. */
  function Millis(seconds: real): int {
    HalfEven(seconds * 1000.0)
  }

  function Seconds(millis: int): real {
    millis as real / 1000.0
  }

  lemma MillisOfSeconds(millis: int)
    ensures Millis(Seconds(millis)) == millis
  {
    assert Seconds(millis) * 1000.0 == millis as real;
    HalfEvenOfInt(millis);
  }

  lemma MillisMonotone(x: real, y: real)
    requires x <= y
    ensures Millis(x) <= Millis(y)
  {
    HalfEvenMonotone(x * 1000.0, y * 1000.0);
  }

  /** The millisecond clock is never more than half a millisecond off. */
  lemma MillisNearby(x: real)
    ensures -0.0005 <= Seconds(Millis(x)) - x <= 0.0005
  {
    assert -0.5 <= Millis(x) as real - x * 1000.0 <= 0.5;
  }

  lemma MillisNonNegative(x: real)
    requires 0.0 <= x
    ensures 0 <= Millis(x)
  {
    HalfEvenMonotone(0.0, x * 1000.0);
    HalfEvenOfInt(0);
  }
}
