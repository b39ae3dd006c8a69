/** Python's `round`, on exact numbers. */
module Rounding {

  /** To the nearest integer, halves to the even one. */
  function HalfEven(y: real): int {
    var f := y.Floor;
    var rest := y - f as real;
    if rest < 0.5 then f else if rest > 0.5 then f + 1 else if f % 2 == 0 then f else f + 1
  }

  function Rounded(x: real, scale: nat): real
    requires scale > 0
  {
    HalfEven(x * scale as real) as real / scale as real
  }

  lemma HalfEvenMonotone(x: real, y: real)
    requires x <= y
    ensures HalfEven(x) <= HalfEven(y)
  {
    if x.Floor < y.Floor {
      assert HalfEven(x) <= x.Floor + 1 <= y.Floor;
    }
  }

  lemma RoundedMonotone(x: real, y: real, scale: nat)
    requires x <= y && scale > 0
    ensures Rounded(x, scale) <= Rounded(y, scale)
  {
    HalfEvenMonotone(x * scale as real, y * scale as real);
    Divide(HalfEven(x * scale as real) as real, HalfEven(y * scale as real) as real, scale as real);
  }

  lemma Divide(a: real, b: real, d: real)
    requires a <= b && d > 0.0
    ensures a / d <= b / d
  {
  }

  lemma HalfEvenReaches(y: real, n: int)
    ensures HalfEven(y) >= n <==> if n % 2 == 0 then y >= n as real - 0.5 else y > n as real - 0.5
  {
    var f := y.Floor;
    assert f as real <= y < (f + 1) as real;
    if n <= f {
      assert n as real <= f as real;
    } else if n >= f + 2 {
      assert n as real >= (f + 2) as real;
    } else {
      assert n == f + 1;
      assert n % 2 == 0 <==> f % 2 == 1;
    }
  }
}
