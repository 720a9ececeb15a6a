/** Arithmetic helpers shared by the mood engine: Python's `min`/`max`,
    `round(x, n)` and `int(x)` on exact rationals. */
module Numerics {

  function Min(a: real, b: real): (r: real)
    ensures r <= a && r <= b && (r == a || r == b)
  {
    if a <= b then a else b
  }

  function Max(a: real, b: real): (r: real)
    ensures r >= a && r >= b && (r == a || r == b)
  {
    if a >= b then a else b
  }

  function MinInt(a: int, b: int): (r: int)
    ensures r <= a && r <= b && (r == a || r == b)
  {
    if a <= b then a else b
  }

  function MaxInt(a: int, b: int): (r: int)
    ensures r >= a && r >= b && (r == a || r == b)
  {
    if a >= b then a else b
  }

  /** Python's `int(x)` on a number: truncation toward zero. */
  function Trunc(x: real): (n: int)
    ensures x >= 0.0 ==> n as real <= x < n as real + 1.0
    ensures x < 0.0 ==> n as real - 1.0 < x <= n as real
  {
    if x >= 0.0 then x.Floor else -((-x).Floor)
  }

  /** Nearest integer to `y`, ties to the even neighbour, as Python 3's `round`. */
  function RoundInt(y: real): (n: int)
    ensures y - 0.5 <= n as real <= y + 0.5
  {
    var f := y.Floor;
    var frac := y - f as real;
    if frac > 0.5 then f + 1
    else if frac < 0.5 then f
    else if f % 2 == 0 then f else f + 1
  }

  /** `round(x, 3)` */
  function Round3(x: real): real {
    RoundInt(x * 1000.0) as real / 1000.0
  }

  /** `round(x, 2)` */
  function Round2(x: real): real {
    RoundInt(x * 100.0) as real / 100.0
  }

  /** A number with at most three decimals is a fixed point of `round(., 3)`. */
  ghost predicate OnGrid3(x: real) {
    (x * 1000.0).Floor as real == x * 1000.0
  }

  lemma RoundIntOfInt(n: int)
    ensures RoundInt(n as real) == n
  {
  }

  lemma RoundIntMonotone(y: real, z: real)
    requires y <= z
    ensures RoundInt(y) <= RoundInt(z)
  {
    var fy, fz := y.Floor, z.Floor;
    assert fy <= fz;
    if fy < fz {
      assert RoundInt(y) <= fy + 1 <= fz <= RoundInt(z);
    }
  }

  lemma Round3Error(x: real)
    ensures x - 0.0005 <= Round3(x) <= x + 0.0005
  {
  }

  lemma Round3Monotone(x: real, y: real)
    requires x <= y
    ensures Round3(x) <= Round3(y)
  {
    RoundIntMonotone(x * 1000.0, y * 1000.0);
  }

  lemma Round2Monotone(x: real, y: real)
    requires x <= y
    ensures Round2(x) <= Round2(y)
  {
    RoundIntMonotone(x * 100.0, y * 100.0);
  }

  lemma Round3OnGrid(x: real)
    requires OnGrid3(x)
    ensures Round3(x) == x
  {
    var n := (x * 1000.0).Floor;
    RoundIntOfInt(n);
  }

  lemma Round3Idempotent(x: real)
    ensures OnGrid3(Round3(x))
    ensures Round3(Round3(x)) == Round3(x)
  {
    var n := RoundInt(x * 1000.0);
    assert Round3(x) * 1000.0 == n as real;
    Round3OnGrid(Round3(x));
  }

  /** Rounding keeps a value inside an interval whose ends have three decimals. */
  lemma Round3Within(x: real, lo: real, hi: real)
    requires OnGrid3(lo) && OnGrid3(hi)
    requires lo <= x <= hi
    ensures lo <= Round3(x) <= hi
  {
    Round3Monotone(lo, x);
    Round3Monotone(x, hi);
    Round3OnGrid(lo);
    Round3OnGrid(hi);
  }
}
