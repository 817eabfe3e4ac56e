/** The JavaScript number operations the core relies on, over exact reals
    and unbounded integers: `Math.round`, `Math.min`/`Math.max` clamps and
    `Number(x.toFixed(2))`. Floating-point rounding error is not modelled;
    every fractional constant of the source is an exact decimal here. */
module Numeric {

  /** `Math.round`: the nearest integer, a half rounded up (towards +inf). */
  function Round(x: real): (r: int)
    ensures r as real - 0.5 <= x < r as real + 0.5
  {
    (x + 0.5).Floor
  }

  lemma RoundMonotone(x: real, y: real)
    requires x <= y
    ensures Round(x) <= Round(y)
  {
  }

  /** Rounding leaves an integer unchanged. */
  lemma RoundOfInt(n: int)
    ensures Round(n as real) == n
  {
  }

  function MinInt(a: int, b: int): int { if a <= b then a else b }
  function MaxInt(a: int, b: int): int { if a >= b then a else b }
  function MinReal(a: real, b: real): real { if a <= b then a else b }
  function MaxReal(a: real, b: real): real { if a >= b then a else b }

  /** `Math.max(lo, Math.min(hi, x))` */
  function Clamp(lo: int, hi: int, x: int): (r: int)
    requires lo <= hi
    ensures lo <= r <= hi
    ensures lo <= x <= hi ==> r == x
    ensures x < lo ==> r == lo
    ensures hi < x ==> r == hi
  {
    MaxInt(lo, MinInt(hi, x))
  }

  lemma ClampMonotone(lo: int, hi: int, x: int, y: int)
    requires lo <= hi && x <= y
    ensures Clamp(lo, hi, x) <= Clamp(lo, hi, y)
  {
  }

  /** A value with at most two decimals, as `toFixed(2)` produces. */
  predicate IsHundredths(x: real) {
    (x * 100.0).Floor as real == x * 100.0
  }

  /** n hundredths. */
  function Hundredths(n: int): (r: real)
    ensures r * 100.0 == n as real
    ensures IsHundredths(r)
  {
    n as real / 100.0
  }

  /** `Number(x.toFixed(2))`: the magnitude is rounded to the nearest
      hundredth with a half rounded up, and the sign is put back. */
  function ToFixed2(x: real): (r: real)
    ensures IsHundredths(r)
    ensures -0.005 <= r - x <= 0.005
    ensures x >= 0.0 ==> r >= 0.0
    ensures x <= 0.0 ==> r <= 0.0
  {
    if x < 0.0 then Hundredths(-Round(-x * 100.0)) else Hundredths(Round(x * 100.0))
  }

  lemma ToFixed2Monotone(x: real, y: real)
    requires x <= y
    ensures ToFixed2(x) <= ToFixed2(y)
  {
    if x < 0.0 && y < 0.0 {
      RoundMonotone(-y * 100.0, -x * 100.0);
    } else if 0.0 <= x {
      RoundMonotone(x * 100.0, y * 100.0);
    }
  }

  /** `toFixed(2)` is the identity on a value that already has at most two
      decimals. */
  lemma ToFixed2OfHundredths(x: real)
    requires IsHundredths(x)
    ensures ToFixed2(x) == x
  {
    var n := (x * 100.0).Floor;
    if x < 0.0 {
      assert -x * 100.0 == (-n) as real;
      RoundOfInt(-n);
    } else {
      RoundOfInt(n);
    }
  }

  /** Adding a value with two decimals to another keeps two decimals. */
  lemma HundredthsAdd(x: real, y: real)
    requires IsHundredths(x) && IsHundredths(y)
    ensures IsHundredths(x + y)
  {
    var a, b := (x * 100.0).Floor, (y * 100.0).Floor;
    assert (x + y) * 100.0 == (a + b) as real;
  }
}
