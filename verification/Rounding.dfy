/** Python's `round`: to the nearest multiple, halves to even. Reals are exact here. */
module Rounding {

  function RoundHalfEven(x: real): int {
    var f := x.Floor;
    var rest := x - f as real;
    if rest < 0.5 then f
    else if rest > 0.5 then f + 1
    else if f % 2 == 0 then f else f + 1
  }

  /** `round(x, 1)` */
  function Round1(x: real): real {
    RoundHalfEven(x * 10.0) as real / 10.0
  }

  /** `round(x, 2)` */
  function Round2(x: real): real {
    RoundHalfEven(x * 100.0) as real / 100.0
  }

  lemma RoundIsClose(x: real)
    ensures -0.5 <= RoundHalfEven(x) as real - x <= 0.5
  {
  }

  /** An integer closer than one half is the result; of two integers at one half, the even one. */
  lemma RoundIsNearest(x: real, n: int)
    requires -0.5 < n as real - x < 0.5 || ((n as real - x == 0.5 || n as real - x == -0.5) && n % 2 == 0)
    ensures RoundHalfEven(x) == n
  {
    assert n == x.Floor || n == x.Floor + 1;
  }

  lemma RoundMonotone(x: real, y: real)
    requires x <= y
    ensures RoundHalfEven(x) <= RoundHalfEven(y)
    ensures Round1(x) <= Round1(y) && Round2(x) <= Round2(y)
  {
    HalfEvenMonotone(x, y);
    HalfEvenMonotone(x * 10.0, y * 10.0);
    HalfEvenMonotone(x * 100.0, y * 100.0);
  }

  lemma HalfEvenMonotone(x: real, y: real)
    requires x <= y
    ensures RoundHalfEven(x) <= RoundHalfEven(y)
  {
    assert x.Floor <= y.Floor;
  }

  predicate IsWhole(x: real) {
    x.Floor as real == x
  }

  /** Two decimals, and none closer. */
  lemma Round2IsNear(x: real)
    ensures -0.005 <= Round2(x) - x <= 0.005
    ensures IsWhole(Round2(x) * 100.0)
  {
    RoundIsClose(x * 100.0);
  }

  /** One decimal, and none closer. */
  lemma Round1IsNear(x: real)
    ensures -0.05 <= Round1(x) - x <= 0.05
    ensures IsWhole(Round1(x) * 10.0)
  {
    RoundIsClose(x * 10.0);
  }

  lemma Round1KeepsTenths(n: int)
    ensures Round1(n as real) == n as real
  {
    RoundIsNearest(n as real * 10.0, n * 10);
  }
}
