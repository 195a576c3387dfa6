/** Rounding to whole rials, half to even. */
module Rounding {

  function Round(x: real): int
  {
    var down := x.Floor;
    var part := x - down as real;
    if part < 0.5 then down
    else if part > 0.5 then down + 1
    else if down % 2 == 0 then down
    else down + 1
  }

  predicate IsHalf(x: real)
  {
    x - x.Floor as real == 0.5
  }

  lemma RoundIsNearest(x: real)
    ensures -0.5 <= Round(x) as real - x <= 0.5
  {
  }

  lemma RoundOfWhole(n: int)
    ensures Round(n as real) == n
  {
  }

  lemma FloorShift(x: real, k: int)
    ensures (x - k as real).Floor == x.Floor - k
  {
  }

  /** Rounding commutes with taking away whole rials, except that half a rial is rounded the
      other way when the whole number is odd. */
  lemma RoundShift(x: real, k: int)
    ensures -1 <= Round(x - k as real) - (Round(x) - k) <= 1
    ensures Round(x - k as real) == Round(x) - k <==> !(IsHalf(x) && k % 2 != 0)
  {
    FloorShift(x, k);
  }

  /** What rounds to a positive amount, and what to a non-negative one. */
  lemma RoundSign(x: real)
    ensures Round(x) > 0 <==> x > 0.5
    ensures Round(x) >= 0 <==> x >= -0.5
  {
  }

  /** Exactly between two whole amounts, the even one is taken. */
  lemma HalfToEven(n: int)
    ensures Round(n as real + 0.5) == if n % 2 == 0 then n else n + 1
  {
    assert (n as real + 0.5).Floor == n;
  }
}
