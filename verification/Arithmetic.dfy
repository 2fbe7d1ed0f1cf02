/**
 Products and multiples.
 */
module Arithmetic {

  lemma Product(a: int, b: int, n: nat)
    requires a <= b
    ensures a * n <= b * n
  {
    assert (b - a) * n >= 0;
  }

  // The only multiple of m strictly between -m and m is 0.
  lemma {:induction false} NoMultiple(d: int, m: nat)
    requires m > 0
    ensures d > 0 ==> m * d >= m
    ensures d < 0 ==> m * d <= -(m as int)
    decreases if d < 0 then -d else d
  {
    if d > 1 {
      NoMultiple(d - 1, m);
      assert m * d == m * (d - 1) + m;
    } else if d < -1 {
      NoMultiple(d + 1, m);
      assert m * d == m * (d + 1) - m;
    }
  }
}
