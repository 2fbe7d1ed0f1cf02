/**
 The probe sequence of GCHashtable (MMgc/GCHashtable-inlines.h:105-128, 155-177): the n-th
 slot tried for a hash h in a table of S slots is (h + n (n + 1) / 2) mod S.
 */
module Probing {
  import opened Sets
  import opened Arithmetic
  import opened Powers

  function Triangular(n: nat): nat {
    if n == 0 then 0 else Triangular(n - 1) + n
  }

  function Probe(h: nat, n: nat, size: nat): (i: nat)
    requires size > 0
    ensures i < size
  {
    (h + Triangular(n)) % size
  }

  // A step of the probe loop: n is increased before it is added.
  lemma ProbeStep(h: nat, n: nat, size: nat)
    requires size > 0
    ensures (Probe(h, n, size) + (n + 1)) % size == Probe(h, n + 1, size)
  {
    AddMod(h + Triangular(n), n + 1, size);
  }

  lemma AddMod(a: nat, b: nat, m: nat)
    requires m > 0
    ensures (a % m + b) % m == (a + b) % m
  {
    var q := a / m;
    assert a == m * q + a % m;
    SameMod(a % m + b, q, m);
  }

  lemma {:induction false} SameMod(a: nat, q: nat, m: nat)
    requires m > 0
    ensures (a + m * q) % m == a % m
  {
    if q > 0 {
      SameMod(a, q - 1, m);
      assert m * q == m * (q - 1) + m;
      StepMod(a + m * (q - 1), m);
    }
  }

  lemma StepMod(a: nat, m: nat)
    requires m > 0
    ensures (a + m) % m == a % m
  {
    var q, r := a / m, a % m;
    assert a + m == m * (q + 1) + r;
    UniqueMod(a + m, q + 1, r, m);
  }

  lemma UniqueMod(a: int, q: int, r: int, m: nat)
    requires m > 0 && a == m * q + r && 0 <= r < m
    ensures a % m == r
  {
    var d := a / m - q;
    assert m * d == r - a % m by {
      assert a == m * (a / m) + a % m;
      assert m * (a / m) - m * q == m * d;
    }
    NoMultiple(d, m);
  }

  // An odd factor takes no part in making a product divisible by a power of two.
  lemma {:induction false} OddFactor(x: nat, y: nat, k: nat, q: nat) returns (m: nat)
    requires x % 2 == 1 && x * y == q * Pow2(k)
    ensures y == m * Pow2(k)
  {
    if k == 0 {
      m := y;
    } else {
      var half := Pow2(k - 1);
      assert x * y == 2 * (q * half);
      EvenProduct(x, y);
      var z := y / 2;
      assert x * y == 2 * (x * z);
      m := OddFactor(x, z, k - 1, q);
      assert m * Pow2(k) == 2 * (m * half);
    }
  }

  lemma EvenProduct(x: nat, y: nat)
    requires x % 2 == 1 && (x * y) % 2 == 0
    ensures y % 2 == 0
  {
    var a := x / 2;
    assert x * y == 2 * (a * y) + y by {
      assert x == 2 * a + 1;
    }
  }

  lemma {:induction false} TriangularTwice(n: nat)
    ensures 2 * Triangular(n) == n * (n + 1)
  {
    if n > 0 {
      TriangularTwice(n - 1);
    }
  }

  lemma Difference(a: nat, b: nat)
    requires a < b
    ensures 2 * Triangular(b) - 2 * Triangular(a) == (b - a) * (b + a + 1)
  {
    TriangularTwice(a);
    TriangularTwice(b);
    assert (b - a) * (b + a + 1) == b * (b + 1) - a * (a + 1);
  }

  lemma SameRemainder(x: nat, y: nat, m: nat) returns (c: int)
    requires m > 0 && x % m == y % m
    ensures y - x == m * c
  {
    c := y / m - x / m;
    assert y == m * (y / m) + y % m && x == m * (x / m) + x % m;
    assert m * (y / m) - m * (x / m) == m * c;
  }

  lemma FactorsTooSmall(d: nat, e: nat, k: nat, c: nat)
    requires 0 < d < Pow2(k) && 0 < e < Pow2(k) && d % 2 != e % 2
    ensures d * e != c * Pow2(k)
  {
    var P := Pow2(k);
    if d * e == c * P {
      var m;
      if d % 2 == 1 {
        m := OddFactor(d, e, k, c);
      } else {
        assert e * d == c * P;
        m := OddFactor(e, d, k, c);
      }
      NoMultiple(m, P);
    }
  }

  lemma PositiveProduct(d: nat, e: nat)
    requires d > 0 && e > 0
    ensures d * e > 0
  {
  }

  lemma MultiplyOut(x: int, c: int, S: nat)
    requires S > 0 && x == 2 * (S * c) && x > 0
    ensures c > 0 && x == c * (2 * S)
  {
    if c <= 0 {
      NoMultiple(c, S);
    }
  }

  lemma GapTooSmall(d: nat, e: nat, k: nat, c: int)
    requires 0 < d < Pow2(k + 1) && 0 < e < Pow2(k + 1) && d % 2 != e % 2
    ensures d * e != 2 * (Pow2(k) * c)
  {
    if d * e == 2 * (Pow2(k) * c) {
      PositiveProduct(d, e);
      MultiplyOut(d * e, c, Pow2(k));
      FactorsTooSmall(d, e, k + 1, c);
    }
  }

  // Two probes less than S apart never meet, if S is a power of two.
  lemma ProbesDiffer(h: nat, a: nat, b: nat, k: nat)
    requires a < b < Pow2(k)
    ensures Probe(h, a, Pow2(k)) != Probe(h, b, Pow2(k))
  {
    var S := Pow2(k);
    var x, y := h + Triangular(a), h + Triangular(b);
    Difference(a, b);
    if x % S == y % S {
      var c := SameRemainder(x, y, S);
      GapTooSmall(b - a, b + a + 1, k, c);
    }
  }

  // The slots tried first.
  ghost function Probes(h: nat, n: nat, k: nat): (r: set<nat>)
    requires n <= Pow2(k)
    ensures |r| == n
    ensures forall i :: i in r ==> i < Pow2(k)
    ensures forall i :: i in r <==> exists m :: 0 <= m < n && Probe(h, m, Pow2(k)) == i
  {
    if n == 0 then {}
    else
      var i := Probe(h, n - 1, Pow2(k));
      assert i !in Probes(h, n - 1, k) by {
        forall m | 0 <= m < n - 1 ensures Probe(h, m, Pow2(k)) != i {
          ProbesDiffer(h, m, n - 1, k);
        }
      }
      Probes(h, n - 1, k) + {i}
  }

  // The first S probes visit every slot.
  lemma ProbesCover(h: nat, k: nat, i: nat) returns (n: nat)
    requires i < Pow2(k)
    ensures n < Pow2(k) && Probe(h, n, Pow2(k)) == i
  {
    var all := Probes(h, Pow2(k), k);
    assert all <= Below(Pow2(k));
    SubsetFull(all, Below(Pow2(k)));
    assert i in all;
    n :| 0 <= n < Pow2(k) && Probe(h, n, Pow2(k)) == i;
  }

  // At the load where a table is grown at the latest, an empty slot remains exactly if the
  // table has at least four slots: (n - 1) values are below three quarters, n fit.
  lemma EmptySlotRemains(k: nat)
    ensures (forall n: nat {:trigger n * 4} :: n > 0 && (n - 1) * 4 < Pow2(k) * 3 ==> n < Pow2(k)) <==> Pow2(k) >= 4
  {
    var S := Pow2(k);
    assert Pow2(0) == 1 && Pow2(1) == 2;
    assert k >= 2 ==> Pow2(k) == 4 * Pow2(k - 2);
    if S < 4 {
      assert S == 1 || S == 2;
      assert (S - 1) * 4 < S * 3 && S * 4 >= 0;
    } else {
      assert S % 4 == 0;
    }
  }
}
