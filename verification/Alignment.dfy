/**
 alignmentSlop (MMgc/GCHeap.cpp:1311-1319): the pages to skip at the start of a block.
 Addresses are page numbers and alignment is a number of pages.
 */
module Alignment {
  import opened Arithmetic

  function Slop(base: nat, alignment: nat): (n: nat)
    requires alignment > 0
    ensures n < alignment && (base + n) % alignment == 0
  {
    SlopIsMultiple(base, alignment);
    (alignment - base % alignment) % alignment
  }

  lemma SlopIsMultiple(base: nat, alignment: nat)
    requires alignment > 0
    ensures (base + (alignment - base % alignment) % alignment) % alignment == 0
  {
    var q, m := base / alignment, base % alignment;
    assert base == alignment * q + m;
    if m > 0 {
      SmallRemainder(alignment - m, alignment);
      MultipleOf(q + 1, alignment);
      assert (q + 1) * alignment == alignment * q + alignment;
    } else {
      MultipleOf(1, alignment);
    }
  }

  lemma SmallRemainder(x: nat, n: nat)
    requires x < n
    ensures x % n == x
  {
  }

  lemma MultipleOf(q: nat, n: nat)
    requires n > 0
    ensures (q * n) % n == 0
  {
    var x := q * n;
    var d := x / n;
    assert x == n * d + x % n;
    assert n * (q - d) == x - n * d;
    NoMultiple(q - d, n);
  }

  lemma SameMultiple(x: int, y: int, n: nat)
    requires n > 0 && x % n == 0 && y % n == 0 && x - n < y < x + n
    ensures x == y
  {
    var p, q := x / n, y / n;
    assert x == n * p && y == n * q;
    assert n * (q - p) == n * q - n * p;
    NoMultiple(q - p, n);
  }

  // Two slops of the same block reach multiples of the alignment, and these are as far
  // apart as the ends of the blocks allow: skipping n pages of the slop leaves the rest.
  lemma SlopAfter(base: nat, n: nat, alignment: nat)
    requires alignment > 0 && n <= Slop(base, alignment)
    ensures Slop(base + n, alignment) == Slop(base, alignment) - n
  {
    SameMultiple(base + Slop(base, alignment), base + n + Slop(base + n, alignment), alignment);
  }

  // Starting n pages later never leaves more room in front of the same end.
  lemma SlopShift(base: nat, n: nat, alignment: nat)
    requires alignment > 0
    ensures Slop(base + n, alignment) + n >= Slop(base, alignment)
  {
    if n <= Slop(base, alignment) {
      SlopAfter(base, n, alignment);
    }
  }
}
