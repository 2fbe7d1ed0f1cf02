/**
 From the address of an item to its index and its mark bits, without division
 (MMgc/GCAlloc.cpp:144-176, 1114-1140; MMgc/GCAlloc-inlines.h:74-168;
 MMgc/GCAlloc.h:255-273).
 */
module IndexArithmetic {
  import opened Arithmetic
  import opened Powers

  const BLOCK_SIZE: nat := 4096

  function ShiftRight(x: nat, k: nat): int {
    x / Pow2(k)
  }

  // ------------------------------------------------------------------ dividing by the item size

  // Multiplying by m and shifting right by s divides by d, for all offsets in a block.
  ghost predicate Divides(d: nat, m: nat, s: nat)
    requires d > 0
  {
    forall x {:trigger x * m} :: 0 <= x < BLOCK_SIZE ==> (x * m) / Pow2(s) == x / d
  }

  // The power of two is large enough for the error of the multiplier not to show.
  lemma MultiplyShift(d: nat, s: nat, x: nat)
    requires d > 0 && x < BLOCK_SIZE && Pow2(s) > (BLOCK_SIZE - 1) * d
    ensures (x * (Pow2(s) / d + 1)) / Pow2(s) == x / d
  {
    MultiplyBy(x, d, Pow2(s));
  }

  lemma MultiplyBy(x: nat, d: nat, S: nat)
    requires d > 0 && x < BLOCK_SIZE && S > (BLOCK_SIZE - 1) * d
    ensures S > 0 && (x * (S / d + 1)) / S == x / d
  {
    DivisionError(S, d);
    Quotient(x, d);
    var m := S / d + 1;
    MultiplyCore(x, d, S, m, x / d, m * d - S);
  }

  lemma MultiplyCore(x: nat, d: nat, S: nat, m: nat, a: nat, e: nat)
    requires d > 0 && S > 0 && m * d == S + e && e <= d && d * a <= x < d * a + d
    requires x < BLOCK_SIZE && S > (BLOCK_SIZE - 1) * d
    ensures (x * m) / S == a
  {
    assert (a + 1) * d == d * a + d;
    var over := (a + 1) * d - x;
    ErrorSmall(x, e, d, S, over);
    AtLeast(x, m, d, S, a, e);
    Below(x, m, d, S, a, e, over);
    InBetween(x * m, a, S);
  }

  lemma Quotient(x: nat, d: nat)
    requires d > 0
    ensures d * (x / d) <= x < d * (x / d) + d
    ensures (x / d + 1) * d == d * (x / d) + d
  {
  }

  lemma DivisionError(S: nat, d: nat)
    requires d > 0
    ensures 0 < (S / d + 1) * d - S <= d
  {
    Quotient(S, d);
  }

  lemma ErrorSmall(x: nat, e: nat, d: nat, S: nat, over: nat)
    requires x < BLOCK_SIZE && e <= d && S > (BLOCK_SIZE - 1) * d && over >= 1
    ensures x * e < over * S
  {
    Product(x, BLOCK_SIZE - 1, e);
    Product(e, d, BLOCK_SIZE - 1);
    Product(1, over, S);
  }

  lemma Cancel(a: int, b: int, d: nat)
    requires d > 0
    ensures a * d < b * d ==> a < b
    ensures a * d <= b * d ==> a <= b
  {
    if a >= b {
      Product(b, a, d);
    }
    if a > b {
      Product(b + 1, a, d);
      assert (b + 1) * d == b * d + d;
    }
  }

  lemma AtLeast(x: nat, m: nat, d: nat, S: nat, a: nat, e: nat)
    requires d > 0 && m * d == S + e && d * a <= x
    ensures a * S <= x * m
  {
    assert (x * m) * d == x * (m * d) == x * S + x * e;
    Product(d * a, x, S);
    assert (a * S) * d == (d * a) * S;
    Cancel(a * S, x * m, d);
  }

  lemma Below(x: nat, m: nat, d: nat, S: nat, a: nat, e: nat, over: nat)
    requires d > 0 && m * d == S + e && over == (a + 1) * d - x && x * e < over * S
    ensures x * m < (a + 1) * S
  {
    assert (x * m) * d == x * (m * d) == x * S + x * e;
    assert ((a + 1) * S) * d == ((a + 1) * d) * S == (x + over) * S == x * S + over * S;
    Cancel(x * m, (a + 1) * S, d);
  }

  lemma InBetween(y: nat, a: nat, S: nat)
    requires S > 0 && a * S <= y < (a + 1) * S
    ensures y / S == a
  {
    var q := y / S;
    Quotient(y, S);
    assert S * q == q * S;
    Cancel(q, a + 1, S);
    Cancel(a, q + 1, S);
  }

  lemma Pow29()
    ensures Pow2(29) == 0x2000_0000
  {
    assert Pow2(8) == 256 && Pow2(5) == 32;
    Pow2Sum(8, 8);
    Pow2Sum(16, 8);
    Pow2Sum(24, 5);
  }

  // Up to here the shift fits in a 32-bit integer.
  lemma ShiftFits(d: nat, s: nat)
    requires 0 < d < 0x1_0000 && Pow2(s) / d + 1 < 0x2000
    ensures s < 29
  {
    var S, q := Pow2(s), Pow2(s) / d;
    Quotient(S, d);
    assert S < (q + 1) * d;
    Product(q + 1, 0x1FFF, d);
    assert S < 0x1FFF * d;
    if s >= 29 {
      Pow29();
      Pow2Monotone(29, s);
    }
  }

  lemma LargeEnough(d: nat, s: nat)
    requires d > 0 && s > 0 && Pow2(s) / d + 1 >= 0x2000
    ensures Pow2(s - 1) > (BLOCK_SIZE - 1) * d
  {
    Quotient(Pow2(s), d);
    Product(0x1FFF, Pow2(s) / d, d);
    assert Pow2(s) == 2 * Pow2(s - 1);
  }

  lemma FirstQuotient(d: nat)
    requires d > 0
    ensures Pow2(1) / d + 1 <= 3
  {
    Quotient(2, d);
    if 2 / d > 2 {
      Product(3, 2 / d, d);
    }
    assert Pow2(1) == 2;
  }

  // The loop that chooses the multiplier: the last one that fits in 13 bits.
  method ComputeMultiplyShift(d: nat) returns (muli: nat, shft: nat)
    requires 1 <= d < 0x1_0000
    ensures Divides(d, muli, shft) && muli < 0x2000 && shft < 29
  {
    var s, n, m := 0, 0, 0;
    while n < 0x2000
      invariant s <= 29 && m < 0x2000
      invariant n == if s == 0 then 0 else Pow2(s) / d + 1
      invariant s >= 2 ==> m == Pow2(s - 1) / d + 1
      decreases 30 - s
    {
      if s > 0 {
        ShiftFits(d, s);
      }
      m := n;
      n := Pow2(s + 1) / d + 1;
      s := s + 1;
    }
    FirstQuotient(d);
    shft := s - 1;
    muli := m;
    LargeEnough(d, s);
    forall x {:trigger x * muli} | 0 <= x < BLOCK_SIZE ensures (x * muli) / Pow2(shft) == x / d {
      MultiplyShift(d, shft, x);
    }
  }

  // ------------------------------------------------------------------ the index of an item

  function ObjectIndex(offset: nat, multiple: nat, shift: nat): int {
    ShiftRight(offset * multiple, shift)
  }

  // GetObjectIndex of any address in an item is the number of the item, and FindBeginning
  // leads back to its start.
  lemma IndexOfInterior(size: nat, multiple: nat, shift: nat, i: nat, r: nat)
    requires size > 0 && Divides(size, multiple, shift) && r < size && i * size + r < BLOCK_SIZE
    ensures ObjectIndex(i * size + r, multiple, shift) == i
    ensures size * ObjectIndex(i * size + r, multiple, shift) == i * size
  {
    var x := i * size + r;
    assert (i + 1) * size == i * size + size;
    InBetween(x, i, size);
    assert (x * multiple) / Pow2(shift) == x / size;
  }

  // ------------------------------------------------------------------ the mark bits of an item

  method Log2(n: nat) returns (result: nat)
    requires n > 0
    ensures Pow2(result) <= n < Pow2(result + 1)
  {
    result := 0;
    var k := n;
    while k > 1
      invariant k >= 1 && k * Pow2(result) <= n < (k + 1) * Pow2(result)
    {
      Halve(k, Pow2(result), n);
      result := result + 1;
      k := k / 2;
    }
  }

  lemma Halve(k: nat, p: nat, n: nat)
    requires k > 1 && p > 0 && k * p <= n < (k + 1) * p
    ensures (k / 2) * (2 * p) <= n < (k / 2 + 1) * (2 * p)
  {
    var h := k / 2;
    assert h * (2 * p) == (2 * h) * p && (h + 1) * (2 * p) == (2 * h + 2) * p;
    Product(2 * h, k, p);
    Product(k + 1, 2 * h + 2, p);
  }

  // Items fill the block from its end.
  function ItemOffset(i: nat, size: nat, count: nat): int {
    BLOCK_SIZE - (count - i) * size
  }

  // For an offset within the block, as all that are used are.
  function BitsIndex(offset: nat, bitsShift: nat): int {
    ShiftRight(offset % BLOCK_SIZE, bitsShift)
  }

  // The bitmap has room for every item, and no two items share an entry.
  lemma BitsIndexInjective(size: nat, count: nat, header: nat, k: nat, i: nat, j: nat)
    requires size > 0 && Pow2(k) <= size && count * size + header <= BLOCK_SIZE && header > 0 && i < j < count
    ensures 0 < ItemOffset(i, size, count) < BLOCK_SIZE && 0 < ItemOffset(j, size, count) < BLOCK_SIZE
    ensures BitsIndex(ItemOffset(i, size, count), k) < BitsIndex(ItemOffset(j, size, count), k)
  {
    OffsetInBlock(size, count, header, i);
    OffsetInBlock(size, count, header, j);
    OffsetsApart(size, count, i, j);
    ShiftApart(ItemOffset(i, size, count), ItemOffset(j, size, count), k);
  }

  lemma OffsetsApart(size: nat, count: nat, i: nat, j: nat)
    requires i < j
    ensures ItemOffset(i, size, count) + size <= ItemOffset(j, size, count)
  {
    assert (count - i) * size - (count - j) * size == (j - i) * size;
    Product(1, j - i, size);
  }

  lemma ShiftApart(a: nat, b: nat, k: nat)
    requires a + Pow2(k) <= b < BLOCK_SIZE
    ensures BitsIndex(a, k) < BitsIndex(b, k)
  {
    var p := Pow2(k);
    assert a < BLOCK_SIZE && a % BLOCK_SIZE == a && b % BLOCK_SIZE == b;
    Apart(a, b, p);
  }

  lemma OffsetInBlock(size: nat, count: nat, header: nat, i: nat)
    requires size > 0 && count * size + header <= BLOCK_SIZE && header > 0 && i < count
    ensures 0 < ItemOffset(i, size, count) < BLOCK_SIZE && ItemOffset(i, size, count) >= header
  {
    Product(count - i, count, size);
    Product(1, count - i, size);
  }

  lemma Apart(a: nat, b: nat, p: nat)
    requires p > 0 && a + p <= b
    ensures a / p < b / p
  {
    Quotient(a, p);
    Quotient(b, p);
    assert p * (a / p) == (a / p) * p && p * (b / p) == (b / p) * p;
    assert (b / p + 1) * p == (b / p) * p + p;
    Cancel(a / p + 1, b / p + 1, p);
  }

  // An entry of the bitmap is inside it, and the bitmap kept in the block, between the
  // header and the items, reaches neither.
  lemma BitsIndexInside(size: nat, count: nat, header: nat, k: nat, i: nat)
    requires size > 0 && Pow2(k) <= size < Pow2(k + 1) && count * size + header <= BLOCK_SIZE && header > 0 && i < count
    ensures BitsIndex(ItemOffset(i, size, count), k) < BLOCK_SIZE / Pow2(k)
    ensures BLOCK_SIZE - (count * size + header) >= BLOCK_SIZE / Pow2(k) ==>
              header + BitsIndex(ItemOffset(i, size, count), k) < ItemOffset(0, size, count)
  {
    OffsetInBlock(size, count, header, i);
    Product(1, count, size);
    BitmapSize(k, size);
    var p, q := Pow2(k), BLOCK_SIZE / Pow2(k);
    var a := ItemOffset(i, size, count);
    Quotient(a, p);
    assert p * (a / p) == (a / p) * p;
    Cancel(a / p, q, p);
  }

  lemma BitmapSize(k: nat, size: nat)
    requires Pow2(k) <= size <= BLOCK_SIZE
    ensures BLOCK_SIZE == (BLOCK_SIZE / Pow2(k)) * Pow2(k)
  {
    assert Pow2(12) == BLOCK_SIZE;
    if k > 12 {
      Pow2Monotone(13, k);
    }
    Pow2Sum(12 - k, k);
    var p, q := Pow2(k), Pow2(12 - k);
    assert q * p == BLOCK_SIZE;
    assert (q + 1) * p == q * p + p;
    InBetween(BLOCK_SIZE, q, p);
  }
}
