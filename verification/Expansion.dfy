/**
 How much memory an expansion asks for (MMgc/GCHeap.cpp:1914-1965), and that what it adds
 to the free lists is in one piece.
 */
module Expansion {
  import opened Options
  import opened Arithmetic
  import opened HeapLayout
  import opened HeapState
  import opened HeapSteps
  import opened RunSearch
  import opened Regions
  import opened Growth

  const PAGE_BYTES: nat := 4096
  const ENTRY_BYTES: nat := 48
  const MIN_HEAP_INCREMENT: nat := 32

  // numHeapBlocksToNumBlocks: the pages that so many entries need.
  function PagesFor(entries: nat): nat {
    (entries * ENTRY_BYTES + PAGE_BYTES - 1) / PAGE_BYTES
  }

  function RoundUp(n: nat, unit: nat): nat
    requires unit > 0
  {
    (n + unit - 1) / unit * unit
  }

  lemma Rounded(n: nat, unit: nat)
    requires unit > 0
    ensures n <= RoundUp(n, unit) < n + unit
    ensures n % unit == 0 <==> RoundUp(n, unit) == n
  {
    var q := (n + unit - 1) / unit;
    assert q * unit == n + unit - 1 - (n + unit - 1) % unit;
    if n % unit == 0 {
      Multiple(n / unit, q, unit);
    } else if RoundUp(n, unit) == n {
      Remainder(q, unit);
    }
  }

  lemma Multiple(a: nat, b: nat, unit: nat)
    requires unit > 0 && a * unit <= b * unit < a * unit + unit
    ensures a == b
  {
    NoMultiple(b - a, unit);
    assert unit * (b - a) == b * unit - a * unit;
  }

  lemma Remainder(q: nat, unit: nat)
    requires unit > 0
    ensures (q * unit) % unit == 0
  {
    Multiple((q * unit) / unit, q, unit);
  }

  lemma MoreEntries(a: nat, b: nat)
    requires a <= b
    ensures PagesFor(a) <= PagesFor(b)
  {
  }

  // Entries are small: twice as many pages' entries need fewer pages than that.
  lemma Settles(n: nat, bound: nat)
    requires n <= 2 * bound && bound >= 2
    ensures PagesFor(n) <= bound
  {
  }

  // The pages to ask for, and whether the array moves to them.  `have` are the pages the
  // array has now, for `len` entries; `extra` leaves room for a sentinel and, if there is
  // none left for region records, for a page of those.
  method ExpansionSize(ask: nat, len: nat, have: nat, extra: nat) returns (size: nat, moves: bool, arrayPages: nat)
    requires ask > 0 && 1 <= extra <= 2
    ensures size >= ask && size % MIN_HEAP_INCREMENT == 0
    ensures PagesFor(len + size + 1) <= if moves then arrayPages else have
    ensures if moves then size >= ask + arrayPages + extra else arrayPages == 0 && size == RoundUp(ask, MIN_HEAP_INCREMENT)
  {
    size := RoundUp(ask, MIN_HEAP_INCREMENT);
    moves := false;
    Rounded(ask, MIN_HEAP_INCREMENT);
    Remainder((ask + MIN_HEAP_INCREMENT - 1) / MIN_HEAP_INCREMENT, MIN_HEAP_INCREMENT);
    var cur := have;
    var need := PagesFor(len + size + extra);
    ghost var bound := len + ask + 2 * extra + MIN_HEAP_INCREMENT;
    Settles(len + size + extra, bound);
    while need > cur
      invariant size >= ask && size % MIN_HEAP_INCREMENT == 0
      invariant need == PagesFor(len + size + extra) <= bound
      invariant if moves then size >= ask + cur + extra else cur == have && size == RoundUp(ask, MIN_HEAP_INCREMENT)
      decreases bound - cur
    {
      size := RoundUp(ask + need + extra, MIN_HEAP_INCREMENT);
      moves := true;
      Rounded(ask + need + extra, MIN_HEAP_INCREMENT);
      Remainder((ask + need + extra + MIN_HEAP_INCREMENT - 1) / MIN_HEAP_INCREMENT, MIN_HEAP_INCREMENT);
      cur := need;
      need := PagesFor(len + size + extra);
      Settles(len + size + extra, bound);
    }
    arrayPages := if moves then cur else 0;
    MoreEntries(len + size + 1, len + size + extra);
  }

  // The pages that are left over for the request are enough, unless the array stays where
  // it is, the request fills whole increments, and a page of them goes to region records.
  lemma LeavesRoom(ask: nat, size: nat, moves: bool, arrayPages: nat, extra: nat, regionPages: nat)
    requires ask > 0 && regionPages <= 1 && regionPages + 1 <= extra
    requires if moves then size >= ask + arrayPages + extra else arrayPages == 0 && size == RoundUp(ask, MIN_HEAP_INCREMENT)
    ensures arrayPages + regionPages < size
    ensures size - arrayPages - regionPages >= ask <==> (moves || regionPages == 0 || ask % MIN_HEAP_INCREMENT != 0)
  {
    Rounded(ask, MIN_HEAP_INCREMENT);
  }

  // ------------------------------------------------------------------ what an expansion adds is one block

  // Pages that are committed and that no block in use has lie in one free block.
  lemma FreeStretch(t: Heap, lo: nat, hi: nat, dirtyPages: bool) returns (h: nat)
    requires Ok(t, dirtyPages, -1, {}) && lo < hi <= |t.os|
    requires forall k :: lo <= k < hi ==> t.os[k].committed && t.os[k].address != 0
    requires forall g :: 0 <= g < |t.bs| && InUse(t, g) ==> g + t.bs[g].size <= lo || hi <= g
    ensures h <= lo && h < |t.bs| && Free(t, h) && t.bs[h].committed && hi <= h + t.bs[h].size
  {
    NoSentinel(t, lo);
    h := Owner(t.bs, lo);
    FreeOwner(t, h, lo, lo, hi, dirtyPages);
    assert EntryOk(t.bs, h, -1) && FreeOk(t, dirtyPages, h);
    var e := h + t.bs[h].size;
    if e < hi {
      NoSentinel(t, e);
      var g := Owner(t.bs, e);
      assert g == e by {
        assert EntryOk(t.bs, e, -1) && EntryOk(t.bs, g, -1);
      }
      FreeOwner(t, g, e, lo, hi, dirtyPages);
      assert false;
    }
  }

  lemma NoSentinel(t: Heap, k: nat)
    requires |t.os| == |t.bs| && k < |t.bs| && t.os[k].address != 0 && PagesOk(t, k)
    ensures !Sentinel(t.bs[k])
  {
  }

  lemma FreeOwner(t: Heap, h: nat, k: nat, lo: nat, hi: nat, dirtyPages: bool)
    requires Ok(t, dirtyPages, -1, {}) && lo <= k < hi <= |t.os| && h <= k < h + t.bs[h].size && h < |t.bs|
    requires t.os[k].committed
    requires forall g :: 0 <= g < |t.bs| && InUse(t, g) ==> g + t.bs[g].size <= lo || hi <= g
    ensures Free(t, h) && t.bs[h].committed
  {
    assert StoreOk(t, h);
  }

  // After an expansion the pages that are left over lie in one free committed block.
  lemma LeftOver(s: Heap, u: Heap, rs: seq<Region>, rs': seq<Region>, how: Acquired, size: nat, L: nat, A: nat, R: nat,
                 freed: int, dirtyPages: bool) returns (h: nat)
    requires MayAcquire(rs, how, size) && R <= 1 && A + R < size
    requires Ok(s, dirtyPages, -1, {}) && Ok(u, dirtyPages, -1, {}) && |s.bs| - 1 <= L
    requires BaseOf(rs, how) > 0
    requires ExpandedUse(s, u, L, A, R, size, freed) && RegionsGrown(s.os, rs, how, size, L, u.os, rs', dirtyPages)
    ensures h < |u.bs| && Suitable(u, h, size - A - R, 1)
  {
    forall g | 0 <= g < |u.bs| && InUse(u, g) ensures g + u.bs[g].size <= L + A + R || L + size <= g {
      if g < L {
        assert SameUse(s, u, g) && EntryOk(s.bs, g, -1);
      }
    }
    h := FreeStretch(u, L + A + R, L + size, dirtyPages);
  }

  // Any answer of the operating system is one it may give.  An array that moves finds in its
  // new memory no stale entry among those of its own pages; what lies behind an array that
  // stays may be anything.
  ghost predicate Answers(rs: seq<Region>, useVirtualMemory: bool, entries: nat, answer: nat -> Option<Acquired>,
                          inNew: nat -> seq<HeapBlock>, behind: nat -> seq<HeapBlock>) {
    forall n: nat {:trigger answer(n)} :: n > 0 ==>
      && (answer(n).Some? ==>
            && MayAcquire(rs, answer(n).value, n)
            && (!useVirtualMemory ==> answer(n).value.NewRegion? && answer(n).value.newSize == n))
      && |inNew(n)| == |behind(n)| == n + 1
      && forall k :: 0 < k < n && k < PagesFor(entries + n + 1) ==> Interior(inNew(n)[k])
  }

  // Of what was in use only the block `freed` is not; all else is as it was.
  ghost predicate SameUsedBut(s: Heap, u: Heap, freed: int) {
    (forall h :: 0 <= h < |s.bs| && h != freed && InUse(s, h) ==> SameUse(s, u, h)) && !InUse(u, freed)
  }

  // A request that is not aligned fits into a block large enough for more.
  lemma FitsToo(s: Heap, h: int, more: nat, size: nat)
    requires Suitable(s, h, more, 1) && size <= more
    ensures Suitable(s, h, size, 1)
  {
  }

  lemma ExpandedSeen(s: Heap, u: Heap, rs: seq<Region>, rs': seq<Region>, how: Acquired, size: nat, L: nat, A: nat, R: nat,
                     freed: int, ask: nat, dirtyPages: bool)
    requires MayAcquire(rs, how, size) && R <= 1 && A + R < size && BaseOf(rs, how) > 0
    requires Ok(s, dirtyPages, -1, {}) && Ok(u, dirtyPages, -1, {}) && |s.bs| - 1 <= L
    requires ExpandedUse(s, u, L, A, R, size, freed) && RegionsGrown(s.os, rs, how, size, L, u.os, rs', dirtyPages)
    ensures SameUsedBut(s, u, freed)
    ensures size - A - R >= ask ==> exists h :: Suitable(u, h, ask, 1)
  {
    forall h | 0 <= h < |s.bs| && h != freed && InUse(s, h) ensures SameUse(s, u, h) {
      assert EntryOk(s.bs, h, -1);
    }
    if size - A - R >= ask {
      var h := LeftOver(s, u, rs, rs', how, size, L, A, R, freed, dirtyPages);
      FitsToo(u, h, size - A - R, ask);
    }
  }
}
