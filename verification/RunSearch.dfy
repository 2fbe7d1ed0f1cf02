/**
 Which free blocks an allocation may take: a single committed block, or a run of free
 blocks (MMgc/GCHeap.cpp:1418-1488).
 */
module RunSearch {
  import opened HeapLayout
  import opened FreeLists
  import opened HeapState
  import opened HeapSteps
  import opened Coalescing
  import opened RunAssembly
  import opened Alignment

  // A committed free block that can hold an aligned piece of this size.
  ghost predicate Suitable(s: Heap, h: int, size: nat, alignment: nat)
    requires alignment > 0
  {
    0 <= h < |s.bs| && Free(s, h) && s.bs[h].committed && s.bs[h].size >= size + Slop(s.bs[h].base, alignment)
  }

  ghost predicate NoPred(s: Heap, h: int) {
    forall g :: 0 <= g < |s.bs| && Free(s, g) ==> g + s.bs[g].size != h
  }

  // A run of free blocks with room for an aligned piece.  If a free block precedes the run
  // the pages in front of the piece all lie in the first block of the run.
  ghost predicate Roomy(s: Heap, lo: nat, hi: nat, size: nat, alignment: nat)
    requires alignment > 0
  {
    && lo < hi && lo < |s.bs| && RunTo(s, lo, hi)
    && hi - lo >= size + Slop(s.bs[lo].base, alignment)
    && (Slop(s.bs[lo].base, alignment) <= s.bs[lo].size || NoPred(s, lo))
  }

  // The free blocks around b, all taken together, have no room for an aligned piece.
  ghost predicate Cramped(s: Heap, b: int, lo: nat, hi: nat, size: nat, alignment: nat)
    requires alignment > 0
  {
    && lo <= b < hi && lo < |s.bs| && RunTo(s, lo, hi)
    && NoPred(s, lo) && !Free(s, hi)
    && hi - lo < size + Slop(s.bs[lo].base, alignment)
  }

  ghost predicate Hopeless(s: Heap, b: int, size: nat, alignment: nat)
    requires alignment > 0
  {
    exists lo, hi :: 0 <= lo < hi && Cramped(s, b, lo, hi, size, alignment)
  }

  ghost predicate RoomFrom(s: Heap, first: nat, size: nat, alignment: nat)
    requires alignment > 0
  {
    exists e: nat :: Roomy(s, first, e, size, alignment)
  }

  lemma RunResult(s: Heap, b: nat, found: bool, first: nat, hi: nat, size: nat, alignment: nat)
    requires alignment > 0
    requires if found then Roomy(s, first, hi, size, alignment) else Cramped(s, b, first, hi, size, alignment)
    ensures if found then RoomFrom(s, first, size, alignment) else Hopeless(s, b, size, alignment)
  {
  }

  // No list before place (i, k), from the list of this size on, holds a suitable
  // committed block, nor, if all is exhausted, a decommitted one that is of use.
  ghost predicate Searched(s: Heap, i: nat, k: nat, size: nat, alignment: nat, exhausted: bool)
    requires alignment > 0 && size > 0
  {
    forall j, m {:trigger s.lists[j][m]} ::
      ListIndex(size) <= j <= i && j < |s.lists| && 0 <= m < |s.lists[j]| && (j < i || m < k) ==>
        && !Suitable(s, s.lists[j][m], size, alignment)
        && (exhausted && s.lists[j][m] < |s.bs| && !s.bs[s.lists[j][m]].committed ==>
              Hopeless(s, s.lists[j][m], size, alignment))
  }

  lemma {:induction false} RunLonger(s: Heap, h: nat, e: nat)
    requires RunTo(s, h, e) && e < |s.bs| && Free(s, e) && Head(s.bs[e])
    ensures RunTo(s, h, e + s.bs[e].size)
    decreases e - h
  {
    if h < e {
      RunLonger(s, h + s.bs[h].size, e);
    } else {
      assert RunTo(s, e + s.bs[e].size, e + s.bs[e].size);
    }
  }

  // No piece of a run that has no room has room: where the pages in front of a piece end
  // does not depend on the block the run is taken to start with.
  lemma {:induction false} NoRoomInside(s: Heap, lo: nat, mid: nat, hi: nat, size: nat, alignment: nat)
    requires Tiled(s.bs, -1) && alignment > 0 && lo < |s.bs| && mid < |s.bs|
    requires lo <= mid && RunTo(s, lo, mid) && Head(s.bs[mid])
    requires hi - lo < size + Slop(s.bs[lo].base, alignment)
    ensures hi - mid < size + Slop(s.bs[mid].base, alignment)
    decreases mid - lo
  {
    if lo < mid {
      assert EntryOk(s.bs, lo, -1);
      var next := lo + s.bs[lo].size;
      assert RunTo(s, next, mid);
      SlopShift(s.bs[lo].base, s.bs[lo].size, alignment);
      assert next == mid || Free(s, next);
      NoRoomInside(s, next, mid, hi, size, alignment);
    }
  }

  // The walk to the right goes over one more free block, which is never the last entry.
  lemma StepRight(s: Heap, dirtyPages: bool, first: nat, next: nat)
    requires Ok(s, dirtyPages, -1, {}) && RunTo(s, first, next) && Free(s, next)
    ensures Head(s.bs[next]) && next + s.bs[next].size < |s.bs| && RunTo(s, first, next + s.bs[next].size)
  {
    assert FreeOk(s, dirtyPages, next) && EntryOk(s.bs, next, -1);
    RunLonger(s, first, next);
  }

  lemma FreeHasSize(s: Heap, dirtyPages: bool, h: nat)
    requires Ok(s, dirtyPages, -1, {}) && h < |s.bs|
    ensures Free(s, h) ==> s.bs[h].size > 0
  {
    assert FreeOk(s, dirtyPages, h);
  }

  // A free block is a run.
  lemma StartLeft(s: Heap, dirtyPages: bool, b: nat)
    requires Ok(s, dirtyPages, -1, {}) && Free(s, b)
    ensures Head(s.bs[b]) && RunTo(s, b, b + s.bs[b].size) && s.bs[b].sizePrevious <= b && b + s.bs[b].size < |s.bs|
  {
    assert FreeOk(s, dirtyPages, b) && EntryOk(s.bs, b, -1);
    assert RunTo(s, b + s.bs[b].size, b + s.bs[b].size);
  }

  // What the walk to the left keeps: when there is room, it is in the first block that the
  // pages in front of the piece lie.
  lemma StepLeft(s: Heap, dirtyPages: bool, first: nat, e: nat, size: nat, alignment: nat)
    requires Ok(s, dirtyPages, -1, {}) && alignment > 0 && first < |s.bs| && Head(s.bs[first]) && RunTo(s, first, e)
    requires 0 < s.bs[first].sizePrevious <= first && Free(s, first - s.bs[first].sizePrevious)
    requires e - first < size + Slop(s.bs[first].base, alignment)
    ensures var prev := first - s.bs[first].sizePrevious;
            && Head(s.bs[prev]) && prev + s.bs[prev].size == first && RunTo(s, prev, e) && s.bs[prev].sizePrevious <= prev
            && (e - prev >= size + Slop(s.bs[prev].base, alignment) ==> Slop(s.bs[prev].base, alignment) <= s.bs[prev].size)
  {
    var prev := first - s.bs[first].sizePrevious;
    assert EntryOk(s.bs, first, -1) && EntryOk(s.bs, prev, -1) && FreeOk(s, dirtyPages, prev);
    if Slop(s.bs[prev].base, alignment) > s.bs[prev].size {
      SlopAfter(s.bs[prev].base, s.bs[prev].size, alignment);
    }
  }

  // A block whose boundary tag shows no free block before it has none.
  lemma NoPredHere(s: Heap, h: nat, dirtyPages: bool)
    requires Ok(s, dirtyPages, -1, {}) && h < |s.bs| && Head(s.bs[h])
    requires s.bs[h].sizePrevious <= h
    requires s.bs[h].sizePrevious == 0 || !Free(s, h - s.bs[h].sizePrevious) || s.bs[h - s.bs[h].sizePrevious].size == 0
    ensures NoPred(s, h)
  {
    forall g | 0 <= g < |s.bs| && Free(s, g) ensures g + s.bs[g].size != h {
      assert FreeOk(s, dirtyPages, g);
      if g + s.bs[g].size == h {
        Predecessor(s, g, h, -1);
      }
    }
  }

  lemma OnePredecessor(bs: seq<HeapBlock>, g: nat, h: nat)
    requires Tiled(bs, -1) && g < |bs| && h < |bs| && Head(bs[g]) && Head(bs[h]) && g + bs[g].size == h + bs[h].size
    ensures g == h
  {
    assert EntryOk(bs, g, -1) && EntryOk(bs, h, -1);
  }

  // Where there is a page before a block, a block ends there.
  lemma RealPredecessor(s: Heap, h: nat, dirtyPages: bool)
    requires Ok(s, dirtyPages, -1, {}) && 0 < h < |s.bs| && Head(s.bs[h]) && s.os[h - 1].address != 0
    ensures var p := h - s.bs[h].sizePrevious; 0 <= p < h && Head(s.bs[p]) && p + s.bs[p].size == h
  {
    assert EntryOk(s.bs, h, -1) && PagesOk(s, h - 1);
  }

  // After the run has become one block there is still no free block before it.
  lemma NoPredCreated(s0: Heap, s: Heap, F: nat, e: nat, size: nat, dirtyPages: bool)
    requires Ok(s0, dirtyPages, -1, {}) && F < |s0.bs| && Head(s0.bs[F]) && NoPred(s0, F)
    requires Created(s0, s, F, e, size, dirtyPages)
    ensures NoPred(s, F)
  {
    forall h | 0 <= h < |s.bs| && Free(s, h) ensures h + s.bs[h].size != F {
      assert FreeOk(s, dirtyPages, h);
      if h + s.bs[h].size == F {
        assert EntryOk(s.bs, h, -1) && PagesOk(s, h);
        assert s.os[F - 1].address == s.bs[h].base + s.bs[h].size - 1;
        RealPredecessor(s0, F, dirtyPages);
        var p := F - s0.bs[F].sizePrevious;
        assert SameUse(s0, s, p);
        OnePredecessor(s.bs, p, h);
      }
    }
  }

  // The pages in front of the piece may go back even next to a clean committed block.
  lemma SlopSafeCreated(s0: Heap, s: Heap, F: nat, e: nat, size: nat, alignment: nat, dirtyPages: bool)
    requires Ok(s0, dirtyPages, -1, {}) && alignment > 0 && F < |s0.bs| && Roomy(s0, F, e, size, alignment)
    requires Created(s0, s, F, e, size + Slop(s0.bs[F].base, alignment), dirtyPages)
    ensures SlopSafe(s, F, Slop(s0.bs[F].base, alignment))
  {
    var n := Slop(s0.bs[F].base, alignment);
    if n > s0.bs[F].size {
      NoPredCreated(s0, s, F, e, size + n, dirtyPages);
    } else {
      forall h | 0 <= h < |s.bs| && Free(s, h) && h + s.bs[h].size == F && s.bs[h].committed && !s.bs[h].dirty
        ensures Zero(s, F, F + n)
      {
        assert FreeOk(s, dirtyPages, h);
      }
    }
  }

  // A committed free block: no committed free block can precede it.
  lemma SlopSafeSingle(s: Heap, i: nat, k: nat, n: nat, dirtyPages: bool)
    requires Ok(s, dirtyPages, -1, {}) && i < NUM_LISTS && k < |s.lists[i]|
    requires s.lists[i][k] < |s.bs| && s.bs[s.lists[i][k]].committed
    ensures var b := s.lists[i][k];
            var r := Detached(s, i, k);
            && Ok(r, dirtyPages, -1, {}) && InUse(r, b) && SlopSafe(r, b, n) && Honest(r, b, s.bs[b].dirty, dirtyPages)
            && SameUsed(s, r, {b}) && !InUse(s, b) && r.bs == s.bs
  {
    var b := s.lists[i][k];
    var r := Detached(s, i, k);
    DetachOk(s, i, k, dirtyPages, -1, {});
    assert FreeOk(s, dirtyPages, b);
    forall h | 0 <= h < |r.bs| && Free(r, h) && h + r.bs[h].size == b ensures !r.bs[h].committed {
      assert FreeOk(s, dirtyPages, h);
    }
  }

  // ------------------------------------------------------------------ what the search finds

  // The first hit is a smallest suitable block.
  lemma BestFit(s: Heap, i: nat, k: nat, size: nat, alignment: nat, exhausted: bool, c: nat, dirtyPages: bool)
    requires Listed(s, dirtyPages) && alignment > 0 && size > 0 && i < NUM_LISTS && k < |s.lists[i]|
    requires Searched(s, i, k, size, alignment, exhausted) && Suitable(s, s.lists[i][k], size, alignment)
    requires Suitable(s, c, size, alignment)
    ensures s.bs[s.lists[i][k]].size <= s.bs[c].size
  {
    var j, m := Position(s.links, s.heads, s.lists, c);
    assert PlaceOk(s.bs, s.lists, j, m) && PlaceOk(s.bs, s.lists, i, k);
    ListIndexMonotone(size, s.bs[c].size);
    assert s.lists[j][m] == c;
    if j == i {
      assert Ordered(s.bs, s.lists[i], k, m);
    } else if s.bs[c].size < s.bs[s.lists[i][k]].size {
      ListIndexMonotone(s.bs[c].size, s.bs[s.lists[i][k]].size);
    }
  }

  // The search looks at the blocks of the lists from that of the size on.
  ghost predicate LookedAt(s: Heap, c: int, size: nat)
    requires size > 0
  {
    exists j, m :: ListIndex(size) <= j < |s.lists| && 0 <= m < |s.lists[j]| && s.lists[j][m] == c
  }

  // There is no suitable block, and around no decommitted block that is looked at there is a run.
  ghost predicate Exhausted(s: Heap, size: nat, alignment: nat, useVirtualMemory: bool)
    requires size > 0 && alignment > 0
  {
    && (forall c {:trigger Suitable(s, c, size, alignment)} :: !Suitable(s, c, size, alignment))
    && (useVirtualMemory ==> forall c {:trigger LookedAt(s, c, size)} ::
          LookedAt(s, c, size) && c < |s.bs| && !s.bs[c].committed ==> Hopeless(s, c, size, alignment))
  }

  lemma NoneSuitable(s: Heap, size: nat, alignment: nat, exhausted: bool, c: nat, dirtyPages: bool)
    requires Listed(s, dirtyPages) && alignment > 0 && size > 0
    requires Searched(s, NUM_LISTS, 0, size, alignment, exhausted)
    ensures !Suitable(s, c, size, alignment)
    ensures exhausted && LookedAt(s, c, size) && c < |s.bs| && !s.bs[c].committed ==> Hopeless(s, c, size, alignment)
  {
    if Free(s, c) {
      var j, m := Position(s.links, s.heads, s.lists, c);
      assert PlaceOk(s.bs, s.lists, j, m) && s.lists[j][m] == c;
      if s.bs[c].size >= size {
        ListIndexMonotone(size, s.bs[c].size);
      }
    }
  }

  // A search of all lists that has found neither block nor run finds that there is none.
  lemma SearchedExhausted(s: Heap, size: nat, alignment: nat, useVirtualMemory: bool, dirtyPages: bool)
    requires Listed(s, dirtyPages) && alignment > 0 && size > 0
    requires Searched(s, NUM_LISTS, 0, size, alignment, useVirtualMemory)
    ensures Exhausted(s, size, alignment, useVirtualMemory)
  {
    forall c ensures !Suitable(s, c, size, alignment) {
      if 0 <= c {
        NoneSuitable(s, size, alignment, useVirtualMemory, c, dirtyPages);
      }
    }
    forall c | useVirtualMemory && LookedAt(s, c, size) && c < |s.bs| && !s.bs[c].committed
      ensures Hopeless(s, c, size, alignment)
    {
      NoneSuitable(s, size, alignment, useVirtualMemory, c, dirtyPages);
    }
  }

  // A decommitted block large enough by itself is always looked at.
  lemma LargeLookedAt(s: Heap, c: nat, size: nat, dirtyPages: bool)
    requires Listed(s, dirtyPages) && size > 0 && c < |s.bs| && Free(s, c) && s.bs[c].size >= size
    ensures LookedAt(s, c, size)
  {
    var j, m := Position(s.links, s.heads, s.lists, c);
    assert PlaceOk(s.bs, s.lists, j, m) && s.lists[j][m] == c;
    ListIndexMonotone(size, s.bs[c].size);
  }

  // ------------------------------------------------------------------ a run is found only if there is one

  // A run can be cut at any block in it.
  lemma {:induction false} RunSplit(s: Heap, lo: nat, b: nat, hi: nat)
    requires Tiled(s.bs, -1) && RunTo(s, lo, hi) && lo <= b < hi && b < |s.bs| && Head(s.bs[b])
    ensures RunTo(s, lo, b) && RunTo(s, b, hi) && Free(s, b)
    decreases b - lo
  {
    if lo < b {
      HeadsDisjoint(s.bs, lo, b, -1);
      RunSplit(s, lo + s.bs[lo].size, b, hi);
    }
  }

  // A run ends no later than where the free blocks end.
  lemma {:induction false} RunEnds(s: Heap, b: nat, e: nat, hi: nat)
    requires RunTo(s, b, e) && RunTo(s, b, hi) && !Free(s, hi)
    ensures e <= hi
    decreases e - b
  {
    if b < e && b < hi {
      RunEnds(s, b + s.bs[b].size, e, hi);
    }
  }

  // A run that is not empty ends with a free block.
  lemma {:induction false} RunLast(s: Heap, lo: nat, hi: nat) returns (g: nat)
    requires RunTo(s, lo, hi) && lo < hi
    ensures lo <= g < hi && g < |s.bs| && Free(s, g) && g + s.bs[g].size == hi
    decreases hi - lo
  {
    g := lo;
    if lo + s.bs[lo].size < hi {
      g := RunLast(s, lo + s.bs[lo].size, hi);
    }
  }

  // No run with room goes through a block whose surroundings are too small.
  lemma NotHopeless(s: Heap, c: nat, first: nat, hi: nat, size: nat, alignment: nat)
    requires Tiled(s.bs, -1) && alignment > 0 && Roomy(s, first, hi, size, alignment)
    requires first <= c < hi && c < |s.bs| && Head(s.bs[c])
    ensures !Hopeless(s, c, size, alignment)
  {
    if Hopeless(s, c, size, alignment) {
      var lo, e :| 0 <= lo < e && Cramped(s, c, lo, e, size, alignment);
      RunSplit(s, first, c, hi);
      RunSplit(s, lo, c, e);
      RunEnds(s, c, hi, e);
      if first < lo {
        RunSplit(s, first, lo, hi);
        var g := RunLast(s, first, lo);
        assert false;
      }
      if lo < first {
        RunSplit(s, lo, first, e);
      }
      NoRoomInside(s, lo, first, e, size, alignment);
    }
  }

  // A run with room, which shows that the search has not been in vain.
  ghost predicate ARun(s: Heap, first: nat, hi: nat, size: nat, alignment: nat)
    requires size > 0 && alignment > 0
  {
    Roomy(s, first, hi, size, alignment) && !Exhausted(s, size, alignment, true)
  }

  lemma FoundARun(s: Heap, i: nat, k: nat, first: nat, hi: nat, size: nat, alignment: nat)
    requires Tiled(s.bs, -1) && size > 0 && alignment > 0 && Roomy(s, first, hi, size, alignment)
    requires ListIndex(size) <= i < |s.lists| && k < |s.lists[i]| && first <= s.lists[i][k] < hi
    requires s.lists[i][k] < |s.bs| && Head(s.bs[s.lists[i][k]]) && !s.bs[s.lists[i][k]].committed
    ensures ARun(s, first, hi, size, alignment)
  {
    assert LookedAt(s, s.lists[i][k], size);
    NotHopeless(s, s.lists[i][k], first, hi, size, alignment);
  }

  // One more block has been passed over; once a run is known, only hits matter.
  lemma PassedOver(s: Heap, i: nat, k: nat, size: nat, alignment: nat, before: bool, after: bool)
    requires size > 0 && alignment > 0 && i < |s.lists| && k < |s.lists[i]|
    requires Searched(s, i, k, size, alignment, before) && (after ==> before)
    requires !Suitable(s, s.lists[i][k], size, alignment)
    requires after && s.lists[i][k] < |s.bs| && !s.bs[s.lists[i][k]].committed ==> Hopeless(s, s.lists[i][k], size, alignment)
    ensures Searched(s, i, k + 1, size, alignment, after)
  {
  }

  // Only r came into use; nothing that was in use changed.
  ghost predicate Allocated(s: Heap, t: Heap, r: int, size: nat, alignment: nat)
    requires alignment > 0
  {
    && 0 <= r < |t.bs| && InUse(t, r) && !InUse(s, r)
    && t.bs[r].size == size && t.bs[r].committed && t.bs[r].base % alignment == 0
    && SameUsed(s, t, {r})
  }

  // r is the aligned piece of a smallest suitable block.
  ghost predicate Best(s: Heap, b: int, r: int, size: nat, alignment: nat)
    requires alignment > 0
  {
    && Suitable(s, b, size, alignment) && r == b + Slop(s.bs[b].base, alignment)
    && forall c {:trigger Suitable(s, c, size, alignment)} :: Suitable(s, c, size, alignment) ==> s.bs[b].size <= s.bs[c].size
  }

  // The pages asked for, and nothing else, are taken out of b.
  ghost predicate Carved(s: Heap, t: Heap, b: nat, r: nat, size: nat, alignment: nat, dirtyPages: bool)
    requires b < |s.bs| && alignment > 0
  {
    && Ok(t, dirtyPages, -1, {}) && t.os == s.os
    && r == b + Slop(s.bs[b].base, alignment) && InUse(t, r)
    && t.bs[r] == HeapBlock(s.bs[b].base + Slop(s.bs[b].base, alignment), size, t.bs[r].sizePrevious, true, s.bs[b].dirty)
    && SameUsed(s, t, {b, r}) && (r != b ==> !InUse(t, b))
  }

  lemma CarvedAllocated(s: Heap, t: Heap, u: Heap, b: nat, r: nat, size: nat, alignment: nat, dirtyPages: bool)
    requires b < |s.bs| && b < |t.bs| && alignment > 0 && SameUsed(s, t, {b}) && !InUse(s, b)
    requires Tiled(t.bs, -1) && InUse(t, b) && b <= r < b + t.bs[b].size
    requires Carved(t, u, b, r, size, alignment, dirtyPages)
    ensures Allocated(s, u, r, size, alignment)
  {
    assert EntryOk(t.bs, b, -1);
    assert r != b ==> SameUse(s, t, r);
    SameUsedTransitive(s, t, u, {b}, {b, r});
    forall h | 0 <= h < |s.bs| && h !in {r} ensures SameUse(s, u, h) {
      if h != b {
        assert h !in {b} + {b, r};
      }
    }
  }

  lemma AllocatedWritten(s: Heap, t: Heap, u: Heap, r: nat, size: nat, alignment: nat)
    requires alignment > 0 && Allocated(s, t, r, size, alignment) && SameUsed(t, u, {r}) && u == t.(os := u.os)
    ensures Allocated(s, u, r, size, alignment)
  {
    SameUsedTransitive(s, t, u, {r}, {r});
    assert {r} + {r} == {r};
  }
}
