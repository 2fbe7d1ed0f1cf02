/**
 Appending new pages to the HeapBlock array (MMgc/GCHeap.cpp:2131-2224).
 */
module Growth {
  import opened HeapLayout
  import opened FreeLists
  import opened HeapState
  import opened HeapSteps
  import opened Coalescing
  import opened Regions
  import opened Decommitting

  // The old top sentinel goes when the new pages follow the last block.
  function EndOf(bs: seq<HeapBlock>, contiguous: bool): nat
    requires contiguous ==> bs != []
  {
    if contiguous then |bs| - 1 else |bs|
  }

  const CLEAR: HeapBlock := HeapBlock(0, 0, 0, false, false)

  function GrownBlocks(bs: seq<HeapBlock>, base: nat, size: nat, contiguous: bool, dirty: bool): seq<HeapBlock>
    requires contiguous ==> bs != []
    requires size > 0
  {
    bs[..EndOf(bs, contiguous)]
    + [HeapBlock(base, size, if contiguous then bs[|bs| - 1].sizePrevious else 0, true, dirty)]
    + seq(size - 1, k => CLEAR)
    + [CLEAR.(sizePrevious := size)]
  }

  function GrownPages(os: seq<Page>, L: nat, base: nat, size: nat, dirty: bool): seq<Page>
    requires L <= |os|
  {
    os[..L] + seq(size, k requires 0 <= k < size => Page(base + k, true, !dirty)) + [Page(0, true, false)]
  }

  ghost function Grown(s: Heap, base: nat, size: nat, contiguous: bool, dirty: bool): Heap
    requires |s.bs| == |s.links| == |s.os| && (contiguous ==> s.bs != []) && size > 0
  {
    var L := EndOf(s.bs, contiguous);
    Heap(GrownBlocks(s.bs, base, size, contiguous, dirty),
         s.links[..L] + seq(size + 1, k => Links(Null, Null)),
         s.heads,
         s.lists,
         GrownPages(s.os, L, base, size, dirty))
  }

  // contiguous is what comparing the end of the last block with the new address says.
  ghost predicate Contiguous(bs: seq<HeapBlock>, base: nat, contiguous: bool) {
    contiguous ==> bs != [] && var h := |bs| - 1 - bs[|bs| - 1].sizePrevious; h >= 0 && bs[h].base + bs[h].size == base
  }

  lemma GrownEntry(bs: seq<HeapBlock>, base: nat, size: nat, contiguous: bool, dirty: bool, g: nat)
    requires Tiled(bs, -1) && Contiguous(bs, base, contiguous) && base > 0 && size > 0
    requires g < EndOf(bs, contiguous)
    ensures EntryOk(GrownBlocks(bs, base, size, contiguous, dirty), g, -1)
  {
    assert EntryOk(bs, g, -1);
    assert EntryOk(bs, |bs| - 1, -1);
  }

  lemma GrownEntryNew(bs: seq<HeapBlock>, base: nat, size: nat, contiguous: bool, dirty: bool, g: nat)
    requires Tiled(bs, -1) && Contiguous(bs, base, contiguous) && base > 0 && size > 0
    requires EndOf(bs, contiguous) <= g < |GrownBlocks(bs, base, size, contiguous, dirty)|
    ensures EntryOk(GrownBlocks(bs, base, size, contiguous, dirty), g, -1)
  {
    var L := EndOf(bs, contiguous);
    var r := GrownBlocks(bs, base, size, contiguous, dirty);
    if bs != [] {
      assert EntryOk(bs, |bs| - 1, -1);
      if L > 0 {
        assert EntryOk(bs, L - 1, -1);
      }
    }
    assert r[L + size] == CLEAR.(sizePrevious := size);
    assert forall k :: L < k < L + size ==> r[k] == CLEAR;
  }

  lemma GrownTiled(bs: seq<HeapBlock>, base: nat, size: nat, contiguous: bool, dirty: bool)
    requires Tiled(bs, -1) && Contiguous(bs, base, contiguous) && base > 0 && size > 0
    ensures Tiled(GrownBlocks(bs, base, size, contiguous, dirty), -1)
  {
    var r := GrownBlocks(bs, base, size, contiguous, dirty);
    forall g | 0 <= g < |r| ensures EntryOk(r, g, -1) {
      if g < EndOf(bs, contiguous) {
        GrownEntry(bs, base, size, contiguous, dirty, g);
      } else {
        GrownEntryNew(bs, base, size, contiguous, dirty, g);
      }
    }
    if contiguous {
      assert EntryOk(bs, |bs| - 1, -1);
    }
  }

  // ------------------------------------------------------------------ the rest of the state

  lemma SentinelNotFree(s: Heap, dirtyPages: bool)
    requires Tiled(s.bs, -1) && Listed(s, dirtyPages) && s.bs != []
    ensures !Free(s, |s.bs| - 1)
  {
    assert FreeOk(s, dirtyPages, |s.bs| - 1);
  }

  lemma GrownPlaced(s: Heap, base: nat, size: nat, contiguous: bool, dirty: bool, dirtyPages: bool)
    requires Tiled(s.bs, -1) && Listed(s, dirtyPages) && |s.os| == |s.bs| && (contiguous ==> s.bs != []) && size > 0
    ensures var r := Grown(s, base, size, contiguous, dirty); Placed(r.bs, r.lists)
    ensures forall i, k :: 0 <= i < |s.lists| && 0 <= k < |s.lists[i]| ==> s.lists[i][k] < EndOf(s.bs, contiguous)
  {
    var r := Grown(s, base, size, contiguous, dirty);
    if contiguous {
      SentinelNotFree(s, dirtyPages);
    }
    forall i, k | 0 <= i < |s.lists| && 0 <= k < |s.lists[i]|
      ensures s.lists[i][k] < EndOf(s.bs, contiguous) && PlaceOk(r.bs, r.lists, i, k)
    {
      Neighbours(s.links, s.heads, s.lists, i, k);
      assert PlaceOk(s.bs, s.lists, i, k);
    }
    forall i, k, m | 0 <= i < |r.lists| && 0 <= k < |r.lists[i]| && 0 <= m < |r.lists[i]|
      ensures Ordered(r.bs, r.lists[i], k, m)
    {
      assert Ordered(s.bs, s.lists[i], k, m);
    }
  }

  lemma GrownRings(s: Heap, base: nat, size: nat, contiguous: bool, dirty: bool, dirtyPages: bool)
    requires Tiled(s.bs, -1) && Listed(s, dirtyPages) && |s.os| == |s.bs| && (contiguous ==> s.bs != []) && size > 0
    ensures var r := Grown(s, base, size, contiguous, dirty); Rings(r.links, r.heads, r.lists)
  {
    var r := Grown(s, base, size, contiguous, dirty);
    GrownPlaced(s, base, size, contiguous, dirty, dirtyPages);
    forall i | 0 <= i < NUM_LISTS ensures Ring(r.links, r.heads, r.lists[i], i) {
      assert Ring(s.links, s.heads, s.lists[i], i);
      forall k | 0 <= k < |r.lists[i]| ensures NodeOk(r.links, r.lists[i], i, k) {
        assert NodeOk(s.links, s.lists[i], i, k);
      }
    }
    forall b | 0 <= b < |r.links| && !r.links[b].prev.Null? ensures OnList(r.lists, b) {
      assert b < EndOf(s.bs, contiguous);
      assert OnList(s.lists, b);
    }
  }

  // The old entries, seen afterwards.
  lemma GrownSame(s: Heap, base: nat, size: nat, contiguous: bool, dirty: bool, h: nat)
    requires |s.bs| == |s.links| == |s.os| && (contiguous ==> s.bs != []) && size > 0 && h < EndOf(s.bs, contiguous)
    ensures var r := Grown(s, base, size, contiguous, dirty);
            h < |r.bs| && r.bs[h] == s.bs[h] && r.links[h] == s.links[h] && r.os[h] == s.os[h]
  {
  }

  // The entries before L are as they were and nothing after them is free.
  lemma FreeOkSame(s: Heap, r: Heap, dirtyPages: bool, L: nat, g: nat)
    requires |s.bs| == |s.links| == |s.os| && |r.bs| == |r.links| == |r.os| && g < L <= |s.bs| && L <= |r.bs|
    requires FreeOk(s, dirtyPages, g) && (Head(s.bs[g]) ==> g + s.bs[g].size <= L)
    requires forall k :: 0 <= k < L ==> r.bs[k] == s.bs[k] && r.links[k] == s.links[k] && r.os[k] == s.os[k]
    requires forall k :: L <= k < |r.bs| ==> !Free(r, k)
    ensures FreeOk(r, dirtyPages, g)
  {
  }

  lemma GrownAgrees(s: Heap, base: nat, size: nat, contiguous: bool, dirty: bool)
    requires |s.bs| == |s.links| == |s.os| && (contiguous ==> s.bs != []) && size > 0
    ensures var r := Grown(s, base, size, contiguous, dirty);
            var L := EndOf(s.bs, contiguous);
            && |r.bs| == |r.links| == |r.os| && L <= |s.bs| && L <= |r.bs|
            && (forall k :: 0 <= k < L ==> r.bs[k] == s.bs[k] && r.links[k] == s.links[k] && r.os[k] == s.os[k])
            && (forall k :: L <= k < |r.bs| ==> !Free(r, k))
  {
  }

  lemma GrownFreeOk(s: Heap, base: nat, size: nat, contiguous: bool, dirty: bool, dirtyPages: bool, g: nat)
    requires Ok(s, dirtyPages, -1, {}) && (contiguous ==> s.bs != []) && size > 0
    requires g < EndOf(s.bs, contiguous)
    ensures var r := Grown(s, base, size, contiguous, dirty); g < |r.bs| && FreeOk(r, dirtyPages, g)
  {
    assert EntryOk(s.bs, g, -1) && FreeOk(s, dirtyPages, g);
    GrownAgrees(s, base, size, contiguous, dirty);
    FreeOkSame(s, Grown(s, base, size, contiguous, dirty), dirtyPages, EndOf(s.bs, contiguous), g);
  }

  lemma GrownStoreOk(s: Heap, base: nat, size: nat, contiguous: bool, dirty: bool, dirtyPages: bool, g: nat)
    requires Ok(s, dirtyPages, -1, {}) && (contiguous ==> s.bs != []) && size > 0
    requires g < EndOf(s.bs, contiguous)
    ensures var r := Grown(s, base, size, contiguous, dirty);
            g < |r.bs| == |r.os| && PagesOk(r, g) && StoreOk(r, g)
  {
    assert EntryOk(s.bs, g, -1) && PagesOk(s, g) && StoreOk(s, g);
  }

  lemma GrownNewOk(s: Heap, base: nat, size: nat, contiguous: bool, dirty: bool, dirtyPages: bool, g: nat)
    requires Ok(s, dirtyPages, -1, {}) && (contiguous ==> s.bs != []) && size > 0
    requires EndOf(s.bs, contiguous) <= g < |Grown(s, base, size, contiguous, dirty).bs|
    ensures var r := Grown(s, base, size, contiguous, dirty);
            |r.bs| == |r.os| && !Free(r, g) && PagesOk(r, g) && StoreOk(r, g)
  {
    var r := Grown(s, base, size, contiguous, dirty);
    var L := EndOf(s.bs, contiguous);
    assert r.bs[L + size] == CLEAR.(sizePrevious := size);
    assert forall k :: L < k < L + size ==> r.bs[k] == CLEAR;
  }

  // The new pages are one more block, not yet on a list.
  lemma GrownOk(s: Heap, base: nat, size: nat, contiguous: bool, dirtyPages: bool)
    requires Ok(s, dirtyPages, -1, {}) && Contiguous(s.bs, base, contiguous) && base > 0 && size > 0
    ensures var r := Grown(s, base, size, contiguous, dirtyPages);
            var L := EndOf(s.bs, contiguous);
            && Ok(r, dirtyPages, -1, {}) && InUse(r, L) && Honest(r, L, r.bs[L].dirty, dirtyPages)
            && (forall h :: 0 <= h < L ==> (InUse(r, h) <==> InUse(s, h)))
            && (forall h :: L < h < |r.bs| ==> !InUse(r, h))
  {
    var r := Grown(s, base, size, contiguous, dirtyPages);
    var L := EndOf(s.bs, contiguous);
    GrownTiled(s.bs, base, size, contiguous, dirtyPages);
    GrownRings(s, base, size, contiguous, dirtyPages, dirtyPages);
    GrownPlaced(s, base, size, contiguous, dirtyPages, dirtyPages);
    forall g | 0 <= g < |r.bs| ensures FreeOk(r, dirtyPages, g) && PagesOk(r, g) && StoreOk(r, g) {
      if g < L {
        GrownFreeOk(s, base, size, contiguous, dirtyPages, dirtyPages, g);
        GrownStoreOk(s, base, size, contiguous, dirtyPages, dirtyPages, g);
      } else {
        GrownNewOk(s, base, size, contiguous, dirtyPages, dirtyPages, g);
      }
    }
  }

  lemma GrownCount(s: Heap, os: seq<Page>, base: nat, size: nat, contiguous: bool, dirtyPages: bool)
    requires Ok(s, dirtyPages, -1, {}) && (contiguous ==> s.bs != []) && size > 0
    requires os == GrownPages(s.os, EndOf(s.bs, contiguous), base, size, dirtyPages)
    ensures Uncommitted(os, 0, |os|) == Uncommitted(s.os, 0, |s.os|)
  {
    var L := EndOf(s.bs, contiguous);
    UncommittedSame(s.os, os, 0, L);
    UncommittedSplit(os, 0, L, |os|);
    UncommittedAll(os, L, |os|, true);
    UncommittedSplit(s.os, 0, L, |s.os|);
    if contiguous {
      assert PagesOk(s, L);
    }
    UncommittedAll(s.os, L, |s.os|, true);
  }

  // ------------------------------------------------------------------ where the pages come from

  // The operating system commits more of the last region, extends it with a new one, or
  // gives a region somewhere else.
  datatype Acquired = InRegion | Bridge(newSize: nat) | NewRegion(base: nat, newSize: nat)

  function CommitAvail(rs: seq<Region>): int {
    if rs == [] then 0 else rs[0].reserveTop - rs[0].commitTop
  }

  // What the operating system may answer.
  ghost predicate MayAcquire(rs: seq<Region>, how: Acquired, size: nat) {
    match how
    case InRegion => rs != [] && size <= CommitAvail(rs)
    case Bridge(n) =>
      && rs != [] && CommitAvail(rs) < size && n >= size - CommitAvail(rs)
      && forall j {:trigger rs[j]} :: 0 <= j < |rs| ==> rs[j].reserveTop <= rs[0].reserveTop || rs[0].reserveTop + n <= rs[j].base
    case NewRegion(b, n) =>
      && b > 0 && n >= size
      && forall j {:trigger rs[j]} :: 0 <= j < |rs| ==> rs[j].reserveTop <= b || b + n <= rs[j].base
  }

  function BaseOf(rs: seq<Region>, how: Acquired): nat
    requires !how.NewRegion? ==> rs != []
  {
    if how.NewRegion? then how.base else rs[0].commitTop
  }

  // The regions afterwards; len is the length of the array afterwards.
  function GrownRegions(rs: seq<Region>, how: Acquired, size: nat, len: nat): seq<Region>
    requires MayAcquire(rs, how, size) && size < len
    requires forall j :: 0 <= j < |rs| ==> rs[j].commitTop <= rs[j].reserveTop
  {
    match how
    case InRegion => [rs[0].(commitTop := rs[0].commitTop + size)] + rs[1..]
    case Bridge(n) =>
      var avail := CommitAvail(rs);
      var base := rs[0].reserveTop;
      [Region(base, base + n, base + (size - avail), len - (size - avail) - 1, false),
       rs[0].(commitTop := rs[0].reserveTop)] + rs[1..]
    case NewRegion(b, n) =>
      [Region(b, b + n, b + size, len - size - 1, false)] + rs
  }

  // The last block of the array lies at the end of the first region that is not large.
  lemma TopRegion(s: Heap, rs: seq<Region>, dirtyPages: bool)
    requires Ok(s, dirtyPages, -1, {}) && Mapped(s.os, rs) && rs != [] && !rs[0].large
    ensures s.bs != [] && rs[0].blockId + (rs[0].commitTop - rs[0].base) == |s.bs| - 1
    ensures var h := |s.bs| - 1 - s.bs[|s.bs| - 1].sizePrevious; h >= 0 && s.bs[h].base + s.bs[h].size == rs[0].commitTop
  {
    assert RegionOk(s.os, rs[0]);
    var n := |s.bs| - 1;
    assert s.os[rs[0].blockId].address == rs[0].base;
    assert EntryOk(s.bs, n, -1) && PagesOk(s, n);
    var h := n - s.bs[n].sizePrevious;
    assert EntryOk(s.bs, h, -1) && PagesOk(s, h);
    assert s.os[n - 1].address == s.bs[h].base + s.bs[h].size - 1;
    assert Backing(s.os, rs, n - 1);
    var j :| 0 <= j < |rs| && Covers(rs[j], s.os[n - 1].address);
    BlockOfAddress(s.os, rs, j, n - 1);
    assert RegionOk(s.os, rs[j]);
    LastPage(s, rs, j, dirtyPages);
  }

  // The pages of a region that reaches the end of the array stop before the sentinel.
  lemma LastPage(s: Heap, rs: seq<Region>, j: nat, dirtyPages: bool)
    requires Ok(s, dirtyPages, -1, {}) && Mapped(s.os, rs) && j < |rs| && !rs[j].large && s.bs != []
    ensures rs[j].blockId + (rs[j].commitTop - rs[j].base) <= |s.bs| - 1
  {
    assert RegionOk(s.os, rs[j]) && PagesOk(s, |s.bs| - 1);
    assert s.os[|s.bs| - 1].address == 0 by {
      assert Sentinel(s.bs[|s.bs| - 1]);
    }
  }

  // Nothing follows a large region: its pages are not in the array.
  lemma AfterLarge(s: Heap, rs: seq<Region>, dirtyPages: bool)
    requires Ok(s, dirtyPages, -1, {}) && Mapped(s.os, rs) && rs != [] && rs[0].large && s.bs != []
    ensures var h := |s.bs| - 1 - s.bs[|s.bs| - 1].sizePrevious; h >= 0 && s.bs[h].base + s.bs[h].size != rs[0].commitTop
  {
    assert RegionOk(s.os, rs[0]);
    var n := |s.bs| - 1;
    assert EntryOk(s.bs, n, -1) && PagesOk(s, n);
    var h := n - s.bs[n].sizePrevious;
    assert EntryOk(s.bs, h, -1) && PagesOk(s, h);
    assert s.os[n - 1].address == s.bs[h].base + s.bs[h].size - 1;
    assert Backing(s.os, rs, n - 1);
    var j :| 0 <= j < |rs| && Covers(rs[j], s.os[n - 1].address);
    assert RegionOk(s.os, rs[j]);
  }

  // The test for continuity.
  function Follows(bs: seq<HeapBlock>, how: Acquired, base: nat): bool {
    !how.NewRegion? && bs != [] &&
    var h := |bs| - 1 - bs[|bs| - 1].sizePrevious;
    0 <= h && bs[h].base + bs[h].size == base
  }

  lemma FollowsTop(s: Heap, rs: seq<Region>, how: Acquired, size: nat, dirtyPages: bool)
    requires Ok(s, dirtyPages, -1, {}) && Mapped(s.os, rs) && MayAcquire(rs, how, size) && size > 0
    ensures var c := Follows(s.bs, how, BaseOf(rs, how));
            && Contiguous(s.bs, BaseOf(rs, how), c) && BaseOf(rs, how) > 0
            && c == (!how.NewRegion? && !rs[0].large) && (how.InRegion? ==> c)
            && (c ==> rs[0].blockId + (rs[0].commitTop - rs[0].base) == |s.bs| - 1)
  {
    if !how.NewRegion? {
      assert RegionOk(s.os, rs[0]);
      if rs[0].large {
        if s.bs != [] {
          AfterLarge(s, rs, dirtyPages);
        }
      } else {
        TopRegion(s, rs, dirtyPages);
      }
    }
  }

  // None of the pages acquired is in the array already.
  lemma NewPages(s: Heap, rs: seq<Region>, how: Acquired, size: nat, k: nat)
    requires Mapped(s.os, rs) && MayAcquire(rs, how, size) && size > 0 && k < |s.os| && s.os[k].address != 0
    ensures s.os[k].address < BaseOf(rs, how) || BaseOf(rs, how) + size <= s.os[k].address
  {
    assert Backing(s.os, rs, k);
    var j :| 0 <= j < |rs| && Covers(rs[j], s.os[k].address);
    assert RegionOk(s.os, rs[j]);
    if !how.NewRegion? {
      assert RegionOk(s.os, rs[0]);
    }
  }

  // What is needed of the region list below.
  ghost predicate Prefix(s: Heap, rs: seq<Region>, L: nat) {
    forall j {:trigger rs[j]} :: 0 <= j < |rs| && !rs[j].large ==> rs[j].blockId + (rs[j].commitTop - rs[j].base) <= L
  }

  lemma PrefixOk(s: Heap, rs: seq<Region>, contiguous: bool, dirtyPages: bool)
    requires Ok(s, dirtyPages, -1, {}) && Mapped(s.os, rs) && (contiguous ==> s.bs != [])
    ensures Prefix(s, rs, EndOf(s.bs, contiguous))
  {
    forall j | 0 <= j < |rs| && !rs[j].large
      ensures rs[j].blockId + (rs[j].commitTop - rs[j].base) <= EndOf(s.bs, contiguous)
    {
      assert RegionOk(s.os, rs[j]);
      if contiguous {
        LastPage(s, rs, j, dirtyPages);
      }
    }
  }

  // The regions that do not change still name the entries of their pages.
  lemma OldRegion(s: Heap, rs: seq<Region>, base: nat, size: nat, contiguous: bool, dirty: bool, j: nat)
    requires |s.bs| == |s.links| == |s.os| && (contiguous ==> s.bs != []) && size > 0
    requires Mapped(s.os, rs) && j < |rs| && Prefix(s, rs, EndOf(s.bs, contiguous))
    ensures RegionOk(Grown(s, base, size, contiguous, dirty).os, rs[j])
  {
    assert RegionOk(s.os, rs[j]);
  }

  lemma GrownUnique(s: Heap, rs: seq<Region>, how: Acquired, size: nat, contiguous: bool, dirty: bool)
    requires |s.bs| == |s.links| == |s.os| && (contiguous ==> s.bs != []) && size > 0
    requires Mapped(s.os, rs) && MayAcquire(rs, how, size)
    ensures Unique(Grown(s, BaseOf(rs, how), size, contiguous, dirty).os)
  {
    var r := Grown(s, BaseOf(rs, how), size, contiguous, dirty).os;
    forall k, m | 0 <= k < m < |r| && r[k].address != 0 ensures r[k].address != r[m].address {
      if k < EndOf(s.bs, contiguous) <= m {
        NewPages(s, rs, how, size, k);
      }
    }
  }

  // The pages, old and new.
  lemma GrownPage(s: Heap, base: nat, size: nat, contiguous: bool, dirty: bool, k: nat)
    requires |s.bs| == |s.links| == |s.os| && (contiguous ==> s.bs != []) && size > 0
    requires k < EndOf(s.bs, contiguous) + size
    ensures var L := EndOf(s.bs, contiguous);
            var r := Grown(s, base, size, contiguous, dirty).os;
            k < |r| == L + size + 1 && r[k].address == if k < L then s.os[k].address else base + k - L
  {
  }

  lemma InRegionRegions(s: Heap, rs: seq<Region>, size: nat, dirty: bool, dirtyPages: bool)
    requires Ok(s, dirtyPages, -1, {}) && Mapped(s.os, rs) && MayAcquire(rs, InRegion, size) && size > 0
    requires Follows(s.bs, InRegion, BaseOf(rs, InRegion))
    requires forall j :: 0 <= j < |rs| ==> rs[j].commitTop <= rs[j].reserveTop
    ensures var r := Grown(s, BaseOf(rs, InRegion), size, true, dirty).os;
            var rs' := GrownRegions(rs, InRegion, size, size + 1);
            && (forall j {:trigger RegionOk(r, rs'[j])} :: 0 <= j < |rs'| ==> RegionOk(r, rs'[j]))
            && (forall i, j :: 0 <= i < j < |rs'| ==> Disjoint(rs'[i], rs'[j]))
            && (forall i, j :: 0 <= i < j < |rs'| ==> Later(rs'[i], rs'[j]))
  {
    var base := BaseOf(rs, InRegion);
    var r := Grown(s, base, size, true, dirty).os;
    FollowsTop(s, rs, InRegion, size, dirtyPages);
    PrefixOk(s, rs, true, dirtyPages);
    var rs' := GrownRegions(rs, InRegion, size, size + 1);
    forall j | 0 <= j < |rs'| ensures RegionOk(r, rs'[j]) {
      if j > 0 {
        OldRegion(s, rs, base, size, true, dirty, j);
      } else {
        assert RegionOk(s.os, rs[0]);
        forall k | rs'[0].blockId <= k < rs'[0].blockId + (rs'[0].commitTop - rs'[0].base)
          ensures k < |r| && r[k].address == rs'[0].base + k - rs'[0].blockId
        {
          GrownPage(s, base, size, true, dirty, k);
        }
        GrownPage(s, base, size, true, dirty, |s.bs| - 2 + size);
      }
    }
    forall i, j | 0 <= i < j < |rs'| ensures Disjoint(rs'[i], rs'[j]) && Later(rs'[i], rs'[j]) {
      assert Disjoint(rs[i], rs[j]) && Later(rs[i], rs[j]);
    }
  }

  lemma InRegionBacking(s: Heap, rs: seq<Region>, size: nat, dirty: bool, dirtyPages: bool, k: nat)
    requires Ok(s, dirtyPages, -1, {}) && Mapped(s.os, rs) && MayAcquire(rs, InRegion, size) && size > 0
    requires Follows(s.bs, InRegion, BaseOf(rs, InRegion)) && k < |Grown(s, BaseOf(rs, InRegion), size, true, dirty).os|
    requires forall j :: 0 <= j < |rs| ==> rs[j].commitTop <= rs[j].reserveTop
    ensures Backing(Grown(s, BaseOf(rs, InRegion), size, true, dirty).os, GrownRegions(rs, InRegion, size, size + 1), k)
  {
    var base := BaseOf(rs, InRegion);
    var r := Grown(s, base, size, true, dirty).os;
    var rs' := GrownRegions(rs, InRegion, size, size + 1);
    if k < |r| - 1 {
      GrownPage(s, base, size, true, dirty, k);
      if k < |s.os| - 1 {
        assert Backing(s.os, rs, k);
        if s.os[k].address != 0 {
          var j :| 0 <= j < |rs| && Covers(rs[j], s.os[k].address);
          assert Covers(rs'[j], r[k].address);
        }
      } else {
        assert RegionOk(s.os, rs[0]);
        FollowsTop(s, rs, InRegion, size, dirtyPages);
        assert Covers(rs'[0], r[k].address);
      }
    }
  }

  lemma GrownInRegion(s: Heap, rs: seq<Region>, size: nat, dirty: bool, dirtyPages: bool)
    requires Ok(s, dirtyPages, -1, {}) && Mapped(s.os, rs) && MayAcquire(rs, InRegion, size) && size > 0
    requires Follows(s.bs, InRegion, BaseOf(rs, InRegion))
    ensures forall j :: 0 <= j < |rs| ==> rs[j].commitTop <= rs[j].reserveTop
    ensures var r := Grown(s, BaseOf(rs, InRegion), size, true, dirty).os;
            size < |r| && Mapped(r, GrownRegions(rs, InRegion, size, |r|))
  {
    var base := BaseOf(rs, InRegion);
    var r := Grown(s, base, size, true, dirty).os;
    GrownUnique(s, rs, InRegion, size, true, dirty);
    forall j | 0 <= j < |rs| ensures rs[j].commitTop <= rs[j].reserveTop {
      assert RegionOk(s.os, rs[j]);
    }
    InRegionRegions(s, rs, size, dirty, dirtyPages);
    var rs' := GrownRegions(rs, InRegion, size, |r|);
    assert rs' == GrownRegions(rs, InRegion, size, size + 1);
    forall k | 0 <= k < |r| ensures Backing(r, rs', k) {
      InRegionBacking(s, rs, size, dirty, dirtyPages, k);
    }
  }

  lemma GrownElsewhere(s: Heap, rs: seq<Region>, how: Acquired, size: nat, dirty: bool, dirtyPages: bool)
    requires Ok(s, dirtyPages, -1, {}) && Mapped(s.os, rs) && MayAcquire(rs, how, size) && size > 0 && how.NewRegion?
    ensures forall j :: 0 <= j < |rs| ==> rs[j].commitTop <= rs[j].reserveTop
    ensures var r := Grown(s, how.base, size, false, dirty).os;
            size < |r| && Mapped(r, GrownRegions(rs, how, size, |r|))
  {
    var r := Grown(s, how.base, size, false, dirty).os;
    PrefixOk(s, rs, false, dirtyPages);
    GrownUnique(s, rs, how, size, false, dirty);
    forall j | 0 <= j < |rs| ensures rs[j].commitTop <= rs[j].reserveTop {
      assert RegionOk(s.os, rs[j]);
    }
    var rs' := GrownRegions(rs, how, size, |r|);
    forall j | 0 <= j < |rs'| ensures RegionOk(r, rs'[j]) {
      if j > 0 {
        OldRegion(s, rs, how.base, size, false, dirty, j - 1);
      }
    }
    forall i, j | 0 <= i < j < |rs'| ensures Disjoint(rs'[i], rs'[j]) && Later(rs'[i], rs'[j]) {
      assert rs'[j] == rs[j - 1] && RegionOk(s.os, rs[j - 1]);
      if i > 0 {
        assert Disjoint(rs[i - 1], rs[j - 1]) && Later(rs[i - 1], rs[j - 1]);
      }
    }
    forall k | 0 <= k < |r| ensures Backing(r, rs', k) {
      ElsewhereBacking(s, rs, how, size, dirty, k);
    }
  }

  lemma ElsewhereBacking(s: Heap, rs: seq<Region>, how: Acquired, size: nat, dirty: bool, k: nat)
    requires |s.bs| == |s.links| == |s.os| && Mapped(s.os, rs) && MayAcquire(rs, how, size) && size > 0 && how.NewRegion?
    requires forall j :: 0 <= j < |rs| ==> rs[j].commitTop <= rs[j].reserveTop
    requires k < |Grown(s, how.base, size, false, dirty).os|
    ensures var r := Grown(s, how.base, size, false, dirty).os;
            size < |r| && Backing(r, GrownRegions(rs, how, size, |r|), k)
  {
    var r := Grown(s, how.base, size, false, dirty).os;
    var rs' := GrownRegions(rs, how, size, |r|);
    if k < |s.os| {
      assert Backing(s.os, rs, k);
      if s.os[k].address != 0 {
        var j :| 0 <= j < |rs| && Covers(rs[j], s.os[k].address);
        assert Covers(rs'[j + 1], r[k].address);
      }
    } else if k < |r| - 1 {
      assert Covers(rs'[0], r[k].address);
    }
  }

  lemma GrownBridge(s: Heap, rs: seq<Region>, how: Acquired, size: nat, contiguous: bool, dirty: bool, dirtyPages: bool)
    requires Ok(s, dirtyPages, -1, {}) && Mapped(s.os, rs) && MayAcquire(rs, how, size) && size > 0 && how.Bridge?
    requires contiguous == Follows(s.bs, how, BaseOf(rs, how))
    ensures forall j :: 0 <= j < |rs| ==> rs[j].commitTop <= rs[j].reserveTop
    ensures contiguous ==> s.bs != []
    ensures var r := Grown(s, BaseOf(rs, how), size, contiguous, dirty).os;
            size < |r| && Mapped(r, GrownRegions(rs, how, size, |r|))
  {
    FollowsTop(s, rs, how, size, dirtyPages);
    var r := Grown(s, BaseOf(rs, how), size, contiguous, dirty).os;
    PrefixOk(s, rs, contiguous, dirtyPages);
    GrownUnique(s, rs, how, size, contiguous, dirty);
    forall j | 0 <= j < |rs| ensures rs[j].commitTop <= rs[j].reserveTop {
      assert RegionOk(s.os, rs[j]);
    }
    var rs' := GrownRegions(rs, how, size, |r|);
    assert forall j :: 0 < j < |rs| ==> rs'[j + 1] == rs[j];
    BridgeRegions(s, rs, how, size, contiguous, dirty, dirtyPages);
    forall k | 0 <= k < |r| ensures Backing(r, rs', k) {
      BridgeBacking(s, rs, how, size, contiguous, dirty, k);
    }
  }

  lemma BridgeBacking(s: Heap, rs: seq<Region>, how: Acquired, size: nat, contiguous: bool, dirty: bool, k: nat)
    requires |s.bs| == |s.links| == |s.os| && (contiguous ==> s.bs != []) && size > 0
    requires Mapped(s.os, rs) && MayAcquire(rs, how, size) && how.Bridge?
    requires forall j :: 0 <= j < |rs| ==> rs[j].commitTop <= rs[j].reserveTop
    requires k < |Grown(s, BaseOf(rs, how), size, contiguous, dirty).os|
    ensures var r := Grown(s, BaseOf(rs, how), size, contiguous, dirty).os;
            Backing(r, GrownRegions(rs, how, size, |r|), k)
  {
    var L := EndOf(s.bs, contiguous);
    var r := Grown(s, BaseOf(rs, how), size, contiguous, dirty).os;
    var rs' := GrownRegions(rs, how, size, |r|);
    assert forall j :: 0 < j < |rs| ==> rs'[j + 1] == rs[j];
    if k < L + size {
      GrownPage(s, BaseOf(rs, how), size, contiguous, dirty, k);
      if k < L {
        assert Backing(s.os, rs, k);
        if s.os[k].address != 0 {
          var j :| 0 <= j < |rs| && Covers(rs[j], s.os[k].address);
          assert RegionOk(s.os, rs[j]);
          assert Covers(rs'[j + 1], r[k].address);
        }
      } else {
        assert RegionOk(s.os, rs[0]);
        NewPageBridged(rs, how, size, |r|, k - L);
      }
    }
  }

  // A new page is in what was left of the last region, or in the one added to it.
  lemma NewPageBridged(rs: seq<Region>, how: Acquired, size: nat, len: nat, i: nat)
    requires MayAcquire(rs, how, size) && how.Bridge? && i < size < len && rs[0].base <= rs[0].commitTop
    requires forall j :: 0 <= j < |rs| ==> rs[j].commitTop <= rs[j].reserveTop
    requires rs[0].large ==> rs[0].commitTop == rs[0].reserveTop
    ensures var rs' := GrownRegions(rs, how, size, len);
            Covers(rs'[0], BaseOf(rs, how) + i) || Covers(rs'[1], BaseOf(rs, how) + i)
  {
  }

  lemma BridgeRegion(s: Heap, rs: seq<Region>, how: Acquired, size: nat, contiguous: bool, dirty: bool, dirtyPages: bool, j: nat)
    requires Ok(s, dirtyPages, -1, {}) && Mapped(s.os, rs) && MayAcquire(rs, how, size) && size > 0 && how.Bridge?
    requires contiguous == Follows(s.bs, how, BaseOf(rs, how)) && (contiguous ==> s.bs != [])
    requires forall j :: 0 <= j < |rs| ==> rs[j].commitTop <= rs[j].reserveTop
    requires j <= |rs|
    ensures var r := Grown(s, BaseOf(rs, how), size, contiguous, dirty).os;
            RegionOk(r, GrownRegions(rs, how, size, |r|)[j])
  {
    var base := BaseOf(rs, how);
    FollowsTop(s, rs, how, size, dirtyPages);
    PrefixOk(s, rs, contiguous, dirtyPages);
    var r := Grown(s, base, size, contiguous, dirty).os;
    var q := GrownRegions(rs, how, size, |r|)[j];
    assert RegionOk(s.os, rs[0]);
    if j <= 1 {
      forall k | q.blockId <= k < q.blockId + (q.commitTop - q.base) && !q.large
        ensures k < |r| && r[k].address == q.base + k - q.blockId
      {
        GrownPage(s, base, size, contiguous, dirty, k);
      }
    } else {
      OldRegion(s, rs, base, size, contiguous, dirty, j - 1);
    }
  }

  lemma BridgeRegions(s: Heap, rs: seq<Region>, how: Acquired, size: nat, contiguous: bool, dirty: bool, dirtyPages: bool)
    requires Ok(s, dirtyPages, -1, {}) && Mapped(s.os, rs) && MayAcquire(rs, how, size) && size > 0 && how.Bridge?
    requires contiguous == Follows(s.bs, how, BaseOf(rs, how)) && (contiguous ==> s.bs != [])
    requires forall j :: 0 <= j < |rs| ==> rs[j].commitTop <= rs[j].reserveTop
    ensures var r := Grown(s, BaseOf(rs, how), size, contiguous, dirty).os;
            var rs' := GrownRegions(rs, how, size, |r|);
            && (forall j {:trigger RegionOk(r, rs'[j])} :: 0 <= j < |rs'| ==> RegionOk(r, rs'[j]))
            && (forall i, j :: 0 <= i < j < |rs'| ==> Disjoint(rs'[i], rs'[j]))
            && (forall i, j :: 0 <= i < j < |rs'| ==> Later(rs'[i], rs'[j]))
  {
    FollowsTop(s, rs, how, size, dirtyPages);
    PrefixOk(s, rs, contiguous, dirtyPages);
    var r := Grown(s, BaseOf(rs, how), size, contiguous, dirty).os;
    var rs' := GrownRegions(rs, how, size, |r|);
    forall j | 0 <= j < |rs'| ensures RegionOk(r, rs'[j]) {
      BridgeRegion(s, rs, how, size, contiguous, dirty, dirtyPages, j);
    }
    forall i, j | 0 <= i < j < |rs'| ensures Disjoint(rs'[i], rs'[j]) && Later(rs'[i], rs'[j]) {
      assert RegionOk(s.os, rs[j - 1]) && RegionOk(s.os, rs[0]);
      assert rs'[j].base == rs[j - 1].base && rs'[j].reserveTop == rs[j - 1].reserveTop;
      if i > 0 {
        assert Disjoint(rs[i - 1], rs[j - 1]) && Later(rs[i - 1], rs[j - 1]);
      }
    }
  }

  // Every page of the array still lies in exactly one region, which names its entry.
  lemma GrownMapped(s: Heap, rs: seq<Region>, how: Acquired, size: nat, dirty: bool, dirtyPages: bool)
    requires Ok(s, dirtyPages, -1, {}) && Mapped(s.os, rs) && MayAcquire(rs, how, size) && size > 0
    ensures forall j :: 0 <= j < |rs| ==> rs[j].commitTop <= rs[j].reserveTop
    ensures var c := Follows(s.bs, how, BaseOf(rs, how));
            && (c ==> s.bs != [])
            && var r := Grown(s, BaseOf(rs, how), size, c, dirty).os;
            && size < |r| && Mapped(r, GrownRegions(rs, how, size, |r|))
  {
    FollowsTop(s, rs, how, size, dirtyPages);
    match how
    case InRegion => GrownInRegion(s, rs, size, dirty, dirtyPages);
    case Bridge(n) => GrownBridge(s, rs, how, size, Follows(s.bs, how, BaseOf(rs, how)), dirty, dirtyPages);
    case NewRegion(b, n) => GrownElsewhere(s, rs, how, size, dirty, dirtyPages);
  }

  // Where the new pages start, and whether they follow the last block.
  lemma Acquire(s: Heap, rs: seq<Region>, how: Acquired, size: nat, dirtyPages: bool) returns (L: nat)
    requires Ok(s, dirtyPages, -1, {}) && Mapped(s.os, rs) && MayAcquire(rs, how, size) && size > 0
    ensures var c := Follows(s.bs, how, BaseOf(rs, how));
            && Contiguous(s.bs, BaseOf(rs, how), c) && BaseOf(rs, how) > 0
            && L == EndOf(s.bs, c) && |s.bs| - 1 <= L <= |s.os|
    ensures forall j :: 0 <= j < |rs| ==> rs[j].commitTop <= rs[j].reserveTop
  {
    GrownMapped(s, rs, how, size, dirtyPages, dirtyPages);
    FollowsTop(s, rs, how, size, dirtyPages);
    L := EndOf(s.bs, Follows(s.bs, how, BaseOf(rs, how)));
  }

  // How regions and pages stand after an expansion.
  ghost predicate RegionsGrown(os: seq<Page>, rs: seq<Region>, how: Acquired, size: nat, L: nat,
                               os': seq<Page>, rs': seq<Region>, dirtyPages: bool)
    requires MayAcquire(rs, how, size)
  {
    && L <= |os| && os' == GrownPages(os, L, BaseOf(rs, how), size, dirtyPages)
    && (forall j :: 0 <= j < |rs| ==> rs[j].commitTop <= rs[j].reserveTop)
    && rs' == GrownRegions(rs, how, size, L + size + 1) && Mapped(os', rs')
    && (how.NewRegion? && how.newSize == size && WholeRegions(rs) ==> WholeRegions(rs'))
  }

  lemma AcquiredMapped(s: Heap, rs: seq<Region>, how: Acquired, size: nat, L: nat, os': seq<Page>, dirtyPages: bool)
    requires Ok(s, dirtyPages, -1, {}) && Mapped(s.os, rs) && MayAcquire(rs, how, size) && size > 0
    requires var c := Follows(s.bs, how, BaseOf(rs, how)); (c ==> s.bs != []) && L == EndOf(s.bs, c) && L <= |s.os|
    requires os' == GrownPages(s.os, L, BaseOf(rs, how), size, dirtyPages)
    ensures |os'| == L + size + 1 && forall j :: 0 <= j < |rs| ==> rs[j].commitTop <= rs[j].reserveTop
    ensures Mapped(os', GrownRegions(rs, how, size, |os'|))
  {
    GrownMapped(s, rs, how, size, dirtyPages, dirtyPages);
    var r := Grown(s, BaseOf(rs, how), size, Follows(s.bs, how, BaseOf(rs, how)), dirtyPages).os;
    assert os' == r;
  }

  lemma AcquiredRegions(s: Heap, rs: seq<Region>, how: Acquired, size: nat, L: nat, os': seq<Page>, rs': seq<Region>,
                        dirtyPages: bool)
    requires Ok(s, dirtyPages, -1, {}) && Mapped(s.os, rs) && MayAcquire(rs, how, size) && size > 0
    requires var c := Follows(s.bs, how, BaseOf(rs, how)); (c ==> s.bs != []) && L == EndOf(s.bs, c) && L <= |s.os|
    requires os' == GrownPages(s.os, L, BaseOf(rs, how), size, dirtyPages)
    requires forall j :: 0 <= j < |rs| ==> rs[j].commitTop <= rs[j].reserveTop
    requires rs' == GrownRegions(rs, how, size, |os'|)
    ensures RegionsGrown(s.os, rs, how, size, L, os', rs', dirtyPages)
  {
    AcquiredMapped(s, rs, how, size, L, os', dirtyPages);
    WholeGrown(rs, how, size, |os'|);
  }

  lemma WholeGrown(rs: seq<Region>, how: Acquired, size: nat, len: nat)
    requires MayAcquire(rs, how, size) && size < len && forall j :: 0 <= j < |rs| ==> rs[j].commitTop <= rs[j].reserveTop
    ensures how.NewRegion? && how.newSize == size && WholeRegions(rs) ==> WholeRegions(GrownRegions(rs, how, size, len))
  {
  }

  // ------------------------------------------------------------------ what is taken from the new pages

  // The first pages go to the HeapBlock array, if it moves, the next one to the region
  // records, if there is no room for another.
  function Reserved(bs: seq<HeapBlock>, L: nat, arrayPages: nat, regionPages: nat): (r: seq<HeapBlock>)
    requires L < |bs| && regionPages <= 1 && arrayPages + regionPages < bs[L].size && L + bs[L].size < |bs|
    ensures |r| == |bs|
  {
    var b1 := if arrayPages > 0 then SplitAt(bs, L, arrayPages) else bs;
    if regionPages > 0 then SplitAt(b1, L + arrayPages, regionPages) else b1
  }

  // The first real block before L, going backwards.
  method LastBlock(bs: seq<HeapBlock>) returns (b: nat)
    requires Tiled(bs, -1) && bs != []
    ensures b < |bs| - 1 && bs[b].size == bs[|bs| - 1].sizePrevious && Head(bs[b])
  {
    var L := |bs| - 1;
    assert EntryOk(bs, L, -1);
    ghost var h := L - bs[L].sizePrevious;
    assert EntryOk(bs, h, -1);
    b := L - 1;
    while bs[b].size == 0
      invariant h <= b < L
      decreases b
    {
      b := b - 1;
    }
  }

  // Entry i of the new ones: up to three heads, and the sentinel.
  function NewEntry(base: nat, size: nat, sizePrevious: nat, dirty: bool, A: nat, R: nat, i: nat): HeapBlock
    requires R <= 1 && A + R < size
  {
    if i == size then CLEAR.(sizePrevious := size - A - R)
    else if i == 0 then HeapBlock(base, if A > 0 then A else if R > 0 then R else size, sizePrevious, true, dirty)
    else if i == A then HeapBlock(base + A, if R > 0 then R else size - A, A, true, dirty)
    else if i == A + R then HeapBlock(base + A + R, size - A - R, R, true, dirty)
    else CLEAR
  }

  // Splitting a block whose interior is not cleared yet: only heads and tags are written.
  lemma ReservedAt(bs: seq<HeapBlock>, L: nat, base: nat, size: nat, sizePrevious: nat, dirty: bool, A: nat, R: nat, i: nat)
    requires R <= 1 && A + R < size && L + size < |bs| && bs[L] == HeapBlock(base, size, sizePrevious, true, dirty) && i <= size
    ensures i == 0 || i == A || i == A + R ==>
              Reserved(bs, L, A, R)[L + i] == NewEntry(base, size, sizePrevious, dirty, A, R, i)
    ensures i != 0 && i != A && i != A + R && i != size ==> Reserved(bs, L, A, R)[L + i] == bs[L + i]
    ensures i == size ==>
              Reserved(bs, L, A, R)[L + size] == if A + R > 0 then bs[L + size].(sizePrevious := size - A - R) else bs[L + size]
  {
  }

  lemma ReservedBefore(bs: seq<HeapBlock>, L: nat, A: nat, R: nat, k: nat)
    requires L < |bs| && R <= 1 && A + R < bs[L].size && L + bs[L].size < |bs| && k < L
    ensures Reserved(bs, L, A, R)[k] == bs[k]
  {
  }

  // g, but the entries inside the array's own block are what raw holds there.
  function WithRaw(g: seq<HeapBlock>, raw: seq<HeapBlock>, L: nat, A: nat): (r: seq<HeapBlock>)
    requires L + A <= |g| && A <= |raw|
    ensures |r| == |g|
  {
    seq(|g|, k requires 0 <= k < |g| => if L < k < L + A then raw[k - L] else g[k])
  }

  ghost predicate Written(bs: seq<HeapBlock>, raw: seq<HeapBlock>, L: nat, base: nat, size: nat, sizePrevious: nat,
                          dirty: bool, start: seq<HeapBlock>) {
    && L <= |bs| && |raw| == size + 1 && |start| == L + size + 1
    && (forall k :: 0 <= k < L ==> start[k] == bs[k])
    && start[L] == HeapBlock(base, size, sizePrevious, true, dirty)
    && (forall k {:trigger start[k]} :: L < k < |start| ==> start[k] == raw[k - L])
  }

  lemma WrittenOk(bs: seq<HeapBlock>, raw: seq<HeapBlock>, L: nat, base: nat, size: nat, sizePrevious: nat, dirty: bool)
    requires L <= |bs| && |raw| == size + 1
    ensures Written(bs, raw, L, base, size, sizePrevious, dirty,
                    (bs[..L] + raw)[L := HeapBlock(base, size, sizePrevious, true, dirty)])
  {
  }

  lemma NewEntryOfStart(start: seq<HeapBlock>, L: nat, base: nat, size: nat, sizePrevious: nat, dirty: bool, A: nat, R: nat,
                        r: seq<HeapBlock>, i: nat)
    requires R <= 1 && A + R < size && L + size < |start| && i <= size
    requires start[L] == HeapBlock(base, size, sizePrevious, true, dirty)
    requires Rest(Reserved(start, L, A, R), r, L + A + R)
    ensures L + i < |r|
    ensures r[L + i] == if 0 < i < A then start[L + i] else NewEntry(base, size, sizePrevious, dirty, A, R, i)
  {
    ReservedAt(start, L, base, size, sizePrevious, dirty, A, R, A + R);
    ReservedAt(start, L, base, size, sizePrevious, dirty, A, R, i);
  }

  lemma NewEntryOfGrown(g: seq<HeapBlock>, L: nat, base: nat, size: nat, sizePrevious: nat, dirty: bool, A: nat, R: nat, i: nat)
    requires R <= 1 && A + R < size && L + size < |g| && i <= size
    requires g[L] == HeapBlock(base, size, sizePrevious, true, dirty)
    requires i == 0 || g[L + i] == if i == size then CLEAR.(sizePrevious := size) else CLEAR
    ensures Reserved(g, L, A, R)[L + i] == NewEntry(base, size, sizePrevious, dirty, A, R, i)
  {
    ReservedAt(g, L, base, size, sizePrevious, dirty, A, R, i);
  }

  // g holds the entries of bs and, from L on, one block of size pages and its sentinel.
  ghost predicate OneMore(bs: seq<HeapBlock>, g: seq<HeapBlock>, L: nat, base: nat, size: nat, sizePrevious: nat, dirty: bool) {
    && L <= |bs| && |g| == L + size + 1 && size > 0
    && (forall k :: 0 <= k < L ==> g[k] == bs[k])
    && g[L] == HeapBlock(base, size, sizePrevious, true, dirty)
    && (forall k :: L < k < L + size ==> g[k] == CLEAR)
    && g[L + size] == CLEAR.(sizePrevious := size)
  }

  lemma GrownOneMore(bs: seq<HeapBlock>, base: nat, size: nat, contiguous: bool, dirty: bool)
    requires (contiguous ==> bs != []) && 0 < size
    ensures OneMore(bs, GrownBlocks(bs, base, size, contiguous, dirty), EndOf(bs, contiguous), base, size,
                    if contiguous then bs[|bs| - 1].sizePrevious else 0, dirty)
  {
  }

  lemma ReservedNew(start: seq<HeapBlock>, g: seq<HeapBlock>, L: nat, base: nat, size: nat, sizePrevious: nat, dirty: bool,
                    A: nat, R: nat, r: seq<HeapBlock>, i: nat)
    requires R <= 1 && A + R < size && i <= size && L + size < |start| && L + size < |g|
    requires start[L] == g[L] == HeapBlock(base, size, sizePrevious, true, dirty)
    requires i == 0 || g[L + i] == if i == size then CLEAR.(sizePrevious := size) else CLEAR
    requires Rest(Reserved(start, L, A, R), r, L + A + R)
    ensures L + i < |r| && r[L + i] == if 0 < i < A then start[L + i] else Reserved(g, L, A, R)[L + i]
  {
    NewEntryOfStart(start, L, base, size, sizePrevious, dirty, A, R, r, i);
    NewEntryOfGrown(g, L, base, size, sizePrevious, dirty, A, R, i);
  }

  lemma OldEntry(bs: seq<HeapBlock>, start: seq<HeapBlock>, g: seq<HeapBlock>, L: nat, A: nat, R: nat, r: seq<HeapBlock>, k: nat)
    requires k < L < |start| == |g| && L <= |bs| && start[k] == bs[k] == g[k] && R <= 1
    requires A + R < start[L].size && L + start[L].size < |start| && g[L].size == start[L].size
    requires Rest(Reserved(start, L, A, R), r, L + A + R)
    ensures |r| == |g| && r[k] == Reserved(g, L, A, R)[k]
  {
    ReservedBefore(g, L, A, R, k);
    ReservedBefore(start, L, A, R, k);
  }

  // What the new entries are in the end, given what they were before the rest is cleared.
  lemma ReservedGrown(bs: seq<HeapBlock>, raw: seq<HeapBlock>, g: seq<HeapBlock>, L: nat, base: nat, size: nat,
                      sizePrevious: nat, dirty: bool, A: nat, R: nat, start: seq<HeapBlock>, r: seq<HeapBlock>)
    requires R <= 1 && A + R < size && OneMore(bs, g, L, base, size, sizePrevious, dirty)
    requires Written(bs, raw, L, base, size, sizePrevious, dirty, start)
    requires Rest(Reserved(start, L, A, R), r, L + A + R)
    ensures r == WithRaw(Reserved(g, L, A, R), raw, L, A)
  {
    var t := Reserved(g, L, A, R);
    forall k | 0 <= k < |r| ensures r[k] == if L < k < L + A then raw[k - L] else t[k] {
      if k < L {
        OldEntry(bs, start, g, L, A, R, r, k);
      } else {
        ReservedNew(start, g, L, base, size, sizePrevious, dirty, A, R, r, k - L);
      }
    }
  }

  // r is was with the entries after newBlock cleared and the sentinel in place.
  ghost predicate Rest(was: seq<HeapBlock>, r: seq<HeapBlock>, newBlock: nat) {
    && |r| == |was| && newBlock < |was| && newBlock + was[newBlock].size < |was|
    && (forall k {:trigger r[k]} :: 0 <= k < |r| ==>
          r[k] == if newBlock < k < newBlock + was[newBlock].size then CLEAR
                  else if k == newBlock + was[newBlock].size then CLEAR.(sizePrevious := was[newBlock].size)
                  else was[k])
  }

  method SizePrevious(bs: seq<HeapBlock>, contiguous: bool) returns (n: nat)
    requires Tiled(bs, -1) && (contiguous ==> bs != [])
    ensures n == if contiguous then bs[|bs| - 1].sizePrevious else 0
  {
    n := 0;
    if contiguous && EndOf(bs, contiguous) > 0 {
      var b := LastBlock(bs);
      n := bs[b].size;
    }
  }

  // The new entries, written in the order the heap writes them.  raw is what the memory
  // for them holds beforehand; inside the array's own block it stays there.
  method NewBlocks(bs: seq<HeapBlock>, raw: seq<HeapBlock>, base: nat, size: nat, contiguous: bool, dirty: bool,
                   arrayPages: nat, regionPages: nat) returns (r: seq<HeapBlock>, newBlock: nat)
    requires Tiled(bs, -1) && (contiguous ==> bs != []) && regionPages <= 1 && arrayPages + regionPages < size
    requires |raw| == size + 1
    ensures newBlock == EndOf(bs, contiguous) + arrayPages + regionPages
    ensures var L := EndOf(bs, contiguous);
            r == WithRaw(Reserved(GrownBlocks(bs, base, size, contiguous, dirty), L, arrayPages, regionPages), raw, L, arrayPages)
  {
    var L := EndOf(bs, contiguous);
    var sizePrevious := SizePrevious(bs, contiguous);
    var start := bs[..L] + raw;
    start := start[L := HeapBlock(base, size, sizePrevious, true, dirty)];
    r, newBlock := Carve(start, L, arrayPages, regionPages);
    r := ClearRest(r, newBlock);
    GrownWritten(bs, raw, base, size, contiguous, sizePrevious, dirty, arrayPages, regionPages, r);
  }

  lemma GrownWritten(bs: seq<HeapBlock>, raw: seq<HeapBlock>, base: nat, size: nat, contiguous: bool, sizePrevious: nat, dirty: bool,
                     A: nat, R: nat, r: seq<HeapBlock>)
    requires (contiguous ==> bs != []) && R <= 1 && A + R < size && |raw| == size + 1
    requires sizePrevious == if contiguous then bs[|bs| - 1].sizePrevious else 0
    requires var L := EndOf(bs, contiguous);
             Rest(Reserved((bs[..L] + raw)[L := HeapBlock(base, size, sizePrevious, true, dirty)], L, A, R), r, L + A + R)
    ensures var L := EndOf(bs, contiguous);
            r == WithRaw(Reserved(GrownBlocks(bs, base, size, contiguous, dirty), L, A, R), raw, L, A)
  {
    var L := EndOf(bs, contiguous);
    WrittenOk(bs, raw, L, base, size, sizePrevious, dirty);
    GrownOneMore(bs, base, size, contiguous, dirty);
    ReservedGrown(bs, raw, GrownBlocks(bs, base, size, contiguous, dirty), L, base, size, sizePrevious, dirty, A, R,
                  (bs[..L] + raw)[L := HeapBlock(base, size, sizePrevious, true, dirty)], r);
  }

  method Carve(start: seq<HeapBlock>, L: nat, arrayPages: nat, regionPages: nat) returns (r: seq<HeapBlock>, newBlock: nat)
    requires L < |start| && L + start[L].size < |start| && regionPages <= 1 && arrayPages + regionPages < start[L].size
    ensures r == Reserved(start, L, arrayPages, regionPages) && newBlock == L + arrayPages + regionPages
    ensures newBlock < |r| && r[newBlock].size == start[L].size - arrayPages - regionPages
  {
    r, newBlock := start, L;
    if arrayPages > 0 {
      r := SplitAt(r, L, arrayPages);
      newBlock := L + arrayPages;
    }
    if regionPages > 0 {
      r := SplitAt(r, newBlock, 1);
      newBlock := newBlock + 1;
    }
  }

  // Initialize the rest of the new blocks to empty, and fill in the sentinel.
  method ClearRest(was: seq<HeapBlock>, newBlock: nat) returns (r: seq<HeapBlock>)
    requires newBlock < |was| && was[newBlock].size > 0 && newBlock + was[newBlock].size < |was|
    ensures Rest(was, r, newBlock)
  {
    r := was;
    var freeBlockSize := r[newBlock].size;
    var i := 1;
    while i < freeBlockSize
      invariant 1 <= i <= freeBlockSize && |r| == |was|
      invariant forall k :: 0 <= k < |r| ==> r[k] == if newBlock < k < newBlock + i then CLEAR else was[k]
    {
      r := r[newBlock + i := CLEAR];
      i := i + 1;
    }
    r := r[newBlock + freeBlockSize := CLEAR.(sizePrevious := freeBlockSize)];
  }

  // The array is laid out right after it has grown exactly if the memory for the entries
  // inside its own block was empty.
  lemma LayoutIff(bs: seq<HeapBlock>, raw: seq<HeapBlock>, base: nat, size: nat, contiguous: bool, dirty: bool, A: nat, R: nat)
    requires Tiled(bs, -1) && Contiguous(bs, base, contiguous) && base > 0 && R <= 1 && A + R < size && |raw| == size + 1
    ensures var L := EndOf(bs, contiguous);
            Tiled(WithRaw(Reserved(GrownBlocks(bs, base, size, contiguous, dirty), L, A, R), raw, L, A), -1) <==>
              forall k :: 0 < k < A ==> Interior(raw[k])
  {
    var L := EndOf(bs, contiguous);
    var g := GrownBlocks(bs, base, size, contiguous, dirty);
    GrownTiled(bs, base, size, contiguous, dirty);
    ReservedTiled(g, L, size, A, R);
    RawTiledIff(Reserved(g, L, A, R), raw, L, A);
  }

  lemma RawTiledIff(t: seq<HeapBlock>, raw: seq<HeapBlock>, L: nat, A: nat)
    requires Tiled(t, -1) && L + A <= |t| && A <= |raw| && (A > 0 ==> L < |t| && t[L].size == A)
    ensures Tiled(WithRaw(t, raw, L, A), -1) <==> forall k :: 0 < k < A ==> Interior(raw[k])
  {
    var r := WithRaw(t, raw, L, A);
    if Tiled(r, -1) && A > 0 {
      assert EntryOk(r, L, -1);
      forall k | 0 < k < A ensures Interior(raw[k]) {
        assert r[L + k] == raw[k];
      }
    }
    if forall k :: 0 < k < A ==> Interior(raw[k]) {
      RawFlags(t, raw, L, A);
      FlagsTiled(t, r);
    }
  }

  lemma ReservedTiled(bs: seq<HeapBlock>, L: nat, size: nat, A: nat, R: nat)
    requires Tiled(bs, -1) && L < |bs| && bs[L].size == size && L + size < |bs| && R <= 1 && A + R < size
    ensures Tiled(Reserved(bs, L, A, R), -1)
    ensures A > 0 ==> Reserved(bs, L, A, R)[L].size == A
  {
    var b := bs;
    if A > 0 {
      SplitKeepsTiled(b, L, A, -1);
      b := SplitAt(b, L, A);
    }
    if R > 0 {
      SplitKeepsTiled(b, L + A, R, -1);
    }
  }

  // The flags of interior entries mean nothing.
  ghost predicate SameButFlags(t: seq<HeapBlock>, r: seq<HeapBlock>) {
    |r| == |t| && forall k {:trigger r[k]} :: 0 <= k < |r| ==> r[k] == t[k] || (Interior(r[k]) && Interior(t[k]))
  }

  lemma RawFlags(t: seq<HeapBlock>, raw: seq<HeapBlock>, L: nat, A: nat)
    requires Tiled(t, -1) && L + A <= |t| && A <= |raw| && (A > 0 ==> L < |t| && t[L].size == A)
    requires forall k :: 0 < k < A ==> Interior(raw[k])
    ensures SameButFlags(t, WithRaw(t, raw, L, A))
  {
    if A > 0 {
      assert EntryOk(t, L, -1);
    }
  }

  lemma FlagsTiled(t: seq<HeapBlock>, r: seq<HeapBlock>)
    requires Tiled(t, -1) && SameButFlags(t, r)
    ensures Tiled(r, -1)
  {
    forall h | 0 <= h < |r| ensures EntryOk(r, h, -1) {
      assert EntryOk(t, h, -1);
    }
  }

  lemma FlagsOk(t: Heap, u: Heap, dirtyPages: bool)
    requires Ok(t, dirtyPages, -1, {}) && u == t.(bs := u.bs) && SameButFlags(t.bs, u.bs)
    ensures Ok(u, dirtyPages, -1, {})
    ensures forall h :: 0 <= h < |u.bs| && Head(t.bs[h]) ==> u.bs[h] == t.bs[h]
    ensures forall h {:trigger InUse(u, h)} {:trigger InUse(t, h)} :: InUse(u, h) <==> InUse(t, h)
  {
    FlagsTiled(t.bs, u.bs);
    forall i, k | 0 <= i < |u.lists| && 0 <= k < |u.lists[i]| ensures PlaceOk(u.bs, u.lists, i, k) {
      assert PlaceOk(t.bs, t.lists, i, k);
    }
    forall i, k, m | 0 <= i < |u.lists| && 0 <= k < |u.lists[i]| && 0 <= m < |u.lists[i]|
      ensures Ordered(u.bs, u.lists[i], k, m)
    {
      assert Ordered(t.bs, t.lists[i], k, m) && PlaceOk(t.bs, t.lists, i, k) && PlaceOk(t.bs, t.lists, i, m);
    }
    forall h | 0 <= h < |u.bs| ensures FreeOk(u, dirtyPages, h) && PagesOk(u, h) && StoreOk(u, h) {
      assert FreeOk(t, dirtyPages, h) && PagesOk(t, h) && StoreOk(t, h) && EntryOk(t.bs, h, -1);
      if h + t.bs[h].size < |t.bs| {
        assert FreeOk(t, dirtyPages, h + t.bs[h].size);
      }
    }
  }

  lemma EnlargedFlags(s: Heap, t: Heap, u: Heap, L: nat, size: nat, A: nat, R: nat, dirtyPages: bool)
    requires EnlargedAll(s, t, L, size, A, R, dirtyPages) && u == t.(bs := u.bs) && SameButFlags(t.bs, u.bs)
    ensures EnlargedAll(s, u, L, size, A, R, dirtyPages)
  {
    FlagsOk(t, u, dirtyPages);
    forall h | 0 <= h < L ensures SameUse(s, u, h) {
      assert SameUse(s, t, h);
      assert InUse(t, h) <==> InUse(u, h);
    }
    forall h | L <= h < |u.bs| ensures InUse(u, h) <==> (A > 0 && h == L) || (R > 0 && h == L + A) || h == L + A + R {
      assert InUse(t, h) <==> InUse(u, h);
    }
  }

  // ------------------------------------------------------------------ the state in between

  ghost predicate IsEnlarged(s: Heap, t: Heap, base: nat, size: nat, contiguous: bool, dirtyPages: bool, A: nat, R: nat)
    requires |s.bs| == |s.links| == |s.os| && (contiguous ==> s.bs != []) && R <= 1 && A + R < size
  {
    var L := EndOf(s.bs, contiguous);
    && t.bs == Reserved(GrownBlocks(s.bs, base, size, contiguous, dirtyPages), L, A, R)
    && t.links == s.links[..L] + seq(size + 1, k => Links(Null, Null))
    && t.heads == s.heads && t.lists == s.lists
    && t.os == GrownPages(s.os, L, base, size, dirtyPages)
  }

  // What was in use below L still is; from L on the array's pages and the region page are,
  // and so is the block at free, if it is not negative.
  ghost predicate EnlargedUse(s: Heap, t: Heap, L: nat, A: nat, R: nat, size: nat, free: int) {
    && L <= |s.bs| && |t.bs| == |t.os| == L + size + 1
    && (forall h {:trigger SameUse(s, t, h)} :: 0 <= h < L ==> SameUse(s, t, h))
    && (forall h :: L <= h < |t.bs| ==> (InUse(t, h) <==> (A > 0 && h == L) || (R > 0 && h == L + A) || h == free))
    && (A > 0 ==> t.bs[L].size == A) && (R > 0 ==> L + A < |t.bs| && t.bs[L + A].size == R)
  }

  lemma SplitUsed(s: Heap, h: nat, n: nat, dirtyPages: bool)
    requires Ok(s, dirtyPages, -1, {}) && InUse(s, h) && 0 < n < s.bs[h].size
    ensures h + s.bs[h].size < |s.bs| && Ok(Split(s, h, n), dirtyPages, -1, {})
    ensures var r := Split(s, h, n); InUse(r, h) && InUse(r, h + n) && SameUsed(s, r, {h, h + n})
    ensures var r := Split(s, h, n); r.bs[h].size == n && r.bs[h + n].size == s.bs[h].size - n
    ensures s.bs[h].dirty || Zero(s, h, h + s.bs[h].size) ==> Zero(s, h + n, h + s.bs[h].size) || s.bs[h].dirty
    ensures var r := Split(s, h, n); r.bs[h + n].dirty == s.bs[h].dirty && r.bs[h + n].committed == s.bs[h].committed
  {
    SplitKeeps(s, h, n, dirtyPages, -1, {});
  }

  ghost predicate EnlargedAll(s: Heap, t: Heap, L: nat, size: nat, A: nat, R: nat, dirtyPages: bool) {
    var nb := L + A + R;
    && A + R < size && Ok(t, dirtyPages, -1, {}) && InUse(t, nb) && t.bs[nb].committed && t.bs[nb].dirty == dirtyPages
    && t.bs[nb].size == size - A - R
    && EnlargedUse(s, t, L, A, R, size, nb)
  }

  lemma EnlargedStart(s: Heap, base: nat, size: nat, contiguous: bool, dirtyPages: bool)
    requires Ok(s, dirtyPages, -1, {}) && Contiguous(s.bs, base, contiguous) && base > 0 && size > 0
    ensures EnlargedAll(s, Grown(s, base, size, contiguous, dirtyPages), EndOf(s.bs, contiguous), size, 0, 0, dirtyPages)
  {
    var L := EndOf(s.bs, contiguous);
    var g := Grown(s, base, size, contiguous, dirtyPages);
    GrownOk(s, base, size, contiguous, dirtyPages);
    forall h | 0 <= h < L ensures SameUse(s, g, h) {
      GrownSame(s, base, size, contiguous, dirtyPages, h);
      OldPages(s, base, size, contiguous, dirtyPages, h);
    }
  }

  lemma EnlargedStep(s: Heap, t: Heap, L: nat, size: nat, A: nat, R: nat, dirtyPages: bool)
    requires (R == 0 && A > 0 && EnlargedAll(s, t, L, size, 0, 0, dirtyPages)) || (R == 1 && EnlargedAll(s, t, L, size, A, 0, dirtyPages))
    requires A + R < size
    ensures var b, n := if R == 0 then L else L + A, if R == 0 then A else R;
            && b + t.bs[b].size < |t.bs| && n < t.bs[b].size
            && EnlargedAll(s, Split(t, b, n), L, size, A, R, dirtyPages)
  {
    var b, n := if R == 0 then L else L + A, if R == 0 then A else R;
    SplitUsed(t, b, n, dirtyPages);
    EnlargedSplit(s, t, Split(t, b, n), L, A, R, size);
  }

  // The array's pages are split off first, the page of region records behind them.
  lemma EnlargedReserved(s: Heap, g: Heap, L: nat, size: nat, A: nat, R: nat, dirtyPages: bool)
    requires EnlargedAll(s, g, L, size, 0, 0, dirtyPages) && R <= 1 && A + R < size && L + g.bs[L].size < |g.bs|
    ensures EnlargedAll(s, g.(bs := Reserved(g.bs, L, A, R)), L, size, A, R, dirtyPages)
  {
    var u := g.(bs := Reserved(g.bs, L, A, 0));
    if A > 0 {
      EnlargedStep(s, g, L, size, A, 0, dirtyPages);
      assert u == Split(g, L, A);
    } else {
      assert u == g;
    }
    if R == 1 {
      EnlargedStep(s, u, L, size, A, 1, dirtyPages);
      assert g.(bs := Reserved(g.bs, L, A, R)) == Split(u, L + A, 1);
    }
  }

  lemma EnlargedClear(s: Heap, t: Heap, base: nat, size: nat, contiguous: bool, dirtyPages: bool, A: nat, R: nat)
    requires Ok(s, dirtyPages, -1, {}) && Contiguous(s.bs, base, contiguous) && base > 0 && R <= 1 && A + R < size
    requires IsEnlarged(s, t, base, size, contiguous, dirtyPages, A, R)
    ensures EnlargedAll(s, t, EndOf(s.bs, contiguous), size, A, R, dirtyPages)
  {
    var L := EndOf(s.bs, contiguous);
    var g := Grown(s, base, size, contiguous, dirtyPages);
    EnlargedStart(s, base, size, contiguous, dirtyPages);
    EnlargedReserved(s, g, L, size, A, R, dirtyPages);
    assert t == g.(bs := Reserved(g.bs, L, A, R));
  }

  // Whatever flags the memory for the entries inside the array's own block held.
  lemma EnlargedOk(s: Heap, t: Heap, raw: seq<HeapBlock>, base: nat, size: nat, contiguous: bool, dirtyPages: bool, A: nat, R: nat)
    requires Ok(s, dirtyPages, -1, {}) && Contiguous(s.bs, base, contiguous) && base > 0 && R <= 1 && A + R < size
    requires |raw| == size + 1 && forall k :: 0 < k < A ==> Interior(raw[k])
    requires var L := EndOf(s.bs, contiguous);
             var g := Reserved(GrownBlocks(s.bs, base, size, contiguous, dirtyPages), L, A, R);
             t.bs == WithRaw(g, raw, L, A) && IsEnlarged(s, t.(bs := g), base, size, contiguous, dirtyPages, A, R)
    ensures EnlargedAll(s, t, EndOf(s.bs, contiguous), size, A, R, dirtyPages)
  {
    var L := EndOf(s.bs, contiguous);
    var u := t.(bs := Reserved(GrownBlocks(s.bs, base, size, contiguous, dirtyPages), L, A, R));
    EnlargedClear(s, u, base, size, contiguous, dirtyPages, A, R);
    RawFlags(u.bs, raw, L, A);
    EnlargedFlags(s, u, t, L, size, A, R, dirtyPages);
  }

  lemma OldPages(s: Heap, base: nat, size: nat, contiguous: bool, dirty: bool, h: nat)
    requires Tiled(s.bs, -1) && |s.bs| == |s.links| == |s.os| && (contiguous ==> s.bs != []) && size > 0
    requires h < EndOf(s.bs, contiguous)
    ensures var r := Grown(s, base, size, contiguous, dirty).os;
            forall k {:trigger s.os[k]} :: h <= k < h + s.bs[h].size && k < |s.os| ==> k < |r| && r[k] == s.os[k]
  {
    var r := Grown(s, base, size, contiguous, dirty).os;
    assert EntryOk(s.bs, h, -1);
    forall k {:trigger s.os[k]} | h <= k < h + s.bs[h].size && k < |s.os| ensures k < |r| && r[k] == s.os[k] {
      GrownSame(s, base, size, contiguous, dirty, k);
    }
  }

  // Splitting the last of the new blocks.
  lemma EnlargedSplit(s: Heap, t: Heap, u: Heap, L: nat, A: nat, R: nat, size: nat)
    requires L <= |s.bs|
    requires (R == 0 && A > 0 && EnlargedUse(s, t, L, 0, 0, size, L)) || (R == 1 && EnlargedUse(s, t, L, A, 0, size, L + A))
    requires R <= 1 && A + R < size && L + A + R < |t.bs|
    requires var b, n := if R == 0 then L else L + A, if R == 0 then A else R;
             InUse(u, b) && InUse(u, b + n) && SameUsed(t, u, {b, b + n}) && u.bs[b].size == n
    ensures EnlargedUse(s, u, L, A, R, size, L + A + R)
  {
    forall h | 0 <= h < L ensures SameUse(s, u, h) {
      assert SameUse(s, t, h) && SameUse(t, u, h);
    }
    forall h | L <= h < |u.bs| ensures InUse(u, h) <==> (A > 0 && h == L) || (R > 0 && h == L + A) || h == L + A + R {
      var b, n := if R == 0 then L else L + A, if R == 0 then A else R;
      if h != b && h != b + n {
        assert SameUse(t, u, h);
      }
    }
    if R == 1 && A > 0 {
      assert SameUse(t, u, L);
    }
  }

  // The free block goes on a list, and the block of the old array, if it moved, too.
  lemma EnlargedFiled(s: Heap, t: Heap, u: Heap, L: nat, A: nat, R: nat, size: nat)
    requires EnlargedUse(s, t, L, A, R, size, L + A + R) && SameUsed(t, u, {L + A + R}) && !InUse(u, L + A + R) && R <= 1
    requires A > 0 ==> InUse(t, L)
    requires R > 0 ==> InUse(t, L + A)
    ensures EnlargedUse(s, u, L, A, R, size, -1)
  {
    forall h | 0 <= h < L ensures SameUse(s, u, h) {
      assert SameUse(s, t, h) && SameUse(t, u, h);
    }
    forall h | L <= h < |u.bs| ensures InUse(u, h) <==> (A > 0 && h == L) || (R > 0 && h == L + A) {
      if h != L + A + R {
        assert SameUse(t, u, h);
      }
    }
    assert A > 0 ==> SameUse(t, u, L);
    assert R > 0 ==> SameUse(t, u, L + A);
  }

  // The pages that are left over are clean, where new pages are.
  lemma NewZero(t: Heap, L: nat, size: nat, A: nat, R: nat, dirtyPages: bool)
    requires A + R < size && Ok(t, dirtyPages, -1, {}) && InUse(t, L + A + R) && t.bs[L + A + R].size == size - A - R
    requires |t.os| == L + size + 1 && forall k :: L <= k < L + size ==> t.os[k].zero == !dirtyPages
    ensures Honest(t, L + A + R, dirtyPages, dirtyPages) && MergeSafe(t, L + A + R)
  {
    var nb := L + A + R;
    forall h | 0 <= h < |t.bs| && Free(t, h) && h + t.bs[h].size == nb && t.bs[h].committed && !t.bs[h].dirty
      ensures Zero(t, nb, nb + t.bs[nb].size)
    {
      assert FreeOk(t, dirtyPages, h);
    }
  }

  lemma OldFreed(s: Heap, t: Heap, u: Heap, L: nat, A: nat, R: nat, size: nat, b: nat)
    requires EnlargedUse(s, t, L, A, R, size, -1) && SameUsed(t, u, {b}) && !InUse(u, b) && b < L && R <= 1
    requires A + R < size
    ensures ExpandedUse(s, u, L, A, R, size, b)
  {
    forall h | 0 <= h < L && h != b ensures SameUse(s, u, h) {
      assert SameUse(s, t, h) && SameUse(t, u, h);
    }
    forall h | L <= h < |u.bs| ensures InUse(u, h) <==> (A > 0 && h == L) || (R > 0 && h == L + A) {
      assert SameUse(t, u, h);
    }
    assert A > 0 ==> SameUse(t, u, L);
    assert R > 0 ==> SameUse(t, u, L + A);
  }

  lemma StillUsed(s: Heap, t: Heap, L: nat, A: nat, R: nat, size: nat, b: nat, dirtyPages: bool)
    requires Ok(s, dirtyPages, -1, {}) && EnlargedUse(s, t, L, A, R, size, -1) && InUse(s, b) && |s.bs| - 1 <= L
    ensures InUse(t, b) && b < L
  {
    assert EntryOk(s.bs, b, -1) && b < L;
    assert SameUse(s, t, b);
  }

  lemma EnlargedPages(s: Heap, t: Heap, base: nat, size: nat, contiguous: bool, dirtyPages: bool, A: nat, R: nat)
    requires Ok(s, dirtyPages, -1, {}) && (contiguous ==> s.bs != []) && R <= 1 && A + R < size
    requires t.os == GrownPages(s.os, EndOf(s.bs, contiguous), base, size, dirtyPages)
    requires EnlargedAll(s, t, EndOf(s.bs, contiguous), size, A, R, dirtyPages)
    ensures var nb := EndOf(s.bs, contiguous) + A + R;
            nb < |t.bs| && Honest(t, nb, dirtyPages, dirtyPages) && MergeSafe(t, nb)
    ensures Uncommitted(t.os, 0, |t.os|) == Uncommitted(s.os, 0, |s.os|)
  {
    GrownCount(s, t.os, base, size, contiguous, dirtyPages);
    NewZero(t, EndOf(s.bs, contiguous), size, A, R, dirtyPages);
  }

  // What an expansion leaves in use.
  ghost predicate ExpandedUse(s: Heap, u: Heap, L: nat, A: nat, R: nat, size: nat, freed: int) {
    && |u.bs| == L + size + 1 && L <= |s.bs|
    && (forall h :: 0 <= h < L && h != freed ==> SameUse(s, u, h))
    && (forall h :: L <= h < |u.bs| ==> (InUse(u, h) <==> (A > 0 && h == L) || (R > 0 && h == L + A)))
    && (A > 0 ==> u.bs[L].size == A) && (R > 0 ==> L + A < |u.bs| && u.bs[L + A].size == R)
    && !InUse(u, freed)
  }
}
