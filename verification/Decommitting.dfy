/**
 Giving the pages of a free block back to the operating system (MMgc/GCHeap.cpp:829-925).
 */
module Decommitting {
  import opened HeapLayout
  import opened FreeLists
  import opened HeapState
  import opened HeapSteps
  import opened Coalescing
  import opened Compaction
  import opened Regions

  // ------------------------------------------------------------------ the pages that are left

  // The committed pages behind blocks among these; what a decommit or a release reduces.
  function Resident(os: seq<Page>, lo: nat, hi: nat): (n: nat)
    requires lo <= hi <= |os|
  {
    if lo == hi then 0 else Resident(os, lo, hi - 1) + if os[hi - 1].committed && os[hi - 1].address != 0 then 1 else 0
  }

  lemma {:induction false} ResidentSplit(os: seq<Page>, lo: nat, mid: nat, hi: nat)
    requires lo <= mid <= hi <= |os|
    ensures Resident(os, lo, hi) == Resident(os, lo, mid) + Resident(os, mid, hi)
  {
    if mid < hi {
      ResidentSplit(os, lo, mid, hi - 1);
    }
  }

  lemma {:induction false} ResidentMoved(os: seq<Page>, r: seq<Page>, lo: nat, hi: nat, lo': nat)
    requires lo <= hi <= |os| && lo' + (hi - lo) <= |r|
    requires forall k :: lo <= k < hi ==> os[k] == r[k - lo + lo']
    ensures Resident(os, lo, hi) == Resident(r, lo', lo' + (hi - lo))
  {
    if lo < hi {
      ResidentMoved(os, r, lo, hi - 1, lo');
    }
  }

  lemma {:induction false} ResidentAll(os: seq<Page>, lo: nat, hi: nat, resident: bool)
    requires lo <= hi <= |os| && forall k :: lo <= k < hi ==> (os[k].committed && os[k].address != 0 <==> resident)
    ensures Resident(os, lo, hi) == if resident then hi - lo else 0
  {
    if lo < hi {
      ResidentAll(os, lo, hi - 1, resident);
    }
  }

  // Removing a committed block removes its pages and no others.
  lemma RemovedResident(s: Heap, h: nat)
    requires Removable(s, h) && Src(s.bs, h) <= |s.bs| && Stored(s, {})
    ensures Resident(Removed(s, h).os, 0, |Removed(s, h).os|) == Resident(s.os, 0, |s.os|) - s.bs[h].size
  {
    var e := h + s.bs[h].size;
    assert StoreOk(s, h) && PagesOk(s, h) && PagesOk(s, e) && EntryOk(s.bs, h, -1) && EntryOk(s.bs, e, -1);
    SlidResident(s.os, h, e, Src(s.bs, h), if NeedSentinel(s.bs, h) then [Page(0, true, false)] else []);
  }

  lemma SlidResident(os: seq<Page>, h: nat, e: nat, src: nat, sentinel: seq<Page>)
    requires h <= e <= src <= |os| && (forall k :: h <= k < e ==> os[k].committed && os[k].address != 0)
    requires forall k :: e <= k < src ==> os[k].address == 0
    requires forall k :: 0 <= k < |sentinel| ==> sentinel[k].address == 0
    ensures Resident(Slid(os, h, src, sentinel), 0, |Slid(os, h, src, sentinel)|) == Resident(os, 0, |os|) - (e - h)
  {
    var r := Slid(os, h, src, sentinel);
    var dst := h + |sentinel|;
    ResidentSplit(os, 0, h, |os|);
    ResidentSplit(os, h, e, |os|);
    ResidentSplit(os, e, src, |os|);
    ResidentAll(os, h, e, true);
    ResidentAll(os, e, src, false);
    ResidentMoved(os, r, 0, h, 0);
    ResidentMoved(os, r, src, |os|, dst);
    ResidentSplit(r, 0, h, |r|);
    ResidentSplit(r, h, dst, |r|);
    ResidentAll(r, h, dst, false);
  }

  // ------------------------------------------------------------------ decommitting one block

  function DecommitPages(os: seq<Page>, lo: nat, hi: nat): (r: seq<Page>)
    ensures |r| == |os|
  {
    seq(|os|, k requires 0 <= k < |os| => if lo <= k < hi then Page(os[k].address, false, false) else os[k])
  }

  function DecommitAt(s: Heap, h: nat): Heap
    requires h < |s.bs|
  {
    s.(bs := s.bs[h := s.bs[h].(committed := false, dirty := false)], os := DecommitPages(s.os, h, h + s.bs[h].size))
  }

  lemma DecommitCounts(s: Heap, h: nat)
    requires |s.os| == |s.bs| && h < |s.bs| && h + s.bs[h].size <= |s.os|
    requires forall k :: h <= k < h + s.bs[h].size ==> s.os[k].committed && s.os[k].address != 0
    ensures var r := DecommitAt(s, h).os;
            && Resident(r, 0, |r|) == Resident(s.os, 0, |s.os|) - s.bs[h].size
            && Uncommitted(r, 0, |r|) == Uncommitted(s.os, 0, |s.os|) + s.bs[h].size
  {
    var os, r, e := s.os, DecommitAt(s, h).os, h + s.bs[h].size;
    ResidentSplit(os, 0, h, |os|);
    ResidentSplit(os, h, e, |os|);
    ResidentSplit(r, 0, h, |r|);
    ResidentSplit(r, h, e, |r|);
    ResidentAll(os, h, e, true);
    ResidentAll(r, h, e, false);
    ResidentMoved(os, r, 0, h, 0);
    ResidentMoved(os, r, e, |os|, e);
    UncommittedSplit(os, 0, h, |os|);
    UncommittedSplit(os, h, e, |os|);
    UncommittedSplit(r, 0, h, |r|);
    UncommittedSplit(r, h, e, |r|);
    UncommittedAll(os, h, e, true);
    UncommittedAll(r, h, e, false);
    UncommittedSame(os, r, 0, h);
    UncommittedSame(os, r, e, |os|);
  }

  lemma DecommitListed(s: Heap, h: nat, dirtyPages: bool)
    requires Tiled(s.bs, -1) && Listed(s, dirtyPages) && |s.os| == |s.bs| && InUse(s, h)
    ensures Listed(DecommitAt(s, h), dirtyPages)
  {
    forall g | 0 <= g < |s.bs| && Free(s, g) ensures Head(s.bs[g]) && (g + s.bs[g].size <= h || h + s.bs[h].size <= g) {
      assert FreeOk(s, dirtyPages, g);
      if g < h {
        HeadsDisjoint(s.bs, g, h, -1);
      } else {
        HeadsDisjoint(s.bs, h, g, -1);
      }
    }
    SameFreeListed(s, DecommitAt(s, h), dirtyPages);
  }

  lemma DecommitStored(s: Heap, h: nat)
    requires Tiled(s.bs, -1) && Stored(s, {}) && |s.links| == |s.bs| && InUse(s, h)
    ensures Stored(DecommitAt(s, h), {h}) && SameUsed(s, DecommitAt(s, h), {h}) && Backed(DecommitAt(s, h), h)
  {
    var r := DecommitAt(s, h);
    assert EntryOk(s.bs, h, -1);
    forall g | 0 <= g < |s.bs| && g != h && Head(s.bs[g]) ensures g + s.bs[g].size <= h || h + s.bs[h].size <= g {
      if g < h {
        HeadsDisjoint(s.bs, g, h, -1);
      } else {
        HeadsDisjoint(s.bs, h, g, -1);
      }
    }
    forall g | 0 <= g < |r.bs| ensures PagesOk(r, g) {
      assert PagesOk(s, g);
    }
    forall g | 0 <= g < |r.bs| && g !in {h} ensures StoreOk(r, g) {
      assert StoreOk(s, g);
    }
    forall g | 0 <= g < |s.bs| && g !in {h} ensures SameUse(s, r, g) {
    }
  }

  // A decommitted block, on no list, being joined with its neighbours.
  ghost predicate Returning(s0: Heap, s: Heap, b: nat, stale: int, dirtyPages: bool) {
    && Ok(s, dirtyPages, stale, {b}) && (stale == -1 || stale == b)
    && InUse(s, b) && !s.bs[b].committed && Backed(s, b)
    && |s0.bs| == |s.bs| && s.os == s0.os
  }

  lemma DecommitKeeps(s: Heap, h: nat, dirtyPages: bool)
    requires Ok(s, dirtyPages, -1, {}) && InUse(s, h)
    ensures Returning(DecommitAt(s, h), DecommitAt(s, h), h, -1, dirtyPages) && SameUsed(s, DecommitAt(s, h), {h})
    ensures h + s.bs[h].size < |s.bs| && forall k :: h <= k < h + s.bs[h].size ==> s.os[k].committed && s.os[k].address != 0
  {
    FlagsKeepTiled(s.bs, DecommitAt(s, h).bs, -1);
    DecommitListed(s, h, dirtyPages);
    DecommitStored(s, h);
    assert EntryOk(s.bs, h, -1) && StoreOk(s, h) && PagesOk(s, h);
  }

  // Every committed free block there is one here, of the same size.
  ghost predicate NoneAdded(s: Heap, t: Heap) {
    && |t.bs| == |s.bs|
    && forall h {:trigger Free(t, h)} :: 0 <= h < |t.bs| && Free(t, h) && t.bs[h].committed ==>
         Free(s, h) && s.bs[h].committed && s.bs[h].size == t.bs[h].size
  }

  // A decommitted block is filed in the last list.
  lemma FiledBack(s: Heap, b: nat, k: nat, dirtyPages: bool)
    requires Ready(s, b, -1, {b}, dirtyPages) && !s.bs[b].committed && Fits(s.bs, s.lists, NUM_LISTS - 1, k, b)
    ensures var t := Attached(s, NUM_LISTS - 1, k, b);
            Ok(t, dirtyPages, -1, {}) && SameUsed(s, t, {b}) && !InUse(t, b) && NoneAdded(s, t)
  {
    AttachOk(s, NUM_LISTS - 1, k, b, dirtyPages, -1, {b});
    assert {b} - {b} == {};
  }

  ghost predicate JoinedBack(s: Heap, t: Heap, b: nat, block: nat, dirtyPages: bool) {
    && Returning(s, t, block, if block == b then -1 else block, dirtyPages)
    && SameUsed(s, t, {b, block}) && NoneAdded(s, t)
    && (block != b ==> !InUse(s, block) && !InUse(t, b))
    && NoFreeBefore(t, block, false)
  }

  lemma JoinBack(s: Heap, b: nat, i: nat, k: nat, dirtyPages: bool)
    requires Returning(s, s, b, -1, dirtyPages)
    requires i < NUM_LISTS && k < |s.lists[i]| && s.lists[i][k] < |s.bs|
    requires var p := s.lists[i][k]; p + s.bs[p].size == b && !s.bs[p].committed
    ensures JoinedBack(s, Merge(Detached(s, i, k), s.lists[i][k]), b, s.lists[i][k], dirtyPages)
  {
    var p := s.lists[i][k];
    var t := Detached(s, i, k);
    assert FreeOk(s, dirtyPages, p) && StoreOk(s, p);
    DetachOk(s, i, k, dirtyPages, -1, {b});
    MergeKeeps(t, p, dirtyPages, -1, {b} + {p});
    assert {b} + {p} - {b} == {p};
    SameUsedTransitive(s, t, Merge(t, p), {p}, {p, b});
    var r := Merge(t, p);
    forall h | 0 <= h < |r.bs| && Free(r, h) && h + r.bs[h].size == p ensures r.bs[h].committed {
      assert FreeOk(s, dirtyPages, h);
    }
  }

  lemma NothingBack(s: Heap, b: nat, dirtyPages: bool)
    requires Returning(s, s, b, -1, dirtyPages)
    ensures s.bs[b].sizePrevious <= b
    ensures s.bs[b].sizePrevious == 0 ==> JoinedBack(s, s, b, b, dirtyPages)
    ensures s.bs[b].sizePrevious != 0 ==>
              var p := b - s.bs[b].sizePrevious;
              p + s.bs[p].size == b && ((Free(s, p) && !s.bs[p].committed) || JoinedBack(s, s, b, b, dirtyPages))
  {
    assert EntryOk(s.bs, b, -1);
    forall h | 0 <= h < |s.bs| && Free(s, h) && h + s.bs[h].size == b ensures s.bs[b].sizePrevious == s.bs[h].size {
      assert FreeOk(s, dirtyPages, h);
      Predecessor(s, h, b, -1);
    }
  }

  ghost predicate JoinedOn(s: Heap, t: Heap, b: nat, stale: int, dirtyPages: bool) {
    && Returning(s, t, b, stale, dirtyPages) && SameUsed(s, t, {b}) && NoneAdded(s, t)
    && NoFreeBefore(t, b, false) && NoFreeAfter(t, b)
  }

  lemma JoinOn(s: Heap, b: nat, i: nat, k: nat, stale: int, dirtyPages: bool)
    requires Returning(s, s, b, stale, dirtyPages) && NoFreeBefore(s, b, false)
    requires i < NUM_LISTS && k < |s.lists[i]| && s.lists[i][k] == b + s.bs[b].size
    requires b + s.bs[b].size < |s.bs| && !s.bs[b + s.bs[b].size].committed
    ensures JoinedOn(s, Merge(Detached(s, i, k), b), b, b, dirtyPages)
  {
    var e := b + s.bs[b].size;
    var t := Detached(s, i, k);
    assert FreeOk(s, dirtyPages, e) && StoreOk(s, e);
    DetachOk(s, i, k, dirtyPages, stale, {b});
    MergeOver(s, t, b, dirtyPages, stale, {b} + {e}, {e});
    assert {b} + {e} - {e} == {b};
    JoinedFree(s, t, b);
  }

  lemma JoinedFree(s: Heap, t: Heap, b: nat)
    requires b < |s.bs| && b + s.bs[b].size < |s.bs| && s.bs[b].size > 0 && t.bs == s.bs && !Free(s, b)
    requires forall h :: 0 <= h < |s.bs| ==> (Free(t, h) <==> Free(s, h) && h != b + s.bs[b].size)
    requires NoFreeBefore(s, b, false)
    ensures NoFreeBefore(Merge(t, b), b, false) && NoneAdded(s, Merge(t, b))
  {
    var r := Merge(t, b);
    forall h | 0 <= h < |r.bs| && Free(r, h) ensures Free(s, h) && r.bs[h] == s.bs[h] {
      assert Free(t, h);
    }
  }

  lemma NothingOn(s: Heap, b: nat, stale: int, dirtyPages: bool)
    requires Returning(s, s, b, stale, dirtyPages) && NoFreeBefore(s, b, false)
    ensures var e := b + s.bs[b].size;
            e < |s.bs| && ((Free(s, e) && !s.bs[e].committed) || JoinedOn(s, s, b, stale, dirtyPages))
    ensures var e := b + s.bs[b].size; Free(s, e) ==> Head(s.bs[e])
  {
    assert EntryOk(s.bs, b, stale) && FreeOk(s, dirtyPages, b + s.bs[b].size);
  }

  lemma RelinkJoined(s: Heap, t: Heap, b: nat, stale: int, dirtyPages: bool)
    requires JoinedOn(s, t, b, stale, dirtyPages)
    ensures b + t.bs[b].size < |t.bs|
    ensures var u := t.(bs := Relink(t.bs, b)); Ready(u, b, -1, {b}, dirtyPages) && SameUsed(s, u, {b}) && NoneAdded(s, u)
  {
    RelinkKeeps(t, b, dirtyPages, stale, {b});
    var u := t.(bs := Relink(t.bs, b));
    SameUsedTransitive(s, t, u, {b}, {});
    assert {b} + {} == {b};
    forall h | 0 <= h < |u.bs| && Free(u, h) && u.bs[h].committed
      ensures Free(s, h) && s.bs[h].committed && s.bs[h].size == u.bs[h].size
    {
      assert Free(t, h);
    }
  }

  // From s to t joined with the block before, to v with the one after, to w on a list.
  lemma Filed(s: Heap, t: Heap, v: Heap, w: Heap, b: nat, block: nat, dirtyPages: bool)
    requires JoinedBack(s, t, b, block, dirtyPages) && SameUsed(t, v, {block}) && NoneAdded(t, v)
    requires SameUsed(v, w, {block}) && !InUse(w, block) && NoneAdded(v, w) && b < |s.bs| && block < |s.bs|
    ensures SameUsed(s, w, {b}) && !InUse(w, b) && NoneAdded(s, w)
  {
    SameUsedTransitive(s, t, v, {b, block}, {block});
    assert {b, block} + {block} == {b, block};
    assert block != b ==> SameUse(t, v, b);
    AddedBack(s, v, w, b, block);
    forall h | 0 <= h < |w.bs| && Free(w, h) && w.bs[h].committed
      ensures Free(s, h) && s.bs[h].committed && s.bs[h].size == w.bs[h].size
    {
      assert Free(v, h) && Free(t, h);
    }
  }

  // ------------------------------------------------------------------ what is in use survives

  // The same pages with the same flags, wherever the entry is now.
  ghost predicate SameBlock(s: Heap, h: nat, t: Heap, g: nat) {
    && InUse(s, h) && InUse(t, g) && t.bs[g] == s.bs[h].(sizePrevious := t.bs[g].sizePrevious)
    && h + s.bs[h].size <= |s.os| && g + s.bs[h].size <= |t.os|
    && t.os[g..g + s.bs[h].size] == s.os[h..h + s.bs[h].size]
  }

  ghost predicate Kept(s: Heap, t: Heap, h: nat) {
    exists g: nat :: SameBlock(s, h, t, g)
  }

  ghost predicate Preserved(s: Heap, t: Heap) {
    && (forall h: nat {:trigger Kept(s, t, h)} :: InUse(s, h) ==> Kept(s, t, h))
    && (forall g: nat {:trigger Kept(t, s, g)} :: InUse(t, g) ==> Kept(t, s, g))
  }

  lemma KeptTransitive(s: Heap, t: Heap, u: Heap, h: nat)
    requires InUse(s, h) && Preserved(s, t) && Preserved(t, u)
    ensures Kept(s, u, h)
  {
    assert Kept(s, t, h);
    var g: nat :| SameBlock(s, h, t, g);
    assert Kept(t, u, g);
    var f: nat :| SameBlock(t, g, u, f);
    assert SameBlock(s, h, u, f);
  }

  lemma PreservedTransitive(s: Heap, t: Heap, u: Heap)
    requires Preserved(s, t) && Preserved(t, u)
    ensures Preserved(s, u)
  {
    forall h: nat | InUse(s, h) ensures Kept(s, u, h) {
      KeptTransitive(s, t, u, h);
    }
    forall h: nat | InUse(u, h) ensures Kept(u, s, h) {
      KeptTransitive(u, t, s, h);
    }
  }

  lemma PreservedBySame(s: Heap, t: Heap, b: nat)
    requires Tiled(s.bs, -1) && Tiled(t.bs, -1) && |s.os| == |s.bs| && |t.os| == |t.bs|
    requires SameUsed(s, t, {b}) && !InUse(s, b) && !InUse(t, b)
    ensures Preserved(s, t)
  {
    forall h: nat | InUse(s, h) || InUse(t, h) ensures SameBlock(s, h, t, h) && SameBlock(t, h, s, h) {
      assert SameUse(s, t, h) && EntryOk(s.bs, h, -1) && EntryOk(t.bs, h, -1);
    }
  }

  lemma KeptByRemoval(s: Heap, t: Heap, b: nat, k: nat, dirtyPages: bool)
    requires Ok(s, dirtyPages, -1, {}) && Ok(t, dirtyPages, -1, {}) && Removable(t, b) && Src(t.bs, b) <= |t.bs|
    requires SameUsed(s, t, {b}) && !InUse(s, b) && k < |s.bs| && k != b && (InUse(s, k) || InUse(t, k))
    ensures Stays(t, b, k)
    ensures SameBlock(s, k, Removed(t, b), Slide(t.bs, b, k)) && SameBlock(Removed(t, b), Slide(t.bs, b, k), s, k)
  {
    assert SameUse(s, t, k) && EntryOk(s.bs, k, -1);
    RemovedUse(t, b, k, dirtyPages);
    SameBlockThrough(s, t, k, Removed(t, b), Slide(t.bs, b, k));
  }

  lemma SameBlockThrough(s: Heap, t: Heap, k: nat, u: Heap, g: nat)
    requires SameUse(s, t, k) && InUse(s, k) && InUse(u, g) && k + s.bs[k].size <= |s.os| == |t.os|
    requires u.bs[g] == t.bs[k].(sizePrevious := u.bs[g].sizePrevious)
    requires g + t.bs[k].size <= |u.os| && u.os[g..g + t.bs[k].size] == t.os[k..k + t.bs[k].size]
    ensures SameBlock(s, k, u, g) && SameBlock(u, g, s, k)
  {
    assert t.os[k..k + s.bs[k].size] == s.os[k..k + s.bs[k].size];
  }

  lemma PreservedByRemoval(s: Heap, t: Heap, b: nat, dirtyPages: bool)
    requires Ok(s, dirtyPages, -1, {}) && Ok(t, dirtyPages, -1, {}) && Removable(t, b) && Src(t.bs, b) <= |t.bs|
    requires SameUsed(s, t, {b}) && !InUse(s, b)
    ensures Preserved(s, Removed(t, b))
  {
    var r := Removed(t, b);
    forall h: nat | InUse(s, h) ensures Kept(s, r, h) {
      KeptByRemoval(s, t, b, h, dirtyPages);
    }
    forall g: nat | InUse(r, g) ensures Kept(r, s, g) {
      UsedOrigin(s, t, b, g, dirtyPages);
    }
  }

  lemma UsedOrigin(s: Heap, t: Heap, b: nat, g: nat, dirtyPages: bool)
    requires Ok(s, dirtyPages, -1, {}) && Ok(t, dirtyPages, -1, {}) && Removable(t, b) && Src(t.bs, b) <= |t.bs|
    requires SameUsed(s, t, {b}) && !InUse(s, b) && InUse(Removed(t, b), g)
    ensures Kept(Removed(t, b), s, g)
  {
    assert NeedSentinel(t.bs, b) ==> Removed(t, b).bs[b].size == 0;
    if !(NeedSentinel(t.bs, b) && g == b) {
      var k := Origin(t, b, g);
      Seen(t, b, k);
      KeptByRemoval(s, t, b, k, dirtyPages);
    }
  }

  // ------------------------------------------------------------------ one step of the walk

  // A free block, or part of it, has been decommitted, or its region has been given back.
  ghost predicate Reduced(s: Heap, t: Heap, rs: seq<Region>, n: int, dirtyPages: bool) {
    && Ok(t, dirtyPages, -1, {}) && Mapped(t.os, rs) && Preserved(s, t)
    && n >= 0 && Resident(t.os, 0, |t.os|) + n == Resident(s.os, 0, |s.os|)
  }

  lemma MappedSame(os: seq<Page>, r: seq<Page>, rs: seq<Region>)
    requires Mapped(os, rs) && |r| == |os| && forall k :: 0 <= k < |os| ==> r[k].address == os[k].address
    ensures Mapped(r, rs)
  {
    forall j | 0 <= j < |rs| ensures RegionOk(r, rs[j]) {
      assert RegionOk(os, rs[j]);
    }
    forall k | 0 <= k < |r| ensures Backing(r, rs, k) {
      assert Backing(os, rs, k);
    }
  }

  // ------------------------------------------------------------------ how far the walk has got

  // The lists above i hold no committed blocks.
  ghost predicate DoneAbove(s: Heap, i: int) {
    forall h {:trigger Free(s, h)} :: 0 <= h < |s.bs| && Free(s, h) && Head(s.bs[h]) && s.bs[h].committed ==>
      ListIndex(s.bs[h].size) <= i
  }

  // Nor does list i from place k on.
  ghost predicate DoneFrom(s: Heap, i: nat, k: nat) {
    i < |s.lists| && forall m :: k <= m < |s.lists[i]| ==> s.lists[i][m] < |s.bs| && !s.bs[s.lists[i][m]].committed
  }

  lemma DoneList(s: Heap, i: nat, dirtyPages: bool)
    requires Listed(s, dirtyPages) && i < NUM_LISTS && DoneAbove(s, i) && DoneFrom(s, i, 0)
    ensures DoneAbove(s, i - 1)
  {
    forall h | 0 <= h < |s.bs| && Free(s, h) && Head(s.bs[h]) && s.bs[h].committed
      ensures ListIndex(s.bs[h].size) <= i - 1
    {
      var j, m := Position(s.links, s.heads, s.lists, h);
      assert PlaceOk(s.bs, s.lists, j, m);
      assert s.lists[j][m] == h;
    }
  }

  lemma ReducedTransitive(s: Heap, t: Heap, u: Heap, rs: seq<Region>, rs': seq<Region>, n: int, n': int, dirtyPages: bool)
    requires Reduced(s, t, rs, n, dirtyPages) && Reduced(t, u, rs', n', dirtyPages)
    ensures Reduced(s, u, rs', n + n', dirtyPages)
  {
    PreservedTransitive(s, t, u);
  }

  lemma ReducedNot(s: Heap, rs: seq<Region>, dirtyPages: bool)
    requires Ok(s, dirtyPages, -1, {}) && Mapped(s.os, rs)
    ensures Reduced(s, s, rs, 0, dirtyPages)
  {
    assert SameUsed(s, s, {|s.bs|}) by {
      forall h | 0 <= h < |s.bs| && h !in {|s.bs|} ensures SameUse(s, s, h) {
      }
    }
    PreservedBySame(s, s, |s.bs|);
  }

  // Without virtual memory all of a region is committed.
  ghost predicate WholeRegions(rs: seq<Region>) {
    forall j :: 0 <= j < |rs| ==> rs[j].commitTop == rs[j].reserveTop
  }

  lemma WholeLeft(rs: seq<Region>, h: nat, n: int, j: nat)
    requires j < |rs|
    ensures WholeRegions(rs) ==> WholeRegions(DropRegion(LoweredRegions(rs, h, n), j))
  {
  }

  // Giving back b, which SameUsed says is all that changed since s0.
  lemma GivenBack(s0: Heap, s: Heap, rs: seq<Region>, rs': seq<Region>, b: nat, dirtyPages: bool)
    requires Ok(s0, dirtyPages, -1, {}) && Ok(s, dirtyPages, -1, {}) && Removable(s, b) && Src(s.bs, b) <= |s.bs|
    requires SameUsed(s0, s, {b}) && !InUse(s0, b) && s0.os == s.os
    requires Mapped(Removed(s, b).os, rs') && Ok(Removed(s, b), dirtyPages, -1, {})
    ensures Reduced(s0, Removed(s, b), rs', s.bs[b].size, dirtyPages)
  {
    PreservedByRemoval(s0, s, b, dirtyPages);
    RemovedResident(s, b);
  }
}
