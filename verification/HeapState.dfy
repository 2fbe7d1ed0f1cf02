/**
 The invariant of the whole block manager: layout, free lists, commit state and zeroed
 pages taken together, and how it survives changes to blocks that are not on a list.
 */
module HeapState {
  import opened HeapLayout
  import opened FreeLists

  // One page of memory: its address (0 behind a sentinel), whether the operating system
  // backs it, and whether it is known to hold only zeros.
  datatype Page = Page(address: nat, committed: bool, zero: bool)

  datatype Heap = Heap(
    bs: seq<HeapBlock>,     // blocks
    links: seq<Links>,      // their prev and next fields
    heads: seq<Links>,      // freelists
    lists: Lists,           // the contents of the free lists, in order
    os: seq<Page>           // the page behind each entry
  )

  ghost predicate Free(s: Heap, h: int) {
    0 <= h < |s.links| && !s.links[h].prev.Null?
  }

  // ------------------------------------------------------------------ the free lists

  // Committed blocks are in the list of their size; decommitted ones there or in the last.
  ghost predicate PlaceOk(bs: seq<HeapBlock>, lists: Lists, i: nat, k: nat)
    requires i < |lists| && k < |lists[i]|
  {
    var b := lists[i][k];
    b < |bs| && Head(bs[b]) && (i == ListIndex(bs[b].size) || (i == NUM_LISTS - 1 && !bs[b].committed))
  }

  // No committed block comes after a larger block.
  ghost predicate Ordered(bs: seq<HeapBlock>, list: seq<nat>, k: nat, m: nat)
    requires k < |list| && m < |list|
  {
    k < m && list[k] < |bs| && list[m] < |bs| && bs[list[m]].committed ==> bs[list[k]].size <= bs[list[m]].size
  }

  ghost predicate Placed(bs: seq<HeapBlock>, lists: Lists) {
    && (forall i, k {:trigger PlaceOk(bs, lists, i, k)} ::
          0 <= i < |lists| && 0 <= k < |lists[i]| ==> PlaceOk(bs, lists, i, k))
    && (forall i, k, m {:trigger Ordered(bs, lists[i], k, m)} ::
          0 <= i < |lists| && 0 <= k < |lists[i]| && 0 <= m < |lists[i]| ==> Ordered(bs, lists[i], k, m))
  }

  // ------------------------------------------------------------------ the free blocks

  // Two adjacent free blocks never have the same commit state.
  ghost predicate NoTwin(s: Heap, h: nat)
    requires h < |s.bs|
  {
    var e := h + s.bs[h].size;
    Free(s, h) && Free(s, e) && e < |s.bs| ==> s.bs[h].committed != s.bs[e].committed
  }

  ghost predicate Zero(s: Heap, lo: int, hi: int) {
    forall k :: lo <= k < hi && 0 <= k < |s.os| ==> s.os[k].zero
  }

  // A free committed block that is not dirty holds only zeros.  Where the system hands out
  // dirty pages every free committed block is dirty.
  ghost predicate CleanOk(s: Heap, dirtyPages: bool, h: nat)
    requires h < |s.bs|
  {
    Free(s, h) && s.bs[h].committed ==>
      (s.bs[h].dirty || Zero(s, h, h + s.bs[h].size)) && (dirtyPages ==> s.bs[h].dirty)
  }

  ghost predicate FreeOk(s: Heap, dirtyPages: bool, h: nat)
    requires h < |s.bs|
  {
    && (Free(s, h) ==> Head(s.bs[h]))
    && NoTwin(s, h)
    && CleanOk(s, dirtyPages, h)
  }

  ghost predicate Listed(s: Heap, dirtyPages: bool) {
    && |s.links| == |s.bs|
    && Rings(s.links, s.heads, s.lists)
    && Placed(s.bs, s.lists)
    && (forall h {:trigger FreeOk(s, dirtyPages, h)} :: 0 <= h < |s.bs| ==> FreeOk(s, dirtyPages, h))
  }

  // ------------------------------------------------------------------ the memory behind the blocks

  // All pages of a block are committed, or none is.  A decommitted block is free and clean.
  ghost predicate StoreOk(s: Heap, h: nat)
    requires h < |s.bs|
  {
    Head(s.bs[h]) ==>
      && (forall k :: h <= k < h + s.bs[h].size && k < |s.os| ==> s.os[k].committed == s.bs[h].committed)
      && (!s.bs[h].committed ==> Free(s, h) && !s.bs[h].dirty)
  }

  // The pages of a block are where the block says they are.
  ghost predicate PagesOk(s: Heap, h: nat)
    requires h < |s.bs| == |s.os|
  {
    && (Head(s.bs[h]) ==> forall k :: h <= k < h + s.bs[h].size && k < |s.os| ==> s.os[k].address == s.bs[h].base + k - h)
    && (Sentinel(s.bs[h]) ==> s.os[h] == Page(0, true, false))
  }

  // `held` are heads an operation has taken off the lists and is still working on.
  ghost predicate Stored(s: Heap, held: set<int>) {
    && |s.os| == |s.bs|
    && (forall h {:trigger PagesOk(s, h)} :: 0 <= h < |s.bs| ==> PagesOk(s, h))
    && (forall h {:trigger StoreOk(s, h)} :: 0 <= h < |s.bs| && h !in held ==> StoreOk(s, h))
  }

  ghost predicate Ok(s: Heap, dirtyPages: bool, stale: int, held: set<int>) {
    Tiled(s.bs, stale) && Listed(s, dirtyPages) && Stored(s, held)
  }

  // ------------------------------------------------------------------ changing blocks that are not free

  // The blocks in r differ from those in s only where s has no free block, or in their
  // boundary tags.
  ghost predicate SameFree(s: Heap, r: Heap) {
    && |r.bs| == |s.bs| && |r.os| == |s.os|
    && r == s.(bs := r.bs, os := r.os)
    && (forall h :: 0 <= h < |s.bs| && Free(s, h) ==> r.bs[h] == s.bs[h].(sizePrevious := r.bs[h].sizePrevious))
    && (forall h, k :: 0 <= h < |s.bs| && Free(s, h) && h <= k < h + s.bs[h].size && k < |s.os| ==> r.os[k] == s.os[k])
  }

  lemma SameFreeListed(s: Heap, r: Heap, dirtyPages: bool)
    requires Listed(s, dirtyPages) && SameFree(s, r)
    ensures Listed(r, dirtyPages)
  {
    forall i, k | 0 <= i < |r.lists| && 0 <= k < |r.lists[i]| ensures PlaceOk(r.bs, r.lists, i, k) {
      assert PlaceOk(s.bs, s.lists, i, k);
      Neighbours(s.links, s.heads, s.lists, i, k);
    }
    forall i, k, m | 0 <= i < |r.lists| && 0 <= k < |r.lists[i]| && 0 <= m < |r.lists[i]|
      ensures Ordered(r.bs, r.lists[i], k, m)
    {
      assert Ordered(s.bs, s.lists[i], k, m);
      Neighbours(s.links, s.heads, s.lists, i, k);
      Neighbours(s.links, s.heads, s.lists, i, m);
    }
    forall h | 0 <= h < |r.bs| ensures FreeOk(r, dirtyPages, h) {
      assert FreeOk(s, dirtyPages, h);
    }
  }

  // ------------------------------------------------------------------ taking a block off its list

  ghost function Detached(s: Heap, i: nat, k: nat): Heap
    requires Rings(s.links, s.heads, s.lists) && i < NUM_LISTS && k < |s.lists[i]|
  {
    UnlinkKeepsRings(s.links, s.heads, s.lists, i, k);
    var b := s.lists[i][k];
    s.(links := Unlinked(s.links, b), heads := UnlinkedHeads(s.links, s.heads, b),
       lists := s.lists[i := Without(s.lists[i], k)])
  }

  lemma DetachedFree(s: Heap, i: nat, k: nat, h: nat)
    requires Rings(s.links, s.heads, s.lists) && i < NUM_LISTS && k < |s.lists[i]| && h < |s.links|
    ensures Free(Detached(s, i, k), h) <==> Free(s, h) && h != s.lists[i][k]
  {
    Neighbours(s.links, s.heads, s.lists, i, k);
    UnlinkedFrame(s.links, s.lists[i], i, k, h);
    if Free(s, h) {
      var j, m := Position(s.links, s.heads, s.lists, h);
    }
    if k + 1 < |s.lists[i]| {
      assert Apart(s.lists, i, k, i, k + 1);
    }
    if 0 < k {
      assert Apart(s.lists, i, k, i, k - 1);
    }
  }

  lemma WithoutKeepsPlaced(bs: seq<HeapBlock>, lists: Lists, i: nat, k: nat)
    requires Placed(bs, lists) && i < |lists| && k < |lists[i]|
    ensures Placed(bs, lists[i := Without(lists[i], k)])
  {
    var lists' := lists[i := Without(lists[i], k)];
    forall j, m | 0 <= j < |lists'| && 0 <= m < |lists'[j]| ensures PlaceOk(bs, lists', j, m) {
      assert PlaceOk(bs, lists, j, if j == i && m >= k then m + 1 else m);
    }
    forall j, m, q | 0 <= j < |lists'| && 0 <= m < |lists'[j]| && 0 <= q < |lists'[j]|
      ensures Ordered(bs, lists'[j], m, q)
    {
      assert Ordered(bs, lists[j], if j == i && m >= k then m + 1 else m, if j == i && q >= k then q + 1 else q);
    }
  }

  lemma DetachKeeps(s: Heap, i: nat, k: nat, dirtyPages: bool)
    requires Listed(s, dirtyPages) && i < NUM_LISTS && k < |s.lists[i]|
    ensures Listed(Detached(s, i, k), dirtyPages)
  {
    var r := Detached(s, i, k);
    UnlinkKeepsRings(s.links, s.heads, s.lists, i, k);
    WithoutKeepsPlaced(s.bs, s.lists, i, k);
    forall h | 0 <= h < |r.bs| ensures FreeOk(r, dirtyPages, h) {
      assert FreeOk(s, dirtyPages, h);
      DetachedFree(s, i, k, h);
      var e := h + s.bs[h].size;
      if e < |r.bs| {
        DetachedFree(s, i, k, e);
      }
    }
  }

  // ------------------------------------------------------------------ putting a block on a list

  ghost function Attached(s: Heap, i: nat, k: nat, b: nat): Heap
    requires Rings(s.links, s.heads, s.lists) && i < NUM_LISTS && k <= |s.lists[i]|
    requires b < |s.links| && !Free(s, b)
  {
    InsertKeepsRings(s.links, s.heads, s.lists, i, k, b);
    s.(links := Inserted(s.links, b, At(s.lists[i], i, k - 1), At(s.lists[i], i, k)),
       heads := InsertedHeads(s.heads, b, At(s.lists[i], i, k - 1), At(s.lists[i], i, k)),
       lists := s.lists[i := With(s.lists[i], k, b)])
  }

  lemma AttachedFree(s: Heap, i: nat, k: nat, b: nat, h: nat)
    requires Rings(s.links, s.heads, s.lists) && i < NUM_LISTS && k <= |s.lists[i]|
    requires b < |s.links| && !Free(s, b) && h < |s.links|
    ensures Free(Attached(s, i, k, b), h) <==> Free(s, h) || h == b
  {
    InsertKeepsRings(s.links, s.heads, s.lists, i, k, b);
    InsertedFrame(s.links, s.lists[i], i, k, b, h);
    if 0 < k {
      Neighbours(s.links, s.heads, s.lists, i, k - 1);
    }
    if k < |s.lists[i]| {
      Neighbours(s.links, s.heads, s.lists, i, k);
    }
  }

  // The block belongs at this place of this list: nothing larger before a committed block,
  // no smaller committed block after it.
  ghost predicate Fits(bs: seq<HeapBlock>, lists: Lists, i: nat, k: nat, b: nat) {
    && i < |lists| && k <= |lists[i]| && b < |bs| && Head(bs[b])
    && (i == ListIndex(bs[b].size) || (i == NUM_LISTS - 1 && !bs[b].committed))
    && (forall m :: 0 <= m < k && bs[b].committed && lists[i][m] < |bs| ==> bs[lists[i][m]].size <= bs[b].size)
    && (forall m :: k <= m < |lists[i]| && lists[i][m] < |bs| && bs[lists[i][m]].committed ==>
          bs[b].size <= bs[lists[i][m]].size)
  }

  // point is where the block belongs in list i.
  ghost predicate RightPlace(bs: seq<HeapBlock>, lists: Lists, i: nat, b: nat, point: Link) {
    i < |lists| && exists at: nat :: Fits(bs, lists, i, at, b) && point == At(lists[i], i, at)
  }

  lemma InsertKeepsOrder(bs: seq<HeapBlock>, list: seq<nat>, k: nat, b: nat, m: nat, q: nat)
    requires k <= |list| && b < |bs| && m <= |list| && q <= |list|
    requires m != k && q != k ==> Ordered(bs, list, if m > k then m - 1 else m, if q > k then q - 1 else q)
    requires forall m :: 0 <= m < k && bs[b].committed && list[m] < |bs| ==> bs[list[m]].size <= bs[b].size
    requires forall m :: k <= m < |list| && list[m] < |bs| && bs[list[m]].committed ==> bs[b].size <= bs[list[m]].size
    ensures Ordered(bs, With(list, k, b), m, q)
  {
    var list' := With(list, k, b);
    assert m != k ==> list'[m] == list[if m > k then m - 1 else m];
    assert q != k ==> list'[q] == list[if q > k then q - 1 else q];
  }

  lemma WithKeepsPlaced(bs: seq<HeapBlock>, lists: Lists, i: nat, k: nat, b: nat)
    requires Placed(bs, lists) && Fits(bs, lists, i, k, b)
    ensures Placed(bs, lists[i := With(lists[i], k, b)])
  {
    var lists' := lists[i := With(lists[i], k, b)];
    forall j, m | 0 <= j < |lists'| && 0 <= m < |lists'[j]| ensures PlaceOk(bs, lists', j, m) {
      if j != i || m != k {
        assert PlaceOk(bs, lists, j, if j == i && m > k then m - 1 else m);
      }
    }
    forall j, m, q | 0 <= j < |lists'| && 0 <= m < |lists'[j]| && 0 <= q < |lists'[j]|
      ensures Ordered(bs, lists'[j], m, q)
    {
      if j != i {
        assert Ordered(bs, lists[j], m, q);
      } else {
        if m != k && q != k {
          assert Ordered(bs, lists[i], if m > k then m - 1 else m, if q > k then q - 1 else q);
        }
        InsertKeepsOrder(bs, lists[i], k, b, m, q);
      }
    }
  }

  lemma AttachKeeps(s: Heap, i: nat, k: nat, b: nat, dirtyPages: bool)
    requires Listed(s, dirtyPages) && b < |s.bs| && !Free(s, b) && Fits(s.bs, s.lists, i, k, b)
    requires s.bs[b].committed ==> (s.bs[b].dirty || Zero(s, b, b + s.bs[b].size)) && (dirtyPages ==> s.bs[b].dirty)
    requires var e := b + s.bs[b].size; e < |s.bs| && Free(s, e) ==> s.bs[b].committed != s.bs[e].committed
    requires forall h :: 0 <= h < |s.bs| && Free(s, h) && h + s.bs[h].size == b ==> s.bs[b].committed != s.bs[h].committed
    ensures Listed(Attached(s, i, k, b), dirtyPages)
  {
    var r := Attached(s, i, k, b);
    InsertKeepsRings(s.links, s.heads, s.lists, i, k, b);
    WithKeepsPlaced(s.bs, s.lists, i, k, b);
    forall h | 0 <= h < |r.bs| ensures FreeOk(r, dirtyPages, h) {
      assert FreeOk(s, dirtyPages, h);
      AttachedFree(s, i, k, b, h);
      var e := h + s.bs[h].size;
      if e < |r.bs| {
        AttachedFree(s, i, k, b, e);
      }
    }
  }
}
