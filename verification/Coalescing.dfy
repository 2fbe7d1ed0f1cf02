/**
 Merging a block with its free neighbours and cutting the tail off a decommitted one, as
 functions on the state (MMgc/GCHeap.cpp:1614-1627, 1784-1836).
 */
module Coalescing {
  import opened HeapLayout
  import opened FreeLists
  import opened HeapState
  import opened HeapSteps

  // Handing out the pages of b without clearing them is harmless: b is known to be dirty, or
  // its pages hold only zeros; new pages that are dirty are known to be.
  ghost predicate Honest(s: Heap, b: nat, dirty: bool, dirtyPages: bool)
    requires b < |s.bs|
  {
    (dirty || Zero(s, b, b + s.bs[b].size)) && (dirtyPages ==> dirty)
  }

  ghost predicate NoFreeBefore(s: Heap, b: int, committed: bool) {
    forall h :: 0 <= h < |s.bs| && Free(s, h) && h + s.bs[h].size == b ==> s.bs[h].committed != committed
  }

  ghost predicate NoFreeAfter(s: Heap, b: nat)
    requires b < |s.bs|
  {
    var e := b + s.bs[b].size;
    e < |s.bs| && Free(s, e) ==> s.bs[b].committed != s.bs[e].committed
  }

  // Merging into a clean committed predecessor forgets the dirty flag of b.
  ghost predicate MergeSafe(s: Heap, b: nat)
    requires b < |s.bs|
  {
    forall h :: 0 <= h < |s.bs| && Free(s, h) && h + s.bs[h].size == b && s.bs[h].committed && !s.bs[h].dirty ==>
      Zero(s, b, b + s.bs[b].size)
  }

  // The block before b, if there is one, is where its boundary tag says.
  lemma Predecessor(s: Heap, h: nat, b: nat, stale: int)
    requires Tiled(s.bs, stale) && h < |s.bs| && Head(s.bs[h]) && h + s.bs[h].size == b && h != stale
    ensures b < |s.bs| && s.bs[b].sizePrevious == s.bs[h].size
  {
    assert EntryOk(s.bs, h, stale);
  }

  // From s to t the block b was joined with the free committed block before it, if any:
  // block is where it starts now.
  ghost predicate JoinedPrevious(s: Heap, t: Heap, b: nat, block: nat, makeDirty: bool, dirtyPages: bool) {
    && Ok(t, dirtyPages, if block == b then -1 else block, {})
    && InUse(t, block) && t.bs[block].committed && t.os == s.os
    && SameUsed(s, t, {b, block})
    && (block != b ==> !InUse(s, block) && !InUse(t, b))
    && Honest(t, block, t.bs[block].dirty || makeDirty, dirtyPages)
    && NoFreeBefore(t, block, true)
  }

  // From s to t the block b was joined with the free committed block after it, if any.
  ghost predicate JoinedNext(s: Heap, t: Heap, b: nat, makeDirty: bool, stale: int, dirtyPages: bool) {
    && Ok(t, dirtyPages, stale, {})
    && InUse(t, b) && t.bs[b].committed && t.os == s.os
    && SameUsed(s, t, {b})
    && Honest(t, b, t.bs[b].dirty || makeDirty, dirtyPages)
    && NoFreeBefore(t, b, true) && NoFreeAfter(t, b)
  }

  // A block with no committed free block before it, going by its boundary tag.
  lemma NothingBefore(s: Heap, b: nat, makeDirty: bool, dirtyPages: bool)
    requires Ok(s, dirtyPages, -1, {}) && InUse(s, b) && s.bs[b].committed
    requires Honest(s, b, s.bs[b].dirty || makeDirty, dirtyPages)
    ensures s.bs[b].sizePrevious <= b
    ensures s.bs[b].sizePrevious != 0 ==>
              var p := b - s.bs[b].sizePrevious; p + s.bs[p].size == b && (Free(s, p) ==> Head(s.bs[p]))
    ensures s.bs[b].sizePrevious == 0 ==> JoinedPrevious(s, s, b, b, makeDirty, dirtyPages)
    ensures s.bs[b].sizePrevious != 0 ==>
              var p := b - s.bs[b].sizePrevious; (Free(s, p) && s.bs[p].committed) || JoinedPrevious(s, s, b, b, makeDirty, dirtyPages)
  {
    assert EntryOk(s.bs, b, -1);
    forall h | 0 <= h < |s.bs| && Free(s, h) && h + s.bs[h].size == b ensures s.bs[b].sizePrevious == s.bs[h].size {
      assert FreeOk(s, dirtyPages, h);
      Predecessor(s, h, b, -1);
    }
  }

  lemma MergePreviousOk(s: Heap, b: nat, i: nat, k: nat, makeDirty: bool, dirtyPages: bool)
    requires Ok(s, dirtyPages, -1, {}) && InUse(s, b) && s.bs[b].committed
    requires Honest(s, b, s.bs[b].dirty || makeDirty, dirtyPages) && (makeDirty || MergeSafe(s, b))
    requires i < NUM_LISTS && k < |s.lists[i]| && s.lists[i][k] < |s.bs|
    requires var p := s.lists[i][k]; p + s.bs[p].size == b && s.bs[p].committed
    ensures var p := s.lists[i][k];
            var r := Merge(Detached(s, i, k), p);
            JoinedPrevious(s, r, b, p, makeDirty || r.bs[p].dirty, dirtyPages)
  {
    var p := s.lists[i][k];
    var t := Detached(s, i, k);
    assert FreeOk(s, dirtyPages, p);
    DetachOk(s, i, k, dirtyPages, -1, {});
    MergeKeeps(t, p, dirtyPages, -1, {});
    SameUsedTransitive(s, t, Merge(t, p), {p}, {p, b});
    var r := Merge(t, p);
    forall h | 0 <= h < |r.bs| && Free(r, h) && h + r.bs[h].size == p ensures !r.bs[h].committed {
      assert FreeOk(s, dirtyPages, h);
    }
  }

  lemma NothingAfter(s: Heap, b: nat, makeDirty: bool, stale: int, dirtyPages: bool)
    requires Ok(s, dirtyPages, stale, {}) && (stale == -1 || stale == b) && InUse(s, b) && s.bs[b].committed
    requires Honest(s, b, s.bs[b].dirty || makeDirty, dirtyPages) && NoFreeBefore(s, b, true)
    ensures var e := b + s.bs[b].size;
            e < |s.bs| && ((Free(s, e) && s.bs[e].committed) || JoinedNext(s, s, b, makeDirty, stale, dirtyPages))
  {
    assert EntryOk(s.bs, b, stale);
  }

  lemma MergeNextOk(s: Heap, b: nat, i: nat, k: nat, makeDirty: bool, stale: int, dirtyPages: bool)
    requires Ok(s, dirtyPages, stale, {}) && (stale == -1 || stale == b) && InUse(s, b) && s.bs[b].committed
    requires Honest(s, b, s.bs[b].dirty || makeDirty, dirtyPages) && NoFreeBefore(s, b, true)
    requires i < NUM_LISTS && k < |s.lists[i]| && s.lists[i][k] == b + s.bs[b].size
    requires b + s.bs[b].size < |s.bs| && s.bs[b + s.bs[b].size].committed
    ensures var e := b + s.bs[b].size;
            var r := Merge(Detached(s, i, k), b);
            JoinedNext(s, r, b, makeDirty || r.bs[e].dirty, b, dirtyPages)
  {
    var e := b + s.bs[b].size;
    var t := Detached(s, i, k);
    assert FreeOk(s, dirtyPages, e);
    DetachOk(s, i, k, dirtyPages, stale, {});
    MergeOver(s, t, b, dirtyPages, stale, {}, {e});
  }

  // A block ready to be put on a list.
  ghost predicate Ready(s: Heap, b: nat, stale: int, held: set<int>, dirtyPages: bool) {
    && Ok(s, dirtyPages, stale, held) && InUse(s, b) && Backed(s, b)
    && (s.bs[b].committed ==> Honest(s, b, s.bs[b].dirty, dirtyPages))
    && NoFreeBefore(s, b, s.bs[b].committed) && NoFreeAfter(s, b)
  }

  function Tagged(bs: seq<HeapBlock>, b: nat, makeDirty: bool): (r: seq<HeapBlock>)
    requires b < |bs| && Head(bs[b]) && b + bs[b].size < |bs|
    ensures |r| == |bs|
  {
    var rs := Relink(bs, b);
    rs[b := rs[b].(dirty := rs[b].dirty || makeDirty)]
  }

  lemma TagCommitted(s: Heap, t: Heap, b: nat, makeDirty: bool, stale: int, dirtyPages: bool)
    requires JoinedNext(s, t, b, makeDirty, stale, dirtyPages) && (stale == -1 || stale == b)
    ensures b + t.bs[b].size < |t.bs|
    ensures var u := t.(bs := Tagged(t.bs, b, makeDirty)); Ready(u, b, -1, {}, dirtyPages) && SameUsed(s, u, {b})
  {
    RelinkKeeps(t, b, dirtyPages, stale, {});
    var r := t.(bs := Relink(t.bs, b));
    DirtyKeeps(r, b, r.bs[b].dirty || makeDirty, dirtyPages, -1, {});
    var u := t.(bs := Tagged(t.bs, b, makeDirty));
    assert StoreOk(u, b);
    SameUsedTransitive(s, t, r, {b}, {});
    SameUsedTransitive(s, r, u, {b}, {b});
    assert {b} + {} + {b} == {b};
  }

  lemma TagDecommitted(s: Heap, b: nat, stale: int, dirtyPages: bool)
    requires Tiled(s.bs, stale) && InUse(s, b) && b != stale
    ensures b + s.bs[b].size < |s.bs| && Tagged(s.bs, b, false) == s.bs
  {
    assert EntryOk(s.bs, b, stale);
  }

  lemma AddedBack(s: Heap, t: Heap, u: Heap, b: nat, block: nat)
    requires SameUsed(s, t, {b, block}) && SameUsed(t, u, {block}) && b < |s.bs| && block < |s.bs|
    requires block != b ==> !InUse(s, block)
    requires !InUse(u, block)
    ensures SameUsed(s, u, {b}) && (block != b && !InUse(t, b) ==> !InUse(u, b))
  {
    SameUsedTransitive(s, t, u, {b, block}, {block});
    assert block != b ==> SameUse(t, u, b);
    forall h | 0 <= h < |s.bs| && h !in {b} ensures SameUse(s, u, h) {
      if h != block {
        assert h !in {b, block} + {block};
      }
    }
  }

  lemma PruneOk(s: Heap, b: nat, n: nat, stale: int, held: set<int>, dirtyPages: bool)
    requires Ok(s, dirtyPages, stale, held) && InUse(s, b) && b in held && b != stale
    requires !s.bs[b].committed && Backed(s, b) && NoFreeAfter(s, b) && 0 < n < s.bs[b].size
    requires stale != b + n
    ensures b + s.bs[b].size < |s.bs|
    ensures var r := Split(s, b, n);
            && Ok(r, dirtyPages, stale, held + {b + n}) && SameUsed(s, r, {b, b + n})
            && InUse(r, b) && InUse(r, b + n) && !InUse(s, b + n) && !Free(s, b + n)
            && Backed(r, b) && Backed(r, b + n) && !r.bs[b + n].committed
            && NoFreeBefore(r, b + n, false) && NoFreeAfter(r, b + n)
  {
    SplitKeeps(s, b, n, dirtyPages, stale, held);
    assert EntryOk(s.bs, b, stale);
    var r := Split(s, b, n);
    forall h | 0 <= h < |r.bs| && Free(r, h) && h + r.bs[h].size == b + n ensures false {
      assert FreeOk(s, dirtyPages, h);
      if h < b {
        HeadsDisjoint(r.bs, h, b, stale);
      }
    }
  }

  // From s to t the tail of the decommitted block b, past n pages, went back to a free list.
  ghost predicate Pruned(s: Heap, t: Heap, b: nat, n: nat, stale: int, held: set<int>, dirtyPages: bool)
    requires b < |s.bs|
  {
    && Ok(t, dirtyPages, stale, held) && InUse(t, b) && Backed(t, b) && t.os == s.os
    && t.bs[b] == s.bs[b].(size := n)
    && SameUsed(s, t, {b})
    && (n == s.bs[b].size ==> t == s)
    && (forall h :: 0 <= h < |t.bs| ==> (Free(t, h) <==> Free(s, h) || (h == b + n && n < s.bs[b].size)))
    && (forall h :: 0 <= h < b ==> t.bs[h] == s.bs[h])
  }

  lemma PrunedOk(s: Heap, t: Heap, u: Heap, b: nat, n: nat, stale: int, held: set<int>, dirtyPages: bool)
    requires b < |s.bs| && 0 < n < s.bs[b].size && b + s.bs[b].size < |s.bs| && t == Split(s, b, n)
    requires InUse(s, b) && Backed(s, b) && SameUsed(s, t, {b, b + n}) && !InUse(s, b + n) && |s.links| == |s.bs|
    requires u.bs == t.bs && u.os == t.os && Ok(u, dirtyPages, stale, held + {b + n} - {b + n})
    requires SameUsed(t, u, {b + n}) && !InUse(u, b + n)
    requires forall h :: 0 <= h < |u.bs| ==> (Free(u, h) <==> Free(t, h) || h == b + n)
    ensures Pruned(s, u, b, n, stale, held, dirtyPages)
  {
    AddedBack(s, t, u, b, b + n);
    forall h | 0 <= h < |u.bs| && h !in held ensures StoreOk(u, h) {
      assert h !in held + {b + n} - {b + n};
    }
  }

  // ------------------------------------------------------------------ giving back both ends

  // The first n pages of b, which go back to the free lists, may be merged into a clean
  // block before them.
  ghost predicate SlopSafe(s: Heap, b: nat, n: nat) {
    forall h :: 0 <= h < |s.bs| && Free(s, h) && h + s.bs[h].size == b && s.bs[h].committed && !s.bs[h].dirty ==>
      Zero(s, b, b + n)
  }

  lemma SplitSlop(s: Heap, b: nat, n: nat, dirtyPages: bool)
    requires Ok(s, dirtyPages, -1, {}) && InUse(s, b) && s.bs[b].committed && 0 < n < s.bs[b].size
    requires Honest(s, b, s.bs[b].dirty, dirtyPages) && SlopSafe(s, b, n)
    ensures b + s.bs[b].size < |s.bs|
    ensures var t := Split(s, b, n);
            && Ok(t, dirtyPages, -1, {}) && SameUsed(s, t, {b, b + n}) && InUse(t, b) && InUse(t, b + n) && !InUse(s, b + n)
            && MergeSafe(t, b) && Honest(t, b, t.bs[b].dirty, dirtyPages)
  {
    SplitKeeps(s, b, n, dirtyPages, -1, {});
    assert EntryOk(s.bs, b, -1);
    var t := Split(s, b, n);
    forall h | 0 <= h < |t.bs| && Free(t, h) && h + t.bs[h].size == b && t.bs[h].committed && !t.bs[h].dirty
      ensures Zero(t, b, b + t.bs[b].size)
    {
      assert FreeOk(s, dirtyPages, h);
    }
  }

  lemma SplitTail(s: Heap, b: nat, n: nat, dirtyPages: bool)
    requires Ok(s, dirtyPages, -1, {}) && InUse(s, b) && s.bs[b].committed && 0 < n < s.bs[b].size
    requires Honest(s, b, s.bs[b].dirty, dirtyPages)
    ensures b + s.bs[b].size < |s.bs|
    ensures var t := Split(s, b, n);
            && Ok(t, dirtyPages, -1, {}) && SameUsed(s, t, {b, b + n}) && InUse(t, b) && InUse(t, b + n) && !InUse(s, b + n)
            && MergeSafe(t, b + n) && Honest(t, b + n, t.bs[b + n].dirty, dirtyPages)
  {
    SplitKeeps(s, b, n, dirtyPages, -1, {});
    assert EntryOk(s.bs, b, -1);
    var t := Split(s, b, n);
    forall h | 0 <= h < |t.bs| && Free(t, h) && h + t.bs[h].size == b + n ensures false {
      assert FreeOk(t, dirtyPages, h);
      Predecessor(t, h, b + n, -1);
    }
  }
}
