/**
 Turning a run of free blocks, committed or not, into one committed block
 (MMgc/GCHeap.cpp:1534-1605).
 */
module RunAssembly {
  import opened HeapLayout
  import opened FreeLists
  import opened HeapState
  import opened HeapSteps
  import opened Coalescing

  // From h up to e there are only free blocks.
  ghost predicate RunTo(s: Heap, h: nat, e: nat)
    decreases e - h
  {
    h == e || (h < e && h < |s.bs| && Free(s, h) && Head(s.bs[h]) && RunTo(s, h + s.bs[h].size, e))
  }

  lemma {:induction false} RunSame(s: Heap, t: Heap, h: nat, e: nat)
    requires RunTo(s, h, e) && |t.bs| == |s.bs|
    requires forall k :: h <= k < e && k < |s.bs| && Free(s, k) ==> Free(t, k) && t.bs[k].size == s.bs[k].size
    ensures RunTo(t, h, e)
    decreases e - h
  {
    if h < e {
      RunSame(s, t, h + s.bs[h].size, e);
    }
  }

  // The committed ones among these pages hold only zeros, unless some may be dirty.
  ghost predicate Known(s: Heap, h: nat, n: nat, dirty: bool) {
    dirty || forall k :: h <= k < h + n && k < |s.os| && s.os[k].committed ==> s.os[k].zero
  }

  ghost predicate Fully(s: Heap, h: nat)
    requires h < |s.bs|
  {
    s.bs[h].committed && Backed(s, h)
  }

  // s0 is the state before; by now blocks from F on have been joined into F.
  ghost predicate Assembling(s0: Heap, s: Heap, F: nat, e: nat, size: nat, dirty: bool, stale: int, sloppy: bool, dirtyPages: bool) {
    && Ok(s, dirtyPages, stale, {F}) && (stale == -1 || stale == F) && |s0.bs| == |s.bs|
    && InUse(s, F) && s.bs[F].base == s0.bs[F].base && s0.bs[F].size <= s.bs[F].size
    && F + s.bs[F].size <= e && e - F >= size && (s.bs[F].size < size ==> RunTo(s, F + s.bs[F].size, e))
    && SameUsed(s0, s, {F})
    && (!sloppy ==> Fully(s, F))
    && Known(s, F, s.bs[F].size, dirty || dirtyPages)
    && (dirtyPages ==> dirty || (s.bs[F].size == s0.bs[F].size && !s0.bs[F].committed))
    && (s.bs[F].size == s0.bs[F].size && F + s.bs[F].size < |s.bs| && Free(s, F + s.bs[F].size) ==>
          s.bs[F + s.bs[F].size].committed != s0.bs[F].committed)
    && (s0.bs[F].committed || Known(s, F, s0.bs[F].size, dirtyPages))
    && NoFreeBefore(s, F, s0.bs[F].committed)
  }

  // The next block of the run has been taken off its list, to be joined to F.
  ghost predicate Adjoined(s0: Heap, s: Heap, F: nat, e: nat, size: nat, stale: int, dirtyPages: bool) {
    && InUse(s, F) && Ok(s, dirtyPages, stale, {F, F + s.bs[F].size})
    && (stale == -1 || stale == F) && |s0.bs| == |s.bs| && s.bs[F].base == s0.bs[F].base && s0.bs[F].size <= s.bs[F].size
    && var next := F + s.bs[F].size;
    && InUse(s, next) && !InUse(s0, next)
    && var total := s.bs[F].size + s.bs[next].size;
    && F + total <= e && e - F >= size && (total < size ==> RunTo(s, F + total, e))
    && SameUsed(s0, s, {F, next})
    && NoFreeBefore(s, F, s0.bs[F].committed)
  }

  // What is known of the pages of F and the next block; `ready` when that block is
  // committed, or all is to be committed in one go at the end.
  ghost predicate Prepared(s0: Heap, s: Heap, F: nat, dirty: bool, sloppy: bool, dirtyPages: bool, ready: bool)
    requires F < |s.bs| && F + s.bs[F].size < |s.bs| == |s0.bs|
  {
    var next := F + s.bs[F].size;
    && (!sloppy ==> Fully(s, F) && (ready ==> Fully(s, next)))
    && Known(s, F, s.bs[F].size + s.bs[next].size, dirty || dirtyPages)
    && (dirtyPages ==> dirty)
    && (s0.bs[F].committed || Known(s, F, s0.bs[F].size, dirtyPages))
    && (!ready ==> !s.bs[next].committed && Backed(s, next))
  }

  ghost predicate Joining(s0: Heap, s: Heap, F: nat, e: nat, size: nat, dirty: bool, stale: int, sloppy: bool, dirtyPages: bool,
                          ready: bool) {
    Adjoined(s0, s, F, e, size, stale, dirtyPages) && Prepared(s0, s, F, dirty, sloppy, dirtyPages, ready)
  }

  // What is known of the pages of the next block.
  lemma NextKnown(s0: Heap, s: Heap, F: nat, e: nat, size: nat, dirty: bool, stale: int, sloppy: bool, dirtyPages: bool)
    requires F < |s.bs| && Assembling(s0, s, F, e, size, dirty, stale, sloppy, dirtyPages) && s.bs[F].size < size
    ensures var next := F + s.bs[F].size;
            && next < |s.bs| && Free(s, next) && Head(s.bs[next]) && next + s.bs[next].size <= e
            && RunTo(s, next + s.bs[next].size, e) && next > F && !InUse(s0, next)
    ensures var next := F + s.bs[F].size;
            var dirty' := dirty || (s.bs[next].committed && s.bs[next].dirty);
            Known(s, F, s.bs[F].size + s.bs[next].size, dirty' || dirtyPages) && (dirtyPages ==> dirty')
    ensures var next := F + s.bs[F].size; Backed(s, next) && NoFreeAfter(s, next)
  {
    var next := F + s.bs[F].size;
    assert RunTo(s, next + s.bs[next].size, e);
    assert FreeOk(s, dirtyPages, next) && StoreOk(s, next);
    assert SameUse(s0, s, next);
  }

  lemma TakeAdjoined(s0: Heap, s: Heap, F: nat, e: nat, size: nat, dirty: bool, stale: int, sloppy: bool, dirtyPages: bool,
                     i: nat, k: nat)
    requires F < |s.bs| && Assembling(s0, s, F, e, size, dirty, stale, sloppy, dirtyPages) && s.bs[F].size < size
    requires i < NUM_LISTS && k < |s.lists[i]| && s.lists[i][k] == F + s.bs[F].size
    ensures Adjoined(s0, Detached(s, i, k), F, e, size, stale, dirtyPages)
  {
    var next := F + s.bs[F].size;
    var r := Detached(s, i, k);
    NextKnown(s0, s, F, e, size, dirty, stale, sloppy, dirtyPages);
    DetachOk(s, i, k, dirtyPages, stale, {F});
    SameUsedIn(s0, s, r, {F}, {next}, {F, next});
    assert Stored(r, {F, next});
    if s.bs[F].size + s.bs[next].size < size {
      RunSame(s, r, next + s.bs[next].size, e);
    }
  }

  lemma TakeNext(s0: Heap, s: Heap, F: nat, e: nat, size: nat, dirty: bool, stale: int, sloppy: bool, dirtyPages: bool,
                 i: nat, k: nat)
    requires F < |s.bs| && Assembling(s0, s, F, e, size, dirty, stale, sloppy, dirtyPages) && s.bs[F].size < size
    requires i < NUM_LISTS && k < |s.lists[i]| && s.lists[i][k] == F + s.bs[F].size
    ensures F + s.bs[F].size < |s.bs|
    ensures var next := s.bs[F + s.bs[F].size];
            Joining(s0, Detached(s, i, k), F, e, size, dirty || (next.committed && next.dirty), stale, sloppy, dirtyPages,
                    next.committed)
    ensures var next := F + s.bs[F].size; !s.bs[next].committed ==> NoFreeAfter(Detached(s, i, k), next)
  {
    NextKnown(s0, s, F, e, size, dirty, stale, sloppy, dirtyPages);
    TakeAdjoined(s0, s, F, e, size, dirty, stale, sloppy, dirtyPages, i, k);
    DetachOk(s, i, k, dirtyPages, stale, {F});
  }

  lemma PruneTaken(s0: Heap, s: Heap, t: Heap, F: nat, e: nat, size: nat, dirty: bool, stale: int, sloppy: bool, dirtyPages: bool,
                   n: nat)
    requires F < |s.bs| && Joining(s0, s, F, e, size, dirty, stale, sloppy, dirtyPages, false)
    requires var next := F + s.bs[F].size; 0 < n <= s.bs[next].size && Pruned(s, t, next, n, stale, {F, next}, dirtyPages)
    requires n == s.bs[F + s.bs[F].size].size || s.bs[F].size + n == size
    ensures Joining(s0, t, F, e, size, dirty, stale, sloppy, dirtyPages, false)
  {
    var next := F + s.bs[F].size;
    if n < s.bs[next].size {
      SameUsedTransitive(s0, s, t, {F, next}, {next});
      assert {F, next} + {next} == {F, next};
    }
  }

  lemma CommitAdjoined(s0: Heap, s: Heap, F: nat, e: nat, size: nat, stale: int, dirtyPages: bool)
    requires F < |s.bs| && Adjoined(s0, s, F, e, size, stale, dirtyPages)
    ensures var next := F + s.bs[F].size; next + s.bs[next].size < |s.bs|
    ensures Adjoined(s0, CommitAt(s, F + s.bs[F].size, dirtyPages), F, e, size, stale, dirtyPages)
  {
    var next := F + s.bs[F].size;
    var r := CommitAt(s, next, dirtyPages);
    CommitKeeps(s, next, dirtyPages, stale, {F, next});
    assert Stored(r, {F, next});
    assert EntryOk(s.bs, next, stale);
    SameUsedTransitive(s0, s, r, {F, next}, {next});
    assert {F, next} + {next} == {F, next};
    if s.bs[F].size + s.bs[next].size < size {
      RunSame(s, r, next + s.bs[next].size, e);
    }
  }

  lemma CommitPrepared(s0: Heap, s: Heap, F: nat, dirty: bool, sloppy: bool, dirtyPages: bool)
    requires F < |s.bs| && F + s.bs[F].size < |s.bs| == |s0.bs| == |s.os| && Head(s.bs[F])
    requires var next := F + s.bs[F].size; next + s.bs[next].size < |s.bs|
    requires Prepared(s0, s, F, dirty, sloppy, dirtyPages, false)
    ensures Prepared(s0, CommitAt(s, F + s.bs[F].size, dirtyPages), F, dirty, sloppy, dirtyPages, true)
  {
  }

  lemma CommitTaken(s0: Heap, s: Heap, F: nat, e: nat, size: nat, dirty: bool, stale: int, sloppy: bool, dirtyPages: bool)
    requires F < |s.bs| && Joining(s0, s, F, e, size, dirty, stale, sloppy, dirtyPages, false)
    ensures var next := F + s.bs[F].size; next + s.bs[next].size < |s.bs|
    ensures Joining(s0, CommitAt(s, F + s.bs[F].size, dirtyPages), F, e, size, dirty, stale, sloppy, dirtyPages, true)
  {
    CommitAdjoined(s0, s, F, e, size, stale, dirtyPages);
    CommitPrepared(s0, s, F, dirty, sloppy, dirtyPages);
  }

  // With sloppy commit the block is committed at the end, with all the others.
  lemma LeaveUncommitted(s0: Heap, s: Heap, F: nat, e: nat, size: nat, dirty: bool, stale: int, dirtyPages: bool)
    requires F < |s.bs| && Joining(s0, s, F, e, size, dirty, stale, true, dirtyPages, false)
    ensures Joining(s0, s, F, e, size, dirty, stale, true, dirtyPages, true)
  {
  }

  lemma JoinKeeps(s0: Heap, s: Heap, F: nat, e: nat, size: nat, dirty: bool, stale: int, sloppy: bool, dirtyPages: bool)
    requires F < |s.bs| && Joining(s0, s, F, e, size, dirty, stale, sloppy, dirtyPages, true)
    ensures F + s.bs[F].size < |s.bs| && Assembling(s0, Merge(s, F), F, e, size, dirty, F, sloppy, dirtyPages)
  {
    var next := F + s.bs[F].size;
    var r := Merge(s, F);
    MergeOver(s0, s, F, dirtyPages, stale, {F, next}, {F, next});
    assert {F, next} - {next} == {F};
    assert EntryOk(s.bs, next, stale);
    if r.bs[F].size < size {
      RunSame(s, r, F + r.bs[F].size, e);
    }
  }

  // ------------------------------------------------------------------ the beginning and the end

  lemma StartAssembling(s: Heap, F: nat, e: nat, size: nat, sloppy: bool, dirtyPages: bool, i: nat, k: nat)
    requires Ok(s, dirtyPages, -1, {}) && RunTo(s, F, e) && F < e && e - F >= size
    requires i < NUM_LISTS && k < |s.lists[i]| && s.lists[i][k] == F
    ensures var r := Detached(s, i, k);
            var dirty := s.bs[F].dirty;
            && Assembling(s, r, F, e, size, dirty, -1, sloppy || !s.bs[F].committed, dirtyPages)
            && (!s.bs[F].committed ==> !dirty && Assembling(s, CommitAt(r, F, dirtyPages), F, e, size, dirty, -1, false, dirtyPages))
            && Backed(r, F) && NoFreeAfter(r, F) && r.bs == s.bs && F + s.bs[F].size < |s.bs|
  {
    var r := Detached(s, i, k);
    assert FreeOk(s, dirtyPages, F) && StoreOk(s, F) && EntryOk(s.bs, F, -1);
    assert RunTo(s, F + s.bs[F].size, e);
    DetachOk(s, i, k, dirtyPages, -1, {});
    assert Stored(r, {F});
    forall h | 0 <= h < |r.bs| && Free(r, h) && h + r.bs[h].size == F ensures r.bs[h].committed != s.bs[F].committed {
      assert FreeOk(s, dirtyPages, h);
    }
    if s.bs[F].size < size {
      RunSame(s, r, F + s.bs[F].size, e);
    }
    if !s.bs[F].committed {
      StartCommitted(s, r, F, e, size, dirtyPages);
    }
  }

  lemma StartCommitted(s0: Heap, s: Heap, F: nat, e: nat, size: nat, dirtyPages: bool)
    requires F < |s.bs| && F < |s0.bs| && Assembling(s0, s, F, e, size, false, -1, true, dirtyPages)
    requires s.bs[F] == s0.bs[F] && !s.bs[F].committed && Backed(s, F)
    ensures Assembling(s0, CommitAt(s, F, dirtyPages), F, e, size, false, -1, false, dirtyPages)
  {
    var r := CommitAt(s, F, dirtyPages);
    CommitKeeps(s, F, dirtyPages, -1, {F});
    assert Stored(r, {F});
    SameUsedTransitive(s0, s, r, {F}, {F});
    assert {F} + {F} == {F};
    if s.bs[F].size < size {
      RunSame(s, r, F + s.bs[F].size, e);
    }
  }

  // The free blocks from F on, up to e at most, have become the committed block F.
  ghost predicate Created(s0: Heap, s: Heap, F: nat, e: nat, size: nat, dirtyPages: bool) {
    && Ok(s, dirtyPages, -1, {}) && |s0.bs| == |s.bs|
    && InUse(s, F) && s.bs[F].committed && s.bs[F].base == s0.bs[F].base
    && size <= s.bs[F].size && F + s.bs[F].size <= e
    && SameUsed(s0, s, {F})
    && Honest(s, F, s.bs[F].dirty, dirtyPages)
    && (s0.bs[F].committed || dirtyPages ||
          Zero(s, F, F + if s0.bs[F].size < s.bs[F].size then s0.bs[F].size else s.bs[F].size))
    && NoFreeBefore(s, F, s0.bs[F].committed)
  }

  // A single decommitted block, cut to the size needed.
  lemma CreatedFromOne(s0: Heap, s: Heap, t: Heap, F: nat, e: nat, size: nat, n: nat, dirtyPages: bool)
    requires F < |s.bs| && F < |s0.bs| && Assembling(s0, s, F, e, size, false, -1, true, dirtyPages)
    requires s.bs[F] == s0.bs[F] && !s.bs[F].committed
    requires size <= n <= s.bs[F].size && 0 < n && Pruned(s, t, F, n, -1, {F}, dirtyPages)
    ensures Created(s0, CommitAt(t, F, dirtyPages), F, e, size, dirtyPages)
  {
    var r := CommitAt(t, F, dirtyPages);
    CommitKeeps(t, F, dirtyPages, -1, {F});
    assert {F} - {F} == {};
    SameUsedTransitive(s0, s, t, {F}, {F});
    SameUsedTransitive(s0, t, r, {F} + {F}, {F});
    assert {F} + {F} + {F} == {F};
  }

  // But for F and tags nothing has changed in the array or the links.
  ghost predicate SameBefore(s: Heap, t: Heap, F: nat) {
    && |t.bs| == |s.bs| && t.links == s.links && F < |s.bs| && t.bs[F].size == s.bs[F].size
    && forall h :: 0 <= h < |s.bs| && h != F ==> t.bs[h].size == s.bs[h].size && t.bs[h].committed == s.bs[h].committed
  }

  lemma NoneBefore(s: Heap, t: Heap, F: nat, committed: bool)
    requires SameBefore(s, t, F) && NoFreeBefore(s, F, committed) && s.bs[F].size > 0
    ensures NoFreeBefore(t, F, committed)
  {
  }

  // The tag behind F is updated and, where that has been put off, F is committed.
  lemma CommittedRun(s0: Heap, s: Heap, F: nat, stale: int, sloppy: bool, dirtyPages: bool)
    requires Ok(s, dirtyPages, stale, {F}) && (stale == -1 || stale == F) && InUse(s, F) && SameUsed(s0, s, {F})
    ensures F + s.bs[F].size < |s.bs|
    ensures var t := s.(bs := Relink(s.bs, F));
            var u := if sloppy then CommitAt(t, F, dirtyPages) else t;
            && Ok(u, dirtyPages, -1, {F}) && SameUsed(s0, u, {F}) && InUse(u, F)
            && (sloppy ==> Backed(u, F)) && SameBefore(s, u, F)
  {
    RelinkKeeps(s, F, dirtyPages, stale, {F});
    var t := s.(bs := Relink(s.bs, F));
    SameUsedIn(s0, s, t, {F}, {}, {F});
    if sloppy {
      CommitKeeps(t, F, dirtyPages, -1, {F});
      assert Stored(CommitAt(t, F, dirtyPages), {F});
      SameUsedIn(s0, t, CommitAt(t, F, dirtyPages), {F}, {F}, {F});
    }
  }

  lemma CreatedFromRun(s0: Heap, s: Heap, F: nat, e: nat, size: nat, dirty: bool, stale: int, sloppy: bool, dirtyPages: bool)
    requires F < |s.bs| && Assembling(s0, s, F, e, size, dirty, stale, sloppy, dirtyPages) && size <= s.bs[F].size
    requires s.bs[F].size == s0.bs[F].size ==> s0.bs[F].committed
    ensures F + s.bs[F].size < |s.bs|
    ensures var t := s.(bs := Relink(s.bs, F));
            var u := if sloppy then CommitAt(t, F, dirtyPages) else t;
            Created(s0, u.(bs := u.bs[F := u.bs[F].(dirty := dirty)]), F, e, size, dirtyPages)
  {
    CommittedRun(s0, s, F, stale, sloppy, dirtyPages);
    var t := s.(bs := Relink(s.bs, F));
    var u := if sloppy then CommitAt(t, F, dirtyPages) else t;
    var r := u.(bs := u.bs[F := u.bs[F].(dirty := dirty)]);
    DirtyKeeps(u, F, dirty, dirtyPages, -1, {F});
    SameUsedIn(s0, u, r, {F}, {F}, {F});
    assert StoreOk(r, F);
    NoneBefore(s, r, F, s0.bs[F].committed);
  }
}
