/**
 The elementary changes the block manager makes to blocks that are on no free list:
 splitting, merging, updating a boundary tag, committing.  Each keeps the invariant.
 */
module HeapSteps {
  import opened HeapLayout
  import opened FreeLists
  import opened HeapState

  // ------------------------------------------------------------------ what stays as it was

  ghost predicate InUse(s: Heap, h: int) {
    0 <= h < |s.bs| && Head(s.bs[h]) && !Free(s, h)
  }

  // A block in use here is in use there, with the same pages and flags, and conversely.
  ghost predicate SameUse(s: Heap, t: Heap, h: int) {
    && (InUse(s, h) <==> InUse(t, h))
    && (InUse(s, h) && InUse(t, h) ==>
          && t.bs[h] == s.bs[h].(sizePrevious := t.bs[h].sizePrevious)
          && (forall k :: h <= k < h + s.bs[h].size && k < |s.os| && k < |t.os| ==> t.os[k] == s.os[k]))
  }

  ghost predicate SameUsed(s: Heap, t: Heap, except: set<int>) {
    && |t.bs| == |s.bs| && |t.links| == |s.links| && |t.os| == |s.os|
    && (forall k {:trigger t.os[k]} :: 0 <= k < |s.os| ==> t.os[k].address == s.os[k].address)
    && (forall h {:trigger SameUse(s, t, h)} :: 0 <= h < |s.bs| && h !in except ==> SameUse(s, t, h))
  }

  lemma SameUsedTransitive(s: Heap, t: Heap, u: Heap, a: set<int>, b: set<int>)
    requires SameUsed(s, t, a) && SameUsed(t, u, b)
    ensures SameUsed(s, u, a + b)
  {
    forall h | 0 <= h < |s.bs| && h !in a + b ensures SameUse(s, u, h) {
      assert SameUse(s, t, h) && SameUse(t, u, h);
    }
  }

  lemma SameUsedIn(s: Heap, t: Heap, u: Heap, a: set<int>, b: set<int>, c: set<int>)
    requires SameUsed(s, t, a) && SameUsed(t, u, b) && a <= c && b <= c
    ensures SameUsed(s, u, c)
  {
    SameUsedTransitive(s, t, u, a, b);
  }

  // A block that is in use neither before nor after does not count.
  lemma SameUsedOver(s: Heap, t: Heap, u: Heap, a: set<int>, b: set<int>, c: set<int>, x: int)
    requires SameUsed(s, t, a) && SameUsed(t, u, b) && a <= c + {x} && b <= c + {x} && !InUse(s, x) && !InUse(u, x)
    ensures SameUsed(s, u, c)
  {
    forall h | 0 <= h < |s.bs| && h !in c ensures SameUse(s, u, h) {
      if h != x {
        assert SameUse(s, t, h) && SameUse(t, u, h);
      }
    }
  }

  // ------------------------------------------------------------------ splitting

  ghost function Split(s: Heap, h: nat, n: nat): Heap
    requires h < |s.bs| && 0 < n < s.bs[h].size && h + s.bs[h].size < |s.bs|
  {
    s.(bs := SplitAt(s.bs, h, n))
  }

  lemma SplitListed(s: Heap, h: nat, n: nat, dirtyPages: bool, stale: int)
    requires Tiled(s.bs, stale) && Listed(s, dirtyPages) && |s.os| == |s.bs|
    requires h < |s.bs| && !Free(s, h) && 0 < n < s.bs[h].size
    ensures h + s.bs[h].size < |s.bs| && !Free(s, h + n)
    ensures Listed(Split(s, h, n), dirtyPages)
  {
    assert EntryOk(s.bs, h, stale) && FreeOk(s, dirtyPages, h + n);
    SameFreeListed(s, Split(s, h, n), dirtyPages);
  }

  lemma SplitStored(s: Heap, h: nat, n: nat, stale: int, held: set<int>)
    requires Tiled(s.bs, stale) && Stored(s, held) && |s.links| == |s.bs|
    requires h < |s.bs| && !Free(s, h) && 0 < n < s.bs[h].size && h + s.bs[h].size < |s.bs|
    ensures Stored(Split(s, h, n), if h in held then held + {h + n} else held)
  {
    var r := Split(s, h, n);
    assert EntryOk(s.bs, h, stale);
    assert PagesOk(s, h);
    var held' := if h in held then held + {h + n} else held;
    forall g | 0 <= g < |r.bs| ensures PagesOk(r, g) {
      assert PagesOk(s, g);
    }
    forall g | 0 <= g < |r.bs| && g !in held' ensures StoreOk(r, g) {
      assert g !in held ==> StoreOk(s, g);
      assert h !in held ==> StoreOk(s, h);
    }
  }

  lemma SplitKeeps(s: Heap, h: nat, n: nat, dirtyPages: bool, stale: int, held: set<int>)
    requires Ok(s, dirtyPages, stale, held) && h < |s.bs| && !Free(s, h) && 0 < n < s.bs[h].size && h != stale
    ensures h + s.bs[h].size < |s.bs| && !Free(s, h + n)
    ensures Ok(Split(s, h, n), dirtyPages, stale, if h in held then held + {h + n} else held)
    ensures SameUsed(s, Split(s, h, n), {h, h + n})
  {
    SplitKeepsTiled(s.bs, h, n, stale);
    SplitListed(s, h, n, dirtyPages, stale);
    SplitStored(s, h, n, stale, held);
    forall g | 0 <= g < |s.bs| && g !in {h, h + n} ensures SameUse(s, Split(s, h, n), g) {
    }
  }

  // ------------------------------------------------------------------ merging

  ghost function Merge(s: Heap, h: nat): Heap
    requires h < |s.bs| && h + s.bs[h].size < |s.bs|
  {
    s.(bs := Absorb(s.bs, h))
  }

  lemma MergeStored(s: Heap, h: nat, stale: int, held: set<int>)
    requires Tiled(s.bs, stale) && Stored(s, held) && |s.links| == |s.bs|
    requires InUse(s, h) && InUse(s, h + s.bs[h].size)
    requires h !in held ==> s.bs[h].committed == s.bs[h + s.bs[h].size].committed && h + s.bs[h].size !in held
    ensures Stored(Merge(s, h), held - {h + s.bs[h].size})
  {
    var e := h + s.bs[h].size;
    var r := Merge(s, h);
    assert EntryOk(s.bs, h, stale);
    assert PagesOk(s, h) && PagesOk(s, e);
    forall g | 0 <= g < |r.bs| ensures PagesOk(r, g) {
      assert PagesOk(s, g);
    }
    forall g | 0 <= g < |r.bs| && g !in held - {e} ensures StoreOk(r, g) {
      assert g !in held ==> StoreOk(s, g);
      assert e !in held ==> StoreOk(s, e);
    }
  }

  lemma MergeKeeps(s: Heap, h: nat, dirtyPages: bool, stale: int, held: set<int>)
    requires Ok(s, dirtyPages, stale, held) && (stale == -1 || stale == h) && InUse(s, h)
    requires InUse(s, h + s.bs[h].size)
    requires h !in held ==> s.bs[h].committed == s.bs[h + s.bs[h].size].committed && h + s.bs[h].size !in held
    ensures Ok(Merge(s, h), dirtyPages, h, held - {h + s.bs[h].size})
    ensures SameUsed(s, Merge(s, h), {h, h + s.bs[h].size})
  {
    AbsorbKeepsTiled(s.bs, h, stale);
    SameFreeListed(s, Merge(s, h), dirtyPages);
    MergeStored(s, h, stale, held);
    forall g | 0 <= g < |s.bs| && g !in {h, h + s.bs[h].size} ensures SameUse(s, Merge(s, h), g) {
    }
  }

  // Merging with a block that was not in use before.
  lemma MergeOver(s0: Heap, s: Heap, h: nat, dirtyPages: bool, stale: int, held: set<int>, a: set<int>)
    requires Ok(s, dirtyPages, stale, held) && (stale == -1 || stale == h) && InUse(s, h)
    requires InUse(s, h + s.bs[h].size) && !InUse(s0, h + s.bs[h].size)
    requires h !in held ==> s.bs[h].committed == s.bs[h + s.bs[h].size].committed && h + s.bs[h].size !in held
    requires SameUsed(s0, s, a) && a <= {h, h + s.bs[h].size}
    ensures Ok(Merge(s, h), dirtyPages, h, held - {h + s.bs[h].size}) && SameUsed(s0, Merge(s, h), {h})
  {
    var e := h + s.bs[h].size;
    MergeKeeps(s, h, dirtyPages, stale, held);
    SameUsedOver(s0, s, Merge(s, h), a, {h, e}, {h}, e);
  }

  lemma RelinkKeeps(s: Heap, h: nat, dirtyPages: bool, stale: int, held: set<int>)
    requires Ok(s, dirtyPages, stale, held) && (stale == -1 || stale == h) && h < |s.bs| && Head(s.bs[h])
    ensures h + s.bs[h].size < |s.bs|
    ensures Ok(s.(bs := Relink(s.bs, h)), dirtyPages, -1, held)
    ensures SameUsed(s, s.(bs := Relink(s.bs, h)), {})
  {
    RelinkKeepsTiled(s.bs, h, stale);
    var r := s.(bs := Relink(s.bs, h));
    assert EntryOk(s.bs, h, stale);
    SameFreeListed(s, r, dirtyPages);
    forall g | 0 <= g < |r.bs| ensures PagesOk(r, g) {
      assert PagesOk(s, g);
    }
    forall g | 0 <= g < |r.bs| && g !in held ensures StoreOk(r, g) {
      assert StoreOk(s, g);
    }
    forall g | 0 <= g < |s.bs| ensures SameUse(s, r, g) {
    }
  }

  lemma DirtyKeeps(s: Heap, h: nat, dirty: bool, dirtyPages: bool, stale: int, held: set<int>)
    requires Ok(s, dirtyPages, stale, held) && InUse(s, h) && (h in held || s.bs[h].committed)
    ensures Ok(s.(bs := s.bs[h := s.bs[h].(dirty := dirty)]), dirtyPages, stale, held)
    ensures SameUsed(s, s.(bs := s.bs[h := s.bs[h].(dirty := dirty)]), {h})
  {
    var r := s.(bs := s.bs[h := s.bs[h].(dirty := dirty)]);
    FlagsKeepTiled(s.bs, r.bs, stale);
    SameFreeListed(s, r, dirtyPages);
    forall g | 0 <= g < |r.bs| ensures PagesOk(r, g) {
      assert PagesOk(s, g);
    }
    forall g | 0 <= g < |r.bs| && g !in held ensures StoreOk(r, g) {
      assert StoreOk(s, g);
    }
    forall g | 0 <= g < |s.bs| && g !in {h} ensures SameUse(s, r, g) {
    }
  }

  // ------------------------------------------------------------------ committing

  // A page that was not committed arrives zeroed, unless new pages are dirty.
  function CommitPages(os: seq<Page>, lo: nat, hi: nat, dirtyPages: bool): (r: seq<Page>)
    ensures |r| == |os|
  {
    seq(|os|, k requires 0 <= k < |os| =>
      if lo <= k < hi && !os[k].committed then os[k].(committed := true, zero := !dirtyPages) else os[k])
  }

  // How many of these pages are not committed.
  function Uncommitted(os: seq<Page>, lo: nat, hi: nat): (n: nat)
    requires lo <= hi <= |os|
    ensures n <= hi - lo
  {
    if lo == hi then 0 else Uncommitted(os, lo, hi - 1) + if os[hi - 1].committed then 0 else 1
  }

  lemma {:induction false} UncommittedSame(os: seq<Page>, r: seq<Page>, lo: nat, hi: nat)
    requires lo <= hi <= |os| && hi <= |r|
    requires forall k :: lo <= k < hi ==> os[k].committed == r[k].committed
    ensures Uncommitted(os, lo, hi) == Uncommitted(r, lo, hi)
  {
    if lo < hi {
      UncommittedSame(os, r, lo, hi - 1);
    }
  }

  lemma {:induction false} UncommittedSplit(os: seq<Page>, lo: nat, mid: nat, hi: nat)
    requires lo <= mid <= hi <= |os|
    ensures Uncommitted(os, lo, hi) == Uncommitted(os, lo, mid) + Uncommitted(os, mid, hi)
  {
    if mid < hi {
      UncommittedSplit(os, lo, mid, hi - 1);
    }
  }

  lemma {:induction false} UncommittedAll(os: seq<Page>, lo: nat, hi: nat, committed: bool)
    requires lo <= hi <= |os| && forall k :: lo <= k < hi ==> os[k].committed == committed
    ensures Uncommitted(os, lo, hi) == if committed then 0 else hi - lo
  {
    if lo < hi {
      UncommittedAll(os, lo, hi - 1, committed);
    }
  }

  // Committing a range leaves that many fewer uncommitted pages as were uncommitted in it.
  lemma CommitCounts(os: seq<Page>, lo: nat, hi: nat, dirtyPages: bool)
    requires lo <= hi <= |os|
    ensures Uncommitted(CommitPages(os, lo, hi, dirtyPages), 0, |os|) ==
            Uncommitted(os, 0, |os|) - Uncommitted(os, lo, hi)
  {
    var r := CommitPages(os, lo, hi, dirtyPages);
    UncommittedSplit(os, 0, lo, |os|);
    UncommittedSplit(os, lo, hi, |os|);
    UncommittedSplit(r, 0, lo, |os|);
    UncommittedSplit(r, lo, hi, |os|);
    UncommittedSame(os, r, 0, lo);
    UncommittedSame(os, r, hi, |os|);
    UncommittedAll(r, lo, hi, true);
  }

  function CommitAt(s: Heap, h: nat, dirtyPages: bool): Heap
    requires h < |s.bs|
  {
    s.(bs := s.bs[h := s.bs[h].(committed := true, dirty := dirtyPages)],
       os := CommitPages(s.os, h, h + s.bs[h].size, dirtyPages))
  }

  lemma CommitListed(s: Heap, h: nat, dirtyPages: bool, stale: int)
    requires Tiled(s.bs, stale) && Listed(s, dirtyPages) && |s.os| == |s.bs| && InUse(s, h)
    ensures Listed(CommitAt(s, h, dirtyPages), dirtyPages)
  {
    forall g | 0 <= g < |s.bs| && Free(s, g) ensures Head(s.bs[g]) && (g + s.bs[g].size <= h || h + s.bs[h].size <= g) {
      assert FreeOk(s, dirtyPages, g);
      if g < h {
        HeadsDisjoint(s.bs, g, h, stale);
      } else {
        HeadsDisjoint(s.bs, h, g, stale);
      }
    }
    SameFreeListed(s, CommitAt(s, h, dirtyPages), dirtyPages);
  }

  lemma CommitStored(s: Heap, h: nat, dirtyPages: bool, stale: int, held: set<int>)
    requires Tiled(s.bs, stale) && Stored(s, held) && |s.links| == |s.bs| && InUse(s, h)
    ensures Stored(CommitAt(s, h, dirtyPages), held - {h})
    ensures SameUsed(s, CommitAt(s, h, dirtyPages), {h})
  {
    var r := CommitAt(s, h, dirtyPages);
    assert EntryOk(s.bs, h, stale);
    forall g | 0 <= g < |s.bs| && g != h && Head(s.bs[g]) ensures g + s.bs[g].size <= h || h + s.bs[h].size <= g {
      if g < h {
        HeadsDisjoint(s.bs, g, h, stale);
      } else {
        HeadsDisjoint(s.bs, h, g, stale);
      }
    }
    forall g | 0 <= g < |r.bs| ensures PagesOk(r, g) {
      assert PagesOk(s, g);
    }
    forall g | 0 <= g < |r.bs| && g !in held - {h} ensures StoreOk(r, g) {
      assert g !in held ==> StoreOk(s, g);
    }
    forall g | 0 <= g < |s.bs| && g !in {h} ensures SameUse(s, r, g) {
    }
  }

  lemma CommitKeeps(s: Heap, h: nat, dirtyPages: bool, stale: int, held: set<int>)
    requires Ok(s, dirtyPages, stale, held) && InUse(s, h)
    ensures Ok(CommitAt(s, h, dirtyPages), dirtyPages, stale, held - {h})
    ensures SameUsed(s, CommitAt(s, h, dirtyPages), {h})
  {
    FlagsKeepTiled(s.bs, CommitAt(s, h, dirtyPages).bs, stale);
    CommitListed(s, h, dirtyPages, stale);
    CommitStored(s, h, dirtyPages, stale, held);
  }

  // ------------------------------------------------------------------ leaving and joining a list

  lemma DetachOk(s: Heap, i: nat, k: nat, dirtyPages: bool, stale: int, held: set<int>)
    requires Ok(s, dirtyPages, stale, held) && i < NUM_LISTS && k < |s.lists[i]|
    ensures s.lists[i][k] < |s.bs| && Head(s.bs[s.lists[i][k]]) && Free(s, s.lists[i][k])
    ensures var b := s.lists[i][k];
            && Ok(Detached(s, i, k), dirtyPages, stale, if s.bs[b].committed then held else held + {b})
            && SameUsed(s, Detached(s, i, k), {b}) && InUse(Detached(s, i, k), b)
    ensures forall h :: 0 <= h < |s.bs| ==> (Free(Detached(s, i, k), h) <==> Free(s, h) && h != s.lists[i][k])
  {
    Neighbours(s.links, s.heads, s.lists, i, k);
    DetachKeeps(s, i, k, dirtyPages);
    var b := s.lists[i][k];
    var r := Detached(s, i, k);
    assert PlaceOk(s.bs, s.lists, i, k);
    forall h | 0 <= h < |s.bs| ensures Free(r, h) <==> Free(s, h) && h != b {
      DetachedFree(s, i, k, h);
    }
    forall g | 0 <= g < |r.bs| ensures PagesOk(r, g) {
      assert PagesOk(s, g);
    }
    forall g | 0 <= g < |r.bs| && g !in (if s.bs[b].committed then held else held + {b}) ensures StoreOk(r, g) {
      assert StoreOk(s, g);
    }
    forall g | 0 <= g < |s.bs| && g !in {b} ensures SameUse(s, r, g) {
    }
  }

  // The pages of a block are all committed or all not, as its flag says.
  ghost predicate Backed(s: Heap, b: nat)
    requires b < |s.bs|
  {
    && (forall k :: b <= k < b + s.bs[b].size && k < |s.os| ==> s.os[k].committed == s.bs[b].committed)
    && (!s.bs[b].committed ==> !s.bs[b].dirty)
  }

  lemma AttachOk(s: Heap, i: nat, k: nat, b: nat, dirtyPages: bool, stale: int, held: set<int>)
    requires Ok(s, dirtyPages, stale, held) && InUse(s, b) && Fits(s.bs, s.lists, i, k, b) && Backed(s, b)
    requires s.bs[b].committed ==> (s.bs[b].dirty || Zero(s, b, b + s.bs[b].size)) && (dirtyPages ==> s.bs[b].dirty)
    requires var e := b + s.bs[b].size; e < |s.bs| && Free(s, e) ==> s.bs[b].committed != s.bs[e].committed
    requires forall h :: 0 <= h < |s.bs| && Free(s, h) && h + s.bs[h].size == b ==> s.bs[b].committed != s.bs[h].committed
    ensures Ok(Attached(s, i, k, b), dirtyPages, stale, held - {b})
    ensures SameUsed(s, Attached(s, i, k, b), {b})
    ensures forall h :: 0 <= h < |s.bs| ==> (Free(Attached(s, i, k, b), h) <==> Free(s, h) || h == b)
  {
    AttachKeeps(s, i, k, b, dirtyPages);
    var r := Attached(s, i, k, b);
    InsertKeepsRings(s.links, s.heads, s.lists, i, k, b);
    forall h | 0 <= h < |s.bs| ensures Free(r, h) <==> Free(s, h) || h == b {
      AttachedFree(s, i, k, b, h);
    }
    forall g | 0 <= g < |r.bs| ensures PagesOk(r, g) {
      assert PagesOk(s, g);
    }
    forall g | 0 <= g < |r.bs| && g !in held - {b} ensures StoreOk(r, g) {
      assert g !in held ==> StoreOk(s, g);
    }
    forall g | 0 <= g < |s.bs| && g !in {b} ensures SameUse(s, r, g) {
    }
  }

  // ------------------------------------------------------------------ what the owner of a block does

  function ZeroPages(os: seq<Page>, lo: nat, hi: nat, zero: bool): (r: seq<Page>)
    ensures |r| == |os|
  {
    seq(|os|, k requires 0 <= k < |os| => if lo <= k < hi then os[k].(zero := zero) else os[k])
  }

  // Writing to the pages of a block in use, or clearing them, concerns no free block.
  lemma WriteKeeps(s: Heap, h: nat, lo: nat, hi: nat, zero: bool, dirtyPages: bool)
    requires Ok(s, dirtyPages, -1, {}) && InUse(s, h) && h <= lo && hi <= h + s.bs[h].size
    ensures Ok(s.(os := ZeroPages(s.os, lo, hi, zero)), dirtyPages, -1, {})
    ensures SameUsed(s, s.(os := ZeroPages(s.os, lo, hi, zero)), {h})
    ensures Uncommitted(ZeroPages(s.os, lo, hi, zero), 0, |s.os|) == Uncommitted(s.os, 0, |s.os|)
  {
    var r := s.(os := ZeroPages(s.os, lo, hi, zero));
    assert EntryOk(s.bs, h, -1);
    forall g | 0 <= g < |s.bs| && g != h && Head(s.bs[g]) ensures g + s.bs[g].size <= h || h + s.bs[h].size <= g {
      if g < h {
        HeadsDisjoint(s.bs, g, h, -1);
      } else {
        HeadsDisjoint(s.bs, h, g, -1);
      }
    }
    forall g | 0 <= g < |s.bs| && Free(s, g) ensures Head(s.bs[g]) {
      assert FreeOk(s, dirtyPages, g);
    }
    SameFreeListed(s, r, dirtyPages);
    forall g | 0 <= g < |r.bs| ensures PagesOk(r, g) && StoreOk(r, g) {
      assert PagesOk(s, g) && StoreOk(s, g);
    }
    forall g | 0 <= g < |s.bs| && g !in {h} ensures SameUse(s, r, g) {
    }
    UncommittedSame(s.os, r.os, 0, |s.os|);
  }
}
