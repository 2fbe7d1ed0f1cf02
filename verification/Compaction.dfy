/**
 Taking a block out of the HeapBlock array when its region is given back
 (MMgc/GCHeap.cpp:1088-1192): the blocks after it slide down, and a sentinel is added or
 removed where the neighbours stop or start being contiguous.
 */
module Compaction {
  import opened HeapLayout
  import opened FreeLists
  import opened HeapState
  import opened HeapSteps

  // The blocks before and after h become separate runs.
  function NeedSentinel(bs: seq<HeapBlock>, h: nat): bool
    requires h < |bs| && h + bs[h].size < |bs|
  {
    bs[h].sizePrevious != 0 && bs[h + bs[h].size].size != 0
  }

  // The block stands between two sentinels.
  function RemoveSentinel(bs: seq<HeapBlock>, h: nat): bool
    requires h < |bs| && h + bs[h].size < |bs|
  {
    bs[h].sizePrevious == 0 && bs[h + bs[h].size].size == 0
  }

  // The first entry after the hole, and how far the entries from there on slide.
  function Src(bs: seq<HeapBlock>, h: nat): nat
    requires h < |bs| && h + bs[h].size < |bs|
  {
    h + bs[h].size + if RemoveSentinel(bs, h) then 1 else 0
  }

  function Dst(bs: seq<HeapBlock>, h: nat): nat
    requires h < |bs| && h + bs[h].size < |bs|
  {
    h + if NeedSentinel(bs, h) then 1 else 0
  }

  // Where entry k is afterwards.
  function Slide(bs: seq<HeapBlock>, h: nat, k: nat): nat
    requires h < |bs| && h + bs[h].size < |bs|
  {
    if k < h then k else if k < Src(bs, h) then h else k - Src(bs, h) + Dst(bs, h)
  }

  function Slid<T>(xs: seq<T>, h: nat, src: nat, sentinel: seq<T>): seq<T>
    requires h <= src <= |xs|
  {
    xs[..h] + sentinel + xs[src..]
  }

  function RemovedBlocks(bs: seq<HeapBlock>, h: nat): seq<HeapBlock>
    requires h < |bs| && h + bs[h].size < |bs|
  {
    var e := h + bs[h].size;
    var rs := bs[e := bs[e].(sizePrevious := if NeedSentinel(bs, h) then 0 else bs[h].sizePrevious)];
    Slid(rs, h, Src(bs, h), if NeedSentinel(bs, h) then [bs[h].(base := 0, size := 0)] else [])
  }

  function SlideLink(bs: seq<HeapBlock>, h: nat, l: Link): Link
    requires h < |bs| && h + bs[h].size < |bs|
  {
    if l.Entry? then Entry(Slide(bs, h, l.b)) else l
  }

  function SlideLinks(bs: seq<HeapBlock>, h: nat, l: Links): Links
    requires h < |bs| && h + bs[h].size < |bs|
  {
    Links(SlideLink(bs, h, l.prev), SlideLink(bs, h, l.next))
  }

  // Every entry that stays has a place of its own.
  lemma SlideInjective(bs: seq<HeapBlock>, h: nat, k: nat, m: nat)
    requires h < |bs| && h + bs[h].size < |bs| && Head(bs[h])
    requires (k < h || Src(bs, h) <= k) && (m < h || Src(bs, h) <= m)
    ensures Slide(bs, h, k) == Slide(bs, h, m) ==> k == m
    ensures k < m ==> Slide(bs, h, k) < Slide(bs, h, m)
    ensures k < |bs| ==> Slide(bs, h, k) < |RemovedBlocks(bs, h)|
  {
  }

  // ------------------------------------------------------------------ the layout afterwards

  // An entry that stays, other than the one after the block, is what it was.
  lemma EntryBefore(bs: seq<HeapBlock>, h: nat, g: nat)
    requires Tiled(bs, -1) && h < |bs| && Head(bs[h]) && h + bs[h].size < |bs| && g < h
    ensures EntryOk(RemovedBlocks(bs, h), g, -1)
  {
    assert EntryOk(bs, h, -1);
    assert EntryOk(bs, g, -1);
    var e := h + bs[h].size;
    assert EntryOk(bs, e, -1);
    if Head(bs[g]) {
      HeadsDisjoint(bs, g, h, -1);
    }
  }

  lemma FirstAfterSentinel(bs: seq<HeapBlock>, h: nat)
    requires Tiled(bs, -1) && h < |bs| && Head(bs[h]) && h + bs[h].size < |bs|
    requires RemoveSentinel(bs, h) && Dst(bs, h) < |RemovedBlocks(bs, h)|
    ensures EntryOk(RemovedBlocks(bs, h), h, -1)
  {
    var e := h + bs[h].size;
    assert EntryOk(bs, h, -1);
    assert EntryOk(bs, e, -1);
    assert EntryOk(bs, e + 1, -1);
    assert RemovedBlocks(bs, h)[h] == bs[e + 1];
    if h > 0 {
      assert EntryOk(bs, h - 1, -1);
    }
  }

  lemma FirstAfterBlock(bs: seq<HeapBlock>, h: nat)
    requires Tiled(bs, -1) && h < |bs| && Head(bs[h]) && h + bs[h].size < |bs|
    requires !RemoveSentinel(bs, h)
    ensures EntryOk(RemovedBlocks(bs, h), Dst(bs, h), -1)
  {
    var e := h + bs[h].size;
    assert EntryOk(bs, h, -1);
    assert EntryOk(bs, e, -1);
    assert RemovedBlocks(bs, h)[Dst(bs, h)] ==
           bs[e].(sizePrevious := if NeedSentinel(bs, h) then 0 else bs[h].sizePrevious);
    if h > 0 {
      assert EntryOk(bs, h - 1, -1);
    }
  }

  lemma HeadAfter(bs: seq<HeapBlock>, h: nat, g: nat)
    requires Tiled(bs, -1) && h < |bs| && Head(bs[h]) && h + bs[h].size < |bs|
    requires Dst(bs, h) < g < |RemovedBlocks(bs, h)| && Head(RemovedBlocks(bs, h)[g])
    ensures HeadOk(RemovedBlocks(bs, h), g, -1)
  {
    assert EntryOk(bs, g - Dst(bs, h) + Src(bs, h), -1);
  }

  lemma EntryAfter(bs: seq<HeapBlock>, h: nat, g: nat)
    requires Tiled(bs, -1) && h < |bs| && Head(bs[h]) && h + bs[h].size < |bs|
    requires Dst(bs, h) < g < |RemovedBlocks(bs, h)|
    ensures EntryOk(RemovedBlocks(bs, h), g, -1)
  {
    var r := RemovedBlocks(bs, h);
    var k := g - Dst(bs, h) + Src(bs, h);
    assert EntryOk(bs, k, -1);
    assert r[g] == bs[k];
    if Head(r[g]) {
      HeadAfter(bs, h, g);
    }
    if bs[k].sizePrevious > 0 {
      BackAfter(bs, h, k);
    }
    BeforeAfter(bs, h, k);
  }

  // The entry before one after the block is still of its kind.
  lemma BeforeAfter(bs: seq<HeapBlock>, h: nat, k: nat)
    requires Tiled(bs, -1) && h < |bs| && Head(bs[h]) && h + bs[h].size < |bs| && Src(bs, h) < k < |bs|
    ensures var r := RemovedBlocks(bs, h);
            var g := k - Src(bs, h) + Dst(bs, h);
            0 < g < |r| && (Sentinel(r[g - 1]) <==> Sentinel(bs[k - 1]))
  {
    assert EntryOk(bs, h, -1);
    assert EntryOk(bs, h + bs[h].size, -1);
  }

  lemma BackAfter(bs: seq<HeapBlock>, h: nat, k: nat)
    requires Tiled(bs, -1) && h < |bs| && Head(bs[h]) && h + bs[h].size < |bs|
    requires Src(bs, h) < k < |bs| && bs[k].sizePrevious > 0
    ensures k - bs[k].sizePrevious >= Src(bs, h) && bs[k - bs[k].sizePrevious].size == bs[k].sizePrevious
  {
    var e := h + bs[h].size;
    assert EntryOk(bs, k, -1);
    assert EntryOk(bs, h, -1);
    assert EntryOk(bs, e, -1);
    var p := k - bs[k].sizePrevious;
    assert EntryOk(bs, p, -1);
  }

  lemma RemovedTiled(bs: seq<HeapBlock>, h: nat)
    requires Tiled(bs, -1) && h < |bs| && Head(bs[h])
    ensures h + bs[h].size < |bs| && Tiled(RemovedBlocks(bs, h), -1)
  {
    assert EntryOk(bs, h, -1);
    var e := h + bs[h].size;
    assert EntryOk(bs, e, -1);
    var r := RemovedBlocks(bs, h);
    forall g | 0 <= g < |r| ensures EntryOk(r, g, -1) {
      if g < h {
        EntryBefore(bs, h, g);
      } else if g < Dst(bs, h) {
        assert r[h] == bs[h].(base := 0, size := 0);
      } else if g == Dst(bs, h) {
        if RemoveSentinel(bs, h) {
          FirstAfterSentinel(bs, h);
        } else {
          FirstAfterBlock(bs, h);
        }
      } else {
        EntryAfter(bs, h, g);
      }
    }
    if h == 0 && e + 1 < |bs| {
      assert EntryOk(bs, e + 1, -1);
    } else if h > 0 {
      assert EntryOk(bs, h - 1, -1);
    }
  }

  // ------------------------------------------------------------------ the whole state afterwards

  function SlidList(bs: seq<HeapBlock>, h: nat, list: seq<nat>): (r: seq<nat>)
    requires h < |bs| && h + bs[h].size < |bs|
    ensures |r| == |list|
  {
    seq(|list|, k requires 0 <= k < |list| => Slide(bs, h, list[k]))
  }

  function SlidLinks(bs: seq<HeapBlock>, h: nat, links: seq<Links>): (r: seq<Links>)
    requires h < |bs| && h + bs[h].size < |bs|
    ensures |r| == |links|
  {
    seq(|links|, k requires 0 <= k < |links| => SlideLinks(bs, h, links[k]))
  }

  // The prev and next fields as the memmove leaves them: still the old places.
  function MovedLinks(bs: seq<HeapBlock>, h: nat, links: seq<Links>): seq<Links>
    requires h < |bs| && h + bs[h].size < |bs| && Src(bs, h) <= |links|
  {
    Slid(links, h, Src(bs, h), if NeedSentinel(bs, h) then [Links(Null, Null)] else [])
  }

  ghost function Removed(s: Heap, h: nat): Heap
    requires h < |s.bs| && h + s.bs[h].size < |s.bs| && Src(s.bs, h) <= |s.bs| == |s.links| == |s.os|
  {
    Heap(RemovedBlocks(s.bs, h),
         SlidLinks(s.bs, h, MovedLinks(s.bs, h, s.links)),
         SlidLinks(s.bs, h, s.heads),
         seq(|s.lists|, i requires 0 <= i < |s.lists| => SlidList(s.bs, h, s.lists[i])),
         Slid(s.os, h, Src(s.bs, h), if NeedSentinel(s.bs, h) then [Page(0, true, false)] else []))
  }

  // h has been taken off the lists and can be removed.
  ghost predicate Removable(s: Heap, h: nat) {
    h < |s.bs| && h + s.bs[h].size < |s.bs| && |s.bs| == |s.links| == |s.os| && InUse(s, h) && Tiled(s.bs, -1)
  }

  ghost predicate Stays(s: Heap, h: nat, k: nat)
    requires h < |s.bs| && h + s.bs[h].size < |s.bs|
  {
    k < |s.bs| && (k < h || Src(s.bs, h) <= k)
  }

  lemma SeenBlock(bs: seq<HeapBlock>, h: nat, k: nat)
    requires Tiled(bs, -1) && h < |bs| && Head(bs[h]) && h + bs[h].size < |bs| && k < |bs| && (k < h || Src(bs, h) <= k)
    ensures Src(bs, h) <= |bs|
    ensures var g := Slide(bs, h, k);
            var r := RemovedBlocks(bs, h);
            && g < |r| && r[g] == bs[k].(sizePrevious := r[g].sizePrevious) && (k != h + bs[h].size ==> r[g] == bs[k])
  {
    assert EntryOk(bs, h, -1);
    assert EntryOk(bs, h + bs[h].size, -1);
  }

  // An entry that stays, seen afterwards.
  lemma Seen(s: Heap, h: nat, k: nat)
    requires Removable(s, h) && Stays(s, h, k)
    ensures Src(s.bs, h) <= |s.bs|
    ensures var g := Slide(s.bs, h, k);
            var r := Removed(s, h);
            && g < |r.bs| == |r.links| == |r.os| && r.bs[g] == s.bs[k].(sizePrevious := r.bs[g].sizePrevious)
            && (k != h + s.bs[h].size ==> r.bs[g] == s.bs[k])
            && r.os[g] == s.os[k] && r.links[g] == SlideLinks(s.bs, h, s.links[k]) && (Free(r, g) <==> Free(s, k))
  {
    SeenBlock(s.bs, h, k);
    assert EntryOk(s.bs, h, -1);
    assert EntryOk(s.bs, h + s.bs[h].size, -1);
  }

  // Every entry afterwards, other than a new sentinel, is one that stayed.
  lemma Origin(s: Heap, h: nat, g: nat) returns (k: nat)
    requires Removable(s, h)
    requires Src(s.bs, h) <= |s.bs| && g < |Removed(s, h).bs| && !(NeedSentinel(s.bs, h) && g == h)
    ensures Stays(s, h, k) && Slide(s.bs, h, k) == g
  {
    k := if g < h then g else g - Dst(s.bs, h) + Src(s.bs, h);
  }

  lemma FreeStays(s: Heap, h: nat, k: nat, dirtyPages: bool)
    requires Removable(s, h) && Listed(s, dirtyPages) && k < |s.bs| && Free(s, k)
    ensures Stays(s, h, k)
  {
    assert EntryOk(s.bs, h, -1);
    assert EntryOk(s.bs, h + s.bs[h].size, -1);
    assert FreeOk(s, dirtyPages, k);
  }

  // Every list holds the same blocks in the same order.
  lemma RemovedNode(s: Heap, h: nat, i: nat, k: nat, dirtyPages: bool)
    requires Removable(s, h) && Src(s.bs, h) <= |s.bs| && Listed(s, dirtyPages) && i < NUM_LISTS && k < |s.lists[i]|
    ensures NodeOk(Removed(s, h).links, SlidList(s.bs, h, s.lists[i]), i, k)
    ensures PlaceOk(Removed(s, h).bs, Removed(s, h).lists, i, k)
    ensures s.lists[i][k] < |s.bs| && Stays(s, h, s.lists[i][k])
  {
    Neighbours(s.links, s.heads, s.lists, i, k);
    assert PlaceOk(s.bs, s.lists, i, k);
    FreeStays(s, h, s.lists[i][k], dirtyPages);
    Seen(s, h, s.lists[i][k]);
  }

  lemma RemovedRings(s: Heap, h: nat, dirtyPages: bool)
    requires Removable(s, h) && Src(s.bs, h) <= |s.bs| && Listed(s, dirtyPages)
    ensures var r := Removed(s, h); Rings(r.links, r.heads, r.lists)
  {
    var r := Removed(s, h);
    forall i | 0 <= i < NUM_LISTS ensures Ring(r.links, r.heads, r.lists[i], i) {
      assert Ring(s.links, s.heads, s.lists[i], i);
      forall k | 0 <= k < |r.lists[i]| ensures NodeOk(r.links, r.lists[i], i, k) {
        RemovedNode(s, h, i, k, dirtyPages);
      }
    }
    forall i, k, j, m | 0 <= i < |r.lists| && 0 <= k < |r.lists[i]| && 0 <= j < |r.lists| && 0 <= m < |r.lists[j]|
      ensures Apart(r.lists, i, k, j, m)
    {
      assert Apart(s.lists, i, k, j, m);
      RemovedNode(s, h, i, k, dirtyPages);
      RemovedNode(s, h, j, m, dirtyPages);
      SlideInjective(s.bs, h, s.lists[i][k], s.lists[j][m]);
    }
    forall g | 0 <= g < |r.links| && !r.links[g].prev.Null? ensures OnList(r.lists, g) {
      var k := Origin(s, h, g);
      Seen(s, h, k);
      var i, m := Position(s.links, s.heads, s.lists, k);
      assert r.lists[i][m] == g;
    }
    forall g | 0 <= g < |r.links| && r.links[g].prev.Null? ensures r.links[g].next.Null? {
      if !(NeedSentinel(s.bs, h) && g == h) {
        var k := Origin(s, h, g);
        Seen(s, h, k);
      }
    }
  }

  lemma RemovedPlaced(s: Heap, h: nat, dirtyPages: bool)
    requires Removable(s, h) && Src(s.bs, h) <= |s.bs| && Listed(s, dirtyPages)
    ensures Placed(Removed(s, h).bs, Removed(s, h).lists)
  {
    var r := Removed(s, h);
    forall i, k | 0 <= i < |r.lists| && 0 <= k < |r.lists[i]| ensures PlaceOk(r.bs, r.lists, i, k) {
      RemovedNode(s, h, i, k, dirtyPages);
    }
    forall i, k, m | 0 <= i < |r.lists| && 0 <= k < |r.lists[i]| && 0 <= m < |r.lists[i]|
      ensures Ordered(r.bs, r.lists[i], k, m)
    {
      assert Ordered(s.bs, s.lists[i], k, m);
      RemovedNode(s, h, i, k, dirtyPages);
      RemovedNode(s, h, i, m, dirtyPages);
      Seen(s, h, s.lists[i][k]);
      Seen(s, h, s.lists[i][m]);
    }
  }

  lemma RemovedPages(s: Heap, h: nat, k: nat)
    requires Removable(s, h) && Src(s.bs, h) <= |s.bs| && Stays(s, h, k) && Head(s.bs[k])
    ensures var g := Slide(s.bs, h, k);
            var r := Removed(s, h);
            && k + s.bs[k].size < |s.bs| && g + s.bs[k].size <= |r.os|
            && (forall m {:trigger r.os[m]} :: g <= m < g + s.bs[k].size ==> r.os[m] == s.os[m - g + k])
            && (k < h ==> k + s.bs[k].size <= h)
  {
    assert EntryOk(s.bs, k, -1);
    if k < h {
      HeadsDisjoint(s.bs, k, h, -1);
    }
  }

  // A block that stays is followed by what it was followed by, or by no free block.
  lemma RemovedNext(s: Heap, h: nat, k: nat, dirtyPages: bool)
    requires Removable(s, h) && Src(s.bs, h) <= |s.bs| && Listed(s, dirtyPages) && Stays(s, h, k) && Head(s.bs[k])
    ensures var g := Slide(s.bs, h, k);
            var e := k + s.bs[k].size;
            var r := Removed(s, h);
            && e < |s.bs| && g + s.bs[k].size < |r.bs|
            && (if Stays(s, h, e) then g + s.bs[k].size == Slide(s.bs, h, e) else !Free(r, g + s.bs[k].size))
  {
    RemovedPages(s, h, k);
    var e := k + s.bs[k].size;
    var n := h + s.bs[h].size;
    assert EntryOk(s.bs, h, -1);
    if e == h {
      assert s.bs[h].sizePrevious == s.bs[k].size by {
        assert EntryOk(s.bs, k, -1);
      }
      if !NeedSentinel(s.bs, h) {
        Seen(s, h, n);
        assert FreeOk(s, dirtyPages, n);
      }
    } else {
      if k < h {
        Seen(s, h, e);
      } else {
        SlideInjective(s.bs, h, k, e);
        Seen(s, h, e);
      }
    }
  }

  lemma RemovedFreeOk(s: Heap, h: nat, k: nat, dirtyPages: bool)
    requires Removable(s, h) && Src(s.bs, h) <= |s.bs| && Listed(s, dirtyPages) && Stays(s, h, k)
    ensures Slide(s.bs, h, k) < |Removed(s, h).bs| && FreeOk(Removed(s, h), dirtyPages, Slide(s.bs, h, k))
  {
    assert FreeOk(s, dirtyPages, k);
    Seen(s, h, k);
    if Free(s, k) {
      RemovedClean(s, h, k, dirtyPages);
      RemovedNext(s, h, k, dirtyPages);
      if Stays(s, h, k + s.bs[k].size) {
        Seen(s, h, k + s.bs[k].size);
      }
    }
  }

  lemma RemovedClean(s: Heap, h: nat, k: nat, dirtyPages: bool)
    requires Removable(s, h) && Src(s.bs, h) <= |s.bs| && Stays(s, h, k) && Free(s, k)
    requires FreeOk(s, dirtyPages, k)
    ensures Slide(s.bs, h, k) < |Removed(s, h).bs| && CleanOk(Removed(s, h), dirtyPages, Slide(s.bs, h, k))
  {
    Seen(s, h, k);
    RemovedPages(s, h, k);
  }

  lemma RemovedStored(s: Heap, h: nat, k: nat)
    requires Removable(s, h) && Src(s.bs, h) <= |s.bs| && Stored(s, {}) && Stays(s, h, k)
    ensures var r := Removed(s, h);
            var g := Slide(s.bs, h, k);
            g < |r.bs| == |r.os| && PagesOk(r, g) && StoreOk(r, g)
  {
    assert PagesOk(s, k) && StoreOk(s, k);
    assert EntryOk(s.bs, h, -1);
    Seen(s, h, k);
    if Head(s.bs[k]) {
      RemovedPages(s, h, k);
    }
  }

  // The whole invariant survives.
  lemma RemovedOk(s: Heap, h: nat, dirtyPages: bool)
    requires Ok(s, dirtyPages, -1, {}) && InUse(s, h)
    ensures Removable(s, h) && Src(s.bs, h) <= |s.bs|
    ensures Ok(Removed(s, h), dirtyPages, -1, {})
  {
    RemovedTiled(s.bs, h);
    assert EntryOk(s.bs, h, -1) && EntryOk(s.bs, h + s.bs[h].size, -1);
    RemovedRings(s, h, dirtyPages);
    RemovedPlaced(s, h, dirtyPages);
    var r := Removed(s, h);
    forall g | 0 <= g < |r.bs| ensures FreeOk(r, dirtyPages, g) && PagesOk(r, g) && StoreOk(r, g) {
      if NeedSentinel(s.bs, h) && g == h {
        assert r.bs[g] == s.bs[h].(base := 0, size := 0) && r.os[g] == Page(0, true, false);
      } else {
        var k := Origin(s, h, g);
        RemovedFreeOk(s, h, k, dirtyPages);
        RemovedStored(s, h, k);
      }
    }
  }

  lemma MayRemove(s: Heap, h: nat, dirtyPages: bool)
    requires Ok(s, dirtyPages, -1, {}) && InUse(s, h)
    ensures Removable(s, h) && Src(s.bs, h) <= |s.bs|
  {
    assert EntryOk(s.bs, h, -1) && EntryOk(s.bs, h + s.bs[h].size, -1);
  }

  // What is in use stays in use, with the same pages; nothing else comes into use.
  lemma RemovedUse(s: Heap, h: nat, k: nat, dirtyPages: bool)
    requires Ok(s, dirtyPages, -1, {}) && Removable(s, h) && k < |s.bs| && k != h && Src(s.bs, h) <= |s.bs|
    ensures InUse(s, k) ==> Stays(s, h, k)
    ensures Stays(s, h, k) ==>
              var g := Slide(s.bs, h, k);
              var r := Removed(s, h);
              && (InUse(r, g) <==> InUse(s, k)) && g < |r.bs| && r.bs[g] == s.bs[k].(sizePrevious := r.bs[g].sizePrevious)
              && (InUse(s, k) ==>
                    && k + s.bs[k].size <= |s.os| && g + s.bs[k].size <= |r.os|
                    && r.os[g..g + s.bs[k].size] == s.os[k..k + s.bs[k].size])
  {
    assert EntryOk(s.bs, h, -1) && EntryOk(s.bs, h + s.bs[h].size, -1);
    if Stays(s, h, k) {
      Seen(s, h, k);
      if InUse(s, k) {
        RemovedPages(s, h, k);
      }
    }
  }

  // ------------------------------------------------------------------ the prev and next fields

  // Place m of list j, when the lists before i and the first k places of list i have been
  // updated: its links are the new ones, or still the old ones.
  ghost predicate Settled(s: Heap, h: nat, links: seq<Links>, i: nat, k: nat, j: nat, m: nat)
    requires Removable(s, h) && Src(s.bs, h) <= |s.bs| && j < |s.lists| && m < |s.lists[j]|
  {
    var g := Slide(s.bs, h, s.lists[j][m]);
    && |links| == |Removed(s, h).links| && g < |links|
    && links[g] == if j < i || (j == i && m < k) then Removed(s, h).links[g] else MovedLinks(s.bs, h, s.links)[g]
  }

  ghost predicate FixedUpTo(s: Heap, h: nat, links: seq<Links>, i: nat, k: nat)
    requires Removable(s, h) && Src(s.bs, h) <= |s.bs|
  {
    && |links| == |Removed(s, h).links|
    && (forall j, m {:trigger Settled(s, h, links, i, k, j, m)} :: 0 <= j < |s.lists| && 0 <= m < |s.lists[j]| ==>
          Settled(s, h, links, i, k, j, m))
    && (forall g :: 0 <= g < |links| && MovedLinks(s.bs, h, s.links)[g].prev.Null? ==>
          links[g] == MovedLinks(s.bs, h, s.links)[g])
  }

  lemma FixStart(s: Heap, h: nat, dirtyPages: bool)
    requires Removable(s, h) && Src(s.bs, h) <= |s.bs| && Listed(s, dirtyPages)
    ensures FixedUpTo(s, h, MovedLinks(s.bs, h, s.links), 0, 0)
  {
    var links := MovedLinks(s.bs, h, s.links);
    forall j, m | 0 <= j < |s.lists| && 0 <= m < |s.lists[j]| ensures Settled(s, h, links, 0, 0, j, m) {
      RemovedNode(s, h, j, m, dirtyPages);
    }
  }

  lemma FixEnd(s: Heap, h: nat, links: seq<Links>, dirtyPages: bool)
    requires Removable(s, h) && Src(s.bs, h) <= |s.bs| && Listed(s, dirtyPages) && FixedUpTo(s, h, links, NUM_LISTS, 0)
    ensures links == Removed(s, h).links
  {
    var r := Removed(s, h);
    forall g | 0 <= g < |links| ensures links[g] == r.links[g] {
      if !MovedLinks(s.bs, h, s.links)[g].prev.Null? {
        var k := Origin(s, h, g);
        Seen(s, h, k);
        var j, m := Position(s.links, s.heads, s.lists, k);
        assert Settled(s, h, links, NUM_LISTS, 0, j, m);
      } else {
        RemovedRings(s, h, dirtyPages);
        assert r.links[g].prev.Null?;
      }
    }
  }

  // One place.
  lemma FixPlace(s: Heap, h: nat, links: seq<Links>, i: nat, k: nat, j: nat, m: nat, dirtyPages: bool)
    requires Removable(s, h) && Src(s.bs, h) <= |s.bs| && Listed(s, dirtyPages)
    requires i < NUM_LISTS && k < |s.lists[i]| && j < NUM_LISTS && m < |s.lists[j]| && Settled(s, h, links, i, k, j, m)
    requires Slide(s.bs, h, s.lists[i][k]) < |links|
    ensures var g := Slide(s.bs, h, s.lists[i][k]);
            Settled(s, h, links[g := Removed(s, h).links[g]], i, k + 1, j, m)
  {
    RemovedNode(s, h, i, k, dirtyPages);
    RemovedNode(s, h, j, m, dirtyPages);
    assert Apart(s.lists, i, k, j, m);
    SlideInjective(s.bs, h, s.lists[i][k], s.lists[j][m]);
  }

  lemma FixNext(s: Heap, h: nat, links: seq<Links>, i: nat, k: nat, dirtyPages: bool)
    requires Removable(s, h) && Src(s.bs, h) <= |s.bs| && Listed(s, dirtyPages) && FixedUpTo(s, h, links, i, k)
    requires i < NUM_LISTS && k < |s.lists[i]|
    ensures var g := Slide(s.bs, h, s.lists[i][k]);
            && g < |links| && links[g] == Links(At(s.lists[i], i, k - 1), At(s.lists[i], i, k + 1))
            && FixedUpTo(s, h, links[g := SlideLinks(s.bs, h, links[g])], i, k + 1)
  {
    var g := Slide(s.bs, h, s.lists[i][k]);
    RemovedNode(s, h, i, k, dirtyPages);
    Seen(s, h, s.lists[i][k]);
    Neighbours(s.links, s.heads, s.lists, i, k);
    assert Settled(s, h, links, i, k, i, k);
    assert Removed(s, h).links[g] == SlideLinks(s.bs, h, links[g]);
    var r := links[g := Removed(s, h).links[g]];
    var k' := k + 1;
    forall j, m | 0 <= j < |s.lists| && 0 <= m < |s.lists[j]| ensures Settled(s, h, r, i, k', j, m) {
      assert Settled(s, h, links, i, k, j, m);
      FixPlace(s, h, links, i, k, j, m, dirtyPages);
    }
  }

  // On to the next list.
  lemma FixTurn(s: Heap, h: nat, links: seq<Links>, i: nat)
    requires Removable(s, h) && Src(s.bs, h) <= |s.bs| && i < |s.lists| && FixedUpTo(s, h, links, i, |s.lists[i]|)
    ensures FixedUpTo(s, h, links, i + 1, 0)
  {
    var i' := i + 1;
    forall j, m | 0 <= j < |s.lists| && 0 <= m < |s.lists[j]| ensures Settled(s, h, links, i', 0, j, m) {
      assert Settled(s, h, links, i, |s.lists[i]|, j, m);
    }
  }

  // How the code moves a pointer that points past the block.
  function Lowered(h: nat, size: nat, senOffset: int, l: Link): Link
  {
    if l.Entry? && l.b > h && l.b - size + senOffset >= 0 then Entry(l.b - size + senOffset) else l
  }

  // On the lists no pointer points into the hole, so this is where the entry went.
  lemma LoweredIsSlide(s: Heap, h: nat, i: nat, k: int, dirtyPages: bool)
    requires Removable(s, h) && Src(s.bs, h) <= |s.bs| && Listed(s, dirtyPages) && i < NUM_LISTS
    ensures Lowered(h, s.bs[h].size, Dst(s.bs, h) - (Src(s.bs, h) - s.bs[h].size), At(s.lists[i], i, k))
            == SlideLink(s.bs, h, At(s.lists[i], i, k)) == At(Removed(s, h).lists[i], i, k)
  {
    if 0 <= k < |s.lists[i]| {
      RemovedNode(s, h, i, k, dirtyPages);
    }
  }

  // One node's links are put right.
  lemma FixOne(s: Heap, h: nat, links: seq<Links>, i: nat, k: nat, dirtyPages: bool)
    requires Removable(s, h) && Src(s.bs, h) <= |s.bs| && Listed(s, dirtyPages) && FixedUpTo(s, h, links, i, k)
    requires i < NUM_LISTS && k < |s.lists[i]|
    ensures var g := Slide(s.bs, h, s.lists[i][k]);
            var n, sen := s.bs[h].size, Dst(s.bs, h) - (Src(s.bs, h) - s.bs[h].size);
            && g < |links| && At(Removed(s, h).lists[i], i, k) == Entry(g)
            && Lowered(h, n, sen, links[g].next) == At(Removed(s, h).lists[i], i, k + 1)
            && FixedUpTo(s, h, links[g := Links(Lowered(h, n, sen, links[g].prev), Lowered(h, n, sen, links[g].next))], i, k + 1)
  {
    FixNext(s, h, links, i, k, dirtyPages);
    LoweredIsSlide(s, h, i, k - 1, dirtyPages);
    LoweredIsSlide(s, h, i, k, dirtyPages);
    LoweredIsSlide(s, h, i, k + 1, dirtyPages);
  }

  // ------------------------------------------------------------------ the count of decommitted pages

  lemma {:induction false} UncommittedMoved(os: seq<Page>, r: seq<Page>, lo: nat, hi: nat, lo': nat)
    requires lo <= hi <= |os| && lo' + (hi - lo) <= |r|
    requires forall k :: lo <= k < hi ==> os[k].committed == r[k - lo + lo'].committed
    ensures Uncommitted(os, lo, hi) == Uncommitted(r, lo', lo' + (hi - lo))
  {
    if lo < hi {
      UncommittedMoved(os, r, lo, hi - 1, lo');
    }
  }

  lemma SlidCount(os: seq<Page>, h: nat, src: nat, sentinel: seq<Page>)
    requires h <= src <= |os| && (forall k :: h <= k < src ==> os[k].committed)
    requires forall k :: 0 <= k < |sentinel| ==> sentinel[k].committed
    ensures Uncommitted(Slid(os, h, src, sentinel), 0, |Slid(os, h, src, sentinel)|) == Uncommitted(os, 0, |os|)
  {
    var r := Slid(os, h, src, sentinel);
    var dst := h + |sentinel|;
    UncommittedSplit(os, 0, h, |os|);
    UncommittedSplit(os, h, src, |os|);
    UncommittedAll(os, h, src, true);
    UncommittedMoved(os, r, 0, h, 0);
    UncommittedMoved(os, r, src, |os|, dst);
    UncommittedSplit(r, 0, h, |r|);
    UncommittedSplit(r, h, dst, |r|);
    UncommittedAll(r, h, dst, true);
  }

  lemma RemovedCount(s: Heap, h: nat)
    requires Removable(s, h) && Src(s.bs, h) <= |s.bs| && Stored(s, {})
    ensures Uncommitted(Removed(s, h).os, 0, |Removed(s, h).os|) == Uncommitted(s.os, 0, |s.os|)
  {
    var e := h + s.bs[h].size;
    assert StoreOk(s, h) && PagesOk(s, e) && EntryOk(s.bs, h, -1) && EntryOk(s.bs, e, -1);
    SlidCount(s.os, h, Src(s.bs, h), if NeedSentinel(s.bs, h) then [Page(0, true, false)] else []);
  }
}
