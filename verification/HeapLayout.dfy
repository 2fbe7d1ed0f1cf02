/**
 The array of HeapBlocks of the block manager (MMgc/GCHeap.h, MMgc/GCHeap.cpp).

 Addresses are page numbers, 0 is NULL.  A block of n pages starting at index h occupies
 the entries h .. h + n - 1; only the first, its head, carries data, the others are clear.
 A sentinel ends every run of contiguous blocks.
 */
module HeapLayout {

  datatype HeapBlock = HeapBlock(base: nat, size: nat, sizePrevious: nat, committed: bool, dirty: bool)

  predicate Head(b: HeapBlock) { b.size > 0 }

  predicate Sentinel(b: HeapBlock) { b.size == 0 && b.sizePrevious > 0 }

  predicate Interior(b: HeapBlock) { b.size == 0 && b.sizePrevious == 0 && b.base == 0 }

  // ------------------------------------------------------------------ the layout invariant

  // `stale` is a head whose successor's boundary tag has not been updated yet, or -1.
  ghost predicate HeadOk(bs: seq<HeapBlock>, h: nat, stale: int)
    requires h < |bs|
  {
    var e := h + bs[h].size;
    && bs[h].base != 0
    && e < |bs|
    && (forall k :: h < k < e ==> Interior(bs[k]))
    && bs[e].sizePrevious > 0
    && (h != stale ==> bs[e].sizePrevious == bs[h].size)
    && (Head(bs[e]) ==> bs[e].base == bs[h].base + bs[h].size)
  }

  ghost predicate BackOk(bs: seq<HeapBlock>, h: nat)
    requires h < |bs|
  {
    h >= bs[h].sizePrevious && bs[h - bs[h].sizePrevious].size == bs[h].sizePrevious
  }

  ghost predicate IsStale(bs: seq<HeapBlock>, h: int, stale: int) {
    0 <= stale < |bs| && h == stale + bs[stale].size
  }

  ghost predicate EntryOk(bs: seq<HeapBlock>, h: nat, stale: int)
    requires h < |bs|
  {
    && (Head(bs[h]) || Sentinel(bs[h]) || Interior(bs[h]))
    && (Head(bs[h]) ==> HeadOk(bs, h, stale))
    && (bs[h].sizePrevious > 0 && !IsStale(bs, h, stale) ==> BackOk(bs, h))
    && (Head(bs[h]) && h > 0 ==> (bs[h].sizePrevious == 0 <==> Sentinel(bs[h - 1])))
    && (Sentinel(bs[h]) ==> bs[h].base == 0 && (h + 1 < |bs| ==> Head(bs[h + 1])))
  }

  // What ValidateHeapBlocks checks, stated of every entry.
  ghost predicate Tiled(bs: seq<HeapBlock>, stale: int) {
    && (stale == -1 || (0 <= stale < |bs| && Head(bs[stale])))
    && (bs != [] ==> Head(bs[0]) && bs[0].sizePrevious == 0 && Sentinel(bs[|bs| - 1]))
    && (forall h {:trigger EntryOk(bs, h, stale)} :: 0 <= h < |bs| ==> EntryOk(bs, h, stale))
  }

  // ------------------------------------------------------------------ operations on the array

  function SplitAt(bs: seq<HeapBlock>, h: nat, n: nat): (r: seq<HeapBlock>)
    requires h < |bs| && 0 < n < bs[h].size && h + bs[h].size < |bs|
    ensures |r| == |bs|
  {
    var b := bs[h];
    var e := h + b.size;
    bs[h + n := HeapBlock(b.base + n, b.size - n, n, b.committed, b.dirty)]
      [h := b.(size := n)]
      [e := bs[e].(sizePrevious := b.size - n)]
  }

  // The block after h becomes part of h; the boundary tag after it is left as it was.
  function Absorb(bs: seq<HeapBlock>, h: nat): (r: seq<HeapBlock>)
    requires h < |bs| && h + bs[h].size < |bs|
    ensures |r| == |bs|
  {
    var e := h + bs[h].size;
    bs[e := bs[e].(size := 0, sizePrevious := 0, base := 0)][h := bs[h].(size := bs[h].size + bs[e].size)]
  }

  function Relink(bs: seq<HeapBlock>, h: nat): (r: seq<HeapBlock>)
    requires h < |bs| && h + bs[h].size < |bs|
    ensures |r| == |bs|
  {
    var e := h + bs[h].size;
    bs[e := bs[e].(sizePrevious := bs[h].size)]
  }

  // ------------------------------------------------------------------ they keep the layout

  // A head before h ends at h or before it.
  lemma HeadsDisjoint(bs: seq<HeapBlock>, g: nat, h: nat, stale: int)
    requires Tiled(bs, stale) && g < h < |bs| && Head(bs[g]) && !Interior(bs[h])
    ensures g + bs[g].size <= h
  {
    assert EntryOk(bs, g, stale);
  }

  lemma SplitOther(bs: seq<HeapBlock>, h: nat, n: nat, stale: int, g: nat)
    requires Tiled(bs, stale) && h < |bs| && 0 < n < bs[h].size && h != stale && g < |bs|
    requires h + bs[h].size < |bs| && g != h && g != h + n && g != h + bs[h].size
    ensures EntryOk(SplitAt(bs, h, n), g, stale)
  {
    assert EntryOk(bs, h, stale);
    assert EntryOk(bs, g, stale);
    assert Interior(bs[h + n]);
    if g < h && Head(bs[g]) {
      HeadsDisjoint(bs, g, h, stale);
    }
  }

  lemma SplitEnds(bs: seq<HeapBlock>, h: nat, n: nat, stale: int)
    requires Tiled(bs, stale) && h < |bs| && 0 < n < bs[h].size && h != stale && h + bs[h].size < |bs|
    ensures EntryOk(SplitAt(bs, h, n), h, stale) && EntryOk(SplitAt(bs, h, n), h + n, stale)
  {
    assert EntryOk(bs, h, stale);
    assert Interior(bs[h + n]);
    if 0 <= stale < h {
      HeadsDisjoint(bs, stale, h, stale);
    }
  }

  lemma SplitAfter(bs: seq<HeapBlock>, h: nat, n: nat, stale: int)
    requires Tiled(bs, stale) && h < |bs| && 0 < n < bs[h].size && h != stale && h + bs[h].size < |bs|
    ensures EntryOk(SplitAt(bs, h, n), h + bs[h].size, stale)
  {
    assert EntryOk(bs, h, stale);
    assert EntryOk(bs, h + bs[h].size, stale);
    if 0 <= stale < h {
      HeadsDisjoint(bs, stale, h, stale);
    }
  }

  lemma SplitKeepsTiled(bs: seq<HeapBlock>, h: nat, n: nat, stale: int)
    requires Tiled(bs, stale) && h < |bs| && 0 < n < bs[h].size && h != stale
    ensures h + bs[h].size < |bs| && Tiled(SplitAt(bs, h, n), stale)
  {
    assert EntryOk(bs, h, stale);
    var e := h + bs[h].size;
    var r := SplitAt(bs, h, n);
    assert EntryOk(bs, e, stale);
    forall g | 0 <= g < |r| ensures EntryOk(r, g, stale) {
      if g == h || g == h + n {
        SplitEnds(bs, h, n, stale);
      } else if g == e {
        SplitAfter(bs, h, n, stale);
      } else {
        SplitOther(bs, h, n, stale, g);
      }
    }
  }

  lemma AbsorbEntry(bs: seq<HeapBlock>, h: nat, stale: int, g: nat)
    requires Tiled(bs, stale) && h < |bs| && Head(bs[h]) && (stale == -1 || stale == h) && g < |bs|
    requires h + bs[h].size < |bs| && Head(bs[h + bs[h].size])
    ensures EntryOk(Absorb(bs, h), g, h)
  {
    assert EntryOk(bs, h, stale);
    assert EntryOk(bs, g, stale);
    var e := h + bs[h].size;
    assert EntryOk(bs, e, stale);
    if g < h && Head(bs[g]) {
      HeadsDisjoint(bs, g, h, stale);
    } else if e < g && !Interior(bs[g]) {
      HeadsDisjoint(bs, e, g, stale);
    }
  }

  lemma AbsorbKeepsTiled(bs: seq<HeapBlock>, h: nat, stale: int)
    requires Tiled(bs, stale) && h < |bs| && Head(bs[h]) && (stale == -1 || stale == h)
    requires h + bs[h].size < |bs| && Head(bs[h + bs[h].size])
    ensures Tiled(Absorb(bs, h), h)
  {
    assert EntryOk(bs, h, stale);
    var r := Absorb(bs, h);
    forall g | 0 <= g < |r| ensures EntryOk(r, g, h) {
      AbsorbEntry(bs, h, stale, g);
    }
    assert EntryOk(bs, h + bs[h].size, stale);
  }

  lemma RelinkOther(bs: seq<HeapBlock>, h: nat, stale: int, g: nat)
    requires Tiled(bs, stale) && h < |bs| && Head(bs[h]) && (stale == -1 || stale == h) && g < |bs|
    requires h + bs[h].size < |bs| && g != h && g != h + bs[h].size
    ensures EntryOk(Relink(bs, h), g, -1)
  {
    assert EntryOk(bs, h, stale);
    assert EntryOk(bs, g, stale);
    if g < h && Head(bs[g]) {
      HeadsDisjoint(bs, g, h, stale);
    } else if h < g && Head(bs[g]) {
      HeadsDisjoint(bs, h, g, stale);
    }
  }

  lemma RelinkEntry(bs: seq<HeapBlock>, h: nat, stale: int, g: nat)
    requires Tiled(bs, stale) && h < |bs| && Head(bs[h]) && (stale == -1 || stale == h) && g < |bs|
    requires h + bs[h].size < |bs|
    ensures EntryOk(Relink(bs, h), g, -1)
  {
    var e := h + bs[h].size;
    if g != h && g != e {
      RelinkOther(bs, h, stale, g);
    } else {
      assert EntryOk(bs, h, stale);
      assert EntryOk(bs, e, stale);
    }
  }

  lemma RelinkKeepsTiled(bs: seq<HeapBlock>, h: nat, stale: int)
    requires Tiled(bs, stale) && h < |bs| && Head(bs[h]) && (stale == -1 || stale == h)
    ensures h + bs[h].size < |bs| && Tiled(Relink(bs, h), -1)
  {
    assert EntryOk(bs, h, stale);
    var e := h + bs[h].size;
    var r := Relink(bs, h);
    assert EntryOk(bs, e, stale);
    forall g | 0 <= g < |r| ensures EntryOk(r, g, -1) {
      RelinkEntry(bs, h, stale, g);
    }
  }

  // Changing the commit state or the dirty flag of a block does not touch the layout.
  lemma FlagsKeepTiled(bs: seq<HeapBlock>, r: seq<HeapBlock>, stale: int)
    requires Tiled(bs, stale) && |r| == |bs|
    requires forall k :: 0 <= k < |bs| ==> r[k] == bs[k].(committed := r[k].committed, dirty := r[k].dirty)
    ensures Tiled(r, stale)
  {
    forall g | 0 <= g < |r| ensures EntryOk(r, g, stale) {
      assert EntryOk(bs, g, stale);
    }
  }

  // ------------------------------------------------------------------ what the invariant means

  // The sizes of the tiles from index i on: blocks as they come, sentinels as one entry.
  ghost function Tiles(bs: seq<HeapBlock>, i: nat): seq<nat>
    requires i <= |bs|
    decreases |bs| - i
  {
    if i == |bs| then []
    else if Head(bs[i]) && i + bs[i].size <= |bs| then [bs[i].size] + Tiles(bs, i + bs[i].size)
    else [1] + Tiles(bs, i + 1)
  }

  ghost function Sum(xs: seq<nat>): nat {
    if xs == [] then 0 else xs[0] + Sum(xs[1..])
  }

  // Walking from any head or sentinel reaches the end of the array exactly, stepping only
  // on heads and sentinels: no entry is left out and none is covered twice.
  lemma {:induction false} TilesCover(bs: seq<HeapBlock>, i: nat)
    requires Tiled(bs, -1) && i <= |bs| && (i < |bs| ==> !Interior(bs[i]))
    ensures Sum(Tiles(bs, i)) == |bs| - i
    decreases |bs| - i
  {
    if i < |bs| {
      if Head(bs[i]) {
        assert EntryOk(bs, i, -1);
        TilesCover(bs, i + bs[i].size);
      } else {
        TilesCover(bs, i + 1);
      }
    }
  }

  // Every entry that is not a sentinel belongs to exactly one block.
  lemma {:induction false} Owner(bs: seq<HeapBlock>, i: nat) returns (h: nat)
    requires Tiled(bs, -1) && i < |bs| && !Sentinel(bs[i])
    ensures h <= i < h + bs[h].size && h < |bs|
    ensures forall g :: 0 <= g < |bs| && g <= i < g + bs[g].size ==> g == h
    decreases i
  {
    if Head(bs[i]) {
      h := i;
    } else {
      assert EntryOk(bs, i, -1) && EntryOk(bs, i - 1, -1);
      var g := Owner(bs, i - 1);
      assert EntryOk(bs, g, -1);
      h := g;
    }
    assert EntryOk(bs, h, -1);
    forall g | 0 <= g < |bs| && g <= i < g + bs[g].size ensures g == h {
      assert EntryOk(bs, g, -1);
    }
  }
}
