/**
 A heap in which AllocBlock returns NULL although there is a run of free blocks with room.
 A decommitted block that was cut off a larger one stands in the list of its own size, and
 the search, which begins with the list of the size asked for, does not come by it.
 */
module MissedRun {
  import opened HeapLayout
  import opened FreeLists
  import opened HeapState
  import opened RunAssembly
  import opened RunSearch

  const SIZE: nat := 10
  const WANTED: nat := 15
  const PLACE: nat := ListIndex(SIZE)

  // SIZE decommitted pages and then SIZE committed ones, all free.
  ghost function Entry0(h: nat): HeapBlock {
    if h == 0 then HeapBlock(100, SIZE, 0, false, false)
    else if h == SIZE then HeapBlock(100 + SIZE, SIZE, SIZE, true, false)
    else if h == 2 * SIZE then HeapBlock(0, 0, SIZE, true, false)
    else HeapBlock(0, 0, 0, true, false)
  }

  ghost function Link0(h: nat): Links {
    if h == 0 then Links(ListHead(PLACE), Entry(SIZE))
    else if h == SIZE then Links(Entry(0), ListHead(PLACE))
    else Links(Null, Null)
  }

  ghost function Page0(h: nat): Page {
    if h == 2 * SIZE then Page(0, true, false) else Page(100 + h, h >= SIZE, true)
  }

  ghost function Missed(): (s: Heap)
    ensures |s.bs| == |s.links| == |s.os| == 2 * SIZE + 1 && |s.heads| == |s.lists| == NUM_LISTS
    ensures forall h :: 0 <= h < |s.bs| ==> s.bs[h] == Entry0(h) && s.links[h] == Link0(h) && s.os[h] == Page0(h)
    ensures forall i :: 0 <= i < NUM_LISTS ==>
              if i == PLACE then s.heads[i] == Links(Entry(SIZE), Entry(0)) && s.lists[i] == [0, SIZE]
              else s.heads[i] == Links(ListHead(i), ListHead(i)) && s.lists[i] == []
  {
    Heap(seq(2 * SIZE + 1, h requires 0 <= h => Entry0(h)),
         seq(2 * SIZE + 1, h requires 0 <= h => Link0(h)),
         seq(NUM_LISTS, i requires 0 <= i => if i == PLACE then Links(Entry(SIZE), Entry(0)) else Links(ListHead(i), ListHead(i))),
         seq(NUM_LISTS, i => if i == PLACE then [0, SIZE] else []),
         seq(2 * SIZE + 1, h requires 0 <= h => Page0(h)))
  }

  lemma MissedRings()
    ensures var s := Missed(); Rings(s.links, s.heads, s.lists)
  {
    var s := Missed();
    forall i | 0 <= i < NUM_LISTS ensures Ring(s.links, s.heads, s.lists[i], i) {
      forall k | 0 <= k < |s.lists[i]| ensures NodeOk(s.links, s.lists[i], i, k) {
      }
    }
    forall b | 0 <= b < |s.links| && !s.links[b].prev.Null? ensures OnList(s.lists, b) {
      assert s.lists[PLACE][if b == 0 then 0 else 1] == b;
    }
  }

  lemma MissedTiled()
    ensures Tiled(Missed().bs, -1)
  {
    var bs := Missed().bs;
    forall h | 0 <= h < |bs| ensures EntryOk(bs, h, -1) {
    }
  }

  lemma MissedOk()
    ensures Ok(Missed(), false, -1, {})
  {
    var s := Missed();
    MissedRings();
    MissedTiled();
    forall i, k | 0 <= i < |s.lists| && 0 <= k < |s.lists[i]| ensures PlaceOk(s.bs, s.lists, i, k) {
    }
    forall i, k, m | 0 <= i < |s.lists| && 0 <= k < |s.lists[i]| && 0 <= m < |s.lists[i]|
      ensures Ordered(s.bs, s.lists[i], k, m)
    {
    }
    forall h | 0 <= h < |s.bs| ensures FreeOk(s, false, h) && PagesOk(s, h) && StoreOk(s, h) {
    }
  }

  // All pages lie in one run of free blocks, more than are asked for, and yet none is found.
  lemma RunIsMissed()
    ensures Ok(Missed(), false, -1, {})
    ensures Roomy(Missed(), 0, 2 * SIZE, WANTED, 1)
    ensures Exhausted(Missed(), WANTED, 1, true)
  {
    var s := Missed();
    MissedOk();
    assert RunTo(s, 2 * SIZE, 2 * SIZE);
    assert RunTo(s, SIZE, 2 * SIZE);
    assert PLACE < ListIndex(WANTED);
    assert forall j :: ListIndex(WANTED) <= j < NUM_LISTS ==> s.lists[j] == [];
  }
}
