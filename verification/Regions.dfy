/**
 The regions of address space behind the HeapBlock array (MMgc/GCHeap.cpp:1177-1184,
 1245-1270, 2246-2292).  A region records which HeapBlock its first page belongs to.
 */
module Regions {
  import opened HeapLayout
  import opened HeapState
  import opened HeapSteps
  import opened Compaction

  // `large` stands for the block id of regions that hold one large allocation.
  datatype Region = Region(base: nat, reserveTop: nat, commitTop: nat, blockId: nat, large: bool)

  // Page i of the region is behind entry blockId + i of the array.
  ghost predicate RegionOk(os: seq<Page>, r: Region) {
    && 0 < r.base < r.commitTop <= r.reserveTop
    && (r.large ==> r.commitTop == r.reserveTop)
    && (!r.large ==>
          && r.blockId + (r.commitTop - r.base) <= |os|
          && forall k :: r.blockId <= k < r.blockId + (r.commitTop - r.base) ==> os[k].address == r.base + k - r.blockId)
  }

  ghost predicate Disjoint(a: Region, b: Region) {
    a.reserveTop <= b.base || b.reserveTop <= a.base
  }

  ghost predicate Covers(r: Region, address: nat) {
    !r.large && r.base <= address < r.commitTop
  }

  ghost predicate Backing(os: seq<Page>, rs: seq<Region>, k: nat)
    requires k < |os|
  {
    os[k].address != 0 ==> exists j :: 0 <= j < |rs| && Covers(rs[j], os[k].address)
  }

  // No two entries of the array stand for the same page.
  ghost predicate Unique(os: seq<Page>) {
    forall k, m :: 0 <= k < m < |os| && os[k].address != 0 ==> os[k].address != os[m].address
  }

  // The list of regions runs from the end of the array to its beginning.
  ghost predicate Later(a: Region, b: Region) {
    a.large || b.large || a.blockId > b.blockId
  }

  ghost predicate Mapped(os: seq<Page>, rs: seq<Region>) {
    && Unique(os)
    && (forall i, j :: 0 <= i < j < |rs| ==> Later(rs[i], rs[j]))
    && (forall j {:trigger RegionOk(os, rs[j])} :: 0 <= j < |rs| ==> RegionOk(os, rs[j]))
    && (forall i, j :: 0 <= i < j < |rs| ==> Disjoint(rs[i], rs[j]))
    && (forall k {:trigger Backing(os, rs, k)} :: 0 <= k < |os| ==> Backing(os, rs, k))
  }

  // BaseAddrToBlock is right: the entry computed from the region is the one of that page.
  lemma BlockOfAddress(os: seq<Page>, rs: seq<Region>, j: nat, k: nat)
    requires Mapped(os, rs) && j < |rs| && k < |os| && Covers(rs[j], os[k].address)
    ensures rs[j].blockId + (os[k].address - rs[j].base) == k
  {
    assert RegionOk(os, rs[j]);
    assert os[rs[j].blockId + (os[k].address - rs[j].base)].address == os[k].address;
  }

  function LoweredRegion(r: Region, blockId: nat, n: int): Region
  {
    if r.blockId > blockId && !r.large && r.blockId >= n then r.(blockId := r.blockId - n) else r
  }

  function LoweredRegions(rs: seq<Region>, blockId: nat, n: int): (r: seq<Region>)
    ensures |r| == |rs|
  {
    seq(|rs|, k requires 0 <= k < |rs| => LoweredRegion(rs[k], blockId, n))
  }

  // The region of the block is exactly the block.
  ghost predicate IsRegion(s: Heap, h: nat, r: Region) {
    h < |s.bs| && !r.large && r.base == s.bs[h].base && r.reserveTop == s.bs[h].base + s.bs[h].size
  }

  lemma RegionOfBlock(s: Heap, rs: seq<Region>, h: nat, j: nat, dirtyPages: bool)
    requires Ok(s, dirtyPages, -1, {}) && Removable(s, h) && Mapped(s.os, rs) && j < |rs| && IsRegion(s, h, rs[j])
    ensures rs[j].blockId == h && rs[j].commitTop == rs[j].reserveTop
    ensures forall i :: 0 <= i < |rs| && i != j && !rs[i].large ==>
              rs[i].blockId + (rs[i].commitTop - rs[i].base) <= h || Src(s.bs, h) <= rs[i].blockId
    ensures forall i :: 0 <= i < |rs| && !rs[i].large ==> rs[i].blockId <= h || Src(s.bs, h) <= rs[i].blockId
  {
    assert EntryOk(s.bs, h, -1) && PagesOk(s, h) && RegionOk(s.os, rs[j]);
    var e := h + s.bs[h].size;
    assert s.os[rs[j].blockId].address == rs[j].base;
    assert s.os[h].address == rs[j].base;
    assert s.os[e - 1].address == s.bs[h].base + s.bs[h].size - 1;
    assert Backing(s.os, rs, e - 1);
    var m :| 0 <= m < |rs| && Covers(rs[m], s.os[e - 1].address);
    assert RegionOk(s.os, rs[m]);
    assert m == j;
    forall i | 0 <= i < |rs| && i != j && !rs[i].large
      ensures rs[i].blockId + (rs[i].commitTop - rs[i].base) <= h || Src(s.bs, h) <= rs[i].blockId
    {
      OtherRegion(s, rs, h, i, j, dirtyPages);
    }
    forall i | 0 <= i < |rs| && !rs[i].large ensures rs[i].blockId <= h || Src(s.bs, h) <= rs[i].blockId {
      assert RegionOk(s.os, rs[i]);
    }
  }

  lemma OtherRegion(s: Heap, rs: seq<Region>, h: nat, i: nat, j: nat, dirtyPages: bool)
    requires Ok(s, dirtyPages, -1, {}) && Removable(s, h) && Mapped(s.os, rs) && i < |rs| && j < |rs| && i != j
    requires IsRegion(s, h, rs[j]) && !rs[i].large
    ensures rs[i].blockId + (rs[i].commitTop - rs[i].base) <= h || Src(s.bs, h) <= rs[i].blockId
  {
    var r := rs[i];
    var n := r.commitTop - r.base;
    var e := h + s.bs[h].size;
    assert EntryOk(s.bs, h, -1) && EntryOk(s.bs, e, -1) && PagesOk(s, h) && PagesOk(s, e);
    assert RegionOk(s.os, r);
    if i < j {
      assert Disjoint(r, rs[j]);
    } else {
      assert Disjoint(rs[j], r);
    }
    assert s.os[r.blockId].address == r.base;
    assert s.os[h].address == s.bs[h].base && s.os[e - 1].address == s.bs[h].base + s.bs[h].size - 1;
  }

  function DropRegion(rs: seq<Region>, j: nat): seq<Region>
    requires j < |rs|
  {
    rs[..j] + rs[j + 1..]
  }

  lemma SlidUnique(s: Heap, h: nat)
    requires Removable(s, h) && Src(s.bs, h) <= |s.bs| && Unique(s.os)
    ensures Unique(Removed(s, h).os)
  {
  }

  lemma SlidRegion(s: Heap, rs: seq<Region>, h: nat, j: nat, i: nat, dirtyPages: bool)
    requires Ok(s, dirtyPages, -1, {}) && Removable(s, h) && Src(s.bs, h) <= |s.bs| && Mapped(s.os, rs)
    requires j < |rs| && i < |rs| && i != j && IsRegion(s, h, rs[j])
    ensures RegionOk(Removed(s, h).os, LoweredRegion(rs[i], h, Src(s.bs, h) - Dst(s.bs, h)))
  {
    assert RegionOk(s.os, rs[i]);
    RegionOfBlock(s, rs, h, j, dirtyPages);
  }

  // A page that stays lies in another region.
  lemma ElsewhereCovered(s: Heap, rs: seq<Region>, h: nat, j: nat, k: nat, dirtyPages: bool) returns (i: nat)
    requires Ok(s, dirtyPages, -1, {}) && Removable(s, h) && Mapped(s.os, rs) && j < |rs| && IsRegion(s, h, rs[j])
    requires Stays(s, h, k) && s.os[k].address != 0
    ensures i < |rs| && i != j && Covers(rs[i], s.os[k].address)
  {
    assert Backing(s.os, rs, k);
    i :| 0 <= i < |rs| && Covers(rs[i], s.os[k].address);
    BlockOfAddress(s.os, rs, i, k);
    RegionOfBlock(s, rs, h, j, dirtyPages);
    assert EntryOk(s.bs, h, -1);
  }

  lemma SlidBacking(s: Heap, rs: seq<Region>, h: nat, j: nat, g: nat, dirtyPages: bool)
    requires Ok(s, dirtyPages, -1, {}) && Removable(s, h) && Src(s.bs, h) <= |s.bs| && Mapped(s.os, rs)
    requires j < |rs| && IsRegion(s, h, rs[j]) && g < |Removed(s, h).os|
    ensures Backing(Removed(s, h).os, DropRegion(LoweredRegions(rs, h, Src(s.bs, h) - Dst(s.bs, h)), j), g)
  {
    var r := Removed(s, h).os;
    if r[g].address != 0 {
      var k := Origin(s, h, g);
      Seen(s, h, k);
      var i := ElsewhereCovered(s, rs, h, j, k, dirtyPages);
      StillBacked(r, rs, h, Src(s.bs, h) - Dst(s.bs, h), j, i, g);
    }
  }

  lemma StillBacked(os: seq<Page>, rs: seq<Region>, h: nat, n: int, j: nat, i: nat, g: nat)
    requires j < |rs| && i < |rs| && i != j && g < |os| && Covers(rs[i], os[g].address)
    ensures Backing(os, DropRegion(LoweredRegions(rs, h, n), j), g)
  {
    assert Covers(DropRegion(LoweredRegions(rs, h, n), j)[if i < j then i else i - 1], os[g].address);
  }

  // Every surviving region still names the entry of its first page.
  lemma RemovedMapped(s: Heap, rs: seq<Region>, h: nat, j: nat, dirtyPages: bool)
    requires Ok(s, dirtyPages, -1, {}) && Removable(s, h) && Src(s.bs, h) <= |s.bs| && Mapped(s.os, rs)
    requires j < |rs| && IsRegion(s, h, rs[j])
    ensures Mapped(Removed(s, h).os, DropRegion(LoweredRegions(rs, h, Src(s.bs, h) - Dst(s.bs, h)), j))
  {
    var r := Removed(s, h).os;
    var low := LoweredRegions(rs, h, Src(s.bs, h) - Dst(s.bs, h));
    var rs' := DropRegion(low, j);
    SlidUnique(s, h);
    forall i | 0 <= i < |rs'| ensures RegionOk(r, rs'[i]) {
      SlidRegion(s, rs, h, j, if i < j then i else i + 1, dirtyPages);
    }
    forall i, k | 0 <= i < k < |rs'| ensures Disjoint(rs'[i], rs'[k]) {
      assert Disjoint(rs[if i < j then i else i + 1], rs[if k < j then k else k + 1]);
    }
    RegionOfBlock(s, rs, h, j, dirtyPages);
    forall i, k | 0 <= i < k < |rs'| ensures Later(rs'[i], rs'[k]) {
      assert Later(rs[if i < j then i else i + 1], rs[if k < j then k else k + 1]);
    }
    forall g | 0 <= g < |r| ensures Backing(r, rs', g) {
      SlidBacking(s, rs, h, j, g, dirtyPages);
    }
  }

  lemma OneRegion(os: seq<Page>, rs: seq<Region>, i: nat, j: nat, address: nat)
    requires Mapped(os, rs) && i < |rs| && j < |rs|
    requires rs[i].base <= address < rs[i].reserveTop && rs[j].base <= address < rs[j].reserveTop
    ensures i == j
  {
  }

  lemma GiveBack(s: Heap, r: Heap, rs: seq<Region>, h: nat, j: nat, dirtyPages: bool)
    requires Ok(s, dirtyPages, -1, {}) && InUse(s, h) && Mapped(s.os, rs) && j < |rs| && IsRegion(s, h, rs[j])
    requires Removable(s, h) && Src(s.bs, h) <= |s.bs| && r == Removed(s, h)
    ensures Ok(r, dirtyPages, -1, {}) && Mapped(r.os, DropRegion(LoweredRegions(rs, h, Src(s.bs, h) - Dst(s.bs, h)), j))
    ensures Uncommitted(r.os, 0, |r.os|) == Uncommitted(s.os, 0, |s.os|)
    ensures rs[j].blockId == h
    ensures forall i :: 0 <= i < |rs| && !rs[i].large && rs[i].blockId > h ==> rs[i].blockId >= Src(s.bs, h) - Dst(s.bs, h)
    ensures forall i :: 0 <= i < |rs| && rs[i].base <= s.bs[h].base < rs[i].reserveTop ==> i == j
    ensures rs[j].base <= s.bs[h].base < rs[j].reserveTop
  {
    RemovedOk(s, h, dirtyPages);
    RemovedCount(s, h);
    RemovedMapped(s, rs, h, j, dirtyPages);
    RegionOfBlock(s, rs, h, j, dirtyPages);
    assert RegionOk(s.os, rs[j]);
    forall i | 0 <= i < |rs| && rs[i].base <= s.bs[h].base < rs[i].reserveTop ensures i == j {
      OneRegion(s.os, rs, i, j, s.bs[h].base);
    }
  }

  // Every block lies in a region, which is not one of a large allocation.
  lemma RegionOf(s: Heap, rs: seq<Region>, h: nat, dirtyPages: bool) returns (j: nat)
    requires Ok(s, dirtyPages, -1, {}) && Mapped(s.os, rs) && h < |s.bs| && Head(s.bs[h])
    ensures j < |rs| && !rs[j].large && rs[j].base <= s.bs[h].base < rs[j].reserveTop
    ensures forall i :: 0 <= i < |rs| && rs[i].base <= s.bs[h].base < rs[i].reserveTop ==> i == j
  {
    assert EntryOk(s.bs, h, -1) && PagesOk(s, h) && Backing(s.os, rs, h);
    assert s.os[h].address == s.bs[h].base;
    j :| 0 <= j < |rs| && Covers(rs[j], s.os[h].address);
    assert RegionOk(s.os, rs[j]);
    forall i | 0 <= i < |rs| && rs[i].base <= s.bs[h].base < rs[i].reserveTop ensures i == j {
      OneRegion(s.os, rs, i, j, s.bs[h].base);
    }
  }
}
