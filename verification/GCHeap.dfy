/**
 The block manager (MMgc/GCHeap.cpp): splitting, coalescing, aligned best-fit allocation
 and lazy commit over an array of HeapBlocks.
 */
module BlockManager {
  import opened HeapLayout
  import opened FreeLists
  import opened HeapState
  import opened HeapSteps
  import opened Coalescing
  import opened RunAssembly
  import opened Alignment
  import opened RunSearch
  import opened Compaction
  import opened Regions
  import opened Decommitting
  import opened Growth
  import opened Expansion
  import opened Options

  const OS_ALLOC_THRESHOLD: nat := 256

  class GCHeap {
    const useVirtualMemory: bool
    const sloppyCommit: bool
    const dirtyPages: bool     // newPagesDirty

    var blocks: seq<HeapBlock>
    var links: seq<Links>      // the prev and next fields of the blocks
    var freelists: seq<Links>
    var numDecommitted: int
    var regions: seq<Region>   // lastRegion and what its prev fields lead to
    ghost var lists: Lists     // the contents of the free lists
    ghost var os: seq<Page>    // the pages behind the blocks

    ghost function S(): Heap
      reads this
    {
      Heap(blocks, links, freelists, lists, os)
    }

    // The free lists are empty and there is no memory yet.
    constructor (useVirtualMemory: bool, sloppyCommit: bool, dirtyPages: bool)
      ensures this.useVirtualMemory == useVirtualMemory && this.sloppyCommit == sloppyCommit && this.dirtyPages == dirtyPages
      ensures Ok(S(), dirtyPages, -1, {}) && Mapped(os, regions) && Drift() == 0 && blocks == [] && regions == []
    {
      this.useVirtualMemory, this.sloppyCommit, this.dirtyPages := useVirtualMemory, sloppyCommit, dirtyPages;
      blocks, links, os, regions, numDecommitted := [], [], [], [], 0;
      freelists := seq(NUM_LISTS, i requires 0 <= i < NUM_LISTS => Links(ListHead(i), ListHead(i)));
      lists := seq(NUM_LISTS, i => []);
    }

    // How many more pages are decommitted than numDecommitted says.
    ghost function Drift(): int
      reads this
    {
      Uncommitted(os, 0, |os|) - numDecommitted
    }

    // ---------------------------------------------------------------- free lists

    method RemoveFromList(b: nat) returns (ghost i: nat, ghost k: nat)
      requires Listed(S(), dirtyPages) && Free(S(), b)
      modifies `links, `freelists, `lists
      ensures i < NUM_LISTS && k < |old(lists)[i]| && old(lists)[i][k] == b
      ensures S() == Detached(old(S()), i, k)
    {
      i, k := Position(links, freelists, lists, b);
      UnlinkKeepsRings(links, freelists, lists, i, k);
      ghost var s := S();
      var prev, next := links[b].prev, links[b].next;
      links := SetNext(links, prev, next);
      freelists := SetHeadNext(freelists, prev, next);
      links := SetPrev(links, next, prev);
      freelists := SetHeadPrev(freelists, next, prev);
      links := links[b := Links(Null, Null)];
      lists := lists[i := Without(lists[i], k)];
      assert S() == Detached(s, i, k);
    }

    // AddToFreeList(block, pointToInsert)
    method InsertBefore(b: nat, point: Link, ghost i: nat, ghost k: nat)
      requires Rings(links, freelists, lists) && b < |links| && !Free(S(), b)
      requires i < NUM_LISTS && k <= |lists[i]| && point == At(lists[i], i, k)
      modifies `links, `freelists, `lists
      ensures S() == Attached(old(S()), i, k, b)
    {
      InsertKeepsRings(links, freelists, lists, i, k, b);
      ghost var s := S();
      var prev := PrevOf(links, freelists, point);
      links := links[b := Links(prev, point)];
      links := SetNext(links, prev, Entry(b));
      freelists := SetHeadNext(freelists, prev, Entry(b));
      links := SetPrev(links, point, Entry(b));
      freelists := SetHeadPrev(freelists, point, Entry(b));
      lists := lists[i := With(lists[i], k, b)];
      assert S() == Attached(s, i, k, b);
    }

    // The search for the place of a block in the list of its size.
    method FindPlace(b: nat) returns (point: Link, ghost i: nat, ghost k: nat)
      requires Listed(S(), dirtyPages) && b < |blocks| && Head(blocks[b])
      ensures i < NUM_LISTS && k <= |lists[i]| && point == At(lists[i], i, k)
      ensures Fits(blocks, lists, i, k, b)
      ensures RightPlace(blocks, lists, ListIndex(blocks[b].size), b, point)
    {
      var size := blocks[b].size;
      var index := ListIndex(size);
      i := index;
      assert Ring(links, freelists, lists[i], i);
      if size < UNIQUE_THRESHOLD {
        point := ListHead(index);
        k := |lists[i]|;
        forall m | 0 <= m < k ensures lists[i][m] < |blocks| && blocks[lists[i][m]].size == size {
          assert PlaceOk(blocks, lists, i, m);
          SmallListsUniform(size, blocks[lists[i][m]].size);
        }
        return;
      }
      point := freelists[index].next;
      k := 0;
      while point != ListHead(index)
        invariant k <= |lists[i]| && point == At(lists[i], i, k)
        invariant forall m :: 0 <= m < k ==> lists[i][m] < |blocks| && blocks[lists[i][m]].size < size
        decreases |lists[i]| - k
      {
        assert PlaceOk(blocks, lists, i, k) && NodeOk(links, lists[i], i, k);
        if blocks[point.b].size >= size {
          break;
        }
        point := links[point.b].next;
        k := k + 1;
      }
      forall m | k <= m < |lists[i]| && lists[i][m] < |blocks| && blocks[lists[i][m]].committed
        ensures size <= blocks[lists[i][m]].size
      {
        assert Ordered(blocks, lists[i], k, m) && PlaceOk(blocks, lists, i, k);
      }
    }

    // ---------------------------------------------------------------- coalescing

    // The block at h takes in the one behind it, whose entry is cleared.
    method Absorb(h: nat)
      requires h < |blocks| && blocks[h].size > 0 && h + blocks[h].size < |blocks|
      modifies `blocks
      ensures S() == Merge(old(S()), h)
    {
      var e := h + blocks[h].size;
      var bs := blocks[h := blocks[h].(size := blocks[h].size + blocks[e].size)];
      blocks := bs[e := bs[e].(size := 0, sizePrevious := 0, base := 0)];
    }

    // The first half of AddToFreeList(block, makeDirty).
    method MergeWithPrevious(b: nat, makeDirty: bool) returns (block: nat, md: bool)
      requires Ok(S(), dirtyPages, -1, {}) && InUse(S(), b) && blocks[b].committed
      requires Honest(S(), b, blocks[b].dirty || makeDirty, dirtyPages) && (makeDirty || MergeSafe(S(), b))
      modifies `blocks, `links, `freelists, `lists
      ensures JoinedPrevious(old(S()), S(), b, block, md, dirtyPages)
    {
      block, md := b, makeDirty;
      ghost var s := S();
      NothingBefore(s, b, makeDirty, dirtyPages);
      if blocks[b].sizePrevious != 0 {
        var prev := b - blocks[b].sizePrevious;
        if !links[prev].prev.Null? && blocks[prev].committed {
          ghost var i, k := RemoveFromList(prev);
          MergePreviousOk(s, b, i, k, makeDirty, dirtyPages);
          Absorb(prev);
          block := prev;
          md := md || blocks[block].dirty;
        }
      }
    }

    method MergeWithNext(block: nat, makeDirty: bool, ghost stale: int) returns (md: bool, ghost stale': int)
      requires Ok(S(), dirtyPages, stale, {}) && (stale == -1 || stale == block)
      requires InUse(S(), block) && blocks[block].committed
      requires Honest(S(), block, blocks[block].dirty || makeDirty, dirtyPages) && NoFreeBefore(S(), block, true)
      modifies `blocks, `links, `freelists, `lists
      ensures (stale' == -1 || stale' == block) && JoinedNext(old(S()), S(), block, md, stale', dirtyPages)
    {
      md, stale' := makeDirty, stale;
      ghost var s := S();
      NothingAfter(s, block, makeDirty, stale, dirtyPages);
      var next := block + blocks[block].size;
      if !links[next].prev.Null? && blocks[next].committed {
        md := AbsorbNext(block, makeDirty, stale);
        stale' := block;
      }
    }

    // The block after this one is free and committed.
    method AbsorbNext(block: nat, makeDirty: bool, ghost stale: int) returns (md: bool)
      requires Ok(S(), dirtyPages, stale, {}) && (stale == -1 || stale == block)
      requires InUse(S(), block) && blocks[block].committed
      requires Honest(S(), block, blocks[block].dirty || makeDirty, dirtyPages) && NoFreeBefore(S(), block, true)
      requires var next := block + blocks[block].size;
               next < |blocks| && Free(S(), next) && blocks[next].committed
      modifies `blocks, `links, `freelists, `lists
      ensures JoinedNext(old(S()), S(), block, md, block, dirtyPages)
    {
      ghost var s := S();
      var next := block + blocks[block].size;
      ghost var i, k := RemoveFromList(next);
      MergeNextOk(s, block, i, k, makeDirty, stale, dirtyPages);
      Absorb(block);
      md := makeDirty || blocks[next].dirty;
    }

    // Both halves; what is left to do is to update the boundary tag and the dirty flag.
    method Coalesce(b: nat, makeDirty: bool) returns (block: nat, md: bool)
      requires Ok(S(), dirtyPages, -1, {}) && InUse(S(), b) && blocks[b].committed
      requires Honest(S(), b, blocks[b].dirty || makeDirty, dirtyPages) && (makeDirty || MergeSafe(S(), b))
      modifies `blocks, `links, `freelists, `lists
      ensures block < |blocks| && Head(blocks[block]) && block + blocks[block].size < |blocks|
      ensures Ready(S().(bs := Tagged(blocks, block, md)), block, -1, {}, dirtyPages)
      ensures SameUsed(old(S()), S().(bs := Tagged(blocks, block, md)), {b, block})
      ensures block != b ==> !InUse(old(S()), block) && !InUse(S().(bs := Tagged(blocks, block, md)), b)
      ensures os == old(os) && blocks[block].committed
    {
      ghost var s := S();
      block, md := MergeWithPrevious(b, makeDirty);
      ghost var t := S();
      ghost var stale := if block == b then -1 else block;
      md, stale := MergeWithNext(block, md, stale);
      TagCommitted(t, S(), block, md, stale, dirtyPages);
      ghost var u := S().(bs := Tagged(blocks, block, md));
      SameUsedTransitive(s, t, u, {b, block}, {block});
      assert {b, block} + {block} == {b, block};
      assert block != b ==> SameUse(t, u, b);
    }

    // The last part of AddToFreeList(block, makeDirty): into the list of its size.
    method Insert(b: nat, makeDirty: bool, ghost stale: int, ghost held: set<int>)
      requires b < |blocks| && Head(blocks[b]) && b + blocks[b].size < |blocks|
      requires Ready(S().(bs := Tagged(blocks, b, makeDirty)), b, stale, held, dirtyPages)
      modifies `blocks, `links, `freelists, `lists
      ensures blocks == Tagged(old(blocks), b, makeDirty) && os == old(os)
      ensures Ok(S(), dirtyPages, stale, held - {b})
      ensures SameUsed(old(S().(bs := Tagged(blocks, b, makeDirty))), S(), {b})
      ensures forall h :: 0 <= h < |blocks| ==> (Free(S(), h) <==> Free(old(S()), h) || h == b)
    {
      var next := b + blocks[b].size;
      var bs := blocks[next := blocks[next].(sizePrevious := blocks[b].size)];
      blocks := bs[b := bs[b].(dirty := bs[b].dirty || makeDirty)];
      assert blocks == Tagged(old(blocks), b, makeDirty);
      File(b, stale, held);
    }

    method File(b: nat, ghost stale: int, ghost held: set<int>)
      requires Ready(S(), b, stale, held, dirtyPages) && b < |blocks| && Head(blocks[b])
      modifies `links, `freelists, `lists
      ensures Ok(S(), dirtyPages, stale, held - {b}) && SameUsed(old(S()), S(), {b})
      ensures forall h :: 0 <= h < |blocks| ==> (Free(S(), h) <==> Free(old(S()), h) || h == b)
    {
      ghost var s := S();
      var point;
      ghost var i, k;
      point, i, k := FindPlace(b);
      InsertBefore(b, point, i, k);
      AttachOk(s, i, k, b, dirtyPages, stale, held);
    }

    // AddToFreeList(block, makeDirty)
    method AddToFreeList(b: nat, makeDirty: bool, ghost stale: int, ghost held: set<int>)
      requires Ok(S(), dirtyPages, stale, held) && InUse(S(), b) && b != stale
      requires blocks[b].committed ==> stale == -1 && held == {} && (makeDirty || MergeSafe(S(), b))
      requires blocks[b].committed ==> Honest(S(), b, blocks[b].dirty || makeDirty, dirtyPages)
      requires !blocks[b].committed ==> !makeDirty && Backed(S(), b) && NoFreeBefore(S(), b, false) && NoFreeAfter(S(), b)
      modifies `blocks, `links, `freelists, `lists
      ensures Ok(S(), dirtyPages, stale, held - {b}) && os == old(os)
      ensures SameUsed(old(S()), S(), {b}) && !InUse(S(), b)
      ensures !old(blocks)[b].committed ==>
                blocks == old(blocks) && forall h :: 0 <= h < |blocks| ==> (Free(S(), h) <==> Free(old(S()), h) || h == b)
    {
      ghost var s := S();
      var block, md := b, makeDirty;
      if blocks[b].committed {
        block, md := Coalesce(b, makeDirty);
      } else {
        TagDecommitted(s, b, stale, dirtyPages);
      }
      ghost var t := S().(bs := Tagged(blocks, block, md));
      Insert(block, md, stale, held);
      AddedBack(s, t, S(), b, block);
    }

    method FreeBlock(b: nat)
      requires Ok(S(), dirtyPages, -1, {}) && InUse(S(), b)
      modifies `blocks, `links, `freelists, `lists
      ensures Ok(S(), dirtyPages, -1, {}) && os == old(os)
      ensures SameUsed(old(S()), S(), {b}) && !InUse(S(), b)
      ensures Mapped(old(os), regions) ==> Mapped(os, regions)
    {
      assert StoreOk(S(), b);
      AddToFreeList(b, true, -1, {});
    }

    // ---------------------------------------------------------------- splitting and committing

    method SplitBlock(b: nat, size: nat, ghost stale: int, ghost held: set<int>) returns (newBlock: nat)
      requires Ok(S(), dirtyPages, stale, held) && InUse(S(), b) && b != stale && 0 < size < blocks[b].size
      modifies `blocks
      ensures newBlock == b + size && b + old(blocks)[b].size < |old(blocks)|
      ensures S() == Split(old(S()), b, size)
    {
      ghost var s := S();
      SplitKeeps(s, b, size, dirtyPages, stale, held);
      newBlock := b + size;
      var bs := blocks[newBlock := HeapBlock(blocks[b].base + size, blocks[b].size - size, size,
                                             blocks[b].committed, blocks[b].dirty)];
      bs := bs[b := bs[b].(size := size)];
      var next := newBlock + bs[newBlock].size;
      blocks := bs[next := bs[next].(sizePrevious := bs[newBlock].size)];
      assert blocks == SplitAt(s.bs, b, size);
    }

    method Commit(b: nat)
      requires b < |blocks| == |os| && b + blocks[b].size <= |os|
      modifies `blocks, `os, `numDecommitted
      ensures Drift() >= old(Drift())
      ensures !old(blocks)[b].committed && old(Backed(S(), b)) ==> Drift() == old(Drift())
      ensures S() == CommitAt(old(S()), b, dirtyPages)
      ensures numDecommitted == old(numDecommitted) - old(blocks)[b].size
    {
      CommitCounts(os, b, b + blocks[b].size, dirtyPages);
      if !blocks[b].committed && Backed(S(), b) {
        UncommittedAll(os, b, b + blocks[b].size, false);
      }
      os := CommitPages(os, b, b + blocks[b].size, dirtyPages);
      numDecommitted := numDecommitted - blocks[b].size;
      blocks := blocks[b := blocks[b].(committed := true, dirty := dirtyPages)];
    }

    method PruneDecommittedBlock(b: nat, available: nat, request: nat, ghost stale: int, ghost held: set<int>)
      requires Ok(S(), dirtyPages, stale, held) && InUse(S(), b) && b in held && b != stale
      requires !blocks[b].committed && Backed(S(), b) && NoFreeAfter(S(), b)
      requires request <= available < request + blocks[b].size && (stale == -1 || stale < b)
      modifies `blocks, `links, `freelists, `lists
      ensures var n := if available > request && available > MIN_HEAP_INCREMENT
                       then old(blocks)[b].size - (available - request) else old(blocks)[b].size;
              Pruned(old(S()), S(), b, n, stale, held, dirtyPages)
    {
      var toCommit := if request > MIN_HEAP_INCREMENT then request else MIN_HEAP_INCREMENT;
      var leftOver := available - request;
      ghost var s := S();
      if available > toCommit && leftOver > 0 {
        CutDecommitted(b, blocks[b].size - leftOver, stale, held);
      }
    }

    method CutDecommitted(b: nat, n: nat, ghost stale: int, ghost held: set<int>)
      requires Ok(S(), dirtyPages, stale, held) && InUse(S(), b) && b in held && b != stale && 0 < n < blocks[b].size
      requires !blocks[b].committed && Backed(S(), b) && NoFreeAfter(S(), b) && (stale == -1 || stale < b)
      modifies `blocks, `links, `freelists, `lists
      ensures b < |old(blocks)| && Pruned(old(S()), S(), b, n, stale, held, dirtyPages)
    {
      ghost var s := S();
      PruneOk(s, b, n, stale, held, dirtyPages);
      var newBlock := SplitBlock(b, n, stale, held);
      AddToFreeList(newBlock, false, stale, held + {newBlock});
      PrunedOk(s, Split(s, b, n), S(), b, n, stale, held, dirtyPages);
    }

    // ---------------------------------------------------------------- assembling a run

    // The decommitted block after F is cut if it is the last one.
    method CutNext(F: nat, size: nat, ghost dirty: bool, ghost s0: Heap, ghost e: nat, ghost stale: int)
      requires F < |blocks| && Joining(s0, S(), F, e, size, dirty, stale, sloppyCommit, dirtyPages, false)
      requires NoFreeAfter(S(), F + blocks[F].size) && blocks[F].size < size
      modifies `blocks, `links, `freelists, `lists
      ensures Joining(s0, S(), F, e, size, dirty, stale, sloppyCommit, dirtyPages, false)
      ensures blocks[F] == old(blocks)[F] && os == old(os)
    {
      var next := F + blocks[F].size;
      if blocks[F].size + blocks[next].size >= size {
        ghost var t := S();
        PruneDecommittedBlock(next, blocks[F].size + blocks[next].size, size, stale, {F, next});
        PruneTaken(s0, t, S(), F, e, size, dirty, stale, sloppyCommit, dirtyPages, blocks[next].size);
      }
    }

    method CommitNext(F: nat, ghost size: nat, ghost dirty: bool, ghost s0: Heap, ghost e: nat, ghost stale: int)
      requires F < |blocks| && Joining(s0, S(), F, e, size, dirty, stale, sloppyCommit, dirtyPages, false)
      modifies `blocks, `os, `numDecommitted
      ensures Joining(s0, S(), F, e, size, dirty, stale, sloppyCommit, dirtyPages, true)
      ensures blocks[F] == old(blocks)[F] && Drift() == old(Drift())
    {
      if sloppyCommit {
        LeaveUncommitted(s0, S(), F, e, size, dirty, stale, dirtyPages);
        return;
      }
      CommitTaken(s0, S(), F, e, size, dirty, stale, false, dirtyPages);
      Commit(F + blocks[F].size);
    }

    // The next block of the run leaves its list.
    method TakeOffNext(F: nat, size: nat, dirty0: bool, ghost s0: Heap, ghost e: nat, ghost stale: int) returns (dirty: bool)
      requires F < |blocks| && Assembling(s0, S(), F, e, size, dirty0, stale, sloppyCommit, dirtyPages) && blocks[F].size < size
      modifies `links, `freelists, `lists
      ensures F + blocks[F].size < |blocks|
      ensures var next := F + blocks[F].size;
              && Joining(s0, S(), F, e, size, dirty, stale, sloppyCommit, dirtyPages, blocks[next].committed)
              && (!blocks[next].committed ==> NoFreeAfter(S(), next))
              && (blocks[F].size == s0.bs[F].size && s0.bs[F].committed ==> !blocks[next].committed)
    {
      ghost var s := S();
      NextKnown(s0, s, F, e, size, dirty0, stale, sloppyCommit, dirtyPages);
      var next := F + blocks[F].size;
      ghost var i, k := RemoveFromList(next);
      TakeNext(s0, s, F, e, size, dirty0, stale, sloppyCommit, dirtyPages, i, k);
      dirty := dirty0 || (blocks[next].committed && blocks[next].dirty);
    }

    // It is cut and committed, if it has to be.
    method PrepareNext(F: nat, size: nat, dirty0: bool, ghost s0: Heap, ghost e: nat, ghost stale: int)
      returns (dirty: bool, added: nat)
      requires F < |blocks| && Assembling(s0, S(), F, e, size, dirty0, stale, sloppyCommit, dirtyPages) && blocks[F].size < size
      modifies `blocks, `links, `freelists, `lists, `os, `numDecommitted
      ensures F < |blocks| && Joining(s0, S(), F, e, size, dirty, stale, sloppyCommit, dirtyPages, true)
      ensures blocks[F] == old(blocks)[F] && Drift() == old(Drift())
      ensures old(blocks)[F].size == s0.bs[F].size && s0.bs[F].committed ==> added > 0
    {
      dirty := TakeOffNext(F, size, dirty0, s0, e, stale);
      added := 0;
      if !blocks[F + blocks[F].size].committed {
        added := CutAndCommit(F, size, dirty, s0, e, stale);
      }
    }

    method CutAndCommit(F: nat, size: nat, ghost dirty: bool, ghost s0: Heap, ghost e: nat, ghost stale: int) returns (added: nat)
      requires F < |blocks| && Joining(s0, S(), F, e, size, dirty, stale, sloppyCommit, dirtyPages, false)
      requires NoFreeAfter(S(), F + blocks[F].size) && blocks[F].size < size
      modifies `blocks, `links, `freelists, `lists, `os, `numDecommitted
      ensures F < |blocks| && Joining(s0, S(), F, e, size, dirty, stale, sloppyCommit, dirtyPages, true)
      ensures blocks[F] == old(blocks)[F] && Drift() == old(Drift()) && added > 0
    {
      CutNext(F, size, dirty, s0, e, stale);
      added := blocks[F + blocks[F].size].size;
      CommitNext(F, size, dirty, s0, e, stale);
    }

    // One round of the loop: the next block of the run is joined to F.
    method JoinNext(F: nat, size: nat, dirty0: bool, ghost s0: Heap, ghost e: nat, ghost stale: int) returns (dirty: bool, added: nat)
      requires F < |blocks| && Assembling(s0, S(), F, e, size, dirty0, stale, sloppyCommit, dirtyPages) && blocks[F].size < size
      modifies `blocks, `links, `freelists, `lists, `os, `numDecommitted
      ensures Assembling(s0, S(), F, e, size, dirty, F, sloppyCommit, dirtyPages)
      ensures blocks[F].size > old(blocks)[F].size
      ensures old(blocks)[F].size == s0.bs[F].size && s0.bs[F].committed ==> added > 0
      ensures Drift() == old(Drift())
    {
      dirty, added := PrepareNext(F, size, dirty0, s0, e, stale);
      ghost var u := S();
      JoinKeeps(s0, u, F, e, size, dirty, stale, sloppyCommit, dirtyPages);
      Absorb(F);
    }

    // Before the loop the first block is committed, if it has to be.
    method CommitFirst(F: nat, ghost size: nat, ghost s0: Heap, ghost e: nat)
      requires F < |blocks| && F < |s0.bs| && Backed(S(), F)
      requires Assembling(s0, S(), F, e, size, blocks[F].dirty, -1, sloppyCommit || !blocks[F].committed, dirtyPages)
      requires !blocks[F].committed ==>
                 Assembling(s0, CommitAt(S(), F, dirtyPages), F, e, size, blocks[F].dirty, -1, false, dirtyPages)
      modifies `blocks, `os, `numDecommitted
      ensures Assembling(s0, S(), F, e, size, old(blocks)[F].dirty, -1, sloppyCommit, dirtyPages)
      ensures blocks[F].size == old(blocks)[F].size && Drift() == old(Drift())
    {
      if !sloppyCommit && !blocks[F].committed {
        assert EntryOk(blocks, F, -1);
        Commit(F);
      }
    }

    // After the loop: the boundary tag after F, the commit if it was put off, the dirty flag.
    method FinishRun(F: nat, ghost size: nat, dirty: bool, ghost s0: Heap, ghost e: nat, ghost stale: int)
      requires F < |blocks| && Assembling(s0, S(), F, e, size, dirty, stale, sloppyCommit, dirtyPages)
      requires size <= blocks[F].size && blocks[F].size > s0.bs[F].size
      modifies `blocks, `os, `numDecommitted
      ensures Created(s0, S(), F, e, size, dirtyPages)
      ensures Drift() >= old(Drift()) && (!sloppyCommit ==> Drift() == old(Drift()))
    {
      CreatedFromRun(s0, S(), F, e, size, dirty, stale, sloppyCommit, dirtyPages);
      var end := F + blocks[F].size;
      blocks := blocks[end := blocks[end].(sizePrevious := blocks[F].size)];
      if sloppyCommit {
        Commit(F);
      }
      blocks := blocks[F := blocks[F].(dirty := dirty)];
    }

    method AssembleRun(F: nat, size: nat, ghost s0: Heap, ghost e: nat)
      requires F < |blocks| && F < |s0.bs| && Backed(S(), F) && blocks[F] == s0.bs[F] && blocks[F].size < size
      requires Assembling(s0, S(), F, e, size, blocks[F].dirty, -1, sloppyCommit || !blocks[F].committed, dirtyPages)
      requires !blocks[F].committed ==>
                 Assembling(s0, CommitAt(S(), F, dirtyPages), F, e, size, blocks[F].dirty, -1, false, dirtyPages)
      modifies `blocks, `links, `freelists, `lists, `os, `numDecommitted
      ensures Created(s0, S(), F, e, size, dirtyPages)
      ensures Drift() >= old(Drift()) && (!sloppyCommit ==> Drift() == old(Drift()))
    {
      var amountRecommitted: nat := if blocks[F].committed then 0 else blocks[F].size;
      var dirty := blocks[F].dirty;
      CommitFirst(F, size, s0, e);
      ghost var stale: int := -1;
      while blocks[F].size < size
        invariant F < |blocks| && Assembling(s0, S(), F, e, size, dirty, stale, sloppyCommit, dirtyPages)
        invariant blocks[F].size > s0.bs[F].size || (blocks[F].size == s0.bs[F].size && blocks[F].size < size)
        invariant amountRecommitted > 0 || (blocks[F].size == s0.bs[F].size && s0.bs[F].committed)
        invariant Drift() == old(Drift())
        decreases size - blocks[F].size
      {
        var added;
        dirty, added := JoinNext(F, size, dirty, s0, e, stale);
        amountRecommitted := amountRecommitted + added;
        stale := F;
      }
      assert amountRecommitted > 0;
      FinishRun(F, size, dirty, s0, e, stale);
    }

    // The first block is large enough: it is cut and committed.
    method CommitOne(F: nat, size: nat, ghost s0: Heap, ghost e: nat)
      requires F < |blocks| && F < |s0.bs| && Backed(S(), F) && NoFreeAfter(S(), F)
      requires blocks[F] == s0.bs[F] && 0 < size <= blocks[F].size && !blocks[F].committed
      requires Assembling(s0, S(), F, e, size, false, -1, true, dirtyPages)
      modifies `blocks, `links, `freelists, `lists, `os, `numDecommitted
      ensures Created(s0, S(), F, e, size, dirtyPages) && Drift() == old(Drift())
    {
      ghost var s := S();
      PruneDecommittedBlock(F, blocks[F].size, size, -1, {F});
      ghost var t := S();
      CreatedFromOne(s0, s, t, F, e, size, blocks[F].size, dirtyPages);
      assert EntryOk(blocks, F, -1);
      Commit(F);
    }

    method CreateCommittedBlock(F: nat, request: nat, alignment: nat, ghost e: nat) returns (block: nat)
      requires Ok(S(), dirtyPages, -1, {}) && RunTo(S(), F, e) && F < e && F < |blocks| && request > 0 && alignment > 0
      requires e - F >= request + Slop(blocks[F].base, alignment)
      requires blocks[F].size >= request + Slop(blocks[F].base, alignment) ==> !blocks[F].committed
      modifies `blocks, `links, `freelists, `lists, `os, `numDecommitted
      ensures block == F && F < |old(blocks)|
      ensures Created(old(S()), S(), F, e, request + Slop(old(blocks)[F].base, alignment), dirtyPages)
      ensures Drift() >= old(Drift()) && (!sloppyCommit ==> Drift() == old(Drift()))
    {
      ghost var s0 := S();
      block := F;
      ghost var i, k := RemoveFromList(block);
      var size := request + Slop(blocks[block].base, alignment);
      StartAssembling(s0, F, e, size, sloppyCommit, dirtyPages, i, k);
      if blocks[block].size < size {
        AssembleRun(block, size, s0, e);
      } else {
        CommitOne(block, size, s0, e);
      }
    }

    // ---------------------------------------------------------------- allocating

    // The first n pages of b go back to the free lists.
    method ReturnSlop(b: nat, n: nat) returns (block: nat)
      requires Ok(S(), dirtyPages, -1, {}) && InUse(S(), b) && blocks[b].committed && 0 < n < blocks[b].size
      requires Honest(S(), b, blocks[b].dirty, dirtyPages) && SlopSafe(S(), b, n)
      modifies `blocks, `links, `freelists, `lists
      ensures Ok(S(), dirtyPages, -1, {}) && os == old(os) && block == b + n && InUse(S(), block) && !InUse(S(), b)
      ensures var was := old(blocks)[b];
              blocks[block] == HeapBlock(was.base + n, was.size - n, blocks[block].sizePrevious, was.committed, was.dirty)
      ensures SameUsed(old(S()), S(), {b, block})
    {
      ghost var s := S();
      SplitSlop(s, b, n, dirtyPages);
      block := SplitBlock(b, n, -1, {});
      ghost var t := S();
      AddToFreeList(b, false, -1, {});
      SameUsedTransitive(s, t, S(), {b, block}, {b});
      assert {b, block} + {b} == {b, block};
      assert SameUse(t, S(), block);
    }

    // All but the first n pages of b go back to the free lists.
    method ReturnTail(b: nat, n: nat)
      requires Ok(S(), dirtyPages, -1, {}) && InUse(S(), b) && blocks[b].committed && 0 < n < blocks[b].size
      requires Honest(S(), b, blocks[b].dirty, dirtyPages)
      modifies `blocks, `links, `freelists, `lists
      ensures Ok(S(), dirtyPages, -1, {}) && os == old(os) && InUse(S(), b)
      ensures blocks[b] == old(blocks)[b].(size := n, sizePrevious := blocks[b].sizePrevious)
      ensures SameUsed(old(S()), S(), {b})
    {
      ghost var s := S();
      SplitTail(s, b, n, dirtyPages);
      var newBlock := SplitBlock(b, n, -1, {});
      ghost var t := S();
      AddToFreeList(newBlock, false, -1, {});
      AddedBack(s, t, S(), b, newBlock);
      assert SameUse(t, S(), b);
    }

    method AllocCommittedBlock(b: nat, size: nat, zero: bool, alignment: nat) returns (r: nat, clear: bool)
      requires Ok(S(), dirtyPages, -1, {}) && InUse(S(), b) && blocks[b].committed && size > 0 && alignment > 0
      requires blocks[b].size >= size + Slop(blocks[b].base, alignment)
      requires Honest(S(), b, blocks[b].dirty, dirtyPages) && SlopSafe(S(), b, Slop(blocks[b].base, alignment))
      modifies `blocks, `links, `freelists, `lists
      ensures b < |old(blocks)| && Carved(old(S()), S(), b, r, size, alignment, dirtyPages)
      ensures clear == (zero && old(blocks)[b].dirty)
      ensures zero && !clear ==> Zero(S(), r, r + size)
    {
      ghost var s := S();
      assert EntryOk(blocks, b, -1);
      r := b;
      var slop := Slop(blocks[b].base, alignment);
      if slop > 0 {
        r := ReturnSlop(b, slop);
        assert EntryOk(blocks, r, -1);
      }
      ghost var t := S();
      if blocks[r].size > size {
        ReturnTail(r, size);
        SameUsedTransitive(s, t, S(), {b, r}, {r});
        assert {b, r} + {r} == {b, r};
        assert r != b ==> SameUse(t, S(), b);
      }
      clear := blocks[r].dirty && zero;
    }

    // ---------------------------------------------------------------- the search

    // Coalesce with predecessors, until there is room.
    method FindLeft(b: nat, size: nat, alignment: nat) returns (first: nat)
      requires Ok(S(), dirtyPages, -1, {}) && Free(S(), b) && size > 0 && alignment > 0
      ensures first <= b && Head(blocks[b]) && RunTo(S(), first, b + blocks[b].size)
      ensures var firstSlop := Slop(blocks[first].base, alignment);
              if b + blocks[b].size - first < size + firstSlop then NoPred(S(), first) else firstSlop <= blocks[first].size
    {
      ghost var s := S();
      StartLeft(s, dirtyPages, b);
      var totalSize := blocks[b].size;
      first := b;
      var firstSlop := Slop(blocks[first].base, alignment);
      while totalSize < size + firstSlop && blocks[first].sizePrevious != 0
        invariant first <= b && firstSlop == Slop(blocks[first].base, alignment)
        invariant Head(blocks[first]) && blocks[first].sizePrevious <= first
        invariant RunTo(s, first, b + blocks[b].size) && totalSize == b + blocks[b].size - first
        invariant totalSize >= size + firstSlop ==> firstSlop <= blocks[first].size
        decreases first
      {
        var prev := first - blocks[first].sizePrevious;
        if links[prev].prev.Null? || blocks[prev].size == 0 {
          break;
        }
        StepLeft(s, dirtyPages, first, b + blocks[b].size, size, alignment);
        totalSize := totalSize + blocks[prev].size;
        first := prev;
        firstSlop := Slop(blocks[first].base, alignment);
      }
      if totalSize < size + firstSlop {
        NoPredHere(s, first, dirtyPages);
      }
    }

    // The run of free blocks around b, first to the left and then to the right, until
    // there is room.
    method FindRun(b: nat, size: nat, alignment: nat) returns (found: bool, first: nat, ghost hi: nat)
      requires Ok(S(), dirtyPages, -1, {}) && Free(S(), b) && size > 0 && alignment > 0
      ensures found ==> Roomy(S(), first, hi, size, alignment)
      ensures !found ==> Cramped(S(), b, first, hi, size, alignment)
      ensures if found then RoomFrom(S(), first, size, alignment) else Hopeless(S(), b, size, alignment)
      ensures first <= b < hi
    {
      ghost var s := S();
      first := FindLeft(b, size, alignment);
      StartLeft(s, dirtyPages, b);
      var firstSlop := Slop(blocks[first].base, alignment);
      var next := b + blocks[b].size;
      var totalSize := next - first;
      while totalSize < size + firstSlop && !(links[next].prev.Null? || blocks[next].size == 0)
        invariant b < next < |blocks| && RunTo(s, first, next) && totalSize == next - first
        invariant firstSlop <= blocks[first].size || NoPred(s, first)
        invariant totalSize < size + firstSlop ==> NoPred(s, first)
        decreases |blocks| - next
      {
        StepRight(s, dirtyPages, first, next);
        totalSize := totalSize + blocks[next].size;
        next := next + blocks[next].size;
      }
      FreeHasSize(s, dirtyPages, next);
      hi := next;
      found := totalSize >= size + firstSlop;
      RunResult(s, b, found, first, hi, size, alignment);
    }

    // The search through the lists: a suitable committed block, or else a run.
    method Search(size: nat, alignment: nat)
      returns (hit: bool, block: nat, ghost i: nat, ghost k: nat, found: bool, first: nat, ghost hi: nat)
      requires Ok(S(), dirtyPages, -1, {}) && size > 0 && alignment > 0
      ensures hit ==> i < NUM_LISTS && k < |lists[i]| && lists[i][k] == block && Suitable(S(), block, size, alignment)
      ensures hit ==> ListIndex(size) <= i && Searched(S(), i, k, size, alignment, useVirtualMemory && !found)
      ensures !hit ==> Searched(S(), NUM_LISTS, 0, size, alignment, useVirtualMemory && !found)
      ensures found ==> useVirtualMemory && ARun(S(), first, hi, size, alignment)
    {
      ghost var s := S();
      var index := ListIndex(size);
      hit, block, i, k, found, first, hi := false, 0, index, 0, false, 0, 0;
      while index < NUM_LISTS
        invariant i == index <= NUM_LISTS && k == 0 && index >= ListIndex(size)
        invariant Searched(s, i, k, size, alignment, useVirtualMemory && !found)
        invariant found ==> useVirtualMemory && ARun(s, first, hi, size, alignment)
      {
        assert Ring(links, freelists, lists[i], i);
        var point := freelists[index].next;
        while point != ListHead(index)
          invariant k <= |lists[i]| && point == At(lists[i], i, k)
          invariant Searched(s, i, k, size, alignment, useVirtualMemory && !found)
          invariant found ==> useVirtualMemory && ARun(s, first, hi, size, alignment)
          decreases |lists[i]| - k
        {
          block := point.b;
          assert NodeOk(links, lists[i], i, k) && PlaceOk(blocks, lists, i, k);
          if blocks[block].size >= size + Slop(blocks[block].base, alignment) && blocks[block].committed {
            hit := true;
            return;
          }
          ghost var before := useVirtualMemory && !found;
          if useVirtualMemory && !found && !blocks[block].committed {
            found, first, hi := FindRun(block, size, alignment);
            if found {
              FoundARun(s, i, k, first, hi, size, alignment);
            }
          }
          PassedOver(s, i, k, size, alignment, before, useVirtualMemory && !found);
          point := links[block].next;
          k := k + 1;
        }
        index := index + 1;
        i, k := index, 0;
      }
    }

    method TakeSingle(b: nat, size: nat, zero: bool, alignment: nat) returns (r: nat, clear: bool)
      requires Ok(S(), dirtyPages, -1, {}) && size > 0 && alignment > 0 && Suitable(S(), b, size, alignment)
      modifies `blocks, `links, `freelists, `lists, `os, `numDecommitted
      ensures Ok(S(), dirtyPages, -1, {}) && Allocated(old(S()), S(), r, size, alignment)
      ensures b < |old(blocks)| && r == b + Slop(old(blocks)[b].base, alignment)
      ensures zero && !clear ==> Zero(S(), r, r + size)
      ensures Drift() == old(Drift())
    {
      ghost var s := S();
      ghost var i, k := RemoveFromList(b);
      SlopSafeSingle(s, i, k, Slop(blocks[b].base, alignment), dirtyPages);
      ghost var t := S();
      r, clear := AllocCommittedBlock(b, size, zero, alignment);
      CarvedAllocated(s, t, S(), b, r, size, alignment, dirtyPages);
    }

    method TakeRun(first: nat, size: nat, zero: bool, alignment: nat, ghost hi: nat) returns (r: nat, clear: bool)
      requires Ok(S(), dirtyPages, -1, {}) && size > 0 && alignment > 0 && Roomy(S(), first, hi, size, alignment)
      requires !Suitable(S(), first, size, alignment)
      modifies `blocks, `links, `freelists, `lists, `os, `numDecommitted
      ensures Ok(S(), dirtyPages, -1, {}) && Allocated(old(S()), S(), r, size, alignment) && first <= r && r + size <= hi
      ensures zero && !clear ==> Zero(S(), r, r + size)
      ensures Drift() >= old(Drift()) && (!sloppyCommit ==> Drift() == old(Drift()))
    {
      ghost var s := S();
      var block := CreateCommittedBlock(first, size, alignment, hi);
      ghost var t := S();
      SlopSafeCreated(s, t, first, hi, size, alignment, dirtyPages);
      r, clear := AllocCommittedBlock(block, size, zero, alignment);
      CarvedAllocated(s, t, S(), first, r, size, alignment, dirtyPages);
    }

    // r is -1 when there is no room.
    method AllocBlock(size: nat, zero: bool, alignment: nat) returns (r: int, clear: bool)
      requires Ok(S(), dirtyPages, -1, {}) && size > 0 && alignment > 0
      modifies `blocks, `links, `freelists, `lists, `os, `numDecommitted
      ensures Ok(S(), dirtyPages, -1, {}) && r >= -1
      ensures r >= 0 ==> Allocated(old(S()), S(), r, size, alignment)
      ensures Mapped(old(os), regions) ==> Mapped(os, regions)
      ensures zero && !clear && r >= 0 ==> Zero(S(), r, r + size)
      ensures forall c :: old(Suitable(S(), c, size, alignment)) ==> exists b :: old(Best(S(), b, r, size, alignment))
      ensures r == -1 ==> S() == old(S()) && clear == zero
      ensures r == -1 <==> old(Exhausted(S(), size, alignment, useVirtualMemory))
      ensures Drift() >= old(Drift()) && (!sloppyCommit ==> Drift() == old(Drift()))
    {
      ghost var s := S();
      var hit, block, found, first;
      ghost var i, k, hi;
      hit, block, i, k, found, first, hi := Search(size, alignment);
      r, clear := -1, zero;
      if hit {
        forall c | Suitable(s, c, size, alignment) ensures s.bs[block].size <= s.bs[c].size {
          BestFit(s, i, k, size, alignment, useVirtualMemory && !found, c, dirtyPages);
        }
        r, clear := TakeSingle(block, size, zero, alignment);
        assert Best(s, block, r, size, alignment);
      } else if found {
        forall c | 0 <= c ensures !Suitable(s, c, size, alignment) {
          NoneSuitable(s, size, alignment, false, c, dirtyPages);
        }
        r, clear := TakeRun(first, size, zero, alignment, hi);
      } else {
        SearchedExhausted(s, size, alignment, useVirtualMemory, dirtyPages);
      }
      if Mapped(s.os, regions) {
        MappedSame(s.os, os, regions);
      }
    }

    // What the owner of a block does to its memory.
    method Write(h: nat, lo: nat, hi: nat, zero: bool)
      requires Ok(S(), dirtyPages, -1, {}) && InUse(S(), h) && h <= lo && hi <= h + blocks[h].size
      modifies `os
      ensures S() == old(S()).(os := ZeroPages(old(os), lo, hi, zero))
      ensures Ok(S(), dirtyPages, -1, {}) && SameUsed(old(S()), S(), {h}) && Drift() == old(Drift())
    {
      WriteKeeps(S(), h, lo, hi, zero, dirtyPages);
      os := ZeroPages(os, lo, hi, zero);
    }

    // ---------------------------------------------------------------- giving a region back

    method AddrToRegion(address: nat) returns (found: bool, j: nat)
      ensures found ==> j < |regions| && regions[j].base <= address < regions[j].reserveTop
      ensures !found ==> forall i :: 0 <= i < |regions| ==> !(regions[i].base <= address < regions[i].reserveTop)
    {
      j := 0;
      while j < |regions|
        invariant j <= |regions|
        invariant forall i :: 0 <= i < j ==> !(regions[i].base <= address < regions[i].reserveTop)
      {
        if regions[j].base <= address < regions[j].reserveTop {
          return true, j;
        }
        j := j + 1;
      }
      found := false;
    }

    // The prev and next fields of the blocks on the lists, after the blocks have moved.
    method FixLinks(h: nat, size: nat, senOffset: int, ghost s: Heap)
      requires Removable(s, h) && Src(s.bs, h) <= |s.bs| && Listed(s, dirtyPages)
      requires size == s.bs[h].size && senOffset == Dst(s.bs, h) - (Src(s.bs, h) - size)
      requires links == MovedLinks(s.bs, h, s.links) && freelists == s.heads
      modifies `links, `freelists
      ensures links == Removed(s, h).links && freelists == Removed(s, h).heads
    {
      FixStart(s, h, dirtyPages);
      var i := 0;
      while i < NUM_LISTS
        invariant i <= NUM_LISTS && FixedUpTo(s, h, links, i, 0)
        invariant |freelists| == NUM_LISTS
        invariant forall j :: 0 <= j < NUM_LISTS ==> freelists[j] == if j < i then Removed(s, h).heads[j] else s.heads[j]
      {
        ghost var list := s.lists[i];
        assert Ring(s.links, s.heads, list, i);
        LoweredIsSlide(s, h, i, -1, dirtyPages);
        LoweredIsSlide(s, h, i, 0, dirtyPages);
        LoweredIsSlide(s, h, i, |list| - 1, dirtyPages);
        LoweredIsSlide(s, h, i, |list|, dirtyPages);
        freelists := freelists[i := Links(Lowered(h, size, senOffset, freelists[i].prev), Lowered(h, size, senOffset, freelists[i].next))];
        FixList(i, h, size, senOffset, s);
        i := i + 1;
      }
      FixEnd(s, h, links, dirtyPages);
    }

    method FixList(i: nat, h: nat, size: nat, senOffset: int, ghost s: Heap)
      requires Removable(s, h) && Src(s.bs, h) <= |s.bs| && Listed(s, dirtyPages) && i < NUM_LISTS
      requires size == s.bs[h].size && senOffset == Dst(s.bs, h) - (Src(s.bs, h) - size)
      requires FixedUpTo(s, h, links, i, 0) && i < |freelists| && freelists[i].next == At(Removed(s, h).lists[i], i, 0)
      modifies `links
      ensures FixedUpTo(s, h, links, i + 1, 0)
    {
      ghost var list := s.lists[i];
      ghost var k := 0;
      var temp := freelists[i].next;
      while temp != ListHead(i)
        invariant k <= |list| && temp == At(Removed(s, h).lists[i], i, k)
        invariant FixedUpTo(s, h, links, i, k)
        decreases |list| - k
      {
        FixOne(s, h, links, i, k, dirtyPages);
        var l := links[temp.b];
        links := links[temp.b := Links(Lowered(h, size, senOffset, l.prev), Lowered(h, size, senOffset, l.next))];
        temp := links[temp.b].next;
        k := k + 1;
      }
      FixTurn(s, h, links, i);
    }

    // The entries after the block slide down, with or without a sentinel in its place.
    method RemoveBlock(b: nat, ghost j: nat)
      requires Ok(S(), dirtyPages, -1, {}) && InUse(S(), b) && Mapped(os, regions)
      requires j < |regions| && IsRegion(S(), b, regions[j])
      modifies `blocks, `links, `freelists, `lists, `os, `regions
      ensures Removable(old(S()), b) && Src(old(blocks), b) <= |old(blocks)| && S() == Removed(old(S()), b)
      ensures Ok(S(), dirtyPages, -1, {}) && Mapped(os, regions) && Drift() == old(Drift())
      ensures regions == DropRegion(LoweredRegions(old(regions), b, Src(old(blocks), b) - Dst(old(blocks), b)), j)
    {
      ghost var s, rs := S(), regions;
      MayRemove(s, b, dirtyPages);
      GiveBack(s, Removed(s, b), regions, b, j, dirtyPages);
      TakeOut(b, j, s);
    }

    method TakeOut(b: nat, ghost j: nat, ghost s: Heap)
      requires s == S() && Listed(s, dirtyPages) && Removable(s, b) && Src(s.bs, b) <= |s.bs| && j < |regions|
      requires regions[j].blockId == b && regions[j].base <= blocks[b].base < regions[j].reserveTop
      requires forall i :: 0 <= i < |regions| && regions[i].base <= blocks[b].base < regions[i].reserveTop ==> i == j
      requires forall i :: 0 <= i < |regions| && !regions[i].large && regions[i].blockId > b ==>
                 regions[i].blockId >= Src(s.bs, b) - Dst(s.bs, b)
      modifies `blocks, `links, `freelists, `lists, `os, `regions
      ensures S() == Removed(s, b)
      ensures regions == DropRegion(LoweredRegions(old(regions), b, Src(s.bs, b) - Dst(s.bs, b)), j)
    {
      ghost var r := Removed(s, b);
      var found, at := AddrToRegion(blocks[b].base);
      var n := SlideBlocks(b, s, r);
      RemoveRegion(at, n);
      lists, os := r.lists, r.os;
    }

    method SlideBlocks(b: nat, ghost s: Heap, ghost r: Heap) returns (n: nat)
      requires s == S() && Listed(s, dirtyPages) && Removable(s, b) && Src(s.bs, b) <= |s.bs| && r == Removed(s, b)
      modifies `blocks, `links, `freelists
      ensures blocks == r.bs && links == r.links && freelists == r.heads
      ensures n == Src(s.bs, b) - Dst(s.bs, b)
    {
      var size := blocks[b].size;
      var next := b + size;
      var needSentinel := blocks[b].sizePrevious != 0 && blocks[next].size != 0;
      var removeSentinel := !needSentinel && blocks[b].sizePrevious == 0 && blocks[next].size == 0;
      var senOffset: int := if needSentinel then 1 else if removeSentinel then -1 else 0;
      var src := if removeSentinel then next + 1 else next;
      var bs := blocks[next := blocks[next].(sizePrevious := if needSentinel then 0 else blocks[b].sizePrevious)];
      blocks := bs[..b] + (if needSentinel then [bs[b].(base := 0, size := 0)] else []) + bs[src..];
      links := links[..b] + (if needSentinel then [Links(Null, Null)] else []) + links[src..];
      FixLinks(b, size, senOffset, s);
      n := size - senOffset;
      assert bs[b] == s.bs[b];
    }

    // The block ids behind the region go down by n, and the region leaves the list.
    method RemoveRegion(at: nat, n: int)
      requires at < |regions|
      requires forall i :: 0 <= i < |regions| && !regions[i].large && regions[i].blockId > regions[at].blockId ==>
                 regions[i].blockId >= n
      modifies `regions
      ensures regions == DropRegion(LoweredRegions(old(regions), old(regions)[at].blockId, n), at)
    {
      LowerRegions(at, n);
      regions := regions[..at] + regions[at + 1..];
    }

    method LowerRegions(at: nat, n: int)
      requires at < |regions|
      requires forall i :: 0 <= i < |regions| && !regions[i].large && regions[i].blockId > regions[at].blockId ==>
                 regions[i].blockId >= n
      modifies `regions
      ensures regions == LoweredRegions(old(regions), old(regions)[at].blockId, n)
    {
      var blockId := regions[at].blockId;
      ghost var was := regions;
      var r := 0;
      while r < |regions|
        invariant r <= |regions| == |was|
        invariant forall i :: 0 <= i < |was| ==> regions[i] == if i < r then LoweredRegion(was[i], blockId, n) else was[i]
      {
        if regions[r].blockId > blockId && !regions[r].large {
          regions := regions[r := regions[r].(blockId := regions[r].blockId - n)];
        }
        r := r + 1;
      }
    }

    // ---------------------------------------------------------------- decommitting

    method JoinPreviousDecommitted(b: nat) returns (block: nat)
      requires Returning(S(), S(), b, -1, dirtyPages)
      modifies `blocks, `links, `freelists, `lists
      ensures JoinedBack(old(S()), S(), b, block, dirtyPages)
    {
      block := b;
      ghost var s := S();
      NothingBack(s, b, dirtyPages);
      if blocks[b].sizePrevious != 0 {
        var prev := b - blocks[b].sizePrevious;
        if !blocks[prev].committed && !links[prev].prev.Null? {
          ghost var i, k := RemoveFromList(prev);
          JoinBack(s, b, i, k, dirtyPages);
          Absorb(prev);
          block := prev;
        }
      }
    }

    method JoinNextDecommitted(b: nat, ghost stale: int) returns (ghost stale': int)
      requires Returning(S(), S(), b, stale, dirtyPages) && NoFreeBefore(S(), b, false)
      modifies `blocks, `links, `freelists, `lists
      ensures JoinedOn(old(S()), S(), b, stale', dirtyPages)
    {
      stale' := stale;
      ghost var s := S();
      NothingOn(s, b, stale, dirtyPages);
      var next := b + blocks[b].size;
      if blocks[next].size != 0 && !blocks[next].committed && !links[next].prev.Null? {
        ghost var i, k := RemoveFromList(next);
        JoinOn(s, b, i, k, stale, dirtyPages);
        Absorb(b);
        stale' := b;
      }
    }

    // The back of the bus: the last list, before the first decommitted block as large.
    method FindBack(b: nat) returns (point: Link, ghost k: nat)
      requires Listed(S(), dirtyPages) && b < |blocks| && Head(blocks[b]) && !blocks[b].committed
      ensures k <= |lists[NUM_LISTS - 1]| && point == At(lists[NUM_LISTS - 1], NUM_LISTS - 1, k)
      ensures Fits(blocks, lists, NUM_LISTS - 1, k, b)
      ensures RightPlace(blocks, lists, NUM_LISTS - 1, b, point)
    {
      ghost var list := lists[NUM_LISTS - 1];
      assert Ring(links, freelists, list, NUM_LISTS - 1);
      point := freelists[NUM_LISTS - 1].next;
      k := 0;
      while point != ListHead(NUM_LISTS - 1)
        invariant k <= |list| && point == At(list, NUM_LISTS - 1, k)
        decreases |list| - k
      {
        assert PlaceOk(blocks, lists, NUM_LISTS - 1, k) && NodeOk(links, list, NUM_LISTS - 1, k);
        if blocks[point.b].size >= blocks[b].size && !blocks[point.b].committed {
          break;
        }
        point := links[point.b].next;
        k := k + 1;
      }
      forall m | k <= m < |list| && list[m] < |blocks| && blocks[list[m]].committed
        ensures blocks[b].size <= blocks[list[m]].size
      {
        assert Ordered(blocks, list, k, m) && PlaceOk(blocks, lists, NUM_LISTS - 1, k);
      }
    }

    // The decommitted block b joins its decommitted neighbours and goes to the last list.
    method FileDecommitted(b: nat)
      requires Returning(S(), S(), b, -1, dirtyPages)
      modifies `blocks, `links, `freelists, `lists
      ensures Ok(S(), dirtyPages, -1, {}) && os == old(os)
      ensures SameUsed(old(S()), S(), {b}) && !InUse(S(), b) && NoneAdded(old(S()), S())
    {
      ghost var s := S();
      var block := JoinPreviousDecommitted(b);
      ghost var t := S();
      ghost var stale: int := JoinNextDecommitted(block, if block == b then -1 else block);
      ghost var u := S();
      RelinkJoined(t, u, block, stale, dirtyPages);
      var next := block + blocks[block].size;
      blocks := blocks[next := blocks[next].(sizePrevious := blocks[block].size)];
      ghost var v := S();
      InsertBack(block);
      Filed(s, t, v, S(), b, block, dirtyPages);
    }

    method InsertBack(b: nat)
      requires Ready(S(), b, -1, {b}, dirtyPages) && !blocks[b].committed
      modifies `links, `freelists, `lists
      ensures Ok(S(), dirtyPages, -1, {}) && SameUsed(old(S()), S(), {b}) && !InUse(S(), b) && NoneAdded(old(S()), S())
    {
      ghost var s := S();
      var point;
      ghost var k;
      point, k := FindBack(b);
      InsertBefore(b, point, NUM_LISTS - 1, k);
      FiledBack(s, b, k, dirtyPages);
    }

    // A committed block that has been taken off its list.
    method DecommitBlock(b: nat) returns (n: nat)
      requires Ok(S(), dirtyPages, -1, {}) && InUse(S(), b)
      modifies `blocks, `links, `freelists, `lists, `os, `numDecommitted
      ensures Ok(S(), dirtyPages, -1, {}) && SameUsed(old(S()), S(), {b}) && !InUse(S(), b) && NoneAdded(old(S()), S())
      ensures n == old(blocks)[b].size && |os| == |old(os)|
      ensures Resident(os, 0, |os|) + n == old(Resident(os, 0, |os|)) && Drift() == old(Drift())
    {
      ghost var s := S();
      DecommitKeeps(s, b, dirtyPages);
      DecommitCounts(s, b);
      n := blocks[b].size;
      os := DecommitPages(os, b, b + n);
      blocks := blocks[b := blocks[b].(committed := false, dirty := false)];
      numDecommitted := numDecommitted + n;
      ghost var t := S();
      assert t == DecommitAt(s, b);
      FileDecommitted(b);
      SameUsedTransitive(s, t, S(), {b}, {b});
      assert {b} + {b} == {b};
    }

    // A committed free block leaves its list; what is beyond `most` pages goes back.
    method TakeCommitted(b: nat, most: nat)
      requires Ok(S(), dirtyPages, -1, {}) && Free(S(), b) && b < |blocks| && blocks[b].committed && most > 0
      modifies `blocks, `links, `freelists, `lists
      ensures Ok(S(), dirtyPages, -1, {}) && InUse(S(), b) && blocks[b].committed && blocks[b].size <= most
      ensures Honest(S(), b, blocks[b].dirty, dirtyPages) && os == old(os)
      ensures SameUsed(old(S()), S(), {b}) && !InUse(old(S()), b)
      ensures old(blocks)[b].size <= most ==> NoneAdded(old(S()), S())
      ensures old(blocks)[b].size > most ==> blocks[b].size == most
    {
      ghost var s := S();
      ghost var i, k := RemoveFromList(b);
      SlopSafeSingle(s, i, k, 0, dirtyPages);
      DetachOk(s, i, k, dirtyPages, -1, {});
      if blocks[b].size > most {
        ghost var t := S();
        ReturnTail(b, most);
        SameUsedTransitive(s, t, S(), {b}, {b});
        assert {b} + {b} == {b};
      }
    }

    // The block b is exactly the region.
    method ReleaseWhole(b: nat, j: nat, ghost s0: Heap)
      requires Ok(S(), dirtyPages, -1, {}) && Mapped(os, regions) && j < |regions| && InUse(S(), b) && IsRegion(S(), b, regions[j])
      requires Ok(s0, dirtyPages, -1, {}) && SameUsed(s0, S(), {b}) && !InUse(s0, b) && s0.os == os
      modifies `blocks, `links, `freelists, `lists, `os, `regions
      ensures Reduced(s0, S(), regions, old(blocks)[b].size, dirtyPages) && Drift() == old(Drift())
      ensures WholeRegions(old(regions)) ==> WholeRegions(regions)
    {
      ghost var t, rs := S(), regions;
      RemoveBlock(b, j);
      WholeLeft(rs, b, Src(t.bs, b) - Dst(t.bs, b), j);
      GivenBack(s0, t, rs, regions, b, dirtyPages);
    }

    // The block b holds the whole region; what follows the region goes back to the lists.
    method ReleaseRegion(b: nat, j: nat, ghost s0: Heap) returns (n: nat)
      requires Ok(S(), dirtyPages, -1, {}) && Mapped(os, regions) && InUse(S(), b) && blocks[b].committed
      requires Honest(S(), b, blocks[b].dirty, dirtyPages) && j < |regions| && !regions[j].large
      requires blocks[b].base == regions[j].base && regions[j].reserveTop <= blocks[b].base + blocks[b].size
      requires Ok(s0, dirtyPages, -1, {}) && SameUsed(s0, S(), {b}) && !InUse(s0, b) && s0.os == os
      modifies `blocks, `links, `freelists, `lists, `os, `regions
      ensures Reduced(s0, S(), regions, n, dirtyPages) && 0 < n <= old(blocks)[b].size && Drift() == old(Drift())
      ensures WholeRegions(old(regions)) ==> WholeRegions(regions)
    {
      ghost var s := S();
      assert RegionOk(os, regions[j]);
      if blocks[b].base + blocks[b].size > regions[j].reserveTop {
        ReturnTail(b, regions[j].reserveTop - blocks[b].base);
        SameUsedTransitive(s0, s, S(), {b}, {b});
        assert {b} + {b} == {b};
      }
      n := blocks[b].size;
      ReleaseWhole(b, j, s0);
    }

    // On a committed free block, where virtual memory is used.
    method DecommitStep(b: nat, decommitSize: nat, trim: bool) returns (left: nat, restart: bool)
      requires Ok(S(), dirtyPages, -1, {}) && Mapped(os, regions)
      requires Free(S(), b) && b < |blocks| && blocks[b].committed && decommitSize > 0
      modifies `blocks, `links, `freelists, `lists, `os, `regions, `numDecommitted
      ensures left < decommitSize && Reduced(old(S()), S(), regions, decommitSize - left, dirtyPages)
      ensures !restart && left > 0 ==> NoneAdded(old(S()), S())
      ensures Drift() == old(Drift())
    {
      ghost var s := S();
      TakeCommitted(b, decommitSize);
      ghost var t := S();
      ghost var i := RegionOf(t, regions, b, dirtyPages);
      var found, j := AddrToRegion(blocks[b].base);
      if trim && blocks[b].base <= regions[j].base && regions[j].reserveTop <= blocks[b].base + blocks[b].size {
        var n := ReleaseRegion(b, j, s);
        left, restart := decommitSize - n, true;
      } else {
        var n := DecommitBlock(b);
        left, restart := decommitSize - n, false;
        SameUsedTransitive(s, t, S(), {b}, {b});
        assert {b} + {b} == {b};
        PreservedBySame(s, S(), b);
        MappedSame(s.os, os, regions);
      }
    }

    // On a committed free block, where virtual memory is not used: nothing can be done
    // unless the block is a whole region.
    method ReleaseStep(b: nat) returns (restart: bool)
      requires Ok(S(), dirtyPages, -1, {}) && Mapped(os, regions) && WholeRegions(regions)
      requires Free(S(), b) && b < |blocks| && blocks[b].committed
      modifies `blocks, `links, `freelists, `lists, `os, `regions
      ensures !restart ==> S() == old(S()) && regions == old(regions)
      ensures restart ==> exists n :: n > 0 && Reduced(old(S()), S(), regions, n, dirtyPages)
      ensures WholeRegions(regions) && Drift() == old(Drift())
    {
      ghost var s := S();
      assert FreeOk(s, dirtyPages, b);
      ghost var r := RegionOf(s, regions, b, dirtyPages);
      var found, j := AddrToRegion(blocks[b].base);
      restart := blocks[b].base == regions[j].base && regions[j].commitTop == blocks[b].base + blocks[b].size;
      if restart {
        ghost var i, k := RemoveFromList(b);
        SlopSafeSingle(s, i, k, 0, dirtyPages);
        var n := ReleaseRegion(b, j, s);
      }
    }

    // A committed block on the walk.
    method WalkStep(b: nat, decommitSize: nat, trim: bool) returns (left: nat, restart: bool, ghost n: int)
      requires Ok(S(), dirtyPages, -1, {}) && Mapped(os, regions) && (useVirtualMemory || WholeRegions(regions))
      requires Free(S(), b) && b < |blocks| && blocks[b].committed && decommitSize > 0
      modifies `blocks, `links, `freelists, `lists, `os, `regions, `numDecommitted
      ensures Reduced(old(S()), S(), regions, n, dirtyPages) && (restart ==> n > 0)
      ensures left == if useVirtualMemory then decommitSize - n else decommitSize
      ensures if useVirtualMemory then n > 0 else !restart ==> S() == old(S()) && regions == old(regions)
      ensures useVirtualMemory || WholeRegions(regions)
      ensures useVirtualMemory && !restart && left > 0 ==> NoneAdded(old(S()), S())
      ensures Drift() == old(Drift())
    {
      ghost var s := S();
      left, n := decommitSize, 0;
      if useVirtualMemory {
        left, restart := DecommitStep(b, decommitSize, trim);
        n := decommitSize - left;
      } else {
        restart := ReleaseStep(b);
        if restart {
          n :| n > 0 && Reduced(s, S(), regions, n, dirtyPages);
        } else {
          ReducedNot(s, regions, dirtyPages);
        }
      }
    }

    // One block of the list, at place k - 1; after a decommit the walk starts over.
    method WalkOne(index: nat, point: Link, decommitSize: nat, trim: bool, ghost k: nat)
      returns (next: Link, left: nat, restart: bool, ghost k': nat, ghost n: int)
      requires Ok(S(), dirtyPages, -1, {}) && Mapped(os, regions) && (useVirtualMemory || WholeRegions(regions))
      requires index < NUM_LISTS && 0 < k <= |lists[index]| && point == At(lists[index], index, k - 1) && decommitSize > 0
      requires useVirtualMemory ==> DoneAbove(S(), index) && DoneFrom(S(), index, k)
      modifies `blocks, `links, `freelists, `lists, `os, `regions, `numDecommitted
      ensures Reduced(old(S()), S(), regions, n, dirtyPages) && (restart ==> n > 0)
      ensures left == if useVirtualMemory then decommitSize - n else decommitSize
      ensures useVirtualMemory || WholeRegions(regions)
      ensures !restart ==> k' <= |lists[index]| && next == At(lists[index], index, k' - 1) && (n > 0 || k' < k)
      ensures useVirtualMemory && !restart && left > 0 ==> DoneAbove(S(), index) && DoneFrom(S(), index, k')
      ensures Drift() == old(Drift())
    {
      ghost var s := S();
      left, restart, n := decommitSize, false, 0;
      var b := point.b;
      assert Ring(links, freelists, lists[index], index);
      assert NodeOk(links, lists[index], index, k - 1) && PlaceOk(blocks, lists, index, k - 1);
      var committed := blocks[b].committed;
      if committed {
        left, restart, n := WalkStep(b, left, trim);
      } else {
        ReducedNot(s, regions, dirtyPages);
      }
      next, k' := point, 0;
      if !restart {
        if committed && useVirtualMemory {
          assert Ring(links, freelists, lists[index], index);
          next, k' := freelists[index].prev, |lists[index]|;
        } else {
          next, k' := links[b].prev, k - 1;
        }
      }
    }

    // One list, from its end.
    method WalkList(index: nat, decommitSize: nat, trim: bool) returns (left: nat, restart: bool)
      requires Ok(S(), dirtyPages, -1, {}) && Mapped(os, regions) && (useVirtualMemory || WholeRegions(regions))
      requires index < NUM_LISTS && (useVirtualMemory ==> DoneAbove(S(), index))
      modifies `blocks, `links, `freelists, `lists, `os, `regions, `numDecommitted
      ensures exists n :: Reduced(old(S()), S(), regions, n, dirtyPages) && (restart ==> n > 0) &&
                left == if useVirtualMemory then decommitSize - n else decommitSize
      ensures useVirtualMemory || WholeRegions(regions)
      ensures useVirtualMemory && !restart && left > 0 ==> DoneAbove(S(), index - 1)
      ensures Drift() == old(Drift())
    {
      left, restart := decommitSize, false;
      ghost var s, n := S(), 0;
      ReducedNot(s, regions, dirtyPages);
      assert Ring(links, freelists, lists[index], index);
      var point := freelists[index].prev;
      ghost var k: nat := |lists[index]|;
      while point != ListHead(index) && left > 0
        invariant Reduced(s, S(), regions, n, dirtyPages) && (useVirtualMemory || WholeRegions(regions))
        invariant left == if useVirtualMemory then decommitSize - n else decommitSize
        invariant k <= |lists[index]| && point == At(lists[index], index, k - 1)
        invariant useVirtualMemory && left > 0 ==> DoneAbove(S(), index) && DoneFrom(S(), index, k)
        invariant Drift() == old(Drift())
        decreases Resident(os, 0, |os|), k
      {
        ghost var t, rs := S(), regions;
        ghost var m;
        point, left, restart, k, m := WalkOne(index, point, left, trim, k);
        ReducedTransitive(s, t, S(), rs, regions, n, m, dirtyPages);
        n := n + m;
        if restart {
          return;
        }
      }
      if useVirtualMemory && left > 0 {
        DoneList(S(), index, dirtyPages);
      }
    }

    // All lists, the last first.
    method WalkLists(decommitSize: nat, trim: bool) returns (left: nat, restart: bool)
      requires Ok(S(), dirtyPages, -1, {}) && Mapped(os, regions) && (useVirtualMemory || WholeRegions(regions))
      modifies `blocks, `links, `freelists, `lists, `os, `regions, `numDecommitted
      ensures exists n :: Reduced(old(S()), S(), regions, n, dirtyPages) && (restart ==> n > 0) &&
                left == if useVirtualMemory then decommitSize - n else decommitSize
      ensures useVirtualMemory || WholeRegions(regions)
      ensures useVirtualMemory && !restart && left > 0 ==> DoneAbove(S(), -1)
      ensures Drift() == old(Drift())
    {
      left, restart := decommitSize, false;
      ghost var s, n := S(), 0;
      ReducedNot(s, regions, dirtyPages);
      var index := NUM_LISTS;
      while index > 0 && left > 0
        invariant index <= NUM_LISTS
        invariant Reduced(s, S(), regions, n, dirtyPages) && (useVirtualMemory || WholeRegions(regions))
        invariant left == if useVirtualMemory then decommitSize - n else decommitSize
        invariant useVirtualMemory && left > 0 ==> DoneAbove(S(), index - 1)
        invariant Drift() == old(Drift())
        decreases index
      {
        ghost var t, rs := S(), regions;
        index := index - 1;
        ghost var before := left;
        left, restart := WalkList(index, left, trim);
        ghost var m :| Reduced(t, S(), regions, m, dirtyPages) && (restart ==> m > 0) &&
                       left == if useVirtualMemory then before - m else before;
        ReducedTransitive(s, t, S(), rs, regions, n, m, dirtyPages);
        n := n + m;
        if restart {
          return;
        }
      }
    }

    // decommitSize is the target computed before the walk.
    method Decommit(decommitSize: nat, trim: bool)
      requires Ok(S(), dirtyPages, -1, {}) && Mapped(os, regions) && (useVirtualMemory || WholeRegions(regions))
      modifies `blocks, `links, `freelists, `lists, `os, `regions, `numDecommitted
      ensures exists n :: Reduced(old(S()), S(), regions, n, dirtyPages) &&
                (useVirtualMemory ==> n <= decommitSize) &&
                (useVirtualMemory && n < decommitSize ==>
                   forall h :: 0 <= h < |blocks| && Free(S(), h) ==> !blocks[h].committed)
      ensures Drift() == old(Drift())
    {
      var left, restart := decommitSize, true;
      ghost var s, n := S(), 0;
      ReducedNot(s, regions, dirtyPages);
      while restart
        invariant Reduced(s, S(), regions, n, dirtyPages) && (useVirtualMemory || WholeRegions(regions))
        invariant left == if useVirtualMemory then decommitSize - n else decommitSize
        invariant useVirtualMemory && !restart && left > 0 ==> DoneAbove(S(), -1)
        invariant Drift() == old(Drift())
        decreases Resident(os, 0, |os|), restart
      {
        ghost var t, rs, before := S(), regions, left;
        left, restart := WalkLists(left, trim);
        ghost var m :| Reduced(t, S(), regions, m, dirtyPages) && (restart ==> m > 0) &&
                       left == if useVirtualMemory then before - m else before;
        ReducedTransitive(s, t, S(), rs, regions, n, m, dirtyPages);
        n := n + m;
      }
      forall h | 0 <= h < |blocks| && useVirtualMemory && left > 0 && Free(S(), h) ensures !blocks[h].committed {
        assert FreeOk(S(), dirtyPages, h);
      }
    }

    // ---------------------------------------------------------------- growing

    // The entries for the new pages.
    method InitPages(size: nat, base: nat, contiguous: bool, raw: seq<HeapBlock>, arrayPages: nat, regionPages: nat)
      returns (newBlock: nat)
      requires Ok(S(), dirtyPages, -1, {}) && Contiguous(blocks, base, contiguous) && base > 0
      requires regionPages <= 1 && arrayPages + regionPages < size
      requires |raw| == size + 1 && forall k :: 0 < k < arrayPages ==> Interior(raw[k])
      modifies `blocks, `links, `os
      ensures EnlargedAll(old(S()), S(), EndOf(old(blocks), contiguous), size, arrayPages, regionPages, dirtyPages)
      ensures os == GrownPages(old(os), EndOf(old(blocks), contiguous), base, size, dirtyPages)
      ensures newBlock == EndOf(old(blocks), contiguous) + arrayPages + regionPages
    {
      ghost var s := S();
      var L := EndOf(blocks, contiguous);
      blocks, newBlock := NewBlocks(blocks, raw, base, size, contiguous, dirtyPages, arrayPages, regionPages);
      links := links[..L] + seq(size + 1, k => Links(Null, Null));
      os := GrownPages(os, L, base, size, dirtyPages);
      EnlargedOk(s, S(), raw, base, size, contiguous, dirtyPages, arrayPages, regionPages);
    }

    // The new pages become one free block, after what the HeapBlock array and the region
    // records take of them.
    method AddPages(size: nat, base: nat, contiguous: bool, raw: seq<HeapBlock>, arrayPages: nat, regionPages: nat)
      requires Ok(S(), dirtyPages, -1, {}) && Contiguous(blocks, base, contiguous) && base > 0
      requires regionPages <= 1 && arrayPages + regionPages < size
      requires |raw| == size + 1 && forall k :: 0 < k < arrayPages ==> Interior(raw[k])
      modifies `blocks, `links, `freelists, `lists, `os
      ensures Ok(S(), dirtyPages, -1, {}) && os == GrownPages(old(os), EndOf(old(blocks), contiguous), base, size, dirtyPages)
      ensures EnlargedUse(old(S()), S(), EndOf(old(blocks), contiguous), arrayPages, regionPages, size, -1)
      ensures Drift() == old(Drift())
    {
      ghost var s := S();
      var newBlock := InitPages(size, base, contiguous, raw, arrayPages, regionPages);
      FileNew(newBlock, size, base, contiguous, arrayPages, regionPages, s);
    }

    method FileNew(newBlock: nat, ghost size: nat, ghost base: nat, ghost contiguous: bool, ghost A: nat, ghost R: nat, ghost s: Heap)
      requires Ok(s, dirtyPages, -1, {}) && (contiguous ==> s.bs != []) && R <= 1 && A + R < size
      requires os == GrownPages(s.os, EndOf(s.bs, contiguous), base, size, dirtyPages)
      requires EnlargedAll(s, S(), EndOf(s.bs, contiguous), size, A, R, dirtyPages) && newBlock == EndOf(s.bs, contiguous) + A + R
      modifies `blocks, `links, `freelists, `lists
      ensures Ok(S(), dirtyPages, -1, {}) && os == old(os)
      ensures EnlargedUse(s, S(), EndOf(s.bs, contiguous), A, R, size, -1)
      ensures Uncommitted(os, 0, |os|) == Uncommitted(s.os, 0, |s.os|)
    {
      ghost var t := S();
      EnlargedPages(s, t, base, size, contiguous, dirtyPages, A, R);
      AddToFreeList(newBlock, false, -1, {});
      EnlargedFiled(s, t, S(), EndOf(s.bs, contiguous), A, R, size);
    }

    method GrowArray(size: nat, base: nat, contiguous: bool, raw: seq<HeapBlock>, arrayPages: nat, regionPages: nat, oldBlocks: int)
      requires Ok(S(), dirtyPages, -1, {}) && Contiguous(blocks, base, contiguous) && base > 0
      requires |blocks| - 1 <= EndOf(blocks, contiguous)
      requires regionPages <= 1 && arrayPages + regionPages < size
      requires |raw| == size + 1 && forall k :: 0 < k < arrayPages ==> Interior(raw[k])
      requires oldBlocks == -1 || InUse(S(), oldBlocks)
      modifies `blocks, `links, `freelists, `lists, `os
      ensures Ok(S(), dirtyPages, -1, {}) && os == GrownPages(old(os), EndOf(old(blocks), contiguous), base, size, dirtyPages)
      ensures ExpandedUse(old(S()), S(), EndOf(old(blocks), contiguous), arrayPages, regionPages, size, oldBlocks)
      ensures Drift() == old(Drift())
    {
      ghost var s := S();
      AddPages(size, base, contiguous, raw, arrayPages, regionPages);
      FreeOldBlocks(oldBlocks, s, EndOf(s.bs, contiguous), arrayPages, regionPages, size);
    }

    // raw is what the memory for the new entries holds; arrayPages are for the array, if it
    // moves, which then leaves oldBlocks, and regionPages for the records of regions.
    method ExpandHeap(size: nat, how: Acquired, raw: seq<HeapBlock>, arrayPages: nat, regionPages: nat, oldBlocks: int)
      requires Ok(S(), dirtyPages, -1, {}) && Mapped(os, regions) && MayAcquire(regions, how, size)
      requires !useVirtualMemory ==> how.NewRegion? && how.newSize == size
      requires regionPages <= 1 && arrayPages + regionPages < size
      requires |raw| == size + 1 && forall k :: 0 < k < arrayPages ==> Interior(raw[k])
      requires oldBlocks == -1 || InUse(S(), oldBlocks)
      modifies `blocks, `links, `freelists, `lists, `os, `regions
      ensures Ok(S(), dirtyPages, -1, {}) && Drift() == old(Drift())
      ensures var L := EndOf(old(blocks), Follows(old(blocks), how, BaseOf(old(regions), how)));
              && ExpandedUse(old(S()), S(), L, arrayPages, regionPages, size, oldBlocks)
              && RegionsGrown(old(os), old(regions), how, size, L, os, regions, dirtyPages)
      ensures !useVirtualMemory && WholeRegions(old(regions)) ==> WholeRegions(regions)
    {
      ghost var s, rs := S(), regions;
      ghost var L := Acquire(s, regions, how, size, dirtyPages);
      var base := BaseOf(regions, how);
      GrowArray(size, base, Follows(blocks, how, base), raw, arrayPages, regionPages, oldBlocks);
      regions := GrownRegions(regions, how, size, |blocks|);
      AcquiredRegions(s, rs, how, size, L, os, regions, dirtyPages);
    }

    // The block of the old array, if the array moved.
    method FreeOldBlocks(b: int, ghost s: Heap, ghost L: nat, ghost A: nat, ghost R: nat, ghost size: nat)
      requires Ok(S(), dirtyPages, -1, {}) && EnlargedUse(s, S(), L, A, R, size, -1) && A + R < size && R <= 1
      requires Ok(s, dirtyPages, -1, {}) && (b == -1 || InUse(s, b)) && |s.bs| - 1 <= L
      modifies `blocks, `links, `freelists, `lists
      ensures Ok(S(), dirtyPages, -1, {}) && os == old(os) && ExpandedUse(s, S(), L, A, R, size, b)
    {
      ghost var t := S();
      if b >= 0 {
        StillUsed(s, t, L, A, R, size, b, dirtyPages);
        FreeBlock(b);
        OldFreed(s, t, S(), L, A, R, size, b);
      }
    }

    // ---------------------------------------------------------------- allocating, with expansion

    // ExpandHeap, as the program sees it.
    method GrowBy(ask: nat, size: nat, how: Acquired, raw: seq<HeapBlock>, arrayPages: nat, regionPages: nat, freed: int)
      requires Ok(S(), dirtyPages, -1, {}) && Mapped(os, regions) && MayAcquire(regions, how, size)
      requires !useVirtualMemory ==> how.NewRegion? && how.newSize == size
      requires ask > 0 && regionPages <= 1 && arrayPages + regionPages < size
      requires |raw| == size + 1 && forall k :: 0 < k < arrayPages ==> Interior(raw[k])
      requires freed == -1 || InUse(S(), freed)
      modifies `blocks, `links, `freelists, `lists, `os, `regions
      ensures Ok(S(), dirtyPages, -1, {}) && Mapped(os, regions) && Drift() == old(Drift())
      ensures !useVirtualMemory && WholeRegions(old(regions)) ==> WholeRegions(regions)
      ensures |blocks| == EndOf(old(blocks), Follows(old(blocks), how, BaseOf(old(regions), how))) + size + 1
      ensures SameUsedBut(old(S()), S(), freed)
      ensures size - arrayPages - regionPages >= ask ==> exists h :: Suitable(S(), h, ask, 1)
    {
      ghost var s, rs := S(), regions;
      ghost var L := Acquire(s, regions, how, size, dirtyPages);
      ExpandHeap(size, how, raw, arrayPages, regionPages, freed);
      ExpandedSeen(s, S(), rs, regions, how, size, L, arrayPages, regionPages, freed, ask, dirtyPages);
    }

    // The heap grows by enough pages for `ask` and for what the array and the records of
    // regions need.  answer is what the operating system gives for so many pages; inNew and
    // behind are what the memory for the new entries holds if the array moves or stays.
    method ExpandFor(ask: nat, regionFull: bool, arrayBlock: int, have: nat, answer: nat -> Option<Acquired>,
                     inNew: nat -> seq<HeapBlock>, behind: nat -> seq<HeapBlock>)
      returns (grown: bool, moved: bool, pages: nat)
      requires Ok(S(), dirtyPages, -1, {}) && Mapped(os, regions) && ask > 0
      requires Answers(regions, useVirtualMemory, |blocks|, answer, inNew, behind)
      requires if arrayBlock >= 0 then InUse(S(), arrayBlock) && have == blocks[arrayBlock].size else arrayBlock == -1 && have == 0
      modifies `blocks, `links, `freelists, `lists, `os, `regions
      ensures Ok(S(), dirtyPages, -1, {}) && Mapped(os, regions) && Drift() == old(Drift())
      ensures !useVirtualMemory && WholeRegions(old(regions)) ==> WholeRegions(regions)
      ensures !grown ==> S() == old(S()) && regions == old(regions)
      ensures grown ==> PagesFor(|blocks|) <= pages && (!moved ==> pages == have)
      ensures grown ==> SameUsedBut(old(S()), S(), if moved then arrayBlock else -1)
      ensures grown && (moved || !regionFull || ask % MIN_HEAP_INCREMENT != 0) ==> exists h :: Suitable(S(), h, ask, 1)
    {
      var extra := if regionFull then 2 else 1;
      var size, reserved;
      size, moved, reserved := ExpansionSize(ask, |blocks|, have, extra);
      grown, pages := answer(size).Some?, have;
      if grown {
        var how := answer(size).value;
        ghost var L := Acquire(S(), regions, how, size, dirtyPages);
        var len := EndOf(blocks, Follows(blocks, how, BaseOf(regions, how))) + size + 1;
        MoreEntries(len, |blocks| + size + 1);
        var arrayPages := if moved then PagesFor(len) else 0;
        var regionPages := if regionFull then 1 else 0;
        LeavesRoom(ask, size, moved, reserved, extra, regionPages);
        GrowBy(ask, size, how, if moved then inNew(size) else behind(size), arrayPages, regionPages, if moved then arrayBlock else -1);
        pages := if moved then arrayPages else have;
      }
    }

    // AllocHelper.  A request of OS_ALLOC_THRESHOLD pages or more does not come here where
    // virtual memory is used and the heap has to grow.
    method AllocHelper(size: nat, expand: bool, zero: bool, alignment: nat, regionFull: bool, arrayBlock: int, have: nat,
                       answer: nat -> Option<Acquired>, inNew: nat -> seq<HeapBlock>, behind: nat -> seq<HeapBlock>)
      returns (r: int, clear: bool, grown: bool, moved: bool, pages: nat, ghost mid: Heap)
      requires Ok(S(), dirtyPages, -1, {}) && Mapped(os, regions) && size > 0 && alignment > 0
      requires Answers(regions, useVirtualMemory, |blocks|, answer, inNew, behind)
      requires expand && useVirtualMemory ==> size < OS_ALLOC_THRESHOLD
      requires if arrayBlock >= 0 then InUse(S(), arrayBlock) && have == blocks[arrayBlock].size else arrayBlock == -1 && have == 0
      modifies `blocks, `links, `freelists, `lists, `os, `regions, `numDecommitted
      ensures Ok(S(), dirtyPages, -1, {}) && Mapped(os, regions) && r >= -1
      ensures !grown ==> mid == old(S())
      ensures grown ==> expand && SameUsedBut(old(S()), mid, if moved then arrayBlock else -1)
      ensures grown ==> PagesFor(|mid.bs|) <= pages && (!moved ==> pages == have)
      ensures r >= 0 ==> Allocated(mid, S(), r, size, alignment)
      ensures zero && !clear && r >= 0 ==> Zero(S(), r, r + size)
      ensures r == -1 ==> S() == mid && old(Exhausted(S(), size, alignment, useVirtualMemory))
      ensures r == -1 && grown ==> Exhausted(mid, size, alignment, useVirtualMemory)
      ensures forall c :: Suitable(mid, c, size, alignment) ==> exists b :: Best(mid, b, r, size, alignment)
      ensures grown && alignment == 1 && (moved || !regionFull || size % MIN_HEAP_INCREMENT != 0) ==> r >= 0
      ensures Drift() >= old(Drift()) && (!sloppyCommit ==> Drift() == old(Drift()))
    {
      mid, grown, moved, pages := S(), false, false, have;
      r, clear := AllocBlock(size, zero, alignment);
      if r == -1 && expand {
        grown, moved, pages := ExpandFor(size, regionFull, arrayBlock, have, answer, inNew, behind);
        mid := S();
        if grown {
          r, clear := AllocBlock(size, zero, alignment);
        }
      }
    }

    // Alloc, but for the second try after the program has been asked to free memory: the
    // memory is cleared only where AllocBlock says it must be.
    method Alloc(size: nat, expand: bool, zero: bool, alignment: nat, regionFull: bool, arrayBlock: int, have: nat,
                 answer: nat -> Option<Acquired>, inNew: nat -> seq<HeapBlock>, behind: nat -> seq<HeapBlock>)
      returns (r: int, grown: bool, moved: bool, pages: nat, ghost mid: Heap)
      requires Ok(S(), dirtyPages, -1, {}) && Mapped(os, regions) && size > 0 && alignment > 0
      requires Answers(regions, useVirtualMemory, |blocks|, answer, inNew, behind)
      requires expand && useVirtualMemory ==> size < OS_ALLOC_THRESHOLD
      requires if arrayBlock >= 0 then InUse(S(), arrayBlock) && have == blocks[arrayBlock].size else arrayBlock == -1 && have == 0
      modifies `blocks, `links, `freelists, `lists, `os, `regions, `numDecommitted
      ensures Ok(S(), dirtyPages, -1, {}) && Mapped(os, regions) && r >= -1
      ensures !grown ==> mid == old(S())
      ensures grown ==> expand && SameUsedBut(old(S()), mid, if moved then arrayBlock else -1)
      ensures grown ==> PagesFor(|mid.bs|) <= pages && (!moved ==> pages == have)
      ensures r >= 0 ==> Allocated(mid, S(), r, size, alignment)
      ensures r >= 0 && zero ==> Zero(S(), r, r + size)
      ensures forall c :: Suitable(mid, c, size, alignment) ==> exists b :: Best(mid, b, r, size, alignment)
      ensures r == -1 ==> S() == mid && old(Exhausted(S(), size, alignment, useVirtualMemory))
      ensures grown && alignment == 1 && (moved || !regionFull || size % MIN_HEAP_INCREMENT != 0) ==> r >= 0
      ensures Drift() >= old(Drift()) && (!sloppyCommit ==> Drift() == old(Drift()))
    {
      var clear;
      r, clear, grown, moved, pages, mid :=
        AllocHelper(size, expand, zero, alignment, regionFull, arrayBlock, have, answer, inNew, behind);
      if r >= 0 && clear {
        ClearNew(r, size, alignment, mid);
      }
    }

    method ClearNew(r: nat, size: nat, ghost alignment: nat, ghost s: Heap)
      requires Ok(S(), dirtyPages, -1, {}) && Mapped(os, regions) && alignment > 0 && Allocated(s, S(), r, size, alignment)
      modifies `os
      ensures Ok(S(), dirtyPages, -1, {}) && Mapped(os, regions) && Allocated(s, S(), r, size, alignment)
      ensures Zero(S(), r, r + size) && Drift() == old(Drift())
    {
      ghost var t := S();
      assert EntryOk(blocks, r, -1);
      Write(r, r, r + size, true);
      AllocatedWritten(s, t, S(), r, size, alignment);
      MappedSame(t.os, os, regions);
    }
  }
}
