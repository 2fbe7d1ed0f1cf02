/**
 The small-object allocator (MMgc/GCAlloc.h, MMgc/GCAlloc.cpp): its blocks, its lists and
 the invariant that ties them to the mark bits.

 A block is named by a number, an item by its block and its index there.
 */
module SmallBlocks {
  import opened Sets

  // kMark and kQueued; an item on a free list has both set, which is kFreelist.
  datatype Bits = Clear | Marked | Queued | Freed

  datatype Item = Item(block: nat, index: nat)

  datatype Block = Block(
    bits: seq<Bits>,
    firstFree: seq<nat>,      // the free list of the block
    numFree: int,
    needsSweeping: bool,
    finalizeState: bool
  )

  datatype Allocator = Allocator(
    itemsPerBlock: nat,
    itemSize: nat,
    containsFinalizedObjects: bool,
    blocks: map<nat, Block>,
    order: seq<nat>,          // the list of all blocks, from m_firstBlock
    free: seq<nat>,           // from m_firstFree
    sweep: seq<nat>,          // from m_needsSweeping
    qList: seq<Item>,         // the quick list
    qBudget: int,
    qBudgetObtained: int
  )

  // The items of block x on the quick list.
  ghost function OnQuick(q: seq<Item>, x: nat): set<nat> {
    set it | it in q && it.block == x :: it.index
  }

  // ------------------------------------------------------------------ the invariant

  // An item is exactly one of: not free, on the free list of the block, on the quick list.
  ghost predicate ItemOk(b: Block, q: set<nat>, i: nat)
    requires i < |b.bits|
  {
    && (b.bits[i] == Freed <==> i in b.firstFree || i in q)
    && !(i in b.firstFree && i in q)
  }

  ghost predicate BlockOk(b: Block, n: nat, q: set<nat>) {
    && |b.bits| == n && b.numFree == |b.firstFree| && Unique(b.firstFree)
    && (forall i :: i in b.firstFree ==> i < n) && (forall i :: i in q ==> i < n)
    && (forall i {:trigger ItemOk(b, q, i)} :: 0 <= i < n ==> ItemOk(b, q, i))
  }

  // A block is on the free list exactly when it has free items and has been swept, and on
  // the sweep list exactly when it has not; then none of its items is on the quick list.
  ghost predicate ListsOk(a: Allocator, q: seq<Item>, x: nat)
    requires x in a.blocks
  {
    && (x in a.free <==> !a.blocks[x].needsSweeping && a.blocks[x].numFree > 0)
    && (x in a.sweep <==> a.blocks[x].needsSweeping)
    && (a.blocks[x].needsSweeping ==> OnQuick(q, x) == {})
  }

  ghost predicate Sound(a: Allocator, q: seq<Item>, x: nat) {
    x in a.blocks && BlockOk(a.blocks[x], a.itemsPerBlock, OnQuick(q, x)) && ListsOk(a, q, x)
  }

  // q is the quick list, also while an operation has set it aside.
  ghost predicate Ok(a: Allocator, q: seq<Item>) {
    && a.itemsPerBlock > 0
    && Unique(a.order) && Unique(a.free) && Unique(a.sweep) && Unique(q)
    && (forall x :: x in a.order <==> x in a.blocks)
    && (forall x :: x in a.free ==> x in a.blocks) && (forall x :: x in a.sweep ==> x in a.blocks)
    && (forall it :: it in q ==> it.block in a.blocks)
    && (forall x {:trigger Sound(a, q, x)} :: x in a.blocks ==> Sound(a, q, x))
  }

  // The fields besides the blocks and their lists do not matter.
  lemma SameParts(a: Allocator, c: Allocator, q: seq<Item>)
    requires Ok(a, q) && c.itemsPerBlock == a.itemsPerBlock && c.blocks == a.blocks
    requires c.order == a.order && c.free == a.free && c.sweep == a.sweep
    ensures Ok(c, q)
  {
    forall x | x in c.blocks ensures Sound(c, q, x) {
      assert Sound(a, q, x);
    }
  }

  // The budget obtained and not left is what the quick list uses.
  ghost predicate Budgeted(a: Allocator) {
    a.qBudgetObtained - a.qBudget == |a.qList| && a.qBudgetObtained >= a.itemsPerBlock
  }

  ghost predicate Valid(a: Allocator) {
    Ok(a, a.qList) && Budgeted(a)
  }

  // ------------------------------------------------------------------ the items that are alive

  // A block that awaits sweeping holds its dead items as if they were in use; those that are
  // alive have been marked.
  predicate LiveIn(b: Block, i: nat) {
    i < |b.bits| && b.bits[i] != Freed && (b.needsSweeping ==> b.bits[i] != Clear)
  }

  predicate Live(a: Allocator, it: Item) {
    it.block in a.blocks && LiveIn(a.blocks[it.block], it.index)
  }

  ghost predicate SameLive(a: Allocator, c: Allocator) {
    forall it {:trigger Live(a, it)} {:trigger Live(c, it)} :: Live(a, it) <==> Live(c, it)
  }

  // Marks are left only in blocks that await sweeping.
  ghost predicate Unmarked(b: Block) {
    b.needsSweeping || forall i :: 0 <= i < |b.bits| ==> b.bits[i] == Clear || b.bits[i] == Freed
  }

  ghost predicate NoMarks(a: Allocator) {
    forall x {:trigger a.blocks[x]} :: x in a.blocks ==> Unmarked(a.blocks[x])
  }

  // ------------------------------------------------------------------ lists of blocks

  lemma PushUnique<T(!new)>(xs: seq<T>, x: T)
    requires Unique(xs) && x !in xs
    ensures Unique([x] + xs) && Unique(xs + [x])
  {
  }

  // Only the list x is on changes; blocks, items and the quick list stay.
  function AddToFree(a: Allocator, x: nat): Allocator {
    a.(free := [x] + a.free)
  }

  function RemoveFromFree(a: Allocator, x: nat): Allocator {
    a.(free := Without(a.free, x))
  }

  // Taken off all lists.
  function Unlinked(a: Allocator, x: nat): Allocator {
    a.(blocks := a.blocks - {x}, order := Without(a.order, x), free := Without(a.free, x))
  }

  // A block without items in use, swept, can go.
  lemma UnlinkKeeps(a: Allocator, q: seq<Item>, x: nat)
    requires Ok(a, q) && x in a.blocks && !a.blocks[x].needsSweeping && OnQuick(q, x) == {}
    ensures Ok(Unlinked(a, x), q)
  {
    var r := Unlinked(a, x);
    WithoutUnique(a.order, x);
    WithoutUnique(a.free, x);
    assert Sound(a, q, x);
    forall it | it in q ensures it.block in r.blocks {
      assert it.index in OnQuick(q, it.block);
    }
    forall y | y in r.blocks ensures Sound(r, q, y) {
      assert Sound(a, q, y);
    }
  }

  // A block all of whose items are free has no live ones, and none on the quick list.
  lemma FullyFree(b: Block, n: nat, q: set<nat>)
    requires BlockOk(b, n, q) && b.numFree == n
    ensures forall i :: 0 <= i < n ==> b.bits[i] == Freed
    ensures q == {}
  {
    var s := set i | i in b.firstFree;
    UniqueCard(b.firstFree);
    assert s <= Below(n);
    SubsetFull(s, Below(n));
    forall i | 0 <= i < n ensures b.bits[i] == Freed && i !in q {
      assert ItemOk(b, q, i) && i in Below(n);
    }
  }
}
