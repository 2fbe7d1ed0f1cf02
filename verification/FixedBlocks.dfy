/**
 The blocks of a FixedAlloc (MMgc/FixedAlloc.h, MMgc/FixedAlloc-inlines.h:120-279,
 MMgc/FixedAlloc.cpp:181-286), and the steps its operations take on them.
 */
module FixedBlocks {
  import opened Sets

  datatype Item = Item(block: nat, index: nat)

  // nextItem is the first item never handed out; the number of items stands for NULL.
  datatype Block = Block(firstFree: seq<nat>, nextItem: nat, numAlloc: nat)

  datatype Pool = Pool(
    blocks: map<nat, Block>,
    order: seq<nat>,      // the list of all blocks
    free: seq<nat>        // from m_firstFree
  )

  // ------------------------------------------------------------------ the invariant

  ghost function UsedIn(used: set<Item>, x: nat): set<nat> {
    set it | it in used && it.block == x :: it.index
  }

  // Each item is exactly one of: allocated, on the free list, at or behind nextItem.
  ghost predicate ItemOk(b: Block, u: set<nat>, i: nat) {
    && (i in u ==> i !in b.firstFree && i < b.nextItem)
    && (i in b.firstFree ==> i < b.nextItem)
    && (i < b.nextItem ==> i in u || i in b.firstFree)
  }

  ghost predicate BlockOk(b: Block, u: set<nat>, n: nat) {
    && b.nextItem <= n && Unique(b.firstFree) && b.numAlloc == |u|
    && forall i {:trigger ItemOk(b, u, i)} :: ItemOk(b, u, i)
  }

  // The list from m_firstFree holds exactly the blocks that are not full.
  ghost predicate Sound(p: Pool, used: set<Item>, n: nat, x: nat) {
    && x in p.blocks && BlockOk(p.blocks[x], UsedIn(used, x), n)
    && (x in p.free <==> p.blocks[x].numAlloc < n)
  }

  ghost predicate Ok(p: Pool, used: set<Item>, n: nat) {
    && n > 0 && Unique(p.order) && Unique(p.free)
    && (forall x :: x in p.order <==> x in p.blocks)
    && (forall x :: x in p.free ==> x in p.blocks)
    && (forall it :: it in used ==> it.block in p.blocks)
    && (forall x {:trigger Sound(p, used, n, x)} :: x in p.blocks ==> Sound(p, used, n, x))
  }

  // No block is kept without an allocated item.
  ghost predicate NoneEmpty(p: Pool) {
    forall x :: x in p.blocks ==> p.blocks[x].numAlloc > 0
  }

  // ------------------------------------------------------------------ the steps of Alloc

  function Bump(p: Pool, x: nat): Pool
    requires x in p.blocks
  {
    p.(blocks := p.blocks[x := p.blocks[x].(numAlloc := p.blocks[x].numAlloc + 1)])
  }

  // From the free list of the block, or else from its end; numAlloc has been raised.
  function Taken(b: Block, n: nat): (r: (Block, nat)) {
    if b.firstFree != [] then (b.(firstFree := b.firstFree[1..]), b.firstFree[0])
    else (b.(nextItem := if b.numAlloc != n then b.nextItem + 1 else n), b.nextItem)
  }

  function Take(p: Pool, x: nat, n: nat): Pool
    requires x in p.blocks
  {
    p.(blocks := p.blocks[x := Taken(p.blocks[x], n).0])
  }

  // A block that has become full leaves the list; it is its first.
  function Unlist(p: Pool, x: nat, n: nat): Pool
    requires x in p.blocks
  {
    if p.blocks[x].numAlloc == n && p.free != [] then p.(free := p.free[1..]) else p
  }

  function AllocFrom(p: Pool, x: nat, n: nat): Pool
    requires x in p.blocks
  {
    Unlist(Take(Bump(p, x), x, n), x, n)
  }

  function AllocItem(p: Pool, x: nat, n: nat): Item
    requires x in p.blocks
  {
    Item(x, Taken(Bump(p, x).blocks[x], n).1)
  }

  // ------------------------------------------------------------------ the steps of Free

  function Push(p: Pool, it: Item): Pool
    requires it.block in p.blocks
  {
    var b := p.blocks[it.block];
    p.(blocks := p.blocks[it.block := b.(firstFree := [it.index] + b.firstFree)])
  }

  // A block that was full goes back on the list.
  function Relist(p: Pool, x: nat, n: nat): Pool
    requires x in p.blocks
  {
    if p.blocks[x].numAlloc == n then p.(free := [x] + p.free) else p
  }

  function Lower(p: Pool, x: nat): Pool
    requires x in p.blocks
  {
    var b := p.blocks[x];
    p.(blocks := p.blocks[x := b.(numAlloc := if b.numAlloc > 0 then b.numAlloc - 1 else 0)])
  }

  // An empty block leaves both lists.
  function UnlinkIfEmpty(p: Pool, x: nat): Pool
    requires x in p.blocks
  {
    if p.blocks[x].numAlloc == 0 then Pool(p.blocks - {x}, Without(p.order, x), Without(p.free, x)) else p
  }

  function FreeFrom(p: Pool, it: Item, n: nat): Pool
    requires it.block in p.blocks
  {
    UnlinkIfEmpty(Lower(Relist(Push(p, it), it.block, n), it.block), it.block)
  }

  // ------------------------------------------------------------------ a new block

  const FRESH: Block := Block([], 0, 0)

  function Linked(p: Pool, x: nat): Pool {
    p.(blocks := p.blocks[x := FRESH], order := p.order + [x])
  }

  function Listed(p: Pool, x: nat): Pool {
    p.(free := [x] + p.free)
  }

  // ------------------------------------------------------------------ they keep the invariant

  // A block that is not full has an item to give.
  lemma HasItem(b: Block, u: set<nat>, n: nat)
    requires BlockOk(b, u, n)
    ensures b.numAlloc <= n
    ensures b.numAlloc < n && b.firstFree == [] ==> b.nextItem < n && b.numAlloc == b.nextItem
  {
    forall i | i in u ensures i in Below(n) {
      assert ItemOk(b, u, i);
    }
    SubsetCard(u, Below(n));
    if b.firstFree == [] {
      forall i ensures i in u <==> i in Below(b.nextItem) {
        assert ItemOk(b, u, i);
      }
      assert u == Below(b.nextItem);
    }
  }

  lemma TakenOk(b: Block, u: set<nat>, n: nat)
    requires BlockOk(b, u, n) && b.numAlloc < n
    ensures var r := Taken(b.(numAlloc := b.numAlloc + 1), n);
            r.1 !in u && r.1 < n && BlockOk(r.0, u + {r.1}, n) && r.0.numAlloc == b.numAlloc + 1
  {
    HasItem(b, u, n);
    var r := Taken(b.(numAlloc := b.numAlloc + 1), n);
    if b.firstFree != [] {
      assert b.firstFree[0] in b.firstFree && ItemOk(b, u, b.firstFree[0]);
      assert b.firstFree[0] !in b.firstFree[1..];
    } else {
      assert ItemOk(b, u, b.nextItem);
    }
    forall i ensures ItemOk(r.0, u + {r.1}, i) {
      assert ItemOk(b, u, i);
    }
  }

  lemma UsedInAdd(used: set<Item>, it: Item, x: nat)
    ensures UsedIn(used + {it}, x) == if it.block == x then UsedIn(used, x) + {it.index} else UsedIn(used, x)
  {
    forall i ensures i in UsedIn(used + {it}, x) <==> i in UsedIn(used, x) || Item(x, i) == it {
      if i in UsedIn(used, x) {
        assert Item(x, i) in used + {it};
      }
      if Item(x, i) == it {
        assert it in used + {it};
      }
    }
  }

  lemma UsedInDrop(used: set<Item>, it: Item, x: nat)
    ensures UsedIn(used - {it}, x) == if it.block == x then UsedIn(used, x) - {it.index} else UsedIn(used, x)
  {
    forall i ensures i in UsedIn(used - {it}, x) <==> i in UsedIn(used, x) && Item(x, i) != it {
      if i in UsedIn(used, x) && Item(x, i) != it {
        assert Item(x, i) in used - {it};
      }
    }
  }

  // The item handed out was not in use, and the lists are right again.
  lemma AllocKeeps(p: Pool, used: set<Item>, n: nat)
    requires Ok(p, used, n) && p.free != []
    ensures p.free[0] in p.blocks
    ensures var it := AllocItem(p, p.free[0], n);
            it !in used && it.index < n && Ok(AllocFrom(p, p.free[0], n), used + {it}, n)
  {
    var x := p.free[0];
    assert x in p.free && Sound(p, used, n, x);
    var u := UsedIn(used, x);
    TakenOk(p.blocks[x], u, n);
    var it := AllocItem(p, x, n);
    var r := AllocFrom(p, x, n);
    assert it !in used by {
      assert it in used <==> it.index in UsedIn(used, x);
    }
    assert p.free == [x] + p.free[1..] && x !in p.free[1..];
    forall y | y in r.blocks ensures Sound(r, used + {it}, n, y) {
      assert Sound(p, used, n, y);
      UsedInAdd(used, it, y);
      if y == x {
        HasItem(r.blocks[x], u + {it.index}, n);
      }
    }
  }

  lemma AllocNoneEmpty(p: Pool, n: nat)
    requires p.free != [] && p.free[0] in p.blocks && forall x :: x in p.blocks && x != p.free[0] ==> p.blocks[x].numAlloc > 0
    ensures NoneEmpty(AllocFrom(p, p.free[0], n))
  {
  }

  lemma FreedOk(b: Block, u: set<nat>, n: nat, i: nat)
    requires BlockOk(b, u, n) && i in u
    ensures b.numAlloc > 0 && BlockOk(b.(firstFree := [i] + b.firstFree, numAlloc := b.numAlloc - 1), u - {i}, n)
  {
    var c := b.(firstFree := [i] + b.firstFree, numAlloc := b.numAlloc - 1);
    assert ItemOk(b, u, i);
    forall k ensures ItemOk(c, u - {i}, k) {
      assert ItemOk(b, u, k);
    }
    SubsetCard({i}, u);
  }

  lemma FreedSound(p: Pool, used: set<Item>, n: nat, it: Item, y: nat)
    requires Ok(p, used, n) && it in used && it.block in p.blocks && y in FreeFrom(p, it, n).blocks
    ensures Sound(FreeFrom(p, it, n), used - {it}, n, y)
  {
    assert Sound(p, used, n, it.block) && it.index in UsedIn(used, it.block);
    FreedOk(p.blocks[it.block], UsedIn(used, it.block), n, it.index);
    HasItem(p.blocks[it.block], UsedIn(used, it.block), n);
    assert Sound(p, used, n, y);
    UsedInDrop(used, it, y);
  }

  // The block of the item has one more free item, or is gone with its last one.
  lemma FreeKeeps(p: Pool, used: set<Item>, n: nat, it: Item)
    requires Ok(p, used, n) && it in used
    ensures it.block in p.blocks && Ok(FreeFrom(p, it, n), used - {it}, n)
    ensures NoneEmpty(p) ==> NoneEmpty(FreeFrom(p, it, n))
    ensures it.block in FreeFrom(p, it, n).blocks <==> p.blocks[it.block].numAlloc > 1
  {
    var x := it.block;
    assert Sound(p, used, n, x);
    var u := UsedIn(used, x);
    assert it.index in u;
    FreedOk(p.blocks[x], u, n, it.index);
    HasItem(p.blocks[x], u, n);
    WithoutUnique(p.order, x);
    var r := FreeFrom(p, it, n);
    WithoutUnique(Relist(Push(p, it), x, n).free, x);
    forall k | k in used - {it} ensures k.block in r.blocks {
      if k.block == x {
        assert k.index in u && it.index in u && k.index != it.index;
        TwoIn(u, k.index, it.index);
      }
    }
    forall y | y in r.blocks ensures Sound(r, used - {it}, n, y) {
      FreedSound(p, used, n, it, y);
    }
  }

  lemma TwoIn(s: set<nat>, a: nat, b: nat)
    requires a in s && b in s && a != b
    ensures |s| >= 2
  {
    SubsetCard({a, b}, s);
  }

  // A block no one else knows is added.
  lemma ChunkKeeps(p: Pool, used: set<Item>, n: nat, x: nat)
    requires Ok(p, used, n) && x !in p.blocks
    ensures Ok(Listed(Linked(p, x), x), used, n)
  {
    var r := Listed(Linked(p, x), x);
    assert UsedIn(used, x) == {} by {
      forall it | it in used ensures it.block != x {
      }
    }
    forall y | y in r.blocks ensures Sound(r, used, n, y) {
      if y == x {
        forall i ensures ItemOk(FRESH, {}, i) {
        }
      } else {
        assert Sound(p, used, n, y);
      }
    }
  }
}
