/**
 Allocation, explicit free, finalization and lazy sweeping of one small-object allocator
 (MMgc/GCAlloc.cpp:441-1046, 1209-1221).

 An allocator is a value here: each operation takes it and gives the allocator afterwards.
 */
module Sweeping {
  import opened Options
  import opened Sets
  import opened SmallBlocks
  import opened ItemStatus

  // ------------------------------------------------------------------ the quick list

  // The item goes on the free list of its block.
  function PushFree(b: Block, i: nat): Block {
    b.(firstFree := [i] + b.firstFree, numFree := b.numFree + 1)
  }

  // The free list apart, nothing in the block is different.
  ghost predicate SameRecord(b: Block, c: Block) {
    c == b.(firstFree := c.firstFree, numFree := c.numFree)
  }

  // One item of the quick list goes back to its block.
  function Returned(a: Allocator, it: Item): Allocator
    requires it.block in a.blocks
  {
    var b := a.blocks[it.block];
    var c := if b.numFree == 0 then AddToFree(a, it.block) else a;
    c.(blocks := c.blocks[it.block := PushFree(b, it.index)])
  }

  lemma OnQuickRest(q: seq<Item>, x: nat)
    requires q != [] && Unique(q)
    ensures OnQuick(q[1..], x) == if q[0].block == x then OnQuick(q, x) - {q[0].index} else OnQuick(q, x)
  {
    var r := OnQuick(q[1..], x);
    forall i | i in OnQuick(q, x) && !(q[0].block == x && q[0].index == i) ensures i in r {
      assert Item(x, i) in q;
      assert Item(x, i) in q[1..];
    }
    forall i | i in r ensures i in OnQuick(q, x) && !(q[0].block == x && q[0].index == i) {
      assert Item(x, i) in q[1..];
    }
  }

  lemma ReturnKeeps(a: Allocator, q: seq<Item>)
    requires Ok(a, q) && q != []
    ensures q[0].block in a.blocks && Ok(Returned(a, q[0]), q[1..]) && SameStatus(a, Returned(a, q[0]))
    ensures NoMarks(a) ==> NoMarks(Returned(a, q[0]))
  {
    var x, i := q[0].block, q[0].index;
    var r := Returned(a, q[0]);
    assert q[0] in q && x in a.blocks;
    assert i in OnQuick(q, x);
    assert Sound(a, q, x);
    OnQuickRest(q, x);
    assert ItemOk(a.blocks[x], OnQuick(q, x), i);
    PushUnique(a.blocks[x].firstFree, i);
    if a.blocks[x].numFree == 0 {
      PushUnique(a.free, x);
    }
    forall y | y in r.blocks ensures Sound(r, q[1..], y) {
      assert Sound(a, q, y);
      OnQuickRest(q, y);
      if y == x {
        forall k | 0 <= k < a.itemsPerBlock ensures ItemOk(r.blocks[x], OnQuick(q[1..], x), k) {
          assert ItemOk(a.blocks[x], OnQuick(q, x), k);
        }
      }
    }
    forall it ensures StatusOf(r, it) == StatusOf(a, it) {
    }
    forall it | it in q[1..] ensures it.block in r.blocks {
      assert it in q;
    }
  }

  // The whole quick list goes back.
  ghost function AllReturned(a: Allocator, q: seq<Item>): (r: Allocator)
    requires Ok(a, q)
    decreases |q|
  {
    if q == [] then a
    else
      ReturnKeeps(a, q);
      AllReturned(Returned(a, q[0]), q[1..])
  }

  lemma InQuick(q: seq<Item>, it: Item)
    ensures it in q <==> it.index in OnQuick(q, it.block)
  {
  }

  // The blocks from x on, in the list of all blocks.
  function From(order: seq<nat>, x: nat): (r: seq<nat>)
    ensures forall y :: y in r ==> y in order
  {
    if order == [] || order[0] == x then order else From(order[1..], x)
  }

  lemma {:induction false} FromUnique(order: seq<nat>, x: nat)
    requires Unique(order)
    ensures Unique(From(order, x))
  {
    if order != [] && order[0] != x {
      assert Unique(order[1..]);
      FromUnique(order[1..], x);
    }
  }

  // A block of free items only goes back to the heap.
  lemma ReleaseKeeps(a: Allocator, q: seq<Item>, x: nat)
    requires Ok(a, q) && x in a.blocks && !a.blocks[x].needsSweeping && a.blocks[x].numFree == a.itemsPerBlock
    ensures Ok(Unlinked(a, x), q) && SameStatus(a, Unlinked(a, x)) && (NoMarks(a) ==> NoMarks(Unlinked(a, x)))
  {
    assert Sound(a, q, x);
    FullyFree(a.blocks[x], a.itemsPerBlock, OnQuick(q, x));
    UnlinkKeeps(a, q, x);
    forall it ensures StatusOf(Unlinked(a, x), it) == StatusOf(a, it) {
    }
  }

  // Nothing in the block is in use, and it comes no earlier in the list of all blocks than
  // the first block with free items.
  predicate Releasable(a: Allocator, x: nat)
    requires x in a.blocks
  {
    && a.free != [] && x in From(a.order, a.free[0])
    && a.blocks[x].numFree == a.itemsPerBlock && !a.blocks[x].needsSweeping
  }

  // The budget is down to one block's worth.
  function Settled(a: Allocator): Allocator {
    a.(qList := [], qBudgetObtained := a.itemsPerBlock, qBudget := a.itemsPerBlock)
  }

  // Records apart from their free lists, nothing is different but that blocks may be gone.
  ghost predicate Recorded(a: Allocator, c: Allocator) {
    forall x {:trigger c.blocks[x]} :: x in c.blocks ==> x in a.blocks && SameRecord(c.blocks[x], a.blocks[x])
  }

  // The loop over the quick list.
  // The items of `rest` are still to be returned.
  ghost predicate Returning(a: Allocator, c: Allocator, rest: seq<Item>) {
    && Ok(c, rest) && SameStatus(a, c) && (NoMarks(a) ==> NoMarks(c))
    && c == a.(qList := [], blocks := c.blocks, free := c.free) && Recorded(a, c)
    && Ok(Settled(a), a.qList) && Ok(Settled(c), rest) && AllReturned(Settled(a), a.qList) == AllReturned(Settled(c), rest)
  }

  lemma ReturnStep(a: Allocator, c: Allocator, rest: seq<Item>)
    requires Returning(a, c, rest) && rest != []
    ensures rest[0].block in c.blocks && Returning(a, Returned(c, rest[0]), rest[1..])
  {
    ReturnKeeps(c, rest);
    SettledReturned(c, rest);
    RecordedStep(a, c, rest);
  }

  method ReturnItems(a: Allocator) returns (c: Allocator)
    requires Valid(a)
    ensures Ok(Settled(a), a.qList) && Settled(c) == AllReturned(Settled(a), a.qList)
    ensures Ok(c, []) && SameStatus(a, c) && (NoMarks(a) ==> NoMarks(c))
    ensures c == a.(qList := [], blocks := c.blocks, free := c.free) && Recorded(a, c)
  {
    var item := a.qList;
    c := a.(qList := []);
    SameParts(a, c, item);
    SameParts(a, Settled(a), item);
    while item != []
      invariant Returning(a, c, item)
    {
      ReturnStep(a, c, item);
      c := Returned(c, item[0]);
      item := item[1..];
    }
  }

  lemma SettledReturned(a: Allocator, q: seq<Item>)
    requires Ok(a, q) && Ok(Settled(a), q) && q != [] && q[0].block in a.blocks
    ensures Ok(Settled(Returned(a, q[0])), q[1..])
    ensures AllReturned(Settled(a), q) == AllReturned(Settled(Returned(a, q[0])), q[1..])
  {
    ReturnKeeps(Settled(a), q);
    assert Settled(Returned(a, q[0])) == Returned(Settled(a), q[0]);
  }

  lemma RecordedStep(a: Allocator, c: Allocator, q: seq<Item>)
    requires Recorded(a, c) && q != [] && q[0].block in c.blocks
    ensures Recorded(a, Returned(c, q[0]))
  {
  }

  method CoalesceQuickList(a: Allocator) returns (c: Allocator, relinquished: nat)
    requires Valid(a)
    ensures Does(a, Reshape, c) && SameLive(a, c) && (NoMarks(a) ==> NoMarks(c))
    ensures c.qList == [] && c.qBudgetObtained == c.qBudget == c.itemsPerBlock
    ensures c.containsFinalizedObjects == a.containsFinalizedObjects
    ensures relinquished == (a.qBudgetObtained - a.itemsPerBlock) * a.itemSize
    ensures c.sweep == a.sweep && Recorded(a, c)
    ensures Ok(Settled(a), a.qList)
    ensures var r := AllReturned(Settled(a), a.qList);
            forall x :: x in c.blocks <==> x in r.blocks && !Releasable(r, x)
  {
    c := ReturnItems(a);
    ghost var was := c;
    relinquished := 0;
    if c.qBudgetObtained > c.itemsPerBlock {
      relinquished := (c.qBudgetObtained - c.itemsPerBlock) * c.itemSize;
      c := c.(qBudgetObtained := c.itemsPerBlock);
    }
    c := c.(qBudget := c.qBudgetObtained);
    assert c == Settled(was);
    SameParts(was, c, []);
    ghost var mid := c;
    c := ReleaseFree(c);
    Coalesced(a, was, mid, c);
  }

  lemma Coalesced(a: Allocator, was: Allocator, mid: Allocator, c: Allocator)
    requires Valid(a) && SameStatus(a, was) && Recorded(a, was) && mid == Settled(was) && SameStatus(mid, c)
    requires c == mid.(blocks := c.blocks, order := c.order, free := c.free) && Ok(c, [])
    requires was.itemsPerBlock == a.itemsPerBlock && was.itemSize == a.itemSize
    requires forall x :: x in c.blocks ==> x in mid.blocks && c.blocks[x] == mid.blocks[x]
    ensures Does(a, Reshape, c) && SameLive(a, c) && Recorded(a, c)
  {
    forall it ensures StatusOf(c, it) == StatusOf(a, it) {
      assert StatusOf(was, it) == StatusOf(a, it);
      assert StatusOf(mid, it) == StatusOf(was, it);
    }
    StatusLive(a, c);
  }

  lemma StatusLive(a: Allocator, c: Allocator)
    requires SameStatus(a, c)
    ensures SameLive(a, c)
  {
    forall it ensures Live(a, it) <==> Live(c, it) {
      assert StatusOf(c, it) == StatusOf(a, it);
    }
  }

  // Starting at the first block with free items, those with nothing else go back to the heap.
  method ReleaseFree(a: Allocator) returns (c: Allocator)
    requires Ok(a, [])
    ensures Ok(c, []) && SameStatus(a, c) && (NoMarks(a) ==> NoMarks(c))
    ensures c == a.(blocks := c.blocks, order := c.order, free := c.free)
    ensures forall x :: x in c.blocks ==> x in a.blocks && c.blocks[x] == a.blocks[x]
    ensures forall x :: x in c.blocks <==> x in a.blocks && !Releasable(a, x)
  {
    c := a;
    var rest := if c.free == [] then [] else From(c.order, c.free[0]);
    if c.free != [] {
      FromUnique(c.order, c.free[0]);
    }
    while rest != []
      invariant Ok(c, []) && SameStatus(a, c) && (NoMarks(a) ==> NoMarks(c))
      invariant c == a.(blocks := c.blocks, order := c.order, free := c.free)
      invariant Unique(rest) && forall x :: x in rest ==> x in c.blocks
      invariant forall x :: x in c.blocks ==> x in a.blocks && c.blocks[x] == a.blocks[x]
      invariant forall x :: x in c.blocks <==> x in a.blocks && !(Releasable(a, x) && x !in rest)
      invariant forall x :: x in rest ==> a.free != [] && x in From(a.order, a.free[0])
    {
      var x := rest[0];
      ghost var was := rest;
      rest := rest[1..];
      assert forall y :: y in was <==> y == x || y in rest;
      assert c.blocks[x] == a.blocks[x];
      if c.blocks[x].numFree == c.itemsPerBlock && !c.blocks[x].needsSweeping {
        ReleaseKeeps(c, [], x);
        c := Unlinked(c, x);
      }
    }
  }

  // ------------------------------------------------------------------ sweeping a block

  // What a sweep makes of a mark.
  function Swept(m: Bits): Bits {
    if m == Marked || m == Queued then Clear else Freed
  }

  method SweepGuts(b: Block, n: nat) returns (c: Block)
    requires BlockOk(b, n, {})
    ensures BlockOk(c, n, {}) && c == b.(bits := c.bits, firstFree := c.firstFree, numFree := c.numFree)
    ensures forall i :: 0 <= i < n ==> c.bits[i] == Swept(b.bits[i])
  {
    c := b;
    var i := 0;
    while i < n
      invariant i <= n && BlockOk(c, n, {})
      invariant c == b.(bits := c.bits, firstFree := c.firstFree, numFree := c.numFree)
      invariant forall k :: 0 <= k < n ==> c.bits[k] == if k < i then Swept(b.bits[k]) else b.bits[k]
    {
      ghost var was := c;
      assert ItemOk(c, {}, i);
      if c.bits[i] == Marked || c.bits[i] == Queued {
        c := c.(bits := c.bits[i := Clear]);
      } else if c.bits[i] != Freed {
        PushUnique(c.firstFree, i);
        c := PushFree(c.(bits := c.bits[i := Freed]), i);
      }
      forall k | 0 <= k < n ensures ItemOk(c, {}, k) {
        assert ItemOk(was, {}, k);
      }
      i := i + 1;
    }
  }

  // The block x of an allocator becomes b, which is on no list.
  function WithBlock(a: Allocator, x: nat, b: Block): Allocator {
    a.(blocks := a.blocks[x := b])
  }

  // x leaves the sweep list, and goes on the free list if it now has free items.
  function SweptAlloc(a: Allocator, x: nat, b: Block): Allocator {
    a.(blocks := a.blocks[x := b], sweep := Without(a.sweep, x), free := if b.numFree > 0 then [x] + a.free else a.free)
  }

  lemma SweptKeeps(a: Allocator, q: seq<Item>, x: nat, b: Block)
    requires Ok(a, q) && x in a.blocks && a.blocks[x].needsSweeping
    requires BlockOk(b, a.itemsPerBlock, {}) && !b.needsSweeping
    ensures Ok(SweptAlloc(a, x, b), q)
  {
    assert Sound(a, q, x);
    var r := SweptAlloc(a, x, b);
    WithoutUnique(a.sweep, x);
    PushUnique(a.free, x);
    forall y | y in r.blocks ensures Sound(r, q, y) {
      assert Sound(a, q, y);
    }
  }

  // Sweep; q is the quick list the caller has set aside.
  method Sweep(a: Allocator, x: nat, ghost q: seq<Item>) returns (c: Allocator, gone: bool)
    requires Ok(a, q) && a.qList == [] && x in a.blocks && a.blocks[x].needsSweeping
    ensures Ok(c, q) && BlockSwept(a, c, x) && SameLive(a, c) && (NoMarks(a) ==> NoMarks(c))
    ensures c == a.(blocks := c.blocks, order := c.order, free := c.free, sweep := Without(a.sweep, x))
    ensures gone <==> x !in c.blocks
    ensures forall y :: y in a.blocks && y != x ==> y in c.blocks && c.blocks[y] == a.blocks[y]
    ensures forall y :: y in c.blocks ==> y in a.blocks
    ensures !gone ==> !c.blocks[x].needsSweeping && Unmarked(c.blocks[x])
  {
    assert Sound(a, q, x);
    var n := a.itemsPerBlock;
    var b := SweepGuts(a.blocks[x], n);
    b := b.(needsSweeping := false);
    SweptBlock(a.blocks[x], b, n);
    SweptKeeps(a, q, x, b);
    c := SweptAlloc(a, x, b);
    SweptStatus(a, x, b, n);
    ghost var mid := c;
    gone := b.numFree == n;
    if gone {
      ReleaseKeeps(c, q, x);
      c := Unlinked(c, x);
    }
    SweptAndGone(a, mid, c, x);
  }

  lemma SweptBlock(b: Block, c: Block, n: nat)
    requires BlockOk(c.(needsSweeping := b.needsSweeping), n, {}) && |b.bits| == n && b.needsSweeping && !c.needsSweeping
    requires forall i :: 0 <= i < n ==> c.bits[i] == Swept(b.bits[i])
    ensures BlockOk(c, n, {}) && Unmarked(c)
  {
    forall i | 0 <= i < n ensures ItemOk(c, {}, i) {
      assert ItemOk(c.(needsSweeping := b.needsSweeping), {}, i);
    }
  }

  lemma SweptStatus(a: Allocator, x: nat, b: Block, n: nat)
    requires x in a.blocks && a.blocks[x].needsSweeping && Unmarked(b) && !b.needsSweeping
    requires |b.bits| == |a.blocks[x].bits| == n && b.finalizeState == a.blocks[x].finalizeState
    requires forall i :: 0 <= i < n ==> b.bits[i] == Swept(a.blocks[x].bits[i])
    ensures BlockSwept(a, SweptAlloc(a, x, b), x) && (NoMarks(a) ==> NoMarks(SweptAlloc(a, x, b)))
  {
  }

  lemma SweptAndGone(a: Allocator, mid: Allocator, c: Allocator, x: nat)
    requires BlockSwept(a, mid, x) && (c == mid || (SameStatus(mid, c) && c == Unlinked(mid, x)))
    ensures BlockSwept(a, c, x) && SameLive(a, c)
  {
    forall it ensures StatusOf(c, it) == if it.block == x then AfterSweep(StatusOf(a, it)) else StatusOf(a, it) {
      assert StatusOf(mid, it) == StatusOf(c, it);
    }
    forall it ensures Live(a, it) <==> Live(c, it) {
      assert StatusOf(c, it).Alive? <==> StatusOf(a, it).Alive?;
    }
  }

  // ------------------------------------------------------------------ allocating

  // Only the items of block x, and the quick list, may have become different.
  lemma QuickKeeps(a: Allocator, q: seq<Item>, c: Allocator, q': seq<Item>, x: nat)
    requires Ok(a, q) && x in a.blocks && Unique(q') && Unique(c.free) && Unique(c.sweep)
    requires c.itemsPerBlock == a.itemsPerBlock && c.order == a.order
    requires c.blocks.Keys == a.blocks.Keys && forall y :: y in a.blocks && y != x ==> c.blocks[y] == a.blocks[y]
    requires forall y :: y != x ==> (y in c.free <==> y in a.free) && (y in c.sweep <==> y in a.sweep)
    requires forall it: Item :: it.block != x ==> (it in q' <==> it in q)
    requires BlockOk(c.blocks[x], a.itemsPerBlock, OnQuick(q', x)) && ListsOk(c, q', x)
    ensures Ok(c, q')
  {
    forall y | y in c.blocks ensures Sound(c, q', y) {
      assert Sound(a, q, y);
      if y != x {
        assert OnQuick(q', y) == OnQuick(q, y) by {
          forall i ensures i in OnQuick(q', y) <==> i in OnQuick(q, y) {
            assert Item(y, i) in q' <==> Item(y, i) in q;
          }
        }
      }
    }
  }

  function ItemsOf(x: nat, list: seq<nat>): (r: seq<Item>)
    ensures |r| == |list|
  {
    seq(|list|, k requires 0 <= k < |list| => Item(x, list[k]))
  }

  lemma OnQuickItemsOf(x: nat, list: seq<nat>)
    requires Unique(list)
    ensures Unique(ItemsOf(x, list)) && forall i :: i in OnQuick(ItemsOf(x, list), x) <==> i in list
    ensures forall it :: it in ItemsOf(x, list) ==> it.block == x
  {
    var r := ItemsOf(x, list);
    forall i ensures i in OnQuick(r, x) <==> i in list {
      if i in list {
        var k :| 0 <= k < |list| && list[k] == i;
        assert r[k] == Item(x, i);
      }
      if i in OnQuick(r, x) {
        var k :| 0 <= k < |r| && r[k] == Item(x, i);
        assert list[k] == i;
      }
    }
  }

  // The quick list takes the free list of the first block that has one.  The budget for it
  // is always there: the list is empty, so all that was obtained is left.
  method FillQuickList(a: Allocator) returns (c: Allocator)
    requires Valid(a) && a.qList == [] && a.free != []
    ensures Does(a, Reshape, c) && SameLive(a, c) && (NoMarks(a) ==> NoMarks(c)) && c.qList != [] && c.qBudget >= 0
    ensures c == a.(blocks := c.blocks, free := Without(a.free, a.free[0]), qList := c.qList, qBudget := c.qBudget)
    ensures c.blocks.Keys == a.blocks.Keys
    ensures forall y :: y in a.blocks ==> SameRecord(c.blocks[y], a.blocks[y])
    ensures forall it :: it in c.qList ==> it.block == a.free[0]
  {
    var x := a.free[0];
    var b := a.blocks[x];
    assert Sound(a, [], x);
    FreeAtMost(b, a.itemsPerBlock, OnQuick([], x));
    assert a.qBudget >= b.numFree;
    OnQuickItemsOf(x, b.firstFree);
    c := a.(qList := ItemsOf(x, b.firstFree), qBudget := a.qBudget - b.numFree);
    var e := b.(numFree := 0, firstFree := []);
    c := RemoveFromFree(WithBlock(c, x, e), x);
    WithoutUnique(a.free, x);
    forall i | 0 <= i < a.itemsPerBlock ensures ItemOk(e, OnQuick(c.qList, x), i) {
      assert ItemOk(b, OnQuick([], x), i);
    }
    QuickKeeps(a, [], c, c.qList, x);
    BitsSame(a, c);
    StatusLive(a, c);
  }

  lemma FreeAtMost(b: Block, n: nat, q: set<nat>)
    requires BlockOk(b, n, q)
    ensures b.numFree <= n
  {
    var s := set i | i in b.firstFree;
    UniqueCard(b.firstFree);
    SubsetCard(s, Below(n));
  }

  // The first item of the quick list comes into use.
  method AllocFromQuickList(a: Allocator) returns (c: Allocator, item: Item)
    requires Valid(a) && a.qList != []
    ensures Does(a, Take(item, Clear), c) && !Live(a, item) && (NoMarks(a) ==> NoMarks(c))
    ensures forall it :: Live(c, it) <==> Live(a, it) || it == item
    ensures item == a.qList[0] && item.block in a.blocks && item.index < a.itemsPerBlock == |a.blocks[item.block].bits|
    ensures c == a.(qList := a.qList[1..], qBudget := a.qBudget + 1, blocks := a.blocks[item.block :=
                      a.blocks[item.block].(bits := a.blocks[item.block].bits[item.index := Clear])])
  {
    item := a.qList[0];
    var x, i := item.block, item.index;
    assert item in a.qList && i in OnQuick(a.qList, x);
    assert Sound(a, a.qList, x) && ItemOk(a.blocks[x], OnQuick(a.qList, x), i);
    var b := a.blocks[x];
    c := WithBlock(a.(qList := a.qList[1..], qBudget := a.qBudget + 1), x, b.(bits := b.bits[i := Clear]));
    TakenKeeps(a, c);
    BitChanged(a, c, item, Clear);
    TakeLive(a, c, item);
  }

  // The first item of the quick list is marked as in use.
  lemma TakenKeeps(a: Allocator, c: Allocator)
    requires Valid(a) && a.qList != [] && a.qList[0].block in a.blocks
    requires var x, i := a.qList[0].block, a.qList[0].index;
             && i < |a.blocks[x].bits| && c.qList == a.qList[1..] && c.blocks == a.blocks[x := a.blocks[x].(bits := a.blocks[x].bits[i := Clear])]
             && c == a.(qList := c.qList, qBudget := c.qBudget, blocks := c.blocks)
    ensures Ok(c, c.qList)
  {
    var x := a.qList[0].block;
    assert Sound(a, a.qList, x);
    OnQuickRest(a.qList, x);
    forall k | 0 <= k < a.itemsPerBlock ensures ItemOk(c.blocks[x], OnQuick(c.qList, x), k) {
      assert ItemOk(a.blocks[x], OnQuick(a.qList, x), k);
    }
    QuickKeeps(a, a.qList, c, c.qList, x);
  }

  lemma TakeLive(a: Allocator, c: Allocator, item: Item)
    requires OthersSame(a, c, item) && StatusOf(c, item).Alive?
    ensures forall it :: Live(c, it) <==> Live(a, it) || it == item
  {
    forall it ensures Live(c, it) <==> Live(a, it) || it == item {
      assert it != item ==> StatusOf(c, it) == StatusOf(a, it);
    }
  }

  // A block all of whose items are free.
  function FreshBlock(n: nat, finalizeState: bool): Block {
    Block(seq(n, i => Freed), seq(n, i => i), n, false, finalizeState)
  }

  lemma FreshOk(n: nat, finalizeState: bool, x: nat)
    ensures BlockOk(FreshBlock(n, finalizeState), n, OnQuick([], x)) && Unmarked(FreshBlock(n, finalizeState))
  {
    var b := FreshBlock(n, finalizeState);
    forall i | 0 <= i < n ensures ItemOk(b, OnQuick([], x), i) {
      assert b.firstFree[i] == i;
    }
  }

  method CreateChunk(a: Allocator, x: nat, finalizeState: bool) returns (c: Allocator)
    requires Valid(a) && a.qList == [] && x !in a.blocks
    ensures Does(a, NewChunk(x, finalizeState), c) && SameLive(a, c)
    ensures (NoMarks(a) ==> NoMarks(c)) && c.free == [x] + a.free
    ensures c == a.(blocks := c.blocks, order := a.order + [x], free := c.free)
    ensures c.blocks == a.blocks[x := FreshBlock(a.itemsPerBlock, finalizeState)]
  {
    var b := FreshBlock(a.itemsPerBlock, finalizeState);
    c := AddToFree(WithBlock(a, x, b).(order := a.order + [x]), x);
    PushUnique(a.order, x);
    PushUnique(a.free, x);
    FreshOk(a.itemsPerBlock, finalizeState, x);
    forall y | y in c.blocks ensures Sound(c, [], y) {
      if y != x {
        assert Sound(a, [], y);
      }
    }
    StatusLive(a, c);
  }

  // Until there is a block with free items: sweep one, or else get a new one.  `chunk` is
  // the block the heap gives, if it can; it may refuse only a caller that can fail.
  method FindFree(a: Allocator, mode: Mode, canFail: bool, chunk: Option<nat>)
      returns (c: Allocator, ghost via: seq<Allocator>, ghost acts: seq<Act>)
    requires Valid(a) && a.qList == [] && (chunk.None? ==> canFail) && (chunk.Some? ==> chunk.value !in a.blocks)
    ensures Leads(a, via, acts, c, mode) && Valid(c)
    ensures forall act :: act in acts ==> (act.SweepBlock? && !mode.collecting) || act.NewChunk?
    ensures SameLive(a, c) && (NoMarks(a) ==> NoMarks(c)) && c.qList == []
    ensures c == a.(blocks := c.blocks, order := c.order, free := c.free, sweep := c.sweep)
    ensures c.free == [] ==> canFail && chunk.None?
    ensures mode.collecting ==> c.sweep == a.sweep
  {
    c, via, acts := a, [a], [];
    while c.free == []
      invariant Leads(a, via, acts, c, mode) && Valid(c)
      invariant forall act :: act in acts ==> (act.SweepBlock? && !mode.collecting) || act.NewChunk?
      invariant SameLive(a, c) && (NoMarks(a) ==> NoMarks(c)) && c.qList == []
      invariant c == a.(blocks := c.blocks, order := c.order, free := c.free, sweep := c.sweep)
      invariant forall y :: y in c.blocks && c.free == [] ==> y in a.blocks
      invariant mode.collecting ==> c.sweep == a.sweep
      decreases |c.sweep|, |c.free| == 0
    {
      ghost var was := c;
      if c.sweep != [] && !mode.collecting {
        c := SweepFirst(c);
        MoreActs(a, via, acts, was, SweepBlock(was.sweep[0]), c, mode);
        via, acts := via + [c], acts + [SweepBlock(was.sweep[0])];
      } else {
        if chunk.None? {
          return;
        }
        c := CreateChunk(c, chunk.value, ChunkState(mode));
        MoreActs(a, via, acts, was, NewChunk(chunk.value, ChunkState(mode)), c, mode);
        via, acts := via + [c], acts + [NewChunk(chunk.value, ChunkState(mode))];
      }
    }
  }

  // Sweep(m_needsSweeping).
  method SweepFirst(a: Allocator) returns (c: Allocator)
    requires Valid(a) && a.qList == [] && a.sweep != []
    ensures Does(a, SweepBlock(a.sweep[0]), c) && SameLive(a, c) && (NoMarks(a) ==> NoMarks(c))
    ensures c == a.(blocks := c.blocks, order := c.order, free := c.free, sweep := c.sweep)
    ensures |c.sweep| < |a.sweep| && forall x :: x in c.blocks ==> x in a.blocks
  {
    assert a.sweep[0] in a.sweep;
    assert Sound(a, [], a.sweep[0]);
    WithoutShorter(a.sweep, a.sweep[0]);
    var gone;
    c, gone := Sweep(a, a.sweep[0], []);
  }

  lemma WithoutShorter<T(!new)>(xs: seq<T>, x: T)
    requires x in xs
    ensures |Without(xs, x)| < |xs|
  {
    if xs[0] != x {
      WithoutShorter(xs[1..], x);
    }
  }

  // The marker finds an item that is in use, or clears or changes its mark.
  method Mark(a: Allocator, it: Item, m: Bits) returns (c: Allocator)
    requires Valid(a) && it.block in a.blocks && it.index < a.itemsPerBlock && m != Freed
    requires !a.blocks[it.block].needsSweeping && Live(a, it)
    ensures Does(a, SetMark(it, m), c) && SameLive(a, c)
    ensures c == a.(blocks := a.blocks[it.block := a.blocks[it.block].(bits := c.blocks[it.block].bits)])
    ensures it.index < |a.blocks[it.block].bits|
    ensures c.blocks[it.block].bits == a.blocks[it.block].bits[it.index := m]
  {
    var b := a.blocks[it.block];
    ghost var q := OnQuick(a.qList, it.block);
    assert Sound(a, a.qList, it.block);
    c := WithBlock(a, it.block, b.(bits := b.bits[it.index := m]));
    forall k | 0 <= k < a.itemsPerBlock ensures ItemOk(c.blocks[it.block], q, k) {
      assert ItemOk(b, q, k);
    }
    QuickKeeps(a, a.qList, c, a.qList, it.block);
    BitChanged(a, c, it, m);
    TakeLive(a, c, it);
  }

  // What every allocation does.
  ghost predicate Allocated(a: Allocator, c: Allocator, item: Item) {
    && Valid(c) && c.itemSize == a.itemSize && c.itemsPerBlock == a.itemsPerBlock
    && !Live(a, item) && forall it :: Live(c, it) <==> Live(a, it) || it == item
  }

  // Blocks may be swept or new, and exactly the item that is returned has been taken.
  ghost predicate OneTaken(acts: seq<Act>, item: Option<Item>) {
    && (forall act :: act in acts ==>
          act.Reshape? || act.NewChunk? || act.SweepBlock? || (act.Take? && item == Some(act.it)))
    && (item.Some? ==> exists act :: act in acts && act.Take?)
  }

  // The new item is marked, if it has to be, and the rest of the quick list goes back.
  method EmptyQuickList(a: Allocator, item: Item, mark: bool)
    returns (c: Allocator, relinquished: nat, ghost marked: Allocator)
    requires Valid(a) && Live(a, item) && item.index < a.itemsPerBlock && !a.blocks[item.block].needsSweeping
    ensures if mark then Does(a, SetMark(item, Marked), marked) else marked == a
    ensures Does(marked, Reshape, c) && c.qList == [] && (NoMarks(a) && !mark ==> NoMarks(c))
    ensures relinquished == (a.qBudgetObtained - c.qBudgetObtained) * a.itemSize && c.qBudget >= 0
  {
    c := a;
    if mark {
      c := Mark(c, item, Marked);
    }
    marked := c;
    c, relinquished := CoalesceQuickList(c);
  }

  // The first item of the filled quick list; `taken` is where it has got its mark.
  method TakeFirst(a: Allocator, mode: Mode)
    returns (c: Allocator, item: Item, relinquished: nat, ghost taken: Allocator)
    requires Valid(a) && a.qList != []
    ensures item.block in a.blocks && Does(a, Take(item, TakenMark(a.blocks[item.block], mode)), taken)
    ensures Does(taken, Reshape, c)
    ensures NoMarks(a) && !mode.collecting ==> NoMarks(c)
    ensures mode.collecting ==> c.qList == []
    ensures relinquished == (a.qBudgetObtained - c.qBudgetObtained) * a.itemSize && (a.qBudget >= 0 ==> c.qBudget >= 0)
  {
    c, item := AllocFromQuickList(a);
    relinquished, taken := 0, c;
    if mode.collecting || mode.greedy {
      ghost var clear := c;
      var mark := mode.collecting && c.blocks[item.block].finalizeState != mode.finalizedValue;
      c, relinquished, taken := EmptyQuickList(c, item, mark);
      if mark {
        TakeMarked(a, clear, taken, item, Marked);
      }
    }
  }

  // The quick list is empty.  While collecting, or if the collector is greedy, it is left
  // so, and an item of a block still to be finalized is marked.
  method AllocSlow(a: Allocator, mode: Mode, canFail: bool, chunk: Option<nat>)
    returns (c: Allocator, item: Option<Item>, relinquished: nat,
             ghost via: seq<Allocator>, ghost acts: seq<Act>)
    requires Valid(a) && a.qList == []
    requires (chunk.None? ==> canFail) && (chunk.Some? ==> chunk.value !in a.blocks)
    ensures Leads(a, via, acts, c, mode) && OneTaken(acts, item)
    ensures Valid(c) && c.itemSize == a.itemSize && c.itemsPerBlock == a.itemsPerBlock
    ensures item.None? ==> SameLive(a, c) && canFail
    ensures item.Some? ==> Allocated(a, c, item.value)
    ensures NoMarks(a) && !mode.collecting ==> NoMarks(c)
    ensures mode.collecting ==> c.qList == []
    ensures relinquished == (a.qBudgetObtained - c.qBudgetObtained) * a.itemSize && (a.qBudget >= 0 ==> c.qBudget >= 0)
    ensures item.Some? && mode.collecting ==>
              item.value.block in c.blocks &&
              StatusOf(c, item.value) == Alive(TakenMark(c.blocks[item.value.block], mode))
  {
    c, via, acts := FindFree(a, mode, canFail, chunk);
    if c.free == [] {
      item, relinquished := None, 0;
      return;
    }
    c, item, relinquished, via, acts := TakeFree(c, mode, a, via, acts);
  }

  lemma SameBytes(f: Allocator, a: Allocator, c: Allocator, n: nat)
    requires n == (f.qBudgetObtained - c.qBudgetObtained) * f.itemSize
    requires f.qBudgetObtained == a.qBudgetObtained && f.itemSize == a.itemSize
    ensures n == (a.qBudgetObtained - c.qBudgetObtained) * a.itemSize
  {
  }

  method FillAndTake(a: Allocator, mode: Mode)
    returns (c: Allocator, item: Item, relinquished: nat,
             ghost filled: Allocator, ghost taken: Allocator)
    requires Valid(a) && a.qList == [] && a.free != []
    ensures Does(a, Reshape, filled) && item.block in filled.blocks && Does(taken, Reshape, c)
    ensures Does(filled, Take(item, TakenMark(filled.blocks[item.block], mode)), taken)
    ensures NoMarks(a) && !mode.collecting ==> NoMarks(c)
    ensures mode.collecting ==> c.qList == []
    ensures relinquished == (a.qBudgetObtained - c.qBudgetObtained) * a.itemSize && (a.qBudget >= 0 ==> c.qBudget >= 0)
  {
    var f := FillQuickList(a);
    filled := f;
    c, item, relinquished, taken := TakeFirst(f, mode);
    SameBytes(f, a, c, relinquished);
  }

  // The rest of AllocSlow, once b has a block with free items; acts lead there from a.
  method TakeFree(b: Allocator, mode: Mode, ghost a: Allocator,
                     ghost before: seq<Allocator>, ghost acts: seq<Act>)
    returns (c: Allocator, item: Option<Item>, relinquished: nat,
             ghost via: seq<Allocator>, ghost all: seq<Act>)
    requires Valid(b) && b.qList == [] && b.free != []
    requires Leads(a, before, acts, b, mode) && forall act :: act in acts ==> act.SweepBlock? || act.NewChunk?
    requires SameLive(a, b) && b.itemSize == a.itemSize && b.itemsPerBlock == a.itemsPerBlock
    ensures Leads(a, via, all, c, mode) && OneTaken(all, item)
    ensures item.Some? && Allocated(a, c, item.value)
    ensures NoMarks(b) && !mode.collecting ==> NoMarks(c)
    ensures mode.collecting ==> c.qList == []
    ensures relinquished == (b.qBudgetObtained - c.qBudgetObtained) * b.itemSize && (b.qBudget >= 0 ==> c.qBudget >= 0)
    ensures item.value.block in c.blocks
    ensures StatusOf(c, item.value) == Alive(TakenMark(c.blocks[item.value.block], mode))
  {
    var found;
    ghost var filled, taken;
    c, found, relinquished, filled, taken := FillAndTake(b, mode);
    item := Some(found);
    TakenLast(a, before, acts, b, filled, found, taken, c, mode);
    via, all := before + [filled, taken, c], acts + TakeActs(filled, found, mode);
  }

  ghost function TakeActs(filled: Allocator, item: Item, mode: Mode): seq<Act>
    requires item.block in filled.blocks
  {
    [Reshape, Take(item, TakenMark(filled.blocks[item.block], mode)), Reshape]
  }

  lemma TakenLast(a: Allocator, via: seq<Allocator>, acts: seq<Act>, b: Allocator,
                  filled: Allocator, item: Item, taken: Allocator, c: Allocator, mode: Mode)
    requires Leads(a, via, acts, b, mode) && forall act :: act in acts ==> act.SweepBlock? || act.NewChunk?
    requires Does(b, Reshape, filled) && item.block in filled.blocks && Does(taken, Reshape, c) && SameLive(a, b)
    requires Does(filled, Take(item, TakenMark(filled.blocks[item.block], mode)), taken)
    requires b.itemSize == a.itemSize && b.itemsPerBlock == a.itemsPerBlock
    ensures Leads(a, via + [filled, taken, c], acts + TakeActs(filled, item, mode), c, mode)
    ensures OneTaken(acts + TakeActs(filled, item, mode), Some(item))
    ensures StatusOf(c, item) == Alive(TakenMark(filled.blocks[item.block], mode))
    ensures item.block in c.blocks && c.blocks[item.block].finalizeState == filled.blocks[item.block].finalizeState
    ensures Allocated(a, c, item)
  {
    var act := Take(item, TakenMark(filled.blocks[item.block], mode));
    MoreActs(a, via, acts, b, Reshape, filled, mode);
    MoreActs(a, via + [filled], acts + [Reshape], filled, act, taken, mode);
    MoreActs(a, via + [filled] + [taken], acts + [Reshape] + [act], taken, Reshape, c, mode);
    assert via + [filled] + [taken] + [c] == via + [filled, taken, c];
    assert acts + [Reshape] + [act] + [Reshape] == acts + TakeActs(filled, item, mode);
    assert act in TakeActs(filled, item, mode);
    TakenLive(a, b, filled, item, taken, c, act.mark);
  }

  lemma TakenLive(a: Allocator, b: Allocator, filled: Allocator, item: Item,
                  taken: Allocator, c: Allocator, mark: Bits)
    requires SameLive(a, b) && Does(b, Reshape, filled) && Does(filled, Take(item, mark), taken) && Does(taken, Reshape, c)
    ensures StatusOf(c, item) == Alive(mark)
    ensures item.block in filled.blocks && item.block in c.blocks
    ensures c.blocks[item.block].finalizeState == filled.blocks[item.block].finalizeState
    ensures !Live(a, item) && forall it :: Live(c, it) <==> Live(a, it) || it == item
  {
    assert StatusOf(c, item) == StatusOf(taken, item);
    assert StatusOf(filled, item) == StatusOf(b, item);
    forall it ensures Live(c, it) <==> Live(a, it) || it == item {
      assert StatusOf(c, it) == StatusOf(taken, it);
      assert StatusOf(filled, it) == StatusOf(b, it);
      assert Live(a, it) <==> Live(b, it);
    }
  }

  method Alloc(a: Allocator, mode: Mode, canFail: bool, chunk: Option<nat>)
    returns (c: Allocator, item: Option<Item>, relinquished: nat,
             ghost via: seq<Allocator>, ghost acts: seq<Act>)
    requires Valid(a) && (mode.collecting ==> a.qList == [])
    requires (chunk.None? ==> canFail) && (chunk.Some? ==> chunk.value !in a.blocks)
    ensures Leads(a, via, acts, c, mode) && OneTaken(acts, item)
    ensures Valid(c) && c.itemSize == a.itemSize && c.itemsPerBlock == a.itemsPerBlock
    ensures item.None? ==> SameLive(a, c) && canFail && a.qList == []
    ensures item.Some? ==> Allocated(a, c, item.value)
    ensures NoMarks(a) && !mode.collecting ==> NoMarks(c)
    ensures mode.collecting ==> c.qList == []
    ensures relinquished == (a.qBudgetObtained - c.qBudgetObtained) * a.itemSize && (a.qBudget >= 0 ==> c.qBudget >= 0)
  {
    if a.qList == [] {
      c, item, relinquished, via, acts := AllocSlow(a, mode, canFail, chunk);
    } else {
      var found;
      c, found := AllocFromQuickList(a);
      item, relinquished := Some(found), 0;
      via, acts := [a, c], [Take(found, Clear)];
      assert acts[0] == Take(found, Clear);
    }
  }

  // ------------------------------------------------------------------ explicit free

  // An item on the mark stack, or any item between marking and the end of the sweep, may
  // not be freed.
  function Refused(a: Allocator, it: Item, marking: bool, collecting: bool): bool
    requires it.block in a.blocks && it.index < |a.blocks[it.block].bits|
  {
    marking && (collecting || a.blocks[it.block].bits[it.index] == Queued)
  }

  ghost predicate Gone(a: Allocator, c: Allocator, item: Item) {
    forall it {:trigger Live(c, it)} :: Live(c, it) <==> Live(a, it) && it != item
  }

  // The item is free; if its block awaited a sweep, it has been swept as well.
  ghost predicate FreeActs(a: Allocator, it: Item, c: Allocator)
    requires it.block in a.blocks && it.index < |a.blocks[it.block].bits|
  {
    if a.blocks[it.block].needsSweeping then
      Does(a, GiveBack(it), FreedHere(a, it)) && Does(FreedHere(a, it), SweepBlock(it.block), c)
    else
      Does(a, GiveBack(it), c)
  }

  // exhausted: more budget is needed.
  method Free(a: Allocator, it: Item, marking: bool, collecting: bool) returns (c: Allocator, exhausted: bool)
    requires Valid(a) && it.block in a.blocks && it.index < |a.blocks[it.block].bits|
    requires a.blocks[it.block].bits[it.index] != Freed
    ensures Valid(c) && c.itemSize == a.itemSize && c.itemsPerBlock == a.itemsPerBlock
    ensures Refused(a, it, marking, collecting) ==> c == a && !exhausted
    ensures !Refused(a, it, marking, collecting) ==> Gone(a, c, it) && FreeActs(a, it, c)
    ensures c.qList == if Refused(a, it, marking, collecting) || a.blocks[it.block].needsSweeping then a.qList
                       else [it] + a.qList
    ensures NoMarks(a) ==> NoMarks(c)
    ensures c.qBudgetObtained == a.qBudgetObtained && (exhausted ==> c.qBudget == a.qBudget - 1)
    ensures !exhausted ==> c.qBudget == a.qBudget || c.qBudget > 0
  {
    c, exhausted := a, false;
    if marking && (collecting || a.blocks[it.block].bits[it.index] == Queued) {
      return;
    }
    if a.blocks[it.block].needsSweeping {
      c := FreeUnswept(a, it);
    } else {
      c := FreeToQuickList(a, it);
      exhausted := c.qBudget <= 0;
    }
  }

  method FreeToQuickList(a: Allocator, it: Item) returns (c: Allocator)
    requires Valid(a) && it.block in a.blocks && it.index < |a.blocks[it.block].bits|
    requires a.blocks[it.block].bits[it.index] != Freed && !a.blocks[it.block].needsSweeping
    ensures Does(a, GiveBack(it), c) && Gone(a, c, it) && (NoMarks(a) ==> NoMarks(c))
    ensures c == a.(blocks := c.blocks, qList := [it] + a.qList, qBudget := a.qBudget - 1)
  {
    var x, i := it.block, it.index;
    var b := a.blocks[x];
    assert Sound(a, a.qList, x) && ItemOk(b, OnQuick(a.qList, x), i);
    InQuick(a.qList, it);
    c := WithBlock(a.(qList := [it] + a.qList, qBudget := a.qBudget - 1), x, b.(bits := b.bits[i := Freed]));
    PushedKeeps(a, it, c);
    BitChanged(a, c, it, Freed);
    GiveBackLive(a, c, it);
  }

  // The item is marked as free and comes first on the quick list.
  lemma PushedKeeps(a: Allocator, it: Item, c: Allocator)
    requires Valid(a) && it.block in a.blocks && it.index < |a.blocks[it.block].bits| && it !in a.qList
    requires a.blocks[it.block].bits[it.index] != Freed && !a.blocks[it.block].needsSweeping
    requires var b := a.blocks[it.block];
             && c.qList == [it] + a.qList && c.blocks == a.blocks[it.block := b.(bits := b.bits[it.index := Freed])]
             && c == a.(qList := c.qList, qBudget := c.qBudget, blocks := c.blocks)
    ensures Ok(c, c.qList)
  {
    var x, i := it.block, it.index;
    assert Sound(a, a.qList, x);
    PushUnique(a.qList, it);
    assert c.qList[1..] == a.qList;
    OnQuickRest(c.qList, x);
    assert OnQuick(c.qList, x) == OnQuick(a.qList, x) + {i} by {
      assert Item(x, i) == c.qList[0];
    }
    forall k | 0 <= k < a.itemsPerBlock ensures ItemOk(c.blocks[x], OnQuick(c.qList, x), k) {
      assert ItemOk(a.blocks[x], OnQuick(a.qList, x), k);
    }
    QuickKeeps(a, a.qList, c, c.qList, x);
  }

  lemma GiveBackLive(a: Allocator, c: Allocator, it: Item)
    requires OthersSame(a, c, it) && StatusOf(c, it) == Vacant
    ensures Gone(a, c, it)
  {
    forall k ensures Live(c, k) <==> Live(a, k) && k != it {
      assert k != it ==> StatusOf(c, k) == StatusOf(a, k);
    }
  }

  // The item is freed where it is.
  function FreedHere(a: Allocator, it: Item): Allocator
    requires it.block in a.blocks && it.index < |a.blocks[it.block].bits|
  {
    var b := a.blocks[it.block];
    WithBlock(a, it.block, PushFree(b.(bits := b.bits[it.index := Freed]), it.index))
  }

  lemma FreedHereKeeps(a: Allocator, it: Item)
    requires Valid(a) && it.block in a.blocks && it.index < |a.blocks[it.block].bits|
    requires a.blocks[it.block].bits[it.index] != Freed && a.blocks[it.block].needsSweeping
    ensures Does(a, GiveBack(it), FreedHere(a, it)) && Gone(a, FreedHere(a, it), it)
    ensures NoMarks(a) ==> NoMarks(FreedHere(a, it))
  {
    var x, i := it.block, it.index;
    var b := a.blocks[x];
    assert Sound(a, a.qList, x) && ItemOk(b, OnQuick(a.qList, x), i);
    var c := FreedHere(a, it);
    PushUnique(b.firstFree, i);
    forall k | 0 <= k < a.itemsPerBlock ensures ItemOk(c.blocks[x], OnQuick(a.qList, x), k) {
      assert ItemOk(b, OnQuick(a.qList, x), k);
    }
    QuickKeeps(a, a.qList, c, a.qList, x);
    BitChanged(a, c, it, Freed);
    GiveBackLive(a, c, it);
  }

  // None of the items of an unswept block is on the quick list, so the item goes on the
  // block's own list and the block is swept.
  method FreeUnswept(a: Allocator, it: Item) returns (c: Allocator)
    requires Valid(a) && it.block in a.blocks && it.index < |a.blocks[it.block].bits|
    requires a.blocks[it.block].bits[it.index] != Freed && a.blocks[it.block].needsSweeping
    ensures FreeActs(a, it, c) && Gone(a, c, it) && (NoMarks(a) ==> NoMarks(c))
    ensures c == a.(blocks := c.blocks, order := c.order, free := c.free, sweep := c.sweep)
  {
    FreedHereKeeps(a, it);
    ghost var t := FreedHere(a, it);
    var b := a.blocks[it.block];
    b := b.(bits := b.bits[it.index := Freed]);
    c := WithBlock(a, it.block, PushFree(b, it.index));
    var qList := c.qList;
    c := c.(qList := []);
    SameParts(t, c, qList);
    ghost var u := c;
    var gone;
    c, gone := Sweep(c, it.block, qList);
    ghost var v := c;
    c := c.(qList := qList);
    UnsweptFreed(a, it, u, v, c);
  }

  // The block was swept with the quick list put aside.
  lemma UnsweptFreed(a: Allocator, it: Item, u: Allocator, v: Allocator, c: Allocator)
    requires Valid(a) && it.block in a.blocks && it.index < |a.blocks[it.block].bits| && a.blocks[it.block].needsSweeping
    requires Does(a, GiveBack(it), FreedHere(a, it)) && Gone(a, FreedHere(a, it), it)
    requires u == FreedHere(a, it).(qList := []) && c == v.(qList := a.qList)
    requires v == u.(blocks := v.blocks, order := v.order, free := v.free, sweep := v.sweep)
    requires Ok(v, a.qList) && BlockSwept(u, v, it.block)
    ensures FreeActs(a, it, c) && Gone(a, c, it)
  {
    var t := FreedHere(a, it);
    SameParts(v, c, a.qList);
    QuickAside(t, u, v, c, it.block);
    GoneOn(a, t, c, it);
  }

  lemma GoneOn(a: Allocator, t: Allocator, c: Allocator, it: Item)
    requires Gone(a, t, it) && SameLive(t, c)
    ensures Gone(a, c, it)
  {
    forall k ensures Live(c, k) <==> Live(a, k) && k != it {
      assert Live(t, k) <==> Live(a, k) && k != it;
    }
  }

  // Setting the quick list aside while a block is swept changes nothing.
  lemma QuickAside(t: Allocator, u: Allocator, v: Allocator, c: Allocator, x: nat)
    requires u == t.(qList := []) && c == v.(qList := t.qList) && BlockSwept(u, v, x)
    ensures BlockSwept(t, c, x) && SameLive(t, c)
  {
    forall it ensures StatusOf(c, it) == if it.block == x then AfterSweep(StatusOf(t, it)) else StatusOf(t, it) {
      assert StatusOf(u, it) == StatusOf(t, it) && StatusOf(v, it) == StatusOf(c, it);
    }
    forall it ensures Live(t, it) <==> Live(c, it) {
      assert StatusOf(c, it).Alive? <==> StatusOf(t, it).Alive?;
    }
  }

  // ------------------------------------------------------------------ finalization

  // The collector is done marking: every item in use is marked or it is dead.
  ghost predicate MarkedIn(a: Allocator, it: Item) {
    it.block in a.blocks && it.index < |a.blocks[it.block].bits| && a.blocks[it.block].bits[it.index] == Marked
  }

  ghost predicate ReadyToFinalize(a: Allocator) {
    && Valid(a) && a.qList == [] && a.sweep == []
    && forall x {:trigger a.blocks[x]} :: x in a.blocks ==>
         !a.blocks[x].needsSweeping && forall i :: 0 <= i < |a.blocks[x].bits| ==> a.blocks[x].bits[i] != Queued
  }

  function CountOf(bits: seq<Bits>, m: Bits, n: nat): (r: nat)
    requires n <= |bits|
    ensures r <= n
  {
    if n == 0 then 0 else CountOf(bits, m, n - 1) + if bits[n - 1] == m then 1 else 0
  }

  lemma {:induction false} CountsAddUp(bits: seq<Bits>, n: nat)
    requires n <= |bits|
    ensures CountOf(bits, Clear, n) + CountOf(bits, Marked, n) + CountOf(bits, Queued, n) + CountOf(bits, Freed, n) == n
  {
    if n > 0 {
      CountsAddUp(bits, n - 1);
    }
  }

  lemma {:induction false} CountZero(bits: seq<Bits>, m: Bits, n: nat)
    requires n <= |bits|
    ensures CountOf(bits, m, n) == 0 <==> forall i :: 0 <= i < n ==> bits[i] != m
  {
    if n > 0 {
      CountZero(bits, m, n - 1);
    }
  }

  ghost function Indices(bits: seq<Bits>, m: Bits, n: nat): (r: set<nat>)
    requires n <= |bits|
    ensures forall i :: i in r <==> 0 <= i < n && bits[i] == m
    ensures |r| == CountOf(bits, m, n)
  {
    if n == 0 then {} else if bits[n - 1] == m then Indices(bits, m, n - 1) + {n - 1} else Indices(bits, m, n - 1)
  }

  // The items with the free bits are those on the free list and those on the quick list.
  lemma FreedCount(b: Block, n: nat, q: set<nat>)
    requires BlockOk(b, n, q)
    ensures CountOf(b.bits, Freed, n) == b.numFree + |q|
  {
    var s := set i | i in b.firstFree;
    UniqueCard(b.firstFree);
    forall i ensures i in Indices(b.bits, Freed, n) <==> i in s + q {
      if 0 <= i < n {
        assert ItemOk(b, q, i);
      }
    }
    assert Indices(b.bits, Freed, n) == s + q;
    forall i | i in s ensures i !in q {
      assert ItemOk(b, q, i);
    }
    assert s * q == {};
  }

  // The test the finalizer uses: as many marked items as there are items not free, exactly
  // when nothing in the block died.
  lemma NothingDied(b: Block, n: nat)
    requires BlockOk(b, n, {}) && forall i :: 0 <= i < n ==> b.bits[i] != Queued
    ensures CountOf(b.bits, Marked, n) == n - b.numFree <==>
            forall i :: 0 <= i < n ==> (b.bits[i] != Freed ==> b.bits[i] == Marked)
  {
    FreedCount(b, n, {});
    CountsAddUp(b.bits, n);
    CountZero(b.bits, Queued, n);
    CountZero(b.bits, Clear, n);
  }

  method CountMarked(b: Block, n: nat) returns (numMarkedItems: nat)
    requires n <= |b.bits|
    ensures numMarkedItems == CountOf(b.bits, Marked, n)
  {
    numMarkedItems := 0;
    var i := 0;
    while i < n
      invariant i <= n && numMarkedItems == CountOf(b.bits, Marked, i)
    {
      if b.bits[i] == Marked {
        numMarkedItems := numMarkedItems + 1;
      }
      i := i + 1;
    }
  }

  // ClearMarks(block): all bits are cleared, then those of the block's free list are set.
  method ClearBlockMarks(b: Block, n: nat) returns (c: Block)
    requires BlockOk(b, n, {})
    ensures BlockOk(c, n, {}) && c == b.(bits := c.bits)
    ensures forall i :: 0 <= i < n ==> c.bits[i] == if b.bits[i] == Freed then Freed else Clear
  {
    c := b.(bits := seq(|b.bits|, i => Clear));
    var k := 0;
    while k < |b.firstFree|
      invariant k <= |b.firstFree| && c == b.(bits := c.bits) && |c.bits| == n
      invariant forall i :: 0 <= i < n ==> c.bits[i] == if i in b.firstFree[..k] then Freed else Clear
    {
      assert b.firstFree[k] in b.firstFree;
      assert b.firstFree[..k + 1] == b.firstFree[..k] + [b.firstFree[k]];
      c := c.(bits := c.bits[b.firstFree[k] := Freed]);
      k := k + 1;
    }
    assert b.firstFree[..k] == b.firstFree;
    forall i | 0 <= i < n ensures ItemOk(c, {}, i) && c.bits[i] == if b.bits[i] == Freed then Freed else Clear {
      assert ItemOk(b, {}, i);
    }
  }

  ghost predicate VacantStays(a: Allocator, c: Allocator) {
    forall it {:trigger StatusOf(a, it)} {:trigger StatusOf(c, it)} ::
      StatusOf(a, it) == Vacant ==> StatusOf(c, it) == Vacant
  }

  lemma VacantTransitive(a: Allocator, b: Allocator, c: Allocator)
    requires VacantStays(a, b) && VacantStays(b, c)
    ensures VacantStays(a, c)
  {
    forall it | StatusOf(a, it) == Vacant ensures StatusOf(c, it) == Vacant {
      assert StatusOf(b, it) == Vacant;
    }
  }

  // The items of block x that are not marked are gone, and the marks with them.
  ghost predicate BlockFinalized(a: Allocator, c: Allocator, x: nat, finalizedValue: bool) {
    && Ok(c, []) && c == a.(blocks := c.blocks, order := c.order, free := c.free, sweep := c.sweep)
    && (forall it {:trigger Live(c, it)} :: Live(c, it) <==> Live(a, it) && (it.block == x ==> MarkedIn(a, it)))
    && VacantStays(a, c)
    && (forall y :: y in a.blocks && y != x ==> y in c.blocks && c.blocks[y] == a.blocks[y])
    && (forall y :: y in c.blocks ==> y in a.blocks)
    && (x in c.blocks ==> Unmarked(c.blocks[x]) && c.blocks[x].finalizeState == finalizedValue)
    && (forall y :: y in c.sweep ==> y in a.sweep || y == x)
  }

  method FinalizeBlock(a: Allocator, x: nat, finalizedValue: bool) returns (c: Allocator, empty: bool)
    requires Ok(a, []) && x in a.blocks && !a.blocks[x].needsSweeping
    requires forall i :: 0 <= i < |a.blocks[x].bits| ==> a.blocks[x].bits[i] != Queued
    ensures BlockFinalized(a, c, x, finalizedValue) && (empty <==> x !in c.blocks)
    ensures empty ==> forall i: nat :: !MarkedIn(a, Item(x, i))
  {
    var n := a.itemsPerBlock;
    var b := a.blocks[x];
    assert Sound(a, [], x);
    var putOnFreeList := x in a.free;
    c := if putOnFreeList then RemoveFromFree(a, x) else a;
    var numMarkedItems := CountMarked(b, n);
    CountZero(b.bits, Marked, n);
    assert OnQuick([], x) == {};
    NothingDied(b, n);
    empty := numMarkedItems == 0;
    if empty {
      UnlinkKeeps(a, [], x);
      c := Unlinked(a, x);
      AllDead(a, x, finalizedValue);
      return;
    }
    if numMarkedItems == n - b.numFree {
      b := ClearBlockMarks(b, n);
    } else {
      b := b.(needsSweeping := true);
      c := c.(sweep := [x] + c.sweep);
      putOnFreeList := false;
    }
    b := b.(finalizeState := finalizedValue);
    c := WithBlock(c, x, b);
    if putOnFreeList {
      c := AddToFree(c, x);
    }
    FinalizedKeeps(a, c, x, finalizedValue);
  }

  lemma AllDead(a: Allocator, x: nat, finalizedValue: bool)
    requires x in a.blocks && Ok(Unlinked(a, x), []) && !a.blocks[x].needsSweeping && x !in a.sweep
    requires forall i :: 0 <= i < |a.blocks[x].bits| ==> a.blocks[x].bits[i] != Marked
    ensures BlockFinalized(a, Unlinked(a, x), x, finalizedValue)
    ensures forall i: nat :: !MarkedIn(a, Item(x, i))
  {
  }

  // Block x of a, without queued items, becomes that of c: either nothing in it died and its
  // marks are cleared, or it is put on the sweep list as it is.
  ghost predicate PassedOver(a: Allocator, c: Allocator, x: nat, finalizedValue: bool) {
    && Ok(a, []) && x in a.blocks && !a.blocks[x].needsSweeping && x in c.blocks
    && c == a.(blocks := a.blocks[x := c.blocks[x]], free := c.free, sweep := c.sweep)
    && var b := a.blocks[x];
       var e := c.blocks[x];
       && e == b.(bits := e.bits, needsSweeping := e.needsSweeping, finalizeState := finalizedValue)
       && |e.bits| == |b.bits| && (forall i :: 0 <= i < |b.bits| ==> (e.bits[i] == Freed <==> b.bits[i] == Freed))
       && (if e.needsSweeping then c.free == (if x in a.free then Without(a.free, x) else a.free) && c.sweep == [x] + a.sweep
           else c.sweep == a.sweep && c.free == if x in a.free then [x] + Without(a.free, x) else a.free)
       && (if e.needsSweeping then e.bits == b.bits
           else forall i :: 0 <= i < |b.bits| ==> (b.bits[i] == Marked && e.bits[i] == Clear) || b.bits[i] == Freed)
       && forall i :: 0 <= i < |b.bits| ==> b.bits[i] != Queued
  }

  lemma PassedOverOk(a: Allocator, c: Allocator, x: nat, finalizedValue: bool)
    requires PassedOver(a, c, x, finalizedValue)
    ensures Ok(c, []) && forall y :: y in c.sweep ==> y in a.sweep || y == x
  {
    WithoutUnique(a.free, x);
    assert Sound(a, [], x);
    PushUnique(Without(a.free, x), x);
    PushUnique(a.sweep, x);
    forall i | 0 <= i < a.itemsPerBlock ensures ItemOk(c.blocks[x], OnQuick([], x), i) {
      assert ItemOk(a.blocks[x], OnQuick([], x), i);
    }
    QuickKeeps(a, [], c, [], x);
  }

  lemma FinalizedKeeps(a: Allocator, c: Allocator, x: nat, finalizedValue: bool)
    requires PassedOver(a, c, x, finalizedValue)
    ensures BlockFinalized(a, c, x, finalizedValue)
  {
    PassedOverOk(a, c, x, finalizedValue);
  }

  // Finalize, for allocators of finalized objects: blocks without a marked item go, those
  // where nothing died keep their place, the others await sweeping.
  method FinalizationPass(a: Allocator, finalizedValue: bool) returns (c: Allocator, empties: seq<nat>)
    requires ReadyToFinalize(a)
    ensures Finalized(a, c, finalizedValue)
    ensures forall x :: x in a.blocks ==> (x in c.blocks <==> x !in empties)
    ensures forall x, i: nat :: x in empties ==> !MarkedIn(a, Item(x, i))
  {
    c, empties := a, [];
    var p := 0;
    while p < |a.order|
      invariant p <= |a.order| && FinalizedTo(a, c, p, finalizedValue)
      invariant forall x :: x in a.blocks ==> (x in c.blocks <==> x !in empties)
      invariant forall x, i: nat :: x in empties ==> !MarkedIn(a, Item(x, i))
    {
      var x := a.order[p];
      var empty;
      ghost var was := c;
      assert x in a.order && x in a.blocks;
      assert StillThere(a, c, p, p);
      c, empty := FinalizeBlock(c, x, finalizedValue);
      if empty {
        empties := empties + [x];
      }
      FinalizedStep(a, was, c, p, p + 1, finalizedValue);
      p := p + 1;
    }
    FinalizedAll(a, c, finalizedValue);
  }

  // What finalization of an allocator comes to: exactly the marked items are still alive.
  ghost predicate Finalized(a: Allocator, c: Allocator, finalizedValue: bool) {
    && Valid(c) && c == a.(blocks := c.blocks, order := c.order, free := c.free, sweep := c.sweep)
    && (forall it {:trigger Live(c, it)} :: Live(c, it) <==> Live(a, it) && MarkedIn(a, it))
    && VacantStays(a, c)
    && NoMarks(c)
    && (forall x {:trigger c.blocks[x]} :: x in c.blocks ==> x in a.blocks && c.blocks[x].finalizeState == finalizedValue)
  }

  ghost predicate StillThere(a: Allocator, c: Allocator, p: nat, k: nat) {
    p <= k < |a.order| ==> a.order[k] in c.blocks && a.order[k] in a.blocks && c.blocks[a.order[k]] == a.blocks[a.order[k]]
  }

  // Block x is among the first p.
  ghost predicate Passed(a: Allocator, p: nat, x: nat) {
    exists k :: 0 <= k < p && k < |a.order| && a.order[k] == x
  }

  ghost predicate FinalizedTo(a: Allocator, c: Allocator, p: nat, finalizedValue: bool) {
    && Ok(c, []) && c == a.(blocks := c.blocks, order := c.order, free := c.free, sweep := c.sweep)
    && (forall it {:trigger Live(c, it)} :: Live(c, it) <==> Live(a, it) && (Passed(a, p, it.block) ==> MarkedIn(a, it)))
    && VacantStays(a, c)
    && (forall k {:trigger StillThere(a, c, p, k)} :: StillThere(a, c, p, k))
    && (forall x {:trigger c.blocks[x]} :: x in c.blocks ==> x in a.blocks)
    && (forall x {:trigger Passed(a, p, x)} :: x in c.blocks && Passed(a, p, x) ==>
          Unmarked(c.blocks[x]) && c.blocks[x].finalizeState == finalizedValue)
  }

  lemma FinalizedStep(a: Allocator, c: Allocator, d: Allocator, p: nat, p': nat, finalizedValue: bool)
    requires Unique(a.order) && p < |a.order| && FinalizedTo(a, c, p, finalizedValue) && p' == p + 1
    requires BlockFinalized(c, d, a.order[p], finalizedValue)
    ensures FinalizedTo(a, d, p', finalizedValue)
  {
    var x := a.order[p];
    VacantTransitive(a, c, d);
    assert StillThere(a, c, p, p);
    forall y ensures Passed(a, p', y) <==> Passed(a, p, y) || y == x {
      assert a.order[p] == x;
    }
    assert !Passed(a, p, x);
    forall k ensures StillThere(a, d, p', k) {
      assert StillThere(a, c, p, k);
    }
    forall it ensures Live(d, it) <==> Live(a, it) && (Passed(a, p', it.block) ==> MarkedIn(a, it)) {
      assert Live(c, it) <==> Live(a, it) && (Passed(a, p, it.block) ==> MarkedIn(a, it));
    }
    forall y | y in d.blocks && Passed(a, p', y)
      ensures Unmarked(d.blocks[y]) && d.blocks[y].finalizeState == finalizedValue
    {
      if y != x {
        assert Passed(a, p, y);
      }
    }
  }

  lemma FinalizedAll(a: Allocator, c: Allocator, finalizedValue: bool)
    requires Valid(a) && a.qList == [] && FinalizedTo(a, c, |a.order|, finalizedValue)
    ensures Finalized(a, c, finalizedValue)
  {
    forall x | x in a.blocks ensures Passed(a, |a.order|, x) {
      assert x in a.order;
    }
    forall it ensures Live(c, it) <==> Live(a, it) && MarkedIn(a, it) {
      if Live(a, it) {
        assert Passed(a, |a.order|, it.block);
      }
    }
    forall x | x in c.blocks ensures Unmarked(c.blocks[x]) && c.blocks[x].finalizeState == finalizedValue {
      assert Passed(a, |a.order|, x);
    }
  }

  method LazyBlock(a: Allocator, x: nat, finalizedValue: bool) returns (c: Allocator)
    requires Ok(a, []) && x in a.blocks && !a.blocks[x].needsSweeping
    requires forall i :: 0 <= i < |a.blocks[x].bits| ==> a.blocks[x].bits[i] != Queued
    ensures BlockFinalized(a, c, x, finalizedValue)
    ensures c.order == a.order && c.blocks.Keys == a.blocks.Keys && c.sweep == [x] + a.sweep
  {
    assert Sound(a, [], x);
    c := if x in a.free then RemoveFromFree(a, x) else a;
    c := c.(sweep := [x] + c.sweep);
    c := WithBlock(c, x, c.blocks[x].(needsSweeping := true, finalizeState := finalizedValue));
    FinalizedKeeps(a, c, x, finalizedValue);
  }

  // Finalize, for the other allocators: every block awaits sweeping.
  method LazySweepPass(a: Allocator, finalizedValue: bool) returns (c: Allocator)
    requires ReadyToFinalize(a)
    ensures Finalized(a, c, finalizedValue) && c.order == a.order
    ensures forall x :: x in a.order ==> x in c.sweep
  {
    c := a;
    var p := 0;
    while p < |a.order|
      invariant p <= |a.order| && FinalizedTo(a, c, p, finalizedValue) && c.order == a.order && c.blocks.Keys == a.blocks.Keys
      invariant forall k :: 0 <= k < p ==> a.order[k] in c.sweep
    {
      var x := a.order[p];
      ghost var was := c;
      assert x in a.order && x in a.blocks;
      assert StillThere(a, c, p, p);
      c := LazyBlock(c, x, finalizedValue);
      FinalizedStep(a, was, c, p, p + 1, finalizedValue);
      p := p + 1;
    }
    FinalizedAll(a, c, finalizedValue);
  }

  method Finalize(a: Allocator, finalizedValue: bool) returns (c: Allocator, empties: seq<nat>)
    requires ReadyToFinalize(a)
    ensures Finalized(a, c, finalizedValue)
  {
    if a.containsFinalizedObjects {
      c, empties := FinalizationPass(a, finalizedValue);
    } else {
      c := LazySweepPass(a, finalizedValue);
      empties := [];
    }
  }

  // ------------------------------------------------------------------ before the next marking

  ghost predicate NoneMarked(a: Allocator) {
    forall it {:trigger MarkedIn(a, it)} :: !MarkedIn(a, it)
  }

  // What is left of the lazy sweeping.  Afterwards no item is marked (CheckMarks).
  method SweepNeedsSweeping(a: Allocator, ghost mode: Mode)
      returns (c: Allocator, ghost via: seq<Allocator>, ghost acts: seq<Act>)
    requires Valid(a) && a.qList == []
    ensures Leads(a, via, acts, c, mode) && forall act :: act in acts ==> act.SweepBlock?
    ensures Valid(c) && SameLive(a, c) && c.sweep == []
    ensures c == a.(blocks := c.blocks, order := c.order, free := c.free, sweep := c.sweep)
    ensures NoMarks(a) ==> ReadyToFinalize(c) && NoneMarked(c)
  {
    c, via, acts := a, [a], [];
    while c.sweep != []
      invariant Leads(a, via, acts, c, mode) && forall act :: act in acts ==> act.SweepBlock?
      invariant Valid(c) && SameLive(a, c) && (NoMarks(a) ==> NoMarks(c))
      invariant c == a.(blocks := c.blocks, order := c.order, free := c.free, sweep := c.sweep)
      decreases |c.sweep|
    {
      ghost var was := c;
      c := SweepFirst(c);
      MoreActs(a, via, acts, was, SweepBlock(was.sweep[0]), c, mode);
      via, acts := via + [c], acts + [SweepBlock(was.sweep[0])];
    }
    forall x | x in c.blocks ensures !c.blocks[x].needsSweeping {
      assert Sound(c, [], x);
    }
  }

  // How many items are in use or await sweeping.
  function InUseOf(a: Allocator, order: seq<nat>): nat
    requires forall x :: x in order ==> x in a.blocks && |a.blocks[x].bits| == a.itemsPerBlock
  {
    if order == [] then 0
    else InUseOf(a, order[..|order| - 1]) +
         (a.itemsPerBlock - CountOf(a.blocks[order[|order| - 1]].bits, Freed, a.itemsPerBlock))
  }

  // Of the quick list, what is in the blocks listed.
  ghost function QuickIn(q: seq<Item>, order: seq<nat>): set<Item> {
    set it | it in q && it.block in order
  }

  lemma QuickInStep(q: seq<Item>, order: seq<nat>, x: nat)
    requires x !in order
    ensures |QuickIn(q, order + [x])| == |QuickIn(q, order)| + |OnQuick(q, x)|
  {
    var here := set it | it in q && it.block == x;
    assert QuickIn(q, order + [x]) == QuickIn(q, order) + here;
    SameCard(here, OnQuick(q, x), x);
  }

  lemma {:induction false} SameCard(s: set<Item>, t: set<nat>, x: nat)
    requires forall it :: it in s <==> it.block == x && it.index in t
    ensures |s| == |t|
    decreases |s|
  {
    if s != {} {
      var it :| it in s;
      SameCard(s - {it}, t - {it.index}, x);
    } else {
      assert forall i :: i in t ==> Item(x, i) in s;
      assert t == {};
    }
  }

  // GetAllocStats counts exactly the items that are not free.
  method GetAllocStats(a: Allocator) returns (numAlloc: int, maxAlloc: int)
    requires Valid(a)
    ensures forall x :: x in a.order ==> x in a.blocks && |a.blocks[x].bits| == a.itemsPerBlock
    ensures maxAlloc == |a.order| && numAlloc == InUseOf(a, a.order)
  {
    forall x | x in a.order ensures x in a.blocks && |a.blocks[x].bits| == a.itemsPerBlock {
      assert Sound(a, a.qList, x);
    }
    numAlloc, maxAlloc := 0, 0;
    var p := 0;
    while p < |a.order|
      invariant p <= |a.order| && maxAlloc == p
      invariant numAlloc == InUseOf(a, a.order[..p]) + |QuickIn(a.qList, a.order[..p])|
    {
      var x := a.order[p];
      assert a.order[..p + 1] == a.order[..p] + [x];
      assert x !in a.order[..p];
      assert x in a.order && Sound(a, a.qList, x);
      FreedCount(a.blocks[x], a.itemsPerBlock, OnQuick(a.qList, x));
      QuickInStep(a.qList, a.order[..p], x);
      maxAlloc := maxAlloc + 1;
      numAlloc := numAlloc + (a.itemsPerBlock - a.blocks[x].numFree);
      p := p + 1;
    }
    assert a.order[..p] == a.order;
    assert QuickIn(a.qList, a.order) == set it | it in a.qList;
    UniqueCard(a.qList);
    numAlloc := numAlloc - (a.qBudgetObtained - a.qBudget);
  }

  // ------------------------------------------------------------------ clearing all marks

  method ClearMarks(a: Allocator) returns (c: Allocator)
    requires Valid(a) && a.qList == []
    ensures Valid(c) && SameLive(a, c) && NoMarks(c) && c.sweep == []
  {
    c := a;
    var p := 0;
    while p < |a.order|
      invariant p <= |a.order| && Valid(c) && c.qList == [] && SameLive(a, c)
      invariant forall k {:trigger StillThere(a, c, p, k)} :: StillThere(a, c, p, k)
      invariant forall x :: x in c.blocks ==> x in a.blocks && (c.blocks[x].needsSweeping ==> a.blocks[x].needsSweeping)
      invariant forall x {:trigger Passed(a, p, x)} :: x in c.blocks && Passed(a, p, x) ==>
                  !c.blocks[x].needsSweeping && Unmarked(c.blocks[x])
    {
      var x := a.order[p];
      ghost var was := c;
      assert x in a.order && StillThere(a, c, p, p);
      assert Sound(c, [], x);
      c := ClearOne(c, x);
      ClearStep(a, was, c, p, p + 1);
      p := p + 1;
    }
    forall x | x in c.blocks ensures !c.blocks[x].needsSweeping && Unmarked(c.blocks[x]) {
      assert x in a.order;
      assert Passed(a, p, x);
    }
    assert forall x :: x in c.sweep ==> Sound(c, [], x);
    FirstIn(c.sweep);
  }

  lemma FirstIn<T>(xs: seq<T>)
    ensures xs == [] || xs[0] in xs
  {
  }

  // Only block x is different, if it is still there, and it has no marks.
  ghost predicate Cleared(c: Allocator, d: Allocator, x: nat) {
    && Valid(d) && d.qList == [] && SameLive(c, d)
    && (forall y :: y in c.blocks && y != x ==> y in d.blocks && d.blocks[y] == c.blocks[y])
    && (forall y :: y in d.blocks ==> y in c.blocks)
    && (x in d.blocks ==> !d.blocks[x].needsSweeping && Unmarked(d.blocks[x]))
  }

  method ClearOne(c: Allocator, x: nat) returns (d: Allocator)
    requires Valid(c) && c.qList == [] && x in c.blocks
    ensures Cleared(c, d, x)
  {
    d := c;
    if c.blocks[x].needsSweeping {
      var gone;
      d, gone := Sweep(c, x, []);
      if gone {
        return;
      }
    }
    ghost var was := d;
    d := ClearSwept(d, x);
    forall it ensures Live(c, it) <==> Live(d, it) {
      assert Live(c, it) <==> Live(was, it);
    }
  }

  method ClearSwept(c: Allocator, x: nat) returns (d: Allocator)
    requires Valid(c) && c.qList == [] && x in c.blocks && !c.blocks[x].needsSweeping
    ensures Cleared(c, d, x) && d.blocks.Keys == c.blocks.Keys
  {
    assert Sound(c, [], x);
    assert OnQuick([], x) == {};
    var b := ClearBlockMarks(c.blocks[x], c.itemsPerBlock);
    d := WithBlock(c, x, b);
    QuickKeeps(c, [], d, [], x);
    forall it ensures Live(c, it) <==> Live(d, it) {
    }
  }

  lemma ClearStep(a: Allocator, c: Allocator, d: Allocator, p: nat, p': nat)
    requires Unique(a.order) && p < |a.order| && p' == p + 1 && SameLive(a, c) && Cleared(c, d, a.order[p])
    requires forall k {:trigger StillThere(a, c, p, k)} :: StillThere(a, c, p, k)
    requires forall x {:trigger Passed(a, p, x)} :: x in c.blocks && Passed(a, p, x) ==>
               !c.blocks[x].needsSweeping && Unmarked(c.blocks[x])
    ensures SameLive(a, d)
    ensures forall k {:trigger StillThere(a, d, p', k)} :: StillThere(a, d, p', k)
    ensures forall x {:trigger Passed(a, p', x)} :: x in d.blocks && Passed(a, p', x) ==>
              !d.blocks[x].needsSweeping && Unmarked(d.blocks[x])
  {
    forall it ensures Live(a, it) <==> Live(d, it) {
      assert Live(a, it) <==> Live(c, it);
    }
    forall k ensures StillThere(a, d, p', k) {
      assert StillThere(a, c, p, k);
    }
    forall x | x in d.blocks && Passed(a, p', x) ensures !d.blocks[x].needsSweeping && Unmarked(d.blocks[x]) {
      if x != a.order[p] {
        assert Passed(a, p, x);
      }
    }
  }
}
