/**
 What an item of a small-object block is at the moment, and what each primitive act of the
 allocator (MMgc/GCAlloc.cpp) makes of every item.
 */
module ItemStatus {
  import opened SmallBlocks

  // Garbage is in use, but its block awaits a sweep that will free it.
  datatype Status = Vacant | Garbage | Alive(mark: Bits)

  function StatusOf(a: Allocator, it: Item): (r: Status)
    ensures r.Alive? <==> Live(a, it)
  {
    if !(it.block in a.blocks && it.index < |a.blocks[it.block].bits|) then Vacant
    else
      var b := a.blocks[it.block];
      var m := b.bits[it.index];
      if m == Freed then Vacant else if b.needsSweeping && m == Clear then Garbage else Alive(m)
  }

  ghost predicate SameStatus(a: Allocator, c: Allocator) {
    forall it {:trigger StatusOf(a, it)} {:trigger StatusOf(c, it)} :: StatusOf(c, it) == StatusOf(a, it)
  }

  ghost predicate OthersSame(a: Allocator, c: Allocator, item: Item) {
    forall it {:trigger StatusOf(a, it)} {:trigger StatusOf(c, it)} :: it != item ==> StatusOf(c, it) == StatusOf(a, it)
  }

  // What a sweep makes of an item of the block.
  function AfterSweep(s: Status): Status {
    if s.Alive? then Alive(Clear) else Vacant
  }

  ghost predicate StatusSwept(a: Allocator, c: Allocator, x: nat) {
    forall it {:trigger StatusOf(a, it)} {:trigger StatusOf(c, it)} ::
      StatusOf(c, it) == if it.block == x then AfterSweep(StatusOf(a, it)) else StatusOf(a, it)
  }

  ghost predicate SameFlags(b: Block, c: Block) {
    c.finalizeState == b.finalizeState && c.needsSweeping == b.needsSweeping
  }

  // No block is new, and besides x those that remain stand as they did.
  ghost predicate BlocksKept(a: Allocator, c: Allocator, except: set<nat>) {
    forall x {:trigger c.blocks[x]} :: x in c.blocks ==>
      x in a.blocks && (x !in except ==> SameFlags(a.blocks[x], c.blocks[x]))
  }

  // The block x, which awaited its sweep, has been swept, and is gone if nothing in it is alive.
  ghost predicate BlockSwept(a: Allocator, c: Allocator, x: nat) {
    && x in a.blocks && a.blocks[x].needsSweeping && StatusSwept(a, c, x) && BlocksKept(a, c, {x})
    && (x in c.blocks ==> c.blocks[x].finalizeState == a.blocks[x].finalizeState && !c.blocks[x].needsSweeping)
  }

  datatype Act =
    | Reshape                                // quick list, free lists and budget
    | NewChunk(x: nat, finalizeState: bool)
    | Take(it: Item, mark: Bits)             // an item is handed to the program
    | GiveBack(it: Item)                     // explicit free
    | SweepBlock(x: nat)
    | SetMark(it: Item, mark: Bits)

  ghost predicate Does(a: Allocator, act: Act, c: Allocator) {
    && Valid(a) && Valid(c) && c.itemsPerBlock == a.itemsPerBlock && c.itemSize == a.itemSize
    && match act
       case Reshape => SameStatus(a, c) && BlocksKept(a, c, {})
       case NewChunk(x, finalizeState) =>
         && SameStatus(a, c) && x !in a.blocks && x in c.blocks
         && SameFlags(Block([], [], 0, false, finalizeState), c.blocks[x])
         && BlocksKept(a.(blocks := a.blocks[x := c.blocks[x]]), c, {})
       case Take(it, mark) =>
         && it.block in a.blocks && !a.blocks[it.block].needsSweeping
         && StatusOf(a, it) == Vacant && StatusOf(c, it) == Alive(mark)
         && OthersSame(a, c, it) && BlocksKept(a, c, {})
       case GiveBack(it) =>
         StatusOf(a, it) != Vacant && StatusOf(c, it) == Vacant && OthersSame(a, c, it) && BlocksKept(a, c, {})
       case SweepBlock(x) => BlockSwept(a, c, x)
       case SetMark(it, mark) =>
         && it.block in a.blocks && !a.blocks[it.block].needsSweeping
         && StatusOf(a, it).Alive? && StatusOf(c, it) == Alive(mark) && OthersSame(a, c, it) && BlocksKept(a, c, {})
  }

  // Only the bits of one item, and free lists, are different.
  lemma BitChanged(a: Allocator, c: Allocator, it: Item, m: Bits)
    requires it.block in a.blocks && it.index < |a.blocks[it.block].bits| && it.block in c.blocks
    requires c.blocks == a.blocks[it.block := c.blocks[it.block]]
    requires SameFlags(a.blocks[it.block], c.blocks[it.block])
    requires c.blocks[it.block].bits == a.blocks[it.block].bits[it.index := m]
    ensures OthersSame(a, c, it) && BlocksKept(a, c, {})
    ensures StatusOf(c, it) == if m == Freed then Vacant
                               else if a.blocks[it.block].needsSweeping && m == Clear then Garbage else Alive(m)
  {
  }

  lemma BitsSame(a: Allocator, c: Allocator)
    requires c.blocks.Keys == a.blocks.Keys
    requires forall x :: x in a.blocks ==> SameFlags(a.blocks[x], c.blocks[x]) && c.blocks[x].bits == a.blocks[x].bits
    ensures SameStatus(a, c) && BlocksKept(a, c, {})
  {
  }

  // How the collector and the allocator stand: collecting is set from the end of marking to
  // the end of finalization, finalizedValue tells the blocks already finalized from the
  // others, and finalized is the allocator's own m_finalized.
  datatype Mode = Mode(collecting: bool, greedy: bool, finalizedValue: bool, finalized: bool)

  // What a new block is set to.
  function ChunkState(mode: Mode): bool {
    if mode.collecting && mode.finalized then mode.finalizedValue else !mode.finalizedValue
  }

  // The mark an item of block b is handed out with.
  function TakenMark(b: Block, mode: Mode): Bits {
    if mode.collecting && b.finalizeState != mode.finalizedValue then Marked else Clear
  }

  ghost predicate Proper(a: Allocator, act: Act, mode: Mode) {
    match act
    case NewChunk(_, finalizeState) => finalizeState == ChunkState(mode)
    case Take(it, mark) => it.block in a.blocks && mark == TakenMark(a.blocks[it.block], mode)
    case _ => true
  }

  // The values `via` lead from a to c, one act at a time.
  ghost predicate Leads(a: Allocator, via: seq<Allocator>, acts: seq<Act>, c: Allocator, mode: Mode) {
    && |via| == |acts| + 1 && via[0] == a && via[|acts|] == c
    && forall i {:trigger ActAt(via, acts, i, mode)} :: 0 <= i < |acts| ==> ActAt(via, acts, i, mode)
  }

  ghost predicate ActAt(via: seq<Allocator>, acts: seq<Act>, i: nat, mode: Mode)
    requires |via| == |acts| + 1 && i < |acts|
  {
    Does(via[i], acts[i], via[i + 1]) && Proper(via[i], acts[i], mode)
  }

  lemma MoreActs(a: Allocator, via: seq<Allocator>, acts: seq<Act>, b: Allocator, act: Act, c: Allocator, mode: Mode)
    requires Leads(a, via, acts, b, mode) && Does(b, act, c) && Proper(b, act, mode)
    ensures Leads(a, via + [c], acts + [act], c, mode)
  {
    forall i | 0 <= i < |acts| + 1 ensures ActAt(via + [c], acts + [act], i, mode) {
      if i < |acts| {
        assert ActAt(via, acts, i, mode);
      }
    }
  }

  // Marking the item just taken.
  lemma TakeMarked(a: Allocator, b: Allocator, c: Allocator, it: Item, mark: Bits)
    requires Does(a, Take(it, Clear), b) && Does(b, SetMark(it, mark), c)
    ensures Does(a, Take(it, mark), c)
  {
    forall k | k != it ensures StatusOf(c, k) == StatusOf(a, k) {
      assert StatusOf(b, k) == StatusOf(a, k);
    }
  }
}
