/**
 FixedAlloc by itself, without threads (MMgc/FixedAlloc-inlines.h:148-279,
 MMgc/FixedAlloc.cpp:181-286): its operations in place, against the steps of FixedBlocks.
 */
module FixedAllocator {
  import opened Sets
  import opened FixedBlocks

  class FixedAlloc {
    const itemsPerBlock: nat
    var blocks: map<nat, Block>
    var order: seq<nat>       // m_firstBlock to m_lastBlock
    var free: seq<nat>        // from m_firstFree
    ghost var used: set<Item>

    ghost function P(): Pool
      reads this
    {
      Pool(blocks, order, free)
    }

    ghost predicate Valid()
      reads this
    {
      Ok(P(), used, itemsPerBlock) && NoneEmpty(P())
    }

    constructor (itemsPerBlock: nat)
      requires itemsPerBlock > 0
      ensures Valid() && used == {} && this.itemsPerBlock == itemsPerBlock
    {
      this.itemsPerBlock := itemsPerBlock;
      blocks, order, free, used := map[], [], [], {};
    }

    method CreateChunk(x: nat)
      requires x !in blocks
      modifies `blocks, `order, `free
      ensures P() == Listed(Linked(old(P()), x), x)
    {
      blocks := blocks[x := Block([], 0, 0)];
      order := order + [x];
      free := [x] + free;
    }

    method FreeChunk(x: nat)
      requires x in blocks && blocks[x].numAlloc == 0
      modifies `blocks, `order, `free
      ensures P() == UnlinkIfEmpty(old(P()), x)
    {
      order := Without(order, x);
      free := Without(free, x);
      blocks := blocks - {x};
    }

    // An item nobody has, or none when the heap gives no block to a caller that can fail.
    // chunk is the block the heap gives, if it is asked and does.
    method Alloc(canFail: bool, gives: bool, chunk: nat) returns (found: bool, item: Item)
      requires Valid() && (gives || canFail) && chunk !in blocks
      modifies this
      ensures Valid() && (found ==> item !in old(used) && item.index < itemsPerBlock && used == old(used) + {item})
      ensures !found ==> canFail && old(free) == [] && P() == old(P()) && used == old(used)
    {
      item := Item(0, 0);
      if free == [] {
        if !gives {
          return false, item;
        }
        ChunkKeeps(P(), used, itemsPerBlock, chunk);
        CreateChunk(chunk);
      }
      ghost var p := P();
      AllocKeeps(p, used, itemsPerBlock);
      AllocNoneEmpty(p, itemsPerBlock);
      item := TakeItem();
      used := used + {item};
      found := true;
    }

    method TakeItem() returns (item: Item)
      requires free != [] && free[0] in blocks
      modifies `blocks, `free
      ensures item == old(AllocItem(P(), free[0], itemsPerBlock))
      ensures P() == old(AllocFrom(P(), free[0], itemsPerBlock))
    {
      var x := free[0];
      var b := blocks[x];
      b := b.(numAlloc := b.numAlloc + 1);
      if b.firstFree != [] {
        item := Item(x, b.firstFree[0]);
        b := b.(firstFree := b.firstFree[1..]);
      } else {
        item := Item(x, b.nextItem);
        if b.numAlloc != itemsPerBlock {
          b := b.(nextItem := b.nextItem + 1);
        } else {
          b := b.(nextItem := itemsPerBlock);
        }
      }
      blocks := blocks[x := b];
      if b.numAlloc == itemsPerBlock {
        free := free[1..];
      }
    }

    method Free(item: Item)
      requires Valid() && item in used
      modifies this
      ensures Valid() && used == old(used) - {item}
      ensures P() == FreeFrom(old(P()), item, itemsPerBlock)
    {
      FreeKeeps(P(), used, itemsPerBlock, item);
      GiveBack(item);
      used := used - {item};
    }

    method GiveBack(item: Item)
      requires item.block in blocks
      modifies `blocks, `order, `free
      ensures P() == FreeFrom(old(P()), item, itemsPerBlock)
    {
      ghost var p := P();
      var x := item.block;
      var b := blocks[x];
      b := b.(firstFree := [item.index] + b.firstFree);
      if b.numAlloc == itemsPerBlock {
        free := [x] + free;
      }
      b := b.(numAlloc := if b.numAlloc > 0 then b.numAlloc - 1 else 0);
      blocks := blocks[x := b];
      assert P() == Lower(Relist(Push(p, item), x, itemsPerBlock), x);
      if b.numAlloc == 0 {
        FreeChunk(x);
      }
    }
  }
}
