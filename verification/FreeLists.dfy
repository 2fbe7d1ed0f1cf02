/**
 The segregated free lists of the block manager: circular doubly linked lists threaded
 through the HeapBlock array, one list head per size class (MMgc/GCHeap.h:993,
 MMgc/GCHeap-inlines.h:398-415, MMgc/GCHeap.cpp:1772-1782).

 links[b] holds the prev and next fields of the b-th HeapBlock.
 */
module FreeLists {

  const UNIQUE_THRESHOLD: nat := 16
  const HUGE_THRESHOLD: nat := 128
  const COMPRESSION: nat := 8
  const NUM_LISTS: nat := (HUGE_THRESHOLD - UNIQUE_THRESHOLD) / COMPRESSION + UNIQUE_THRESHOLD

  // GetFreeListIndex
  function ListIndex(size: nat): (i: nat)
    requires size > 0
    ensures i < NUM_LISTS
  {
    if size <= UNIQUE_THRESHOLD then size - 1
    else if size >= HUGE_THRESHOLD then NUM_LISTS - 1
    else (size - UNIQUE_THRESHOLD) / COMPRESSION + UNIQUE_THRESHOLD - 1
  }

  lemma ListIndexMonotone(a: nat, b: nat)
    requires 0 < a <= b
    ensures ListIndex(a) <= ListIndex(b)
  {
    if UNIQUE_THRESHOLD < a && b < HUGE_THRESHOLD {
      assert (a - UNIQUE_THRESHOLD) / COMPRESSION <= (b - UNIQUE_THRESHOLD) / COMPRESSION;
    }
  }

  // Below the threshold every list holds blocks of a single size.
  lemma SmallListsUniform(a: nat, b: nat)
    requires 0 < a && 0 < b && ListIndex(a) == ListIndex(b) && a < UNIQUE_THRESHOLD
    ensures a == b
  {
  }

  datatype Link = Null | ListHead(i: nat) | Entry(b: nat)
  datatype Links = Links(prev: Link, next: Link)

  type Lists = seq<seq<nat>>

  // The link at position k of list i; both ends of a list are its head.
  function At(list: seq<nat>, i: nat, k: int): Link {
    if 0 <= k < |list| then Entry(list[k]) else ListHead(i)
  }

  ghost predicate NodeOk(links: seq<Links>, list: seq<nat>, i: nat, k: nat)
    requires k < |list|
  {
    list[k] < |links| && links[list[k]] == Links(At(list, i, k - 1), At(list, i, k + 1))
  }

  ghost predicate Ring(links: seq<Links>, heads: seq<Links>, list: seq<nat>, i: nat) {
    && i < |heads|
    && heads[i] == Links(At(list, i, |list| - 1), At(list, i, 0))
    && (forall k {:trigger NodeOk(links, list, i, k)} :: 0 <= k < |list| ==> NodeOk(links, list, i, k))
  }

  ghost predicate OnList(lists: Lists, b: nat) {
    exists i, k :: 0 <= i < |lists| && 0 <= k < |lists[i]| && lists[i][k] == b
  }

  // The two places of the lists hold the same block only if they are the same place.
  ghost predicate Apart(lists: Lists, i: nat, k: nat, j: nat, m: nat)
    requires i < |lists| && k < |lists[i]| && j < |lists| && m < |lists[j]|
  {
    lists[i][k] == lists[j][m] ==> i == j && k == m
  }

  ghost predicate Distinct(lists: Lists) {
    forall i, k, j, m {:trigger Apart(lists, i, k, j, m)} ::
      0 <= i < |lists| && 0 <= k < |lists[i]| && 0 <= j < |lists| && 0 <= m < |lists[j]| ==> Apart(lists, i, k, j, m)
  }

  // Every list is a ring, no block is on two lists or twice on one, and exactly the
  // blocks with non-NULL links are on a list.
  ghost predicate Rings(links: seq<Links>, heads: seq<Links>, lists: Lists) {
    && |heads| == |lists| == NUM_LISTS
    && (forall i {:trigger Ring(links, heads, lists[i], i)} :: 0 <= i < NUM_LISTS ==> Ring(links, heads, lists[i], i))
    && Distinct(lists)
    && (forall b {:trigger OnList(lists, b)} :: 0 <= b < |links| && !links[b].prev.Null? ==> OnList(lists, b))
    && (forall b :: 0 <= b < |links| && links[b].prev.Null? ==> links[b].next.Null?)
  }

  function SetNext(links: seq<Links>, l: Link, v: Link): (r: seq<Links>)
    requires l.Entry? ==> l.b < |links|
    ensures |r| == |links|
  {
    if l.Entry? then links[l.b := links[l.b].(next := v)] else links
  }

  function SetPrev(links: seq<Links>, l: Link, v: Link): (r: seq<Links>)
    requires l.Entry? ==> l.b < |links|
    ensures |r| == |links|
  {
    if l.Entry? then links[l.b := links[l.b].(prev := v)] else links
  }

  function SetHeadNext(heads: seq<Links>, l: Link, v: Link): (r: seq<Links>)
    requires l.ListHead? ==> l.i < |heads|
    ensures |r| == |heads|
  {
    if l.ListHead? then heads[l.i := heads[l.i].(next := v)] else heads
  }

  function SetHeadPrev(heads: seq<Links>, l: Link, v: Link): (r: seq<Links>)
    requires l.ListHead? ==> l.i < |heads|
    ensures |r| == |heads|
  {
    if l.ListHead? then heads[l.i := heads[l.i].(prev := v)] else heads
  }

  // ------------------------------------------------------------------ removal

  function Without(list: seq<nat>, k: nat): seq<nat>
    requires k < |list|
  {
    list[..k] + list[k + 1..]
  }

  function With(list: seq<nat>, k: nat, b: nat): seq<nat>
    requires k <= |list|
  {
    list[..k] + [b] + list[k..]
  }

  // RemoveFromList, on the links.
  function Unlinked(links: seq<Links>, b: nat): seq<Links>
    requires b < |links|
    requires links[b].prev.Entry? ==> links[b].prev.b < |links|
    requires links[b].next.Entry? ==> links[b].next.b < |links|
  {
    SetPrev(SetNext(links, links[b].prev, links[b].next), links[b].next, links[b].prev)[b := Links(Null, Null)]
  }

  function UnlinkedHeads(links: seq<Links>, heads: seq<Links>, b: nat): seq<Links>
    requires b < |links|
    requires links[b].prev.ListHead? ==> links[b].prev.i < |heads|
    requires links[b].next.ListHead? ==> links[b].next.i < |heads|
  {
    SetHeadPrev(SetHeadNext(heads, links[b].prev, links[b].next), links[b].next, links[b].prev)
  }

  lemma Position(links: seq<Links>, heads: seq<Links>, lists: Lists, b: nat) returns (i: nat, k: nat)
    requires Rings(links, heads, lists) && b < |links| && !links[b].prev.Null?
    ensures i < NUM_LISTS && k < |lists[i]| && lists[i][k] == b
    ensures NodeOk(links, lists[i], i, k)
  {
    assert OnList(lists, b);
    i, k :| 0 <= i < |lists| && 0 <= k < |lists[i]| && lists[i][k] == b;
    assert Ring(links, heads, lists[i], i);
    assert NodeOk(links, lists[i], i, k);
  }

  // The neighbours of a node are nodes or the head of its list.
  lemma Neighbours(links: seq<Links>, heads: seq<Links>, lists: Lists, i: nat, k: nat)
    requires Rings(links, heads, lists) && i < NUM_LISTS && k < |lists[i]|
    ensures NodeOk(links, lists[i], i, k)
    ensures 0 < k ==> NodeOk(links, lists[i], i, k - 1)
    ensures k + 1 < |lists[i]| ==> NodeOk(links, lists[i], i, k + 1)
    ensures Ring(links, heads, lists[i], i)
  {
    assert Ring(links, heads, lists[i], i);
    assert NodeOk(links, lists[i], i, k);
    if 0 < k {
      assert NodeOk(links, lists[i], i, k - 1);
    }
    if k + 1 < |lists[i]| {
      assert NodeOk(links, lists[i], i, k + 1);
    }
  }

  // The links of a block other than the removed one and its neighbours do not change.
  lemma UnlinkedFrame(links: seq<Links>, list: seq<nat>, i: nat, k: nat, c: nat)
    requires k < |list| && NodeOk(links, list, i, k) && c < |links|
    requires 0 < k ==> list[k - 1] < |links|
    requires k + 1 < |list| ==> list[k + 1] < |links|
    ensures c != list[k] && (0 < k ==> c != list[k - 1]) ==> Unlinked(links, list[k])[c].next == links[c].next
    ensures c != list[k] && (k + 1 < |list| ==> c != list[k + 1]) ==> Unlinked(links, list[k])[c].prev == links[c].prev
    ensures c != list[k] && 0 < k && c == list[k - 1] ==> Unlinked(links, list[k])[c].next == At(list, i, k + 1)
    ensures c != list[k] && k + 1 < |list| && c == list[k + 1] ==> Unlinked(links, list[k])[c].prev == At(list, i, k - 1)
    ensures c == list[k] ==> Unlinked(links, list[k])[c] == Links(Null, Null)
  {
  }

  lemma UnlinkNode(links: seq<Links>, heads: seq<Links>, lists: Lists, i: nat, k: nat, j: nat, m: nat)
    requires Rings(links, heads, lists) && i < NUM_LISTS && j < NUM_LISTS && k < |lists[i]|
    requires m < |if j == i then Without(lists[i], k) else lists[j]|
    ensures NodeOk(links, lists[i], i, k)
    ensures 0 < k ==> NodeOk(links, lists[i], i, k - 1)
    ensures k + 1 < |lists[i]| ==> NodeOk(links, lists[i], i, k + 1)
    ensures NodeOk(Unlinked(links, lists[i][k]), if j == i then Without(lists[i], k) else lists[j], j, m)
  {
    var m' := if j == i && m >= k then m + 1 else m;
    Neighbours(links, heads, lists, i, k);
    Neighbours(links, heads, lists, j, m');
    assert Apart(lists, i, k, j, m');
    if 0 < k {
      assert Apart(lists, i, k - 1, j, m');
    }
    if k + 1 < |lists[i]| {
      assert Apart(lists, i, k + 1, j, m');
    }
    UnlinkedFrame(links, lists[i], i, k, lists[j][m']);
  }

  // Removing a block removes it from its list and leaves every other list as it was.
  lemma UnlinkKeepsRings(links: seq<Links>, heads: seq<Links>, lists: Lists, i: nat, k: nat)
    requires Rings(links, heads, lists) && i < NUM_LISTS && k < |lists[i]|
    ensures NodeOk(links, lists[i], i, k)
    ensures 0 < k ==> NodeOk(links, lists[i], i, k - 1)
    ensures k + 1 < |lists[i]| ==> NodeOk(links, lists[i], i, k + 1)
    ensures Rings(Unlinked(links, lists[i][k]), UnlinkedHeads(links, heads, lists[i][k]),
                  lists[i := Without(lists[i], k)])
  {
    Neighbours(links, heads, lists, i, k);
    var b := lists[i][k];
    var r := Unlinked(links, b);
    var heads' := UnlinkedHeads(links, heads, b);
    var lists' := lists[i := Without(lists[i], k)];
    forall j | 0 <= j < NUM_LISTS ensures Ring(r, heads', lists'[j], j) {
      assert Ring(links, heads, lists[j], j);
      forall m | 0 <= m < |lists'[j]| ensures NodeOk(r, lists'[j], j, m) {
        UnlinkNode(links, heads, lists, i, k, j, m);
      }
    }
    UnlinkDistinct(lists, i, k);
    forall c | 0 <= c < |r| && !r[c].prev.Null? ensures OnList(lists', c) {
      UnlinkedFrame(links, lists[i], i, k, c);
      var j, m := Position(links, heads, lists, c);
      var m' := if j == i && m > k then m - 1 else m;
      assert lists'[j][m'] == c;
    }
    forall c | 0 <= c < |r| && r[c].prev.Null? ensures r[c].next.Null? {
      UnlinkedFrame(links, lists[i], i, k, c);
    }
  }

  lemma UnlinkDistinct(lists: Lists, i: nat, k: nat)
    requires Distinct(lists) && i < |lists| && k < |lists[i]|
    ensures Distinct(lists[i := Without(lists[i], k)])
  {
    var lists' := lists[i := Without(lists[i], k)];
    forall a, x, c, y | 0 <= a < |lists'| && 0 <= x < |lists'[a]| && 0 <= c < |lists'| && 0 <= y < |lists'[c]|
      ensures Apart(lists', a, x, c, y)
    {
      var x' := if a == i && x >= k then x + 1 else x;
      var y' := if c == i && y >= k then y + 1 else y;
      assert Apart(lists, a, x', c, y');
    }
  }

  // ------------------------------------------------------------------ insertion

  function PrevOf(links: seq<Links>, heads: seq<Links>, l: Link): Link
    requires l.Entry? ==> l.b < |links|
    requires l.ListHead? ==> l.i < |heads|
  {
    match l
    case Entry(b) => links[b].prev
    case ListHead(i) => heads[i].prev
    case Null => Null
  }

  // AddToFreeList(block, pointToInsert), on the links.
  function Inserted(links: seq<Links>, b: nat, prev: Link, point: Link): seq<Links>
    requires b < |links|
    requires prev.Entry? ==> prev.b < |links|
    requires point.Entry? ==> point.b < |links|
  {
    SetPrev(SetNext(links[b := Links(prev, point)], prev, Entry(b)), point, Entry(b))
  }

  function InsertedHeads(heads: seq<Links>, b: nat, prev: Link, point: Link): seq<Links>
    requires prev.ListHead? ==> prev.i < |heads|
    requires point.ListHead? ==> point.i < |heads|
  {
    SetHeadPrev(SetHeadNext(heads, prev, Entry(b)), point, Entry(b))
  }

  lemma InsertedFrame(links: seq<Links>, list: seq<nat>, i: nat, k: nat, b: nat, c: nat)
    requires k <= |list| && b < |links| && c < |links|
    requires 0 < k ==> list[k - 1] < |links| && list[k - 1] != b
    requires k < |list| ==> list[k] < |links| && list[k] != b
    ensures var r := Inserted(links, b, At(list, i, k - 1), At(list, i, k));
            && (c == b ==> r[c] == Links(At(list, i, k - 1), At(list, i, k)))
            && (c != b && (0 < k ==> c != list[k - 1]) ==> r[c].next == links[c].next)
            && (c != b && (k < |list| ==> c != list[k]) ==> r[c].prev == links[c].prev)
            && (0 < k && c == list[k - 1] ==> r[c].next == Entry(b))
            && (k < |list| && c == list[k] ==> r[c].prev == Entry(b))
  {
  }

  // A block of another list keeps its links.
  lemma InsertNodeElsewhere(links: seq<Links>, heads: seq<Links>, lists: Lists, i: nat, k: nat, b: nat, j: nat, m: nat)
    requires Rings(links, heads, lists) && i < NUM_LISTS && j < NUM_LISTS && k <= |lists[i]| && j != i
    requires b < |links| && links[b].prev.Null? && m < |lists[j]|
    requires 0 < k ==> NodeOk(links, lists[i], i, k - 1)
    requires k < |lists[i]| ==> NodeOk(links, lists[i], i, k)
    ensures NodeOk(Inserted(links, b, At(lists[i], i, k - 1), At(lists[i], i, k)), lists[j], j, m)
  {
    Neighbours(links, heads, lists, j, m);
    if 0 < k {
      assert Apart(lists, i, k - 1, j, m);
    }
    if k < |lists[i]| {
      assert Apart(lists, i, k, j, m);
    }
    InsertedFrame(links, lists[i], i, k, b, lists[j][m]);
  }

  lemma WithAt(list: seq<nat>, i: nat, k: nat, b: nat, m: int)
    requires k <= |list|
    ensures At(With(list, k, b), i, m) ==
            if m == k then Entry(b) else At(list, i, if m > k then m - 1 else m)
  {
  }

  // A block of the same list gets the new block as neighbour if it was next to the point.
  lemma InsertNodeHere(links: seq<Links>, heads: seq<Links>, lists: Lists, i: nat, k: nat, b: nat, m: nat)
    requires Rings(links, heads, lists) && i < NUM_LISTS && k <= |lists[i]|
    requires b < |links| && links[b].prev.Null? && m <= |lists[i]| && m != k
    requires 0 < k ==> NodeOk(links, lists[i], i, k - 1)
    requires k < |lists[i]| ==> NodeOk(links, lists[i], i, k)
    ensures NodeOk(Inserted(links, b, At(lists[i], i, k - 1), At(lists[i], i, k)), With(lists[i], k, b), i, m)
  {
    var list := lists[i];
    var m' := if m > k then m - 1 else m;
    Neighbours(links, heads, lists, i, m');
    if 0 < k {
      assert Apart(lists, i, k - 1, i, m');
    }
    if k < |list| {
      assert Apart(lists, i, k, i, m');
    }
    InsertedFrame(links, list, i, k, b, list[m']);
    WithAt(list, i, k, b, m - 1);
    WithAt(list, i, k, b, m + 1);
  }

  lemma InsertNode(links: seq<Links>, heads: seq<Links>, lists: Lists, i: nat, k: nat, b: nat, j: nat, m: nat)
    requires Rings(links, heads, lists) && i < NUM_LISTS && j < NUM_LISTS && k <= |lists[i]|
    requires b < |links| && links[b].prev.Null?
    requires m < |if j == i then With(lists[i], k, b) else lists[j]|
    requires 0 < k ==> NodeOk(links, lists[i], i, k - 1)
    requires k < |lists[i]| ==> NodeOk(links, lists[i], i, k)
    ensures NodeOk(Inserted(links, b, At(lists[i], i, k - 1), At(lists[i], i, k)),
                   if j == i then With(lists[i], k, b) else lists[j], j, m)
  {
    if j != i {
      InsertNodeElsewhere(links, heads, lists, i, k, b, j, m);
    } else if m == k {
      InsertedFrame(links, lists[i], i, k, b, b);
      WithAt(lists[i], i, k, b, m - 1);
      WithAt(lists[i], i, k, b, m + 1);
    } else {
      InsertNodeHere(links, heads, lists, i, k, b, m);
    }
  }

  lemma InsertDistinct(lists: Lists, i: nat, k: nat, b: nat)
    requires Distinct(lists) && i < |lists| && k <= |lists[i]| && !OnList(lists, b)
    ensures Distinct(lists[i := With(lists[i], k, b)])
  {
    var lists' := lists[i := With(lists[i], k, b)];
    forall a, x, c, y | 0 <= a < |lists'| && 0 <= x < |lists'[a]| && 0 <= c < |lists'| && 0 <= y < |lists'[c]|
      ensures Apart(lists', a, x, c, y)
    {
      var x' := if a == i && x > k then x - 1 else x;
      var y' := if c == i && y > k then y - 1 else y;
      if (a == i && x == k) || (c == i && y == k) {
      } else {
        assert Apart(lists, a, x', c, y');
      }
    }
  }

  lemma NotOnList(links: seq<Links>, heads: seq<Links>, lists: Lists, b: nat)
    requires Rings(links, heads, lists) && b < |links| && links[b].prev.Null?
    ensures !OnList(lists, b)
  {
    if OnList(lists, b) {
      var i, k :| 0 <= i < |lists| && 0 <= k < |lists[i]| && lists[i][k] == b;
      Neighbours(links, heads, lists, i, k);
      assert false;
    }
  }

  lemma StillOnList(links: seq<Links>, heads: seq<Links>, lists: Lists, i: nat, k: nat, b: nat, c: nat)
    requires Rings(links, heads, lists) && i < NUM_LISTS && k <= |lists[i]|
    requires c != b ==> c < |links| && !links[c].prev.Null?
    ensures OnList(lists[i := With(lists[i], k, b)], c)
  {
    var lists' := lists[i := With(lists[i], k, b)];
    if c == b {
      assert lists'[i][k] == b;
    } else {
      var j, m := Position(links, heads, lists, c);
      var m' := if j == i && m >= k then m + 1 else m;
      assert lists'[j][m'] == c;
    }
  }

  // Inserting a block that is on no list puts it before the given point and leaves every
  // other list as it was.
  lemma InsertKeepsRings(links: seq<Links>, heads: seq<Links>, lists: Lists, i: nat, k: nat, b: nat)
    requires Rings(links, heads, lists) && i < NUM_LISTS && k <= |lists[i]|
    requires b < |links| && links[b].prev.Null?
    ensures 0 < k ==> NodeOk(links, lists[i], i, k - 1)
    ensures k < |lists[i]| ==> NodeOk(links, lists[i], i, k)
    ensures PrevOf(links, heads, At(lists[i], i, k)) == At(lists[i], i, k - 1)
    ensures Rings(Inserted(links, b, At(lists[i], i, k - 1), At(lists[i], i, k)),
                  InsertedHeads(heads, b, At(lists[i], i, k - 1), At(lists[i], i, k)),
                  lists[i := With(lists[i], k, b)])
  {
    var list := lists[i];
    assert Ring(links, heads, list, i);
    if 0 < k {
      Neighbours(links, heads, lists, i, k - 1);
    }
    if k < |list| {
      Neighbours(links, heads, lists, i, k);
    }
    NotOnList(links, heads, lists, b);
    var r := Inserted(links, b, At(list, i, k - 1), At(list, i, k));
    var heads' := InsertedHeads(heads, b, At(list, i, k - 1), At(list, i, k));
    var lists' := lists[i := With(list, k, b)];
    forall j | 0 <= j < NUM_LISTS ensures Ring(r, heads', lists'[j], j) {
      assert Ring(links, heads, lists[j], j);
      forall m | 0 <= m < |lists'[j]| ensures NodeOk(r, lists'[j], j, m) {
        InsertNode(links, heads, lists, i, k, b, j, m);
      }
    }
    InsertDistinct(lists, i, k, b);
    forall c | 0 <= c < |r| && !r[c].prev.Null? ensures OnList(lists', c) {
      InsertedFrame(links, list, i, k, b, c);
      StillOnList(links, heads, lists, i, k, b, c);
    }
    forall c | 0 <= c < |r| && r[c].prev.Null? ensures r[c].next.Null? {
      InsertedFrame(links, list, i, k, b, c);
    }
  }
}
