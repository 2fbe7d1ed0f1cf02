/**
 The state of the incremental marker (MMgc/GC.cpp) as a value, and every step the
 collector or the program can take on it as a function of that value.

 A word of memory is an object identity or NULL.  A push onto a mark stack can fail
 when no segment can be allocated; each function takes the outcomes of its pushes as
 an argument, so a statement about all outcomes is a statement about all schedules
 of memory exhaustion.
 */
module MarkModel {

  type Obj = int

  const NULL: Obj := 0

  // kMarkItemSplitThreshold, in 8-byte words.
  const SPLIT: nat := 246

  // The first segment of a mark stack is never released, so this many items always fit.
  const ROOM: nat := 3

  // The words of a segment: a block of 4096 bytes less two pointers, 8 bytes each.  An
  // object takes one word, so the first segment of the barrier stack, which is never
  // released either, always takes this many objects.
  const SEGMENT: nat := 510

  datatype Item =
    | GCObject(o: Obj)
    | Chunk(o: Obj, from: nat)
    | Protector(o: Obj)
    | StackMemory(words: seq<Obj>)

  datatype State = State(
    kids: map<Obj, seq<Obj>>,  // the words of every object in the heap
    scan: set<Obj>,            // objects in blocks that may contain pointers
    order: seq<Obj>,           // the order in which the allocator iterators visit objects
    marked: set<Obj>,          // kMark
    queued: set<Obj>,          // kQueued
    shield: set<Obj>,          // kProtected, the extra bit of large objects
    work: seq<Item>,           // m_incrementalWork, top of stack last
    barrier: seq<Obj>,         // m_barrierWork, top of stack last
    overflow: bool,            // m_markStackOverflow
    exposed: bool,             // a barrier push failed for an object with a pending chunk
    roots: seq<seq<Obj>>,      // root areas other than the stack
    stack: seq<Obj>            // the program stack
  )

  // The outcomes of the pushes of one step: splitting pushes a protector and a chunk,
  // tracing the k-th word pushes an object.  Outcomes that are not listed are successes.
  datatype Outcomes = Outcomes(protector: bool, chunk: bool, words: seq<bool>)

  predicate Granted(oks: seq<bool>, k: nat) {
    k < |oks| ==> oks[k]
  }

  predicate Fits(s: State, ok: bool) {
    ok || |s.work| < ROOM
  }

  predicate Remembers(s: State, ok: bool) {
    ok || |s.barrier| < SEGMENT
  }

  // ------------------------------------------------------------------ pushing

  function PushItem(s: State, it: Item, ok: bool): State {
    if Fits(s, ok) then s.(work := s.work + [it]) else s.(overflow := true)
  }

  function PushObject(s: State, o: Obj, ok: bool): State {
    if Fits(s, ok) then s.(work := s.work + [GCObject(o)])
    else s.(queued := s.queued - {o}, overflow := true)
  }

  // ------------------------------------------------------------------ tracing

  predicate NonWhite(s: State, o: Obj) {
    o == NULL || o in s.marked || o in s.queued
  }

  function TracePointer(s: State, o: Obj, ok: bool): State {
    if NonWhite(s, o) then s
    else if o in s.scan then PushObject(s.(queued := s.queued + {o}), o, ok)
    else s.(marked := s.marked + {o})
  }

  function TraceWords(s: State, words: seq<Obj>, oks: seq<bool>): State {
    if words == [] then s
    else
      var n := |words| - 1;
      TracePointer(TraceWords(s, words[..n], oks), words[n], Granted(oks, n))
  }

  // The words marked now when a work item is `words` long; the rest becomes a chunk.
  function Head(words: seq<Obj>): seq<Obj> {
    if |words| > SPLIT then words[..SPLIT] else words
  }

  function SplitObject(s: State, o: Obj, oc: Outcomes): State
    requires o in s.kids
  {
    if |s.kids[o]| > SPLIT then
      PushItem(PushItem(s.(shield := s.shield + {o}), Protector(o), oc.protector), Chunk(o, SPLIT), oc.chunk)
    else s
  }

  function SetMark(s: State, o: Obj): State {
    s.(marked := s.marked + {o}, queued := s.queued - {o})
  }

  function MarkItem(s: State, o: Obj, oc: Outcomes): State
    requires o in s.kids
  {
    TraceWords(SetMark(SplitObject(s, o, oc), o), Head(s.kids[o]), oc.words)
  }

  function MarkChunk(s: State, o: Obj, from: nat, oc: Outcomes): State
    requires o in s.kids && from <= |s.kids[o]|
  {
    var words := s.kids[o][from..];
    var s1 := if |words| > SPLIT then PushItem(s, Chunk(o, from + SPLIT), oc.chunk) else s;
    TraceWords(s1, Head(words), oc.words)
  }

  function MarkStackMemory(s: State, words: seq<Obj>, oc: Outcomes): State {
    var s1 := if |words| > SPLIT then PushItem(s, StackMemory(words[SPLIT..]), oc.chunk) else s;
    TraceWords(s1, Head(words), oc.words)
  }

  predicate ItemOk(s: State, it: Item) {
    match it
    case GCObject(o) => o in s.queued
    case Chunk(o, from) => o in s.scan && o in s.kids && SPLIT <= from < |s.kids[o]|
    case Protector(o) => o in s.kids && |s.kids[o]| > SPLIT
    case StackMemory(words) => WordsOk(s, words)
  }

  predicate WordsOk(s: State, words: seq<Obj>) {
    forall j :: 0 <= j < |words| ==> words[j] == NULL || words[j] in s.kids
  }

  function Pop(s: State): State
    requires s.work != []
  {
    s.(work := s.work[..|s.work| - 1])
  }

  // One iteration of GC::Mark: pop the top item and process it.
  function MarkTop(s: State, oc: Outcomes): State
    requires s.work != [] && ItemOk(s, s.work[|s.work| - 1]) && s.queued <= s.kids.Keys
  {
    match s.work[|s.work| - 1]
    case GCObject(o) => MarkItem(Pop(s), o, oc)
    case Chunk(o, from) => MarkChunk(Pop(s), o, from, oc)
    case Protector(o) => Pop(s).(shield := s.shield - {o})
    case StackMemory(words) => MarkStackMemory(Pop(s), words, oc)
  }

  // ------------------------------------------------------------------ the write barrier

  // The item belongs to the splitting of the large object o.
  predicate Splits(it: Item, o: Obj) {
    (it.Chunk? || it.Protector?) && it.o == o
  }

  predicate HasSplit(work: seq<Item>, o: Obj) {
    exists p :: 0 <= p < |work| && Splits(work[p], o)
  }

  // A full barrier stack falls back to the mark stack, and that to the overflow flag.
  function WriteBarrierHit(s: State, c: Obj, okBarrier: bool, okWork: bool): State {
    if Remembers(s, okBarrier) then s.(barrier := s.barrier + [c])
    else PushObject(s.(exposed := s.exposed || HasSplit(s.work, c)), c, okWork)
  }

  // InlineWriteBarrierTrap: a black container turns grey and is remembered.
  function Trap(s: State, c: Obj, okBarrier: bool, okWork: bool): State {
    if c in s.marked then
      WriteBarrierHit(s.(marked := s.marked - {c}, queued := s.queued + {c}), c, okBarrier, okWork)
    else s
  }

  function SetWord(s: State, c: Obj, j: nat, v: Obj): State
    requires c in s.kids && j < |s.kids[c]|
  {
    s.(kids := s.kids[c := s.kids[c][j := v]])
  }

  // A store through the write barrier; the barrier may be skipped only when NULL is stored.
  function Store(s: State, c: Obj, j: nat, v: Obj, trap: bool, okBarrier: bool, okWork: bool): State
    requires c in s.kids && j < |s.kids[c]|
  {
    SetWord(if trap then Trap(s, c, okBarrier, okWork) else s, c, j, v)
  }

  // memmove of n words from src[srcOff..] to dst[dstOff..].
  function Moved(dst: seq<Obj>, dstOff: nat, src: seq<Obj>, srcOff: nat, n: nat): (r: seq<Obj>)
    requires dstOff + n <= |dst| && srcOff + n <= |src|
    ensures |r| == |dst|
  {
    dst[..dstOff] + src[srcOff..srcOff + n] + dst[dstOff + n..]
  }

  function Zeroed(words: seq<Obj>, lo: nat, hi: nat): (r: seq<Obj>)
    requires lo <= hi <= |words|
    ensures |r| == |words|
  {
    words[..lo] + seq(hi - lo, _ => NULL) + words[hi..]
  }

  // The words of an object after movePointersWithinBlock.
  function MovedWithin(words: seq<Obj>, dst: nat, src: nat, n: nat, zeroEmptied: bool): (r: seq<Obj>)
    requires dst + n <= |words| && src + n <= |words|
    ensures |r| == |words|
  {
    var moved := Moved(words, dst, words, src, n);
    if !zeroEmptied then moved
    else if src > dst then Zeroed(moved, dst + n, src + n)
    else Zeroed(moved, src, dst)
  }

  // The words of an object after reversePointersWithinBlock.
  function ReversedWithin(words: seq<Obj>, off: nat, n: nat): (r: seq<Obj>)
    requires off + n <= |words|
    ensures |r| == |words|
  {
    seq(|words|, i requires 0 <= i < |words| =>
      if off <= i < off + n then words[off + (n - 1 - (i - off))] else words[i])
  }

  // Replace the words of o by a rearrangement; only large objects go through the barrier.
  function Rearrange(s: State, o: Obj, words: seq<Obj>, okBarrier: bool, okWork: bool): State
    requires o in s.kids
  {
    var s1 := if o in s.scan && |s.kids[o]| > SPLIT then Trap(s, o, okBarrier, okWork) else s;
    s1.(kids := s1.kids[o := words])
  }

  function MoveWithinBlock(s: State, o: Obj, dst: nat, src: nat, n: nat, zeroEmptied: bool,
                           okBarrier: bool, okWork: bool): State
    requires o in s.kids && dst + n <= |s.kids[o]| && src + n <= |s.kids[o]|
  {
    if src == dst || n == 0 then s
    else Rearrange(s, o, MovedWithin(s.kids[o], dst, src, n, zeroEmptied), okBarrier, okWork)
  }

  function ReverseWithinBlock(s: State, o: Obj, off: nat, n: nat, okBarrier: bool, okWork: bool): State
    requires o in s.kids && off + n <= |s.kids[o]|
  {
    if n <= 1 then s else Rearrange(s, o, ReversedWithin(s.kids[o], off, n), okBarrier, okWork)
  }

  // A copy between two arrays always goes through the barrier.
  function CopyWords(s: State, dst: Obj, dstOff: nat, src: Obj, srcOff: nat, n: nat, okBarrier: bool, okWork: bool): State
    requires dst in s.kids && src in s.kids
    requires dstOff + n <= |s.kids[dst]| && srcOff + n <= |s.kids[src]|
  {
    var s1 := if dst in s.scan then Trap(s, dst, okBarrier, okWork) else s;
    s1.(kids := s1.kids[dst := Moved(s.kids[dst], dstOff, s.kids[src], srcOff, n)])
  }

  function MovePointers(s: State, dst: Obj, dstOff: nat, src: Obj, srcOff: nat, n: nat, sameArray: bool,
                        okBarrier: bool, okWork: bool): State
    requires dst in s.kids && src in s.kids && (sameArray ==> dst == src)
    requires dstOff + n <= |s.kids[dst]| && srcOff + n <= |s.kids[src]|
  {
    if sameArray then
      Rearrange(s, dst, Moved(s.kids[dst], dstOff, s.kids[dst], srcOff, n), okBarrier, okWork)
    else
      CopyWords(s, dst, dstOff, src, srcOff, n, okBarrier, okWork)
  }

  // ------------------------------------------------------------------ allocation and explicit freeing

  // A new object is white, holds NULLs, and is returned to the program's stack.
  function Allocate(s: State, o: Obj, n: nat, pointers: bool): State {
    s.(kids := s.kids[o := seq(n, _ => NULL)],
       scan := if pointers then s.scan + {o} else s.scan,
       order := s.order + [o],
       stack := s.stack + [o])
  }

  // GCAlloc::Free refuses queued objects; GCLargeAlloc::Free also refuses protected ones.
  predicate FreeRefused(s: State, o: Obj)
    requires o in s.kids
  {
    o in s.queued || (|s.kids[o]| > SPLIT && o in s.shield)
  }

  function Free(s: State, o: Obj): State
    requires o in s.kids
  {
    if FreeRefused(s, o) then s.(kids := s.kids[o := seq(|s.kids[o]|, _ => NULL)])
    else s.(kids := s.kids - {o}, scan := s.scan - {o}, marked := s.marked - {o})
  }

  // ------------------------------------------------------------------ moving work between the stacks

  function AsItems(os: seq<Obj>): (items: seq<Item>)
    ensures |items| == |os|
    ensures forall k :: 0 <= k < |os| ==> items[k] == GCObject(os[k])
  {
    seq(|os|, k requires 0 <= k < |os| => GCObject(os[k]))
  }

  // Whole segments move to the bottom of the mark stack.
  function TransferSegment(s: State, lo: nat, hi: nat): State
    requires lo <= hi <= |s.barrier|
  {
    s.(work := AsItems(s.barrier[lo..hi]) + s.work, barrier := s.barrier[..lo] + s.barrier[hi..])
  }

  // FlushBarrierWork.  When no segment can be found for the emptied barrier stack, only
  // its top item moves, to the top of the mark stack, and that may fail too.
  function FlushBarrier(s: State, okAll: bool, okOne: bool): State {
    var n := |s.barrier|;
    if okAll || n == 0 then TransferSegment(s, 0, n)
    else if Fits(s, okOne) then
      s.(overflow := true, work := s.work + [GCObject(s.barrier[n - 1])], barrier := s.barrier[..n - 1])
    else s.(overflow := true)
  }
}
