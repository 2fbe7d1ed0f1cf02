/**
 The incremental marker as the collector runs it (MMgc/GC.cpp): an object whose methods
 push, pop and set bits in place.  Every method is proved against the step functions of
 MarkModel; FinishIncrementalMark is proved to terminate and to leave every reachable
 object black.
 */
module Marker {
  import opened Paths
  import opened MarkModel
  import opened MarkInvariants
  import opened MutatorSteps
  import opened MarkRuns
  import opened MarkCompleteness
  import opened MarkProgress
  import opened MarkFinish

  // What marking keeps while it works: the invariant with its exempt objects, closure of
  // the live objects, the stack words still owed a trace, and, when a recovery pass is
  // being counted, progress over the objects that were black when it began.
  datatype Aim = Aim(exempt: set<Obj>, live: set<Obj>, owed: seq<Obj>, counted: bool, base: set<Obj>)

  ghost predicate Good(s: State, aim: Aim) {
    && Inv(s, aim.exempt)
    && (aim.counted ==> Progress(s, aim.base))
    && Closed(s, aim.live)
    && (!s.overflow ==> forall w :: w in aim.owed ==> WordCovered(s, w))
  }

  // The first n roots hold only addresses of objects that are not white.
  ghost predicate RootsTraced(s: State, n: nat) {
    n <= |s.roots| && forall r :: 0 <= r < n ==> AllNonWhite(s, s.roots[r])
  }

  lemma RootsTracedStep(s0: State, s: State, t: State, r: nat)
    requires Frame(s0, s) && Frame(s, t) && r < |s.roots|
    requires !t.overflow ==> RootsTraced(s, r) && AllNonWhite(t, s.roots[r])
    ensures Frame(s0, t) && (!t.overflow ==> RootsTraced(t, r + 1))
  {
  }

  lemma MarkTopGood(s: State, oc: Outcomes, aim: Aim)
    requires Good(s, aim) && s.work != []
    ensures ItemOk(s, s.work[|s.work| - 1])
    ensures Good(MarkTop(s, oc), aim)
  {
    MarkTopKeeps(s, oc, aim.exempt);
    if aim.counted {
      MarkTopProgress(s, oc, aim.exempt, aim.base);
    }
    MarkTopClosed(s, oc, aim.live);
    MarkTopDecreases(s, oc, aim.exempt);
    forall w | w in aim.owed && !MarkTop(s, oc).overflow ensures WordCovered(MarkTop(s, oc), w) {
      MarkTopWordCovered(s, oc, aim.exempt, w);
    }
  }

  lemma TraceWordsGood(s: State, words: seq<Obj>, oks: seq<bool>, aim: Aim)
    requires Good(s, aim) && WordsOk(s, words) && Inside(words, aim.live)
    ensures var t := TraceWords(s, words, oks);
            Good(t, aim) && Frame(s, t) && t.barrier == s.barrier && (!t.overflow ==> AllNonWhite(t, words))
  {
    var t := TraceWords(s, words, oks);
    TraceWordsKeeps(s, words, oks, aim.exempt);
    if aim.counted {
      TraceWordsProgress(s, words, oks, aim.base);
    }
    TraceWordsClosed(s, words, oks, aim.live);
    forall w | w in aim.owed && !t.overflow ensures WordCovered(t, w) {
      WordCoveredGrows(s, t, w);
    }
  }

  // Re-marking an object during recovery makes it answer for its words again.
  lemma RemarkGood(s: State, o: Obj, oc: Outcomes, aim: Aim)
    requires Good(s, aim) && s.work == [] && o in s.marked && o in s.scan
    ensures var t := MarkItem(s, o, oc);
            Good(t, aim.(exempt := aim.exempt - {o})) && Frame(s, t) && t.barrier == s.barrier
  {
    var t := MarkItem(s, o, oc);
    assert SetMark(s, o) == s;
    SetMarkCommutes(s, o, oc);
    TriColourWeaken(s, aim.exempt, aim.exempt + {o});
    TraceObjectKeeps(s, o, oc, aim.exempt);
    SplitObjectFrame(s, o, oc);
    MarkItemClosed(s, o, oc, aim.live);
    if aim.counted {
      RemarkProgress(s, o, oc, aim.base);
    }
    MarkItemPrefix(s, o, oc);
    forall w | w in aim.owed && !t.overflow ensures WordCovered(t, w) {
      WordCoveredGrows(s, t, w);
    }
  }

  lemma UnmarkedNotExempt(s: State, o: Obj, aim: Aim)
    requires Good(s, aim) && !(o in s.marked && o in s.scan)
    ensures Good(s, aim.(exempt := aim.exempt - {o}))
  {
    if !s.overflow {
      NarrowExempt(s, o, aim.exempt - {o});
    }
  }

  // Once the iterators have visited every object nothing is exempt any more.
  lemma ExhaustedExempt(s: State, aim: Aim)
    requires Good(s, aim) && forall o :: o in s.scan ==> o !in aim.exempt
    ensures Good(s, aim.(exempt := {}))
  {
    if !s.overflow {
      forall o, j | o in s.marked && o in s.scan && 0 <= j < |s.kids[o]| ensures Covered(s, o, j) {
        assert o !in aim.exempt;
      }
    }
  }

  lemma PushStackGood(s: State, ok: bool, aim: Aim)
    requires Good(s, aim)
    requires aim.counted && s.marked == aim.base ==> |s.work| <= |Objects(s.work)| + 1
    ensures Good(PushItem(s, StackMemory(s.stack), ok), aim.(owed := s.stack))
  {
    var t := PushItem(s, StackMemory(s.stack), ok);
    PushItemKeeps(s, StackMemory(s.stack), ok, aim.exempt);
    PushItemClosed(s, StackMemory(s.stack), ok, aim.live);
    if aim.counted {
      PushItemProgress(s, StackMemory(s.stack), ok, aim.base);
    }
    if !t.overflow {
      assert t.work[|s.work|] == StackMemory(s.stack);
    }
  }

  lemma FlushShape(s: State, okAll: bool, okOne: bool)
    requires s.work == []
    ensures var t := FlushBarrier(s, okAll, okOne);
            && |t.work| == |Objects(t.work)| <= 1 + |s.barrier|
            && t == s.(work := t.work, barrier := t.barrier, overflow := t.overflow)
            && (t.overflow ==> s.overflow || Objects(t.work) != [])
            && (s.overflow ==> t.overflow)
            && (!t.overflow ==> t.barrier == [])
  {
    var t := FlushBarrier(s, okAll, okOne);
    var n := |s.barrier|;
    if okAll || n == 0 {
      assert s.barrier[0..n] == s.barrier;
      assert t.work == AsItems(s.barrier);
      ObjectsOfItems(s.barrier);
    } else {
      ObjectsAppend(s.work, GCObject(s.barrier[n - 1]));
    }
  }

  // Flushing the barrier stack onto an empty mark stack leaves only objects there.
  lemma FlushGood(s: State, okAll: bool, okOne: bool, aim: Aim)
    requires Good(s, aim) && s.work == [] && aim.owed == []
    ensures var t := FlushBarrier(s, okAll, okOne);
            && Good(t, aim) && Frame(s, t)
            && |t.work| == |Objects(t.work)|
            && (!t.overflow ==> t.barrier == [])
  {
    FlushShape(s, okAll, okOne);
    FlushBarrierKeeps(s, okAll, okOne, aim.exempt);
    FlushBarrierClosed(s, okAll, okOne, aim.live);
  }

  // A pass that ends with an overflow has blackened an object, so recovery terminates.
  lemma PassBlackens(s: State, t: State)
    requires WellFormed(t) && s.kids == t.kids && Progress(t, s.marked) && t.work == []
    ensures t.overflow ==> Unmarked(t) < Unmarked(s)
  {
    if t.overflow {
      assert s.marked < t.marked;
      var x := Extra(s.marked, t.marked);
      assert x in s.kids.Keys - s.marked;
      Shrinks(s.kids.Keys - s.marked, t.kids.Keys - t.marked);
    }
  }

  // Tracing depends only on as many outcomes as there are words.
  lemma {:induction false} OutcomesBeyond(s: State, words: seq<Obj>, oks: seq<bool>, ok: bool)
    requires |words| <= |oks|
    ensures TraceWords(s, words, oks + [ok]) == TraceWords(s, words, oks)
  {
    if words != [] {
      OutcomesBeyond(s, words[..|words| - 1], oks, ok);
    }
  }

  class GC {
    var kids: map<Obj, seq<Obj>>
    var scan: set<Obj>
    var order: seq<Obj>
    var marked: set<Obj>
    var queued: set<Obj>
    var shield: set<Obj>
    var work: seq<Item>
    var barrier: seq<Obj>
    var markStackOverflow: bool
    var roots: seq<seq<Obj>>
    var stack: seq<Obj>
    var marking: bool
    var collecting: bool
    ghost var exposed: bool

    ghost function S(): State
      reads this
    {
      State(kids, scan, order, marked, queued, shield, work, barrier, markStackOverflow, exposed, roots, stack)
    }

    // ---------------------------------------------------------------- pushing

    method PushItem(it: Item) returns (ghost ok: bool)
      modifies `work, `markStackOverflow
      ensures S() == MarkModel.PushItem(old(S()), it, ok)
    {
      var segmentAvailable: bool := *;
      ok := segmentAvailable;
      if segmentAvailable || |work| < ROOM {
        work := work + [it];
      } else {
        markStackOverflow := true;
      }
    }

    method PushGCObject(o: Obj) returns (ghost ok: bool)
      modifies `work, `queued, `markStackOverflow
      ensures S() == PushObject(old(S()), o, ok)
    {
      var segmentAvailable: bool := *;
      ok := segmentAvailable;
      if segmentAvailable || |work| < ROOM {
        work := work + [GCObject(o)];
      } else {
        // SignalMarkStackOverflow_GCObject
        queued := queued - {o};
        markStackOverflow := true;
      }
    }

    // ---------------------------------------------------------------- tracing

    method TracePointer(o: Obj) returns (ghost ok: bool)
      modifies `work, `queued, `marked, `markStackOverflow
      ensures S() == MarkModel.TracePointer(old(S()), o, ok)
    {
      ok := true;
      if o == NULL {
        return;
      }
      if o !in marked && o !in queued {
        if o in scan {
          queued := queued + {o};
          ok := PushGCObject(o);
        } else {
          marked := marked + {o};
        }
      }
    }

    // The scanning loop of MarkItem_ConservativeOrNonGCObject.
    method TraceLocations(words: seq<Obj>) returns (ghost oks: seq<bool>)
      modifies `work, `queued, `marked, `markStackOverflow
      ensures S() == TraceWords(old(S()), words, oks)
    {
      oks := [];
      var p := 0;
      while p < |words|
        invariant p <= |words| && |oks| == p
        invariant S() == TraceWords(old(S()), words[..p], oks)
      {
        ghost var ok := TracePointer(words[p]);
        OutcomesBeyond(old(S()), words[..p], oks, ok);
        oks := oks + [ok];
        assert words[..p + 1][..p] == words[..p];
        p := p + 1;
      }
      assert words[..p] == words;
    }

    method SetMark(o: Obj)
      modifies `marked, `queued
      ensures S() == MarkModel.SetMark(old(S()), o)
    {
      marked := marked + {o};
      queued := queued - {o};
    }

    method MarkItem(o: Obj) returns (ghost oc: Outcomes)
      requires o in kids
      modifies `work, `queued, `marked, `shield, `markStackOverflow
      ensures S() == MarkModel.MarkItem(old(S()), o, oc)
    {
      var words := kids[o];
      ghost var okProtector, okChunk := true, true;
      if |words| > SPLIT {
        // SplitItem_ConservativeOrNonGCObject
        shield := shield + {o};
        okProtector := PushItem(Protector(o));
        okChunk := PushItem(Chunk(o, SPLIT));
        words := words[..SPLIT];
      }
      SetMark(o);
      ghost var oks := TraceLocations(words);
      oc := Outcomes(okProtector, okChunk, oks);
    }

    method MarkChunk(o: Obj, from: nat) returns (ghost oc: Outcomes)
      requires o in kids && from <= |kids[o]|
      modifies `work, `queued, `marked, `markStackOverflow
      ensures S() == MarkModel.MarkChunk(old(S()), o, from, oc)
    {
      var words := kids[o][from..];
      ghost var okChunk := true;
      if |words| > SPLIT {
        okChunk := PushItem(Chunk(o, from + SPLIT));
        words := words[..SPLIT];
      }
      ghost var oks := TraceLocations(words);
      oc := Outcomes(true, okChunk, oks);
    }

    method MarkStackChunk(area: seq<Obj>) returns (ghost oc: Outcomes)
      modifies `work, `queued, `marked, `markStackOverflow
      ensures S() == MarkStackMemory(old(S()), area, oc)
    {
      var words := area;
      ghost var okChunk := true;
      if |words| > SPLIT {
        okChunk := PushItem(StackMemory(words[SPLIT..]));
        words := words[..SPLIT];
      }
      ghost var oks := TraceLocations(words);
      oc := Outcomes(true, okChunk, oks);
    }

    // ---------------------------------------------------------------- the marking loop

    method MarkTop() returns (ghost oc: Outcomes)
      requires WellFormed(S()) && work != []
      modifies `work, `queued, `marked, `shield, `markStackOverflow
      ensures ItemOk(old(S()), old(work[|work| - 1]))
      ensures S() == MarkModel.MarkTop(old(S()), oc)
    {
      var it := work[|work| - 1];
      assert ItemOk(S(), it);
      work := work[..|work| - 1];
      oc := Outcomes(true, true, []);
      match it {
        case GCObject(o) => oc := MarkItem(o);
        case Chunk(o, from) => oc := MarkChunk(o, from);
        case Protector(o) => shield := shield - {o};
        case StackMemory(words) => oc := MarkStackChunk(words);
      }
    }

    // GC::Mark(): runs until the mark stack is empty.
    method Mark(ghost aim: Aim)
      requires Good(S(), aim)
      modifies `work, `queued, `marked, `shield, `markStackOverflow
      ensures Good(S(), aim) && work == [] && Frame(old(S()), S())
      ensures !markStackOverflow ==> AllNonWhite(S(), aim.owed)
    {
      while work != []
        invariant Good(S(), aim) && Frame(old(S()), S())
        decreases Unmarked(S()), White(S()), Weight(S(), work)
      {
        ghost var s := S();
        ghost var oc := MarkTop();
        MarkTopGood(s, oc, aim);
        MarkTopDecreases(s, oc, aim.exempt);
        MeasureDecreases(s, S());
      }
    }

    // GC::Mark(count) between two looks at the clock.
    method MarkSome(count: nat)
      requires Inv(S(), {})
      modifies `work, `queued, `marked, `shield, `markStackOverflow
      ensures Inv(S(), {}) && Frame(old(S()), S()) && Reaches(old(S()), S())
    {
      var i := 0;
      ConnectedSelf(Leads, S());
      while i < count && work != []
        invariant Inv(S(), {}) && Frame(old(S()), S()) && Reaches(old(S()), S())
      {
        ghost var s := S();
        ghost var oc := MarkTop();
        ConnectedOn(Leads, old(S()), s, MarkOne(oc), S());
        MarkTopKeeps(s, oc, {});
        MarkTopDecreases(s, oc, {});
        i := i + 1;
      }
    }

    // ---------------------------------------------------------------- the barrier stack

    // CheckBarrierWork: one inactive segment may move below the work already stacked.
    method CheckBarrierWork()
      requires Inv(S(), {})
      modifies `work, `barrier
      ensures exists lo: nat, hi: nat ::
                lo <= hi <= |old(barrier)| && S() == TransferSegment(old(S()), lo, hi)
      ensures Inv(S(), {}) && Reaches(old(S()), S())
    {
      var lo: nat, hi: nat :| lo <= hi <= |barrier|;
      TransferReaches(S(), lo, hi);
      TransferKeeps(S(), lo, hi, {});
      ghost var s := S();
      work := AsItems(barrier[lo..hi]) + work;
      barrier := barrier[..lo] + barrier[hi..];
      assert S() == TransferSegment(s, lo, hi);
    }

    method FlushBarrierWork() returns (ghost okAll: bool, ghost okOne: bool)
      modifies `work, `barrier, `markStackOverflow
      ensures S() == FlushBarrier(old(S()), okAll, okOne)
    {
      var everything: bool, something: bool := *, *;
      okAll, okOne := everything, something;
      var n := |barrier|;
      if everything || n == 0 {
        work := AsItems(barrier[0..n]) + work;
        barrier := [];
        assert S() == TransferSegment(old(S()), 0, n);
      } else {
        markStackOverflow := true;
        if something || |work| < ROOM {
          work := work + [GCObject(barrier[n - 1])];
          barrier := barrier[..n - 1];
        }
      }
    }

    // ---------------------------------------------------------------- the write barrier

    method WriteBarrierHit(c: Obj) returns (ghost okBarrier: bool, ghost okWork: bool)
      modifies `barrier, `work, `marked, `queued, `markStackOverflow, `exposed
      ensures collecting ==> S() == MarkModel.SetMark(old(S()), c)
      ensures !collecting ==> S() == MarkModel.WriteBarrierHit(old(S()), c, okBarrier, okWork)
    {
      okBarrier, okWork := true, true;
      if collecting {
        SetMark(c);
        return;
      }
      var segmentAvailable: bool := *;
      okBarrier := segmentAvailable;
      if segmentAvailable || |barrier| < SEGMENT {
        barrier := barrier + [c];
      } else {
        exposed := exposed || HasSplit(work, c);
        okWork := PushGCObject(c);
      }
    }

    // InlineWriteBarrierTrap.  While sweeping the container simply stays black.
    method WriteBarrierTrap(c: Obj) returns (ghost okBarrier: bool, ghost okWork: bool)
      requires marked !! queued
      modifies `barrier, `work, `marked, `queued, `markStackOverflow, `exposed
      ensures collecting ==> S() == old(S())
      ensures !collecting ==> S() == Trap(old(S()), c, okBarrier, okWork)
    {
      okBarrier, okWork := true, true;
      if c in marked {
        marked := marked - {c};
        queued := queued + {c};
        okBarrier, okWork := WriteBarrierHit(c);
      }
    }

    method WriteBarrier(c: Obj, j: nat, v: Obj) returns (ghost okBarrier: bool, ghost okWork: bool)
      requires marked !! queued && c in kids && j < |kids[c]|
      modifies `kids, `barrier, `work, `marked, `queued, `markStackOverflow, `exposed
      ensures !marking || collecting ==> S() == SetWord(old(S()), c, j, v)
      ensures marking && !collecting ==> S() == Store(old(S()), c, j, v, v != NULL, okBarrier, okWork)
    {
      okBarrier, okWork := true, true;
      if v != NULL && marking {
        okBarrier, okWork := WriteBarrierTrap(c);
      }
      kids := kids[c := kids[c][j := v]];
    }

    method MoveWords(o: Obj, dst: nat, src: nat, n: nat, zeroEmptied: bool)
      requires o in kids && dst + n <= |kids[o]| && src + n <= |kids[o]|
      modifies `kids
      ensures kids == old(kids)[o := MovedWithin(old(kids[o]), dst, src, n, zeroEmptied)]
    {
      kids := kids[o := Moved(kids[o], dst, kids[o], src, n)];
      if zeroEmptied {
        if src > dst {
          kids := kids[o := Zeroed(kids[o], dst + n, src + n)];
        } else {
          kids := kids[o := Zeroed(kids[o], src, dst)];
        }
      }
    }

    method MovePointersWithinBlock(o: Obj, dst: nat, src: nat, n: nat, zeroEmptied: bool)
        returns (ghost okBarrier: bool, ghost okWork: bool)
      requires marked !! queued && o in kids && dst + n <= |kids[o]| && src + n <= |kids[o]|
      modifies `kids, `barrier, `work, `marked, `queued, `markStackOverflow, `exposed
      ensures marking && !collecting ==>
                S() == MoveWithinBlock(old(S()), o, dst, src, n, zeroEmptied, okBarrier, okWork)
      ensures !marking || collecting ==> S() == old(S()).(kids := kids)
      ensures kids == if src == dst || n == 0 then old(kids)
                      else old(kids)[o := MovedWithin(old(kids[o]), dst, src, n, zeroEmptied)]
    {
      okBarrier, okWork := true, true;
      if src == dst || n == 0 {
        return;
      }
      if marking && o in marked && o in scan && |kids[o]| > SPLIT {
        okBarrier, okWork := WriteBarrierTrap(o);
      }
      MoveWords(o, dst, src, n, zeroEmptied);
    }

    method SwapWords(o: Obj, off: nat, n: nat)
      requires o in kids && off + n <= |kids[o]|
      modifies `kids
      ensures kids == old(kids)[o := ReversedWithin(old(kids[o]), off, n)]
    {
      ghost var words := kids[o];
      var now := kids[o];
      var i := 0;
      while i < n / 2
        invariant i <= n / 2 && |now| == |words|
        invariant kids == old(kids)[o := now]
        invariant forall k :: off + i <= k < off + n - i ==> now[k] == words[k]
        invariant forall k :: 0 <= k < off || off + n <= k < |words| ==> now[k] == words[k]
        invariant forall k :: off <= k < off + i || off + n - i <= k < off + n ==>
                    now[k] == words[off + (n - 1 - (k - off))]
      {
        var i2 := n - i - 1;
        var v, v2 := now[off + i], now[off + i2];
        now := now[off + i := v2][off + i2 := v];
        kids := kids[o := now];
        i := i + 1;
      }
      assert now == ReversedWithin(words, off, n);
    }

    method ReversePointersWithinBlock(o: Obj, off: nat, n: nat) returns (ghost okBarrier: bool, ghost okWork: bool)
      requires marked !! queued && o in kids && off + n <= |kids[o]|
      modifies `kids, `barrier, `work, `marked, `queued, `markStackOverflow, `exposed
      ensures marking && !collecting ==>
                S() == ReverseWithinBlock(old(S()), o, off, n, okBarrier, okWork)
      ensures !marking || collecting ==> S() == old(S()).(kids := kids)
      ensures kids == if n <= 1 then old(kids) else old(kids)[o := ReversedWithin(old(kids[o]), off, n)]
    {
      okBarrier, okWork := true, true;
      if n <= 1 {
        return;
      }
      if marking && o in marked && o in scan && |kids[o]| > SPLIT {
        okBarrier, okWork := WriteBarrierTrap(o);
      }
      SwapWords(o, off, n);
    }

    method MovePointers(dst: Obj, dstOff: nat, src: Obj, srcOff: nat, n: nat, sameArray: bool)
        returns (ghost okBarrier: bool, ghost okWork: bool)
      requires marked !! queued && dst in kids && src in kids && (sameArray ==> dst == src)
      requires dstOff + n <= |kids[dst]| && srcOff + n <= |kids[src]|
      modifies `kids, `barrier, `work, `marked, `queued, `markStackOverflow, `exposed
      ensures marking && !collecting ==>
                S() == MarkModel.MovePointers(old(S()), dst, dstOff, src, srcOff, n, sameArray, okBarrier, okWork)
      ensures !marking || collecting ==> S() == old(S()).(kids := kids)
      ensures kids == old(kids)[dst := Moved(old(kids[dst]), dstOff, old(kids[src]), srcOff, n)]
    {
      okBarrier, okWork := true, true;
      if marking && dst in marked && dst in scan && (!sameArray || |kids[dst]| > SPLIT) {
        okBarrier, okWork := WriteBarrierTrap(dst);
      }
      kids := kids[dst := Moved(kids[dst], dstOff, kids[src], srcOff, n)];
    }

    // ---------------------------------------------------------------- roots and recovery

    method MarkNonstackRoots(deep: bool, ghost aim: Aim)
      requires Good(S(), aim) && (deep ==> work == [])
      modifies `work, `queued, `marked, `shield, `markStackOverflow
      ensures Good(S(), aim) && Frame(old(S()), S()) && (deep ==> work == [])
      ensures !markStackOverflow ==> RootsTraced(S(), |roots|)
      ensures !deep ==> Reaches(old(S()), S())
    {
      ghost var s0 := S();
      var r := 0;
      ConnectedSelf(Leads, s0);
      while r < |roots|
        invariant r <= |roots| && roots == s0.roots && (!deep ==> Reaches(s0, S()))
        invariant Good(S(), aim) && Frame(s0, S()) && (deep ==> work == [])
        invariant !markStackOverflow ==> RootsTraced(S(), r)
      {
        ghost var s := S();
        assert WordsOk(s, roots[r]) && Inside(roots[r], aim.live);
        ghost var oks := MarkRoot(roots[r], deep, aim);
        if !deep {
          TraceRootReaches(s0, s, r, oks);
        }
        RootsTracedStep(s0, s, S(), r);
        r := r + 1;
      }
    }

    method MarkRoot(words: seq<Obj>, deep: bool, ghost aim: Aim) returns (ghost oks: seq<bool>)
      requires Good(S(), aim) && (deep ==> work == []) && WordsOk(S(), words) && Inside(words, aim.live)
      modifies `work, `queued, `marked, `shield, `markStackOverflow
      ensures Good(S(), aim) && Frame(old(S()), S()) && (deep ==> work == [])
      ensures !markStackOverflow ==> AllNonWhite(S(), words)
      ensures !deep ==> S() == TraceWords(old(S()), words, oks)
    {
      ghost var s := S();
      oks := TraceLocations(words);
      TraceWordsGood(s, words, oks, aim);
      if deep {
        Mark(aim);
      }
    }

    // One step of a recovery iterator: GetNextMarkedObject passes over objects that are
    // not black or contain no pointers; any other is traced again and its work drained.
    method Revisit(o: Obj, ghost aim: Aim)
      requires Good(S(), aim) && work == []
      modifies `work, `queued, `marked, `shield, `markStackOverflow
      ensures Good(S(), aim.(exempt := aim.exempt - {o})) && work == [] && Frame(old(S()), S())
    {
      if o in marked && o in scan {
        ghost var s := S();
        ghost var oc := MarkItem(o);
        RemarkGood(s, o, oc, aim);
        Mark(aim.(exempt := aim.exempt - {o}));
      } else {
        UnmarkedNotExempt(S(), o, aim);
      }
    }

    // One recovery pass: the heap itself is the queue of objects to look at again.
    method HandleMarkStackOverflow(ghost aim: Aim)
      requires Good(S(), aim.(exempt := marked)) && work == []
      modifies `work, `queued, `marked, `shield, `markStackOverflow
      ensures Good(S(), aim.(exempt := {})) && work == [] && Frame(old(S()), S())
      ensures !markStackOverflow ==> forall r :: 0 <= r < |roots| ==> AllNonWhite(S(), roots[r])
    {
      ghost var rest := marked;
      MarkNonstackRoots(true, aim.(exempt := rest));
      ghost var s := S();
      for idx := 0 to |order|
        invariant Good(S(), aim.(exempt := rest)) && work == []
        invariant Frame(old(S()), s) && Frame(s, S())
        invariant forall k :: 0 <= k < idx ==> order[k] !in rest
      {
        Revisit(order[idx], aim.(exempt := rest));
        rest := rest - {order[idx]};
      }
      ExhaustedExempt(S(), aim.(exempt := rest));
    }

    // MarkQueueAndStack: the stack is one item, then everything is marked.
    method MarkQueueAndStack(scanStack: bool, ghost aim: Aim)
      requires Good(S(), aim) && aim.owed == []
      requires aim.counted && marked == aim.base ==> |work| <= |Objects(work)| + 1
      modifies `work, `queued, `marked, `shield, `markStackOverflow
      ensures Good(S(), aim) && work == [] && Frame(old(S()), S())
      ensures scanStack && !markStackOverflow ==> AllNonWhite(S(), stack)
    {
      if scanStack {
        ghost var s := S();
        ghost var ok := PushItem(StackMemory(stack));
        PushStackGood(s, ok, aim);
        Mark(aim.(owed := stack));
      } else {
        Mark(aim);
      }
    }

    // One recovery pass and a flush of the barrier stack.
    method Recover(ghost aim: Aim)
      requires Inv(S(), {}) && Closed(S(), aim.live) && work == []
      requires markStackOverflow && aim == Aim({}, aim.live, [], true, marked)
      modifies `work, `queued, `marked, `shield, `barrier, `markStackOverflow
      ensures Good(S(), aim) && Frame(old(S()).(overflow := false), S())
      ensures |work| == |Objects(work)|
      ensures !markStackOverflow ==> barrier == [] && forall r :: 0 <= r < |roots| ==> AllNonWhite(S(), roots[r])
    {
      markStackOverflow := false;
      HandleMarkStackOverflow(aim);
      ghost var s := S();
      ghost var okAll, okOne := FlushBarrierWork();
      FlushGood(s, okAll, okOne, aim);
    }

    // ---------------------------------------------------------------- the phases of a collection

    method StartIncrementalMark(quota: seq<nat>)
      requires Start(S()) && !marking
      modifies this
      ensures marking && Inv(S(), {}) && Frame(old(S()), S()) && Reaches(old(S()), S())
    {
      ghost var s0 := S();
      marking := true;
      ghost var aim := Aim({}, kids.Keys, [], false, {});
      assert Closed(S(), kids.Keys) by {
        assert WordsOk(S(), stack);
        assert forall r :: 0 <= r < |roots| ==> WordsOk(S(), roots[r]);
        assert forall o :: o in kids ==> WordsOk(S(), kids[o]);
      }
      MarkNonstackRoots(false, aim);
      ghost var s := S();
      IncrementalMark(quota);
      ConnectedTwice(Leads, s0, s, S());
    }

    // Each entry of `quota` is the number of items processed between two looks at the clock.
    method IncrementalMark(quota: seq<nat>)
      requires Inv(S(), {})
      modifies `work, `queued, `marked, `shield, `barrier, `markStackOverflow
      ensures Inv(S(), {}) && Frame(old(S()), S()) && Reaches(old(S()), S())
    {
      ConnectedSelf(Leads, S());
      for i := 0 to |quota|
        invariant Inv(S(), {}) && Frame(old(S()), S()) && Reaches(old(S()), S())
      {
        ghost var s := S();
        if work == [] {
          CheckBarrierWork();
          ConnectedTwice(Leads, old(S()), s, S());
          if work == [] {
            break;
          }
        }
        s := S();
        MarkSome(quota[i]);
        ConnectedTwice(Leads, old(S()), s, S());
      }
    }

    // The body of the recovery loops: a pass, then the stack again if it is to be scanned.
    method RecoveryPass(scanStack: bool, ghost live: set<Obj>)
      requires Good(S(), Aim({}, live, [], false, {})) && work == [] && markStackOverflow
      modifies `work, `queued, `marked, `shield, `barrier, `markStackOverflow
      ensures Good(S(), Aim({}, live, [], false, {})) && work == []
      ensures Frame(old(S()).(overflow := false), S())
      ensures !markStackOverflow ==> Finished(S(), scanStack)
      ensures markStackOverflow ==> Unmarked(S()) < Unmarked(old(S()))
    {
      ghost var pass := Aim({}, live, [], true, marked);
      Recover(pass);
      ghost var s := S();
      MarkQueueAndStack(scanStack, pass);
      PassBlackens(old(S()), S());
      assert !markStackOverflow ==> !s.overflow;
    }

    // The recovery loop, repeated until a pass does not overflow.
    method RecoverFully(scanStack: bool, ghost live: set<Obj>)
      requires Good(S(), Aim({}, live, [], false, {})) && work == []
      modifies `work, `queued, `marked, `shield, `barrier, `markStackOverflow
      ensures Good(S(), Aim({}, live, [], false, {})) && work == [] && !markStackOverflow
      ensures Frame(old(S()).(overflow := false), S())
      ensures old(markStackOverflow) ==> Finished(S(), scanStack)
      ensures !old(markStackOverflow) ==> S() == old(S())
    {
      while markStackOverflow
        invariant Good(S(), Aim({}, live, [], false, {})) && work == []
        invariant Frame(old(S()).(overflow := false), S())
        invariant !old(markStackOverflow) ==> S() == old(S())
        invariant old(markStackOverflow) && !markStackOverflow ==> Finished(S(), scanStack)
        decreases if markStackOverflow then Unmarked(S()) + 1 else 0
      {
        RecoveryPass(scanStack, live);
      }
    }

    // The roots may have changed since they were first traced: trace what the barrier
    // remembered, the roots and the stack now.
    method FinalScan(scanStack: bool, ghost live: set<Obj>)
      requires Good(S(), Aim({}, live, [], false, {})) && work == [] && !markStackOverflow
      modifies `work, `queued, `marked, `shield, `barrier, `markStackOverflow
      ensures Good(S(), Aim({}, live, [], false, {})) && work == []
      ensures Frame(old(S()), S())
      ensures !markStackOverflow ==> Finished(S(), scanStack)
    {
      ghost var aim := Aim({}, live, [], false, {});
      ghost var okAll, okOne := FlushBarrierWork();
      FlushGood(old(S()), okAll, okOne, aim);
      MarkNonstackRoots(false, aim);
      ghost var s := S();
      MarkQueueAndStack(scanStack, aim);
      assert !markStackOverflow ==> !s.overflow;
    }

    // Drives marking to completion.  `live` is any set closed under the steps of the
    // program and the marker; nothing outside it turns black.
    method FinishIncrementalMark(scanStack: bool, ghost live: set<Obj>)
      requires Inv(S(), {}) && Closed(S(), live)
      modifies this
      ensures Finished(S(), scanStack)
      ensures kids == old(kids) && scan == old(scan) && roots == old(roots) && stack == old(stack)
      ensures old(marked) <= marked <= live
    {
      Mark(Aim({}, live, [], false, {}));
      RecoverFully(false, live);
      FinalScan(scanStack, live);
      RecoverFully(scanStack, live);
      work := [];
      barrier := [];
    }

    // A whole collection: after any run of the marking phase, finishing leaves black every
    // object that can still be reached, and white every object that was unreachable when
    // marking started and whose identity was not reused.
    method FinishRun(scanStack: bool, ghost states: seq<State>, ghost steps: seq<Step>)
      requires IsRun(states, steps) && S() == states[|states| - 1]
      modifies this
      ensures work == [] && barrier == [] && queued == {} && kids == old(kids)
      ensures forall o :: Reachable(S(), o, scanStack) ==> o in marked
      ensures forall o :: o in states[0].kids && !Reachable(states[0], o, true) && o !in Allocated(steps) ==>
                o !in marked
    {
      ghost var start := set x | x in states[0].kids && Reachable(states[0], x, true);
      ghost var last := |states| - 1;
      StartClosed(states[0], start);
      RunClosed(states, steps, last, start);
      RunKeepsInv(states, steps, last);
      assert steps[..last] == steps;
      FinishIncrementalMark(scanStack, start + Allocated(steps));
      forall o | Reachable(S(), o, scanStack) ensures o in marked {
        FinishedMarksReachable(S(), scanStack, o);
      }
      NothingQueued(S());
    }
  }
}
