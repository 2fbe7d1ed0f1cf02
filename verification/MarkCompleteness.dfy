/**
 Completeness of a collection: what was unreachable when marking started is still white
 when it ends.  The objects reachable at the start together with those allocated since
 are closed under every step of the marker and of the program.
 */
module MarkCompleteness {
  import opened MarkModel
  import opened MarkInvariants
  import opened MutatorSteps
  import opened MarkRuns

  ghost predicate Inside(words: seq<Obj>, live: set<Obj>) {
    forall j :: 0 <= j < |words| ==> words[j] == NULL || words[j] in live
  }

  ghost predicate Closed(s: State, live: set<Obj>) {
    && s.marked <= live && s.queued <= live
    && (forall r :: 0 <= r < |s.roots| ==> Inside(s.roots[r], live))
    && Inside(s.stack, live)
    && (forall o :: o in s.kids && o in live && o in s.scan ==> Inside(s.kids[o], live))
    && (forall p :: 0 <= p < |s.work| ==> ItemInside(s.work[p], live))
  }

  ghost predicate ItemInside(it: Item, live: set<Obj>) {
    match it
    case GCObject(o) => o in live
    case Chunk(o, _) => o in live
    case Protector(_) => true
    case StackMemory(words) => Inside(words, live)
  }

  // ------------------------------------------------------------------ the marker's steps

  lemma {:induction false} TraceWordsClosed(s: State, words: seq<Obj>, oks: seq<bool>, live: set<Obj>)
    requires Closed(s, live) && Inside(words, live)
    ensures Closed(TraceWords(s, words, oks), live)
  {
    if words != [] {
      var n := |words| - 1;
      var u := TraceWords(s, words[..n], oks);
      TraceWordsClosed(s, words[..n], oks, live);
      var t := TracePointer(u, words[n], Granted(oks, n));
      assert forall p :: 0 <= p < |u.work| && p < |t.work| ==> t.work[p] == u.work[p];
    }
  }

  lemma PushItemClosed(s: State, it: Item, ok: bool, live: set<Obj>)
    requires Closed(s, live) && ItemInside(it, live)
    ensures Closed(PushItem(s, it, ok), live)
  {
  }

  lemma MarkItemClosed(s: State, o: Obj, oc: Outcomes, live: set<Obj>)
    requires Closed(s, live) && o in s.kids && o in s.scan && o in live
    ensures Closed(MarkItem(s, o, oc), live)
  {
    var u := SplitObject(s, o, oc);
    if |s.kids[o]| > SPLIT {
      var s1 := s.(shield := s.shield + {o});
      PushItemClosed(s1, Protector(o), oc.protector, live);
      PushItemClosed(PushItem(s1, Protector(o), oc.protector), Chunk(o, SPLIT), oc.chunk, live);
    }
    var v := SetMark(u, o);
    assert Closed(v, live);
    TraceWordsClosed(v, Head(s.kids[o]), oc.words, live);
  }

  lemma MarkChunkClosed(s: State, o: Obj, from: nat, oc: Outcomes, live: set<Obj>)
    requires Closed(s, live) && o in s.kids && o in s.scan && o in live && from <= |s.kids[o]|
    ensures Closed(MarkChunk(s, o, from, oc), live)
  {
    var words := s.kids[o][from..];
    assert Inside(s.kids[o], live);
    var u := if |words| > SPLIT then PushItem(s, Chunk(o, from + SPLIT), oc.chunk) else s;
    TraceWordsClosed(u, Head(words), oc.words, live);
  }

  lemma MarkStackMemoryClosed(s: State, words: seq<Obj>, oc: Outcomes, live: set<Obj>)
    requires Closed(s, live) && Inside(words, live)
    ensures Closed(MarkStackMemory(s, words, oc), live)
  {
    var u := if |words| > SPLIT then PushItem(s, StackMemory(words[SPLIT..]), oc.chunk) else s;
    TraceWordsClosed(u, Head(words), oc.words, live);
  }

  lemma MarkTopClosed(s: State, oc: Outcomes, live: set<Obj>)
    requires WellFormed(s) && s.work != [] && Closed(s, live)
    ensures ItemOk(s, s.work[|s.work| - 1])
    ensures Closed(MarkTop(s, oc), live)
  {
    var it := s.work[|s.work| - 1];
    assert ItemOk(s, it) && ItemInside(it, live);
    var t := Pop(s);
    match it
    case GCObject(o) => MarkItemClosed(t, o, oc, live);
    case Chunk(o, from) => MarkChunkClosed(t, o, from, oc, live);
    case Protector(o) =>
    case StackMemory(words) => MarkStackMemoryClosed(t, words, oc, live);
  }

  lemma TransferClosed(s: State, lo: nat, hi: nat, live: set<Obj>)
    requires Exact(s) && Closed(s, live) && lo <= hi <= |s.barrier|
    ensures Closed(TransferSegment(s, lo, hi), live)
  {
    var t := TransferSegment(s, lo, hi);
    forall p | 0 <= p < |t.work| ensures ItemInside(t.work[p], live) {
      if p < hi - lo {
        assert s.barrier[lo + p] in multiset(s.queued);
      } else {
        assert t.work[p] == s.work[p - (hi - lo)];
      }
    }
  }

  lemma FlushBarrierClosed(s: State, okAll: bool, okOne: bool, live: set<Obj>)
    requires Exact(s) && Closed(s, live)
    ensures Closed(FlushBarrier(s, okAll, okOne), live)
  {
    var n := |s.barrier|;
    if okAll || n == 0 {
      TransferClosed(s, 0, n, live);
    } else {
      assert s.barrier[n - 1] in multiset(s.queued);
    }
  }

  // ------------------------------------------------------------------ the program's steps

  lemma {:induction false} KnownInside(s: State, o: Obj, live: set<Obj>)
    requires WellFormed(s) && Closed(s, live) && Known(s, o)
    ensures o == NULL || o in live
  {
    if o != NULL {
      var path :| Path(s, path, true) && path[|path| - 1] == o;
      PathInside(s, path, |path| - 1, live);
    }
  }

  lemma {:induction false} PathInside(s: State, path: seq<Obj>, k: nat, live: set<Obj>)
    requires WellFormed(s) && Closed(s, live) && Path(s, path, true) && k < |path|
    ensures path[k] in live
  {
    if k == 0 {
      if path[0] !in s.stack {
        var r :| 0 <= r < |s.roots| && path[0] in s.roots[r];
        assert Inside(s.roots[r], live);
      }
    } else {
      PathInside(s, path, k - 1, live);
      assert PointsTo(s, path[k - 1], path[k]);
      assert Inside(s.kids[path[k - 1]], live);
    }
  }

  lemma TrapClosed(s: State, c: Obj, okBarrier: bool, okWork: bool, live: set<Obj>)
    requires Closed(s, live)
    ensures Closed(Trap(s, c, okBarrier, okWork), live)
  {
    var t := Trap(s, c, okBarrier, okWork);
    forall p | 0 <= p < |t.work| ensures ItemInside(t.work[p], live) {
      assert p < |s.work| ==> t.work[p] == s.work[p];
    }
  }

  lemma ReplaceWordsClosed(s: State, c: Obj, words: seq<Obj>, live: set<Obj>)
    requires Closed(s, live) && c in s.kids
    requires c in live && c in s.scan ==> Inside(words, live)
    ensures Closed(s.(kids := s.kids[c := words]), live)
  {
  }

  // The identities a step brings into the heap.
  ghost function Fresh(st: Step): set<Obj> {
    if st.NewObject? then {st.o} else {}
  }

  lemma RearrangeClosed(s: State, o: Obj, words: seq<Obj>, okBarrier: bool, okWork: bool, live: set<Obj>)
    requires Closed(s, live) && o in s.kids
    requires forall j :: 0 <= j < |words| ==> words[j] == NULL || words[j] in s.kids[o]
    ensures Closed(Rearrange(s, o, words, okBarrier, okWork), live)
  {
    var t := if o in s.scan && |s.kids[o]| > SPLIT then Trap(s, o, okBarrier, okWork) else s;
    TrapClosed(s, o, okBarrier, okWork, live);
    ReplaceWordsClosed(t, o, words, live);
  }

  lemma CopyWordsClosed(s: State, dst: Obj, dstOff: nat, src: Obj, srcOff: nat, n: nat,
                        okBarrier: bool, okWork: bool, live: set<Obj>)
    requires Closed(s, live) && dst in s.kids && src in s.kids && src in live && src in s.scan
    requires dstOff + n <= |s.kids[dst]| && srcOff + n <= |s.kids[src]|
    ensures Closed(CopyWords(s, dst, dstOff, src, srcOff, n, okBarrier, okWork), live)
  {
    var t := if dst in s.scan then Trap(s, dst, okBarrier, okWork) else s;
    TrapClosed(s, dst, okBarrier, okWork, live);
    var words := Moved(s.kids[dst], dstOff, s.kids[src], srcOff, n);
    if dst in live && dst in s.scan {
      assert Inside(s.kids[dst], live) && Inside(s.kids[src], live);
    }
    ReplaceWordsClosed(t, dst, words, live);
  }

  lemma StoreClosed(s: State, st: Step, live: set<Obj>)
    requires WellFormed(s) && Closed(s, live) && st.StoreWord? && Enabled(s, st)
    ensures Closed(Next(s, st), live)
  {
    KnownInside(s, st.v, live);
    TrapClosed(s, st.c, st.okBarrier, st.okWork, live);
    var t := if st.trap then Trap(s, st.c, st.okBarrier, st.okWork) else s;
    if st.c in live {
      assert Inside(s.kids[st.c], live);
    }
    ReplaceWordsClosed(t, st.c, t.kids[st.c][st.j := st.v], live);
  }

  lemma RootsClosed(s: State, st: Step, live: set<Obj>)
    requires WellFormed(s) && Closed(s, live) && (st.SetRoot? || st.SetStack?) && Enabled(s, st)
    ensures Closed(Next(s, st), live)
  {
    forall w | w in st.words ensures w == NULL || w in live {
      KnownInside(s, w, live);
    }
  }

  lemma MoveClosed(s: State, st: Step, live: set<Obj>)
    requires WellFormed(s) && Closed(s, live) && Enabled(s, st)
    requires st.MoveWithin? || st.Reverse? || st.Copy?
    ensures Closed(Next(s, st), live)
  {
    match st {
      case MoveWithin(o, dst, src, n, zeroEmptied, okBarrier, okWork) =>
        MovedWithinWords(s.kids[o], dst, src, n, zeroEmptied);
        RearrangeClosed(s, o, MovedWithin(s.kids[o], dst, src, n, zeroEmptied), okBarrier, okWork, live);
      case Reverse(o, off, n, okBarrier, okWork) =>
        RearrangeClosed(s, o, ReversedWithin(s.kids[o], off, n), okBarrier, okWork, live);
      case Copy(o, dstOff, from, srcOff, n, sameArray, okBarrier, okWork) =>
        if sameArray {
          MovedWords(s.kids[o], dstOff, s.kids[o], srcOff, n);
          RearrangeClosed(s, o, Moved(s.kids[o], dstOff, s.kids[o], srcOff, n), okBarrier, okWork, live);
        } else {
          KnownInside(s, from, live);
          CopyWordsClosed(s, o, dstOff, from, srcOff, n, okBarrier, okWork, live);
        }
    }
  }

  lemma MarkerClosed(s: State, st: Step, live: set<Obj>)
    requires Inv(s, {}) && Closed(s, live) && Enabled(s, st)
    requires st.MarkOne? || st.TraceRoot? || st.Transfer?
    ensures Closed(Next(s, st), live)
  {
    match st {
      case MarkOne(oc) => MarkTopClosed(s, oc, live);
      case TraceRoot(r, oks) => TraceWordsClosed(s, s.roots[r], oks, live);
      case Transfer(lo, hi) => TransferClosed(s, lo, hi, live);
    }
  }

  // Every step keeps the set closed, after adding the object it allocates.
  lemma StepClosed(s: State, st: Step, live: set<Obj>)
    requires Inv(s, {}) && Closed(s, live) && Enabled(s, st)
    ensures Closed(Next(s, st), live + Fresh(st))
  {
    if st.NewObject? {
      AllocateClosed(s, st.o, st.n, st.pointers, live);
    } else {
      if st.StoreWord? {
        StoreClosed(s, st, live);
      } else if st.FreeObject? {
        ReplaceWordsClosed(s, st.o, seq(|s.kids[st.o]|, _ => NULL), live);
      } else if st.SetRoot? || st.SetStack? {
        RootsClosed(s, st, live);
      } else if st.MoveWithin? || st.Reverse? || st.Copy? {
        MoveClosed(s, st, live);
      } else {
        MarkerClosed(s, st, live);
      }
      ClosedGrows(Next(s, st), live, live + Fresh(st));
    }
  }

  lemma AllocateClosed(s: State, o: Obj, n: nat, pointers: bool, live: set<Obj>)
    requires WellFormed(s) && Closed(s, live) && o !in s.kids
    ensures Closed(Allocate(s, o, n, pointers), live + {o})
  {
    var t := Allocate(s, o, n, pointers);
    forall p | 0 <= p < |t.work| ensures ItemInside(t.work[p], live + {o}) {
      assert ItemInside(s.work[p], live);
    }
    forall r | 0 <= r < |t.roots| ensures Inside(t.roots[r], live + {o}) {
      assert Inside(s.roots[r], live);
    }
    forall x | x in t.kids && x in live + {o} && x in t.scan ensures Inside(t.kids[x], live + {o}) {
      if x != o {
        assert Inside(s.kids[x], live);
      }
    }
  }

  lemma ClosedGrows(s: State, a: set<Obj>, b: set<Obj>)
    requires Closed(s, a) && a == b
    ensures Closed(s, b)
  {
  }

  // The objects allocated by a run.
  ghost function Allocated(steps: seq<Step>): set<Obj> {
    if steps == [] then {} else Allocated(steps[..|steps| - 1]) + Fresh(steps[|steps| - 1])
  }

  lemma StartClosed(s: State, live: set<Obj>)
    requires Start(s)
    requires forall o :: o in s.kids ==> (o in live <==> Reachable(s, o, true))
    ensures Closed(s, live)
  {
    forall r, w | 0 <= r < |s.roots| && w in s.roots[r] && w != NULL ensures w in live {
      assert WordsOk(s, s.roots[r]);
      assert RootWord(s, w, true);
      assert Path(s, [w], true);
      assert [w][|[w]| - 1] == w;
    }
    forall w | w in s.stack && w != NULL ensures w in live {
      assert Path(s, [w], true);
      assert [w][|[w]| - 1] == w;
    }
    forall o, w | o in s.kids && o in live && o in s.scan && w in s.kids[o] && w != NULL ensures w in live {
      assert WordsOk(s, s.kids[o]);
      ReachableOn(s, o, w);
    }
  }

  // A path can be continued by a pointer.
  lemma ReachableOn(s: State, o: Obj, w: Obj)
    requires Reachable(s, o, true) && PointsTo(s, o, w) && w != NULL
    ensures Reachable(s, w, true)
  {
    var path :| Path(s, path, true) && path[|path| - 1] == o;
    var path' := path + [w];
    forall k, l | 0 <= k < |path'| && l == k + 1 && l < |path'| ensures PointsTo(s, path'[k], path'[l]) {
      if l < |path| {
        assert path'[k] == path[k] && path'[l] == path[l];
      }
    }
    assert Path(s, path', true) && path'[|path'| - 1] == w;
  }

  lemma {:induction false} RunClosed(states: seq<State>, steps: seq<Step>, i: nat, live: set<Obj>)
    requires IsRun(states, steps) && i < |states| && Closed(states[0], live)
    ensures Closed(states[i], live + Allocated(steps[..i]))
  {
    if i == 0 {
      assert steps[..0] == [];
      ClosedGrows(states[0], live, live + Allocated(steps[..0]));
    } else {
      RunClosed(states, steps, i - 1, live);
      RunKeepsInv(states, steps, i - 1);
      StepClosed(states[i - 1], steps[i - 1], live + Allocated(steps[..i - 1]));
      assert steps[..i][..i - 1] == steps[..i - 1];
      ClosedGrows(states[i], live + Allocated(steps[..i - 1]) + Fresh(steps[i - 1]), live + Allocated(steps[..i]));
    }
  }

  // An object that no root or stack word reached when marking started, and whose identity
  // was not reused, is neither black nor grey in any later state of the run.
  lemma UnreachableStaysWhite(states: seq<State>, steps: seq<Step>, i: nat, o: Obj)
    requires IsRun(states, steps) && i < |states|
    requires o in states[0].kids && !Reachable(states[0], o, true) && o !in Allocated(steps[..i])
    ensures !NonWhite(states[i], o) && o !in states[i].barrier
  {
    var live := set x | x in states[0].kids && Reachable(states[0], x, true);
    StartClosed(states[0], live);
    RunClosed(states, steps, i, live);
    RunKeepsInv(states, steps, i);
    assert forall x :: x in states[i].barrier ==> x in multiset(states[i].queued);
  }
}
