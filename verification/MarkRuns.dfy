/**
 Runs of the marking phase: any interleaving of mark steps, root tracing, barrier
 transfers and program steps.  Safety, completeness and the shielding of split objects
 are stated over every state of every run.
 */
module MarkRuns {
  import opened Paths
  import opened MarkModel
  import opened MarkInvariants
  import opened MutatorSteps

  // ------------------------------------------------------------------ reachability

  ghost predicate RootWord(s: State, o: Obj, withStack: bool) {
    (exists r :: 0 <= r < |s.roots| && o in s.roots[r]) || (withStack && o in s.stack)
  }

  ghost predicate PointsTo(s: State, a: Obj, b: Obj) {
    a in s.scan && a in s.kids && b in s.kids[a]
  }

  // A chain of pointers from a root word through objects that may contain pointers.
  ghost predicate Path(s: State, path: seq<Obj>, withStack: bool) {
    && path != []
    && RootWord(s, path[0], withStack)
    && (forall k :: 0 <= k < |path| ==> path[k] != NULL)
    && (forall k, l :: 0 <= k < |path| && l == k + 1 && l < |path| ==> PointsTo(s, path[k], path[l]))
  }

  ghost predicate Reachable(s: State, o: Obj, withStack: bool) {
    exists path :: Path(s, path, withStack) && path[|path| - 1] == o
  }

  // ------------------------------------------------------------------ the steps

  datatype Step =
    | MarkOne(oc: Outcomes)
    | TraceRoot(r: nat, oks: seq<bool>)
    | Transfer(lo: nat, hi: nat)
    | StoreWord(c: Obj, j: nat, v: Obj, trap: bool, okBarrier: bool, okWork: bool)
    | MoveWithin(o: Obj, dst: nat, src: nat, n: nat, zeroEmptied: bool, okBarrier: bool, okWork: bool)
    | Reverse(o: Obj, off: nat, n: nat, okBarrier: bool, okWork: bool)
    | Copy(o: Obj, dstOff: nat, from: Obj, srcOff: nat, n: nat, sameArray: bool, okBarrier: bool, okWork: bool)
    | NewObject(o: Obj, n: nat, pointers: bool)
    | FreeObject(o: Obj)
    | SetRoot(r: nat, words: seq<Obj>)
    | SetStack(words: seq<Obj>)

  // The program works on objects it can reach and stores words it can reach.
  ghost predicate Known(s: State, o: Obj) {
    o == NULL || Reachable(s, o, true)
  }

  ghost predicate Enabled(s: State, st: Step) {
    match st
    case MarkOne(_) => s.work != []
    case TraceRoot(r, _) => r < |s.roots|
    case Transfer(lo, hi) => lo <= hi <= |s.barrier|
    case StoreWord(c, j, v, trap, _, _) =>
      Reachable(s, c, true) && c in s.scan && c in s.kids && j < |s.kids[c]| && Known(s, v) && (v == NULL || trap)
    case MoveWithin(o, dst, src, n, _, _, _) =>
      o in s.kids && dst + n <= |s.kids[o]| && src + n <= |s.kids[o]|
    case Reverse(o, off, n, _, _) => o in s.kids && off + n <= |s.kids[o]|
    case Copy(o, dstOff, from, srcOff, n, sameArray, _, _) =>
      && (sameArray ==> o == from)
      && Reachable(s, o, true) && Reachable(s, from, true) && o in s.kids && from in s.kids && from in s.scan
      && dstOff + n <= |s.kids[o]| && srcOff + n <= |s.kids[from]|
    case NewObject(o, _, _) => o != NULL && o !in s.kids
    case FreeObject(o) =>
      // No dangling pointer is left behind; once exposed, the program spares split objects.
      o in s.kids && (FreeRefused(s, o) || (Unreferenced(s, o) && (s.exposed ==> !HasSplit(s.work, o))))
    case SetRoot(r, words) => r < |s.roots| && forall w :: w in words ==> Known(s, w)
    case SetStack(words) => forall w :: w in words ==> Known(s, w)
  }

  ghost function Next(s: State, st: Step): State
    requires WellFormed(s) && Enabled(s, st)
  {
    match st
    case MarkOne(oc) => assert ItemOk(s, s.work[|s.work| - 1]); MarkTop(s, oc)
    case TraceRoot(r, oks) => TraceWords(s, s.roots[r], oks)
    case Transfer(lo, hi) => TransferSegment(s, lo, hi)
    case StoreWord(c, j, v, trap, okBarrier, okWork) => Store(s, c, j, v, trap, okBarrier, okWork)
    case MoveWithin(o, dst, src, n, zeroEmptied, okBarrier, okWork) =>
      MoveWithinBlock(s, o, dst, src, n, zeroEmptied, okBarrier, okWork)
    case Reverse(o, off, n, okBarrier, okWork) => ReverseWithinBlock(s, o, off, n, okBarrier, okWork)
    case Copy(o, dstOff, from, srcOff, n, sameArray, okBarrier, okWork) =>
      MovePointers(s, o, dstOff, from, srcOff, n, sameArray, okBarrier, okWork)
    case NewObject(o, n, pointers) => Allocate(s, o, n, pointers)
    case FreeObject(o) => Free(s, o)
    case SetRoot(r, words) => s.(roots := s.roots[r := words])
    case SetStack(words) => s.(stack := words)
  }

  // The state in which StartIncrementalMark leaves the heap before tracing any root.
  ghost predicate Start(s: State) {
    && WellFormed(s) && s.work == [] && s.barrier == []
    && s.marked == {} && s.queued == {} && !s.overflow && !s.exposed
  }

  ghost predicate IsRun(states: seq<State>, steps: seq<Step>) {
    && |states| == |steps| + 1
    && Start(states[0])
    && forall i :: 0 <= i < |steps| ==>
         WellFormed(states[i]) && Enabled(states[i], steps[i]) && states[i + 1] == Next(states[i], steps[i])
  }

  // ------------------------------------------------------------------ stretches of a run

  ghost predicate Leads(s: State, st: Step, t: State) {
    WellFormed(s) && Enabled(s, st) && t == Next(s, st)
  }

  // Some sequence of steps leads from s to t.
  ghost predicate Reaches(s: State, t: State) {
    Connected(Leads, s, t)
  }

  lemma TransferReaches(s: State, lo: nat, hi: nat)
    requires WellFormed(s) && lo <= hi <= |s.barrier|
    ensures Reaches(s, TransferSegment(s, lo, hi))
  {
    ConnectedSelf(Leads, s);
    ConnectedOn(Leads, s, s, Transfer(lo, hi), TransferSegment(s, lo, hi));
  }

  lemma TraceRootReaches(s0: State, s: State, r: nat, oks: seq<bool>)
    requires WellFormed(s) && r < |s.roots| && Reaches(s0, s)
    ensures Reaches(s0, TraceWords(s, s.roots[r], oks))
  {
    ConnectedOn(Leads, s0, s, TraceRoot(r, oks), TraceWords(s, s.roots[r], oks));
  }

  // What is reached from a start is the last state of a run.
  lemma ReachedIsRun(s: State, t: State) returns (states: seq<State>, steps: seq<Step>)
    requires Start(s) && Reaches(s, t)
    ensures IsRun(states, steps) && states[0] == s && states[|steps|] == t
  {
    states, steps :| Stretch(Leads, states, steps, s, t);
    forall i | 0 <= i < |steps|
      ensures WellFormed(states[i]) && Enabled(states[i], steps[i]) && states[i + 1] == Next(states[i], steps[i])
    {
      assert StepAt(Leads, states, steps, i);
    }
  }

  // ------------------------------------------------------------------ safety over every run

  lemma {:induction false} KnownInHeap(s: State, o: Obj)
    requires WellFormed(s) && Known(s, o)
    ensures o == NULL || o in s.kids
  {
    if o != NULL {
      var path :| Path(s, path, true) && path[|path| - 1] == o;
      if |path| == 1 {
        if o in s.stack {
          assert WordsOk(s, s.stack);
        } else {
          var r :| 0 <= r < |s.roots| && o in s.roots[r];
          assert WordsOk(s, s.roots[r]);
        }
      } else {
        assert WordsOk(s, s.kids[path[|path| - 2]]);
      }
    }
  }

  lemma SetRootsKeeps(s: State, st: Step)
    requires Inv(s, {}) && Enabled(s, st) && (st.SetRoot? || st.SetStack?)
    ensures Inv(Next(s, st), {})
  {
    var t := Next(s, st);
    forall w | w in st.words ensures w == NULL || w in s.kids {
      KnownInHeap(s, w);
    }
    forall o | o in t.kids ensures WordsOk(t, t.kids[o]) {
      assert WordsOk(s, s.kids[o]);
    }
    forall r | 0 <= r < |t.roots| ensures WordsOk(t, t.roots[r]) {
      assert WordsOk(s, s.roots[r]);
    }
    forall p | 0 <= p < |t.work| ensures ItemOk(t, t.work[p]) {
      assert ItemOk(s, s.work[p]);
    }
    if !s.overflow {
      TriColourGrows(s, t, {});
    }
  }

  lemma FreeKeeps(s: State, o: Obj)
    requires Inv(s, {}) && Enabled(s, FreeObject(o))
    ensures Inv(Free(s, o), {})
  {
    if FreeRefused(s, o) {
      RefusedFreeKeeps(s, o);
    } else {
      if !s.exposed && HasSplit(s.work, o) {
        FreeRefusedWhileSplit(s, o, {});
      }
      ReleaseKeeps(s, o);
    }
  }

  lemma StepKeepsInv(s: State, st: Step)
    requires Inv(s, {}) && Enabled(s, st)
    ensures Inv(Next(s, st), {})
  {
    match st
    case MarkOne(oc) => MarkTopKeeps(s, oc, {});
    case TraceRoot(r, oks) =>
      assert WordsOk(s, s.roots[r]);
      TraceWordsKeeps(s, s.roots[r], oks, {});
    case Transfer(lo, hi) => TransferKeeps(s, lo, hi, {});
    case StoreWord(c, j, v, trap, okBarrier, okWork) =>
      KnownInHeap(s, v);
      StoreKeeps(s, c, j, v, trap, okBarrier, okWork);
    case MoveWithin(o, dst, src, n, zeroEmptied, okBarrier, okWork) =>
      MovedWithinWords(s.kids[o], dst, src, n, zeroEmptied);
      RearrangeKeeps(s, o, MovedWithin(s.kids[o], dst, src, n, zeroEmptied), okBarrier, okWork);
    case Reverse(o, off, n, okBarrier, okWork) =>
      RearrangeKeeps(s, o, ReversedWithin(s.kids[o], off, n), okBarrier, okWork);
    case Copy(o, dstOff, from, srcOff, n, sameArray, okBarrier, okWork) =>
      if sameArray {
        MovedWords(s.kids[o], dstOff, s.kids[o], srcOff, n);
        RearrangeKeeps(s, o, Moved(s.kids[o], dstOff, s.kids[o], srcOff, n), okBarrier, okWork);
      } else {
        CopyWordsKeeps(s, o, dstOff, from, srcOff, n, okBarrier, okWork);
      }
    case NewObject(o, n, pointers) => AllocateKeeps(s, o, n, pointers);
    case FreeObject(o) => FreeKeeps(s, o);
    case SetRoot(r, words) => SetRootsKeeps(s, st);
    case SetStack(words) => SetRootsKeeps(s, st);
  }

  // Every state of every run satisfies the marking invariant.
  lemma {:induction false} RunKeepsInv(states: seq<State>, steps: seq<Step>, i: nat)
    requires IsRun(states, steps) && i < |states|
    ensures Inv(states[i], {})
  {
    if i > 0 {
      RunKeepsInv(states, steps, i - 1);
      StepKeepsInv(states[i - 1], steps[i - 1]);
    }
  }

  // In every run, freeing an object is refused while a chunk of it is pending, unless a
  // barrier push failed for an object with a pending chunk.
  lemma RunShieldsSplitObjects(states: seq<State>, steps: seq<Step>, i: nat, o: Obj)
    requires IsRun(states, steps) && i < |states|
    requires !states[i].exposed && HasSplit(states[i].work, o)
    ensures o in states[i].kids && FreeRefused(states[i], o)
  {
    RunKeepsInv(states, steps, i);
    FreeRefusedWhileSplit(states[i], o, {});
  }

}
