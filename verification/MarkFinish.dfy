/**
 The finishing phase: every pass that overflows has blackened an object, a pass that does
 not overflow restores the tri-colour invariant, and when both stacks are empty exactly
 the reachable objects that must survive are black.
 */
module MarkFinish {
  import opened MarkModel
  import opened MarkInvariants
  import opened MarkRuns
  import opened MarkProgress

  // ------------------------------------------------------------------ progress of a pass

  // Since `base` was the set of black objects, either another object has turned black, or
  // at most two items on the stack are not objects and an overflow left an object there.
  ghost predicate Progress(s: State, base: set<Obj>) {
    && base <= s.marked
    && (s.marked == base ==>
          |s.work| <= |Objects(s.work)| + 2 && (s.overflow ==> Objects(s.work) != []))
  }

  lemma {:induction false} TraceWordsProgress(s: State, words: seq<Obj>, oks: seq<bool>, base: set<Obj>)
    requires Progress(s, base)
    ensures Progress(TraceWords(s, words, oks), base)
    ensures s.marked <= TraceWords(s, words, oks).marked
  {
    if words != [] {
      var n := |words| - 1;
      var u := TraceWords(s, words[..n], oks);
      TraceWordsProgress(s, words[..n], oks, base);
      ObjectsAppend(u.work, GCObject(words[n]));
      if !NonWhite(u, words[n]) && words[n] !in u.scan {
        assert words[n] in TraceWords(s, words, oks).marked && words[n] !in u.marked;
      }
    }
  }

  // Pushing an item other than an object leaves room for one fewer of them.
  lemma PushItemProgress(s: State, it: Item, ok: bool, base: set<Obj>)
    requires Progress(s, base) && !it.GCObject?
    requires s.marked == base ==> |s.work| <= |Objects(s.work)| + 1
    ensures Progress(PushItem(s, it, ok), base)
  {
    ObjectsAppend(s.work, it);
  }

  lemma PopOtherProgress(s: State, base: set<Obj>)
    requires Progress(s, base) && s.work != [] && !s.work[|s.work| - 1].GCObject?
    ensures Progress(Pop(s), base)
    ensures s.marked == base ==> |Pop(s).work| <= |Objects(Pop(s).work)| + 1
  {
    assert Objects(s.work) == Objects(Pop(s).work);
  }

  lemma MarkTopProgress(s: State, oc: Outcomes, exempt: set<Obj>, base: set<Obj>)
    requires Inv(s, exempt) && s.work != [] && Progress(s, base)
    ensures ItemOk(s, s.work[|s.work| - 1])
    ensures Progress(MarkTop(s, oc), base)
  {
    var it := s.work[|s.work| - 1];
    assert ItemOk(s, it);
    MarkTopDecreases(s, oc, exempt);
    match it {
      case GCObject(o) =>
        BlackenedByPop(s, oc, exempt);
      case Chunk(o, from) =>
        PopOtherProgress(s, base);
        var u := RePush(Pop(s), o, from, oc);
        if |s.kids[o][from..]| > SPLIT {
          PushItemProgress(Pop(s), Chunk(o, from + SPLIT), oc.chunk, base);
        }
        TraceWordsProgress(u, Head(s.kids[o][from..]), oc.words, base);
      case Protector(o) =>
        PopOtherProgress(s, base);
      case StackMemory(words) =>
        PopOtherProgress(s, base);
        var u := RePushStack(Pop(s), words, oc);
        if |words| > SPLIT {
          PushItemProgress(Pop(s), StackMemory(words[SPLIT..]), oc.chunk, base);
        }
        TraceWordsProgress(u, Head(words), oc.words, base);
    }
  }

  lemma BlackenedByPop(s: State, oc: Outcomes, exempt: set<Obj>)
    requires Inv(s, exempt) && s.work != [] && s.work[|s.work| - 1].GCObject?
    ensures ItemOk(s, s.work[|s.work| - 1])
    ensures s.work[|s.work| - 1].o !in s.marked && s.work[|s.work| - 1].o in MarkTop(s, oc).marked
  {
    var o := s.work[|s.work| - 1].o;
    assert ItemOk(s, s.work[|s.work| - 1]);
    PopObjectKeeps(s, exempt);
    SetMarkCommutes(Pop(s), o, oc);
    var u := SetMark(Pop(s), o);
    TraceObjectKeeps(u, o, oc, exempt);
    SplitObjectFrame(u, o, oc);
  }

  lemma SplitProgress(s: State, o: Obj, oc: Outcomes, base: set<Obj>)
    requires Progress(s, base) && s.work == [] && o in s.kids
    ensures Progress(SplitObject(s, o, oc), base)
  {
    if |s.kids[o]| > SPLIT {
      var s1 := s.(shield := s.shield + {o});
      var s2 := PushItem(s1, Protector(o), oc.protector);
      PushItemProgress(s1, Protector(o), oc.protector, base);
      assert s2.work == [Protector(o)];
      PushItemProgress(s2, Chunk(o, SPLIT), oc.chunk, base);
    }
  }

  // Re-marking a black object during recovery, with an empty mark stack.
  lemma RemarkProgress(s: State, o: Obj, oc: Outcomes, base: set<Obj>)
    requires Progress(s, base) && s.work == [] && o in s.marked && o in s.kids
    ensures Progress(MarkItem(s, o, oc), base)
  {
    var u := SplitObject(s, o, oc);
    SplitProgress(s, o, oc, base);
    assert u.marked == s.marked;
    assert SetMark(u, o).marked == u.marked;
    TraceWordsProgress(SetMark(u, o), Head(s.kids[o]), oc.words, base);
  }

  // ------------------------------------------------------------------ scanning the stack

  // The word has been traced or is in a stack item still to be processed.
  ghost predicate WordCovered(s: State, w: Obj) {
    NonWhite(s, w) || exists p :: 0 <= p < |s.work| && s.work[p].StackMemory? && w in s.work[p].words
  }

  lemma WordCoveredGrows(s: State, t: State, w: Obj)
    requires WordCovered(s, w) && s.work <= t.work
    requires NonWhite(s, w) ==> NonWhite(t, w)
    ensures WordCovered(t, w)
  {
    if !NonWhite(s, w) {
      var p :| 0 <= p < |s.work| && s.work[p].StackMemory? && w in s.work[p].words;
      assert t.work[p] == s.work[p];
    }
  }

  lemma {:induction false} TraceWordsPrefix(s: State, words: seq<Obj>, oks: seq<bool>)
    ensures s.work <= TraceWords(s, words, oks).work
  {
    if words != [] {
      TraceWordsPrefix(s, words[..|words| - 1], oks);
    }
  }

  lemma MarkItemPrefix(s: State, o: Obj, oc: Outcomes)
    requires o in s.kids
    ensures s.work <= MarkItem(s, o, oc).work
  {
    TraceWordsPrefix(SetMark(SplitObject(s, o, oc), o), Head(s.kids[o]), oc.words);
  }

  // The work below the item being processed is left alone.
  lemma MarkTopPrefix(s: State, oc: Outcomes)
    requires WellFormed(s) && s.work != []
    ensures ItemOk(s, s.work[|s.work| - 1])
    ensures Pop(s).work <= MarkTop(s, oc).work
  {
    assert ItemOk(s, s.work[|s.work| - 1]);
    match s.work[|s.work| - 1] {
      case GCObject(o) =>
        MarkItemPrefix(Pop(s), o, oc);
      case Chunk(o, from) =>
        TraceWordsPrefix(RePush(Pop(s), o, from, oc), Head(s.kids[o][from..]), oc.words);
      case Protector(_) =>
      case StackMemory(words) =>
        TraceWordsPrefix(RePushStack(Pop(s), words, oc), Head(words), oc.words);
    }
  }

  lemma MarkTopWordCovered(s: State, oc: Outcomes, exempt: set<Obj>, w: Obj)
    requires Inv(s, exempt) && s.work != [] && WordCovered(s, w)
    ensures ItemOk(s, s.work[|s.work| - 1])
    ensures !MarkTop(s, oc).overflow ==> WordCovered(MarkTop(s, oc), w)
  {
    var it := s.work[|s.work| - 1];
    var t := MarkTop(s, oc);
    MarkTopDecreases(s, oc, exempt);
    MarkTopPrefix(s, oc);
    if !t.overflow && !NonWhite(s, w) {
      var p :| 0 <= p < |s.work| && s.work[p].StackMemory? && w in s.work[p].words;
      if p < |s.work| - 1 {
        assert t.work[p] == s.work[p];
      } else {
        StackItemCovers(s, oc, exempt, w);
      }
    }
  }

  lemma BeyondHead(words: seq<Obj>, w: Obj)
    requires w in words && w !in Head(words)
    ensures |words| > SPLIT && w in words[SPLIT..]
  {
    if |words| > SPLIT {
      assert words == words[..SPLIT] + words[SPLIT..];
    }
  }

  lemma StackItemCovers(s: State, oc: Outcomes, exempt: set<Obj>, w: Obj)
    requires Inv(s, exempt) && s.work != []
    requires s.work[|s.work| - 1].StackMemory? && w in s.work[|s.work| - 1].words
    ensures !MarkTop(s, oc).overflow ==> WordCovered(MarkTop(s, oc), w)
  {
    var words := s.work[|s.work| - 1].words;
    var t := MarkTop(s, oc);
    PopOtherKeeps(s, exempt);
    var u := RePushStack(Pop(s), words, oc);
    RePushStackKeeps(Pop(s), words, oc, exempt);
    TraceWordsKeeps(u, Head(words), oc.words, exempt);
    if !t.overflow && w !in Head(words) {
      BeyondHead(words, w);
      assert u.work[|u.work| - 1].words == words[SPLIT..];
      WordCoveredGrows(u, t, w);
    }
  }

  // ------------------------------------------------------------------ the end of marking

  ghost predicate AllNonWhite(s: State, words: seq<Obj>) {
    forall w :: w in words ==> NonWhite(s, w)
  }

  // Marking is complete: nothing is stacked, nothing overflowed, every root was traced.
  ghost predicate Finished(s: State, withStack: bool) {
    && Inv(s, {}) && !s.overflow
    && s.work == [] && s.barrier == []
    && (forall r :: 0 <= r < |s.roots| ==> AllNonWhite(s, s.roots[r]))
    && (withStack ==> AllNonWhite(s, s.stack))
  }

  lemma NothingQueued(s: State)
    requires Exact(s) && s.work == [] && s.barrier == []
    ensures s.queued == {}
  {
    assert forall x :: x in s.queued ==> x in multiset(s.queued);
  }

  lemma {:induction false} FinishedPathMarked(s: State, path: seq<Obj>, k: nat, withStack: bool)
    requires Finished(s, withStack) && Path(s, path, withStack) && k < |path|
    ensures path[k] in s.marked
  {
    NothingQueued(s);
    if k == 0 {
      if exists r :: 0 <= r < |s.roots| && path[0] in s.roots[r] {
        var r :| 0 <= r < |s.roots| && path[0] in s.roots[r];
        assert AllNonWhite(s, s.roots[r]);
      }
    } else {
      FinishedPathMarked(s, path, k - 1, withStack);
      assert PointsTo(s, path[k - 1], path[k]);
      var j :| 0 <= j < |s.kids[path[k - 1]]| && s.kids[path[k - 1]][j] == path[k];
      assert Covered(s, path[k - 1], j);
    }
  }

  // Safety: when marking is complete every reachable object is black and none is grey.
  lemma FinishedMarksReachable(s: State, withStack: bool, o: Obj)
    requires Finished(s, withStack) && Reachable(s, o, withStack)
    ensures o in s.marked && s.queued == {}
  {
    NothingQueued(s);
    var path :| Path(s, path, withStack) && path[|path| - 1] == o;
    FinishedPathMarked(s, path, |path| - 1, withStack);
  }
}
