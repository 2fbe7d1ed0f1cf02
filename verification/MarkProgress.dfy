/**
 Why marking ends: the measure of GC::Mark, the progress made by every pass that
 overflows, and what holds when the finishing phase is over.
 */
module MarkProgress {
  import opened MarkModel
  import opened MarkInvariants

  // What no step of the finishing phase changes or undoes.
  ghost predicate Frame(s: State, t: State) {
    && t.kids == s.kids && t.scan == s.scan && t.order == s.order
    && t.roots == s.roots && t.stack == s.stack && t.exposed == s.exposed
    && s.marked <= t.marked
    && (forall o :: NonWhite(s, o) ==> NonWhite(t, o))
    && (s.overflow ==> t.overflow)
  }

  // ------------------------------------------------------------------ the measure of Mark

  ghost function ItemWeight(s: State, it: Item): nat {
    match it
    case GCObject(_) => 1
    case Protector(_) => 1
    case Chunk(o, from) => if o in s.kids && from <= |s.kids[o]| then |s.kids[o]| - from + 1 else 1
    case StackMemory(words) => |words| + 1
  }

  ghost function Weight(s: State, work: seq<Item>): nat {
    if work == [] then 0 else Weight(s, work[..|work| - 1]) + ItemWeight(s, work[|work| - 1])
  }

  lemma {:induction false} WeightFrame(s: State, t: State, work: seq<Item>)
    requires s.kids == t.kids
    ensures Weight(s, work) == Weight(t, work)
  {
    if work != [] {
      WeightFrame(s, t, work[..|work| - 1]);
    }
  }

  // Less unmarked, or as much unmarked and less white, or the same and less stacked work.
  ghost predicate Decreases(s: State, t: State) {
    || s.marked < t.marked <= t.kids.Keys
    || (s.marked == t.marked && s.queued < t.queued)
    || (s.marked == t.marked && s.queued == t.queued && Weight(t, t.work) < Weight(s, s.work))
  }

  ghost function Unmarked(s: State): nat {
    |s.kids.Keys - s.marked|
  }

  ghost function White(s: State): nat {
    |s.kids.Keys - s.marked - s.queued|
  }

  lemma MeasureDecreases(s: State, t: State)
    requires WellFormed(s) && WellFormed(t) && s.kids == t.kids && Decreases(s, t)
    ensures Unmarked(t) <= Unmarked(s)
    ensures Unmarked(t) == Unmarked(s) ==> White(t) <= White(s)
    ensures Unmarked(t) == Unmarked(s) && White(t) == White(s) ==> Weight(t, t.work) < Weight(s, s.work)
  {
    var keys := s.kids.Keys;
    if s.marked < t.marked {
      Shrinks(keys - s.marked, keys - t.marked);
      assert keys - t.marked < keys - s.marked by {
        var x := Extra(s.marked, t.marked);
        assert x in keys - s.marked && x !in keys - t.marked;
      }
    } else if s.queued < t.queued {
      Shrinks(keys - s.marked - s.queued, keys - t.marked - t.queued);
      assert keys - t.marked - t.queued < keys - s.marked - s.queued by {
        var x := Extra(s.queued, t.queued);
        assert x in keys - s.marked - s.queued;
      }
    }
  }

  lemma Extra(a: set<Obj>, b: set<Obj>) returns (x: Obj)
    requires a < b
    ensures x in b && x !in a
  {
    if forall y :: y in b ==> y in a {
      assert false;
    }
    x :| x in b && x !in a;
  }

  lemma Shrinks(a: set<Obj>, b: set<Obj>)
    requires b <= a
    ensures |b| <= |a| && (b < a ==> |b| < |a|)
  {
    assert a == b + (a - b);
    assert |a| == |b| + |a - b|;
  }

  // Tracing adds to the marked objects, or else to the queued ones, or changes nothing.
  ghost predicate Grows(s: State, t: State) {
    || s.marked < t.marked
    || (s.marked == t.marked && (s.queued < t.queued || (s.queued == t.queued && s.work == t.work)))
  }

  lemma TracePointerGrows(s: State, v: Obj, ok: bool)
    requires s.marked !! s.queued
    ensures Grows(s, TracePointer(s, v, ok))
  {
    var t := TracePointer(s, v, ok);
    if !NonWhite(s, v) && v in s.scan && !Fits(s, ok) {
      assert s.queued + {v} - {v} == s.queued;
    } else if !NonWhite(s, v) {
      assert v in t.marked + t.queued;
    }
  }

  lemma {:induction false} TraceWordsGrows(s: State, words: seq<Obj>, oks: seq<bool>)
    requires s.marked !! s.queued
    ensures Grows(s, TraceWords(s, words, oks)) && TraceWords(s, words, oks).marked !! TraceWords(s, words, oks).queued
  {
    if words != [] {
      var n := |words| - 1;
      TraceWordsGrows(s, words[..n], oks);
      TracePointerGrows(TraceWords(s, words[..n], oks), words[n], Granted(oks, n));
    }
  }

  lemma MarkObjectDecreases(s: State, oc: Outcomes, exempt: set<Obj>)
    requires Inv(s, exempt) && s.work != [] && s.work[|s.work| - 1].GCObject?
    ensures ItemOk(s, s.work[|s.work| - 1])
    ensures Decreases(s, MarkTop(s, oc)) && Frame(s, MarkTop(s, oc))
    ensures s.barrier == MarkTop(s, oc).barrier
  {
    var o := s.work[|s.work| - 1].o;
    assert ItemOk(s, s.work[|s.work| - 1]);
    PopObjectKeeps(s, exempt);
    var u := SetMark(Pop(s), o);
    SetMarkCommutes(Pop(s), o, oc);
    TraceObjectKeeps(u, o, oc, exempt);
    SplitObjectFrame(u, o, oc);
    MarkTopKeeps(s, oc, exempt);
    assert o in u.marked;
  }

  // Tracing a chunk of a stack item decreases the measure, even when the rest is pushed back.
  lemma TraceRestDecreases(s: State, s': State, u: State, words: seq<Obj>, oks: seq<bool>, exempt: set<Obj>)
    requires s.work != [] && s' == Pop(s)
    requires Inv(u, exempt) && WordsOk(u, words)
    requires u == s'.(work := u.work, overflow := u.overflow) && (s.overflow ==> u.overflow)
    requires u.work == s'.work
          || (u.work != [] && u.work[..|u.work| - 1] == s'.work
              && ItemWeight(s, u.work[|u.work| - 1]) < ItemWeight(s, s.work[|s.work| - 1]))
    ensures var t := TraceWords(u, words, oks);
            t.marked <= t.kids.Keys ==> Decreases(s, t) && Frame(s, t) && s.barrier == t.barrier
  {
    var t := TraceWords(u, words, oks);
    TraceWordsKeeps(u, words, oks, exempt);
    TraceWordsGrows(u, words, oks);
    WeightFrame(s, t, s'.work);
    WeightFrame(s, u, u.work);
    WeightFrame(s, t, t.work);
  }

  // What remains of a chunk weighs less than the chunk did.
  lemma RePushLighter(s: State, s': State, oc: Outcomes)
    requires s.work != [] && s' == Pop(s) && s.work[|s.work| - 1].Chunk? && ItemOk(s, s.work[|s.work| - 1])
    ensures var it := s.work[|s.work| - 1];
            var u := RePush(s', it.o, it.from, oc);
            && u == s'.(work := u.work, overflow := u.overflow) && (s.overflow ==> u.overflow)
            && (u.work == s'.work
                || (u.work != [] && u.work[..|u.work| - 1] == s'.work
                    && ItemWeight(s, u.work[|u.work| - 1]) < ItemWeight(s, it)))
  {
  }

  lemma MarkChunkDecreases(s: State, oc: Outcomes, exempt: set<Obj>)
    requires Inv(s, exempt) && s.work != [] && s.work[|s.work| - 1].Chunk?
    ensures ItemOk(s, s.work[|s.work| - 1])
    ensures Inv(MarkTop(s, oc), exempt) ==> Decreases(s, MarkTop(s, oc)) && Frame(s, MarkTop(s, oc))
    ensures Inv(MarkTop(s, oc), exempt) ==> s.barrier == MarkTop(s, oc).barrier
  {
    var it := s.work[|s.work| - 1];
    PopOtherKeeps(s, exempt);
    RePushKeeps(Pop(s), it.o, it.from, oc, exempt + {it.o});
    RePushLighter(s, Pop(s), oc);
    TraceRestDecreases(s, Pop(s), RePush(Pop(s), it.o, it.from, oc),
                       Head(s.kids[it.o][it.from..]), oc.words, exempt + {it.o});
  }

  lemma MarkStackMemoryDecreases(s: State, oc: Outcomes, exempt: set<Obj>)
    requires Inv(s, exempt) && s.work != [] && s.work[|s.work| - 1].StackMemory?
    ensures ItemOk(s, s.work[|s.work| - 1])
    ensures Inv(MarkTop(s, oc), exempt) ==> Decreases(s, MarkTop(s, oc)) && Frame(s, MarkTop(s, oc))
    ensures Inv(MarkTop(s, oc), exempt) ==> s.barrier == MarkTop(s, oc).barrier
  {
    var words := s.work[|s.work| - 1].words;
    PopOtherKeeps(s, exempt);
    RePushStackKeeps(Pop(s), words, oc, exempt);
    TraceRestDecreases(s, Pop(s), RePushStack(Pop(s), words, oc), Head(words), oc.words, exempt);
  }

  // One iteration of GC::Mark decreases the measure, so GC::Mark terminates.
  lemma MarkTopDecreases(s: State, oc: Outcomes, exempt: set<Obj>)
    requires Inv(s, exempt) && s.work != []
    ensures ItemOk(s, s.work[|s.work| - 1])
    ensures Decreases(s, MarkTop(s, oc)) && Frame(s, MarkTop(s, oc))
    ensures s.barrier == MarkTop(s, oc).barrier
  {
    var t := MarkTop(s, oc);
    MarkTopKeeps(s, oc, exempt);
    match s.work[|s.work| - 1] {
      case GCObject(_) => MarkObjectDecreases(s, oc, exempt);
      case Chunk(_, _) => MarkChunkDecreases(s, oc, exempt);
      case Protector(_) => WeightFrame(s, t, t.work);
      case StackMemory(_) => MarkStackMemoryDecreases(s, oc, exempt);
    }
  }

  ghost function RePushStack(s: State, words: seq<Obj>, oc: Outcomes): State {
    if |words| > SPLIT then PushItem(s, StackMemory(words[SPLIT..]), oc.chunk) else s
  }

  lemma RePushStackKeeps(s: State, words: seq<Obj>, oc: Outcomes, exempt: set<Obj>)
    requires Inv(s, exempt) && WordsOk(s, words)
    ensures Inv(RePushStack(s, words, oc), exempt) && WordsOk(RePushStack(s, words, oc), Head(words))
  {
    if |words| > SPLIT {
      PushItemKeeps(s, StackMemory(words[SPLIT..]), oc.chunk, exempt);
    }
  }
}
