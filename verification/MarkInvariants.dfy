/**
 The invariants of the marking phase and the proofs that every primitive step keeps them.
 */
module MarkInvariants {
  import opened MarkModel

  // ------------------------------------------------------------------ definitions

  // The GC objects on a mark stack, bottom first.
  ghost function Objects(work: seq<Item>): seq<Obj> {
    if work == [] then []
    else
      var n := |work| - 1;
      Objects(work[..n]) + if work[n].GCObject? then [work[n].o] else []
  }

  ghost predicate WellFormed(s: State) {
    && NULL !in s.kids
    && s.scan <= s.kids.Keys
    && s.marked <= s.kids.Keys
    && s.queued <= s.scan
    && s.marked !! s.queued
    && (forall o :: o in s.scan ==> o in s.order)
    && (forall o :: o in s.kids ==> WordsOk(s, s.kids[o]))
    && (forall r :: 0 <= r < |s.roots| ==> WordsOk(s, s.roots[r]))
    && WordsOk(s, s.stack)
    && (forall p :: 0 <= p < |s.work| ==> ItemOk(s, s.work[p]))
  }

  // kQueued is set exactly on the objects that are on one of the stacks, and each is there once.
  ghost predicate Exact(s: State) {
    multiset(Objects(s.work)) + multiset(s.barrier) == multiset(s.queued)
  }

  // A chunk on the mark stack will still trace the j-th word of o.
  ghost predicate Pending(work: seq<Item>, o: Obj, j: nat) {
    exists p :: 0 <= p < |work| && work[p].Chunk? && work[p].o == o && work[p].from <= j
  }

  ghost predicate Covered(s: State, o: Obj, j: nat)
    requires o in s.kids && j < |s.kids[o]|
  {
    NonWhite(s, s.kids[o][j]) || Pending(s.work, o, j)
  }

  // No black object outside `exempt` points to a white object, pending chunks aside.
  ghost predicate TriColour(s: State, exempt: set<Obj>) {
    s.marked <= s.kids.Keys &&
    forall o, j :: o in s.marked && o in s.scan && o !in exempt && 0 <= j < |s.kids[o]| ==> Covered(s, o, j)
  }

  // Objects with a chunk or protector on the mark stack are shielded against Free, are
  // not white, and are not pushed or protected again above that item.
  ghost predicate Shielded(s: State) {
    && (forall p :: 0 <= p < |s.work| && (s.work[p].Chunk? || s.work[p].Protector?) ==>
          s.work[p].o in s.shield && NonWhite(s, s.work[p].o))
    && (forall p, q :: 0 <= p < q < |s.work| && (s.work[q].GCObject? || s.work[q].Protector?) ==>
          !Splits(s.work[p], s.work[q].o))
  }

  ghost predicate Inv(s: State, exempt: set<Obj>) {
    && WellFormed(s)
    && Exact(s)
    && (!s.overflow ==> TriColour(s, exempt))
    && (!s.exposed ==> Shielded(s))
  }

  // What tracing may change: more objects are black or grey, more items are stacked.
  ghost predicate Traced(s: State, t: State) {
    && t == s.(marked := t.marked, queued := t.queued, work := t.work, overflow := t.overflow)
    && s.marked <= t.marked
    && s.queued <= t.queued
    && (forall o :: o in t.marked && o in s.scan ==> o in s.marked)
    && s.work <= t.work
    && (forall p :: |s.work| <= p < |t.work| ==> t.work[p].GCObject?)
    && (s.overflow ==> t.overflow)
  }

  // ------------------------------------------------------------------ the objects on a stack

  lemma {:induction false} ObjectsAppend(work: seq<Item>, it: Item)
    ensures Objects(work + [it]) == Objects(work) + if it.GCObject? then [it.o] else []
  {
    assert (work + [it])[..|work|] == work;
  }

  lemma {:induction false} ObjectsConcat(a: seq<Item>, b: seq<Item>)
    ensures Objects(a + b) == Objects(a) + Objects(b)
  {
    if b == [] {
      assert a + b == a;
    } else {
      var n := |b| - 1;
      ObjectsConcat(a, b[..n]);
      ObjectsAppend(a + b[..n], b[n]);
      assert a + b == (a + b[..n]) + [b[n]];
      assert b == b[..n] + [b[n]];
    }
  }

  lemma {:induction false} ObjectsOfItems(os: seq<Obj>)
    ensures Objects(AsItems(os)) == os
  {
    if os != [] {
      var n := |os| - 1;
      ObjectsOfItems(os[..n]);
      assert AsItems(os)[..n] == AsItems(os[..n]);
    }
  }

  lemma {:induction false} ObjectsMember(work: seq<Item>, p: nat)
    requires p < |work| && work[p].GCObject?
    ensures work[p].o in multiset(Objects(work))
  {
    var n := |work| - 1;
    if p < n {
      ObjectsMember(work[..n], p);
    }
  }

  // ------------------------------------------------------------------ pushing and tracing

  // A white object turns grey and lands on top of the mark stack.
  ghost function Greyed(s: State, o: Obj): State {
    s.(queued := s.queued + {o}, work := s.work + [GCObject(o)])
  }

  lemma GreyedExact(s: State, o: Obj)
    requires Exact(s) && !NonWhite(s, o)
    ensures Exact(Greyed(s, o))
  {
    ObjectsAppend(s.work, GCObject(o));
    assert multiset(s.queued + {o}) == multiset(s.queued) + multiset{o};
  }

  lemma GreyedTriColour(s: State, o: Obj, exempt: set<Obj>)
    requires TriColour(s, exempt) && !NonWhite(s, o)
    ensures TriColour(Greyed(s, o), exempt)
  {
    var t := Greyed(s, o);
    forall o', j | o' in t.marked && o' in t.scan && o' !in exempt && 0 <= j < |t.kids[o']|
      ensures Covered(t, o', j)
    {
      assert Covered(s, o', j);
      if Pending(s.work, o', j) {
        PendingKept(s.work, t.work, o', j);
      }
    }
  }

  lemma GreyedShielded(s: State, o: Obj)
    requires Shielded(s) && !NonWhite(s, o)
    ensures Shielded(Greyed(s, o))
  {
    var t := Greyed(s, o);
    forall p | 0 <= p < |t.work| && (t.work[p].Chunk? || t.work[p].Protector?)
      ensures t.work[p].o in t.shield && NonWhite(t, t.work[p].o) && t.work[p].o != o
    {
      assert t.work[p] == s.work[p];
    }
    forall p, q | 0 <= p < q < |t.work| && (t.work[q].GCObject? || t.work[q].Protector?)
      ensures !Splits(t.work[p], t.work[q].o)
    {
      assert t.work[p] == s.work[p];
    }
  }

  lemma PushObjectKeeps(s: State, o: Obj, ok: bool, exempt: set<Obj>)
    requires Inv(s, exempt) && o in s.scan && !NonWhite(s, o)
    ensures var t := TracePointer(s, o, ok);
            Inv(t, exempt) && Traced(s, t) && (!t.overflow ==> NonWhite(t, o))
  {
    var t := TracePointer(s, o, ok);
    if Fits(s, ok) {
      assert t == Greyed(s, o);
      assert WellFormed(t) by {
        forall p | 0 <= p < |t.work| ensures ItemOk(t, t.work[p]) {
          if p < |s.work| {
            assert t.work[p] == s.work[p];
            assert ItemOk(s, s.work[p]);
          }
        }
      }
      GreyedExact(s, o);
      if !s.overflow {
        GreyedTriColour(s, o, exempt);
      }
      if !s.exposed {
        GreyedShielded(s, o);
      }
    } else {
      assert s.queued + {o} - {o} == s.queued;
      assert t == s.(overflow := true);
    }
  }

  lemma PendingKept(w: seq<Item>, w': seq<Item>, o: Obj, j: nat)
    requires w <= w' && Pending(w, o, j)
    ensures Pending(w', o, j)
  {
    var p :| 0 <= p < |w| && w[p].Chunk? && w[p].o == o && w[p].from <= j;
    assert w'[p] == w[p];
  }

  lemma TracePointerKeeps(s: State, o: Obj, ok: bool, exempt: set<Obj>)
    requires Inv(s, exempt) && (o == NULL || o in s.kids)
    ensures var t := TracePointer(s, o, ok);
            Inv(t, exempt) && Traced(s, t) && (!t.overflow ==> NonWhite(t, o))
  {
    if !NonWhite(s, o) {
      if o in s.scan {
        PushObjectKeeps(s, o, ok, exempt);
      } else {
        var t := TracePointer(s, o, ok);
        forall o', j | o' in t.marked && o' in t.scan && o' !in exempt && 0 <= j < |t.kids[o']| && !t.overflow
          ensures Covered(t, o', j)
        {
          assert Covered(s, o', j);
        }
      }
    }
  }

  lemma {:induction false} TraceWordsKeeps(s: State, words: seq<Obj>, oks: seq<bool>, exempt: set<Obj>)
    requires Inv(s, exempt) && WordsOk(s, words)
    ensures var t := TraceWords(s, words, oks);
            Inv(t, exempt) && Traced(s, t) && (!t.overflow ==> forall w :: w in words ==> NonWhite(t, w))
  {
    if words != [] {
      var n := |words| - 1;
      var u := TraceWords(s, words[..n], oks);
      TraceWordsKeeps(s, words[..n], oks, exempt);
      TracePointerKeeps(u, words[n], Granted(oks, n), exempt);
      assert forall w :: w in words ==> w in words[..n] || w == words[n];
    }
  }

  // ------------------------------------------------------------------ splitting and marking items

  lemma TriColourGrows(s: State, t: State, exempt: set<Obj>)
    requires TriColour(s, exempt) && s.kids == t.kids && s.scan == t.scan && t.marked <= s.marked
    requires s.work <= t.work
    requires forall o :: NonWhite(s, o) ==> NonWhite(t, o)
    ensures TriColour(t, exempt)
  {
    forall o, j | o in t.marked && o in t.scan && o !in exempt && 0 <= j < |t.kids[o]|
      ensures Covered(t, o, j)
    {
      assert Covered(s, o, j);
      if Pending(s.work, o, j) {
        PendingKept(s.work, t.work, o, j);
      }
    }
  }

  lemma PushItemShielded(s: State, it: Item)
    requires Shielded(s) && !it.GCObject?
    requires !it.StackMemory? ==> it.o in s.shield && NonWhite(s, it.o)
    requires it.Protector? ==> forall p :: 0 <= p < |s.work| ==> !Splits(s.work[p], it.o)
    ensures Shielded(s.(work := s.work + [it]))
  {
    var t := s.(work := s.work + [it]);
    forall p | 0 <= p < |t.work| && (t.work[p].Chunk? || t.work[p].Protector?)
      ensures t.work[p].o in t.shield && NonWhite(t, t.work[p].o)
    {
      assert p < |s.work| ==> t.work[p] == s.work[p];
    }
    forall p, q | 0 <= p < q < |t.work| && (t.work[q].GCObject? || t.work[q].Protector?)
      ensures !Splits(t.work[p], t.work[q].o)
    {
      assert t.work[p] == s.work[p];
    }
  }

  lemma PushItemKeeps(s: State, it: Item, ok: bool, exempt: set<Obj>)
    requires Inv(s, exempt) && !it.GCObject? && ItemOk(s, it)
    requires !s.exposed && !it.StackMemory? ==> it.o in s.shield && NonWhite(s, it.o)
    requires !s.exposed && it.Protector? ==> forall p :: 0 <= p < |s.work| ==> !Splits(s.work[p], it.o)
    ensures Inv(PushItem(s, it, ok), exempt)
  {
    var t := PushItem(s, it, ok);
    if Fits(s, ok) {
      ObjectsAppend(s.work, it);
      forall p | 0 <= p < |t.work| ensures ItemOk(t, t.work[p]) {
        if p < |s.work| {
          assert t.work[p] == s.work[p];
          assert ItemOk(s, s.work[p]);
        }
      }
      if !s.overflow {
        TriColourGrows(s, t, exempt);
      }
      if !s.exposed {
        PushItemShielded(s, it);
      }
    }
  }

  // The object has turned black; trace its head and leave the rest to a chunk.
  ghost function TraceObject(s: State, o: Obj, oc: Outcomes): State
    requires o in s.kids
  {
    TraceWords(SplitObject(s, o, oc), Head(s.kids[o]), oc.words)
  }

  lemma ShieldKeeps(s: State, o: Obj, exempt: set<Obj>)
    requires Inv(s, exempt)
    ensures Inv(s.(shield := s.shield + {o}), exempt)
  {
    var t := s.(shield := s.shield + {o});
    forall p | 0 <= p < |t.work| ensures ItemOk(t, t.work[p]) {
      assert ItemOk(s, s.work[p]);
    }
    if !s.overflow {
      TriColourGrows(s, t, exempt);
    }
  }

  lemma PushProtectorKeeps(s: State, o: Obj, ok: bool, exempt: set<Obj>)
    requires Inv(s, exempt) && ItemOk(s, Protector(o)) && o in s.shield && NonWhite(s, o)
    requires !s.exposed ==> forall p :: 0 <= p < |s.work| ==> !Splits(s.work[p], o)
    ensures Inv(PushItem(s, Protector(o), ok), exempt)
  {
    PushItemKeeps(s, Protector(o), ok, exempt);
  }

  lemma PushChunkKeeps(s: State, o: Obj, from: nat, ok: bool, exempt: set<Obj>)
    requires Inv(s, exempt) && ItemOk(s, Chunk(o, from))
    requires !s.exposed ==> o in s.shield && NonWhite(s, o)
    ensures Inv(PushItem(s, Chunk(o, from), ok), exempt)
  {
    PushItemKeeps(s, Chunk(o, from), ok, exempt);
  }

  lemma SplitObjectKeeps(s: State, o: Obj, oc: Outcomes, exempt: set<Obj>)
    requires Inv(s, exempt) && o in s.marked && o in s.scan && |s.kids[o]| > SPLIT
    requires !s.exposed ==> forall p :: 0 <= p < |s.work| ==> !Splits(s.work[p], o)
    ensures Inv(SplitObject(s, o, oc), exempt)
  {
    var s1 := s.(shield := s.shield + {o});
    ShieldKeeps(s, o, exempt);
    PushProtectorKeeps(s1, o, oc.protector, exempt);
    PushChunkKeeps(PushItem(s1, Protector(o), oc.protector), o, SPLIT, oc.chunk, exempt);
  }

  lemma SplitObjectFrame(s: State, o: Obj, oc: Outcomes)
    requires o in s.kids
    ensures var t := SplitObject(s, o, oc);
            && t == s.(work := t.work, overflow := t.overflow, shield := t.shield)
            && s.work <= t.work
            && (s.overflow ==> t.overflow)
            && (!t.overflow ==> forall j :: SPLIT <= j < |s.kids[o]| ==> Pending(t.work, o, j))
  {
    var t := SplitObject(s, o, oc);
    if |s.kids[o]| > SPLIT && !t.overflow {
      assert t.work[|t.work| - 1] == Chunk(o, SPLIT);
    }
  }

  lemma TraceObjectKeeps(s: State, o: Obj, oc: Outcomes, exempt: set<Obj>)
    requires Inv(s, exempt + {o}) && o in s.marked && o in s.scan
    requires !s.exposed ==> forall p :: 0 <= p < |s.work| ==> !Splits(s.work[p], o)
    ensures var t := TraceObject(s, o, oc);
            Inv(t, exempt - {o}) && Traced(SplitObject(s, o, oc), t)
  {
    var u := SplitObject(s, o, oc);
    var words := s.kids[o];
    if |words| > SPLIT {
      SplitObjectKeeps(s, o, oc, exempt + {o});
    }
    SplitObjectFrame(s, o, oc);
    assert WordsOk(u, Head(words));
    TraceWordsKeeps(u, Head(words), oc.words, exempt + {o});
    var t := TraceObject(s, o, oc);
    if !t.overflow {
      forall o', j | o' in t.marked && o' in t.scan && o' !in exempt - {o} && 0 <= j < |t.kids[o']|
        ensures Covered(t, o', j)
      {
        if o' == o && j < |Head(words)| {
          assert words[j] == Head(words)[j];
        } else if o' == o {
          PendingKept(u.work, t.work, o, j);
        }
      }
    }
  }

  lemma PopObjectExact(s: State)
    requires WellFormed(s) && Exact(s) && s.work != [] && s.work[|s.work| - 1].GCObject?
    ensures Exact(SetMark(Pop(s), s.work[|s.work| - 1].o))
  {
    var n := |s.work| - 1;
    var o := s.work[n].o;
    var t := SetMark(Pop(s), o);
    assert ItemOk(s, s.work[n]);
    assert multiset(Objects(s.work)) == multiset(Objects(t.work)) + multiset{o};
    assert multiset(s.queued) == multiset(t.queued) + multiset{o};
    forall x ensures (multiset(Objects(t.work)) + multiset(t.barrier))[x] == multiset(t.queued)[x] {
      assert (multiset(Objects(s.work)) + multiset(s.barrier))[x] == multiset(s.queued)[x];
    }
  }

  lemma PopObjectItems(s: State, p: nat)
    requires WellFormed(s) && Exact(s) && s.work != [] && s.work[|s.work| - 1].GCObject? && p < |s.work| - 1
    ensures ItemOk(SetMark(Pop(s), s.work[|s.work| - 1].o), s.work[p])
  {
    var t := SetMark(Pop(s), s.work[|s.work| - 1].o);
    PopObjectExact(s);
    assert ItemOk(s, s.work[p]);
    assert t.work[p] == s.work[p];
    if t.work[p].GCObject? {
      ObjectsMember(t.work, p);
      assert t.work[p].o in multiset(t.queued);
    }
  }

  // Popping a queued object and turning it black.
  lemma PopObjectKeeps(s: State, exempt: set<Obj>)
    requires Inv(s, exempt) && s.work != [] && s.work[|s.work| - 1].GCObject?
    ensures var o := s.work[|s.work| - 1].o;
            var t := SetMark(Pop(s), o);
            && Inv(t, exempt + {o})
            && o !in s.marked && o in s.scan
            && (!s.exposed ==> forall p :: 0 <= p < |t.work| ==> !Splits(t.work[p], o))
  {
    var n := |s.work| - 1;
    var o := s.work[n].o;
    var t := SetMark(Pop(s), o);
    assert ItemOk(s, s.work[n]);
    PopObjectExact(s);
    forall p | 0 <= p < n ensures ItemOk(t, t.work[p]) {
      PopObjectItems(s, p);
    }
    if !s.overflow {
      PoppedTriColour(s, t, exempt + {o});
    }
  }

  lemma PoppedTriColour(s: State, t: State, exempt: set<Obj>)
    requires TriColour(s, exempt) && s.work != [] && t.work == s.work[..|s.work| - 1]
    requires !s.work[|s.work| - 1].Chunk? || s.work[|s.work| - 1].o in exempt
    requires t.kids == s.kids && t.scan == s.scan && t.marked - exempt <= s.marked && t.marked <= s.kids.Keys
    requires forall o :: NonWhite(s, o) ==> NonWhite(t, o)
    ensures TriColour(t, exempt)
  {
    forall o, j | o in t.marked && o in t.scan && o !in exempt && 0 <= j < |t.kids[o]|
      ensures Covered(t, o, j)
    {
      assert o in t.marked - exempt;
      assert Covered(s, o, j);
      if Pending(s.work, o, j) {
        var p :| 0 <= p < |s.work| && s.work[p].Chunk? && s.work[p].o == o && s.work[p].from <= j;
        assert t.work[p] == s.work[p];
      }
    }
  }

  lemma PopOtherKeeps(s: State, exempt: set<Obj>)
    requires Inv(s, exempt) && s.work != [] && !s.work[|s.work| - 1].GCObject?
    ensures var it := s.work[|s.work| - 1];
            ItemOk(s, it) && ItemOk(Pop(s), it) && Inv(Pop(s), if it.Chunk? then exempt + {it.o} else exempt)
  {
    var n := |s.work| - 1;
    var it := s.work[n];
    var t := Pop(s);
    assert Objects(s.work) == Objects(t.work);
    forall p | 0 <= p < n ensures ItemOk(t, t.work[p]) {
      assert ItemOk(s, s.work[p]);
    }
    assert ItemOk(s, it);
    if !s.overflow {
      PoppedTriColour(s, t, if it.Chunk? then exempt + {it.o} else exempt);
    }
  }

  // Popping a chunk uncovers only the words it would have traced.
  lemma PopChunkCovered(s: State, j: nat)
    requires s.work != [] && s.work[|s.work| - 1].Chunk?
    requires var it := s.work[|s.work| - 1];
             it.o in s.kids && j < |s.kids[it.o]| && j < it.from && Covered(s, it.o, j)
    ensures Covered(Pop(s), s.work[|s.work| - 1].o, j)
  {
    var it := s.work[|s.work| - 1];
    if Pending(s.work, it.o, j) {
      var p :| 0 <= p < |s.work| && s.work[p].Chunk? && s.work[p].o == it.o && s.work[p].from <= j;
      assert Pop(s).work[p] == s.work[p];
    }
  }

  ghost function RePush(s: State, o: Obj, from: nat, oc: Outcomes): State
    requires o in s.kids && from <= |s.kids[o]|
  {
    if |s.kids[o][from..]| > SPLIT then PushItem(s, Chunk(o, from + SPLIT), oc.chunk) else s
  }

  lemma RePushKeeps(s: State, o: Obj, from: nat, oc: Outcomes, exempt: set<Obj>)
    requires Inv(s, exempt) && ItemOk(s, Chunk(o, from))
    requires !s.exposed ==> o in s.shield && NonWhite(s, o)
    ensures Inv(RePush(s, o, from, oc), exempt)
    ensures WordsOk(s, Head(s.kids[o][from..]))
  {
    if |s.kids[o][from..]| > SPLIT {
      PushChunkKeeps(s, o, from + SPLIT, oc.chunk, exempt);
    }
    assert WordsOk(s, s.kids[o]);
  }

  lemma MarkChunkKeeps(s: State, o: Obj, from: nat, oc: Outcomes, exempt: set<Obj>)
    requires Inv(s, exempt + {o}) && ItemOk(s, Chunk(o, from))
    requires !s.exposed ==> o in s.shield && NonWhite(s, o)
    requires !s.overflow && o in s.marked && o !in exempt ==> forall j :: 0 <= j < from ==> Covered(s, o, j)
    ensures Inv(MarkChunk(s, o, from, oc), exempt)
  {
    var u := RePush(s, o, from, oc);
    RePushKeeps(s, o, from, oc, exempt + {o});
    TraceWordsKeeps(u, Head(s.kids[o][from..]), oc.words, exempt + {o});
    var t := MarkChunk(s, o, from, oc);
    if !t.overflow {
      if o in t.marked && o !in exempt {
        forall j | 0 <= j < |t.kids[o]| ensures Covered(t, o, j) {
          ChunkCovers(s, u, t, o, from, j);
        }
      }
      NarrowExempt(t, o, exempt);
    }
  }

  lemma NarrowExempt(t: State, o: Obj, exempt: set<Obj>)
    requires TriColour(t, exempt + {o})
    requires o in t.marked && o in t.scan && o in t.kids && o !in exempt ==> forall j :: 0 <= j < |t.kids[o]| ==> Covered(t, o, j)
    ensures TriColour(t, exempt)
  {
    forall o', j | o' in t.marked && o' in t.scan && o' !in exempt && 0 <= j < |t.kids[o']|
      ensures Covered(t, o', j)
    {
      assert o' != o ==> o' !in exempt + {o};
    }
  }

  // After a chunk has been processed, the words below it are as before, those of its
  // head have been traced, and the rest waits in the next chunk.
  lemma ChunkCovers(s: State, u: State, t: State, o: Obj, from: nat, j: nat)
    requires o in s.kids && from <= |s.kids[o]| && j < |s.kids[o]|
    requires s.kids == u.kids == t.kids && s.work <= u.work <= t.work
    requires forall x :: NonWhite(s, x) ==> NonWhite(t, x)
    requires j < from ==> Covered(s, o, j)
    requires forall w :: w in Head(s.kids[o][from..]) ==> NonWhite(t, w)
    requires |s.kids[o][from..]| > SPLIT ==> u.work != [] && u.work[|u.work| - 1] == Chunk(o, from + SPLIT)
    ensures Covered(t, o, j)
  {
    var head := Head(s.kids[o][from..]);
    if j < from {
      if Pending(s.work, o, j) {
        PendingKept(s.work, t.work, o, j);
      }
    } else if j < from + |head| {
      assert t.kids[o][j] == head[j - from];
    } else {
      PendingKept(u.work, t.work, o, j);
    }
  }

  lemma MarkStackMemoryKeeps(s: State, words: seq<Obj>, oc: Outcomes, exempt: set<Obj>)
    requires Inv(s, exempt) && WordsOk(s, words)
    ensures Inv(MarkStackMemory(s, words, oc), exempt)
  {
    var u := if |words| > SPLIT then PushItem(s, StackMemory(words[SPLIT..]), oc.chunk) else s;
    if |words| > SPLIT {
      PushItemKeeps(s, StackMemory(words[SPLIT..]), oc.chunk, exempt);
    }
    TraceWordsKeeps(u, Head(words), oc.words, exempt);
  }

  lemma ProtectorKeeps(s: State, exempt: set<Obj>)
    requires Inv(s, exempt) && s.work != [] && s.work[|s.work| - 1].Protector?
    ensures var o := s.work[|s.work| - 1].o;
            Inv(Pop(s).(shield := s.shield - {o}), exempt)
  {
    var n := |s.work| - 1;
    var o := s.work[n].o;
    PopOtherKeeps(s, exempt);
    var t := Pop(s).(shield := s.shield - {o});
    if !s.overflow {
      TriColourGrows(Pop(s), t, exempt);
    }
    if !s.exposed {
      forall p | 0 <= p < |t.work| && (t.work[p].Chunk? || t.work[p].Protector?)
        ensures t.work[p].o in t.shield
      {
        assert !Splits(s.work[p], o);
      }
    }
  }

  // Every iteration of the marking loop keeps the invariant, whatever overflows.
  lemma MarkTopKeeps(s: State, oc: Outcomes, exempt: set<Obj>)
    requires Inv(s, exempt) && s.work != []
    ensures ItemOk(s, s.work[|s.work| - 1])
    ensures Inv(MarkTop(s, oc), exempt)
  {
    match s.work[|s.work| - 1]
    case GCObject(o) =>
      PopObjectKeeps(s, exempt);
      var u := SetMark(Pop(s), o);
      TraceObjectKeeps(u, o, oc, exempt);
      SetMarkCommutes(Pop(s), o, oc);
      TriColourWeaken(MarkTop(s, oc), exempt - {o}, exempt);
    case Chunk(o, from) =>
      PopOtherKeeps(s, exempt);
      if !s.overflow && o in s.marked && o !in exempt {
        forall j | 0 <= j < from ensures Covered(Pop(s), o, j) {
          PopChunkCovered(s, j);
        }
      }
      MarkChunkKeeps(Pop(s), o, from, oc, exempt);
    case Protector(o) =>
      ProtectorKeeps(s, exempt);
    case StackMemory(words) =>
      PopOtherKeeps(s, exempt);
      MarkStackMemoryKeeps(Pop(s), words, oc, exempt);
  }

  lemma TriColourWeaken(s: State, exempt: set<Obj>, exempt': set<Obj>)
    requires Inv(s, exempt) && exempt <= exempt'
    ensures Inv(s, exempt')
  {
    if !s.overflow {
      forall o, j | o in s.marked && o in s.scan && o !in exempt' && 0 <= j < |s.kids[o]|
        ensures Covered(s, o, j)
      {
        assert o !in exempt;
      }
    }
  }

  // Setting the mark before or after pushing the split items makes no difference.
  lemma SetMarkCommutes(s: State, o: Obj, oc: Outcomes)
    requires o in s.kids
    ensures MarkItem(s, o, oc) == TraceObject(SetMark(s, o), o, oc)
  {
    assert SetMark(SplitObject(s, o, oc), o) == SplitObject(SetMark(s, o), o, oc);
  }
}
