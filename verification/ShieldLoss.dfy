/**
 A run of the marking phase in which a split object loses its shield.  Exactly as many
 black containers as fit on the first segment of the barrier stack are hit by stores;
 the next store hits a large object with a pending chunk, no second segment can be had,
 and the object goes back onto the mark stack on top of its own chunk.
 */
module ShieldLoss {
  import opened MarkModel
  import opened MarkInvariants
  import opened MarkRuns

  // The large object is 1; the containers are 2 up to SEGMENT + 1.
  const LARGE: Obj := 1
  const WORDS: nat := SPLIT + 54
  const FULL: nat := 3 + 2 * SEGMENT

  predicate Between(x: Obj, lo: int, hi: int) {
    lo <= x < hi
  }

  function Range(lo: int, hi: int): (r: set<Obj>)
    ensures forall x :: x in r <==> lo <= x < hi
  {
    set x: Obj | lo <= x < hi && Between(x, lo, hi)
  }

  function Containers(n: nat): (r: seq<Obj>)
    ensures |r| == n && forall j :: 0 <= j < n ==> r[j] == j + 2
  {
    seq(n, j => j + 2)
  }

  ghost function Heap(): (r: map<Obj, seq<Obj>>)
    ensures r.Keys == Range(1, SEGMENT + 2)
    ensures |r[LARGE]| == WORDS && forall j :: 0 <= j < WORDS ==> r[LARGE][j] == if j == 0 then LARGE else NULL
    ensures forall x :: 2 <= x < SEGMENT + 2 ==> r[x] == [LARGE]
  {
    var all := Range(1, SEGMENT + 2);
    map x | x in all ::
      if x == LARGE then seq(WORDS, j => if j == 0 then LARGE else NULL) else [LARGE]
  }

  function Pair(): seq<Item> {
    [Protector(LARGE), Chunk(LARGE, SPLIT)]
  }

  // The state with these objects black, these grey and this on the two stacks.
  ghost function Snap(marked: set<Obj>, queued: set<Obj>, shield: set<Obj>, work: seq<Item>, barrier: seq<Obj>,
                      exposed: bool): State {
    State(Heap(), Range(1, SEGMENT + 2), [LARGE] + Containers(SEGMENT), marked, queued, shield, work, barrier,
          false, exposed, [[LARGE], Containers(SEGMENT)], [])
  }

  // The containers are traced as a root, ...
  ghost function Traced(n: nat): State {
    Snap({LARGE}, Range(2, n + 2), {LARGE}, Pair() + AsItems(Containers(n)), [], false)
  }

  // ... marked until n are left, ...
  ghost function Marking(n: nat): State
    requires n <= SEGMENT
  {
    Traced(n).(marked := {LARGE} + Range(n + 2, SEGMENT + 2))
  }

  // ... and hit by stores until n are on the barrier stack.
  ghost function Hit(n: nat): State
    requires n <= SEGMENT
  {
    Snap({LARGE} + Range(n + 2, SEGMENT + 2), Range(2, n + 2), {LARGE}, Pair(), Containers(n), false)
  }

  // Then a store hits the large object.
  ghost function Struck(marked: set<Obj>, queued: set<Obj>, shield: set<Obj>, work: seq<Item>): State {
    Snap(marked, Range(2, SEGMENT + 2) + queued, shield, work, Containers(SEGMENT), true)
  }

  ghost function Lost(i: nat): State {
    if i == 0 then Snap({}, {}, {}, [], [], false)
    else if i == 1 then Snap({}, {LARGE}, {}, [GCObject(LARGE)], [], false)
    else if i == 2 then Traced(0)
    else if i <= 3 + SEGMENT then Marking(SEGMENT - (i - 3))
    else if i <= FULL then Hit(i - 3 - SEGMENT)
    else if i == FULL + 1 then Struck({}, {LARGE}, {LARGE}, Pair() + [GCObject(LARGE)])
    else if i == FULL + 2 then Struck({LARGE}, {}, {LARGE}, Pair() + Pair())
    else if i == FULL + 3 then Struck({LARGE}, {}, {LARGE}, Pair() + [Protector(LARGE)])
    else Struck({LARGE}, {}, {}, Pair())
  }

  // Every store writes the address of the large object over itself.
  ghost function LostStep(i: nat): Step {
    if i == 0 then TraceRoot(0, [])
    else if i == 2 then TraceRoot(1, [])
    else if 3 + SEGMENT <= i <= FULL then
      StoreWord(if i == FULL then LARGE else i - 3 - SEGMENT + 2, 0, LARGE, true, false, true)
    else MarkOne(Outcomes(true, true, []))
  }

  ghost predicate Follows(i: nat) {
    Leads(Lost(i), LostStep(i), Lost(i + 1))
  }

  // ------------------------------------------------------------------ the states are well formed

  lemma SnapWellFormed(s: State)
    requires s == Snap(s.marked, s.queued, s.shield, s.work, s.barrier, s.exposed)
    requires s.marked <= s.scan && s.queued <= s.scan && s.marked !! s.queued
    requires forall p :: 0 <= p < |s.work| && s.work[p].GCObject? ==> s.work[p].o in s.queued
    requires forall p :: 0 <= p < |s.work| && !s.work[p].GCObject? ==> s.work[p] in Pair()
    ensures WellFormed(s)
  {
    forall o | o in s.scan ensures o in s.order {
      if o != LARGE {
        assert s.order[o - 1] == Containers(SEGMENT)[o - 2];
      }
    }
    forall o | o in s.kids ensures WordsOk(s, s.kids[o]) {
      assert o != LARGE ==> s.kids[o] == [LARGE];
    }
    forall r | 0 <= r < |s.roots| ensures WordsOk(s, s.roots[r]) {
    }
    forall p | 0 <= p < |s.work| ensures ItemOk(s, s.work[p]) {
      if !s.work[p].GCObject? {
        assert s.work[p] in Pair();
      }
    }
  }

  lemma LostWellFormed(i: nat)
    ensures WellFormed(Lost(i))
  {
    var s := Lost(i);
    var objects := if s.work == [GCObject(LARGE)] then s.work else s.work[if |s.work| < 2 then |s.work| else 2..];
    assert forall p :: 2 <= p < |s.work| ==> s.work[p] == objects[p - 2];
    SnapWellFormed(s);
  }

  // ------------------------------------------------------------------ tracing

  // Tracing words of which none is white changes nothing.
  lemma {:induction false} TraceNonWhite(s: State, words: seq<Obj>, oks: seq<bool>)
    requires forall j :: 0 <= j < |words| ==> NonWhite(s, words[j])
    ensures TraceWords(s, words, oks) == s
  {
    if words != [] {
      TraceNonWhite(s, words[..|words| - 1], oks);
    }
  }

  lemma {:induction false} TraceContainers(n: nat)
    requires n <= SEGMENT
    ensures TraceWords(Traced(0), Containers(n), []) == Traced(n)
  {
    if n == 0 {
      assert Containers(0) == [];
    } else {
      TraceContainers(n - 1);
      assert Containers(n)[..n - 1] == Containers(n - 1);
      assert Traced(n).queued == Traced(n - 1).queued + {n + 1};
      assert AsItems(Containers(n)) == AsItems(Containers(n - 1)) + [GCObject(n + 1)];
      assert Traced(n).work == Traced(n - 1).work + [GCObject(n + 1)];
    }
  }

  // ------------------------------------------------------------------ the steps

  lemma TraceStep(i: nat)
    requires i == 0 || i == 2
    ensures Follows(i)
  {
    LostWellFormed(i);
    if i == 0 {
      assert TraceWords(Lost(0), [LARGE][..0], []) == Lost(0);
      assert {} + {LARGE} == {LARGE};
    } else {
      TraceContainers(SEGMENT);
      assert Lost(3) == Traced(SEGMENT) by {
        assert {LARGE} + Range(SEGMENT + 2, SEGMENT + 2) == {LARGE};
      }
    }
  }

  // The large object is marked: first with nothing else stacked, later on top of its chunk.
  lemma MarkLarge(i: nat)
    requires i == 1 || i == FULL + 1
    ensures Follows(i)
  {
    var s := Lost(i);
    var u := SetMark(SplitObject(Pop(s), LARGE, LostStep(i).oc), LARGE);
    LostWellFormed(i);
    assert ItemOk(s, s.work[|s.work| - 1]);
    if i == 1 {
      LargeAlone(s, u);
    } else {
      LargeAgain(s, u);
    }
    TraceNonWhite(u, Head(s.kids[LARGE]), []);
  }

  lemma LargeAlone(s: State, u: State)
    requires s == Lost(1) && u == SetMark(SplitObject(Pop(s), LARGE, Outcomes(true, true, [])), LARGE)
    ensures u == Traced(0)
  {
    assert {} + {LARGE} == {LARGE} && {LARGE} - {LARGE} == {};
    assert Range(2, 2) == {};
    assert Pair() + AsItems(Containers(0)) == Pair();
  }

  lemma LargeAgain(s: State, u: State)
    requires s == Lost(FULL + 1) && u == SetMark(SplitObject(Pop(s), LARGE, Outcomes(true, true, [])), LARGE)
    ensures u == Lost(FULL + 2)
  {
    assert {} + {LARGE} == {LARGE};
    assert Range(2, SEGMENT + 2) + {LARGE} - {LARGE} == Range(2, SEGMENT + 2) + {};
    assert Pop(s).work == Pair();
    assert u.work == Pair() + Pair();
  }

  // The topmost of n stacked containers becomes black.
  lemma MarkTopmost(n: nat, s: State, u: State)
    requires 0 < n <= SEGMENT && s == Marking(n) && u == SetMark(Pop(s), n + 1)
    ensures s.work != [] && s.work[|s.work| - 1] == GCObject(n + 1)
    ensures u == Marking(n - 1)
  {
    assert u.work == Marking(n - 1).work by {
      assert AsItems(Containers(n))[..n - 1] == AsItems(Containers(n - 1));
    }
    assert u.marked == Marking(n - 1).marked;
    assert u.queued == Marking(n - 1).queued;
  }

  lemma MarkContainer(i: nat)
    requires 3 <= i < 3 + SEGMENT
    ensures Follows(i)
  {
    var n := SEGMENT - (i - 3);
    var s, o := Lost(i), n + 1;
    var u := SetMark(Pop(s), o);
    LostWellFormed(i);
    MarkTopmost(n, s, u);
    assert ItemOk(s, s.work[|s.work| - 1]);
    TraceNonWhite(u, Head(s.kids[o]), []);
  }

  lemma PopRest(i: nat)
    requires FULL + 2 <= i < FULL + 4
    ensures Follows(i)
  {
    var s := Lost(i);
    LostWellFormed(i);
    var it := s.work[|s.work| - 1];
    assert ItemOk(s, it);
    if i == FULL + 2 {
      assert it == Chunk(LARGE, SPLIT);
      TraceNonWhite(Pop(s), Head(s.kids[LARGE][SPLIT..]), []);
      assert Pop(s).work == Pair() + [Protector(LARGE)];
    } else {
      assert it == Protector(LARGE) && {LARGE} - {LARGE} == {};
      assert Pop(s).work == Pair();
    }
  }

  lemma InRoot(s: State, o: Obj)
    requires s.roots == [[LARGE], Containers(SEGMENT)] && 1 <= o < SEGMENT + 2
    ensures Reachable(s, o, true)
  {
    var r := if o == LARGE then 0 else 1;
    assert o in s.roots[r] by {
      assert o != LARGE ==> s.roots[1][o - 2] == o;
    }
    assert Path(s, [o], true) && [o][|[o]| - 1] == o;
  }

  // The stored word was there before.
  lemma StoreSame(s: State, c: Obj)
    requires s.kids == Heap() && c in s.kids
    ensures SetWord(s, c, 0, LARGE) == s
  {
    assert s.kids[c][0 := LARGE] == s.kids[c];
    assert s.kids[c := s.kids[c]] == s.kids;
  }

  lemma TrapContainer(n: nat)
    requires n < SEGMENT
    ensures Trap(Hit(n), n + 2, false, true) == Hit(n + 1)
  {
    var t := Trap(Hit(n), n + 2, false, true);
    assert t.marked == Hit(n + 1).marked;
    assert t.queued == Hit(n + 1).queued;
    assert t.barrier == Hit(n + 1).barrier;
  }

  lemma NoContainerLeft()
    ensures Marking(0) == Hit(0)
  {
    assert Containers(0) == [] && Pair() + AsItems(Containers(0)) == Pair();
  }

  // A store into a black container fills one place of the barrier stack.
  lemma StoreContainer(n: nat)
    requires n < SEGMENT
    ensures Leads(Hit(n), StoreWord(n + 2, 0, LARGE, true, false, true), Hit(n + 1))
  {
    var s := Hit(n);
    LostWellFormed(3 + SEGMENT + n);
    NoContainerLeft();
    InRoot(s, n + 2);
    InRoot(s, LARGE);
    TrapContainer(n);
    StoreSame(Hit(n + 1), n + 2);
  }

  lemma HitFollows(i: nat)
    requires 3 + SEGMENT <= i < FULL
    ensures Follows(i)
  {
    var n := i - 3 - SEGMENT;
    NoContainerLeft();
    StoreContainer(n);
    assert Lost(i) == Hit(n) && Lost(i + 1) == Hit(n + 1);
    assert LostStep(i) == StoreWord(n + 2, 0, LARGE, true, false, true);
  }

  // The store into the large object finds the barrier stack full.
  lemma StoreLarge()
    ensures Follows(FULL)
  {
    var s := Lost(FULL);
    LostWellFormed(FULL);
    InRoot(s, LARGE);
    assert Splits(s.work[0], LARGE);
    var t := Trap(s, LARGE, false, true);
    assert Range(SEGMENT + 2, SEGMENT + 2) == {};
    assert t.marked == {};
    assert t.queued == Range(2, SEGMENT + 2) + {LARGE};
    StoreSame(t, LARGE);
  }

  lemma LostFollows(i: nat)
    requires i < FULL + 4
    ensures Follows(i)
  {
    if i == 0 || i == 2 {
      TraceStep(i);
    } else if i == 1 || i == FULL + 1 {
      MarkLarge(i);
    } else if i < 3 + SEGMENT {
      MarkContainer(i);
    } else if i < FULL {
      HitFollows(i);
    } else if i == FULL {
      StoreLarge();
    } else {
      PopRest(i);
    }
  }

  lemma LostIsRun(states: seq<State>, steps: seq<Step>)
    requires |states| == FULL + 5 && |steps| == FULL + 4
    requires forall i :: 0 <= i < |states| ==> states[i] == Lost(i)
    requires forall i :: 0 <= i < |steps| ==> steps[i] == LostStep(i)
    requires forall i :: 0 <= i < |steps| ==> Follows(i)
    ensures IsRun(states, steps)
  {
    assert Start(Lost(0)) by {
      LostWellFormed(0);
    }
    forall i | 0 <= i < |steps|
      ensures WellFormed(states[i]) && Enabled(states[i], steps[i]) && states[i + 1] == Next(states[i], steps[i])
    {
      assert Follows(i);
    }
  }

  // The second protector of the object is popped before its first chunk, and Free would
  // release the object with that chunk still pending.  The one push that failed is onto a
  // barrier stack whose first segment is full.
  lemma ShieldLost() returns (states: seq<State>, steps: seq<Step>)
    ensures IsRun(states, steps)
    ensures forall i :: 0 <= i < |steps| && steps[i].StoreWord? ==> steps[i].v != NULL
    ensures var s := states[|states| - 1];
            && s.exposed && |s.barrier| == SEGMENT
            && HasSplit(s.work, LARGE) && LARGE in s.kids && !FreeRefused(s, LARGE)
  {
    states := seq(FULL + 5, i requires 0 <= i < FULL + 5 => Lost(i));
    steps := seq(FULL + 4, i requires 0 <= i < FULL + 4 => LostStep(i));
    forall i | 0 <= i < FULL + 4 ensures Follows(i) {
      LostFollows(i);
    }
    LostIsRun(states, steps);
    assert Splits(Lost(FULL + 4).work[0], LARGE);
  }
}
