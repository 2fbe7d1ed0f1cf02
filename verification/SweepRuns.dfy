/**
 Whole lives of a small-object allocator: marking, allocation, explicit free, finalization
 and lazy sweeping in any order the collector allows (MMgc/GC.cpp:1035-1085, 1178-1311;
 MMgc/GCAlloc.cpp), over any number of collections.
 */
module SweepRuns {
  import opened Paths
  import opened SmallBlocks
  import opened ItemStatus
  import opened Sweeping

  datatype State = State(
    a: Allocator,
    marking: bool,
    collecting: bool,
    finalizedValue: bool,
    finalized: bool,      // m_finalized
    done: bool,           // finalized in this collection
    resets: bool          // GC::Finalize resets m_finalized: of every allocator but that for floats
  )

  datatype Step = Do(act: Act) | StartMarking | StartCollecting | Finalize | EndCollecting

  function ModeOf(s: State, greedy: bool): Mode {
    Mode(s.collecting, greedy, s.finalizedValue, s.finalized)
  }

  // The marker works until finalization; frees are refused while collecting and of objects
  // on a mark stack.
  ghost predicate Permitted(s: State, act: Act) {
    && Proper(s.a, act, ModeOf(s, false))
    && match act
       case SetMark(_, mark) => s.marking && !s.done && (mark == Marked || mark == Queued)
       case GiveBack(it) => !(s.marking && (s.collecting || StatusOf(s.a, it) == Alive(Queued)))
       case _ => true
  }

  ghost predicate AllSwept(a: Allocator) {
    forall x {:trigger a.blocks[x]} :: x in a.blocks ==> !a.blocks[x].needsSweeping
  }

  ghost predicate NoneQueued(a: Allocator) {
    forall it {:trigger StatusOf(a, it)} :: StatusOf(a, it) != Alive(Queued)
  }

  ghost predicate Next(s: State, st: Step, t: State) {
    match st
    case Do(act) => Does(s.a, act, t.a) && Permitted(s, act) && t == s.(a := t.a)
    case StartMarking => !s.marking && AllSwept(s.a) && t == s.(marking := true)
    case StartCollecting => s.marking && !s.collecting && s.a.qList == [] && t == s.(collecting := true)
    case Finalize =>
      && s.collecting && !s.done && NoneQueued(s.a) && Finalized(s.a, t.a, s.finalizedValue)
      && t == s.(a := t.a, finalized := true, done := true)
    case EndCollecting =>
      s.done && t == s.(marking := false, collecting := false, done := false, finalizedValue := !s.finalizedValue,
                        finalized := !s.resets && s.finalized)
  }

  // A new allocator has no blocks.
  ghost predicate Start(s: State) {
    Valid(s.a) && s.a.blocks == map[] && !s.marking && !s.collecting && !s.finalized && !s.done
  }

  ghost predicate IsRun(states: seq<State>, steps: seq<Step>) {
    && |states| == |steps| + 1 && Start(states[0])
    && forall i {:trigger StepAt(Next, states, steps, i)} :: 0 <= i < |steps| ==> StepAt(Next, states, steps, i)
  }

  // ------------------------------------------------------------------ the invariant

  ghost predicate Clean(a: Allocator) {
    forall it {:trigger StatusOf(a, it)} :: StatusOf(a, it).Alive? && !a.blocks[it.block].needsSweeping ==>
      StatusOf(a, it) == Alive(Clear)
  }

  ghost predicate AllIn(a: Allocator, finalizeState: bool) {
    forall x {:trigger a.blocks[x]} :: x in a.blocks ==> a.blocks[x].finalizeState == finalizeState
  }

  // New blocks may be taken for finalized ones before they are.
  predicate Stale(s: State) {
    s.collecting && s.finalized && !s.done
  }

  ghost predicate Inv(s: State) {
    && Valid(s.a)
    && (s.done ==> s.collecting && s.finalized) && (s.collecting ==> s.marking)
    && (s.resets && !s.done ==> !s.finalized)
    && (s.marking && !s.done ==> AllSwept(s.a))
    && (!s.marking || s.done ==> Clean(s.a))
    && (s.done ==> AllIn(s.a, s.finalizedValue))
    && (!s.done && !Stale(s) ==> AllIn(s.a, !s.finalizedValue))
  }

  lemma ActClean(s: State, act: Act, c: Allocator)
    requires Inv(s) && Does(s.a, act, c) && Permitted(s, act) && (!s.marking || s.done)
    ensures Clean(c)
  {
    forall it | StatusOf(c, it).Alive? && !c.blocks[it.block].needsSweeping
      ensures StatusOf(c, it) == Alive(Clear)
    {
      if !(act.SweepBlock? && it.block == act.x) && !(act.Take? && it == act.it) {
        assert StatusOf(c, it) == StatusOf(s.a, it);
      }
    }
  }

  lemma ActFlags(s: State, act: Act, c: Allocator)
    requires Inv(s) && Does(s.a, act, c) && Permitted(s, act)
    ensures s.marking && !s.done ==> AllSwept(c)
    ensures s.done ==> AllIn(c, s.finalizedValue)
    ensures !s.done && !Stale(s) ==> AllIn(c, !s.finalizedValue)
  {
    forall x | x in c.blocks && !(act.NewChunk? && act.x == x)
      ensures x in s.a.blocks && c.blocks[x].finalizeState == s.a.blocks[x].finalizeState
      ensures s.marking && !s.done ==> !c.blocks[x].needsSweeping
    {
    }
  }

  lemma StepKeepsInv(s: State, st: Step, t: State)
    requires Inv(s) && Next(s, st, t)
    ensures Inv(t)
  {
    match st
    case Do(act) =>
      ActFlags(s, act, t.a);
      if !s.marking || s.done {
        ActClean(s, act, t.a);
      }
    case Finalize => FinalizedClean(s.a, t.a, s.finalizedValue);
    case _ =>
  }

  lemma FinalizedClean(a: Allocator, c: Allocator, finalizedValue: bool)
    requires Finalized(a, c, finalizedValue)
    ensures Clean(c) && AllIn(c, finalizedValue)
  {
    forall it | StatusOf(c, it).Alive? && !c.blocks[it.block].needsSweeping
      ensures StatusOf(c, it) == Alive(Clear)
    {
      assert Unmarked(c.blocks[it.block]);
    }
  }

  lemma {:induction false} RunKeepsInv(states: seq<State>, steps: seq<Step>, i: nat)
    requires IsRun(states, steps) && i < |states|
    ensures Inv(states[i])
  {
    if i > 0 {
      RunKeepsInv(states, steps, i - 1);
      assert StepAt(Next, states, steps, i - 1);
      StepKeepsInv(states[i - 1], steps[i - 1], states[i]);
    }
  }

  // Whenever marking starts no item is marked or dead.
  lemma MarkingStartsClean(states: seq<State>, steps: seq<Step>, i: nat, it: Item)
    requires IsRun(states, steps) && i < |steps| && steps[i] == StartMarking
    ensures StatusOf(states[i].a, it) == Vacant || StatusOf(states[i].a, it) == Alive(Clear)
  {
    RunKeepsInv(states, steps, i);
    assert StepAt(Next, states, steps, i);
  }

  // ------------------------------------------------------------------ stretches of a run

  // Some sequence of steps leads from s to t.
  ghost predicate Reaches(s: State, t: State) {
    Connected(Next, s, t)
  }

  lemma ReachesAct(s: State, t: State, act: Act, c: Allocator)
    requires Reaches(s, t) && Does(t.a, act, c) && Permitted(t, act)
    ensures Reaches(s, t.(a := c))
  {
    ConnectedOn(Next, s, t, Do(act), t.(a := c));
  }

  // What an operation of the allocator did is a stretch, if its acts were permitted.
  lemma {:induction false} ReachesActs(s: State, greedy: bool, via: seq<Allocator>, acts: seq<Act>, c: Allocator)
    requires Leads(s.a, via, acts, c, ModeOf(s, greedy))
    requires forall act :: act in acts ==> !act.SetMark? && !act.GiveBack?
    ensures Reaches(s, s.(a := c))
  {
    var n := |acts|;
    if n == 0 {
      assert s.(a := c) == s;
      ConnectedSelf(Next, s);
    } else {
      var values, before, mode := via[..n], acts[..n - 1], ModeOf(s, greedy);
      forall i | 0 <= i < n - 1 ensures ActAt(values, before, i, mode) {
        assert ActAt(via, acts, i, mode);
      }
      assert ActAt(via, acts, n - 1, ModeOf(s, greedy));
      ReachesActs(s, greedy, values, before, via[n - 1]);
      assert acts[n - 1] in acts;
      ReachesAct(s, s.(a := via[n - 1]), acts[n - 1], c);
    }
  }

  // The invariant, whatever is reached from a state in which it holds.
  lemma {:induction false} StretchKeepsInv(states: seq<State>, steps: seq<Step>, s: State, t: State, i: nat)
    requires Stretch(Next, states, steps, s, t) && Inv(s) && i < |states|
    ensures Inv(states[i])
  {
    if i > 0 {
      StretchKeepsInv(states, steps, s, t, i - 1);
      assert StepAt(Next, states, steps, i - 1);
      StepKeepsInv(states[i - 1], steps[i - 1], states[i]);
    }
  }

  lemma ReachedKeepsInv(s: State, t: State)
    requires Reaches(s, t) && Inv(s)
    ensures Inv(t)
  {
    var states, steps :| Stretch(Next, states, steps, s, t);
    StretchKeepsInv(states, steps, s, t, |steps|);
  }

  // ------------------------------------------------------------------ what is alive

  predicate Takes(st: Step, it: Item) {
    st.Do? && st.act.Take? && st.act.it == it
  }

  predicate Frees(st: Step, it: Item) {
    st == Do(GiveBack(it))
  }

  // What one step does to the item.
  lemma StepLive(s: State, st: Step, t: State, it: Item)
    requires Next(s, st, t)
    ensures Live(t.a, it) <==>
              Takes(st, it) || (Live(s.a, it) && !Frees(st, it) && (st.Finalize? ==> MarkedIn(s.a, it)))
  {
    if st.Do? {
      assert StatusOf(t.a, it).Alive? <==> Live(t.a, it);
      assert StatusOf(s.a, it).Alive? <==> Live(s.a, it);
    }
  }

  // Between the steps i and j the item is not given back, nor is there a finalization that
  // does not find it marked.
  ghost predicate Spared(states: seq<State>, steps: seq<Step>, i: int, j: nat, it: Item)
    requires IsRun(states, steps) && -1 <= i && j <= |steps|
  {
    forall k :: i < k < j ==> !Frees(steps[k], it) && (steps[k].Finalize? ==> MarkedIn(states[k].a, it))
  }

  // At any time exactly those items are alive that were handed out at some time, not given
  // back since, and found marked by every finalization since.
  lemma {:induction false} LiveExactly(states: seq<State>, steps: seq<Step>, j: nat, it: Item)
    requires IsRun(states, steps) && j < |states|
    ensures Live(states[j].a, it) <==> exists i :: 0 <= i < j && Takes(steps[i], it) && Spared(states, steps, i, j, it)
  {
    if j > 0 {
      LiveExactly(states, steps, j - 1, it);
      assert StepAt(Next, states, steps, j - 1);
      StepLive(states[j - 1], steps[j - 1], states[j], it);
      if i :| 0 <= i < j - 1 && Takes(steps[i], it) && Spared(states, steps, i, j - 1, it) {
        assert Live(states[j].a, it) ==> Takes(steps[j - 1], it) || Spared(states, steps, i, j, it);
      }
      if Takes(steps[j - 1], it) {
        assert Spared(states, steps, j - 1, j, it);
      }
      forall i | 0 <= i < j && Takes(steps[i], it) && Spared(states, steps, i, j, it)
        ensures Live(states[j].a, it)
      {
        if i < j - 1 {
          assert Spared(states, steps, i, j - 1, it);
        }
      }
    }
  }

  // The same counted from a finalization f: what was marked then, with what was allocated
  // since and without what was freed since.
  lemma {:induction false} LiveSince(states: seq<State>, steps: seq<Step>, f: nat, j: nat, it: Item)
    requires IsRun(states, steps) && f < j < |states| && steps[f] == Finalize
    requires forall k :: f < k < j ==> steps[k] != Finalize
    ensures Live(states[j].a, it) <==>
              || (Live(states[f].a, it) && MarkedIn(states[f].a, it) && forall k :: f < k < j ==> !Frees(steps[k], it))
              || (exists i :: f < i < j && Takes(steps[i], it) && forall k :: i < k < j ==> !Frees(steps[k], it))
  {
    assert StepAt(Next, states, steps, j - 1);
    StepLive(states[j - 1], steps[j - 1], states[j], it);
    if j > f + 1 {
      LiveSince(states, steps, f, j - 1, it);
    }
  }

  // ------------------------------------------------------------------ what is reclaimed

  // The item goes from in use to free, other than by the program freeing it.
  ghost predicate Reclaims(s: State, st: Step, t: State, it: Item) {
    && StatusOf(s.a, it) != Vacant && StatusOf(t.a, it) == Vacant
    && !(Frees(st, it) && StatusOf(s.a, it).Alive?)
  }

  ghost predicate Doomed(s: State, it: Item) {
    StatusOf(s.a, it) != Vacant && !MarkedIn(s.a, it)
  }

  // After a finalization and before the next one only garbage is reclaimed, and nothing
  // becomes garbage.
  lemma AfterFinalize(s: State, st: Step, t: State, it: Item)
    requires Inv(s) && Next(s, st, t) && st != Finalize
    ensures StatusOf(s.a, it) != Garbage ==> StatusOf(t.a, it) != Garbage && !Reclaims(s, st, t, it)
    ensures StatusOf(s.a, it) == Garbage ==>
              StatusOf(t.a, it) == Garbage || (StatusOf(t.a, it) == Vacant && Reclaims(s, st, t, it))
  {
  }

  // What is not garbage after step k is never reclaimed later, and not garbage either.
  lemma {:induction false} NoGarbageLater(states: seq<State>, steps: seq<Step>, k: nat, j: nat, it: Item)
    requires IsRun(states, steps) && k <= j < |states| && StatusOf(states[k].a, it) != Garbage
    requires forall i :: k <= i < j ==> steps[i] != Finalize
    ensures StatusOf(states[j].a, it) != Garbage
    ensures forall i :: k <= i < j ==> !Reclaims(states[i], steps[i], states[i + 1], it)
  {
    if k < j {
      NoGarbageLater(states, steps, k, j - 1, it);
      RunKeepsInv(states, steps, j - 1);
      assert StepAt(Next, states, steps, j - 1);
      AfterFinalize(states[j - 1], steps[j - 1], states[j], it);
    }
  }

  // Garbage is reclaimed in the first step after which it is not garbage any more.
  lemma {:induction false} GarbageOnce(states: seq<State>, steps: seq<Step>, k: nat, e: nat, it: Item) returns (r: nat)
    requires IsRun(states, steps) && k <= e < |states| && StatusOf(states[k].a, it) == Garbage
    requires forall i :: k <= i < e ==> steps[i] != Finalize
    requires StatusOf(states[e].a, it) != Garbage
    ensures k <= r < e && Reclaims(states[r], steps[r], states[r + 1], it)
    ensures forall i :: k <= i <= r ==> StatusOf(states[i].a, it) == Garbage
    ensures forall i :: k <= i < e && i != r ==> !Reclaims(states[i], steps[i], states[i + 1], it)
    decreases e - k
  {
    RunKeepsInv(states, steps, k);
    assert StepAt(Next, states, steps, k);
    var next := k + 1;
    AfterFinalize(states[k], steps[k], states[next], it);
    if StatusOf(states[next].a, it) == Garbage {
      r := GarbageOnce(states, steps, next, e, it);
    } else {
      r := k;
      NoGarbageLater(states, steps, next, e, it);
    }
  }

  // From a finalization f to a time when no block awaits its sweep: every item that was in
  // use and unmarked is reclaimed in exactly one step, until which it never comes alive;
  // no other item is reclaimed at all.
  lemma ReclaimedOnce(states: seq<State>, steps: seq<Step>, f: nat, e: nat, it: Item) returns (r: nat)
    requires IsRun(states, steps) && f < e < |states| && steps[f] == Finalize && AllSwept(states[e].a)
    requires forall k :: f < k < e ==> steps[k] != Finalize
    ensures Doomed(states[f], it) ==>
              && f <= r < e && Reclaims(states[r], steps[r], states[r + 1], it)
              && (forall i :: f < i <= r ==> StatusOf(states[i].a, it) == Garbage)
              && (forall i :: f <= i < e && i != r ==> !Reclaims(states[i], steps[i], states[i + 1], it))
    ensures !Doomed(states[f], it) ==> forall i :: f <= i < e ==> !Reclaims(states[i], steps[i], states[i + 1], it)
  {
    RunKeepsInv(states, steps, f);
    assert StepAt(Next, states, steps, f);
    var next := f + 1;
    FinalizeStep(states[f], states[next], it);
    r := f;
    if StatusOf(states[next].a, it) == Garbage {
      r := GarbageOnce(states, steps, next, e, it);
    } else {
      NoGarbageLater(states, steps, next, e, it);
    }
  }

  lemma FinalizeStep(s: State, t: State, it: Item)
    requires Inv(s) && Next(s, Finalize, t)
    ensures Doomed(s, it) ==> StatusOf(t.a, it) == Garbage || Reclaims(s, Finalize, t, it)
    ensures StatusOf(t.a, it) == Garbage ==> Doomed(s, it) && !Reclaims(s, Finalize, t, it)
    ensures Reclaims(s, Finalize, t, it) ==> Doomed(s, it)
  {
    assert Live(t.a, it) <==> Live(s.a, it) && MarkedIn(s.a, it);
  }

  // ------------------------------------------------------------------ born during the collection

  predicate Marks(st: Step, it: Item) {
    st.Do? && st.act.SetMark? && st.act.it == it
  }

  // Until its allocator is finalized, an item handed out while collecting stays alive, and
  // unmarked only if it was handed out so and the marker does not come by.
  lemma {:induction false} BornKept(states: seq<State>, steps: seq<Step>, i: nat, j: nat, it: Item)
    requires IsRun(states, steps) && i < j < |states| && Takes(steps[i], it)
    requires states[i].collecting && !states[i].done && forall k :: i < k < j ==> steps[k] != Finalize
    ensures states[j].collecting && !states[j].done && StatusOf(states[j].a, it).Alive?
    ensures StatusOf(states[j].a, it) == Alive(Clear) <==>
              steps[i].act.mark == Clear && forall k :: i < k < j ==> !Marks(steps[k], it)
  {
    RunKeepsInv(states, steps, j - 1);
    assert StepAt(Next, states, steps, j - 1);
    if j > i + 1 {
      BornKept(states, steps, i, j - 1, it);
      BornStep(states[j - 1], steps[j - 1], states[j], it);
    } else {
      assert StatusOf(states[j].a, it) == Alive(steps[i].act.mark);
    }
  }

  lemma BornStep(s: State, st: Step, t: State, it: Item)
    requires Inv(s) && Next(s, st, t) && st != Finalize
    requires s.collecting && !s.done && StatusOf(s.a, it).Alive?
    ensures t.collecting && !t.done && StatusOf(t.a, it).Alive?
    ensures StatusOf(t.a, it) == Alive(Clear) <==> StatusOf(s.a, it) == Alive(Clear) && !Marks(st, it)
  {
  }

  // An item handed out while collecting, before its allocator is finalized, survives the
  // finalization exactly if its block counts as not yet finalized or the marker finds it.
  lemma BornSurvives(states: seq<State>, steps: seq<Step>, i: nat, f: nat, it: Item)
    requires IsRun(states, steps) && i < f < |steps| && Takes(steps[i], it) && steps[f] == Finalize
    requires states[i].collecting && !states[i].done && forall k :: i < k < f ==> steps[k] != Finalize
    ensures it.block in states[i].a.blocks
    ensures Live(states[f + 1].a, it) <==>
              || states[i].a.blocks[it.block].finalizeState != states[i].finalizedValue
              || exists k :: i < k < f && Marks(steps[k], it)
    ensures !states[i].finalized ==> Live(states[f + 1].a, it)
  {
    BornKept(states, steps, i, f, it);
    assert StepAt(Next, states, steps, i);
    assert StepAt(Next, states, steps, f);
    StepLive(states[f], Finalize, states[f + 1], it);
    assert StatusOf(states[f].a, it) != Alive(Queued);
    assert StatusOf(states[f].a, it) != Alive(Freed);
    RunKeepsInv(states, steps, i);
  }

  // ------------------------------------------------------------------ when it does not survive

  const LOST: Item := Item(0, 0)

  ghost function Floats(blocks: map<nat, Block>, list: seq<nat>, free: seq<nat>, sweep: seq<nat>, qList: seq<Item>): Allocator {
    Allocator(1, 8, false, blocks, list, free, sweep, qList, 1 - |qList|, 1)
  }

  ghost function OneBlock(bits: Bits, free: seq<nat>, needsSweeping: bool): map<nat, Block> {
    map[0 := Block([bits], free, |free|, needsSweeping, true)]
  }

  // The values of the float allocator: no block, a new block, its item on the quick list,
  // the item in use, its block awaiting the sweep.
  ghost function LostAlloc(i: nat): Allocator {
    if i <= 6 then Floats(map[], [], [], [], [])
    else if i == 7 then Floats(OneBlock(Freed, [0], false), [0], [0], [], [])
    else if i == 8 then Floats(OneBlock(Freed, [], false), [0], [], [], [LOST])
    else if i == 9 then Floats(OneBlock(Clear, [], false), [0], [], [], [])
    else Floats(OneBlock(Clear, [], true), [0], [], [0], [])
  }

  // Two collections; what is kept of the first is m_finalized.
  ghost function LostState(i: nat): State {
    State(LostAlloc(i), i != 0 && i != 4, i == 2 || i == 3 || i >= 6, i >= 4, i >= 3, i == 3 || i >= 10, false)
  }

  ghost function LostStep(i: nat): Step {
    match i
    case 0 => StartMarking
    case 1 => StartCollecting
    case 2 => Finalize
    case 3 => EndCollecting
    case 4 => StartMarking
    case 5 => StartCollecting
    case 6 => Do(NewChunk(0, true))
    case 7 => Do(Reshape)
    case 8 => Do(Take(LOST, Clear))
    case _ => Finalize
  }

  lemma LostValid(i: nat)
    ensures Valid(LostAlloc(i))
  {
    var a := LostAlloc(i);
    forall x | x in a.blocks ensures Sound(a, a.qList, x) {
      assert OnQuick(a.qList, 0) == if i == 8 then {0} else {} by {
        assert i == 8 ==> LOST in a.qList && LOST.block == 0;
      }
      assert ItemOk(a.blocks[0], OnQuick(a.qList, 0), 0);
    }
  }

  lemma DoNext(s: State, act: Act, t: State)
    requires Does(s.a, act, t.a) && Permitted(s, act) && t == s.(a := t.a)
    ensures Next(s, Do(act), t)
  {
  }

  lemma LostChunk(i: nat, s: State, st: Step, t: State)
    requires i == 6 && s == LostState(i) && st == LostStep(i) && t == LostState(i + 1)
    ensures Next(s, st, t)
  {
    LostValid(i);
    LostValid(i + 1);
    forall it ensures StatusOf(t.a, it) == Vacant == StatusOf(s.a, it) {
    }
    DoNext(s, NewChunk(0, true), t);
  }

  lemma Reshaped(a: Allocator, c: Allocator)
    requires Valid(a) && Valid(c) && c.itemsPerBlock == a.itemsPerBlock && c.itemSize == a.itemSize
    requires a.blocks.Keys == c.blocks.Keys == {0}
    requires SameFlags(a.blocks[0], c.blocks[0]) && a.blocks[0].bits == c.blocks[0].bits
    ensures Does(a, Reshape, c)
  {
    BitsSame(a, c);
  }

  lemma LostFilled(i: nat, j: nat)
    requires i == 7 && j == 8
    ensures Does(LostAlloc(i), Reshape, LostAlloc(j))
  {
    LostValid(i);
    LostValid(j);
    Reshaped(LostAlloc(i), LostAlloc(j));
  }

  lemma LostFill(i: nat, s: State, st: Step, t: State)
    requires i == 7 && s == LostState(i) && st == LostStep(i) && t == LostState(i + 1)
    ensures Next(s, st, t)
  {
    LostFilled(i, i + 1);
    DoNext(s, Reshape, t);
  }

  lemma LostTake(i: nat, s: State, st: Step, t: State)
    requires i == 8 && s == LostState(i) && st == LostStep(i) && t == LostState(i + 1)
    ensures Next(s, st, t)
  {
    LostValid(i);
    LostValid(i + 1);
    BitChanged(s.a, t.a, LOST, Clear);
    DoNext(s, Take(LOST, Clear), t);
  }

  lemma LostFinalize(i: nat, s: State, st: Step, t: State)
    requires (i == 2 || i == 9) && s == LostState(i) && st == LostStep(i) && t == LostState(i + 1)
    ensures Next(s, st, t)
  {
    LostValid(i + 1);
    if i == 9 {
      FinalizesLost();
    }
  }

  lemma LostFlag(i: nat, s: State, st: Step, t: State)
    requires i < 6 && i != 2 && s == LostState(i) && st == LostStep(i) && t == LostState(i + 1)
    ensures Next(s, st, t)
  {
    assert t.a == s.a;
  }

  lemma LostNext(i: nat, s: State, st: Step, t: State)
    requires i < 10 && s == LostState(i) && st == LostStep(i) && t == LostState(i + 1)
    ensures Next(s, st, t)
  {
    if i == 6 {
      LostChunk(i, s, st, t);
    } else if i == 7 {
      LostFill(i, s, st, t);
    } else if i == 8 {
      LostTake(i, s, st, t);
    } else if i == 2 || i == 9 {
      LostFinalize(i, s, st, t);
    } else {
      LostFlag(i, s, st, t);
    }
  }

  lemma FinalizesLost()
    ensures NoneQueued(LostAlloc(9)) && Finalized(LostAlloc(9), LostAlloc(10), true)
  {
    LostValid(10);
  }

  // GC::Finalize does not reset m_finalized of the float allocator.  In a later collection a
  // float that the program boxes before that allocator is finalized, if it needs a new
  // block, is not marked, and finalization makes garbage of it.
  lemma FloatLost() returns (states: seq<State>, steps: seq<Step>, i: nat, f: nat)
    ensures IsRun(states, steps) && i < f < |steps| && Takes(steps[i], LOST) && steps[f] == Finalize
    ensures forall k :: i < k < |steps| ==> !Frees(steps[k], LOST)
    ensures Live(states[i + 1].a, LOST) && StatusOf(states[f + 1].a, LOST) == Garbage
  {
    states := seq(11, k requires 0 <= k < 11 => LostState(k));
    steps := seq(10, k requires 0 <= k < 10 => LostStep(k));
    i, f := 8, 9;
    LostValid(0);
    forall k | 0 <= k < 10 ensures StepAt(Next, states, steps, k) {
      LostNext(k, states[k], steps[k], states[k + 1]);
    }
  }
}
