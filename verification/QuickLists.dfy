/**
 The small-object allocators of a collector and the budget their quick lists share
 (MMgc/GC.cpp:237-263, 943-973, 1035-1085; MMgc/GCAlloc.cpp:557-575, 617-694, 728-782).

 The allocators are numbered as the victim iterator visits them; the last one, for boxed
 floats, is never a victim.
 */
module QuickLists {
  import opened Paths
  import opened Arithmetic
  import opened Options
  import opened SmallBlocks
  import opened ItemStatus
  import opened Sweeping
  import opened SweepRuns

  const BLOCK_SIZE: nat := 4096
  const NUM_SIZE_CLASSES: nat := 40
  const NUM_VICTIMS: nat := 5 * NUM_SIZE_CLASSES
  const FLOATS: nat := NUM_VICTIMS
  const TOTAL_BUDGET: nat := (3 * NUM_SIZE_CLASSES) * 4 * BLOCK_SIZE

  function Bytes(a: Allocator): int {
    a.qBudgetObtained * a.itemSize
  }

  // One block's worth, which every allocator keeps.
  function Initial(a: Allocator): nat {
    a.itemsPerBlock * a.itemSize
  }

  function TotalBytes(allocs: seq<Allocator>): int {
    if allocs == [] then 0 else TotalBytes(allocs[..|allocs| - 1]) + Bytes(allocs[|allocs| - 1])
  }

  function TotalInitial(allocs: seq<Allocator>): nat {
    if allocs == [] then 0 else TotalInitial(allocs[..|allocs| - 1]) + Initial(allocs[|allocs| - 1])
  }

  // The bytes on the quick lists.
  function QuickBytes(allocs: seq<Allocator>): int {
    if allocs == [] then 0
    else QuickBytes(allocs[..|allocs| - 1]) + |allocs[|allocs| - 1].qList| * allocs[|allocs| - 1].itemSize
  }

  lemma {:induction false} TotalUpdate(allocs: seq<Allocator>, k: nat, a: Allocator)
    requires k < |allocs|
    ensures TotalBytes(allocs[k := a]) == TotalBytes(allocs) - Bytes(allocs[k]) + Bytes(a)
  {
    var n := |allocs| - 1;
    if k < n {
      TotalUpdate(allocs[..n], k, a);
      assert allocs[k := a][..n] == allocs[..n][k := a];
    } else {
      assert allocs[k := a][..n] == allocs[..n];
    }
  }

  // The allocator never changes its shape.
  ghost predicate SameShape(a: Allocator, c: Allocator) {
    c.itemsPerBlock == a.itemsPerBlock && c.itemSize == a.itemSize
  }

  lemma {:induction false} InitialSame(allocs: seq<Allocator>, cs: seq<Allocator>)
    requires |cs| == |allocs| && forall k :: 0 <= k < |allocs| ==> SameShape(allocs[k], cs[k])
    ensures TotalInitial(cs) == TotalInitial(allocs)
  {
    if allocs != [] {
      var n := |allocs| - 1;
      InitialSame(allocs[..n], cs[..n]);
    }
  }

  lemma {:induction false} InitialLeast(allocs: seq<Allocator>)
    requires forall k :: 0 <= k < |allocs| ==> Valid(allocs[k])
    ensures TotalInitial(allocs) <= TotalBytes(allocs)
    ensures (forall k :: 0 <= k < |allocs| ==> allocs[k].qBudgetObtained == allocs[k].itemsPerBlock) ==>
              TotalBytes(allocs) == TotalInitial(allocs)
  {
    if allocs != [] {
      var n := |allocs| - 1;
      InitialLeast(allocs[..n]);
      Product(allocs[n].itemsPerBlock, allocs[n].qBudgetObtained, allocs[n].itemSize);
    }
  }

  lemma {:induction false} QuickAtMost(allocs: seq<Allocator>)
    requires forall k :: 0 <= k < |allocs| ==> Valid(allocs[k]) && allocs[k].qBudget >= 0
    ensures QuickBytes(allocs) <= TotalBytes(allocs)
  {
    if allocs != [] {
      var n := |allocs| - 1;
      QuickAtMost(allocs[..n]);
      Product(|allocs[n].qList|, allocs[n].qBudgetObtained, allocs[n].itemSize);
    }
  }

  lemma {:induction false} InitialAtMost(allocs: seq<Allocator>)
    requires forall k :: 0 <= k < |allocs| ==> Initial(allocs[k]) <= BLOCK_SIZE
    ensures TotalInitial(allocs) <= |allocs| * BLOCK_SIZE
  {
    if allocs != [] {
      InitialAtMost(allocs[..|allocs| - 1]);
    }
  }

  // What is left of the budget when every victim has given back all it can: this, and no
  // more, can be obtained.
  function Obtainable(allocs: seq<Allocator>): int
    requires |allocs| == NUM_VICTIMS + 1
  {
    TOTAL_BUDGET - TotalInitial(allocs[..NUM_VICTIMS]) - Bytes(allocs[FLOATS])
  }

  lemma TotalSplit(allocs: seq<Allocator>)
    requires |allocs| == NUM_VICTIMS + 1
    ensures TotalBytes(allocs) == TotalBytes(allocs[..NUM_VICTIMS]) + Bytes(allocs[FLOATS])
  {
  }

  // Quick lists, free lists and budgets apart, every allocator is as it was.
  ghost predicate SameAlive(a: seq<Allocator>, c: seq<Allocator>) {
    |a| == |c| && forall k :: 0 <= k < |a| ==> Does(a[k], Reshape, c[k])
  }

  lemma ReshapedTwice(a: Allocator, b: Allocator, c: Allocator)
    requires Does(a, Reshape, b) && Does(b, Reshape, c)
    ensures Does(a, Reshape, c)
  {
    forall it ensures StatusOf(c, it) == StatusOf(a, it) {
      assert StatusOf(b, it) == StatusOf(a, it);
    }
  }

  lemma SameAliveLive(a: seq<Allocator>, c: seq<Allocator>, k: nat)
    requires SameAlive(a, c) && k < |a|
    ensures SameLive(a[k], c[k])
  {
    StatusLive(a[k], c[k]);
  }

  // Flushing victims does not change what is obtainable; it is all there once every victim
  // has nothing more to give.
  lemma ObtainableLeft(was: seq<Allocator>, allocs: seq<Allocator>)
    requires |was| == |allocs| == NUM_VICTIMS + 1 && SameAlive(was, allocs) && allocs[FLOATS] == was[FLOATS]
    requires forall k :: 0 <= k < |allocs| ==> Valid(allocs[k])
    ensures Obtainable(was) == Obtainable(allocs) >= TOTAL_BUDGET - TotalBytes(allocs)
    ensures (forall k :: 0 <= k < NUM_VICTIMS ==> allocs[k].qBudgetObtained == allocs[k].itemsPerBlock) ==>
              Obtainable(allocs) == TOTAL_BUDGET - TotalBytes(allocs)
  {
    InitialSame(was[..NUM_VICTIMS], allocs[..NUM_VICTIMS]);
    InitialLeast(allocs[..NUM_VICTIMS]);
    TotalSplit(allocs);
  }

  // Nothing more to give back.
  predicate Flushed(a: Allocator) {
    a.qBudget == a.qBudgetObtained == a.itemsPerBlock
  }

  ghost predicate AllValid(allocs: seq<Allocator>) {
    forall k :: 0 <= k < |allocs| ==> Valid(allocs[k]) && Initial(allocs[k]) <= BLOCK_SIZE
  }

  // The victims visited in the first n steps from v0 on.
  predicate Visited(v0: nat, n: nat, k: nat) {
    (v0 <= k < v0 + n) || k + NUM_VICTIMS < v0 + n
  }

  ghost predicate AllFlushed(was: seq<Allocator>, allocs: seq<Allocator>, v0: nat, n: nat) {
    && |allocs| == |was| == NUM_VICTIMS + 1 && allocs[FLOATS] == was[FLOATS]
    && forall k :: 0 <= k < NUM_VICTIMS ==> if Visited(v0, n, k) then Flushed(allocs[k]) else allocs[k] == was[k]
  }

  lemma FlushedStep(was: seq<Allocator>, a: seq<Allocator>, c: seq<Allocator>, v0: nat, n: nat, v: nat)
    requires AllFlushed(was, a, v0, n) && SameAlive(was, a) && SameAlive(a, c) && v0 < NUM_VICTIMS && n < NUM_VICTIMS
    requires v == if v0 + n < NUM_VICTIMS then v0 + n else v0 + n - NUM_VICTIMS
    requires c == a[v := c[v]] && Flushed(c[v])
    ensures AllFlushed(was, c, v0, n + 1) && SameAlive(was, c)
  {
    AliveTransitive(was, a, c);
    forall k | 0 <= k < NUM_VICTIMS
      ensures if Visited(v0, n + 1, k) then Flushed(c[k]) else c[k] == was[k]
    {
      assert Visited(v0, n + 1, k) <==> Visited(v0, n, k) || k == v;
    }
  }

  lemma MoreBytes(a: int, b: int, n: int)
    ensures (a + b) * n == a * n + b * n
  {
  }

  lemma AliveTransitive(a: seq<Allocator>, b: seq<Allocator>, c: seq<Allocator>)
    requires SameAlive(a, b) && SameAlive(b, c)
    ensures SameAlive(a, c)
  {
    forall k | 0 <= k < |a| ensures Does(a[k], Reshape, c[k]) {
      ReshapedTwice(a[k], b[k], c[k]);
    }
  }

  lemma ObtainableSame(a: seq<Allocator>, c: seq<Allocator>, k: nat)
    requires |a| == |c| == NUM_VICTIMS + 1 && k < |a| && c == a[k := c[k]] && SameShape(a[k], c[k])
    requires c[k].qBudgetObtained == a[k].qBudgetObtained
    ensures Obtainable(a) == Obtainable(c)
  {
    InitialSame(a[..NUM_VICTIMS], c[..NUM_VICTIMS]);
  }

  // With only its initial budget with the float allocator, any request of at most a block
  // can be met.
  lemma AlwaysObtainable(allocs: seq<Allocator>, nbytes: nat)
    requires |allocs| == NUM_VICTIMS + 1 && AllValid(allocs) && nbytes <= BLOCK_SIZE
    requires allocs[FLOATS].qBudgetObtained == allocs[FLOATS].itemsPerBlock
    ensures Obtainable(allocs) > nbytes
  {
    InitialAtMost(allocs[..NUM_VICTIMS]);
  }

  // The budgets add up, and some is left.
  ghost predicate BudgetOk(allocs: seq<Allocator>, remaining: int) {
    && |allocs| == NUM_VICTIMS + 1 && AllValid(allocs)
    && remaining + TotalBytes(allocs) == TOTAL_BUDGET && remaining > 0
  }

  // Between operations no budget is overdrawn.
  ghost predicate SettledAt(allocs: seq<Allocator>, remaining: int) {
    BudgetOk(allocs, remaining) && forall k :: 0 <= k < |allocs| ==> allocs[k].qBudget >= 0
  }

  // Allocator k has become c without obtaining or giving back any budget.
  lemma SettledUpdate(allocs: seq<Allocator>, remaining: int, k: nat, c: Allocator)
    requires SettledAt(allocs, remaining) && k < |allocs| && Valid(c) && SameShape(allocs[k], c)
    requires c.qBudgetObtained == allocs[k].qBudgetObtained
    ensures BudgetOk(allocs[k := c], remaining)
    ensures c.qBudget >= 0 ==> SettledAt(allocs[k := c], remaining)
  {
    TotalUpdate(allocs, k, c);
  }

  // The largest number of times the unit fits into r with something left.
  lemma MostUnits(r: int, unit: nat) returns (n: nat)
    requires r > unit > 0
    ensures n >= 1 && 0 < r - n * unit <= unit
  {
    n := (r - 1) / unit;
  }

  // Once the float allocator has obtained as many budgets as it can, everything is in order
  // and yet not enough is obtainable for one more.
  lemma FloatsHoldTooMuch(was: seq<Allocator>, remaining: int) returns (a: Allocator, left: int)
    requires BudgetOk(was, remaining) && Initial(was[FLOATS]) > 0
    requires forall k :: 0 <= k < |was| ==> was[k].qList == [] && Flushed(was[k])
    ensures a == was[FLOATS].(qBudget := a.qBudget, qBudgetObtained := a.qBudgetObtained)
    ensures var allocs := was[FLOATS := a];
            SettledAt(allocs, left) && 0 < Obtainable(allocs) <= Initial(allocs[FLOATS])
  {
    var f := was[FLOATS];
    var unit := Initial(f);
    var r := TOTAL_BUDGET - TotalInitial(was[..NUM_VICTIMS]);
    InitialAtMost(was[..NUM_VICTIMS]);
    var n := MostUnits(r, unit);
    a := f.(qBudget := n * f.itemsPerBlock, qBudgetObtained := n * f.itemsPerBlock);
    var allocs := was[FLOATS := a];
    assert Bytes(a) == n * unit by {
      Regroup(n, f.itemsPerBlock, f.itemSize);
    }
    AtLeastOne(n, f.itemsPerBlock);
    SameParts(f, a, []);
    assert allocs[..NUM_VICTIMS] == was[..NUM_VICTIMS];
    InitialLeast(allocs[..NUM_VICTIMS]);
    TotalSplit(allocs);
    left := r - n * unit;
  }

  lemma Regroup(n: int, a: int, b: int)
    ensures (n * a) * b == n * (a * b)
  {
  }

  lemma AtLeastOne(n: nat, a: nat)
    requires n >= 1
    ensures n * a >= a
  {
    Product(1, n, a);
  }

  // ------------------------------------------------------------------ all allocators at once

  lemma SameAliveSelf(a: seq<Allocator>)
    requires AllValid(a)
    ensures SameAlive(a, a)
  {
  }

  lemma ReshapedOthers(a: seq<Allocator>, k: nat, c: Allocator)
    requires AllValid(a) && k < |a| && Does(a[k], Reshape, c)
    ensures SameAlive(a, a[k := c])
  {
  }

  // When every victim has had its turn, all that is obtainable has been obtained.
  // No more is left than can be obtained, and after a round of the victims that is left.
  ghost predicate Rest(was: seq<Allocator>, remaining: int, n: nat)
    requires |was| == NUM_VICTIMS + 1
  {
    Obtainable(was) >= remaining && (n >= NUM_VICTIMS ==> Obtainable(was) == remaining)
  }

  lemma AllObtained(was: seq<Allocator>, allocs: seq<Allocator>, v0: nat, n: nat, remaining: int)
    requires |was| == |allocs| == NUM_VICTIMS + 1 && SameAlive(was, allocs) && v0 < NUM_VICTIMS
    requires AllFlushed(was, allocs, v0, if n < NUM_VICTIMS then n else NUM_VICTIMS)
    requires BudgetOk(allocs, remaining)
    ensures Rest(was, remaining, n)
  {
    ObtainableLeft(was, allocs);
    if n >= NUM_VICTIMS {
      forall k | 0 <= k < NUM_VICTIMS ensures allocs[k].qBudgetObtained == allocs[k].itemsPerBlock {
        assert Visited(v0, NUM_VICTIMS, k);
      }
    }
  }

  // A further round does not undo anything.
  lemma FlushedAgain(was: seq<Allocator>, a: seq<Allocator>, c: seq<Allocator>, v0: nat, v: nat)
    requires AllFlushed(was, a, v0, NUM_VICTIMS) && v0 < NUM_VICTIMS && v < NUM_VICTIMS
    requires |c| == |a| && c == a[v := c[v]] && Flushed(c[v])
    ensures AllFlushed(was, c, v0, NUM_VICTIMS)
  {
    forall k | 0 <= k < NUM_VICTIMS ensures Visited(v0, NUM_VICTIMS, k) {
    }
  }

  // n victims from v0 on have been flushed, and v is next.
  ghost predicate FlushAt(was: seq<Allocator>, a: seq<Allocator>, v0: nat, n: nat, v: nat) {
    && SameAlive(was, a) && v0 < NUM_VICTIMS && AllFlushed(was, a, v0, if n < NUM_VICTIMS then n else NUM_VICTIMS)
    && (n <= NUM_VICTIMS ==> v == if v0 + n < NUM_VICTIMS then v0 + n else v0 + n - NUM_VICTIMS)
  }

  lemma FlushMore(was: seq<Allocator>, a: seq<Allocator>, c: seq<Allocator>, v0: nat, n: nat, v: nat)
    requires FlushAt(was, a, v0, n, v) && v < NUM_VICTIMS && SameAlive(a, c) && c == a[v := c[v]] && Flushed(c[v])
    ensures FlushAt(was, c, v0, n + 1, NextVictim(v))
  {
    if n < NUM_VICTIMS {
      FlushedStep(was, a, c, v0, n, v);
    } else {
      AliveTransitive(was, a, c);
      FlushedAgain(was, a, c, v0, v);
    }
  }

  lemma FlushRest(was: seq<Allocator>, a: seq<Allocator>, c: seq<Allocator>, v0: nat, n: nat, v: nat, remaining: int)
    requires FlushAt(was, a, v0, n, v) && v < NUM_VICTIMS && SameAlive(a, c) && c == a[v := c[v]] && Flushed(c[v])
    requires BudgetOk(c, remaining)
    ensures FlushAt(was, c, v0, n + 1, NextVictim(v)) && Rest(was, remaining, n + 1)
  {
    FlushMore(was, a, c, v0, n, v);
    AllObtained(was, c, v0, n + 1, remaining);
  }

  ghost predicate Evolved(ss: seq<State>, ts: seq<State>) {
    |ss| == |ts| && forall k :: 0 <= k < |ss| ==> Reaches(ss[k], ts[k])
  }

  // In each allocator the invariant of its runs holds, and while collecting its quick list
  // is empty.
  ghost predicate AllInv(ss: seq<State>) {
    forall k :: 0 <= k < |ss| ==> Inv(ss[k]) && (ss[k].collecting ==> ss[k].a.qList == [])
  }

  lemma EvolvedInv(ss: seq<State>, ts: seq<State>)
    requires Evolved(ss, ts) && AllInv(ss) && forall k :: 0 <= k < |ts| && ts[k].collecting ==> ts[k].a.qList == []
    ensures AllInv(ts)
  {
    forall k | 0 <= k < |ts| ensures Inv(ts[k]) {
      ReachedKeepsInv(ss[k], ts[k]);
    }
  }

  // One allocator takes part in a stretch of a run, the others stand still.
  lemma OneEvolved(ss: seq<State>, ts: seq<State>, k: nat)
    requires k < |ss| == |ts| && ts == ss[k := ts[k]] && Reaches(ss[k], ts[k])
    ensures Evolved(ss, ts)
  {
    forall j | 0 <= j < |ss| ensures Reaches(ss[j], ts[j]) {
      ConnectedSelf(SweepRuns.Next, ss[j]);
    }
  }

  lemma EvolvedReshape(ss: seq<State>, ts: seq<State>, us: seq<State>)
    requires Evolved(ss, ts) && |us| == |ts|
    requires forall k :: 0 <= k < |ts| ==> Does(ts[k].a, Reshape, us[k].a) && us[k] == ts[k].(a := us[k].a)
    ensures Evolved(ss, us)
  {
    forall k | 0 <= k < |us| ensures Reaches(ss[k], us[k]) {
      ReachesAct(ss[k], ts[k], Reshape, us[k].a);
    }
  }

  lemma EvolvedSelf(ss: seq<State>)
    ensures Evolved(ss, ss)
  {
    forall k | 0 <= k < |ss| ensures Reaches(ss[k], ss[k]) {
      ConnectedSelf(SweepRuns.Next, ss[k]);
    }
  }

  // What the collector knows besides its allocators.
  datatype Flags = Flags(finalized: seq<bool>, done: seq<bool>, marking: bool, collecting: bool, finalizedValue: bool)

  // Each allocator with the flags of the collector and its own.
  ghost function LocalsOf(allocs: seq<Allocator>, f: Flags): (r: seq<State>)
    requires |allocs| == |f.finalized| == |f.done|
    ensures |r| == |allocs|
    ensures forall k :: 0 <= k < |r| ==>
              r[k] == State(allocs[k], f.marking, f.collecting, f.finalizedValue, f.finalized[k], f.done[k], k != FLOATS)
  {
    seq(|allocs|, k requires 0 <= k < |allocs| =>
      State(allocs[k], f.marking, f.collecting, f.finalizedValue, f.finalized[k], f.done[k], k != FLOATS))
  }

  ghost predicate LocalsInv(allocs: seq<Allocator>, f: Flags) {
    |allocs| == |f.finalized| == |f.done| && AllInv(LocalsOf(allocs, f))
  }

  ghost predicate LocalsEvolved(a: seq<Allocator>, f: Flags, c: seq<Allocator>, g: Flags) {
    && |a| == |f.finalized| == |f.done| && |c| == |g.finalized| == |g.done|
    && Evolved(LocalsOf(a, f), LocalsOf(c, g))
  }

  // Only allocator k is different.
  lemma OneLocal(allocs: seq<Allocator>, f: Flags, k: nat, c: Allocator)
    requires k < |allocs| == |f.finalized| == |f.done|
    requires Reaches(LocalsOf(allocs, f)[k], LocalsOf(allocs, f)[k].(a := c))
    ensures LocalsEvolved(allocs, f, allocs[k := c], f)
    ensures LocalsInv(allocs, f) && (f.collecting ==> c.qList == []) ==> LocalsInv(allocs[k := c], f)
  {
    var ss, ts := LocalsOf(allocs, f), LocalsOf(allocs[k := c], f);
    assert ts == ss[k := ss[k].(a := c)];
    OneEvolved(ss, ts, k);
    if LocalsInv(allocs, f) && (f.collecting ==> c.qList == []) {
      EvolvedInv(ss, ts);
    }
  }

  // Quick lists have been flushed.
  lemma ReshapedLocals(a: seq<Allocator>, f: Flags, b: seq<Allocator>, g: Flags, c: seq<Allocator>)
    requires LocalsEvolved(a, f, b, g) && SameAlive(b, c)
    ensures LocalsEvolved(a, f, c, g)
    ensures LocalsInv(a, f) && (g.collecting ==> forall k :: 0 <= k < |c| ==> c[k].qList == []) ==> LocalsInv(c, g)
  {
    EvolvedReshape(LocalsOf(a, f), LocalsOf(b, g), LocalsOf(c, g));
    if LocalsInv(a, f) && (g.collecting ==> forall k :: 0 <= k < |c| ==> c[k].qList == []) {
      EvolvedInv(LocalsOf(a, f), LocalsOf(c, g));
    }
  }

  lemma LocalsSelf(a: seq<Allocator>, f: Flags)
    requires |a| == |f.finalized| == |f.done|
    ensures LocalsEvolved(a, f, a, f)
  {
    EvolvedSelf(LocalsOf(a, f));
  }

  lemma LocalsTwice(a: seq<Allocator>, f: Flags, b: seq<Allocator>, g: Flags, c: seq<Allocator>, h: Flags)
    requires LocalsEvolved(a, f, b, g) && LocalsEvolved(b, g, c, h)
    ensures LocalsEvolved(a, f, c, h)
  {
    EvolvedTwice(LocalsOf(a, f), LocalsOf(b, g), LocalsOf(c, h));
  }

  // All allocators take the same step, which changes flags only.
  lemma FlagStep(a: seq<Allocator>, f: Flags, st: Step, g: Flags)
    requires LocalsInv(a, f) && |g.finalized| == |g.done| == |a|
    requires forall k :: 0 <= k < |a| ==> Next(LocalsOf(a, f)[k], st, LocalsOf(a, g)[k])
    requires g.collecting ==> forall k :: 0 <= k < |a| ==> a[k].qList == []
    ensures LocalsEvolved(a, f, a, g) && LocalsInv(a, g)
  {
    EvolvedSelf(LocalsOf(a, f));
    EvolvedStep(LocalsOf(a, f), LocalsOf(a, f), st, LocalsOf(a, g));
    EvolvedInv(LocalsOf(a, f), LocalsOf(a, g));
  }

  lemma CycleEnds(a: seq<Allocator>, f: Flags, g: Flags)
    requires LocalsInv(a, f) && |a| == NUM_VICTIMS + 1 && forall k :: 0 <= k < |a| ==> f.done[k]
    requires |g.finalized| == |g.done| == |a| && !g.marking && !g.collecting && g.finalizedValue == !f.finalizedValue
    requires forall k :: 0 <= k < |a| ==> !g.done[k] && g.finalized[k] == (k == FLOATS && f.finalized[k])
    ensures LocalsEvolved(a, f, a, g) && LocalsInv(a, g)
  {
    FlagStep(a, f, EndCollecting, g);
  }

  // Allocator k is finalized.
  lemma FinalizedLocal(allocs: seq<Allocator>, f: Flags, remaining: int, k: nat, c: Allocator, g: Flags)
    requires SettledAt(allocs, remaining) && LocalsInv(allocs, f) && k < |allocs| && f.collecting && !f.done[k]
    requires NoneQueued(allocs[k]) && Finalized(allocs[k], c, f.finalizedValue)
    requires g == f.(finalized := f.finalized[k := true], done := f.done[k := true])
    ensures LocalsEvolved(allocs, f, allocs[k := c], g) && LocalsInv(allocs[k := c], g) && SettledAt(allocs[k := c], remaining)
  {
    SettledUpdate(allocs, remaining, k, c);
    FinalizedEvolved(allocs, f, k, c, g);
  }

  lemma FinalizedEvolved(allocs: seq<Allocator>, f: Flags, k: nat, c: Allocator, g: Flags)
    requires LocalsInv(allocs, f) && k < |allocs| && f.collecting && !f.done[k] && NoneQueued(allocs[k])
    requires Finalized(allocs[k], c, f.finalizedValue)
    requires g == f.(finalized := f.finalized[k := true], done := f.done[k := true])
    ensures LocalsEvolved(allocs, f, allocs[k := c], g) && LocalsInv(allocs[k := c], g)
  {
    var ss, ts := LocalsOf(allocs, f), LocalsOf(allocs[k := c], g);
    var t := ss[k].(a := c, finalized := true, done := true);
    assert Inv(ss[k]);
    ConnectedSelf(SweepRuns.Next, ss[k]);
    ConnectedOn(SweepRuns.Next, ss[k], ss[k], Step.Finalize, t);
    assert ts == ss[k := t];
    OneEvolved(ss, ts, k);
    EvolvedInv(ss, ts);
  }

  // Of allocators without quick lists, the first n await no sweep.
  ghost predicate SweptTo(allocs: seq<Allocator>, n: nat) {
    forall k :: 0 <= k < |allocs| ==> allocs[k].qList == [] && (k < n ==> AllSwept(allocs[k]))
  }

  // The sweep of the rest has come to allocator n.
  ghost predicate SweepAt(was: seq<Allocator>, f: Flags, allocs: seq<Allocator>, n: nat) {
    LocalsEvolved(was, f, allocs, f) && AllSameLive(was, allocs) && SweptTo(allocs, n)
  }

  lemma SweptMore(was: seq<Allocator>, f: Flags, a: seq<Allocator>, c: seq<Allocator>, n: nat)
    requires SweepAt(was, f, a, n) && LocalsEvolved(a, f, c, f) && AllSameLive(a, c)
    requires n < |a| && c == a[n := c[n]] && AllSwept(c[n]) && c[n].qList == []
    ensures SweepAt(was, f, c, n + 1)
  {
    LocalsTwice(was, f, a, f, c, f);
    SameLiveTwice(was, a, c);
  }

  lemma SweptNext(was: seq<Allocator>, f: Flags, a: seq<Allocator>, n: nat, c: Allocator)
    requires SweepAt(was, f, a, n) && LocalsInv(a, f) && n < |a| && Reaches(LocalsOf(a, f)[n], LocalsOf(a, f)[n].(a := c))
    requires SameLive(a[n], c) && Valid(c) && c.sweep == [] && c.qList == []
    ensures SweepAt(was, f, a[n := c], n + 1) && LocalsInv(a[n := c], f)
  {
    OneLocal(a, f, n, c);
    NoneSwept(c);
    SweptMore(was, f, a, a[n := c], n);
  }

  ghost predicate FlushedTo(was: seq<Allocator>, allocs: seq<Allocator>, n: nat) {
    && SameAlive(was, allocs)
    && forall k :: 0 <= k < |allocs| ==>
         (k < n ==> Flushed(allocs[k]) && allocs[k].qList == []) && (NoMarks(was[k]) ==> NoMarks(allocs[k]))
  }

  lemma FlushedMore(was: seq<Allocator>, a: seq<Allocator>, c: seq<Allocator>, n: nat)
    requires FlushedTo(was, a, n) && SameAlive(a, c) && n < |a| && c == a[n := c[n]]
    requires Flushed(c[n]) && c[n].qList == [] && (NoMarks(a[n]) ==> NoMarks(c[n]))
    ensures FlushedTo(was, c, n + 1)
  {
    AliveTransitive(was, a, c);
  }

  ghost predicate AllFinalized(was: seq<Allocator>, allocs: seq<Allocator>, done: seq<bool>, n: nat,
                               finalizedValue: bool) {
    && |allocs| == |was| == |done|
    && forall k :: 0 <= k < |was| ==>
         if k < n then done[k] && Finalized(was[k], allocs[k], finalizedValue) else !done[k] && allocs[k] == was[k]
  }

  lemma FinalizedMore(was: seq<Allocator>, f: Flags, a: seq<Allocator>, g: Flags,
                      c: seq<Allocator>, h: Flags, n: nat)
    requires LocalsEvolved(was, f, a, g) && LocalsEvolved(a, g, c, h) && n < |a|
    requires AllFinalized(was, a, g.done, n, g.finalizedValue) && Finalized(a[n], c[n], g.finalizedValue)
    requires c == a[n := c[n]] && h.done == g.done[n := true] && h.finalizedValue == g.finalizedValue
    ensures LocalsEvolved(was, f, c, h) && AllFinalized(was, c, h.done, n + 1, h.finalizedValue)
  {
    LocalsTwice(was, f, a, g, c, h);
  }

  ghost predicate AllUnqueued(allocs: seq<Allocator>) {
    forall k :: 0 <= k < |allocs| ==> NoneQueued(allocs[k])
  }

  // Every allocator takes the same step.
  lemma EvolvedStep(ss: seq<State>, ts: seq<State>, st: Step, us: seq<State>)
    requires Evolved(ss, ts) && |us| == |ts| && forall k :: 0 <= k < |ts| ==> Next(ts[k], st, us[k])
    ensures Evolved(ss, us)
  {
    forall k | 0 <= k < |us| ensures Reaches(ss[k], us[k]) {
      ConnectedOn(SweepRuns.Next, ss[k], ts[k], st, us[k]);
    }
  }

  lemma FreeReaches(s: State, it: Item, c: Allocator)
    requires it.block in s.a.blocks && it.index < |s.a.blocks[it.block].bits|
    requires if Refused(s.a, it, s.marking, s.collecting) then c == s.a else FreeActs(s.a, it, c)
    ensures Reaches(s, s.(a := c))
  {
    ConnectedSelf(SweepRuns.Next, s);
    if Refused(s.a, it, s.marking, s.collecting) {
      assert s.(a := c) == s;
    } else if s.a.blocks[it.block].needsSweeping {
      ReachesAct(s, s, GiveBack(it), FreedHere(s.a, it));
      ReachesAct(s, s.(a := FreedHere(s.a, it)), SweepBlock(it.block), c);
    } else {
      ReachesAct(s, s, GiveBack(it), c);
    }
  }

  lemma GivenBack(a: Allocator, b: Allocator, c: Allocator, it: Item)
    requires Does(a, GiveBack(it), b) && Does(b, Reshape, c)
    ensures Does(a, GiveBack(it), c)
  {
    forall k | k != it ensures StatusOf(c, k) == StatusOf(a, k) {
      assert StatusOf(b, k) == StatusOf(a, k);
    }
    assert StatusOf(c, it) == StatusOf(b, it);
  }

  // Unless it was refused, the free has taken exactly this item out of use.
  ghost predicate FreedOne(a: seq<Allocator>, c: seq<Allocator>, k: nat, it: Item,
                           marking: bool, collecting: bool)
    requires |a| == |c| && k < |a| && StatusOf(a[k], it) != Vacant
  {
    && (forall j :: 0 <= j < |a| && j != k ==> SameLive(a[j], c[j]))
    && (!Refused(a[k], it, marking, collecting) ==>
          && Gone(a[k], c[k], it)
          && (!a[k].blocks[it.block].needsSweeping ==> Does(a[k], GiveBack(it), c[k])))
  }

  lemma FreedStep(a: seq<Allocator>, c: seq<Allocator>, k: nat, it: Item, marking: bool, collecting: bool)
    requires |a| == |c| && k < |a| && StatusOf(a[k], it) != Vacant && c == a[k := c[k]]
    requires !Refused(a[k], it, marking, collecting) ==> Gone(a[k], c[k], it) && FreeActs(a[k], it, c[k])
    ensures FreedOne(a, c, k, it, marking, collecting)
  {
  }

  // A float that was freed is first on the quick list, if it was not refused or swept.
  predicate OnTop(a: Allocator, c: Allocator, it: Item, marking: bool, collecting: bool)
    requires StatusOf(a, it) != Vacant
  {
    !Refused(a, it, marking, collecting) && !a.blocks[it.block].needsSweeping ==> c.qList == [it] + a.qList
  }

  // The free itself, before any quick list is flushed.
  ghost predicate FreeAt(a: seq<Allocator>, f: Flags, c: seq<Allocator>, k: nat, it: Item) {
    && |a| == |c| == NUM_VICTIMS + 1 && k < |a| && StatusOf(a[k], it) != Vacant && c == a[k := c[k]]
    && SameShape(a[k], c[k]) && c[k].qBudgetObtained == a[k].qBudgetObtained
    && (forall j :: 0 <= j < |c| ==> c[j].qBudget >= if j == k then -1 else 0)
    && LocalsInv(a, f) && LocalsEvolved(a, f, c, f) && LocalsInv(c, f)
    && FreedOne(a, c, k, it, f.marking, f.collecting) && OnTop(a[k], c[k], it, f.marking, f.collecting)
    && (Refused(a[k], it, f.marking, f.collecting) ==> c == a)
  }

  // What a free comes to.  It may fail only if the budget of its allocator cannot be raised.
  ghost predicate FreeOutcome(a: seq<Allocator>, f: Flags, c: seq<Allocator>, remaining: int, k: nat, it: Item, ok: bool) {
    && |a| == |c| == NUM_VICTIMS + 1 && k < |a| && StatusOf(a[k], it) != Vacant
    && LocalsEvolved(a, f, c, f) && FreedOne(a, c, k, it, f.marking, f.collecting)
    && (Obtainable(a) > Initial(a[k]) ==> ok)
    && (ok ==> SettledAt(c, remaining) && LocalsInv(c, f))
    && (Refused(a[k], it, f.marking, f.collecting) ==> ok && c == a)
    && (k == FLOATS ==> OnTop(a[k], c[k], it, f.marking, f.collecting))
  }

  lemma FreedLocal(a: seq<Allocator>, f: Flags, k: nat, it: Item, c: Allocator)
    requires |a| == NUM_VICTIMS + 1 && k < |a| && LocalsInv(a, f) && StatusOf(a[k], it) != Vacant
    requires SameShape(a[k], c) && c.qBudgetObtained == a[k].qBudgetObtained && c.qBudget >= -1
    requires forall j :: 0 <= j < |a| ==> a[j].qBudget >= 0
    requires if Refused(a[k], it, f.marking, f.collecting) then c == a[k] else Gone(a[k], c, it) && FreeActs(a[k], it, c)
    requires OnTop(a[k], c, it, f.marking, f.collecting)
    ensures FreeAt(a, f, a[k := c], k, it)
  {
    var s := LocalsOf(a, f)[k];
    assert Inv(s) && (f.collecting ==> a[k].qList == []);
    FreeReaches(s, it, c);
    OneLocal(a, f, k, c);
    FreedStep(a, a[k := c], k, it, f.marking, f.collecting);
  }

  lemma FreedStill(a: seq<Allocator>, f: Flags, b: seq<Allocator>, c: seq<Allocator>, remaining: int, k: nat, it: Item, ok: bool)
    requires FreeAt(a, f, b, k, it) && SameAlive(b, c) && !f.collecting && !Refused(a[k], it, f.marking, f.collecting)
    requires (Obtainable(b) > Initial(b[k]) ==> ok) && (ok ==> SettledAt(c, remaining))
    requires k == FLOATS ==> c[k].qList == b[k].qList
    ensures FreeOutcome(a, f, c, remaining, k, it, ok)
  {
    ObtainableSame(a, b, k);
    ReshapedLocals(a, f, b, f, c);
    FreedLast(a, b, c, k, it, f.marking, f.collecting);
  }

  // While collecting every free is refused.
  lemma NotCollecting(a: seq<Allocator>, f: Flags, k: nat, it: Item)
    requires LocalsInv(a, f) && k < |a| && StatusOf(a[k], it) != Vacant
    ensures f.collecting ==> Refused(a[k], it, f.marking, f.collecting)
  {
    assert Inv(LocalsOf(a, f)[k]);
  }

  lemma FreedLast(a: seq<Allocator>, b: seq<Allocator>, c: seq<Allocator>, k: nat, it: Item,
                  marking: bool, collecting: bool)
    requires |a| == |b| && k < |a| && StatusOf(a[k], it) != Vacant && FreedOne(a, b, k, it, marking, collecting)
    requires SameAlive(b, c)
    ensures FreedOne(a, c, k, it, marking, collecting)
  {
    forall j | 0 <= j < |a| ensures SameLive(b[j], c[j]) {
      SameAliveLive(b, c, j);
    }
    forall j | 0 <= j < |a| && j != k ensures SameLive(a[j], c[j]) {
      SameLiveOn(a[j], b[j], c[j]);
    }
    if !Refused(a[k], it, marking, collecting) {
      forall x ensures Live(c[k], x) <==> Live(a[k], x) && x != it {
        assert Live(b[k], x) <==> Live(a[k], x) && x != it;
      }
      if !a[k].blocks[it.block].needsSweeping {
        GivenBack(a[k], b[k], c[k], it);
      }
    }
  }

  lemma SameLiveOn(a: Allocator, b: Allocator, c: Allocator)
    requires SameLive(a, b) && SameLive(b, c)
    ensures SameLive(a, c)
  {
    forall it ensures Live(a, it) <==> Live(c, it) {
      assert Live(a, it) <==> Live(b, it);
    }
  }

  lemma SweptNone(a: Allocator)
    requires Valid(a) && AllSwept(a)
    ensures a.sweep == []
  {
    FirstIn(a.sweep);
    assert forall x :: x in a.sweep ==> Sound(a, a.qList, x);
  }

  // The marker is done with the allocator, and its quick list has been flushed.
  lemma Ready(s: State)
    requires Inv(s) && s.marking && !s.done && NoneQueued(s.a) && s.a.qList == []
    ensures ReadyToFinalize(s.a)
  {
    SweptNone(s.a);
    forall x, i: nat | x in s.a.blocks && i < |s.a.blocks[x].bits| ensures s.a.blocks[x].bits[i] != Queued {
      assert StatusOf(s.a, Item(x, i)) != Alive(Queued);
    }
  }

  lemma ReadyAt(allocs: seq<Allocator>, f: Flags, k: nat)
    requires LocalsInv(allocs, f) && k < |allocs| && f.collecting && !f.done[k] && NoneQueued(allocs[k])
    ensures ReadyToFinalize(allocs[k])
  {
    var s := LocalsOf(allocs, f)[k];
    assert Inv(s);
    Ready(s);
  }

  ghost predicate AllSameLive(a: seq<Allocator>, c: seq<Allocator>) {
    |a| == |c| && forall k :: 0 <= k < |a| ==> SameLive(a[k], c[k])
  }

  lemma AllSameLiveOf(a: seq<Allocator>, c: seq<Allocator>)
    requires SameAlive(a, c)
    ensures AllSameLive(a, c)
  {
    forall k | 0 <= k < |a| ensures SameLive(a[k], c[k]) {
      SameAliveLive(a, c, k);
    }
  }

  lemma SameLiveTwice(a: seq<Allocator>, b: seq<Allocator>, c: seq<Allocator>)
    requires AllSameLive(a, b) && AllSameLive(b, c)
    ensures AllSameLive(a, c)
  {
    forall k | 0 <= k < |a| ensures SameLive(a[k], c[k]) {
      SameLiveOn(a[k], b[k], c[k]);
    }
  }

  lemma EvolvedTwice(ss: seq<State>, ts: seq<State>, us: seq<State>)
    requires Evolved(ss, ts) && Evolved(ts, us)
    ensures Evolved(ss, us)
  {
    forall k | 0 <= k < |ss| ensures Reaches(ss[k], us[k]) {
      ConnectedTwice(SweepRuns.Next, ss[k], ts[k], us[k]);
    }
  }

  lemma NoneSwept(a: Allocator)
    requires Valid(a) && a.sweep == []
    ensures AllSwept(a)
  {
    forall x | x in a.blocks ensures !a.blocks[x].needsSweeping {
      assert Sound(a, a.qList, x);
    }
  }

  lemma NoneMarkedYet(s: State)
    requires Inv(s) && !s.marking && AllSwept(s.a)
    ensures NoneMarked(s.a)
  {
    forall it ensures !MarkedIn(s.a, it) {
      assert StatusOf(s.a, it) == Alive(Clear) || StatusOf(s.a, it) == Vacant;
    }
  }

  lemma StillNoneQueued(a: seq<Allocator>, c: seq<Allocator>)
    requires SameAlive(a, c) && AllUnqueued(a)
    ensures AllUnqueued(c)
  {
    forall k | 0 <= k < |c| ensures NoneQueued(c[k]) {
      forall it ensures StatusOf(c[k], it) != Alive(Queued) {
        assert StatusOf(a[k], it) == StatusOf(c[k], it);
      }
    }
  }

  // What is alive in c is what was marked in a.
  ghost predicate MarkedLive(a: seq<Allocator>, c: seq<Allocator>) {
    |a| == |c| && forall k, it {:trigger Live(c[k], it)} :: 0 <= k < |c| ==>
      (Live(c[k], it) <==> StatusOf(a[k], it) == Alive(Marked))
  }

  lemma MarkedSurvive(a: seq<Allocator>, b: seq<Allocator>, c: seq<Allocator>,
                      done: seq<bool>, finalizedValue: bool)
    requires SameAlive(a, b) && AllFinalized(b, c, done, |b|, finalizedValue)
    ensures MarkedLive(a, c)
  {
    forall k, it | 0 <= k < |c| ensures Live(c[k], it) <==> StatusOf(a[k], it) == Alive(Marked) {
      assert StatusOf(b[k], it) == StatusOf(a[k], it);
      assert Live(c[k], it) <==> Live(b[k], it) && MarkedIn(b[k], it);
    }
  }

  // The items from i on are in use, each once, in blocks that need no sweep.
  ghost predicate InUse(a: Allocator, items: seq<Item>, i: nat, j: nat) {
    i <= j < |items| ==>
      && StatusOf(a, items[j]).Alive? && !a.blocks[items[j].block].needsSweeping
      && forall l :: i <= l < j ==> items[l] != items[j]
  }

  ghost predicate AllInUse(a: Allocator, items: seq<Item>, i: nat) {
    forall j: nat {:trigger InUse(a, items, i, j)} :: InUse(a, items, i, j)
  }

  lemma InUseStill(a: Allocator, c: Allocator, items: seq<Item>, i: nat)
    requires AllInUse(a, items, i) && i < |items| && Does(a, GiveBack(items[i]), c)
    ensures AllInUse(c, items, i + 1)
  {
    var next := i + 1;
    forall j: nat ensures InUse(c, items, next, j) {
      assert InUse(a, items, i, j);
      if i + 1 <= j < |items| {
        assert items[i] != items[j];
        assert StatusOf(c, items[j]) == StatusOf(a, items[j]);
      }
    }
  }

  // Of the floats, in allocator f at first, i have been freed and the others are in use.
  ghost predicate FloatsLeft(f: Allocator, a: Allocator, items: seq<Item>, i: nat) {
    AllInUse(a, items, i) && |a.qList| >= i && SameShape(f, a)
  }

  lemma FloatGone(f: Allocator, a: seq<Allocator>, fl: Flags, c: seq<Allocator>, remaining: int, items: seq<Item>, i: nat, ok: bool)
    requires |a| == NUM_VICTIMS + 1 && i < |items| && FloatsLeft(f, a[FLOATS], items, i) && !fl.marking
    requires StatusOf(a[FLOATS], items[i]) != Vacant && FreeOutcome(a, fl, c, remaining, FLOATS, items[i], ok)
    ensures FloatsLeft(f, c[FLOATS], items, i + 1)
  {
    assert InUse(a[FLOATS], items, i, i);
    InUseStill(a[FLOATS], c[FLOATS], items, i);
  }

  lemma OneQuick(allocs: seq<Allocator>)
    requires |allocs| == NUM_VICTIMS + 1 && forall k :: 0 <= k < |allocs| ==> Valid(allocs[k])
    ensures |allocs[FLOATS].qList| * allocs[FLOATS].itemSize <= QuickBytes(allocs)
  {
    QuickPositive(allocs[..NUM_VICTIMS]);
  }

  lemma {:induction false} QuickPositive(allocs: seq<Allocator>)
    ensures QuickBytes(allocs) >= 0
  {
    if allocs != [] {
      QuickPositive(allocs[..|allocs| - 1]);
    }
  }

  function NewAlloc(itemsPerBlock: nat, itemSize: nat, finalized: bool): Allocator {
    Allocator(itemsPerBlock, itemSize, finalized, map[], [], [], [], [], itemsPerBlock, itemsPerBlock)
  }

  function NextVictim(v: nat): (r: nat)
    requires v < NUM_VICTIMS
    ensures r == if v + 1 < NUM_VICTIMS then v + 1 else 0
  {
    (v + 1) % NUM_VICTIMS
  }

  class Collector {
    var allocs: seq<Allocator>
    var finalized: seq<bool>           // m_finalized of each
    var remainingQuickListBudget: int
    var victimIterator: nat
    var collecting: bool
    var marking: bool
    var greedy: bool
    var finalizedValue: bool
    ghost var done: seq<bool>          // finalized in this collection

    // Every allocator obtains the budget for one block.
    constructor (shapes: seq<(nat, nat, bool)>)
      requires |shapes| == NUM_VICTIMS + 1
      requires forall k :: 0 <= k < |shapes| ==> shapes[k].0 > 0 && shapes[k].0 * shapes[k].1 <= BLOCK_SIZE
      ensures Settled() && forall k :: 0 <= k < |Locals()| ==> Start(Locals()[k])
      ensures forall k :: 0 <= k < |allocs| ==> allocs[k] == NewAlloc(shapes[k].0, shapes[k].1, shapes[k].2)
    {
      var all := seq(|shapes|, k requires 0 <= k < |shapes| => NewAlloc(shapes[k].0, shapes[k].1, shapes[k].2));
      InitialAtMost(all);
      InitialLeast(all);
      allocs, remainingQuickListBudget, victimIterator := all, TOTAL_BUDGET - TotalInitial(all), 0;
      collecting, marking, greedy, finalizedValue := false, false, false, false;
      finalized, done := seq(|shapes|, k => false), seq(|shapes|, k => false);
    }

    ghost predicate Shaped()
      reads this
    {
      |allocs| == |finalized| == |done| == NUM_VICTIMS + 1 && victimIterator < NUM_VICTIMS
    }

    ghost predicate Invariant()
      reads this
    {
      Shaped() && BudgetOk(allocs, remainingQuickListBudget)
    }

    ghost predicate Settled()
      reads this
    {
      Shaped() && SettledAt(allocs, remainingQuickListBudget)
    }

    ghost function F(): Flags
      reads this
    {
      Flags(finalized, done, marking, collecting, finalizedValue)
    }

    // The allocators as they take part in the runs of SweepRuns.
    ghost function Locals(): (r: seq<State>)
      reads this
      requires Shaped()
    {
      LocalsOf(allocs, F())
    }

    // The quick lists together never hold more than the total budget.
    lemma QuickListsBounded()
      requires Settled()
      ensures QuickBytes(allocs) <= TOTAL_BUDGET - remainingQuickListBudget < TOTAL_BUDGET
    {
      QuickAtMost(allocs);
    }

    method RelinquishQuickListBudget(n: nat)
      modifies `remainingQuickListBudget
      ensures remainingQuickListBudget == old(remainingQuickListBudget) + n
    {
      remainingQuickListBudget := remainingQuickListBudget + n;
    }

    method CoalesceOne(k: nat)
      requires Invariant() && k < |allocs|
      modifies `allocs, `remainingQuickListBudget
      ensures Invariant() && SameAlive(old(allocs), allocs) && remainingQuickListBudget >= old(remainingQuickListBudget)
      ensures allocs == old(allocs)[k := allocs[k]] && (NoMarks(old(allocs)[k]) ==> NoMarks(allocs[k]))
      ensures allocs[k].qList == [] && allocs[k].qBudgetObtained == allocs[k].qBudget == allocs[k].itemsPerBlock
      ensures old(allocs)[k].qBudgetObtained == old(allocs)[k].itemsPerBlock ==>
                remainingQuickListBudget == old(remainingQuickListBudget)
    {
      var a := allocs[k];
      var c, n := CoalesceQuickList(a);
      MoreBytes(a.itemsPerBlock, a.qBudgetObtained - a.itemsPerBlock, a.itemSize);
      Product(a.itemsPerBlock, a.qBudgetObtained, a.itemSize);
      assert Bytes(a) == Bytes(c) + n;
      TotalUpdate(allocs, k, c);
      ReshapedOthers(allocs, k, c);
      allocs := allocs[k := c];
      RelinquishQuickListBudget(n);
    }

    method FlushOne(ghost was: seq<Allocator>, ghost v0: nat, ghost n: nat)
      requires Invariant() && FlushAt(was, allocs, v0, n, victimIterator)
      modifies `allocs, `remainingQuickListBudget, `victimIterator
      ensures Invariant() && FlushAt(was, allocs, v0, n + 1, victimIterator) && Rest(was, remainingQuickListBudget, n + 1)
    {
      ghost var a, v := allocs, victimIterator;
      CoalesceOne(victimIterator);
      victimIterator := NextVictim(victimIterator);
      FlushRest(was, a, allocs, v0, n, v, remainingQuickListBudget);
    }

    // The loop of ObtainQuickListBudget, stopped after `limit` rounds at the latest.  If no
    // more than nbytes is obtainable it is still going round then, whatever the limit.
    method FlushVictims(nbytes: nat, limit: nat) returns (n: nat)
      requires Invariant()
      modifies `allocs, `remainingQuickListBudget, `victimIterator
      ensures Invariant() && SameAlive(old(allocs), allocs) && allocs[FLOATS] == old(allocs)[FLOATS]
      ensures forall k :: 0 <= k < NUM_VICTIMS ==> allocs[k] == old(allocs)[k] || Flushed(allocs[k])
      ensures n <= limit && (n < limit ==> remainingQuickListBudget > nbytes)
      ensures old(Obtainable(allocs)) <= nbytes ==> n == limit && remainingQuickListBudget <= nbytes
      ensures old(Obtainable(allocs)) > nbytes && limit >= NUM_VICTIMS ==>
                n <= NUM_VICTIMS && remainingQuickListBudget > nbytes
    {
      ghost var v0 := victimIterator;
      ghost var was := allocs;
      n := 0;
      SameAliveSelf(was);
      AllObtained(was, allocs, v0, n, remainingQuickListBudget);
      while remainingQuickListBudget <= nbytes && n < limit
        invariant n <= limit && Invariant() && FlushAt(was, allocs, v0, n, victimIterator)
        invariant Rest(was, remainingQuickListBudget, n) && (n > NUM_VICTIMS ==> Obtainable(was) <= nbytes)
        decreases limit - n
      {
        FlushOne(was, v0, n);
        n := n + 1;
      }
    }

    // Flush quick lists until there is enough.  ok is false exactly if the loop of the code
    // would go round for ever.
    method ObtainQuickListBudget(nbytes: nat) returns (ok: bool)
      requires Invariant()
      modifies `allocs, `remainingQuickListBudget, `victimIterator
      ensures Shaped() && AllValid(allocs) && SameAlive(old(allocs), allocs) && allocs[FLOATS] == old(allocs)[FLOATS]
      ensures ok <==> old(Obtainable(allocs)) > nbytes
      ensures ok ==> remainingQuickListBudget + nbytes + TotalBytes(allocs) == TOTAL_BUDGET && remainingQuickListBudget > 0
      ensures forall k :: 0 <= k < |allocs| ==> allocs[k] == old(allocs)[k] || Flushed(allocs[k])
      ensures !ok ==> Invariant() && remainingQuickListBudget <= nbytes
    {
      var n := FlushVictims(nbytes, NUM_VICTIMS);
      ok := remainingQuickListBudget > nbytes;
      if ok {
        remainingQuickListBudget := remainingQuickListBudget - nbytes;
      }
    }

    method QuickListBudgetExhausted(k: nat) returns (ok: bool)
      requires Invariant() && k < |allocs|
      requires forall j :: 0 <= j < |allocs| ==> allocs[j].qBudget >= if j == k then -1 else 0
      modifies `allocs, `remainingQuickListBudget, `victimIterator
      ensures Shaped() && SameAlive(old(allocs), allocs)
      ensures ok <==> old(Obtainable(allocs) > Initial(allocs[k]))
      ensures ok ==> Settled()
      ensures k == FLOATS ==> allocs[k].qList == old(allocs)[k].qList
    {
      ghost var was := allocs;
      ok := ObtainQuickListBudget(allocs[k].itemsPerBlock * allocs[k].itemSize);
      if ok {
        ghost var mid := allocs;
        MoreBudget(k);
        AliveTransitive(was, mid, allocs);
      }
    }

    method MoreBudget(k: nat)
      requires Shaped() && k < |allocs| && AllValid(allocs)
      requires remainingQuickListBudget + Initial(allocs[k]) + TotalBytes(allocs) == TOTAL_BUDGET && remainingQuickListBudget > 0
      requires forall j :: 0 <= j < |allocs| ==> allocs[j].qBudget >= if j == k then -1 else 0
      modifies `allocs
      ensures Settled() && SameAlive(old(allocs), allocs) && allocs[k].qList == old(allocs)[k].qList
    {
      var a := allocs[k];
      var c := a.(qBudgetObtained := a.qBudgetObtained + a.itemsPerBlock, qBudget := a.qBudget + a.itemsPerBlock);
      SameParts(a, c, a.qList);
      BitsSame(a, c);
      MoreBytes(a.qBudgetObtained, a.itemsPerBlock, a.itemSize);
      TotalUpdate(allocs, k, c);
      ReshapedOthers(allocs, k, c);
      allocs := allocs[k := c];
    }

    // ---------------------------------------------------------------- the program

    // Between operations: every allocator is where some run can have brought it.
    ghost predicate Standing()
      reads this
    {
      Settled() && LocalsInv(allocs, F())
    }

    // An item of allocator k comes into use, and no other; a caller that can fail may get
    // nothing.
    method Alloc(k: nat, canFail: bool, chunk: Option<nat>) returns (item: Option<Item>)
      requires Standing() && k < |allocs|
      requires (chunk.None? ==> canFail) && (chunk.Some? ==> chunk.value !in allocs[k].blocks)
      modifies `allocs, `remainingQuickListBudget
      ensures Standing() && LocalsEvolved(old(allocs), old(F()), allocs, F())
      ensures allocs == old(allocs)[k := allocs[k]]
      ensures item.None? ==> canFail && SameLive(old(allocs)[k], allocs[k])
      ensures item.Some? ==> !Live(old(allocs)[k], item.value)
      ensures item.Some? ==> forall it :: Live(allocs[k], it) <==> Live(old(allocs)[k], it) || it == item.value
    {
      ghost var s := Locals()[k];
      ghost var via, acts;
      var a := allocs[k];
      var c, n;
      assert Inv(s);
      c, item, n, via, acts := Sweeping.Alloc(a, Mode(collecting, greedy, finalizedValue, finalized[k]), canFail, chunk);
      ReachesActs(s, greedy, via, acts, c);
      OneLocal(allocs, F(), k, c);
      Replace(k, c, n);
    }

    // The new value of allocator k, and the budget it has given back.
    method Replace(k: nat, c: Allocator, n: nat)
      requires Invariant() && k < |allocs| && Valid(c) && SameShape(allocs[k], c)
      requires n == (allocs[k].qBudgetObtained - c.qBudgetObtained) * c.itemSize
      modifies `allocs, `remainingQuickListBudget
      ensures Invariant() && allocs == old(allocs)[k := c]
    {
      MoreBytes(c.qBudgetObtained, allocs[k].qBudgetObtained - c.qBudgetObtained, c.itemSize);
      TotalUpdate(allocs, k, c);
      allocs := allocs[k := c];
      RelinquishQuickListBudget(n);
    }

    // Item `it` of allocator k goes out of use, and no other, unless it may not be freed now.
    // ok is false when the budget for the quick list cannot be obtained.
    method Free(k: nat, it: Item) returns (ok: bool)
      requires Standing() && k < |allocs| && StatusOf(allocs[k], it) != Vacant
      modifies `allocs, `remainingQuickListBudget, `victimIterator
      ensures Shaped() && FreeOutcome(old(allocs), old(F()), allocs, remainingQuickListBudget, k, it, ok)
    {
      ghost var was := allocs;
      var exhausted := FreeItem(k, it);
      ok := BudgetForFree(exhausted, k, was, it);
    }

    method FreeItem(k: nat, it: Item) returns (exhausted: bool)
      requires Standing() && k < |allocs| && StatusOf(allocs[k], it) != Vacant
      modifies `allocs
      ensures FreeAt(old(allocs), old(F()), allocs, k, it) && Invariant()
      ensures if exhausted then !Refused(old(allocs)[k], it, marking, collecting) else Settled()
    {
      ghost var was := allocs;
      var c;
      c, exhausted := Sweeping.Free(allocs[k], it, marking, collecting);
      allocs := allocs[k := c];
      FreedLocal(was, F(), k, it, c);
      SettledUpdate(was, remainingQuickListBudget, k, c);
    }

    // The flush that a free may call for changes nothing the free has done.
    method BudgetForFree(exhausted: bool, k: nat, ghost was: seq<Allocator>, ghost it: Item) returns (ok: bool)
      requires Invariant() && FreeAt(was, F(), allocs, k, it)
      requires if exhausted then !Refused(was[k], it, marking, collecting) else Settled()
      modifies `allocs, `remainingQuickListBudget, `victimIterator
      ensures Shaped() && FreeOutcome(was, old(F()), allocs, remainingQuickListBudget, k, it, ok)
    {
      ok := true;
      if exhausted {
        ghost var mid := allocs;
        NotCollecting(was, F(), k, it);
        ok := QuickListBudgetExhausted(k);
        FreedStill(was, F(), mid, allocs, remainingQuickListBudget, k, it, ok);
      }
    }

    // Freeing floats one after the other only adds to the float allocator's quick list, so
    // this many of them get stuck in the loop of ObtainQuickListBudget.
    method FreeFloats(items: seq<Item>) returns (ok: bool)
      requires Standing() && !marking && AllInUse(allocs[FLOATS], items, 0)
      modifies `allocs, `remainingQuickListBudget, `victimIterator
      ensures ok ==> Standing() && |items| * old(allocs)[FLOATS].itemSize < TOTAL_BUDGET
    {
      ghost var f := allocs[FLOATS];
      ok := true;
      var i := 0;
      while i < |items|
        invariant i <= |items| && Standing() && FloatsLeft(f, allocs[FLOATS], items, i)
      {
        ok := FreeFloat(items, i, f);
        if !ok {
          return;
        }
        i := i + 1;
      }
      QuickListsBounded();
      OneQuick(allocs);
      Product(i, |allocs[FLOATS].qList|, f.itemSize);
    }

    method FreeFloat(items: seq<Item>, i: nat, ghost f: Allocator) returns (ok: bool)
      requires Standing() && !marking && i < |items| && FloatsLeft(f, allocs[FLOATS], items, i)
      modifies `allocs, `remainingQuickListBudget, `victimIterator
      ensures ok ==> Standing() && FloatsLeft(f, allocs[FLOATS], items, i + 1)
    {
      ghost var was := allocs;
      assert InUse(was[FLOATS], items, i, i);
      ok := Free(FLOATS, items[i]);
      FloatGone(f, was, F(), allocs, remainingQuickListBudget, items, i, ok);
    }

    // ---------------------------------------------------------------- a collection

    method EstablishSweepInvariants()
      requires Settled()
      modifies `allocs, `remainingQuickListBudget
      ensures Settled() && SameAlive(old(allocs), allocs)
      ensures forall k :: 0 <= k < |allocs| ==> Flushed(allocs[k]) && allocs[k].qList == []
      ensures forall k :: 0 <= k < |allocs| && NoMarks(old(allocs)[k]) ==> NoMarks(allocs[k])
    {
      ghost var was := allocs;
      SameAliveSelf(was);
      var k := 0;
      while k < |allocs|
        invariant k <= |allocs| == |was| && Settled() && FlushedTo(was, allocs, k)
      {
        ghost var a := allocs;
        CoalesceOne(k);
        FlushedMore(was, a, allocs, k);
        k := k + 1;
      }
    }

    // Before the next marking: what is alive stays alive, and nothing awaits its sweep.
    method SweepNeedsSweeping()
      requires Standing() && !collecting
      modifies `allocs, `remainingQuickListBudget
      ensures Standing() && LocalsEvolved(old(allocs), old(F()), allocs, F()) && AllSameLive(old(allocs), allocs)
      ensures forall k :: 0 <= k < |allocs| ==> AllSwept(allocs[k]) && allocs[k].qList == []
    {
      ghost var was := allocs;
      EstablishSweepInvariants();
      LocalsSelf(was, F());
      ReshapedLocals(was, F(), was, F(), allocs);
      AllSameLiveOf(was, allocs);
      ghost var mid := allocs;
      SweepAll();
      LocalsTwice(was, F(), mid, F(), allocs, F());
      SameLiveTwice(was, mid, allocs);
    }

    method SweepAll()
      requires Standing() && !collecting && SweptTo(allocs, 0)
      modifies `allocs
      ensures Standing() && SweepAt(old(allocs), F(), allocs, |allocs|)
    {
      ghost var was := allocs;
      LocalsSelf(was, F());
      var k := 0;
      while k < |allocs|
        invariant k <= |allocs| && Standing() && SweepAt(was, F(), allocs, k)
      {
        SweepOne(k, was);
        k := k + 1;
      }
    }

    method SweepOne(k: nat, ghost was: seq<Allocator>)
      requires Standing() && !collecting && k < |allocs| && SweepAt(was, F(), allocs, k)
      modifies `allocs
      ensures Standing() && allocs == old(allocs)[k := allocs[k]] && SweepAt(was, F(), allocs, k + 1)
    {
      ghost var s := Locals()[k];
      ghost var via, acts;
      var c;
      c, via, acts := Sweeping.SweepNeedsSweeping(allocs[k], ModeOf(s, greedy));
      ReachesActs(s, greedy, via, acts, c);
      SettledUpdate(allocs, remainingQuickListBudget, k, c);
      SweptNext(was, F(), allocs, k, c);
      allocs := allocs[k := c];
    }

    // The first thing StartIncrementalMark does is to sweep what is left.  Then no item is
    // marked.
    method StartMarking()
      requires Standing() && !marking && !collecting
      modifies `allocs, `remainingQuickListBudget, `marking
      ensures Standing() && marking && LocalsEvolved(old(allocs), old(F()), allocs, F()) && AllSameLive(old(allocs), allocs)
      ensures forall k :: 0 <= k < |allocs| ==> AllSwept(allocs[k]) && NoneMarked(allocs[k])
    {
      ghost var was, f := allocs, F();
      SweepNeedsSweeping();
      forall k | 0 <= k < |allocs| ensures NoneMarked(allocs[k]) {
        NoneMarkedYet(Locals()[k]);
      }
      marking := true;
      FlagStep(allocs, f, Step.StartMarking, F());
      LocalsTwice(was, f, allocs, f, allocs, F());
    }

    // The marker gives an item that is in use another mark.
    method MarkItem(k: nat, it: Item, mark: Bits)
      requires Standing() && marking && k < |allocs| && !done[k] && Live(allocs[k], it)
      requires mark == Marked || mark == Queued
      modifies `allocs
      ensures Standing() && LocalsEvolved(old(allocs), F(), allocs, F())
      ensures allocs == old(allocs)[k := allocs[k]] && Does(old(allocs)[k], SetMark(it, mark), allocs[k])
    {
      ghost var s := Locals()[k];
      assert Inv(s) && Sound(allocs[k], allocs[k].qList, it.block);
      var c := Sweeping.Mark(allocs[k], it, mark);
      ConnectedSelf(SweepRuns.Next, s);
      ReachesAct(s, s, SetMark(it, mark), c);
      OneLocal(allocs, F(), k, c);
      SettledUpdate(allocs, remainingQuickListBudget, k, c);
      allocs := allocs[k := c];
    }

    // Sweep up to the callbacks: from now on the program only gets items that survive.
    method BeginSweep()
      requires Standing() && marking && !collecting
      modifies `allocs, `remainingQuickListBudget, `collecting
      ensures Standing() && collecting && LocalsEvolved(old(allocs), old(F()), allocs, F()) && SameAlive(old(allocs), allocs)
      ensures forall k :: 0 <= k < |done| ==> !done[k]
    {
      ghost var was, f := allocs, F();
      EstablishSweepInvariants();
      LocalsSelf(was, f);
      ReshapedLocals(was, f, was, f, allocs);
      collecting := true;
      FlagStep(allocs, f, StartCollecting, F());
      LocalsTwice(was, f, allocs, f, allocs, F());
      assert forall k :: 0 <= k < |done| ==> Inv(LocalsOf(allocs, f)[k]);
    }

    // Finalizers may allocate between the finalization of one allocator and the next.
    method FinalizeOne(k: nat)
      requires Standing() && collecting && k < |allocs| && !done[k] && NoneQueued(allocs[k])
      modifies `allocs, `finalized, `done
      ensures Standing() && LocalsEvolved(old(allocs), old(F()), allocs, F())
      ensures allocs == old(allocs)[k := allocs[k]] && Finalized(old(allocs)[k], allocs[k], finalizedValue)
      ensures finalized == old(finalized)[k := true] && done == old(done)[k := true]
    {
      ghost var f, was := F(), allocs;
      ReadyAt(was, f, k);
      var c, empties := Sweeping.Finalize(allocs[k], finalizedValue);
      allocs, finalized, done := allocs[k := c], finalized[k := true], done[k := true];
      FinalizedLocal(was, f, remainingQuickListBudget, k, c, F());
    }

    // At the end of marking: in every allocator exactly the marked items stay alive.
    method Finalize()
      requires Standing() && collecting
      requires AllUnqueued(allocs) && forall k :: 0 <= k < |allocs| ==> !done[k]
      modifies `allocs, `finalized, `done
      ensures Standing() && LocalsEvolved(old(allocs), old(F()), allocs, F()) && |allocs| == |old(allocs)|
      ensures AllFinalized(old(allocs), allocs, done, |allocs|, finalizedValue)
    {
      ghost var was, f := allocs, F();
      LocalsSelf(was, f);
      var k := 0;
      while k < |allocs|
        invariant k <= |allocs| == |was| && Standing() && LocalsEvolved(was, f, allocs, F())
        invariant AllFinalized(was, allocs, done, k, finalizedValue)
      {
        ghost var mid, g := allocs, F();
        FinalizeOne(k);
        FinalizedMore(was, f, mid, g, allocs, F(), k);
        k := k + 1;
      }
    }

    // The end of GC::Finalize and of Sweep.  m_finalized of the float allocator is not reset.
    method EndSweep()
      requires Standing() && forall k :: 0 <= k < |done| ==> done[k]
      modifies `finalized, `done, `finalizedValue, `collecting, `marking
      ensures Standing() && !collecting && !marking && finalizedValue == !old(finalizedValue)
      ensures finalized[FLOATS] == old(finalized)[FLOATS] && forall k :: 0 <= k < NUM_VICTIMS ==> !finalized[k]
      ensures LocalsEvolved(allocs, old(F()), allocs, F())
    {
      ghost var f := F();
      finalizedValue := !finalizedValue;
      var was := finalized;
      finalized := seq(|was|, k requires 0 <= k < |was| => k == FLOATS && was[k]);
      collecting, marking := false, false;
      done := seq(|done|, k => false);
      CycleEnds(allocs, f, F());
    }

    // Sweep, when no callback or finalizer allocates: exactly the marked items survive.
    method Sweep()
      requires Standing() && marking && !collecting
      requires AllUnqueued(allocs)
      modifies `allocs, `remainingQuickListBudget, `finalized, `done, `finalizedValue, `collecting, `marking
      ensures Standing() && !collecting && !marking && LocalsEvolved(old(allocs), old(F()), allocs, F())
      ensures MarkedLive(old(allocs), allocs)
    {
      ghost var was, f := allocs, F();
      BeginSweep();
      ghost var mid, g := allocs, F();
      StillNoneQueued(was, mid);
      Finalize();
      ghost var h, fv := F(), finalizedValue;
      LocalsTwice(was, f, mid, g, allocs, h);
      MarkedSurvive(was, mid, allocs, done, fv);
      EndSweep();
      LocalsTwice(was, f, allocs, h, allocs, F());
    }
  }
}
