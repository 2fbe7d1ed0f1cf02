/**
 FixedAllocSafe: threads that allocate and free under a spin lock which is dropped while a
 block is obtained from the heap or given back (MMgc/FixedAlloc-inlines.h:120-279,
 MMgc/FixedAlloc.cpp:181-286).

 A step is one assignment to what the lock protects, a call into the heap, or an
 acquisition or release of the lock; threads interleave between any two steps.
 */
module FixedAllocSafe {
  import opened Options
  import opened FixedBlocks

  type Tid = nat

  datatype Pc =
    | Idle
    // Alloc
    | AllocEntered(canFail: bool)                          // holds the lock
    | AwaitChunk(canFail: bool)                            // CreateChunk has dropped it
    | GotChunk(chunk: Option<nat>, canFail: bool)
    | LinkChunk(x: nat, canFail: bool)                     // and has it again
    | ListChunk(x: nat, canFail: bool)
    | ChunkDone(canFail: bool)
    | Bumped(x: nat)
    | ItemTaken(x: nat, item: Item)
    | AllocDone(result: Option<Item>)
    // Free
    | FreeEntered(item: Item)                              // holds the lock
    | Pushed(x: nat)
    | Relisted(x: nat)
    | Lowered(x: nat)
    | Unlinked(x: nat)
    | AwaitFree(x: nat)                                    // FreeChunk has dropped it
    | ChunkFreed
    | FreeDone                                             // and has it again

  // used are the items the program has; any thread may free any of them.
  datatype State = State(p: Pool, lock: Option<Tid>, pc: map<Tid, Pc>, used: set<Item>)

  predicate Holds(pc: Pc) {
    !pc.Idle? && !pc.AwaitChunk? && !pc.GotChunk? && !pc.AwaitFree? && !pc.ChunkFreed?
  }

  // A block this thread alone knows: not linked yet, or unlinked already.
  function Private(pc: Pc): Option<nat> {
    match pc
    case GotChunk(chunk, _) => chunk
    case LinkChunk(x, _) => Some(x)
    case Unlinked(x) => Some(x)
    case AwaitFree(x) => Some(x)
    case _ => None
  }

  // ------------------------------------------------------------------ the steps

  function At(s: State, t: Tid, pc: Pc): State {
    s.(pc := s.pc[t := pc])
  }

  function Acquired(s: State, t: Tid, pc: Pc): State {
    At(s, t, pc).(lock := Some(t))
  }

  function Released(s: State, t: Tid, pc: Pc): State {
    At(s, t, pc).(lock := None)
  }

  // A block the heap may hand out.
  ghost predicate Unknown(s: State, x: nat) {
    x !in s.p.blocks && forall u :: u in s.pc ==> Private(s.pc[u]) != Some(x)
  }

  ghost predicate Step(s: State, s': State, t: Tid, n: nat)
    requires t in s.pc
  {
    match s.pc[t]
    case Idle =>
      s.lock.None? &&
      ((exists canFail :: s' == Acquired(s, t, AllocEntered(canFail))) ||
       (exists item :: item in s.used && s' == Acquired(s, t, FreeEntered(item))))
    case AllocEntered(canFail) =>
      if s.p.free == [] then s' == Released(s, t, AwaitChunk(canFail)) else BumpFirst(s, s', t)
    case AwaitChunk(canFail) =>
      (canFail && s' == At(s, t, GotChunk(None, canFail))) ||
      (exists x :: Unknown(s, x) && s' == At(s, t, GotChunk(Some(x), canFail)))
    case GotChunk(chunk, canFail) =>
      s.lock.None? &&
      s' == Acquired(s, t, if chunk.None? then ChunkDone(canFail) else LinkChunk(chunk.value, canFail))
    case LinkChunk(x, canFail) =>
      s' == At(s, t, ListChunk(x, canFail)).(p := Linked(s.p, x))
    case ListChunk(x, canFail) =>
      s' == At(s, t, ChunkDone(canFail)).(p := Listed(s.p, x))
    case ChunkDone(canFail) =>
      if s.p.free == [] then s' == At(s, t, AllocDone(None)) else BumpFirst(s, s', t)
    case Bumped(x) =>
      x in s.p.blocks &&
      var item := Item(x, Taken(s.p.blocks[x], n).1);
      s' == At(s, t, ItemTaken(x, item)).(p := Take(s.p, x, n), used := s.used + {item})
    case ItemTaken(x, item) =>
      x in s.p.blocks && s' == At(s, t, AllocDone(Some(item))).(p := Unlist(s.p, x, n))
    case AllocDone(_) =>
      s' == Released(s, t, Idle)
    case FreeEntered(item) =>
      item.block in s.p.blocks && s' == At(s, t, Pushed(item.block)).(p := Push(s.p, item), used := s.used - {item})
    case Pushed(x) =>
      x in s.p.blocks && s' == At(s, t, Relisted(x)).(p := Relist(s.p, x, n))
    case Relisted(x) =>
      x in s.p.blocks && s' == At(s, t, Lowered(x)).(p := Lower(s.p, x))
    case Lowered(x) =>
      x in s.p.blocks &&
      s' == At(s, t, if s.p.blocks[x].numAlloc == 0 then Unlinked(x) else FreeDone).(p := UnlinkIfEmpty(s.p, x))
    case Unlinked(x) =>
      s' == Released(s, t, AwaitFree(x))
    case AwaitFree(x) =>
      s' == At(s, t, ChunkFreed)
    case ChunkFreed =>
      s.lock.None? && s' == Acquired(s, t, FreeDone)
    case FreeDone =>
      s' == Released(s, t, Idle)
  }

  ghost predicate BumpFirst(s: State, s': State, t: Tid) {
    s.p.free != [] && s.p.free[0] in s.p.blocks &&
    s' == At(s, t, Bumped(s.p.free[0])).(p := Bump(s.p, s.p.free[0]))
  }

  ghost predicate Init(s: State) {
    s.p == Pool(map[], [], []) && s.lock.None? && s.used == {} && forall t :: t in s.pc ==> s.pc[t].Idle?
  }

  ghost predicate IsRun(run: seq<State>, n: nat) {
    && run != [] && Init(run[0])
    && forall i {:trigger StepAt(run, i, n)} :: 0 <= i < |run| - 1 ==> StepAt(run, i, n)
  }

  ghost predicate Next(s: State, s': State, n: nat) {
    exists t :: t in s.pc && Step(s, s', t, n)
  }

  ghost predicate StepAt(run: seq<State>, i: nat, n: nat)
    requires i + 1 < |run|
  {
    Next(run[i], run[i + 1], n)
  }

  // ------------------------------------------------------------------ the invariant

  // The item the thread is about to take.
  function Coming(p: Pool, pc: Pc, n: nat): Option<Item> {
    match pc
    case AllocEntered(_) => if p.free != [] && p.free[0] in p.blocks then Some(AllocItem(p, p.free[0], n)) else None
    case LinkChunk(x, _) => Some(Item(x, 0))
    case ListChunk(x, _) => Some(Item(x, 0))
    case ChunkDone(_) => if p.free != [] && p.free[0] in p.blocks then Some(AllocItem(p, p.free[0], n)) else None
    case Bumped(x) => if x in p.blocks then Some(Item(x, Taken(p.blocks[x], n).1)) else None
    case _ => None
  }

  // What the holder of the lock has read is still so.
  ghost predicate PcOk(s: State, t: Tid, n: nat)
    requires t in s.pc
  {
    && (Coming(s.p, s.pc[t], n).Some? ==> Coming(s.p, s.pc[t], n).value !in s.used)
    && match s.pc[t]
       case AllocEntered(_) => s.p.free != [] ==> s.p.free[0] in s.p.blocks
       case GotChunk(chunk, canFail) => chunk.None? ==> canFail
       case LinkChunk(x, _) => x !in s.p.blocks
       case ListChunk(x, _) => x in s.p.blocks && s.p.blocks[x] == FRESH
       case ChunkDone(canFail) => if s.p.free == [] then canFail else s.p.free[0] in s.p.blocks
       case Bumped(x) => x in s.p.blocks && s.p.free != [] && s.p.free[0] == x
       case ItemTaken(x, _) => x in s.p.blocks && s.p.free != [] && s.p.free[0] == x
       case FreeEntered(item) => item in s.used && item.block in s.p.blocks
       case Pushed(x) => x in s.p.blocks
       case Relisted(x) => x in s.p.blocks
       case Lowered(x) => x in s.p.blocks
       case _ => true
  }

  // The blocks and lists as they will be when the holder is done or drops the lock.
  ghost function Finish(p: Pool, pc: Pc, n: nat): Pool {
    match pc
    case AllocEntered(_) => if p.free != [] && p.free[0] in p.blocks then AllocFrom(p, p.free[0], n) else p
    case LinkChunk(x, _) => AllocFrom(Listed(Linked(p, x), x), x, n)
    case ListChunk(x, _) => if x in p.blocks then AllocFrom(Listed(p, x), x, n) else p
    case ChunkDone(_) => if p.free != [] && p.free[0] in p.blocks then AllocFrom(p, p.free[0], n) else p
    case Bumped(x) => if x in p.blocks then Unlist(Take(p, x, n), x, n) else p
    case ItemTaken(x, _) => if x in p.blocks then Unlist(p, x, n) else p
    case FreeEntered(item) => if item.block in p.blocks then FreeFrom(p, item, n) else p
    case Pushed(x) => if x in p.blocks then UnlinkIfEmpty(Lower(Relist(p, x, n), x), x) else p
    case Relisted(x) => if x in p.blocks then UnlinkIfEmpty(Lower(p, x), x) else p
    case Lowered(x) => if x in p.blocks then UnlinkIfEmpty(p, x) else p
    case _ => p
  }

  ghost function FinishUsed(p: Pool, pc: Pc, used: set<Item>, n: nat): set<Item> {
    if Coming(p, pc, n).Some? then used + {Coming(p, pc, n).value}
    else if pc.FreeEntered? then used - {pc.item}
    else used
  }

  ghost predicate Good(p: Pool, used: set<Item>, n: nat) {
    Ok(p, used, n) && NoneEmpty(p)
  }

  ghost predicate GoodWith(s: State, pc: Pc, n: nat) {
    Good(Finish(s.p, pc, n), FinishUsed(s.p, pc, s.used, n), n)
  }

  ghost predicate LockOk(s: State) {
    && (forall t :: t in s.pc ==> (Holds(s.pc[t]) <==> s.lock == Some(t)))
    && (s.lock.Some? ==> s.lock.value in s.pc)
  }

  // Blocks known to one thread only.
  ghost predicate PrivateOk(s: State) {
    && (forall t :: t in s.pc && Private(s.pc[t]).Some? ==> Private(s.pc[t]).value !in s.p.blocks)
    && (forall t, u :: t in s.pc && u in s.pc && t != u && Private(s.pc[t]).Some? ==> Private(s.pc[t]) != Private(s.pc[u]))
  }

  ghost predicate Inv(s: State, n: nat) {
    && LockOk(s) && PrivateOk(s)
    && (forall t {:trigger PcOk(s, t, n)} :: t in s.pc ==> PcOk(s, t, n))
    && GoodWith(s, if s.lock.Some? && s.lock.value in s.pc then s.pc[s.lock.value] else Idle, n)
  }

  // ------------------------------------------------------------------ every step keeps it

  predicate Freeing(pc: Pc) {
    pc.FreeEntered? || pc.Pushed? || pc.Relisted? || pc.Lowered? || pc.Unlinked? || pc.FreeDone?
  }

  ghost predicate Outcome(s: State, s': State, t: Tid, n: nat)
    requires t in s.pc && t in s'.pc
  {
    && Finish(s'.p, s'.pc[t], n) == Finish(s.p, s.pc[t], n)
    && FinishUsed(s'.p, s'.pc[t], s'.used, n) == FinishUsed(s.p, s.pc[t], s.used, n)
  }

  lemma SameOutcomeFree(s: State, s': State, t: Tid, n: nat)
    requires t in s.pc && Step(s, s', t, n) && PcOk(s, t, n) && n > 0 && (s.pc[t].FreeEntered? || s.pc[t].Pushed?)
    ensures t in s'.pc && Outcome(s, s', t, n)
  {
  }

  lemma SameOutcomeUnlink(s: State, s': State, t: Tid, n: nat)
    requires t in s.pc && Step(s, s', t, n) && PcOk(s, t, n) && n > 0
    requires Freeing(s.pc[t]) && !s.pc[t].FreeEntered? && !s.pc[t].Pushed?
    ensures t in s'.pc && Outcome(s, s', t, n)
  {
  }

  lemma SameOutcomeBump(s: State, s': State, t: Tid, n: nat)
    requires t in s.pc && Step(s, s', t, n) && PcOk(s, t, n) && n > 0 && (s.pc[t].AllocEntered? || s.pc[t].ChunkDone?)
    ensures t in s'.pc && Outcome(s, s', t, n)
  {
  }

  lemma SameOutcomeChunk(s: State, s': State, t: Tid, n: nat)
    requires t in s.pc && Step(s, s', t, n) && PcOk(s, t, n) && n > 0 && (s.pc[t].LinkChunk? || s.pc[t].ListChunk?)
    ensures t in s'.pc && Outcome(s, s', t, n)
  {
  }

  lemma SameOutcomeTake(s: State, s': State, t: Tid, n: nat)
    requires t in s.pc && Step(s, s', t, n) && PcOk(s, t, n) && n > 0
    requires s.pc[t].Bumped? || s.pc[t].ItemTaken? || s.pc[t].AllocDone?
    ensures t in s'.pc && Outcome(s, s', t, n)
  {
  }

  // Within a critical section the outcome does not change.
  lemma SameOutcome(s: State, s': State, t: Tid, n: nat)
    requires t in s.pc && Step(s, s', t, n) && PcOk(s, t, n) && Holds(s.pc[t]) && n > 0
    ensures t in s'.pc && Outcome(s, s', t, n)
  {
    var pc := s.pc[t];
    if pc.FreeEntered? || pc.Pushed? {
      SameOutcomeFree(s, s', t, n);
    } else if Freeing(pc) {
      SameOutcomeUnlink(s, s', t, n);
    } else if pc.AllocEntered? || pc.ChunkDone? {
      SameOutcomeBump(s, s', t, n);
    } else if pc.LinkChunk? || pc.ListChunk? {
      SameOutcomeChunk(s, s', t, n);
    } else {
      SameOutcomeTake(s, s', t, n);
    }
  }

  // What t knows after its step, when it had the lock.
  lemma HolderPcOk(s: State, s': State, t: Tid, n: nat)
    requires t in s.pc && Step(s, s', t, n) && PcOk(s, t, n) && Holds(s.pc[t]) && n > 0
    ensures t in s'.pc && PcOk(s', t, n)
  {
  }

  // The others do not look at what the lock protects.
  lemma OtherPcOk(s: State, s': State, u: Tid, n: nat)
    requires u in s.pc && u in s'.pc && s'.pc[u] == s.pc[u] && !Holds(s.pc[u]) && PcOk(s, u, n)
    ensures PcOk(s', u, n)
  {
  }

  // The blocks the holder of the lock adds or keeps to itself.
  lemma HolderBlocks(s: State, s': State, t: Tid, n: nat)
    requires t in s.pc && Step(s, s', t, n) && PcOk(s, t, n) && Holds(s.pc[t])
    ensures s'.pc == s.pc[t := s'.pc[t]]
    ensures forall x :: x in s'.p.blocks ==> x in s.p.blocks || Private(s.pc[t]) == Some(x)
    ensures Private(s'.pc[t]).Some? ==>
              var x := Private(s'.pc[t]).value;
              s.pc[t].Unlinked? || (x !in s'.p.blocks && (x in s.p.blocks || Private(s.pc[t]) == Some(x)))
    ensures s.pc[t].Unlinked? ==> s'.p == s.p && Private(s'.pc[t]) == Private(s.pc[t])
  {
  }

  lemma HolderPrivate(s: State, s': State, t: Tid, n: nat)
    requires t in s.pc && Step(s, s', t, n) && PcOk(s, t, n) && Holds(s.pc[t]) && PrivateOk(s)
    ensures PrivateOk(s')
  {
    HolderBlocks(s, s', t, n);
    forall u | u in s.pc && u != t && Private(s.pc[u]).Some?
      ensures Private(s.pc[u]).value !in s'.p.blocks && Private(s'.pc[t]) != Private(s.pc[u])
    {
      assert Private(s.pc[u]) != Private(s.pc[t]);
    }
  }

  lemma HolderLock(s: State, s': State, t: Tid, n: nat)
    requires LockOk(s) && t in s.pc && Step(s, s', t, n) && Holds(s.pc[t])
    ensures LockOk(s') && s.lock == Some(t) && (s'.lock == if Holds(s'.pc[t]) then Some(t) else None)
    ensures s'.pc == s.pc[t := s'.pc[t]]
  {
  }

  lemma NotHolding(p: Pool, pc: Pc, used: set<Item>, n: nat)
    requires !Holds(pc)
    ensures Finish(p, pc, n) == p && FinishUsed(p, pc, used, n) == used
  {
  }

  lemma HolderKeeps(s: State, s': State, t: Tid, n: nat)
    requires Inv(s, n) && t in s.pc && Step(s, s', t, n) && Holds(s.pc[t])
    ensures Inv(s', n)
  {
    assert PcOk(s, t, n);
    HolderLock(s, s', t, n);
    SameOutcome(s, s', t, n);
    HolderPcOk(s, s', t, n);
    HolderPrivate(s, s', t, n);
    forall u | u in s'.pc ensures PcOk(s', u, n) {
      if u != t {
        assert PcOk(s, u, n);
        OtherPcOk(s, s', u, n);
      }
    }
    var used := s'.used;
    assert Good(Finish(s'.p, s'.pc[t], n), FinishUsed(s'.p, s'.pc[t], used, n), n);
    if !Holds(s'.pc[t]) {
      NotHolding(s'.p, s'.pc[t], used, n);
      NotHolding(s'.p, Idle, used, n);
    }
  }

  // Taking the lock to allocate: whatever item is taken is not in use.
  lemma EnterAlloc(p: Pool, used: set<Item>, n: nat, pc: Pc)
    requires Good(p, used, n) && (pc.AllocEntered? || pc.ChunkDone?)
    ensures Good(Finish(p, pc, n), FinishUsed(p, pc, used, n), n)
    ensures Coming(p, pc, n).Some? ==> Coming(p, pc, n).value !in used
    ensures p.free != [] ==> p.free[0] in p.blocks
  {
    if p.free != [] {
      AllocKeeps(p, used, n);
      AllocNoneEmpty(p, n);
    }
  }

  // Taking it again with a block from the heap, whatever has happened meanwhile.
  lemma EnterLink(p: Pool, used: set<Item>, n: nat, pc: Pc)
    requires Good(p, used, n) && pc.LinkChunk? && pc.x !in p.blocks
    ensures Good(Finish(p, pc, n), FinishUsed(p, pc, used, n), n)
    ensures Coming(p, pc, n).value !in used
  {
    ChunkKeeps(p, used, n, pc.x);
    var r := Listed(Linked(p, pc.x), pc.x);
    AllocKeeps(r, used, n);
    AllocNoneEmpty(r, n);
    assert AllocItem(r, pc.x, n) == Item(pc.x, 0);
  }

  lemma EnterFree(p: Pool, used: set<Item>, n: nat, pc: Pc)
    requires Good(p, used, n) && pc.FreeEntered? && pc.item in used
    ensures Good(Finish(p, pc, n), FinishUsed(p, pc, used, n), n) && pc.item.block in p.blocks
  {
    FreeKeeps(p, used, n, pc.item);
  }

  lemma AcquireKeeps(s: State, s': State, t: Tid, pc: Pc, n: nat)
    requires Inv(s, n) && t in s.pc && s.lock.None? && s' == Acquired(s, t, pc) && Holds(pc)
    requires Private(pc) == None || Private(pc) == Private(s.pc[t])
    requires PcOk(s', t, n) && Good(Finish(s.p, pc, n), FinishUsed(s.p, pc, s.used, n), n)
    ensures Inv(s', n)
  {
    forall u | u in s'.pc ensures PcOk(s', u, n) {
      if u != t {
        assert PcOk(s, u, n);
        OtherPcOk(s, s', u, n);
      }
    }
    forall u, v | u in s'.pc && v in s'.pc && u != v && Private(s'.pc[u]).Some?
      ensures Private(s'.pc[u]) != Private(s'.pc[v])
    {
      assert Private(s.pc[u]).Some?;
    }
  }

  lemma IdleKeeps(s: State, s': State, t: Tid, n: nat)
    requires Inv(s, n) && t in s.pc && Step(s, s', t, n) && s.pc[t].Idle?
    ensures Inv(s', n)
  {
    assert GoodWith(s, Idle, n);
    var pc := s'.pc[t];
    if pc.AllocEntered? {
      EnterAlloc(s.p, s.used, n, pc);
    } else {
      EnterFree(s.p, s.used, n, pc);
    }
    AcquireKeeps(s, s', t, pc, n);
  }

  lemma GotChunkKeeps(s: State, s': State, t: Tid, n: nat)
    requires Inv(s, n) && t in s.pc && Step(s, s', t, n) && s.pc[t].GotChunk?
    ensures Inv(s', n)
  {
    assert GoodWith(s, Idle, n) && PcOk(s, t, n);
    var pc := s'.pc[t];
    if pc.ChunkDone? {
      EnterAlloc(s.p, s.used, n, pc);
    } else {
      EnterLink(s.p, s.used, n, pc);
    }
    AcquireKeeps(s, s', t, pc, n);
  }

  // Calls into the heap touch nothing the lock protects.
  lemma HeapPcOk(s: State, s': State, t: Tid, n: nat)
    requires t in s.pc && Step(s, s', t, n) && (s.pc[t].AwaitChunk? || s.pc[t].AwaitFree?)
    ensures s' == At(s, t, s'.pc[t]) && !Holds(s'.pc[t]) && PcOk(s', t, n)
    ensures Private(s'.pc[t]).Some? ==> Unknown(s, Private(s'.pc[t]).value)
  {
  }

  lemma HeapPrivate(s: State, s': State, t: Tid, pc: Pc)
    requires PrivateOk(s) && t in s.pc && s' == At(s, t, pc) && (Private(pc).Some? ==> Unknown(s, Private(pc).value))
    ensures PrivateOk(s')
  {
    forall u, v | u in s'.pc && v in s'.pc && u != v && Private(s'.pc[u]).Some?
      ensures Private(s'.pc[u]) != Private(s'.pc[v])
    {
      assert u != t ==> s'.pc[u] == s.pc[u];
      assert v != t ==> s'.pc[v] == s.pc[v];
    }
  }

  lemma HeapLock(s: State, s': State, t: Tid, pc: Pc, n: nat)
    requires Inv(s, n) && t in s.pc && s' == At(s, t, pc) && !Holds(pc) && !Holds(s.pc[t])
    ensures LockOk(s') && GoodWith(s', if s'.lock.Some? && s'.lock.value in s'.pc then s'.pc[s'.lock.value] else Idle, n)
  {
  }

  lemma HeapKeeps(s: State, s': State, t: Tid, n: nat)
    requires Inv(s, n) && t in s.pc && Step(s, s', t, n) && (s.pc[t].AwaitChunk? || s.pc[t].AwaitFree?)
    ensures Inv(s', n)
  {
    HeapPcOk(s, s', t, n);
    HeapPrivate(s, s', t, s'.pc[t]);
    HeapLock(s, s', t, s'.pc[t], n);
    forall u | u in s'.pc ensures PcOk(s', u, n) {
      assert PcOk(s, u, n);
    }
  }

  lemma StepKeeps(s: State, s': State, t: Tid, n: nat)
    requires Inv(s, n) && t in s.pc && Step(s, s', t, n)
    ensures Inv(s', n)
  {
    if Holds(s.pc[t]) {
      HolderKeeps(s, s', t, n);
    } else if s.pc[t].Idle? {
      IdleKeeps(s, s', t, n);
    } else if s.pc[t].GotChunk? {
      GotChunkKeeps(s, s', t, n);
    } else if s.pc[t].ChunkFreed? {
      assert GoodWith(s, Idle, n);
      AcquireKeeps(s, s', t, FreeDone, n);
    } else {
      HeapKeeps(s, s', t, n);
    }
  }

  lemma NextKeeps(s: State, s': State, n: nat)
    requires Inv(s, n) && Next(s, s', n)
    ensures Inv(s', n)
  {
    var t :| t in s.pc && Step(s, s', t, n);
    StepKeeps(s, s', t, n);
  }

  lemma InitInv(s: State, n: nat)
    requires Init(s) && n > 0
    ensures Inv(s, n)
  {
    assert GoodWith(s, Idle, n);
  }

  // ------------------------------------------------------------------ over whole runs

  lemma {:induction false} RunInv(run: seq<State>, n: nat, i: nat)
    requires IsRun(run, n) && n > 0 && i < |run|
    ensures Inv(run[i], n)
  {
    if i == 0 {
      InitInv(run[0], n);
    } else {
      RunInv(run, n, i - 1);
      assert StepAt(run, i - 1, n);
      NextKeeps(run[i - 1], run[i], n);
    }
  }

  // Whenever the lock is free, also inside CreateChunk and FreeChunk: m_firstFree lists
  // exactly the blocks that are not full, every item is exactly one of allocated, on a free
  // list or behind nextItem, and no block is without an allocated item.
  lemma FreeLockIsGood(run: seq<State>, n: nat, i: nat)
    requires IsRun(run, n) && n > 0 && i < |run| && run[i].lock.None?
    ensures Ok(run[i].p, run[i].used, n) && NoneEmpty(run[i].p)
    ensures forall t :: t in run[i].pc ==> !Holds(run[i].pc[t])
  {
    RunInv(run, n, i);
    assert GoodWith(run[i], Idle, n);
  }

  // Two threads never hold the lock at once.
  lemma OneHolder(run: seq<State>, n: nat, i: nat, t: Tid, u: Tid)
    requires IsRun(run, n) && n > 0 && i < |run| && t in run[i].pc && u in run[i].pc
    requires Holds(run[i].pc[t]) && Holds(run[i].pc[u])
    ensures t == u
  {
    RunInv(run, n, i);
  }

  // An item is handed out only while nobody has it, and only a caller that can fail is
  // handed none.
  lemma HandedOutOnce(run: seq<State>, n: nat, i: nat, t: Tid)
    requires IsRun(run, n) && n > 0 && i < |run| && t in run[i].pc
    ensures run[i].pc[t].Bumped? ==>
              run[i].pc[t].x in run[i].p.blocks &&
              Item(run[i].pc[t].x, Taken(run[i].p.blocks[run[i].pc[t].x], n).1) !in run[i].used
    ensures run[i].pc[t].ChunkDone? && run[i].p.free == [] ==> run[i].pc[t].canFail
  {
    RunInv(run, n, i);
    assert PcOk(run[i], t, n);
  }

  // An item that somebody has stays handed out until that very item is freed, by whatever
  // thread; with HandedOutOnce, it is freed between any two times it is handed out.
  lemma {:induction false} KeptUntilFreed(run: seq<State>, n: nat, i: nat, j: nat, item: Item) returns (k: nat, u: Tid)
    requires IsRun(run, n) && i < j < |run| && item in run[i].used && item !in run[j].used
    ensures i <= k < j && u in run[k].pc && run[k].pc[u] == FreeEntered(item) && Step(run[k], run[k + 1], u, n)
  {
    if item in run[j - 1].used {
      assert StepAt(run, j - 1, n);
      k := j - 1;
      u :| u in run[k].pc && Step(run[k], run[k + 1], u, n);
    } else {
      k, u := KeptUntilFreed(run, n, i, j - 1, item);
    }
  }
}
