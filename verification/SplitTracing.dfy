/**
 What the marker does with a large object from the moment it takes the object off the
 mark stack until the object's protector is popped.  Whatever else happens in between,
 the words of the object are traced in order and none twice; they are all traced exactly
 if every chunk could be pushed.
 */
module SplitTracing {
  import opened MarkModel
  import opened MarkInvariants
  import opened MarkRuns

  type Location = (Obj, nat)

  // ------------------------------------------------------------------ what a step traces

  ghost function Locations(o: Obj, lo: nat, hi: nat): (r: seq<Location>)
    requires lo <= hi
    ensures |r| == hi - lo && forall k :: 0 <= k < hi - lo ==> r[k] == (o, lo + k)
  {
    seq(hi - lo, k requires 0 <= k < hi - lo => (o, lo + k))
  }

  ghost predicate Pops(s: State, st: Step, it: Item) {
    st.MarkOne? && s.work != [] && s.work[|s.work| - 1] == it
  }

  // The words, by object and index, that a step hands to the scanning loop for an object.
  ghost function Handed(s: State, st: Step): seq<Location>
    requires WellFormed(s) && Enabled(s, st)
  {
    if !st.MarkOne? then []
    else
      var it := s.work[|s.work| - 1];
      assert ItemOk(s, it);
      match it
      case GCObject(o) => Locations(o, 0, |Head(s.kids[o])|)
      case Chunk(o, from) => Locations(o, from, from + |Head(s.kids[o][from..])|)
      case _ => []
  }

  ghost predicate InHeap(s: State, locations: seq<Location>) {
    forall k :: 0 <= k < |locations| ==> locations[k].0 in s.kids && locations[k].1 < |s.kids[locations[k].0]|
  }

  ghost function WordsAt(s: State, locations: seq<Location>): seq<Obj>
    requires InHeap(s, locations)
  {
    seq(|locations|, k requires 0 <= k < |locations| => s.kids[locations[k].0][locations[k].1])
  }

  // The state in which the top item's words are handed over.
  ghost function Scanning(s: State, oc: Outcomes): State
    requires WellFormed(s) && s.work != []
  {
    var it := s.work[|s.work| - 1];
    assert ItemOk(s, it);
    match it
    case GCObject(o) => SetMark(SplitObject(Pop(s), o, oc), o)
    case Chunk(o, from) => RePush(Pop(s), o, from, oc)
    case _ => s
  }

  // The locations handed over are the ones whose words the step traces, in this order.
  lemma HandedIsTraced(s: State, oc: Outcomes)
    requires WellFormed(s) && s.work != []
    requires s.work[|s.work| - 1].GCObject? || s.work[|s.work| - 1].Chunk?
    ensures ItemOk(s, s.work[|s.work| - 1])
    ensures var locations := Handed(s, MarkOne(oc));
            && InHeap(s, locations)
            && MarkTop(s, oc) == TraceWords(Scanning(s, oc), WordsAt(s, locations), oc.words)
  {
    var it := s.work[|s.work| - 1];
    assert ItemOk(s, it);
    var locations := Handed(s, MarkOne(oc));
    if it.GCObject? {
      assert WordsAt(s, locations) == Head(s.kids[it.o]);
    } else {
      assert WordsAt(s, locations) == Head(s.kids[it.o][it.from..]);
    }
  }

  // Those of the locations that lie in o.
  ghost function Of(locations: seq<Location>, o: Obj): seq<Location> {
    if locations == [] then []
    else
      var n := |locations| - 1;
      Of(locations[..n], o) + if locations[n].0 == o then [locations[n]] else []
  }

  ghost function AllHanded(states: seq<State>, steps: seq<Step>, a: nat, b: nat): seq<Location>
    requires IsRun(states, steps) && a <= b <= |steps|
  {
    if a == b then [] else AllHanded(states, steps, a, b - 1) + Handed(states[b - 1], steps[b - 1])
  }

  lemma {:induction false} OfConcat(l: seq<Location>, m: seq<Location>, o: Obj)
    ensures Of(l + m, o) == Of(l, o) + Of(m, o)
  {
    if m == [] {
      assert l + m == l;
    } else {
      var n := |m| - 1;
      OfConcat(l, m[..n], o);
      assert (l + m)[..|l| + n] == l + m[..n];
    }
  }

  lemma {:induction false} OfLocations(o': Obj, lo: nat, hi: nat, o: Obj)
    requires lo <= hi
    ensures Of(Locations(o', lo, hi), o) == if o' == o then Locations(o, lo, hi) else []
  {
    if lo < hi {
      OfLocations(o', lo, hi - 1, o);
      assert Locations(o', lo, hi)[..hi - 1 - lo] == Locations(o', lo, hi - 1);
      if o' == o {
        assert Locations(o, lo, hi) == Locations(o, lo, hi - 1) + [(o, hi - 1)];
      }
    }
  }

  // ------------------------------------------------------------------ from pop to protector

  // A barrier hit on o in this step finds room on the barrier stack.
  ghost predicate HitRemembered(s: State, st: Step, o: Obj) {
    match st
    case StoreWord(c, _, _, trap, okBarrier, _) => c == o && trap && o in s.marked ==> Remembers(s, okBarrier)
    case MoveWithin(c, _, _, _, _, okBarrier, _) => c == o && o in s.marked ==> Remembers(s, okBarrier)
    case Reverse(c, _, _, okBarrier, _) => c == o && o in s.marked ==> Remembers(s, okBarrier)
    case Copy(c, _, _, _, _, _, okBarrier, _) => c == o && o in s.marked ==> Remembers(s, okBarrier)
    case _ => true
  }

  // If this step has a chunk of o to push, the push succeeds.
  ghost predicate ChunkGranted(s: State, st: Step, o: Obj)
    requires WellFormed(s) && Enabled(s, st)
  {
    st.MarkOne? ==>
      var it := s.work[|s.work| - 1];
      assert ItemOk(s, it);
      match it
      case GCObject(c) =>
        c == o && |s.kids[o]| > SPLIT ==> Fits(PushItem(Pop(s), Protector(o), st.oc.protector), st.oc.chunk)
      case Chunk(c, from) => c == o && |s.kids[o]| - from > SPLIT ==> Fits(Pop(s), st.oc.chunk)
      case _ => true
  }

  ghost predicate AllGranted(states: seq<State>, steps: seq<Step>, a: nat, b: nat, o: Obj)
    requires IsRun(states, steps) && b <= |steps|
  {
    forall i :: a <= i < b ==> ChunkGranted(states[i], steps[i], o)
  }

  // Step a takes the large object o off the mark stack and leaves a protector; no step
  // before b pops a protector of o, and barrier hits on o find room on the barrier stack.
  ghost predicate Open(states: seq<State>, steps: seq<Step>, a: nat, b: nat, o: Obj) {
    && IsRun(states, steps) && a < b <= |steps|
    && Pops(states[a], steps[a], GCObject(o))
    && o in states[a].kids && |states[a].kids[o]| > SPLIT
    && Fits(Pop(states[a]), steps[a].oc.protector)
    && (forall i :: a < i < b ==> HitRemembered(states[i], steps[i], o) && !Pops(states[i], steps[i], Protector(o)))
  }

  ghost predicate Foreign(it: Item, o: Obj) {
    it.StackMemory? || it.o != o
  }

  // The protector of o is at p; directly above it is the chunk that starts at m, if one is
  // waiting; nothing else from p on concerns o.
  ghost predicate At(s: State, o: Obj, len: nat, p: nat, waiting: bool, m: nat) {
    && o in s.kids && |s.kids[o]| == len && SPLIT < len
    && NonWhite(s, o) && o != NULL && o in s.shield
    && p < |s.work| && s.work[p] == Protector(o)
    && (waiting ==> p + 1 < |s.work| && s.work[p + 1] == Chunk(o, m) && m < len)
    && (forall q :: p < q < |s.work| && (waiting ==> p + 1 < q) ==> Foreign(s.work[q], o))
  }

  // ------------------------------------------------------------------ steps that do not concern o

  // Work was pushed on top, none of it for o, and o is as grey or black as before.
  ghost predicate Apart(s: State, t: State, o: Obj) {
    && t.kids == s.kids && NonWhite(t, o)
    && (o in s.shield ==> o in t.shield)
    && s.work <= t.work
    && (forall q :: |s.work| <= q < |t.work| ==> Foreign(t.work[q], o))
  }

  lemma ApartTrans(s: State, t: State, u: State, o: Obj)
    requires Apart(s, t, o) && Apart(t, u, o)
    ensures Apart(s, u, o)
  {
    forall q | |s.work| <= q < |u.work| ensures Foreign(u.work[q], o) {
      assert q < |t.work| ==> u.work[q] == t.work[q];
    }
  }

  lemma {:induction false} TraceApart(s: State, words: seq<Obj>, oks: seq<bool>, o: Obj)
    requires NonWhite(s, o) && o != NULL
    ensures Apart(s, TraceWords(s, words, oks), o)
    ensures TraceWords(s, words, oks).shield == s.shield
  {
    if words != [] {
      var n := |words| - 1;
      TraceApart(s, words[..n], oks, o);
      var u := TraceWords(s, words[..n], oks);
      assert Apart(u, TracePointer(u, words[n], Granted(oks, n)), o);
      ApartTrans(s, u, TracePointer(u, words[n], Granted(oks, n)), o);
    }
  }

  lemma SplitApart(s: State, c: Obj, oc: Outcomes, o: Obj)
    requires NonWhite(s, o) && o != NULL && c in s.kids && c != o
    ensures Apart(s, SetMark(SplitObject(s, c, oc), c), o)
  {
    SplitObjectFrame(s, c, oc);
  }

  lemma MarkItemApart(s: State, c: Obj, oc: Outcomes, o: Obj)
    requires NonWhite(s, o) && o != NULL && c in s.kids && c != o
    ensures Apart(s, MarkItem(s, c, oc), o)
  {
    var u := SetMark(SplitObject(s, c, oc), c);
    SplitApart(s, c, oc, o);
    TraceApart(u, Head(s.kids[c]), oc.words, o);
    ApartTrans(s, u, MarkItem(s, c, oc), o);
  }

  lemma MarkChunkApart(s: State, c: Obj, from: nat, oc: Outcomes, o: Obj)
    requires NonWhite(s, o) && o != NULL && c in s.kids && c != o && from <= |s.kids[c]|
    ensures Apart(s, MarkChunk(s, c, from, oc), o)
  {
    var u := RePush(s, c, from, oc);
    TraceApart(u, Head(s.kids[c][from..]), oc.words, o);
    ApartTrans(s, u, MarkChunk(s, c, from, oc), o);
  }

  lemma MarkStackMemoryApart(s: State, words: seq<Obj>, oc: Outcomes, o: Obj)
    requires NonWhite(s, o) && o != NULL
    ensures Apart(s, MarkStackMemory(s, words, oc), o)
  {
    var u := if |words| > SPLIT then PushItem(s, StackMemory(words[SPLIT..]), oc.chunk) else s;
    TraceApart(u, Head(words), oc.words, o);
    ApartTrans(s, u, MarkStackMemory(s, words, oc), o);
  }

  // Processing an item that does not concern o.
  lemma MarkForeign(s: State, oc: Outcomes, o: Obj)
    requires WellFormed(s) && s.work != [] && NonWhite(s, o) && o != NULL
    requires Foreign(s.work[|s.work| - 1], o)
    ensures ItemOk(s, s.work[|s.work| - 1])
    ensures Apart(Pop(s), MarkTop(s, oc), o)
  {
    var it := s.work[|s.work| - 1];
    assert ItemOk(s, it);
    match it
    case GCObject(c) => MarkItemApart(Pop(s), c, oc, o);
    case Chunk(c, from) => MarkChunkApart(Pop(s), c, from, oc, o);
    case Protector(c) =>
    case StackMemory(words) => MarkStackMemoryApart(Pop(s), words, oc, o);
  }

  // The program, or a barrier hit, may push other objects; o keeps its length and shield.
  ghost predicate Spared(s: State, t: State, o: Obj, len: nat) {
    && o in t.kids && |t.kids[o]| == len && NonWhite(t, o)
    && (o in s.shield ==> o in t.shield)
    && s.work <= t.work
    && (forall q :: |s.work| <= q < |t.work| ==> Foreign(t.work[q], o))
  }

  lemma TrapSpares(s: State, c: Obj, okBarrier: bool, okWork: bool, o: Obj)
    requires NonWhite(s, o) && o != NULL && o in s.kids
    requires c == o && o in s.marked ==> Remembers(s, okBarrier)
    ensures Spared(s, Trap(s, c, okBarrier, okWork), o, |s.kids[o]|)
    ensures Trap(s, c, okBarrier, okWork).kids == s.kids
  {
  }

  // Writing the words of one object changes no length.
  lemma WriteSpares(s: State, t: State, c: Obj, words: seq<Obj>, o: Obj, len: nat)
    requires Spared(s, t, o, len) && c in t.kids && |words| == |t.kids[c]|
    ensures Spared(s, t.(kids := t.kids[c := words]), o, len)
  {
  }

  lemma RearrangeSpares(s: State, c: Obj, words: seq<Obj>, okBarrier: bool, okWork: bool, o: Obj)
    requires NonWhite(s, o) && o != NULL && o in s.kids && c in s.kids && |words| == |s.kids[c]|
    requires c == o && o in s.marked ==> Remembers(s, okBarrier)
    ensures Spared(s, Rearrange(s, c, words, okBarrier, okWork), o, |s.kids[o]|)
  {
    var t := if c in s.scan && |s.kids[c]| > SPLIT then Trap(s, c, okBarrier, okWork) else s;
    TrapSpares(s, c, okBarrier, okWork, o);
    WriteSpares(s, t, c, words, o, |s.kids[o]|);
  }

  lemma CopySpares(s: State, st: Step, o: Obj)
    requires WellFormed(s) && Enabled(s, st) && NonWhite(s, o) && o in s.kids && HitRemembered(s, st, o)
    requires st.Copy? && !st.sameArray
    ensures Spared(s, Next(s, st), o, |s.kids[o]|)
  {
    var t := if st.o in s.scan then Trap(s, st.o, st.okBarrier, st.okWork) else s;
    TrapSpares(s, st.o, st.okBarrier, st.okWork, o);
    WriteSpares(s, t, st.o, Moved(s.kids[st.o], st.dstOff, s.kids[st.from], st.srcOff, st.n), o, |s.kids[o]|);
  }

  lemma StoreSpares(s: State, st: Step, o: Obj)
    requires WellFormed(s) && Enabled(s, st) && NonWhite(s, o) && o in s.kids && HitRemembered(s, st, o)
    requires st.StoreWord? || st.MoveWithin? || st.Reverse? || st.Copy?
    ensures Spared(s, Next(s, st), o, |s.kids[o]|)
  {
    match st
    case StoreWord(c, j, v, trap, okBarrier, okWork) =>
      if trap {
        TrapSpares(s, c, okBarrier, okWork, o);
      }
      var t := if trap then Trap(s, c, okBarrier, okWork) else s;
      WriteSpares(s, t, c, t.kids[c][j := v], o, |s.kids[o]|);
    case MoveWithin(c, dst, src, n, zeroEmptied, okBarrier, okWork) =>
      RearrangeSpares(s, c, MovedWithin(s.kids[c], dst, src, n, zeroEmptied), okBarrier, okWork, o);
    case Reverse(c, off, n, okBarrier, okWork) =>
      RearrangeSpares(s, c, ReversedWithin(s.kids[c], off, n), okBarrier, okWork, o);
    case Copy(c, dstOff, from, srcOff, n, sameArray, okBarrier, okWork) =>
      if sameArray {
        RearrangeSpares(s, c, Moved(s.kids[c], dstOff, s.kids[c], srcOff, n), okBarrier, okWork, o);
      } else {
        CopySpares(s, st, o);
      }
  }

  lemma OtherSpares(s: State, st: Step, o: Obj)
    requires WellFormed(s) && Enabled(s, st) && NonWhite(s, o) && o in s.kids
    requires o in s.shield && |s.kids[o]| > SPLIT
    requires st.TraceRoot? || st.NewObject? || st.FreeObject? || st.SetRoot? || st.SetStack?
    ensures Spared(s, Next(s, st), o, |s.kids[o]|)
  {
    match st
    case TraceRoot(r, oks) => TraceApart(s, s.roots[r], oks, o);
    case FreeObject(c) =>
      if c == o {
        assert FreeRefused(s, o);
      }
    case _ =>
  }

  lemma SparedAt(s: State, t: State, o: Obj, len: nat, p: nat, waiting: bool, m: nat)
    requires At(s, o, len, p, waiting, m) && Spared(s, t, o, len)
    ensures At(t, o, len, p, waiting, m)
  {
    forall q | p < q < |t.work| && (waiting ==> p + 1 < q) ensures Foreign(t.work[q], o) {
      assert q < |s.work| ==> t.work[q] == s.work[q];
    }
  }

  lemma TransferAt(s: State, lo: nat, hi: nat, o: Obj, len: nat, p: nat, waiting: bool, m: nat)
    requires At(s, o, len, p, waiting, m) && lo <= hi <= |s.barrier|
    ensures At(TransferSegment(s, lo, hi), o, len, p + (hi - lo), waiting, m)
  {
    var t := TransferSegment(s, lo, hi);
    var d := hi - lo;
    forall q | d <= q < |t.work| ensures t.work[q] == s.work[q - d] {
    }
  }

  // ------------------------------------------------------------------ steps that do

  // The object itself is popped: head traced, protector and chunk pushed.
  lemma OpenAt(s: State, oc: Outcomes, o: Obj)
    requires WellFormed(s) && Pops(s, MarkOne(oc), GCObject(o))
    requires o in s.kids && |s.kids[o]| > SPLIT && Fits(Pop(s), oc.protector)
    ensures ItemOk(s, s.work[|s.work| - 1])
    ensures At(MarkTop(s, oc), o, |s.kids[o]|, |s.work| - 1, ChunkGranted(s, MarkOne(oc), o), SPLIT)
  {
    assert ItemOk(s, s.work[|s.work| - 1]);
    var u := SetMark(SplitObject(Pop(s), o, oc), o);
    TraceApart(u, Head(s.kids[o]), oc.words, o);
  }

  // The chunk of o is popped and, if anything is left, pushed back.
  lemma ChunkAt(s: State, oc: Outcomes, o: Obj, len: nat, p: nat, m: nat)
    requires WellFormed(s) && At(s, o, len, p, true, m) && p + 2 == |s.work|
    ensures ItemOk(s, s.work[|s.work| - 1])
    ensures var more := len - m > SPLIT && ChunkGranted(s, MarkOne(oc), o);
            At(MarkTop(s, oc), o, len, p, more, if len - m > SPLIT then m + SPLIT else len)
  {
    assert ItemOk(s, s.work[|s.work| - 1]);
    var u := RePush(Pop(s), o, m, oc);
    TraceApart(u, Head(s.kids[o][m..]), oc.words, o);
  }

  // Any step of the marker, seen from o: what it traces of o, and where it leaves o.
  lemma MarkAt(s: State, oc: Outcomes, o: Obj, len: nat, p: nat, waiting: bool, m: nat)
      returns (waiting': bool, m': nat)
    requires WellFormed(s) && At(s, o, len, p, waiting, m) && m <= len
    requires !Pops(s, MarkOne(oc), Protector(o))
    ensures ItemOk(s, s.work[|s.work| - 1])
    ensures At(MarkTop(s, oc), o, len, p, waiting', m') && m <= m' <= len
    ensures Of(Handed(s, MarkOne(oc)), o) == Locations(o, m, m')
    ensures !waiting ==> !waiting' && m' == m && ChunkGranted(s, MarkOne(oc), o)
    ensures waiting ==> if waiting' then ChunkGranted(s, MarkOne(oc), o)
                        else (m' == len <==> ChunkGranted(s, MarkOne(oc), o))
  {
    var n := |s.work| - 1;
    assert ItemOk(s, s.work[n]);
    if waiting && n == p + 1 {
      ChunkAt(s, oc, o, len, p, m);
      waiting' := len - m > SPLIT && ChunkGranted(s, MarkOne(oc), o);
      m' := if len - m > SPLIT then m + SPLIT else len;
      OfLocations(o, m, m', o);
    } else {
      waiting', m' := waiting, m;
      MarkForeign(s, oc, o);
      ForeignHanded(s, oc, o);
      PopAt(s, o, len, p, waiting, m);
      SparedAt(Pop(s), MarkTop(s, oc), o, len, p, waiting, m);
    }
  }

  lemma PopAt(s: State, o: Obj, len: nat, p: nat, waiting: bool, m: nat)
    requires At(s, o, len, p, waiting, m) && p + 1 < |s.work| && (waiting ==> p + 2 < |s.work|)
    ensures At(Pop(s), o, len, p, waiting, m)
  {
  }

  lemma ForeignHanded(s: State, oc: Outcomes, o: Obj)
    requires WellFormed(s) && s.work != [] && Foreign(s.work[|s.work| - 1], o)
    ensures Of(Handed(s, MarkOne(oc)), o) == Locations(o, 0, 0)
    ensures ChunkGranted(s, MarkOne(oc), o)
  {
    var it := s.work[|s.work| - 1];
    assert ItemOk(s, it);
    match it
    case GCObject(c) => OfLocations(c, 0, |Head(s.kids[c])|, o);
    case Chunk(c, from) => OfLocations(c, from, from + |Head(s.kids[c][from..])|, o);
    case _ =>
  }

  // ------------------------------------------------------------------ over a run

  lemma LocationsConcat(o: Obj, lo: nat, mid: nat, hi: nat)
    requires lo <= mid <= hi
    ensures Locations(o, lo, mid) + Locations(o, mid, hi) == Locations(o, lo, hi)
  {
  }

  // The account after one more step.
  lemma OneMore(states: seq<State>, steps: seq<Step>, a: nat, k: nat, o: Obj, m: nat, m': nat)
    requires IsRun(states, steps) && a <= k < |steps| && m <= m'
    requires Of(AllHanded(states, steps, a, k), o) == Locations(o, 0, m)
    requires Of(Handed(states[k], steps[k]), o) == Locations(o, m, m')
    ensures Of(AllHanded(states, steps, a, k + 1), o) == Locations(o, 0, m')
    ensures AllGranted(states, steps, a, k + 1, o) <==>
              AllGranted(states, steps, a, k, o) && ChunkGranted(states[k], steps[k], o)
  {
    OfConcat(AllHanded(states, steps, a, k), Handed(states[k], steps[k]), o);
    LocationsConcat(o, 0, m, m');
  }

  // At every point between pop and protector, the words of o below m have been traced.
  lemma {:induction false} During(states: seq<State>, steps: seq<Step>, a: nat, i: nat, o: Obj)
      returns (p: nat, waiting: bool, m: nat)
    requires Open(states, steps, a, i, o)
    ensures At(states[i], o, |states[a].kids[o]|, p, waiting, m) && m <= |states[a].kids[o]|
    ensures Of(AllHanded(states, steps, a, i), o) == Locations(o, 0, m)
    ensures if waiting then AllGranted(states, steps, a, i, o)
            else (m == |states[a].kids[o]| <==> AllGranted(states, steps, a, i, o))
  {
    var k := i - 1;
    if k == a {
      OpenAt(states[a], steps[a].oc, o);
      p, waiting, m := |states[a].work| - 1, ChunkGranted(states[a], steps[a], o), SPLIT;
      OfLocations(o, 0, SPLIT, o);
      OneMore(states, steps, a, a, o, 0, SPLIT);
    } else {
      var p0, w, m0 := During(states, steps, a, k, o);
      p, waiting, m := Onward(states[k], steps[k], o, |states[a].kids[o]|, p0, w, m0);
      OneMore(states, steps, a, k, o, m0, m);
    }
  }

  lemma Onward(s: State, st: Step, o: Obj, len: nat, p: nat, waiting: bool, m: nat)
      returns (p': nat, waiting': bool, m': nat)
    requires WellFormed(s) && Enabled(s, st) && At(s, o, len, p, waiting, m) && m <= len
    requires HitRemembered(s, st, o) && !Pops(s, st, Protector(o))
    ensures At(Next(s, st), o, len, p', waiting', m') && m <= m' <= len
    ensures Of(Handed(s, st), o) == Locations(o, m, m')
    ensures !waiting ==> !waiting' && m' == m && ChunkGranted(s, st, o)
    ensures waiting ==> if waiting' then ChunkGranted(s, st, o) else (m' == len <==> ChunkGranted(s, st, o))
  {
    p', waiting', m' := p, waiting, m;
    match st {
      case MarkOne(oc) =>
        waiting', m' := MarkAt(s, oc, o, len, p, waiting, m);
      case Transfer(lo, hi) =>
        p' := p + (hi - lo);
        TransferAt(s, lo, hi, o, len, p, waiting, m);
      case StoreWord(_, _, _, _, _, _) =>
        StoreSpares(s, st, o);
        SparedAt(s, Next(s, st), o, len, p, waiting, m);
      case MoveWithin(_, _, _, _, _, _, _) =>
        StoreSpares(s, st, o);
        SparedAt(s, Next(s, st), o, len, p, waiting, m);
      case Reverse(_, _, _, _, _) =>
        StoreSpares(s, st, o);
        SparedAt(s, Next(s, st), o, len, p, waiting, m);
      case Copy(_, _, _, _, _, _, _, _) =>
        StoreSpares(s, st, o);
        SparedAt(s, Next(s, st), o, len, p, waiting, m);
      case _ =>
        OtherSpares(s, st, o);
        SparedAt(s, Next(s, st), o, len, p, waiting, m);
    }
  }

  // The protector of o comes to the top only when no chunk of o is left.
  lemma ProtectorPopped(s: State, st: Step, o: Obj, len: nat, p: nat, waiting: bool, m: nat)
    requires WellFormed(s) && Enabled(s, st) && At(s, o, len, p, waiting, m) && Pops(s, st, Protector(o))
    ensures !waiting && Of(Handed(s, st), o) == Locations(o, m, m) && ChunkGranted(s, st, o)
  {
    var n := |s.work| - 1;
    assert s.work[n] == Protector(o);
    assert n <= p;
  }

  // From the pop of a large object to the pop of its protector, in any run: the marker
  // traces the words of the object from the first to the m-th, each once and in order, and
  // reaches the last exactly if every chunk could be pushed.
  lemma SplitTracedOnce(states: seq<State>, steps: seq<Step>, a: nat, b: nat, o: Obj) returns (m: nat)
    requires Open(states, steps, a, b, o) && b < |steps| && Pops(states[b], steps[b], Protector(o))
    ensures m <= |states[a].kids[o]|
    ensures Of(AllHanded(states, steps, a, b + 1), o) == Locations(o, 0, m)
    ensures m == |states[a].kids[o]| <==> AllGranted(states, steps, a, b + 1, o)
  {
    var p, waiting;
    p, waiting, m := During(states, steps, a, b, o);
    ProtectorPopped(states[b], steps[b], o, |states[a].kids[o]|, p, waiting, m);
    OneMore(states, steps, a, b, o, m, m);
  }

  // A small object is traced whole in the step that takes it off the stack.
  lemma SmallTracedOnce(s: State, oc: Outcomes, o: Obj)
    requires WellFormed(s) && Pops(s, MarkOne(oc), GCObject(o)) && o in s.kids && |s.kids[o]| <= SPLIT
    ensures Of(Handed(s, MarkOne(oc)), o) == Locations(o, 0, |s.kids[o]|)
    ensures forall it :: it in MarkTop(s, oc).work && Splits(it, o) ==> it in s.work
  {
    assert ItemOk(s, s.work[|s.work| - 1]);
    OfLocations(o, 0, |s.kids[o]|, o);
    var u := SetMark(Pop(s), o);
    TraceApart(u, Head(s.kids[o]), oc.words, o);
    forall it | it in MarkTop(s, oc).work && Splits(it, o) ensures it in s.work {
      var q :| 0 <= q < |MarkTop(s, oc).work| && MarkTop(s, oc).work[q] == it;
      assert s.work[q] == it;
    }
  }
}
