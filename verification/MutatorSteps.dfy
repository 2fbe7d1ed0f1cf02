/**
 The program's own steps while marking is in progress: stores through the write barrier,
 pointer moves, allocation, explicit freeing, and the transfer of remembered objects from
 the barrier stack.  Each keeps the marking invariant.
 */
module MutatorSteps {
  import opened MarkModel
  import opened MarkInvariants

  // ------------------------------------------------------------------ the barrier

  // A black object turns grey and is remembered on the barrier stack.
  lemma RememberKeeps(s: State, c: Obj, okBarrier: bool, okWork: bool)
    requires Inv(s, {}) && c in s.marked && c in s.scan && Remembers(s, okBarrier)
    ensures Inv(Trap(s, c, okBarrier, okWork), {})
  {
    var t := Trap(s, c, okBarrier, okWork);
    assert multiset(t.queued) == multiset(s.queued) + multiset{c};
    forall p | 0 <= p < |t.work| ensures ItemOk(t, t.work[p]) {
      assert ItemOk(s, s.work[p]);
    }
    if !s.overflow {
      TriColourGrows(s, t, {});
    }
  }

  // The shielding invariant survives a black container's barrier hit exactly when the
  // barrier stack takes it or none of its chunks is pending.
  lemma TrapShieldedIff(s: State, c: Obj, okBarrier: bool, okWork: bool)
    requires WellFormed(s) && Shielded(s) && c in s.marked && c in s.scan
    ensures Shielded(Trap(s, c, okBarrier, okWork)) <==> (Remembers(s, okBarrier) || !HasSplit(s.work, c))
  {
    var t := Trap(s, c, okBarrier, okWork);
    if Remembers(s, okBarrier) || !HasSplit(s.work, c) {
      forall p | 0 <= p < |t.work| && (t.work[p].Chunk? || t.work[p].Protector?)
        ensures t.work[p].o in t.shield && NonWhite(t, t.work[p].o)
      {
        assert t.work[p] == s.work[p];
        assert Splits(s.work[p], s.work[p].o);
      }
      forall p, q | 0 <= p < q < |t.work| && (t.work[q].GCObject? || t.work[q].Protector?)
        ensures !Splits(t.work[p], t.work[q].o)
      {
        assert t.work[p] == s.work[p];
      }
    } else {
      var p :| 0 <= p < |s.work| && Splits(s.work[p], c);
      assert ItemOk(s, s.work[p]) && c != NULL;
      assert t.work[p] == s.work[p];
      if Fits(s, okWork) {
        assert t.work[|s.work|] == GCObject(c);
      } else {
        assert !NonWhite(t, c);
      }
    }
  }

  // The barrier stack is full; the object goes onto the mark stack instead.
  lemma FallBackPushKeeps(s: State, c: Obj, okWork: bool)
    requires Inv(s, {}) && c in s.marked && c in s.scan && !Remembers(s, false) && Fits(s, okWork)
    ensures Inv(Trap(s, c, false, okWork), {})
  {
    var t := Trap(s, c, false, okWork);
    ObjectsAppend(s.work, GCObject(c));
    assert multiset(t.queued) == multiset(s.queued) + multiset{c};
    forall p | 0 <= p < |t.work| ensures ItemOk(t, t.work[p]) {
      if p < |s.work| {
        assert t.work[p] == s.work[p];
        assert ItemOk(s, s.work[p]);
      }
    }
    if !s.overflow {
      TriColourGrows(s, t, {});
    }
    if !t.exposed {
      TrapShieldedIff(s, c, false, okWork);
    }
  }

  // Both stacks are full; the object turns white and the overflow is recorded.
  lemma FallBackDropKeeps(s: State, c: Obj, okWork: bool)
    requires Inv(s, {}) && c in s.marked && c in s.scan && !Remembers(s, false) && !Fits(s, okWork)
    ensures Inv(Trap(s, c, false, okWork), {})
  {
    var t := Trap(s, c, false, okWork);
    assert t.queued == s.queued;
    forall p | 0 <= p < |t.work| ensures ItemOk(t, t.work[p]) {
      assert ItemOk(s, s.work[p]);
    }
    if !t.exposed {
      TrapShieldedIff(s, c, false, okWork);
    }
  }

  // After the trap the container is not black: a store into it needs no further care.
  lemma TrapKeeps(s: State, c: Obj, okBarrier: bool, okWork: bool)
    requires Inv(s, {}) && c in s.scan
    ensures var t := Trap(s, c, okBarrier, okWork);
            && Inv(t, {}) && c !in t.marked
            && t.kids == s.kids && t.scan == s.scan && t.roots == s.roots && t.stack == s.stack
  {
    if c in s.marked {
      if Remembers(s, okBarrier) {
        RememberKeeps(s, c, okBarrier, okWork);
      } else {
        if Fits(s, okWork) {
          FallBackPushKeeps(s, c, okWork);
        } else {
          FallBackDropKeeps(s, c, okWork);
        }
      }
    }
  }

  // ------------------------------------------------------------------ stores and moves

  // Replacing the words of one object by the same number of other words.
  lemma ReplaceWordsKeeps(s: State, c: Obj, words: seq<Obj>)
    requires Inv(s, {}) && c in s.kids && |words| == |s.kids[c]| && WordsOk(s, words)
    requires !s.overflow && c in s.marked && c in s.scan ==>
               forall j :: 0 <= j < |words| ==> NonWhite(s, words[j]) || Pending(s.work, c, j)
    ensures Inv(s.(kids := s.kids[c := words]), {})
  {
    var t := s.(kids := s.kids[c := words]);
    assert t.kids.Keys == s.kids.Keys;
    forall o | o in t.kids ensures WordsOk(t, t.kids[o]) {
      assert WordsOk(s, s.kids[o]);
    }
    forall r | 0 <= r < |t.roots| ensures WordsOk(t, t.roots[r]) {
      assert WordsOk(s, s.roots[r]);
    }
    forall p | 0 <= p < |t.work| ensures ItemOk(t, t.work[p]) {
      assert ItemOk(s, s.work[p]);
    }
    if !s.overflow {
      forall o, j | o in t.marked && o in t.scan && 0 <= j < |t.kids[o]|
        ensures Covered(t, o, j)
      {
        if o != c {
          assert Covered(s, o, j);
        }
      }
    }
  }

  lemma StoreKeeps(s: State, c: Obj, j: nat, v: Obj, trap: bool, okBarrier: bool, okWork: bool)
    requires Inv(s, {}) && c in s.scan && c in s.kids && j < |s.kids[c]|
    requires v == NULL || (v in s.kids && trap)
    ensures Inv(Store(s, c, j, v, trap, okBarrier, okWork), {})
  {
    var t := if trap then Trap(s, c, okBarrier, okWork) else s;
    if trap {
      TrapKeeps(s, c, okBarrier, okWork);
    }
    assert WordsOk(s, s.kids[c]);
    var words := t.kids[c][j := v];
    if !t.overflow && c in t.marked {
      forall k | 0 <= k < |words| ensures NonWhite(t, words[k]) || Pending(t.work, c, k) {
        assert k != j ==> Covered(t, c, k);
      }
    }
    ReplaceWordsKeeps(t, c, words);
  }

  lemma SmallNotPending(s: State, o: Obj, k: nat)
    requires WellFormed(s) && o in s.kids && k < |s.kids[o]| <= SPLIT
    ensures !Pending(s.work, o, k)
  {
    forall p | 0 <= p < |s.work| && s.work[p].Chunk? ensures s.work[p].o != o {
      assert ItemOk(s, s.work[p]);
    }
  }

  // A small object has no pending chunk, so its words may be rearranged without the barrier.
  lemma RearrangeKeeps(s: State, o: Obj, words: seq<Obj>, okBarrier: bool, okWork: bool)
    requires Inv(s, {}) && o in s.kids && |words| == |s.kids[o]|
    requires forall j :: 0 <= j < |words| ==> words[j] == NULL || words[j] in s.kids[o]
    ensures Inv(Rearrange(s, o, words, okBarrier, okWork), {})
  {
    assert WordsOk(s, s.kids[o]);
    var large := o in s.scan && |s.kids[o]| > SPLIT;
    var t := if large then Trap(s, o, okBarrier, okWork) else s;
    if large {
      TrapKeeps(s, o, okBarrier, okWork);
    }
    if !t.overflow && o in t.marked && o in t.scan {
      forall j | 0 <= j < |words| ensures NonWhite(t, words[j]) {
        if words[j] != NULL {
          var k :| 0 <= k < |s.kids[o]| && s.kids[o][k] == words[j];
          assert Covered(s, o, k);
          SmallNotPending(s, o, k);
        }
      }
    }
    ReplaceWordsKeeps(t, o, words);
  }

  lemma MovedWords(dst: seq<Obj>, dstOff: nat, src: seq<Obj>, srcOff: nat, n: nat)
    requires dstOff + n <= |dst| && srcOff + n <= |src|
    ensures forall w :: w in Moved(dst, dstOff, src, srcOff, n) ==> w in dst || w in src
  {
    var moved := Moved(dst, dstOff, src, srcOff, n);
    forall w | w in moved ensures w in dst || w in src {
      var k :| 0 <= k < |moved| && moved[k] == w;
      if dstOff <= k < dstOff + n {
        assert src[srcOff..srcOff + n][k - dstOff] == src[srcOff + (k - dstOff)];
      }
    }
  }

  // The words movePointersWithinBlock leaves behind were there before, or are NULL.
  lemma MovedWithinWords(words: seq<Obj>, dst: nat, src: nat, n: nat, zeroEmptied: bool)
    requires dst + n <= |words| && src + n <= |words|
    ensures forall w :: w in MovedWithin(words, dst, src, n, zeroEmptied) ==> w == NULL || w in words
  {
    var moved := Moved(words, dst, words, src, n);
    MovedWords(words, dst, words, src, n);
    var r := MovedWithin(words, dst, src, n, zeroEmptied);
    forall w | w in r ensures w == NULL || w in words {
      var k :| 0 <= k < |r| && r[k] == w;
      assert r[k] == NULL || r[k] == moved[k];
    }
  }

  lemma CopyWordsKeeps(s: State, dst: Obj, dstOff: nat, src: Obj, srcOff: nat, n: nat, okBarrier: bool, okWork: bool)
    requires Inv(s, {}) && dst in s.kids && src in s.kids
    requires dstOff + n <= |s.kids[dst]| && srcOff + n <= |s.kids[src]|
    ensures Inv(CopyWords(s, dst, dstOff, src, srcOff, n, okBarrier, okWork), {})
  {
    assert WordsOk(s, s.kids[dst]) && WordsOk(s, s.kids[src]);
    var t := if dst in s.scan then Trap(s, dst, okBarrier, okWork) else s;
    if dst in s.scan {
      TrapKeeps(s, dst, okBarrier, okWork);
    }
    var words := Moved(s.kids[dst], dstOff, s.kids[src], srcOff, n);
    forall j | 0 <= j < |words| ensures words[j] == NULL || words[j] in s.kids {
      if dstOff <= j < dstOff + n {
        assert words[j] == s.kids[src][srcOff + (j - dstOff)];
      } else {
        assert words[j] == s.kids[dst][j];
      }
    }
    ReplaceWordsKeeps(t, dst, words);
  }

  // ------------------------------------------------------------------ allocation and freeing

  lemma AllocateKeeps(s: State, o: Obj, n: nat, pointers: bool)
    requires Inv(s, {}) && o != NULL && o !in s.kids
    ensures Inv(Allocate(s, o, n, pointers), {})
  {
    var t := Allocate(s, o, n, pointers);
    forall x | x in t.kids ensures WordsOk(t, t.kids[x]) {
      if x != o {
        assert WordsOk(s, s.kids[x]);
      }
    }
    forall r | 0 <= r < |t.roots| ensures WordsOk(t, t.roots[r]) {
      assert WordsOk(s, s.roots[r]);
    }
    forall p | 0 <= p < |t.work| ensures ItemOk(t, t.work[p]) {
      assert ItemOk(s, s.work[p]);
    }
    if !s.overflow {
      forall x, j | x in t.marked && x in t.scan && 0 <= j < |t.kids[x]|
        ensures Covered(t, x, j)
      {
        assert x != o;
        assert Covered(s, x, j);
      }
    }
  }

  // Nothing the program or the collector can read still refers to o.
  ghost predicate Unreferenced(s: State, o: Obj) {
    && (forall x :: x in s.kids && x != o ==> o !in s.kids[x])
    && (forall r :: 0 <= r < |s.roots| ==> o !in s.roots[r])
    && o !in s.stack
    && (forall p :: 0 <= p < |s.work| && s.work[p].StackMemory? ==> o !in s.work[p].words)
  }

  // An object with a chunk or protector on the mark stack is never released: freeing it
  // is refused, as long as no barrier push failed for an object with a pending chunk.
  lemma FreeRefusedWhileSplit(s: State, o: Obj, exempt: set<Obj>)
    requires Inv(s, exempt) && !s.exposed && HasSplit(s.work, o)
    ensures o in s.kids && FreeRefused(s, o)
  {
    var p :| 0 <= p < |s.work| && Splits(s.work[p], o);
    assert ItemOk(s, s.work[p]);
  }

  lemma RefusedFreeKeeps(s: State, o: Obj)
    requires Inv(s, {}) && o in s.kids && FreeRefused(s, o)
    ensures Inv(Free(s, o), {})
  {
    ReplaceWordsKeeps(s, o, seq(|s.kids[o]|, _ => NULL));
  }

  lemma ReleaseKeeps(s: State, o: Obj)
    requires Inv(s, {}) && o in s.kids && !FreeRefused(s, o)
    requires Unreferenced(s, o) && !HasSplit(s.work, o)
    ensures Inv(Free(s, o), {})
  {
    var t := Free(s, o);
    forall x | x in t.kids ensures WordsOk(t, t.kids[x]) {
      assert WordsOk(s, s.kids[x]);
      assert o !in s.kids[x];
    }
    forall r | 0 <= r < |t.roots| ensures WordsOk(t, t.roots[r]) {
      assert WordsOk(s, s.roots[r]);
    }
    forall p | 0 <= p < |t.work| ensures ItemOk(t, t.work[p]) {
      assert ItemOk(s, s.work[p]);
      assert !Splits(s.work[p], o);
    }
    forall p | 0 <= p < |t.work| && (t.work[p].Chunk? || t.work[p].Protector?) && !t.exposed
      ensures NonWhite(t, t.work[p].o)
    {
      assert NonWhite(s, s.work[p].o);
      assert !Splits(s.work[p], o);
    }
    if !s.overflow {
      forall x, j | x in t.marked && x in t.scan && 0 <= j < |t.kids[x]|
        ensures Covered(t, x, j)
      {
        assert Covered(s, x, j);
        assert o !in s.kids[x];
      }
    }
  }

  // ------------------------------------------------------------------ the barrier stack

  lemma TransferKeeps(s: State, lo: nat, hi: nat, exempt: set<Obj>)
    requires Inv(s, exempt) && lo <= hi <= |s.barrier|
    ensures Inv(TransferSegment(s, lo, hi), exempt)
  {
    var t := TransferSegment(s, lo, hi);
    var moved := s.barrier[lo..hi];
    TransferExact(s, lo, hi);
    forall p | 0 <= p < |t.work| ensures ItemOk(t, t.work[p]) {
      if p < |moved| {
        assert t.work[p].o == s.barrier[lo + p];
        assert s.barrier[lo + p] in multiset(s.queued);
      } else {
        assert t.work[p] == s.work[p - |moved|];
        assert ItemOk(s, s.work[p - |moved|]);
      }
    }
    if !s.overflow {
      TransferTriColour(s, lo, hi, exempt);
    }
    if !s.exposed {
      TransferShielded(s, lo, hi);
    }
  }

  lemma TransferTriColour(s: State, lo: nat, hi: nat, exempt: set<Obj>)
    requires TriColour(s, exempt) && lo <= hi <= |s.barrier|
    ensures TriColour(TransferSegment(s, lo, hi), exempt)
  {
    var t := TransferSegment(s, lo, hi);
    forall o, j | o in t.marked && o in t.scan && o !in exempt && 0 <= j < |t.kids[o]|
      ensures Covered(t, o, j)
    {
      assert Covered(s, o, j);
      if Pending(s.work, o, j) {
        var p :| 0 <= p < |s.work| && s.work[p].Chunk? && s.work[p].o == o && s.work[p].from <= j;
        assert t.work[p + (hi - lo)] == s.work[p];
      }
    }
  }

  lemma TransferExact(s: State, lo: nat, hi: nat)
    requires Exact(s) && lo <= hi <= |s.barrier|
    ensures Exact(TransferSegment(s, lo, hi))
  {
    var moved := s.barrier[lo..hi];
    ObjectsOfItems(moved);
    ObjectsConcat(AsItems(moved), s.work);
    assert s.barrier == s.barrier[..lo] + moved + s.barrier[hi..];
  }

  lemma TransferShielded(s: State, lo: nat, hi: nat)
    requires Shielded(s) && lo <= hi <= |s.barrier|
    ensures Shielded(TransferSegment(s, lo, hi))
  {
    var t := TransferSegment(s, lo, hi);
    var d := hi - lo;
    forall p | 0 <= p < |t.work| && (t.work[p].Chunk? || t.work[p].Protector?)
      ensures t.work[p].o in t.shield && NonWhite(t, t.work[p].o)
    {
      assert p >= d && t.work[p] == s.work[p - d];
    }
    forall p, q | 0 <= p < q < |t.work| && (t.work[q].GCObject? || t.work[q].Protector?)
      ensures !Splits(t.work[p], t.work[q].o)
    {
      if p >= d {
        assert t.work[p] == s.work[p - d] && t.work[q] == s.work[q - d];
      }
    }
  }

  // Only the finishing phase flushes, always with an empty mark stack.
  lemma FlushBarrierKeeps(s: State, okAll: bool, okOne: bool, exempt: set<Obj>)
    requires Inv(s, exempt) && s.work == []
    ensures Inv(FlushBarrier(s, okAll, okOne), exempt)
  {
    var n := |s.barrier|;
    if okAll || n == 0 {
      TransferKeeps(s, 0, n, exempt);
    } else {
      var t := FlushBarrier(s, okAll, okOne);
      var c := s.barrier[n - 1];
      ObjectsAppend(s.work, GCObject(c));
      assert s.barrier == s.barrier[..n - 1] + [c];
      assert multiset(Objects(t.work)) == multiset{c};
      assert c in multiset(s.queued);
    }
  }
}
