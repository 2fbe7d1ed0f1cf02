/**
 The slots of a GCHashtable with pointer keys and the finite map they stand for
 (MMgc/GCHashtable.h, MMgc/GCHashtable-inlines.h).  Key 0 is NULL, an empty slot; key 1 is
 DELETED, the tombstone of a removed key.
 */
module HashSlots {
  import opened Sets
  import opened Powers
  import opened Probing

  datatype Entry = Entry(value: int, key: nat)

  const NULL: nat := 0
  const DELETED: nat := 1
  const VACANT: Entry := Entry(0, NULL)
  const TOMBSTONE: Entry := Entry(0, DELETED)

  type Hash = nat -> nat

  // ------------------------------------------------------------------ counting

  function Used(t: seq<Entry>): (n: nat)
    ensures n <= |t|
  {
    if t == [] then 0 else Used(t[..|t| - 1]) + if t[|t| - 1].key != NULL then 1 else 0
  }

  function Tombs(t: seq<Entry>): (n: nat)
    ensures n <= Used(t)
  {
    if t == [] then 0 else Tombs(t[..|t| - 1]) + if t[|t| - 1].key == DELETED then 1 else 0
  }

  lemma {:induction false} CountsUpdate(t: seq<Entry>, i: nat, e: Entry)
    requires i < |t|
    ensures Used(t[i := e]) == Used(t) - (if t[i].key != NULL then 1 else 0) + (if e.key != NULL then 1 else 0)
    ensures Tombs(t[i := e]) == Tombs(t) - (if t[i].key == DELETED then 1 else 0) + (if e.key == DELETED then 1 else 0)
  {
    var n := |t| - 1;
    if i < n {
      CountsUpdate(t[..n], i, e);
      assert t[i := e][..n] == t[..n][i := e];
    } else {
      assert t[i := e][..n] == t[..n];
    }
  }

  lemma {:induction false} SomeVacant(t: seq<Entry>) returns (i: nat)
    requires Used(t) < |t|
    ensures i < |t| && t[i].key == NULL
  {
    var n := |t| - 1;
    if t[n].key == NULL {
      i := n;
    } else {
      i := SomeVacant(t[..n]);
    }
  }

  lemma {:induction false} AllVacant(t: seq<Entry>)
    requires forall i :: 0 <= i < |t| ==> t[i] == VACANT
    ensures Used(t) == 0 && Tombs(t) == 0
  {
    if t != [] {
      AllVacant(t[..|t| - 1]);
    }
  }

  // ------------------------------------------------------------------ the invariant of the slots

  // The probes for h before the n-th meet no empty slot.
  ghost predicate ChainTo(t: seq<Entry>, h: nat, n: nat)
    requires |t| > 0
  {
    forall m :: 0 <= m < n ==> t[Probe(h, m, |t|)].key != NULL
  }

  ghost predicate Reachable(t: seq<Entry>, h: nat, i: nat)
    requires |t| > 0
  {
    exists n :: 0 <= n < |t| && Probe(h, n, |t|) == i && ChainTo(t, h, n)
  }

  ghost predicate SlotOk(t: seq<Entry>, hash: Hash, i: nat)
    requires i < |t|
  {
    if t[i].key > DELETED then Reachable(t, hash(t[i].key), i) else t[i].value == 0
  }

  ghost predicate Distinct(t: seq<Entry>) {
    forall i, j :: 0 <= i < j < |t| && t[i].key > DELETED ==> t[i].key != t[j].key
  }

  ghost predicate SlotsOk(t: seq<Entry>, hash: Hash, k: nat) {
    && |t| == Pow2(k) && Distinct(t)
    && (forall i {:trigger SlotOk(t, hash, i)} :: 0 <= i < |t| ==> SlotOk(t, hash, i))
  }

  // ------------------------------------------------------------------ the map

  function Bind(m: map<nat, int>, e: Entry): map<nat, int> {
    if e.key > DELETED then m[e.key := e.value] else m
  }

  function Unbind(m: map<nat, int>, e: Entry): map<nat, int> {
    if e.key > DELETED then m - {e.key} else m
  }

  function Model(t: seq<Entry>): map<nat, int> {
    if t == [] then map[] else Bind(Model(t[..|t| - 1]), t[|t| - 1])
  }

  lemma {:induction false} InModel(t: seq<Entry>, key: nat) returns (i: nat)
    requires key in Model(t)
    ensures i < |t| && t[i].key == key && key > DELETED && Model(t)[key] == t[i].value
  {
    var n := |t| - 1;
    if t[n].key == key && key > DELETED {
      i := n;
    } else {
      i := InModel(t[..n], key);
    }
  }

  lemma OnlyKeys(t: seq<Entry>)
    ensures forall key :: key in Model(t) ==> key > DELETED
  {
    forall key | key in Model(t) ensures key > DELETED {
      var i := InModel(t, key);
    }
  }

  lemma {:induction false} ModelHas(t: seq<Entry>, i: nat)
    requires Distinct(t) && i < |t| && t[i].key > DELETED
    ensures t[i].key in Model(t) && Model(t)[t[i].key] == t[i].value
  {
    var n := |t| - 1;
    if i < n {
      assert Distinct(t[..n]);
      ModelHas(t[..n], i);
    }
  }

  lemma {:induction false} ModelSize(t: seq<Entry>)
    requires Distinct(t)
    ensures |Model(t)| == Used(t) - Tombs(t)
  {
    if t != [] {
      var n := |t| - 1;
      assert Distinct(t[..n]);
      ModelSize(t[..n]);
      if t[n].key in Model(t[..n]) {
        var i := InModel(t[..n], t[n].key);
      }
    }
  }

  lemma BindCommutes(m: map<nat, int>, was: Entry, e: Entry, last: Entry)
    requires last.key > DELETED ==> last.key != was.key && last.key != e.key
    ensures Bind(Bind(Unbind(m, was), e), last) == Bind(Unbind(Bind(m, last), was), e)
  {
  }

  lemma UnbindBound(m: map<nat, int>, was: Entry, e: Entry)
    requires was.key > DELETED ==> was.key !in m
    ensures Bind(Unbind(Bind(m, was), was), e) == Bind(m, e)
  {
    assert Unbind(Bind(m, was), was) == m;
  }

  // Changing one slot changes one binding.
  lemma {:induction false} ModelUpdate(t: seq<Entry>, i: nat, e: Entry)
    requires i < |t| && Distinct(t) && Distinct(t[i := e])
    ensures Model(t[i := e]) == Bind(Unbind(Model(t), t[i]), e)
  {
    var n := |t| - 1;
    var r := t[i := e];
    assert Distinct(t[..n]);
    if i < n {
      assert r[..n] == t[..n][i := e];
      assert Distinct(r[..n]);
      ModelUpdate(t[..n], i, e);
      assert t[n] == r[n] && t[..n][i] == t[i] && r[i] == e;
      BindCommutes(Model(t[..n]), t[i], e, t[n]);
    } else {
      assert r[..n] == t[..n];
      if t[n].key in Model(t[..n]) {
        var j := InModel(t[..n], t[n].key);
      }
      UnbindBound(Model(t[..n]), t[n], e);
    }
  }

  predicate Ends(e: Entry, key: nat) {
    e.key == NULL || e.key == key
  }

  // The search for key goes on past its first n probes.
  ghost predicate Passes(t: seq<Entry>, h: nat, key: nat, n: nat)
    requires |t| > 0
  {
    forall m :: 0 <= m < n ==> !Ends(t[Probe(h, m, |t|)], key)
  }

  // Where the search for a key ends: the slot of the key, or the first empty slot tried.
  ghost predicate EndsAt(t: seq<Entry>, h: nat, key: nat, n: nat)
    requires |t| > 0
  {
    n < |t| && Passes(t, h, key, n) && Ends(t[Probe(h, n, |t|)], key)
  }

  // The first tombstone among the first n probes is the d-th, at del; del is -1 if there is
  // none.
  ghost predicate FirstTomb(t: seq<Entry>, h: nat, n: nat, del: int, d: nat)
    requires |t| > 0
  {
    && (del != -1 ==> d < n && del == Probe(h, d, |t|) && t[del].key == DELETED)
    && (forall m :: 0 <= m < (if del != -1 then d else n) ==> t[Probe(h, m, |t|)].key != DELETED)
  }

  lemma Chained(t: seq<Entry>, hash: Hash, k: nat, key: nat) returns (m: nat)
    requires SlotsOk(t, hash, k) && key in Model(t)
    ensures m < |t| && t[Probe(hash(key), m, |t|)].key == key && ChainTo(t, hash(key), m)
  {
    var i := InModel(t, key);
    assert SlotOk(t, hash, i);
    m :| 0 <= m < |t| && Probe(hash(key), m, |t|) == i && ChainTo(t, hash(key), m);
  }

  // The search finds every key that is there.
  lemma SearchFinds(t: seq<Entry>, hash: Hash, k: nat, key: nat, n: nat)
    requires SlotsOk(t, hash, k) && key > DELETED && EndsAt(t, hash(key), key, n)
    ensures t[Probe(hash(key), n, |t|)].key == key <==> key in Model(t)
    ensures t[Probe(hash(key), n, |t|)].key == key ==> Model(t)[key] == t[Probe(hash(key), n, |t|)].value
  {
    if key in Model(t) {
      var m := Chained(t, hash, k, key);
      assert t[Probe(hash(key), n, |t|)].key == key;
    }
    if t[Probe(hash(key), n, |t|)].key == key {
      ModelHas(t, Probe(hash(key), n, |t|));
    }
  }

  lemma ProbeNext(t: seq<Entry>, h: nat, key: nat, n: nat, del: int, d: nat)
    requires |t| > 0 && Passes(t, h, key, n) && FirstTomb(t, h, n, del, d) && !Ends(t[Probe(h, n, |t|)], key)
    ensures Passes(t, h, key, n + 1)
    ensures var i := Probe(h, n, |t|);
            if del == -1 && t[i].key == DELETED then FirstTomb(t, h, n + 1, i, n) else FirstTomb(t, h, n + 1, del, d)
  {
  }

  // Some slot ends the search, if it is ever tried.
  ghost predicate CanEnd(t: seq<Entry>, key: nat) {
    exists i :: 0 <= i < |t| && Ends(t[i], key)
  }

  // The search ends within a round, or is still going round after any number of probes.
  lemma SearchEnds(t: seq<Entry>, k: nat, h: nat, key: nat)
    requires |t| == Pow2(k)
    ensures if CanEnd(t, key) then !Passes(t, h, key, |t|) else forall n: nat :: Passes(t, h, key, n)
  {
    if CanEnd(t, key) {
      var i :| 0 <= i < |t| && Ends(t[i], key);
      var n := ProbesCover(h, k, i);
    }
  }

  // It can end unless no slot is empty and the key is not there.
  lemma CanEndIff(t: seq<Entry>, key: nat)
    requires Distinct(t) && key != DELETED
    ensures CanEnd(t, key) <==> Used(t) < |t| || key in Model(t)
  {
    if Used(t) < |t| {
      var i := SomeVacant(t);
      assert Ends(t[i], key);
    } else if key in Model(t) {
      var i := InModel(t, key);
      assert Ends(t[i], key);
    } else if CanEnd(t, key) {
      var i :| 0 <= i < |t| && Ends(t[i], key);
      if t[i].key == NULL {
        CountsUpdate(t, i, TOMBSTONE);
      } else {
        ModelHas(t, i);
      }
    }
  }

  // ------------------------------------------------------------------ changing a slot

  // A key that is not there yet goes into a slot that its probes reach and that is empty or
  // a tombstone.
  lemma InsertKeeps(t: seq<Entry>, hash: Hash, k: nat, n: nat, key: nat, value: int)
    requires SlotsOk(t, hash, k) && key > DELETED && key !in Model(t) && n < |t| && ChainTo(t, hash(key), n)
    requires t[Probe(hash(key), n, |t|)].key <= DELETED
    ensures var r := t[Probe(hash(key), n, |t|) := Entry(value, key)];
            SlotsOk(r, hash, k) && Model(r) == Model(t)[key := value]
  {
    var i := Probe(hash(key), n, |t|);
    var r := t[i := Entry(value, key)];
    CountsUpdate(t, i, Entry(value, key));
    forall j | 0 <= j < |r| ensures SlotOk(r, hash, j) {
      assert SlotOk(t, hash, j);
      if j == i {
        assert ChainTo(r, hash(key), n);
      } else if t[j].key > DELETED {
        ChainGrows(t, r, hash(t[j].key), j);
      }
    }
    NotThere(t, key);
    ModelUpdate(t, i, Entry(value, key));
  }

  lemma NotThere(t: seq<Entry>, key: nat)
    requires Distinct(t) && key > DELETED && key !in Model(t)
    ensures forall j :: 0 <= j < |t| ==> t[j].key != key
  {
    forall j | 0 <= j < |t| ensures t[j].key != key {
      if t[j].key > DELETED {
        ModelHas(t, j);
      }
    }
  }

  // Slots that become occupied break no chain.
  lemma ChainGrows(t: seq<Entry>, r: seq<Entry>, h: nat, j: nat)
    requires |t| > 0 && |r| == |t| && Reachable(t, h, j)
    requires forall i :: 0 <= i < |t| && t[i].key != NULL ==> r[i].key != NULL
    ensures Reachable(r, h, j)
  {
    var n :| 0 <= n < |t| && Probe(h, n, |t|) == j && ChainTo(t, h, n);
    assert ChainTo(r, h, n);
  }

  // The value of a key that is there changes.
  lemma UpdateKeeps(t: seq<Entry>, hash: Hash, k: nat, i: nat, value: int)
    requires SlotsOk(t, hash, k) && i < |t| && t[i].key > DELETED
    ensures var r := t[i := Entry(value, t[i].key)];
            SlotsOk(r, hash, k) && Model(r) == Model(t)[t[i].key := value] && Used(r) == Used(t) && Tombs(r) == Tombs(t)
  {
    var r := t[i := Entry(value, t[i].key)];
    CountsUpdate(t, i, r[i]);
    forall j | 0 <= j < |r| ensures SlotOk(r, hash, j) {
      assert SlotOk(t, hash, j);
      if t[j].key > DELETED {
        ChainGrows(t, r, hash(t[j].key), j);
      }
    }
    ModelHas(t, i);
    ModelUpdate(t, i, r[i]);
  }

  // A key is removed: its slot becomes a tombstone.
  lemma RemoveKeeps(t: seq<Entry>, hash: Hash, k: nat, i: nat)
    requires SlotsOk(t, hash, k) && i < |t| && t[i].key > DELETED
    ensures var r := t[i := TOMBSTONE];
            SlotsOk(r, hash, k) && Model(r) == Model(t) - {t[i].key} && Used(r) == Used(t) && Tombs(r) == Tombs(t) + 1
  {
    var r := t[i := TOMBSTONE];
    CountsUpdate(t, i, TOMBSTONE);
    forall j | 0 <= j < |r| ensures SlotOk(r, hash, j) {
      assert SlotOk(t, hash, j);
      if r[j].key > DELETED {
        ChainGrows(t, r, hash(t[j].key), j);
      }
    }
    ModelUpdate(t, i, TOMBSTONE);
  }

  // Slots that are all empty stand for the empty map.
  lemma VacantOk(t: seq<Entry>, hash: Hash, k: nat)
    requires |t| == Pow2(k) && forall i :: 0 <= i < |t| ==> t[i] == VACANT
    ensures SlotsOk(t, hash, k) && Model(t) == map[] && Used(t) == 0 && Tombs(t) == 0
  {
    AllVacant(t);
    if Model(t) != map[] {
      var key :| key in Model(t);
      var i := InModel(t, key);
    }
    forall i | 0 <= i < |t| ensures SlotOk(t, hash, i) {
    }
  }

  // ------------------------------------------------------------------ rehashing

  lemma {:induction false} LiveGrows(t: seq<Entry>, i: nat)
    requires i < |t|
    ensures Used(t[..i]) - Tombs(t[..i]) + (if t[i].key > DELETED then 1 else 0) <= Used(t) - Tombs(t)
    decreases |t|
  {
    var n := |t| - 1;
    if i < n {
      assert t[..n][..i] == t[..i];
      LiveGrows(t[..n], i);
    }
  }

  // ------------------------------------------------------------------ iterating

  // The keys at or before index have been seen, those behind it have not.
  ghost predicate Swept(t: seq<Entry>, index: int, seen: seq<nat>) {
    && Unique(seen)
    && (forall i :: 0 <= i < |t| && t[i].key > DELETED ==> (i <= index <==> t[i].key in seen))
  }

  ghost predicate Buried(t: seq<Entry>, r: seq<Entry>, i: nat) {
    i < |t| && r == t[i := TOMBSTONE]
  }

  // One slot has become a tombstone; a stray one if it was empty.
  ghost predicate Tombed(t: seq<Entry>, r: seq<Entry>) {
    exists i: nat :: Buried(t, r, i)
  }

  ghost predicate Stray(t: seq<Entry>, r: seq<Entry>) {
    exists i: nat :: Buried(t, r, i) && t[i].key == NULL
  }

  // Removing a key without rehashing does not disturb an iterator.
  lemma SweptRemoval(t: seq<Entry>, index: int, seen: seq<nat>, j: nat)
    requires j < |t| && Swept(t, index, seen)
    ensures Swept(t[j := TOMBSTONE], index, seen)
  {
  }

  // ------------------------------------------------------------------ the NULL key

  // put and remove do not look whether the key is NULL.  A value put under it, or its
  // removal, lands in an empty slot: the first spoils what get finds for absent keys, the
  // second makes a tombstone that no count knows of.
  lemma NullKeyBreaks(t: seq<Entry>, hash: Hash, k: nat, i: nat, value: int)
    requires SlotsOk(t, hash, k) && i < |t| && t[i].key == NULL && value != 0
    ensures !SlotsOk(t[i := Entry(value, NULL)], hash, k)
    ensures Used(t[i := TOMBSTONE]) == Used(t) + 1
  {
    CountsUpdate(t, i, TOMBSTONE);
    assert !SlotOk(t[i := Entry(value, NULL)], hash, i);
  }
}
