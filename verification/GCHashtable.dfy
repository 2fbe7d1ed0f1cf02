/**
 GCHashtable with pointer keys (MMgc/GCHashtable.h, MMgc/GCHashtable-inlines.h): open
 addressing with triangular probing, proved to be a finite map.
 */
module PointerTable {
  import opened Powers
  import opened Probing
  import opened HashSlots

  const DEFAULT_SIZE: nat := 16

  class GCHashtable {
    const hash: Hash
    const EMPTY: array<Entry>    // shared by all tables, never written
    var table: array<Entry>
    var tableSize: nat
    var numValues: nat
    var numDeleted: nat
    ghost var shift: nat

    ghost predicate Valid()
      reads this, table, EMPTY
    {
      && table.Length == tableSize == Pow2(shift)
      && EMPTY.Length == 4 && (forall i :: 0 <= i < 4 ==> EMPTY[i] == VACANT)
      && SlotsOk(table[..], hash, shift)
      && (if table == EMPTY then tableSize == 4 && numValues == 4 && numDeleted == 0
          else numValues == Used(table[..]) && numDeleted == Tombs(table[..]) && Loaded())
    }

    // The load test held when the last slot was taken.
    predicate Loaded()
      reads this
    {
      numValues > 0 ==> (numValues - 1) * 4 < tableSize * 3
    }

    // No slot is empty: a search for a key that is not there goes round for ever.
    ghost predicate Full()
      reads this, table
    {
      Used(table[..]) == table.Length
    }

    // Which only a table of one or two slots can be.
    lemma FullIsSmall()
      requires Valid()
      ensures Full() ==> tableSize < 4 && table != EMPTY
    {
      EmptySlotRemains(shift);
      if table == EMPTY {
        AllVacant(table[..]);
      }
    }

    ghost function Map(): map<nat, int>
      reads this, table
    {
      Model(table[..])
    }

    // No keys yet.
    constructor (capacity: nat, hash: Hash, EMPTY: array<Entry>, ghost k: nat)
      requires EMPTY.Length == 4 && forall i :: 0 <= i < 4 ==> EMPTY[i] == VACANT
      requires capacity == 0 || capacity == Pow2(k)
      ensures Valid() && Map() == map[] && this.hash == hash && this.EMPTY == EMPTY
      ensures if capacity == 0 then table == EMPTY else fresh(table) && tableSize == capacity && numDeleted == 0
    {
      this.hash, this.EMPTY := hash, EMPTY;
      if capacity > 0 {
        var t := new Entry[capacity](_ => VACANT);
        VacantOk(t[..], hash, k);
        table, tableSize, numValues, numDeleted, shift := t, capacity, 0, 0, k;
      } else {
        assert Pow2(2) == 4;
        VacantOk(EMPTY[..], hash, 2);
        table, tableSize, numValues, numDeleted, shift := EMPTY, 4, 4, 0, 2;
      }
    }

    method Clear()
      requires Valid()
      modifies this
      ensures Valid() && Map() == map[] && table == EMPTY
    {
      assert Pow2(2) == 4;
      VacantOk(EMPTY[..], hash, 2);
      table, tableSize, numValues, numDeleted, shift := EMPTY, 4, 4, 0, 2;
    }

    // The loop of find, stopped after `limit` steps at the latest; n is how many it takes.  If
    // no slot ends the search it is still going round then, whatever the limit.
    method FindWithin(key: nat, t: array<Entry>, limit: nat, ghost k: nat) returns (ok: bool, i: nat, n: nat)
      requires t.Length == Pow2(k) && key != DELETED
      ensures n <= limit && i == Probe(hash(key), n, t.Length) && (ok <==> Ends(t[i], key)) && (!ok ==> n == limit)
      ensures ok ==> EndsAt(t[..], hash(key), key, n)
      ensures !CanEnd(t[..], key) ==> !ok
      ensures CanEnd(t[..], key) && limit >= t.Length ==> ok
    {
      SearchEnds(t[..], k, hash(key), key);
      n := 0;
      i := hash(key) % t.Length;
      while t[i].key != NULL && t[i].key != key && n < limit
        invariant n <= limit && i == Probe(hash(key), n, t.Length)
        invariant Passes(t[..], hash(key), key, n)
        decreases limit - n
      {
        ProbeStep(hash(key), n, t.Length);
        n := n + 1;
        i := (i + n) % t.Length;
      }
      ok := t[i].key == NULL || t[i].key == key;
    }

    // ok is false exactly if the loop of the code would go round for ever.
    method Find(key: nat, t: array<Entry>, ghost k: nat) returns (ok: bool, i: nat, ghost n: nat)
      requires t.Length == Pow2(k) && key != DELETED && Distinct(t[..])
      ensures ok <==> Used(t[..]) < t.Length || key in Model(t[..])
      ensures ok ==> EndsAt(t[..], hash(key), key, n) && i == Probe(hash(key), n, t.Length)
      ensures ok ==> i < t.Length && (t[i].key == NULL || t[i].key == key)
    {
      CanEndIff(t[..], key);
      ok, i, n := FindWithin(key, t, t.Length, k);
    }

    method Get(key: nat) returns (ok: bool, value: int)
      requires Valid() && key != DELETED
      ensures ok <==> key in Map() || !Full()
      ensures ok ==> value == if key in Map() then Map()[key] else 0
    {
      var i;
      ghost var n;
      value := 0;
      ok, i, n := Find(key, table, shift);
      if ok {
        value := table[i].value;
        ghost var t := table[..];
        assert SlotOk(t, hash, i);
        if key > DELETED {
          SearchFinds(t, hash, shift, key, n);
        } else if key in Map() {
          ghost var j := InModel(t, key);
        }
      }
    }

    // The number of keys, when the table is not the shared empty one.
    method Count() returns (n: int)
      requires Valid()
      ensures n == if table == EMPTY then 4 else |Map()|
    {
      ModelSize(table[..]);
      n := numValues - numDeleted;
    }

    // The size of a new table: more than half full, double; less than a fifth, half.
    function NewSize(occupied: nat, size: nat): nat {
      if 2 * occupied > size then 2 * size
      else if 5 * occupied < size && size > DEFAULT_SIZE then size / 2
      else size
    }

    lemma NewSizeFits(occupied: nat, k: nat) returns (k': nat)
      requires occupied <= Pow2(k)
      ensures NewSize(occupied, Pow2(k)) == Pow2(k') && occupied * 4 < Pow2(k') * 3
      ensures 5 * occupied < Pow2(k) && occupied + 1 < Pow2(k) ==> (occupied + 1) * 4 < Pow2(k') * 3
    {
      assert Pow2(0) == 1 && k > 0 ==> Pow2(k) == 2 * Pow2(k - 1);
      if 2 * occupied > Pow2(k) {
        k' := k + 1;
      } else if 5 * occupied < Pow2(k) && Pow2(k) > DEFAULT_SIZE {
        k' := k - 1;
      } else {
        k' := k;
      }
    }

    // The keys of t go to a new table.
    method Rehash(t: array<Entry>, newTable: array<Entry>, ghost k: nat) returns (n: nat)
      requires Distinct(t[..]) && newTable != t && newTable.Length == Pow2(k)
      requires Used(t[..]) - Tombs(t[..]) < newTable.Length
      requires forall i :: 0 <= i < newTable.Length ==> newTable[i] == VACANT
      modifies newTable
      ensures SlotsOk(newTable[..], hash, k) && Model(newTable[..]) == Model(t[..])
      ensures n == Used(newTable[..]) == Used(t[..]) - Tombs(t[..]) && Tombs(newTable[..]) == 0
    {
      VacantOk(newTable[..], hash, k);
      ghost var old_t := t[..];
      n := 0;
      var i := 0;
      while i < t.Length
        invariant i <= t.Length && t[..] == old_t
        invariant Rehashed(old_t[..i], newTable[..], k) && n == Used(newTable[..])
      {
        LiveGrows(old_t, i);
        OneMoreKey(old_t, i);
        if t[i].key > DELETED {
          MoveKey(t[i], newTable, k);
          n := n + 1;
        }
        i := i + 1;
      }
      assert old_t[..i] == old_t;
    }

    // The keys of t are those of r, which has no tombstones.
    ghost predicate Rehashed(t: seq<Entry>, r: seq<Entry>, k: nat) {
      SlotsOk(r, hash, k) && Model(r) == Model(t) && Used(r) == Used(t) - Tombs(t) && Tombs(r) == 0
    }

    lemma OneMoreKey(t: seq<Entry>, i: nat)
      requires Distinct(t) && i < |t|
      ensures Model(t[..i + 1]) == Bind(Model(t[..i]), t[i])
      ensures Used(t[..i + 1]) - Tombs(t[..i + 1]) == Used(t[..i]) - Tombs(t[..i]) + if t[i].key > DELETED then 1 else 0
      ensures t[i].key !in Model(t[..i])
    {
      assert t[..i + 1][..i] == t[..i];
      if t[i].key in Model(t[..i]) {
        var j := InModel(t[..i], t[i].key);
      }
    }

    method MoveKey(e: Entry, newTable: array<Entry>, ghost k: nat)
      requires SlotsOk(newTable[..], hash, k) && Tombs(newTable[..]) == 0 && Used(newTable[..]) < newTable.Length
      requires e.key > DELETED && e.key !in Model(newTable[..])
      modifies newTable
      ensures SlotsOk(newTable[..], hash, k) && Tombs(newTable[..]) == 0
      ensures Used(newTable[..]) == old(Used(newTable[..])) + 1
      ensures Model(newTable[..]) == old(Model(newTable[..]))[e.key := e.value]
    {
      ghost var was := newTable[..];
      var ok, j;
      ghost var n;
      ok, j, n := Find(e.key, newTable, k);
      NotThere(was, e.key);
      assert ChainTo(was, hash(e.key), n);
      CountsUpdate(was, j, Entry(e.value, e.key));
      InsertKeeps(was, hash, k, n, e.key, e.value);
      newTable[j] := Entry(e.value, e.key);
      assert newTable[..] == was[j := Entry(e.value, e.key)];
    }

    // A new table, of the size the counts call for, has room for the keys.
    ghost predicate Growable()
      reads this, table, EMPTY
    {
      && table.Length == tableSize == Pow2(shift) && Distinct(table[..])
      && EMPTY.Length == 4 && (forall i :: 0 <= i < 4 ==> EMPTY[i] == VACANT)
      && numDeleted <= numValues && numValues - numDeleted <= tableSize
      && (Used(table[..]) - Tombs(table[..])) * 4 < NewSize(numValues - numDeleted, tableSize) * 3
    }

    lemma CanGrow()
      requires Valid()
      ensures Growable()
    {
      var k := NewSizeFits(numValues - numDeleted, shift);
      if table == EMPTY {
        AllVacant(table[..]);
      }
    }

    // granted is false when there is no memory for the new table, which only a removal
    // survives, or the heap is aborting.
    method Grow(isRemoval: bool, granted: bool)
      requires Growable() && (!isRemoval ==> granted)
      modifies this
      ensures Map() == old(Map())
      ensures granted ==> Valid() && fresh(table) && numDeleted == 0 && numValues * 4 < tableSize * 3
      ensures !granted ==> unchanged(this)
    {
      if !granted {
        return;
      }
      var occupied := numValues - numDeleted;
      var newTableSize := NewSize(occupied, tableSize);
      ghost var k := NewSizeFits(occupied, shift);
      var newTable, n := Copied(table, newTableSize, k);
      numValues, numDeleted := n, 0;
      table, tableSize, shift := newTable, newTableSize, k;
    }

    method Copied(t: array<Entry>, size: nat, ghost k: nat) returns (newTable: array<Entry>, n: nat)
      requires Distinct(t[..]) && size == Pow2(k) && Used(t[..]) - Tombs(t[..]) < size
      ensures fresh(newTable) && newTable.Length == size && Rehashed(t[..], newTable[..], k) && n == Used(newTable[..])
    {
      newTable := new Entry[size](_ => VACANT);
      n := Rehash(t, newTable, k);
    }

    // The slot of the key or else the first empty slot, and the first tombstone passed.  ok
    // is false exactly if the loop of the code would go round for ever.
    method FindForPut(key: nat) returns (ok: bool, i: nat, del: int, n: nat, ghost d: nat)
      requires Valid() && key != DELETED
      ensures ok <==> key in Map() || !Full()
      ensures ok ==> EndsAt(table[..], hash(key), key, n) && i == Probe(hash(key), n, tableSize)
      ensures FirstTomb(table[..], hash(key), n, del, d)
    {
      ghost var t := table[..];
      CanEndIff(t, key);
      SearchEnds(t, shift, hash(key), key);
      del, n, d := -1, 0, 0;
      i := hash(key) % tableSize;
      while table[i].key != NULL && table[i].key != key && n < tableSize
        invariant n <= tableSize && i == Probe(hash(key), n, tableSize)
        invariant Passes(t, hash(key), key, n) && FirstTomb(t, hash(key), n, del, d)
        decreases tableSize - n
      {
        ProbeNext(t, hash(key), key, n, del, d);
        if table[i].key == DELETED && del == -1 {
          del, d := i, n;
        }
        ProbeStep(hash(key), n, tableSize);
        n := n + 1;
        i := (i + n) % tableSize;
      }
      ok := table[i].key == NULL || table[i].key == key;
    }

    // ok is false, and nothing changes, where the search in a full table does not end.  A value
    // put under NULL lands in a slot that counts as empty, and numValues is wrong from then on.
    method Put(key: nat, value: int) returns (ok: bool)
      requires Valid() && key != DELETED
      modifies this, if table == EMPTY then {} else {table}
      ensures ok <==> old(key in Map() || !Full())
      ensures !ok ==> unchanged(this) && table[..] == old(table[..])
      ensures ok && key != NULL ==> Valid() && Map() == old(Map())[key := value]
      ensures ok && key == NULL ==> Spoiled(value) && Map() == old(Map())
      ensures table == old(table) || fresh(table)
      ensures old(numValues * 4 < tableSize * 3) ==>
                table == old(table) && tableSize == old(tableSize) && numDeleted <= old(numDeleted)
    {
      var i, del, n;
      ghost var d;
      ok, i, del, n, d := FindForPut(key);
      if ok && key == NULL {
        PutNull(i, del, value, n);
      } else if ok {
        PutAt(i, del, key, value, n, d);
      }
    }

    // A value is in a slot without a key, and numValues counts a key that is not there.
    ghost predicate Spoiled(value: int)
      reads this, table
    {
      numValues > Used(table[..]) && table != EMPTY && exists i :: 0 <= i < table.Length && table[i] == Entry(value, NULL)
    }

    // What Put does with NULL: it takes the empty slot the search has found for the key's.
    method PutNull(first: nat, del: int, value: int, ghost n: nat)
      requires Valid() && EndsAt(table[..], hash(NULL), NULL, n) && first == Probe(hash(NULL), n, tableSize)
      requires del != -1 ==> 0 <= del < tableSize && table[del].key == DELETED
      modifies this, if table == EMPTY then {} else {table}
      ensures Spoiled(value) && Map() == old(Map())
      ensures table == old(table) || fresh(table)
      ensures old(numValues * 4 < tableSize * 3) ==>
                table == old(table) && tableSize == old(tableSize) && numDeleted <= old(numDeleted)
    {
      if del != -1 {
        PutNullOver(del, value);
      } else {
        PutNullIn(first, value, n);
      }
    }

    method PutNullOver(del: nat, value: int)
      requires Valid() && del < tableSize && table[del].key == DELETED
      modifies this`numDeleted, table
      ensures Spoiled(value) && Map() == old(Map()) && numDeleted == old(numDeleted) - 1
    {
      CountsUpdate(table[..], del, VACANT);
      numDeleted := numDeleted - 1;
      WriteNull(del, value);
    }

    method PutNullIn(first: nat, value: int, ghost n0: nat)
      requires Valid() && EndsAt(table[..], hash(NULL), NULL, n0) && first == Probe(hash(NULL), n0, tableSize)
      modifies this, if table == EMPTY then {} else {table}
      ensures Spoiled(value) && Map() == old(Map())
      ensures table == old(table) || fresh(table)
      ensures old(numValues * 4 < tableSize * 3) ==>
                table == old(table) && tableSize == old(tableSize) && numDeleted == old(numDeleted)
    {
      OnlyKeys(table[..]);
      var i;
      ghost var n;
      i, n := MakeRoom(first, NULL, n0);
      numValues := numValues + 1;
      WriteNull(i, value);
    }

    method WriteNull(i: nat, value: int)
      requires table != EMPTY && i < table.Length && table[i].key <= DELETED && Distinct(table[..])
      requires numValues > Used(table[..]) - if table[i].key != NULL then 1 else 0
      modifies table
      ensures Spoiled(value) && Map() == old(Map())
    {
      ghost var t := table[..];
      NoKeyThere(t, i, Entry(value, NULL));
      table[i] := Entry(value, NULL);
      assert table[..] == t[i := Entry(value, NULL)];
    }

    // An entry without a key for another one.
    lemma NoKeyThere(t: seq<Entry>, i: nat, e: Entry)
      requires Distinct(t) && i < |t| && t[i].key <= DELETED && e.key <= DELETED
      ensures Distinct(t[i := e]) && Model(t[i := e]) == Model(t)
      ensures Used(t[i := e]) == Used(t) - (if t[i].key != NULL then 1 else 0) + (if e.key != NULL then 1 else 0)
      ensures Tombs(t[i := e]) == Tombs(t) - (if t[i].key == DELETED then 1 else 0) + (if e.key == DELETED then 1 else 0)
    {
      CountsUpdate(t, i, e);
      ModelUpdate(t, i, e);
    }

    method PutAt(i: nat, del: int, key: nat, value: int, ghost n: nat, ghost d: nat)
      requires Valid() && key > DELETED && EndsAt(table[..], hash(key), key, n) && i == Probe(hash(key), n, tableSize)
      requires FirstTomb(table[..], hash(key), n, del, d)
      modifies this, if table == EMPTY then {} else {table}
      ensures Valid() && Map() == old(Map())[key := value]
      ensures table == old(table) || fresh(table)
      ensures old(numValues * 4 < tableSize * 3) ==>
                table == old(table) && tableSize == old(tableSize) && numDeleted <= old(numDeleted)
    {
      SearchFinds(table[..], hash, shift, key, n);
      if table[i].key == NULL {
        if del != -1 {
          ReuseTombstone(del, key, value, d);
        } else {
          AddKey(i, key, value, n);
        }
      } else {
        Overwrite(i, key, value);
      }
    }

    method Overwrite(i: nat, key: nat, value: int)
      requires Valid() && key > DELETED && i < tableSize && table[i].key == key
      modifies table
      ensures Valid() && Map() == old(Map())[key := value]
    {
      ghost var t := table[..];
      UpdateKeeps(t, hash, shift, i, value);
      table[i] := Entry(value, key);
      assert table[..] == t[i := Entry(value, key)];
    }

    method ReuseTombstone(del: nat, key: nat, value: int, ghost d: nat)
      requires Valid() && key > DELETED && key !in Map() && d < tableSize && ChainTo(table[..], hash(key), d)
      requires del == Probe(hash(key), d, tableSize) && table[del].key == DELETED
      modifies this`numDeleted, table
      ensures Valid() && Map() == old(Map())[key := value] && numDeleted == old(numDeleted) - 1
    {
      ghost var t := table[..];
      InsertKeeps(t, hash, shift, d, key, value);
      CountsUpdate(t, del, Entry(value, key));
      numDeleted := numDeleted - 1;
      table[del] := Entry(value, key);
      assert table[..] == t[del := Entry(value, key)];
    }

    method AddKey(first: nat, key: nat, value: int, ghost n0: nat)
      requires Valid() && key > DELETED && key !in Map() && EndsAt(table[..], hash(key), key, n0)
      requires first == Probe(hash(key), n0, tableSize) && table[first].key == NULL
      modifies this, if table == EMPTY then {} else {table}
      ensures Valid() && Map() == old(Map())[key := value]
      ensures table == old(table) || fresh(table)
      ensures old(numValues * 4 < tableSize * 3) ==>
                table == old(table) && tableSize == old(tableSize) && numDeleted == old(numDeleted)
    {
      var i;
      ghost var n;
      i, n := MakeRoom(first, key, n0);
      FillSlot(i, key, value, n);
    }

    // The load test, before one more slot is taken.
    method MakeRoom(first: nat, key: nat, ghost n0: nat) returns (i: nat, ghost n: nat)
      requires Valid() && key != DELETED && key !in Map() && EndsAt(table[..], hash(key), key, n0)
      requires first == Probe(hash(key), n0, tableSize) && table[first].key == NULL
      modifies this
      ensures Valid() && Map() == old(Map()) && table != EMPTY && numValues * 4 < tableSize * 3
      ensures EndsAt(table[..], hash(key), key, n) && i == Probe(hash(key), n, tableSize) && table[i].key == NULL
      ensures if old(numValues * 4 < tableSize * 3) then unchanged(this) else fresh(table)
    {
      i, n := first, n0;
      if numValues * 4 >= tableSize * 3 {
        i, n := GrowAndFind(key);
      }
    }

    method GrowAndFind(key: nat) returns (i: nat, ghost n: nat)
      requires Valid() && key != DELETED && key !in Map()
      modifies this
      ensures Valid() && Map() == old(Map()) && fresh(table) && table != EMPTY && numValues * 4 < tableSize * 3
      ensures EndsAt(table[..], hash(key), key, n) && i == Probe(hash(key), n, tableSize) && table[i].key == NULL
    {
      CanGrow();
      Grow(false, true);
      var ok;
      ok, i, n := Find(key, table, shift);
      if key != NULL {
        NotThere(table[..], key);
      }
    }

    method FillSlot(i: nat, key: nat, value: int, ghost n: nat)
      requires Valid() && table != EMPTY && key > DELETED && key !in Map() && EndsAt(table[..], hash(key), key, n)
      requires i == Probe(hash(key), n, tableSize) && table[i].key == NULL
      requires numValues * 4 < tableSize * 3
      modifies this`numValues, table
      ensures Valid() && Map() == old(Map())[key := value]
    {
      ghost var t := table[..];
      assert ChainTo(t, hash(key), n);
      InsertKeeps(t, hash, shift, n, key, value);
      CountsUpdate(t, i, Entry(value, key));
      numValues := numValues + 1;
      table[i] := Entry(value, key);
      assert table[..] == t[i := Entry(value, key)];
    }

    // ok is false, and nothing changes, where the search in a full table does not end.  To
    // remove NULL puts a tombstone that no count knows of into an empty slot, be it one of
    // EMPTY; a rehash sets this right.
    method Remove(key: nat, allowRehash: bool, granted: bool) returns (ok: bool, value: int)
      requires Valid() && key != DELETED
      modifies this, if table == EMPTY && key != NULL then {} else {table}
      ensures ok <==> old(key in Map() || !Full())
      ensures Map() == old(Map()) - {key} && value == if key in old(Map()) then old(Map())[key] else 0
      ensures !ok ==> unchanged(this) && table[..] == old(table[..])
      ensures ok && key != NULL ==> Valid()
      ensures ok && key == NULL ==> if table == old(table) then !Valid() && Stray(old(table[..]), table[..]) else Valid()
      ensures table == old(table) || fresh(table)
      ensures !allowRehash ==> table == old(table) && (table[..] == old(table[..]) || Tombed(old(table[..]), table[..]))
    {
      value := 0;
      var i;
      ghost var n;
      ok, i, n := Find(key, table, shift);
      Absent(Map(), key);
      if ok {
        value := RemoveFound(i, key, allowRehash, granted, n);
      }
    }

    lemma Absent(m: map<nat, int>, key: nat)
      ensures key !in m ==> m - {key} == m
    {
    }

    method RemoveFound(i: nat, key: nat, allowRehash: bool, granted: bool, ghost n: nat) returns (value: int)
      requires Valid() && key != DELETED && EndsAt(table[..], hash(key), key, n) && i == Probe(hash(key), n, tableSize)
      modifies this, if table == EMPTY && key != NULL then {} else {table}
      ensures Map() == old(Map()) - {key} && value == if key in old(Map()) then old(Map())[key] else 0
      ensures if key == NULL && table == old(table) then !Valid() && Stray(old(table[..]), table[..]) else Valid()
      ensures table == old(table) || fresh(table)
      ensures !allowRehash ==> table == old(table) && (table[..] == old(table[..]) || Tombed(old(table[..]), table[..]))
    {
      value := 0;
      Absent(Map(), key);
      if key == NULL {
        OnlyKeys(table[..]);
        assert SlotOk(table[..], hash, i);
        value := table[i].value;
        RemoveNull(i, allowRehash, granted);
      } else {
        SearchFinds(table[..], hash, shift, key, n);
        if table[i].key == key {
          value := table[i].value;
          RemoveAt(i, allowRehash, granted);
        }
      }
    }

    method RemoveAt(i: nat, allowRehash: bool, granted: bool)
      requires Valid() && i < tableSize && table[i].key > DELETED
      modifies this, table
      ensures Valid() && Map() == old(Map()) - {old(table[i].key)}
      ensures if allowRehash then table == old(table) || fresh(table) else table == old(table) && Tombed(old(table[..]), table[..])
    {
      ghost var t := table[..];
      Bury(i);
      assert Buried(t, table[..], i);
      if allowRehash && (numValues - numDeleted) * 5 < tableSize {
        CanGrow();
        Grow(true, granted);
      }
    }

    // numValues - numDeleted is unsigned: below 0 it is no small number.
    method RemoveNull(i: nat, allowRehash: bool, granted: bool)
      requires Valid() && i < tableSize && table[i].key == NULL
      modifies this, table
      ensures Map() == old(Map())
      ensures if table == old(table) then !Valid() && Stray(old(table[..]), table[..]) else Valid() && allowRehash && fresh(table)
    {
      ghost var t := table[..];
      assert SlotOk(t, hash, i);
      NoKeyThere(t, i, TOMBSTONE);
      table[i] := TOMBSTONE;
      numDeleted := numDeleted + 1;
      assert table[..] == t[i := TOMBSTONE];
      assert Buried(t, table[..], i);
      if allowRehash && numValues >= numDeleted && (numValues - numDeleted) * 5 < tableSize {
        ghost var k := NewSizeFits(numValues - numDeleted, shift);
        Grow(true, granted);
      }
    }

    method Bury(i: nat)
      requires Valid() && i < tableSize && table[i].key > DELETED
      modifies this`numDeleted, table
      ensures Valid() && Map() == old(Map()) - {old(table[i].key)} && table[..] == old(table[..])[i := TOMBSTONE]
    {
      ghost var t := table[..];
      RemoveKeeps(t, hash, shift, i);
      table[i] := Entry(table[i].value, DELETED);
      table[i] := Entry(0, table[i].key);
      numDeleted := numDeleted + 1;
      assert table[..] == t[i := TOMBSTONE];
    }

    // After many removals without rehashing.
    method Prune(granted: bool)
      requires Valid()
      modifies this
      ensures Valid() && Map() == old(Map()) && (table == old(table) || fresh(table))
    {
      if (numValues - numDeleted) * 5 < tableSize {
        CanGrow();
        Grow(true, granted);
      }
    }

    // The index after the first key at or behind this one, 0 if there is none.
    method NextIndex(index: nat) returns (next: nat)
      requires Valid()
      ensures next == 0 ==> forall i :: index <= i < tableSize ==> table[i].key <= DELETED
      ensures next != 0 ==> index < next <= tableSize && table[next - 1].key > DELETED
      ensures next != 0 ==> forall i :: index <= i < next - 1 ==> table[i].key <= DELETED
    {
      var k := index;
      while k < tableSize
        invariant k >= index && forall i :: index <= i < k && i < tableSize ==> table[i].key <= DELETED
      {
        if table[k].key > DELETED {
          return k + 1;
        }
        k := k + 1;
      }
      next := 0;
    }
  }

  // A new key goes into a table of one or two slots that is not full.
  method PutNew(ht: GCHashtable, key: nat)
    requires ht.Valid() && ht.table != ht.EMPTY && key > DELETED && key !in ht.Map() && ht.numDeleted == 0
    requires |ht.Map()| < ht.tableSize < 3
    modifies ht, ht.table
    ensures ht.Valid() && ht.table == old(ht.table) && ht.tableSize == old(ht.tableSize) && ht.numDeleted == 0
    ensures ht.Map() == old(ht.Map())[key := 1]
  {
    ModelSize(ht.table[..]);
    var ok := ht.Put(key, 1);
  }

  // A table made for one or two keys takes that many, and then a search for any other key is
  // still going round after any number of steps.
  method FillUp(EMPTY: array<Entry>, hash: Hash, two: bool, key: nat, other: nat, absent: nat, limit: nat)
    returns (ht: GCHashtable, ended: bool)
    requires EMPTY.Length == 4 && forall i :: 0 <= i < 4 ==> EMPTY[i] == VACANT
    requires key > DELETED && other > DELETED && absent > DELETED && key != other && absent != key && absent != other
    ensures ht.Valid() && ht.Full() && !ended
    ensures ht.Map() == if two then map[key := 1, other := 1] else map[key := 1]
  {
    assert Pow2(0) == 1 && Pow2(1) == 2;
    ht := new GCHashtable(if two then 2 else 1, hash, EMPTY, if two then 1 else 0);
    PutNew(ht, key);
    if two {
      PutNew(ht, other);
    }
    ModelSize(ht.table[..]);
    CanEndIff(ht.table[..], absent);
    var slot, n;
    ended, slot, n := ht.FindWithin(absent, ht.table, limit, ht.shift);
  }

  class Iterator {
    const ht: GCHashtable
    var index: int
    ghost var seen: seq<nat>    // the keys it has given so far

    ghost predicate Valid()
      reads this, ht, ht.table, ht.EMPTY
    {
      ht.Valid() && index >= -1 && HashSlots.Swept(ht.table[..], index, seen)
    }

    constructor (ht: GCHashtable)
      requires ht.Valid()
      ensures Valid() && this.ht == ht && seen == []
    {
      this.ht, index, seen := ht, -1, [];
    }

    // Another key of the table, or NULL when all that are there have been given.
    method NextKey() returns (key: nat)
      requires Valid()
      modifies this
      ensures Valid()
      ensures key != NULL ==> key in ht.Map() && key !in old(seen) && seen == old(seen) + [key]
      ensures key == NULL ==> seen == old(seen) && forall k :: k in ht.Map() ==> k in seen
    {
      ghost var t := ht.table[..];
      index := index + 1;
      while index < ht.tableSize && ht.table[index].key <= DELETED
        invariant index >= 0 && HashSlots.Swept(t, index - 1, seen) && seen == old(seen)
        decreases ht.tableSize - index
      {
        index := index + 1;
      }
      if index < ht.tableSize {
        key := ht.table[index].key;
        ModelHas(t, index);
        PushKey(t, index, seen);
        seen := seen + [key];
      } else {
        key := NULL;
        forall k | k in ht.Map() ensures k in seen {
          var i := InModel(t, k);
        }
      }
    }

    lemma PushKey(t: seq<Entry>, i: nat, seen: seq<nat>)
      requires i < |t| && t[i].key > DELETED && Distinct(t) && HashSlots.Swept(t, i - 1, seen)
      ensures t[i].key !in seen && HashSlots.Swept(t, i, seen + [t[i].key])
    {
    }

    // A key may be removed meanwhile, if the table is not rehashed.
    method RemoveMeanwhile(key: nat) returns (ok: bool, value: int)
      requires Valid() && key != DELETED
      modifies ht, if ht.table == ht.EMPTY && key != NULL then {} else {ht.table}
      ensures HashSlots.Swept(ht.table[..], index, seen) && (key != NULL || !ok ==> Valid())
      ensures ht.Map() == old(ht.Map()) - {key} && seen == old(seen)
    {
      ghost var t := ht.table[..];
      ok, value := ht.Remove(key, false, false);
      if ht.table[..] != t {
        ghost var i: nat :| Buried(t, ht.table[..], i);
        SweptRemoval(t, index, seen, i);
      }
    }
  }
}
