/**
 The open-addressing hash table of src/HashTable.hpp holds exactly the records inserted into it. Table sizes are powers
 of two and indices are masked with size - 1. A slot whose hash is 0 is empty. Inserting a key again adds a second
 record, as in the source.
 */
module HashTables {
  import opened Options
  import opened Arithmetic
  import opened Bits

  datatype Slot<T> = Slot(hash: nat, key: string, payload: T)
  datatype Record<T> = Record(key: string, payload: T)

  predicate Full<T>(slot: Slot<T>)
  {
    slot.hash != 0
  }

  /* ---- Probing ---- */

  // The k-th slot probed from `start` in a table of n slots.
  function Nth(n: nat, start: nat, k: nat): (i: nat)
    requires start < n && k < n
    ensures i < n
  {
    if start + k < n then start + k else start + k - n
  }

  // When slot i is probed.
  function Distance(n: nat, start: nat, i: nat): (k: nat)
    requires start < n && i < n
    ensures k < n && Nth(n, start, k) == i
  {
    if start <= i then i - start else i + n - start
  }

  function Home(hash: nat, n: nat): (i: nat)
    requires n > 0
    ensures i < n
  {
    hash % n
  }

  // The first k slots probed from `start` are full.
  ghost predicate FullRun<T>(s: seq<Slot<T>>, start: nat, k: nat)
    requires start < |s| && k <= |s|
  {
    forall j: nat :: j < k ==> Full(s[Nth(|s|, start, j)])
  }

  // No empty slot lies between a record and its home.
  ghost predicate Reachable<T>(s: seq<Slot<T>>)
  {
    forall i: nat :: i < |s| && Full(s[i]) ==>
      FullRun(s, Home(s[i].hash, |s|), Distance(|s|, Home(s[i].hash, |s|), i))
  }

  ghost predicate Hashed<T>(s: seq<Slot<T>>, hash: string -> nat)
  {
    forall i :: 0 <= i < |s| && Full(s[i]) ==> s[i].hash == hash(s[i].key)
  }

  ghost function RecordIn<T>(slot: Slot<T>): multiset<Record<T>>
  {
    if Full(slot) then multiset{Record(slot.key, slot.payload)} else multiset{}
  }

  // The records in the full slots.
  ghost function Records<T>(s: seq<Slot<T>>): (r: multiset<Record<T>>)
    ensures |r| <= |s|
  {
    if s == [] then multiset{}
    else Records(s[..|s| - 1]) + RecordIn(s[|s| - 1])
  }

  ghost predicate TableOk<T>(s: seq<Slot<T>>, hash: string -> nat, contents: multiset<Record<T>>)
  {
    Reachable(s) && Hashed(s, hash) && Records(s) == contents
  }

  ghost predicate HasKey<T>(contents: multiset<Record<T>>, key: string)
  {
    exists r :: r in contents && r.key == key
  }

  lemma {:induction false} Swap<R>(a: multiset<R>, b: multiset<R>, c: multiset<R>)
    ensures (a + b) + c == (a + c) + b
  {
  }

  lemma {:induction false} RecordsFill<T>(s: seq<Slot<T>>, i: nat, slot: Slot<T>)
    requires i < |s| && !Full(s[i]) && Full(slot)
    ensures Records(s[i := slot]) == Records(s) + RecordIn(slot)
  {
    var n, s' := |s| - 1, s[i := slot];
    if i == n {
      assert s'[..n] == s[..n];
    } else {
      assert s'[..n] == s[..n][i := slot] && s'[n] == s[n];
      RecordsFill(s[..n], i, slot);
      Swap(Records(s[..n]), RecordIn(slot), RecordIn(s[n]));
    }
  }

  lemma {:induction false} RecordOf<T>(s: seq<Slot<T>>, i: nat)
    requires i < |s| && Full(s[i])
    ensures Record(s[i].key, s[i].payload) in Records(s)
  {
    var n := |s| - 1;
    if i < n {
      assert s[..n][i] == s[i];
      RecordOf(s[..n], i);
    }
  }

  lemma {:induction false} SlotOf<T>(s: seq<Slot<T>>, r: Record<T>) returns (i: nat)
    requires r in Records(s)
    ensures i < |s| && Full(s[i]) && s[i].key == r.key && s[i].payload == r.payload
  {
    var n := |s| - 1;
    if r in Records(s[..n]) {
      i := SlotOf(s[..n], r);
    } else {
      i := n;
    }
  }

  lemma {:induction false} EmptySlot<T>(s: seq<Slot<T>>) returns (i: nat)
    requires |Records(s)| < |s|
    ensures i < |s| && !Full(s[i])
  {
    var n := |s| - 1;
    if Full(s[n]) {
      i := EmptySlot(s[..n]);
    } else {
      i := n;
    }
  }

  lemma {:induction false} NoRecords<T>(s: seq<Slot<T>>)
    requires forall i :: 0 <= i < |s| ==> !Full(s[i])
    ensures Records(s) == multiset{}
  {
    if s != [] {
      NoRecords(s[..|s| - 1]);
    }
  }

  // A probe that meets an empty slot has seen every record that could match.
  lemma {:induction false} MissIsAbsent<T>(
    s: seq<Slot<T>>, hash: string -> nat, contents: multiset<Record<T>>, key: string, k: nat)
    requires TableOk(s, hash, contents) && k < |s|
    requires !Full(s[Nth(|s|, Home(hash(key), |s|), k)])
    requires forall j: nat :: j < k ==> s[Nth(|s|, Home(hash(key), |s|), j)].key != key
    ensures !HasKey(contents, key)
  {
    forall r | r in contents ensures r.key != key {
      var i := SlotOf(s, r);
      var home := Home(s[i].hash, |s|);
      var d := Distance(|s|, home, i);
      assert FullRun(s, home, d) && Nth(|s|, home, d) == i;
    }
  }

  // Filling the first empty slot of a key's probe sequence adds the record.
  lemma {:induction false} FillAdds<T>(
    s: seq<Slot<T>>, hash: string -> nat, contents: multiset<Record<T>>, key: string, payload: T, k: nat)
    requires TableOk(s, hash, contents) && hash(key) != 0 && k < |s|
    requires FullRun(s, Home(hash(key), |s|), k) && !Full(s[Nth(|s|, Home(hash(key), |s|), k)])
    ensures TableOk(s[Nth(|s|, Home(hash(key), |s|), k) := Slot(hash(key), key, payload)], hash,
                    contents + multiset{Record(key, payload)})
  {
    var at, slot := Nth(|s|, Home(hash(key), |s|), k), Slot(hash(key), key, payload);
    FillReachable(s, at, slot, k);
    RecordsFill(s, at, slot);
  }

  lemma {:induction false} FillReachable<T>(s: seq<Slot<T>>, at: nat, slot: Slot<T>, k: nat)
    requires Reachable(s) && at < |s| && k < |s| && Full(slot) && !Full(s[at])
    requires at == Nth(|s|, Home(slot.hash, |s|), k) && FullRun(s, Home(slot.hash, |s|), k)
    ensures Reachable(s[at := slot])
  {
    var s' := s[at := slot];
    forall i: nat | i < |s'| && Full(s'[i])
      ensures FullRun(s', Home(s'[i].hash, |s|), Distance(|s|, Home(s'[i].hash, |s|), i))
    {
      var home := Home(s'[i].hash, |s|);
      var d := Distance(|s|, home, i);
      if i == at {
        assert d == k;
      }
      assert FullRun(s, home, d);
      forall j: nat | j < d ensures Full(s'[Nth(|s|, home, j)]) {
        assert Full(s[Nth(|s|, home, j)]);
      }
    }
  }

  /* ---- The load factor ---- */

  // load > 0x50 in HashTableBaseInsert
  predicate Overloaded(count: nat, shift: nat)
  {
    0x100 * (count + 1) / Pow2(shift) > 0x50
  }

  // A table that need not grow has room for one more record and an empty slot beside it.
  lemma {:induction false} LoadLeavesRoom(count: nat, shift: nat)
    requires !Overloaded(count, shift)
    ensures count + 1 < Pow2(shift)
  {
    QuotientAtMost(0x100 * (count + 1), Pow2(shift), 0x50);
  }

  lemma {:induction false} SizeGrows(shift: nat, shift': nat)
    requires shift' == if shift + 2 > 7 then shift + 2 else 7
    ensures Pow2(shift') >= Pow2(shift) + 2 && Pow2(shift') >= 2
  {
    if shift + 2 > 7 {
      assert Pow2(shift + 2) == 2 * Pow2(shift + 1) == 4 * Pow2(shift);
    } else {
      Pow2Monotone(shift, 5);
      assert Pow2(7) == 2 * Pow2(6) == 4 * Pow2(5);
    }
  }

  /* ---- Growing ---- */

  // The probe loop shared by insertion and growth: the first empty slot from the key's home on.
  method FindEmpty<T>(slots: array<Slot<T>>, h: nat, ghost shift: nat) returns (index: nat, ghost k: nat)
    requires slots.Length == Pow2(shift) && |Records(slots[..])| < slots.Length
    ensures index < slots.Length && k < slots.Length && !Full(slots[index])
    ensures index == Nth(slots.Length, Home(h, slots.Length), k) && FullRun(slots[..], Home(h, slots.Length), k)
  {
    var n := slots.Length;
    ghost var s := slots[..];
    ghost var home := Home(h, n);
    ghost var empty := EmptySlot(s);
    MaskIsRemainder(h, shift);
    index, k := And(h, n - 1), 0;
    while slots[index].hash != 0
      invariant k <= Distance(n, home, empty) && index == Nth(n, home, k)
      invariant FullRun(s, home, k)
      decreases n - k
    {
      MaskedIncrement(index, shift);
      index := And(index + 1, n - 1);
      k := k + 1;
    }
  }

  // The probe loop of a lookup: the key, or the empty slot that ends its probe sequence.
  method FindKey<T>(slots: array<Slot<T>>, h: nat, key: string, ghost shift: nat) returns (r: Option<nat>, ghost k: nat)
    requires slots.Length == Pow2(shift) && |Records(slots[..])| < slots.Length && h != 0
    requires forall i :: 0 <= i < slots.Length && slots[i].key == key && Full(slots[i]) ==> slots[i].hash == h
    ensures r.Some? ==> r.value < slots.Length && Full(slots[r.value]) && slots[r.value].key == key
    ensures r.None? ==>
              && k < slots.Length && !Full(slots[Nth(slots.Length, Home(h, slots.Length), k)])
              && forall j: nat :: j < k ==> slots[Nth(slots.Length, Home(h, slots.Length), j)].key != key
  {
    var n := slots.Length;
    ghost var home := Home(h, n);
    ghost var empty := EmptySlot(slots[..]);
    MaskIsRemainder(h, shift);
    var index := And(h, n - 1);
    k := 0;
    while slots[index].hash != 0
      invariant k <= Distance(n, home, empty) && index == Nth(n, home, k)
      invariant forall j: nat :: j < k ==> slots[Nth(n, home, j)].key != key
      decreases n - k
    {
      if slots[index].hash == h && slots[index].key == key {
        return Some(index), k;
      }
      MaskedIncrement(index, shift);
      index := And(index + 1, n - 1);
      k := k + 1;
    }
    return None, k;
  }

  // One record of the old table moves to the new one.
  method Place<T>(grown: array<Slot<T>>, slot: Slot<T>, ghost shift: nat, ghost hash: string -> nat,
                  ghost contents: multiset<Record<T>>)
    requires grown.Length == Pow2(shift) && TableOk(grown[..], hash, contents) && |contents| < grown.Length
    requires Full(slot) && slot.hash == hash(slot.key)
    modifies grown
    ensures TableOk(grown[..], hash, contents + multiset{Record(slot.key, slot.payload)})
  {
    var index, k := FindEmpty(grown, slot.hash, shift);
    ghost var before := grown[..];
    FillAdds(before, hash, contents, slot.key, slot.payload, k);
    grown[index] := slot;
    assert grown[..] == before[index := slot];
  }

  // HashTableGrow: every record moves to a table of the new size; nothing is lost or duplicated.
  method Rehash<T>(slots: array<Slot<T>>, ghost shift: nat, newSize: nat, zero: T, hash: string -> nat,
                   ghost contents: multiset<Record<T>>)
    returns (grown: array<Slot<T>>)
    requires TableOk(slots[..], hash, contents) && slots.Length < newSize == Pow2(shift)
    requires forall key :: hash(key) != 0
    ensures fresh(grown) && grown.Length == newSize && TableOk(grown[..], hash, contents)
  {
    ghost var s := slots[..];
    grown := new Slot<T>[newSize](_ => Slot(0, "", zero));
    NoRecords(grown[..]);
    for i := 0 to slots.Length
      invariant grown.Length == newSize && fresh(grown) && slots[..] == s
      invariant TableOk(grown[..], hash, Records(s[..i]))
    {
      assert s[..i + 1][..i] == s[..i];
      if Full(slots[i]) {
        Place(grown, slots[i], shift, hash, Records(s[..i]));
      }
    }
    assert s[..|s|] == s;
  }

  /* ---- The table ---- */

  class HashTable<T> {
    var slots: array<Slot<T>>
    var shift: nat
    var count: nat
    const hash: string -> nat
    const zero: T
    ghost var contents: multiset<Record<T>>

    ghost predicate Valid()
      reads this, slots
    {
      && TableOk(slots[..], hash, contents) && |contents| == count
      && (if shift == 0 then slots.Length == 0 else slots.Length == Pow2(shift) && count < slots.Length)
      && (forall key :: hash(key) != 0)
    }

    constructor (hash: string -> nat, zero: T)
      requires forall key :: hash(key) != 0
      ensures Valid() && contents == multiset{} && this.hash == hash && fresh(slots)
    {
      this.hash, this.zero := hash, zero;
      slots := new Slot<T>[0];
      shift, count, contents := 0, 0, multiset{};
    }

    // HashTableBaseLookup: exactly the inserted keys are found, with a payload inserted under that key.
    method Lookup(key: string) returns (r: Option<nat>)
      requires Valid()
      ensures r.Some? <==> HasKey(contents, key)
      ensures r.Some? ==> r.value < slots.Length && slots[r.value].key == key
                          && Record(key, slots[r.value].payload) in contents
    {
      if slots.Length == 0 {
        return None;
      }
      ghost var k;
      r, k := FindKey(slots, hash(key), key, shift);
      if r.Some? {
        RecordOf(slots[..], r.value);
      } else {
        MissIsAbsent(slots[..], hash, contents, key, k);
      }
    }

    method Grow()
      requires Valid()
      modifies this`slots, this`shift
      ensures Valid() && contents == old(contents) && count == old(count) && fresh(slots)
      ensures shift > 0 && count + 1 < slots.Length
    {
      var shift' := if shift + 2 > 7 then shift + 2 else 7;
      SizeGrows(shift, shift');
      slots := Rehash(slots, shift', Pow2(shift'), zero, hash, contents);
      shift := shift';
    }

    // HashTableInsert
    method Insert(key: string, payload: T)
      requires Valid()
      modifies this, slots
      ensures Valid() && contents == old(contents) + multiset{Record(key, payload)} && count == old(count) + 1
      ensures slots == old(slots) || fresh(slots)
    {
      var load := 0x100 * (count + 1) / Pow2(shift);
      if load > 0x50 {
        Grow();
      } else {
        LoadLeavesRoom(count, shift);
      }
      Store(key, payload);
    }

    // The second half of HashTableBaseInsert, with room to spare.
    method Store(key: string, payload: T)
      requires Valid() && shift > 0 && count + 1 < slots.Length
      modifies this`count, this`contents, slots
      ensures Valid() && contents == old(contents) + multiset{Record(key, payload)} && count == old(count) + 1
    {
      var h := hash(key);
      var index, k := FindEmpty(slots, h, shift);
      ghost var before := slots[..];
      FillAdds(before, hash, contents, key, payload, k);
      slots[index] := Slot(h, key, payload);
      assert slots[..] == before[index := Slot(h, key, payload)];
      count := count + 1;
      contents := contents + multiset{Record(key, payload)};
    }

    // HashTableWalk: each record once, numbered from 0 on, and as many as the table counts.
    method Walk() returns (visited: seq<Record<T>>)
      requires Valid()
      ensures multiset(visited) == contents && |visited| == count
    {
      visited := [];
      ghost var s := slots[..];
      for i := 0 to slots.Length
        invariant multiset(visited) == Records(s[..i])
      {
        assert s[..i + 1][..i] == s[..i];
        if Full(slots[i]) {
          visited := visited + [Record(slots[i].key, slots[i].payload)];
        }
      }
      assert s[..|s|] == s;
      assert |multiset(visited)| == |visited|;
    }
  }
}
