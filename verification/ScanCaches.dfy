/**
 The header scan cache of src/ScanCache.cpp: a frozen sorted array from the previous run and a chained hash table for
 this one. Records are never freed; a pointer to a record is its position, and -1 is the null pointer.
 */
module ScanCaches {
  import opened Options
  import opened Arithmetic
  import opened Bits
  import opened Sequences
  import opened SortedArrays

  // What a file with this time stamp includes.
  datatype Entry = Entry(timestamp: nat, includes: seq<string>)
  datatype Record = Record(key: nat, entry: Entry, next: int)

  function Bucket(word: nat -> nat, key: nat, n: nat): (b: nat)
    requires n > 0
    ensures b < n
  {
    word(key) % n
  }

  /* ---- Chains ---- */

  // Following m_Next from `head` visits the records of `chain` and ends.
  ghost predicate Linked(records: seq<Record>, head: int, chain: seq<nat>)
    decreases |chain|
  {
    if chain == [] then head == -1
    else head == chain[0] < |records| && Linked(records, records[chain[0]].next, chain[1..])
  }

  // Links outside a chain do not matter to it.
  lemma {:induction false} LinkedFrame(records: seq<Record>, records': seq<Record>, head: int, chain: seq<nat>)
    requires Linked(records, head, chain) && |records| <= |records'|
    requires forall i :: 0 <= i < |chain| && chain[i] < |records| ==> records'[chain[i]].next == records[chain[i]].next
    ensures Linked(records', head, chain)
    decreases |chain|
  {
    if chain != [] {
      LinkedFrame(records, records', records[chain[0]].next, chain[1..]);
    }
  }

  // The table whose chains hold exactly the records in `linked`, each in the chain of its key.
  ghost predicate ChainsOk(
    records: seq<Record>, heads: seq<int>, chains: seq<seq<nat>>, linked: set<nat>, word: nat -> nat)
  {
    && |heads| == |chains| && (linked != {} ==> |heads| > 0)
    && (forall r :: r in linked ==> r < |records|)
    && (forall b :: 0 <= b < |heads| ==> Linked(records, heads[b], chains[b]) && Distinct(chains[b]))
    && (forall b, r: nat :: 0 <= b < |heads| ==>
          (r in chains[b] <==> r in linked && Bucket(word, records[r].key, |heads|) == b))
  }

  // r->m_Next = table[index]; table[index] = r;
  lemma {:induction false} LinkFront(
    records: seq<Record>, heads: seq<int>, chains: seq<seq<nat>>, linked: set<nat>, word: nat -> nat, r: nat)
    requires ChainsOk(records, heads, chains, linked, word) && |heads| > 0 && r < |records| && r !in linked
    ensures var b := Bucket(word, records[r].key, |heads|);
            ChainsOk(records[r := records[r].(next := heads[b])], heads[b := r], chains[b := [r] + chains[b]],
                     linked + {r}, word)
  {
    var b := Bucket(word, records[r].key, |heads|);
    var records' := records[r := records[r].(next := heads[b])];
    var heads', chains' := heads[b := r], chains[b := [r] + chains[b]];
    forall c | 0 <= c < |heads| ensures Linked(records', heads'[c], chains'[c]) && Distinct(chains'[c]) {
      assert r !in chains[c];
      LinkedFrame(records, records', heads[c], chains[c]);
      if c == b {
        assert chains'[b][1..] == chains[b];
      }
    }
    forall c, x: nat | 0 <= c < |heads|
      ensures x in chains'[c] <==> x in linked + {r} && Bucket(word, records'[x].key, |heads|) == c
    {
      assert x in chains[c] <==> x in linked && Bucket(word, records[x].key, |heads|) == c;
      if c == b {
        assert x in chains'[b] <==> x == r || x in chains[b];
      }
    }
  }

  // A chain's records are found by following its links.
  lemma {:induction false} NextInChain(records: seq<Record>, head: int, chain: seq<nat>, j: nat)
    requires j < |chain| && Linked(records, head, chain[j..])
    ensures head == chain[j] < |records| && Linked(records, records[chain[j]].next, chain[j + 1..])
  {
    assert chain[j..][1..] == chain[j + 1..];
  }

  /* ---- Rehashing ---- */

  // The old chains that are still to be moved.
  ghost predicate StillLinked(records: seq<Record>, heads: seq<int>, chains: seq<seq<nat>>, b: nat)
  {
    |heads| == |chains| && forall c :: b <= c < |heads| ==> Linked(records, heads[c], chains[c])
  }

  // Relinking r, which is in old chain b, leaves the old chains behind b alone.
  lemma {:induction false} OthersStillLinked(
    records: seq<Record>, heads: seq<int>, chains: seq<seq<nat>>, linked: set<nat>, word: nat -> nat, b: nat, r: nat,
    next: int, now: seq<Record>)
    requires ChainsOk(records, heads, chains, linked, word) && b < |heads| && r in chains[b]
    requires |now| == |records| && (forall i :: 0 <= i < |records| ==> now[i].key == records[i].key)
    requires StillLinked(now, heads, chains, b + 1) && r < |now|
    ensures StillLinked(now[r := now[r].(next := next)], heads, chains, b + 1)
  {
    var now' := now[r := now[r].(next := next)];
    forall c | b + 1 <= c < |heads| ensures Linked(now', heads[c], chains[c]) {
      assert r !in chains[c];
      LinkedFrame(now, now', heads[c], chains[c]);
    }
  }

  // The records of the first b chains.
  ghost predicate MovedBelow(records: seq<Record>, moved: set<nat>, word: nat -> nat, n: nat, b: nat)
  {
    forall r: nat :: r in moved <==> r < |records| && n > 0 && Bucket(word, records[r].key, n) < b
  }

  // Same records, apart from their links.
  ghost predicate SameRecords(records: seq<Record>, records': seq<Record>)
  {
    |records| == |records'| && forall i :: 0 <= i < |records| ==> records'[i] == records[i].(next := records'[i].next)
  }

  lemma {:induction false} RekeyedChains(
    records: seq<Record>, records': seq<Record>, heads: seq<int>, chains: seq<seq<nat>>, linked: set<nat>,
    word: nat -> nat)
    requires ChainsOk(records, heads, chains, linked, word) && |records| <= |records'|
    requires forall i :: 0 <= i < |records| ==>
               records'[i].key == records[i].key && (i in linked ==> records'[i].next == records[i].next)
    ensures ChainsOk(records', heads, chains, linked, word)
  {
    forall b | 0 <= b < |heads| ensures Linked(records', heads[b], chains[b]) {
      forall i | 0 <= i < |chains[b]| ensures chains[b][i] in linked {
        assert chains[b][i] in chains[b];
      }
      LinkedFrame(records, records', heads[b], chains[b]);
    }
    forall b, r: nat | 0 <= b < |heads|
      ensures r in chains[b] <==> r in linked && Bucket(word, records'[r].key, |heads|) == b
    {
      assert r in chains[b] <==> r in linked && Bucket(word, records[r].key, |heads|) == b;
    }
  }

  // A new record at the head of its chain.
  lemma {:induction false} AddedChains(
    records: seq<Record>, heads: seq<int>, chains: seq<seq<nat>>, word: nat -> nat, record: Record)
    requires ChainsOk(records, heads, chains, All(|records|), word) && |heads| > 0
    requires record.next == heads[Bucket(word, record.key, |heads|)]
    ensures var b, r := Bucket(word, record.key, |heads|), |records|;
            ChainsOk(records + [record], heads[b := r], chains[b := [r] + chains[b]], All(r + 1), word)
  {
    var r := |records|;
    RekeyedChains(records, records + [record], heads, chains, All(r), word);
    LinkFront(records + [record], heads, chains, All(r), word, r);
    assert (records + [record])[r := record] == records + [record];
    assert All(r) + {r} == All(r + 1);
  }

  lemma {:induction false} EmptyChains(records: seq<Record>, heads: seq<int>, chains: seq<seq<nat>>, word: nat -> nat)
    requires |heads| == |chains| && forall b :: 0 <= b < |heads| ==> heads[b] == -1 && chains[b] == []
    ensures ChainsOk(records, heads, chains, {}, word)
  {
  }

  /* ---- The cache ---- */

  // The records' entries, by key.
  ghost predicate Holds(records: seq<Record>, m: map<nat, Entry>)
  {
    && (forall i :: 0 <= i < |records| ==> records[i].key in m && m[records[i].key] == records[i].entry)
    && (forall key :: key in m ==> HasRecord(records, key))
    && (forall i, j :: 0 <= i < j < |records| ==> records[i].key != records[j].key)
  }

  ghost predicate HasRecord(records: seq<Record>, key: nat)
  {
    exists i :: 0 <= i < |records| && records[i].key == key
  }

  ghost function All(n: nat): (s: set<nat>)
    ensures forall r: nat :: r in s <==> r < n
  {
    if n == 0 then {} else All(n - 1) + {n - 1}
  }

  // What the cache answers for a key and a time stamp.
  ghost function Answer(frozen: map<nat, Entry>, dynamic: map<nat, Entry>, key: nat, timestamp: nat)
    : Option<seq<string>>
  {
    if key in frozen && frozen[key].timestamp == timestamp then Some(frozen[key].includes)
    else if key in dynamic && dynamic[key].timestamp == timestamp then Some(dynamic[key].includes)
    else None
  }

  class ScanCache {
    const word: nat -> nat               // the 32 bits of a key that select its chain
    const keys: seq<nat>                 // the frozen data
    const entries: seq<Entry>
    var accessed: seq<bool>              // m_FrozenAccess
    var records: seq<Record>
    var table: seq<int>                  // m_Table
    ghost var shift: nat
    ghost var chains: seq<seq<nat>>
    ghost const frozen: map<nat, Entry>
    ghost var dynamic: map<nat, Entry>

    ghost predicate Valid()
      reads this
    {
      && StrictlySorted(keys) && |entries| == |keys| == |accessed|
      && (forall key :: key in frozen <==> key in keys)
      && (forall i :: 0 <= i < |keys| ==> frozen[keys[i]] == entries[i])
      && TableOk() && Holds(records, dynamic)
    }

    ghost predicate TableOk()
      reads this
    {
      && (|table| > 0 ==> |table| == Pow2(shift))
      && ChainsOk(records, table, chains, All(|records|), word)
    }

    constructor (word: nat -> nat, keys: seq<nat>, entries: seq<Entry>)
      requires StrictlySorted(keys) && |entries| == |keys|
      ensures Valid() && dynamic == map[] && this.keys == keys && this.entries == entries
    {
      this.word, this.keys, this.entries := word, keys, entries;
      accessed := seq(|keys|, _ => false);
      records, table, shift, chains, dynamic := [], [], 0, [], map[];
      frozen := map i | 0 <= i < |keys| :: keys[i] := entries[i];
    }

    // hash & (table_size - 1)
    method Index(key: nat) returns (b: nat)
      requires |table| == Pow2(shift)
      ensures b == Bucket(word, key, |table|)
    {
      MaskIsRemainder(word(key), shift);
      b := And(word(key), |table| - 1);
    }

    // LookupDynamic: the record's position.
    method LookupDynamic(key: nat) returns (r: Option<nat>)
      requires Valid()
      ensures r.Some? <==> key in dynamic
      ensures r.Some? ==> r.value < |records| && records[r.value].key == key && records[r.value].entry == dynamic[key]
    {
      if |table| == 0 {
        NoTableNoRecords(records, table, chains, word);
        return None;
      }
      var b := Index(key);
      r := FollowChain(key, table[b], chains[b]);
      if r.None? {
        NotInChain(records, table, chains, word, key);
      }
    }

    method FollowChain(key: nat, head: int, ghost chain: seq<nat>) returns (r: Option<nat>)
      requires Linked(records, head, chain)
      ensures r.Some? ==> r.value < |records| && records[r.value].key == key
      ensures r.None? ==> forall j :: 0 <= j < |chain| ==> chain[j] < |records| && records[chain[j]].key != key
    {
      var at := head;
      ghost var j := 0;
      assert chain[0..] == chain;
      while at != -1
        invariant 0 <= j <= |chain| && Linked(records, at, chain[j..])
        invariant forall i :: 0 <= i < j ==> chain[i] < |records| && records[chain[i]].key != key
        decreases |chain| - j
      {
        NextInChain(records, at, chain, j);
        if records[at].key == key {
          return Some(at);
        }
        at, j := records[at].next, j + 1;
      }
      return None;
    }

    // ScanCacheLookup
    method Lookup(key: nat, timestamp: nat) returns (r: Option<seq<string>>)
      requires Valid()
      modifies this`accessed
      ensures Valid() && r == Answer(frozen, dynamic, key, timestamp)
    {
      var at := BinarySearch(keys, key);
      if at.Some? && entries[at.value].timestamp == timestamp {
        accessed := accessed[at.value := true];
        return Some(entries[at.value].includes);
      }
      var d := LookupDynamic(key);
      if d.Some? && records[d.value].entry.timestamp == timestamp {
        return Some(records[d.value].entry.includes);
      }
      return None;
    }

    // ScanCachePrepareInsert: the size stays or becomes the next power of two (Bits.NextAfterPower), at least 64.
    method PrepareInsert()
      requires Valid()
      modifies this`records, this`table, this`shift, this`chains
      ensures Valid() && |table| > 0 && SameRecords(old(records), records)
    {
      if |table| > 0 && 0x100 * |records| / |table| < 0xc0 {
        return;
      }
      ghost var shift' := if |table| < 64 then 6 else shift + 1;
      var size := if |table| < 64 then 64 else 2 * |table|;
      assert Pow2(6) == 64;
      Rehash(size, shift');
    }

    // The rehash: every record is relinked in place, each at the head of its new chain.
    method Rehash(size: nat, ghost shift': nat)
      requires Valid() && size == Pow2(shift')
      modifies this`records, this`table, this`shift, this`chains
      ensures Valid() && |table| == size && SameRecords(old(records), records)
    {
      ghost var before, oldChains := records, chains;
      var oldTable := table;
      table := seq(size, _ => -1);
      chains, shift := seq(size, _ => []), shift';
      EmptyChains(records, table, chains, word);
      MoveAll(before, oldTable, oldChains);
      SameHolds(before, records, dynamic);
    }

    // The outer loop: chain after chain.
    method MoveAll(ghost before: seq<Record>, oldTable: seq<int>, ghost oldChains: seq<seq<nat>>)
      requires |table| == Pow2(shift) && before == records
      requires ChainsOk(before, oldTable, oldChains, All(|before|), word)
      requires ChainsOk(records, table, chains, {}, word)
      modifies this`records, this`table, this`chains
      ensures |table| == old(|table|) && SameRecords(before, records)
      ensures ChainsOk(records, table, chains, All(|records|), word)
    {
      ghost var moved: set<nat> := {};
      for b := 0 to |oldTable|
        invariant |table| == old(|table|) && SameRecords(before, records)
        invariant ChainsOk(records, table, chains, moved, word)
        invariant StillLinked(records, oldTable, oldChains, b)
        invariant MovedBelow(before, moved, word, |oldTable|, b)
      {
        moved := MoveChain(before, oldTable, oldChains, b, moved);
      }
      AllMoved(before, oldTable, oldChains, moved, word);
    }

    // The inner loop: one old chain, record by record.
    method MoveChain(ghost before: seq<Record>, oldTable: seq<int>, ghost oldChains: seq<seq<nat>>, b: nat,
                     ghost moved: set<nat>)
      returns (ghost moved': set<nat>)
      requires |table| == Pow2(shift) && b < |oldTable| && SameRecords(before, records)
      requires ChainsOk(before, oldTable, oldChains, All(|before|), word)
      requires ChainsOk(records, table, chains, moved, word) && StillLinked(records, oldTable, oldChains, b)
      requires MovedBelow(before, moved, word, |oldTable|, b)
      modifies this`records, this`table, this`chains
      ensures |table| == old(|table|) && SameRecords(before, records)
      ensures ChainsOk(records, table, chains, moved', word) && StillLinked(records, oldTable, oldChains, b + 1)
      ensures MovedBelow(before, moved', word, |oldTable|, b + 1)
    {
      ghost var chain, j := oldChains[b], 0;
      var r := oldTable[b];
      moved' := moved;
      assert chain[0..] == chain;
      while r != -1
        invariant |table| == old(|table|) && SameRecords(before, records)
        invariant 0 <= j <= |chain| && Linked(records, r, chain[j..])
        invariant ChainsOk(records, table, chains, moved', word) && StillLinked(records, oldTable, oldChains, b + 1)
        invariant forall x: nat :: x in moved' <==> x in moved || x in chain[..j]
        decreases |chain| - j
      {
        NextInChain(records, r, chain, j);
        var next := records[r].next;
        assert chain[..j + 1] == chain[..j] + [chain[j]];
        NotMovedYet(before, oldTable, oldChains, word, b, j, moved);
        Relink(r, before, oldTable, oldChains, b, chain[j + 1..], next, moved');
        moved' := moved' + {r};
        r, j := next, j + 1;
      }
      assert j == |chain| && chain[..j] == chain;
      ChainDone(before, oldTable, oldChains, word, b, moved, moved');
    }

    // One record leaves its old chain for the head of its new one.
    method Relink(r: nat, ghost before: seq<Record>, ghost oldTable: seq<int>, ghost oldChains: seq<seq<nat>>,
                  ghost b: nat, ghost rest: seq<nat>, ghost next: int, ghost moved: set<nat>)
      requires |table| == Pow2(shift) && b < |oldTable| && SameRecords(before, records) && r < |records|
      requires ChainsOk(before, oldTable, oldChains, All(|before|), word) && r in oldChains[b]
      requires ChainsOk(records, table, chains, moved, word) && r !in moved
      requires StillLinked(records, oldTable, oldChains, b + 1) && Linked(records, next, rest) && r !in rest
      modifies this`records, this`table, this`chains
      ensures |table| == old(|table|) && SameRecords(before, records)
      ensures ChainsOk(records, table, chains, moved + {r}, word)
      ensures StillLinked(records, oldTable, oldChains, b + 1) && Linked(records, next, rest)
    {
      var index := Index(records[r].key);
      LinkFront(records, table, chains, moved, word, r);
      OthersStillLinked(before, oldTable, oldChains, All(|before|), word, b, r, table[index], records);
      LinkedFrame(records, records[r := records[r].(next := table[index])], next, rest);
      records := records[r := records[r].(next := table[index])];
      chains := chains[index := [r] + chains[index]];
      table := table[index := r];
    }

    // ScanCacheInsert. The position found before the rehash is still that of the record afterwards.
    method Insert(key: nat, timestamp: nat, includes: seq<string>)
      requires Valid()
      modifies this
      ensures Valid()
      ensures dynamic == if key in old(dynamic) && old(dynamic)[key].timestamp == timestamp then old(dynamic)
                         else old(dynamic)[key := Entry(timestamp, includes)]
    {
      var record := LookupDynamic(key);
      if record.Some? && records[record.value].entry.timestamp == timestamp {
        return;
      }
      PrepareInsert();
      if record.Some? {
        Replace(record.value, Entry(timestamp, includes));
      } else {
        Add(key, Entry(timestamp, includes));
      }
    }

    // An existing record gets a new time stamp and new includes.
    method Replace(r: nat, entry: Entry)
      requires Valid() && r < |records|
      modifies this`records, this`dynamic
      ensures Valid() && dynamic == old(dynamic)[old(records)[r].key := entry]
    {
      var key := records[r].key;
      var records' := records[r := records[r].(entry := entry)];
      RekeyedChains(records, records', table, chains, All(|records|), word);
      ReplaceHolds(records, dynamic, r, entry);
      records := records';
      dynamic := dynamic[key := entry];
    }

    // A new record goes to the head of its chain.
    method Add(key: nat, entry: Entry)
      requires Valid() && |table| > 0 && key !in dynamic
      modifies this`records, this`table, this`chains, this`dynamic
      ensures Valid() && dynamic == old(dynamic)[key := entry]
    {
      Link(key, entry);
      AddHolds(old(records), dynamic, records[|records| - 1]);
      dynamic := dynamic[key := entry];
    }

    method Link(key: nat, entry: Entry)
      requires TableOk() && |table| > 0
      modifies this`records, this`table, this`chains
      ensures TableOk() && |records| == |old(records)| + 1
      ensures records == old(records) + [Record(key, entry, records[|old(records)|].next)]
    {
      var b := Index(key);
      var r := |records|;
      var record := Record(key, entry, table[b]);
      AddedChains(records, table, chains, word, record);
      records := records + [record];
      chains := chains[b := [r] + chains[b]];
      table := table[b := r];
    }
  }

  /* ---- Lemmas about the whole table ---- */

  lemma {:induction false} NoTableNoRecords(
    records: seq<Record>, heads: seq<int>, chains: seq<seq<nat>>, word: nat -> nat)
    requires ChainsOk(records, heads, chains, All(|records|), word) && |heads| == 0
    ensures records == []
  {
    assert 0 !in All(|records|);
  }

  lemma {:induction false} NotInChain(
    records: seq<Record>, heads: seq<int>, chains: seq<seq<nat>>, word: nat -> nat, key: nat)
    requires ChainsOk(records, heads, chains, All(|records|), word) && |heads| > 0
    requires var chain := chains[Bucket(word, key, |heads|)];
             forall j :: 0 <= j < |chain| ==> chain[j] < |records| && records[chain[j]].key != key
    ensures !HasRecord(records, key)
  {
    var b := Bucket(word, key, |heads|);
    forall r: nat | r < |records| ensures records[r].key != key {
      assert r in chains[b] <==> r in All(|records|) && Bucket(word, records[r].key, |heads|) == b;
    }
  }

  // A record that is still in its old chain has not been moved.
  lemma {:induction false} NotMovedYet(
    before: seq<Record>, heads: seq<int>, chains: seq<seq<nat>>, word: nat -> nat, b: nat, j: nat, moved: set<nat>)
    requires ChainsOk(before, heads, chains, All(|before|), word) && b < |heads| && j < |chains[b]|
    requires MovedBelow(before, moved, word, |heads|, b)
    ensures var r := chains[b][j];
            r in chains[b] && r !in moved && r !in chains[b][..j] && r !in chains[b][j + 1..]
  {
    var r := chains[b][j];
    assert r in chains[b];
  }

  lemma {:induction false} ChainDone(
    before: seq<Record>, heads: seq<int>, chains: seq<seq<nat>>, word: nat -> nat, b: nat, moved: set<nat>,
    moved': set<nat>)
    requires ChainsOk(before, heads, chains, All(|before|), word) && b < |heads|
    requires MovedBelow(before, moved, word, |heads|, b)
    requires forall r: nat :: r in moved' <==> r in moved || r in chains[b]
    ensures MovedBelow(before, moved', word, |heads|, b + 1)
  {
  }

  lemma {:induction false} AllMoved(
    before: seq<Record>, heads: seq<int>, chains: seq<seq<nat>>, moved: set<nat>, word: nat -> nat)
    requires ChainsOk(before, heads, chains, All(|before|), word)
    requires MovedBelow(before, moved, word, |heads|, |heads|)
    ensures moved == All(|before|)
  {
    if |heads| == 0 {
      NoTableNoRecords(before, heads, chains, word);
    }
  }

  lemma {:induction false} SameHolds(records: seq<Record>, records': seq<Record>, m: map<nat, Entry>)
    requires Holds(records, m) && SameRecords(records, records')
    ensures Holds(records', m)
  {
    forall key | key in m ensures HasRecord(records', key) {
      var i :| 0 <= i < |records| && records[i].key == key;
      assert records'[i].key == key;
    }
  }

  lemma {:induction false} ReplaceHolds(records: seq<Record>, m: map<nat, Entry>, r: nat, entry: Entry)
    requires Holds(records, m) && r < |records|
    ensures Holds(records[r := records[r].(entry := entry)], m[records[r].key := entry])
  {
    var records', m' := records[r := records[r].(entry := entry)], m[records[r].key := entry];
    forall key | key in m' ensures HasRecord(records', key) {
      assert key in m;
      var i :| 0 <= i < |records| && records[i].key == key;
      assert records'[i].key == key;
    }
  }

  lemma {:induction false} AddHolds(records: seq<Record>, m: map<nat, Entry>, record: Record)
    requires Holds(records, m) && record.key !in m
    ensures Holds(records + [record], m[record.key := record.entry])
  {
    var records', m' := records + [record], m[record.key := record.entry];
    forall x | x in m' ensures HasRecord(records', x) {
      if x == record.key {
        assert records'[|records|].key == x;
      } else {
        var i :| 0 <= i < |records| && records[i].key == x;
        assert records'[i].key == x;
      }
    }
  }
}
