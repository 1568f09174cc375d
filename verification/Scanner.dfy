/**
 The implicit dependency scan of src/Scanner.cpp. The file system is a finite map; what a file's own include lines
 resolve to is part of it. Scan cache keys identify files.
 */
module Scanner {
  import opened Sequences
  import opened HashTables
  import S = ScanCaches

  // A missing file is not in the map. A file that cannot be read, or is empty, includes nothing and is not cached.
  datatype File = Unreadable(timestamp: nat) | Readable(timestamp: nat, includes: seq<string>)
  type FileSystem = map<string, File>

  function Includes(fs: FileSystem, name: string): seq<string>
  {
    if name in fs && fs[name].Readable? then fs[name].includes else []
  }

  /* ---- The include closure ---- */

  // A chain of one or more includes from root to x.
  ghost predicate IsChain(fs: FileSystem, root: string, chain: seq<string>, x: string)
  {
    && |chain| > 1 && chain[0] == root && chain[|chain| - 1] == x
    && forall i :: 0 < i < |chain| ==> chain[i] in Includes(fs, chain[i - 1])
  }

  ghost predicate Included(fs: FileSystem, root: string, x: string)
  {
    exists chain :: IsChain(fs, root, chain, x)
  }

  lemma {:induction false} IncludedStep(fs: FileSystem, root: string, x: string, y: string)
    requires (x == root || Included(fs, root, x)) && y in Includes(fs, x)
    ensures Included(fs, root, y)
  {
    if x == root {
      assert IsChain(fs, root, [root, y], y);
    } else {
      var chain :| IsChain(fs, root, chain, x);
      assert IsChain(fs, root, chain + [y], y);
    }
  }

  lemma {:induction false} ClosedHoldsIncluded(
    fs: FileSystem, root: string, found: set<string>, chain: seq<string>, x: string)
    requires forall y, z :: (y == root || y in found) && z in Includes(fs, y) ==> z in found
    requires IsChain(fs, root, chain, x)
    ensures x in found
    decreases |chain|
  {
    var n := |chain| - 1;
    if n > 1 {
      assert IsChain(fs, root, chain[..n], chain[n - 1]);
      ClosedHoldsIncluded(fs, root, found, chain[..n], chain[n - 1]);
    }
    assert chain[n] in Includes(fs, chain[n - 1]);
  }

  // Every file that some file includes.
  ghost function Universe(fs: FileSystem): set<string>
  {
    set x, i | x in fs.Keys && 0 <= i < |Includes(fs, x)| :: Includes(fs, x)[i]
  }

  // The worklist: everything found is included, and what is not on the stack has been followed.
  ghost predicate Scanning(fs: FileSystem, root: string, found: set<string>, stack: seq<string>)
  {
    && (forall x :: x in found ==> Included(fs, root, x))
    && (forall x :: x in stack ==> x == root || x in found)
    && (forall x, y :: (x == root || x in found) && y in Includes(fs, x) ==> x in stack || y in found)
  }

  lemma {:induction false} ScanStep(
    fs: FileSystem, root: string, found: set<string>, stack: seq<string>, found': set<string>, stack': seq<string>)
    requires Scanning(fs, root, found, stack) && stack != []
    requires var x := stack[|stack| - 1];
             && (forall y :: y in found' <==> y in found || y in Includes(fs, x))
             && (forall y :: y in stack' <==> y in stack[..|stack| - 1] || (y in found' && y !in found))
    ensures Scanning(fs, root, found', stack')
  {
    var n := |stack| - 1;
    var x := stack[n];
    assert stack == stack[..n] + [x];
    forall y | y in found' ensures Included(fs, root, y) {
      if y in Includes(fs, x) {
        IncludedStep(fs, root, x, y);
      }
    }
  }

  lemma {:induction false} ScanDone(fs: FileSystem, root: string, found: set<string>)
    requires Scanning(fs, root, found, [])
    ensures forall x :: x in found <==> Included(fs, root, x)
  {
    forall x | Included(fs, root, x) ensures x in found {
      var chain :| IsChain(fs, root, chain, x);
      ClosedHoldsIncluded(fs, root, found, chain, x);
    }
  }

  lemma {:induction false} FoundInUniverse(fs: FileSystem, root: string, x: string)
    requires Included(fs, root, x)
    ensures x in Universe(fs)
  {
    var chain :| IsChain(fs, root, chain, x);
    var y := chain[|chain| - 2];
    assert x in Includes(fs, y);
    var i :| 0 <= i < |Includes(fs, y)| && Includes(fs, y)[i] == x;
  }

  // The measure: each turn either finds a new file, of which there are finitely many, or shortens the stack.
  lemma {:induction false} FoundBounded(fs: FileSystem, root: string, found: set<string>)
    requires forall x :: x in found ==> Included(fs, root, x)
    ensures |found| <= |Universe(fs)|
  {
    forall x | x in found ensures x in Universe(fs) {
      FoundInUniverse(fs, root, x);
    }
    SubsetSize(found, Universe(fs));
  }

  lemma {:induction false} SubsetSize<T>(a: set<T>, b: set<T>)
    requires a <= b
    ensures |a| <= |b| && (|a| == |b| ==> a == b)
    decreases a
  {
    if a != {} {
      var x :| x in a;
      SubsetSize(a - {x}, b - {x});
      assert a - {x} == b - {x} ==> a == b by {
        assert a == a - {x} + {x} && b == b - {x} + {x};
      }
    }
  }

  /* ---- The cache ---- */

  // Every entry that a lookup for an existing file can hit is what scanning that file would find.
  ghost predicate Consistent(fs: FileSystem, key: string -> nat, entries: map<nat, S.Entry>)
  {
    forall name :: name in fs && key(name) in entries && entries[key(name)].timestamp == fs[name].timestamp ==>
      entries[key(name)].includes == Includes(fs, name)
  }

  lemma {:induction false} InsertConsistent(
    fs: FileSystem, key: string -> nat, entries: map<nat, S.Entry>, name: string)
    requires Consistent(fs, key, entries) && name in fs
    requires forall a, b :: key(a) == key(b) ==> a == b
    ensures Consistent(fs, key, entries[key(name) := S.Entry(fs[name].timestamp, Includes(fs, name))])
  {
  }

  /* ---- ScanImplicitDeps ---- */

  // The names in an include set.
  ghost function Names(contents: multiset<Record<bool>>): (s: set<string>)
    ensures forall x :: x in s <==> HasKey(contents, x)
  {
    set r | r in contents :: r.key
  }

  lemma {:induction false} NamesGrow(contents: multiset<Record<bool>>, name: string)
    requires !HasKey(contents, name)
    ensures var contents' := contents + multiset{Record(name, true)};
            Names(contents') == Names(contents) + {name} && |Names(contents')| == |Names(contents)| + 1
  {
    var contents' := contents + multiset{Record(name, true)};
    forall x ensures x in Names(contents') <==> x in Names(contents) + {name} {
      if x == name {
        assert Record(name, true) in contents';
      } else if HasKey(contents, x) {
        var r :| r in contents && r.key == x;
        assert r in contents';
      }
    }
  }

  // IncludeSetAdd for each name in turn; the new ones go on the stack.
  method AddIncludes(incset: HashTable<bool>, names: seq<string>, stack: seq<string>) returns (stack': seq<string>)
    requires incset.Valid() && |Names(incset.contents)| == incset.count
    modifies incset, incset.slots
    ensures incset.Valid() && |Names(incset.contents)| == incset.count
    ensures incset.slots == old(incset.slots) || fresh(incset.slots)
    ensures Added(old(Names(incset.contents)), Names(incset.contents), names, stack, stack')
  {
    stack' := stack;
    for i := 0 to |names|
      invariant incset.Valid() && |Names(incset.contents)| == incset.count
      invariant incset.slots == old(incset.slots) || fresh(incset.slots)
      invariant Added(old(Names(incset.contents)), Names(incset.contents), names[..i], stack, stack')
    {
      ghost var now := Names(incset.contents);
      var isNew := IncludeSetAdd(incset, names[i]);
      AddedNext(old(Names(incset.contents)), now, names, i, stack, stack');
      if isNew {
        stack' := stack' + [names[i]];
      }
    }
    assert names[..|names|] == names;
  }

  // IncludeSetAddDuplicateString and IncludeSetAddNoDuplicateString: true for a new name.
  method IncludeSetAdd(incset: HashTable<bool>, name: string) returns (isNew: bool)
    requires incset.Valid() && |Names(incset.contents)| == incset.count
    modifies incset, incset.slots
    ensures incset.Valid() && |Names(incset.contents)| == incset.count
    ensures incset.slots == old(incset.slots) || fresh(incset.slots)
    ensures isNew == (name !in old(Names(incset.contents)))
    ensures Names(incset.contents) == old(Names(incset.contents)) + {name}
  {
    var at := incset.Lookup(name);
    isNew := at.None?;
    if isNew {
      NamesGrow(incset.contents, name);
      incset.Insert(name, true);
    }
  }

  // `found` has become `found'` by adding the names, and the new ones are on the stack.
  ghost predicate Added(
    found: set<string>, found': set<string>, names: seq<string>, stack: seq<string>, stack': seq<string>)
  {
    && (forall x :: x in found' <==> x in found || x in names)
    && (forall x :: x in stack' <==> x in stack || (x in found' && x !in found))
    && |stack'| - |stack| == |found'| - |found|
  }

  lemma {:induction false} AddedNext(
    found: set<string>, now: set<string>, names: seq<string>, i: nat, stack: seq<string>, stack': seq<string>)
    requires i < |names| && Added(found, now, names[..i], stack, stack')
    ensures Added(found, now + {names[i]}, names[..i + 1], stack,
                  if names[i] in now then stack' else stack' + [names[i]])
  {
    assert names[..i + 1] == names[..i] + [names[i]];
    if names[i] in now {
      assert now + {names[i]} == now;
    }
  }

  // What the loop learns about one file: from the cache if it has a current entry, else by scanning the file.
  method IncludesOf(fs: FileSystem, key: string -> nat, cache: S.ScanCache, name: string) returns (r: seq<string>)
    requires forall a, b :: key(a) == key(b) ==> a == b
    requires cache.Valid() && Consistent(fs, key, cache.frozen) && Consistent(fs, key, cache.dynamic)
    modifies cache
    ensures cache.Valid() && Consistent(fs, key, cache.frozen) && Consistent(fs, key, cache.dynamic)
    ensures r == Includes(fs, name)
  {
    if name !in fs {
      return [];
    }
    var hit := cache.Lookup(key(name), fs[name].timestamp);
    if hit.Some? {
      return hit.value;
    }
    if fs[name].Unreadable? {
      return [];
    }
    InsertConsistent(fs, key, cache.dynamic, name);
    cache.Insert(key(name), fs[name].timestamp, fs[name].includes);
    return fs[name].includes;
  }

  // One turn of the worklist loop, and why the loop ends.
  method ScanTurn(fs: FileSystem, key: string -> nat, cache: S.ScanCache, incset: HashTable<bool>, ghost root: string,
                  stack: seq<string>)
    returns (stack': seq<string>)
    requires forall a, b :: key(a) == key(b) ==> a == b
    requires cache.Valid() && Consistent(fs, key, cache.frozen) && Consistent(fs, key, cache.dynamic)
    requires incset.Valid() && |Names(incset.contents)| == incset.count
    requires stack != [] && Scanning(fs, root, Names(incset.contents), stack)
    modifies cache, incset, incset.slots
    ensures cache.Valid() && Consistent(fs, key, cache.frozen) && Consistent(fs, key, cache.dynamic)
    ensures incset.Valid() && |Names(incset.contents)| == incset.count
    ensures incset.slots == old(incset.slots) || fresh(incset.slots)
    ensures Scanning(fs, root, Names(incset.contents), stack')
    ensures |Names(incset.contents)| <= |Universe(fs)|
    ensures |Names(incset.contents)| > |old(Names(incset.contents))|
            || (|Names(incset.contents)| == |old(Names(incset.contents))| && |stack'| < |stack|)
  {
    ghost var before := Names(incset.contents);
    var n := |stack| - 1;
    var names := IncludesOf(fs, key, cache, stack[n]);
    stack' := AddIncludes(incset, names, stack[..n]);
    ghost var after := Names(incset.contents);
    ScanStep(fs, root, before, stack, after, stack');
    FoundBounded(fs, root, after);
    SubsetSize(before, after);
  }

  // HashSetWalk into the output array.
  method ListFiles(incset: HashTable<bool>) returns (files: seq<string>)
    requires incset.Valid() && |Names(incset.contents)| == incset.count
    ensures Distinct(files) && forall x :: x in files <==> x in Names(incset.contents)
  {
    var records := incset.Walk();
    files := seq(|records|, i requires 0 <= i < |records| => records[i].key);
    forall x ensures x in files <==> HasKey(incset.contents, x) {
      KeysOf(records, files, incset.contents, x);
    }
    AsManyAsDistinct(files, Names(incset.contents));
  }

  lemma {:induction false} KeysOf(
    records: seq<Record<bool>>, files: seq<string>, contents: multiset<Record<bool>>, x: string)
    requires multiset(records) == contents && |files| == |records|
    requires forall i :: 0 <= i < |records| ==> files[i] == records[i].key
    ensures x in files <==> HasKey(contents, x)
  {
    if x in files {
      var i :| 0 <= i < |files| && files[i] == x;
      assert records[i] in contents;
    }
    if HasKey(contents, x) {
      var r :| r in contents && r.key == x;
      var i :| 0 <= i < |records| && records[i] == r;
      assert files[i] == x;
    }
  }

  // A list with no more elements than its set of elements has no duplicates.
  lemma {:induction false} AsManyAsDistinct(files: seq<string>, names: set<string>)
    requires |files| == |names| && forall x :: x in names ==> x in files
    ensures Distinct(files)
  {
    forall i, j | 0 <= i < j < |files| ensures files[i] != files[j] {
      var rest := files[..j] + files[j + 1..];
      if files[i] == files[j] {
        forall x | x in names ensures x in rest {
          var k :| 0 <= k < |files| && files[k] == x;
          assert rest[if k == j then i else if k < j then k else k - 1] == x;
        }
      }
      FitsIn(names, rest);
    }
  }

  lemma {:induction false} FitsIn(names: set<string>, files: seq<string>)
    ensures (forall x :: x in names ==> x in files) ==> |names| <= |files|
    decreases |files|
  {
    if files == [] {
      assert (forall x :: x in names ==> x in files) ==> names == {};
    } else {
      FitsIn(names - {files[0]}, files[1..]);
      if forall x :: x in names ==> x in files {
        assert forall x :: x in names - {files[0]} ==> x in files[1..];
        assert names <= (names - {files[0]}) + {files[0]};
        SubsetSize(names, (names - {files[0]}) + {files[0]});
      }
    }
  }

  // Exactly the files that one or more includes lead to from the root, each once, whatever the cache held before,
  // even when includes form cycles. The cache stays consistent.
  method ScanImplicitDeps(fs: FileSystem, key: string -> nat, hash: string -> nat, cache: S.ScanCache, root: string)
    returns (files: seq<string>)
    requires (forall a, b :: key(a) == key(b) ==> a == b) && (forall s :: hash(s) != 0)
    requires cache.Valid() && Consistent(fs, key, cache.frozen) && Consistent(fs, key, cache.dynamic)
    modifies cache
    ensures cache.Valid() && Consistent(fs, key, cache.frozen) && Consistent(fs, key, cache.dynamic)
    ensures Distinct(files)
    ensures forall x :: x in files <==> Included(fs, root, x)
  {
    var stack := [root];
    var incset := new HashTable<bool>(hash, false);
    assert Names(incset.contents) == {};
    while stack != []
      invariant incset.Valid() && fresh(incset) && fresh(incset.slots) && |Names(incset.contents)| == incset.count
      invariant cache.Valid() && Consistent(fs, key, cache.frozen) && Consistent(fs, key, cache.dynamic)
      invariant Scanning(fs, root, Names(incset.contents), stack)
      decreases |Universe(fs)| - |Names(incset.contents)|, |stack|
    {
      stack := ScanTurn(fs, key, cache, incset, root, stack);
    }
    ScanDone(fs, root, Names(incset.contents));
    files := ListFiles(incset);
  }
}
