/**
 The DAG compiler of src/DagGenerator.cpp: nodes are identified by a digest, stored in digest order, and refer to
 each other by their positions in that order.
 */
module DagCompiler {
  import opened Options
  import opened Sequences
  import opened SortedArrays

  // An element of a node's "Deps" array.
  datatype Dep = Index(value: int) | NotANumber

  // An element of a node's "Env" array: what its "Key" and "Value" are, if they are strings.
  datatype EnvVar = EnvVar(key: Option<string>, value: Option<string>)

  // An element of the "Nodes" array. Elements of "Inputs" that are not strings are None.
  datatype RawNode =
    | NotAnObject
    | RawNode(action: Option<string>, inputs: Option<seq<Option<string>>>, annotation: Option<string>,
              pass: nat, deps: seq<Dep>, outputs: seq<string>, env: seq<EnvVar>, expensive: bool)

  datatype Compiled = Compiled(pass: nat, deps: seq<nat>, backLinks: seq<nat>)

  /* ---- Identification ---- */

  function Strings(inputs: seq<Option<string>>): string
  {
    if inputs == [] then ""
    else (if inputs[0].Some? then inputs[0].value else "") + Strings(inputs[1..])
  }

  function OrEmpty(s: Option<string>): string
  {
    if s.Some? then s.value else ""
  }

  predicate Identified(n: RawNode)
  {
    n.RawNode? && (OrEmpty(n.action) != "" || n.inputs.Some? || n.annotation.Some?)
  }

  // The bytes a node's guid is the digest of.
  function Material(n: RawNode): string
    requires n.RawNode?
  {
    OrEmpty(n.action) + (if n.inputs.Some? then Strings(n.inputs.value) else "") + OrEmpty(n.annotation)
  }

  ghost predicate Guid(digest: string -> nat, n: RawNode, guid: nat)
  {
    n.RawNode? && guid == digest(Material(n))
  }

  // The nodes can be compiled: each has something to digest and no two digests collide.
  ghost predicate Identifiable(raw: seq<RawNode>, digest: string -> nat)
  {
    && (forall i :: 0 <= i < |raw| ==> Identified(raw[i]))
    && (forall i, j :: 0 <= i < j < |raw| ==> digest(Material(raw[i])) != digest(Material(raw[j])))
  }

  datatype Order = Order(guids: seq<nat>, order: seq<nat>, remap: seq<nat>)

  // What ComputeNodeGuids feeds to the digest, or nothing if the node cannot be told from others.
  method DigestInput(n: RawNode) returns (r: Option<string>)
    ensures r.Some? <==> Identified(n)
    ensures r.Some? ==> r.value == Material(n)
  {
    if n.NotAnObject? {
      return None;
    }
    var h := "";
    if n.action.Some? && n.action.value != "" {
      h := h + n.action.value;
    }
    if n.inputs.Some? {
      var inputs := n.inputs.value;
      assert inputs[..0] == [] && h + "" == h;
      for i := 0 to |inputs|
        invariant h == OrEmpty(n.action) + Strings(inputs[..i])
      {
        StringsNext(inputs, i);
        ConcatAssociative(OrEmpty(n.action), Strings(inputs[..i]), OrEmpty(inputs[i]));
        if inputs[i].Some? {
          h := h + inputs[i].value;
        } else {
          assert h + "" == h;
        }
      }
      assert inputs[..|inputs|] == inputs;
    }
    if n.annotation.Some? {
      h := h + n.annotation.value;
    }
    if (n.action.None? || n.action.value == "") && n.inputs.None? && n.annotation.None? {
      return None;
    }
    return Some(h);
  }

  lemma {:induction false} StringsNext(inputs: seq<Option<string>>, i: nat)
    requires i < |inputs|
    ensures Strings(inputs[..i + 1]) == Strings(inputs[..i]) + OrEmpty(inputs[i])
    decreases i
  {
    if i > 0 {
      var rest := inputs[1..];
      StringsNext(rest, i - 1);
      assert inputs[..i + 1][1..] == rest[..i] && inputs[..i][1..] == rest[..i - 1];
      ConcatAssociative(OrEmpty(inputs[0]), Strings(rest[..i - 1]), OrEmpty(inputs[i]));
    } else {
      assert inputs[..1] == [inputs[0]] && inputs[..0] == [];
      assert OrEmpty(inputs[0]) + "" == OrEmpty(inputs[0]) && "" + OrEmpty(inputs[0]) == OrEmpty(inputs[0]);
    }
  }

  /* ---- What tells nodes apart ---- */

  function InputText(n: RawNode): string
    requires n.RawNode?
  {
    if n.inputs.Some? then Strings(n.inputs.value) else ""
  }

  lemma {:induction false} CancelMiddle(a: string, b: string, b': string, d: string)
    requires a + b + d == a + b' + d
    ensures b == b'
  {
    assert |b| == |b'|;
    assert b == (a + b + d)[|a|..|a| + |b|];
  }

  // Of two nodes that agree on two of action, input text and annotation, the third alone decides whether they are told
  // apart.
  lemma {:induction false} MaterialTellsApart(a: RawNode, b: RawNode)
    requires a.RawNode? && b.RawNode?
    ensures InputText(a) == InputText(b) && OrEmpty(a.annotation) == OrEmpty(b.annotation) ==>
              (Material(a) == Material(b) <==> OrEmpty(a.action) == OrEmpty(b.action))
    ensures OrEmpty(a.action) == OrEmpty(b.action) && OrEmpty(a.annotation) == OrEmpty(b.annotation) ==>
              (Material(a) == Material(b) <==> InputText(a) == InputText(b))
    ensures OrEmpty(a.action) == OrEmpty(b.action) && InputText(a) == InputText(b) ==>
              (Material(a) == Material(b) <==> OrEmpty(a.annotation) == OrEmpty(b.annotation))
  {
    if Material(a) == Material(b) {
      var x, y, z := OrEmpty(a.action), InputText(a), OrEmpty(a.annotation);
      var x', y', z' := OrEmpty(b.action), InputText(b), OrEmpty(b.annotation);
      assert x + y + z == x' + y' + z';
      if y == y' && z == z' {
        assert |x| == |x'| && x == (x + y + z)[..|x|];
      }
      if x == x' && z == z' {
        CancelMiddle(x, y, y', z);
      }
      if x == x' && y == y' {
        assert z == (x + y + z)[|x + y|..];
      }
    }
  }

  // Nothing else about a node matters to its guid.
  lemma {:induction false} MaterialIgnores(
    n: RawNode, pass: nat, deps: seq<Dep>, outputs: seq<string>, env: seq<EnvVar>, expensive: bool)
    requires n.RawNode?
    ensures var n' := n.(pass := pass, deps := deps, outputs := outputs, env := env, expensive := expensive);
            Material(n') == Material(n) && (Identified(n') <==> Identified(n))
  {
  }

  ghost predicate Injective(digest: string -> nat)
  {
    forall s, t :: digest(s) == digest(t) ==> s == t
  }

  // With a digest that does not collide, nodes are rejected exactly when one has nothing to digest or two concatenate
  // to the same text.
  lemma {:induction false} IdentifiableExact(raw: seq<RawNode>, digest: string -> nat)
    requires Injective(digest)
    ensures Identifiable(raw, digest) <==>
            && (forall i :: 0 <= i < |raw| ==> Identified(raw[i]))
            && (forall i, j :: 0 <= i < j < |raw| ==> Material(raw[i]) != Material(raw[j]))
  {
  }

  // Group nodes have an annotation only; different annotations are enough.
  lemma {:induction false} GroupsTellApart(a: RawNode, b: RawNode, digest: string -> nat)
    requires a.RawNode? && b.RawNode? && Injective(digest)
    requires a.action.None? && b.action.None? && a.inputs.None? && b.inputs.None?
    requires a.annotation.Some? && b.annotation.Some? && a.annotation.value != b.annotation.value
    ensures Identifiable([a, b], digest)
  {
    MaterialTellsApart(a, b);
    IdentifiableExact([a, b], digest);
  }

  // There is no separator between the parts: "x" annotated "y" and "xy" without annotation collide under every digest.
  lemma {:induction false} PartsRunTogether(
    raw: seq<RawNode>, digest: string -> nat, i: nat, j: nat, x: string, y: string)
    requires i < |raw| && j < |raw| && i != j && raw[i].RawNode? && raw[j].RawNode?
    requires raw[i].action == Some(x + y) && raw[i].inputs.None? && raw[i].annotation.None?
    requires raw[j].action == Some(x) && raw[j].inputs.None? && raw[j].annotation == Some(y)
    ensures !Identifiable(raw, digest)
  {
    assert Material(raw[i]) == x + y + "" + "" == x + "" + y == Material(raw[j]);
    assert i < j || j < i;
  }

  // The digests in input order.
  method ComputeDigests(raw: seq<RawNode>, digest: string -> nat) returns (r: Option<seq<nat>>)
    ensures r.Some? <==> forall i :: 0 <= i < |raw| ==> Identified(raw[i])
    ensures r.Some? ==> |r.value| == |raw| && forall i :: 0 <= i < |raw| ==> r.value[i] == digest(Material(raw[i]))
  {
    var digests: seq<nat> := [];
    for i := 0 to |raw|
      invariant |digests| == i
      invariant forall j :: 0 <= j < i ==> Identified(raw[j]) && digests[j] == digest(Material(raw[j]))
    {
      var h := DigestInput(raw[i]);
      if h.None? {
        return None;
      }
      digests := digests + [digest(h.value)];
    }
    return Some(digests);
  }

  // The duplicate check on the sorted table looks at neighbours only.
  method FindDuplicate(keys: seq<nat>) returns (r: Option<nat>)
    requires forall i, j :: 0 <= i < j < |keys| ==> keys[i] <= keys[j]
    ensures r.Some? ==> 0 < r.value < |keys| && keys[r.value - 1] == keys[r.value]
    ensures r.None? ==> StrictlySorted(keys)
  {
    var i := 1;
    while i < |keys|
      invariant 1 <= i
      invariant forall j :: 0 < j < i && j < |keys| ==> keys[j - 1] < keys[j]
    {
      if keys[i - 1] == keys[i] {
        return Some(i);
      }
      i := i + 1;
    }
    AdjacentSorted(keys);
    return None;
  }

  // ComputeNodeGuids: fails exactly on unidentifiable nodes; otherwise the guids are strictly sorted, node order[i]
  // owns guid i, and remap is the inverse permutation.
  method ComputeNodeGuids(raw: seq<RawNode>, digest: string -> nat) returns (r: Option<Order>)
    ensures r.Some? <==> Identifiable(raw, digest)
    ensures r.Some? ==> StrictlySorted(r.value.guids) && Inverse(r.value.order, r.value.remap, |raw|)
    ensures r.Some? ==> |r.value.guids| == |raw|
    ensures r.Some? ==> forall i :: 0 <= i < |raw| ==> Guid(digest, raw[r.value.order[i]], r.value.guids[i])
  {
    var digests := ComputeDigests(raw, digest);
    if digests.None? {
      return None;
    }
    var order := SortByKey(digests.value);
    var guids := seq(|raw|, i requires 0 <= i < |raw| => digests.value[order[i]]);
    var duplicate := FindDuplicate(guids);
    if duplicate.Some? {
      Collision(raw, digest, order[duplicate.value - 1], order[duplicate.value]);
      return None;
    }
    var remap := Invert(order);
    SortedMeansIdentifiable(raw, digest, digests.value, order, remap);
    return Some(Order(guids, order, remap));
  }

  lemma {:induction false} Collision(raw: seq<RawNode>, digest: string -> nat, a: nat, b: nat)
    requires a < |raw| && b < |raw| && a != b && Identified(raw[a]) && Identified(raw[b])
    requires digest(Material(raw[a])) == digest(Material(raw[b]))
    ensures !Identifiable(raw, digest)
  {
    assert a < b || b < a;
  }

  lemma {:induction false} AdjacentSorted(keys: seq<nat>)
    requires forall j :: 0 < j < |keys| ==> keys[j - 1] < keys[j]
    ensures StrictlySorted(keys)
  {
    if |keys| > 0 {
      var n := |keys| - 1;
      AdjacentSorted(keys[..n]);
      forall i, j | 0 <= i < j < |keys| ensures keys[i] < keys[j] {
        if j == n && i < n - 1 {
          assert keys[..n][i] < keys[..n][n - 1];
        } else if j < n {
          assert keys[..n][i] < keys[..n][j];
        }
      }
    }
  }

  lemma {:induction false} SortedMeansIdentifiable(
    raw: seq<RawNode>, digest: string -> nat, digests: seq<nat>, order: seq<nat>, remap: seq<nat>)
    requires |digests| == |raw| && Inverse(order, remap, |raw|)
    requires forall j :: 0 <= j < |raw| ==> Identified(raw[j]) && digests[j] == digest(Material(raw[j]))
    requires StrictlySorted(seq(|raw|, i requires 0 <= i < |raw| => digests[order[i]]))
    ensures Identifiable(raw, digest)
  {
    var guids := seq(|raw|, i requires 0 <= i < |raw| => digests[order[i]]);
    forall i, j | 0 <= i < j < |raw| ensures digest(Material(raw[i])) != digest(Material(raw[j])) {
      assert guids[remap[i]] == digests[i] && guids[remap[j]] == digests[j];
      assert order[remap[i]] != order[remap[j]];
      assert remap[i] < remap[j] || remap[j] < remap[i];
    }
  }

  /* ---- Linking ---- */

  predicate InRange(d: Dep, n: nat)
  {
    d.Index? && 0 <= d.value < n
  }

  ghost predicate DepsInRange(raw: seq<RawNode>)
  {
    forall i :: 0 <= i < |raw| ==> raw[i].RawNode? && AllInRange(raw[i].deps, |raw|)
  }

  ghost predicate AllInRange(deps: seq<Dep>, n: nat)
  {
    forall k :: 0 <= k < |deps| ==> InRange(deps[k], n)
  }

  predicate HasBoth(v: EnvVar)
  {
    v.key.Some? && v.value.Some?
  }

  ghost predicate EnvComplete(n: RawNode)
  {
    n.RawNode? && forall k :: 0 <= k < |n.env| ==> HasBoth(n.env[k])
  }

  // What WriteNodes checks.
  ghost predicate Writable(raw: seq<RawNode>)
  {
    DepsInRange(raw) && forall i :: 0 <= i < |raw| ==> EnvComplete(raw[i])
  }

  // How often node i names node x as a dependency.
  ghost function Mentions(raw: seq<RawNode>, i: nat, x: nat): nat
    requires i < |raw| && raw[i].RawNode?
  {
    multiset(raw[i].deps)[Index(x)]
  }

  // How often x occurs in s.
  ghost function Count(s: seq<nat>, x: nat): nat
  {
    multiset(s)[x]
  }

  // links[x] lists i as often as i mentions x, for all i below `done`.
  ghost predicate Linked(raw: seq<RawNode>, links: seq<seq<nat>>, done: nat)
    requires done <= |raw| && forall i :: 0 <= i < done ==> raw[i].RawNode?
  {
    && |links| == |raw|
    && (forall x :: 0 <= x < |raw| ==> Below(links[x], done))
    && (forall x: nat, i: nat :: x < |raw| && i < done ==> Count(links[x], i) == Mentions(raw, i, x))
  }

  // The links after node i has added itself for each of the dependencies in `deps`.
  ghost predicate Added(before: seq<seq<nat>>, now: seq<seq<nat>>, i: nat, deps: seq<Dep>)
  {
    && |now| == |before|
    && (forall x :: 0 <= x < |now| ==> Below(now[x], i + 1))
    && (forall x: nat, j: nat :: x < |now| && j < i ==> Count(now[x], j) == Count(before[x], j))
    && (forall x: nat :: x < |now| ==> Count(now[x], i) == multiset(deps)[Index(x)])
  }

  lemma {:induction false} CountAppend(s: seq<nat>, y: nat, x: nat)
    ensures Count(s + [y], x) == Count(s, x) + if x == y then 1 else 0
  {
  }

  lemma {:induction false} AddOne(before: seq<seq<nat>>, now: seq<seq<nat>>, i: nat, deps: seq<Dep>, d: Dep)
    requires Added(before, now, i, deps) && InRange(d, |now|)
    ensures Added(before, now[d.value := now[d.value] + [i]], i, deps + [d])
  {
    var now' := now[d.value := now[d.value] + [i]];
    forall x: nat, j: nat | x < |now| ensures Count(now'[x], j) == Count(now[x], j) + if x == d.value && j == i then 1 else 0
    {
      CountAppend(now[d.value], i, j);
    }
  }

  lemma {:induction false} NodeLinked(raw: seq<RawNode>, before: seq<seq<nat>>, now: seq<seq<nat>>, i: nat)
    requires i < |raw| && forall j :: 0 <= j <= i ==> raw[j].RawNode?
    requires Linked(raw, before, i) && Added(before, now, i, raw[i].deps)
    ensures Linked(raw, now, i + 1)
  {
    forall x: nat, j: nat | x < |raw| && j < i + 1 ensures Count(now[x], j) == Mentions(raw, j, x) {
      if j < i {
        assert Count(before[x], j) == Mentions(raw, j, x);
      }
    }
  }

  lemma {:induction false} NothingAdded(links: seq<seq<nat>>, i: nat)
    requires forall x :: 0 <= x < |links| ==> Below(links[x], i)
    ensures Added(links, links, i, [])
  {
    forall x: nat | x < |links| ensures Count(links[x], i) == 0 {
      assert Below(links[x], i);
    }
  }

  // BufferAppendOne
  method AppendLink(links: array<seq<nat>>, x: nat, i: nat, ghost before: seq<seq<nat>>, ghost deps: seq<Dep>)
    requires x < links.Length && Added(before, links[..], i, deps)
    modifies links
    ensures Added(before, links[..], i, deps + [Index(x)])
  {
    AddOne(before, links[..], i, deps, Index(x));
    ghost var now := links[..];
    links[x] := links[x] + [i];
    assert links[..] == now[x := now[x] + [i]];
  }

  // The body of the first loop of WriteNodes.
  method AddNode(links: array<seq<nat>>, i: nat, deps: seq<Dep>) returns (ok: bool)
    requires forall x :: 0 <= x < links.Length ==> Below(links[x], i)
    modifies links
    ensures ok <==> AllInRange(deps, links.Length)
    ensures ok ==> Added(old(links[..]), links[..], i, deps)
  {
    ghost var before := links[..];
    NothingAdded(before, i);
    assert deps[..0] == [];
    for k := 0 to |deps|
      invariant forall l :: 0 <= l < k ==> InRange(deps[l], links.Length)
      invariant Added(before, links[..], i, deps[..k])
    {
      if deps[k].NotANumber? || deps[k].value < 0 || deps[k].value >= links.Length {
        return false;
      }
      assert deps[..k + 1] == deps[..k] + [deps[k]];
      AppendLink(links, deps[k].value, i, before, deps[..k]);
    }
    assert deps[..|deps|] == deps;
    return true;
  }

  // The first loop of WriteNodes.
  method CollectLinks(raw: seq<RawNode>) returns (r: Option<seq<seq<nat>>>)
    ensures r.Some? <==> DepsInRange(raw)
    ensures r.Some? ==> Linked(raw, r.value, |raw|)
  {
    var links := new seq<nat>[|raw|](_ => []);
    for i := 0 to |raw|
      invariant forall j :: 0 <= j < i ==> raw[j].RawNode? && AllInRange(raw[j].deps, |raw|)
      invariant Linked(raw, links[..], i)
    {
      if raw[i].NotAnObject? {
        return None;
      }
      ghost var before := links[..];
      assert forall x :: 0 <= x < links.Length ==> links[x] == before[x];
      var ok := AddNode(links, i, raw[i].deps);
      if !ok {
        return None;
      }
      NodeLinked(raw, before, links[..], i);
    }
    return Some(links[..]);
  }

  function Remapped(s: seq<nat>, remap: seq<nat>): (r: seq<nat>)
    requires Below(s, |remap|)
    ensures |r| == |s| && forall k :: 0 <= k < |s| ==> r[k] == remap[s[k]]
  {
    seq(|s|, k requires 0 <= k < |s| => remap[s[k]])
  }

  function Values(deps: seq<Dep>): (r: seq<nat>)
    requires forall k :: 0 <= k < |deps| ==> deps[k].Index? && deps[k].value >= 0
  {
    seq(|deps|, k requires 0 <= k < |deps| => deps[k].value)
  }

  lemma {:induction false} RemappedCount(s: seq<nat>, remap: seq<nat>, x: nat)
    requires Below(s, |remap|) && Distinct(remap) && x < |remap|
    ensures Count(Remapped(s, remap), remap[x]) == Count(s, x)
  {
    if s != [] {
      var n := |s| - 1;
      RemappedCount(s[..n], remap, x);
      assert s == s[..n] + [s[n]];
      assert Remapped(s, remap) == Remapped(s[..n], remap) + [remap[s[n]]];
      CountAppend(s[..n], s[n], x);
      CountAppend(Remapped(s[..n], remap), remap[s[n]], remap[x]);
    }
  }

  lemma {:induction false} ValuesCount(deps: seq<Dep>, x: nat)
    requires forall k :: 0 <= k < |deps| ==> deps[k].Index? && deps[k].value >= 0
    ensures Count(Values(deps), x) == multiset(deps)[Index(x)]
  {
    if deps != [] {
      var n := |deps| - 1;
      ValuesCount(deps[..n], x);
      assert deps == deps[..n] + [deps[n]];
      assert Values(deps) == Values(deps[..n]) + [deps[n].value];
    }
  }

  // Node `at` of the output is node order[at] of the input, with its dependencies renamed.
  ghost predicate Renamed(raw: seq<RawNode>, o: Order, out: Compiled, at: nat)
    requires at < |raw| && Inverse(o.order, o.remap, |raw|)
  {
    var n := raw[o.order[at]];
    && n.RawNode? && AllInRange(n.deps, |raw|)
    && out.pass == n.pass && |out.deps| == |n.deps|
    && forall k :: 0 <= k < |n.deps| ==> out.deps[k] == o.remap[n.deps[k].value]
  }

  // Back-links are the exact converse of dependencies, with multiplicity.
  ghost predicate Converse(out: seq<Compiled>)
  {
    && (forall a :: 0 <= a < |out| ==> Below(out[a].deps, |out|) && Below(out[a].backLinks, |out|))
    && (forall a: nat, b: nat :: a < |out| && b < |out| ==> Count(out[a].backLinks, b) == Count(out[b].deps, a))
  }

  // The environment loop of WriteNodes.
  method CheckEnv(env: seq<EnvVar>) returns (ok: bool)
    ensures ok <==> forall k :: 0 <= k < |env| ==> HasBoth(env[k])
  {
    for k := 0 to |env|
      invariant forall l :: 0 <= l < k ==> HasBoth(env[l])
    {
      if env[k].key.None? || env[k].value.None? {
        return false;
      }
    }
    return true;
  }

  // A check of every node in digest order is a check of every node.
  lemma {:induction false} EveryNodeVisited(raw: seq<RawNode>, o: Order)
    requires Inverse(o.order, o.remap, |raw|)
    requires forall at :: 0 <= at < |raw| ==> EnvComplete(raw[o.order[at]])
    ensures forall i :: 0 <= i < |raw| ==> EnvComplete(raw[i])
  {
    forall i | 0 <= i < |raw| ensures EnvComplete(raw[i]) {
      assert o.order[o.remap[i]] == i;
    }
  }

  // WriteNodes: fails exactly when a dependency is not an index of a node or an environment variable lacks its key
  // or value.
  method WriteNodes(raw: seq<RawNode>, o: Order) returns (r: Option<seq<Compiled>>)
    requires Inverse(o.order, o.remap, |raw|)
    ensures r.Some? <==> Writable(raw)
    ensures r.Some? ==> |r.value| == |raw| && Converse(r.value)
    ensures r.Some? ==> forall a: nat :: a < |raw| ==> Renamed(raw, o, r.value[a], a)
  {
    var collected := CollectLinks(raw);
    if collected.None? {
      return None;
    }
    var links := collected.value;
    var out: seq<Compiled> := [];
    for at := 0 to |raw|
      invariant |out| == at
      invariant forall a: nat :: a < at ==> Renamed(raw, o, out[a], a)
      invariant forall a :: 0 <= a < at ==> out[a].backLinks == Remapped(links[o.order[a]], o.remap)
      invariant forall a :: 0 <= a < at ==> EnvComplete(raw[o.order[a]])
    {
      var i := o.order[at];
      assert AllInRange(raw[i].deps, |raw|);
      var deps := Remapped(Values(raw[i].deps), o.remap);
      out := out + [Compiled(raw[i].pass, deps, Remapped(links[i], o.remap))];
      var ok := CheckEnv(raw[i].env);
      if !ok {
        return None;
      }
    }
    EveryNodeVisited(raw, o);
    LinksAreConverse(raw, o, links, out);
    return Some(out);
  }

  lemma {:induction false} LinksAreConverse(raw: seq<RawNode>, o: Order, links: seq<seq<nat>>, out: seq<Compiled>)
    requires Inverse(o.order, o.remap, |raw|) && DepsInRange(raw) && Linked(raw, links, |raw|) && |out| == |raw|
    requires forall a: nat :: a < |raw| ==> Renamed(raw, o, out[a], a)
    requires forall a :: 0 <= a < |raw| ==> out[a].backLinks == Remapped(links[o.order[a]], o.remap)
    ensures Converse(out)
  {
    forall a: nat, b: nat | a < |out| && b < |out| ensures Count(out[a].backLinks, b) == Count(out[b].deps, a) {
      var x, i := o.order[a], o.order[b];
      assert Renamed(raw, o, out[b], b);
      assert AllInRange(raw[i].deps, |raw|);
      RemappedCount(links[x], o.remap, i);
      var values := Values(raw[i].deps);
      assert out[b].deps == Remapped(values, o.remap);
      RemappedCount(values, o.remap, x);
      ValuesCount(raw[i].deps, x);
      assert Count(links[x], i) == Mentions(raw, i, x);
    }
    forall a: nat | a < |out| ensures Below(out[a].deps, |out|) && Below(out[a].backLinks, |out|) {
      assert Renamed(raw, o, out[a], a);
      assert AllInRange(raw[o.order[a]].deps, |raw|);
    }
  }
}
