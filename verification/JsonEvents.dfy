/**
 The event sequences that the writer of src/LuaJsonWriter.cpp is meant for: brackets match, members of objects have
 names and nothing else has, and there is one value at the top. They are exactly the events of the writable trees.
 */
module JsonEvents {
  import opened Options
  import opened JsonText
  import opened JsonWriter

  datatype Frame = InObject | InArray

  // The open containers, innermost last, and whether the top value is complete.
  datatype Nesting = Nesting(frames: seq<Frame>, complete: bool)

  // May a value with this name come next?
  predicate Expected(n: Nesting, name: Option<string>)
  {
    !n.complete && name.Some? == (n.frames != [] && n.frames[|n.frames| - 1].InObject?)
  }

  function Closed(n: Nesting): Nesting
    requires n.frames != []
  {
    var frames := n.frames[..|n.frames| - 1];
    Nesting(frames, frames == [])
  }

  function Nest(n: Nesting, e: Event): Option<Nesting>
  {
    match e
    case OpenObject(name) => if Expected(n, name) then Some(n.(frames := n.frames + [InObject])) else None
    case OpenArray(name) => if Expected(n, name) then Some(n.(frames := n.frames + [InArray])) else None
    case CloseObject =>
      if n.frames != [] && n.frames[|n.frames| - 1].InObject? then Some(Closed(n)) else None
    case CloseArray =>
      if n.frames != [] && n.frames[|n.frames| - 1].InArray? then Some(Closed(n)) else None
    case _ => if Expected(n, e.name) then Some(n.(complete := n.frames == [])) else None
  }

  function NestAll(n: Nesting, es: seq<Event>): Option<Nesting>
  {
    if es == [] then Some(n)
    else
      var before := NestAll(n, es[..|es| - 1]);
      if before.None? then None else Nest(before.value, es[|es| - 1])
  }

  const OUTSIDE: Nesting := Nesting([], false)

  predicate WellBracketed(es: seq<Event>)
  {
    NestAll(OUTSIDE, es) == Some(Nesting([], true))
  }

  /* ---- Every well-bracketed sequence is a tree ---- */

  // A container under construction.
  datatype Partial =
    | Items(name: Option<string>, items: seq<Json>)
    | Fields(name: Option<string>, fields: seq<Field>)

  ghost predicate PartialOk(p: Partial)
  {
    if p.Items? then WritableItems(p.items) else WritableFields(p.fields)
  }

  ghost function PartialEvents(p: Partial): seq<Event>
    requires PartialOk(p)
  {
    if p.Items? then [OpenArray(p.name)] + ItemEvents(p.items) else [OpenObject(p.name)] + FieldEvents(p.fields)
  }

  ghost predicate StackOk(stack: seq<Partial>)
  {
    forall i :: 0 <= i < |stack| ==> PartialOk(stack[i])
  }

  ghost function StackEvents(stack: seq<Partial>): seq<Event>
    requires StackOk(stack)
  {
    if stack == [] then [] else StackEvents(stack[..|stack| - 1]) + PartialEvents(stack[|stack| - 1])
  }

  function FrameOf(p: Partial): Frame
  {
    if p.Items? then InArray else InObject
  }

  // The containers under construction are the open ones, named as they should be.
  ghost predicate Shaped(n: Nesting, stack: seq<Partial>)
  {
    && |n.frames| == |stack| && (forall i :: 0 <= i < |stack| ==> n.frames[i] == FrameOf(stack[i]))
    && (forall i :: 0 < i < |stack| ==> stack[i].name.Some? == stack[i - 1].Fields?)
    && (stack != [] ==> stack[0].name.None? && !n.complete)
  }

  // Trees under construction, as the events so far describe them.
  ghost predicate Built(es: seq<Event>, n: Nesting, stack: seq<Partial>, root: Option<Json>)
  {
    && StackOk(stack) && Shaped(n, stack) && n.complete == root.Some?
    && (root.Some? ==> Writable(root.value) && es == Events(root.value, None))
    && (root.None? ==> es == StackEvents(stack))
  }

  lemma {:induction false} ItemsSnoc(items: seq<Json>, v: Json)
    requires WritableItems(items) && Writable(v)
    ensures WritableItems(items + [v])
    ensures ItemEvents(items + [v]) == ItemEvents(items) + Events(v, None)
    decreases |items|
  {
    if items == [] {
      assert items + [v] == [v] && [v][1..] == [];
      assert Events(v, None) + [] == Events(v, None) == [] + Events(v, None);
    } else {
      assert (items + [v])[1..] == items[1..] + [v];
      ItemsSnoc(items[1..], v);
      assert Events(items[0], None) + (ItemEvents(items[1..]) + Events(v, None)) ==
             (Events(items[0], None) + ItemEvents(items[1..])) + Events(v, None);
    }
  }

  lemma {:induction false} FieldsSnoc(fields: seq<Field>, f: Field)
    requires WritableFields(fields) && Writable(f.value)
    ensures WritableFields(fields + [f])
    ensures FieldEvents(fields + [f]) == FieldEvents(fields) + Events(f.value, Some(f.name))
    decreases |fields|
  {
    var last := Events(f.value, Some(f.name));
    if fields == [] {
      assert fields + [f] == [f] && [f][1..] == [];
      assert last + [] == last == [] + last;
    } else {
      assert (fields + [f])[1..] == fields[1..] + [f];
      FieldsSnoc(fields[1..], f);
      var first := Events(fields[0].value, Some(fields[0].name));
      assert first + (FieldEvents(fields[1..]) + last) == (first + FieldEvents(fields[1..])) + last;
    }
  }

  // A complete child joins the innermost container.
  function WithChild(p: Partial, name: Option<string>, v: Json): Partial
    requires p.Fields? ==> name.Some?
  {
    if p.Items? then p.(items := p.items + [v]) else p.(fields := p.fields + [Field(name.value, v)])
  }

  lemma {:induction false} ChildEvents(p: Partial, name: Option<string>, v: Json)
    requires PartialOk(p) && Writable(v) && name.Some? == p.Fields?
    ensures PartialOk(WithChild(p, name, v))
    ensures PartialEvents(WithChild(p, name, v)) == PartialEvents(p) + Events(v, name)
  {
    if p.Items? {
      ItemsSnoc(p.items, v);
      assert [OpenArray(p.name)] + (ItemEvents(p.items) + Events(v, None)) == PartialEvents(p) + Events(v, None);
    } else {
      FieldsSnoc(p.fields, Field(name.value, v));
      assert [OpenObject(p.name)] + (FieldEvents(p.fields) + Events(v, name)) == PartialEvents(p) + Events(v, name);
    }
  }

  lemma {:induction false} StackSnoc(stack: seq<Partial>, p: Partial)
    requires StackOk(stack) && PartialOk(p)
    ensures StackOk(stack + [p]) && StackEvents(stack + [p]) == StackEvents(stack) + PartialEvents(p)
  {
    assert (stack + [p])[..|stack|] == stack;
  }

  lemma {:induction false} Associate(a: seq<Event>, b: seq<Event>, c: seq<Event>)
    ensures (a + b) + c == a + (b + c)
  {
  }

  // The innermost container is exchanged for one with a further child.
  lemma {:induction false} ReplaceTop(stack: seq<Partial>, name: Option<string>, v: Json)
    requires StackOk(stack) && stack != [] && Writable(v) && name.Some? == stack[|stack| - 1].Fields?
    ensures var k := |stack| - 1;
            var stack' := stack[..k] + [WithChild(stack[k], name, v)];
            StackOk(stack') && StackEvents(stack') == StackEvents(stack) + Events(v, name)
  {
    var k := |stack| - 1;
    ChildEvents(stack[k], name, v);
    StackSnoc(stack[..k], WithChild(stack[k], name, v));
    Associate(StackEvents(stack[..k]), PartialEvents(stack[k]), Events(v, name));
  }

  lemma {:induction false} ShapedReplace(n: Nesting, stack: seq<Partial>, p: Partial)
    requires Shaped(n, stack) && stack != []
    requires FrameOf(p) == FrameOf(stack[|stack| - 1]) && p.name == stack[|stack| - 1].name
    ensures Shaped(n.(complete := false), stack[..|stack| - 1] + [p])
  {
    var stack' := stack[..|stack| - 1] + [p];
    assert forall i :: 0 <= i < |stack| - 1 ==> stack'[i] == stack[i];
  }

  // A value is complete, at the top or inside the innermost container.
  lemma {:induction false} AddValue(es: seq<Event>, n: Nesting, stack: seq<Partial>, name: Option<string>, v: Json)
    returns (stack': seq<Partial>, root': Option<Json>)
    requires Built(es, n, stack, None) && Expected(n, name) && Writable(v)
    ensures Built(es + Events(v, name), n.(complete := n.frames == []), stack', root')
  {
    if stack == [] {
      stack', root' := [], Some(v);
      assert [] + Events(v, name) == Events(v, name);
    } else {
      var k := |stack| - 1;
      ReplaceTop(stack, name, v);
      ShapedReplace(n, stack, WithChild(stack[k], name, v));
      stack', root' := stack[..k] + [WithChild(stack[k], name, v)], None;
    }
  }

  lemma {:induction false} OpenContainer(es: seq<Event>, n: Nesting, stack: seq<Partial>, p: Partial)
    requires Built(es, n, stack, None) && Expected(n, p.name)
    requires p == Items(p.name, []) || p == Fields(p.name, [])
    ensures Built(es + [if p.Items? then OpenArray(p.name) else OpenObject(p.name)],
                  n.(frames := n.frames + [FrameOf(p)]), stack + [p], None)
  {
    StackSnoc(stack, p);
    assert PartialEvents(p) == [if p.Items? then OpenArray(p.name) else OpenObject(p.name)];
  }

  // Closing turns the innermost container into a value of the one around it.
  lemma {:induction false} CloseContainer(es: seq<Event>, n: Nesting, stack: seq<Partial>, e: Event)
    returns (stack': seq<Partial>, root': Option<Json>)
    requires Built(es, n, stack, None) && stack != []
    requires e == if stack[|stack| - 1].Items? then CloseArray else CloseObject
    ensures Built(es + [e], Closed(n), stack', root')
  {
    var k := |stack| - 1;
    var p := stack[k];
    var v := if p.Items? then Array(p.items) else Object(p.fields);
    var below := StackEvents(stack[..k]);
    assert Events(v, p.name) == PartialEvents(p) + [e];
    var outer := Nesting(n.frames[..k], false);
    assert Built(below, outer, stack[..k], None);
    stack', root' := AddValue(below, outer, stack[..k], p.name, v);
    Associate(below, PartialEvents(p), [e]);
  }

  lemma {:induction false} BuildNext(es: seq<Event>, n: Nesting, stack: seq<Partial>, root: Option<Json>, e: Event)
    returns (stack': seq<Partial>, root': Option<Json>)
    requires Built(es, n, stack, root) && Nest(n, e).Some?
    ensures Built(es + [e], Nest(n, e).value, stack', root')
  {
    assert root.None?;
    match e
    case OpenObject(name) =>
      OpenContainer(es, n, stack, Fields(name, []));
      stack', root' := stack + [Fields(name, [])], None;
    case OpenArray(name) =>
      OpenContainer(es, n, stack, Items(name, []));
      stack', root' := stack + [Items(name, [])], None;
    case CloseObject => stack', root' := CloseContainer(es, n, stack, e);
    case CloseArray => stack', root' := CloseContainer(es, n, stack, e);
    case WriteNumber(name, text) => stack', root' := AddValue(es, n, stack, name, Number(text));
    case WriteBool(name, b) => stack', root' := AddValue(es, n, stack, name, Bool(b));
    case WriteString(name, chars) => stack', root' := AddValue(es, n, stack, name, Str(chars));
  }

  lemma {:induction false} SplitLast(es: seq<Event>)
    requires es != []
    ensures es[..|es| - 1] + [es[|es| - 1]] == es
  {
  }

  lemma {:induction false} BuildAll(es: seq<Event>) returns (stack: seq<Partial>, root: Option<Json>)
    requires NestAll(OUTSIDE, es).Some?
    ensures Built(es, NestAll(OUTSIDE, es).value, stack, root)
    decreases |es|
  {
    if es == [] {
      stack, root := [], None;
    } else {
      var front, last := es[..|es| - 1], es[|es| - 1];
      var stack0, root0 := BuildAll(front);
      stack, root := BuildNext(front, NestAll(OUTSIDE, front).value, stack0, root0, last);
      SplitLast(es);
    }
  }

  /* ---- Every tree is well bracketed ---- */

  lemma {:induction false} NestConcat(n: Nesting, es: seq<Event>, es': seq<Event>)
    ensures NestAll(n, es + es') == (var m := NestAll(n, es); if m.None? then None else NestAll(m.value, es'))
    decreases |es'|
  {
    if es' == [] {
      assert es + es' == es;
    } else {
      var k := |es'| - 1;
      assert (es + es')[..|es| + k] == es + es'[..k] && (es + es')[|es| + k] == es'[k];
      NestConcat(n, es, es'[..k]);
    }
  }

  lemma {:induction false} NestOne(n: Nesting, e: Event)
    ensures NestAll(n, [e]) == Nest(n, e)
  {
    assert [e][..0] == [];
  }

  lemma {:induction false} EventsNest(v: Json, name: Option<string>, n: Nesting)
    requires Writable(v) && Expected(n, name)
    ensures NestAll(n, Events(v, name)) == Some(n.(complete := n.frames == []))
    decreases v
  {
    if v.Array? {
      var inside := n.(frames := n.frames + [InArray]);
      ItemsNest(v.items, inside);
      BracketsNest(n, OpenArray(name), ItemEvents(v.items), CloseArray, inside);
    } else if v.Object? {
      var inside := n.(frames := n.frames + [InObject]);
      FieldsNest(v.fields, inside);
      BracketsNest(n, OpenObject(name), FieldEvents(v.fields), CloseObject, inside);
    } else {
      NestOne(n, Events(v, name)[0]);
    }
  }

  lemma {:induction false} BracketsNest(n: Nesting, open: Event, es: seq<Event>, close: Event, inside: Nesting)
    requires Nest(n, open) == Some(inside) && NestAll(inside, es) == Some(inside.(complete := false))
    requires inside.frames != [] && inside.frames[..|inside.frames| - 1] == n.frames
    requires Nest(inside.(complete := false), close) == Some(Closed(inside))
    ensures NestAll(n, [open] + es + [close]) == Some(n.(complete := n.frames == []))
  {
    NestConcat(n, [open] + es, [close]);
    NestConcat(n, [open], es);
    NestOne(n, open);
    NestOne(inside.(complete := false), close);
  }

  lemma {:induction false} ItemsNest(items: seq<Json>, n: Nesting)
    requires WritableItems(items) && n.frames != [] && n.frames[|n.frames| - 1].InArray? && !n.complete
    ensures NestAll(n, ItemEvents(items)) == Some(n)
    decreases items
  {
    if items != [] {
      EventsNest(items[0], None, n);
      NestConcat(n, Events(items[0], None), ItemEvents(items[1..]));
      ItemsNest(items[1..], n);
    }
  }

  lemma {:induction false} FieldsNest(fields: seq<Field>, n: Nesting)
    requires WritableFields(fields) && n.frames != [] && n.frames[|n.frames| - 1].InObject? && !n.complete
    ensures NestAll(n, FieldEvents(fields)) == Some(n)
    decreases fields
  {
    if fields != [] {
      var name := Some(fields[0].name);
      EventsNest(fields[0].value, name, n);
      NestConcat(n, Events(fields[0].value, name), FieldEvents(fields[1..]));
      FieldsNest(fields[1..], n);
    }
  }

  // The well-bracketed sequences are exactly the events of the writable trees.
  lemma {:induction false} WellBracketedExact(es: seq<Event>)
    ensures WellBracketed(es) <==> exists v :: Writable(v) && es == Events(v, None)
  {
    if WellBracketed(es) {
      var stack, root := BuildAll(es);
    }
    if v :| Writable(v) && es == Events(v, None) {
      EventsNest(v, None, OUTSIDE);
    }
  }
}
