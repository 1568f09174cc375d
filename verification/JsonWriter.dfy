/**
 The JSON writer of src/LuaJsonWriter.cpp: a buffered file and a flag that says whether the next element is the first
 of its container. The write events of a tree put its printed form on the file.
 */
module JsonWriter {
  import opened Options
  import opened JsonText

  // A call on the writer. Members of an object carry a name.
  datatype Event =
    | WriteNumber(name: Option<string>, text: string)
    | WriteBool(name: Option<string>, value: bool)
    | WriteString(name: Option<string>, chars: string)
    | OpenObject(name: Option<string>)
    | CloseObject
    | OpenArray(name: Option<string>)
    | CloseArray

  // What has been written, and m_FirstElem.
  datatype Output = Output(first: bool, text: string)

  // WriteCommon
  function Lead(first: bool, name: Option<string>): string
  {
    (if first then "" else [',']) + (if name.Some? then Quoted(name.value, "") + [':'] else "")
  }

  function Emit(w: Output, e: Event): Output
  {
    match e
    case WriteNumber(name, text) => Output(false, w.text + Lead(w.first, name) + text)
    case WriteBool(name, b) => Output(false, w.text + Lead(w.first, name) + if b then "true" else "false")
    case WriteString(name, chars) => Output(false, w.text + Lead(w.first, name) + Quoted(chars, ""))
    case OpenObject(name) => Output(true, w.text + Lead(w.first, name) + ['{'])
    case CloseObject => Output(false, w.text + ['}'])
    case OpenArray(name) => Output(true, w.text + Lead(w.first, name) + ['['])
    case CloseArray => Output(false, w.text + [']'])
  }

  function EmitAll(w: Output, es: seq<Event>): Output
  {
    if es == [] then w else Emit(EmitAll(w, es[..|es| - 1]), es[|es| - 1])
  }

  /* ---- Well-bracketed event sequences ---- */

  predicate WritableItems(items: seq<Json>)
    decreases items
  {
    items != [] ==> Writable(items[0]) && WritableItems(items[1..])
  }

  predicate WritableFields(fields: seq<Field>)
    decreases fields
  {
    fields != [] ==> Writable(fields[0].value) && WritableFields(fields[1..])
  }

  // The writer has no event for null.
  predicate Writable(v: Json)
    decreases v
  {
    match v
    case Null => false
    case Array(items) => WritableItems(items)
    case Object(fields) => WritableFields(fields)
    case _ => true
  }

  function ItemEvents(items: seq<Json>): seq<Event>
    requires WritableItems(items)
    decreases items
  {
    if items == [] then [] else Events(items[0], None) + ItemEvents(items[1..])
  }

  function FieldEvents(fields: seq<Field>): seq<Event>
    requires WritableFields(fields)
    decreases fields
  {
    if fields == [] then [] else Events(fields[0].value, Some(fields[0].name)) + FieldEvents(fields[1..])
  }

  function Events(v: Json, name: Option<string>): seq<Event>
    requires Writable(v)
    decreases v
  {
    match v
    case Bool(b) => [WriteBool(name, b)]
    case Number(text) => [WriteNumber(name, text)]
    case Str(chars) => [WriteString(name, chars)]
    case Array(items) => [OpenArray(name)] + ItemEvents(items) + [CloseArray]
    case Object(fields) => [OpenObject(name)] + FieldEvents(fields) + [CloseObject]
  }

  lemma {:induction false} EmitLast(w: Output, es: seq<Event>, e: Event)
    ensures EmitAll(w, es + [e]) == Emit(EmitAll(w, es), e)
  {
    assert (es + [e])[..|es|] == es;
  }

  lemma {:induction false} EmitNext(w: Output, es: seq<Event>, i: nat)
    requires i < |es|
    ensures EmitAll(w, es[..i + 1]) == Emit(EmitAll(w, es[..i]), es[i])
  {
    EmitLast(w, es[..i], es[i]);
    assert es[..i + 1] == es[..i] + [es[i]];
  }

  lemma {:induction false} EmitConcat(w: Output, es: seq<Event>, es': seq<Event>)
    ensures EmitAll(w, es + es') == EmitAll(EmitAll(w, es), es')
  {
    if es' == [] {
      assert es + es' == es;
    } else {
      var n := |es'| - 1;
      assert es + es' == (es + es'[..n]) + [es'[n]];
      EmitConcat(w, es, es'[..n]);
      EmitLast(w, es + es'[..n], es'[n]);
    }
  }

  lemma {:induction false} EmitOne(w: Output, e: Event)
    ensures EmitAll(w, [e]) == Emit(w, e)
  {
    EmitLast(w, [], e);
    assert [] + [e] == [e];
  }

  lemma {:induction false} EmitBracketed(w: Output, open: Event, es: seq<Event>, close: Event)
    ensures EmitAll(w, [open] + es + [close]) == Emit(EmitAll(Emit(w, open), es), close)
  {
    EmitLast(w, [open] + es, close);
    EmitConcat(w, [open], es);
    EmitOne(w, open);
  }

  lemma {:induction false} Associate(a: string, b: string, c: string)
    ensures (a + b) + c == a + (b + c)
  {
  }

  lemma {:induction false} AtomPrints(v: Json, name: Option<string>, w: Output, rest: string)
    requires Writable(v) && !v.Array? && !v.Object?
    ensures !EmitAll(w, Events(v, name)).first
    ensures EmitAll(w, Events(v, name)).text + rest == (w.text + Lead(w.first, name)) + Print(v, rest)
  {
    var lead := w.text + Lead(w.first, name);
    EmitOne(w, Events(v, name)[0]);
    match v
    case Bool(b) => Associate(lead, if b then "true" else "false", rest);
    case Number(text) => Associate(lead, text, rest);
    case Str(chars) =>
      Associate(lead, Quoted(chars, ""), rest);
      QuotedRest(chars, rest);
  }

  // A bracketed group: `lead`, the opening bracket, what is inside, the closing bracket, and the rest.
  lemma {:induction false} Bracketed(
    lead: string, open: string, inside: string, close: string, text: string, rest: string)
    requires text + (close + rest) == (lead + open) + inside
    ensures (text + close) + rest == lead + (open + inside)
  {
    Associate(text, close, rest);
    Associate(lead, open, inside);
  }

  lemma {:induction false} ArrayPrints(items: seq<Json>, name: Option<string>, w: Output, rest: string)
    requires WritableItems(items)
    requires var inside := Emit(w, OpenArray(name));
             EmitAll(inside, ItemEvents(items)).text + ([']'] + rest)
             == inside.text + PrintItems(items, true, [']'] + rest)
    ensures var w' := EmitAll(w, [OpenArray(name)] + ItemEvents(items) + [CloseArray]);
            && !w'.first
            && w'.text + rest == (w.text + Lead(w.first, name)) + (['['] + PrintItems(items, true, [']'] + rest))
  {
    EmitBracketed(w, OpenArray(name), ItemEvents(items), CloseArray);
    Bracketed(w.text + Lead(w.first, name), ['['], PrintItems(items, true, [']'] + rest), [']'],
              EmitAll(Emit(w, OpenArray(name)), ItemEvents(items)).text, rest);
  }

  lemma {:induction false} ObjectPrints(fields: seq<Field>, name: Option<string>, w: Output, rest: string)
    requires WritableFields(fields)
    requires var inside := Emit(w, OpenObject(name));
             EmitAll(inside, FieldEvents(fields)).text + (['}'] + rest)
             == inside.text + PrintFields(fields, true, ['}'] + rest)
    ensures var w' := EmitAll(w, [OpenObject(name)] + FieldEvents(fields) + [CloseObject]);
            && !w'.first
            && w'.text + rest == (w.text + Lead(w.first, name)) + (['{'] + PrintFields(fields, true, ['}'] + rest))
  {
    EmitBracketed(w, OpenObject(name), FieldEvents(fields), CloseObject);
    Bracketed(w.text + Lead(w.first, name), ['{'], PrintFields(fields, true, ['}'] + rest), ['}'],
              EmitAll(Emit(w, OpenObject(name)), FieldEvents(fields)).text, rest);
  }

  // The events of a value append its printed form.
  lemma {:induction false} EventsPrint(v: Json, name: Option<string>, w: Output, rest: string)
    requires Writable(v)
    ensures !EmitAll(w, Events(v, name)).first
    ensures EmitAll(w, Events(v, name)).text + rest == (w.text + Lead(w.first, name)) + Print(v, rest)
    decreases v
  {
    if v.Array? {
      ItemsPrint(v.items, Emit(w, OpenArray(name)), [']'] + rest);
      ArrayPrints(v.items, name, w, rest);
    } else if v.Object? {
      FieldsPrint(v.fields, Emit(w, OpenObject(name)), ['}'] + rest);
      ObjectPrints(v.fields, name, w, rest);
    } else {
      AtomPrints(v, name, w, rest);
    }
  }

  lemma {:induction false} PlainLead(first: bool, value: string)
    ensures Lead(first, None) + value == if first then value else [','] + value
  {
    assert Lead(first, None) == if first then "" else [','];
    assert "" + value == value;
  }

  lemma {:induction false} ItemsPrint(items: seq<Json>, w: Output, rest: string)
    requires WritableItems(items)
    ensures EmitAll(w, ItemEvents(items)).text + rest == w.text + PrintItems(items, w.first, rest)
    decreases items
  {
    if items != [] {
      EmitConcat(w, Events(items[0], None), ItemEvents(items[1..]));
      var tail := PrintItems(items[1..], false, rest);
      EventsPrint(items[0], None, w, tail);
      ItemsPrint(items[1..], EmitAll(w, Events(items[0], None)), rest);
      Associate(w.text, Lead(w.first, None), Print(items[0], tail));
      PlainLead(w.first, Print(items[0], tail));
    }
  }

  lemma {:induction false} LiteralTailRest(chars: string, rest: string)
    ensures LiteralTail(chars, "") + rest == LiteralTail(chars, rest)
  {
    if chars == "" {
      assert ['"'] + "" == ['"'];
    } else {
      LiteralTailRest(chars[1..], rest);
      Associate(EscapedChar(chars[0]), LiteralTail(chars[1..], ""), rest);
    }
  }

  lemma {:induction false} QuotedRest(chars: string, rest: string)
    ensures Quoted(chars, "") + rest == Quoted(chars, rest)
  {
    LiteralTailRest(chars, rest);
    Associate(['"'], LiteralTail(chars, ""), rest);
  }

  lemma {:induction false} NamedLead(first: bool, name: string, value: string)
    ensures Lead(first, Some(name)) + value ==
            (var here := Quoted(name, [':'] + value); if first then here else [','] + here)
  {
    var quoted := Quoted(name, "");
    Associate(quoted, [':'], value);
    QuotedRest(name, [':'] + value);
    Associate([','], quoted + [':'], value);
    assert first ==> Lead(first, Some(name)) == quoted + [':'];
  }

  lemma {:induction false} FieldsPrint(fields: seq<Field>, w: Output, rest: string)
    requires WritableFields(fields)
    ensures EmitAll(w, FieldEvents(fields)).text + rest == w.text + PrintFields(fields, w.first, rest)
    decreases fields
  {
    if fields != [] {
      var name, value := fields[0].name, fields[0].value;
      EmitConcat(w, Events(value, Some(name)), FieldEvents(fields[1..]));
      var tail := PrintFields(fields[1..], false, rest);
      EventsPrint(value, Some(name), w, tail);
      FieldsPrint(fields[1..], EmitAll(w, Events(value, Some(name))), rest);
      Associate(w.text, Lead(w.first, Some(name)), Print(value, tail));
      NamedLead(w.first, name, Print(value, tail));
    }
  }

  // Writing a tree to a new file and parsing the terminated file gives the tree back, exactly when its strings are
  // clean.
  lemma {:induction false} WriterRoundTrip(numberLength: string -> nat, v: Json)
    requires Writable(v) && Ascii(v) && Numerals(numberLength, v)
    ensures Parse(numberLength, EmitAll(Output(true, ""), Events(v, None)).text + [NUL])
            == if Clean(v) then Some(v) else None
  {
    var w := Output(true, "");
    EventsPrint(v, None, w, [NUL]);
    assert w.text + Lead(true, None) == "";
    assert "" + Print(v, [NUL]) == Print(v, [NUL]);
    RoundTrip(numberLength, v, [NUL]);
  }

  /* ---- Characters ---- */

  predicate AsciiName(name: Option<string>)
  {
    name.Some? ==> AsciiString(name.value)
  }

  predicate AsciiEvent(e: Event)
  {
    match e
    case WriteString(name, chars) => AsciiName(name) && AsciiString(chars)
    case CloseObject => true
    case CloseArray => true
    case _ => AsciiName(e.name)
  }

  predicate AsciiEvents(es: seq<Event>)
  {
    forall i :: 0 <= i < |es| ==> AsciiEvent(es[i])
  }

  lemma {:induction false} EventsAscii(v: Json, name: Option<string>)
    requires Writable(v) && Ascii(v) && AsciiName(name)
    ensures AsciiEvents(Events(v, name))
    decreases v
  {
    if v.Array? {
      ItemsAscii(v.items);
    } else if v.Object? {
      FieldsAscii(v.fields);
    }
  }

  lemma {:induction false} ItemsAscii(items: seq<Json>)
    requires WritableItems(items) && AsciiItems(items)
    ensures AsciiEvents(ItemEvents(items))
    decreases items
  {
    if items != [] {
      EventsAscii(items[0], None);
      ItemsAscii(items[1..]);
    }
  }

  lemma {:induction false} FieldsAscii(fields: seq<Field>)
    requires WritableFields(fields) && AsciiFields(fields)
    ensures AsciiEvents(FieldEvents(fields))
    decreases fields
  {
    if fields != [] {
      EventsAscii(fields[0].value, Some(fields[0].name));
      FieldsAscii(fields[1..]);
    }
  }

  /* ---- The writer itself ---- */

  const BUFFER_SIZE: nat := 8192

  class Writer {
    var firstElem: bool
    var used: nat
    const buffer: array<char>
    var file: string

    ghost predicate Valid()
      reads this
    {
      buffer.Length == BUFFER_SIZE && used <= BUFFER_SIZE
    }

    ghost function View(): Output
      requires Valid()
      reads this, buffer
    {
      Output(firstElem, file + buffer[..used])
    }

    constructor ()
      ensures Valid() && View() == Output(true, "") && fresh(buffer)
    {
      firstElem, used, file := true, 0, "";
      buffer := new char[BUFFER_SIZE](_ => NUL);
    }

    method Flush()
      requires Valid()
      modifies this`used, this`file
      ensures Valid() && View() == old(View()) && used == 0 && file == View().text
    {
      file := file + buffer[..used];
      used := 0;
    }

    method Append(ch: char)
      requires Valid()
      modifies this`used, this`file, buffer
      ensures Valid() && View() == Output(firstElem, old(View()).text + [ch])
    {
      if used == BUFFER_SIZE {
        Flush();
      }
      ghost var before := buffer[..used];
      buffer[used] := ch;
      used := used + 1;
      assert buffer[..used] == before + [ch];
    }

    method AppendString(s: string)
      requires Valid()
      modifies this`used, this`file, buffer
      ensures Valid() && View() == Output(firstElem, old(View()).text + s)
    {
      for i := 0 to |s|
        invariant Valid() && View() == Output(firstElem, old(View()).text + s[..i])
      {
        Append(s[i]);
        assert s[..i + 1] == s[..i] + [s[i]];
      }
      assert s[..|s|] == s;
    }

    // s_EscapeTable, as JsonWriterInit fills it
    method EscapeCode(ch: char) returns (r: Option<char>)
      ensures r == EscapeLetter(ch)
    {
      if ch == '\n' {
        return Some('n');
      } else if ch == '\r' {
        return Some('r');
      } else if ch == '\t' {
        return Some('t');
      } else if ch == 11 as char {
        return Some('v');
      } else if ch == 12 as char {
        return Some('f');
      } else if ch == '\\' || ch == '"' {
        return Some(ch);
      }
      return None;
    }

    method WriteEscapedChar(ch: char)
      requires Valid() && ch as int < 128
      modifies this`used, this`file, buffer
      ensures Valid() && View() == Output(firstElem, old(View()).text + EscapedChar(ch))
    {
      ghost var start := View().text;
      var e := EscapeCode(ch);
      if e.Some? {
        Append('\\');
        Append(e.value);
        assert start + ['\\'] + [e.value] == start + EscapedChar(ch);
      } else {
        Append(ch);
      }
    }

    method WriteEscapedString(s: string)
      requires Valid() && AsciiString(s)
      modifies this`used, this`file, buffer
      ensures Valid() && View() == Output(firstElem, old(View()).text + Quoted(s, ""))
    {
      ghost var start := View().text;
      Append('"');
      for i := 0 to |s|
        invariant Valid() && View().first == firstElem
        invariant View().text + LiteralTail(s[i..], "") == start + Quoted(s, "")
      {
        ghost var sofar := View().text;
        assert s[i..][1..] == s[i + 1..];
        WriteEscapedChar(s[i]);
        Associate(sofar, EscapedChar(s[i]), LiteralTail(s[i + 1..], ""));
      }
      Append('"');
    }

    method WriteCommon(name: Option<string>)
      requires Valid() && AsciiName(name)
      modifies this, buffer
      ensures Valid() && View() == Output(false, old(View()).text + Lead(old(firstElem), name))
    {
      ghost var start := View().text;
      if firstElem {
        firstElem := false;
      } else {
        Append(',');
      }
      if name.Some? {
        WriteEscapedString(name.value);
        Append(':');
      }
      assert View().text == start + Lead(old(firstElem), name);
    }

    // Each of the writer's Lua functions performs its event.
    method Perform(e: Event)
      requires Valid() && AsciiEvent(e)
      modifies this, buffer
      ensures Valid() && View() == Emit(old(View()), e)
    {
      match e
      case WriteNumber(name, text) =>
        WriteCommon(name);
        AppendString(text);
      case WriteBool(name, b) =>
        WriteCommon(name);
        AppendString(if b then "true" else "false");
      case WriteString(name, chars) =>
        WriteCommon(name);
        WriteEscapedString(chars);
      case OpenObject(name) =>
        WriteCommon(name);
        Append('{');
        firstElem := true;
      case CloseObject =>
        Append('}');
        firstElem := false;
      case OpenArray(name) =>
        WriteCommon(name);
        Append('[');
        firstElem := true;
      case CloseArray =>
        Append(']');
        firstElem := false;
    }

    method PerformAll(events: seq<Event>)
      requires Valid() && AsciiEvents(events)
      modifies this, buffer
      ensures Valid() && View() == EmitAll(old(View()), events)
    {
      ghost var start := View();
      for i := 0 to |events|
        invariant Valid() && View() == EmitAll(start, events[..i])
      {
        EmitNext(start, events, i);
        Perform(events[i]);
      }
      assert events[..|events|] == events;
    }
  }
}
