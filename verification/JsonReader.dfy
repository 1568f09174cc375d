/**
 The parser of src/JsonParse.cpp on its buffer. Strings are unescaped in place and handed out as positions in the
 buffer; they stay intact because every later write lies at or behind the cursor, and unread text is never written.
 */
module JsonReader {
  import opened Options
  import opened JsonText

  // A lexeme and a tree whose strings are positions in the buffer.
  datatype RawLexeme = RawStr(at: nat) | Plain(lexeme: Lexeme)
  datatype RawJson = RawString(at: nat) | RawArray(items: seq<RawJson>) | RawObject(fields: seq<RawField>) | Atom(value: Json)
  datatype RawField = RawField(name: nat, value: RawJson)

  // `done` holds the C string `chars` at this position.
  ghost predicate Stored(done: string, at: nat, chars: string)
  {
    && at + |chars| < |done| && (forall j :: 0 <= j < |chars| ==> done[at + j] == chars[j])
    && done[at + |chars|] == NUL && NUL !in chars
  }

  ghost predicate Agrees(done: string, l: RawLexeme, x: Lexeme)
  {
    if l.RawStr? then x.LexStr? && Stored(done, l.at, x.chars) else l.lexeme == x && !x.LexStr?
  }

  ghost predicate Denotes(done: string, raw: RawJson, v: Json)
    decreases raw
  {
    match raw
    case RawString(at) => v.Str? && Stored(done, at, v.chars)
    case RawArray(items) => v.Array? && DenoteItems(done, items, v.items)
    case RawObject(fields) => v.Object? && DenoteFields(done, fields, v.fields)
    case Atom(x) => v == x && (x.Null? || x.Bool? || x.Number?)
  }

  ghost predicate DenoteItems(done: string, raws: seq<RawJson>, items: seq<Json>)
    decreases raws
  {
    |raws| == |items| && forall i :: 0 <= i < |raws| ==> Denotes(done, raws[i], items[i])
  }

  ghost predicate DenoteFields(done: string, raws: seq<RawField>, fields: seq<Field>)
    decreases raws
  {
    |raws| == |fields| && forall i :: 0 <= i < |raws| ==> DenotesField(done, raws[i], fields[i])
  }

  ghost predicate DenotesField(done: string, raw: RawField, field: Field)
    decreases raw
  {
    Stored(done, raw.name, field.name) && Denotes(done, raw.value, field.value)
  }

  /* ---- Text already read never changes meaning ---- */

  lemma {:induction false} StoredExtends(done: string, more: string, at: nat, chars: string)
    requires done <= more && Stored(done, at, chars)
    ensures Stored(more, at, chars)
  {
    assert forall j :: 0 <= j < |done| ==> more[j] == done[j];
  }

  lemma {:induction false} DenotesExtends(done: string, more: string, raw: RawJson, v: Json)
    requires done <= more && Denotes(done, raw, v)
    ensures Denotes(more, raw, v)
    decreases raw
  {
    match raw
    case RawString(at) => StoredExtends(done, more, at, v.chars);
    case RawArray(items) => ItemsExtend(done, more, items, v.items);
    case RawObject(fields) => FieldsExtend(done, more, fields, v.fields);
    case Atom(_) =>
  }

  lemma {:induction false} ItemsExtend(done: string, more: string, raws: seq<RawJson>, items: seq<Json>)
    requires done <= more && DenoteItems(done, raws, items)
    ensures DenoteItems(more, raws, items)
    decreases raws
  {
    forall i | 0 <= i < |raws| ensures Denotes(more, raws[i], items[i]) {
      DenotesExtends(done, more, raws[i], items[i]);
    }
  }

  lemma {:induction false} FieldsExtend(done: string, more: string, raws: seq<RawField>, fields: seq<Field>)
    requires done <= more && DenoteFields(done, raws, fields)
    ensures DenoteFields(more, raws, fields)
    decreases raws
  {
    forall i | 0 <= i < |raws| ensures DenotesField(more, raws[i], fields[i]) {
      FieldExtends(done, more, raws[i], fields[i]);
    }
  }

  lemma {:induction false} FieldExtends(done: string, more: string, raw: RawField, field: Field)
    requires done <= more && DenotesField(done, raw, field)
    ensures DenotesField(more, raw, field)
    decreases raw
  {
    StoredExtends(done, more, raw.name, field.name);
    DenotesExtends(done, more, raw.value, field.value);
  }

  /* ---- Unescaping in place ---- */

  // The rest of a literal of which `chars` have been read.
  ghost function Continue(chars: string, s: string): Literal
    decreases |s|
  {
    var u := NextUnit(s);
    match u
    case Bad => NoLiteral
    case Quote => Literal(chars, s[1..])
    case Unit(ch, n) => Continue(chars + [ch], s[n..])
  }

  lemma {:induction false} ContinueIsBody(chars: string, s: string)
    ensures var l := StringBody(s);
            Continue(chars, s) == if l.Literal? then Literal(chars + l.chars, l.rest) else NoLiteral
    decreases |s|
  {
    var u := NextUnit(s);
    if u.Quote? {
      assert chars + "" == chars;
    } else if u.Unit? {
      ContinueIsBody(chars + [u.ch], s[u.length..]);
      var l := StringBody(s[u.length..]);
      if l.Literal? {
        assert chars + ([u.ch] + l.chars) == (chars + [u.ch]) + l.chars;
      }
    }
  }

  // A unit of a NUL-terminated text is read without touching anything behind the terminator.
  method ReadUnit(buffer: array<char>, r: nat) returns (u: Unit)
    requires r < buffer.Length && buffer[buffer.Length - 1] == NUL
    ensures u == NextUnit(buffer[r..])
    ensures u.Unit? ==> r + u.length < buffer.Length
    ensures u.Quote? ==> buffer[r] == '"'
  {
    ghost var s := buffer[r..];
    var ch := buffer[r];
    assert s[0] == ch;
    if ch == NUL {
      return Bad;
    }
    if ch == '"' {
      return Quote;
    }
    if ch != '\\' {
      return Unit(ch, 1);
    }
    var next := buffer[r + 1];
    assert s[1] == next;
    if next != 'u' {
      var c := EscapeCode(next);
      if c.Some? {
        return Unit(c.value, 2);
      }
      return Bad;
    }
    var code := ReadHex(buffer, r + 2);
    assert |s| >= 6 ==> s[2..] == buffer[r + 2..];
    if code.Some? && code.value <= 127 {
      return Unit(code.value as char, 6);
    }
    return Bad;
  }

  // The switch of GetStringLexeme.
  method EscapeCode(letter: char) returns (r: Option<char>)
    ensures r == Unescaped(letter)
  {
    match letter
    case '\\' => return Some('\\');
    case '"' => return Some('"');
    case '/' => return Some('/');
    case 'b' => return Some(8 as char);
    case 'f' => return Some(12 as char);
    case 'n' => return Some('\n');
    case 'r' => return Some('\r');
    case 't' => return Some('\t');
    case _ => return None;
  }

  method DigitValue(ch: char) returns (r: Option<nat>)
    ensures r == HexDigit(ch)
  {
    if '0' <= ch <= '9' {
      return Some(ch as int - '0' as int);
    }
    var lower := if 'A' <= ch <= 'Z' then (ch as int + 32) as char else ch;
    if 'a' <= lower <= 'f' {
      return Some(lower as int - 'a' as int + 10);
    }
    return None;
  }

  // The single-character cases of JsonLexerFetchNext.
  method SimpleLexeme(ch: char) returns (r: Option<Lexeme>)
    ensures r == Punctuation(ch)
  {
    match ch
    case '{' => return Some(BeginObject);
    case '}' => return Some(EndObject);
    case '[' => return Some(BeginArray);
    case ']' => return Some(EndArray);
    case ',' => return Some(Comma);
    case ':' => return Some(Colon);
    case _ => return None;
  }

  // Four hexadecimal digits.
  method ReadHex(buffer: array<char>, r: nat) returns (code: Option<nat>)
    requires r < buffer.Length && buffer[buffer.Length - 1] == NUL
    ensures if r + 4 <= buffer.Length then code == HexValue(buffer[r..], 4) else code.None?
    ensures code.Some? ==> r + 4 < buffer.Length
  {
    ghost var s := buffer[r..];
    var value := 0;
    for i := 0 to 4
      invariant r + i < buffer.Length
      invariant HexValue(s, i) == Some(value)
    {
      var digit := DigitValue(buffer[r + i]);
      assert s[i] == buffer[r + i];
      if digit.None? {
        HexPrefix(s, i);
        return None;
      }
      value := 16 * value + digit.value;
    }
    return Some(value);
  }

  lemma {:induction false} HexPrefix(s: string, i: nat)
    requires i < |s| && i < 4 && HexDigit(s[i]).None?
    ensures |s| >= 4 ==> HexValue(s, 4).None?
  {
    if |s| >= 4 {
      assert HexValue(s, i + 1).None?;
      if i < 3 {
        assert HexValue(s, i + 2).None?;
      }
      if i < 2 {
        assert HexValue(s, i + 3).None?;
      }
    }
  }

  // Halfway through a literal that starts at `start`: `chars` written up to wptr, everything from rptr on unread.
  ghost predicate Midway(text: string, now: string, start: nat, wptr: nat, rptr: nat, chars: string)
  {
    && |now| == |text| && start <= wptr < rptr < |text| && wptr == start + |chars|
    && (forall i :: 0 <= i < start ==> now[i] == text[i])
    && (forall i :: rptr <= i < |text| ==> now[i] == text[i])
    && (forall j :: 0 <= j < |chars| ==> now[start + j] == chars[j])
  }

  lemma {:induction false} PutChar(
    text: string, now: string, start: nat, wptr: nat, rptr: nat, chars: string, ch: char, n: nat)
    requires Midway(text, now, start, wptr, rptr, chars) && 0 < n && rptr + n < |text|
    ensures Midway(text, now[wptr := ch], start, wptr + 1, rptr + n, chars + [ch])
  {
  }

  // The literal is complete: what the buffer then holds.
  ghost predicate Rewritten(text: string, now: string, start: nat, end: nat, chars: string)
  {
    && |now| == |text| && start < end < |text|
    && (forall i :: 0 <= i < start ==> now[i] == text[i])
    && (forall i :: end <= i < |text| ==> now[i] == text[i])
    && Stored(now[..end], start, CString(chars))
  }

  lemma {:induction false} PutTerminator(text: string, now: string, start: nat, wptr: nat, rptr: nat, chars: string)
    requires Midway(text, now, start, wptr, rptr, chars) && rptr + 1 < |text|
    ensures Rewritten(text, now[wptr := NUL], start, rptr + 1, chars)
  {
    StoredCString(now[wptr := NUL][..rptr + 1], start, chars);
  }

  method Put(buffer: array<char>, i: nat, ch: char)
    requires i < buffer.Length
    modifies buffer
    ensures buffer[..] == old(buffer[..])[i := ch]
  {
    buffer[i] := ch;
  }

  // The state of the unescaping loop.
  ghost predicate Unescaping(
    text: string, now: string, start: nat, wptr: nat, rptr: nat, chars: string, whole: Literal)
  {
    Midway(text, now, start, wptr, rptr, chars) && Continue(chars, text[rptr..]) == whole
  }

  lemma {:induction false} UnescapingStart(text: string, start: nat)
    requires start + 1 < |text|
    ensures Unescaping(text, text, start, start, start + 1, "", StringBody(text[start + 1..]))
  {
    var l := StringBody(text[start + 1..]);
    ContinueIsBody("", text[start + 1..]);
    if l.Literal? {
      assert "" + l.chars == l.chars;
    }
  }

  lemma {:induction false} UnitStep(
    text: string, now: string, start: nat, wptr: nat, rptr: nat, chars: string, whole: Literal, u: Unit)
    requires Unescaping(text, now, start, wptr, rptr, chars, whole)
    requires u == NextUnit(now[rptr..])
    ensures u.Bad? ==> whole.NoLiteral?
    ensures u.Quote? && rptr + 1 < |text| ==>
              && whole == Literal(chars, text[rptr + 1..])
              && Rewritten(text, now[wptr := NUL], start, rptr + 1, chars)
    ensures u.Unit? && rptr + u.length < |text| ==>
              Unescaping(text, now[wptr := u.ch], start, wptr + 1, rptr + u.length, chars + [u.ch], whole)
  {
    assert now[rptr..] == text[rptr..];
    if u.Quote? && rptr + 1 < |text| {
      PutTerminator(text, now, start, wptr, rptr, chars);
      assert text[rptr + 1..] == text[rptr..][1..];
    }
    if u.Unit? && rptr + u.length < |text| {
      PutChar(text, now, start, wptr, rptr, chars, u.ch, u.length);
      assert text[rptr..][u.length..] == text[rptr + u.length..];
    }
  }

  lemma {:induction false} TerminatorAhead(text: string, now: string, start: nat, wptr: nat, rptr: nat, chars: string)
    requires Midway(text, now, start, wptr, rptr, chars)
    ensures now[|now| - 1] == text[|text| - 1]
  {
  }

  // One unit is read and its character written; the closing quote becomes the terminator.
  method UnescapeUnit(buffer: array<char>, ghost text: string, ghost now: string, ghost start: nat, wptr: nat, rptr: nat,
                      ghost chars: string, ghost whole: Literal)
    returns (u: Unit, ghost now': string, ghost chars': string)
    requires wptr < rptr < buffer.Length == |text| && text[|text| - 1] == NUL
    requires now == buffer[..] && Unescaping(text, now, start, wptr, rptr, chars, whole)
    modifies buffer
    ensures now' == buffer[..]
    ensures u.Bad? ==> whole.NoLiteral?
    ensures u.Quote? ==>
              && rptr + 1 < |text| && whole.Literal? && whole.rest == text[rptr + 1..]
              && Rewritten(text, now', start, rptr + 1, whole.chars)
    ensures u.Unit? ==>
              && wptr + 1 < rptr + u.length < |text| && u.length > 0
              && Unescaping(text, now', start, wptr + 1, rptr + u.length, chars', whole)
  {
    TerminatorAhead(text, now, start, wptr, rptr, chars);
    u := ReadUnit(buffer, rptr);
    assert buffer[rptr..] == now[rptr..];
    UnitStep(text, now, start, wptr, rptr, chars, whole, u);
    now', chars' := now, chars;
    if u.Quote? {
      Put(buffer, wptr, NUL);
      now' := now[wptr := NUL];
    } else if u.Unit? {
      Put(buffer, wptr, u.ch);
      now', chars' := now[wptr := u.ch], chars + [u.ch];
    }
  }

  // GetStringLexeme at the opening quote: the characters replace the literal from its first position on. Text before
  // the quote and behind the literal is untouched, and the write position never overtakes the read position.
  method UnescapeInPlace(buffer: array<char>, start: nat) returns (r: Option<nat>)
    requires start < buffer.Length && buffer[start] == '"' && buffer[buffer.Length - 1] == NUL
    modifies buffer
    ensures r.None? <==> StringBody(old(buffer[..])[start + 1..]).NoLiteral?
    ensures r.Some? ==>
              var whole := StringBody(old(buffer[..])[start + 1..]);
              && Rewritten(old(buffer[..]), buffer[..], start, r.value, whole.chars)
              && whole.rest == old(buffer[..])[r.value..]
  {
    ghost var text := buffer[..];
    UnescapingStart(text, start);
    ghost var now;
    r, now := UnescapeLoop(buffer, text, start, StringBody(text[start + 1..]));
  }

  method UnescapeLoop(buffer: array<char>, ghost text: string, start: nat, ghost whole: Literal)
    returns (r: Option<nat>, ghost now: string)
    requires start + 1 < buffer.Length == |text| && text[|text| - 1] == NUL && text == buffer[..]
    requires Unescaping(text, text, start, start, start + 1, "", whole)
    modifies buffer
    ensures now == buffer[..]
    ensures r.None? <==> whole.NoLiteral?
    ensures r.Some? ==> Rewritten(text, now, start, r.value, whole.chars) && whole.rest == text[r.value..]
  {
    ghost var chars := "";
    var rptr: nat, wptr: nat := start + 1, start;
    now := text;
    while true
      invariant wptr < rptr < buffer.Length && now == buffer[..]
      invariant Unescaping(text, now, start, wptr, rptr, chars, whole)
      decreases buffer.Length - rptr
    {
      var u;
      u, now, chars := UnescapeUnit(buffer, text, now, start, wptr, rptr, chars, whole);
      if u.Bad? {
        return None, now;
      }
      if u.Quote? {
        return Some(rptr + 1), now;
      }
      wptr, rptr := wptr + 1, rptr + u.length;
    }
  }

  lemma {:induction false} StoredCString(done: string, at: nat, chars: string)
    requires at + |chars| < |done| && done[at + |chars|] == NUL
    requires forall j :: 0 <= j < |chars| ==> done[at + j] == chars[j]
    ensures Stored(done, at, CString(chars))
  {
    var c := CString(chars);
    assert forall j :: 0 <= j < |c| ==> c[j] == chars[j];
  }

  /* ---- The lexer and the parser ---- */

  // strtod never reads past the end of a C string.
  ghost predicate StopsAtNul(numberLength: string -> nat)
  {
    forall s :: numberLength(s) <= |CString(s)|
  }

  // The suffix of a text from a position on.
  function From(text: string, at: nat): string
    requires at <= |text|
  {
    text[at..]
  }

  // One turn of the array loop of the specification.
  lemma {:induction false} ItemsUnfold(numberLength: string -> nat, s: string, seen: seq<Json>)
    ensures var l, r := Lex(numberLength, s), ParseItems(numberLength, s, seen);
            && (l.lexeme.Error? ==> r.Fail?)
            && (l.lexeme.EndArray? ==> r == Done(Array(seen), l.rest))
            && (seen != [] && !l.lexeme.EndArray? && !l.lexeme.Comma? ==> r.Fail?)
            && (!l.lexeme.EndArray? && (seen == [] || l.lexeme.Comma?) ==>
                  var v := JsonText.ParseValue(numberLength, if seen == [] then s else l.rest);
                  r == if v.Fail? then Fail else ParseItems(numberLength, v.rest, seen + [v.value]))
  {
  }

  // One turn of the object loop of the specification.
  lemma {:induction false} MembersUnfold(
    numberLength: string -> nat, s: string, seen: seq<Field>, seenValue: bool, seenComma: bool)
    ensures var l, r := Lex(numberLength, s), ParseMembers(numberLength, s, seen, seenValue, seenComma);
            && (l.lexeme.EndObject? ==> r == Done(Object(seen), l.rest))
            && (l.lexeme.Comma? ==>
                  r == if !seenValue || seenComma then Fail else ParseMembers(numberLength, l.rest, seen, false, true))
            && (l.lexeme.LexStr? && seenValue && !seenComma ==> r.Fail?)
            && (!l.lexeme.EndObject? && !l.lexeme.Comma? && !l.lexeme.LexStr? ==> r.Fail?)
  {
  }

  // What the loop of JsonParseObject or JsonParseArray does next.
  datatype Turn = Stop | End | Separator | Item(at: nat)

  lemma {:induction false} FrameStep(before: string, now: string, after: string, from: nat, at: nat)
    requires from <= at <= |now| && at <= |after| && from <= |before|
    requires now[..from] == before[..from] && after[..at] == now[..at]
    ensures after[..from] == before[..from]
  {
    assert after[..from] == after[..at][..from];
    assert now[..from] == now[..at][..from];
  }

  lemma {:induction false} SameTail(text: string, before: string, p: nat)
    requires p < |text| == |before| && before[p..] == text[p..]
    ensures before[p + 1..] == text[p..][1..] && before[|before| - 1] == text[|text| - 1] && text[p..][0] == before[p]
  {
    assert before[p..][1..] == before[p + 1..];
    assert before[p..][|text| - 1 - p] == text[p..][|text| - 1 - p];
    assert before[p..][0] == before[p];
  }

  lemma {:induction false} Advanced(text: string, now: string, p: nat, n: nat)
    requires |text| == |now| && p + n <= |text| && now[p..] == text[p..]
    ensures now[p..p + n] == text[p..][..n] && text[p..][n..] == text[p + n..] && now[p + n..] == text[p + n..]
  {
    assert now[p..][..n] == now[p..p + n] && now[p..][n..] == now[p + n..];
  }

  function Keyword(word: string): (l: Lexeme)
    ensures !l.LexStr?
  {
    if word == "true" then LexBool(true)
    else if word == "false" then LexBool(false)
    else if word == "null" then LexNull
    else Error
  }

  // What the specification makes of a word, of a single character and of the end of the text at p.
  lemma {:induction false} LexWordAt(numberLength: string -> nat, text: string, from: nat, p: nat, e: nat)
    requires from <= p < |text| && p <= e <= |text| && SkipWhitespace(From(text, from)) == text[p..]
    requires text[p] != '-' && !IsDigit(text[p]) && text[p] != '"' && text[p] != NUL && Punctuation(text[p]).None?
    requires AlnumRun(text[p..]) == e - p
    ensures var l := Lex(numberLength, From(text, from));
            l.lexeme == Keyword(text[p..e]) && (!l.lexeme.Error? ==> l.rest == text[e..])
  {
    var s := text[p..];
    assert s[0] == text[p] && s[..e - p] == text[p..e] && s[e - p..] == text[e..];
  }

  lemma {:induction false} LexSimpleAt(numberLength: string -> nat, text: string, from: nat, p: nat)
    requires from <= p < |text| && SkipWhitespace(From(text, from)) == text[p..]
    requires text[p] == NUL || Punctuation(text[p]).Some?
    ensures Lex(numberLength, From(text, from)) ==
            if text[p] == NUL then Token(Eof, text[p..]) else Token(Punctuation(text[p]).value, text[p + 1..])
  {
    var s := text[p..];
    assert s[0] == text[p] && s[1..] == text[p + 1..];
  }

  // Unescaping leaves unread text and text before the literal as they were.
  lemma {:induction false} RewrittenTail(
    text: string, before: string, now: string, from: nat, p: nat, end: nat, chars: string)
    requires |text| == |before| && from <= p < |text| && before[p..] == text[p..]
    requires Rewritten(before, now, p, end, chars)
    ensures now[end..] == text[end..] == before[end..] && now[..from] == before[..from]
  {
    assert forall i :: p <= i < |text| ==> before[i] == before[p..][i - p] == text[i];
  }

  class Reader {
    const buffer: array<char>
    const numberLength: string -> nat
    ghost const text: string           // the buffer's original contents
    var cursor: nat
    var lexeme: Option<RawLexeme>      // the lookahead; None is kJsonLexInvalid
    ghost var pos: nat                 // where the next lexeme to be delivered starts

    ghost predicate Valid()
      reads this, buffer
    {
      && buffer.Length == |text| > 0 && text[|text| - 1] == NUL && StopsAtNul(numberLength)
      && pos <= cursor < |text| && buffer[cursor..] == text[cursor..]
      && (lexeme.None? ==> pos == cursor)
      && (lexeme.Some? ==>
            var l := Lex(numberLength, From(text, pos));
            !l.lexeme.Error? && l.rest == From(text, cursor) && Agrees(buffer[..cursor], lexeme.value, l.lexeme))
    }

    constructor (buffer: array<char>, numberLength: string -> nat)
      requires buffer.Length > 0 && buffer[buffer.Length - 1] == NUL && StopsAtNul(numberLength)
      ensures Valid() && this.buffer == buffer && this.numberLength == numberLength
      ensures text == buffer[..] && pos == 0 && lexeme.None?
    {
      this.buffer, this.numberLength, this.text := buffer, numberLength, buffer[..];
      cursor, lexeme, pos := 0, None, 0;
    }

    method SkipSpaces() returns (p: nat)
      requires Valid() && lexeme.None?
      ensures At(p)
    {
      p := cursor;
      while buffer[p] == ' ' || '\t' <= buffer[p] <= '\r'
        invariant cursor <= p < |text|
        invariant SkipWhitespace(From(text, p)) == SkipWhitespace(From(text, cursor))
        invariant text[p..] == buffer[p..]
        decreases |text| - p
      {
        assert From(text, p)[0] == buffer[p] && From(text, p)[1..] == From(text, p + 1);
        assert buffer[p + 1..] == buffer[p..][1..];
        p := p + 1;
      }
      assert From(text, p)[0] == buffer[p];
    }

    // A lexeme has been read: the cursor is behind it, unread text and text before `from` are as they were.
    ghost predicate Fetched(from: nat, before: string, l: RawLexeme, t: Token)
      reads this, buffer
    {
      && from <= cursor < |text| == buffer.Length && from <= |before|
      && buffer[cursor..] == text[cursor..] && buffer[..from] == before[..from]
      && t.rest == From(text, cursor) && Agrees(buffer[..cursor], l, t.lexeme)
    }

    // At the first character of a lexeme.
    ghost predicate At(p: nat)
      reads this, buffer
    {
      && Valid() && lexeme.None? && cursor <= p < |text|
      && From(text, p) == SkipWhitespace(From(text, cursor)) && buffer[p..] == text[p..] && buffer[p] == text[p]
    }

    method FetchNumber(p: nat) returns (l: RawLexeme)
      requires At(p) && (buffer[p] == '-' || IsDigit(buffer[p]))
      modifies this`cursor
      ensures var t := Lex(numberLength, From(text, old(cursor)));
              && (l == Plain(Error) <==> t.lexeme.Error?)
              && (!t.lexeme.Error? ==> Fetched(old(cursor), old(buffer[..]), l, t))
    {
      ghost var s := From(text, p);
      assert s[0] == text[p];
      var n := numberLength(buffer[p..]);
      TerminatedCString(s);
      if n == 0 {
        return Plain(Error);
      }
      l := Plain(LexNumber(buffer[p..p + n]));
      Advanced(text, buffer[..], p, n);
      assert buffer[..][p..p + n] == buffer[p..p + n];
      cursor := p + n;
    }

    method FetchString(p: nat) returns (l: RawLexeme)
      requires At(p) && buffer[p] == '"'
      modifies this`cursor, buffer
      ensures var t := Lex(numberLength, From(text, old(cursor)));
              && (l == Plain(Error) <==> t.lexeme.Error?)
              && (!t.lexeme.Error? ==> Fetched(old(cursor), old(buffer[..]), l, t))
    {
      ghost var s, before := From(text, p), buffer[..];
      SameTail(text, before, p);
      assert s[0] == '"' && s[1..] == before[p + 1..];
      var end := UnescapeInPlace(buffer, p);
      if end.None? {
        return Plain(Error);
      }
      RewrittenTail(text, before, buffer[..], cursor, p, end.value, StringBody(s[1..]).chars);
      l, cursor := RawStr(p), end.value;
    }

    method WordEnd(p: nat) returns (e: nat)
      requires At(p)
      ensures p <= e < |text| && e - p == AlnumRun(From(text, p))
    {
      e := p;
      while '0' <= buffer[e] <= '9' || 'a' <= buffer[e] <= 'z' || 'A' <= buffer[e] <= 'Z'
        invariant p <= e < |text| && buffer[e..] == text[e..]
        invariant AlnumRun(From(text, p)) == e - p + AlnumRun(From(text, e))
        decreases |text| - e
      {
        assert From(text, e)[0] == buffer[e] && From(text, e)[1..] == From(text, e + 1);
        assert buffer[e + 1..] == buffer[e..][1..];
        e := e + 1;
      }
      assert From(text, e)[0] == buffer[e];
    }

    method FetchLiteral(p: nat) returns (l: RawLexeme)
      requires At(p) && Punctuation(buffer[p]).None? && buffer[p] != NUL && buffer[p] != '"'
      requires buffer[p] != '-' && !IsDigit(buffer[p])
      modifies this`cursor
      ensures var t := Lex(numberLength, From(text, old(cursor)));
              && (l == Plain(Error) <==> t.lexeme.Error?)
              && (!t.lexeme.Error? ==> Fetched(old(cursor), old(buffer[..]), l, t))
    {
      var e := WordEnd(p);
      var word := buffer[p..e];
      LexWordAt(numberLength, text, cursor, p, e);
      assert word == text[p..e] && buffer[e..] == text[e..] by {
        Advanced(text, buffer[..], p, e - p);
      }
      l := Plain(Keyword(word));
      if l != Plain(Error) {
        cursor := e;
      }
    }

    // The end of the text, or a single character.
    method FetchSimple(p: nat) returns (l: RawLexeme)
      requires At(p) && (buffer[p] == NUL || Punctuation(buffer[p]).Some?)
      modifies this`cursor
      ensures var t := Lex(numberLength, From(text, old(cursor)));
              !t.lexeme.Error? && l != Plain(Error) && Fetched(old(cursor), old(buffer[..]), l, t)
    {
      LexSimpleAt(numberLength, text, cursor, p);
      if buffer[p] == NUL {
        cursor := p;
        l := Plain(Eof);
      } else {
        assert buffer[p + 1..] == text[p + 1..] by {
          Advanced(text, buffer[..], p, 1);
        }
        var simple := SimpleLexeme(buffer[p]);
        l := Plain(simple.value);
        cursor := p + 1;
      }
    }

    // JsonLexerFetchNext
    method FetchNext() returns (l: RawLexeme)
      requires Valid() && lexeme.None?
      modifies this`cursor, buffer
      ensures var t := Lex(numberLength, From(text, old(cursor)));
              && (l == Plain(Error) <==> t.lexeme.Error?)
              && (!t.lexeme.Error? ==> Fetched(old(cursor), old(buffer[..]), l, t))
    {
      var p := SkipSpaces();
      var simple := SimpleLexeme(buffer[p]);
      if buffer[p] == '-' || '0' <= buffer[p] <= '9' {
        l := FetchNumber(p);
      } else if buffer[p] == '"' {
        l := FetchString(p);
      } else if buffer[p] == NUL || simple.Some? {
        l := FetchSimple(p);
      } else {
        l := FetchLiteral(p);
      }
    }

    // JsonLexerNext
    method Next() returns (l: RawLexeme)
      requires Valid()
      modifies this, buffer
      ensures var t := Lex(numberLength, From(text, old(pos)));
              && (l == Plain(Error) <==> t.lexeme.Error?)
              && (!t.lexeme.Error? ==> Fetched(old(pos), old(buffer[..]), l, t) && Valid() && lexeme.None?)
    {
      if lexeme.Some? {
        l := lexeme.value;
        lexeme, pos := None, cursor;
      } else {
        l := FetchNext();
        pos := cursor;
      }
    }

    // JsonLexerPeek
    method Peek() returns (l: RawLexeme)
      requires Valid()
      modifies this`cursor, this`lexeme, buffer
      ensures var t := Lex(numberLength, From(text, pos));
              && (l == Plain(Error) <==> t.lexeme.Error?)
              && (!t.lexeme.Error? ==> Fetched(pos, old(buffer[..]), l, t) && Valid() && lexeme == Some(l))
    {
      if lexeme.None? {
        var next := FetchNext();
        lexeme := Some(next);
      }
      l := lexeme.value;
    }

    // JsonLexerSkip after a peek.
    method Skip()
      requires Valid() && lexeme.Some?
      modifies this`lexeme, this`pos
      ensures Valid() && lexeme.None? && pos == cursor
    {
      lexeme, pos := None, cursor;
    }

    // A value has been read.
    ghost predicate Accepted(from: nat, before: string, raw: RawJson, v: Parsed)
      reads this, buffer
    {
      && Valid() && lexeme.None? && v.Done? && from <= pos && from <= |before|
      && buffer[..from] == before[..from] && v.rest == From(text, pos) && Denotes(buffer[..pos], raw, v.value)
    }

    // A lexeme that is a value by itself.
    method ParseAtom(l: RawLexeme) returns (r: Option<RawJson>)
      requires Valid() && lexeme == Some(l) && l != Plain(BeginObject) && l != Plain(BeginArray)
      modifies this`lexeme, this`pos
      ensures var v := JsonText.ParseValue(numberLength, From(text, old(pos)));
              && (r.None? <==> v.Fail?)
              && (r.Some? ==> Accepted(old(pos), old(buffer[..]), r.value, v))
    {
      if l.RawStr? {
        r := Some(RawString(l.at));
      } else if l.lexeme.LexNumber? {
        r := Some(Atom(Number(l.lexeme.text)));
      } else if l.lexeme.LexBool? {
        r := Some(Atom(Bool(l.lexeme.value)));
      } else if l.lexeme.LexNull? {
        r := Some(Atom(Null));
      } else {
        return None;
      }
      Skip();
    }

    // JsonParseValue: the tree that the specification reads from the original text, its strings in the buffer.
    method ParseValue() returns (r: Option<RawJson>)
      requires Valid()
      modifies this, buffer
      ensures var v := JsonText.ParseValue(numberLength, From(text, old(pos)));
              && (r.None? <==> v.Fail?)
              && (r.Some? ==> Accepted(old(pos), old(buffer[..]), r.value, v))
      decreases |text| - pos, 2
    {
      ghost var before := buffer[..];
      var l := Peek();
      if l == Plain(Error) {
        return None;
      }
      ghost var peeked := buffer[..];
      assert peeked[..pos] == before[..pos];
      if l == Plain(BeginObject) {
        r := ParseObject();
      } else if l == Plain(BeginArray) {
        r := ParseArray();
      } else {
        r := ParseAtom(l);
      }
    }

    // The colon and the value of a field whose name has been read.
    method ParseMember(name: nat, ghost chars: string) returns (r: Option<RawField>)
      requires Valid() && lexeme.None? && Stored(buffer[..pos], name, chars)
      modifies this, buffer
      ensures var colon := Lex(numberLength, From(text, old(pos)));
              if !colon.lexeme.Colon? then r.None?
              else
                var v := JsonText.ParseValue(numberLength, colon.rest);
                && (r.None? <==> v.Fail?)
                && (r.Some? ==>
                      && Accepted(old(pos), old(buffer[..]), r.value.value, v)
                      && DenotesField(buffer[..pos], r.value, Field(chars, v.value)))
      decreases |text| - pos, 1
    {
      ghost var from, before := pos, buffer[..pos];
      var colon := Next();
      if colon != Plain(Colon) {
        return None;
      }
      ghost var between := buffer[..pos];
      var value := ParseValue();
      if value.None? {
        return None;
      }
      assert before == between[..from] && between == buffer[..pos][..|between|];
      StoredExtends(before, buffer[..pos], name, chars);
      return Some(RawField(name, value.value));
    }

    // The object loop has got this far.
    ghost predicate InObject(
      from: nat, before: string, fields: seq<RawField>, seen: seq<Field>, seenValue: bool, seenComma: bool, goal: Parsed)
      reads this, buffer
    {
      && Valid() && lexeme.None? && from <= pos && from <= |before| && buffer[..from] == before[..from]
      && DenoteFields(buffer[..pos], fields, seen)
      && ParseMembers(numberLength, From(text, pos), seen, seenValue, seenComma) == goal
    }

    // A field, from its name on, is added to the list.
    method AddMember(
      at: nat, ghost chars: string, fields: seq<RawField>, ghost seen: seq<Field>, ghost goal: Parsed)
      returns (r: Option<seq<RawField>>, ghost seen': seq<Field>)
      requires Valid() && lexeme.None? && Stored(buffer[..pos], at, chars) && DenoteFields(buffer[..pos], fields, seen)
      requires var colon := Lex(numberLength, From(text, pos));
               if !colon.lexeme.Colon? then goal.Fail?
               else
                 var v := JsonText.ParseValue(numberLength, colon.rest);
                 goal == if v.Fail? then Fail
                         else ParseMembers(numberLength, v.rest, seen + [Field(chars, v.value)], true, false)
      modifies this, buffer
      ensures r.None? ==> goal.Fail?
      ensures r.Some? ==> InObject(old(pos), old(buffer[..]), r.value, seen', true, false, goal)
      decreases |text| - pos, 2
    {
      ghost var done, from := buffer[..pos], From(text, pos);
      var field := ParseMember(at, chars);
      if field.None? {
        return None, seen;
      }
      FieldsExtend(done, buffer[..pos], fields, seen);
      r := Some(fields + [field.value]);
      seen' := seen + [Field(chars, JsonText.ParseValue(numberLength, Lex(numberLength, from).rest).value)];
    }

    // JsonParseObject at its opening brace.
    method ParseObject() returns (r: Option<RawJson>)
      requires Valid() && Lex(numberLength, From(text, pos)).lexeme.BeginObject?
      modifies this, buffer
      ensures var v := JsonText.ParseValue(numberLength, From(text, old(pos)));
              && (r.None? <==> v.Fail?)
              && (r.Some? ==> Accepted(old(pos), old(buffer[..]), r.value, v))
      decreases |text| - pos, 1
    {
      ghost var goal := JsonText.ParseValue(numberLength, From(text, pos));
      ghost var from, before := pos, buffer[..];
      var open := Next();
      r := ParseMemberList(from, before, goal);
    }

    // The lexeme at the head of an object turn: what it is, and what is left to do.
    method MemberHead(
      fields: seq<RawField>, ghost seen: seq<Field>, seenValue: bool, seenComma: bool, ghost goal: Parsed)
      returns (next: Turn, ghost chars: string)
      requires InObject(pos, buffer[..], fields, seen, seenValue, seenComma, goal)
      modifies this, buffer
      ensures next.Stop? ==> goal.Fail?
      ensures !next.Stop? ==>
                && Valid() && lexeme.None? && old(pos) < pos && buffer[..old(pos)] == old(buffer[..pos])
                && DenoteFields(buffer[..pos], fields, seen)
      ensures next.End? ==> goal == Done(Object(seen), From(text, pos))
      ensures next.Separator? ==> seenValue && ParseMembers(numberLength, From(text, pos), seen, false, true) == goal
      ensures next.Item? ==>
                && Stored(buffer[..pos], next.at, chars)
                && var colon := Lex(numberLength, From(text, pos));
                   if !colon.lexeme.Colon? then goal.Fail?
                   else
                     var v := JsonText.ParseValue(numberLength, colon.rest);
                     goal == if v.Fail? then Fail
                             else ParseMembers(numberLength, v.rest, seen + [Field(chars, v.value)], true, false)
    {
      ghost var done := buffer[..pos];
      ghost var t := Lex(numberLength, From(text, pos));
      MembersUnfold(numberLength, From(text, pos), seen, seenValue, seenComma);
      chars := "";
      var l := Next();
      if l == Plain(Error) {
        return Stop, chars;
      }
      FieldsExtend(done, buffer[..pos], fields, seen);
      if l == Plain(EndObject) {
        return End, chars;
      }
      if l == Plain(Comma) && seenValue && !seenComma {
        return Separator, chars;
      }
      if l.RawStr? && !(seenValue && !seenComma) {
        chars := t.lexeme.chars;
        return Item(l.at), chars;
      }
      return Stop, chars;
    }

    method ParseMemberList(ghost from: nat, ghost before: string, ghost goal: Parsed) returns (r: Option<RawJson>)
      requires from < pos && InObject(from, before, [], [], false, false, goal)
      modifies this, buffer
      ensures r.None? <==> goal.Fail?
      ensures r.Some? ==> Accepted(from, before, r.value, goal)
      decreases |text| - pos, 3
    {
      var fields: seq<RawField>, seenValue, seenComma := [], false, false;
      ghost var seen: seq<Field> := [];
      while true
        invariant old(pos) <= pos && InObject(from, before, fields, seen, seenValue, seenComma, goal)
        decreases |text| - pos
      {
        ghost var now, at := buffer[..], pos;
        var next, chars := MemberHead(fields, seen, seenValue, seenComma, goal);
        if next.Stop? {
          return None;
        }
        FrameStep(before, now, buffer[..], from, at);
        if next.End? {
          return Some(RawObject(fields));
        }
        if next.Separator? {
          seenValue, seenComma := false, true;
        } else {
          now, at := buffer[..], pos;
          var more, seen' := AddMember(next.at, chars, fields, seen, goal);
          if more.None? {
            return None;
          }
          FrameStep(before, now, buffer[..], from, at);
          fields, seen, seenValue, seenComma := more.value, seen', true, false;
        }
      }
    }

    // The array loop has got this far.
    ghost predicate InArray(from: nat, before: string, items: seq<RawJson>, seen: seq<Json>, goal: Parsed)
      reads this, buffer
    {
      && Valid() && lexeme.None? && from <= pos && from <= |before| && buffer[..from] == before[..from]
      && DenoteItems(buffer[..pos], items, seen)
      && ParseItems(numberLength, From(text, pos), seen) == goal
    }

    // An item is added to the list.
    method AddItem(items: seq<RawJson>, ghost seen: seq<Json>, ghost goal: Parsed)
      returns (r: Option<seq<RawJson>>, ghost seen': seq<Json>)
      requires Valid() && DenoteItems(buffer[..pos], items, seen)
      requires var v := JsonText.ParseValue(numberLength, From(text, pos));
               goal == if v.Fail? then Fail else ParseItems(numberLength, v.rest, seen + [v.value])
      modifies this, buffer
      ensures r.None? ==> goal.Fail?
      ensures r.Some? ==> InArray(old(pos), old(buffer[..]), r.value, seen', goal) && old(pos) < pos
      decreases |text| - pos, 3
    {
      ghost var done, from := buffer[..pos], From(text, pos);
      var value := ParseValue();
      if value.None? {
        return None, seen;
      }
      ItemsExtend(done, buffer[..pos], items, seen);
      r := Some(items + [value.value]);
      seen' := seen + [JsonText.ParseValue(numberLength, from).value];
    }

    // JsonParseArray at its opening bracket.
    method ParseArray() returns (r: Option<RawJson>)
      requires Valid() && Lex(numberLength, From(text, pos)).lexeme.BeginArray?
      modifies this, buffer
      ensures var v := JsonText.ParseValue(numberLength, From(text, old(pos)));
              && (r.None? <==> v.Fail?)
              && (r.Some? ==> Accepted(old(pos), old(buffer[..]), r.value, v))
      decreases |text| - pos, 1
    {
      ghost var goal := JsonText.ParseValue(numberLength, From(text, pos));
      ghost var from, before := pos, buffer[..];
      var open := Next();
      r := ParseItemList(from, before, goal);
    }

    // The lexeme at the head of an array turn.
    method ItemHead(items: seq<RawJson>, ghost seen: seq<Json>, ghost goal: Parsed) returns (next: Turn)
      requires InArray(pos, buffer[..], items, seen, goal)
      modifies this, buffer
      ensures next.Stop? ==> goal.Fail?
      ensures !next.Stop? ==>
                && Valid() && old(pos) <= pos && buffer[..old(pos)] == old(buffer[..pos])
                && DenoteItems(buffer[..pos], items, seen)
      ensures next.End? ==> lexeme.None? && goal == Done(Array(seen), From(text, pos))
      ensures !next.Stop? && !next.End? ==>
                var v := JsonText.ParseValue(numberLength, From(text, pos));
                goal == if v.Fail? then Fail else ParseItems(numberLength, v.rest, seen + [v.value])
    {
      ghost var done := buffer[..pos];
      ItemsUnfold(numberLength, From(text, pos), seen);
      var l := Peek();
      if l == Plain(Error) {
        return Stop;
      }
      assert done == buffer[..pos];
      if l == Plain(EndArray) {
        Skip();
        ItemsExtend(done, buffer[..pos], items, seen);
        return End;
      }
      if items != [] {
        if l != Plain(Comma) {
          return Stop;
        }
        Skip();
        ItemsExtend(done, buffer[..pos], items, seen);
      }
      return Separator;
    }

    method ParseItemList(ghost from: nat, ghost before: string, ghost goal: Parsed) returns (r: Option<RawJson>)
      requires from < pos && InArray(from, before, [], [], goal)
      modifies this, buffer
      ensures r.None? <==> goal.Fail?
      ensures r.Some? ==> Accepted(from, before, r.value, goal)
      decreases |text| - pos, 4
    {
      var items: seq<RawJson> := [];
      ghost var seen: seq<Json> := [];
      while true
        invariant old(pos) <= pos && InArray(from, before, items, seen, goal)
        decreases |text| - pos
      {
        ghost var now, at := buffer[..], pos;
        var next := ItemHead(items, seen, goal);
        if next.Stop? {
          return None;
        }
        FrameStep(before, now, buffer[..], from, at);
        if next.End? {
          return Some(RawArray(items));
        }
        now, at := buffer[..], pos;
        var more, seen' := AddItem(items, seen, goal);
        if more.None? {
          return None;
        }
        FrameStep(before, now, buffer[..], from, at);
        items, seen := more.value, seen';
      }
    }

    // JsonParse
    method ParseDocument() returns (r: Option<RawJson>)
      requires Valid() && pos == 0
      modifies this, buffer
      ensures var v := Parse(numberLength, text);
              && (r.None? <==> v.None?)
              && (r.Some? ==> Denotes(buffer[..], r.value, v.value))
    {
      assert From(text, 0) == text;
      r := ParseValue();
      if r.Some? {
        ghost var v, done := JsonText.ParseValue(numberLength, text), buffer[..pos];
        var l := Next();
        if l != Plain(Eof) {
          return None;
        }
        assert done <= buffer[..];
        DenotesExtends(done, buffer[..], r.value, v.value);
      }
    }
  }

  lemma {:induction false} TerminatedCString(s: string)
    requires s != "" && s[|s| - 1] == NUL
    ensures |CString(s)| < |s|
  {
    if |s| > 1 && s[0] != NUL {
      TerminatedCString(s[1..]);
    }
  }
}
