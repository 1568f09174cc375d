/**
 JSON as src/JsonParse.cpp reads it and src/LuaJsonWriter.cpp writes it, as functions on text, and the round trip.
 A text ends at its first NUL or at its end. Numbers stay text; `numberLength` stands for strtod and says how many
 characters of its argument it takes (0: no number).
 */
module JsonText {
  import opened Options

  datatype Json =
    | Null | Bool(value: bool) | Number(text: string) | Str(chars: string)
    | Array(items: seq<Json>) | Object(fields: seq<Field>)
  datatype Field = Field(name: string, value: Json)

  datatype Lexeme =
    | LexStr(chars: string) | LexNumber(text: string) | LexBool(value: bool) | LexNull
    | Comma | Colon | BeginObject | EndObject | BeginArray | EndArray | Eof | Error

  datatype Token = Token(lexeme: Lexeme, rest: string)

  const NUL: char := 0 as char
  const BACKSPACE: char := 8 as char
  const VERTICAL_TAB: char := 11 as char
  const FORM_FEED: char := 12 as char

  function Head(s: string): char
  {
    if s == "" then NUL else s[0]
  }

  predicate IsSpace(ch: char)
  {
    ch == ' ' || '\t' <= ch <= '\r'
  }

  predicate IsDigit(ch: char)
  {
    '0' <= ch <= '9'
  }

  predicate IsAlnum(ch: char)
  {
    IsDigit(ch) || 'a' <= ch <= 'z' || 'A' <= ch <= 'Z'
  }

  /* ---- The lexer ---- */

  function SkipWhitespace(s: string): (r: string)
    ensures |r| <= |s| && !IsSpace(Head(r))
  {
    if s != "" && IsSpace(s[0]) then SkipWhitespace(s[1..]) else s
  }

  // The character an escape letter stands for; 'u' is dealt with separately.
  function Unescaped(letter: char): Option<char>
  {
    match letter
    case '\\' => Some('\\')
    case '"' => Some('"')
    case '/' => Some('/')
    case 'b' => Some(BACKSPACE)
    case 'f' => Some(FORM_FEED)
    case 'n' => Some('\n')
    case 'r' => Some('\r')
    case 't' => Some('\t')
    case _ => None
  }

  function HexDigit(ch: char): Option<nat>
  {
    if IsDigit(ch) then Some(ch as int - '0' as int)
    else if 'a' <= ch <= 'f' then Some(ch as int - 'a' as int + 10)
    else if 'A' <= ch <= 'F' then Some(ch as int - 'A' as int + 10)
    else None
  }

  // The value of the first n characters of s, all hexadecimal digits.
  function HexValue(s: string, n: nat): Option<nat>
    requires n <= |s|
  {
    if n == 0 then Some(0)
    else
      var high, low := HexValue(s, n - 1), HexDigit(s[n - 1]);
      if high.Some? && low.Some? then Some(16 * high.value + low.value) else None
  }

  // One character of a string literal: the text's own or an escape sequence.
  datatype Unit = Unit(ch: char, length: nat) | Quote | Bad

  function NextUnit(s: string): (r: Unit)
    ensures r.Unit? ==> 0 < r.length <= |s|
    ensures r.Quote? ==> s != ""
  {
    if s == "" || s[0] == NUL then Bad
    else if s[0] == '"' then Quote
    else if s[0] != '\\' then Unit(s[0], 1)
    else if |s| < 2 then Bad
    else if s[1] != 'u' then
      var ch := Unescaped(s[1]);
      if ch.Some? then Unit(ch.value, 2) else Bad
    else if |s| < 6 then Bad
    else
      var code := HexValue(s[2..], 4);
      if code.Some? && code.value <= 127 then Unit(code.value as char, 6) else Bad
  }

  // The characters of a literal whose opening quote has been read, and the text behind its closing quote.
  datatype Literal = Literal(chars: string, rest: string) | NoLiteral

  function StringBody(s: string): (r: Literal)
    ensures r.Literal? ==> |r.chars| + |r.rest| < |s|
    decreases |s|
  {
    var u := NextUnit(s);
    match u
    case Bad => NoLiteral
    case Quote => Literal("", s[1..])
    case Unit(ch, n) =>
      var l := StringBody(s[n..]);
      if l.Literal? then Literal([ch] + l.chars, l.rest) else NoLiteral
  }

  // A string literal is handed on as a C string.
  function CString(s: string): (r: string)
    ensures |r| <= |s| && r == s[..|r|] && NUL !in r
    ensures |r| < |s| ==> s[|r|] == NUL
  {
    if s == "" || s[0] == NUL then "" else [s[0]] + CString(s[1..])
  }

  function AlnumRun(s: string): (n: nat)
    ensures n <= |s|
  {
    if s != "" && IsAlnum(s[0]) then 1 + AlnumRun(s[1..]) else 0
  }

  function LiteralLexeme(s: string): (r: Token)
    ensures if r.lexeme.Error? then r.rest == s else |r.rest| < |s|
    ensures !r.lexeme.Eof?
  {
    var n := AlnumRun(s);
    if n == 4 && s[..4] == "true" then Token(LexBool(true), s[4..])
    else if n == 4 && s[..4] == "null" then Token(LexNull, s[4..])
    else if n == 5 && s[..5] == "false" then Token(LexBool(false), s[5..])
    else Token(Error, s)
  }

  function Punctuation(ch: char): Option<Lexeme>
  {
    match ch
    case '{' => Some(BeginObject)
    case '}' => Some(EndObject)
    case '[' => Some(BeginArray)
    case ']' => Some(EndArray)
    case ',' => Some(Comma)
    case ':' => Some(Colon)
    case _ => None
  }

  // JsonLexerFetchNext on the text from the cursor on.
  function Lex(numberLength: string -> nat, text: string): (r: Token)
    ensures |r.rest| <= |text|
    ensures !r.lexeme.Error? && !r.lexeme.Eof? ==> |r.rest| < |text|
  {
    var s := SkipWhitespace(text);
    var ch := Head(s);
    if ch == NUL then Token(Eof, s)
    else if ch == '-' || IsDigit(ch) then
      var n := numberLength(s);
      if 0 < n <= |s| then Token(LexNumber(s[..n]), s[n..]) else Token(Error, s)
    else if ch == '"' then
      var l := StringBody(s[1..]);
      if l.Literal? then Token(LexStr(CString(l.chars)), l.rest) else Token(Error, s)
    else
      var p := Punctuation(ch);
      if p.Some? then Token(p.value, s[1..]) else LiteralLexeme(s)
  }

  /* ---- The parser ---- */

  datatype Parsed = Fail | Done(value: Json, rest: string)

  function ParseValue(numberLength: string -> nat, s: string): (r: Parsed)
    ensures r.Done? ==> |r.rest| < |s|
    decreases |s|, 0
  {
    var l := Lex(numberLength, s);
    match l.lexeme
    case BeginObject => ParseMembers(numberLength, l.rest, [], false, false)
    case BeginArray => ParseItems(numberLength, l.rest, [])
    case LexStr(chars) => Done(Str(chars), l.rest)
    case LexNumber(text) => Done(Number(text), l.rest)
    case LexBool(b) => Done(Bool(b), l.rest)
    case LexNull => Done(Null, l.rest)
    case _ => Fail
  }

  // The loop of JsonParseObject.
  function ParseMembers(numberLength: string -> nat, s: string, fields: seq<Field>, seenValue: bool, seenComma: bool)
    : (r: Parsed)
    ensures r.Done? ==> |r.rest| < |s|
    decreases |s|, 1
  {
    var l := Lex(numberLength, s);
    match l.lexeme
    case LexStr(name) =>
      if seenValue && !seenComma then Fail
      else
        var colon := Lex(numberLength, l.rest);
        if !colon.lexeme.Colon? then Fail
        else
          var v := ParseValue(numberLength, colon.rest);
          if v.Fail? then Fail
          else ParseMembers(numberLength, v.rest, fields + [Field(name, v.value)], true, false)
    case EndObject => Done(Object(fields), l.rest)
    case Comma => if !seenValue || seenComma then Fail else ParseMembers(numberLength, l.rest, fields, false, true)
    case _ => Fail
  }

  // The loop of JsonParseArray.
  function ParseItems(numberLength: string -> nat, s: string, items: seq<Json>): (r: Parsed)
    ensures r.Done? ==> |r.rest| < |s|
    decreases |s|, 1
  {
    var l := Lex(numberLength, s);
    if l.lexeme.EndArray? then Done(Array(items), l.rest)
    else if items != [] && !l.lexeme.Comma? then Fail
    else
      var v := ParseValue(numberLength, if items != [] then l.rest else s);
      if v.Fail? then Fail else ParseItems(numberLength, v.rest, items + [v.value])
  }

  // JsonParse
  function Parse(numberLength: string -> nat, text: string): Option<Json>
  {
    var v := ParseValue(numberLength, text);
    if v.Done? && Lex(numberLength, v.rest).lexeme.Eof? then Some(v.value) else None
  }

  /* ---- The printed form ---- */

  // s_EscapeTable
  function EscapeLetter(ch: char): Option<char>
  {
    if ch == '\n' then Some('n')
    else if ch == '\r' then Some('r')
    else if ch == '\t' then Some('t')
    else if ch == VERTICAL_TAB then Some('v')
    else if ch == FORM_FEED then Some('f')
    else if ch == '\\' then Some('\\')
    else if ch == '"' then Some('"')
    else None
  }

  function EscapedChar(ch: char): string
  {
    var e := EscapeLetter(ch);
    if e.Some? then ['\\', e.value] else [ch]
  }

  // The characters of a literal, its closing quote and what follows.
  function LiteralTail(chars: string, rest: string): string
  {
    if chars == "" then ['"'] + rest else EscapedChar(chars[0]) + LiteralTail(chars[1..], rest)
  }

  function Quoted(chars: string, rest: string): string
  {
    ['"'] + LiteralTail(chars, rest)
  }

  // The printed form, followed by `rest`.
  function PrintFields(fields: seq<Field>, first: bool, rest: string): string
    decreases fields
  {
    if fields == [] then rest
    else
      var here := Quoted(fields[0].name, [':'] + Print(fields[0].value, PrintFields(fields[1..], false, rest)));
      if first then here else [','] + here
  }

  function PrintItems(items: seq<Json>, first: bool, rest: string): string
    decreases items
  {
    if items == [] then rest
    else
      var here := Print(items[0], PrintItems(items[1..], false, rest));
      if first then here else [','] + here
  }

  function Print(v: Json, rest: string): string
    decreases v
  {
    match v
    case Null => "null" + rest
    case Bool(b) => (if b then "true" else "false") + rest
    case Number(text) => text + rest
    case Str(chars) => Quoted(chars, rest)
    case Array(items) => ['['] + PrintItems(items, true, [']'] + rest)
    case Object(fields) => ['{'] + PrintFields(fields, true, ['}'] + rest)
  }

  /* ---- Which trees survive ---- */

  predicate CleanChar(ch: char)
  {
    ch != NUL && ch != VERTICAL_TAB
  }

  predicate CleanString(s: string)
  {
    forall i :: 0 <= i < |s| ==> CleanChar(s[i])
  }

  predicate CleanFields(fields: seq<Field>)
    decreases fields
  {
    fields != [] ==> CleanString(fields[0].name) && Clean(fields[0].value) && CleanFields(fields[1..])
  }

  predicate CleanItems(items: seq<Json>)
    decreases items
  {
    items != [] ==> Clean(items[0]) && CleanItems(items[1..])
  }

  // No string or name holds a NUL or a vertical tab.
  predicate Clean(v: Json)
    decreases v
  {
    match v
    case Null => true
    case Bool(_) => true
    case Number(_) => true
    case Str(chars) => CleanString(chars)
    case Array(items) => CleanItems(items)
    case Object(fields) => CleanFields(fields)
  }

  // The writer's escape table is indexed with a char, so it covers the characters below 128.
  predicate AsciiString(s: string)
  {
    forall i :: 0 <= i < |s| ==> s[i] as int < 128
  }

  predicate AsciiFields(fields: seq<Field>)
    decreases fields
  {
    fields != [] ==> AsciiString(fields[0].name) && Ascii(fields[0].value) && AsciiFields(fields[1..])
  }

  predicate AsciiItems(items: seq<Json>)
    decreases items
  {
    items != [] ==> Ascii(items[0]) && AsciiItems(items[1..])
  }

  predicate Ascii(v: Json)
    decreases v
  {
    match v
    case Str(chars) => AsciiString(chars)
    case Array(items) => AsciiItems(items)
    case Object(fields) => AsciiFields(fields)
    case _ => true
  }

  predicate Delimited(rest: string)
  {
    rest == "" || rest[0] == NUL || rest[0] == ',' || rest[0] == ']' || rest[0] == '}'
  }

  // strtod takes exactly this numeral when a delimiter follows.
  ghost predicate Numeral(numberLength: string -> nat, n: string)
  {
    && n != "" && (n[0] == '-' || IsDigit(n[0]))
    && forall rest :: Delimited(rest) ==> numberLength(n + rest) == |n|
  }

  ghost predicate NumeralFields(numberLength: string -> nat, fields: seq<Field>)
    decreases fields
  {
    fields != [] ==> Numerals(numberLength, fields[0].value) && NumeralFields(numberLength, fields[1..])
  }

  ghost predicate NumeralItems(numberLength: string -> nat, items: seq<Json>)
    decreases items
  {
    items != [] ==> Numerals(numberLength, items[0]) && NumeralItems(numberLength, items[1..])
  }

  ghost predicate Numerals(numberLength: string -> nat, v: Json)
    decreases v
  {
    match v
    case Null => true
    case Bool(_) => true
    case Number(text) => Numeral(numberLength, text)
    case Str(_) => true
    case Array(items) => NumeralItems(numberLength, items)
    case Object(fields) => NumeralFields(numberLength, fields)
  }

  /* ---- The round trip ---- */

  lemma {:induction false} UnitRoundTrip(ch: char, rest: string)
    ensures NextUnit(EscapedChar(ch) + rest) == if CleanChar(ch) then Unit(ch, |EscapedChar(ch)|) else Bad
  {
    var s := EscapedChar(ch) + rest;
    if EscapeLetter(ch).Some? {
      assert s[0] == '\\' && s[1] == EscapeLetter(ch).value;
    } else {
      assert s[0] == ch;
    }
  }

  lemma {:induction false} BodyRoundTrip(chars: string, rest: string)
    ensures StringBody(LiteralTail(chars, rest)) == if CleanString(chars) then Literal(chars, rest) else NoLiteral
  {
    var s := LiteralTail(chars, rest);
    if chars == "" {
      assert s[0] == '"' && s[1..] == rest;
    } else {
      var e, s' := EscapedChar(chars[0]), LiteralTail(chars[1..], rest);
      assert s[|e|..] == s';
      UnitRoundTrip(chars[0], s');
      BodyRoundTrip(chars[1..], rest);
      assert chars == [chars[0]] + chars[1..];
      assert CleanString(chars) <==> CleanChar(chars[0]) && CleanString(chars[1..]) by {
        assert forall i :: 0 < i < |chars| ==> chars[i] == chars[1..][i - 1];
      }
    }
  }

  lemma {:induction false} CleanIsCString(chars: string)
    requires CleanString(chars)
    ensures CString(chars) == chars
  {
    if chars != "" {
      assert CleanChar(chars[0]);
      assert forall i :: 0 <= i < |chars| - 1 ==> chars[1..][i] == chars[i + 1];
      CleanIsCString(chars[1..]);
    }
  }

  lemma {:induction false} LexQuoted(numberLength: string -> nat, chars: string, rest: string)
    ensures var l := Lex(numberLength, Quoted(chars, rest));
            if CleanString(chars) then l == Token(LexStr(chars), rest) else l.lexeme.Error?
  {
    var s := Quoted(chars, rest);
    assert s[0] == '"' && s[1..] == LiteralTail(chars, rest);
    BodyRoundTrip(chars, rest);
    if CleanString(chars) {
      CleanIsCString(chars);
    }
  }

  lemma {:induction false} LexPunctuation(numberLength: string -> nat, p: char, rest: string)
    requires Punctuation(p).Some?
    ensures Lex(numberLength, [p] + rest) == Token(Punctuation(p).value, rest)
  {
    assert ([p] + rest)[1..] == rest;
  }

  lemma {:induction false} LexNumeral(numberLength: string -> nat, n: string, rest: string)
    requires Numeral(numberLength, n) && Delimited(rest)
    ensures Lex(numberLength, n + rest) == Token(LexNumber(n), rest)
  {
    var s := n + rest;
    assert s[0] == n[0] && s[..|n|] == n && s[|n|..] == rest;
  }

  lemma {:induction false} WordRun(word: string, rest: string)
    requires Delimited(rest) && forall i :: 0 <= i < |word| ==> IsAlnum(word[i])
    ensures AlnumRun(word + rest) == |word|
  {
    if word == "" {
      assert word + rest == rest;
    } else {
      assert (word + rest)[1..] == word[1..] + rest;
      WordRun(word[1..], rest);
    }
  }

  lemma {:induction false} LexWord(numberLength: string -> nat, word: string, rest: string)
    requires Delimited(rest) && (word == "true" || word == "false" || word == "null")
    ensures Lex(numberLength, word + rest)
            == Token(if word == "null" then LexNull else LexBool(word == "true"), rest)
  {
    var s := word + rest;
    WordRun(word, rest);
    assert s[0] == word[0];
    assert s[..|word|] == word && s[|word|..] == rest;
  }

  ghost predicate RoundTrips(r: Parsed, clean: bool, v: Json, rest: string)
  {
    r == if clean then Done(v, rest) else Fail
  }

  lemma {:induction false} AtomRoundTrip(numberLength: string -> nat, v: Json, rest: string)
    requires Numerals(numberLength, v) && Delimited(rest) && !v.Array? && !v.Object?
    ensures RoundTrips(ParseValue(numberLength, Print(v, rest)), Clean(v), v, rest)
    ensures !Lex(numberLength, Print(v, rest)).lexeme.EndArray?
  {
    match v
    case Null => LexWord(numberLength, "null", rest);
    case Bool(b) => LexWord(numberLength, if b then "true" else "false", rest);
    case Number(text) => LexNumeral(numberLength, text, rest);
    case Str(chars) => LexQuoted(numberLength, chars, rest);
  }

  // A container is entered through its bracket.
  lemma {:induction false} EnterContainer(numberLength: string -> nat, bracket: char, inside: string)
    requires bracket == '[' || bracket == '{'
    ensures ParseValue(numberLength, [bracket] + inside) ==
            if bracket == '[' then ParseItems(numberLength, inside, [])
            else ParseMembers(numberLength, inside, [], false, false)
    ensures !Lex(numberLength, [bracket] + inside).lexeme.EndArray?
  {
    LexPunctuation(numberLength, bracket, inside);
  }

  lemma {:induction false} ValueRoundTrip(numberLength: string -> nat, v: Json, rest: string)
    requires Numerals(numberLength, v) && Delimited(rest)
    ensures RoundTrips(ParseValue(numberLength, Print(v, rest)), Clean(v), v, rest)
    ensures !Lex(numberLength, Print(v, rest)).lexeme.EndArray?
    decreases v
  {
    if v.Array? {
      EnterContainer(numberLength, '[', PrintItems(v.items, true, [']'] + rest));
      ItemsRoundTrip(numberLength, [], v.items, rest);
      assert [] + v.items == v.items;
    } else if v.Object? {
      EnterContainer(numberLength, '{', PrintFields(v.fields, true, ['}'] + rest));
      FieldsRoundTrip(numberLength, [], v.fields, rest);
      assert [] + v.fields == v.fields;
    } else {
      AtomRoundTrip(numberLength, v, rest);
    }
  }

  lemma {:induction false} Regroup<T>(before: seq<T>, more: seq<T>)
    requires more != []
    ensures (before + [more[0]]) + more[1..] == before + more
  {
  }

  // One turn of the array loop, with a comma unless the item is the first.
  lemma {:induction false} ItemStep(
    numberLength: string -> nat, v: Json, tail: string, before: seq<Json>, s: string, clean: bool)
    requires s == if before == [] then Print(v, tail) else [','] + Print(v, tail)
    requires !Lex(numberLength, Print(v, tail)).lexeme.EndArray?
    requires RoundTrips(ParseValue(numberLength, Print(v, tail)), clean, v, tail)
    ensures ParseItems(numberLength, s, before) ==
            if !clean then Fail else ParseItems(numberLength, tail, before + [v])
  {
    if before != [] {
      LexPunctuation(numberLength, ',', Print(v, tail));
    }
  }

  lemma {:induction false} CloseArray(numberLength: string -> nat, before: seq<Json>, rest: string)
    ensures ParseItems(numberLength, [']'] + rest, before) == Done(Array(before), rest)
  {
    LexPunctuation(numberLength, ']', rest);
  }

  lemma {:induction false} ItemsRoundTrip(
    numberLength: string -> nat, before: seq<Json>, items: seq<Json>, rest: string)
    requires NumeralItems(numberLength, items)
    ensures RoundTrips(ParseItems(numberLength, PrintItems(items, before == [], [']'] + rest), before),
                       CleanItems(items), Array(before + items), rest)
    decreases items
  {
    if items == [] {
      CloseArray(numberLength, before, rest);
      assert before + items == before;
    } else {
      var tail := PrintItems(items[1..], false, [']'] + rest);
      ValueRoundTrip(numberLength, items[0], tail);
      ItemStep(numberLength, items[0], tail, before, PrintItems(items, before == [], [']'] + rest), Clean(items[0]));
      ItemsRoundTrip(numberLength, before + [items[0]], items[1..], rest);
      Regroup(before, items);
    }
  }

  lemma {:induction false} SkipComma(numberLength: string -> nat, before: seq<Field>, here: string)
    ensures ParseMembers(numberLength, [','] + here, before, true, false)
            == ParseMembers(numberLength, here, before, false, true)
  {
    LexPunctuation(numberLength, ',', here);
  }

  lemma {:induction false} CloseObject(numberLength: string -> nat, before: seq<Field>, rest: string, seenValue: bool)
    ensures ParseMembers(numberLength, ['}'] + rest, before, seenValue, false) == Done(Object(before), rest)
  {
    LexPunctuation(numberLength, '}', rest);
  }

  // A name, a colon and a value.
  lemma {:induction false} MemberStep(
    numberLength: string -> nat, name: string, value: string, before: seq<Field>, seenComma: bool)
    ensures ParseMembers(numberLength, Quoted(name, [':'] + value), before, false, seenComma) ==
            (var v := ParseValue(numberLength, value);
             if !CleanString(name) || v.Fail? then Fail
             else ParseMembers(numberLength, v.rest, before + [Field(name, v.value)], true, false))
  {
    LexQuoted(numberLength, name, [':'] + value);
    LexPunctuation(numberLength, ':', value);
  }

  // ... preceded by a comma unless it is the first.
  lemma {:induction false} MemberNext(
    numberLength: string -> nat, name: string, v: Json, tail: string, before: seq<Field>, s: string, clean: bool)
    requires s == (var here := Quoted(name, [':'] + Print(v, tail)); if before == [] then here else [','] + here)
    requires RoundTrips(ParseValue(numberLength, Print(v, tail)), clean, v, tail)
    ensures ParseMembers(numberLength, s, before, before != [], false) ==
            if !CleanString(name) || !clean then Fail
            else ParseMembers(numberLength, tail, before + [Field(name, v)], true, false)
  {
    var value := Print(v, tail);
    if before != [] {
      SkipComma(numberLength, before, Quoted(name, [':'] + value));
    }
    MemberStep(numberLength, name, value, before, before != []);
  }

  lemma {:induction false} FieldsDelimited(fields: seq<Field>, rest: string)
    ensures Delimited(PrintFields(fields, false, ['}'] + rest))
  {
  }

  lemma {:induction false} FieldsRoundTrip(
    numberLength: string -> nat, before: seq<Field>, fields: seq<Field>, rest: string)
    requires NumeralFields(numberLength, fields)
    ensures RoundTrips(
              ParseMembers(numberLength, PrintFields(fields, before == [], ['}'] + rest), before, before != [], false),
              CleanFields(fields), Object(before + fields), rest)
    decreases fields
  {
    if fields == [] {
      CloseObject(numberLength, before, rest, before != []);
      assert before + fields == before;
    } else {
      var f := fields[0];
      var tail := PrintFields(fields[1..], false, ['}'] + rest);
      FieldsDelimited(fields[1..], rest);
      ValueRoundTrip(numberLength, f.value, tail);
      MemberNext(numberLength, f.name, f.value, tail, before, PrintFields(fields, before == [], ['}'] + rest),
                 Clean(f.value));
      FieldsRoundTrip(numberLength, before + [f], fields[1..], rest);
      Regroup(before, fields);
    }
  }

  // A printed tree is read back exactly when no string in it holds a NUL or a vertical tab; otherwise it is rejected.
  // The text may or may not be followed by a terminator.
  lemma {:induction false} RoundTrip(numberLength: string -> nat, v: Json, rest: string)
    requires Ascii(v) && Numerals(numberLength, v) && (rest == "" || rest[0] == NUL)
    ensures Parse(numberLength, Print(v, rest)) == if Clean(v) then Some(v) else None
  {
    ValueRoundTrip(numberLength, v, rest);
  }
}
