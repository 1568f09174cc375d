/**
 The one leniency of the parser of src/JsonParse.cpp: an object may have a comma before its closing brace. The strict
 parser below, after sections 4 and 5 of RFC 8259, differs from it in nothing else.
 */
module JsonStrict {
  import opened Options
  import opened JsonText

  function StrictValue(numberLength: string -> nat, s: string): (r: Parsed)
    ensures r.Done? ==> |r.rest| < |s|
    decreases |s|, 0
  {
    var l := Lex(numberLength, s);
    match l.lexeme
    case BeginObject => StrictMembers(numberLength, l.rest, [], false, false)
    case BeginArray => StrictItems(numberLength, l.rest, [])
    case LexStr(chars) => Done(Str(chars), l.rest)
    case LexNumber(text) => Done(Number(text), l.rest)
    case LexBool(b) => Done(Bool(b), l.rest)
    case LexNull => Done(Null, l.rest)
    case _ => Fail
  }

  function StrictMembers(numberLength: string -> nat, s: string, fields: seq<Field>, seenValue: bool, seenComma: bool)
    : (r: Parsed)
    ensures r.Done? ==> |r.rest| < |s|
    decreases |s|, 1
  {
    var l := Lex(numberLength, s);
    match l.lexeme
    case LexStr(name) =>
      if seenValue && !seenComma then Fail
      else
        var colon := Lex(numberLength, l.rest);
        if !colon.lexeme.Colon? then Fail
        else
          var v := StrictValue(numberLength, colon.rest);
          if v.Fail? then Fail
          else StrictMembers(numberLength, v.rest, fields + [Field(name, v.value)], true, false)
    case EndObject => if seenComma then Fail else Done(Object(fields), l.rest)
    case Comma =>
      if !seenValue || seenComma then Fail else StrictMembers(numberLength, l.rest, fields, false, true)
    case _ => Fail
  }

  function StrictItems(numberLength: string -> nat, s: string, items: seq<Json>): (r: Parsed)
    ensures r.Done? ==> |r.rest| < |s|
    decreases |s|, 1
  {
    var l := Lex(numberLength, s);
    if l.lexeme.EndArray? then Done(Array(items), l.rest)
    else if items != [] && !l.lexeme.Comma? then Fail
    else
      var v := StrictValue(numberLength, if items != [] then l.rest else s);
      if v.Fail? then Fail else StrictItems(numberLength, v.rest, items + [v.value])
  }

  function StrictParse(numberLength: string -> nat, text: string): Option<Json>
  {
    var v := StrictValue(numberLength, text);
    if v.Done? && Lex(numberLength, v.rest).lexeme.Eof? then Some(v.value) else None
  }

  // Among the lexemes of s, down to the last `stop` characters, a comma is directly followed by a closing brace; or
  // the first is such a brace and a comma came before it.
  predicate CommaBrace(numberLength: string -> nat, afterComma: bool, s: string, stop: nat)
    decreases |s|
  {
    |s| > stop &&
    var l := Lex(numberLength, s);
    !l.lexeme.Error? && !l.lexeme.Eof?
    && ((afterComma && l.lexeme.EndObject?) || CommaBrace(numberLength, l.lexeme.Comma?, l.rest, stop))
  }

  // What the strict parser makes of a text that the parser accepts up to `rest`.
  ghost predicate Agrees(r: Parsed, strict: Parsed, trails: bool, trailsLater: bool)
  {
    && (r.Fail? ==> strict.Fail?)
    && (strict.Done? ==> strict == r)
    && (r.Done? ==> (trails <==> strict.Fail? || trailsLater))
  }

  // One lexeme that is no closing brace.
  lemma {:induction false} PassLexeme(numberLength: string -> nat, afterComma: bool, s: string, stop: nat)
    requires var l := Lex(numberLength, s);
             !l.lexeme.Error? && !l.lexeme.Eof? && !l.lexeme.EndObject? && stop <= |l.rest|
    ensures var l := Lex(numberLength, s);
            CommaBrace(numberLength, afterComma, s, stop) <==> CommaBrace(numberLength, l.lexeme.Comma?, l.rest, stop)
  {
  }

  lemma {:induction false} ValueAgrees(numberLength: string -> nat, afterComma: bool, s: string, stop: nat)
    requires var r := ParseValue(numberLength, s); r.Done? ==> stop <= |r.rest|
    ensures var r := ParseValue(numberLength, s);
            Agrees(r, StrictValue(numberLength, s), CommaBrace(numberLength, afterComma, s, stop),
                   r.Done? && CommaBrace(numberLength, false, r.rest, stop))
    decreases |s|, 0
  {
    var l := Lex(numberLength, s);
    if ParseValue(numberLength, s).Done? {
      PassLexeme(numberLength, afterComma, s, stop);
    }
    if l.lexeme.BeginObject? {
      MembersAgree(numberLength, l.rest, [], false, false, stop);
    } else if l.lexeme.BeginArray? {
      ItemsAgree(numberLength, l.rest, [], stop);
    }
  }

  lemma {:induction false} MembersAgree(
    numberLength: string -> nat, s: string, fields: seq<Field>, seenValue: bool, seenComma: bool, stop: nat)
    requires var r := ParseMembers(numberLength, s, fields, seenValue, seenComma); r.Done? ==> stop <= |r.rest|
    ensures var r := ParseMembers(numberLength, s, fields, seenValue, seenComma);
            Agrees(r, StrictMembers(numberLength, s, fields, seenValue, seenComma),
                   CommaBrace(numberLength, seenComma, s, stop),
                   r.Done? && CommaBrace(numberLength, false, r.rest, stop))
    decreases |s|, 1
  {
    var l, r := Lex(numberLength, s), ParseMembers(numberLength, s, fields, seenValue, seenComma);
    if l.lexeme.Comma? && seenValue && !seenComma {
      if r.Done? {
        PassLexeme(numberLength, seenComma, s, stop);
      }
      MembersAgree(numberLength, l.rest, fields, false, true, stop);
    } else if l.lexeme.LexStr? && (seenComma || !seenValue) {
      FieldAgrees(numberLength, s, fields, seenValue, seenComma, stop);
    }
  }

  lemma {:induction false} FieldAgrees(
    numberLength: string -> nat, s: string, fields: seq<Field>, seenValue: bool, seenComma: bool, stop: nat)
    requires Lex(numberLength, s).lexeme.LexStr? && (seenComma || !seenValue)
    requires var r := ParseMembers(numberLength, s, fields, seenValue, seenComma); r.Done? ==> stop <= |r.rest|
    ensures var r := ParseMembers(numberLength, s, fields, seenValue, seenComma);
            Agrees(r, StrictMembers(numberLength, s, fields, seenValue, seenComma),
                   CommaBrace(numberLength, seenComma, s, stop),
                   r.Done? && CommaBrace(numberLength, false, r.rest, stop))
    decreases |s|, 0
  {
    var l, r := Lex(numberLength, s), ParseMembers(numberLength, s, fields, seenValue, seenComma);
    var colon := Lex(numberLength, l.rest);
    if colon.lexeme.Colon? {
      var v := ParseValue(numberLength, colon.rest);
      if r.Done? {
        PassLexeme(numberLength, seenComma, s, stop);
        PassLexeme(numberLength, false, l.rest, stop);
      }
      ValueAgrees(numberLength, false, colon.rest, if r.Done? then stop else 0);
      if v.Done? {
        MembersAgree(numberLength, v.rest, fields + [Field(l.lexeme.chars, v.value)], true, false, stop);
      }
    }
  }

  lemma {:induction false} ItemsAgree(numberLength: string -> nat, s: string, items: seq<Json>, stop: nat)
    requires var r := ParseItems(numberLength, s, items); r.Done? ==> stop <= |r.rest|
    ensures var r := ParseItems(numberLength, s, items);
            Agrees(r, StrictItems(numberLength, s, items), CommaBrace(numberLength, false, s, stop),
                   r.Done? && CommaBrace(numberLength, false, r.rest, stop))
    decreases |s|, 1
  {
    var l, r := Lex(numberLength, s), ParseItems(numberLength, s, items);
    if !l.lexeme.EndArray? && (items == [] || l.lexeme.Comma?) {
      var from := if items != [] then l.rest else s;
      var v := ParseValue(numberLength, from);
      if r.Done? && items != [] {
        PassLexeme(numberLength, false, s, stop);
      }
      ValueAgrees(numberLength, items != [], from, if r.Done? then stop else 0);
      if v.Done? {
        ItemsAgree(numberLength, v.rest, items + [v.value], stop);
      }
    } else if r.Done? {
      PassLexeme(numberLength, false, s, stop);
    }
  }

  // The strict parser rejects what the parser rejects. What the parser accepts, it accepts too, with the same tree,
  // exactly when nowhere in the text a comma is directly followed by a closing brace.
  lemma {:induction false} LenientExact(numberLength: string -> nat, text: string)
    ensures Parse(numberLength, text).None? ==> StrictParse(numberLength, text).None?
    ensures Parse(numberLength, text).Some? ==>
              StrictParse(numberLength, text) ==
              if CommaBrace(numberLength, false, text, 0) then None else Parse(numberLength, text)
  {
    ValueAgrees(numberLength, false, text, 0);
  }

  lemma {:induction false} StrictField(numberLength: string -> nat, name: string, value: string, before: seq<Field>)
    requires CleanString(name)
    ensures StrictMembers(numberLength, Quoted(name, [':'] + value), before, false, false) ==
            (var v := StrictValue(numberLength, value);
             if v.Fail? then Fail
             else StrictMembers(numberLength, v.rest, before + [Field(name, v.value)], true, false))
  {
    LexQuoted(numberLength, name, [':'] + value);
    LexPunctuation(numberLength, ':', value);
  }

  lemma {:induction false} StrictEnter(numberLength: string -> nat, inside: string)
    ensures StrictValue(numberLength, ['{'] + inside) == StrictMembers(numberLength, inside, [], false, false)
  {
    LexPunctuation(numberLength, '{', inside);
  }

  lemma {:induction false} CommaThenBrace(numberLength: string -> nat, fields: seq<Field>)
    ensures ParseMembers(numberLength, ",}", fields, true, false) == Done(Object(fields), "")
    ensures StrictMembers(numberLength, ",}", fields, true, false).Fail?
  {
    assert ",}" == [','] + "}" && "}" == ['}'] + "";
    LexPunctuation(numberLength, ',', "}");
    LexPunctuation(numberLength, '}', "");
  }

  // An object whose one field is followed by a comma.
  lemma {:induction false} TrailingCommaAccepted(numberLength: string -> nat, name: string, v: Json)
    requires CleanString(name) && Clean(v) && Numerals(numberLength, v)
    ensures var text := ['{'] + Quoted(name, [':'] + Print(v, ",}"));
            Parse(numberLength, text) == Some(Object([Field(name, v)])) && StrictParse(numberLength, text).None?
  {
    var value, f := Print(v, ",}"), Field(name, v);
    EnterContainer(numberLength, '{', Quoted(name, [':'] + value));
    MemberStep(numberLength, name, value, [], false);
    ValueRoundTrip(numberLength, v, ",}");
    assert [] + [f] == [f];
    CommaThenBrace(numberLength, [f]);
    StrictEnter(numberLength, Quoted(name, [':'] + value));
    StrictField(numberLength, name, value, []);
    ValueAgrees(numberLength, false, value, 2);
  }
}
