/** White space between lexemes does not matter to the JSON parser. */
module JsonSpacing {
  import opened JsonText

  // Space, tab, line feed, vertical tab, form feed, carriage return.
  lemma {:induction false} SixKinds(ch: char)
    ensures IsSpace(ch) <==> ch in [' ', '\t', '\n', VERTICAL_TAB, FORM_FEED, '\r']
  {
    assert ch as int <= 13 && ch as int >= 9 <==> '\t' <= ch <= '\r';
  }

  /* ---- Texts with the same lexemes ---- */

  ghost predicate SameLexemes(numberLength: string -> nat, s: string, s': string)
    decreases |s|
  {
    var l, l' := Lex(numberLength, s), Lex(numberLength, s');
    l.lexeme == l'.lexeme && (l.lexeme.Eof? || l.lexeme.Error? || SameLexemes(numberLength, l.rest, l'.rest))
  }

  // Two outcomes of a parser on such texts.
  ghost predicate SameOutcome(numberLength: string -> nat, r: Parsed, r': Parsed)
  {
    if r.Done? then r'.Done? && r'.value == r.value && SameLexemes(numberLength, r.rest, r'.rest) else r'.Fail?
  }

  lemma {:induction false} SameValue(numberLength: string -> nat, s: string, s': string)
    requires SameLexemes(numberLength, s, s')
    ensures SameOutcome(numberLength, ParseValue(numberLength, s), ParseValue(numberLength, s'))
    decreases |s|, 0
  {
    var l, l' := Lex(numberLength, s), Lex(numberLength, s');
    if l.lexeme.BeginObject? {
      SameMembers(numberLength, l.rest, l'.rest, [], false, false);
    } else if l.lexeme.BeginArray? {
      SameItems(numberLength, l.rest, l'.rest, []);
    }
  }

  lemma {:induction false} SameMembers(
    numberLength: string -> nat, s: string, s': string, fields: seq<Field>, seenValue: bool, seenComma: bool)
    requires SameLexemes(numberLength, s, s')
    ensures SameOutcome(numberLength, ParseMembers(numberLength, s, fields, seenValue, seenComma),
                        ParseMembers(numberLength, s', fields, seenValue, seenComma))
    decreases |s|, 1
  {
    var l, l' := Lex(numberLength, s), Lex(numberLength, s');
    if l.lexeme.LexStr? && !(seenValue && !seenComma) {
      var colon, colon' := Lex(numberLength, l.rest), Lex(numberLength, l'.rest);
      if colon.lexeme.Colon? {
        SameValue(numberLength, colon.rest, colon'.rest);
        var v, v' := ParseValue(numberLength, colon.rest), ParseValue(numberLength, colon'.rest);
        if v.Done? {
          SameMembers(numberLength, v.rest, v'.rest, fields + [Field(l.lexeme.chars, v.value)], true, false);
        }
      }
    } else if l.lexeme.Comma? && seenValue && !seenComma {
      SameMembers(numberLength, l.rest, l'.rest, fields, false, true);
    }
  }

  lemma {:induction false} SameItems(numberLength: string -> nat, s: string, s': string, items: seq<Json>)
    requires SameLexemes(numberLength, s, s')
    ensures SameOutcome(numberLength, ParseItems(numberLength, s, items), ParseItems(numberLength, s', items))
    decreases |s|, 1
  {
    var l, l' := Lex(numberLength, s), Lex(numberLength, s');
    if !l.lexeme.EndArray? && !(items != [] && !l.lexeme.Comma?) {
      var at, at' := if items != [] then l.rest else s, if items != [] then l'.rest else s';
      SameValue(numberLength, at, at');
      var v, v' := ParseValue(numberLength, at), ParseValue(numberLength, at');
      if v.Done? {
        SameItems(numberLength, v.rest, v'.rest, items + [v.value]);
      }
    }
  }

  // The parser sees lexemes only.
  lemma {:induction false} ParseSeesLexemes(numberLength: string -> nat, s: string, s': string)
    requires SameLexemes(numberLength, s, s')
    ensures Parse(numberLength, s) == Parse(numberLength, s')
  {
    SameValue(numberLength, s, s');
  }

  lemma {:induction false} SameAsItself(numberLength: string -> nat, s: string)
    ensures SameLexemes(numberLength, s, s)
    decreases |s|
  {
    var l := Lex(numberLength, s);
    if !l.lexeme.Eof? && !l.lexeme.Error? {
      SameAsItself(numberLength, l.rest);
    }
  }

  /* ---- Inserting a character ---- */

  function With(s: string, k: nat, ch: char): string
    requires k <= |s|
  {
    s[..k] + [ch] + s[k..]
  }

  // White space behind a number ends it all the same, and what comes later does not matter: true of strtod, which takes
  // the longest numeral and no white space inside one.
  ghost predicate SpaceEndsNumbers(numberLength: string -> nat)
  {
    forall s, k: nat, ch ::
      0 < numberLength(s) <= k <= |s| && IsSpace(ch) ==> numberLength(With(s, k, ch)) == numberLength(s)
  }

  lemma {:induction false} WithLater(s: string, m: nat, k: nat, ch: char)
    requires m <= k <= |s|
    ensures With(s, k, ch)[..m] == s[..m] && With(s, k, ch)[m..] == With(s[m..], k - m, ch)
  {
    assert s[m..][..k - m] == s[m..k] && s[m..][k - m..] == s[k..];
  }

  lemma {:induction false} SkipOne(s: string, ch: char)
    requires IsSpace(ch)
    ensures SkipWhitespace([ch] + s) == SkipWhitespace(s)
  {
    assert ([ch] + s)[1..] == s;
  }

  // A unit of a literal does not depend on what follows it.
  lemma {:induction false} UnitBefore(lit: string, rest: string, rest': string)
    requires match NextUnit(lit + rest) case Unit(_, n) => n <= |lit| case Quote => lit != "" case Bad => false
    ensures NextUnit(lit + rest') == NextUnit(lit + rest)
  {
    var s, s' := lit + rest, lit + rest';
    assert forall i :: 0 <= i < |lit| ==> s'[i] == s[i];
    if NextUnit(s).Unit? && NextUnit(s).length == 6 {
      HexWith(s[2..], s'[2..], 4);
    }
  }

  lemma {:induction false} HexWith(s: string, s': string, n: nat)
    requires n <= |s| && n <= |s'| && forall i :: 0 <= i < n ==> s'[i] == s[i]
    ensures HexValue(s', n) == HexValue(s, n)
  {
    if n > 0 {
      HexWith(s, s', n - 1);
    }
  }

  lemma {:induction false} BodyQuote(s: string)
    requires NextUnit(s).Quote?
    ensures StringBody(s) == Literal("", s[1..])
  {
  }

  lemma {:induction false} BodyUnit(s: string, tail: string)
    requires NextUnit(s).Unit? && s[NextUnit(s).length..] == tail
    ensures var l := StringBody(tail);
            StringBody(s) == if l.Literal? then Literal([NextUnit(s).ch] + l.chars, l.rest) else NoLiteral
  {
  }

  lemma {:induction false} DropFront(lit: string, rest: string, n: nat)
    requires n <= |lit|
    ensures (lit + rest)[n..] == lit[n..] + rest
  {
  }

  // Neither does a literal.
  lemma {:induction false} BodyBefore(lit: string, rest: string, rest': string)
    requires StringBody(lit + rest).Literal? && StringBody(lit + rest).rest == rest
    ensures StringBody(lit + rest') == Literal(StringBody(lit + rest).chars, rest')
    decreases |lit|
  {
    var u := NextUnit(lit + rest);
    BodyEnds(lit + rest);
    UnitBefore(lit, rest, rest');
    if u.Quote? {
      assert |lit| == 1;
      BodyQuote(lit + rest);
      BodyQuote(lit + rest');
      DropFront(lit, rest', 1);
      assert lit[1..] + rest' == rest';
    } else {
      DropFront(lit, rest, u.length);
      DropFront(lit, rest', u.length);
      BodyUnit(lit + rest, lit[u.length..] + rest);
      BodyUnit(lit + rest', lit[u.length..] + rest');
      BodyBefore(lit[u.length..], rest, rest');
    }
  }

  // The literal reaches behind its first unit.
  lemma {:induction false} BodyEnds(s: string)
    requires StringBody(s).Literal?
    ensures match NextUnit(s)
            case Quote => |StringBody(s).rest| == |s| - 1
            case Unit(_, n) => StringBody(s[n..]).Literal? && |StringBody(s).rest| < |s| - n
            case Bad => false
  {
  }

  lemma {:induction false} BodySuffix(s: string)
    requires StringBody(s).Literal?
    ensures var m := |s| - |StringBody(s).rest|; s[m..] == StringBody(s).rest
    decreases |s|
  {
    var u := NextUnit(s);
    BodyEnds(s);
    if u.Unit? {
      BodySuffix(s[u.length..]);
    }
  }

  lemma {:induction false} BodyWith(s: string, k: nat, ch: char)
    requires StringBody(s).Literal? && |s| - |StringBody(s).rest| <= k <= |s|
    ensures var l := StringBody(s);
            var m := |s| - |l.rest|;
            StringBody(With(s, k, ch)) == Literal(l.chars, With(l.rest, k - m, ch))
  {
    var rest := StringBody(s).rest;
    var m := |s| - |rest|;
    BodySuffix(s);
    assert s == s[..m] + rest;
    WithLater(s, m, k, ch);
    assert With(s, k, ch) == s[..m] + With(rest, k - m, ch);
    BodyBefore(s[..m], rest, With(rest, k - m, ch));
  }

  lemma {:induction false} RunWith(s: string, k: nat, ch: char)
    requires AlnumRun(s) <= k <= |s| && !IsAlnum(ch)
    ensures AlnumRun(With(s, k, ch)) == AlnumRun(s)
  {
    var s' := With(s, k, ch);
    if k > 0 && IsAlnum(s[0]) {
      WithLater(s, 1, k, ch);
      RunWith(s[1..], k - 1, ch);
      assert s'[0] == s[0];
    }
  }

  // A lexeme does not depend on white space behind it: number, string, single character, word.

  lemma {:induction false} HeadWith(s: string, k: nat, ch: char)
    requires 0 < k <= |s| && !IsSpace(s[0])
    ensures var s' := With(s, k, ch); s' != "" && s'[0] == s[0] && SkipWhitespace(s') == s' && SkipWhitespace(s) == s
    ensures With(s, k, ch)[1..] == With(s[1..], k - 1, ch)
  {
    WithLater(s, 1, k, ch);
    assert With(s, k, ch)[0] == With(s, k, ch)[..1][0] == s[..1][0];
  }

  // The lexeme s begins with ends before k, and is still there after the insertion at k, with the same rest.
  ghost predicate Stays(numberLength: string -> nat, s: string, k: nat, ch: char)
  {
    var l := Lex(numberLength, s);
    var m := |s| - |l.rest|;
    m <= k <= |s| && Lex(numberLength, With(s, k, ch)) == Token(l.lexeme, With(l.rest, k - m, ch))
  }

  lemma {:induction false} NumberWith(numberLength: string -> nat, s: string, k: nat, ch: char)
    requires SpaceEndsNumbers(numberLength) && IsSpace(ch) && s != "" && (s[0] == '-' || IsDigit(s[0]))
    requires 0 < numberLength(s) <= k <= |s|
    ensures Stays(numberLength, s, k, ch)
  {
    HeadWith(s, k, ch);
    WithLater(s, numberLength(s), k, ch);
    assert numberLength(With(s, k, ch)) == numberLength(s);
  }

  lemma {:induction false} StringWith(numberLength: string -> nat, s: string, k: nat, ch: char)
    requires s != "" && s[0] == '"' && StringBody(s[1..]).Literal? && |s| - |StringBody(s[1..]).rest| <= k <= |s|
    ensures Stays(numberLength, s, k, ch)
  {
    var l := StringBody(s[1..]);
    TailWith(s, k, ch, l.chars, l.rest);
    LexString(numberLength, s, l.chars, l.rest);
    LexString(numberLength, With(s, k, ch), l.chars, With(l.rest, k - (|s| - |l.rest|), ch));
  }

  lemma {:induction false} TailWith(s: string, k: nat, ch: char, chars: string, rest: string)
    requires s != "" && s[0] == '"' && StringBody(s[1..]) == Literal(chars, rest) && |s| - |rest| <= k <= |s|
    ensures var s' := With(s, k, ch);
            s' != "" && s'[0] == '"' && StringBody(s'[1..]) == Literal(chars, With(rest, k - (|s| - |rest|), ch))
  {
    HeadWith(s, k, ch);
    BodyWith(s[1..], k - 1, ch);
  }

  lemma {:induction false} LexString(numberLength: string -> nat, s: string, chars: string, rest: string)
    requires s != "" && s[0] == '"' && StringBody(s[1..]) == Literal(chars, rest)
    ensures Lex(numberLength, s) == Token(LexStr(CString(chars)), rest)
  {
  }

  lemma {:induction false} SimpleWith(numberLength: string -> nat, s: string, k: nat, ch: char)
    requires s != "" && Punctuation(s[0]).Some? && 0 < k <= |s|
    ensures Stays(numberLength, s, k, ch)
  {
    HeadWith(s, k, ch);
  }

  lemma {:induction false} PlainWith(numberLength: string -> nat, s: string, k: nat, ch: char)
    requires s != "" && IsSpace(ch) && k <= |s|
    requires s[0] != NUL && s[0] != '-' && !IsDigit(s[0]) && s[0] != '"' && Punctuation(s[0]).None? && !IsSpace(s[0])
    requires !LiteralLexeme(s).lexeme.Error? && |s| - |LiteralLexeme(s).rest| <= k
    ensures Stays(numberLength, s, k, ch)
  {
    HeadWith(s, k, ch);
    WordWith(s, k, ch);
    assert Lex(numberLength, s) == LiteralLexeme(s);
  }

  lemma {:induction false} LexemeWith(numberLength: string -> nat, s: string, k: nat, ch: char)
    requires SpaceEndsNumbers(numberLength) && IsSpace(ch) && s != "" && !IsSpace(s[0])
    requires var l := Lex(numberLength, s); !l.lexeme.Error? && !l.lexeme.Eof? && |s| - |l.rest| <= k <= |s|
    ensures Stays(numberLength, s, k, ch)
  {
    assert SkipWhitespace(s) == s;
    if s[0] == '-' || IsDigit(s[0]) {
      NumberWith(numberLength, s, k, ch);
    } else if s[0] == '"' {
      StringWith(numberLength, s, k, ch);
    } else if Punctuation(s[0]).Some? {
      SimpleWith(numberLength, s, k, ch);
    } else {
      PlainWith(numberLength, s, k, ch);
    }
  }

  lemma {:induction false} WordWith(s: string, k: nat, ch: char)
    requires !LiteralLexeme(s).lexeme.Error? && |s| - |LiteralLexeme(s).rest| <= k <= |s| && !IsAlnum(ch)
    ensures var l := LiteralLexeme(s);
            LiteralLexeme(With(s, k, ch)) == Token(l.lexeme, With(l.rest, k - (|s| - |l.rest|), ch))
  {
    var n := AlnumRun(s);
    assert n == |s| - |LiteralLexeme(s).rest|;
    RunWith(s, k, ch);
    WithLater(s, n, k, ch);
  }

  // Position k of s is where a lexeme has ended, or the beginning.
  ghost predicate Boundary(numberLength: string -> nat, s: string, k: nat)
    decreases |s|
  {
    k == 0 ||
    (var l := Lex(numberLength, s);
     var m := |s| - |l.rest|;
     !l.lexeme.Error? && !l.lexeme.Eof? && m <= k && Boundary(numberLength, l.rest, k - m))
  }

  lemma {:induction false} BoundaryInside(numberLength: string -> nat, s: string, k: nat)
    requires Boundary(numberLength, s, k)
    ensures k <= |s|
    decreases |s|
  {
    if k > 0 {
      var l := Lex(numberLength, s);
      BoundaryInside(numberLength, l.rest, k - (|s| - |l.rest|));
    }
  }

  lemma {:induction false} SkipWith(s: string, k: nat, ch: char)
    requires SkipWhitespace(s) != "" && |s| - |SkipWhitespace(s)| < k <= |s|
    ensures SkipWhitespace(With(s, k, ch)) == With(SkipWhitespace(s), k - (|s| - |SkipWhitespace(s)|), ch)
    decreases |s|
  {
    WithLater(s, 1, k, ch);
    assert With(s, k, ch)[0] == With(s, k, ch)[..1][0] == s[..1][0] == s[0];
    if IsSpace(s[0]) {
      SkipWith(s[1..], k - 1, ch);
    }
  }

  lemma {:induction false} SkipTwice(s: string)
    ensures SkipWhitespace(SkipWhitespace(s)) == SkipWhitespace(s)
  {
  }

  lemma {:induction false} LexSkips(numberLength: string -> nat, s: string)
    ensures Lex(numberLength, SkipWhitespace(s)) == Lex(numberLength, s)
  {
    SkipTwice(s);
  }

  lemma {:induction false} LexWith(numberLength: string -> nat, s: string, k: nat, ch: char)
    requires SpaceEndsNumbers(numberLength) && IsSpace(ch)
    requires var l := Lex(numberLength, s); !l.lexeme.Error? && !l.lexeme.Eof? && |s| - |l.rest| <= k <= |s|
    ensures Stays(numberLength, s, k, ch)
  {
    var t := SkipWhitespace(s);
    var m := |s| - |t|;
    LexSkips(numberLength, s);
    LexInside(numberLength, t);
    SkipWith(s, k, ch);
    LexemeWith(numberLength, t, k - m, ch);
    LexSkips(numberLength, With(s, k, ch));
    LexSkips(numberLength, With(t, k - m, ch));
  }

  // A lexeme that is none of the two ends takes at least one character.
  lemma {:induction false} LexInside(numberLength: string -> nat, t: string)
    requires !IsSpace(Head(t)) && !Lex(numberLength, t).lexeme.Eof? && !Lex(numberLength, t).lexeme.Error?
    ensures t != "" && |Lex(numberLength, t).rest| < |t|
  {
  }

  // A white space character, of whichever kind, inserted at a lexeme boundary leaves the lexemes as they are.
  lemma {:induction false} SpaceKeepsLexemes(numberLength: string -> nat, s: string, k: nat, ch: char)
    requires SpaceEndsNumbers(numberLength) && IsSpace(ch) && Boundary(numberLength, s, k) && k <= |s|
    ensures SameLexemes(numberLength, s, With(s, k, ch))
    decreases |s|
  {
    if k == 0 {
      SpaceInFront(numberLength, s, ch);
    } else {
      var l := Lex(numberLength, s);
      var m := |s| - |l.rest|;
      LexWith(numberLength, s, k, ch);
      SpaceKeepsLexemes(numberLength, l.rest, k - m, ch);
      SameNext(numberLength, s, With(s, k, ch), l, With(l.rest, k - m, ch));
    }
  }

  lemma {:induction false} SpaceInFront(numberLength: string -> nat, s: string, ch: char)
    requires IsSpace(ch)
    ensures SameLexemes(numberLength, s, With(s, 0, ch))
  {
    assert With(s, 0, ch) == [ch] + s;
    SkipOne(s, ch);
    assert Lex(numberLength, With(s, 0, ch)) == Lex(numberLength, s);
    SameAsItself(numberLength, s);
  }

  lemma {:induction false} SameNext(numberLength: string -> nat, s: string, s': string, l: Token, rest': string)
    requires Lex(numberLength, s) == l && Lex(numberLength, s') == Token(l.lexeme, rest')
    requires SameLexemes(numberLength, l.rest, rest')
    ensures SameLexemes(numberLength, s, s')
  {
  }

  // ... and so the tree, however often this is repeated.
  lemma {:induction false} SpaceKeepsParse(numberLength: string -> nat, s: string, k: nat, ch: char)
    requires SpaceEndsNumbers(numberLength) && Boundary(numberLength, s, k)
    requires ch in [' ', '\t', '\n', VERTICAL_TAB, FORM_FEED, '\r']
    ensures k <= |s| && Parse(numberLength, With(s, k, ch)) == Parse(numberLength, s)
  {
    SixKinds(ch);
    BoundaryInside(numberLength, s, k);
    SpaceKeepsLexemes(numberLength, s, k, ch);
    ParseSeesLexemes(numberLength, s, With(s, k, ch));
  }
}
