/**
 Unix paths as src/PathUtil.cpp normalises, joins and prints them. A path buffer is the list of its segments; path
 strings are C strings without their terminator. Both slashes separate segments.
 */
module Paths {

  predicate IsSeparator(ch: char)
  {
    ch == '/' || ch == '\\'
  }

  // PathBuffer
  datatype Path = Path(absolute: bool, leading: nat, segs: seq<string>)

  /* ---- Segments ---- */

  function FirstSeparator(s: string): (n: nat)
    ensures n <= |s| && (n < |s| ==> IsSeparator(s[n])) && forall i :: 0 <= i < n ==> !IsSeparator(s[i])
  {
    if s == "" || IsSeparator(s[0]) then 0 else 1 + FirstSeparator(s[1..])
  }

  // The non-empty stretches between separators.
  function Split(s: string): seq<string>
    decreases |s|
  {
    var n := FirstSeparator(s);
    if n == |s| then (if n > 0 then [s] else [])
    else if n == 0 then Split(s[1..])
    else [s[..n]] + Split(s[n + 1..])
  }

  lemma {:induction false} FirstSeparatorIs(s: string, n: nat)
    requires n <= |s| && (n < |s| ==> IsSeparator(s[n])) && forall i :: 0 <= i < n ==> !IsSeparator(s[i])
    ensures FirstSeparator(s) == n
  {
    if n > 0 {
      FirstSeparatorIs(s[1..], n - 1);
    }
  }

  // Segments found so far, and a segment under way from `last` to i.
  ghost predicate Splitting(path: string, last: nat, i: nat, segs: seq<string>, all: seq<string>)
  {
    && last <= i <= |path|
    && (forall k :: last <= k < i ==> !IsSeparator(path[k]))
    && segs + Split(path[last..]) == all
  }

  // One character further.
  method NextChar(path: string, last: nat, i: nat, segs: seq<string>, ghost all: seq<string>)
    returns (last': nat, segs': seq<string>)
    requires i < |path| && Splitting(path, last, i, segs, all)
    ensures last' <= i + 1 && Splitting(path, last', i + 1, segs', all)
  {
    last', segs' := last, segs;
    if path[i] == '\\' || path[i] == '/' {
      SplitAt(path, last, i, segs, all);
      segs' := if i > last then segs + [path[last..i]] else segs;
      last' := i + 1;
    }
  }

  // PathGetSegments
  method GetSegments(path: string) returns (segs: seq<string>)
    ensures segs == Split(path)
  {
    segs := [];
    ghost var all := Split(path);
    SplittingStart(path);
    var last := 0;
    for i := 0 to |path|
      invariant 0 <= last <= i && Splitting(path, last, i, segs, all)
    {
      last, segs := NextChar(path, last, i, segs, all);
    }
    SplitEnd(path, last, segs, all);
    segs := if |path| > last then segs + [path[last..]] else segs;
  }

  lemma {:induction false} SplittingStart(path: string)
    ensures Splitting(path, 0, 0, [], Split(path))
  {
    assert path[0..] == path && [] + Split(path) == Split(path);
  }

  lemma {:induction false} SplitAt(path: string, last: nat, i: nat, segs: seq<string>, all: seq<string>)
    requires Splitting(path, last, i, segs, all) && i < |path| && IsSeparator(path[i])
    ensures Splitting(path, i + 1, i + 1, if i > last then segs + [path[last..i]] else segs, all)
  {
    SplitHead(path, last, i);
    if i > last {
      Regroup(segs, path[last..i], Split(path[i + 1..]));
    }
  }

  lemma {:induction false} Regroup<T>(before: seq<T>, x: T, after: seq<T>)
    ensures before + ([x] + after) == (before + [x]) + after
  {
  }

  lemma {:induction false} SplitHead(path: string, last: nat, i: nat)
    requires last <= i < |path| && IsSeparator(path[i]) && forall k :: last <= k < i ==> !IsSeparator(path[k])
    ensures Split(path[last..]) ==
            if i > last then [path[last..i]] + Split(path[i + 1..]) else Split(path[i + 1..])
  {
    var s, n := path[last..], i - last;
    FirstSeparatorIs(s, n);
    assert s[..n] == path[last..i] && s[n + 1..] == path[i + 1..];
  }

  lemma {:induction false} SplitEnd(path: string, last: nat, segs: seq<string>, all: seq<string>)
    requires Splitting(path, last, |path|, segs, all)
    ensures all == if |path| > last then segs + [path[last..]] else segs
  {
    FirstSeparatorIs(path[last..], |path| - last);
  }

  /* ---- Normalisation, left to right ---- */

  // Where a walk along the segments has got to: the directories above the start, and those entered below it.
  datatype Place = Place(leading: nat, segs: seq<string>)

  function Step(p: Place, s: string): Place
  {
    if s == "." then p
    else if s != ".." then p.(segs := p.segs + [s])
    else if p.segs == [] then p.(leading := p.leading + 1)
    else p.(segs := p.segs[..|p.segs| - 1])
  }

  function Walk(p: Place, raw: seq<string>): Place
    decreases |raw|
  {
    if raw == [] then p else Walk(Step(p, raw[0]), raw[1..])
  }

  function Normalize(raw: seq<string>): Place
  {
    Walk(Place(0, []), raw)
  }

  /* ---- Normalisation, right to left ---- */

  // How many segments in front of raw its ".." segments still have to drop.
  function Drops(raw: seq<string>): nat
  {
    if raw == [] then 0
    else
      var c := Drops(raw[1..]);
      if raw[0] == "." then c else if raw[0] == ".." then c + 1 else if c > 0 then c - 1 else 0
  }

  predicate Keeps(raw: seq<string>)
    requires raw != []
  {
    raw[0] != "." && raw[0] != ".." && Drops(raw[1..]) == 0
  }

  function Kept(raw: seq<string>): seq<string>
  {
    if raw == [] then [] else (if Keeps(raw) then [raw[0]] else []) + Kept(raw[1..])
  }

  // A relative move from a place: go up, then down.
  function Move(p: Place, up: nat, down: seq<string>): Place
  {
    if up <= |p.segs| then Place(p.leading, p.segs[..|p.segs| - up] + down)
    else Place(p.leading + up - |p.segs|, down)
  }

  // A name, then a move: the name is entered and, if the move goes up at all, left again.
  lemma {:induction false} NameThenMove(p: Place, s: string, up: nat, down: seq<string>)
    ensures Move(Place(p.leading, p.segs + [s]), up, down) ==
            if up > 0 then Move(p, up - 1, down) else Move(p, 0, [s] + down)
  {
    var segs := p.segs + [s];
    if up == 0 {
      assert segs[..|segs|] + down == p.segs[..|p.segs|] + ([s] + down);
    } else if up <= |segs| {
      assert segs[..|segs| - up] == p.segs[..|p.segs| - (up - 1)];
    }
  }

  // One step up, then a move.
  lemma {:induction false} UpThenMove(p: Place, up: nat, down: seq<string>)
    ensures Move(Step(p, ".."), up, down) == Move(p, up + 1, down)
  {
    if p.segs != [] && up < |p.segs| {
      var segs := p.segs[..|p.segs| - 1];
      assert segs[..|segs| - up] == p.segs[..|p.segs| - (up + 1)];
    }
  }

  // Walking along any segments is one move, which the right-to-left counter computes.
  lemma {:induction false} WalkIsMove(p: Place, raw: seq<string>)
    ensures Walk(p, raw) == Move(p, Drops(raw), Kept(raw))
    decreases |raw|
  {
    if raw == [] {
      assert p.segs[..|p.segs|] + [] == p.segs;
    } else {
      var s, rest := raw[0], raw[1..];
      var up, down := Drops(rest), Kept(rest);
      WalkIsMove(Step(p, s), rest);
      assert [] + down == down;
      if s == ".." {
        UpThenMove(p, up, down);
      } else if s != "." {
        NameThenMove(p, s, up, down);
      }
    }
  }

  lemma {:induction false} NormalizeIsDrops(raw: seq<string>)
    ensures Normalize(raw) == Place(Drops(raw), Kept(raw))
  {
    WalkIsMove(Place(0, []), raw);
    assert [][..0] + Kept(raw) == Kept(raw);
  }

  /* ---- PathInit ---- */

  // The dropping loop, from right to left.
  method MarkDrops(raw: seq<string>) returns (drop: array<bool>, drops: nat)
    ensures fresh(drop) && drop.Length == |raw| && drops == Drops(raw)
    ensures forall k :: 0 <= k < |raw| ==> drop[k] == !Keeps(raw[k..])
  {
    var n := |raw|;
    drop := new bool[n](i requires 0 <= i < n => raw[i] == ".");
    drops := 0;
    var i := n;
    assert raw[n..] == [];
    while i > 0
      invariant 0 <= i <= n && drops == Drops(raw[i..])
      invariant forall k :: 0 <= k < i ==> drop[k] == (raw[k] == ".")
      invariant forall k :: i <= k < n ==> drop[k] == !Keeps(raw[k..])
    {
      i := i - 1;
      assert raw[i..][1..] == raw[i + 1..];
      if !drop[i] {
        if raw[i] == ".." {
          drops := drops + 1;
          drop[i] := true;
        } else if drops > 0 {
          drops := drops - 1;
          drop[i] := true;
        }
      }
    }
    assert raw[0..] == raw;
  }

  // The dropping loop and the copying loop: what they keep is what walking from left to right arrives at.
  method DropSegments(raw: seq<string>) returns (p: Place)
    ensures p == Normalize(raw)
  {
    var drop, drops := MarkDrops(raw);
    var segs: seq<string> := [];
    assert raw[0..] == raw && [] + Kept(raw) == Kept(raw);
    for i := 0 to |raw|
      invariant segs + Kept(raw[i..]) == Kept(raw)
      invariant forall k :: 0 <= k < |raw| ==> drop[k] == !Keeps(raw[k..])
    {
      KeptNext(raw, i, segs);
      if !drop[i] {
        segs := segs + [raw[i]];
      }
    }
    assert raw[|raw|..] == [] && segs + [] == segs;
    NormalizeIsDrops(raw);
    p := Place(drops, segs);
  }

  lemma {:induction false} KeptNext(raw: seq<string>, i: nat, segs: seq<string>)
    requires i < |raw|
    ensures segs + Kept(raw[i..]) == (if Keeps(raw[i..]) then segs + [raw[i]] else segs) + Kept(raw[i + 1..])
  {
    assert raw[i..][1..] == raw[i + 1..];
  }

  // What PathInit makes of a string.
  function Parsed(path: string): Path
  {
    var absolute := path != "" && path[0] == '/';
    var p := Normalize(Split(if absolute then path[1..] else path));
    Path(absolute, p.leading, p.segs)
  }

  method Init(path: string) returns (r: Path)
    ensures r == Parsed(path)
  {
    var absolute := path != "" && path[0] == '/';
    var raw := GetSegments(if absolute then path[1..] else path);
    var p := DropSegments(raw);
    r := Path(absolute, p.leading, p.segs);
  }

  /* ---- Above the root ---- */

  // How many more ".." than names.
  function Balance(raw: seq<string>): int
  {
    if raw == [] then 0
    else Balance(raw[1..]) + if raw[0] == "." then 0 else if raw[0] == ".." then 1 else -1
  }

  // The counter is the largest balance of a prefix.
  lemma {:induction false} DropsIsLargestBalance(raw: seq<string>) returns (k: nat)
    ensures k <= |raw| && Balance(raw[..k]) == Drops(raw)
    ensures forall i :: 0 <= i <= |raw| ==> Balance(raw[..i]) <= Drops(raw)
  {
    k := 0;
    assert raw[..0] == [];
    if raw != [] {
      var rest := raw[1..];
      var l := DropsIsLargestBalance(rest);
      forall i | 0 < i <= |raw| ensures raw[..i] == [raw[0]] + rest[..i - 1] && Balance(raw[..i]) <= Drops(raw) {
        PrefixBalance(raw, i);
        assert Balance(rest[..i - 1]) <= Drops(rest);
      }
      if Drops(raw) > 0 || raw[0] == "." {
        k := l + 1;
        PrefixBalance(raw, k);
      }
    }
  }

  lemma {:induction false} PrefixBalance(raw: seq<string>, i: nat)
    requires 0 < i <= |raw|
    ensures raw[..i] == [raw[0]] + raw[1..][..i - 1]
    ensures Balance(raw[..i]) ==
            Balance(raw[1..][..i - 1]) + if raw[0] == "." then 0 else if raw[0] == ".." then 1 else -1
  {
    assert raw[..i] == [raw[0]] + raw[1..][..i - 1];
    assert raw[..i][1..] == raw[1..][..i - 1];
  }

  // Some prefix has more ".." than names.
  ghost predicate Overshoots(raw: seq<string>)
  {
    exists k :: 0 <= k <= |raw| && Balance(raw[..k]) > 0
  }

  lemma {:induction false} DropsExact(raw: seq<string>)
    ensures Drops(raw) > 0 <==> Overshoots(raw)
  {
    var k := DropsIsLargestBalance(raw);
    if Overshoots(raw) {
      var i :| 0 <= i <= |raw| && Balance(raw[..i]) > 0;
    }
  }

  // PathInit keeps ".." above the root of an absolute path exactly when some prefix of its segments has more ".."
  // than names.
  lemma {:induction false} AboveRootExact(path: string)
    requires path != "" && path[0] == '/'
    ensures Parsed(path).leading > 0 <==> Overshoots(Split(path[1..]))
  {
    NormalizeIsDrops(Split(path[1..]));
    DropsExact(Split(path[1..]));
  }

  lemma {:induction false} AboveRootKept()
    ensures Parsed("/../a") == Path(true, 1, ["a"])
  {
    var path := "/../a";
    assert path[1..] == ".." + ("/" + "a");
    SplitPrefix("..", "a");
    SplitPrefix("a", "");
    assert Split(path[1..]) == ["..", "a"];
    assert ["..", "a"][1..] == ["a"] && ["a"][1..] == [];
    assert Walk(Place(1, []), ["a"]) == Walk(Place(1, ["a"]), []);
  }

  /* ---- PathFormat ---- */

  function Ups(n: nat): string
  {
    if n == 0 then "" else "../" + Ups(n - 1)
  }

  function Join(segs: seq<string>): string
  {
    if segs == [] then "" else if |segs| == 1 then segs[0] else segs[0] + ("/" + Join(segs[1..]))
  }

  function Formatted(p: Path): string
  {
    (if p.absolute then "/" else "") + (Ups(p.leading) + Join(p.segs))
  }

  method Format(p: Path) returns (text: string)
    ensures text == Formatted(p)
  {
    text := if p.absolute then "/" else "";
    ghost var start := text;
    var up := 0;
    while up < p.leading
      invariant 0 <= up <= p.leading
      invariant text + Ups(p.leading - up) == start + Ups(p.leading)
    {
      assert text + ("../" + Ups(p.leading - up - 1)) == (text + "../") + Ups(p.leading - up - 1);
      text := text + "../";
      up := up + 1;
    }
    assert text + "" == text;
    ghost var middle := text;
    var i := 0;
    assert p.segs[0..] == p.segs && middle + Join(p.segs) == start + (Ups(p.leading) + Join(p.segs));
    while i < |p.segs|
      invariant 0 <= i <= |p.segs|
      invariant text + Rest(p.segs, i) == middle + Join(p.segs)
    {
      var gap := if i > 0 then "/" else "";
      RestNext(p.segs, i, text);
      text := text + gap + p.segs[i];
      i := i + 1;
    }
    assert text + "" == text;
  }

  // What is left to print from segment i on.
  function Rest(segs: seq<string>, i: nat): string
    requires i <= |segs|
  {
    if i == |segs| then "" else (if i > 0 then "/" else "") + Join(segs[i..])
  }

  lemma {:induction false} RestNext(segs: seq<string>, i: nat, text: string)
    requires i < |segs|
    ensures text + Rest(segs, i) == (text + (if i > 0 then "/" else "") + segs[i]) + Rest(segs, i + 1)
  {
    var gap := if i > 0 then "/" else "";
    assert segs[i..][1..] == segs[i + 1..];
    if i + 1 < |segs| {
      assert Rest(segs, i) == gap + (segs[i] + ("/" + Join(segs[i + 1..])));
    } else {
      assert Rest(segs, i) == gap + segs[i];
    }
  }

  /* ---- Printing and parsing again ---- */

  // A segment that normalisation can leave behind.
  predicate Proper(s: string)
  {
    s != "" && s != "." && s != ".." && forall i :: 0 <= i < |s| ==> !IsSeparator(s[i])
  }

  predicate AllProper(segs: seq<string>)
  {
    forall i :: 0 <= i < |segs| ==> Proper(segs[i])
  }

  lemma {:induction false} SplitPrefix(s: string, rest: string)
    requires s != "" && forall i :: 0 <= i < |s| ==> !IsSeparator(s[i])
    ensures Split(s + ("/" + rest)) == [s] + Split(rest)
    ensures Split(s) == [s]
  {
    var t := s + ("/" + rest);
    FirstSeparatorIs(t, |s|);
    assert t[..|s|] == s && t[|s| + 1..] == rest;
    FirstSeparatorIs(s, |s|);
  }

  function Dots(n: nat): (r: seq<string>)
  {
    if n == 0 then [] else [".."] + Dots(n - 1)
  }

  lemma {:induction false} SplitJoin(segs: seq<string>)
    requires AllProper(segs)
    ensures Split(Join(segs)) == segs
  {
    if segs != [] {
      assert Proper(segs[0]);
      SplitPrefix(segs[0], Join(segs[1..]));
      if |segs| > 1 {
        SplitJoin(segs[1..]);
        assert segs == [segs[0]] + segs[1..];
      }
    }
  }

  lemma {:induction false} UpsText(n: nat, rest: string)
    requires n > 0
    ensures Ups(n) + rest == ".." + ("/" + (Ups(n - 1) + rest))
  {
    assert "../" == ".." + "/";
  }

  lemma {:induction false} DotsText(n: nat, rest: seq<string>)
    requires n > 0
    ensures Dots(n) + rest == [".."] + (Dots(n - 1) + rest)
  {
  }

  lemma {:induction false} SplitUps(n: nat, rest: string)
    ensures Split(Ups(n) + rest) == Dots(n) + Split(rest)
  {
    if n == 0 {
      assert "" + rest == rest && [] + Split(rest) == Split(rest);
    } else {
      SplitUps(n - 1, rest);
      UpsText(n, rest);
      SplitPrefix("..", Ups(n - 1) + rest);
      DotsText(n, Split(rest));
    }
  }

  lemma {:induction false} WalkDots(leading: nat, n: nat, rest: seq<string>)
    ensures Walk(Place(leading, []), Dots(n) + rest) == Walk(Place(leading + n, []), rest)
    decreases n
  {
    if n == 0 {
      assert [] + rest == rest;
    } else {
      assert (Dots(n) + rest)[1..] == Dots(n - 1) + rest;
      WalkDots(leading + 1, n - 1, rest);
    }
  }

  lemma {:induction false} WalkProper(p: Place, segs: seq<string>)
    requires AllProper(segs)
    ensures Walk(p, segs) == Place(p.leading, p.segs + segs)
    decreases |segs|
  {
    if segs == [] {
      assert p.segs + [] == p.segs;
    } else {
      assert Proper(segs[0]);
      WalkProper(Step(p, segs[0]), segs[1..]);
      assert p.segs + [segs[0]] + segs[1..] == p.segs + segs;
    }
  }

  lemma {:induction false} NormalizeDots(leading: nat, segs: seq<string>)
    requires AllProper(segs)
    ensures Normalize(Dots(leading) + segs) == Place(leading, segs)
  {
    WalkDots(0, leading, segs);
    WalkProper(Place(leading, []), segs);
    assert [] + segs == segs;
  }

  lemma {:induction false} BodyParses(leading: nat, segs: seq<string>)
    requires AllProper(segs)
    ensures Normalize(Split(Ups(leading) + Join(segs))) == Place(leading, segs)
  {
    var joined := Join(segs);
    SplitUps(leading, joined);
    SplitJoin(segs);
    NormalizeDots(leading, segs);
  }

  // Any normalised path survives printing and parsing.
  lemma {:induction false} FormatRoundTrip(p: Path)
    requires AllProper(p.segs)
    ensures Parsed(Formatted(p)) == p
  {
    var body := Ups(p.leading) + Join(p.segs);
    BodyParses(p.leading, p.segs);
    BodyStart(p.leading, p.segs);
    assert "" + body == body && ("/" + body)[1..] == body;
  }

  // A relative path does not print as an absolute one.
  lemma {:induction false} BodyStart(n: nat, segs: seq<string>)
    requires AllProper(segs)
    ensures var body := Ups(n) + Join(segs); body != "" ==> body[0] != '/'
  {
    if n == 0 && segs != [] {
      assert Proper(segs[0]);
    }
  }

  lemma {:induction false} SplitProper(s: string, i: nat)
    requires i < |Split(s)|
    ensures Split(s)[i] != "" && forall k :: 0 <= k < |Split(s)[i]| ==> !IsSeparator(Split(s)[i][k])
    decreases |s|
  {
    var n := FirstSeparator(s);
    var first := if n > 0 then 1 else 0;
    if n < |s| && i >= first {
      SplitProper(s[n + 1..], i - first);
    }
  }

  lemma {:induction false} KeptFrom(raw: seq<string>, i: nat)
    requires i < |Kept(raw)|
    ensures Kept(raw)[i] in raw && Kept(raw)[i] != "." && Kept(raw)[i] != ".."
  {
    var first := if Keeps(raw) then 1 else 0;
    if i >= first {
      KeptFrom(raw[1..], i - first);
    }
  }

  lemma {:induction false} ParsedProper(path: string)
    ensures AllProper(Parsed(path).segs)
  {
    var s := if path != "" && path[0] == '/' then path[1..] else path;
    var raw := Split(s);
    NormalizeIsDrops(raw);
    forall i | 0 <= i < |Kept(raw)| ensures Proper(Kept(raw)[i]) {
      KeptFrom(raw, i);
      var k :| 0 <= k < |raw| && raw[k] == Kept(raw)[i];
      SplitProper(s, k);
    }
  }

  // Normalising is idempotent: printing a parsed path and parsing it again changes nothing.
  lemma {:induction false} Idempotent(path: string)
    ensures Parsed(Formatted(Parsed(path))) == Parsed(path)
  {
    ParsedProper(path);
    FormatRoundTrip(Parsed(path));
  }

  /* ---- PathConcat ---- */

  // PathConcat
  method Concat(base: Path, other: Path) returns (r: Path)
    ensures other.absolute ==> r == other
    ensures !other.absolute ==>
              var p := Move(Place(base.leading, base.segs), other.leading, other.segs);
              r == Path(base.absolute, if base.absolute then 0 else p.leading, p.segs)
  {
    if other.absolute {
      return other;
    }
    var count, leading := |base.segs|, base.leading;
    for i := 0 to other.leading
      invariant count == if i <= |base.segs| then |base.segs| - i else 0
      invariant leading == if i <= |base.segs| then base.leading else base.leading + i - |base.segs|
    {
      if count > 0 {
        count := count - 1;
      } else {
        leading := leading + 1;
      }
    }
    assert [] + other.segs == other.segs;
    r := Path(base.absolute, if base.absolute then 0 else leading, base.segs[..count] + other.segs);
  }

  lemma {:induction false} WalkConcat(p: Place, raw: seq<string>, raw': seq<string>)
    ensures Walk(p, raw + raw') == Walk(Walk(p, raw), raw')
    decreases |raw|
  {
    if raw == [] {
      assert raw + raw' == raw';
    } else {
      assert (raw + raw')[1..] == raw[1..] + raw';
      WalkConcat(Step(p, raw[0]), raw[1..], raw');
    }
  }

  // Joining two normalised lists of segments is normalising their concatenation.
  lemma {:induction false} ConcatIsNormalize(raw: seq<string>, raw': seq<string>)
    ensures Move(Normalize(raw), Normalize(raw').leading, Normalize(raw').segs) == Normalize(raw + raw')
  {
    WalkConcat(Place(0, []), raw, raw');
    WalkIsMove(Normalize(raw), raw');
    NormalizeIsDrops(raw');
  }

  // Walking below a root, where ".." stays at the root.
  function WalkFromRoot(segs: seq<string>, raw: seq<string>): seq<string>
    decreases |raw|
  {
    if raw == [] then segs else WalkFromRoot(Step(Place(0, segs), raw[0]).segs, raw[1..])
  }

  lemma {:induction false} RootClamps(p: Place, raw: seq<string>)
    ensures WalkFromRoot(p.segs, raw) == Walk(p, raw).segs
    decreases |raw|
  {
    if raw != [] {
      RootClamps(Step(p, raw[0]), raw[1..]);
    }
  }

  // Joining relative paths is parsing "a/b"; an absolute base clamps at the root; an absolute second path wins.
  method ConcatStrings(a: string, b: string) returns (r: Path)
    ensures b != "" && b[0] == '/' ==> r == Parsed(b)
    ensures !(b != "" && b[0] == '/') && !(a != "" && a[0] == '/') ==>
              r == (var p := Normalize(Split(a) + Split(b)); Path(false, p.leading, p.segs))
    ensures !(b != "" && b[0] == '/') && a != "" && a[0] == '/' ==>
              r == Path(true, 0, WalkFromRoot([], Split(a[1..]) + Split(b)))
  {
    var base := Init(a);
    var other := Init(b);
    r := Concat(base, other);
    var raw := Split(if base.absolute then a[1..] else a);
    ConcatIsNormalize(raw, Split(b));
    RootClamps(Place(0, []), raw + Split(b));
  }
}
