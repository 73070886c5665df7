/** The language of the `.drv` reader: which texts it accepts, and as what. Blanks may stand before
    every token, a list item may have a comma in front or not, a trailing comma is allowed, and
    nothing is asked of the text after the environment. */
module ATermGrammar {
  import opened Wrappers
  import opened ATerm

  // ----- tokens -----

  /** Blanks, the token, and what is left. */
  ghost predicate Tok(s: string, c: char, rest: string) {
    exists blank :: Blank(blank) && s == blank + [c] + rest
  }

  /** What is left after blanks. */
  ghost predicate Skips(s: string, rest: string) {
    exists blank :: Blank(blank) && s == blank + rest && (rest == "" || !IsSpace(rest[0]))
  }

  lemma Regroup(a: string, b: string, c: string)
    ensures a + b + c == a + (b + c)
  {
  }

  lemma BlankMore(c: char, front: string, s: string, t: string)
    requires IsSpace(c) && Blank(front) && s != "" && s[0] == c && s[1..] == front + t
    ensures Blank([c] + front) && s == [c] + front + t
  {
    assert s == [c] + s[1..];
    Regroup([c], front, t);
  }

  /** What trimming takes away is blank. */
  lemma {:induction false} CutFront(s: string) returns (front: string)
    ensures Blank(front) && s == front + TrimStart(s)
    decreases |s|
  {
    front := "";
    if s != "" && IsSpace(s[0]) {
      var more := CutFront(s[1..]);
      front := [s[0]] + more;
      BlankMore(s[0], more, s, TrimStart(s[1..]));
    }
  }

  lemma TrimNothing(s: string)
    requires s == "" || !IsSpace(s[0])
    ensures TrimStart(s) == s
  {
  }

  lemma SkipsIff(s: string, rest: string)
    ensures Skips(s, rest) <==> rest == TrimStart(s)
  {
    if Skips(s, rest) {
      var blank :| Blank(blank) && s == blank + rest && (rest == "" || !IsSpace(rest[0]));
      TrimBlank(blank, rest);
      TrimNothing(rest);
    }
    if rest == TrimStart(s) { var front := CutFront(s); }
  }

  lemma TokIff(s: string, c: char, rest: string)
    requires !IsSpace(c)
    ensures Tok(s, c, rest) <==> TrimStart(s) == [c] + rest
    ensures TrimStart(s) == [c] + rest <==> Head(TrimStart(s), c) && rest == TrimStart(s)[1..]
  {
    if Tok(s, c, rest) {
      var blank :| Blank(blank) && s == blank + [c] + rest;
      Regroup(blank, [c], rest);
      TrimBlank(blank, [c] + rest);
      TrimNothing([c] + rest);
    }
    if TrimStart(s) == [c] + rest {
      var front := CutFront(s);
      Regroup(front, [c], rest);
    }
  }

  // ----- strings -----

  /** A character as an escape names it. */
  predicate Means(escape: char, c: char) {
    if escape == 'n' then c as int == 10 else if escape == 't' then c as int == 9
    else if escape == 'r' then c as int == 13 else c == escape
  }

  /** `body` spells `v` between quotes: backslashes escape one character, a bare quote ends it. */
  predicate Spelled(body: string, v: string)
    decreases |body|
  {
    if body == "" then v == ""
    else if body[0] == '\\' then |body| >= 2 && v != "" && Means(body[1], v[0]) && Spelled(body[2..], v[1..])
    else body[0] != '"' && v != "" && v[0] == body[0] && Spelled(body[1..], v[1..])
  }

  ghost predicate StrAt(s: string, v: string, rest: string) {
    exists body :: Spelled(body, v) && Tok(s, '"', body + ("\"" + rest))
  }

  /** One character as it is written between quotes. */
  predicate Unit(unit: string, c: char) {
    || (|unit| == 1 && unit[0] != '\\' && unit[0] != '"' && unit[0] == c)
    || (|unit| == 2 && unit[0] == '\\' && Means(unit[1], c))
  }

  lemma SpelledMore(unit: string, c: char, body: string, v: string)
    requires Unit(unit, c) && Spelled(body, v)
    ensures Spelled(unit + body, [c] + v)
  {
    assert (unit + body)[|unit|..] == body && ([c] + v)[1..] == v;
  }

  /** The first character of a spelled string, and the rest. */
  lemma SpelledLess(body: string, v: string) returns (unit: string)
    requires Spelled(body, v) && body != ""
    ensures v != "" && unit <= body && unit != "" && Unit(unit, v[0]) && Spelled(body[|unit|..], v[1..])
  {
    unit := if body[0] == '\\' then body[..2] else body[..1];
  }

  lemma BodyUnit(unit: string, c: char, s: string)
    requires Unit(unit, c)
    ensures Body(unit + s) == Push([c], Body(s))
  {
    assert (unit + s)[|unit|..] == s;
  }

  lemma UnitOf(t: string, v: string, rest: string) returns (unit: string)
    requires Body(t) == Ok((v, rest)) && t[0] != '"'
    ensures v != "" && unit <= t && unit != "" && Unit(unit, v[0]) && Body(t[|unit|..]) == Ok((v[1..], rest))
  {
    unit := if t[0] == '\\' then t[..2] else t[..1];
    var tail := Body(t[|unit|..]);
    assert ([v[0]] + tail.value.0)[1..] == tail.value.0;
  }

  lemma {:induction false} BodySpells(t: string, v: string, rest: string) returns (body: string)
    requires Body(t) == Ok((v, rest))
    ensures Spelled(body, v) && t == body + ("\"" + rest)
    decreases |t|
  {
    if t[0] == '"' {
      body := "";
      assert t == "\"" + t[1..] && "" + t == t;
    } else {
      var unit := UnitOf(t, v, rest);
      var more := BodySpells(t[|unit|..], v[1..], rest);
      body := unit + more;
      BehindUnit(t, unit, more, v, rest);
    }
  }

  lemma Whole(s: string, front: string)
    requires front <= s
    ensures s == front + s[|front|..]
  {
  }

  lemma BehindUnit(t: string, unit: string, more: string, v: string, rest: string)
    requires unit <= t && v != "" && Unit(unit, v[0]) && Spelled(more, v[1..])
    requires t[|unit|..] == more + ("\"" + rest)
    ensures Spelled(unit + more, v) && t == unit + more + ("\"" + rest)
  {
    SpelledMore(unit, v[0], more, v[1..]);
    Whole(v, v[..1]);
    Whole(t, unit);
    Regroup(unit, more, "\"" + rest);
  }

  lemma {:induction false} SpelledReads(body: string, v: string, rest: string)
    requires Spelled(body, v)
    ensures Body(body + ("\"" + rest)) == Ok((v, rest))
    decreases |body|
  {
    if body == "" {
      BodyEnds(body, rest);
    } else {
      var unit := SpelledLess(body, v);
      SpelledReads(body[|unit|..], v[1..], rest);
      BodyFront(body, unit, v, rest);
    }
  }

  lemma BodyEnds(body: string, rest: string)
    requires body == ""
    ensures Body(body + ("\"" + rest)) == Ok(("", rest))
  {
    var t := body + ("\"" + rest);
    assert t[0] == '"' && t[1..] == rest;
  }

  lemma BodyFront(body: string, unit: string, v: string, rest: string)
    requires unit <= body && v != "" && Unit(unit, v[0])
    requires Body(body[|unit|..] + ("\"" + rest)) == Ok((v[1..], rest))
    ensures Body(body + ("\"" + rest)) == Ok((v, rest))
  {
    var more := body[|unit|..];
    BodyUnit(unit, v[0], more + ("\"" + rest));
    Whole(body, unit);
    Regroup(unit, more, "\"" + rest);
    assert v == [v[0]] + v[1..];
  }

  /** The string reader accepts exactly the spelled strings. */
  lemma StringIff(s: string, v: string, rest: string)
    ensures String(s) == Ok((v, rest)) <==> StrAt(s, v, rest)
  {
    var t := TrimStart(s);
    if String(s) == Ok((v, rest)) {
      var body := BodySpells(t[1..], v, rest);
      TokIff(s, '"', body + ("\"" + rest));
    }
    if StrAt(s, v, rest) {
      var body :| Spelled(body, v) && Tok(s, '"', body + ("\"" + rest));
      TokIff(s, '"', body + ("\"" + rest));
      SpelledReads(body, v, rest);
    }
  }

  // ----- commas and lists -----

  ghost predicate CommaAt(s: string, rest: string) { exists t :: Tok(s, ',', t) && Skips(t, rest) }

  lemma CommaIff(s: string, rest: string)
    ensures Comma(s) == Ok(rest) <==> CommaAt(s, rest)
  {
    var t := TrimStart(s);
    if Comma(s) == Ok(rest) {
      TokIff(s, ',', t[1..]);
      SkipsIff(t[1..], rest);
    }
    if CommaAt(s, rest) {
      var u :| Tok(s, ',', u) && Skips(u, rest);
      TokIff(s, ',', u);
      SkipsIff(u, rest);
    }
  }

  type Grammar<!T> = (string, T, string) -> bool

  /** The reader accepts what the grammar says, and nothing else. */
  ghost predicate Accepts<T(!new)>(item: Parser<T>, rule: Grammar<T>) {
    forall s, x, rest :: item(s) == Ok((x, rest)) <==> rule(s, x, rest)
  }

  /** At most one comma, with blanks around it. */
  ghost predicate SepAt(s: string, t: string) {
    (Skips(s, t) && !Head(t, ',')) || CommaAt(s, t)
  }

  lemma SepIff(s: string, t: string)
    ensures SepAt(s, t) <==> t == Separated(s)
  {
    SkipsIff(s, t);
    var u := TrimStart(s);
    if Head(u, ',') {
      CommaIff(s, t);
      assert Comma(s) == Ok(TrimStart(u[1..]));
    } else {
      CommaIff(s, t);
    }
  }

  /** The items of a list and its closing bracket. */
  ghost predicate ItemsAt<T>(rule: Grammar<T>, s: string, xs: seq<T>, rest: string)
    decreases |xs|
  {
    if xs == [] then exists t :: (t == s || Tok(s, ',', t)) && Tok(t, ']', rest)
    else exists t, r :: SepAt(s, t) && !Head(t, ']') && rule(t, xs[0], r) && ItemsAt(rule, r, xs[1..], rest)
  }

  lemma {:induction false} ItemsRead<T(!new)>(item: Parser<T>, rule: Grammar<T>, s: string, xs: seq<T>, rest: string)
    requires Reads(item) && Accepts(item, rule) && ItemsAt(rule, s, xs, rest)
    ensures Items(item, s) == Ok((xs, rest))
    decreases |xs|
  {
    if xs == [] {
      var t :| (t == s || Tok(s, ',', t)) && Tok(t, ']', rest);
      ItemsEnd(item, s, t, rest);
    } else {
      var t, r :| SepAt(s, t) && !Head(t, ']') && rule(t, xs[0], r) && ItemsAt(rule, r, xs[1..], rest);
      ItemsRead(item, rule, r, xs[1..], rest);
      ItemsMore(item, s, t, xs, r, rest);
    }
  }

  lemma ItemsEnd<T(!new)>(item: Parser<T>, s: string, t: string, rest: string)
    requires Reads(item) && (t == s || Tok(s, ',', t)) && Tok(t, ']', rest)
    ensures Items(item, s) == Ok(([], rest))
  {
    TokIff(t, ']', rest);
    if t != s { TokIff(s, ',', t); }
  }

  lemma ItemsMore<T(!new)>(item: Parser<T>, s: string, t: string, xs: seq<T>, r: string, rest: string)
    requires Reads(item) && SepAt(s, t) && !Head(t, ']') && xs != []
    requires item(t) == Ok((xs[0], r)) && Items(item, r) == Ok((xs[1..], rest))
    ensures Items(item, s) == Ok((xs, rest))
  {
    SepIff(s, t);
    assert xs == [xs[0]] + xs[1..];
  }

  lemma {:induction false} ReadItems<T(!new)>(item: Parser<T>, rule: Grammar<T>, s: string)
    requires Reads(item) && Accepts(item, rule) && Items(item, s).Ok?
    ensures ItemsAt(rule, s, Items(item, s).value.0, Items(item, s).value.1)
    decreases |s|
  {
    var (xs, rest) := Items(item, s).value;
    var t := Separated(s);
    if Head(TrimStart(s), ']') {
      TokIff(s, ']', rest);
    } else if Head(t, ']') {
      var u := TrimStart(s);
      TokIff(s, ',', u[1..]);
      TokIff(u[1..], ']', rest);
    } else {
      SepIff(s, t);
      var (x, r) := item(t).value;
      assert rule(t, x, r);
      ReadItems(item, rule, r);
      assert xs[0] == x && xs[1..] == Items(item, r).value.0;
    }
  }

  ghost predicate ListAt<T>(rule: Grammar<T>, s: string, xs: seq<T>, rest: string) {
    exists t :: Tok(s, '[', t) && ItemsAt(rule, t, xs, rest)
  }

  lemma ListIff<T(!new)>(field: Field, item: Parser<T>, rule: Grammar<T>, s: string, xs: seq<T>, rest: string)
    requires Reads(item) && Accepts(item, rule)
    ensures List(field, item, s) == Ok((xs, rest)) <==> ListAt(rule, s, xs, rest)
  {
    var t := TrimStart(s);
    if List(field, item, s) == Ok((xs, rest)) {
      TokIff(s, '[', t[1..]);
      ReadItems(item, rule, t[1..]);
    }
    if ListAt(rule, s, xs, rest) {
      var u :| Tok(s, '[', u) && ItemsAt(rule, u, xs, rest);
      TokIff(s, '[', u);
      ItemsRead(item, rule, u, xs, rest);
    }
  }

  // ----- entries -----

  /** Strings with a comma between any two. */
  ghost predicate StringsAt(s: string, vs: seq<string>, rest: string)
    requires vs != []
    decreases |vs|
  {
    if |vs| == 1 then StrAt(s, vs[0], rest)
    else exists r, t :: StrAt(s, vs[0], r) && CommaAt(r, t) && StringsAt(t, vs[1..], rest)
  }

  lemma StringsOne(s: string, v: string, rest: string)
    ensures StringsAt(s, [v], rest) <==> String(s) == Ok((v, rest))
  {
    StringIff(s, v, rest);
  }

  lemma StringsMore(s: string, v: string, vs: seq<string>, rest: string)
    requires vs != []
    ensures StringsAt(s, [v] + vs, rest) <==>
            String(s).Ok? && String(s).value.0 == v && Comma(String(s).value.1).Ok?
            && StringsAt(Comma(String(s).value.1).value, vs, rest)
  {
    assert ([v] + vs)[1..] == vs && ([v] + vs)[0] == v;
    if StringsAt(s, [v] + vs, rest) {
      var r, t :| StrAt(s, v, r) && CommaAt(r, t) && StringsAt(t, vs, rest);
      StringIff(s, v, r);
      CommaIff(r, t);
    }
    if String(s).Ok? && String(s).value.0 == v && Comma(String(s).value.1).Ok? {
      var r := String(s).value.1;
      StringIff(s, v, r);
      CommaIff(r, Comma(r).value);
    }
  }

  lemma ClosingIff<T>(field: Field, x: T, s: string, rest: string)
    ensures Closing(field, x, s) == Ok((x, rest)) <==> Tok(s, ')', rest)
    ensures Closing(field, x, s).Ok? ==> Closing(field, x, s).value.0 == x
  {
    TokIff(s, ')', rest);
  }

  /** `(` and the four strings of an output and `)`. */
  ghost predicate OutputAt(s: string, o: OutputEntry, rest: string) {
    Head(s, '(') && exists r :: StringsAt(s[1..], [o.name, o.path, o.hashAlgo, o.hash], r) && Tok(r, ')', rest)
  }

  ghost predicate PairAt(s: string, p: (string, string), rest: string) {
    Head(s, '(') && exists r :: StringsAt(s[1..], [p.0, p.1], r) && Tok(r, ')', rest)
  }

  /** `(`, the path, the output names it takes, `)`. */
  ghost predicate InputAt(s: string, i: InputDrv, rest: string) {
    Head(s, '(')
    && exists r, t, u ::
         StrAt(s[1..], i.path, r) && CommaAt(r, t) && ListAt(StrAt, t, i.outputs, u) && Tok(u, ')', rest)
  }

  /** The four strings of an output, read in turn. */
  lemma FourStrings(s: string, a: string, b: string, c: string, d: string, rest: string)
    ensures StringsAt(s, [a, b, c, d], rest) <==>
            && String(s).Ok? && String(s).value.0 == a && Comma(String(s).value.1).Ok?
            && StringsAt(Comma(String(s).value.1).value, [b, c, d], rest)
  {
    StringsMore(s, a, [b, c, d], rest);
    assert [a] + [b, c, d] == [a, b, c, d];
  }

  lemma ThreeStrings(s: string, b: string, c: string, d: string, rest: string)
    ensures StringsAt(s, [b, c, d], rest) <==>
            && String(s).Ok? && String(s).value.0 == b && Comma(String(s).value.1).Ok?
            && StringsAt(Comma(String(s).value.1).value, [c, d], rest)
  {
    StringsMore(s, b, [c, d], rest);
    assert [b] + [c, d] == [b, c, d];
  }

  lemma TwoStrings(s: string, c: string, d: string, rest: string)
    ensures StringsAt(s, [c, d], rest) <==>
            && String(s).Ok? && String(s).value.0 == c && Comma(String(s).value.1).Ok?
            && String(Comma(String(s).value.1).value) == Ok((d, rest))
  {
    StringsMore(s, c, [d], rest);
    assert [c] + [d] == [c, d];
    if String(s).Ok? && Comma(String(s).value.1).Ok? { StringsOne(Comma(String(s).value.1).value, d, rest); }
  }

  lemma PairIff(s: string, p: (string, string), rest: string)
    ensures Pair(s) == Ok((p, rest)) <==> PairAt(s, p, rest)
  {
    if Pair(s) == Ok((p, rest)) {
      var r1 := String(s[1..]).value.1;
      var r := String(Comma(r1).value).value.1;
      TwoStrings(s[1..], p.0, p.1, r);
      ClosingIff(Env, p, r, rest);
    }
    if PairAt(s, p, rest) {
      var r :| StringsAt(s[1..], [p.0, p.1], r) && Tok(r, ')', rest);
      TwoStrings(s[1..], p.0, p.1, r);
      ClosingIff(Env, p, r, rest);
    }
  }

  lemma OutputIff(s: string, o: OutputEntry, rest: string)
    ensures Output(s) == Ok((o, rest)) <==> OutputAt(s, o, rest)
  {
    if Output(s) == Ok((o, rest)) {
      var s1 := Comma(String(s[1..]).value.1).value;
      var s2 := Comma(String(s1).value.1).value;
      var s3 := Comma(String(s2).value.1).value;
      var r := String(s3).value.1;
      TwoStrings(s2, o.hashAlgo, o.hash, r);
      ThreeStrings(s1, o.path, o.hashAlgo, o.hash, r);
      FourStrings(s[1..], o.name, o.path, o.hashAlgo, o.hash, r);
      ClosingIff(Outputs, o, r, rest);
    }
    if OutputAt(s, o, rest) {
      var r :| StringsAt(s[1..], [o.name, o.path, o.hashAlgo, o.hash], r) && Tok(r, ')', rest);
      FourStrings(s[1..], o.name, o.path, o.hashAlgo, o.hash, r);
      var s1 := Comma(String(s[1..]).value.1).value;
      ThreeStrings(s1, o.path, o.hashAlgo, o.hash, r);
      TwoStrings(Comma(String(s1).value.1).value, o.hashAlgo, o.hash, r);
      ClosingIff(Outputs, o, r, rest);
    }
  }

  lemma StringAccepts()
    ensures Reads(String) && Accepts(String, StrAt)
  {
    forall s, v, rest ensures String(s) == Ok((v, rest)) <==> StrAt(s, v, rest) { StringIff(s, v, rest); }
  }

  lemma StringListIff(s: string, xs: seq<string>, rest: string)
    ensures StringListOf(s) == Ok((xs, rest)) <==> ListAt(StrAt, s, xs, rest)
  {
    StringAccepts();
    ListIff(StringList, String, StrAt, s, xs, rest);
  }

  lemma InputIff(s: string, i: InputDrv, rest: string)
    ensures Input(s) == Ok((i, rest)) <==> InputAt(s, i, rest)
  {
    if Input(s) == Ok((i, rest)) {
      var r := String(s[1..]).value.1;
      var t := Comma(r).value;
      var u := StringListOf(t).value.1;
      StringIff(s[1..], i.path, r);
      CommaIff(r, t);
      StringListIff(t, i.outputs, u);
      ClosingIff(InputDrvs, i, u, rest);
    }
    if InputAt(s, i, rest) {
      var r, t, u :|
        StrAt(s[1..], i.path, r) && CommaAt(r, t) && ListAt(StrAt, t, i.outputs, u) && Tok(u, ')', rest);
      StringIff(s[1..], i.path, r);
      CommaIff(r, t);
      StringListIff(t, i.outputs, u);
      ClosingIff(InputDrvs, i, u, rest);
    }
  }

  lemma EntriesAccept()
    ensures Reads(Output) && Accepts(Output, OutputAt)
    ensures Reads(Input) && Accepts(Input, InputAt)
    ensures Reads(Pair) && Accepts(Pair, PairAt)
  {
    forall s, x, rest ensures Output(s) == Ok((x, rest)) <==> OutputAt(s, x, rest) { OutputIff(s, x, rest); }
    forall s, x, rest ensures Input(s) == Ok((x, rest)) <==> InputAt(s, x, rest) { InputIff(s, x, rest); }
    forall s, x, rest ensures Pair(s) == Ok((x, rest)) <==> PairAt(s, x, rest) { PairIff(s, x, rest); }
  }

  // ----- derivations -----

  /** `content` is `s` between blanks. */
  ghost predicate Framed(content: string, s: string) {
    && (exists front, back :: Blank(front) && Blank(back) && content == front + s + back)
    && s != "" && !IsSpace(s[0]) && !IsSpace(s[|s| - 1])
  }

  lemma {:induction false} TrimEndIsBlank(s: string)
    ensures TrimEnd(s) <= s && Blank(s[|TrimEnd(s)|..])
    decreases |s|
  {
    if s != "" && IsSpace(s[|s| - 1]) {
      var init := s[..|s| - 1];
      TrimEndIsBlank(init);
      forall i | 0 <= i < |s| - |TrimEnd(s)| ensures IsSpace(s[|TrimEnd(s)|..][i]) {
        if i < |s| - |TrimEnd(s)| - 1 { assert s[|TrimEnd(s)|..][i] == init[|TrimEnd(s)|..][i]; }
      }
    }
  }

  lemma {:induction false} TrimEndBlank(s: string)
    requires Blank(s)
    ensures TrimEnd(s) == ""
    decreases |s|
  {
    if s != "" { TrimEndBlank(s[..|s| - 1]); }
  }

  lemma FramedIff(content: string, s: string)
    requires s != ""
    ensures Framed(content, s) <==> TrimEnd(TrimStart(content)) == s
  {
    if Framed(content, s) { FramedTrims(content, s); }
    if TrimEnd(TrimStart(content)) == s {
      var front := CutFront(content);
      var back := CutBack(TrimStart(content), s);
      FramedBy(content, TrimStart(content), s, front, back);
    }
  }

  lemma FramedTrims(content: string, s: string)
    requires Framed(content, s)
    ensures TrimEnd(TrimStart(content)) == s
  {
    var front, back :| Blank(front) && Blank(back) && content == front + s + back;
    assert content == front + (s + back);
    TrimBlank(front, s + back);
    assert (s + back)[0] == s[0];
    TrimEndBlank(back);
    TrimEndAfter(s, back);
    assert s + "" == s;
  }

  lemma CutBack(t: string, s: string) returns (back: string)
    requires TrimEnd(t) == s
    ensures t == s + back && Blank(back) && (s == "" || !IsSpace(s[|s| - 1]))
  {
    TrimEndIsBlank(t);
    back := t[|s|..];
  }

  lemma FramedBy(content: string, t: string, s: string, front: string, back: string)
    requires Blank(front) && Blank(back) && content == front + t && t == s + back
    requires s != "" && !IsSpace(t[0]) && !IsSpace(s[|s| - 1])
    ensures Framed(content, s)
  {
    Regroup(front, s, back);
  }

  /** The pairs of the environment, of which the last for each key counts. */
  ghost predicate EnvironmentAt(s: string, environment: map<string, string>) {
    exists pairs, rest :: ListAt(PairAt, s, pairs, rest) && LastWins(pairs, environment)
  }

  ghost predicate LastWins(pairs: seq<(string, string)>, environment: map<string, string>) {
    && (forall k :: k in environment <==> exists i :: 0 <= i < |pairs| && pairs[i].0 == k)
    && forall i :: 0 <= i < |pairs| && (forall j :: i < j < |pairs| ==> pairs[j].0 != pairs[i].0) ==>
         pairs[i].0 in environment && environment[pairs[i].0] == pairs[i].1
  }

  // The fields, each with a comma and the fields after it.

  ghost predicate ArgsAt(s: string, d: Derivation) {
    exists r, t :: ListAt(StrAt, s, d.args, r) && CommaAt(r, t) && EnvironmentAt(t, d.environment)
  }

  ghost predicate BuilderAt(s: string, d: Derivation) {
    exists r, t :: StrAt(s, d.builder, r) && CommaAt(r, t) && ArgsAt(t, d)
  }

  ghost predicate SystemAt(s: string, d: Derivation) {
    exists r, t :: StrAt(s, d.system, r) && CommaAt(r, t) && BuilderAt(t, d)
  }

  ghost predicate SourcesAt(s: string, d: Derivation) {
    exists r, t :: ListAt(StrAt, s, d.inputSources, r) && CommaAt(r, t) && SystemAt(t, d)
  }

  ghost predicate InputsAt(s: string, d: Derivation) {
    exists r, t :: ListAt(InputAt, s, d.inputDrvs, r) && CommaAt(r, t) && SourcesAt(t, d)
  }

  ghost predicate OutputsAt(s: string, d: Derivation) {
    exists r, t :: ListAt(OutputAt, s, d.outputs, r) && CommaAt(r, t) && InputsAt(t, d)
  }

  /** The text is a derivation: `Derive(` and its seven fields. */
  ghost predicate DerivationText(content: string, d: Derivation) {
    exists s :: Framed(content, "Derive(" + s) && OutputsAt(s, d)
  }

  lemma {:induction false} EnvironmentIff(pairs: seq<(string, string)>, environment: map<string, string>)
    ensures Environment(pairs) == environment <==> LastWins(pairs, environment)
    decreases |pairs|
  {
    EnvironmentWins(pairs);
    if LastWins(pairs, environment) { WinsOnce(pairs, Environment(pairs), environment); }
  }

  lemma {:induction false} EnvironmentWins(pairs: seq<(string, string)>)
    ensures LastWins(pairs, Environment(pairs))
    decreases |pairs|
  {
    if pairs != [] {
      var init, last := pairs[..|pairs| - 1], pairs[|pairs| - 1];
      EnvironmentWins(init);
      OneMoreWins(pairs, init, last, Environment(init));
    }
  }

  lemma OneMoreWins(
      pairs: seq<(string, string)>, init: seq<(string, string)>, last: (string, string), m: map<string, string>)
    requires pairs == init + [last] && LastWins(init, m)
    ensures LastWins(pairs, m[last.0 := last.1])
  {
    var more := m[last.0 := last.1];
    forall k ensures k in more <==> exists i :: 0 <= i < |pairs| && pairs[i].0 == k {
      KeysMore(pairs, init, last, m, k);
    }
    forall i | 0 <= i < |pairs| && (forall j :: i < j < |pairs| ==> pairs[j].0 != pairs[i].0)
      ensures pairs[i].0 in more && more[pairs[i].0] == pairs[i].1
    {
      if i < |init| {
        assert init[i] == pairs[i] && pairs[|pairs| - 1].0 != pairs[i].0;
        assert forall j :: i < j < |init| ==> init[j].0 == pairs[j].0;
      }
    }
  }

  lemma KeysMore(
      pairs: seq<(string, string)>, init: seq<(string, string)>, last: (string, string), m: map<string, string>,
      k: string)
    requires pairs == init + [last] && LastWins(init, m)
    ensures k in m[last.0 := last.1] <==> exists i :: 0 <= i < |pairs| && pairs[i].0 == k
  {
    assert pairs[|init|] == last;
    if i :| 0 <= i < |init| && init[i].0 == k { assert pairs[i].0 == k; }
    if i :| 0 <= i < |pairs| && pairs[i].0 == k { if i < |init| { assert init[i].0 == k; } }
  }

  lemma WinsOnce(pairs: seq<(string, string)>, a: map<string, string>, b: map<string, string>)
    requires LastWins(pairs, a) && LastWins(pairs, b)
    ensures a == b
  {
    forall k | k in a ensures k in b && a[k] == b[k] {
      var i := LastOf(pairs, k, |pairs|);
    }
    assert a.Keys == b.Keys;
  }

  lemma {:induction false} LastOf(pairs: seq<(string, string)>, k: string, n: nat) returns (i: nat)
    requires n <= |pairs| && exists i :: 0 <= i < n && pairs[i].0 == k
    ensures i < n && pairs[i].0 == k && forall j :: i < j < n ==> pairs[j].0 != k
    decreases n
  {
    if pairs[n - 1].0 == k { i := n - 1; } else { i := LastOf(pairs, k, n - 1); }
  }

  lemma EnvironmentsIff(u: string, environment: map<string, string>)
    ensures Environments(u).Ok? && Environments(u).value.0 == environment <==> EnvironmentAt(u, environment)
  {
    EntriesAccept();
    if Environments(u).Ok? && Environments(u).value.0 == environment {
      var (pairs, rest) := List(Env, Pair, u).value;
      ListIff(Env, Pair, PairAt, u, pairs, rest);
      EnvironmentIff(pairs, environment);
    }
    if EnvironmentAt(u, environment) {
      var pairs, rest :| ListAt(PairAt, u, pairs, rest) && LastWins(pairs, environment);
      ListIff(Env, Pair, PairAt, u, pairs, rest);
      EnvironmentIff(pairs, environment);
    }
  }

  lemma EnvIff(p: Derivation, s: string, d: Derivation)
    ensures EnvOn(p, s) == Ok(d) <==> EnvironmentAt(s, d.environment) && d == p.(environment := d.environment)
  {
    EnvironmentsIff(s, d.environment);
  }

  lemma ArgsIff(p: Derivation, s: string, d: Derivation)
    ensures ArgsOn(p, s) == Ok(d) <==> ArgsAt(s, d) && d == p.(args := d.args, environment := d.environment)
  {
    if ArgsOn(p, s) == Ok(d) {
      var (x, r) := StringListOf(s).value;
      var t := Comma(r).value;
      EnvIff(p.(args := x), t, d);
      StringListIff(s, x, r);
      CommaIff(r, t);
    }
    if ArgsAt(s, d) && d == p.(args := d.args, environment := d.environment) {
      var r, t :| ListAt(StrAt, s, d.args, r) && CommaAt(r, t) && EnvironmentAt(t, d.environment);
      StringListIff(s, d.args, r);
      CommaIff(r, t);
      EnvIff(p.(args := d.args), t, d);
    }
  }

  /** `d` has the fields of `p` before the builder. */
  predicate UpToBuilder(p: Derivation, d: Derivation) {
    d == p.(builder := d.builder, args := d.args, environment := d.environment)
  }

  lemma BuilderIff(p: Derivation, s: string, d: Derivation)
    ensures BuilderOn(p, s) == Ok(d) <==> BuilderAt(s, d) && UpToBuilder(p, d)
  {
    if BuilderOn(p, s) == Ok(d) {
      var (x, r) := String(s).value;
      var t := Comma(r).value;
      ArgsIff(p.(builder := x), t, d);
      StringIff(s, x, r);
      CommaIff(r, t);
    }
    if BuilderAt(s, d) && UpToBuilder(p, d) {
      var r, t :| StrAt(s, d.builder, r) && CommaAt(r, t) && ArgsAt(t, d);
      StringIff(s, d.builder, r);
      CommaIff(r, t);
      ArgsIff(p.(builder := d.builder), t, d);
    }
  }

  lemma SystemIff(p: Derivation, s: string, d: Derivation)
    ensures SystemOn(p, s) == Ok(d) <==> SystemAt(s, d) && UpToBuilder(p.(system := d.system), d)
  {
    if SystemOn(p, s) == Ok(d) {
      var (x, r) := String(s).value;
      var t := Comma(r).value;
      BuilderIff(p.(system := x), t, d);
      StringIff(s, x, r);
      CommaIff(r, t);
    }
    if SystemAt(s, d) && UpToBuilder(p.(system := d.system), d) {
      var r, t :| StrAt(s, d.system, r) && CommaAt(r, t) && BuilderAt(t, d);
      StringIff(s, d.system, r);
      CommaIff(r, t);
      BuilderIff(p.(system := d.system), t, d);
    }
  }

  /** `d` has the outputs and input derivations of `p`. */
  predicate SameGraph(p: Derivation, d: Derivation) { d.outputs == p.outputs && d.inputDrvs == p.inputDrvs }

  lemma SourcesIff(p: Derivation, s: string, d: Derivation)
    ensures SourcesOn(p, s) == Ok(d) <==> SourcesAt(s, d) && SameGraph(p, d)
  {
    if SourcesOn(p, s) == Ok(d) {
      var (x, r) := StringListOf(s).value;
      var t := Comma(r).value;
      SystemIff(p.(inputSources := x), t, d);
      StringListIff(s, x, r);
      CommaIff(r, t);
    }
    if SourcesAt(s, d) && SameGraph(p, d) {
      var r, t :| ListAt(StrAt, s, d.inputSources, r) && CommaAt(r, t) && SystemAt(t, d);
      StringListIff(s, d.inputSources, r);
      CommaIff(r, t);
      SystemIff(p.(inputSources := d.inputSources), t, d);
    }
  }

  lemma InputsIff(p: Derivation, s: string, d: Derivation)
    ensures InputsOn(p, s) == Ok(d) <==> InputsAt(s, d) && d.outputs == p.outputs
  {
    EntriesAccept();
    if InputsOn(p, s) == Ok(d) {
      var (x, r) := List(InputDrvs, Input, s).value;
      var t := Comma(r).value;
      SourcesIff(p.(inputDrvs := x), t, d);
      ListIff(InputDrvs, Input, InputAt, s, x, r);
      CommaIff(r, t);
    }
    if InputsAt(s, d) && d.outputs == p.outputs {
      var r, t :| ListAt(InputAt, s, d.inputDrvs, r) && CommaAt(r, t) && SourcesAt(t, d);
      ListIff(InputDrvs, Input, InputAt, s, d.inputDrvs, r);
      CommaIff(r, t);
      SourcesIff(p.(inputDrvs := d.inputDrvs), t, d);
    }
  }

  lemma OutputsIff(s: string, d: Derivation)
    ensures OutputsOn(s) == Ok(d) <==> OutputsAt(s, d)
  {
    EntriesAccept();
    if OutputsOn(s) == Ok(d) {
      var (x, r) := List(Outputs, Output, s).value;
      var t := Comma(r).value;
      InputsIff(NO_DERIVATION.(outputs := x), t, d);
      ListIff(Outputs, Output, OutputAt, s, x, r);
      CommaIff(r, t);
    }
    if OutputsAt(s, d) {
      var r, t :| ListAt(OutputAt, s, d.outputs, r) && CommaAt(r, t) && InputsAt(t, d);
      ListIff(Outputs, Output, OutputAt, s, d.outputs, r);
      CommaIff(r, t);
      InputsIff(NO_DERIVATION.(outputs := d.outputs), t, d);
    }
  }

  /** The reader accepts a text as a derivation exactly when it is one. */
  lemma DrvIff(content: string, d: Derivation)
    ensures Drv(content) == Ok(d) <==> DerivationText(content, d)
  {
    if Drv(content) == Ok(d) {
      var s := PrefixOf(content, d);
      OutputsIff(s, d);
      FramedIff(content, "Derive(" + s);
    }
    if DerivationText(content, d) {
      var s :| Framed(content, "Derive(" + s) && OutputsAt(s, d);
      OutputsIff(s, d);
      FramedIff(content, "Derive(" + s);
      BehindPrefix(content, s, d);
    }
  }

  lemma PrefixOf(content: string, d: Derivation) returns (s: string)
    requires Drv(content) == Ok(d)
    ensures TrimEnd(TrimStart(content)) == "Derive(" + s && OutputsOn(s) == Ok(d)
  {
    var t := TrimEnd(TrimStart(content));
    s := t[7..];
    Whole(t, "Derive(");
  }

  lemma BehindPrefix(content: string, s: string, d: Derivation)
    requires TrimEnd(TrimStart(content)) == "Derive(" + s && OutputsOn(s) == Ok(d)
    ensures Drv(content) == Ok(d)
  {
    Tail7(s);
  }

  lemma Tail7(s: string)
    ensures ("Derive(" + s)[7..] == s && "Derive(" <= "Derive(" + s
  {
  }
}
