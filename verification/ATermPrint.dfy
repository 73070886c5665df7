/** The canonical text of a derivation, and the proof that the reader inverts it. */
module ATermPrint {
  import opened Wrappers
  import opened ATerm

  function EscapeChar(c: char): string {
    match c
    case '"' => "\\\""
    case '\\' => "\\\\"
    case '\n' => "\\n"
    case '\t' => "\\t"
    case '\r' => "\\r"
    case _ => [c]
  }

  function Escape(v: string): string {
    if v == "" then "" else EscapeChar(v[0]) + Escape(v[1..])
  }

  function PrintString(v: string): string { "\"" + (Escape(v) + "\"") }

  /** Every item after the first, each behind its comma. */
  function Tail<T>(show: T -> string, xs: seq<T>): string {
    if xs == [] then "" else "," + (show(xs[0]) + Tail(show, xs[1..]))
  }

  function Inner<T>(show: T -> string, xs: seq<T>): string {
    if xs == [] then "" else show(xs[0]) + Tail(show, xs[1..])
  }

  function PrintList<T>(show: T -> string, xs: seq<T>): string {
    "[" + (Inner(show, xs) + "]")
  }

  function PrintOutput(o: OutputEntry): string {
    "(" + (PrintString(o.name) + ("," + (PrintString(o.path) + ("," +
    (PrintString(o.hashAlgo) + ("," + (PrintString(o.hash) + ")")))))))
  }

  function PrintStrings(xs: seq<string>): string { PrintList(PrintString, xs) }

  function PrintInput(i: InputDrv): string {
    "(" + (PrintString(i.path) + ("," + (PrintStrings(i.outputs) + ")")))
  }

  function PrintPair(p: (string, string)): string {
    "(" + (PrintString(p.0) + ("," + (PrintString(p.1) + ")")))
  }

  // ----- strings -----

  lemma Assoc(a: string, b: string, c: string)
    ensures (a + b) + c == a + (b + c)
  {
  }

  lemma Behind(c: char, t: string)
    ensures Head([c] + t, c) && ([c] + t)[1..] == t
  {
  }

  lemma {:induction false} BodyOfEscape(v: string, rest: string)
    ensures Body(Escape(v) + ("\"" + rest)) == Ok((v, rest))
  {
    var quote := "\"" + rest;
    Behind('"', rest);
    if v == "" {
      assert Escape(v) + quote == quote;
    } else {
      BodyOfEscape(v[1..], rest);
      Assoc(EscapeChar(v[0]), Escape(v[1..]), quote);
      BodyOfChar(v[0], Escape(v[1..]) + quote);
      assert v == [v[0]] + v[1..];
    }
  }

  lemma BodyOfChar(c: char, t: string)
    ensures Body(EscapeChar(c) + t) == Push([c], Body(t))
  {
    var s := EscapeChar(c) + t;
    if |EscapeChar(c)| == 1 {
      assert s[1..] == t;
    } else {
      assert s[2..] == t;
      assert Unescape(s[1]) == c;
    }
  }

  lemma StringOfPrint(v: string, rest: string)
    ensures String(PrintString(v) + rest) == Ok((v, rest))
  {
    BodyOfEscape(v, rest);
    Assoc("\"", Escape(v) + "\"", rest);
    Assoc(Escape(v), "\"", rest);
    var body := Escape(v) + ("\"" + rest);
    Behind('"', body);
    NotTrimmed("\"" + body);
  }

  predicate Starts(s: string) { s != "" && !IsSpace(s[0]) }

  lemma NotTrimmed(s: string)
    requires Starts(s)
    ensures TrimStart(s) == s
  {
  }

  // ----- punctuation -----

  lemma CommaOf(s: string)
    requires Starts(s)
    ensures Comma("," + s) == Ok(s)
  {
    assert ("," + s)[1..] == s;
    assert TrimStart("," + s) == "," + s && TrimStart(s) == s;
  }

  lemma ClosingOf<T>(field: Field, x: T, rest: string)
    ensures Closing(field, x, ")" + rest) == Ok((x, rest))
  {
    assert (")" + rest)[1..] == rest;
    assert TrimStart(")" + rest) == ")" + rest;
  }

  // ----- lists -----

  /** The parser reads back what the printer wrote, whatever follows. */
  ghost predicate Inverts<T(!new)>(item: Parser<T>, show: T -> string) {
    && Reads(item)
    && (forall x :: ItemStart(show(x)))
    && (forall x, rest :: item(show(x) + rest) == Ok((x, rest)))
  }

  predicate ItemStart(s: string) { Starts(s) && s[0] != ',' && s[0] != ']' }

  lemma {:induction false} ItemsOfTail<T(!new)>(item: Parser<T>, show: T -> string, xs: seq<T>, rest: string)
    requires Inverts(item, show)
    ensures Items(item, Tail(show, xs) + ("]" + rest)) == Ok((xs, rest))
  {
    if xs == [] {
      assert Tail(show, xs) + ("]" + rest) == "]" + rest;
      ItemsOfEnd(item, rest);
    } else {
      var t := Tail(show, xs[1..]) + ("]" + rest);
      TailText(show, xs, rest);
      ItemsOfTail(item, show, xs[1..], rest);
      ItemsOfComma(item, show, xs[0], t, Tail(show, xs) + ("]" + rest), xs[1..], rest);
      assert xs == [xs[0]] + xs[1..];
    }
  }

  lemma ItemsOfEnd<T(!new)>(item: Parser<T>, rest: string)
    requires Reads(item)
    ensures Items(item, "]" + rest) == Ok(([], rest))
  {
    Behind(']', rest);
    assert TrimStart("]" + rest) == "]" + rest;
  }

  lemma TailText<T>(show: T -> string, xs: seq<T>, rest: string)
    requires xs != []
    ensures Tail(show, xs) + ("]" + rest) == "," + (show(xs[0]) + (Tail(show, xs[1..]) + ("]" + rest)))
  {
  }

  /** An item read at `u`, which is what is left of `s` behind blanks and a comma. */
  lemma ItemsOfItem<T(!new)>(item: Parser<T>, s: string, u: string, x: T, t: string, xs: seq<T>, rest: string)
    requires Reads(item) && TrimStart(s) == s && !Head(s, ']') && Separated(s) == u && !Head(u, ']')
    requires item(u) == Ok((x, t)) && Items(item, t) == Ok((xs, rest))
    ensures Items(item, s) == Ok(([x] + xs, rest))
  {
  }

  lemma ItemsOfComma<T(!new)>(
      item: Parser<T>, show: T -> string, x: T, t: string, s: string, xs: seq<T>, rest: string)
    requires Inverts(item, show) && s == "," + (show(x) + t) && Items(item, t) == Ok((xs, rest))
    ensures Items(item, s) == Ok(([x] + xs, rest))
  {
    var u := show(x) + t;
    assert ItemStart(show(x)) && ItemStart(u);
    Behind(',', u);
    NotTrimmed(s);
    NotTrimmed(u);
    ItemsOfItem(item, s, u, x, t, xs, rest);
  }

  lemma ItemsOfFirst<T(!new)>(
      item: Parser<T>, show: T -> string, x: T, t: string, s: string, xs: seq<T>, rest: string)
    requires Inverts(item, show) && s == show(x) + t && Items(item, t) == Ok((xs, rest))
    ensures Items(item, s) == Ok(([x] + xs, rest))
  {
    assert ItemStart(show(x)) && ItemStart(s);
    NotTrimmed(s);
    ItemsOfItem(item, s, s, x, t, xs, rest);
  }

  lemma ListOfPrint<T(!new)>(field: Field, item: Parser<T>, show: T -> string, xs: seq<T>, rest: string)
    requires Inverts(item, show)
    ensures List(field, item, PrintList(show, xs) + rest) == Ok((xs, rest))
  {
    var inner := Inner(show, xs) + ("]" + rest);
    ListText(show, xs, rest);
    Behind('[', inner);
    assert TrimStart("[" + inner) == "[" + inner;
    ItemsOfInner(item, show, xs, rest);
  }

  lemma ListText<T>(show: T -> string, xs: seq<T>, rest: string)
    ensures PrintList(show, xs) + rest == "[" + (Inner(show, xs) + ("]" + rest))
  {
  }

  lemma ItemsOfInner<T(!new)>(item: Parser<T>, show: T -> string, xs: seq<T>, rest: string)
    requires Inverts(item, show)
    ensures Items(item, Inner(show, xs) + ("]" + rest)) == Ok((xs, rest))
  {
    if xs == [] {
      ItemsOfTail(item, show, xs, rest);
    } else {
      var t := Tail(show, xs[1..]) + ("]" + rest);
      assert Inner(show, xs) + ("]" + rest) == show(xs[0]) + t;
      ItemsOfTail(item, show, xs[1..], rest);
      ItemsOfFirst(item, show, xs[0], t, Inner(show, xs) + ("]" + rest), xs[1..], rest);
      assert xs == [xs[0]] + xs[1..];
    }
  }

  // ----- entries -----

  lemma StringsInvert()
    ensures Inverts(String, PrintString)
  {
    forall v, rest ensures String(PrintString(v) + rest) == Ok((v, rest)) { StringOfPrint(v, rest); }
  }

  lemma StringsOfPrint(xs: seq<string>, rest: string)
    ensures StringListOf(PrintStrings(xs) + rest) == Ok((xs, rest))
  {
    StringsInvert();
    ListOfPrint(StringList, String, PrintString, xs, rest);
  }

  /** A string followed by a comma and more. */
  lemma Member(v: string, more: string)
    requires Starts(more)
    ensures String(PrintString(v) + ("," + more)) == Ok((v, "," + more)) && Comma("," + more) == Ok(more)
    ensures Starts(PrintString(v) + ("," + more))
  {
    StringOfPrint(v, "," + more);
    CommaOf(more);
  }

  lemma OutputOfPrint(o: OutputEntry, rest: string)
    ensures Output(PrintOutput(o) + rest) == Ok((o, rest))
  {
    var t4 := PrintString(o.hash) + (")" + rest);
    var t3 := PrintString(o.hashAlgo) + ("," + t4);
    var t2 := PrintString(o.path) + ("," + t3);
    var t1 := PrintString(o.name) + ("," + t2);
    StringOfPrint(o.hash, ")" + rest);
    ClosingOf(Outputs, o, rest);
    Member(o.hashAlgo, t4);
    Member(o.path, t3);
    Member(o.name, t2);
    OutputText(o, rest);
    Behind('(', t1);
    OutputOfParts(o, PrintOutput(o) + rest, "," + t2, t2, "," + t3, t3, "," + t4, t4, ")" + rest, rest);
  }

  lemma OutputOfParts(
      o: OutputEntry, s: string, r1: string, s1: string, r2: string, s2: string, r3: string, s3: string, r4: string,
      rest: string)
    requires Head(s, '(') && String(s[1..]) == Ok((o.name, r1)) && Comma(r1) == Ok(s1)
    requires String(s1) == Ok((o.path, r2)) && Comma(r2) == Ok(s2)
    requires String(s2) == Ok((o.hashAlgo, r3)) && Comma(r3) == Ok(s3)
    requires String(s3) == Ok((o.hash, r4)) && Closing(Outputs, o, r4) == Ok((o, rest))
    ensures Output(s) == Ok((o, rest))
  {
  }

  lemma OutputText(o: OutputEntry, rest: string)
    ensures PrintOutput(o) + rest ==
            "(" + (PrintString(o.name) + ("," + (PrintString(o.path) + ("," +
            (PrintString(o.hashAlgo) + ("," + (PrintString(o.hash) + (")" + rest))))))))
  {
  }

  lemma InputOfPrint(i: InputDrv, rest: string)
    ensures Input(PrintInput(i) + rest) == Ok((i, rest))
  {
    var t2 := PrintStrings(i.outputs) + (")" + rest);
    var t1 := PrintString(i.path) + ("," + t2);
    StringsOfPrint(i.outputs, ")" + rest);
    ClosingOf(InputDrvs, i, rest);
    Member(i.path, t2);
    InputText(i, rest);
    Behind('(', t1);
    InputOfParts(i, PrintInput(i) + rest, "," + t2, t2, ")" + rest, rest);
  }

  lemma InputOfParts(i: InputDrv, s: string, r1: string, s1: string, r2: string, rest: string)
    requires Head(s, '(') && String(s[1..]) == Ok((i.path, r1)) && Comma(r1) == Ok(s1)
    requires StringListOf(s1) == Ok((i.outputs, r2)) && Closing(InputDrvs, i, r2) == Ok((i, rest))
    ensures Input(s) == Ok((i, rest))
  {
  }

  lemma InputText(i: InputDrv, rest: string)
    ensures PrintInput(i) + rest == "(" + (PrintString(i.path) + ("," + (PrintStrings(i.outputs) + (")" + rest))))
  {
  }

  lemma PairOfPrint(p: (string, string), rest: string)
    ensures Pair(PrintPair(p) + rest) == Ok((p, rest))
  {
    var t2 := PrintString(p.1) + (")" + rest);
    var t1 := PrintString(p.0) + ("," + t2);
    StringOfPrint(p.1, ")" + rest);
    ClosingOf(Env, p, rest);
    Member(p.0, t2);
    PairText(p, rest);
    Behind('(', t1);
    PairOfParts(p, PrintPair(p) + rest, "," + t2, t2, ")" + rest, rest);
  }

  lemma PairOfParts(p: (string, string), s: string, r1: string, s1: string, r2: string, rest: string)
    requires Head(s, '(') && String(s[1..]) == Ok((p.0, r1)) && Comma(r1) == Ok(s1)
    requires String(s1) == Ok((p.1, r2)) && Closing(Env, p, r2) == Ok((p, rest))
    ensures Pair(s) == Ok((p, rest))
  {
  }

  lemma PairText(p: (string, string), rest: string)
    ensures PrintPair(p) + rest == "(" + (PrintString(p.0) + ("," + (PrintString(p.1) + (")" + rest))))
  {
  }

  lemma EntriesInvert()
    ensures Inverts(Output, PrintOutput) && Inverts(Input, PrintInput) && Inverts(Pair, PrintPair)
  {
    forall o, rest ensures Output(PrintOutput(o) + rest) == Ok((o, rest)) { OutputOfPrint(o, rest); }
    forall i, rest ensures Input(PrintInput(i) + rest) == Ok((i, rest)) { InputOfPrint(i, rest); }
    forall p, rest ensures Pair(PrintPair(p) + rest) == Ok((p, rest)) { PairOfPrint(p, rest); }
  }

  // ----- derivations -----

  /** The fields from the environment on, from the arguments on, and so forth. */
  function FromEnv(env: seq<(string, string)>, rest: string): string { PrintList(PrintPair, env) + rest }

  function FromArgs(d: Derivation, env: seq<(string, string)>, rest: string): string {
    PrintStrings(d.args) + ("," + FromEnv(env, rest))
  }

  function FromSystem(d: Derivation, env: seq<(string, string)>, rest: string): string {
    PrintString(d.system) + ("," + (PrintString(d.builder) + ("," + FromArgs(d, env, rest))))
  }

  function FromSources(d: Derivation, env: seq<(string, string)>, rest: string): string {
    PrintStrings(d.inputSources) + ("," + FromSystem(d, env, rest))
  }

  function FromInputs(d: Derivation, env: seq<(string, string)>, rest: string): string {
    PrintList(PrintInput, d.inputDrvs) + ("," + FromSources(d, env, rest))
  }

  function FromOutputs(d: Derivation, env: seq<(string, string)>, rest: string): string {
    PrintList(PrintOutput, d.outputs) + ("," + FromInputs(d, env, rest))
  }

  /** The text of a derivation whose environment is listed as `env`, and what follows. */
  function Text(d: Derivation, env: seq<(string, string)>, rest: string): string {
    "Derive(" + FromOutputs(d, env, rest)
  }

  /** The text of a derivation file. */
  function PrintDrv(d: Derivation, env: seq<(string, string)>): string { Text(d, env, ")") }

  lemma EnvOfText(env: seq<(string, string)>, rest: string)
    ensures Environments(FromEnv(env, rest)) == Ok((Environment(env), rest)) && Starts(FromEnv(env, rest))
  {
    EntriesInvert();
    ListOfPrint(Env, Pair, PrintPair, env, rest);
  }

  /** A list followed by a comma and more. */
  lemma ListMember<T(!new)>(field: Field, item: Parser<T>, show: T -> string, xs: seq<T>, more: string)
    requires Inverts(item, show) && Starts(more)
    ensures List(field, item, PrintList(show, xs) + ("," + more)) == Ok((xs, "," + more))
    ensures Comma("," + more) == Ok(more) && Starts(PrintList(show, xs) + ("," + more))
  {
    ListOfPrint(field, item, show, xs, "," + more);
    CommaOf(more);
  }

  /** Reading the text of a derivation, once trimmed. */
  lemma DrvOfTrimmed(content: string, d: Derivation, env: seq<(string, string)>, rest: string)
    requires TrimEnd(TrimStart(content)) == Text(d, env, rest)
    ensures Drv(content) == Ok(d.(environment := Environment(env)))
  {
    EnvOfText(env, rest);
    StringsInvert();
    EntriesInvert();
    ListMember(StringList, String, PrintString, d.args, FromEnv(env, rest));
    Member(d.builder, FromArgs(d, env, rest));
    Member(d.system, PrintString(d.builder) + ("," + FromArgs(d, env, rest)));
    ListMember(StringList, String, PrintString, d.inputSources, FromSystem(d, env, rest));
    ListMember(InputDrvs, Input, PrintInput, d.inputDrvs, FromSources(d, env, rest));
    ListMember(Outputs, Output, PrintOutput, d.outputs, FromInputs(d, env, rest));
    assert "Derive(" <= Text(d, env, rest) && Text(d, env, rest)[7..] == FromOutputs(d, env, rest);
  }

  // ----- trimming -----

  lemma TrimEndBehind(a: string, t: string)
    requires TrimEnd(t) != ""
    ensures TrimEnd(a + t) == a + TrimEnd(t)
  {
    var r := TrimEnd(t);
    assert t == r + t[|r|..];
    assert a + t == (a + r) + t[|r|..];
    TrimEndAfter(a + r, t[|r|..]);
    TrimEndAfter(r, t[|r|..]);
    assert (a + r) + TrimEnd(t[|r|..]) == a + (r + TrimEnd(t[|r|..]));
  }

  lemma TrimField(a: string, t: string)
    requires TrimEnd(t) != ""
    ensures TrimEnd(a + ("," + t)) == a + ("," + TrimEnd(t)) && TrimEnd(a + ("," + t)) != ""
  {
    TrimEndBehind(",", t);
    TrimEndBehind(a, "," + t);
  }

  lemma TrimText(d: Derivation, env: seq<(string, string)>, rest: string)
    ensures TrimEnd(Text(d, env, rest)) == Text(d, env, TrimEnd(rest))
  {
    var list := PrintList(PrintPair, env);
    assert list[|list| - 1] == ']';
    TrimEndAfter(list, rest);
    TrimField(PrintStrings(d.args), FromEnv(env, rest));
    TrimField(PrintString(d.builder), FromArgs(d, env, rest));
    TrimField(PrintString(d.system), PrintString(d.builder) + ("," + FromArgs(d, env, rest)));
    TrimField(PrintStrings(d.inputSources), FromSystem(d, env, rest));
    TrimField(PrintList(PrintInput, d.inputDrvs), FromSources(d, env, rest));
    TrimField(PrintList(PrintOutput, d.outputs), FromInputs(d, env, rest));
    TrimEndBehind("Derive(", FromOutputs(d, env, rest));
  }

  lemma TextStarts(d: Derivation, env: seq<(string, string)>, rest: string)
    ensures Starts(Text(d, env, rest))
  {
    assert Text(d, env, rest)[0] == 'D';
  }

  lemma Trimmed(blank: string, text: string)
    requires Blank(blank) && Starts(text)
    ensures TrimStart(blank + text) == text
  {
    TrimBlank(blank, text);
    NotTrimmed(text);
  }

  /** Round trip: the reader inverts the canonical text for every derivation, every string
      in it and every listing of its environment, behind any blanks. It never looks past
      the environment, so anything may follow instead of the closing parenthesis. */
  lemma RoundTrip(d: Derivation, env: seq<(string, string)>, blank: string, rest: string)
    requires Blank(blank) && Environment(env) == d.environment
    ensures Drv(blank + Text(d, env, rest)) == Ok(d)
  {
    TrimText(d, env, rest);
    TextStarts(d, env, rest);
    Trimmed(blank, Text(d, env, rest));
    DrvOfTrimmed(blank + Text(d, env, rest), d, env, TrimEnd(rest));
  }

  /** So no two derivations have the same text. */
  lemma TextIsInjective(d: Derivation, env: seq<(string, string)>, e: Derivation, env': seq<(string, string)>)
    requires Environment(env) == d.environment && Environment(env') == e.environment
    requires PrintDrv(d, env) == PrintDrv(e, env')
    ensures d == e
  {
    RoundTrip(d, env, "", ")");
    RoundTrip(e, env', "", ")");
  }

  /** A map listed once per key is read back as that map. */
  lemma {:induction false} EnvironmentOfListing(env: seq<(string, string)>, k: string)
    requires forall i, j :: 0 <= i < j < |env| ==> env[i].0 != env[j].0
    ensures k in Environment(env) <==> exists i :: 0 <= i < |env| && env[i].0 == k
    ensures forall i :: 0 <= i < |env| && env[i].0 == k ==> Environment(env)[k] == env[i].1
  {
    if env != [] {
      EnvironmentOfListing(env[..|env| - 1], k);
    }
  }
}
