/** The reader of `.drv` files: quoted strings, lists and tuples in ATerm notation. */
module ATerm {

  import opened Wrappers

  datatype Error =
    | ExpectedQuote | EndInsideEscape | UnterminatedString | ExpectedComma
    | ExpectedList(field: Field) | ExpectedEntry(field: Field) | UnclosedEntry(field: Field)
    | NotADerivation

  datatype Field = Outputs | InputDrvs | StringList | Env

  datatype OutputEntry = OutputEntry(name: string, path: string, hashAlgo: string, hash: string)

  datatype InputDrv = InputDrv(path: string, outputs: seq<string>)

  datatype Derivation = Derivation(
    outputs: seq<OutputEntry>,
    inputDrvs: seq<InputDrv>,
    inputSources: seq<string>,
    system: string,
    builder: string,
    args: seq<string>,
    environment: map<string, string>)

  type Parsed<+T> = Result<T, Error>

  /** A parser returns what it read and what is left. */
  type Parser<T> = string -> Parsed<(T, string)>

  predicate Suffix(r: string, s: string) { |r| <= |s| && r == s[|s| - |r|..] }

  predicate Shorter(r: string, s: string) { |r| < |s| && Suffix(r, s) }

  lemma SuffixTrans(a: string, b: string, c: string)
    requires Suffix(a, b) && Suffix(b, c)
    ensures Suffix(a, c)
  {
  }

  // ----- white space -----

  /** The characters with the Unicode property White_Space. */
  predicate IsSpace(c: char) {
    var n := c as int;
    0x09 <= n <= 0x0D || n == 0x20 || n == 0x85 || n == 0xA0 || n == 0x1680 || 0x2000 <= n <= 0x200A
    || n == 0x2028 || n == 0x2029 || n == 0x202F || n == 0x205F || n == 0x3000
  }

  predicate Blank(s: string) { forall i :: 0 <= i < |s| ==> IsSpace(s[i]) }

  function TrimStart(s: string): (r: string)
    ensures Suffix(r, s) && (r == "" || !IsSpace(r[0]))
  {
    if s != "" && IsSpace(s[0]) then
      var r := TrimStart(s[1..]);
      SuffixTrans(r, s[1..], s);
      r
    else s
  }

  function TrimEnd(s: string): (r: string)
    ensures r <= s && (r == "" || !IsSpace(r[|r| - 1]))
  {
    if s != "" && IsSpace(s[|s| - 1]) then TrimEnd(s[..|s| - 1]) else s
  }

  lemma TrimSpace(c: char, s: string)
    requires IsSpace(c)
    ensures TrimStart([c] + s) == TrimStart(s)
  {
    assert ([c] + s)[1..] == s;
  }

  /** Blanks in front never change what is left. */
  lemma {:induction false} TrimBlank(blank: string, s: string)
    requires Blank(blank)
    ensures TrimStart(blank + s) == TrimStart(s)
  {
    FirstOff(blank, s);
    if blank != "" {
      TrimBlank(blank[1..], s);
      TrimSpace(blank[0], blank[1..] + s);
    }
  }

  lemma FirstOff(a: string, b: string)
    ensures a == "" ==> a + b == b
    ensures a != "" ==> a + b == [a[0]] + (a[1..] + b)
  {
  }

  lemma {:induction false} TrimEndAfter(s: string, t: string)
    requires s != "" && !IsSpace(s[|s| - 1])
    ensures TrimEnd(s + t) == s + TrimEnd(t)
  {
    if t == "" {
      assert s + t == s && s + TrimEnd(t) == s;
    } else {
      assert (s + t)[..|s + t| - 1] == s + t[..|t| - 1];
      TrimEndAfter(s, t[..|t| - 1]);
    }
  }

  // ----- strings -----

  function Unescape(c: char): char {
    match c
    case 'n' => '\n'
    case 't' => '\t'
    case 'r' => '\r'
    case _ => c
  }

  /** The rest of a string literal after its opening quote. */
  function Body(s: string): (r: Parsed<(string, string)>)
    ensures r.Ok? ==> Shorter(r.value.1, s)
  {
    if s == "" then Err(UnterminatedString)
    else if s[0] == '"' then Ok(("", s[1..]))
    else if s[0] == '\\' then
      if |s| == 1 then Err(EndInsideEscape)
      else
        var tail := Body(s[2..]);
        assert tail.Ok? ==> Suffix(tail.value.1, s) by {
          if tail.Ok? { SuffixTrans(tail.value.1, s[2..], s); }
        }
        Push([Unescape(s[1])], tail)
    else
      var tail := Body(s[1..]);
      assert tail.Ok? ==> Suffix(tail.value.1, s) by {
        if tail.Ok? { SuffixTrans(tail.value.1, s[1..], s); }
      }
      Push([s[0]], tail)
  }

  function Push(read: string, r: Parsed<(string, string)>): Parsed<(string, string)> {
    match r
    case Ok((v, rest)) => Ok((read + v, rest))
    case Err(e) => Err(e)
  }

  /** Whatever is accepted leaves a strictly shorter suffix of the input. */
  function String(s: string): (r: Parsed<(string, string)>)
    ensures r.Ok? ==> Shorter(r.value.1, s)
  {
    var t := TrimStart(s);
    if t == "" || t[0] != '"' then Err(ExpectedQuote)
    else
      var r := Body(t[1..]);
      assert r.Ok? ==> Suffix(r.value.1, s) by {
        if r.Ok? {
          SuffixTrans(r.value.1, t[1..], t);
          SuffixTrans(r.value.1, t, s);
        }
      }
      r
  }

  function Comma(s: string): (r: Parsed<string>)
    ensures r.Ok? ==> Shorter(r.value, s)
  {
    var t := TrimStart(s);
    if t == "" || t[0] != ',' then Err(ExpectedComma)
    else
      var r := TrimStart(t[1..]);
      assert Suffix(r, s) by {
        SuffixTrans(r, t[1..], t);
        SuffixTrans(r, t, s);
      }
      Ok(r)
  }

  method ParseString(s: string) returns (r: Parsed<(string, string)>)
    ensures r == String(s)
  {
    var t := TrimStart(s);
    if t == "" || t[0] != '"' { return Err(ExpectedQuote); }
    r := ReadBody(t[1..]);
  }

  method ReadBody(t: string) returns (r: Parsed<(string, string)>)
    ensures r == Body(t)
  {
    var result, i := "", 0;
    PushNothing(Body(t));
    while i < |t|
      invariant 0 <= i <= |t| && Body(t) == Push(result, Body(t[i..]))
    {
      BodyStep(result, t, i);
      if t[i] == '"' {
        return Ok((result, t[i + 1..]));
      } else if t[i] == '\\' {
        if i + 1 == |t| { return Err(EndInsideEscape); }
        result, i := result + [Unescape(t[i + 1])], i + 2;
      } else {
        result, i := result + [t[i]], i + 1;
      }
    }
    r := Err(UnterminatedString);
  }

  lemma BodyStep(read: string, t: string, i: nat)
    requires i < |t|
    ensures t[i] == '"' ==> Push(read, Body(t[i..])) == Ok((read, t[i + 1..]))
    ensures t[i] == '\\' && i + 1 == |t| ==> Push(read, Body(t[i..])) == Err(EndInsideEscape)
    ensures t[i] == '\\' && i + 1 < |t| ==>
              Push(read, Body(t[i..])) == Push(read + [Unescape(t[i + 1])], Body(t[i + 2..]))
    ensures t[i] != '"' && t[i] != '\\' ==> Push(read, Body(t[i..])) == Push(read + [t[i]], Body(t[i + 1..]))
  {
    assert t[i..][1..] == t[i + 1..];
    assert read + "" == read;
    if t[i] == '\\' && i + 1 < |t| {
      assert t[i..][2..] == t[i + 2..];
      PushTwice(read, [Unescape(t[i + 1])], Body(t[i + 2..]));
    }
    PushTwice(read, [t[i]], Body(t[i + 1..]));
  }

  lemma PushNothing(r: Parsed<(string, string)>)
    ensures Push("", r) == r
  {
    if r.Ok? { assert "" + r.value.0 == r.value.0; }
  }

  lemma PushTwice(a: string, b: string, r: Parsed<(string, string)>)
    ensures Push(a, Push(b, r)) == Push(a + b, r)
  {
    if r.Ok? { assert a + (b + r.value.0) == (a + b) + r.value.0; }
  }

  // ----- lists -----

  /** A parser that always reads something. */
  ghost predicate Reads<T(!new)>(item: Parser<T>) {
    forall s :: item(s).Ok? ==> |item(s).value.1| < |s|
  }

  predicate Head(s: string, c: char) { s != "" && s[0] == c }

  /** White space and at most one comma before an item or the end of the list. */
  function Separated(s: string): (r: string)
    ensures |r| <= |s|
  {
    var t := TrimStart(s);
    if Head(t, ',') then TrimStart(t[1..]) else t
  }

  function Items<T(!new)>(item: Parser<T>, s: string): (r: Parsed<(seq<T>, string)>)
    requires Reads(item)
    ensures r.Ok? ==> |r.value.1| < |s|
    decreases |s|
  {
    if Head(TrimStart(s), ']') then Ok(([], TrimStart(s)[1..]))
    else
      var t := Separated(s);
      if Head(t, ']') then Ok(([], t[1..]))
      else
        var (x, r) :- item(t);
        var (xs, rest) :- Items(item, r);
        Ok(([x] + xs, rest))
  }

  function List<T(!new)>(field: Field, item: Parser<T>, s: string): (r: Parsed<(seq<T>, string)>)
    requires Reads(item)
    ensures r.Ok? ==> |r.value.1| < |s|
  {
    var t := TrimStart(s);
    if Head(t, '[') then Items(item, t[1..]) else Err(ExpectedList(field))
  }

  function Closing<T>(field: Field, x: T, s: string): (r: Parsed<(T, string)>)
    ensures r.Ok? ==> |r.value.1| < |s|
  {
    var t := TrimStart(s);
    if Head(t, ')') then Ok((x, t[1..])) else Err(UnclosedEntry(field))
  }

  function Output(s: string): (r: Parsed<(OutputEntry, string)>)
    ensures r.Ok? ==> |r.value.1| < |s|
  {
    if !Head(s, '(') then Err(ExpectedEntry(Outputs))
    else
      var (name, r1) :- String(s[1..]);
      var s1 :- Comma(r1);
      var (path, r2) :- String(s1);
      var s2 :- Comma(r2);
      var (hashAlgo, r3) :- String(s2);
      var s3 :- Comma(r3);
      var (hash, r4) :- String(s3);
      Closing(Outputs, OutputEntry(name, path, hashAlgo, hash), r4)
  }

  function StringListOf(s: string): (r: Parsed<(seq<string>, string)>)
    ensures r.Ok? ==> |r.value.1| < |s|
  {
    List(StringList, String, s)
  }

  function Input(s: string): (r: Parsed<(InputDrv, string)>)
    ensures r.Ok? ==> |r.value.1| < |s|
  {
    if !Head(s, '(') then Err(ExpectedEntry(InputDrvs))
    else
      var (path, r1) :- String(s[1..]);
      var s1 :- Comma(r1);
      var (outputs, r2) :- StringListOf(s1);
      Closing(InputDrvs, InputDrv(path, outputs), r2)
  }

  function Pair(s: string): (r: Parsed<((string, string), string)>)
    ensures r.Ok? ==> |r.value.1| < |s|
  {
    if !Head(s, '(') then Err(ExpectedEntry(Env))
    else
      var (key, r1) :- String(s[1..]);
      var s1 :- Comma(r1);
      var (value, r2) :- String(s1);
      Closing(Env, (key, value), r2)
  }

  /** A later entry for a key replaces an earlier one. */
  function Environment(pairs: seq<(string, string)>): map<string, string> {
    if pairs == [] then map[]
    else Environment(pairs[..|pairs| - 1])[pairs[|pairs| - 1].0 := pairs[|pairs| - 1].1]
  }

  lemma EnvironmentInsert(pairs: seq<(string, string)>, p: (string, string))
    ensures Environment(pairs + [p]) == Environment(pairs)[p.0 := p.1]
  {
    assert (pairs + [p])[..|pairs|] == pairs;
  }

  function Environments(s: string): Parsed<(map<string, string>, string)> {
    var (pairs, rest) :- List(Env, Pair, s);
    Ok((Environment(pairs), rest))
  }

  function Drv(content: string): Parsed<Derivation> {
    var s := TrimEnd(TrimStart(content));
    if !("Derive(" <= s) then Err(NotADerivation) else OutputsOn(s[7..])
  }

  const NO_DERIVATION := Derivation([], [], [], "", "", [], map[])

  // Each field from here on, with a comma after all but the last.

  function OutputsOn(s: string): Parsed<Derivation> {
    var (outputs, r) :- List(Outputs, Output, s);
    var t :- Comma(r);
    InputsOn(NO_DERIVATION.(outputs := outputs), t)
  }

  function InputsOn(d: Derivation, s: string): Parsed<Derivation> {
    var (inputDrvs, r) :- List(InputDrvs, Input, s);
    var t :- Comma(r);
    SourcesOn(d.(inputDrvs := inputDrvs), t)
  }

  function SourcesOn(d: Derivation, s: string): Parsed<Derivation> {
    var (inputSources, r) :- StringListOf(s);
    var t :- Comma(r);
    SystemOn(d.(inputSources := inputSources), t)
  }

  function SystemOn(d: Derivation, s: string): Parsed<Derivation> {
    var (system, r) :- String(s);
    var t :- Comma(r);
    BuilderOn(d.(system := system), t)
  }

  function BuilderOn(d: Derivation, s: string): Parsed<Derivation> {
    var (builder, r) :- String(s);
    var t :- Comma(r);
    ArgsOn(d.(builder := builder), t)
  }

  function ArgsOn(d: Derivation, s: string): Parsed<Derivation> {
    var (args, r) :- StringListOf(s);
    var t :- Comma(r);
    EnvOn(d.(args := args), t)
  }

  function EnvOn(d: Derivation, s: string): Parsed<Derivation> {
    var (environment, _) :- Environments(s);
    Ok(d.(environment := environment))
  }

  // ----- what is left is a suffix -----

  ghost predicate LeavesSuffix<T(!new)>(item: Parser<T>) {
    forall s :: item(s).Ok? ==> Suffix(item(s).value.1, s)
  }

  lemma {:induction false} ItemsLeaveSuffix<T(!new)>(item: Parser<T>, s: string)
    requires Reads(item) && LeavesSuffix(item)
    ensures Items(item, s).Ok? ==> Suffix(Items(item, s).value.1, s)
    decreases |s|
  {
    var t := TrimStart(s);
    if Head(t, ']') {
      SuffixTrans(t[1..], t, s);
    } else {
      SeparatedSuffix(s);
      var u := Separated(s);
      if Head(u, ']') {
        SuffixTrans(u[1..], u, s);
      } else if item(u).Ok? {
        var r := item(u).value.1;
        SuffixTrans(r, u, s);
        ItemsLeaveSuffix(item, r);
        if Items(item, r).Ok? { SuffixTrans(Items(item, r).value.1, r, s); }
      }
    }
  }

  lemma SeparatedSuffix(s: string)
    ensures Suffix(Separated(s), s)
  {
    var t := TrimStart(s);
    if Head(t, ',') {
      SuffixTrans(TrimStart(t[1..]), t[1..], t);
      SuffixTrans(TrimStart(t[1..]), t, s);
    }
  }

  lemma ListLeavesSuffix<T(!new)>(field: Field, item: Parser<T>, s: string)
    requires Reads(item) && LeavesSuffix(item)
    ensures List(field, item, s).Ok? ==> Suffix(List(field, item, s).value.1, s)
  {
    var t := TrimStart(s);
    if Head(t, '[') {
      ItemsLeaveSuffix(item, t[1..]);
      if Items(item, t[1..]).Ok? {
        SuffixTrans(Items(item, t[1..]).value.1, t[1..], t);
        SuffixTrans(Items(item, t[1..]).value.1, t, s);
      }
    }
  }

  lemma ClosingSuffix<T>(field: Field, x: T, r: string, s: string)
    requires Suffix(r, s)
    ensures Closing(field, x, r).Ok? ==> Suffix(Closing(field, x, r).value.1, s)
  {
    var t := TrimStart(r);
    SuffixTrans(t, r, s);
    if Head(t, ')') { SuffixTrans(t[1..], t, s); }
  }

  /** One string and one comma further on. */
  lemma NextSuffix(r: string, s: string)
    requires Suffix(r, s)
    ensures String(r).Ok? ==> Suffix(String(r).value.1, s)
    ensures Comma(r).Ok? ==> Suffix(Comma(r).value, s)
  {
    if String(r).Ok? { SuffixTrans(String(r).value.1, r, s); }
    if Comma(r).Ok? { SuffixTrans(Comma(r).value, r, s); }
  }

  lemma OutputLeavesSuffix(s: string)
    ensures Output(s).Ok? ==> Suffix(Output(s).value.1, s)
  {
    if Output(s).Ok? {
      NextSuffix(s[1..], s);
      var r1 := String(s[1..]).value.1;
      NextSuffix(r1, s);
      var s1 := Comma(r1).value;
      NextSuffix(s1, s);
      var r2 := String(s1).value.1;
      NextSuffix(r2, s);
      var s2 := Comma(r2).value;
      NextSuffix(s2, s);
      var r3 := String(s2).value.1;
      NextSuffix(r3, s);
      var s3 := Comma(r3).value;
      NextSuffix(s3, s);
      ClosingSuffix(Outputs, Output(s).value.0, String(s3).value.1, s);
    }
  }

  lemma PairLeavesSuffix(s: string)
    ensures Pair(s).Ok? ==> Suffix(Pair(s).value.1, s)
  {
    if Pair(s).Ok? {
      NextSuffix(s[1..], s);
      var r1 := String(s[1..]).value.1;
      NextSuffix(r1, s);
      var s1 := Comma(r1).value;
      NextSuffix(s1, s);
      ClosingSuffix(Env, Pair(s).value.0, String(s1).value.1, s);
    }
  }

  lemma InputLeavesSuffix(s: string)
    ensures Input(s).Ok? ==> Suffix(Input(s).value.1, s)
  {
    if Input(s).Ok? {
      NextSuffix(s[1..], s);
      var r1 := String(s[1..]).value.1;
      NextSuffix(r1, s);
      var s1 := Comma(r1).value;
      ListLeavesSuffix(StringList, String, s1);
      var r2 := StringListOf(s1).value.1;
      SuffixTrans(r2, s1, s);
      ClosingSuffix(InputDrvs, Input(s).value.0, r2, s);
    }
  }

  /** Every list parser leaves a strictly shorter suffix of its input. */
  lemma ListsLeaveSuffix(s: string)
    ensures List(Outputs, Output, s).Ok? ==> Shorter(List(Outputs, Output, s).value.1, s)
    ensures List(InputDrvs, Input, s).Ok? ==> Shorter(List(InputDrvs, Input, s).value.1, s)
    ensures StringListOf(s).Ok? ==> Shorter(StringListOf(s).value.1, s)
    ensures Environments(s).Ok? ==> Shorter(Environments(s).value.1, s)
  {
    forall t ensures Output(t).Ok? ==> Suffix(Output(t).value.1, t) { OutputLeavesSuffix(t); }
    forall t ensures Input(t).Ok? ==> Suffix(Input(t).value.1, t) { InputLeavesSuffix(t); }
    forall t ensures Pair(t).Ok? ==> Suffix(Pair(t).value.1, t) { PairLeavesSuffix(t); }
    ListLeavesSuffix(Outputs, Output, s);
    ListLeavesSuffix(InputDrvs, Input, s);
    ListLeavesSuffix(StringList, String, s);
    ListLeavesSuffix(Env, Pair, s);
  }

  // ----- the loops -----

  /** The list read so far, then the rest. */
  ghost function Then<T>(read: seq<T>, r: Parsed<(seq<T>, string)>): Parsed<(seq<T>, string)> {
    match r
    case Ok((xs, rest)) => Ok((read + xs, rest))
    case Err(e) => Err(e)
  }

  lemma ThenNothing<T>(r: Parsed<(seq<T>, string)>)
    ensures Then([], r) == r
  {
    if r.Ok? { assert [] + r.value.0 == r.value.0; }
  }

  /** One turn of a list loop: either the list ends here or an item follows. */
  lemma Turn<T(!new)>(item: Parser<T>, read: seq<T>, s: string)
    requires Reads(item)
    ensures Head(TrimStart(s), ']') ==> Then(read, Items(item, s)) == Ok((read, TrimStart(s)[1..]))
    ensures !Head(TrimStart(s), ']') && Head(Separated(s), ']') ==>
              Then(read, Items(item, s)) == Ok((read, Separated(s)[1..]))
    ensures !Head(TrimStart(s), ']') && !Head(Separated(s), ']') ==>
              match item(Separated(s))
              case Err(e) => Then(read, Items(item, s)) == Err(e)
              case Ok((x, r)) => Then(read, Items(item, s)) == Then(read + [x], Items(item, r))
  {
    assert read + [] == read;
    if !Head(TrimStart(s), ']') && !Head(Separated(s), ']') {
      var r := item(Separated(s));
      if r.Ok? {
        var tail := Items(item, r.value.1);
        if tail.Ok? { assert read + ([r.value.0] + tail.value.0) == (read + [r.value.0]) + tail.value.0; }
      }
    }
  }

  method ParseStringList(input: string) returns (r: Parsed<(seq<string>, string)>)
    ensures r == StringListOf(input)
  {
    var s := TrimStart(input);
    if !Head(s, '[') { return Err(ExpectedList(StringList)); }
    s := s[1..];
    var items := [];
    ThenNothing(Items(String, s));
    while true
      invariant StringListOf(input) == Then(items, Items(String, s))
      decreases |s|
    {
      Turn(String, items, s);
      if Head(TrimStart(s), ']') { return Ok((items, TrimStart(s)[1..])); }
      s := Separated(s);
      if Head(s, ']') { return Ok((items, s[1..])); }
      var read := ParseString(s);
      if read.Err? { return Err(read.error); }
      items, s := items + [read.value.0], read.value.1;
    }
  }

  method ParseOutputs(input: string) returns (r: Parsed<(seq<OutputEntry>, string)>)
    ensures r == List(Outputs, Output, input)
  {
    var s := TrimStart(input);
    if !Head(s, '[') { return Err(ExpectedList(Outputs)); }
    s := s[1..];
    var outputs := [];
    ThenNothing(Items(Output, s));
    while true
      invariant List(Outputs, Output, input) == Then(outputs, Items(Output, s))
      decreases |s|
    {
      Turn(Output, outputs, s);
      if Head(TrimStart(s), ']') { return Ok((outputs, TrimStart(s)[1..])); }
      s := Separated(s);
      if Head(s, ']') { return Ok((outputs, s[1..])); }
      var read := ParseOutput(s);
      if read.Err? { return Err(read.error); }
      outputs, s := outputs + [read.value.0], read.value.1;
    }
  }

  method ParseOutput(input: string) returns (r: Parsed<(OutputEntry, string)>)
    ensures r == Output(input)
  {
    if !Head(input, '(') { return Err(ExpectedEntry(Outputs)); }
    var name := ParseString(input[1..]);
    if name.Err? { return Err(name.error); }
    var s := Comma(name.value.1);
    if s.Err? { return Err(s.error); }
    var path := ParseString(s.value);
    if path.Err? { return Err(path.error); }
    s := Comma(path.value.1);
    if s.Err? { return Err(s.error); }
    var hashAlgo := ParseString(s.value);
    if hashAlgo.Err? { return Err(hashAlgo.error); }
    s := Comma(hashAlgo.value.1);
    if s.Err? { return Err(s.error); }
    var hash := ParseString(s.value);
    if hash.Err? { return Err(hash.error); }
    r := Closing(Outputs, OutputEntry(name.value.0, path.value.0, hashAlgo.value.0, hash.value.0), hash.value.1);
  }

  method ParseInputDrvs(input: string) returns (r: Parsed<(seq<InputDrv>, string)>)
    ensures r == List(InputDrvs, Input, input)
  {
    var s := TrimStart(input);
    if !Head(s, '[') { return Err(ExpectedList(InputDrvs)); }
    s := s[1..];
    var drvs := [];
    ThenNothing(Items(Input, s));
    while true
      invariant List(InputDrvs, Input, input) == Then(drvs, Items(Input, s))
      decreases |s|
    {
      Turn(Input, drvs, s);
      if Head(TrimStart(s), ']') { return Ok((drvs, TrimStart(s)[1..])); }
      s := Separated(s);
      if Head(s, ']') { return Ok((drvs, s[1..])); }
      var read := ParseInput(s);
      if read.Err? { return Err(read.error); }
      drvs, s := drvs + [read.value.0], read.value.1;
    }
  }

  method ParseInput(input: string) returns (r: Parsed<(InputDrv, string)>)
    ensures r == Input(input)
  {
    if !Head(input, '(') { return Err(ExpectedEntry(InputDrvs)); }
    var path := ParseString(input[1..]);
    if path.Err? { return Err(path.error); }
    var s := Comma(path.value.1);
    if s.Err? { return Err(s.error); }
    var outputs := ParseStringList(s.value);
    if outputs.Err? { return Err(outputs.error); }
    r := Closing(InputDrvs, InputDrv(path.value.0, outputs.value.0), outputs.value.1);
  }

  method ParseEnv(input: string) returns (r: Parsed<(map<string, string>, string)>)
    ensures r == Environments(input)
  {
    var s := TrimStart(input);
    if !Head(s, '[') { return Err(ExpectedList(Env)); }
    s := s[1..];
    var env := map[];
    ghost var pairs := [];
    ThenNothing(Items(Pair, s));
    while true
      invariant List(Env, Pair, input) == Then(pairs, Items(Pair, s)) && env == Environment(pairs)
      decreases |s|
    {
      Turn(Pair, pairs, s);
      if Head(TrimStart(s), ']') { return Ok((env, TrimStart(s)[1..])); }
      s := Separated(s);
      if Head(s, ']') { return Ok((env, s[1..])); }
      var read := ParsePair(s);
      if read.Err? { return Err(read.error); }
      EnvironmentInsert(pairs, read.value.0);
      env, pairs, s := env[read.value.0.0 := read.value.0.1], pairs + [read.value.0], read.value.1;
    }
  }

  method ParsePair(input: string) returns (r: Parsed<((string, string), string)>)
    ensures r == Pair(input)
  {
    if !Head(input, '(') { return Err(ExpectedEntry(Env)); }
    var key := ParseString(input[1..]);
    if key.Err? { return Err(key.error); }
    var s := Comma(key.value.1);
    if s.Err? { return Err(s.error); }
    var value := ParseString(s.value);
    if value.Err? { return Err(value.error); }
    r := Closing(Env, (key.value.0, value.value.0), value.value.1);
  }

  method ParseDrv(content: string) returns (r: Parsed<Derivation>)
    ensures r == Drv(content)
  {
    var s := TrimEnd(TrimStart(content));
    if !("Derive(" <= s) { return Err(NotADerivation); }
    var outputs := ParseOutputs(s[7..]);
    if outputs.Err? { return Err(outputs.error); }
    var t := Comma(outputs.value.1);
    if t.Err? { return Err(t.error); }
    var inputDrvs := ParseInputDrvs(t.value);
    if inputDrvs.Err? { return Err(inputDrvs.error); }
    t := Comma(inputDrvs.value.1);
    if t.Err? { return Err(t.error); }
    var sources := ParseStringList(t.value);
    if sources.Err? { return Err(sources.error); }
    t := Comma(sources.value.1);
    if t.Err? { return Err(t.error); }
    var system := ParseString(t.value);
    if system.Err? { return Err(system.error); }
    t := Comma(system.value.1);
    if t.Err? { return Err(t.error); }
    var builder := ParseString(t.value);
    if builder.Err? { return Err(builder.error); }
    t := Comma(builder.value.1);
    if t.Err? { return Err(t.error); }
    var args := ParseStringList(t.value);
    if args.Err? { return Err(args.error); }
    t := Comma(args.value.1);
    if t.Err? { return Err(t.error); }
    var env := ParseEnv(t.value);
    if env.Err? { return Err(env.error); }
    r := Ok(Derivation(outputs.value.0, inputDrvs.value.0, sources.value.0, system.value.0, builder.value.0,
                       args.value.0, env.value.0));
  }
}
