/** Discovery and shard planning over lists of patterns, and the theorem that running
    the shards separately loses nothing. */
module Discovery {
  import opened Walks
  import opened Ordered
  import opened PatternText
  import opened Wrappers
  import opened WildcardWalk
  import opened WildcardMatch

  // ----- the traversal as it runs: one pass pushing into its sinks -----

  /** Push everything one traversal matches, and the diagnostics met on the way. */
  method TraverseInto<N>(t: Tree<N>, sink: Sink, node: N, path: Segs, segs: Segs, start: Emit) returns (e: Emit)
    ensures forall p :: p in e.out <==> p in start.out || Matched(t, sink, node, path, segs, p)
    ensures e == start.Then(Traverse(t, sink, node, path, segs))
    decreases |segs|
  {
    if segs == [] {
      if sink.Shards? {
        e := Emit(start.out + [path], start.diags);
      } else {
        var d := t.isDerivation(node);
        e := Emit(start.out, start.diags + Noted(d, path));
        if Value(d, false) { e := Emit(e.out + [path], e.diags); }
      }
    } else if segs[0] == "*" || segs[0] == "#" {
      var names := t.childNames(node);
      e := Emit(start.out, start.diags + Noted(names, path));
      ghost var base := e;
      var todo := Value(names, []);
      ThenNothing(e);
      for i := 0 to |todo|
        invariant e.Then(Children(t, sink, node, path, segs, todo[i..]))
                  == base.Then(Children(t, sink, node, path, segs, todo))
      {
        var p := path + [todo[i]];
        var c := t.child(node, todo[i]);
        ghost var before := e;
        assert todo[i..][1..] == todo[i + 1..];
        e := Emit(e.out, e.diags + Noted(c, p));
        if Value(c, None).Some? {
          e := ChildInto(t, sink, Value(c, None).value, p, segs, e);
        }
        ChildStep(t, sink, c, p, segs, before, e, Children(t, sink, node, path, segs, todo[i + 1..]));
      }
      assert todo[|todo|..] == [];
      ThenNothing(e);
      AfterIsPrefix(start, Children(t, sink, node, path, segs, todo), Noted(names, path));
    } else {
      var p := path + [segs[0]];
      var c := t.child(node, segs[0]);
      e := Emit(start.out, start.diags + Noted(c, p));
      if Value(c, None).Some? {
        e := TraverseInto(t, sink, Value(c, None).value, p, segs[1..], e);
        AfterIsPrefix(start, Traverse(t, sink, Value(c, None).value, p, segs[1..]), Noted(c, p));
      }
    }
    TraverseMatches(t, sink, node, path, segs, start, e);
  }

  /** What a sink gets below `path`: the paths the pattern finds, or the shards it splits into. */
  ghost predicate Matched<N>(t: Tree<N>, sink: Sink, node: N, path: Segs, segs: Segs, p: Segs) {
    path <= p && if sink.Derivations? then Found(t, node, segs, p[|path|..]) else ShardOf(t, node, segs, p[|path|..])
  }

  lemma TraverseMatches<N>(t: Tree<N>, sink: Sink, node: N, path: Segs, segs: Segs, start: Emit, e: Emit)
    requires e == start.Then(Traverse(t, sink, node, path, segs))
    ensures forall p :: p in e.out <==> p in start.out || Matched(t, sink, node, path, segs, p)
  {
    forall p ensures p in Traverse(t, sink, node, path, segs).out <==> Matched(t, sink, node, path, segs, p) {
      if sink.Derivations? { TraverseFinds(t, node, path, segs, p); } else { TraverseShards(t, node, path, segs, p); }
    }
  }

  /** The body of the loop over child names, for a child that exists. */
  method ChildInto<N>(t: Tree<N>, sink: Sink, child: N, p: Segs, segs: Segs, start: Emit) returns (e: Emit)
    requires segs != [] && Wild(segs[0])
    ensures e == start.Then(if segs[0] == "*" then StarChild(t, sink, child, p, segs[1..])
                            else HashChild(t, sink, child, p, segs[1..]))
    decreases |segs|, 0
  {
    var rest := segs[1..];
    e := start;
    if rest == [] {
      var d := t.isDerivation(child);
      e := Emit(e.out, e.diags + Noted(d, p));
      if Value(d, false) {
        e := Emit(e.out + [p], e.diags);
      } else if segs[0] == "*" {
        var o := t.isOpaque(child);
        e := Emit(e.out, e.diags + Noted(o, p));
        if !Value(o, false) {
          if sink.Shards? {
            e := Emit(e.out + [p + ["#"]], e.diags);
          } else {
            e := RecoverInto(t, child, p, e);
            AfterIsPrefix(start, Recover(t, child, p), Noted(d, p) + Noted(o, p));
            assert start.diags + (Noted(d, p) + Noted(o, p)) == start.diags + Noted(d, p) + Noted(o, p);
          }
        }
        assert start.diags + (Noted(d, p) + Noted(o, p)) == start.diags + Noted(d, p) + Noted(o, p);
      }
    } else {
      if segs[0] == "*" {
        var o := t.isOpaque(child);
        e := Emit(e.out, e.diags + Noted(o, p));
        if Value(o, false) { return; }
      }
      ghost var mid := e;
      if sink.Shards? {
        e := Emit(e.out + [p + rest], e.diags);
      } else {
        e := TraverseInto(t, sink, child, p, rest, e);
      }
      assert e == mid.Then(Descend(t, sink, child, p, rest));
      AfterIsPrefix(start, Descend(t, sink, child, p, rest), Noted(t.isOpaque(child), p));
    }
  }

  method RecoverInto<N>(t: Tree<N>, child: N, p: Segs, start: Emit) returns (e: Emit)
    ensures e == start.Then(Recover(t, child, p))
  {
    var names := t.childNames(child);
    e := Emit(start.out, start.diags + Noted(names, p));
    ghost var base := e;
    var todo := Value(names, []);
    for i := 0 to |todo|
      invariant e.Then(Grandchildren(t, child, p, todo[i..])) == base.Then(Grandchildren(t, child, p, todo))
    {
      var q := p + [todo[i]];
      var c := t.child(child, todo[i]);
      ghost var before := e;
      assert todo[i..][1..] == todo[i + 1..];
      e := Emit(e.out, e.diags + Noted(c, q));
      if Value(c, None).Some? {
        var d := t.isDerivation(Value(c, None).value);
        e := Emit(e.out, e.diags + Noted(d, q));
        if Value(d, false) { e := Emit(e.out + [q], e.diags); }
      }
      GrandchildStep(t, c, q, before, e, Grandchildren(t, child, p, todo[i + 1..]));
    }
    assert todo[|todo|..] == [];
    ThenNothing(e);
    AfterIsPrefix(start, Grandchildren(t, child, p, todo), Noted(names, p));
  }

  lemma ThenNothing(e: Emit)
    ensures e.Then(NOTHING) == e
  {
    assert e.out + [] == e.out && e.diags + [] == e.diags;
  }

  lemma AfterIsPrefix(start: Emit, e: Emit, diags: seq<string>)
    ensures Emit(start.out, start.diags + diags).Then(e) == start.Then(e.After(diags))
  {
    assert start.diags + diags + e.diags == start.diags + (diags + e.diags);
  }

  lemma ChildStep<N>(
      t: Tree<N>, sink: Sink, c: Fallible<Option<N>>, p: Segs, segs: Segs, before: Emit, e: Emit, rest: Emit)
    requires segs != [] && Wild(segs[0])
    requires e == Emit(before.out, before.diags + Noted(c, p)).Then(OneChild(t, sink, c, p, segs))
             || (Value(c, None).None? && e == Emit(before.out, before.diags + Noted(c, p)))
    ensures e.Then(rest) == before.Then(OneChild(t, sink, c, p, segs).After(Noted(c, p)).Then(rest))
  {
    var here := OneChild(t, sink, c, p, segs);
    ThenNothing(Emit(before.out, before.diags + Noted(c, p)));
    AfterIsPrefix(before, here, Noted(c, p));
    ThenAssociates(before, here.After(Noted(c, p)), rest);
  }

  lemma GrandchildStep<N>(t: Tree<N>, c: Fallible<Option<N>>, q: Segs, before: Emit, e: Emit, rest: Emit)
    requires Value(c, None).None? ==> e == Emit(before.out, before.diags + Noted(c, q))
    requires Value(c, None).Some? ==>
               var d := t.isDerivation(Value(c, None).value);
               e == Emit(before.out + (if Value(d, false) then [q] else []),
                         before.diags + Noted(c, q) + Noted(d, q))
    ensures var here := if Value(c, None).None? then NOTHING
                        else var d := t.isDerivation(Value(c, None).value);
                             Emit(if Value(d, false) then [q] else [], Noted(d, q));
            e.Then(rest) == before.Then(here.After(Noted(c, q)).Then(rest))
  {
    var here := if Value(c, None).None? then NOTHING
                else var d := t.isDerivation(Value(c, None).value);
                     Emit(if Value(d, false) then [q] else [], Noted(d, q));
    ThenNothing(Emit(before.out, before.diags + Noted(c, q)));
    AfterIsPrefix(before, here, Noted(c, q));
    ThenAssociates(before, here.After(Noted(c, q)), rest);
  }

  // ----- lists of patterns -----

  function TraverseAll<N>(t: Tree<N>, sink: Sink, root: N, includes: seq<Segs>): Emit
    decreases |includes|
  {
    if includes == [] then NOTHING
    else TraverseAll(t, sink, root, includes[..|includes| - 1]).Then(
           Traverse(t, sink, root, [], Collapse(includes[|includes| - 1])))
  }

  method TraverseEach<N>(t: Tree<N>, sink: Sink, root: N, includes: seq<Segs>) returns (e: Emit)
    ensures e == TraverseAll(t, sink, root, includes)
  {
    e := NOTHING;
    for i := 0 to |includes|
      invariant e == TraverseAll(t, sink, root, includes[..i])
    {
      var segs := CollapseStars(includes[i]);
      assert includes[..i + 1][..i] == includes[..i];
      e := TraverseInto(t, sink, root, [], segs, e);
    }
    assert includes[..|includes|] == includes;
  }

  /** `split('.')` of a joined path. */
  function SplitDots(p: string, cur: string): Segs
    decreases |p|
  {
    if p == "" then [cur]
    else if p[0] == '.' then [cur] + SplitDots(p[1..], "")
    else SplitDots(p[1..], cur + [p[0]])
  }

  /** The segments spell the name: joined by dots they are it, and none holds a dot itself. */
  predicate Spells(segs: Segs, name: string) {
    segs != [] && (forall s | s in segs :: '.' !in s) && Join(segs) == name
  }

  lemma {:induction false} SplitDotsSpells(p: string, cur: string)
    requires '.' !in cur
    ensures Spells(SplitDots(p, cur), cur + p)
    decreases |p|
  {
    if p == "" {
      assert cur + p == cur;
    } else if p[0] == '.' {
      SplitDotsSpells(p[1..], "");
      var rest := SplitDots(p[1..], "");
      assert ([cur] + rest)[1..] == rest && "" + p[1..] == p[1..];
      assert cur + p == cur + "." + p[1..];
    } else {
      SplitDotsSpells(p[1..], cur + [p[0]]);
      assert cur + [p[0]] + p[1..] == cur + p;
    }
  }

  /** A name is spelled in one way. */
  lemma {:induction false} SpellsOnce(segs: Segs, p: string, cur: string)
    requires '.' !in cur && Spells(segs, cur + p) && |cur| <= |segs[0]|
    ensures SplitDots(p, cur) == segs
    decreases |p|
  {
    var name, s := cur + p, segs[0];
    assert |segs| > 1 ==> name == s + "." + Join(segs[1..]);
    if p == "" {
      assert name == cur;
      assert segs == [s];
    } else if p[0] == '.' {
      assert name[|cur|] == '.';
      assert s == name[..|s|] && cur == name[..|cur|];
      assert segs[0] in segs && '.' !in s;
      forall k | 0 <= k < |s| ensures name[k] == s[k] && s[k] != '.' { assert s[k] in s; }
      assert s == cur;
      assert p == "." + Join(segs[1..]) by { assert name[|cur|..] == p; }
      assert p[1..] == "" + p[1..] && p[1..] == Join(segs[1..]);
      SpellsOnce(segs[1..], p[1..], "");
      assert segs == [s] + segs[1..];
    } else {
      assert name == cur + [p[0]] + p[1..] && name[|cur|] == p[0];
      SpellsOnce(segs, p[1..], cur + [p[0]]);
    }
  }

  lemma SplitDotsIff(name: string, segs: Segs)
    ensures SplitDots(name, "") == segs <==> Spells(segs, name)
  {
    assert "" + name == name;
    SplitDotsSpells(name, "");
    if Spells(segs, name) { SpellsOnce(segs, name, ""); }
  }

  /** Exclusions match a joined path exactly, segment by segment. */
  predicate Excluded(p: string, excludes: seq<Segs>) { SplitDots(p, "") in excludes }

  /** The joined paths that survive the exclusions. */
  function Kept(paths: seq<Segs>, excludes: seq<Segs>): seq<string>
    decreases |paths|
  {
    if paths == [] then []
    else
      var init := Kept(paths[..|paths| - 1], excludes);
      var p := Join(paths[|paths| - 1]);
      if Excluded(p, excludes) then init else init + [p]
  }

  function Discover<N>(t: Tree<N>, root: N, includes: seq<Segs>, excludes: seq<Segs>): (seq<string>, seq<string>) {
    var e := TraverseAll(t, Derivations, root, includes);
    (SortDedup(Kept(e.out, excludes)), SortDedup(e.diags))
  }

  ghost predicate FoundBy<N>(t: Tree<N>, root: N, includes: seq<Segs>, p: Segs) {
    exists i :: 0 <= i < |includes| && Found(t, root, Collapse(includes[i]), p)
  }

  /** Some include finds a path by this name, and no exclude spells it. */
  ghost predicate Discovered<N>(t: Tree<N>, root: N, includes: seq<Segs>, excludes: seq<Segs>, name: string) {
    && (exists p :: FoundBy(t, root, includes, p) && Join(p) == name)
    && forall i :: 0 <= i < |excludes| ==> !Spells(excludes[i], name)
  }

  lemma {:induction false} TraverseAllFinds<N>(t: Tree<N>, root: N, includes: seq<Segs>, p: Segs)
    ensures p in TraverseAll(t, Derivations, root, includes).out <==> FoundBy(t, root, includes, p)
    decreases |includes|
  {
    if includes != [] {
      var init, last := includes[..|includes| - 1], includes[|includes| - 1];
      TraverseAllFinds(t, root, init, p);
      TraverseFinds(t, root, [], Collapse(last), p);
      assert p[0..] == p;
      assert forall i :: 0 <= i < |init| ==> includes[i] == init[i];
      assert FoundBy(t, root, includes, p) <==> FoundBy(t, root, init, p) || Found(t, root, Collapse(last), p);
    }
  }

  lemma {:induction false} KeptIff(paths: seq<Segs>, excludes: seq<Segs>, name: string)
    ensures name in Kept(paths, excludes)
            <==> (exists p :: p in paths && Join(p) == name)
                 && forall i :: 0 <= i < |excludes| ==> !Spells(excludes[i], name)
    decreases |paths|
  {
    ExcludedIff(name, excludes);
    if paths != [] {
      var init, last := paths[..|paths| - 1], paths[|paths| - 1];
      KeptIff(init, excludes, name);
      assert paths == init + [last];
      assert forall p :: p in paths <==> p in init || p == last;
    }
  }

  lemma ExcludedIff(name: string, excludes: seq<Segs>)
    ensures Excluded(name, excludes) <==> exists i :: 0 <= i < |excludes| && Spells(excludes[i], name)
  {
    forall i | 0 <= i < |excludes| ensures SplitDots(name, "") == excludes[i] <==> Spells(excludes[i], name) {
      SplitDotsIff(name, excludes[i]);
    }
  }

  lemma DiscoverMeans<N>(t: Tree<N>, root: N, includes: seq<Segs>, excludes: seq<Segs>, name: string)
    ensures name in Discover(t, root, includes, excludes).0 <==> Discovered(t, root, includes, excludes, name)
  {
    var e := TraverseAll(t, Derivations, root, includes);
    SortDedupFacts(Kept(e.out, excludes));
    assert name in SortDedup(Kept(e.out, excludes)) <==> name in Elements(Kept(e.out, excludes));
    KeptIff(e.out, excludes, name);
    forall p ensures p in e.out <==> FoundBy(t, root, includes, p) { TraverseAllFinds(t, root, includes, p); }
  }

  /** The failures any include meets. */
  ghost predicate DiagnosedBy<N>(t: Tree<N>, root: N, includes: seq<Segs>, d: string) {
    exists i :: 0 <= i < |includes| && Diagnosed(t, root, Collapse(includes[i]), d)
  }

  lemma {:induction false} TraverseAllReports<N>(t: Tree<N>, root: N, includes: seq<Segs>, d: string)
    ensures d in TraverseAll(t, Derivations, root, includes).diags <==> DiagnosedBy(t, root, includes, d)
    decreases |includes|
  {
    if includes != [] {
      var init, last := includes[..|includes| - 1], includes[|includes| - 1];
      TraverseAllReports(t, root, init, d);
      TraverseReports(t, root, Collapse(last), d);
      assert forall i :: 0 <= i < |init| ==> includes[i] == init[i];
      assert DiagnosedBy(t, root, includes, d)
             <==> DiagnosedBy(t, root, init, d) || Diagnosed(t, root, Collapse(last), d);
    }
  }

  lemma DiscoverReports<N>(t: Tree<N>, root: N, includes: seq<Segs>, excludes: seq<Segs>, d: string)
    ensures d in Discover(t, root, includes, excludes).1 <==> DiagnosedBy(t, root, includes, d)
  {
    var e := TraverseAll(t, Derivations, root, includes);
    SortDedupFacts(e.diags);
    assert d in SortDedup(e.diags) <==> d in Elements(e.diags);
    TraverseAllReports(t, root, includes, d);
  }

  method RunDiscover<N>(t: Tree<N>, root: N, includes: seq<Segs>, excludes: seq<Segs>)
    returns (attrs: seq<string>, errors: seq<string>)
    ensures forall name :: name in attrs <==> Discovered(t, root, includes, excludes, name)
    ensures forall d :: d in errors <==> DiagnosedBy(t, root, includes, d)
    ensures (attrs, errors) == Discover(t, root, includes, excludes)
    ensures Ascending(attrs) && Ascending(errors)
  {
    var e := TraverseEach(t, Derivations, root, includes);
    attrs := [];
    for i := 0 to |e.out|
      invariant attrs == Kept(e.out[..i], excludes)
    {
      assert e.out[..i + 1][..i] == e.out[..i];
      var p := Join(e.out[i]);
      if !Excluded(p, excludes) { attrs := attrs + [p]; }
    }
    assert e.out[..|e.out|] == e.out;
    SortDedupFacts(attrs);
    SortDedupFacts(e.diags);
    attrs, errors := SortDedup(attrs), SortDedup(e.diags);
    forall name ensures name in attrs <==> Discovered(t, root, includes, excludes, name) {
      DiscoverMeans(t, root, includes, excludes, name);
    }
    forall d ensures d in errors <==> DiagnosedBy(t, root, includes, d) {
      DiscoverReports(t, root, includes, excludes, d);
    }
  }

  function Plan<N>(t: Tree<N>, root: N, includes: seq<Segs>): (seq<Segs>, seq<string>) {
    var e := TraverseAll(t, Shards, root, includes);
    (e.out, SortDedup(e.diags))
  }

  ghost predicate ShardBy<N>(t: Tree<N>, root: N, includes: seq<Segs>, shard: Segs) {
    exists i :: 0 <= i < |includes| && ShardOf(t, root, Collapse(includes[i]), shard)
  }

  lemma {:induction false} TraverseAllShards<N>(t: Tree<N>, root: N, includes: seq<Segs>, shard: Segs)
    ensures shard in TraverseAll(t, Shards, root, includes).out <==> ShardBy(t, root, includes, shard)
    decreases |includes|
  {
    if includes != [] {
      var init, last := includes[..|includes| - 1], includes[|includes| - 1];
      TraverseAllShards(t, root, init, shard);
      TraverseShards(t, root, [], Collapse(last), shard);
      assert shard[0..] == shard;
      assert forall i :: 0 <= i < |init| ==> includes[i] == init[i];
      assert ShardBy(t, root, includes, shard)
             <==> ShardBy(t, root, init, shard) || ShardOf(t, root, Collapse(last), shard);
    }
  }

  method PlanShards<N>(t: Tree<N>, root: N, includes: seq<Segs>) returns (shards: seq<Segs>, errors: seq<string>)
    ensures forall shard :: shard in shards <==> ShardBy(t, root, includes, shard)
    ensures (shards, errors) == Plan(t, root, includes)
  {
    var e := TraverseEach(t, Shards, root, includes);
    forall shard ensures shard in e.out <==> ShardBy(t, root, includes, shard) {
      TraverseAllShards(t, root, includes, shard);
    }
    shards, errors := e.out, SortDedup(e.diags);
  }

  /** The includes, and the excludes, among a list of pattern strings. */
  function Parsed(wildcards: seq<string>, exclude: bool): seq<Segs>
    decreases |wildcards|
  {
    if wildcards == [] then []
    else
      var init := Parsed(wildcards[..|wildcards| - 1], exclude);
      var p := Parse(wildcards[|wildcards| - 1]);
      if p.0 == exclude then init + [p.1] else init
  }

  function ExcludePatterns(wildcards: seq<string>): seq<string>
    decreases |wildcards|
  {
    if wildcards == [] then []
    else
      var init := ExcludePatterns(wildcards[..|wildcards| - 1]);
      var last := wildcards[|wildcards| - 1];
      if Parse(last).0 then init + [last] else init
  }

  function DiscoverPatterns<N>(t: Tree<N>, root: N, wildcards: seq<string>): (seq<string>, seq<string>) {
    Discover(t, root, Parsed(wildcards, false), Parsed(wildcards, true))
  }

  /** Some pattern finds a path by this name, and no exclusion spells it. */
  ghost predicate PatternsDiscover<N>(t: Tree<N>, root: N, wildcards: seq<string>, name: string) {
    && (exists k, p :: 0 <= k < |wildcards| && !Parse(wildcards[k]).0
          && Found(t, root, Collapse(Parse(wildcards[k]).1), p) && Join(p) == name)
    && forall k :: 0 <= k < |wildcards| && Parse(wildcards[k]).0 ==> !Spells(Parse(wildcards[k]).1, name)
  }

  lemma {:induction false} ParsedIff(wildcards: seq<string>, exclude: bool, segs: Segs)
    ensures segs in Parsed(wildcards, exclude)
            <==> exists k :: 0 <= k < |wildcards| && Parse(wildcards[k]) == (exclude, segs)
    decreases |wildcards|
  {
    if wildcards != [] {
      var init := wildcards[..|wildcards| - 1];
      ParsedIff(init, exclude, segs);
      assert forall k :: 0 <= k < |init| ==> wildcards[k] == init[k];
    }
  }

  lemma PatternsMean<N>(t: Tree<N>, root: N, wildcards: seq<string>, name: string)
    ensures Discovered(t, root, Parsed(wildcards, false), Parsed(wildcards, true), name)
            <==> PatternsDiscover(t, root, wildcards, name)
  {
    var includes, excludes := Parsed(wildcards, false), Parsed(wildcards, true);
    forall segs
      ensures segs in includes <==> exists k :: 0 <= k < |wildcards| && Parse(wildcards[k]) == (false, segs)
      ensures segs in excludes <==> exists k :: 0 <= k < |wildcards| && Parse(wildcards[k]) == (true, segs)
    {
      ParsedIff(wildcards, false, segs);
      ParsedIff(wildcards, true, segs);
    }
    if p :| FoundBy(t, root, includes, p) && Join(p) == name {
      var i :| 0 <= i < |includes| && Found(t, root, Collapse(includes[i]), p);
      assert includes[i] in includes;
    }
    if k, p :| 0 <= k < |wildcards| && !Parse(wildcards[k]).0
               && Found(t, root, Collapse(Parse(wildcards[k]).1), p) && Join(p) == name
    {
      assert Parse(wildcards[k]).1 in includes;
      assert FoundBy(t, root, includes, p);
    }
    ExcludesSpell(wildcards, excludes, name);
  }

  lemma ExcludesSpell(wildcards: seq<string>, excludes: seq<Segs>, name: string)
    requires forall segs :: segs in excludes <==>
               exists k :: 0 <= k < |wildcards| && Parse(wildcards[k]) == (true, segs)
    ensures (forall i :: 0 <= i < |excludes| ==> !Spells(excludes[i], name))
            <==> forall k :: 0 <= k < |wildcards| && Parse(wildcards[k]).0 ==> !Spells(Parse(wildcards[k]).1, name)
  {
    if i :| 0 <= i < |excludes| && Spells(excludes[i], name) {
      assert excludes[i] in excludes;
      var k :| 0 <= k < |wildcards| && Parse(wildcards[k]) == (true, excludes[i]);
    }
    if k :| 0 <= k < |wildcards| && Parse(wildcards[k]).0 && Spells(Parse(wildcards[k]).1, name) {
      assert Parse(wildcards[k]) == (true, Parse(wildcards[k]).1);
      assert Parse(wildcards[k]).1 in excludes;
    }
  }

  method RunDiscoverPatterns<N>(t: Tree<N>, root: N, wildcards: seq<string>)
    returns (attrs: seq<string>, errors: seq<string>)
    ensures forall name :: name in attrs <==> PatternsDiscover(t, root, wildcards, name)
    ensures Ascending(attrs) && Ascending(errors)
    ensures (attrs, errors) == DiscoverPatterns(t, root, wildcards)
  {
    var includes: seq<Segs>, excludes: seq<Segs> := [], [];
    for i := 0 to |wildcards|
      invariant includes == Parsed(wildcards[..i], false) && excludes == Parsed(wildcards[..i], true)
    {
      assert wildcards[..i + 1][..i] == wildcards[..i];
      var exclude, segs := ParsePattern(wildcards[i]);
      if exclude {
        excludes := excludes + [segs];
      } else {
        includes := includes + [segs];
      }
    }
    assert wildcards[..|wildcards|] == wildcards;
    attrs, errors := RunDiscover(t, root, includes, excludes);
    forall name ensures name in attrs <==> PatternsDiscover(t, root, wildcards, name) {
      PatternsMean(t, root, wildcards, name);
    }
  }

  /** The shards a plan request answers with, as printed for the wire. */
  function PlanPatterns<N>(t: Tree<N>, root: N, wildcards: seq<string>): (seq<string>, seq<string>) {
    var plan := Plan(t, root, Parsed(wildcards, false));
    (PrintAll(plan.0), plan.1)
  }

  function PrintAll(shards: seq<Segs>): seq<string> { seq(|shards|, i requires 0 <= i < |shards| => Print(shards[i])) }

  // ----- every shard survives the wire -----

  ghost predicate WireSafe(shard: Segs) {
    shard != [] && NoQuotes(shard) && !Banged(shard[0]) && Collapsed(shard)
  }

  /** Attribute names hold no quotes and are not wildcards, and no name at the root would
      be printed as an exclusion. */
  ghost predicate SafeTree<N(!new)>(t: Tree<N>, root: N) {
    && PlainNames(t)
    && (forall n, s :: t.childNames(n).Ok? && s in t.childNames(n).value ==> '"' !in s)
    && (t.childNames(root).Ok? ==> forall s :: s in t.childNames(root).value ==> !Banged(s))
  }

  /** A literal first segment would not be printed as an exclusion. */
  predicate SafeInclude(segs: Segs) { segs != [] && (Wild(segs[0]) || !Banged(segs[0])) }

  /** A path of plain names walked so far. */
  ghost predicate SafePath(path: Segs) {
    NoQuotes(path) && (forall s :: s in path ==> s != "*") && (path != [] ==> !Banged(path[0]))
  }

  lemma ShardSafe(path: Segs, rest: Segs)
    requires SafePath(path) && path != [] && NoQuotes(rest) && Collapsed(rest)
    ensures WireSafe(path + rest)
  {
    var s := path + rest;
    forall i | 0 <= i < |s| - 1 ensures !(s[i] == "*" && s[i + 1] == "*") {
      if i < |path| {
        assert s[i] == path[i] && path[i] in path;
      } else {
        assert s[i] == rest[i - |path|] && s[i + 1] == rest[i - |path| + 1];
      }
    }
  }

  lemma {:induction false} ShardsSafe<N(!new)>(t: Tree<N>, root: N, node: N, path: Segs, segs: Segs, shard: Segs)
    requires SafeTree(t, root) && SafePath(path) && NoQuotes(segs) && Collapsed(segs)
    requires path == [] ==> node == root && SafeInclude(segs)
    requires shard in Traverse(t, Shards, node, path, segs).out
    ensures WireSafe(shard)
    decreases |segs|
  {
    if segs == [] {
      ShardSafe(path, []);
      assert path + [] == path;
    } else if Wild(segs[0]) {
      ChildShardsSafe(t, root, node, path, segs, Value(t.childNames(node), []), shard);
    } else {
      var c := t.child(node, segs[0]);
      assert segs[0] in segs;
      var rest := segs[1..];
      assert forall s :: s in rest ==> s in segs;
      CollapsedTail(segs);
      ShardsSafe(t, root, Value(c, None).value, path + [segs[0]], rest, shard);
    }
  }

  lemma CollapsedTail(segs: Segs)
    requires Collapsed(segs) && segs != []
    ensures Collapsed(segs[1..])
  {
    var r := segs[1..];
    forall i | 0 <= i < |r| - 1 ensures !(r[i] == "*" && r[i + 1] == "*") {
      assert !(segs[i + 1] == "*" && segs[i + 1 + 1] == "*");
    }
  }

  /** Planning emits at most one shard for a child: the child, its level, or the rest. */
  lemma ChildShards<N>(t: Tree<N>, c: Fallible<Option<N>>, p: Segs, segs: Segs, shard: Segs)
    requires segs != [] && Wild(segs[0]) && shard in OneChild(t, Shards, c, p, segs).out
    ensures shard == p + [] || shard == p + ["#"] || shard == p + segs[1..]
  {
    assert p + [] == p;
    var child := Value(c, None).value;
    if segs[0] == "*" {
      assert shard in StarChild(t, Shards, child, p, segs[1..]).out;
    } else {
      assert shard in HashChild(t, Shards, child, p, segs[1..]).out;
    }
    assert Descend(t, Shards, child, p, segs[1..]).out == [p + segs[1..]];
  }

  lemma {:induction false} ChildShardsSafe<N(!new)>(
      t: Tree<N>, root: N, node: N, path: Segs, segs: Segs, names: seq<string>, shard: Segs)
    requires SafeTree(t, root) && SafePath(path) && NoQuotes(segs) && Collapsed(segs)
    requires segs != [] && Wild(segs[0])
    requires forall s :: s in names ==> !Wild(s) && '"' !in s && (path == [] ==> !Banged(s))
    requires shard in Children(t, Shards, node, path, segs, names).out
    ensures WireSafe(shard)
    decreases |names|
  {
    if names != [] {
      var p := path + [names[0]];
      var c := t.child(node, names[0]);
      if shard in OneChild(t, Shards, c, p, segs).out {
        assert names[0] in names;
        var rest := segs[1..];
        assert forall s :: s in rest ==> s in segs;
        CollapsedTail(segs);
        assert SafePath(p);
        ChildShards(t, c, p, segs, shard);
        ShardSafe(p, rest);
        ShardSafe(p, []);
        ShardSafe(p, ["#"]);
      } else {
        ChildShardsSafe(t, root, node, path, segs, names[1..], shard);
      }
    }
  }

  lemma {:induction false} AllShardsSafe<N(!new)>(t: Tree<N>, root: N, includes: seq<Segs>, shard: Segs)
    requires SafeTree(t, root)
    requires forall inc :: inc in includes ==> NoQuotes(inc) && SafeInclude(inc)
    requires shard in TraverseAll(t, Shards, root, includes).out
    ensures WireSafe(shard)
    decreases |includes|
  {
    if includes != [] {
      var init, last := includes[..|includes| - 1], includes[|includes| - 1];
      assert last in includes;
      CollapseCollapses(last);
      if shard in TraverseAll(t, Shards, root, init).out {
        AllShardsSafe(t, root, init, shard);
      } else {
        ShardsSafe(t, root, root, [], Collapse(last), shard);
      }
    }
  }

  lemma {:induction false} SplitAll<N(!new)>(t: Tree<N>, root: N, includes: seq<Segs>)
    requires PlainNames(t)
    ensures Splits(t, root, TraverseAll(t, Shards, root, includes), TraverseAll(t, Derivations, root, includes))
    decreases |includes|
  {
    if includes != [] {
      var init, last := includes[..|includes| - 1], includes[|includes| - 1];
      SplitAll(t, root, init);
      SplitNode(t, root, root, [], Collapse(last));
      SplitsThen(t, root, TraverseAll(t, Shards, root, init), TraverseAll(t, Derivations, root, init),
                 Traverse(t, Shards, root, [], Collapse(last)), Traverse(t, Derivations, root, [], Collapse(last)));
    }
  }

  // ----- reading a worker's request -----

  lemma {:induction false} ParsedAppend(a: seq<string>, b: seq<string>, exclude: bool)
    ensures Parsed(a + b, exclude) == Parsed(a, exclude) + Parsed(b, exclude)
    decreases |b|
  {
    if b == [] {
      assert a + b == a;
    } else {
      assert (a + b)[..|a + b| - 1] == a + b[..|b| - 1];
      ParsedAppend(a, b[..|b| - 1], exclude);
    }
  }

  lemma {:induction false} ExcludesKept(wildcards: seq<string>)
    ensures Parsed(ExcludePatterns(wildcards), true) == Parsed(wildcards, true)
    ensures Parsed(ExcludePatterns(wildcards), false) == []
    decreases |wildcards|
  {
    if wildcards != [] {
      var init := wildcards[..|wildcards| - 1];
      ExcludesKept(init);
      var ex := ExcludePatterns(init);
      assert (ex + [wildcards[|wildcards| - 1]])[..|ex|] == ex;
    }
  }

  lemma {:induction false} ParsedFacts(wildcards: seq<string>, inc: Segs)
    requires inc in Parsed(wildcards, false)
    ensures inc != [] && NoQuotes(inc)
    decreases |wildcards|
  {
    var init, last := wildcards[..|wildcards| - 1], wildcards[|wildcards| - 1];
    ParseBodyFacts(last, "", false);
    if inc in Parsed(init, false) { ParsedFacts(init, inc); }
  }

  lemma WorkerReads(shard: Segs, wildcards: seq<string>)
    requires WireSafe(shard)
    ensures Parsed([Print(shard)] + ExcludePatterns(wildcards), false) == [shard]
    ensures Parsed([Print(shard)] + ExcludePatterns(wildcards), true) == Parsed(wildcards, true)
  {
    var one := [Print(shard)];
    RoundTripIff(shard);
    ExcludesKept(wildcards);
    ParsedAppend(one, ExcludePatterns(wildcards), false);
    ParsedAppend(one, ExcludePatterns(wildcards), true);
    assert one[..|one| - 1] == [];
  }

  lemma TraverseOne<N>(t: Tree<N>, root: N, shard: Segs)
    requires Collapsed(shard)
    ensures TraverseAll(t, Derivations, root, [shard]) == Traverse(t, Derivations, root, [], shard)
  {
    CollapseIdle(shard);
    var l := [shard];
    assert l[..|l| - 1] == [];
    ThenAssociates(Traverse(t, Derivations, root, [], shard), NOTHING, NOTHING);
  }

  /** A worker given a printed shard and the exclusions discovers exactly that shard. */
  lemma WorkerSees<N>(t: Tree<N>, root: N, shard: Segs, wildcards: seq<string>)
    requires WireSafe(shard)
    ensures DiscoverPatterns(t, root, [Print(shard)] + ExcludePatterns(wildcards))
            == (var e := Traverse(t, Derivations, root, [], shard);
                (SortDedup(Kept(e.out, Parsed(wildcards, true))), SortDedup(e.diags)))
  {
    WorkerReads(shard, wildcards);
    TraverseOne(t, root, shard);
  }

  // ----- the union of the shards -----

  /** Every shard's result, one worker after the other. */
  function RunShards<N>(t: Tree<N>, root: N, patterns: seq<string>, excludes: seq<string>): (seq<string>, seq<string>)
    decreases |patterns|
  {
    if patterns == [] then ([], [])
    else
      var one := DiscoverPatterns(t, root, [patterns[0]] + excludes);
      var rest := RunShards(t, root, patterns[1..], excludes);
      (one.0 + rest.0, one.1 + rest.1)
  }

  lemma {:induction false} KeptAppend(a: seq<Segs>, b: seq<Segs>, excludes: seq<Segs>)
    ensures Kept(a + b, excludes) == Kept(a, excludes) + Kept(b, excludes)
    decreases |b|
  {
    if b == [] {
      assert a + b == a;
    } else {
      assert (a + b)[..|a + b| - 1] == a + b[..|b| - 1];
      KeptAppend(a, b[..|b| - 1], excludes);
    }
  }

  lemma {:induction false} UnionOfShards<N>(t: Tree<N>, root: N, shards: seq<Segs>, wildcards: seq<string>)
    requires forall s :: s in shards ==> WireSafe(s)
    ensures var union := RunShards(t, root, PrintAll(shards), ExcludePatterns(wildcards));
            var found := DiscoverShards(t, root, shards);
            && Elements(union.0) == Elements(Kept(found.out, Parsed(wildcards, true)))
            && Elements(union.1) == Elements(found.diags)
    decreases |shards|
  {
    if shards != [] {
      UnionOfShards(t, root, shards[1..], wildcards);
      WorkerSees(t, root, shards[0], wildcards);
      RunShardsStep(t, root, shards, ExcludePatterns(wildcards));
      DiscoverShardsStep(t, root, shards);
      UnionStep(Traverse(t, Derivations, root, [], shards[0]), DiscoverShards(t, root, shards[1..]),
                RunShards(t, root, PrintAll(shards[1..]), ExcludePatterns(wildcards)), Parsed(wildcards, true));
    }
  }

  lemma RunShardsStep<N>(t: Tree<N>, root: N, shards: seq<Segs>, excludes: seq<string>)
    requires shards != []
    ensures var one := DiscoverPatterns(t, root, [Print(shards[0])] + excludes);
            var rest := RunShards(t, root, PrintAll(shards[1..]), excludes);
            RunShards(t, root, PrintAll(shards), excludes) == (one.0 + rest.0, one.1 + rest.1)
  {
    assert PrintAll(shards)[1..] == PrintAll(shards[1..]);
  }

  lemma DiscoverShardsStep<N>(t: Tree<N>, root: N, shards: seq<Segs>)
    requires shards != []
    ensures DiscoverShards(t, root, shards)
            == Traverse(t, Derivations, root, [], shards[0]).Then(DiscoverShards(t, root, shards[1..]))
  {
  }

  lemma UnionStep(one: Emit, rest: Emit, others: (seq<string>, seq<string>), excludes: seq<Segs>)
    requires Elements(others.0) == Elements(Kept(rest.out, excludes)) && Elements(others.1) == Elements(rest.diags)
    ensures Elements(SortDedup(Kept(one.out, excludes)) + others.0) == Elements(Kept(one.Then(rest).out, excludes))
    ensures Elements(SortDedup(one.diags) + others.1) == Elements(one.Then(rest).diags)
  {
    SortDedupFacts(Kept(one.out, excludes));
    SortDedupFacts(one.diags);
    KeptAppend(one.out, rest.out, excludes);
    ElementsAppend(Kept(one.out, excludes), Kept(rest.out, excludes));
    ElementsAppend(one.diags, rest.diags);
    ElementsAppend(SortDedup(Kept(one.out, excludes)), others.0);
    ElementsAppend(SortDedup(one.diags), others.1);
  }

  lemma ElementsOfMultisets(a: seq<string>, b: seq<string>, c: seq<string>)
    requires multiset(a) + multiset(b) == multiset(c)
    ensures Elements(a) + Elements(b) == Elements(c)
  {
    forall x: string ensures x in Elements(a) + Elements(b) <==> x in Elements(c) {
      assert x in multiset(a) <==> x in a;
      assert x in multiset(b) <==> x in b;
      assert x in multiset(c) <==> x in c;
    }
  }

  /** Splitting preserves meaning. For every tree whose operations may fail anywhere and
      every list of patterns: plan the shards, print them, let a worker each re-read and
      discover one with the same exclusions, and take the union. The attributes are those
      of one-pass discovery, and no diagnostic is lost or added. */
  lemma ShardedDiscovery<N(!new)>(t: Tree<N>, root: N, wildcards: seq<string>)
    requires SafeTree(t, root)
    requires forall inc :: inc in Parsed(wildcards, false) ==> SafeInclude(inc)
    ensures var whole := DiscoverPatterns(t, root, wildcards);
            var plan := PlanPatterns(t, root, wildcards);
            var union := RunShards(t, root, plan.0, ExcludePatterns(wildcards));
            && SortDedup(union.0) == whole.0
            && SortDedup(plan.1 + union.1) == whole.1
  {
    var includes, excludes := Parsed(wildcards, false), Parsed(wildcards, true);
    forall inc | inc in includes ensures NoQuotes(inc) { ParsedFacts(wildcards, inc); }
    var plan := TraverseAll(t, Shards, root, includes);
    var whole := TraverseAll(t, Derivations, root, includes);
    var found := DiscoverShards(t, root, plan.out);
    SplitAll(t, root, includes);
    forall s | s in plan.out ensures WireSafe(s) { AllShardsSafe(t, root, includes, s); }
    UnionOfShards(t, root, plan.out, wildcards);
    var union := RunShards(t, root, PrintAll(plan.out), ExcludePatterns(wildcards));
    SameElementsSortAlike(union.0, Kept(whole.out, excludes));
    SortDedupFacts(plan.diags);
    ElementsAppend(SortDedup(plan.diags), union.1);
    ElementsOfMultisets(plan.diags, found.diags, whole.diags);
    SameElementsSortAlike(SortDedup(plan.diags) + union.1, whole.diags);
  }

  // ----- why names are restricted -----

  /** A root with the one attribute `!a`, a derivation. */
  function BangTree(): Tree<bool> {
    Tree((n: bool) => Ok(if n then ["!a"] else []),
         (n: bool, s: string) => Ok(if n && s == "!a" then Some(false) else None),
         (n: bool) => Ok(!n),
         (n: bool) => Ok(false))
  }

  lemma BangPatterns()
    ensures Parsed(["*"], false) == [["*"]] && Parsed(["*"], true) == [] && Parsed(["!a"], false) == []
  {
    var w, x := ["*"], ["!a"];
    assert w[..|w| - 1] == [] && x[..|x| - 1] == [];
    assert ParseBody("*", "", false) == ["*"] by { assert "*"[1..] == "" && "" + ['*'] == "*"; }
    CollapseIdle(["*"]);
    assert Parse("!a").0;
  }

  lemma BangWalk(sink: Sink)
    ensures Traverse(BangTree(), sink, true, [], ["*"]).out == [["!a"]]
  {
    var t, names := BangTree(), ["!a"];
    assert names[1..] == [] && [] + ["!a"] == ["!a"];
    assert Children(t, sink, true, [], ["*"], names).out == [["!a"]];
  }

  lemma WalkOne<N>(t: Tree<N>, sink: Sink, root: N, inc: Segs)
    ensures TraverseAll(t, sink, root, [inc]).out == Traverse(t, sink, root, [], Collapse(inc)).out
  {
    assert [inc][..0] == [];
    assert TraverseAll(t, sink, root, []) == NOTHING;
  }

  lemma BangFound()
    ensures DiscoverPatterns(BangTree(), true, ["*"]).0 == ["!a"]
  {
    BangPatterns();
    BangWalk(Derivations);
    CollapseIdle(["*"]);
    WalkOne(BangTree(), Derivations, true, ["*"]);
    var paths := [["!a"]];
    assert paths[..|paths| - 1] == [];
    assert Kept(paths, []) == ["!a"];
  }

  lemma BangPlanned()
    ensures PlanPatterns(BangTree(), true, ["*"]).0 == ["!a"]
  {
    BangPatterns();
    BangWalk(Shards);
    CollapseIdle(["*"]);
    WalkOne(BangTree(), Shards, true, ["*"]);
    assert Print(["!a"]) == "!a";
  }

  /** The shard of an attribute named `!a` is printed as an exclusion, and its worker
      discovers nothing. */
  lemma BangNameIsLost()
    ensures DiscoverPatterns(BangTree(), true, ["*"]).0 == ["!a"]
    ensures PlanPatterns(BangTree(), true, ["*"]).0 == ["!a"]
    ensures DiscoverPatterns(BangTree(), true, ["!a"]).0 == []
  {
    BangFound();
    BangPlanned();
    BangPatterns();
    assert TraverseAll(BangTree(), Derivations, true, []) == NOTHING;
  }
}
