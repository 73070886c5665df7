/** The traversal of a flake's output attributes that matches a wildcard pattern, with
    its two sinks: matched derivations, and the shards a pattern is split into. */
module WildcardWalk {
  import opened Wrappers
  import opened PatternText

  /** The outcome of a tree operation; evaluating an attribute may throw. */
  type Fallible<+T> = Result<T, string>

  /** An attribute tree, possibly infinite, each of whose operations may fail. */
  datatype Tree<!N> = Tree(
    childNames: N -> Fallible<seq<string>>,
    child: (N, string) -> Fallible<Option<N>>,
    isDerivation: N -> Fallible<bool>,
    isOpaque: N -> Fallible<bool>)

  datatype Sink = Derivations | Shards

  /** What a traversal pushed: paths or shards, and diagnostics. */
  datatype Emit = Emit(out: seq<Segs>, diags: seq<string>) {
    function Then(next: Emit): Emit { Emit(out + next.out, diags + next.diags) }
    function After(first: seq<string>): Emit { Emit(out, first + diags) }
  }

  const NOTHING := Emit([], [])

  function Join(path: Segs): string
    decreases |path|
  {
    if path == [] then "" else if |path| == 1 then path[0] else path[0] + "." + Join(path[1..])
  }

  function Diag(path: Segs, error: string): string {
    "failed to evaluate '" + Join(path) + "': " + error
  }

  /** The value of an operation, or the fallback when it failed. */
  function Value<T>(r: Fallible<T>, fallback: T): T { if r.Ok? then r.value else fallback }

  function Noted<T>(r: Fallible<T>, path: Segs): seq<string> {
    if r.Ok? then [] else [Diag(path, r.error)]
  }

  // ----- the traversal -----

  function Traverse<N>(t: Tree<N>, sink: Sink, node: N, path: Segs, segs: Segs): Emit
    decreases |segs|, 1, 0
  {
    if segs == [] then
      if sink.Shards? then Emit([path], [])
      else
        var d := t.isDerivation(node);
        Emit(if Value(d, false) then [path] else [], Noted(d, path))
    else if segs[0] == "*" || segs[0] == "#" then
      var names := t.childNames(node);
      Children(t, sink, node, path, segs, Value(names, [])).After(Noted(names, path))
    else
      var p := path + [segs[0]];
      var c := t.child(node, segs[0]);
      if Value(c, None).Some? then Traverse(t, sink, Value(c, None).value, p, segs[1..]).After(Noted(c, p))
      else Emit([], Noted(c, p))
  }

  /** The matches below each named child, in order. */
  function Children<N>(t: Tree<N>, sink: Sink, node: N, path: Segs, segs: Segs, names: seq<string>): Emit
    requires segs != [] && (segs[0] == "*" || segs[0] == "#")
    decreases |segs|, 0, |names|
  {
    if names == [] then NOTHING
    else
      var p := path + [names[0]];
      var c := t.child(node, names[0]);
      var here :=
        if Value(c, None).None? then NOTHING
        else if segs[0] == "*" then StarChild(t, sink, Value(c, None).value, p, segs[1..])
        else HashChild(t, sink, Value(c, None).value, p, segs[1..]);
      here.After(Noted(c, p)).Then(Children(t, sink, node, path, segs, names[1..]))
  }

  /** Below `*`: stop at opaque sets; at the end take a derivation, or recover one level. */
  function StarChild<N>(t: Tree<N>, sink: Sink, child: N, p: Segs, rest: Segs): Emit
    decreases |rest| + 1, 0, 0
  {
    var o := t.isOpaque(child);
    if rest == [] then
      var d := t.isDerivation(child);
      if Value(d, false) then Emit([p], Noted(d, p))
      else if Value(o, false) then Emit([], Noted(d, p) + Noted(o, p))
      else if sink.Shards? then Emit([p + ["#"]], Noted(d, p) + Noted(o, p))
      else Recover(t, child, p).After(Noted(d, p) + Noted(o, p))
    else if Value(o, false) then Emit([], Noted(o, p))
    else Descend(t, sink, child, p, rest).After(Noted(o, p))
  }

  /** Below `#`: at the end take derivations only. */
  function HashChild<N>(t: Tree<N>, sink: Sink, child: N, p: Segs, rest: Segs): Emit
    decreases |rest| + 1, 0, 0
  {
    if rest == [] then
      var d := t.isDerivation(child);
      Emit(if Value(d, false) then [p] else [], Noted(d, p))
    else Descend(t, sink, child, p, rest)
  }

  /** Planning stops at the first wildcard and keeps the rest; discovery goes on. */
  function Descend<N>(t: Tree<N>, sink: Sink, child: N, p: Segs, rest: Segs): Emit
    decreases |rest|, 2, 0
  {
    if sink.Shards? then Emit([p + rest], []) else Traverse(t, sink, child, p, rest)
  }

  /** The derivations one level below a child matched by a trailing `*`. */
  function Recover<N>(t: Tree<N>, child: N, p: Segs): Emit {
    var names := t.childNames(child);
    Grandchildren(t, child, p, Value(names, [])).After(Noted(names, p))
  }

  function Grandchildren<N>(t: Tree<N>, child: N, p: Segs, names: seq<string>): Emit
    decreases |names|
  {
    if names == [] then NOTHING
    else
      var q := p + [names[0]];
      var c := t.child(child, names[0]);
      var here :=
        if Value(c, None).None? then NOTHING
        else
          var d := t.isDerivation(Value(c, None).value);
          Emit(if Value(d, false) then [q] else [], Noted(d, q));
      here.After(Noted(c, q)).Then(Grandchildren(t, child, p, names[1..]))
  }

  /** Recovering one level is a trailing `#` below the child. */
  lemma {:induction false} RecoverIsHash<N>(t: Tree<N>, child: N, p: Segs, names: seq<string>)
    ensures Grandchildren(t, child, p, names) == Children(t, Derivations, child, p, ["#"], names)
    decreases |names|
  {
    if names != [] { RecoverIsHash(t, child, p, names[1..]); }
  }

  // ----- splitting -----

  predicate Wild(s: string) { s == "*" || s == "#" }

  /** No attribute is named like a wildcard. */
  ghost predicate PlainNames<N(!new)>(t: Tree<N>) {
    forall n, s :: t.childNames(n).Ok? && s in t.childNames(n).value ==> !Wild(s)
  }

  /** Following the literal names of `path` leads from `start` to `node` without errors. */
  ghost predicate Leads<N>(t: Tree<N>, start: N, path: Segs, node: N)
    decreases |path|
  {
    if path == [] then start == node
    else
      !Wild(path[0]) && t.child(start, path[0]).Ok? && t.child(start, path[0]).value.Some?
      && Leads(t, t.child(start, path[0]).value.value, path[1..], node)
  }

  lemma {:induction false} LeadsOn<N>(t: Tree<N>, start: N, path: Segs, node: N, name: string)
    requires Leads(t, start, path, node) && !Wild(name)
    requires t.child(node, name).Ok? && t.child(node, name).value.Some?
    ensures Leads(t, start, path + [name], t.child(node, name).value.value)
    decreases |path|
  {
    if path != [] {
      assert (path + [name])[1..] == path[1..] + [name];
      LeadsOn(t, t.child(start, path[0]).value.value, path[1..], node, name);
    }
  }

  /** Discovery along a literal path goes straight to the node it names, silently. */
  lemma {:induction false} Rewalk<N>(t: Tree<N>, start: N, done: Segs, path: Segs, node: N, rest: Segs)
    requires Leads(t, start, path, node)
    ensures Traverse(t, Derivations, start, done, path + rest)
            == Traverse(t, Derivations, node, done + path, rest)
    decreases |path|
  {
    if path == [] {
      assert path + rest == rest && done + path == done;
    } else {
      var next := t.child(start, path[0]).value.value;
      assert (path + rest)[1..] == path[1..] + rest;
      assert done + path == done + [path[0]] + path[1..];
      Rewalk(t, next, done + [path[0]], path[1..], node, rest);
    }
  }

  /** Discovering each shard in turn from the root. */
  function DiscoverShards<N>(t: Tree<N>, root: N, shards: seq<Segs>): Emit
    decreases |shards|
  {
    if shards == [] then NOTHING
    else Traverse(t, Derivations, root, [], shards[0]).Then(DiscoverShards(t, root, shards[1..]))
  }

  lemma ThenAssociates(a: Emit, b: Emit, c: Emit)
    ensures a.Then(b).Then(c) == a.Then(b.Then(c))
    ensures NOTHING.Then(a) == a
  {
    assert a.out + b.out + c.out == a.out + (b.out + c.out);
    assert a.diags + b.diags + c.diags == a.diags + (b.diags + c.diags);
  }

  lemma {:induction false} DiscoverShardsAppend<N>(t: Tree<N>, root: N, a: seq<Segs>, b: seq<Segs>)
    ensures DiscoverShards(t, root, a + b) == DiscoverShards(t, root, a).Then(DiscoverShards(t, root, b))
    decreases |a|
  {
    if a == [] {
      assert a + b == b;
      ThenAssociates(DiscoverShards(t, root, b), NOTHING, NOTHING);
    } else {
      assert (a + b)[1..] == a[1..] + b;
      DiscoverShardsAppend(t, root, a[1..], b);
      ThenAssociates(Traverse(t, Derivations, root, [], a[0]),
                     DiscoverShards(t, root, a[1..]), DiscoverShards(t, root, b));
    }
  }

  /** `plan` splits `whole`: its shards find the same paths in the same order, and its
      diagnostics with theirs are the same, none lost and none repeated. */
  ghost predicate Splits<N>(t: Tree<N>, root: N, plan: Emit, whole: Emit) {
    var found := DiscoverShards(t, root, plan.out);
    && found.out == whole.out
    && multiset(plan.diags) + multiset(found.diags) == multiset(whole.diags)
  }

  lemma SplitsAfter<N>(t: Tree<N>, root: N, plan: Emit, whole: Emit, diags: seq<string>)
    requires Splits(t, root, plan, whole)
    ensures Splits(t, root, plan.After(diags), whole.After(diags))
  {
  }

  lemma SplitsThen<N>(t: Tree<N>, root: N, plan: Emit, whole: Emit, plan2: Emit, whole2: Emit)
    requires Splits(t, root, plan, whole) && Splits(t, root, plan2, whole2)
    ensures Splits(t, root, plan.Then(plan2), whole.Then(whole2))
  {
    DiscoverShardsAppend(t, root, plan.out, plan2.out);
  }

  /** A node's single shard, walked again from the root, gives what the node gives. */
  lemma SplitsOne<N>(t: Tree<N>, root: N, node: N, path: Segs, rest: Segs)
    requires Leads(t, root, path, node)
    ensures Splits(t, root, Emit([path + rest], []), Traverse(t, Derivations, node, path, rest))
  {
    Rewalk(t, root, [], path, node, rest);
    assert [] + path == path;
    var shards := [path + rest];
    assert shards[1..] == [];
    var found := Traverse(t, Derivations, node, path, rest);
    assert found.out + [] == found.out && found.diags + [] == found.diags;
  }

  /** Splitting preserves meaning, at every node of the walk. */
  lemma {:induction false} SplitNode<N(!new)>(t: Tree<N>, root: N, node: N, path: Segs, segs: Segs)
    requires PlainNames(t) && Leads(t, root, path, node)
    ensures Splits(t, root, Traverse(t, Shards, node, path, segs), Traverse(t, Derivations, node, path, segs))
    decreases |segs|, 1, 0
  {
    if segs == [] {
      SplitsOne(t, root, node, path, []);
      assert path + [] == path;
    } else if Wild(segs[0]) {
      var names := t.childNames(node);
      SplitChildren(t, root, node, path, segs, Value(names, []));
      SplitsAfter(t, root, Children(t, Shards, node, path, segs, Value(names, [])),
                  Children(t, Derivations, node, path, segs, Value(names, [])), Noted(names, path));
    } else {
      var c := t.child(node, segs[0]);
      if Value(c, None).Some? {
        var next := Value(c, None).value;
        LeadsOn(t, root, path, node, segs[0]);
        SplitNode(t, root, next, path + [segs[0]], segs[1..]);
        SplitsAfter(t, root, Traverse(t, Shards, next, path + [segs[0]], segs[1..]),
                    Traverse(t, Derivations, next, path + [segs[0]], segs[1..]), Noted(c, path + [segs[0]]));
      }
    }
  }

  lemma {:induction false} SplitChildren<N(!new)>(
      t: Tree<N>, root: N, node: N, path: Segs, segs: Segs, names: seq<string>)
    requires PlainNames(t) && Leads(t, root, path, node)
    requires segs != [] && Wild(segs[0]) && forall s :: s in names ==> !Wild(s)
    ensures Splits(t, root, Children(t, Shards, node, path, segs, names),
                   Children(t, Derivations, node, path, segs, names))
    decreases |segs|, 0, |names|
  {
    if names != [] {
      var p := path + [names[0]];
      var c := t.child(node, names[0]);
      assert names[0] in names;
      if Value(c, None).Some? {
        LeadsOn(t, root, path, node, names[0]);
        SplitChild(t, root, Value(c, None).value, p, segs);
      }
      SplitChildren(t, root, node, path, segs, names[1..]);
      var plan, whole := OneChild(t, Shards, c, p, segs), OneChild(t, Derivations, c, p, segs);
      SplitsAfter(t, root, plan, whole, Noted(c, p));
      SplitsThen(t, root, plan.After(Noted(c, p)), whole.After(Noted(c, p)),
                 Children(t, Shards, node, path, segs, names[1..]),
                 Children(t, Derivations, node, path, segs, names[1..]));
    }
  }

  /** What one looked-up child contributes. */
  function OneChild<N>(t: Tree<N>, sink: Sink, c: Fallible<Option<N>>, p: Segs, segs: Segs): Emit
    requires segs != [] && Wild(segs[0])
  {
    if Value(c, None).None? then NOTHING
    else if segs[0] == "*" then StarChild(t, sink, Value(c, None).value, p, segs[1..])
    else HashChild(t, sink, Value(c, None).value, p, segs[1..])
  }

  lemma SplitDescend<N(!new)>(t: Tree<N>, root: N, child: N, p: Segs, rest: Segs)
    requires Leads(t, root, p, child)
    ensures Splits(t, root, Descend(t, Shards, child, p, rest), Descend(t, Derivations, child, p, rest))
  {
    SplitsOne(t, root, child, p, rest);
  }

  lemma SplitsNothing<N>(t: Tree<N>, root: N, diags: seq<string>)
    ensures Splits(t, root, Emit([], diags), Emit([], diags))
  {
  }

  /** A shard that ends at a node, or `#` below it. */
  lemma SplitsEnd<N>(t: Tree<N>, root: N, child: N, p: Segs)
    requires Leads(t, root, p, child)
    ensures Splits(t, root, Emit([p], []), Traverse(t, Derivations, child, p, []))
    ensures Splits(t, root, Emit([p + ["#"]], []), Recover(t, child, p))
  {
    assert p + [] == p;
    SplitsOne(t, root, child, p, []);
    SplitsOne(t, root, child, p, ["#"]);
    RecoverIsHash(t, child, p, Value(t.childNames(child), []));
  }

  lemma SplitStarEnd<N>(t: Tree<N>, root: N, child: N, p: Segs)
    requires Leads(t, root, p, child)
    ensures Splits(t, root, StarChild(t, Shards, child, p, []), StarChild(t, Derivations, child, p, []))
  {
    var d, o := t.isDerivation(child), t.isOpaque(child);
    var notes := Noted(d, p) + Noted(o, p);
    if Value(d, false) {
      SplitsEnd(t, root, child, p);
    } else if Value(o, false) {
      SplitsNothing(t, root, notes);
    } else {
      SplitsEnd(t, root, child, p);
      SplitsAfter(t, root, Emit([p + ["#"]], []), Recover(t, child, p), notes);
      assert notes + [] == notes;
    }
  }

  lemma SplitHashEnd<N>(t: Tree<N>, root: N, child: N, p: Segs)
    requires Leads(t, root, p, child)
    ensures Splits(t, root, HashChild(t, Shards, child, p, []), HashChild(t, Derivations, child, p, []))
  {
    if Value(t.isDerivation(child), false) {
      SplitsEnd(t, root, child, p);
    } else {
      SplitsNothing(t, root, Noted(t.isDerivation(child), p));
    }
  }

  lemma SplitChild<N(!new)>(t: Tree<N>, root: N, child: N, p: Segs, segs: Segs)
    requires Leads(t, root, p, child) && segs != [] && Wild(segs[0])
    ensures segs[0] == "*" ==> Splits(t, root, StarChild(t, Shards, child, p, segs[1..]),
                                      StarChild(t, Derivations, child, p, segs[1..]))
    ensures segs[0] == "#" ==> Splits(t, root, HashChild(t, Shards, child, p, segs[1..]),
                                      HashChild(t, Derivations, child, p, segs[1..]))
  {
    var rest := segs[1..];
    if rest == [] {
      SplitStarEnd(t, root, child, p);
      SplitHashEnd(t, root, child, p);
    } else {
      var o := t.isOpaque(child);
      SplitDescend(t, root, child, p, rest);
      SplitsNothing(t, root, Noted(o, p));
      SplitsAfter(t, root, Descend(t, Shards, child, p, rest), Descend(t, Derivations, child, p, rest), Noted(o, p));
    }
  }
}
