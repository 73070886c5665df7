/** Breadth-first closure walks over `derivation_dependency`, and closure sizes for one
    root or for many at once. */
module ClosureSizes {
  import opened Walks
  import opened Tables
  import opened Wrappers

  // ----- sums over sets -----

  ghost function Sum<T(!new)>(s: set<T>, f: T -> int): int
    decreases |s|
  {
    if s == {} then 0 else var x :| x in s; f(x) + Sum(s - {x}, f)
  }

  lemma {:induction false} SumInsert<T(!new)>(s: set<T>, x: T, f: T -> int)
    requires x !in s
    ensures Sum(s + {x}, f) == Sum(s, f) + f(x)
    decreases |s|
  {
    var t := s + {x};
    var y :| y in t && Sum(t, f) == f(y) + Sum(t - {y}, f);
    if y == x {
      assert t - {x} == s;
    } else {
      assert t - {y} == (s - {y}) + {x};
      SumInsert(s - {y}, x, f);
      assert s == (s - {y}) + {y};
      SumInsert(s - {y}, y, f);
    }
  }

  lemma {:induction false} SumZero<T(!new)>(s: set<T>, zero: set<T>, f: T -> int)
    requires s !! zero && forall x :: x in zero ==> f(x) == 0
    ensures Sum(s + zero, f) == Sum(s, f)
    decreases |zero|
  {
    if zero == {} {
      assert s + zero == s;
    } else {
      var x :| x in zero;
      SumZero(s, zero - {x}, f);
      assert s + zero == (s + (zero - {x})) + {x};
      SumInsert(s + (zero - {x}), x, f);
    }
  }

  // ----- breadth-first reachability -----

  /** A set visited so far, closed except below the frontier. */
  ghost predicate Visiting<N>(rows: set<Row<N>>, seed: set<N>, visited: set<N>, frontier: set<N>) {
    && seed <= visited && frontier <= visited && visited <= Reach(rows, seed)
    && forall r :: r in rows && r.src in visited && r.src !in frontier ==> r.dst in visited
  }

  lemma VisitedAll<N>(rows: set<Row<N>>, seed: set<N>, visited: set<N>)
    requires Visiting(rows, seed, visited, {})
    ensures visited == Reach(rows, seed)
  {
    ReachIsLeast(rows, seed, visited);
  }

  /** One layer: follow every row out of the frontier, keep the targets not seen before. */
  method NextLayer<N(==)>(rows: set<Row<N>>, visited: set<N>, frontier: set<N>) returns (seen: set<N>, layer: set<N>)
    ensures layer == Step(rows, frontier) - visited && seen == visited + layer
  {
    seen, layer := visited, {};
    var todo := set r | r in rows && r.src in frontier;
    while todo != {}
      invariant forall r :: r in rows && r.src in frontier ==> r in todo || r.dst in seen
      invariant forall r :: r in todo ==> r in rows && r.src in frontier
      invariant layer <= Step(rows, frontier) && layer !! visited && seen == visited + layer
      decreases |todo|
    {
      var r :| r in todo;
      todo := todo - {r};
      if r.dst !in seen {
        seen, layer := seen + {r.dst}, layer + {r.dst};
      }
    }
  }

  lemma LayerKeeps<N>(rows: set<Row<N>>, seed: set<N>, visited: set<N>, frontier: set<N>, layer: set<N>)
    requires Visiting(rows, seed, visited, frontier) && layer == Step(rows, frontier) - visited
    ensures Visiting(rows, seed, visited + layer, layer)
    ensures layer != {} ==> |Targets(rows) - (visited + layer)| < |Targets(rows) - visited|
  {
    forall r | r in rows && r.src in visited + layer && r.src !in layer ensures r.dst in visited + layer {
      if r.src in frontier { assert r.dst in Step(rows, frontier); }
    }
    if layer != {} {
      var x :| x in layer;
      SubsetCard(Targets(rows) - (visited + layer), Targets(rows) - visited - {x});
    }
  }

  method ReachBfs<N(==)>(rows: set<Row<N>>, roots: set<N>) returns (visited: set<N>)
    ensures visited == Reach(rows, roots)
  {
    visited := roots;
    var frontier := roots;
    while frontier != {}
      invariant Visiting(rows, roots, visited, frontier)
      decreases |Targets(rows) - visited|, |frontier|
    {
      var seen, layer := NextLayer(rows, visited, frontier);
      LayerKeeps(rows, roots, visited, frontier, layer);
      visited, frontier := seen, layer;
    }
    VisitedAll(rows, roots, visited);
  }

  method TransitiveClosureReachable(edges: set<Row<DrvId>>, roots: seq<DrvId>) returns (visited: set<DrvId>)
    ensures visited == Reach(edges, Elements(roots))
  {
    visited := ReachBfs(edges, Elements(roots));
  }

  /** Every derivation that needs `start`, and `start` itself. */
  method CollectTransitiveDependents(edges: set<Row<DrvId>>, start: DrvId) returns (visited: set<DrvId>)
    ensures forall d :: d in visited <==> start in Reach(edges, {d})
  {
    visited := ReachBfs(Flip(edges), {start});
    forall d ensures d in visited <==> start in Reach(edges, {d}) {
      ReachConverse(edges, start, d);
    }
  }

  // ----- output sizes -----

  datatype SizedOutput = SizedOutput(name: string, derivation: DrvId, hash: Hash, narSize: Option<int>)

  /** The size of an output: its own, else its cached path's, else unknown. */
  function Coalesced(o: SizedOutput, cached: map<Hash, Option<int>>): Option<int> {
    if o.narSize.Some? then o.narSize else if o.hash in cached then cached[o.hash] else None
  }

  function Known(s: Option<int>): int { if s.Some? then s.value else 0 }

  /** The size recorded with an output, else the one of its cached path; unknown counts as nothing. */
  function KnownSize(o: SizedOutput, cached: map<Hash, Option<int>>): int {
    match o.narSize
    case Some(n) => n
    case None => if o.hash in cached && cached[o.hash].Some? then cached[o.hash].value else 0
  }

  ghost function SizeOf(outputs: set<SizedOutput>, cached: map<Hash, Option<int>>, d: DrvId): int {
    Sum(set o | o in outputs && o.derivation == d, (o: SizedOutput) => KnownSize(o, cached))
  }

  ghost function SizeFn(outputs: set<SizedOutput>, cached: map<Hash, Option<int>>): DrvId -> int {
    (d: DrvId) => SizeOf(outputs, cached, d)
  }

  function Get(m: map<DrvId, int>, d: DrvId): int { if d in m then m[d] else 0 }

  ghost predicate Tallied(
      byDrv: map<DrvId, int>, done: set<SizedOutput>, cached: map<Hash, Option<int>>, ids: set<DrvId>)
  {
    forall d :: d in ids ==> Get(byDrv, d) == SizeOf(done, cached, d)
  }

  method OutputSizesByDrv(outputs: set<SizedOutput>, cached: map<Hash, Option<int>>, ids: set<DrvId>)
    returns (byDrv: map<DrvId, int>)
    ensures byDrv.Keys <= ids
    ensures Tallied(byDrv, outputs, cached, ids)
  {
    byDrv := map[];
    var todo := set o | o in outputs && o.derivation in ids;
    ghost var mine := todo;
    while todo != {}
      invariant todo <= mine && byDrv.Keys <= ids && Tallied(byDrv, mine - todo, cached, ids)
      decreases |todo|
    {
      var o :| o in todo;
      byDrv := AddSize(byDrv, o, cached, mine - todo, ids);
      assert mine - (todo - {o}) == (mine - todo) + {o};
      todo := todo - {o};
    }
    assert mine - todo == mine;
    SizeOnlyMine(byDrv, outputs, mine, cached, ids);
  }

  method AddSize(
      byDrv: map<DrvId, int>, o: SizedOutput, cached: map<Hash, Option<int>>,
      ghost done: set<SizedOutput>, ghost ids: set<DrvId>)
    returns (after: map<DrvId, int>)
    requires o !in done && o.derivation in ids && byDrv.Keys <= ids && Tallied(byDrv, done, cached, ids)
    ensures after.Keys <= ids && Tallied(after, done + {o}, cached, ids)
  {
    var size := Coalesced(o, cached);
    after := if size.Some? then byDrv[o.derivation := Get(byDrv, o.derivation) + size.value] else byDrv;
    SizeOneMore(byDrv, after, done, cached, ids, o);
  }

  lemma SizeOnlyMine(
      byDrv: map<DrvId, int>, outputs: set<SizedOutput>, mine: set<SizedOutput>,
      cached: map<Hash, Option<int>>, ids: set<DrvId>)
    requires mine == set o | o in outputs && o.derivation in ids
    requires Tallied(byDrv, mine, cached, ids)
    ensures Tallied(byDrv, outputs, cached, ids)
  {
    forall d | d in ids ensures Get(byDrv, d) == SizeOf(outputs, cached, d) {
      assert (set o | o in mine && o.derivation == d) == (set o | o in outputs && o.derivation == d);
    }
  }

  lemma SizeOneMore(
      before: map<DrvId, int>, after: map<DrvId, int>, done: set<SizedOutput>, cached: map<Hash, Option<int>>,
      ids: set<DrvId>, o: SizedOutput)
    requires o !in done && Tallied(before, done, cached, ids)
    requires forall d :: Get(after, d) == Get(before, d) + if d == o.derivation then Known(Coalesced(o, cached)) else 0
    ensures Tallied(after, done + {o}, cached, ids)
  {
    forall d | d in ids ensures Get(after, d) == SizeOf(done + {o}, cached, d) {
      var mine := set x | x in done && x.derivation == d;
      var more := set x | x in done + {o} && x.derivation == d;
      if d == o.derivation {
        assert more == mine + {o};
        SumInsert(mine, o, (x: SizedOutput) => KnownSize(x, cached));
        assert Known(Coalesced(o, cached)) == KnownSize(o, cached);
      } else {
        assert more == mine;
      }
    }
  }

  method SumValues(m: map<DrvId, int>, ghost f: DrvId -> int) returns (total: int)
    requires forall d :: d in m ==> f(d) == m[d]
    ensures total == Sum(m.Keys, f)
  {
    total := 0;
    var done: set<DrvId> := {};
    while done != m.Keys
      invariant done <= m.Keys && total == Sum(done, f)
      decreases |m.Keys - done|
    {
      var d :| d in m.Keys - done;
      SumInsert(done, d, f);
      SubsetCard(m.Keys - (done + {d}), m.Keys - done - {d});
      total, done := total + m[d], done + {d};
    }
  }

  /** The size of the closure below `roots`. */
  method TransitiveClosureSize(
      edges: set<Row<DrvId>>, outputs: set<SizedOutput>, cached: map<Hash, Option<int>>, roots: seq<DrvId>)
    returns (total: int)
    ensures total == Sum(Reach(edges, Elements(roots)), SizeFn(outputs, cached))
  {
    var closure := TransitiveClosureReachable(edges, roots);
    var byDrv := OutputSizesByDrv(outputs, cached, closure);
    total := SumValues(byDrv, SizeFn(outputs, cached));
    SumZero(byDrv.Keys, closure - byDrv.Keys, SizeFn(outputs, cached));
    assert byDrv.Keys + (closure - byDrv.Keys) == closure;
  }

  // ----- many roots at once -----

  /** Breadth first over all roots, recording each visited node's direct dependencies. */
  method LoadAdjacency(edges: set<Row<DrvId>>, roots: set<DrvId>)
    returns (adjacency: map<DrvId, set<DrvId>>, reachable: set<DrvId>)
    ensures reachable == Reach(edges, roots)
    ensures forall d :: d in reachable ==> d in adjacency && adjacency[d] == Step(edges, {d})
  {
    adjacency, reachable := map[], roots;
    var frontier := roots;
    while frontier != {}
      invariant Visiting(edges, roots, reachable, frontier)
      invariant forall d :: d in reachable && d !in frontier ==> d in adjacency && adjacency[d] == Step(edges, {d})
      decreases |Targets(edges) - reachable|, |frontier|
    {
      var loaded := map d | d in frontier :: Step(edges, {d});
      adjacency := adjacency + loaded;
      var seen, layer := NextLayer(edges, reachable, frontier);
      LayerKeeps(edges, roots, reachable, frontier, layer);
      reachable, frontier := seen, layer;
    }
    VisitedAll(edges, roots, reachable);
  }

  ghost predicate Distinct<T>(s: seq<T>) { forall i, j :: 0 <= i < j < |s| ==> s[i] != s[j] }

  lemma PopOne<T>(s: seq<T>)
    requires s != [] && Distinct(s)
    ensures Distinct(s[..|s| - 1]) && Elements(s[..|s| - 1]) == Elements(s) - {s[|s| - 1]}
    ensures s[|s| - 1] in Elements(s)
  {
    ElementsLast(s);
  }

  lemma PushOne<T>(s: seq<T>, x: T)
    requires x !in Elements(s) && Distinct(s)
    ensures Distinct(s + [x]) && Elements(s + [x]) == Elements(s) + {x}
  {
    ElementsAppend(s, [x]);
  }

  /** A stack that holds what `held` held and exactly the nodes newly seen. */
  ghost predicate Pushed(visited: set<DrvId>, held: set<DrvId>, seen: set<DrvId>, stack: seq<DrvId>) {
    Distinct(stack) && held <= visited <= seen && Elements(stack) == held + (seen - visited)
  }

  lemma PushUnseen(visited: set<DrvId>, held: set<DrvId>, seen: set<DrvId>, stack: seq<DrvId>, child: DrvId)
    requires Pushed(visited, held, seen, stack) && child !in seen
    ensures Pushed(visited, held, seen + {child}, stack + [child])
  {
    PushOne(stack, child);
    assert (seen + {child}) - visited == (seen - visited) + {child};
  }

  lemma PushedAll(visited: set<DrvId>, held: set<DrvId>, children: set<DrvId>, stack: seq<DrvId>)
    requires Pushed(visited, held, visited + children, stack)
    ensures Elements(stack) == held + (children - visited)
  {
    assert (visited + children) - visited == children - visited;
  }

  lemma OneFewer<T>(base: set<T>, all: set<T>, todo: set<T>, x: T)
    requires x in todo && todo <= all
    ensures base + (all - (todo - {x})) == (base + (all - todo)) + {x}
  {
  }

  /** Push the children not visited before. */
  method PushChildren(children: set<DrvId>, visited: set<DrvId>, stack: seq<DrvId>)
    returns (seen: set<DrvId>, pushed: seq<DrvId>)
    requires Elements(stack) <= visited && Distinct(stack)
    ensures seen == visited + children
    ensures Elements(pushed) == Elements(stack) + (children - visited) && Distinct(pushed)
    ensures seen == visited ==> pushed == stack
  {
    seen, pushed := visited, stack;
    var todo := children;
    assert visited + (children - todo) == visited;
    assert Elements(stack) + (visited - visited) == Elements(stack);
    while todo != {}
      invariant todo <= children && seen == visited + (children - todo)
      invariant Pushed(visited, Elements(stack), seen, pushed)
      invariant seen == visited ==> pushed == stack
      decreases |todo|
    {
      var child :| child in todo;
      OneFewer(visited, children, todo, child);
      todo := todo - {child};
      if child !in seen {
        PushUnseen(visited, Elements(stack), seen, pushed, child);
        seen, pushed := seen + {child}, pushed + [child];
      } else {
        assert seen + {child} == seen;
      }
    }
    assert children - todo == children;
    PushedAll(visited, Elements(stack), children, pushed);
  }

  /** The walk below a root so far: what was popped is what was added up. */
  ghost predicate Popping(
      edges: set<Row<DrvId>>, f: DrvId -> int, root: DrvId, visited: set<DrvId>, held: set<DrvId>, total: int)
  {
    Visiting(edges, {root}, visited, held) && total == Sum(visited - held, f)
  }

  lemma PoppingStep(
      edges: set<Row<DrvId>>, f: DrvId -> int, root: DrvId, visited: set<DrvId>, held: set<DrvId>, total: int,
      node: DrvId, seen: set<DrvId>, now: set<DrvId>)
    requires Popping(edges, f, root, visited, held, total) && node in held
    requires seen == visited + Step(edges, {node})
    requires now == (held - {node}) + (Step(edges, {node}) - visited)
    ensures Popping(edges, f, root, seen, now, total + f(node))
    ensures seen != visited ==> |Reach(edges, {root}) - seen| < |Reach(edges, {root}) - visited|
  {
    forall r | r in edges && r.src in seen && r.src !in now ensures r.dst in seen {
      if r.src == node { assert r.dst in Step(edges, {node}); }
    }
    assert seen - now == (visited - held) + {node};
    SumInsert(visited - held, node, f);
    if seen != visited {
      var x :| x in seen && x !in visited;
      SubsetCard(Reach(edges, {root}) - seen, Reach(edges, {root}) - visited - {x});
    }
  }

  /** Depth first below one root, over the loaded adjacency, adding up as it pops. */
  method SumBelow(
      adjacency: map<DrvId, set<DrvId>>, sizes: map<DrvId, int>, root: DrvId,
      ghost edges: set<Row<DrvId>>, ghost f: DrvId -> int)
    returns (total: int)
    requires forall d :: d in Reach(edges, {root}) ==> d in adjacency && adjacency[d] == Step(edges, {d})
    requires forall d :: d in Reach(edges, {root}) ==> f(d) == Get(sizes, d)
    ensures total == Sum(Reach(edges, {root}), f)
  {
    var visited, stack := {root}, [root];
    total := 0;
    assert Elements(stack) == {root} && visited - {root} == {};
    while stack != []
      invariant Popping(edges, f, root, visited, Elements(stack), total) && Distinct(stack)
      decreases |Reach(edges, {root}) - visited|, |stack|
    {
      var node := stack[|stack| - 1];
      PopOne(stack);
      var seen, pushed := PushChildren(adjacency[node], visited, stack[..|stack| - 1]);
      PoppingStep(edges, f, root, visited, Elements(stack), total, node, seen, Elements(pushed));
      total := total + Get(sizes, node);
      visited, stack := seen, pushed;
    }
    assert Elements(stack) == {} && visited - {} == visited;
    VisitedAll(edges, {root}, visited);
  }

  /** The batched sizes: for every root, on any graph, cycles and diamonds included, the
      size the one-root walk gives. */
  method TransitiveClosureSizes(
      edges: set<Row<DrvId>>, outputs: set<SizedOutput>, cached: map<Hash, Option<int>>, roots: seq<DrvId>)
    returns (result: map<DrvId, int>)
    ensures result.Keys == Elements(roots)
    ensures forall root :: root in roots ==>
              result[root] == Sum(Reach(edges, {root}), SizeFn(outputs, cached))
  {
    var adjacency, reachable := LoadAdjacency(edges, Elements(roots));
    var sizes := OutputSizesByDrv(outputs, cached, reachable);
    result := map[];
    for i := 0 to |roots|
      invariant result.Keys == Elements(roots[..i])
      invariant forall root :: root in roots[..i] ==>
                  result[root] == Sum(Reach(edges, {root}), SizeFn(outputs, cached))
    {
      var root := roots[i];
      ReachMonotone(edges, edges, {root}, Elements(roots));
      var total := SumBelow(adjacency, sizes, root, edges, SizeFn(outputs, cached));
      assert roots[..i + 1] == roots[..i] + [root];
      ElementsAppend(roots[..i], [root]);
      result := result[root := total];
    }
    assert roots[..|roots|] == roots;
  }
}
