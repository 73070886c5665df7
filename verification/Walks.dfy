/** The recursive graph walk shared by every traversal of the system's two edge
    tables, `derivation_dependency` and `cached_path_reference`.

    A recursive query `seed UNION step` denotes the least set that holds the seed
    and is closed under the step. `Reach` computes that set by repeating the step;
    `ReachIsLeast` and `ReachIffPath` tie it to the two independent readings of
    "reachable": the least closed set, and the existence of a path. */
module Walks {

  /** One row of a two-column edge table. */
  datatype Row<N> = Row(src: N, dst: N)

  ghost predicate Closed<N>(rows: set<Row<N>>, s: set<N>) {
    forall r :: r in rows && r.src in s ==> r.dst in s
  }

  function Targets<N>(rows: set<Row<N>>): set<N> {
    set r | r in rows :: r.dst
  }

  /** One round of the recursive term: the targets of rows leaving `from`. */
  function Step<N>(rows: set<Row<N>>, from: set<N>): set<N> {
    set r | r in rows && r.src in from :: r.dst
  }

  function Reach<N>(rows: set<Row<N>>, seed: set<N>): (s: set<N>)
    ensures seed <= s && Closed(rows, s)
    decreases |Targets(rows) - seed|
  {
    var next := seed + Step(rows, seed);
    if next == seed then
      assert forall r :: r in rows && r.src in seed ==> r.dst in Step(rows, seed);
      seed
    else
      StepShrinksRest(rows, seed);
      Reach(rows, next)
  }

  lemma StepShrinksRest<N>(rows: set<Row<N>>, seed: set<N>)
    requires seed + Step(rows, seed) != seed
    ensures |Targets(rows) - (seed + Step(rows, seed))| < |Targets(rows) - seed|
  {
    var next := seed + Step(rows, seed);
    var x :| x in next && x !in seed;
    assert x in Targets(rows);
    SubsetCard(Targets(rows) - next, Targets(rows) - seed - {x});
  }

  lemma SubsetCard<T>(a: set<T>, b: set<T>)
    requires a <= b
    ensures |a| <= |b|
  {
    assert b == a + (b - a);
  }

  /** The walk never leaves a closed set that holds its seed. */
  lemma {:induction false} ReachIsLeast<N>(rows: set<Row<N>>, seed: set<N>, t: set<N>)
    requires seed <= t && Closed(rows, t)
    ensures Reach(rows, seed) <= t
    decreases |Targets(rows) - seed|
  {
    var next := seed + Step(rows, seed);
    if next != seed {
      StepShrinksRest(rows, seed);
      ReachIsLeast(rows, next, t);
    }
  }

  lemma ReachMonotone<N>(rows: set<Row<N>>, more: set<Row<N>>, seed: set<N>, seeds: set<N>)
    requires rows <= more && seed <= seeds
    ensures Reach(rows, seed) <= Reach(more, seeds)
  {
    ReachIsLeast(rows, seed, Reach(more, seeds));
  }

  lemma ReachUnion<N>(rows: set<Row<N>>, a: set<N>, b: set<N>)
    ensures Reach(rows, a + b) == Reach(rows, a) + Reach(rows, b)
  {
    ReachIsLeast(rows, a + b, Reach(rows, a) + Reach(rows, b));
    ReachMonotone(rows, rows, a, a + b);
    ReachMonotone(rows, rows, b, a + b);
  }

  // ----- lists as sets -----

  function Elements<T(==)>(s: seq<T>): set<T> { set x | x in s }

  lemma ElementsAppend<T>(s: seq<T>, t: seq<T>)
    ensures Elements(s + t) == Elements(s) + Elements(t)
  {
  }

  lemma ElementsLast<T>(s: seq<T>)
    requires s != []
    ensures Elements(s) == Elements(s[..|s| - 1]) + {s[|s| - 1]}
  {
    ElementsAppend(s[..|s| - 1], [s[|s| - 1]]);
    assert s == s[..|s| - 1] + [s[|s| - 1]];
  }

  /** A set in some order. */
  method Listing<T(==)>(s: set<T>) returns (q: seq<T>)
    ensures Elements(q) == s
  {
    q := [];
    var todo := s;
    while todo != {}
      invariant todo <= s && Elements(q) == s - todo
      decreases |todo|
    {
      var x :| x in todo;
      ElementsAppend(q, [x]);
      q, todo := q + [x], todo - {x};
    }
  }

  // ----- paths -----

  ghost predicate IsPath<N>(rows: set<Row<N>>, p: seq<N>) {
    |p| > 0 && forall i :: 0 <= i < |p| - 1 ==> Row(p[i], p[i + 1]) in rows
  }

  ghost predicate Connects<N>(rows: set<Row<N>>, p: seq<N>, seed: set<N>, x: N) {
    IsPath(rows, p) && p[0] in seed && p[|p| - 1] == x
  }

  /** A recursive query returns exactly the nodes some path leads to. */
  lemma ReachIffPath<N(!new)>(rows: set<Row<N>>, seed: set<N>, x: N)
    ensures x in Reach(rows, seed) <==> exists p :: Connects(rows, p, seed, x)
  {
    if p :| Connects(rows, p, seed, x) {
      PathStays(rows, p, Reach(rows, seed), |p| - 1);
    }
    if x in Reach(rows, seed) {
      var p := PathTo(rows, seed, x);
    }
  }

  lemma {:induction false} PathStays<N>(rows: set<Row<N>>, p: seq<N>, s: set<N>, i: nat)
    requires IsPath(rows, p) && i < |p| && p[0] in s && Closed(rows, s)
    ensures p[i] in s
  {
    if i > 0 {
      PathStays(rows, p, s, i - 1);
      assert Row(p[i - 1], p[i - 1 + 1]) in rows;
    }
  }

  lemma {:induction false} PathTo<N>(rows: set<Row<N>>, seed: set<N>, x: N) returns (p: seq<N>)
    requires x in Reach(rows, seed)
    ensures Connects(rows, p, seed, x)
    decreases |Targets(rows) - seed|
  {
    var next := seed + Step(rows, seed);
    if next == seed {
      p := [x];
    } else {
      StepShrinksRest(rows, seed);
      p := PathTo(rows, next, x);
      if p[0] !in seed {
        var r :| r in rows && r.src in seed && r.dst == p[0];
        var q := [r.src] + p;
        forall i | 0 <= i < |q| - 1 ensures Row(q[i], q[i + 1]) in rows {
          if i == 0 {
            assert Row(r.src, r.dst) in rows;
          } else {
            assert q[i] == p[i - 1] && q[i + 1] == p[i - 1 + 1];
          }
        }
        p := q;
      }
    }
  }

  // ----- direction and bounds -----

  function Flip<N(==)>(rows: set<Row<N>>): set<Row<N>> {
    set r | r in rows :: Row(r.dst, r.src)
  }

  lemma FlipRow<N>(rows: set<Row<N>>, a: N, b: N)
    ensures Row(a, b) in Flip(rows) <==> Row(b, a) in rows
  {
    if Row(b, a) in rows {
      var r := Row(b, a);
      assert Row(r.dst, r.src) in Flip(rows);
    }
  }

  /** `x` is found walking down from `y` exactly when `y` is found walking up from `x`. */
  lemma ReachConverse<N>(rows: set<Row<N>>, x: N, y: N)
    ensures x in Reach(rows, {y}) <==> y in Reach(Flip(rows), {x})
  {
    if x in Reach(rows, {y}) {
      Converse(rows, x, y);
    }
    if y in Reach(Flip(rows), {x}) {
      Converse(Flip(rows), y, x);
      FlipFlip(rows);
    }
  }

  lemma FlipFlip<N>(rows: set<Row<N>>)
    ensures Flip(Flip(rows)) == rows
  {
    forall r: Row<N> {:trigger r in rows} ensures r in Flip(Flip(rows)) <==> r in rows {
      FlipRow(rows, r.dst, r.src);
      FlipRow(Flip(rows), r.src, r.dst);
      assert r == Row(r.src, r.dst);
    }
  }

  lemma {:induction false} Converse<N>(rows: set<Row<N>>, x: N, y: N)
    requires x in Reach(rows, {y})
    ensures y in Reach(Flip(rows), {x})
  {
    var p := PathTo(rows, {y}, x);
    var up := Reach(Flip(rows), {x});
    var i := |p| - 1;
    while i > 0
      invariant 0 <= i < |p| && p[i] in up
    {
      i := i - 1;
      assert Row(p[i], p[i + 1]) in rows;
      FlipRow(rows, p[i + 1], p[i]);
    }
  }

  /** The rows a walk confined to `bound` may follow. */
  function Within<N>(rows: set<Row<N>>, bound: set<N>): set<Row<N>> {
    set r | r in rows && r.dst in bound
  }

  /** Inside a set closed under `rows`, the upward walk confined to the set finds
      exactly what the unconfined one finds there. */
  lemma UpwardWithin<N>(rows: set<Row<N>>, bound: set<N>, seed: set<N>)
    requires Closed(rows, bound)
    ensures Reach(Within(Flip(rows), bound), seed * bound) == Reach(Flip(rows), seed) * bound
  {
    var inner := Reach(Within(Flip(rows), bound), seed * bound);
    ReachMonotone(Within(Flip(rows), bound), Flip(rows), seed * bound, seed);
    ReachIsLeast(Within(Flip(rows), bound), seed * bound, bound);
    // What the outer walk finds is either outside the bound or already inner.
    var all := Reach(Flip(rows), seed);
    var t := all - (bound - inner);
    forall r | r in Flip(rows) && r.src in t ensures r.dst in t {
      if r.dst in bound {
        FlipRow(rows, r.src, r.dst);
        assert Row(r.dst, r.src) in rows;
        assert r.src in inner;
        assert r in Within(Flip(rows), bound);
      }
    }
    ReachIsLeast(Flip(rows), seed, t);
  }
}
