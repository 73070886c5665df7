/** Derived trust flags over a graph, and the CLEAR-then-SET loop that re-derives
    them.

    Each of the three flag families of the build graph has a gate of one shape: a
    row's own facts hold and every row it needs is flagged. `System` is that shape.
    The loop first clears flags whose gate fails until nothing changes, then sets
    flags whose gate holds until nothing changes, optionally confined to `bound`. */
module FlagFixpoint {
  import opened Walks

  /** `local`: rows whose own facts pass the gate. `needs`: the flags a row's gate reads. */
  datatype System<N> = System(local: set<N>, needs: set<Row<N>>)

  /** The gate of row `n` under `flags`. */
  predicate Holds<N(==)>(sys: System<N>, flags: set<N>, n: N) {
    n in sys.local && forall r | r in sys.needs && r.src == n :: r.dst in flags
  }

  /** The rows one CLEAR statement resets. */
  function Stale<N(==)>(sys: System<N>, bound: set<N>, flags: set<N>): set<N> {
    set n | n in flags && n in bound && !Holds(sys, flags, n)
  }

  /** The rows one SET statement marks. */
  function Fresh<N(==)>(sys: System<N>, bound: set<N>, flags: set<N>): set<N> {
    set n | n in sys.local && n in bound && n !in flags && Holds(sys, flags, n)
  }

  function ClearFix<N(==)>(sys: System<N>, bound: set<N>, flags: set<N>): set<N>
    decreases |flags|
  {
    var stale := Stale(sys, bound, flags);
    if stale == {} then flags
    else
      RemoveShrinks(flags, stale);
      ClearFix(sys, bound, flags - stale)
  }

  function SetFix<N(==)>(sys: System<N>, bound: set<N>, flags: set<N>): set<N>
    decreases |sys.local - flags|
  {
    var due := Fresh(sys, bound, flags);
    if due == {} then flags
    else
      assert sys.local - (flags + due) == (sys.local - flags) - due;
      RemoveShrinks(sys.local - flags, due);
      SetFix(sys, bound, flags + due)
  }

  function Fix<N(==)>(sys: System<N>, bound: set<N>, flags: set<N>): set<N> {
    SetFix(sys, bound, ClearFix(sys, bound, flags))
  }

  lemma RemoveShrinks<N>(s: set<N>, gone: set<N>)
    requires gone <= s && gone != {}
    ensures |s - gone| < |s|
  {
    var x :| x in gone;
    SubsetCard(s - gone, s - {x});
  }

  /** The gate is monotone in the flags it reads. */
  lemma HoldsMonotone<N>(sys: System<N>, f: set<N>, g: set<N>, n: N)
    requires f <= g && Holds(sys, f, n)
    ensures Holds(sys, g, n)
  {
  }

  // ----- what each half of the loop computes, on any graph -----

  lemma {:induction false} ClearFixFacts<N>(sys: System<N>, bound: set<N>, flags: set<N>)
    ensures ClearFix(sys, bound, flags) <= flags
    ensures flags - bound <= ClearFix(sys, bound, flags)
    ensures Stale(sys, bound, ClearFix(sys, bound, flags)) == {}
    decreases |flags|
  {
    var stale := Stale(sys, bound, flags);
    if stale != {} {
      RemoveShrinks(flags, stale);
      ClearFixFacts(sys, bound, flags - stale);
    }
  }

  /** CLEAR keeps every self-supporting set of flags it started with. */
  lemma {:induction false} ClearFixGreatest<N>(sys: System<N>, bound: set<N>, flags: set<N>, z: set<N>)
    requires z <= flags && Stale(sys, bound, z) == {}
    ensures z <= ClearFix(sys, bound, flags)
    decreases |flags|
  {
    var stale := Stale(sys, bound, flags);
    if stale != {} {
      forall n | n in z ensures n !in stale {
        if n in stale {
          assert n !in Stale(sys, bound, z);
          HoldsMonotone(sys, z, flags, n);
        }
      }
      RemoveShrinks(flags, stale);
      ClearFixGreatest(sys, bound, flags - stale, z);
    }
  }

  lemma {:induction false} SetFixFacts<N>(sys: System<N>, bound: set<N>, flags: set<N>)
    ensures flags <= SetFix(sys, bound, flags) <= flags + bound * sys.local
    ensures Fresh(sys, bound, SetFix(sys, bound, flags)) == {}
    ensures Stale(sys, bound, flags) == {} ==> Stale(sys, bound, SetFix(sys, bound, flags)) == {}
    decreases |sys.local - flags|
  {
    var due := Fresh(sys, bound, flags);
    if due != {} {
      assert sys.local - (flags + due) == (sys.local - flags) - due;
      RemoveShrinks(sys.local - flags, due);
      if Stale(sys, bound, flags) == {} {
        forall n | n in flags + due && n in bound ensures Holds(sys, flags + due, n) {
          assert n !in Stale(sys, bound, flags);
          HoldsMonotone(sys, flags, flags + due, n);
        }
        assert Stale(sys, bound, flags + due) == {};
      }
      SetFixFacts(sys, bound, flags + due);
    }
  }

  /** SET marks nothing that is not forced by the flags it started with. */
  lemma {:induction false} SetFixLeast<N>(sys: System<N>, bound: set<N>, flags: set<N>, z: set<N>)
    requires flags <= z && Fresh(sys, bound, z) == {}
    ensures SetFix(sys, bound, flags) <= z
    decreases |sys.local - flags|
  {
    var due := Fresh(sys, bound, flags);
    if due != {} {
      forall n | n in due ensures n in z {
        HoldsMonotone(sys, flags, z, n);
        assert n !in Fresh(sys, bound, z);
      }
      assert sys.local - (flags + due) == (sys.local - flags) - due;
      RemoveShrinks(sys.local - flags, due);
      SetFixLeast(sys, bound, flags + due, z);
    }
  }

  ghost predicate Converged<N>(sys: System<N>, bound: set<N>, flags: set<N>) {
    forall n :: n in bound ==> (n in flags <==> Holds(sys, flags, n))
  }

  ghost predicate Sound<N>(sys: System<N>, flags: set<N>) {
    forall n :: n in flags ==> Holds(sys, flags, n)
  }

  /** From any flags on any graph, cycles included, the loop ends with flag and gate
      equal inside the bound and leaves everything outside it alone. */
  lemma FixConverges<N>(sys: System<N>, bound: set<N>, flags: set<N>)
    ensures Converged(sys, bound, Fix(sys, bound, flags))
    ensures Fix(sys, bound, flags) - bound == flags - bound
    ensures Fix(sys, bound, flags) <= flags + bound * sys.local
  {
    var low := ClearFix(sys, bound, flags);
    ClearFixFacts(sys, bound, flags);
    SetFixFacts(sys, bound, low);
    var top := Fix(sys, bound, flags);
    forall n | n in bound ensures n in top <==> Holds(sys, top, n) {
      assert n !in Stale(sys, bound, top) && n !in Fresh(sys, bound, top);
    }
  }

  /** A converged family is left as it is: two zero-row statements. */
  lemma FixOfConverged<N>(sys: System<N>, bound: set<N>, flags: set<N>)
    requires Converged(sys, bound, flags)
    ensures Fix(sys, bound, flags) == flags
  {
    assert Stale(sys, bound, flags) == {};
    assert Fresh(sys, bound, flags) == {};
  }

  lemma FixMonotone<N>(sys: System<N>, bound: set<N>, f: set<N>, g: set<N>)
    requires f <= g
    ensures Fix(sys, bound, f) <= Fix(sys, bound, g)
  {
    ClearFixFacts(sys, bound, f);
    ClearFixGreatest(sys, bound, g, ClearFix(sys, bound, f));
    SetFixFacts(sys, bound, ClearFix(sys, bound, g));
    SetFixLeast(sys, bound, ClearFix(sys, bound, f), Fix(sys, bound, g));
  }

  // ----- acyclic graphs: one answer, whatever the flags and the bound -----

  ghost predicate Ranked<N(!new)>(rows: set<Row<N>>, rank: N -> nat) {
    forall r :: r in rows ==> rank(r.dst) < rank(r.src)
  }

  /** The meaning of a flag by recursion down the graph: own facts, and truth below. */
  ghost predicate GroundTruth<N(!new)>(sys: System<N>, rank: N -> nat, n: N)
    requires Ranked(sys.needs, rank)
    decreases rank(n)
  {
    n in sys.local && forall r :: r in sys.needs && r.src == n ==> GroundTruth(sys, rank, r.dst)
  }

  lemma {:induction false} ConvergedIsTruth<N(!new)>(
      sys: System<N>, rank: N -> nat, bound: set<N>, flags: set<N>, n: N)
    requires Ranked(sys.needs, rank) && Closed(sys.needs, bound)
    requires Converged(sys, bound, flags) && n in bound
    ensures n in flags <==> GroundTruth(sys, rank, n)
    decreases rank(n)
  {
    forall r | r in sys.needs && r.src == n
      ensures r.dst in flags <==> GroundTruth(sys, rank, r.dst)
    {
      ConvergedIsTruth(sys, rank, bound, flags, r.dst);
    }
  }

  /** Without recursion: a row is true when every row it needs, however far down, passes its own
      facts. */
  lemma {:induction false} TruthIsReach<N(!new)>(sys: System<N>, rank: N -> nat, n: N)
    requires Ranked(sys.needs, rank)
    ensures GroundTruth(sys, rank, n) <==> Reach(sys.needs, {n}) <= sys.local
    decreases rank(n)
  {
    if GroundTruth(sys, rank, n) {
      var below := Reach(sys.needs, {n});
      ReachIsLeast(sys.needs, {n}, set m | m in below && GroundTruth(sys, rank, m));
    }
    if Reach(sys.needs, {n}) <= sys.local {
      forall r | r in sys.needs && r.src == n ensures GroundTruth(sys, rank, r.dst) {
        ReachIsLeast(sys.needs, {r.dst}, Reach(sys.needs, {n}));
        TruthIsReach(sys, rank, r.dst);
      }
    }
  }

  /** A converged table holds the ground truth of every node, also of nodes without a row. */
  lemma TableIsTruth<N(!new)>(sys: System<N>, rank: N -> nat, nodes: set<N>, flags: set<N>, n: N)
    requires Ranked(sys.needs, rank) && Converged(sys, nodes, flags)
    requires flags <= nodes && sys.local <= nodes
    ensures n in flags <==> GroundTruth(sys, rank, n)
  {
    var wide := nodes + Targets(sys.needs) + {n};
    assert Closed(sys.needs, wide);
    ConvergedIsTruth(sys, rank, wide, flags, n);
  }

  lemma TableIsReach<N(!new)>(sys: System<N>, rank: N -> nat, nodes: set<N>, flags: set<N>, n: N)
    requires Ranked(sys.needs, rank) && Converged(sys, nodes, flags)
    requires flags <= nodes && sys.local <= nodes
    ensures n in flags <==> Reach(sys.needs, {n}) <= sys.local
  {
    TableIsTruth(sys, rank, nodes, flags, n);
    TruthIsReach(sys, rank, n);
  }

  /** On an acyclic graph a pass confined to a needs-closed bound gives, inside the
      bound, the answer of a pass over the whole table from any other flags: the ground
      truth. */
  lemma ScopedIsGlobal<N(!new)>(
      sys: System<N>, rank: N -> nat, bound: set<N>, flags: set<N>, nodes: set<N>, others: set<N>)
    requires Ranked(sys.needs, rank) && Closed(sys.needs, bound)
    requires sys.local <= nodes && others <= nodes
    ensures Fix(sys, bound, flags) * bound == Fix(sys, nodes, others) * bound
    ensures forall n :: n in bound ==> (n in Fix(sys, bound, flags) <==> GroundTruth(sys, rank, n))
  {
    FixConverges(sys, bound, flags);
    FixConverges(sys, nodes, others);
    forall n | n in bound
      ensures n in Fix(sys, bound, flags) <==> GroundTruth(sys, rank, n)
      ensures n in Fix(sys, nodes, others) <==> GroundTruth(sys, rank, n)
    {
      ConvergedIsTruth(sys, rank, bound, Fix(sys, bound, flags), n);
      TableIsTruth(sys, rank, nodes, Fix(sys, nodes, others), n);
    }
  }

  // ----- cyclic graphs: when the starting flags matter -----

  /** A row that needs itself through a chain of needs, and below which every row passes
      its own facts inside the bound. */
  ghost predicate SelfSupporting<N>(sys: System<N>, bound: set<N>, n: N) {
    n in Reach(sys.needs, Step(sys.needs, {n})) && Reach(sys.needs, {n}) <= sys.local * bound
  }

  /** Exactly when the loop forgets the flags it started from: when no row supports itself. */
  lemma StartIrrelevantIff<N(!new)>(sys: System<N>, bound: set<N>)
    ensures (forall f :: f <= bound ==> Fix(sys, bound, f) == Fix(sys, bound, {}))
            <==> !exists n :: SelfSupporting(sys, bound, n)
  {
    if n :| SelfSupporting(sys, bound, n) {
      var f := Reach(sys.needs, {n});
      assert Stale(sys, bound, f) == {};
      ClearFixGreatest(sys, bound, f, f);
      SetFixFacts(sys, bound, ClearFix(sys, bound, f));
      assert n in Fix(sys, bound, f);
      SelfNeverFromNothing(sys, bound, n);
    } else {
      forall f | f <= bound ensures Fix(sys, bound, f) == Fix(sys, bound, {}) {
        FixMonotone(sys, bound, {}, f);
        FixMonotone(sys, bound, f, bound);
        AllFromNothing(sys, bound);
      }
    }
  }

  /** What CLEAR leaves of a full bound: the rows whose every need, however far, passes. */
  lemma ClearFixOfBound<N>(sys: System<N>, bound: set<N>, n: N)
    ensures n in ClearFix(sys, bound, bound) <==> Reach(sys.needs, {n}) <= sys.local * bound
  {
    var low := ClearFix(sys, bound, bound);
    ClearFixFacts(sys, bound, bound);
    if n in low {
      forall r | r in sys.needs && r.src in low ensures r.dst in low { assert r.src !in Stale(sys, bound, low); }
      ReachIsLeast(sys.needs, {n}, low);
      forall x | x in low ensures x in sys.local { assert x !in Stale(sys, bound, low); }
    }
    if Reach(sys.needs, {n}) <= sys.local * bound {
      assert Stale(sys, bound, Reach(sys.needs, {n})) == {};
      ClearFixGreatest(sys, bound, bound, Reach(sys.needs, {n}));
    }
  }

  /** A row on a chain of needs that leads back to it is never set from nothing. */
  lemma SelfNeverFromNothing<N>(sys: System<N>, bound: set<N>, n: N)
    requires n in Reach(sys.needs, Step(sys.needs, {n}))
    ensures n !in Fix(sys, bound, {})
  {
    var top := Fix(sys, bound, {});
    SetFixFacts(sys, bound, {});
    var z := set x | x in top && n !in Reach(sys.needs, {x});
    forall x | x in Fresh(sys, bound, z) ensures false {
      HoldsMonotone(sys, z, top, x);
      assert x !in Fresh(sys, bound, top);
      assert n in Reach(sys.needs, {x});
      var r := FirstNeed(sys.needs, x, n);
    }
    SetFixLeast(sys, bound, {}, z);
  }

  /** A node reached from `x`, other than by staying there, is reached through one row. */
  lemma FirstNeed<N>(rows: set<Row<N>>, x: N, n: N) returns (r: Row<N>)
    requires n in Reach(rows, {x}) && (n == x ==> n in Reach(rows, Step(rows, {x})))
    ensures r in rows && r.src == x && n in Reach(rows, {r.dst})
  {
    if n != x { ReachBelow(rows, x); }
    var p := PathTo(rows, Step(rows, {x}), n);
    PathStays(rows, p, Reach(rows, {p[0]}), |p| - 1);
    r :| r in rows && r.src in {x} && r.dst == p[0];
  }

  lemma ReachBelow<N>(rows: set<Row<N>>, x: N)
    ensures Reach(rows, {x}) <= {x} + Reach(rows, Step(rows, {x}))
  {
    var t := {x} + Reach(rows, Step(rows, {x}));
    forall r | r in rows && r.src in t ensures r.dst in t {
      if r.src == x { assert r.dst in Step(rows, {x}); }
    }
    ReachIsLeast(rows, {x}, t);
  }

  /** Without a row that supports itself, what CLEAR keeps of everything is set from nothing. */
  lemma AllFromNothing<N>(sys: System<N>, bound: set<N>)
    requires forall n :: !SelfSupporting(sys, bound, n)
    ensures Fix(sys, bound, bound) <= Fix(sys, bound, {})
  {
    forall n | n in ClearFix(sys, bound, bound) ensures n in Fix(sys, bound, {}) {
      ClearFixOfBound(sys, bound, n);
      SetFromNothing(sys, bound, n);
    }
    FixConverges(sys, bound, {});
    SetFixFacts(sys, bound, ClearFix(sys, bound, {}));
    SetFixLeast(sys, bound, ClearFix(sys, bound, bound), Fix(sys, bound, {}));
  }

  lemma {:induction false} SetFromNothing<N>(sys: System<N>, bound: set<N>, n: N)
    requires forall x :: !SelfSupporting(sys, bound, x)
    requires Reach(sys.needs, {n}) <= sys.local * bound
    ensures n in Fix(sys, bound, {})
    decreases |Reach(sys.needs, {n})|
  {
    forall r | r in sys.needs && r.src == n ensures r.dst in Fix(sys, bound, {}) {
      NeedIsSmaller(sys, bound, r);
      SetFromNothing(sys, bound, r.dst);
    }
    FixConverges(sys, bound, {});
  }

  lemma NeedIsSmaller<N>(sys: System<N>, bound: set<N>, r: Row<N>)
    requires r in sys.needs && !SelfSupporting(sys, bound, r.src)
    requires Reach(sys.needs, {r.src}) <= sys.local * bound
    ensures Reach(sys.needs, {r.dst}) <= Reach(sys.needs, {r.src})
    ensures |Reach(sys.needs, {r.dst})| < |Reach(sys.needs, {r.src})|
  {
    var below := Reach(sys.needs, {r.src});
    ReachIsLeast(sys.needs, {r.dst}, below);
    assert r.dst in Step(sys.needs, {r.src});
    ReachIsLeast(sys.needs, {r.dst}, Reach(sys.needs, Step(sys.needs, {r.src})));
    SubsetCard(Reach(sys.needs, {r.dst}), below - {r.src});
  }

  /** Two rows that need each other keep a stale flag: CLEAR sees each supported by
      the other, although nothing outside the pair supports either. */
  lemma CycleKeepsStaleFlags()
    ensures var sys := System({0, 1}, {Row(0, 1), Row(1, 0)});
            Fix(sys, {0, 1}, {0, 1}) == {0, 1} && Fix(sys, {0, 1}, {}) == {}
  {
    var sys := System({0, 1}, {Row(0, 1), Row(1, 0)});
    assert Row(0, 1) in sys.needs && Row(1, 0) in sys.needs;
    assert Converged(sys, {0, 1}, {0, 1});
    FixOfConverged(sys, {0, 1}, {0, 1});
    assert Converged(sys, {0, 1}, {});
    FixOfConverged(sys, {0, 1}, {});
  }

  // ----- the incremental up-ripple -----

  /** One round of the ripple: candidates whose gate now holds. */
  function Newly<N(==)>(sys: System<N>, flags: set<N>, frontier: set<N>): set<N> {
    set n | n in frontier && n !in flags && Holds(sys, flags, n)
  }

  /** As long as the frontier holds every satisfied unmarked row, a ripple round marks
      what a full SET round marks, and the rows needing a newly marked one are the
      only possible candidates of the next round. */
  lemma RippleRound<N>(sys: System<N>, nodes: set<N>, flags: set<N>, frontier: set<N>, edges: set<Row<N>>)
    requires sys.local <= nodes && sys.needs <= edges
    requires Fresh(sys, nodes, flags) <= frontier
    ensures Newly(sys, flags, frontier) == Fresh(sys, nodes, flags)
    ensures Fresh(sys, nodes, flags + Newly(sys, flags, frontier))
            <= Step(Flip(edges), Newly(sys, flags, frontier))
  {
    var newly := Newly(sys, flags, frontier);
    forall n | n in Fresh(sys, nodes, flags + newly) ensures n in Step(Flip(edges), newly) {
      assert n !in Fresh(sys, nodes, flags);
      var r :| r in sys.needs && r.src == n && r.dst !in flags;
      FlipRow(edges, r.dst, n);
      var up := Row(r.dst, n);
      assert up in Flip(edges) && up.src in newly;
    }
  }

  /** The frontier loop: mark, then look only at the rows that need what was marked. */
  function Ripple<N(==)>(sys: System<N>, edges: set<Row<N>>, flags: set<N>, frontier: set<N>): set<N>
    decreases |sys.local - flags|
  {
    var newly := Newly(sys, flags, frontier);
    if newly == {} then flags
    else
      assert sys.local - (flags + newly) == (sys.local - flags) - newly;
      RemoveShrinks(sys.local - flags, newly);
      Ripple(sys, edges, flags + newly, Step(Flip(edges), newly))
  }

  /** From a frontier that holds every satisfied unmarked row, the ripple is a full SET
      pass over the table. */
  lemma {:induction false} RippleIsSetFix<N>(
      sys: System<N>, nodes: set<N>, edges: set<Row<N>>, flags: set<N>, frontier: set<N>)
    requires sys.local <= nodes && sys.needs <= edges
    requires Fresh(sys, nodes, flags) <= frontier
    ensures Ripple(sys, edges, flags, frontier) == SetFix(sys, nodes, flags)
    decreases |sys.local - flags|
  {
    var newly := Newly(sys, flags, frontier);
    RippleRound(sys, nodes, flags, frontier, edges);
    if newly != {} {
      assert sys.local - (flags + newly) == (sys.local - flags) - newly;
      RemoveShrinks(sys.local - flags, newly);
      RippleIsSetFix(sys, nodes, edges, flags + newly, Step(Flip(edges), newly));
    }
  }

  /** The ripple never looks beyond the rows above its first frontier. */
  lemma {:induction false} RippleStaysAbove<N>(
      sys: System<N>, edges: set<Row<N>>, flags: set<N>, frontier: set<N>)
    ensures Ripple(sys, edges, flags, frontier) <= flags + Reach(Flip(edges), frontier)
    decreases |sys.local - flags|
  {
    var newly := Newly(sys, flags, frontier);
    if newly != {} {
      assert sys.local - (flags + newly) == (sys.local - flags) - newly;
      RemoveShrinks(sys.local - flags, newly);
      RippleStaysAbove(sys, edges, flags + newly, Step(Flip(edges), newly));
      ReachIsLeast(Flip(edges), Step(Flip(edges), newly), Reach(Flip(edges), frontier));
    }
  }

  // ----- exactly when the ripple is the SET pass -----

  lemma {:induction false} RippleGrows<N>(sys: System<N>, edges: set<Row<N>>, flags: set<N>, frontier: set<N>)
    ensures flags + Newly(sys, flags, frontier) <= Ripple(sys, edges, flags, frontier) <= flags + sys.local
    decreases |sys.local - flags|
  {
    var newly := Newly(sys, flags, frontier);
    if newly != {} {
      assert sys.local - (flags + newly) == (sys.local - flags) - newly;
      RemoveShrinks(sys.local - flags, newly);
      RippleGrows(sys, edges, flags + newly, Step(Flip(edges), newly));
    }
  }

  /** The ripple marks nothing that SET would not. */
  lemma {:induction false} RippleBelowSetFix<N>(
      sys: System<N>, nodes: set<N>, edges: set<Row<N>>, flags: set<N>, frontier: set<N>, z: set<N>)
    requires sys.local <= nodes && flags <= z && Fresh(sys, nodes, z) == {}
    ensures Ripple(sys, edges, flags, frontier) <= z
    decreases |sys.local - flags|
  {
    var newly := Newly(sys, flags, frontier);
    if newly != {} {
      forall n | n in newly ensures n in z {
        HoldsMonotone(sys, flags, z, n);
        assert n !in Fresh(sys, nodes, z);
      }
      assert sys.local - (flags + newly) == (sys.local - flags) - newly;
      RemoveShrinks(sys.local - flags, newly);
      RippleBelowSetFix(sys, nodes, edges, flags + newly, Step(Flip(edges), newly), z);
    }
  }

  lemma UpStep<N>(edges: set<Row<N>>, n: N, m: N, from: set<N>)
    requires Row(n, m) in edges && m in from
    ensures n in Step(Flip(edges), from)
  {
    FlipRow(edges, m, n);
    var up := Row(m, n);
    assert up in Flip(edges) && up.src in from;
  }

  lemma UpStepEdge<N>(edges: set<Row<N>>, n: N, from: set<N>) returns (m: N)
    requires n in Step(Flip(edges), from)
    ensures m in from && Row(n, m) in edges
  {
    var up :| up in Flip(edges) && up.src in from && up.dst == n;
    FlipRow(edges, up.src, n);
    m := up.src;
  }

  /** A row outside the first frontier is marked only behind one of its own edges. */
  lemma {:induction false} RippleEnters<N>(
      sys: System<N>, edges: set<Row<N>>, flags: set<N>, frontier: set<N>, n: N) returns (m: N)
    requires n in Ripple(sys, edges, flags, frontier) && n !in flags && n !in frontier
    ensures Row(n, m) in edges && m in Ripple(sys, edges, flags, frontier) && m !in flags
    decreases |sys.local - flags|
  {
    var newly := Newly(sys, flags, frontier);
    assert sys.local - (flags + newly) == (sys.local - flags) - newly;
    RemoveShrinks(sys.local - flags, newly);
    RippleGrows(sys, edges, flags, frontier);
    if n in Step(Flip(edges), newly) {
      m := UpStepEdge(edges, n, newly);
    } else {
      m := RippleEnters(sys, edges, flags + newly, Step(Flip(edges), newly), n);
    }
  }

  /** A satisfied row is marked once one of its edges leads to a row the ripple marks. */
  lemma {:induction false} RippleCatches<N>(
      sys: System<N>, edges: set<Row<N>>, flags: set<N>, frontier: set<N>, n: N, m: N)
    requires Holds(sys, flags, n) && Row(n, m) in edges
    requires m in Ripple(sys, edges, flags, frontier) && m !in flags
    ensures n in Ripple(sys, edges, flags, frontier)
    decreases |sys.local - flags|
  {
    var newly := Newly(sys, flags, frontier);
    assert sys.local - (flags + newly) == (sys.local - flags) - newly;
    RemoveShrinks(sys.local - flags, newly);
    HoldsMonotone(sys, flags, flags + newly, n);
    var next := Step(Flip(edges), newly);
    if m in newly {
      UpStep(edges, n, m, newly);
      RippleGrows(sys, edges, flags + newly, next);
    } else {
      RippleCatches(sys, edges, flags + newly, next, n, m);
    }
  }

  /** A row that was not satisfied at first is marked as soon as it is. */
  lemma {:induction false} RippleFollows<N>(
      sys: System<N>, edges: set<Row<N>>, flags: set<N>, frontier: set<N>, n: N)
    requires sys.needs <= edges && !Holds(sys, flags, n)
    requires Holds(sys, Ripple(sys, edges, flags, frontier), n)
    ensures n in Ripple(sys, edges, flags, frontier)
    decreases |sys.local - flags|
  {
    var newly := Newly(sys, flags, frontier);
    assert sys.local - (flags + newly) == (sys.local - flags) - newly;
    RemoveShrinks(sys.local - flags, newly);
    var next := Step(Flip(edges), newly);
    if Holds(sys, flags + newly, n) {
      var r :| r in sys.needs && r.src == n && r.dst !in flags;
      assert r == Row(n, r.dst);
      UpStep(edges, n, r.dst, newly);
      RippleGrows(sys, edges, flags + newly, next);
    } else {
      RippleFollows(sys, edges, flags + newly, next, n);
    }
  }

  /** What SET adds is satisfied in the end. */
  lemma {:induction false} SetFixSupported<N>(sys: System<N>, bound: set<N>, flags: set<N>, n: N)
    requires n in SetFix(sys, bound, flags) && n !in flags
    ensures Holds(sys, SetFix(sys, bound, flags), n)
    decreases |sys.local - flags|
  {
    var due := Fresh(sys, bound, flags);
    assert sys.local - (flags + due) == (sys.local - flags) - due;
    RemoveShrinks(sys.local - flags, due);
    SetFixFacts(sys, bound, flags + due);
    if n in due {
      HoldsMonotone(sys, flags, SetFix(sys, bound, flags), n);
    } else {
      SetFixSupported(sys, bound, flags + due, n);
    }
  }

  lemma FreshIsSet<N>(sys: System<N>, bound: set<N>, flags: set<N>)
    ensures Fresh(sys, bound, flags) <= SetFix(sys, bound, flags)
  {
    var top := SetFix(sys, bound, flags);
    SetFixFacts(sys, bound, flags);
    forall n | n in Fresh(sys, bound, flags) ensures n in top {
      HoldsMonotone(sys, flags, top, n);
      assert n !in Fresh(sys, bound, top);
    }
  }

  /** On any graph: when the rows the frontier misses have only marked rows below them, the
      ripple is the SET pass exactly when it misses none. */
  lemma RippleIsSetFixIff<N>(sys: System<N>, nodes: set<N>, edges: set<Row<N>>, flags: set<N>, frontier: set<N>)
    requires sys.local <= nodes && sys.needs <= edges
    requires forall r :: r in edges && r.src in Fresh(sys, nodes, flags) - frontier ==> r.dst in flags
    ensures Ripple(sys, edges, flags, frontier) == SetFix(sys, nodes, flags)
            <==> Fresh(sys, nodes, flags) <= frontier
  {
    FreshIsSet(sys, nodes, flags);
    if Fresh(sys, nodes, flags) <= frontier {
      RippleIsSetFix(sys, nodes, edges, flags, frontier);
    } else if Ripple(sys, edges, flags, frontier) == SetFix(sys, nodes, flags) {
      var n :| n in Fresh(sys, nodes, flags) && n !in frontier;
      var m := RippleEnters(sys, edges, flags, frontier, n);
    }
  }

  /** On an acyclic graph, with no other condition: the ripple is the SET pass exactly when
      every satisfied unmarked row it does not start from has an edge to a row SET marks. */
  lemma RippleIsSetFixRankedIff<N(!new)>(
      sys: System<N>, nodes: set<N>, edges: set<Row<N>>, rank: N -> nat, flags: set<N>, frontier: set<N>)
    requires sys.local <= nodes && sys.needs <= edges && Ranked(edges, rank)
    ensures Ripple(sys, edges, flags, frontier) == SetFix(sys, nodes, flags)
            <==> forall n :: n in Fresh(sys, nodes, flags) - frontier ==> LeadsToNew(sys, nodes, edges, flags, n)
  {
    var top, got := SetFix(sys, nodes, flags), Ripple(sys, edges, flags, frontier);
    FreshIsSet(sys, nodes, flags);
    SetFixFacts(sys, nodes, flags);
    RippleBelowSetFix(sys, nodes, edges, flags, frontier, top);
    if got == top {
      forall n | n in Fresh(sys, nodes, flags) - frontier ensures LeadsToNew(sys, nodes, edges, flags, n) {
        var m := RippleEnters(sys, edges, flags, frontier, n);
      }
    }
    if forall n :: n in Fresh(sys, nodes, flags) - frontier ==> LeadsToNew(sys, nodes, edges, flags, n) {
      forall n | n in top ensures n in got { RippleReaches(sys, nodes, edges, rank, flags, frontier, n); }
    }
  }

  ghost predicate LeadsToNew<N>(sys: System<N>, nodes: set<N>, edges: set<Row<N>>, flags: set<N>, n: N) {
    exists m :: Row(n, m) in edges && m in SetFix(sys, nodes, flags) - flags
  }

  lemma {:induction false} RippleReaches<N(!new)>(
      sys: System<N>, nodes: set<N>, edges: set<Row<N>>, rank: N -> nat, flags: set<N>, frontier: set<N>, n: N)
    requires sys.needs <= edges && Ranked(edges, rank) && n in SetFix(sys, nodes, flags)
    requires forall x :: x in Fresh(sys, nodes, flags) - frontier ==> LeadsToNew(sys, nodes, edges, flags, x)
    ensures n in Ripple(sys, edges, flags, frontier)
    decreases rank(n)
  {
    var got := Ripple(sys, edges, flags, frontier);
    RippleGrows(sys, edges, flags, frontier);
    if n !in flags && n !in got {
      SetFixFacts(sys, nodes, flags);
      SetFixSupported(sys, nodes, flags, n);
      if Holds(sys, flags, n) {
        assert n in Fresh(sys, nodes, flags) - frontier;
        assert LeadsToNew(sys, nodes, edges, flags, n);
        var m :| Row(n, m) in edges && m in SetFix(sys, nodes, flags) - flags;
        assert rank(Row(n, m).dst) < rank(Row(n, m).src);
        RippleReaches(sys, nodes, edges, rank, flags, frontier, m);
        RippleCatches(sys, edges, flags, frontier, n, m);
      } else {
        forall r | r in sys.needs && r.src == n ensures r.dst in got {
          RippleReaches(sys, nodes, edges, rank, flags, frontier, r.dst);
        }
        RippleFollows(sys, edges, flags, frontier, n);
      }
    }
  }
}
