/** Dispatch safety: an anchor the dispatch query returns has its inputs, at the end of
    every run of the system whose last step re-derived the anchor flags. */
module Dispatch {
  import opened Walks
  import opened FlagFixpoint
  import opened Tables
  import opened Wrappers
  import opened Gates
  import opened Promotion
  import opened CacheStorage
  import opened Reconcile
  import UpRipple = Ripple

  /** A worker can obtain the outputs of `m`: from an upstream, from our cache, or from
      our cache with the whole reference closure of a path we never built. */
  ghost predicate Available(db: Db, m: DrvId) {
    m in db.anchors
    && (|| db.anchors[m].substitutable
        || (db.anchors[m].status == Completed && OutputsBacked(db, m))
        || (db.anchors[m].status == Substituted
            && forall o :: o in db.outputs && o.derivation == m ==> ClosureBacked(db, o.hash)))
  }

  /** A path is in the cache with everything it refers to, transitively. */
  ghost predicate ClosureBacked(db: Db, h: Hash) { forall x :: x in Reach(db.refs, {h}) ==> Backed(db, x) }

  /** Dependency edges out of anchors we built ourselves: the closure a build reads. */
  function BuiltEdges(db: Db): set<Row<DrvId>> {
    set r | r in db.edges && r.src in db.anchors && !db.anchors[r.src].substitutable
            && db.anchors[r.src].status == Completed
  }

  /** The inputs of `d`: its dependencies, and on through everything we built. */
  function Inputs(db: Db, d: DrvId): set<DrvId> { Reach(BuiltEdges(db), Step(db.edges, {d})) }

  ghost predicate SoundOn<N>(sys: System<N>, region: set<N>, flags: set<N>) {
    forall n :: n in flags && n in region ==> Holds(sys, flags, n)
  }

  /** Both anchor flags can be trusted below `d`. */
  ghost predicate FlagsSoundBelow(db: Db, d: DrvId) {
    && SoundOn(ClosureSystem(db), Reach(db.edges, {d}), ClosureFlags(db))
    && SoundOn(DrvSystem(db), Reach(db.edges, {d}), DrvFlags(db))
  }

  /** A complete path is backed with everything it refers to, transitively. */
  lemma CompletePathClosureBacked(db: Db, h: Hash)
    requires PathsSound(db) && h in db.paths && db.paths[h].closureComplete
    ensures ClosureBacked(db, h)
  {
    var t := PathFlags(db);
    forall r | r in db.refs && r.src in t ensures r.dst in t {
      assert PathGate(db, r.src);
    }
    ReachIsLeast(db.refs, {h}, t);
    forall x | x in Reach(db.refs, {h}) ensures Backed(db, x) { assert PathGate(db, x); }
  }

  lemma ReadyDepAvailable(db: Db, m: DrvId)
    requires PathsSound(db) && DepReady(db, m)
    requires m in ClosureFlags(db) ==> Holds(ClosureSystem(db), ClosureFlags(db), m)
    ensures Available(db, m)
  {
    if !db.anchors[m].substitutable && db.anchors[m].status == Substituted {
      assert ClosureLocal(db, m);
      forall o | o in db.outputs && o.derivation == m ensures ClosureBacked(db, o.hash) {
        CompletePathClosureBacked(db, o.hash);
      }
    }
  }

  lemma InputsReady(db: Db, d: DrvId)
    requires SoundOn(ClosureSystem(db), Reach(db.edges, {d}), ClosureFlags(db))
    requires DepsReady(db, d)
    ensures forall m :: m in Inputs(db, d) ==> DepReady(db, m) && m in Reach(db.edges, {d})
  {
    var below := Reach(db.edges, {d});
    var t := set m | m in below && DepReady(db, m);
    forall r | r in BuiltEdges(db) && r.src in t ensures r.dst in t {
      assert r.src in ClosureFlags(db);
      ClosureGateIsSystem(db, r.src);
      if r.dst in ClosureFlags(db) {
        assert Holds(ClosureSystem(db), ClosureFlags(db), r.dst);
      }
    }
    ReachIsLeast(BuiltEdges(db), Step(db.edges, {d}), t);
  }

  /** The `.drv` closure of an anchor flagged `drv_closure_cached` is all in the cache. */
  lemma DrvClosureBacked(db: Db, d: DrvId, m: DrvId)
    requires SoundOn(DrvSystem(db), Reach(db.edges, {d}), DrvFlags(db))
    requires d in DrvFlags(db) && m in Reach(db.edges, {d})
    ensures DrvBacked(db, m)
  {
    var below := Reach(db.edges, {d});
    ReachIsLeast(db.edges, {d}, DrvFlags(db) * below);
  }

  /** What dispatching a build that is not simply substituted relies on. */
  ghost predicate DispatchSafe(db: Db, d: DrvId) {
    && SourcesBacked(db, d)
    && (forall m :: m in Inputs(db, d) ==> Available(db, m))
    && (|| (forall m :: m in Reach(db.edges, {d}) ==> DrvBacked(db, m))
        || (d in db.drvHash && ClosureBacked(db, db.drvHash[d])))
  }

  lemma DispatchSound(db: Db, d: DrvId)
    requires d in FindReadyAnchors(db) && !db.anchors[d].substitutable
    requires FlagsSoundBelow(db, d) && PathsSound(db)
    ensures DispatchSafe(db, d)
  {
    InputsReady(db, d);
    forall m | m in Inputs(db, d) ensures Available(db, m) {
      ReadyDepAvailable(db, m);
    }
    if db.anchors[d].drvClosureCached {
      forall m | m in Reach(db.edges, {d}) ensures DrvBacked(db, m) { DrvClosureBacked(db, d, m); }
    } else {
      CompletePathClosureBacked(db, db.drvHash[d]);
    }
  }

  // ----- runs -----

  /** One thing that can happen between two dispatches. */
  datatype Action =
    | Ingest(h: Hash, references: set<Hash>)      // a NAR and its references are recorded
    | Delete(hs: set<Hash>)                       // GC drops artifacts and clears the flags they backed
    | Demote(h: Hash)                             // an output proved unfetchable, with its upward clear
    | BareDemote(h: Hash, present: bool)          // the same without the clear, as most callers do it
    | LostPath(h: Hash)                           // the flag clear of a missing-input report
    | Moved(ds: set<DrvId>, s: BuildStatus)       // a status write on anchors that have not succeeded
    | Rippled(c: DrvId)                           // the up-ripple of closure flags from a finished anchor
    | Pass(scope: ReconcileScope, order: seq<Hash>)
    | Elsewhere(next: Db)                         // any change to tables other than the path tables

  function IngestPath(db: Db, h: Hash, references: set<Hash>): Db {
    var flag := h in db.paths && db.paths[h].closureComplete;
    db.(paths := db.paths[h := CachedPath(true, flag)],
        refs := db.refs + (set x | x in references :: Row(h, x)))
  }

  /** Paths are content-addressed: a complete row's references are recorded already. No status
      write leaves a terminal success; only a demotion does. */
  ghost predicate Enabled(db: Db, a: Action) {
    match a
    case Ingest(h, references) =>
      h in db.paths && db.paths[h].closureComplete ==> forall x :: x in references ==> Row(h, x) in db.refs
    case Moved(ds, _) => forall d :: d in ds && d in db.anchors ==> !db.anchors[d].status.TerminalSuccess()
    case Elsewhere(next) => next.paths == db.paths && next.refs == db.refs
    case _ => true
  }

  function Next(db: Db, a: Action): Db {
    match a
    case Ingest(h, references) => IngestPath(db, h, references)
    case Delete(hs) => ClearGateFlags(DeletePaths(db, hs), hs)
    case Demote(h) => DemoteOne(db, h)
    case BareDemote(h, present) => DemoteOutput(db, h, present)
    case LostPath(h) => ClearReferrers(db, h)
    case Moved(ds, s) => SetStatus(db, ds, s)
    case Rippled(c) => UpRipple.Propagate(db, c)
    case Pass(scope, order) => ReconcileBuildGraph(db, scope, order)
    case Elsewhere(next) => next
  }

  /** Recording a path: it is backed, its references are known, and it is no more complete than it
      was; nothing else changes. */
  lemma IngestMeans(db: Db, h: Hash, references: set<Hash>, w: Db)
    requires w == Next(db, Ingest(h, references))
    ensures w == db.(paths := w.paths, refs := w.refs)
    ensures w.paths.Keys == db.paths.Keys + {h} && Backed(w, h)
    ensures w.paths[h].closureComplete <==> h in db.paths && db.paths[h].closureComplete
    ensures forall x :: x in db.paths && x != h ==> w.paths[x] == db.paths[x]
    ensures forall a, b :: Row(a, b) in w.refs <==> Row(a, b) in db.refs || (a == h && b in references)
  {
  }

  lemma IngestKeeps(db: Db, h: Hash, references: set<Hash>, open: set<Hash>)
    requires SoundBut(db, open) && Enabled(db, Ingest(h, references))
    ensures SoundBut(IngestPath(db, h, references), open)
  {
    var w := IngestPath(db, h, references);
    forall x | x in w.paths && w.paths[x].closureComplete ensures GateBut(w, x, open) {
      assert GateBut(db, x, open);
      forall r | r in w.refs && r.src == x && r.dst != x && r.dst !in open
        ensures Backed(w, r.dst) && w.paths[r.dst].closureComplete
      {
        assert r in db.refs;
      }
    }
  }

  /** Clearing referrers withdraws trust upward, and leaves nothing that rests on `h`. */
  lemma LostPathCloses(db: Db, h: Hash, open: set<Hash>)
    requires SoundBut(db, open)
    ensures SoundBut(ClearReferrers(db, h), open - {h})
  {
    var w := ClearReferrers(db, h);
    DirtyIsMissingAndReferrers(db, h);
    forall x | x in w.paths && w.paths[x].closureComplete ensures GateBut(w, x, open - {h}) {
      assert GateBut(db, x, open);
      forall r | r in w.refs && r.src == x && r.dst != x && r.dst !in open - {h}
        ensures Backed(w, r.dst) && w.paths[r.dst].closureComplete
      {
        FlipRow(db.refs, r.dst, x);
        var up := Row(r.dst, x);
        assert up in TrustedReferrers(db);
        assert up.src !in Dirty(db, {h});
      }
    }
  }

  lemma {:induction false} SetFixKeepsSound<N>(sys: System<N>, bound: set<N>, flags: set<N>)
    requires Sound(sys, flags)
    ensures Sound(sys, SetFix(sys, bound, flags))
    decreases |sys.local - flags|
  {
    var due := Fresh(sys, bound, flags);
    if due != {} {
      forall n | n in flags + due ensures Holds(sys, flags + due, n) {
        HoldsMonotone(sys, flags, flags + due, n);
      }
      assert sys.local - (flags + due) == (sys.local - flags) - due;
      RemoveShrinks(sys.local - flags, due);
      SetFixKeepsSound(sys, bound, flags + due);
    }
  }

  lemma PathsSoundIsSystem(db: Db)
    ensures PathsSound(db) <==> Sound(PathSystem(db), PathFlags(db))
  {
    forall h | h in db.paths ensures PathGate(db, h) <==> Holds(PathSystem(db), PathFlags(db), h) {
      PathGateIsSystem(db, h);
    }
  }

  lemma PathsSoundSame(a: Db, b: Db)
    requires PathsSound(a) && a.paths == b.paths && a.refs == b.refs
    ensures PathsSound(b)
  {
    forall h | h in b.paths && b.paths[h].closureComplete ensures PathGate(b, h) {
      assert PathGate(a, h);
    }
  }

  lemma HealedKeeps(db: Db, scope: ReconcileScope, order: seq<Hash>, open: set<Hash>)
    requires SoundBut(db, open)
    ensures SoundBut(Healed(db, scope, order), open)
    ensures PathFlags(Healed(db, scope, order)) <= PathFlags(db)
  {
    var thawed := ThawStep(EdgesStep(db, scope), scope);
    SoundButSame(db, thawed, open);
    DemoteAllKeeps(thawed, order, open);
    SoundButSame(DemoteStep(thawed, scope, order), Healed(db, scope, order), open);
  }

  /** The path fixpoint, bounded or not, never breaks path soundness where it held. */
  lemma PathFixKeepsSound(db: Db, ev: Option<EvalId>)
    requires PathsSound(db)
    ensures PathsSound(ReconcilePaths(db, ev))
  {
    var sys, bound, flags := PathSystem(db), PathBound(db, ev), PathFlags(db);
    PathsSoundIsSystem(db);
    assert Stale(sys, bound, flags) == {};
    SetFixKeepsSound(sys, bound, flags);
    ReconcilePathsConverges(db, ev);
    WithPathsKeeps(db, Fix(sys, bound, flags));
    PathsSoundIsSystem(ReconcilePaths(db, ev));
  }

  /** Where something is open, the bounded fixpoint may clear rows that a complete row outside
      the bound rests on: those are open then too. */
  lemma PathFixSpreads(db: Db, ev: Option<EvalId>, open: set<Hash>)
    requires SoundBut(db, open)
    ensures var w := ReconcilePaths(db, ev); SoundBut(w, open + (PathFlags(db) - PathFlags(w)))
  {
    var w := ReconcilePaths(db, ev);
    var wider := open + (PathFlags(db) - PathFlags(w));
    ReconcilePathsConverges(db, ev);
    FixConverges(PathSystem(db), PathBound(db, ev), PathFlags(db));
    forall x | x in w.paths && w.paths[x].closureComplete ensures GateBut(w, x, wider) {
      if x in PathBound(db, ev) {
        PathGateIsSystem(w, x);
      } else {
        assert x in PathFlags(w) - PathBound(db, ev);
        assert GateBut(db, x, open);
      }
    }
  }

  lemma PassKeepsPathsSound(db: Db, scope: ReconcileScope, order: seq<Hash>)
    requires PathsSound(db)
    ensures PathsSound(ReconcileBuildGraph(db, scope, order))
  {
    var healed := Healed(db, scope, order);
    SoundButNothing(db);
    HealedKeeps(db, scope, order, {});
    SoundButNothing(healed);
    if scope.RunsPathFixpoint() { PathFixKeepsSound(healed, scope.Evaluation()); }
    PathsSoundSame(PathsStep(healed, scope), ReconcileBuildGraph(db, scope, order));
  }

  lemma PassSpreads(db: Db, scope: ReconcileScope, order: seq<Hash>, open: set<Hash>, w: Db)
    requires SoundBut(db, open) && w == ReconcileBuildGraph(db, scope, order)
    ensures SoundBut(w, if scope.RunsPathFixpoint() then open + (PathFlags(db) - PathFlags(w)) else open)
  {
    var healed := Healed(db, scope, order);
    var stepped := PathsStep(healed, scope);
    HealedKeeps(db, scope, order, open);
    assert stepped.paths == w.paths && stepped.refs == w.refs;
    if scope.RunsPathFixpoint() {
      PathFixSpreads(healed, scope.Evaluation(), open);
      SoundButMore(stepped, open + (PathFlags(healed) - PathFlags(stepped)),
                   open + (PathFlags(db) - PathFlags(w)));
      SoundButSame(stepped, w, open + (PathFlags(db) - PathFlags(w)));
    } else {
      SoundButSame(stepped, w, open);
    }
  }

  /** A bare demotion that purges its row under a trusted referrer. */
  ghost predicate Harmful(db: Db, a: Action) {
    && a.BareDemote? && !PreserveMissing(ProducersOf(db, {a.h}) != {}, a.present)
    && exists x :: x != a.h && x in PathFlags(db) && Row(x, a.h) in db.refs
  }

  /** What is open after a step: a harmful demotion opens its path, a clear or deletion closes
      it, a `Deep` pass closes everything, and a per-evaluation one may spread what is open. */
  ghost function OpenNext(db: Db, a: Action, open: set<Hash>): set<Hash> {
    match a
    case Delete(hs) => open - hs
    case Demote(h) => open - {h}
    case LostPath(h) => open - {h}
    case BareDemote(h, _) => if Harmful(db, a) then open + {h} else open
    case Pass(scope, _) =>
      if scope.Deep? || open == {} then {}
      else if scope.RunsPathFixpoint() then open + (PathFlags(db) - PathFlags(Next(db, a)))
      else open
    case _ => open
  }

  lemma NextKeepsSoundBut(db: Db, a: Action, open: set<Hash>)
    requires SoundBut(db, open) && Enabled(db, a)
    ensures SoundBut(Next(db, a), OpenNext(db, a, open))
  {
    match a
    case Ingest(h, references) => IngestKeeps(db, h, references, open);
    case Delete(hs) => DeleteCloses(db, hs, open);
    case Demote(h) => DemoteCloses(db, h, open);
    case BareDemote(h, present) => BareDemoteLeaves(db, h, present, open);
    case LostPath(h) => LostPathCloses(db, h, open);
    case Moved(ds, s) => SoundButSame(db, SetStatus(db, ds, s), open);
    case Rippled(c) => SoundButSame(db, UpRipple.Propagate(db, c), open);
    case Pass(scope, order) => PassLeaves(db, scope, order, open, Next(db, a));
    case Elsewhere(next) => SoundButSame(db, next, open);
  }

  lemma BareDemoteLeaves(db: Db, h: Hash, present: bool, open: set<Hash>)
    requires SoundBut(db, open)
    ensures SoundBut(DemoteOutput(db, h, present), OpenNext(db, BareDemote(h, present), open))
  {
    var w := DemoteOutput(db, h, present);
    if PreserveMissing(ProducersOf(db, {h}) != {}, present) {
      SoundButSame(db, w, open);
    } else {
      assert w == DemoteOutput(db, h, false);
      BareDemoteOpens(db, h, open);
      if !Harmful(db, BareDemote(h, present)) {
        forall x | x in w.paths && w.paths[x].closureComplete ensures GateBut(w, x, open) {
          assert GateBut(w, x, open + {h});
          assert x in PathFlags(db) && (Row(x, h) in w.refs ==> Row(x, h) in db.refs);
          forall r | r in w.refs && r.src == x && r.dst != x && r.dst !in open
            ensures Backed(w, r.dst) && w.paths[r.dst].closureComplete
          {
            assert r == Row(x, r.dst);
          }
        }
      }
    }
  }

  lemma PassLeaves(db: Db, scope: ReconcileScope, order: seq<Hash>, open: set<Hash>, w: Db)
    requires SoundBut(db, open) && w == ReconcileBuildGraph(db, scope, order)
    ensures SoundBut(w, OpenNext(db, Pass(scope, order), open))
  {
    if scope.Deep? || open == {} {
      PassCloses(db, scope, order, open, w);
    } else {
      PassSpreads(db, scope, order, open, w);
    }
  }

  lemma PassCloses(db: Db, scope: ReconcileScope, order: seq<Hash>, open: set<Hash>, w: Db)
    requires SoundBut(db, open) && w == ReconcileBuildGraph(db, scope, order) && (scope.Deep? || open == {})
    ensures SoundBut(w, {})
  {
    SoundButNothing(w);
    if scope.Deep? {
      DeepPathsSound(db, order);
    } else {
      SoundButNothing(db);
      PassKeepsPathsSound(db, scope, order);
    }
  }

  /** The completeness invariant survives every action but a harmful one, and no harmful one. */
  lemma NextKeepsPathsSound(db: Db, a: Action)
    requires PathsSound(db) && Enabled(db, a)
    ensures PathsSound(Next(db, a)) <==> !Harmful(db, a)
  {
    if Harmful(db, a) {
      BareDemoteSoundIff(db, a.h);
    } else {
      SoundButNothing(db);
      NextKeepsSoundBut(db, a, {});
      assert OpenNext(db, a, {}) == {};
      SoundButNothing(Next(db, a));
    }
  }

  /** The states of a run: each follows from the one before by an enabled action. */
  ghost predicate IsRun(states: seq<Db>, actions: seq<Action>) {
    && |states| == |actions| + 1
    && forall i :: 0 <= i < |actions| ==>
         Enabled(states[i], actions[i]) && states[i + 1] == Next(states[i], actions[i])
  }

  predicate IsDeep(a: Action) { a.Pass? && a.scope.Deep? }

  /** The paths a complete row may wrongly rest on before step `i`, when a run starts with
      `start` open. */
  ghost function Open(states: seq<Db>, actions: seq<Action>, start: set<Hash>, i: nat): set<Hash>
    requires IsRun(states, actions) && i < |states|
  {
    if i == 0 then start else OpenNext(states[i - 1], actions[i - 1], Open(states, actions, start, i - 1))
  }

  /** Before step `i` no path is left dangling that a harmful demotion opened, or that was open at
      the start: each was cleared, deleted or completed again. A start with nothing known of it
      is made good by any `Deep` pass. */
  ghost predicate Mended(states: seq<Db>, actions: seq<Action>, start: set<Hash>, i: nat)
    requires IsRun(states, actions) && i < |states|
  {
    && Known(states, actions, start, i)
    && forall h :: h in Open(states, actions, start, i) ==> !Dangling(states[i], h)
  }

  ghost predicate Known(states: seq<Db>, actions: seq<Action>, start: set<Hash>, i: nat)
    requires IsRun(states, actions) && i < |states|
  {
    SoundBut(states[0], start) || exists k :: 0 <= k < i && IsDeep(actions[k])
  }

  /** At every point of every run only open paths are excepted from the invariant, so that it
      holds exactly where none of them dangles. */
  lemma RunKeepsPathsSound(states: seq<Db>, actions: seq<Action>, start: set<Hash>, i: nat)
    requires IsRun(states, actions) && i < |states| && Known(states, actions, start, i)
    ensures SoundBut(states[i], Open(states, actions, start, i))
    ensures PathsSound(states[i]) <==> Mended(states, actions, start, i)
  {
    RunLeavesOpen(states, actions, start, i);
    SoundButIff(states[i], Open(states, actions, start, i));
  }

  lemma {:induction false} RunLeavesOpen(states: seq<Db>, actions: seq<Action>, start: set<Hash>, i: nat)
    requires IsRun(states, actions) && i < |states| && Known(states, actions, start, i)
    ensures SoundBut(states[i], Open(states, actions, start, i))
  {
    if i > 0 {
      var before := Open(states, actions, start, i - 1);
      if !IsDeep(actions[i - 1]) { RunLeavesOpen(states, actions, start, i - 1); }
      RunStep(states[i - 1], actions[i - 1], states[i], before);
    }
  }

  lemma RunStep(db: Db, a: Action, w: Db, open: set<Hash>)
    requires IsDeep(a) || SoundBut(db, open)
    requires Enabled(db, a) && w == Next(db, a)
    ensures SoundBut(w, OpenNext(db, a, open))
  {
    if IsDeep(a) {
      DeepPathsSound(db, a.order);
      SoundButNothing(w);
    } else {
      NextKeepsSoundBut(db, a, open);
    }
  }

  /** A bare demotion is made good by the clear of its path or by a deletion that holds it,
      whatever comes between except another one and per-evaluation passes. */
  lemma {:induction false} LateClearMends(states: seq<Db>, actions: seq<Action>, start: set<Hash>, j: nat, i: nat)
    requires IsRun(states, actions) && j < i < |states| && actions[j].BareDemote?
    requires forall k :: j < k < i ==> !Opens(actions[k])
    ensures Open(states, actions, start, i) <= Open(states, actions, start, j) + {actions[j].h}
    ensures i < |actions| && Clears(actions[i], actions[j].h) ==>
              Open(states, actions, start, i + 1) <= Open(states, actions, start, j)
  {
    if i > j + 1 { LateClearMends(states, actions, start, j, i - 1); }
  }

  predicate Opens(a: Action) { a.BareDemote? || (a.Pass? && a.scope.Evaluation().Some?) }

  predicate Clears(a: Action, h: Hash) {
    a == LostPath(h) || a == Demote(h) || (a.Delete? && h in a.hs)
  }

  /** A `Deep` pass restores the invariant from any state. */
  lemma DeepPathsSound(db: Db, order: seq<Hash>)
    ensures PathsSound(ReconcileBuildGraph(db, Deep, order))
  {
    PathsConverge(db, Deep, order);
    PathsSoundIsSystem(ReconcileBuildGraph(db, Deep, order));
  }

  lemma PassFlagsSound(db: Db, scope: ReconcileScope, order: seq<Hash>, d: DrvId)
    requires scope.RunsAnchorFixpoints()
    requires scope.Evaluation().Some? ==> d in EvalClosure(db, scope.Evaluation().value)
    ensures FlagsSoundBelow(ReconcileBuildGraph(db, scope, order), d)
  {
    var w := ReconcileBuildGraph(db, scope, order);
    AnchorsConverge(db, scope, order);
    PassKeepsFacts(db, scope, order);
    if scope.Evaluation().Some? {
      ReachIsLeast(db.edges, {d}, EvalClosure(db, scope.Evaluation().value));
    }
  }

  /** Over every run in which harmful demotions are mended, after any `Global`, `Deep`, `Eval`
      or `Unstick` pass every build the dispatch query then returns (for a per-evaluation
      pass: inside that evaluation's closure) has its inputs. */
  lemma RunDispatchSafe(states: seq<Db>, actions: seq<Action>, start: set<Hash>, i: nat, d: DrvId)
    requires IsRun(states, actions) && i < |actions| && Mended(states, actions, start, i + 1)
    requires actions[i].Pass? && actions[i].scope.RunsAnchorFixpoints()
    requires actions[i].scope.Evaluation().Some?
             ==> d in EvalClosure(states[i], actions[i].scope.Evaluation().value)
    requires d in FindReadyAnchors(states[i + 1]) && !states[i + 1].anchors[d].substitutable
    ensures DispatchSafe(states[i + 1], d)
  {
    MendedIsSound(states, actions, start, i + 1);
    PassStepSafe(states[i], actions[i], states[i + 1], d);
  }

  lemma PassStepSafe(db: Db, a: Action, w: Db, d: DrvId)
    requires a.Pass? && a.scope.RunsAnchorFixpoints() && w == Next(db, a) && PathsSound(w)
    requires a.scope.Evaluation().Some? ==> d in EvalClosure(db, a.scope.Evaluation().value)
    requires d in FindReadyAnchors(w) && !w.anchors[d].substitutable
    ensures DispatchSafe(w, d)
  {
    PassDispatchSafe(db, a.scope, a.order, w, d);
  }

  lemma MendedIsSound(states: seq<Db>, actions: seq<Action>, start: set<Hash>, i: nat)
    requires IsRun(states, actions) && i < |states| && Mended(states, actions, start, i)
    ensures PathsSound(states[i])
  {
    RunKeepsPathsSound(states, actions, start, i);
  }

  lemma PassDispatchSafe(db: Db, scope: ReconcileScope, order: seq<Hash>, w: Db, d: DrvId)
    requires w == ReconcileBuildGraph(db, scope, order) && PathsSound(w)
    requires scope.RunsAnchorFixpoints()
    requires scope.Evaluation().Some? ==> d in EvalClosure(db, scope.Evaluation().value)
    requires d in FindReadyAnchors(w) && !w.anchors[d].substitutable
    ensures DispatchSafe(w, d)
  {
    PassFlagsSound(db, scope, order, d);
    DispatchSound(w, d);
  }

  /** A `Deep` pass needs no assumption on the state it starts from. */
  lemma DeepDispatchSafe(db: Db, order: seq<Hash>, d: DrvId)
    requires d in FindReadyAnchors(ReconcileBuildGraph(db, Deep, order))
    requires !ReconcileBuildGraph(db, Deep, order).anchors[d].substitutable
    ensures DispatchSafe(ReconcileBuildGraph(db, Deep, order), d)
  {
    DeepPathsSound(db, order);
    PassDispatchSafe(db, Deep, order, ReconcileBuildGraph(db, Deep, order), d);
  }
}
