/** The ordered reconciliation pipeline and what each scope leaves behind. */
module Reconcile {
  import opened Walks
  import opened FlagFixpoint
  import opened Tables
  import opened Wrappers
  import opened Gates
  import opened Promotion
  import opened CacheStorage

  datatype ReconcileScope = Tick | Global | Deep | Eval(e: EvalId) | Unstick(e: EvalId) {
    function Evaluation(): Option<EvalId> {
      match this
      case Eval(e) => Some(e)
      case Unstick(e) => Some(e)
      case _ => None
    }

    predicate Demotes() { Global? || Deep? || Eval? }
    predicate RunsPathFixpoint() { Deep? || Eval? || Unstick? }
    predicate RunsAnchorFixpoints() { !Tick? }
  }

  // ----- the flag fixpoints on the tables -----

  function ReconcilePaths(db: Db, scope: Option<EvalId>): Db {
    WithPaths(db, Fix(PathSystem(db), PathBound(db, scope), PathFlags(db)))
  }

  function ReconcileDrv(db: Db, scope: Option<EvalId>): Db {
    WithDrv(db, Fix(DrvSystem(db), AnchorBound(db, scope), DrvFlags(db)))
  }

  function ReconcileClosure(db: Db, scope: Option<EvalId>): Db {
    WithClosure(db, Fix(ClosureSystem(db), AnchorBound(db, scope), ClosureFlags(db)))
  }

  ghost predicate PathsConverged(db: Db, bound: set<Hash>) {
    Converged(PathSystem(db), bound, PathFlags(db))
  }

  ghost predicate DrvConverged(db: Db, bound: set<DrvId>) {
    Converged(DrvSystem(db), bound, DrvFlags(db))
  }

  ghost predicate ClosureConverged(db: Db, bound: set<DrvId>) {
    Converged(ClosureSystem(db), bound, ClosureFlags(db))
  }

  /** Rows a family's flags do not feed: writing one family leaves the others' systems. */
  lemma WithDrvKeeps(db: Db, f: set<DrvId>)
    ensures var w := WithDrv(db, f);
            && ClosureSystem(w) == ClosureSystem(db) && ClosureFlags(w) == ClosureFlags(db)
            && PathSystem(w) == PathSystem(db) && DrvSystem(w) == DrvSystem(db)
  {
  }

  lemma WithClosureKeeps(db: Db, f: set<DrvId>)
    ensures var w := WithClosure(db, f);
            && DrvSystem(w) == DrvSystem(db) && DrvFlags(w) == DrvFlags(db)
            && PathSystem(w) == PathSystem(db) && ClosureSystem(w) == ClosureSystem(db)
  {
  }

  lemma WithPathsKeeps(db: Db, f: set<Hash>)
    ensures var w := WithPaths(db, f);
            && (forall h :: Backed(w, h) <==> Backed(db, h))
            && PathSystem(w) == PathSystem(db) && DrvSystem(w) == DrvSystem(db)
  {
  }

  lemma ReconcilePathsConverges(db: Db, scope: Option<EvalId>)
    ensures PathsConverged(ReconcilePaths(db, scope), PathBound(db, scope))
    ensures PathFlags(ReconcilePaths(db, scope))
            == Fix(PathSystem(db), PathBound(db, scope), PathFlags(db))
  {
    var f := Fix(PathSystem(db), PathBound(db, scope), PathFlags(db));
    FixConverges(PathSystem(db), PathBound(db, scope), PathFlags(db));
    WithPathsKeeps(db, f);
    PathFlagLens(db, f, f);
    assert f * db.paths.Keys == f;
  }

  lemma ReconcileDrvConverges(db: Db, scope: Option<EvalId>)
    ensures DrvConverged(ReconcileDrv(db, scope), AnchorBound(db, scope))
    ensures DrvFlags(ReconcileDrv(db, scope))
            == Fix(DrvSystem(db), AnchorBound(db, scope), DrvFlags(db))
  {
    var f := Fix(DrvSystem(db), AnchorBound(db, scope), DrvFlags(db));
    FixConverges(DrvSystem(db), AnchorBound(db, scope), DrvFlags(db));
    WithDrvKeeps(db, f);
    DrvFlagLens(db, f, f);
    assert f * db.anchors.Keys == f;
  }

  lemma ReconcileClosureConverges(db: Db, scope: Option<EvalId>)
    ensures ClosureConverged(ReconcileClosure(db, scope), AnchorBound(db, scope))
    ensures ClosureFlags(ReconcileClosure(db, scope))
            == Fix(ClosureSystem(db), AnchorBound(db, scope), ClosureFlags(db))
  {
    var f := Fix(ClosureSystem(db), AnchorBound(db, scope), ClosureFlags(db));
    FixConverges(ClosureSystem(db), AnchorBound(db, scope), ClosureFlags(db));
    WithClosureKeeps(db, f);
    ClosureFlagLens(db, f, f);
    assert f * db.anchors.Keys == f;
  }

  /** On an acyclic graph a per-evaluation fixpoint leaves, on the evaluation's closure,
      the flags a global one would, and everything else alone. */
  lemma ScopedClosureIsGlobal(db: Db, e: EvalId, rank: DrvId -> nat)
    requires Ranked(db.edges, rank)
    ensures var c := EvalClosure(db, e); var scoped := ClosureFlags(ReconcileClosure(db, Some(e)));
            && scoped * c == ClosureFlags(ReconcileClosure(db, None)) * c
            && scoped - c == ClosureFlags(db) - c
  {
    ReconcileClosureConverges(db, Some(e));
    ReconcileClosureConverges(db, None);
    FixConverges(ClosureSystem(db), EvalClosure(db, e), ClosureFlags(db));
    ScopedIsGlobal(ClosureSystem(db), rank, EvalClosure(db, e), ClosureFlags(db),
                   db.anchors.Keys, ClosureFlags(db));
  }

  lemma ScopedDrvIsGlobal(db: Db, e: EvalId, rank: DrvId -> nat)
    requires Ranked(db.edges, rank)
    ensures var c := EvalClosure(db, e); var scoped := DrvFlags(ReconcileDrv(db, Some(e)));
            && scoped * c == DrvFlags(ReconcileDrv(db, None)) * c
            && scoped - c == DrvFlags(db) - c
  {
    ReconcileDrvConverges(db, Some(e));
    ReconcileDrvConverges(db, None);
    FixConverges(DrvSystem(db), EvalClosure(db, e), DrvFlags(db));
    ScopedIsGlobal(DrvSystem(db), rank, EvalClosure(db, e), DrvFlags(db), db.anchors.Keys, DrvFlags(db));
  }

  /** The same for path flags, where self-references do not count as cycles. */
  lemma ScopedPathsIsGlobal(db: Db, e: EvalId, rank: Hash -> nat)
    requires Ranked(PathSystem(db).needs, rank)
    ensures var c := EvalPaths(db, e); var scoped := PathFlags(ReconcilePaths(db, Some(e)));
            && scoped * c == PathFlags(ReconcilePaths(db, None)) * c
            && scoped - c == PathFlags(db) - c
  {
    ReconcilePathsConverges(db, Some(e));
    ReconcilePathsConverges(db, None);
    FixConverges(PathSystem(db), EvalPaths(db, e), PathFlags(db));
    ScopedIsGlobal(PathSystem(db), rank, EvalPaths(db, e), PathFlags(db), db.paths.Keys, PathFlags(db));
  }

  // ----- the pipeline -----

  function EdgesStep(db: Db, scope: ReconcileScope): Db {
    if scope.Evaluation().Some? then MarkEdges(db, scope.Evaluation().value) else db
  }

  function ThawStep(db: Db, scope: ReconcileScope): Db {
    if scope.Unstick? then Thaw(db, scope.e) else db
  }

  /** `order` is the order in which the unbacked outputs come back from their query. */
  function DemoteStep(db: Db, scope: ReconcileScope, order: seq<Hash>): Db {
    if scope.Demotes() then DemoteAll(db, order) else db
  }

  function CachedStep(db: Db, scope: ReconcileScope): Db {
    if scope.Evaluation().Some? then CachedReconcile(db, scope.Evaluation().value) else db
  }

  function PathsStep(db: Db, scope: ReconcileScope): Db {
    if scope.RunsPathFixpoint() then ReconcilePaths(db, scope.Evaluation()) else db
  }

  function AnchorsStep(db: Db, scope: ReconcileScope): Db {
    if scope.RunsAnchorFixpoints()
    then ReconcileClosure(ReconcileDrv(db, scope.Evaluation()), scope.Evaluation())
    else db
  }

  function SweepStep(db: Db, scope: ReconcileScope): Db {
    if scope.RunsAnchorFixpoints() then Sweep(db, scope.Evaluation()) else db
  }

  /** Everything before the flag fixpoints. */
  function Healed(db: Db, scope: ReconcileScope, order: seq<Hash>): Db {
    CachedStep(DemoteStep(ThawStep(EdgesStep(db, scope), scope), scope, order), scope)
  }

  /** Everything before the failure sweep. */
  function Flagged(db: Db, scope: ReconcileScope, order: seq<Hash>): Db {
    AnchorsStep(PathsStep(Healed(db, scope, order), scope), scope)
  }

  function ReconcileBuildGraph(db: Db, scope: ReconcileScope, order: seq<Hash>): Db {
    Promote(SweepStep(Flagged(db, scope, order), scope))
  }

  /** One anchor status move, as the step that made it reports it. */
  datatype Transition = Transition(derivation: DrvId, was: BuildStatus, now: BuildStatus)

  function Transitions(db: Db, ds: set<DrvId>, now: Db): set<Transition> {
    set d | d in ds && d in db.anchors && d in now.anchors ::
      Transition(d, db.anchors[d].status, now.anchors[d].status)
  }

  datatype ReconcileReport = ReconcileReport(
    edgesMarked: nat,
    thawed: nat,
    demotedProducers: nat,
    cachedReconciled: nat,
    dependencyFailed: set<Transition>,
    promoted: set<Transition>)

  /** The output rows a demotion of `hs` reports. */
  function OutputsOf(db: Db, hs: set<Hash>): set<Output> { set o | o in db.outputs && o.hash in hs }

  function Report(db: Db, scope: ReconcileScope, order: seq<Hash>): ReconcileReport {
    var ev := scope.Evaluation();
    var marked := EdgesStep(db, scope);
    var thawed := ThawStep(marked, scope);
    var demoted := DemoteStep(thawed, scope, order);
    var flagged := Flagged(db, scope, order);
    var swept := SweepStep(flagged, scope);
    ReconcileReport(
      if ev.Some? then |EdgesMarked(db, ev.value)| else 0,
      if scope.Unstick? then |Thawed(marked, scope.e)| else 0,
      if scope.Demotes() then |OutputsOf(thawed, UnbackedTrusted(thawed))| else 0,
      if ev.Some? then |CachedReconciled(demoted, ev.value)| else 0,
      if scope.RunsAnchorFixpoints() then Transitions(flagged, SweepFailed(flagged, ev), swept) else {},
      Transitions(swept, UnpromotedReady(swept), Promote(swept)))
  }

  // ----- what the last two steps cannot disturb -----

  /** Moves among statuses outside terminal success leave every gate and flag alone. */
  lemma PendingMoveKeeps(db: Db, ds: set<DrvId>, s: BuildStatus)
    requires !s.TerminalSuccess()
    requires forall d :: d in ds && d in db.anchors ==> !db.anchors[d].status.TerminalSuccess()
    ensures var w := SetStatus(db, ds, s);
            && ClosureSystem(w) == ClosureSystem(db) && ClosureFlags(w) == ClosureFlags(db)
            && DrvSystem(w) == DrvSystem(db) && DrvFlags(w) == DrvFlags(db)
            && PathSystem(w) == PathSystem(db) && PathFlags(w) == PathFlags(db)
            && UnbackedTrusted(w) == UnbackedTrusted(db)
            && forall d :: DepReady(w, d) <==> DepReady(db, d)
  {
    var w := SetStatus(db, ds, s);
    assert forall h :: Backed(w, h) <==> Backed(db, h);
    PendingMoveKeepsClosure(db, ds, s);
  }

  lemma PendingMoveKeepsClosure(db: Db, ds: set<DrvId>, s: BuildStatus)
    requires !s.TerminalSuccess()
    requires forall d :: d in ds && d in db.anchors ==> !db.anchors[d].status.TerminalSuccess()
    ensures ClosureSystem(SetStatus(db, ds, s)) == ClosureSystem(db)
  {
    var w := SetStatus(db, ds, s);
    forall d | d in db.anchors ensures ClosureLocal(w, d) <==> ClosureLocal(db, d) {
    }
    assert ClosureSystem(w).needs == ClosureSystem(db).needs;
  }

  lemma SweepKeeps(db: Db, scope: ReconcileScope)
    ensures var w := SweepStep(db, scope);
            && ClosureSystem(w) == ClosureSystem(db) && ClosureFlags(w) == ClosureFlags(db)
            && DrvSystem(w) == DrvSystem(db) && DrvFlags(w) == DrvFlags(db)
            && PathSystem(w) == PathSystem(db) && PathFlags(w) == PathFlags(db)
            && UnbackedTrusted(w) == UnbackedTrusted(db)
  {
    if scope.RunsAnchorFixpoints() {
      PendingMoveKeeps(db, SweepFailed(db, scope.Evaluation()), DependencyFailed);
    }
  }

  /** Promotion leaves no promotable anchor, and every gate as it was. */
  lemma PromoteSettles(db: Db)
    ensures UnpromotedReady(Promote(db)) == {}
    ensures var w := Promote(db);
            && ClosureSystem(w) == ClosureSystem(db) && ClosureFlags(w) == ClosureFlags(db)
            && DrvSystem(w) == DrvSystem(db) && DrvFlags(w) == DrvFlags(db)
            && PathSystem(w) == PathSystem(db) && PathFlags(w) == PathFlags(db)
            && UnbackedTrusted(w) == UnbackedTrusted(db)
  {
    PendingMoveKeeps(db, UnpromotedReady(db), Queued);
    var w := Promote(db);
    forall d | d in w.anchors ensures !Promotable(w, d) {
      if w.anchors[d].status == Created {
        assert d !in UnpromotedReady(db) && !Promotable(db, d);
        if forall r | r in db.edges && r.src == d :: DepReady(db, r.dst) {
        } else {
          var r :| r in db.edges && r.src == d && !DepReady(db, r.dst);
          assert !DepReady(w, r.dst);
        }
      }
    }
  }

  /** The end state of a pass has the gates, flags and unbacked outputs of `Flagged`. */
  lemma TailKeeps(db: Db, scope: ReconcileScope, order: seq<Hash>)
    ensures var w := ReconcileBuildGraph(db, scope, order); var m := Flagged(db, scope, order);
            && ClosureSystem(w) == ClosureSystem(m) && ClosureFlags(w) == ClosureFlags(m)
            && DrvSystem(w) == DrvSystem(m) && DrvFlags(w) == DrvFlags(m)
            && PathSystem(w) == PathSystem(m) && PathFlags(w) == PathFlags(m)
            && UnbackedTrusted(w) == UnbackedTrusted(m)
            && UnpromotedReady(w) == {}
  {
    SweepKeeps(Flagged(db, scope, order), scope);
    PromoteSettles(SweepStep(Flagged(db, scope, order), scope));
  }

  // ----- each scope's guarantee -----

  /** Cached-anchor reconciliation only trusts producers whose outputs are all there. */
  lemma CachedReconcileKeepsBacked(db: Db, e: EvalId)
    requires UnbackedTrusted(db) == {}
    ensures UnbackedTrusted(CachedReconcile(db, e)) == {}
  {
    var w := CachedReconcile(db, e);
    forall o | o in w.outputs && o.derivation in w.anchors
               && w.anchors[o.derivation].status.TerminalSuccess() && o !in w.upstream
      ensures Backed(w, o.hash)
    {
      if o.derivation in CachedReconciled(db, e) {
        assert OutputsBacked(db, o.derivation);
      } else {
        assert o.hash !in UnbackedTrusted(db);
      }
    }
  }

  lemma FlagWritesKeepBacked(db: Db, scope: ReconcileScope)
    ensures UnbackedTrusted(AnchorsStep(PathsStep(db, scope), scope)) == UnbackedTrusted(db)
  {
    assert forall h :: Backed(PathsStep(db, scope), h) <==> Backed(db, h);
  }

  /** A demoting pass leaves no trusted producer with an unbacked output. */
  lemma DemotingPassBacks(db: Db, scope: ReconcileScope, order: seq<Hash>)
    requires scope.Global? || scope.Deep? || scope.Eval?
    requires Elements(order) == UnbackedTrusted(db)
    ensures UnbackedTrusted(ReconcileBuildGraph(db, scope, order)) == {}
  {
    var marked := EdgesStep(db, scope);
    assert UnbackedTrusted(marked) == UnbackedTrusted(db);
    DemoteAllBacks(marked, order);
    if scope.Eval? { CachedReconcileKeepsBacked(DemoteAll(marked, order), scope.e); }
    FlagWritesKeepBacked(Healed(db, scope, order), scope);
    TailKeeps(db, scope, order);
  }

  /** The tables that fix the bounds never change during a pass. */
  lemma HealedKeepsFacts(db: Db, scope: ReconcileScope, order: seq<Hash>)
    ensures SameFacts(db, Healed(db, scope, order))
    ensures !scope.Demotes() ==> Healed(db, scope, order).refs == db.refs
                                 && Healed(db, scope, order).paths == db.paths
                                 && Healed(db, scope, order).upstream == db.upstream
  {
    var marked := EdgesStep(db, scope);
    assert SameFacts(db, marked);
    var thawed := ThawStep(marked, scope);
    assert SameFacts(db, thawed);
    if scope.Demotes() { DemoteAllFacts(thawed, order); }
    var demoted := DemoteStep(thawed, scope, order);
    assert SameFacts(db, demoted);
  }

  lemma PassKeepsFacts(db: Db, scope: ReconcileScope, order: seq<Hash>)
    ensures SameFacts(db, ReconcileBuildGraph(db, scope, order))
    ensures SameFacts(db, PathsStep(Healed(db, scope, order), scope))
  {
    HealedKeepsFacts(db, scope, order);
    FlagWritesKeepFacts(Healed(db, scope, order), scope);
    TailKeepsFacts(Flagged(db, scope, order), scope);
  }

  lemma FlagWritesKeepFacts(m: Db, scope: ReconcileScope)
    ensures SameFacts(m, PathsStep(m, scope)) && SameFacts(m, AnchorsStep(PathsStep(m, scope), scope))
  {
  }

  lemma TailKeepsFacts(m: Db, scope: ReconcileScope)
    ensures SameFacts(m, Promote(SweepStep(m, scope)))
  {
  }

  lemma AnchorBoundSame(a: Db, b: Db, scope: Option<EvalId>)
    requires SameFacts(a, b)
    ensures AnchorBound(a, scope) == AnchorBound(b, scope)
  {
  }

  /** Every pass but `Tick` ends with both anchor flags equal to their gates on its
      bound: the whole table, or the evaluation's closure. */
  lemma AnchorsConverge(db: Db, scope: ReconcileScope, order: seq<Hash>)
    requires !scope.Tick?
    ensures var w := ReconcileBuildGraph(db, scope, order);
            && ClosureConverged(w, AnchorBound(db, scope.Evaluation()))
            && DrvConverged(w, AnchorBound(db, scope.Evaluation()))
  {
    PassKeepsFacts(db, scope, order);
    var ev := scope.Evaluation();
    var m := PathsStep(Healed(db, scope, order), scope);
    AnchorBoundSame(db, m, ev);
    ReconcileDrvConverges(m, ev);
    var n := ReconcileDrv(m, ev);
    AnchorBoundSame(db, n, ev);
    ReconcileClosureConverges(n, ev);
    WithClosureKeeps(n, Fix(ClosureSystem(n), AnchorBound(n, ev), ClosureFlags(n)));
    TailKeeps(db, scope, order);
  }

  /** A pass that runs the path fixpoint ends with path flags equal to their gate on
      its bound. */
  lemma PathsConverge(db: Db, scope: ReconcileScope, order: seq<Hash>)
    requires scope.Deep? || scope.Eval? || scope.Unstick?
    ensures PathsConverged(ReconcileBuildGraph(db, scope, order),
                           PathBound(Healed(db, scope, order), scope.Evaluation()))
  {
    var ev := scope.Evaluation();
    var h := Healed(db, scope, order);
    ReconcilePathsConverges(h, ev);
    var m := ReconcilePaths(h, ev);
    WithDrvKeeps(m, Fix(DrvSystem(m), AnchorBound(m, ev), DrvFlags(m)));
    var n := ReconcileDrv(m, ev);
    WithClosureKeeps(n, Fix(ClosureSystem(n), AnchorBound(n, ev), ClosureFlags(n)));
    TailKeeps(db, scope, order);
  }

  lemma ConvergedCounts(db: Db)
    ensures ClosureConverged(db, db.anchors.Keys) ==> StaleClosure(db) == {}
    ensures DrvConverged(db, db.anchors.Keys) ==> StaleDrv(db) == {}
    ensures PathsConverged(db, db.paths.Keys) ==> StalePaths(db) == {}
  {
    forall d | d in db.anchors
      ensures ClosureGate(db, d) <==> Holds(ClosureSystem(db), ClosureFlags(db), d)
      ensures DrvGate(db, d) <==> Holds(DrvSystem(db), DrvFlags(db), d)
    {
      ClosureGateIsSystem(db, d);
      DrvGateIsSystem(db, d);
    }
    forall h | h in db.paths
      ensures PathGate(db, h) <==> Holds(PathSystem(db), PathFlags(db), h)
    {
      PathGateIsSystem(db, h);
    }
  }

  /** One `Deep` pass, from any state whatever, drives every consistency count to zero. */
  lemma DeepPassConverges(db: Db, order: seq<Hash>)
    requires Elements(order) == UnbackedTrusted(db)
    ensures GraphConsistencyReport(ReconcileBuildGraph(db, Deep, order))
            == ConsistencyReport(0, 0, 0, 0, 0)
  {
    var w := ReconcileBuildGraph(db, Deep, order);
    DemotingPassBacks(db, Deep, order);
    PassKeepsFacts(db, Deep, order);
    AnchorsConverge(db, Deep, order);
    PathsConverge(db, Deep, order);
    TailKeeps(db, Deep, order);
    ConvergedCounts(w);
  }

  /** A `Global` pass does so for all but the path flags, which it does not re-derive. */
  lemma GlobalPassConverges(db: Db, order: seq<Hash>)
    requires Elements(order) == UnbackedTrusted(db)
    ensures var r := GraphConsistencyReport(ReconcileBuildGraph(db, Global, order));
            r == ConsistencyReport(0, 0, 0, 0, r.stalePathClosure)
  {
    var w := ReconcileBuildGraph(db, Global, order);
    DemotingPassBacks(db, Global, order);
    PassKeepsFacts(db, Global, order);
    AnchorsConverge(db, Global, order);
    TailKeeps(db, Global, order);
    ConvergedCounts(w);
  }
}
