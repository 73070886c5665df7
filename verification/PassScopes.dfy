/** What a pass of each scope leaves behind and what it leaves alone, scope by scope. */
module PassScopes {
  import opened Walks
  import opened FlagFixpoint
  import opened Tables
  import opened Wrappers
  import opened Gates
  import opened Promotion
  import opened CacheStorage
  import opened Reconcile
  import Heal = Unstick

  /** The statuses by what a pass makes of them: built or fetched, failed for good, stopped without
      having succeeded, waiting for something. `Building` is none of these. */
  predicate Trusted(s: BuildStatus) { s in {Completed, Substituted} }

  predicate FailedForGood(s: BuildStatus) { s in {FailedPermanent, FailedTimeout, DependencyFailed} }

  predicate Stopped(s: BuildStatus) { s in {FailedPermanent, FailedTimeout, DependencyFailed, Aborted} }

  predicate Waits(s: BuildStatus) { s in {Created, Queued, FailedTransient} }

  /** Flag and gate agree on every anchor of the bound, for both anchor flags. */
  ghost predicate AnchorsAgree(w: Db, bound: set<DrvId>) {
    forall d :: d in w.anchors && d in bound ==>
      && (w.anchors[d].closureComplete <==> ClosureGate(w, d))
      && (w.anchors[d].drvClosureCached <==> DrvGate(w, d))
  }

  ghost predicate PathsAgree(w: Db, bound: set<Hash>) {
    forall h :: h in w.paths && h in bound ==> (w.paths[h].closureComplete <==> PathGate(w, h))
  }

  /** Every output of an anchor trusted to have built or fetched it is in the cache or upstream. */
  ghost predicate TrustIsBacked(w: Db) {
    forall o :: o in w.outputs && o.derivation in w.anchors ==>
      Trusted(w.anchors[o.derivation].status) ==> o in w.upstream || Backed(w, o.hash)
  }

  /** Nothing of the bound waits above an anchor that has failed for good. */
  ghost predicate NoneWaitsAbove(w: Db, bound: set<DrvId>) {
    forall d, f :: d in w.anchors && d in bound && f in w.anchors && f in Reach(w.edges, {d}) ==>
      FailedForGood(w.anchors[f].status) ==> !Waits(w.anchors[d].status)
  }

  ghost predicate NothingReady(w: Db) { forall d :: d in w.anchors ==> !Promotable(w, d) }

  /** What each scope promises of the state after it. */
  ghost predicate Settled(scope: ReconcileScope, w: Db) {
    match scope
    case Tick => NothingReady(w)
    case Global =>
      NothingReady(w) && TrustIsBacked(w) && AnchorsAgree(w, w.anchors.Keys) && NoneWaitsAbove(w, w.anchors.Keys)
    case Deep =>
      && NothingReady(w) && TrustIsBacked(w) && AnchorsAgree(w, w.anchors.Keys) && NoneWaitsAbove(w, w.anchors.Keys)
      && PathsAgree(w, w.paths.Keys)
    case Eval(e) =>
      && NothingReady(w) && TrustIsBacked(w) && AnchorsAgree(w, EvalClosure(w, e))
      && NoneWaitsAbove(w, EvalClosure(w, e)) && PathsAgree(w, EvalPaths(w, e))
    case Unstick(e) =>
      && NothingReady(w) && AnchorsAgree(w, EvalClosure(w, e))
      && NoneWaitsAbove(w, EvalClosure(w, e)) && PathsAgree(w, EvalPaths(w, e))
  }

  /** A demoting pass goes through the unbacked outputs, in any order. */
  ghost predicate OrderFits(db: Db, scope: ReconcileScope, order: seq<Hash>) {
    scope.Global? || scope.Deep? || scope.Eval? ==> Elements(order) == UnbackedTrusted(db)
  }

  lemma PassSettled(db: Db, scope: ReconcileScope, order: seq<Hash>, w: Db)
    requires OrderFits(db, scope, order) && w == ReconcileBuildGraph(db, scope, order)
    ensures Settled(scope, w)
  {
    PassPromotes(db, scope, order, w);
    if !scope.Tick? {
      PassAnchorsAgree(db, scope, order, w);
      PassNoneWaits(db, scope, order, w);
    }
    if scope.Global? || scope.Deep? || scope.Eval? {
      DemotingPassBacks(db, scope, order);
      NoUnbackedTrust(w);
    }
    if scope.Deep? || scope.Eval? || scope.Unstick? { PassPathsAgree(db, scope, order, w); }
  }

  lemma NoUnbackedTrust(w: Db)
    requires UnbackedTrusted(w) == {}
    ensures TrustIsBacked(w)
  {
    forall o | o in w.outputs && o.derivation in w.anchors
               && w.anchors[o.derivation].status.TerminalSuccess() && o !in w.upstream
      ensures Backed(w, o.hash)
    {
      assert o.hash !in UnbackedTrusted(w);
    }
  }

  lemma PassPromotes(db: Db, scope: ReconcileScope, order: seq<Hash>, w: Db)
    requires w == ReconcileBuildGraph(db, scope, order)
    ensures NothingReady(w)
  {
    TailKeeps(db, scope, order);
    forall d | d in w.anchors ensures !Promotable(w, d) { assert d !in UnpromotedReady(w); }
  }

  lemma PassAnchorsAgree(db: Db, scope: ReconcileScope, order: seq<Hash>, w: Db)
    requires w == ReconcileBuildGraph(db, scope, order)
    ensures scope.Global? || scope.Deep? ==> AnchorsAgree(w, w.anchors.Keys)
    ensures scope.Eval? || scope.Unstick? ==> AnchorsAgree(w, EvalClosure(w, scope.e))
  {
    if !scope.Tick? {
      PassKeepsFacts(db, scope, order);
      AnchorsConverge(db, scope, order);
      ConvergedAgrees(w, AnchorBound(db, scope.Evaluation()));
    }
  }

  lemma ConvergedAgrees(w: Db, bound: set<DrvId>)
    requires ClosureConverged(w, bound) && DrvConverged(w, bound)
    ensures AnchorsAgree(w, bound)
  {
    forall d | d in w.anchors && d in bound
      ensures w.anchors[d].closureComplete <==> ClosureGate(w, d)
      ensures w.anchors[d].drvClosureCached <==> DrvGate(w, d)
    {
      ClosureGateIsSystem(w, d);
      DrvGateIsSystem(w, d);
      assert d in ClosureFlags(w) <==> w.anchors[d].closureComplete;
      assert d in DrvFlags(w) <==> w.anchors[d].drvClosureCached;
    }
  }

  lemma PassPathsAgree(db: Db, scope: ReconcileScope, order: seq<Hash>, w: Db)
    requires w == ReconcileBuildGraph(db, scope, order) && (scope.Deep? || scope.Eval? || scope.Unstick?)
    ensures scope.Deep? ==> PathsAgree(w, w.paths.Keys)
    ensures scope.Eval? || scope.Unstick? ==> PathsAgree(w, EvalPaths(w, scope.e))
  {
    var h := Healed(db, scope, order);
    PathsConverge(db, scope, order);
    AfterHeal(db, scope, order, h, w);
    SamePathBound(h, w, scope.Evaluation());
    forall x | x in w.paths && x in PathBound(h, scope.Evaluation())
      ensures w.paths[x].closureComplete <==> PathGate(w, x)
    {
      PathGateIsSystem(w, x);
      assert x in PathFlags(w) <==> w.paths[x].closureComplete;
    }
  }

  lemma SamePathBound(h: Db, w: Db, scope: Option<EvalId>)
    requires SameFacts(h, w) && w.refs == h.refs && w.paths.Keys == h.paths.Keys
    ensures PathBound(w, scope) == PathBound(h, scope)
  {
    if scope.Some? { assert EvalDrvs(w, scope.value) == EvalDrvs(h, scope.value); }
  }

  /** The bounds of an evaluation's pass: what its jobs depend on, and what their outputs and own
      `.drv`s refer to. */
  lemma ClosureBound(db: Db, e: EvalId, d: DrvId)
    ensures d in EvalClosure(db, e) <==> exists r :: Job(e, r) in db.jobs && d in Reach(db.edges, {r})
  {
    if d in EvalClosure(db, e) {
      var p := PathTo(db.edges, EvalDrvs(db, e), d);
      PathStays(db.edges, p, Reach(db.edges, {p[0]}), |p| - 1);
      var j :| j in db.jobs && j.evaluation == e && j.derivation == p[0];
      assert Job(e, p[0]) == j;
    }
    if r :| Job(e, r) in db.jobs && d in Reach(db.edges, {r}) {
      assert Job(e, r).derivation in EvalDrvs(db, e);
      ReachIsLeast(db.edges, {r}, EvalClosure(db, e));
    }
  }

  /** `h` is an output or the own `.drv` of a derivation the evaluation asks for. */
  ghost predicate AskedPath(db: Db, e: EvalId, h: Hash) {
    exists d :: Job(e, d) in db.jobs
      && ((d in db.drvHash && db.drvHash[d] == h) || exists name :: Output(d, name, h) in db.outputs)
  }

  lemma PathsBound(db: Db, e: EvalId, h: Hash)
    ensures h in EvalPaths(db, e) <==> exists r :: AskedPath(db, e, r) && h in Reach(db.refs, {r})
  {
    var seed := (set o | o in db.outputs && o.derivation in EvalDrvs(db, e) :: o.hash)
                + (set d | d in EvalDrvs(db, e) && d in db.drvHash :: db.drvHash[d]);
    if h in EvalPaths(db, e) {
      var p := PathTo(db.refs, seed, h);
      PathStays(db.refs, p, Reach(db.refs, {p[0]}), |p| - 1);
      SeedIff(db, e, seed, p[0]);
    }
    if r :| AskedPath(db, e, r) && h in Reach(db.refs, {r}) {
      SeedIff(db, e, seed, r);
      ReachIsLeast(db.refs, {r}, EvalPaths(db, e));
    }
  }

  lemma SeedIff(db: Db, e: EvalId, seed: set<Hash>, r: Hash)
    requires seed == (set o | o in db.outputs && o.derivation in EvalDrvs(db, e) :: o.hash)
                     + (set d | d in EvalDrvs(db, e) && d in db.drvHash :: db.drvHash[d])
    ensures r in seed <==> AskedPath(db, e, r)
  {
    forall d ensures d in EvalDrvs(db, e) <==> Job(e, d) in db.jobs {
      if Job(e, d) in db.jobs { assert Job(e, d).derivation == d; }
    }
    if o :| o in db.outputs && o.derivation in EvalDrvs(db, e) && o.hash == r {
      assert Output(o.derivation, o.name, r) in db.outputs;
    }
    if AskedPath(db, e, r) {
      var d :| Job(e, d) in db.jobs
               && ((d in db.drvHash && db.drvHash[d] == r) || exists name :: Output(d, name, r) in db.outputs);
      if name :| Output(d, name, r) in db.outputs { assert Output(d, name, r).hash == r; }
    }
  }

  // ----- the steps after the heal steps -----

  lemma AfterHeal(db: Db, scope: ReconcileScope, order: seq<Hash>, h: Db, w: Db)
    requires h == Healed(db, scope, order) && w == ReconcileBuildGraph(db, scope, order)
    ensures SameFacts(h, w) && w.refs == h.refs && w.paths.Keys == h.paths.Keys && w.upstream == h.upstream
  {
    var m := Flagged(db, scope, order);
    FlagsOnlyStep(h, scope, m);
    SettleStep(m, scope, w);
  }

  /** The fixpoints write derived flags only. */
  lemma FlagsOnlyStep(h: Db, scope: ReconcileScope, m: Db)
    requires m == AnchorsStep(PathsStep(h, scope), scope)
    ensures Heal.FlagsOnly(h, m)
  {
    var p := PathsStep(h, scope);
    if scope.RunsAnchorFixpoints() {
      var drv := Fix(DrvSystem(p), AnchorBound(p, scope.Evaluation()), DrvFlags(p));
      var q := WithDrv(p, drv);
      var closure := Fix(ClosureSystem(q), AnchorBound(q, scope.Evaluation()), ClosureFlags(q));
      Heal.TwoFlagWrites(h, p, drv, closure);
    }
  }

  /** The sweep and the promotion write pending statuses only. */
  lemma SettleStep(m: Db, scope: ReconcileScope, w: Db)
    requires w == Promote(SweepStep(m, scope))
    ensures Heal.Settles(m, w, if scope.Tick? then {} else SweepFailed(m, scope.Evaluation()))
  {
    var failed := if scope.Tick? then {} else SweepFailed(m, scope.Evaluation());
    var s := SweepStep(m, scope);
    if scope.Tick? { SetStatusNone(m, DependencyFailed); }
    Heal.TwoMovesSettle(m, s, failed, UnpromotedReady(s));
  }

  // ----- statuses through a pass -----

  /** The status of an anchor after the heal steps of each scope: what was lost is to be rebuilt,
      what failed without a reproducible cause is tried again, what is cached is complete. */
  ghost function HealedStatus(db: Db, scope: ReconcileScope, d: DrvId): BuildStatus
    requires d in db.anchors
  {
    var s := db.anchors[d].status;
    match scope
    case Tick => s
    case Global => AfterLoss(db, d, s)
    case Deep => AfterLoss(db, d, s)
    case Eval(e) => AfterCached(db, e, d, AfterLoss(db, d, s))
    case Unstick(e) => AfterCached(db, e, d, AfterThaw(db, e, d, s))
  }

  function AfterLoss(db: Db, d: DrvId, s: BuildStatus): BuildStatus {
    if Trusted(s) && exists o :: o in db.outputs && o.derivation == d && o.hash in UnbackedTrusted(db)
    then Created else s
  }

  /** A builder at or below `d` ran and exited non-zero. */
  ghost predicate BuilderFailedBelow(db: Db, d: DrvId) {
    exists f :: f in db.anchors && f in Reach(db.edges, {d}) && Attempt(f, Failed, BuilderNonzero) in db.attempts
  }

  ghost function AfterThaw(db: Db, e: EvalId, d: DrvId, s: BuildStatus): BuildStatus {
    if d in EvalClosure(db, e) && Stopped(s) && !BuilderFailedBelow(db, d) then Created else s
  }

  function AfterCached(db: Db, e: EvalId, d: DrvId, s: BuildStatus): BuildStatus {
    if d in EvalClosure(db, e) && FullyCached(db, d) && !Trusted(s) then Completed else s
  }

  /** The anchors each scope sweeps. */
  function SweptBy(db: Db, scope: ReconcileScope): set<DrvId> {
    match scope
    case Tick => {}
    case Global => db.anchors.Keys
    case Deep => db.anchors.Keys
    case Eval(e) => EvalClosure(db, e)
    case Unstick(e) => EvalClosure(db, e)
  }

  /** `d` waits, in the scope of the pass, above an anchor that has failed for good. */
  ghost predicate Hopeless(db: Db, scope: ReconcileScope, d: DrvId)
    requires d in db.anchors
  {
    && d in SweptBy(db, scope) && Waits(HealedStatus(db, scope, d))
    && exists f :: f in db.anchors && f in Reach(db.edges, {d}) && FailedForGood(HealedStatus(db, scope, f))
  }

  /** All that `d` needs to be built or fetched is there. */
  predicate InputsThere(w: Db, d: DrvId)
    requires d in w.anchors
  {
    && w.anchors[d].edgesComplete && (exists j :: j in w.jobs && j.derivation == d)
    && (w.anchors[d].substitutable || DepsReady(w, d))
  }

  /** The status every anchor ends a pass with. */
  lemma PassStatus(db: Db, scope: ReconcileScope, order: seq<Hash>, w: Db, d: DrvId)
    requires OrderFits(db, scope, order) && w == ReconcileBuildGraph(db, scope, order)
    requires d in db.anchors
    ensures d in w.anchors
    ensures w.anchors[d].status ==
            if Hopeless(db, scope, d) then DependencyFailed
            else if HealedStatus(db, scope, d) == Created && InputsThere(w, d) then Queued
            else HealedStatus(db, scope, d)
  {
    var h, m := Healed(db, scope, order), Flagged(db, scope, order);
    HealedStatuses(db, scope, order, h);
    FlagsOnlyStep(h, scope, m);
    HopelessIsSwept(db, scope, m, d);
    StatusTail(m, scope, w, d);
  }

  /** Every anchor has the status the theorem gives it. */
  ghost predicate StatusesAre(db: Db, scope: ReconcileScope, w: Db) {
    w.anchors.Keys == db.anchors.Keys && w.edges == db.edges
    && forall d :: d in db.anchors ==>
         w.anchors[d].status ==
         if Hopeless(db, scope, d) then DependencyFailed
         else if HealedStatus(db, scope, d) == Created && InputsThere(w, d) then Queued
         else HealedStatus(db, scope, d)
  }

  lemma SweptBySame(db: Db, scope: ReconcileScope, w: Db)
    requires SameFacts(db, w)
    ensures SweptBy(w, scope) == SweptBy(db, scope)
  {
  }

  lemma PassStatuses(db: Db, scope: ReconcileScope, order: seq<Hash>, w: Db)
    requires OrderFits(db, scope, order) && w == ReconcileBuildGraph(db, scope, order)
    ensures StatusesAre(db, scope, w) && SweptBy(w, scope) == SweptBy(db, scope)
  {
    PassKeepsFacts(db, scope, order);
    SweptBySame(db, scope, w);
    forall d | d in db.anchors
      ensures w.anchors[d].status ==
              if Hopeless(db, scope, d) then DependencyFailed
              else if HealedStatus(db, scope, d) == Created && InputsThere(w, d) then Queued
              else HealedStatus(db, scope, d)
    {
      PassStatus(db, scope, order, w, d);
    }
  }

  lemma PassNoneWaits(db: Db, scope: ReconcileScope, order: seq<Hash>, w: Db)
    requires OrderFits(db, scope, order) && w == ReconcileBuildGraph(db, scope, order)
    ensures NoneWaitsAbove(w, SweptBy(w, scope))
  {
    PassStatuses(db, scope, order, w);
    StatusesLeaveNoneWaiting(db, scope, w);
  }

  lemma StatusesLeaveNoneWaiting(db: Db, scope: ReconcileScope, w: Db)
    requires StatusesAre(db, scope, w)
    ensures NoneWaitsAbove(w, SweptBy(db, scope))
  {
    forall d, f | d in w.anchors && d in SweptBy(db, scope) && f in w.anchors && f in Reach(w.edges, {d})
      ensures FailedForGood(w.anchors[f].status) ==> !Waits(w.anchors[d].status)
    {
      if FailedForGood(w.anchors[f].status) { FailureBelow(db, scope, d, f); }
    }
  }

  lemma FailureBelow(db: Db, scope: ReconcileScope, d: DrvId, f: DrvId)
    requires d in db.anchors && f in db.anchors && f in Reach(db.edges, {d}) && d in SweptBy(db, scope)
    requires Hopeless(db, scope, f) || FailedForGood(HealedStatus(db, scope, f))
    ensures Waits(HealedStatus(db, scope, d)) ==> Hopeless(db, scope, d)
  {
    ReachIsLeast(db.edges, {f}, Reach(db.edges, {d}));
  }

  lemma StatusTail(m: Db, scope: ReconcileScope, w: Db, d: DrvId)
    requires w == Promote(SweepStep(m, scope)) && d in m.anchors
    ensures d in w.anchors
    ensures w.anchors[d].status ==
            if !scope.Tick? && Swept(m, scope.Evaluation(), d) then DependencyFailed
            else if m.anchors[d].status == Created && InputsThere(w, d) then Queued
            else m.anchors[d].status
  {
    var s := SweepStep(m, scope);
    SweepExactIn(m, scope.Evaluation(), d);
    PendingMoveKeeps(s, UnpromotedReady(s), Queued);
    InputsSame(s, w, d);
    assert d in UnpromotedReady(s) <==> s.anchors[d].status == Created && InputsThere(s, d) by { JobThere(s, d); }
  }

  lemma JobThere(s: Db, d: DrvId)
    ensures d in JobDrvs(s) <==> exists j :: j in s.jobs && j.derivation == d
  {
  }

  lemma InputsSame(s: Db, w: Db, d: DrvId)
    requires w == Promote(s) && d in s.anchors
    requires forall m :: DepReady(w, m) <==> DepReady(s, m)
    ensures d in w.anchors && (InputsThere(w, d) <==> InputsThere(s, d))
  {
    assert forall r :: r in s.edges && r.src == d ==> (DepReady(w, r.dst) <==> DepReady(s, r.dst));
  }

  lemma HopelessIsSwept(db: Db, scope: ReconcileScope, m: Db, d: DrvId)
    requires SameFacts(db, m) && d in db.anchors
    requires forall x :: x in db.anchors ==> m.anchors[x].status == HealedStatus(db, scope, x)
    ensures Hopeless(db, scope, d) <==> !scope.Tick? && Swept(m, scope.Evaluation(), d)
  {
    if scope.Evaluation().Some? {
      assert EvalDrvs(m, scope.Evaluation().value) == EvalDrvs(db, scope.Evaluation().value);
    }
    assert forall f :: f in TerminalFailures(m) <==> f in db.anchors && FailedForGood(HealedStatus(db, scope, f));
  }

  lemma HealedStatuses(db: Db, scope: ReconcileScope, order: seq<Hash>, h: Db)
    requires OrderFits(db, scope, order) && h == Healed(db, scope, order)
    ensures SameFacts(db, h)
    ensures forall d :: d in db.anchors ==> h.anchors[d].status == HealedStatus(db, scope, d)
  {
    HealedKeepsFacts(db, scope, order);
    forall d | d in db.anchors ensures h.anchors[d].status == HealedStatus(db, scope, d) {
      HealedRows(db, scope, order, h, d);
    }
  }

  // ----- the other columns of an anchor -----

  /** The pass took the trust of `d` away, or gave it another try. */
  ghost predicate Reset(db: Db, scope: ReconcileScope, d: DrvId)
    requires d in db.anchors
  {
    match scope
    case Tick => false
    case Unstick(e) => AfterThaw(db, e, d, db.anchors[d].status) != db.anchors[d].status
    case _ => LosesTrust(db, scope, d)
  }

  ghost predicate LosesTrust(db: Db, scope: ReconcileScope, d: DrvId)
    requires d in db.anchors
  {
    (scope.Global? || scope.Deep? || scope.Eval?) && AfterLoss(db, d, db.anchors[d].status) != db.anchors[d].status
  }

  /** The evaluation has flushed the edges of `d`. */
  predicate Flushed(db: Db, e: EvalId, d: DrvId)
    requires d in db.anchors
  {
    d in EvalClosure(db, e) && !db.anchors[d].edgesUnresolved && (HasEdges(db, d) || Job(e, d) in db.jobs)
  }

  /** What each scope does to the edge column: only an evaluation's pass writes it, for flushed
      and for cached anchors of its closure. */
  ghost predicate EdgesAfter(db: Db, scope: ReconcileScope, d: DrvId, now: bool)
    requires d in db.anchors
  {
    match scope
    case Eval(e) => EdgesMarkedFor(db, e, d, now)
    case Unstick(e) => EdgesMarkedFor(db, e, d, now)
    case _ => now == db.anchors[d].edgesComplete
  }

  ghost predicate EdgesMarkedFor(db: Db, e: EvalId, d: DrvId, now: bool)
    requires d in db.anchors
  {
    var was, cached := db.anchors[d].edgesComplete, d in EvalClosure(db, e) && FullyCached(db, d);
    && (was || Flushed(db, e, d) || (cached && !Trusted(db.anchors[d].status)) ==> now)
    && (now ==> was || Flushed(db, e, d) || cached)
  }

  /** Every column of an anchor but its status and its derived flags. */
  ghost predicate ColumnsAfter(db: Db, scope: ReconcileScope, d: DrvId, b: Anchor)
    requires d in db.anchors
  {
    var a := db.anchors[d];
    && b.substitutable == (a.substitutable && !LosesTrust(db, scope, d))
    && b.substituted == (a.substituted && !LosesTrust(db, scope, d))
    && b.attempt == (if Reset(db, scope, d) then 0 else a.attempt)
    && b.edgesUnresolved == a.edgesUnresolved
    && EdgesAfter(db, scope, d, b.edgesComplete)
  }

  lemma PassColumns(db: Db, scope: ReconcileScope, order: seq<Hash>, w: Db, d: DrvId)
    requires OrderFits(db, scope, order) && w == ReconcileBuildGraph(db, scope, order)
    requires d in db.anchors
    ensures d in w.anchors && ColumnsAfter(db, scope, d, w.anchors[d])
  {
    var h, m := Healed(db, scope, order), Flagged(db, scope, order);
    HealedRows(db, scope, order, h, d);
    HealedKeepsFacts(db, scope, order);
    FlagsOnlyStep(h, scope, m);
    SettleStep(m, scope, w);
    ColumnsTail(db, scope, d, h.anchors[d], m.anchors[d], w.anchors[d]);
  }

  lemma ColumnsTail(db: Db, scope: ReconcileScope, d: DrvId, h: Anchor, m: Anchor, w: Anchor)
    requires d in db.anchors && ColumnsAfter(db, scope, d, h)
    requires Heal.SameButFlags(h, m) && Heal.SameButFlags(m.(status := w.status), w)
    ensures ColumnsAfter(db, scope, d, w)
  {
  }

  lemma HealedRows(db: Db, scope: ReconcileScope, order: seq<Hash>, h: Db, d: DrvId)
    requires OrderFits(db, scope, order) && h == Healed(db, scope, order) && d in db.anchors
    ensures d in h.anchors && h.anchors[d].status == HealedStatus(db, scope, d)
    ensures ColumnsAfter(db, scope, d, h.anchors[d])
  {
    match scope
    case Tick =>
    case Global => LossRow(db, order, d);
    case Deep => LossRow(db, order, d);
    case Eval(e) => EvalRow(db, e, order, h, d);
    case Unstick(e) => UnstickRow(db, e, h, d);
  }

  lemma LossRow(db: Db, order: seq<Hash>, d: DrvId)
    requires d in db.anchors && Elements(order) == UnbackedTrusted(db)
    ensures d in DemoteAll(db, order).anchors
    ensures LostRow(db, d, DemoteAll(db, order).anchors[d])
  {
    DemoteAllRow(db, order, d);
    assert d in ProducersOf(db, Elements(order)) <==>
           exists o :: o in db.outputs && o.derivation == d && o.hash in UnbackedTrusted(db);
  }

  ghost predicate LostRow(db: Db, d: DrvId, b: Anchor)
    requires d in db.anchors
  {
    var a := db.anchors[d];
    var now := AfterLoss(db, d, a.status);
    b == (if now != a.status then DemotedAnchor(a) else a).(closureComplete := b.closureComplete)
  }

  lemma EvalRow(db: Db, e: EvalId, order: seq<Hash>, h: Db, d: DrvId)
    requires d in db.anchors && Elements(order) == UnbackedTrusted(db) && h == Healed(db, Eval(e), order)
    ensures d in h.anchors && h.anchors[d].status == HealedStatus(db, Eval(e), d)
    ensures ColumnsAfter(db, Eval(e), d, h.anchors[d])
  {
    var m := MarkEdges(db, e);
    Heal.MarkIs(db, e, m);
    MarkKeepsLoss(db, m, d);
    LossRow(m, order, d);
    var x := DemoteAll(m, order);
    LossKeepsCached(m, order, x, d);
    Heal.FullyCachedSame(db, m, d);
    CachedRow(db, x, e, h, d);
    EvalColumns(db, e, d, m.anchors[d], x.anchors[d], h.anchors[d]);
  }

  lemma CachedRow(db: Db, x: Db, e: EvalId, h: Db, d: DrvId)
    requires SameFacts(db, x) && h == CachedReconcile(x, e) && d in x.anchors
    requires FullyCached(x, d) <==> FullyCached(db, d)
    ensures d in h.anchors
    ensures h.anchors[d] == Heal.Recached(x.anchors[d], d in EvalClosure(db, e) && FullyCached(db, d))
  {
    Heal.SameBounds(db, x, e);
    Heal.CachedIs(x, e, EvalClosure(db, e), h);
  }

  lemma EvalColumns(db: Db, e: EvalId, d: DrvId, m: Anchor, x: Anchor, h: Anchor)
    requires d in db.anchors && m == Heal.Marked(db.anchors[d], d in EdgesMarked(db, e))
    requires var lost := AfterLoss(db, d, m.status) != m.status;
             x == (if lost then DemotedAnchor(m) else m).(closureComplete := x.closureComplete)
    requires h == Heal.Recached(x, d in EvalClosure(db, e) && FullyCached(db, d))
    ensures h.status == HealedStatus(db, Eval(e), d) && ColumnsAfter(db, Eval(e), d, h)
  {
  }

  lemma MarkKeepsLoss(db: Db, m: Db, d: DrvId)
    requires Heal.AnchorsOnly(db, m)
    requires forall x :: x in db.anchors ==> m.anchors[x].status == db.anchors[x].status
    ensures UnbackedTrusted(m) == UnbackedTrusted(db)
    ensures forall s :: AfterLoss(m, d, s) == AfterLoss(db, d, s)
  {
  }

  lemma LossKeepsCached(db: Db, order: seq<Hash>, x: Db, d: DrvId)
    requires Elements(order) == UnbackedTrusted(db) && x == DemoteAll(db, order)
    ensures SameFacts(db, x) && (FullyCached(x, d) <==> FullyCached(db, d))
  {
    DemoteAllFacts(db, order);
    DemoteAllUnbacks(db, order);
    forall y ensures Backed(x, y) <==> Backed(db, y) {
      assert y in order ==> y in UnbackedTrusted(db);
    }
    Heal.FullyCachedSame(db, x, d);
  }

  lemma {:induction false} DemoteAllUnbacks(db: Db, hs: seq<Hash>)
    ensures DemoteAll(db, hs).paths.Keys == db.paths.Keys - Elements(hs)
    ensures forall y :: Backed(DemoteAll(db, hs), y) ==> Backed(db, y)
    decreases |hs|
  {
    if hs == [] {
      assert Elements(hs) == {};
    } else {
      var rest := DemoteAll(db, hs[..|hs| - 1]);
      DemoteAllUnbacks(db, hs[..|hs| - 1]);
      DemoteOneFacts(rest, hs[|hs| - 1]);
      ElementsLast(hs);
    }
  }

  lemma UnstickRow(db: Db, e: EvalId, h: Db, d: DrvId)
    requires d in db.anchors && h == Heal.HealedBy(db, e)
    ensures d in h.anchors && h.anchors[d].status == HealedStatus(db, Unstick(e), d)
    ensures ColumnsAfter(db, Unstick(e), d, h.anchors[d])
  {
    Heal.HealedRow(db, e, d);
    ThawedByExact(db, e, d);
    UnstickColumns(db, e, d, h.anchors[d]);
  }

  lemma ThawedByExact(db: Db, e: EvalId, d: DrvId)
    requires d in db.anchors
    ensures d in Heal.ThawedBy(db, e) <==> AfterThaw(db, e, d, db.anchors[d].status) != db.anchors[d].status
  {
    var m := MarkEdges(db, e);
    Heal.MarkIs(db, e, m);
    Heal.SameBounds(db, m, e);
    ThawExact(m, e, d);
    ReproducibleIs(db, m, d);
  }

  lemma ReproducibleIs(db: Db, m: Db, d: DrvId)
    requires SameFacts(db, m)
    ensures Reproducible(m, d) <==> BuilderFailedBelow(db, d)
  {
    if Reproducible(m, d) {
      var f :| f in m.anchors && DeterministicFailure(m, f) && f in Reach(m.edges, {d});
      assert f in db.anchors && f in Reach(db.edges, {d}) && Attempt(f, Failed, BuilderNonzero) in db.attempts;
    }
    if BuilderFailedBelow(db, d) {
      var f :| f in db.anchors && f in Reach(db.edges, {d}) && Attempt(f, Failed, BuilderNonzero) in db.attempts;
      assert f in m.anchors && DeterministicFailure(m, f) && f in Reach(m.edges, {d});
    }
  }

  lemma UnstickColumns(db: Db, e: EvalId, d: DrvId, h: Anchor)
    requires d in db.anchors
    requires var thaw := AfterThaw(db, e, d, db.anchors[d].status) != db.anchors[d].status;
             h == Heal.Recached(Heal.Thawn(Heal.Marked(db.anchors[d], d in EdgesMarked(db, e)), thaw),
                                d in EvalClosure(db, e) && FullyCached(db, d))
    ensures h.status == HealedStatus(db, Unstick(e), d) && ColumnsAfter(db, Unstick(e), d, h)
  {
  }

  // ----- the cached paths -----

  /** The path tables after each scope: only a demoting pass drops rows, those it demotes; and a
      pass writes path flags only on the bound of its fixpoint, or to withdraw them. */
  ghost predicate PathsAfter(db: Db, scope: ReconcileScope, w: Db) {
    match scope
    case Tick => w.paths == db.paths && w.refs == db.refs && w.upstream == db.upstream
    case Unstick(e) => PathRowsKept(db, w, {}) && SameFlagsOff(db, w, EvalPaths(w, e))
    case Global => PathRowsKept(db, w, UnbackedTrusted(db)) && PathFlags(w) <= PathFlags(db)
    case Deep => PathRowsKept(db, w, UnbackedTrusted(db))
    case Eval(e) =>
      PathRowsKept(db, w, UnbackedTrusted(db)) && PathFlags(w) - EvalPaths(w, e) <= PathFlags(db)
  }

  ghost predicate PathRowsKept(db: Db, w: Db, lost: set<Hash>) {
    && w.paths.Keys == db.paths.Keys - lost
    && (forall h :: h in w.paths ==> w.paths[h].backed == db.paths[h].backed)
    && w.refs == (set r | r in db.refs && r.src !in lost)
    && w.upstream == (set o | o in db.upstream && !(o in db.outputs && o.hash in lost))
  }

  ghost predicate SameFlagsOff(db: Db, w: Db, bound: set<Hash>) {
    forall h :: h in w.paths && h in db.paths && h !in bound ==>
      w.paths[h].closureComplete == db.paths[h].closureComplete
  }

  lemma PassPathTables(db: Db, scope: ReconcileScope, order: seq<Hash>, w: Db)
    requires OrderFits(db, scope, order) && w == ReconcileBuildGraph(db, scope, order)
    ensures PathsAfter(db, scope, w)
  {
    var h, m := Healed(db, scope, order), Flagged(db, scope, order);
    HealedPaths(db, scope, order, h);
    FlagsOnlyStep(h, scope, m);
    SettleStep(m, scope, w);
    FixedFlags(h, scope, m);
    PathTables(db, scope, h, m, w);
  }

  lemma PathTables(db: Db, scope: ReconcileScope, h: Db, m: Db, w: Db)
    requires PathFlags(h) <= PathFlags(db)
    requires PathRowsKept(db, h, if scope.Tick? || scope.Unstick? then {} else UnbackedTrusted(db))
    requires scope.Tick? || scope.Unstick? ==> h.paths == db.paths && h.refs == db.refs && h.upstream == db.upstream
    requires Heal.FlagsOnly(h, m) && SameFacts(m, w)
    requires w.paths == m.paths && w.refs == m.refs && w.upstream == m.upstream
    requires scope.Tick? || scope.Global? ==> m.paths == h.paths
    requires scope.Eval? || scope.Unstick? ==>
               PathFlags(m) - EvalPaths(h, scope.e) == PathFlags(h) - EvalPaths(h, scope.e)
    ensures PathsAfter(db, scope, w)
  {
    if scope.Eval? || scope.Unstick? {
      SamePathBound(h, w, Some(scope.e));
      FlagsOff(h, m, EvalPaths(h, scope.e));
    }
  }

  lemma FlagsOff(h: Db, m: Db, bound: set<Hash>)
    requires PathFlags(m) - bound == PathFlags(h) - bound
    ensures SameFlagsOff(h, m, bound)
  {
    forall x | x in m.paths && x in h.paths && x !in bound
      ensures m.paths[x].closureComplete == h.paths[x].closureComplete
    {
      assert x in PathFlags(m) - bound <==> x in PathFlags(h) - bound;
    }
  }

  /** The path fixpoint leaves flags outside its bound alone; without it none is written. */
  lemma FixedFlags(h: Db, scope: ReconcileScope, m: Db)
    requires m == AnchorsStep(PathsStep(h, scope), scope)
    ensures scope.Tick? || scope.Global? ==> m.paths == h.paths
    ensures scope.Eval? || scope.Unstick? ==>
              PathFlags(m) - EvalPaths(h, scope.e) == PathFlags(h) - EvalPaths(h, scope.e)
  {
    if scope.Eval? || scope.Unstick? {
      FixConverges(PathSystem(h), EvalPaths(h, scope.e), PathFlags(h));
      ReconcilePathsConverges(h, Some(scope.e));
    }
  }

  lemma HealedPaths(db: Db, scope: ReconcileScope, order: seq<Hash>, h: Db)
    requires OrderFits(db, scope, order) && h == Healed(db, scope, order)
    ensures SameFacts(db, h) && PathFlags(h) <= PathFlags(db)
    ensures PathRowsKept(db, h, if scope.Tick? || scope.Unstick? then {} else UnbackedTrusted(db))
    ensures scope.Tick? || scope.Unstick? ==> h.paths == db.paths && h.refs == db.refs && h.upstream == db.upstream
  {
    HealedKeepsFacts(db, scope, order);
    if scope.Global? || scope.Deep? || scope.Eval? {
      var m := EdgesStep(db, scope);
      DemoteAllPaths(m, order);
    }
  }

  lemma {:induction false} DemoteAllPaths(db: Db, hs: seq<Hash>)
    ensures PathRowsKept(db, DemoteAll(db, hs), Elements(hs)) && DemoteAll(db, hs).outputs == db.outputs
    ensures PathFlags(DemoteAll(db, hs)) <= PathFlags(db)
    decreases |hs|
  {
    if hs == [] {
      assert Elements(hs) == {};
    } else {
      var rest, h := DemoteAll(db, hs[..|hs| - 1]), hs[|hs| - 1];
      DemoteAllPaths(db, hs[..|hs| - 1]);
      DemoteOnePaths(rest, h);
      ElementsLast(hs);
      PathRowsTwice(db, rest, DemoteAll(db, hs), Elements(hs[..|hs| - 1]), {h});
    }
  }

  lemma DemoteOnePaths(db: Db, h: Hash)
    ensures PathRowsKept(db, DemoteOne(db, h), {h}) && DemoteOne(db, h).outputs == db.outputs
    ensures PathFlags(DemoteOne(db, h)) <= PathFlags(db)
  {
    DemoteOneFlags(db, h);
  }

  lemma PathRowsTwice(db: Db, mid: Db, w: Db, a: set<Hash>, b: set<Hash>)
    requires PathRowsKept(db, mid, a) && PathRowsKept(mid, w, b) && mid.outputs == db.outputs
    ensures PathRowsKept(db, w, a + b)
  {
  }

  // ----- what a pass reports -----

  ghost function HopelessSet(db: Db, scope: ReconcileScope): set<DrvId> {
    set d | d in db.anchors && Hopeless(db, scope, d)
  }

  ghost function MadeReady(db: Db, scope: ReconcileScope, w: Db): set<DrvId> {
    set d | d in db.anchors && d in w.anchors && !Hopeless(db, scope, d)
            && HealedStatus(db, scope, d) == Created && InputsThere(w, d)
  }

  function NewlyFlushed(db: Db, e: EvalId): set<DrvId> {
    set d | d in db.anchors && !db.anchors[d].edgesComplete && Flushed(db, e, d)
  }

  ghost function TriedAgain(db: Db, e: EvalId): set<DrvId> {
    set d | d in db.anchors && AfterThaw(db, e, d, db.anchors[d].status) != db.anchors[d].status
  }

  /** The moves and counts of a report: exactly the anchors it failed and queued, the rows it
      flushed, thawed and demoted. */
  lemma ReportMeans(db: Db, scope: ReconcileScope, order: seq<Hash>, w: Db, r: ReconcileReport)
    requires OrderFits(db, scope, order) && w == ReconcileBuildGraph(db, scope, order)
    requires r == Report(db, scope, order)
    ensures r.dependencyFailed
            == set d | d in HopelessSet(db, scope) :: Transition(d, HealedStatus(db, scope, d), DependencyFailed)
    ensures r.promoted == set d | d in MadeReady(db, scope, w) :: Transition(d, Created, Queued)
    ensures r.edgesMarked == if scope.Eval? || scope.Unstick? then |NewlyFlushed(db, scope.e)| else 0
    ensures r.thawed == if scope.Unstick? then |TriedAgain(db, scope.e)| else 0
    ensures r.demotedProducers == if scope.Global? || scope.Deep? || scope.Eval?
                                  then |set o | o in db.outputs && o.hash in UnbackedTrusted(db)| else 0
  {
    ReportCounts(db, scope, order, r);
    ReportMoves(db, scope, order, w, r);
  }

  lemma ReportCounts(db: Db, scope: ReconcileScope, order: seq<Hash>, r: ReconcileReport)
    requires r == Report(db, scope, order)
    ensures r.edgesMarked == if scope.Eval? || scope.Unstick? then |NewlyFlushed(db, scope.e)| else 0
    ensures r.thawed == if scope.Unstick? then |TriedAgain(db, scope.e)| else 0
    ensures r.demotedProducers == if scope.Global? || scope.Deep? || scope.Eval?
                                  then |set o | o in db.outputs && o.hash in UnbackedTrusted(db)| else 0
  {
    match scope
    case Eval(e) =>
      FlushedIsMarked(db, e);
      Heal.MarkIs(db, e, MarkEdges(db, e));
      MarkKeepsTrust(db, MarkEdges(db, e));
    case Unstick(e) =>
      FlushedIsMarked(db, e);
      TriedAgainIsThawed(db, e);
    case _ =>
  }

  lemma FlushedIsMarked(db: Db, e: EvalId)
    ensures EdgesMarked(db, e) == NewlyFlushed(db, e)
  {
  }

  lemma TriedAgainIsThawed(db: Db, e: EvalId)
    ensures Thawed(MarkEdges(db, e), e) == TriedAgain(db, e)
  {
    Heal.MarkIs(db, e, MarkEdges(db, e));
    forall d | d in db.anchors ensures d in Heal.ThawedBy(db, e) <==> d in TriedAgain(db, e) {
      ThawedByExact(db, e, d);
    }
  }

  lemma MarkKeepsTrust(db: Db, m: Db)
    requires Heal.AnchorsOnly(db, m)
    requires forall x :: x in db.anchors ==> m.anchors[x].status == db.anchors[x].status
    ensures OutputsOf(m, UnbackedTrusted(m)) == set o | o in db.outputs && o.hash in UnbackedTrusted(db)
  {
  }

  lemma ReportMoves(db: Db, scope: ReconcileScope, order: seq<Hash>, w: Db, r: ReconcileReport)
    requires OrderFits(db, scope, order) && w == ReconcileBuildGraph(db, scope, order)
    requires r == Report(db, scope, order)
    ensures r.dependencyFailed
            == set d | d in HopelessSet(db, scope) :: Transition(d, HealedStatus(db, scope, d), DependencyFailed)
    ensures r.promoted == set d | d in MadeReady(db, scope, w) :: Transition(d, Created, Queued)
  {
    var m := Flagged(db, scope, order);
    FlaggedStatuses(db, scope, order, m);
    FailedIsHopeless(db, scope, m);
    ReportReads(db, scope, order, m, w, r);
    SweptRows(m, scope, SweepStep(m, scope), HopelessSet(db, scope));
    MovesReported(db, scope, m, SweepStep(m, scope), w, HopelessSet(db, scope));
  }

  lemma FlaggedStatuses(db: Db, scope: ReconcileScope, order: seq<Hash>, m: Db)
    requires OrderFits(db, scope, order) && m == Flagged(db, scope, order)
    ensures SameFacts(db, m)
    ensures forall d :: d in db.anchors ==> m.anchors[d].status == HealedStatus(db, scope, d)
  {
    HealedStatuses(db, scope, order, Healed(db, scope, order));
    FlagsOnlyStep(Healed(db, scope, order), scope, m);
  }

  /** The anchors the sweep step of a scope fails. */
  function SweepMoves(m: Db, scope: ReconcileScope): set<DrvId> {
    if scope.Tick? then {} else SweepFailed(m, scope.Evaluation())
  }

  lemma FailedIsHopeless(db: Db, scope: ReconcileScope, m: Db)
    requires SameFacts(db, m)
    requires forall d :: d in db.anchors ==> m.anchors[d].status == HealedStatus(db, scope, d)
    ensures SweepMoves(m, scope) == HopelessSet(db, scope)
  {
    forall d | d in db.anchors ensures d in SweepMoves(m, scope) <==> d in HopelessSet(db, scope) {
      HopelessIsSwept(db, scope, m, d);
      SweepExactIn(m, scope.Evaluation(), d);
    }
  }

  lemma ReportReads(db: Db, scope: ReconcileScope, order: seq<Hash>, m: Db, w: Db, r: ReconcileReport)
    requires w == ReconcileBuildGraph(db, scope, order) && m == Flagged(db, scope, order)
    requires r == Report(db, scope, order)
    ensures r.dependencyFailed == Transitions(m, SweepMoves(m, scope), SweepStep(m, scope))
    ensures r.promoted == Transitions(SweepStep(m, scope), UnpromotedReady(SweepStep(m, scope)), w)
    ensures w == Promote(SweepStep(m, scope))
  {
    assert Transitions(m, {}, m) == {};
  }

  lemma MovesReported(db: Db, scope: ReconcileScope, m: Db, s: Db, w: Db, failed: set<DrvId>)
    requires m.anchors.Keys == db.anchors.Keys && failed == HopelessSet(db, scope) && w == Promote(s)
    requires forall d :: d in db.anchors ==> m.anchors[d].status == HealedStatus(db, scope, d)
    requires s.anchors.Keys == m.anchors.Keys
    requires forall d :: d in m.anchors ==>
               s.anchors[d].status == if d in failed then DependencyFailed else m.anchors[d].status
    ensures Transitions(m, failed, s)
            == set d | d in HopelessSet(db, scope) :: Transition(d, HealedStatus(db, scope, d), DependencyFailed)
    ensures Transitions(s, UnpromotedReady(s), w)
            == set d | d in MadeReady(db, scope, w) :: Transition(d, Created, Queued)
  {
    ReadyIsMade(db, scope, s, w);
    MovedTo(m, failed, s, DependencyFailed);
    MadeMoves(s, w, UnpromotedReady(s));
  }

  lemma MadeMoves(s: Db, w: Db, ds: set<DrvId>)
    requires ds <= s.anchors.Keys && w.anchors.Keys == s.anchors.Keys
    requires forall d :: d in ds ==> s.anchors[d].status == Created && w.anchors[d].status == Queued
    ensures Transitions(s, ds, w) == set d | d in ds :: Transition(d, Created, Queued)
  {
    MovedTo(s, ds, w, Queued);
  }

  /** The transitions of rows that all end with one status. */
  lemma MovedTo(a: Db, ds: set<DrvId>, b: Db, now: BuildStatus)
    requires ds <= a.anchors.Keys && a.anchors.Keys == b.anchors.Keys
    requires forall d :: d in ds ==> b.anchors[d].status == now
    ensures Transitions(a, ds, b) == set d | d in ds :: Transition(d, a.anchors[d].status, now)
  {
  }

  lemma ReadyIsMade(db: Db, scope: ReconcileScope, s: Db, w: Db)
    requires s.anchors.Keys == db.anchors.Keys && w == Promote(s)
    requires forall d :: d in db.anchors ==>
               s.anchors[d].status == if Hopeless(db, scope, d) then DependencyFailed else HealedStatus(db, scope, d)
    ensures UnpromotedReady(s) == MadeReady(db, scope, w)
    ensures w.anchors.Keys == s.anchors.Keys
    ensures forall d :: d in UnpromotedReady(s) ==> s.anchors[d].status == Created && w.anchors[d].status == Queued
  {
    forall d | d in db.anchors ensures d in UnpromotedReady(s) <==> d in MadeReady(db, scope, w) {
      ReadyRow(s, w, d);
    }
  }

  /** Promotion takes the rows that are `Created` with their inputs there, before and after alike. */
  lemma ReadyRow(s: Db, w: Db, d: DrvId)
    requires d in s.anchors && w == Promote(s)
    ensures d in UnpromotedReady(s) <==> s.anchors[d].status == Created && InputsThere(w, d)
  {
    PendingMoveKeeps(s, UnpromotedReady(s), Queued);
    InputsSame(s, w, d);
    JobThere(s, d);
  }

  lemma SweptRows(m: Db, scope: ReconcileScope, s: Db, failed: set<DrvId>)
    requires s == SweepStep(m, scope) && failed == SweepMoves(m, scope)
    ensures s.anchors.Keys == m.anchors.Keys
    ensures forall d :: d in m.anchors ==>
              s.anchors[d].status == if d in failed then DependencyFailed else m.anchors[d].status
  {
  }
}
