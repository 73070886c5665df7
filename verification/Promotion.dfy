/** The statements that move anchors through the build graph. Each is one
    simultaneous update that reads the state before it; the set it returns is the
    set of rows it touches. */
module Promotion {
  import opened Walks
  import opened Tables
  import opened Wrappers
  import opened Gates

  function SetStatus(db: Db, ds: set<DrvId>, s: BuildStatus): Db {
    db.(anchors := map d | d in db.anchors ::
          if d in ds then db.anchors[d].(status := s) else db.anchors[d])
  }

  // ----- edges_complete -----

  predicate HasEdges(db: Db, d: DrvId) { exists r :: r in db.edges && r.src == d }

  function EdgesMarked(db: Db, e: EvalId): set<DrvId> {
    set d | d in db.anchors && !db.anchors[d].edgesComplete && !db.anchors[d].edgesUnresolved
            && d in EvalClosure(db, e)
            && (HasEdges(db, d) || Job(e, d) in db.jobs)
  }

  function MarkEdges(db: Db, e: EvalId): Db {
    var marked := EdgesMarked(db, e);
    db.(anchors := map d | d in db.anchors ::
          if d in marked then db.anchors[d].(edgesComplete := true) else db.anchors[d])
  }

  /** Marking leaves no resolved anchor of the evaluation's closure that has an edge or a job
      unmarked, writes no other column, and counts the rows it changed. */
  lemma MarkEdgesMeans(db: Db, e: EvalId)
    ensures forall d :: d in db.anchors && d in EvalClosure(db, e) && !db.anchors[d].edgesUnresolved
                        && (HasEdges(db, d) || Job(e, d) in db.jobs)
              ==> MarkEdges(db, e).anchors[d].edgesComplete
    ensures forall d :: d in db.anchors ==>
              var now := MarkEdges(db, e).anchors[d];
              && now == db.anchors[d].(edgesComplete := now.edgesComplete)
              && (db.anchors[d].edgesComplete ==> now.edgesComplete)
    ensures EdgesMarked(db, e) == set d | d in db.anchors && MarkEdges(db, e).anchors[d] != db.anchors[d]
  {
  }

  // ----- the thaw -----

  /** The builder ran and exited non-zero: rebuilding reproduces it. */
  predicate DeterministicFailure(db: Db, d: DrvId) {
    Attempt(d, Failed, BuilderNonzero) in db.attempts
  }

  function DeterministicIn(db: Db, closure: set<DrvId>): set<DrvId> {
    set d | d in closure && d in db.anchors && DeterministicFailure(db, d)
  }

  /** The part of `closure` a reproducible failure poisons, closed upward inside it. */
  function DeterministicBlocked(db: Db, closure: set<DrvId>): set<DrvId> {
    Reach(Within(Flip(db.edges), closure), DeterministicIn(db, closure))
  }

  function Requeueables(db: Db, among: set<DrvId>, closure: set<DrvId>): set<DrvId> {
    set d | d in db.anchors && d in among && db.anchors[d].status.Requeueable()
            && d !in DeterministicBlocked(db, closure)
  }

  function Requeue(db: Db, ds: set<DrvId>): Db {
    db.(anchors := map d | d in db.anchors ::
          if d in ds then
            db.anchors[d].(status := Created, attempt := 0, closureComplete := false)
          else db.anchors[d])
  }

  function Thawed(db: Db, e: EvalId): set<DrvId> {
    Requeueables(db, EvalClosure(db, e), EvalClosure(db, e))
  }

  function Thaw(db: Db, e: EvalId): Db { Requeue(db, Thawed(db, e)) }

  /** One chunk of the thaw a new evaluation runs over the derivations it reports. */
  function RequeueAnchors(db: Db, ds: set<DrvId>): Db {
    Requeue(db, Requeueables(db, ds, Reach(db.edges, ds)))
  }

  /** A derivation is blocked exactly when a deterministic failure lies at or below it,
      whatever downward-closed candidate closure the query was given. */
  lemma BlockedIff(db: Db, closure: set<DrvId>, d: DrvId)
    requires Closed(db.edges, closure) && d in closure
    ensures d in DeterministicBlocked(db, closure)
            <==> exists f :: f in db.anchors && DeterministicFailure(db, f) && f in Reach(db.edges, {d})
  {
    var bad := set f | f in db.anchors && DeterministicFailure(db, f);
    assert DeterministicIn(db, closure) == bad * closure;
    UpwardWithin(db.edges, closure, bad);
    if d in DeterministicBlocked(db, closure) {
      var p := PathTo(Flip(db.edges), bad, d);
      var f := p[0];
      PathStays(Flip(db.edges), p, Reach(Flip(db.edges), {f}), |p| - 1);
      ReachConverse(db.edges, f, d);
    }
    if f :| f in db.anchors && DeterministicFailure(db, f) && f in Reach(db.edges, {d}) {
      ReachConverse(db.edges, f, d);
      ReachMonotone(Flip(db.edges), Flip(db.edges), {f}, bad);
    }
  }

  /** A failure at or below `d` that a rebuild would reproduce. */
  ghost predicate Reproducible(db: Db, d: DrvId) {
    exists f :: f in db.anchors && DeterministicFailure(db, f) && f in Reach(db.edges, {d})
  }

  /** The thaw of one row, in both directions. */
  lemma ThawExact(db: Db, e: EvalId, d: DrvId)
    requires d in db.anchors
    ensures d in Thaw(db, e).anchors
    ensures d in Thawed(db, e)
            <==> d in EvalClosure(db, e) && db.anchors[d].status.Requeueable() && !Reproducible(db, d)
    ensures Thaw(db, e).anchors[d] ==
            if d in EvalClosure(db, e) && db.anchors[d].status.Requeueable() && !Reproducible(db, d)
            then db.anchors[d].(status := Created, attempt := 0, closureComplete := false)
            else db.anchors[d]
  {
    if d in EvalClosure(db, e) { BlockedIff(db, EvalClosure(db, e), d); }
  }

  /** The thaw of the derivations a new evaluation reports, row by row: those among them that were
      stopped, without a builder failure at or below them, are to be tried again. */
  lemma RequeueExact(db: Db, ds: set<DrvId>, d: DrvId)
    requires d in db.anchors
    ensures d in RequeueAnchors(db, ds).anchors
    ensures RequeueAnchors(db, ds) == db.(anchors := RequeueAnchors(db, ds).anchors)
    ensures RequeueAnchors(db, ds).anchors[d] ==
            if d in ds && db.anchors[d].status in {FailedPermanent, FailedTimeout, DependencyFailed, Aborted}
               && !exists f :: f in db.anchors && f in Reach(db.edges, {d})
                               && Attempt(f, Failed, BuilderNonzero) in db.attempts
            then db.anchors[d].(status := Created, attempt := 0, closureComplete := false)
            else db.anchors[d]
  {
    if d in ds {
      BlockedIff(db, Reach(db.edges, ds), d);
      assert (exists f :: f in db.anchors && DeterministicFailure(db, f) && f in Reach(db.edges, {d})) <==>
             exists f :: f in db.anchors && f in Reach(db.edges, {d})
                         && Attempt(f, Failed, BuilderNonzero) in db.attempts;
    }
  }

  /** Splitting the thawed derivations into chunks thaws what one statement would. */
  lemma RequeueChunks(db: Db, a: set<DrvId>, b: set<DrvId>)
    ensures RequeueAnchors(RequeueAnchors(db, a), b) == RequeueAnchors(db, a + b)
  {
    var mid := RequeueAnchors(db, a);
    var ca, cb, cab := Reach(db.edges, a), Reach(db.edges, b), Reach(db.edges, a + b);
    ReachUnion(db.edges, a, b);
    forall d | d in db.anchors && d in a + b
      ensures d in a ==> (d in DeterministicBlocked(db, ca) <==> d in DeterministicBlocked(db, cab))
      ensures d in b ==> (d in DeterministicBlocked(mid, cb) <==> d in DeterministicBlocked(db, cab))
    {
      BlockedIff(db, cab, d);
      if d in a { BlockedIff(db, ca, d); }
      if d in b { BlockedIff(mid, cb, d); }
    }
    assert RequeueAnchors(mid, b).anchors == RequeueAnchors(db, a + b).anchors;
  }

  // ----- cache presence is ground truth -----

  predicate HasOutputs(db: Db, d: DrvId) { exists o :: o in db.outputs && o.derivation == d }

  /** All outputs, and at least one, are in the cache. */
  predicate FullyCached(db: Db, d: DrvId) { HasOutputs(db, d) && OutputsBacked(db, d) }

  function CachedReconciled(db: Db, e: EvalId): set<DrvId> {
    set d | d in db.anchors && d in EvalClosure(db, e)
            && (!db.anchors[d].status.TerminalSuccess() || !db.anchors[d].closureComplete)
            && FullyCached(db, d)
  }

  function Recompleted(a: Anchor): Anchor {
    a.(status := if a.status.TerminalSuccess() then a.status else Completed,
       closureComplete := true,
       edgesComplete := true)
  }

  function CachedReconcile(db: Db, e: EvalId): Db {
    var touched := CachedReconciled(db, e);
    db.(anchors := map d | d in db.anchors ::
          if d in touched then Recompleted(db.anchors[d]) else db.anchors[d])
  }

  /** Cache presence wins inside the closure, and changes no other row. */
  lemma CachedReconcileMeans(db: Db, e: EvalId, d: DrvId)
    requires d in db.anchors
    ensures d in CachedReconcile(db, e).anchors
    ensures d in EvalClosure(db, e) && FullyCached(db, d) ==>
              CachedReconcile(db, e).anchors[d].status.TerminalSuccess()
              && CachedReconcile(db, e).anchors[d].closureComplete
    ensures !(d in EvalClosure(db, e) && FullyCached(db, d)) ==> CachedReconcile(db, e).anchors[d] == db.anchors[d]
    ensures d in CachedReconciled(db, e) <==> CachedReconcile(db, e).anchors[d] != db.anchors[d]
  {
  }

  // ----- promotion -----

  function Promote(db: Db): Db { SetStatus(db, UnpromotedReady(db), Queued) }

  // ----- failure propagation -----

  function TerminalFailures(db: Db): set<DrvId> {
    set d | d in db.anchors && db.anchors[d].status.TerminalFailure()
  }

  function CascadeTargets(db: Db): set<DrvId> {
    set d | d in db.anchors && db.anchors[d].status.CascadeTarget()
  }

  /** The reactive cascade from one fresh failure. */
  function CascadeFailed(db: Db, f: DrvId): set<DrvId> {
    CascadeTargets(db) * (Reach(Flip(db.edges), {f}) - {f})
  }

  function Cascade(db: Db, f: DrvId): Db { SetStatus(db, CascadeFailed(db, f), DependencyFailed) }

  function CascadeAll(db: Db, fs: seq<DrvId>): Db
    decreases |fs|
  {
    if fs == [] then db else Cascade(CascadeAll(db, fs[..|fs| - 1]), fs[|fs| - 1])
  }

  /** The anchors the sweep finds above a terminal failure. */
  function SweepReach(db: Db, scope: Option<EvalId>): set<DrvId> {
    match scope
    case None => Reach(Flip(db.edges), TerminalFailures(db))
    case Some(e) =>
      Reach(Within(Flip(db.edges), EvalClosure(db, e)), TerminalFailures(db) * EvalClosure(db, e))
  }

  function SweepFailed(db: Db, scope: Option<EvalId>): set<DrvId> {
    match scope
    case None => CascadeTargets(db) * SweepReach(db, scope)
    case Some(e) => CascadeTargets(db) * SweepReach(db, scope) * EvalClosure(db, e)
  }

  function Sweep(db: Db, scope: Option<EvalId>): Db {
    SetStatus(db, SweepFailed(db, scope), DependencyFailed)
  }

  /** After the global sweep nothing waits above a terminal failure. */
  lemma SweepSettles(db: Db, d: DrvId, f: DrvId)
    requires d in db.anchors && f in db.anchors
    requires f in Reach(db.edges, {d})
    requires Sweep(db, None).anchors[f].status.TerminalFailure()
    ensures !Sweep(db, None).anchors[d].status.CascadeTarget()
  {
    var up := SweepReach(db, None);
    assert f in up;
    ReachConverse(db.edges, f, d);
    ReachIsLeast(Flip(db.edges), {f}, up);
  }

  /** The sweep moves pending anchors with a failure below them, and nothing else. */
  lemma SweepExact(db: Db, d: DrvId)
    requires d in db.anchors
    ensures Sweep(db, None).anchors[d] ==
            if db.anchors[d].status.CascadeTarget()
               && exists f :: f in TerminalFailures(db) && f in Reach(db.edges, {d})
            then db.anchors[d].(status := DependencyFailed)
            else db.anchors[d]
  {
    var up := SweepReach(db, None);
    if d in up {
      var p := PathTo(Flip(db.edges), TerminalFailures(db), d);
      var f := p[0];
      PathStays(Flip(db.edges), p, Reach(Flip(db.edges), {f}), |p| - 1);
      ReachConverse(db.edges, f, d);
    }
    if f :| f in TerminalFailures(db) && f in Reach(db.edges, {d}) {
      ReachConverse(db.edges, f, d);
      ReachMonotone(Flip(db.edges), Flip(db.edges), {f}, TerminalFailures(db));
    }
  }

  /** The same for one evaluation: only inside its closure. */
  lemma SweepExactIn(db: Db, scope: Option<EvalId>, d: DrvId)
    requires d in db.anchors
    ensures d in SweepFailed(db, scope) <==> Swept(db, scope, d)
    ensures Sweep(db, scope).anchors[d] ==
            if Swept(db, scope, d) then db.anchors[d].(status := DependencyFailed) else db.anchors[d]
  {
    SweepExact(db, d);
    if scope.Some? { SweepScoped(db, scope.value); }
  }

  ghost predicate Swept(db: Db, scope: Option<EvalId>, d: DrvId) {
    && d in db.anchors && db.anchors[d].status.CascadeTarget()
    && (scope.Some? ==> d in EvalClosure(db, scope.value))
    && exists f :: f in TerminalFailures(db) && f in Reach(db.edges, {d})
  }

  /** The cascade moves the pending anchors that depend on the failed one, and no other. */
  lemma CascadeExact(db: Db, f: DrvId, d: DrvId)
    requires d in db.anchors
    ensures d in CascadeFailed(db, f)
            <==> db.anchors[d].status.CascadeTarget() && d != f && f in Reach(db.edges, {d})
    ensures Cascade(db, f).anchors[d] ==
            if db.anchors[d].status.CascadeTarget() && d != f && f in Reach(db.edges, {d})
            then db.anchors[d].(status := DependencyFailed) else db.anchors[d]
  {
    ReachConverse(db.edges, f, d);
  }

  /** Inside an evaluation's closure the scoped sweep is the global one; outside it
      touches nothing. */
  lemma SweepScoped(db: Db, e: EvalId)
    ensures SweepFailed(db, Some(e)) == SweepFailed(db, None) * EvalClosure(db, e)
  {
    UpwardWithin(db.edges, EvalClosure(db, e), TerminalFailures(db));
  }

  /** A second sweep finds nothing to fail. */
  lemma SweepIdempotent(db: Db, scope: Option<EvalId>)
    ensures SweepFailed(Sweep(db, scope), scope) == {}
    ensures Sweep(Sweep(db, scope), scope) == Sweep(db, scope)
  {
    var after := Sweep(db, scope);
    SweepReachStable(db, scope);
    assert SweepFailed(after, scope) == {};
    SetStatusNone(after, DependencyFailed);
  }

  lemma SetStatusNone(db: Db, s: BuildStatus)
    ensures SetStatus(db, {}, s) == db
  {
    assert SetStatus(db, {}, s).anchors == db.anchors;
  }

  /** The anchors a sweep just failed lie above older failures already. */
  lemma SweepReachStable(db: Db, scope: Option<EvalId>)
    ensures SweepReach(Sweep(db, scope), scope) <= SweepReach(db, scope)
  {
    var after := Sweep(db, scope);
    var up := SweepReach(db, scope);
    match scope {
      case None =>
        ReachIsLeast(Flip(db.edges), TerminalFailures(after), up);
      case Some(e) =>
        var c := EvalClosure(db, e);
        ReachIsLeast(Within(Flip(db.edges), c), TerminalFailures(after) * c, up);
    }
  }

  /** The state after failing every pending anchor above `s`. */
  function FailedAbove(db: Db, s: set<DrvId>): Db {
    SetStatus(db, CascadeTargets(db) * Reach(Flip(db.edges), s), DependencyFailed)
  }

  lemma CascadeAfter(db: Db, s: set<DrvId>, f: DrvId)
    requires f !in CascadeTargets(db)
    ensures Cascade(FailedAbove(db, s), f) == FailedAbove(db, s + {f})
  {
    var up := Flip(db.edges);
    var mid := FailedAbove(db, s);
    ReachUnion(up, s, {f});
    assert CascadeTargets(mid) == CascadeTargets(db) - Reach(up, s);
    assert Cascade(mid, f).anchors == FailedAbove(db, s + {f}).anchors;
  }

  lemma {:induction false} CascadeAllFails(db: Db, fs: seq<DrvId>)
    requires forall f :: f in fs ==> f !in CascadeTargets(db)
    ensures CascadeAll(db, fs) == FailedAbove(db, Elements(fs))
    decreases |fs|
  {
    if fs == [] {
      assert Elements(fs) == {};
      ReachIsLeast(Flip(db.edges), {}, {});
      assert FailedAbove(db, {}).anchors == db.anchors;
    } else {
      var rest, f := fs[..|fs| - 1], fs[|fs| - 1];
      CascadeAllFails(db, rest);
      CascadeAfter(db, Elements(rest), f);
      ElementsLast(fs);
    }
  }

  /** Cascading from every standing failure, in any order, is the sweep. */
  lemma SweepIsCascades(db: Db, fs: seq<DrvId>)
    requires Elements(fs) == TerminalFailures(db)
    ensures CascadeAll(db, fs) == Sweep(db, None)
  {
    forall f | f in fs ensures f !in CascadeTargets(db) {
      assert f in TerminalFailures(db);
    }
    CascadeAllFails(db, fs);
  }
}
