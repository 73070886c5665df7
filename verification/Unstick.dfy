/** The graph-stuck heal: no thaw is undone by the sweep of the same pass, and what a
    second identical pass can still change. */
module Unstick {
  import opened Walks
  import opened FlagFixpoint
  import opened Tables
  import opened Wrappers
  import opened Gates
  import opened Promotion
  import opened CacheStorage
  import opened Reconcile

  function Pass(db: Db, e: EvalId): Db { ReconcileBuildGraph(db, Unstick(e), []) }

  /** The pass up to its flag fixpoints, and up to its failure sweep. */
  function HealedBy(db: Db, e: EvalId): Db { Healed(db, Unstick(e), []) }

  function FlaggedBy(db: Db, e: EvalId): Db { Flagged(db, Unstick(e), []) }

  /** What the pass reports as thawed, failed and promoted. */
  function ThawedBy(db: Db, e: EvalId): set<DrvId> { Thawed(MarkEdges(db, e), e) }

  function FailedBy(db: Db, e: EvalId): set<DrvId> { SweepFailed(FlaggedBy(db, e), Some(e)) }

  function PromotedBy(db: Db, e: EvalId): set<DrvId> {
    UnpromotedReady(Sweep(FlaggedBy(db, e), Some(e)))
  }

  // ----- the pass, row by row -----

  function Marked(a: Anchor, mark: bool): Anchor {
    a.(edgesComplete := a.edgesComplete || mark)
  }

  function Thawn(a: Anchor, thaw: bool): Anchor {
    if thaw then a.(status := Created, attempt := 0, closureComplete := false) else a
  }

  function Recached(a: Anchor, cached: bool): Anchor {
    if cached && (!a.status.TerminalSuccess() || !a.closureComplete) then Recompleted(a) else a
  }

  /** `h` is `db` after marking `marked`, thawing `thawed` and re-trusting cached outputs
      inside `c`. */
  ghost predicate Heals(db: Db, h: Db, c: set<DrvId>, marked: set<DrvId>, thawed: set<DrvId>) {
    && SameFacts(db, h) && h.paths == db.paths && h.refs == db.refs && h.upstream == db.upstream
    && forall d :: d in db.anchors ==>
         h.anchors[d] == Recached(Thawn(Marked(db.anchors[d], d in marked), d in thawed),
                                  d in c && FullyCached(db, d))
  }

  /** `m` is `h` with some derived flags rewritten. */
  ghost predicate FlagsOnly(h: Db, m: Db) {
    && SameFacts(h, m) && m.refs == h.refs && m.upstream == h.upstream
    && m.paths.Keys == h.paths.Keys
    && (forall x :: x in h.paths ==> m.paths[x].backed == h.paths[x].backed)
    && forall d :: d in h.anchors ==> SameButFlags(h.anchors[d], m.anchors[d])
  }

  predicate SameButFlags(a: Anchor, b: Anchor) {
    && a.status == b.status && a.substitutable == b.substitutable && a.substituted == b.substituted
    && a.edgesComplete == b.edgesComplete && a.edgesUnresolved == b.edgesUnresolved
    && a.attempt == b.attempt
  }

  /** `w` is `m` with `failed` failed and some `Created` anchors queued. */
  ghost predicate Settles(m: Db, w: Db, failed: set<DrvId>) {
    && SameFacts(m, w) && w.paths == m.paths && w.refs == m.refs && w.upstream == m.upstream
    && forall d :: d in m.anchors ==> SettledRow(m.anchors[d], w.anchors[d], d in failed)
  }

  predicate SettledRow(a: Anchor, b: Anchor, fails: bool) {
    && SameButFlags(a.(status := b.status), b)
    && a.closureComplete == b.closureComplete && a.drvClosureCached == b.drvClosureCached
    && (if fails then a.status.CascadeTarget() && b.status == DependencyFailed
        else b.status == a.status || (a.status == Created && b.status == Queued))
  }

  /** Two states that differ in anchor rows alone. */
  ghost predicate AnchorsOnly(a: Db, b: Db) {
    SameFacts(a, b) && b.paths == a.paths && b.refs == a.refs && b.upstream == a.upstream
  }

  lemma MarkIs(db: Db, e: EvalId, m: Db)
    requires m == MarkEdges(db, e)
    ensures AnchorsOnly(db, m)
    ensures forall d :: d in db.anchors ==> m.anchors[d] == Marked(db.anchors[d], d in EdgesMarked(db, e))
  {
  }

  lemma ThawIs(db: Db, e: EvalId, m: Db, thawed: set<DrvId>)
    requires thawed == Thawed(db, e) && m == Requeue(db, thawed)
    ensures AnchorsOnly(db, m)
    ensures forall d :: d in db.anchors ==> m.anchors[d] == Thawn(db.anchors[d], d in thawed)
  {
  }

  lemma CachedIs(db: Db, e: EvalId, c: set<DrvId>, m: Db)
    requires m == CachedReconcile(db, e) && c == EvalClosure(db, e)
    ensures AnchorsOnly(db, m)
    ensures forall d :: d in db.anchors ==>
              m.anchors[d] == Recached(db.anchors[d], d in c && FullyCached(db, d))
  {
  }

  lemma HealedHeals(db: Db, e: EvalId)
    ensures Heals(db, HealedBy(db, e), EvalClosure(db, e), EdgesMarked(db, e), ThawedBy(db, e))
  {
    var m := MarkEdges(db, e);
    MarkIs(db, e, m);
    var t := Thaw(m, e);
    ThawIs(m, e, t, ThawedBy(db, e));
    SameBounds(db, t, e);
    CachedIs(t, e, EvalClosure(db, e), HealedBy(db, e));
    HealsCompose(db, m, t, HealedBy(db, e), EvalClosure(db, e), EdgesMarked(db, e), ThawedBy(db, e));
  }

  lemma HealsCompose(db: Db, m: Db, t: Db, h: Db, c: set<DrvId>, marked: set<DrvId>, thawed: set<DrvId>)
    requires AnchorsOnly(db, m) && AnchorsOnly(m, t) && AnchorsOnly(t, h)
    requires forall d :: d in db.anchors ==> m.anchors[d] == Marked(db.anchors[d], d in marked)
    requires forall d :: d in m.anchors ==> t.anchors[d] == Thawn(m.anchors[d], d in thawed)
    requires forall d :: d in t.anchors ==>
               h.anchors[d] == Recached(t.anchors[d], d in c && FullyCached(t, d))
    ensures Heals(db, h, c, marked, thawed)
  {
    forall d | d in db.anchors ensures FullyCached(t, d) <==> FullyCached(db, d) {
      FullyCachedSame(db, t, d);
    }
  }

  lemma FullyCachedSame(a: Db, b: Db, d: DrvId)
    requires a.outputs == b.outputs
    requires forall h :: Backed(a, h) <==> Backed(b, h)
    ensures FullyCached(a, d) <==> FullyCached(b, d)
  {
  }

  lemma FlaggedFlagsOnly(db: Db, e: EvalId)
    ensures FlagsOnly(HealedBy(db, e), FlaggedBy(db, e))
  {
    FlagWrites(HealedBy(db, e), e);
  }

  lemma FlagWrites(h: Db, e: EvalId)
    ensures FlagsOnly(h, AnchorsStep(PathsStep(h, Unstick(e)), Unstick(e)))
  {
    var p := PathsStep(h, Unstick(e));
    var drv := Fix(DrvSystem(p), AnchorBound(p, Some(e)), DrvFlags(p));
    var q := WithDrv(p, drv);
    var closure := Fix(ClosureSystem(q), AnchorBound(q, Some(e)), ClosureFlags(q));
    TwoFlagWrites(h, p, drv, closure);
  }

  lemma TwoFlagWrites(h: Db, p: Db, drv: set<DrvId>, closure: set<DrvId>)
    requires p == h.(paths := p.paths) && p.paths.Keys == h.paths.Keys
    requires forall x :: x in h.paths ==> p.paths[x].backed == h.paths[x].backed
    ensures FlagsOnly(h, WithClosure(WithDrv(p, drv), closure))
  {
  }

  lemma PassSettles(db: Db, e: EvalId)
    ensures Settles(FlaggedBy(db, e), Pass(db, e), FailedBy(db, e))
  {
    var m := FlaggedBy(db, e);
    var s := Sweep(m, Some(e));
    assert Pass(db, e) == SetStatus(s, UnpromotedReady(s), Queued);
    TwoMovesSettle(m, s, FailedBy(db, e), UnpromotedReady(s));
  }

  lemma TwoMovesSettle(m: Db, s: Db, failed: set<DrvId>, promoted: set<DrvId>)
    requires failed <= CascadeTargets(m) && s == SetStatus(m, failed, DependencyFailed)
    requires forall d :: d in promoted ==> d in s.anchors && s.anchors[d].status == Created
    ensures Settles(m, SetStatus(s, promoted, Queued), failed)
  {
  }

  // ----- one row through the pass -----

  lemma HealedRow(db: Db, e: EvalId, d: DrvId)
    requires d in db.anchors
    ensures d in HealedBy(db, e).anchors
    ensures HealedBy(db, e).anchors[d]
            == Recached(Thawn(Marked(db.anchors[d], d in EdgesMarked(db, e)), d in ThawedBy(db, e)),
                        d in EvalClosure(db, e) && FullyCached(db, d))
  {
    HealedHeals(db, e);
  }

  /** How one anchor moves through the pass: healed to `h`, then to its final row `w`. */
  ghost predicate RowMove(a: Anchor, h: Anchor, w: Anchor, mark: bool, thaw: bool, cached: bool, fails: bool) {
    && h == Recached(Thawn(Marked(a, mark), thaw), cached)
    && (thaw ==> a.status.Requeueable())
    && w.edgesComplete == h.edgesComplete && w.edgesUnresolved == h.edgesUnresolved
    && (if fails then h.status.CascadeTarget() && w.status == DependencyFailed
        else w.status == h.status || (h.status == Created && w.status == Queued))
  }

  lemma PassRow(db: Db, e: EvalId, d: DrvId)
    requires d in db.anchors
    ensures d in HealedBy(db, e).anchors && d in Pass(db, e).anchors
    ensures RowMove(db.anchors[d], HealedBy(db, e).anchors[d], Pass(db, e).anchors[d],
                    d in EdgesMarked(db, e), d in ThawedBy(db, e),
                    d in EvalClosure(db, e) && FullyCached(db, d), d in FailedBy(db, e))
  {
    HealedRow(db, e, d);
    FlaggedRow(db, e, d);
    FinalRow(db, e, d);
    RowCompose(db.anchors[d], HealedBy(db, e).anchors[d], FlaggedBy(db, e).anchors[d],
               Pass(db, e).anchors[d], d in EdgesMarked(db, e), d in ThawedBy(db, e),
               d in EvalClosure(db, e) && FullyCached(db, d), d in FailedBy(db, e));
  }

  lemma FlaggedRow(db: Db, e: EvalId, d: DrvId)
    requires d in HealedBy(db, e).anchors
    ensures d in FlaggedBy(db, e).anchors
    ensures SameButFlags(HealedBy(db, e).anchors[d], FlaggedBy(db, e).anchors[d])
  {
    FlaggedFlagsOnly(db, e);
  }

  lemma FinalRow(db: Db, e: EvalId, d: DrvId)
    requires d in FlaggedBy(db, e).anchors
    ensures d in Pass(db, e).anchors
    ensures SettledRow(FlaggedBy(db, e).anchors[d], Pass(db, e).anchors[d], d in FailedBy(db, e))
  {
    PassSettles(db, e);
  }

  lemma RowCompose(a: Anchor, h: Anchor, m: Anchor, w: Anchor, mark: bool, thaw: bool, cached: bool, fails: bool)
    requires h == Recached(Thawn(Marked(a, mark), thaw), cached) && (thaw ==> a.status.Requeueable())
    requires SameButFlags(h, m) && SettledRow(m, w, fails)
    ensures RowMove(a, h, w, mark, thaw, cached, fails)
  {
  }

  lemma RowRequeueable(a: Anchor, h: Anchor, w: Anchor, mark: bool, thaw: bool, cached: bool, fails: bool)
    requires RowMove(a, h, w, mark, thaw, cached, fails)
    ensures h.status.Requeueable() ==> a.status.Requeueable() && !thaw
    ensures w.status.Requeueable() ==> fails || (a.status.Requeueable() && !thaw)
  {
  }

  lemma RowSuccess(a: Anchor, h: Anchor, w: Anchor, mark: bool, thaw: bool, cached: bool, fails: bool)
    requires RowMove(a, h, w, mark, thaw, cached, fails)
    ensures cached ==> w.status.TerminalSuccess()
    ensures var trusted := a.status.TerminalSuccess() && a.closureComplete;
            && (cached ==> (w.edgesComplete <==> !trusted || a.edgesComplete || mark))
            && (trusted ==> w.status == a.status)
    ensures a.edgesComplete || mark ==> w.edgesComplete
    ensures w.edgesUnresolved == a.edgesUnresolved
  {
  }

  /** The heal steps of a second pass, on a row the first pass left. */
  lemma RowAgain(w: Anchor, h2: Anchor, mark: bool, cached: bool)
    requires h2 == Recached(Thawn(Marked(w, mark), false), cached)
    requires cached ==> w.status.TerminalSuccess()
    ensures h2.status == w.status
    ensures !mark && (cached && !w.closureComplete ==> w.edgesComplete)
            ==> h2 == w.(closureComplete := w.closureComplete || cached)
  {
  }

  // ----- no thaw is undone -----

  lemma SameBounds(a: Db, b: Db, e: EvalId)
    requires SameFacts(a, b)
    ensures EvalClosure(a, e) == EvalClosure(b, e)
    ensures DeterministicBlocked(a, EvalClosure(a, e)) == DeterministicBlocked(b, EvalClosure(b, e))
  {
    assert DeterministicIn(a, EvalClosure(a, e)) == DeterministicIn(b, EvalClosure(b, e));
  }

  /** The thawed set, named by the closure and the blocked set of the state before. */
  lemma ThawedIs(db: Db, e: EvalId, c: set<DrvId>, b: set<DrvId>)
    requires c == EvalClosure(db, e) && b == DeterministicBlocked(db, c)
    ensures ThawedBy(db, e)
            == set d | d in db.anchors && d in c && db.anchors[d].status.Requeueable() && d !in b
  {
    MarkIs(db, e, MarkEdges(db, e));
    SameBounds(db, MarkEdges(db, e), e);
  }

  /** A sweep over a state whose failures in `c` are all blocked stays blocked. */
  lemma SweepStaysBlocked(m: Db, e: EvalId, c: set<DrvId>, b: set<DrvId>)
    requires c == EvalClosure(m, e) && b == DeterministicBlocked(m, c)
    requires forall d :: d in m.anchors && d in c && d !in b ==> !m.anchors[d].status.Requeueable()
    ensures SweepFailed(m, Some(e)) <= b
  {
    ReachIsLeast(Within(Flip(m.edges), c), TerminalFailures(m) * c, b);
  }

  lemma FlaggedKeepsBounds(db: Db, e: EvalId, m: Db)
    requires m == FlaggedBy(db, e)
    ensures SameFacts(db, m)
  {
    HealedHeals(db, e);
    FlaggedFlagsOnly(db, e);
  }

  /** No anchor is thawed and then failed again in the same pass: the sweep finds only
      anchors at or above a reproducible failure, which the thaw skipped. */
  lemma NoThawThenFail(db: Db, e: EvalId)
    ensures FailedBy(db, e) <= DeterministicBlocked(db, EvalClosure(db, e))
    ensures ThawedBy(db, e) !! FailedBy(db, e)
  {
    var c := EvalClosure(db, e);
    var b := DeterministicBlocked(db, c);
    var m := FlaggedBy(db, e);
    FlaggedKeepsBounds(db, e, m);
    SameBounds(db, m, e);
    ThawedIs(db, e, c, b);
    forall d | d in m.anchors && d in c && d !in b ensures !m.anchors[d].status.Requeueable() {
      PassRow(db, e, d);
      FlaggedRow(db, e, d);
      RowRequeueable(db.anchors[d], HealedBy(db, e).anchors[d], Pass(db, e).anchors[d],
                     d in EdgesMarked(db, e), d in ThawedBy(db, e),
                     d in c && FullyCached(db, d), d in FailedBy(db, e));
    }
    SweepStaysBlocked(m, e, c, b);
  }

  // ----- a second identical pass -----

  lemma PassKeepsBounds(db: Db, e: EvalId, w: Db)
    requires w == Pass(db, e)
    ensures SameFacts(db, w) && w.refs == db.refs && w.upstream == db.upstream
    ensures forall x :: Backed(w, x) <==> Backed(db, x)
  {
    HealedHeals(db, e);
    FlaggedFlagsOnly(db, e);
    PassSettles(db, e);
  }

  lemma SecondThawEmpty(db: Db, e: EvalId)
    ensures ThawedBy(Pass(db, e), e) == {}
  {
    var c := EvalClosure(db, e);
    var b := DeterministicBlocked(db, c);
    var w := Pass(db, e);
    PassKeepsBounds(db, e, w);
    SameBounds(db, w, e);
    ThawedIs(db, e, c, b);
    ThawedIs(w, e, c, b);
    NoThawThenFail(db, e);
    forall d | d in w.anchors && d in c && d !in b ensures !w.anchors[d].status.Requeueable() {
      PassRow(db, e, d);
      RowRequeueable(db.anchors[d], HealedBy(db, e).anchors[d], w.anchors[d],
                     d in EdgesMarked(db, e), d in ThawedBy(db, e),
                     d in c && FullyCached(db, d), d in FailedBy(db, e));
    }
  }

  /** A row through the heal steps of the second pass. */
  lemma SecondRow(db: Db, e: EvalId, w: Db, d: DrvId)
    requires w == Pass(db, e) && d in w.anchors
    ensures d in db.anchors && d in HealedBy(w, e).anchors
    ensures HealedBy(w, e).anchors[d]
            == Recached(Thawn(Marked(w.anchors[d], d in EdgesMarked(w, e)), false),
                        d in EvalClosure(db, e) && FullyCached(db, d))
    ensures d in EvalClosure(db, e) && FullyCached(db, d) ==> w.anchors[d].status.TerminalSuccess()
    ensures HealedBy(w, e).anchors[d].status == w.anchors[d].status
  {
    PassKeepsBounds(db, e, w);
    SameBounds(db, w, e);
    SecondThawEmpty(db, e);
    FullyCachedSame(db, w, d);
    PassRow(db, e, d);
    RowSuccess(db.anchors[d], HealedBy(db, e).anchors[d], w.anchors[d],
               d in EdgesMarked(db, e), d in ThawedBy(db, e),
               d in EvalClosure(db, e) && FullyCached(db, d), d in FailedBy(db, e));
    HealedRow(w, e, d);
    RowAgain(w.anchors[d], HealedBy(w, e).anchors[d], d in EdgesMarked(w, e),
             d in EvalClosure(db, e) && FullyCached(db, d));
  }

  lemma SweepFailedSame(a: Db, b: Db, e: EvalId)
    requires SameFacts(a, b)
    requires TerminalFailures(a) == TerminalFailures(b) && CascadeTargets(a) == CascadeTargets(b)
    ensures SweepFailed(a, Some(e)) == SweepFailed(b, Some(e))
  {
  }

  lemma PromoteKeepsSweep(s: Db, e: EvalId)
    ensures SweepFailed(Promote(s), Some(e)) == SweepFailed(s, Some(e))
  {
    var w := SetStatus(s, UnpromotedReady(s), Queued);
    assert TerminalFailures(w) == TerminalFailures(s);
    assert CascadeTargets(w) == CascadeTargets(s);
    SweepFailedSame(w, s, e);
  }

  lemma SweepAfterPassEmpty(db: Db, e: EvalId)
    ensures SweepFailed(Pass(db, e), Some(e)) == {}
  {
    SweepIdempotent(FlaggedBy(db, e), Some(e));
    PromoteKeepsSweep(Sweep(FlaggedBy(db, e), Some(e)), e);
  }

  lemma SameStatusesSweepAlike(w: Db, m: Db, e: EvalId)
    requires SameFacts(w, m)
    requires forall d :: d in w.anchors ==> m.anchors[d].status == w.anchors[d].status
    ensures SweepFailed(m, Some(e)) == SweepFailed(w, Some(e))
  {
    assert TerminalFailures(m) == TerminalFailures(w);
    assert CascadeTargets(m) == CascadeTargets(w);
    SweepFailedSame(m, w, e);
  }

  /** From any state, cycles included, a second identical pass thaws and fails nothing:
      thaw and sweep never oscillate. */
  lemma SecondPassThawsAndFailsNothing(db: Db, e: EvalId)
    ensures ThawedBy(Pass(db, e), e) == {}
    ensures FailedBy(Pass(db, e), e) == {}
  {
    var w := Pass(db, e);
    SecondThawEmpty(db, e);
    var m := FlaggedBy(w, e);
    FlaggedKeepsBounds(w, e, m);
    forall d | d in w.anchors ensures m.anchors[d].status == w.anchors[d].status {
      SecondRow(db, e, w, d);
      FlaggedRow(w, e, d);
    }
    SameStatusesSweepAlike(w, m, e);
    SweepAfterPassEmpty(db, e);
  }

  // ----- when a second pass changes nothing at all -----

  /** An anchor trusted before its edges were flushed: the cached-anchor step skips it
      because it is already trusted, and the CLEAR pass then strips the trust. */
  predicate FrozenTrust(db: Db, e: EvalId, d: DrvId)
    requires d in db.anchors
  {
    && d in EvalClosure(db, e)
    && db.anchors[d].status.TerminalSuccess() && db.anchors[d].closureComplete
    && !db.anchors[d].edgesComplete && d !in EdgesMarked(db, e)
    && FullyCached(db, d)
    && !(db.anchors[d].status == Substituted && OutputsClosed(ReconcilePaths(db, Some(e)), d))
  }

  lemma PathsOfPass(db: Db, e: EvalId)
    ensures Pass(db, e).paths == ReconcilePaths(db, Some(e)).paths
  {
    var h := HealedBy(db, e);
    HealedHeals(db, e);
    ReconcilePathsSame(db, h, e);
    assert Pass(db, e).paths == PathsStep(h, Unstick(e)).paths;
  }

  lemma ReconcilePathsSame(a: Db, b: Db, e: EvalId)
    requires AnchorsOnly(a, b)
    ensures ReconcilePaths(a, Some(e)).paths == ReconcilePaths(b, Some(e)).paths
    ensures PathBound(a, Some(e)) == PathBound(b, Some(e))
  {
    assert PathSystem(a) == PathSystem(b) && PathFlags(a) == PathFlags(b);
    assert EvalDrvs(a, e) == EvalDrvs(b, e);
  }

  lemma PassFlagIsGate(db: Db, e: EvalId, d: DrvId)
    requires d in db.anchors && d in EvalClosure(db, e)
    ensures d in Pass(db, e).anchors
    ensures Pass(db, e).anchors[d].closureComplete <==> ClosureGate(Pass(db, e), d)
  {
    PassKeepsFacts(db, Unstick(e), []);
    AnchorsConverge(db, Unstick(e), []);
    ClosureGateIsSystem(Pass(db, e), d);
  }

  lemma OutputsClosedSame(a: Db, b: Db, d: DrvId)
    requires a.paths == b.paths && a.outputs == b.outputs
    ensures OutputsClosed(a, d) <==> OutputsClosed(b, d)
  {
  }

  /** With edges unflushed, only the substituted arm of the gate can hold. */
  lemma UnflushedGate(w: Db, r: Db, d: DrvId)
    requires d in w.anchors && w.anchors[d].status.TerminalSuccess()
    requires w.paths == r.paths && w.outputs == r.outputs
    requires !w.anchors[d].edgesComplete
    ensures ClosureGate(w, d) <==> w.anchors[d].status == Substituted && OutputsClosed(r, d)
  {
    OutputsClosedSame(w, r, d);
  }

  /** The one fact behind both directions below: a fully cached anchor comes out of the
      first pass untrusted with its edges still unflushed exactly when its trust was
      frozen. */
  lemma FrozenTrustFate(db: Db, e: EvalId, d: DrvId)
    requires d in db.anchors && d in EvalClosure(db, e) && FullyCached(db, d)
    ensures d in Pass(db, e).anchors && Pass(db, e).anchors[d].status.TerminalSuccess()
    ensures FrozenTrust(db, e, d)
            <==> !Pass(db, e).anchors[d].edgesComplete && !Pass(db, e).anchors[d].closureComplete
  {
    var w := Pass(db, e);
    PassRow(db, e, d);
    RowSuccess(db.anchors[d], HealedBy(db, e).anchors[d], w.anchors[d],
               d in EdgesMarked(db, e), d in ThawedBy(db, e), true, d in FailedBy(db, e));
    PassFlagIsGate(db, e, d);
    PathsOfPass(db, e);
    PassKeepsBounds(db, e, w);
    if !w.anchors[d].edgesComplete { UnflushedGate(w, ReconcilePaths(db, Some(e)), d); }
  }

  /** The dependencies the built arm of the closure gate asks for. */
  ghost predicate DepsComplete(db: Db, d: DrvId) {
    forall r :: r in db.edges && r.src == d ==>
      r.dst in db.anchors && (db.anchors[r.dst].closureComplete || db.anchors[r.dst].substitutable)
  }

  /** What becomes of frozen trust: the first pass takes the flag and leaves the edges
      unflushed, the second flushes them, and the anchor is trusted again exactly when it was
      built, not substituted, and its dependencies are complete by then. */
  lemma FrozenTrustChanges(db: Db, e: EvalId, d: DrvId)
    requires d in db.anchors && FrozenTrust(db, e, d)
    ensures d in Pass(db, e).anchors && d in Pass(Pass(db, e), e).anchors
    ensures !Pass(db, e).anchors[d].closureComplete && !Pass(db, e).anchors[d].edgesComplete
    ensures Pass(Pass(db, e), e).anchors[d].edgesComplete
    ensures Pass(Pass(db, e), e).anchors[d].closureComplete
            <==> db.anchors[d].status == Completed && DepsComplete(Pass(Pass(db, e), e), d)
    ensures Pass(Pass(db, e), e) != Pass(db, e)
  {
    var w := Pass(db, e);
    FrozenFirst(db, e, w, d);
    FrozenSecond(db, e, w, Pass(w, e), d);
    FrozenGate(db, e, w, Pass(w, e), d);
  }

  lemma FrozenFirst(db: Db, e: EvalId, w: Db, d: DrvId)
    requires w == Pass(db, e) && d in db.anchors && FrozenTrust(db, e, d)
    ensures d in w.anchors && !w.anchors[d].closureComplete && !w.anchors[d].edgesComplete
    ensures w.anchors[d].status == db.anchors[d].status
  {
    FrozenTrustFate(db, e, d);
    PassRow(db, e, d);
    RowSuccess(db.anchors[d], HealedBy(db, e).anchors[d], w.anchors[d],
               d in EdgesMarked(db, e), d in ThawedBy(db, e), true, d in FailedBy(db, e));
  }

  lemma FrozenSecond(db: Db, e: EvalId, w: Db, w2: Db, d: DrvId)
    requires w == Pass(db, e) && w2 == Pass(w, e) && d in w.anchors
    requires d in EvalClosure(db, e) && FullyCached(db, d)
    requires !w.anchors[d].closureComplete && w.anchors[d].status.TerminalSuccess()
    ensures d in w2.anchors && w2.anchors[d].edgesComplete && w2.anchors[d].status == w.anchors[d].status
  {
    SecondMove(db, e, w, w2, d);
  }

  /** A row the first pass left, and what the second makes of it. */
  ghost predicate RowTwice(a: Anchor, b: Anchor, mark: bool, cached: bool) {
    && b.edgesComplete == (a.edgesComplete || mark || (cached && !a.closureComplete))
    && (a.status.TerminalSuccess() || b.status.TerminalSuccess() ==> b.status == a.status)
  }

  lemma SecondMove(db: Db, e: EvalId, w: Db, w2: Db, d: DrvId)
    requires w == Pass(db, e) && w2 == Pass(w, e) && d in w.anchors
    ensures d in w2.anchors && d in db.anchors
    ensures RowTwice(w.anchors[d], w2.anchors[d], d in EdgesMarked(w, e),
                     d in EvalClosure(db, e) && FullyCached(db, d))
  {
    SecondRow(db, e, w, d);
    FlaggedRow(w, e, d);
    FinalRow(w, e, d);
    MoveTwice(w.anchors[d], HealedBy(w, e).anchors[d], FlaggedBy(w, e).anchors[d], w2.anchors[d],
              d in EdgesMarked(w, e), d in EvalClosure(db, e) && FullyCached(db, d), d in FailedBy(w, e));
  }

  lemma MoveTwice(a: Anchor, h: Anchor, m: Anchor, b: Anchor, mark: bool, cached: bool, fails: bool)
    requires h == Recached(Thawn(Marked(a, mark), false), cached) && (cached ==> a.status.TerminalSuccess())
    requires SameButFlags(h, m) && SettledRow(m, b, fails)
    ensures RowTwice(a, b, mark, cached)
  {
  }

  lemma FrozenGate(db: Db, e: EvalId, w: Db, w2: Db, d: DrvId)
    requires w == Pass(db, e) && w2 == Pass(w, e) && d in db.anchors && FrozenTrust(db, e, d)
    requires d in w2.anchors && w2.anchors[d].edgesComplete
    requires w2.anchors[d].status == db.anchors[d].status
    ensures w2.anchors[d].closureComplete <==> db.anchors[d].status == Completed && DepsComplete(w2, d)
  {
    SecondFlagIsGate(db, e, w, w2, d);
    SecondContent(db, e, w, w2);
    FrozenGateReads(db, ReconcilePaths(db, Some(e)), w2, d);
  }

  lemma FrozenGateReads(db: Db, r: Db, w2: Db, d: DrvId)
    requires d in w2.anchors && w2.anchors[d].edgesComplete && w2.anchors[d].status.TerminalSuccess()
    requires w2.paths == r.paths && w2.outputs == r.outputs && w2.outputs == db.outputs
    requires (forall x :: Backed(w2, x) <==> Backed(db, x)) && FullyCached(db, d)
    requires !(w2.anchors[d].status == Substituted && OutputsClosed(r, d))
    ensures ClosureGate(w2, d) <==> w2.anchors[d].status == Completed && DepsComplete(w2, d)
  {
    OutputsClosedSame(w2, r, d);
  }

  lemma SecondFlagIsGate(db: Db, e: EvalId, w: Db, w2: Db, d: DrvId)
    requires w == Pass(db, e) && w2 == Pass(w, e) && d in db.anchors && d in EvalClosure(db, e)
    ensures d in w2.anchors && (w2.anchors[d].closureComplete <==> ClosureGate(w2, d))
  {
    PassKeepsBounds(db, e, w);
    SameBounds(db, w, e);
    PassFlagIsGate(w, e, d);
  }

  /** What no two passes change, and the paths both end with. */
  lemma SecondContent(db: Db, e: EvalId, w: Db, w2: Db)
    requires w == Pass(db, e) && w2 == Pass(w, e)
    ensures SameFacts(db, w) && SameFacts(w, w2) && w2.paths == w.paths
    ensures w2.paths == ReconcilePaths(db, Some(e)).paths
    ensures forall x :: Backed(w2, x) <==> Backed(db, x)
  {
    PassKeepsBounds(db, e, w);
    PassKeepsBounds(w, e, w2);
    PathsOfPass(db, e);
    PathsOfSecondPass(db, e, w, w2);
  }

  /** A second pass leaves the paths as the first left them. */
  lemma PathsOfSecondPass(db: Db, e: EvalId, w: Db, w2: Db)
    requires w == Pass(db, e) && w2 == Pass(w, e)
    ensures w2.paths == w.paths
  {
    PassConverged(db, e, w);
    PathsStepIdle(w, w, e);
    PathsOfPass(w, e);
  }

  /** Without frozen trust the heal steps of a second pass only re-set closure flags. */
  lemma SecondHealIsFlagLift(db: Db, e: EvalId, w: Db)
    requires w == Pass(db, e)
    requires forall d :: d in db.anchors ==> !FrozenTrust(db, e, d)
    ensures HealedBy(w, e) == WithClosure(w, ClosureFlags(HealedBy(w, e)))
    ensures ClosureFlags(HealedBy(w, e)) - EvalClosure(w, e) == ClosureFlags(w) - EvalClosure(w, e)
  {
    var h := HealedBy(w, e);
    PassKeepsBounds(db, e, w);
    SameBounds(db, w, e);
    SecondMarkEmpty(db, e, w);
    forall d | d in w.anchors
      ensures d in h.anchors
              && h.anchors[d] == w.anchors[d].(closureComplete := w.anchors[d].closureComplete
                                                 || (d in EvalClosure(db, e) && FullyCached(db, d)))
    {
      SecondRow(db, e, w, d);
      if d in EvalClosure(db, e) && FullyCached(db, d) { FrozenTrustFate(db, e, d); }
      RowAgain(w.anchors[d], h.anchors[d], false, d in EvalClosure(db, e) && FullyCached(db, d));
    }
    HealedHeals(w, e);
    FlagLift(w, h, EvalClosure(w, e));
  }

  lemma FlagLift(w: Db, h: Db, c: set<DrvId>)
    requires AnchorsOnly(w, h)
    requires forall d :: d in w.anchors ==>
               && h.anchors[d] == w.anchors[d].(closureComplete := h.anchors[d].closureComplete)
               && (d !in c ==> h.anchors[d] == w.anchors[d])
    ensures h == WithClosure(w, ClosureFlags(h))
    ensures ClosureFlags(h) - c == ClosureFlags(w) - c
  {
    assert h.anchors == WithClosure(w, ClosureFlags(h)).anchors;
  }

  lemma SecondMarkEmpty(db: Db, e: EvalId, w: Db)
    requires w == Pass(db, e)
    ensures EdgesMarked(w, e) == {}
  {
    PassKeepsBounds(db, e, w);
    SameBounds(db, w, e);
    forall d | d in w.anchors && d in EvalClosure(w, e) && !w.anchors[d].edgesUnresolved
               && (HasEdges(w, d) || Job(e, d) in w.jobs)
      ensures w.anchors[d].edgesComplete
    {
      PassRow(db, e, d);
      RowSuccess(db.anchors[d], HealedBy(db, e).anchors[d], w.anchors[d],
                 d in EdgesMarked(db, e), d in ThawedBy(db, e),
                 d in EvalClosure(db, e) && FullyCached(db, d), d in FailedBy(db, e));
      assert HasEdges(w, d) <==> HasEdges(db, d);
    }
  }

  /** On an acyclic graph the fixpoints put raised closure flags back where a converged
      state had them. */
  lemma ConvergedAbsorbs(w: Db, e: EvalId, f: set<DrvId>, rank: DrvId -> nat)
    requires ClosureConverged(w, EvalClosure(w, e)) && DrvConverged(w, EvalClosure(w, e))
    requires PathsConverged(w, PathBound(w, Some(e)))
    requires Ranked(w.edges, rank)
    requires f - EvalClosure(w, e) == ClosureFlags(w) - EvalClosure(w, e)
    requires f <= w.anchors.Keys
    ensures AnchorsStep(PathsStep(WithClosure(w, f), Unstick(e)), Unstick(e)) == w
  {
    var h := WithClosure(w, f);
    PathsStepIdle(w, h, e);
    DrvStepIdle(w, h, e, f);
    ClosureStepAbsorbs(w, e, f, rank);
  }

  lemma ClosureStepAbsorbs(w: Db, e: EvalId, f: set<DrvId>, rank: DrvId -> nat)
    requires ClosureConverged(w, EvalClosure(w, e)) && Ranked(w.edges, rank)
    requires f - EvalClosure(w, e) == ClosureFlags(w) - EvalClosure(w, e)
    requires f <= w.anchors.Keys
    ensures ReconcileClosure(WithClosure(w, f), Some(e)) == w
  {
    ClosureFlagLens(w, f, ClosureFlags(w));
    WithClosureKeeps(w, f);
    assert f * w.anchors.Keys == f;
    AcyclicAbsorbs(ClosureSystem(w), rank, EvalClosure(w, e), ClosureFlags(w), f);
  }

  lemma AcyclicAbsorbs<N(!new)>(sys: System<N>, rank: N -> nat, bound: set<N>, flags: set<N>, f: set<N>)
    requires Ranked(sys.needs, rank) && Closed(sys.needs, bound)
    requires Converged(sys, bound, flags) && f - bound == flags - bound
    ensures Fix(sys, bound, f) == flags
  {
    FixConverges(sys, bound, f);
    forall n | n in bound ensures n in Fix(sys, bound, f) <==> n in flags {
      ConvergedIsTruth(sys, rank, bound, flags, n);
      ConvergedIsTruth(sys, rank, bound, Fix(sys, bound, f), n);
    }
    forall n | n !in bound ensures n in Fix(sys, bound, f) <==> n in flags {
      assert n in Fix(sys, bound, f) - bound <==> n in flags - bound;
    }
  }

  lemma PathsStepIdle(w: Db, h: Db, e: EvalId)
    requires AnchorsOnly(w, h) && PathsConverged(w, PathBound(w, Some(e)))
    ensures PathsStep(h, Unstick(e)) == h
  {
    ReconcilePathsSame(w, h, e);
    assert PathSystem(h) == PathSystem(w) && PathFlags(h) == PathFlags(w);
    FixOfConverged(PathSystem(h), PathBound(h, Some(e)), PathFlags(h));
    PathFlagLens(h, {}, {});
  }

  lemma DrvStepIdle(w: Db, h: Db, e: EvalId, f: set<DrvId>)
    requires h == WithClosure(w, f) && DrvConverged(w, EvalClosure(w, e))
    ensures ReconcileDrv(h, Some(e)) == h
  {
    WithClosureKeeps(w, f);
    FixOfConverged(DrvSystem(h), EvalClosure(h, e), DrvFlags(h));
    DrvFlagLens(h, {}, {});
  }

  lemma QuietTail(w: Db, e: EvalId)
    requires SweepFailed(w, Some(e)) == {} && UnpromotedReady(w) == {}
    ensures Promote(Sweep(w, Some(e))) == w
  {
    SetStatusNone(w, DependencyFailed);
    SetStatusNone(w, Queued);
  }

  lemma PassConverged(db: Db, e: EvalId, w: Db)
    requires w == Pass(db, e)
    ensures ClosureConverged(w, EvalClosure(w, e)) && DrvConverged(w, EvalClosure(w, e))
    ensures PathsConverged(w, PathBound(w, Some(e)))
    ensures UnpromotedReady(w) == {}
  {
    AnchorsConverge(db, Unstick(e), []);
    PathsConverge(db, Unstick(e), []);
    TailKeeps(db, Unstick(e), []);
    PassKeepsBounds(db, e, w);
    SameBounds(db, w, e);
    HealedHeals(db, e);
    assert EvalDrvs(HealedBy(db, e), e) == EvalDrvs(w, e);
    assert PathBound(HealedBy(db, e), Some(e)) == PathBound(w, Some(e));
  }

  lemma NoFrozenTrustSettles(db: Db, e: EvalId, rank: DrvId -> nat)
    requires Ranked(db.edges, rank)
    requires forall d :: d in db.anchors ==> !FrozenTrust(db, e, d)
    ensures Pass(Pass(db, e), e) == Pass(db, e)
  {
    var w := Pass(db, e);
    PassKeepsBounds(db, e, w);
    PassConverged(db, e, w);
    SecondHealIsFlagLift(db, e, w);
    var f := ClosureFlags(HealedBy(w, e));
    HealedHeals(w, e);
    ConvergedAbsorbs(w, e, f, rank);
    assert FlaggedBy(w, e) == w;
    SweepAfterPassEmpty(db, e);
    QuietTail(w, e);
  }

  /** On an acyclic graph an `Unstick` pass is idempotent exactly when no anchor of the
      closure has frozen trust. */
  lemma UnstickIdempotentIff(db: Db, e: EvalId, rank: DrvId -> nat)
    requires Ranked(db.edges, rank)
    ensures Pass(Pass(db, e), e) == Pass(db, e)
            <==> forall d :: d in db.anchors ==> !FrozenTrust(db, e, d)
  {
    if d :| d in db.anchors && FrozenTrust(db, e, d) {
      FrozenTrustChanges(db, e, d);
    } else {
      NoFrozenTrustSettles(db, e, rank);
    }
  }

  /** After one pass no trust is frozen: what is flagged then passes its gate, and with
      unflushed edges only the substituted arm can. */
  lemma NoFrozenTrustAfterPass(db: Db, e: EvalId, d: DrvId)
    requires d in Pass(db, e).anchors
    ensures !FrozenTrust(Pass(db, e), e, d)
  {
    var w := Pass(db, e);
    PassKeepsBounds(db, e, w);
    SameBounds(db, w, e);
    if d in EvalClosure(db, e) && w.anchors[d].status.TerminalSuccess() && !w.anchors[d].edgesComplete {
      PassFlagIsGate(db, e, d);
      PassConverged(db, e, w);
      PathsStepIdle(w, w, e);
      UnflushedGate(w, ReconcilePaths(w, Some(e)), d);
    }
  }

  /** On an acyclic graph two passes settle everything: a third changes nothing. */
  lemma ThirdPassIdle(db: Db, e: EvalId, rank: DrvId -> nat)
    requires Ranked(db.edges, rank)
    ensures Pass(Pass(Pass(db, e), e), e) == Pass(Pass(db, e), e)
  {
    var w := Pass(db, e);
    PassKeepsBounds(db, e, w);
    forall d | d in w.anchors ensures !FrozenTrust(w, e, d) { NoFrozenTrustAfterPass(db, e, d); }
    NoFrozenTrustSettles(w, e, rank);
  }

  // ----- when a second pass promotes -----

  /** Outside the evaluation's closure the second pass changes no closure flag. */
  lemma FlagsOutside(db: Db, e: EvalId, w: Db)
    requires w == Pass(db, e)
    ensures ClosureFlags(Pass(w, e)) - EvalClosure(w, e) == ClosureFlags(w) - EvalClosure(w, e)
  {
    var h := HealedBy(w, e);
    HealedOutside(db, e, w, h);
    HealedHeals(w, e);
    SameBounds(w, h, e);
    FlagsOutsideFix(h, PathsStep(h, Unstick(e)), e, EvalClosure(w, e));
    TailKeeps(w, Unstick(e), []);
  }

  lemma HealedOutside(db: Db, e: EvalId, w: Db, h: Db)
    requires w == Pass(db, e) && h == HealedBy(w, e)
    ensures ClosureFlags(h) - EvalClosure(w, e) == ClosureFlags(w) - EvalClosure(w, e)
  {
    HealedHeals(w, e);
    SecondMarkEmpty(db, e, w);
    SecondThawEmpty(db, e);
    HealsOutside(w, h, EvalClosure(w, e));
  }

  lemma HealsOutside(w: Db, h: Db, c: set<DrvId>)
    requires Heals(w, h, c, {}, {})
    ensures ClosureFlags(h) - c == ClosureFlags(w) - c
  {
  }

  lemma FlagsOutsideFix(h: Db, p: Db, e: EvalId, c: set<DrvId>)
    requires p == PathsStep(h, Unstick(e)) && c == EvalClosure(h, e)
    ensures ClosureFlags(AnchorsStep(p, Unstick(e))) - c == ClosureFlags(h) - c
  {
    var q := ReconcileDrv(p, Some(e));
    WithDrvKeeps(p, Fix(DrvSystem(p), AnchorBound(p, Some(e)), DrvFlags(p)));
    ReconcileClosureConverges(q, Some(e));
    FixConverges(ClosureSystem(q), AnchorBound(q, Some(e)), ClosureFlags(q));
  }

  /** The gate of a row differs between the two passes only where trust was frozen. */
  lemma LocalAgain(db: Db, e: EvalId, w: Db, w2: Db, d: DrvId)
    requires w == Pass(db, e) && w2 == Pass(w, e) && d in w.anchors && d in EvalClosure(db, e)
    ensures d in w2.anchors && d in db.anchors
    ensures ClosureLocal(w, d) ==> ClosureLocal(w2, d)
    ensures ClosureLocal(w2, d) && !ClosureLocal(w, d) ==> FrozenTrust(db, e, d)
    ensures w2.anchors[d].status.TerminalSuccess() || w.anchors[d].status.TerminalSuccess() ==>
              w2.anchors[d].status == w.anchors[d].status
  {
    EdgesAgain(db, e, w, w2, d);
    SecondContent(db, e, w, w2);
    if FullyCached(db, d) { FrozenTrustFate(db, e, d); }
    LocalReads(w, w2, d);
  }

  lemma EdgesAgain(db: Db, e: EvalId, w: Db, w2: Db, d: DrvId)
    requires w == Pass(db, e) && w2 == Pass(w, e) && d in w.anchors
    ensures d in w2.anchors && d in db.anchors
    ensures w.anchors[d].edgesComplete ==> w2.anchors[d].edgesComplete
    ensures w2.anchors[d].edgesComplete && !w.anchors[d].edgesComplete ==>
              d in EvalClosure(db, e) && FullyCached(db, d) && !w.anchors[d].closureComplete
    ensures w2.anchors[d].status.TerminalSuccess() || w.anchors[d].status.TerminalSuccess() ==>
              w2.anchors[d].status == w.anchors[d].status
  {
    SecondMarkEmpty(db, e, w);
    SecondMove(db, e, w, w2, d);
  }

  lemma LocalReads(w: Db, w2: Db, d: DrvId)
    requires d in w.anchors && d in w2.anchors && w2.paths == w.paths && w2.outputs == w.outputs
    requires w.anchors[d].edgesComplete ==> w2.anchors[d].edgesComplete
    requires w2.anchors[d].status.TerminalSuccess() || w.anchors[d].status.TerminalSuccess() ==>
               w2.anchors[d].status == w.anchors[d].status
    ensures ClosureLocal(w, d) ==> ClosureLocal(w2, d)
    ensures ClosureLocal(w2, d) && !ClosureLocal(w, d) ==>
              w2.anchors[d].edgesComplete && !w.anchors[d].edgesComplete && w.anchors[d].status == Completed
  {
    OutputsClosedSame(w, w2, d);
  }

  /** Row facts of the second pass on every anchor. */
  lemma RowsAgain(db: Db, e: EvalId, w: Db, w2: Db, d: DrvId)
    requires w == Pass(db, e) && w2 == Pass(w, e) && d in w.anchors
    ensures d in w2.anchors && w2.anchors[d].substitutable == w.anchors[d].substitutable
    ensures w2.anchors[d].status == w.anchors[d].status
            || (w.anchors[d].status == Created && w2.anchors[d].status == Queued)
    ensures !w.anchors[d].status.TerminalSuccess() ==> w2.anchors[d].edgesComplete == w.anchors[d].edgesComplete
  {
    SecondRow(db, e, w, d);
    SecondMarkEmpty(db, e, w);
    SecondPassThawsAndFailsNothing(db, e);
    FlaggedRow(w, e, d);
    FinalRow(w, e, d);
  }

  lemma SameNeeds(w: Db, w2: Db)
    requires SameFacts(w, w2)
    requires forall d :: d in w.anchors ==>
               && w2.anchors[d].substitutable == w.anchors[d].substitutable
               && (w2.anchors[d].status == w.anchors[d].status
                   || (w.anchors[d].status == Created && w2.anchors[d].status == Queued))
    ensures ClosureSystem(w2).needs == ClosureSystem(w).needs
  {
  }

  /** If no frozen anchor is trusted again, the second pass ends with the closure flags of
      the first. */
  lemma SameFlagsAgain(db: Db, e: EvalId, w: Db, w2: Db, rank: DrvId -> nat)
    requires w == Pass(db, e) && w2 == Pass(w, e) && Ranked(db.edges, rank)
    requires forall d :: d in db.anchors && FrozenTrust(db, e, d) ==> d !in ClosureFlags(w2)
    ensures ClosureFlags(w2) == ClosureFlags(w)
  {
    PassConverged(db, e, w);
    ConvergedAgain(db, e, w, w2);
    PassKeepsBounds(db, e, w);
    AcyclicAgree(ClosureSystem(w), rank, EvalClosure(w, e), ClosureFlags(w), ClosureFlags(w2));
    FlagsOutside(db, e, w);
    SameInAndOut(ClosureFlags(w), ClosureFlags(w2), EvalClosure(w, e));
  }

  lemma NeedsAgain(db: Db, e: EvalId, w: Db, w2: Db)
    requires w == Pass(db, e) && w2 == Pass(w, e)
    ensures ClosureSystem(w2).needs == ClosureSystem(w).needs
  {
    PassKeepsBounds(w, e, w2);
    forall d | d in w.anchors
      ensures w2.anchors[d].substitutable == w.anchors[d].substitutable
      ensures w2.anchors[d].status == w.anchors[d].status
              || (w.anchors[d].status == Created && w2.anchors[d].status == Queued)
    {
      RowsAgain(db, e, w, w2, d);
    }
    SameNeeds(w, w2);
  }

  /** The closure flags of the second pass are converged for the gates of the first. */
  lemma ConvergedAgain(db: Db, e: EvalId, w: Db, w2: Db)
    requires w == Pass(db, e) && w2 == Pass(w, e)
    requires forall d :: d in db.anchors && FrozenTrust(db, e, d) ==> d !in ClosureFlags(w2)
    ensures ClosureConverged(w2, EvalClosure(w, e))
    ensures Converged(ClosureSystem(w), EvalClosure(w, e), ClosureFlags(w2))
  {
    PassConverged(w, e, w2);
    SecondBounds(db, e, w, w2);
    NeedsAgain(db, e, w, w2);
    forall d | d in EvalClosure(w, e) && d in w.anchors
      ensures d in ClosureSystem(w).local ==> d in ClosureSystem(w2).local
      ensures d in ClosureSystem(w2).local && d !in ClosureSystem(w).local ==> d !in ClosureFlags(w2)
    {
      LocalAgain(db, e, w, w2, d);
    }
    LocalsAgree(ClosureSystem(w), ClosureSystem(w2), EvalClosure(w, e), w.anchors.Keys, ClosureFlags(w2));
  }

  lemma SecondBounds(db: Db, e: EvalId, w: Db, w2: Db)
    requires w == Pass(db, e) && w2 == Pass(w, e)
    ensures EvalClosure(w, e) == EvalClosure(db, e) && EvalClosure(w2, e) == EvalClosure(w, e)
    ensures w2.anchors.Keys == w.anchors.Keys
  {
    PassKeepsBounds(db, e, w);
    SameBounds(db, w, e);
    PassKeepsBounds(w, e, w2);
    SameBounds(w, w2, e);
  }

  /** Dropping local facts of unflagged rows keeps a converged family converged. */
  lemma LocalsAgree<N>(sys: System<N>, sys2: System<N>, bound: set<N>, nodes: set<N>, flags: set<N>)
    requires Converged(sys2, bound, flags) && sys2.needs == sys.needs
    requires sys.local <= nodes && sys2.local <= nodes
    requires forall n :: n in bound && n in nodes && n in sys.local ==> n in sys2.local
    requires forall n :: n in bound && n in nodes && n in sys2.local && n !in sys.local ==> n !in flags
    ensures Converged(sys, bound, flags)
  {
    forall n | n in bound ensures n in flags <==> Holds(sys, flags, n) {
      assert n in flags <==> Holds(sys2, flags, n);
    }
  }

  lemma AcyclicAgree<N(!new)>(sys: System<N>, rank: N -> nat, bound: set<N>, f: set<N>, g: set<N>)
    requires Ranked(sys.needs, rank) && Closed(sys.needs, bound)
    requires Converged(sys, bound, f) && Converged(sys, bound, g)
    ensures f * bound == g * bound
  {
    forall n | n in bound ensures n in f <==> n in g {
      ConvergedIsTruth(sys, rank, bound, f, n);
      ConvergedIsTruth(sys, rank, bound, g, n);
    }
  }

  lemma SameInAndOut<N>(f: set<N>, g: set<N>, c: set<N>)
    requires f * c == g * c && f - c == g - c
    ensures f == g
  {
    assert f == f * c + (f - c) && g == g * c + (g - c);
  }

  /** On an acyclic graph a second pass promotes only behind an anchor whose frozen trust it
      restored: a built one with complete dependencies. */
  lemma SecondPassPromotesOnlyRestored(db: Db, e: EvalId, rank: DrvId -> nat)
    requires Ranked(db.edges, rank)
    requires forall d :: d in db.anchors && FrozenTrust(db, e, d) ==>
               !(db.anchors[d].status == Completed && DepsComplete(Pass(Pass(db, e), e), d))
    ensures PromotedBy(Pass(db, e), e) == {}
  {
    var w := Pass(db, e);
    var w2 := Pass(w, e);
    forall d | d in db.anchors && FrozenTrust(db, e, d) ensures d !in ClosureFlags(w2) {
      FrozenTrustChanges(db, e, d);
    }
    SameFlagsAgain(db, e, w, w2, rank);
    PassConverged(db, e, w);
    forall d ensures d !in PromotedBy(w, e) {
      PromotedIff(db, e, w, w2, d);
      ReadyIff(w, w, d);
    }
  }

  /** A row the second pass promotes, given the closure flags it ends with. */
  lemma PromotedIff(db: Db, e: EvalId, w: Db, w2: Db, d: DrvId)
    requires w == Pass(db, e) && w2 == Pass(w, e)
    ensures d in PromotedBy(w, e) <==> PromotesWith(w, ClosureFlags(w2), d)
  {
    var s := Sweep(FlaggedBy(w, e), Some(e));
    SecondPassThawsAndFailsNothing(db, e);
    SetStatusNone(FlaggedBy(w, e), DependencyFailed);
    assert s == FlaggedBy(w, e);
    TailKeeps(w, Unstick(e), []);
    FlaggedKeepsBounds(w, e, s);
    PassKeepsBounds(w, e, w2);
    forall m | m in w.anchors ensures SameForPromotion(w.anchors[m], s.anchors[m]) {
      SecondRow(db, e, w, m);
      SecondMarkEmpty(db, e, w);
      FlaggedRow(w, e, m);
    }
    FlaggedFlagsOnly(w, e);
    HealedHeals(w, e);
    ReadyIff(w, s, d);
  }

  predicate SameForPromotion(a: Anchor, b: Anchor) {
    && a.status == b.status && a.substitutable == b.substitutable
    && (!a.status.TerminalSuccess() ==> a.edgesComplete == b.edgesComplete)
  }

  /** `d` waits for promotion, and would get it if exactly `flags` were complete. */
  predicate PromotesWith(w: Db, flags: set<DrvId>, d: DrvId) {
    && d in w.anchors && w.anchors[d].status == Created && w.anchors[d].edgesComplete && d in JobDrvs(w)
    && (|| w.anchors[d].substitutable
        || (SourcesBacked(w, d) && forall r | r in w.edges && r.src == d :: DepReadyWith(w, flags, r.dst)))
  }

  predicate DepReadyWith(w: Db, flags: set<DrvId>, m: DrvId) {
    m in w.anchors
    && (w.anchors[m].substitutable || (w.anchors[m].status.TerminalSuccess() && m in flags))
  }

  lemma ReadyIff(w: Db, s: Db, d: DrvId)
    requires SameFacts(w, s)
    requires forall x :: Backed(s, x) <==> Backed(w, x)
    requires forall m :: m in w.anchors ==> SameForPromotion(w.anchors[m], s.anchors[m])
    ensures d in UnpromotedReady(s) <==> PromotesWith(w, ClosureFlags(s), d)
  {
    assert JobDrvs(w) == JobDrvs(s);
    forall m ensures DepReady(s, m) <==> DepReadyWith(w, ClosureFlags(s), m) {
      assert m in s.anchors ==> (m in ClosureFlags(s) <==> s.anchors[m].closureComplete);
    }
  }

  /** A built row of the closure, cached but neither flushed nor complete: the second pass
      marks its edges flushed and lets its gate decide. */
  predicate Restorable(w: Db, e: EvalId, m: DrvId) {
    && m in w.anchors && m in EvalClosure(w, e) && FullyCached(w, m)
    && w.anchors[m].status == Completed && !w.anchors[m].edgesComplete && !w.anchors[m].closureComplete
  }

  /** The closure gates with the edges of every restorable row taken as flushed. */
  function FlushedSystem(w: Db, e: EvalId): System<DrvId> {
    System(ClosureSystem(w).local + (set m | m in w.anchors && Restorable(w, e, m)), ClosureSystem(w).needs)
  }

  /** The rows that are complete once those edges count: by recursion down the graph inside
      the closure, as stored outside it. */
  ghost function TrueNext(w: Db, e: EvalId, rank: DrvId -> nat): set<DrvId>
    requires Ranked(w.edges, rank)
  {
    set m | m in w.anchors && (if m in EvalClosure(w, e) then GroundTruth(FlushedSystem(w, e), rank, m)
                               else w.anchors[m].closureComplete)
  }

  /** What a second pass does, read off the state before it: on an acyclic graph it ends with
      the closure flags `TrueNext` and promotes the rows those make ready, no others. */
  lemma SecondPassPromotesIff(db: Db, e: EvalId, rank: DrvId -> nat)
    requires Ranked(db.edges, rank)
    ensures Ranked(Pass(db, e).edges, rank)
    ensures var w := Pass(db, e);
            && ClosureFlags(Pass(w, e)) == TrueNext(w, e, rank)
            && PromotedBy(w, e) == set d | d in w.anchors && PromotesWith(w, TrueNext(w, e, rank), d)
    ensures var w := Pass(db, e);
            PromotedBy(w, e) == {} <==> forall d :: !PromotesWith(w, TrueNext(w, e, rank), d)
  {
    var w := Pass(db, e);
    PassKeepsBounds(db, e, w);
    SecondFlags(db, e, w, Pass(w, e), rank);
    PromotedSet(db, e, w, Pass(w, e));
  }

  lemma PromotedSet(db: Db, e: EvalId, w: Db, w2: Db)
    requires w == Pass(db, e) && w2 == Pass(w, e)
    ensures PromotedBy(w, e) == set d | d in w.anchors && PromotesWith(w, ClosureFlags(w2), d)
  {
    forall d ensures d in PromotedBy(w, e) <==> PromotesWith(w, ClosureFlags(w2), d) {
      PromotedIff(db, e, w, w2, d);
    }
  }

  lemma SecondFlags(db: Db, e: EvalId, w: Db, w2: Db, rank: DrvId -> nat)
    requires w == Pass(db, e) && w2 == Pass(w, e) && Ranked(w.edges, rank)
    ensures ClosureFlags(w2) == TrueNext(w, e, rank)
  {
    SecondBounds(db, e, w, w2);
    FlushedConverged(db, e, w, w2);
    FlagsOutside(db, e, w);
    FlagsAreTrue(w, w2.anchors.Keys, ClosureFlags(w2), e, rank);
  }

  lemma FlagsAreTrue(w: Db, keys: set<DrvId>, flags: set<DrvId>, e: EvalId, rank: DrvId -> nat)
    requires Ranked(w.edges, rank) && keys == w.anchors.Keys && flags <= keys
    requires Converged(FlushedSystem(w, e), EvalClosure(w, e), flags)
    requires flags - EvalClosure(w, e) == ClosureFlags(w) - EvalClosure(w, e)
    ensures flags == TrueNext(w, e, rank)
  {
    forall m | m in w.anchors ensures m in flags <==> m in TrueNext(w, e, rank) {
      if m in EvalClosure(w, e) {
        ConvergedIsTruth(FlushedSystem(w, e), rank, EvalClosure(w, e), flags, m);
      } else {
        assert m in flags - EvalClosure(w, e) <==> m in ClosureFlags(w) - EvalClosure(w, e);
      }
    }
  }

  /** The flags of the second pass are converged for the gates with flushed edges. */
  lemma FlushedConverged(db: Db, e: EvalId, w: Db, w2: Db)
    requires w == Pass(db, e) && w2 == Pass(w, e)
    ensures Converged(FlushedSystem(w, e), EvalClosure(w, e), ClosureFlags(w2))
  {
    PassConverged(w, e, w2);
    SecondBounds(db, e, w, w2);
    NeedsAgain(db, e, w, w2);
    forall m | m in w.anchors && m in EvalClosure(w, e)
      ensures ClosureLocal(w2, m) <==> ClosureLocal(w, m) || Restorable(w, e, m)
    {
      LocalExact(db, e, w, w2, m);
    }
    FlushedAgrees(w, w2, e);
  }

  lemma FlushedAgrees(w: Db, w2: Db, e: EvalId)
    requires w2.anchors.Keys == w.anchors.Keys && ClosureConverged(w2, EvalClosure(w, e))
    requires ClosureSystem(w2).needs == ClosureSystem(w).needs
    requires forall m :: m in w.anchors && m in EvalClosure(w, e) ==>
               (ClosureLocal(w2, m) <==> ClosureLocal(w, m) || Restorable(w, e, m))
    ensures Converged(FlushedSystem(w, e), EvalClosure(w, e), ClosureFlags(w2))
  {
    LocalsAgree(FlushedSystem(w, e), ClosureSystem(w2), EvalClosure(w, e), w.anchors.Keys, ClosureFlags(w2));
  }

  lemma LocalExact(db: Db, e: EvalId, w: Db, w2: Db, m: DrvId)
    requires w == Pass(db, e) && w2 == Pass(w, e) && m in w.anchors && m in EvalClosure(w, e)
    ensures m in w2.anchors && (ClosureLocal(w2, m) <==> ClosureLocal(w, m) || Restorable(w, e, m))
  {
    SecondBounds(db, e, w, w2);
    LocalAgain(db, e, w, w2, m);
    EdgesAgain(db, e, w, w2, m);
    SecondContent(db, e, w, w2);
    FullyCachedAgain(db, e, w, m);
    LocalReads(w, w2, m);
    if Restorable(w, e, m) { RestoredEdges(db, e, w, w2, m); }
  }

  lemma FullyCachedAgain(db: Db, e: EvalId, w: Db, m: DrvId)
    requires w == Pass(db, e) && m in w.anchors
    ensures m in db.anchors && (FullyCached(w, m) <==> FullyCached(db, m))
  {
    PassKeepsBounds(db, e, w);
    FullyCachedSame(db, w, m);
  }

  lemma RestoredEdges(db: Db, e: EvalId, w: Db, w2: Db, m: DrvId)
    requires w == Pass(db, e) && w2 == Pass(w, e) && Restorable(w, e, m)
    ensures m in w2.anchors && w2.anchors[m].edgesComplete && OutputsBacked(w2, m)
  {
    FullyCachedAgain(db, e, w, m);
    SecondBounds(db, e, w, w2);
    SecondContent(db, e, w, w2);
    SecondMove(db, e, w, w2, m);
  }

  // ----- a second pass that promotes -----

  const DEP := DrvId(1)
  const TOP := DrvId(2)
  const EVALUATION := EvalId(0)

  /** `TOP` waits on the cached `DEP`, trusted before its edges were flushed and reached
      by this evaluation only through an edge. */
  function FrozenExample(): Db {
    Db(map[],
       map[DEP := Anchor(Completed, false, false, false, false, true, false, 0),
           TOP := Anchor(Created, false, false, true, false, false, false, 0)],
       {Row(TOP, DEP)},
       {Output(DEP, "out", Hash("d"))}, {}, {},
       map[Hash("d") := CachedPath(true, true)], {},
       {Job(EVALUATION, TOP)}, {})
  }

  lemma ExampleClosure(db: Db)
    requires db == FrozenExample()
    ensures TOP in EvalClosure(db, EVALUATION) && DEP in EvalClosure(db, EVALUATION)
    ensures FrozenTrust(db, EVALUATION, DEP) && !FullyCached(db, TOP) && FullyCached(db, DEP)
    ensures DeterministicBlocked(db, EvalClosure(db, EVALUATION)) == {}
    ensures Ranked(db.edges, (d: DrvId) => d.uuid)
  {
    var j := Job(EVALUATION, TOP);
    assert j in db.jobs && j.derivation in EvalDrvs(db, EVALUATION);
    assert Row(TOP, DEP) in db.edges;
    var o := Output(DEP, "out", Hash("d"));
    assert o in db.outputs && o.derivation == DEP;
    assert DeterministicIn(db, EvalClosure(db, EVALUATION)) == {};
    ReachIsLeast(Within(Flip(db.edges), EvalClosure(db, EVALUATION)), {}, {});
  }

  /** The tables of the example that no pass changes. */
  ghost predicate ExampleShape(db: Db) {
    && db.edges == {Row(TOP, DEP)} && db.sources == {} && db.jobs == {Job(EVALUATION, TOP)}
    && db.anchors.Keys == {DEP, TOP}
  }

  predicate ExampleWaiting(a: Anchor) { a.status == Created && a.edgesComplete && !a.substitutable }

  /** What decides the promotion of `TOP`: the flag of its only dependency. */
  lemma ExamplePromotion(s: Db)
    requires ExampleShape(s) && ExampleWaiting(s.anchors[TOP])
    requires s.anchors[DEP].status == Completed && !s.anchors[DEP].substitutable
    ensures UnpromotedReady(s) == if s.anchors[DEP].closureComplete then {TOP} else {}
  {
    var j := Job(EVALUATION, TOP);
    assert j in s.jobs && j.derivation in JobDrvs(s);
    assert Row(TOP, DEP) in s.edges;
    assert forall d :: d in UnpromotedReady(s) ==> d == TOP;
  }

  lemma StatusRow(m: Db, ds: set<DrvId>, st: BuildStatus, d: DrvId)
    requires d in m.anchors
    ensures SameFacts(m, SetStatus(m, ds, st))
    ensures SetStatus(m, ds, st).anchors[d] == if d in ds then m.anchors[d].(status := st) else m.anchors[d]
  {
  }

  /** A row that the sweep does not fail, from the heal steps to promotion. */
  lemma UnfailedRow(db: Db, e: EvalId, s: Db, d: DrvId)
    requires d in db.anchors && d !in FailedBy(db, e) && s == Sweep(FlaggedBy(db, e), Some(e))
    ensures SameFacts(db, s) && d in HealedBy(db, e).anchors
    ensures SameButFlags(HealedBy(db, e).anchors[d], s.anchors[d])
  {
    HealedRow(db, e, d);
    FlaggedRow(db, e, d);
    FlaggedKeepsBounds(db, e, FlaggedBy(db, e));
    StatusRow(FlaggedBy(db, e), FailedBy(db, e), DependencyFailed, d);
  }

  lemma PromotedRow(db: Db, e: EvalId, s: Db, d: DrvId)
    requires s == Sweep(FlaggedBy(db, e), Some(e)) && d in s.anchors
    ensures d in Pass(db, e).anchors
    ensures Pass(db, e).anchors[d]
            == if d in UnpromotedReady(s) then s.anchors[d].(status := Queued) else s.anchors[d]
  {
    StatusRow(s, UnpromotedReady(s), Queued, d);
  }

  /** One pass over the example: `TOP` is promoted exactly when `DEP` ends up trusted. */
  lemma ExamplePass(db: Db, e: EvalId, w: Db)
    requires ExampleShape(db) && w == Pass(db, e) && FailedBy(db, e) == {}
    requires TOP in HealedBy(db, e).anchors && ExampleWaiting(HealedBy(db, e).anchors[TOP])
    requires DEP in HealedBy(db, e).anchors && HealedBy(db, e).anchors[DEP].status == Completed
    requires !HealedBy(db, e).anchors[DEP].substitutable
    ensures DEP in w.anchors && TOP in w.anchors
    ensures PromotedBy(db, e) == if w.anchors[DEP].closureComplete then {TOP} else {}
    ensures w.anchors[DEP].status == Completed && !w.anchors[DEP].substitutable
    ensures !w.anchors[DEP].closureComplete ==> ExampleWaiting(w.anchors[TOP])
  {
    var s := Sweep(FlaggedBy(db, e), Some(e));
    UnfailedRow(db, e, s, DEP);
    UnfailedRow(db, e, s, TOP);
    ExamplePromotion(s);
    PromotedRow(db, e, s, DEP);
    PromotedRow(db, e, s, TOP);
  }

  lemma ExampleHealed(db: Db, e: EvalId)
    requires db == FrozenExample() && e == EVALUATION
    ensures TOP in HealedBy(db, e).anchors && DEP in HealedBy(db, e).anchors
    ensures ExampleWaiting(HealedBy(db, e).anchors[TOP])
    ensures HealedBy(db, e).anchors[DEP].status == Completed && !HealedBy(db, e).anchors[DEP].substitutable
  {
    ExampleClosure(db);
    ThawedIs(db, e, EvalClosure(db, e), {});
    HealedRow(db, e, DEP);
    HealedRow(db, e, TOP);
  }

  /** In the second pass `DEP` is trusted again, with its edges now marked flushed. */
  lemma ExampleHealedAgain(db: Db, e: EvalId, w: Db)
    requires w == Pass(db, e) && DEP in w.anchors && TOP in w.anchors
    requires ExampleWaiting(w.anchors[TOP])
    requires w.anchors[DEP].status == Completed && !w.anchors[DEP].substitutable
    requires !w.anchors[DEP].closureComplete
    requires DEP in EvalClosure(db, e) && FullyCached(db, DEP) && !FullyCached(db, TOP)
    ensures TOP in HealedBy(w, e).anchors && ExampleWaiting(HealedBy(w, e).anchors[TOP])
    ensures DEP in HealedBy(w, e).anchors && HealedBy(w, e).anchors[DEP].status == Completed
    ensures !HealedBy(w, e).anchors[DEP].substitutable && HealedBy(w, e).anchors[DEP].edgesComplete
  {
    SecondRow(db, e, w, DEP);
    SecondRow(db, e, w, TOP);
  }

  /** After the second pass the gate of `DEP` holds: it has no edges and its output is there. */
  lemma ExampleGate(w: Db)
    requires ExampleShape(w) && OutputsBacked(w, DEP)
    requires w.anchors[DEP].status == Completed && w.anchors[DEP].edgesComplete
    ensures ClosureGate(w, DEP)
  {
  }

  lemma ExampleTrustedAgain(db: Db, e: EvalId, w: Db)
    requires w == Pass(db, e) && ExampleShape(db) && ExampleShape(w)
    requires DEP in EvalClosure(w, e) && OutputsBacked(w, DEP)
    requires DEP in HealedBy(w, e).anchors && HealedBy(w, e).anchors[DEP].edgesComplete
    requires DEP in Pass(w, e).anchors && Pass(w, e).anchors[DEP].status == Completed
    ensures Pass(w, e).anchors[DEP].closureComplete
  {
    PassRow(w, e, DEP);
    PassFlagIsGate(w, e, DEP);
    PassKeepsBounds(w, e, Pass(w, e));
    ExampleGate(Pass(w, e));
  }

  /** Idempotence is not only a matter of flags: on an acyclic graph with frozen trust a
      second identical pass can promote an anchor the first one left waiting. */
  lemma SecondPassCanPromote()
    ensures var db := FrozenExample();
            && Ranked(db.edges, (d: DrvId) => d.uuid)
            && PromotedBy(db, EVALUATION) == {}
            && PromotedBy(Pass(db, EVALUATION), EVALUATION) == {TOP}
  {
    ExampleClosure(FrozenExample());
    ExampleHealed(FrozenExample(), EVALUATION);
    BothExamplePasses(FrozenExample(), EVALUATION);
  }

  lemma BothExamplePasses(db: Db, e: EvalId)
    requires ExampleShape(db) && FrozenTrust(db, e, DEP) && !FullyCached(db, TOP)
    requires DeterministicBlocked(db, EvalClosure(db, e)) == {}
    requires TOP in HealedBy(db, e).anchors && ExampleWaiting(HealedBy(db, e).anchors[TOP])
    requires DEP in HealedBy(db, e).anchors && HealedBy(db, e).anchors[DEP].status == Completed
    requires !HealedBy(db, e).anchors[DEP].substitutable
    ensures PromotedBy(db, e) == {} && PromotedBy(Pass(db, e), e) == {TOP}
  {
    NoThawThenFail(db, e);
    FrozenTrustFate(db, e, DEP);
    ExamplePass(db, e, Pass(db, e));
    SecondExamplePass(db, e, Pass(db, e));
  }

  lemma SecondExamplePass(db: Db, e: EvalId, w: Db)
    requires w == Pass(db, e) && ExampleShape(db) && DEP in w.anchors && TOP in w.anchors
    requires ExampleWaiting(w.anchors[TOP]) && !w.anchors[DEP].closureComplete
    requires w.anchors[DEP].status == Completed && !w.anchors[DEP].substitutable
    requires DEP in EvalClosure(db, e) && FullyCached(db, DEP) && !FullyCached(db, TOP)
    ensures PromotedBy(w, e) == {TOP}
  {
    PassKeepsBounds(db, e, w);
    SameBounds(db, w, e);
    SecondPassThawsAndFailsNothing(db, e);
    ExampleHealedAgain(db, e, w);
    ExamplePass(w, e, Pass(w, e));
    ExampleTrustedAgain(db, e, w);
  }
}
