/** A run that ends with an unsafe dispatch: a demotion without the upward clear, then a pass
    that does not re-derive path flags. */
module UnsafeRun {
  import opened Walks
  import opened FlagFixpoint
  import opened Tables
  import opened Wrappers
  import opened Gates
  import opened Promotion
  import opened CacheStorage
  import opened Reconcile
  import opened Dispatch

  /** `build` waits in the queue on `dep` alone, and all it reads itself is there. */
  ghost predicate Waiting(db: Db, build: DrvId, dep: DrvId) {
    && build in db.anchors && db.anchors[build].status == Queued
    && !db.anchors[build].substitutable && db.anchors[build].edgesComplete
    && build in JobDrvs(db) && SourcesBacked(db, build) && DrvNarClosureComplete(db, build)
    && Row(build, dep) in db.edges && forall r :: r in db.edges && r.src == build ==> r.dst == dep
  }

  /** `dep` was substituted with complete outputs, one of which refers to `leaf`. */
  ghost predicate Substitute(db: Db, dep: DrvId, o: Output, leaf: Hash) {
    && dep in db.anchors && db.anchors[dep].status == Substituted && !db.anchors[dep].substitutable
    && OutputsClosed(db, dep) && o in db.outputs && o.derivation == dep
    && o.hash != leaf && Row(o.hash, leaf) in db.refs
  }

  /** Neither `build` nor `dep` produces or directly reads `leaf`, which some derivation
      produces; nothing has failed and nothing trusted is unbacked. */
  ghost predicate LeafElsewhere(db: Db, build: DrvId, dep: DrvId, leaf: Hash) {
    && ProducersOf(db, {leaf}) != {} && build !in ProducersOf(db, {leaf}) && dep !in ProducersOf(db, {leaf})
    && (forall s :: s in db.sources && s.0 == build ==> s.1 != leaf)
    && build in db.drvHash && db.drvHash[build] != leaf
    && TerminalFailures(db) == {} && UnbackedTrusted(db) == {}
  }

  /** What a `Global` pass with nothing to demote and no failures does to each row. */
  lemma QuietGlobalPass(db: Db, w: Db)
    requires w == ReconcileBuildGraph(db, Global, []) && TerminalFailures(db) == {}
    ensures SameFacts(db, w) && w.paths == db.paths && w.refs == db.refs
    ensures forall d :: d in db.anchors ==> QuietRow(db.anchors[d], w.anchors[d])
  {
    var drv := Fix(DrvSystem(db), AnchorBound(db, None), DrvFlags(db));
    var q := WithDrv(db, drv);
    var closure := Fix(ClosureSystem(q), AnchorBound(q, None), ClosureFlags(q));
    var m := WithClosure(q, closure);
    assert Flagged(db, Global, []) == m;
    FlagsWritten(db, drv, closure, m);
    assert TerminalFailures(m) == {};
    ReachIsLeast(Flip(m.edges), {}, {});
    assert SweepFailed(m, None) == {};
    SetStatusNone(m, DependencyFailed);
    assert w == Promote(m);
    QuietPromotion(db, m, w);
  }

  predicate QuietRow(a: Anchor, b: Anchor) {
    && a.substitutable == b.substitutable && a.edgesComplete == b.edgesComplete
    && (b.status == a.status || (a.status == Created && b.status == Queued))
  }

  lemma FlagsWritten(db: Db, drv: set<DrvId>, closure: set<DrvId>, m: Db)
    requires m == WithClosure(WithDrv(db, drv), closure)
    ensures SameFacts(db, m) && m.paths == db.paths && m.refs == db.refs
    ensures forall d :: d in db.anchors ==>
              m.anchors[d].status == db.anchors[d].status
              && m.anchors[d].substitutable == db.anchors[d].substitutable
              && m.anchors[d].edgesComplete == db.anchors[d].edgesComplete
  {
  }

  lemma QuietPromotion(db: Db, m: Db, w: Db)
    requires SameFacts(db, m) && m.paths == db.paths && m.refs == db.refs && w == Promote(m)
    requires forall d :: d in db.anchors ==>
              m.anchors[d].status == db.anchors[d].status
              && m.anchors[d].substitutable == db.anchors[d].substitutable
              && m.anchors[d].edgesComplete == db.anchors[d].edgesComplete
    ensures SameFacts(db, w) && w.paths == db.paths && w.refs == db.refs
    ensures forall d :: d in db.anchors ==> QuietRow(db.anchors[d], w.anchors[d])
  {
  }

  /** The demotion of `leaf` leaves all that dispatch looks at, and nothing to demote. */
  lemma LeafGone(db: Db, build: DrvId, dep: DrvId, o: Output, leaf: Hash, del: Db)
    requires Waiting(db, build, dep) && Substitute(db, dep, o, leaf) && LeafElsewhere(db, build, dep, leaf)
    requires del == DemoteOutput(db, leaf, false)
    ensures Waiting(del, build, dep) && Substitute(del, dep, o, leaf) && leaf !in del.paths
    ensures TerminalFailures(del) == {} && UnbackedTrusted(del) == {}
  {
    assert del == DeletePaths(ResetProducers(DropUpstream(db, leaf), leaf), {leaf});
    assert forall x :: x != leaf ==> (Backed(del, x) <==> Backed(db, x));
    forall p | p in del.outputs && p.derivation == dep
      ensures Backed(del, p.hash) && del.paths[p.hash].closureComplete
    {
      assert p.hash == leaf ==> p.derivation in ProducersOf(db, {leaf});
    }
    forall p | p in del.outputs && p.derivation in del.anchors
               && del.anchors[p.derivation].status.TerminalSuccess() && p !in del.upstream
      ensures Backed(del, p.hash)
    {
      assert p.hash == leaf ==> p.derivation in ProducersOf(db, {leaf});
      assert p.hash !in UnbackedTrusted(db);
    }
  }

  lemma StillWaiting(del: Db, w: Db, build: DrvId, dep: DrvId, o: Output, leaf: Hash)
    requires Waiting(del, build, dep) && Substitute(del, dep, o, leaf) && leaf !in del.paths
    requires SameFacts(del, w) && w.paths == del.paths && w.refs == del.refs
    requires forall d :: d in del.anchors ==> QuietRow(del.anchors[d], w.anchors[d])
    ensures Waiting(w, build, dep) && Substitute(w, dep, o, leaf) && leaf !in w.paths
  {
    assert JobDrvs(w) == JobDrvs(del);
    assert forall x :: Backed(w, x) <==> Backed(del, x);
  }

  lemma UnsafeDispatch(w: Db, build: DrvId, dep: DrvId, o: Output, leaf: Hash)
    requires Waiting(w, build, dep) && Substitute(w, dep, o, leaf) && leaf !in w.paths
    requires ClosureConverged(w, w.anchors.Keys)
    ensures build in FindReadyAnchors(w) && !DispatchSafe(w, build)
  {
    ClosureGateIsSystem(w, dep);
    assert dep in ClosureFlags(w);
    var r, q := Row(build, dep), Row(o.hash, leaf);
    assert r in w.edges && dep in Step(w.edges, {build});
    assert q in w.refs && leaf in Reach(w.refs, {o.hash});
    assert !ClosureBacked(w, o.hash);
    assert !Available(w, dep);
  }

  /** The unsafe run, wherever the shape occurs: from a state with the invariant, one bare
      demotion and one `Global` pass that finds nothing to demote, and the build is
      dispatched although a path it reads is gone. */
  lemma BareDemotionEndsUnsafe(db: Db, build: DrvId, dep: DrvId, o: Output, leaf: Hash)
    requires PathsSound(db)
    requires Waiting(db, build, dep) && Substitute(db, dep, o, leaf) && LeafElsewhere(db, build, dep, leaf)
    ensures var del := Next(db, BareDemote(leaf, false));
            var w := Next(del, Pass(Global, []));
            && Enabled(db, BareDemote(leaf, false)) && Enabled(del, Pass(Global, []))
            && UnbackedTrusted(del) == {}
            && build in FindReadyAnchors(w) && !w.anchors[build].substitutable && !DispatchSafe(w, build)
  {
    var del := DemoteOutput(db, leaf, false);
    var w := ReconcileBuildGraph(del, Global, []);
    LeafGone(db, build, dep, o, leaf, del);
    QuietGlobalPass(del, w);
    StillWaiting(del, w, build, dep, o, leaf);
    AnchorsConverge(del, Global, []);
    UnsafeDispatch(w, build, dep, o, leaf);
  }

  /** A state of that shape. */
  function Example(): Db {
    var row := (status: BuildStatus, complete: bool) => Anchor(status, false, false, true, false, complete, false, 0);
    Db(map[DrvId(1) := Hash("d")],
       map[DrvId(1) := row(Queued, false), DrvId(2) := row(Substituted, true), DrvId(3) := row(Completed, true)],
       {Row(DrvId(1), DrvId(2))},
       {Output(DrvId(2), "out", Hash("")), Output(DrvId(3), "out", Hash("leaf"))}, {}, {},
       map[Hash("") := CachedPath(true, true), Hash("leaf") := CachedPath(true, true),
           Hash("d") := CachedPath(true, true)],
       {Row(Hash(""), Hash("leaf"))},
       {Job(EvalId(0), DrvId(1))}, {})
  }

  lemma ExampleFits()
    ensures PathsSound(Example()) && Waiting(Example(), DrvId(1), DrvId(2))
    ensures Substitute(Example(), DrvId(2), Output(DrvId(2), "out", Hash("")), Hash("leaf"))
    ensures LeafElsewhere(Example(), DrvId(1), DrvId(2), Hash("leaf"))
  {
    ExampleSound();
    ExampleWaits();
    ExampleElsewhere();
  }

  lemma ExampleSound()
    ensures PathsSound(Example())
    ensures Substitute(Example(), DrvId(2), Output(DrvId(2), "out", Hash("")), Hash("leaf"))
  {
  }

  lemma ExampleWaits()
    ensures Waiting(Example(), DrvId(1), DrvId(2))
  {
    var j := Job(EvalId(0), DrvId(1));
    assert j in Example().jobs && j.derivation in JobDrvs(Example());
  }

  lemma ExampleElsewhere()
    ensures LeafElsewhere(Example(), DrvId(1), DrvId(2), Hash("leaf"))
  {
    var o := Output(DrvId(3), "out", Hash("leaf"));
    assert o in Example().outputs && o.derivation in ProducersOf(Example(), {Hash("leaf")});
  }
}
