/** The dispatch query from below: whatever has its inputs is returned, so that nothing that
    could be built waits for ever. */
module NoDeadZone {
  import opened Walks
  import opened FlagFixpoint
  import opened Tables
  import opened Gates
  import opened Promotion
  import opened CacheStorage
  import opened Reconcile
  import opened Dispatch
  import opened PassScopes

  // ----- what is there, read off the cache and the graph without any derived flag -----

  /** The outputs of `m` can be had from our cache: built here with its edges known, or fetched
      with everything its outputs refer to. */
  ghost predicate Obtained(w: Db, m: DrvId) {
    m in w.anchors
    && (|| (w.anchors[m].status == Completed && w.anchors[m].edgesComplete
            && forall o :: o in w.outputs && o.derivation == m ==> Backed(w, o.hash))
        || (w.anchors[m].status == Substituted
            && forall o :: o in w.outputs && o.derivation == m ==> ClosureBacked(w, o.hash)))
  }

  /** Dependencies that a built anchor stands on: those no upstream offers. */
  function StandsOn(w: Db): set<Row<DrvId>> {
    set r | r in w.edges && r.src in w.anchors && w.anchors[r.src].status == Completed
            && !(r.dst in w.anchors && w.anchors[r.dst].substitutable)
  }

  /** A dependency is upstream, or had from our cache with all it stands on. */
  ghost predicate DepThere(w: Db, m: DrvId) {
    || (m in w.anchors && w.anchors[m].substitutable)
    || forall x :: x in Reach(StandsOn(w), {m}) ==> Obtained(w, x)
  }

  /** The `.drv` of `d` can be imported: every `.drv` below it is in the cache, or its own is
      there with everything it refers to. */
  ghost predicate DrvThere(w: Db, d: DrvId) {
    || (forall m :: m in Reach(w.edges, {d}) ==>
          m in w.anchors && w.anchors[m].edgesComplete && m in w.drvHash && Backed(w, w.drvHash[m]))
    || (d in w.drvHash && ClosureBacked(w, w.drvHash[d]))
  }

  /** Everything a build of `d` reads is there. */
  ghost predicate Buildable(w: Db, d: DrvId) {
    && (forall s :: s in w.sources && s.0 == d ==> Backed(w, s.1))
    && (forall r :: r in w.edges && r.src == d ==> DepThere(w, r.dst))
  }

  /** `d` is asked for, its edges are known, and it has not been started. */
  ghost predicate Pending(w: Db, d: DrvId) {
    && d in w.anchors && (w.anchors[d].status == Created || w.anchors[d].status == Queued)
    && w.anchors[d].edgesComplete && exists j :: j in w.jobs && j.derivation == d
  }

  /** No dead zone: after a `Deep` pass over acyclic tables the dispatch query returns exactly the
      pending anchors that an upstream has, or that are buildable with an importable `.drv`. */
  lemma NoDeadZoneAfterDeep(db: Db, order: seq<Hash>, w: Db, rank: DrvId -> nat, refRank: Hash -> nat, d: DrvId)
    requires Elements(order) == UnbackedTrusted(db) && w == ReconcileBuildGraph(db, Deep, order)
    requires Ranked(w.edges, rank) && RefsRanked(w, refRank)
    ensures d in FindReadyAnchors(w)
            <==> Pending(w, d) && (w.anchors[d].substitutable || (Buildable(w, d) && DrvThere(w, d)))
  {
    PassSettled(db, Deep, order, w);
    DeepConverged(db, order, w);
    ReadyIff(w, rank, refRank, d);
  }

  /** In any state, an anchor an upstream has is returned whatever its dependencies. */
  lemma SubstitutableIsReturned(w: Db, d: DrvId)
    requires Pending(w, d) && w.anchors[d].status == Queued && w.anchors[d].substitutable
    ensures d in FindReadyAnchors(w)
  {
  }

  /** References are acyclic but for a path that refers to itself. */
  ghost predicate RefsRanked(w: Db, rank: Hash -> nat) {
    forall r :: r in w.refs && r.src != r.dst ==> rank(r.dst) < rank(r.src)
  }

  lemma DeepConverged(db: Db, order: seq<Hash>, w: Db)
    requires w == ReconcileBuildGraph(db, Deep, order)
    ensures ClosureConverged(w, w.anchors.Keys) && DrvConverged(w, w.anchors.Keys)
    ensures PathsConverged(w, w.paths.Keys)
  {
    AnchorsConverge(db, Deep, order);
    PathsConverge(db, Deep, order);
    PassKeepsFacts(db, Deep, order);
    AfterHeal(db, Deep, order, Healed(db, Deep, order), w);
  }

  lemma ReadyIff(w: Db, rank: DrvId -> nat, refRank: Hash -> nat, d: DrvId)
    requires ClosureConverged(w, w.anchors.Keys) && DrvConverged(w, w.anchors.Keys)
    requires PathsConverged(w, w.paths.Keys) && NothingReady(w)
    requires Ranked(w.edges, rank) && RefsRanked(w, refRank)
    ensures d in FindReadyAnchors(w)
            <==> Pending(w, d) && (w.anchors[d].substitutable || (Buildable(w, d) && DrvThere(w, d)))
  {
    forall r | r in w.edges && r.src == d ensures DepReady(w, r.dst) <==> DepThere(w, r.dst) {
      DepReadyIff(w, rank, refRank, r.dst);
    }
    assert DepsReady(w, d) <==> Buildable(w, d);
    if d in w.anchors { DrvFlagIff(w, rank, d); }
    if d in w.drvHash { PathFlagIff(w, refRank, w.drvHash[d]); }
    JobThere(w, d);
  }

  lemma DepReadyIff(w: Db, rank: DrvId -> nat, refRank: Hash -> nat, m: DrvId)
    requires ClosureConverged(w, w.anchors.Keys) && PathsConverged(w, w.paths.Keys)
    requires Ranked(w.edges, rank) && RefsRanked(w, refRank)
    ensures DepReady(w, m) <==> DepThere(w, m)
  {
    var sys := ClosureSystem(w);
    assert sys.needs == StandsOn(w);
    assert m in Reach(sys.needs, {m});
    forall x ensures x in sys.local <==> Obtained(w, x) { ObtainedIff(w, refRank, x); }
    if m in w.anchors { ClosureFlagIff(w, rank, m); }
  }

  lemma ClosureFlagIff(w: Db, rank: DrvId -> nat, m: DrvId)
    requires ClosureConverged(w, w.anchors.Keys) && Ranked(w.edges, rank) && m in w.anchors
    ensures w.anchors[m].closureComplete <==> Reach(ClosureSystem(w).needs, {m}) <= ClosureSystem(w).local
  {
    TableIsReach(ClosureSystem(w), rank, w.anchors.Keys, ClosureFlags(w), m);
  }

  lemma DrvFlagIff(w: Db, rank: DrvId -> nat, d: DrvId)
    requires DrvConverged(w, w.anchors.Keys) && Ranked(w.edges, rank) && d in w.anchors
    ensures w.anchors[d].drvClosureCached <==>
            forall m :: m in Reach(w.edges, {d}) ==>
              m in w.anchors && w.anchors[m].edgesComplete && m in w.drvHash && Backed(w, w.drvHash[m])
  {
    TableIsReach(DrvSystem(w), rank, w.anchors.Keys, DrvFlags(w), d);
  }

  lemma ObtainedIff(w: Db, refRank: Hash -> nat, x: DrvId)
    requires PathsConverged(w, w.paths.Keys) && RefsRanked(w, refRank)
    ensures x in ClosureSystem(w).local <==> Obtained(w, x)
  {
    forall o | o in w.outputs && o.derivation == x
      ensures (Backed(w, o.hash) && w.paths[o.hash].closureComplete) <==> ClosureBacked(w, o.hash)
    {
      PathFlagIff(w, refRank, o.hash);
    }
  }

  lemma PathFlagIff(w: Db, refRank: Hash -> nat, h: Hash)
    requires PathsConverged(w, w.paths.Keys) && RefsRanked(w, refRank)
    ensures h in w.paths && w.paths[h].closureComplete <==> ClosureBacked(w, h)
    ensures ClosureBacked(w, h) ==> Backed(w, h)
  {
    assert h in Reach(w.refs, {h});
    TableIsReach(PathSystem(w), refRank, w.paths.Keys, PathFlags(w), h);
    LocalIffBacked(w, h);
  }

  /** Down the references from `h`, passing one's own facts is being backed. */
  lemma LocalIffBacked(w: Db, h: Hash)
    ensures Reach(PathSystem(w).needs, {h}) <= PathSystem(w).local <==> ClosureBacked(w, h)
  {
    var sys := PathSystem(w);
    ReachMonotone(sys.needs, w.refs, {h}, {h});
    forall r | r in w.refs && r.src in Reach(sys.needs, {h}) ensures r.dst in Reach(sys.needs, {h}) {
      assert r.src == r.dst || r in sys.needs;
    }
    ReachIsLeast(w.refs, {h}, Reach(sys.needs, {h}));
  }
}
