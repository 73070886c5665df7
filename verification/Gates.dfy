/** The gates of the three derived flags, the readiness and dispatch predicates, and
    the consistency counts, each written as its query states it, with the proof that
    every flag gate is an instance of `FlagFixpoint.System`. */
module Gates {
  import opened Walks
  import opened FlagFixpoint
  import opened Tables

  predicate OutputsBacked(db: Db, d: DrvId) {
    forall o | o in db.outputs && o.derivation == d :: Backed(db, o.hash)
  }

  predicate OutputsClosed(db: Db, d: DrvId) {
    forall o | o in db.outputs && o.derivation == d ::
      Backed(db, o.hash) && db.paths[o.hash].closureComplete
  }

  // ----- closure_complete -----

  /** A built anchor needs its outputs backed, its edges flushed and every dependency
      complete or substitutable; a substituted one needs its outputs' own closures. */
  predicate ClosureGate(db: Db, d: DrvId)
    requires d in db.anchors
  {
    || (&& db.anchors[d].status == Completed
        && db.anchors[d].edgesComplete
        && OutputsBacked(db, d)
        && (forall r | r in db.edges && r.src == d ::
              r.dst in db.anchors
              && (db.anchors[r.dst].closureComplete || db.anchors[r.dst].substitutable)))
    || (db.anchors[d].status == Substituted && OutputsClosed(db, d))
  }

  predicate ClosureLocal(db: Db, d: DrvId)
    requires d in db.anchors
  {
    || (db.anchors[d].status == Completed && db.anchors[d].edgesComplete && OutputsBacked(db, d))
    || (db.anchors[d].status == Substituted && OutputsClosed(db, d))
  }

  function ClosureSystem(db: Db): System<DrvId> {
    System(
      (set d | d in db.anchors && ClosureLocal(db, d)),
      (set r | r in db.edges && r.src in db.anchors && db.anchors[r.src].status == Completed
               && !(r.dst in db.anchors && db.anchors[r.dst].substitutable)))
  }

  lemma ClosureGateIsSystem(db: Db, d: DrvId)
    requires d in db.anchors
    ensures ClosureGate(db, d) <==> Holds(ClosureSystem(db), ClosureFlags(db), d)
  {
    var sys := ClosureSystem(db);
    if Holds(sys, ClosureFlags(db), d) && db.anchors[d].status == Completed {
      forall r | r in db.edges && r.src == d
        ensures r.dst in db.anchors
                && (db.anchors[r.dst].closureComplete || db.anchors[r.dst].substitutable)
      {
        assert r in sys.needs || (r.dst in db.anchors && db.anchors[r.dst].substitutable);
      }
    }
  }

  // ----- drv_closure_cached -----

  predicate DrvBacked(db: Db, d: DrvId) { d in db.drvHash && Backed(db, db.drvHash[d]) }

  predicate DrvGate(db: Db, d: DrvId)
    requires d in db.anchors
  {
    && db.anchors[d].edgesComplete
    && DrvBacked(db, d)
    && (forall r | r in db.edges && r.src == d ::
          r.dst in db.anchors && db.anchors[r.dst].drvClosureCached)
  }

  function DrvSystem(db: Db): System<DrvId> {
    System(
      (set d | d in db.anchors && db.anchors[d].edgesComplete && DrvBacked(db, d)),
      db.edges)
  }

  lemma DrvGateIsSystem(db: Db, d: DrvId)
    requires d in db.anchors
    ensures DrvGate(db, d) <==> Holds(DrvSystem(db), DrvFlags(db), d)
  {
  }

  // ----- cached_path.closure_complete -----

  predicate PathGate(db: Db, h: Hash)
    requires h in db.paths
  {
    && db.paths[h].backed
    && (forall r | r in db.refs && r.src == h && r.dst != h ::
          Backed(db, r.dst) && db.paths[r.dst].closureComplete)
  }

  function PathSystem(db: Db): System<Hash> {
    System(
      (set h | h in db.paths && db.paths[h].backed
               && (forall r | r in db.refs && r.src == h && r.dst != h :: Backed(db, r.dst))),
      (set r | r in db.refs && r.dst != r.src))
  }

  lemma PathGateIsSystem(db: Db, h: Hash)
    requires h in db.paths
    ensures PathGate(db, h) <==> Holds(PathSystem(db), PathFlags(db), h)
  {
    var sys := PathSystem(db);
    if Holds(sys, PathFlags(db), h) {
      forall r | r in db.refs && r.src == h && r.dst != h
        ensures Backed(db, r.dst) && db.paths[r.dst].closureComplete
      {
        assert r in sys.needs;
      }
    }
  }

  // ----- readiness, promotion, dispatch -----

  predicate DepReady(db: Db, dep: DrvId) {
    dep in db.anchors
    && ((db.anchors[dep].status.TerminalSuccess() && db.anchors[dep].closureComplete)
        || db.anchors[dep].substitutable)
  }

  predicate SourcesBacked(db: Db, d: DrvId) {
    forall s | s in db.sources && s.0 == d :: Backed(db, s.1)
  }

  predicate DepsReady(db: Db, d: DrvId) {
    && (forall r | r in db.edges && r.src == d :: DepReady(db, r.dst))
    && SourcesBacked(db, d)
  }

  /** The anchor's own `.drv` is cached with its whole reference closure. */
  predicate DrvNarClosureComplete(db: Db, d: DrvId) {
    d in db.drvHash && db.drvHash[d] in db.paths && db.paths[db.drvHash[d]].closureComplete
  }

  predicate Promotable(db: Db, d: DrvId)
    requires d in db.anchors
  {
    && db.anchors[d].status == Created
    && db.anchors[d].edgesComplete
    && d in JobDrvs(db)
    && (db.anchors[d].substitutable || DepsReady(db, d))
  }

  predicate Dispatchable(db: Db, d: DrvId)
    requires d in db.anchors
  {
    && db.anchors[d].status == Queued
    && db.anchors[d].edgesComplete
    && d in JobDrvs(db)
    && (db.anchors[d].substitutable
        || ((db.anchors[d].drvClosureCached || DrvNarClosureComplete(db, d)) && DepsReady(db, d)))
  }

  /** The dispatch query, without its ordering. */
  function FindReadyAnchors(db: Db): set<DrvId> {
    set d | d in db.anchors && Dispatchable(db, d)
  }

  // ----- consistency counts -----

  function StaleClosure(db: Db): set<DrvId> {
    set d | d in db.anchors && db.anchors[d].closureComplete && !ClosureGate(db, d)
  }

  function StaleDrv(db: Db): set<DrvId> {
    set d | d in db.anchors && db.anchors[d].drvClosureCached && !DrvGate(db, d)
  }

  function UnpromotedReady(db: Db): set<DrvId> {
    set d | d in db.anchors && Promotable(db, d)
  }

  /** Output hashes of trusted producers with no backing artifact. */
  function UnbackedTrusted(db: Db): set<Hash> {
    set o | o in db.outputs && o.derivation in db.anchors
            && db.anchors[o.derivation].status.TerminalSuccess()
            && o !in db.upstream && !Backed(db, o.hash)
      :: o.hash
  }

  function StalePaths(db: Db): set<Hash> {
    set h | h in db.paths && db.paths[h].closureComplete != PathGate(db, h)
  }

  datatype ConsistencyReport = ConsistencyReport(
    staleClosureComplete: nat,
    staleDrvClosureCached: nat,
    unpromotedReady: nat,
    unbackedTrustedOutputs: nat,
    stalePathClosure: nat)

  function GraphConsistencyReport(db: Db): ConsistencyReport {
    ConsistencyReport(
      |StaleClosure(db)|, |StaleDrv(db)|, |UnpromotedReady(db)|,
      |UnbackedTrusted(db)|, |StalePaths(db)|)
  }
}
