/** The derivation collection: mark from the live roots, sweep in chunks with a re-check,
    then reclaim the artifacts nothing refers to any more. */
module Gc {
  import opened Walks
  import opened Tables
  import Gates
  import opened CacheStorage

  datatype GcDb = GcDb(
    db: Db,
    entries: set<DrvId>,          // entry_point
    created: map<DrvId, int>)     // derivation: created_at

  function Roots(g: GcDb): set<DrvId> { g.entries + JobDrvs(g.db) }

  /** The build-dependency closure of the live roots. */
  function Needed(g: GcDb): set<DrvId> { Reach(g.db.edges, Roots(g)) }

  function Candidates(g: GcDb, cutoff: int): set<DrvId> {
    set d | d in g.db.drvHash && d in g.created && g.created[d] < cutoff && d !in Needed(g)
  }

  /** Delete derivation rows with everything that cascades from them. */
  function DropDrvs(g: GcDb, ds: set<DrvId>): GcDb {
    g.(db := g.db.(
         drvHash := g.db.drvHash - ds,
         anchors := g.db.anchors - ds,
         edges := (set r | r in g.db.edges && r.src !in ds && r.dst !in ds),
         outputs := (set o | o in g.db.outputs && o.derivation !in ds),
         upstream := (set o | o in g.db.upstream && o.derivation !in ds),
         sources := (set s | s in g.db.sources && s.0 !in ds),
         jobs := (set j | j in g.db.jobs && j.derivation !in ds),
         attempts := (set a | a in g.db.attempts && a.anchor !in ds)),
       entries := g.entries - ds,
       created := g.created - ds)
  }

  /** What the delete statement removes of a chunk: the re-check reads the current roots. */
  function Swept(g: GcDb, chunk: set<DrvId>): set<DrvId> {
    set d | d in chunk && d in g.db.drvHash && d !in Needed(g)
  }

  function DeleteChunk(g: GcDb, chunk: set<DrvId>): GcDb { DropDrvs(g, Swept(g, chunk)) }

  // ----- one chunk -----

  /** Everything a needed derivation consists of. */
  ghost predicate KeepsRow(g: GcDb, h: GcDb, x: DrvId) {
    && (x in g.db.drvHash ==> x in h.db.drvHash && h.db.drvHash[x] == g.db.drvHash[x])
    && (x in g.db.anchors ==> x in h.db.anchors)
    && (forall r :: r in g.db.edges && r.src == x ==> r in h.db.edges)
    && (forall o :: o in g.db.outputs && o.derivation == x ==> o in h.db.outputs)
    && (forall s :: s in g.db.sources && s.0 == x ==> s in h.db.sources)
  }

  /** A chunk delete keeps the roots, the needed set, and every row of a needed derivation. */
  lemma DropKeepsNeeded(g: GcDb, ds: set<DrvId>)
    requires ds !! Needed(g)
    ensures Roots(DropDrvs(g, ds)) == Roots(g)
    ensures Needed(DropDrvs(g, ds)) == Needed(g)
    ensures forall x :: x in Needed(g) ==> KeepsRow(g, DropDrvs(g, ds), x)
  {
    var h := DropDrvs(g, ds);
    assert h.db.jobs == g.db.jobs by {
      forall j | j in g.db.jobs ensures j.derivation !in ds { assert j.derivation in Roots(g); }
    }
    assert h.entries == g.entries;
    ReachMonotone(h.db.edges, g.db.edges, Roots(g), Roots(g));
    assert Closed(g.db.edges, Needed(h)) by {
      forall r | r in g.db.edges && r.src in Needed(h) ensures r.dst in Needed(h) {
        assert r.dst in Needed(g);
        assert r in h.db.edges;
      }
    }
    ReachIsLeast(g.db.edges, Roots(g), Needed(h));
    forall x | x in Needed(g) ensures KeepsRow(g, h, x) {
      forall r | r in g.db.edges && r.src == x ensures r in h.db.edges { assert r.dst in Needed(g); }
    }
  }

  lemma DropTwice(g: GcDb, a: set<DrvId>, b: set<DrvId>)
    ensures DropDrvs(DropDrvs(g, a), b) == DropDrvs(g, a + b)
  {
    var x, y := DropDrvs(DropDrvs(g, a), b), DropDrvs(g, a + b);
    assert x.db.drvHash == y.db.drvHash && x.db.anchors == y.db.anchors && x.db.edges == y.db.edges;
    assert x.db.outputs == y.db.outputs && x.db.upstream == y.db.upstream && x.db.sources == y.db.sources;
    assert x.db.jobs == y.db.jobs && x.db.attempts == y.db.attempts;
    assert x.entries == y.entries && x.created == y.created;
  }

  /** Sweeping two chunks in turn is sweeping them at once. */
  lemma SweepChunks(g: GcDb, a: set<DrvId>, b: set<DrvId>)
    ensures DeleteChunk(DeleteChunk(g, a), b) == DeleteChunk(g, a + b)
    ensures Swept(g, a) + Swept(DeleteChunk(g, a), b) == Swept(g, a + b)
  {
    var mid := DeleteChunk(g, a);
    DropKeepsNeeded(g, Swept(g, a));
    DropTwice(g, Swept(g, a), Swept(mid, b));
    assert Swept(g, a) + Swept(mid, b) == Swept(g, a + b);
  }

  // ----- runs with other writers in between -----

  datatype Action =
    | Sweep(chunk: set<DrvId>)     // one delete statement
    | Others(next: GcDb)           // evaluations insert rows; roots come and go

  /** Other writers never delete a derivation, its edges or its outputs. */
  ghost predicate Grows(g: GcDb, h: GcDb) { forall x :: KeepsRow(g, h, x) }

  ghost predicate Steps(g: GcDb, a: Action, h: GcDb) {
    match a
    case Sweep(chunk) => h == DeleteChunk(g, chunk)
    case Others(next) => h == next && Grows(g, next)
  }

  ghost predicate IsRun(states: seq<GcDb>, actions: seq<Action>) {
    |states| == |actions| + 1 && forall i :: 0 <= i < |actions| ==> Steps(states[i], actions[i], states[i + 1])
  }

  /** Every run: while a derivation stays needed, however its roots change hands, nothing in
      its whole dependency closure loses its row, its anchor, an edge or an output. */
  lemma {:induction false} RunKeepsClosure(states: seq<GcDb>, actions: seq<Action>, i: nat, j: nat, d: DrvId)
    requires IsRun(states, actions) && i <= j < |states|
    requires forall k :: i <= k <= j ==> d in Needed(states[k])
    ensures forall x :: x in Reach(states[i].db.edges, {d}) ==> KeepsRow(states[i], states[j], x)
    decreases j
  {
    if i < j {
      RunKeepsClosure(states, actions, i, j - 1, d);
      var first, g, h := states[i], states[j - 1], states[j];
      assert Steps(g, actions[j - 1], h);
      SameClosureBelow(first, g, d);
      ReachIsLeast(g.db.edges, {d}, Needed(g));
      forall x | x in Reach(first.db.edges, {d}) ensures KeepsRow(first, h, x) {
        StepKeepsRow(g, actions[j - 1], h, x);
        KeepsRowTwice(first, g, h, x);
      }
    }
  }

  lemma StepKeepsRow(g: GcDb, a: Action, h: GcDb, x: DrvId)
    requires Steps(g, a, h) && x in Needed(g)
    ensures KeepsRow(g, h, x)
  {
    if a.Sweep? { DropKeepsNeeded(g, Swept(g, a.chunk)); }
  }

  lemma KeepsRowTwice(f: GcDb, g: GcDb, h: GcDb, x: DrvId)
    requires KeepsRow(f, g, x) && KeepsRow(g, h, x)
    ensures KeepsRow(f, h, x)
  {
  }

  /** When no row below `d` was lost, the old closure lies within the new one. */
  lemma SameClosureBelow(first: GcDb, g: GcDb, d: DrvId)
    requires forall x :: x in Reach(first.db.edges, {d}) ==> KeepsRow(first, g, x)
    ensures Reach(first.db.edges, {d}) <= Reach(g.db.edges, {d})
  {
    var both := Reach(first.db.edges, {d}) * Reach(g.db.edges, {d});
    forall r | r in first.db.edges && r.src in both ensures r.dst in both {
      assert KeepsRow(first, g, r.src);
    }
    ReachIsLeast(first.db.edges, {d}, both);
  }

  // ----- reclaiming -----

  function OutputHashes(outputs: set<Output>): set<Hash> { set o | o in outputs :: o.hash }

  function DrvHashes(db: Db): set<Hash> { set d | d in db.drvHash :: db.drvHash[d] }

  /** Outputs are guarded by surviving outputs, `.drv`s by surviving derivations. */
  function Reclaimable(deletedOutputs: set<Hash>, deletedDrvs: set<Hash>, db: Db): set<Hash> {
    (deletedOutputs - OutputHashes(db.outputs)) + (deletedDrvs - DrvHashes(db))
  }

  ghost predicate SurvivorsKeepArtifacts(db: Db, reclaimed: set<Hash>) {
    && (forall d :: d in db.drvHash ==> db.drvHash[d] !in reclaimed)
    && (forall o :: o in db.outputs ==> o.hash !in reclaimed)
  }

  /** No survivor loses its `.drv` or an output exactly when no deleted, unshared output is
      a survivor's `.drv`, and no deleted, unshared `.drv` is a survivor's output. */
  lemma SurvivorsKeepArtifactsIff(db: Db, deletedOutputs: set<Hash>, deletedDrvs: set<Hash>)
    ensures SurvivorsKeepArtifacts(db, Reclaimable(deletedOutputs, deletedDrvs, db))
            <==> (deletedOutputs - OutputHashes(db.outputs)) !! DrvHashes(db)
                 && (deletedDrvs - DrvHashes(db)) !! OutputHashes(db.outputs)
  {
    var reclaimed := Reclaimable(deletedOutputs, deletedDrvs, db);
    if SurvivorsKeepArtifacts(db, reclaimed) {
      forall h | h in deletedOutputs - OutputHashes(db.outputs) ensures h !in DrvHashes(db) {
        assert h in reclaimed;
      }
      forall h | h in deletedDrvs - DrvHashes(db) ensures h !in OutputHashes(db.outputs) {
        assert h in reclaimed;
      }
    }
    if (deletedOutputs - OutputHashes(db.outputs)) !! DrvHashes(db)
       && (deletedDrvs - DrvHashes(db)) !! OutputHashes(db.outputs)
    {
      forall d | d in db.drvHash ensures db.drvHash[d] !in reclaimed { assert db.drvHash[d] in DrvHashes(db); }
      forall o | o in db.outputs ensures o.hash !in reclaimed { assert o.hash in OutputHashes(db.outputs); }
    }
  }

  /** The derivations the deletes of a run removed. */
  ghost function DeletedIn(states: seq<GcDb>, actions: seq<Action>, n: nat): set<DrvId>
    requires IsRun(states, actions) && n < |states|
  {
    if n == 0 then {}
    else DeletedIn(states, actions, n - 1)
         + if actions[n - 1].Sweep? then Swept(states[n - 1], actions[n - 1].chunk) else {}
  }

  /** What the scan recorded of the candidates that were then deleted. */
  function SnapshotOutputs(scan: GcDb, cutoff: int, deleted: set<DrvId>): set<Hash> {
    set o | o in scan.db.outputs && o.derivation in Candidates(scan, cutoff) && o.derivation in deleted :: o.hash
  }

  function SnapshotDrvs(scan: GcDb, cutoff: int, deleted: set<DrvId>): set<Hash> {
    set d | d in Candidates(scan, cutoff) && d in deleted :: scan.db.drvHash[d]
  }

  /** Over any run from the scan to the reclaim, with other writers in between: when, at both
      ends, no output is a `.drv`, nothing a survivor needs is reclaimed. */
  lemma DisjointFamiliesAreSafe(states: seq<GcDb>, actions: seq<Action>, cutoff: int)
    requires IsRun(states, actions)
    requires var first, last := states[0].db, states[|actions|].db;
             (OutputHashes(first.outputs) + OutputHashes(last.outputs)) !! (DrvHashes(first) + DrvHashes(last))
    ensures SurvivorsKeepArtifacts(states[|actions|].db, ReclaimedIn(states, actions, cutoff))
  {
    var deleted, first := DeletedIn(states, actions, |actions|), states[0];
    var outputs, drvs := SnapshotOutputs(first, cutoff, deleted), SnapshotDrvs(first, cutoff, deleted);
    SurvivorsKeepArtifactsIff(states[|actions|].db, outputs, drvs);
    assert outputs <= OutputHashes(first.db.outputs);
    assert drvs <= DrvHashes(first.db);
  }

  /** Rows written after the survivor queries: safe until the reclaim exactly when none of
      them is new under a hash that is about to go. */
  lemma LateRowsKeepArtifactsIff(queried: Db, reclaiming: Db, reclaimed: set<Hash>)
    requires SurvivorsKeepArtifacts(queried, reclaimed)
    ensures SurvivorsKeepArtifacts(reclaiming, reclaimed)
            <==> (forall d :: d in reclaiming.drvHash && reclaiming.drvHash[d] in reclaimed ==>
                    d in queried.drvHash && queried.drvHash[d] == reclaiming.drvHash[d])
                 && (forall o :: o in reclaiming.outputs && o.hash in reclaimed ==> o in queried.outputs)
  {
  }

  /** The undisturbed pass. */
  lemma CollectIsSafe(g: GcDb, cutoff: int)
    requires OutputHashes(g.db.outputs) !! DrvHashes(g.db)
    ensures SurvivorsKeepArtifacts(Collect(g, cutoff).db, Reclaimed(g, cutoff))
  {
    var left := DropDrvs(g, Candidates(g, cutoff));
    SurvivorsKeepArtifactsIff(left.db, DeletedOutputs(g, cutoff), DeletedDrvs(g, cutoff));
    assert OutputHashes(left.db.outputs) <= OutputHashes(g.db.outputs);
    assert DrvHashes(left.db) <= DrvHashes(g.db);
  }

  /** A survivor whose `.drv` is the output of a collected derivation loses it, whatever
      else the store holds. */
  lemma DrvMadeByADerivationIsLost(g: GcDb, maker: DrvId, made: DrvId, name: string, cutoff: int)
    requires maker in Candidates(g, cutoff) && made in g.db.drvHash && made !in Candidates(g, cutoff)
    requires Output(maker, name, g.db.drvHash[made]) in g.db.outputs
    requires forall o :: o in g.db.outputs && o.hash == g.db.drvHash[made] ==> o.derivation in Candidates(g, cutoff)
    ensures made in Collect(g, cutoff).db.drvHash && Collect(g, cutoff).db.drvHash[made] in Reclaimed(g, cutoff)
    ensures Collect(g, cutoff).db.drvHash[made] !in Collect(g, cutoff).db.paths
  {
    var left := DropDrvs(g, Candidates(g, cutoff));
    var h := g.db.drvHash[made];
    assert Output(maker, name, h).hash in DeletedOutputs(g, cutoff);
    assert h !in OutputHashes(left.db.outputs);
    PurgedRows(left.db, Reclaimed(g, cutoff));
    ClearGateFlagsPaths(DeletePaths(left.db, Reclaimed(g, cutoff)), Reclaimed(g, cutoff));
  }

  /** One reclaim transaction. */
  function Purge(db: Db, hs: set<Hash>): Db { ClearGateFlags(DeletePaths(db, hs), hs) }

  lemma PurgeNothing(db: Db)
    ensures Purge(db, {}) == db
  {
    assert DeletePaths(db, {}) == db;
    ClearGateFlagsRows(db, {});
    ClearGateFlagsPaths(db, {});
    ReachIsLeast(TrustedReferrers(db), {}, {});
    PathFlagLens(db, PathFlags(db), PathFlags(db));
    assert PathFlags(db) - {} == PathFlags(db);
    assert Purge(db, {}).anchors == db.anchors;
  }

  /** Purging in chunks, each with its own upward clear, leaves what one purge leaves. */
  lemma PurgeChunks(db: Db, a: set<Hash>, b: set<Hash>)
    ensures Purge(Purge(db, a), b) == Purge(db, a + b)
  {
    PurgeAnchors(db, a, b);
    PurgePaths(db, a, b);
    ClearGateFlagsRows(DeletePaths(db, a), a);
    ClearGateFlagsRows(DeletePaths(Purge(db, a), b), b);
    ClearGateFlagsRows(DeletePaths(db, a + b), a + b);
    assert Purge(Purge(db, a), b).refs == Purge(db, a + b).refs;
  }

  lemma PurgeAnchors(db: Db, a: set<Hash>, b: set<Hash>)
    ensures Purge(Purge(db, a), b).anchors == Purge(db, a + b).anchors
  {
    var mid := Purge(db, a);
    var x, y := Purge(mid, b), Purge(db, a + b);
    PurgedRows(db, a);
    PurgedRows(mid, b);
    PurgedRows(db, a + b);
    forall d | d in db.anchors ensures x.anchors[d] == y.anchors[d] {
      PurgedRow(db, mid, x, y, a, b, d);
    }
  }

  ghost predicate AnchorCleared(db: Db, w: Db, hs: set<Hash>, d: DrvId)
    requires d in db.anchors && d in w.anchors
  {
    w.anchors[d] == db.anchors[d].(
      drvClosureCached := db.anchors[d].drvClosureCached && !(d in db.drvHash && db.drvHash[d] in hs),
      closureComplete := db.anchors[d].closureComplete && d !in ProducersOf(db, hs))
  }

  lemma PurgedRows(db: Db, hs: set<Hash>)
    ensures Purge(db, hs).anchors.Keys == db.anchors.Keys
    ensures Purge(db, hs).outputs == db.outputs && Purge(db, hs).drvHash == db.drvHash
    ensures forall d :: d in db.anchors ==> AnchorCleared(db, Purge(db, hs), hs, d)
  {
    ClearGateFlagsRows(DeletePaths(db, hs), hs);
    assert ProducersOf(DeletePaths(db, hs), hs) == ProducersOf(db, hs);
  }

  lemma PurgedRow(db: Db, mid: Db, x: Db, y: Db, a: set<Hash>, b: set<Hash>, d: DrvId)
    requires d in db.anchors && d in mid.anchors && d in x.anchors && d in y.anchors
    requires mid.outputs == db.outputs && mid.drvHash == db.drvHash
    requires AnchorCleared(db, mid, a, d) && AnchorCleared(mid, x, b, d) && AnchorCleared(db, y, a + b, d)
    ensures x.anchors[d] == y.anchors[d]
  {
    assert ProducersOf(mid, b) == ProducersOf(db, b);
    assert ProducersOf(db, a + b) == ProducersOf(db, a) + ProducersOf(db, b);
  }

  lemma PurgePaths(db: Db, a: set<Hash>, b: set<Hash>)
    ensures Purge(Purge(db, a), b).paths == Purge(db, a + b).paths
  {
    var mid := Purge(db, a);
    PurgedPaths(db, a, mid);
    PurgedPaths(mid, b, Purge(mid, b));
    PurgedPaths(db, a + b, Purge(db, a + b));
    MidFlags(db, a, mid);
    DirtyInChunks(db, DeletePaths(db, a), mid, DeletePaths(mid, b), DeletePaths(db, a + b), a, b);
    PathsAgree(db, mid, Purge(mid, b), Purge(db, a + b), a, b,
               Dirty(DeletePaths(db, a), a), Dirty(DeletePaths(mid, b), b));
  }

  /** The surviving path rows, and which of them stay trusted. */
  ghost predicate PathsPurged(db: Db, w: Db, hs: set<Hash>, dirty: set<Hash>) {
    && w.paths.Keys == db.paths.Keys - hs
    && forall h :: h in w.paths ==>
         w.paths[h] == db.paths[h].(closureComplete := db.paths[h].closureComplete && h !in dirty)
  }

  lemma PurgedPaths(db: Db, hs: set<Hash>, w: Db)
    requires w == Purge(db, hs)
    ensures PathsPurged(db, w, hs, Dirty(DeletePaths(db, hs), hs))
    ensures w.refs == DeletePaths(db, hs).refs
  {
    ClearGateFlagsPaths(DeletePaths(db, hs), hs);
  }

  lemma MidFlags(db: Db, a: set<Hash>, mid: Db)
    requires PathsPurged(db, mid, a, Dirty(DeletePaths(db, a), a))
    ensures PathFlags(mid) == PathFlags(DeletePaths(db, a)) - Dirty(DeletePaths(db, a), a)
  {
  }

  lemma PathsAgree(
      db: Db, mid: Db, x: Db, y: Db, a: set<Hash>, b: set<Hash>, one: set<Hash>, two: set<Hash>)
    requires PathsPurged(db, mid, a, one) && PathsPurged(mid, x, b, two) && PathsPurged(db, y, a + b, one + two)
    ensures x.paths == y.paths
  {
    assert x.paths.Keys == y.paths.Keys;
  }

  lemma DirtyInChunks(db: Db, d1: Db, mid: Db, d2: Db, whole: Db, a: set<Hash>, b: set<Hash>)
    requires d1 == DeletePaths(db, a) && d2 == DeletePaths(mid, b) && whole == DeletePaths(db, a + b)
    requires mid.refs == d1.refs && PathFlags(mid) == PathFlags(d1) - Dirty(d1, a)
    ensures Dirty(whole, a + b) == Dirty(d1, a) + Dirty(d2, b)
  {
    var one, two, all := Dirty(d1, a), Dirty(d2, b), Dirty(whole, a + b);
    assert Closed(TrustedReferrers(whole), one + two) by {
      forall r | r in TrustedReferrers(whole) && r.src in one + two ensures r.dst in one + two {
        TrustedRow(db, whole, a + b, r);
        TrustedRow(db, d1, a, r);
        if r.dst !in one { TrustedRow(mid, d2, b, r); }
      }
    }
    ReachIsLeast(TrustedReferrers(whole), a + b, one + two);
    assert Closed(TrustedReferrers(d1), all) by {
      forall r | r in TrustedReferrers(d1) && r.src in all ensures r.dst in all {
        TrustedRow(db, d1, a, r);
        TrustedRow(db, whole, a + b, r);
      }
    }
    ReachIsLeast(TrustedReferrers(d1), a, all);
    assert Closed(TrustedReferrers(d2), all) by {
      forall r | r in TrustedReferrers(d2) && r.src in all ensures r.dst in all {
        TrustedRow(mid, d2, b, r);
        TrustedRow(db, d1, a, r);
        TrustedRow(db, whole, a + b, r);
      }
    }
    ReachIsLeast(TrustedReferrers(d2), b, all);
  }

  /** A row of the upward walk after a deletion. */
  lemma TrustedRow(db: Db, del: Db, hs: set<Hash>, r: Row<Hash>)
    requires del == DeletePaths(db, hs)
    ensures r in TrustedReferrers(del) <==>
            Row(r.dst, r.src) in db.refs && r.dst !in hs && r.dst in PathFlags(db)
  {
    FlipRow(del.refs, r.src, r.dst);
  }

  // ----- the pass -----

  function DeletedOutputs(g: GcDb, cutoff: int): set<Hash> {
    set o | o in g.db.outputs && o.derivation in Candidates(g, cutoff) :: o.hash
  }

  function DeletedDrvs(g: GcDb, cutoff: int): set<Hash> {
    set d | d in Candidates(g, cutoff) :: g.db.drvHash[d]
  }

  function Reclaimed(g: GcDb, cutoff: int): set<Hash> {
    Reclaimable(DeletedOutputs(g, cutoff), DeletedDrvs(g, cutoff), DropDrvs(g, Candidates(g, cutoff)).db)
  }

  /** An undisturbed pass: all past-grace orphans go, then the artifacts only they had. */
  function Collect(g: GcDb, cutoff: int): GcDb {
    var left := DropDrvs(g, Candidates(g, cutoff));
    left.(db := Purge(left.db, Reclaimed(g, cutoff)))
  }

  // ----- what a pass does to every table -----

  /** An entry point or a job stands for `r`. */
  ghost predicate IsRoot(g: GcDb, r: DrvId) { r in g.entries || exists e :: Job(e, r) in g.db.jobs }

  /** Old enough, and nothing that is asked for depends on it. */
  ghost predicate Orphan(g: GcDb, cutoff: int, d: DrvId) {
    && d in g.db.drvHash && d in g.created && g.created[d] < cutoff
    && forall r :: IsRoot(g, r) ==> d !in Reach(g.db.edges, {r})
  }

  lemma OrphanIff(g: GcDb, cutoff: int, d: DrvId)
    ensures d in Candidates(g, cutoff) <==> Orphan(g, cutoff, d)
  {
    if d in Needed(g) {
      var p := PathTo(g.db.edges, Roots(g), d);
      RootIff(g, p[0]);
      PathStays(g.db.edges, p, Reach(g.db.edges, {p[0]}), |p| - 1);
    }
    if r :| IsRoot(g, r) && d in Reach(g.db.edges, {r}) {
      RootIff(g, r);
      ReachIsLeast(g.db.edges, {r}, Needed(g));
    }
  }

  lemma RootIff(g: GcDb, r: DrvId)
    ensures r in Roots(g) <==> IsRoot(g, r)
  {
    if r in JobDrvs(g.db) {
      var j :| j in g.db.jobs && j.derivation == r;
      assert Job(j.evaluation, r) in g.db.jobs;
    }
    if e :| Job(e, r) in g.db.jobs { assert Job(e, r).derivation == r; }
  }

  /** An artifact only orphans had: as an output no other derivation lists, or as a `.drv` no other
      derivation has. */
  ghost predicate Freed(g: GcDb, cutoff: int, h: Hash) {
    || ((exists o :: o in g.db.outputs && o.hash == h && Orphan(g, cutoff, o.derivation))
        && forall o :: o in g.db.outputs && o.hash == h ==> Orphan(g, cutoff, o.derivation))
    || ((exists d :: Orphan(g, cutoff, d) && g.db.drvHash[d] == h)
        && forall d :: d in g.db.drvHash && g.db.drvHash[d] == h ==> Orphan(g, cutoff, d))
  }

  /** The state after an undisturbed pass, table by table. */
  ghost predicate Collected(g: GcDb, cutoff: int, w: GcDb) {
    && (forall d :: d in w.db.drvHash <==> d in g.db.drvHash && !Orphan(g, cutoff, d))
    && (forall d :: d in w.db.drvHash ==> w.db.drvHash[d] == g.db.drvHash[d])
    && (forall d :: d in w.db.anchors <==> d in g.db.anchors && !Orphan(g, cutoff, d))
    && (forall d :: d in w.db.anchors ==> SameButTrust(g.db.anchors[d], w.db.anchors[d]))
    && (forall r :: r in w.db.edges <==> r in g.db.edges && !Orphan(g, cutoff, r.src) && !Orphan(g, cutoff, r.dst))
    && (forall o :: o in w.db.outputs <==> o in g.db.outputs && !Orphan(g, cutoff, o.derivation))
    && (forall o :: o in w.db.upstream <==> o in g.db.upstream && !Orphan(g, cutoff, o.derivation))
    && (forall s :: s in w.db.sources <==> s in g.db.sources && !Orphan(g, cutoff, s.0))
    && (forall a :: a in w.db.attempts <==> a in g.db.attempts && !Orphan(g, cutoff, a.anchor))
    && w.db.jobs == g.db.jobs && w.entries == g.entries
    && (forall d :: d in w.created <==> d in g.created && !Orphan(g, cutoff, d))
    && (forall h :: h in w.db.paths <==> h in g.db.paths && !Freed(g, cutoff, h))
    && (forall h :: h in w.db.paths ==>
          w.db.paths[h].backed == g.db.paths[h].backed
          && (w.db.paths[h].closureComplete ==> g.db.paths[h].closureComplete))
    && (forall r :: r in w.db.refs <==> r in g.db.refs && !Freed(g, cutoff, r.src))
  }

  /** A surviving anchor may lose derived flags and nothing else. */
  predicate SameButTrust(a: Anchor, b: Anchor) {
    && b == a.(closureComplete := b.closureComplete, drvClosureCached := b.drvClosureCached)
    && (b.closureComplete ==> a.closureComplete) && (b.drvClosureCached ==> a.drvClosureCached)
  }

  lemma CollectMeans(g: GcDb, cutoff: int, w: GcDb)
    requires w == Collect(g, cutoff)
    ensures Collected(g, cutoff, w)
    ensures forall h :: h in Reclaimed(g, cutoff) <==> Freed(g, cutoff, h)
  {
    var gone, hs := Candidates(g, cutoff), Reclaimed(g, cutoff);
    forall d ensures d in gone <==> Orphan(g, cutoff, d) { OrphanIff(g, cutoff, d); }
    forall h ensures h in hs <==> Freed(g, cutoff, h) { FreedIff(g, cutoff, h); }
    var left := DropDrvs(g, gone);
    CollectThose(g, cutoff, left, hs);
    DropMeans(g, cutoff, gone, left);
    PurgeMeans(left.db, hs, w.db);
    CollectedBoth(g, cutoff, left, hs, w);
  }

  lemma FreedIff(g: GcDb, cutoff: int, h: Hash)
    ensures h in Reclaimed(g, cutoff) <==> Freed(g, cutoff, h)
  {
    var gone := Candidates(g, cutoff);
    forall d ensures d in gone <==> Orphan(g, cutoff, d) { OrphanIff(g, cutoff, d); }
    LeftHashes(g, gone, h);
  }

  lemma LeftHashes(g: GcDb, gone: set<DrvId>, h: Hash)
    ensures var left := DropDrvs(g, gone).db;
            && (h in OutputHashes(left.outputs) <==>
                  exists o :: o in g.db.outputs && o.hash == h && o.derivation !in gone)
            && (h in DrvHashes(left) <==> exists d :: d in g.db.drvHash && g.db.drvHash[d] == h && d !in gone)
  {
    var left := DropDrvs(g, gone).db;
    if d :| d in g.db.drvHash && g.db.drvHash[d] == h && d !in gone {
      assert d in left.drvHash && left.drvHash[d] == h;
    }
  }

  /** The state once the orphans' rows are gone. */
  ghost predicate Dropped(g: GcDb, cutoff: int, left: GcDb) {
    && left.db.drvHash == (map d | d in g.db.drvHash && !Orphan(g, cutoff, d) :: g.db.drvHash[d])
    && left.db.anchors == (map d | d in g.db.anchors && !Orphan(g, cutoff, d) :: g.db.anchors[d])
    && left.db.edges == (set r | r in g.db.edges && !Orphan(g, cutoff, r.src) && !Orphan(g, cutoff, r.dst))
    && left.db.outputs == (set o | o in g.db.outputs && !Orphan(g, cutoff, o.derivation))
    && left.db.upstream == (set o | o in g.db.upstream && !Orphan(g, cutoff, o.derivation))
    && left.db.sources == (set s | s in g.db.sources && !Orphan(g, cutoff, s.0))
    && left.db.attempts == (set a | a in g.db.attempts && !Orphan(g, cutoff, a.anchor))
    && left.db.jobs == g.db.jobs && left.entries == g.entries
    && left.created == (map d | d in g.created && !Orphan(g, cutoff, d) :: g.created[d])
    && left.db.paths == g.db.paths && left.db.refs == g.db.refs
  }

  lemma DropMeans(g: GcDb, cutoff: int, gone: set<DrvId>, left: GcDb)
    requires left == DropDrvs(g, gone) && forall d :: d in gone <==> Orphan(g, cutoff, d)
    ensures Dropped(g, cutoff, left)
  {
    assert g.db.jobs == left.db.jobs by {
      forall j | j in g.db.jobs ensures j.derivation !in gone {
        assert Job(j.evaluation, j.derivation) in g.db.jobs && IsRoot(g, j.derivation);
      }
    }
    assert g.entries == left.entries by {
      forall d | d in g.entries ensures d !in gone { assert IsRoot(g, d); }
    }
  }

  lemma PurgeMeans(db: Db, hs: set<Hash>, w: Db)
    requires w == Purge(db, hs)
    ensures w == db.(anchors := w.anchors, paths := w.paths, refs := w.refs)
    ensures w.anchors.Keys == db.anchors.Keys
    ensures forall d :: d in db.anchors ==> SameButTrust(db.anchors[d], w.anchors[d])
    ensures w.paths.Keys == db.paths.Keys - hs && w.refs == (set r | r in db.refs && r.src !in hs)
    ensures forall h :: h in w.paths ==>
              w.paths[h].backed == db.paths[h].backed
              && (w.paths[h].closureComplete ==> db.paths[h].closureComplete)
  {
    PurgedRows(db, hs);
    PurgedPaths(db, hs, w);
    ClearGateFlagsRows(DeletePaths(db, hs), hs);
    forall d | d in db.anchors ensures SameButTrust(db.anchors[d], w.anchors[d]) {
      assert AnchorCleared(db, w, hs, d);
    }
  }

  lemma CollectedBoth(g: GcDb, cutoff: int, left: GcDb, hs: set<Hash>, w: GcDb)
    requires Dropped(g, cutoff, left) && forall h :: h in hs <==> Freed(g, cutoff, h)
    requires w == left.(db := w.db) && w.db == left.db.(anchors := w.db.anchors, paths := w.db.paths, refs := w.db.refs)
    requires w.db.anchors.Keys == left.db.anchors.Keys
    requires forall d :: d in left.db.anchors ==> SameButTrust(left.db.anchors[d], w.db.anchors[d])
    requires w.db.paths.Keys == left.db.paths.Keys - hs && w.db.refs == (set r | r in left.db.refs && r.src !in hs)
    requires forall h :: h in w.db.paths ==>
               w.db.paths[h].backed == left.db.paths[h].backed
               && (w.db.paths[h].closureComplete ==> left.db.paths[h].closureComplete)
    ensures Collected(g, cutoff, w)
  {
  }

  /** What a pass among other writers reclaims: what the scan saw of the orphans it went on to
      delete, unless a row of the end has it. */
  lemma ReclaimedInIff(states: seq<GcDb>, actions: seq<Action>, cutoff: int, h: Hash)
    requires IsRun(states, actions)
    ensures var scan, last, deleted := states[0], states[|actions|].db, DeletedIn(states, actions, |actions|);
            h in ReclaimedIn(states, actions, cutoff) <==>
            || ((exists o :: o in scan.db.outputs && o.hash == h && o.derivation in deleted
                             && Orphan(scan, cutoff, o.derivation))
                && forall o :: o in last.outputs ==> o.hash != h)
            || ((exists d :: d in deleted && Orphan(scan, cutoff, d) && scan.db.drvHash[d] == h)
                && forall d :: d in last.drvHash ==> last.drvHash[d] != h)
  {
    var scan, last, deleted := states[0], states[|actions|].db, DeletedIn(states, actions, |actions|);
    forall d ensures d in Candidates(scan, cutoff) <==> Orphan(scan, cutoff, d) { OrphanIff(scan, cutoff, d); }
    assert h in SnapshotOutputs(scan, cutoff, deleted) <==>
           exists o :: o in scan.db.outputs && o.hash == h && o.derivation in deleted
                       && Orphan(scan, cutoff, o.derivation);
    assert h in SnapshotDrvs(scan, cutoff, deleted) <==>
           exists d :: d in deleted && Orphan(scan, cutoff, d) && scan.db.drvHash[d] == h;
    assert h in OutputHashes(last.outputs) <==> exists o :: o in last.outputs && o.hash == h;
    assert h in DrvHashes(last) <==> exists d :: d in last.drvHash && last.drvHash[d] == h;
  }

  /** The pass changes no edge except that it drops those at a collected derivation, and no
      column of a surviving anchor that says whether its edges are complete. */
  lemma CollectKeepsRest(g: GcDb, cutoff: int, after: GcDb)
    requires after == Collect(g, cutoff)
    ensures var gone := Candidates(g, cutoff);
            && after.db.edges == (set r | r in g.db.edges && r.src !in gone && r.dst !in gone)
            && after.db.drvHash == g.db.drvHash - gone && after.entries == g.entries - gone
            && after.db.jobs == (set j | j in g.db.jobs && j.derivation !in gone)
            && after.db.anchors.Keys == g.db.anchors.Keys - gone
            && forall d :: d in after.db.anchors ==>
                 after.db.anchors[d].edgesComplete == g.db.anchors[d].edgesComplete
  {
    var left := DropDrvs(g, Candidates(g, cutoff));
    var hs := Reclaimed(g, cutoff);
    CollectThose(g, cutoff, left, hs);
    PurgedRows(left.db, hs);
    ClearGateFlagsRows(DeletePaths(left.db, hs), hs);
    forall d | d in after.db.anchors
      ensures after.db.anchors[d].edgesComplete == g.db.anchors[d].edgesComplete
    {
      assert AnchorCleared(left.db, after.db, hs, d);
    }
  }

  /** A survivor keeps a dependency edge exactly when the dependency survives too. */
  lemma EdgeSurvivesIff(g: GcDb, cutoff: int, r: Row<DrvId>)
    requires r in g.db.edges && r.src !in Candidates(g, cutoff)
    ensures r in Collect(g, cutoff).db.edges <==> r.dst !in Candidates(g, cutoff)
  {
    CollectKeepsRest(g, cutoff, Collect(g, cutoff));
  }

  /** An evaluation references a derivation that is there already. */
  function Attach(g: GcDb, e: EvalId, d: DrvId): GcDb { g.(db := g.db.(jobs := g.db.jobs + {Job(e, d)})) }

  ghost predicate LosesAll(g: GcDb, cutoff: int, d: DrvId) {
    forall r :: r in g.db.edges && r.src == d ==> r.dst in Candidates(g, cutoff)
  }

  /** What that costs an orphan that a pass spares for being young: referenced again before its
      rows are reported again, it counts as flushed but its closure lacks the collected
      dependency, and without other dependencies it is ready at once. */
  lemma SparedOrphanIsTruncated(g: GcDb, cutoff: int, e: EvalId, r: Row<DrvId>)
    requires r in g.db.edges && r.src in g.db.anchors
    requires r.src !in Candidates(g, cutoff) && r.dst in Candidates(g, cutoff)
    ensures r.src !in Needed(g)
    ensures var again := Attach(Collect(g, cutoff), e, r.src);
            && r.src in again.db.anchors && r.src in Needed(again)
            && again.db.anchors[r.src].edgesComplete == g.db.anchors[r.src].edgesComplete
            && r.dst !in again.db.drvHash && r.dst !in Needed(again)
            && (LosesAll(g, cutoff, r.src) && Gates.SourcesBacked(again.db, r.src) ==>
                  Gates.DepsReady(again.db, r.src))
  {
    var after := Collect(g, cutoff);
    var again := Attach(after, e, r.src);
    CollectKeepsRest(g, cutoff, after);
    var job := Job(e, r.src);
    assert job in again.db.jobs && job.derivation in JobDrvs(again.db);
    assert r.dst !in Roots(again) by { assert r.dst !in Needed(g); }
    ReachIsLeast(again.db.edges, Roots(again), Needed(again) - {r.dst});
  }

  /** The pass keeps the completeness invariant of the cache. */
  lemma CollectKeepsPathsSound(g: GcDb, cutoff: int)
    requires PathsSound(g.db)
    ensures PathsSound(Collect(g, cutoff).db)
  {
    var left := DropDrvs(g, Candidates(g, cutoff));
    assert PathsSound(left.db) by {
      forall h | h in left.db.paths && left.db.paths[h].closureComplete ensures Gates.PathGate(left.db, h) {
        assert Gates.PathGate(g.db, h);
      }
    }
    DeletePreservesSound(left.db, Reclaimed(g, cutoff));
  }

  /** A second pass right after collects nothing. */
  lemma CollectIdempotent(g: GcDb, cutoff: int)
    ensures Candidates(Collect(g, cutoff), cutoff) == {}
  {
    var ds := Candidates(g, cutoff);
    DropKeepsNeeded(g, ds);
    var left := DropDrvs(g, ds);
    PurgedRows(left.db, Reclaimed(g, cutoff));
    ClearGateFlagsRows(DeletePaths(left.db, Reclaimed(g, cutoff)), Reclaimed(g, cutoff));
    assert Roots(Collect(g, cutoff)) == Roots(left);
  }

  /** The reclaim transactions, chunk by chunk. */
  method PurgeInChunks(before: Db, hashes: seq<Hash>, chunkSize: nat) returns (db: Db)
    requires chunkSize > 0
    ensures db == Purge(before, Elements(hashes))
  {
    db := before;
    var i := 0;
    PurgeNothing(before);
    while i < |hashes|
      invariant 0 <= i <= |hashes|
      invariant db == Purge(before, Elements(hashes[..i]))
    {
      var j := if i + chunkSize <= |hashes| then i + chunkSize else |hashes|;
      PurgeNextChunk(before, hashes, i, j);
      db := Purge(db, Elements(hashes[i..j]));
      i := j;
    }
    assert hashes[..i] == hashes;
  }

  class Collector {
    var g: GcDb
    var nars: set<Hash>

    constructor (g0: GcDb, nars0: set<Hash>)
      ensures g == g0 && nars == nars0
    {
      g, nars := g0, nars0;
    }

    /** The delete statements, chunk by chunk, with other writers at work before each: a run, and
        what it reports deleted is what the run's deletes removed. */
    method DeleteInChunks(ids: seq<DrvId>, chunkSize: nat, writers: nat -> GcDb -> GcDb)
      returns (deleted: set<DrvId>, ghost states: seq<GcDb>, ghost actions: seq<Action>)
      requires chunkSize > 0 && forall i: nat, x: GcDb :: Grows(x, writers(i)(x))
      modifies this`g
      ensures IsRun(states, actions) && states[0] == old(g) && states[|actions|] == g
      ensures deleted == DeletedIn(states, actions, |actions|)
      ensures Quiet(writers) ==> SweptTo(old(g), g, deleted, ids)
    {
      deleted, states, actions := {}, [g], [];
      var i := 0;
      DropNothing(g);
      while i < |ids|
        invariant 0 <= i <= |ids|
        invariant IsRun(states, actions) && states[0] == old(g) && states[|actions|] == g
        invariant deleted == DeletedIn(states, actions, |actions|)
        invariant Quiet(writers) ==> SweptTo(old(g), g, deleted, ids[..i])
      {
        var j := if i + chunkSize <= |ids| then i + chunkSize else |ids|;
        var chunk := Elements(ids[i..j]);
        var next := writers(i)(g);
        RunOn(states, actions, Others(next), next);
        if Quiet(writers) { SweepNextChunk(old(g), g, deleted, ids, i, j); }
        states, actions, g := states + [next], actions + [Others(next)], next;
        var after := DeleteChunk(g, chunk);
        deleted := deleted + Swept(g, chunk);
        RunOn(states, actions, Sweep(chunk), after);
        states, actions, g := states + [after], actions + [Sweep(chunk)], after;
        i := j;
      }
      assert ids[..i] == ids;
    }

    /** The whole pass, whatever order the queries answer in and whatever other writers do between
        its delete statements: what the scan saw of the deleted candidates is reclaimed, unless
        a row left at the end has it. */
    method GcOrphanDerivations(cutoff: int, chunkSize: nat, writers: nat -> GcDb -> GcDb)
      returns (ghost states: seq<GcDb>, ghost actions: seq<Action>)
      requires chunkSize > 0 && forall i: nat, x: GcDb :: Grows(x, writers(i)(x))
      modifies this
      ensures IsRun(states, actions) && states[0] == old(g)
      ensures var left, gone := states[|actions|], ReclaimedIn(states, actions, cutoff);
              g == left.(db := Purge(left.db, gone)) && nars == old(nars) - gone
      ensures Quiet(writers) ==> g == Collect(old(g), cutoff) && nars == old(nars) - Reclaimed(old(g), cutoff)
    {
      var ids := Listing(Candidates(g, cutoff));
      if ids == [] {
        states, actions := [g], [];
        NothingToCollect(g, cutoff, ids);
        return;
      }
      ghost var scan := g;
      var candidateOutputs := set o | o in g.db.outputs && o.derivation in Elements(ids);
      var candidateDrvs := map d | d in ids && d in g.db.drvHash :: g.db.drvHash[d];
      var deleted;
      deleted, states, actions := DeleteInChunks(ids, chunkSize, writers);
      var outputs := set o | o in candidateOutputs && o.derivation in deleted :: o.hash;
      var drvs := set d | d in deleted && d in candidateDrvs :: candidateDrvs[d];
      ScanSaw(scan, cutoff, candidateOutputs, candidateDrvs, deleted);
      var reclaimed := Reclaimable(outputs, drvs, g.db);
      if Quiet(writers) { QuietReclaim(scan, cutoff, g, deleted, reclaimed); }
      Reclaim(reclaimed, chunkSize);
    }

    /** Drop the artifacts, then their rows in chunks. */
    method Reclaim(reclaimed: set<Hash>, chunkSize: nat)
      requires chunkSize > 0
      modifies this
      ensures g == old(g).(db := Purge(old(g).db, reclaimed)) && nars == old(nars) - reclaimed
    {
      nars := nars - reclaimed;
      var hashes := Listing(reclaimed);
      var db := PurgeInChunks(g.db, hashes, chunkSize);
      g := g.(db := db);
    }
  }

  /** What the scan saved of the deleted candidates is what it saw of them. */
  lemma ScanSaw(
      scan: GcDb, cutoff: int, outputs: set<Output>, drvs: map<DrvId, Hash>, deleted: set<DrvId>)
    requires outputs == set o | o in scan.db.outputs && o.derivation in Candidates(scan, cutoff)
    requires drvs == map d | d in Candidates(scan, cutoff) && d in scan.db.drvHash :: scan.db.drvHash[d]
    ensures (set o | o in outputs && o.derivation in deleted :: o.hash) == SnapshotOutputs(scan, cutoff, deleted)
    ensures (set d | d in deleted && d in drvs :: drvs[d]) == SnapshotDrvs(scan, cutoff, deleted)
  {
  }

  lemma NothingToCollect(g: GcDb, cutoff: int, ids: seq<DrvId>)
    requires ids == [] && Elements(ids) == Candidates(g, cutoff)
    ensures Collect(g, cutoff) == g && Reclaimed(g, cutoff) == {}
    ensures ReclaimedIn([g], [], cutoff) == {} && Purge(g.db, {}) == g.db
  {
    assert Elements(ids) == {};
    CollectNothing(g, cutoff);
    PurgeNothing(g.db);
  }

  /** Other writers change nothing. */
  ghost predicate Quiet(writers: nat -> GcDb -> GcDb) { forall i: nat, x: GcDb :: writers(i)(x) == x }

  /** What a pass over a run reclaims. */
  ghost function ReclaimedIn(states: seq<GcDb>, actions: seq<Action>, cutoff: int): set<Hash>
    requires IsRun(states, actions)
  {
    var deleted := DeletedIn(states, actions, |actions|);
    Reclaimable(SnapshotOutputs(states[0], cutoff, deleted), SnapshotDrvs(states[0], cutoff, deleted),
                states[|actions|].db)
  }

  /** Undisturbed deletes of the chunks of `ids` led from `before` to `g`. */
  ghost predicate SweptTo(before: GcDb, g: GcDb, deleted: set<DrvId>, ids: seq<DrvId>) {
    g == DeleteChunk(before, Elements(ids)) && deleted == Swept(before, Elements(ids))
  }

  lemma SweepNextChunk(before: GcDb, g: GcDb, deleted: set<DrvId>, ids: seq<DrvId>, i: nat, j: nat)
    requires i <= j <= |ids| && SweptTo(before, g, deleted, ids[..i])
    ensures var chunk := Elements(ids[i..j]);
            SweptTo(before, DeleteChunk(g, chunk), deleted + Swept(g, chunk), ids[..j])
  {
    SweepChunks(before, Elements(ids[..i]), Elements(ids[i..j]));
    assert ids[..j] == ids[..i] + ids[i..j];
    ElementsAppend(ids[..i], ids[i..j]);
  }

  lemma QuietReclaim(before: GcDb, cutoff: int, left: GcDb, deleted: set<DrvId>, reclaimed: set<Hash>)
    requires left == DeleteChunk(before, Candidates(before, cutoff))
    requires deleted == Swept(before, Candidates(before, cutoff))
    requires reclaimed == Reclaimable(SnapshotOutputs(before, cutoff, deleted),
                                      SnapshotDrvs(before, cutoff, deleted), left.db)
    ensures reclaimed == Reclaimed(before, cutoff)
    ensures Collect(before, cutoff) == left.(db := Purge(left.db, reclaimed))
  {
    assert deleted == Candidates(before, cutoff);
    assert SnapshotOutputs(before, cutoff, deleted) == DeletedOutputs(before, cutoff);
    assert SnapshotDrvs(before, cutoff, deleted) == DeletedDrvs(before, cutoff);
    CollectThose(before, cutoff, left, reclaimed);
  }

  lemma PurgeNextChunk(db: Db, hashes: seq<Hash>, i: nat, j: nat)
    requires i <= j <= |hashes|
    ensures Purge(Purge(db, Elements(hashes[..i])), Elements(hashes[i..j])) == Purge(db, Elements(hashes[..j]))
  {
    PurgeChunks(db, Elements(hashes[..i]), Elements(hashes[i..j]));
    assert hashes[..j] == hashes[..i] + hashes[i..j];
    ElementsAppend(hashes[..i], hashes[i..j]);
  }

  lemma RunOn(states: seq<GcDb>, actions: seq<Action>, a: Action, next: GcDb)
    requires IsRun(states, actions) && Steps(states[|actions|], a, next)
    ensures IsRun(states + [next], actions + [a])
    ensures DeletedIn(states + [next], actions + [a], |actions| + 1)
            == DeletedIn(states, actions, |actions|) + if a.Sweep? then Swept(states[|actions|], a.chunk) else {}
  {
    var longer, more := states + [next], actions + [a];
    forall i | 0 <= i < |more| ensures Steps(longer[i], more[i], longer[i + 1]) {
      if i < |actions| { assert Steps(states[i], actions[i], states[i + 1]); }
    }
    DeletedBefore(states, actions, longer, more, |actions|);
  }

  lemma {:induction false} DeletedBefore(
      states: seq<GcDb>, actions: seq<Action>, longer: seq<GcDb>, more: seq<Action>, n: nat)
    requires IsRun(states, actions) && IsRun(longer, more) && n <= |actions|
    requires states <= longer && actions <= more
    ensures DeletedIn(longer, more, n) == DeletedIn(states, actions, n)
  {
    if n > 0 { DeletedBefore(states, actions, longer, more, n - 1); }
  }

  lemma DropNothing(g: GcDb)
    ensures DropDrvs(g, {}) == g && Swept(g, {}) == {} && DeleteChunk(g, {}) == g
  {
    var h := DropDrvs(g, {});
    assert h.db.edges == g.db.edges && h.db.outputs == g.db.outputs && h.db.upstream == g.db.upstream;
    assert h.db.sources == g.db.sources && h.db.jobs == g.db.jobs && h.db.attempts == g.db.attempts;
  }

  lemma CollectNothing(g: GcDb, cutoff: int)
    ensures Candidates(g, cutoff) == {} ==> Collect(g, cutoff) == g && Reclaimed(g, cutoff) == {}
  {
    if Candidates(g, cutoff) == {} {
      DropNothing(g);
      assert DeletedOutputs(g, cutoff) == {} && DeletedDrvs(g, cutoff) == {};
      assert Reclaimed(g, cutoff) == {};
      CollectThose(g, cutoff, g, {});
      PurgeNothing(g.db);
    }
  }

  lemma CollectThose(g: GcDb, cutoff: int, left: GcDb, reclaimed: set<Hash>)
    requires left == DropDrvs(g, Candidates(g, cutoff)) && reclaimed == Reclaimed(g, cutoff)
    ensures Collect(g, cutoff) == left.(db := Purge(left.db, reclaimed))
  {
  }
}
