/** Dispatch between two passes: which steps leave the anchor flags trustworthy below an
    anchor, and exactly when a step that withdraws artifacts does. */
module BetweenPasses {
  import opened Walks
  import opened FlagFixpoint
  import opened Tables
  import opened Wrappers
  import opened Gates
  import opened Promotion
  import opened CacheStorage
  import opened Reconcile
  import opened Dispatch
  import UpRipple = Ripple

  // ----- withdrawing closure flags -----

  /** `w` is `db` after the anchors `lost` lost their closure flag and `plain` their upstream. */
  ghost predicate Withdrawn(db: Db, w: Db, lost: set<DrvId>, plain: set<DrvId>) {
    && w.edges == db.edges && w.outputs == db.outputs && w.anchors.Keys == db.anchors.Keys
    && ClosureFlags(w) == ClosureFlags(db) - lost
    && (forall n :: n in db.anchors ==>
          w.anchors[n].substitutable == (db.anchors[n].substitutable && n !in plain))
    && (forall n :: n in db.anchors && n !in lost ==> w.anchors[n].status == db.anchors[n].status)
  }

  /** Every dependency `n` was trusted for is still flagged or still upstream. */
  ghost predicate DepsKept(db: Db, n: DrvId, lost: set<DrvId>, plain: set<DrvId>) {
    forall m :: Row(n, m) in db.edges && m in db.anchors ==>
      (m in ClosureFlags(db) && m !in lost) || (db.anchors[m].substitutable && m !in plain)
  }

  lemma WithdrawnIff(db: Db, w: Db, lost: set<DrvId>, plain: set<DrvId>, region: set<DrvId>)
    requires Withdrawn(db, w, lost, plain)
    requires SoundOn(ClosureSystem(db), region, ClosureFlags(db))
    ensures SoundOn(ClosureSystem(w), region, ClosureFlags(w))
            <==> forall n :: n in ClosureFlags(db) - lost && n in region ==>
                   ClosureLocal(w, n) && (db.anchors[n].status == Completed ==> DepsKept(db, n, lost, plain))
  {
    forall n | n in ClosureFlags(db) - lost && n in region
      ensures Holds(ClosureSystem(w), ClosureFlags(w), n)
              <==> ClosureLocal(w, n) && (db.anchors[n].status == Completed ==> DepsKept(db, n, lost, plain))
    {
      WithdrawnRow(db, w, lost, plain, n);
    }
  }

  lemma WithdrawnRow(db: Db, w: Db, lost: set<DrvId>, plain: set<DrvId>, n: DrvId)
    requires Withdrawn(db, w, lost, plain) && n in ClosureFlags(db) - lost
    requires Holds(ClosureSystem(db), ClosureFlags(db), n)
    ensures Holds(ClosureSystem(w), ClosureFlags(w), n)
            <==> ClosureLocal(w, n) && (db.anchors[n].status == Completed ==> DepsKept(db, n, lost, plain))
  {
    ClosureGateIsSystem(db, n);
    ClosureGateIsSystem(w, n);
    if db.anchors[n].status == Completed {
      if ClosureGate(w, n) {
        forall m | Row(n, m) in db.edges && m in db.anchors
          ensures (m in ClosureFlags(db) && m !in lost) || (db.anchors[m].substitutable && m !in plain)
        {
          var r := Row(n, m);
          assert r in w.edges && (m in ClosureFlags(w) || w.anchors[m].substitutable);
        }
      }
      if ClosureLocal(w, n) && DepsKept(db, n, lost, plain) {
        forall r | r in w.edges && r.src == n
          ensures r.dst in w.anchors && (w.anchors[r.dst].closureComplete || w.anchors[r.dst].substitutable)
        {
          assert Row(n, r.dst) in db.edges && r.dst in db.anchors;
          assert r.dst in ClosureFlags(w) || w.anchors[r.dst].substitutable;
        }
      }
    }
  }

  // ----- withdrawing .drv flags -----

  /** `w` is `db` after the anchors `lost` lost their `.drv` flag, with the own `.drv`s of
      `gone` deleted. */
  ghost predicate DrvWithdrawn(db: Db, w: Db, lost: set<DrvId>, gone: set<Hash>) {
    && w.edges == db.edges && w.drvHash == db.drvHash && w.anchors.Keys == db.anchors.Keys
    && DrvFlags(w) == DrvFlags(db) - lost
    && (forall n :: n in db.anchors ==> w.anchors[n].edgesComplete == db.anchors[n].edgesComplete)
    && (forall h :: Backed(w, h) <==> Backed(db, h) && h !in gone)
  }

  lemma DrvWithdrawnIff(db: Db, w: Db, lost: set<DrvId>, gone: set<Hash>, region: set<DrvId>)
    requires DrvWithdrawn(db, w, lost, gone) && SoundOn(DrvSystem(db), region, DrvFlags(db))
    ensures SoundOn(DrvSystem(w), region, DrvFlags(w))
            <==> forall n :: n in DrvFlags(db) - lost && n in region ==>
                   db.drvHash[n] !in gone && forall m :: Row(n, m) in db.edges ==> m !in lost
  {
    forall n | n in DrvFlags(db) - lost && n in region
      ensures Holds(DrvSystem(w), DrvFlags(w), n)
              <==> db.drvHash[n] !in gone && forall m :: Row(n, m) in db.edges ==> m !in lost
    {
      assert Holds(DrvSystem(db), DrvFlags(db), n);
      if Holds(DrvSystem(w), DrvFlags(w), n) {
        forall m | Row(n, m) in db.edges ensures m !in lost { assert Row(n, m) in DrvSystem(w).needs; }
      }
    }
  }

  // ----- deletion -----

  /** What a deletion must not find below `d` for the flags there to stay trustworthy: a
      trusted build on a producer of a deleted hash, a trusted substitute one of whose outputs
      loses its closure, or a trusted `.drv` on one that is deleted. */
  ghost predicate DeleteHarmless(db: Db, hs: set<Hash>, d: DrvId) {
    && (forall n :: n in ClosureFlags(db) - ProducersOf(db, hs) && n in Reach(db.edges, {d}) ==>
          && (db.anchors[n].status == Completed ==> DepsKept(db, n, ProducersOf(db, hs), {}))
          && (db.anchors[n].status == Substituted ==> OutputsStayClosed(db, hs, n)))
    && (forall n :: n in DrvFlags(db) - OwnDrvIn(db, hs) && n in Reach(db.edges, {d}) ==>
          forall m :: Row(n, m) in db.edges ==> m !in OwnDrvIn(db, hs))
  }

  function OwnDrvIn(db: Db, hs: set<Hash>): set<DrvId> { set n | n in db.drvHash && db.drvHash[n] in hs }

  lemma DeleteKeepsFlagsIff(db: Db, hs: set<Hash>, d: DrvId)
    requires FlagsSoundBelow(db, d)
    ensures FlagsSoundBelow(Next(db, Delete(hs)), d) <==> DeleteHarmless(db, hs, d)
  {
    var w := ClearGateFlags(DeletePaths(db, hs), hs);
    DeleteRows(db, hs, w);
    DeleteDrvRows(db, hs, w);
    DeleteClosureIff(db, hs, w, Reach(db.edges, {d}));
    DeleteDrvIff(db, hs, w, Reach(db.edges, {d}));
  }

  ghost predicate OutputsStayClosed(db: Db, hs: set<Hash>, n: DrvId) {
    forall o :: o in db.outputs && o.derivation == n ==> o.hash !in Dirty(DeletePaths(db, hs), hs)
  }

  lemma DeleteClosureIff(db: Db, hs: set<Hash>, w: Db, below: set<DrvId>)
    requires w == ClearGateFlags(DeletePaths(db, hs), hs) && Withdrawn(db, w, ProducersOf(db, hs), {})
    requires SoundOn(ClosureSystem(db), below, ClosureFlags(db))
    ensures SoundOn(ClosureSystem(w), below, ClosureFlags(w))
            <==> forall n :: n in ClosureFlags(db) - ProducersOf(db, hs) && n in below ==>
                   && (db.anchors[n].status == Completed ==> DepsKept(db, n, ProducersOf(db, hs), {}))
                   && (db.anchors[n].status == Substituted ==> OutputsStayClosed(db, hs, n))
  {
    WithdrawnIff(db, w, ProducersOf(db, hs), {}, below);
    forall n | n in ClosureFlags(db) - ProducersOf(db, hs) && n in below
      ensures ClosureLocal(w, n) <==> (db.anchors[n].status == Substituted ==> OutputsStayClosed(db, hs, n))
    {
      assert Holds(ClosureSystem(db), ClosureFlags(db), n);
      DeleteLocal(db, hs, w, n);
    }
  }

  lemma DeleteDrvIff(db: Db, hs: set<Hash>, w: Db, below: set<DrvId>)
    requires DrvWithdrawn(db, w, OwnDrvIn(db, hs), hs) && SoundOn(DrvSystem(db), below, DrvFlags(db))
    ensures SoundOn(DrvSystem(w), below, DrvFlags(w))
            <==> forall n :: n in DrvFlags(db) - OwnDrvIn(db, hs) && n in below ==>
                   forall m :: Row(n, m) in db.edges ==> m !in OwnDrvIn(db, hs)
  {
    DrvWithdrawnIff(db, w, OwnDrvIn(db, hs), hs, below);
    forall n | n in DrvFlags(db) - OwnDrvIn(db, hs) && n in below ensures db.drvHash[n] !in hs {
      assert Holds(DrvSystem(db), DrvFlags(db), n);
    }
  }

  lemma DeleteRows(db: Db, hs: set<Hash>, w: Db)
    requires w == ClearGateFlags(DeletePaths(db, hs), hs)
    ensures Withdrawn(db, w, ProducersOf(db, hs), {})
  {
    ClearGateFlagsRows(DeletePaths(db, hs), hs);
    assert ProducersOf(DeletePaths(db, hs), hs) == ProducersOf(db, hs);
  }

  lemma DeleteDrvRows(db: Db, hs: set<Hash>, w: Db)
    requires w == ClearGateFlags(DeletePaths(db, hs), hs)
    ensures DrvWithdrawn(db, w, OwnDrvIn(db, hs), hs)
  {
    ClearGateFlagsRows(DeletePaths(db, hs), hs);
    ClearGateFlagsPaths(DeletePaths(db, hs), hs);
  }

  lemma DeleteLocal(db: Db, hs: set<Hash>, w: Db, n: DrvId)
    requires w == ClearGateFlags(DeletePaths(db, hs), hs)
    requires n in db.anchors && ClosureLocal(db, n) && n !in ProducersOf(db, hs)
    ensures n in w.anchors
    ensures ClosureLocal(w, n) <==> (db.anchors[n].status == Substituted ==> OutputsStayClosed(db, hs, n))
  {
    var del := DeletePaths(db, hs);
    ClearGateFlagsRows(del, hs);
    ClearGateFlagsPaths(del, hs);
    forall o | o in db.outputs && o.derivation == n
      ensures Backed(w, o.hash) <==> Backed(db, o.hash)
      ensures Backed(db, o.hash) && db.paths[o.hash].closureComplete ==>
                (w.paths[o.hash].closureComplete <==> o.hash !in Dirty(del, hs))
    {
      assert o.hash !in hs;
    }
  }

  // ----- demotion -----

  /** The producers a demotion resets. */
  function Reset(db: Db, h: Hash): set<DrvId> {
    set n | n in ProducersOf(db, {h}) && n in db.anchors && db.anchors[n].status.TerminalSuccess()
  }

  /** The anchors a demotion takes the closure flag from: those, and the producers of every
      path whose flag the upward clear takes. */
  function Untrusted(db: Db, h: Hash): set<DrvId> {
    Reset(db, h) + ProducersOf(db, ReferrersCleared(DemoteOutput(db, h, false), h))
  }

  /** What a demotion must not find below `d`: a trusted build on an anchor it takes the flag
      or the upstream from, or a trusted `.drv` that it deletes. */
  ghost predicate DemoteHarmless(db: Db, h: Hash, d: DrvId) {
    && (forall n :: n in ClosureFlags(db) - Untrusted(db, h) && n in Reach(db.edges, {d}) ==>
          BuildKept(db, h, n))
    && (forall n :: n in DrvFlags(db) && n in Reach(db.edges, {d}) && n in db.drvHash ==> db.drvHash[n] != h)
  }

  ghost predicate BuildKept(db: Db, h: Hash, n: DrvId) {
    n in db.anchors && db.anchors[n].status == Completed ==> DepsKept(db, n, Untrusted(db, h), Reset(db, h))
  }

  lemma DemoteKeepsFlagsIff(db: Db, h: Hash, d: DrvId)
    requires FlagsSoundBelow(db, d)
    ensures FlagsSoundBelow(Next(db, Demote(h)), d) <==> DemoteHarmless(db, h, d)
  {
    var w := DemoteOne(db, h);
    DemoteRows(db, h, w);
    DemoteDrvRows(db, h, w);
    DemoteClosureIff(db, h, w, Reach(db.edges, {d}));
    DemoteDrvIff(db, h, w, Reach(db.edges, {d}));
  }

  lemma DemoteRows(db: Db, h: Hash, w: Db)
    requires w == DemoteOne(db, h)
    ensures Withdrawn(db, w, Untrusted(db, h), Reset(db, h))
  {
    var del := DemoteOutput(db, h, false);
    assert ProducersOf(del, ReferrersCleared(del, h)) == ProducersOf(db, ReferrersCleared(del, h));
  }

  lemma DemoteDrvRows(db: Db, h: Hash, w: Db)
    requires w == DemoteOne(db, h)
    ensures DrvWithdrawn(db, w, {}, {h})
  {
    DemoteOneFacts(db, h);
    DemoteKeepsDrvColumns(db, h, w);
    assert DrvFlags(w) == DrvFlags(db) - {};
  }

  lemma DemoteKeepsDrvColumns(db: Db, h: Hash, w: Db)
    requires w == DemoteOne(db, h)
    ensures w.anchors.Keys == db.anchors.Keys
    ensures forall n :: n in db.anchors ==>
              w.anchors[n].drvClosureCached == db.anchors[n].drvClosureCached
              && w.anchors[n].edgesComplete == db.anchors[n].edgesComplete
  {
  }

  lemma DemoteClosureIff(db: Db, h: Hash, w: Db, below: set<DrvId>)
    requires w == DemoteOne(db, h) && Withdrawn(db, w, Untrusted(db, h), Reset(db, h))
    requires SoundOn(ClosureSystem(db), below, ClosureFlags(db))
    ensures SoundOn(ClosureSystem(w), below, ClosureFlags(w))
            <==> forall n :: n in ClosureFlags(db) - Untrusted(db, h) && n in below ==> BuildKept(db, h, n)
  {
    WithdrawnIff(db, w, Untrusted(db, h), Reset(db, h), below);
    forall n | n in ClosureFlags(db) - Untrusted(db, h) && n in below ensures ClosureLocal(w, n) {
      assert Holds(ClosureSystem(db), ClosureFlags(db), n);
      DemoteLocal(db, h, w, n);
    }
  }

  /** An anchor that keeps its flag produces neither the purged path nor a cleared one. */
  lemma DemoteLocal(db: Db, h: Hash, w: Db, n: DrvId)
    requires w == DemoteOne(db, h) && n in db.anchors && ClosureLocal(db, n) && n !in Untrusted(db, h)
    ensures n in w.anchors && ClosureLocal(w, n)
  {
    var del := DemoteOutput(db, h, false);
    var cleared := ReferrersCleared(del, h);
    forall o | o in db.outputs && o.derivation == n ensures o.hash != h && o.hash !in cleared {
      assert o.hash == h ==> n in ProducersOf(db, {h});
      assert o.hash in cleared ==> n in ProducersOf(db, cleared);
    }
    DemotedPaths(db, h, w);
  }

  lemma DemotedPaths(db: Db, h: Hash, w: Db)
    requires w == DemoteOne(db, h)
    ensures w.outputs == db.outputs && w.anchors.Keys == db.anchors.Keys
    ensures forall x :: x != h ==> (Backed(w, x) <==> Backed(db, x))
    ensures forall x :: x in db.paths && x != h && x !in ReferrersCleared(DemoteOutput(db, h, false), h) ==>
              x in w.paths && w.paths[x].closureComplete == db.paths[x].closureComplete
    ensures forall n :: n in db.anchors && n !in Untrusted(db, h) ==>
              w.anchors[n].status == db.anchors[n].status && w.anchors[n].edgesComplete == db.anchors[n].edgesComplete
  {
  }

  lemma DemoteDrvIff(db: Db, h: Hash, w: Db, below: set<DrvId>)
    requires DrvWithdrawn(db, w, {}, {h}) && SoundOn(DrvSystem(db), below, DrvFlags(db))
    ensures SoundOn(DrvSystem(w), below, DrvFlags(w))
            <==> forall n :: n in DrvFlags(db) && n in below && n in db.drvHash ==> db.drvHash[n] != h
  {
    DrvWithdrawnIff(db, w, {}, {h}, below);
    forall n | n in DrvFlags(db) && n in below ensures n in db.drvHash {
      assert Holds(DrvSystem(db), DrvFlags(db), n);
    }
    assert DrvFlags(db) - {} == DrvFlags(db);
  }

  // ----- the two halves of a demotion on their own -----

  /** What a lone clear must not find below `d`. */
  ghost predicate ClearHarmless(db: Db, h: Hash, d: DrvId) {
    var lost := ProducersOf(db, ReferrersCleared(db, h));
    forall n :: n in ClosureFlags(db) - lost && n in Reach(db.edges, {d}) && db.anchors[n].status == Completed ==>
      DepsKept(db, n, lost, {})
  }

  lemma ClearKeepsFlagsIff(db: Db, h: Hash, d: DrvId)
    requires FlagsSoundBelow(db, d)
    ensures FlagsSoundBelow(Next(db, LostPath(h)), d) <==> ClearHarmless(db, h, d)
  {
    var w, below := ClearReferrers(db, h), Reach(db.edges, {d});
    var lost := ProducersOf(db, ReferrersCleared(db, h));
    ClearRows(db, h, w);
    WithdrawnIff(db, w, lost, {}, below);
    forall n | n in ClosureFlags(db) - lost && n in below ensures ClosureLocal(w, n) {
      assert Holds(ClosureSystem(db), ClosureFlags(db), n);
      ClearLocal(db, h, w, n);
    }
    DrvWithdrawnIff(db, w, {}, {}, below);
    assert SoundOn(DrvSystem(w), below, DrvFlags(w));
  }

  lemma ClearRows(db: Db, h: Hash, w: Db)
    requires w == ClearReferrers(db, h)
    ensures Withdrawn(db, w, ProducersOf(db, ReferrersCleared(db, h)), {}) && DrvWithdrawn(db, w, {}, {})
  {
    assert DrvFlags(w) == DrvFlags(db) - {};
  }

  lemma ClearLocal(db: Db, h: Hash, w: Db, n: DrvId)
    requires w == ClearReferrers(db, h) && n in db.anchors && ClosureLocal(db, n)
    requires n !in ProducersOf(db, ReferrersCleared(db, h))
    ensures n in w.anchors && ClosureLocal(w, n)
  {
    forall o | o in db.outputs && o.derivation == n ensures o.hash !in ReferrersCleared(db, h) {
      assert o.hash in ReferrersCleared(db, h) ==> n in ProducersOf(db, ReferrersCleared(db, h));
    }
  }

  /** What a bare demotion must not find below `d`, unless it keeps the artifact. */
  ghost predicate BareDemoteHarmless(db: Db, h: Hash, present: bool, d: DrvId) {
    || PreserveMissing(ProducersOf(db, {h}) != {}, present)
    || (&& (forall n :: n in ClosureFlags(db) - Reset(db, h) && n in Reach(db.edges, {d})
                        && db.anchors[n].status == Completed ==>
              DepsKept(db, n, Reset(db, h), Reset(db, h)))
        && (forall n :: n in DrvFlags(db) && n in Reach(db.edges, {d}) && n in db.drvHash ==> db.drvHash[n] != h))
  }

  lemma BareDemoteKeepsFlagsIff(db: Db, h: Hash, present: bool, d: DrvId)
    requires FlagsSoundBelow(db, d)
    ensures FlagsSoundBelow(Next(db, BareDemote(h, present)), d) <==> BareDemoteHarmless(db, h, present, d)
  {
    var w, below := DemoteOutput(db, h, present), Reach(db.edges, {d});
    if PreserveMissing(ProducersOf(db, {h}) != {}, present) {
      assert ClosureSystem(w) == ClosureSystem(db) && DrvSystem(w) == DrvSystem(db);
    } else {
      BareDemoteRows(db, h, present, w);
      WithdrawnIff(db, w, Reset(db, h), Reset(db, h), below);
      forall n | n in ClosureFlags(db) - Reset(db, h) && n in below ensures ClosureLocal(w, n) {
        assert Holds(ClosureSystem(db), ClosureFlags(db), n);
        BareDemoteLocal(db, h, present, w, n);
      }
      DemoteDrvIff(db, h, w, below);
    }
  }

  lemma BareDemoteRows(db: Db, h: Hash, present: bool, w: Db)
    requires w == DemoteOutput(db, h, present) && !PreserveMissing(ProducersOf(db, {h}) != {}, present)
    ensures Withdrawn(db, w, Reset(db, h), Reset(db, h)) && DrvWithdrawn(db, w, {}, {h})
  {
    assert DrvFlags(w) == DrvFlags(db) - {};
  }

  lemma BareDemoteLocal(db: Db, h: Hash, present: bool, w: Db, n: DrvId)
    requires w == DemoteOutput(db, h, present) && !PreserveMissing(ProducersOf(db, {h}) != {}, present)
    requires n in db.anchors && ClosureLocal(db, n) && n !in Reset(db, h)
    ensures n in w.anchors && ClosureLocal(w, n)
  {
    forall o | o in db.outputs && o.derivation == n ensures o.hash != h {
      assert o.hash == h ==> n in ProducersOf(db, {h});
    }
  }

  // ----- steps that withdraw nothing -----

  /** Recording a path adds to what is backed and takes no flag. */
  lemma IngestKeepsFlags(db: Db, h: Hash, references: set<Hash>, d: DrvId)
    requires FlagsSoundBelow(db, d)
    ensures FlagsSoundBelow(Next(db, Ingest(h, references)), d)
  {
    var w := IngestPath(db, h, references);
    var below := Reach(db.edges, {d});
    assert Withdrawn(db, w, {}, {});
    forall n | n in ClosureFlags(db) && n in below
      ensures ClosureLocal(w, n) && (db.anchors[n].status == Completed ==> DepsKept(db, n, {}, {}))
    {
      assert Holds(ClosureSystem(db), ClosureFlags(db), n);
      ClosureGateIsSystem(db, n);
    }
    WithdrawnIff(db, w, {}, {}, below);
    assert DrvFlags(w) == DrvFlags(db);
  }

  /** A tick only promotes. */
  lemma TickKeepsFlags(db: Db, order: seq<Hash>, d: DrvId)
    requires FlagsSoundBelow(db, d)
    ensures FlagsSoundBelow(Next(db, Pass(Tick, order)), d)
  {
    PromoteSettles(db);
  }

  /** A status write on anchors that have not succeeded, to any status: below `d` a flagged row
      has succeeded, so that its gate reads nothing the write changes. */
  lemma MoveKeepsFlags(db: Db, ds: set<DrvId>, s: BuildStatus, d: DrvId)
    requires FlagsSoundBelow(db, d) && Enabled(db, Moved(ds, s))
    ensures FlagsSoundBelow(Next(db, Moved(ds, s)), d)
  {
    var w := SetStatus(db, ds, s);
    assert ClosureFlags(w) == ClosureFlags(db) && DrvFlags(w) == DrvFlags(db);
    assert DrvSystem(w) == DrvSystem(db);
    forall n | n in ClosureFlags(db) && n in Reach(db.edges, {d})
      ensures Holds(ClosureSystem(w), ClosureFlags(db), n)
    {
      assert Holds(ClosureSystem(db), ClosureFlags(db), n);
      assert w.anchors[n] == db.anchors[n];
    }
  }

  /** The ripple marks only rows whose gate holds. */
  lemma {:induction false} RippleKeepsSoundOn<N>(
      sys: System<N>, edges: set<Row<N>>, flags: set<N>, frontier: set<N>, region: set<N>)
    requires SoundOn(sys, region, flags)
    ensures SoundOn(sys, region, FlagFixpoint.Ripple(sys, edges, flags, frontier))
    decreases |sys.local - flags|
  {
    var newly := Newly(sys, flags, frontier);
    if newly != {} {
      forall n | n in flags + newly && n in region ensures Holds(sys, flags + newly, n) {
        HoldsMonotone(sys, flags, flags + newly, n);
      }
      assert sys.local - (flags + newly) == (sys.local - flags) - newly;
      RemoveShrinks(sys.local - flags, newly);
      RippleKeepsSoundOn(sys, edges, flags + newly, Step(Flip(edges), newly), region);
    }
  }

  lemma RippledKeepsFlags(db: Db, c: DrvId, d: DrvId)
    requires FlagsSoundBelow(db, d)
    ensures FlagsSoundBelow(Next(db, Rippled(c)), d)
  {
    var sys, flags, frontier := ClosureSystem(db), ClosureFlags(db), UpRipple.FirstFrontier(db, c);
    var after := FlagFixpoint.Ripple(sys, db.edges, flags, frontier);
    RippleKeepsSoundOn(sys, db.edges, flags, frontier, Reach(db.edges, {d}));
    RippleGrows(sys, db.edges, flags, frontier);
    ClosureFlagLens(db, after, after);
    assert after * db.anchors.Keys == after;
    WithClosureKeeps(db, after);
  }

  /** A write to tables no gate reads. */
  ghost predicate GatesUntouched(db: Db, w: Db) {
    && w.anchors == db.anchors && w.edges == db.edges && w.outputs == db.outputs
    && w.drvHash == db.drvHash && w.paths == db.paths
  }

  lemma UntouchedKeepsFlags(db: Db, w: Db, d: DrvId)
    requires FlagsSoundBelow(db, d) && GatesUntouched(db, w)
    ensures FlagsSoundBelow(w, d)
  {
    assert ClosureSystem(w) == ClosureSystem(db) && DrvSystem(w) == DrvSystem(db);
  }

  // ----- dispatch at any point of a run -----

  /** A step known to leave the flags below `d` trustworthy. */
  ghost predicate KeepsTrust(db: Db, a: Action, d: DrvId) {
    match a
    case Ingest(_, _) => true
    case Pass(scope, _) =>
      scope.Tick? || (scope.Evaluation().Some? ==> d in EvalClosure(db, scope.Evaluation().value))
    case Delete(hs) => DeleteHarmless(db, hs, d)
    case Demote(h) => DemoteHarmless(db, h, d)
    case BareDemote(h, present) => BareDemoteHarmless(db, h, present, d)
    case LostPath(h) => ClearHarmless(db, h, d)
    case Moved(_, _) => true
    case Rippled(_) => true
    case Elsewhere(next) => GatesUntouched(db, next)
  }

  lemma NextKeepsFlags(db: Db, a: Action, d: DrvId)
    requires FlagsSoundBelow(db, d) && Enabled(db, a) && KeepsTrust(db, a, d)
    ensures FlagsSoundBelow(Next(db, a), d)
  {
    match a
    case Ingest(h, references) => IngestKeepsFlags(db, h, references, d);
    case Pass(scope, order) =>
      if scope.Tick? { TickKeepsFlags(db, order, d); } else { PassFlagsSound(db, scope, order, d); }
    case Delete(hs) => DeleteKeepsFlagsIff(db, hs, d);
    case Demote(h) => DemoteKeepsFlagsIff(db, h, d);
    case BareDemote(h, present) => BareDemoteKeepsFlagsIff(db, h, present, d);
    case LostPath(h) => ClearKeepsFlagsIff(db, h, d);
    case Moved(ds, s) => MoveKeepsFlags(db, ds, s, d);
    case Rippled(c) => RippledKeepsFlags(db, c, d);
    case Elsewhere(next) => UntouchedKeepsFlags(db, next, d);
  }

  lemma {:induction false} RunKeepsFlags(states: seq<Db>, actions: seq<Action>, i: nat, k: nat, d: DrvId)
    requires IsRun(states, actions) && i <= k < |states| && FlagsSoundBelow(states[i], d)
    requires forall j :: i <= j < k ==> KeepsTrust(states[j], actions[j], d)
    ensures FlagsSoundBelow(states[k], d)
  {
    if i < k {
      RunKeepsFlags(states, actions, i, k - 1, d);
      NextKeepsFlags(states[k - 1], actions[k - 1], d);
    }
  }

  /** At any point of a mended run, ticks included: a build the dispatch query returns has its
      inputs, if since a pass over its closure every step kept the trust below it. */
  lemma RunDispatchSafeBetween(
      states: seq<Db>, actions: seq<Action>, start: set<Hash>, i: nat, k: nat, d: DrvId)
    requires IsRun(states, actions) && i < k < |states| && Mended(states, actions, start, k)
    requires actions[i].Pass? && actions[i].scope.RunsAnchorFixpoints()
    requires actions[i].scope.Evaluation().Some?
             ==> d in EvalClosure(states[i], actions[i].scope.Evaluation().value)
    requires forall j :: i < j < k ==> KeepsTrust(states[j], actions[j], d)
    requires d in FindReadyAnchors(states[k]) && !states[k].anchors[d].substitutable
    ensures DispatchSafe(states[k], d)
  {
    MendedIsSound(states, actions, start, k);
    FlagsAfterPass(states[i], actions[i], states[i + 1], d);
    RunKeepsFlags(states, actions, i + 1, k, d);
    DispatchSound(states[k], d);
  }

  lemma FlagsAfterPass(db: Db, a: Action, w: Db, d: DrvId)
    requires a.Pass? && a.scope.RunsAnchorFixpoints() && w == Next(db, a)
    requires a.scope.Evaluation().Some? ==> d in EvalClosure(db, a.scope.Evaluation().value)
    ensures FlagsSoundBelow(w, d)
  {
    PassFlagsSound(db, a.scope, a.order, d);
  }
}
