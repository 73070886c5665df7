/** The reactive up-ripple after a completion, against the global SET pass. */
module Ripple {
  import opened Walks
  import opened FlagFixpoint
  import opened Tables
  import opened Gates

  /** The first candidates: the finished anchor and its direct dependents. */
  function FirstFrontier(db: Db, c: DrvId): set<DrvId> { Step(Flip(db.edges), {c}) + {c} }

  function Propagate(db: Db, c: DrvId): Db {
    WithClosure(db, FlagFixpoint.Ripple(ClosureSystem(db), db.edges, ClosureFlags(db), FirstFrontier(db, c)))
  }

  /** The SET half of the global fixpoint. */
  function SetPass(db: Db): Db {
    WithClosure(db, SetFix(ClosureSystem(db), db.anchors.Keys, ClosureFlags(db)))
  }

  /** Nothing the closure gate reads changed except about anchor `c` itself: its row apart
      from the flag, and the cached paths only it produces. */
  ghost predicate OnlyAnchorChanged(before: Db, after: Db, c: DrvId) {
    && after.edges == before.edges && after.outputs == before.outputs
    && after.anchors.Keys == before.anchors.Keys
    && ClosureFlags(after) == ClosureFlags(before)
    && (forall d :: d in before.anchors && d != c ==> after.anchors[d] == before.anchors[d])
    && (forall o :: o in before.outputs && o.derivation != c ==>
          (o.hash in after.paths <==> o.hash in before.paths)
          && (o.hash in before.paths ==> after.paths[o.hash] == before.paths[o.hash]))
  }

  ghost predicate NothingUnmarked(db: Db) {
    forall d :: d in db.anchors && ClosureGate(db, d) ==> db.anchors[d].closureComplete
  }

  lemma NothingUnmarkedIs(db: Db)
    ensures NothingUnmarked(db) <==> Fresh(ClosureSystem(db), db.anchors.Keys, ClosureFlags(db)) == {}
  {
    var due := Fresh(ClosureSystem(db), db.anchors.Keys, ClosureFlags(db));
    forall d | d in db.anchors
      ensures d in due <==> ClosureGate(db, d) && !db.anchors[d].closureComplete
    {
      ClosureGateIsSystem(db, d);
    }
  }

  /** An anchor that is neither `c` nor a dependent of `c` has the gate it had. */
  lemma GateAwayFrom(before: Db, after: Db, c: DrvId, d: DrvId)
    requires OnlyAnchorChanged(before, after, c)
    requires d in after.anchors && d !in FirstFrontier(after, c) && ClosureGate(after, d)
    ensures ClosureGate(before, d)
  {
    assert d != c;
    forall o | o in before.outputs && o.derivation == d
      ensures Backed(after, o.hash) ==> Backed(before, o.hash)
    {
    }
    forall r | r in before.edges && r.src == d ensures r.dst != c {
      FlipRow(after.edges, r.dst, d);
      var up := Row(r.dst, d);
      assert up in Flip(after.edges);
      assert up.src in {c} ==> up.dst in Step(Flip(after.edges), {c});
    }
  }

  /** If nothing satisfied was unmarked before the event, and only the finished anchor's
      own facts changed, the ripple leaves nothing satisfied unmarked and does exactly
      what a full SET pass would. */
  lemma PropagateIsSetPass(before: Db, after: Db, c: DrvId)
    requires NothingUnmarked(before) && OnlyAnchorChanged(before, after, c)
    ensures Propagate(after, c) == SetPass(after)
    ensures NothingUnmarked(Propagate(after, c))
  {
    var sys := ClosureSystem(after);
    var flags := ClosureFlags(after);
    forall d | d in after.anchors && d !in FirstFrontier(after, c) && Holds(sys, flags, d)
      ensures d in flags
    {
      ClosureGateIsSystem(after, d);
      GateAwayFrom(before, after, c, d);
      assert d in ClosureFlags(before);
    }
    RippleIsSetFix(sys, after.anchors.Keys, after.edges, flags, FirstFrontier(after, c));
    SetPassMarksAll(after);
  }

  lemma SetPassMarksAll(db: Db)
    ensures NothingUnmarked(SetPass(db))
  {
    var sys := ClosureSystem(db);
    var f := SetFix(sys, db.anchors.Keys, ClosureFlags(db));
    SetFixFacts(sys, db.anchors.Keys, ClosureFlags(db));
    ClosureFlagLens(db, f, f);
    assert f * db.anchors.Keys == f;
    assert ClosureSystem(SetPass(db)) == sys;
    NothingUnmarkedIs(SetPass(db));
  }

  // ----- exactly when the ripple is enough -----

  lemma SameClosureFlags(db: Db, f: set<DrvId>, g: set<DrvId>)
    requires f <= db.anchors.Keys && g <= db.anchors.Keys
    ensures WithClosure(db, f) == WithClosure(db, g) <==> f == g
  {
    ClosureFlagLens(db, f, f);
    ClosureFlagLens(db, g, g);
    assert f * db.anchors.Keys == f && g * db.anchors.Keys == g;
  }

  lemma InFrontier(db: Db, c: DrvId, d: DrvId)
    ensures d in FirstFrontier(db, c) <==> d == c || Row(d, c) in db.edges
  {
    if Row(d, c) in db.edges { UpStep(db.edges, d, c, {c}); }
    if d in Step(Flip(db.edges), {c}) { var m := UpStepEdge(db.edges, d, {c}); }
  }

  /** Satisfied and not marked. */
  ghost predicate Due(db: Db, d: DrvId) {
    d in db.anchors && ClosureGate(db, d) && !db.anchors[d].closureComplete
  }

  lemma DueIsFresh(db: Db, d: DrvId)
    ensures Due(db, d) <==> d in Fresh(ClosureSystem(db), db.anchors.Keys, ClosureFlags(db))
  {
    if d in db.anchors { ClosureGateIsSystem(db, d); }
  }

  lemma FlagsAreAnchors(db: Db, c: DrvId)
    ensures FlagFixpoint.Ripple(ClosureSystem(db), db.edges, ClosureFlags(db), FirstFrontier(db, c)) <= db.anchors.Keys
    ensures SetFix(ClosureSystem(db), db.anchors.Keys, ClosureFlags(db)) <= db.anchors.Keys
  {
    RippleGrows(ClosureSystem(db), db.edges, ClosureFlags(db), FirstFrontier(db, c));
    SetFixFacts(ClosureSystem(db), db.anchors.Keys, ClosureFlags(db));
  }

  /** On any graph, when the due anchors away from the finished one have all their
      dependencies marked: the ripple is the full pass exactly when there are none such. */
  lemma PropagateIsSetPassIff(db: Db, c: DrvId)
    requires forall r :: r in db.edges && Due(db, r.src) && r.src != c && Row(r.src, c) !in db.edges ==>
               r.dst in ClosureFlags(db)
    ensures Propagate(db, c) == SetPass(db)
            <==> forall d :: Due(db, d) ==> d == c || Row(d, c) in db.edges
  {
    var sys, nodes, flags, first := ClosureSystem(db), db.anchors.Keys, ClosureFlags(db), FirstFrontier(db, c);
    forall d ensures Due(db, d) <==> d in Fresh(sys, nodes, flags) { DueIsFresh(db, d); }
    forall d ensures d in first <==> d == c || Row(d, c) in db.edges { InFrontier(db, c, d); }
    FlagsAreAnchors(db, c);
    SameClosureFlags(db, FlagFixpoint.Ripple(sys, db.edges, flags, first), SetFix(sys, nodes, flags));
    RippleIsSetFixIff(sys, nodes, db.edges, flags, first);
  }

  /** On an acyclic graph, with no other condition: exactly when each due anchor is the
      finished one, depends on it directly, or depends directly on an anchor the full pass
      marks. */
  lemma PropagateIsSetPassRankedIff(db: Db, c: DrvId, rank: DrvId -> nat)
    requires Ranked(db.edges, rank)
    ensures Propagate(db, c) == SetPass(db)
            <==> forall d :: Due(db, d) && d != c && Row(d, c) !in db.edges ==>
                   exists m :: Row(d, m) in db.edges && m in ClosureFlags(SetPass(db)) - ClosureFlags(db)
  {
    var sys, nodes, flags, first := ClosureSystem(db), db.anchors.Keys, ClosureFlags(db), FirstFrontier(db, c);
    var top := SetFix(sys, nodes, flags);
    FlagsAreAnchors(db, c);
    ClosureFlagLens(db, top, top);
    assert top * nodes == top;
    SameClosureFlags(db, FlagFixpoint.Ripple(sys, db.edges, flags, first), top);
    RippleIsSetFixRankedIff(sys, nodes, db.edges, rank, flags, first);
    forall d ensures d in Fresh(sys, nodes, flags) - first <==> Due(db, d) && d != c && Row(d, c) !in db.edges {
      DueIsFresh(db, d);
      InFrontier(db, c, d);
    }
  }

  // ----- why the hypothesis is there -----

  const BUILT := DrvId(1)
  const TWIN := DrvId(2)

  /** Two completed anchors share one output hash, as fixed-output derivations do. */
  function TwinExample(backed: bool): Db {
    var a := Anchor(Completed, false, false, true, false, false, false, 0);
    Db(map[], map[BUILT := a, TWIN := a], {},
       {Output(BUILT, "out", Hash("s")), Output(TWIN, "out", Hash("s"))}, {}, {},
       map[Hash("s") := CachedPath(backed, false)], {}, {}, {})
  }

  /** When the path recorded for a completion also backs another anchor's output, the
      ripple does not look at that anchor and leaves it satisfied but unmarked. */
  lemma SharedOutputStaysUnmarked()
    ensures NothingUnmarked(TwinExample(false))
    ensures !NothingUnmarked(Propagate(TwinExample(true), BUILT))
  {
    var before, after := TwinExample(false), TwinExample(true);
    var o := Output(TWIN, "out", Hash("s"));
    var b := Output(BUILT, "out", Hash("s"));
    assert o in before.outputs && !Backed(before, o.hash);
    assert b in before.outputs && !Backed(before, b.hash);
    var sys := ClosureSystem(after);
    assert FirstFrontier(after, BUILT) == {BUILT};
    var flags := FlagFixpoint.Ripple(sys, after.edges, ClosureFlags(after), {BUILT});
    RippleStaysAbove(sys, after.edges, ClosureFlags(after), {BUILT});
    ReachIsLeast(Flip(after.edges), {BUILT}, {BUILT});
    var w := Propagate(after, BUILT);
    assert ClosureGate(w, TWIN) && !w.anchors[TWIN].closureComplete;
  }
}
