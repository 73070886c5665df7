/** Deleting cache artifacts and withdrawing the trust that rested on them. */
module CacheStorage {
  import opened Walks
  import opened FlagFixpoint
  import opened Tables
  import opened Gates

  /** Every complete `cached_path` row is backed, and so is everything it refers to. */
  ghost predicate PathsSound(db: Db) {
    forall h :: h in db.paths && db.paths[h].closureComplete ==> PathGate(db, h)
  }

  /** The same, except that complete rows may rest on the paths in `open`. */
  ghost predicate SoundBut(db: Db, open: set<Hash>) {
    forall h :: h in db.paths && db.paths[h].closureComplete ==> GateBut(db, h, open)
  }

  ghost predicate GateBut(db: Db, h: Hash, open: set<Hash>)
    requires h in db.paths
  {
    && db.paths[h].backed
    && forall r :: r in db.refs && r.src == h && r.dst != h && r.dst !in open ==>
         Backed(db, r.dst) && db.paths[r.dst].closureComplete
  }

  /** A complete row rests on `h`, which is not there with its closure. */
  ghost predicate Dangling(db: Db, h: Hash) {
    && !(Backed(db, h) && db.paths[h].closureComplete)
    && exists x :: x != h && x in PathFlags(db) && Row(x, h) in db.refs
  }

  /** Where only `open` is excepted, the invariant fails exactly at its dangling members. */
  lemma SoundButIff(db: Db, open: set<Hash>)
    requires SoundBut(db, open)
    ensures PathsSound(db) <==> forall h :: h in open ==> !Dangling(db, h)
  {
    if forall h :: h in open ==> !Dangling(db, h) {
      forall x | x in db.paths && db.paths[x].closureComplete ensures PathGate(db, x) {
        assert GateBut(db, x, open);
        forall r | r in db.refs && r.src == x && r.dst != x
          ensures Backed(db, r.dst) && db.paths[r.dst].closureComplete
        {
          assert r == Row(x, r.dst) && x in PathFlags(db);
        }
      }
    } else {
      var h :| h in open && Dangling(db, h);
      var x :| x != h && x in PathFlags(db) && Row(x, h) in db.refs;
      assert !PathGate(db, x);
    }
  }

  lemma SoundButNothing(db: Db)
    ensures SoundBut(db, {}) <==> PathsSound(db)
  {
    forall h | h in db.paths ensures GateBut(db, h, {}) <==> PathGate(db, h) {
    }
  }

  lemma SoundButMore(db: Db, open: set<Hash>, more: set<Hash>)
    requires SoundBut(db, open) && open <= more
    ensures SoundBut(db, more)
  {
    forall h | h in db.paths && db.paths[h].closureComplete ensures GateBut(db, h, more) {
      assert GateBut(db, h, open);
    }
  }

  lemma SoundButSame(a: Db, b: Db, open: set<Hash>)
    requires SoundBut(a, open) && a.paths == b.paths && a.refs == b.refs
    ensures SoundBut(b, open)
  {
    forall h | h in b.paths && b.paths[h].closureComplete ensures GateBut(b, h, open) {
      assert GateBut(a, h, open);
    }
  }

  /** Delete `cached_path` rows; their rows as referrers go with them. */
  function DeletePaths(db: Db, hs: set<Hash>): Db {
    db.(paths := db.paths - hs, refs := set r | r in db.refs && r.src !in hs)
  }

  /** Reference rows walked from a reference to a referrer that is still trusted. */
  function TrustedReferrers(db: Db): set<Row<Hash>> { Within(Flip(db.refs), PathFlags(db)) }

  function Dirty(db: Db, hs: set<Hash>): set<Hash> { Reach(TrustedReferrers(db), hs) }

  function ClearDirty(db: Db, hs: set<Hash>): Db { WithPaths(db, PathFlags(db) - Dirty(db, hs)) }

  function ProducersOf(db: Db, hs: set<Hash>): set<DrvId> {
    set o | o in db.outputs && o.hash in hs :: o.derivation
  }

  function ClearClosure(db: Db, ds: set<DrvId>): Db { WithClosure(db, ClosureFlags(db) - ds) }

  /** The three clears that follow the deletion of the artifacts behind `hs`. */
  function ClearGateFlags(db: Db, hs: set<Hash>): Db {
    var ownDrv := set d | d in db.drvHash && db.drvHash[d] in hs;
    var db1 := WithDrv(db, DrvFlags(db) - ownDrv);
    var db2 := ClearClosure(db1, ProducersOf(db1, hs));
    ClearDirty(db2, hs)
  }

  lemma ClearGateFlagsPaths(db: Db, hs: set<Hash>)
    ensures ClearGateFlags(db, hs).paths == ClearDirty(db, hs).paths
    ensures ClearGateFlags(db, hs).refs == db.refs
  {
  }

  /** Deleting rows and clearing upward keeps the completeness invariant, although the
      walk stops at referrers that are already untrusted. */
  lemma DeletePreservesSound(db: Db, hs: set<Hash>)
    requires PathsSound(db)
    ensures PathsSound(ClearGateFlags(DeletePaths(db, hs), hs))
  {
    SoundButNothing(db);
    DeleteCloses(db, hs, {});
    SoundButNothing(ClearGateFlags(DeletePaths(db, hs), hs));
  }

  /** Nothing rests on a path once it is deleted and its referrers are cleared. */
  lemma DeleteCloses(db: Db, hs: set<Hash>, open: set<Hash>)
    requires SoundBut(db, open)
    ensures SoundBut(ClearGateFlags(DeletePaths(db, hs), hs), open - hs)
  {
    var del := DeletePaths(db, hs);
    ClearGateFlagsPaths(del, hs);
    ClearCloses(db, del, ClearGateFlags(del, hs), hs, open);
  }

  /** The shared argument: `del` lost only rows in `hs`, and `end` trusts only rows of
      `del` outside a set that holds `hs` and every trusted referrer of its members. */
  lemma ClearCloses(db: Db, del: Db, end: Db, hs: set<Hash>, open: set<Hash>)
    requires SoundBut(db, open)
    requires del.paths == db.paths - hs && del.refs <= db.refs && end.refs == del.refs
    requires end.paths == WithPaths(del, PathFlags(del) - Dirty(del, hs)).paths
    ensures SoundBut(end, open - hs)
  {
    var dirty := Dirty(del, hs);
    forall h | h in end.paths && end.paths[h].closureComplete ensures GateBut(end, h, open - hs) {
      assert h in db.paths && GateBut(db, h, open) && h in PathFlags(del) && h !in dirty;
      forall r | r in end.refs && r.src == h && r.dst != h && r.dst !in open - hs
        ensures Backed(end, r.dst) && end.paths[r.dst].closureComplete
      {
        FlipRow(del.refs, r.dst, h);
        assert Row(r.dst, h) in TrustedReferrers(del);
        assert r.dst !in dirty;
      }
    }
  }

  /** Under the invariant the pruned walk misses nothing: a surviving trusted row is
      cleared exactly when its full reference closure holds a deleted hash. */
  lemma PruneExact(db: Db, hs: set<Hash>, h: Hash)
    requires PathsSound(db)
    requires h in DeletePaths(db, hs).paths && db.paths[h].closureComplete
    ensures h in Dirty(DeletePaths(db, hs), hs)
            <==> exists x :: x in hs && x in Reach(db.refs, {h})
  {
    var del := DeletePaths(db, hs);
    if h in Dirty(del, hs) {
      var p := PathTo(TrustedReferrers(del), hs, h);
      var x := p[0];
      forall i | 0 <= i < |p| - 1 ensures Row(p[i], p[i + 1]) in Flip(db.refs) {
        assert Row(p[i], p[i + 1]) in TrustedReferrers(del);
        FlipRow(del.refs, p[i], p[i + 1]);
        FlipRow(db.refs, p[i], p[i + 1]);
      }
      PathStays(Flip(db.refs), p, Reach(Flip(db.refs), {x}), |p| - 1);
      ReachConverse(db.refs, x, h);
    }
    if x :| x in hs && x in Reach(db.refs, {h}) {
      var p := PathTo(db.refs, {h}, x);
      TrustedPathIsDirty(db, hs, p);
    }
  }

  /** A reference path from a trusted row down to a deleted hash is walked upward. */
  lemma {:induction false} TrustedPathIsDirty(db: Db, hs: set<Hash>, p: seq<Hash>)
    requires PathsSound(db) && IsPath(db.refs, p) && p[|p| - 1] in hs
    requires p[0] in hs || (p[0] in db.paths && db.paths[p[0]].closureComplete)
    ensures p[0] in Dirty(DeletePaths(db, hs), hs)
    decreases |p|
  {
    var del := DeletePaths(db, hs);
    if p[0] !in hs {
      assert Row(p[0], p[1]) in db.refs;
      var q := p[1..];
      forall i | 0 <= i < |q| - 1 ensures Row(q[i], q[i + 1]) in db.refs {
        assert Row(p[i + 1], p[i + 1 + 1]) in db.refs;
      }
      assert PathGate(db, p[0]);
      TrustedPathIsDirty(db, hs, q);
      FlipRow(del.refs, p[1], p[0]);
      assert Row(p[1], p[0]) in TrustedReferrers(del);
    }
  }

  /** Clearing the flags of two chunks in turn clears what one statement would. */
  lemma ClearDirtyChunks(db: Db, a: set<Hash>, b: set<Hash>)
    ensures ClearDirty(ClearDirty(db, a), b) == ClearDirty(db, a + b)
  {
    var mid := ClearDirty(db, a);
    PathFlagLens(db, PathFlags(db) - Dirty(db, a), PathFlags(mid) - Dirty(mid, b));
    var both := Dirty(db, a) + Dirty(mid, b);
    ReachIsLeast(TrustedReferrers(db), a + b, both);
    ReachMonotone(TrustedReferrers(db), TrustedReferrers(db), a, a + b);
    ReachMonotone(TrustedReferrers(mid), TrustedReferrers(db), b, a + b);
    assert Dirty(db, a + b) == both;
    assert PathFlags(mid) - Dirty(mid, b) == PathFlags(db) - both;
  }

  lemma ClearGateFlagsChunks(db: Db, a: set<Hash>, b: set<Hash>)
    ensures ClearGateFlags(ClearGateFlags(db, a), b) == ClearGateFlags(db, a + b)
  {
    var mid := ClearGateFlags(db, a);
    ClearGateFlagsRows(db, a);
    ClearGateFlagsRows(mid, b);
    ClearGateFlagsRows(db, a + b);
    SameRows(db, mid, ClearGateFlags(mid, b), ClearGateFlags(db, a + b), a, b);
    ClearGateFlagsPathChunks(db, a, b);
  }

  ghost predicate RowsCleared(db: Db, w: Db, hs: set<Hash>) {
    && w == db.(anchors := w.anchors, paths := w.paths)
    && w.anchors.Keys == db.anchors.Keys
    && forall d :: d in db.anchors ==>
         w.anchors[d] == db.anchors[d].(
           drvClosureCached := db.anchors[d].drvClosureCached
                               && !(d in db.drvHash && db.drvHash[d] in hs),
           closureComplete := db.anchors[d].closureComplete && d !in ProducersOf(db, hs))
  }

  lemma SameRows(db: Db, mid: Db, x: Db, y: Db, a: set<Hash>, b: set<Hash>)
    requires RowsCleared(db, mid, a) && RowsCleared(mid, x, b) && RowsCleared(db, y, a + b)
    ensures x.anchors == y.anchors
  {
    assert ProducersOf(mid, b) == ProducersOf(db, b);
    assert ProducersOf(db, a + b) == ProducersOf(db, a) + ProducersOf(db, b);
  }

  lemma ClearGateFlagsPathChunks(db: Db, a: set<Hash>, b: set<Hash>)
    ensures ClearGateFlags(ClearGateFlags(db, a), b).paths == ClearGateFlags(db, a + b).paths
  {
    ClearGateFlagsPaths(db, a);
    ClearGateFlagsPaths(ClearGateFlags(db, a), b);
    ClearGateFlagsPaths(db, a + b);
    ClearDirtyChunks(db, a, b);
    ClearDirtySame(ClearGateFlags(db, a), ClearDirty(db, a), b);
  }

  lemma ClearDirtySame(a: Db, b: Db, hs: set<Hash>)
    requires a.paths == b.paths && a.refs == b.refs
    ensures ClearDirty(a, hs).paths == ClearDirty(b, hs).paths
  {
    assert PathFlags(a) == PathFlags(b);
  }

  /** The anchor rows after the clears. */
  lemma ClearGateFlagsRows(db: Db, hs: set<Hash>)
    ensures RowsCleared(db, ClearGateFlags(db, hs), hs)
  {
  }

  // ----- the worklist form -----

  /** The referrers a missing path leaves incomplete. */
  function ReferrersCleared(db: Db, missing: Hash): set<Hash> {
    Step(TrustedReferrers(db), Dirty(db, {missing}))
  }

  function ClearReferrers(db: Db, missing: Hash): Db {
    var cleared := ReferrersCleared(db, missing);
    ClearClosure(WithPaths(db, PathFlags(db) - cleared), ProducersOf(db, cleared))
  }

  /** The missing path and its cleared referrers are the dirty set. */
  lemma DirtyIsMissingAndReferrers(db: Db, missing: Hash)
    ensures Dirty(db, {missing}) == {missing} + ReferrersCleared(db, missing)
    ensures ReferrersCleared(db, missing) <= PathFlags(db)
  {
    var rows := TrustedReferrers(db);
    var dirty := Dirty(db, {missing});
    var t := {missing} + Step(rows, dirty);
    forall r | r in rows && r.src in t ensures r.dst in t {
      assert r.src in dirty;
      assert r.dst in Step(rows, dirty);
    }
    ReachIsLeast(rows, {missing}, t);
  }

  /** The worklist and the recursive statement clear the same `cached_path` rows exactly
      when the missing path's own row is not trusted, or lies on a cycle of trusted
      referrers and so is its own referrer. */
  lemma WorklistClearsSameRowsIff(db: Db, missing: Hash)
    ensures var onCycle := missing in Reach(TrustedReferrers(db), Step(TrustedReferrers(db), {missing}));
            WithPaths(db, PathFlags(db) - ReferrersCleared(db, missing)) == ClearDirty(db, {missing})
            <==> missing !in PathFlags(db) || onCycle
  {
    var rows := TrustedReferrers(db);
    var cleared := ReferrersCleared(db, missing);
    DirtyIsMissingAndReferrers(db, missing);
    var above := Reach(rows, Step(rows, {missing}));
    forall r | r in rows && r.src in {missing} + above ensures r.dst in {missing} + above {
      if r.src == missing { assert r.dst in Step(rows, {missing}); }
    }
    ReachIsLeast(rows, {missing}, {missing} + above);
    ReachIsLeast(rows, Step(rows, {missing}), cleared);
    assert missing in cleared <==> missing in above;
    var x := WithPaths(db, PathFlags(db) - cleared);
    var y := ClearDirty(db, {missing});
    PathFlagLens(db, PathFlags(db) - cleared, {});
    PathFlagLens(db, PathFlags(db) - Dirty(db, {missing}), {});
    if missing in PathFlags(db) && missing !in cleared {
      assert missing in PathFlags(x) && missing !in PathFlags(y);
    } else {
      assert PathFlags(db) - cleared == PathFlags(db) - Dirty(db, {missing});
    }
  }

  // ----- demotion -----

  /** Whether a reported-missing artifact is kept: nothing rebuilds it, and it is there. */
  predicate PreserveMissing(hasProducer: bool, objectPresent: bool) {
    !hasProducer && objectPresent
  }

  function DemotedAnchor(a: Anchor): Anchor {
    a.(status := Created, substitutable := false, substituted := false, attempt := 0,
       closureComplete := false)
  }

  /** Reset every trusted producer of `h` to a fresh build intent. */
  function ResetProducers(db: Db, h: Hash): Db {
    db.(anchors := map d | d in db.anchors ::
          if d in ProducersOf(db, {h}) && db.anchors[d].status.TerminalSuccess()
          then DemotedAnchor(db.anchors[d]) else db.anchors[d])
  }

  /** Forget that the outputs with hash `h` are on an upstream. */
  function DropUpstream(db: Db, h: Hash): Db {
    db.(upstream := set o | o in db.upstream && !(o in db.outputs && o.hash == h))
  }

  /** Purge an unfetchable output so that its producer rebuilds it. */
  function DemoteOutput(db: Db, h: Hash, objectPresent: bool): Db {
    var db1 := DropUpstream(db, h);
    if PreserveMissing(ProducersOf(db, {h}) != {}, objectPresent) then db1
    else DeletePaths(ResetProducers(db1, h), {h})
  }

  function DemoteOne(db: Db, h: Hash): Db { ClearReferrers(DemoteOutput(db, h, false), h) }

  /** Demote a list of outputs in turn. */
  function DemoteAll(db: Db, hs: seq<Hash>): Db
    decreases |hs|
  {
    if hs == [] then db else DemoteOne(DemoteAll(db, hs[..|hs| - 1]), hs[|hs| - 1])
  }

  /** The tables no demotion, clear or reconcile step writes. */
  ghost predicate SameFacts(a: Db, b: Db) {
    && a.drvHash == b.drvHash && a.edges == b.edges && a.outputs == b.outputs
    && a.sources == b.sources && a.jobs == b.jobs && a.attempts == b.attempts
    && a.anchors.Keys == b.anchors.Keys
  }

  /** What a demotion leaves: no output by that hash is upstream; unless nothing produces it and it
      is there, its row and its references are gone and its trusted producers are to rebuild it. */
  lemma DemoteOutputMeans(db: Db, h: Hash, objectPresent: bool, w: Db)
    requires w == DemoteOutput(db, h, objectPresent)
    ensures w == db.(anchors := w.anchors, upstream := w.upstream, paths := w.paths, refs := w.refs)
    ensures w.upstream == set o | o in db.upstream && !(o in db.outputs && o.hash == h)
    ensures objectPresent && (forall o :: o in db.outputs ==> o.hash != h) ==>
              w.anchors == db.anchors && w.paths == db.paths && w.refs == db.refs
    ensures !objectPresent || (exists o :: o in db.outputs && o.hash == h) ==>
              && w.paths == db.paths - {h} && w.refs == (set r | r in db.refs && r.src != h)
              && w.anchors.Keys == db.anchors.Keys
              && forall d :: d in db.anchors ==> w.anchors[d] == RebuiltFor(db, h, d)
  {
    assert ProducersOf(db, {h}) != {} <==> exists o :: o in db.outputs && o.hash == h by {
      if o :| o in db.outputs && o.hash == h { assert o.derivation in ProducersOf(db, {h}); }
    }
    if !PreserveMissing(ProducersOf(db, {h}) != {}, objectPresent) {
      assert w.refs == (set r | r in db.refs && r.src != h);
    }
  }

  /** The row of an anchor once `h` has to be rebuilt. */
  function RebuiltFor(db: Db, h: Hash, d: DrvId): Anchor
    requires d in db.anchors
  {
    if db.anchors[d].status in {Completed, Substituted}
       && exists o :: o in db.outputs && o.hash == h && o.derivation == d
    then db.anchors[d].(status := Created, substitutable := false, substituted := false, attempt := 0,
                        closureComplete := false)
    else db.anchors[d]
  }

  /** Demotion of `h` keeps the completeness invariant, and nothing rests on `h` after it. */
  lemma DemoteCloses(db: Db, h: Hash, open: set<Hash>)
    requires SoundBut(db, open)
    ensures SoundBut(DemoteOne(db, h), open - {h})
  {
    var del := DemoteOutput(db, h, false);
    DirtyIsMissingAndReferrers(del, h);
    assert h !in del.paths;
    assert PathFlags(del) - ReferrersCleared(del, h) == PathFlags(del) - Dirty(del, {h});
    ClearCloses(db, del, DemoteOne(db, h), {h}, open);
  }

  /** A demotion without the clear leaves at most `h` open. */
  lemma BareDemoteOpens(db: Db, h: Hash, open: set<Hash>)
    requires SoundBut(db, open)
    ensures SoundBut(DemoteOutput(db, h, false), open + {h})
  {
    var del := DemoteOutput(db, h, false);
    forall x | x in del.paths && del.paths[x].closureComplete ensures GateBut(del, x, open + {h}) {
      assert GateBut(db, x, open);
    }
  }

  /** Purging a path without the upward clear keeps the invariant exactly when no other
      trusted row refers to it. */
  lemma BareDemoteSoundIff(db: Db, h: Hash)
    requires PathsSound(db)
    ensures PathsSound(DemoteOutput(db, h, false))
            <==> !exists x :: x != h && x in PathFlags(db) && Row(x, h) in db.refs
  {
    var del := DemoteOutput(db, h, false);
    SoundButNothing(db);
    BareDemoteOpens(db, h, {});
    SoundButIff(del, {} + {h});
    assert h !in del.paths;
    if x :| x != h && x in PathFlags(db) && Row(x, h) in db.refs {
      assert x in PathFlags(del) && Row(x, h) in del.refs;
      assert Dangling(del, h);
    } else {
      assert forall x :: x != h && x in PathFlags(del) && Row(x, h) in del.refs
                         ==> x in PathFlags(db) && Row(x, h) in db.refs;
    }
  }

  /** What one demotion does to trusted producers and backed paths. */
  lemma DemoteOneFacts(db: Db, h: Hash)
    ensures SameFacts(db, DemoteOne(db, h))
    ensures DemoteOne(db, h).paths.Keys == db.paths.Keys - {h}
    ensures forall x :: x != h ==> (Backed(DemoteOne(db, h), x) <==> Backed(db, x))
    ensures forall o :: o in db.outputs && o.hash != h ==>
              (o in DemoteOne(db, h).upstream <==> o in db.upstream)
    ensures forall d :: d in db.anchors ==>
              DemoteOne(db, h).anchors[d].status ==
              if d in ProducersOf(db, {h}) && db.anchors[d].status.TerminalSuccess()
              then Created else db.anchors[d].status
  {
  }

  /** What demoting all of `hs` did: every other hash and output is as it was, and no
      trusted producer of one of them is left. */
  ghost predicate Demoted(db: Db, w: Db, hs: seq<Hash>) {
    && SameFacts(db, w)
    && (forall x :: x !in hs ==> (Backed(w, x) <==> Backed(db, x)))
    && (forall o :: o in db.outputs && o.hash !in hs ==> (o in w.upstream <==> o in db.upstream))
    && (forall d :: d in db.anchors && w.anchors[d].status.TerminalSuccess() ==> StaysTrusted(db, w, hs, d))
  }

  ghost predicate StaysTrusted(db: Db, w: Db, hs: seq<Hash>, d: DrvId)
    requires d in db.anchors && d in w.anchors
  {
    && db.anchors[d].status == w.anchors[d].status
    && forall o :: o in db.outputs && o.derivation == d ==> o.hash !in hs
  }

  lemma {:induction false} DemoteAllFacts(db: Db, hs: seq<Hash>)
    ensures Demoted(db, DemoteAll(db, hs), hs)
    decreases |hs|
  {
    if hs != [] {
      var rest, h := hs[..|hs| - 1], hs[|hs| - 1];
      DemoteAllFacts(db, rest);
      DemoteOneFacts(DemoteAll(db, rest), h);
      DemotedOneMore(db, DemoteAll(db, rest), DemoteAll(db, hs), rest, h);
      assert hs == rest + [h];
    }
  }

  /** The row of an anchor before and after demotions: reset if it was trusted for one of the
      outputs, otherwise as it was but for its closure flag. */
  predicate DemotedRow(a: Anchor, b: Anchor, lost: bool) {
    b == (if lost && a.status.TerminalSuccess() then DemotedAnchor(a) else a).(closureComplete := b.closureComplete)
  }

  lemma {:induction false} DemoteAllRow(db: Db, hs: seq<Hash>, d: DrvId)
    requires d in db.anchors
    ensures d in DemoteAll(db, hs).anchors && DemoteAll(db, hs).outputs == db.outputs
    ensures DemotedRow(db.anchors[d], DemoteAll(db, hs).anchors[d], d in ProducersOf(db, Elements(hs)))
    decreases |hs|
  {
    if hs == [] {
      assert Elements(hs) == {};
    } else {
      var rest, h := hs[..|hs| - 1], hs[|hs| - 1];
      DemoteAllRow(db, rest, d);
      DemoteOneRow(DemoteAll(db, rest), h, d);
      ElementsLast(hs);
      ProducersOfMore(db, DemoteAll(db, rest), Elements(rest), h);
    }
  }

  lemma ProducersOfMore(db: Db, mid: Db, hs: set<Hash>, h: Hash)
    requires mid.outputs == db.outputs
    ensures ProducersOf(db, hs + {h}) == ProducersOf(db, hs) + ProducersOf(mid, {h})
  {
  }

  lemma DemoteOneRow(db: Db, h: Hash, d: DrvId)
    requires d in db.anchors
    ensures d in DemoteOne(db, h).anchors && DemoteOne(db, h).outputs == db.outputs
    ensures DemotedRow(db.anchors[d], DemoteOne(db, h).anchors[d], d in ProducersOf(db, {h}))
  {
  }

  lemma DemotedOneMore(db: Db, mid: Db, w: Db, rest: seq<Hash>, h: Hash)
    requires Demoted(db, mid, rest) && SameFacts(mid, w)
    requires forall x :: x != h ==> (Backed(w, x) <==> Backed(mid, x))
    requires forall o :: o in mid.outputs && o.hash != h ==> (o in w.upstream <==> o in mid.upstream)
    requires forall d :: d in mid.anchors ==>
               w.anchors[d].status ==
               if d in ProducersOf(mid, {h}) && mid.anchors[d].status.TerminalSuccess()
               then Created else mid.anchors[d].status
    ensures Demoted(db, w, rest + [h])
  {
    forall d | d in db.anchors && w.anchors[d].status.TerminalSuccess()
      ensures StaysTrusted(db, w, rest + [h], d)
    {
      assert d in mid.anchors && d !in ProducersOf(mid, {h});
      assert StaysTrusted(db, mid, rest, d);
    }
  }

  lemma {:induction false} DemoteAllKeeps(db: Db, hs: seq<Hash>, open: set<Hash>)
    requires SoundBut(db, open)
    ensures SoundBut(DemoteAll(db, hs), open)
    ensures PathFlags(DemoteAll(db, hs)) <= PathFlags(db)
    decreases |hs|
  {
    if hs != [] {
      var rest, h := DemoteAll(db, hs[..|hs| - 1]), hs[|hs| - 1];
      DemoteAllKeeps(db, hs[..|hs| - 1], open);
      DemoteCloses(rest, h, open);
      SoundButMore(DemoteOne(rest, h), open - {h}, open);
      DemoteOneFlags(rest, h);
    }
  }

  lemma DemoteOneFlags(db: Db, h: Hash)
    ensures PathFlags(DemoteOne(db, h)) <= PathFlags(db)
  {
  }

  /** After demoting every unbacked trusted output, in any order, none is left. */
  lemma DemoteAllBacks(db: Db, hs: seq<Hash>)
    requires Elements(hs) == UnbackedTrusted(db)
    ensures UnbackedTrusted(DemoteAll(db, hs)) == {}
  {
    var end := DemoteAll(db, hs);
    DemoteAllFacts(db, hs);
    forall o | o in end.outputs && o.derivation in end.anchors
               && end.anchors[o.derivation].status.TerminalSuccess() && o !in end.upstream
      ensures Backed(end, o.hash)
    {
      assert StaysTrusted(db, end, hs, o.derivation);
      assert o.hash !in UnbackedTrusted(db);
    }
  }
}
