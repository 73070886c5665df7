/** The tables as mutable state, and the steps of the reconciler as they run: single
    statements that update rows in place, and the loops that repeat them. Every method
    is tied to the function of the table values that the theorems are about. */
module Store {
  import opened Walks
  import opened FlagFixpoint
  import opened Tables
  import opened Wrappers
  import opened Gates
  import opened Promotion
  import opened CacheStorage
  import Reconcile
  import Ripple
  import Transition
  import PassScopes

  // ----- one round of a fixpoint, as a statement on the rows -----

  /** The rows a CLEAR statement of the `closure_complete` family resets. */
  function ClosureCleared(db: Db, bound: set<DrvId>): set<DrvId> {
    set d | d in db.anchors && db.anchors[d].closureComplete && d in bound && !ClosureGate(db, d)
  }

  /** The rows its SET statement marks. */
  function ClosureSet(db: Db, bound: set<DrvId>): set<DrvId> {
    set d | d in db.anchors && !db.anchors[d].closureComplete && d in bound && ClosureGate(db, d)
  }

  function DrvCleared(db: Db, bound: set<DrvId>): set<DrvId> {
    set d | d in db.anchors && db.anchors[d].drvClosureCached && d in bound && !DrvGate(db, d)
  }

  function DrvSet(db: Db, bound: set<DrvId>): set<DrvId> {
    set d | d in db.anchors && !db.anchors[d].drvClosureCached && d in bound && DrvGate(db, d)
  }

  function PathsCleared(db: Db, bound: set<Hash>): set<Hash> {
    set h | h in db.paths && db.paths[h].closureComplete && h in bound && !PathGate(db, h)
  }

  function PathsSet(db: Db, bound: set<Hash>): set<Hash> {
    set h | h in db.paths && !db.paths[h].closureComplete && h in bound && PathGate(db, h)
  }

  /** The rows the CLEAR and SET statements of each family select, reading the gate from the
      table as it is, are the rows one step of the fixpoint changes. */
  lemma ClosureStatements(db: Db, bound: set<DrvId>)
    ensures ClosureCleared(db, bound) == Stale(ClosureSystem(db), bound, ClosureFlags(db))
    ensures ClosureSet(db, bound) == Fresh(ClosureSystem(db), bound, ClosureFlags(db))
  {
    forall d | d in db.anchors
      ensures ClosureGate(db, d) <==> Holds(ClosureSystem(db), ClosureFlags(db), d)
    {
      ClosureGateIsSystem(db, d);
    }
  }

  lemma DrvStatements(db: Db, bound: set<DrvId>)
    ensures DrvCleared(db, bound) == Stale(DrvSystem(db), bound, DrvFlags(db))
    ensures DrvSet(db, bound) == Fresh(DrvSystem(db), bound, DrvFlags(db))
  {
    forall d | d in db.anchors ensures DrvGate(db, d) <==> Holds(DrvSystem(db), DrvFlags(db), d) {
      DrvGateIsSystem(db, d);
    }
  }

  lemma PathStatements(db: Db, bound: set<Hash>)
    ensures PathsCleared(db, bound) == Stale(PathSystem(db), bound, PathFlags(db))
    ensures PathsSet(db, bound) == Fresh(PathSystem(db), bound, PathFlags(db))
  {
    forall h | h in db.paths ensures PathGate(db, h) <==> Holds(PathSystem(db), PathFlags(db), h) {
      PathGateIsSystem(db, h);
    }
  }

  /** Writing one flag value to the selected rows. */
  function WriteClosure(anchors: map<DrvId, Anchor>, ds: set<DrvId>, v: bool): map<DrvId, Anchor> {
    map d | d in anchors :: if d in ds then anchors[d].(closureComplete := v) else anchors[d]
  }

  function WriteDrv(anchors: map<DrvId, Anchor>, ds: set<DrvId>, v: bool): map<DrvId, Anchor> {
    map d | d in anchors :: if d in ds then anchors[d].(drvClosureCached := v) else anchors[d]
  }

  function WritePaths(paths: map<Hash, CachedPath>, hs: set<Hash>, v: bool): map<Hash, CachedPath> {
    map h | h in paths :: if h in hs then paths[h].(closureComplete := v) else paths[h]
  }

  // ----- the loop over a statement -----

  datatype Family = ClosureFamily | DrvFamily | PathFamily

  /** Where repeating the CLEAR (`v` false) or SET (`v` true) statement of a family leads. */
  function Converge(db: Db, family: Family, scope: Option<EvalId>, v: bool): Db {
    match family
    case ClosureFamily => WithClosure(db, Settle(ClosureSystem(db), AnchorBound(db, scope), ClosureFlags(db), v))
    case DrvFamily => WithDrv(db, Settle(DrvSystem(db), AnchorBound(db, scope), DrvFlags(db), v))
    case PathFamily => WithPaths(db, Settle(PathSystem(db), PathBound(db, scope), PathFlags(db), v))
  }

  function Settle<N(==)>(sys: System<N>, bound: set<N>, flags: set<N>, v: bool): set<N> {
    if v then SetFix(sys, bound, flags) else ClearFix(sys, bound, flags)
  }

  /** The flags one statement leaves. */
  function Round<N(==)>(sys: System<N>, bound: set<N>, flags: set<N>, v: bool): set<N> {
    if v then flags + Fresh(sys, bound, flags) else flags - Stale(sys, bound, flags)
  }

  function OneRound(db: Db, family: Family, scope: Option<EvalId>, v: bool): Db {
    match family
    case ClosureFamily => WithClosure(db, Round(ClosureSystem(db), AnchorBound(db, scope), ClosureFlags(db), v))
    case DrvFamily => WithDrv(db, Round(DrvSystem(db), AnchorBound(db, scope), DrvFlags(db), v))
    case PathFamily => WithPaths(db, Round(PathSystem(db), PathBound(db, scope), PathFlags(db), v))
  }

  /** How many rows the statement can still change. */
  function RowsLeft(db: Db, family: Family, v: bool): nat {
    match family
    case ClosureFamily => FlagsLeft(ClosureSystem(db), ClosureFlags(db), v)
    case DrvFamily => FlagsLeft(DrvSystem(db), DrvFlags(db), v)
    case PathFamily => FlagsLeft(PathSystem(db), PathFlags(db), v)
  }

  function FlagsLeft<N(==)>(sys: System<N>, flags: set<N>, v: bool): nat {
    if v then |sys.local - flags| else |flags|
  }

  lemma RoundSettles<N>(sys: System<N>, bound: set<N>, flags: set<N>, v: bool)
    ensures var next := Round(sys, bound, flags, v);
            && Settle(sys, bound, next, v) == Settle(sys, bound, flags, v)
            && (next == flags ==> Settle(sys, bound, flags, v) == flags)
            && (next != flags ==> FlagsLeft(sys, next, v) < FlagsLeft(sys, flags, v))
  {
    var due, stale := Fresh(sys, bound, flags), Stale(sys, bound, flags);
    if v && due != {} { SetShrinks(sys.local, flags, due); }
    if !v && stale != {} { RemoveShrinks(flags, stale); }
    assert due == {} ==> flags + due == flags;
    assert stale == {} ==> flags - stale == flags;
    assert due != {} ==> flags + due != flags;
    assert stale != {} ==> flags - stale != flags;
  }

  /** After one statement the same rows are left to converge to; if it changed none, the table
      has converged, and otherwise fewer rows are left. */
  ghost predicate Advances(db: Db, w: Db, family: Family, scope: Option<EvalId>, v: bool, affected: nat) {
    && Converge(w, family, scope, v) == Converge(db, family, scope, v)
    && (affected == 0 ==> w == Converge(db, family, scope, v))
    && (affected > 0 ==> RowsLeft(w, family, v) < RowsLeft(db, family, v))
  }

  lemma ClosureRows(db: Db, w: Db, bound: set<DrvId>, v: bool, rows: set<DrvId>, next: set<DrvId>)
    requires rows == if v then ClosureSet(db, bound) else ClosureCleared(db, bound)
    requires w == db.(anchors := WriteClosure(db.anchors, rows, v))
    requires next == Round(ClosureSystem(db), bound, ClosureFlags(db), v)
    ensures w == WithClosure(db, next) && next <= db.anchors.Keys && (rows == {} <==> next == ClosureFlags(db))
  {
    ClosureStatements(db, bound);
    assert w.anchors == WithClosure(db, next).anchors;
  }

  lemma ClosureAfter(db: Db, w: Db, scope: Option<EvalId>, next: set<DrvId>)
    requires w == WithClosure(db, next) && next <= db.anchors.Keys
    ensures ClosureSystem(w) == ClosureSystem(db) && ClosureFlags(w) == next
    ensures AnchorBound(w, scope) == AnchorBound(db, scope)
    ensures forall f :: WithClosure(w, f) == WithClosure(db, f)
  {
    Reconcile.WithClosureKeeps(db, next);
    forall f ensures WithClosure(w, f) == WithClosure(db, f) { ClosureFlagLens(db, next, f); }
    ClosureFlagLens(db, next, next);
    assert next * db.anchors.Keys == next;
  }

  lemma ClosureAdvances(db: Db, w: Db, scope: Option<EvalId>, v: bool, rows: set<DrvId>)
    requires rows == if v then ClosureSet(db, AnchorBound(db, scope)) else ClosureCleared(db, AnchorBound(db, scope))
    requires w == db.(anchors := WriteClosure(db.anchors, rows, v))
    ensures w == OneRound(db, ClosureFamily, scope, v) && Advances(db, w, ClosureFamily, scope, v, |rows|)
  {
    var sys, bound, flags := ClosureSystem(db), AnchorBound(db, scope), ClosureFlags(db);
    var next := Round(sys, bound, flags, v);
    ClosureRows(db, w, bound, v, rows, next);
    ClosureAfter(db, w, scope, next);
    RoundSettles(sys, bound, flags, v);
  }

  lemma DrvRows(db: Db, w: Db, bound: set<DrvId>, v: bool, rows: set<DrvId>, next: set<DrvId>)
    requires rows == if v then DrvSet(db, bound) else DrvCleared(db, bound)
    requires w == db.(anchors := WriteDrv(db.anchors, rows, v)) && next == Round(DrvSystem(db), bound, DrvFlags(db), v)
    ensures w == WithDrv(db, next) && next <= db.anchors.Keys && (rows == {} <==> next == DrvFlags(db))
  {
    DrvStatements(db, bound);
    assert w.anchors == WithDrv(db, next).anchors;
  }

  lemma DrvAfter(db: Db, w: Db, scope: Option<EvalId>, next: set<DrvId>)
    requires w == WithDrv(db, next) && next <= db.anchors.Keys
    ensures DrvSystem(w) == DrvSystem(db) && DrvFlags(w) == next && AnchorBound(w, scope) == AnchorBound(db, scope)
    ensures forall f :: WithDrv(w, f) == WithDrv(db, f)
  {
    Reconcile.WithDrvKeeps(db, next);
    forall f ensures WithDrv(w, f) == WithDrv(db, f) { DrvFlagLens(db, next, f); }
    DrvFlagLens(db, next, next);
    assert next * db.anchors.Keys == next;
  }

  lemma DrvAdvances(db: Db, w: Db, scope: Option<EvalId>, v: bool, rows: set<DrvId>)
    requires rows == if v then DrvSet(db, AnchorBound(db, scope)) else DrvCleared(db, AnchorBound(db, scope))
    requires w == db.(anchors := WriteDrv(db.anchors, rows, v))
    ensures w == OneRound(db, DrvFamily, scope, v) && Advances(db, w, DrvFamily, scope, v, |rows|)
  {
    var sys, bound, flags := DrvSystem(db), AnchorBound(db, scope), DrvFlags(db);
    var next := Round(sys, bound, flags, v);
    DrvRows(db, w, bound, v, rows, next);
    DrvAfter(db, w, scope, next);
    RoundSettles(sys, bound, flags, v);
  }

  lemma PathRows(db: Db, w: Db, bound: set<Hash>, v: bool, rows: set<Hash>, next: set<Hash>)
    requires rows == if v then PathsSet(db, bound) else PathsCleared(db, bound)
    requires w == db.(paths := WritePaths(db.paths, rows, v)) && next == Round(PathSystem(db), bound, PathFlags(db), v)
    ensures w == WithPaths(db, next) && next <= db.paths.Keys && (rows == {} <==> next == PathFlags(db))
  {
    PathStatements(db, bound);
    assert w.paths == WithPaths(db, next).paths;
  }

  lemma PathAfter(db: Db, w: Db, scope: Option<EvalId>, next: set<Hash>)
    requires w == WithPaths(db, next) && next <= db.paths.Keys
    ensures PathSystem(w) == PathSystem(db) && PathFlags(w) == next && PathBound(w, scope) == PathBound(db, scope)
    ensures forall f :: WithPaths(w, f) == WithPaths(db, f)
  {
    Reconcile.WithPathsKeeps(db, next);
    forall f ensures WithPaths(w, f) == WithPaths(db, f) { PathFlagLens(db, next, f); }
    PathFlagLens(db, next, next);
    assert next * db.paths.Keys == next;
  }

  lemma PathsAdvance(db: Db, w: Db, scope: Option<EvalId>, v: bool, rows: set<Hash>)
    requires rows == if v then PathsSet(db, PathBound(db, scope)) else PathsCleared(db, PathBound(db, scope))
    requires w == db.(paths := WritePaths(db.paths, rows, v))
    ensures w == OneRound(db, PathFamily, scope, v) && Advances(db, w, PathFamily, scope, v, |rows|)
  {
    var sys, bound, flags := PathSystem(db), PathBound(db, scope), PathFlags(db);
    var next := Round(sys, bound, flags, v);
    PathRows(db, w, bound, v, rows, next);
    PathAfter(db, w, scope, next);
    RoundSettles(sys, bound, flags, v);
  }

  /** Clearing to convergence and then setting to convergence is the fixpoint of the gates. */
  function Fixpoint(db: Db, family: Family, scope: Option<EvalId>): Db {
    match family
    case ClosureFamily => Reconcile.ReconcileClosure(db, scope)
    case DrvFamily => Reconcile.ReconcileDrv(db, scope)
    case PathFamily => Reconcile.ReconcilePaths(db, scope)
  }

  lemma BothDirections(db: Db, w: Db, family: Family, scope: Option<EvalId>)
    requires w == Converge(db, family, scope, false)
    ensures Converge(w, family, scope, true) == Fixpoint(db, family, scope)
  {
    match family
    case ClosureFamily =>
      ClearFixShrinks(ClosureSystem(db), AnchorBound(db, scope), ClosureFlags(db));
      ClosureAfter(db, w, scope, ClearFix(ClosureSystem(db), AnchorBound(db, scope), ClosureFlags(db)));
    case DrvFamily =>
      ClearFixShrinks(DrvSystem(db), AnchorBound(db, scope), DrvFlags(db));
      DrvAfter(db, w, scope, ClearFix(DrvSystem(db), AnchorBound(db, scope), DrvFlags(db)));
    case PathFamily =>
      ClearFixShrinks(PathSystem(db), PathBound(db, scope), PathFlags(db));
      PathAfter(db, w, scope, ClearFix(PathSystem(db), PathBound(db, scope), PathFlags(db)));
  }

  lemma {:induction false} ClearFixShrinks<N>(sys: System<N>, bound: set<N>, flags: set<N>)
    ensures ClearFix(sys, bound, flags) <= flags
    decreases |flags|
  {
    var stale := Stale(sys, bound, flags);
    if stale != {} {
      RemoveShrinks(flags, stale);
      ClearFixShrinks(sys, bound, flags - stale);
    }
  }

  // ----- the ripple -----

  /** Between two rounds of the ripple: the table is the one it started from with `flags` in the
      flag column, so the next statement reads the gates of that system. */
  ghost predicate ClosureAt(start: Db, now: Db, flags: set<DrvId>) {
    now == WithClosure(start, flags) && flags <= start.anchors.Keys
  }

  lemma ClosureWritten(start: Db, now: Db, flags: set<DrvId>, ds: set<DrvId>)
    requires ClosureAt(start, now, flags) && ds <= now.anchors.Keys
    ensures ClosureAt(start, now.(anchors := WriteClosure(now.anchors, ds, true)), flags + ds)
  {
    assert WriteClosure(now.anchors, ds, true) == WithClosure(start, flags + ds).anchors;
  }

  lemma SetShrinks<N>(local: set<N>, flags: set<N>, due: set<N>)
    requires due <= local - flags && due != {}
    ensures |local - (flags + due)| < |local - flags|
  {
    assert local - (flags + due) == (local - flags) - due;
    RemoveShrinks(local - flags, due);
  }

  /** The frontier rows the ripple's statement marks. */
  function FrontierMarked(db: Db, frontier: set<DrvId>): set<DrvId> {
    set d | d in frontier && d in db.anchors && !db.anchors[d].closureComplete && ClosureGate(db, d)
  }

  lemma FrontierRound(start: Db, now: Db, flags: set<DrvId>, frontier: set<DrvId>)
    requires ClosureAt(start, now, flags)
    ensures FrontierMarked(now, frontier) == Newly(ClosureSystem(start), flags, frontier)
  {
    ClosureFlagLens(start, flags, flags);
    assert flags * start.anchors.Keys == flags;
    Reconcile.WithClosureKeeps(start, flags);
    forall d | d in now.anchors ensures ClosureGate(now, d) <==> Holds(ClosureSystem(start), flags, d) {
      ClosureGateIsSystem(now, d);
    }
  }

  /** Whatever refers to `n`. */
  function Referrers<N(==)>(refs: set<Row<N>>, n: N): set<N> { set r | r in refs && r.dst == n :: r.src }

  /** Clear the referrers of one row that are still trusted, and list them. */
  method ClearTrusted<N(==)>(refs: set<Row<N>>, trusted: set<N>, n: N, start: set<N>)
    returns (cleared: set<N>, pushed: seq<N>)
    ensures cleared == start + Referrers(refs, n) * trusted
    ensures Elements(pushed) == cleared - start
    ensures cleared == start ==> pushed == []
  {
    cleared, pushed := start, [];
    var todo := Referrers(refs, n);
    while todo != {}
      invariant todo <= Referrers(refs, n)
      invariant start <= cleared <= start + Referrers(refs, n) * trusted
      invariant Referrers(refs, n) * trusted <= cleared + todo
      invariant Elements(pushed) == cleared - start
      decreases |todo|
    {
      var referrer :| referrer in todo;
      todo := todo - {referrer};
      if referrer in trusted && referrer !in cleared {
        ElementsAppend(pushed, [referrer]);
        cleared := cleared + {referrer};
        pushed := pushed + [referrer];
      }
    }
    assert pushed != [] ==> pushed[0] in Elements(pushed);
  }

  /** Clear the trusted referrers of a missing row, then theirs, with a worklist. */
  method WalkReferrers<N(==)>(refs: set<Row<N>>, trusted: set<N>, missing: N) returns (cleared: set<N>)
    ensures var rows := Within(Flip(refs), trusted);
            cleared == Step(rows, Reach(rows, {missing}))
  {
    cleared := {};
    var worklist := [missing];
    var seen: set<N> := {};
    while worklist != []
      invariant Walked(refs, trusted, missing, cleared, seen, Elements(worklist))
      decreases |trusted - cleared|, |worklist|
    {
      var hash := worklist[|worklist| - 1];
      ElementsLast(worklist);
      worklist := worklist[..|worklist| - 1];
      if hash !in seen {
        var next, pushed := ClearTrusted(refs, trusted, hash, cleared);
        WalkOn(refs, trusted, missing, cleared, seen, Elements(worklist), hash, next);
        if next != cleared { CountMore(trusted, cleared, next); }
        ElementsAppend(worklist, pushed);
        worklist, seen, cleared := worklist + pushed, seen + {hash}, next;
      } else {
        SkipSeen(refs, trusted, missing, cleared, seen, Elements(worklist), hash);
      }
    }
    assert Elements(worklist) == {};
    WalkComplete(refs, trusted, missing, cleared, seen);
  }

  /** Between two pops: what was cleared is due to be cleared, everything cleared is seen
      or queued, and every seen row has had its trusted referrers cleared. */
  ghost predicate Walked<N>(
      refs: set<Row<N>>, trusted: set<N>, missing: N, cleared: set<N>, seen: set<N>, queued: set<N>)
  {
    && (var rows := Within(Flip(refs), trusted); cleared <= Step(rows, Reach(rows, {missing})))
    && seen + queued == {missing} + cleared
    && forall h :: h in seen ==> Referrers(refs, h) * trusted <= cleared
  }

  lemma SkipSeen<N>(
      refs: set<Row<N>>, trusted: set<N>, missing: N, cleared: set<N>, seen: set<N>, rest: set<N>, hash: N)
    requires Walked(refs, trusted, missing, cleared, seen, rest + {hash}) && hash in seen
    ensures Walked(refs, trusted, missing, cleared, seen, rest)
  {
  }

  lemma WalkOn<N>(
      refs: set<Row<N>>, trusted: set<N>, missing: N, cleared: set<N>, seen: set<N>, rest: set<N>,
      hash: N, next: set<N>)
    requires Walked(refs, trusted, missing, cleared, seen, rest + {hash})
    requires next == cleared + Referrers(refs, hash) * trusted
    ensures Walked(refs, trusted, missing, next, seen + {hash}, rest + (next - cleared))
  {
    var rows := Within(Flip(refs), trusted);
    assert hash in Reach(rows, {missing}) by {
      if hash != missing { assert hash in Step(rows, Reach(rows, {missing})); }
    }
    forall h | h in Referrers(refs, hash) * trusted ensures h in Step(rows, Reach(rows, {missing})) {
      FlipRow(refs, hash, h);
      var up := Row(hash, h);
      assert up in rows && up.src in Reach(rows, {missing});
    }
  }

  lemma CountMore<N>(trusted: set<N>, cleared: set<N>, next: set<N>)
    requires cleared <= next <= cleared + trusted && next != cleared
    ensures |trusted - next| < |trusted - cleared|
  {
    assert trusted - next == (trusted - cleared) - (next - cleared);
    RemoveShrinks(trusted - cleared, next - cleared);
  }

  /** A finished walk has cleared exactly the referrers the recursive query names. */
  lemma WalkComplete<N>(refs: set<Row<N>>, trusted: set<N>, missing: N, cleared: set<N>, seen: set<N>)
    requires Walked(refs, trusted, missing, cleared, seen, {})
    ensures var rows := Within(Flip(refs), trusted);
            cleared == Step(rows, Reach(rows, {missing}))
  {
    var rows := Within(Flip(refs), trusted);
    forall r | r in rows && r.src in seen ensures r.dst in cleared {
      FlipRow(refs, r.src, r.dst);
      var down := Row(r.dst, r.src);
      assert down in refs && r.dst in Referrers(refs, r.src);
    }
    ReachIsLeast(rows, {missing}, seen);
  }

  // ----- the tables -----

  class Database {
    var drvHash: map<DrvId, Hash>
    var anchors: map<DrvId, Anchor>
    var edges: set<Row<DrvId>>
    var outputs: set<Output>
    var upstream: set<Output>
    var sources: set<(DrvId, Hash)>
    var paths: map<Hash, CachedPath>
    var refs: set<Row<Hash>>
    var jobs: set<Job>
    var attempts: set<Attempt>
    var nars: set<Hash>  // the NAR object store

    constructor (db: Db, objects: set<Hash>)
      ensures View() == db && nars == objects
    {
      drvHash, anchors, edges, outputs, upstream :=
        db.drvHash, db.anchors, db.edges, db.outputs, db.upstream;
      sources, paths, refs, jobs, attempts := db.sources, db.paths, db.refs, db.jobs, db.attempts;
      nars := objects;
    }

    function View(): Db
      reads this
    {
      Db(drvHash, anchors, edges, outputs, upstream, sources, paths, refs, jobs, attempts)
    }

    // ----- anchor statements -----

    method MarkEdgesCompleteForEval(e: EvalId) returns (affected: nat)
      modifies this`anchors
      ensures forall d :: d in old(anchors) && d in EvalClosure(old(View()), e) && !old(anchors)[d].edgesUnresolved
                          && (HasEdges(old(View()), d) || Job(e, d) in jobs)
                ==> d in anchors && anchors[d].edgesComplete
      ensures forall d :: d in old(anchors) ==>
                d in anchors && anchors[d] == old(anchors)[d].(edgesComplete := anchors[d].edgesComplete)
      ensures affected == |set d | d in old(anchors) && anchors[d] != old(anchors)[d]|
      ensures View() == MarkEdges(old(View()), e) && affected == |EdgesMarked(old(View()), e)|
    {
      MarkEdgesMeans(View(), e);
      affected := |EdgesMarked(View(), e)|;
      anchors := MarkEdges(View(), e).anchors;
    }

    method RequeueFailedClosureForEval(e: EvalId) returns (affected: nat)
      modifies this`anchors
      ensures forall d :: d in old(anchors) ==>
                d in anchors && anchors[d] ==
                  if d in EvalClosure(old(View()), e) && old(anchors)[d].status.Requeueable()
                     && !Reproducible(old(View()), d)
                  then old(anchors)[d].(status := Created, attempt := 0, closureComplete := false)
                  else old(anchors)[d]
      ensures View() == Thaw(old(View()), e) && affected == |Thawed(old(View()), e)|
    {
      forall d | d in anchors ensures d in Thaw(View(), e).anchors && Thaw(View(), e).anchors[d] ==
                if d in EvalClosure(View(), e) && anchors[d].status.Requeueable() && !Reproducible(View(), d)
                then anchors[d].(status := Created, attempt := 0, closureComplete := false)
                else anchors[d]
      {
        ThawExact(View(), e, d);
      }
      affected := |Thawed(View(), e)|;
      anchors := Thaw(View(), e).anchors;
    }

    /** The thaw of a new evaluation, in chunks; the chunking does not show. */
    method RequeueFailedAnchors(derivations: seq<DrvId>, chunkSize: nat)
      requires chunkSize > 0
      modifies this`anchors
      ensures View() == RequeueAnchors(old(View()), Elements(derivations))
    {
      ghost var db := View();
      var i := 0;
      RequeueNone(db);
      while i < |derivations|
        invariant 0 <= i <= |derivations|
        invariant View() == RequeueAnchors(db, Elements(derivations[..i]))
      {
        var j := if i + chunkSize <= |derivations| then i + chunkSize else |derivations|;
        var chunk := Elements(derivations[i..j]);
        RequeueNextChunk(db, derivations, i, j);
        anchors := RequeueAnchors(View(), chunk).anchors;
        i := j;
      }
      assert derivations[..i] == derivations;
    }

    method ReconcileCachedAnchorsForEval(e: EvalId) returns (touched: set<DrvId>)
      modifies this`anchors
      ensures forall d :: d in old(anchors) && d in EvalClosure(old(View()), e) && FullyCached(old(View()), d) ==>
                d in anchors && anchors[d].status.TerminalSuccess() && anchors[d].closureComplete
      ensures forall d :: d in old(anchors) && d !in touched ==> d in anchors && anchors[d] == old(anchors)[d]
      ensures forall d :: d in touched ==>
                && d in old(anchors) && d in anchors && anchors[d] != old(anchors)[d]
                && d in EvalClosure(old(View()), e) && FullyCached(old(View()), d)
      ensures UnbackedTrusted(old(View())) == {} ==> UnbackedTrusted(View()) == {}
      ensures View() == CachedReconcile(old(View()), e) && touched == CachedReconciled(old(View()), e)
    {
      forall d | d in anchors
        ensures d in CachedReconcile(View(), e).anchors
        ensures d in CachedReconciled(View(), e) <==> CachedReconcile(View(), e).anchors[d] != anchors[d]
        ensures d in EvalClosure(View(), e) && FullyCached(View(), d) ==>
                  CachedReconcile(View(), e).anchors[d].status.TerminalSuccess()
                  && CachedReconcile(View(), e).anchors[d].closureComplete
      {
        CachedReconcileMeans(View(), e, d);
      }
      if UnbackedTrusted(View()) == {} { Reconcile.CachedReconcileKeepsBacked(View(), e); }
      touched := CachedReconciled(View(), e);
      anchors := CachedReconcile(View(), e).anchors;
    }

    method ReconcileDependencyFailed(scope: Option<EvalId>) returns (changes: set<Reconcile.Transition>)
      modifies this`anchors
      ensures forall d :: d in old(anchors) ==>
                d in anchors && anchors[d] ==
                  if Swept(old(View()), scope, d) then old(anchors)[d].(status := DependencyFailed) else old(anchors)[d]
      ensures forall t :: t in changes ==> t.was.CascadeTarget() && t.now == DependencyFailed
      ensures View() == Sweep(old(View()), scope)
      ensures changes == Reconcile.Transitions(old(View()), SweepFailed(old(View()), scope), View())
    {
      forall d | d in anchors ensures Sweep(View(), scope).anchors[d] ==
                if Swept(View(), scope, d) then anchors[d].(status := DependencyFailed) else anchors[d]
      {
        SweepExactIn(View(), scope, d);
      }
      changes := Reconcile.Transitions(View(), SweepFailed(View(), scope), Sweep(View(), scope));
      anchors := Sweep(View(), scope).anchors;
    }

    method CascadeDependencyFailed(failed: DrvId) returns (changes: set<Reconcile.Transition>)
      modifies this`anchors
      ensures forall d :: d in old(anchors) ==>
                d in anchors && anchors[d] ==
                  if old(anchors)[d].status.CascadeTarget() && d != failed && failed in Reach(edges, {d})
                  then old(anchors)[d].(status := DependencyFailed) else old(anchors)[d]
      ensures forall t :: t in changes ==> t.was.CascadeTarget() && t.now == DependencyFailed
      ensures View() == Cascade(old(View()), failed)
      ensures changes == Reconcile.Transitions(old(View()), CascadeFailed(old(View()), failed), View())
    {
      forall d | d in anchors ensures Cascade(View(), failed).anchors[d] ==
                if anchors[d].status.CascadeTarget() && d != failed && failed in Reach(edges, {d})
                then anchors[d].(status := DependencyFailed) else anchors[d]
      {
        CascadeExact(View(), failed, d);
      }
      changes := Reconcile.Transitions(View(), CascadeFailed(View(), failed), Cascade(View(), failed));
      anchors := Cascade(View(), failed).anchors;
    }

    method PromoteReady() returns (changes: set<Reconcile.Transition>)
      modifies this`anchors
      ensures UnpromotedReady(View()) == {}
      ensures forall t :: t in changes ==> t.was == Created && t.now == Queued
      ensures forall d :: d in old(anchors) ==>
                d in anchors && anchors[d] ==
                  if Promotable(old(View()), d) then old(anchors)[d].(status := Queued) else old(anchors)[d]
      ensures View() == Promote(old(View()))
      ensures changes == Reconcile.Transitions(old(View()), UnpromotedReady(old(View())), View())
    {
      Reconcile.PromoteSettles(View());
      changes := Reconcile.Transitions(View(), UnpromotedReady(View()), Promote(View()));
      anchors := Promote(View()).anchors;
    }

    // ----- flag fixpoints -----

    /** One CLEAR or SET statement of a family, on the rows of its table. */
    method Execute(family: Family, scope: Option<EvalId>, v: bool) returns (rowsAffected: nat)
      modifies this`anchors, this`paths
      ensures View() == OneRound(old(View()), family, scope, v)
      ensures Advances(old(View()), View(), family, scope, v, rowsAffected)
    {
      ghost var db := View();
      match family {
        case ClosureFamily =>
          var bound := AnchorBound(View(), scope);
          var rows := if v then ClosureSet(View(), bound) else ClosureCleared(View(), bound);
          anchors, rowsAffected := WriteClosure(anchors, rows, v), |rows|;
          ClosureAdvances(db, View(), scope, v, rows);
        case DrvFamily =>
          var bound := AnchorBound(View(), scope);
          var rows := if v then DrvSet(View(), bound) else DrvCleared(View(), bound);
          anchors, rowsAffected := WriteDrv(anchors, rows, v), |rows|;
          DrvAdvances(db, View(), scope, v, rows);
        case PathFamily =>
          var bound := PathBound(View(), scope);
          var rows := if v then PathsSet(View(), bound) else PathsCleared(View(), bound);
          paths, rowsAffected := WritePaths(paths, rows, v), |rows|;
          PathsAdvance(db, View(), scope, v, rows);
      }
    }

    /** Repeat a statement on the table until it affects no row. */
    method RunToConvergence(family: Family, scope: Option<EvalId>, v: bool)
      modifies this`anchors, this`paths
      ensures View() == Converge(old(View()), family, scope, v)
    {
      while true
        invariant Converge(View(), family, scope, v) == Converge(old(View()), family, scope, v)
        decreases RowsLeft(View(), family, v)
      {
        var changed := Execute(family, scope, v);
        if changed == 0 { break; }
      }
    }

    /** CLEAR to convergence, then SET to convergence. */
    method RunBidirectionalFixpoint(family: Family, scope: Option<EvalId>)
      modifies this`anchors, this`paths
      ensures View() == Fixpoint(old(View()), family, scope)
    {
      RunToConvergence(family, scope, false);
      BothDirections(old(View()), View(), family, scope);
      RunToConvergence(family, scope, true);
    }

    method ReconcileClosureComplete(scope: Option<EvalId>)
      modifies this`anchors, this`paths
      ensures View() == Reconcile.ReconcileClosure(old(View()), scope)
    {
      RunBidirectionalFixpoint(ClosureFamily, scope);
    }

    method ReconcileDrvClosureCached(scope: Option<EvalId>)
      modifies this`anchors, this`paths
      ensures View() == Reconcile.ReconcileDrv(old(View()), scope)
    {
      RunBidirectionalFixpoint(DrvFamily, scope);
    }

    method ReconcileCachedPathClosureComplete(scope: Option<EvalId>)
      modifies this`anchors, this`paths
      ensures View() == Reconcile.ReconcilePaths(old(View()), scope)
    {
      RunBidirectionalFixpoint(PathFamily, scope);
    }

    /** Mark the satisfied anchors of the frontier. */
    method MarkFrontier(frontier: set<DrvId>, ghost start: Db, ghost flags: set<DrvId>) returns (newly: set<DrvId>)
      requires ClosureAt(start, View(), flags)
      modifies this`anchors
      ensures newly == Newly(ClosureSystem(start), flags, frontier)
      ensures ClosureAt(start, View(), flags + newly)
    {
      FrontierRound(start, View(), flags, frontier);
      newly := FrontierMarked(View(), frontier);
      ClosureWritten(start, View(), flags, newly);
      anchors := WriteClosure(anchors, newly, true);
    }

    /** Mark the frontier, then move it to the dependents of what was marked. */
    method RunRipple(first: set<DrvId>, ghost start: Db, ghost low: set<DrvId>)
      requires ClosureAt(start, View(), low)
      modifies this`anchors
      ensures ClosureAt(start, View(), FlagFixpoint.Ripple(ClosureSystem(start), start.edges, low, first))
    {
      var frontier := first;
      ghost var flags := low;
      while frontier != {}
        invariant ClosureAt(start, View(), flags)
        invariant FlagFixpoint.Ripple(ClosureSystem(start), start.edges, flags, frontier)
                  == FlagFixpoint.Ripple(ClosureSystem(start), start.edges, low, first)
        decreases |ClosureSystem(start).local - flags|
      {
        var newly := MarkFrontier(frontier, start, flags);
        if newly == {} {
          assert flags + newly == flags;
          break;
        }
        SetShrinks(ClosureSystem(start).local, flags, newly);
        flags := flags + newly;
        frontier := Step(Flip(edges), newly);
      }
      assert frontier == {} ==> Newly(ClosureSystem(start), flags, frontier) == {};
    }

    method PropagateClosureComplete(completed: DrvId)
      modifies this`anchors
      ensures View() == Ripple.Propagate(old(View()), completed)
    {
      ClosureFlagLens(View(), {}, {});
      RunRipple(Ripple.FirstFrontier(View(), completed), View(), ClosureFlags(View()));
    }

    // ----- one anchor's status -----

    method PromoteDependents(completed: DrvId)
      modifies this`anchors
      ensures UnpromotedReady(View()) == UnpromotedReady(old(View())) - Transition.Dependents(View(), completed)
      ensures forall d :: d in old(anchors) ==>
                d in anchors && anchors[d] == Transition.DependentRow(old(View()), completed, d)
      ensures View() == Transition.PromoteDependents(old(View()), completed)
    {
      Transition.PromoteDependentsMeans(View(), completed, Transition.PromoteDependents(View(), completed));
      anchors := Transition.FailDoomed(View(), completed).anchors;
      anchors := Transition.PromoteAmong(View(), Transition.Dependents(View(), completed)).anchors;
    }

    /** The guarded update of an anchor, and what it sets off. */
    method UpdateDerivationBuildStatus(d: DrvId, s: BuildStatus)
      requires d in anchors
      modifies this`anchors
      ensures Transition.Updated(old(View()), d, s, View())
      ensures View() == Transition.UpdateStatus(old(View()), d, s)
    {
      Transition.UpdateMeans(View(), d, s, Transition.UpdateStatus(View(), d, s));
      if anchors[d].status == s || !Transition.ValidMove(anchors[d].status, s) { return; }
      if s.TerminalSuccess() {
        SucceedAndPromote(d, s);
      } else if s.TerminalFailure() {
        FailAndCascade(d, s);
      } else {
        anchors := SetStatus(View(), {d}, s).anchors;
      }
    }

    method SucceedAndPromote(d: DrvId, s: BuildStatus)
      modifies this`anchors
      ensures View() == Transition.PromoteDependents(Transition.Succeed(old(View()), d, s), d)
    {
      anchors := SetStatus(View(), {d}, s).anchors;
      PropagateClosureComplete(d);
      PromoteDependents(d);
    }

    method FailAndCascade(d: DrvId, s: BuildStatus)
      modifies this`anchors
      ensures View() == Cascade(SetStatus(old(View()), {d}, s), d)
    {
      anchors := SetStatus(View(), {d}, s).anchors;
      var changes := CascadeDependencyFailed(d);
    }

    // ----- withdrawing trust -----

    /** The three clears that follow a deletion, for one chunk of hashes. */
    method ClearGateFlagsForChunk(hashes: set<Hash>)
      modifies this`anchors, this`paths
      ensures forall d :: d in anchors && d in drvHash && drvHash[d] in hashes ==> !anchors[d].drvClosureCached
      ensures forall o :: o in outputs && o.hash in hashes && o.derivation in anchors ==>
                !anchors[o.derivation].closureComplete
      ensures forall before :: PathsSound(before) && old(View()) == DeletePaths(before, hashes) ==> PathsSound(View())
      ensures View() == ClearGateFlags(old(View()), hashes)
    {
      ClearedMeans(View(), hashes);
      var ownDrv := set d | d in drvHash && drvHash[d] in hashes;
      anchors := WithDrv(View(), DrvFlags(View()) - ownDrv).anchors;
      anchors := ClearClosure(View(), ProducersOf(View(), hashes)).anchors;
      paths := ClearDirty(View(), hashes).paths;
    }

    /** Chunk by chunk; the chunking does not show. */
    method ClearGateFlagsForHashes(hashes: seq<Hash>, chunkSize: nat)
      requires chunkSize > 0
      modifies this`anchors, this`paths
      ensures View() == ClearGateFlags(old(View()), Elements(hashes))
    {
      ghost var db := View();
      var i := 0;
      ClearGateFlagsNone(db);
      while i < |hashes|
        invariant 0 <= i <= |hashes|
        invariant View() == ClearGateFlags(db, Elements(hashes[..i]))
      {
        var j := if i + chunkSize <= |hashes| then i + chunkSize else |hashes|;
        ClearGateFlagsNextChunk(db, hashes, i, j);
        ClearGateFlagsForChunk(Elements(hashes[i..j]));
        i := j;
      }
      assert hashes[..i] == hashes;
    }

    /** Drop trust up the referrer chain of a missing path. */
    method ClearClosureCompleteForReferrers(missing: Hash) returns (cleared: nat)
      modifies this`anchors, this`paths
      ensures View() == ClearReferrers(old(View()), missing)
      ensures cleared == |ReferrersCleared(old(View()), missing)|
    {
      var referrers := WalkReferrers(refs, PathFlags(View()), missing);
      var producers := ProducersOf(View(), referrers);
      paths := WithPaths(View(), PathFlags(View()) - referrers).paths;
      anchors := ClearClosure(View(), producers).anchors;
      cleared := |referrers|;
    }

    /** Purge a cached output and reset its trusted producers; keep a present artifact
        that nothing rebuilds. */
    method DemoteCachedOutput(hash: Hash) returns (demoted: set<Output>)
      modifies this
      ensures var present := old(ProducersOf(View(), {hash}) == {} && hash in nars);
              && View() == DemoteOutput(old(View()), hash, present)
              && nars == (if present then old(nars) else old(nars) - {hash})
      ensures demoted == Reconcile.OutputsOf(old(View()), {hash})
    {
      demoted := Reconcile.OutputsOf(View(), {hash});
      var hasProducer := ProducersOf(View(), {hash}) != {};
      var objectPresent := !hasProducer && hash in nars;
      upstream := DropUpstream(View(), hash).upstream;
      if PreserveMissing(hasProducer, objectPresent) {
        return;
      }
      anchors := ResetProducers(View(), hash).anchors;
      var kept := DeletePaths(View(), {hash});
      paths, refs := kept.paths, kept.refs;
      nars := nars - {hash};
    }

    method DemoteAndClear(hash: Hash) returns (demoted: set<Output>)
      requires ProducersOf(View(), {hash}) != {}
      modifies this
      ensures View() == DemoteOne(old(View()), hash)
      ensures demoted == Reconcile.OutputsOf(old(View()), {hash})
    {
      demoted := DemoteCachedOutput(hash);
      var _ := ClearClosureCompleteForReferrers(hash);
    }

    /** Demote one more of the listed outputs. */
    method DemoteNextOutput(hash: Hash, ghost db: Db, ghost order: seq<Hash>) returns (demoted: set<Output>)
      requires View() == DemoteAll(db, order) && hash in UnbackedTrusted(db)
      modifies this
      ensures View() == DemoteAll(db, order + [hash])
      ensures demoted == Reconcile.OutputsOf(db, {hash})
    {
      DemoteNext(db, order, hash);
      demoted := DemoteAndClear(hash);
    }

    /** Demote every unbacked output of a trusted producer, in the order the query gives. */
    method DemoteUnbackedTrustedOutputs() returns (reset: nat, ghost order: seq<Hash>)
      modifies this
      ensures Elements(order) == UnbackedTrusted(old(View()))
      ensures View() == DemoteAll(old(View()), order)
      ensures reset == |Reconcile.OutputsOf(old(View()), UnbackedTrusted(old(View())))|
    {
      ghost var db := View();
      var all := UnbackedTrusted(View());
      var done: set<Hash> := {};
      reset, order := 0, [];
      assert Reconcile.OutputsOf(db, {}) == {};
      while done != all
        invariant done <= all && Elements(order) == done
        invariant View() == DemoteAll(db, order)
        invariant reset == |Reconcile.OutputsOf(db, done)|
        decreases |all - done|
      {
        var hash :| hash in all - done;
        NextDone(db, all, done, order, hash);
        var demoted := DemoteNextOutput(hash, db, order);
        reset, order, done := reset + |demoted|, order + [hash], done + {hash};
      }
    }

    // ----- the pipeline -----

    /** The steps before the flag fixpoints. */
    method Heal(scope: Reconcile.ReconcileScope)
      returns (marked: nat, thawed: nat, demoted: nat, cached: nat, ghost order: seq<Hash>)
      modifies this
      ensures scope.Demotes() ==> Elements(order) == UnbackedTrusted(Reconcile.EdgesStep(old(View()), scope))
      ensures View() == Reconcile.Healed(old(View()), scope, order)
      ensures var r := Reconcile.Report(old(View()), scope, order);
              && marked == r.edgesMarked && thawed == r.thawed
              && demoted == r.demotedProducers && cached == r.cachedReconciled
    {
      marked, thawed, demoted, cached, order := 0, 0, 0, 0, [];
      var ev := scope.Evaluation();
      if ev.Some? { marked := MarkEdgesCompleteForEval(ev.value); }
      if scope.Unstick? { thawed := RequeueFailedClosureForEval(scope.e); }
      if scope.Demotes() { demoted, order := DemoteUnbackedTrustedOutputs(); }
      if ev.Some? {
        var touched := ReconcileCachedAnchorsForEval(ev.value);
        cached := |touched|;
      }
    }

    /** The pass, with what it reports. */
    method ReconcileBuildGraph(scope: Reconcile.ReconcileScope)
      returns (report: Reconcile.ReconcileReport, ghost order: seq<Hash>)
      modifies this
      ensures scope.Demotes() ==> Elements(order) == UnbackedTrusted(Reconcile.EdgesStep(old(View()), scope))
      ensures PassScopes.Settled(scope, View()) && PassScopes.PathsAfter(old(View()), scope, View())
      ensures PassScopes.StatusesAre(old(View()), scope, View())
      ensures View() == Reconcile.ReconcileBuildGraph(old(View()), scope, order)
      ensures report == Reconcile.Report(old(View()), scope, order)
    {
      var marked, thawed, demoted, cached;
      marked, thawed, demoted, cached, order := Heal(scope);
      var ev := scope.Evaluation();
      var failed: set<Reconcile.Transition> := {};
      if scope.RunsPathFixpoint() { ReconcileCachedPathClosureComplete(ev); }
      if scope.RunsAnchorFixpoints() {
        ReconcileDrvClosureCached(ev);
        ReconcileClosureComplete(ev);
      }
      if scope.RunsAnchorFixpoints() { failed := ReconcileDependencyFailed(ev); }
      var promoted := PromoteReady();
      report := Reconcile.ReconcileReport(marked, thawed, demoted, cached, failed, promoted);
      OrderOfMarked(old(View()), scope, order);
      PassMeans(old(View()), scope, order, View());
    }
  }

  /** The edge marks the pass sets first leave the unbacked outputs what they were. */
  lemma OrderOfMarked(db: Db, scope: Reconcile.ReconcileScope, order: seq<Hash>)
    requires scope.Demotes() ==> Elements(order) == UnbackedTrusted(Reconcile.EdgesStep(db, scope))
    ensures PassScopes.OrderFits(db, scope, order)
  {
    assert UnbackedTrusted(Reconcile.EdgesStep(db, scope)) == UnbackedTrusted(db);
  }

  lemma PassMeans(db: Db, scope: Reconcile.ReconcileScope, order: seq<Hash>, w: Db)
    requires PassScopes.OrderFits(db, scope, order) && w == Reconcile.ReconcileBuildGraph(db, scope, order)
    ensures PassScopes.Settled(scope, w) && PassScopes.PathsAfter(db, scope, w)
    ensures PassScopes.StatusesAre(db, scope, w)
  {
    PassScopes.PassSettled(db, scope, order, w);
    PassScopes.PassPathTables(db, scope, order, w);
    PassScopes.PassStatuses(db, scope, order, w);
  }

  /** After the clears no flag rests on a deleted artifact. */
  lemma ClearedMeans(db: Db, hashes: set<Hash>)
    ensures var w := ClearGateFlags(db, hashes);
            && (forall d :: d in w.anchors && d in w.drvHash && w.drvHash[d] in hashes ==>
                  !w.anchors[d].drvClosureCached)
            && (forall o :: o in w.outputs && o.hash in hashes && o.derivation in w.anchors ==>
                  !w.anchors[o.derivation].closureComplete)
            && (forall before :: PathsSound(before) && db == DeletePaths(before, hashes) ==> PathsSound(w))
  {
    ClearGateFlagsRows(db, hashes);
    forall before | PathsSound(before) && db == DeletePaths(before, hashes)
      ensures PathsSound(ClearGateFlags(db, hashes))
    {
      DeletePreservesSound(before, hashes);
    }
    forall o | o in db.outputs && o.hash in hashes ensures o.derivation in ProducersOf(db, hashes) {}
  }

  /** The loop's demotion of one more hash: it has a producer, so it is not preserved. */
  lemma DemoteNext(db: Db, order: seq<Hash>, hash: Hash)
    requires hash in UnbackedTrusted(db)
    ensures ProducersOf(DemoteAll(db, order), {hash}) != {}
    ensures DemoteAll(db, order + [hash]) == DemoteOne(DemoteAll(db, order), hash)
    ensures Reconcile.OutputsOf(DemoteAll(db, order), {hash}) == Reconcile.OutputsOf(db, {hash})
  {
    DemoteAllFacts(db, order);
    var o :| o in db.outputs && o.hash == hash;
    assert o.derivation in ProducersOf(DemoteAll(db, order), {hash});
    assert (order + [hash])[..|order + [hash]| - 1] == order;
  }

  lemma OutputsOfOneMore(db: Db, hs: set<Hash>, h: Hash)
    requires h !in hs
    ensures |Reconcile.OutputsOf(db, hs + {h})|
            == |Reconcile.OutputsOf(db, hs)| + |Reconcile.OutputsOf(db, {h})|
  {
    assert Reconcile.OutputsOf(db, hs + {h}) == Reconcile.OutputsOf(db, hs) + Reconcile.OutputsOf(db, {h});
  }

  lemma NextDone(db: Db, all: set<Hash>, done: set<Hash>, order: seq<Hash>, hash: Hash)
    requires done <= all && Elements(order) == done && hash in all && hash !in done
    ensures Elements(order + [hash]) == done + {hash}
    ensures |all - (done + {hash})| < |all - done|
    ensures |Reconcile.OutputsOf(db, done + {hash})|
            == |Reconcile.OutputsOf(db, done)| + |Reconcile.OutputsOf(db, {hash})|
  {
    OutputsOfOneMore(db, done, hash);
    ElementsAppend(order, [hash]);
    RemoveShrinks(all - done, {hash});
    assert all - (done + {hash}) == (all - done) - {hash};
  }

  lemma ClearGateFlagsNone(db: Db)
    ensures ClearGateFlags(db, Elements([])) == db
  {
    ClearGateFlagsRows(db, {});
    ClearGateFlagsPaths(db, {});
    ReachIsLeast(TrustedReferrers(db), {}, {});
    PathFlagLens(db, {}, {});
    assert PathFlags(db) - Dirty(db, {}) == PathFlags(db);
    assert ClearGateFlags(db, {}).anchors == db.anchors;
    assert Elements<Hash>([]) == {};
  }

  lemma ClearGateFlagsNextChunk(db: Db, hs: seq<Hash>, i: nat, j: nat)
    requires i <= j <= |hs|
    ensures ClearGateFlags(ClearGateFlags(db, Elements(hs[..i])), Elements(hs[i..j]))
            == ClearGateFlags(db, Elements(hs[..j]))
  {
    ClearGateFlagsChunks(db, Elements(hs[..i]), Elements(hs[i..j]));
    ElementsAppend(hs[..i], hs[i..j]);
    assert hs[..j] == hs[..i] + hs[i..j];
  }

  lemma RequeueNone(db: Db)
    ensures RequeueAnchors(db, Elements([])) == db
  {
    assert RequeueAnchors(db, {}).anchors == db.anchors;
    assert Elements<DrvId>([]) == {};
  }

  lemma RequeueNextChunk(db: Db, ds: seq<DrvId>, i: nat, j: nat)
    requires i <= j <= |ds|
    ensures RequeueAnchors(RequeueAnchors(db, Elements(ds[..i])), Elements(ds[i..j]))
            == RequeueAnchors(db, Elements(ds[..j]))
  {
    RequeueChunks(db, Elements(ds[..i]), Elements(ds[i..j]));
    ElementsAppend(ds[..i], ds[i..j]);
    assert ds[..j] == ds[..i] + ds[i..j];
  }
}
