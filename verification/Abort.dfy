/** Aborting evaluations, one at a time or all at once after a restart. */
module Abort {
  import opened Walks
  import opened Tables
  import opened Wrappers

  datatype EvalStatus =
    | EvalQueued | Fetching | EvaluatingFlake | EvaluatingDerivation | EvalBuilding | Waiting
    | EvalCompleted | EvalFailed | EvalAborted
  {
    predicate Active() { !(EvalCompleted? || EvalFailed? || EvalAborted?) }

    /** In flight on a worker, before any build. */
    predicate PreBuild() { Fetching? || EvaluatingFlake? || EvaluatingDerivation? }
  }

  datatype ProjectId = ProjectId(uuid: nat)
  datatype EvalRow = EvalRow(status: EvalStatus, project: Option<ProjectId>)
  datatype Kind = Hard | Soft

  datatype Work = Work(
    evals: map<EvalId, EvalRow>,
    jobs: set<Job>,
    status: map<DrvId, BuildStatus>,
    attempts: map<nat, Outcome>,
    forced: set<ProjectId>)

  predicate Abortable(s: BuildStatus) { s == Created || s == Queued || s == Building }

  predicate IsActive(w: Work, e: EvalId) { e in w.evals && w.evals[e].status.Active() }

  /** The derivations that a live evaluation needs. */
  function Live(w: Work): set<DrvId> { set j | j in w.jobs && IsActive(w, j.evaluation) :: j.derivation }

  function Driven(w: Work, es: set<EvalId>): set<DrvId> {
    set j | j in w.jobs && j.evaluation in es :: j.derivation
  }

  function MarkAborted(w: Work, es: set<EvalId>): Work {
    w.(evals := map e | e in w.evals :: if e in es then w.evals[e].(status := EvalAborted) else w.evals[e])
  }

  function AbortRows(status: map<DrvId, BuildStatus>, ds: set<DrvId>): map<DrvId, BuildStatus> {
    map d | d in status :: if d in ds then Aborted else status[d]
  }

  function AbortAnchors(w: Work, ds: set<DrvId>): Work {
    w.(status := AbortRows(w.status, ds))
  }

  /** The active anchors an evaluation needs. */
  function ActiveAnchors(w: Work, e: EvalId): set<DrvId> {
    set d | d in Driven(w, {e}) && d in w.status && Abortable(w.status[d])
  }

  /** Those of `ds` that a live evaluation other than `e` needs as well. */
  function SharedAnchors(w: Work, e: EvalId, ds: set<DrvId>): set<DrvId> {
    set j | j in w.jobs && j.derivation in ds && j.evaluation != e && IsActive(w, j.evaluation) :: j.derivation
  }

  function HardAbort(w: Work, e: EvalId): Work {
    if !IsActive(w, e) then w
    else
      var m := MarkAborted(w, {e});
      var active := ActiveAnchors(m, e);
      AbortAnchors(m, active - SharedAnchors(m, e, active))
  }

  function SoftAbort(w: Work, e: EvalId): Work {
    if !IsActive(w, e) then w else MarkAborted(w, {e})
  }

  /** The one statement of the restart path: the anchors of `es` that no live evaluation needs. */
  function Orphaned(w: Work, es: set<EvalId>): set<DrvId> {
    set d | d in Driven(w, es) && d in w.status && Abortable(w.status[d]) && d !in Live(w)
  }

  function BulkAbort(w: Work, es: set<EvalId>): Work {
    var m := MarkAborted(w, es);
    AbortAnchors(m, Orphaned(m, es))
  }

  function HardAborts(w: Work, es: seq<EvalId>): Work {
    if es == [] then w else HardAbort(HardAborts(w, es[..|es| - 1]), es[|es| - 1])
  }

  // ----- one evaluation -----

  /** An anchor still to be built or being built. */
  predicate InProgress(s: BuildStatus) { s in {Created, Queued, Building} }

  /** An evaluation that has not ended. */
  predicate InFlight(w: Work, e: EvalId) {
    e in w.evals && w.evals[e].status in
      {EvalQueued, Fetching, EvaluatingFlake, EvaluatingDerivation, EvalBuilding, Waiting}
  }

  /** An evaluation on a worker that has not come to its builds. */
  predicate Evaluating(w: Work, e: EvalId) {
    e in w.evals && w.evals[e].status in {Fetching, EvaluatingFlake, EvaluatingDerivation}
  }

  /** Which statuses count as active, as in flight before any build, and as in progress. */
  lemma StatusSets(w: Work, e: EvalId, s: BuildStatus)
    ensures IsActive(w, e) <==> InFlight(w, e)
    ensures e in PreBuildEvals(w) <==> Evaluating(w, e)
    ensures Abortable(s) <==> InProgress(s)
  {
  }

  /** What one hard abort does to one anchor row, in both directions. */
  lemma HardAbortRow(w: Work, e: EvalId, d: DrvId)
    requires IsActive(w, e) && d in w.status
    ensures d in HardAbort(w, e).status
    ensures HardAbort(w, e).status[d] ==
            if InProgress(w.status[d]) && Job(e, d) in w.jobs && !WantedBesides(w, {e}, d) then Aborted else w.status[d]
  {
    var m := MarkAborted(w, {e});
    var active := ActiveAnchors(m, e);
    assert d in Driven(m, {e}) <==> Job(e, d) in w.jobs by {
      assert Job(e, d) in w.jobs ==> Job(e, d).evaluation in {e};
    }
    if d in active {
      SharedRow(w, e, d, m, active);
    }
  }

  lemma SharedRow(w: Work, e: EvalId, d: DrvId, m: Work, active: set<DrvId>)
    requires m == MarkAborted(w, {e}) && d in active
    ensures d in SharedAnchors(m, e, active) <==> WantedBesides(w, {e}, d)
  {
    if d in SharedAnchors(m, e, active) {
      var j :| j in m.jobs && j.derivation == d && j.evaluation != e && IsActive(m, j.evaluation);
      assert Job(j.evaluation, d) in w.jobs;
    }
    if WantedBesides(w, {e}, d) {
      var f :| f !in {e} && Job(f, d) in w.jobs && IsActive(w, f);
      assert IsActive(m, f) && Job(f, d).derivation in active;
    }
  }

  /** A live evaluation outside `es` needs the derivation. */
  ghost predicate WantedBesides(w: Work, es: set<EvalId>, d: DrvId) {
    exists e :: e !in es && Job(e, d) in w.jobs && IsActive(w, e)
  }

  ghost predicate DrivenBy(w: Work, es: set<EvalId>, d: DrvId) {
    exists e :: e in es && Job(e, d) in w.jobs
  }

  /** What the bulk statement does to one anchor row, in both directions. */
  lemma BulkAbortRow(w: Work, es: set<EvalId>, d: DrvId)
    requires d in w.status
    ensures d in BulkAbort(w, es).status
    ensures BulkAbort(w, es).status[d] ==
            if InProgress(w.status[d]) && DrivenBy(w, es, d) && !WantedBesides(w, es, d) then Aborted else w.status[d]
  {
    var m := MarkAborted(w, es);
    assert d in Driven(m, es) <==> DrivenBy(w, es, d) by {
      if d in Driven(m, es) {
        var j :| j in m.jobs && j.evaluation in es && j.derivation == d;
        assert Job(j.evaluation, d) in w.jobs;
      }
      if DrivenBy(w, es, d) {
        var e :| e in es && Job(e, d) in w.jobs;
        assert Job(e, d).derivation == d;
      }
    }
    LiveAfterMark(w, es, d);
  }

  lemma LiveAfterMark(w: Work, es: set<EvalId>, d: DrvId)
    ensures d in Live(MarkAborted(w, es)) <==> WantedBesides(w, es, d)
  {
    var m := MarkAborted(w, es);
    if d in Live(m) {
      var j :| j in m.jobs && IsActive(m, j.evaluation) && j.derivation == d;
      assert Job(j.evaluation, d) in w.jobs;
    }
    if WantedBesides(w, es, d) {
      var e :| e !in es && Job(e, d) in w.jobs && IsActive(w, e);
      assert IsActive(m, e) && Job(e, d).derivation == d;
    }
  }

  // ----- many evaluations -----

  function ActiveOf(w: Work, es: seq<EvalId>): set<EvalId> { set e | e in es && IsActive(w, e) }

  /** Aborting evaluations one by one, in any order and with repeats, is the one bulk
      statement over those of them that were active. */
  lemma {:induction false} BulkIsSequential(w: Work, es: seq<EvalId>)
    ensures HardAborts(w, es) == BulkAbort(w, ActiveOf(w, es))
  {
    if es == [] {
      BulkNothing(w);
    } else {
      var init, e := es[..|es| - 1], es[|es| - 1];
      BulkIsSequential(w, init);
      assert es == init + [e];
      var before := ActiveOf(w, init);
      if IsActive(w, e) {
        assert ActiveOf(w, es) == before + {e};
      } else {
        assert ActiveOf(w, es) == before;
      }
      if e in before || !IsActive(w, e) {
        assert !IsActive(BulkAbort(w, before), e);
        if IsActive(w, e) { assert before + {e} == before; }
      } else {
        OneMore(w, before, e);
      }
    }
  }

  lemma BulkNothing(w: Work)
    ensures BulkAbort(w, {}) == w
  {
    var m := MarkAborted(w, {});
    assert m == w;
    assert AbortAnchors(w, {}) == w;
    assert Orphaned(w, {}) == {};
  }

  lemma OneMore(w: Work, es: set<EvalId>, e: EvalId)
    requires e !in es && IsActive(w, e)
    ensures HardAbort(BulkAbort(w, es), e) == BulkAbort(w, es + {e})
  {
    var b := BulkAbort(w, es);
    var one, all := HardAbort(b, e), BulkAbort(w, es + {e});
    assert IsActive(b, e);
    assert one.evals == all.evals;
    forall d | d in w.status ensures one.status[d] == all.status[d] {
      OneMoreRow(w, es, e, d, b);
    }
    assert one.status == all.status;
  }

  lemma OneMoreRow(w: Work, es: set<EvalId>, e: EvalId, d: DrvId, b: Work)
    requires e !in es && IsActive(w, e) && d in w.status && b == BulkAbort(w, es)
    ensures d in HardAbort(b, e).status && d in BulkAbort(w, es + {e}).status
    ensures HardAbort(b, e).status[d] == BulkAbort(w, es + {e}).status[d]
  {
    BulkAbortRow(w, es, d);
    BulkAbortRow(w, es + {e}, d);
    HardAbortRow(b, e, d);
    Besides(w, es, e, d, b);
    if Job(e, d) in w.jobs {
      assert DrivenBy(w, es + {e}, d);
      assert WantedBesides(w, es, d);
    } else {
      SameWithout(w, es, e, d);
    }
  }

  /** After the bulk abort of `es`, who besides `e` wants a row. */
  lemma Besides(w: Work, es: set<EvalId>, e: EvalId, d: DrvId, b: Work)
    requires b == BulkAbort(w, es)
    ensures WantedBesides(b, {e}, d) <==> WantedBesides(w, es + {e}, d)
  {
    if WantedBesides(b, {e}, d) {
      var f :| f !in {e} && Job(f, d) in b.jobs && IsActive(b, f);
      assert f !in es + {e} && Job(f, d) in w.jobs && IsActive(w, f);
    }
    if WantedBesides(w, es + {e}, d) {
      var f :| f !in es + {e} && Job(f, d) in w.jobs && IsActive(w, f);
      assert f !in {e} && Job(f, d) in b.jobs && IsActive(b, f);
    }
  }

  lemma SameWithout(w: Work, es: set<EvalId>, e: EvalId, d: DrvId)
    requires Job(e, d) !in w.jobs
    ensures DrivenBy(w, es + {e}, d) <==> DrivenBy(w, es, d)
    ensures WantedBesides(w, es + {e}, d) <==> WantedBesides(w, es, d)
  {
    if DrivenBy(w, es, d) {
      var f :| f in es && Job(f, d) in w.jobs;
      assert f in es + {e};
    }
    if WantedBesides(w, es, d) {
      var f :| f !in es && Job(f, d) in w.jobs && IsActive(w, f);
      assert f !in es + {e};
    }
  }

  function AbortOne(w: Work, e: EvalId, kind: Kind): Work {
    if kind == Hard then HardAbort(w, e) else SoftAbort(w, e)
  }

  function Aborts(w: Work, steps: seq<(EvalId, Kind)>): Work {
    if steps == [] then w
    else AbortOne(Aborts(w, steps[..|steps| - 1]), steps[|steps| - 1].0, steps[|steps| - 1].1)
  }

  /** No sequence of aborts, hard and soft mixed, stops an anchor that an evaluation still
      active at the end needs; and it leaves alone every row that was not in progress. */
  lemma {:induction false} AbortsKeepWanted(w: Work, steps: seq<(EvalId, Kind)>, d: DrvId)
    requires d in w.status
    ensures d in Aborts(w, steps).status
    ensures Aborts(w, steps).status[d] == w.status[d] || Aborts(w, steps).status[d] == Aborted
    ensures d in Live(Aborts(w, steps)) || !Abortable(w.status[d]) ==> Aborts(w, steps).status[d] == w.status[d]
  {
    if steps != [] {
      var before := Aborts(w, steps[..|steps| - 1]);
      AbortsKeepWanted(w, steps[..|steps| - 1], d);
      AbortOneRow(before, steps[|steps| - 1].0, steps[|steps| - 1].1, d);
    }
  }

  lemma AbortOneRow(w: Work, e: EvalId, kind: Kind, d: DrvId)
    requires d in w.status
    ensures Live(AbortOne(w, e, kind)) <= Live(w)
    ensures d in AbortOne(w, e, kind).status
    ensures AbortOne(w, e, kind).status[d] == w.status[d] || AbortOne(w, e, kind).status[d] == Aborted
    ensures d in Live(AbortOne(w, e, kind)) || !Abortable(w.status[d]) ==> AbortOne(w, e, kind).status[d] == w.status[d]
  {
    if IsActive(w, e) && kind == Hard {
      HardAbortRow(w, e, d);
      LiveAfterMark(w, {e}, d);
      assert Live(HardAbort(w, e)) == Live(MarkAborted(w, {e}));
    }
  }

  // ----- restart -----

  function PreBuildEvals(w: Work): set<EvalId> { set e | e in w.evals && w.evals[e].status.PreBuild() }

  function ProjectsOf(w: Work, es: set<EvalId>): set<ProjectId> {
    set e | e in es && e in w.evals && w.evals[e].project.Some? :: w.evals[e].project.value
  }

  /** Orphaned attempts end, building anchors queue again. */
  function Requeued(w: Work): Work {
    w.(attempts := map a | a in w.attempts :: if w.attempts[a] == Running then AttemptAborted else w.attempts[a],
       status := map d | d in w.status :: if w.status[d] == Building then Queued else w.status[d])
  }

  function Recovered(w: Work): Work {
    var es := PreBuildEvals(w);
    BulkAbort(Requeued(w), es).(forced := w.forced + ProjectsOf(w, es))
  }

  /** Recovery is the requeue followed by a hard abort of each pre-build evaluation, in
      any order, apart from the projects it marks for re-evaluation. */
  lemma RecoveryIsHardAborts(w: Work, order: seq<EvalId>)
    requires Elements(order) == PreBuildEvals(w)
    ensures Recovered(w) == HardAborts(Requeued(w), order).(forced := w.forced + ProjectsOf(w, PreBuildEvals(w)))
  {
    BulkIsSequential(Requeued(w), order);
    assert ActiveOf(Requeued(w), order) == PreBuildEvals(w) by {
      assert forall e :: e in order <==> e in Elements(order);
    }
  }

  /** Nothing is left in flight after a restart, an anchor some live evaluation needs is
      queued or untouched, and a second recovery changes nothing. */
  lemma RecoverySettles(w: Work)
    ensures PreBuildEvals(Recovered(w)) == {}
    ensures forall a :: a in Recovered(w).attempts ==> Recovered(w).attempts[a] != Running
    ensures forall d :: d in Recovered(w).status ==> Recovered(w).status[d] != Building
    ensures forall d :: d in w.status && d in Live(Recovered(w)) ==>
              Recovered(w).status[d] == if w.status[d] == Building then Queued else w.status[d]
    ensures Recovered(Recovered(w)) == Recovered(w)
  {
    var q, r := Requeued(w), Recovered(w);
    assert PreBuildEvals(r) == {};
    forall d | d in w.status ensures d in r.status && r.status[d] != Building
      ensures d in Live(r) ==> r.status[d] == q.status[d]
    {
      BulkAbortRow(q, PreBuildEvals(w), d);
      LiveAfterMark(q, PreBuildEvals(w), d);
      assert Live(r) == Live(MarkAborted(q, PreBuildEvals(w)));
    }
    assert r.status.Keys == w.status.Keys;
    assert Requeued(r) == r;
    BulkNothing(r);
    assert ProjectsOf(r, {}) == {};
  }

  /** What each abort leaves of every table but the anchors' statuses: the evaluation is aborted if
      it was in flight, and nothing else changes. */
  lemma AbortTables(w: Work, e: EvalId, kind: Kind)
    ensures var a := AbortOne(w, e, kind);
            && a == w.(evals := a.evals, status := a.status)
            && a.evals == (map f | f in w.evals ::
                             if f == e && InFlight(w, e) then w.evals[f].(status := EvalAborted) else w.evals[f])
            && a.status.Keys == w.status.Keys
            && (kind == Soft || !InFlight(w, e) ==> a.status == w.status)
  {
    StatusSets(w, e, Created);
    assert MarkAborted(w, {e}).evals
           == (map f | f in w.evals :: if f == e then w.evals[f].(status := EvalAborted) else w.evals[f]);
  }

  /** The tables after a restart, row by row. */
  lemma RecoveryRows(w: Work)
    ensures var r := Recovered(w); var stopped := set e | e in w.evals && Evaluating(w, e);
            && r.jobs == w.jobs
            && r.evals == (map e | e in w.evals ::
                             if e in stopped then w.evals[e].(status := EvalAborted) else w.evals[e])
            && r.attempts == (map a | a in w.attempts ::
                                if w.attempts[a] == Running then AttemptAborted else w.attempts[a])
            && r.forced == w.forced + (set e | e in stopped && w.evals[e].project.Some? :: w.evals[e].project.value)
            && r.status.Keys == w.status.Keys
            && forall d :: d in w.status ==>
                 r.status[d] == if InProgress(w.status[d]) && DrivenBy(w, stopped, d) && !WantedBesides(w, stopped, d)
                                then Aborted
                                else if w.status[d] == Building then Queued else w.status[d]
  {
    var stopped := set e | e in w.evals && Evaluating(w, e);
    assert PreBuildEvals(w) == stopped;
    var q := Requeued(w);
    forall d | d in w.status
      ensures Recovered(w).status[d] ==
              if InProgress(w.status[d]) && DrivenBy(w, stopped, d) && !WantedBesides(w, stopped, d) then Aborted
              else if w.status[d] == Building then Queued else w.status[d]
    {
      BulkAbortRow(q, stopped, d);
      SameDemand(w, q, stopped, d);
    }
  }

  lemma SameDemand(w: Work, q: Work, es: set<EvalId>, d: DrvId)
    requires q.jobs == w.jobs && q.evals == w.evals
    ensures DrivenBy(q, es, d) <==> DrivenBy(w, es, d)
    ensures WantedBesides(q, es, d) <==> WantedBesides(w, es, d)
  {
    forall e ensures IsActive(q, e) <==> IsActive(w, e) {}
  }

  // ----- the operations -----

  method AbortUnshared(status: map<DrvId, BuildStatus>, active: set<DrvId>, shared: set<DrvId>)
    returns (after: map<DrvId, BuildStatus>, aborted: set<DrvId>)
    requires active <= status.Keys
    ensures aborted == active - shared && after == AbortRows(status, active - shared)
  {
    after, aborted := status, {};
    var todo := active;
    while todo != {}
      invariant todo <= active && aborted == (active - shared) - todo
      invariant after == AbortRows(status, aborted)
      decreases |todo|
    {
      var d :| d in todo;
      OneFewer(active, shared, todo, d);
      todo := todo - {d};
      if d !in shared {
        AbortOneMore(status, aborted, d);
        after, aborted := after[d := Aborted], aborted + {d};
      }
    }
  }

  class WorkTables {
    var evals: map<EvalId, EvalRow>
    var jobs: set<Job>
    var status: map<DrvId, BuildStatus>
    var attempts: map<nat, Outcome>
    var forced: set<ProjectId>

    function View(): Work reads this { Work(evals, jobs, status, attempts, forced) }

    constructor (w: Work)
      ensures View() == w
    {
      evals, jobs, status, attempts, forced := w.evals, w.jobs, w.status, w.attempts, w.forced;
    }

    /** Marks the evaluation, then aborts its unshared active anchors row by row. */
    method AbortEvaluation(e: EvalId, kind: Kind) returns (aborted: set<DrvId>)
      modifies this
      ensures View() == AbortOne(old(View()), e, kind)
      ensures aborted == set d | d in old(status) && status[d] != old(status[d])
    {
      aborted := {};
      if !IsActive(View(), e) { return; }
      ghost var m := MarkAborted(View(), {e});
      evals := evals[e := evals[e].(status := EvalAborted)];
      assert evals == m.evals;
      if kind == Hard {
        aborted := AbortEvalAnchors(e);
        AbortChanges(m, aborted);
      }
    }

    method AbortEvalAnchors(e: EvalId) returns (aborted: set<DrvId>)
      modifies this`status
      ensures aborted == old(ActiveAnchors(View(), e) - SharedAnchors(View(), e, ActiveAnchors(View(), e)))
      ensures View() == AbortAnchors(old(View()), aborted)
    {
      var active := ActiveAnchors(View(), e);
      var shared := SharedAnchors(View(), e, active);
      status, aborted := AbortUnshared(status, active, shared);
    }

    /** The restart path. */
    method RecoverInterruptedWork()
      modifies this
      ensures View() == Recovered(old(View()))
    {
      var w := View();
      attempts := map a | a in attempts :: if attempts[a] == Running then AttemptAborted else attempts[a];
      status := map d | d in status :: if status[d] == Building then Queued else status[d];
      var inflight := PreBuildEvals(View());
      assert inflight == PreBuildEvals(w);
      var projects := ProjectsOf(View(), inflight);
      BulkNothing(View());
      if inflight != {} {
        evals := map e | e in evals :: if e in inflight then evals[e].(status := EvalAborted) else evals[e];
        var orphaned := Orphaned(View(), inflight);
        status := AbortRows(status, orphaned);
      }
      if projects != {} {
        forced := forced + projects;
      }
    }
  }

  lemma OneFewer(active: set<DrvId>, shared: set<DrvId>, todo: set<DrvId>, d: DrvId)
    requires d in todo && todo <= active
    ensures (active - shared) - (todo - {d}) ==
            if d in shared then (active - shared) - todo else ((active - shared) - todo) + {d}
  {
  }

  lemma AbortChanges(w: Work, ds: set<DrvId>)
    requires forall d :: d in ds ==> d in w.status && Abortable(w.status[d])
    ensures ds == set d | d in w.status && AbortAnchors(w, ds).status[d] != w.status[d]
  {
  }

  lemma AbortOneMore(status: map<DrvId, BuildStatus>, ds: set<DrvId>, d: DrvId)
    requires d in status
    ensures AbortRows(status, ds + {d}) == AbortRows(status, ds)[d := Aborted]
  {
  }
}
