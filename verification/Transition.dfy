/** The guarded status update of one anchor, with the statements it sets off: the up-ripple and
    the promotion of dependents after a success, the cascade after a failure. */
module Transition {
  import opened Walks
  import opened FlagFixpoint
  import opened Tables
  import opened Gates
  import opened Promotion
  import opened CacheStorage
  import opened Reconcile
  import opened Dispatch
  import opened BetweenPasses
  import UpRipple = Ripple
  import Scopes = PassScopes

  predicate Terminal(s: BuildStatus) { s.TerminalSuccess() || s.Requeueable() }

  /** What the state machine of an anchor admits. */
  predicate ValidMove(from: BuildStatus, to: BuildStatus) {
    || from == to
    || (!Terminal(from)
        && (|| Terminal(to) || to == FailedTransient
            || (from == Created && to == Queued) || (from == Queued && to == Building)
            || (from == FailedTransient && to == Queued) || (from == Building && to == Queued)))
  }

  function Dependents(db: Db, c: DrvId): set<DrvId> { Step(Flip(db.edges), {c}) }

  /** Waiting dependents of `c` with another dependency that has failed for good. */
  function Doomed(db: Db, c: DrvId): set<DrvId> {
    set d | d in db.anchors && d in Dependents(db, c)
            && (db.anchors[d].status == Created || db.anchors[d].status == Queued)
            && exists r :: r in db.edges && r.src == d && r.dst in TerminalFailures(db)
  }

  function FailDoomed(db: Db, c: DrvId): Db { SetStatus(db, Doomed(db, c), DependencyFailed) }

  function PromoteAmong(db: Db, ds: set<DrvId>): Db { SetStatus(db, UnpromotedReady(db) * ds, Queued) }

  function PromoteDependents(db: Db, c: DrvId): Db {
    var failed := FailDoomed(db, c);
    PromoteAmong(failed, Dependents(failed, c))
  }

  /** The state after a success is written and has rippled up. */
  function Succeed(db: Db, d: DrvId, s: BuildStatus): Db { UpRipple.Propagate(SetStatus(db, {d}, s), d) }

  function UpdateStatus(db: Db, d: DrvId, s: BuildStatus): Db
    requires d in db.anchors
  {
    var from := db.anchors[d].status;
    if from == s || !ValidMove(from, s) then db
    else if s.TerminalSuccess() then PromoteDependents(Succeed(db, d, s), d)
    else if s.TerminalFailure() then Cascade(SetStatus(db, {d}, s), d)
    else SetStatus(db, {d}, s)
  }

  // ----- the update as steps of a run -----

  /** A run of status writes and ripples from `db` to `w`. */
  ghost predicate Leads(db: Db, states: seq<Db>, actions: seq<Action>, w: Db) {
    && IsRun(states, actions) && states[0] == db && states[|actions|] == w
    && forall a :: a in actions ==> a.Moved? || a.Rippled?
  }

  lemma OneMore(db: Db, states: seq<Db>, actions: seq<Action>, mid: Db, a: Action, w: Db)
    requires Leads(db, states, actions, mid)
    requires Enabled(mid, a) && w == Next(mid, a) && (a.Moved? || a.Rippled?)
    ensures Leads(db, states + [w], actions + [a], w)
  {
  }

  /** The update is at most four statements, each a status write on anchors that have not
      succeeded or a ripple; other steps may come between any two of them. */
  lemma UpdateIsRun(db: Db, d: DrvId, s: BuildStatus) returns (states: seq<Db>, actions: seq<Action>)
    requires d in db.anchors
    ensures Leads(db, states, actions, UpdateStatus(db, d, s)) && |actions| <= 4
  {
    states, actions := [db], [];
    if db.anchors[d].status != s && ValidMove(db.anchors[d].status, s) {
      var moved := SetStatus(db, {d}, s);
      OneMore(db, states, actions, db, Moved({d}, s), moved);
      states, actions := states + [moved], actions + [Moved({d}, s)];
      if s.TerminalSuccess() {
        states, actions := SuccessSteps(db, states, actions, moved, d);
      } else if s.TerminalFailure() {
        states, actions := FailureSteps(db, states, actions, moved, d);
      }
    }
  }

  lemma FailureSteps(db: Db, before: seq<Db>, done: seq<Action>, moved: Db, d: DrvId)
      returns (states: seq<Db>, actions: seq<Action>)
    requires Leads(db, before, done, moved) && |done| == 1
    ensures Leads(db, states, actions, Cascade(moved, d)) && |actions| == 2
  {
    var a := Moved(CascadeFailed(moved, d), DependencyFailed);
    OneMore(db, before, done, moved, a, Cascade(moved, d));
    states, actions := before + [Cascade(moved, d)], done + [a];
  }

  lemma SuccessSteps(db: Db, before: seq<Db>, done: seq<Action>, moved: Db, d: DrvId)
      returns (states: seq<Db>, actions: seq<Action>)
    requires Leads(db, before, done, moved) && |done| == 1
    ensures Leads(db, states, actions, PromoteDependents(UpRipple.Propagate(moved, d), d)) && |actions| == 4
  {
    var rippled := UpRipple.Propagate(moved, d);
    OneMore(db, before, done, moved, Rippled(d), rippled);
    states, actions := PromoteSteps(db, before + [rippled], done + [Rippled(d)], rippled, d);
  }

  lemma PromoteSteps(db: Db, before: seq<Db>, done: seq<Action>, rippled: Db, d: DrvId)
      returns (states: seq<Db>, actions: seq<Action>)
    requires Leads(db, before, done, rippled)
    ensures Leads(db, states, actions, PromoteDependents(rippled, d)) && |actions| == |done| + 2
  {
    var failed := FailDoomed(rippled, d);
    var ready := UnpromotedReady(failed) * Dependents(failed, d);
    states, actions := before, done;
    OneMore(db, states, actions, rippled, Moved(Doomed(rippled, d), DependencyFailed), failed);
    states, actions := states + [failed], actions + [Moved(Doomed(rippled, d), DependencyFailed)];
    OneMore(db, states, actions, failed, Moved(ready, Queued), SetStatus(failed, ready, Queued));
    states, actions := states + [SetStatus(failed, ready, Queued)], actions + [Moved(ready, Queued)];
  }

  /** A build that starts, fails, is aborted or completes leaves the flags below every anchor as
      trustworthy as they were, and the path flags too. */
  lemma UpdateKeepsTrust(db: Db, d: DrvId, s: BuildStatus, below: DrvId)
    requires d in db.anchors
    ensures FlagsSoundBelow(db, below) ==> FlagsSoundBelow(UpdateStatus(db, d, s), below)
    ensures PathsSound(db) ==> PathsSound(UpdateStatus(db, d, s))
  {
    var states, actions := UpdateIsRun(db, d, s);
    StepsKeepTrust(db, states, actions, UpdateStatus(db, d, s), below);
    StepsKeepPaths(db, states, actions, |actions|);
    PathsUntouched(db, UpdateStatus(db, d, s));
  }

  lemma {:induction false} StepsKeepPaths(db: Db, states: seq<Db>, actions: seq<Action>, i: nat)
    requires IsRun(states, actions) && i < |states| && states[0] == db
    requires forall a :: a in actions ==> a.Moved? || a.Rippled?
    ensures states[i].paths == db.paths && states[i].refs == db.refs
  {
    if i > 0 {
      StepsKeepPaths(db, states, actions, i - 1);
      assert actions[i - 1] in actions;
    }
  }

  lemma StepsKeepTrust(db: Db, states: seq<Db>, actions: seq<Action>, w: Db, below: DrvId)
    requires Leads(db, states, actions, w)
    ensures FlagsSoundBelow(db, below) ==> FlagsSoundBelow(w, below)
  {
    forall j | 0 <= j < |actions| ensures KeepsTrust(states[j], actions[j], below) {
      assert actions[j] in actions;
    }
    if FlagsSoundBelow(db, below) { RunKeepsFlags(states, actions, 0, |actions|, below); }
  }

  lemma PathsUntouched(db: Db, w: Db)
    requires w.paths == db.paths && w.refs == db.refs
    ensures PathsSound(db) ==> PathsSound(w)
  {
    if PathsSound(db) { PathsSoundSame(db, w); }
  }

  /** A failure reaches every pending anchor that depends on the failed one, and no other row or
      column. */
  lemma FailureExact(db: Db, d: DrvId, s: BuildStatus, p: DrvId)
    requires d in db.anchors && !Terminal(db.anchors[d].status) && s.TerminalFailure() && p in db.anchors
    ensures p in UpdateStatus(db, d, s).anchors
    ensures UpdateStatus(db, d, s).anchors[p] == db.anchors[p].(status := FailedRow(db, d, s, p))
  {
    var moved := SetStatus(db, {d}, s);
    assert UpdateStatus(db, d, s) == Cascade(moved, d);
    CascadedRow(moved, d, p);
    MovedRow(db, d, s, moved, p);
  }

  lemma MovedRow(db: Db, d: DrvId, s: BuildStatus, moved: Db, p: DrvId)
    requires moved == SetStatus(db, {d}, s) && p in db.anchors
    ensures moved.edges == db.edges && p in moved.anchors
    ensures moved.anchors[p] == if p == d then db.anchors[p].(status := s) else db.anchors[p]
  {
  }

  lemma CascadedRow(moved: Db, d: DrvId, p: DrvId)
    requires d in moved.anchors && moved.anchors[d].status.TerminalFailure() && p in moved.anchors
    ensures p in Cascade(moved, d).anchors
    ensures Cascade(moved, d).anchors[p] ==
            if moved.anchors[p].status.CascadeTarget() && d in Reach(moved.edges, {p})
            then moved.anchors[p].(status := DependencyFailed)
            else moved.anchors[p]
  {
    CascadeExact(moved, d, p);
  }

  // ----- who is left behind -----

  /** Promoting among `ds` leaves exactly the ready anchors outside it. */
  lemma PromoteAmongLeaves(db: Db, ds: set<DrvId>)
    ensures UnpromotedReady(PromoteAmong(db, ds)) == UnpromotedReady(db) - ds
  {
    var w := PromoteAmong(db, ds);
    PendingMoveKeeps(db, UnpromotedReady(db) * ds, Queued);
    forall d | d in db.anchors ensures d in UnpromotedReady(w) <==> d in UnpromotedReady(db) - ds {
      SameDepsReady(db, w, d);
    }
  }

  lemma SameDepsReady(db: Db, w: Db, d: DrvId)
    requires w.edges == db.edges && w.sources == db.sources && w.paths == db.paths
    requires forall m :: DepReady(w, m) <==> DepReady(db, m)
    ensures DepsReady(w, d) <==> DepsReady(db, d)
  {
    assert forall r :: r in db.edges && r.src == d ==> (DepReady(w, r.dst) <==> DepReady(db, r.dst));
  }

  lemma FailDoomedLeaves(db: Db, c: DrvId)
    ensures UnpromotedReady(FailDoomed(db, c)) == UnpromotedReady(db) - Doomed(db, c)
  {
    var w := FailDoomed(db, c);
    PendingMoveKeeps(db, Doomed(db, c), DependencyFailed);
    forall d | d in db.anchors ensures d in UnpromotedReady(w) <==> d in UnpromotedReady(db) - Doomed(db, c) {
      SameDepsReady(db, w, d);
    }
  }

  /** `p` got ready through an anchor other than the finished `d` that the ripple marked. */
  ghost predicate ReadyThrough(db: Db, rippled: Db, d: DrvId, p: DrvId) {
    && p in UnpromotedReady(rippled)
    && exists m :: Row(p, m) in db.edges && m != d && m in ClosureFlags(rippled) - ClosureFlags(db)
  }

  /** A completion promotes every ready direct dependent. It leaves a ready anchor waiting for the
      next pass exactly when one got ready through an anchor that the ripple marked on the way
      up, and does not itself depend on the finished one. */
  lemma CompletionLeavesNoneIff(db: Db, d: DrvId, s: BuildStatus)
    requires d in db.anchors && !Terminal(db.anchors[d].status) && s.TerminalSuccess()
    requires UnpromotedReady(db) == {}
    ensures UnpromotedReady(UpdateStatus(db, d, s)) * Dependents(db, d) == {}
    ensures UnpromotedReady(UpdateStatus(db, d, s)) == {}
            <==> forall p :: ReadyThrough(db, Succeed(db, d, s), d, p) ==> p in Dependents(db, d)
  {
    var rippled := Succeed(db, d, s);
    UpdateLeaves(db, d, s, rippled);
    forall p | p in UnpromotedReady(rippled) - Dependents(db, d) ensures ReadyThrough(db, rippled, d, p) {
      LeftBehindCause(db, d, s, rippled, p);
    }
  }

  /** The row a dependent of `c` ends with: failed under a failed dependency, else queued if it
      is ready. */
  function DependentRow(db: Db, c: DrvId, p: DrvId): Anchor
    requires p in db.anchors
  {
    if p in Doomed(db, c) then db.anchors[p].(status := DependencyFailed)
    else if p in Dependents(db, c) && Promotable(db, p) then db.anchors[p].(status := Queued)
    else db.anchors[p]
  }

  lemma PromoteDependentsMeans(db: Db, c: DrvId, w: Db)
    requires w == PromoteDependents(db, c)
    ensures UnpromotedReady(w) == UnpromotedReady(db) - Dependents(db, c)
    ensures w.anchors.Keys == db.anchors.Keys
    ensures forall p :: p in db.anchors ==> w.anchors[p] == DependentRow(db, c, p)
  {
    FailDoomedLeaves(db, c);
    PromoteAmongLeaves(FailDoomed(db, c), Dependents(db, c));
  }

  lemma UpdateLeaves(db: Db, d: DrvId, s: BuildStatus, rippled: Db)
    requires d in db.anchors && !Terminal(db.anchors[d].status) && s.TerminalSuccess()
    requires rippled == Succeed(db, d, s)
    ensures UnpromotedReady(UpdateStatus(db, d, s)) == UnpromotedReady(rippled) - Dependents(db, d)
  {
    PromoteDependentsMeans(rippled, d, UpdateStatus(db, d, s));
  }

  lemma LeftBehindCause(db: Db, d: DrvId, s: BuildStatus, rippled: Db, p: DrvId)
    requires d in db.anchors && !Terminal(db.anchors[d].status) && s.TerminalSuccess()
    requires rippled == Succeed(db, d, s) && p in UnpromotedReady(rippled) - UnpromotedReady(db)
    requires p !in Dependents(db, d)
    ensures ReadyThrough(db, rippled, d, p)
  {
    SucceedRows(db, d, s, rippled);
    NoEdgeTo(db, d, p);
    ReadyCause(db, rippled, d, p);
  }

  /** A row that got ready while only flags and the row of `d` changed, by a dependency's flag. */
  lemma ReadyCause(db: Db, w: Db, d: DrvId, p: DrvId)
    requires SameFacts(db, w) && w.paths == db.paths && Row(p, d) !in db.edges
    requires forall m :: m in db.anchors && m != d ==> SameButClosure(db.anchors[m], w.anchors[m])
    requires d in w.anchors && w.anchors[d].status != Created
    requires p in UnpromotedReady(w) - UnpromotedReady(db)
    ensures ReadyThrough(db, w, d, p)
  {
    assert JobDrvs(w) == JobDrvs(db);
    SourcesSame(db, w, p);
    var r :| r in db.edges && r.src == p && !DepReady(db, r.dst);
    assert DepReady(w, r.dst) && r == Row(p, r.dst);
  }

  predicate SameButClosure(a: Anchor, b: Anchor) { b == a.(closureComplete := b.closureComplete) }

  lemma SourcesSame(db: Db, w: Db, p: DrvId)
    requires w.sources == db.sources && w.paths == db.paths
    ensures SourcesBacked(w, p) <==> SourcesBacked(db, p)
  {
  }

  lemma NoEdgeTo(db: Db, d: DrvId, p: DrvId)
    requires p !in Dependents(db, d)
    ensures Row(p, d) !in db.edges
  {
    FlipRow(db.edges, d, p);
    var up := Row(d, p);
    assert up in Flip(db.edges) ==> up.dst in Step(Flip(db.edges), {d});
  }

  /** The success and its ripple change the status of `d` and closure flags, nothing else. */
  lemma SucceedRows(db: Db, d: DrvId, s: BuildStatus, rippled: Db)
    requires rippled == Succeed(db, d, s)
    ensures SameFacts(db, rippled) && rippled.paths == db.paths && rippled.refs == db.refs
    ensures forall m :: m in db.anchors && m != d ==> SameButClosure(db.anchors[m], rippled.anchors[m])
    ensures d in db.anchors ==> SameButClosure(db.anchors[d].(status := s), rippled.anchors[d])
  {
  }

  // ----- what a caller of the update can rely on -----

  const ENDS: set<BuildStatus> :=
    {Completed, Substituted, FailedPermanent, FailedTimeout, FailedTransient, Aborted, DependencyFailed}

  /** The moves an update carries out: from each live status to any end, to be queued from where
      that makes sense, to start from the queue. Nothing leaves a settled status. */
  predicate Admitted(from: BuildStatus, to: BuildStatus) {
    match from
    case Created => to in ENDS + {Queued}
    case Queued => to in ENDS + {Building}
    case Building => to in ENDS + {Queued}
    case FailedTransient => to in ENDS + {Queued} - {FailedTransient}
    case _ => false
  }

  lemma AdmittedIff(from: BuildStatus, to: BuildStatus)
    ensures Admitted(from, to) <==> from != to && ValidMove(from, to)
    ensures Admitted(from, to) ==> !Terminal(from)
    ensures !Terminal(from) && Terminal(to) ==> Admitted(from, to)
  {
    match from {
      case Created =>
      case Queued =>
      case Building =>
      case FailedTransient =>
      case _ =>
    }
  }

  /** The update writes the status of `d`, and beyond it only what a success or a failure of `d`
      sets off. */
  ghost predicate Updated(db: Db, d: DrvId, s: BuildStatus, w: Db)
    requires d in db.anchors
  {
    && w == db.(anchors := w.anchors) && w.anchors.Keys == db.anchors.Keys
    && (if !Admitted(db.anchors[d].status, s) then w.anchors == db.anchors
        else if s == Completed || s == Substituted then SetOffBySuccess(db, d, s, w)
        else if s == FailedPermanent || s == FailedTimeout || s == DependencyFailed then SetOffByFailure(db, d, s, w)
        else w.anchors == db.anchors[d := db.anchors[d].(status := s)])
    && (forall below :: FlagsSoundBelow(db, below) ==> FlagsSoundBelow(w, below))
  }

  /** After a failure exactly the pending anchors above `d` have failed too. */
  ghost predicate SetOffByFailure(db: Db, d: DrvId, s: BuildStatus, w: Db)
    requires d in db.anchors && w.anchors.Keys == db.anchors.Keys
  {
    forall p :: p in db.anchors ==> w.anchors[p] == db.anchors[p].(status := FailedRow(db, d, s, p))
  }

  ghost function FailedRow(db: Db, d: DrvId, s: BuildStatus, p: DrvId): BuildStatus
    requires p in db.anchors
  {
    if p == d then s
    else if db.anchors[p].status in {Created, Queued, FailedTransient} && d in Reach(db.edges, {p})
    then DependencyFailed
    else db.anchors[p].status
  }

  /** After a success the flag of `d` equals its gate or was set before, other flags only grow to
      rows that pass their gate, and do so wherever the gate was opened by the success; and of the
      direct dependents those with a failed dependency have failed and the ready ones are queued. */
  ghost predicate SetOffBySuccess(db: Db, d: DrvId, s: BuildStatus, w: Db)
    requires d in db.anchors && w.anchors.Keys == db.anchors.Keys
  {
    && w.anchors[d] == db.anchors[d].(status := s, closureComplete := w.anchors[d].closureComplete)
    && (w.anchors[d].closureComplete <==> db.anchors[d].closureComplete || ClosureGate(w, d))
    && (forall p :: p in db.anchors && p != d ==> SuccessRow(db, d, w, p))
    && UnpromotedReady(w) == UnpromotedReady(Succeed(db, d, s)) - Dependents(db, d)
  }

  /** The row of another anchor after the success of `d`. */
  ghost predicate SuccessRow(db: Db, d: DrvId, w: Db, p: DrvId)
    requires p in db.anchors && p in w.anchors
  {
    var a, b := db.anchors[p], w.anchors[p];
    && b == a.(status := b.status, closureComplete := b.closureComplete)
    && (a.closureComplete ==> b.closureComplete)
    && (b.closureComplete && !a.closureComplete ==> ClosureGate(w, p))
    && (ClosureGate(w, p) && (Row(p, d) in db.edges || !ClosureGate(db, p)) ==> b.closureComplete)
    && b.status == (if DoomedBelow(db, d, p) then DependencyFailed
                    else if a.status == Created && Row(p, d) in db.edges && Scopes.InputsThere(w, p) then Queued
                    else a.status)
  }

  /** `p` waits on `d`, and on another anchor that has failed for good. */
  ghost predicate DoomedBelow(db: Db, d: DrvId, p: DrvId)
    requires p in db.anchors
  {
    && Row(p, d) in db.edges && (db.anchors[p].status == Created || db.anchors[p].status == Queued)
    && exists m :: m != d && m in db.anchors && Row(p, m) in db.edges
                   && db.anchors[m].status in {FailedPermanent, FailedTimeout, DependencyFailed}
  }

  lemma UpdateMeans(db: Db, d: DrvId, s: BuildStatus, w: Db)
    requires d in db.anchors && w == UpdateStatus(db, d, s)
    ensures Updated(db, d, s, w)
  {
    forall below ensures FlagsSoundBelow(db, below) ==> FlagsSoundBelow(w, below) {
      UpdateKeepsTrust(db, d, s, below);
    }
    UpdateRows(db, d, s, w);
  }

  lemma UpdateRows(db: Db, d: DrvId, s: BuildStatus, w: Db)
    requires d in db.anchors && w == UpdateStatus(db, d, s)
    ensures w == db.(anchors := w.anchors) && w.anchors.Keys == db.anchors.Keys
    ensures if !Admitted(db.anchors[d].status, s) then w.anchors == db.anchors
            else if s == Completed || s == Substituted then SetOffBySuccess(db, d, s, w)
            else if s == FailedPermanent || s == FailedTimeout || s == DependencyFailed
            then SetOffByFailure(db, d, s, w)
            else w.anchors == db.anchors[d := db.anchors[d].(status := s)]
  {
    AdmittedIff(db.anchors[d].status, s);
    if Admitted(db.anchors[d].status, s) {
      if s.TerminalSuccess() {
        SuccessMeans(db, d, s, w);
      } else if s.TerminalFailure() {
        FailureMeans(db, d, s, w);
      } else {
        PlainMove(db, d, s, w);
      }
    }
  }

  lemma PlainMove(db: Db, d: DrvId, s: BuildStatus, w: Db)
    requires d in db.anchors && w == SetStatus(db, {d}, s)
    ensures w == db.(anchors := w.anchors) && w.anchors.Keys == db.anchors.Keys
    ensures w.anchors == db.anchors[d := db.anchors[d].(status := s)]
  {
  }

  lemma FailureMeans(db: Db, d: DrvId, s: BuildStatus, w: Db)
    requires d in db.anchors && !Terminal(db.anchors[d].status) && s.TerminalFailure()
    requires w == UpdateStatus(db, d, s)
    ensures w == db.(anchors := w.anchors) && w.anchors.Keys == db.anchors.Keys && SetOffByFailure(db, d, s, w)
  {
    assert w == Cascade(SetStatus(db, {d}, s), d);
    TwoWrites(db, {d}, s, CascadeFailed(SetStatus(db, {d}, s), d), DependencyFailed);
    forall p | p in db.anchors ensures w.anchors[p] == db.anchors[p].(status := FailedRow(db, d, s, p)) {
      FailureExact(db, d, s, p);
    }
  }

  lemma TwoWrites(db: Db, a: set<DrvId>, s: BuildStatus, b: set<DrvId>, r: BuildStatus)
    ensures var w := SetStatus(SetStatus(db, a, s), b, r);
            w == db.(anchors := w.anchors) && w.anchors.Keys == db.anchors.Keys
  {
  }

  lemma SuccessMeans(db: Db, d: DrvId, s: BuildStatus, w: Db)
    requires d in db.anchors && !Terminal(db.anchors[d].status) && s.TerminalSuccess()
    requires w == UpdateStatus(db, d, s)
    ensures w == db.(anchors := w.anchors) && w.anchors.Keys == db.anchors.Keys && SetOffBySuccess(db, d, s, w)
  {
    var r := Succeed(db, d, s);
    SucceedRows(db, d, s, r);
    SucceedFlags(db, d, s, r);
    PromotedRows(r, d, w);
    UpdateLeaves(db, d, s, r);
    SuccessRows(db, d, s, r, w);
  }

  /** The flags after the ripple: nothing is lost, what is new passes its gate, and `d` is marked
      if its gate holds. */
  ghost predicate FlagsRippled(db: Db, d: DrvId, r: Db) {
    && ClosureFlags(db) <= ClosureFlags(r)
    && (forall n :: n in ClosureFlags(r) - ClosureFlags(db) ==> n in r.anchors && ClosureGate(r, n))
    && (forall n :: n in r.anchors && n in db.anchors && ClosureGate(r, n) ==>
          (n == d || Row(n, d) in db.edges || !ClosureGate(db, n)) ==> n in ClosureFlags(r))
  }

  lemma SucceedFlags(db: Db, d: DrvId, s: BuildStatus, r: Db)
    requires r == Succeed(db, d, s) && d in db.anchors
    ensures FlagsRippled(db, d, r)
  {
    var moved := SetStatus(db, {d}, s);
    var sys, flags, frontier := ClosureSystem(moved), ClosureFlags(moved), UpRipple.FirstFrontier(moved, d);
    var after := FlagFixpoint.Ripple(sys, moved.edges, flags, frontier);
    RippleGrows(sys, moved.edges, flags, frontier);
    RippleMarksSound(sys, moved.edges, flags, frontier);
    ClosureFlagLens(moved, after, after);
    assert after * moved.anchors.Keys == after;
    WithClosureKeeps(moved, after);
    assert flags == ClosureFlags(db);
    forall n | n in r.anchors
      ensures ClosureGate(r, n) <==> Holds(sys, after, n)
      ensures ClosureGate(r, n) && (n == d || Row(n, d) in db.edges || !ClosureGate(db, n)) ==> n in after
    {
      ClosureGateIsSystem(r, n);
      ClosureGateIsSystem(moved, n);
      EdgeIff(db, d, n);
      if n != d { GateMoved(db, moved, d, s, n); }
      if n == d || Row(n, d) in db.edges || !ClosureGate(db, n) {
        RippleTakes(sys, moved.edges, flags, frontier, n);
      }
    }
  }

  lemma GateMoved(db: Db, moved: Db, d: DrvId, s: BuildStatus, n: DrvId)
    requires moved == SetStatus(db, {d}, s) && n in db.anchors && n != d
    ensures n in moved.anchors && (ClosureGate(moved, n) <==> ClosureGate(db, n))
  {
  }

  lemma {:induction false} RippleMarksSound<N>(sys: System<N>, edges: set<Row<N>>, flags: set<N>, frontier: set<N>)
    ensures forall n :: n in FlagFixpoint.Ripple(sys, edges, flags, frontier) - flags ==>
              Holds(sys, FlagFixpoint.Ripple(sys, edges, flags, frontier), n)
    decreases |sys.local - flags|
  {
    var newly := Newly(sys, flags, frontier);
    if newly != {} {
      assert sys.local - (flags + newly) == (sys.local - flags) - newly;
      RemoveShrinks(sys.local - flags, newly);
      var end := FlagFixpoint.Ripple(sys, edges, flags + newly, Step(Flip(edges), newly));
      RippleMarksSound(sys, edges, flags + newly, Step(Flip(edges), newly));
      RippleGrows(sys, edges, flags + newly, Step(Flip(edges), newly));
      forall n | n in newly ensures Holds(sys, end, n) { HoldsMonotone(sys, flags, end, n); }
    }
  }

  /** A row of the first frontier whose gate holds in the end is marked, and so is any row whose
      gate held only then. */
  lemma RippleTakes<N>(sys: System<N>, edges: set<Row<N>>, flags: set<N>, frontier: set<N>, n: N)
    requires sys.needs <= edges && (n in frontier || !Holds(sys, flags, n))
    ensures Holds(sys, FlagFixpoint.Ripple(sys, edges, flags, frontier), n) ==>
              n in FlagFixpoint.Ripple(sys, edges, flags, frontier)
  {
    RippleGrows(sys, edges, flags, frontier);
    if !Holds(sys, flags, n) && Holds(sys, FlagFixpoint.Ripple(sys, edges, flags, frontier), n) {
      RippleFollows(sys, edges, flags, frontier, n);
    }
  }

  lemma PromotedRows(r: Db, d: DrvId, w: Db)
    requires w == PromoteDependents(r, d)
    ensures w == r.(anchors := w.anchors) && w.anchors.Keys == r.anchors.Keys
    ensures forall p :: p in r.anchors ==> w.anchors[p] == DependentRow(r, d, p)
    ensures forall p :: p in r.anchors ==>
              (ClosureGate(w, p) <==> ClosureGate(r, p)) && (Scopes.InputsThere(w, p) <==> Scopes.InputsThere(r, p))
  {
    PromoteDependentsMeans(r, d, w);
    var f := FailDoomed(r, d);
    var ready := UnpromotedReady(f) * Dependents(f, d);
    PendingMoveKeeps(r, Doomed(r, d), DependencyFailed);
    PendingMoveKeeps(f, ready, Queued);
    forall p | p in r.anchors
      ensures (ClosureGate(w, p) <==> ClosureGate(r, p)) && (Scopes.InputsThere(w, p) <==> Scopes.InputsThere(r, p))
    {
      MovedReads(r, w, p);
    }
  }

  lemma MovedReads(r: Db, w: Db, p: DrvId)
    requires w == r.(anchors := w.anchors) && p in r.anchors && p in w.anchors
    requires w.anchors[p].edgesComplete == r.anchors[p].edgesComplete
    requires w.anchors[p].substitutable == r.anchors[p].substitutable
    requires ClosureSystem(w) == ClosureSystem(r) && ClosureFlags(w) == ClosureFlags(r)
    requires forall m :: DepReady(w, m) <==> DepReady(r, m)
    ensures (ClosureGate(w, p) <==> ClosureGate(r, p)) && (Scopes.InputsThere(w, p) <==> Scopes.InputsThere(r, p))
  {
    ClosureGateIsSystem(w, p);
    ClosureGateIsSystem(r, p);
    SameDepsReady(r, w, p);
  }

  lemma SuccessRows(db: Db, d: DrvId, s: BuildStatus, r: Db, w: Db)
    requires d in db.anchors && !Terminal(db.anchors[d].status) && s.TerminalSuccess()
    requires r == db.(anchors := r.anchors) && r.anchors.Keys == db.anchors.Keys && FlagsRippled(db, d, r)
    requires forall m :: m in db.anchors && m != d ==> SameButClosure(db.anchors[m], r.anchors[m])
    requires SameButClosure(db.anchors[d].(status := s), r.anchors[d])
    requires w == r.(anchors := w.anchors) && w.anchors.Keys == r.anchors.Keys
    requires forall p :: p in r.anchors ==> w.anchors[p] == DependentRow(r, d, p)
    requires forall p :: p in r.anchors ==>
               (ClosureGate(w, p) <==> ClosureGate(r, p)) && (Scopes.InputsThere(w, p) <==> Scopes.InputsThere(r, p))
    ensures w.anchors[d] == db.anchors[d].(status := s, closureComplete := w.anchors[d].closureComplete)
    ensures w.anchors[d].closureComplete <==> db.anchors[d].closureComplete || ClosureGate(w, d)
    ensures forall p :: p in db.anchors && p != d ==> SuccessRow(db, d, w, p)
  {
    assert d in ClosureFlags(r) <==> r.anchors[d].closureComplete;
    forall p | p in db.anchors && p != d ensures SuccessRow(db, d, w, p) {
      DoomedIff(db, d, s, r, p);
      EdgeIff(db, d, p);
      Scopes.JobThere(r, p);
      OneSuccessRow(db, d, r, w, p);
    }
  }

  lemma OneSuccessRow(db: Db, d: DrvId, r: Db, w: Db, p: DrvId)
    requires p in db.anchors && p in r.anchors && p in w.anchors && p != d && FlagsRippled(db, d, r)
    requires r == db.(anchors := r.anchors) && SameButClosure(db.anchors[p], r.anchors[p])
    requires w.anchors[p] == DependentRow(r, d, p)
    requires ClosureGate(w, p) <==> ClosureGate(r, p)
    requires Scopes.InputsThere(w, p) <==> Scopes.InputsThere(r, p)
    requires p in Doomed(r, d) <==> DoomedBelow(db, d, p)
    requires p in Dependents(r, d) <==> Row(p, d) in db.edges
    requires p in JobDrvs(r) <==> exists j :: j in r.jobs && j.derivation == p
    ensures SuccessRow(db, d, w, p)
  {
    assert p in ClosureFlags(r) <==> r.anchors[p].closureComplete;
    assert p in ClosureFlags(db) <==> db.anchors[p].closureComplete;
  }

  lemma EdgeIff(db: Db, d: DrvId, p: DrvId)
    ensures p in Dependents(db, d) <==> Row(p, d) in db.edges
  {
    FlipRow(db.edges, d, p);
    var up := Row(d, p);
    assert up in Flip(db.edges) <==> p in Step(Flip(db.edges), {d});
  }

  lemma DoomedIff(db: Db, d: DrvId, s: BuildStatus, r: Db, p: DrvId)
    requires d in db.anchors && !Terminal(db.anchors[d].status) && s.TerminalSuccess() && p in db.anchors && p != d
    requires r == db.(anchors := r.anchors) && r.anchors.Keys == db.anchors.Keys
    requires forall m :: m in db.anchors && m != d ==> SameButClosure(db.anchors[m], r.anchors[m])
    requires SameButClosure(db.anchors[d].(status := s), r.anchors[d])
    ensures p in Doomed(r, d) <==> DoomedBelow(db, d, p)
  {
    EdgeIff(db, d, p);
    if p in Doomed(r, d) {
      var e :| e in r.edges && e.src == p && e.dst in TerminalFailures(r);
      assert e == Row(p, e.dst);
    }
  }

  // ----- an anchor left behind -----

  const FINISHED := DrvId(1)
  const WAITED := DrvId(2)
  const LEFT := DrvId(3)

  /** `LEFT` waits on `WAITED`, which was built before its dependency `FINISHED` ends. */
  function ChainExample(): Db {
    var row := (status: BuildStatus) => Anchor(status, false, false, true, false, false, false, 0);
    Db(map[],
       map[FINISHED := row(Building), WAITED := row(Completed), LEFT := row(Created)],
       {Row(WAITED, FINISHED), Row(LEFT, WAITED)},
       {Output(FINISHED, "out", Hash("f")), Output(WAITED, "out", Hash("w"))}, {}, {},
       map[Hash("f") := CachedPath(true, true), Hash("w") := CachedPath(true, true)], {},
       {Job(EvalId(0), LEFT)}, {})
  }

  /** Two rounds up a chain: the finished anchor, then the one that waited for it. */
  lemma RippleTwice<N>(sys: System<N>, edges: set<Row<N>>, flags: set<N>, frontier: set<N>, a: N, b: N)
    requires a in frontier && Holds(sys, flags, a) && Row(b, a) in edges
    requires b in sys.local && forall r :: r in sys.needs && r.src == b ==> r.dst == a
    ensures a in FlagFixpoint.Ripple(sys, edges, flags, frontier)
    ensures a !in flags ==> b in FlagFixpoint.Ripple(sys, edges, flags, frontier)
  {
    var newly := Newly(sys, flags, frontier);
    RippleGrows(sys, edges, flags, frontier);
    if a !in flags {
      FlipRow(edges, a, b);
      var up := Row(a, b);
      assert up in Flip(edges) && b in Step(Flip(edges), newly);
      assert Holds(sys, flags + newly, b);
      assert sys.local - (flags + newly) == (sys.local - flags) - newly;
      RippleGrows(sys, edges, flags + newly, Step(Flip(edges), newly));
    }
  }

  lemma ChainRipples(moved: Db)
    requires moved == SetStatus(ChainExample(), {FINISHED}, Completed)
    ensures WAITED in UpRipple.Propagate(moved, FINISHED).anchors
    ensures UpRipple.Propagate(moved, FINISHED).anchors[WAITED].closureComplete
  {
    var o, o2 := Output(FINISHED, "out", Hash("f")), Output(WAITED, "out", Hash("w"));
    assert o in moved.outputs && o2 in moved.outputs;
    assert ClosureLocal(moved, FINISHED) && ClosureLocal(moved, WAITED);
    RippleTwice(ClosureSystem(moved), moved.edges, ClosureFlags(moved), UpRipple.FirstFrontier(moved, FINISHED),
                FINISHED, WAITED);
  }

  /** The completion of `FINISHED` makes `LEFT` ready and does not promote it. */
  lemma CompletionCanLeaveOne()
    ensures UnpromotedReady(ChainExample()) == {}
    ensures LEFT in UnpromotedReady(UpdateStatus(ChainExample(), FINISHED, Completed))
  {
    ChainWaits(ChainExample());
    ChainLeft(ChainExample(), Succeed(ChainExample(), FINISHED, Completed));
  }

  lemma ChainLeft(db: Db, rippled: Db)
    requires db == ChainExample() && rippled == Succeed(db, FINISHED, Completed)
    ensures LEFT in UnpromotedReady(UpdateStatus(db, FINISHED, Completed))
  {
    UpdateLeaves(db, FINISHED, Completed, rippled);
    ChainLeaves(db, rippled);
  }

  lemma ChainLeaves(db: Db, rippled: Db)
    requires db == ChainExample() && rippled == Succeed(db, FINISHED, Completed)
    ensures LEFT in UnpromotedReady(rippled) && LEFT !in Dependents(db, FINISHED)
  {
    ChainRipples(SetStatus(db, {FINISHED}, Completed));
    ChainRows(db, rippled);
    ChainReady(rippled);
  }

  lemma ChainRows(db: Db, rippled: Db)
    requires db == ChainExample() && rippled == Succeed(db, FINISHED, Completed)
    ensures rippled.anchors.Keys == db.anchors.Keys && rippled.edges == db.edges
    ensures rippled.sources == {} && rippled.jobs == db.jobs
    ensures rippled.anchors[LEFT].status == Created && rippled.anchors[LEFT].edgesComplete
    ensures rippled.anchors[WAITED].status == Completed
    ensures LEFT !in Dependents(db, FINISHED)
  {
    SucceedRows(db, FINISHED, Completed, rippled);
    FlipRow(db.edges, FINISHED, LEFT);
  }

  lemma ChainWaits(db: Db)
    requires db == ChainExample()
    ensures UnpromotedReady(db) == {}
  {
    var r := Row(LEFT, WAITED);
    assert r in db.edges && !DepReady(db, r.dst);
  }

  lemma ChainReady(db: Db)
    requires LEFT in db.anchors && db.anchors[LEFT].status == Created && db.anchors[LEFT].edgesComplete
    requires WAITED in db.anchors && db.anchors[WAITED].status == Completed && db.anchors[WAITED].closureComplete
    requires db.edges == ChainExample().edges && db.sources == {} && db.jobs == ChainExample().jobs
    ensures LEFT in UnpromotedReady(db)
  {
    var j := Job(EvalId(0), LEFT);
    assert j in db.jobs && j.derivation in JobDrvs(db);
    assert forall r :: r in db.edges && r.src == LEFT ==> r.dst == WAITED;
  }
}
