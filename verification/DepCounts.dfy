/** The per-entry-point histogram of dependency statuses: recomputed from the
    materialised closure, then kept up to date by deltas that may fall behind. */
module DepCounts {
  import opened Walks
  import opened Tables

  datatype EpId = EpId(uuid: nat)
  datatype EntryPoint = EntryPoint(evaluation: EvalId, derivation: DrvId)

  datatype Counts = Counts(
    entryPoints: map<EpId, EntryPoint>,
    closure: set<Row<DrvId>>,              // derivation_closure: root, dependency
    status: map<DrvId, BuildStatus>,       // the anchors' statuses
    rows: map<(EpId, BuildStatus), nat>)   // entry_point_dep_count

  function Deps(c: Counts, ep: EpId): set<DrvId>
    requires ep in c.entryPoints
  {
    set r | r in c.closure && r.src == c.entryPoints[ep].derivation :: r.dst
  }

  function Stored(c: Counts, ep: EpId, s: BuildStatus): nat {
    if (ep, s) in c.rows then c.rows[(ep, s)] else 0
  }

  function WithStatus(c: Counts, ep: EpId, s: BuildStatus): set<DrvId>
    requires ep in c.entryPoints
  {
    Having(Deps(c, ep), c.status, s)
  }

  function Having(deps: set<DrvId>, status: map<DrvId, BuildStatus>, s: BuildStatus): set<DrvId> {
    set d | d in deps && d in status && status[d] == s
  }

  /** The true count: dependencies in the materialised closure with that status. */
  function Truth(c: Counts, ep: EpId, s: BuildStatus): nat
    requires ep in c.entryPoints
  {
    |WithStatus(c, ep, s)|
  }

  // ----- the steps -----

  /** Recompute an evaluation's rows: delete them, then insert one per non-empty group. */
  function Init(c: Counts, e: EvalId): Counts {
    var others := map k | k in c.rows && !(k.0 in c.entryPoints && c.entryPoints[k.0].evaluation == e)
                        :: c.rows[k];
    var groups := set ep, d | ep in c.entryPoints && c.entryPoints[ep].evaluation == e
                              && d in Deps(c, ep) && d in c.status
                            :: (ep, c.status[d]);
    c.(rows := others + map k | k in groups && k.0 in c.entryPoints :: Truth(c, k.0, k.1))
  }

  /** The entry points, of any evaluation, whose closure holds `d`. */
  function Holders(c: Counts, d: DrvId): set<EpId> {
    set ep | ep in c.entryPoints && d in Deps(c, ep)
  }

  /** First statement of the delta: take one from a positive old cell. */
  function Decrement(c: Counts, d: DrvId, was: BuildStatus): Counts {
    c.(rows := map k | k in c.rows ::
         if k.1 == was && k.0 in Holders(c, d) && c.rows[k] > 0 then c.rows[k] - 1 else c.rows[k])
  }

  /** Second statement: insert a cell of one, or add one to it. */
  function Increment(c: Counts, d: DrvId, now: BuildStatus): Counts {
    var cells := set ep | ep in Holders(c, d) :: (ep, now);
    c.(rows := c.rows + map k | k in cells :: Stored(c, k.0, k.1) + 1)
  }

  function ApplyDelta(c: Counts, d: DrvId, was: BuildStatus, now: BuildStatus): Counts {
    Increment(Decrement(c, d, was), d, now)
  }

  /** An anchor moves, and its effects apply the delta unless the status is unchanged. */
  function Move(c: Counts, d: DrvId, now: BuildStatus): Counts
    requires d in c.status
  {
    var moved := c.(status := c.status[d := now]);
    if c.status[d] == now then moved else ApplyDelta(moved, d, c.status[d], now)
  }

  lemma DecrementCell(c: Counts, d: DrvId, was: BuildStatus, ep: EpId, s: BuildStatus)
    ensures Stored(Decrement(c, d, was), ep, s)
            == if s == was && ep in Holders(c, d) && Stored(c, ep, s) > 0 then Stored(c, ep, s) - 1
               else Stored(c, ep, s)
    ensures Holders(Decrement(c, d, was), d) == Holders(c, d)
  {
    assert Decrement(c, d, was).entryPoints == c.entryPoints;
    assert forall x :: x in c.entryPoints ==> Deps(Decrement(c, d, was), x) == Deps(c, x);
  }

  lemma IncrementCell(c: Counts, d: DrvId, now: BuildStatus, ep: EpId, s: BuildStatus)
    ensures Stored(Increment(c, d, now), ep, s)
            == Stored(c, ep, s) + if s == now && ep in Holders(c, d) then 1 else 0
  {
    var cells := set x | x in Holders(c, d) :: (x, now);
    assert (ep, s) in cells <==> ep in Holders(c, d) && s == now;
  }

  lemma DeltaCells(c: Counts, d: DrvId, was: BuildStatus, now: BuildStatus, ep: EpId, s: BuildStatus)
    ensures Stored(ApplyDelta(c, d, was, now), ep, s)
            == (if s == was && ep in Holders(c, d) && Stored(c, ep, s) > 0 then Stored(c, ep, s) - 1
                else Stored(c, ep, s))
               + (if s == now && ep in Holders(c, d) then 1 else 0)
  {
    DecrementCell(c, d, was, ep, s);
    IncrementCell(Decrement(c, d, was), d, now, ep, s);
  }

  lemma HavingMoved(deps: set<DrvId>, status: map<DrvId, BuildStatus>, d: DrvId, now: BuildStatus, s: BuildStatus)
    requires d in status && status[d] != now
    ensures d in deps && s == status[d] ==> |Having(deps, status, s)| > 0
    ensures |Having(deps, status[d := now], s)|
            == |Having(deps, status, s)| - (if d in deps && s == status[d] then 1 else 0)
                                         + (if d in deps && s == now then 1 else 0)
  {
    var before, after := Having(deps, status, s), Having(deps, status[d := now], s);
    assert d in before <==> d in deps && s == status[d];
    assert d in after <==> d in deps && s == now;
    assert forall x :: x != d ==> (x in after <==> x in before);
    OneApart(before, after, d);
  }

  lemma OneApart(a: set<DrvId>, b: set<DrvId>, d: DrvId)
    requires forall x :: x != d ==> (x in a <==> x in b)
    ensures |b| == |a| - (if d in a then 1 else 0) + (if d in b then 1 else 0)
    ensures d in a ==> |a| > 0
  {
    var rest := a - {d};
    assert rest == b - {d};
    if d in a { assert a == rest + {d}; } else { assert a == rest; }
    if d in b { assert b == rest + {d}; } else { assert b == rest; }
  }

  /** How one transition changes the true counts. */
  lemma MoveTruth(c: Counts, moved: Counts, d: DrvId, now: BuildStatus, ep: EpId, s: BuildStatus)
    requires d in c.status && ep in c.entryPoints && c.status[d] != now
    requires moved.entryPoints == c.entryPoints && moved.closure == c.closure
    requires moved.status == c.status[d := now]
    ensures ep in Holders(c, d) && s == c.status[d] ==> Truth(c, ep, s) > 0
    ensures Truth(moved, ep, s)
            == Truth(c, ep, s) - (if ep in Holders(c, d) && s == c.status[d] then 1 else 0)
                               + (if ep in Holders(c, d) && s == now then 1 else 0)
  {
    HavingMoved(Deps(c, ep), c.status, d, now, s);
  }

  /** No stored cell of an entry point exceeds the truth. */
  ghost predicate UnderAt(c: Counts, ep: EpId)
    requires ep in c.entryPoints
  {
    forall s :: Stored(c, ep, s) <= Truth(c, ep, s)
  }

  ghost predicate Under(c: Counts) { forall ep :: ep in c.entryPoints ==> UnderAt(c, ep) }

  ghost predicate Exact(c: Counts, ep: EpId)
    requires ep in c.entryPoints
  {
    forall s :: Stored(c, ep, s) == Truth(c, ep, s)
  }

  lemma HoldersSame(a: Counts, b: Counts, d: DrvId)
    requires a.entryPoints == b.entryPoints && a.closure == b.closure
    ensures Holders(a, d) == Holders(b, d)
  {
    assert forall x :: x in a.entryPoints ==> Deps(a, x) == Deps(b, x);
  }

  /** A transition never pushes a cell above the truth, and keeps an exact histogram exact. */
  lemma MoveKeeps(c: Counts, d: DrvId, now: BuildStatus)
    requires d in c.status
    ensures forall ep :: ep in c.entryPoints && UnderAt(c, ep) ==> UnderAt(Move(c, d, now), ep)
    ensures forall ep :: ep in c.entryPoints && Exact(c, ep) ==> Exact(Move(c, d, now), ep)
  {
    var after := Move(c, d, now);
    if c.status[d] == now {
      assert after.status == c.status;
      assert after == c;
    } else {
      var moved := c.(status := c.status[d := now]);
      forall ep, s | ep in c.entryPoints
        ensures Stored(c, ep, s) <= Truth(c, ep, s) ==> Stored(after, ep, s) <= Truth(after, ep, s)
        ensures Stored(c, ep, s) == Truth(c, ep, s) ==> Stored(after, ep, s) == Truth(after, ep, s)
      {
        MoveTruth(c, after, d, now, ep, s);
        DeltaCells(moved, d, c.status[d], now, ep, s);
        HoldersSame(c, moved, d);
      }
    }
  }

  /** Recomputing makes an evaluation's histograms exact and leaves the others alone. */
  lemma InitExact(c: Counts, e: EvalId)
    ensures forall ep :: ep in c.entryPoints && c.entryPoints[ep].evaluation == e ==> Exact(Init(c, e), ep)
    ensures forall ep, s :: ep in c.entryPoints && c.entryPoints[ep].evaluation != e ==>
              Stored(Init(c, e), ep, s) == Stored(c, ep, s)
    ensures forall ep :: ep in c.entryPoints && UnderAt(c, ep) ==> UnderAt(Init(c, e), ep)
  {
    var w := Init(c, e);
    forall ep, s | ep in c.entryPoints && c.entryPoints[ep].evaluation == e
      ensures Stored(w, ep, s) == Truth(c, ep, s)
    {
      if WithStatus(c, ep, s) != {} {
        var d :| d in WithStatus(c, ep, s);
        assert (ep, s) == (ep, c.status[d]);
        assert (ep, s) in w.rows;
      }
    }
    forall ep, s | ep in c.entryPoints ensures Truth(w, ep, s) == Truth(c, ep, s) {
      assert Deps(w, ep) == Deps(c, ep);
    }
  }

  // ----- runs -----

  datatype Event =
    | Seeded(e: EvalId)                          // recompute an evaluation's histograms
    | Moved(d: DrvId, now: BuildStatus)          // a status transition and its delta
    | Written(d: DrvId, now: BuildStatus)        // a status write that bypasses the delta, or runs ahead of it
    | Delta(d: DrvId, was: BuildStatus, now: BuildStatus)  // a delta on its own, after its write
    | Grown(added: set<Row<DrvId>>)              // more of some closure is materialised
    | Anchored(d: DrvId, s: BuildStatus)         // a new anchor appears

  predicate Enabled(c: Counts, ev: Event) {
    match ev
    case Moved(d, _) => d in c.status
    case Written(d, _) => d in c.status
    case Delta(d, was, now) => was != now
    case Anchored(d, _) => d !in c.status
    case _ => true
  }

  function Next(c: Counts, ev: Event): Counts
    requires Enabled(c, ev)
  {
    match ev
    case Seeded(e) => Init(c, e)
    case Moved(d, now) => Move(c, d, now)
    case Written(d, now) => c.(status := c.status[d := now])
    case Delta(d, was, now) => ApplyDelta(c, d, was, now)
    case Grown(added) => c.(closure := c.closure + added)
    case Anchored(d, s) => c.(status := c.status[d := s])
  }

  /** The event leaves a cell of `ep` above the truth: a write takes a dependency away from a
      cell that was not short, or a delta adds one to such a cell. */
  ghost predicate Overcounts(c: Counts, ev: Event, ep: EpId)
    requires Enabled(c, ev) && ep in c.entryPoints
  {
    match ev
    case Written(d, now) =>
      now != c.status[d] && ep in Holders(c, d) && Stored(c, ep, c.status[d]) >= Truth(c, ep, c.status[d])
    case Delta(d, _, now) => ep in Holders(c, d) && Stored(c, ep, now) >= Truth(c, ep, now)
    case _ => false
  }

  /** The bound survives every event but an overcounting one, and no overcounting one. */
  lemma NextKeepsUnderIff(c: Counts, ev: Event, ep: EpId)
    requires Enabled(c, ev) && ep in c.entryPoints && UnderAt(c, ep)
    ensures ep in Next(c, ev).entryPoints
    ensures UnderAt(Next(c, ev), ep) <==> !Overcounts(c, ev, ep)
  {
    match ev
    case Seeded(e) => InitExact(c, e);
    case Moved(d, now) => MoveKeeps(c, d, now);
    case Written(d, now) => WriteKeepsUnderIff(c, d, now, ep);
    case Delta(d, was, now) => DeltaKeepsUnderIff(c, d, was, now, ep);
    case Grown(_) => TruthGrows(c, Next(c, ev), ep);
    case Anchored(_, _) => TruthGrows(c, Next(c, ev), ep);
  }

  lemma WriteKeepsUnderIff(c: Counts, d: DrvId, now: BuildStatus, ep: EpId)
    requires d in c.status && ep in c.entryPoints && UnderAt(c, ep)
    ensures UnderAt(c.(status := c.status[d := now]), ep) <==> !Overcounts(c, Written(d, now), ep)
  {
    var w, was := c.(status := c.status[d := now]), c.status[d];
    if now == was {
      assert w.status == c.status;
    } else {
      forall s ensures Stored(w, ep, s) == Stored(c, ep, s)
                       && Truth(w, ep, s) == Truth(c, ep, s)
                                             - (if ep in Holders(c, d) && s == was then 1 else 0)
                                             + (if ep in Holders(c, d) && s == now then 1 else 0)
      {
        MoveTruth(c, w, d, now, ep, s);
      }
      assert Stored(c, ep, was) <= Truth(c, ep, was);
      if Overcounts(c, Written(d, now), ep) { assert Stored(w, ep, was) > Truth(w, ep, was); }
    }
  }

  lemma DeltaKeepsUnderIff(c: Counts, d: DrvId, was: BuildStatus, now: BuildStatus, ep: EpId)
    requires was != now && ep in c.entryPoints && UnderAt(c, ep)
    ensures UnderAt(ApplyDelta(c, d, was, now), ep) <==> !Overcounts(c, Delta(d, was, now), ep)
  {
    var w := ApplyDelta(c, d, was, now);
    forall s ensures Truth(w, ep, s) == Truth(c, ep, s) { assert Deps(w, ep) == Deps(c, ep); }
    forall s ensures Stored(w, ep, s) <= Stored(c, ep, s) + (if s == now && ep in Holders(c, d) then 1 else 0) {
      DeltaCells(c, d, was, now, ep, s);
    }
    DeltaCells(c, d, was, now, ep, now);
    if Overcounts(c, Delta(d, was, now), ep) { assert Stored(w, ep, now) > Truth(w, ep, now); }
  }

  lemma TruthGrows(c: Counts, w: Counts, ep: EpId)
    requires ep in c.entryPoints && UnderAt(c, ep)
    requires w.rows == c.rows && w.entryPoints == c.entryPoints && c.closure <= w.closure
    requires forall d :: d in c.status ==> d in w.status && w.status[d] == c.status[d]
    ensures UnderAt(w, ep)
  {
    forall s ensures Stored(w, ep, s) <= Truth(w, ep, s) {
      assert Stored(c, ep, s) <= Truth(c, ep, s);
      SubsetCard(WithStatus(c, ep, s), WithStatus(w, ep, s));
    }
  }

  /** A write that bypasses the delta overcounts wherever the histogram was exact. */
  lemma BypassOvercounts(c: Counts, d: DrvId, now: BuildStatus, ep: EpId)
    requires d in c.status && now != c.status[d] && ep in Holders(c, d) && Exact(c, ep)
    ensures !UnderAt(Next(c, Written(d, now)), ep)
  {
    WriteKeepsUnderIff(c, d, now, ep);
  }

  /** So does a delta whose write a seed has counted already. */
  lemma SeedBetweenOvercounts(c: Counts, d: DrvId, now: BuildStatus, ep: EpId)
    requires d in c.status && now != c.status[d] && ep in Holders(c, d)
    ensures var seeded := Next(Next(c, Written(d, now)), Seeded(c.entryPoints[ep].evaluation));
            && ep in seeded.entryPoints && Exact(seeded, ep)
            && !UnderAt(Next(seeded, Delta(d, c.status[d], now)), ep)
  {
    var w := Next(c, Written(d, now));
    var e := c.entryPoints[ep].evaluation;
    InitExact(w, e);
    HoldersSame(c, Init(w, e), d);
    DeltaKeepsUnderIff(Init(w, e), d, c.status[d], now, ep);
  }

  /** A write and its delta with nothing between them are one move. */
  lemma WriteThenDelta(c: Counts, d: DrvId, now: BuildStatus)
    requires d in c.status && now != c.status[d]
    ensures Next(Next(c, Written(d, now)), Delta(d, c.status[d], now)) == Next(c, Moved(d, now))
  {
  }

  ghost predicate IsRun(states: seq<Counts>, events: seq<Event>) {
    && |states| == |events| + 1
    && forall i :: 0 <= i < |events| ==>
         Enabled(states[i], events[i]) && states[i + 1] == Next(states[i], events[i])
  }

  lemma {:induction false} RunKeepsEntryPoints(states: seq<Counts>, events: seq<Event>, i: nat)
    requires IsRun(states, events) && i < |states|
    ensures states[i].entryPoints == states[0].entryPoints
  {
    if i > 0 { RunKeepsEntryPoints(states, events, i - 1); }
  }

  /** The evaluation of `ep` is seeded at some step from `j` on, before step `i`. */
  ghost predicate SeededWithin(states: seq<Counts>, events: seq<Event>, ep: EpId, j: nat, i: nat)
    requires IsRun(states, events) && i < |states| && ep in states[0].entryPoints
  {
    exists k :: j <= k < i && events[k] == Seeded(states[0].entryPoints[ep].evaluation)
  }

  ghost predicate OvercountsAt(states: seq<Counts>, events: seq<Event>, ep: EpId, j: nat)
    requires IsRun(states, events) && j < |events|
  {
    ep in states[j].entryPoints && Overcounts(states[j], events[j], ep)
  }

  /** Before step `i` every overcount of `ep`, and a start above the truth, was followed by a seed
      of its evaluation. */
  ghost predicate Reseeded(states: seq<Counts>, events: seq<Event>, ep: EpId, i: nat)
    requires IsRun(states, events) && i < |states| && ep in states[0].entryPoints
  {
    && (UnderAt(states[0], ep) || SeededWithin(states, events, ep, 0, i))
    && forall j :: 0 <= j < i && OvercountsAt(states, events, ep, j) ==>
         SeededWithin(states, events, ep, j, i)
  }

  /** Over every run of seeds, transitions, bypassing writes, late deltas, closure growth and new
      anchors, no cell of an entry point exceeds the truth once its overcounts are reseeded. */
  lemma {:induction false} RunKeepsUnder(states: seq<Counts>, events: seq<Event>, ep: EpId, i: nat)
    requires IsRun(states, events) && ep in states[0].entryPoints && i < |states|
    requires Reseeded(states, events, ep, i)
    ensures ep in states[i].entryPoints && UnderAt(states[i], ep)
  {
    RunKeepsEntryPoints(states, events, i);
    if i > 0 {
      RunKeepsEntryPoints(states, events, i - 1);
      if events[i - 1] == Seeded(states[0].entryPoints[ep].evaluation) {
        InitExact(states[i - 1], events[i - 1].e);
      } else {
        ReseededBefore(states, events, ep, i);
        RunKeepsUnder(states, events, ep, i - 1);
        NextKeepsUnderIff(states[i - 1], events[i - 1], ep);
      }
    }
  }

  lemma ReseededBefore(states: seq<Counts>, events: seq<Event>, ep: EpId, i: nat)
    requires IsRun(states, events) && ep in states[0].entryPoints && 0 < i < |states|
    requires Reseeded(states, events, ep, i) && events[i - 1] != Seeded(states[0].entryPoints[ep].evaluation)
    ensures Reseeded(states, events, ep, i - 1) && !OvercountsAt(states, events, ep, i - 1)
  {
    forall j | 0 <= j < i && SeededWithin(states, events, ep, j, i)
      ensures j < i - 1 && SeededWithin(states, events, ep, j, i - 1)
    {
      var k :| j <= k < i && events[k] == Seeded(states[0].entryPoints[ep].evaluation);
      assert k < i - 1;
    }
  }

  // ----- the rebuild question -----

  /** Whether some root's stored total is short of its non-empty closure. */
  predicate HistogramNeedsRebuild(perRoot: seq<(int, int)>) {
    exists i :: 0 <= i < |perRoot| && perRoot[i].1 > 0 && perRoot[i].0 < perRoot[i].1
  }

  const STATUSES: seq<BuildStatus> :=
    [Created, Queued, Building, Completed, FailedPermanent,
     Aborted, DependencyFailed, Substituted, FailedTransient, FailedTimeout]

  lemma EveryStatusListed(s: BuildStatus)
    ensures exists i :: 0 <= i < |STATUSES| && STATUSES[i] == s
  {
    match s {
      case Created => assert STATUSES[0] == s;
      case Queued => assert STATUSES[1] == s;
      case Building => assert STATUSES[2] == s;
      case Completed => assert STATUSES[3] == s;
      case FailedPermanent => assert STATUSES[4] == s;
      case Aborted => assert STATUSES[5] == s;
      case DependencyFailed => assert STATUSES[6] == s;
      case Substituted => assert STATUSES[7] == s;
      case FailedTransient => assert STATUSES[8] == s;
      case FailedTimeout => assert STATUSES[9] == s;
    }
  }

  /** The stored total over the first `k` statuses. */
  function Total(c: Counts, ep: EpId, k: nat): nat
    requires k <= |STATUSES|
  {
    if k == 0 then 0 else Total(c, ep, k - 1) + Stored(c, ep, STATUSES[k - 1])
  }

  function Covered(c: Counts, ep: EpId, k: nat): set<DrvId>
    requires ep in c.entryPoints && k <= |STATUSES|
  {
    set d | d in Deps(c, ep) && d in c.status && c.status[d] in STATUSES[..k]
  }

  lemma {:induction false} CoveredGrows(c: Counts, ep: EpId, k: nat)
    requires ep in c.entryPoints && 0 < k <= |STATUSES|
    ensures |Covered(c, ep, k)| == |Covered(c, ep, k - 1)| + Truth(c, ep, STATUSES[k - 1])
  {
    var s := STATUSES[k - 1];
    assert STATUSES[..k] == STATUSES[..k - 1] + [s];
    assert s !in STATUSES[..k - 1];
    var less, here := Covered(c, ep, k - 1), WithStatus(c, ep, s);
    assert Covered(c, ep, k) == less + here;
    assert less !! here;
  }

  /** With no cell above the truth, the total reaches the covered dependencies exactly
      when every cell counted so far is true. */
  lemma {:induction false} TotalExactIff(c: Counts, ep: EpId, k: nat)
    requires ep in c.entryPoints && UnderAt(c, ep) && k <= |STATUSES|
    ensures Total(c, ep, k) <= |Covered(c, ep, k)|
    ensures Total(c, ep, k) == |Covered(c, ep, k)|
            <==> forall i :: 0 <= i < k ==> Stored(c, ep, STATUSES[i]) == Truth(c, ep, STATUSES[i])
  {
    if k == 0 {
      assert Covered(c, ep, 0) == {};
    } else {
      TotalExactIff(c, ep, k - 1);
      CoveredGrows(c, ep, k);
      assert Stored(c, ep, STATUSES[k - 1]) <= Truth(c, ep, STATUSES[k - 1]);
    }
  }

  /** The pair the caller computes for an entry point: stored total and closure size. */
  function RootPair(c: Counts, ep: EpId): (int, int)
    requires ep in c.entryPoints
  {
    (Total(c, ep, |STATUSES|), |Deps(c, ep)|)
  }

  /** Every closure dependency has an anchor. */
  ghost predicate Anchors(c: Counts, ep: EpId)
    requires ep in c.entryPoints
  {
    forall d :: d in Deps(c, ep) ==> d in c.status
  }

  lemma ShortIff(c: Counts, ep: EpId)
    requires ep in c.entryPoints && UnderAt(c, ep)
    ensures var p := RootPair(c, ep);
            (p.1 > 0 && p.0 < p.1) <==> !Exact(c, ep) || !Anchors(c, ep)
  {
    TotalExactIff(c, ep, |STATUSES|);
    CoveredAll(c, ep);
    if forall i :: 0 <= i < |STATUSES| ==> Stored(c, ep, STATUSES[i]) == Truth(c, ep, STATUSES[i]) {
      forall s ensures Stored(c, ep, s) == Truth(c, ep, s) {
        EveryStatusListed(s);
      }
    }
  }

  lemma CoveredAll(c: Counts, ep: EpId)
    requires ep in c.entryPoints
    ensures |Covered(c, ep, |STATUSES|)| <= |Deps(c, ep)|
    ensures |Covered(c, ep, |STATUSES|)| == |Deps(c, ep)| <==> Anchors(c, ep)
  {
    var all := Covered(c, ep, |STATUSES|);
    assert STATUSES[..|STATUSES|] == STATUSES;
    forall d | d in Deps(c, ep) && d in c.status ensures d in all {
      EveryStatusListed(c.status[d]);
    }
    SubsetCard(all, Deps(c, ep));
    if d :| d in Deps(c, ep) && d !in c.status {
      SubsetCard(all, Deps(c, ep) - {d});
    } else {
      assert all == Deps(c, ep);
    }
  }

  /** The rebuild question, exactly: it fires when some entry point's histogram differs from
      the truth or some dependency has no anchor. Where every dependency has one, as the
      table promises, it fires precisely on a wrong histogram. */
  lemma NeedsRebuildIff(c: Counts, eps: seq<EpId>)
    requires forall ep :: ep in eps ==> ep in c.entryPoints && UnderAt(c, ep)
    ensures HistogramNeedsRebuild(seq(|eps|, i requires 0 <= i < |eps| => RootPair(c, eps[i])))
            <==> exists ep :: ep in eps && (!Exact(c, ep) || !Anchors(c, ep))
  {
    var pairs := seq(|eps|, i requires 0 <= i < |eps| => RootPair(c, eps[i]));
    forall i | 0 <= i < |eps|
      ensures (pairs[i].1 > 0 && pairs[i].0 < pairs[i].1) <==> !Exact(c, eps[i]) || !Anchors(c, eps[i])
    {
      ShortIff(c, eps[i]);
    }
    if ep :| ep in eps && (!Exact(c, ep) || !Anchors(c, ep)) {
      var i :| 0 <= i < |eps| && eps[i] == ep;
      assert pairs[i].1 > 0 && pairs[i].0 < pairs[i].1;
    }
  }

  /** A delta applied after its transition: every cell, and what it preserves. */
  lemma DeltaMeans(c: Counts, d: DrvId, was: BuildStatus, now: BuildStatus)
    ensures var w := ApplyDelta(c, d, was, now);
            && Holders(w, d) == Holders(c, d)
            && (forall ep, s :: Stored(w, ep, s)
                  == (if s == was && ep in Holders(c, d) && Stored(c, ep, s) > 0 then Stored(c, ep, s) - 1
                      else Stored(c, ep, s))
                     + (if s == now && ep in Holders(c, d) then 1 else 0))
            && (d in c.status && c.status[d] == now && was != now ==>
                  var before := c.(status := c.status[d := was]);
                  && (Under(before) ==> Under(w))
                  && (forall ep :: ep in c.entryPoints && Exact(before, ep) ==> Exact(w, ep)))
  {
    var w := ApplyDelta(c, d, was, now);
    HoldersSame(c, w, d);
    forall ep, s ensures Stored(w, ep, s)
                  == (if s == was && ep in Holders(c, d) && Stored(c, ep, s) > 0 then Stored(c, ep, s) - 1
                      else Stored(c, ep, s))
                     + (if s == now && ep in Holders(c, d) then 1 else 0)
    {
      DeltaCells(c, d, was, now, ep, s);
    }
    if d in c.status && c.status[d] == now && was != now { DeltaRestores(c, d, was, now); }
  }

  lemma DeltaRestores(c: Counts, d: DrvId, was: BuildStatus, now: BuildStatus)
    requires d in c.status && c.status[d] == now && was != now
    ensures var before, w := c.(status := c.status[d := was]), ApplyDelta(c, d, was, now);
            && (Under(before) ==> Under(w))
            && (forall ep :: ep in c.entryPoints && Exact(before, ep) ==> Exact(w, ep))
  {
    var before := c.(status := c.status[d := was]);
    assert before.status[d := now] == c.status;
    assert Move(before, d, now) == ApplyDelta(c, d, was, now);
    MoveKeeps(before, d, now);
  }

  // ----- the rows as they are updated -----

  class CountTable {
    var entryPoints: map<EpId, EntryPoint>
    var closure: set<Row<DrvId>>
    var status: map<DrvId, BuildStatus>
    var rows: map<(EpId, BuildStatus), nat>

    function View(): Counts
      reads this
    {
      Counts(entryPoints, closure, status, rows)
    }

    method InitEntryPointDepCounts(e: EvalId)
      modifies this`rows
      ensures forall ep :: ep in entryPoints && entryPoints[ep].evaluation == e ==> Exact(View(), ep)
      ensures forall ep, s :: ep in entryPoints && entryPoints[ep].evaluation != e ==>
                Stored(View(), ep, s) == Stored(old(View()), ep, s)
      ensures Under(old(View())) ==> Under(View())
      ensures View() == Init(old(View()), e)
    {
      InitExact(View(), e);
      rows := Init(View(), e).rows;
    }

    /** Two statements: decrement the old cells, then insert or bump the new ones. */
    method ApplyDepCountDelta(d: DrvId, was: BuildStatus, now: BuildStatus)
      modifies this`rows
      ensures forall ep, s :: Stored(View(), ep, s)
                == (if s == was && ep in Holders(View(), d) && Stored(old(View()), ep, s) > 0
                    then Stored(old(View()), ep, s) - 1 else Stored(old(View()), ep, s))
                   + (if s == now && ep in Holders(View(), d) then 1 else 0)
      ensures d in status && status[d] == now && was != now ==>
                var before := old(View()).(status := status[d := was]);
                && (Under(before) ==> Under(View()))
                && (forall ep :: ep in entryPoints && Exact(before, ep) ==> Exact(View(), ep))
      ensures View() == ApplyDelta(old(View()), d, was, now)
    {
      DeltaMeans(View(), d, was, now);
      rows := Decrement(View(), d, was).rows;
      rows := Increment(View(), d, now).rows;
    }
  }
}
