/** The per-project evaluation collection: which evaluations go, and how the linked list
    and the commits are left behind. */
module EvalGc {
  import opened Walks
  import opened Tables
  import opened Wrappers
  import opened Abort

  const TICKS_PER_HOUR := 3_600_000_000   // microseconds

  /** What the selection reads of one evaluation, newest first in a list. */
  datatype Age = Age(status: EvalStatus, updatedAt: int)

  // ----- selection -----

  /** An active evaluation blocks unless it has been untouched for `wedgedHours`. */
  predicate Blocks(a: Age, wedgedHours: int, now: int) {
    a.status.Active() && (wedgedHours <= 0 || now - a.updatedAt < wedgedHours * TICKS_PER_HOUR)
  }

  predicate Blocked(evals: seq<Age>, wedgedHours: int, now: int) {
    exists i :: 0 <= i < |evals| && Blocks(evals[i], wedgedHours, now)
  }

  /** Some evaluation has not ended and was touched less than `wedgedHours` ago, or no time after
      which it would count as stuck is set. */
  ghost predicate Busy(evals: seq<Age>, wedgedHours: int, now: int) {
    exists i :: 0 <= i < |evals| && Unfinished(evals[i].status)
                && (wedgedHours <= 0 || evals[i].updatedAt > now - wedgedHours * 3_600_000_000)
  }

  predicate Unfinished(s: EvalStatus) {
    s in {EvalQueued, Fetching, EvaluatingFlake, EvaluatingDerivation, EvalBuilding, Waiting}
  }

  lemma BusyIff(evals: seq<Age>, wedgedHours: int, now: int)
    ensures Blocked(evals, wedgedHours, now) <==> Busy(evals, wedgedHours, now)
  {
    if i :| 0 <= i < |evals| && Blocks(evals[i], wedgedHours, now) { assert Unfinished(evals[i].status); }
    if i :| 0 <= i < |evals| && Unfinished(evals[i].status)
            && (wedgedHours <= 0 || evals[i].updatedAt > now - wedgedHours * 3_600_000_000)
    {
      assert Blocks(evals[i], wedgedHours, now);
    }
  }

  /** How many of these evaluations are terminal. */
  function Terminals(evals: seq<Age>): (n: nat)
    ensures n <= |evals|
  {
    if evals == [] then 0
    else Terminals(evals[..|evals| - 1]) + if evals[|evals| - 1].status.Active() then 0 else 1
  }

  /** Terminal, with at least `keep` newer terminal ones. */
  predicate Old(evals: seq<Age>, keep: nat, i: nat) {
    i < |evals| && !evals[i].status.Active() && Terminals(evals[..i]) >= keep
  }

  method EvaluationsToGc(evals: seq<Age>, keep: nat, wedgedHours: int, now: int) returns (delete: seq<nat>)
    ensures keep == 0 || Busy(evals, wedgedHours, now) ==> delete == []
    ensures keep > 0 && !Busy(evals, wedgedHours, now) ==> forall i: nat :: i in delete <==> Old(evals, keep, i)
    ensures forall k :: 0 <= k < |delete| ==> delete[k] < |evals|
    ensures forall i, j :: 0 <= i < j < |delete| ==> delete[i] < delete[j]
  {
    delete := [];
    BusyIff(evals, wedgedHours, now);
    if keep == 0 { return; }
    if Blocked(evals, wedgedHours, now) { return; }
    var kept := 0;
    for n := 0 to |evals|
      invariant kept == if Terminals(evals[..n]) < keep then Terminals(evals[..n]) else keep
      invariant forall i: nat :: i in delete <==> i < n && Old(evals, keep, i)
      invariant forall k :: 0 <= k < |delete| ==> delete[k] < n
      invariant forall i, j :: 0 <= i < j < |delete| ==> delete[i] < delete[j]
    {
      assert evals[..n + 1][..n] == evals[..n];
      if !evals[n].status.Active() {
        if kept < keep {
          kept := kept + 1;
        } else {
          delete := delete + [n];
        }
      }
    }
    assert evals[..|evals|] == evals;
  }

  // ----- what the selection means -----

  /** The terminal evaluations that stay. */
  function Kept(evals: seq<Age>, keep: nat): set<nat> {
    set i: nat | 0 <= i < |evals| && Young(evals, keep, i)
  }

  predicate Young(evals: seq<Age>, keep: nat, i: nat) {
    i < |evals| && !evals[i].status.Active() && !Old(evals, keep, i)
  }

  /** Of the terminal evaluations exactly the newest `keep` stay, or all of them when
      there are fewer; every one that goes is older than every one that stays. */
  lemma KeepsTheNewest(evals: seq<Age>, keep: nat)
    ensures |Kept(evals, keep)| == if Terminals(evals) < keep then Terminals(evals) else keep
    ensures forall i: nat, j: nat :: Young(evals, keep, i) && Old(evals, keep, j) ==> i < j
  {
    forall i: nat, j: nat | Young(evals, keep, i) && Old(evals, keep, j) ensures i < j {
      if j < i { TerminalsGrow(evals, j, i); }
    }
    KeptCount(evals, keep);
  }

  lemma {:induction false} TerminalsGrow(evals: seq<Age>, i: nat, j: nat)
    requires i <= j <= |evals|
    ensures Terminals(evals[..i]) <= Terminals(evals[..j])
    decreases j
  {
    if i < j {
      TerminalsGrow(evals, i, j - 1);
      assert evals[..j][..j - 1] == evals[..j - 1];
    }
  }

  lemma {:induction false} KeptCount(evals: seq<Age>, keep: nat)
    ensures |Kept(evals, keep)| == if Terminals(evals) < keep then Terminals(evals) else keep
  {
    if evals != [] {
      KeptCount(evals[..|evals| - 1], keep);
      KeptInit(evals, keep);
    }
  }

  lemma KeptInit(evals: seq<Age>, keep: nat)
    requires evals != []
    ensures |evals| - 1 !in Kept(evals[..|evals| - 1], keep)
    ensures Kept(evals, keep) ==
            Kept(evals[..|evals| - 1], keep) + if Young(evals, keep, |evals| - 1) then {|evals| - 1} else {}
  {
    var n := |evals| - 1;
    forall i: nat | i < n ensures Young(evals, keep, i) <==> Young(evals[..n], keep, i) {
      assert evals[..i] == evals[..n][..i];
    }
  }

  // ----- the rows -----

  datatype CommitId = CommitId(uuid: nat)

  datatype EvalLink = EvalLink(
    project: Option<ProjectId>, age: Age, createdAt: int,
    previous: Option<EvalId>, next: Option<EvalId>, commit: CommitId)

  function Without(pointer: Option<EvalId>, doomed: set<EvalId>): Option<EvalId> {
    if pointer.Some? && pointer.value in doomed then None else pointer
  }

  /** A row of the project after the list was broken around `doomed`. */
  function UnlinkRow(e: EvalId, r: EvalLink, doomed: set<EvalId>): EvalLink {
    if e in doomed then r.(previous := None, next := None)
    else r.(previous := Without(r.previous, doomed), next := Without(r.next, doomed))
  }

  function Unlink(rows: map<EvalId, EvalLink>, mine: set<EvalId>, doomed: set<EvalId>): map<EvalId, EvalLink> {
    map e | e in rows :: if e in mine then UnlinkRow(e, rows[e], doomed) else rows[e]
  }

  function Drop(rows: map<EvalId, EvalLink>, doomed: set<EvalId>): map<EvalId, EvalLink> {
    map e | e in rows && e !in doomed :: rows[e]
  }

  predicate CommitUsed(rows: map<EvalId, EvalLink>, c: CommitId) {
    exists e :: e in rows && rows[e].commit == c
  }

  /** The commits left when `doomed` rows are gone: those of doomed rows only if a
      remaining row still uses them. */
  function CommitsAfter(rows: map<EvalId, EvalLink>, commits: set<CommitId>, doomed: set<EvalId>): set<CommitId> {
    set c | c in commits && (CommitUsed(Drop(rows, doomed), c) || !CommitUsed(rows, c))
  }

  function OfProject(rows: map<EvalId, EvalLink>, p: ProjectId): set<EvalId> {
    set e | e in rows && rows[e].project == Some(p)
  }

  /** The newest-first answer of the evaluation query for one project. */
  ghost predicate NewestFirst(rows: map<EvalId, EvalLink>, p: ProjectId, all: seq<EvalId>) {
    && Elements(all) == OfProject(rows, p)
    && (forall i, j :: 0 <= i < j < |all| ==> all[i] != all[j])
    && (forall i :: 0 <= i < |all| ==> all[i] in rows)
    && (forall i, j :: 0 <= i < j < |all| ==> rows[all[i]].createdAt >= rows[all[j]].createdAt)
  }

  function Ages(rows: map<EvalId, EvalLink>, all: seq<EvalId>): (s: seq<Age>)
    requires forall i :: 0 <= i < |all| ==> all[i] in rows
    ensures |s| == |all| && forall i :: 0 <= i < |all| ==> s[i] == rows[all[i]].age
  {
    seq(|all|, i requires 0 <= i < |all| => rows[all[i]].age)
  }

  /** Every pointer names an existing row of the same project. */
  ghost predicate Linked(rows: map<EvalId, EvalLink>) {
    forall e :: e in rows ==> PointsHome(rows, e, rows[e].previous) && PointsHome(rows, e, rows[e].next)
  }

  predicate PointsHome(rows: map<EvalId, EvalLink>, e: EvalId, pointer: Option<EvalId>)
    requires e in rows
  {
    pointer.Some? ==> pointer.value in rows && rows[pointer.value].project == rows[e].project
  }

  /** The collection leaves a well-linked table well linked: no surviving pointer, in any
      project, names a deleted row, and a pointer between survivors is kept. */
  lemma CollectKeepsLinked(rows: map<EvalId, EvalLink>, p: ProjectId, doomed: set<EvalId>)
    requires Linked(rows) && doomed <= OfProject(rows, p)
    ensures Linked(Drop(Unlink(rows, OfProject(rows, p), doomed), doomed))
    ensures forall e :: e in rows && e !in doomed ==>
              var r := Drop(Unlink(rows, OfProject(rows, p), doomed), doomed)[e];
              r == rows[e].(previous := Without(rows[e].previous, doomed), next := Without(rows[e].next, doomed))
  {
    var after := Drop(Unlink(rows, OfProject(rows, p), doomed), doomed);
    forall e | e in rows && e !in doomed
      ensures after[e] == rows[e].(previous := Without(rows[e].previous, doomed), next := Without(rows[e].next, doomed))
    {
      assert PointsHome(rows, e, rows[e].previous) && PointsHome(rows, e, rows[e].next);
    }
    forall e | e in after ensures PointsHome(after, e, after[e].previous) && PointsHome(after, e, after[e].next) {
      assert PointsHome(rows, e, rows[e].previous) && PointsHome(rows, e, rows[e].next);
    }
  }

  // ----- the operation -----

  class EvaluationTable {
    var rows: map<EvalId, EvalLink>
    var commits: set<CommitId>

    constructor (rows0: map<EvalId, EvalLink>, commits0: set<CommitId>)
      ensures rows == rows0 && commits == commits0
    {
      rows, commits := rows0, commits0;
    }

    method GcProjectEvaluations(p: ProjectId, keep: nat, wedgedHours: int, now: int, all: seq<EvalId>)
      returns (doomed: set<EvalId>)
      requires NewestFirst(rows, p, all)
      modifies this
      ensures keep == 0 || Blocked(old(Ages(rows, all)), wedgedHours, now) ==> doomed == {}
      ensures keep > 0 && !Blocked(old(Ages(rows, all)), wedgedHours, now) ==>
                forall i :: 0 <= i < |all| ==> (all[i] in doomed <==> Old(old(Ages(rows, all)), keep, i))
      ensures doomed <= OfProject(old(rows), p)
      ensures rows == Drop(Unlink(old(rows), OfProject(old(rows), p), doomed), doomed)
      ensures commits == CommitsAfter(old(rows), old(commits), doomed)
    {
      var ages := Ages(rows, all);
      var delete := EvaluationsToGc(ages, keep, wedgedHours, now);
      var toDelete := Pick(all, delete);
      doomed := Elements(toDelete);
      PickIndices(all, delete, toDelete);
      UnlinkNothing(rows, commits, OfProject(rows, p));
      if delete == [] {
        assert doomed == {};
        return;
      }
      rows := BreakList(rows, all, Elements(toDelete));
      CommitsUnlinked(old(rows), rows, commits, doomed);
      rows, commits := DeleteEach(rows, commits, toDelete);
    }
  }

  method Pick(all: seq<EvalId>, delete: seq<nat>) returns (picked: seq<EvalId>)
    requires forall k :: 0 <= k < |delete| ==> delete[k] < |all|
    ensures |picked| == |delete| && forall k :: 0 <= k < |delete| ==> picked[k] == all[delete[k]]
  {
    picked := seq(|delete|, k requires 0 <= k < |delete| => all[delete[k]]);
  }

  lemma PickIndices(all: seq<EvalId>, delete: seq<nat>, picked: seq<EvalId>)
    requires forall k :: 0 <= k < |delete| ==> delete[k] < |all|
    requires forall i, j :: 0 <= i < j < |delete| ==> delete[i] < delete[j]
    requires forall i, j :: 0 <= i < j < |all| ==> all[i] != all[j]
    requires |picked| == |delete| && forall k :: 0 <= k < |delete| ==> picked[k] == all[delete[k]]
    ensures forall i :: 0 <= i < |all| ==> (all[i] in Elements(picked) <==> i in delete)
    ensures forall i, j :: 0 <= i < j < |picked| ==> picked[i] != picked[j]
    ensures Elements(picked) <= Elements(all)
  {
    forall i | 0 <= i < |all| ensures all[i] in Elements(picked) <==> i in delete {
      if all[i] in picked {
        var k :| 0 <= k < |picked| && picked[k] == all[i];
        assert all[delete[k]] == all[i];
        assert delete[k] == i;
      }
      if i in delete {
        var k :| 0 <= k < |delete| && delete[k] == i;
        assert picked[k] == all[i];
      }
    }
    forall e | e in Elements(picked) ensures e in all {
      var k :| 0 <= k < |picked| && picked[k] == e;
      assert all[delete[k]] == e;
    }
  }

  lemma UnlinkNothing(rows: map<EvalId, EvalLink>, commits: set<CommitId>, mine: set<EvalId>)
    ensures Drop(Unlink(rows, mine, {}), {}) == rows
    ensures CommitsAfter(rows, commits, {}) == commits
  {
    assert Drop(rows, {}) == rows;
  }

  /** Null the pointers of doomed rows and every listed pointer into them. */
  method BreakList(rows: map<EvalId, EvalLink>, all: seq<EvalId>, doomed: set<EvalId>)
    returns (after: map<EvalId, EvalLink>)
    requires forall i :: 0 <= i < |all| ==> all[i] in rows
    requires forall i, j :: 0 <= i < j < |all| ==> all[i] != all[j]
    ensures after == Unlink(rows, Elements(all), doomed)
  {
    after := rows;
    for n := 0 to |all|
      invariant after.Keys == rows.Keys
      invariant forall i :: 0 <= i < n ==> after[all[i]] == UnlinkRow(all[i], rows[all[i]], doomed)
      invariant forall e :: e in rows && e !in all[..n] ==> after[e] == rows[e]
    {
      var e := all[n];
      assert e !in all[..n];
      var r := after[e];
      var dropPrev := r.previous.Some? && r.previous.value in doomed;
      var dropNext := r.next.Some? && r.next.value in doomed;
      if e in doomed || dropPrev || dropNext {
        if e in doomed || dropPrev { r := r.(previous := None); }
        if e in doomed || dropNext { r := r.(next := None); }
        after := after[e := r];
      }
      assert all[..n + 1] == all[..n] + [e];
    }
    assert all[..|all|] == all;
  }

  lemma CommitsUnlinked(
      rows: map<EvalId, EvalLink>, after: map<EvalId, EvalLink>, commits: set<CommitId>, doomed: set<EvalId>)
    requires rows.Keys == after.Keys && forall e :: e in rows ==> after[e].commit == rows[e].commit
    ensures CommitsAfter(after, commits, doomed) == CommitsAfter(rows, commits, doomed)
  {
    forall c ensures CommitUsed(after, c) <==> CommitUsed(rows, c) {
    }
    var a, b := Drop(after, doomed), Drop(rows, doomed);
    forall c ensures CommitUsed(a, c) <==> CommitUsed(b, c) {
    }
  }

  /** Delete the rows one by one, each time dropping a commit nothing uses any more. */
  method DeleteEach(rows: map<EvalId, EvalLink>, commits: set<CommitId>, toDelete: seq<EvalId>)
    returns (left: map<EvalId, EvalLink>, kept: set<CommitId>)
    requires forall i :: 0 <= i < |toDelete| ==> toDelete[i] in rows
    requires forall i, j :: 0 <= i < j < |toDelete| ==> toDelete[i] != toDelete[j]
    ensures left == Drop(rows, Elements(toDelete))
    ensures kept == CommitsAfter(rows, commits, Elements(toDelete))
  {
    left, kept := rows, commits;
    UnlinkNothing(rows, commits, {});
    assert Drop(rows, {}) == rows;
    for n := 0 to |toDelete|
      invariant left == Drop(rows, Elements(toDelete[..n]))
      invariant kept == CommitsAfter(rows, commits, Elements(toDelete[..n]))
    {
      var e := toDelete[n];
      assert toDelete[..n + 1] == toDelete[..n] + [e];
      ElementsAppend(toDelete[..n], [e]);
      var c := left[e].commit;
      CommitStep(rows, commits, Elements(toDelete[..n]), e);
      left := left - {e};
      if !CommitUsed(left, c) && c in kept {
        kept := kept - {c};
      }
    }
    assert toDelete[..|toDelete|] == toDelete;
  }

  lemma CommitStep(rows: map<EvalId, EvalLink>, commits: set<CommitId>, doomed: set<EvalId>, e: EvalId)
    requires e in rows && e !in doomed
    ensures Drop(rows, doomed) - {e} == Drop(rows, doomed + {e})
    ensures CommitsAfter(rows, commits, doomed + {e}) ==
            CommitsAfter(rows, commits, doomed)
            - if CommitUsed(Drop(rows, doomed + {e}), rows[e].commit) then {} else {rows[e].commit}
  {
    var before, after := Drop(rows, doomed), Drop(rows, doomed + {e});
    forall c | c != rows[e].commit ensures CommitUsed(before, c) <==> CommitUsed(after, c) {
      if CommitUsed(before, c) {
        var f :| f in before && before[f].commit == c;
        assert f in after && after[f].commit == c;
      }
      if CommitUsed(after, c) {
        var f :| f in after && after[f].commit == c;
        assert f in before && before[f].commit == c;
      }
    }
    assert before[e].commit == rows[e].commit;
    assert CommitUsed(rows, rows[e].commit);
  }
}
