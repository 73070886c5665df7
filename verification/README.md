# A verified model of Gradient's build graph

Gradient is a Nix CI and build server. Every derivation has one global *anchor*, a
`derivation_build` row with a status, facts about its edges, and two derived flags,
`closure_complete` and `drv_closure_cached`. Cached store paths have a derived flag of
their own. The scheduler dispatches an anchor when the flags say that its inputs are there,
so the flags must never promise more than the cache holds, and no anchor may be left behind.

This project models that machinery and the programs around it:

| file | what it models |
|---|---|
| `Walks`, `FlagFixpoint` | the recursive query as a least closed set; a family of gate flags as a monotone system, its CLEAR-then-SET loop and its frontier ripple |
| `Wrappers`, `Tables`, `Gates` | the tables as maps and sets; the gates, the dispatch predicates and the consistency counts |
| `Promotion`, `CacheStorage`, `Reconcile` | thaw, sweep, cascade, promotion; deletion, demotion and the upward clears; the ordered pass |
| `PassScopes` | what a pass of each scope leaves: statuses, columns, paths and report, scope by scope |
| `Ripple`, `Unstick` | the incremental ripple against the full pass; two and three passes in a row |
| `Dispatch`, `BetweenPasses`, `UnsafeRun` | what a dispatched anchor can rely on, over whole runs: right after a pass, between passes, and a run in which it cannot |
| `NoDeadZone` | the converse: whatever has its inputs is dispatched |
| `Transition` | the guarded status update of one anchor with its ripple, promotions and cascade, as steps of such runs |
| `Store` | the same operations as methods of a `Database` that change its tables, with their loops |
| `PatternText`, `Ordered`, `WildcardWalk`, `WildcardMatch`, `Discovery` | wildcard patterns, the traversal with its two sinks, what matches, and splitting discovery into shards |
| `DepCounts`, `ClosureSizes` | the per-entry-point status histogram kept by deltas; one-root and batched closure sizes |
| `Abort`, `Gc`, `EvalGc` | hard, soft and restart aborts; the derivation collection; the evaluation collection |
| `ATerm`, `ATermPrint`, `ATermGrammar` | the `.drv` reader, its inverse and the grammar it accepts |
| `FlakeRef`, `FlakeLock` | flake references; the `flake.lock` rewrite |

Conventions. A table with a key is a map, a relation is a set of rows. One SQL `UPDATE` is one
simultaneous update that reads the state before it. A recursive query is `Walks.Reach`, proved
to be the least closed set and to be the nodes on paths. Anchors are keyed by their derivation,
of which each has one. Every database call succeeds unless the source handles its failure.
Acyclicity appears as a rank on nodes, and only where a result needs it.

Main results, in short:

- From any state whatsoever, cycles and stale flags included, one `Deep` pass drives all five
  consistency counts to zero (`Reconcile.DeepPassConverges`).
- Over every run of ingests, deletions, demotions with or without their upward clear, status
  writes, ripples, passes and unrelated writes, an anchor the dispatch query returns right after
  a pass over its closure has its inputs, provided no path that a demotion purged under a trusted
  referrer is left dangling; a clear, a deletion, a new upload or a `Deep` pass at any time in
  between makes it good (`Dispatch.RunDispatchSafe`, `Dispatch.RunKeepsPathsSound`). After a
  `Deep` pass nothing needs to be known of the past (`Dispatch.DeepDispatchSafe`). Between two
  passes the same holds while builds start, fail, are aborted and complete, and as long as each
  deletion, demotion and clear meets its exact condition (`BetweenPasses.RunDispatchSafeBetween`,
  `Transition.UpdateKeepsTrust`).
- There is no dead zone: on acyclic tables, after a `Deep` pass, the dispatch query returns exactly
  the pending anchors that an upstream has or that have everything a build reads, read off the
  cache and the graph without any derived flag (`NoDeadZone.NoDeadZoneAfterDeep`).
- After a pass of any scope the status of every anchor, every other column, the path tables and the
  report are known from the state before and the flags after, spelled out scope by scope
  (`PassScopes.PassStatus`, `PassScopes.PassColumns`, `PassScopes.PassPathTables`,
  `PassScopes.ReportMeans`); so are the tables after a guarded status update
  (`Transition.UpdateMeans`).
- The CLEAR-then-SET loop ends with flags equal to their gate from any start; on an acyclic graph
  that is the ground truth, and a scoped pass is the global one on its scope.
- Discovery returns exactly the derivations whose paths match an include, name by name, and no
  exclusion, and reports exactly the failures on the way (`Discovery.RunDiscover`).
- Splitting wildcard discovery into shards, printing, re-reading and joining them gives the same
  attributes and the same diagnostics (`Discovery.ShardedDiscovery`).
- The `.drv` reader accepts exactly the texts of a grammar written without it, each as the one
  derivation it spells (`ATermGrammar.DrvIff`).
- A `flake.lock` run succeeds if and only if every wanted input resolves, and then locks each outdated
  node to the resolver's answer for the reference its block describes (`FlakeLock.RunProduce`).

Where the code does not do what one would expect of it, the project says so with a lemma that
exhibits the state, and gives the exact condition:

- A second `Unstick` pass over an acyclic graph can still promote an anchor
  (`Unstick.SecondPassCanPromote`). A trusted, fully cached anchor whose edges are incomplete is
  skipped by the cached-anchor step of the first pass and loses its flag there; the second marks
  its edges complete, and trusts it again if and only if it was built, not substituted, and its
  dependencies are complete (`Unstick.FrozenTrustChanges`). The pass is idempotent if and only if
  there is no such anchor (`Unstick.UnstickIdempotentIff`). What a second pass promotes can be read
  off the state before it: the anchors that get ready once the edges of built, cached, unflushed
  anchors count as complete (`Unstick.SecondPassPromotesIff`). A third pass changes nothing
  (`Unstick.ThirdPassIdle`). No second pass thaws or fails anything, on any graph.
- The ripple that follows one completion can miss an anchor: a second producer of the same output
  hash is not on its frontier and stays unmarked (`Ripple.SharedOutputStaysUnmarked`). On an
  acyclic graph the ripple is the full SET pass if and only if every satisfied unmarked anchor is
  the finished one, depends on it directly, or depends directly on one the full pass marks
  (`Ripple.PropagateIsSetPassRankedIff`); `Ripple.PropagateIsSetPassIff` is the form for any graph.
- A demotion without its upward clear, which `backend/gradient-proto/src/handler/nar_transfer.rs`
  and the referrer and dependency demotions do, keeps the completeness invariant if and only if no
  other trusted row refers to the purged path (`CacheStorage.BareDemoteSoundIff`). Where one does,
  a `Global` pass does not repair it and a build can be dispatched whose inputs are gone
  (`UnsafeRun.BareDemotionEndsUnsafe`).
- A completion promotes every ready direct dependent, but can leave an anchor behind that got
  ready through one the ripple marked further up (`Transition.CompletionCanLeaveOne`);
  `Transition.CompletionLeavesNoneIff` says exactly when.
- A status write that bypasses the histogram delta, and a delta whose write a seed has counted
  already, leave a cell above the truth until the next seed (`DepCounts.BypassOvercounts`,
  `DepCounts.SeedBetweenOvercounts`); `DepCounts.NextKeepsUnderIff` is the exact condition.
- On a cyclic graph the CLEAR-then-SET loop can keep flags that support only one another
  (`FlagFixpoint.CycleKeepsStaleFlags`). The starting flags do not matter if and only if no row
  needs itself through a chain of rows that all pass their own facts
  (`FlagFixpoint.StartIrrelevantIff`).
- A shard whose first attribute starts with `!` reads back as an exclusion
  (`Discovery.BangNameIsLost`); `PatternText.RoundTripIff` says which segments survive printing.
- The derivation collection can reclaim a surviving derivation's `.drv` when a collected
  derivation had that very path as an output (`Gc.DrvMadeByADerivationIsLost`);
  `Gc.SurvivorsKeepArtifactsIff` is the exact condition.
- An orphan spared for being young loses its edges to collected derivations and still counts as
  flushed (`Gc.EdgeSurvivesIff`, `Gc.SparedOrphanIsTruncated`).
- `parse_drv` does not read past the environment list, so a missing closing parenthesis or
  trailing text is accepted (`ATermPrint.RoundTrip` holds with anything in that place).

## Model

| member | source | states |
|---|---|---|
| `Walks.ReachIsLeast` | backend/gradient-db/src/graph_sql.rs:19-50 | The closure query's answer lies within every closed set that holds its seed |
| `Walks.ReachIffPath` | backend/gradient-db/src/graph_sql.rs:19-50 | A node is in the answer if and only if a path of edge rows leads to it from the seed |
| `Walks.ReachConverse` | backend/gradient-db/src/graph_sql.rs:19-50 | Walking towards dependencies and walking towards dependents are exact converses |
| `Walks.UpwardWithin` | backend/gradient-db/src/promotion.rs:515-556 | An upward walk kept inside a downward-closed bound finds what the unbounded walk finds there |
| `FlagFixpoint.HoldsMonotone` | backend/gradient-db/src/promotion.rs:195-219 | A gate satisfied under some flags stays satisfied under more flags |
| `FlagFixpoint.ClearFixGreatest` | backend/gradient-db/src/promotion.rs:316-357 | CLEAR keeps the greatest self-supporting set of flags below the start |
| `FlagFixpoint.SetFixLeast` | backend/gradient-db/src/promotion.rs:316-357 | SET adds the least set of flags that leaves no satisfied row unmarked |
| `FlagFixpoint.FixConverges` | backend/gradient-db/src/promotion.rs:316-377 | From any flags CLEAR then SET ends with flag equal to gate on the bound and nothing changed outside it |
| `FlagFixpoint.ConvergedIsTruth` | backend/gradient-db/src/promotion.rs:316-377 | On a ranked graph any converged flags are the inductive ground truth, so that state is unique |
| `FlagFixpoint.TruthIsReach` | backend/gradient-db/src/promotion.rs:316-357 | That ground truth holds of a row if and only if every row it needs, through any chain, passes its own facts |
| `FlagFixpoint.TableIsReach` | backend/gradient-db/src/promotion.rs:316-357 | So a converged table flags a row if and only if everything it needs passes its own facts |
| `FlagFixpoint.ScopedIsGlobal` | backend/gradient-db/src/promotion.rs:310-357 | On a ranked graph the loop bounded to a closed set gives on it exactly what the unbounded loop gives |
| `FlagFixpoint.StartIrrelevantIff` | backend/gradient-db/src/promotion.rs:316-357 | On any graph the starting flags do not matter if and only if no row needs itself through rows that all pass their own facts inside the bound |
| `FlagFixpoint.CycleKeepsStaleFlags` | backend/gradient-db/src/promotion.rs:316-357 | A cycle on which the loop keeps flags that support only one another |
| `FlagFixpoint.RippleIsSetFix` | backend/gradient-db/src/promotion.rs:232-278 | A frontier ripple that starts at every unmarked satisfied row ends where the SET loop ends |
| `FlagFixpoint.RippleIsSetFixIff` | backend/gradient-db/src/promotion.rs:232-278 | On any graph, when the rows the frontier misses have only marked rows below them: the ripple is the SET loop if and only if it misses none |
| `FlagFixpoint.RippleIsSetFixRankedIff` | backend/gradient-db/src/promotion.rs:232-278 | On a ranked graph, with no other condition: if and only if every satisfied unmarked row outside the frontier has an edge to a row SET marks |
| `Gates.ClosureGateIsSystem` | backend/gradient-db/src/promotion.rs:195-219 | The `closure_complete` gate is a local condition plus the flags of the dependencies, for every status |
| `Gates.DrvGateIsSystem` | backend/gradient-db/src/promotion.rs:386-397 | The same for the `drv_closure_cached` gate |
| `Gates.PathGateIsSystem` | backend/gradient-db/src/cache_storage.rs:475-483 | The same for the `cached_path` gate, self references excluded |
| `Promotion.BlockedIff` | backend/gradient-db/src/promotion.rs:745-761 | The deterministically blocked anchors are exactly those above a failure a rebuild would repeat |
| `Promotion.ThawExact` | backend/gradient-db/src/promotion.rs:745-821 | The thaw resets a row if and only if it failed or was aborted inside the closure with no reproducible failure at or below it |
| `Promotion.MarkEdgesMeans` | backend/gradient-db/src/promotion.rs:660-689 | After marking, every resolved anchor of the closure with an edge or a job has complete edges, and no other column changed |
| `Promotion.CachedReconcileMeans` | backend/gradient-db/src/promotion.rs:835-870 | Inside the closure cache presence makes an anchor trusted, and no other row changes |
| `Promotion.RequeueChunks` | backend/gradient-db/src/promotion.rs:714-742 | Thawing two chunks in turn thaws what one statement over both thaws |
| `Promotion.RequeueExact` | backend/gradient-db/src/promotion.rs:714-776 | An anchor is reset if and only if it is asked for, failed, was stopped or lost a dependency, and no attempt at or below it ended with a failing builder; no other row or table changes |
| `Promotion.SweepSettles` | backend/gradient-db/src/promotion.rs:515-556 | After the sweep no waiting anchor has a failed anchor anywhere below it |
| `Promotion.SweepExact` | backend/gradient-db/src/promotion.rs:515-556 | The sweep fails an anchor if and only if it was waiting above a failure, and changes no other status |
| `Promotion.SweepExactIn` | backend/gradient-db/src/promotion.rs:515-556 | The same for a sweep scoped to one evaluation |
| `Promotion.CascadeExact` | backend/gradient-db/src/promotion.rs:443-474 | The cascade fails an anchor if and only if it was waiting and depends on the failed one |
| `Promotion.SweepScoped` | backend/gradient-db/src/promotion.rs:515-556 | The scoped sweep agrees with the global one on the evaluation's closure and touches nothing else |
| `Promotion.SweepIdempotent` | backend/gradient-db/src/promotion.rs:491-513 | A second sweep changes nothing |
| `Promotion.SweepIsCascades` | backend/gradient-db/src/promotion.rs:443-556 | The sweep equals the reactive cascade run from every failure, in any order |
| `CacheStorage.DeletePreservesSound` | backend/gradient-db/src/cache_storage.rs:587-638 | Deleting rows and clearing upward keeps "complete implies every other reference present, backed and complete" |
| `CacheStorage.DeleteCloses` | backend/gradient-db/src/cache_storage.rs:587-638 | The same when paths in some set are excepted: the deleted ones are excepted no longer |
| `CacheStorage.SoundButIff` | backend/gradient-db/src/cache_storage.rs:475-483 | With such exceptions the invariant holds if and only if no excepted path is missing or incomplete under a complete referrer |
| `CacheStorage.PruneExact` | backend/gradient-db/src/cache_storage.rs:587-638 | Under that invariant the pruned walk clears a trusted row if and only if its full reference closure holds a deleted hash |
| `CacheStorage.ClearGateFlagsChunks` | backend/gradient-db/src/cache_storage.rs:587-638 | Clearing chunk after chunk clears what one statement over all hashes clears |
| `CacheStorage.DirtyIsMissingAndReferrers` | backend/gradient-db/src/cache_storage.rs:646-684 | The worklist visits the missing path and exactly the rows it clears |
| `CacheStorage.WorklistClearsSameRowsIff` | backend/gradient-db/src/cache_storage.rs:646-684 | Worklist and recursive statement clear the same rows if and only if the missing row is untrusted or refers to itself through trusted rows |
| `CacheStorage.DemoteCloses` | backend/gradient-db/src/cache_storage.rs:263-334 | A demotion followed by its upward clear keeps the completeness invariant, whatever paths are excepted from it, and excepts its own path no longer |
| `CacheStorage.BareDemoteSoundIff` | backend/gradient-db/src/cache_storage.rs:346-357 | A demotion without the clear keeps it if and only if no other trusted row refers to the path |
| `CacheStorage.DemoteOutputMeans` | backend/gradient-db/src/cache_storage.rs:263-334 | What a demotion does to every table: the path, its references and upstream claims go and its trusted producers are to be built again, unless the artifact is there and nothing produces it |
| `CacheStorage.DemoteAllRow` | backend/gradient-db/src/cache_storage.rs:443-468 | After any list of demotions a row is reset if and only if it produced one of the outputs and was trusted |
| `CacheStorage.DemoteAllBacks` | backend/gradient-db/src/cache_storage.rs:443-468 | After demoting every unbacked trusted output, in any order, none is left |
| `CacheStorage.DemoteAllKeeps` | backend/gradient-db/src/cache_storage.rs:443-468 | Demoting any list of outputs keeps the completeness invariant but for the paths excepted before, and trusts no new path |
| `Reconcile.ReconcilePathsConverges` | backend/gradient-db/src/cache_storage.rs:495-576 | The path fixpoint ends with path flags equal to their gate on its scope |
| `Reconcile.ReconcileDrvConverges` | backend/gradient-db/src/promotion.rs:386-436 | The same for `drv_closure_cached` |
| `Reconcile.ReconcileClosureConverges` | backend/gradient-db/src/promotion.rs:302-377 | The same for `closure_complete` |
| `Reconcile.ScopedClosureIsGlobal` | backend/gradient-db/src/promotion.rs:302-377 | On an acyclic graph a scoped `closure_complete` pass is the global answer on the evaluation's closure, the old flags elsewhere |
| `Reconcile.ScopedDrvIsGlobal` | backend/gradient-db/src/promotion.rs:386-436 | The same for `drv_closure_cached` |
| `Reconcile.ScopedPathsIsGlobal` | backend/gradient-db/src/cache_storage.rs:495-576 | The same for path flags and the reference closure |
| `Reconcile.PendingMoveKeeps` | backend/gradient-db/src/reconcile.rs:202-242 | Status moves outside terminal success change no gate, no flag and no readiness |
| `Reconcile.PromoteSettles` | backend/gradient-db/src/promotion.rs:565-597 | Promotion leaves no promotable anchor and every gate as it was |
| `Reconcile.DemotingPassBacks` | backend/gradient-db/src/reconcile.rs:148-176 | After a `Global`, `Deep` or `Eval` pass no trusted producer of an unbacked output is left |
| `Reconcile.AnchorsConverge` | backend/gradient-db/src/reconcile.rs:123-242 | Every pass but `Tick` ends with both anchor flags equal to their gates on its scope |
| `Reconcile.PathsConverge` | backend/gradient-db/src/reconcile.rs:123-242 | A `Deep`, `Eval` or `Unstick` pass ends with path flags equal to their gate on its scope |
| `Reconcile.ConvergedCounts` | backend/gradient-db/src/consistency.rs:58-138 | Flags equal to gates make the three stale counts zero |
| `Reconcile.DeepPassConverges` | backend/gradient-db/src/reconcile.rs:123-242 | One `Deep` pass from any state leaves all five consistency counts at zero |
| `Reconcile.GlobalPassConverges` | backend/gradient-db/src/reconcile.rs:123-242 | A `Global` pass leaves all counts at zero but that of the path flags, which it does not re-derive |
| `PassScopes.PassSettled` | backend/gradient-db/src/reconcile.rs:123-242 | By scope: nothing ready is left after every pass; after all but `Tick` both anchor flags equal their gates and nothing waits above a failure on the bound; after `Global`, `Deep` and `Eval` trust is backed; after `Deep`, `Eval` and `Unstick` path flags equal their gate on the bound |
| `PassScopes.PassNoneWaits` | backend/gradient-db/src/reconcile.rs:123-242 | After every pass but `Tick` no waiting anchor of the bound has, at any depth, a failed anchor below it |
| `PassScopes.PassStatus` | backend/gradient-db/src/reconcile.rs:123-242 | The status of every anchor after a pass: `DependencyFailed` if it waits in the bound above a failure, `Queued` if it is healed to `Created` with its inputs there, else what the healing steps make of it |
| `PassScopes.PassColumns` | backend/gradient-db/src/reconcile.rs:123-242 | Every other stored column of an anchor: availability claims fall with lost trust, attempts with a reset, edge marks are set where the scope marks them, and nothing else changes |
| `PassScopes.PassPathTables` | backend/gradient-db/src/reconcile.rs:123-242 | The path tables: rows of unbacked outputs go in a demoting pass with their references and upstream claims, no other row goes, and path flags rise only where the scope re-derives them |
| `PassScopes.ReportMeans` | backend/gradient-db/src/reconcile.rs:98-242 | The report: exactly the anchors that failed and were promoted with their moves, and the counts of marked edges, thawed anchors and demoted producers |
| `PassScopes.ClosureBound` | backend/gradient-db/src/graph_sql.rs:117-134 | The bound of an evaluation is everything below one of its jobs |
| `PassScopes.PathsBound` | backend/gradient-db/src/cache_storage.rs:496-516 | The path bound is everything referred to from an output or the `.drv` of one of its jobs |
| `Ripple.PropagateIsSetPass` | backend/gradient-db/src/promotion.rs:232-278 | When nothing was unmarked and only the completed anchor changed, the ripple equals a full SET pass |
| `Ripple.PropagateIsSetPassIff` | backend/gradient-db/src/promotion.rs:232-278 | On any graph, when due anchors away from the finished one have all dependencies marked: ripple and full pass agree if and only if there are none |
| `Ripple.PropagateIsSetPassRankedIff` | backend/gradient-db/src/promotion.rs:232-278 | On an acyclic graph they agree if and only if each due anchor is the finished one, depends on it, or depends on one the full pass marks |
| `Ripple.SetPassMarksAll` | backend/gradient-db/src/promotion.rs:232-278 | After it no satisfied anchor is unmarked |
| `Ripple.SharedOutputStaysUnmarked` | backend/gradient-db/src/promotion.rs:232-278 | A state where another producer of the completed output is satisfied and stays unmarked |
| `Unstick.NoThawThenFail` | backend/gradient-db/src/reconcile.rs:136-226 | No `Unstick` pass fails an anchor that it thawed, on any graph |
| `Unstick.SecondPassThawsAndFailsNothing` | backend/gradient-db/src/reconcile.rs:136-226 | A second identical pass thaws nothing and fails nothing, on any graph |
| `Unstick.FrozenTrustChanges` | backend/gradient-db/src/promotion.rs:835-870 | An anchor with frozen trust ends the first pass untrusted, the second with complete edges, and trusted there if and only if it was built and its dependencies are complete |
| `Unstick.UnstickIdempotentIff` | backend/gradient-db/src/reconcile.rs:123-242 | On an acyclic graph the pass is idempotent if and only if no anchor has frozen trust |
| `Unstick.ThirdPassIdle` | backend/gradient-db/src/reconcile.rs:123-242 | On an acyclic graph a third pass changes nothing |
| `Unstick.NoFrozenTrustAfterPass` | backend/gradient-db/src/reconcile.rs:123-242 | No pass leaves frozen trust behind |
| `Unstick.SecondPassPromotesOnlyRestored` | backend/gradient-db/src/reconcile.rs:123-242 | In terms of the state before both passes, the part that needs no flags: without a built anchor with complete dependencies that regains frozen trust, a second pass promotes nothing; the exact condition is that of `Unstick.SecondPassPromotesIff` |
| `Unstick.SecondPassPromotesIff` | backend/gradient-db/src/reconcile.rs:123-242 | On an acyclic graph a second pass ends with exactly the closure flags that are true once restorable edges count as flushed, promotes exactly the waiting anchors those make ready, and promotes nothing if and only if there are none |
| `Unstick.SecondPassCanPromote` | backend/gradient-db/src/reconcile.rs:123-242 | An acyclic state in which only the second pass promotes |
| `Dispatch.CompletePathClosureBacked` | backend/gradient-db/src/cache_storage.rs:475-483 | Everything in the reference closure of a complete path is backed |
| `Dispatch.InputsReady` | backend/gradient-db/src/graph_sql.rs:58-76 | Every dependency below a dispatchable anchor, through built ones, is ready |
| `Dispatch.DrvClosureBacked` | backend/gradient-db/src/graph_sql.rs:88-95 | Below an anchor flagged `drv_closure_cached` every `.drv` is backed |
| `Dispatch.DispatchSound` | backend/gradient-db/src/promotion.rs:625-645 | With sound flags, any non-substitutable anchor the dispatch query returns has its inputs available; the converse is `NoDeadZone.NoDeadZoneAfterDeep` |
| `NoDeadZone.SubstitutableIsReturned` | backend/gradient-db/src/promotion.rs:612-645 | A queued, flushed, substitutable anchor with a job is returned whatever its dependencies |
| `NoDeadZone.NoDeadZoneAfterDeep` | backend/gradient-db/src/promotion.rs:600-645 | On acyclic tables, after a `Deep` pass, an anchor is returned if and only if it is pending, flushed and asked for, and is upstream or has its sources, its dependencies with all they stand on, and an importable `.drv` |
| `Dispatch.NextKeepsPathsSound` | backend/gradient-db/src/cache_storage.rs:263-684 | An action, status writes and ripples included, keeps the completeness invariant if and only if it is not a bare demotion under a trusted referrer |
| `Dispatch.IngestMeans` | backend/gradient-proto/src/ingest.rs:182-300 | Recording a path makes it backed with its references, keeps its flag if it had one, and changes no other row |
| `Dispatch.NextKeepsSoundBut` | backend/gradient-db/src/cache_storage.rs:263-684 | Every action leaves at most the tracked paths open: a harmful demotion opens its path, a clear or deletion closes it, a `Deep` pass closes all, a per-evaluation pass may spread what is open |
| `Dispatch.LostPathCloses` | backend/gradient-db/src/cache_storage.rs:646-684 | After the clear of a missing path no complete row rests on it |
| `Dispatch.PathFixSpreads` | backend/gradient-db/src/cache_storage.rs:551-576 | A bounded path fixpoint over a broken invariant opens at most the rows it clears |
| `Dispatch.RunKeepsPathsSound` | backend/gradient-db/src/cache_storage.rs:263-684 | At every point of every run the invariant holds if and only if no path dangles among those that harmful demotions opened and no clear, deletion or `Deep` pass has closed since |
| `Dispatch.RunDispatchSafe` | backend/gradient-db/src/promotion.rs:612-645 | Where no such path dangles, after a pass other than `Tick`, what the dispatch query returns is safe to dispatch; for a per-evaluation pass, inside that evaluation's closure |
| `Dispatch.DeepPathsSound` | backend/gradient-db/src/reconcile.rs:123-242 | A `Deep` pass restores the completeness invariant from any state |
| `Dispatch.LateClearMends` | backend/gradient-db/src/cache_storage.rs:646-684 | A bare demotion is made good by its clear, a full demotion or a deletion of its path at any later time, with no other bare demotion or per-evaluation pass in between |
| `UnsafeRun.BareDemotionEndsUnsafe` | backend/gradient-db/src/cache_storage.rs:346-400 | Wherever a queued build waits on a substituted path that refers to the purged one, a bare demotion and a `Global` pass end in an unsafe dispatch |
| `UnsafeRun.ExampleFits` | backend/gradient-db/src/cache_storage.rs:346-400 | A state of that shape |
| `BetweenPasses.DeleteKeepsFlagsIff` | backend/gradient-db/src/cache_storage.rs:587-638 | The anchor flags below an anchor stay sound over a deletion if and only if nothing trusted there rests on a producer, an output closure or a `.drv` that it takes away |
| `BetweenPasses.DemoteKeepsFlagsIff` | backend/gradient-db/src/cache_storage.rs:263-334 | The same for a demotion with its clear |
| `BetweenPasses.BareDemoteKeepsFlagsIff` | backend/gradient-db/src/cache_storage.rs:263-400 | The same for a demotion without it |
| `BetweenPasses.ClearKeepsFlagsIff` | backend/gradient-db/src/cache_storage.rs:646-684 | The same for a clear on its own |
| `BetweenPasses.IngestKeepsFlags` | backend/gradient-proto/src/ingest.rs:182-300 | Recording a path keeps them |
| `BetweenPasses.TickKeepsFlags` | backend/gradient-db/src/reconcile.rs:123-242 | So does a `Tick` pass |
| `BetweenPasses.MoveKeepsFlags` | backend/gradient-db/src/status/derivation_build_status.rs:24-112 | So does any status write on anchors that have not succeeded, to a success too |
| `BetweenPasses.RippleKeepsSoundOn` | backend/gradient-db/src/promotion.rs:232-278 | The frontier ripple keeps flags sound on any region where they were |
| `BetweenPasses.RippledKeepsFlags` | backend/gradient-db/src/promotion.rs:232-278 | So does the ripple after a completion |
| `BetweenPasses.RunDispatchSafeBetween` | backend/gradient-db/src/promotion.rs:612-645 | At any later point of a run, with status writes, ripples, ingests and ticks in between and deletions, demotions and clears that meet their exact condition, what the dispatch query returns is safe |
| `Transition.UpdateIsRun` | backend/gradient-db/src/status/derivation_build_status.rs:24-112 | The guarded update with all it sets off is a run of at most four statements, each a status write on anchors that have not succeeded or a ripple |
| `Transition.AdmittedIff` | backend/gradient-db/src/state_machine/build.rs:43-87 | The admitted pairs of different statuses, listed; none leaves a settled status, and every end can be reached from an unsettled one |
| `Transition.UpdateMeans` | backend/gradient-db/src/status/derivation_build_status.rs:24-112 | All tables after an update: unchanged if the pair is not admitted; else the row of the anchor ends with the new status, a success raises only flags whose gate holds, and all that it opened, and of the direct dependents fails the hopeless and queues the ready, a failure fails exactly the pending anchors above, and any other move changes nothing else |
| `Transition.UpdateKeepsTrust` | backend/gradient-db/src/status/derivation_build_status.rs:24-112 | A build that starts, fails, is aborted or completes keeps the flags below every anchor as sound as they were, and the completeness invariant |
| `Transition.FailureExact` | backend/gradient-db/src/status/derivation_build_status.rs:102-112 | A failure moves the failed anchor and exactly the pending ones that depend on it, and no column but the status changes |
| `Transition.UpdateLeaves` | backend/gradient-db/src/promotion.rs:116-180 | After a success the ready anchors left unpromoted are exactly those that do not depend on the finished one directly |
| `Transition.CompletionLeavesNoneIff` | backend/gradient-db/src/status/derivation_build_status.rs:84-100 | From a state with nothing ready, a completion leaves none behind if and only if each anchor that gets ready through another one the ripple marked also depends on the finished one; no ready direct dependent is ever left |
| `Transition.CompletionCanLeaveOne` | backend/gradient-db/src/status/derivation_build_status.rs:84-100 | A chain of three where it leaves one |
| `Dispatch.DeepDispatchSafe` | backend/gradient-db/src/reconcile.rs:123-242 | After a `Deep` pass from any state it is safe without any invariant |
| `Store.WalkReferrers` | backend/gradient-db/src/cache_storage.rs:652-681 | The worklist with its seen set terminates, on cycles too, and clears the trusted rows above the missing path |
| `Store.ClearTrusted` | backend/gradient-db/src/cache_storage.rs:660-679 | One pop clears the trusted referrers of a hash and queues exactly those |
| `Store.ClosureStatements` | backend/gradient-db/src/promotion.rs:362-377 | The rows the CLEAR and SET statements select, with the gate read from the table, are those one fixpoint step changes |
| `Store.DrvStatements` | backend/gradient-db/src/promotion.rs:399-414 | The same for the `drv_closure_cached` statements |
| `Store.PathStatements` | backend/gradient-db/src/cache_storage.rs:522-549 | The same for the path statements |
| `Store.Database.Execute` | backend/gradient-db/src/promotion.rs:362-377 | One CLEAR or SET statement of any of the three families changes exactly the stale, or the satisfied unmarked, rows of its table, and reports none if and only if the table has converged |
| `Store.Database.RunToConvergence` | backend/gradient-db/src/promotion.rs:336-357 | Repeating a statement on the table until it affects no row terminates: CLEAR in the greatest self-supporting flags, SET in the SET fixpoint |
| `Store.Database.RunBidirectionalFixpoint` | backend/gradient-db/src/promotion.rs:336-357 | The loop all three families share, CLEAR and then SET, ends in the fixpoint of the gates |
| `Store.Database.RunRipple` | backend/gradient-db/src/promotion.rs:253-276 | The frontier loop on the table, each round reading the gates its own writes changed, terminates in the ripple |
| `Store.Database.MarkEdgesCompleteForEval` | backend/gradient-db/src/promotion.rs:660-689 | Every resolved anchor of the closure with an edge or a job has complete edges, no other column changes, and the count is that of the changed rows |
| `Store.Database.RequeueFailedClosureForEval` | backend/gradient-db/src/promotion.rs:790-821 | A row is reset if and only if it failed or was aborted inside the closure with no reproducible failure at or below it |
| `Store.Database.RequeueFailedAnchors` | backend/gradient-db/src/promotion.rs:714-776 | The chunked thaw equals one statement over all derivations |
| `Store.Database.ReconcileCachedAnchorsForEval` | backend/gradient-db/src/promotion.rs:835-870 | Fully cached anchors of the closure end up trusted, exactly the reported rows changed, and no unbacked output becomes trusted |
| `Store.Database.ReconcileDependencyFailed` | backend/gradient-db/src/promotion.rs:491-556 | A row fails if and only if it was waiting, in scope, above a failure; every reported change ends in `DependencyFailed` |
| `Store.Database.CascadeDependencyFailed` | backend/gradient-db/src/promotion.rs:443-474 | A row fails if and only if it was waiting and the failed derivation is in its dependency closure |
| `Store.Database.PromoteReady` | backend/gradient-db/src/promotion.rs:565-597 | Nothing promotable is left; exactly the promotable rows went from `Created` to `Queued` |
| `Store.Database.ReconcileClosureComplete` | backend/gradient-db/src/promotion.rs:302-357 | That loop over `closure_complete`; only that flag changes |
| `Store.Database.ReconcileDrvClosureCached` | backend/gradient-db/src/promotion.rs:336-436 | That loop over `drv_closure_cached` |
| `Store.Database.ReconcileCachedPathClosureComplete` | backend/gradient-db/src/cache_storage.rs:551-576 | That loop over the path flags |
| `Store.Database.PropagateClosureComplete` | backend/gradient-db/src/promotion.rs:232-278 | The ripple after one completion |
| `Store.Database.PromoteDependents` | backend/gradient-db/src/promotion.rs:116-180 | A waiting dependent of the finished anchor fails if another dependency of it has failed, and is queued if it is ready; no other row changes and no ready dependent is left |
| `Store.Database.UpdateDerivationBuildStatus` | backend/gradient-db/src/status/derivation_build_status.rs:24-112 | The guarded update on the tables: the row ends with the new status if and only if the pair is admitted, with exactly the effects of `Transition.UpdateMeans` on every other row; trust below every anchor is kept, and a success leaves ready exactly the anchors that do not depend on it directly |
| `Store.Database.ClearGateFlagsForChunk` | backend/gradient-db/src/cache_storage.rs:591-635 | No flag is left on an anchor whose own `.drv` or output is in the chunk, and the completeness invariant of before the deletion holds again |
| `Store.Database.ClearGateFlagsForHashes` | backend/gradient-db/src/cache_storage.rs:587-638 | The chunked clears equal one clear of all hashes |
| `Store.Database.ClearClosureCompleteForReferrers` | backend/gradient-db/src/cache_storage.rs:646-684 | The worklist clear, and the number of rows it cleared |
| `Store.Database.DemoteCachedOutput` | backend/gradient-db/src/cache_storage.rs:249-334 | Artifact, row and producers after a demotion; a present artifact nothing rebuilds is kept |
| `Store.Database.DemoteAndClear` | backend/gradient-db/src/cache_storage.rs:443-468 | A demotion and its upward clear |
| `Store.Database.DemoteUnbackedTrustedOutputs` | backend/gradient-db/src/cache_storage.rs:443-468 | The loop demotes every unbacked trusted output of the state it started from |
| `Store.Database.ReconcileBuildGraph` | backend/gradient-db/src/reconcile.rs:123-242 | The whole pass, step by step, with what it reports; by scope, the state it leaves is settled, and every status and the path tables are those of `PassScopes.PassStatus` and `PassScopes.PassPathTables` |
| `PatternText.CollapseStars` | backend/gradient-eval/src/wildcard_walk.rs:32-45 | The loop drops exactly the stars that follow a star |
| `PatternText.CollapseDouble` | backend/gradient-eval/src/wildcard_walk.rs:32-45 | A doubled star anywhere in a pattern reads as a single one |
| `PatternText.ParsePattern` | backend/gradient-eval/src/wildcard_walk.rs:49-71 | The character loop with quotes and the exclusion mark computes the parse |
| `PatternText.RoundTripIff` | backend/gradient-eval/src/wildcard_walk.rs:49-289 | Segments print and read back as the same include if and only if there is one, none holds a quote, and the first would not be printed bare behind a `!` |
| `Ordered.SortDedupFacts` | backend/gradient-eval/src/wildcard_walk.rs:209-238 | Sorting and deduplicating gives an ascending list of the same elements |
| `Ordered.SameElementsSortAlike` | backend/gradient-eval/src/wildcard_walk.rs:209-238 | Lists with the same elements sort to the same list |
| `WildcardWalk.RecoverIsHash` | backend/gradient-eval/src/wildcard_walk.rs:107-187 | Recovering one level below a trailing `*` is a trailing `#` |
| `WildcardWalk.Rewalk` | backend/gradient-eval/src/wildcard_walk.rs:107-187 | Discovery along a literal path goes straight to its node, silently |
| `WildcardWalk.SplitNode` | backend/gradient-eval/src/wildcard_walk.rs:107-204 | At every node, the planned shards find what discovery finds, in order, and the diagnostics add up |
| `WildcardMatch.TraverseFinds` | backend/gradient-eval/src/wildcard_walk.rs:107-187 | A path is found if and only if it leads to a derivation and its names match the segments one by one: a literal itself, `#` any child, `*` a child that is not opaque or the derivation at the end, a trailing `*` also one level below a set that is neither |
| `WildcardMatch.TraverseReports` | backend/gradient-eval/src/wildcard_walk.rs:107-187 | A diagnostic is reported if and only if it is that of a lookup, listing or test that fails at a node the pattern reaches |
| `WildcardMatch.TraverseShards` | backend/gradient-eval/src/wildcard_walk.rs:107-204 | The planned shards are exactly these: one for each attribute the first wildcard admits, with the rest of the pattern, a trailing `*` leaving `#` below a set that is no derivation; a pattern without a wildcard if it leads anywhere |
| `Discovery.TraverseInto` | backend/gradient-eval/src/wildcard_walk.rs:107-187 | The traversal that pushes into a growing sink adds exactly the paths that match, in the order and with the diagnostics of the functional one |
| `Discovery.SplitDotsIff` | backend/gradient-eval/src/wildcard_walk.rs:209-238 | Splitting a name at dots gives some segments if and only if joining them spells the name and none holds a dot |
| `Discovery.DiscoverMeans` | backend/gradient-eval/src/wildcard_walk.rs:209-238 | A name is discovered if and only if it spells a path that matches an include and its pieces are no exclusion |
| `Discovery.DiscoverReports` | backend/gradient-eval/src/wildcard_walk.rs:209-238 | An error is reported if and only if an include meets it |
| `Discovery.PatternsMean` | backend/gradient-eval/src/wildcard_walk.rs:241-256 | The same from pattern texts, in terms of which of them read as includes and which as exclusions |
| `Discovery.RunDiscover` | backend/gradient-eval/src/wildcard_walk.rs:209-238 | Exactly the names that spell a matching path and no exclusion, and exactly the errors met, ascending and without duplicates |
| `Discovery.PlanShards` | backend/gradient-eval/src/wildcard_walk.rs:259-275 | Exactly the shards of each include, in order, and exactly the errors met, ascending |
| `Discovery.RunDiscoverPatterns` | backend/gradient-eval/src/wildcard_walk.rs:241-256 | From pattern texts: exactly the names that match one read as an include and none read as an exclusion |
| `Discovery.AllShardsSafe` | backend/gradient-eval/src/wildcard_walk.rs:190-204 | On safe names every planned shard survives printing and reading |
| `Discovery.WorkerSees` | backend/gradient-eval/src/wildcard_walk.rs:241-289 | A worker given a printed shard and the exclusions traverses exactly that shard |
| `Discovery.ShardedDiscovery` | backend/gradient-eval/src/wildcard_walk.rs:107-289 | Plan, print, re-read, discover and join equals one-pass discovery, attributes and diagnostics |
| `Discovery.BangNameIsLost` | backend/gradient-eval/src/wildcard_walk.rs:259-289 | A top-level attribute `!a` is found in one pass and lost by splitting |
| `DepCounts.DeltaCells` | backend/gradient-db/src/dep_closure.rs:222-262 | What one delta does to each cell, with the guard against going below zero |
| `DepCounts.DeltaMeans` | backend/gradient-db/src/dep_closure.rs:222-262 | A delta applied after its transition keeps cells below the truth and exact histograms exact |
| `DepCounts.MoveKeeps` | backend/gradient-db/src/dep_closure.rs:222-262 | A transition never pushes a cell above the truth and keeps exact histograms exact |
| `DepCounts.InitExact` | backend/gradient-db/src/dep_closure.rs:140-167 | Seeding makes the evaluation's histograms exact |
| `DepCounts.NextKeepsUnderIff` | backend/gradient-db/src/dep_closure.rs:140-262 | An event keeps the cells of an entry point below the truth if and only if it is neither a bypassing write out of a cell that was not short nor a delta into one |
| `DepCounts.BypassOvercounts` | backend/gradient-db/src/dep_closure.rs:169-179 | A write that bypasses the delta overcounts wherever the histogram was exact |
| `DepCounts.SeedBetweenOvercounts` | backend/gradient-db/src/dep_closure.rs:169-262 | A delta overcounts when a seed came between it and its write |
| `DepCounts.WriteThenDelta` | backend/gradient-db/src/status/effects.rs:62-72 | A write and its delta with nothing between them are one transition |
| `DepCounts.RunKeepsUnder` | backend/gradient-db/src/dep_closure.rs:140-262 | Over every run of seeds, transitions, writes that bypass the delta, late deltas, closure growth and new anchors, no cell of an entry point exceeds the true count where each overcount was followed by a seed of its evaluation |
| `DepCounts.TotalExactIff` | backend/gradient-db/src/dep_closure.rs:51-55 | Given that, a histogram's total equals the closure's if and only if every cell is right |
| `DepCounts.ShortIff` | backend/gradient-db/src/dep_closure.rs:51-55 | An entry point's total falls short if and only if its histogram is wrong or a dependency has no anchor |
| `DepCounts.NeedsRebuildIff` | backend/gradient-db/src/dep_closure.rs:51-55 | Given that, a rebuild is asked for if and only if some entry point's histogram differs from the truth or a dependency of it has no anchor |
| `DepCounts.CountTable.InitEntryPointDepCounts` | backend/gradient-db/src/dep_closure.rs:140-167 | The evaluation's histograms are exact, all others keep their cells, and no cell exceeds the truth if none did |
| `DepCounts.CountTable.ApplyDepCountDelta` | backend/gradient-db/src/dep_closure.rs:222-262 | Each cell changes as the transition asks, never below zero; bounds and exactness of before the transition hold again |
| `ClosureSizes.TransitiveClosureReachable` | backend/gradient-db/src/closure.rs:23-47 | The layered walk terminates and visits exactly the dependency closure of its roots |
| `ClosureSizes.CollectTransitiveDependents` | backend/gradient-db/src/dependency_graph.rs:29-55 | The reverse walk visits exactly the derivations whose forward closure holds the start |
| `ClosureSizes.OutputSizesByDrv` | backend/gradient-db/src/closure.rs:51-96 | Each derivation gets the sum of its known output sizes, its own before the cached path's |
| `ClosureSizes.TransitiveClosureSize` | backend/gradient-db/src/closure.rs:100-108 | The total is the sum over the closure |
| `ClosureSizes.LoadAdjacency` | backend/gradient-db/src/closure.rs:124-145 | One walk over all roots records the direct dependencies of everything reachable |
| `ClosureSizes.PushChildren` | backend/gradient-db/src/closure.rs:156-162 | Each child not seen before is pushed once |
| `ClosureSizes.SumBelow` | backend/gradient-db/src/closure.rs:151-165 | The stack walk adds every node of one root's closure exactly once, on any graph |
| `ClosureSizes.TransitiveClosureSizes` | backend/gradient-db/src/closure.rs:116-167 | For every root the batched size is the one-root sum, cycles and diamonds included |
| `Abort.HardAbortRow` | backend/gradient-ci/src/abort.rs:31-141 | A hard abort stops an anchor if and only if it was in progress, the evaluation needs it and no other live one does |
| `Abort.BulkAbortRow` | backend/gradient-db/src/recovery.rs:113-150 | The same for the restart statement over a set of evaluations |
| `Abort.StatusSets` | backend/gradient-entity/src/evaluation.rs:53-75 | Which evaluation statuses are in flight, which come before building, and which build statuses an abort may stop, listed |
| `Abort.AbortTables` | backend/gradient-ci/src/abort.rs:31-141 | All tables after an abort: the evaluation is aborted if it was in flight, a soft one stops no anchor, no other column changes |
| `Abort.RecoveryRows` | backend/gradient-db/src/recovery.rs:26-150 | Every row of every table after a restart |
| `Abort.BulkIsSequential` | backend/gradient-db/src/recovery.rs:113-150 | Hard-aborting evaluations one by one, in any order and with repeats, is the one bulk abort of the active ones |
| `Abort.AbortsKeepWanted` | backend/gradient-ci/src/abort.rs:31-141 | No sequence of hard and soft aborts stops an anchor that a still active evaluation needs, or touches a settled one |
| `Abort.RecoveryIsHardAborts` | backend/gradient-db/src/recovery.rs:26-111 | Restart recovery is the requeue followed by hard aborts of the pre-build evaluations in any order |
| `Abort.RecoverySettles` | backend/gradient-db/src/recovery.rs:26-111 | Nothing stays in flight, wanted anchors are queued or untouched, and a second recovery changes nothing |
| `Abort.WorkTables.AbortEvaluation` | backend/gradient-ci/src/abort.rs:31-103 | The new tables, and exactly the anchors whose status changed |
| `Abort.WorkTables.AbortEvalAnchors` | backend/gradient-ci/src/abort.rs:58-103 | The loop aborts exactly the active anchors no other live evaluation needs |
| `Abort.WorkTables.RecoverInterruptedWork` | backend/gradient-db/src/recovery.rs:26-111 | The tables after a restart |
| `Gc.DropKeepsNeeded` | backend/gradient-db/src/gc.rs:288-313 | A chunk delete leaves the roots, the reachable set and every row of a reachable derivation as they were |
| `Gc.OrphanIff` | backend/gradient-db/src/gc.rs:198-286 | The candidates are exactly the derivations past the grace period that no entry point and no job needs, at any depth |
| `Gc.CollectMeans` | backend/gradient-db/src/gc.rs:198-407 | All tables after an undisturbed pass, and the reclaimed hashes: those of collected derivations that no survivor shares within its family |
| `Gc.ReclaimedInIff` | backend/gradient-db/src/gc.rs:327-407 | Over any run: a hash is reclaimed if and only if a deleted orphan had it as output and no output row is left with it, or as `.drv` and no derivation is left with it |
| `Gc.SweepChunks` | backend/gradient-db/src/gc.rs:288-313 | Sweeping chunk after chunk, each with its re-check, deletes what one statement would |
| `Gc.RunKeepsClosure` | backend/gradient-db/src/gc.rs:198-313 | Under any interleaving with other writers, while a derivation stays needed nothing in its closure is lost |
| `Gc.SurvivorsKeepArtifactsIff` | backend/gradient-db/src/gc.rs:424-449 | Survivors keep `.drv` and outputs if and only if no reclaimed output is a survivor's `.drv` and no reclaimed `.drv` a survivor's output |
| `Gc.DisjointFamiliesAreSafe` | backend/gradient-db/src/gc.rs:198-382 | Over any run from scan to reclaim with other writers: with `.drv` and output hashes disjoint at both ends, no survivor loses either |
| `Gc.CollectIsSafe` | backend/gradient-db/src/gc.rs:327-382 | The same for an undisturbed pass |
| `Gc.LateRowsKeepArtifactsIff` | backend/gradient-db/src/gc.rs:327-407 | Rows written between the survivor queries and the reclaim are safe if and only if none is new under a hash about to go |
| `Gc.DrvMadeByADerivationIsLost` | backend/gradient-db/src/gc.rs:424-449 | A survivor whose `.drv` only a collected derivation had as output loses its row |
| `Gc.PurgeChunks` | backend/gradient-db/src/gc.rs:390-407 | Reclaiming in chunks, each with its own clear, leaves what one transaction over all hashes leaves |
| `Gc.CollectKeepsPathsSound` | backend/gradient-db/src/gc.rs:198-407 | The pass keeps the completeness invariant of the cache |
| `Gc.CollectIdempotent` | backend/gradient-db/src/gc.rs:198-407 | A second pass at the same cutoff has no candidates |
| `Gc.EdgeSurvivesIff` | backend/gradient-db/src/gc.rs:288-313 | A surviving derivation keeps a dependency edge if and only if the dependency survives |
| `Gc.SparedOrphanIsTruncated` | backend/gradient-db/src/gc.rs:198-313 | A spared orphan with a collected dependency, once referenced again, is needed and still counts as flushed while the dependency is outside its closure; one that lost all of them has its dependencies ready |
| `Gc.Collector.DeleteInChunks` | backend/gradient-db/src/gc.rs:288-313 | The chunk loop with any growing writer before each statement is a run, reports exactly what the run's deletes removed, and undisturbed is one delete |
| `Gc.PurgeInChunks` | backend/gradient-db/src/gc.rs:390-407 | The reclaim loop equals one purge |
| `Gc.Collector.GcOrphanDerivations` | backend/gradient-db/src/gc.rs:198-407 | With any growing writers between the deletes, exactly the unshared artifacts of the deleted candidates are reclaimed; undisturbed, exactly the past-grace unreachable derivations go; in any query order |
| `EvalGc.EvaluationsToGc` | backend/gradient-db/src/gc.rs:143-175 | Nothing while an unfinished evaluation is young or with `keep` 0; otherwise exactly the terminal evaluations with at least `keep` newer terminal ones |
| `EvalGc.BusyIff` | backend/gradient-db/src/gc.rs:143-160 | Collection is blocked if and only if some unfinished evaluation was updated within the wedge limit, or there is no limit |
| `EvalGc.KeepsTheNewest` | backend/gradient-db/src/gc.rs:143-175 | Exactly the newest `keep` terminal evaluations stay, or all if there are fewer |
| `EvalGc.CollectKeepsLinked` | backend/gradient-db/src/gc.rs:70-88 | No surviving pointer names a deleted row, and pointers between survivors are kept |
| `EvalGc.BreakList` | backend/gradient-db/src/gc.rs:70-88 | The unlink loop nulls exactly the pointers of and into the doomed rows |
| `EvalGc.DeleteEach` | backend/gradient-db/src/gc.rs:90-121 | Rows go one by one; a commit goes if and only if a deleted evaluation used it and no remaining one does |
| `EvalGc.EvaluationTable.GcProjectEvaluations` | backend/gradient-db/src/gc.rs:27-125 | The whole pass: which rows go, what the others look like, which commits remain |
| `ATerm.String` | backend/gradient-db/src/derivation.rs:197-217 | A string read leaves a strictly shorter suffix of the input |
| `ATerm.Comma` | backend/gradient-db/src/derivation.rs:221-226 | So does a comma |
| `ATerm.ListsLeaveSuffix` | backend/gradient-db/src/derivation.rs:231-362 | So does every list reader |
| `ATerm.ParseString` | backend/gradient-db/src/derivation.rs:197-217 | The character loop computes the string reader, escapes and both errors included |
| `ATerm.ParseOutputs` | backend/gradient-db/src/derivation.rs:231-269 | The output loop computes the list of output entries or its first error |
| `ATerm.ParseOutput` | backend/gradient-db/src/derivation.rs:249-267 | One output entry, or the first error in it |
| `ATerm.ParseInputDrvs` | backend/gradient-db/src/derivation.rs:275-305 | The same for input derivations |
| `ATerm.ParseInput` | backend/gradient-db/src/derivation.rs:293-303 | One input derivation entry |
| `ATerm.ParseStringList` | backend/gradient-db/src/derivation.rs:308-329 | The same for string lists |
| `ATerm.ParseEnv` | backend/gradient-db/src/derivation.rs:332-362 | The same for the environment, where the last entry of a key wins |
| `ATerm.ParsePair` | backend/gradient-db/src/derivation.rs:350-360 | One environment entry |
| `ATerm.ParseDrv` | backend/gradient-db/src/derivation.rs:367-399 | The whole reader, field by field |
| `ATermPrint.RoundTrip` | backend/gradient-db/src/derivation.rs:367-399 | Reading the canonical text of any derivation, behind any blanks and before anything, gives that derivation |
| `ATermPrint.TextIsInjective` | backend/gradient-db/src/derivation.rs:367-399 | No two derivations have the same text |
| `ATermPrint.EnvironmentOfListing` | backend/gradient-db/src/derivation.rs:332-362 | An environment listed once per key is read back as that map |
| `ATermPrint.StringOfPrint` | backend/gradient-db/src/derivation.rs:197-217 | Any string, escaped and quoted, is read back whatever follows |
| `ATermGrammar.DrvIff` | backend/gradient-db/src/derivation.rs:367-399 | A text reads as a derivation if and only if the grammar spells it so: the eight fields in order, blanks before any token, anything after the environment |
| `ATermGrammar.StringIff` | backend/gradient-db/src/derivation.rs:197-217 | A string is read if and only if it is quoted and spelled with escapes character by character, up to the first bare quote |
| `ATermGrammar.CommaIff` | backend/gradient-db/src/derivation.rs:221-226 | A comma, behind any blanks |
| `ATermGrammar.ListIff` | backend/gradient-db/src/derivation.rs:231-362 | A list of any entries: brackets, entries in order, one comma between two |
| `ATermGrammar.OutputIff` | backend/gradient-db/src/derivation.rs:249-267 | An output entry is four strings in parentheses |
| `ATermGrammar.InputIff` | backend/gradient-db/src/derivation.rs:293-303 | An input entry is a string and a list of strings in parentheses |
| `ATermGrammar.EnvironmentIff` | backend/gradient-db/src/derivation.rs:332-362 | The environment holds exactly the listed keys, each with its last value |
| `FlakeLock.StarIsAnyRun` | backend/gradient-util/src/glob.rs:24-37 | A star matches any run of characters, the empty run included |
| `FlakeLock.GlobIff` | backend/gradient-util/src/glob.rs:24-37 | A name matches a pattern if and only if it can be cut into the characters of the pattern with a run in place of each star |
| `FlakeRef.FromMapIff` | backend/gradient-flake-lock/src/lock.rs:151-184 | A block reads as a reference if and only if it names its kind and holds that kind's fields as text, with any further keys beside them |
| `FlakeRef.RefRoundTrip` | backend/gradient-flake-lock/src/lock.rs:151-184 | A reference of any kind, written as a block, reads back as itself |
| `FlakeRef.UnreadableIff` | backend/gradient-flake-lock/src/lock.rs:151-184 | A block is unreadable if and only if the type, or a field its kind needs, is missing or not text |
| `FlakeLock.AskIff` | backend/gradient-flake-lock/src/generator.rs:120-142 | The resolver is asked for exactly the reference the block describes |
| `FlakeLock.SucceedsMeans` | backend/gradient-flake-lock/src/generator.rs:88-142 | A run succeeds if and only if the version is 7 and every wanted name is a direct input whose reference the resolver answers |
| `FlakeLock.ProduceMeans` | backend/gradient-flake-lock/src/generator.rs:88-184 | What a successful run writes: nothing if every wanted input is newest, else each outdated node locked to the resolver's answer for its own reference, and no other change |
| `FlakeLock.ProduceError` | backend/gradient-flake-lock/src/generator.rs:88-142 | The error of a failed run is the version's, or that of a wanted name that fails in just that way |
| `FlakeLock.SucceedsIff` | backend/gradient-flake-lock/src/generator.rs:88-142 | A run fails if and only if the version is not 7 or some wanted name is no direct input, has no readable original or does not resolve |
| `FlakeLock.BumpAllHit` | backend/gradient-flake-lock/src/generator.rs:144-169 | Inputs that share a node write it once and for all the same |
| `FlakeLock.BumpAllMiss` | backend/gradient-flake-lock/src/generator.rs:144-169 | A node no outdated input points to is untouched |
| `FlakeLock.PatchFacts` | backend/gradient-flake-lock/src/generator.rs:144-184 | Only the four revision keys of outdated nodes change; a bumped node keeps a `ref` only if it is plain git |
| `FlakeLock.Idempotent` | backend/gradient-flake-lock/src/generator.rs:88-184 | A second run over the written lock bumps nothing; a run bumps nothing if and only if every wanted input is newest |
| `FlakeLock.ExpandTracked` | backend/gradient-flake-lock/src/generator.rs:98-107 | Patterns stand for the declared inputs they match, in order, other names for themselves |
| `FlakeLock.CollectTargets` | backend/gradient-flake-lock/src/generator.rs:95-118 | The target loop takes each name once, or stops at the first that is no direct input |
| `FlakeLock.ResolveAll` | backend/gradient-flake-lock/src/generator.rs:120-142 | The resolve loop, or its first failure |
| `FlakeLock.RewriteNodes` | backend/gradient-flake-lock/src/generator.rs:144-169 | The rewrite loop, and the inputs it reports as bumped |
| `FlakeLock.RunProduce` | backend/gradient-flake-lock/src/generator.rs:88-184 | The whole run over a parsed lock: it writes what `FlakeLock.ProduceMeans` says of the resolver's answers, or fails with an error as `FlakeLock.ProduceError` says |

## Left out

- Time, row order, locking, connection handling and failed statements: each step sees the tables the step before it left.
- Status side effects: events, logs, notifications and metrics that follow a transition.
- The order in which the self-healing of a missing input chooses what to demote: its demotions are single actions of a run, with or without the clear.
- BetweenPasses.RunDispatchSafeBetween: passes scoped to an evaluation that does not hold the anchor, and evaluations that insert derivations or edges, are not among the steps known to keep the trust below it.
- Unstick.SecondPassPromotesOnlyRestored: one direction only, in terms of the state before both passes; `Unstick.SecondPassPromotesIff` is exact in terms of the state between them.
- Dispatch.RunDispatchSafe: an ingest is taken to respect content addressing, a stored path never changes its references, as `backend/gradient-proto/src/ingest.rs` relies on.
- DepCounts.RunKeepsUnder: the entry points are fixed for the length of a run.
- Gc.Collector.GcOrphanDerivations: other writers run before each delete statement; rows they write after the survivor queries are the subject of `Gc.LateRowsKeepArtifactsIff`. Build logs of deleted attempts are not modelled, and artifact deletions that fail with a warning are taken to succeed.
- EvalGc.EvaluationTable.GcProjectEvaluations: takes the newest-first answer of its query as given; a commit delete that fails with a warning is taken to succeed.
- ClosureSizes.TransitiveClosureSizes: sizes are unbounded integers, overflow of 64-bit sums is not modelled.
- Materialising the dependency closures of entry points: a query whose result the histogram model takes as its closure rows.
- ATermGrammar.DrvIff: says which texts are accepted and as what; which error a refused text gets is stated by the loops in `ATerm` only.
- NoDeadZone.NoDeadZoneAfterDeep: references between paths are taken to be acyclic but for a path's reference to itself, as Nix makes them.
- ATerm.ParseDrv: starts from text; decoding bytes as UTF-8 is not modelled, nor are the attribute accessors of a parsed derivation.
- FlakeLock.RunProduce: starts from a parsed lock and ends with one; JSON reading and writing, fetching and hashing are not modelled. Keys the run reads or writes have constructors of their own.
- FlakeLock.SucceedsIff: the resolver is a fixed function for the length of a run.
- Exclusions compare the dot-separated pieces of a joined path, so a name with a dot in it can match more than its own segment; the model keeps this and both sides of `Discovery.ShardedDiscovery` share it.
- Permissions, forges, the proxy, the worker protocol, the command line and the web interface.
