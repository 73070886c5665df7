/** The tables of the build graph that the reconciler, the gates and the sweeps
    read and write. Tables with a key are maps, pure relations are sets of rows. */
module Tables {
  import opened Walks
  import opened Wrappers

  datatype DrvId = DrvId(uuid: nat)
  datatype EvalId = EvalId(uuid: nat)
  datatype Hash = Hash(text: string)

  datatype BuildStatus =
    | Created | Queued | Building | Completed | FailedPermanent
    | Aborted | DependencyFailed | Substituted | FailedTransient | FailedTimeout
  {
    predicate TerminalSuccess() { this == Completed || this == Substituted }

    predicate TerminalFailure() {
      this == FailedPermanent || this == DependencyFailed || this == FailedTimeout
    }

    /** Thawed by a fresh build intent: the terminal failures and `Aborted`. */
    predicate Requeueable() { TerminalFailure() || this == Aborted }

    /** Overwritten by the dependency-failed transitions. */
    predicate CascadeTarget() { this == Created || this == Queued || this == FailedTransient }
  }

  /** A `derivation_build` row: the one global anchor of a derivation. */
  datatype Anchor = Anchor(
    status: BuildStatus,
    substitutable: bool,
    substituted: bool,
    edgesComplete: bool,
    edgesUnresolved: bool,
    closureComplete: bool,
    drvClosureCached: bool,
    attempt: nat)

  /** The identity of a `derivation_output` row. */
  datatype Output = Output(derivation: DrvId, name: string, hash: Hash)

  /** A `cached_path` row; `backed` says that `file_hash` is not null. */
  datatype CachedPath = CachedPath(backed: bool, closureComplete: bool)

  datatype Job = Job(evaluation: EvalId, derivation: DrvId)

  datatype Outcome = Running | Succeeded | AttemptAborted | Failed
  datatype Reason = BuilderNonzero | OtherReason

  /** The columns of a `build_attempt` row that the thaw reads. */
  datatype Attempt = Attempt(anchor: DrvId, outcome: Outcome, reason: Reason)

  datatype Db = Db(
    drvHash: map<DrvId, Hash>,       // derivation: id to the hash of its own .drv
    anchors: map<DrvId, Anchor>,     // derivation_build
    edges: set<Row<DrvId>>,          // derivation_dependency: derivation, dependency
    outputs: set<Output>,            // derivation_output
    upstream: set<Output>,           // its rows whose external_url is set
    sources: set<(DrvId, Hash)>,     // derivation_input_source
    paths: map<Hash, CachedPath>,    // cached_path
    refs: set<Row<Hash>>,            // cached_path_reference: referrer, reference_hash
    jobs: set<Job>,                  // build_job
    attempts: set<Attempt>)          // build_attempt

  predicate Backed(db: Db, h: Hash) { h in db.paths && db.paths[h].backed }

  function JobDrvs(db: Db): set<DrvId> { set j | j in db.jobs :: j.derivation }

  function EvalDrvs(db: Db, e: EvalId): set<DrvId> {
    set j | j in db.jobs && j.evaluation == e :: j.derivation
  }

  /** The dependency closure of the derivations an evaluation references. */
  function EvalClosure(db: Db, e: EvalId): set<DrvId> { Reach(db.edges, EvalDrvs(db, e)) }

  /** The reference closure of an evaluation's outputs and own `.drv`s. */
  function EvalPaths(db: Db, e: EvalId): set<Hash> {
    Reach(db.refs,
          (set o | o in db.outputs && o.derivation in EvalDrvs(db, e) :: o.hash)
          + (set d | d in EvalDrvs(db, e) && d in db.drvHash :: db.drvHash[d]))
  }

  /** The anchor rows an anchor-side sweep may touch. */
  function AnchorBound(db: Db, scope: Option<EvalId>): set<DrvId> {
    match scope
    case None => db.anchors.Keys
    case Some(e) => EvalClosure(db, e)
  }

  /** The `cached_path` rows the path-side sweep may touch. */
  function PathBound(db: Db, scope: Option<EvalId>): set<Hash> {
    match scope
    case None => db.paths.Keys
    case Some(e) => EvalPaths(db, e)
  }

  // ----- the three flag families as sets -----

  function ClosureFlags(db: Db): set<DrvId> {
    set d | d in db.anchors && db.anchors[d].closureComplete
  }

  function DrvFlags(db: Db): set<DrvId> {
    set d | d in db.anchors && db.anchors[d].drvClosureCached
  }

  function PathFlags(db: Db): set<Hash> {
    set h | h in db.paths && db.paths[h].closureComplete
  }

  function WithClosure(db: Db, flags: set<DrvId>): Db {
    db.(anchors := map d | d in db.anchors :: db.anchors[d].(closureComplete := d in flags))
  }

  function WithDrv(db: Db, flags: set<DrvId>): Db {
    db.(anchors := map d | d in db.anchors :: db.anchors[d].(drvClosureCached := d in flags))
  }

  function WithPaths(db: Db, flags: set<Hash>): Db {
    db.(paths := map h | h in db.paths :: db.paths[h].(closureComplete := h in flags))
  }

  lemma ClosureFlagLens(db: Db, f: set<DrvId>, g: set<DrvId>)
    ensures WithClosure(db, ClosureFlags(db)) == db
    ensures WithClosure(WithClosure(db, f), g) == WithClosure(db, g)
    ensures ClosureFlags(WithClosure(db, f)) == f * db.anchors.Keys
  {
    assert WithClosure(db, ClosureFlags(db)).anchors == db.anchors;
    assert WithClosure(WithClosure(db, f), g).anchors == WithClosure(db, g).anchors;
  }

  lemma DrvFlagLens(db: Db, f: set<DrvId>, g: set<DrvId>)
    ensures WithDrv(db, DrvFlags(db)) == db
    ensures WithDrv(WithDrv(db, f), g) == WithDrv(db, g)
    ensures DrvFlags(WithDrv(db, f)) == f * db.anchors.Keys
  {
    assert WithDrv(db, DrvFlags(db)).anchors == db.anchors;
    assert WithDrv(WithDrv(db, f), g).anchors == WithDrv(db, g).anchors;
  }

  lemma PathFlagLens(db: Db, f: set<Hash>, g: set<Hash>)
    ensures WithPaths(db, PathFlags(db)) == db
    ensures WithPaths(WithPaths(db, f), g) == WithPaths(db, g)
    ensures PathFlags(WithPaths(db, f)) == f * db.paths.Keys
  {
    assert WithPaths(db, PathFlags(db)).paths == db.paths;
    assert WithPaths(WithPaths(db, f), g).paths == WithPaths(db, g).paths;
  }
}
