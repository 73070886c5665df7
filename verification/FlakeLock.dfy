/** Bumping the tracked inputs of a `flake.lock` to their newest revisions. */
module FlakeLock {
  import opened Walks
  import opened Ordered
  import opened Wrappers
  import opened FlakeRef

  datatype Error =
    | UnsupportedVersion
    | NotADirectInput(input: string)
    | MissingNode(node: string)
    | NoOriginal(input: string)
    | BadReference(input: string)
    | ResolverFailed(input: string)

  type Checked<+T> = Result<T, Error>

  datatype InputRef = Direct(node: string) | Follows(path: seq<string>)

  datatype Node = Node(
    flake: Option<bool>, inputs: map<string, InputRef>, locked: Option<Block>, original: Option<Block>)

  datatype Lock = Lock(nodes: map<string, Node>, root: string, version: nat)

  datatype Resolved = Resolved(rev: string, gitRef: Option<string>, narHash: string, lastModified: int)

  /** The newest revision of a reference, or a failure; fixed for the length of a run. */
  type Resolver = LockedRef -> Option<Resolved>

  datatype Answer = Unreadable | Unresolved | Newest(reference: LockedRef, resolved: Resolved)

  /** Read an `original` block, then resolve it. */
  type Oracle = Block -> Answer

  function Ask(resolver: Resolver): Oracle {
    (b: Block) =>
      match FromMap(b)
      case None => Unreadable
      case Some(reference) =>
        match resolver(reference)
        case None => Unresolved
        case Some(resolved) => Newest(reference, resolved)
  }

  // ----- reading a lock -----

  function LockedRev(n: Node): Option<string> { if n.locked.Some? then TextAt(n.locked.value, Rev) else None }

  function RootInputs(lock: Lock): map<string, InputRef> {
    if lock.root in lock.nodes then lock.nodes[lock.root].inputs else map[]
  }

  /** The node behind a root input; a `follows` path is not looked through. */
  function InputNode(lock: Lock, input: string): Option<string> {
    if input in RootInputs(lock) && RootInputs(lock)[input].Direct? then Some(RootInputs(lock)[input].node) else None
  }

  // ----- which inputs -----

  predicate IsPattern(name: string) { '*' in name || '?' in name || '[' in name }

  predicate Matches(p: string, c: string)
    decreases |p| + |c|
  {
    if p == "" then c == ""
    else if p[0] == '*' then Matches(p[1..], c) || (c != "" && Matches(p, c[1..]))
    else if p[0] == '?' then c != "" && Matches(p[1..], c[1..])
    else c != "" && c[0] == p[0] && Matches(p[1..], c[1..])
  }

  /** A star stands for any run of characters, the empty run included. */
  lemma {:induction false} StarIsAnyRun(p: string, c: string)
    requires p != "" && p[0] == '*'
    ensures Matches(p, c) <==> exists k :: 0 <= k <= |c| && Matches(p[1..], c[k..])
    decreases |c|
  {
    if Matches(p[1..], c) {
      assert c[0..] == c;
    }
    if c != "" {
      StarIsAnyRun(p, c[1..]);
      if Matches(p, c[1..]) {
        var k :| 0 <= k <= |c[1..]| && Matches(p[1..], c[1..][k..]);
        assert c[1..][k..] == c[k + 1..];
      }
      if k :| 0 <= k <= |c| && Matches(p[1..], c[k..]) {
        if k > 0 { assert c[k..] == c[1..][k - 1..]; } else { assert c[k..] == c; }
      }
    } else {
      assert forall k :: 0 <= k <= |c| ==> c[k..] == c;
    }
  }

  /** `c` cut into one piece for each character of the pattern: anything for a star, one character
      for a question mark, the character itself otherwise. */
  ghost predicate Cut(p: string, pieces: seq<string>, c: string) {
    && |pieces| == |p| && Concat(pieces) == c
    && forall i :: 0 <= i < |p| ==> PieceFits(p[i], pieces[i])
  }

  predicate PieceFits(ch: char, piece: string) {
    if ch == '*' then true else if ch == '?' then |piece| == 1 else piece == [ch]
  }

  function Concat(pieces: seq<string>): string { if pieces == [] then "" else pieces[0] + Concat(pieces[1..]) }

  ghost predicate Globs(p: string, c: string) { exists pieces :: Cut(p, pieces, c) }

  lemma {:induction false} MatchesCut(p: string, c: string) returns (pieces: seq<string>)
    requires Matches(p, c)
    ensures Cut(p, pieces, c)
    decreases |p| + |c|
  {
    if p == "" {
      pieces := [];
    } else if p[0] == '*' && !Matches(p[1..], c) {
      var rest := MatchesCut(p, c[1..]);
      pieces := [[c[0]] + rest[0]] + rest[1..];
      assert pieces[1..] == rest[1..] && c == [c[0]] + c[1..];
      assert [c[0]] + rest[0] + Concat(rest[1..]) == [c[0]] + (rest[0] + Concat(rest[1..]));
    } else {
      var first := if p[0] == '*' then "" else [c[0]];
      var rest := MatchesCut(p[1..], c[|first|..]);
      pieces := [first] + rest;
      assert pieces[1..] == rest && c == first + c[|first|..];
      forall i | 0 <= i < |p| ensures PieceFits(p[i], pieces[i]) {
        if i > 0 { assert p[i] == p[1..][i - 1] && pieces[i] == rest[i - 1]; }
      }
    }
  }

  lemma {:induction false} CutMatches(p: string, pieces: seq<string>, c: string)
    requires Cut(p, pieces, c)
    ensures Matches(p, c)
    decreases |p| + |c|
  {
    if p != "" {
      var first, rest := pieces[0], pieces[1..];
      assert c == first + Concat(rest) && c[|first|..] == Concat(rest);
      assert PieceFits(p[0], first);
      forall i | 0 <= i < |p[1..]| ensures PieceFits(p[1..][i], rest[i]) { assert PieceFits(p[i + 1], pieces[i + 1]); }
      if p[0] == '*' && first != "" {
        var less := [first[1..]] + rest;
        assert less[1..] == rest && c[1..] == first[1..] + Concat(rest);
        forall i | 0 <= i < |p| ensures PieceFits(p[i], less[i]) { assert PieceFits(p[i], pieces[i]); }
        CutMatches(p, less, c[1..]);
      } else {
        CutMatches(p[1..], rest, c[|first|..]);
        if p[0] == '*' { assert c[0..] == c; }
      }
    }
  }

  /** What a glob matches, without the search. */
  lemma GlobIff(p: string, c: string)
    ensures Matches(p, c) <==> Globs(p, c)
  {
    if Matches(p, c) { var pieces := MatchesCut(p, c); }
    if pieces :| Cut(p, pieces, c) { CutMatches(p, pieces, c); }
  }

  function Matching(p: string, declared: seq<string>): seq<string> {
    if declared == [] then []
    else
      Matching(p, declared[..|declared| - 1])
      + if Matches(p, declared[|declared| - 1]) then [declared[|declared| - 1]] else []
  }

  /** A pattern stands for the declared inputs it matches, in order. */
  function Expand(declared: seq<string>, input: string): seq<string> {
    if IsPattern(input) then Matching(input, declared) else [input]
  }

  function AllNames(declared: seq<string>, tracked: seq<string>): seq<string> {
    if tracked == [] then []
    else AllNames(declared, tracked[..|tracked| - 1]) + Expand(declared, tracked[|tracked| - 1])
  }

  datatype Target = Target(input: string, node: string)

  /** Each name once, in order of first mention. */
  function Targets(lock: Lock, names: seq<string>): Checked<seq<Target>> {
    if names == [] then Ok([])
    else
      var init, name := names[..|names| - 1], names[|names| - 1];
      match Targets(lock, init)
      case Err(e) => Err(e)
      case Ok(ts) =>
        if name in init then Ok(ts)
        else if InputNode(lock, name).None? then Err(NotADirectInput(name))
        else Ok(ts + [Target(name, InputNode(lock, name).value)])
  }

  // ----- resolving -----

  datatype Resolution = Resolution(
    input: string, node: string, oldRev: Option<string>, reference: LockedRef, resolved: Resolved)

  function Resolve(lock: Lock, ask: Oracle, t: Target): Checked<Resolution> {
    if t.node !in lock.nodes then Err(MissingNode(t.node))
    else
      var node := lock.nodes[t.node];
      if node.original.None? then Err(NoOriginal(t.input))
      else
        match ask(node.original.value)
        case Unreadable => Err(BadReference(t.input))
        case Unresolved => Err(ResolverFailed(t.input))
        case Newest(reference, resolved) => Ok(Resolution(t.input, t.node, LockedRev(node), reference, resolved))
  }

  function Resolutions(lock: Lock, ask: Oracle, ts: seq<Target>): (r: Checked<seq<Resolution>>)
    ensures r.Ok? ==> forall i :: 0 <= i < |r.value| ==> r.value[i].node in lock.nodes
  {
    if ts == [] then Ok([])
    else
      match Resolutions(lock, ask, ts[..|ts| - 1])
      case Err(e) => Err(e)
      case Ok(rs) =>
        match Resolve(lock, ask, ts[|ts| - 1])
        case Err(e) => Err(e)
        case Ok(x) => Ok(rs + [x])
  }

  // ----- rewriting -----

  predicate UpToDate(r: Resolution) { r.oldRev == Some(r.resolved.rev) }

  function NewRef(r: Resolution): Option<string> { if r.reference.Git? then r.resolved.gitRef else None }

  function NewBlock(was: Option<Block>, r: Resolution): Block {
    var b := if was.Some? then was.value else map[];
    var b1 := b[Rev := Text(r.resolved.rev)][NarHash := Text(r.resolved.narHash)]
               [LastModified := Number(r.resolved.lastModified)];
    if NewRef(r).Some? then b1[Ref := Text(NewRef(r).value)] else b1 - {Ref}
  }

  function WithRevision(node: Node, r: Resolution): Node { node.(locked := Some(NewBlock(node.locked, r))) }

  function BumpOne(nodes: map<string, Node>, r: Resolution): map<string, Node>
    requires r.node in nodes
  {
    if UpToDate(r) then nodes
    else nodes[r.node := WithRevision(nodes[r.node], r)]
  }

  function BumpAll(nodes: map<string, Node>, rs: seq<Resolution>): (after: map<string, Node>)
    requires forall i :: 0 <= i < |rs| ==> rs[i].node in nodes
    ensures after.Keys == nodes.Keys
  {
    if rs == [] then nodes else BumpOne(BumpAll(nodes, rs[..|rs| - 1]), rs[|rs| - 1])
  }

  datatype BumpedInput = BumpedInput(name: string, oldRev: Option<string>, newRev: string)

  function Bumped(rs: seq<Resolution>): seq<BumpedInput> {
    if rs == [] then []
    else
      var r := rs[|rs| - 1];
      Bumped(rs[..|rs| - 1]) + if UpToDate(r) then [] else [BumpedInput(r.input, r.oldRev, r.resolved.rev)]
  }

  datatype Patch = Patch(lock: Lock, bumped: seq<BumpedInput>)

  /** The inputs the root node declares, in key order. */
  ghost predicate Declares(lock: Lock, declared: seq<string>) {
    Ascending(declared) && Elements(declared) == RootInputs(lock).Keys
  }

  function Produce(lock: Lock, declared: seq<string>, tracked: seq<string>, ask: Oracle): Checked<Option<Patch>> {
    if lock.version != 7 then Err(UnsupportedVersion)
    else
      match Targets(lock, AllNames(declared, tracked))
      case Err(e) => Err(e)
      case Ok(ts) =>
        match Resolutions(lock, ask, ts)
        case Err(e) => Err(e)
        case Ok(rs) =>
          if Bumped(rs) == [] then Ok(None)
          else Ok(Some(Patch(lock.(nodes := BumpAll(lock.nodes, rs)), Bumped(rs))))
  }

  // ----- when a run succeeds -----

  /** A name can be bumped: a direct input whose node exists, has a readable original and
      resolves. */
  predicate Bumpable(lock: Lock, ask: Oracle, name: string) {
    InputNode(lock, name).Some? && Resolve(lock, ask, Target(name, InputNode(lock, name).value)).Ok?
  }

  lemma {:induction false} TargetsFacts(lock: Lock, names: seq<string>)
    ensures Targets(lock, names).Ok? <==> forall n :: n in names ==> InputNode(lock, n).Some?
    ensures Targets(lock, names).Ok? ==>
              && (forall t :: t in Targets(lock, names).value ==>
                    t.input in names && InputNode(lock, t.input) == Some(t.node))
              && (forall n :: n in names ==> exists t :: t in Targets(lock, names).value && t.input == n)
  {
    if names != [] {
      var init, name := names[..|names| - 1], names[|names| - 1];
      TargetsFacts(lock, init);
      assert names == init + [name];
      assert forall n :: n in names <==> n in init || n == name;
      if Targets(lock, names).Ok? {
        var before, ts := Targets(lock, init).value, Targets(lock, names).value;
        forall n | n in names ensures exists t :: t in ts && t.input == n {
          if n in init {
            var t :| t in before && t.input == n;
            assert t in ts;
          } else {
            assert ts[|ts| - 1].input == n;
          }
        }
      }
    }
  }

  lemma {:induction false} ResolutionsFacts(lock: Lock, ask: Oracle, ts: seq<Target>)
    ensures Resolutions(lock, ask, ts).Ok? <==> forall t :: t in ts ==> Resolve(lock, ask, t).Ok?
    ensures Resolutions(lock, ask, ts).Ok? ==>
              var rs := Resolutions(lock, ask, ts).value;
              |rs| == |ts| && forall i :: 0 <= i < |ts| ==> Resolve(lock, ask, ts[i]) == Ok(rs[i])
  {
    if ts != [] {
      var init := ts[..|ts| - 1];
      ResolutionsFacts(lock, ask, init);
      assert ts == init + [ts[|ts| - 1]];
      assert forall t :: t in ts <==> t in init || t == ts[|ts| - 1];
    }
  }

  /** A run fails exactly when the lock has the wrong version or some name cannot be bumped. */
  lemma SucceedsIff(lock: Lock, declared: seq<string>, tracked: seq<string>, ask: Oracle)
    ensures Produce(lock, declared, tracked, ask).Ok? <==>
            lock.version == 7 && forall n :: n in AllNames(declared, tracked) ==> Bumpable(lock, ask, n)
  {
    var names := AllNames(declared, tracked);
    TargetsFacts(lock, names);
    if Targets(lock, names).Ok? {
      var ts := Targets(lock, names).value;
      ResolutionsFacts(lock, ask, ts);
      assert (forall t :: t in ts ==> Resolve(lock, ask, t).Ok?) <==>
             (forall n :: n in names ==> Bumpable(lock, ask, n)) by {
        if forall t :: t in ts ==> Resolve(lock, ask, t).Ok? {
          forall n | n in names ensures Bumpable(lock, ask, n) {
            var t :| t in ts && t.input == n;
            assert t == Target(n, InputNode(lock, n).value);
          }
        }
        if forall n :: n in names ==> Bumpable(lock, ask, n) {
          forall t | t in ts ensures Resolve(lock, ask, t).Ok? {
            assert Bumpable(lock, ask, t.input) && t == Target(t.input, InputNode(lock, t.input).value);
          }
        }
      }
    } else {
      var n :| n in names && InputNode(lock, n).None?;
      assert !Bumpable(lock, ask, n);
    }
  }

  // ----- what a run changes -----

  /** Two resolutions of one node agree on all but the input's name. */
  ghost predicate Agree(rs: seq<Resolution>) {
    forall i, j :: 0 <= i < |rs| && 0 <= j < |rs| && rs[i].node == rs[j].node ==>
      rs[i].oldRev == rs[j].oldRev && rs[i].reference == rs[j].reference && rs[i].resolved == rs[j].resolved
  }

  lemma ResolutionsAgree(lock: Lock, ask: Oracle, ts: seq<Target>)
    requires Resolutions(lock, ask, ts).Ok?
    ensures Agree(Resolutions(lock, ask, ts).value)
  {
    ResolutionsFacts(lock, ask, ts);
    var rs := Resolutions(lock, ask, ts).value;
    forall i, j | 0 <= i < |rs| && 0 <= j < |rs| && rs[i].node == rs[j].node
      ensures rs[i].oldRev == rs[j].oldRev && rs[i].reference == rs[j].reference && rs[i].resolved == rs[j].resolved
    {
      assert Resolve(lock, ask, ts[i]) == Ok(rs[i]) && Resolve(lock, ask, ts[j]) == Ok(rs[j]);
    }
  }

  predicate SameAnswer(r: Resolution, q: Resolution) { r.reference == q.reference && r.resolved == q.resolved }

  lemma WithRevisionTwice(node: Node, r: Resolution, q: Resolution)
    requires SameAnswer(r, q)
    ensures WithRevision(WithRevision(node, r), q) == WithRevision(node, r)
    ensures WithRevision(node, q) == WithRevision(node, r)
  {
    assert NewBlock(Some(NewBlock(node.locked, r)), q) == NewBlock(node.locked, r);
  }

  /** A node no outdated input points to is untouched. */
  lemma {:induction false} BumpAllMiss(nodes: map<string, Node>, rs: seq<Resolution>, n: string)
    requires forall i :: 0 <= i < |rs| ==> rs[i].node in nodes
    requires n in nodes && forall i :: 0 <= i < |rs| && rs[i].node == n ==> UpToDate(rs[i])
    ensures BumpAll(nodes, rs)[n] == nodes[n]
  {
    if rs != [] { BumpAllMiss(nodes, rs[..|rs| - 1], n); }
  }

  /** A node some outdated input points to gets its one new block; aliased inputs write the
      same block. */
  lemma {:induction false} BumpAllHit(nodes: map<string, Node>, rs: seq<Resolution>, i: nat)
    requires forall k :: 0 <= k < |rs| ==> rs[k].node in nodes
    requires Agree(rs) && i < |rs| && !UpToDate(rs[i])
    ensures BumpAll(nodes, rs)[rs[i].node] == WithRevision(nodes[rs[i].node], rs[i])
    decreases |rs|
  {
    var init, r, n := rs[..|rs| - 1], rs[|rs| - 1], rs[i].node;
    assert forall k :: 0 <= k < |init| ==> init[k] == rs[k];
    if r.node != n {
      BumpAllHit(nodes, init, i);
    } else {
      assert !UpToDate(r) && SameAnswer(r, rs[i]);
      if j :| 0 <= j < |init| && init[j].node == n {
        assert !UpToDate(rs[j]) && SameAnswer(rs[j], r);
        BumpAllHit(nodes, init, j);
        WithRevisionTwice(nodes[n], init[j], r);
        WithRevisionTwice(nodes[n], rs[i], init[j]);
      } else {
        BumpAllMiss(nodes, init, n);
        WithRevisionTwice(nodes[n], rs[i], r);
      }
    }
  }

  function Written(): set<Key> { {Rev, NarHash, LastModified, Ref} }

  /** Apart from the four keys of `locked`, a node is as it was. */
  ghost predicate SameButRevision(a: Node, b: Node) {
    && a.flake == b.flake && a.inputs == b.inputs && a.original == b.original
    && (a.locked.Some? ==> b.locked.Some?)
    && forall k :: k !in Written() ==> KeyIn(a.locked, k) == KeyIn(b.locked, k)
  }

  function KeyIn(b: Option<Block>, k: Key): Option<Json> {
    if b.Some? && k in b.value then Some(b.value[k]) else None
  }

  /** What a run that rewrote `lock` to `after` guarantees. */
  ghost predicate Rewritten(lock: Lock, ask: Oracle, after: Lock, names: seq<string>) {
    && after == lock.(nodes := after.nodes) && after.nodes.Keys == lock.nodes.Keys
    && (forall n :: n in lock.nodes ==> SameButRevision(lock.nodes[n], after.nodes[n]))
    && (forall n :: n in lock.nodes && after.nodes[n] != lock.nodes[n] ==> IsBumped(lock, ask, after, n))
    && (forall name :: name in names ==> NamesNewest(lock, ask, after, name))
  }

  /** Framing: the lock keeps its root, version and nodes; a node no outdated input points to
      is untouched, any other changes only in the four revision keys. A bumped node holds the
      resolved revision, and keeps a `ref` only when its original is plain git. */
  lemma PatchFacts(lock: Lock, declared: seq<string>, tracked: seq<string>, ask: Oracle)
    requires Produce(lock, declared, tracked, ask).Ok? && Produce(lock, declared, tracked, ask).value.Some?
    ensures Rewritten(lock, ask, Produce(lock, declared, tracked, ask).value.value.lock, AllNames(declared, tracked))
  {
    var names := AllNames(declared, tracked);
    var ts := Targets(lock, names).value;
    RewrittenBy(lock, ask, names, ts, Resolutions(lock, ask, ts).value,
                Produce(lock, declared, tracked, ask).value.value.lock);
  }

  lemma RewrittenBy(
      lock: Lock, ask: Oracle, names: seq<string>, ts: seq<Target>, rs: seq<Resolution>, after: Lock)
    requires Targets(lock, names) == Ok(ts) && Resolutions(lock, ask, ts) == Ok(rs)
    requires after == lock.(nodes := BumpAll(lock.nodes, rs))
    ensures Rewritten(lock, ask, after, names)
  {
    TargetsFacts(lock, names);
    ResolutionsFacts(lock, ask, ts);
    ResolutionsAgree(lock, ask, ts);
    forall n | n in lock.nodes
      ensures SameButRevision(lock.nodes[n], after.nodes[n])
      ensures after.nodes[n] != lock.nodes[n] ==> IsBumped(lock, ask, after, n)
    {
      NodeFacts(lock, ask, ts, rs, after, n);
    }
    forall name | name in names ensures NamesNewest(lock, ask, after, name) {
      var t :| t in ts && t.input == name;
      var i :| 0 <= i < |ts| && ts[i] == t;
      NewestAt(lock, ask, ts, rs, i, after);
    }
  }

  /** The resolutions are those of the targets. */
  ghost predicate Resolves(lock: Lock, ask: Oracle, ts: seq<Target>, rs: seq<Resolution>) {
    |rs| == |ts| && forall k :: 0 <= k < |rs| ==> Resolve(lock, ask, ts[k]) == Ok(rs[k]) && rs[k].node in lock.nodes
  }

  lemma NodeFacts(lock: Lock, ask: Oracle, ts: seq<Target>, rs: seq<Resolution>, after: Lock, n: string)
    requires Resolves(lock, ask, ts, rs) && Agree(rs)
    requires n in lock.nodes && after.nodes == BumpAll(lock.nodes, rs)
    ensures SameButRevision(lock.nodes[n], after.nodes[n])
    ensures after.nodes[n] != lock.nodes[n] ==> IsBumped(lock, ask, after, n)
  {
    if i :| 0 <= i < |rs| && rs[i].node == n && !UpToDate(rs[i]) {
      BumpAllHit(lock.nodes, rs, i);
      BlockFacts(lock.nodes[n].locked, rs[i]);
      assert Resolve(lock, ask, ts[i]) == Ok(rs[i]) && ts[i].node == n;
    } else {
      BumpAllMiss(lock.nodes, rs, n);
    }
  }

  lemma BlockFacts(was: Option<Block>, r: Resolution)
    ensures HoldsRevision(NewBlock(was, r), r.reference, r.resolved)
    ensures forall k :: k !in Written() ==> KeyIn(Some(NewBlock(was, r)), k) == KeyIn(was, k)
  {
  }

  predicate HoldsRevision(b: Block, reference: LockedRef, resolved: Resolved) {
    && KeyIn(Some(b), Rev) == Some(Text(resolved.rev))
    && KeyIn(Some(b), NarHash) == Some(Text(resolved.narHash))
    && KeyIn(Some(b), LastModified) == Some(Number(resolved.lastModified))
    && KeyIn(Some(b), Ref) ==
       if reference.Git? && resolved.gitRef.Some? then Some(Text(resolved.gitRef.value)) else None
  }

  /** The node was outdated and now holds what its original resolves to. */
  ghost predicate IsBumped(lock: Lock, ask: Oracle, after: Lock, n: string) {
    exists t: Target :: t.node == n && Resolve(lock, ask, t).Ok? && n in after.nodes
      && after.nodes[n].locked.Some?
      && !UpToDate(Resolve(lock, ask, t).value)
      && HoldsRevision(after.nodes[n].locked.value, Resolve(lock, ask, t).value.reference,
                       Resolve(lock, ask, t).value.resolved)
  }

  /** The input's node is locked to what its original resolves to. */
  ghost predicate NamesNewest(lock: Lock, ask: Oracle, after: Lock, name: string) {
    && Bumpable(lock, ask, name)
    && InputNode(lock, name).value in after.nodes
    && LockedRev(after.nodes[InputNode(lock, name).value])
       == Some(Resolve(lock, ask, Target(name, InputNode(lock, name).value)).value.resolved.rev)
  }

  lemma NewestAt(lock: Lock, ask: Oracle, ts: seq<Target>, rs: seq<Resolution>, i: nat, after: Lock)
    requires Resolves(lock, ask, ts, rs) && Agree(rs)
    requires i < |ts| && InputNode(lock, ts[i].input) == Some(ts[i].node)
    requires after.nodes == BumpAll(lock.nodes, rs)
    ensures NamesNewest(lock, ask, after, ts[i].input)
  {
    var n := ts[i].node;
    assert Resolve(lock, ask, ts[i]) == Ok(rs[i]) && ts[i] == Target(ts[i].input, n);
    if UpToDate(rs[i]) {
      BumpAllMiss(lock.nodes, rs, n);
    } else {
      BumpAllHit(lock.nodes, rs, i);
      BlockFacts(lock.nodes[n].locked, rs[i]);
    }
  }

  // ----- idempotence -----

  lemma {:induction false} TargetsSame(a: Lock, b: Lock, names: seq<string>)
    requires RootInputs(a) == RootInputs(b)
    ensures Targets(a, names) == Targets(b, names)
  {
    if names != [] { TargetsSame(a, b, names[..|names| - 1]); }
  }

  lemma {:induction false} BumpedNothing(rs: seq<Resolution>)
    ensures Bumped(rs) == [] <==> forall i :: 0 <= i < |rs| ==> UpToDate(rs[i])
  {
    if rs != [] {
      var init := rs[..|rs| - 1];
      BumpedNothing(init);
      assert forall i :: 0 <= i < |init| ==> init[i] == rs[i];
    }
  }

  /** A second run with the same answers, over the lock the first one wrote, finds nothing
      to bump; and a first run that finds nothing had every tracked input at its newest
      revision. Inputs that share a node are no exception. */
  lemma Idempotent(lock: Lock, declared: seq<string>, tracked: seq<string>, ask: Oracle)
    requires Produce(lock, declared, tracked, ask).Ok?
    ensures var first := Produce(lock, declared, tracked, ask).value;
            && (first.Some? ==> Produce(first.value.lock, declared, tracked, ask) == Ok(None))
            && (first.None? <==>
                  forall name :: name in AllNames(declared, tracked) ==> NamesNewest(lock, ask, lock, name))
            && (first.Some? ==> Declares(lock, declared) ==> Declares(first.value.lock, declared))
  {
    var names := AllNames(declared, tracked);
    var ts := Targets(lock, names).value;
    var rs := Resolutions(lock, ask, ts).value;
    TargetsFacts(lock, names);
    ResolutionsFacts(lock, ask, ts);
    BumpedNothing(rs);
    NoneIff(lock, ask, names, ts, rs);
    if Bumped(rs) != [] {
      var after := lock.(nodes := BumpAll(lock.nodes, rs));
      PatchFacts(lock, declared, tracked, ask);
      if lock.root in lock.nodes { assert SameButRevision(lock.nodes[lock.root], after.nodes[lock.root]); }
      TargetsSame(lock, after, names);
      SecondRun(lock, after, ask, names, ts);
    }
  }

  lemma NoneIff(lock: Lock, ask: Oracle, names: seq<string>, ts: seq<Target>, rs: seq<Resolution>)
    requires Targets(lock, names) == Ok(ts) && Resolutions(lock, ask, ts) == Ok(rs)
    ensures (forall i :: 0 <= i < |rs| ==> UpToDate(rs[i])) <==>
            forall name :: name in names ==> NamesNewest(lock, ask, lock, name)
  {
    TargetsFacts(lock, names);
    ResolutionsFacts(lock, ask, ts);
    forall i | 0 <= i < |rs|
      ensures UpToDate(rs[i]) <==> NamesNewest(lock, ask, lock, ts[i].input)
    {
      assert ts[i] in ts;
      UpToDateAt(lock, ask, ts[i], rs[i]);
    }
    if forall i :: 0 <= i < |rs| ==> UpToDate(rs[i]) {
      forall name | name in names ensures NamesNewest(lock, ask, lock, name) {
        var t :| t in ts && t.input == name;
        var i :| 0 <= i < |ts| && ts[i] == t;
        assert UpToDate(rs[i]);
      }
    }
    if forall name :: name in names ==> NamesNewest(lock, ask, lock, name) {
      forall i | 0 <= i < |rs| ensures UpToDate(rs[i]) {
        assert ts[i] in ts && ts[i].input in names;
      }
    }
  }

  lemma UpToDateAt(lock: Lock, ask: Oracle, t: Target, r: Resolution)
    requires Resolve(lock, ask, t) == Ok(r) && InputNode(lock, t.input) == Some(t.node)
    ensures UpToDate(r) <==> NamesNewest(lock, ask, lock, t.input)
  {
    assert t == Target(t.input, t.node);
  }

  lemma SecondRun(lock: Lock, after: Lock, ask: Oracle, names: seq<string>, ts: seq<Target>)
    requires Targets(lock, names) == Ok(ts) && Rewritten(lock, ask, after, names)
    ensures Resolutions(after, ask, ts).Ok? && Bumped(Resolutions(after, ask, ts).value) == []
  {
    TargetsFacts(lock, names);
    ResolutionsFacts(after, ask, ts);
    forall t | t in ts ensures Resolve(after, ask, t).Ok? && UpToDate(Resolve(after, ask, t).value) {
      SecondResolve(lock, after, ask, t);
    }
    var qs := Resolutions(after, ask, ts).value;
    forall i | 0 <= i < |qs| ensures UpToDate(qs[i]) {
      assert ts[i] in ts;
    }
    BumpedNothing(qs);
  }

  lemma SecondResolve(lock: Lock, after: Lock, ask: Oracle, t: Target)
    requires NamesNewest(lock, ask, after, t.input) && InputNode(lock, t.input) == Some(t.node)
    requires after.nodes.Keys == lock.nodes.Keys && SameButRevision(lock.nodes[t.node], after.nodes[t.node])
    ensures Resolve(after, ask, t).Ok? && UpToDate(Resolve(after, ask, t).value)
  {
    assert t == Target(t.input, t.node);
  }

  // ----- the run -----

  method MatchingInputs(p: string, declared: seq<string>) returns (names: seq<string>)
    ensures names == Matching(p, declared)
  {
    names := [];
    for i := 0 to |declared|
      invariant names == Matching(p, declared[..i])
    {
      assert declared[..i + 1][..i] == declared[..i];
      if Matches(p, declared[i]) { names := names + [declared[i]]; }
    }
    assert declared[..|declared|] == declared;
  }

  method ExpandTracked(declared: seq<string>, tracked: seq<string>) returns (names: seq<string>)
    ensures names == AllNames(declared, tracked)
  {
    names := [];
    for i := 0 to |tracked|
      invariant names == AllNames(declared, tracked[..i])
    {
      assert tracked[..i + 1][..i] == tracked[..i];
      if IsPattern(tracked[i]) {
        var matching := MatchingInputs(tracked[i], declared);
        names := names + matching;
      } else {
        names := names + [tracked[i]];
      }
    }
    assert tracked[..|tracked|] == tracked;
  }

  lemma {:induction false} TargetsFailEarly(lock: Lock, names: seq<string>, i: nat)
    requires i <= |names| && Targets(lock, names[..i]).Err?
    ensures Targets(lock, names) == Targets(lock, names[..i])
    decreases |names|
  {
    if i < |names| {
      assert names[..|names| - 1][..i] == names[..i];
      TargetsFailEarly(lock, names[..|names| - 1], i);
    } else {
      assert names[..i] == names;
    }
  }

  method CollectTargets(lock: Lock, names: seq<string>) returns (r: Checked<seq<Target>>)
    ensures r == Targets(lock, names)
  {
    var targets: seq<Target> := [];
    var seen: set<string> := {};
    for i := 0 to |names|
      invariant Targets(lock, names[..i]) == Ok(targets) && seen == Elements(names[..i])
    {
      var name := names[i];
      assert names[..i + 1] == names[..i] + [name] && names[..i + 1][..i] == names[..i];
      if name !in seen {
        var node := InputNode(lock, name);
        if node.None? {
          TargetsFailEarly(lock, names, i + 1);
          return Err(NotADirectInput(name));
        }
        targets := targets + [Target(name, node.value)];
      }
      seen := seen + {name};
    }
    assert names[..|names|] == names;
    r := Ok(targets);
  }

  lemma {:induction false} ResolutionsFailEarly(lock: Lock, ask: Oracle, ts: seq<Target>, i: nat)
    requires i <= |ts| && Resolutions(lock, ask, ts[..i]).Err?
    ensures Resolutions(lock, ask, ts) == Resolutions(lock, ask, ts[..i])
    decreases |ts|
  {
    if i < |ts| {
      assert ts[..|ts| - 1][..i] == ts[..i];
      ResolutionsFailEarly(lock, ask, ts[..|ts| - 1], i);
    } else {
      assert ts[..i] == ts;
    }
  }

  method ResolveAll(lock: Lock, ask: Oracle, ts: seq<Target>) returns (r: Checked<seq<Resolution>>)
    ensures r == Resolutions(lock, ask, ts)
  {
    var resolutions: seq<Resolution> := [];
    for i := 0 to |ts|
      invariant Resolutions(lock, ask, ts[..i]) == Ok(resolutions)
    {
      assert ts[..i + 1][..i] == ts[..i];
      var one := Resolve(lock, ask, ts[i]);
      if one.Err? {
        ResolutionsFailEarly(lock, ask, ts, i + 1);
        return Err(one.error);
      }
      resolutions := resolutions + [one.value];
    }
    assert ts[..|ts|] == ts;
    r := Ok(resolutions);
  }

  method RewriteNodes(nodes: map<string, Node>, rs: seq<Resolution>)
    returns (after: map<string, Node>, bumped: seq<BumpedInput>)
    requires forall i :: 0 <= i < |rs| ==> rs[i].node in nodes
    ensures after == BumpAll(nodes, rs) && bumped == Bumped(rs)
  {
    after, bumped := nodes, [];
    for i := 0 to |rs|
      invariant after == BumpAll(nodes, rs[..i]) && bumped == Bumped(rs[..i])
    {
      var r := rs[i];
      assert rs[..i + 1][..i] == rs[..i];
      if !UpToDate(r) {
        after := after[r.node := WithRevision(after[r.node], r)];
        bumped := bumped + [BumpedInput(r.input, r.oldRev, r.resolved.rev)];
      }
    }
    assert rs[..|rs|] == rs;
  }

  // ----- what a run means, in terms of the lock and the resolver -----

  /** Some tracked entry asks for the input: by name, or as a pattern over the declared ones. */
  ghost predicate Wanted(lock: Lock, tracked: seq<string>, name: string) {
    exists i :: 0 <= i < |tracked| && Asks(lock, tracked[i], name)
  }

  ghost predicate Asks(lock: Lock, entry: string, name: string) {
    if '*' in entry || '?' in entry || '[' in entry then name in RootInputs(lock) && Globs(entry, name)
    else name == entry
  }

  /** The input names a node of the lock, whose original block is the given reference, which
      resolves. */
  ghost predicate Answers(
      lock: Lock, resolver: Resolver, name: string, node: string, reference: LockedRef, resolved: Resolved)
  {
    && lock.root in lock.nodes && name in lock.nodes[lock.root].inputs
    && lock.nodes[lock.root].inputs[name] == Direct(node)
    && node in lock.nodes && lock.nodes[node].original.Some?
    && Describes(lock.nodes[node].original.value, reference) && resolver(reference) == Some(resolved)
  }

  ghost predicate Resolvable(lock: Lock, resolver: Resolver, name: string) {
    exists node, reference, resolved :: Answers(lock, resolver, name, node, reference, resolved)
  }

  /** The node is locked to another revision than the one resolved. */
  predicate Outdated(lock: Lock, node: string, resolved: Resolved)
    requires node in lock.nodes
  {
    LockedRev(lock.nodes[node]) != Some(resolved.rev)
  }

  lemma {:induction false} AllNamesIff(lock: Lock, declared: seq<string>, tracked: seq<string>, name: string)
    requires Declares(lock, declared)
    ensures name in AllNames(declared, tracked) <==> Wanted(lock, tracked, name)
    decreases |tracked|
  {
    if tracked != [] {
      var init, last := tracked[..|tracked| - 1], tracked[|tracked| - 1];
      AllNamesIff(lock, declared, init, name);
      MatchingIff(last, declared, name);
      assert name in declared <==> name in Elements(declared);
      assert forall i :: 0 <= i < |init| ==> tracked[i] == init[i];
      assert Wanted(lock, tracked, name) <==> Wanted(lock, init, name) || Asks(lock, last, name);
    }
  }

  lemma {:induction false} MatchingIff(p: string, declared: seq<string>, name: string)
    ensures name in Matching(p, declared) <==> name in declared && Globs(p, name)
    decreases |declared|
  {
    GlobIff(p, name);
    if declared != [] {
      MatchingIff(p, declared[..|declared| - 1], name);
      assert declared == declared[..|declared| - 1] + [declared[|declared| - 1]];
    }
  }

  /** Asking about a block is resolving the reference it describes. */
  lemma AskIff(resolver: Resolver, b: Block, reference: LockedRef, resolved: Resolved)
    ensures Ask(resolver)(b) == Newest(reference, resolved)
            <==> Describes(b, reference) && resolver(reference) == Some(resolved)
    ensures Ask(resolver)(b) == Unreadable <==> Lacking(b)
  {
    FromMapIff(b, reference);
    UnreadableIff(b);
  }

  lemma ResolveIff(
      lock: Lock, resolver: Resolver, name: string, node: string, reference: LockedRef, resolved: Resolved)
    requires InputNode(lock, name) == Some(node)
    ensures node in lock.nodes ==>
              (Resolve(lock, Ask(resolver), Target(name, node))
                 == Ok(Resolution(name, node, LockedRev(lock.nodes[node]), reference, resolved))
               <==> Answers(lock, resolver, name, node, reference, resolved))
    ensures Answers(lock, resolver, name, node, reference, resolved) ==> node in lock.nodes
  {
    if node in lock.nodes && lock.nodes[node].original.Some? {
      AskIff(resolver, lock.nodes[node].original.value, reference, resolved);
    }
  }

  lemma BumpableIff(lock: Lock, resolver: Resolver, name: string)
    ensures Bumpable(lock, Ask(resolver), name) <==> Resolvable(lock, resolver, name)
  {
    if Bumpable(lock, Ask(resolver), name) {
      var node := InputNode(lock, name).value;
      var r := Resolve(lock, Ask(resolver), Target(name, node)).value;
      ResolveIff(lock, resolver, name, node, r.reference, r.resolved);
      assert Answers(lock, resolver, name, node, r.reference, r.resolved);
    }
    if node, reference, resolved :| Answers(lock, resolver, name, node, reference, resolved) {
      ResolveIff(lock, resolver, name, node, reference, resolved);
    }
  }

  /** A run succeeds exactly when every wanted input can be resolved. */
  lemma SucceedsMeans(lock: Lock, declared: seq<string>, tracked: seq<string>, resolver: Resolver)
    requires Declares(lock, declared)
    ensures Produce(lock, declared, tracked, Ask(resolver)).Ok? <==>
            lock.version == 7 && forall name :: Wanted(lock, tracked, name) ==> Resolvable(lock, resolver, name)
  {
    SucceedsIff(lock, declared, tracked, Ask(resolver));
    forall name
      ensures name in AllNames(declared, tracked) <==> Wanted(lock, tracked, name)
      ensures Bumpable(lock, Ask(resolver), name) <==> Resolvable(lock, resolver, name)
    {
      AllNamesIff(lock, declared, tracked, name);
      BumpableIff(lock, resolver, name);
    }
  }

  /** What the written lock holds for one wanted input: an outdated node gets the four keys of the
      resolved revision and nothing else, a current one is as it was. */
  ghost predicate Locked(
      lock: Lock, after: Lock, node: string, reference: LockedRef, resolved: Resolved)
  {
    && node in lock.nodes && node in after.nodes
    && (if Outdated(lock, node, resolved)
        then after.nodes[node].locked.Some?
             && HoldsRevision(after.nodes[node].locked.value, reference, resolved)
             && SameButRevision(lock.nodes[node], after.nodes[node])
        else after.nodes[node] == lock.nodes[node])
  }

  /** A run's patch, for every wanted input and every node. */
  ghost predicate PatchMeans(lock: Lock, tracked: seq<string>, resolver: Resolver, patch: Patch) {
    && patch.lock == lock.(nodes := patch.lock.nodes) && patch.lock.nodes.Keys == lock.nodes.Keys
    && (forall name, node, reference, resolved ::
          Wanted(lock, tracked, name) && Answers(lock, resolver, name, node, reference, resolved) ==>
            Locked(lock, patch.lock, node, reference, resolved))
    && (forall n :: n in lock.nodes && patch.lock.nodes[n] != lock.nodes[n] ==> BumpedNode(lock, tracked, resolver, n))
    && (forall b :: b in patch.bumped <==> BumpedFor(lock, tracked, resolver, b))
    && NamesOnce(patch.bumped)
  }

  /** Some wanted input stands behind the change of a node. */
  ghost predicate BumpedNode(lock: Lock, tracked: seq<string>, resolver: Resolver, n: string) {
    exists name, reference, resolved ::
      && Wanted(lock, tracked, name) && Answers(lock, resolver, name, n, reference, resolved)
      && Outdated(lock, n, resolved)
  }

  /** The entry reports a wanted, outdated input with its old and new revision. */
  ghost predicate BumpedFor(lock: Lock, tracked: seq<string>, resolver: Resolver, b: BumpedInput) {
    Wanted(lock, tracked, b.name)
    && exists node, reference, resolved ::
         Answers(lock, resolver, b.name, node, reference, resolved) && Outdated(lock, node, resolved)
         && b.oldRev == LockedRev(lock.nodes[node]) && b.newRev == resolved.rev
  }

  lemma {:induction false} TargetsDistinct(lock: Lock, names: seq<string>)
    requires Targets(lock, names).Ok?
    ensures var ts := Targets(lock, names).value;
            forall i, j :: 0 <= i < j < |ts| ==> ts[i].input != ts[j].input
    decreases |names|
  {
    if names != [] {
      TargetsDistinct(lock, names[..|names| - 1]);
      TargetsFacts(lock, names[..|names| - 1]);
    }
  }

  lemma {:induction false} BumpedIff(rs: seq<Resolution>, b: BumpedInput)
    ensures b in Bumped(rs) <==>
            exists i :: 0 <= i < |rs| && !UpToDate(rs[i])
                        && b == BumpedInput(rs[i].input, rs[i].oldRev, rs[i].resolved.rev)
    decreases |rs|
  {
    if rs != [] {
      var init := rs[..|rs| - 1];
      BumpedIff(init, b);
      assert forall i :: 0 <= i < |init| ==> init[i] == rs[i];
    }
  }

  ghost predicate NamesOnce(bs: seq<BumpedInput>) { forall i, j :: 0 <= i < j < |bs| ==> bs[i].name != bs[j].name }

  lemma {:induction false} BumpedDistinct(rs: seq<Resolution>)
    requires forall i, j :: 0 <= i < j < |rs| ==> rs[i].input != rs[j].input
    ensures NamesOnce(Bumped(rs))
    decreases |rs|
  {
    if rs != [] {
      var init, last := rs[..|rs| - 1], rs[|rs| - 1];
      assert forall i :: 0 <= i < |init| ==> init[i] == rs[i];
      BumpedDistinct(init);
      var bs := Bumped(init);
      forall k | 0 <= k < |bs| ensures bs[k].name != last.input {
        assert bs[k] in bs;
        BumpedIff(init, bs[k]);
      }
      var all := Bumped(rs);
      forall i, j | 0 <= i < j < |all| ensures all[i].name != all[j].name {
        assert all[i] == bs[i];
        if j < |bs| { assert all[j] == bs[j]; } else { assert all[j].name == last.input; }
      }
    }
  }

  /** The steps of a run that resolved everything. */
  ghost predicate AllResolved(
      lock: Lock, resolver: Resolver, names: seq<string>, ts: seq<Target>, rs: seq<Resolution>)
  {
    && Targets(lock, names) == Ok(ts) && Resolutions(lock, Ask(resolver), ts) == Ok(rs)
  }

  /** The resolution of a wanted input is the resolver's answer for it. */
  lemma ResolutionOf(
      lock: Lock, resolver: Resolver, names: seq<string>, ts: seq<Target>, rs: seq<Resolution>, i: nat)
    requires AllResolved(lock, resolver, names, ts, rs) && i < |rs|
    ensures |rs| == |ts| && rs[i].input == ts[i].input && rs[i].input in names
    ensures rs[i].node in lock.nodes && rs[i].oldRev == LockedRev(lock.nodes[rs[i].node])
    ensures Answers(lock, resolver, rs[i].input, rs[i].node, rs[i].reference, rs[i].resolved)
  {
    TargetsFacts(lock, names);
    ResolutionsFacts(lock, Ask(resolver), ts);
    assert ts[i] in ts && ts[i] == Target(ts[i].input, ts[i].node);
    ResolveIff(lock, resolver, ts[i].input, ts[i].node, rs[i].reference, rs[i].resolved);
  }

  lemma AnswersOnce(
      lock: Lock, resolver: Resolver, name: string, node: string, reference: LockedRef, resolved: Resolved,
      r: Resolution)
    requires Answers(lock, resolver, name, node, reference, resolved)
    requires Answers(lock, resolver, name, r.node, r.reference, r.resolved)
    ensures node == r.node && reference == r.reference && resolved == r.resolved
  {
    FromMapIff(lock.nodes[node].original.value, reference);
    FromMapIff(lock.nodes[node].original.value, r.reference);
  }

  lemma ResolutionFor(
      lock: Lock, resolver: Resolver, names: seq<string>, ts: seq<Target>, rs: seq<Resolution>, name: string)
      returns (i: nat)
    requires AllResolved(lock, resolver, names, ts, rs) && name in names
    ensures i < |rs| && rs[i].input == name
  {
    TargetsFacts(lock, names);
    ResolutionsFacts(lock, Ask(resolver), ts);
    var t :| t in ts && t.input == name;
    i :| 0 <= i < |ts| && ts[i] == t;
    ResolutionOf(lock, resolver, names, ts, rs, i);
  }

  lemma LockedBy(
      lock: Lock, resolver: Resolver, names: seq<string>, ts: seq<Target>, rs: seq<Resolution>, after: Lock, i: nat)
    requires AllResolved(lock, resolver, names, ts, rs) && i < |rs|
    requires after.nodes == BumpAll(lock.nodes, rs)
    ensures Locked(lock, after, rs[i].node, rs[i].reference, rs[i].resolved)
  {
    ResolutionOf(lock, resolver, names, ts, rs, i);
    ResolutionsAgree(lock, Ask(resolver), ts);
    if UpToDate(rs[i]) {
      BumpAllMiss(lock.nodes, rs, rs[i].node);
    } else {
      BumpAllHit(lock.nodes, rs, i);
      BlockFacts(lock.nodes[rs[i].node].locked, rs[i]);
    }
  }

  lemma PatchIsMeant(
      lock: Lock, tracked: seq<string>, resolver: Resolver, names: seq<string>, ts: seq<Target>,
      rs: seq<Resolution>, patch: Patch)
    requires forall name :: name in names <==> Wanted(lock, tracked, name)
    requires AllResolved(lock, resolver, names, ts, rs)
    requires patch == Patch(lock.(nodes := BumpAll(lock.nodes, rs)), Bumped(rs))
    ensures PatchMeans(lock, tracked, resolver, patch)
  {
    forall name, node, reference, resolved
      | Wanted(lock, tracked, name) && Answers(lock, resolver, name, node, reference, resolved)
      ensures Locked(lock, patch.lock, node, reference, resolved)
    {
      var i := ResolutionFor(lock, resolver, names, ts, rs, name);
      ResolutionOf(lock, resolver, names, ts, rs, i);
      AnswersOnce(lock, resolver, name, node, reference, resolved, rs[i]);
      LockedBy(lock, resolver, names, ts, rs, patch.lock, i);
    }
    forall n | n in lock.nodes && patch.lock.nodes[n] != lock.nodes[n] ensures BumpedNode(lock, tracked, resolver, n) {
      ChangedNode(lock, tracked, resolver, names, ts, rs, n);
    }
    forall b ensures b in patch.bumped <==> BumpedFor(lock, tracked, resolver, b) {
      BumpedForIff(lock, tracked, resolver, names, ts, rs, b);
    }
    DistinctInputs(lock, resolver, names, ts, rs);
    BumpedDistinct(rs);
  }

  lemma DistinctInputs(lock: Lock, resolver: Resolver, names: seq<string>, ts: seq<Target>, rs: seq<Resolution>)
    requires AllResolved(lock, resolver, names, ts, rs)
    ensures forall i, j :: 0 <= i < j < |rs| ==> rs[i].input != rs[j].input
  {
    TargetsDistinct(lock, names);
    forall i | 0 <= i < |rs| ensures |rs| == |ts| && rs[i].input == ts[i].input {
      ResolutionOf(lock, resolver, names, ts, rs, i);
    }
  }

  lemma ChangedNode(
      lock: Lock, tracked: seq<string>, resolver: Resolver, names: seq<string>, ts: seq<Target>,
      rs: seq<Resolution>, n: string)
    requires forall name :: name in names <==> Wanted(lock, tracked, name)
    requires AllResolved(lock, resolver, names, ts, rs) && n in lock.nodes
    requires forall i :: 0 <= i < |rs| ==> rs[i].node in lock.nodes
    requires BumpAll(lock.nodes, rs)[n] != lock.nodes[n]
    ensures BumpedNode(lock, tracked, resolver, n)
  {
    if i :| 0 <= i < |rs| && rs[i].node == n && !UpToDate(rs[i]) {
      ResolutionOf(lock, resolver, names, ts, rs, i);
      assert Outdated(lock, n, rs[i].resolved);
    } else {
      BumpAllMiss(lock.nodes, rs, n);
    }
  }

  lemma BumpedForIff(
      lock: Lock, tracked: seq<string>, resolver: Resolver, names: seq<string>, ts: seq<Target>,
      rs: seq<Resolution>, b: BumpedInput)
    requires forall name :: name in names <==> Wanted(lock, tracked, name)
    requires AllResolved(lock, resolver, names, ts, rs)
    ensures b in Bumped(rs) <==> BumpedFor(lock, tracked, resolver, b)
  {
    BumpedIff(rs, b);
    if b in Bumped(rs) {
      var i :| 0 <= i < |rs| && !UpToDate(rs[i]) && b == BumpedInput(rs[i].input, rs[i].oldRev, rs[i].resolved.rev);
      ResolutionOf(lock, resolver, names, ts, rs, i);
      assert Outdated(lock, rs[i].node, rs[i].resolved);
    }
    if BumpedFor(lock, tracked, resolver, b) {
      var node, reference, resolved :|
        Answers(lock, resolver, b.name, node, reference, resolved) && Outdated(lock, node, resolved)
        && b.oldRev == LockedRev(lock.nodes[node]) && b.newRev == resolved.rev;
      var i := ResolutionFor(lock, resolver, names, ts, rs, b.name);
      ResolutionOf(lock, resolver, names, ts, rs, i);
      AnswersOnce(lock, resolver, b.name, node, reference, resolved, rs[i]);
    }
  }

  /** Every wanted input is locked to what it resolves to. */
  ghost predicate AllCurrent(lock: Lock, tracked: seq<string>, resolver: Resolver) {
    forall name, node, reference, resolved ::
      Wanted(lock, tracked, name) && Answers(lock, resolver, name, node, reference, resolved) ==>
        !Outdated(lock, node, resolved)
  }

  /** The outcome of a run over a lock whose declared inputs are known. */
  ghost predicate RunMeans(lock: Lock, tracked: seq<string>, resolver: Resolver, r: Checked<Option<Patch>>) {
    && (r.Ok? <==> lock.version == 7 && forall name :: Wanted(lock, tracked, name) ==> Resolvable(lock, resolver, name))
    && (r.Ok? ==> (r.value.None? <==> AllCurrent(lock, tracked, resolver)))
    && (r.Ok? && r.value.Some? ==> PatchMeans(lock, tracked, resolver, r.value.value))
  }

  lemma ProduceMeans(lock: Lock, declared: seq<string>, tracked: seq<string>, resolver: Resolver)
    requires Declares(lock, declared)
    ensures RunMeans(lock, tracked, resolver, Produce(lock, declared, tracked, Ask(resolver)))
  {
    var r, names := Produce(lock, declared, tracked, Ask(resolver)), AllNames(declared, tracked);
    SucceedsMeans(lock, declared, tracked, resolver);
    if r.Ok? {
      forall name ensures name in names <==> Wanted(lock, tracked, name) { AllNamesIff(lock, declared, tracked, name); }
      var ts := Targets(lock, names).value;
      var rs := Resolutions(lock, Ask(resolver), ts).value;
      CurrentIff(lock, tracked, resolver, names, ts, rs);
      if r.value.Some? { PatchIsMeant(lock, tracked, resolver, names, ts, rs, r.value.value); }
    }
  }

  lemma CurrentIff(
      lock: Lock, tracked: seq<string>, resolver: Resolver, names: seq<string>, ts: seq<Target>, rs: seq<Resolution>)
    requires forall name :: name in names <==> Wanted(lock, tracked, name)
    requires AllResolved(lock, resolver, names, ts, rs)
    ensures Bumped(rs) == [] <==> AllCurrent(lock, tracked, resolver)
  {
    if Bumped(rs) != [] {
      var b := Bumped(rs)[0];
      assert b in Bumped(rs);
      BumpedForIff(lock, tracked, resolver, names, ts, rs, b);
    } else {
      forall name, node, reference, resolved
        | Wanted(lock, tracked, name) && Answers(lock, resolver, name, node, reference, resolved)
        ensures !Outdated(lock, node, resolved)
      {
        BumpedForIff(lock, tracked, resolver, names, ts, rs,
                     BumpedInput(name, LockedRev(lock.nodes[node]), resolved.rev));
      }
    }
  }

  // ----- what a failed run says -----

  /** The error of an input that names no node, whose node is missing or has no readable original,
      or that does not resolve. */
  ghost predicate FailsWith(lock: Lock, resolver: Resolver, name: string, e: Error) {
    match e
    case UnsupportedVersion => false
    case NotADirectInput(input) => input == name && InputNode(lock, name).None?
    case MissingNode(node) => InputNode(lock, name) == Some(node) && node !in lock.nodes
    case NoOriginal(input) => input == name && OriginalOf(lock, name, None)
    case BadReference(input) => input == name && exists b :: OriginalOf(lock, name, Some(b)) && Lacking(b)
    case ResolverFailed(input) =>
      input == name && exists b, reference ::
        OriginalOf(lock, name, Some(b)) && Describes(b, reference) && resolver(reference) == None
  }

  ghost predicate OriginalOf(lock: Lock, name: string, b: Option<Block>) {
    InputNode(lock, name).Some? && InputNode(lock, name).value in lock.nodes
    && lock.nodes[InputNode(lock, name).value].original == b
  }

  lemma {:induction false} TargetsError(lock: Lock, names: seq<string>)
    requires Targets(lock, names).Err?
    ensures exists name :: name in names && InputNode(lock, name).None?
                           && Targets(lock, names).error == NotADirectInput(name)
    decreases |names|
  {
    var init := names[..|names| - 1];
    if Targets(lock, init).Err? {
      TargetsError(lock, init);
      var name :| name in init && InputNode(lock, name).None? && Targets(lock, init).error == NotADirectInput(name);
      assert name in names;
    } else {
      assert names[|names| - 1] in names;
    }
  }

  lemma {:induction false} ResolutionsError(lock: Lock, ask: Oracle, ts: seq<Target>)
    requires Resolutions(lock, ask, ts).Err?
    ensures exists t :: t in ts && Resolve(lock, ask, t) == Err(Resolutions(lock, ask, ts).error)
    decreases |ts|
  {
    var init := ts[..|ts| - 1];
    if Resolutions(lock, ask, init).Err? {
      ResolutionsError(lock, ask, init);
      var t :| t in init && Resolve(lock, ask, t) == Err(Resolutions(lock, ask, init).error);
      assert t in ts;
    } else {
      assert ts[|ts| - 1] in ts;
    }
  }

  lemma ResolveError(lock: Lock, resolver: Resolver, name: string, node: string)
    requires InputNode(lock, name) == Some(node) && Resolve(lock, Ask(resolver), Target(name, node)).Err?
    ensures FailsWith(lock, resolver, name, Resolve(lock, Ask(resolver), Target(name, node)).error)
  {
    if node in lock.nodes && lock.nodes[node].original.Some? {
      var b := lock.nodes[node].original.value;
      assert OriginalOf(lock, name, Some(b));
      UnreadableIff(b);
      if FromMap(b).Some? { FromMapIff(b, FromMap(b).value); }
    }
  }

  /** A failed run names the version, or a wanted input with what is wrong with it. */
  lemma ProduceError(lock: Lock, declared: seq<string>, tracked: seq<string>, resolver: Resolver)
    requires Declares(lock, declared) && Produce(lock, declared, tracked, Ask(resolver)).Err?
    ensures var e := Produce(lock, declared, tracked, Ask(resolver)).error;
            if lock.version != 7 then e == UnsupportedVersion
            else exists name :: Wanted(lock, tracked, name) && FailsWith(lock, resolver, name, e)
  {
    var names := AllNames(declared, tracked);
    if lock.version == 7 {
      if Targets(lock, names).Err? {
        TargetsError(lock, names);
        var name :| name in names && InputNode(lock, name).None?
                    && Targets(lock, names).error == NotADirectInput(name);
        AllNamesIff(lock, declared, tracked, name);
        assert FailsWith(lock, resolver, name, Targets(lock, names).error);
      } else {
        var ts := Targets(lock, names).value;
        TargetsFacts(lock, names);
        ResolutionsError(lock, Ask(resolver), ts);
        var t :| t in ts && Resolve(lock, Ask(resolver), t) == Err(Resolutions(lock, Ask(resolver), ts).error);
        AllNamesIff(lock, declared, tracked, t.input);
        assert t == Target(t.input, t.node);
        ResolveError(lock, resolver, t.input, t.node);
      }
    }
  }

  /** The whole run over a parsed lock, with the declared inputs it expanded patterns over. */
  method RunProduce(lock: Lock, tracked: seq<string>, resolver: Resolver)
    returns (r: Checked<Option<Patch>>, declared: seq<string>)
    ensures Declares(lock, declared)
    ensures RunMeans(lock, tracked, resolver, r)
    ensures r.Err? && lock.version != 7 ==> r.error == UnsupportedVersion
    ensures r.Err? && lock.version == 7 ==>
              exists name :: Wanted(lock, tracked, name) && FailsWith(lock, resolver, name, r.error)
    ensures r == Produce(lock, declared, tracked, Ask(resolver))
  {
    var listed := Listing(RootInputs(lock).Keys);
    var names := SortDedup(listed);
    SortDedupFacts(listed);
    declared := names;
    ProduceMeans(lock, declared, tracked, resolver);
    if Produce(lock, declared, tracked, Ask(resolver)).Err? { ProduceError(lock, declared, tracked, resolver); }
    if lock.version != 7 { return Err(UnsupportedVersion), declared; }
    var wanted := ExpandTracked(names, tracked);
    var targets := CollectTargets(lock, wanted);
    if targets.Err? { return Err(targets.error), declared; }
    var resolutions := ResolveAll(lock, Ask(resolver), targets.value);
    if resolutions.Err? { return Err(resolutions.error), declared; }
    var nodes, bumped := RewriteNodes(lock.nodes, resolutions.value);
    if bumped == [] { return Ok(None), declared; }
    r := Ok(Some(Patch(lock.(nodes := nodes), bumped)));
  }
}
