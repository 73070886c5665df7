/** What a wildcard pattern stands for, said of paths in the attribute tree rather than of the walk
    that looks for them. */
module WildcardMatch {
  import opened Wrappers
  import opened PatternText
  import opened WildcardWalk

  // ----- the tree along a path -----

  function Names<N>(t: Tree<N>, n: N): seq<string> { Value(t.childNames(n), []) }

  function Child<N>(t: Tree<N>, n: N, name: string): Option<N> { Value(t.child(n, name), None) }

  /** The node a path leads to. */
  function At<N>(t: Tree<N>, root: N, path: Segs): Option<N>
    decreases |path|
  {
    if path == [] then Some(root)
    else if Child(t, root, path[0]).None? then None
    else At(t, Child(t, root, path[0]).value, path[1..])
  }

  predicate DrvAt<N>(t: Tree<N>, root: N, path: Segs) {
    At(t, root, path).Some? && Value(t.isDerivation(At(t, root, path).value), false)
  }

  predicate OpaqueAt<N>(t: Tree<N>, root: N, path: Segs) {
    At(t, root, path).Some? && Value(t.isOpaque(At(t, root, path).value), false)
  }

  /** `name` is among the attributes of the set at `path`. */
  predicate ListedAt<N>(t: Tree<N>, root: N, path: Segs, name: string) {
    At(t, root, path).Some? && name in Names(t, At(t, root, path).value)
  }

  // ----- what a pattern finds -----

  predicate EndsInStar(segs: Segs) { segs != [] && segs[|segs| - 1] == "*" }

  /** A pattern finds a path to a derivation whose names its segments admit one by one: a name
      itself, `#` any attribute, `*` any attribute that is not opaque or is the derivation. Where
      a trailing `*` meets a set that is no derivation, one more level is looked at. */
  ghost predicate Found<N>(t: Tree<N>, root: N, segs: Segs, path: Segs) {
    && DrvAt(t, root, path)
    && (|| |path| == |segs|
        || (|path| == |segs| + 1 && EndsInStar(segs) && !DrvAt(t, root, path[..|segs|])))
    && forall i :: 0 <= i < |path| ==> Admits(t, root, segs, path, i)
  }

  ghost predicate Admits<N>(t: Tree<N>, root: N, segs: Segs, path: Segs, i: nat)
    requires i < |path|
  {
    if i < |segs| && !Wild(segs[i]) then path[i] == segs[i]
    else
      && ListedAt(t, root, path[..i], path[i])
      && (i < |segs| && segs[i] == "*" && i + 1 < |path| ==> !OpaqueAt(t, root, path[..i + 1]))
  }

  // ----- one step down -----

  lemma AtStep<N>(t: Tree<N>, root: N, path: Segs, c: N, i: nat)
    requires path != [] && Child(t, root, path[0]) == Some(c) && 0 < i <= |path|
    ensures At(t, root, path[..i]) == At(t, c, path[1..][..i - 1])
  {
    assert path[..i][1..] == path[1..][..i - 1];
  }

  /** The segments after the first admit the names after the first, seen from the child. */
  lemma AdmitsStep<N>(t: Tree<N>, root: N, segs: Segs, path: Segs, c: N, i: nat)
    requires path != [] && segs != [] && Child(t, root, path[0]) == Some(c) && 0 < i < |path|
    ensures Admits(t, root, segs, path, i) <==> Admits(t, c, segs[1..], path[1..], i - 1)
  {
    AtStep(t, root, path, c, i);
    AtStep(t, root, path, c, i + 1);
  }

  lemma AllAdmitsStep<N>(t: Tree<N>, root: N, segs: Segs, path: Segs, c: N)
    requires path != [] && segs != [] && Child(t, root, path[0]) == Some(c)
    ensures (forall i :: 0 <= i < |path| ==> Admits(t, root, segs, path, i))
            <==> Admits(t, root, segs, path, 0)
                 && forall i :: 0 <= i < |path[1..]| ==> Admits(t, c, segs[1..], path[1..], i)
  {
    forall i | 0 < i < |path|
      ensures Admits(t, root, segs, path, i) <==> Admits(t, c, segs[1..], path[1..], i - 1)
    {
      AdmitsStep(t, root, segs, path, c, i);
    }
    if forall i :: 0 <= i < |path| ==> Admits(t, root, segs, path, i) {
      forall i | 0 <= i < |path[1..]| ensures Admits(t, c, segs[1..], path[1..], i) {
        assert Admits(t, root, segs, path, i + 1);
      }
    }
    if Admits(t, root, segs, path, 0) && forall i :: 0 <= i < |path[1..]| ==> Admits(t, c, segs[1..], path[1..], i) {
      forall i | 0 <= i < |path| ensures Admits(t, root, segs, path, i) {
        if i > 0 { assert Admits(t, c, segs[1..], path[1..], i - 1); }
      }
    }
  }

  /** Finding a path, one segment at a time; a single `*` is the one case that looks further. */
  lemma FoundStep<N>(t: Tree<N>, root: N, segs: Segs, path: Segs)
    requires segs != [] && segs != ["*"]
    ensures Found(t, root, segs, path) <==>
            && path != [] && Child(t, root, path[0]).Some? && Admits(t, root, segs, path, 0)
            && Found(t, Child(t, root, path[0]).value, segs[1..], path[1..])
  {
    if path != [] && Child(t, root, path[0]).Some? {
      var c := Child(t, root, path[0]).value;
      AtStep(t, root, path, c, |path|);
      assert path[..|path|] == path && path[1..][..|path| - 1] == path[1..];
      AllAdmitsStep(t, root, segs, path, c);
      if |path| == |segs| + 1 { AtStep(t, root, path, c, |segs|); }
    } else if path == [] {
      assert !Found(t, root, segs, path);
    }
  }

  lemma FoundStar<N>(t: Tree<N>, root: N, path: Segs)
    ensures Found(t, root, ["*"], path) <==>
            path != [] && Child(t, root, path[0]).Some? && path[0] in Names(t, root)
            && StarTail(t, Child(t, root, path[0]).value, path[1..])
  {
    var segs := ["*"];
    if path != [] && Child(t, root, path[0]).Some? {
      var c := Child(t, root, path[0]).value;
      AtStep(t, root, path, c, |path|);
      assert path[..|path|] == path && path[1..][..|path| - 1] == path[1..] && path[..0] == [];
      AtStep(t, root, path, c, 1);
      AllAdmitsStep(t, root, segs, path, c);
      if |path| == 2 {
        assert path[1..][..0] == [];
        assert Admits(t, c, segs[1..], path[1..], 0) <==> path[1] in Names(t, c);
      }
    } else if path == [] {
      assert !Found(t, root, segs, path);
    }
  }

  /** Below a child that a trailing `*` admits: the child itself, or one level further. */
  predicate StarTail<N>(t: Tree<N>, c: N, q: Segs) {
    || (q == [] && Value(t.isDerivation(c), false))
    || (|q| == 1 && q[0] in Names(t, c) && DrvAt(t, c, q)
        && !Value(t.isDerivation(c), false) && !Value(t.isOpaque(c), false))
  }

  // ----- the walk finds what the pattern stands for -----

  /** `p` continues `path` by a suffix the pattern finds below `node`. */
  ghost predicate FoundFrom<N>(t: Tree<N>, node: N, path: Segs, segs: Segs, p: Segs) {
    path <= p && Found(t, node, segs, p[|path|..])
  }

  /** What a child contributes, said of the names below it. */
  ghost predicate BelowChild<N>(t: Tree<N>, c: N, segs: Segs, q: Segs)
    requires segs != []
  {
    if segs == ["*"] then StarTail(t, c, q)
    else (segs[0] == "*" ==> !Value(t.isOpaque(c), false)) && Found(t, c, segs[1..], q)
  }

  lemma {:induction false} TraverseFinds<N>(t: Tree<N>, node: N, path: Segs, segs: Segs, p: Segs)
    ensures p in Traverse(t, Derivations, node, path, segs).out <==> FoundFrom(t, node, path, segs, p)
    decreases |segs|, 1, 0
  {
    if segs == [] {
      if path <= p && p[|path|..] == [] { assert p == path; }
    } else if Wild(segs[0]) {
      ChildrenFind(t, node, path, segs, Names(t, node), p);
      if path < p { WildStep(t, node, segs, p[|path|..]); }
      if path <= p && !(path < p) { assert p == path && p[|path|..] == []; }
    } else {
      LiteralFinds(t, node, path, segs, p);
    }
  }

  lemma WildStep<N>(t: Tree<N>, node: N, segs: Segs, q: Segs)
    requires segs != [] && Wild(segs[0]) && q != []
    ensures Found(t, node, segs, q) <==>
            q[0] in Names(t, node) && Child(t, node, q[0]).Some?
            && BelowChild(t, Child(t, node, q[0]).value, segs, q[1..])
  {
    if segs == ["*"] {
      FoundStar(t, node, q);
    } else {
      FoundStep(t, node, segs, q);
      assert q[..0] == [];
      if Child(t, node, q[0]).Some? {
        AtStep(t, node, q, Child(t, node, q[0]).value, 1);
        assert q[1..][..0] == [];
        if |q| == 1 && segs[0] == "*" { assert segs[1..] != []; }
      }
    }
  }

  lemma LiteralFinds<N>(t: Tree<N>, node: N, path: Segs, segs: Segs, p: Segs)
    requires segs != [] && !Wild(segs[0])
    ensures p in Traverse(t, Derivations, node, path, segs).out <==> FoundFrom(t, node, path, segs, p)
    decreases |segs|, 0, 0
  {
    var q := path + [segs[0]];
    if Child(t, node, segs[0]).Some? {
      TraverseFinds(t, Child(t, node, segs[0]).value, q, segs[1..], p);
    }
    if path <= p {
      FoundStep(t, node, segs, p[|path|..]);
      if path < p && p[|path|] == segs[0] {
        assert q <= p && p[|path|..][1..] == p[|q|..];
      }
    }
  }

  lemma {:induction false} ChildrenFind<N>(t: Tree<N>, node: N, path: Segs, segs: Segs, names: seq<string>, p: Segs)
    requires segs != [] && Wild(segs[0])
    ensures p in Children(t, Derivations, node, path, segs, names).out <==>
            path < p && p[|path|] in names && Child(t, node, p[|path|]).Some?
            && BelowChild(t, Child(t, node, p[|path|]).value, segs, p[|path|..][1..])
    decreases |segs|, 0, |names|
  {
    if names != [] {
      var q := path + [names[0]];
      ChildrenFind(t, node, path, segs, names[1..], p);
      assert forall s :: s in names <==> s == names[0] || s in names[1..];
      if Child(t, node, names[0]).Some? {
        ChildFinds(t, Child(t, node, names[0]).value, q, segs, p);
      }
      if path < p && p[|path|] == names[0] { assert q <= p && p[|path|..][1..] == p[|q|..]; }
    }
  }

  lemma ChildFinds<N>(t: Tree<N>, c: N, q: Segs, segs: Segs, p: Segs)
    requires segs != [] && Wild(segs[0])
    ensures p in OneChild(t, Derivations, Ok(Some(c)), q, segs).out <==>
            q <= p && BelowChild(t, c, segs, p[|q|..])
    decreases |segs|, 0, 0
  {
    var rest, found := segs[1..], OneChild(t, Derivations, Ok(Some(c)), q, segs);
    assert rest == [] ==> segs == [segs[0]];
    if segs == ["*"] {
      StarEndFinds(t, c, q, p);
    } else {
      TraverseFinds(t, c, q, rest, p);
      if segs[0] == "*" {
        assert found == StarChild(t, Derivations, c, q, rest) && rest != [];
        if !Value(t.isOpaque(c), false) {
          assert found.out == Descend(t, Derivations, c, q, rest).out;
        }
      } else {
        assert found == HashChild(t, Derivations, c, q, rest);
      }
    }
  }

  lemma StarEndFinds<N>(t: Tree<N>, c: N, q: Segs, p: Segs)
    ensures p in StarChild(t, Derivations, c, q, []).out <==> q <= p && StarTail(t, c, p[|q|..])
  {
    if q <= p && p[|q|..] == [] { assert p == q; }
    RecoverIsHash(t, c, q, Names(t, c));
    GrandchildrenFind(t, c, q, Names(t, c), p);
  }

  lemma {:induction false} GrandchildrenFind<N>(t: Tree<N>, c: N, q: Segs, names: seq<string>, p: Segs)
    ensures p in Grandchildren(t, c, q, names).out <==>
            q < p && |p| == |q| + 1 && p[|q|] in names && DrvAt(t, c, p[|q|..])
    decreases |names|
  {
    if names != [] {
      GrandchildrenFind(t, c, q, names[1..], p);
      assert forall s :: s in names <==> s == names[0] || s in names[1..];
      if q < p && |p| == |q| + 1 && p[|q|] == names[0] { assert p == q + [names[0]]; }
      if p == q + [names[0]] {
        assert p[|q|..] == [names[0]] && [names[0]][1..] == [];
        assert At(t, c, [names[0]]) == Child(t, c, names[0]);
      }
    }
  }

  // ----- what a pattern reports -----

  /** The operations on the tree that can fail. */
  datatype Op = ListNames | LookUp | AskDerivation | AskOpaque

  /** How an operation at a path fails, if it does. */
  function ErrorAt<N>(t: Tree<N>, root: N, path: Segs, op: Op): Option<string> {
    match op
    case ListNames => if At(t, root, path).Some? then Error(t.childNames(At(t, root, path).value)) else None
    case AskDerivation => if At(t, root, path).Some? then Error(t.isDerivation(At(t, root, path).value)) else None
    case AskOpaque => if At(t, root, path).Some? then Error(t.isOpaque(At(t, root, path).value)) else None
    case LookUp =>
      if path == [] || At(t, root, path[..|path| - 1]).None? then None
      else Error(t.child(At(t, root, path[..|path| - 1]).value, path[|path| - 1]))
  }

  function Error<T>(r: Fallible<T>): Option<string> { if r.Ok? then None else Some(r.error) }

  /** The pattern leads into the set at `path`: its segments admit the names, no `*` stops at an
      opaque set, and a trailing one does not stop at a derivation. */
  ghost predicate Entered<N>(t: Tree<N>, root: N, segs: Segs, path: Segs) {
    && |path| <= |segs| && At(t, root, path).Some?
    && (|path| == |segs| && EndsInStar(segs) ==> !DrvAt(t, root, path))
    && forall i :: 0 <= i < |path| ==> Enters(t, root, segs, path, i)
  }

  ghost predicate Enters<N>(t: Tree<N>, root: N, segs: Segs, path: Segs, i: nat)
    requires i < |path| <= |segs|
  {
    if !Wild(segs[i]) then path[i] == segs[i]
    else ListedAt(t, root, path[..i], path[i]) && (segs[i] == "*" ==> !OpaqueAt(t, root, path[..i + 1]))
  }

  /** The attribute at `path` is looked up: it is named by its segment or listed for a wildcard, or
      it is one level below a trailing `*`. */
  ghost predicate LookedUp<N>(t: Tree<N>, root: N, segs: Segs, path: Segs) {
    path != [] && Entered(t, root, segs, path[..|path| - 1])
    && var k := |path| - 1;
       if k < |segs| && !Wild(segs[k]) then path[k] == segs[k]
       else (k < |segs| || EndsInStar(segs)) && ListedAt(t, root, path[..k], path[k])
  }

  /** The operations a pattern asks for, and so the failures it reports. */
  ghost predicate Probed<N>(t: Tree<N>, root: N, segs: Segs, path: Segs, op: Op) {
    match op
    case ListNames =>
      Entered(t, root, segs, path) && (if |path| < |segs| then Wild(segs[|path|]) else EndsInStar(segs))
    case LookUp => LookedUp(t, root, segs, path)
    case AskDerivation =>
      if path == [] then segs == []
      else |path| >= |segs| && At(t, root, path).Some? && LookedUp(t, root, segs, path)
    case AskOpaque =>
      && path != [] && |path| <= |segs| && segs[|path| - 1] == "*" && At(t, root, path).Some?
      && LookedUp(t, root, segs, path) && (|path| == |segs| ==> !DrvAt(t, root, path))
  }

  // ----- one step down -----

  /** The walk goes on into the child `c` named `s`. */
  ghost predicate GoesInto<N>(t: Tree<N>, root: N, segs: Segs, s: string, c: N)
    requires segs != []
  {
    && (if Wild(segs[0]) then s in Names(t, root) else s == segs[0])
    && (segs[0] == "*" ==> !Value(t.isOpaque(c), false))
    && (segs == ["*"] ==> !Value(t.isDerivation(c), false))
  }

  lemma EntersStep<N>(t: Tree<N>, root: N, segs: Segs, path: Segs, c: N, i: nat)
    requires path != [] && Child(t, root, path[0]) == Some(c) && 0 < i < |path| <= |segs|
    ensures Enters(t, root, segs, path, i) <==> Enters(t, c, segs[1..], path[1..], i - 1)
  {
    AtStep(t, root, path, c, i);
    AtStep(t, root, path, c, i + 1);
  }

  lemma EnteredStep<N>(t: Tree<N>, root: N, segs: Segs, path: Segs, c: N)
    requires segs != [] && path != [] && Child(t, root, path[0]) == Some(c)
    ensures Entered(t, root, segs, path) <==>
            GoesInto(t, root, segs, path[0], c) && Entered(t, c, segs[1..], path[1..])
  {
    AtStep(t, root, path, c, |path|);
    assert path[..|path|] == path && path[1..][..|path| - 1] == path[1..] && path[..0] == [];
    AtStep(t, root, path, c, 1);
    assert path[1..][..0] == [];
    if |path| <= |segs| {
      forall i | 0 < i < |path|
        ensures Enters(t, root, segs, path, i) <==> Enters(t, c, segs[1..], path[1..], i - 1)
      {
        EntersStep(t, root, segs, path, c, i);
      }
      if Entered(t, c, segs[1..], path[1..]) {
        forall i | 0 < i < |path| ensures Enters(t, root, segs, path, i) {
          assert Enters(t, c, segs[1..], path[1..], i - 1);
        }
      }
      if Entered(t, root, segs, path) {
        forall i | 0 <= i < |path[1..]| ensures Enters(t, c, segs[1..], path[1..], i) {
          assert Enters(t, root, segs, path, i + 1);
        }
        assert Enters(t, root, segs, path, 0);
      }
    }
  }

  predicate Named<N>(t: Tree<N>, root: N, segs: Segs, s: string)
    requires segs != []
  {
    if Wild(segs[0]) then s in Names(t, root) else s == segs[0]
  }

  lemma LookedUpHead<N>(t: Tree<N>, root: N, segs: Segs, path: Segs)
    requires segs != [] && |path| == 1
    ensures LookedUp(t, root, segs, path) <==> Named(t, root, segs, path[0])
  {
    assert path[..0] == [];
  }

  lemma LookedUpStep<N>(t: Tree<N>, root: N, segs: Segs, path: Segs)
    requires segs != [] && segs != ["*"] && |path| > 1
    ensures LookedUp(t, root, segs, path) <==>
            Child(t, root, path[0]).Some? && GoesInto(t, root, segs, path[0], Child(t, root, path[0]).value)
            && LookedUp(t, Child(t, root, path[0]).value, segs[1..], path[1..])
  {
    var front := path[..|path| - 1];
    if Child(t, root, path[0]).Some? {
      var c := Child(t, root, path[0]).value;
      EnteredStep(t, root, segs, front, c);
      AtStep(t, root, path, c, |path| - 1);
      assert front[1..] == path[1..][..|path[1..]| - 1];
    }
  }

  /** The probes made at a node itself, before the walk goes further down. */
  ghost predicate HeadProbe<N>(t: Tree<N>, root: N, segs: Segs, path: Segs, op: Op)
    requires segs != []
  {
    || (path == [] && op.ListNames? && Wild(segs[0]))
    || (|path| == 1 && op.LookUp? && Named(t, root, segs, path[0]))
    || (|path| == 1 && op.AskOpaque? && segs[0] == "*" && path[0] in Names(t, root) && Child(t, root, path[0]).Some?)
  }

  lemma ProbedStep<N>(t: Tree<N>, root: N, segs: Segs, path: Segs, op: Op)
    requires segs != [] && segs != ["*"]
    ensures Probed(t, root, segs, path, op) <==>
            || HeadProbe(t, root, segs, path, op)
            || (path != [] && Child(t, root, path[0]).Some?
                && GoesInto(t, root, segs, path[0], Child(t, root, path[0]).value)
                && Probed(t, Child(t, root, path[0]).value, segs[1..], path[1..], op))
  {
    if path != [] {
      assert path[..|path|] == path;
      if |path| == 1 { LookedUpHead(t, root, segs, path); } else { LookedUpStep(t, root, segs, path); }
      if Child(t, root, path[0]).Some? {
        var c := Child(t, root, path[0]).value;
        EnteredStep(t, root, segs, path, c);
        AtStep(t, root, path, c, |path|);
        assert path[1..][..|path| - 1] == path[1..];
        if |segs| == 1 && |path| == 1 { assert segs[0] != "*" by { assert segs == [segs[0]]; } }
      }
    }
  }

  /** The probes of a single `*`: below a set it goes on into, those of a `#`. */
  ghost predicate StarProbe<N>(t: Tree<N>, root: N, path: Segs, op: Op) {
    || (path == [] && op.ListNames?)
    || (path != [] && path[0] in Names(t, root)
        && (|| (|path| == 1 && op.LookUp?)
            || (Child(t, root, path[0]).Some? && StarChildProbe(t, Child(t, root, path[0]).value, path[1..], op))))
  }

  ghost predicate StarChildProbe<N>(t: Tree<N>, c: N, q: Segs, op: Op) {
    var drv, opaqueSet := Value(t.isDerivation(c), false), Value(t.isOpaque(c), false);
    || (q == [] && (op.AskDerivation? || (op.AskOpaque? && !drv)))
    || (!drv && !opaqueSet && Probed(t, c, ["#"], q, op))
  }

  lemma StarProbed<N>(t: Tree<N>, root: N, path: Segs, op: Op)
    ensures Probed(t, root, ["*"], path, op) <==> StarProbe(t, root, path, op)
  {
    var segs := ["*"];
    if |path| == 1 { LookedUpHead(t, root, segs, path); }
    if path != [] && Child(t, root, path[0]).Some? {
      var c := Child(t, root, path[0]).value;
      AtStep(t, root, path, c, 1);
      assert path[1..][..0] == [];
      EnteredStep(t, root, segs, path[..1], c);
      if |path| == 1 { assert path[..1] == path; }
      if |path| == 2 {
        LookedUpHead(t, c, ["#"], path[1..]);
        assert path[..|path| - 1] == path[..1] && path[1..] == [path[1]] && path[1..][1..] == [];
        AtStep(t, root, path, c, 2);
        assert path[..2] == path && path[1..][..1] == path[1..];
      }
    }
  }

  /** The error of an operation below a child, seen from the child. */
  lemma ErrorStep<N>(t: Tree<N>, root: N, path: Segs, c: N, op: Op)
    requires path != [] && Child(t, root, path[0]) == Some(c) && !(op.LookUp? && |path| == 1)
    ensures ErrorAt(t, root, path, op) == ErrorAt(t, c, path[1..], op)
  {
    AtStep(t, root, path, c, |path|);
    assert path[..|path|] == path && path[1..][..|path| - 1] == path[1..];
    if op.LookUp? {
      AtStep(t, root, path, c, |path| - 1);
      assert path[1..][..|path[1..]| - 1] == path[1..][..|path| - 2];
    }
  }

  // ----- the walk reports what the pattern asks for in vain -----

  /** What a child met under a wildcard reports. */
  lemma OneChildDiags<N>(t: Tree<N>, found: Fallible<Option<N>>, c: N, q: Segs, segs: Segs)
    requires segs != [] && Wild(segs[0]) && Value(found, None) == Some(c)
    ensures var diags := OneChild(t, Derivations, found, q, segs).diags;
            var drv, o := t.isDerivation(c), t.isOpaque(c);
            && (segs[0] == "#" ==> diags == Traverse(t, Derivations, c, q, segs[1..]).diags)
            && (segs[0] == "*" && |segs| > 1 ==>
                  diags == Noted(o, q)
                           + if Value(o, false) then [] else Traverse(t, Derivations, c, q, segs[1..]).diags)
            && (segs == ["*"] ==>
                  diags == Noted(drv, q)
                           + if Value(drv, false) then []
                             else Noted(o, q)
                                  + if Value(o, false) then [] else Traverse(t, Derivations, c, q, ["#"]).diags)
  {
    var drv, o := t.isDerivation(c), t.isOpaque(c);
    if segs == ["*"] {
      RecoverIsHash(t, c, q, Names(t, c));
      assert Recover(t, c, q) == Traverse(t, Derivations, c, q, ["#"]);
      assert Noted(drv, q) + Noted(o, q) + [] == Noted(drv, q) + (Noted(o, q) + []);
    } else if segs[0] == "*" {
      assert |segs| > 1;
      assert Descend(t, Derivations, c, q, segs[1..]) == Traverse(t, Derivations, c, q, segs[1..]);
      assert Noted(o, q) + [] == Noted(o, q);
    } else if |segs| == 1 {
      assert segs[1..] == [];
    } else {
      assert Descend(t, Derivations, c, q, segs[1..]) == Traverse(t, Derivations, c, q, segs[1..]);
    }
  }

  lemma {:induction false} ChildrenNote<N>(
      t: Tree<N>, node: N, path: Segs, segs: Segs, names: seq<string>, s: string, d: string)
    requires segs != [] && Wild(segs[0]) && s in names
    requires d in Noted(t.child(node, s), path + [s])
             || d in OneChild(t, Derivations, t.child(node, s), path + [s], segs).diags
    ensures d in Children(t, Derivations, node, path, segs, names).diags
    decreases |names|
  {
    if s != names[0] { ChildrenNote(t, node, path, segs, names[1..], s, d); }
  }

  lemma {:induction false} ChildrenNoted<N>(
      t: Tree<N>, node: N, path: Segs, segs: Segs, names: seq<string>, d: string) returns (s: string)
    requires segs != [] && Wild(segs[0]) && d in Children(t, Derivations, node, path, segs, names).diags
    ensures s in names
    ensures d in Noted(t.child(node, s), path + [s])
            || d in OneChild(t, Derivations, t.child(node, s), path + [s], segs).diags
    decreases |names|
  {
    s := names[0];
    if d !in Noted(t.child(node, s), path + [s])
       && d !in OneChild(t, Derivations, t.child(node, s), path + [s], segs).diags
    {
      s := ChildrenNoted(t, node, path, segs, names[1..], d);
    }
  }

  /** Every failure of an operation the pattern asks for is reported. */
  lemma {:induction false} ProbeNoted<N>(t: Tree<N>, node: N, path: Segs, segs: Segs, q: Segs, op: Op)
    requires Probed(t, node, segs, q, op) && ErrorAt(t, node, q, op).Some?
    ensures Diag(path + q, ErrorAt(t, node, q, op).value) in Traverse(t, Derivations, node, path, segs).diags
    decreases |segs|, if segs == ["*"] then 2 else 0
  {
    var d := Diag(path + q, ErrorAt(t, node, q, op).value);
    if q == [] { assert path + q == path; }
    if segs == ["*"] {
      StarProbed(t, node, q, op);
      if q != [] { StarChildNoted(t, node, path, q, op); }
    } else if segs != [] {
      ProbedStep(t, node, segs, q, op);
      if q != [] {
        var s, p := q[0], path + [q[0]];
        assert |q| == 1 ==> path + q == p && q[..0] == [];
        if HeadProbe(t, node, segs, q, op) {
          HeadNoted(t, node, path, segs, q, op);
        } else {
          var c := Child(t, node, s).value;
          ErrorStep(t, node, q, c, op);
          assert path + q == p + q[1..];
          ProbeNoted(t, c, p, segs[1..], q[1..], op);
          if Wild(segs[0]) {
            OneChildDiags(t, t.child(node, s), c, p, segs);
            ChildrenNote(t, node, path, segs, Names(t, node), s, d);
          }
        }
      }
    }
  }

  lemma HeadNoted<N>(t: Tree<N>, node: N, path: Segs, segs: Segs, q: Segs, op: Op)
    requires segs != [] && segs != ["*"] && |q| == 1
    requires HeadProbe(t, node, segs, q, op) && ErrorAt(t, node, q, op).Some?
    ensures Diag(path + q, ErrorAt(t, node, q, op).value) in Traverse(t, Derivations, node, path, segs).diags
  {
    var s, p := q[0], path + [q[0]];
    var d := Diag(p, ErrorAt(t, node, q, op).value);
    assert path + q == p && q[..0] == [] && q[1..] == [];
    if op.AskOpaque? {
      var c := Child(t, node, s).value;
      ErrorStep(t, node, q, c, op);
      OneChildDiags(t, t.child(node, s), c, p, segs);
      assert |segs| > 1;
      assert d in Noted(t.isOpaque(c), p);
    }
    if Wild(segs[0]) { ChildrenNote(t, node, path, segs, Names(t, node), s, d); }
  }

  lemma StarChildNoted<N>(t: Tree<N>, node: N, path: Segs, q: Segs, op: Op)
    requires q != [] && StarProbe(t, node, q, op) && ErrorAt(t, node, q, op).Some?
    ensures Diag(path + q, ErrorAt(t, node, q, op).value) in Traverse(t, Derivations, node, path, ["*"]).diags
    decreases 1, 1, 1
  {
    var s, p := q[0], path + [q[0]];
    var d := Diag(path + q, ErrorAt(t, node, q, op).value);
    assert path + q == p + q[1..];
    if |q| == 1 && op.LookUp? {
      assert q[..0] == [] && path + q == p;
      assert d in Noted(t.child(node, s), p);
    } else {
      var c := Child(t, node, s).value;
      ErrorStep(t, node, q, c, op);
      BelowStarNoted(t, t.child(node, s), c, p, q[1..], op);
    }
    ChildrenNote(t, node, path, ["*"], Names(t, node), s, d);
  }

  lemma BelowStarNoted<N>(t: Tree<N>, found: Fallible<Option<N>>, c: N, p: Segs, q: Segs, op: Op)
    requires Value(found, None) == Some(c) && StarChildProbe(t, c, q, op) && ErrorAt(t, c, q, op).Some?
    ensures Diag(p + q, ErrorAt(t, c, q, op).value) in OneChild(t, Derivations, found, p, ["*"]).diags
    decreases 1, 1, 0
  {
    OneChildDiags(t, found, c, p, ["*"]);
    var drv, o := t.isDerivation(c), t.isOpaque(c);
    if q == [] && (op.AskDerivation? || (op.AskOpaque? && !Value(drv, false))) {
      assert p + q == p;
      assert Diag(p, ErrorAt(t, c, q, op).value) in Noted(if op.AskDerivation? then drv else o, p);
    } else {
      ProbeNoted(t, c, p, ["#"], q, op);
    }
  }

  /** The operation at `q` is one the pattern asks for, and its failure is what `d` reports. */
  ghost predicate Reports<N>(t: Tree<N>, node: N, path: Segs, segs: Segs, q: Segs, op: Op, d: string) {
    Probed(t, node, segs, q, op) && ErrorAt(t, node, q, op).Some? && d == Diag(path + q, ErrorAt(t, node, q, op).value)
  }

  /** A report from below a child, seen from its parent. */
  lemma ReportsStep<N>(t: Tree<N>, node: N, path: Segs, segs: Segs, s: string, c: N, q: Segs, op: Op, d: string)
    requires segs != [] && segs != ["*"] && Child(t, node, s) == Some(c) && GoesInto(t, node, segs, s, c)
    requires Reports(t, c, path + [s], segs[1..], q, op, d)
    ensures Reports(t, node, path, segs, [s] + q, op, d)
  {
    var p := [s] + q;
    assert p[1..] == q && path + [s] + q == path + p;
    ProbedStep(t, node, segs, p, op);
    if op.LookUp? { assert q != []; }
    ErrorStep(t, node, p, c, op);
  }

  lemma ReportsHead<N>(t: Tree<N>, node: N, path: Segs, segs: Segs, s: string, op: Op, d: string)
    requires segs != [] && segs != ["*"] && HeadProbe(t, node, segs, [s], op)
    requires ErrorAt(t, node, [s], op).Some? && d == Diag(path + [s], ErrorAt(t, node, [s], op).value)
    ensures Reports(t, node, path, segs, [s], op, d)
  {
    ProbedStep(t, node, segs, [s], op);
  }

  /** Nothing else is reported. */
  lemma {:induction false} NotedProbed<N>(t: Tree<N>, node: N, path: Segs, segs: Segs, d: string)
      returns (q: Segs, op: Op)
    requires d in Traverse(t, Derivations, node, path, segs).diags
    ensures Reports(t, node, path, segs, q, op, d)
    decreases |segs|, 2
  {
    q := [];
    assert path + [] == path;
    if segs == [] {
      op := AskDerivation;
    } else if Wild(segs[0]) {
      if d in Noted(t.childNames(node), path) {
        op := ListNames;
      } else {
        var s := ChildrenNoted(t, node, path, segs, Names(t, node), d);
        q, op := ChildNotedProbed(t, node, path, segs, s, d);
      }
    } else {
      var s := segs[0];
      assert segs != ["*"];
      if d in Noted(t.child(node, s), path + [s]) {
        q, op := [s], LookUp;
        assert [s][..0] == [];
        ReportsHead(t, node, path, segs, s, op, d);
      } else {
        q, op := NotedProbed(t, Child(t, node, s).value, path + [s], segs[1..], d);
        ReportsStep(t, node, path, segs, s, Child(t, node, s).value, q, op, d);
        q := [s] + q;
      }
    }
  }

  lemma ChildNotedProbed<N>(t: Tree<N>, node: N, path: Segs, segs: Segs, s: string, d: string)
      returns (q: Segs, op: Op)
    requires segs != [] && Wild(segs[0]) && s in Names(t, node)
    requires d in Noted(t.child(node, s), path + [s])
             || d in OneChild(t, Derivations, t.child(node, s), path + [s], segs).diags
    ensures Reports(t, node, path, segs, q, op, d)
    decreases |segs|, 1
  {
    assert [s][..0] == [] && [s][1..] == [];
    if d in Noted(t.child(node, s), path + [s]) {
      q, op := [s], LookUp;
      LookedUpHead(t, node, segs, [s]);
    } else {
      var c := Child(t, node, s).value;
      OneChildDiags(t, t.child(node, s), c, path + [s], segs);
      if segs == ["*"] {
        q, op := StarNotedProbed(t, node, path, s, c, d);
      } else if segs[0] == "*" && d in Noted(t.isOpaque(c), path + [s]) {
        q, op := [s], AskOpaque;
        ErrorStep(t, node, [s], c, op);
        ReportsHead(t, node, path, segs, s, op, d);
      } else {
        q, op := NotedProbed(t, c, path + [s], segs[1..], d);
        ReportsStep(t, node, path, segs, s, c, q, op, d);
        q := [s] + q;
      }
    }
  }

  lemma StarNotedProbed<N>(t: Tree<N>, node: N, path: Segs, s: string, c: N, d: string) returns (q: Segs, op: Op)
    requires s in Names(t, node) && Child(t, node, s) == Some(c)
    requires d in OneChild(t, Derivations, t.child(node, s), path + [s], ["*"]).diags
    ensures Reports(t, node, path, ["*"], q, op, d)
    decreases 1, 0
  {
    OneChildDiags(t, t.child(node, s), c, path + [s], ["*"]);
    var p := path + [s];
    q := [];
    if d in Noted(t.isDerivation(c), p) {
      op := AskDerivation;
    } else if d in Noted(t.isOpaque(c), p) {
      op := AskOpaque;
    } else {
      q, op := HashNotedProbed(t, c, p, d);
    }
    assert q == [] ==> p + q == p;
    ReportsBelowStar(t, node, path, s, c, q, op, d);
    q := [s] + q;
  }

  lemma ReportsBelowStar<N>(t: Tree<N>, node: N, path: Segs, s: string, c: N, q: Segs, op: Op, d: string)
    requires s in Names(t, node) && Child(t, node, s) == Some(c)
    requires StarChildProbe(t, c, q, op) && ErrorAt(t, c, q, op).Some?
    requires d == Diag(path + [s] + q, ErrorAt(t, c, q, op).value)
    ensures Reports(t, node, path, ["*"], [s] + q, op, d)
  {
    var p := [s] + q;
    assert p[1..] == q && path + [s] + q == path + p;
    StarProbed(t, node, p, op);
    ErrorStep(t, node, p, c, op);
  }

  lemma HashNotedProbed<N>(t: Tree<N>, c: N, p: Segs, d: string) returns (q: Segs, op: Op)
    requires d in Traverse(t, Derivations, c, p, ["#"]).diags
    ensures Reports(t, c, p, ["#"], q, op, d)
  {
    assert p + [] == p;
    if d in Noted(t.childNames(c), p) {
      q, op := [], ListNames;
    } else {
      var s := ChildrenNoted(t, c, p, ["#"], Names(t, c), d);
      assert [s][..0] == [] && [s][1..] == [];
      LookedUpHead(t, c, ["#"], [s]);
      if d in Noted(t.child(c, s), p + [s]) {
        q, op := [s], LookUp;
      } else {
        var g := Child(t, c, s).value;
        OneChildDiags(t, t.child(c, s), g, p + [s], ["#"]);
        assert ["#"][1..] == [];
        q, op := [s], AskDerivation;
        ErrorStep(t, c, [s], g, op);
        AtStep(t, c, [s], g, 1);
        assert [s][..1] == [s];
      }
    }
  }

  /** A pattern reports exactly the failures of the operations it asks for. */
  ghost predicate Diagnosed<N>(t: Tree<N>, root: N, segs: Segs, d: string) {
    exists path, op :: Reports(t, root, [], segs, path, op, d)
  }

  lemma TraverseReports<N>(t: Tree<N>, root: N, segs: Segs, d: string)
    ensures d in Traverse(t, Derivations, root, [], segs).diags <==> Diagnosed(t, root, segs, d)
  {
    if d in Traverse(t, Derivations, root, [], segs).diags {
      var q, op := NotedProbed(t, root, [], segs, d);
    }
    if Diagnosed(t, root, segs, d) {
      var q, op :| Reports(t, root, [], segs, q, op, d);
      ProbeNoted(t, root, [], segs, q, op);
    }
  }

  // ----- the shards of a pattern -----

  /** The position of the first wildcard, or the length. */
  function FirstWild(segs: Segs): (k: nat)
    ensures k <= |segs| && forall i :: 0 <= i < k ==> !Wild(segs[i])
    ensures k < |segs| ==> Wild(segs[k])
    decreases |segs|
  {
    if segs == [] || Wild(segs[0]) then 0 else 1 + FirstWild(segs[1..])
  }

  /** Splitting a pattern resolves its first wildcard: one shard for each attribute it admits there,
      with the segments that follow; below a set that is no derivation a trailing `*` leaves `#`.
      A pattern without a wildcard is its own shard if it leads anywhere. */
  ghost predicate ShardOf<N>(t: Tree<N>, root: N, segs: Segs, shard: Segs) {
    var k := FirstWild(segs);
    if k == |segs| then shard == segs && At(t, root, segs).Some?
    else
      && k < |shard| && shard[..k] == segs[..k] && ListedAt(t, root, segs[..k], shard[k])
      && Child(t, At(t, root, segs[..k]).value, shard[k]).Some?
      && ShardTail(t, Child(t, At(t, root, segs[..k]).value, shard[k]).value, segs[k], segs[k + 1..], shard[k + 1..])
  }

  ghost predicate ShardTail<N>(t: Tree<N>, c: N, wild: string, rest: Segs, tail: Segs) {
    var drv, opaqueSet := Value(t.isDerivation(c), false), Value(t.isOpaque(c), false);
    if rest != [] then tail == rest && (wild == "*" ==> !opaqueSet)
    else (tail == [] && drv) || (tail == ["#"] && wild == "*" && !drv && !opaqueSet)
  }

  lemma {:induction false} TraverseShards<N>(t: Tree<N>, node: N, path: Segs, segs: Segs, p: Segs)
    ensures p in Traverse(t, Shards, node, path, segs).out <==> path <= p && ShardOf(t, node, segs, p[|path|..])
    decreases |segs|
  {
    if segs == [] {
      if path <= p && p[|path|..] == [] { assert p == path; }
    } else if Wild(segs[0]) {
      ChildrenShards(t, node, path, segs, Names(t, node), p);
      assert FirstWild(segs) == 0 && segs[..0] == [];
    } else {
      LiteralShards(t, node, path, segs, p);
    }
  }

  lemma LiteralShards<N>(t: Tree<N>, node: N, path: Segs, segs: Segs, p: Segs)
    requires segs != [] && !Wild(segs[0])
    ensures p in Traverse(t, Shards, node, path, segs).out <==> path <= p && ShardOf(t, node, segs, p[|path|..])
    decreases |segs|, 0
  {
    var q, found := path + [segs[0]], Child(t, node, segs[0]);
    if found.Some? { TraverseShards(t, found.value, q, segs[1..], p); }
    if path <= p {
      ShardStep(t, node, segs, p[|path|..]);
      if path < p && p[|path|] == segs[0] { assert q <= p && p[|path|..][1..] == p[|q|..]; }
    }
  }

  lemma ShardStep<N>(t: Tree<N>, node: N, segs: Segs, shard: Segs)
    requires segs != [] && !Wild(segs[0])
    ensures ShardOf(t, node, segs, shard) <==>
            shard != [] && shard[0] == segs[0] && Child(t, node, segs[0]).Some?
            && ShardOf(t, Child(t, node, segs[0]).value, segs[1..], shard[1..])
  {
    var k := FirstWild(segs);
    assert FirstWild(segs[1..]) == k - 1;
    if k == |segs| {
      if shard != [] && shard[0] == segs[0] && shard[1..] == segs[1..] {
        assert shard == [shard[0]] + shard[1..] && segs == [segs[0]] + segs[1..];
      }
    } else {
      assert segs[..k][1..] == segs[1..][..k - 1] && segs[k + 1..] == segs[1..][k..];
      if k < |shard| {
        assert shard[k + 1..] == shard[1..][k..] && shard[..k][1..] == shard[1..][..k - 1];
        assert shard[..k] == [shard[0]] + shard[1..][..k - 1] && segs[..k] == [segs[0]] + segs[1..][..k - 1];
      }
    }
  }

  lemma {:induction false} ChildrenShards<N>(t: Tree<N>, node: N, path: Segs, segs: Segs, names: seq<string>, p: Segs)
    requires segs != [] && Wild(segs[0])
    ensures p in Children(t, Shards, node, path, segs, names).out <==>
            path < p && p[|path|] in names && Child(t, node, p[|path|]).Some?
            && ShardTail(t, Child(t, node, p[|path|]).value, segs[0], segs[1..], p[|path|..][1..])
    decreases |names|
  {
    if names != [] {
      var q := path + [names[0]];
      ChildrenShards(t, node, path, segs, names[1..], p);
      assert forall s :: s in names <==> s == names[0] || s in names[1..];
      if Child(t, node, names[0]).Some? { ChildShards(t, t.child(node, names[0]), q, segs, p); }
      if path < p && p[|path|] == names[0] { assert q <= p && p[|path|..][1..] == p[|q|..]; }
    }
  }

  lemma ChildShards<N>(t: Tree<N>, found: Fallible<Option<N>>, q: Segs, segs: Segs, p: Segs)
    requires segs != [] && Wild(segs[0]) && Value(found, None).Some?
    ensures p in OneChild(t, Shards, found, q, segs).out <==>
            q <= p && ShardTail(t, Value(found, None).value, segs[0], segs[1..], p[|q|..])
  {
    var rest, c := segs[1..], Value(found, None).value;
    if q <= p { assert p == q + p[|q|..]; }
    assert (q + rest)[|q|..] == rest && (q + ["#"])[|q|..] == ["#"] && q[|q|..] == [] && q + [] == q;
    if segs[0] == "*" {
      assert OneChild(t, Shards, found, q, segs) == StarChild(t, Shards, c, q, rest);
      if rest != [] && !Value(t.isOpaque(c), false) {
        assert StarChild(t, Shards, c, q, rest).out == Descend(t, Shards, c, q, rest).out;
      }
    } else {
      assert OneChild(t, Shards, found, q, segs) == HashChild(t, Shards, c, q, rest);
      assert rest != [] ==> HashChild(t, Shards, c, q, rest).out == Descend(t, Shards, c, q, rest).out;
    }
  }
}
