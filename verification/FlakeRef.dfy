/** The reference behind a `flake.lock` block: which keys say what to fetch. */
module FlakeRef {
  import opened Wrappers

  /** A JSON value; only strings and numbers are ever written or looked into. */
  datatype Json = Text(s: string) | Number(n: int) | Other(id: nat)

  /** The keys the generator reads or writes, and any other. */
  datatype Key =
    | Rev | NarHash | LastModified | Ref | Type | Owner | Repo | Url | PathKey | IdKey
    | Named(name: string)

  type Block = map<Key, Json>

  datatype LockedRef =
    | Github(owner: string, repo: string, gitRef: Option<string>)
    | Gitlab(owner: string, repo: string, gitRef: Option<string>)
    | Sourcehut(owner: string, repo: string, gitRef: Option<string>)
    | Git(url: string, gitRef: Option<string>)
    | Tarball(url: string)
    | Path(path: string)
    | Indirect(id: string)
    | OtherType(kind: string)

  function TextAt(b: Block, k: Key): Option<string> {
    if k in b && b[k].Text? then Some(b[k].s) else None
  }

  function FromMap(b: Block): Option<LockedRef> {
    match TextAt(b, Type)
    case None => None
    case Some(kind) =>
      var gitRef := TextAt(b, Ref);
      var owner, repo := TextAt(b, Owner), TextAt(b, Repo);
      if kind == "github" || kind == "gitlab" || kind == "sourcehut" then
        if owner.None? || repo.None? then None
        else if kind == "github" then Some(Github(owner.value, repo.value, gitRef))
        else if kind == "gitlab" then Some(Gitlab(owner.value, repo.value, gitRef))
        else Some(Sourcehut(owner.value, repo.value, gitRef))
      else if kind == "git" then
        if TextAt(b, Url).None? then None else Some(Git(TextAt(b, Url).value, gitRef))
      else if kind == "tarball" then
        if TextAt(b, Url).None? then None else Some(Tarball(TextAt(b, Url).value))
      else if kind == "path" then
        if TextAt(b, PathKey).None? then None else Some(Path(TextAt(b, PathKey).value))
      else if kind == "indirect" then
        if TextAt(b, IdKey).None? then None else Some(Indirect(TextAt(b, IdKey).value))
      else Some(OtherType(kind))
  }

  // ----- the block of a reference -----

  const HOSTED := {"github", "gitlab", "sourcehut"}
  const KINDS := {"github", "gitlab", "sourcehut", "git", "tarball", "path", "indirect"}

  /** The keys a block has for a reference; any `ref` is written as `Ref`. */
  function WriteRef(r: LockedRef): Block {
    match r
    case Github(owner, repo, gitRef) => WithRef(Hosted("github", owner, repo), gitRef)
    case Gitlab(owner, repo, gitRef) => WithRef(Hosted("gitlab", owner, repo), gitRef)
    case Sourcehut(owner, repo, gitRef) => WithRef(Hosted("sourcehut", owner, repo), gitRef)
    case Git(url, gitRef) => WithRef(map[Type := Text("git"), Url := Text(url)], gitRef)
    case Tarball(url) => map[Type := Text("tarball"), Url := Text(url)]
    case Path(path) => map[Type := Text("path"), PathKey := Text(path)]
    case Indirect(id) => map[Type := Text("indirect"), IdKey := Text(id)]
    case OtherType(kind) => map[Type := Text(kind)]
  }

  function Hosted(kind: string, owner: string, repo: string): Block {
    map[Type := Text(kind), Owner := Text(owner), Repo := Text(repo)]
  }

  function WithRef(b: Block, gitRef: Option<string>): Block {
    if gitRef.Some? then b[Ref := Text(gitRef.value)] else b
  }

  predicate HasRef(r: LockedRef) { r.Github? || r.Gitlab? || r.Sourcehut? || r.Git? }

  /** The block has every key of `part`. */
  ghost predicate Holds(b: Block, part: Block) { forall k :: k in part ==> k in b && b[k] == part[k] }

  /** The block says `r`: it has all keys of `r`, whatever else it has, except that a reference
      without a branch must not find one. An unknown kind stands for itself. */
  ghost predicate Describes(b: Block, r: LockedRef) {
    && Holds(b, WriteRef(r))
    && (HasRef(r) && r.gitRef.None? ==> !(Ref in b && b[Ref].Text?))
    && (r.OtherType? ==> r.kind !in KINDS)
  }

  predicate HasText(b: Block, k: Key) { k in b && b[k].Text? }

  /** What a block lacks for its kind. */
  predicate Lacking(b: Block) {
    || !HasText(b, Type)
    || (b[Type].s in HOSTED && !(HasText(b, Owner) && HasText(b, Repo)))
    || ((b[Type].s == "git" || b[Type].s == "tarball") && !HasText(b, Url))
    || (b[Type].s == "path" && !HasText(b, PathKey))
    || (b[Type].s == "indirect" && !HasText(b, IdKey))
  }

  lemma HoldsHosted(b: Block, kind: string, owner: string, repo: string, gitRef: Option<string>)
    ensures Holds(b, WithRef(Hosted(kind, owner, repo), gitRef)) && (gitRef.None? ==> !HasText(b, Ref))
            <==> TextAt(b, Type) == Some(kind) && TextAt(b, Owner) == Some(owner)
                 && TextAt(b, Repo) == Some(repo) && TextAt(b, Ref) == gitRef
  {
    var part := WithRef(Hosted(kind, owner, repo), gitRef);
    assert Type in part && Owner in part && Repo in part && (gitRef.Some? ==> Ref in part);
  }

  lemma HoldsGit(b: Block, url: string, gitRef: Option<string>)
    ensures Holds(b, WriteRef(Git(url, gitRef))) && (gitRef.None? ==> !HasText(b, Ref))
            <==> TextAt(b, Type) == Some("git") && TextAt(b, Url) == Some(url) && TextAt(b, Ref) == gitRef
  {
    var part := WriteRef(Git(url, gitRef));
    assert Type in part && Url in part && (gitRef.Some? ==> Ref in part);
  }

  lemma HoldsPair(b: Block, kind: string, k: Key, value: string)
    requires k != Type
    ensures Holds(b, map[Type := Text(kind), k := Text(value)])
            <==> TextAt(b, Type) == Some(kind) && TextAt(b, k) == Some(value)
  {
    var part := map[Type := Text(kind), k := Text(value)];
    assert Type in part && k in part;
  }

  /** Reading inverts writing, with any further keys in the block, and reads nothing else. */
  lemma FromMapIff(b: Block, r: LockedRef)
    ensures FromMap(b) == Some(r) <==> Describes(b, r)
  {
    match r {
      case Github(owner, repo, gitRef) => HoldsHosted(b, "github", owner, repo, gitRef);
      case Gitlab(owner, repo, gitRef) => HoldsHosted(b, "gitlab", owner, repo, gitRef);
      case Sourcehut(owner, repo, gitRef) => HoldsHosted(b, "sourcehut", owner, repo, gitRef);
      case Git(url, gitRef) => HoldsGit(b, url, gitRef);
      case Tarball(url) => HoldsPair(b, "tarball", Url, url);
      case Path(path) => HoldsPair(b, "path", PathKey, path);
      case Indirect(id) => HoldsPair(b, "indirect", IdKey, id);
      case OtherType(kind) => assert Type in WriteRef(r);
    }
  }

  lemma RefRoundTrip(r: LockedRef)
    requires r.OtherType? ==> r.kind !in KINDS
    ensures FromMap(WriteRef(r)) == Some(r)
  {
    FromMapIff(WriteRef(r), r);
  }

  /** A block is unreadable exactly when it lacks a text its kind needs. */
  lemma UnreadableIff(b: Block)
    ensures FromMap(b) == None <==> Lacking(b)
    ensures FromMap(b) == None <==> forall r :: !Describes(b, r)
  {
    forall r ensures FromMap(b) == Some(r) <==> Describes(b, r) { FromMapIff(b, r); }
    if FromMap(b).Some? { assert Describes(b, FromMap(b).value); }
  }
}
