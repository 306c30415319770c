/** Finding the repositories below the cache root (gc.rs:202-242) and the layout
    of their files (cas.rs:32-57). */
module RepoDiscovery {

  import opened Base
  import opened Digests
  import opened TreeWalk

  predicate Skipped(name: string) {
    name == "blobs" || name == "_uploads" || name == "_quill"
  }

  predicate HasBlobs(folders: set<Repo>, p: Repo) {
    p + ["blobs"] in folders
  }

  /** The walk may enter `p`: no component on the way is skipped, and no directory
      above it is unreadable or itself has a `blobs` directory. */
  ghost predicate Enterable(folders: set<Repo>, unreadable: set<Repo>, p: Repo) {
    && p in folders
    && (forall i :: 0 <= i < |p| ==> !Skipped(p[i]))
    && (forall k :: 0 <= k < |p| ==> p[..k] !in unreadable && !HasBlobs(folders, p[..k]))
  }

  /** The outermost readable directories that have a `blobs` directory. */
  ghost predicate IsRepo(folders: set<Repo>, unreadable: set<Repo>, p: Repo) {
    p != [] && Enterable(folders, unreadable, p) && p !in unreadable && HasBlobs(folders, p)
  }

  lemma ChildEnterable(folders: set<Repo>, unreadable: set<Repo>, dir: Repo, p: Repo)
    requires IsTree(folders) && Enterable(folders, unreadable, p) && dir < p
    ensures var c := p[..|dir| + 1];
            && dir !in unreadable && !HasBlobs(folders, dir)
            && c in folders && c[..|dir|] == dir && !Skipped(c[|dir|])
  {
    RootAbove(folders, p);
    assert p[..|dir|] == dir;
  }

  lemma EnterableChild(folders: set<Repo>, unreadable: set<Repo>, dir: Repo, c: Repo)
    requires Enterable(folders, unreadable, dir) && dir !in unreadable && !HasBlobs(folders, dir)
    requires c in folders && |c| == |dir| + 1 && c[..|dir|] == dir && !Skipped(c[|dir|])
    ensures Enterable(folders, unreadable, c)
  {
    assert c == dir + [c[|dir|]];
    forall k | 0 <= k < |c| ensures c[..k] !in unreadable && !HasBlobs(folders, c[..k]) {
      if k < |dir| { assert c[..k] == dir[..k]; } else { assert c[..k] == dir; }
    }
  }

  /** The directories the walk pushes after it has listed `dir`. */
  predicate IsPushed(folders: set<Repo>, unreadable: set<Repo>, dir: Repo, c: Repo) {
    && dir !in unreadable && !HasBlobs(folders, dir)
    && c in folders && c != [] && Parent(c) == dir && !Skipped(c[|c| - 1])
  }

  ghost function Entering(folders: set<Repo>, unreadable: set<Repo>): Repo -> bool {
    p => Enterable(folders, unreadable, p)
  }

  ghost function Pushing(folders: set<Repo>, unreadable: set<Repo>): (Repo, Repo) -> bool {
    (dir, c) => IsPushed(folders, unreadable, dir, c)
  }

  lemma DiscoveryIsWalk(folders: set<Repo>, unreadable: set<Repo>)
    requires IsTree(folders)
    ensures IsWalk(folders, Entering(folders, unreadable), Pushing(folders, unreadable))
  {
    forall p | Enterable(folders, unreadable, p) ensures [] in folders {
      RootAbove(folders, p);
      assert p[..0] == [];
    }
    forall dir, c | Enterable(folders, unreadable, dir) && IsPushed(folders, unreadable, dir, c)
      ensures Enterable(folders, unreadable, c)
    {
      EnterableChild(folders, unreadable, dir, c);
    }
    forall dir, p | Enterable(folders, unreadable, p) && dir < p
      ensures IsPushed(folders, unreadable, dir, p[..|dir| + 1])
    {
      ChildEnterable(folders, unreadable, dir, p);
      assert Parent(p[..|dir| + 1]) == dir;
    }
  }

  /** `repos` are the repositories among the directories visited so far. */
  ghost predicate Found(folders: set<Repo>, unreadable: set<Repo>, repos: seq<Repo>, seen: set<Repo>) {
    && NoDuplicates(repos)
    && forall p :: p in repos <==> p in seen && IsRepo(folders, unreadable, p)
  }

  lemma FoundStep(folders: set<Repo>, unreadable: set<Repo>, repos: seq<Repo>, seen: set<Repo>, dir: Repo)
    requires Found(folders, unreadable, repos, seen) && dir !in seen
    ensures IsRepo(folders, unreadable, dir) ==> Found(folders, unreadable, repos + [dir], seen + {dir})
    ensures !IsRepo(folders, unreadable, dir) ==> Found(folders, unreadable, repos, seen + {dir})
  {
    assert forall i :: 0 <= i < |repos| ==> repos[i] in repos;
  }

  /** `discover_repos`: returns every outermost blob-bearing directory exactly
      once. A root that itself has a `blobs` directory hides everything below. */
  method DiscoverRepos(folders: set<Repo>, unreadable: set<Repo>) returns (repos: seq<Repo>)
    requires IsTree(folders)
    ensures NoDuplicates(repos)
    ensures forall p :: p in repos <==> IsRepo(folders, unreadable, p)
  {
    repos := [];
    ghost var enter, push := Entering(folders, unreadable), Pushing(folders, unreadable);
    var stack := StartOf(folders);
    ghost var seen: set<Repo> := {};
    DiscoveryIsWalk(folders, unreadable);
    WalkStarts(folders, enter, push);
    while stack != []
      invariant WalkInv(folders, enter, stack, seen)
      invariant Found(folders, unreadable, repos, seen)
      decreases folders - seen
    {
      var dir := stack[|stack| - 1];
      PopPush(stack);
      stack := stack[..|stack| - 1];
      var subdirs := Listed(set c | c in folders && IsPushed(folders, unreadable, dir, c));
      WalkStep(folders, enter, push, stack, seen, dir, subdirs);
      FoundStep(folders, unreadable, repos, seen, dir);
      if dir !in unreadable && HasBlobs(folders, dir) && dir != [] {
        repos := repos + [dir];
      }
      stack := stack + subdirs;
      seen := seen + {dir};
    }
    WalkEnds(folders, enter, seen);
  }

  /** The outermost readable blob-bearing directories below the root, whatever the
      root itself contains. */
  ghost predicate OutermostBelow(folders: set<Repo>, unreadable: set<Repo>, p: Repo) {
    && p != [] && p in folders && p !in unreadable && HasBlobs(folders, p)
    && (forall i :: 0 <= i < |p| ==> !Skipped(p[i]))
    && (forall k :: 0 < k < |p| ==> p[..k] !in unreadable && !HasBlobs(folders, p[..k]))
  }

  /** A `blobs` directory in the cache root hides them: of a root that can be read,
      all of them are found if and only if it has none, or there are none to find. */
  lemma RootBlobsHideAll(folders: set<Repo>, unreadable: set<Repo>)
    requires [] !in unreadable
    ensures HasBlobs(folders, []) ==> forall p :: !IsRepo(folders, unreadable, p)
    ensures (forall p :: OutermostBelow(folders, unreadable, p) ==> IsRepo(folders, unreadable, p)) <==>
            !HasBlobs(folders, []) || forall p :: !OutermostBelow(folders, unreadable, p)
  {
    forall p
      ensures IsRepo(folders, unreadable, p) <==> OutermostBelow(folders, unreadable, p) && !HasBlobs(folders, [])
    {
      RepoBelowRoot(folders, unreadable, p);
    }
  }

  /** Which directories are found, in the names themselves: a readable directory below
      the root that has a `blobs` directory, if no component of its path is `blobs`,
      `_uploads` or `_quill` and every directory above it can be read and has none. */
  lemma FoundIff(folders: set<Repo>, unreadable: set<Repo>, p: Repo)
    requires IsTree(folders)
    ensures IsRepo(folders, unreadable, p) <==>
            && p != [] && p in folders && p !in unreadable && p + ["blobs"] in folders
            && "blobs" !in p && "_uploads" !in p && "_quill" !in p
            && forall above :: above < p ==> above !in unreadable && above + ["blobs"] !in folders
  {
    assert forall above :: above < p ==> above == p[..|above|];
    assert forall k :: 0 <= k < |p| ==> p[..k] < p;
    forall name | name in {"blobs", "_uploads", "_quill"}
      ensures name in p <==> exists i :: 0 <= i < |p| && p[i] == name
    {
    }
  }

  lemma RepoBelowRoot(folders: set<Repo>, unreadable: set<Repo>, p: Repo)
    requires [] !in unreadable
    ensures IsRepo(folders, unreadable, p) <==> OutermostBelow(folders, unreadable, p) && !HasBlobs(folders, [])
  {
    assert p[..0] == [];
  }

  /** No returned repository lies inside another one. */
  lemma ReposAreDisjoint(folders: set<Repo>, unreadable: set<Repo>, p: Repo, q: Repo)
    requires IsRepo(folders, unreadable, p) && IsRepo(folders, unreadable, q)
    requires p <= q
    ensures p == q
  {
    assert q[..|p|] == p;
  }

  /** Where the blob of a repository is stored (cas.rs:36-41). */
  function BlobPath(repo: Repo, d: Digest): Repo {
    repo + ["blobs", d.algorithm, d.hex]
  }

  /** The sidecars of a repository (cas.rs:47-53). */
  function LocalTagsPath(repo: Repo): Repo {
    repo + ["_local_tags.json"]
  }

  function UpstreamTagsPath(repo: Repo): Repo {
    repo + ["_upstream_tags.json"]
  }

  function FileInBlobDir(repo: Repo, name: string): Repo {
    repo + ["blobs", "sha256", name]
  }

  /** Deleting a file while sweeping one repository removes the blob of no other
      repository, discovered or not, and of no other digest. */
  lemma SweepStaysInside(repo: Repo, name: string, other: Repo, d: Digest)
    requires FileInBlobDir(repo, name) == BlobPath(other, d)
    ensures repo == other && name == d.hex && OfFileName(name) == Some(d)
  {
    var f, b := FileInBlobDir(repo, name), BlobPath(other, d);
    assert |f| == |repo| + 3 && |b| == |other| + 3;
    assert f[..|repo|] == repo && b[..|other|] == other;
    assert f[|repo| + 2] == name && b[|other| + 2] == d.hex;
    ParseDisplay(d);
  }

}
