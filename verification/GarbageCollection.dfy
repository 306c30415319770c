/** Mark-and-sweep garbage collection (crates/quill-storage/src/gc.rs). */
module GarbageCollection {

  import opened Base
  import opened Digests
  import opened Reachability
  import opened RepoDiscovery
  import opened TreeWalk

  datatype Node = File(content: Bytes) | Folder

  /** A member of a `<repo>/blobs/sha256` directory: repository and file name. */
  type Key = (Repo, string)

  /** The `_local_tags.json` file of a repository. */
  datatype Sidecar = Missing | Broken | Tags(entries: map<string, string>)

  datatype Disk = Disk(
    folders: set<Repo>,
    unreadable: set<Repo>,
    files: map<Key, Node>,
    sidecars: map<Repo, Sidecar>)

  datatype Report = Report(
    reposScanned: nat,
    reachableBlobs: nat,
    onDiskBlobs: nat,
    deleted: nat,
    bytesFreed: nat,
    errors: nat)

  function SidecarOf(disk: Disk, repo: Repo): Sidecar {
    if repo in disk.sidecars then disk.sidecars[repo] else Missing
  }

  /** The tags of a sidecar that name a digest. */
  function RootTags(s: Sidecar): set<string> {
    if s.Tags? then set t | t in s.entries && Parse(s.entries[t]).Some? else {}
  }

  function Roots(s: Sidecar, extra: set<Digest>): set<Digest> {
    extra + set t | t in RootTags(s) :: Parse(s.entries[t]).value
  }

  /** What reading `blob_path(repo, d)` yields, for every digest at once. */
  function ReadBlobs(files: map<Key, Node>, repo: Repo): Blobs {
    map k | k in files && k.0 == repo && files[k].File? && CanonicalHex(k.1) ::
      RawDigest(ALGORITHM, k.1) := files[k].content
  }

  /** The digests of `repo` that a run with these extra roots must keep. */
  ghost function Marked(view: Viewer, disk: Disk, extra: set<Digest>, repo: Repo): set<Digest> {
    Reachable(view, ReadBlobs(disk.files, repo), Roots(SidecarOf(disk, repo), extra))
  }

  function Of(marks: set<(Repo, Digest)>, repo: Repo): set<Digest> {
    set m | m in marks && m.0 == repo :: m.1
  }

  // ----- mark -----

  lemma LeastChain(view: Viewer, blobs: Blobs, roots: set<Digest>, root: Digest, s: set<Digest>, t: set<Digest>)
    requires IsLeast(view, blobs, roots, s) && IsLeast(view, blobs, s + {root}, t)
    ensures IsLeast(view, blobs, roots + {root}, t)
  {
    forall u: set<Digest> | roots + {root} <= u && Closed(view, blobs, u) ensures t <= u {
      assert s <= u && s + {root} <= u;
    }
  }

  /** State of the worklist: everything visited leads to visited or stacked
      digests, and nothing is visited or stacked that every closed set containing
      the earlier marks and the root would not contain. */
  ghost predicate WorkInv(view: Viewer, blobs: Blobs, from: set<Digest>, visited: set<Digest>, stack: seq<Digest>) {
    && (forall d :: d in from ==> d in visited || d in stack)
    && (forall d, e :: d in visited && e in Children(view, blobs, d) ==> e in visited || e in stack)
    && (forall t: set<Digest> :: from <= t && Closed(view, blobs, t) ==>
          visited <= t && forall e :: e in stack ==> e in t)
  }

  lemma WorkSkip(view: Viewer, blobs: Blobs, from: set<Digest>, visited: set<Digest>, stack: seq<Digest>, d: Digest)
    requires WorkInv(view, blobs, from, visited, stack + [d]) && d in visited
    ensures WorkInv(view, blobs, from, visited, stack)
  {
    assert forall e :: e in stack + [d] <==> e in stack || e == d;
  }

  lemma WorkVisit(view: Viewer, blobs: Blobs, from: set<Digest>, visited: set<Digest>, stack: seq<Digest>, d: Digest)
    requires WorkInv(view, blobs, from, visited, stack + [d]) && d !in visited
    ensures WorkInv(view, blobs, from, visited + {d}, stack + Children(view, blobs, d))
  {
    var next := Children(view, blobs, d);
    assert forall e :: e in stack + [d] <==> e in stack || e == d;
    assert forall e :: e in stack + next <==> e in stack || e in next;
  }

  /** Each digest is visited at most once, and only digests that occur somewhere
      are visited, so the walk ends even on a cyclic graph. */
  lemma WorkShrinks(view: Viewer, blobs: Blobs, from: set<Digest>, visited: set<Digest>, stack: seq<Digest>, d: Digest)
    requires WorkInv(view, blobs, from, visited, stack + [d]) && d !in visited
    ensures |Universe(view, blobs, from) - (visited + {d})| < |Universe(view, blobs, from) - visited|
  {
    var all := Universe(view, blobs, from);
    UniverseIsClosed(view, blobs, from);
    assert (stack + [d])[|stack|] == d;
    assert d in all;
    assert all - visited == (all - (visited + {d})) + {d};
  }

  lemma UniverseIsClosed(view: Viewer, blobs: Blobs, from: set<Digest>)
    ensures from <= Universe(view, blobs, from) && Closed(view, blobs, Universe(view, blobs, from))
  {
  }

  lemma WorkDone(view: Viewer, blobs: Blobs, from: set<Digest>, visited: set<Digest>)
    requires WorkInv(view, blobs, from, visited, [])
    ensures IsLeast(view, blobs, from, visited)
  {
  }

  /** `traverse`: extends the marks of `repo` to the least closed set that also
      contains `root`, although the visited set is shared with earlier roots and
      other repositories. */
  method Traverse(view: Viewer, blobs: Blobs, repo: Repo, root: Digest, before: set<(Repo, Digest)>)
    returns (marks: set<(Repo, Digest)>)
    requires Closed(view, blobs, Of(before, repo))
    ensures forall r :: r != repo ==> Of(marks, r) == Of(before, r)
    ensures IsLeast(view, blobs, Of(before, repo) + {root}, Of(marks, repo))
  {
    marks := before;
    var stack := [root];
    ghost var from := Of(before, repo) + {root};
    ghost var visited := Of(before, repo);
    ExtendsStart(before, repo);
    while stack != []
      invariant Extends(before, marks, repo, visited)
      invariant WorkInv(view, blobs, from, visited, stack)
      decreases |Universe(view, blobs, from) - visited|, |stack|
    {
      var d := stack[|stack| - 1];
      PopPush(stack);
      stack := stack[..|stack| - 1];
      if (repo, d) in marks {
        WorkSkip(view, blobs, from, visited, stack, d);
      } else {
        WorkVisit(view, blobs, from, visited, stack, d);
        WorkShrinks(view, blobs, from, visited, stack, d);
        ExtendsMore(before, marks, repo, visited, d);
        marks := marks + {(repo, d)};
        visited := visited + {d};
        stack := stack + Children(view, blobs, d);
      }
    }
    ExtendsOf(before, marks, repo, visited);
    WorkDone(view, blobs, from, visited);
  }

  /** `marks` is `before` with the marks of `repo` replaced by `visited`. */
  ghost predicate Extends(before: set<(Repo, Digest)>, marks: set<(Repo, Digest)>, repo: Repo, visited: set<Digest>) {
    forall r, d :: (r, d) in marks <==> if r == repo then d in visited else (r, d) in before
  }

  lemma ExtendsStart(before: set<(Repo, Digest)>, repo: Repo)
    ensures Extends(before, before, repo, Of(before, repo))
  {
    OfExact(before);
  }

  lemma ExtendsMore(before: set<(Repo, Digest)>, marks: set<(Repo, Digest)>, repo: Repo, visited: set<Digest>,
                    d: Digest)
    requires Extends(before, marks, repo, visited)
    ensures Extends(before, marks + {(repo, d)}, repo, visited + {d})
  {
  }

  lemma ExtendsOf(before: set<(Repo, Digest)>, marks: set<(Repo, Digest)>, repo: Repo, visited: set<Digest>)
    requires Extends(before, marks, repo, visited)
    ensures Of(marks, repo) == visited
    ensures forall r :: r != repo ==> Of(marks, r) == Of(before, r)
  {
    assert forall r, d :: d in Of(marks, r) <==> (r, d) in marks by { OfExact(marks); }
    assert forall r, d :: d in Of(before, r) <==> (r, d) in before by { OfExact(before); }
  }

  lemma OfExact(marks: set<(Repo, Digest)>)
    ensures forall r, d :: d in Of(marks, r) <==> (r, d) in marks
  {
  }

  /** Marks one repository from all its roots, in whatever order its tags and the
      extra roots come. */
  method MarkRepo(view: Viewer, disk: Disk, extra: set<Digest>, repo: Repo, before: set<(Repo, Digest)>)
    returns (marks: set<(Repo, Digest)>)
    requires Of(before, repo) == {}
    ensures forall r :: r != repo ==> Of(marks, r) == Of(before, r)
    ensures Of(marks, repo) == Marked(view, disk, extra, repo)
  {
    marks := before;
    var sidecar := SidecarOf(disk, repo);
    var blobs := ReadBlobs(disk.files, repo);
    var tags, pinned := RootTags(sidecar), extra;
    ghost var done: set<Digest> := {};
    while tags != {} || pinned != {}
      invariant tags <= RootTags(sidecar) && pinned <= extra
      invariant forall r :: r != repo ==> Of(marks, r) == Of(before, r)
      invariant IsLeast(view, blobs, done, Of(marks, repo))
      invariant done <= Roots(sidecar, extra)
      invariant forall d :: d in Roots(sidecar, extra) ==>
                  d in done || d in pinned || exists t :: t in tags && Parse(sidecar.entries[t]) == Some(d)
      decreases |tags| + |pinned|
    {
      var root: Digest;
      if tags != {} {
        var t :| t in tags;
        tags := tags - {t};
        root := Parse(sidecar.entries[t]).value;
      } else {
        root :| root in pinned;
        pinned := pinned - {root};
      }
      ghost var was := Of(marks, repo);
      marks := Traverse(view, blobs, repo, root, marks);
      LeastChain(view, blobs, done, root, was, Of(marks, repo));
      done := done + {root};
    }
    assert done == Roots(sidecar, extra);
    LeastIsUnique(view, blobs, done, Of(marks, repo), Marked(view, disk, extra, repo));
  }

  // ----- sweep -----

  /** A file the sweep looks at: its name reads as a digest. */
  predicate IsBlobFile(files: map<Key, Node>, k: Key) {
    k in files && files[k].File? && OfFileName(k.1).Some?
  }

  function Size(n: Node): nat {
    match n
    case File(content) => |content|
    case Folder => 0
  }

  /** The bytes of some files, each told apart by its file and position. */
  ghost function BytesOf(files: map<Key, Node>, s: set<Key>): set<(Key, int)>
    requires s <= files.Keys
  {
    set k, i | k in s && 0 <= i < Size(files[k]) :: (k, i)
  }

  ghost function TotalSize(files: map<Key, Node>, s: set<Key>): nat
    requires s <= files.Keys
  {
    |BytesOf(files, s)|
  }

  lemma SizeOfUnion(files: map<Key, Node>, a: set<Key>, b: set<Key>)
    requires a <= files.Keys && b <= files.Keys && a !! b
    ensures TotalSize(files, a + b) == TotalSize(files, a) + TotalSize(files, b)
  {
    assert BytesOf(files, a + b) == BytesOf(files, a) + BytesOf(files, b);
    assert BytesOf(files, a) !! BytesOf(files, b);
  }

  lemma SizeFrame(files: map<Key, Node>, after: map<Key, Node>, s: set<Key>)
    requires s <= files.Keys && s <= after.Keys && forall k :: k in s ==> files[k] == after[k]
    ensures TotalSize(files, s) == TotalSize(after, s)
  {
    assert BytesOf(files, s) == BytesOf(after, s);
  }

  lemma {:induction false} SizeOfOne(files: map<Key, Node>, k: Key)
    requires k in files
    ensures TotalSize(files, {k}) == Size(files[k])
  {
    FirstPositions(k, Size(files[k]));
    assert BytesOf(files, {k}) == set i | 0 <= i < Size(files[k]) :: (k, i);
  }

  lemma {:induction false} FirstPositions(k: Key, n: nat)
    ensures |set i | 0 <= i < n :: (k, i)| == n
  {
    if n > 0 {
      FirstPositions(k, n - 1);
      assert (set i | 0 <= i < n :: (k, i)) == (set i | 0 <= i < n - 1 :: (k, i)) + {(k, n - 1)};
    }
  }

  /** The files a run removes: unreachable, not a dry run, and not stuck on an I/O error. */
  function Gone(dead: set<Key>, dryRun: bool, stuck: set<Key>): set<Key> {
    if dryRun then {} else dead - stuck
  }

  function Failures(dead: set<Key>, dryRun: bool, stuck: set<Key>): set<Key> {
    if dryRun then {} else dead * stuck
  }

  /** Every repository the collector scans. */
  ghost function Scanned(disk: Disk): set<Repo> {
    set p | p in disk.folders && IsRepo(disk.folders, disk.unreadable, p)
  }

  ghost function AllBlobFiles(disk: Disk): set<Key> {
    set k | k in disk.files && k.0 in Scanned(disk) && IsBlobFile(disk.files, k)
  }

  ghost function AllDead(view: Viewer, disk: Disk, extra: set<Digest>): set<Key> {
    set k | k in AllBlobFiles(disk) && OfFileName(k.1).value !in Marked(view, disk, extra, k.0)
  }

  /** All plain files in the blob directories of scanned repositories. */
  ghost function AllFiles(disk: Disk): set<Key> {
    set k | k in disk.files && k.0 in Scanned(disk) && disk.files[k].File?
  }

  /** The disk after a run. */
  ghost function Collected(view: Viewer, disk: Disk, extra: set<Digest>, dryRun: bool, stuck: set<Key>): Disk {
    disk.(files := disk.files - Gone(AllDead(view, disk, extra), dryRun, stuck))
  }

  /** What the counters and the disk are after the files in `seen` have been
      examined: `dead` are the unreachable ones among all `blobs`. */
  ghost predicate SweepInv(files: map<Key, Node>, blobs: set<Key>, dead: set<Key>, dryRun: bool, stuck: set<Key>,
                           seen: set<Key>, t: Tally, now: map<Key, Node>, r: Report) {
    && (forall k :: k in t.blobs <==> k in seen && k in blobs)
    && (forall k :: k in t.gone <==> k in seen && k in dead && !dryRun && k !in stuck)
    && (forall k :: k in t.failed <==> k in seen && k in dead && !dryRun && k in stuck)
    && t.gone <= files.Keys
    && now == files - t.gone
    && r.onDiskBlobs == |t.blobs| && r.deleted == |t.gone| && r.errors == |t.failed|
    && r.bytesFreed == Saturate(TotalSize(files, t.gone))
  }

  datatype Tally = Tally(blobs: set<Key>, gone: set<Key>, failed: set<Key>)

  /** What the total is: nothing for no files, and for one more file the length of its
      content on top. */
  lemma TotalSizeExact(files: map<Key, Node>, s: set<Key>, k: Key)
    requires s <= files.Keys && k in files && k !in s && files[k].File?
    ensures TotalSize(files, {}) == 0
    ensures TotalSize(files, s + {k}) == TotalSize(files, s) + |files[k].content|
  {
    SizeOfMore(files, s, k);
  }

  lemma SizeOfMore(files: map<Key, Node>, s: set<Key>, k: Key)
    requires s <= files.Keys && k in files && k !in s
    ensures TotalSize(files, s + {k}) == TotalSize(files, s) + Size(files[k])
  {
    SizeOfUnion(files, s, {k});
    SizeOfOne(files, k);
  }

  lemma RemoveOneMore<K, V>(m: map<K, V>, s: set<K>, k: K)
    ensures m - s - {k} == m - (s + {k})
  {
  }

  /** What examining one more file does to the tally. */
  function Examine(t: Tally, k: Key, blob: bool, dead: bool, dryRun: bool, stuck: set<Key>): Tally {
    if !blob then t
    else
      var u := t.(blobs := t.blobs + {k});
      if !dead || dryRun then u
      else if k in stuck then u.(failed := t.failed + {k})
      else u.(gone := t.gone + {k})
  }

  function Bill(r: Report, k: Key, size: nat, blob: bool, dead: bool, dryRun: bool, stuck: set<Key>): Report {
    if !blob then r
    else
      var u := r.(onDiskBlobs := r.onDiskBlobs + 1);
      if !dead || dryRun then u
      else if k in stuck then u.(errors := r.errors + 1)
      else u.(deleted := r.deleted + 1, bytesFreed := SaturatingAdd(r.bytesFreed, size))
  }

  lemma ExamineStep(files: map<Key, Node>, blobs: set<Key>, dead: set<Key>, dryRun: bool, stuck: set<Key>,
                    seen: set<Key>, t: Tally, now: map<Key, Node>, r: Report, k: Key)
    requires SweepInv(files, blobs, dead, dryRun, stuck, seen, t, now, r)
    requires k in files && k !in seen && (k in dead ==> k in blobs)
    ensures k in now && now[k] == files[k]
    ensures var t' := Examine(t, k, k in blobs, k in dead, dryRun, stuck);
            var now' := if t'.gone == t.gone then now else now - {k};
            var r' := Bill(r, k, Size(files[k]), k in blobs, k in dead, dryRun, stuck);
            && (t'.gone == t.gone <==> !(k in dead && !dryRun && k !in stuck))
            && SweepInv(files, blobs, dead, dryRun, stuck, seen + {k}, t', now', r')
  {
    assert k !in t.blobs && k !in t.gone && k !in t.failed;
    if k in dead && !dryRun && k !in stuck {
      assert k in t.gone + {k};
      ExamineGone(files, blobs, dead, stuck, seen, t, now, r, k);
    } else {
      ExamineKept(files, blobs, dead, dryRun, stuck, seen, t, now, r, k);
    }
  }

  lemma ExamineGone(files: map<Key, Node>, blobs: set<Key>, dead: set<Key>, stuck: set<Key>,
                    seen: set<Key>, t: Tally, now: map<Key, Node>, r: Report, k: Key)
    requires SweepInv(files, blobs, dead, false, stuck, seen, t, now, r)
    requires k in files && k !in seen && k in dead && k in blobs && k !in stuck
    ensures SweepInv(files, blobs, dead, false, stuck, seen + {k},
                     Tally(t.blobs + {k}, t.gone + {k}, t.failed), now - {k},
                     Bill(r, k, Size(files[k]), true, true, false, stuck))
  {
    SizeOfMore(files, t.gone, k);
    RemoveOneMore(files, t.gone, k);
  }

  lemma ExamineKept(files: map<Key, Node>, blobs: set<Key>, dead: set<Key>, dryRun: bool, stuck: set<Key>,
                    seen: set<Key>, t: Tally, now: map<Key, Node>, r: Report, k: Key)
    requires SweepInv(files, blobs, dead, dryRun, stuck, seen, t, now, r)
    requires k in files && k !in seen && (k in dead ==> k in blobs) && (k in dead ==> dryRun || k in stuck)
    ensures SweepInv(files, blobs, dead, dryRun, stuck, seen + {k},
                     Examine(t, k, k in blobs, k in dead, dryRun, stuck), now,
                     Bill(r, k, Size(files[k]), k in blobs, k in dead, dryRun, stuck))
  {
  }

  /** After all files of all repositories. */
  lemma SweepDone(files: map<Key, Node>, blobs: set<Key>, dead: set<Key>, dryRun: bool, stuck: set<Key>,
                  seen: set<Key>, t: Tally, now: map<Key, Node>, r: Report)
    requires SweepInv(files, blobs, dead, dryRun, stuck, seen, t, now, r)
    requires dead <= blobs <= seen
    ensures t.blobs == blobs && t.gone == Gone(dead, dryRun, stuck) && t.failed == Failures(dead, dryRun, stuck)
  {
  }

  /** For the files of `repo`, the marks decide which are dead. */
  ghost predicate Judged(files: map<Key, Node>, repo: Repo, marks: set<(Repo, Digest)>, blobs: set<Key>,
                         dead: set<Key>) {
    forall k :: k in files && k.0 == repo ==>
      && (k in blobs <==> IsBlobFile(files, k))
      && (k in dead <==> IsBlobFile(files, k) && (repo, OfFileName(k.1).value) !in marks)
  }

  lemma JudgedByMarks(view: Viewer, disk: Disk, extra: set<Digest>, repo: Repo, marks: set<(Repo, Digest)>)
    requires repo in Scanned(disk) && Of(marks, repo) == Marked(view, disk, extra, repo)
    ensures Judged(disk.files, repo, marks, AllBlobFiles(disk), AllDead(view, disk, extra))
  {
    OfExact(marks);
  }

  class GarbageCollector {
    const view: Viewer
    var disk: Disk

    constructor (view: Viewer, disk: Disk)
      ensures this.view == view && this.disk == disk
    {
      this.view := view;
      this.disk := disk;
    }

    /** The mark phase (gc.rs:84-99): gives up when a sidecar does not load. */
    method Mark(repos: seq<Repo>, extra: set<Digest>) returns (marks: Option<set<(Repo, Digest)>>)
      requires NoDuplicates(repos)
      ensures marks.None? <==> exists p :: p in repos && SidecarOf(disk, p).Broken?
      ensures marks.Some? ==> forall p :: Of(marks.value, p) == if p in repos then Marked(view, disk, extra, p) else {}
    {
      var all: set<(Repo, Digest)> := {};
      for i := 0 to |repos|
        invariant forall j :: 0 <= j < i ==> !SidecarOf(disk, repos[j]).Broken?
        invariant forall p :: Of(all, p) == if p in repos[..i] then Marked(view, disk, extra, p) else {}
      {
        if SidecarOf(disk, repos[i]).Broken? {
          return None;
        }
        assert repos[..i + 1] == repos[..i] + [repos[i]];
        assert repos[i] !in repos[..i];
        all := MarkRepo(view, disk, extra, repos[i], all);
      }
      assert repos[..|repos|] == repos;
      marks := Some(all);
    }

    /** One directory entry (gc.rs:109-141). */
    method SweepFile(k: Key, marks: set<(Repo, Digest)>, dryRun: bool, stuck: set<Key>, before: Report,
                     ghost files: map<Key, Node>, ghost blobs: set<Key>, ghost dead: set<Key>,
                     ghost seen: set<Key>, ghost tally: Tally)
      returns (report: Report, ghost t: Tally)
      requires Judged(files, k.0, marks, blobs, dead)
      requires SweepInv(files, blobs, dead, dryRun, stuck, seen, tally, disk.files, before)
      requires k in files && k !in seen
      modifies this
      ensures disk == old(disk).(files := disk.files)
      ensures SweepInv(files, blobs, dead, dryRun, stuck, seen + {k}, t, disk.files, report)
      ensures report.reposScanned == before.reposScanned && report.reachableBlobs == before.reachableBlobs
    {
      ExamineStep(files, blobs, dead, dryRun, stuck, seen, tally, disk.files, before, k);
      t := Examine(tally, k, k in blobs, k in dead, dryRun, stuck);
      report := before;
      var node := disk.files[k];
      if node.File? && OfFileName(k.1).Some? {
        var d := OfFileName(k.1).value;
        report := report.(onDiskBlobs := report.onDiskBlobs + 1);
        if (k.0, d) !in marks && !dryRun {
          if k in stuck {
            report := report.(errors := report.errors + 1);
          } else {
            disk := disk.(files := disk.files - {k});
            report := report.(deleted := report.deleted + 1,
                              bytesFreed := SaturatingAdd(report.bytesFreed, Size(node)));
          }
        }
      }
    }

    /** The sweep of one repository (gc.rs:103-142). */
    method SweepRepo(repo: Repo, marks: set<(Repo, Digest)>, dryRun: bool, stuck: set<Key>, before: Report,
                     ghost files: map<Key, Node>, ghost blobs: set<Key>, ghost dead: set<Key>,
                     ghost done: set<Key>, ghost tally: Tally)
      returns (report: Report, ghost seen: set<Key>, ghost t: Tally)
      requires Judged(files, repo, marks, blobs, dead)
      requires SweepInv(files, blobs, dead, dryRun, stuck, done, tally, disk.files, before)
      requires forall k :: k in done ==> k.0 != repo
      modifies this
      ensures forall k :: k in seen <==> k in done || (k in files && k.0 == repo)
      ensures disk == old(disk).(files := disk.files)
      ensures SweepInv(files, blobs, dead, dryRun, stuck, seen, t, disk.files, report)
      ensures report.reposScanned == before.reposScanned && report.reachableBlobs == before.reachableBlobs
    {
      report := before;
      seen, t := done, tally;
      var listing := set k | k in disk.files && k.0 == repo;
      while listing != {}
        invariant forall k :: k in files && k.0 == repo ==> (k in seen <==> k !in listing)
        invariant forall k :: k in listing ==> k in files && k.0 == repo
        invariant forall k :: k in seen ==> k in done || (k in files && k.0 == repo)
        invariant done <= seen
        invariant disk == old(disk).(files := disk.files)
        invariant SweepInv(files, blobs, dead, dryRun, stuck, seen, t, disk.files, report)
        invariant report.reposScanned == before.reposScanned && report.reachableBlobs == before.reachableBlobs
      {
        var k :| k in listing;
        report, t := SweepFile(k, marks, dryRun, stuck, report, files, blobs, dead, seen, t);
        listing := listing - {k};
        seen := seen + {k};
      }
    }

    /** The sweep phase (gc.rs:102-143). */
    method Sweep(repos: seq<Repo>, marks: set<(Repo, Digest)>, extra: set<Digest>, dryRun: bool, stuck: set<Key>,
                 before: Report)
      returns (report: Report)
      requires NoDuplicates(repos)
      requires forall p :: p in repos <==> p in Scanned(disk)
      requires forall p :: p in repos ==> Of(marks, p) == Marked(view, disk, extra, p)
      modifies this
      ensures disk == Collected(view, old(disk), extra, dryRun, stuck)
      ensures var dead := AllDead(view, old(disk), extra);
              var gone := Gone(dead, dryRun, stuck);
              report == before.(onDiskBlobs := |AllBlobFiles(old(disk))|,
                                deleted := |gone|,
                                errors := |Failures(dead, dryRun, stuck)|,
                                bytesFreed := Saturate(TotalSize(old(disk.files), gone)))
    {
      report := before.(onDiskBlobs := 0, deleted := 0, errors := 0, bytesFreed := 0);
      ghost var start, files := disk, disk.files;
      ghost var blobs, dead := AllBlobFiles(start), AllDead(view, start, extra);
      ghost var seen: set<Key>, t := {}, Tally({}, {}, {});
      assert files - {} == files && BytesOf(files, {}) == {};
      for i := 0 to |repos|
        invariant forall k :: k in seen <==> k in files && k.0 in repos[..i]
        invariant disk == start.(files := disk.files)
        invariant SweepInv(files, blobs, dead, dryRun, stuck, seen, t, disk.files, report)
        invariant report.reposScanned == before.reposScanned && report.reachableBlobs == before.reachableBlobs
      {
        var repo := repos[i];
        assert repo in repos && repo !in repos[..i] && repos[..i + 1] == repos[..i] + [repo];
        JudgedByMarks(view, start, extra, repo, marks);
        report, seen, t := SweepRepo(repo, marks, dryRun, stuck, report, files, blobs, dead, seen, t);
      }
      assert repos[..|repos|] == repos;
      SweepDone(files, blobs, dead, dryRun, stuck, seen, t, disk.files, report);
    }

    /** A full pass (gc.rs:68-144). `stuck` are the files whose removal fails. */
    method Run(extra: set<Digest>, dryRun: bool, stuck: set<Key>) returns (report: Option<Report>)
      requires IsTree(disk.folders)
      modifies this
      ensures report.None? <==> exists p :: p in Scanned(old(disk)) && SidecarOf(old(disk), p).Broken?
      ensures report.None? ==> disk == old(disk)
      ensures report.Some? ==>
                var dead := AllDead(view, old(disk), extra);
                var gone := Gone(dead, dryRun, stuck);
                && disk == Collected(view, old(disk), extra, dryRun, stuck)
                && report.value == Report(|Scanned(old(disk))|,
                                          |AllMarks(view, old(disk), extra)|,
                                          |AllBlobFiles(old(disk))|,
                                          |gone|,
                                          Saturate(TotalSize(old(disk.files), gone)),
                                          |Failures(dead, dryRun, stuck)|)
    {
      var repos := DiscoverRepos(disk.folders, disk.unreadable);
      assert forall p :: p in repos <==> p in Scanned(disk);
      DistinctCount(repos, Scanned(disk));
      var marks := Mark(repos, extra);
      if marks.None? {
        return None;
      }
      AllMarksExact(view, disk, extra, marks.value);
      var r := Sweep(repos, marks.value, extra, dryRun, stuck, Report(|repos|, |marks.value|, 0, 0, 0, 0));
      report := Some(r);
    }

    /** `disk_usage` (gc.rs:245-262). */
    method DiskUsage() returns (total: nat)
      requires IsTree(disk.folders)
      ensures total == Saturate(TotalSize(disk.files, AllFiles(disk)))
    {
      total := 0;
      var repos := DiscoverRepos(disk.folders, disk.unreadable);
      ghost var seen: set<Key> := {};
      assert BytesOf(disk.files, {}) == {};
      for i := 0 to |repos|
        invariant forall k :: k in seen <==> k in AllFiles(disk) && k.0 in repos[..i]
        invariant seen <= disk.files.Keys && total == Saturate(TotalSize(disk.files, seen))
      {
        var repo := repos[i];
        assert repo in repos && repo !in repos[..i] && repos[..i + 1] == repos[..i] + [repo];
        var listing := set k | k in disk.files && k.0 == repo;
        while listing != {}
          invariant listing <= disk.files.Keys && forall k :: k in listing ==> k.0 == repo && k !in seen
          invariant forall k :: k in seen ==> k in AllFiles(disk) && k.0 in repos[..i + 1]
          invariant forall k :: k in AllFiles(disk) && k.0 in repos[..i + 1] ==> k in seen || k in listing
          invariant seen <= disk.files.Keys && total == Saturate(TotalSize(disk.files, seen))
        {
          var k :| k in listing;
          listing := listing - {k};
          if disk.files[k].File? {
            SizeOfMore(disk.files, seen, k);
            seen := seen + {k};
            total := SaturatingAdd(total, Size(disk.files[k]));
          }
        }
      }
      assert repos[..|repos|] == repos;
      assert seen == AllFiles(disk);
    }
  }

  ghost function AllMarks(view: Viewer, disk: Disk, extra: set<Digest>): set<(Repo, Digest)> {
    set p, d | p in Scanned(disk) && d in Marked(view, disk, extra, p) :: (p, d)
  }

  lemma AllMarksExact(view: Viewer, disk: Disk, extra: set<Digest>, marks: set<(Repo, Digest)>)
    requires forall p :: Of(marks, p) == if p in Scanned(disk) then Marked(view, disk, extra, p) else {}
    ensures marks == AllMarks(view, disk, extra)
  {
    OfExact(marks);
    forall m ensures m in marks <==> m in AllMarks(view, disk, extra) {
      assert m == (m.0, m.1);
      assert (m.0, m.1) in marks <==> m.1 in Of(marks, m.0);
    }
  }

  lemma {:induction false} DistinctCount(order: seq<Repo>, s: set<Repo>)
    requires NoDuplicates(order) && forall p :: p in order <==> p in s
    ensures |order| == |s|
    decreases |order|
  {
    if order != [] {
      var last, rest := order[|order| - 1], order[..|order| - 1];
      PopPush(order);
      assert forall i :: 0 <= i < |rest| ==> rest[i] == order[i] && rest[i] != last;
      forall p ensures p in rest <==> p in s - {last} {
        assert p in order <==> p in rest || p == last;
      }
      DistinctCount(rest, s - {last});
    }
  }

  // ----- what a run guarantees -----

  lemma ReadBlobsExact(files: map<Key, Node>, repo: Repo, d: Digest)
    ensures d in ReadBlobs(files, repo) <==> (repo, d.hex) in files && files[(repo, d.hex)].File?
    ensures d in ReadBlobs(files, repo) ==> ReadBlobs(files, repo)[d] == files[(repo, d.hex)].content
  {
    assert d == RawDigest(ALGORITHM, d.hex);
  }

  /** A run never changes what is reachable, not even a run that fails to remove
      some files: whatever is read while marking is kept. */
  lemma MarksAreStable(view: Viewer, disk: Disk, extra: set<Digest>, dryRun: bool, stuck: set<Key>, repo: Repo)
    ensures Marked(view, Collected(view, disk, extra, dryRun, stuck), extra, repo) == Marked(view, disk, extra, repo)
  {
    var after := Collected(view, disk, extra, dryRun, stuck);
    var roots := Roots(SidecarOf(disk, repo), extra);
    forall d | d in Marked(view, disk, extra, repo)
      ensures var b, a := ReadBlobs(disk.files, repo), ReadBlobs(after.files, repo);
              (d in b <==> d in a) && (d in b ==> b[d] == a[d])
    {
      ReadBlobsExact(disk.files, repo, d);
      ReadBlobsExact(after.files, repo, d);
      ParseDisplay(d);
      assert (repo, d.hex) !in AllDead(view, disk, extra);
    }
    ReachableDependsOnReachable(view, ReadBlobs(disk.files, repo), ReadBlobs(after.files, repo), roots);
  }

  /** A live run without delete errors leaves exactly the reachable blob files in
      the scanned repositories, with their content, and touches nothing else. */
  lemma SweepIsExact(view: Viewer, disk: Disk, extra: set<Digest>, k: Key)
    ensures var after := Collected(view, disk, extra, false, {}).files;
            && (k in after ==> k in disk.files && after[k] == disk.files[k])
            && (k.0 in Scanned(disk) ==>
                  (IsBlobFile(after, k) <==>
                     IsBlobFile(disk.files, k) && OfFileName(k.1).value in Marked(view, disk, extra, k.0)))
            && (k in disk.files && (k.0 !in Scanned(disk) || !IsBlobFile(disk.files, k)) ==> k in after)
  {
  }

  /** A root of the repository: an extra one, or a digest that a tag of its sidecar
      names. */
  ghost predicate IsRoot(disk: Disk, extra: set<Digest>, repo: Repo, d: Digest) {
    || d in extra
    || (&& repo in disk.sidecars && disk.sidecars[repo].Tags?
        && exists t :: t in disk.sidecars[repo].entries && Parse(disk.sidecars[repo].entries[t]) == Some(d))
  }

  lemma RootsExact(disk: Disk, extra: set<Digest>, repo: Repo, d: Digest)
    ensures d in Roots(SidecarOf(disk, repo), extra) <==> IsRoot(disk, extra, repo, d)
  {
    var s := SidecarOf(disk, repo);
    if s.Tags? {
      forall t | t in s.entries && Parse(s.entries[t]) == Some(d) ensures t in RootTags(s) {
      }
    }
  }

  /** Some path of config, layer and manifest links leads to `d` from a root. */
  ghost predicate Needed(view: Viewer, disk: Disk, extra: set<Digest>, repo: Repo, d: Digest) {
    exists path :: && IsPath(view, ReadBlobs(disk.files, repo), path)
                   && IsRoot(disk, extra, repo, path[0]) && path[|path| - 1] == d
  }

  lemma MarkedIffNeeded(view: Viewer, disk: Disk, extra: set<Digest>, repo: Repo, d: Digest)
    ensures d in Marked(view, disk, extra, repo) <==> Needed(view, disk, extra, repo, d)
  {
    var blobs, roots := ReadBlobs(disk.files, repo), Roots(SidecarOf(disk, repo), extra);
    ReachableIffPath(view, blobs, roots, d);
    forall path | IsPath(view, blobs, path)
      ensures path[0] in roots <==> IsRoot(disk, extra, repo, path[0])
    {
      RootsExact(disk, extra, repo, path[0]);
    }
    if HasPath(view, blobs, roots, d) {
      var path :| Leads(view, blobs, roots, path, d);
      assert Needed(view, disk, extra, repo, d);
    }
    if Needed(view, disk, extra, repo, d) {
      var path :| IsPath(view, blobs, path) && IsRoot(disk, extra, repo, path[0]) && path[|path| - 1] == d;
      assert Leads(view, blobs, roots, path, d);
    }
  }

  /** What a blob is needed for, followed link by link from the tags and the extra
      roots, decides its fate: a live run keeps it if it is needed, if the repository
      is not scanned, or if it cannot be removed, and only then. */
  lemma BlobSurvivesIff(view: Viewer, disk: Disk, extra: set<Digest>, stuck: set<Key>, repo: Repo, d: Digest)
    requires (repo, d.hex) in disk.files && disk.files[(repo, d.hex)].File?
    ensures var after := Collected(view, disk, extra, false, stuck).files;
            && ((repo, d.hex) in after <==>
                Needed(view, disk, extra, repo, d) || repo !in Scanned(disk) || (repo, d.hex) in stuck)
            && ((repo, d.hex) in after ==> after[(repo, d.hex)] == disk.files[(repo, d.hex)])
  {
    ParseDisplay(d);
    MarkedIffNeeded(view, disk, extra, repo, d);
    assert IsBlobFile(disk.files, (repo, d.hex));
  }

  /** In particular, what a manifest that is needed names, as its config, as a layer
      or as a child, is kept. */
  lemma NamedIsKept(view: Viewer, disk: Disk, extra: set<Digest>, dryRun: bool, stuck: set<Key>, repo: Repo,
                    d: Digest, e: Digest, v: ManifestView, ref: string)
    requires Needed(view, disk, extra, repo, d) && (repo, d.hex) in disk.files
    requires disk.files[(repo, d.hex)].File? && view(disk.files[(repo, d.hex)].content) == Some(v)
    requires (v.config == Some(ref) || ref in v.layers || ref in v.manifests) && Parse(ref) == Some(e)
    requires (repo, e.hex) in disk.files
    ensures (repo, e.hex) in Collected(view, disk, extra, dryRun, stuck).files
  {
    var blobs, roots := ReadBlobs(disk.files, repo), Roots(SidecarOf(disk, repo), extra);
    ReadBlobsExact(disk.files, repo, d);
    assert Names(view, blobs, d, e);
    MarkedIffNeeded(view, disk, extra, repo, d);
    ChildrenAreNamed(view, blobs, d, e);
    assert e in Marked(view, disk, extra, repo);
    ParseDisplay(e);
  }

  /** An immediate second run marks the same set and finds nothing to remove but
      what the first one failed to remove. */
  lemma SecondRunIsIdle(view: Viewer, disk: Disk, extra: set<Digest>, stuck: set<Key>)
    ensures var after := Collected(view, disk, extra, false, stuck);
            && AllMarks(view, after, extra) == AllMarks(view, disk, extra)
            && AllDead(view, after, extra) == AllDead(view, disk, extra) * stuck
            && Collected(view, after, extra, false, stuck) == after
  {
    var after := Collected(view, disk, extra, false, stuck);
    forall p ensures Marked(view, after, extra, p) == Marked(view, disk, extra, p) {
      MarksAreStable(view, disk, extra, false, stuck, p);
    }
    assert Scanned(after) == Scanned(disk);
    assert AllDead(view, after, extra) == AllDead(view, disk, extra) * stuck;
    assert after.files - ((AllDead(view, disk, extra) * stuck) - stuck) == after.files;
  }

  /** Bytes are conserved: what was used before is still used or was freed. */
  lemma RunConservesBytes(view: Viewer, disk: Disk, extra: set<Digest>, dryRun: bool, stuck: set<Key>)
    ensures var after := Collected(view, disk, extra, dryRun, stuck);
            var gone := Gone(AllDead(view, disk, extra), dryRun, stuck);
            TotalSize(disk.files, AllFiles(disk)) ==
            TotalSize(after.files, AllFiles(after)) + TotalSize(disk.files, gone)
  {
    var after := Collected(view, disk, extra, dryRun, stuck);
    var gone := Gone(AllDead(view, disk, extra), dryRun, stuck);
    assert Scanned(after) == Scanned(disk);
    assert AllFiles(disk) == AllFiles(after) + gone;
    SizeOfUnion(disk.files, AllFiles(after), gone);
    SizeFrame(disk.files, after.files, AllFiles(after));
  }

  /** So when the sizes fit into 64 bits, the usage reported before a run is the
      usage reported after it plus the bytes that the run reports as freed. */
  lemma ReportsBalance(view: Viewer, disk: Disk, extra: set<Digest>, dryRun: bool, stuck: set<Key>)
    requires TotalSize(disk.files, AllFiles(disk)) < 0x1_0000_0000_0000_0000
    ensures var after := Collected(view, disk, extra, dryRun, stuck);
            var freed := Saturate(TotalSize(disk.files, Gone(AllDead(view, disk, extra), dryRun, stuck)));
            && Saturate(TotalSize(disk.files, AllFiles(disk))) == TotalSize(disk.files, AllFiles(disk))
            && Saturate(TotalSize(after.files, AllFiles(after))) == TotalSize(after.files, AllFiles(after))
            && TotalSize(disk.files, AllFiles(disk)) == TotalSize(after.files, AllFiles(after)) + freed
  {
    RunConservesBytes(view, disk, extra, dryRun, stuck);
  }

  /** A dry run changes nothing. */
  lemma DryRunKeepsDisk(view: Viewer, disk: Disk, extra: set<Digest>, stuck: set<Key>)
    ensures Collected(view, disk, extra, true, stuck) == disk
  {
    var gone := Gone(AllDead(view, disk, extra), true, stuck);
    assert disk.files - gone == disk.files;
  }

  /** Every blob file is kept as reachable, removed, or failed to be removed. */
  lemma RunCountsFiles(view: Viewer, disk: Disk, extra: set<Digest>, dryRun: bool, stuck: set<Key>)
    ensures var dead := AllDead(view, disk, extra);
            && |AllBlobFiles(disk)| == |AllBlobFiles(disk) - dead| + |dead|
            && (!dryRun ==> |dead| == |Gone(dead, dryRun, stuck)| + |Failures(dead, dryRun, stuck)|)
  {
    DeadAreBlobs(view, disk, extra);
    CountRun(AllBlobFiles(disk), AllDead(view, disk, extra), dryRun, stuck);
  }

  lemma DeadAreBlobs(view: Viewer, disk: Disk, extra: set<Digest>)
    ensures AllDead(view, disk, extra) <= AllBlobFiles(disk)
  {
  }

  lemma CountRun(all: set<Key>, dead: set<Key>, dryRun: bool, stuck: set<Key>)
    requires dead <= all
    ensures |all| == |all - dead| + |dead|
    ensures !dryRun ==> |dead| == |Gone(dead, dryRun, stuck)| + |Failures(dead, dryRun, stuck)|
  {
    CountParts(all, dead);
    CountParts(dead, stuck);
  }

  lemma CountParts<T>(s: set<T>, t: set<T>)
    ensures |s| == |s - t| + |s * t|
    ensures t <= s ==> |s| == |s - t| + |t|
  {
    assert s == (s - t) + (s * t);
    if t <= s {
      assert s * t == t;
    }
  }

}
