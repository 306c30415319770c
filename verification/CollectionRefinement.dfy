/** The collector that walks directories does to the registry what the registry's
    own state machine says garbage collection does. */
module CollectionRefinement {

  import opened Base
  import opened Digests
  import opened Reachability
  import opened BlobStore
  import opened LocalTags
  import opened Registry
  import Gc = GarbageCollection

  /** The directories hold the blobs of the state under their hex names, and the
      sidecars hold its tags. Directories may hold any other files besides. */
  ghost predicate Represents(disk: Gc.Disk, s: State) {
    && (forall repo, d: Digest :: (repo, d) in s.store.blobs <==>
          (repo, d.hex) in disk.files && disk.files[(repo, d.hex)].File?)
    && (forall repo, d: Digest :: (repo, d) in s.store.blobs ==>
          s.store.blobs[(repo, d)] == disk.files[(repo, d.hex)].content)
    && (forall repo :: Gc.SidecarOf(disk, repo) ==
          if repo in s.tags.disk then Gc.Tags(s.tags.disk[repo]) else Gc.Missing)
  }

  lemma SameGraph(disk: Gc.Disk, s: State, repo: Repo)
    requires Represents(disk, s)
    ensures Gc.ReadBlobs(disk.files, repo) == BlobsOf(s.store.blobs, repo)
  {
    var a, b := Gc.ReadBlobs(disk.files, repo), BlobsOf(s.store.blobs, repo);
    forall d: Digest ensures (d in a <==> d in b) && (d in a ==> a[d] == b[d]) {
      Gc.ReadBlobsExact(disk.files, repo, d);
      assert d in b <==> (repo, d) in s.store.blobs;
    }
    assert a.Keys == b.Keys;
  }

  lemma SameRoots(tags: TagMap, extra: set<Digest>)
    ensures Gc.Roots(Gc.Tags(tags), extra) == TagRoots(tags, extra)
    ensures Gc.Roots(Gc.Missing, extra) == TagRoots(map[], extra)
  {
    var a, b := Gc.Roots(Gc.Tags(tags), extra), TagRoots(tags, extra);
    forall t | t in tags && Parse(tags[t]).Some? ensures t in Gc.RootTags(Gc.Tags(tags)) {
    }
  }

  lemma SameMarks(p: Params, disk: Gc.Disk, s: State, extra: set<Digest>, repo: Repo)
    requires Represents(disk, s)
    ensures Gc.Marked(p.view, disk, extra, repo) == Keep(p, s, repo, extra)
  {
    SameGraph(disk, s, repo);
    SameRoots(DiskTags(s.tags.disk, repo), extra);
  }

  /** The blobs whose files cannot be removed. */
  function StuckBlobs(s: State, stuck: set<Gc.Key>): set<BlobKey> {
    set k | k in s.store.blobs && (k.0, k.1.hex) in stuck
  }

  /** Collecting on the directories and collecting in the state agree, for every
      disk, every set of extra roots and every pattern of delete errors. */
  lemma CollectionAgrees(p: Params, disk: Gc.Disk, s: State, extra: set<Digest>, dryRun: bool, stuck: set<Gc.Key>)
    requires Represents(disk, s)
    ensures Represents(Gc.Collected(p.view, disk, extra, dryRun, stuck),
                       Collect(p, s, Gc.Scanned(disk), extra, dryRun, StuckBlobs(s, stuck)))
  {
    var after := Gc.Collected(p.view, disk, extra, dryRun, stuck);
    var t := Collect(p, s, Gc.Scanned(disk), extra, dryRun, StuckBlobs(s, stuck));
    forall repo, d: Digest
      ensures (repo, d) in t.store.blobs <==> (repo, d.hex) in after.files && after.files[(repo, d.hex)].File?
      ensures (repo, d) in t.store.blobs ==> t.store.blobs[(repo, d)] == after.files[(repo, d.hex)].content
    {
      BlobAgrees(p, disk, s, extra, dryRun, stuck, repo, d);
    }
    assert forall repo :: Gc.SidecarOf(after, repo) == Gc.SidecarOf(disk, repo);
  }

  lemma BlobAgrees(p: Params, disk: Gc.Disk, s: State, extra: set<Digest>, dryRun: bool, stuck: set<Gc.Key>,
                   repo: Repo, d: Digest)
    requires Represents(disk, s)
    ensures var after := Gc.Collected(p.view, disk, extra, dryRun, stuck).files;
            var t := Collect(p, s, Gc.Scanned(disk), extra, dryRun, StuckBlobs(s, stuck)).store.blobs;
            && ((repo, d) in t <==> (repo, d.hex) in after && after[(repo, d.hex)].File?)
            && ((repo, d) in t ==> t[(repo, d)] == after[(repo, d.hex)].content)
  {
    if (repo, d) in s.store.blobs {
      SameMarks(p, disk, s, extra, repo);
      BlobFileFate(p.view, disk, extra, dryRun, stuck, repo, d);
    }
  }

  lemma BlobFileFate(view: Viewer, disk: Gc.Disk, extra: set<Digest>, dryRun: bool, stuck: set<Gc.Key>, repo: Repo,
                     d: Digest)
    requires (repo, d.hex) in disk.files && disk.files[(repo, d.hex)].File?
    ensures var after := Gc.Collected(view, disk, extra, dryRun, stuck);
            (repo, d.hex) in after.files <==>
            dryRun || repo !in Gc.Scanned(disk) || d in Gc.Marked(view, disk, extra, repo) || (repo, d.hex) in stuck
  {
    ParseDisplay(d);
    assert Gc.IsBlobFile(disk.files, (repo, d.hex));
  }

}
