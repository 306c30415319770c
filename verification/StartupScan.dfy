/** Startup: the scans that read back the tags of every repository they find below
    the cache root (crates/quill-server/src/main.rs:300-362). */
module StartupScan {

  import opened Base
  import opened Digests
  import opened TreeWalk
  import opened LocalTags
  import UpstreamTags

  /** The scan visits `p`: no directory on the way has a name it passes over, and
      none above it is unreadable. */
  ghost predicate Visited(folders: set<Repo>, unreadable: set<Repo>, p: Repo) {
    p in folders && Reloadable(p) && forall k :: 0 <= k < |p| ==> p[..k] !in unreadable
  }

  /** The subdirectories it goes on to. */
  predicate IsNext(folders: set<Repo>, unreadable: set<Repo>, dir: Repo, c: Repo) {
    && dir !in unreadable && c in folders && c != [] && Parent(c) == dir
    && c[|c| - 1] != "blobs" && c[|c| - 1] != "_uploads"
  }

  ghost function Entering(folders: set<Repo>, unreadable: set<Repo>): Repo -> bool {
    p => Visited(folders, unreadable, p)
  }

  ghost function Pushing(folders: set<Repo>, unreadable: set<Repo>): (Repo, Repo) -> bool {
    (dir, c) => IsNext(folders, unreadable, dir, c)
  }

  lemma NextIsVisited(folders: set<Repo>, unreadable: set<Repo>, dir: Repo, c: Repo)
    requires Visited(folders, unreadable, dir) && IsNext(folders, unreadable, dir, c)
    ensures Visited(folders, unreadable, c)
  {
    assert c == dir + [c[|c| - 1]];
    forall k | 0 <= k < |c| ensures c[..k] !in unreadable {
      if k < |dir| { assert c[..k] == dir[..k]; } else { assert c[..k] == dir; }
    }
  }

  lemma NextOnTheWay(folders: set<Repo>, unreadable: set<Repo>, dir: Repo, p: Repo)
    requires IsTree(folders) && Visited(folders, unreadable, p) && dir < p
    ensures IsNext(folders, unreadable, dir, p[..|dir| + 1])
  {
    RootAbove(folders, p);
    assert p[..|dir|] == dir;
    assert p[|dir|] in p;
    assert Parent(p[..|dir| + 1]) == dir;
  }

  lemma ScanIsWalk(folders: set<Repo>, unreadable: set<Repo>)
    requires IsTree(folders)
    ensures IsWalk(folders, Entering(folders, unreadable), Pushing(folders, unreadable))
  {
    forall p | Visited(folders, unreadable, p) ensures [] in folders {
      RootAbove(folders, p);
      assert p[..0] == [];
    }
    forall dir, c | Visited(folders, unreadable, dir) && IsNext(folders, unreadable, dir, c)
      ensures Visited(folders, unreadable, c)
    {
      NextIsVisited(folders, unreadable, dir, c);
    }
    forall dir, p | Visited(folders, unreadable, p) && dir < p
      ensures IsNext(folders, unreadable, dir, p[..|dir| + 1])
    {
      NextOnTheWay(folders, unreadable, dir, p);
    }
  }

  ghost predicate ScanInv(folders: set<Repo>, unreadable: set<Repo>, stack: seq<Repo>, seen: set<Repo>) {
    WalkInv(folders, Entering(folders, unreadable), stack, seen)
  }

  lemma ScanStarts(folders: set<Repo>, unreadable: set<Repo>)
    requires IsTree(folders)
    ensures ScanInv(folders, unreadable, StartOf(folders), {})
  {
    ScanIsWalk(folders, unreadable);
    WalkStarts(folders, Entering(folders, unreadable), Pushing(folders, unreadable));
  }

  /** Takes the next directory off the stack and pushes its subdirectories. */
  method VisitNext(folders: set<Repo>, unreadable: set<Repo>, stack: seq<Repo>, ghost seen: set<Repo>)
    returns (dir: Repo, rest: seq<Repo>)
    requires IsTree(folders) && ScanInv(folders, unreadable, stack, seen) && stack != []
    ensures dir == stack[|stack| - 1] && dir !in seen && dir in folders
    ensures ScanInv(folders, unreadable, rest, seen + {dir})
  {
    dir := stack[|stack| - 1];
    PopPush(stack);
    rest := stack[..|stack| - 1];
    var subdirs := Listed(set c | c in folders && IsNext(folders, unreadable, dir, c));
    ScanIsWalk(folders, unreadable);
    WalkStep(folders, Entering(folders, unreadable), Pushing(folders, unreadable), rest, seen, dir, subdirs);
    rest := rest + subdirs;
  }

  /** The directories whose files it reads. */
  ghost function LoadedFrom(folders: set<Repo>, unreadable: set<Repo>): set<Repo> {
    set p | p in folders && Visited(folders, unreadable, p) && p !in unreadable
  }

  lemma ScanDone(folders: set<Repo>, unreadable: set<Repo>, seen: set<Repo>, loaded: set<Repo>)
    requires ScanInv(folders, unreadable, [], seen) && loaded == seen - unreadable
    ensures loaded == LoadedFrom(folders, unreadable)
  {
    WalkEnds(folders, Entering(folders, unreadable), seen);
    assert forall p :: p in seen <==> Visited(folders, unreadable, p);
  }

  /** `mem` holds what the sidecars in `dirs` hold, and nothing else. */
  ghost predicate HoldsTags(mem: map<TagKey, string>, disk: map<Repo, TagMap>, dirs: set<Repo>) {
    forall k: TagKey ::
      && (k in mem <==> k.0 in dirs && k.0 in disk && k.1 in disk[k.0])
      && (k in mem ==> mem[k] == disk[k.0][k.1])
  }

  lemma ReloadExact(disk: map<Repo, TagMap>, k: TagKey)
    ensures var mem := ReloadTags(disk).mem;
            && (k in mem <==> k.0 in disk && k.1 in disk[k.0] && Reloadable(k.0))
            && (k in mem ==> mem[k] == disk[k.0][k.1])
  {
    assert k == (k.0, k.1);
  }

  lemma LoadOneRepo(t: Tags, dirs: set<Repo>, dir: Repo)
    requires HoldsTags(t.mem, t.disk, dirs)
    ensures HoldsTags(LoadRepo(t, dir).mem, t.disk, dirs + {dir})
  {
    var mem := LoadRepo(t, dir).mem;
    forall k: TagKey
      ensures k in mem <==> k.0 in dirs + {dir} && k.0 in t.disk && k.1 in t.disk[k.0]
      ensures k in mem ==> mem[k] == t.disk[k.0][k.1]
    {
      QualifiedExact(DiskTags(t.disk, dir), dir, k);
    }
  }

  /** In a tree that can be read, exactly the sidecars of reloadable repositories. */
  lemma ReadableTree(mem: map<TagKey, string>, disk: map<Repo, TagMap>, folders: set<Repo>, seen: set<Repo>)
    requires disk.Keys <= folders && seen == LoadedFrom(folders, {})
    requires HoldsTags(mem, disk, seen)
    ensures mem == ReloadTags(disk).mem
  {
    var other := ReloadTags(disk).mem;
    forall k: TagKey ensures (k in mem <==> k in other) && (k in mem ==> mem[k] == other[k]) {
      ReloadExact(disk, k);
    }
    assert mem.Keys == other.Keys;
  }

  method LoadIfReadable(store: LocalTagsStore, dir: Repo, unreadable: set<Repo>, ghost loaded: set<Repo>)
    returns (ghost after: set<Repo>)
    requires HoldsTags(store.tags.mem, store.tags.disk, loaded)
    modifies store
    ensures store.tags.disk == old(store.tags.disk) && HoldsTags(store.tags.mem, store.tags.disk, after)
    ensures after == if dir in unreadable then loaded else loaded + {dir}
  {
    after := loaded;
    if dir !in unreadable {
      LoadOneRepo(store.tags, loaded, dir);
      store.Load(dir);
      after := loaded + {dir};
    }
  }

  /** The worklist of `load_existing_local_tags`. */
  method ScanLocalTags(store: LocalTagsStore, folders: set<Repo>, unreadable: set<Repo>)
    requires IsTree(folders) && store.tags.disk.Keys <= folders && store.tags.mem == map[]
    modifies store
    ensures store.tags.disk == old(store.tags.disk)
    ensures HoldsTags(store.tags.mem, store.tags.disk, LoadedFrom(folders, unreadable))
  {
    ghost var disk := store.tags.disk;
    var stack := StartOf(folders);
    ghost var seen: set<Repo>, loaded: set<Repo> := {}, {};
    ScanStarts(folders, unreadable);
    while stack != []
      invariant ScanInv(folders, unreadable, stack, seen) && loaded == seen - unreadable
      invariant store.tags.disk == disk && HoldsTags(store.tags.mem, disk, loaded)
      decreases folders - seen
    {
      var dir;
      dir, stack := VisitNext(folders, unreadable, stack, seen);
      loaded := LoadIfReadable(store, dir, unreadable, loaded);
      seen := seen + {dir};
    }
    ScanDone(folders, unreadable, seen, loaded);
  }

  /** `load_existing_local_tags`: the tags in memory are those of all sidecars in
      directories that it visits and can read; in a tree it can read, those of
      exactly the repositories that have no component it passes over. */
  method LoadExistingLocalTags(store: LocalTagsStore, folders: set<Repo>, unreadable: set<Repo>)
    requires IsTree(folders) && store.tags.disk.Keys <= folders && store.tags.mem == map[]
    modifies store
    ensures store.tags.disk == old(store.tags.disk)
    ensures HoldsTags(store.tags.mem, store.tags.disk, LoadedFrom(folders, unreadable))
    ensures unreadable == {} ==> store.tags == ReloadTags(old(store.tags.disk))
  {
    ScanLocalTags(store, folders, unreadable);
    if unreadable == {} {
      ReadableTree(store.tags.mem, store.tags.disk, folders, LoadedFrom(folders, unreadable));
    }
  }

  // ----- upstream tags -----

  /** `entries` holds what the files in `dirs` say, dated now, where that is a digest. */
  ghost predicate HoldsEntries(entries: map<TagKey, UpstreamTags.Cached>, disk: map<Repo, TagMap>, dirs: set<Repo>,
                               now: nat) {
    forall k: TagKey ::
      && (k in entries <==> k.0 in dirs && k.0 in disk && k.1 in disk[k.0] && Parse(disk[k.0][k.1]).Some?)
      && (k in entries ==> entries[k] == UpstreamTags.Cached(Parse(disk[k.0][k.1]).value, now))
  }

  lemma ReloadCacheExact(disk: map<Repo, TagMap>, now: nat, k: TagKey)
    ensures var entries := UpstreamTags.ReloadCache(disk, now).entries;
            && (k in entries <==> k.0 in disk && k.1 in disk[k.0] && Reloadable(k.0) && Parse(disk[k.0][k.1]).Some?)
            && (k in entries ==> entries[k] == UpstreamTags.Cached(Parse(disk[k.0][k.1]).value, now))
  {
    assert k == (k.0, k.1);
  }

  lemma LoadOneCache(entries: map<TagKey, UpstreamTags.Cached>, after: map<TagKey, UpstreamTags.Cached>,
                     disk: map<Repo, TagMap>, dirs: set<Repo>, dir: Repo, now: nat)
    requires HoldsEntries(entries, disk, dirs, now)
    requires var found := DiskTags(disk, dir); UpstreamTags.Merged(after, entries, found, found.Keys, dir, now)
    ensures HoldsEntries(after, disk, dirs + {dir}, now)
  {
    forall k: TagKey
      ensures k in after <==> k.0 in dirs + {dir} && k.0 in disk && k.1 in disk[k.0] && Parse(disk[k.0][k.1]).Some?
      ensures k in after ==> after[k] == UpstreamTags.Cached(Parse(disk[k.0][k.1]).value, now)
    {
      assert k in entries ==> k.0 in disk;
    }
  }

  lemma ReadableCache(entries: map<TagKey, UpstreamTags.Cached>, disk: map<Repo, TagMap>, folders: set<Repo>,
                      seen: set<Repo>, now: nat)
    requires disk.Keys <= folders && seen == LoadedFrom(folders, {})
    requires HoldsEntries(entries, disk, seen, now)
    ensures entries == UpstreamTags.ReloadCache(disk, now).entries
  {
    var other := UpstreamTags.ReloadCache(disk, now).entries;
    forall k: TagKey ensures (k in entries <==> k in other) && (k in entries ==> entries[k] == other[k]) {
      ReloadCacheExact(disk, now, k);
    }
    assert entries.Keys == other.Keys;
  }

  method LoadCacheIfReadable(cache: UpstreamTags.UpstreamTagCache, dir: Repo, unreadable: set<Repo>, now: nat,
                             ghost loaded: set<Repo>)
    returns (ghost after: set<Repo>)
    requires HoldsEntries(cache.cache.entries, cache.cache.disk, loaded, now)
    modifies cache
    ensures cache.cache.disk == old(cache.cache.disk) && HoldsEntries(cache.cache.entries, cache.cache.disk, after, now)
    ensures after == if dir in unreadable then loaded else loaded + {dir}
  {
    after := loaded;
    if dir !in unreadable {
      cache.Load(dir, now);
      LoadOneCache(old(cache.cache.entries), cache.cache.entries, cache.cache.disk, loaded, dir, now);
      after := loaded + {dir};
    }
  }

  /** The worklist of `load_existing_upstream_tags`. */
  method ScanUpstreamTags(cache: UpstreamTags.UpstreamTagCache, folders: set<Repo>, unreadable: set<Repo>,
                                  now: nat)
    requires IsTree(folders) && cache.cache.disk.Keys <= folders && cache.cache.entries == map[]
    modifies cache
    ensures cache.cache.disk == old(cache.cache.disk)
    ensures HoldsEntries(cache.cache.entries, cache.cache.disk,
                         LoadedFrom(folders, unreadable), now)
  {
    ghost var disk := cache.cache.disk;
    var stack := StartOf(folders);
    ghost var seen: set<Repo>, loaded: set<Repo> := {}, {};
    ScanStarts(folders, unreadable);
    while stack != []
      invariant ScanInv(folders, unreadable, stack, seen) && loaded == seen - unreadable
      invariant cache.cache.disk == disk && HoldsEntries(cache.cache.entries, disk, loaded, now)
      decreases folders - seen
    {
      var dir;
      dir, stack := VisitNext(folders, unreadable, stack, seen);
      loaded := LoadCacheIfReadable(cache, dir, unreadable, now, loaded);
      seen := seen + {dir};
    }
    ScanDone(folders, unreadable, seen, loaded);
  }

  /** `load_existing_upstream_tags`, the same for the tags resolved upstream. */
  method LoadExistingUpstreamTags(cache: UpstreamTags.UpstreamTagCache, folders: set<Repo>, unreadable: set<Repo>,
                                  now: nat)
    requires IsTree(folders) && cache.cache.disk.Keys <= folders && cache.cache.entries == map[]
    modifies cache
    ensures cache.cache.disk == old(cache.cache.disk)
    ensures HoldsEntries(cache.cache.entries, cache.cache.disk,
                         LoadedFrom(folders, unreadable), now)
    ensures unreadable == {} ==> cache.cache == UpstreamTags.ReloadCache(old(cache.cache.disk), now)
  {
    ScanUpstreamTags(cache, folders, unreadable, now);
    if unreadable == {} {
      ReadableCache(cache.cache.entries, cache.cache.disk, folders, LoadedFrom(folders, unreadable), now);
    }
  }

}
