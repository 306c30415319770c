/** Tags resolved upstream, with a freshness window
    (crates/quill-registry/src/state.rs, `UpstreamTagCache`). Persisting is
    modelled sequentially: the source takes no lock for it. */
module UpstreamTags {

  import opened Base
  import opened Digests
  import opened LocalTags
  import BlobStore

  datatype Cached = Cached(digest: Digest, fetchedAt: nat)

  datatype Freshness = Fresh(digest: Digest) | Stale(digest: Digest) | Miss

  datatype Cache = Cache(entries: map<TagKey, Cached>, disk: map<Repo, TagMap>)

  function Lookup(c: Cache, repo: Repo, tag: string, now: nat, ttl: nat): Freshness {
    if (repo, tag) !in c.entries then Miss
    else
      var e := c.entries[(repo, tag)];
      if BlobStore.Elapsed(now, e.fetchedAt) < ttl then Fresh(e.digest) else Stale(e.digest)
  }

  /** The digests of a repository as `persist_repo` writes them. */
  function Snapshot(entries: map<TagKey, Cached>, repo: Repo): TagMap {
    map k | k in entries && k.0 == repo :: k.1 := Display(entries[k].digest)
  }

  /** `insert`: writes the file of the repository; a failed write is ignored. */
  function Insert(c: Cache, repo: Repo, tag: string, d: Digest, now: nat, writeOk: bool): Cache {
    var entries := c.entries[(repo, tag) := Cached(d, now)];
    Cache(entries, if writeOk then c.disk[repo := Snapshot(entries, repo)] else c.disk)
  }

  /** `touch`: confirms an entry without changing its digest; nothing is written. */
  function Touch(c: Cache, repo: Repo, tag: string, now: nat): Cache {
    var k := (repo, tag);
    if k in c.entries then c.(entries := c.entries[k := c.entries[k].(fetchedAt := now)]) else c
  }

  /** `after` is `before` overridden by what `tags` say about the tags in `done`,
      where that is a digest, dated now. */
  ghost predicate Merged(after: map<TagKey, Cached>, before: map<TagKey, Cached>, tags: TagMap, done: set<string>,
                         repo: Repo, now: nat)
    requires done <= tags.Keys
  {
    forall k: TagKey ::
      if k.0 == repo && k.1 in done && Parse(tags[k.1]).Some?
      then k in after && after[k] == Cached(Parse(tags[k.1]).value, now)
      else (k in after <==> k in before) && (k in before ==> after[k] == before[k])
  }

  /** The cache after a restart: entries that name a digest come back, dated now. */
  function ReloadCache(disk: map<Repo, TagMap>, now: nat): Cache {
    Cache(map k | k in FoundTags(disk) && Parse(disk[k.0][k.1]).Some? :: Cached(Parse(disk[k.0][k.1]).value, now), disk)
  }

  class UpstreamTagCache {
    const ttl: nat
    var cache: Cache

    constructor (ttl: nat, disk: map<Repo, TagMap>)
      ensures this.ttl == ttl && cache == Cache(map[], disk)
    {
      this.ttl := ttl;
      cache := Cache(map[], disk);
    }

    /** `load_repo`: entries that name no digest are passed over. */
    method Load(repo: Repo, now: nat)
      modifies this
      ensures cache.disk == old(cache.disk)
      ensures var found := DiskTags(cache.disk, repo);
              Merged(cache.entries, old(cache.entries), found, found.Keys, repo, now)
    {
      var found := DiskTags(cache.disk, repo);
      var rest := found.Keys;
      while rest != {}
        invariant rest <= found.Keys && cache.disk == old(cache.disk)
        invariant Merged(cache.entries, old(cache.entries), found, found.Keys - rest, repo, now)
      {
        var tag :| tag in rest;
        var d := Parse(found[tag]);
        if d.Some? {
          cache := cache.(entries := cache.entries[(repo, tag) := Cached(d.value, now)]);
        }
        rest := rest - {tag};
      }
    }

    method LookupTag(repo: Repo, tag: string, now: nat) returns (f: Freshness)
      ensures f == Lookup(cache, repo, tag, now, ttl)
      ensures f.Fresh? <==>
              (repo, tag) in cache.entries && BlobStore.Elapsed(now, cache.entries[(repo, tag)].fetchedAt) < ttl
    {
      if (repo, tag) !in cache.entries {
        return Miss;
      }
      var e := cache.entries[(repo, tag)];
      if BlobStore.Elapsed(now, e.fetchedAt) < ttl {
        f := Fresh(e.digest);
      } else {
        f := Stale(e.digest);
      }
    }

    method InsertTag(repo: Repo, tag: string, d: Digest, now: nat, writeOk: bool)
      modifies this
      ensures cache == Insert(old(cache), repo, tag, d, now, writeOk)
      ensures Lookup(cache, repo, tag, now, ttl) == if ttl > 0 then Fresh(d) else Stale(d)
    {
      cache := cache.(entries := cache.entries[(repo, tag) := Cached(d, now)]);
      var snapshot := Snapshot(cache.entries, repo);
      if writeOk {
        cache := cache.(disk := cache.disk[repo := snapshot]);
      }
    }

    method TouchTag(repo: Repo, tag: string, now: nat)
      modifies this
      ensures cache == Touch(old(cache), repo, tag, now)
    {
      var k := (repo, tag);
      if k in cache.entries {
        cache := cache.(entries := cache.entries[k := cache.entries[k].(fetchedAt := now)]);
      }
    }
  }

}
