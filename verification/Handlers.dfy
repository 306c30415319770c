/** The manifest handlers and the pull-through task as the server runs them, on its
    three stores (crates/quill-registry/src/routes.rs). Each does to the stores,
    step by step, what the registry's state machine says. */
module Handlers {

  import opened Base
  import opened Digests
  import opened Reachability
  import opened BlobStore
  import opened LocalTags
  import UpstreamTags
  import opened Registry
  import PullThrough
  import PullThroughTable
  import PullThroughTasks

  /** Removing one more tag after the others. */
  lemma {:induction false} RemoveEachMore(t: Tags, repo: Repo, order: seq<string>, oks: seq<bool>, tag: string,
                                          ok: bool)
    requires |oks| == |order|
    ensures RemoveEach(t, repo, order + [tag], oks + [ok]) == Remove(RemoveEach(t, repo, order, oks), repo, tag, ok)
    decreases |order|
  {
    if order == [] {
      assert (order + [tag])[1..] == [] && (oks + [ok])[1..] == [];
    } else {
      assert (order + [tag])[1..] == order[1..] + [tag] && (oks + [ok])[1..] == oks[1..] + [ok];
      RemoveEachMore(Remove(t, repo, order[0], oks[0]), repo, order[1..], oks[1..], tag, ok);
    }
  }

  /** The server: its stores, and as history the rest of the registry's state. */
  class RegistryServer {
    const params: Params
    const storage: LocalStorage
    const localTags: LocalTagsStore
    const tagCache: UpstreamTags.UpstreamTagCache
    ghost var rest: State

    constructor (params: Params, storage: LocalStorage, localTags: LocalTagsStore,
                 tagCache: UpstreamTags.UpstreamTagCache,
                 ghost rest: State)
      requires storage.hash == params.hash && storage.ttl == params.metaTtl && tagCache.ttl == params.tagTtl
      ensures Valid() && this.params == params && this.rest == rest
      ensures this.storage == storage && this.localTags == localTags && this.tagCache == tagCache
    {
      this.params := params;
      this.storage := storage;
      this.localTags := localTags;
      this.tagCache := tagCache;
      this.rest := rest;
    }

    ghost predicate Valid() {
      storage.hash == params.hash && storage.ttl == params.metaTtl && tagCache.ttl == params.tagTtl
    }

    ghost function Value(): State
      reads this, storage, localTags, tagCache
    {
      rest.(store := storage.store, tags := localTags.tags, upstream := tagCache.cache)
    }

    /** `check_manifest_blobs_present`: names a reference that is not there, or none. */
    method CheckManifestBlobsPresent(repo: Repo, body: Bytes, now: nat) returns (missing: Option<string>)
      requires Valid() && now == rest.now
      modifies storage
      ensures (Value(), missing.None?) == CheckPresent(params, old(Value()), repo, RequiredBy(params, body))
      ensures missing.Some? ==> missing.value in RequiredBy(params, body)
      ensures storage.store.blobs == old(storage.store.blobs)
    {
      var v := params.view(body);
      if v.None? {
        return None;
      }
      var required := Required(v.value);
      ghost var was := Value();
      for i := 0 to |required|
        invariant storage.store.blobs == old(storage.store.blobs)
        invariant CheckPresent(params, was, repo, required) == CheckPresent(params, Value(), repo, required[i..])
      {
        assert required[i..][1..] == required[i + 1..];
        var d := Parse(required[i]);
        if d.None? {
          return Some(required[i]);
        }
        var m := storage.GetMeta((repo, d.value), now);
        if m.None? {
          return Some(required[i]);
        }
      }
      missing := None;
    }

    /** `put_manifest` */
    method PutManifest(op: Op, now: nat) returns (response: Response)
      requires Valid() && now == rest.now && op.PutManifest?
      modifies storage, localTags
      ensures Result(Value(), response, 0) == DoPut(params, old(Value()), op)
    {
      if |op.body| > MANIFEST_LIMIT {
        return TooLarge;
      }
      var digest := params.hash(op.body);
      var named := Parse(op.reference);
      if named.Some? && named.value != digest {
        return Invalid;
      }
      var missing := CheckManifestBlobsPresent(op.repo, op.body, now);
      if missing.Some? {
        return Invalid;
      }
      var e := storage.PutBlobBuffered((op.repo, digest), op.body, now, op.blobOk);
      if e.Some? {
        return ServerError;
      }
      if named.None? {
        var ok := localTags.SetTag(op.repo, op.reference, digest, op.tagOk);
        if !ok {
          return ServerError;
        }
      }
      response := Created(digest);
    }

    /** The tags of `repo` that point at `d` are removed one by one, in some order
        (routes.rs:765-774). */
    method RemoveTagsOf(repo: Repo, d: Digest, writeOk: string -> bool) returns (order: seq<string>, oks: seq<bool>)
      requires Valid()
      modifies localTags
      ensures |oks| == |order| && forall i :: 0 <= i < |order| ==> oks[i] == writeOk(order[i])
      ensures ListsTagsOf(old(Value()), repo, d, order)
      ensures localTags.tags == RemoveEach(old(localTags.tags), repo, order, oks)
    {
      var tags := RepoTags(localTags.tags.mem, repo);
      var toRemove := set t | t in tags && tags[t] == Display(d);
      ghost var all := toRemove;
      forall t ensures t in all <==> (repo, t) in localTags.tags.mem && localTags.tags.mem[(repo, t)] == Display(d) {
        RepoTagsExact(localTags.tags.mem, repo, t);
      }
      order, oks := [], [];
      while toRemove != {}
        invariant toRemove <= all && NoDuplicates(order)
        invariant forall t :: t in order <==> t in all && t !in toRemove
        invariant |oks| == |order| && forall i :: 0 <= i < |order| ==> oks[i] == writeOk(order[i])
        invariant localTags.tags == RemoveEach(old(localTags.tags), repo, order, oks)
      {
        var t :| t in toRemove;
        toRemove := toRemove - {t};
        RemoveEachMore(old(localTags.tags), repo, order, oks, t, writeOk(t));
        var _ := localTags.RemoveTag(repo, t, writeOk(t));
        order, oks := order + [t], oks + [writeOk(t)];
      }
    }

    /** `delete_manifest` */
    method DeleteManifest(repo: Repo, reference: string, writeOk: string -> bool, blobOk: bool)
      returns (response: Response, order: seq<string>, oks: seq<bool>)
      requires Valid()
      modifies storage, localTags
      ensures var op := Op.DeleteManifest(repo, reference, order, oks, blobOk);
              && Legal(params, old(Value()), op)
              && Result(Value(), response, 0) == DoDelete(old(Value()), op)
    {
      order, oks := [], [];
      var named := Parse(reference);
      if named.None? {
        var removed := localTags.RemoveTag(repo, reference, blobOk);
        response := match removed case None => ServerError case Some(true) => Accepted case Some(false) => Unknown;
        return;
      }
      order, oks := RemoveTagsOf(repo, named.value, writeOk);
      var e := storage.DeleteBlob((repo, named.value), blobOk);
      response := DeleteResponse(e);
    }

    /** `serve_local_manifest` */
    method ServeLocalManifest(repo: Repo, d: Digest, now: nat) returns (response: Response)
      requires Valid() && now == rest.now
      modifies storage
      ensures forall calls :: Result(Value(), response, calls) == ServeLocal(params, old(Value()), repo, d, calls)
    {
      var m := storage.GetMeta((repo, d), now);
      if m.None? {
        return Unknown;
      }
      var bytes := storage.ReadBlob((repo, d));
      response := if bytes.Some? then Served(d, bytes.value) else ServerError;
    }

    /** `fetch_and_serve_upstream_manifest`, if an upstream serves the repository.
        `made` counts the upstream calls made before. */
    method FetchAndServe(op: Op, now: nat, routed: bool, made: nat) returns (response: Response, calls: nat)
      requires Valid() && now == rest.now && op.GetManifest? && routed == rest.routed(op.repo)
      modifies this, storage, tagCache
      ensures Result(Value(), response, calls) == FetchIfRouted(params, old(Value()), op, made)
    {
      if !routed {
        return Unknown, made;
      }
      calls := made + 1;
      if op.answers.get.None? {
        return Unknown, calls;
      }
      var (digest, bytes) := op.answers.get.value;
      var _ := storage.PutBlobBuffered((op.repo, digest), bytes, now, op.blobOk);
      if Parse(op.reference).None? {
        tagCache.InsertTag(op.repo, op.reference, digest, now, op.cacheOk);
        rest := rest.(events := rest.events + {Reported((op.repo, op.reference), digest, now)});
      }
      response := Served(digest, bytes);
    }

    /** The arms of `get_manifest` that look for a local copy before going upstream. */
    method ServeOrFetch(op: Op, d: Digest, now: nat, routed: bool, made: nat) returns (response: Response, calls: nat)
      requires Valid() && now == rest.now && op.GetManifest? && routed == rest.routed(op.repo)
      modifies this, storage, tagCache
      ensures Result(Value(), response, calls) == LocalOrFetch(params, old(Value()), op, d, made)
    {
      var m := storage.GetMeta((op.repo, d), now);
      if m.Some? {
        response := ServeLocalManifest(op.repo, d, now);
        return response, made;
      }
      response, calls := FetchAndServe(op, now, routed, made);
    }

    /** A stale tag with an upstream (routes.rs:360-387). */
    method RevalidateTag(op: Op, d: Digest, now: nat) returns (response: Response, calls: nat)
      requires Valid() && now == rest.now && op.GetManifest? && rest.routed(op.repo)
      modifies this, storage, tagCache
      ensures Result(Value(), response, calls) == Revalidate(params, old(Value()), op, d)
    {
      var current := op.answers.head;
      if current.None? {
        response, calls := ServeOrFetch(op, d, now, true, 1);
        return;
      }
      rest := rest.(events := rest.events + {Reported((op.repo, op.reference), current.value, now)});
      if current.value == d {
        tagCache.TouchTag(op.repo, op.reference, now);
        response, calls := ServeOrFetch(op, d, now, true, 1);
      } else {
        response, calls := FetchAndServe(op, now, true, 1);
      }
    }

    /** `get_manifest` */
    method GetManifest(op: Op, now: nat, routed: bool) returns (response: Response, calls: nat)
      requires Valid() && now == rest.now && op.GetManifest? && routed == rest.routed(op.repo)
      modifies this, storage, tagCache
      ensures Result(Value(), response, calls) == DoGet(params, old(Value()), op)
    {
      var named := Parse(op.reference);
      if named.None? {
        var local := localTags.Get(op.repo, op.reference);
        if local.Some? && Parse(local.value).Some? {
          response := ServeLocalManifest(op.repo, Parse(local.value).value, now);
          return response, 0;
        }
      } else {
        response, calls := ServeOrFetch(op, named.value, now, routed, 0);
        return;
      }
      var state := tagCache.LookupTag(op.repo, op.reference, now);
      if state.Miss? {
        response, calls := FetchAndServe(op, now, routed, 0);
      } else if state.Stale? && routed {
        response, calls := RevalidateTag(op, state.digest, now);
      } else {
        response, calls := ServeOrFetch(op, state.digest, now, routed, 0);
      }
    }

    // ----- the pull-through task -----

    /** The rename of a verified tempfile, as a step of the registry. */
    method PromoteBlob(k: BlobKey, bytes: Bytes, ghost cap: nat, ghost events: seq<PullThrough.Event>)
      requires Valid() && Fetched(params, k.1, bytes, cap, events)
      modifies this, storage
      ensures Value() == Step(params, old(Value()), Promote(k, bytes, cap, events)).state
      ensures (k, |bytes|) in rest.promoting
    {
      storage.store := storage.store.(blobs := storage.store.blobs[k := bytes]);
      rest := rest.(promoting := rest.promoting + multiset{(k, |bytes|)});
    }

    /** The cache update at the end of the task, as a step of the registry. */
    method PopulateCache(k: BlobKey, size: nat, now: nat)
      requires Valid() && now == rest.now && (k, size) in rest.promoting
      modifies this, storage
      ensures Value() == Step(params, old(Value()), Populate(k, size)).state
    {
      storage.store := storage.store.(meta := storage.store.meta[k := BlobMeta(size, now)]);
      rest := rest.(promoting := rest.promoting - multiset{(k, size)});
    }

    /** Both steps, for bytes that a run of their fetch has promoted. */
    method PublishBlob(k: BlobKey, bytes: Bytes, now: nat, ghost cap: nat, ghost events: seq<PullThrough.Event>)
      returns (ghost ops: seq<Op>)
      requires Valid() && now == rest.now && Fetched(params, k.1, bytes, cap, events)
      modifies this, storage
      ensures ops == [Promote(k, bytes, cap, events)] + [Populate(k, |bytes|)]
      ensures Run(params, old(Value()), ops) == Some(Value())
    {
      ops := [Promote(k, bytes, cap, events)] + [Populate(k, |bytes|)];
      ghost var was := Value();
      PromoteBlob(k, bytes, cap, events);
      TwoSteps(params, was, Promote(k, bytes, cap, events), Populate(k, |bytes|));
      PopulateCache(k, |bytes|, now);
    }

    /** The whole task on the stores: when its fetch succeeds, the registry makes
        exactly the two steps of a promotion and a cache update, for the bytes that
        were received and by a run of that fetch; otherwise none. */
    method PullThroughTask(table: PullThroughTasks.Table, entry: PullThroughTasks.PullThroughEntry, repo: Repo,
                           answer: Option<seq<PullThroughTasks.StreamItem>>, io: PullThroughTasks.Faults, now: nat,
                           ghost cfg: PullThrough.Setup, ghost w: PullThroughTable.World, ghost id: nat)
      returns (ghost ops: seq<Op>)
      requires Valid() && now == rest.now && cfg.hash == params.hash
      requires PullThroughTable.WorldInv(cfg, w) && table.Mirrors(cfg.hash, w)
      requires entry.digest in table.entries && table.entries[entry.digest] == entry && w.table[entry.digest] == id
      requires entry.sh == PullThrough.Start(entry.digest).sh && entry.trace == []
      modifies this, storage, table, entry
      ensures entry.outcome.Some? && table.entries == old(table.entries) - {entry.digest}
      ensures entry.outcome.value.Success? ==>
                && answer.Some?
                && var bytes := PullThroughTasks.Received(answer.value);
                   var k := (repo, entry.digest);
                   ops == [Promote(k, bytes, cfg.cap, PullThroughTasks.Produced(entry.trace))] + [Populate(k, |bytes|)]
      ensures entry.outcome.value.Failed? ==> ops == []
      ensures Run(params, old(Value()), ops) == Some(Value())
    {
      var final;
      final := FetchBlob(table, entry, answer, io, cfg, w, id);
      assert Value() == old(Value());
      if final.Some? {
        ops := PublishBlob((repo, entry.digest), final.value, now, cfg.cap, PullThroughTasks.Produced(entry.trace));
      } else {
        ops := [];
      }
    }
  }

  /** The task on table and entry; what it yields is what its fetch has promoted. */
  method FetchBlob(table: PullThroughTasks.Table, entry: PullThroughTasks.PullThroughEntry,
                   answer: Option<seq<PullThroughTasks.StreamItem>>, io: PullThroughTasks.Faults,
                   ghost cfg: PullThrough.Setup, ghost w: PullThroughTable.World, ghost id: nat)
    returns (final: Option<Bytes>)
    requires PullThroughTable.WorldInv(cfg, w) && table.Mirrors(cfg.hash, w)
    requires entry.digest in table.entries && table.entries[entry.digest] == entry && w.table[entry.digest] == id
    requires entry.sh == PullThrough.Start(entry.digest).sh && entry.trace == []
    modifies table, entry
    ensures entry.outcome.Some? && table.entries == old(table.entries) - {entry.digest}
    ensures final.Some? <==> entry.outcome.value.Success?
    ensures final.Some? ==> answer.Some? && final.value == PullThroughTasks.Received(answer.value)
    ensures final.Some? ==>
              var end := PullThrough.Run(cfg, PullThrough.Start(entry.digest), PullThroughTasks.Produced(entry.trace));
              end.Some? && end.value.sh.promoted == final
  {
    ghost var es, v;
    assert entry.hash == cfg.hash;
    final, es, v := PullThroughTasks.RunTask(table, entry, answer, io, cfg, w, id);
    PullThroughTasks.TraceIsRun(cfg, PullThrough.Start(entry.digest), entry.trace);
  }

  lemma TwoSteps(p: Params, s: State, a: Op, b: Op)
    requires Legal(p, s, a) && Legal(p, Step(p, s, a).state, b)
    ensures Run(p, s, [a] + [b]) == Some(Step(p, Step(p, s, a).state, b).state)
  {
    var ops := [a] + [b];
    var t := Step(p, s, a).state;
    var u := Step(p, t, b).state;
    assert ops[1..] == [b] && [b][1..] == [];
    assert Run(p, u, []) == Some(u);
    assert Run(p, t, [b]) == Some(u);
  }

}
