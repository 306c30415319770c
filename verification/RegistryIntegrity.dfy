/** The metadata cache agrees with the disk, over every run of the registry. The
    invariant is kept for each blob on its own, so a race on one blob says nothing
    about the others. */
module RegistryIntegrity {

  import opened Base
  import opened Digests
  import opened BlobStore
  import opened LocalTags
  import UpstreamTags
  import Uploads
  import opened Registry
  import opened RegistryRuns

  /** A cached entry stands for a blob on disk, unless the file was removed behind the
      server's back after the entry was made. */
  ghost predicate Backed(s: State, k: BlobKey) {
    && (k in s.store.meta ==>
          && s.store.meta[k].cachedAt <= s.now
          && (k in s.store.blobs || (k in s.removed && s.store.meta[k].cachedAt <= s.removed[k])))
    && (k in s.removed ==> s.removed[k] <= s.now)
  }

  /** Every size known of a blob is `n`: on disk, in the cache, and in the cache
      updates still to come. */
  ghost predicate Sized(s: State, k: BlobKey, n: nat) {
    && (k in s.store.blobs ==> |s.store.blobs[k]| == n)
    && (k in s.store.meta ==> s.store.meta[k].size == n)
    && (forall m :: (k, m) in s.promoting ==> m == n)
  }

  /** A pull-through task enters a blob into the cache that has been removed since
      the task renamed it into place. */
  predicate Races(s: State, op: Op, k: BlobKey) {
    op.Populate? && op.key == k && k !in s.store.blobs
  }

  // ----- steps that only add -----

  /** The entry gives the size of a blob that is, or was before the step, on disk. */
  ghost predicate SizeFrom(s: State, t: State, k: BlobKey, m: BlobMeta) {
    || (k in t.store.blobs && m.size == |t.store.blobs[k]|)
    || (k in s.store.blobs && m.size == |s.store.blobs[k]|)
  }

  /** No blob of `s` is lost, and every new entry describes a blob that is there. */
  ghost predicate MetaSteps(s: State, t: State) {
    && s.store.blobs.Keys <= t.store.blobs.Keys
    && (forall k :: k in t.store.meta ==>
          || (k in s.store.meta && t.store.meta[k] == s.store.meta[k])
          || (k in t.store.blobs && SizeFrom(s, t, k, t.store.meta[k]) && t.store.meta[k].cachedAt <= t.now))
    && t.promoting == s.promoting && t.removed == s.removed && s.now <= t.now
  }

  lemma GrowthKeepsBacked(s: State, t: State, k: BlobKey)
    requires Backed(s, k) && MetaSteps(s, t)
    ensures Backed(t, k)
  {
  }

  lemma GrowthKeepsSized(s: State, t: State, k: BlobKey, n: nat)
    requires Sized(s, k, n) && MetaSteps(s, t) && (k in t.store.blobs ==> |t.store.blobs[k]| == n)
    ensures Sized(t, k, n)
  {
  }

  lemma MetaStepsChain(s: State, t: State, u: State)
    requires MetaSteps(s, t) && MetaSteps(t, u) && t.store.blobs == s.store.blobs
    ensures MetaSteps(s, u)
  {
  }

  lemma LookupGrows(p: Params, s: State, k: BlobKey)
    ensures MetaSteps(s, MetaOf(p, s, k).0) && MetaOf(p, s, k).0.store.blobs == s.store.blobs
  {
  }

  lemma PutGrows(p: Params, s: State, k: BlobKey, bytes: Bytes, ioOk: bool)
    ensures MetaSteps(s, s.(store := Put(p.hash, s.store, k, bytes, s.now, ioOk).0))
  {
  }

  lemma {:induction false} CheckPresentGrows(p: Params, s: State, repo: Repo, refs: seq<string>)
    ensures var t := CheckPresent(p, s, repo, refs).0; MetaSteps(s, t) && t.store.blobs == s.store.blobs
    decreases |refs|
  {
    if refs != [] && Parse(refs[0]).Some? {
      var k := (repo, Parse(refs[0]).value);
      var t := MetaOf(p, s, k).0;
      LookupGrows(p, s, k);
      CheckPresentGrows(p, t, repo, refs[1..]);
      MetaStepsChain(s, t, CheckPresent(p, t, repo, refs[1..]).0);
    }
  }

  lemma FetchGrows(p: Params, s: State, op: Op, calls: nat)
    requires op.GetManifest?
    ensures MetaSteps(s, FetchIfRouted(p, s, op, calls).state)
  {
    if op.answers.get.Some? {
      PutGrows(p, s, (op.repo, op.answers.get.value.0), op.answers.get.value.1, op.blobOk);
    }
  }

  lemma LocalOrFetchGrows(p: Params, s: State, op: Op, d: Digest, calls: nat)
    requires op.GetManifest?
    ensures MetaSteps(s, LocalOrFetch(p, s, op, d, calls).state)
  {
    var k := (op.repo, d);
    var t := MetaOf(p, s, k).0;
    LookupGrows(p, s, k);
    LookupGrows(p, t, k);
    FetchGrows(p, t, op, calls);
    MetaStepsChain(s, t, FetchIfRouted(p, t, op, calls).state);
    MetaStepsChain(s, t, MetaOf(p, t, k).0);
  }

  lemma RevalidateGrows(p: Params, s: State, op: Op, d: Digest)
    requires op.GetManifest?
    ensures MetaSteps(s, Revalidate(p, s, op, d).state)
  {
    match op.answers.head
    case None => LocalOrFetchGrows(p, s, op, d, 1);
    case Some(current) =>
      var t := s.(events := s.events + {Reported((op.repo, op.reference), current, s.now)});
      FetchGrows(p, t, op, 1);
      LocalOrFetchGrows(p, t.(upstream := UpstreamTags.Touch(t.upstream, op.repo, op.reference, s.now)), op, d, 1);
  }

  lemma GetGrows(p: Params, s: State, op: Op)
    requires op.GetManifest?
    ensures MetaSteps(s, DoGet(p, s, op).state)
  {
    var k := (op.repo, op.reference);
    if IsTag(op.reference) && k in s.tags.mem && Parse(s.tags.mem[k]).Some? {
      LookupGrows(p, s, (op.repo, Parse(s.tags.mem[k]).value));
    } else if !IsTag(op.reference) {
      LocalOrFetchGrows(p, s, op, Parse(op.reference).value, 0);
    } else {
      match UpstreamTags.Lookup(s.upstream, op.repo, op.reference, s.now, p.tagTtl)
      case Fresh(d) => LocalOrFetchGrows(p, s, op, d, 0);
      case Stale(d) =>
        if s.routed(op.repo) { RevalidateGrows(p, s, op, d); } else { LocalOrFetchGrows(p, s, op, d, 0); }
      case Miss => FetchGrows(p, s, op, 0);
    }
  }

  lemma PersistGrows(p: Params, s: State, op: Op)
    requires op.PutManifest?
    ensures MetaSteps(s, Persist(p, s, op).state)
  {
    PutGrows(p, s, (op.repo, p.hash(op.body)), op.body, op.blobOk);
  }

  lemma DoPutGrows(p: Params, s: State, op: Op)
    requires op.PutManifest?
    ensures MetaSteps(s, DoPut(p, s, op).state)
  {
    var t := CheckPresent(p, s, op.repo, RequiredBy(p, op.body)).0;
    CheckPresentGrows(p, s, op.repo, RequiredBy(p, op.body));
    PersistGrows(p, t, op);
    MetaStepsChain(s, t, Persist(p, t, op).state);
  }

  lemma UploadGrows(p: Params, s: State, call: Uploads.Call)
    ensures MetaSteps(s, DoUpload(p, s, call).state)
  {
  }

  lemma GetBlobGrows(p: Params, s: State, repo: Repo, reference: string)
    ensures MetaSteps(s, DoGetBlob(p, s, repo, reference).state)
  {
    if Parse(reference).Some? {
      LookupGrows(p, s, (repo, Parse(reference).value));
    }
  }

  // ----- the other steps -----

  /** What the steps that remove do to one blob: its entry goes with it, or stays. */
  ghost predicate Thins(s: State, t: State, k: BlobKey) {
    && (k in t.store.blobs ==> k in s.store.blobs && t.store.blobs[k] == s.store.blobs[k])
    && (k in t.store.meta ==> k in s.store.meta && t.store.meta[k] == s.store.meta[k])
    && (forall m :: (k, m) in t.promoting ==> (k, m) in s.promoting)
    && t.now == s.now
  }

  lemma ThinningKeepsSized(s: State, t: State, k: BlobKey, n: nat)
    requires Sized(s, k, n) && Thins(s, t, k)
    ensures Sized(t, k, n)
  {
  }

  lemma DeleteThins(s: State, j: BlobKey, ioOk: bool, tags: Tags, k: BlobKey)
    ensures var t := s.(store := Delete(s.store, j, ioOk).0, tags := tags);
            Thins(s, t, k) && t.removed == s.removed && (k in t.store.meta && k in s.store.blobs ==> k in t.store.blobs)
  {
  }

  lemma BlobDeleteThins(s: State, op: Op, k: BlobKey)
    requires op.DeleteBlob?
    ensures var t := DoDeleteBlob(s, op.repo, op.reference, op.ioOk).state;
            Thins(s, t, k) && t.removed == s.removed && (k in t.store.meta && k in s.store.blobs ==> k in t.store.blobs)
  {
    if Parse(op.reference).Some? {
      DeleteThins(s, (op.repo, Parse(op.reference).value), op.ioOk, s.tags, k);
    }
  }

  lemma ManifestDeleteThins(s: State, op: Op, k: BlobKey)
    requires op.DeleteManifest? && |op.oks| == |op.order|
    ensures var t := DoDelete(s, op).state;
            Thins(s, t, k) && t.removed == s.removed && (k in t.store.meta && k in s.store.blobs ==> k in t.store.blobs)
  {
    if Parse(op.reference).Some? {
      var tags := RemoveEach(s.tags, op.repo, op.order, op.oks);
      DeleteThins(s, (op.repo, Parse(op.reference).value), op.blobOk, tags, k);
    }
  }

  lemma ExternalRemoveThins(p: Params, s: State, j: BlobKey, k: BlobKey)
    ensures Thins(s, Step(p, s, ExternalRemove(j)).state, k)
    ensures Backed(s, k) ==> Backed(Step(p, s, ExternalRemove(j)).state, k)
  {
  }

  /** A new process starts with an empty cache. */
  lemma BootThins(s: State, t: State, routed: Repo -> bool, k: BlobKey)
    requires t.now == s.now && t.removed == s.removed
    requires k in t.store.blobs ==> k in s.store.blobs && t.store.blobs[k] == s.store.blobs[k]
    ensures Thins(s, Boot(t, routed), k) && (Backed(s, k) ==> Backed(Boot(t, routed), k))
  {
  }

  lemma RestartThins(p: Params, s: State, op: Op, k: BlobKey)
    requires op.Restart?
    ensures Thins(s, DoRestart(s, op.routed).state, k) && (Backed(s, k) ==> Backed(DoRestart(s, op.routed).state, k))
  {
    BootThins(s, s, op.routed, k);
  }

  lemma CollectionThins(p: Params, s: State, op: Op, k: BlobKey)
    requires op.OfflineGc?
    ensures Thins(s, DoGc(p, s, op).state, k) && (Backed(s, k) ==> Backed(DoGc(p, s, op).state, k))
  {
    var t := Collect(p, s, op.repos, op.extra, op.dryRun, op.stuck);
    CollectShrinks(p, s, op.repos, op.extra, op.dryRun, op.stuck);
    BootThins(s, t, op.routed, k);
  }

  lemma RemoveDirectoryThins(p: Params, s: State, op: Op, k: BlobKey)
    requires op.RemoveDirectory?
    ensures Thins(s, DoRemoveDirectory(s, op).state, k) && (Backed(s, k) ==> Backed(DoRemoveDirectory(s, op).state, k))
  {
    RemoveTreeShrinks(s, op.dir);
    BootThins(s, RemoveTree(s, op.dir), op.routed, k);
  }

  lemma PromoteKeepsMeta(p: Params, s: State, op: Op, k: BlobKey)
    requires op.Promote? && Legal(p, s, op)
    ensures var t := Step(p, s, op).state;
            && (Backed(s, k) ==> Backed(t, k))
            && forall n :: Sized(s, k, n) && (k in t.store.blobs ==> |t.store.blobs[k]| == n) ==> Sized(t, k, n)
  {
  }

  lemma PopulateKeepsMeta(p: Params, s: State, op: Op, k: BlobKey)
    requires op.Populate? && Legal(p, s, op)
    ensures var t := Step(p, s, op).state;
            && (Backed(s, k) && !Races(s, op, k) ==> Backed(t, k))
            && forall n :: Sized(s, k, n) ==> Sized(t, k, n)
  {
    var t := Step(p, s, op).state;
    assert forall m :: (k, m) in t.promoting ==> (k, m) in s.promoting;
  }

  /** The cache claims no blob that is gone: kept for each blob by every step but a
      cache update after its removal, whatever the hash. */
  lemma StepKeepsBacked(p: Params, s: State, op: Op, k: BlobKey)
    requires Backed(s, k) && Legal(p, s, op) && !Races(s, op, k)
    ensures Backed(Step(p, s, op).state, k)
  {
    match op
    case DeleteBlob(_, _, _) => BlobDeleteThins(s, op, k);
    case DeleteManifest(_, _, _, _, _) => ManifestDeleteThins(s, op, k);
    case ExternalRemove(j) => ExternalRemoveThins(p, s, j, k);
    case Promote(_, _, _, _) => PromoteKeepsMeta(p, s, op, k);
    case Populate(_, _) => PopulateKeepsMeta(p, s, op, k);
    case Restart(_) => RestartThins(p, s, op, k);
    case OfflineGc(_, _, _, _, _) => CollectionThins(p, s, op, k);
    case RemoveDirectory(_, _) => RemoveDirectoryThins(p, s, op, k);
    case _ =>
      PlainStepGrows(p, s, op);
      GrowthKeepsBacked(s, Step(p, s, op).state, k);
  }

  /** The cache has the right size of a blob, as long as all contents stored under
      its digest have one size. */
  lemma StepKeepsSized(p: Params, s: State, op: Op, k: BlobKey, n: nat)
    requires Sized(s, k, n) && Legal(p, s, op)
    requires var t := Step(p, s, op).state; k in t.store.blobs ==> |t.store.blobs[k]| == n
    ensures Sized(Step(p, s, op).state, k, n)
  {
    var t := Step(p, s, op).state;
    match op
    case Promote(_, _, _, _) => PromoteKeepsMeta(p, s, op, k);
    case Populate(_, _) => PopulateKeepsMeta(p, s, op, k);
    case PutManifest(_, _, _, _, _) => GrowingStepKeepsSized(p, s, op, k, n);
    case GetManifest(_, _, _, _, _) => GrowingStepKeepsSized(p, s, op, k, n);
    case GetBlob(_, _) => GrowingStepKeepsSized(p, s, op, k, n);
    case UploadCall(_) => GrowingStepKeepsSized(p, s, op, k, n);
    case Tick(_) => GrowingStepKeepsSized(p, s, op, k, n);
    case _ =>
      RemovingStepThins(p, s, op, k);
      ThinningKeepsSized(s, t, k, n);
  }

  lemma GrowingStepKeepsSized(p: Params, s: State, op: Op, k: BlobKey, n: nat)
    requires Sized(s, k, n)
    requires op.PutManifest? || op.GetManifest? || op.GetBlob? || op.UploadCall? || op.Tick?
    requires var t := Step(p, s, op).state; k in t.store.blobs ==> |t.store.blobs[k]| == n
    ensures Sized(Step(p, s, op).state, k, n)
  {
    PlainStepGrows(p, s, op);
    GrowthKeepsSized(s, Step(p, s, op).state, k, n);
  }

  lemma RemovingStepThins(p: Params, s: State, op: Op, k: BlobKey)
    requires Legal(p, s, op)
    requires || op.DeleteBlob? || op.DeleteManifest? || op.ExternalRemove?
             || op.Restart? || op.OfflineGc? || op.RemoveDirectory?
    ensures Thins(s, Step(p, s, op).state, k)
  {
    match op
    case DeleteBlob(_, _, _) => BlobDeleteThins(s, op, k);
    case DeleteManifest(_, _, _, _, _) => ManifestDeleteThins(s, op, k);
    case ExternalRemove(j) => ExternalRemoveThins(p, s, j, k);
    case Restart(_) => RestartThins(p, s, op, k);
    case OfflineGc(_, _, _, _, _) => CollectionThins(p, s, op, k);
    case RemoveDirectory(_, _) => RemoveDirectoryThins(p, s, op, k);
  }

  /** The steps that publish, read or wait keep all blobs and cache truthfully. */
  lemma PlainStepGrows(p: Params, s: State, op: Op)
    requires op.PutManifest? || op.GetManifest? || op.GetBlob? || op.UploadCall? || op.Tick?
    ensures MetaSteps(s, Step(p, s, op).state)
  {
    match op
    case PutManifest(_, _, _, _, _) => DoPutGrows(p, s, op);
    case GetManifest(_, _, _, _, _) => GetGrows(p, s, op);
    case GetBlob(repo, reference) => GetBlobGrows(p, s, repo, reference);
    case UploadCall(call) => UploadGrows(p, s, call);
    case Tick(_) =>
  }

  /** No cache update for `k` comes after the blob was removed. */
  ghost predicate RaceFree(p: Params, s: State, ops: seq<Op>, k: BlobKey)
    decreases |ops|
  {
    ops != [] && Legal(p, s, ops[0]) ==> !Races(s, ops[0], k) && RaceFree(p, Step(p, s, ops[0]).state, ops[1..], k)
  }

  lemma {:induction false} RunKeepsBacked(p: Params, s: State, ops: seq<Op>, k: BlobKey)
    requires Backed(s, k) && Run(p, s, ops).Some? && RaceFree(p, s, ops, k)
    ensures Backed(Run(p, s, ops).value, k)
    decreases |ops|
  {
    if ops != [] {
      StepKeepsBacked(p, s, ops[0], k);
      RunKeepsBacked(p, Step(p, s, ops[0]).state, ops[1..], k);
    }
  }

  lemma {:induction false} RunKeepsSized(p: Params, s: State, ops: seq<Op>, k: BlobKey, n: nat)
    requires Sized(s, k, n) && Run(p, s, ops).Some?
    requires forall b :: b in ContentsOf(p, s, ops, k) ==> |b| == n
    ensures Sized(Run(p, s, ops).value, k, n)
    decreases |ops|
  {
    if ops != [] {
      var t := Step(p, s, ops[0]).state;
      assert ContentsOf(p, t, ops[1..], k) <= ContentsOf(p, s, ops, k);
      assert k in t.store.blobs ==> t.store.blobs[k] in ContentsOf(p, t, ops[1..], k);
      StepKeepsSized(p, s, ops[0], k, n);
      RunKeepsSized(p, t, ops[1..], k, n);
    }
  }

  /** The size that a lookup through the cache finds, if it finds the blob. */
  function FoundSize(store: Store, k: BlobKey, now: nat, ttl: nat): Option<nat> {
    var m := Lookup(store, k, now, ttl).1;
    if m.Some? then Some(m.value.size) else None
  }

  /** The file was removed behind the server's back less than one TTL ago. */
  ghost predicate JustStolen(p: Params, s: State, k: BlobKey) {
    k !in s.store.blobs && k in s.removed && s.removed[k] <= s.now && s.now - s.removed[k] < p.metaTtl
  }

  /** After every run without a race on this blob, a lookup through the cache finds it
      exactly when an uncached `stat` does, or else it was just stolen. */
  lemma CachedExistenceAgrees(p: Params, routed: Repo -> bool, ops: seq<Op>, k: BlobKey)
    requires Run(p, Initial(routed), ops).Some? && RaceFree(p, Initial(routed), ops, k)
    ensures var s := Run(p, Initial(routed), ops).value;
            || FoundSize(s.store, k, s.now, p.metaTtl).Some? == Stat(s.store.blobs, k).Some?
            || JustStolen(p, s, k)
  {
    RunKeepsBacked(p, Initial(routed), ops, k);
  }

  /** And it finds the same size, provided all contents that the run stores under
      this digest have one size: in particular if there is only one. */
  lemma CachedLookupAgrees(p: Params, routed: Repo -> bool, ops: seq<Op>, k: BlobKey)
    requires Run(p, Initial(routed), ops).Some? && RaceFree(p, Initial(routed), ops, k)
    requires var all := ContentsOf(p, Initial(routed), ops, k); forall a, b :: a in all && b in all ==> |a| == |b|
    ensures var s := Run(p, Initial(routed), ops).value;
            || FoundSize(s.store, k, s.now, p.metaTtl) == Stat(s.store.blobs, k)
            || JustStolen(p, s, k)
  {
    var s := Run(p, Initial(routed), ops).value;
    var all := ContentsOf(p, Initial(routed), ops, k);
    CachedExistenceAgrees(p, routed, ops, k);
    if k in s.store.blobs {
      EndContent(p, Initial(routed), ops, k);
      RunKeepsSized(p, Initial(routed), ops, k, |s.store.blobs[k]|);
    }
  }

  /** The condition is exact: after the cache update of a pull-through task, the
      lookup of its blob agrees with the disk if and only if the blob is there, with
      the size that the task has promoted. */
  lemma PopulateAgreesIff(p: Params, s: State, k: BlobKey, size: nat)
    requires (k, size) in s.promoting && p.metaTtl > 0
    ensures var t := Step(p, s, Populate(k, size)).state;
            && FoundSize(t.store, k, t.now, p.metaTtl) == Some(size)
            && (FoundSize(t.store, k, t.now, p.metaTtl) == Stat(t.store.blobs, k) <==>
                !Races(s, Populate(k, size), k) && |s.store.blobs[k]| == size)
  {
  }

  /** The race is real: when a blob is deleted between its promotion and the cache
      update of the pull-through task, the cache then claims a blob that is gone. */
  lemma RaceLeavesStaleEntry(p: Params, s: State, k: BlobKey, size: nat, reference: string)
    requires (k, size) in s.promoting && k in s.store.blobs && Parse(reference) == Some(k.1) && p.metaTtl > 0
    ensures var deleted := Step(p, s, DeleteBlob(k.0, reference, true));
            && deleted.response == Accepted
            && Legal(p, deleted.state, Populate(k, size))
            && var t := Step(p, deleted.state, Populate(k, size)).state;
               k !in t.store.blobs && Lookup(t.store, k, t.now, p.metaTtl).1.Some?
  {
  }

}
