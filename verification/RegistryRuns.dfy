/** Guarantees over every run of the registry. */
module RegistryRuns {

  import opened Base
  import opened Digests
  import opened BlobStore
  import opened LocalTags
  import UpstreamTags
  import Uploads
  import PullThrough
  import opened RepoDiscovery
  import opened Registry

  // ----- frames: what the handlers can touch -----

  /** Only the metadata cache changed. */
  ghost predicate OnlyMeta(s: State, t: State) {
    t == s.(store := s.store.(meta := t.store.meta))
  }

  lemma {:induction false} CheckPresentFrame(p: Params, s: State, repo: Repo, refs: seq<string>)
    ensures OnlyMeta(s, CheckPresent(p, s, repo, refs).0)
    decreases |refs|
  {
    if refs != [] && Parse(refs[0]).Some? {
      CheckPresentFrame(p, MetaOf(p, s, (repo, Parse(refs[0]).value)).0, repo, refs[1..]);
    }
  }

  /** `t` has the blobs of `s`, except that one verified blob may have been added. */
  ghost predicate BlobsGrew(hash: Hash, s: State, t: State, k: BlobKey, bytes: Bytes) {
    || t.store.blobs == s.store.blobs
    || (hash(bytes) == k.1 && t.store.blobs == s.store.blobs[k := bytes])
  }

  ghost predicate GetTouches(p: Params, s: State, op: Op, t: State)
    requires op.GetManifest?
  {
    && t.tags == s.tags && t.uploads == s.uploads && t.promoting == s.promoting
    && t.now == s.now && t.routed == s.routed && t.removed == s.removed
    && (t.store.blobs == s.store.blobs ||
        (op.answers.get.Some? &&
         BlobsGrew(p.hash, s, t, (op.repo, op.answers.get.value.0), op.answers.get.value.1)))
  }

  lemma FetchFrame(p: Params, s: State, op: Op, calls: nat)
    requires op.GetManifest?
    ensures GetTouches(p, s, op, FetchIfRouted(p, s, op, calls).state)
  {
  }

  lemma LocalOrFetchFrame(p: Params, s: State, op: Op, d: Digest, calls: nat)
    requires op.GetManifest?
    ensures GetTouches(p, s, op, LocalOrFetch(p, s, op, d, calls).state)
  {
    var (t, m) := MetaOf(p, s, (op.repo, d));
    FetchFrame(p, t, op, calls);
  }

  lemma RevalidateFrame(p: Params, s: State, op: Op, d: Digest)
    requires op.GetManifest?
    ensures GetTouches(p, s, op, Revalidate(p, s, op, d).state)
  {
    match op.answers.head
    case None => LocalOrFetchFrame(p, s, op, d, 1);
    case Some(current) =>
      var t := s.(events := s.events + {Reported((op.repo, op.reference), current, s.now)});
      FetchFrame(p, t, op, 1);
      LocalOrFetchFrame(p, t.(upstream := UpstreamTags.Touch(t.upstream, op.repo, op.reference, s.now)), op, d, 1);
  }

  /** A GET leaves local tags and uploads alone and publishes at most the verified
      manifest that upstream sent. */
  lemma GetFrame(p: Params, s: State, op: Op)
    requires op.GetManifest?
    ensures GetTouches(p, s, op, DoGet(p, s, op).state)
  {
    var k := (op.repo, op.reference);
    if IsTag(op.reference) && k in s.tags.mem && Parse(s.tags.mem[k]).Some? {
      assert DoGet(p, s, op) == ServeLocal(p, s, op.repo, Parse(s.tags.mem[k]).value, 0);
    } else if !IsTag(op.reference) {
      LocalOrFetchFrame(p, s, op, Parse(op.reference).value, 0);
    } else {
      match UpstreamTags.Lookup(s.upstream, op.repo, op.reference, s.now, p.tagTtl)
      case Fresh(d) => LocalOrFetchFrame(p, s, op, d, 0);
      case Stale(d) =>
        if s.routed(op.repo) { RevalidateFrame(p, s, op, d); } else { LocalOrFetchFrame(p, s, op, d, 0); }
      case Miss => FetchFrame(p, s, op, 0);
    }
  }

  ghost predicate PutTouches(p: Params, s: State, op: Op, r: Result)
    requires op.PutManifest?
  {
    var t := r.state;
    var d := p.hash(op.body);
    var k := (op.repo, d);
    && t == s.(store := t.store, tags := t.tags)
    && BlobsGrew(p.hash, s, t, k, op.body)
    && t.tags == (if RecordsTag(p, s, op) then Set(s.tags, op.repo, op.reference, d, op.tagOk) else s.tags)
    && (RecordsTag(p, s, op) || r.response.Created? ==> k in t.store.blobs && t.store.blobs[k] == op.body)
    && (r.response.Created? ==> r.response.digest == d && (IsTag(op.reference) ==> RecordsTag(p, s, op) && op.tagOk))
    && (RecordsTag(p, s, op) && op.tagOk ==> r.response.Created?)
  }

  lemma PutFrame(p: Params, s: State, op: Op)
    requires op.PutManifest?
    ensures PutTouches(p, s, op, DoPut(p, s, op))
  {
    CheckPresentFrame(p, s, op.repo, RequiredBy(p, op.body));
  }

  // ----- frames of the other requests -----

  /** Tags and the records of removals stay, and no blob is lost. */
  ghost predicate Quiet(s: State, t: State) {
    t.tags == s.tags && t.removed == s.removed && s.store.blobs.Keys <= t.store.blobs.Keys
  }

  lemma UploadFrame(p: Params, s: State, call: Uploads.Call)
    ensures var t := DoUpload(p, s, call).state; Quiet(s, t) && t.promoting == s.promoting
  {
  }

  lemma GetBlobFrame(p: Params, s: State, repo: Repo, reference: string)
    ensures var t := DoGetBlob(p, s, repo, reference).state; Quiet(s, t) && t.promoting == s.promoting
  {
  }

  lemma QuietStep(p: Params, s: State, op: Op)
    requires Legal(p, s, op) && (op.GetBlob? || op.UploadCall? || op.Promote? || op.Populate? || op.Tick?)
    ensures Quiet(s, Step(p, s, op).state)
  {
    match op
    case UploadCall(call) => UploadFrame(p, s, call);
    case GetBlob(repo, reference) => GetBlobFrame(p, s, repo, reference);
    case _ =>
  }

  /** A blob delete takes at most the blob it names. */
  lemma BlobDeleteFrame(s: State, repo: Repo, reference: string, ioOk: bool)
    ensures var t := DoDeleteBlob(s, repo, reference, ioOk).state;
            && t == s.(store := t.store)
            && forall k :: k in s.store.blobs && !(Parse(reference).Some? && k == (repo, Parse(reference).value)) ==>
                 k in t.store.blobs
  {
  }

  lemma DeleteFrame(s: State, op: Op)
    requires op.DeleteManifest? && |op.oks| == |op.order|
    ensures var t := DoDelete(s, op).state;
            && t == s.(store := t.store, tags := t.tags)
            && forall k ::
                 k in s.store.blobs && !(Parse(op.reference).Some? && k == (op.repo, Parse(op.reference).value)) ==>
                   k in t.store.blobs
  {
  }

  // ----- content addressing -----

  /** Every blob hashes to the digest in its path, and every upload session's
      hasher agrees with its file. */
  ghost predicate Sound(p: Params, s: State) {
    Intact(p.hash, s.store.blobs) && Uploads.Agree(s.uploads)
  }

  lemma UploadKeepsIntact(hash: Hash, s: Uploads.Server, call: Uploads.Call)
    requires Intact(hash, s.blobs) && Uploads.Agree(s.uploads)
    ensures Intact(hash, Uploads.Serve(hash, s, call).0.blobs)
    ensures Uploads.Agree(Uploads.Serve(hash, s, call).0.uploads)
  {
    Uploads.ServeRefines(hash, s, call);
  }

  /** `t` keeps a part of the blobs, and all or none of the sessions. */
  ghost predicate Shrinks(s: State, t: State) {
    && (forall k :: k in t.store.blobs ==> k in s.store.blobs && t.store.blobs[k] == s.store.blobs[k])
    && (t.uploads == s.uploads || t.uploads == Uploads.Uploads(map[], map[]))
  }

  lemma DeletesShrink(s: State, op: Op)
    requires op.DeleteManifest? && |op.oks| == |op.order|
    ensures Shrinks(s, DoDelete(s, op).state)
  {
  }

  lemma BootShrinks(s: State, t: State, routed: Repo -> bool)
    requires Shrinks(s, t)
    ensures Shrinks(s, Boot(t, routed))
  {
  }

  lemma CollectShrinks(p: Params, s: State, repos: set<Repo>, extra: set<Digest>, dryRun: bool, stuck: set<BlobKey>)
    ensures Shrinks(s, Collect(p, s, repos, extra, dryRun, stuck))
  {
  }

  lemma RemoveTreeShrinks(s: State, dir: Repo)
    ensures Shrinks(s, RemoveTree(s, dir))
  {
  }

  /** The steps that publish nothing. */
  lemma OtherStepsShrink(p: Params, s: State, op: Op)
    requires Legal(p, s, op)
    requires !op.PutManifest? && !op.GetManifest? && !op.UploadCall? && !op.Promote?
    ensures Shrinks(s, Step(p, s, op).state)
  {
    match op
    case DeleteManifest(_, _, _, _, _) => DeletesShrink(s, op);
    case Restart(_) => RestartShrinks(p, s, op);
    case OfflineGc(_, _, _, _, _) => CollectionShrinks(p, s, op);
    case RemoveDirectory(_, _) => DirectoryShrinks(p, s, op);
    case _ => QuietStepShrinks(p, s, op);
  }

  lemma RestartShrinks(p: Params, s: State, op: Op)
    requires op.Restart?
    ensures Shrinks(s, DoRestart(s, op.routed).state)
  {
    BootShrinks(s, s, op.routed);
  }

  lemma CollectionShrinks(p: Params, s: State, op: Op)
    requires op.OfflineGc?
    ensures Shrinks(s, DoGc(p, s, op).state)
  {
    CollectShrinks(p, s, op.repos, op.extra, op.dryRun, op.stuck);
    BootShrinks(s, Collect(p, s, op.repos, op.extra, op.dryRun, op.stuck), op.routed);
  }

  lemma DirectoryShrinks(p: Params, s: State, op: Op)
    requires op.RemoveDirectory?
    ensures Shrinks(s, DoRemoveDirectory(s, op).state)
  {
    RemoveTreeShrinks(s, op.dir);
    BootShrinks(s, RemoveTree(s, op.dir), op.routed);
  }

  lemma QuietStepShrinks(p: Params, s: State, op: Op)
    requires Legal(p, s, op) && (op.GetBlob? || op.DeleteBlob? || op.Populate? || op.Tick? || op.ExternalRemove?)
    ensures Shrinks(s, Step(p, s, op).state)
  {
  }

  lemma ShrinkingKeepsSound(p: Params, s: State, t: State)
    requires Sound(p, s) && Shrinks(s, t)
    ensures Sound(p, t)
  {
  }

  /** Whatever a fetch promotes, in whatever interleaving, has the digest that was
      asked for. */
  lemma PromotionIsVerified(p: Params, d: Digest, bytes: Bytes, cap: nat, events: seq<PullThrough.Event>)
    requires Fetched(p, d, bytes, cap, events)
    ensures p.hash(bytes) == d
  {
    PullThrough.RunKeepsInv(PullThrough.Setup(p.hash, cap), PullThrough.Start(d), events);
  }

  lemma StepKeepsSound(p: Params, s: State, op: Op)
    requires Sound(p, s) && Legal(p, s, op)
    ensures Sound(p, Step(p, s, op).state)
  {
    match op
    case PutManifest(_, _, _, _, _) => PutFrame(p, s, op);
    case GetManifest(_, _, _, _, _) => GetFrame(p, s, op);
    case UploadCall(call) => UploadKeepsIntact(p.hash, Uploads.Server(s.uploads, s.store.blobs), call);
    case Promote(key, bytes, cap, events) => PromotionIsVerified(p, key.1, bytes, cap, events);
    case _ =>
      OtherStepsShrink(p, s, op);
      ShrinkingKeepsSound(p, s, Step(p, s, op).state);
  }

  /** Content addressing over all runs: whatever is published, deleted, collected
      or restarted, the content of every blob file hashes to its name. */
  lemma {:induction false} RunKeepsSound(p: Params, s: State, ops: seq<Op>)
    requires Sound(p, s) && Run(p, s, ops).Some?
    ensures Sound(p, Run(p, s, ops).value)
    decreases |ops|
  {
    if ops != [] {
      StepKeepsSound(p, s, ops[0]);
      RunKeepsSound(p, Step(p, s, ops[0]).state, ops[1..]);
    }
  }

  // ----- collisions -----

  /** The contents that the states of a run store under a key. */
  ghost function ContentsOf(p: Params, s: State, ops: seq<Op>, k: BlobKey): set<Bytes>
    decreases |ops|
  {
    (if k in s.store.blobs then {s.store.blobs[k]} else {}) +
    if ops != [] && Legal(p, s, ops[0]) then ContentsOf(p, Step(p, s, ops[0]).state, ops[1..], k) else {}
  }

  /** The run never stores two different contents under the key. */
  ghost predicate OneContent(p: Params, s: State, ops: seq<Op>, k: BlobKey) {
    forall a, b :: a in ContentsOf(p, s, ops, k) && b in ContentsOf(p, s, ops, k) ==> a == b
  }

  /** No two different contents that the run stores anywhere share a hash. */
  ghost predicate NoCollisions(p: Params, s: State, ops: seq<Op>) {
    forall j, k, a, b ::
      a in ContentsOf(p, s, ops, j) && b in ContentsOf(p, s, ops, k) && p.hash(a) == p.hash(b) ==> a == b
  }

  lemma {:induction false} ContentsHash(p: Params, s: State, ops: seq<Op>, k: BlobKey, b: Bytes)
    requires Sound(p, s) && b in ContentsOf(p, s, ops, k)
    ensures p.hash(b) == k.1
    decreases |ops|
  {
    if ops != [] && Legal(p, s, ops[0]) && b in ContentsOf(p, Step(p, s, ops[0]).state, ops[1..], k) {
      StepKeepsSound(p, s, ops[0]);
      ContentsHash(p, Step(p, s, ops[0]).state, ops[1..], k, b);
    }
  }

  /** So without a collision among what is stored, each key has one content. */
  lemma NoCollisionsOneContent(p: Params, s: State, ops: seq<Op>, k: BlobKey)
    requires Sound(p, s) && NoCollisions(p, s, ops)
    ensures OneContent(p, s, ops, k)
  {
    forall a, b | a in ContentsOf(p, s, ops, k) && b in ContentsOf(p, s, ops, k) ensures a == b {
      ContentsHash(p, s, ops, k, a);
      ContentsHash(p, s, ops, k, b);
    }
  }

  lemma {:induction false} EndContent(p: Params, s: State, ops: seq<Op>, k: BlobKey)
    requires Run(p, s, ops).Some? && k in Run(p, s, ops).value.store.blobs
    ensures Run(p, s, ops).value.store.blobs[k] in ContentsOf(p, s, ops, k)
    decreases |ops|
  {
    if ops != [] {
      EndContent(p, Step(p, s, ops[0]).state, ops[1..], k);
    }
  }

  // ----- read your writes -----

  /** The tag points at `d` in memory and in the sidecar, and the blob is there. */
  ghost predicate Holds(s: State, repo: Repo, tag: string, d: Digest) {
    && (repo, tag) in s.tags.mem && s.tags.mem[(repo, tag)] == Display(d)
    && tag in DiskTags(s.tags.disk, repo) && DiskTags(s.tags.disk, repo)[tag] == Display(d)
    && (repo, d) in s.store.blobs
  }

  /** What ends the promise made for a pushed tag: a push of the tag that gets past
      the check with another manifest, deleting the tag, deleting that digest in the
      repository, removing a directory above its blob or its sidecar, or, if startup
      does not scan its directory, a restart. */
  predicate Disturbs(p: Params, s: State, op: Op, repo: Repo, tag: string, d: Digest) {
    match op
    case PutManifest(r, reference, body, _, _) =>
      r == repo && reference == tag && RecordsTag(p, s, op) && p.hash(body) != d
    case DeleteManifest(r, reference, _, _, _) =>
      r == repo && (match Parse(reference) case None => reference == tag case Some(e) => e == d)
    case DeleteBlob(r, reference, ioOk) => r == repo && Parse(reference) == Some(d) && ioOk
    case ExternalRemove(k) => k == (repo, d)
    case RemoveDirectory(dir, _) => dir < BlobPath(repo, d) || dir < LocalTagsPath(repo) || !Reloadable(repo)
    case Restart(_) => !Reloadable(repo)
    case OfflineGc(_, _, _, _, _) => !Reloadable(repo)
    case _ => false
  }

  /** A tag entry that memory and sidecar share. */
  ghost predicate TagStored(t: Tags, repo: Repo, tag: string, text: string) {
    && (repo, tag) in t.mem && t.mem[(repo, tag)] == text
    && tag in DiskTags(t.disk, repo) && DiskTags(t.disk, repo)[tag] == text
  }

  lemma OtherTagKept(t: Tags, u: Tags, r: Repo, writeOk: bool, repo: Repo, tag: string, text: string)
    requires TagStored(t, repo, tag, text) && u.disk == t.disk
    requires (repo, tag) in u.mem && u.mem[(repo, tag)] == text
    ensures TagStored(WriteSidecar(u, r, writeOk), repo, tag, text)
  {
    RepoTagsExact(u.mem, repo, tag);
  }

  lemma {:induction false} RemoveEachKeeps(t: Tags, r: Repo, order: seq<string>, oks: seq<bool>, repo: Repo,
                                           tag: string, text: string)
    requires |oks| == |order| && TagStored(t, repo, tag, text) && (r == repo ==> tag !in order)
    ensures TagStored(RemoveEach(t, r, order, oks), repo, tag, text)
    decreases |order|
  {
    if order != [] {
      if (r, order[0]) in t.mem {
        OtherTagKept(t, t.(mem := t.mem - {(r, order[0])}), r, oks[0], repo, tag, text);
      }
      RemoveEachKeeps(Remove(t, r, order[0], oks[0]), r, order[1..], oks[1..], repo, tag, text);
    }
  }

  lemma BootKeepsTag(s: State, routed: Repo -> bool, repo: Repo, tag: string, text: string)
    requires tag in DiskTags(s.tags.disk, repo) && DiskTags(s.tags.disk, repo)[tag] == text
    ensures Reloadable(repo) ==> TagStored(Boot(s, routed).tags, repo, tag, text)
    ensures !Reloadable(repo) ==> (repo, tag) !in Boot(s, routed).tags.mem
  {
  }

  /** Garbage collection keeps the manifest of every tag in the sidecar. */
  lemma TaggedBlobIsKept(p: Params, s: State, repo: Repo, tag: string, d: Digest, extra: set<Digest>)
    requires tag in DiskTags(s.tags.disk, repo) && DiskTags(s.tags.disk, repo)[tag] == Display(d)
    ensures d in Keep(p, s, repo, extra)
  {
    ParseDisplay(d);
    assert d in TagRoots(DiskTags(s.tags.disk, repo), extra);
  }

  lemma PutKeepsHolds(p: Params, s: State, op: Op, repo: Repo, tag: string, d: Digest)
    requires op.PutManifest? && Holds(s, repo, tag, d)
    ensures Holds(DoPut(p, s, op).state, repo, tag, d) <==> !Disturbs(p, s, op, repo, tag, d)
  {
    PutFrame(p, s, op);
    if Disturbs(p, s, op, repo, tag, d) {
      if Display(p.hash(op.body)) == Display(d) { DisplayInjective(p.hash(op.body), d); }
    } else if RecordsTag(p, s, op) {
      var t := s.tags.(mem := s.tags.mem[(op.repo, op.reference) := Display(p.hash(op.body))]);
      OtherTagKept(s.tags, t, op.repo, op.tagOk, repo, tag, Display(d));
    }
  }

  lemma {:induction false} RemoveEachRemoves(t: Tags, r: Repo, order: seq<string>, oks: seq<bool>, tag: string)
    requires |oks| == |order|
    ensures tag in order || (r, tag) !in t.mem ==> (r, tag) !in RemoveEach(t, r, order, oks).mem
    decreases |order|
  {
    if order != [] {
      RemoveEachRemoves(Remove(t, r, order[0], oks[0]), r, order[1..], oks[1..], tag);
    }
  }

  lemma DeleteKeepsHolds(p: Params, s: State, op: Op, repo: Repo, tag: string, d: Digest)
    requires op.DeleteManifest? && Legal(p, s, op) && Holds(s, repo, tag, d)
    ensures Holds(DoDelete(s, op).state, repo, tag, d) <==> !Disturbs(p, s, op, repo, tag, d)
  {
    match Parse(op.reference)
    case None => TagDeleteKeepsHolds(p, s, op, repo, tag, d);
    case Some(e) =>
      if Disturbs(p, s, op, repo, tag, d) {
        RemoveEachRemoves(s.tags, repo, op.order, op.oks, tag);
      } else {
        if op.repo == repo && tag in op.order {
          DisplayInjective(d, e);
        }
        RemoveEachKeeps(s.tags, op.repo, op.order, op.oks, repo, tag, Display(d));
      }
  }

  lemma TagDeleteKeepsHolds(p: Params, s: State, op: Op, repo: Repo, tag: string, d: Digest)
    requires op.DeleteManifest? && |op.oks| == |op.order| && IsTag(op.reference) && Holds(s, repo, tag, d)
    ensures Holds(DoDelete(s, op).state, repo, tag, d) <==> !Disturbs(p, s, op, repo, tag, d)
  {
    if !Disturbs(p, s, op, repo, tag, d) && (op.repo, op.reference) in s.tags.mem {
      var t := s.tags.(mem := s.tags.mem - {(op.repo, op.reference)});
      OtherTagKept(s.tags, t, op.repo, op.blobOk, repo, tag, Display(d));
    }
  }

  lemma CollectionKeepsHolds(p: Params, s: State, op: Op, repo: Repo, tag: string, d: Digest)
    requires op.OfflineGc? && Holds(s, repo, tag, d)
    ensures Holds(DoGc(p, s, op).state, repo, tag, d) <==> !Disturbs(p, s, op, repo, tag, d)
  {
    TaggedBlobIsKept(p, s, repo, tag, d, op.extra);
    BootKeepsTag(Collect(p, s, op.repos, op.extra, op.dryRun, op.stuck), op.routed, repo, tag, Display(d));
  }

  lemma BlobDeleteKeepsHolds(p: Params, s: State, op: Op, repo: Repo, tag: string, d: Digest)
    requires op.DeleteBlob? && Holds(s, repo, tag, d)
    ensures Holds(DoDeleteBlob(s, op.repo, op.reference, op.ioOk).state, repo, tag, d) <==>
            !Disturbs(p, s, op, repo, tag, d)
  {
  }

  /** The other steps leave tags alone and the blob in place. */
  lemma BlobStepsKeepHolds(p: Params, s: State, op: Op, repo: Repo, tag: string, d: Digest)
    requires || op.GetBlob? || op.DeleteBlob? || op.UploadCall? || op.Promote?
             || op.Populate? || op.Tick? || op.ExternalRemove?
    requires Legal(p, s, op) && Holds(s, repo, tag, d)
    ensures Holds(Step(p, s, op).state, repo, tag, d) <==> !Disturbs(p, s, op, repo, tag, d)
  {
    match op
    case DeleteBlob(r, reference, ioOk) => BlobDeleteKeepsHolds(p, s, op, repo, tag, d);
    case ExternalRemove(_) =>
    case _ => QuietStep(p, s, op);
  }

  lemma RestartKeepsHolds(p: Params, s: State, op: Op, repo: Repo, tag: string, d: Digest)
    requires op.Restart? && Holds(s, repo, tag, d)
    ensures Holds(DoRestart(s, op.routed).state, repo, tag, d) <==> !Disturbs(p, s, op, repo, tag, d)
  {
    RestartKeepsTagIff(s, repo, tag, d, op.routed);
  }

  lemma DirectoryKeepsHolds(p: Params, s: State, op: Op, repo: Repo, tag: string, d: Digest)
    requires op.RemoveDirectory? && Holds(s, repo, tag, d)
    ensures Holds(DoRemoveDirectory(s, op).state, repo, tag, d) <==> !Disturbs(p, s, op, repo, tag, d)
  {
    RemoveDirectoryKeepsTagIff(s, op.dir, op.routed, repo, tag, d);
    assert BlobPath(repo, d) == repo + ["blobs", "sha256", d.hex];
  }

  lemma GetKeepsHolds(p: Params, s: State, op: Op, repo: Repo, tag: string, d: Digest)
    requires op.GetManifest? && Holds(s, repo, tag, d)
    ensures Holds(DoGet(p, s, op).state, repo, tag, d)
  {
    GetFrame(p, s, op);
  }

  /** The promise lives through a step if and only if the step does not disturb it. */
  lemma StepKeepsHolds(p: Params, s: State, op: Op, repo: Repo, tag: string, d: Digest)
    requires Legal(p, s, op) && Holds(s, repo, tag, d)
    ensures Holds(Step(p, s, op).state, repo, tag, d) <==> !Disturbs(p, s, op, repo, tag, d)
  {
    match op
    case PutManifest(_, _, _, _, _) => PutKeepsHolds(p, s, op, repo, tag, d);
    case GetManifest(_, _, _, _, _) => GetKeepsHolds(p, s, op, repo, tag, d);
    case DeleteManifest(_, _, _, _, _) => DeleteKeepsHolds(p, s, op, repo, tag, d);
    case Restart(_) => RestartKeepsHolds(p, s, op, repo, tag, d);
    case OfflineGc(_, _, _, _, _) => CollectionKeepsHolds(p, s, op, repo, tag, d);
    case RemoveDirectory(_, _) => DirectoryKeepsHolds(p, s, op, repo, tag, d);
    case _ => BlobStepsKeepHolds(p, s, op, repo, tag, d);
  }

  /** No step of the run disturbs the promise. */
  ghost predicate Undisturbed(p: Params, s: State, ops: seq<Op>, repo: Repo, tag: string, d: Digest)
    decreases |ops|
  {
    ops != [] && Legal(p, s, ops[0]) ==>
      !Disturbs(p, s, ops[0], repo, tag, d) && Undisturbed(p, Step(p, s, ops[0]).state, ops[1..], repo, tag, d)
  }

  lemma {:induction false} RunKeepsHolds(p: Params, s: State, ops: seq<Op>, repo: Repo, tag: string, d: Digest)
    requires Holds(s, repo, tag, d) && Run(p, s, ops).Some? && Undisturbed(p, s, ops, repo, tag, d)
    ensures Holds(Run(p, s, ops).value, repo, tag, d)
    decreases |ops|
  {
    if ops != [] {
      StepKeepsHolds(p, s, ops[0], repo, tag, d);
      RunKeepsHolds(p, Step(p, s, ops[0]).state, ops[1..], repo, tag, d);
    }
  }

  lemma PushHolds(p: Params, s: State, put: Op)
    requires put.PutManifest? && IsTag(put.reference) && Step(p, s, put).response.Created?
    ensures Holds(Step(p, s, put).state, put.repo, put.reference, p.hash(put.body))
  {
    PutFrame(p, s, put);
    RepoTagsExact(Step(p, s, put).state.tags.mem, put.repo, put.reference);
  }

  lemma HeldTagIsServed(p: Params, s: State, get: Op, d: Digest)
    requires get.GetManifest? && IsTag(get.reference) && Holds(s, get.repo, get.reference, d)
    ensures var r := DoGet(p, s, get);
            r.calls == 0 && r.response == Served(d, s.store.blobs[(get.repo, d)])
  {
    ParseDisplay(d);
  }

  /** After a successful push of a tag, and through any run that does not disturb
      it, a pull of the tag is answered from the local copy: no upstream call and the
      pushed digest; the very bytes that were pushed, unless the run itself stored
      other bytes with the same hash, and in any case bytes of that hash. */
  lemma ReadYourWrites(p: Params, s: State, put: Op, ops: seq<Op>, get: Op)
    requires put.PutManifest? && IsTag(put.reference) && Step(p, s, put).response.Created?
    requires Run(p, Step(p, s, put).state, ops).Some?
    requires Undisturbed(p, Step(p, s, put).state, ops, put.repo, put.reference, p.hash(put.body))
    requires get.GetManifest? && get.repo == put.repo && get.reference == put.reference
    ensures var r := Step(p, Run(p, Step(p, s, put).state, ops).value, get);
            && r.calls == 0
            && r.response.Served? && r.response.digest == p.hash(put.body)
            && (OneContent(p, Step(p, s, put).state, ops, (put.repo, p.hash(put.body))) ==>
                 r.response.bytes == put.body)
            && (Sound(p, s) ==> p.hash(r.response.bytes) == p.hash(put.body))
  {
    var d := p.hash(put.body);
    var s1 := Step(p, s, put).state;
    PushHolds(p, s, put);
    PutFrame(p, s, put);
    RunKeepsHolds(p, s1, ops, put.repo, put.reference, d);
    HeldTagIsServed(p, Run(p, s1, ops).value, get, d);
    EndContent(p, s1, ops, (put.repo, d));
    if Sound(p, s) {
      StepKeepsSound(p, s, put);
      RunKeepsSound(p, s1, ops);
    }
  }

  /** A restart keeps a pushed tag exactly when startup scans its directory. */
  lemma RestartKeepsTagIff(s: State, repo: Repo, tag: string, d: Digest, routed: Repo -> bool)
    requires Holds(s, repo, tag, d)
    ensures Holds(Boot(s, routed), repo, tag, d) <==> "blobs" !in repo && "_uploads" !in repo
  {
    BootKeepsTag(s, routed, repo, tag, Display(d));
  }

  /** `cache-rm` keeps a pushed tag exactly when the directory holds neither its blob
      nor its sidecar, and the startup after it scans its directory. */
  lemma RemoveDirectoryKeepsTagIff(s: State, dir: Repo, routed: Repo -> bool, repo: Repo, tag: string, d: Digest)
    requires Holds(s, repo, tag, d)
    ensures Holds(Boot(RemoveTree(s, dir), routed), repo, tag, d) <==>
            && !(dir < repo + ["blobs", "sha256", d.hex]) && !(dir < repo + ["_local_tags.json"])
            && "blobs" !in repo && "_uploads" !in repo
  {
    assert BlobPath(repo, d) == repo + ["blobs", "sha256", d.hex];
    if !(dir < BlobPath(repo, d)) && !(dir < LocalTagsPath(repo)) {
      BootKeepsTag(RemoveTree(s, dir), routed, repo, tag, Display(d));
    }
  }

  lemma NothingToServe(p: Params, s: State, op: Op)
    requires op.GetManifest? && IsTag(op.reference) && !s.routed(op.repo)
    requires (op.repo, op.reference) !in s.tags.mem && (op.repo, op.reference) !in s.upstream.entries
    ensures DoGet(p, s, op) == Result(s, Unknown, 0)
  {
  }

  /** So for a repository with a component `blobs` or `_uploads`, a tag that was
      pushed successfully is unknown after a restart. */
  lemma ForgottenAfterRestart(p: Params, s: State, put: Op, get: Op, routed: Repo -> bool)
    requires put.PutManifest? && IsTag(put.reference) && Step(p, s, put).response.Created?
    requires !Reloadable(put.repo) && !routed(put.repo)
    requires get.GetManifest? && get.repo == put.repo && get.reference == put.reference
    ensures Step(p, Boot(Step(p, s, put).state, routed), get).response == Unknown
  {
    PushHolds(p, s, put);
    var t := Step(p, s, put).state;
    BootKeepsTag(t, routed, put.repo, put.reference, Display(p.hash(put.body)));
    NothingToServe(p, Boot(t, routed), get);
  }

  /** Such a push exists: the first push of a fresh registry. */
  lemma FirstPushSucceeds(p: Params, routed: Repo -> bool, put: Op)
    requires put.PutManifest? && put.blobOk && put.tagOk && IsTag(put.reference)
    requires |put.body| <= MANIFEST_LIMIT && RequiredBy(p, put.body) == []
    ensures Step(p, Initial(routed), put).response == Created(p.hash(put.body))
  {
    assert CheckPresent(p, Initial(routed), put.repo, []) == (Initial(routed), true);
  }

}
