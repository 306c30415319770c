/** What lasts over runs: stored blobs, deleted tags, tags resolved upstream; and
    what a restart, a collection and `cache-rm` leave. */
module RegistryLasting {

  import opened Base
  import opened Digests
  import opened Reachability
  import opened BlobStore
  import opened LocalTags
  import UpstreamTags
  import Uploads
  import opened RepoDiscovery
  import opened Registry
  import opened RegistryRuns
  import opened RegistryAnswers

  // ----- collection -----

  /** A tag in the sidecar, or an extra root, names `d`. */
  ghost predicate IsRoot(s: State, extra: set<Digest>, repo: Repo, d: Digest) {
    || d in extra
    || (repo in s.tags.disk && exists tag :: tag in s.tags.disk[repo] && Parse(s.tags.disk[repo][tag]) == Some(d))
  }

  /** Some path of config, layer and manifest links leads to `d` from such a root. */
  ghost predicate Rooted(p: Params, s: State, extra: set<Digest>, repo: Repo, d: Digest) {
    exists path :: && IsPath(p.view, BlobsOf(s.store.blobs, repo), path)
                   && IsRoot(s, extra, repo, path[0]) && path[|path| - 1] == d
  }

  lemma TagRootsExact(s: State, extra: set<Digest>, repo: Repo, d: Digest)
    ensures d in TagRoots(DiskTags(s.tags.disk, repo), extra) <==> IsRoot(s, extra, repo, d)
  {
  }

  lemma KeepIffRooted(p: Params, s: State, extra: set<Digest>, repo: Repo, d: Digest)
    ensures d in Keep(p, s, repo, extra) <==> Rooted(p, s, extra, repo, d)
  {
    var blobs, roots := BlobsOf(s.store.blobs, repo), TagRoots(DiskTags(s.tags.disk, repo), extra);
    ReachableIffPath(p.view, blobs, roots, d);
    forall path | IsPath(p.view, blobs, path) ensures path[0] in roots <==> IsRoot(s, extra, repo, path[0]) {
      TagRootsExact(s, extra, repo, path[0]);
    }
    if HasPath(p.view, blobs, roots, d) {
      var path :| Leads(p.view, blobs, roots, path, d);
      assert Rooted(p, s, extra, repo, d);
    }
    if Rooted(p, s, extra, repo, d) {
      var path :| IsPath(p.view, blobs, path) && IsRoot(s, extra, repo, path[0]) && path[|path| - 1] == d;
      assert Leads(p.view, blobs, roots, path, d);
    }
  }

  /** The steps that take a blob away. */
  ghost predicate Takes(p: Params, s: State, op: Op, k: BlobKey) {
    match op
    case DeleteBlob(r, reference, ioOk) => r == k.0 && Parse(reference) == Some(k.1) && ioOk
    case DeleteManifest(r, reference, _, _, ioOk) => r == k.0 && Parse(reference) == Some(k.1) && ioOk
    case ExternalRemove(j) => j == k
    case RemoveDirectory(dir, _) => dir < k.0 + ["blobs", "sha256", k.1.hex]
    case OfflineGc(repos, extra, dryRun, stuck, _) =>
      k.0 in repos && !dryRun && k !in stuck && !Rooted(p, s, extra, k.0, k.1)
    case _ => false
  }

  lemma CollectionTakesIff(p: Params, s: State, op: Op, k: BlobKey)
    requires op.OfflineGc? && k in s.store.blobs
    ensures k in Step(p, s, op).state.store.blobs <==> !Takes(p, s, op, k)
  {
    KeepIffRooted(p, s, op.extra, k.0, k.1);
  }

  lemma DirectoryTakesIff(p: Params, s: State, op: Op, k: BlobKey)
    requires op.RemoveDirectory? && k in s.store.blobs
    ensures k in Step(p, s, op).state.store.blobs <==> !Takes(p, s, op, k)
  {
    assert BlobPath(k.0, k.1) == k.0 + ["blobs", "sha256", k.1.hex];
  }

  lemma DeletesTakeIff(p: Params, s: State, op: Op, k: BlobKey)
    requires (op.DeleteBlob? || op.DeleteManifest?) && Legal(p, s, op) && k in s.store.blobs
    ensures k in Step(p, s, op).state.store.blobs <==> !Takes(p, s, op, k)
  {
    if op.DeleteBlob? {
      BlobDeleteAnswers(s, op.repo, op.reference, op.ioOk);
    } else {
      ManifestDeleteAnswers(p, s, op);
    }
  }

  /** A stored blob lives through a step if and only if the step does not take it:
      an explicit removal, or a collection that no path protects it from. */
  lemma BlobStaysIff(p: Params, s: State, op: Op, k: BlobKey)
    requires Legal(p, s, op) && k in s.store.blobs
    ensures k in Step(p, s, op).state.store.blobs <==> !Takes(p, s, op, k)
  {
    match op
    case PutManifest(_, _, _, _, _) => PutFrame(p, s, op);
    case GetManifest(_, _, _, _, _) => GetFrame(p, s, op);
    case DeleteBlob(_, _, _) => DeletesTakeIff(p, s, op, k);
    case DeleteManifest(_, _, _, _, _) => DeletesTakeIff(p, s, op, k);
    case OfflineGc(_, _, _, _, _) => CollectionTakesIff(p, s, op, k);
    case RemoveDirectory(_, _) => DirectoryTakesIff(p, s, op, k);
    case Restart(_) =>
    case ExternalRemove(_) =>
    case _ => QuietStep(p, s, op);
  }

  // ----- stored blobs -----

  /** No step of the run takes the blob. */
  ghost predicate Untaken(p: Params, s: State, ops: seq<Op>, k: BlobKey)
    decreases |ops|
  {
    ops != [] && Legal(p, s, ops[0]) ==>
      !Takes(p, s, ops[0], k) && Untaken(p, Step(p, s, ops[0]).state, ops[1..], k)
  }

  lemma {:induction false} RunKeepsBlob(p: Params, s: State, ops: seq<Op>, k: BlobKey)
    requires k in s.store.blobs && Run(p, s, ops).Some? && Untaken(p, s, ops, k)
    ensures k in Run(p, s, ops).value.store.blobs
    decreases |ops|
  {
    if ops != [] {
      BlobStaysIff(p, s, ops[0], k);
      RunKeepsBlob(p, Step(p, s, ops[0]).state, ops[1..], k);
    }
  }

  /** A stored blob, through any run that does not take it, is what a pull of its
      digest gives: exactly the stored bytes, unless the run has stored other bytes
      under the digest, and in any case bytes of that hash. */
  lemma StoredBlobIsServed(p: Params, s: State, k: BlobKey, bytes: Bytes, ops: seq<Op>, reference: string)
    requires k in s.store.blobs && s.store.blobs[k] == bytes && Parse(reference) == Some(k.1)
    requires Run(p, s, ops).Some? && Untaken(p, s, ops, k)
    ensures var r := Step(p, Run(p, s, ops).value, GetBlob(k.0, reference));
            && r.response.BlobBytes?
            && (OneContent(p, s, ops, k) ==> r.response.bytes == bytes)
            && (Sound(p, s) ==> p.hash(r.response.bytes) == k.1)
  {
    BlobAtTheEnd(p, s, k, bytes, ops);
    BlobAnswers(p, Run(p, s, ops).value, k.0, reference);
  }

  lemma BlobAtTheEnd(p: Params, s: State, k: BlobKey, bytes: Bytes, ops: seq<Op>)
    requires k in s.store.blobs && s.store.blobs[k] == bytes && Run(p, s, ops).Some? && Untaken(p, s, ops, k)
    ensures var t := Run(p, s, ops).value;
            && k in t.store.blobs
            && (OneContent(p, s, ops, k) ==> t.store.blobs[k] == bytes)
            && (Sound(p, s) ==> p.hash(t.store.blobs[k]) == k.1)
  {
    RunKeepsBlob(p, s, ops, k);
    EndContent(p, s, ops, k);
    assert bytes in ContentsOf(p, s, ops, k);
    if Sound(p, s) { RunKeepsSound(p, s, ops); }
  }

  /** An upload that is finished with success has stored the bytes of its session. */
  lemma FinishedUploadIsStored(p: Params, s: State, call: Uploads.Call)
    requires Uploads.Agree(s.uploads) && call.CallFinalize? && call.key in s.uploads.sessions
    requires DoUpload(p, s, call).response.Upload? && DoUpload(p, s, call).response.reply.Total?
    ensures var t := DoUpload(p, s, call).state;
            var all := s.uploads.sessions[call.key].hashed + call.last;
            && p.hash(all) == call.expected && t.store.blobs == s.store.blobs[(call.key.0, call.expected) := all]
            && call.key !in t.uploads.sessions
  {
    Uploads.ServeRefines(p.hash, Uploads.Server(s.uploads, s.store.blobs), call);
    if call.last == [] { assert s.uploads.sessions[call.key].hashed + call.last ==
      s.uploads.sessions[call.key].hashed; }
  }

  /** So what was uploaded is what a pull of it gives, as long as nothing takes it. */
  lemma UploadedBlobIsServed(p: Params, s: State, call: Uploads.Call, ops: seq<Op>, reference: string)
    requires Uploads.Agree(s.uploads) && call.CallFinalize? && call.key in s.uploads.sessions
    requires var r := Step(p, s, UploadCall(call)); r.response.Upload? && r.response.reply.Total?
    requires Parse(reference) == Some(call.expected)
    requires var t := Step(p, s, UploadCall(call)).state;
             Run(p, t, ops).Some? && Untaken(p, t, ops, (call.key.0, call.expected))
    ensures var t := Step(p, s, UploadCall(call)).state;
            var r := Step(p, Run(p, t, ops).value, GetBlob(call.key.0, reference));
            && r.response.BlobBytes?
            && (OneContent(p, t, ops, (call.key.0, call.expected)) ==>
                  r.response.bytes == s.uploads.sessions[call.key].hashed + call.last)
            && (Sound(p, s) ==> p.hash(r.response.bytes) == call.expected)
  {
    var t := Step(p, s, UploadCall(call)).state;
    FinishedUploadIsStored(p, s, call);
    if Sound(p, s) { StepKeepsSound(p, s, UploadCall(call)); }
    var all := s.uploads.sessions[call.key].hashed + call.last;
    StoredBlobIsServed(p, t, (call.key.0, call.expected), all, ops, reference);
  }

  /** And so is what a fetch has promoted. */
  lemma PromotedBlobIsServed(p: Params, s: State, op: Op, ops: seq<Op>, reference: string)
    requires op.Promote? && Legal(p, s, op) && Parse(reference) == Some(op.key.1)
    requires var t := Step(p, s, op).state; Run(p, t, ops).Some? && Untaken(p, t, ops, op.key)
    ensures var t := Step(p, s, op).state;
            var r := Step(p, Run(p, t, ops).value, GetBlob(op.key.0, reference));
            && r.response.BlobBytes?
            && (OneContent(p, t, ops, op.key) ==> r.response.bytes == op.bytes)
            && (Sound(p, s) ==> p.hash(r.response.bytes) == op.key.1)
  {
    if Sound(p, s) { StepKeepsSound(p, s, op); }
    StoredBlobIsServed(p, Step(p, s, op).state, op.key, op.bytes, ops, reference);
  }

  // ----- deleted tags -----

  /** The tag is neither in memory nor in the sidecar. */
  ghost predicate Gone(t: Tags, repo: Repo, tag: string) {
    (repo, tag) !in t.mem && (repo in t.disk ==> tag !in t.disk[repo])
  }

  lemma SidecarKeepsGone(t: Tags, r: Repo, writeOk: bool, repo: Repo, tag: string)
    requires Gone(t, repo, tag)
    ensures Gone(WriteSidecar(t, r, writeOk), repo, tag)
  {
    RepoTagsExact(t.mem, repo, tag);
  }

  lemma {:induction false} RemoveEachKeepsGone(t: Tags, r: Repo, order: seq<string>, oks: seq<bool>, repo: Repo,
                                               tag: string)
    requires |oks| == |order| && Gone(t, repo, tag)
    ensures Gone(RemoveEach(t, r, order, oks), repo, tag)
    decreases |order|
  {
    if order != [] {
      var u := Remove(t, r, order[0], oks[0]);
      if (r, order[0]) in t.mem { SidecarKeepsGone(t.(mem := t.mem - {(r, order[0])}), r, oks[0], repo, tag); }
      RemoveEachKeepsGone(u, r, order[1..], oks[1..], repo, tag);
    }
  }

  /** A delete of a tag that is answered with success removes it from memory and from
      the sidecar. */
  lemma DeletedTagIsGone(p: Params, s: State, op: Op)
    requires op.DeleteManifest? && Legal(p, s, op) && Parse(op.reference).None?
    requires DoDelete(s, op).response == Accepted
    ensures Gone(DoDelete(s, op).state.tags, op.repo, op.reference)
  {
    ManifestDeleteAnswers(p, s, op);
    RepoTagsExact(s.tags.mem - {(op.repo, op.reference)}, op.repo, op.reference);
  }

  /** In a delete by digest, a tag that is taken along is out of the sidecar too if
      and only if its own sidecar write, or one after it, went through. */
  lemma {:induction false} TakenAlongIff(t: Tags, repo: Repo, order: seq<string>, oks: seq<bool>, i: nat)
    requires |oks| == |order| && i < |order| && NoDuplicates(order)
    requires (forall j :: 0 <= j < |order| ==> (repo, order[j]) in t.mem) && order[i] in DiskTags(t.disk, repo)
    ensures Gone(RemoveEach(t, repo, order, oks), repo, order[i]) <==> exists j :: i <= j < |order| && oks[j]
    decreases |order|
  {
    var tag := order[i];
    var u := Remove(t, repo, order[0], oks[0]);
    RepoTagsExact(t.mem - {(repo, order[0])}, repo, tag);
    if i > 0 {
      TakenAlongIff(u, repo, order[1..], oks[1..], i - 1);
      assert forall j :: 1 <= j < |order| ==> oks[1..][j - 1] == oks[j];
    } else if oks[0] {
      RemoveEachKeepsGone(u, repo, order[1..], oks[1..], repo, tag);
    } else {
      OthersTakeAlongIff(u, repo, order[1..], oks[1..], tag);
      assert forall j :: 1 <= j < |order| ==> oks[1..][j - 1] == oks[j];
    }
  }

  /** A tag that is out of memory leaves the sidecar with the next write to it. */
  lemma {:induction false} OthersTakeAlongIff(t: Tags, repo: Repo, order: seq<string>, oks: seq<bool>, tag: string)
    requires |oks| == |order| && NoDuplicates(order) && (repo, tag) !in t.mem && tag in DiskTags(t.disk, repo)
    requires forall j :: 0 <= j < |order| ==> (repo, order[j]) in t.mem
    ensures Gone(RemoveEach(t, repo, order, oks), repo, tag) <==> exists j :: 0 <= j < |order| && oks[j]
    decreases |order|
  {
    if order != [] {
      var u := Remove(t, repo, order[0], oks[0]);
      RepoTagsExact(t.mem - {(repo, order[0])}, repo, tag);
      if oks[0] {
        RemoveEachKeepsGone(u, repo, order[1..], oks[1..], repo, tag);
      } else {
        OthersTakeAlongIff(u, repo, order[1..], oks[1..], tag);
        assert forall j :: 1 <= j < |order| ==> oks[1..][j - 1] == oks[j];
      }
    }
  }

  /** So when all sidecar writes go through, every tag that named the digest is gone. */
  lemma DigestDeleteTakesTags(p: Params, s: State, op: Op, d: Digest, tag: string)
    requires op.DeleteManifest? && Legal(p, s, op) && Parse(op.reference) == Some(d)
    requires (op.repo, tag) in s.tags.mem && s.tags.mem[(op.repo, tag)] == "sha256" + ":" + d.hex
    requires forall i :: 0 <= i < |op.oks| ==> op.oks[i]
    ensures Gone(DoDelete(s, op).state.tags, op.repo, tag)
  {
    var i :| 0 <= i < |op.order| && op.order[i] == tag;
    assert forall j :: 0 <= j < |op.order| ==> op.order[j] in op.order;
    AllWritesTakeAlong(s.tags, op.repo, op.order, op.oks, tag);
  }

  lemma {:induction false} AllWritesTakeAlong(t: Tags, repo: Repo, order: seq<string>, oks: seq<bool>, tag: string)
    requires |oks| == |order| && NoDuplicates(order) && tag in order && forall i :: 0 <= i < |oks| ==> oks[i]
    requires forall j :: 0 <= j < |order| ==> (repo, order[j]) in t.mem
    ensures Gone(RemoveEach(t, repo, order, oks), repo, tag)
    decreases |order|
  {
    var u := Remove(t, repo, order[0], oks[0]);
    RepoTagsExact(t.mem - {(repo, order[0])}, repo, tag);
    if order[0] == tag {
      RemoveEachKeepsGone(u, repo, order[1..], oks[1..], repo, tag);
    } else {
      AllWritesTakeAlong(u, repo, order[1..], oks[1..], tag);
    }
  }

  /** The one step that brings a tag back. */
  predicate Records(p: Params, s: State, op: Op, repo: Repo, tag: string) {
    op.PutManifest? && op.repo == repo && op.reference == tag && RecordsTag(p, s, op)
  }

  lemma DeletesKeepGone(p: Params, s: State, op: Op, repo: Repo, tag: string)
    requires op.DeleteManifest? && |op.oks| == |op.order| && Gone(s.tags, repo, tag)
    ensures Gone(DoDelete(s, op).state.tags, repo, tag)
  {
    if Parse(op.reference).Some? {
      RemoveEachKeepsGone(s.tags, op.repo, op.order, op.oks, repo, tag);
    } else if (op.repo, op.reference) in s.tags.mem {
      SidecarKeepsGone(s.tags.(mem := s.tags.mem - {(op.repo, op.reference)}), op.repo, op.blobOk, repo, tag);
    }
  }

  lemma BootKeepsGone(s: State, routed: Repo -> bool, repo: Repo, tag: string)
    requires repo in s.tags.disk ==> tag !in s.tags.disk[repo]
    ensures Gone(Boot(s, routed).tags, repo, tag)
  {
  }

  lemma PutKeepsGoneIff(p: Params, s: State, op: Op, repo: Repo, tag: string)
    requires op.PutManifest? && Gone(s.tags, repo, tag)
    ensures Gone(DoPut(p, s, op).state.tags, repo, tag) <==> !Records(p, s, op, repo, tag)
  {
    PutFrame(p, s, op);
    if RecordsTag(p, s, op) && !Records(p, s, op, repo, tag) {
      var text := Display(p.hash(op.body));
      SidecarKeepsGone(s.tags.(mem := s.tags.mem[(op.repo, op.reference) := text]), op.repo, op.tagOk, repo, tag);
    }
  }

  lemma StepKeepsGoneIff(p: Params, s: State, op: Op, repo: Repo, tag: string)
    requires Legal(p, s, op) && Gone(s.tags, repo, tag)
    ensures Gone(Step(p, s, op).state.tags, repo, tag) <==> !Records(p, s, op, repo, tag)
  {
    match op
    case PutManifest(_, _, _, _, _) => PutKeepsGoneIff(p, s, op, repo, tag);
    case GetManifest(_, _, _, _, _) => GetFrame(p, s, op);
    case DeleteManifest(_, _, _, _, _) => DeletesKeepGone(p, s, op, repo, tag);
    case DeleteBlob(r, reference, ioOk) => BlobDeleteFrame(s, r, reference, ioOk);
    case Restart(routed) => BootKeepsGone(s, routed, repo, tag);
    case OfflineGc(repos, extra, dryRun, stuck, routed) =>
      BootKeepsGone(Collect(p, s, repos, extra, dryRun, stuck), routed, repo, tag);
    case RemoveDirectory(dir, routed) => BootKeepsGone(RemoveTree(s, dir), routed, repo, tag);
    case ExternalRemove(_) =>
    case _ => QuietStep(p, s, op);
  }

  /** No step of the run records the tag. */
  ghost predicate Unrecorded(p: Params, s: State, ops: seq<Op>, repo: Repo, tag: string)
    decreases |ops|
  {
    ops != [] && Legal(p, s, ops[0]) ==>
      !Records(p, s, ops[0], repo, tag) && Unrecorded(p, Step(p, s, ops[0]).state, ops[1..], repo, tag)
  }

  /** A deleted tag stays gone through any run without a push of it, restarts and
      collections included. */
  lemma {:induction false} DeletedTagStaysGone(p: Params, s: State, ops: seq<Op>, repo: Repo, tag: string)
    requires Gone(s.tags, repo, tag) && Run(p, s, ops).Some? && Unrecorded(p, s, ops, repo, tag)
    ensures Gone(Run(p, s, ops).value.tags, repo, tag)
    decreases |ops|
  {
    if ops != [] {
      StepKeepsGoneIff(p, s, ops[0], repo, tag);
      DeletedTagStaysGone(p, Step(p, s, ops[0]).state, ops[1..], repo, tag);
    }
  }

  /** A digest delete ignores failed sidecar writes. When all of them fail, the answer
      is the same, but a restart brings every such tag back. */
  lemma IgnoredFailureRevivesTag(p: Params, s: State, op: Op, d: Digest, tag: string, routed: Repo -> bool)
    requires op.DeleteManifest? && Legal(p, s, op) && Parse(op.reference) == Some(d) && op.blobOk
    requires Holds(s, op.repo, tag, d) && "blobs" !in op.repo && "_uploads" !in op.repo
    requires forall i :: 0 <= i < |op.oks| ==> !op.oks[i]
    ensures var r := DoDelete(s, op);
            && r.response == Accepted && (op.repo, tag) !in r.state.tags.mem
            && var t := Boot(r.state, routed);
               (op.repo, tag) in t.tags.mem && t.tags.mem[(op.repo, tag)] == "sha256" + ":" + d.hex
  {
    ManifestDeleteAnswers(p, s, op);
    FailedWritesKeepDisk(s.tags, op.repo, op.order, op.oks);
    BootKeepsTag(DoDelete(s, op).state, routed, op.repo, tag, Display(d));
  }

  lemma {:induction false} FailedWritesKeepDisk(t: Tags, repo: Repo, order: seq<string>, oks: seq<bool>)
    requires |oks| == |order| && forall i :: 0 <= i < |oks| ==> !oks[i]
    ensures RemoveEach(t, repo, order, oks).disk == t.disk
    decreases |order|
  {
    if order != [] {
      FailedWritesKeepDisk(Remove(t, repo, order[0], oks[0]), repo, order[1..], oks[1..]);
    }
  }

  // ----- restarts -----

  /** A restart forgets every upload, every metadata entry and every pending cache
      update; it keeps every blob and every sidecar, and the time. */
  lemma RestartForgets(p: Params, s: State, routed: Repo -> bool)
    ensures var t := Step(p, s, Restart(routed)).state;
            && t.store.blobs == s.store.blobs && t.tags.disk == s.tags.disk && t.upstream.disk == s.upstream.disk
            && t.now == s.now && (forall repo :: t.routed(repo) == routed(repo))
            && t.store.meta == map[] && t.uploads.sessions == map[] && t.promoting == multiset{}
  {
  }

  /** So every upload has to be started again. */
  lemma UploadsEndWithRestart(p: Params, s: State, routed: Repo -> bool, call: Uploads.Call)
    requires call.CallAppend? || call.CallFinalize?
    ensures DoUpload(p, Boot(s, routed), call).response == Upload(Uploads.NoSession)
  {
  }

  /** What is entered into the tag cache is written to the file of its repository. */
  lemma InsertedIsWritten(c: UpstreamTags.Cache, repo: Repo, tag: string, d: Digest, now: nat)
    ensures var disk := UpstreamTags.Insert(c, repo, tag, d, now, true).disk;
            repo in disk && tag in disk[repo] && disk[repo][tag] == "sha256" + ":" + d.hex
  {
    SnapshotExact(c.entries[(repo, tag) := UpstreamTags.Cached(d, now)], repo, tag);
  }

  /** A tag in such a file is fresh again after a restart, with the same digest, if and
      only if startup finds its repository. */
  lemma CachedTagAfterRestart(p: Params, s: State, repo: Repo, tag: string, d: Digest, routed: Repo -> bool)
    requires p.tagTtl > 0 && repo in s.upstream.disk && tag in s.upstream.disk[repo]
    requires s.upstream.disk[repo][tag] == "sha256" + ":" + d.hex
    ensures UpstreamTags.Lookup(Boot(s, routed).upstream, repo, tag, s.now, p.tagTtl) ==
            if "blobs" !in repo && "_uploads" !in repo then UpstreamTags.Fresh(d) else UpstreamTags.Miss
  {
    ParseDisplay(d);
    ReloadedEntry(s.upstream.disk, s.now, repo, tag);
  }

  lemma SnapshotExact(entries: map<TagKey, UpstreamTags.Cached>, repo: Repo, tag: string)
    ensures tag in UpstreamTags.Snapshot(entries, repo) <==> (repo, tag) in entries
    ensures (repo, tag) in entries ==> UpstreamTags.Snapshot(entries, repo)[tag] == Display(entries[(repo, tag)].digest)
  {
  }

  lemma ReloadedEntry(disk: map<Repo, TagMap>, now: nat, repo: Repo, tag: string)
    ensures var entries := UpstreamTags.ReloadCache(disk, now).entries;
            && ((repo, tag) in entries <==>
                repo in disk && tag in disk[repo] && Parse(disk[repo][tag]).Some? &&
                "blobs" !in repo && "_uploads" !in repo)
            && ((repo, tag) in entries ==>
                  entries[(repo, tag)] == UpstreamTags.Cached(Parse(disk[repo][tag]).value, now))
  {
  }

  /** `cache-rm` leaves no file below the directory, and every other one as it was. */
  lemma RemoveDirectoryExact(p: Params, s: State, dir: Repo, routed: Repo -> bool, repo: Repo, d: Digest)
    ensures var t := Step(p, s, RemoveDirectory(dir, routed)).state;
            && ((repo, d) in t.store.blobs <==>
                  (repo, d) in s.store.blobs && !(dir < repo + ["blobs", "sha256", d.hex]))
            && ((repo, d) in t.store.blobs ==> t.store.blobs[(repo, d)] == s.store.blobs[(repo, d)])
  {
    assert BlobPath(repo, d) == repo + ["blobs", "sha256", d.hex];
  }

  /** The same for the sidecars. */
  lemma RemoveTreeTakesLocalTags(s: State, dir: Repo, repo: Repo)
    ensures DiskTags(RemoveTree(s, dir).tags.disk, repo) ==
            if dir < repo + ["_local_tags.json"] then map[] else DiskTags(s.tags.disk, repo)
  {
  }

  lemma RemoveTreeTakesUpstreamTags(s: State, dir: Repo, repo: Repo)
    ensures DiskTags(RemoveTree(s, dir).upstream.disk, repo) ==
            if dir < repo + ["_upstream_tags.json"] then map[] else DiskTags(s.upstream.disk, repo)
  {
  }

}
