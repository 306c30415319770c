/** Pushed images stay complete: exactly which steps leave a local tag without its
    manifest, its config or a layer, tag by tag. */
module RegistryCompleteness {

  import opened Base
  import opened Digests
  import opened Reachability
  import opened BlobStore
  import opened LocalTags
  import opened RepoDiscovery
  import opened Registry
  import opened RegistryRuns
  import opened RegistryIntegrity

  // ----- what an image needs -----

  /** The blob a tag text names is present, and so is every blob that push
      validation requires of it. */
  ghost predicate Complete(p: Params, blobs: map<BlobKey, Bytes>, repo: Repo, text: string) {
    Parse(text).Some? ==>
      var k := (repo, Parse(text).value);
      k in blobs && forall ref :: ref in RequiredBy(p, blobs[k]) ==>
        Parse(ref).Some? && (repo, Parse(ref).value) in blobs
  }

  /** The manifest that a tag text names, and what the manifest requires. */
  ghost predicate Needed(p: Params, blobs: map<BlobKey, Bytes>, repo: Repo, text: string, k: BlobKey) {
    Parse(text).Some? &&
    var m := (repo, Parse(text).value);
    k == m || (m in blobs && Requires(p, blobs[m], repo, k))
  }

  /** The manifest requires the blob. */
  ghost predicate Requires(p: Params, manifest: Bytes, repo: Repo, k: BlobKey) {
    exists ref :: ref in RequiredBy(p, manifest) && Parse(ref).Some? && k == (repo, Parse(ref).value)
  }

  /** What a tag says, in memory and in its sidecar. */
  function Texts(t: Tags, repo: Repo, tag: string): set<string> {
    (if (repo, tag) in t.mem then {t.mem[(repo, tag)]} else {}) + DiskText(t, repo, tag)
  }

  function DiskText(t: Tags, repo: Repo, tag: string): set<string> {
    if tag in DiskTags(t.disk, repo) then {DiskTags(t.disk, repo)[tag]} else {}
  }

  /** Whatever the tag says names a complete image. */
  ghost predicate TagComplete(p: Params, s: State, repo: Repo, tag: string) {
    forall text :: text in Texts(s.tags, repo, tag) ==> Complete(p, s.store.blobs, repo, text)
  }

  ghost predicate NeededByAny(p: Params, s: State, repo: Repo, texts: set<string>, k: BlobKey) {
    exists text :: text in texts && Needed(p, s.store.blobs, repo, text, k)
  }

  /** What the check of a push takes for present: it asks the cache first. */
  predicate Seen(p: Params, s: State, k: BlobKey) {
    k in s.store.blobs || CacheGet(s.store.meta, k, s.now, p.metaTtl).Some?
  }

  /** A blob that the manifest requires is not on disk, though the cache says so. */
  ghost predicate Deceived(p: Params, s: State, repo: Repo, body: Bytes) {
    exists ref :: ref in RequiredBy(p, body) && Parse(ref).Some? &&
      var k := (repo, Parse(ref).value);
      k !in s.store.blobs && k != (repo, p.hash(body)) && CacheGet(s.store.meta, k, s.now, p.metaTtl).Some?
  }

  /** The steps that remove a blob which the image of a tag needs. A delete by digest
      takes the tags of that digest along where it can; removing the directory of
      the repository takes all its tags along. */
  ghost predicate RemovesNeeded(p: Params, s: State, op: Op, repo: Repo, tag: string) {
    match op
    case DeleteBlob(r, reference, ioOk) =>
      ioOk && r == repo && Parse(reference).Some? &&
      NeededByAny(p, s, repo, Texts(s.tags, repo, tag), (repo, Parse(reference).value))
    case DeleteManifest(r, reference, order, oks, ioOk) =>
      ioOk && r == repo && Parse(reference).Some? && |oks| == |order| &&
      NeededByAny(p, s, repo, Texts(RemoveEach(s.tags, r, order, oks), repo, tag), (repo, Parse(reference).value))
    case ExternalRemove(k) => NeededByAny(p, s, repo, Texts(s.tags, repo, tag), k)
    case RemoveDirectory(dir, _) =>
      !(dir < LocalTagsPath(repo)) &&
      exists k: BlobKey :: dir < BlobPath(k.0, k.1) && NeededByAny(p, s, repo, DiskText(s.tags, repo, tag), k)
    case _ => false
  }

  /** The steps that break the image of a tag: such a removal, or an accepted push
      of the tag that the cache has deceived. */
  ghost predicate Hurts(p: Params, s: State, op: Op, repo: Repo, tag: string) {
    || RemovesNeeded(p, s, op, repo, tag)
    || (&& op.PutManifest? && op.repo == repo && op.reference == tag
        && RecordsTag(p, s, op) && Deceived(p, s, repo, op.body))
  }

  // ----- texts -----

  lemma SetTexts(t: Tags, r: Repo, written: string, d: Digest, ok: bool, repo: Repo, tag: string)
    ensures Texts(Set(t, r, written, d, ok), repo, tag) <=
            Texts(t, repo, tag) + if (r, written) == (repo, tag) then {Display(d)} else {}
  {
    RepoTagsExact(t.mem[(r, written) := Display(d)], repo, tag);
  }

  lemma RemoveTexts(t: Tags, r: Repo, removed: string, ok: bool, repo: Repo, tag: string)
    ensures Texts(Remove(t, r, removed, ok), repo, tag) <= Texts(t, repo, tag)
  {
    RepoTagsExact(t.mem - {(r, removed)}, repo, tag);
  }

  lemma {:induction false} RemoveEachTexts(t: Tags, r: Repo, order: seq<string>, oks: seq<bool>, repo: Repo,
                                           tag: string)
    requires |oks| == |order|
    ensures Texts(RemoveEach(t, r, order, oks), repo, tag) <= Texts(t, repo, tag)
    decreases |order|
  {
    if order != [] {
      RemoveTexts(t, r, order[0], oks[0], repo, tag);
      RemoveEachTexts(Remove(t, r, order[0], oks[0]), r, order[1..], oks[1..], repo, tag);
    }
  }

  lemma BootTexts(s: State, routed: Repo -> bool, repo: Repo, tag: string)
    ensures Texts(Boot(s, routed).tags, repo, tag) <= DiskText(s.tags, repo, tag)
  {
  }

  // ----- keeping an image complete -----

  /** The manifest that `text` names is not replaced by other bytes. */
  ghost predicate SameManifest(before: map<BlobKey, Bytes>, after: map<BlobKey, Bytes>, repo: Repo, text: string) {
    Parse(text).Some? ==>
      var m := (repo, Parse(text).value); m in before && m in after ==> after[m] == before[m]
  }

  /** None of the manifests that a tag names is replaced by other bytes. */
  ghost predicate ManifestsKept(s: State, t: State, repo: Repo, tag: string) {
    forall text :: text in Texts(s.tags, repo, tag) ==> SameManifest(s.store.blobs, t.store.blobs, repo, text)
  }

  lemma CompleteKept(p: Params, before: map<BlobKey, Bytes>, after: map<BlobKey, Bytes>, repo: Repo, text: string)
    requires Complete(p, before, repo, text) && SameManifest(before, after, repo, text)
    requires forall k :: k in before && Needed(p, before, repo, text, k) ==> k in after
    ensures Complete(p, after, repo, text)
  {
    if Parse(text).Some? {
      var m := (repo, Parse(text).value);
      forall ref | ref in RequiredBy(p, after[m]) ensures Parse(ref).Some? && (repo, Parse(ref).value) in after {
        assert Needed(p, before, repo, text, (repo, Parse(ref).value));
      }
    }
  }

  /** The blobs that `texts` need survive. */
  ghost predicate Survive(p: Params, s: State, t: State, repo: Repo, texts: set<string>) {
    forall k :: k in s.store.blobs && NeededByAny(p, s, repo, texts, k) ==> k in t.store.blobs
  }

  /** If all that a tag says was said before, or names a complete image, and what
      was needed before survives, the tag stays complete. */
  lemma TagKept(p: Params, s: State, t: State, repo: Repo, tag: string, texts: set<string>, news: set<string>)
    requires TagComplete(p, s, repo, tag) && ManifestsKept(s, t, repo, tag) && texts <= Texts(s.tags, repo, tag)
    requires Survive(p, s, t, repo, texts)
    requires Texts(t.tags, repo, tag) <= texts + news
    requires forall text :: text in news ==> Complete(p, t.store.blobs, repo, text)
    ensures TagComplete(p, t, repo, tag)
  {
    forall text | text in Texts(t.tags, repo, tag) ensures Complete(p, t.store.blobs, repo, text) {
      if text in texts {
        forall k | k in s.store.blobs && Needed(p, s.store.blobs, repo, text, k) ensures k in t.store.blobs {
          assert NeededByAny(p, s, repo, texts, k);
        }
        CompleteKept(p, s.store.blobs, t.store.blobs, repo, text);
      }
    }
  }

  // ----- pushes -----

  /** The check of a push passes exactly when every reference parses and is on disk
      or in a fresh cache entry; its own cache updates change nothing about that. */
  lemma {:induction false} CheckPassesIff(p: Params, s: State, repo: Repo, refs: seq<string>)
    ensures CheckPresent(p, s, repo, refs).1 <==>
            forall ref :: ref in refs ==> Parse(ref).Some? && Seen(p, s, (repo, Parse(ref).value))
    decreases |refs|
  {
    if refs != [] {
      assert refs[0] in refs;
      assert forall ref :: ref in refs <==> ref == refs[0] || ref in refs[1..];
      if Parse(refs[0]).Some? {
        var t := MetaOf(p, s, (repo, Parse(refs[0]).value)).0;
        LookupKeepsSeen(p, s, (repo, Parse(refs[0]).value));
        CheckPassesIff(p, t, repo, refs[1..]);
      }
    }
  }

  lemma LookupKeepsSeen(p: Params, s: State, j: BlobKey)
    ensures MetaOf(p, s, j).1.Some? <==> Seen(p, s, j)
    ensures forall k :: Seen(p, MetaOf(p, s, j).0, k) <==> Seen(p, s, k)
  {
  }

  /** An accepted push names a complete image if and only if the cache has not
      deceived it. */
  lemma RecordedCompleteIff(p: Params, s: State, op: Op)
    requires op.PutManifest? && RecordsTag(p, s, op)
    ensures Complete(p, DoPut(p, s, op).state.store.blobs, op.repo, Display(p.hash(op.body))) <==>
            !Deceived(p, s, op.repo, op.body)
  {
    PutFrame(p, s, op);
    ParseDisplay(p.hash(op.body));
    CheckPassesIff(p, s, op.repo, RequiredBy(p, op.body));
  }

  lemma RecordedText(p: Params, s: State, op: Op)
    requires op.PutManifest? && RecordsTag(p, s, op)
    ensures Display(p.hash(op.body)) in Texts(DoPut(p, s, op).state.tags, op.repo, op.reference)
    ensures op.tagOk ==> Texts(DoPut(p, s, op).state.tags, op.repo, op.reference) == {Display(p.hash(op.body))}
  {
    PutFrame(p, s, op);
    RepoTagsExact(DoPut(p, s, op).state.tags.mem, op.repo, op.reference);
  }

  /** So a push that is answered with success leaves an incomplete image if and only
      if something it requires is gone from the disk but not yet from the cache. */
  lemma PushCompleteIff(p: Params, s: State, op: Op)
    requires op.PutManifest? && IsTag(op.reference) && DoPut(p, s, op).response.Created?
    ensures TagComplete(p, DoPut(p, s, op).state, op.repo, op.reference) <==> !Deceived(p, s, op.repo, op.body)
  {
    PutFrame(p, s, op);
    RecordedCompleteIff(p, s, op);
    RecordedText(p, s, op);
  }

  lemma PutKeepsComplete(p: Params, s: State, op: Op, repo: Repo, tag: string)
    requires op.PutManifest? && TagComplete(p, s, repo, tag) && ManifestsKept(s, DoPut(p, s, op).state, repo, tag)
    ensures TagComplete(p, DoPut(p, s, op).state, repo, tag) <==> !Hurts(p, s, op, repo, tag)
  {
    var t := DoPut(p, s, op).state;
    var d := p.hash(op.body);
    var mine := RecordsTag(p, s, op) && (op.repo, op.reference) == (repo, tag);
    PutFrame(p, s, op);
    if mine {
      RecordedCompleteIff(p, s, op);
      RecordedText(p, s, op);
    }
    if !Hurts(p, s, op, repo, tag) {
      if RecordsTag(p, s, op) {
        SetTexts(s.tags, op.repo, op.reference, d, op.tagOk, repo, tag);
      }
      TagKept(p, s, t, repo, tag, Texts(s.tags, repo, tag), if mine then {Display(d)} else {});
    }
  }

  lemma PlainStepsKeepComplete(p: Params, s: State, op: Op, repo: Repo, tag: string)
    requires Legal(p, s, op) && TagComplete(p, s, repo, tag) && ManifestsKept(s, Step(p, s, op).state, repo, tag)
    requires op.GetManifest? || op.GetBlob? || op.UploadCall? || op.Promote? || op.Populate? || op.Tick?
    ensures TagComplete(p, Step(p, s, op).state, repo, tag)
  {
    if op.GetManifest? { GetFrame(p, s, op); } else { QuietStep(p, s, op); }
    TagKept(p, s, Step(p, s, op).state, repo, tag, Texts(s.tags, repo, tag), {});
  }

  // ----- removals -----

  /** A text that is still said, with something it needs gone. */
  lemma MissingBreaks(p: Params, s: State, t: State, repo: Repo, tag: string, text: string, k: BlobKey)
    requires text in Texts(t.tags, repo, tag) && Complete(p, s.store.blobs, repo, text)
    requires Needed(p, s.store.blobs, repo, text, k) && k !in t.store.blobs
    requires SameManifest(s.store.blobs, t.store.blobs, repo, text)
    ensures !TagComplete(p, t, repo, tag)
  {
    assert !Complete(p, t.store.blobs, repo, text);
  }

  lemma NeedsOwnRepo(p: Params, s: State, repo: Repo, texts: set<string>, k: BlobKey)
    requires NeededByAny(p, s, repo, texts, k)
    ensures k.0 == repo
  {
  }

  /** Removing a blob, while tags are at most forgotten, keeps a tag complete if and
      only if nothing that is still said needs the blob. */
  lemma RemovalKeepsCompleteIff(p: Params, s: State, t: State, k: BlobKey, repo: Repo, tag: string)
    requires TagComplete(p, s, repo, tag)
    requires t.store.blobs == s.store.blobs - {k} && Texts(t.tags, repo, tag) <= Texts(s.tags, repo, tag)
    ensures TagComplete(p, t, repo, tag) <==> !NeededByAny(p, s, repo, Texts(t.tags, repo, tag), k)
  {
    if NeededByAny(p, s, repo, Texts(t.tags, repo, tag), k) {
      var text :| text in Texts(t.tags, repo, tag) && Needed(p, s.store.blobs, repo, text, k);
      MissingBreaks(p, s, t, repo, tag, text, k);
    } else {
      TagKept(p, s, t, repo, tag, Texts(t.tags, repo, tag), {});
    }
  }

  lemma ForgettingKeepsComplete(p: Params, s: State, t: State, repo: Repo, tag: string)
    requires TagComplete(p, s, repo, tag) && t.store.blobs == s.store.blobs
    requires Texts(t.tags, repo, tag) <= Texts(s.tags, repo, tag)
    ensures TagComplete(p, t, repo, tag)
  {
    TagKept(p, s, t, repo, tag, Texts(s.tags, repo, tag), {});
  }

  /** What the store does when a blob is deleted. */
  lemma DeleteExact(s: State, k: BlobKey, ioOk: bool)
    ensures Delete(s.store, k, ioOk).0.blobs == if ioOk then s.store.blobs - {k} else s.store.blobs
  {
    assert k !in s.store.blobs ==> s.store.blobs - {k} == s.store.blobs;
  }

  lemma NeededElsewhere(p: Params, s: State, r: Repo, d: Digest, repo: Repo, texts: set<string>)
    requires r != repo
    ensures !NeededByAny(p, s, repo, texts, (r, d))
  {
    if NeededByAny(p, s, repo, texts, (r, d)) {
      NeedsOwnRepo(p, s, repo, texts, (r, d));
    }
  }

  lemma DeletesKeepComplete(p: Params, s: State, op: Op, repo: Repo, tag: string)
    requires op.DeleteManifest? && Legal(p, s, op) && TagComplete(p, s, repo, tag)
    ensures TagComplete(p, DoDelete(s, op).state, repo, tag) <==> !Hurts(p, s, op, repo, tag)
  {
    var t := DoDelete(s, op).state;
    match Parse(op.reference)
    case None =>
      RemoveTexts(s.tags, op.repo, op.reference, op.blobOk, repo, tag);
      ForgettingKeepsComplete(p, s, t, repo, tag);
    case Some(d) =>
      DeleteExact(s, (op.repo, d), op.blobOk);
      RemoveEachTexts(s.tags, op.repo, op.order, op.oks, repo, tag);
      if op.blobOk {
        RemovalKeepsCompleteIff(p, s, t, (op.repo, d), repo, tag);
        if op.repo != repo { NeededElsewhere(p, s, op.repo, d, repo, Texts(t.tags, repo, tag)); }
      } else {
        ForgettingKeepsComplete(p, s, t, repo, tag);
      }
  }

  lemma BlobDeletesKeepComplete(p: Params, s: State, op: Op, repo: Repo, tag: string)
    requires op.DeleteBlob? && TagComplete(p, s, repo, tag)
    ensures TagComplete(p, DoDeleteBlob(s, op.repo, op.reference, op.ioOk).state, repo, tag) <==>
            !Hurts(p, s, op, repo, tag)
  {
    var t := DoDeleteBlob(s, op.repo, op.reference, op.ioOk).state;
    match Parse(op.reference)
    case None =>
    case Some(d) =>
      DeleteExact(s, (op.repo, d), op.ioOk);
      if op.ioOk {
        RemovalKeepsCompleteIff(p, s, t, (op.repo, d), repo, tag);
        if op.repo != repo { NeededElsewhere(p, s, op.repo, d, repo, Texts(t.tags, repo, tag)); }
      } else {
        ForgettingKeepsComplete(p, s, t, repo, tag);
      }
  }

  /** In particular, a DELETE of a blob that goes through. */
  lemma DeleteBlobKeepsCompleteIff(p: Params, s: State, repo: Repo, d: Digest, tag: string)
    requires TagComplete(p, s, repo, tag)
    ensures TagComplete(p, Step(p, s, DeleteBlob(repo, Display(d), true)).state, repo, tag) <==>
            !NeededByAny(p, s, repo, Texts(s.tags, repo, tag), (repo, d))
  {
    ParseDisplay(d);
    BlobDeletesKeepComplete(p, s, DeleteBlob(repo, Display(d), true), repo, tag);
  }

  // ----- offline -----

  /** Collection keeps every blob that a tag in a sidecar needs: it follows every
      link that push validation insisted on. */
  lemma CollectKeepsComplete(p: Params, s: State, op: Op, repo: Repo, tag: string)
    requires op.OfflineGc? && TagComplete(p, s, repo, tag)
    ensures TagComplete(p, Boot(Collect(p, s, op.repos, op.extra, op.dryRun, op.stuck), op.routed), repo, tag)
  {
    var t := Collect(p, s, op.repos, op.extra, op.dryRun, op.stuck);
    var texts := DiskText(s.tags, repo, tag);
    forall k | k in s.store.blobs && NeededByAny(p, s, repo, texts, k)
      ensures k in t.store.blobs
    {
      NeededIsReachable(p, s, op.extra, repo, tag, k);
    }
    BootTexts(t, op.routed, repo, tag);
    TagKept(p, s, Boot(t, op.routed), repo, tag, texts, {});
  }

  lemma NeededIsReachable(p: Params, s: State, extra: set<Digest>, repo: Repo, tag: string, k: BlobKey)
    requires NeededByAny(p, s, repo, DiskText(s.tags, repo, tag), k)
    ensures k.0 == repo && k.1 in Keep(p, s, repo, extra)
  {
    var text := DiskTags(s.tags.disk, repo)[tag];
    var d := Parse(text).value;
    var blobs := BlobsOf(s.store.blobs, repo);
    var roots := TagRoots(DiskTags(s.tags.disk, repo), extra);
    assert Needed(p, s.store.blobs, repo, text, k);
    assert d in roots && d in Keep(p, s, repo, extra);
    if k != (repo, d) {
      var ref :| ref in RequiredBy(p, s.store.blobs[(repo, d)]) && Parse(ref).Some? && k == (repo, Parse(ref).value);
      assert d in blobs && blobs[d] == s.store.blobs[(repo, d)];
      RequiredAreReachable(p.view, blobs, roots, d, ref);
    }
  }

  lemma RemoveTreeKeepsComplete(p: Params, s: State, op: Op, repo: Repo, tag: string)
    requires op.RemoveDirectory? && TagComplete(p, s, repo, tag)
    ensures TagComplete(p, Boot(RemoveTree(s, op.dir), op.routed), repo, tag) <==> !Hurts(p, s, op, repo, tag)
  {
    var t := RemoveTree(s, op.dir);
    BootTexts(t, op.routed, repo, tag);
    RemoveTreeTexts(s, op.dir, repo, tag);
    if Hurts(p, s, op, repo, tag) {
      RemoveTreeBreaks(p, s, op, repo, tag);
    } else if !(op.dir < LocalTagsPath(repo)) {
      RemoveTreeSurvivors(p, s, op, repo, tag);
      TagKept(p, s, Boot(t, op.routed), repo, tag, DiskText(s.tags, repo, tag), {});
    }
  }

  lemma RemoveTreeBreaks(p: Params, s: State, op: Op, repo: Repo, tag: string)
    requires op.RemoveDirectory? && TagComplete(p, s, repo, tag) && Hurts(p, s, op, repo, tag)
    ensures !TagComplete(p, Boot(RemoveTree(s, op.dir), op.routed), repo, tag)
  {
    var k: BlobKey :| op.dir < BlobPath(k.0, k.1) && NeededByAny(p, s, repo, DiskText(s.tags, repo, tag), k);
    var text :| text in DiskText(s.tags, repo, tag) && Needed(p, s.store.blobs, repo, text, k);
    RemoveTreeTexts(s, op.dir, repo, tag);
    RemoveTreeShrinks(s, op.dir);
    RemoveTreeTakes(s, op.dir, k);
    StillSaid(s, op.dir, op.routed, repo, tag);
    MissingBreaks(p, s, Boot(RemoveTree(s, op.dir), op.routed), repo, tag, text, k);
  }

  lemma RemoveTreeTakes(s: State, dir: Repo, k: BlobKey)
    requires dir < BlobPath(k.0, k.1)
    ensures k !in RemoveTree(s, dir).store.blobs
  {
  }

  lemma StillSaid(s: State, dir: Repo, routed: Repo -> bool, repo: Repo, tag: string)
    ensures DiskText(RemoveTree(s, dir).tags, repo, tag) <= Texts(Boot(RemoveTree(s, dir), routed).tags, repo, tag)
  {
  }

  lemma RemoveTreeTexts(s: State, dir: Repo, repo: Repo, tag: string)
    ensures DiskText(RemoveTree(s, dir).tags, repo, tag) == if dir < LocalTagsPath(repo) then {}
            else DiskText(s.tags, repo, tag)
  {
  }

  lemma RemoveTreeSurvivors(p: Params, s: State, op: Op, repo: Repo, tag: string)
    requires op.RemoveDirectory? && !(op.dir < LocalTagsPath(repo)) && !Hurts(p, s, op, repo, tag)
    ensures Survive(p, s, Boot(RemoveTree(s, op.dir), op.routed), repo, DiskText(s.tags, repo, tag))
  {
    var t := RemoveTree(s, op.dir);
    forall k | k in s.store.blobs && NeededByAny(p, s, repo, DiskText(s.tags, repo, tag), k)
      ensures k in t.store.blobs
    {
      assert !(op.dir < BlobPath(k.0, k.1));
    }
  }

  lemma RestartKeepsComplete(p: Params, s: State, routed: Repo -> bool, repo: Repo, tag: string)
    requires TagComplete(p, s, repo, tag)
    ensures TagComplete(p, Boot(s, routed), repo, tag)
  {
    BootTexts(s, routed, repo, tag);
    TagKept(p, s, Boot(s, routed), repo, tag, Texts(s.tags, repo, tag), {});
  }

  // ----- runs -----

  /** A step keeps the image of a tag complete if and only if it does not hurt it:
      not a pull, an upload, a promotion, a removal of anything else, a restart, nor
      garbage collection, and a push only when the cache has deceived it. All that is
      asked of the hash is that the step does not replace the tag's manifest by other
      bytes with the same digest. */
  lemma StepKeepsComplete(p: Params, s: State, op: Op, repo: Repo, tag: string)
    requires Legal(p, s, op) && TagComplete(p, s, repo, tag) && ManifestsKept(s, Step(p, s, op).state, repo, tag)
    ensures TagComplete(p, Step(p, s, op).state, repo, tag) <==> !Hurts(p, s, op, repo, tag)
  {
    match op
    case PutManifest(_, _, _, _, _) => PutKeepsComplete(p, s, op, repo, tag);
    case DeleteManifest(_, _, _, _, _) => DeletesKeepComplete(p, s, op, repo, tag);
    case DeleteBlob(_, _, _) => BlobDeletesKeepComplete(p, s, op, repo, tag);
    case ExternalRemove(k) => RemovalKeepsCompleteIff(p, s, Step(p, s, op).state, k, repo, tag);
    case Restart(routed) => RestartKeepsComplete(p, s, routed, repo, tag);
    case OfflineGc(_, _, _, _, _) => CollectKeepsComplete(p, s, op, repo, tag);
    case RemoveDirectory(_, _) => RemoveTreeKeepsComplete(p, s, op, repo, tag);
    case _ => PlainStepsKeepComplete(p, s, op, repo, tag);
  }

  /** No step of the run hurts the tag. */
  ghost predicate Unhurt(p: Params, s: State, ops: seq<Op>, repo: Repo, tag: string)
    decreases |ops|
  {
    ops != [] && Legal(p, s, ops[0]) ==>
      !Hurts(p, s, ops[0], repo, tag) && Unhurt(p, Step(p, s, ops[0]).state, ops[1..], repo, tag)
  }

  /** No step of the run replaces a manifest of the tag by other bytes. */
  ghost predicate ManifestsStay(p: Params, s: State, ops: seq<Op>, repo: Repo, tag: string)
    decreases |ops|
  {
    ops != [] && Legal(p, s, ops[0]) ==>
      var t := Step(p, s, ops[0]).state; ManifestsKept(s, t, repo, tag) && ManifestsStay(p, t, ops[1..], repo, tag)
  }

  /** A tag that no step of the run hurts names a complete image at its end, however
      much else is deleted, and whatever races there are on other blobs. */
  lemma {:induction false} RunKeepsTagComplete(p: Params, s: State, ops: seq<Op>, repo: Repo, tag: string)
    requires TagComplete(p, s, repo, tag) && Run(p, s, ops).Some?
    requires Unhurt(p, s, ops, repo, tag) && ManifestsStay(p, s, ops, repo, tag)
    ensures TagComplete(p, Run(p, s, ops).value, repo, tag)
    decreases |ops|
  {
    if ops != [] {
      StepKeepsComplete(p, s, ops[0], repo, tag);
      RunKeepsTagComplete(p, Step(p, s, ops[0]).state, ops[1..], repo, tag);
    }
  }

  /** Only one content is stored under each digest of the repository. */
  ghost predicate OneContentIn(p: Params, s: State, ops: seq<Op>, repo: Repo) {
    forall d: Digest :: OneContent(p, s, ops, (repo, d))
  }

  lemma OneContentStep(p: Params, s: State, ops: seq<Op>, k: BlobKey)
    requires ops != [] && Legal(p, s, ops[0]) && OneContent(p, s, ops, k)
    ensures var t := Step(p, s, ops[0]).state;
            && OneContent(p, t, ops[1..], k)
            && (k in s.store.blobs && k in t.store.blobs ==> t.store.blobs[k] == s.store.blobs[k])
  {
    var t := Step(p, s, ops[0]).state;
    assert ContentsOf(p, t, ops[1..], k) <= ContentsOf(p, s, ops, k);
    assert k in s.store.blobs ==> s.store.blobs[k] in ContentsOf(p, s, ops, k);
    assert k in t.store.blobs ==> t.store.blobs[k] in ContentsOf(p, t, ops[1..], k);
  }

  lemma OneContentInStep(p: Params, s: State, ops: seq<Op>, repo: Repo)
    requires ops != [] && Legal(p, s, ops[0]) && OneContentIn(p, s, ops, repo)
    ensures OneContentIn(p, Step(p, s, ops[0]).state, ops[1..], repo)
    ensures forall tag :: ManifestsKept(s, Step(p, s, ops[0]).state, repo, tag)
  {
    var t := Step(p, s, ops[0]).state;
    forall d: Digest
      ensures OneContent(p, t, ops[1..], (repo, d))
      ensures (repo, d) in s.store.blobs && (repo, d) in t.store.blobs ==>
                t.store.blobs[(repo, d)] == s.store.blobs[(repo, d)]
    {
      assert OneContent(p, s, ops, (repo, d));
      OneContentStep(p, s, ops, (repo, d));
    }
  }

  /** Where no two contents of a digest are stored, no manifest is replaced. */
  lemma {:induction false} OneContentStays(p: Params, s: State, ops: seq<Op>, repo: Repo, tag: string)
    requires OneContentIn(p, s, ops, repo)
    ensures ManifestsStay(p, s, ops, repo, tag)
    decreases |ops|
  {
    if ops != [] && Legal(p, s, ops[0]) {
      OneContentInStep(p, s, ops, repo);
      OneContentStays(p, Step(p, s, ops[0]).state, ops[1..], repo, tag);
    }
  }

  // ----- without races -----

  /** None of these was removed behind the server's back and is still missing. */
  ghost predicate NoneStolen(s: State, repo: Repo, refs: seq<string>) {
    forall ref :: ref in refs && Parse(ref).Some? ==>
      var k := (repo, Parse(ref).value); k in s.removed ==> k in s.store.blobs
  }

  /** The cache claims no blob of the repository that is gone. */
  ghost predicate BackedIn(s: State, repo: Repo) {
    forall d: Digest :: Backed(s, (repo, d))
  }

  lemma TruthfulIsNotDeceived(p: Params, s: State, repo: Repo, body: Bytes)
    requires BackedIn(s, repo) && NoneStolen(s, repo, RequiredBy(p, body))
    ensures !Deceived(p, s, repo, body)
  {
  }

  /** No step of the run removes what the tag needs, and no push of the tag requires
      a blob that was removed behind the server's back and is missing. */
  ghost predicate Spared(p: Params, s: State, ops: seq<Op>, repo: Repo, tag: string)
    decreases |ops|
  {
    ops != [] && Legal(p, s, ops[0]) ==>
      && !RemovesNeeded(p, s, ops[0], repo, tag)
      && (ops[0].PutManifest? && ops[0].repo == repo && ops[0].reference == tag ==>
           NoneStolen(s, repo, RequiredBy(p, ops[0].body)))
      && Spared(p, Step(p, s, ops[0]).state, ops[1..], repo, tag)
  }

  /** Where no late cache update of a pull-through task comes after a delete, no push
      is deceived by one. */
  lemma {:induction false} RaceFreeIsUnhurt(p: Params, s: State, ops: seq<Op>, repo: Repo, tag: string)
    requires BackedIn(s, repo) && Run(p, s, ops).Some?
    requires (forall d: Digest :: RaceFree(p, s, ops, (repo, d))) && Spared(p, s, ops, repo, tag)
    ensures Unhurt(p, s, ops, repo, tag)
    decreases |ops|
  {
    if ops != [] {
      var t := Step(p, s, ops[0]).state;
      if ops[0].PutManifest? && ops[0].repo == repo && ops[0].reference == tag {
        TruthfulIsNotDeceived(p, s, repo, ops[0].body);
      }
      forall d: Digest ensures Backed(t, (repo, d)) && RaceFree(p, t, ops[1..], (repo, d)) {
        assert RaceFree(p, s, ops, (repo, d)) && Backed(s, (repo, d));
        StepKeepsBacked(p, s, ops[0], (repo, d));
      }
      RaceFreeIsUnhurt(p, t, ops[1..], repo, tag);
    }
  }

  // ----- whole repositories -----

  /** Explicit removals in a repository: a blob or a manifest by digest, a part of
      its blob directory, or a file behind the server's back. */
  ghost predicate RemovesIn(op: Op, repo: Repo) {
    match op
    case DeleteBlob(r, reference, _) => r == repo && Parse(reference).Some?
    case DeleteManifest(r, reference, _, _, _) => r == repo && Parse(reference).Some?
    case RemoveDirectory(dir, _) => !(dir < LocalTagsPath(repo)) && exists d: Digest :: dir < BlobPath(repo, d)
    case ExternalRemove(k) => k.0 == repo
    case _ => false
  }

  /** Nothing of the repository was removed behind the server's back, and what a
      pull-through task is about to enter into the cache is on disk. */
  ghost predicate Calm(s: State, repo: Repo) {
    && (forall k :: k in s.removed ==> k.0 != repo)
    && (forall k, n :: (k, n) in s.promoting && k.0 == repo ==> k in s.store.blobs)
  }

  lemma CalmIsUnhurt(p: Params, s: State, op: Op, repo: Repo, tag: string)
    requires Calm(s, repo) && BackedIn(s, repo) && !RemovesIn(op, repo)
    ensures !Hurts(p, s, op, repo, tag)
  {
    if op.PutManifest? && op.repo == repo {
      TruthfulIsNotDeceived(p, s, repo, op.body);
    }
    if op.RemoveDirectory? {
      forall k | NeededByAny(p, s, repo, DiskText(s.tags, repo, tag), k) ensures k.0 == repo {
        NeedsOwnRepo(p, s, repo, DiskText(s.tags, repo, tag), k);
      }
    } else if op.ExternalRemove? && NeededByAny(p, s, repo, Texts(s.tags, repo, tag), op.key) {
      NeedsOwnRepo(p, s, repo, Texts(s.tags, repo, tag), op.key);
    }
  }

  /** While the server is up, nothing but such a removal takes a blob away. */
  lemma StepLosesNothingIn(p: Params, s: State, op: Op, repo: Repo)
    requires Legal(p, s, op) && !RemovesIn(op, repo) && !op.OfflineGc? && !op.RemoveDirectory?
    ensures forall k :: k in s.store.blobs && k.0 == repo ==> k in Step(p, s, op).state.store.blobs
  {
    match op
    case PutManifest(_, _, _, _, _) => PutFrame(p, s, op);
    case GetManifest(_, _, _, _, _) => GetFrame(p, s, op);
    case DeleteBlob(r, reference, ioOk) => BlobDeleteFrame(s, r, reference, ioOk);
    case DeleteManifest(_, _, _, _, _) => DeleteFrame(s, op);
    case Restart(_) =>
    case ExternalRemove(_) =>
    case _ => QuietStep(p, s, op);
  }

  /** While the server is up, cache updates still to come are added by promotions only. */
  lemma StepKeepsPromoting(p: Params, s: State, op: Op, k: BlobKey, n: nat)
    requires Legal(p, s, op) && (k, n) in Step(p, s, op).state.promoting
    ensures (k, n) in s.promoting || (op.Promote? && k == op.key)
  {
    match op
    case PutManifest(_, _, _, _, _) => PutFrame(p, s, op);
    case GetManifest(_, _, _, _, _) => GetFrame(p, s, op);
    case DeleteBlob(r, reference, ioOk) => BlobDeleteFrame(s, r, reference, ioOk);
    case DeleteManifest(_, _, _, _, _) => DeleteFrame(s, op);
    case UploadCall(call) => UploadFrame(p, s, call);
    case GetBlob(r, reference) => GetBlobFrame(p, s, r, reference);
    case _ =>
  }

  lemma StepKeepsRemoved(p: Params, s: State, op: Op)
    requires Legal(p, s, op)
    ensures Step(p, s, op).state.removed == if op.ExternalRemove? then s.removed[op.key := s.now] else s.removed
  {
    match op
    case PutManifest(_, _, _, _, _) => PutFrame(p, s, op);
    case GetManifest(_, _, _, _, _) => GetFrame(p, s, op);
    case DeleteBlob(r, reference, ioOk) => BlobDeleteFrame(s, r, reference, ioOk);
    case DeleteManifest(_, _, _, _, _) => DeleteFrame(s, op);
    case Restart(_) =>
    case OfflineGc(_, _, _, _, _) =>
    case RemoveDirectory(_, _) =>
    case ExternalRemove(_) =>
    case _ => QuietStep(p, s, op);
  }

  lemma StepKeepsCalm(p: Params, s: State, op: Op, repo: Repo)
    requires Legal(p, s, op) && Calm(s, repo) && !RemovesIn(op, repo)
    ensures Calm(Step(p, s, op).state, repo)
  {
    StepKeepsRemoved(p, s, op);
    if !op.OfflineGc? && !op.RemoveDirectory? {
      StepLosesNothingIn(p, s, op, repo);
      forall k, n | (k, n) in Step(p, s, op).state.promoting && k.0 == repo
        ensures k in Step(p, s, op).state.store.blobs
      {
        StepKeepsPromoting(p, s, op, k, n);
      }
    }
  }

  /** A fresh registry meets all that the next lemma asks for. */
  lemma StartsComplete(p: Params, routed: Repo -> bool, repo: Repo)
    ensures var s := Initial(routed);
            BackedIn(s, repo) && Calm(s, repo) && forall tag :: TagComplete(p, s, repo, tag)
  {
  }

  /** In a repository from which nothing is removed explicitly, every tag names a
      complete image after every run, whatever is deleted in the others. */
  lemma {:induction false} RunKeepsComplete(p: Params, s: State, ops: seq<Op>, repo: Repo)
    requires BackedIn(s, repo) && Calm(s, repo) && OneContentIn(p, s, ops, repo)
    requires forall tag :: TagComplete(p, s, repo, tag)
    requires Run(p, s, ops).Some? && forall op :: op in ops ==> !RemovesIn(op, repo)
    ensures forall tag :: TagComplete(p, Run(p, s, ops).value, repo, tag)
    decreases |ops|
  {
    if ops != [] {
      var t := Step(p, s, ops[0]).state;
      assert ops[0] in ops;
      OneContentInStep(p, s, ops, repo);
      forall tag ensures TagComplete(p, t, repo, tag) {
        CalmIsUnhurt(p, s, ops[0], repo, tag);
        StepKeepsComplete(p, s, ops[0], repo, tag);
      }
      forall d: Digest ensures Backed(t, (repo, d)) {
        assert Backed(s, (repo, d));
        StepKeepsBacked(p, s, ops[0], (repo, d));
      }
      StepKeepsCalm(p, s, ops[0], repo);
      RunKeepsComplete(p, t, ops[1..], repo);
    }
  }

}
