/** Runs from a fresh registry: an ordinary one, which meets every hypothesis of the
    results about all runs, and what a race on the metadata cache leads to. */
module RegistryExamples {

  import opened Base
  import opened Digests
  import opened BlobStore
  import opened LocalTags
  import PullThrough
  import PullThroughPolls
  import opened Registry
  import opened RegistryRuns
  import opened RegistryIntegrity
  import opened RegistryCompleteness

  lemma {:induction false} RunMore(p: Params, s: State, ops: seq<Op>, op: Op)
    requires Run(p, s, ops).Some? && Legal(p, Run(p, s, ops).value, op)
    ensures Run(p, s, ops + [op]) == Some(Step(p, Run(p, s, ops).value, op).state)
    decreases |ops|
  {
    if ops == [] {
      assert (ops + [op])[1..] == [];
    } else {
      assert (ops + [op])[1..] == ops[1..] + [op];
      RunMore(p, Step(p, s, ops[0]).state, ops[1..], op);
    }
  }

  /** A blob is promoted, deleted, and then entered into the cache by the task that
      promoted it. */
  function RaceOn(k: BlobKey, bytes: Bytes, cap: nat, events: seq<PullThrough.Event>): seq<Op> {
    [Promote(k, bytes, cap, events)] + [DeleteBlob(k.0, Display(k.1), true)] + [Populate(k, |bytes|)]
  }

  /** The registry after that: no blob, no tag, and one cache entry, which is wrong. */
  ghost predicate LeftStale(s: State, k: BlobKey, size: nat) {
    && k !in s.store.blobs && k in s.store.meta && s.store.meta[k] == BlobMeta(size, s.now)
    && s.tags == Tags(map[], map[])
  }

  /** This can happen to any blob, in any repository of a fresh registry. */
  lemma RaceIsReachable(p: Params, routed: Repo -> bool, repo: Repo, bytes: Bytes, cap: nat)
    returns (events: seq<PullThrough.Event>)
    ensures var ops := RaceOn((repo, p.hash(bytes)), bytes, cap, events);
            Run(p, Initial(routed), ops).Some? &&
              LeftStale(Run(p, Initial(routed), ops).value, (repo, p.hash(bytes)), |bytes|)
  {
    var k := (repo, p.hash(bytes));
    events := PullThroughPolls.FetchOf(PullThrough.Setup(p.hash, cap), bytes);
    var s0 := Initial(routed);
    var a, b, c := Promote(k, bytes, cap, events), DeleteBlob(repo, Display(k.1), true), Populate(k, |bytes|);
    RunMore(p, s0, [], a);
    RunMore(p, s0, [a], b);
    ParseDisplay(k.1);
    RunMore(p, s0, [a] + [b], c);
  }

  /** And then a push is accepted that requires the blob which is gone: every push of
      a tag whose manifest requires just that blob is answered with success and
      leaves the tag incomplete. */
  lemma IncompletePushAccepted(p: Params, routed: Repo -> bool, bytes: Bytes, cap: nat, put: Op)
    returns (events: seq<PullThrough.Event>)
    requires put.PutManifest? && IsTag(put.reference) && put.blobOk && put.tagOk && |put.body| <= MANIFEST_LIMIT
    requires RequiredBy(p, put.body) == [Display(p.hash(bytes))] && p.hash(put.body) != p.hash(bytes) && p.metaTtl > 0
    ensures var ops := RaceOn((put.repo, p.hash(bytes)), bytes, cap, events);
            && Run(p, Initial(routed), ops).Some?
            && var r := Step(p, Run(p, Initial(routed), ops).value, put);
               r.response == Created(p.hash(put.body)) && !TagComplete(p, r.state, put.repo, put.reference)
  {
    events := RaceIsReachable(p, routed, put.repo, bytes, cap);
    var s := Run(p, Initial(routed), RaceOn((put.repo, p.hash(bytes)), bytes, cap, events)).value;
    StalePushAccepted(p, s, p.hash(bytes), |bytes|, put);
  }

  lemma StalePushAccepted(p: Params, s: State, layer: Digest, size: nat, put: Op)
    requires put.PutManifest? && IsTag(put.reference) && put.blobOk && put.tagOk && |put.body| <= MANIFEST_LIMIT
    requires RequiredBy(p, put.body) == [Display(layer)] && p.hash(put.body) != layer && p.metaTtl > 0
    requires LeftStale(s, (put.repo, layer), size)
    ensures var r := DoPut(p, s, put);
            r.response == Created(p.hash(put.body)) && !TagComplete(p, r.state, put.repo, put.reference)
  {
    ParseDisplay(layer);
    assert CacheGet(s.store.meta, (put.repo, layer), s.now, p.metaTtl).Some?;
    assert forall ref :: ref in RequiredBy(p, put.body) ==> ref == Display(layer);
    CheckPassesIff(p, s, put.repo, RequiredBy(p, put.body));
    assert RequiredBy(p, put.body)[0] in RequiredBy(p, put.body);
    assert Deceived(p, s, put.repo, put.body);
    PutFrame(p, s, put);
    PushCompleteIff(p, s, put);
  }

  // ----- an ordinary run -----

  /** A layer is pulled through, then a manifest that requires it is pushed. */
  function LayerThenPush(k: BlobKey, layer: Bytes, cap: nat, events: seq<PullThrough.Event>, put: Op): seq<Op> {
    [Promote(k, layer, cap, events)] + [put]
  }

  /** The state after the first of the two steps. */
  ghost predicate HasLayer(s: State, k: BlobKey, layer: Bytes) {
    s.store == Store(map[k := layer], map[]) && s.tags == Tags(map[], map[]) && s.removed == map[]
  }

  lemma LayerArrives(p: Params, routed: Repo -> bool, k: BlobKey, layer: Bytes, cap: nat, put: Op)
    returns (events: seq<PullThrough.Event>)
    requires k.1 == p.hash(layer) && put.PutManifest?
    ensures Legal(p, Initial(routed), Promote(k, layer, cap, events))
    ensures var t := Step(p, Initial(routed), Promote(k, layer, cap, events)).state;
            && HasLayer(t, k, layer)
            && Run(p, Initial(routed), LayerThenPush(k, layer, cap, events, put)) == Some(Step(p, t, put).state)
  {
    events := PullThroughPolls.FetchOf(PullThrough.Setup(p.hash, cap), layer);
    var op := Promote(k, layer, cap, events);
    RunMore(p, Initial(routed), [], op);
    RunMore(p, Initial(routed), [op], put);
  }

  /** Each state of the run stores the layer and the manifest at most. */
  lemma OrdinaryContents(p: Params, routed: Repo -> bool, k: BlobKey, layer: Bytes, cap: nat,
                         events: seq<PullThrough.Event>, put: Op, j: BlobKey)
    requires put.PutManifest? && Legal(p, Initial(routed), Promote(k, layer, cap, events))
    requires HasLayer(Step(p, Initial(routed), Promote(k, layer, cap, events)).state, k, layer)
    ensures ContentsOf(p, Initial(routed), LayerThenPush(k, layer, cap, events, put), j) <= {layer, put.body}
  {
    var ops := LayerThenPush(k, layer, cap, events, put);
    var t := Step(p, Initial(routed), ops[0]).state;
    var u := Step(p, t, put).state;
    PutFrame(p, t, put);
    assert ops[1..] == [put] && [put][1..] == [];
    assert ContentsOf(p, u, [], j) <= {layer, put.body};
    assert ContentsOf(p, t, [put], j) <= {layer, put.body};
  }

  lemma OrdinaryNoCollisions(p: Params, routed: Repo -> bool, k: BlobKey, layer: Bytes, cap: nat,
                             events: seq<PullThrough.Event>, put: Op)
    requires put.PutManifest? && Legal(p, Initial(routed), Promote(k, layer, cap, events))
    requires HasLayer(Step(p, Initial(routed), Promote(k, layer, cap, events)).state, k, layer)
    requires p.hash(put.body) != p.hash(layer)
    ensures NoCollisions(p, Initial(routed), LayerThenPush(k, layer, cap, events, put))
  {
    forall j ensures ContentsOf(p, Initial(routed), LayerThenPush(k, layer, cap, events, put), j) <= {layer, put.body} {
      OrdinaryContents(p, routed, k, layer, cap, events, put, j);
    }
  }

  /** For every hash that tells the layer from the manifest, this run meets the
      hypotheses of the results about all runs, its push succeeds, and it leaves a
      complete image. */
  lemma OrdinaryRun(p: Params, routed: Repo -> bool, layer: Bytes, cap: nat, put: Op)
    returns (events: seq<PullThrough.Event>)
    requires put.PutManifest? && IsTag(put.reference) && put.blobOk && put.tagOk && |put.body| <= MANIFEST_LIMIT
    requires RequiredBy(p, put.body) == [Display(p.hash(layer))] && p.hash(put.body) != p.hash(layer)
    ensures var ops := LayerThenPush((put.repo, p.hash(layer)), layer, cap, events, put);
            && Run(p, Initial(routed), ops).Some?
            && NoCollisions(p, Initial(routed), ops)
            && (forall j :: RaceFree(p, Initial(routed), ops, j))
            && Unhurt(p, Initial(routed), ops, put.repo, put.reference)
            && var s := Run(p, Initial(routed), ops).value;
               Holds(s, put.repo, put.reference, p.hash(put.body)) && TagComplete(p, s, put.repo, put.reference)
  {
    var k := (put.repo, p.hash(layer));
    events := LayerArrives(p, routed, k, layer, cap, put);
    var ops := LayerThenPush(k, layer, cap, events, put);
    OrdinaryNoCollisions(p, routed, k, layer, cap, events, put);
    var t := Step(p, Initial(routed), ops[0]).state;
    PushSucceeds(p, t, k, layer, put);
    assert ops[1..] == [put] && [put][1..] == [];
    OrdinaryIsUnhurt(p, routed, ops, put);
  }

  lemma PushSucceeds(p: Params, s: State, k: BlobKey, layer: Bytes, put: Op)
    requires put.PutManifest? && IsTag(put.reference) && put.blobOk && put.tagOk && |put.body| <= MANIFEST_LIMIT
    requires k.0 == put.repo && RequiredBy(p, put.body) == [Display(k.1)] && HasLayer(s, k, layer)
    ensures DoPut(p, s, put).response.Created? && !Deceived(p, s, put.repo, put.body)
    ensures Holds(DoPut(p, s, put).state, put.repo, put.reference, p.hash(put.body))
    ensures TagComplete(p, DoPut(p, s, put).state, put.repo, put.reference)
  {
    ParseDisplay(k.1);
    CheckPassesIff(p, s, put.repo, RequiredBy(p, put.body));
    PutFrame(p, s, put);
    PushHolds(p, s, put);
    PushCompleteIff(p, s, put);
  }

  lemma OrdinaryIsUnhurt(p: Params, routed: Repo -> bool, ops: seq<Op>, put: Op)
    requires |ops| == 2 && ops[0].Promote? && ops[1] == put && put.PutManifest? && Legal(p, Initial(routed), ops[0])
    requires !Deceived(p, Step(p, Initial(routed), ops[0]).state, put.repo, put.body)
    ensures Unhurt(p, Initial(routed), ops, put.repo, put.reference)
    ensures forall j :: RaceFree(p, Initial(routed), ops, j)
  {
    var t := Step(p, Initial(routed), ops[0]).state;
    assert ops[1..] == [put] && [put][1..] == [];
    assert Unhurt(p, t, [put], put.repo, put.reference);
    assert forall j :: RaceFree(p, t, [put], j);
  }

}
