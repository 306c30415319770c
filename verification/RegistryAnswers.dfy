/** What each request answers, said of the stored bytes, the manifest's own members,
    the ages of cache entries and what upstream replies. */
module RegistryAnswers {

  import opened Base
  import opened Digests
  import opened Reachability
  import opened BlobStore
  import opened LocalTags
  import UpstreamTags
  import opened Registry
  import opened RegistryRuns
  import opened RegistryCompleteness

  // ----- ages -----

  /** An entry made at `since` is younger than `ttl`. */
  predicate Young(now: nat, since: nat, ttl: nat) {
    ttl > 0 && now < since + ttl
  }

  lemma YoungExact(now: nat, since: nat, ttl: nat)
    ensures Elapsed(now, since) < ttl <==> Young(now, since, ttl)
  {
  }

  /** On disk, or in a cache entry younger than its time to live. */
  predicate Available(p: Params, s: State, k: BlobKey) {
    k in s.store.blobs || (k in s.store.meta && Young(s.now, s.store.meta[k].cachedAt, p.metaTtl))
  }

  lemma SeenIsAvailable(p: Params, s: State, k: BlobKey)
    ensures Seen(p, s, k) <==> Available(p, s, k)
  {
  }

  /** What was entered into the tag cache is fresh for exactly one time to live. */
  lemma FreshForOneTtl(p: Params, s: State, repo: Repo, tag: string, d: Digest, writeOk: bool, delta: nat)
    ensures var t := s.(upstream := UpstreamTags.Insert(s.upstream, repo, tag, d, s.now, writeOk));
            var u := Step(p, t, Tick(delta)).state;
            UpstreamTags.Lookup(u.upstream, repo, tag, u.now, p.tagTtl) ==
            if delta < p.tagTtl then UpstreamTags.Fresh(d) else UpstreamTags.Stale(d)
  {
  }

  /** So is what a HEAD has confirmed, and nothing is entered by a confirmation. */
  lemma ConfirmedForOneTtl(p: Params, s: State, repo: Repo, tag: string, delta: nat)
    ensures var t := s.(upstream := UpstreamTags.Touch(s.upstream, repo, tag, s.now));
            var u := Step(p, t, Tick(delta)).state;
            UpstreamTags.Lookup(u.upstream, repo, tag, u.now, p.tagTtl) ==
            if (repo, tag) !in s.upstream.entries then UpstreamTags.Miss
            else if delta < p.tagTtl then UpstreamTags.Fresh(s.upstream.entries[(repo, tag)].digest)
            else UpstreamTags.Stale(s.upstream.entries[(repo, tag)].digest)
  {
  }

  /** A file that vanishes from the disk is believed to be there for exactly one time
      to live after it was cached. */
  lemma BelievedForOneTtl(p: Params, s: State, k: BlobKey, delta: nat)
    requires k in s.store.blobs && (k in s.store.meta ==> s.store.meta[k].cachedAt <= s.now)
    requires k in s.store.meta ==> !Young(s.now, s.store.meta[k].cachedAt, p.metaTtl)
    ensures var t := MetaOf(p, s, k).0;
            var u := Step(p, Step(p, t, ExternalRemove(k)).state, Tick(delta)).state;
            Lookup(u.store, k, u.now, p.metaTtl).1.Some? <==> delta < p.metaTtl
  {
  }

  // ----- pulling a manifest -----

  /** The tag was not pushed here. */
  predicate NotPushed(s: State, repo: Repo, tag: string) {
    (repo, tag) !in s.tags.mem
  }

  /** The cache names `d` for the tag, in an entry of this age. */
  predicate Cached(s: State, repo: Repo, tag: string, d: Digest, since: nat) {
    (repo, tag) in s.upstream.entries && s.upstream.entries[(repo, tag)] == UpstreamTags.Cached(d, since)
  }

  lemma LocalIsServed(p: Params, s: State, op: Op, d: Digest, calls: nat)
    requires op.GetManifest? && (op.repo, d) in s.store.blobs
    ensures var r := LocalOrFetch(p, s, op, d, calls);
            r.response == Served(d, s.store.blobs[(op.repo, d)]) && r.calls == calls
    ensures LocalOrFetch(p, s, op, d, calls).state.upstream == s.upstream
  {
  }

  /** A pull by digest of what is on disk is answered from disk, whether or not an
      upstream serves the repository. */
  lemma DigestPullIsLocal(p: Params, s: State, op: Op, d: Digest)
    requires op.GetManifest? && Parse(op.reference) == Some(d) && (op.repo, d) in s.store.blobs
    ensures DoGet(p, s, op).response == Served(d, s.store.blobs[(op.repo, d)]) && DoGet(p, s, op).calls == 0
  {
    LocalIsServed(p, s, op, d, 0);
  }

  /** So is a pull of a proxied tag whose entry is young. */
  lemma FreshPullIsLocal(p: Params, s: State, op: Op, d: Digest, since: nat)
    requires op.GetManifest? && Parse(op.reference).None? && NotPushed(s, op.repo, op.reference)
    requires Cached(s, op.repo, op.reference, d, since) && Young(s.now, since, p.tagTtl)
    requires (op.repo, d) in s.store.blobs
    ensures DoGet(p, s, op).response == Served(d, s.store.blobs[(op.repo, d)]) && DoGet(p, s, op).calls == 0
  {
    LocalIsServed(p, s, op, d, 0);
  }

  /** An old entry is checked with one call; when upstream confirms it, or cannot be
      asked, what is on disk is served; a confirmation dates the entry anew. */
  lemma StalePullIsConfirmed(p: Params, s: State, op: Op, d: Digest, since: nat)
    requires op.GetManifest? && Parse(op.reference).None? && NotPushed(s, op.repo, op.reference)
    requires Cached(s, op.repo, op.reference, d, since) && !Young(s.now, since, p.tagTtl)
    requires s.routed(op.repo) && (op.repo, d) in s.store.blobs
    requires op.answers.head == Some(d) || op.answers.head.None?
    ensures var r := DoGet(p, s, op);
            && r.response == Served(d, s.store.blobs[(op.repo, d)]) && r.calls == 1
            && Cached(r.state, op.repo, op.reference, d, if op.answers.head.Some? then s.now else since)
  {
    var k := (op.repo, op.reference);
    if op.answers.head.Some? {
      var t := s.(events := s.events + {Reported(k, d, s.now)},
                  upstream := UpstreamTags.Touch(s.upstream, op.repo, op.reference, s.now));
      LocalIsServed(p, t, op, d, 1);
    } else {
      LocalIsServed(p, s, op, d, 1);
    }
  }

  /** Without an upstream an old entry is served as it is. */
  lemma StalePullWithoutUpstream(p: Params, s: State, op: Op, d: Digest, since: nat)
    requires op.GetManifest? && Parse(op.reference).None? && NotPushed(s, op.repo, op.reference)
    requires Cached(s, op.repo, op.reference, d, since) && !Young(s.now, since, p.tagTtl)
    requires !s.routed(op.repo) && (op.repo, d) in s.store.blobs
    ensures DoGet(p, s, op).response == Served(d, s.store.blobs[(op.repo, d)]) && DoGet(p, s, op).calls == 0
  {
    LocalIsServed(p, s, op, d, 0);
  }

  /** The answer of a request that has to ask upstream for the manifest, after `calls`
      other calls: exactly what upstream sends, or that it is unknown. A tag is then
      cached under the digest sent, dated now; verified bytes are stored. */
  ghost predicate AnswersFromUpstream(p: Params, s: State, op: Op, r: Result, calls: nat)
    requires op.GetManifest?
  {
    if !s.routed(op.repo) then r.response == Unknown && r.calls == calls && r.state.upstream == s.upstream
    else
      match op.answers.get
      case None => r.response == Unknown && r.calls == calls + 1 && r.state.store.blobs == s.store.blobs
      case Some((d, bytes)) =>
        && r.response == Served(d, bytes) && r.calls == calls + 1
        && (Parse(op.reference).Some? ==> r.state.upstream == s.upstream)
        && (Parse(op.reference).None? ==> Cached(r.state, op.repo, op.reference, d, s.now))
        && (op.blobOk && p.hash(bytes) == d ==>
              (op.repo, d) in r.state.store.blobs && r.state.store.blobs[(op.repo, d)] == bytes)
  }

  lemma FetchAnswers(p: Params, s: State, op: Op, calls: nat)
    requires op.GetManifest?
    ensures AnswersFromUpstream(p, s, op, FetchIfRouted(p, s, op, calls), calls)
  {
  }

  lemma MissingIsFetched(p: Params, s: State, op: Op, d: Digest, calls: nat)
    requires op.GetManifest? && !Available(p, s, (op.repo, d))
    ensures AnswersFromUpstream(p, s, op, LocalOrFetch(p, s, op, d, calls), calls)
  {
    SeenIsAvailable(p, s, (op.repo, d));
    assert MetaOf(p, s, (op.repo, d)) == (s, None);
    FetchAnswers(p, s, op, calls);
  }

  /** A pull by digest of what is not here. */
  lemma DigestPullMisses(p: Params, s: State, op: Op, d: Digest)
    requires op.GetManifest? && Parse(op.reference) == Some(d) && !Available(p, s, (op.repo, d))
    ensures AnswersFromUpstream(p, s, op, DoGet(p, s, op), 0)
  {
    MissingIsFetched(p, s, op, d, 0);
  }

  /** A pull of a tag that is neither pushed nor cached. */
  lemma TagPullMisses(p: Params, s: State, op: Op)
    requires op.GetManifest? && Parse(op.reference).None? && NotPushed(s, op.repo, op.reference)
    requires (op.repo, op.reference) !in s.upstream.entries
    ensures AnswersFromUpstream(p, s, op, DoGet(p, s, op), 0)
  {
    FetchAnswers(p, s, op, 0);
  }

  /** A tag that upstream has moved is fetched anew, after the call that found out. */
  lemma MovedTagIsFetched(p: Params, s: State, op: Op, d: Digest, since: nat)
    requires op.GetManifest? && Parse(op.reference).None? && NotPushed(s, op.repo, op.reference)
    requires Cached(s, op.repo, op.reference, d, since) && !Young(s.now, since, p.tagTtl)
    requires s.routed(op.repo) && op.answers.head.Some? && op.answers.head != Some(d)
    ensures AnswersFromUpstream(p, s, op, DoGet(p, s, op), 1)
  {
    var t := s.(events := s.events + {Reported((op.repo, op.reference), op.answers.head.value, s.now)});
    FetchAnswers(p, t, op, 1);
  }

  /** A young entry whose manifest is gone, or an old one that upstream confirms or
      cannot be asked about without the manifest being here, is fetched anew. */
  lemma CachedTagWithoutBlobIsFetched(p: Params, s: State, op: Op, d: Digest, since: nat)
    requires op.GetManifest? && Parse(op.reference).None? && NotPushed(s, op.repo, op.reference)
    requires Cached(s, op.repo, op.reference, d, since) && !Available(p, s, (op.repo, d))
    requires Young(s.now, since, p.tagTtl) || op.answers.head == Some(d) || op.answers.head.None?
    ensures var asked := !Young(s.now, since, p.tagTtl) && s.routed(op.repo);
            AnswersFromUpstream(p, s, op, DoGet(p, s, op), if asked then 1 else 0)
  {
    if Young(s.now, since, p.tagTtl) || !s.routed(op.repo) {
      MissingIsFetched(p, s, op, d, 0);
    } else if op.answers.head.None? {
      MissingIsFetched(p, s, op, d, 1);
    } else {
      var t := s.(events := s.events + {Reported((op.repo, op.reference), d, s.now)},
                  upstream := UpstreamTags.Touch(s.upstream, op.repo, op.reference, s.now));
      MissingIsFetched(p, t, op, d, 1);
    }
  }

  /** A tag that was pushed here is answered from here, even if its manifest is gone:
      upstream is not asked. */
  lemma PushedTagWithoutBlob(p: Params, s: State, op: Op, d: Digest)
    requires op.GetManifest? && Parse(op.reference).None? && (op.repo, op.reference) in s.tags.mem
    requires Parse(s.tags.mem[(op.repo, op.reference)]) == Some(d) && (op.repo, d) !in s.store.blobs
    ensures var r := DoGet(p, s, op);
            r.calls == 0 && r.response == if Available(p, s, (op.repo, d)) then ServerError else Unknown
  {
    SeenIsAvailable(p, s, (op.repo, d));
  }

  /** What was pulled by tag and could be stored is answered from disk for exactly as
      long as the entry is young: without asking upstream again, and with the same
      bytes, whatever upstream would say by then. */
  lemma PulledTagIsCached(p: Params, s: State, op: Op, d: Digest, bytes: Bytes, delta: nat, again: Op)
    requires op.GetManifest? && Parse(op.reference).None? && NotPushed(s, op.repo, op.reference)
    requires (op.repo, op.reference) !in s.upstream.entries && s.routed(op.repo)
    requires op.answers.get == Some((d, bytes)) && p.hash(bytes) == d && op.blobOk && delta < p.tagTtl
    requires again.GetManifest? && again.repo == op.repo && again.reference == op.reference
    ensures var r := DoGet(p, s, op);
            var later := DoGet(p, Step(p, r.state, Tick(delta)).state, again);
            && r.response == Served(d, bytes) && r.calls == 1
            && later.response == Served(d, bytes) && later.calls == 0
  {
    TagPullMisses(p, s, op);
    GetFrame(p, s, op);
    FreshPullIsLocal(p, Step(p, DoGet(p, s, op).state, Tick(delta)).state, again, d, s.now);
  }

  // ----- pushing a manifest -----

  /** The manifest names, as its config or as a layer, something that is not available. */
  ghost predicate Lacks(p: Params, s: State, repo: Repo, body: Bytes) {
    p.view(body).Some? &&
    var v := p.view(body).value;
    exists ref :: (v.config == Some(ref) || ref in v.layers) &&
                  (Parse(ref).None? || !Available(p, s, (repo, Parse(ref).value)))
  }

  lemma RequiredExact(p: Params, body: Bytes, ref: string)
    ensures ref in RequiredBy(p, body) <==>
            p.view(body).Some? && var v := p.view(body).value; v.config == Some(ref) || ref in v.layers
  {
  }

  lemma CheckFailsIffLacks(p: Params, s: State, repo: Repo, body: Bytes)
    ensures CheckPresent(p, s, repo, RequiredBy(p, body)).1 <==> !Lacks(p, s, repo, body)
  {
    CheckPassesIff(p, s, repo, RequiredBy(p, body));
    forall ref
      ensures ref in RequiredBy(p, body) <==>
              p.view(body).Some? && var v := p.view(body).value; v.config == Some(ref) || ref in v.layers
    {
      RequiredExact(p, body, ref);
    }
    forall k ensures Seen(p, s, k) <==> Available(p, s, k) {
      SeenIsAvailable(p, s, k);
    }
  }

  /** The body is over 32 MiB, or is pushed under the digest of another one. */
  predicate Misfit(p: Params, op: Op)
    requires op.PutManifest?
  {
    |op.body| > 33554432 || (Parse(op.reference).Some? && Parse(op.reference) != Some(p.hash(op.body)))
  }

  /** Every answer to a push, and what it does. */
  lemma PutAnswers(p: Params, s: State, op: Op)
    requires op.PutManifest?
    ensures var r := DoPut(p, s, op);
            var d := p.hash(op.body);
            var k := (op.repo, d);
            && r.calls == 0
            && (r.response == TooLarge <==> |op.body| > 33554432)
            && (r.response == Invalid <==>
                |op.body| <= 33554432 && (Misfit(p, op) || Lacks(p, s, op.repo, op.body)))
            && (r.response == Created(d) <==>
                && !Misfit(p, op) && !Lacks(p, s, op.repo, op.body) && op.blobOk
                && (Parse(op.reference).None? ==> op.tagOk))
            && (r.response in {TooLarge, Invalid, Created(d), ServerError})
            && (r.response == TooLarge || r.response == Invalid ==>
                  r.state.store.blobs == s.store.blobs && r.state.tags == s.tags)
            && (r.response == Created(d) ==> k in r.state.store.blobs && r.state.store.blobs[k] == op.body)
  {
    CheckFailsIffLacks(p, s, op.repo, op.body);
    CheckPresentFrame(p, s, op.repo, RequiredBy(p, op.body));
  }

  /** After a push of a tag that is answered with success, the tag names the body's
      digest in memory and in the sidecar, and no other tag of any repository has
      changed in memory. */
  lemma PushedTagIsRecorded(p: Params, s: State, op: Op)
    requires op.PutManifest? && Parse(op.reference).None? && DoPut(p, s, op).response == Created(p.hash(op.body))
    ensures var t := DoPut(p, s, op).state.tags;
            var text := "sha256" + ":" + p.hash(op.body).hex;
            && t.mem == s.tags.mem[(op.repo, op.reference) := text]
            && op.repo in t.disk && op.reference in t.disk[op.repo] && t.disk[op.repo][op.reference] == text
  {
    PutAnswers(p, s, op);
    PutFrame(p, s, op);
    RepoTagsExact(DoPut(p, s, op).state.tags.mem, op.repo, op.reference);
  }

  /** When the sidecar cannot be written, a push of a tag is answered with an error,
      but the tag is in memory and its manifest stored; the sidecar is as before. */
  lemma PushWithoutSidecar(p: Params, s: State, op: Op)
    requires op.PutManifest? && Parse(op.reference).None? && !Misfit(p, op) && !Lacks(p, s, op.repo, op.body)
    requires op.blobOk && !op.tagOk
    ensures var r := DoPut(p, s, op);
            var k := (op.repo, p.hash(op.body));
            && r.response == ServerError && k in r.state.store.blobs && r.state.store.blobs[k] == op.body
            && r.state.tags.mem == s.tags.mem[(op.repo, op.reference) := "sha256" + ":" + k.1.hex]
            && r.state.tags.disk == s.tags.disk
  {
    PutAnswers(p, s, op);
    CheckFailsIffLacks(p, s, op.repo, op.body);
    PutFrame(p, s, op);
  }

  /** A complete image, in the manifest's own members. */
  lemma CompleteExact(p: Params, blobs: map<BlobKey, Bytes>, repo: Repo, text: string)
    ensures Complete(p, blobs, repo, text) <==>
            forall d :: Parse(text) == Some(d) ==>
              && (repo, d) in blobs
              && forall v, ref :: p.view(blobs[(repo, d)]) == Some(v) && (v.config == Some(ref) || ref in v.layers) ==>
                   exists e :: Parse(ref) == Some(e) && (repo, e) in blobs
  {
    if Parse(text).Some? && (repo, Parse(text).value) in blobs {
      var body := blobs[(repo, Parse(text).value)];
      forall ref
        ensures ref in RequiredBy(p, body) <==>
                p.view(body).Some? && var v := p.view(body).value; v.config == Some(ref) || ref in v.layers
      {
        RequiredExact(p, body, ref);
      }
    }
  }

  // ----- pulling a blob -----

  /** Every answer to a blob pull: what is on disk with exactly its stored content;
      what is not here comes from upstream, if one serves the repository. */
  lemma BlobAnswers(p: Params, s: State, repo: Repo, reference: string)
    ensures var r := DoGetBlob(p, s, repo, reference);
            && r.state.store.blobs == s.store.blobs && r.calls == 0
            && (Parse(reference).None? ==> r.response == Invalid)
            && forall d :: Parse(reference) == Some(d) ==>
                 && ((repo, d) in s.store.blobs ==> r.response == BlobBytes(s.store.blobs[(repo, d)]))
                 && (!Available(p, s, (repo, d)) ==> r.response == if s.routed(repo) then Streaming else Unknown)
                 && ((repo, d) !in s.store.blobs && Available(p, s, (repo, d)) ==> r.response == ServerError)
  {
  }

  // ----- deleting -----

  /** Every answer to a blob delete. */
  lemma BlobDeleteAnswers(s: State, repo: Repo, reference: string, ioOk: bool)
    ensures var r := DoDeleteBlob(s, repo, reference, ioOk);
            && (Parse(reference).None? ==> r.response == Invalid && r.state == s)
            && forall d :: Parse(reference) == Some(d) ==>
                 var k := (repo, d);
                 && r.response == (if k !in s.store.blobs then Unknown else if ioOk then Accepted else ServerError)
                 && r.state.store.blobs == (if r.response == Accepted then s.store.blobs - {k} else s.store.blobs)
  {
  }

  /** Every answer to a manifest delete. By tag, the manifest stays; by digest, every
      tag of the repository that names it is taken along, even if there is no blob. */
  lemma ManifestDeleteAnswers(p: Params, s: State, op: Op)
    requires op.DeleteManifest? && Legal(p, s, op)
    ensures var r := DoDelete(s, op);
            && (Parse(op.reference).None? ==>
                  && r.state.store == s.store
                  && r.response == (if (op.repo, op.reference) !in s.tags.mem then Unknown
                                    else if op.blobOk then Accepted else ServerError)
                  && r.state.tags.mem == s.tags.mem - {(op.repo, op.reference)})
            && forall d :: Parse(op.reference) == Some(d) ==>
                 var k := (op.repo, d);
                 && r.response == (if k !in s.store.blobs then Unknown else if op.blobOk then Accepted else ServerError)
                 && r.state.store.blobs == (if r.response == Accepted then s.store.blobs - {k} else s.store.blobs)
                 && (forall j :: j in r.state.tags.mem <==>
                       j in s.tags.mem && !(j.0 == op.repo && s.tags.mem[j] == "sha256" + ":" + d.hex))
  {
    if Parse(op.reference).Some? {
      RemoveEachExact(s.tags, op.repo, op.order, op.oks);
    } else if (op.repo, op.reference) !in s.tags.mem {
      assert s.tags.mem - {(op.repo, op.reference)} == s.tags.mem;
    }
  }

  lemma {:induction false} RemoveEachExact(t: Tags, r: Repo, order: seq<string>, oks: seq<bool>)
    requires |oks| == |order|
    ensures var u := RemoveEach(t, r, order, oks);
            forall j :: j in u.mem <==> j in t.mem && !(j.0 == r && j.1 in order)
    decreases |order|
  {
    if order != [] {
      RemoveEachExact(Remove(t, r, order[0], oks[0]), r, order[1..], oks[1..]);
    }
  }

}
