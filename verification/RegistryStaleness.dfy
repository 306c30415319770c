/** How old the answer to a pull of a proxied tag can be. */
module RegistryStaleness {

  import opened Base
  import opened Digests
  import opened BlobStore
  import opened LocalTags
  import UpstreamTags
  import opened Registry
  import opened RegistryRuns

  /** An entry's digest is what upstream named at the entry's date, and an
      upstream serves the repository; or the entry was reloaded at that date. */
  ghost predicate EntryFounded(s: State, k: TagKey, e: UpstreamTags.Cached) {
    && e.fetchedAt <= s.now
    && (|| (Reported(k, e.digest, e.fetchedAt) in s.events && s.routed(k.0))
        || Reloaded(k, e.digest, e.fetchedAt) in s.events)
  }

  ghost predicate Founded(s: State) {
    forall k :: k in s.upstream.entries ==> EntryFounded(s, k, s.upstream.entries[k])
  }

  /** The cache and the history after a GET: entries are old ones, or the entry of
      this tag, dated now and reported in this request. */
  ghost predicate CacheSteps(s: State, t: State, k: TagKey) {
    && t.now == s.now && t.routed == s.routed && s.events <= t.events
    && forall j :: j in t.upstream.entries ==>
         || (j in s.upstream.entries && t.upstream.entries[j] == s.upstream.entries[j])
         || (j == k && s.routed(k.0) && t.upstream.entries[j].fetchedAt == s.now
             && Reported(k, t.upstream.entries[j].digest, s.now) in t.events)
  }

  lemma CacheStepsFounded(s: State, t: State, k: TagKey)
    requires Founded(s) && CacheSteps(s, t, k)
    ensures Founded(t)
  {
    forall j | j in t.upstream.entries ensures EntryFounded(t, j, t.upstream.entries[j]) {
      if j in s.upstream.entries {
        assert EntryFounded(s, j, s.upstream.entries[j]);
      }
    }
  }

  lemma FetchCaches(p: Params, s: State, op: Op, calls: nat)
    requires op.GetManifest?
    ensures CacheSteps(s, FetchIfRouted(p, s, op, calls).state, (op.repo, op.reference))
    ensures var r := FetchIfRouted(p, s, op, calls);
            r.response.Served? && IsTag(op.reference) ==>
              Reported((op.repo, op.reference), r.response.digest, s.now) in r.state.events
  {
  }

  lemma LocalOrFetchCaches(p: Params, s: State, op: Op, d: Digest, calls: nat)
    requires op.GetManifest? && IsTag(op.reference)
    ensures var r := LocalOrFetch(p, s, op, d, calls);
            && CacheSteps(s, r.state, (op.repo, op.reference))
            && (r.response.Served? ==>
                  r.response.digest == d ||
                  Reported((op.repo, op.reference), r.response.digest, s.now) in r.state.events)
  {
    FetchCaches(p, MetaOf(p, s, (op.repo, d)).0, op, calls);
  }

  lemma RevalidateCaches(p: Params, s: State, op: Op, d: Digest)
    requires op.GetManifest? && IsTag(op.reference) && s.routed(op.repo)
    requires (op.repo, op.reference) in s.upstream.entries && s.upstream.entries[(op.repo, op.reference)].digest == d
    ensures var r := Revalidate(p, s, op, d);
            && CacheSteps(s, r.state, (op.repo, op.reference))
            && (r.response.Served? && op.answers.head.Some? ==>
                  Reported((op.repo, op.reference), r.response.digest, s.now) in r.state.events)
  {
    match op.answers.head
    case None => LocalOrFetchCaches(p, s, op, d, 1);
    case Some(current) =>
      var k := (op.repo, op.reference);
      var t := s.(events := s.events + {Reported(k, current, s.now)});
      if current == d {
        var u := t.(upstream := UpstreamTags.Touch(t.upstream, op.repo, op.reference, s.now));
        LocalOrFetchCaches(p, u, op, d, 1);
        CacheStepsChain(s, u, LocalOrFetch(p, u, op, d, 1).state, k);
      } else {
        FetchCaches(p, t, op, 1);
        CacheStepsChain(s, t, FetchIfRouted(p, t, op, 1).state, k);
      }
  }

  lemma CacheStepsChain(s: State, t: State, u: State, k: TagKey)
    requires CacheSteps(s, t, k) && CacheSteps(t, u, k)
    ensures CacheSteps(s, u, k)
  {
  }

  lemma DigestGetCaches(p: Params, s: State, op: Op)
    requires op.GetManifest? && !IsTag(op.reference)
    ensures CacheSteps(s, DoGet(p, s, op).state, (op.repo, op.reference))
  {
    var d := Parse(op.reference).value;
    FetchCaches(p, MetaOf(p, s, (op.repo, d)).0, op, 0);
  }

  lemma TagGetCaches(p: Params, s: State, op: Op)
    requires op.GetManifest? && IsTag(op.reference)
    ensures CacheSteps(s, DoGet(p, s, op).state, (op.repo, op.reference))
  {
    var k := (op.repo, op.reference);
    if k in s.tags.mem && Parse(s.tags.mem[k]).Some? {
      assert DoGet(p, s, op) == ServeLocal(p, s, op.repo, Parse(s.tags.mem[k]).value, 0);
    } else {
      match UpstreamTags.Lookup(s.upstream, op.repo, op.reference, s.now, p.tagTtl)
      case Fresh(d) => LocalOrFetchCaches(p, s, op, d, 0);
      case Stale(d) =>
        if s.routed(op.repo) { RevalidateCaches(p, s, op, d); } else { LocalOrFetchCaches(p, s, op, d, 0); }
      case Miss => FetchCaches(p, s, op, 0);
    }
  }

  lemma BootFounded(s: State, routed: Repo -> bool)
    ensures Founded(Boot(s, routed))
  {
    var t := Boot(s, routed);
    forall k | k in t.upstream.entries ensures EntryFounded(t, k, t.upstream.entries[k]) {
      assert Reloaded(k, t.upstream.entries[k].digest, s.now) in t.events;
    }
  }

  lemma UntouchedFounded(s: State, t: State)
    requires Founded(s) && t.upstream == s.upstream && t.events == s.events && t.routed == s.routed && s.now <= t.now
    ensures Founded(t)
  {
    forall k | k in t.upstream.entries ensures EntryFounded(t, k, t.upstream.entries[k]) {
      assert EntryFounded(s, k, s.upstream.entries[k]);
    }
  }

  lemma StepKeepsFounded(p: Params, s: State, op: Op)
    requires Founded(s) && Legal(p, s, op)
    ensures Founded(Step(p, s, op).state)
  {
    var t := Step(p, s, op).state;
    match op
    case GetManifest(repo, reference, _, _, _) =>
      if IsTag(reference) { TagGetCaches(p, s, op); } else { DigestGetCaches(p, s, op); }
      CacheStepsFounded(s, t, (repo, reference));
    case Restart(_) => RestartFounded(p, s, op);
    case OfflineGc(_, _, _, _, _) => CollectionFounded(p, s, op);
    case RemoveDirectory(_, _) => DirectoryFounded(p, s, op);
    case PutManifest(_, _, _, _, _) =>
      PutFrame(p, s, op);
      UntouchedFounded(s, t);
    case _ => QuietStepFounded(p, s, op);
  }

  lemma RestartFounded(p: Params, s: State, op: Op)
    requires op.Restart?
    ensures Founded(DoRestart(s, op.routed).state)
  {
    BootFounded(s, op.routed);
  }

  lemma CollectionFounded(p: Params, s: State, op: Op)
    requires op.OfflineGc?
    ensures Founded(DoGc(p, s, op).state)
  {
    BootFounded(Collect(p, s, op.repos, op.extra, op.dryRun, op.stuck), op.routed);
  }

  lemma DirectoryFounded(p: Params, s: State, op: Op)
    requires op.RemoveDirectory?
    ensures Founded(DoRemoveDirectory(s, op).state)
  {
    BootFounded(RemoveTree(s, op.dir), op.routed);
  }

  lemma QuietStepFounded(p: Params, s: State, op: Op)
    requires Founded(s) && Legal(p, s, op)
    requires !op.PutManifest? && !op.GetManifest? && !op.Restart? && !op.OfflineGc? && !op.RemoveDirectory?
    ensures Founded(Step(p, s, op).state)
  {
    UntouchedFounded(s, Step(p, s, op).state);
  }

  lemma {:induction false} RunKeepsFounded(p: Params, s: State, ops: seq<Op>)
    requires Founded(s) && Run(p, s, ops).Some?
    ensures Founded(Run(p, s, ops).value)
    decreases |ops|
  {
    if ops != [] {
      StepKeepsFounded(p, s, ops[0]);
      RunKeepsFounded(p, Step(p, s, ops[0]).state, ops[1..]);
    }
  }

  /** The digest served is one that upstream named for this tag now or less than
      one TTL ago. */
  ghost predicate RecentlyReported(s: State, k: TagKey, d: Digest, ttl: nat) {
    exists at: nat :: Reported(k, d, at) in s.events && at <= s.now && (at == s.now || s.now - at < ttl)
  }

  /** Bounded staleness, after every run: a pull of a tag that was not pushed here
      is answered with a digest that upstream named less than one TTL ago, unless
      the HEAD that the request made failed, or the cached entry was reloaded at
      startup. */
  lemma BoundedStaleness(p: Params, routed: Repo -> bool, ops: seq<Op>, get: Op)
    requires Run(p, Initial(routed), ops).Some?
    requires get.GetManifest? && IsTag(get.reference)
    requires var s := Run(p, Initial(routed), ops).value;
             var k := (get.repo, get.reference);
             && k !in s.tags.mem
             && (UpstreamTags.Lookup(s.upstream, get.repo, get.reference, s.now, p.tagTtl).Stale? ==>
                  get.answers.head.Some?)
             && (k in s.upstream.entries ==>
                   Reloaded(k, s.upstream.entries[k].digest, s.upstream.entries[k].fetchedAt) !in s.events)
    ensures var r := Step(p, Run(p, Initial(routed), ops).value, get);
            r.response.Served? ==>
              RecentlyReported(r.state, (get.repo, get.reference), r.response.digest, p.tagTtl)
  {
    RunKeepsFounded(p, Initial(routed), ops);
    var s := Run(p, Initial(routed), ops).value;
    var k := (get.repo, get.reference);
    var r := Step(p, s, get);
    if r.response.Served? {
      TagGetCaches(p, s, get);
      FetchCaches(p, s, get, 0);
      assert k in s.upstream.entries ==> EntryFounded(s, k, s.upstream.entries[k]);
      match UpstreamTags.Lookup(s.upstream, get.repo, get.reference, s.now, p.tagTtl)
      case Fresh(d) =>
        LocalOrFetchCaches(p, s, get, d, 0);
        assert Reported(k, d, s.upstream.entries[k].fetchedAt) in r.state.events;
      case Stale(d) => RevalidateCaches(p, s, get, d);
      case Miss =>
    }
  }

}
