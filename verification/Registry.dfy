/** The registry as one state machine: what its request handlers, its background
    pull-through tasks, its restarts and the offline commands do to the disk and
    to the in-memory stores (crates/quill-registry/src/routes.rs and
    crates/quill-server/src/main.rs).

    A request is one step. A pull-through task is two steps, because it runs in
    the background: it renames the verified tempfile into place, and later fills
    the metadata cache. The upstream registry is an oracle whose answers are part
    of the request; I/O faults and the order of directory listings are too. */
module Registry {

  import opened Base
  import opened Digests
  import opened Reachability
  import opened BlobStore
  import opened LocalTags
  import UpstreamTags
  import Uploads
  import PullThrough
  import opened RepoDiscovery

  datatype Params = Params(hash: Hash, view: Viewer, metaTtl: nat, tagTtl: nat)

  /** Upstream named a digest for a tag at some time, or a tag was reloaded from
      disk at startup. */
  datatype Event = Reported(key: TagKey, digest: Digest, at: nat) | Reloaded(key: TagKey, digest: Digest, at: nat)

  datatype State = State(
    store: Store,
    tags: Tags,
    upstream: UpstreamTags.Cache,
    uploads: Uploads.Uploads,
    promoting: multiset<(BlobKey, nat)>,   // promoted blobs whose task has not filled the cache yet
    now: nat,
    routed: Repo -> bool,              // does an upstream serve this repository?
    events: set<Event>,                // history: what upstream and the disk said about tags
    removed: map<BlobKey, nat>)        // history: last removal behind the server's back

  /** What upstream answers to a HEAD and to a GET of a manifest, if asked. */
  datatype Answers = Answers(head: Option<Digest>, get: Option<(Digest, Bytes)>)

  datatype Response =
    | Created(digest: Digest)
    | Served(digest: Digest, bytes: Bytes)
    | BlobBytes(bytes: Bytes)
    | Streaming
    | Accepted
    | Unknown
    | Invalid
    | TooLarge
    | ServerError
    | Upload(reply: Uploads.Reply)
    | Silent

  datatype Op =
    | PutManifest(repo: Repo, reference: string, body: Bytes, blobOk: bool, tagOk: bool)
    | GetManifest(repo: Repo, reference: string, answers: Answers, blobOk: bool, cacheOk: bool)
    | DeleteManifest(repo: Repo, reference: string, order: seq<string>, oks: seq<bool>, blobOk: bool)
    | GetBlob(repo: Repo, reference: string)
    | DeleteBlob(repo: Repo, reference: string, ioOk: bool)
    | UploadCall(call: Uploads.Call)
    | Promote(key: BlobKey, bytes: Bytes, cap: nat, events: seq<PullThrough.Event>)
    | Populate(key: BlobKey, size: nat)
    | Tick(delta: nat)
    | Restart(routed: Repo -> bool)
    | OfflineGc(repos: set<Repo>, extra: set<Digest>, dryRun: bool, stuck: set<BlobKey>, routed: Repo -> bool)
    | RemoveDirectory(dir: Repo, routed: Repo -> bool)
    | ExternalRemove(key: BlobKey)

  const MANIFEST_LIMIT: nat := 32 * 1024 * 1024

  /** A handler's result: the new state, the response and the number of calls made
      to the upstream registry. */
  datatype Result = Result(state: State, response: Response, calls: nat)

  predicate IsTag(reference: string) {
    Parse(reference).None?
  }

  function MetaOf(p: Params, s: State, k: BlobKey): (State, Option<BlobMeta>) {
    var (store, m) := Lookup(s.store, k, s.now, p.metaTtl);
    (s.(store := store), m)
  }

  // ----- manifests -----

  /** `serve_local_manifest` */
  function ServeLocal(p: Params, s: State, repo: Repo, d: Digest, calls: nat): Result {
    var (t, m) := MetaOf(p, s, (repo, d));
    if m.None? then Result(t, Unknown, calls)
    else if (repo, d) in t.store.blobs then Result(t, Served(d, t.store.blobs[(repo, d)]), calls)
    else Result(t, ServerError, calls)
  }

  /** `fetch_and_serve_upstream_manifest`; a failed persist is ignored. */
  function Fetch(p: Params, s: State, op: Op, calls: nat): Result
    requires op.GetManifest?
  {
    match op.answers.get
    case None => Result(s, Unknown, calls + 1)
    case Some((d, bytes)) =>
      var store := Put(p.hash, s.store, (op.repo, d), bytes, s.now, op.blobOk).0;
      var t := s.(store := store);
      var u := if !IsTag(op.reference) then t
               else t.(upstream := UpstreamTags.Insert(s.upstream, op.repo, op.reference, d, s.now, op.cacheOk),
                       events := s.events + {Reported((op.repo, op.reference), d, s.now)});
      Result(u, Served(d, bytes), calls + 1)
  }

  function FetchIfRouted(p: Params, s: State, op: Op, calls: nat): Result
    requires op.GetManifest?
  {
    if s.routed(op.repo) then Fetch(p, s, op, calls) else Result(s, Unknown, calls)
  }

  /** Serve the local copy if there is one, otherwise ask upstream. */
  function LocalOrFetch(p: Params, s: State, op: Op, d: Digest, calls: nat): Result
    requires op.GetManifest?
  {
    var (t, m) := MetaOf(p, s, (op.repo, d));
    if m.Some? then ServeLocal(p, t, op.repo, d, calls) else FetchIfRouted(p, t, op, calls)
  }

  /** A HEAD upstream for a stale tag (routes.rs:360-387). */
  function Revalidate(p: Params, s: State, op: Op, d: Digest): Result
    requires op.GetManifest?
  {
    var k := (op.repo, op.reference);
    match op.answers.head
    case None => LocalOrFetch(p, s, op, d, 1)
    case Some(current) =>
      var t := s.(events := s.events + {Reported(k, current, s.now)});
      if current == d then
        LocalOrFetch(p, t.(upstream := UpstreamTags.Touch(t.upstream, op.repo, op.reference, s.now)), op, d, 1)
      else FetchIfRouted(p, t, op, 1)
  }

  /** `get_manifest` */
  function DoGet(p: Params, s: State, op: Op): Result
    requires op.GetManifest?
  {
    var k := (op.repo, op.reference);
    if IsTag(op.reference) && k in s.tags.mem && Parse(s.tags.mem[k]).Some? then
      ServeLocal(p, s, op.repo, Parse(s.tags.mem[k]).value, 0)
    else if !IsTag(op.reference) then
      LocalOrFetch(p, s, op, Parse(op.reference).value, 0)
    else
      match UpstreamTags.Lookup(s.upstream, op.repo, op.reference, s.now, p.tagTtl)
      case Fresh(d) => LocalOrFetch(p, s, op, d, 0)
      case Stale(d) => if s.routed(op.repo) then Revalidate(p, s, op, d) else LocalOrFetch(p, s, op, d, 0)
      case Miss => FetchIfRouted(p, s, op, 0)
  }

  /** The loop of `check_manifest_blobs_present`: looks each reference up in turn,
      filling the metadata cache, and stops at the first that is missing. */
  function CheckPresent(p: Params, s: State, repo: Repo, refs: seq<string>): (State, bool)
    decreases |refs|
  {
    if refs == [] then (s, true)
    else
      match Parse(refs[0])
      case None => (s, false)
      case Some(d) =>
        var (t, m) := MetaOf(p, s, (repo, d));
        if m.None? then (t, false) else CheckPresent(p, t, repo, refs[1..])
  }

  function RequiredBy(p: Params, body: Bytes): seq<string> {
    match p.view(body)
    case None => []
    case Some(v) => Required(v)
  }

  /** The end of `put_manifest`: store the checked manifest, then record the tag. */
  function Persist(p: Params, s: State, op: Op): Result
    requires op.PutManifest?
  {
    var d := p.hash(op.body);
    var (store, e) := Put(p.hash, s.store, (op.repo, d), op.body, s.now, op.blobOk);
    var t := s.(store := store);
    if e.Some? then Result(t, ServerError, 0)
    else if !IsTag(op.reference) then Result(t, Created(d), 0)
    else
      var u := t.(tags := Set(s.tags, op.repo, op.reference, d, op.tagOk));
      Result(u, if op.tagOk then Created(d) else ServerError, 0)
  }

  /** Whether a push gets as far as recording its tag. */
  predicate RecordsTag(p: Params, s: State, op: Op)
    requires op.PutManifest?
  {
    && IsTag(op.reference) && |op.body| <= MANIFEST_LIMIT
    && CheckPresent(p, s, op.repo, RequiredBy(p, op.body)).1 && op.blobOk
  }

  /** `put_manifest` */
  function DoPut(p: Params, s: State, op: Op): Result
    requires op.PutManifest?
  {
    var d := p.hash(op.body);
    if |op.body| > MANIFEST_LIMIT then Result(s, TooLarge, 0)
    else if Parse(op.reference).Some? && Parse(op.reference).value != d then Result(s, Invalid, 0)
    else
      var (t, present) := CheckPresent(p, s, op.repo, RequiredBy(p, op.body));
      if !present then Result(t, Invalid, 0) else Persist(p, t, op)
  }

  /** Removes tags one after the other; failures are ignored (routes.rs:772-774). */
  function RemoveEach(t: Tags, repo: Repo, order: seq<string>, oks: seq<bool>): Tags
    requires |oks| == |order|
    decreases |order|
  {
    if order == [] then t
    else RemoveEach(Remove(t, repo, order[0], oks[0]), repo, order[1..], oks[1..])
  }

  /** `order` lists the tags of `repo` that point at `d`, in some order. */
  predicate ListsTagsOf(s: State, repo: Repo, d: Digest, order: seq<string>) {
    && NoDuplicates(order)
    && (forall t :: t in order ==> (repo, t) in s.tags.mem && s.tags.mem[(repo, t)] == Display(d))
    && (forall k :: k in s.tags.mem && k.0 == repo && s.tags.mem[k] == Display(d) ==> k.1 in order)
  }

  function DeleteResponse(e: Option<StoreError>): Response {
    match e
    case None => Accepted
    case Some(NotFound) => Unknown
    case Some(_) => ServerError
  }

  /** `delete_manifest` */
  function DoDelete(s: State, op: Op): Result
    requires op.DeleteManifest? && |op.oks| == |op.order|
  {
    match Parse(op.reference)
    case None =>
      var present := (op.repo, op.reference) in s.tags.mem;
      var t := s.(tags := Remove(s.tags, op.repo, op.reference, op.blobOk));
      Result(t, if !present then Unknown else if op.blobOk then Accepted else ServerError, 0)
    case Some(d) =>
      var (store, e) := Delete(s.store, (op.repo, d), op.blobOk);
      Result(s.(tags := RemoveEach(s.tags, op.repo, op.order, op.oks), store := store), DeleteResponse(e), 0)
  }

  // ----- blobs -----

  /** `get_blob`; on a miss the upstream fetch goes on in the background. */
  function DoGetBlob(p: Params, s: State, repo: Repo, reference: string): Result {
    match Parse(reference)
    case None => Result(s, Invalid, 0)
    case Some(d) =>
      var (t, m) := MetaOf(p, s, (repo, d));
      if m.None? then Result(t, if s.routed(repo) then Streaming else Unknown, 0)
      else if (repo, d) in t.store.blobs then Result(t, BlobBytes(t.store.blobs[(repo, d)]), 0)
      else Result(t, ServerError, 0)
  }

  function DoDeleteBlob(s: State, repo: Repo, reference: string, ioOk: bool): Result {
    match Parse(reference)
    case None => Result(s, Invalid, 0)
    case Some(d) =>
      var (store, e) := Delete(s.store, (repo, d), ioOk);
      Result(s.(store := store), DeleteResponse(e), 0)
  }

  function DoUpload(p: Params, s: State, call: Uploads.Call): Result {
    var (server, reply) := Uploads.Serve(p.hash, Uploads.Server(s.uploads, s.store.blobs), call);
    Result(s.(uploads := server.uploads, store := s.store.(blobs := server.blobs)), Upload(reply), 0)
  }

  // ----- processes -----

  /** A new server process: the caches are empty, and the tags are what the
      startup scan reads back (main.rs:161-185, 300-362). */
  function Boot(s: State, routed: Repo -> bool): State {
    var upstream := UpstreamTags.ReloadCache(s.upstream.disk, s.now);
    s.(store := s.store.(meta := map[]),
       tags := ReloadTags(s.tags.disk),
       upstream := upstream,
       uploads := Uploads.Uploads(map[], map[]),
       promoting := multiset{},
       routed := routed,
       events := s.events + set k | k in upstream.entries :: Reloaded(k, upstream.entries[k].digest, s.now))
  }

  function BlobsOf(blobs: map<BlobKey, Bytes>, repo: Repo): Blobs {
    map k | k in blobs && k.0 == repo :: k.1 := blobs[k]
  }

  function TagRoots(tags: TagMap, extra: set<Digest>): set<Digest> {
    extra + set t | t in tags && Parse(tags[t]).Some? :: Parse(tags[t]).value
  }

  /** What garbage collection keeps of a repository it scans. */
  ghost function Keep(p: Params, s: State, repo: Repo, extra: set<Digest>): set<Digest> {
    Reachable(p.view, BlobsOf(s.store.blobs, repo), TagRoots(DiskTags(s.tags.disk, repo), extra))
  }

  ghost function Collect(p: Params, s: State, repos: set<Repo>, extra: set<Digest>, dryRun: bool,
                         stuck: set<BlobKey>): State {
    s.(store := s.store.(blobs := map k | k in s.store.blobs
         && (dryRun || k.0 !in repos || k.1 in Keep(p, s, k.0, extra) || k in stuck) :: s.store.blobs[k]))
  }

  /** `cache-rm`: removes a directory and every file below it, whichever repository
      the file belongs to. */
  function RemoveTree(s: State, dir: Repo): State {
    s.(store := s.store.(blobs := map k | k in s.store.blobs && !(dir < BlobPath(k.0, k.1)) :: s.store.blobs[k]),
       tags := s.tags.(disk := map r | r in s.tags.disk && !(dir < LocalTagsPath(r)) :: s.tags.disk[r]),
       upstream := s.upstream.(disk :=
         map r | r in s.upstream.disk && !(dir < UpstreamTagsPath(r)) :: s.upstream.disk[r]))
  }

  /** `events` are a run of a fetch of `d` that has promoted `bytes`. */
  predicate Fetched(p: Params, d: Digest, bytes: Bytes, cap: nat, events: seq<PullThrough.Event>) {
    var end := PullThrough.Run(PullThrough.Setup(p.hash, cap), PullThrough.Start(d), events);
    end.Some? && end.value.sh.promoted == Some(bytes)
  }

  function DoRestart(s: State, routed: Repo -> bool): Result {
    Result(Boot(s, routed), Silent, 0)
  }

  ghost function DoGc(p: Params, s: State, op: Op): Result
    requires op.OfflineGc?
  {
    Result(Boot(Collect(p, s, op.repos, op.extra, op.dryRun, op.stuck), op.routed), Silent, 0)
  }

  function DoRemoveDirectory(s: State, op: Op): Result
    requires op.RemoveDirectory?
  {
    Result(Boot(RemoveTree(s, op.dir), op.routed), Silent, 0)
  }

  /** Side conditions on the oracle parts of an operation. */
  predicate Legal(p: Params, s: State, op: Op) {
    match op
    case DeleteManifest(repo, reference, order, oks, _) =>
      |oks| == |order| && (Parse(reference).Some? ==> ListsTagsOf(s, repo, Parse(reference).value, order))
    case Promote(key, bytes, cap, events) => Fetched(p, key.1, bytes, cap, events)
    case Populate(key, size) => (key, size) in s.promoting
    case _ => true
  }

  ghost function Step(p: Params, s: State, op: Op): Result
    requires Legal(p, s, op)
  {
    match op
    case PutManifest(_, _, _, _, _) => DoPut(p, s, op)
    case GetManifest(_, _, _, _, _) => DoGet(p, s, op)
    case DeleteManifest(_, _, _, _, _) => DoDelete(s, op)
    case GetBlob(repo, reference) => DoGetBlob(p, s, repo, reference)
    case DeleteBlob(repo, reference, ioOk) => DoDeleteBlob(s, repo, reference, ioOk)
    case UploadCall(call) => DoUpload(p, s, call)
    case Promote(key, bytes, _, _) =>
      Result(s.(store := s.store.(blobs := s.store.blobs[key := bytes]),
                promoting := s.promoting + multiset{(key, |bytes|)}), Silent, 0)
    case Populate(key, size) =>
      Result(s.(store := s.store.(meta := s.store.meta[key := BlobMeta(size, s.now)]),
                promoting := s.promoting - multiset{(key, size)}), Silent, 0)
    case Tick(delta) => Result(s.(now := s.now + delta), Silent, 0)
    case Restart(routed) => DoRestart(s, routed)
    case OfflineGc(_, _, _, _, _) => DoGc(p, s, op)
    case RemoveDirectory(_, _) => DoRemoveDirectory(s, op)
    case ExternalRemove(key) =>
      Result(s.(store := s.store.(blobs := s.store.blobs - {key}), removed := s.removed[key := s.now]), Silent, 0)
  }

  function Initial(routed: Repo -> bool): State {
    State(Store(map[], map[]), Tags(map[], map[]), UpstreamTags.Cache(map[], map[]), Uploads.Uploads(map[], map[]),
          multiset{}, 0, routed, {}, map[])
  }

  /** The state after a run, if every operation is legal when its turn comes. */
  ghost function Run(p: Params, s: State, ops: seq<Op>): Option<State>
    decreases |ops|
  {
    if ops == [] then Some(s)
    else if !Legal(p, s, ops[0]) then None
    else Run(p, Step(p, s, ops[0]).state, ops[1..])
  }

}
