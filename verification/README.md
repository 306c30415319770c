# Quill in Dafny

Quill is a content-addressed OCI registry with a streaming pull-through cache.
This project models the parts of it whose correctness is not visible in any one
function, and proves what they guarantee over every input, every run and every
interleaving. `dafny verify dfyconfig.toml` checks all of it.

## How it is laid out

| file | what it models |
|---|---|
| `Digests.dfy` | the canonical digest form that is used as a key everywhere |
| `RoutePaths.dfy` | the suffix parser for request paths, and the paths the server prints |
| `BlobStore.dfy` | blobs on disk behind a metadata cache with a time to live |
| `LocalTags.dfy`, `LocalTagsConcurrency.dfy` | pushed tags with their sidecar files: sequentially, and as interleaved steps with crashes |
| `UpstreamTags.dfy` | the Fresh / Stale / Miss cache of tags resolved upstream |
| `Uploads.dfy` | upload sessions: an in-memory hasher and an on-disk file |
| `TreeWalk.dfy` | walking a directory tree with a worklist |
| `Reachability.dfy`, `RepoDiscovery.dfy`, `GarbageCollection.dfy` | mark and sweep over directories |
| `StartupScan.dfy` | the scans that read the tags back at startup |
| `PullThrough.dfy` | one fetch: a producer and any number of consumers and HEAD waiters, each atomic access a step |
| `PullThroughPolls.dfy` | wakeups and progress, with and without whole polls |
| `PullThroughTable.dfy` | many fetches at once, keyed by digest |
| `PullThroughTasks.dfy` | the code of entry, producer, body, table and spawned task, tied to those transition systems |
| `Registry.dfy` | the registry as one state machine: requests, background tasks, restarts, offline commands |
| `Handlers.dfy` | the manifest handlers and the pull-through task step by step on the three stores, tied to that state machine |
| `RegistryRuns.dfy`, `RegistryIntegrity.dfy`, `RegistryCompleteness.dfy`, `RegistryStaleness.dfy` | what holds over all its runs |
| `RegistryAnswers.dfy` | what each request answers, said of the stored bytes, the manifest's members, the ages of cache entries and upstream's replies |
| `RegistryLasting.dfy` | what lasts over runs and restarts: stored blobs, deleted tags, tags resolved upstream |
| `RegistryExamples.dfy` | runs from a fresh registry: an ordinary one, and what a race on the metadata cache leads to |
| `CollectionRefinement.dfy` | the directory-walking collector does what the state machine says collection does |

State that the source updates in place is a class whose methods are proved
against functions; the run-level results are lemmas about those functions.

## What is assumed

- SHA-256 is an arbitrary function from bytes to digests. It is never assumed to be
  injective: no function into 64 hex digits is. Results that compare contents or
  sizes ask only that the run at hand does not store two different contents under
  one digest (`OneContent`), which holds when no two different contents that it
  stores share a hash (`NoCollisionsOneContent`), or ask the same of two strings.
  `OrdinaryRun` is a run that meets these hypotheses, for every hash that tells its
  two contents apart. Which blobs exist needs no such hypothesis.
- JSON parsing is one opaque function from bytes to config, layer and manifest
  references, shared by push validation and garbage collection. Serialising a
  sidecar and reading it back gives the same tags.
- A tempfile's visible length may lag what was written until it is flushed; a
  read may return any shorter prefix, also nothing; a failed write may leave part
  of a chunk. A tempfile is not created again while somebody still reads it.
- Calls on one upload session are serialized, as the source says, and each append
  to the data file is all or nothing.
- Garbage collection and `cache-rm` run while the server is down. `cache-rm` takes
  any directory below the root, also one inside a repository, and removes every
  file below it. All files are read at one point of time at startup.
- A repository name is a list of path components. A request is one atomic step;
  a pull-through task is two (rename, then cache update), and what it renames is
  what some run of the transition system of its fetch has promoted.
- Byte counts of a pull-through stay below 2^64; upload and collection counters
  saturate as in the source.

## Where the code does not do what it promises

Each of these has lemmas that give an input and the exact condition under which
the code does keep the promise.

- **A pushed tag can be forgotten by a restart.** The startup scan does not enter
  directories named `blobs` or `_uploads` (crates/quill-server/src/main.rs:345):
  `LoadExistingLocalTags` is that scan, and in any readable tree it loads exactly
  the sidecars of repositories without such a component. So a tag pushed to
  another repository is unknown afterwards (`ForgottenAfterRestart`, and
  `FirstPushSucceeds` for the existence of such a push), and a restart keeps a tag
  if and only if the repository has no such component (`RestartKeepsTagIff`); that
  is the only restart clause in the hypotheses of `ReadYourWrites`.
- **A wakeup can be lost.** `poll_frame` loads the mark, checks the outcome and
  registers for a notification in separate steps. If the producer finishes
  between them, the consumer sleeps for good (`WakeupCanBeLost`,
  `LateSleeperStays`). The consumers this happens to are exactly those that
  register after the last notification: after the producer has exited, every
  sleeper is one of them (`SleepersAreLate`), and every other sleeper is notified
  before the producer exits (`EarlySleeperWakes`). When each poll is one step it
  cannot happen (`NoLostWakeup`).
- **A consumer can be left Pending with no waker** in the branch of
  `handle_terminal` for a success (`ConsumerCanStall`). The branch is taken if and
  only if the fetch has succeeded and raised its mark after the consumer had
  loaded it (`StallsIff`), so never when each poll is one step (`NoLostWakeup`).
- **The metadata cache can claim a blob that is gone**, when the blob is deleted
  between the rename and the cache update of its pull-through task
  (`RaceLeavesStaleEntry`; `RaceIsReachable` gives the run, for every blob). The cache update leaves a true entry if and only if the
  blob is there, with the promoted size, when it is made (`PopulateAgreesIff`), and
  if the blob is there at every cache update for it, the cache agrees with the disk
  about this blob in the whole run (`CachedExistenceAgrees`, `CachedLookupAgrees`).
- **A push can be accepted although a blob it requires is gone.** The check asks the
  metadata cache first, so after such a race, or within one TTL of a removal from
  outside, it lets a manifest pass whose layer is not on disk; the push is answered
  with success and the tag names an incomplete image (`IncompletePushAccepted` gives
  the run, for every manifest that requires one layer). An accepted push leaves a
  complete image if and only if no blob it requires is missing from the disk while
  its cache entry is fresh (`PushCompleteIff`, from `CheckPassesIff`).
- **A deleted manifest's tag can come back.** A delete by digest promises to remove
  the tags that point at the manifest, but ignores failed sidecar writes. It answers
  with success, and after a restart such a tag is there again and names a manifest
  that is gone (`IgnoredFailureRevivesTag`). A tag is out of the sidecar if and only
  if its own sidecar write, or a later one of the same delete, went through
  (`TakenAlongIff`).
- **An upload rejected for its digest cannot be ended again.** The comment on
  `finalize` says that after a mismatch the client can retry; but the last chunk
  was appended and stays. The same bytes sent again with the right digest succeed
  if and only if there were none (`RetrySucceedsIff`; provided the content with these
  bytes twice is not a collision with the content itself).
- **A blob named `uploads` has no path of its own**: its path reads as the start
  of an upload (`UploadsReferenceIsNotABlob`). Every other target comes back
  (`SplitPrint`).
- **A chunk capacity of zero makes `poll_frame` loop.** It returns if and only if
  the capacity is at least one or the consumer has nothing to read
  (`PollReturnsIff`).
- **A `blobs` directory in the cache root hides every repository** from the
  collector: of a readable root, all outermost repositories are found if and only
  if it has no such directory, or there are none to find (`RootBlobsHideAll`).

## Model

| member | source | states |
|---|---|---|
| `Digests.ParseExact` | crates/quill-storage/src/digest.rs:25-44 | parsing succeeds exactly on `sha256:` followed by 64 hex digits, and yields their lower-case form |
| `Digests.ParseDisplay` | crates/quill-storage/src/digest.rs:25-58 | parsing a displayed digest gives the digest back; so does the file name of its blob |
| `Digests.SameDigestUpToCase` | crates/quill-storage/src/digest.rs:25-44 | two texts name one digest exactly when they differ at most in the case of the hex digits |
| `Digests.DisplayInjective` | crates/quill-storage/src/digest.rs:55-59 | different digests are displayed differently |
| `RoutePaths.SplitPrint` | crates/quill-registry/src/routes.rs:51-80 | for every repository text, whatever segments it holds, splitting a printed path gives back repository and action |
| `RoutePaths.PrintSplit` | crates/quill-registry/src/routes.rs:51-80 | conversely, printing any recognised result gives the path back, up to the optional slash after `uploads` |
| `RoutePaths.PrintInjective` | crates/quill-registry/src/routes.rs:51-80 | no two printable targets share a path |
| `RoutePaths.UploadsReferenceIsNotABlob` | crates/quill-registry/src/routes.rs:53-58 | the one blob reference that is misread, for every repository |
| `RoutePaths.BlobLocationLeadsBack` | crates/quill-registry/src/routes.rs:634-641 | the Location printed after an upload leads back to that repository and, through parsing, to that digest |
| `RoutePaths.SplitBeforeLastSegment` | crates/quill-registry/src/routes.rs:60-74 | splitting at the last marker leaves a single segment exactly when the marker stands right before the last segment |
| `BlobStore.LocalStorage.GetMeta` | crates/quill-storage/src/local.rs:53-76 | a hit within the TTL, or a `stat` that fills the cache; blobs unchanged |
| `BlobStore.LocalStorage.PutBlobBuffered` | crates/quill-storage/src/local.rs:85-121 | publishes and caches only bytes that hash to the expected digest, and keeps every blob intact |
| `BlobStore.LocalStorage.DeleteBlob` | crates/quill-storage/src/local.rs:131-149 | removes file and cache entry; the entry also when there was no file; neither when removing fails |
| `LocalTags.LocalTagsStore.SetTag` | crates/quill-storage/src/local_tags.rs:85-110 | memory is updated in any case; on success the sidecar equals the tags in memory |
| `LocalTags.LocalTagsStore.RemoveTag` | crates/quill-storage/src/local_tags.rs:112-132 | the tag is out of memory in any case; an unknown tag changes and writes nothing; on success the sidecar equals the tags in memory, so the tag is out of it too |
| `LocalTags.LocalTagsStore.Load` | crates/quill-storage/src/local_tags.rs:70-82 | the loop over a sidecar overrides exactly the tags it holds |
| `LocalTags.LoadRestores` | crates/quill-storage/src/local_tags.rs:70-82 | on an empty memory, loading restores exactly what the sidecar holds |
| `LocalTags.LoadExact` | crates/quill-storage/src/local_tags.rs:70-82 | tag by tag: what the sidecar holds overrides memory, everything else stays |
| `LocalTagsConcurrency.StepKeepsInv` | crates/quill-storage/src/local_tags.rs:84-144 | every step of every caller keeps: locks are exclusive, and memory, temp file and sidecar of each repository are as its lock holder's phase says |
| `LocalTagsConcurrency.CrashKeepsInvIff` | crates/quill-server/src/main.rs:329-362 | a crash in any state, followed by a startup, leaves a repository in order if and only if startup finds it or it has no tags on disk |
| `LocalTagsConcurrency.RunKeepsInv` | crates/quill-storage/src/local_tags.rs:84-144 | so does every interleaving, through any number of crashes after which startup finds the repository again |
| `LocalTagsConcurrency.QuietReposAgree` | crates/quill-storage/src/local_tags.rs:84-132 | from any state in order, in every such run, a repository nobody has locked has a sidecar equal to its tags in memory |
| `LocalTagsConcurrency.CrashIsAtomic` | crates/quill-storage/src/local_tags.rs:135-144 | a crash at any point of such a run: loading gives the tags from before the change or from after it, the latter exactly when the rename has happened |
| `LocalTagsConcurrency.SoloCall` | crates/quill-storage/src/local_tags.rs:84-132 | the steps of a call that nobody interferes with do to memory and sidecar exactly what the sequential model says, and give the lock back |
| `UpstreamTags.UpstreamTagCache.Load` | crates/quill-registry/src/state.rs:42-67 | the loop over a file overrides exactly the tags for which it holds a digest |
| `UpstreamTags.UpstreamTagCache.LookupTag` | crates/quill-registry/src/state.rs:69-84 | fresh exactly while less than one TTL has passed since the entry's date |
| `UpstreamTags.UpstreamTagCache.InsertTag` | crates/quill-registry/src/state.rs:95-143 | the entry is dated now, the file of the repository rewritten from all its entries |
| `UpstreamTags.UpstreamTagCache.TouchTag` | crates/quill-registry/src/state.rs:103-110 | a new date for the same digest; nothing for a tag that is not cached |
| `Uploads.UploadStore.CreateSession` | crates/quill-storage/src/uploads.rs:87-113 | an empty session whose hasher, counter and file agree |
| `Uploads.UploadStore.AppendChunk` | crates/quill-storage/src/uploads.rs:116-161 | file first, then hasher and counter; agreement is kept, also on errors |
| `Uploads.UploadStore.FinalizeSession` | crates/quill-storage/src/uploads.rs:166-221 | publishes the file only when the hasher accepts; agreement and intact blobs are kept |
| `Uploads.ServeRefines` | crates/quill-storage/src/uploads.rs:87-232 | one call on hasher, counter and file is one step of a plain byte sequence, with the same reply |
| `Uploads.RunRefines` | crates/quill-storage/src/uploads.rs:87-232 | over every sequence of calls on any sessions, replies and published blobs are those of plain byte sequences |
| `Uploads.FinalizeExact` | crates/quill-storage/src/uploads.rs:166-221 | publishes exactly when the bytes received hash to the expected digest, and then every later append or finalize finds no session; a mismatch publishes nothing and leaves the session open |
| `Uploads.StaysClosed` | crates/quill-storage/src/uploads.rs:116-221 | a session that is gone stays gone through any calls that do not create it |
| `Uploads.RetrySucceedsIff` | crates/quill-storage/src/uploads.rs:163-203 | after a mismatch, the same last bytes with the right digest succeed if and only if there were none, provided the content with and without a second copy of them does not collide; ending the session without them succeeds |
| `Reachability.LeastIsUnique` | crates/quill-storage/src/gc.rs:150-198 | at most one set is the least one that contains the roots and is closed under config, layer and manifest links |
| `Reachability.Reachable` | crates/quill-storage/src/gc.rs:150-198 | that set exists, for every finite graph with cycles, sharing and dangling references |
| `Reachability.ChildrenAreNamed` | crates/quill-storage/src/gc.rs:166-195 | the walk follows exactly the digests that a manifest names as its config, as a layer or as a child manifest |
| `Reachability.ReachableIffPath` | crates/quill-storage/src/gc.rs:150-198 | a digest is reachable if and only if a path of such links leads to it from a root |
| `Reachability.ReachableDependsOnReachable` | crates/quill-storage/src/gc.rs:150-198 | it depends only on the content of the blobs in it, so removing others does not change it |
| `Reachability.RequiredAreReachable` | crates/quill-storage/src/gc.rs:173-195 | every reference that push validation requires of a reachable manifest is reachable |
| `TreeWalk.WalkStep` | crates/quill-storage/src/gc.rs:209-240 | visiting one directory keeps: nothing is visited twice, everything still to visit lies below the stack |
| `TreeWalk.WalkEnds` | crates/quill-storage/src/gc.rs:209-240 | a walk ends with exactly the directories it means to visit |
| `RepoDiscovery.DiscoverRepos` | crates/quill-storage/src/gc.rs:202-242 | the worklist returns every outermost blob-bearing directory outside the skipped names exactly once |
| `RepoDiscovery.FoundIff` | crates/quill-storage/src/gc.rs:216-239 | in the names themselves: a readable directory with `blobs`, no component `blobs`, `_uploads` or `_quill`, and nothing unreadable and no `blobs` above it |
| `RepoDiscovery.RootBlobsHideAll` | crates/quill-storage/src/gc.rs:229-239 | with a `blobs` directory in the root no repository is found; of a readable root, all outermost ones are found if and only if it has none, or there are none to find |
| `StartupScan.LoadExistingLocalTags` | crates/quill-server/src/main.rs:329-362 | the worklist loads the sidecars of exactly the directories it can reach and read; in a readable tree, of exactly the repositories without a `blobs` or `_uploads` component |
| `StartupScan.LoadExistingUpstreamTags` | crates/quill-server/src/main.rs:300-327 | the same for the tags resolved upstream, dated at startup |
| `RepoDiscovery.ReposAreDisjoint` | crates/quill-storage/src/gc.rs:223-238 | no returned repository lies inside another |
| `RepoDiscovery.SweepStaysInside` | crates/quill-storage/src/cas.rs:32-41 | a file swept in one repository is the blob of no other repository and no other digest |
| `GarbageCollection.Traverse` | crates/quill-storage/src/gc.rs:150-198 | the worklist ends, and extends the marks of one repository to the least closed set that also contains the root, although the visited set is shared with earlier roots and other repositories |
| `GarbageCollection.MarkRepo` | crates/quill-storage/src/gc.rs:84-99 | after all roots of a repository its marks are exactly the reachable digests |
| `GarbageCollection.GarbageCollector.Mark` | crates/quill-storage/src/gc.rs:84-99 | marks exactly the reachable digests of every repository; gives up exactly when some sidecar does not load |
| `GarbageCollection.GarbageCollector.SweepRepo` | crates/quill-storage/src/gc.rs:103-142 | the directory loop keeps counters, disk and the set of examined files in step |
| `GarbageCollection.GarbageCollector.Sweep` | crates/quill-storage/src/gc.rs:102-143 | removes exactly the unreachable blob files that can be removed, and counts what it did |
| `GarbageCollection.GarbageCollector.Run` | crates/quill-storage/src/gc.rs:68-144 | the whole pass: new disk and every counter of the report; a sidecar that does not load aborts before anything is deleted |
| `GarbageCollection.GarbageCollector.DiskUsage` | crates/quill-storage/src/gc.rs:245-262 | the total size of all files in the blob directories, saturating |
| `GarbageCollection.SweepIsExact` | crates/quill-storage/src/gc.rs:102-143 | after a live run without delete errors the blob files left are exactly the reachable ones, with their content; nothing else is touched |
| `GarbageCollection.BlobSurvivesIff` | crates/quill-storage/src/gc.rs:84-143 | a live run keeps a blob, unchanged, if and only if a path of config, layer and manifest links leads to it from a tag of the sidecar or an extra root, or its repository is not scanned, or it cannot be removed |
| `GarbageCollection.NamedIsKept` | crates/quill-storage/src/gc.rs:173-195 | whatever a needed manifest names, as config, layer or child, and is on disk, stays on disk |
| `GarbageCollection.TotalSizeExact` | crates/quill-storage/src/gc.rs:131-136 | a file counts with the length of its content |
| `GarbageCollection.MarksAreStable` | crates/quill-storage/src/gc.rs:84-143 | no run, not even one with delete errors, changes what is reachable |
| `GarbageCollection.SecondRunIsIdle` | crates/quill-storage/src/gc.rs:84-143 | an immediate second run marks the same set and removes nothing; only what the first failed to remove is still unreachable |
| `GarbageCollection.RunConservesBytes` | crates/quill-storage/src/gc.rs:102-143 | the total size before equals the total size after plus the size of what was removed, for sizes without bound |
| `GarbageCollection.ReportsBalance` | crates/quill-storage/src/gc.rs:245-262 | when the sizes fit into 64 bits, the disk usage reported before equals the one reported after plus the bytes reported as freed |
| `GarbageCollection.RunCountsFiles` | crates/quill-storage/src/gc.rs:102-143 | blob files on disk are those kept as reachable plus deleted plus errors |
| `GarbageCollection.DryRunKeepsDisk` | crates/quill-storage/src/gc.rs:124-126 | a dry run leaves the disk as it was |
| `PullThrough.StepKeepsInv` | crates/quill-pullthrough/src/producer.rs:23-111 | every atomic step of producer, consumer or HEAD waiter keeps the invariant that ties mark, file, hash, outcome and delivered bytes |
| `PullThrough.RunKeepsInv` | crates/quill-pullthrough/src/body.rs:62-161 | so does every interleaving |
| `PullThrough.Integrity` | crates/quill-pullthrough/src/body.rs:62-136 | what a consumer has delivered is a prefix of the upstream bytes, no further than the mark; one that is done has delivered the whole blob, which has the requested digest and was promoted |
| `PullThrough.OutcomeIsFinal` | crates/quill-pullthrough/src/entry.rs:83-93 | an outcome once sent never changes |
| `PullThrough.FailureIsNeverDone` | crates/quill-pullthrough/src/body.rs:113-136 | after a failed outcome no consumer ever ends cleanly, whatever happens later |
| `PullThrough.ErrorsAreReal` | crates/quill-pullthrough/src/body.rs:96-101 | a consumer that ends with an error has met an I/O error of its own or passes on exactly the failure that the producer sent |
| `PullThrough.LateReaderFails` | crates/quill-pullthrough/src/body.rs:148-150 | a consumer that still has to open the file after the promotion fails with an I/O error |
| `PullThrough.HeadNeverMisses` | crates/quill-registry/src/routes.rs:270-293 | a HEAD waiter can always go on once an outcome was sent, also between its check and its wait, and answers with that outcome, never without one |
| `PullThroughPolls.PollRunIsRun` | crates/quill-pullthrough/src/body.rs:58-111 | runs with whole polls are among the interleavings, so integrity holds of them too |
| `PullThroughPolls.NoLostWakeup` | crates/quill-pullthrough/src/body.rs:66-107 | with whole polls, a consumer asleep has delivered everything up to the mark and there is no outcome, or the producer is about to notify; a success names the mark as its size, and the Pending branch is never taken |
| `PullThroughPolls.LateSleeperStays` | crates/quill-pullthrough/src/body.rs:79-82 | a consumer that registers after the last notification never moves again, in any run |
| `PullThroughPolls.SleepersAreLate` | crates/quill-pullthrough/src/body.rs:79-82 | a consumer asleep registered late exactly when the producer has exited |
| `PullThroughPolls.EarlySleeperWakes` | crates/quill-pullthrough/src/entry.rs:76-88 | a consumer asleep that did not register late is notified in every continuation in which the producer exits |
| `PullThroughPolls.WakeupCanBeLost` | crates/quill-pullthrough/src/body.rs:66-82 | such a run exists, for every digest |
| `PullThroughPolls.ConsumerCanStall` | crates/quill-pullthrough/src/body.rs:119-129 | the Pending branch is reachable with separate steps, for every non-empty blob |
| `PullThroughPolls.StallsIff` | crates/quill-pullthrough/src/body.rs:113-136 | in every reachable state, the branch is taken if and only if the fetch has succeeded and its mark was raised after the consumer had loaded it |
| `PullThroughPolls.PollGetsCloser` | crates/quill-pullthrough/src/body.rs:62-111 | after the producer has exited, every poll that takes a step, also one that leaves its read in flight, lowers the measure (bytes missing, stage) |
| `PullThroughPolls.RunGetsCloser` | crates/quill-pullthrough/src/body.rs:62-111 | so in every run of whole polls, whatever the others do: the polls of a consumer that take a step, plus what is left of the measure, are at most the measure at the start |
| `PullThroughPolls.ConsumerEnds` | crates/quill-pullthrough/src/body.rs:62-111 | so every consumer has ended once it has had four such polls per missing byte and four more, provided no read comes back empty |
| `PullThroughPolls.EndedStays` | crates/quill-pullthrough/src/body.rs:64 | an ended consumer stays as it is in every interleaving |
| `PullThroughPolls.PollIsPossible` | crates/quill-pullthrough/src/body.rs:138-161 | after a success, or with the whole file visible, and with a capacity of at least one, a consumer that has not ended can always be polled so that it takes a step and reads data |
| `PullThroughPolls.PollReturnsIff` | crates/quill-pullthrough/src/body.rs:138-147 | a poll can return if and only if the capacity is at least one or there is nothing to read |
| `PullThroughTable.WorldRunKeepsInv` | crates/quill-pullthrough/src/table.rs:33-52 | in every run of all fetches, the table holds exactly the tasks that have not removed themselves |
| `PullThroughTable.SingleFlight` | crates/quill-registry/src/routes.rs:213-268 | at most one live producer per digest; an entry is there exactly until its task removes it; by then the outcome was sent, exactly once |
| `PullThroughTable.RemovesOwnEntry` | crates/quill-pullthrough/src/table.rs:48-52 | removing by digest removes the caller's own entry and no other |
| `PullThroughTable.EveryFetchIsSound` | crates/quill-registry/src/routes.rs:213-268 | integrity of every fetch while all run together: prefixes, verified clean ends, verified promotions |
| `PullThroughTasks.PullThroughEntry.Advance` | crates/quill-pullthrough/src/entry.rs:75-79 | store then notify: two steps of the producer |
| `PullThroughTasks.PullThroughEntry.Finish` | crates/quill-pullthrough/src/entry.rs:81-88 | flag, outcome, notify: three steps, after which the producer has exited |
| `PullThroughTasks.Receive` | crates/quill-pullthrough/src/producer.rs:51-63 | the stream loop gets through exactly when no item is an error or cannot be written; running hasher, file and count then hold the whole stream, and all of it was announced |
| `PullThroughTasks.Promote` | crates/quill-pullthrough/src/producer.rs:64-91 | promotes exactly when flush and rename go through and the hash is right |
| `PullThroughTasks.RunProducer` | crates/quill-pullthrough/src/producer.rs:23-111 | succeeds exactly when the whole stream arrives and has the digest; then exactly those bytes are promoted, otherwise nothing; which failure is reported, by what went wrong first; the outcome is sent exactly once and says so; the tempfile is left behind exactly when removing it fails |
| `PullThroughTasks.PullThroughBody.PollFrame` | crates/quill-pullthrough/src/body.rs:58-111 | whatever happens to the shared entry during the call, the loop returns, each of its steps is the step of the transition system at its moment, and its result tells what was delivered |
| `PullThroughTasks.MovingPollIsRun` | crates/quill-pullthrough/src/body.rs:58-111 | such a call is a part of a run of everybody: its steps in their order, with anything the others do in between |
| `PullThroughTasks.StillEntry` | crates/quill-pullthrough/src/body.rs:58-111 | and if the entry stands still it is exactly one whole poll |
| `PullThroughTasks.ReadChunk` | crates/quill-pullthrough/src/body.rs:138-161 | bytes of the file at the offset, none beyond the mark, at most the capacity; some whenever there are any |
| `PullThroughTasks.Table.GetOrInsert` | crates/quill-pullthrough/src/table.rs:33-46 | attaches to the fetch in flight, or makes the caller its one producer with a fresh entry; on all fetches this is the step of a request |
| `PullThroughTasks.RunTask` | crates/quill-registry/src/routes.rs:228-267 | both arms of the spawned task: its steps are a run of all fetches in which the outcome is sent exactly once and before the removal, its own entry and no other leaves the table, and the table invariant is kept; it yields bytes exactly on success, and they have the digest |
| `Handlers.RegistryServer.PullThroughTask` | crates/quill-registry/src/routes.rs:228-267 | on the real stores: when the fetch succeeds, exactly the registry's promotion and cache update, for the bytes received and by a run of that fetch; otherwise no step |
| `Handlers.RegistryServer.CheckManifestBlobsPresent` | crates/quill-registry/src/routes.rs:789-817 | the loop finds a missing reference exactly when the state machine's check fails, filling the metadata cache the same way |
| `Handlers.RegistryServer.PutManifest` | crates/quill-registry/src/routes.rs:660-735 | on the real stores: the new state and the response of the state machine's push |
| `Handlers.RegistryServer.RemoveTagsOf` | crates/quill-registry/src/routes.rs:764-774 | visits exactly the tags that point at the digest, each once, in whatever order |
| `Handlers.RegistryServer.DeleteManifest` | crates/quill-registry/src/routes.rs:751-782 | the new state and the response of the state machine's delete, by tag or by digest |
| `Handlers.RegistryServer.ServeLocalManifest` | crates/quill-registry/src/routes.rs:404-422 | serves the stored bytes under their digest |
| `Handlers.RegistryServer.FetchAndServe` | crates/quill-registry/src/routes.rs:424-463 | one upstream call if routed; persists verified bytes only, dates the tag now |
| `Handlers.RegistryServer.RevalidateTag` | crates/quill-registry/src/routes.rs:360-387 | a stale tag: touch and serve, refetch, or serve the stale copy, as upstream answers |
| `Handlers.RegistryServer.GetManifest` | crates/quill-registry/src/routes.rs:312-402 | the new state, the response and the number of upstream calls of the state machine's pull |
| `RegistryRuns.GetFrame` | crates/quill-registry/src/routes.rs:312-463 | a pull leaves local tags and uploads alone and adds at most one verified manifest |
| `RegistryRuns.PutFrame` | crates/quill-registry/src/routes.rs:660-735 | a push changes at most its own blob and tag, and the tag only after the check has passed and the blob is stored |
| `RegistryRuns.PromotionIsVerified` | crates/quill-pullthrough/src/producer.rs:72-89 | whatever a fetch promotes, in whatever interleaving, has the digest asked for |
| `RegistryRuns.StepKeepsSound` | crates/quill-storage/src/local.rs:85-121 | every step keeps every blob's content matching its digest, and every upload hasher its file |
| `RegistryRuns.RunKeepsSound` | crates/quill-storage/src/uploads.rs:166-221 | content addressing over every run: buffered puts, finished uploads, promotions, deletes, collections, restarts |
| `RegistryRuns.StepKeepsHolds` | crates/quill-registry/src/routes.rs:312-325 | a step keeps a pushed tag, its sidecar entry and its blob if and only if it is none of: a push of the tag that gets past the check with another manifest, a delete of the tag or of that digest that takes effect, a removal of its files, a restart that does not scan its directory |
| `RegistryRuns.RunKeepsHolds` | crates/quill-storage/src/gc.rs:84-142 | so does any run of such steps, through collections and restarts |
| `RegistryRuns.NoCollisionsOneContent` | crates/quill-storage/src/local.rs:85-121 | when no two different contents stored in a run share a hash, each digest has one content throughout the run |
| `RegistryRuns.ReadYourWrites` | crates/quill-registry/src/routes.rs:660-735 | after a successful push of a tag and any run without such a step, rejected pushes of the tag included, a pull makes no upstream call and serves the pushed digest with exactly the pushed bytes, unless the run itself has stored other bytes under that digest; in any case bytes of that hash |
| `RegistryRuns.RestartKeepsTagIff` | crates/quill-server/src/main.rs:329-362 | a restart keeps a pushed tag if and only if its repository has no component that the startup scan passes over |
| `RegistryRuns.RemoveDirectoryKeepsTagIff` | crates/quill-server/src/main.rs:116-129 | `cache-rm` keeps a pushed tag if and only if the directory holds neither its blob nor its sidecar and startup scans its repository |
| `RegistryRuns.ForgottenAfterRestart` | crates/quill-server/src/main.rs:345 | otherwise a tag that was pushed successfully is unknown after a restart |
| `RegistryRuns.FirstPushSucceeds` | crates/quill-registry/src/routes.rs:660-735 | a first push of a manifest without requirements succeeds, in any repository |
| `RegistryAnswers.DigestPullIsLocal` | crates/quill-registry/src/routes.rs:328-332 | a manifest on disk is served from disk on a pull by digest, routed or not, with no upstream call |
| `RegistryAnswers.FreshPullIsLocal` | crates/quill-registry/src/routes.rs:353-356 | so is a proxied tag whose entry is younger than its time to live |
| `RegistryAnswers.StalePullIsConfirmed` | crates/quill-registry/src/routes.rs:360-387 | an older entry is checked with one call; confirmed, or with upstream out of reach, the stored bytes are served; a confirmation dates the entry anew |
| `RegistryAnswers.StalePullWithoutUpstream` | crates/quill-registry/src/routes.rs:389-393 | without an upstream an old entry is served as it is |
| `RegistryAnswers.DigestPullMisses` | crates/quill-registry/src/routes.rs:334-342 | what is not here is answered with exactly what upstream sends, one call, or is unknown; verified bytes are stored |
| `RegistryAnswers.TagPullMisses` | crates/quill-registry/src/routes.rs:394-401 | the same for a tag neither pushed nor cached; the tag is then cached under the digest sent, dated now |
| `RegistryAnswers.MovedTagIsFetched` | crates/quill-registry/src/routes.rs:372-375 | the same, with one call more, for a tag that upstream has moved |
| `RegistryAnswers.CachedTagWithoutBlobIsFetched` | crates/quill-registry/src/routes.rs:353-387 | the same for a cached tag whose manifest is not here |
| `RegistryAnswers.PushedTagWithoutBlob` | crates/quill-registry/src/routes.rs:318-325 | a pushed tag whose manifest is gone is unknown, or an error while the metadata cache still has it; upstream is not asked |
| `RegistryAnswers.PulledTagIsCached` | crates/quill-registry/src/routes.rs:424-463 | what was pulled by tag is answered from disk for as long as the entry is young, with the same bytes and no call, whatever upstream says by then |
| `RegistryAnswers.FreshForOneTtl` | crates/quill-registry/src/state.rs:69-84 | an entry is fresh for exactly one time to live after it was made |
| `RegistryAnswers.ConfirmedForOneTtl` | crates/quill-registry/src/state.rs:103-110 | and after it was confirmed; a confirmation makes no entry |
| `RegistryAnswers.BelievedForOneTtl` | crates/quill-storage/src/cache.rs:32-40 | a file that vanishes is believed to be there for exactly one time to live after it was cached |
| `RegistryAnswers.PutAnswers` | crates/quill-registry/src/routes.rs:660-735 | every answer to a push, by the size, the reference, what the manifest names as config and layers, and the file operations; a rejected push stores nothing |
| `RegistryAnswers.PushedTagIsRecorded` | crates/quill-registry/src/routes.rs:713-719 | after a successful push the tag names the body's digest in memory and in the sidecar; in memory no other tag changes |
| `RegistryAnswers.PushWithoutSidecar` | crates/quill-storage/src/local_tags.rs:84-110 | when the sidecar cannot be written the push is answered with an error, but the tag is in memory, and the sidecar is as before |
| `RegistryAnswers.CompleteExact` | crates/quill-registry/src/routes.rs:789-817 | a complete image in the manifest's own members: config and every layer parse and are on disk |
| `RegistryAnswers.BlobAnswers` | crates/quill-registry/src/routes.rs:138-158 | every answer to a blob pull: what is on disk with exactly its stored content, what is not from upstream if routed |
| `RegistryAnswers.BlobDeleteAnswers` | crates/quill-registry/src/routes.rs:737-749 | every answer to a blob delete, and what is removed |
| `RegistryAnswers.ManifestDeleteAnswers` | crates/quill-registry/src/routes.rs:751-782 | every answer to a manifest delete; by digest, exactly the tags that name it leave memory |
| `RegistryLasting.BlobStaysIff` | crates/quill-storage/src/gc.rs:84-143 | a stored blob lives through a step if and only if it is not removed explicitly, nor collected without a path of links to it from a tag or an extra root |
| `RegistryLasting.StoredBlobIsServed` | crates/quill-registry/src/routes.rs:138-158 | through any run that does not take it, a pull of a stored blob gives the stored bytes if the run stores one content under the digest, and in any case bytes of that hash |
| `RegistryLasting.UploadedBlobIsServed` | crates/quill-storage/src/uploads.rs:166-221 | so for what an upload was finished with: the bytes of its session |
| `RegistryLasting.PromotedBlobIsServed` | crates/quill-pullthrough/src/producer.rs:82-91 | and for what a fetch has promoted |
| `RegistryLasting.DeletedTagIsGone` | crates/quill-registry/src/routes.rs:755-761 | after a tag delete answered with success the tag is in neither memory nor sidecar |
| `RegistryLasting.DigestDeleteTakesTags` | crates/quill-registry/src/routes.rs:764-774 | after a digest delete whose sidecar writes go through, so is every tag that named the digest |
| `RegistryLasting.TakenAlongIff` | crates/quill-registry/src/routes.rs:772-774 | exactly when a tag taken along leaves the sidecar: its own write or a later one went through |
| `RegistryLasting.IgnoredFailureRevivesTag` | crates/quill-registry/src/routes.rs:772-774 | when all writes fail the delete is answered with success all the same, and a restart brings the tag back |
| `RegistryLasting.StepKeepsGoneIff` | crates/quill-storage/src/local_tags.rs:84-132 | a deleted tag comes back by a step if and only if it is a push that records it |
| `RegistryLasting.DeletedTagStaysGone` | crates/quill-storage/src/local_tags.rs:84-132 | so it stays gone through any run without one, restarts and collections included |
| `RegistryLasting.RestartForgets` | crates/quill-server/src/main.rs:146-185 | a restart forgets uploads, metadata entries and pending cache updates, and keeps blobs, sidecars and time |
| `RegistryLasting.InsertedIsWritten` | crates/quill-registry/src/state.rs:95-143 | a tag resolved upstream is written to the file of its repository |
| `RegistryLasting.CachedTagAfterRestart` | crates/quill-registry/src/state.rs:42-67 | such a tag is fresh again after a restart if and only if startup finds its repository |
| `RegistryLasting.RemoveDirectoryExact` | crates/quill-server/src/main.rs:116-129 | `cache-rm` takes exactly the blobs below the directory |
| `RegistryIntegrity.StepKeepsBacked` | crates/quill-registry/src/routes.rs:242-258 | for each blob on its own and for every hash, every step but a cache update after its removal keeps: the cache claims no blob that is gone, unless it was removed from outside after the entry was made |
| `RegistryIntegrity.StepKeepsSized` | crates/quill-storage/src/cache.rs:32-49 | every step keeps the size in the cache, and in cache updates still to come, equal to the one on disk, as long as what is stored under the digest has one size |
| `RegistryIntegrity.RunKeepsBacked` | crates/quill-storage/src/cache.rs:32-49 | so does every run without such a race on that blob |
| `RegistryIntegrity.CachedExistenceAgrees` | crates/quill-storage/src/local.rs:53-76 | after every such run, for every hash, a cached lookup finds a blob exactly when an uncached `stat` does, unless the file was removed from outside less than one TTL ago |
| `RegistryIntegrity.CachedLookupAgrees` | crates/quill-storage/src/local.rs:53-76 | and it finds the same size, if all contents that the run stores under this digest have one size |
| `RegistryIntegrity.PopulateAgreesIff` | crates/quill-registry/src/routes.rs:248-258 | after the cache update of a pull-through task a cached lookup agrees with the disk if and only if the blob is there with the size that was promoted |
| `RegistryIntegrity.RaceLeavesStaleEntry` | crates/quill-registry/src/routes.rs:249-258 | in any state with a cache update to come, a delete before it leaves a cache entry for a blob that is gone |
| `RegistryExamples.OrdinaryRun` | crates/quill-registry/src/routes.rs:660-735 | a layer pulled through and a push that requires it: for every hash that tells them apart this run stores no collision, has no race, hurts no tag, and leaves the tag with a complete image |
| `RegistryExamples.RaceIsReachable` | crates/quill-registry/src/routes.rs:242-258 | such a run exists from a fresh registry, for every blob and repository, with a real run of its fetch |
| `RegistryExamples.IncompletePushAccepted` | crates/quill-registry/src/routes.rs:789-817 | after it, every push of a manifest that requires just that blob is answered with success and leaves the tag incomplete |
| `RegistryCompleteness.CheckPassesIff` | crates/quill-registry/src/routes.rs:789-817 | the check passes if and only if every reference parses and is on disk or in a fresh cache entry, in whatever order and however often they come |
| `RegistryCompleteness.PushCompleteIff` | crates/quill-registry/src/routes.rs:697-719 | a push answered with success names a complete image if and only if no blob it requires is missing from the disk while its cache entry is fresh |
| `RegistryCompleteness.CollectKeepsComplete` | crates/quill-storage/src/gc.rs:173-195 | collection keeps every blob that the image of a tag needs |
| `RegistryCompleteness.DeleteBlobKeepsCompleteIff` | crates/quill-storage/src/local.rs:131-149 | a delete of a blob that goes through keeps a tag's image complete if and only if the image does not need the blob |
| `RegistryCompleteness.StepKeepsComplete` | crates/quill-registry/src/routes.rs:697-719 | tag by tag, exactly: a step that does not replace the tag's manifest by other bytes of the same digest keeps the image complete if and only if it neither removes a blob that the tag, as far as it is still there, needs, nor is an accepted push of the tag with a required blob missing from the disk while its cache entry is fresh |
| `RegistryCompleteness.RunKeepsTagComplete` | crates/quill-registry/src/routes.rs:697-719 | so a tag for which a run takes no such step, and whose manifests the run does not replace by other bytes of the same digest, names a complete image at its end, in memory and in its sidecar, however much else is deleted and whatever races there are |
| `RegistryCompleteness.OneContentStays` | crates/quill-storage/src/local.rs:85-121 | a run that stores one content per digest of the repository replaces no manifest |
| `RegistryCompleteness.RaceFreeIsUnhurt` | crates/quill-registry/src/routes.rs:249-258 | where no cache update in the repository comes after a delete, and no push of the tag requires a blob removed from outside, removals of needed blobs are the only such steps |
| `RegistryCompleteness.RunKeepsComplete` | crates/quill-registry/src/routes.rs:697-719 | in a repository from which nothing is removed explicitly, every tag names a complete image after every run that stores one content per digest there, whatever is deleted in other repositories |
| `RegistryStaleness.StepKeepsFounded` | crates/quill-registry/src/state.rs:69-110 | every cached tag's digest was upstream's answer at the entry's date, or was reloaded then; kept by insert, touch and all other steps |
| `RegistryStaleness.RunKeepsFounded` | crates/quill-registry/src/state.rs:69-110 | so after every run |
| `RegistryStaleness.BoundedStaleness` | crates/quill-registry/src/routes.rs:346-401 | after every run, a pull of a tag not pushed here serves a digest that upstream named for it less than one TTL ago, unless the HEAD of this request failed or the entry was reloaded at startup |
| `CollectionRefinement.SameMarks` | crates/quill-storage/src/gc.rs:84-99 | the collector marks what the state machine keeps |
| `CollectionRefinement.CollectionAgrees` | crates/quill-storage/src/gc.rs:68-144 | collecting on directories and collecting in the state agree, for every disk, extra roots and delete errors |

## Left out

- TLS, certificates, the HTTP upstream client and its tokens, authentication, configuration, the command line: plumbing over libraries outside the repository.
- Response headers, error envelopes, content types, the If-None-Match downgrade, tag lists and the catalog: each is settled by reading one branch.
- Which of its errors `Digest::parse` returns: only that it fails.
- The push date of a tag, and the metadata file of an upload session with the sweep by age.
- Session ids and tempfile names: taken as fresh.
- I/O errors while creating an upload session, while creating repository directories before a push, and from `stat` itself: each ends the request before anything of the model changes.
- I/O errors while listing directories during marking or sweeping, the `roots` counter, and the text of error messages in the report of a collection.
- Concurrent writes of the upstream tag file: the source takes no lock there, so it is modelled sequentially.
- Requests that overlap each other: they are atomic steps, except for pull-through tasks, local tag updates and uploads as described above.
- That the repository of a subscriber holds the blob after a pull: the table is keyed by digest only, and the blob goes to the producer's repository.
- That a manifest served straight from upstream has its digest: a failed persist is only logged and the bytes are served; integrity is stated for what is stored and for what is served from there.
- That every consumer completes: one that is still behind when the tempfile is renamed gets an I/O error, so the claim is that a clean end is a complete one.
- The size limit on upload bodies.
- A task that panics.
- PullThroughTasks.PullThroughBody.PollFrame: with a chunk capacity of zero it is called only when there never is anything to read, because otherwise the source loops (`PollReturnsIff`).
- A sidecar that does not parse at startup: it is skipped with a log line, so its tags are as if there were no sidecar.
