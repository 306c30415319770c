/** One pull-through fetch as a transition system: a producer that appends the
    upstream bytes to a tempfile, and any number of consumers that tail it
    (crates/quill-pullthrough/src/producer.rs, body.rs, entry.rs).

    Each atomic load, store, notification and file operation is a step of its own,
    so every interleaving of the tasks is a run. The file's visible length may lag
    behind what was written until the flush, a read may return fewer bytes than
    asked for, a write that fails may leave part of a chunk in the file, and the
    tempfile is not recreated while somebody still reads it. */
module PullThrough {

  import opened Base
  import opened Digests
  import BlobStore

  type Hash = BlobStore.Hash

  datatype Failure = Upstream | DigestMismatch | Io

  datatype Outcome = Success(finalSize: nat) | Failed(error: Failure)

  /** Where the producer task is. */
  datatype Pc =
    | Connecting                  // waiting for the upstream response
    | Creating                    // about to create the tempfile
    | Streaming                   // waiting for the next chunk
    | Wrote(chunk: Bytes)         // chunk written and hashed, mark not raised yet
    | Stored                      // mark raised, waiters not notified yet
    | Flushing                    // stream ended
    | Verifying                   // flushed and synced
    | Renaming                    // digest verified
    | Cleaning(error: Failure)    // about to remove the tempfile
    | Finishing(outcome: Outcome) // `finish` called
    | Sending(outcome: Outcome)   // done flag set, outcome not sent yet
    | Waking                      // outcome sent, waiters not notified yet
    | Exited

  /** The shared entry, the files and the producer. */
  datatype Shared = Shared(
    pc: Pc,
    received: Bytes,            // all bytes hashed so far
    file: Bytes,                // all bytes handed to the file
    visible: nat,               // how many of them a reader can see
    linked: bool,               // the tempfile path exists
    written: nat,               // the high-water mark
    done: bool,
    outcome: Option<Outcome>,
    sends: nat,                 // version of the watch channel
    promoted: Option<Bytes>)    // what was renamed into the blob store

  datatype ProducerEvent =
    | ConnectFails
    | Connects
    | CreateFails
    | Creates
    | Chunk(bytes: Bytes)
    | StreamFails
    | WriteFails(partial: Bytes)
    | RaiseMark
    | NotifyProgress
    | StreamEnds
    | Settle(upTo: nat)         // the system makes more of the file visible
    | Flushes
    | FlushFails
    | Verify
    | Renames
    | RenameFails
    | Cleans(removed: bool)
    | SetDone
    | Send
    | NotifyFinal

  predicate ProducerEnabled(sh: Shared, e: ProducerEvent) {
    match e
    case ConnectFails => sh.pc.Connecting?
    case Connects => sh.pc.Connecting?
    case CreateFails => sh.pc.Creating?
    case Creates => sh.pc.Creating?
    case Chunk(_) => sh.pc.Streaming?
    case StreamFails => sh.pc.Streaming?
    case WriteFails(_) => sh.pc.Streaming?
    case RaiseMark => sh.pc.Wrote?
    case NotifyProgress => sh.pc.Stored?
    case StreamEnds => sh.pc.Streaming?
    case Settle(n) => sh.visible <= n <= |sh.file|
    case Flushes => sh.pc.Flushing?
    case FlushFails => sh.pc.Flushing?
    case Verify => sh.pc.Verifying?
    case Renames => sh.pc.Renaming?
    case RenameFails => sh.pc.Renaming?
    case Cleans(_) => sh.pc.Cleaning?
    case SetDone => sh.pc.Finishing?
    case Send => sh.pc.Sending?
    case NotifyFinal => sh.pc.Waking?
  }

  function ProducerNext(hash: Hash, digest: Digest, sh: Shared, e: ProducerEvent): Shared
    requires ProducerEnabled(sh, e)
  {
    match e
    case ConnectFails => sh.(pc := Finishing(Failed(Upstream)))
    case Connects => sh.(pc := Creating)
    case CreateFails => sh.(pc := Finishing(Failed(Io)))
    case Creates => sh.(pc := Streaming, linked := true)
    case Chunk(bytes) =>
      sh.(pc := Wrote(bytes), received := sh.received + bytes, file := sh.file + bytes)
    case StreamFails => sh.(pc := Cleaning(Upstream))
    case WriteFails(partial) => sh.(pc := Cleaning(Io), file := sh.file + partial)
    case RaiseMark => sh.(pc := Stored, written := |sh.received|)
    case NotifyProgress => sh.(pc := Streaming)
    case StreamEnds => sh.(pc := Flushing)
    case Settle(n) => sh.(visible := n)
    case Flushes => sh.(pc := Verifying, visible := |sh.file|)
    case FlushFails => sh.(pc := Cleaning(Io))
    case Verify => sh.(pc := if hash(sh.received) == digest then Renaming else Cleaning(DigestMismatch))
    case Renames =>
      sh.(pc := Finishing(Success(|sh.received|)), linked := false, promoted := Some(sh.file))
    case RenameFails => sh.(pc := Cleaning(Io))
    case Cleans(removed) => sh.(pc := Finishing(Failed(sh.pc.error)), linked := sh.linked && !removed)
    case SetDone => sh.(pc := Sending(sh.pc.outcome), done := true)
    case Send => sh.(pc := Waking, outcome := Some(sh.pc.outcome), sends := sh.sends + 1)
    case NotifyFinal => sh.(pc := Exited)
  }

  /** The consumer's state, split where `poll_frame` is not atomic. `late` is
      history: the waiter registered after the last notification. */
  datatype BodyState =
    | Idle
    | Loaded(high: nat)           // caught up with the mark it loaded
    | Checked                     // and saw no outcome; not registered yet
    | Reading(high: nat)          // read future made
    | Opened(high: nat)           // file opened
    | Waiting(notified: bool, late: bool)
    | Stalled                     // returned Pending with nobody to wake it
    | Done
    | Errored(error: Failure)

  /** `offset` is the number of bytes delivered. */
  datatype Body = Body(state: BodyState, delivered: Bytes)

  datatype BodyEvent =
    | Load
    | Check
    | Register
    | Wake
    | Repoll                      // a spurious poll of a stalled body
    | Open
    | Read(n: nat)
    | ReadFails

  function Want(cap: nat, b: Body): nat
    requires b.state.Reading? || b.state.Opened?
  {
    if |b.delivered| < b.state.high then Min(b.state.high - |b.delivered|, cap) else 0
  }

  predicate BodyEnabled(cap: nat, sh: Shared, b: Body, e: BodyEvent) {
    match e
    case Load => b.state.Idle?
    case Check => b.state.Loaded?
    case Register => b.state.Checked?
    case Wake => b.state.Waiting? && b.state.notified
    case Repoll => b.state.Stalled?
    case Open => b.state.Reading?
    case Read(n) => b.state.Opened? && n <= Want(cap, b) && (n > 0 ==> |b.delivered| + n <= sh.visible <= |sh.file|)
    case ReadFails => (b.state.Reading? || b.state.Opened?) && Want(cap, b) > 0   // an empty read does no I/O
  }

  /** A consumer's step; it reads the shared state and changes only itself. */
  function BodyNext(cap: nat, sh: Shared, b: Body, e: BodyEvent): Body
    requires BodyEnabled(cap, sh, b, e)
  {
    match e
    case Load => b.(state := if |b.delivered| < sh.written then Reading(sh.written) else Loaded(sh.written))
    case Check =>
      (match sh.outcome
       case None => b.(state := Checked)
       case Some(Success(finalSize)) => b.(state := if |b.delivered| >= finalSize then Done else Stalled)
       case Some(Failed(error)) => b.(state := Errored(error)))
    case Register => b.(state := Waiting(false, sh.pc.Exited?))
    case Wake => b.(state := Idle)
    case Repoll => b.(state := Idle)
    case Open =>
      if Want(cap, b) == 0 then b.(state := Idle)
      else if sh.linked then b.(state := Opened(b.state.high))
      else b.(state := Errored(Io))
    case Read(n) =>
      Body(Idle, b.delivered + if n == 0 then [] else sh.file[|b.delivered|..|b.delivered| + n])
    case ReadFails => b.(state := Errored(Io))
  }

  /** A HEAD request that waits for the outcome (routes.rs:270-292). */
  datatype Head = Arrived | Blocked | Woken | Replied(outcome: Option<Outcome>)

  datatype HeadEvent = Peek | Changed | Reply

  predicate HeadEnabled(sh: Shared, h: Head, e: HeadEvent) {
    match e
    case Peek => h.Arrived?
    case Changed => h.Blocked? && sh.sends != 0   // the receiver has seen version 0
    case Reply => h.Woken?
  }

  function HeadNext(sh: Shared, h: Head, e: HeadEvent): Head
    requires HeadEnabled(sh, h, e)
  {
    match e
    case Peek => if sh.outcome.None? then Blocked else Woken
    case Changed => Woken
    case Reply => Replied(sh.outcome)
  }

  /** A fetch with everybody attached to it. */
  datatype Fetch = Fetch(digest: Digest, sh: Shared, bodies: seq<Body>, heads: seq<Head>)

  datatype Event =
    | Producer(producer: ProducerEvent)
    | Consumer(body: nat, event: BodyEvent)
    | Waiter(head: nat, headEvent: HeadEvent)
    | AttachBody
    | AttachHead

  datatype Setup = Setup(hash: Hash, cap: nat)

  predicate Enabled(cfg: Setup, f: Fetch, e: Event) {
    match e
    case Producer(p) => ProducerEnabled(f.sh, p)
    case Consumer(i, c) => i < |f.bodies| && BodyEnabled(cfg.cap, f.sh, f.bodies[i], c)
    case Waiter(j, h) => j < |f.heads| && HeadEnabled(f.sh, f.heads[j], h)
    case AttachBody => true
    case AttachHead => true
  }

  function Notified(b: Body): Body {
    if b.state.Waiting? then b.(state := b.state.(notified := true)) else b
  }

  /** `notify_waiters` wakes everyone who has registered, and nobody else. */
  function NotifyAll(bodies: seq<Body>): seq<Body> {
    seq(|bodies|, i requires 0 <= i < |bodies| => Notified(bodies[i]))
  }

  function Next(cfg: Setup, f: Fetch, e: Event): Fetch
    requires Enabled(cfg, f, e)
  {
    match e
    case Producer(p) =>
      f.(sh := ProducerNext(cfg.hash, f.digest, f.sh, p),
         bodies := if p.NotifyProgress? || p.NotifyFinal? then NotifyAll(f.bodies) else f.bodies)
    case Consumer(i, c) => f.(bodies := f.bodies[i := BodyNext(cfg.cap, f.sh, f.bodies[i], c)])
    case Waiter(j, h) => f.(heads := f.heads[j := HeadNext(f.sh, f.heads[j], h)])
    case AttachBody => f.(bodies := f.bodies + [Body(Idle, [])])
    case AttachHead => f.(heads := f.heads + [Arrived])
  }

  function Start(digest: Digest): Fetch {
    Fetch(digest, Shared(Connecting, [], [], 0, false, 0, false, None, 0, None), [], [])
  }

  function Run(cfg: Setup, f: Fetch, events: seq<Event>): Option<Fetch>
    decreases |events|
  {
    if events == [] then Some(f)
    else if !Enabled(cfg, f, events[0]) then None
    else Run(cfg, Next(cfg, f, events[0]), events[1..])
  }

  // ----- invariant -----

  predicate Prefix(a: Bytes, b: Bytes) {
    |a| <= |b| && b[..|a|] == a
  }

  /** The producer's promise about an outcome it is about to send or has sent. */
  ghost predicate OutcomeOk(hash: Hash, digest: Digest, sh: Shared, o: Outcome) {
    o.Success? ==>
      && o.finalSize == |sh.received| == sh.written
      && hash(sh.received) == digest
      && sh.promoted == Some(sh.received)
  }

  /** Nothing has gone wrong and nothing has been renamed yet. */
  predicate Receiving(pc: Pc) {
    !pc.Cleaning? && !pc.Finishing? && !pc.Sending? && !pc.Waking? && !pc.Exited?
  }

  ghost predicate SharedInv(hash: Hash, digest: Digest, sh: Shared) {
    && Prefix(sh.received, sh.file) && sh.visible <= |sh.file|
    && sh.written <= |sh.received|
    && (!sh.pc.Wrote? ==> sh.written == |sh.received|)
    && (Receiving(sh.pc) ==> sh.file == sh.received && sh.promoted.None?)
    && (sh.pc.Cleaning? ==> sh.promoted.None?)
    && (sh.pc.Renaming? ==> hash(sh.received) == digest)
    && (sh.promoted.Some? ==> sh.promoted.value == sh.received && hash(sh.received) == digest)
    && (sh.pc.Verifying? || sh.pc.Renaming? || sh.promoted.Some? ==> sh.visible == |sh.file|)
    && (sh.pc.Connecting? || sh.pc.Creating? || sh.promoted.Some? ==> !sh.linked)
    && (sh.pc.Finishing? || sh.pc.Sending? ==> OutcomeOk(hash, digest, sh, sh.pc.outcome))
    && (sh.outcome.Some? <==> sh.pc.Waking? || sh.pc.Exited?)
    && (sh.outcome.Some? ==> OutcomeOk(hash, digest, sh, sh.outcome.value))
    && (sh.done <==> sh.pc.Sending? || sh.pc.Waking? || sh.pc.Exited?)
    && sh.sends == (if sh.outcome.Some? then 1 else 0)
  }

  ghost predicate BodyInv(sh: Shared, b: Body) {
    && Prefix(b.delivered, sh.received) && |b.delivered| <= sh.written
    && (b.state.Loaded? ==> b.state.high == |b.delivered|)
    && (b.state.Reading? || b.state.Opened? ==> |b.delivered| < b.state.high <= sh.written)
    && (b.state.Done? ==> b.delivered == sh.received && sh.outcome == Some(Success(|sh.received|)))
    && (b.state.Waiting? && !b.state.notified ==> (b.state.late <==> sh.pc.Exited?))
    && (b.state.Errored? ==> b.state.error == Io || sh.outcome == Some(Failed(b.state.error)))
    && (b.state.Stalled? ==> sh.outcome.Some? && sh.outcome.value.Success?)
  }

  ghost predicate HeadInv(sh: Shared, h: Head) {
    && (h.Woken? ==> sh.outcome.Some?)
    && (h.Replied? ==> h.outcome.Some? && h.outcome == sh.outcome)
  }

  ghost predicate Inv(cfg: Setup, f: Fetch) {
    && SharedInv(cfg.hash, f.digest, f.sh)
    && (forall i :: 0 <= i < |f.bodies| ==> BodyInv(f.sh, f.bodies[i]))
    && (forall j :: 0 <= j < |f.heads| ==> HeadInv(f.sh, f.heads[j]))
  }

  lemma ProducerKeepsShared(hash: Hash, digest: Digest, sh: Shared, e: ProducerEvent)
    requires SharedInv(hash, digest, sh) && ProducerEnabled(sh, e)
    ensures SharedInv(hash, digest, ProducerNext(hash, digest, sh, e))
  {
    if e.Chunk? {
      assert (sh.received + e.bytes)[..|sh.received + e.bytes|] == sh.received + e.bytes;
    }
    if e.WriteFails? {
      assert (sh.file + e.partial)[..|sh.received|] == sh.received;
    }
  }

  /** The producer only ever adds, and an outcome once sent never changes. */
  lemma ProducerOnlyAdds(hash: Hash, digest: Digest, sh: Shared, e: ProducerEvent)
    requires SharedInv(hash, digest, sh) && ProducerEnabled(sh, e)
    ensures var t := ProducerNext(hash, digest, sh, e);
            && Prefix(sh.received, t.received) && sh.written <= t.written
            && (sh.outcome.Some? ==> t.outcome == sh.outcome && t.received == sh.received)
            && (sh.pc.Exited? ==> t.pc.Exited?)
  {
  }

  lemma ProducerKeepsBody(hash: Hash, digest: Digest, sh: Shared, e: ProducerEvent, b: Body)
    requires SharedInv(hash, digest, sh) && ProducerEnabled(sh, e) && BodyInv(sh, b)
    ensures var t := ProducerNext(hash, digest, sh, e);
            BodyInv(t, if e.NotifyProgress? || e.NotifyFinal? then Notified(b) else b)
  {
    ProducerOnlyAdds(hash, digest, sh, e);
    var t := ProducerNext(hash, digest, sh, e);
    assert t.received[..|b.delivered|] == t.received[..|sh.received|][..|b.delivered|];
  }

  lemma BodyKeepsInv(cfg: Setup, digest: Digest, sh: Shared, b: Body, e: BodyEvent)
    requires SharedInv(cfg.hash, digest, sh) && BodyInv(sh, b) && BodyEnabled(cfg.cap, sh, b, e)
    ensures BodyInv(sh, BodyNext(cfg.cap, sh, b, e))
  {
    if e.Read? && e.n > 0 {
      var upTo := |b.delivered| + e.n;
      assert sh.file[..|sh.received|] == sh.received;
      assert sh.received[..upTo] == sh.received[..|b.delivered|] + sh.file[|b.delivered|..upTo];
    }
    if e.Check? && sh.outcome.Some? && sh.outcome.value.Success? && |b.delivered| >= sh.outcome.value.finalSize {
      assert sh.received[..|sh.received|] == sh.received;
    }
  }

  lemma StepKeepsInv(cfg: Setup, f: Fetch, e: Event)
    requires Inv(cfg, f) && Enabled(cfg, f, e)
    ensures Inv(cfg, Next(cfg, f, e))
  {
    var g := Next(cfg, f, e);
    match e
    case Producer(p) =>
      ProducerKeepsShared(cfg.hash, f.digest, f.sh, p);
      ProducerOnlyAdds(cfg.hash, f.digest, f.sh, p);
      forall i | 0 <= i < |g.bodies| ensures BodyInv(g.sh, g.bodies[i]) {
        ProducerKeepsBody(cfg.hash, f.digest, f.sh, p, f.bodies[i]);
      }
    case Consumer(i, c) => BodyKeepsInv(cfg, f.digest, f.sh, f.bodies[i], c);
    case _ =>
  }

  lemma {:induction false} RunKeepsInv(cfg: Setup, f: Fetch, events: seq<Event>)
    requires Inv(cfg, f) && Run(cfg, f, events).Some?
    ensures Inv(cfg, Run(cfg, f, events).value) && Run(cfg, f, events).value.digest == f.digest
    decreases |events|
  {
    if events != [] {
      StepKeepsInv(cfg, f, events[0]);
      RunKeepsInv(cfg, Next(cfg, f, events[0]), events[1..]);
    }
  }

  /** Integrity in every interleaving: what a consumer has delivered is a prefix
      of what upstream sent, no further than the high-water mark; a consumer that
      ends cleanly has delivered the whole blob, which has the requested digest
      and was promoted. */
  lemma Integrity(cfg: Setup, digest: Digest, events: seq<Event>, i: nat)
    requires Run(cfg, Start(digest), events).Some? && i < |Run(cfg, Start(digest), events).value.bodies|
    ensures var f := Run(cfg, Start(digest), events).value;
            var b := f.bodies[i];
            && Prefix(b.delivered, f.sh.received) && |b.delivered| <= f.sh.written
            && (b.state.Done? ==>
                  && b.delivered == f.sh.received && cfg.hash(b.delivered) == digest
                  && f.sh.promoted == Some(b.delivered)
                  && f.sh.outcome == Some(Success(|b.delivered|)))
  {
    RunKeepsInv(cfg, Start(digest), events);
    assert BodyInv(Run(cfg, Start(digest), events).value.sh, Run(cfg, Start(digest), events).value.bodies[i]);
  }

  lemma {:induction false} OutcomeIsFinal(cfg: Setup, f: Fetch, events: seq<Event>)
    requires Inv(cfg, f) && f.sh.outcome.Some? && Run(cfg, f, events).Some?
    ensures Run(cfg, f, events).value.sh.outcome == f.sh.outcome
    decreases |events|
  {
    if events != [] {
      StepKeepsInv(cfg, f, events[0]);
      if events[0].Producer? {
        ProducerOnlyAdds(cfg.hash, f.digest, f.sh, events[0].producer);
      }
      OutcomeIsFinal(cfg, Next(cfg, f, events[0]), events[1..]);
    }
  }

  /** Once a fetch has failed, no consumer of it ever ends cleanly. */
  lemma FailureIsNeverDone(cfg: Setup, digest: Digest, events: seq<Event>, more: seq<Event>, i: nat)
    requires Run(cfg, Start(digest), events).Some?
    requires var f := Run(cfg, Start(digest), events).value; f.sh.outcome.Some? && f.sh.outcome.value.Failed?
    requires Run(cfg, Run(cfg, Start(digest), events).value, more).Some?
    requires i < |Run(cfg, Run(cfg, Start(digest), events).value, more).value.bodies|
    ensures !Run(cfg, Run(cfg, Start(digest), events).value, more).value.bodies[i].state.Done?
  {
    var f := Run(cfg, Start(digest), events).value;
    RunKeepsInv(cfg, Start(digest), events);
    OutcomeIsFinal(cfg, f, more);
    RunKeepsInv(cfg, f, more);
    assert BodyInv(Run(cfg, f, more).value.sh, Run(cfg, f, more).value.bodies[i]);
  }

  /** A consumer that ends with an error has met an I/O error of its own, or passes on
      exactly the failure that the producer has sent. */
  lemma ErrorsAreReal(cfg: Setup, digest: Digest, events: seq<Event>, i: nat)
    requires Run(cfg, Start(digest), events).Some? && i < |Run(cfg, Start(digest), events).value.bodies|
    ensures var f := Run(cfg, Start(digest), events).value;
            f.bodies[i].state.Errored? ==>
              f.bodies[i].state.error == Io || f.sh.outcome == Some(Failed(f.bodies[i].state.error))
  {
    RunKeepsInv(cfg, Start(digest), events);
    assert BodyInv(Run(cfg, Start(digest), events).value.sh, Run(cfg, Start(digest), events).value.bodies[i]);
  }

  /** A consumer that still has to open the file when it has been renamed fails: the
      tempfile is gone in every state after the promotion. */
  lemma LateReaderFails(cfg: Setup, digest: Digest, events: seq<Event>, i: nat)
    requires Run(cfg, Start(digest), events).Some? && i < |Run(cfg, Start(digest), events).value.bodies|
    requires var f := Run(cfg, Start(digest), events).value;
             f.sh.promoted.Some? && f.bodies[i].state.Reading? && cfg.cap >= 1
    ensures var f := Run(cfg, Start(digest), events).value;
            BodyNext(cfg.cap, f.sh, f.bodies[i], Open).state == Errored(Io)
  {
    RunKeepsInv(cfg, Start(digest), events);
    assert BodyInv(Run(cfg, Start(digest), events).value.sh, Run(cfg, Start(digest), events).value.bodies[i]);
  }

  /** A HEAD waiter never misses the outcome: whenever one has been sent, the
      waiter can go on, even if it was sent between its check and its wait, and
      what it replies is that outcome, never "none". */
  lemma HeadNeverMisses(cfg: Setup, digest: Digest, events: seq<Event>, j: nat)
    requires Run(cfg, Start(digest), events).Some? && j < |Run(cfg, Start(digest), events).value.heads|
    ensures var f := Run(cfg, Start(digest), events).value;
            && (f.sh.outcome.Some? && f.heads[j].Blocked? ==> HeadEnabled(f.sh, f.heads[j], Changed))
            && (f.heads[j].Woken? ==> f.sh.outcome.Some?)
            && (f.heads[j].Replied? ==> f.heads[j].outcome.Some? && f.heads[j].outcome == f.sh.outcome)
  {
    RunKeepsInv(cfg, Start(digest), events);
    assert HeadInv(Run(cfg, Start(digest), events).value.sh, Run(cfg, Start(digest), events).value.heads[j]);
  }

}
