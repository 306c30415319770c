/** Waking up and making progress.

    `poll_frame` loads the mark, checks the outcome and registers for a
    notification in three separate steps. When the producer runs between them, a
    consumer can be left asleep for good; when each poll is one step, that cannot
    happen and every consumer comes to an end. */
module PullThroughPolls {

  import opened Base
  import opened Digests
  import opened PullThrough

  // ----- a poll as a sequence of consumer steps -----

  /** Does `poll_frame` return after this step, which led to `b`? */
  predicate Returns(e: BodyEvent, b: Body) {
    match e
    case Check => !b.state.Checked?
    case Register => true
    case Open => b.state.Errored?
    case Read(n) => n > 0
    case ReadFails => true
    case _ => false
  }

  predicate Terminal(b: Body) {
    b.state.Done? || b.state.Errored?
  }

  /** States in which a poll can return without doing anything more: the stream
      has ended, a read is in flight, or no notification has come. An empty read is
      never in flight: it is over before it waits for anything. */
  predicate Paused(cap: nat, b: Body) {
    || Terminal(b)
    || ((b.state.Reading? || b.state.Opened?) && Want(cap, b) > 0)
    || (b.state.Waiting? && !b.state.notified)
  }

  /** `es` are the steps of one complete call of `poll_frame`. */
  predicate IsPoll(cap: nat, sh: Shared, b: Body, es: seq<BodyEvent>)
    decreases |es|
  {
    if es == [] then Paused(cap, b)
    else
      BodyEnabled(cap, sh, b, es[0]) &&
      var c := BodyNext(cap, sh, b, es[0]);
      if Returns(es[0], c) then |es| == 1 else IsPoll(cap, sh, c, es[1..])
  }

  function AfterPoll(cap: nat, sh: Shared, b: Body, es: seq<BodyEvent>): Body
    requires IsPoll(cap, sh, b, es)
    decreases |es|
  {
    if es == [] then b
    else
      var c := BodyNext(cap, sh, b, es[0]);
      if Returns(es[0], c) then c else AfterPoll(cap, sh, c, es[1..])
  }

  /** Runs in which each poll is one step. */
  datatype Item = Other(event: Event) | Poll(body: nat, steps: seq<BodyEvent>)

  predicate ItemEnabled(cfg: Setup, f: Fetch, it: Item) {
    match it
    case Other(e) => !e.Consumer? && Enabled(cfg, f, e)
    case Poll(i, es) => i < |f.bodies| && IsPoll(cfg.cap, f.sh, f.bodies[i], es)
  }

  function ItemNext(cfg: Setup, f: Fetch, it: Item): Fetch
    requires ItemEnabled(cfg, f, it)
  {
    match it
    case Other(e) => Next(cfg, f, e)
    case Poll(i, es) => f.(bodies := f.bodies[i := AfterPoll(cfg.cap, f.sh, f.bodies[i], es)])
  }

  function PollRun(cfg: Setup, f: Fetch, items: seq<Item>): Option<Fetch>
    decreases |items|
  {
    if items == [] then Some(f)
    else if !ItemEnabled(cfg, f, items[0]) then None
    else PollRun(cfg, ItemNext(cfg, f, items[0]), items[1..])
  }

  function Consuming(i: nat, es: seq<BodyEvent>): seq<Event> {
    seq(|es|, j requires 0 <= j < |es| => Consumer(i, es[j]))
  }

  function Flatten(items: seq<Item>): seq<Event> {
    if items == [] then []
    else (match items[0]
          case Other(e) => [e]
          case Poll(i, es) => Consuming(i, es)) + Flatten(items[1..])
  }

  lemma {:induction false} RunAppend(cfg: Setup, f: Fetch, a: seq<Event>, b: seq<Event>)
    requires Run(cfg, f, a).Some?
    ensures Run(cfg, f, a + b) == Run(cfg, Run(cfg, f, a).value, b)
    decreases |a|
  {
    if a == [] {
      assert a + b == b;
    } else {
      assert (a + b)[1..] == a[1..] + b;
      RunAppend(cfg, Next(cfg, f, a[0]), a[1..], b);
    }
  }

  lemma {:induction false} PollIsRun(cfg: Setup, f: Fetch, i: nat, es: seq<BodyEvent>)
    requires i < |f.bodies| && IsPoll(cfg.cap, f.sh, f.bodies[i], es)
    ensures Run(cfg, f, Consuming(i, es)) ==
            Some(f.(bodies := f.bodies[i := AfterPoll(cfg.cap, f.sh, f.bodies[i], es)]))
    decreases |es|
  {
    if es == [] {
      assert f.bodies[i := f.bodies[i]] == f.bodies;
    } else {
      var c := BodyNext(cfg.cap, f.sh, f.bodies[i], es[0]);
      var g := f.(bodies := f.bodies[i := c]);
      assert Consuming(i, es)[1..] == Consuming(i, es[1..]);
      assert Next(cfg, f, Consuming(i, es)[0]) == g;
      if Returns(es[0], c) {
        assert es[1..] == [] && Consuming(i, es)[1..] == [];
      } else {
        PollIsRun(cfg, g, i, es[1..]);
        var d := AfterPoll(cfg.cap, f.sh, c, es[1..]);
        assert g.bodies[i := d] == f.bodies[i := d];
      }
    }
  }

  /** A run with whole polls is one of the interleavings. */
  lemma {:induction false} PollRunIsRun(cfg: Setup, f: Fetch, items: seq<Item>)
    requires PollRun(cfg, f, items).Some?
    ensures Run(cfg, f, Flatten(items)) == PollRun(cfg, f, items)
    decreases |items|
  {
    if items != [] {
      var g := ItemNext(cfg, f, items[0]);
      PollRunIsRun(cfg, g, items[1..]);
      match items[0]
      case Other(e) =>
        assert Run(cfg, f, [e]) == Some(g) by { assert [e][1..] == []; }
        RunAppend(cfg, f, [e], Flatten(items[1..]));
      case Poll(i, es) =>
        PollIsRun(cfg, f, i, es);
        RunAppend(cfg, f, Consuming(i, es), Flatten(items[1..]));
    }
  }

  // ----- no lost wakeup -----

  /** A consumer asleep has delivered all there is, with no outcome to see; or the
      producer is about to notify it. */
  ghost predicate AwakeOrCaughtUp(sh: Shared, b: Body) {
    b.state.Waiting? && !b.state.notified ==>
      || (|b.delivered| == sh.written && sh.outcome.None?)
      || sh.pc.Stored? || sh.pc.Waking?
  }

  /** Inside a poll: what was loaded and checked is still so. */
  ghost predicate MidPoll(sh: Shared, b: Body) {
    && AwakeOrCaughtUp(sh, b)
    && (b.state.Loaded? ==> b.state.high == sh.written)
    && (b.state.Checked? ==> |b.delivered| == sh.written && sh.outcome.None?)
    && !b.state.Stalled?
  }

  /** Between polls. */
  ghost predicate Rested(sh: Shared, b: Body) {
    AwakeOrCaughtUp(sh, b) && !b.state.Loaded? && !b.state.Checked? && !b.state.Stalled?
  }

  lemma {:induction false} PollKeepsRested(cfg: Setup, digest: Digest, sh: Shared, b: Body, es: seq<BodyEvent>)
    requires SharedInv(cfg.hash, digest, sh) && BodyInv(sh, b) && MidPoll(sh, b) && IsPoll(cfg.cap, sh, b, es)
    ensures BodyInv(sh, AfterPoll(cfg.cap, sh, b, es)) && Rested(sh, AfterPoll(cfg.cap, sh, b, es))
    decreases |es|
  {
    if es != [] {
      var c := BodyNext(cfg.cap, sh, b, es[0]);
      BodyKeepsInv(cfg, digest, sh, b, es[0]);
      assert MidPoll(sh, c);
      if !Returns(es[0], c) {
        PollKeepsRested(cfg, digest, sh, c, es[1..]);
      }
    }
  }

  ghost predicate PollInv(cfg: Setup, f: Fetch) {
    Inv(cfg, f) && forall i :: 0 <= i < |f.bodies| ==> Rested(f.sh, f.bodies[i])
  }

  lemma ProducerKeepsRested(hash: Hash, digest: Digest, sh: Shared, e: ProducerEvent, b: Body)
    requires SharedInv(hash, digest, sh) && ProducerEnabled(sh, e) && BodyInv(sh, b) && Rested(sh, b)
    ensures Rested(ProducerNext(hash, digest, sh, e), if e.NotifyProgress? || e.NotifyFinal? then Notified(b) else b)
  {
  }

  lemma ItemKeepsPollInv(cfg: Setup, f: Fetch, it: Item)
    requires PollInv(cfg, f) && ItemEnabled(cfg, f, it)
    ensures PollInv(cfg, ItemNext(cfg, f, it))
  {
    var g := ItemNext(cfg, f, it);
    match it
    case Other(e) =>
      StepKeepsInv(cfg, f, e);
      forall i | 0 <= i < |g.bodies| ensures Rested(g.sh, g.bodies[i]) {
        if e.Producer? {
          ProducerKeepsRested(cfg.hash, f.digest, f.sh, e.producer, f.bodies[i]);
        }
      }
    case Poll(i, es) =>
      assert BodyInv(f.sh, f.bodies[i]) && Rested(f.sh, f.bodies[i]);
      PollKeepsRested(cfg, f.digest, f.sh, f.bodies[i], es);
  }

  lemma {:induction false} PollRunKeepsInv(cfg: Setup, f: Fetch, items: seq<Item>)
    requires PollInv(cfg, f) && PollRun(cfg, f, items).Some?
    ensures PollInv(cfg, PollRun(cfg, f, items).value)
    decreases |items|
  {
    if items != [] {
      ItemKeepsPollInv(cfg, f, items[0]);
      PollRunKeepsInv(cfg, ItemNext(cfg, f, items[0]), items[1..]);
    }
  }

  /** With whole polls no wakeup is lost, in any run: a consumer asleep has
      delivered everything up to the mark and there is no outcome yet, or the
      producer is between its store and its notification. The branch of
      `handle_terminal` that returns Pending is never taken. */
  lemma NoLostWakeup(cfg: Setup, digest: Digest, items: seq<Item>, i: nat)
    requires PollRun(cfg, Start(digest), items).Some? && i < |PollRun(cfg, Start(digest), items).value.bodies|
    ensures var f := PollRun(cfg, Start(digest), items).value;
            && AwakeOrCaughtUp(f.sh, f.bodies[i])
            && !f.bodies[i].state.Stalled?
            && (f.sh.outcome.Some? && f.sh.outcome.value.Success? ==> f.sh.outcome.value.finalSize == f.sh.written)
  {
    PollRunKeepsInv(cfg, Start(digest), items);
    assert Rested(PollRun(cfg, Start(digest), items).value.sh, PollRun(cfg, Start(digest), items).value.bodies[i]);
  }

  // ----- without whole polls -----

  /** A consumer that registered after the last notification sleeps for good,
      whatever anybody does from then on. */
  lemma {:induction false} LateSleeperStays(cfg: Setup, f: Fetch, i: nat, events: seq<Event>)
    requires Inv(cfg, f) && i < |f.bodies| && f.bodies[i].state == Waiting(false, true)
    requires Run(cfg, f, events).Some?
    ensures var g := Run(cfg, f, events).value; i < |g.bodies| && g.bodies[i] == f.bodies[i]
    decreases |events|
  {
    if events != [] {
      assert BodyInv(f.sh, f.bodies[i]);
      StepKeepsInv(cfg, f, events[0]);
      LateSleeperStays(cfg, Next(cfg, f, events[0]), i, events[1..]);
    }
  }

  /** Exactly these are the lost consumers: after the producer has exited, a
      consumer asleep is one that registered late. */
  lemma SleepersAreLate(cfg: Setup, digest: Digest, events: seq<Event>, i: nat)
    requires Run(cfg, Start(digest), events).Some? && i < |Run(cfg, Start(digest), events).value.bodies|
    requires var b := Run(cfg, Start(digest), events).value.bodies[i]; b.state.Waiting? && !b.state.notified
    ensures var f := Run(cfg, Start(digest), events).value;
            f.bodies[i].state.late <==> f.sh.pc.Exited?
  {
    RunKeepsInv(cfg, Start(digest), events);
    assert BodyInv(Run(cfg, Start(digest), events).value.sh, Run(cfg, Start(digest), events).value.bodies[i]);
  }

  ghost predicate Reaches(cfg: Setup, digest: Digest, f: Fetch) {
    exists events :: Run(cfg, Start(digest), events) == Some(f)
  }

  lemma ReachStart(cfg: Setup, digest: Digest)
    ensures Reaches(cfg, digest, Start(digest))
  {
    assert Run(cfg, Start(digest), []) == Some(Start(digest));
  }

  lemma ReachStep(cfg: Setup, digest: Digest, f: Fetch, e: Event) returns (g: Fetch)
    requires Reaches(cfg, digest, f) && Enabled(cfg, f, e)
    ensures g == Next(cfg, f, e) && Reaches(cfg, digest, g)
  {
    g := Next(cfg, f, e);
    var events :| Run(cfg, Start(digest), events) == Some(f);
    RunAppend(cfg, Start(digest), events, [e]);
    assert [e][1..] == [] && Run(cfg, f, [e]) == Some(g);
    assert Run(cfg, Start(digest), events + [e]) == Some(g);
  }

  /** Such a run exists for every digest: the outcome is sent between the
      consumer's check and its registration. */
  lemma WakeupCanBeLost(cfg: Setup, digest: Digest) returns (f: Fetch)
    ensures Reaches(cfg, digest, f)
    ensures |f.bodies| == 1 && f.bodies[0].state == Waiting(false, true)
    ensures f.sh.pc.Exited? && f.sh.outcome == Some(Failed(Upstream))
  {
    ReachStart(cfg, digest);
    f := ReachStep(cfg, digest, Start(digest), AttachBody);
    f := ReachStep(cfg, digest, f, Consumer(0, Load));
    f := ReachStep(cfg, digest, f, Consumer(0, Check));
    f := ReachStep(cfg, digest, f, Producer(ConnectFails));
    f := ReachStep(cfg, digest, f, Producer(SetDone));
    f := ReachStep(cfg, digest, f, Producer(Send));
    f := ReachStep(cfg, digest, f, Producer(NotifyFinal));
    f := ReachStep(cfg, digest, f, Consumer(0, Register));
  }

  /** A consumer that has loaded the first mark. */
  lemma ConsumerLoads(cfg: Setup, digest: Digest) returns (f: Fetch)
    ensures Reaches(cfg, digest, f)
    ensures f.digest == digest && f.bodies == [Body(Loaded(0), [])]
    ensures f.sh == Start(digest).sh.(pc := Creating)
  {
    ReachStart(cfg, digest);
    f := ReachStep(cfg, digest, Start(digest), AttachBody);
    f := ReachStep(cfg, digest, f, Consumer(0, Load));
    f := ReachStep(cfg, digest, f, Producer(Connects));
  }

  /** Such a consumer, after the producer has received `bytes`. */
  lemma ConsumerFallsBehind(cfg: Setup, bytes: Bytes) returns (f: Fetch)
    ensures Reaches(cfg, cfg.hash(bytes), f)
    ensures f.digest == cfg.hash(bytes)
    ensures f.bodies == [Body(Loaded(0), [])] && f.sh.pc.Flushing? && f.sh.received == bytes && f.sh.outcome.None?
  {
    var digest := cfg.hash(bytes);
    f := ConsumerLoads(cfg, digest);
    f := ReachStep(cfg, digest, f, Producer(Creates));
    f := ReachStep(cfg, digest, f, Producer(Chunk(bytes)));
    assert f.sh.received == bytes;
    f := ReachStep(cfg, digest, f, Producer(RaiseMark));
    f := ReachStep(cfg, digest, f, Producer(NotifyProgress));
    f := ReachStep(cfg, digest, f, Producer(StreamEnds));
  }

  lemma ProducerPromotes(cfg: Setup, digest: Digest, f: Fetch) returns (g: Fetch)
    requires Reaches(cfg, digest, f) && f.digest == digest && f.sh.pc.Flushing? && cfg.hash(f.sh.received) == digest
    ensures Reaches(cfg, digest, g) && g.bodies == f.bodies && g.sh.pc == Finishing(Success(|f.sh.received|))
    ensures g.digest == digest && g.sh.received == f.sh.received
  {
    g := ReachStep(cfg, digest, f, Producer(Flushes));
    g := ReachStep(cfg, digest, g, Producer(Verify));
    g := ReachStep(cfg, digest, g, Producer(Renames));
  }

  /** For every blob there is a run of its fetch that promotes it. */
  lemma FetchOf(cfg: Setup, bytes: Bytes) returns (events: seq<Event>)
    ensures Run(cfg, Start(cfg.hash(bytes)), events).Some?
    ensures Run(cfg, Start(cfg.hash(bytes)), events).value.sh.promoted == Some(bytes)
  {
    var digest := cfg.hash(bytes);
    var f := ConsumerFallsBehind(cfg, bytes);
    f := ProducerPromotes(cfg, digest, f);
    events :| Run(cfg, Start(digest), events) == Some(f);
    RunKeepsInv(cfg, Start(digest), events);
  }

  lemma ProducerSucceeds(cfg: Setup, digest: Digest, f: Fetch) returns (g: Fetch)
    requires Reaches(cfg, digest, f) && f.digest == digest && f.sh.pc.Flushing? && cfg.hash(f.sh.received) == digest
    ensures Reaches(cfg, digest, g) && g.bodies == f.bodies && g.sh.outcome == Some(Success(|f.sh.received|))
  {
    g := ProducerPromotes(cfg, digest, f);
    g := ReachStep(cfg, digest, g, Producer(SetDone));
    g := ReachStep(cfg, digest, g, Producer(Send));
  }

  /** And so does a run that takes the Pending branch of `handle_terminal`, for
      every non-empty blob: the consumer has loaded the mark, then the producer
      delivers everything and succeeds, then the consumer checks the outcome. */
  lemma ConsumerCanStall(cfg: Setup, bytes: Bytes) returns (f: Fetch)
    requires bytes != []
    ensures Reaches(cfg, cfg.hash(bytes), f)
    ensures f.bodies == [Body(Stalled, [])] && f.sh.outcome == Some(Success(|bytes|))
  {
    var digest := cfg.hash(bytes);
    f := ConsumerFallsBehind(cfg, bytes);
    f := ProducerSucceeds(cfg, digest, f);
    f := ReachStep(cfg, digest, f, Consumer(0, Check));
  }

  /** Exactly when that branch is taken, in every reachable state: the fetch has
      succeeded, and its mark was raised after the consumer had loaded it. */
  lemma StallsIff(cfg: Setup, digest: Digest, events: seq<Event>, i: nat)
    requires Run(cfg, Start(digest), events).Some? && i < |Run(cfg, Start(digest), events).value.bodies|
    requires Run(cfg, Start(digest), events).value.bodies[i].state.Loaded?
    ensures var f := Run(cfg, Start(digest), events).value;
            BodyNext(cfg.cap, f.sh, f.bodies[i], Check).state.Stalled? <==>
            f.sh.outcome.Some? && f.sh.outcome.value.Success? && f.bodies[i].state.high < f.sh.written
  {
    RunKeepsInv(cfg, Start(digest), events);
    var f := Run(cfg, Start(digest), events).value;
    assert BodyInv(f.sh, f.bodies[i]);
  }

  /** A consumer that is asleep, but did not register late, is notified in every
      continuation in which the producer exits: after `n` of its events. */
  lemma {:induction false} EarlySleeperWakes(cfg: Setup, f: Fetch, i: nat, events: seq<Event>) returns (n: nat)
    requires Inv(cfg, f) && i < |f.bodies| && f.bodies[i].state == Waiting(false, false)
    requires Run(cfg, f, events).Some? && Run(cfg, f, events).value.sh.pc.Exited?
    ensures n <= |events| && Run(cfg, f, events[..n]).Some?
    ensures var g := Run(cfg, f, events[..n]).value;
            i < |g.bodies| && g.bodies[i] == f.bodies[i].(state := Waiting(true, false))
    decreases |events|
  {
    assert BodyInv(f.sh, f.bodies[i]);
    var e := events[0];
    var g := Next(cfg, f, e);
    StepKeepsInv(cfg, f, e);
    if e.Producer? && (e.producer.NotifyProgress? || e.producer.NotifyFinal?) {
      n := 1;
      assert events[..1] == [e] && [e][1..] == [];
      assert Run(cfg, g, []) == Some(g);
    } else {
      var m := EarlySleeperWakes(cfg, g, i, events[1..]);
      n := m + 1;
      assert events[..n][1..] == events[1..][..m];
    }
  }

  // ----- progress -----

  /** How far a consumer is from its end: four stages for each byte it lacks. */
  function Rank(s: BodyState): nat {
    match s
    case Waiting(_, _) => 4
    case Stalled => 4
    case Idle => 3
    case Loaded(_) => 2
    case Reading(_) => 2
    case Opened(_) => 1
    case _ => 0
  }

  function SubNat(a: nat, b: nat): nat {
    if b <= a then a - b else 0
  }

  function Distance(sh: Shared, b: Body): nat {
    if Terminal(b) then 0 else 4 * SubNat(sh.written, |b.delivered|) + Rank(b.state)
  }

  /** Once the producer has exited, every step of a consumer but an empty read
      brings it closer to its end. */
  lemma StepGetsCloser(cfg: Setup, digest: Digest, sh: Shared, b: Body, e: BodyEvent)
    requires SharedInv(cfg.hash, digest, sh) && sh.pc.Exited? && BodyInv(sh, b) && MidPoll(sh, b) && cfg.cap >= 1
    requires BodyEnabled(cfg.cap, sh, b, e) && e != Read(0)
    ensures Distance(sh, BodyNext(cfg.cap, sh, b, e)) < Distance(sh, b)
  {
    BodyKeepsInv(cfg, digest, sh, b, e);
  }

  /** So does every poll that takes any step, also one that only starts a read and
      returns with it in flight. */
  lemma {:induction false} PollGetsCloser(cfg: Setup, digest: Digest, sh: Shared, b: Body, es: seq<BodyEvent>)
    requires SharedInv(cfg.hash, digest, sh) && sh.pc.Exited? && BodyInv(sh, b) && MidPoll(sh, b) && cfg.cap >= 1
    requires IsPoll(cfg.cap, sh, b, es) && Read(0) !in es
    ensures var c := AfterPoll(cfg.cap, sh, b, es);
            if es == [] then c == b else Distance(sh, c) < Distance(sh, b)
    decreases |es|
  {
    if es != [] {
      var c := BodyNext(cfg.cap, sh, b, es[0]);
      assert es[0] in es;
      BodyKeepsInv(cfg, digest, sh, b, es[0]);
      StepGetsCloser(cfg, digest, sh, b, es[0]);
      if !Returns(es[0], c) {
        assert MidPoll(sh, c);
        assert forall e :: e in es[1..] ==> e in es;
        PollGetsCloser(cfg, digest, sh, c, es[1..]);
      }
    }
  }

  /** The polls of consumer `i` that take a step. */
  function PollsOf(items: seq<Item>, i: nat): nat {
    if items == [] then 0
    else (if items[0].Poll? && items[0].body == i && items[0].steps != [] then 1 else 0) + PollsOf(items[1..], i)
  }

  /** No read of consumer `i` comes back empty. */
  predicate ReadsGiveData(items: seq<Item>, i: nat) {
    forall it :: it in items && it.Poll? && it.body == i ==> Read(0) !in it.steps
  }

  lemma ItemGetsCloser(cfg: Setup, f: Fetch, it: Item, i: nat)
    requires PollInv(cfg, f) && f.sh.pc.Exited? && cfg.cap >= 1 && i < |f.bodies| && ItemEnabled(cfg, f, it)
    requires it.Poll? && it.body == i ==> Read(0) !in it.steps
    ensures var g := ItemNext(cfg, f, it);
            && g.sh.pc.Exited? && i < |g.bodies|
            && PollsOf([it], i) + Distance(g.sh, g.bodies[i]) <= Distance(f.sh, f.bodies[i])
  {
    assert [it][1..] == [];
    if it.Poll? && it.body == i {
      assert BodyInv(f.sh, f.bodies[i]) && Rested(f.sh, f.bodies[i]);
      PollGetsCloser(cfg, f.digest, f.sh, f.bodies[i], it.steps);
    }
  }

  /** Progress, in every run after the producer has exited, whatever the other
      consumers and waiters do: each poll that takes a step, even if its read stays
      in flight, brings the consumer closer to its end. */
  lemma {:induction false} RunGetsCloser(cfg: Setup, f: Fetch, items: seq<Item>, i: nat)
    requires PollInv(cfg, f) && f.sh.pc.Exited? && cfg.cap >= 1 && i < |f.bodies|
    requires PollRun(cfg, f, items).Some? && ReadsGiveData(items, i)
    ensures var g := PollRun(cfg, f, items).value;
            && PollInv(cfg, g) && i < |g.bodies|
            && PollsOf(items, i) + Distance(g.sh, g.bodies[i]) <= Distance(f.sh, f.bodies[i])
    decreases |items|
  {
    if items != [] {
      assert items[0] in items;
      assert [items[0]][1..] == [];
      ItemGetsCloser(cfg, f, items[0], i);
      ItemKeepsPollInv(cfg, f, items[0]);
      RunGetsCloser(cfg, ItemNext(cfg, f, items[0]), items[1..], i);
    }
  }

  /** So a consumer has ended once it has been polled often enough: four times for
      each byte it lacks, and four times more. */
  lemma ConsumerEnds(cfg: Setup, digest: Digest, before: seq<Item>, items: seq<Item>, i: nat)
    requires PollRun(cfg, Start(digest), before).Some? && cfg.cap >= 1
    requires var f := PollRun(cfg, Start(digest), before).value;
             f.sh.pc.Exited? && i < |f.bodies| && PollRun(cfg, f, items).Some? && ReadsGiveData(items, i)
    ensures var f := PollRun(cfg, Start(digest), before).value;
            var g := PollRun(cfg, f, items).value;
            && i < |g.bodies|
            && (PollsOf(items, i) >= 4 * (f.sh.written - |f.bodies[i].delivered|) + 4 ==> Terminal(g.bodies[i]))
  {
    PollRunKeepsInv(cfg, Start(digest), before);
    var f := PollRun(cfg, Start(digest), before).value;
    assert BodyInv(f.sh, f.bodies[i]);
    RunGetsCloser(cfg, f, items, i);
    var g := PollRun(cfg, f, items).value;
    assert Rested(g.sh, g.bodies[i]);
  }

  /** And an ended consumer stays as it is, in every interleaving. */
  lemma {:induction false} EndedStays(cfg: Setup, f: Fetch, i: nat, events: seq<Event>)
    requires i < |f.bodies| && Terminal(f.bodies[i]) && Run(cfg, f, events).Some?
    ensures var g := Run(cfg, f, events).value; i < |g.bodies| && g.bodies[i] == f.bodies[i]
    decreases |events|
  {
    if events != [] {
      EndedStays(cfg, Next(cfg, f, events[0]), i, events[1..]);
    }
  }

  /** The steps of the poll that reads as much as it can. */
  function FullPoll(cap: nat, sh: Shared, b: Body): seq<BodyEvent> {
    match b.state
    case Waiting(_, _) => [Wake] + PollFromIdle(cap, sh, b)
    case Idle => PollFromIdle(cap, sh, b)
    case Reading(high) => ReadSteps(cap, sh, b, high)
    case Opened(high) => [Read(Min(SubNat(high, |b.delivered|), cap))]
    case _ => []
  }

  function ReadSteps(cap: nat, sh: Shared, b: Body, high: nat): seq<BodyEvent> {
    if sh.linked then [Open, Read(Min(SubNat(high, |b.delivered|), cap))] else [Open]
  }

  function PollFromIdle(cap: nat, sh: Shared, b: Body): seq<BodyEvent> {
    if |b.delivered| < sh.written then [Load] + ReadSteps(cap, sh, b, sh.written) else [Load, Check]
  }

  lemma ReadStepsPoll(cfg: Setup, digest: Digest, sh: Shared, b: Body)
    requires SharedInv(cfg.hash, digest, sh) && BodyInv(sh, b) && sh.visible == |sh.file| && cfg.cap >= 1
    requires b.state.Reading?
    ensures var es := ReadSteps(cfg.cap, sh, b, b.state.high);
            IsPoll(cfg.cap, sh, b, es) && Read(0) !in es && (es != [] || Terminal(b))
  {
    var es := ReadSteps(cfg.cap, sh, b, b.state.high);
    var c := BodyNext(cfg.cap, sh, b, Open);
    if sh.linked {
      assert es[1..] == [Read(Want(cfg.cap, b))];
      assert BodyEnabled(cfg.cap, sh, c, es[1]);
      assert IsPoll(cfg.cap, sh, c, es[1..]);
    }
  }

  lemma IdlePoll(cfg: Setup, digest: Digest, sh: Shared, b: Body)
    requires SharedInv(cfg.hash, digest, sh) && BodyInv(sh, b) && sh.visible == |sh.file| && cfg.cap >= 1
    requires b.state.Idle? && sh.pc.Exited?
    ensures var es := PollFromIdle(cfg.cap, sh, b);
            IsPoll(cfg.cap, sh, b, es) && Read(0) !in es && (es != [] || Terminal(b))
  {
    var es := PollFromIdle(cfg.cap, sh, b);
    var c := BodyNext(cfg.cap, sh, b, Load);
    BodyKeepsInv(cfg, digest, sh, b, Load);
    if |b.delivered| < sh.written {
      ReadStepsPoll(cfg, digest, sh, c);
      assert es[1..] == ReadSteps(cfg.cap, sh, c, sh.written);
    } else {
      assert es[1..] == [Check];
      assert IsPoll(cfg.cap, sh, c, es[1..]);
    }
  }

  /** Such a poll is always possible when the fetch has succeeded, or the whole file is
      visible anyway, and the chunk capacity is at least one, so no consumer is ever stuck: unless it has ended,
      there is a poll that takes a step and reads data. */
  lemma PollIsPossible(cfg: Setup, digest: Digest, sh: Shared, b: Body)
    requires SharedInv(cfg.hash, digest, sh) && BodyInv(sh, b) && cfg.cap >= 1 && sh.pc.Exited? && Rested(sh, b)
    requires sh.outcome.value.Success? || sh.visible == |sh.file|
    ensures var es := FullPoll(cfg.cap, sh, b);
            IsPoll(cfg.cap, sh, b, es) && Read(0) !in es && (es != [] || Terminal(b))
  {
    match b.state
    case Waiting(_, _) =>
      var c := BodyNext(cfg.cap, sh, b, Wake);
      IdlePoll(cfg, digest, sh, c);
      assert FullPoll(cfg.cap, sh, b)[1..] == PollFromIdle(cfg.cap, sh, c);
    case Idle => IdlePoll(cfg, digest, sh, b);
    case Reading(_) => ReadStepsPoll(cfg, digest, sh, b);
    case Opened(high) =>
      assert FullPoll(cfg.cap, sh, b) == [Read(Want(cfg.cap, b))];
    case _ =>
  }

  // ----- when a poll returns at all -----

  /** A chunk capacity of zero is harmless only to a consumer with nothing to read. */
  predicate CanReturn(cap: nat, sh: Shared, b: Body) {
    cap >= 1 || Terminal(b) || (b.state.Waiting? && !b.state.notified) || |b.delivered| == sh.written
  }

  lemma {:induction false} EmptyReadsGoOn(sh: Shared, b: Body, es: seq<BodyEvent>)
    requires BodyInv(sh, b) && !b.state.Loaded? && !b.state.Checked? && !CanReturn(0, sh, b)
    ensures !IsPoll(0, sh, b, es)
    decreases |es|
  {
    if es != [] && BodyEnabled(0, sh, b, es[0]) {
      EmptyReadsGoOn(sh, BodyNext(0, sh, b, es[0]), es[1..]);
    }
  }

  /** The steps of a poll that returns as soon as it can. */
  function ShortPoll(sh: Shared, b: Body): seq<BodyEvent> {
    match b.state
    case Waiting(true, _) => [Wake] + ShortFromIdle(sh, b)
    case Stalled => [Repoll] + ShortFromIdle(sh, b)
    case Idle => ShortFromIdle(sh, b)
    case _ => []
  }

  function ShortFromIdle(sh: Shared, b: Body): seq<BodyEvent> {
    if |b.delivered| < sh.written then [Load] else if sh.outcome.Some? then [Load, Check] else [Load, Check, Register]
  }

  lemma ShortFromIdlePoll(cap: nat, sh: Shared, b: Body)
    requires BodyInv(sh, b) && b.state.Idle? && (cap >= 1 || |b.delivered| == sh.written)
    ensures IsPoll(cap, sh, b, ShortFromIdle(sh, b))
  {
    var es := ShortFromIdle(sh, b);
    var c := BodyNext(cap, sh, b, Load);
    if |b.delivered| < sh.written {
      assert es[1..] == [];
    } else {
      var d := BodyNext(cap, sh, c, Check);
      assert es[1..][0] == Check;
      if sh.outcome.None? { assert es[1..][1..] == [Register]; }
      assert IsPoll(cap, sh, c, es[1..]);
    }
  }

  ghost predicate SomePollReturns(cap: nat, sh: Shared, b: Body) {
    exists es: seq<BodyEvent> :: IsPoll(cap, sh, b, es)
  }

  lemma PollWitness(cap: nat, sh: Shared, b: Body, es: seq<BodyEvent>)
    requires IsPoll(cap, sh, b, es)
    ensures SomePollReturns(cap, sh, b)
  {
  }

  lemma ShortPollReturns(cap: nat, sh: Shared, b: Body)
    requires BodyInv(sh, b) && !b.state.Loaded? && !b.state.Checked? && CanReturn(cap, sh, b)
    ensures IsPoll(cap, sh, b, ShortPoll(sh, b))
  {
    var es := ShortPoll(sh, b);
    match b.state
    case Waiting(true, _) =>
      ShortFromIdlePoll(cap, sh, BodyNext(cap, sh, b, Wake));
      assert es[1..] == ShortFromIdle(sh, b);
    case Stalled =>
      ShortFromIdlePoll(cap, sh, BodyNext(cap, sh, b, Repoll));
      assert es[1..] == ShortFromIdle(sh, b);
    case Idle => ShortFromIdlePoll(cap, sh, b);
    case _ =>
  }

  /** `poll_frame` can return if and only if the chunk capacity is not zero or
      there is nothing to read; otherwise it makes one empty read after another. */
  lemma PollReturnsIff(cap: nat, sh: Shared, b: Body)
    requires BodyInv(sh, b) && !b.state.Loaded? && !b.state.Checked?
    ensures SomePollReturns(cap, sh, b) <==> CanReturn(cap, sh, b)
  {
    if CanReturn(cap, sh, b) {
      ShortPollReturns(cap, sh, b);
      PollWitness(cap, sh, b, ShortPoll(sh, b));
    } else {
      forall es ensures !IsPoll(cap, sh, b, es) {
        EmptyReadsGoOn(sh, b, es);
      }
    }
  }

}
