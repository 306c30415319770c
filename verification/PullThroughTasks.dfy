/** The code of the pull-through tasks: the shared entry, the producer, the body
    that consumers poll, and the table. Each method is tied to the transition
    system: what it does is a run of the producer, or one poll of a consumer. */
module PullThroughTasks {

  import opened Base
  import opened Digests
  import opened PullThrough
  import opened PullThroughPolls
  import opened PullThroughTable

  // ----- producer -----

  function ProducerRun(hash: Hash, digest: Digest, sh: Shared, es: seq<ProducerEvent>): Option<Shared>
    decreases |es|
  {
    if es == [] then Some(sh)
    else if !ProducerEnabled(sh, es[0]) then None
    else ProducerRun(hash, digest, ProducerNext(hash, digest, sh, es[0]), es[1..])
  }

  lemma {:induction false} ProducerRunMore(hash: Hash, digest: Digest, sh: Shared, es: seq<ProducerEvent>,
                                           e: ProducerEvent)
    requires ProducerRun(hash, digest, sh, es).Some? && ProducerEnabled(ProducerRun(hash, digest, sh, es).value, e)
    ensures ProducerRun(hash, digest, sh, es + [e]) ==
            Some(ProducerNext(hash, digest, ProducerRun(hash, digest, sh, es).value, e))
    decreases |es|
  {
    if es == [] {
      assert (es + [e])[1..] == [];
    } else {
      assert (es + [e])[1..] == es[1..] + [e];
      ProducerRunMore(hash, digest, ProducerNext(hash, digest, sh, es[0]), es[1..], e);
    }
  }

  /** The entry shared between tasks. `sh` and `trace` are history: where the
      producer is, and the steps that led there. */
  class PullThroughEntry {
    const hash: Hash
    const digest: Digest
    var written: nat
    var done: bool
    var outcome: Option<Outcome>
    ghost var sh: Shared
    ghost var trace: seq<ProducerEvent>

    ghost predicate Valid()
      reads this
    {
      && written == sh.written && done == sh.done && outcome == sh.outcome
      && SharedInv(hash, digest, sh)
      && ProducerRun(hash, digest, Start(digest).sh, trace) == Some(sh)
    }

    /** The entry of a fetch of `d` that has got to `now`. */
    ghost predicate Is(hash: Hash, d: Digest, now: Shared)
      reads this
    {
      Valid() && this.hash == hash && digest == d && sh == now
    }

    constructor (hash: Hash, digest: Digest)
      ensures Valid() && this.hash == hash && this.digest == digest && sh == Start(digest).sh && trace == []
    {
      this.hash := hash;
      this.digest := digest;
      written, done, outcome := 0, false, None;
      sh, trace := Start(digest).sh, [];
    }

    ghost method Record(e: ProducerEvent)
      requires Valid() && ProducerEnabled(sh, e)
      requires !e.RaiseMark? && !e.SetDone? && !e.Send?
      modifies this`sh, this`trace
      ensures Valid() && sh == ProducerNext(hash, digest, old(sh), e)
    {
      ProducerRunMore(hash, digest, Start(digest).sh, trace, e);
      ProducerKeepsShared(hash, digest, sh, e);
      sh := ProducerNext(hash, digest, sh, e);
      trace := trace + [e];
    }

    /** `advance`: raise the mark, then notify. */
    method Advance(total: nat)
      requires Valid() && sh.pc.Wrote? && total == |sh.received|
      modifies this
      ensures Valid() && sh == old(sh).(pc := Streaming, written := total)
    {
      ProducerRunMore(hash, digest, Start(digest).sh, trace, RaiseMark);
      ProducerKeepsShared(hash, digest, sh, RaiseMark);
      written := total;
      sh := ProducerNext(hash, digest, sh, RaiseMark);
      trace := trace + [RaiseMark];
      Record(NotifyProgress);
    }

    /** `finish`: set the flag, send the outcome, then notify. */
    method Finish(o: Outcome)
      requires Valid() && sh.pc == Finishing(o)
      modifies this
      ensures Valid() && sh == old(sh).(pc := Exited, done := true, outcome := Some(o), sends := 1)
    {
      SetFlag(o);
      SendOutcome(o);
      Record(NotifyFinal);
    }

    method SetFlag(o: Outcome)
      requires Valid() && sh.pc == Finishing(o)
      modifies this
      ensures Valid() && sh == old(sh).(pc := Sending(o), done := true)
    {
      ProducerRunMore(hash, digest, Start(digest).sh, trace, SetDone);
      ProducerKeepsShared(hash, digest, sh, SetDone);
      done := true;
      sh := ProducerNext(hash, digest, sh, SetDone);
      trace := trace + [SetDone];
    }

    method SendOutcome(o: Outcome)
      requires Valid() && sh.pc == Sending(o)
      modifies this
      ensures Valid() && sh == old(sh).(pc := Waking, outcome := Some(o), sends := 1)
    {
      ProducerRunMore(hash, digest, Start(digest).sh, trace, Send);
      ProducerKeepsShared(hash, digest, sh, Send);
      outcome := Some(o);
      sh := ProducerNext(hash, digest, sh, Send);
      trace := trace + [Send];
    }
  }

  /** What the upstream stream yields, in order. */
  datatype StreamItem = Got(bytes: Bytes) | Broken

  /** Which file operations go through. */
  datatype Faults = Faults(
    createOk: bool, badWrite: Option<nat>, partial: Bytes, flushOk: bool, renameOk: bool, removeOk: bool)

  /** The bytes of the first `n` items. */
  function ReceivedUpTo(stream: seq<StreamItem>, n: nat): Bytes
    requires n <= |stream|
  {
    if n == 0 then []
    else ReceivedUpTo(stream, n - 1) + if stream[n - 1].Got? then stream[n - 1].bytes else []
  }

  function Received(stream: seq<StreamItem>): Bytes {
    ReceivedUpTo(stream, |stream|)
  }

  /** No item of the stream is an error or cannot be written. */
  predicate GetsThrough(stream: seq<StreamItem>, io: Faults) {
    && (forall i :: 0 <= i < |stream| ==> stream[i].Got?)
    && (io.badWrite.Some? ==> io.badWrite.value >= |stream|)
  }

  /** The first thing that goes wrong with the stream is an error from upstream. */
  ghost predicate BreaksFirst(stream: seq<StreamItem>, io: Faults) {
    exists i :: && 0 <= i < |stream| && stream[i].Broken?
                && (forall j :: 0 <= j < i ==> stream[j].Got?)
                && (io.badWrite.Some? ==> io.badWrite.value >= i)
  }

  /** The producer's local variables: what the running hasher has been fed, the
      content of the tempfile, and the byte count. */
  datatype Transfer = Transfer(hasher: Bytes, file: Bytes, total: nat)

  /** They agree with the shared history. */
  ghost predicate InStep(t: Transfer, sh: Shared) {
    t.hasher == sh.received && t.file == sh.file && t.total == |sh.received|
  }

  /** One turn of the loop over the stream: write, hash, count, announce. */
  method ReceiveItem(entry: PullThroughEntry, item: StreamItem, before: Transfer, writeOk: bool, partial: Bytes)
    returns (r: Option<Failure>, t: Transfer)
    requires entry.Valid() && entry.sh.pc.Streaming? && InStep(before, entry.sh)
    modifies entry
    ensures entry.Valid() && entry.sh.promoted.None?
    ensures r.None? <==> item.Got? && writeOk
    ensures r == Some(Upstream) <==> item.Broken?
    ensures r.Some? ==> (r.value == Upstream || r.value == Io)
    ensures entry.sh.linked == old(entry.sh.linked)
    ensures r.None? ==> entry.sh.pc.Streaming? && InStep(t, entry.sh) && t.hasher == before.hasher + item.bytes
    ensures r.Some? ==> entry.sh.pc == Cleaning(r.value)
  {
    t := before;
    if item.Broken? {
      entry.Record(StreamFails);
      return Some(Upstream), t;
    }
    if !writeOk {
      entry.Record(WriteFails(partial));
      t := t.(file := t.file + partial);
      return Some(Io), t;
    }
    entry.Record(Chunk(item.bytes));
    t := t.(file := t.file + item.bytes);
    t := t.(hasher := t.hasher + item.bytes);
    t := t.(total := t.total + |item.bytes|);
    entry.Advance(t.total);
    r := None;
  }

  /** The first `i` items are written, hashed and announced. */
  ghost predicate Has(entry: PullThroughEntry, stream: seq<StreamItem>, i: nat, t: Transfer)
    requires i <= |stream|
    reads entry
  {
    entry.Valid() && entry.sh.pc.Streaming? && InStep(t, entry.sh) && t.hasher == ReceivedUpTo(stream, i)
  }

  /** What holds when the loop has stopped at an item. */
  ghost predicate GaveUp(entry: PullThroughEntry, e: Failure)
    reads entry
  {
    entry.Valid() && entry.sh.promoted.None? && entry.sh.pc == Cleaning(e)
  }

  method ReceiveNext(entry: PullThroughEntry, stream: seq<StreamItem>, i: nat, before: Transfer, io: Faults)
    returns (r: Option<Failure>, t: Transfer)
    requires i < |stream| && Has(entry, stream, i, before)
    modifies entry
    ensures r.None? <==> stream[i].Got? && io.badWrite != Some(i)
    ensures r == Some(Upstream) <==> stream[i].Broken?
    ensures r.Some? ==> (r.value == Upstream || r.value == Io)
    ensures entry.sh.linked == old(entry.sh.linked)
    ensures if r.None? then Has(entry, stream, i + 1, t) else GaveUp(entry, r.value)
  {
    r, t := ReceiveItem(entry, stream[i], before, io.badWrite != Some(i), io.partial);
  }

  /** The loop over the stream: it stops at the first item that is an error or
      cannot be written. */
  method ReceiveAll(entry: PullThroughEntry, stream: seq<StreamItem>, io: Faults)
    returns (r: Option<Failure>, t: Transfer)
    requires Has(entry, stream, 0, Transfer([], [], 0))
    modifies entry
    ensures r.None? <==> GetsThrough(stream, io)
    ensures r == Some(Upstream) <==> BreaksFirst(stream, io)
    ensures r.Some? ==> (r.value == Upstream || r.value == Io)
    ensures entry.sh.linked == old(entry.sh.linked)
    ensures if r.None? then Has(entry, stream, |stream|, t) else GaveUp(entry, r.value)
  {
    t := Transfer([], [], 0);
    var i := 0;
    while i < |stream|
      invariant 0 <= i <= |stream| && Has(entry, stream, i, t) && entry.sh.linked == old(entry.sh.linked)
      invariant forall j :: 0 <= j < i ==> stream[j].Got?
      invariant io.badWrite.Some? ==> io.badWrite.value >= i
    {
      r, t := ReceiveNext(entry, stream, i, t, io);
      if r.Some? {
        return;
      }
      i := i + 1;
    }
    r := None;
  }

  /** The stream from its start to its end: it gets through exactly when no item is
      an error or cannot be written, and then all of it is written, hashed and
      announced. */
  method Receive(entry: PullThroughEntry, stream: seq<StreamItem>, io: Faults) returns (r: Option<Failure>, t: Transfer)
    requires entry.Valid() && entry.sh.pc.Streaming? && entry.sh.received == []
    modifies entry
    ensures entry.Valid() && entry.sh.promoted.None?
    ensures r.None? <==> GetsThrough(stream, io)
    ensures r == Some(Upstream) <==> BreaksFirst(stream, io)
    ensures r.Some? ==> (r.value == Upstream || r.value == Io)
    ensures entry.sh.linked == old(entry.sh.linked)
    ensures r.None? ==> entry.sh.pc.Flushing? && InStep(t, entry.sh) && t.hasher == Received(stream)
    ensures r.Some? ==> entry.sh.pc == Cleaning(r.value)
  {
    r, t := ReceiveAll(entry, stream, io);
    if r.None? {
      entry.Record(StreamEnds);
    }
  }

  /** After the stream: flush, verify the digest, rename. `final` is what the
      rename put into the blob store. */
  method Promote(entry: PullThroughEntry, t: Transfer, io: Faults) returns (r: Option<Failure>, final: Option<Bytes>)
    requires entry.Valid() && entry.sh.pc.Flushing? && InStep(t, entry.sh)
    modifies entry
    ensures entry.Valid() && final == entry.sh.promoted && entry.sh.received == t.hasher
    ensures r.None? <==> io.flushOk && entry.hash(t.hasher) == entry.digest && io.renameOk
    ensures r == Some(DigestMismatch) <==> io.flushOk && entry.hash(t.hasher) != entry.digest
    ensures r.Some? ==> (r.value == DigestMismatch || r.value == Io) && entry.sh.linked == old(entry.sh.linked)
    ensures r.None? ==> entry.sh.pc == Finishing(Success(t.total)) && final == Some(t.hasher)
    ensures r.Some? ==> entry.sh.pc == Cleaning(r.value)
  {
    if !io.flushOk {
      entry.Record(FlushFails);
      return Some(Io), None;
    }
    entry.Record(Flushes);
    entry.Record(Verify);
    if entry.hash(t.hasher) != entry.digest {
      return Some(DigestMismatch), None;
    }
    if !io.renameOk {
      entry.Record(RenameFails);
      return Some(Io), None;
    }
    entry.Record(Renames);
    return None, Some(t.file);
  }

  /** `run_producer`: succeeds exactly when the whole stream arrives and hashes to
      the requested digest; then exactly those bytes were promoted. In any case the
      entry is finished, once. */
  method RunProducer(entry: PullThroughEntry, stream: seq<StreamItem>, io: Faults)
    returns (r: Option<Failure>, final: Option<Bytes>)
    requires entry.Valid() && entry.sh == Start(entry.digest).sh.(pc := Creating)
    modifies entry
    ensures entry.Valid() && entry.sh.pc.Exited? && entry.sh.sends == 1
    ensures r.None? <==> io.createOk && GetsThrough(stream, io) && io.flushOk && io.renameOk
                         && entry.hash(Received(stream)) == entry.digest
    ensures entry.outcome == Some(if r.None? then Success(|Received(stream)|) else Failed(r.value))
    ensures final == entry.sh.promoted == (if r.None? then Some(Received(stream)) else None)
    ensures r.None? ==> entry.written == |Received(stream)|
    ensures r == Some(Upstream) <==> io.createOk && BreaksFirst(stream, io)
    ensures r == Some(DigestMismatch) <==>
            && io.createOk && GetsThrough(stream, io) && io.flushOk
            && entry.hash(Received(stream)) != entry.digest
    ensures r.Some? ==> (r.value == Upstream || r.value == DigestMismatch || r.value == Io)
    ensures entry.sh.linked <==> io.createOk && r.Some? && !io.removeOk
  {
    if !io.createOk {
      entry.Record(CreateFails);
      entry.Finish(Failed(Io));
      return Some(Io), None;
    }
    entry.Record(Creates);
    var t;
    final := None;
    r, t := Receive(entry, stream, io);
    if r.None? {
      r, final := Promote(entry, t, io);
    }
    match r
    case None => entry.Finish(Success(t.total));
    case Some(e) =>
      entry.Record(Cleans(io.removeOk));
      entry.Finish(Failed(e));
  }

  // ----- consumer -----

  /** How a read that is in flight behaves when it is polled. */
  datatype ReadPoll = NotYet | OpenOnly | Gives(n: nat) | Fails

  datatype PollResult = Frame(bytes: Bytes) | Failure(error: PullThrough.Failure) | End | Pending

  /** One call of `poll_frame` while the shared entry moves: its `j`-th step meets
      the entry as it is at moment `j`. */
  predicate IsPollAt(cap: nat, at: nat -> Shared, j: nat, b: Body, es: seq<BodyEvent>)
    decreases |es|
  {
    if es == [] then Paused(cap, b)
    else
      BodyEnabled(cap, at(j), b, es[0]) &&
      var c := BodyNext(cap, at(j), b, es[0]);
      if Returns(es[0], c) then |es| == 1 else IsPollAt(cap, at, j + 1, c, es[1..])
  }

  function AfterPollAt(cap: nat, at: nat -> Shared, j: nat, b: Body, es: seq<BodyEvent>): Body
    requires IsPollAt(cap, at, j, b, es)
    decreases |es|
  {
    if es == [] then b
    else
      var c := BodyNext(cap, at(j), b, es[0]);
      if Returns(es[0], c) then c else AfterPollAt(cap, at, j + 1, c, es[1..])
  }

  /** If the entry stands still, this is a poll in the sense of whole polls. */
  lemma {:induction false} StillEntry(cap: nat, at: nat -> Shared, j: nat, sh: Shared, b: Body, es: seq<BodyEvent>)
    requires forall k :: at(k) == sh
    ensures IsPollAt(cap, at, j, b, es) <==> IsPoll(cap, sh, b, es)
    ensures IsPoll(cap, sh, b, es) ==> AfterPollAt(cap, at, j, b, es) == AfterPoll(cap, sh, b, es)
    decreases |es|
  {
    if es != [] && BodyEnabled(cap, sh, b, es[0]) {
      StillEntry(cap, at, j + 1, sh, BodyNext(cap, sh, b, es[0]), es[1..]);
    }
  }

  /** What the others do before each step of the call; `at` are the moments between. */
  predicate Meanwhile(cfg: Setup, f: Fetch, i: nat, es: seq<BodyEvent>, gaps: seq<seq<Event>>, at: nat -> Shared,
                      j: nat)
    decreases |es|
  {
    es != [] ==>
      && gaps != [] && (forall e :: e in gaps[0] ==> !(e.Consumer? && e.body == i))
      && Run(cfg, f, gaps[0]).Some?
      && var g := Run(cfg, f, gaps[0]).value;
         && at(j) == g.sh && i < |g.bodies|
         && (BodyEnabled(cfg.cap, g.sh, g.bodies[i], es[0]) ==>
               Meanwhile(cfg, Next(cfg, g, Consumer(i, es[0])), i, es[1..], gaps[1..], at, j + 1))
  }

  function Interleave(i: nat, es: seq<BodyEvent>, gaps: seq<seq<Event>>): seq<Event>
    decreases |es|
  {
    if es == [] || gaps == [] then [] else gaps[0] + [Consumer(i, es[0])] + Interleave(i, es[1..], gaps[1..])
  }

  lemma {:induction false} OthersLeaveBody(cfg: Setup, f: Fetch, i: nat, events: seq<Event>)
    requires i < |f.bodies| && Run(cfg, f, events).Some? && (f.bodies[i].state.Waiting? ==> f.bodies[i].state.notified)
    requires forall e :: e in events ==> !(e.Consumer? && e.body == i)
    ensures var g := Run(cfg, f, events).value; i < |g.bodies| && g.bodies[i] == f.bodies[i]
    decreases |events|
  {
    if events != [] {
      assert events[0] in events;
      OthersLeaveBody(cfg, Next(cfg, f, events[0]), i, events[1..]);
    }
  }

  /** A call that is not paused from the start is a part of a run of everybody: its
      steps in their order, with whatever the others do in between. */
  lemma {:induction false} MovingPollIsRun(cfg: Setup, f: Fetch, i: nat, es: seq<BodyEvent>, gaps: seq<seq<Event>>,
                                           at: nat -> Shared, j: nat)
    requires i < |f.bodies| && IsPollAt(cfg.cap, at, j, f.bodies[i], es) && Meanwhile(cfg, f, i, es, gaps, at, j)
    requires f.bodies[i].state.Waiting? && es != [] ==> f.bodies[i].state.notified
    ensures var r := Run(cfg, f, Interleave(i, es, gaps));
            r.Some? && i < |r.value.bodies| && r.value.bodies[i] == AfterPollAt(cfg.cap, at, j, f.bodies[i], es)
    decreases |es|
  {
    if es != [] {
      OthersLeaveBody(cfg, f, i, gaps[0]);
      var g := Run(cfg, f, gaps[0]).value;
      var c := Consumer(i, es[0]);
      var h := Next(cfg, g, c);
      RunOne(cfg, g, c);
      RunAppend(cfg, f, gaps[0], [c]);
      RunAppend(cfg, f, gaps[0] + [c], Interleave(i, es[1..], gaps[1..]));
      if Returns(es[0], h.bodies[i]) {
        assert es[1..] == [] && Run(cfg, h, []) == Some(h);
      } else {
        MovingPollIsRun(cfg, h, i, es[1..], gaps[1..], at, j + 1);
      }
    }
  }

  lemma RunOne(cfg: Setup, f: Fetch, e: Event)
    requires Enabled(cfg, f, e)
    ensures Run(cfg, f, [e]) == Some(Next(cfg, f, e))
  {
    assert [e][1..] == [];
  }

  /** Steps after none of which `poll_frame` returns. */
  predicate Leads(cap: nat, at: nat -> Shared, j: nat, b: Body, es: seq<BodyEvent>, c: Body)
    decreases |es|
  {
    if es == [] then b == c
    else
      BodyEnabled(cap, at(j), b, es[0]) && !Returns(es[0], BodyNext(cap, at(j), b, es[0])) &&
      Leads(cap, at, j + 1, BodyNext(cap, at(j), b, es[0]), es[1..], c)
  }

  lemma {:induction false} LeadsMore(cap: nat, at: nat -> Shared, j: nat, b: Body, es: seq<BodyEvent>, c: Body,
                                     e: BodyEvent)
    requires Leads(cap, at, j, b, es, c) && BodyEnabled(cap, at(j + |es|), c, e)
    ensures var d := BodyNext(cap, at(j + |es|), c, e);
            && (!Returns(e, d) ==> Leads(cap, at, j, b, es + [e], d))
            && (Returns(e, d) ==> IsPollAt(cap, at, j, b, es + [e]) && AfterPollAt(cap, at, j, b, es + [e]) == d)
    decreases |es|
  {
    if es == [] {
      assert (es + [e])[1..] == [];
    } else {
      assert (es + [e])[1..] == es[1..] + [e];
      LeadsMore(cap, at, j + 1, BodyNext(cap, at(j), b, es[0]), es[1..], c, e);
    }
  }

  lemma {:induction false} LeadsToPause(cap: nat, at: nat -> Shared, j: nat, b: Body, es: seq<BodyEvent>, c: Body)
    requires Leads(cap, at, j, b, es, c) && Paused(cap, c)
    ensures IsPollAt(cap, at, j, b, es) && AfterPollAt(cap, at, j, b, es) == c
    decreases |es|
  {
    if es != [] {
      LeadsToPause(cap, at, j + 1, BodyNext(cap, at(j), b, es[0]), es[1..], c);
    }
  }

  /** A call that is bound to return: with a chunk capacity of zero, only when there
      never is anything to read. */
  ghost predicate Unblocked(cap: nat, at: nat -> Shared, b: Body) {
    || cap >= 1 || Terminal(b) || (b.state.Waiting? && !b.state.notified)
    || (!b.state.Reading? && !b.state.Opened? && forall j :: at(j).written <= |b.delivered|)
  }

  /** The body of one response. Its waker and the bytes it has handed out are
      history; the offset is what the source keeps. */
  class PullThroughBody {
    const cap: nat
    var state: BodyState
    var offset: nat
    ghost var delivered: Bytes

    ghost predicate Valid()
      reads this
    {
      offset == |delivered|
    }

    constructor (cap: nat)
      ensures Valid() && this.cap == cap && Value() == Body(Idle, [])
    {
      this.cap := cap;
      state := Idle;
      offset := 0;
      delivered := [];
    }

    ghost function Value(): Body
      reads this
    {
      Body(state, delivered)
    }

    /** What holds at the head of the loop: the steps so far. */
    ghost predicate Mid(at: nat -> Shared, n: nat, start: Body, es: seq<BodyEvent>)
      reads this
    {
      && Valid() && |es| == n && Unblocked(cap, at, Value()) && (forall j :: at(j).visible <= |at(j).file|)
      && Leads(cap, at, 0, start, es, Value())
      && delivered == start.delivered && !state.Loaded? && !state.Checked?
      && (state.Reading? || state.Opened? ==> offset < state.high)
      && (Terminal(Value()) ==> Value() == start)
    }

    /** What holds when the call returns. */
    ghost predicate Returned(at: nat -> Shared, start: Body, es: seq<BodyEvent>, r: PollResult)
      reads this
    {
      && Valid() && IsPollAt(cap, at, 0, start, es) && Value() == AfterPollAt(cap, at, 0, start, es)
      && (r.Frame? ==> r.bytes != [] && delivered == start.delivered + r.bytes && state.Idle?)
      && (!r.Frame? ==> delivered == start.delivered)
      && (r.End? <==> state.Done? || Terminal(start))
      && (r.Failure? ==> state == Errored(r.error))
    }

    /** The Idle arm: three looks at the entry, at three moments. */
    method PollIdle(at: nat -> Shared, n: nat, ghost start: Body, ghost es0: seq<BodyEvent>)
      returns (r: Option<PollResult>, ghost es: seq<BodyEvent>)
      requires Mid(at, n, start, es0) && state.Idle?
      modifies this`state
      ensures r.None? ==> Mid(at, n + 1, start, es) && state.Reading?
      ensures r.Some? ==> Returned(at, start, es, r.value)
    {
      var high := at(n).written;
      LeadsMore(cap, at, 0, start, es0, Value(), Load);
      es := es0 + [Load];
      if offset < high {
        state := Reading(high);
        return None, es;
      }
      ghost var b := Value().(state := Loaded(high));
      LeadsMore(cap, at, 0, start, es, b, Check);
      es := es + [Check];
      var outcome := at(n + 1).outcome;
      if outcome.Some? {
        var result := HandleTerminal(outcome.value);
        return Some(result), es;
      }
      LeadsMore(cap, at, 0, start, es, b.(state := Checked), Register);
      es := es + [Register];
      state := Waiting(false, at(n + 2).pc.Exited?);
      r := Some(Pending);
    }

    /** The Reading arm while the file is not open yet. */
    method PollOpen(at: nat -> Shared, n: nat, answer: ReadPoll, ghost start: Body, ghost es0: seq<BodyEvent>)
      returns (r: Option<PollResult>, ghost es: seq<BodyEvent>)
      requires Mid(at, n, start, es0) && state.Reading?
      modifies this`state
      ensures r.None? ==> Mid(at, n + 1, start, es) && state.Opened? && !answer.NotYet?
      ensures r.Some? ==> Returned(at, start, es, r.value)
    {
      es := es0;
      if answer.NotYet? {
        LeadsToPause(cap, at, 0, start, es, Value());
        return Some(Pending), es;
      }
      if answer.Fails? {
        LeadsMore(cap, at, 0, start, es, Value(), ReadFails);
        es := es + [ReadFails];
        state := Errored(Io);
        return Some(Failure(Io)), es;
      }
      LeadsMore(cap, at, 0, start, es, Value(), Open);
      es := es + [Open];
      if !at(n).linked {
        state := Errored(Io);
        return Some(Failure(Io)), es;
      }
      state := Opened(state.high);
      r := None;
    }

    /** The Reading arm once the file is open. */
    method PollRead(at: nat -> Shared, n: nat, answer: ReadPoll, ghost start: Body, ghost es0: seq<BodyEvent>)
      returns (r: Option<PollResult>, ghost es: seq<BodyEvent>)
      requires Mid(at, n, start, es0) && state.Opened?
      modifies this
      ensures r.None? ==> Mid(at, n + 1, start, es) && state.Idle? && answer.Gives?
      ensures r.Some? ==> Returned(at, start, es, r.value)
    {
      es := es0;
      if answer.NotYet? || answer.OpenOnly? {
        LeadsToPause(cap, at, 0, start, es, Value());
        return Some(Pending), es;
      }
      if answer.Fails? {
        LeadsMore(cap, at, 0, start, es, Value(), ReadFails);
        es := es + [ReadFails];
        state := Errored(Io);
        return Some(Failure(Io)), es;
      }
      var bytes := ReadChunk(at(n), offset, cap, state.high, answer.n);
      LeadsMore(cap, at, 0, start, es, Value(), Read(|bytes|));
      es := es + [Read(|bytes|)];
      offset := offset + |bytes|;
      delivered := delivered + bytes;
      state := Idle;
      r := if bytes == [] then None else Some(Frame(bytes));
    }

    /** `poll_frame`, whatever happens to the shared entry during the call: its steps
        are one call on the moving entry, so a part of a run (`MovingPollIsRun`), and
        one whole poll if the entry stands still (`StillEntry`); its result tells what
        it did. It is called only where it is bound to return. */
    method PollFrame(at: nat -> Shared, answers: seq<ReadPoll>) returns (r: PollResult, ghost es: seq<BodyEvent>)
      requires Unblocked(cap, at, Value()) && forall j :: at(j).visible <= |at(j).file|
      requires Valid() && !state.Loaded? && !state.Checked? && (state.Reading? || state.Opened? ==> offset < state.high)
      modifies this
      ensures Returned(at, old(Value()), es, r)
    {
      es := [];
      ghost var start := Value();
      var i, n := 0, 0;
      var step: Option<PollResult>;
      while true
        invariant 0 <= i <= |answers| && Mid(at, n, start, es)
        decreases |answers| - i, Rank(state)
      {
        match state {
        case Done =>
          LeadsToPause(cap, at, 0, start, es, Value());
          return End, es;
        case Errored(_) =>
          LeadsToPause(cap, at, 0, start, es, Value());
          return End, es;
        case Stalled =>
          LeadsMore(cap, at, 0, start, es, Value(), Repoll);
          state := Idle;
          es := es + [Repoll];
        case Waiting(notified, _) =>
          if !notified {
            LeadsToPause(cap, at, 0, start, es, Value());
            return Pending, es;
          }
          LeadsMore(cap, at, 0, start, es, Value(), Wake);
          state := Idle;
          es := es + [Wake];
        case Idle =>
          step, es := PollIdle(at, n, start, es);
          if step.Some? { return step.value, es; }
        case Reading(_) =>
          var answer := if i < |answers| then answers[i] else NotYet;
          step, es := PollOpen(at, n, answer, start, es);
          if step.Some? { return step.value, es; }
          if answer.OpenOnly? {
            i := i + 1;
          }
        case Opened(_) =>
          var answer := if i < |answers| then answers[i] else NotYet;
          step, es := PollRead(at, n, answer, start, es);
          if step.Some? { return step.value, es; }
          i := i + 1;
        }
        n := n + 1;
      }
    }

    /** `handle_terminal`: the body has caught up with the mark it loaded. */
    method HandleTerminal(outcome: Outcome) returns (r: PollResult)
      requires Valid()
      modifies this`state
      ensures r.End? <==> outcome.Success? && offset >= outcome.finalSize
      ensures r.End? ==> state.Done?
      ensures r.Pending? <==> outcome.Success? && offset < outcome.finalSize
      ensures r.Pending? ==> state.Stalled?
      ensures outcome.Failed? ==> r == Failure(outcome.error) && state == Errored(outcome.error)
    {
      match outcome
      case Success(finalSize) =>
        if offset >= finalSize {
          state := Done;
          return End;
        }
        state := Stalled;
        r := Pending;
      case Failed(e) =>
        state := Errored(e);
        r := Failure(e);
    }
  }

  /** `read_chunk` on an open file: at most `cap` bytes, none beyond the mark, and
      only what the file shows; the system may give fewer than asked for. */
  method ReadChunk(sh: Shared, offset: nat, cap: nat, high: nat, given: nat) returns (bytes: Bytes)
    requires sh.visible <= |sh.file|
    ensures |bytes| <= cap && (bytes != [] ==> offset + |bytes| <= Min(high, sh.visible))
    ensures bytes != [] ==> bytes == sh.file[offset..offset + |bytes|]
    ensures given > 0 && cap > 0 && offset < Min(high, sh.visible) ==> bytes != []
  {
    var toRead := if offset < high then Min(high - offset, cap) else 0;
    var available := if offset < sh.visible then sh.visible - offset else 0;
    var n := Min(given, Min(toRead, available));
    bytes := if n == 0 then [] else sh.file[offset..offset + n];
  }

  // ----- table and task -----

  datatype Role = Producing | Subscribing

  class Table {
    var entries: map<Digest, PullThroughEntry>

    /** The table and its entries are those of a state of all fetches. */
    ghost predicate Mirrors(hash: Hash, w: World)
      reads this, entries.Values
    {
      && entries.Keys == w.table.Keys
      && forall d :: d in entries ==>
           w.table[d] < |w.tasks| && entries[d].Is(hash, d, w.tasks[w.table[d]].fetch.sh)
    }

    /** The same, leaving the entry of `out` aside. */
    ghost predicate MirrorsBut(out: Digest, hash: Hash, w: World)
      reads this, (entries - {out}).Values
    {
      && entries.Keys == w.table.Keys
      && forall d :: d in entries - {out} ==>
           w.table[d] < |w.tasks| && entries[d].Is(hash, d, w.tasks[w.table[d]].fetch.sh)
    }

    constructor (hash: Hash)
      ensures entries == map[] && Mirrors(hash, World(map[], []))
    {
      entries := map[];
    }

    /** `get_or_insert`: attach to the fetch in flight, or become its producer. On
        all fetches this is the step of a request. */
    method GetOrInsert(d: Digest, ghost cfg: Setup, hash: Hash, ghost w: World)
      returns (entry: PullThroughEntry, role: Role)
      requires Mirrors(hash, w)
      modifies this
      ensures Mirrors(hash, WorldNext(cfg, w, Request(d)))
      ensures d in entries && entries[d] == entry
      ensures role.Subscribing? <==> d in old(entries)
      ensures role.Subscribing? ==> entries == old(entries)
      ensures role.Producing? ==>
                && fresh(entry) && entry.trace == [] && entry.sh == Start(d).sh
                && entries == old(entries)[d := entry]
    {
      if d in entries {
        return entries[d], Subscribing;
      }
      entry := new PullThroughEntry(hash, d);
      Insert(d, entry, cfg, hash, w);
      role := Producing;
    }

    method Insert(d: Digest, entry: PullThroughEntry, ghost cfg: Setup, hash: Hash, ghost w: World)
      requires Mirrors(hash, w) && d !in entries && entry.Is(hash, d, Start(d).sh)
      modifies this
      ensures Mirrors(hash, WorldNext(cfg, w, Request(d))) && entries == old(entries)[d := entry]
    {
      entries := entries[d := entry];
    }

    method Finish(d: Digest)
      modifies this
      ensures entries == old(entries) - {d}
    {
      entries := entries - {d};
    }
  }

  function Insides(id: nat, es: seq<ProducerEvent>): seq<WorldEvent> {
    seq(|es|, j requires 0 <= j < |es| => Inside(id, Producer(es[j])))
  }

  /** `v` is `w` after work of task `id` alone. */
  ghost predicate OnlyTask(w: World, v: World, id: nat, sh: Shared) {
    && id < |w.tasks| == |v.tasks| && v.table == w.table
    && (forall j :: 0 <= j < |w.tasks| && j != id ==> v.tasks[j] == w.tasks[j])
    && v.tasks[id].fetch.digest == w.tasks[id].fetch.digest
    && v.tasks[id].fetch.sh == sh && v.tasks[id].removed == w.tasks[id].removed
  }

  /** The producer's steps are steps of its task among all fetches. */
  lemma {:induction false} TraceIsWorldRun(cfg: Setup, w: World, id: nat, es: seq<ProducerEvent>)
    requires id < |w.tasks|
    requires ProducerRun(cfg.hash, w.tasks[id].fetch.digest, w.tasks[id].fetch.sh, es).Some?
    ensures WorldRun(cfg, w, Insides(id, es)).Some?
    ensures OnlyTask(w, WorldRun(cfg, w, Insides(id, es)).value, id,
                     ProducerRun(cfg.hash, w.tasks[id].fetch.digest, w.tasks[id].fetch.sh, es).value)
    decreases |es|
  {
    if es != [] {
      var e := Inside(id, Producer(es[0]));
      assert Insides(id, es)[0] == e && Insides(id, es)[1..] == Insides(id, es[1..]);
      TraceIsWorldRun(cfg, WorldNext(cfg, w, e), id, es[1..]);
    }
  }

  lemma {:induction false} WorldRunMore(cfg: Setup, w: World, es: seq<WorldEvent>, e: WorldEvent)
    requires WorldRun(cfg, w, es).Some? && WorldEnabled(cfg, WorldRun(cfg, w, es).value, e)
    ensures WorldRun(cfg, w, es + [e]) == Some(WorldNext(cfg, WorldRun(cfg, w, es).value, e))
    decreases |es|
  {
    if es == [] {
      assert (es + [e])[1..] == [];
    } else {
      assert (es + [e])[1..] == es[1..] + [e];
      WorldRunMore(cfg, WorldNext(cfg, w, es[0]), es[1..], e);
    }
  }

  /** The two arms of the task up to the outcome: upstream refuses, or the producer
      runs on its stream. */
  method Drive(entry: PullThroughEntry, answer: Option<seq<StreamItem>>, io: Faults) returns (final: Option<Bytes>)
    requires entry.Valid() && entry.sh == Start(entry.digest).sh
    modifies entry
    ensures entry.Valid() && entry.sh.pc.Exited? && entry.sh.sends == 1 && final == entry.sh.promoted
    ensures final.Some? ==> answer.Some? && final.value == Received(answer.value) && entry.written == |final.value|
    ensures final.Some? <==> entry.outcome.Some? && entry.outcome.value.Success?
  {
    if answer.None? {
      entry.Record(ConnectFails);
      entry.Finish(Failed(Upstream));
      return None;
    }
    entry.Record(Connects);
    var r;
    r, final := RunProducer(entry, answer.value, io);
  }

  /** The steps of the task: those of its producer, then the removal from the table. */
  lemma TaskSteps(cfg: Setup, w: World, id: nat, trace: seq<ProducerEvent>) returns (es: seq<WorldEvent>, v: World)
    requires WorldInv(cfg, w) && id < |w.tasks| && !w.tasks[id].removed
    requires w.tasks[id].fetch.sh == Start(w.tasks[id].fetch.digest).sh
    requires var r := ProducerRun(cfg.hash, w.tasks[id].fetch.digest, w.tasks[id].fetch.sh, trace);
             r.Some? && r.value.pc.Exited?
    ensures es == Insides(id, trace) + [TableFinish(id)] && WorldRun(cfg, w, es) == Some(v) && WorldInv(cfg, v)
    ensures v.table == w.table - {w.tasks[id].fetch.digest} && |v.tasks| == |w.tasks|
    ensures v.tasks[id].removed && v.tasks[id].fetch.sh.pc.Exited?
    ensures forall d :: d in w.table && d != w.tasks[id].fetch.digest ==> v.tasks[w.table[d]] == w.tasks[w.table[d]]
  {
    TraceIsWorldRun(cfg, w, id, trace);
    var u := WorldRun(cfg, w, Insides(id, trace)).value;
    WorldRunMore(cfg, w, Insides(id, trace), TableFinish(id));
    es := Insides(id, trace) + [TableFinish(id)];
    v := WorldNext(cfg, u, TableFinish(id));
    WorldRunKeepsInv(cfg, w, es);
  }

  /** The entry leaves the table after its task has driven it to the end. */
  method LeaveTable(table: Table, digest: Digest, ghost hash: Hash, ghost w: World, ghost v: World)
    requires table.MirrorsBut(digest, hash, w) && v.table == w.table - {digest} && |v.tasks| == |w.tasks|
    requires forall d :: d in w.table && d != digest && w.table[d] < |w.tasks| ==>
               v.tasks[w.table[d]] == w.tasks[w.table[d]]
    modifies table
    ensures table.Mirrors(hash, v) && table.entries == old(table.entries) - {digest}
  {
    table.Finish(digest);
  }

  lemma MirrorsWithout(table: Table, hash: Hash, w: World, d: Digest)
    requires table.Mirrors(hash, w) && d in table.entries
    ensures table.MirrorsBut(d, hash, w) && table.entries[d] !in (table.entries - {d}).Values
  {
  }

  /** Driving one entry leaves the others as they are. */
  method DriveAside(table: Table, entry: PullThroughEntry, answer: Option<seq<StreamItem>>, io: Faults,
                    ghost hash: Hash, ghost w: World)
    returns (final: Option<Bytes>)
    requires table.Mirrors(hash, w) && entry.digest in table.entries && table.entries[entry.digest] == entry
    requires entry.sh == Start(entry.digest).sh
    modifies entry
    ensures entry.Valid() && entry.sh.pc.Exited? && entry.sh.sends == 1 && final == entry.sh.promoted
    ensures final.Some? ==> answer.Some? && final.value == Received(answer.value) && entry.written == |final.value|
    ensures final.Some? <==> entry.outcome.Some? && entry.outcome.value.Success?
    ensures table.MirrorsBut(entry.digest, hash, w)
  {
    MirrorsWithout(table, hash, w, entry.digest);
    final := Drive(entry, answer, io);
  }

  /** Drives the entry to its end; the rest of the table does not notice. */
  method DriveTask(table: Table, entry: PullThroughEntry, answer: Option<seq<StreamItem>>, io: Faults,
                   ghost cfg: Setup, ghost w: World, ghost id: nat)
    returns (final: Option<Bytes>, ghost es: seq<WorldEvent>, ghost v: World)
    requires WorldInv(cfg, w) && table.Mirrors(cfg.hash, w)
    requires entry.digest in table.entries && table.entries[entry.digest] == entry && w.table[entry.digest] == id
    requires entry.sh == Start(entry.digest).sh && entry.trace == []
    modifies entry
    ensures entry.outcome.Some? && entry.sh.sends == 1 && (final.Some? <==> entry.outcome.value.Success?)
    ensures final.Some? ==> answer.Some? && final.value == Received(answer.value) && entry.written == |final.value|
    ensures final.Some? ==> cfg.hash(final.value) == entry.digest
    ensures entry.Valid() && final == entry.sh.promoted
    ensures table.MirrorsBut(entry.digest, cfg.hash, w)
    ensures es == Insides(id, entry.trace) + [TableFinish(id)] && WorldRun(cfg, w, es) == Some(v) && WorldInv(cfg, v)
    ensures v.table == w.table - {entry.digest} && |v.tasks| == |w.tasks|
    ensures forall d :: d in w.table && d != entry.digest && w.table[d] < |w.tasks| ==>
              v.tasks[w.table[d]] == w.tasks[w.table[d]]
  {
    final := DriveAside(table, entry, answer, io, cfg.hash, w);
    es, v := TaskSteps(cfg, w, id, entry.trace);
  }

  /** The task spawned for a producer, whatever upstream does: its steps are a run
      of all fetches in which the outcome is sent, once, before the entry leaves the
      table, and no other entry is touched. */
  method RunTask(table: Table, entry: PullThroughEntry, answer: Option<seq<StreamItem>>, io: Faults,
                 ghost cfg: Setup, ghost w: World, ghost id: nat)
    returns (final: Option<Bytes>, ghost es: seq<WorldEvent>, ghost v: World)
    requires WorldInv(cfg, w) && table.Mirrors(cfg.hash, w)
    requires entry.digest in table.entries && table.entries[entry.digest] == entry && w.table[entry.digest] == id
    requires entry.sh == Start(entry.digest).sh && entry.trace == []
    modifies table, entry
    ensures es == Insides(id, entry.trace) + [TableFinish(id)] && WorldRun(cfg, w, es) == Some(v)
    ensures WorldInv(cfg, v) && table.Mirrors(cfg.hash, v) && table.entries == old(table.entries) - {entry.digest}
    ensures entry.outcome.Some? && entry.sh.sends == 1 && (final.Some? <==> entry.outcome.value.Success?)
    ensures final.Some? ==>
              && answer.Some? && final.value == Received(answer.value)
              && cfg.hash(final.value) == entry.digest && entry.written == |final.value|
    ensures entry.Valid() && final == entry.sh.promoted
  {
    final, es, v := DriveTask(table, entry, answer, io, cfg, w, id);
    LeaveTable(table, entry.digest, cfg.hash, w, v);
  }

  function Produced(trace: seq<ProducerEvent>): seq<PullThrough.Event> {
    seq(|trace|, j requires 0 <= j < |trace| => Producer(trace[j]))
  }

  /** The producer's steps are a run of its fetch. */
  lemma {:induction false} TraceIsRun(cfg: Setup, f: Fetch, trace: seq<ProducerEvent>)
    requires ProducerRun(cfg.hash, f.digest, f.sh, trace).Some?
    ensures Run(cfg, f, Produced(trace)).Some?
    ensures Run(cfg, f, Produced(trace)).value.sh == ProducerRun(cfg.hash, f.digest, f.sh, trace).value
    decreases |trace|
  {
    if trace != [] {
      assert Produced(trace)[0] == Producer(trace[0]) && Produced(trace)[1..] == Produced(trace[1..]);
      TraceIsRun(cfg, Next(cfg, f, Producer(trace[0])), trace[1..]);
    }
  }

}
