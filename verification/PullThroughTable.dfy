/** The table of fetches in flight, for all digests at once
    (crates/quill-pullthrough/src/table.rs and the task spawned at
    crates/quill-registry/src/routes.rs:213-268). */
module PullThroughTable {

  import opened Base
  import opened Digests
  import opened PullThrough

  /** A spawned task with its fetch; `removed` once it has called `table.finish`. */
  datatype Task = Task(fetch: Fetch, removed: bool)

  /** The table maps a digest to the index of its task. */
  datatype World = World(table: map<Digest, nat>, tasks: seq<Task>)

  datatype WorldEvent =
    | Request(digest: Digest)
    | Inside(id: nat, event: Event)
    | TableFinish(id: nat)

  predicate WorldEnabled(cfg: Setup, w: World, e: WorldEvent) {
    match e
    case Request(_) => true
    case Inside(id, ev) => id < |w.tasks| && Enabled(cfg, w.tasks[id].fetch, ev)
    case TableFinish(id) => id < |w.tasks| && !w.tasks[id].removed && w.tasks[id].fetch.sh.pc.Exited?
  }

  function WorldNext(cfg: Setup, w: World, e: WorldEvent): World
    requires WorldEnabled(cfg, w, e)
  {
    match e
    case Request(d) =>
      if d in w.table then w else World(w.table[d := |w.tasks|], w.tasks + [Task(Start(d), false)])
    case Inside(id, ev) =>
      w.(tasks := w.tasks[id := w.tasks[id].(fetch := Next(cfg, w.tasks[id].fetch, ev))])
    case TableFinish(id) =>
      World(w.table - {w.tasks[id].fetch.digest}, w.tasks[id := w.tasks[id].(removed := true)])
  }

  function WorldRun(cfg: Setup, w: World, events: seq<WorldEvent>): Option<World>
    decreases |events|
  {
    if events == [] then Some(w)
    else if !WorldEnabled(cfg, w, events[0]) then None
    else WorldRun(cfg, WorldNext(cfg, w, events[0]), events[1..])
  }

  /** The table holds exactly the tasks that have not removed themselves. */
  ghost predicate TableInv(w: World) {
    && (forall d :: d in w.table ==>
          && w.table[d] < |w.tasks| && !w.tasks[w.table[d]].removed && w.tasks[w.table[d]].fetch.digest == d)
    && (forall id :: 0 <= id < |w.tasks| && !w.tasks[id].removed ==>
          w.tasks[id].fetch.digest in w.table && w.table[w.tasks[id].fetch.digest] == id)
  }

  ghost predicate WorldInv(cfg: Setup, w: World) {
    && TableInv(w)
    && (forall id :: 0 <= id < |w.tasks| ==> Inv(cfg, w.tasks[id].fetch))
    && (forall id :: 0 <= id < |w.tasks| && w.tasks[id].removed ==> w.tasks[id].fetch.sh.pc.Exited?)
  }

  lemma WorldStepKeepsInv(cfg: Setup, w: World, e: WorldEvent)
    requires WorldInv(cfg, w) && WorldEnabled(cfg, w, e)
    ensures WorldInv(cfg, WorldNext(cfg, w, e))
  {
    match e
    case Request(d) => RequestKeepsInv(cfg, w, d);
    case Inside(id, ev) => InsideKeepsInv(cfg, w, id, ev);
    case TableFinish(id) => FinishKeepsInv(cfg, w, id);
  }

  lemma RequestKeepsInv(cfg: Setup, w: World, d: Digest)
    requires WorldInv(cfg, w)
    ensures WorldInv(cfg, WorldNext(cfg, w, Request(d)))
  {
    if d !in w.table {
      AddTask(w, d);
    }
  }

  lemma AddTask(w: World, d: Digest)
    requires TableInv(w) && d !in w.table
    ensures TableInv(World(w.table[d := |w.tasks|], w.tasks + [Task(Start(d), false)]))
  {
    var v := World(w.table[d := |w.tasks|], w.tasks + [Task(Start(d), false)]);
    assert forall id :: 0 <= id < |w.tasks| ==> v.tasks[id] == w.tasks[id];
  }

  lemma FinishKeepsInv(cfg: Setup, w: World, id: nat)
    requires WorldInv(cfg, w) && WorldEnabled(cfg, w, TableFinish(id))
    ensures WorldInv(cfg, WorldNext(cfg, w, TableFinish(id)))
  {
    var v := WorldNext(cfg, w, TableFinish(id));
    assert forall j :: 0 <= j < |w.tasks| ==> v.tasks[j].fetch == w.tasks[j].fetch;
  }

  lemma InsideKeepsInv(cfg: Setup, w: World, id: nat, ev: Event)
    requires WorldInv(cfg, w) && WorldEnabled(cfg, w, Inside(id, ev))
    ensures WorldInv(cfg, WorldNext(cfg, w, Inside(id, ev)))
  {
    FetchKeepsInv(cfg, w.tasks[id].fetch, ev);
    assert TableInv(WorldNext(cfg, w, Inside(id, ev)));
  }

  lemma FetchKeepsInv(cfg: Setup, f: Fetch, ev: Event)
    requires Inv(cfg, f) && Enabled(cfg, f, ev)
    ensures var g := Next(cfg, f, ev);
            Inv(cfg, g) && g.digest == f.digest && (f.sh.pc.Exited? ==> g.sh.pc.Exited?)
  {
    StepKeepsInv(cfg, f, ev);
    if ev.Producer? {
      ProducerOnlyAdds(cfg.hash, f.digest, f.sh, ev.producer);
    }
  }

  lemma {:induction false} WorldRunKeepsInv(cfg: Setup, w: World, events: seq<WorldEvent>)
    requires WorldInv(cfg, w) && WorldRun(cfg, w, events).Some?
    ensures WorldInv(cfg, WorldRun(cfg, w, events).value)
    decreases |events|
  {
    if events != [] {
      WorldStepKeepsInv(cfg, w, events[0]);
      WorldRunKeepsInv(cfg, WorldNext(cfg, w, events[0]), events[1..]);
    }
  }

  /** Single-flight in every run: two tasks that have not both left the table are
      never at work on one digest, so there is at most one live producer per
      digest; the table entry of a task is there exactly until the task removes
      it, and the outcome has been sent exactly once by then. */
  lemma SingleFlight(cfg: Setup, events: seq<WorldEvent>, i: nat, j: nat)
    requires WorldRun(cfg, World(map[], []), events).Some?
    requires var w := WorldRun(cfg, World(map[], []), events).value;
             i < |w.tasks| && j < |w.tasks| && w.tasks[i].fetch.digest == w.tasks[j].fetch.digest
    ensures var w := WorldRun(cfg, World(map[], []), events).value;
            var d := w.tasks[i].fetch.digest;
            && (i != j ==> w.tasks[i].removed || w.tasks[j].removed)
            && (i != j ==> w.tasks[i].fetch.sh.pc.Exited? || w.tasks[j].fetch.sh.pc.Exited?)
            && (d in w.table && w.table[d] == i <==> !w.tasks[i].removed)
            && w.tasks[i].fetch.sh.sends <= 1
            && (w.tasks[i].removed ==> w.tasks[i].fetch.sh.sends == 1 && w.tasks[i].fetch.sh.outcome.Some?)
  {
    WorldRunKeepsInv(cfg, World(map[], []), events);
    var w := WorldRun(cfg, World(map[], []), events).value;
    assert Inv(cfg, w.tasks[i].fetch);
  }

  /** `table.finish` removes by digest, and what it removes is the caller's entry. */
  lemma RemovesOwnEntry(cfg: Setup, w: World, id: nat)
    requires WorldInv(cfg, w) && WorldEnabled(cfg, w, TableFinish(id))
    ensures var d := w.tasks[id].fetch.digest;
            && d in w.table && w.table[d] == id
            && forall e :: e in w.table && e != d ==>
                 var after := WorldNext(cfg, w, TableFinish(id)).table; e in after && after[e] == w.table[e]
  {
  }

  /** Integrity of every fetch in every run of all of them together. */
  lemma EveryFetchIsSound(cfg: Setup, events: seq<WorldEvent>, id: nat, i: nat)
    requires WorldRun(cfg, World(map[], []), events).Some?
    requires var w := WorldRun(cfg, World(map[], []), events).value; id < |w.tasks| && i < |w.tasks[id].fetch.bodies|
    ensures var f := WorldRun(cfg, World(map[], []), events).value.tasks[id].fetch;
            && Prefix(f.bodies[i].delivered, f.sh.received)
            && (f.bodies[i].state.Done? ==> cfg.hash(f.bodies[i].delivered) == f.digest)
            && (f.sh.promoted.Some? ==> cfg.hash(f.sh.promoted.value) == f.digest)
  {
    WorldRunKeepsInv(cfg, World(map[], []), events);
    var f := WorldRun(cfg, World(map[], []), events).value.tasks[id].fetch;
    assert Inv(cfg, f);
    assert BodyInv(f.sh, f.bodies[i]);
  }

}
