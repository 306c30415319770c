/** Concurrent `set` and `remove` calls on the local tags, step by step
    (local_tags.rs:85-144): take the lock of the repository, update memory, take
    the snapshot, write the temp file, rename it over the sidecar, unlock. Any
    number of callers, any interleaving, and any number of crashes, after each of
    which the tags are read back from the sidecars. Writes succeed. */
module LocalTagsConcurrency {

  import opened Base
  import opened Digests
  import opened LocalTags

  datatype Change = SetTag(repo: Repo, tag: string, digest: Digest) | RemoveTag(repo: Repo, tag: string)

  /** Where a caller is. `before` is history: the tags of the repository when the
      lock was taken. */
  datatype Caller =
    | Away
    | Queued(change: Change)
    | Locked(change: Change, before: TagMap)
    | Updated(change: Change, before: TagMap)
    | Snapped(change: Change, before: TagMap, snapshot: TagMap)
    | TempWritten(change: Change, before: TagMap)
    | Renamed(change: Change, before: TagMap)

  /** The temp file of a repository may be half written. */
  datatype Temp = Partial | Whole(tags: TagMap)

  datatype System = System(
    mem: map<TagKey, string>,
    sidecars: map<Repo, TagMap>,
    temps: map<Repo, Temp>,
    locks: map<Repo, nat>,
    callers: map<nat, Caller>)

  datatype Event =
    | Call(id: nat, change: Change)
    | Lock(id: nat)
    | Update(id: nat)
    | Snap(id: nat)
    | TouchTemp(id: nat)
    | WriteTemp(id: nat)
    | RenameTemp(id: nat)
    | Unlock(id: nat)

  function CallerOf(s: System, id: nat): Caller {
    if id in s.callers then s.callers[id] else Away
  }

  predicate HasLock(c: Caller) {
    !c.Away? && !c.Queued?
  }

  function After(c: Change, tags: TagMap): TagMap {
    match c
    case SetTag(_, tag, d) => tags[tag := Display(d)]
    case RemoveTag(_, tag) => tags - {tag}
  }

  predicate Enabled(s: System, e: Event) {
    var c := CallerOf(s, e.id);
    match e
    case Call(_, _) => c.Away?
    case Lock(_) => c.Queued? && c.change.repo !in s.locks
    case Update(_) => c.Locked?
    case Snap(_) => c.Updated?
    case TouchTemp(_) => c.Snapped?
    case WriteTemp(_) => c.Snapped?
    case RenameTemp(_) => c.TempWritten? && c.change.repo in s.temps && s.temps[c.change.repo].Whole?
    case Unlock(_) => c.Renamed?
  }

  function Next(s: System, e: Event): System
    requires Enabled(s, e)
  {
    var c := CallerOf(s, e.id);
    match e
    case Call(id, change) => s.(callers := s.callers[id := Queued(change)])
    case Lock(id) =>
      var repo := c.change.repo;
      s.(locks := s.locks[repo := id], callers := s.callers[id := Locked(c.change, RepoTags(s.mem, repo))])
    case Update(id) =>
      var k := (c.change.repo, c.change.tag);
      if c.change.SetTag? then
        s.(mem := s.mem[k := Display(c.change.digest)], callers := s.callers[id := Updated(c.change, c.before)])
      else if k in s.mem then
        s.(mem := s.mem - {k}, callers := s.callers[id := Updated(c.change, c.before)])
      else s.(callers := s.callers[id := Renamed(c.change, c.before)])
    case Snap(id) =>
      s.(callers := s.callers[id := Snapped(c.change, c.before, RepoTags(s.mem, c.change.repo))])
    case TouchTemp(_) => s.(temps := s.temps[c.change.repo := Partial])
    case WriteTemp(id) =>
      s.(temps := s.temps[c.change.repo := Whole(c.snapshot)],
         callers := s.callers[id := TempWritten(c.change, c.before)])
    case RenameTemp(id) =>
      var repo := c.change.repo;
      s.(sidecars := s.sidecars[repo := s.temps[repo].tags], temps := s.temps - {repo},
         callers := s.callers[id := Renamed(c.change, c.before)])
    case Unlock(id) => s.(locks := s.locks - {c.change.repo}, callers := s.callers[id := Away])
  }

  /** What startup reads back: the sidecars of the repositories it finds. */
  ghost predicate ReadsBack(mem: map<TagKey, string>, sidecars: map<Repo, TagMap>) {
    forall repo :: RepoTags(mem, repo) == if Reloadable(repo) then DiskTags(sidecars, repo) else map[]
  }

  lemma ReloadReadsBack(sidecars: map<Repo, TagMap>)
    ensures ReadsBack(ReloadTags(sidecars).mem, sidecars)
  {
    var mem := ReloadTags(sidecars).mem;
    forall repo ensures RepoTags(mem, repo) == if Reloadable(repo) then DiskTags(sidecars, repo) else map[] {
      var tags := RepoTags(mem, repo);
      forall tag ensures tag in tags <==> Reloadable(repo) && tag in DiskTags(sidecars, repo) {
        RepoTagsExact(mem, repo, tag);
      }
    }
  }

  /** A crash: locks and calls are gone, temp files stay, and the tags are those that
      startup reads back. */
  function Reloaded(s: System, mem: map<TagKey, string>): System {
    s.(mem := mem, locks := map[], callers := map[])
  }

  datatype Move = By(event: Event) | Crash(mem: map<TagKey, string>)

  ghost predicate Possible(s: System, m: Move) {
    match m
    case By(e) => Enabled(s, e)
    case Crash(mem) => ReadsBack(mem, s.sidecars)
  }

  ghost function MoveNext(s: System, m: Move): System
    requires Possible(s, m)
  {
    match m
    case By(e) => Next(s, e)
    case Crash(mem) => Reloaded(s, mem)
  }

  ghost function Run(s: System, moves: seq<Move>): Option<System>
    decreases |moves|
  {
    if moves == [] then Some(s)
    else if !Possible(s, moves[0]) then None
    else Run(MoveNext(s, moves[0]), moves[1..])
  }

  function Initial(): System {
    System(map[], map[], map[], map[], map[])
  }

  function Memory(s: System, repo: Repo): TagMap {
    RepoTags(s.mem, repo)
  }

  function OnDisk(s: System, repo: Repo): TagMap {
    DiskTags(s.sidecars, repo)
  }

  /** Locks are held by exactly the callers that went past taking them. */
  ghost predicate LockInv(s: System) {
    && (forall id :: HasLock(CallerOf(s, id)) ==>
          var repo := CallerOf(s, id).change.repo; repo in s.locks && s.locks[repo] == id)
    && (forall repo :: repo in s.locks ==>
          HasLock(CallerOf(s, s.locks[repo])) && CallerOf(s, s.locks[repo]).change.repo == repo)
  }

  /** What memory and disk hold of a repository that caller `c` has locked. */
  ghost predicate PhaseInv(s: System, c: Caller)
    requires HasLock(c)
  {
    var repo := c.change.repo;
    var after := After(c.change, c.before);
    match c
    case Locked(_, before) => Memory(s, repo) == before && OnDisk(s, repo) == before
    case Updated(_, before) => Memory(s, repo) == after && OnDisk(s, repo) == before
    case Snapped(_, before, snapshot) => Memory(s, repo) == after && OnDisk(s, repo) == before && snapshot == after
    case TempWritten(_, before) =>
      Memory(s, repo) == after && OnDisk(s, repo) == before && repo in s.temps && s.temps[repo] == Whole(after)
    case Renamed(_, _) => Memory(s, repo) == after && OnDisk(s, repo) == after
  }

  /** One repository: memory and disk are as the phase of its lock holder says, and
      agree when nobody holds the lock. */
  ghost predicate RepoInv(s: System, repo: Repo) {
    if repo in s.locks then
      var c := CallerOf(s, s.locks[repo]);
      HasLock(c) && c.change.repo == repo && PhaseInv(s, c)
    else Memory(s, repo) == OnDisk(s, repo)
  }

  lemma MemoryAfterSet(mem: map<TagKey, string>, repo: Repo, tag: string, text: string, r: Repo)
    ensures RepoTags(mem[(repo, tag) := text], r) ==
            if r == repo then RepoTags(mem, repo)[tag := text] else RepoTags(mem, r)
  {
  }

  lemma MemoryAfterRemove(mem: map<TagKey, string>, repo: Repo, tag: string, r: Repo)
    ensures RepoTags(mem - {(repo, tag)}, r) == if r == repo then RepoTags(mem, repo) - {tag} else RepoTags(mem, r)
    ensures (repo, tag) !in mem ==> RepoTags(mem, repo) - {tag} == RepoTags(mem, repo)
  {
  }

  /** What an update does to the tags of any repository. */
  lemma MemoryAfterUpdate(s: System, id: nat, r: Repo)
    requires Enabled(s, Update(id))
    ensures var c := CallerOf(s, id).change;
            Memory(Next(s, Update(id)), r) == if r == c.repo then After(c, Memory(s, r)) else Memory(s, r)
  {
    var c := CallerOf(s, id).change;
    if c.SetTag? {
      MemoryAfterSet(s.mem, c.repo, c.tag, Display(c.digest), r);
    } else {
      MemoryAfterRemove(s.mem, c.repo, c.tag, r);
    }
  }

  /** A step of one caller changes only what belongs to its repository. */
  ghost predicate Elsewhere(s: System, t: System, id: nat, repo: Repo) {
    && (forall j :: j != id ==> CallerOf(t, j) == CallerOf(s, j))
    && (forall r :: r != repo ==>
          && Memory(t, r) == Memory(s, r) && OnDisk(t, r) == OnDisk(s, r)
          && (r in t.temps <==> r in s.temps) && (r in s.temps ==> t.temps[r] == s.temps[r])
          && (r in t.locks <==> r in s.locks) && (r in s.locks ==> t.locks[r] == s.locks[r]))
  }

  lemma StepIsLocal(s: System, e: Event)
    requires Enabled(s, e) && !e.Call?
    ensures Elsewhere(s, Next(s, e), e.id, CallerOf(s, e.id).change.repo)
  {
    var t := Next(s, e);
    var repo := CallerOf(s, e.id).change.repo;
    forall r | r != repo ensures Memory(t, r) == Memory(s, r) {
      MemoryElsewhere(s, e, r);
    }
    assert forall r :: r != repo ==> OnDisk(t, r) == OnDisk(s, r);
  }

  lemma MemoryElsewhere(s: System, e: Event, r: Repo)
    requires Enabled(s, e) && !e.Call? && r != CallerOf(s, e.id).change.repo
    ensures Memory(Next(s, e), r) == Memory(s, r)
  {
    if e.Update? { MemoryAfterUpdate(s, e.id, r); }
  }

  /** Whoever takes a step holds the lock of its repository afterwards, or nobody does. */
  lemma StepOwnsRepo(s: System, e: Event)
    requires LockInv(s) && Enabled(s, e) && !e.Call?
    ensures var t := Next(s, e);
            var repo := CallerOf(s, e.id).change.repo;
            if HasLock(CallerOf(t, e.id))
            then CallerOf(t, e.id).change.repo == repo && repo in t.locks && t.locks[repo] == e.id
            else repo !in t.locks
  {
  }

  lemma UpdateKeepsPhase(s: System, id: nat)
    requires Enabled(s, Update(id)) && PhaseInv(s, CallerOf(s, id))
    ensures var c := CallerOf(Next(s, Update(id)), id); HasLock(c) && PhaseInv(Next(s, Update(id)), c)
  {
    MemoryAfterUpdate(s, id, CallerOf(s, id).change.repo);
  }

  /** The caller's own repository, after its step. */
  lemma StepKeepsOwn(s: System, e: Event)
    requires LockInv(s) && Enabled(s, e) && !e.Call? && RepoInv(s, CallerOf(s, e.id).change.repo)
    ensures RepoInv(Next(s, e), CallerOf(s, e.id).change.repo)
  {
    StepOwnsRepo(s, e);
    if e.Update? {
      UpdateKeepsPhase(s, e.id);
    }
  }

  /** Another repository is not affected. */
  lemma OthersKept(s: System, t: System, id: nat, repo: Repo, other: Repo)
    requires LockInv(s) && LockInv(t) && Elsewhere(s, t, id, repo) && other != repo && RepoInv(s, other)
    requires !CallerOf(s, id).Away? && CallerOf(s, id).change.repo == repo
    ensures RepoInv(t, other)
  {
  }

  lemma LockKeepsLocks(s: System, e: Event)
    requires LockInv(s) && Enabled(s, e) && (e.Lock? || e.Unlock?)
    ensures LockInv(Next(s, e))
  {
    var t := Next(s, e);
    var repo := CallerOf(s, e.id).change.repo;
    assert forall j :: j != e.id ==> CallerOf(t, j) == CallerOf(s, j);
    forall j | j != e.id && HasLock(CallerOf(s, j)) ensures CallerOf(s, j).change.repo != repo {
      assert s.locks[CallerOf(s, j).change.repo] == j;
    }
  }

  lemma StepKeepsLocks(s: System, e: Event)
    requires LockInv(s) && Enabled(s, e)
    ensures LockInv(Next(s, e))
  {
    var t := Next(s, e);
    if e.Lock? || e.Unlock? {
      LockKeepsLocks(s, e);
    } else {
      assert t.locks == s.locks;
      assert forall j :: j != e.id ==> CallerOf(t, j) == CallerOf(s, j);
      assert HasLock(CallerOf(t, e.id)) == HasLock(CallerOf(s, e.id));
    }
  }

  lemma CallKeepsRepo(s: System, e: Event, repo: Repo)
    requires LockInv(s) && Enabled(s, e) && e.Call? && RepoInv(s, repo)
    ensures RepoInv(Next(s, e), repo)
  {
  }

  lemma StepKeepsInv(s: System, e: Event, repo: Repo)
    requires LockInv(s) && RepoInv(s, repo) && Enabled(s, e)
    ensures LockInv(Next(s, e)) && RepoInv(Next(s, e), repo)
  {
    StepKeepsLocks(s, e);
    if e.Call? {
      CallKeepsRepo(s, e, repo);
    } else if CallerOf(s, e.id).change.repo == repo {
      StepKeepsOwn(s, e);
    } else {
      StepIsLocal(s, e);
      OthersKept(s, Next(s, e), e.id, CallerOf(s, e.id).change.repo, repo);
    }
  }

  /** A crash in any state leaves a repository in order if and only if startup finds
      it, or it has no tags on disk. */
  lemma CrashKeepsInvIff(s: System, mem: map<TagKey, string>, repo: Repo)
    requires ReadsBack(mem, s.sidecars)
    ensures LockInv(Reloaded(s, mem))
    ensures RepoInv(Reloaded(s, mem), repo) <==> Reloadable(repo) || OnDisk(s, repo) == map[]
  {
  }

  /** Every crash among the moves finds the repository again. */
  predicate FoundAgain(moves: seq<Move>, repo: Repo) {
    (exists m :: m in moves && m.Crash?) ==> Reloadable(repo)
  }

  lemma MoveKeepsInv(s: System, m: Move, repo: Repo)
    requires LockInv(s) && RepoInv(s, repo) && Possible(s, m) && (m.Crash? ==> Reloadable(repo))
    ensures LockInv(MoveNext(s, m)) && RepoInv(MoveNext(s, m), repo)
  {
    match m
    case By(e) => StepKeepsInv(s, e, repo);
    case Crash(mem) => CrashKeepsInvIff(s, mem, repo);
  }

  lemma {:induction false} RunKeepsInv(s: System, moves: seq<Move>, repo: Repo)
    requires LockInv(s) && RepoInv(s, repo) && Run(s, moves).Some? && FoundAgain(moves, repo)
    ensures LockInv(Run(s, moves).value) && RepoInv(Run(s, moves).value, repo)
    decreases |moves|
  {
    if moves != [] {
      assert moves[0] in moves && forall m :: m in moves[1..] ==> m in moves;
      MoveKeepsInv(s, moves[0], repo);
      RunKeepsInv(MoveNext(s, moves[0]), moves[1..], repo);
    }
  }

  lemma StartsWell(repo: Repo)
    ensures LockInv(Initial()) && RepoInv(Initial(), repo)
  {
  }

  /** From any state in order, in every interleaving and through any crashes: a
      repository nobody has locked has a sidecar that equals its tags in memory. */
  lemma QuietReposAgree(s0: System, moves: seq<Move>, repo: Repo)
    requires LockInv(s0) && RepoInv(s0, repo) && FoundAgain(moves, repo)
    requires Run(s0, moves).Some? && repo !in Run(s0, moves).value.locks
    ensures var s := Run(s0, moves).value; OnDisk(s, repo) == Memory(s, repo)
  {
    RunKeepsInv(s0, moves, repo);
  }

  lemma CrashDuringChange(s: System, repo: Repo)
    requires RepoInv(s, repo) && repo in s.locks
    ensures var c := CallerOf(s, s.locks[repo]);
            && HasLock(c) && c.change.repo == repo
            && AfterCrash(s, repo, if c.Renamed? then After(c.change, c.before) else c.before)
  {
    LoadRestores(s.sidecars, repo);
  }

  /** What loading the repository yields, and what startup reads back of it if it
      finds it. */
  ghost predicate AfterCrash(s: System, repo: Repo, tags: TagMap) {
    && RepoTags(LoadRepo(Tags(map[], s.sidecars), repo).mem, repo) == tags
    && forall mem :: ReadsBack(mem, s.sidecars) && Reloadable(repo) ==> RepoTags(mem, repo) == tags
  }

  /** A crash at any point of such a run: loading the repository that a change is
      being made to yields its tags from before the change or from after it, nothing
      else; from after it exactly when the rename has happened. Startup does so for
      every repository it finds. */
  lemma CrashIsAtomic(s0: System, moves: seq<Move>, repo: Repo)
    requires LockInv(s0) && RepoInv(s0, repo) && FoundAgain(moves, repo)
    requires Run(s0, moves).Some? && repo in Run(s0, moves).value.locks
    ensures var s := Run(s0, moves).value;
            var c := CallerOf(s, s.locks[repo]);
            && HasLock(c) && c.change.repo == repo
            && AfterCrash(s, repo, if c.Renamed? then After(c.change, c.before) else c.before)
  {
    RunKeepsInv(s0, moves, repo);
    CrashDuringChange(Run(s0, moves).value, repo);
  }

  // ----- one call at a time -----

  lemma {:induction false} RunMore(s: System, moves: seq<Move>, e: Event)
    requires Run(s, moves).Some? && Enabled(Run(s, moves).value, e)
    ensures Run(s, moves + [By(e)]) == Some(Next(Run(s, moves).value, e))
    decreases |moves|
  {
    if moves == [] {
      assert (moves + [By(e)])[1..] == [];
    } else {
      assert (moves + [By(e)])[1..] == moves[1..] + [By(e)];
      RunMore(MoveNext(s, moves[0]), moves[1..], e);
    }
  }

  /** What the sequential model says a change does. */
  function Done(s: System, c: Change): Tags {
    match c
    case SetTag(repo, tag, d) => Set(Tags(s.mem, s.sidecars), repo, tag, d, true)
    case RemoveTag(repo, tag) => Remove(Tags(s.mem, s.sidecars), repo, tag, true)
  }

  /** The steps of a call up to its update of memory. */
  lemma SoloUpdate(s: System, id: nat, c: Change) returns (moves: seq<Move>, t: System)
    requires CallerOf(s, id).Away? && c.repo !in s.locks
    ensures Run(s, moves) == Some(t)
    ensures t.sidecars == s.sidecars && c.repo in t.locks && t.mem == Done(s, c).mem
    ensures CallerOf(t, id) == if c.RemoveTag? && (c.repo, c.tag) !in s.mem then Renamed(c, RepoTags(s.mem, c.repo))
                               else Updated(c, RepoTags(s.mem, c.repo))
  {
    RunMore(s, [], Call(id, c));
    RunMore(s, [By(Call(id, c))], Lock(id));
    RunMore(s, [By(Call(id, c))] + [By(Lock(id))], Update(id));
    moves := [By(Call(id, c))] + [By(Lock(id))] + [By(Update(id))];
    t := Run(s, moves).value;
  }

  /** The steps from there to the rename. */
  lemma SoloWrite(s: System, before: seq<Move>, w: System, id: nat) returns (moves: seq<Move>, t: System)
    requires Run(s, before) == Some(w) && CallerOf(w, id).Updated?
    ensures Run(s, moves) == Some(t) && t.mem == w.mem && CallerOf(t, id).Renamed?
    ensures var repo := CallerOf(w, id).change.repo;
            CallerOf(t, id).change.repo == repo && t.sidecars == w.sidecars[repo := RepoTags(w.mem, repo)]
  {
    RunMore(s, before, Snap(id));
    RunMore(s, before + [By(Snap(id))], WriteTemp(id));
    RunMore(s, before + [By(Snap(id))] + [By(WriteTemp(id))], RenameTemp(id));
    moves := before + [By(Snap(id))] + [By(WriteTemp(id))] + [By(RenameTemp(id))];
    t := Run(s, moves).value;
  }

  /** A call that nobody interferes with does to memory and sidecar exactly what the
      sequential model says, and gives the lock back. */
  lemma SoloCall(s: System, id: nat, c: Change) returns (moves: seq<Move>, t: System)
    requires CallerOf(s, id).Away? && c.repo !in s.locks
    ensures Run(s, moves) == Some(t) && Tags(t.mem, t.sidecars) == Done(s, c)
    ensures CallerOf(t, id).Away? && c.repo !in t.locks
  {
    moves, t := SoloUpdate(s, id, c);
    if CallerOf(t, id).Updated? {
      moves, t := SoloWrite(s, moves, t, id);
    }
    RunMore(s, moves, Unlock(id));
    moves := moves + [By(Unlock(id))];
    t := Run(s, moves).value;
  }

}
