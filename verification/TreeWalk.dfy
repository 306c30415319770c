/** Walking a directory tree with a stack of directories still to visit. The
    collector's search for repositories and the two startup scans are such walks;
    they differ in which directories they push.

    The directory tree is the set of its directories, each given by its path
    components below the root; the root is `[]`. */
module TreeWalk {

  import opened Base

  /** Every directory but the root lies in a directory. */
  predicate IsTree(folders: set<Repo>) {
    forall p :: p in folders && p != [] ==> p[..|p| - 1] in folders
  }

  function Parent(p: Repo): Repo {
    if p == [] then [] else p[..|p| - 1]
  }

  lemma {:induction false} RootAbove(folders: set<Repo>, p: Repo)
    requires IsTree(folders) && p in folders
    ensures forall k :: 0 <= k <= |p| ==> p[..k] in folders
    decreases |p|
  {
    if p != [] {
      RootAbove(folders, p[..|p| - 1]);
      forall k | 0 <= k <= |p| ensures p[..k] in folders {
        if k < |p| { assert p[..|p| - 1][..k] == p[..k]; } else { assert p[..k] == p; }
      }
    }
  }

  /** A walk: `enter` are the directories it means to visit, `push` says which it
      pushes after it has listed one. It pushes only children, all of which it
      means to visit, and the next directory on the way to any other it means to visit. */
  ghost predicate IsWalk(folders: set<Repo>, enter: Repo -> bool, push: (Repo, Repo) -> bool) {
    && (forall p :: enter(p) ==> p in folders && [] in folders)
    && (forall dir, c :: enter(dir) && push(dir, c) ==> enter(c) && c != [] && Parent(c) == dir)
    && (forall dir, p :: enter(p) && dir < p ==> push(dir, p[..|dir| + 1]))
  }

  ghost predicate StackInv(enter: Repo -> bool, stack: seq<Repo>, seen: set<Repo>) {
    && NoDuplicates(stack)
    && forall i :: 0 <= i < |stack| ==>
         && enter(stack[i]) && stack[i] !in seen
         && (stack[i] != [] ==> Parent(stack[i]) in seen)
  }

  ghost predicate SeenInv(enter: Repo -> bool, seen: set<Repo>) {
    forall p :: p in seen ==> enter(p) && (p != [] ==> Parent(p) in seen)
  }

  ghost predicate Pending(stack: seq<Repo>, p: Repo) {
    exists i :: 0 <= i < |stack| && stack[i] <= p
  }

  ghost predicate Covered(enter: Repo -> bool, stack: seq<Repo>, seen: set<Repo>) {
    forall p :: enter(p) ==> p in seen || Pending(stack, p)
  }

  ghost predicate WalkInv(folders: set<Repo>, enter: Repo -> bool, stack: seq<Repo>, seen: set<Repo>) {
    StackInv(enter, stack, seen) && SeenInv(enter, seen) && Covered(enter, stack, seen) && seen <= folders
  }

  /** Whether the root exists decides where the walk starts. */
  function StartOf(folders: set<Repo>): seq<Repo> {
    if [] in folders then [[]] else []
  }

  lemma WalkStarts(folders: set<Repo>, enter: Repo -> bool, push: (Repo, Repo) -> bool)
    requires IsWalk(folders, enter, push) && ([] in folders ==> enter([]))
    ensures WalkInv(folders, enter, StartOf(folders), {})
  {
    forall p | enter(p) ensures Pending(StartOf(folders), p) {
      assert StartOf(folders)[0] <= p;
    }
  }

  lemma StackStep(folders: set<Repo>, enter: Repo -> bool, push: (Repo, Repo) -> bool,
                  stack: seq<Repo>, seen: set<Repo>, dir: Repo, pushed: seq<Repo>)
    requires IsWalk(folders, enter, push) && SeenInv(enter, seen) && StackInv(enter, stack + [dir], seen)
    requires NoDuplicates(pushed) && forall i :: 0 <= i < |pushed| ==> push(dir, pushed[i])
    ensures dir !in seen && enter(dir)
    ensures StackInv(enter, stack + pushed, seen + {dir}) && SeenInv(enter, seen + {dir})
  {
    var full := stack + [dir];
    assert full[|stack|] == dir;
    assert forall i :: 0 <= i < |stack| ==> full[i] == stack[i];
    forall i | 0 <= i < |pushed| ensures enter(pushed[i]) && pushed[i] !in seen && pushed[i] != dir {
      assert push(dir, pushed[i]);
    }
  }

  lemma CoverStep(folders: set<Repo>, enter: Repo -> bool, push: (Repo, Repo) -> bool,
                  stack: seq<Repo>, seen: set<Repo>, dir: Repo, pushed: seq<Repo>)
    requires IsWalk(folders, enter, push) && Covered(enter, stack + [dir], seen)
    requires forall c :: push(dir, c) ==> c in pushed
    ensures Covered(enter, stack + pushed, seen + {dir})
  {
    var full, now := stack + [dir], stack + pushed;
    forall p | enter(p) && p !in seen && p != dir ensures Pending(now, p) {
      var i :| 0 <= i < |full| && full[i] <= p;
      if i < |stack| {
        assert now[i] <= p;
      } else {
        var c := p[..|dir| + 1];
        assert push(dir, c);
        var j :| 0 <= j < |pushed| && pushed[j] == c;
        assert now[|stack| + j] <= p;
      }
    }
  }

  /** Visiting one directory. */
  lemma WalkStep(folders: set<Repo>, enter: Repo -> bool, push: (Repo, Repo) -> bool,
                 stack: seq<Repo>, seen: set<Repo>, dir: Repo, pushed: seq<Repo>)
    requires IsWalk(folders, enter, push) && WalkInv(folders, enter, stack + [dir], seen)
    requires NoDuplicates(pushed) && forall c :: c in pushed <==> push(dir, c)
    ensures WalkInv(folders, enter, stack + pushed, seen + {dir})
    ensures dir !in seen && enter(dir) && dir in folders
  {
    StackStep(folders, enter, push, stack, seen, dir, pushed);
    CoverStep(folders, enter, push, stack, seen, dir, pushed);
  }

  /** In the end exactly the directories it means to visit have been visited. */
  lemma WalkEnds(folders: set<Repo>, enter: Repo -> bool, seen: set<Repo>)
    requires WalkInv(folders, enter, [], seen)
    ensures forall p :: p in seen <==> enter(p)
  {
    forall p | enter(p) ensures p in seen {
      assert p in seen || Pending([], p);
    }
  }

  /** Lists the subdirectories to visit next, in whatever order. */
  method Listed(children: set<Repo>) returns (order: seq<Repo>)
    ensures NoDuplicates(order)
    ensures forall c :: c in order <==> c in children
  {
    order := [];
    var rest := children;
    while rest != {}
      invariant rest <= children && NoDuplicates(order)
      invariant forall c :: c in order <==> c in children && c !in rest
    {
      var c :| c in rest;
      order := order + [c];
      rest := rest - {c};
    }
  }

}
