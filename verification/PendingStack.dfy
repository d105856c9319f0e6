/** The invariant of the explicit stack that decodes a dependency graph in postorder. */
module PendingStack {
  import opened Wrappers
  import opened Graph

  /** Pending entries, the last one on top; an expanded entry waits for its dependencies. */
  type Pending = seq<(nat, bool)>

  function Pop<T>(s: seq<T>): seq<T>
    requires s != []
  {
    s[..|s| - 1]
  }

  function Top<T>(s: seq<T>): T
    requires s != []
  {
    s[|s| - 1]
  }

  ghost function Elements(s: seq<nat>): (r: set<nat>)
    ensures forall d :: d in r <==> d in s
  {
    set d | d in s
  }

  /** What expanding pushes for the dependencies from i on: the uncached ones, the first of them last. */
  ghost function PushedFrom(offsets: seq<nat>, i: nat, have: set<nat>): Pending
    requires i <= |offsets|
    decreases |offsets| - i
  {
    if i == |offsets| then []
    else PushedFrom(offsets, i + 1, have) + (if offsets[i] in have then [] else [(offsets[i], false)])
  }

  /** Entry o lies directly above the given dependency path, or is the root at the bottom. */
  ghost predicate Follows<F>(g: Graph<F>, root: nat, rest: Pending, path: seq<nat>, o: nat) {
    if path == [] then rest == [] && o == root else DependsOn(g, Top(path), o)
  }

  /**
   * The expanded entries, bottom to top, are exactly path; each entry depends on the expanded entry
   * below it; and every dependency of an expanded entry is in have or lies above it.
   */
  ghost predicate StackOk<F>(g: Graph<F>, root: nat, stack: Pending, path: seq<nat>, have: set<nat>)
    decreases |stack|
  {
    if stack == [] then path == []
    else
      var o := Top(stack).0;
      if Top(stack).1 then
        && path != [] && Top(path) == o
        && (forall d | DependsOn(g, o, d) :: d in have)
        && Follows(g, root, Pop(stack), Pop(path), o)
        && StackOk(g, root, Pop(stack), Pop(path), have + {o})
      else
        && Follows(g, root, Pop(stack), path, o)
        && StackOk(g, root, Pop(stack), path, have + {o})
  }

  /** The expanded entries form a dependency path from the root that visits no record twice. */
  ghost predicate PathOk<F>(g: Graph<F>, root: nat, path: seq<nat>) {
    path != [] ==>
      && IsPath(g, path)
      && path[0] == root
      && forall i, j :: 0 <= i < j < |path| ==> path[i] != path[j]
  }

  lemma {:induction false} StackMore<F>(g: Graph<F>, root: nat, stack: Pending, path: seq<nat>, have: set<nat>,
                                        more: set<nat>)
    requires StackOk(g, root, stack, path, have) && have <= more
    ensures StackOk(g, root, stack, path, more)
    decreases |stack|
  {
    if stack != [] {
      var o := Top(stack).0;
      StackMore(g, root, Pop(stack), if Top(stack).1 then Pop(path) else path, have + {o}, more + {o});
    }
  }

  lemma PathPops<F>(g: Graph<F>, root: nat, path: seq<nat>)
    requires PathOk(g, root, path) && path != []
    ensures PathOk(g, root, Pop(path))
  {
    if |path| > 1 {
      SubPath(g, path, 0, |path| - 1);
      assert path[0..|path| - 1] == Pop(path);
    }
  }

  /** The top entry is reached from the root along the path below it. */
  lemma TopIsReached<F>(g: Graph<F>, root: nat, stack: Pending, path: seq<nat>, have: set<nat>)
    requires stack != [] && StackOk(g, root, stack, path, have) && PathOk(g, root, path)
    ensures var below := if Top(stack).1 then Pop(path) else path;
            IsPath(g, below + [Top(stack).0]) && (below + [Top(stack).0])[0] == root
  {
    var o := Top(stack).0;
    var below := if Top(stack).1 then Pop(path) else path;
    if Top(stack).1 {
      PathPops(g, root, path);
    }
    if below != [] {
      PathExtend(g, below, o);
    } else {
      assert below + [o] == [root];
    }
  }

  /** Skipping a cached entry. */
  lemma Skip<F>(g: Graph<F>, root: nat, stack: Pending, path: seq<nat>, have: set<nat>)
    requires stack != [] && !Top(stack).1 && StackOk(g, root, stack, path, have) && Top(stack).0 in have
    ensures StackOk(g, root, Pop(stack), path, have)
    ensures Pop(stack) == [] && path == [] ==> Top(stack).0 == root
  {
    assert have + {Top(stack).0} == have;
  }

  /** An empty stack has an empty path. */
  lemma NothingPending<F>(g: Graph<F>, root: nat, stack: Pending, path: seq<nat>, have: set<nat>)
    requires StackOk(g, root, stack, path, have)
    ensures stack == [] ==> path == []
  {
  }

  /** Skipping an expanded entry whose offset was cached, as whatever kind, while it waited. */
  lemma SkipExpanded<F>(g: Graph<F>, root: nat, stack: Pending, path: seq<nat>, have: set<nat>)
    requires stack != [] && Top(stack).1 && StackOk(g, root, stack, path, have) && PathOk(g, root, path)
    requires Top(stack).0 in have
    ensures path != [] && StackOk(g, root, Pop(stack), Pop(path), have) && PathOk(g, root, Pop(path))
    ensures Pop(stack) == [] ==> Top(stack).0 == root
  {
    assert have + {Top(stack).0} == have;
    Finish(g, root, stack, path, have);
  }

  /** Expanding an entry that is on no path below it. */
  lemma Expand<F>(g: Graph<F>, root: nat, rest: Pending, o: nat, path: seq<nat>, have: set<nat>, deps: seq<nat>)
    requires StackOk(g, root, rest + [(o, false)], path, have) && PathOk(g, root, path)
    requires o !in path && forall d | DependsOn(g, o, d) :: d in deps
    ensures StackOk(g, root, rest + [(o, true)], path + [o], have + Elements(deps))
    ensures PathOk(g, root, path + [o])
  {
    var stack, pushed := rest + [(o, false)], rest + [(o, true)];
    assert Pop(stack) == rest && Pop(pushed) == rest && Pop(path + [o]) == path;
    StackMore(g, root, rest, path, have + {o}, have + Elements(deps) + {o});
    TopIsReached(g, root, stack, path, have);
  }

  /** Pushing a dependency of the expanded entry on top of the path. */
  lemma Push<F>(g: Graph<F>, root: nat, stack: Pending, path: seq<nat>, have: set<nat>, child: nat)
    requires StackOk(g, root, stack, path, have + {child})
    requires path != [] && DependsOn(g, Top(path), child)
    ensures StackOk(g, root, stack + [(child, false)], path, have)
  {
    assert Pop(stack + [(child, false)]) == stack;
  }

  /** Building the expanded entry on top: its dependencies are all in have. */
  lemma Finish<F>(g: Graph<F>, root: nat, stack: Pending, path: seq<nat>, have: set<nat>)
    requires stack != [] && Top(stack).1 && StackOk(g, root, stack, path, have) && PathOk(g, root, path)
    ensures path != [] && Top(path) == Top(stack).0 && Top(stack).0 !in Pop(path)
    ensures StackOk(g, root, Pop(stack), Pop(path), have + {Top(stack).0}) && PathOk(g, root, Pop(path))
    ensures forall d | DependsOn(g, Top(stack).0, d) :: d in have
    ensures Pop(stack) == [] ==> Top(stack).0 == root
  {
    PathPops(g, root, path);
    if Pop(stack) == [] {
      assert StackOk(g, root, [], Pop(path), have + {Top(stack).0});
      assert Pop(path) == [];
    }
  }

  /** Some record at or below the root has unreadable fields or dependencies. */
  ghost predicate BrokenBelow<F>(g: Graph<F>, root: nat) {
    exists o :: Reaches(g, root, o) && (g.fields(o).Fail? || g.deps(o).Fail?)
  }

  lemma BrokenTop<F>(g: Graph<F>, root: nat, stack: Pending, path: seq<nat>, have: set<nat>)
    requires stack != [] && StackOk(g, root, stack, path, have) && PathOk(g, root, path)
    requires g.fields(Top(stack).0).Fail? || g.deps(Top(stack).0).Fail?
    ensures BrokenBelow(g, root)
  {
    TopIsReached(g, root, stack, path, have);
    var p := (if Top(stack).1 then Pop(path) else path) + [Top(stack).0];
    assert p[|p| - 1] == Top(stack).0 && Reaches(g, root, Top(stack).0);
  }

  /** A dependency path from the root that comes back to the offset it ends at. */
  ghost predicate IsCycleFrom<F>(g: Graph<F>, root: nat, o: nat) {
    exists p: seq<nat> :: IsPath(g, p) && p[0] == root && Top(p) == o && o in Pop(p)
  }

  /** A root with a cycle below it has no value. */
  lemma CycleFromNeverDecodes<F>(g: Graph<F>, root: nat, o: nat)
    requires IsCycleFrom(g, root, o)
    ensures !Decodes(g, root)
  {
    var p: seq<nat> :| IsPath(g, p) && p[0] == root && Top(p) == o && o in Pop(p);
    var i :| 0 <= i < |Pop(p)| && Pop(p)[i] == o;
    CycleNeverDecodes(g, p, i, |p| - 1);
  }

  /** Meeting an active record again is a real cycle, and the root does not decode. */
  lemma ActiveAgain<F>(g: Graph<F>, root: nat, stack: Pending, path: seq<nat>, have: set<nat>)
    requires stack != [] && !Top(stack).1 && StackOk(g, root, stack, path, have) && PathOk(g, root, path)
    requires Top(stack).0 in path
    ensures IsCycleFrom(g, root, Top(stack).0) && !Decodes(g, root)
  {
    var o := Top(stack).0;
    TopIsReached(g, root, stack, path, have);
    var p := path + [o];
    assert Pop(p) == path;
    CycleFromNeverDecodes(g, root, o);
  }

  /** A root above a record that does not decode does not decode either. */
  lemma TopBreaksRoot<F>(g: Graph<F>, root: nat, stack: Pending, path: seq<nat>, have: set<nat>)
    requires stack != [] && StackOk(g, root, stack, path, have) && PathOk(g, root, path)
    requires !Decodes(g, Top(stack).0)
    ensures !Decodes(g, root)
  {
    TopIsReached(g, root, stack, path, have);
    if Decodes(g, root) {
      DecodesBelow(g, (if Top(stack).1 then Pop(path) else path) + [Top(stack).0]);
      assert false;
    }
  }
}
