/** How deep memoised recursion without a cycle check goes, from left to right and never twice. */
module Frames {
  import opened Wrappers
  import opened Graph

  /** The record and everything below it. */
  ghost function Downward<F>(g: Graph<F>, o: nat): iset<nat> {
    iset k: nat | Reaches(g, o, k)
  }

  /** What has been decoded once the first k records were, with everything below them. */
  ghost function SeenAfter<F>(g: Graph<F>, os: seq<nat>, k: nat, seen: iset<nat>): iset<nat>
    requires k <= |os|
  {
    if k == 0 then seen else SeenAfter(g, os, k - 1, seen) + Downward(g, os[k - 1])
  }

  function Max(a: nat, b: nat): nat {
    if a < b then b else a
  }

  /** One frame for a record already decoded; else one more than its dependencies need in turn. */
  ghost function FramesWithin<F>(g: Graph<F>, o: nat, n: nat, seen: iset<nat>): nat
    requires Decodable(g, o, n)
    decreases n, 0, 0
  {
    if o in seen then 1 else 1 + WidestWithin(g, g.deps(o).value, |g.deps(o).value|, n - 1, seen)
  }

  ghost function WidestWithin<F>(g: Graph<F>, os: seq<nat>, k: nat, n: nat, seen: iset<nat>): nat
    requires k <= |os| && forall i :: 0 <= i < k ==> Decodable(g, os[i], n)
    decreases n, 1, k
  {
    if k == 0 then 0
    else Max(WidestWithin(g, os, k - 1, n, seen), FramesWithin(g, os[k - 1], n, SeenAfter(g, os, k - 1, seen)))
  }

  lemma {:induction false} FramesStable<F>(g: Graph<F>, o: nat, m: nat, n: nat, seen: iset<nat>)
    requires Decodable(g, o, m) && Decodable(g, o, n)
    ensures FramesWithin(g, o, m, seen) == FramesWithin(g, o, n, seen)
    decreases m, 0, 0
  {
    if o !in seen {
      WidestStable(g, g.deps(o).value, |g.deps(o).value|, m - 1, n - 1, seen);
    }
  }

  lemma {:induction false} WidestStable<F>(g: Graph<F>, os: seq<nat>, k: nat, m: nat, n: nat, seen: iset<nat>)
    requires k <= |os| && forall i :: 0 <= i < k ==> Decodable(g, os[i], m) && Decodable(g, os[i], n)
    ensures WidestWithin(g, os, k, m, seen) == WidestWithin(g, os, k, n, seen)
    decreases m, 1, k
  {
    if k > 0 {
      WidestStable(g, os, k - 1, m, n, seen);
      FramesStable(g, os[k - 1], m, n, SeenAfter(g, os, k - 1, seen));
    }
  }

  /** The frames that decoding a record takes, when the records in seen are already decoded. */
  ghost function FramesFor<F>(g: Graph<F>, o: nat, seen: iset<nat>): nat
    requires Decodes(g, o)
  {
    var n: nat :| Decodable(g, o, n);
    FramesWithin(g, o, n, seen)
  }

  /** The frames that decoding the first k records one after another takes. */
  ghost function FramesForAll<F>(g: Graph<F>, os: seq<nat>, k: nat, seen: iset<nat>): nat
    requires k <= |os| && forall i :: 0 <= i < k ==> Decodes(g, os[i])
  {
    if k == 0 then 0
    else Max(FramesForAll(g, os, k - 1, seen), FramesFor(g, os[k - 1], SeenAfter(g, os, k - 1, seen)))
  }

  lemma FramesForIs<F>(g: Graph<F>, o: nat, n: nat, seen: iset<nat>)
    requires Decodable(g, o, n)
    ensures Decodes(g, o) && FramesFor(g, o, seen) == FramesWithin(g, o, n, seen)
  {
    var k: nat :| Decodable(g, o, k) && FramesFor(g, o, seen) == FramesWithin(g, o, k, seen);
    FramesStable(g, o, k, n, seen);
  }

  lemma {:induction false} FramesForAllIs<F>(g: Graph<F>, os: seq<nat>, k: nat, n: nat, seen: iset<nat>)
    requires k <= |os| && forall i :: 0 <= i < k ==> Decodable(g, os[i], n)
    ensures forall i :: 0 <= i < k ==> Decodes(g, os[i])
    ensures FramesForAll(g, os, k, seen) == WidestWithin(g, os, k, n, seen)
  {
    if k > 0 {
      FramesForAllIs(g, os, k - 1, n, seen);
      FramesForIs(g, os[k - 1], n, SeenAfter(g, os, k - 1, seen));
    }
  }

  /** A record not yet decoded takes one frame more than its dependencies do in turn. */
  lemma FramesStep<F>(g: Graph<F>, o: nat, seen: iset<nat>)
    requires Decodes(g, o)
    ensures forall i :: 0 <= i < |g.deps(o).value| ==> Decodes(g, g.deps(o).value[i])
    ensures FramesFor(g, o, seen) ==
            if o in seen then 1 else 1 + FramesForAll(g, g.deps(o).value, |g.deps(o).value|, seen)
  {
    var n: nat :| Decodable(g, o, n);
    FramesForIs(g, o, n, seen);
    FramesForAllIs(g, g.deps(o).value, |g.deps(o).value|, n - 1, seen);
  }

  /** Recursion never goes deeper than the dependency graph. */
  lemma {:induction false} FramesWithinDepth<F>(g: Graph<F>, o: nat, n: nat, seen: iset<nat>)
    requires Decodable(g, o, n)
    ensures FramesWithin(g, o, n, seen) <= n
    decreases n, 0, 0
  {
    if o !in seen {
      WidestWithinDepth(g, g.deps(o).value, |g.deps(o).value|, n - 1, seen);
    }
  }

  lemma {:induction false} WidestWithinDepth<F>(g: Graph<F>, os: seq<nat>, k: nat, n: nat, seen: iset<nat>)
    requires k <= |os| && forall i :: 0 <= i < k ==> Decodable(g, os[i], n)
    ensures WidestWithin(g, os, k, n, seen) <= n
    decreases n, 1, k
  {
    if k > 0 {
      WidestWithinDepth(g, os, k - 1, n, seen);
      FramesWithinDepth(g, os[k - 1], n, SeenAfter(g, os, k - 1, seen));
    }
  }

  /** The first k records all decode, one after another, with the given number of frames. */
  ghost predicate Fits<F>(g: Graph<F>, os: seq<nat>, k: nat, seen: iset<nat>, stack: nat)
    requires k <= |os|
  {
    (forall i :: 0 <= i < k ==> Decodes(g, os[i])) && FramesForAll(g, os, k, seen) <= stack
  }

  ghost predicate FitsOne<F>(g: Graph<F>, o: nat, seen: iset<nat>, stack: nat) {
    Decodes(g, o) && FramesFor(g, o, seen) <= stack
  }

  lemma FitsNext<F>(g: Graph<F>, os: seq<nat>, k: nat, seen: iset<nat>, stack: nat)
    requires k < |os|
    ensures Fits(g, os, k + 1, seen, stack) <==>
            Fits(g, os, k, seen, stack) && FitsOne(g, os[k], SeenAfter(g, os, k, seen), stack)
    ensures SeenAfter(g, os, k + 1, seen) == SeenAfter(g, os, k, seen) + Downward(g, os[k])
  {
    hide Decodes, FramesFor;
  }

  lemma {:induction false} FitsPrefix<F>(g: Graph<F>, os: seq<nat>, k: nat, n: nat, seen: iset<nat>, stack: nat)
    requires k <= n <= |os| && Fits(g, os, n, seen, stack)
    ensures Fits(g, os, k, seen, stack)
    decreases n
  {
    hide Fits, FitsOne;
    if k < n {
      FitsNext(g, os, n - 1, seen, stack);
      FitsPrefix(g, os, k, n - 1, seen, stack);
    }
  }

  /** Decoding a record needs a frame, and one fewer must do for its dependencies unless it was seen. */
  lemma FitsStep<F>(g: Graph<F>, o: nat, seen: iset<nat>, stack: nat)
    ensures o in seen ==> (FitsOne(g, o, seen, stack) <==> Decodes(g, o) && stack > 0)
    ensures o !in seen ==>
              (FitsOne(g, o, seen, stack) <==>
               && stack > 0 && g.fields(o).Ok? && g.deps(o).Ok?
               && Fits(g, g.deps(o).value, |g.deps(o).value|, seen, stack - 1))
  {
    hide FramesFor, FramesForAll;
    DecodesStep(g, o);
    if Decodes(g, o) {
      FramesStep(g, o, seen);
    }
  }

  /** Two lists one after the other. */
  lemma {:induction false} FitsBoth<F>(g: Graph<F>, a: seq<nat>, b: seq<nat>, k: nat, seen: iset<nat>, stack: nat)
    requires k <= |b|
    ensures SeenAfter(g, a + b, |a| + k, seen) == SeenAfter(g, b, k, SeenAfter(g, a, |a|, seen))
    ensures Fits(g, a + b, |a| + k, seen, stack) <==>
            Fits(g, a, |a|, seen, stack) && Fits(g, b, k, SeenAfter(g, a, |a|, seen), stack)
    decreases k
  {
    hide Fits, FitsOne, Downward;
    if k == 0 {
      SameFirst(g, a, a + b, |a|, seen, stack);
      NoneFit(g, b, SeenAfter(g, a, |a|, seen), stack);
    } else {
      FitsBoth(g, a, b, k - 1, seen, stack);
      FitsNext(g, a + b, |a| + k - 1, seen, stack);
      FitsNext(g, b, k - 1, SeenAfter(g, a, |a|, seen), stack);
    }
  }

  lemma NoneFit<F>(g: Graph<F>, os: seq<nat>, seen: iset<nat>, stack: nat)
    ensures Fits(g, os, 0, seen, stack) && SeenAfter(g, os, 0, seen) == seen
  {
  }

  lemma {:induction false} SameFirst<F>(g: Graph<F>, a: seq<nat>, b: seq<nat>, k: nat, seen: iset<nat>, stack: nat)
    requires k <= |a| && k <= |b| && a[..k] == b[..k]
    ensures SeenAfter(g, a, k, seen) == SeenAfter(g, b, k, seen)
    ensures Fits(g, a, k, seen, stack) <==> Fits(g, b, k, seen, stack)
  {
    hide Fits, FitsOne, Downward;
    if k == 0 {
      NoneFit(g, a, seen, stack);
      NoneFit(g, b, seen, stack);
    } else {
      assert a[k - 1] == a[..k][k - 1] == b[..k][k - 1] == b[k - 1];
      assert a[..k - 1] == a[..k][..k - 1] == b[..k][..k - 1] == b[..k - 1];
      SameFirst(g, a, b, k - 1, seen, stack);
      FitsNext(g, a, k - 1, seen, stack);
      FitsNext(g, b, k - 1, seen, stack);
    }
  }

  lemma {:induction false} SeenAfterIs<F>(g: Graph<F>, os: seq<nat>, k: nat, seen: iset<nat>, x: nat)
    requires k <= |os|
    ensures x in SeenAfter(g, os, k, seen) <==> x in seen || exists i :: 0 <= i < k && Reaches(g, os[i], x)
  {
    hide Reaches;
    if k > 0 {
      SeenAfterIs(g, os, k - 1, seen, x);
    }
  }

  /** Below a record lies the record itself and what lies below its dependencies. */
  lemma DownwardStep<F>(g: Graph<F>, o: nat, seen: iset<nat>)
    requires g.deps(o).Ok?
    ensures SeenAfter(g, g.deps(o).value, |g.deps(o).value|, seen) + iset{o} == seen + Downward(g, o)
  {
    var deps := g.deps(o).value;
    forall x: nat
      ensures x in SeenAfter(g, deps, |deps|, seen) + iset{o} <==> x in seen + Downward(g, o)
    {
      SeenAfterIs(g, deps, |deps|, seen, x);
      ReachesSplits(g, o, x);
    }
  }

  lemma ReachesSplits<F>(g: Graph<F>, o: nat, x: nat)
    requires g.deps(o).Ok?
    ensures Reaches(g, o, x) <==>
            o == x || exists i :: 0 <= i < |g.deps(o).value| && Reaches(g, g.deps(o).value[i], x)
  {
    var deps := g.deps(o).value;
    if Reaches(g, o, x) {
      var p :| IsPath(g, p) && p[0] == o && p[|p| - 1] == x;
      if |p| > 1 {
        assert DependsOn(g, p[0], p[0 + 1]);
        var i :| 0 <= i < |deps| && deps[i] == p[1];
        SubPath(g, p, 1, |p|);
        assert p[1..|p|][0] == deps[i] && p[1..|p|][|p| - 2] == x;
        assert Reaches(g, deps[i], x);
      }
    } else {
      ReachesSelf(g, o);
      forall i | 0 <= i < |deps|
        ensures !Reaches(g, deps[i], x)
      {
        if Reaches(g, deps[i], x) {
          ReachesStep(g, o, deps[i], x);
        }
      }
    }
  }

  /** The limit bites: a chain of first dependencies takes a frame for each of its records. */
  lemma {:induction false} FirstChainNeedsFrames<F>(g: Graph<F>, p: seq<nat>, seen: iset<nat>)
    requires p != [] && Decodes(g, p[0]) && forall i :: 0 <= i < |p| ==> p[i] !in seen
    requires forall i :: 0 <= i < |p| - 1 ==>
               g.deps(p[i]).Ok? && g.deps(p[i]).value != [] && g.deps(p[i]).value[0] == p[i + 1]
    ensures FramesFor(g, p[0], seen) >= |p|
    decreases |p|
  {
    FramesStep(g, p[0], seen);
    if |p| > 1 {
      var deps := g.deps(p[0]).value;
      assert deps[0] == p[1] && p[1..][0] == p[1];
      FirstChainNeedsFrames(g, p[1..], seen);
      FirstOfAll(g, deps, |deps|, seen);
    }
  }

  lemma {:induction false} FirstOfAll<F>(g: Graph<F>, os: seq<nat>, k: nat, seen: iset<nat>)
    requires 0 < k <= |os| && forall i :: 0 <= i < k ==> Decodes(g, os[i])
    ensures FramesForAll(g, os, k, seen) >= FramesFor(g, os[0], seen)
  {
    if k > 1 {
      FirstOfAll(g, os, k - 1, seen);
    } else {
      assert SeenAfter(g, os, 0, seen) == seen;
    }
  }
}
