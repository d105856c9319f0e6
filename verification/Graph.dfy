/** The dependency graph of location records, and which records can be decoded. */
module Graph {
  import opened Wrappers

  /** What each offset holds as a location record: its own fields and its dependency offsets. */
  datatype Graph<+F> = Graph(fields: nat -> Result<F>, deps: nat -> Result<seq<nat>>)

  /** A decoded location with the whole dependency graph below it. */
  datatype Location<+F> = Location(fields: F, dependencies: seq<Location>)

  /** Recursion at most n records deep decodes the record and everything below it. */
  ghost predicate Decodable<F>(g: Graph<F>, o: nat, n: nat)
    decreases n
  {
    && n > 0
    && g.fields(o).Ok?
    && g.deps(o).Ok?
    && forall i :: 0 <= i < |g.deps(o).value| ==> Decodable(g, g.deps(o).value[i], n - 1)
  }

  ghost predicate Decodes<F>(g: Graph<F>, o: nat) {
    exists n: nat :: Decodable(g, o, n)
  }

  ghost function Build<F>(g: Graph<F>, o: nat, n: nat): Location<F>
    requires Decodable(g, o, n)
    decreases n
  {
    var deps := g.deps(o).value;
    Location(g.fields(o).value,
             seq(|deps|, i requires 0 <= i < |deps| => Build(g, deps[i], n - 1)))
  }

  /** The location a record denotes, independent of how deep the recursion may go. */
  ghost function Meaning<F>(g: Graph<F>, o: nat): Location<F>
    requires Decodes(g, o)
  {
    var n: nat :| Decodable(g, o, n);
    Build(g, o, n)
  }

  ghost predicate DependsOn<F>(g: Graph<F>, a: nat, b: nat) {
    g.deps(a).Ok? && b in g.deps(a).value
  }

  ghost predicate IsPath<F>(g: Graph<F>, p: seq<nat>) {
    p != [] && forall i :: 0 <= i < |p| - 1 ==> DependsOn(g, p[i], p[i + 1])
  }

  ghost predicate Reaches<F>(g: Graph<F>, a: nat, b: nat) {
    exists p :: IsPath(g, p) && p[0] == a && p[|p| - 1] == b
  }

  lemma {:induction false} DecodableMonotone<F>(g: Graph<F>, o: nat, m: nat, n: nat)
    requires m <= n && Decodable(g, o, m)
    ensures Decodable(g, o, n)
    decreases m
  {
    forall i | 0 <= i < |g.deps(o).value|
      ensures Decodable(g, g.deps(o).value[i], n - 1)
    {
      DecodableMonotone(g, g.deps(o).value[i], m - 1, n - 1);
    }
  }

  lemma {:induction false} BuildStable<F>(g: Graph<F>, o: nat, m: nat, n: nat)
    requires Decodable(g, o, m) && Decodable(g, o, n)
    ensures Build(g, o, m) == Build(g, o, n)
    decreases m
  {
    var deps := g.deps(o).value;
    forall i | 0 <= i < |deps|
      ensures Build(g, deps[i], m - 1) == Build(g, deps[i], n - 1)
    {
      BuildStable(g, deps[i], m - 1, n - 1);
    }
    assert Build(g, o, m).dependencies == Build(g, o, n).dependencies;
  }

  lemma MeaningIs<F>(g: Graph<F>, o: nat, n: nat)
    requires Decodable(g, o, n)
    ensures Decodes(g, o) && Meaning(g, o) == Build(g, o, n)
  {
    var k: nat :| Decodable(g, o, k) && Meaning(g, o) == Build(g, o, k);
    BuildStable(g, o, k, n);
  }

  /** Finitely many decodable records share one sufficient depth. */
  lemma {:induction false} CommonDepth<F>(g: Graph<F>, os: seq<nat>) returns (n: nat)
    requires forall i :: 0 <= i < |os| ==> Decodes(g, os[i])
    ensures forall i :: 0 <= i < |os| ==> Decodable(g, os[i], n)
  {
    n := 0;
    if os != [] {
      var rest := CommonDepth(g, os[1..]);
      var first: nat :| Decodable(g, os[0], first);
      n := if first < rest then rest else first;
      forall i | 0 <= i < |os|
        ensures Decodable(g, os[i], n)
      {
        if i == 0 {
          DecodableMonotone(g, os[0], first, n);
        } else {
          assert os[i] == os[1..][i - 1];
          DecodableMonotone(g, os[i], rest, n);
        }
      }
    }
  }

  /** A record decodes exactly when its own fields do and each of its dependencies does. */
  lemma DecodesStep<F>(g: Graph<F>, o: nat)
    ensures Decodes(g, o) <==>
            && g.fields(o).Ok?
            && g.deps(o).Ok?
            && forall i :: 0 <= i < |g.deps(o).value| ==> Decodes(g, g.deps(o).value[i])
  {
    if Decodes(g, o) {
      var n: nat :| Decodable(g, o, n);
      forall i | 0 <= i < |g.deps(o).value|
        ensures Decodes(g, g.deps(o).value[i])
      {
        assert Decodable(g, g.deps(o).value[i], n - 1);
      }
    } else if && g.fields(o).Ok?
              && g.deps(o).Ok?
              && forall i :: 0 <= i < |g.deps(o).value| ==> Decodes(g, g.deps(o).value[i])
    {
      var n := CommonDepth(g, g.deps(o).value);
      assert Decodable(g, o, n + 1);
    }
  }

  /** Decoding a root decodes every record on every dependency path, so paths are bounded. */
  lemma {:induction false} PathBelowDecodable<F>(g: Graph<F>, p: seq<nat>, n: nat)
    requires IsPath(g, p) && Decodable(g, p[0], n)
    ensures |p| <= n && Decodable(g, p[|p| - 1], n - (|p| - 1))
    decreases |p|
  {
    if |p| > 1 {
      assert DependsOn(g, p[0], p[0 + 1]);
      var i :| 0 <= i < |g.deps(p[0]).value| && g.deps(p[0]).value[i] == p[1];
      assert IsPath(g, p[1..]) by {
        forall k | 0 <= k < |p[1..]| - 1
          ensures DependsOn(g, p[1..][k], p[1..][k + 1])
        {
          assert DependsOn(g, p[k + 1], p[k + 1 + 1]);
        }
      }
      PathBelowDecodable(g, p[1..], n - 1);
    }
  }

  lemma {:induction false} LoopNotDecodable<F>(g: Graph<F>, p: seq<nat>, n: nat)
    requires IsPath(g, p) && |p| > 1 && p[0] == p[|p| - 1]
    ensures !Decodable(g, p[0], n)
    decreases n
  {
    if Decodable(g, p[0], n) {
      PathBelowDecodable(g, p, n);
      LoopNotDecodable(g, p, n - (|p| - 1));
    }
  }

  lemma SubPath<F>(g: Graph<F>, p: seq<nat>, i: nat, j: nat)
    requires IsPath(g, p) && i < j <= |p|
    ensures IsPath(g, p[i..j])
  {
    forall k | 0 <= k < |p[i..j]| - 1
      ensures DependsOn(g, p[i..j][k], p[i..j][k + 1])
    {
      assert DependsOn(g, p[i + k], p[i + k + 1]);
    }
  }

  /** No root from which a dependency path revisits a record ever decodes. */
  lemma CycleNeverDecodes<F>(g: Graph<F>, p: seq<nat>, i: nat, j: nat)
    requires IsPath(g, p) && i < j < |p| && p[i] == p[j]
    ensures !Decodes(g, p[0])
  {
    forall n: nat
      ensures !Decodable(g, p[0], n)
    {
      if Decodable(g, p[0], n) {
        SubPath(g, p, 0, i + 1);
        PathBelowDecodable(g, p[0..i + 1], n);
        SubPath(g, p, i, j + 1);
        LoopNotDecodable(g, p[i..j + 1], n - i);
      }
    }
  }

  lemma PathExtend<F>(g: Graph<F>, p: seq<nat>, o: nat)
    requires IsPath(g, p) && DependsOn(g, p[|p| - 1], o)
    ensures IsPath(g, p + [o])
  {
    var q := p + [o];
    forall k | 0 <= k < |q| - 1
      ensures DependsOn(g, q[k], q[k + 1])
    {
      if k < |p| - 1 {
        assert DependsOn(g, p[k], p[k + 1]);
      }
    }
  }

  lemma PathJoin<F>(g: Graph<F>, p: seq<nat>, q: seq<nat>)
    requires IsPath(g, p) && IsPath(g, q) && p[|p| - 1] == q[0]
    ensures IsPath(g, p + q[1..])
  {
    var r := p + q[1..];
    forall k | 0 <= k < |r| - 1
      ensures DependsOn(g, r[k], r[k + 1])
    {
      if k < |p| - 1 {
        assert DependsOn(g, p[k], p[k + 1]);
      } else {
        var m := k - (|p| - 1);
        assert DependsOn(g, q[m], q[m + 1]);
      }
    }
  }

  lemma ReachesSelf<F>(g: Graph<F>, o: nat)
    ensures Reaches(g, o, o)
  {
    assert IsPath(g, [o]);
  }

  lemma ReachesStep<F>(g: Graph<F>, a: nat, b: nat, c: nat)
    requires DependsOn(g, a, b) && Reaches(g, b, c)
    ensures Reaches(g, a, c)
  {
    var q :| IsPath(g, q) && q[0] == b && q[|q| - 1] == c;
    var p := [a, b];
    assert IsPath(g, p);
    PathJoin(g, p, q);
    var r := p + q[1..];
    assert r[0] == a && r[|r| - 1] == c;
  }

  /** A record that decodes is not reachable from its own dependencies. */
  lemma NotBelowItself<F>(g: Graph<F>, a: nat, b: nat)
    requires DependsOn(g, a, b) && Decodes(g, b)
    ensures !Reaches(g, b, a)
  {
    if Reaches(g, b, a) {
      var p :| IsPath(g, p) && p[0] == b && p[|p| - 1] == a;
      PathExtend(g, p, b);
      CycleNeverDecodes(g, p + [b], 0, |p|);
      assert false;
    }
  }

  /** Everything on a dependency path below a record that decodes also decodes. */
  lemma DecodesBelow<F>(g: Graph<F>, p: seq<nat>)
    requires IsPath(g, p) && Decodes(g, p[0])
    ensures Decodes(g, p[|p| - 1])
  {
    var n: nat :| Decodable(g, p[0], n);
    PathBelowDecodable(g, p, n);
  }

  /** A record whose fields can be read and whose dependencies have meanings has one itself. */
  lemma MeaningStep<F>(g: Graph<F>, o: nat)
    requires g.fields(o).Ok? && g.deps(o).Ok?
    requires forall i :: 0 <= i < |g.deps(o).value| ==> Decodes(g, g.deps(o).value[i])
    ensures Decodes(g, o) && Meaning(g, o).fields == g.fields(o).value
    ensures |Meaning(g, o).dependencies| == |g.deps(o).value|
    ensures forall i :: 0 <= i < |g.deps(o).value| ==>
              Meaning(g, o).dependencies[i] == Meaning(g, g.deps(o).value[i])
  {
    DecodesStep(g, o);
    var n: nat :| Decodable(g, o, n);
    MeaningIs(g, o, n);
    forall i | 0 <= i < |g.deps(o).value|
      ensures Meaning(g, o).dependencies[i] == Meaning(g, g.deps(o).value[i])
    {
      MeaningIs(g, g.deps(o).value[i], n - 1);
    }
  }
}
