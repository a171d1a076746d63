// Plain graph vocabulary: what a dependency is, what "reaches" and "cycle" mean.
// Nothing here knows about an algorithm.
module DependencyGraph {
  import opened Sequences

  type Id = string

  // Every registered service with its declared dependencies, in declaration order.
  type Graph = map<Id, seq<Id>>

  predicate Edge(g: Graph, a: Id, b: Id) {
    a in g && b in g[a]
  }

  ghost predicate Walk(g: Graph, p: seq<Id>) {
    |p| > 0 && forall i :: 0 <= i < |p| - 1 ==> Edge(g, p[i], p[i + 1])
  }

  ghost predicate WalkFromTo(g: Graph, p: seq<Id>, a: Id, b: Id) {
    Walk(g, p) && p[0] == a && p[|p| - 1] == b
  }

  ghost predicate Reaches(g: Graph, a: Id, b: Id) {
    exists p :: WalkFromTo(g, p, a, b)
  }

  ghost predicate ReachedFrom(g: Graph, roots: seq<Id>, x: Id) {
    exists r :: r in roots && Reaches(g, r, x)
  }

  // A genuine dependency cycle, first element repeated at the end.
  ghost predicate ClosedWalk(g: Graph, p: seq<Id>) {
    Walk(g, p) && |p| >= 2 && p[0] == p[|p| - 1]
  }

  ghost predicate Acyclic(g: Graph) {
    forall p :: !ClosedWalk(g, p)
  }

  // Every declared dependency is itself registered.
  ghost predicate Complete(g: Graph) {
    forall a, b :: Edge(g, a, b) ==> b in g
  }

  // Everything the roots reach is registered and lies on no cycle.
  ghost predicate Launchable(g: Graph, roots: seq<Id>) {
    && (forall x :: ReachedFrom(g, roots, x) ==> x in g)
    && (forall p :: ClosedWalk(g, p) ==> !ReachedFrom(g, roots, p[0]))
  }

  // The same services, with dependencies outside `keep` dropped.
  function Filter(xs: seq<Id>, keep: set<Id>): (r: seq<Id>)
    ensures forall x :: x in r <==> x in xs && x in keep
  {
    if xs == [] then []
    else
      assert forall x :: x in xs <==> x == xs[0] || x in xs[1..];
      (if xs[0] in keep then [xs[0]] else []) + Filter(xs[1..], keep)
  }

  function Restrict(g: Graph, keep: set<Id>): Graph {
    map s | s in g && s in keep :: Filter(g[s], keep)
  }

  lemma {:induction false} FilterSnoc(xs: seq<Id>, x: Id, keep: set<Id>)
    ensures Filter(xs + [x], keep) == Filter(xs, keep) + (if x in keep then [x] else [])
    decreases |xs|
  {
    if xs == [] {
      assert [x][1..] == [];
    } else {
      assert (xs + [x])[1..] == xs[1..] + [x];
      FilterSnoc(xs[1..], x, keep);
    }
  }

  lemma {:induction false} ReachesSelf(g: Graph, a: Id)
    ensures Reaches(g, a, a)
  {
    assert WalkFromTo(g, [a], a, a);
  }

  lemma {:induction false} ReachesStep(g: Graph, a: Id, b: Id, c: Id)
    requires Edge(g, a, b) && Reaches(g, b, c)
    ensures Reaches(g, a, c)
  {
    var p :| WalkFromTo(g, p, b, c);
    var q := [a] + p;
    forall i | 0 <= i < |q| - 1 ensures Edge(g, q[i], q[i + 1]) {
      if i > 0 { assert Edge(g, p[i - 1], p[i]); }
    }
    assert WalkFromTo(g, q, a, c);
  }

  // A set closed under dependencies holds everything reachable from its members.
  lemma {:induction false} ClosedUnderWalk(g: Graph, s: set<Id>, p: seq<Id>)
    requires forall a, b :: a in s && Edge(g, a, b) ==> b in s
    requires Walk(g, p) && p[0] in s
    ensures forall x :: x in p ==> x in s
  {
    if |p| > 1 {
      assert Edge(g, p[0], p[1]);
      assert forall i :: 0 <= i < |p[1..]| - 1 ==> p[1..][i] == p[i + 1] && Edge(g, p[i + 1], p[i + 2]);
      ClosedUnderWalk(g, s, p[1..]);
      assert forall x :: x in p ==> x == p[0] || x in p[1..];
    }
  }

  // Each entry is registered and all its dependencies come earlier.
  ghost predicate Topological(g: Graph, xs: seq<Id>) {
    forall i :: 0 <= i < |xs| ==> xs[i] in g && forall d :: d in g[xs[i]] ==> d in xs[..i]
  }

  lemma {:induction false} TopologicalConcat(g: Graph, xs: seq<Id>, ys: seq<Id>)
    requires Topological(g, xs) && Topological(g, ys)
    ensures Topological(g, xs + ys)
  {
    forall i | 0 <= i < |xs + ys|
      ensures (xs + ys)[i] in g && forall d :: d in g[(xs + ys)[i]] ==> d in (xs + ys)[..i]
    {
      if i < |xs| {
        assert (xs + ys)[..i] == xs[..i];
      } else {
        assert (xs + ys)[..i] == xs + ys[..i - |xs|];
      }
    }
  }

  lemma {:induction false} TopologicalAppendNew(g: Graph, done: seq<Id>, xs: seq<Id>)
    requires Topological(g, done)
    requires forall i :: 0 <= i < |xs| ==> xs[i] in g && forall d :: d in g[xs[i]] ==> d in done || d in xs[..i]
    ensures Topological(g, AppendNew(done, xs))
    decreases |xs|
  {
    if xs != [] {
      assert xs[..0] == [];
      var next := if xs[0] in done then done else done + [xs[0]];
      forall i | 0 <= i < |next| ensures next[i] in g && forall d :: d in g[next[i]] ==> d in next[..i] {
        if i < |done| {
          assert next[..i] == done[..i];
        } else {
          assert next[..i] == done;
        }
      }
      forall i | 0 <= i < |xs[1..]|
        ensures xs[1..][i] in g && forall d :: d in g[xs[1..][i]] ==> d in next || d in xs[1..][..i]
      {
        assert xs[..i + 1] == [xs[0]] + xs[1..][..i];
        assert xs[1..][i] == xs[i + 1];
      }
      TopologicalAppendNew(g, next, xs[1..]);
    }
  }

  // Dependencies strictly lower the first position in a topological listing.
  lemma {:induction false} EdgeLowersIndex(g: Graph, xs: seq<Id>, a: Id, b: Id)
    requires Topological(g, xs) && a in xs && Edge(g, a, b)
    ensures b in xs && IndexOf(xs, b) < IndexOf(xs, a)
  {
    var i := IndexOf(xs, a);
    assert b in xs[..i];
    var j :| 0 <= j < i && xs[j] == b;
    IndexOfIsFirst(xs, j);
  }

  lemma {:induction false} WalkLowersIndex(g: Graph, xs: seq<Id>, p: seq<Id>)
    requires Topological(g, xs) && Walk(g, p) && p[0] in xs
    ensures p[|p| - 1] in xs && IndexOf(xs, p[|p| - 1]) + |p| - 1 <= IndexOf(xs, p[0])
  {
    if |p| > 1 {
      assert Edge(g, p[0], p[1]);
      EdgeLowersIndex(g, xs, p[0], p[1]);
      var q := p[1..];
      forall i | 0 <= i < |q| - 1 ensures Edge(g, q[i], q[i + 1]) {
        assert q[i] == p[i + 1] && q[i + 1] == p[i + 2];
      }
      WalkLowersIndex(g, xs, q);
    }
  }

  // No cycle passes through a topological listing.
  lemma {:induction false} TopologicalAvoidsCycles(g: Graph, xs: seq<Id>, p: seq<Id>)
    requires Topological(g, xs) && ClosedWalk(g, p)
    ensures p[0] !in xs
  {
    if p[0] in xs {
      WalkLowersIndex(g, xs, p);
    }
  }

  ghost predicate HasDependentIn(g: Graph, s: set<Id>, x: Id) {
    exists a :: a in s && Edge(g, a, x)
  }

  // A walk that stays inside a set where everything has a predecessor can be extended backwards forever.
  lemma {:induction false} BackwardWalk(g: Graph, s: set<Id>, n: nat) returns (p: seq<Id>)
    requires s != {}
    requires forall x :: x in s ==> HasDependentIn(g, s, x)
    ensures |p| == n + 1 && Walk(g, p) && forall x :: x in p ==> x in s
  {
    if n == 0 {
      var x :| x in s;
      p := [x];
    } else {
      var q := BackwardWalk(g, s, n - 1);
      assert q[0] in s;
      var a :| a in s && Edge(g, a, q[0]);
      p := [a] + q;
      forall i | 0 <= i < |p| - 1 ensures Edge(g, p[i], p[i + 1]) {
        if i > 0 { assert Edge(g, q[i - 1], q[i]); }
      }
    }
  }

  // A finite non-empty set in which every member has a dependent inside the set carries a cycle.
  lemma {:induction false} CycleFromPredecessors(g: Graph, s: set<Id>) returns (cycle: seq<Id>)
    requires s != {}
    requires forall x :: x in s ==> HasDependentIn(g, s, x)
    ensures ClosedWalk(g, cycle) && cycle[0] in s
  {
    var p := BackwardWalk(g, s, |s|);
    var i, j := Pigeonhole(p, s);
    cycle := p[i..j + 1];
    forall k | 0 <= k < |cycle| - 1 ensures Edge(g, cycle[k], cycle[k + 1]) {
      assert cycle[k] == p[i + k] && cycle[k + 1] == p[i + k + 1];
    }
    assert cycle[0] == p[i];
  }
}
