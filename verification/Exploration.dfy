// The reference every planner is compared with: a depth-first search that remembers nothing but the
// path it is on. It revisits shared dependencies again and again (and so may take exponential time);
// the planners in the repository remember finished services instead. The lemmas here say what the
// reference means in terms of reachability, registration and cycles.
module Exploration {
  import opened Wrappers
  import opened Sequences
  import opened DependencyGraph

  // A cycle is reported as the part of the path it closes and the service met again.
  datatype Fault = Missing(id: Id) | Loop(stem: seq<Id>, id: Id) {
    function Cycle(): seq<Id>
      requires Loop?
    {
      stem + [id]
    }
  }

  ghost predicate OnPath(g: Graph, path: seq<Id>) {
    forall x :: x in path ==> x in g
  }

  // Lists every dependency before the service that declares it, once per route leading to it;
  // or reports the first unregistered service or cycle met.
  ghost function Explore(g: Graph, path: seq<Id>, s: Id): Result<seq<Id>, Fault>
    requires OnPath(g, path)
    decreases g.Keys - Elems(path), 0
  {
    if s !in g then Failure(Missing(s))
    else if s in path then Failure(Loop(path[IndexOf(path, s)..], s))
    else
      assert s in g.Keys - Elems(path) && s !in g.Keys - Elems(path + [s]);
      match ExploreAll(g, path + [s], g[s])
      case Success(xs) => Success(xs + [s])
      case Failure(f) => Failure(f)
  }

  ghost function ExploreAll(g: Graph, path: seq<Id>, ss: seq<Id>): Result<seq<Id>, Fault>
    requires OnPath(g, path)
    decreases g.Keys - Elems(path), |ss|
  {
    if ss == [] then Success([])
    else
      match Explore(g, path, ss[0])
      case Failure(f) => Failure(f)
      case Success(xs) =>
        match ExploreAll(g, path, ss[1..])
        case Failure(f) => Failure(f)
        case Success(ys) => Success(xs + ys)
  }

  lemma {:induction false} ExploreAllConcat(g: Graph, path: seq<Id>, ss: seq<Id>, ts: seq<Id>)
    requires OnPath(g, path)
    ensures ExploreAll(g, path, ss + ts) ==
            match ExploreAll(g, path, ss)
            case Failure(f) => Failure(f)
            case Success(xs) =>
              (match ExploreAll(g, path, ts)
               case Failure(f) => Failure(f)
               case Success(ys) => Success(xs + ys))
    decreases |ss|
  {
    if ss == [] {
      assert ss + ts == ts;
      if ExploreAll(g, path, ts).Success? {
        assert [] + ExploreAll(g, path, ts).value == ExploreAll(g, path, ts).value;
      }
    } else {
      assert (ss + ts)[1..] == ss[1..] + ts;
      ExploreAllConcat(g, path, ss[1..], ts);
      if Explore(g, path, ss[0]).Success? && ExploreAll(g, path, ss[1..]).Success? && ExploreAll(g, path, ts).Success? {
        var a, b, c := Explore(g, path, ss[0]).value, ExploreAll(g, path, ss[1..]).value, ExploreAll(g, path, ts).value;
        assert a + (b + c) == (a + b) + c;
      }
    }
  }

  lemma {:induction false} ExploreOne(g: Graph, path: seq<Id>, s: Id)
    requires OnPath(g, path)
    ensures ExploreAll(g, path, [s]) == Explore(g, path, s)
  {
    assert [s][1..] == [];
    if Explore(g, path, s).Success? {
      assert Explore(g, path, s).value + [] == Explore(g, path, s).value;
    }
  }

  // One more request at the end, the step every planner loop makes.
  lemma {:induction false} ExploreAllSnoc(g: Graph, path: seq<Id>, ss: seq<Id>, s: Id)
    requires OnPath(g, path)
    ensures ExploreAll(g, path, ss + [s]) ==
            match ExploreAll(g, path, ss)
            case Failure(f) => Failure(f)
            case Success(xs) =>
              (match Explore(g, path, s)
               case Failure(f) => Failure(f)
               case Success(ys) => Success(xs + ys))
  {
    ExploreAllConcat(g, path, ss, [s]);
    ExploreOne(g, path, s);
  }

  // The first failing request decides the outcome, whatever follows it.
  lemma {:induction false} ExploreAllFailsAt(g: Graph, path: seq<Id>, ss: seq<Id>, k: nat)
    requires OnPath(g, path) && k < |ss|
    requires ExploreAll(g, path, ss[..k]).Success? && Explore(g, path, ss[k]).Failure?
    ensures ExploreAll(g, path, ss) == Failure(Explore(g, path, ss[k]).error)
  {
    ExploreAllSnoc(g, path, ss[..k], ss[k]);
    assert ss == (ss[..k] + [ss[k]]) + ss[k + 1..];
    ExploreAllConcat(g, path, ss[..k] + [ss[k]], ss[k + 1..]);
  }

  // --- what a successful search lists ---

  lemma {:induction false} TopologicalSnoc(g: Graph, ys: seq<Id>, s: Id)
    requires Topological(g, ys) && s in g && forall d :: d in g[s] ==> d in ys
    ensures Topological(g, ys + [s])
  {
    var xs := ys + [s];
    forall i | 0 <= i < |xs| ensures xs[i] in g && forall d :: d in g[xs[i]] ==> d in xs[..i] {
      if i < |ys| {
        assert xs[..i] == ys[..i];
      } else {
        assert xs[..i] == ys;
      }
    }
  }

  lemma {:induction false} ReachedThroughDependency(g: Graph, s: Id, x: Id)
    requires s in g && ReachedFrom(g, g[s], x)
    ensures Reaches(g, s, x)
  {
    var d :| d in g[s] && Reaches(g, d, x);
    ReachesStep(g, s, d, x);
  }

  // What one search lists: dependencies first, only services the roots reach, none on the path.
  ghost predicate Lists(g: Graph, path: seq<Id>, roots: seq<Id>, xs: seq<Id>) {
    && Topological(g, xs)
    && (forall s :: s in roots ==> s in xs)
    && (forall x :: x in xs ==> x !in path && ReachedFrom(g, roots, x))
  }

  lemma {:induction false} ListsSnoc(g: Graph, path: seq<Id>, s: Id, ys: seq<Id>)
    requires s in g && s !in path && Lists(g, path + [s], g[s], ys)
    ensures Lists(g, path, [s], ys + [s]) && s !in ys
  {
    TopologicalSnoc(g, ys, s);
    assert s in path + [s];
    forall x | x in ys + [s] ensures x !in path && ReachedFrom(g, [s], x) {
      assert s in [s];
      if x in ys {
        assert x !in path + [s];
        ReachedThroughDependency(g, s, x);
      } else {
        ReachesSelf(g, s);
      }
    }
  }

  lemma {:induction false} ListsConcat(g: Graph, path: seq<Id>, ss: seq<Id>, xs: seq<Id>, ys: seq<Id>)
    requires ss != [] && Lists(g, path, [ss[0]], xs) && Lists(g, path, ss[1..], ys)
    ensures Lists(g, path, ss, xs + ys)
  {
    TopologicalConcat(g, xs, ys);
    assert ss[0] in [ss[0]];
    forall x | x in xs + ys ensures x !in path && ReachedFrom(g, ss, x) {
      if x in xs {
        assert ReachedFrom(g, [ss[0]], x);
        assert ss[0] in ss;
      } else {
        var r :| r in ss[1..] && Reaches(g, r, x);
        assert r in ss;
      }
    }
  }

  lemma {:induction false} ExploreListing(g: Graph, path: seq<Id>, s: Id)
    requires OnPath(g, path) && Explore(g, path, s).Success?
    ensures Lists(g, path, [s], Explore(g, path, s).value)
    ensures exists ys :: Explore(g, path, s).value == ys + [s] && s !in ys
    decreases g.Keys - Elems(path), 0
  {
    assert s in g.Keys - Elems(path) && s !in g.Keys - Elems(path + [s]);
    var ys := ExploreAll(g, path + [s], g[s]).value;
    ExploreAllListing(g, path + [s], g[s]);
    ListsSnoc(g, path, s, ys);
    assert Explore(g, path, s).value == ys + [s];
  }

  lemma {:induction false} ExploreAllListing(g: Graph, path: seq<Id>, ss: seq<Id>)
    requires OnPath(g, path) && ExploreAll(g, path, ss).Success?
    ensures Lists(g, path, ss, ExploreAll(g, path, ss).value)
    decreases g.Keys - Elems(path), |ss|
  {
    if ss != [] {
      ExploreListing(g, path, ss[0]);
      ExploreAllListing(g, path, ss[1..]);
      ListsConcat(g, path, ss, Explore(g, path, ss[0]).value, ExploreAll(g, path, ss[1..]).value);
    }
  }

  // Exactly the reachable services are listed.
  lemma {:induction false} ExploreAllReach(g: Graph, ss: seq<Id>)
    requires ExploreAll(g, [], ss).Success?
    ensures forall x :: x in ExploreAll(g, [], ss).value <==> ReachedFrom(g, ss, x)
  {
    var xs := ExploreAll(g, [], ss).value;
    ExploreAllListing(g, [], ss);
    forall x | ReachedFrom(g, ss, x) ensures x in xs {
      var r :| r in ss && Reaches(g, r, x);
      var p :| WalkFromTo(g, p, r, x);
      WalkLowersIndex(g, xs, p);
    }
  }

  // --- what a failing search proves ---

  // The fault is real and s leads to it.
  ghost predicate Explains(g: Graph, s: Id, f: Fault) {
    match f
    case Missing(id) => id !in g && Reaches(g, s, id)
    case Loop(_, id) => ClosedWalk(g, f.Cycle()) && Reaches(g, s, id)
  }

  lemma {:induction false} WalkSnoc(g: Graph, path: seq<Id>, s: Id, d: Id)
    requires Walk(g, path + [s]) && Edge(g, s, d)
    ensures Walk(g, path + [s] + [d])
  {
    var q := path + [s] + [d];
    forall i | 0 <= i < |q| - 1 ensures Edge(g, q[i], q[i + 1]) {
      if i < |path| {
        assert (path + [s])[i] == q[i] && (path + [s])[i + 1] == q[i + 1];
      }
    }
  }

  lemma {:induction false} ExploreFault(g: Graph, path: seq<Id>, s: Id)
    requires OnPath(g, path) && Explore(g, path, s).Failure?
    requires Walk(g, path + [s])
    ensures Explains(g, s, Explore(g, path, s).error)
    decreases g.Keys - Elems(path), 0
  {
    if s !in g {
      ReachesSelf(g, s);
    } else if s in path {
      var k := IndexOf(path, s);
      var walk := path[k..] + [s];
      forall i | 0 <= i < |walk| - 1 ensures Edge(g, walk[i], walk[i + 1]) {
        assert (path + [s])[k + i] == walk[i] && (path + [s])[k + i + 1] == walk[i + 1];
      }
      ReachesSelf(g, s);
    } else {
      assert s in g.Keys - Elems(path) && s !in g.Keys - Elems(path + [s]);
      forall d | d in g[s] ensures Walk(g, path + [s] + [d]) {
        WalkSnoc(g, path, s, d);
      }
      var d := ExploreAllFault(g, path + [s], g[s]);
      match Explore(g, path, s).error {
        case Missing(id) => ReachesStep(g, s, d, id);
        case Loop(_, id) => ReachesStep(g, s, d, id);
      }
    }
  }

  lemma {:induction false} ExploreAllFault(g: Graph, path: seq<Id>, ss: seq<Id>) returns (r: Id)
    requires OnPath(g, path) && ExploreAll(g, path, ss).Failure?
    requires forall s :: s in ss ==> Walk(g, path + [s])
    ensures r in ss
    ensures Explains(g, r, ExploreAll(g, path, ss).error)
    decreases g.Keys - Elems(path), |ss|
  {
    if Explore(g, path, ss[0]).Failure? {
      ExploreFault(g, path, ss[0]);
      r := ss[0];
    } else {
      r := ExploreAllFault(g, path, ss[1..]);
    }
  }

  // The search succeeds exactly when nothing reachable is unregistered or on a cycle.
  lemma {:induction false} ExploreSucceedsIff(g: Graph, ss: seq<Id>)
    ensures ExploreAll(g, [], ss).Success? <==> Launchable(g, ss)
    ensures ExploreAll(g, [], ss).Failure? ==>
              exists r :: r in ss && Explains(g, r, ExploreAll(g, [], ss).error)
  {
    match ExploreAll(g, [], ss) {
      case Success(xs) =>
        ExploreAllListing(g, [], ss);
        ExploreAllReach(g, ss);
        forall p | ClosedWalk(g, p) ensures !ReachedFrom(g, ss, p[0]) {
          TopologicalAvoidsCycles(g, xs, p);
        }
      case Failure(f) =>
        assert forall s :: s in ss ==> [] + [s] == [s];
        var r := ExploreAllFault(g, [], ss);
    }
  }

  // --- what remembering finished services changes: nothing ---

  ghost predicate Finished(g: Graph, done: seq<Id>) {
    Distinct(done) && Topological(g, done)
  }

  // Searching again from a finished service succeeds and lists only finished services.
  lemma {:induction false} FinishedAgain(g: Graph, done: seq<Id>, path: seq<Id>, i: nat)
    requires Finished(g, done) && OnPath(g, path) && i < |done|
    requires forall x :: x in path ==> x !in done[..i + 1]
    ensures var r := Explore(g, path, done[i]);
            r.Success? && forall x :: x in r.value ==> x in done[..i + 1]
    decreases i, 1, 0
  {
    var s := done[i];
    assert s == done[..i + 1][i];
    assert forall x :: x in done[..i] ==> x in done[..i + 1] && x != s;
    forall d | d in g[s] ensures d in done[..i] {}
    FinishedAgainAll(g, done, path + [s], i, g[s]);
  }

  lemma {:induction false} FinishedAgainAll(g: Graph, done: seq<Id>, path: seq<Id>, i: nat, ss: seq<Id>)
    requires Finished(g, done) && OnPath(g, path) && i <= |done|
    requires forall x :: x in path ==> x !in done[..i]
    requires forall s :: s in ss ==> s in done[..i]
    ensures var r := ExploreAll(g, path, ss);
            r.Success? && forall x :: x in r.value ==> x in done[..i]
    decreases i, 0, |ss|
  {
    if ss != [] {
      assert ss[0] in done[..i];
      var j :| 0 <= j < i && done[j] == ss[0];
      assert forall x :: x in done[..j + 1] ==> x in done[..i] by {
        assert done[..j + 1] == done[..i][..j + 1];
      }
      FinishedAgain(g, done, path, j);
      FinishedAgainAll(g, done, path, i, ss[1..]);
    }
  }

  // The shape of one memoised visit: a finished service adds nothing.
  lemma {:induction false} RevisitAddsNothing(g: Graph, done: seq<Id>, path: seq<Id>, s: Id)
    requires Finished(g, done) && OnPath(g, path) && s in done
    requires forall x :: x in path ==> x !in done
    ensures Explore(g, path, s).Success? && AppendNew(done, Explore(g, path, s).value) == done
  {
    var i := IndexOf(done, s);
    FinishedAgain(g, done, path, i);
    AppendNewKnown(done, Explore(g, path, s).value);
  }

  // A completed visit keeps the finished list finished.
  lemma {:induction false} AppendNewFinished(g: Graph, done: seq<Id>, path: seq<Id>, ss: seq<Id>)
    requires Finished(g, done) && OnPath(g, path) && ExploreAll(g, path, ss).Success?
    ensures Finished(g, AppendNew(done, ExploreAll(g, path, ss).value))
  {
    var xs := ExploreAll(g, path, ss).value;
    ExploreAllListing(g, path, ss);
    AppendNewContents(done, xs);
    TopologicalAppendNew(g, done, xs);
  }
}
