// src/cli.rs: `order_mutation_service_ids` and `visit_requested_start`, which repeat the planners for
// the services named on the command line only.
module BatchOrdering {
  import opened Wrappers
  import opened Sequences
  import opened DependencyGraph
  import opened Exploration
  import opened StartPlanning
  import opened ShutdownPlanning
  import opened DependencyIssues

  // Only direct edges between requested services count.
  function RequestedGraph(services: Graph, requested: seq<Id>): Graph {
    Restrict(services, Elems(requested))
  }

  class RequestedVisit {
    var visiting: set<Id>
    var visited: set<Id>
    var ordered: seq<Id>

    ghost predicate Valid(g: Graph, path: seq<Id>)
      reads this
    {
      && OnPath(g, path)
      && visiting == Elems(path)
      && visited == Elems(ordered)
      && Finished(g, ordered)
      && visiting !! visited
    }

    constructor ()
      ensures visiting == {} && visited == {} && ordered == []
    {
      visiting, visited, ordered := {}, {}, [];
    }

    method Visit(services: Graph, requested: set<Id>, serviceId: Id, ghost path: seq<Id>)
      returns (r: Result<(), PlanError>)
      requires serviceId in services && serviceId in requested && requested <= services.Keys
      requires Valid(Restrict(services, requested), path)
      modifies this
      ensures match Explore(Restrict(services, requested), path, serviceId)
              case Success(xs) =>
                && r == Success(())
                && Valid(Restrict(services, requested), path)
                && ordered == AppendNew(old(ordered), xs)
              case Failure(f) => r == Failure(PlanErrorOf(f))
      decreases services.Keys - Elems(path), 0
    {
      ghost var g := Restrict(services, requested);
      if serviceId in visited {
        forall x | x in path ensures x !in ordered { assert x in visiting && x !in visited; }
        RevisitAddsNothing(g, ordered, path, serviceId);
        return Success(());
      }
      if serviceId in visiting {
        return Failure(CycleAt(serviceId));
      }
      visiting := visiting + {serviceId};
      ghost var before := ordered;
      assert serviceId in services.Keys - Elems(path) && serviceId !in services.Keys - Elems(path + [serviceId]);
      var below := VisitDependencies(services, requested, services[serviceId], path + [serviceId]);
      if below.Failure? {
        return below;
      }
      CompletedVisit(g, path, serviceId, before, ExploreAll(g, path + [serviceId], g[serviceId]).value);
      assert serviceId in path + [serviceId];
      assert Elems(path + [serviceId]) - {serviceId} == Elems(path);
      visiting := visiting - {serviceId};
      visited := visited + {serviceId};
      ordered := ordered + [serviceId];
      return Success(());
    }

    method VisitDependencies(services: Graph, requested: set<Id>, dependencies: seq<Id>, ghost path: seq<Id>)
      returns (r: Result<(), PlanError>)
      requires requested <= services.Keys
      requires Valid(Restrict(services, requested), path)
      modifies this
      ensures match ExploreAll(Restrict(services, requested), path, Filter(dependencies, requested))
              case Success(xs) =>
                && r == Success(())
                && Valid(Restrict(services, requested), path)
                && ordered == AppendNew(old(ordered), xs)
              case Failure(f) => r == Failure(PlanErrorOf(f))
      decreases services.Keys - Elems(path), 1
    {
      ghost var g, before := Restrict(services, requested), ordered;
      ghost var listed: seq<Id> := [];
      assert dependencies[..0] == [];
      for k := 0 to |dependencies|
        invariant Valid(g, path)
        invariant ExploreAll(g, path, Filter(dependencies[..k], requested)) == Success(listed)
        invariant ordered == AppendNew(before, listed)
      {
        assert dependencies[..k + 1] == dependencies[..k] + [dependencies[k]];
        FilterSnoc(dependencies[..k], dependencies[k], requested);
        if dependencies[k] in requested {
          ExploreAllSnoc(g, path, Filter(dependencies[..k], requested), dependencies[k]);
          var visit := Visit(services, requested, dependencies[k], path);
          if visit.Failure? {
            FilterFailsAt(g, path, dependencies, requested, k);
            return visit;
          }
          ghost var more := Explore(g, path, dependencies[k]).value;
          AppendNewConcat(before, listed, more);
          listed := listed + more;
        } else {
          assert Filter(dependencies[..k + 1], requested) == Filter(dependencies[..k], requested);
        }
      }
      assert dependencies[..|dependencies|] == dependencies;
      return Success(());
    }
  }

  // Requests in order of first mention, or the first one that is not configured.
  method UniqueRegistered(services: Graph, requested: seq<Id>) returns (r: Result<seq<Id>, PlanError>)
    ensures match r
            case Success(unique) => unique == AppendNew([], requested) && (forall x :: x in requested ==> x in services)
            case Failure(e) =>
              exists k :: 0 <= k < |requested| && requested[k] !in services && e == NotFound(requested[k]) &&
                          forall i :: 0 <= i < k ==> requested[i] in services
  {
    var unique: seq<Id> := [];
    var requestedSet: set<Id> := {};
    assert requested[..0] == [];
    for k := 0 to |requested|
      invariant unique == AppendNew([], requested[..k])
      invariant requestedSet == Elems(unique)
      invariant forall i :: 0 <= i < k ==> requested[i] in services
    {
      var serviceId := requested[k];
      if serviceId !in services {
        return Failure(NotFound(serviceId));
      }
      assert requested[..k + 1] == requested[..k] + [serviceId];
      AppendNewSnoc([], requested[..k], serviceId);
      AppendNewContents([], requested[..k]);
      if serviceId !in requestedSet {
        requestedSet := requestedSet + {serviceId};
        unique := unique + [serviceId];
      }
    }
    assert requested[..|requested|] == requested;
    return Success(unique);
  }

  method OrderForStart(services: Graph, unique: seq<Id>) returns (r: Result<seq<Id>, PlanError>)
    requires forall x :: x in unique ==> x in services
    ensures match StartOrder(RequestedGraph(services, unique), unique)
            case Success(order) => r == Success(order)
            case Failure(f) => r == Failure(PlanErrorOf(f))
  {
    var requested: set<Id> := set x | x in unique;
    assert requested == Elems(unique);
    var visit := new RequestedVisit();
    ghost var g := RequestedGraph(services, unique);
    ghost var listed: seq<Id> := [];
    assert unique[..0] == [];
    for k := 0 to |unique|
      invariant visit.Valid(g, [])
      invariant ExploreAll(g, [], unique[..k]) == Success(listed)
      invariant visit.ordered == AppendNew([], listed)
    {
      ExploreAllSnoc(g, [], unique[..k], unique[k]);
      assert unique[..k + 1] == unique[..k] + [unique[k]];
      var one := visit.Visit(services, requested, unique[k], []);
      if one.Failure? {
        ExploreAllFailsAt(g, [], unique, k);
        return Failure(one.error);
      }
      AppendNewConcat([], listed, Explore(g, [], unique[k]).value);
      listed := listed + Explore(g, [], unique[k]).value;
    }
    assert unique[..|unique|] == unique;
    return Success(visit.ordered);
  }

  // One requested service's declarations, skipping everything that was not requested.
  method CountRequested(serviceId: Id, declared: seq<Id>, requested: set<Id>, counts: map<Id, nat>, lists: Graph)
    returns (remaining: map<Id, nat>, dependencies: Graph)
    requires serviceId in lists && requested <= counts.Keys
    ensures CountedFor(serviceId, Filter(declared, requested), counts, remaining, lists, dependencies)
  {
    hide CountedFor, Filter;
    remaining, dependencies := counts, lists;
    CountNone(serviceId, counts, lists);
    assert declared[..0] == [];
    FilterNone(requested);
    for j := 0 to |declared|
      invariant CountedFor(serviceId, Filter(declared[..j], requested), counts, remaining, lists, dependencies)
    {
      var dependency := declared[j];
      assert declared[..j + 1] == declared[..j] + [dependency];
      FilterSnoc(declared[..j], dependency, requested);
      if dependency !in requested {
        assert Filter(declared[..j], requested) + [] == Filter(declared[..j], requested);
        continue;
      }
      CountOneMore(serviceId, Filter(declared[..j], requested), dependency, counts, remaining, lists, dependencies);
      remaining := remaining[dependency := remaining[dependency] + 1];
      dependencies := dependencies[serviceId := dependencies[serviceId] + [dependency]];
    }
    assert declared[..|declared|] == declared;
  }

  lemma {:induction false} FilterNone(keep: set<Id>)
    ensures Filter([], keep) == []
  {}

  method OrderForStop(services: Graph, unique: seq<Id>) returns (r: Result<seq<Id>, PlanError>)
    requires Distinct(unique) && forall x :: x in unique ==> x in services
    ensures Plannable(unique, RequestedGraph(services, unique))
    ensures PlansShutdown(unique, RequestedGraph(services, unique), r)
  {
    hide CountedUpTo, CountedFor, Distinct, PlansShutdown, Plannable, CountsRemaining, IsReady, Filter;
    ghost var g := RequestedGraph(services, unique);
    var requested: set<Id> := set x | x in unique;
    RequestedNodes(services, unique, requested);
    var counts: map<Id, nat> := map x | x in unique :: 0;
    var dependencies: Graph := map x | x in unique :: [];
    NothingCounted(unique, g, counts, dependencies);
    for i := 0 to |unique|
      invariant CountedUpTo(unique, g, i, counts, dependencies)
    {
      CountedKeys(unique, g, i, counts, dependencies);
      var remaining, lists := CountRequested(unique[i], services[unique[i]], requested, counts, dependencies);
      CountedStep(unique, g, i, counts, remaining, dependencies, lists);
      counts, dependencies := remaining, lists;
    }
    CountingDone(unique, g, counts, dependencies);
    var ready := CollectReady(unique, counts);
    r := DrainReady(unique, dependencies, counts, ready);
  }

  lemma {:induction false} RequestedNodes(services: Graph, unique: seq<Id>, requested: set<Id>)
    requires requested == (set x | x in unique) && forall x :: x in unique ==> x in services
    ensures var g := RequestedGraph(services, unique);
            && requested == Elems(unique) == g.Keys
            && (forall x :: x in unique <==> x in g)
            && (forall x :: x in unique ==> g[x] == Filter(services[x], requested))
            && RegisteredUpTo(unique, g, |unique|)
  {}

  // `stop` selects the dependents-first order; start and restart plan dependencies first.
  method OrderMutationServiceIds(services: Graph, requested: seq<Id>, stop: bool)
    returns (r: Result<seq<Id>, PlanError>)
    ensures OrdersBatch(services, requested, stop, r)
  {
    var collected := UniqueRegistered(services, requested);
    if collected.Failure? {
      return Failure(collected.error);
    }
    var unique := collected.value;
    AppendNewContents([], requested);
    assert Elems(unique) == Elems(requested);
    if unique == [] {
      if requested != [] { assert requested[0] in requested && requested[0] in unique; }
      return Failure(NothingRequested);
    }
    if stop {
      r := OrderForStop(services, unique);
    } else {
      r := OrderForStart(services, unique);
    }
  }

  ghost predicate OrdersBatch(services: Graph, requested: seq<Id>, stop: bool, r: Result<seq<Id>, PlanError>) {
    var unique := AppendNew([], requested);
    var g := RequestedGraph(services, requested);
    if exists x :: x in requested && x !in services then
      exists k :: 0 <= k < |requested| && requested[k] !in services && r == Failure(NotFound(requested[k])) &&
                  forall i :: 0 <= i < k ==> requested[i] in services
    else if requested == [] then r == Failure(NothingRequested)
    else if stop then Plannable(unique, g) && PlansShutdown(unique, g, r)
    else
      match StartOrder(g, unique)
      case Success(order) => r == Success(order)
      case Failure(f) => r == Failure(PlanErrorOf(f))
  }

  // --- agreement with the server-side planners ---

  // The requested services, with only their direct edges to one another, as the server would report them.
  function RequestedSnapshots(services: Graph, requested: seq<Id>, unique: seq<Id>): (s: seq<Snapshot>)
    requires forall x :: x in unique ==> x in services
    ensures IdsOf(s) == unique
  {
    seq(|unique|, i requires 0 <= i < |unique| =>
      Snapshot(unique[i], Filter(services[unique[i]], Elems(requested)), None))
  }

  lemma {:induction false} SnapshotsDescribeRequestedGraph(services: Graph, requested: seq<Id>)
    requires forall x :: x in requested ==> x in services
    ensures var unique := AppendNew([], requested);
            && (forall x :: x in unique <==> x in requested)
            && Distinct(unique)
            && GraphOf(RequestedSnapshots(services, requested, unique)) == RequestedGraph(services, requested)
  {
    AppendNewContents([], requested);
    var unique := AppendNew([], requested);
    var s := RequestedSnapshots(services, requested, unique);
    GraphOfDistinct(s);
    var a, b := GraphOf(s), RequestedGraph(services, requested);
    forall x ensures x in a <==> x in b {
      assert x in Elems(unique) <==> x in a;
    }
    forall x | x in a ensures a[x] == b[x] {
      assert x in Elems(unique);
      var i :| 0 <= i < |unique| && unique[i] == x;
      assert s[i].id == x && a[s[i].id] == s[i].dependsOn;
    }
  }

  // A successful batch holds each requested service exactly once; and an accepted request fails
  // only when the requested services depend on one another in a cycle.
  lemma {:induction false} BatchIsPermutation(services: Graph, requested: seq<Id>, stop: bool, r: Result<seq<Id>,
                                              PlanError>)
    requires OrdersBatch(services, requested, stop, r)
    requires requested != [] && forall x :: x in requested ==> x in services
    ensures r.Success? <==> Acyclic(RequestedGraph(services, requested))
    ensures r.Success? ==> Distinct(r.value) && Elems(r.value) == Elems(requested)
    // Of two requested services one of which declares the other, stopping takes the dependent first and
    // starting the dependency.
    ensures r.Success? ==>
              forall i, j :: 0 <= i < |r.value| && 0 <= j < |r.value| && Edge(services, r.value[i], r.value[j]) ==>
                if stop then i < j else j < i
  {
    var unique := AppendNew([], requested);
    AppendNewContents([], requested);
    if stop {
      StopBatch(services, requested, unique, r);
    } else {
      StartBatch(services, requested, unique);
    }
  }

  lemma {:induction false} RequestedEdges(services: Graph, requested: seq<Id>, xs: seq<Id>)
    requires forall x :: x in xs ==> x in requested
    ensures forall i, j :: 0 <= i < |xs| && 0 <= j < |xs| && Edge(services, xs[i], xs[j]) ==>
              Edge(RequestedGraph(services, requested), xs[i], xs[j])
  {}

  lemma {:induction false} StopBatch(services: Graph, requested: seq<Id>, unique: seq<Id>, r: Result<seq<Id>,
                                     PlanError>)
    requires forall x :: x in unique <==> x in requested
    requires var g := RequestedGraph(services, requested); Plannable(unique, g) && PlansShutdown(unique, g, r)
    ensures r.Success? <==> Acyclic(RequestedGraph(services, requested))
    ensures r.Success? ==> Distinct(r.value) && Elems(r.value) == Elems(requested)
    ensures r.Success? ==>
              forall i, j ::
                0 <= i < |r.value| && 0 <= j < |r.value| && Edge(services, r.value[i], r.value[j]) ==> i < j
  {
    var g := RequestedGraph(services, requested);
    ShutdownSucceedsIff(unique, g, r);
    assert Elems(unique) == Elems(requested);
    if r.Success? {
      assert forall x :: x in r.value ==> x in Elems(requested);
      hide RequestedGraph;
      RequestedEdges(services, requested, r.value);
    }
  }

  lemma {:induction false} StartBatch(services: Graph, requested: seq<Id>, unique: seq<Id>)
    requires forall x :: x in requested ==> x in services
    requires forall x :: x in unique <==> x in requested
    ensures var order := StartOrder(RequestedGraph(services, requested), unique);
            && (order.Success? <==> Acyclic(RequestedGraph(services, requested)))
            && (order.Success? ==> Distinct(order.value) && Elems(order.value) == Elems(requested))
            && (order.Success? ==>
                  var xs := order.value;
                  forall i, j :: 0 <= i < |xs| && 0 <= j < |xs| && Edge(services, xs[i], xs[j]) ==> j < i)
  {
    var g := RequestedGraph(services, requested);
    ReachWithinRequest(services, requested, unique);
    StartOrderSucceedsIff(g, unique);
    if StartOrder(g, unique).Success? {
      StartOrderIsPlan(g, unique);
      DependenciesFirst(services, requested, StartOrder(g, unique).value);
    }
    forall p | ClosedWalk(g, p) ensures ReachedFrom(g, unique, p[0]) {
      assert Edge(g, p[0], p[1]);
    }
  }

  lemma {:induction false} DependenciesFirst(services: Graph, requested: seq<Id>, order: seq<Id>)
    requires Distinct(order) && Topological(RequestedGraph(services, requested), order)
    requires forall x :: x in order ==> x in requested
    ensures forall i, j :: 0 <= i < |order| && 0 <= j < |order| && Edge(services, order[i], order[j]) ==> j < i
  {
    RequestedEdges(services, requested, order);
    forall i, j | 0 <= i < |order| && 0 <= j < |order| && Edge(services, order[i], order[j]) ensures j < i {
      assert order[j] in order[..i];
    }
  }

  lemma {:induction false} ReachWithinRequest(services: Graph, requested: seq<Id>, unique: seq<Id>)
    requires forall x :: x in requested ==> x in services
    requires forall x :: x in unique <==> x in requested
    ensures forall x :: ReachedFrom(RequestedGraph(services, requested), unique, x) <==> x in requested
  {
    var g := RequestedGraph(services, requested);
    forall x ensures ReachedFrom(g, unique, x) <==> x in requested {
      if x in requested {
        ReachesSelf(g, x);
        assert x in unique;
      }
      if ReachedFrom(g, unique, x) {
        var r :| r in unique && Reaches(g, r, x);
        var p :| WalkFromTo(g, p, r, x);
        assert r in g.Keys;
        ClosedUnderWalk(g, g.Keys, p);
        assert p[|p| - 1] in p;
      }
    }
  }
}
