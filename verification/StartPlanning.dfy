// src/application/dependency_control.rs: `stable_start_order` and `visit_start`.
module StartPlanning {
  import opened Wrappers
  import opened Sequences
  import opened DependencyGraph
  import opened Exploration

  // The part of a service snapshot that planning reads.
  datatype Snapshot = Snapshot(id: Id, dependsOn: seq<Id>, rootPid: Option<nat>)

  datatype PlanError = NotFound(id: Id) | CycleAt(id: Id) | CycleRemains | NothingRequested

  function PlanErrorOf(f: Fault): PlanError {
    match f
    case Missing(id) => NotFound(id)
    case Loop(_, id) => CycleAt(id)
  }

  // Collecting the snapshots into a map: a later snapshot with the same id wins.
  function GraphOf(snapshots: seq<Snapshot>): Graph {
    if snapshots == [] then map[]
    else
      var last := snapshots[|snapshots| - 1];
      GraphOf(snapshots[..|snapshots| - 1])[last.id := last.dependsOn]
  }

  // An id is registered exactly if it occurs, with what its last snapshot declares.
  lemma {:induction false} LastSnapshotCounts(snapshots: seq<Snapshot>, x: Id)
    ensures x in GraphOf(snapshots) <==> exists i :: 0 <= i < |snapshots| && snapshots[i].id == x
    ensures forall i :: 0 <= i < |snapshots| && snapshots[i].id == x
                        && (forall j :: i < j < |snapshots| ==> snapshots[j].id != x) ==>
              GraphOf(snapshots)[x] == snapshots[i].dependsOn
  {
    if snapshots != [] {
      var n := |snapshots| - 1;
      var front, last := snapshots[..n], snapshots[n];
      LastSnapshotCounts(front, x);
      assert snapshots == front + [last];
      hide GraphOf;
      assert GraphOf(snapshots) == GraphOf(front)[last.id := last.dependsOn] by { LastOverwrites(snapshots); }
    }
  }

  lemma {:induction false} LastOverwrites(snapshots: seq<Snapshot>)
    requires snapshots != []
    ensures var last := snapshots[|snapshots| - 1];
            GraphOf(snapshots) == GraphOf(snapshots[..|snapshots| - 1])[last.id := last.dependsOn]
  {}

  // The plan by definition: search without memory, then keep first occurrences.
  ghost function StartOrder(g: Graph, requested: seq<Id>): Result<seq<Id>, Fault> {
    match ExploreAll(g, [], requested)
    case Failure(f) => Failure(f)
    case Success(xs) => Success(AppendNew([], xs))
  }

  // What appending the service after its dependencies achieves.
  lemma {:induction false} CompletedVisit(g: Graph, path: seq<Id>, s: Id, before: seq<Id>, listed: seq<Id>)
    requires OnPath(g, path) && s in g && s !in path && s !in before
    requires Finished(g, AppendNew(before, listed))
    requires ExploreAll(g, path + [s], g[s]) == Success(listed)
    ensures s !in AppendNew(before, listed)
    ensures Finished(g, AppendNew(before, listed) + [s])
    ensures AppendNew(before, listed + [s]) == AppendNew(before, listed) + [s]
  {
    ExploreAllListing(g, path + [s], g[s]);
    assert s in path + [s];
    AppendNewContents(before, listed);
    AppendNewSnoc(before, listed, s);
    TopologicalSnoc(g, AppendNew(before, listed), s);
  }

  // The three collections threaded through the recursive visit.
  class StartVisit {
    var visiting: set<Id>
    var visited: set<Id>
    var ordered: seq<Id>

    ghost predicate Valid(services: Graph, path: seq<Id>)
      reads this
    {
      && OnPath(services, path)
      && visiting == Elems(path)
      && visited == Elems(ordered)
      && Finished(services, ordered)
      && visiting !! visited
    }

    constructor ()
      ensures visiting == {} && visited == {} && ordered == []
    {
      visiting, visited, ordered := {}, {}, [];
    }

    method Visit(services: Graph, serviceId: Id, ghost path: seq<Id>) returns (r: Result<(), PlanError>)
      requires Valid(services, path)
      modifies this
      ensures match Explore(services, path, serviceId)
              case Success(xs) =>
                r == Success(()) && Valid(services, path) && ordered == AppendNew(old(ordered), xs)
              case Failure(f) => r == Failure(PlanErrorOf(f))
      decreases services.Keys - Elems(path)
    {
      if serviceId in visited {
        forall x | x in path ensures x !in ordered { assert x in visiting && x !in visited; }
        RevisitAddsNothing(services, ordered, path, serviceId);
        return Success(());
      }
      if serviceId !in services {
        return Failure(NotFound(serviceId));
      }
      if serviceId in visiting {
        return Failure(CycleAt(serviceId));
      }
      visiting := visiting + {serviceId};
      ghost var before := ordered;
      ghost var inner := path + [serviceId];
      var dependencies := services[serviceId];
      ghost var listed: seq<Id> := [];
      assert dependencies[..0] == [];
      for k := 0 to |dependencies|
        invariant Valid(services, inner)
        invariant ExploreAll(services, inner, dependencies[..k]) == Success(listed)
        invariant ordered == AppendNew(before, listed)
      {
        ExploreAllSnoc(services, inner, dependencies[..k], dependencies[k]);
        assert dependencies[..k + 1] == dependencies[..k] + [dependencies[k]];
        assert serviceId in inner;
        var visit := Visit(services, dependencies[k], inner);
        if visit.Failure? {
          ExploreAllFailsAt(services, inner, dependencies, k);
          return visit;
        }
        ghost var more := Explore(services, inner, dependencies[k]).value;
        AppendNewConcat(before, listed, more);
        listed := listed + more;
      }
      assert dependencies[..|dependencies|] == dependencies;
      CompletedVisit(services, path, serviceId, before, listed);
      assert Elems(inner) - {serviceId} == Elems(path);
      visiting := visiting - {serviceId};
      visited := visited + {serviceId};
      ordered := ordered + [serviceId];
      return Success(());
    }
  }

  method StableStartOrder(snapshots: seq<Snapshot>, requested: seq<Id>) returns (r: Result<seq<Id>, PlanError>)
    ensures match StartOrder(GraphOf(snapshots), requested)
            case Success(order) => r == Success(order)
            case Failure(f) => r == Failure(PlanErrorOf(f))
  {
    var services := GraphOf(snapshots);
    var visit := new StartVisit();
    ghost var listed: seq<Id> := [];
    assert requested[..0] == [];
    for k := 0 to |requested|
      invariant visit.Valid(services, [])
      invariant ExploreAll(services, [], requested[..k]) == Success(listed)
      invariant visit.ordered == AppendNew([], listed)
    {
      ExploreAllSnoc(services, [], requested[..k], requested[k]);
      assert requested[..k + 1] == requested[..k] + [requested[k]];
      var one := visit.Visit(services, requested[k], []);
      if one.Failure? {
        ExploreAllFailsAt(services, [], requested, k);
        return Failure(one.error);
      }
      AppendNewConcat([], listed, Explore(services, [], requested[k]).value);
      listed := listed + Explore(services, [], requested[k]).value;
    }
    assert requested[..|requested|] == requested;
    return Success(visit.ordered);
  }

  // Planning succeeds exactly when everything reachable is registered and cycle-free,
  // and the error of a failing plan names a genuine culprit.
  lemma {:induction false} StartOrderSucceedsIff(g: Graph, requested: seq<Id>)
    ensures StartOrder(g, requested).Success? <==> Launchable(g, requested)
    ensures StartOrder(g, requested).Failure? ==> ErrorIsGenuine(g, requested,
            PlanErrorOf(StartOrder(g, requested).error))
    // The first request that cannot be planned decides the error.
    ensures StartOrder(g, requested).Failure? ==>
              exists k :: 0 <= k < |requested| && StartOrder(g, requested[..k]).Success?
                          && StartOrder(g, [requested[k]]) == StartOrder(g, requested)
  {
    ExploreSucceedsIff(g, requested);
    if StartOrder(g, requested).Failure? {
      var k := FirstFailingRequest(g, requested);
      var f := StartOrder(g, requested).error;
      var r :| r in requested && Explains(g, r, f);
      if f.Loop? {
        assert f.Cycle()[|f.Cycle()| - 1] == f.id;
      }
    }
  }

  lemma {:induction false} FirstFailingRequest(g: Graph, requested: seq<Id>) returns (k: nat)
    requires ExploreAll(g, [], requested).Failure?
    ensures k < |requested| && ExploreAll(g, [], requested[..k]).Success?
    ensures ExploreAll(g, [], [requested[k]]) == ExploreAll(g, [], requested)
  {
    var front, last := requested[..|requested| - 1], requested[|requested| - 1];
    assert requested == front + [last];
    ExploreAllSnoc(g, [], front, last);
    ExploreOne(g, [], last);
    if ExploreAll(g, [], front).Failure? {
      k := FirstFailingRequest(g, front);
      assert front[..k] == requested[..k];
    } else {
      k := |front|;
    }
  }

  // What is being visited only matters for recognising cycles.
  lemma {:induction false} PathIsIrrelevant(g: Graph, path: seq<Id>, other: seq<Id>, s: Id)
    requires OnPath(g, path) && OnPath(g, other) && (forall x :: x in other ==> x in path)
    requires Explore(g, path, s).Success?
    ensures Explore(g, other, s) == Explore(g, path, s)
    decreases g.Keys - Elems(path), 0
  {
    assert s in g.Keys - Elems(path) && s !in g.Keys - Elems(path + [s]);
    PathIsIrrelevantToAll(g, path + [s], other + [s], g[s]);
  }

  lemma {:induction false} PathIsIrrelevantToAll(g: Graph, path: seq<Id>, other: seq<Id>, ss: seq<Id>)
    requires OnPath(g, path) && OnPath(g, other) && (forall x :: x in other ==> x in path)
    requires ExploreAll(g, path, ss).Success?
    ensures ExploreAll(g, other, ss) == ExploreAll(g, path, ss)
    decreases g.Keys - Elems(path), |ss|
  {
    if ss != [] {
      PathIsIrrelevant(g, path, other, ss[0]);
      PathIsIrrelevantToAll(g, path, other, ss[1..]);
    }
  }

  // A service is planned right behind the plan for its dependencies in the order it declares them. With
  // StartOrderPrefix and AppendsInOrder this determines every plan.
  lemma {:induction false} DeclaredOrderCounts(g: Graph, s: Id)
    requires StartOrder(g, [s]).Success?
    ensures s in g && StartOrder(g, g[s]).Success?
    ensures StartOrder(g, [s]).value == StartOrder(g, g[s]).value + [s]
  {
    ExploreOne(g, [], s);
    var ys := ExploreAll(g, [] + [s], g[s]).value;
    PathIsIrrelevantToAll(g, [] + [s], [], g[s]);
    ExploreAllListing(g, [] + [s], g[s]);
    assert s in [] + [s];
    AppendNewSnoc([], ys, s);
  }

  // One more request appends what its own plan adds.
  lemma {:induction false} AppendsInOrder(g: Graph, requested: seq<Id>, s: Id)
    requires StartOrder(g, requested).Success? && StartOrder(g, [s]).Success?
    ensures StartOrder(g, requested + [s]).Success?
    ensures var first, own := StartOrder(g, requested).value, StartOrder(g, [s]).value;
            StartOrder(g, requested + [s]).value == AppendNew(first, own)
  {
    ExploreAllSnoc(g, [], requested, s);
    ExploreOne(g, [], s);
    var xs, ys := ExploreAll(g, [], requested).value, Explore(g, [], s).value;
    AppendNewConcat([], xs, ys);
    AppendNewTwice(AppendNew([], xs), ys);
  }

  ghost predicate OnCycle(g: Graph, id: Id) {
    exists p :: ClosedWalk(g, p) && p[0] == id
  }

  ghost predicate ErrorIsGenuine(g: Graph, requested: seq<Id>, e: PlanError) {
    match e
    case NotFound(id) => id !in g && ReachedFrom(g, requested, id)
    case CycleAt(id) => OnCycle(g, id) && ReachedFrom(g, requested, id)
    case _ => false
  }

  // A successful plan: each reachable service exactly once, every dependency before its dependents.
  lemma {:induction false} StartOrderIsPlan(g: Graph, requested: seq<Id>)
    requires StartOrder(g, requested).Success?
    ensures var order := StartOrder(g, requested).value;
            && Distinct(order)
            && Topological(g, order)
            && (forall x :: x in order <==> ReachedFrom(g, requested, x))
  {
    ExploreAllReach(g, requested);
    AppendNewFinished(g, [], [], requested);
    AppendNewContents([], ExploreAll(g, [], requested).value);
  }

  // Caller order is respected: the services planned for the first k requests come first,
  // and they are exactly the services those k requests reach.
  lemma {:induction false} StartOrderPrefix(g: Graph, requested: seq<Id>, k: nat)
    requires StartOrder(g, requested).Success? && k <= |requested|
    ensures StartOrder(g, requested[..k]).Success?
    ensures var first := StartOrder(g, requested[..k]).value;
            && first <= StartOrder(g, requested).value
            && (forall x :: x in first <==> ReachedFrom(g, requested[..k], x))
  {
    assert requested == requested[..k] + requested[k..];
    ExploreAllConcat(g, [], requested[..k], requested[k..]);
    var xs := ExploreAll(g, [], requested[..k]).value;
    var ys := ExploreAll(g, [], requested[k..]).value;
    AppendNewConcat([], xs, ys);
    AppendNewContents(AppendNew([], xs), ys);
    StartOrderIsPlan(g, requested[..k]);
  }

  // A plan for one service ends with that service.
  lemma {:induction false} TargetComesLast(g: Graph, target: Id)
    requires StartOrder(g, [target]).Success?
    ensures var order := StartOrder(g, [target]).value;
            order != [] && order[|order| - 1] == target && target !in order[..|order| - 1]
  {
    ExploreOne(g, [], target);
    ExploreListing(g, [], target);
    var ys :| Explore(g, [], target).value == ys + [target] && target !in ys;
    AppendNewSnoc([], ys, target);
    AppendNewContents([], ys);
    assert StartOrder(g, [target]).value[..|AppendNew([], ys)|] == AppendNew([], ys);
  }
}
