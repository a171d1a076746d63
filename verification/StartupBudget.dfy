// src/adapters/config.rs: the worklist of `validate_launch_readiness`.
// src/cli.rs: `dependency_startup_budget_ms`.
module StartupBudget {
  import opened Wrappers
  import opened Sequences
  import opened DependencyGraph
  import opened StartPlanning

  // --- launch readiness ---

  datatype ReadinessIssue = NoServiceIds | ServiceNotFound(id: Id) | LaunchPath(id: Id, issue: string)

  // Requested services, registered services and everything any of them declares.
  ghost function Universe(services: Graph, requested: seq<Id>): set<Id> {
    Elems(requested) + services.Keys + set s, d | s in services && d in services[s] :: d
  }

  // Everything seen so far is reachable, and everything reachable in one step has been seen.
  ghost predicate Frontier(services: Graph, requested: seq<Id>, pending: seq<Id>, relevant: set<Id>) {
    && (forall x :: x in pending || x in relevant ==> ReachedFrom(services, requested, x))
    && (forall x :: x in pending ==> x in Universe(services, requested))
    && (forall x :: x in requested ==> x in pending || x in relevant)
    && (forall a, b :: a in relevant && Edge(services, a, b) ==> b in pending || b in relevant)
  }

  lemma {:induction false} FrontierStart(services: Graph, requested: seq<Id>)
    ensures Frontier(services, requested, requested, {})
  {
    forall x | x in requested ensures ReachedFrom(services, requested, x) {
      ReachesSelf(services, x);
    }
  }

  // Popping an entry, marking it relevant and pushing its dependencies (none if unregistered).
  lemma {:induction false} FrontierVisit(services: Graph, requested: seq<Id>, pending: seq<Id>, s: Id,
                                         relevant: set<Id>, more: seq<Id>)
    requires Frontier(services, requested, pending + [s], relevant)
    requires more == if s in services then services[s] else []
    ensures Frontier(services, requested, pending + more, relevant + {s})
  {
    assert s in pending + [s];
    forall d | d in more ensures ReachedFrom(services, requested, d) {
      ReachedStep(services, requested, s, d);
    }
    assert forall x :: x in pending ==> x in pending + [s];
  }

  lemma {:induction false} FrontierSkip(services: Graph, requested: seq<Id>, pending: seq<Id>, s: Id, relevant: set<Id>)
    requires Frontier(services, requested, pending + [s], relevant) && s in relevant
    ensures Frontier(services, requested, pending, relevant)
  {
    assert forall x :: x in pending ==> x in pending + [s];
  }

  lemma {:induction false} FrontierInUniverse(services: Graph, requested: seq<Id>, pending: seq<Id>, s: Id,
                                              relevant: set<Id>)
    requires Frontier(services, requested, pending + [s], relevant)
    ensures s in Universe(services, requested)
  {
    assert s in pending + [s];
  }

  lemma {:induction false} FrontierDone(services: Graph, requested: seq<Id>, relevant: set<Id>)
    requires Frontier(services, requested, [], relevant)
    ensures forall x :: x in relevant <==> ReachedFrom(services, requested, x)
  {
    forall x | ReachedFrom(services, requested, x) ensures x in relevant {
      var r :| r in requested && Reaches(services, r, x);
      var p :| WalkFromTo(services, p, r, x);
      ClosedUnderWalk(services, relevant, p);
    }
  }

  // The closure the worklist computes, on cyclic graphs too; each unknown service is met once.
  method CollectRelevant(services: Graph, requested: seq<Id>) returns (relevant: set<Id>, unknown: seq<Id>)
    ensures forall x :: x in relevant <==> ReachedFrom(services, requested, x)
    ensures Distinct(unknown)
    ensures forall x :: x in unknown <==> x in relevant && x !in services
  {
    hide Frontier;
    var pending := requested;
    relevant, unknown := {}, [];
    ghost var universe := Universe(services, requested);
    FrontierStart(services, requested);
    while pending != []
      invariant Frontier(services, requested, pending, relevant)
      invariant Distinct(unknown)
      invariant forall x :: x in unknown <==> x in relevant && x !in services
      decreases universe - relevant, |pending|
    {
      var serviceId := pending[|pending| - 1];
      assert pending == pending[..|pending| - 1] + [serviceId];
      pending := pending[..|pending| - 1];
      if serviceId in relevant {
        FrontierSkip(services, requested, pending, serviceId, relevant);
        continue;
      }
      FrontierInUniverse(services, requested, pending, serviceId, relevant);
      var dependencies := if serviceId in services then services[serviceId] else [];
      FrontierVisit(services, requested, pending, serviceId, relevant, dependencies);
      relevant := relevant + {serviceId};
      if serviceId !in services {
        unknown := unknown + [serviceId];
        assert pending + dependencies == pending;
        continue;
      }
      pending := pending + dependencies;
    }
    FrontierDone(services, requested, relevant);
  }

  lemma {:induction false} ReachedStep(g: Graph, roots: seq<Id>, a: Id, b: Id)
    requires ReachedFrom(g, roots, a) && Edge(g, a, b)
    ensures ReachedFrom(g, roots, b)
  {
    var r :| r in roots && Reaches(g, r, a);
    ReachesEnd(g, r, a, b);
  }

  lemma {:induction false} ReachesEnd(g: Graph, a: Id, b: Id, c: Id)
    requires Reaches(g, a, b) && Edge(g, b, c)
    ensures Reaches(g, a, c)
  {
    var p :| WalkFromTo(g, p, a, b);
    var q := p + [c];
    forall i | 0 <= i < |q| - 1 ensures Edge(g, q[i], q[i + 1]) {
      if i < |p| - 1 { assert Edge(g, p[i], p[i + 1]); }
    }
    assert WalkFromTo(g, q, a, c);
  }

  function NotFoundIssues(unknown: seq<Id>): (issues: seq<ReadinessIssue>)
    ensures |issues| == |unknown| && forall i :: 0 <= i < |unknown| ==> issues[i] == ServiceNotFound(unknown[i])
  {
    seq(|unknown|, i requires 0 <= i < |unknown| => ServiceNotFound(unknown[i]))
  }

  function PathIssues(id: Id, found: seq<string>): (issues: seq<ReadinessIssue>)
    ensures |issues| == |found| && forall i :: 0 <= i < |found| ==> issues[i] == LaunchPath(id, found[i])
  {
    seq(|found|, i requires 0 <= i < |found| => LaunchPath(id, found[i]))
  }

  // The path issues of these services, service by service.
  function LaunchIssues(ids: seq<Id>, pathIssues: Id -> seq<string>): seq<ReadinessIssue> {
    if ids == [] then []
    else LaunchIssues(ids[..|ids| - 1], pathIssues) + PathIssues(ids[|ids| - 1], pathIssues(ids[|ids| - 1]))
  }

  lemma {:induction false} NoLaunchIssues(ids: seq<Id>, pathIssues: Id -> seq<string>)
    ensures LaunchIssues(ids, pathIssues) == [] <==> forall x :: x in ids ==> pathIssues(x) == []
  {
    if ids != [] {
      NoLaunchIssues(ids[..|ids| - 1], pathIssues);
      assert forall x :: x in ids <==> x == ids[|ids| - 1] || x in ids[..|ids| - 1];
    }
  }

  // `relevant` is everything reachable, `unknown` lists its unregistered part once each.
  ghost predicate Collected(services: Graph, requested: seq<Id>, relevant: set<Id>, unknown: seq<Id>) {
    && (forall x :: x in relevant <==> ReachedFrom(services, requested, x))
    && Distinct(unknown)
    && (forall x :: x in unknown <==> x in relevant && x !in services)
  }

  // Nothing requested, then unknown services, then the path issues of the reachable services in key order.
  function Readiness(ids: seq<Id>, requested: seq<Id>, relevant: set<Id>, unknown: seq<Id>,
                     pathIssues: Id -> seq<string>)
    : seq<ReadinessIssue>
  {
    (if requested == [] then [NoServiceIds] else []) + NotFoundIssues(unknown) +
        LaunchIssues(Filter(ids, relevant), pathIssues)
  }

  // `ids` is the key order of the service map; `pathIssues` are the findings of the directory and
  // executable checks of one service.
  method ValidateLaunchReadiness(ids: seq<Id>, services: Graph, requested: seq<Id>, pathIssues: Id -> seq<string>)
    returns (r: Result<(), seq<ReadinessIssue>>)
    requires Distinct(ids) && Elems(ids) == services.Keys
    ensures r.Success? <==>
            && requested != []
            && (forall x :: ReachedFrom(services, requested, x) ==> x in services && pathIssues(x) == [])
    ensures r.Failure? ==>
            exists relevant, unknown ::
              Collected(services, requested, relevant, unknown) &&
                  r.error == Readiness(ids, requested, relevant, unknown, pathIssues)
    ensures r.Failure? ==>
              && (NoServiceIds in r.error <==> requested == [])
              && (forall x :: ServiceNotFound(x) in r.error <==> ReachedFrom(services, requested, x) && x !in services)
              && (forall x, issue :: LaunchPath(x, issue) in r.error <==>
                    ReachedFrom(services, requested, x) && x in services && issue in pathIssues(x))
              && ByKindAndKey(ids, r.error)
  {
    hide ByKindAndKey, LaunchIssues, Filter, PathIssues, NotFoundIssues, ReachedFrom, Collected, Readiness;
    var issues := if requested == [] then [NoServiceIds] else [];
    var relevant, unknown := CollectRelevant(services, requested);
    issues := issues + NotFoundIssues(unknown);
    var checked := Filter(ids, relevant);
    ghost var before := issues;
    LaunchIssuesStart(issues, checked, pathIssues);
    for k := 0 to |checked|
      invariant issues == before + LaunchIssues(checked[..k], pathIssues)
    {
      LaunchIssuesStep(before, checked, k, pathIssues);
      issues := issues + PathIssues(checked[k], pathIssues(checked[k]));
    }
    assert checked[..|checked|] == checked;
    CollectedIs(services, requested, relevant, unknown);
    ReadinessIs(ids, requested, relevant, unknown, pathIssues);
    ReadyIff(ids, services, requested, relevant, unknown, pathIssues);
    ReadinessMembers(ids, services, requested, relevant, unknown, pathIssues);
    ReadinessIsOrdered(ids, requested, relevant, unknown, pathIssues);
    return if issues == [] then Success(()) else Failure(issues);
  }

  lemma {:induction false} LaunchIssuesStart(before: seq<ReadinessIssue>, ids: seq<Id>, pathIssues: Id -> seq<string>)
    ensures before == before + LaunchIssues(ids[..0], pathIssues)
  {
    assert before + [] == before;
  }

  lemma {:induction false} LaunchIssuesStep(before: seq<ReadinessIssue>, ids: seq<Id>, k: nat,
                                            pathIssues: Id -> seq<string>)
    requires k < |ids|
    ensures before + LaunchIssues(ids[..k + 1], pathIssues) ==
            before + LaunchIssues(ids[..k], pathIssues) + PathIssues(ids[k], pathIssues(ids[k]))
  {
    assert ids[..k + 1][..k] == ids[..k];
    Regroup(before, LaunchIssues(ids[..k], pathIssues), PathIssues(ids[k], pathIssues(ids[k])));
  }

  lemma {:induction false} CollectedIs(services: Graph, requested: seq<Id>, relevant: set<Id>, unknown: seq<Id>)
    requires (forall x :: x in relevant <==> ReachedFrom(services, requested, x)) && Distinct(unknown)
    requires forall x :: x in unknown <==> x in relevant && x !in services
    ensures Collected(services, requested, relevant, unknown)
  {}

  lemma {:induction false} ReadinessIs(ids: seq<Id>, requested: seq<Id>, relevant: set<Id>, unknown: seq<Id>,
                                       pathIssues: Id -> seq<string>)
    ensures Readiness(ids, requested, relevant, unknown, pathIssues) ==
            (if requested == [] then [NoServiceIds] else []) + NotFoundIssues(unknown) +
                LaunchIssues(Filter(ids, relevant), pathIssues)
  {}

  lemma {:induction false} ReadyIff(ids: seq<Id>, services: Graph, requested: seq<Id>, relevant: set<Id>,
                                    unknown: seq<Id>,
                                    pathIssues: Id -> seq<string>)
    requires Elems(ids) == services.Keys && Collected(services, requested, relevant, unknown)
    ensures Readiness(ids, requested, relevant, unknown, pathIssues) == [] <==>
            && requested != []
            && (forall x :: ReachedFrom(services, requested, x) ==> x in services && pathIssues(x) == [])
  {
    NoLaunchIssues(Filter(ids, relevant), pathIssues);
    assert forall x :: x in ids <==> x in services by {
      assert forall x :: x in Elems(ids) <==> x in services;
    }
    hide ReachedFrom;
    if unknown != [] { assert unknown[0] in unknown; }
  }

  lemma {:induction false} LaunchMembers(ids: seq<Id>, pathIssues: Id -> seq<string>)
    ensures forall x, issue :: LaunchPath(x, issue) in LaunchIssues(ids, pathIssues) <==>
              x in ids && issue in pathIssues(x)
    ensures forall e :: e in LaunchIssues(ids, pathIssues) ==> e.LaunchPath?
  {
    if ids != [] {
      var front, last := ids[..|ids| - 1], ids[|ids| - 1];
      LaunchMembers(front, pathIssues);
      PathMembers(last, pathIssues(last));
      hide PathIssues;
      assert ids == front + [last];
    }
  }

  lemma {:induction false} PathMembers(id: Id, found: seq<string>)
    ensures forall x, issue :: LaunchPath(x, issue) in PathIssues(id, found) <==> x == id && issue in found
  {
    forall issue | issue in found ensures LaunchPath(id, issue) in PathIssues(id, found) {
      var i :| 0 <= i < |found| && found[i] == issue;
      assert PathIssues(id, found)[i] == LaunchPath(id, issue);
    }
  }

  lemma {:induction false} NotFoundMembers(unknown: seq<Id>)
    ensures forall x :: ServiceNotFound(x) in NotFoundIssues(unknown) <==> x in unknown
  {
    forall x | x in unknown ensures ServiceNotFound(x) in NotFoundIssues(unknown) {
      var i :| 0 <= i < |unknown| && unknown[i] == x;
      assert NotFoundIssues(unknown)[i] == ServiceNotFound(x);
    }
  }

  lemma {:induction false} ReadinessMembers(ids: seq<Id>, services: Graph, requested: seq<Id>, relevant: set<Id>,
                                            unknown: seq<Id>, pathIssues: Id -> seq<string>)
    requires Elems(ids) == services.Keys && Collected(services, requested, relevant, unknown)
    ensures var issues := Readiness(ids, requested, relevant, unknown, pathIssues);
            && (NoServiceIds in issues <==> requested == [])
            && (forall x :: ServiceNotFound(x) in issues <==> ReachedFrom(services, requested, x) && x !in services)
            && (forall x, issue :: LaunchPath(x, issue) in issues <==>
                  ReachedFrom(services, requested, x) && x in services && issue in pathIssues(x))
  {
    NotFoundMembers(unknown);
    LaunchMembers(Filter(ids, relevant), pathIssues);
    assert forall x :: x in ids <==> x in services by {
      assert forall x :: x in Elems(ids) <==> x in services;
    }
    hide ReachedFrom, LaunchIssues, Filter;
  }

  // The empty request first, unknown services next, and then path issues in key order.
  ghost predicate ByKindAndKey(ids: seq<Id>, issues: seq<ReadinessIssue>) {
    && (forall i :: 0 <= i < |issues| && issues[i].LaunchPath? ==> issues[i].id in ids)
    && (forall i, j :: 0 <= i < j < |issues| ==>
          && !issues[j].NoServiceIds?
          && (issues[i].LaunchPath? ==>
                issues[j].LaunchPath? && IndexOf(ids, issues[i].id) <= IndexOf(ids, issues[j].id)))
  }

  lemma {:induction false} FilterRises(ids: seq<Id>, keep: set<Id>)
    requires Distinct(ids)
    ensures Rises(Filter(ids, keep), ids)
  {
    if ids != [] {
      var front, x := ids[..|ids| - 1], ids[|ids| - 1];
      assert ids == front + [x];
      FilterRises(front, keep);
      FilterSnoc(front, x, keep);
      IndexOfFound(ids, |front|, x);
      var g := Filter(front, keep);
      hide Filter, IndexOf;
      forall i | 0 <= i < |g| ensures g[i] in front && IndexOf(ids, g[i]) == IndexOf(front, g[i]) {
        assert g[i] in g;
        IndexOfPrefix(front, [x], g[i]);
      }
    }
  }

  lemma {:induction false} LaunchIssuesRise(all: seq<Id>, ids: seq<Id>, pathIssues: Id -> seq<string>)
    requires Rises(ids, all)
    ensures ByKindAndKey(all, LaunchIssues(ids, pathIssues))
    ensures forall e :: e in LaunchIssues(ids, pathIssues) ==> e.LaunchPath? && e.id in ids
  {
    hide IndexOf;
    if ids != [] {
      var front, x := ids[..|ids| - 1], ids[|ids| - 1];
      LaunchIssuesRise(all, front, pathIssues);
      var a, b := LaunchIssues(front, pathIssues), PathIssues(x, pathIssues(x));
      assert LaunchIssues(ids, pathIssues) == a + b;
      assert x in ids;
      hide LaunchIssues;
      PathsBehind(all, front, x, a, b);
    }
  }

  lemma {:induction false} PathsBehind(all: seq<Id>, front: seq<Id>, x: Id, a: seq<ReadinessIssue>,
                                       b: seq<ReadinessIssue>)
    requires x in all && (forall y :: y in front ==> y in all)
    requires forall i :: 0 <= i < |front| ==> IndexOf(all, front[i]) < IndexOf(all, x)
    requires ByKindAndKey(all, a) && forall e :: e in a ==> e.LaunchPath? && e.id in front
    requires forall i :: 0 <= i < |b| ==> b[i].LaunchPath? && b[i].id == x
    ensures ByKindAndKey(all, a + b) && forall e :: e in a + b ==> e.LaunchPath? && e.id in front + [x]
  {
    hide IndexOf;
    forall i | 0 <= i < |a| ensures a[i].LaunchPath? && a[i].id in all && IndexOf(all, a[i].id) < IndexOf(all, x) {
      assert a[i] in a;
      var k :| 0 <= k < |front| && front[k] == a[i].id;
    }
  }

  lemma {:induction false} ReadinessIsOrdered(ids: seq<Id>, requested: seq<Id>, relevant: set<Id>, unknown: seq<Id>,
                                              pathIssues: Id -> seq<string>)
    requires Distinct(ids)
    ensures ByKindAndKey(ids, Readiness(ids, requested, relevant, unknown, pathIssues))
  {
    hide *;
    var f := Filter(ids, relevant);
    FilterRises(ids, relevant);
    LaunchIssuesRise(ids, f, pathIssues);
    var first: seq<ReadinessIssue> := if requested == [] then [NoServiceIds] else [];
    KindsInOrder(ids, first, NotFoundIssues(unknown), LaunchIssues(f, pathIssues));
    ReadinessIs(ids, requested, relevant, unknown, pathIssues);
  }

  lemma {:induction false} KindsInOrder(ids: seq<Id>, first: seq<ReadinessIssue>, second: seq<ReadinessIssue>,
                                        third: seq<ReadinessIssue>)
    requires first == [] || first == [NoServiceIds]
    requires forall i :: 0 <= i < |second| ==> second[i].ServiceNotFound?
    requires ByKindAndKey(ids, third) && forall e :: e in third ==> e.LaunchPath?
    ensures ByKindAndKey(ids, first + second + third)
  {
    hide IndexOf;
    var issues, n := first + second + third, |first| + |second|;
    forall i | 0 <= i < |issues|
      ensures i < |first| ==> issues[i].NoServiceIds?
      ensures |first| <= i < n ==> issues[i].ServiceNotFound?
      ensures i >= n ==> issues[i] == third[i - n] && issues[i].LaunchPath?
    {
      if i >= n { assert third[i - n] in third; }
    }
  }

  // The closure and the start plan cover the same services whenever there is a plan.
  lemma {:induction false} ReadinessCoversPlan(services: Graph, requested: seq<Id>, relevant: set<Id>)
    requires forall x :: x in relevant <==> ReachedFrom(services, requested, x)
    requires StartOrder(services, requested).Success?
    ensures Elems(StartOrder(services, requested).value) == relevant && relevant <= services.Keys
  {
    StartOrderIsPlan(services, requested);
    StartOrderSucceedsIff(services, requested);
  }

  // --- startup budget ---

  const U64_MAX: nat := 0xFFFF_FFFF_FFFF_FFFF

  function SaturatingAdd(a: nat, b: nat): nat {
    if a + b > U64_MAX then U64_MAX else a + b
  }

  function Saturate(n: nat): nat {
    if n > U64_MAX then U64_MAX else n
  }

  datatype Timing = Timing(dependsOn: seq<Id>, prerequisites: seq<nat>, startup: nat)

  function Dependencies(services: map<Id, Timing>): Graph {
    map s | s in services :: services[s].dependsOn
  }

  function Sum(xs: seq<nat>): nat {
    if xs == [] then 0 else xs[0] + Sum(xs[1..])
  }

  lemma {:induction false} SumSnoc(xs: seq<nat>, x: nat)
    ensures Sum(xs + [x]) == Sum(xs) + x
  {
    if xs == [] {
      assert [x][1..] == [];
    } else {
      assert (xs + [x])[1..] == xs[1..] + [x];
      SumSnoc(xs[1..], x);
    }
  }

  // Prerequisite deadlines plus the service's own startup deadline.
  function Cost(t: Timing): nat {
    Sum(t.prerequisites) + t.startup
  }

  // The cost of a set of services, each counted once.
  ghost function Total(services: map<Id, Timing>, s: set<Id>): nat
    requires s <= services.Keys
  {
    if s == {} then 0
    else
      var x :| x in s;
      Cost(services[x]) + Total(services, s - {x})
  }

  lemma {:induction false} TotalRemove(services: map<Id, Timing>, s: set<Id>, x: Id)
    requires s <= services.Keys && x in s
    ensures Total(services, s) == Cost(services[x]) + Total(services, s - {x})
    decreases |s|
  {
    var y :| y in s && Total(services, s) == Cost(services[y]) + Total(services, s - {y});
    if y != x {
      TotalRemove(services, s - {y}, x);
      TotalRemove(services, s - {x}, y);
      assert s - {y} - {x} == s - {x} - {y};
    }
  }

  lemma {:induction false} TotalUnion(services: map<Id, Timing>, a: set<Id>, b: set<Id>)
    requires a <= services.Keys && b <= services.Keys && a !! b
    ensures Total(services, a + b) == Total(services, a) + Total(services, b)
    decreases |a|
  {
    if a == {} {
      assert a + b == b;
    } else {
      var x :| x in a;
      TotalRemove(services, a, x);
      TotalRemove(services, a + b, x);
      assert a + b - {x} == (a - {x}) + b;
      TotalUnion(services, a - {x}, b);
    }
  }

  // The same total, listed.
  ghost function TotalOf(services: map<Id, Timing>, order: seq<Id>): nat
    requires forall x :: x in order ==> x in services
  {
    if order == [] then 0
    else
      assert order[0] in order;
      Cost(services[order[0]]) + TotalOf(services, order[1..])
  }

  lemma {:induction false} TotalOfDistinct(services: map<Id, Timing>, order: seq<Id>)
    requires Distinct(order) && forall x :: x in order ==> x in services
    ensures Total(services, Elems(order)) == TotalOf(services, order)
  {
    if order != [] {
      assert order[0] in order;
      TotalOfDistinct(services, order[1..]);
      assert order[0] !in order[1..];
      TotalRemove(services, Elems(order), order[0]);
      assert Elems(order) - {order[0]} == Elems(order[1..]);
    } else {
      assert Elems(order) == {};
    }
  }

  ghost predicate MissingBelow(services: map<Id, Timing>, s: Id) {
    exists x :: Reaches(Dependencies(services), s, x) && x !in services
  }

  // Every service visited between two points has its dependencies visited.
  ghost predicate ClosedSince(services: map<Id, Timing>, before: set<Id>, now: set<Id>) {
    forall x :: x in now && x !in before ==> x in services && forall d :: d in services[x].dependsOn ==> d in now
  }

  lemma {:induction false} MissingFurther(services: map<Id, Timing>, s: Id, d: Id)
    requires Edge(Dependencies(services), s, d) && MissingBelow(services, d)
    ensures MissingBelow(services, s)
  {
    var x :| Reaches(Dependencies(services), d, x) && x !in services;
    ReachesStep(Dependencies(services), s, d, x);
  }

  method ChargePrerequisites(start: nat, deadlines: seq<nat>, ghost exact: nat) returns (budget: nat)
    requires start == Saturate(exact)
    ensures budget == Saturate(exact + Sum(deadlines))
  {
    budget := start;
    assert deadlines[..0] == [];
    for k := 0 to |deadlines|
      invariant budget == Saturate(exact + Sum(deadlines[..k]))
    {
      assert deadlines[..k + 1] == deadlines[..k] + [deadlines[k]];
      SumSnoc(deadlines[..k], deadlines[k]);
      budget := SaturatingAdd(budget, deadlines[k]);
    }
    assert deadlines[..|deadlines|] == deadlines;
  }

  // The visited set shared by the whole recursive computation.
  class BudgetVisit {
    var visited: set<Id>

    constructor ()
      ensures visited == {}
    {
      visited := {};
    }

    method Visit(services: map<Id, Timing>, serviceId: Id) returns (r: Option<nat>)
      modifies this
      ensures old(visited) <= visited && serviceId in visited
      ensures r.None? ==> MissingBelow(services, serviceId)
      ensures r.Some? ==>
              && ClosedSince(services, old(visited), visited)
              && (forall x :: x in visited && x !in old(visited) ==> Reaches(Dependencies(services), serviceId, x))
              && visited - old(visited) <= services.Keys
              && r.value == Saturate(Total(services, visited - old(visited)))
      decreases services.Keys - visited, 0
    {
      ghost var g := Dependencies(services);
      ReachesSelf(g, serviceId);
      ghost var before := visited;
      if serviceId in visited {
        assert visited - before == {};
        return Some(0);
      }
      visited := visited + {serviceId};
      if serviceId !in services {
        return None;
      }
      var service := services[serviceId];
      assert serviceId in services.Keys - before;
      ghost var entered := visited;
      var below := VisitDependencies(services, serviceId, service.dependsOn);
      if below.None? {
        return None;
      }
      var budget := ChargePrerequisites(below.value, service.prerequisites, Total(services, visited - entered));
      TotalRemove(services, visited - before, serviceId);
      assert visited - before - {serviceId} == visited - entered;
      return Some(SaturatingAdd(budget, service.startup));
    }

    method VisitDependencies(services: map<Id, Timing>, serviceId: Id, dependencies: seq<Id>) returns (r: Option<nat>)
      requires serviceId in services && forall d :: d in dependencies ==> d in services[serviceId].dependsOn
      modifies this
      ensures old(visited) <= visited
      ensures r.None? ==> MissingBelow(services, serviceId)
      ensures r.Some? ==>
              && (forall d :: d in dependencies ==> d in visited)
              && ClosedSince(services, old(visited), visited)
              && (forall x :: x in visited && x !in old(visited) ==> Reaches(Dependencies(services), serviceId, x))
              && visited - old(visited) <= services.Keys
              && r.value == Saturate(Total(services, visited - old(visited)))
      decreases services.Keys - visited, 1
    {
      ghost var g, entered := Dependencies(services), visited;
      assert visited - entered == {};
      var budget: nat := 0;
      for k := 0 to |dependencies|
        invariant entered <= visited
        invariant forall d :: d in dependencies[..k] ==> d in visited
        invariant ClosedSince(services, entered, visited)
        invariant forall x :: x in visited && x !in entered ==> Reaches(g, serviceId, x)
        invariant visited - entered <= services.Keys
        invariant budget == Saturate(Total(services, visited - entered))
      {
        ghost var earlier := visited;
        var below := Visit(services, dependencies[k]);
        if below.None? {
          MissingFurther(services, serviceId, dependencies[k]);
          return None;
        }
        forall x | x in visited && x !in entered ensures Reaches(g, serviceId, x) {
          if x !in earlier {
            ReachesStep(g, serviceId, dependencies[k], x);
          }
        }
        TotalUnion(services, earlier - entered, visited - earlier);
        assert (earlier - entered) + (visited - earlier) == visited - entered;
        budget := SaturatingAdd(budget, below.value);
      }
      assert dependencies[..|dependencies|] == dependencies;
      return Some(budget);
    }
  }

  ghost predicate IsReachSet(g: Graph, root: Id, s: set<Id>) {
    forall x :: x in s <==> Reaches(g, root, x)
  }

  // Whatever the sharing or the cycles in the graph, each reachable service is charged once.
  method DependencyStartupBudgetMs(services: map<Id, Timing>, serviceId: Id) returns (r: Option<nat>)
    ensures r.None? <==> MissingBelow(services, serviceId)
    ensures r.Some? ==> exists s :: IsReachSet(Dependencies(services), serviceId, s)
    ensures r.Some? ==>
              forall s :: IsReachSet(Dependencies(services), serviceId, s) ==>
                s <= services.Keys && r.value == Saturate(Total(services, s))
  {
    var visit := new BudgetVisit();
    r := visit.Visit(services, serviceId);
    ghost var g := Dependencies(services);
    if r.Some? {
      forall x | Reaches(g, serviceId, x) ensures x in visit.visited {
        var p :| WalkFromTo(g, p, serviceId, x);
        ClosedUnderWalk(g, visit.visited, p);
      }
      assert visit.visited - {} == visit.visited;
      assert IsReachSet(g, serviceId, visit.visited);
      forall s | IsReachSet(g, serviceId, s) ensures s == visit.visited {}
    }
  }

  // The budget is the saturated sum over exactly the services of the start plan.
  lemma {:induction false} BudgetIsPlanTotal(services: map<Id, Timing>, target: Id, budget: Option<nat>)
    requires StartOrder(Dependencies(services), [target]).Success?
    requires budget.None? <==> MissingBelow(services, target)
    requires budget.Some? ==>
              forall s :: IsReachSet(Dependencies(services), target, s) ==>
                s <= services.Keys && budget.value == Saturate(Total(services, s))
    ensures var order := StartOrder(Dependencies(services), [target]).value;
            && (forall i :: 0 <= i < |order| ==> order[i] in services)
            && var total := Sum(seq(|order|, i requires 0 <= i < |order| =>
                                  Sum(services[order[i]].prerequisites) + services[order[i]].startup));
            budget == Some(if total > 0xFFFF_FFFF_FFFF_FFFF then 0xFFFF_FFFF_FFFF_FFFF else total)
  {
    hide Total, TotalOf, StartOrder, Topological;
    var g := Dependencies(services);
    var order := StartOrder(g, [target]).value;
    StartOrderIsPlan(g, [target]);
    StartOrderSucceedsIff(g, [target]);
    forall x ensures x in order <==> Reaches(g, target, x) {
      if Reaches(g, target, x) {
        assert target in [target];
        assert ReachedFrom(g, [target], x);
      }
    }
    assert IsReachSet(g, target, Elems(order));
    TotalOfDistinct(services, order);
    TotalOfIsSum(services, order);
  }

  lemma {:induction false} TotalOfIsSum(services: map<Id, Timing>, order: seq<Id>)
    requires forall i :: 0 <= i < |order| ==> order[i] in services
    ensures TotalOf(services, order) ==
            Sum(seq(|order|, i requires 0 <= i < |order| =>
                  Sum(services[order[i]].prerequisites) + services[order[i]].startup))
  {
    var costs: seq<nat> := seq(|order|, i requires 0 <= i < |order| =>
                                 Sum(services[order[i]].prerequisites) + services[order[i]].startup);
    if order != [] {
      var rest := order[1..];
      TotalOfIsSum(services, rest);
      assert costs[1..] == seq(|rest|, i requires 0 <= i < |rest| =>
                                 Sum(services[rest[i]].prerequisites) + services[rest[i]].startup);
    }
  }
}
