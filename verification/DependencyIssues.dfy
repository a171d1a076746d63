// src/adapters/config.rs: `validate_service_dependencies` and the three-colour `dependency_cycle`.
module DependencyIssues {
  import opened Wrappers
  import opened Sequences
  import opened DependencyGraph
  import opened Exploration
  import opened StartPlanning
  import opened ShutdownPlanning

  datatype Issue =
    | SelfDependency(service: Id)
    | UnknownDependency(service: Id, dependency: Id)
    | DuplicateDependency(service: Id, dependency: Id)
    | DependencyCycle(walk: seq<Id>)

  // The graph the cycle finder walks: dependencies on unregistered services are skipped.
  function Registered(services: Graph): Graph {
    Restrict(services, services.Keys)
  }

  // The states and the stack threaded through the recursive visit:
  // 1 while a service is on the stack, 2 once it is finished, absent before.
  class CycleSearch {
    var states: map<Id, nat>
    var stack: seq<Id>
    ghost var finished: seq<Id>

    ghost predicate Valid(services: Graph)
      reads this
    {
      && OnPath(Registered(services), stack)
      && Finished(Registered(services), finished)
      && (forall x :: x in states ==> states[x] == 1 || states[x] == 2)
      && (forall x :: x in stack <==> x in states && states[x] == 1)
      && (forall x :: x in finished <==> x in states && states[x] == 2)
    }

    constructor ()
      ensures states == map[] && stack == [] && finished == []
    {
      states, stack, finished := map[], [], [];
    }

    method Visit(services: Graph, serviceId: Id) returns (r: Option<seq<Id>>)
      requires serviceId in services && Valid(services)
      modifies this
      ensures match Explore(Registered(services), old(stack), serviceId)
              case Success(xs) =>
                r == None && Valid(services) && stack == old(stack) && finished == AppendNew(old(finished), xs)
              case Failure(f) => f.Loop? && r == Some(f.Cycle())
      decreases services.Keys - Elems(stack), 0
    {
      ghost var g := Registered(services);
      if serviceId in states {
        if states[serviceId] == 2 {
          RevisitAddsNothing(g, finished, stack, serviceId);
          return None;
        }
        return Some(stack[IndexOf(stack, serviceId)..] + [serviceId]);
      }
      ghost var path, before := stack, finished;
      states := states[serviceId := 1];
      stack := stack + [serviceId];
      PushKeepsPath(services, path, serviceId);
      var cycle := VisitDependencies(services, serviceId, services[serviceId]);
      if cycle.Some? {
        return cycle;
      }
      ghost var listed := ExploreAll(g, path + [serviceId], g[serviceId]).value;
      CompletedVisit(g, path, serviceId, before, listed);
      stack := stack[..|stack| - 1];
      assert stack == path;
      assert forall x :: x in path + [serviceId] <==> x == serviceId || x in path;
      states := states[serviceId := 2];
      finished := finished + [serviceId];
      return None;
    }

    method VisitDependencies(services: Graph, serviceId: Id, dependencies: seq<Id>) returns (r: Option<seq<Id>>)
      requires serviceId in services && Valid(services)
      modifies this
      ensures match ExploreAll(Registered(services), old(stack), Filter(dependencies, services.Keys))
              case Success(xs) =>
                r == None && Valid(services) && stack == old(stack) && finished == AppendNew(old(finished), xs)
              case Failure(f) => f.Loop? && r == Some(f.Cycle())
      decreases services.Keys - Elems(stack), 1
    {
      ghost var g, inner, before := Registered(services), stack, finished;
      ghost var listed: seq<Id> := [];
      assert dependencies[..0] == [];
      for k := 0 to |dependencies|
        invariant Valid(services) && stack == inner
        invariant ExploreAll(g, inner, Filter(dependencies[..k], services.Keys)) == Success(listed)
        invariant finished == AppendNew(before, listed)
      {
        assert dependencies[..k + 1] == dependencies[..k] + [dependencies[k]];
        FilterSnoc(dependencies[..k], dependencies[k], services.Keys);
        if dependencies[k] in services {
          ExploreAllSnoc(g, inner, Filter(dependencies[..k], services.Keys), dependencies[k]);
          var cycle := Visit(services, dependencies[k]);
          if cycle.Some? {
            FilterFailsAt(g, inner, dependencies, services.Keys, k);
            return cycle;
          }
          ghost var more := Explore(g, inner, dependencies[k]).value;
          AppendNewConcat(before, listed, more);
          listed := listed + more;
        } else {
          assert Filter(dependencies[..k + 1], services.Keys) == Filter(dependencies[..k], services.Keys);
        }
      }
      assert dependencies[..|dependencies|] == dependencies;
      return None;
    }
  }

  lemma {:induction false} PushKeepsPath(services: Graph, path: seq<Id>, s: Id)
    requires OnPath(Registered(services), path) && s in services && s !in path
    ensures OnPath(Registered(services), path + [s])
    ensures services.Keys - Elems(path + [s]) < services.Keys - Elems(path)
  {
    assert s in services.Keys - Elems(path) && s !in services.Keys - Elems(path + [s]);
  }

  // A failing dependency decides the outcome of the filtered list too.
  lemma {:induction false} FilterFailsAt(g: Graph, path: seq<Id>, xs: seq<Id>, keep: set<Id>, k: nat)
    requires OnPath(g, path) && k < |xs| && xs[k] in keep
    requires ExploreAll(g, path, Filter(xs[..k], keep)).Success? && Explore(g, path, xs[k]).Failure?
    ensures ExploreAll(g, path, Filter(xs, keep)) == Failure(Explore(g, path, xs[k]).error)
  {
    FilterAround(xs, keep, k);
    hide Filter, Explore, ExploreAll;
    ExploreAllFailsAt(g, path, Filter(xs, keep), |Filter(xs[..k], keep)|);
  }

  // Where a kept element ends up.
  lemma {:induction false} FilterAround(xs: seq<Id>, keep: set<Id>, k: nat)
    requires k < |xs| && xs[k] in keep
    ensures var n := |Filter(xs[..k], keep)|;
            n < |Filter(xs, keep)| && Filter(xs, keep)[..n] == Filter(xs[..k], keep) && Filter(xs, keep)[n] == xs[k]
  {
    assert xs == xs[..k] + xs[k..] && xs[k..][0] == xs[k];
    FilterConcat(xs[..k], xs[k..], keep);
  }

  lemma {:induction false} FilterConcat(xs: seq<Id>, ys: seq<Id>, keep: set<Id>)
    ensures Filter(xs + ys, keep) == Filter(xs, keep) + Filter(ys, keep)
    decreases |xs|
  {
    if xs == [] {
      assert xs + ys == ys;
    } else {
      var zs := xs + ys;
      assert zs[0] == xs[0] && zs[1..] == xs[1..] + ys;
      FilterConcat(xs[1..], ys, keep);
    }
  }

  // `ids` is the key order of the service map.
  method DependencyCycleOf(ids: seq<Id>, services: Graph) returns (r: Option<seq<Id>>)
    requires Distinct(ids) && Elems(ids) == services.Keys
    ensures match ExploreAll(Registered(services), [], ids)
            case Success(_) => r == None
            case Failure(f) => f.Loop? && r == Some(f.Cycle())
  {
    hide Explore;
    var search := new CycleSearch();
    ghost var g := Registered(services);
    ghost var listed: seq<Id> := [];
    assert ids[..0] == [];
    assert search.Valid(services);
    hide Registered;
    for k := 0 to |ids|
      invariant search.Valid(services) && search.stack == []
      invariant ExploreAll(g, [], ids[..k]) == Success(listed)
    {
      ExploreAllSnoc(g, [], ids[..k], ids[k]);
      assert ids[..k + 1] == ids[..k] + [ids[k]];
      assert ids[k] in Elems(ids);
      var cycle := search.Visit(services, ids[k]);
      if cycle.Some? {
        ExploreAllFailsAt(g, [], ids, k);
        return cycle;
      }
      listed := listed + Explore(g, [], ids[k]).value;
    }
    assert ids[..|ids|] == ids;
    return None;
  }

  // --- what the reported cycle means ---

  lemma {:induction false} ClosedWalkIsRegistered(services: Graph, p: seq<Id>)
    ensures ClosedWalk(services, p) <==> ClosedWalk(Registered(services), p)
  {
    var g := Registered(services);
    forall a, b | b in services ensures Edge(services, a, b) <==> Edge(g, a, b) {}
    if ClosedWalk(services, p) {
      forall i | 0 <= i < |p| - 1 ensures Edge(g, p[i], p[i + 1]) {
        assert Edge(services, p[i], p[i + 1]);
        var next := if i + 1 < |p| - 1 then i + 1 else 0;
        assert Edge(services, p[next], p[next + 1]);
        assert p[i + 1] in services;
      }
    }
    if ClosedWalk(g, p) {
      forall i | 0 <= i < |p| - 1 ensures Edge(services, p[i], p[i + 1]) {
        assert Edge(g, p[i], p[i + 1]);
      }
    }
  }

  // The cycle finder reports only genuine cycles, and reports one exactly when there is one.
  lemma {:induction false} CycleFinderIsExact(ids: seq<Id>, services: Graph)
    requires Elems(ids) == services.Keys
    ensures match ExploreAll(Registered(services), [], ids)
            case Success(_) => Acyclic(services)
            case Failure(f) => f.Loop? && ClosedWalk(services, f.Cycle())
  {
    var g := Registered(services);
    ExploreSucceedsIff(g, ids);
    forall p ensures ClosedWalk(services, p) <==> ClosedWalk(g, p) {
      ClosedWalkIsRegistered(services, p);
    }
    match ExploreAll(g, [], ids) {
      case Success(_) =>
        forall p ensures !ClosedWalk(services, p) {
          if ClosedWalk(g, p) {
            assert Edge(g, p[0], p[1]);
            assert p[0] in Elems(ids);
            ReachesSelf(g, p[0]);
            assert ReachedFrom(g, ids, p[0]);
          }
        }
      case Failure(f) =>
        var r :| r in ids && Explains(g, r, f);
        if f.Missing? {
          assert r in Elems(ids);
          var p :| WalkFromTo(g, p, r, f.id);
          ClosedUnderWalk(g, g.Keys, p);
          assert false;
        }
    }
  }

  // --- the validator ---

  // Each issue says something true of the configuration.
  ghost predicate Holds(ids: seq<Id>, services: Graph, issue: Issue) {
    match issue
    case SelfDependency(s) => Edge(services, s, s)
    case UnknownDependency(s, d) => Edge(services, s, d) && d !in services
    case DuplicateDependency(s, d) => s in services && Count(services[s], d) >= 2
    case DependencyCycle(walk) =>
      var search := ExploreAll(Registered(services), [], ids);
      search.Failure? && search.error.Loop? && search.error.Cycle() == walk
  }

  ghost predicate ServiceIssuesUpTo(services: Graph, s: Id, k: nat, issue: Issue)
    requires s in services && k <= |services[s]|
  {
    match issue
    case SelfDependency(t) => t == s && s in services[s][..k]
    case UnknownDependency(t, d) => t == s && d in services[s][..k] && d !in services
    case DuplicateDependency(t, d) => t == s && Count(services[s][..k], d) >= 2
    case DependencyCycle(_) => false
  }

  // What the k-th declaration of a service gives rise to, in order.
  function IssuesAt(services: Graph, s: Id, k: nat): seq<Issue>
    requires s in services && k < |services[s]|
  {
    var d := services[s][k];
    (if d == s then [SelfDependency(s)] else if d !in services then [UnknownDependency(s, d)] else [])
    + (if d in services[s][..k] then [DuplicateDependency(s, d)] else [])
  }

  function IssuesOf(services: Graph, s: Id, k: nat): seq<Issue>
    requires s in services && k <= |services[s]|
  {
    if k == 0 then [] else IssuesOf(services, s, k - 1) + IssuesAt(services, s, k - 1)
  }

  function IssuesOfAll(services: Graph, ids: seq<Id>, n: nat): seq<Issue>
    requires n <= |ids| && forall s :: s in ids ==> s in services
  {
    if n == 0 then [] else IssuesOfAll(services, ids, n - 1) + IssuesOf(services, ids[n - 1], |services[ids[n - 1]]|)
  }

  // How often each issue of a service is reported: once per offending declaration, repeats once less.
  function Occurrences(services: Graph, s: Id, k: nat, issue: Issue): nat
    requires s in services && k <= |services[s]|
  {
    var declared := services[s][..k];
    match issue
    case SelfDependency(t) => if t == s then Count(declared, s) else 0
    case UnknownDependency(t, d) => if t == s && d !in services then Count(declared, d) else 0
    case DuplicateDependency(t, d) => if t == s && Count(declared, d) > 0 then Count(declared, d) - 1 else 0
    case DependencyCycle(_) => 0
  }

  lemma {:induction false} IssuesAreCounted(services: Graph, s: Id, k: nat, issue: Issue)
    requires s in services && k <= |services[s]|
    ensures Count(IssuesOf(services, s, k), issue) == Occurrences(services, s, k, issue)
  {
    var declared := services[s];
    if k > 0 {
      IssuesAreCounted(services, s, k - 1, issue);
      CountConcat(IssuesOf(services, s, k - 1), IssuesAt(services, s, k - 1), issue);
      assert declared[..k] == declared[..k - 1] + [declared[k - 1]];
      CountPositive(declared[..k - 1], declared[k - 1]);
      CountOfIssuesAt(services, s, k - 1, issue);
      hide IssuesAt, IssuesOf, Count;
      CountMore(declared, k - 1, s);
      if issue.UnknownDependency? || issue.DuplicateDependency? { CountMore(declared, k - 1, issue.dependency); }
    }
  }

  lemma {:induction false} CountMore(xs: seq<Id>, k: nat, x: Id)
    requires k < |xs|
    ensures Count(xs[..k + 1], x) == Count(xs[..k], x) + if xs[k] == x then 1 else 0
  {
    assert xs[..k + 1] == xs[..k] + [xs[k]];
    CountConcat(xs[..k], [xs[k]], x);
    assert [xs[k]][1..] == [];
  }

  lemma {:induction false} CountOfIssuesAt(services: Graph, s: Id, k: nat, issue: Issue)
    requires s in services && k < |services[s]|
    ensures var d := services[s][k];
            Count(IssuesAt(services, s, k), issue) ==
            match issue
            case SelfDependency(t) => if t == s && d == s then 1 else 0
            case UnknownDependency(t, u) => if t == s && u == d && d !in services then 1 else 0
            case DuplicateDependency(t, u) => if t == s && u == d && d in services[s][..k] then 1 else 0
            case DependencyCycle(_) => 0
  {
    var d := services[s][k];
    var first: seq<Issue> := if d == s then [SelfDependency(s)] else if d !in services then [UnknownDependency(s, d)]
        else [];
    var second: seq<Issue> := if d in services[s][..k] then [DuplicateDependency(s, d)] else [];
    CountConcat(first, second, issue);
    assert first != [] ==> first[1..] == [];
    assert second != [] ==> second[1..] == [];
  }

  lemma {:induction false} IssuesHold(services: Graph, s: Id, issue: Issue)
    requires s in services
    ensures issue in IssuesOf(services, s, |services[s]|) <==> ServiceIssuesUpTo(services, s, |services[s]|, issue)
  {
    var declared := services[s][..|services[s]|];
    CountPositive(IssuesOf(services, s, |services[s]|), issue);
    IssuesAreCounted(services, s, |services[s]|, issue);
    CountPositive(declared, s);
    if issue.UnknownDependency? { CountPositive(declared, issue.dependency); }
    hide IssuesOf, Count;
  }

  function Concat(parts: seq<seq<Issue>>): seq<Issue> {
    if parts == [] then [] else Concat(parts[..|parts| - 1]) + parts[|parts| - 1]
  }

  // The issues of the first k declarations, declaration by declaration.
  ghost predicate Declared(services: Graph, s: Id, k: nat, issues: seq<Issue>, parts: seq<seq<Issue>>)
    requires s in services && k <= |services[s]|
  {
    && |parts| == k && Concat(parts) == issues
    && forall i :: 0 <= i < k ==>
         var d := services[s][i];
         parts[i] ==
         (if d == s then [SelfDependency(s)] else if d !in services then [UnknownDependency(s, d)] else [])
         + (if d in services[s][..i] then [DuplicateDependency(s, d)] else [])
  }

  lemma {:induction false} DeclaredMore(services: Graph, s: Id, k: nat, issues: seq<Issue>, parts: seq<seq<Issue>>)
    requires s in services && k < |services[s]| && Declared(services, s, k, issues, parts)
    ensures var at := IssuesAt(services, s, k); Declared(services, s, k + 1, issues + at, parts + [at])
  {
    var at := IssuesAt(services, s, k);
    assert (parts + [at])[..k] == parts;
  }

  lemma {:induction false} NothingDeclared(services: Graph, s: Id)
    requires s in services
    ensures Declared(services, s, 0, [], [])
  {}

  method ServiceIssues(services: Graph, s: Id) returns (issues: seq<Issue>)
    requires s in services
    ensures issues == IssuesOf(services, s, |services[s]|)
    ensures exists parts :: Declared(services, s, |services[s]|, issues, parts)
    ensures forall issue :: Count(issues, issue) == Occurrences(services, s, |services[s]|, issue)
  {
    hide Declared;
    issues := [];
    var dependencies := services[s];
    var unique: set<Id> := {};
    ghost var parts: seq<seq<Issue>> := [];
    NothingDeclared(services, s);
    for k := 0 to |dependencies|
      invariant unique == Elems(dependencies[..k])
      invariant issues == IssuesOf(services, s, k)
      invariant Declared(services, s, k, issues, parts)
    {
      var dependency := dependencies[k];
      assert dependencies[..k + 1] == dependencies[..k] + [dependency];
      ghost var before := issues;
      if dependency == s {
        issues := issues + [SelfDependency(s)];
      } else if dependency !in services {
        issues := issues + [UnknownDependency(s, dependency)];
      }
      if dependency in unique {
        issues := issues + [DuplicateDependency(s, dependency)];
      }
      unique := unique + {dependency};
      assert issues == before + IssuesAt(services, s, k);
      DeclaredMore(services, s, k, before, parts);
      parts := parts + [IssuesAt(services, s, k)];
    }
    forall issue ensures Count(issues, issue) == Occurrences(services, s, |services[s]|, issue) {
      IssuesAreCounted(services, s, |services[s]|, issue);
    }
  }

  // Issues of services listed earlier come earlier, and nothing comes behind a cycle.
  ghost predicate InKeyOrder(ids: seq<Id>, issues: seq<Issue>) {
    && (forall i :: 0 <= i < |issues| && !issues[i].DependencyCycle? ==> issues[i].service in ids)
    && (forall i, j :: 0 <= i < j < |issues| ==>
          && !issues[i].DependencyCycle?
          && (!issues[j].DependencyCycle? ==>
                IndexOf(ids, issues[i].service) <= IndexOf(ids, issues[j].service)))
  }

  lemma {:induction false} IssuesNameService(services: Graph, s: Id, k: nat)
    requires s in services && k <= |services[s]|
    ensures forall issue :: issue in IssuesOf(services, s, k) ==> !issue.DependencyCycle? && issue.service == s
  {
    if k > 0 {
      IssuesNameService(services, s, k - 1);
    }
  }

  lemma {:induction false} IssuesAreInKeyOrder(services: Graph, ids: seq<Id>, n: nat)
    requires Distinct(ids) && n <= |ids| && forall s :: s in ids ==> s in services
    ensures var issues := IssuesOfAll(services, ids, n);
            && InKeyOrder(ids, issues)
            && (forall i :: 0 <= i < |issues| ==>
                  && !issues[i].DependencyCycle? && issues[i].service in ids
                  && IndexOf(ids, issues[i].service) < n)
  {
    if n > 0 {
      var s := ids[n - 1];
      IssuesAreInKeyOrder(services, ids, n - 1);
      IssuesNameService(services, s, |services[s]|);
      assert IndexOf(ids, s) == n - 1;
      hide IssuesOf, IndexOf;
      var front, last := IssuesOfAll(services, ids, n - 1), IssuesOf(services, s, |services[s]|);
      assert IssuesOfAll(services, ids, n) == front + last;
      hide IssuesOfAll;
      forall j | 0 <= j < |last| ensures !last[j].DependencyCycle? && last[j].service == s {
        assert last[j] in last;
      }
    }
  }

  lemma {:induction false} CycleComesLast(ids: seq<Id>, issues: seq<Issue>)
    requires InKeyOrder(ids, issues) && forall i :: 0 <= i < |issues| ==> !issues[i].DependencyCycle?
    ensures forall walk :: InKeyOrder(ids, issues + [DependencyCycle(walk)])
  {
    hide IndexOf;
  }

  // Everything wrong is reported and nothing else is: the services in key order, each with its issues in
  // the order of declaration, and then a cycle if there is one.
  method ValidateServiceDependencies(ids: seq<Id>, services: Graph) returns (issues: seq<Issue>)
    requires Distinct(ids) && Elems(ids) == services.Keys
    ensures forall s :: s in ids ==> s in services
    ensures issues == IssuesOfAll(services, ids, |ids|) + CycleIssue(ids, services)
    ensures InKeyOrder(ids, issues)
    ensures forall issue :: issue in issues <==> Holds(ids, services, issue)
  {
    issues := [];
    assert forall s :: s in ids <==> s in services by {
      assert forall s :: s in Elems(ids) <==> s in services;
    }
    for k := 0 to |ids|
      invariant issues == IssuesOfAll(services, ids, k)
    {
      var more := ServiceIssues(services, ids[k]);
      issues := issues + more;
    }
    IssuesAreInKeyOrder(services, ids, |ids|);
    hide InKeyOrder, IndexOf, IssuesOfAll;
    CycleComesLast(ids, issues);
    var cycle := DependencyCycleOf(ids, services);
    assert issues + [] == issues;
    if cycle.Some? {
      issues := issues + [DependencyCycle(cycle.value)];
    }
    forall issue: Issue ensures issue in issues <==> Holds(ids, services, issue) {
      IssuesOfAllHold(services, ids, |ids|, issue);
      if !issue.DependencyCycle? { DeclarationIssueHolds(ids, services, issue); }
    }
  }

  ghost function CycleIssue(ids: seq<Id>, services: Graph): seq<Issue> {
    match ExploreAll(Registered(services), [], ids)
    case Success(_) => []
    case Failure(f) => if f.Loop? then [DependencyCycle(f.Cycle())] else []
  }

  lemma {:induction false} IssuesOfAllHold(services: Graph, ids: seq<Id>, n: nat, issue: Issue)
    requires n <= |ids| && forall s :: s in ids ==> s in services
    ensures issue in IssuesOfAll(services, ids, n) <==>
              exists i :: 0 <= i < n && ServiceIssuesUpTo(services, ids[i], |services[ids[i]]|, issue)
  {
    hide IssuesOf, ServiceIssuesUpTo;
    if n > 0 {
      var s := ids[n - 1];
      var front, last := IssuesOfAll(services, ids, n - 1), IssuesOf(services, s, |services[s]|);
      IssuesOfAllHold(services, ids, n - 1, issue);
      IssuesHold(services, s, issue);
      assert IssuesOfAll(services, ids, n) == front + last;
      assert issue in front + last <==> issue in front || issue in last;
    }
  }

  lemma {:induction false} DeclarationIssueHolds(ids: seq<Id>, services: Graph, issue: Issue)
    requires Elems(ids) == services.Keys && !issue.DependencyCycle?
    requires forall s :: s in ids <==> s in services
    ensures (exists n :: 0 <= n < |ids| && ServiceIssuesUpTo(services, ids[n], |services[ids[n]]|, issue)) <==>
            Holds(ids, services, issue)
  {
    forall s | s in services ensures services[s][..|services[s]|] == services[s] {}
    if Holds(ids, services, issue) {
      var s := issue.service;
      assert s in ids;
      var n :| 0 <= n < |ids| && ids[n] == s;
      assert ServiceIssuesUpTo(services, ids[n], |services[ids[n]]|, issue);
    }
  }

  ghost predicate WellFormed(services: Graph) {
    && Complete(services) && Acyclic(services)
    && (forall s, d :: s in services ==> Count(services[s], d) <= 1)
  }

  // No issue means: every dependency registered, none declared twice, no cycle; and the reverse.
  lemma {:induction false} CleanIffWellFormed(ids: seq<Id>, services: Graph)
    requires Distinct(ids) && Elems(ids) == services.Keys
    ensures (forall issue :: !Holds(ids, services, issue)) <==>
            WellFormed(services)
  {
    CycleFinderIsExact(ids, services);
    if forall issue :: !Holds(ids, services, issue) {
      forall a, b | Edge(services, a, b) ensures b in services {
        assert !Holds(ids, services, UnknownDependency(a, b));
      }
      forall s, d | s in services ensures Count(services[s], d) <= 1 {
        assert !Holds(ids, services, DuplicateDependency(s, d));
      }
      var search := ExploreAll(Registered(services), [], ids);
      if search.Failure? {
        assert Holds(ids, services, DependencyCycle(search.error.Cycle()));
      }
    }
    if WellFormed(services) {
      forall issue ensures !Holds(ids, services, issue) {
        if issue.SelfDependency? {
          assert !ClosedWalk(services, [issue.service, issue.service]);
        }
      }
    }
  }

  // A configuration without dependency issues can always be planned, in both directions.
  lemma {:induction false} CleanConfigurationPlans(ids: seq<Id>, services: Graph, requested: seq<Id>)
    requires Distinct(ids) && Elems(ids) == services.Keys
    requires forall issue :: !Holds(ids, services, issue)
    requires forall r :: r in requested ==> r in services
    ensures StartOrder(services, requested).Success?
    ensures Plannable(ids, services)
    ensures forall r :: PlansShutdown(ids, services, r) ==> r.Success?
  {
    CleanIffWellFormed(ids, services);
    StartOrderSucceedsIff(services, requested);
    forall x | ReachedFrom(services, requested, x) ensures x in services {
      var r :| r in requested && Reaches(services, r, x);
      var p :| WalkFromTo(services, p, r, x);
      ClosedUnderWalk(services, services.Keys, p);
    }
  }
}
