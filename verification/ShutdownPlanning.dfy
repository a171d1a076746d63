// src/application/dependency_control.rs: `stable_shutdown_order`, and the same ready-list loop that
// src/cli.rs repeats for a batch stop.
module ShutdownPlanning {
  import opened Wrappers
  import opened Sequences
  import opened DependencyGraph
  import opened StartPlanning

  // --- what a shutdown order is ---

  // Dependents first: whoever declares a dependency is shut down before it.
  ghost predicate DependentsFirst(g: Graph, order: seq<Id>) {
    forall i, j :: 0 <= i < |order| && 0 <= j < |order| && Edge(g, order[i], order[j]) ==> i < j
  }

  ghost predicate IsShutdownOrder(nodes: seq<Id>, g: Graph, order: seq<Id>) {
    Distinct(order) && Elems(order) == Elems(nodes) && DependentsFirst(g, order)
  }

  // x can go next: not shut down yet, and everything depending on it already is.
  ghost predicate Available(g: Graph, done: set<Id>, x: Id) {
    x !in done && forall a :: Edge(g, a, x) ==> a in done
  }

  // Every step takes the available service that comes first in `nodes`.
  ghost predicate Greedy(nodes: seq<Id>, g: Graph, order: seq<Id>) {
    && (forall x :: x in order ==> x in nodes)
    && (forall i :: 0 <= i < |order| ==> TakesFirst(nodes, g, Elems(order[..i]), order[i]))
  }

  ghost predicate TakesFirst(nodes: seq<Id>, g: Graph, done: set<Id>, s: Id) {
    && s in nodes
    && Available(g, done, s)
    && (forall x :: x in nodes && Available(g, done, x) ==> IndexOf(nodes, s) <= IndexOf(nodes, x))
  }

  // The edges of g stay among the nodes, which are listed once each.
  ghost predicate Plannable(nodes: seq<Id>, g: Graph) {
    Distinct(nodes) && Elems(nodes) == g.Keys && Complete(g)
  }

  // --- meaning of the greedy choice ---

  lemma {:induction false} IndexInjective(nodes: seq<Id>, a: Id, b: Id)
    requires a in nodes && b in nodes
    ensures IndexOf(nodes, a) == IndexOf(nodes, b) ==> a == b
  {}

  lemma {:induction false} GreedyDependentsFirst(nodes: seq<Id>, g: Graph, order: seq<Id>)
    requires Greedy(nodes, g, order)
    ensures Distinct(order) && DependentsFirst(g, order) && forall x :: x in order ==> x in nodes
  {
    forall i, j | 0 <= i < j < |order| ensures order[i] != order[j] {
      assert order[i] in order[..j];
      assert TakesFirst(nodes, g, Elems(order[..j]), order[j]);
    }
    forall i, j | 0 <= i < |order| && 0 <= j < |order| && Edge(g, order[i], order[j]) ensures i < j {
      assert TakesFirst(nodes, g, Elems(order[..j]), order[j]);
      assert order[i] in order[..j];
      var k :| 0 <= k < j && order[k] == order[i];
    }
  }

  // Whatever has been taken had all its dependents taken before.
  lemma {:induction false} GreedyClosedUpward(nodes: seq<Id>, g: Graph, order: seq<Id>)
    requires Greedy(nodes, g, order)
    ensures forall a, d :: d in order && Edge(g, a, d) ==> a in order
  {
    forall a, d | d in order && Edge(g, a, d) ensures a in order {
      var k :| 0 <= k < |order| && order[k] == d;
      assert TakesFirst(nodes, g, Elems(order[..k]), d);
      assert a in order[..k];
    }
  }

  // A complete greedy order is lexicographically least, by position in `nodes`, among all shutdown orders.
  lemma {:induction false} GreedyIsLeast(nodes: seq<Id>, g: Graph, order: seq<Id>, other: seq<Id>)
    requires Plannable(nodes, g)
    requires Greedy(nodes, g, order) && Elems(order) == Elems(nodes) && IsShutdownOrder(nodes, g, other)
    ensures other == order || exists i :: ComesBefore(nodes, order, other, i)
  {
    GreedyDependentsFirst(nodes, g, order);
    SameElemsSameLength(order, other);
    hide Greedy, IsShutdownOrder;
    if order != other {
      var i := FirstDifference(order, other);
      GreedyChoosesBefore(nodes, g, order, other, i);
    }
  }

  // The two orders agree up to i, where the first has the service listed earlier.
  ghost predicate ComesBefore(nodes: seq<Id>, order: seq<Id>, other: seq<Id>, i: nat) {
    && i < |order| && i < |other| && order[..i] == other[..i]
    && order[i] in nodes && other[i] in nodes
    && IndexOf(nodes, order[i]) < IndexOf(nodes, other[i])
  }

  lemma {:induction false} FirstDifference(a: seq<Id>, b: seq<Id>) returns (i: nat)
    requires |a| == |b| && a != b
    ensures i < |a| && a[..i] == b[..i] && a[i] != b[i]
  {
    i := 0;
    while i < |a| && a[i] == b[i]
      invariant i <= |a| && a[..i] == b[..i]
    {
      assert a[..i + 1] == a[..i] + [a[i]] && b[..i + 1] == b[..i] + [b[i]];
      i := i + 1;
    }
    assert a[..|a|] == a && b[..|b|] == b;
  }

  lemma {:induction false} GreedyChoosesBefore(nodes: seq<Id>, g: Graph, order: seq<Id>, other: seq<Id>, i: nat)
    requires Plannable(nodes, g)
    requires Greedy(nodes, g, order) && IsShutdownOrder(nodes, g, other)
    requires i < |order| && i < |other| && order[..i] == other[..i] && order[i] != other[i]
    ensures ComesBefore(nodes, order, other, i)
  {
    var done := Elems(order[..i]);
    assert other[i] in Elems(other);
    assert Available(g, done, other[i]) by {
      assert other[i] !in other[..i];
      forall a | Edge(g, a, other[i]) ensures a in done {
        assert a in Elems(nodes);
        assert a in Elems(other);
        var k :| 0 <= k < |other| && other[k] == a;
        assert k < i;
        assert other[..i][k] == a;
      }
    }
    assert TakesFirst(nodes, g, done, order[i]);
    IndexInjective(nodes, order[i], other[i]);
  }

  // Hence there is only one such order.
  lemma {:induction false} GreedyIsUnique(nodes: seq<Id>, g: Graph, a: seq<Id>, b: seq<Id>)
    requires Greedy(nodes, g, a) && Greedy(nodes, g, b)
    requires Elems(a) == Elems(nodes) == Elems(b)
    ensures a == b
  {
    GreedyDependentsFirst(nodes, g, a);
    GreedyDependentsFirst(nodes, g, b);
    SameElemsSameLength(a, b);
    hide Greedy, Elems, DependentsFirst;
    if a != b {
      var i := FirstDifference(a, b);
      SameChoice(nodes, g, a, b, i);
    }
  }

  lemma {:induction false} SameChoice(nodes: seq<Id>, g: Graph, a: seq<Id>, b: seq<Id>, i: nat)
    requires Greedy(nodes, g, a) && Greedy(nodes, g, b)
    requires i < |a| && i < |b| && a[..i] == b[..i]
    ensures a[i] == b[i]
  {
    assert TakesFirst(nodes, g, Elems(a[..i]), a[i]);
    assert TakesFirst(nodes, g, Elems(b[..i]), b[i]);
    IndexInjective(nodes, a[i], b[i]);
  }

  // Any shutdown order rules out cycles: positions strictly rise along dependencies.
  lemma {:induction false} OrderRisesAlongWalk(g: Graph, order: seq<Id>, p: seq<Id>)
    requires DependentsFirst(g, order) && Walk(g, p) && forall x :: x in p ==> x in order
    ensures |p| > 1 ==> IndexOf(order, p[0]) < IndexOf(order, p[|p| - 1])
  {
    if |p| > 1 {
      assert Edge(g, p[0], p[1]);
      var i, j := IndexOf(order, p[0]), IndexOf(order, p[1]);
      assert Edge(g, order[i], order[j]);
      var q := p[1..];
      forall k | 0 <= k < |q| - 1 ensures Edge(g, q[k], q[k + 1]) {
        assert q[k] == p[k + 1] && q[k + 1] == p[k + 2];
      }
      OrderRisesAlongWalk(g, order, q);
    }
  }

  lemma {:induction false} OrderExcludesCycles(nodes: seq<Id>, g: Graph, order: seq<Id>)
    requires Plannable(nodes, g) && IsShutdownOrder(nodes, g, order)
    ensures Acyclic(g)
  {
    forall p ensures !ClosedWalk(g, p) {
      if ClosedWalk(g, p) {
        assert Edge(g, p[0], p[1]);
        ClosedUnderWalk(g, g.Keys, p);
        forall x | x in p ensures x in order {
          assert x in Elems(nodes);
          assert x in Elems(order);
        }
        OrderRisesAlongWalk(g, order, p);
      }
    }
  }

  // --- counting dependents that are still up ---

  // Declarations of x by nodes outside `done`, with multiplicity.
  ghost function Pending(nodes: seq<Id>, g: Graph, done: set<Id>, x: Id): nat
    requires forall n :: n in nodes ==> n in g
  {
    if nodes == [] then 0
    else
      assert nodes[0] in nodes;
      (if nodes[0] in done then 0 else Count(g[nodes[0]], x)) + Pending(nodes[1..], g, done, x)
  }

  lemma {:induction false} PendingSnoc(nodes: seq<Id>, g: Graph, done: set<Id>, n: Id, x: Id)
    requires n in g && n !in done && forall m :: m in nodes ==> m in g
    ensures Pending(nodes + [n], g, done, x) == Pending(nodes, g, done, x) + Count(g[n], x)
    decreases |nodes|
  {
    if nodes == [] {
      assert [n][1..] == [];
    } else {
      assert (nodes + [n])[1..] == nodes[1..] + [n];
      PendingSnoc(nodes[1..], g, done, n, x);
    }
  }

  lemma {:induction false} PendingZero(nodes: seq<Id>, g: Graph, done: set<Id>, x: Id)
    requires forall n :: n in nodes ==> n in g
    ensures Pending(nodes, g, done, x) == 0 <==> forall n :: n in nodes && x in g[n] ==> n in done
  {
    if nodes != [] {
      assert nodes[0] in nodes;
      assert forall n :: n in nodes <==> n == nodes[0] || n in nodes[1..];
      CountPositive(g[nodes[0]], x);
      PendingZero(nodes[1..], g, done, x);
    }
  }

  lemma {:induction false} PendingDone(nodes: seq<Id>, g: Graph, done: set<Id>, s: Id, x: Id)
    requires Distinct(nodes) && s in nodes && s !in done && forall n :: n in nodes ==> n in g
    ensures Pending(nodes, g, done, x) == Pending(nodes, g, done + {s}, x) + Count(g[s], x)
  {
    assert nodes[0] in nodes;
    if nodes[0] == s {
      assert s !in nodes[1..];
      PendingUnaffected(nodes[1..], g, done, s, x);
    } else {
      assert s in nodes[1..];
      PendingDone(nodes[1..], g, done, s, x);
    }
  }

  lemma {:induction false} PendingUnaffected(nodes: seq<Id>, g: Graph, done: set<Id>, s: Id, x: Id)
    requires s !in nodes && forall n :: n in nodes ==> n in g
    ensures Pending(nodes, g, done, x) == Pending(nodes, g, done + {s}, x)
  {
    if nodes != [] {
      assert nodes[0] in nodes;
      PendingUnaffected(nodes[1..], g, done, s, x);
    }
  }

  lemma {:induction false} PendingIsAvailable(nodes: seq<Id>, g: Graph, done: set<Id>, x: Id)
    requires Plannable(nodes, g) && x in nodes && x !in done
    ensures Pending(nodes, g, done, x) == 0 <==> Available(g, done, x)
  {
    PendingZero(nodes, g, done, x);
    forall a | Edge(g, a, x) ensures a in nodes {
      assert a in Elems(nodes);
    }
  }

  // --- sorting the ready list by snapshot position ---

  function PositionsOf(nodes: seq<Id>): map<Id, nat> {
    map x | x in nodes :: IndexOf(nodes, x)
  }

  ghost predicate SortedByPosition(positions: map<Id, nat>, xs: seq<Id>)
    requires forall x :: x in xs ==> x in positions
  {
    forall i, j :: 0 <= i < j < |xs| ==> positions[xs[i]] <= positions[xs[j]]
  }

  function InsertByPosition(positions: map<Id, nat>, xs: seq<Id>, x: Id): (r: seq<Id>)
    requires x in positions && forall y :: y in xs ==> y in positions
    ensures forall y :: y in r <==> y == x || y in xs
  {
    if xs == [] then [x]
    else if positions[x] < positions[xs[0]] then [x] + xs
    else
      assert forall y :: y in xs <==> y == xs[0] || y in xs[1..];
      [xs[0]] + InsertByPosition(positions, xs[1..], x)
  }

  lemma {:induction false} InsertKeepsOrder(positions: map<Id, nat>, xs: seq<Id>, x: Id)
    requires x in positions && forall y :: y in xs ==> y in positions
    requires SortedByPosition(positions, xs)
    ensures SortedByPosition(positions, InsertByPosition(positions, xs, x))
  {
    if xs != [] && positions[xs[0]] <= positions[x] {
      InsertKeepsOrder(positions, xs[1..], x);
      var rest := InsertByPosition(positions, xs[1..], x);
      forall i | 0 <= i < |rest| ensures positions[xs[0]] <= positions[rest[i]] {
        assert rest[i] == x || rest[i] in xs[1..];
      }
    }
  }

  lemma {:induction false} InsertKeepsDistinct(positions: map<Id, nat>, xs: seq<Id>, x: Id)
    requires x in positions && forall y :: y in xs ==> y in positions
    requires Distinct(xs) && x !in xs
    ensures Distinct(InsertByPosition(positions, xs, x))
  {
    if xs != [] && positions[xs[0]] <= positions[x] {
      InsertKeepsDistinct(positions, xs[1..], x);
      assert xs[0] !in xs[1..];
    }
  }

  function SortByPosition(positions: map<Id, nat>, xs: seq<Id>): (r: seq<Id>)
    requires forall x :: x in xs ==> x in positions
    ensures forall x :: x in r <==> x in xs
    ensures SortedByPosition(positions, r)
    decreases |xs|
  {
    if xs == [] then []
    else
      var last := xs[|xs| - 1];
      var front := xs[..|xs| - 1];
      assert forall y :: y in xs <==> y == last || y in front;
      InsertKeepsOrder(positions, SortByPosition(positions, front), last);
      InsertByPosition(positions, SortByPosition(positions, front), last)
  }

  lemma {:induction false} SortKeepsDistinct(positions: map<Id, nat>, xs: seq<Id>)
    requires forall x :: x in xs ==> x in positions
    requires Distinct(xs)
    ensures Distinct(SortByPosition(positions, xs))
    decreases |xs|
  {
    if xs != [] {
      var last, front := xs[|xs| - 1], xs[..|xs| - 1];
      SortKeepsDistinct(positions, front);
      InsertKeepsDistinct(positions, SortByPosition(positions, front), last);
    }
  }

  // --- the loop over the ready list ---

  ghost predicate CountsRemaining(nodes: seq<Id>, g: Graph, done: set<Id>, remaining: map<Id, nat>)
    requires Plannable(nodes, g)
  {
    && remaining.Keys == g.Keys
    && forall x :: x in g ==> remaining[x] == Pending(nodes, g, done, x)
  }

  ghost predicate IsReady(nodes: seq<Id>, ordered: seq<Id>, remaining: map<Id, nat>, ready: seq<Id>)
  {
    && Distinct(ready)
    && (forall x :: x in ready <==> x in nodes && x !in ordered && x in remaining && remaining[x] == 0)
  }

  ghost predicate CountsPartly(nodes: seq<Id>, g: Graph, done: set<Id>, rest: seq<Id>, remaining: map<Id, nat>)
    requires Plannable(nodes, g)
  {
    && remaining.Keys == g.Keys
    && forall x :: x in g ==> remaining[x] == Pending(nodes, g, done, x) + Count(rest, x)
  }

  // The inner loop: one dependent fewer for each declared dependency, releasing those that reach zero.
  method ReleaseDependencies(nodes: seq<Id>, ghost g: Graph, dependencies: seq<Id>, ghost ordered: seq<Id>,
                             counts: map<Id, nat>, list: seq<Id>)
    returns (remaining: map<Id, nat>, ready: seq<Id>)
    requires Plannable(nodes, g)
    requires forall d :: d in dependencies ==> d in g && d !in ordered
    requires CountsPartly(nodes, g, Elems(ordered), dependencies, counts)
    requires IsReady(nodes, ordered, counts, list)
    ensures CountsRemaining(nodes, g, Elems(ordered), remaining)
    ensures IsReady(nodes, ordered, remaining, ready)
  {
    remaining, ready := counts, list;
    for j := 0 to |dependencies|
      invariant CountsPartly(nodes, g, Elems(ordered), dependencies[j..], remaining)
      invariant IsReady(nodes, ordered, remaining, ready)
    {
      var dependency := dependencies[j];
      assert dependencies[j..][0] == dependency && dependencies[j..][1..] == dependencies[j + 1..];
      assert dependency in Elems(nodes);
      remaining := remaining[dependency := remaining[dependency] - 1];
      if remaining[dependency] == 0 {
        ready := ready + [dependency];
      }
    }
    assert dependencies[|dependencies|..] == [];
  }

  // What a shutdown plan must be: the least shutdown order, or a report that a cycle exists.
  ghost predicate PlansShutdown(nodes: seq<Id>, g: Graph, r: Result<seq<Id>, PlanError>) {
    match r
    case Success(order) => Greedy(nodes, g, order) && Elems(order) == Elems(nodes)
    case Failure(e) => e == CycleRemains && !Acyclic(g)
  }

  // The first ready service is the greedy choice.
  lemma {:induction false} FirstReadyIsGreedy(nodes: seq<Id>, g: Graph, ordered: seq<Id>, remaining: map<Id, nat>,
                                              ready: seq<Id>)
    requires Plannable(nodes, g)
    requires CountsRemaining(nodes, g, Elems(ordered), remaining)
    requires IsReady(nodes, ordered, remaining, ready) && ready != []
    requires SortedByPosition(PositionsOf(nodes), ready)
    ensures TakesFirst(nodes, g, Elems(ordered), ready[0])
  {
    var s, done := ready[0], Elems(ordered);
    assert s in Elems(nodes);
    PendingIsAvailable(nodes, g, done, s);
    forall x | x in nodes && Available(g, done, x) ensures IndexOf(nodes, s) <= IndexOf(nodes, x) {
      assert x in Elems(nodes);
      PendingIsAvailable(nodes, g, done, x);
      assert x in ready;
      assert PositionsOf(nodes)[s] <= PositionsOf(nodes)[x];
    }
  }

  lemma {:induction false} GreedySnoc(nodes: seq<Id>, g: Graph, ordered: seq<Id>, s: Id)
    requires Greedy(nodes, g, ordered) && TakesFirst(nodes, g, Elems(ordered), s)
    ensures Greedy(nodes, g, ordered + [s])
  {
    assert s in nodes;
    hide TakesFirst;
    var next := ordered + [s];
    forall i | 0 <= i < |next| ensures TakesFirst(nodes, g, Elems(next[..i]), next[i]) {
      if i < |ordered| {
        assert next[..i] == ordered[..i];
      } else {
        assert next[..i] == ordered;
      }
    }
  }

  // Before its dependencies are released, the counts still include the declarations of s.
  lemma {:induction false} CountsBeforeRelease(nodes: seq<Id>, g: Graph, ordered: seq<Id>, s: Id, remaining: map<Id,
                                               nat>)
    requires Plannable(nodes, g) && s in g && s in nodes && s !in ordered
    requires CountsRemaining(nodes, g, Elems(ordered), remaining)
    ensures CountsPartly(nodes, g, Elems(ordered + [s]), g[s], remaining)
  {
    assert Elems(ordered + [s]) == Elems(ordered) + {s};
    forall x | x in g ensures remaining[x] == Pending(nodes, g, Elems(ordered + [s]), x) + Count(g[s], x) {
      PendingDone(nodes, g, Elems(ordered), s, x);
    }
  }

  lemma {:induction false} ReadyAfterTaking(nodes: seq<Id>, ordered: seq<Id>, remaining: map<Id, nat>, ready: seq<Id>)
    requires IsReady(nodes, ordered, remaining, ready) && ready != []
    ensures IsReady(nodes, ordered + [ready[0]], remaining, ready[1..])
  {
    assert ready[0] !in ready[1..];
    assert forall x :: x in ready <==> x == ready[0] || x in ready[1..];
  }

  lemma {:induction false} DependenciesStillUp(nodes: seq<Id>, g: Graph, ordered: seq<Id>, s: Id)
    requires Plannable(nodes, g) && Greedy(nodes, g, ordered) && s in g
    requires TakesFirst(nodes, g, Elems(ordered), s)
    ensures forall d :: d in g[s] ==> d in g && d !in ordered + [s]
  {
    GreedyClosedUpward(nodes, g, ordered);
    forall d | d in g[s] ensures d in g && d !in ordered + [s] {
      assert Edge(g, s, d);
    }
  }

  // When nothing is ready any more, either everything was shut down or a cycle remains.
  lemma {:induction false} StuckMeansCycle(nodes: seq<Id>, g: Graph, ordered: seq<Id>, remaining: map<Id, nat>)
    requires Plannable(nodes, g)
    requires Distinct(ordered) && forall x :: x in ordered ==> x in nodes
    requires CountsRemaining(nodes, g, Elems(ordered), remaining)
    requires IsReady(nodes, ordered, remaining, [])
    ensures |ordered| == |nodes| <==> Elems(ordered) == Elems(nodes)
    ensures |ordered| != |nodes| ==> !Acyclic(g)
  {
    SublistCardinality(ordered, nodes);
    var stuck := Elems(nodes) - Elems(ordered);
    assert stuck == {} ==> Elems(ordered) == Elems(nodes) by {
      assert forall x :: x in Elems(ordered) ==> x in Elems(nodes);
      assert forall x :: x in Elems(nodes) ==> x in stuck || x in Elems(ordered);
    }
    if stuck != {} {
      forall x | x in stuck ensures HasDependentIn(g, stuck, x) {
        StuckHasDependent(nodes, g, ordered, remaining, x);
      }
      var cycle := CycleFromPredecessors(g, stuck);
    }
  }

  lemma {:induction false} StuckHasDependent(nodes: seq<Id>, g: Graph, ordered: seq<Id>, remaining: map<Id, nat>, x: Id)
    requires Plannable(nodes, g)
    requires CountsRemaining(nodes, g, Elems(ordered), remaining)
    requires IsReady(nodes, ordered, remaining, [])
    requires x in nodes && x !in ordered
    ensures HasDependentIn(g, Elems(nodes) - Elems(ordered), x)
  {
    assert x in Elems(nodes);
    var none: seq<Id> := [];
    assert x !in none;
    assert remaining[x] != 0;
    PendingIsAvailable(nodes, g, Elems(ordered), x);
    assert x !in Elems(ordered);
    var a :| Edge(g, a, x) && a !in Elems(ordered);
    assert a in Elems(nodes);
  }

  method DrainReady(nodes: seq<Id>, dependencies: Graph, counts: map<Id, nat>, list: seq<Id>)
    returns (r: Result<seq<Id>, PlanError>)
    requires Plannable(nodes, dependencies)
    requires CountsRemaining(nodes, dependencies, {}, counts)
    requires IsReady(nodes, [], counts, list)
    ensures PlansShutdown(nodes, dependencies, r)
  {
    var positions := PositionsOf(nodes);
    var ordered: seq<Id> := [];
    assert Greedy(nodes, dependencies, ordered);
    hide Greedy, CountsRemaining, CountsPartly;
    var remaining, ready := counts, list;
    assert Elems(ordered) == {};
    while ready != []
      invariant Greedy(nodes, dependencies, ordered)
      invariant CountsRemaining(nodes, dependencies, Elems(ordered), remaining)
      invariant IsReady(nodes, ordered, remaining, ready)
      decreases Elems(nodes) - Elems(ordered)
    {
      SortKeepsDistinct(positions, ready);
      ready := SortByPosition(positions, ready);
      var serviceId := ready[0];
      assert serviceId in Elems(nodes) && serviceId !in ordered;
      FirstReadyIsGreedy(nodes, dependencies, ordered, remaining, ready);
      GreedySnoc(nodes, dependencies, ordered, serviceId);
      DependenciesStillUp(nodes, dependencies, ordered, serviceId);
      CountsBeforeRelease(nodes, dependencies, ordered, serviceId, remaining);
      ReadyAfterTaking(nodes, ordered, remaining, ready);
      ready := ready[1..];
      ordered := ordered + [serviceId];
      assert serviceId in Elems(ordered);
      remaining, ready :=
        ReleaseDependencies(nodes, dependencies, dependencies[serviceId], ordered, remaining, ready);
    }
    GreedyDependentsFirst(nodes, dependencies, ordered);
    StuckMeansCycle(nodes, dependencies, ordered, remaining);
    if |ordered| != |nodes| {
      return Failure(CycleRemains);
    }
    return Success(ordered);
  }

  // --- stable_shutdown_order itself ---

  function IdsOf(snapshots: seq<Snapshot>): (ids: seq<Id>)
    ensures |ids| == |snapshots| && forall i :: 0 <= i < |ids| ==> ids[i] == snapshots[i].id
  {
    seq(|snapshots|, i requires 0 <= i < |snapshots| => snapshots[i].id)
  }

  // Snapshot i declares a dependency, at position j, that no snapshot carries.
  ghost predicate Unregistered(snapshots: seq<Snapshot>, i: nat, j: nat) {
    i < |snapshots| && j < |snapshots[i].dependsOn| && snapshots[i].dependsOn[j] !in IdsOf(snapshots)
  }

  // The first such declaration, in snapshot order and then declaration order.
  ghost predicate FirstUnregistered(snapshots: seq<Snapshot>, id: Id) {
    exists i: nat, j: nat ::
      && Unregistered(snapshots, i, j) && snapshots[i].dependsOn[j] == id
      && (forall i': nat, j': nat :: Unregistered(snapshots, i', j') ==> i < i' || (i == i' && j <= j'))
  }

  lemma {:induction false} GraphOfDistinct(snapshots: seq<Snapshot>)
    requires Distinct(IdsOf(snapshots))
    ensures GraphOf(snapshots).Keys == Elems(IdsOf(snapshots))
    ensures forall i :: 0 <= i < |snapshots| ==>
              snapshots[i].id in GraphOf(snapshots) && GraphOf(snapshots)[snapshots[i].id] == snapshots[i].dependsOn
  {
    if snapshots != [] {
      hide IdsOf;
      var front, last := snapshots[..|snapshots| - 1], snapshots[|snapshots| - 1];
      assert IdsOf(snapshots) == IdsOf(front) + [last.id];
      assert Distinct(IdsOf(front)) by {
        assert IdsOf(front) == IdsOf(snapshots)[..|front|];
      }
      GraphOfDistinct(front);
      forall i | 0 <= i < |front| ensures front[i].id != last.id {
        assert IdsOf(snapshots)[i] != IdsOf(snapshots)[|front|];
      }
      assert GraphOf(snapshots) == GraphOf(front)[last.id := last.dependsOn];
    }
  }

  // These dependencies of one service were added to the counts and recorded for it.
  ghost predicate CountedFor(id: Id, declared: seq<Id>, counts: map<Id, nat>, remaining: map<Id, nat>, lists: Graph,
                             dependencies: Graph)
    requires id in lists
  {
    && remaining.Keys == counts.Keys
    && (forall x :: x in counts ==> remaining[x] == counts[x] + Count(declared, x))
    && dependencies.Keys == lists.Keys
    && dependencies[id] == lists[id] + declared
    && (forall n :: n in lists && n != id ==> dependencies[n] == lists[n])
  }

  lemma {:induction false} CountNone(id: Id, counts: map<Id, nat>, lists: Graph)
    requires id in lists
    ensures CountedFor(id, [], counts, counts, lists, lists)
  {
    assert lists[id] + [] == lists[id];
  }

  lemma {:induction false} CountOneMore(id: Id, xs: seq<Id>, d: Id, counts: map<Id, nat>, remaining: map<Id, nat>,
                                        lists: Graph, dependencies: Graph)
    requires id in lists && CountedFor(id, xs, counts, remaining, lists, dependencies) && d in counts
    ensures id in dependencies && d in remaining
    ensures CountedFor(id, xs + [d], counts, remaining[d := remaining[d] + 1], lists,
            dependencies[id := dependencies[id] + [d]])
  {
    forall x ensures Count(xs + [d], x) == Count(xs, x) + if x == d then 1 else 0 {
      CountConcat(xs, [d], x);
      assert [d][1..] == [];
    }
    Regroup(lists[id], xs, [d]);
  }

  lemma {:induction false} CountedForKeys(id: Id, xs: seq<Id>, counts: map<Id, nat>, remaining: map<Id, nat>,
                                          lists: Graph, dependencies: Graph)
    requires id in lists && CountedFor(id, xs, counts, remaining, lists, dependencies)
    ensures remaining.Keys == counts.Keys && dependencies.Keys == lists.Keys
  {}

  // One service's declarations: count each dependency and record it, or stop at the first unknown one.
  method CountDeclarations(service: Snapshot, counts: map<Id, nat>, lists: Graph)
    returns (unknown: Option<nat>, remaining: map<Id, nat>, dependencies: Graph)
    requires service.id in lists
    ensures unknown.None? ==>
              && (forall d :: d in service.dependsOn ==> d in counts)
              && CountedFor(service.id, service.dependsOn, counts, remaining, lists, dependencies)
    ensures unknown.Some? ==>
              && unknown.value < |service.dependsOn|
              && service.dependsOn[unknown.value] !in counts
              && (forall j :: 0 <= j < unknown.value ==> service.dependsOn[j] in counts)
  {
    hide CountedFor;
    remaining, dependencies := counts, lists;
    var declared := service.dependsOn;
    CountNone(service.id, counts, lists);
    assert declared[..0] == [];
    for j := 0 to |declared|
      invariant forall d :: d in declared[..j] ==> d in counts
      invariant CountedFor(service.id, declared[..j], counts, remaining, lists, dependencies)
    {
      var dependency := declared[j];
      CountedForKeys(service.id, declared[..j], counts, remaining, lists, dependencies);
      if dependency !in remaining {
        return Some(j), remaining, dependencies;
      }
      assert declared[..j + 1] == declared[..j] + [dependency];
      CountOneMore(service.id, declared[..j], dependency, counts, remaining, lists, dependencies);
      remaining := remaining[dependency := remaining[dependency] + 1];
      dependencies := dependencies[service.id := dependencies[service.id] + [dependency]];
    }
    assert declared[..|declared|] == declared;
    unknown := None;
  }

  method CollectReady(nodes: seq<Id>, remaining: map<Id, nat>) returns (ready: seq<Id>)
    requires Distinct(nodes) && Elems(nodes) == remaining.Keys
    ensures IsReady(nodes, [], remaining, ready)
  {
    ready := [];
    for i := 0 to |nodes|
      invariant Distinct(ready)
      invariant forall x :: x in ready ==> x in nodes[..i] && x in remaining && remaining[x] == 0
      invariant forall x :: x in nodes[..i] && x in remaining && remaining[x] == 0 ==> x in ready
    {
      assert nodes[..i + 1] == nodes[..i] + [nodes[i]];
      assert nodes[i] in Elems(nodes);
      if remaining[nodes[i]] == 0 {
        assert nodes[i] !in nodes[..i];
        ready := ready + [nodes[i]];
      }
    }
    assert nodes[..|nodes|] == nodes;
  }

  // The state after the first i services have been counted.
  ghost predicate CountsUpTo(nodes: seq<Id>, g: Graph, i: nat, remaining: map<Id, nat>)
    requires i <= |nodes| && forall n :: n in nodes ==> n in g
  {
    && remaining.Keys == g.Keys
    && (forall n :: n in nodes[..i] ==> n in nodes)
    && (forall x :: x in g ==> remaining[x] == Pending(nodes[..i], g, {}, x))
  }

  ghost predicate ListsUpTo(nodes: seq<Id>, g: Graph, i: nat, dependencies: Graph)
    requires forall n :: n in nodes ==> n in g
  {
    && dependencies.Keys == g.Keys
    && (forall n :: 0 <= n < |nodes| ==> dependencies[nodes[n]] == if n < i then g[nodes[n]] else [])
  }

  ghost predicate RegisteredUpTo(nodes: seq<Id>, g: Graph, i: nat)
    requires i <= |nodes| && forall n :: n in nodes ==> n in g
  {
    forall n, d :: 0 <= n < i && d in g[nodes[n]] ==> d in g
  }

  // Both collections after the first i services, with the keys they need.
  ghost predicate CountedUpTo(nodes: seq<Id>, g: Graph, i: nat, counts: map<Id, nat>, dependencies: Graph)
    requires i <= |nodes| && forall n :: n in nodes ==> n in g
  {
    CountsUpTo(nodes, g, i, counts) && ListsUpTo(nodes, g, i, dependencies)
  }

  lemma {:induction false} NothingCounted(nodes: seq<Id>, g: Graph, counts: map<Id, nat>, dependencies: Graph)
    requires forall n :: n in nodes ==> n in g
    requires counts.Keys == g.Keys == dependencies.Keys
    requires forall x :: x in g ==> counts[x] == 0 && dependencies[x] == []
    ensures CountedUpTo(nodes, g, 0, counts, dependencies)
  {}

  lemma {:induction false} CountedKeys(nodes: seq<Id>, g: Graph, i: nat, counts: map<Id, nat>, dependencies: Graph)
    requires i <= |nodes| && (forall n :: n in nodes ==> n in g) && CountedUpTo(nodes, g, i, counts, dependencies)
    ensures counts.Keys == g.Keys == dependencies.Keys
  {}

  lemma {:induction false} CountedStep(nodes: seq<Id>, g: Graph, i: nat, counts: map<Id, nat>, remaining: map<Id, nat>,
                                       lists: Graph, dependencies: Graph)
    requires i < |nodes| && Distinct(nodes) && (forall n :: n in nodes ==> n in g)
    requires CountedUpTo(nodes, g, i, counts, lists) && nodes[i] in lists
    requires CountedFor(nodes[i], g[nodes[i]], counts, remaining, lists, dependencies)
    ensures CountedUpTo(nodes, g, i + 1, remaining, dependencies)
  {
    CountsStep(nodes, g, i, counts, remaining);
    ListsStep(nodes, g, i, lists, dependencies);
    hide CountsUpTo, ListsUpTo;
  }

  lemma {:induction false} CountsStep(nodes: seq<Id>, g: Graph, i: nat, counts: map<Id, nat>, remaining: map<Id, nat>)
    requires i < |nodes| && (forall n :: n in nodes ==> n in g) && CountsUpTo(nodes, g, i, counts)
    requires remaining.Keys == counts.Keys
    requires forall x :: x in counts ==> remaining[x] == counts[x] + Count(g[nodes[i]], x)
    ensures CountsUpTo(nodes, g, i + 1, remaining)
  {
    assert nodes[..i + 1] == nodes[..i] + [nodes[i]];
    forall x | x in g ensures remaining[x] == Pending(nodes[..i + 1], g, {}, x) {
      PendingSnoc(nodes[..i], g, {}, nodes[i], x);
    }
  }

  lemma {:induction false} ListsStep(nodes: seq<Id>, g: Graph, i: nat, lists: Graph, dependencies: Graph)
    requires i < |nodes| && Distinct(nodes) && (forall n :: n in nodes ==> n in g) && ListsUpTo(nodes, g, i, lists)
    requires dependencies.Keys == lists.Keys
    requires dependencies[nodes[i]] == lists[nodes[i]] + g[nodes[i]]
    requires forall n :: n in lists && n != nodes[i] ==> dependencies[n] == lists[n]
    ensures ListsUpTo(nodes, g, i + 1, dependencies)
  {
    assert [] + g[nodes[i]] == g[nodes[i]];
  }

  // The counting pass over all snapshots; stops at the first unregistered dependency.
  method CountAll(snapshots: seq<Snapshot>, nodes: seq<Id>, ghost g: Graph)
    returns (unknown: Option<(nat, nat)>, counts: map<Id, nat>, dependencies: Graph)
    requires |nodes| == |snapshots| && Distinct(nodes) && Elems(nodes) == g.Keys
    requires forall n :: n in nodes ==> n in g
    requires forall i :: 0 <= i < |nodes| ==> nodes[i] == snapshots[i].id && g[nodes[i]] == snapshots[i].dependsOn
    ensures unknown.None? ==>
              CountedUpTo(nodes, g, |nodes|, counts, dependencies) && RegisteredUpTo(nodes, g, |nodes|)
    ensures unknown.Some? ==>
              var (i, j) := unknown.value;
              && i < |nodes| && j < |g[nodes[i]]| && g[nodes[i]][j] !in g
              && RegisteredUpTo(nodes, g, i)
              && (forall j' :: 0 <= j' < j ==> g[nodes[i]][j'] in g)
  {
    hide Elems, CountedUpTo, CountedFor, Distinct, RegisteredUpTo;
    NothingRegistered(nodes, g);
    counts := map x | x in nodes :: 0;
    dependencies := map x | x in nodes :: [];
    EveryNode(nodes, g);
    NothingCounted(nodes, g, counts, dependencies);
    for i := 0 to |snapshots|
      invariant CountedUpTo(nodes, g, i, counts, dependencies)
      invariant RegisteredUpTo(nodes, g, i)
    {
      ghost var lists0, counts0 := dependencies, counts;
      assert nodes[i] == snapshots[i].id && g[nodes[i]] == snapshots[i].dependsOn;
      CountedKeys(nodes, g, i, counts, dependencies);
      var at;
      at, counts, dependencies := CountDeclarations(snapshots[i], counts, dependencies);
      if at.Some? {
        return Some((i, at.value)), counts, dependencies;
      }
      CountedStep(nodes, g, i, counts0, counts, lists0, dependencies);
      RegisteredStep(nodes, g, i);
    }
    unknown := None;
  }

  lemma {:induction false} NothingRegistered(nodes: seq<Id>, g: Graph)
    requires forall n :: n in nodes ==> n in g
    ensures RegisteredUpTo(nodes, g, 0)
  {}

  lemma {:induction false} RegisteredStep(nodes: seq<Id>, g: Graph, i: nat)
    requires i < |nodes| && (forall n :: n in nodes ==> n in g) && RegisteredUpTo(nodes, g, i)
    requires forall d :: d in g[nodes[i]] ==> d in g
    ensures RegisteredUpTo(nodes, g, i + 1)
  {}

  lemma {:induction false} EveryNode(nodes: seq<Id>, g: Graph)
    requires Elems(nodes) == g.Keys
    ensures forall x :: x in nodes <==> x in g
  {
    assert forall x :: x in Elems(nodes) <==> x in g;
  }

  // The registry keys its services by id, so the snapshots it hands out carry distinct ids.
  method StableShutdownOrder(snapshots: seq<Snapshot>) returns (r: Result<seq<Id>, PlanError>)
    requires Distinct(IdsOf(snapshots))
    ensures var g := GraphOf(snapshots);
            if Complete(g) then PlansShutdown(IdsOf(snapshots), g, r)
            else r.Failure? && r.error.NotFound? && FirstUnregistered(snapshots, r.error.id)
  {
    var nodes := IdsOf(snapshots);
    ghost var g := GraphOf(snapshots);
    GraphOfDistinct(snapshots);
    assert forall n :: n in nodes ==> n in Elems(nodes);
    var unknown, counts, dependencies := CountAll(snapshots, nodes, g);
    if unknown.Some? {
      var (i, j) := unknown.value;
      assert g[nodes[i]] == snapshots[i].dependsOn;
      UnknownIsFirst(snapshots, i, j);
      return Failure(NotFound(snapshots[i].dependsOn[j]));
    }
    CountingDone(nodes, g, counts, dependencies);
    var ready := CollectReady(nodes, counts);
    r := DrainReady(nodes, dependencies, counts, ready);
  }

  lemma {:induction false} CountingDone(nodes: seq<Id>, g: Graph, counts: map<Id, nat>, dependencies: Graph)
    requires Distinct(nodes) && Elems(nodes) == g.Keys && (forall n :: n in nodes ==> n in g)
    requires CountedUpTo(nodes, g, |nodes|, counts, dependencies)
    requires RegisteredUpTo(nodes, g, |nodes|)
    ensures Plannable(nodes, g) && CountsRemaining(nodes, g, {}, counts) && dependencies == g
  {
    assert nodes[..|nodes|] == nodes;
    forall x | x in g ensures exists n :: 0 <= n < |nodes| && nodes[n] == x {
      assert x in Elems(nodes);
    }
  }

  lemma {:induction false} UnknownIsFirst(snapshots: seq<Snapshot>, i: nat, j: nat)
    requires Distinct(IdsOf(snapshots)) && i < |snapshots|
    requires GraphOf(snapshots).Keys == Elems(IdsOf(snapshots))
    requires forall n :: n in IdsOf(snapshots) ==> n in GraphOf(snapshots)
    requires RegisteredUpTo(IdsOf(snapshots), GraphOf(snapshots), i)
    requires j < |snapshots[i].dependsOn| && snapshots[i].dependsOn[j] !in GraphOf(snapshots)
    requires forall j' :: 0 <= j' < j ==> snapshots[i].dependsOn[j'] in GraphOf(snapshots)
    ensures FirstUnregistered(snapshots, snapshots[i].dependsOn[j])
    ensures !Complete(GraphOf(snapshots))
  {
    var nodes, g := IdsOf(snapshots), GraphOf(snapshots);
    GraphOfDistinct(snapshots);
    assert snapshots[i].dependsOn[j] !in Elems(nodes);
    assert forall x :: x in g ==> x in Elems(nodes);
    forall i': nat, j': nat | Unregistered(snapshots, i', j') ensures i < i' || (i == i' && j <= j') {
      assert snapshots[i'].dependsOn[j'] !in Elems(nodes);
      assert snapshots[i'].dependsOn[j'] in g[nodes[i']];
    }
    assert Unregistered(snapshots, i, j);
    assert Edge(g, snapshots[i].id, snapshots[i].dependsOn[j]);
  }

  // Shutdown planning fails exactly when a dependency is unregistered or the graph has a cycle.
  lemma {:induction false} ShutdownSucceedsIff(nodes: seq<Id>, g: Graph, r: Result<seq<Id>, PlanError>)
    requires Plannable(nodes, g) && PlansShutdown(nodes, g, r)
    ensures r.Success? <==> Acyclic(g)
    ensures r.Success? ==> IsShutdownOrder(nodes, g, r.value)
  {
    if r.Success? {
      GreedyDependentsFirst(nodes, g, r.value);
      OrderExcludesCycles(nodes, g, r.value);
    }
  }
}
