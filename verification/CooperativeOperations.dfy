// src/application/cooperative_operations.rs: the single-flight manager of cooperative operations.
// Each critical section under the registry lock is one step; begin calls and worker threads interleave
// freely between them.
module CooperativeOperations {
  import opened Wrappers
  import opened Sequences

  const RETAINED_OPERATIONS: nat := 128

  datatype Status = Running | Completed | Failed

  datatype Stage = Requested | RelayCreated | Delivered | Accepted | HeartbeatObserved | StageCompleted | StageFailed

  datatype Snapshot = Snapshot(
    requestId: string, actor: string, reason: string, status: Status, stage: Stage,
    relayActionId: Option<string>, expectedBuildId: Option<string>, observedBuildId: Option<string>,
    errorCategory: Option<string>, message: string)

  datatype Update = Update(stage: Stage, relayActionId: Option<string>, expectedBuildId: Option<string>,
                           observedBuildId: Option<string>, message: string)

  datatype Outcome = Outcome(relayActionId: Option<string>, expectedBuildId: Option<string>,
                             observedBuildId: Option<string>, message: string)

  datatype ActionError = ActionError(relayActionId: Option<string>, observedBuildId: Option<string>,
                                     category: string, message: string)

  datatype OperationError = IdempotencyConflict | ActionInProgress(active: string)

  // A begin call either answers at once or has reserved the slot and goes on to start its worker.
  datatype Begun = Answered(existing: Snapshot) | Reserved

  function NewSnapshot(actor: string, reason: string, id: string): Snapshot {
    Snapshot(id, actor, reason, Running, Requested, None, None, None, None,
             "authenticated cooperative reload operation accepted")
  }

  function Or<T>(newer: Option<T>, older: Option<T>): Option<T> {
    if newer.Some? then newer else older
  }

  function Updated(s: Snapshot, u: Update): Snapshot {
    s.(stage := u.stage, relayActionId := Or(u.relayActionId, s.relayActionId),
       expectedBuildId := Or(u.expectedBuildId, s.expectedBuildId),
       observedBuildId := Or(u.observedBuildId, s.observedBuildId), message := u.message)
  }

  function Ended(s: Snapshot, result: Result<Outcome, ActionError>): Snapshot {
    match result
    case Success(o) =>
      s.(status := Completed, stage := StageCompleted, relayActionId := o.relayActionId,
         expectedBuildId := o.expectedBuildId, observedBuildId := o.observedBuildId, message := o.message)
    case Failure(e) =>
      s.(status := Failed, stage := StageFailed, relayActionId := Or(s.relayActionId, e.relayActionId),
         observedBuildId := Or(s.observedBuildId, e.observedBuildId), errorCategory := Some(e.category),
         message := e.message)
  }

  // --- the registry and the threads around it ---

  datatype Event = Reserve(id: string) | Launch(id: string)

  datatype State = State(
    operations: map<string, Snapshot>,
    order: seq<string>,
    active: Option<string>,
    awaiting: multiset<string>, // begin calls that reserved and have not yet started their worker
    workers: multiset<string>,  // workers still executing
    history: seq<Event>)

  datatype Step =
    | Begin(actor: string, reason: string, id: string)
    | SpawnFails(id: string)
    | SpawnWorks(id: string)
    | Progress(id: string, update: Update)
    | Finish(id: string, result: Result<Outcome, ActionError>)

  // Steps that some thread is in a position to take.
  predicate Enabled(s: State, step: Step) {
    match step
    case Begin(_, _, _) => true
    case SpawnFails(id) => id in s.awaiting
    case SpawnWorks(id) => id in s.awaiting
    case Progress(id, _) => id in s.workers
    case Finish(id, _) => id in s.workers
  }

  // What is left once the oldest have made room for one more.
  function Survivors(operations: map<string, Snapshot>, order: seq<string>): (map<string, Snapshot>, seq<string>)
    decreases |order|
  {
    if |operations| < RETAINED_OPERATIONS || order == [] then (operations, order)
    else Survivors(operations - {order[0]}, order[1..])
  }

  function Without(xs: seq<string>, x: string): seq<string> {
    if xs == [] then [] else (if xs[0] == x then [] else [xs[0]]) + Without(xs[1..], x)
  }

  function Inserted(s: State, operation: Snapshot): State {
    var (operations, order) := Survivors(s.operations, s.order);
    s.(operations := operations[operation.requestId := operation], order := order + [operation.requestId])
  }

  function Next(s: State, step: Step): State {
    match step
    case Begin(actor, reason, id) =>
      if id in s.operations || s.active.Some? then s
      else Inserted(s, NewSnapshot(actor, reason, id)).(
             active := Some(id), awaiting := s.awaiting + multiset{id}, history := s.history + [Reserve(id)])
    case SpawnFails(id) =>
      s.(operations := s.operations - {id}, order := Without(s.order, id), active := None,
         awaiting := s.awaiting - multiset{id})
    case SpawnWorks(id) =>
      s.(awaiting := s.awaiting - multiset{id}, workers := s.workers + multiset{id},
         history := s.history + [Launch(id)])
    case Progress(id, update) =>
      if id !in s.operations then s else s.(operations := s.operations[id := Updated(s.operations[id], update)])
    case Finish(id, result) =>
      var t := s.(workers := s.workers - multiset{id});
      if id !in s.operations then t
      else t.(operations := s.operations[id := Ended(s.operations[id], result)],
              active := if s.active == Some(id) then None else s.active)
  }

  // Workers launched for this id since it was last reserved.
  function LaunchesSince(history: seq<Event>, id: string): nat {
    if history == [] then 0
    else
      var last := history[|history| - 1];
      if last == Reserve(id) then 0
      else LaunchesSince(history[..|history| - 1], id) + if last == Launch(id) then 1 else 0
  }

  // --- what every step keeps ---

  ghost predicate Listing(operations: map<string, Snapshot>, order: seq<string>) {
    && Distinct(order)
    && (forall id :: id in order <==> id in operations)
    && |order| <= RETAINED_OPERATIONS
  }

  // The slot, the threads and the statuses tell the same story.
  ghost predicate SingleFlight(s: State) {
    && s.awaiting + s.workers == (if s.active.Some? then multiset{s.active.value} else multiset{})
    && (s.active.Some? ==> s.order != [] && s.order[|s.order| - 1] == s.active.value)
    && (forall id :: id in s.operations ==> (s.operations[id].status == Running <==> s.active == Some(id)))
  }

  ghost predicate RunOnce(s: State) {
    forall id :: id in s.operations ==> LaunchesSince(s.history, id) == if id in s.awaiting then 0 else 1
  }

  ghost predicate Inv(s: State) {
    && Listing(s.operations, s.order)
    && SingleFlight(s)
    && RunOnce(s)
    && (forall id :: id in s.operations ==> s.operations[id].requestId == id)
    && (forall id :: id in s.operations ==>
          (s.operations[id].errorCategory.Some? <==> s.operations[id].status == Failed))
  }

  lemma {:induction false} ListingSize(operations: map<string, Snapshot>, order: seq<string>)
    requires Listing(operations, order)
    ensures |operations| == |order|
  {
    DistinctCardinality(order);
    assert operations.Keys == Elems(order);
  }

  // A full registry gives up exactly its oldest operation, any other none.
  lemma {:induction false} EvictsAtMostOne(operations: map<string, Snapshot>, order: seq<string>)
    requires Listing(operations, order)
    ensures Survivors(operations, order) ==
            if |order| == RETAINED_OPERATIONS then (operations - {order[0]}, order[1..]) else (operations, order)
  {
    ListingSize(operations, order);
    if |order| == RETAINED_OPERATIONS {
      ListingDrops(operations, order);
      ListingSize(operations - {order[0]}, order[1..]);
    }
  }

  lemma {:induction false} ListingDrops(operations: map<string, Snapshot>, order: seq<string>)
    requires Listing(operations, order) && order != []
    ensures Listing(operations - {order[0]}, order[1..])
  {
    assert order == [order[0]] + order[1..];
  }

  lemma {:induction false} ListingGrows(operations: map<string, Snapshot>, order: seq<string>, o: Snapshot)
    requires Listing(operations, order) && |order| < RETAINED_OPERATIONS && o.requestId !in operations
    ensures Listing(operations[o.requestId := o], order + [o.requestId])
  {}

  lemma {:induction false} InsertedLists(s: State, o: Snapshot)
    requires Listing(s.operations, s.order) && o.requestId !in s.operations
    ensures var t := Inserted(s, o);
            && t == s.(operations := t.operations, order := t.order)
            && Listing(t.operations, t.order)
            && t.order != [] && t.order[|t.order| - 1] == o.requestId
            && o.requestId in t.operations && t.operations[o.requestId] == o
            && (forall id :: id in t.operations && id != o.requestId ==>
                  id in s.operations && t.operations[id] == s.operations[id])
  {
    hide Listing, Survivors;
    EvictsAtMostOne(s.operations, s.order);
    if |s.order| == RETAINED_OPERATIONS {
      ListingDrops(s.operations, s.order);
      ListingGrows(s.operations - {s.order[0]}, s.order[1..], o);
    } else {
      ListingBound(s.operations, s.order);
      ListingGrows(s.operations, s.order, o);
    }
  }

  lemma {:induction false} ReservedIs(s: State, actor: string, reason: string, id: string)
    requires Listing(s.operations, s.order) && id !in s.operations
    ensures var t := Inserted(s, NewSnapshot(actor, reason, id));
            && t.order != [] && t.order[|t.order| - 1] == id && id in t.operations
            && t.operations[id] == Snapshot(id, actor, reason, Running, Requested, None, None, None, None,
                                            "authenticated cooperative reload operation accepted")
            && (forall other :: other in t.operations && other != id ==>
                  other in s.operations && t.operations[other] == s.operations[other])
            && (forall other :: other in s.operations && other !in t.operations ==>
                  |s.order| == RETAINED_OPERATIONS && other == s.order[0])
  {
    hide Survivors;
    InsertedLists(s, NewSnapshot(actor, reason, id));
    EvictsAtMostOne(s.operations, s.order);
    hide Listing;
  }

  lemma {:induction false} ListingBound(operations: map<string, Snapshot>, order: seq<string>)
    requires Listing(operations, order)
    ensures |order| <= RETAINED_OPERATIONS
  {}

  lemma {:induction false} WithoutLast(order: seq<string>, id: string)
    requires Distinct(order) && order != [] && order[|order| - 1] == id
    ensures Without(order, id) == order[..|order| - 1]
  {
    if |order| > 1 {
      WithoutLast(order[1..], id);
      assert order[..|order| - 1] == [order[0]] + order[1..][..|order| - 2];
    }
  }

  lemma {:induction false} OneMoreEvent(history: seq<Event>, e: Event, id: string)
    ensures LaunchesSince(history + [e], id) ==
            if e == Reserve(id) then 0 else LaunchesSince(history, id) + if e == Launch(id) then 1 else 0
  {
    assert (history + [e])[..|history|] == history;
  }

  lemma {:induction false} NoThreads(s: State)
    requires SingleFlight(s) && s.active.None?
    ensures s.awaiting == multiset{} && s.workers == multiset{}
  {
    assert |s.awaiting + s.workers| == |s.awaiting| + |s.workers| == 0;
  }

  lemma {:induction false} BeginKeepsInv(s: State, actor: string, reason: string, id: string)
    requires Inv(s)
    ensures Inv(Next(s, Begin(actor, reason, id)))
  {
    hide LaunchesSince, Inserted, Listing;
    if id !in s.operations && s.active.None? {
      var o := NewSnapshot(actor, reason, id);
      InsertedLists(s, o);
      var t := Next(s, Begin(actor, reason, id));
      NoThreads(s);
      forall other | other in t.operations
        ensures LaunchesSince(t.history, other) == if other in t.awaiting then 0 else 1
      {
        OneMoreEvent(s.history, Reserve(id), other);
      }
    }
  }

  lemma {:induction false} OnlyThread(s: State, id: string)
    requires Inv(s) && (id in s.awaiting || id in s.workers)
    ensures s.active == Some(id) && id in s.operations
    ensures s.awaiting + s.workers == multiset{id}
    ensures s.order != [] && s.order[|s.order| - 1] == id
    ensures s.operations[id].status == Running
    ensures id in s.awaiting ==> s.awaiting == multiset{id} && s.workers == multiset{}
    ensures id in s.workers ==> s.workers == multiset{id} && s.awaiting == multiset{}
  {
    assert id in s.awaiting + s.workers;
    assert s.order[|s.order| - 1] in s.order;
    var all := multiset{id};
    assert |s.awaiting + s.workers| == |s.awaiting| + |s.workers| == 1;
    if id in s.awaiting {
      assert s.awaiting[id] >= 1;
      assert s.awaiting == multiset{id} + (s.awaiting - multiset{id});
    } else {
      assert s.workers == multiset{id} + (s.workers - multiset{id});
    }
  }

  lemma {:induction false} DropNewest(operations: map<string, Snapshot>, order: seq<string>)
    requires Listing(operations, order) && order != []
    ensures Listing(operations - {order[|order| - 1]}, order[..|order| - 1])
  {
    assert order == order[..|order| - 1] + [order[|order| - 1]];
  }

  lemma {:induction false} SpawnFailsKeepsInv(s: State, id: string)
    requires Inv(s) && id in s.awaiting
    ensures Inv(Next(s, SpawnFails(id)))
  {
    OnlyThread(s, id);
    WithoutLast(s.order, id);
    DropNewest(s.operations, s.order);
    hide LaunchesSince, Without, Listing;
    assert s.awaiting - multiset{id} == multiset{};
  }

  lemma {:induction false} SpawnFailsIs(s: State, id: string)
    requires Inv(s) && id in s.awaiting
    ensures var t := Next(s, SpawnFails(id));
            && Inv(t) && s.order == t.order + [id]
            && t == State(s.operations - {id}, Without(s.order, id), None, t.awaiting, s.workers, s.history)
  {
    SpawnFailsKeepsInv(s, id);
    OnlyThread(s, id);
    InvLists(s);
    WithoutLast(s.order, id);
    hide Inv, Without;
    assert s.order == s.order[..|s.order| - 1] + [id];
  }

  lemma {:induction false} SpawnWorksKeepsInv(s: State, id: string)
    requires Inv(s) && id in s.awaiting
    ensures Inv(Next(s, SpawnWorks(id)))
  {
    OnlyThread(s, id);
    hide LaunchesSince;
    var t := Next(s, SpawnWorks(id));
    forall other | other in t.operations ensures LaunchesSince(t.history, other) == 1 {
      OneMoreEvent(s.history, Launch(id), other);
    }
  }

  lemma {:induction false} SameListing(operations: map<string, Snapshot>, order: seq<string>, id: string, o: Snapshot)
    requires Listing(operations, order) && id in operations
    ensures Listing(operations[id := o], order)
  {}

  lemma {:induction false} ProgressKeepsInv(s: State, id: string, update: Update)
    requires Inv(s) && id in s.workers
    ensures Inv(Next(s, Progress(id, update)))
  {
    OnlyThread(s, id);
    SameListing(s.operations, s.order, id, Updated(s.operations[id], update));
    hide LaunchesSince, Listing;
  }

  lemma {:induction false} FinishKeepsInv(s: State, id: string, result: Result<Outcome, ActionError>)
    requires Inv(s) && id in s.workers
    ensures Inv(Next(s, Finish(id, result)))
  {
    OnlyThread(s, id);
    SameListing(s.operations, s.order, id, Ended(s.operations[id], result));
    hide LaunchesSince, Listing;
    assert s.workers - multiset{id} == multiset{};
  }

  lemma {:induction false} KeepsInv(s: State, step: Step)
    requires Inv(s) && Enabled(s, step)
    ensures Inv(Next(s, step))
  {
    hide Inv, Next;
    match step {
      case Begin(actor, reason, id) => BeginKeepsInv(s, actor, reason, id);
      case SpawnFails(id) => SpawnFailsKeepsInv(s, id);
      case SpawnWorks(id) => SpawnWorksKeepsInv(s, id);
      case Progress(id, update) => ProgressKeepsInv(s, id, update);
      case Finish(id, result) => FinishKeepsInv(s, id, result);
    }
  }

  // --- every interleaving ---

  function Run(s: State, steps: seq<Step>): State
    decreases |steps|
  {
    if steps == [] then s else Run(Next(s, steps[0]), steps[1..])
  }

  predicate AllEnabled(s: State, steps: seq<Step>)
    decreases |steps|
  {
    steps == [] || (Enabled(s, steps[0]) && AllEnabled(Next(s, steps[0]), steps[1..]))
  }

  const EMPTY := State(map[], [], None, multiset{}, multiset{}, [])

  lemma {:induction false} RunKeepsInv(s: State, steps: seq<Step>)
    requires Inv(s) && AllEnabled(s, steps)
    ensures Inv(Run(s, steps))
    decreases |steps|
  {
    if steps != [] {
      KeepsInv(s, steps[0]);
      RunKeepsInv(Next(s, steps[0]), steps[1..]);
    }
  }

  // At most one operation is running; it is the active one and the newest listed; the registry lists
  // its operations once each, within the bound; and no retained request had two workers.
  lemma {:induction false} OneAtATime(steps: seq<Step>)
    requires AllEnabled(EMPTY, steps)
    ensures var s := Run(EMPTY, steps);
            && (forall id :: id in s.operations && s.operations[id].status == Running ==>
                  s.active == Some(id) && s.order != [] && s.order[|s.order| - 1] == id)
            && (s.active.Some? ==> s.active.value in s.operations && s.operations[s.active.value].status == Running)
            && |s.awaiting| + |s.workers| == (if s.active.Some? then 1 else 0)
            && Distinct(s.order) && Elems(s.order) == s.operations.Keys && |s.order| <= RETAINED_OPERATIONS
            && (forall id :: id in s.operations ==> LaunchesSince(s.history, id) <= 1)
  {
    hide Run, AllEnabled, LaunchesSince, Inv, Listing, SingleFlight, RunOnce;
    RunKeepsInv(EMPTY, steps);
    var s := Run(EMPTY, steps);
    InvShowsFlight(s);
    InvShowsListing(s);
  }

  lemma {:induction false} InvShowsFlight(s: State)
    requires Inv(s)
    ensures forall id :: id in s.operations && s.operations[id].status == Running ==>
              s.active == Some(id) && s.order != [] && s.order[|s.order| - 1] == id
    ensures s.active.Some? ==> s.active.value in s.operations && s.operations[s.active.value].status == Running
    ensures |s.awaiting| + |s.workers| == (if s.active.Some? then 1 else 0)
  {
    hide RunOnce, LaunchesSince;
    if s.active.Some? {
      assert s.order[|s.order| - 1] in s.order;
    }
    assert |s.awaiting + s.workers| == |s.awaiting| + |s.workers|;
  }

  lemma {:induction false} InvShowsListing(s: State)
    requires Inv(s)
    ensures Distinct(s.order) && Elems(s.order) == s.operations.Keys && |s.order| <= RETAINED_OPERATIONS
    ensures forall id :: id in s.operations ==> LaunchesSince(s.history, id) <= 1
  {
    hide SingleFlight, LaunchesSince;
  }

  lemma {:induction false} InvLists(s: State)
    requires Inv(s)
    ensures Listing(s.operations, s.order)
  {}

  // The end of a worker and a failed spawn free the slot, and no step evicts a running operation.
  lemma {:induction false} SlotIsAlwaysFreed(steps: seq<Step>, step: Step)
    requires AllEnabled(EMPTY, steps + [step])
    ensures var s, t := Run(EMPTY, steps), Run(EMPTY, steps + [step]);
            && (step.Finish? || step.SpawnFails? ==> s.active == Some(step.id) && t.active == None)
            && (step.Finish? ==> step.id in t.operations && t.operations[step.id].status != Running)
            && (s.active.Some? && !(step.SpawnFails? && step.id == s.active.value) ==> s.active.value in t.operations)
  {
    hide Run, AllEnabled, Inv, Next;
    RunSnoc(EMPTY, steps, step);
    RunKeepsInv(EMPTY, steps);
    FreesSlot(Run(EMPTY, steps), step);
  }

  lemma {:induction false} FreesSlot(s: State, step: Step)
    requires Inv(s) && Enabled(s, step)
    ensures var t := Next(s, step);
            && (step.Finish? || step.SpawnFails? ==> s.active == Some(step.id) && t.active == None)
            && (step.Finish? ==> step.id in t.operations && t.operations[step.id].status != Running)
            && (s.active.Some? && !(step.SpawnFails? && step.id == s.active.value) ==> s.active.value in t.operations)
  {
    hide LaunchesSince, RunOnce, Inserted, Without, Updated;
    if step.Finish? || step.SpawnFails? {
      OnlyThread(s, step.id);
    }
    if s.active.Some? {
      assert s.order[|s.order| - 1] in s.order;
    }
    hide Inv;
  }

  lemma {:induction false} RunSnoc(s: State, steps: seq<Step>, step: Step)
    ensures Run(s, steps + [step]) == Next(Run(s, steps), step)
    ensures AllEnabled(s, steps + [step]) <==> AllEnabled(s, steps) && Enabled(Run(s, steps), step)
    decreases |steps|
  {
    if steps == [] {
      assert steps + [step] == [step];
      assert [step][1..] == [];
    } else {
      assert (steps + [step])[1..] == steps[1..] + [step];
      RunSnoc(Next(s, steps[0]), steps[1..], step);
    }
  }

  // --- what becomes of one operation ---

  // The operation stays in the registry all along these steps.
  predicate RetainedAlong(s: State, steps: seq<Step>, id: string)
    decreases |steps|
  {
    id in s.operations && (steps == [] || RetainedAlong(Next(s, steps[0]), steps[1..], id))
  }

  lemma {:induction false} FinishedStays(s: State, step: Step, id: string)
    requires Inv(s) && Enabled(s, step)
    requires id in s.operations && s.operations[id].status != Running && id in Next(s, step).operations
    ensures Next(s, step).operations[id] == s.operations[id]
  {
    hide Inv, Listing, Inserted, Without, Updated, Ended, NewSnapshot;
    match step {
      case Begin(actor, reason, other) =>
        InvLists(s);
        if other !in s.operations && s.active.None? {
          ReservedIs(s, actor, reason, other);
        }
      case SpawnFails(other) =>
      case SpawnWorks(other) =>
      case Progress(other, _) => OnlyThread(s, other);
      case Finish(other, _) => OnlyThread(s, other);
    }
  }

  lemma {:induction false} FinishedStaysAlong(s: State, steps: seq<Step>, id: string)
    requires Inv(s) && AllEnabled(s, steps) && RetainedAlong(s, steps, id) && s.operations[id].status != Running
    ensures RetainedAlong(s, steps, id) && id in Run(s, steps).operations
    ensures Run(s, steps).operations[id] == s.operations[id]
    decreases |steps|
  {
    hide Inv, Next;
    if steps != [] {
      var t := Next(s, steps[0]);
      KeepsInv(s, steps[0]);
      FinishedStays(s, steps[0], id);
      FinishedStaysAlong(t, steps[1..], id);
    }
  }

  // Over every interleaving: a worker's end is recorded as what it was, and the record stays as it is for
  // as long as the operation is retained.
  lemma {:induction false} OutcomeIsKept(earlier: seq<Step>, id: string, result: Result<Outcome, ActionError>,
                                         later: seq<Step>)
    requires AllEnabled(EMPTY, earlier) && id in Run(EMPTY, earlier).workers
    requires var u := Next(Run(EMPTY, earlier), Finish(id, result));
             AllEnabled(u, later) && RetainedAlong(u, later, id)
    ensures var s := Run(EMPTY, earlier);
            var t := Run(Next(s, Finish(id, result)), later);
            && id in s.operations && id in t.operations
            && var o, r := s.operations[id], t.operations[id];
            && o.status == Running
            && r.requestId == id && r.actor == o.actor && r.reason == o.reason
            && (r.status == Completed <==> result.Success?) && (r.status == Failed <==> result.Failure?)
            && match result
               case Success(outcome) =>
                 && r.stage == StageCompleted && r.errorCategory == None && r.message == outcome.message
                 && r.relayActionId == outcome.relayActionId && r.expectedBuildId == outcome.expectedBuildId
                 && r.observedBuildId == outcome.observedBuildId
               case Failure(e) =>
                 && r.stage == StageFailed && r.errorCategory == Some(e.category) && r.message == e.message
                 && r.expectedBuildId == o.expectedBuildId
                 && r.relayActionId == (if o.relayActionId.Some? then o.relayActionId else e.relayActionId)
                 && r.observedBuildId == (if o.observedBuildId.Some? then o.observedBuildId else e.observedBuildId)
  {
    RunKeepsInv(EMPTY, earlier);
    hide Run, AllEnabled, RetainedAlong, Listing, RunOnce;
    var s := Run(EMPTY, earlier);
    OnlyThread(s, id);
    KeepsInv(s, Finish(id, result));
    var u := Next(s, Finish(id, result));
    FinishedStaysAlong(u, later, id);
  }

  // --- the manager ---

  class CooperativeOperationManager {
    var operations: map<string, Snapshot>
    var order: seq<string>
    var active: Option<string>
    ghost var awaiting: multiset<string>
    ghost var workers: multiset<string>
    ghost var history: seq<Event>

    ghost function Now(): State
      reads this
    {
      State(operations, order, active, awaiting, workers, history)
    }

    ghost predicate Valid()
      reads this
    {
      Inv(Now())
    }

    constructor ()
      ensures Valid() && Now() == EMPTY
    {
      operations, order, active := map[], [], None;
      awaiting, workers, history := multiset{}, multiset{}, [];
    }

    method Insert(operation: Snapshot)
      requires Listing(operations, order)
      modifies this`operations, this`order
      ensures Now() == Inserted(old(Now()), operation)
    {
      ghost var survivors := Survivors(operations, order);
      hide Listing;
      while |operations| >= RETAINED_OPERATIONS
        invariant Listing(operations, order)
        invariant Survivors(operations, order) == survivors
        decreases |order|
      {
        ListingSize(operations, order);
        if order != [] {
          ListingDrops(operations, order);
          var oldest := order[0];
          order := order[1..];
          operations := operations - {oldest};
        }
      }
      order := order + [operation.requestId];
      operations := operations[operation.requestId := operation];
    }

    method BeginReserve(actor: string, reason: string, id: string) returns (r: Result<Begun, OperationError>)
      requires Valid()
      modifies this
      ensures Valid() && Now() == Next(old(Now()), Begin(actor, reason, id))
      ensures r == if id in old(operations) then
                     var o := old(operations)[id];
                     if o.actor == actor && o.reason == reason then Success(Answered(o))
                         else Failure(IdempotencyConflict)
                   else if old(active).Some? then Failure(ActionInProgress(old(active).value))
                   else Success(Reserved)
      // A new operation starts out running and is listed last; at most the oldest makes room for it.
      ensures r == Success(Reserved) ==>
                && active == Some(id) && order != [] && order[|order| - 1] == id && id in operations
                && operations[id] == Snapshot(id, actor, reason, Running, Requested, None, None, None, None,
                                              "authenticated cooperative reload operation accepted")
                && (forall other :: other in operations && other != id ==>
                      other in old(operations) && operations[other] == old(operations)[other])
                && (forall other :: other in old(operations) && other !in operations ==>
                      |old(order)| == 128 && other == old(order)[0])
      ensures r != Success(Reserved) ==>
                operations == old(operations) && order == old(order) && active == old(active)
    {
      hide Inv, Inserted, Listing, NewSnapshot, Without, Updated, Ended;
      KeepsInv(Now(), Begin(actor, reason, id));
      InvLists(Now());
      if id !in operations {
        ReservedIs(Now(), actor, reason, id);
      }
      if id in operations {
        var existing := operations[id];
        if existing.actor == actor && existing.reason == reason {
          return Success(Answered(existing));
        }
        return Failure(IdempotencyConflict);
      }
      if active.Some? {
        return Failure(ActionInProgress(active.value));
      }
      Insert(NewSnapshot(actor, reason, id));
      active := Some(id);
      awaiting, history := awaiting + multiset{id}, history + [Reserve(id)];
      return Success(Reserved);
    }

    method WorkerSpawnFailed(id: string)
      requires Valid() && id in awaiting
      modifies this
      ensures Valid() && Now() == Next(old(Now()), SpawnFails(id))
      ensures operations == old(operations) - {id} && active == None && old(order) == order + [id]
    {
      SpawnFailsIs(Now(), id);
      hide Inv, Without, Next;
      ghost var t := Next(Now(), SpawnFails(id));
      operations := operations - {id};
      order := Without(order, id);
      active := None;
      awaiting := t.awaiting;
    }

    // The spawn succeeded: nothing in the registry changes.
    ghost method WorkerSpawned(id: string)
      requires Valid() && id in awaiting
      modifies this`awaiting, this`workers, this`history
      ensures Valid() && Now() == Next(old(Now()), SpawnWorks(id))
    {
      KeepsInv(Now(), SpawnWorks(id));
      hide Inv, Without;
      awaiting, workers := awaiting - multiset{id}, workers + multiset{id};
      history := history + [Launch(id)];
    }

    method UpdateProgress(id: string, update: Update)
      requires Valid() && id in workers
      modifies this`operations
      ensures Valid() && Now() == Next(old(Now()), Progress(id, update))
      // The stage and the message are the update's; an id it does not carry keeps its last value.
      ensures id in old(operations)
      ensures var o := old(operations)[id];
              operations == old(operations)[
                id := Snapshot(o.requestId, o.actor, o.reason, o.status, update.stage,
                               if update.relayActionId.Some? then update.relayActionId else o.relayActionId,
                               if update.expectedBuildId.Some? then update.expectedBuildId else o.expectedBuildId,
                               if update.observedBuildId.Some? then update.observedBuildId else o.observedBuildId,
                               o.errorCategory, update.message)]
    {
      OnlyThread(Now(), id);
      hide Inv, Without, Inserted, Ended;
      KeepsInv(Now(), Progress(id, update));
      if id in operations {
        var operation := operations[id];
        operation := operation.(stage := update.stage);
        if update.relayActionId.Some? { operation := operation.(relayActionId := update.relayActionId); }
        if update.expectedBuildId.Some? { operation := operation.(expectedBuildId := update.expectedBuildId); }
        if update.observedBuildId.Some? { operation := operation.(observedBuildId := update.observedBuildId); }
        operation := operation.(message := update.message);
        operations := operations[id := operation];
      }
    }

    method FinishExecution(id: string, result: Result<Outcome, ActionError>)
      requires Valid() && id in workers
      modifies this
      ensures Valid() && Now() == Next(old(Now()), Finish(id, result))
      ensures id in old(operations) && active == None
      ensures var o := old(operations)[id];
              operations == old(operations)[
                id := match result
                      case Success(outcome) =>
                        Snapshot(o.requestId, o.actor, o.reason, Completed, StageCompleted, outcome.relayActionId,
                                 outcome.expectedBuildId, outcome.observedBuildId, o.errorCategory, outcome.message)
                      case Failure(e) =>
                        Snapshot(o.requestId, o.actor, o.reason, Failed, StageFailed,
                                 if o.relayActionId.Some? then o.relayActionId else e.relayActionId, o.expectedBuildId,
                                 if o.observedBuildId.Some? then o.observedBuildId else e.observedBuildId,
                                 Some(e.category), e.message)]
    {
      OnlyThread(Now(), id);
      hide Inv, Without, Inserted, Updated;
      KeepsInv(Now(), Finish(id, result));
      workers := workers - multiset{id};
      if id in operations {
        var operation := operations[id];
        match result {
          case Success(outcome) =>
            operation := operation.(status := Completed, stage := StageCompleted);
            operation := operation.(relayActionId := outcome.relayActionId, expectedBuildId := outcome.expectedBuildId,
                                    observedBuildId := outcome.observedBuildId, message := outcome.message);
          case Failure(error) =>
            operation := operation.(status := Failed, stage := StageFailed);
            if operation.relayActionId.None? { operation := operation.(relayActionId := error.relayActionId); }
            if operation.observedBuildId.None? { operation := operation.(observedBuildId := error.observedBuildId); }
            operation := operation.(errorCategory := Some(error.category), message := error.message);
        }
        operations := operations[id := operation];
        if active == Some(id) {
          active := None;
        }
      }
    }
  }
}
