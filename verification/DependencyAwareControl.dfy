// src/application/dependency_control.rs: `DependencyAwareControl::mutate`.
module DependencyAwareControl {
  import opened Wrappers
  import opened Sequences
  import opened DependencyGraph
  import opened StartPlanning

  datatype Action = Start | Stop | Restart

  // Who asked and why; passed through to every mutation.
  datatype Attribution = Attribution(actor: string, reason: string)

  datatype ErrorKind =
    | ServiceNotFound | Unauthorized | PortConflictExternal | SpawnFailed
    | HealthFailed | ShutdownTimeout | OwnershipLost | Internal

  datatype Context =
    | CannotPrepare(launchId: Id, action: Action, target: Id)
    | CannotStartDependency(dependency: Id, target: Id)

  datatype ControlError = ControlError(kind: ErrorKind, context: seq<Context>, detail: string) {
    function WithContext(c: Context): ControlError {
      ControlError(kind, [c] + context, detail)
    }
  }

  datatype Call =
    | Snapshots
    | Preflight(id: Id)
    | Planned(action: Action, target: Id, direct: seq<Id>, order: seq<Id>)
    | Mutate(action: Action, id: Id, who: Attribution)

  // What the wrapped control answers to one call.
  datatype Answer = Answer(error: Option<ControlError>, outcome: string, snapshots: seq<Snapshot>)

  // The wrapped control and the plan observer. Its answer to the n-th call is arbitrary.
  class InnerControl {
    const answers: nat -> Answer
    var trace: seq<Call>

    constructor (answers: nat -> Answer)
      ensures this.answers == answers && trace == []
    {
      this.answers := answers;
      trace := [];
    }

    method TakeSnapshots() returns (r: Result<seq<Snapshot>, ControlError>)
      modifies this
      ensures trace == old(trace) + [Snapshots]
      ensures var a := answers(|old(trace)|);
              r == if a.error.Some? then Failure(a.error.value) else Success(a.snapshots)
    {
      var a := answers(|trace|);
      trace := trace + [Snapshots];
      r := if a.error.Some? then Failure(a.error.value) else Success(a.snapshots);
    }

    method PreflightLaunch(id: Id) returns (r: Option<ControlError>)
      modifies this
      ensures trace == old(trace) + [Preflight(id)] && r == answers(|old(trace)|).error
    {
      r := answers(|trace|).error;
      trace := trace + [Preflight(id)];
    }

    method Observe(action: Action, target: Id, direct: seq<Id>, order: seq<Id>)
      modifies this
      ensures trace == old(trace) + [Planned(action, target, direct, order)]
    {
      trace := trace + [Planned(action, target, direct, order)];
    }

    method Apply(action: Action, id: Id, who: Attribution) returns (r: Result<string, ControlError>)
      modifies this
      ensures trace == old(trace) + [Mutate(action, id, who)]
      ensures var a := answers(|old(trace)|);
              r == if a.error.Some? then Failure(a.error.value) else Success(a.outcome)
    {
      var a := answers(|trace|);
      trace := trace + [Mutate(action, id, who)];
      r := if a.error.Some? then Failure(a.error.value) else Success(a.outcome);
    }
  }

  // --- the intended script ---

  function RootPids(snapshots: seq<Snapshot>): map<Id, Option<nat>> {
    if snapshots == [] then map[]
    else
      var last := snapshots[|snapshots| - 1];
      RootPids(snapshots[..|snapshots| - 1])[last.id := last.rootPid]
  }

  // A planned service is launched when it has no root process, or when it is the restart target.
  predicate WillLaunch(action: Action, target: Id, pids: map<Id, Option<nat>>, id: Id) {
    (id == target && action == Restart) || (id in pids && pids[id].None?)
  }

  function LaunchIds(action: Action, target: Id, pids: map<Id, Option<nat>>, order: seq<Id>): (ids: seq<Id>)
    ensures forall x :: x in ids <==> x in order && WillLaunch(action, target, pids, x)
    ensures Distinct(order) ==> Distinct(ids)
  {
    if order == [] then []
    else
      assert forall x :: x in order <==> x == order[0] || x in order[1..];
      assert Distinct(order) ==> Distinct(order[1..]) && order[0] !in order[1..];
      (if WillLaunch(action, target, pids, order[0]) then [order[0]] else [])
      + LaunchIds(action, target, pids, order[1..])
  }

  // The first snapshot of the target.
  function DirectDependencies(snapshots: seq<Snapshot>, target: Id): seq<Id> {
    if snapshots == [] then []
    else if snapshots[0].id == target then snapshots[0].dependsOn
    else DirectDependencies(snapshots[1..], target)
  }

  function Preflights(ids: seq<Id>): (calls: seq<Call>)
    ensures |calls| == |ids| && forall i :: 0 <= i < |ids| ==> calls[i] == Preflight(ids[i])
  {
    seq(|ids|, i requires 0 <= i < |ids| => Preflight(ids[i]))
  }

  function Announcement(action: Action, target: Id, snapshots: seq<Snapshot>, order: seq<Id>): seq<Call> {
    if |order| > 1 then [Planned(action, target, DirectDependencies(snapshots, target), order)] else []
  }

  function Starts(ids: seq<Id>, who: Attribution): (calls: seq<Call>)
    ensures |calls| == |ids| && forall i :: 0 <= i < |ids| ==> calls[i] == Mutate(Start, ids[i], who)
  {
    seq(|ids|, i requires 0 <= i < |ids| => Mutate(Start, ids[i], who))
  }

  // Everything start and restart do once the plan is known.
  function Script(action: Action, target: Id, who: Attribution, snapshots: seq<Snapshot>, order: seq<Id>): seq<Call>
    requires order != []
  {
    Preflights(LaunchIds(action, target, RootPids(snapshots), order))
    + AfterPreflights(action, target, who, snapshots, order)
  }

  function AfterPreflights(action: Action, target: Id, who: Attribution, snapshots: seq<Snapshot>,
                           order: seq<Id>): seq<Call>
    requires order != []
  {
    Announcement(action, target, snapshots, order)
    + (Starts(order[..|order| - 1], who) + [Mutate(action, target, who)])
  }

  predicate Fails(call: Call, answer: Answer) {
    !call.Planned? && answer.error.Some?
  }

  // Index of the first failing call, or the length when none fails.
  function FirstFailure(script: seq<Call>, answers: nat -> Answer, at: nat, from: nat): (k: nat)
    requires from <= |script|
    ensures from <= k <= |script|
    ensures k < |script| ==> Fails(script[k], answers(at + k))
    decreases |script| - from
  {
    if from == |script| || Fails(script[from], answers(at + from)) then from
    else FirstFailure(script, answers, at, from + 1)
  }

  lemma {:induction false} NoFailureBefore(script: seq<Call>, answers: nat -> Answer, at: nat, from: nat)
    requires from <= |script|
    ensures forall i :: from <= i < FirstFailure(script, answers, at, from) ==> !Fails(script[i], answers(at + i))
    decreases |script| - from
  {
    if from < |script| && !Fails(script[from], answers(at + from)) {
      NoFailureBefore(script, answers, at, from + 1);
    }
  }

  // The first k calls passed.
  ghost predicate Passed(script: seq<Call>, answers: nat -> Answer, at: nat, k: nat) {
    k <= |script| && forall i :: 0 <= i < k ==> !Fails(script[i], answers(at + i))
  }

  lemma {:induction false} FirstFailureIs(script: seq<Call>, answers: nat -> Answer, at: nat, from: nat, k: nat)
    requires from <= k <= |script|
    requires forall i :: from <= i < k ==> !Fails(script[i], answers(at + i))
    requires k < |script| ==> Fails(script[k], answers(at + k))
    ensures FirstFailure(script, answers, at, from) == k
    decreases k - from
  {
    if from < k {
      FirstFailureIs(script, answers, at, from + 1, k);
    }
  }

  // Running one part after another.
  lemma {:induction false} FirstFailureConcat(a: seq<Call>, b: seq<Call>, answers: nat -> Answer, at: nat)
    ensures FirstFailure(a + b, answers, at, 0) ==
            var k := FirstFailure(a, answers, at, 0);
            if k < |a| then k else |a| + FirstFailure(b, answers, at + |a|, 0)
  {
    var k := FirstFailure(a, answers, at, 0);
    NoFailureBefore(a, answers, at, 0);
    if k < |a| {
      FirstFailureIs(a + b, answers, at, 0, k);
    } else {
      var m := FirstFailure(b, answers, at + |a|, 0);
      NoFailureBefore(b, answers, at + |a|, 0);
      forall i | 0 <= i < |a| + m ensures !Fails((a + b)[i], answers(at + i)) {
        if i >= |a| { assert !Fails(b[i - |a|], answers(at + |a| + (i - |a|))); }
      }
      FirstFailureIs(a + b, answers, at, 0, |a| + m);
    }
  }

  // The error of a failing call, as the caller sees it.
  function Reported(call: Call, error: ControlError, action: Action, target: Id, final: bool): ControlError {
    if call.Preflight? then error.WithContext(CannotPrepare(call.id, action, target))
    else if call.Mutate? && !final then error.WithContext(CannotStartDependency(call.id, target))
    else error
  }

  // Running a script: calls in order up to and including the first failure, whose error is reported.
  function Performed(script: seq<Call>, answers: nat -> Answer, at: nat): seq<Call> {
    var k := FirstFailure(script, answers, at, 0);
    if k < |script| then script[..k + 1] else script
  }

  function Outcome(script: seq<Call>, answers: nat -> Answer, at: nat, action: Action, target: Id): Result<string,
                   ControlError>
    requires script != []
  {
    var k := FirstFailure(script, answers, at, 0);
    if k < |script|
    then Failure(Reported(script[k], answers(at + k).error.value, action, target, k == |script| - 1))
    else Success(answers(at + |script| - 1).outcome)
  }

  // The script was run from `before` to `after` with result r.
  ghost predicate Ran(script: seq<Call>, answers: nat -> Answer, before: seq<Call>, after: seq<Call>,
                      action: Action, target: Id, r: Result<string, ControlError>)
    requires script != []
  {
    && after == before + Performed(script, answers, |before|)
    && r == Outcome(script, answers, |before|, action, target)
  }

  function PlanFailure(e: PlanError): ControlError {
    match e
    case NotFound(id) => ControlError(ServiceNotFound, [], id)
    case CycleAt(id) => ControlError(Internal, [], id)
    case _ => ControlError(Internal, [], "")
  }

  // --- what a caller can rely on, read off the calls alone ---

  // The last snapshot of this service shows no root process.
  ghost predicate Rootless(snapshots: seq<Snapshot>, id: Id) {
    exists i :: 0 <= i < |snapshots| && snapshots[i].id == id && snapshots[i].rootPid.None?
                && forall j :: i < j < |snapshots| ==> snapshots[j].id != id
  }

  ghost predicate Launches(action: Action, target: Id, snapshots: seq<Snapshot>, id: Id) {
    (id == target && action == Restart) || Rootless(snapshots, id)
  }

  // Preflights come first, in plan order: of exactly the planned services about to be launched, as far as
  // none failed, and of all of them before any mutation.
  ghost predicate PreflightsFirst(done: seq<Call>, action: Action, target: Id, snapshots: seq<Snapshot>,
                                  order: seq<Id>)
  {
    && (forall x :: Preflight(x) in done ==> x in order && Launches(action, target, snapshots, x))
    && (forall i, j :: 0 <= i < |done| && 0 <= j < |done| && done[i].Preflight? && !done[j].Preflight? ==> i < j)
    && (forall i, j :: 0 <= i < j < |done| && done[i].Preflight? && done[j].Preflight? ==>
          done[i].id in order && done[j].id in order && IndexOf(order, done[i].id) < IndexOf(order, done[j].id))
    && ((exists j :: 0 <= j < |done| && !done[j].Preflight?) ==>
          forall x :: x in order && Launches(action, target, snapshots, x) ==> Preflight(x) in done)
  }

  // A plan of several services is announced once, between the preflights and the mutations.
  ghost predicate AnnouncedOnce(done: seq<Call>, action: Action, target: Id, snapshots: seq<Snapshot>, order: seq<Id>) {
    && (forall i :: 0 <= i < |done| && done[i].Planned? ==>
          && |order| > 1 && done[i].action == action && done[i].target == target && done[i].order == order
          && (forall k :: 0 <= k < |snapshots| && snapshots[k].id == target
                          && (forall j :: 0 <= j < k ==> snapshots[j].id != target) ==>
                done[i].direct == snapshots[k].dependsOn))
    && (forall i, j :: 0 <= i < |done| && 0 <= j < |done| && done[i].Planned? && done[j].Mutate? ==> i < j)
    && (forall i, j :: 0 <= i < j < |done| && done[i].Planned? ==> !done[j].Planned?)
    && (|order| > 1 && Mutations(done) != [] ==> exists i :: 0 <= i < |done| && done[i].Planned?)
  }

  // The answer is the last call's: its outcome if every call went well, otherwise its error in context.
  ghost predicate AnswersLast(done: seq<Call>, r: Result<string, ControlError>, action: Action, target: Id,
                              complete: bool, answers: nat -> Answer, at: nat)
  {
    && done != []
    && (forall i :: 0 <= i < |done| - 1 && !done[i].Planned? ==> answers(at + i).error.None?)
    && var last, a := done[|done| - 1], answers(at + |done| - 1);
       match r
       case Success(outcome) => complete && a.error.None? && outcome == a.outcome
       case Failure(e) =>
         && a.error.Some? && !last.Planned?
         && e.kind == a.error.value.kind && e.detail == a.error.value.detail
         && e.context == (if last.Preflight? then [CannotPrepare(last.id, action, target)]
                          else if last.Mutate? && !complete then [CannotStartDependency(last.id, target)]
                          else []) + a.error.value.context
  }

  // Dependencies in plan order are started, then the target gets the action.
  function PlannedMutations(action: Action, target: Id, who: Attribution, order: seq<Id>): (calls: seq<Call>)
    requires order != []
    ensures |calls| == |order|
    ensures forall i :: 0 <= i < |order| - 1 ==> calls[i] == Mutate(Start, order[i], who)
    ensures calls[|order| - 1] == Mutate(action, target, who)
  {
    seq(|order|, i requires 0 <= i < |order| =>
      if i < |order| - 1 then Mutate(Start, order[i], who) else Mutate(action, target, who))
  }

  ghost predicate Orderly(done: seq<Call>, r: Result<string, ControlError>, action: Action, target: Id,
                          who: Attribution, snapshots: seq<Snapshot>, order: seq<Id>, answers: nat -> Answer, at: nat)
    requires order != []
  {
    var planned := PlannedMutations(action, target, who, order);
    && PreflightsFirst(done, action, target, snapshots, order)
    && AnnouncedOnce(done, action, target, snapshots, order)
    && Mutations(done) <= planned
    && AnswersLast(done, r, action, target, Mutations(done) == planned, answers, at)
  }

  class DependencyAware {
    const inner: InnerControl

    constructor (inner: InnerControl)
      ensures this.inner == inner
    {
      this.inner := inner;
    }

    method Mutate(action: Action, serviceId: Id, who: Attribution) returns (r: Result<string, ControlError>)
      modifies inner
      ensures action == Stop ==>
                Ran([Call.Mutate(Stop, serviceId, who)], inner.answers, old(inner.trace), inner.trace, Stop, serviceId,
                    r)
      ensures action != Stop ==>
                var first := inner.answers(|old(inner.trace)|);
                var taken := old(inner.trace) + [Snapshots];
                if first.error.Some? then
                  inner.trace == taken && r == Failure(first.error.value)
                else
                  match StartOrder(GraphOf(first.snapshots), [serviceId])
                  case Failure(f) =>
                    && inner.trace == taken
                    && r == Failure(ControlError(if f.Missing? then ServiceNotFound else Internal, [], f.id))
                  case Success(order) =>
                    && order != []
                    && Ran(Script(action, serviceId, who, first.snapshots, order), inner.answers, taken, inner.trace,
                           action, serviceId, r)
                    && taken <= inner.trace
                    && Orderly(inner.trace[|taken|..], r, action, serviceId, who, first.snapshots, order, inner.answers,
                               |taken|)
      ensures action == Stop ==>
                && inner.trace == old(inner.trace) + [Call.Mutate(Stop, serviceId, who)]
                && var a := inner.answers(|old(inner.trace)|);
                   r == if a.error.Some? then Failure(a.error.value) else Success(a.outcome)
    {
      ghost var base := inner.trace;
      if action == Stop {
        r := inner.Apply(Stop, serviceId, who);
        RanOne(Call.Mutate(Stop, serviceId, who), inner.answers, base, inner.trace, Stop, serviceId, r);
        return;
      }
      var taken := inner.TakeSnapshots();
      if taken.Failure? {
        return Failure(taken.error);
      }
      var snapshots := taken.value;
      var plan := StableStartOrder(snapshots, [serviceId]);
      if plan.Failure? {
        return Failure(PlanFailure(plan.error));
      }
      TargetComesLast(GraphOf(snapshots), serviceId);
      StartOrderIsPlan(GraphOf(snapshots), [serviceId]);
      hide Script, Orderly, Performed, Outcome;
      ghost var order, at := plan.value, |inner.trace|;
      r := RunPlan(action, serviceId, who, snapshots, plan.value);
      RunIsOrderly(action, serviceId, who, snapshots, order, inner.answers, at);
      ghost var done := Performed(Script(action, serviceId, who, snapshots, order), inner.answers, at);
      assert inner.trace[at..] == done;
    }

    method PreflightAll(ids: seq<Id>, action: Action, target: Id) returns (failure: Option<ControlError>)
      modifies inner
      ensures inner.trace == old(inner.trace) + Performed(Preflights(ids), inner.answers, |old(inner.trace)|)
      ensures var k := FirstFailure(Preflights(ids), inner.answers, |old(inner.trace)|, 0);
              failure == if k < |ids|
                         then Some(inner.answers(|old(inner.trace)| + k).error.value
                                   .WithContext(CannotPrepare(ids[k], action, target)))
                         else None
    {
      ghost var base, script := inner.trace, Preflights(ids);
      hide Preflights, FirstFailure, Performed, Passed;
      NonePassed(script, inner.answers, base);
      for k := 0 to |ids|
        invariant inner.trace == base + script[..k]
        invariant Passed(script, inner.answers, |base|, k)
      {
        var error := inner.PreflightLaunch(ids[k]);
        OneMore(script, inner.answers, base, k);
        if error.Some? {
          return Some(error.value.WithContext(CannotPrepare(ids[k], action, target)));
        }
      }
      AllPassed(script, inner.answers, |base|);
      return None;
    }

    method StartAll(ids: seq<Id>, target: Id, who: Attribution) returns (failure: Option<ControlError>)
      modifies inner
      ensures inner.trace == old(inner.trace) + Performed(Starts(ids, who), inner.answers, |old(inner.trace)|)
      ensures var k := FirstFailure(Starts(ids, who), inner.answers, |old(inner.trace)|, 0);
              failure == if k < |ids|
                         then Some(inner.answers(|old(inner.trace)| + k).error.value
                                   .WithContext(CannotStartDependency(ids[k], target)))
                         else None
    {
      ghost var base, script := inner.trace, Starts(ids, who);
      hide Starts, FirstFailure, Performed, Passed;
      NonePassed(script, inner.answers, base);
      for k := 0 to |ids|
        invariant inner.trace == base + script[..k]
        invariant Passed(script, inner.answers, |base|, k)
      {
        var started := inner.Apply(Start, ids[k], who);
        OneMore(script, inner.answers, base, k);
        if started.Failure? {
          return Some(started.error.WithContext(CannotStartDependency(ids[k], target)));
        }
      }
      AllPassed(script, inner.answers, |base|);
      return None;
    }

    method RunPlan(action: Action, serviceId: Id, who: Attribution, snapshots: seq<Snapshot>, order: seq<Id>)
      returns (r: Result<string, ControlError>)
      requires order != []
      modifies inner
      ensures Ran(Script(action, serviceId, who, snapshots, order), inner.answers, old(inner.trace), inner.trace,
                  action, serviceId, r)
    {
      ghost var base, answers := inner.trace, inner.answers;
      var launchIds := LaunchIds(action, serviceId, RootPids(snapshots), order);
      ghost var a, rest := Preflights(launchIds), AfterPreflights(action, serviceId, who, snapshots, order);
      assert Script(action, serviceId, who, snapshots, order) == a + rest && rest != [];
      hide LaunchIds, RootPids, AfterPreflights, Preflights, FirstFailure, Performed, Outcome, Script, Fails, Ran;
      var failure := PreflightAll(launchIds, action, serviceId);
      if failure.Some? {
        r := Failure(failure.value);
        RanStopped(a, rest, answers, base, inner.trace, action, serviceId, r);
      } else {
        ghost var mid := inner.trace;
        r := AnnounceAndStart(action, serviceId, who, snapshots, order);
        RanThrough(a, rest, answers, base, mid, inner.trace, action, serviceId, r);
      }
    }

    // The observer only hears of plans that involve more than the target.
    method AnnounceAndStart(action: Action, serviceId: Id, who: Attribution, snapshots: seq<Snapshot>, order: seq<Id>)
      returns (r: Result<string, ControlError>)
      requires order != []
      modifies inner
      ensures Ran(AfterPreflights(action, serviceId, who, snapshots, order), inner.answers, old(inner.trace),
              inner.trace,
                  action, serviceId, r)
    {
      ghost var base, answers := inner.trace, inner.answers;
      ghost var b := Announcement(action, serviceId, snapshots, order);
      ghost var rest := Starts(order[..|order| - 1], who) + [Call.Mutate(action, serviceId, who)];
      assert AfterPreflights(action, serviceId, who, snapshots, order) == b + rest;
      FirstFailureIs(b, answers, |base|, 0, |b|);
      if |order| > 1 {
        inner.Observe(action, serviceId, DirectDependencies(snapshots, serviceId), order);
      }
      assert inner.trace == base + Performed(b, answers, |base|);
      hide Announcement, AfterPreflights, Starts, FirstFailure, Performed, Outcome, Fails, Ran;
      ghost var mid := inner.trace;
      r := StartThenApply(action, serviceId, who, order[..|order| - 1]);
      RanThrough(b, rest, answers, base, mid, inner.trace, action, serviceId, r);
    }

    method StartThenApply(action: Action, serviceId: Id, who: Attribution, dependencies: seq<Id>)
      returns (r: Result<string, ControlError>)
      modifies inner
      ensures Ran(Starts(dependencies, who) + [Call.Mutate(action, serviceId, who)], inner.answers, old(inner.trace),
                  inner.trace, action, serviceId, r)
    {
      ghost var base, answers, starts := inner.trace, inner.answers, Starts(dependencies, who);
      ghost var last := Call.Mutate(action, serviceId, who);
      hide Starts, FirstFailure, Performed, Outcome, Fails, Ran;
      var failure := StartAll(dependencies, serviceId, who);
      if failure.Some? {
        r := Failure(failure.value);
        RanStopped(starts, [last], answers, base, inner.trace, action, serviceId, r);
      } else {
        ghost var mid := inner.trace;
        r := inner.Apply(action, serviceId, who);
        RanOne(last, answers, mid, inner.trace, action, serviceId, r);
        RanThrough(starts, [last], answers, base, mid, inner.trace, action, serviceId, r);
      }
    }
  }

  lemma {:induction false} NonePassed(script: seq<Call>, answers: nat -> Answer, base: seq<Call>)
    ensures Passed(script, answers, |base|, 0) && base + script[..0] == base
  {}

  // Call k either fails, and the run is over, or passes.
  lemma {:induction false} OneMore(script: seq<Call>, answers: nat -> Answer, base: seq<Call>, k: nat)
    requires k < |script| && Passed(script, answers, |base|, k)
    ensures base + script[..k + 1] == base + script[..k] + [script[k]]
    ensures if Fails(script[k], answers(|base| + k))
            then FirstFailure(script, answers, |base|, 0) == k && Performed(script, answers, |base|) == script[..k + 1]
            else Passed(script, answers, |base|, k + 1)
  {
    OneMoreCall(script, base, k);
    hide FirstFailure, Fails;
    if Fails(script[k], answers(|base| + k)) {
      hide Passed;
      StopsAtCall(script, answers, |base|, k);
    }
  }

  lemma {:induction false} OneMoreCall(script: seq<Call>, base: seq<Call>, k: nat)
    requires k < |script|
    ensures base + script[..k + 1] == base + script[..k] + [script[k]]
  {}

  lemma {:induction false} StopsAtCall(script: seq<Call>, answers: nat -> Answer, at: nat, k: nat)
    requires k < |script| && Passed(script, answers, at, k) && Fails(script[k], answers(at + k))
    ensures FirstFailure(script, answers, at, 0) == k
  {
    FirstFailureIs(script, answers, at, 0, k);
  }

  lemma {:induction false} AllPassed(script: seq<Call>, answers: nat -> Answer, at: nat)
    requires Passed(script, answers, at, |script|)
    ensures FirstFailure(script, answers, at, 0) == |script|
    ensures Performed(script, answers, at) == script == script[..|script|]
  {
    FirstFailureIs(script, answers, at, 0, |script|);
  }

  // A failure in the first part ends the run there.
  lemma {:induction false} RanStopped(a: seq<Call>, rest: seq<Call>, answers: nat -> Answer, base: seq<Call>,
                                      trace: seq<Call>,
                   action: Action, target: Id, r: Result<string, ControlError>)
    requires rest != []
    requires trace == base + Performed(a, answers, |base|)
    requires StopsAt(a, answers, |base|, action, target, r)
    ensures Ran(a + rest, answers, base, trace, action, target, r)
  {
    hide FirstFailure, Performed, Outcome, Fails, Reported, StopsAt;
    FirstPartStops(a, rest, answers, |base|, action, target, r);
  }

  ghost predicate StopsAt(a: seq<Call>, answers: nat -> Answer, at: nat, action: Action, target: Id,
                          r: Result<string, ControlError>)
  {
    var k := FirstFailure(a, answers, at, 0);
    k < |a| && r == Failure(Reported(a[k], answers(at + k).error.value, action, target, false))
  }

  lemma {:induction false} FirstPartStops(a: seq<Call>, rest: seq<Call>, answers: nat -> Answer, at: nat,
                                          action: Action, target: Id,
                       r: Result<string, ControlError>)
    requires rest != [] && StopsAt(a, answers, at, action, target, r)
    ensures Performed(a + rest, answers, at) == Performed(a, answers, at)
    ensures Outcome(a + rest, answers, at, action, target) == r
  {
    FirstFailureConcat(a, rest, answers, at);
    var k := FirstFailure(a, answers, at, 0);
    assert (a + rest)[..k + 1] == a[..k + 1];
  }

  // After a passing first part the rest decides.
  lemma {:induction false} RanThrough(a: seq<Call>, rest: seq<Call>, answers: nat -> Answer, base: seq<Call>,
                                      mid: seq<Call>, trace: seq<Call>,
                   action: Action, target: Id, r: Result<string, ControlError>)
    requires rest != [] && FirstFailure(a, answers, |base|, 0) == |a|
    requires mid == base + Performed(a, answers, |base|)
    requires Ran(rest, answers, mid, trace, action, target, r)
    ensures Ran(a + rest, answers, base, trace, action, target, r)
  {
    hide FirstFailure, Performed, Outcome, Fails, Reported;
    PrefixPasses(a, rest, answers, |base|, action, target);
    var p, q := Performed(rest, answers, |mid|), Performed(a + rest, answers, |base|);
    assert |mid| == |base| + |a| && q == a + p;
    RegroupAll(base, a, p, mid, q, trace);
  }

  lemma {:induction false} RegroupAll(base: seq<Call>, a: seq<Call>, p: seq<Call>, mid: seq<Call>, q: seq<Call>,
                                      trace: seq<Call>)
    requires mid == base + a && trace == mid + p && q == a + p
    ensures trace == base + q
  {}

  lemma {:induction false} PrefixPasses(a: seq<Call>, rest: seq<Call>, answers: nat -> Answer, at: nat, action: Action,
                                        target: Id)
    requires rest != [] && FirstFailure(a, answers, at, 0) == |a|
    ensures Performed(a, answers, at) == a
    ensures Performed(a + rest, answers, at) == a + Performed(rest, answers, at + |a|)
    ensures Outcome(a + rest, answers, at, action, target) == Outcome(rest, answers, at + |a|, action, target)
  {
    FirstFailureConcat(a, rest, answers, at);
    hide FirstFailure, Fails;
    var k := FirstFailure(rest, answers, at + |a|, 0);
    if k < |rest| {
      assert (a + rest)[..|a| + k + 1] == a + rest[..k + 1];
    }
  }

  lemma {:induction false} RanOne(last: Call, answers: nat -> Answer, base: seq<Call>, trace: seq<Call>,
               action: Action, target: Id, r: Result<string, ControlError>)
    requires last.Mutate? && trace == base + [last]
    requires var answer := answers(|base|);
             r == if answer.error.Some? then Failure(answer.error.value) else Success(answer.outcome)
    ensures Ran([last], answers, base, trace, action, target, r)
  {
    FirstFailureIs([last], answers, |base|, 0, if answers(|base|).error.Some? then 0 else 1);
  }

  // --- what the script guarantees ---

  function Mutations(calls: seq<Call>): seq<Call> {
    if calls == [] then []
    else (if calls[0].Mutate? then [calls[0]] else []) + Mutations(calls[1..])
  }

  lemma {:induction false} MutationsConcat(a: seq<Call>, b: seq<Call>)
    ensures Mutations(a + b) == Mutations(a) + Mutations(b)
    decreases |a|
  {
    if a == [] {
      assert a + b == b;
      assert [] + Mutations(b) == Mutations(b);
    } else {
      var c := a + b;
      var first := if a[0].Mutate? then [a[0]] else [];
      assert c[0] == a[0] && c[1..] == a[1..] + b;
      MutationsConcat(a[1..], b);
      Regroup(first, Mutations(a[1..]), Mutations(b));
    }
  }

  lemma {:induction false} MutationsNone(calls: seq<Call>)
    requires forall i :: 0 <= i < |calls| ==> !calls[i].Mutate?
    ensures Mutations(calls) == []
  {
    if calls != [] { MutationsNone(calls[1..]); }
  }

  lemma {:induction false} MutationsAll(calls: seq<Call>)
    requires forall i :: 0 <= i < |calls| ==> calls[i].Mutate?
    ensures Mutations(calls) == calls
  {
    if calls != [] { MutationsAll(calls[1..]); }
  }

  // The planned mutations: every dependency is started in plan order, then the target gets the action.
  lemma {:induction false} ScriptMutations(action: Action, target: Id, who: Attribution, snapshots: seq<Snapshot>,
                                           order: seq<Id>)
    requires order != []
    ensures Script(action, target, who, snapshots, order) != []
    ensures Mutations(Script(action, target, who, snapshots, order)) ==
            Starts(order[..|order| - 1], who) + [Mutate(action, target, who)]
  {
    var quiet := Preflights(LaunchIds(action, target, RootPids(snapshots), order))
                 + Announcement(action, target, snapshots, order);
    var loud := Starts(order[..|order| - 1], who) + [Mutate(action, target, who)];
    Regroup(Preflights(LaunchIds(action, target, RootPids(snapshots), order)),
            Announcement(action, target, snapshots, order), loud);
    MutationsConcat(quiet, loud);
    MutationsNone(quiet);
    MutationsAll(loud);
    hide *;
    assert [] + loud == loud;
  }

  lemma {:induction false} RootPidsAre(snapshots: seq<Snapshot>, x: Id)
    ensures x in RootPids(snapshots) && RootPids(snapshots)[x].None? <==> Rootless(snapshots, x)
  {
    if snapshots != [] {
      var n := |snapshots| - 1;
      var front, last := snapshots[..n], snapshots[n];
      RootPidsAre(front, x);
      if last.id == x {
        assert Rootless(snapshots, x) ==> last.rootPid.None?;
      } else {
        if Rootless(front, x) {
          var i :| 0 <= i < n && front[i].id == x && front[i].rootPid.None?
                   && forall j :: i < j < n ==> front[j].id != x;
          assert snapshots[i] == front[i] && forall j :: i < j < n + 1 ==> snapshots[j].id != x;
        }
        if Rootless(snapshots, x) {
          var i :| 0 <= i < |snapshots| && snapshots[i].id == x && snapshots[i].rootPid.None?
                   && forall j :: i < j < |snapshots| ==> snapshots[j].id != x;
          assert front[i] == snapshots[i] && forall j :: i < j < n ==> front[j].id != x;
        }
      }
    }
  }

  // Every preflight comes before every mutation, and exactly the services about to launch are
  // preflighted, each once.
  lemma {:induction false} ScriptPreflights(action: Action, target: Id, who: Attribution, snapshots: seq<Snapshot>,
                                            order: seq<Id>)
    requires order != [] && Distinct(order)
    ensures var script := Script(action, target, who, snapshots, order);
            && (forall i, j :: 0 <= i < |script| && 0 <= j < |script| && script[i].Preflight? && script[j].Mutate? ==>
                i < j)
            && (forall i, j :: 0 <= i < j < |script| && script[i].Preflight? ==> script[i] != script[j])
            && (forall x :: Preflight(x) in script <==> x in order && Launches(action, target, snapshots, x))
  {
    forall x ensures WillLaunch(action, target, RootPids(snapshots), x) <==> Launches(action, target, snapshots, x) {
      RootPidsAre(snapshots, x);
    }
    NoLatePreflight(action, target, who, snapshots, order);
    PreflightsComeFirst(LaunchIds(action, target, RootPids(snapshots), order),
                        AfterPreflights(action, target, who, snapshots, order));
  }

  lemma {:induction false} NoLatePreflight(action: Action, target: Id, who: Attribution, snapshots: seq<Snapshot>,
                                           order: seq<Id>)
    requires order != []
    ensures var rest := AfterPreflights(action, target, who, snapshots, order);
            forall i :: 0 <= i < |rest| ==> !rest[i].Preflight?
  {}

  lemma {:induction false} PreflightsComeFirst(ids: seq<Id>, rest: seq<Call>)
    requires Distinct(ids) && forall i :: 0 <= i < |rest| ==> !rest[i].Preflight?
    ensures var script := Preflights(ids) + rest;
            && (forall i, j :: 0 <= i < |script| && 0 <= j < |script| && script[i].Preflight? && script[j].Mutate? ==>
                i < j)
            && (forall i, j :: 0 <= i < j < |script| && script[i].Preflight? ==> script[i] != script[j])
            && (forall x :: Preflight(x) in script <==> x in ids)
  {
    hide Preflights;
    var script := Preflights(ids) + rest;
    forall x ensures Preflight(x) in script <==> x in ids {
      if x in ids {
        var i :| 0 <= i < |ids| && ids[i] == x;
        assert script[i] == Preflight(x);
      }
    }
  }

  lemma {:induction false} MutationsPrefix(script: seq<Call>, n: nat)
    requires n <= |script|
    ensures Mutations(script[..n]) <= Mutations(script)
  {
    MutationsConcat(script[..n], script[n..]);
    assert script[..n] + script[n..] == script;
  }

  // Whatever the wrapped control answers: the mutations made are a prefix of the planned ones,
  // they are all of them on success, and a failing preflight leaves no mutation at all.
  lemma {:induction false} RunIsSafe(action: Action, target: Id, who: Attribution, snapshots: seq<Snapshot>,
                                     order: seq<Id>,
                  answers: nat -> Answer, at: nat)
    requires order != [] && Distinct(order)
    ensures var script := Script(action, target, who, snapshots, order);
            var done, r := Performed(script, answers, at), Outcome(script, answers, at, action, target);
            var planned := Starts(order[..|order| - 1], who) + [Mutate(action, target, who)];
            && Mutations(done) <= planned
            && (r.Success? ==> Mutations(done) == planned)
            && (forall i :: 0 <= i < |done| && done[i].Preflight? && answers(at + i).error.Some? ==>
                  Mutations(done) == [] && i == |done| - 1)
            && (Mutations(done) != [] ==>
                  forall x :: x in order && Launches(action, target, snapshots, x) ==> Preflight(x) in done)
  {
    hide *;
    var script := Script(action, target, who, snapshots, order);
    var done := Performed(script, answers, at);
    ScriptMutations(action, target, who, snapshots, order);
    ScriptPreflights(action, target, who, snapshots, order);
    PerformedPrefix(script, answers, at);
    MutationsPrefix(script, |done|);
    forall i | 0 <= i < |done| && done[i].Preflight? && answers(at + i).error.Some?
      ensures Mutations(done) == [] && i == |done| - 1
    {
      FailedPreflightIsLast(script, answers, at, i);
    }
    if Mutations(done) != [] {
      SomeMutation(done);
      forall x | x in order && Launches(action, target, snapshots, x) ensures Preflight(x) in done {
        PreflightHappened(script, done, x);
      }
    }
  }

  lemma {:induction false} PerformedPrefix(script: seq<Call>, answers: nat -> Answer, at: nat)
    requires script != []
    ensures var done := Performed(script, answers, at);
            && done <= script && done == script[..|done|]
            && forall action, target :: Outcome(script, answers, at, action, target).Success? ==> done == script
  {}

  lemma {:induction false} FailedPreflightIsLast(script: seq<Call>, answers: nat -> Answer, at: nat, i: nat)
    requires i < |Performed(script, answers, at)|
    requires script[i].Preflight? && answers(at + i).error.Some?
    requires forall i, j :: 0 <= i < |script| && 0 <= j < |script| && script[i].Preflight? && script[j].Mutate? ==>
             i < j
    ensures i == |Performed(script, answers, at)| - 1 && Mutations(Performed(script, answers, at)) == []
  {
    NoFailureBefore(script, answers, at, 0);
    assert Fails(script[i], answers(at + i));
    MutationsNone(Performed(script, answers, at));
  }

  lemma {:induction false} PreflightHappened(script: seq<Call>, done: seq<Call>, x: Id)
    requires done <= script && Preflight(x) in script
    requires forall i, j :: 0 <= i < |script| && 0 <= j < |script| && script[i].Preflight? && script[j].Mutate? ==>
             i < j
    requires exists j :: 0 <= j < |done| && done[j].Mutate?
    ensures Preflight(x) in done
  {
    var j :| 0 <= j < |done| && done[j].Mutate?;
    var i :| 0 <= i < |script| && script[i] == Preflight(x);
    assert script[j] == done[j];
    assert done[i] == script[i];
  }

  lemma {:induction false} SomeMutation(calls: seq<Call>)
    requires Mutations(calls) != []
    ensures exists j :: 0 <= j < |calls| && calls[j].Mutate?
  {
    if forall j :: 0 <= j < |calls| ==> !calls[j].Mutate? {
      MutationsNone(calls);
    }
  }

  // --- every run is orderly ---

  lemma {:induction false} LaunchIdsRise(action: Action, target: Id, pids: map<Id, Option<nat>>, order: seq<Id>)
    requires Distinct(order)
    ensures Rises(LaunchIds(action, target, pids, order), order)
  {
    if order != [] {
      hide IndexOf;
      var rest, first := LaunchIds(action, target, pids, order[1..]), WillLaunch(action, target, pids, order[0]);
      assert order[0] !in order[1..] && Distinct(order[1..]);
      LaunchIdsRise(action, target, pids, order[1..]);
      hide Rises;
      Lifted(order, rest, first);
    }
  }

  lemma {:induction false} Lifted(order: seq<Id>, rest: seq<Id>, first: bool)
    requires order != [] && order[0] !in order[1..] && Rises(rest, order[1..])
    ensures Rises((if first then [order[0]] else []) + rest, order)
  {
    var a := if first then 1 else 0;
    var ids := (if first then [order[0]] else []) + rest;
    forall i | 0 <= i < |ids|
      ensures ids[i] in order
      ensures i < a ==> IndexOf(order, ids[i]) == 0
      ensures i >= a ==> ids[i] == rest[i - a] && IndexOf(order, ids[i]) == 1 + IndexOf(order[1..], rest[i - a])
    {
      if i >= a { assert ids[i] == rest[i - a] && rest[i - a] in order[1..]; }
    }
    hide IndexOf;
  }

  // Where each kind of call stands in the script.
  lemma {:induction false} ScriptShape(action: Action, target: Id, who: Attribution, snapshots: seq<Snapshot>,
                                       order: seq<Id>)
    requires order != []
    ensures var script := Script(action, target, who, snapshots, order);
            var ids := LaunchIds(action, target, RootPids(snapshots), order);
            var a := if |order| > 1 then 1 else 0;
            && |script| == |ids| + a + |order|
            && (forall i :: 0 <= i < |ids| ==> script[i] == Preflight(ids[i]))
            && (|order| > 1 ==> script[|ids|] == Planned(action, target, DirectDependencies(snapshots, target), order))
            && (forall i :: |ids| + a <= i < |script| ==> script[i].Mutate?)
  {
    hide LaunchIds, RootPids, DirectDependencies;
    var ids, rest := LaunchIds(action, target, RootPids(snapshots), order),
        AfterPreflights(action, target, who, snapshots, order);
    AfterShape(action, target, who, snapshots, order);
    hide AfterPreflights;
    assert Script(action, target, who, snapshots, order) == Preflights(ids) + rest;
  }

  lemma {:induction false} AfterShape(action: Action, target: Id, who: Attribution, snapshots: seq<Snapshot>,
                                      order: seq<Id>)
    requires order != []
    ensures var rest := AfterPreflights(action, target, who, snapshots, order);
            var a := if |order| > 1 then 1 else 0;
            && |rest| == a + |order|
            && (|order| > 1 ==> rest[0] == Planned(action, target, DirectDependencies(snapshots, target), order))
            && (forall i :: a <= i < |rest| ==> rest[i].Mutate?)
  {
    hide DirectDependencies;
  }

  lemma {:induction false} DirectAre(snapshots: seq<Snapshot>, target: Id, k: nat)
    requires k < |snapshots| && snapshots[k].id == target && forall j :: 0 <= j < k ==> snapshots[j].id != target
    ensures DirectDependencies(snapshots, target) == snapshots[k].dependsOn
  {
    if k > 0 {
      assert snapshots[0].id != target;
      forall j | 0 <= j < k - 1 ensures snapshots[1..][j].id != target {
        assert snapshots[j + 1].id != target;
      }
      DirectAre(snapshots[1..], target, k - 1);
    }
  }

  lemma {:induction false} PrefixPreflights(script: seq<Call>, ids: seq<Id>, done: seq<Call>, action: Action,
                                            target: Id, snapshots: seq<Snapshot>, order: seq<Id>)
    requires done <= script && |ids| <= |script| && Distinct(ids)
    requires forall i :: 0 <= i < |script| ==> (script[i].Preflight? <==> i < |ids|)
    requires forall i :: 0 <= i < |ids| ==> script[i] == Preflight(ids[i])
    requires forall x :: x in ids <==> x in order && Launches(action, target, snapshots, x)
    requires Rises(ids, order)
    ensures PreflightsFirst(done, action, target, snapshots, order)
  {
    hide Launches, IndexOf;
    forall i | 0 <= i < |done| ensures done[i] == script[i] {}
    forall x | Preflight(x) in done ensures x in ids {
      var i :| 0 <= i < |done| && done[i] == Preflight(x);
      assert ids[i] == x;
    }
    if exists j :: 0 <= j < |done| && !done[j].Preflight? {
      var j :| 0 <= j < |done| && !done[j].Preflight?;
      assert j >= |ids|;
      forall x | x in ids ensures Preflight(x) in done {
        var i :| 0 <= i < |ids| && ids[i] == x;
        assert done[i] == Preflight(x);
      }
    }
  }

  lemma {:induction false} PrefixAnnounces(script: seq<Call>, p: nat, done: seq<Call>, action: Action, target: Id,
                                           snapshots: seq<Snapshot>, order: seq<Id>)
    requires done <= script && order != []
    requires var a := if |order| > 1 then 1 else 0;
             && p + a <= |script|
             && (forall i :: 0 <= i < p ==> script[i].Preflight?)
             && (|order| > 1 ==> script[p] == Planned(action, target, DirectDependencies(snapshots, target), order))
             && (forall i :: p + a <= i < |script| ==> script[i].Mutate?)
    ensures AnnouncedOnce(done, action, target, snapshots, order)
  {
    hide DirectDependencies, Mutations;
    forall i | 0 <= i < |done| ensures done[i] == script[i] {}
    forall k | 0 <= k < |snapshots| && snapshots[k].id == target
               && (forall j :: 0 <= j < k ==> snapshots[j].id != target)
      ensures DirectDependencies(snapshots, target) == snapshots[k].dependsOn
    {
      DirectAre(snapshots, target, k);
    }
    if |order| > 1 && Mutations(done) != [] {
      SomeMutation(done);
      var j :| 0 <= j < |done| && done[j].Mutate?;
      assert p < |done| && done[p].Planned?;
    }
  }

  lemma {:induction false} CompleteIffAll(script: seq<Call>, n: nat)
    requires n <= |script| && script != [] && script[|script| - 1].Mutate?
    ensures Mutations(script[..n]) == Mutations(script) <==> n == |script|
  {
    assert script[..n] + script[n..] == script;
    MutationsConcat(script[..n], script[n..]);
    if n < |script| {
      var rest := script[n..];
      var front := rest[..|rest| - 1];
      assert rest == front + [script[|script| - 1]];
      MutationsConcat(front, [script[|script| - 1]]);
      MutationsAll([script[|script| - 1]]);
    }
  }

  lemma {:induction false} OutcomeIsLast(script: seq<Call>, answers: nat -> Answer, at: nat, action: Action, target: Id)
    requires script != [] && script[|script| - 1].Mutate?
    ensures var done := Performed(script, answers, at);
            AnswersLast(done, Outcome(script, answers, at, action, target), action, target,
                        Mutations(done) == Mutations(script), answers, at)
  {
    hide Mutations, AnswersLast, Fails, Reported, FirstFailure;
    var k := FirstFailure(script, answers, at, 0);
    NoFailureBefore(script, answers, at, 0);
    var r := Outcome(script, answers, at, action, target);
    if k < |script| {
      CompleteIffAll(script, k + 1);
      FailureIsLast(script, k, answers, at, action, target, r);
    } else {
      SuccessIsLast(script, answers, at, action, target, r);
    }
  }

  lemma {:induction false} FailureIsLast(script: seq<Call>, k: nat, answers: nat -> Answer, at: nat, action: Action,
                                         target: Id, r: Result<string, ControlError>)
    requires k < |script| && script[|script| - 1].Mutate? && Fails(script[k], answers(at + k))
    requires forall i :: 0 <= i < k ==> !Fails(script[i], answers(at + i))
    requires r == Failure(Reported(script[k], answers(at + k).error.value, action, target, k == |script| - 1))
    ensures AnswersLast(script[..k + 1], r, action, target, k + 1 == |script|, answers, at)
  {
    var done := script[..k + 1];
    assert done[|done| - 1] == script[k];
    forall i | 0 <= i < |done| - 1 && !done[i].Planned? ensures answers(at + i).error.None? {
      assert !Fails(script[i], answers(at + i));
    }
  }

  lemma {:induction false} SuccessIsLast(script: seq<Call>, answers: nat -> Answer, at: nat, action: Action, target: Id,
                                         r: Result<string, ControlError>)
    requires script != [] && script[|script| - 1].Mutate?
    requires forall i :: 0 <= i < |script| ==> !Fails(script[i], answers(at + i))
    requires r == Success(answers(at + |script| - 1).outcome)
    ensures AnswersLast(script, r, action, target, true, answers, at)
  {
    forall i | 0 <= i < |script| && !script[i].Planned? ensures answers(at + i).error.None? {
      assert !Fails(script[i], answers(at + i));
    }
  }

  // Whatever the wrapped control answers, what was done and what is reported are in order.
  lemma {:induction false} RunIsOrderly(action: Action, target: Id, who: Attribution, snapshots: seq<Snapshot>,
                                        order: seq<Id>, answers: nat -> Answer, at: nat)
    requires order != [] && Distinct(order)
    ensures var script := Script(action, target, who, snapshots, order);
            && script != []
            && Orderly(Performed(script, answers, at), Outcome(script, answers, at, action, target), action, target,
                       who, snapshots, order, answers, at)
  {
    hide Script, LaunchIds, RootPids, Launches, Rises, Performed, Outcome, Mutations, PreflightsFirst, AnnouncedOnce,
         AnswersLast, DirectDependencies;
    var script := Script(action, target, who, snapshots, order);
    var ids := LaunchIds(action, target, RootPids(snapshots), order);
    ScriptShape(action, target, who, snapshots, order);
    ScriptMutations(action, target, who, snapshots, order);
    var done := Performed(script, answers, at);
    PerformedPrefix(script, answers, at);
    MutationsPrefix(script, |done|);
    LaunchIdsRise(action, target, RootPids(snapshots), order);
    LaunchIdsAre(action, target, snapshots, order);
    PrefixPreflights(script, ids, done, action, target, snapshots, order);
    PrefixAnnounces(script, |ids|, done, action, target, snapshots, order);
    OutcomeIsLast(script, answers, at, action, target);
    assert PlannedMutations(action, target, who, order) ==
           Starts(order[..|order| - 1], who) + [Mutate(action, target, who)];
  }

  lemma {:induction false} LaunchIdsAre(action: Action, target: Id, snapshots: seq<Snapshot>, order: seq<Id>)
    requires Distinct(order)
    ensures var ids := LaunchIds(action, target, RootPids(snapshots), order);
            Distinct(ids) && forall x :: x in ids <==> x in order && Launches(action, target, snapshots, x)
  {
    forall x ensures WillLaunch(action, target, RootPids(snapshots), x) <==> Launches(action, target, snapshots, x) {
      RootPidsAre(snapshots, x);
    }
  }
}
