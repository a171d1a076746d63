// src/application/service_runtime.rs: the owner of one service's process tree. The platform callbacks
// (spawn, stop, observe) run while the lock is held, so each operation is one atomic step whose
// callback answers are parameters.
module ServiceRuntime {
  import opened Wrappers
  import opened Lifecycle
  import opened Sequences

  datatype StartOutcome = Started | AlreadyRunning
  datatype StopOutcome = WasStopped | StillTerminating | AlreadyStopped
  datatype RestartOutcome = Restarted | OldOneTerminating | StartedFresh
  datatype StopProgress = Complete | Pending

  // Poisoned is also what the source answers in a branch it expects never to take.
  datatype RuntimeError<E> =
    | Transition(error: TransitionError)
    | Start(reason: E)
    | Stop(why: E)
    | Inspect(cause: E)
    | Poisoned

  // What the platform was asked, on which process, and what it answered.
  datatype Callback<P, E> =
    | Spawn(owner: Result<P, E>)
    | StopTree(process: P, progress: Result<StopProgress, E>)
    | Observe(process: P, exit: Result<Option<int>, E>)

  datatype State<P> = State(lifecycle: LifecycleState, owner: Option<P>)

  // --- what the operations amount to, with no transition checks ---

  datatype Operation<P, E> =
    | ApplyHealth(healthy: bool)
    | ReconcileExit(exit: Result<Option<int>, E>)
    | StartWith(spawn: Result<P, E>)
    | StopWith(stop: Result<StopProgress, E>)
    | RestartWith(stop: Result<StopProgress, E>, spawn: Result<P, E>)

  function AfterSpawn<P, E>(spawn: Result<P, E>): State<P> {
    if spawn.Success? then State(Running, Some(spawn.value)) else State(Failed, None)
  }

  function AfterStop<P, E>(owner: P, stop: Result<StopProgress, E>): State<P> {
    match stop
    case Success(Complete) => State(Stopped, None)
    case Success(Pending) => State(TerminationPending, Some(owner))
    case Failure(_) => State(Failed, Some(owner))
  }

  function AfterExit<P>(s: State<P>): State<P> {
    State(if s.lifecycle == TerminationPending then Stopped else Failed, None)
  }

  function After<P, E>(s: State<P>, op: Operation<P, E>): State<P> {
    match op
    case ApplyHealth(healthy) =>
      if s.owner.Some? && s.lifecycle in {Running, Unhealthy}
      then s.(lifecycle := if healthy then Running else Unhealthy) else s
    case ReconcileExit(exit) =>
      if s.owner.Some? && exit.Success? && exit.value.Some? then AfterExit(s) else s
    case StartWith(spawn) =>
      if s.owner.Some? then s else AfterSpawn(spawn)
    case StopWith(stop) =>
      if s.owner.Some? then AfterStop(s.owner.value, stop) else State(Stopped, None)
    case RestartWith(stop, spawn) =>
      if s.owner.Some? && stop != Success(Complete) then AfterStop(s.owner.value, stop) else AfterSpawn(spawn)
  }

  // The callbacks an operation makes, in order.
  function Calls<P, E>(s: State<P>, op: Operation<P, E>): seq<Callback<P, E>> {
    match op
    case ApplyHealth(_) => []
    case ReconcileExit(exit) => if s.owner.Some? then [Observe(s.owner.value, exit)] else []
    case StartWith(spawn) => if s.owner.Some? then [] else [Spawn(spawn)]
    case StopWith(stop) => if s.owner.Some? then [StopTree(s.owner.value, stop)] else []
    case RestartWith(stop, spawn) =>
      if s.owner.None? then [Spawn(spawn)]
      else if stop == Success(Complete) then [StopTree(s.owner.value, stop), Spawn(spawn)]
      else [StopTree(s.owner.value, stop)]
  }

  // The states a service can be in between operations.
  predicate Settled<P>(s: State<P>) {
    match s.lifecycle
    case Stopped => s.owner.None?
    case Running => s.owner.Some?
    case Unhealthy => s.owner.Some?
    case TerminationPending => s.owner.Some?
    case Failed => true
    case Starting => false
    case Stopping => false
  }

  // --- reading ownership off the callbacks alone ---

  predicate Releases<P, E>(c: Callback<P, E>) {
    match c
    case Spawn(_) => false
    case StopTree(_, progress) => progress == Success(Complete)
    case Observe(_, exit) => exit.Success? && exit.value.Some?
  }

  function OwnerAfter<P, E>(trace: seq<Callback<P, E>>): Option<P> {
    if trace == [] then None
    else
      var last := trace[|trace| - 1];
      if last.Spawn? && last.owner.Success? then Some(last.owner.value)
      else if Releases(last) then None
      else OwnerAfter(trace[..|trace| - 1])
  }

  // A spawn is only ever attempted with no tree owned; stops and observations address the owner.
  ghost predicate Proper<P, E>(owner: Option<P>, c: Callback<P, E>) {
    match c
    case Spawn(_) => owner.None?
    case StopTree(process, _) => owner == Some(process)
    case Observe(process, _) => owner == Some(process)
  }

  ghost predicate SingleOwner<P, E>(trace: seq<Callback<P, E>>) {
    forall i :: 0 <= i < |trace| ==> Proper(OwnerAfter(trace[..i]), trace[i])
  }

  function Spawns<P, E>(trace: seq<Callback<P, E>>): nat {
    if trace == [] then 0
    else
      var last := trace[|trace| - 1];
      Spawns(trace[..|trace| - 1]) + if last.Spawn? && last.owner.Success? then 1 else 0
  }

  function Released<P, E>(trace: seq<Callback<P, E>>): nat {
    if trace == [] then 0
    else Released(trace[..|trace| - 1]) + if Releases(trace[|trace| - 1]) then 1 else 0
  }

  lemma {:induction false} OneMoreCall<P, E>(trace: seq<Callback<P, E>>, c: Callback<P, E>)
    ensures OwnerAfter(trace + [c]) ==
            if c.Spawn? && c.owner.Success? then Some(c.owner.value)
            else if Releases(c) then None else OwnerAfter(trace)
    ensures SingleOwner(trace) && Proper(OwnerAfter(trace), c) ==> SingleOwner(trace + [c])
  {
    var t := trace + [c];
    assert t[..|trace|] == trace;
    forall i | 0 <= i < |trace| ensures t[..i] == trace[..i] && t[i] == trace[i] {}
  }

  // Trees spawned minus trees confirmed gone: one while a tree is owned, otherwise none.
  lemma {:induction false} SpawnsMinusReleases<P, E>(trace: seq<Callback<P, E>>)
    requires SingleOwner(trace)
    ensures Spawns(trace) - Released(trace) == if OwnerAfter(trace).Some? then 1 else 0
  {
    if trace != [] {
      var front := trace[..|trace| - 1];
      forall i | 0 <= i < |front| ensures front[..i] == trace[..i] {}
      SpawnsMinusReleases(front);
      assert Proper(OwnerAfter(front), trace[|trace| - 1]);
    }
  }

  // The trace was left by operations that ended in this state.
  ghost predicate Accountable<P, E>(s: State<P>, trace: seq<Callback<P, E>>) {
    Settled(s) && SingleOwner(trace) && OwnerAfter(trace) == s.owner
  }

  lemma {:induction false} OperationAccounts<P, E>(s: State<P>, trace: seq<Callback<P, E>>, op: Operation<P, E>)
    requires Accountable(s, trace)
    ensures Accountable(After(s, op), trace + Calls(s, op))
  {
    var calls := Calls(s, op);
    hide OwnerAfter, SingleOwner;
    if calls == [] {
      assert trace + calls == trace;
    } else {
      OneMoreCall(trace, calls[0]);
      if |calls| == 1 {
        assert trace + calls == trace + [calls[0]];
      } else {
        OneMoreCall(trace + [calls[0]], calls[1]);
        assert trace + calls == trace + [calls[0]] + [calls[1]];
      }
    }
  }

  // --- whole runs ---

  function RunState<P, E>(ops: seq<Operation<P, E>>): State<P> {
    if ops == [] then State(Stopped, None)
    else After(RunState(ops[..|ops| - 1]), ops[|ops| - 1])
  }

  function RunCalls<P, E>(ops: seq<Operation<P, E>>): seq<Callback<P, E>> {
    if ops == [] then []
    else RunCalls(ops[..|ops| - 1]) + Calls(RunState(ops[..|ops| - 1]), ops[|ops| - 1])
  }

  // Whatever is asked in whatever order, and whatever the platform answers: the service settles,
  // no tree is spawned beside another, and at most one spawned tree is not yet confirmed gone.
  lemma {:induction false} EveryRunHasOneOwner<P, E>(ops: seq<Operation<P, E>>)
    ensures Settled(RunState(ops))
    ensures SingleOwner(RunCalls(ops)) && OwnerAfter(RunCalls(ops)) == RunState(ops).owner
    ensures Spawns(RunCalls(ops)) - Released(RunCalls(ops)) == if RunState(ops).owner.Some? then 1 else 0
  {
    RunAccounts(ops);
    SpawnsMinusReleases(RunCalls(ops));
  }

  lemma {:induction false} RunAccounts<P, E>(ops: seq<Operation<P, E>>)
    ensures Accountable(RunState(ops), RunCalls(ops))
  {
    if ops != [] {
      RunAccounts(ops[..|ops| - 1]);
      OperationAccounts(RunState(ops[..|ops| - 1]), RunCalls(ops[..|ops| - 1]), ops[|ops| - 1]);
    }
  }

  lemma {:induction false} RunStateSnoc<P, E>(ops: seq<Operation<P, E>>, op: Operation<P, E>)
    ensures RunState(ops + [op]) == After(RunState(ops), op)
  {
    assert (ops + [op])[..|ops|] == ops;
  }

  lemma {:induction false} RunTo<P, E>(s: State<P>, reason: E) returns (ops: seq<Operation<P, E>>)
    requires Settled(s)
    ensures RunState(ops) == s
  {
    ops := [];
    assert RunState(ops) == State(Stopped, None);
    hide RunState;
    if s.lifecycle != Stopped || s.owner.Some? {
      var spawn: Result<P, E> := if s.owner.Some? then Success(s.owner.value) else Failure(reason);
      RunStateSnoc(ops, StartWith(spawn));
      ops := ops + [StartWith(spawn)];
    }
    if s.owner.Some? && s.lifecycle != Running {
      var next := if s.lifecycle == Unhealthy then ApplyHealth(false)
                  else StopWith(if s.lifecycle == TerminationPending then Success(Pending) else Failure(reason));
      RunStateSnoc(ops, next);
      ops := ops + [next];
    }
  }

  // The settled states are exactly the ones some run ends in.
  lemma {:induction false} SettledIffReachable<P, E>(s: State<P>, reason: E)
    ensures Settled(s) <==> exists ops: seq<Operation<P, E>> :: RunState(ops) == s
  {
    if Settled(s) {
      var ops := RunTo(s, reason);
    } else if exists ops: seq<Operation<P, E>> :: RunState(ops) == s {
      var ops: seq<Operation<P, E>> :| RunState(ops) == s;
      RunAccounts(ops);
      assert false;
    }
  }

  // Until a stop, a restart or an exit, the last health answer decides the state of a running service, and
  // its tree stays the same.
  lemma {:induction false} LastHealthDecides<P, E>(ops: seq<Operation<P, E>>, healthy: bool,
                                                   rest: seq<Operation<P, E>>)
    requires RunState(ops).owner.Some? && RunState(ops).lifecycle in {Running, Unhealthy}
    requires forall i :: 0 <= i < |rest| ==> rest[i].StartWith? || (rest[i].ReconcileExit? && NoExit(rest[i].exit))
    ensures RunState(ops + [ApplyHealth(healthy)] + rest) ==
            State(if healthy then Running else Unhealthy, RunState(ops).owner)
  {
    hide RunState;
    var before := ops + [ApplyHealth(healthy)];
    if rest == [] {
      assert before + rest == before;
      RunStateSnoc(ops, ApplyHealth(healthy));
    } else {
      var front, last := rest[..|rest| - 1], rest[|rest| - 1];
      LastHealthDecides(ops, healthy, front);
      assert before + rest == (before + front) + [last];
      RunStateSnoc(before + front, last);
    }
  }

  predicate NoExit<E>(exit: Result<Option<int>, E>) {
    exit.Success? ==> exit.value.None?
  }

  // A restart in the order of its parts.
  lemma {:induction false} RestartIs<P, E>(s: State<P>, stop: Result<StopProgress, E>, spawn: Result<P, E>)
    ensures var op, stops := RestartWith(stop, spawn), if s.owner.Some? then [StopTree(s.owner.value, stop)] else [];
            if s.owner.Some? && stop != Success(Complete)
            then After(s, op) == AfterStop(s.owner.value, stop) && Calls(s, op) == stops
            else After(s, op) == AfterSpawn(spawn) && Calls(s, op) == stops + [Spawn(spawn)]
  {}

  // --- the runtime itself ---

  class ServiceRuntime<P(==), E(==)> {
    var lifecycle: LifecycleState
    var process: Option<P>
    // Every callback made, and every lifecycle value held, since creation.
    ghost var trace: seq<Callback<P, E>>
    ghost var path: seq<LifecycleState>

    ghost function Now(): State<P>
      reads this
    {
      State(lifecycle, process)
    }

    ghost predicate Tracked()
      reads this`lifecycle, this`path
    {
      path != [] && path[|path| - 1] == lifecycle && LegalPath(path)
    }

    ghost predicate Valid()
      reads this
    {
      Accountable(Now(), trace) && Tracked()
    }

    constructor ()
      ensures Valid() && Now() == State(Stopped, None) && trace == [] && path == [Stopped]
    {
      lifecycle, process, trace, path := Stopped, None, [], [Stopped];
    }

    // One checked lifecycle move.
    method Advance(next: LifecycleState) returns (r: Result<(), RuntimeError<E>>)
      requires Tracked()
      modifies this`lifecycle, this`path
      ensures Tracked()
      ensures CanTransitionTo(old(lifecycle), next) ==>
                r == Success(()) && lifecycle == next && path == old(path) + [next]
      ensures !CanTransitionTo(old(lifecycle), next) ==>
                r == Failure(Transition(TransitionError(old(lifecycle), next))) && unchanged(this)
      // Read by target: where each state can be entered from.
      ensures r.Success? <==>
                old(lifecycle) in match next
                                  case Stopped => {Stopping, TerminationPending, Failed}
                                  case Starting => {Stopped, Failed}
                                  case Running => {Starting, Unhealthy}
                                  case Stopping => {Starting, Running, Unhealthy, TerminationPending, Failed}
                                  case TerminationPending => {Stopping}
                                  case Unhealthy => {Starting, Running}
                                  case Failed => {Starting, Running, Unhealthy, Stopping, TerminationPending}
    {
      match TransitionTo(lifecycle, next) {
        case Success(state) =>
          LegalPathSnoc(path, state);
          lifecycle, path := state, path + [state];
          return Success(());
        case Failure(error) =>
          return Failure(Transition(error));
      }
    }

    method ApplyHealthNow(healthy: bool) returns (r: Result<(), RuntimeError<E>>)
      requires Valid()
      modifies this`lifecycle, this`path
      ensures Valid()
      ensures Now() == After<P, E>(old(Now()), ApplyHealth(healthy))
      ensures r == Success(())
      // Health moves a running service only, and never hides another state.
      ensures lifecycle == if old(process).Some? && old(lifecycle) in {Running, Unhealthy}
                           then if healthy then Running else Unhealthy
                           else old(lifecycle)
      ensures path == old(path) + if lifecycle == old(lifecycle) then [] else [lifecycle]
    {
      var requested := if healthy then Running else Unhealthy;
      if process.Some? && (lifecycle == Running || lifecycle == Unhealthy) && lifecycle != requested {
        r := Advance(requested);
        return r;
      }
      return Success(());
    }

    method ReconcileExitWith(exit: Result<Option<int>, E>) returns (r: Result<Option<int>, RuntimeError<E>>)
      requires Valid()
      modifies this
      ensures Valid()
      ensures Now() == After(old(Now()), ReconcileExit(exit))
      ensures trace == old(trace) + Calls(old(Now()), ReconcileExit(exit))
      ensures r == if old(process).None? then Success(None)
                   else if exit.Failure? then Failure(Inspect(exit.error)) else Success(exit.value)
      ensures trace == old(trace) + if old(process).Some? then [Observe(old(process).value, exit)] else []
      // Only an observed exit releases the tree; after a forced stop it was expected.
      ensures if old(process).Some? && exit.Success? && exit.value.Some?
              then
                && process == None
                && lifecycle == (if old(lifecycle) == TerminationPending then Stopped else Failed)
                && path == old(path) + (if old(lifecycle) == Failed then [] else [lifecycle])
              else process == old(process) && lifecycle == old(lifecycle) && path == old(path)
    {
      assert Settled(Now());
      OperationAccounts(Now(), trace, ReconcileExit(exit));
      hide OwnerAfter, SingleOwner, Accountable, Tracked;
      if process.None? {
        return Success(None);
      }
      trace := trace + [Observe(process.value, exit)];
      if exit.Failure? {
        return Failure(Inspect(exit.error));
      }
      if exit.value.None? {
        return Success(None);
      }
      process := None;
      if lifecycle == TerminationPending {
        var moved := Advance(Stopped);
        match moved { case Failure(refused) => return Failure(refused); case Success(_) => }
      } else if lifecycle != Failed {
        var moved := Advance(Failed);
        match moved { case Failure(refused) => return Failure(refused); case Success(_) => }
      }
      return Success(exit.value);
    }

    // The tail that starting and restarting share: spawn with no tree owned.
    method SpawnOwner(spawn: Result<P, E>) returns (r: Result<(), RuntimeError<E>>)
      requires Tracked() && process.None? && (lifecycle == Stopped || lifecycle == Failed)
      modifies this
      ensures Tracked() && Now() == AfterSpawn(spawn)
      ensures trace == old(trace) + [Spawn(spawn)]
      ensures r == if spawn.Failure? then Failure(RuntimeError.Start(spawn.error)) else Success(())
      ensures path == old(path) + [Starting, lifecycle]
    {
      hide Tracked;
      var moved := Advance(Starting);
      match moved { case Failure(refused) => return Failure(refused); case Success(_) => }
      trace := trace + [Spawn(spawn)];
      match spawn {
        case Success(owner) =>
          process := Some(owner);
          moved := Advance(Running);
          match moved { case Failure(refused) => return Failure(refused); case Success(_) => }
          return Success(());
        case Failure(error) =>
          moved := Advance(Failed);
          match moved { case Failure(refused) => return Failure(refused); case Success(_) => }
          return Failure(RuntimeError.Start(error));
      }
    }

    method Start(spawn: Result<P, E>) returns (r: Result<StartOutcome, RuntimeError<E>>)
      requires Valid()
      modifies this
      ensures Valid()
      ensures Now() == After(old(Now()), StartWith(spawn))
      ensures trace == old(trace) + Calls(old(Now()), StartWith(spawn))
      ensures r == if old(process).Some? then Success(AlreadyRunning)
                   else if spawn.Failure? then Failure(RuntimeError.Start(spawn.error)) else Success(Started)
      ensures if old(process).Some?
              then process == old(process) && lifecycle == old(lifecycle) && trace == old(trace) && path == old(path)
              else
                && trace == old(trace) + [Spawn(spawn)]
                && process == (if spawn.Success? then Some(spawn.value) else None)
                && lifecycle == (if spawn.Success? then Running else Failed)
                && path == old(path) + [Starting, lifecycle]
    {
      assert Settled(Now());
      OperationAccounts(Now(), trace, StartWith(spawn));
      hide OwnerAfter, SingleOwner, Accountable, Tracked;
      if process.Some? {
        return Success(AlreadyRunning);
      }
      var spawned := SpawnOwner(spawn);
      match spawned {
        case Success(_) => return Success(Started);
        case Failure(error) => return Failure(error);
      }
    }

    // The middle that stopping and restarting share: the stop of the owned tree and the move it leads to.
    method Halt(stop: Result<StopProgress, E>) returns (r: Result<StopProgress, RuntimeError<E>>)
      requires Tracked() && process.Some? && lifecycle == Stopping
      modifies this
      ensures Tracked() && Now() == AfterStop(old(process).value, stop)
      ensures trace == old(trace) + [StopTree(old(process).value, stop)] && path == old(path) + [lifecycle]
      ensures r == if stop.Failure? then Failure(RuntimeError.Stop(stop.error)) else Success(stop.value)
    {
      hide Tracked;
      trace := trace + [StopTree(process.value, stop)];
      var moved;
      match stop {
        case Success(Complete) =>
          process := None;
          moved := Advance(Stopped);
          match moved { case Failure(refused) => return Failure(refused); case Success(_) => }
          return Success(Complete);
        case Success(Pending) =>
          moved := Advance(TerminationPending);
          match moved { case Failure(refused) => return Failure(refused); case Success(_) => }
          return Success(Pending);
        case Failure(error) =>
          moved := Advance(Failed);
          match moved { case Failure(refused) => return Failure(refused); case Success(_) => }
          return Failure(RuntimeError.Stop(error));
      }
    }

    method Stop(stop: Result<StopProgress, E>) returns (r: Result<StopOutcome, RuntimeError<E>>)
      requires Valid()
      modifies this
      ensures Valid()
      ensures Now() == After(old(Now()), StopWith(stop))
      ensures trace == old(trace) + Calls(old(Now()), StopWith(stop))
      ensures r == if old(process).None? then Success(if old(lifecycle) == Failed then WasStopped else AlreadyStopped)
                   else match stop
                        case Failure(error) => Failure(RuntimeError.Stop(error))
                        case Success(Complete) => Success(WasStopped)
                        case Success(Pending) => Success(StillTerminating)
      // Without a tree a failure is cleared; a tree is released by a completed stop only.
      ensures if old(process).None?
              then
                && process == None && lifecycle == Stopped && trace == old(trace)
                && path == old(path) + (if old(lifecycle) == Failed then [Stopped] else [])
              else
                && trace == old(trace) + [StopTree(old(process).value, stop)]
                && process == (if stop == Success(Complete) then None else old(process))
                && lifecycle == (if stop.Failure? then Failed
                                 else if stop.value == Complete then Stopped else TerminationPending)
                && path == old(path) + [Stopping, lifecycle]
    {
      assert Settled(Now());
      OperationAccounts(Now(), trace, StopWith(stop));
      hide OwnerAfter, SingleOwner, Accountable, Tracked;
      var moved;
      if process.None? {
        if lifecycle == Failed {
          moved := Advance(Stopped);
          match moved { case Failure(refused) => return Failure(refused); case Success(_) => }
          return Success(WasStopped);
        }
        return Success(AlreadyStopped);
      }
      moved := Advance(Stopping);
      match moved { case Failure(refused) => return Failure(refused); case Success(_) => }
      if process.None? {
        return Success(AlreadyStopped);
      }
      var halted := Halt(stop);
      match halted {
        case Success(Complete) => return Success(WasStopped);
        case Success(Pending) => return Success(StillTerminating);
        case Failure(error) => return Failure(error);
      }
    }

    method Restart(stop: Result<StopProgress, E>, spawn: Result<P, E>) returns (r: Result<RestartOutcome,
                   RuntimeError<E>>)
      requires Valid()
      modifies this
      ensures Valid()
      ensures Now() == After(old(Now()), RestartWith(stop, spawn))
      ensures trace == old(trace) + Calls(old(Now()), RestartWith(stop, spawn))
      ensures r == if old(process).Some? && stop.Failure? then Failure(RuntimeError.Stop(stop.error))
                   else if old(process).Some? && stop.value == Pending then Success(OldOneTerminating)
                   else if spawn.Failure? then Failure(RuntimeError.Start(spawn.error))
                   else Success(if old(process).Some? then Restarted else StartedFresh)
      // The replacement is spawned with no tree left, and otherwise the old one is kept.
      ensures if old(process).Some? && stop != Success(Complete)
              then
                && trace == old(trace) + [StopTree(old(process).value, stop)] && process == old(process)
                && lifecycle == (if stop.Failure? then Failed else TerminationPending)
                && path == old(path) + [Stopping, lifecycle]
              else
                && trace == old(trace) + (if old(process).Some? then [StopTree(old(process).value, stop)] else [])
                            + [Spawn(spawn)]
                && process == (if spawn.Success? then Some(spawn.value) else None)
                && lifecycle == (if spawn.Success? then Running else Failed)
                && path == old(path) + (if old(process).Some? then [Stopping, Stopped] else []) + [Starting, lifecycle]
    {
      assert Settled(Now());
      OperationAccounts(Now(), trace, RestartWith(stop, spawn));
      RestartIs(Now(), stop, spawn);
      hide OwnerAfter, SingleOwner, Accountable, Tracked, Releases, Proper, Settled, After, Calls;
      var hadProcess := process.Some?;
      ghost var earlier, stops := trace, if hadProcess then [StopTree(process.value, stop)] else [];
      ghost var lived, moves := path, if hadProcess then [Stopping, Stopped] else [];
      Regroup(earlier, stops, [Spawn(spawn)]);
      var moved;
      if hadProcess {
        moved := Advance(Stopping);
        match moved { case Failure(refused) => return Failure(refused); case Success(_) => }
        if process.None? {
          return Failure(Poisoned);
        }
        var halted := Halt(stop);
        match halted {
          case Success(Complete) =>
          case Success(Pending) => return Success(OldOneTerminating);
          case Failure(error) => return Failure(error);
        }
      }
      assert trace == earlier + stops && path == lived + moves;
      var spawned := SpawnOwner(spawn);
      match spawned {
        case Success(_) => return Success(if hadProcess then Restarted else StartedFresh);
        case Failure(error) => return Failure(error);
      }
    }
  }
}
