// src/adapters/control_http.rs: the bounded first-in-first-out store of answered mutations, and the
// mutation route that consults it. The lock on the store is held for the whole of a request, so requests
// are handled one at a time.
module Idempotency {
  import opened Wrappers
  import opened Bytes
  import opened Sequences

  const IDEMPOTENCY_CAPACITY: nat := 1024

  datatype Cached<R> = Cached(target: string, body: seq<byte>, response: R)

  datatype Lookup<R> = Replay(response: R) | Conflict | Miss

  // One insertion: a request id with what was cached for it.
  datatype Entry<R> = Entry(id: string, cached: Cached<R>)

  function Ids<R>(entries: seq<Entry<R>>): (ids: seq<string>)
    ensures |ids| == |entries| && forall i :: 0 <= i < |ids| ==> ids[i] == entries[i].id
  {
    seq(|entries|, i requires 0 <= i < |entries| => entries[i].id)
  }

  function Window<R>(inserted: seq<Entry<R>>): (held: seq<Entry<R>>)
  {
    if |inserted| > IDEMPOTENCY_CAPACITY then inserted[|inserted| - IDEMPOTENCY_CAPACITY..] else inserted
  }

  function Known<R>(held: seq<Entry<R>>, id: string): Option<Cached<R>> {
    if id in Ids(held) then Some(held[IndexOf(Ids(held), id)].cached) else None
  }

  function Answer<R(==)>(known: Option<Cached<R>>, target: string, body: seq<byte>): Lookup<R> {
    match known
    case None => Miss
    case Some(cached) => if cached.target == target && cached.body == body then Replay(cached.response) else Conflict
  }

  // Repeats of an id are further apart than the store is deep.
  ghost predicate Spaced<R>(inserted: seq<Entry<R>>) {
    forall k, l :: 0 <= k < l < |inserted| && inserted[k].id == inserted[l].id ==> l - k > IDEMPOTENCY_CAPACITY
  }

  // The table lists exactly these entries.
  ghost predicate Tabulates<R>(entries: map<string, Cached<R>>, held: seq<Entry<R>>) {
    && (forall id :: id in entries <==> id in Ids(held))
    && (forall i :: 0 <= i < |held| ==> held[i].id in entries && entries[held[i].id] == held[i].cached)
  }

  lemma {:induction false} WindowIsDistinct<R>(inserted: seq<Entry<R>>)
    requires Spaced(inserted)
    ensures Distinct(Ids(Window(inserted)))
  {
    hide Window;
    var from := Start(inserted);
    forall i, j | 0 <= i < j < |Window(inserted)| ensures Window(inserted)[i].id != Window(inserted)[j].id {
      assert Window(inserted)[i] == inserted[from + i] && Window(inserted)[j] == inserted[from + j];
    }
  }

  // The store's two collections both list these entries.
  ghost predicate Mirrors<R>(entries: map<string, Cached<R>>, order: seq<string>, held: seq<Entry<R>>) {
    order == Ids(held) && Distinct(order) && Tabulates(entries, held)
  }

  lemma {:induction false} TableSize<R>(entries: map<string, Cached<R>>, order: seq<string>, held: seq<Entry<R>>)
    requires Mirrors(entries, order, held)
    ensures |entries| == |held| == |order|
  {
    DistinctCardinality(Ids(held));
    assert entries.Keys == Elems(Ids(held));
  }

  lemma {:induction false} DropOldest<R>(entries: map<string, Cached<R>>, order: seq<string>, held: seq<Entry<R>>)
    requires Mirrors(entries, order, held) && held != []
    ensures Mirrors(entries - {order[0]}, order[1..], held[1..])
    ensures |entries - {order[0]}| == |held| - 1
    ensures forall id :: id !in order ==> id !in order[1..]
  {
    assert Ids(held[1..]) == order[1..];
    assert forall id :: id in order[1..] <==> id in order && id != order[0];
    TableSize(entries - {order[0]}, order[1..], held[1..]);
  }

  lemma {:induction false} AddNewest<R>(entries: map<string, Cached<R>>, order: seq<string>, held: seq<Entry<R>>,
                                        e: Entry<R>)
    requires Mirrors(entries, order, held) && e.id !in order
    ensures Mirrors(entries[e.id := e.cached], order + [e.id], held + [e])
  {
    assert Ids(held + [e]) == order + [e.id];
  }

  // Where the window starts.
  function Start<R>(inserted: seq<Entry<R>>): (start: nat)
    ensures start <= |inserted| && Window(inserted) == inserted[start..]
    ensures |Window(inserted)| <= IDEMPOTENCY_CAPACITY
    ensures start > 0 ==> |Window(inserted)| == IDEMPOTENCY_CAPACITY
  {
    |inserted| - |Window(inserted)|
  }

  lemma {:induction false} WindowGrows<R>(inserted: seq<Entry<R>>, start: nat, e: Entry<R>)
    requires start <= |inserted| && |inserted| - start < IDEMPOTENCY_CAPACITY
    requires start == 0 || |inserted| - start == IDEMPOTENCY_CAPACITY - 1
    ensures Window(inserted + [e]) == inserted[start..] + [e]
  {}

  lemma {:induction false} StaysSpaced<R>(inserted: seq<Entry<R>>, e: Entry<R>)
    requires Spaced(inserted) && e.id !in Ids(Window(inserted))
    ensures Spaced(inserted + [e])
  {
    var all, from := inserted + [e], |inserted| - |Window(inserted)|;
    forall k | from <= k < |inserted| ensures inserted[k].id in Ids(Window(inserted)) {
      assert Ids(Window(inserted))[k - from] == inserted[k].id;
    }
  }

  lemma {:induction false} KnownIsTabulated<R>(entries: map<string, Cached<R>>, held: seq<Entry<R>>, id: string)
    requires Tabulates(entries, held)
    ensures Known(held, id) == if id in entries then Some(entries[id]) else None
  {}

  // Insertion k is among the last 1024 and carries this id.
  ghost predicate HeldAt<R>(inserted: seq<Entry<R>>, k: nat, id: string) {
    |inserted| - 1024 <= k < |inserted| && inserted[k].id == id
  }

  lemma {:induction false} KnownIsHeld<R>(inserted: seq<Entry<R>>, id: string)
    requires Spaced(inserted)
    ensures id in Ids(Window(inserted)) <==> exists k: nat :: HeldAt(inserted, k, id)
    ensures forall k: nat :: HeldAt(inserted, k, id) ==> Known(Window(inserted), id) == Some(inserted[k].cached)
    ensures (forall k: nat :: !HeldAt(inserted, k, id)) ==> Known(Window(inserted), id) == None
  {
    var held, from := Window(inserted), |inserted| - |Window(inserted)|;
    WindowIsDistinct(inserted);
    forall k: nat | HeldAt(inserted, k, id)
      ensures id in Ids(held) && Known(held, id) == Some(inserted[k].cached)
    {
      assert Ids(held)[k - from] == id;
      assert IndexOf(Ids(held), id) == k - from;
    }
    if id in Ids(held) {
      assert HeldAt(inserted, from + IndexOf(Ids(held), id), id);
    }
  }

  class IdempotencyStore<R(==)> {
    var entries: map<string, Cached<R>>
    var order: seq<string>
    // Every insertion since creation.
    ghost var inserted: seq<Entry<R>>

    ghost predicate Valid()
      reads this
    {
      && Spaced(inserted)
      && order == Ids(Window(inserted))
      && Tabulates(entries, Window(inserted))
    }

    constructor ()
      ensures Valid() && inserted == []
    {
      entries, order, inserted := map[], [], [];
    }

    method LookUp(id: string, target: string, body: seq<byte>) returns (r: Lookup<R>)
      requires Valid()
      ensures r == Answer(Known(Window(inserted), id), target, body)
      // The same input is replayed, other input refused; an id not among the last 1024 is not known.
      ensures forall k: nat :: HeldAt(inserted, k, id) ==>
                var c := inserted[k].cached;
                r == if c.target == target && c.body == body then Replay(c.response) else Conflict
      ensures (forall k: nat :: !HeldAt(inserted, k, id)) ==> r == Miss
    {
      KnownIsHeld(inserted, id);
      hide Known, Window, Spaced, HeldAt;
      KnownIsTabulated(entries, Window(inserted), id);
      if id in entries {
        var cached := entries[id];
        if cached.target == target && cached.body == body {
          return Replay(cached.response);
        }
        return Conflict;
      }
      return Miss;
    }

    // A held id keeps its first entry; a new one may push out the oldest.
    method Store(id: string, target: string, body: seq<byte>, response: R)
      requires Valid()
      modifies this
      ensures Valid()
      ensures inserted == Remembered(old(inserted), Entry(id, Cached(target, body, response)))
    {
      ghost var e := Entry(id, Cached(target, body, response));
      ghost var held := Window(inserted);
      hide Mirrors, Tabulates, Spaced, Window, Ids;
      WindowMirrors(entries, order, inserted);
      TableSize(entries, order, held);
      if id in entries {
        return;
      }
      StaysSpaced(inserted, e);
      ghost var start: nat := Start(inserted);
      while |entries| >= IDEMPOTENCY_CAPACITY
        invariant inserted == old(inserted)
        invariant start <= |inserted| && held == inserted[start..]
        invariant |held| == |entries| == |order| <= IDEMPOTENCY_CAPACITY
        invariant start == 0 || |held| >= IDEMPOTENCY_CAPACITY - 1
        invariant Mirrors(entries, order, held) && id !in order
        decreases |entries|
      {
        if order != [] {
          DropOldest(entries, order, held);
          var oldest := order[0];
          order := order[1..];
          entries := entries - {oldest};
          start := start + 1;
          assert held[1..] == inserted[start..];
          held := held[1..];
        }
      }
      AddNewest(entries, order, held, e);
      WindowGrows(inserted, start, e);
      order := order + [id];
      entries := entries[id := Cached(target, body, response)];
      inserted := inserted + [e];
      MirrorsWindow(entries, order, Window(inserted));
    }
  }

  lemma {:induction false} WindowMirrors<R>(entries: map<string, Cached<R>>, order: seq<string>,
                                            inserted: seq<Entry<R>>)
    requires Spaced(inserted) && order == Ids(Window(inserted)) && Tabulates(entries, Window(inserted))
    ensures Mirrors(entries, order, Window(inserted))
    ensures forall id :: id in entries <==> id in order
  {
    WindowIsDistinct(inserted);
  }

  lemma {:induction false} MirrorsWindow<R>(entries: map<string, Cached<R>>, order: seq<string>, held: seq<Entry<R>>)
    requires Mirrors(entries, order, held)
    ensures order == Ids(held) && Tabulates(entries, held)
  {}

  function Remembered<R>(inserted: seq<Entry<R>>, e: Entry<R>): seq<Entry<R>> {
    if e.id in Ids(Window(inserted)) then inserted else inserted + [e]
  }

  // An id among the last 1024 insertions is not inserted again, any other is.
  lemma {:induction false} RememberedIs<R>(inserted: seq<Entry<R>>, e: Entry<R>)
    requires Spaced(inserted)
    ensures Remembered(inserted, e) ==
            if exists k: nat :: HeldAt(inserted, k, e.id) then inserted else inserted + [e]
  {
    hide HeldAt, Known, Window, Ids;
    KnownIsHeld(inserted, e.id);
  }

  // --- the mutation route ---

  datatype Action = StartService | StopService | RestartService

  datatype Request = Request(id: Option<string>, target: string, body: seq<byte>)

  // What goes back to the caller: the control's own answer, or a refusal of the route.
  datatype Reply<R> = FromControl(response: R) | IdempotencyConflict | RouteNotFound

  // A mutation the control was asked for.
  datatype Mutation = Mutation(serviceId: string, action: Action)

  const SERVICES_PREFIX := "/v1/services/"

  function SplitOnSlash(s: string): (fields: seq<string>)
    ensures fields != []
    ensures forall f :: f in fields ==> '/' !in f
  {
    if s == "" then [""]
    else
      var rest := SplitOnSlash(s[1..]);
      if s[0] == '/' then [""] + rest else [[s[0]] + rest[0]] + rest[1..]
  }

  function Joined(fields: seq<string>): string
    requires fields != []
  {
    if |fields| == 1 then fields[0] else fields[0] + "/" + Joined(fields[1..])
  }

  lemma {:induction false} SplitJoins(s: string)
    ensures Joined(SplitOnSlash(s)) == s
  {
    if s != "" {
      SplitJoins(s[1..]);
      var rest := SplitOnSlash(s[1..]);
      if s[0] == '/' {
        assert ([""] + rest)[1..] == rest;
      } else {
        assert ([[s[0]] + rest[0]] + rest[1..])[1..] == rest[1..];
      }
    }
  }

  lemma {:induction false} SplitAtFirstSlash(field: string, rest: string)
    requires '/' !in field
    ensures SplitOnSlash(field) == [field]
    ensures SplitOnSlash(field + "/" + rest) == [field] + SplitOnSlash(rest)
  {
    if field == "" {
      assert ("/" + rest)[1..] == rest;
      assert field + "/" + rest == "/" + rest;
    } else {
      SplitAtFirstSlash(field[1..], rest);
      assert (field + "/" + rest)[1..] == field[1..] + "/" + rest;
      assert [field[0]] + field[1..] == field;
    }
  }

  function ActionNamed(name: string): Option<Action> {
    if name == "start" then Some(StartService)
    else if name == "stop" then Some(StopService)
    else if name == "restart" then Some(RestartService)
    else None
  }

  function NameOf(action: Action): string {
    match action case StartService => "start" case StopService => "stop" case RestartService => "restart"
  }

  function ParseMutationTarget(target: string): Option<Mutation> {
    if !(SERVICES_PREFIX <= target) then None
    else
      var fields := SplitOnSlash(target[|SERVICES_PREFIX|..]);
      if |fields| < 2 || ActionNamed(fields[1]).None? then None
      else if fields[0] == "" || |fields| > 2 then None
      else Some(Mutation(fields[0], ActionNamed(fields[1]).value))
  }

  // The route accepts exactly the targets of the documented shape.
  lemma {:induction false} ParsesExactly(target: string, m: Mutation)
    ensures ParseMutationTarget(target) == Some(m) <==>
            && m.serviceId != "" && '/' !in m.serviceId
            && target == "/v1/services/" + m.serviceId + "/" + match m.action
                                                             case StartService => "start"
                                                             case StopService => "stop"
                                                             case RestartService => "restart"
  {
    hide ParseMutationTarget;
    if ParseMutationTarget(target) == Some(m) {
      ParsedShape(target, m);
    }
    if m.serviceId != "" && '/' !in m.serviceId && target == SERVICES_PREFIX + m.serviceId + "/" + NameOf(m.action) {
      ShapeParses(target, m);
    }
  }

  lemma {:induction false} ParsedShape(target: string, m: Mutation)
    requires ParseMutationTarget(target) == Some(m)
    ensures m.serviceId != "" && '/' !in m.serviceId
    ensures target == SERVICES_PREFIX + m.serviceId + "/" + NameOf(m.action)
  {
    hide SplitOnSlash;
    var suffix := target[|SERVICES_PREFIX|..];
    SplitJoins(suffix);
    var fields := SplitOnSlash(suffix);
    assert Joined(fields[1..]) == fields[1] == NameOf(m.action);
    assert target == SERVICES_PREFIX + suffix;
  }

  lemma {:induction false} ShapeParses(target: string, m: Mutation)
    requires m.serviceId != "" && '/' !in m.serviceId
    requires target == SERVICES_PREFIX + m.serviceId + "/" + NameOf(m.action)
    ensures ParseMutationTarget(target) == Some(m)
  {
    hide SplitOnSlash;
    SplitAtFirstSlash(m.serviceId, NameOf(m.action));
    SplitAtFirstSlash(NameOf(m.action), "");
    assert target[|SERVICES_PREFIX|..] == m.serviceId + "/" + NameOf(m.action);
  }

  // What one request does to the history, given what the control would answer.
  datatype Handled<R> = Handled(reply: Reply<R>, mutation: Option<Mutation>, inserted: seq<Entry<R>>)

  // Targets outside the service routes never see the shared store.
  function Handle<R(==)>(inserted: seq<Entry<R>>, request: Request, control: R): Handled<R> {
    if SERVICES_PREFIX <= request.target then Routed(inserted, request, control)
    else Handled(RouteNotFound, None, inserted)
  }

  // A posted request is routed with the shared store if it names a service route, else with an empty
  // one that is thrown away.
  method HandlePost<R(==)>(idempotency: IdempotencyStore<R>, request: Request, control: R)
    returns (reply: Reply<R>, mutation: Option<Mutation>)
    requires idempotency.Valid()
    modifies idempotency
    ensures idempotency.Valid()
    ensures Handled(reply, mutation, idempotency.inserted) == Handle(old(idempotency.inserted), request, control)
    // Outside the service routes nothing is asked and nothing remembered.
    ensures !("/v1/services/" <= request.target) ==>
              reply == RouteNotFound && mutation == None && idempotency.inserted == old(idempotency.inserted)
    ensures "/v1/services/" <= request.target ==>
              RoutedRight(old(idempotency.inserted), request, control, reply, mutation, idempotency.inserted)
  {
    hide Tabulates, Spaced, ParseMutationTarget, Window, RoutedRight;
    if SERVICES_PREFIX <= request.target {
      reply, mutation := RouteMutation(idempotency, request, control);
    } else {
      var scratch := new IdempotencyStore<R>();
      reply, mutation := RouteMutation(scratch, request, control);
      NothingKnown<R>(request);
    }
  }

  lemma {:induction false} NothingKnown<R>(request: Request)
    ensures request.id.Some? ==> Known<R>(Window([]), request.id.value) == None
    ensures !(SERVICES_PREFIX <= request.target) ==> ParseMutationTarget(request.target) == None
  {}

  // What the mutation route does with the store it is given.
  function Routed<R(==)>(inserted: seq<Entry<R>>, request: Request, control: R): Handled<R> {
    var lookup := if request.id.None? then Miss
                  else Answer(Known(Window(inserted), request.id.value), request.target, request.body);
    match lookup
    case Replay(response) => Handled(FromControl(response), None, inserted)
    case Conflict => Handled(IdempotencyConflict, None, inserted)
    case Miss =>
      match ParseMutationTarget(request.target)
      case None => Handled(RouteNotFound, None, inserted)
      case Some(m) =>
        Handled(FromControl(control), Some(m),
                if request.id.None? then inserted
                else inserted + [Entry(request.id.value, Cached(request.target, request.body, control))])
  }

  // A request whose id is not held, or that has none, asks the control if it names a mutation, and is
  // remembered if it has an id; one whose id is held never asks.
  ghost predicate RoutedRight<R>(before: seq<Entry<R>>, request: Request, control: R, reply: Reply<R>,
                                 mutation: Option<Mutation>, after: seq<Entry<R>>)
  {
    && (request.id.None? || (forall k: nat :: !HeldAt(before, k, request.id.value)) ==>
          && mutation == ParseMutationTarget(request.target)
          && reply == (if mutation.Some? then FromControl(control) else RouteNotFound)
          && after == before + (if mutation.Some? && request.id.Some?
                                then [Entry(request.id.value, Cached(request.target, request.body, control))] else []))
    && (request.id.Some? ==> forall k: nat :: HeldAt(before, k, request.id.value) ==>
          var c := before[k].cached;
          && mutation == None && after == before
          && reply == if c.target == request.target && c.body == request.body then FromControl(c.response)
                      else IdempotencyConflict)
  }

  // `control` is what the control answers if it is asked; the second result is the mutation asked for.
  method RouteMutation<R(==)>(idempotency: IdempotencyStore<R>, request: Request, control: R)
    returns (reply: Reply<R>, mutation: Option<Mutation>)
    requires idempotency.Valid()
    modifies idempotency
    ensures idempotency.Valid()
    ensures Handled(reply, mutation, idempotency.inserted) == Routed(old(idempotency.inserted), request, control)
    ensures RoutedRight(old(idempotency.inserted), request, control, reply, mutation, idempotency.inserted)
  {
    hide Known, Window, Tabulates, Spaced, ParseMutationTarget, HeldAt;
    if request.id.Some? {
      KnownIsHeld(idempotency.inserted, request.id.value);
    }
    if request.id.Some? {
      var lookup := idempotency.LookUp(request.id.value, request.target, request.body);
      match lookup {
        case Replay(response) => return FromControl(response), None;
        case Conflict => return IdempotencyConflict, None;
        case Miss =>
      }
    }
    var parsed := ParseMutationTarget(request.target);
    if parsed.None? {
      return RouteNotFound, None;
    }
    if request.id.Some? {
      KnownIffHeld(Window(idempotency.inserted), request.id.value);
      idempotency.Store(request.id.value, request.target, request.body, control);
    }
    return FromControl(control), parsed;
  }

  lemma {:induction false} KnownIffHeld<R>(held: seq<Entry<R>>, id: string)
    ensures Known(held, id).Some? <==> id in Ids(held)
  {}

  // --- whole runs ---

  // Requests with the answers the control would give them.
  function HandleAll<R(==)>(inserted: seq<Entry<R>>, requests: seq<(Request, R)>): seq<Entry<R>>
    decreases |requests|
  {
    if requests == [] then inserted
    else HandleAll(Handle(inserted, requests[0].0, requests[0].1).inserted, requests[1..])
  }

  lemma {:induction false} HandleKeepsSpacing<R>(inserted: seq<Entry<R>>, request: Request, control: R)
    requires Spaced(inserted)
    ensures Spaced(Handle(inserted, request, control).inserted)
    ensures inserted <= Handle(inserted, request, control).inserted
  {
    hide ParseMutationTarget, Window;
    if request.id.Some? && request.id.value !in Ids(Window(inserted)) {
      StaysSpaced(inserted, Entry(request.id.value, Cached(request.target, request.body, control)));
    }
  }

  lemma {:induction false} RunKeepsSpacing<R>(inserted: seq<Entry<R>>, requests: seq<(Request, R)>)
    requires Spaced(inserted)
    ensures Spaced(HandleAll(inserted, requests))
    ensures inserted <= HandleAll(inserted, requests)
    decreases |requests|
  {
    if requests != [] {
      HandleKeepsSpacing(inserted, requests[0].0, requests[0].1);
      RunKeepsSpacing(Handle(inserted, requests[0].0, requests[0].1).inserted, requests[1..]);
    }
  }

  // An insertion is found again for exactly as long as fewer than the capacity came after it.
  lemma {:induction false} KnownForTheWindow<R>(inserted: seq<Entry<R>>, k: nat)
    requires Spaced(inserted) && k < |inserted|
    ensures |inserted| - k <= IDEMPOTENCY_CAPACITY ==>
              Known(Window(inserted), inserted[k].id) == Some(inserted[k].cached)
    ensures |inserted| - k > IDEMPOTENCY_CAPACITY && (forall l :: k < l < |inserted| ==>
            inserted[l].id != inserted[k].id) ==>
              Known(Window(inserted), inserted[k].id) == None
  {
    WindowIsDistinct(inserted);
    var held, from := Window(inserted), |inserted| - |Window(inserted)|;
    var id := inserted[k].id;
    if k >= from {
      assert Ids(held)[k - from] == id;
      assert IndexOf(Ids(held), id) == k - from;
    } else if id in Ids(held) {
      var i :| 0 <= i < |held| && Ids(held)[i] == id;
      assert inserted[from + i].id == id;
    }
  }

  // Over every run: a first answer is replayed, without asking the control again, to each repeat of the
  // same input, and other input to a service route under that id is refused, as long as fewer than the
  // capacity of other ids were stored since; after that, an id not reused since starts afresh.
  lemma {:induction false} RepeatsAreReplayed<R>(earlier: seq<(Request, R)>, first: (Request, R), between: seq<(Request,
                                                 R)>,
                                                 again: Request, control: R)
    requires first.0.id.Some? && again.id == first.0.id
    requires Handle(HandleAll([], earlier), first.0, first.1).mutation.Some?
    ensures var id := again.id.value;
            var start := Handle(HandleAll([], earlier), first.0, first.1).inserted;
            var now := HandleAll(start, between);
            var r := Handle(now, again, control);
            && start <= now
            && (|now| - |start| < IDEMPOTENCY_CAPACITY ==>
                  r == Handled(if again.target == first.0.target && again.body == first.0.body then FromControl(first.1)
                               else if SERVICES_PREFIX <= again.target then IdempotencyConflict
                                   else RouteNotFound, None, now))
            && (|now| - |start| >= IDEMPOTENCY_CAPACITY && id !in Ids(now[|start|..]) ==>
                  r.mutation == ParseMutationTarget(again.target))
  {
    var before := HandleAll([], earlier);
    var start := Handle(before, first.0, first.1).inserted;
    var now := HandleAll(start, between);
    RunKeepsSpacing([], earlier);
    HandleKeepsSpacing(before, first.0, first.1);
    RunKeepsSpacing(start, between);
    hide ParseMutationTarget, HandleAll, Window, Spaced;
    var k := |before|;
    assert start == before + [Entry(again.id.value, Cached(first.0.target, first.0.body, first.1))];
    assert now[k] == start[k];
    KnownForTheWindow(now, k);
    if again.id.value !in Ids(now[|start|..]) {
      forall l | k < l < |now| ensures now[l].id != now[k].id {
        assert Ids(now[|start|..])[l - |start|] == now[l].id;
      }
    }
  }
}
