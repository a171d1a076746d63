// What a reconnecting viewer misses: every selected line at or below its cursor is received, reported in
// a gap, left out of a replay, or orphaned by the end of a connection; and when exactly that happens.
module LiveLogCoverage {
  import opened Wrappers
  import opened Bytes
  import opened LiveLogs
  import opened LiveLogHub
  import opened LiveLogClient

  // --- the account of one viewer ---

  // Selected lines up to `limit` are received, lost or still due.
  ghost predicate Covers(published: seq<LogLine>, selection: Selection, received: seq<LogLine>, lost: set<nat>,
                         due: seq<LogLine>, limit: int) {
    forall x :: x in published && selection.Includes(x.stream) && x.sequence <= limit ==>
      x in received || x.sequence in lost || x in due
  }

  ghost predicate Apart(lines: seq<LogLine>, lost: set<nat>) {
    forall x :: x in lines ==> x.sequence !in lost
  }

  ghost predicate Within(lines: seq<LogLine>, limit: int) {
    forall x :: x in lines ==> x.sequence <= limit
  }

  // Gaps and ended connections are behind the cursor, the cursor behind the counter.
  ghost predicate Settled(cursor: Option<Cursor>, hub: string, limit: int, counter: nat, settled: set<nat>,
                          skipped: set<nat>) {
    && (Holds(cursor, hub) ==> cursor.value.sequence <= limit <= counter)
    && (forall n :: n in settled ==> AtOrBelow(cursor, hub, n))
    && (forall n :: n in skipped ==> n <= counter)
  }

  lemma {:induction false} LostBelow(cursor: Option<Cursor>, hub: string, limit: int, counter: nat, settled: set<nat>,
                                     skipped: set<nat>)
    requires Settled(cursor, hub, limit, counter, settled, skipped)
    ensures forall n :: n in settled + skipped ==> n <= counter
  {}

  lemma {:induction false} SameNumberSameLine(lines: seq<LogLine>, counter: nat, x: LogLine, y: LogLine)
    requires NumberedUpTo(lines, counter) && x in lines && y in lines && x.sequence == y.sequence
    ensures x == y
  {
    OneNumberOnePlace(lines, counter);
  }

  lemma {:induction false} OneNumberOnePlace(lines: seq<LogLine>, counter: nat)
    requires NumberedUpTo(lines, counter)
    ensures forall i, j :: 0 <= i < |lines| && 0 <= j < |lines| && lines[i].sequence == lines[j].sequence ==> i == j
  {}

  // New lines beyond the limit are nobody's business.
  lemma {:induction false} CoversBeyond(published: seq<LogLine>, selection: Selection, received: seq<LogLine>,
                                        lost: set<nat>,
                                        due: seq<LogLine>, limit: int, more: seq<LogLine>)
    requires Covers(published, selection, received, lost, due, limit)
    requires forall x :: x in more ==> x.sequence > limit
    ensures Covers(published + more, selection, received, lost, due, limit)
  {}

  lemma {:induction false} CoversOffered(published: seq<LogLine>, selection: Selection, received: seq<LogLine>,
                                         lost: set<nat>,
                                         due: seq<LogLine>, counter: nat, line: LogLine)
    requires Covers(published, selection, received, lost, due, counter) && NumberedUpTo(published, counter)
    requires line.sequence == counter + 1
    ensures Covers(published + [line], selection, received, lost,
                   due + if selection.Includes(line.stream) then [line] else [], counter + 1)
  {}

  // The limit of an account of numbered lines may be raised to the counter and beyond.
  lemma {:induction false} CoversRaise(published: seq<LogLine>, selection: Selection, received: seq<LogLine>,
                                       lost: set<nat>,
                                       due: seq<LogLine>, counter: nat, limit: int)
    requires Covers(published, selection, received, lost, due, counter) && NumberedUpTo(published, counter)
    ensures Covers(published, selection, received, lost, due, limit)
  {}

  // The first n due lines are delivered: one as itself, others in a gap.
  lemma {:induction false} CoversDelivery(published: seq<LogLine>, selection: Selection, received: seq<LogLine>,
                                          lost: set<nat>,
                                          due: seq<LogLine>, limit: int, n: nat)
    requires Covers(published, selection, received, lost, due, limit) && n <= |due|
    ensures Covers(published, selection, received + due[..n], lost, due[n..], limit)
    ensures Covers(published, selection, received, lost + Numbers(due[..n]), due[n..], limit)
  {
    assert due == due[..n] + due[n..];
    assert forall x :: x in due <==> x in due[..n] || x in due[n..];
  }

  lemma {:induction false} ApartDelivery(due: seq<LogLine>, counter: nat, n: nat, received: seq<LogLine>,
                                         lost: set<nat>)
    requires DueInOrder(due, received, counter) && Apart(due, lost) && Apart(received, lost) && n <= |due|
    ensures Apart(due[n..], lost) && Apart(received + due[..n], lost)
    ensures Apart(due[n..], lost + Numbers(due[..n])) && Apart(received, lost + Numbers(due[..n]))
  {
    EarlierNumbers(due, counter, n);
    forall x | x in due[..n] ensures x in due && LinesBelow(received, x.sequence) {}
    assert forall x :: x in due[n..] ==> x in due;
  }

  lemma {:induction false} EarlierNumbers(due: seq<LogLine>, counter: nat, n: nat)
    requires NumberedUpTo(due, counter) && n <= |due|
    ensures forall x, y :: x in due[..n] && y in due[n..] ==> x.sequence < y.sequence
  {
    forall x, y | x in due[..n] && y in due[n..] ensures x.sequence < y.sequence {
      var i :| 0 <= i < n && due[..n][i] == x;
      var j :| 0 <= j < |due| - n && due[n..][j] == y;
      assert due[i].sequence < due[n + j].sequence;
    }
  }

  // Due lines no longer asked for are lost when the connection ends.
  lemma {:induction false} CoversClosing(published: seq<LogLine>, selection: Selection, received: seq<LogLine>,
                                         lost: set<nat>,
                                         due: seq<LogLine>, limit: int, cursor: Option<Cursor>, hub: string,
                                             orphans: set<nat>)
    requires Covers(published, selection, received, lost, due, limit)
    requires orphans == set x | x in due && AtOrBelow(cursor, hub, x.sequence) :: x.sequence
    requires Holds(cursor, hub) ==> cursor.value.sequence <= limit
    ensures Covers(published, selection, received, lost + orphans, [], Floor(cursor, hub))
  {}

  // The last number a viewer with this cursor no longer asks for.
  function Floor(cursor: Option<Cursor>, hub: string): int {
    if Holds(cursor, hub) then cursor.value.sequence else -1
  }

  lemma {:induction false} CoversOpening(w: World, hub: string, selection: Selection, lost: set<nat>,
                                         replay: seq<LogLine>, now: set<nat>)
    requires Covers(w.published, selection, w.received, lost, [], Floor(w.cursor, hub)) &&
             NumberedUpTo(w.published, w.counter)
    requires forall x :: x in replay ==> x in w.published
    requires now >= (lost - Numbers(replay)) + LeftOut(w, hub, selection, replay)
    ensures Covers(w.published, selection, w.received, now, replay, w.counter)
  {
    forall x, y | x in w.published && y in replay && x.sequence == y.sequence ensures x == y {
      SameNumberSameLine(w.published, w.counter, x, y);
    }
  }

  lemma {:induction false} ApartOpening(w: World, hub: string, selection: Selection, replay: seq<LogLine>)
    requires Apart(w.received, Lost(w)) && NumberedUpTo(w.published, w.counter)
    requires forall x :: x in w.received ==> AtOrBelow(w.cursor, hub, x.sequence)
    requires forall n :: n in w.reported + w.orphaned ==> AtOrBelow(w.cursor, hub, n)
    requires forall x :: x in replay ==> x in w.published && !AtOrBelow(w.cursor, hub, x.sequence)
    ensures var lost := w.reported + ((w.skipped - Numbers(replay)) + LeftOut(w, hub, selection, replay)) + w.orphaned;
            Apart(w.received, lost) && Apart(replay, lost)
  {
    forall x, y | x in w.published && y in replay && x.sequence == y.sequence ensures x == y {
      SameNumberSameLine(w.published, w.counter, x, y);
    }
  }

  // --- the account of a world ---

  function DueOf(w: World): seq<LogLine> {
    if w.connection.Some? then Due(w.connection.value) else []
  }

  // The last number the account covers: a removed service owes nothing after its removal, and a viewer
  // without a connection has heard of nothing after its cursor.
  function Limit(w: World, hub: string): int {
    if w.connection.None? then Floor(w.cursor, hub)
    else if w.connection.value.detachedAt.Some? then w.connection.value.detachedAt.value
    else w.counter
  }

  ghost predicate Fitting(w: World, hub: string, selection: Selection) {
    w.connection.Some? ==>
      var c := w.connection.value;
      && c.subscriber.selection == selection
      && Limit(w, hub) <= w.counter
      && (c.detachedAt.None? ==> w.registered)
      && (c.initial != [] && c.initial[0].HubReset? ==> c.initial[0].sequence <= Limit(w, hub))
  }

  ghost predicate Complete(w: World, hub: string, selection: Selection) {
    && InOrder(w, hub)
    && Fitting(w, hub, selection)
    && Within(DueOf(w), Limit(w, hub))
    && Settled(w.cursor, hub, Limit(w, hub), w.counter, w.reported + w.orphaned, w.skipped)
    && Apart(w.received, Lost(w)) && Apart(DueOf(w), Lost(w))
    && Covers(w.published, selection, w.received, Lost(w), DueOf(w), Limit(w, hub))
  }

  lemma {:induction false} OrderFacts(w: World, hub: string)
    requires InOrder(w, hub)
    ensures NumberedUpTo(w.published, w.counter)
    ensures ReceivedInOrder(w.received, w.counter, w.cursor, hub)
    ensures DueInOrder(DueOf(w), w.received, w.counter)
    ensures w.connection.Some? ==> ConnectionValid(w.connection.value)
  {
    hide Due, ConnectionValid;
  }

  // --- every step keeps it ---

  lemma {:induction false} CompleteOnOther(w: World, hub: string, selection: Selection)
    requires Complete(w, hub, selection)
    ensures Complete(Next(w, hub, OtherServicePublishes), hub, selection)
  {
    hide InOrder, Due, NumberedUpTo, Covers;
    OrderFacts(w, hub);
    StaysInOrder(w, hub, OtherServicePublishes);
    if Limit(w, hub) == w.counter {
      CoversRaise(w.published, selection, w.received, Lost(w), DueOf(w), w.counter, w.counter + 1);
    }
  }

  lemma {:induction false} CompleteOnSecondTry(w: World, hub: string, selection: Selection)
    requires Complete(w, hub, selection)
    ensures Complete(Next(w, hub, SecondTry), hub, selection)
  {
    hide InOrder, Due, Covers, Apart, ConnectionValid;
    StaysInOrder(w, hub, SecondTry);
    OrderFacts(w, hub);
    if w.connection.Some? { RetriedOwesSame(w.connection.value); }
  }

  lemma {:induction false} CompleteOnUnregister(w: World, hub: string, selection: Selection)
    requires Complete(w, hub, selection)
    ensures Complete(Next(w, hub, Unregister), hub, selection)
  {
    hide InOrder, Due, Covers, Apart, ConnectionValid;
    StaysInOrder(w, hub, Unregister);
    if w.connection.Some? {
      SameDue(w.connection.value, w.connection.value.(detachedAt := Some(w.counter), behind := None));
    }
  }

  lemma {:induction false} CompleteOnRegister(w: World, hub: string, selection: Selection, content: seq<(Stream,
                                              seq<byte>)>)
    requires Complete(w, hub, selection)
    ensures Complete(Next(w, hub, Register(content)), hub, selection)
  {
    hide InOrder, Due, Covers, Apart, SameContent;
    StaysInOrder(w, hub, Register(content));
    if !w.registered {
      CoversBeyond(w.published, selection, w.received, Lost(w), DueOf(w), Limit(w, hub), Loaded(w.counter, content));
    }
  }

  lemma {:induction false} CompleteOnPublish(w: World, hub: string, selection: Selection, line: LogLine)
    requires Complete(w, hub, selection) && w.registered && line.sequence == w.counter + 1
    ensures Complete(Next(w, hub, Publish(line.stream, line.text)), hub, selection)
  {
    hide InOrder, Due, Covers, Offered, ConnectionValid, NumberedUpTo;
    StaysInOrder(w, hub, Publish(line.stream, line.text));
    OrderFacts(w, hub);
    LostBelow(w.cursor, hub, Limit(w, hub), w.counter, w.reported + w.orphaned, w.skipped);
    assert line == LogLine(w.counter + 1, line.stream, line.text);
    if w.connection.Some? && w.connection.value.detachedAt.None? {
      OfferedIsDue(w.connection.value, line);
      CoversOffered(w.published, selection, w.received, Lost(w), DueOf(w), w.counter, line);
    } else {
      OfferedLate(w, line);
      CoversBeyond(w.published, selection, w.received, Lost(w), DueOf(w), Limit(w, hub), [line]);
    }
  }

  lemma {:induction false} OfferedLate(w: World, line: LogLine)
    requires w.connection.Some? ==> w.connection.value.detachedAt.Some?
    ensures w.connection.Some? ==> Offered(w.connection.value, line) == w.connection
  {}

  lemma {:induction false} CompleteOnClose(w: World, hub: string, selection: Selection)
    requires Complete(w, hub, selection)
    ensures Complete(Closed(w, hub), hub, selection)
  {
    hide InOrder, Due, Covers;
    StaysInOrder(w, hub, Hangup);
    OrderFacts(w, hub);
    if w.connection.Some? {
      var due := DueOf(w);
      var orphans := set x | x in due && AtOrBelow(w.cursor, hub, x.sequence) :: x.sequence;
      CoversClosing(w.published, selection, w.received, Lost(w), due, Limit(w, hub), w.cursor, hub, orphans);
      ReceivedApart(due, w.received, w.counter, orphans);
      assert Lost(Closed(w, hub)) == Lost(w) + orphans;
    }
  }

  lemma {:induction false} ReceivedApart(due: seq<LogLine>, received: seq<LogLine>, counter: nat, orphans: set<nat>)
    requires DueInOrder(due, received, counter) && orphans <= Numbers(due)
    ensures Apart(received, orphans)
  {
    forall x, y | x in received && y in due ensures x.sequence < y.sequence {
      assert LinesBelow(received, y.sequence);
    }
  }

  lemma {:induction false} CompleteOnOpen(w: World, hub: string, selection: Selection, tail: nat)
    requires Complete(w, hub, selection) && w.connection.None?
    ensures Complete(Opened(w, hub, selection, tail), hub, selection)
  {
    hide InOrder, Due, Covers, Apart, NumberedUpTo, ConnectionValid, InitialLines, Retained, Initial, LinesIn, LeftOut,
        Numbers;
    OrderOnOpen(w, hub, selection, tail);
    OrderFacts(w, hub);
    if w.registered {
      OpenedOwes(w, hub, selection, tail);
      var n := Opened(w, hub, selection, tail);
      var replay := DueOf(n);
      NumberedBelow(replay, w.counter);
      ApartOpening(w, hub, selection, replay);
      CoversOpening(w, hub, selection, Lost(w), replay, Lost(n));
      LeftOutBelow(w, hub, selection, replay);
    }
  }

  lemma {:induction false} NumberedBelow(lines: seq<LogLine>, counter: nat)
    requires NumberedUpTo(lines, counter)
    ensures Within(lines, counter)
  {}

  lemma {:induction false} LeftOutBelow(w: World, hub: string, selection: Selection, replay: seq<LogLine>)
    requires NumberedUpTo(w.published, w.counter)
    ensures forall n :: n in LeftOut(w, hub, selection, replay) ==> n <= w.counter
  {}

  // Delivering the first n due lines: one as itself, several in a gap, none for a reset.
  ghost predicate Delivers(due: seq<LogLine>, event: Event, n: nat) {
    && n <= |due|
    && match event
       case Line(line) => n == 1 && line == due[0]
       case Gap(sequence, dropped) => n == dropped && n < |due| && due[n].sequence == sequence
       case HubReset(_, _) => n == 0
       case Heartbeat => false
  }

  lemma {:induction false} CompleteOnEvent(w: World, hub: string, selection: Selection, d: Connection, event: Event,
                                           n: nat, v: World)
    requires Complete(w, hub, selection) && w.connection.Some? && InOrder(v, hub)
    requires Delivers(DueOf(w), event, n) && Due(d) == DueOf(w)[n..]
    requires d.subscriber.selection == selection && d.detachedAt == w.connection.value.detachedAt
    requires d.initial != [] ==> !d.initial[0].HubReset?
    requires event.HubReset? ==> event.sequence <= Limit(w, hub)
    requires v == Got(w.(connection := Some(d), reported := w.reported + if event.Gap? then Numbers(DueOf(w)[..n])
             else {}), hub, event)
    ensures Complete(v, hub, selection)
  {
    hide InOrder, Due, Covers, NumberedUpTo, Numbers, DueInOrder, Apart;
    OrderFacts(w, hub);
    var due := DueOf(w);
    ApartDelivery(due, w.counter, n, w.received, Lost(w));
    CoversDelivery(w.published, selection, w.received, Lost(w), due, Limit(w, hub), n);
    if event.Gap? {
      assert Lost(v) == Lost(w) + Numbers(due[..n]);
      GapNumbers(due, w.received, w.counter, n);
      assert due[n] in due;
    } else {
      assert Lost(v) == Lost(w);
      assert due[..n] == if event.Line? then [due[0]] else [];
      assert w.received + [] == w.received;
    }
  }

  lemma {:induction false} GapNumbers(due: seq<LogLine>, received: seq<LogLine>, counter: nat, n: nat)
    requires DueInOrder(due, received, counter) && n < |due|
    ensures forall k :: k in Numbers(due[..n]) ==> k <= due[n].sequence
  {
    EarlierNumbers(due, counter, n);
    assert due[n] in due[n..];
  }

  lemma {:induction false} CompleteOnReceive(w: World, hub: string, selection: Selection, c: Connection)
    requires Complete(w, hub, selection) && w.connection == Some(c)
    ensures Complete(Received(w, hub, c), hub, selection)
  {
    hide InOrder, Due, Ahead, LinesIn, Covers, Apart, Settled, Within, ConnectionValid, Numbers;
    OrderOnReceive(w, hub, c);
    OrderFacts(w, hub);
    TakenInRange(c);
    var v := Received(w, hub, c);
    if c.initial != [] {
      ReplayIsDue(c);
      ResetIsFirst(c);
      CompleteOnEvent(w, hub, selection, v.connection.value, c.initial[0], if c.initial[0].Line? then 1 else 0, v);
    } else if c.subscriber.channel.taken < |c.subscriber.channel.sent| {
      ChannelIsDue(c);
      var event := c.subscriber.channel.sent[c.subscriber.channel.taken];
      CompleteOnEvent(w, hub, selection, Taken(c), event, if event.Line? then 1 else event.dropped, v);
    }
  }

  lemma {:induction false} ResetIsFirst(c: Connection)
    requires ConnectionValid(c) && c.initial != []
    ensures c.initial[1..] != [] ==> !c.initial[1..][0].HubReset?
    ensures c.initial[0].Line? || c.initial[0].HubReset?
  {}

  // The viewer asks for the same streams every time it connects.
  predicate Selects(step: Step, selection: Selection) {
    step.Connect? ==> step.selection == selection
  }

  lemma {:induction false} StaysComplete(w: World, hub: string, selection: Selection, step: Step)
    requires Complete(w, hub, selection) && Selects(step, selection)
    ensures Complete(Next(w, hub, step), hub, selection)
  {
    hide Complete;
    match step {
      case OtherServicePublishes => CompleteOnOther(w, hub, selection);
      case Publish(stream, text) =>
        if w.registered { CompleteOnPublish(w, hub, selection, LogLine(w.counter + 1, stream, text)); }
      case SecondTry => CompleteOnSecondTry(w, hub, selection);
      case Unregister => CompleteOnUnregister(w, hub, selection);
      case Register(content) => CompleteOnRegister(w, hub, selection, content);
      case Connect(_, tail) =>
        CompleteOnClose(w, hub, selection);
        CompleteOnOpen(Closed(w, hub), hub, selection, tail);
      case Receive =>
        if w.connection.Some? { CompleteOnReceive(w, hub, selection, w.connection.value); }
      case ReceiveHeartbeat =>
      case Hangup => CompleteOnClose(w, hub, selection);
    }
  }

  // --- whole runs ---

  predicate AllSelect(steps: seq<Step>, selection: Selection) {
    forall i :: 0 <= i < |steps| ==> Selects(steps[i], selection)
  }

  lemma {:induction false} RunStaysComplete(w: World, hub: string, selection: Selection, steps: seq<Step>)
    requires Complete(w, hub, selection) && AllSelect(steps, selection)
    ensures Complete(Run(w, hub, steps), hub, selection)
    decreases |steps|
  {
    hide Complete, Next;
    if steps != [] {
      StaysComplete(w, hub, selection, steps[0]);
      RunStaysComplete(Next(w, hub, steps[0]), hub, selection, steps[1..]);
    }
  }

  lemma {:induction false} StartsComplete(hub: string, selection: Selection, cursor: Option<Cursor>, registered: bool,
                                          published: seq<LogLine>, start: nat, counter: nat)
    requires NumberedUpTo(published, counter) && !Holds(cursor, hub)
    ensures Complete(Watching(counter, registered, published, start, cursor), hub, selection)
  {}

  // For a viewer that starts without a cursor of this hub and keeps asking for the same streams: whatever
  // happens, a selected line at or below its cursor that is not due any more was received exactly if its
  // number is not among those reported in gaps, left out of replays, or orphaned.
  lemma {:induction false} EveryLineIsAccountedFor(hub: string, selection: Selection, cursor: Option<Cursor>,
                                                   registered: bool,
                                                   published: seq<LogLine>, start: nat, counter: nat, steps: seq<Step>,
                                                       x: LogLine)
    requires NumberedUpTo(published, counter) && !Holds(cursor, hub) && AllSelect(steps, selection)
    requires var w := Run(Watching(counter, registered, published, start, cursor), hub, steps);
             x in w.published && selection.Includes(x.stream) && AtOrBelow(w.cursor, hub, x.sequence)
    ensures var w := Run(Watching(counter, registered, published, start, cursor), hub, steps);
            if x in DueOf(w) then x !in w.received && x.sequence !in w.reported + w.skipped + w.orphaned
            else x in w.received <==> x.sequence !in w.reported + w.skipped + w.orphaned
  {
    var w0 := Watching(counter, registered, published, start, cursor);
    StartsComplete(hub, selection, cursor, registered, published, start, counter);
    RunStaysComplete(w0, hub, selection, steps);
    var w := Run(w0, hub, steps);
    hide Run, InOrder, Due;
    OrderFacts(w, hub);
    assert x in DueOf(w) && x in w.received ==> LinesBelow(w.received, x.sequence);
  }

  // --- what ends up orphaned ---

  // The last entry received from the channel was a gap; the line that triggered it is still due.
  predicate AfterGap(c: Connection) {
    && 0 < c.subscriber.channel.taken <= |c.subscriber.channel.sent|
    && c.subscriber.channel.sent[c.subscriber.channel.taken - 1].Gap?
  }

  // How many due lines the cursor has already passed.
  function Overdue(c: Connection): nat {
    if c.initial != [] then (if c.reset then |LinesIn(c.initial)| else 0)
    else if AfterGap(c) then 1 else 0
  }

  ghost predicate PassedUpTo(due: seq<LogLine>, cursor: Option<Cursor>, hub: string, m: nat) {
    forall k :: 0 <= k < |due| ==> (AtOrBelow(cursor, hub, due[k].sequence) <==> k < m)
  }

  // A reset still to be received names a number between the replay and everything after it.
  ghost predicate ResetAhead(c: Connection, cursor: Option<Cursor>, hub: string, counter: nat) {
    c.initial != [] && c.initial[0].HubReset? ==>
      && !Holds(cursor, hub)
      && c.initial[0].sequence <= counter
      && (forall k :: 0 <= k < |Due(c)| ==> (k < |LinesIn(c.initial)| <==> Due(c)[k].sequence <= c.initial[0].sequence))
  }

  ghost predicate Caused(w: World, hub: string) {
    w.connection.Some? ==>
      var c := w.connection.value;
      PassedUpTo(Due(c), w.cursor, hub, Overdue(c)) && ResetAhead(c, w.cursor, hub, w.counter)
  }

  lemma {:induction false} OverdueIsDue(c: Connection)
    requires ConnectionValid(c)
    ensures Overdue(c) <= |Due(c)| && |LinesIn(c.initial)| <= |Due(c)|
  {
    if c.initial == [] && AfterGap(c) {
      var sent, last := c.subscriber.channel.sent, c.subscriber.channel.taken - 1;
      assert EntryInPlace(Coming(c), sent, last);
      assert sent[..last + 1] == sent[..last] + [sent[last]];
      CoveredSnoc(sent[..last], sent[last]);
      hide Accounts, Matching, Covered;
      PositionInRange(c);
    }
  }

  lemma {:induction false} CausedOnPublish(w: World, hub: string, selection: Selection, line: LogLine)
    requires Complete(w, hub, selection) && Caused(w, hub) && w.registered && line.sequence == w.counter + 1
    ensures Caused(Next(w, hub, Publish(line.stream, line.text)), hub)
  {
    hide InOrder, Due, LinesIn, Overdue, ConnectionValid, Covers, Apart, Offered;
    OrderFacts(w, hub);
    assert line == LogLine(w.counter + 1, line.stream, line.text);
    if w.connection.Some? {
      var c := w.connection.value;
      OverdueIsDue(c);
      if c.detachedAt.None? {
        OfferedIsDue(c, line);
        SameOverdue(c, line);
      } else {
        OfferedLate(w, line);
      }
    }
  }

  lemma {:induction false} SameOverdue(c: Connection, line: LogLine)
    requires ConnectionValid(c) && c.detachedAt.None?
    ensures Offered(c, line).Some? && Overdue(Offered(c, line).value) == Overdue(c)
  {
    OfferExtends(c.subscriber, line);
    hide Offer, LinesIn, Accounts;
  }

  lemma {:induction false} CausedOnOpen(w: World, hub: string, selection: Selection, tail: nat)
    requires Complete(w, hub, selection) && w.connection.None?
    ensures Caused(Opened(w, hub, selection, tail), hub)
  {
    hide InOrder, Due, ConnectionValid, InitialLines, Retained, Initial, LinesIn, LeftOut, Covers, Apart;
    OrderFacts(w, hub);
    if w.registered {
      OpenedOwes(w, hub, selection, tail);
      NumberedBelow(Due(Opened(w, hub, selection, tail).connection.value), w.counter);
    }
  }

  lemma {:induction false} CausedOnReplay(w: World, hub: string, selection: Selection, c: Connection)
    requires Complete(w, hub, selection) && Caused(w, hub) && w.connection == Some(c) && c.initial != []
    ensures Caused(Received(w, hub, c), hub)
  {
    hide InOrder, Due, ConnectionValid, Covers, Apart, Settled, Within, LinesIn;
    OrderFacts(w, hub);
    ReplayIsDue(c);
    ResetIsFirst(c);
    ReplayFirst(c);
    var d := Received(w, hub, c).connection.value;
    DueRises(Due(c), w.received, w.counter);
    assert !AfterGap(d);
    assert Overdue(d) == if d.reset then |LinesIn(d.initial)| else 0;
  }

  lemma {:induction false} ReplayFirst(c: Connection)
    requires c.initial != [] && ConnectionValid(c)
    ensures |LinesIn(c.initial)| == |LinesIn(c.initial[1..])| + if c.initial[0].Line? then 1 else 0
    ensures c.initial[1..] == [] ==> LinesIn(c.initial[1..]) == []
    ensures c.subscriber.channel.taken == 0
  {}

  lemma {:induction false} DueRises(due: seq<LogLine>, received: seq<LogLine>, counter: nat)
    requires DueInOrder(due, received, counter)
    ensures forall i, j :: 0 <= i < j < |due| ==> due[i].sequence < due[j].sequence
  {}

  lemma {:induction false} CausedOnChannel(w: World, hub: string, selection: Selection, c: Connection)
    requires Complete(w, hub, selection) && Caused(w, hub) && w.connection == Some(c) && c.initial == []
    requires c.subscriber.channel.taken < |c.subscriber.channel.sent|
    ensures Caused(Received(w, hub, c), hub)
  {
    hide InOrder, Due, ConnectionValid, Covers, Apart, Settled, Within, Ahead;
    OrderFacts(w, hub);
    ChannelIsDue(c);
    DueRises(Due(c), w.received, w.counter);
  }

  lemma {:induction false} StaysCaused(w: World, hub: string, selection: Selection, step: Step)
    requires Complete(w, hub, selection) && Caused(w, hub) && Selects(step, selection)
    ensures Caused(Next(w, hub, step), hub)
  {
    hide Complete, Due, LinesIn, Initial, Retained;
    match step {
      case OtherServicePublishes =>
      case Publish(stream, text) =>
        if w.registered { CausedOnPublish(w, hub, selection, LogLine(w.counter + 1, stream, text)); }
      case SecondTry => CausedOnSecondTry(w, hub, selection);
      case Unregister =>
        if w.connection.Some? { DetachedOverdue(w.connection.value, Some(w.counter)); }
      case Register(content) =>
      case Connect(_, tail) =>
        CompleteOnClose(w, hub, selection);
        CausedOnOpen(Closed(w, hub), hub, selection, tail);
      case Receive =>
        if w.connection.Some? { CausedOnReceive(w, hub, selection, w.connection.value); }
      case ReceiveHeartbeat =>
      case Hangup =>
    }
  }

  lemma {:induction false} DetachedOverdue(c: Connection, at: Option<nat>)
    ensures var d := c.(detachedAt := at, behind := None); Due(d) == Due(c) && Overdue(d) == Overdue(c)
  {
    SameDue(c, c.(detachedAt := at, behind := None));
    hide Due, LinesIn, ConnectionValid;
  }

  lemma {:induction false} CausedOnSecondTry(w: World, hub: string, selection: Selection)
    requires Complete(w, hub, selection) && Caused(w, hub)
    ensures Caused(Next(w, hub, SecondTry), hub)
  {
    hide InOrder, Due, ConnectionValid, Covers, Apart, LinesIn;
    OrderFacts(w, hub);
    if w.connection.Some? {
      var c := w.connection.value;
      RetriedOwesSame(c);
      TakenInRange(c);
      assert AfterGap(Retried(c)) == AfterGap(c);
    }
  }

  lemma {:induction false} CausedOnReceive(w: World, hub: string, selection: Selection, c: Connection)
    requires Complete(w, hub, selection) && Caused(w, hub) && w.connection == Some(c)
    ensures Caused(Received(w, hub, c), hub)
  {
    if c.initial != [] {
      CausedOnReplay(w, hub, selection, c);
    } else if c.subscriber.channel.taken < |c.subscriber.channel.sent| {
      CausedOnChannel(w, hub, selection, c);
    }
  }

  lemma {:induction false} RunStaysCaused(w: World, hub: string, selection: Selection, steps: seq<Step>)
    requires Complete(w, hub, selection) && Caused(w, hub) && AllSelect(steps, selection)
    ensures Caused(Run(w, hub, steps), hub)
    decreases |steps|
  {
    hide Complete, Caused, Next;
    if steps != [] {
      StaysComplete(w, hub, selection, steps[0]);
      StaysCaused(w, hub, selection, steps[0]);
      RunStaysCaused(Next(w, hub, steps[0]), hub, selection, steps[1..]);
    }
  }

  // Ending a connection orphans exactly: the replay lines still due if its hub reset was received already,
  // or the one line behind a gap if that gap was the last entry received; and nothing otherwise.
  lemma {:induction false} ClosingOrphansExactly(hub: string, selection: Selection, cursor: Option<Cursor>,
                                                 registered: bool,
                                                 published: seq<LogLine>, start: nat, counter: nat, steps: seq<Step>)
    requires NumberedUpTo(published, counter) && !Holds(cursor, hub) && AllSelect(steps, selection)
    ensures var w := Run(Watching(counter, registered, published, start, cursor), hub, steps);
            w.connection.Some? ==>
              var c := w.connection.value;
              && Overdue(c) <= |Due(c)|
              && Closed(w, hub).orphaned == w.orphaned + Numbers(Due(c)[..Overdue(c)])
  {
    var w0 := Watching(counter, registered, published, start, cursor);
    StartsComplete(hub, selection, cursor, registered, published, start, counter);
    RunStaysComplete(w0, hub, selection, steps);
    RunStaysCaused(w0, hub, selection, steps);
    var w := Run(w0, hub, steps);
    hide Run, InOrder, Due, Overdue, ConnectionValid;
    OrderFacts(w, hub);
    if w.connection.Some? {
      var c := w.connection.value;
      OverdueIsDue(c);
      PassedNumbers(Due(c), w.cursor, hub, Overdue(c));
    }
  }

  lemma {:induction false} PassedNumbers(due: seq<LogLine>, cursor: Option<Cursor>, hub: string, m: nat)
    requires PassedUpTo(due, cursor, hub, m) && m <= |due|
    ensures (set x | x in due && AtOrBelow(cursor, hub, x.sequence) :: x.sequence) == Numbers(due[..m])
  {
    forall x ensures x in due[..m] <==> x in due && AtOrBelow(cursor, hub, x.sequence) {
      if x in due && AtOrBelow(cursor, hub, x.sequence) {
        var k :| 0 <= k < |due| && due[k] == x;
        assert due[..m][k] == x;
      }
      if x in due[..m] {
        var k :| 0 <= k < m && due[..m][k] == x;
        assert due[k] == x;
      }
    }
  }

  // Resuming at this hub leaves out exactly the lines after the cursor that the ring no longer holds.
  lemma {:induction false} ResumingLeavesOut(w: World, hub: string, selection: Selection, tail: nat, n: nat)
    requires InOrder(w, hub) && w.connection.None? && w.registered && Holds(w.cursor, hub)
    ensures n in LeftOut(w, hub, selection, LinesIn(Opened(w, hub, selection, tail).connection.value.initial)) <==>
              exists x :: x in w.published && x !in Retained(Pushed(w)) && selection.Includes(x.stream)
                          && x.sequence == n && n > w.cursor.value.sequence
  {
    OpenedOwes(w, hub, selection, tail);
    RetainedOfPublished(w);
    NumberedIncreases(Retained(Pushed(w)), w.counter);
    InitialLinesAreRight(hub, selection, tail, w.cursor, Retained(Pushed(w)));
    hide InitialLines, Retained, Initial, LinesIn, Due, InOrder;
  }
}
