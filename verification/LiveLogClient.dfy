// A log viewer that reconnects: src/cli.rs (`advance_live_log_cursor` and the loop around it) against
// one service of the hub, which may be removed and registered again. The hub side uses the functions
// that LiveLogs and LiveLogHub prove their methods compute.
module LiveLogClient {
  import opened Wrappers
  import opened Bytes
  import opened LiveLogs
  import opened LiveLogHub

  // --- the cursor ---

  function SequenceOf(event: Event): Option<nat> {
    match event
    case Line(line) => Some(line.sequence)
    case Gap(sequence, _) => Some(sequence)
    case HubReset(sequence, _) => Some(sequence)
    case Heartbeat => None
  }

  function Advanced(cursor: Option<Cursor>, hub: string, event: Event): Option<Cursor> {
    match SequenceOf(event)
    case None => cursor
    case Some(n) => Some(Cursor(hub, if Holds(cursor, hub) &&
        cursor.value.sequence > n then cursor.value.sequence else n))
  }

  predicate Holds(cursor: Option<Cursor>, hub: string) {
    cursor.Some? && cursor.value.hub == hub
  }

  // A viewer resuming from this cursor does not ask for number n.
  predicate AtOrBelow(cursor: Option<Cursor>, hub: string, n: nat) {
    Holds(cursor, hub) && n <= cursor.value.sequence
  }

  // An event of `hub` moves the cursor to that hub and never back: exactly the numbers up to the
  // event's own are newly at or below it.
  method AdvanceLiveLogCursor(cursor: Option<Cursor>, hub: string, event: Event) returns (r: Option<Cursor>)
    ensures r == Advanced(cursor, hub, event)
    ensures forall n: nat :: AtOrBelow(r, hub, n) <==>
              AtOrBelow(cursor, hub, n) || (SequenceOf(event).Some? && n <= SequenceOf(event).value)
    ensures event.Heartbeat? ==> r == cursor
    ensures !event.Heartbeat? ==>
              var n := match event case Line(line) => line.sequence case Gap(n, _) => n case HubReset(n, _) => n;
              r == Some(Cursor(hub, if cursor.Some? && cursor.value.hub == hub && cursor.value.sequence > n
                                    then cursor.value.sequence else n))
  {
    var sequence := SequenceOf(event);
    if sequence.None? {
      return cursor;
    }
    if cursor.Some? && cursor.value.hub == hub {
      return Some(cursor.value.(sequence := if cursor.value.sequence > sequence.value then cursor.value.sequence
          else sequence.value));
    }
    return Some(Cursor(hub, sequence.value));
  }

  function Folded(cursor: Option<Cursor>, hub: string, events: seq<Event>): Option<Cursor>
    decreases |events|
  {
    if events == [] then cursor else Folded(Advanced(cursor, hub, events[0]), hub, events[1..])
  }

  ghost predicate NumberSeen(events: seq<Event>, n: nat) {
    exists i :: 0 <= i < |events| && SequenceOf(events[i]).Some? && n <= SequenceOf(events[i]).value
  }

  lemma {:induction false} SeenFirst(events: seq<Event>, n: nat)
    requires events != []
    ensures NumberSeen(events, n) <==>
              (SequenceOf(events[0]).Some? && n <= SequenceOf(events[0]).value) || NumberSeen(events[1..], n)
  {
    var rest := events[1..];
    if NumberSeen(rest, n) {
      var i :| 0 <= i < |rest| && SequenceOf(rest[i]).Some? && n <= SequenceOf(rest[i]).value;
      assert events[i + 1] == rest[i];
    }
    if NumberSeen(events, n) {
      var i :| 0 <= i < |events| && SequenceOf(events[i]).Some? && n <= SequenceOf(events[i]).value;
      assert i > 0 ==> rest[i - 1] == events[i];
    }
  }

  // Over any events of one hub the cursor never moves back and ends at the largest number seen there,
  // its own included.
  lemma {:induction false} CursorIsLargest(cursor: Option<Cursor>, hub: string, events: seq<Event>, n: nat)
    ensures AtOrBelow(Folded(cursor, hub, events), hub, n) <==> AtOrBelow(cursor, hub, n) || NumberSeen(events, n)
    decreases |events|
  {
    if events != [] {
      CursorIsLargest(Advanced(cursor, hub, events[0]), hub, events[1..], n);
      SeenFirst(events, n);
    }
  }

  // --- the viewer, the service and the connection between them ---

  // An open connection: replay still to be written, then the subscriber's channel. `offered` are the
  // lines published to it; `detachedAt` is set once the service has been removed under it; `reset` says
  // that a hub reset was received on it. `behind` is a line whose gap just took the last free place: the
  // publisher is about to try the line itself, and the receiver may make room before it does.
  datatype Connection = Connection(initial: seq<Event>, subscriber: Subscriber, offered: seq<LogLine>,
                                   detachedAt: Option<nat>, reset: bool, behind: Option<LogLine>)

  datatype World = World(
    counter: nat,
    registered: bool,
    published: seq<LogLine>,  // every line the service was ever given a number for
    start: nat,               // where those of the present registration begin
    connection: Option<Connection>,
    cursor: Option<Cursor>,
    received: seq<LogLine>,
    reported: set<nat>,       // numbers covered by received gaps
    skipped: set<nat>,        // numbers that replays left out
    orphaned: set<nat>)       // numbers still due when a connection closed, but no longer asked for

  // What can happen next, in any order and any number of times.
  datatype Step =
    | OtherServicePublishes
    | Publish(stream: Stream, text: seq<byte>)
    | SecondTry // of a line behind its gap
    | Unregister
    | Register(content: seq<(Stream, seq<byte>)>) // lines of its log files, under fresh numbers
    | Connect(selection: Selection, tail: nat)
    | Receive
    | ReceiveHeartbeat
    | Hangup

  function Pushed(w: World): seq<LogLine> {
    if w.start <= |w.published| then w.published[w.start..] else []
  }

  function Loaded(counter: nat, content: seq<(Stream, seq<byte>)>): (lines: seq<LogLine>)
    ensures |lines| == |content|
    ensures forall i :: 0 <= i < |lines| ==> lines[i].sequence == counter + i + 1
    ensures SameContent(lines, content)
  {
    seq(|content|, i requires 0 <= i < |content| => LogLine(counter + i + 1, content[i].0, content[i].1))
  }

  function LinesIn(events: seq<Event>): seq<LogLine> {
    if events == [] then [] else (if events[0].Line? then [events[0].line] else []) + LinesIn(events[1..])
  }

  function Numbers(lines: seq<LogLine>): set<nat> {
    set x | x in lines :: x.sequence
  }

  function Coming(c: Connection): seq<LogLine> {
    Matching(c.subscriber.selection, c.offered)
  }

  function Position(c: Connection): nat {
    if c.subscriber.channel.taken <= |c.subscriber.channel.sent|
    then Covered(c.subscriber.channel.sent[..c.subscriber.channel.taken]) else 0
  }

  function Ahead(c: Connection): seq<LogLine> {
    if Position(c) <= |Coming(c)| then Coming(c)[Position(c)..] else []
  }

  // Selected lines the connection has still to deliver or to report as dropped.
  function Due(c: Connection): seq<LogLine> {
    LinesIn(c.initial) + Ahead(c)
  }

  function Lost(w: World): set<nat> {
    w.reported + w.skipped + w.orphaned
  }

  function Closed(w: World, hub: string): World {
    if w.connection.None? then w
    else w.(connection := None,
            orphaned := w.orphaned + set x | x in Due(w.connection.value) && AtOrBelow(w.cursor, hub, x.sequence) ::
                x.sequence)
  }

  // Selected lines a replay leaves out although the viewer would still want them.
  function LeftOut(w: World, hub: string, selection: Selection, replay: seq<LogLine>): set<nat> {
    set x | x in w.published && selection.Includes(x.stream) && !AtOrBelow(w.cursor, hub, x.sequence) && x !in replay
      :: x.sequence
  }

  function Opened(w: World, hub: string, selection: Selection, tail: nat): World {
    if !w.registered then w
    else
      var initial := Initial(hub, selection, tail, w.cursor, Retained(Pushed(w)), w.counter);
      var replay := LinesIn(initial);
      w.(connection := Some(Connection(initial, Subscriber(selection, Channel([], 0, true), 0), [], None, false, None)),
         skipped := (w.skipped - Numbers(replay)) + LeftOut(w, hub, selection, replay))
  }

  function Got(w: World, hub: string, event: Event): World {
    w.(cursor := Advanced(w.cursor, hub, event),
       received := if event.Line? then w.received + [event.line] else w.received)
  }

  function Taken(c: Connection): Connection {
    c.(subscriber := c.subscriber.(channel := c.subscriber.channel.(taken := c.subscriber.channel.taken + 1)))
  }

  function Received(w: World, hub: string, c: Connection): World {
    if c.initial != [] then
      Got(w.(connection := Some(c.(initial := c.initial[1..], reset := c.reset || c.initial[0].HubReset?))), hub,
          c.initial[0])
    else if c.subscriber.channel.taken < |c.subscriber.channel.sent| then
      var event := c.subscriber.channel.sent[c.subscriber.channel.taken];
      var dropped := if event.Gap? && event.dropped <= |Ahead(c)| then Numbers(Ahead(c)[..event.dropped]) else {};
      Got(w.(connection := Some(Taken(c)), reported := w.reported + dropped), hub, event)
    else w
  }

  function Offered(c: Connection, line: LogLine): Option<Connection> {
    if c.detachedAt.Some? then Some(c)
    else match Offer(c.subscriber, line)
         case Some(s) =>
           Some(c.(subscriber := s, offered := c.offered + [line],
                   behind := if GapTakesLastPlace(c.subscriber, line) then Some(line) else None))
         case None => None
  }

  predicate GapTakesLastPlace(s: Subscriber, line: LogLine) {
    s.selection.Includes(line.stream) && s.dropped > 0 && |s.channel.sent| - s.channel.taken + 1 ==
        LIVE_SUBSCRIBER_QUEUE
  }

  function SecondAttempt(s: Subscriber, line: LogLine): Subscriber {
    if |s.channel.sent| - s.channel.taken < LIVE_SUBSCRIBER_QUEUE
    then s.(channel := s.channel.(sent := s.channel.sent + [Line(line)]), dropped := 0)
    else s
  }

  function Retried(c: Connection): Connection {
    if c.behind.None? then c else c.(subscriber := SecondAttempt(c.subscriber, c.behind.value), behind := None)
  }

  // The two halves together are the offer to a receiver that goes on in between.
  lemma {:induction false} HalvesAreOneOffer(s: Subscriber, line: LogLine, p: Progress)
    requires s.channel.connected && !p.gone && GapTakesLastPlace(s, line)
    ensures Offer(s, line).Some?
    ensures OfferDuring(s, line, (Progress(0, false), p)) == Some(SecondAttempt(Progressed(Offer(s, line).value, p),
            line))
  {
    var gapped := Progressed(GapSent(s, line), p).channel.sent;
    assert gapped + [] == gapped;
  }

  function Next(w: World, hub: string, step: Step): World {
    match step
    case OtherServicePublishes => w.(counter := w.counter + 1)
    case Publish(stream, text) =>
      if !w.registered then w
      else
        var line := LogLine(w.counter + 1, stream, text);
        w.(counter := w.counter + 1, published := w.published + [line],
           connection := if w.connection.None? then None else Offered(w.connection.value, line))
    case SecondTry => if w.connection.None? then w else w.(connection := Some(Retried(w.connection.value)))
    case Unregister =>
      w.(registered := false, start := |w.published|,
         connection :=
           if w.connection.None? then None
           else if w.connection.value.detachedAt.Some? then w.connection
           else Some(w.connection.value.(detachedAt := Some(w.counter), behind := None)))
    case Register(content) =>
      if w.registered then w
      else w.(counter := w.counter + |content|, registered := true, start := |w.published|,
              published := w.published + Loaded(w.counter, content))
    case Connect(selection, tail) => Opened(Closed(w, hub), hub, selection, tail)
    case Receive => if w.connection.None? then w else Received(w, hub, w.connection.value)
    case ReceiveHeartbeat => Got(w, hub, Heartbeat)
    case Hangup => Closed(w, hub)
  }

  function Run(w: World, hub: string, steps: seq<Step>): World
    decreases |steps|
  {
    if steps == [] then w else Run(Next(w, hub, steps[0]), hub, steps[1..])
  }

  // --- numbers arrive in order ---

  ghost predicate LinesBelow(received: seq<LogLine>, bound: nat) {
    forall x :: x in received ==> x.sequence < bound
  }

  // Replay entries are lines, after at most one reset.
  ghost predicate ReplayShape(initial: seq<Event>) {
    forall i :: 0 <= i < |initial| ==> initial[i].Line? || (i == 0 && initial[i].HubReset?)
  }

  ghost predicate ConnectionValid(c: Connection) {
    && ReplayShape(c.initial)
    && Accounts(Coming(c), c.subscriber)
    && c.subscriber.channel.connected
    && c.subscriber.channel.taken <= |c.subscriber.channel.sent|
    && (c.initial != [] ==> c.subscriber.channel.taken == 0)
    && (c.behind.Some? ==>
          c.subscriber.dropped == 1 && Coming(c) != [] && Coming(c)[|Coming(c)| - 1] == c.behind.value)
  }

  ghost predicate DueInOrder(due: seq<LogLine>, received: seq<LogLine>, counter: nat) {
    NumberedUpTo(due, counter) && forall x :: x in due ==> LinesBelow(received, x.sequence)
  }

  ghost predicate ReceivedInOrder(received: seq<LogLine>, counter: nat, cursor: Option<Cursor>, hub: string) {
    && Increasing(received)
    && (forall x :: x in received ==> x.sequence <= counter && AtOrBelow(cursor, hub, x.sequence))
  }

  ghost predicate InOrder(w: World, hub: string) {
    && NumberedUpTo(w.published, w.counter)
    && ReceivedInOrder(w.received, w.counter, w.cursor, hub)
    && (w.connection.Some? ==>
          ConnectionValid(w.connection.value) && DueInOrder(Due(w.connection.value), w.received, w.counter))
  }

  // --- what a connection still owes, step by step ---

  lemma {:induction false} PositionInRange(c: Connection)
    requires ConnectionValid(c)
    ensures Position(c) <= |Coming(c)| && Ahead(c) == Coming(c)[Position(c)..]
    ensures c.initial == [] ==> Due(c) == Ahead(c)
  {
    var sent, taken := c.subscriber.channel.sent, c.subscriber.channel.taken;
    if taken < |sent| {
      assert EntryInPlace(Coming(c), sent, taken);
    } else {
      assert sent[..taken] == sent;
    }
    if c.initial == [] { assert [] + Ahead(c) == Ahead(c); }
  }

  // A line published to the connection is due behind everything else.
  lemma {:induction false} OfferedIsDue(c: Connection, line: LogLine)
    requires ConnectionValid(c) && c.detachedAt.None?
    ensures var o := Offered(c, line);
            && o.Some? && ConnectionValid(o.value)
            && o.value == c.(subscriber := o.value.subscriber, offered := c.offered + [line], behind := o.value.behind)
            && o.value.subscriber.selection == c.subscriber.selection
            && Due(o.value) == Due(c) + if c.subscriber.selection.Includes(line.stream) then [line] else []
  {
    hide ConnectionValid, Offered, Coming, Position, Ahead, LinesIn;
    OfferedShape(c, line);
    var d := Offered(c, line).value;
    var more := if c.subscriber.selection.Includes(line.stream) then [line] else [];
    PositionInRange(c);
    PositionInRange(d);
    TakenInRange(c);
    SamePosition(c, d);
    assert Ahead(d) == Ahead(c) + more;
    assert Due(d) == Due(c) + more;
  }

  lemma {:induction false} OfferedShape(c: Connection, line: LogLine)
    requires ConnectionValid(c) && c.detachedAt.None?
    ensures Offered(c, line).Some?
    ensures var d := Offered(c, line).value;
            && ConnectionValid(d)
            && d == c.(subscriber := d.subscriber, offered := c.offered + [line], behind := d.behind)
            && d.subscriber.selection == c.subscriber.selection
            && d.subscriber.channel.taken == c.subscriber.channel.taken
            && c.subscriber.channel.sent <= d.subscriber.channel.sent
            && Coming(d) == Coming(c) + if c.subscriber.selection.Includes(line.stream) then [line] else []
  {
    hide Accounts, Matching, Covered, Offer, LinesIn;
    OfferExtends(c.subscriber, line);
    if GapTakesLastPlace(c.subscriber, line) { GapLeavesOne(c.subscriber, line); }
    OfferAccounts(Coming(c), line, c.subscriber);
    MatchingSnoc(c.subscriber.selection, c.offered, line);
    assert Coming(c) + [] == Coming(c);
  }

  lemma {:induction false} SamePosition(c: Connection, d: Connection)
    requires c.subscriber.channel.taken == d.subscriber.channel.taken <= |c.subscriber.channel.sent|
    requires c.subscriber.channel.sent <= d.subscriber.channel.sent
    ensures Position(d) == Position(c)
  {
    var taken := c.subscriber.channel.taken;
    assert d.subscriber.channel.sent[..taken] == c.subscriber.channel.sent[..taken];
  }

  lemma {:induction false} GapLeavesOne(s: Subscriber, line: LogLine)
    requires s.channel.connected && GapTakesLastPlace(s, line)
    ensures Offer(s, line).Some? && Offer(s, line).value.dropped == 1
  {}

  // Trying the line behind a gap again changes nothing about what the connection owes.
  lemma {:induction false} RetriedOwesSame(c: Connection)
    requires ConnectionValid(c)
    ensures ConnectionValid(Retried(c)) && Due(Retried(c)) == Due(c)
  {
    if c.behind.Some? {
      var s, d := c.subscriber, Retried(c);
      hide Matching, LinesIn;
      assert Coming(d) == Coming(c);
      if d.subscriber != s {
        AccountsLate(Coming(c), s, c.behind.value);
      }
      assert d.subscriber.channel.sent[..s.channel.taken] == s.channel.sent[..s.channel.taken];
      hide Accounts, Covered;
    }
  }

  lemma {:induction false} AccountsLate(matching: seq<LogLine>, s: Subscriber, line: LogLine)
    requires Accounts(matching, s) && s.dropped == 1 && matching != [] && matching[|matching| - 1] == line
    ensures Accounts(matching, s.(channel := s.channel.(sent := s.channel.sent + [Line(line)]), dropped := 0))
  {
    CoveredSnoc(s.channel.sent, Line(line));
    assert (s.channel.sent + [Line(line)])[..|s.channel.sent|] == s.channel.sent;
    assert matching + [] == matching;
    AccountsAfterEntry(matching, [], s, Line(line), 0);
  }

  lemma {:induction false} OfferExtends(s: Subscriber, line: LogLine)
    requires s.channel.connected
    ensures Offer(s, line).Some?
    ensures var t := Offer(s, line).value;
            && t.selection == s.selection && t.channel.taken == s.channel.taken && t.channel.connected
            && s.channel.sent <= t.channel.sent
  {}

  // Receiving a replay entry delivers the first due line; a reset delivers none.
  lemma {:induction false} ReplayIsDue(c: Connection)
    requires ConnectionValid(c) && c.initial != []
    ensures var d := c.(initial := c.initial[1..], reset := c.reset || c.initial[0].HubReset?);
            && ConnectionValid(d)
            && (c.initial[0].Line? || c.initial[0].HubReset?)
            && (c.initial[0].Line? ==> Due(c) != [] && c.initial[0].line == Due(c)[0] && Due(d) == Due(c)[1..])
            && (c.initial[0].HubReset? ==> Due(c) == Due(d))
  {
    hide Accounts, Matching, Covered, Ahead, LinesIn;
    var d := c.(initial := c.initial[1..], reset := c.reset || c.initial[0].HubReset?);
    SameAhead(c, d);
    ShapeOfRest(c.initial);
    LinesFirst(c.initial);
    var first := if c.initial[0].Line? then [c.initial[0].line] else [];
    assert Due(c) == first + LinesIn(d.initial) + Ahead(c) == first + Due(d);
  }

  lemma {:induction false} SameAhead(c: Connection, d: Connection)
    requires d.subscriber == c.subscriber && d.offered == c.offered
    ensures Coming(d) == Coming(c) && Ahead(d) == Ahead(c)
  {
    hide Matching, Covered;
  }

  lemma {:induction false} ShapeOfRest(initial: seq<Event>)
    requires ReplayShape(initial) && initial != []
    ensures ReplayShape(initial[1..]) && (initial[0].Line? || initial[0].HubReset?)
  {
    forall i | 0 <= i < |initial[1..]| ensures initial[1..][i].Line? {
      assert initial[1..][i] == initial[i + 1];
    }
  }

  lemma {:induction false} LinesFirst(events: seq<Event>)
    requires events != []
    ensures LinesIn(events) == (if events[0].Line? then [events[0].line] else []) + LinesIn(events[1..])
  {}

  // Receiving a channel entry delivers the first due line, or reports the first `dropped` ones and names
  // the one behind them.
  lemma {:induction false} ChannelIsDue(c: Connection)
    requires ConnectionValid(c) && c.initial == [] && c.subscriber.channel.taken < |c.subscriber.channel.sent|
    ensures var event := c.subscriber.channel.sent[c.subscriber.channel.taken];
            var d := Taken(c);
            && ConnectionValid(d) && (event.Line? || event.Gap?)
            && Ahead(c) == Due(c)
            && (event.Line? ==> Due(c) != [] && event.line == Due(c)[0] && Due(d) == Due(c)[1..])
            && (event.Gap? ==> 0 < event.dropped < |Due(c)| && Due(d) == Due(c)[event.dropped..]
                               && Due(d)[0].sequence == event.sequence)
  {
    hide Accounts, Covered, Due, Ahead, Coming, Position, ConnectionValid;
    HeadOf(c);
    TakenIsValid(c);
    PositionInRange(c);
    PositionInRange(Taken(c));
    AheadFrom(c, Taken(c));
  }

  lemma {:induction false} TakenIsValid(c: Connection)
    requires ConnectionValid(c) && c.initial == [] && c.subscriber.channel.taken < |c.subscriber.channel.sent|
    ensures ConnectionValid(Taken(c)) && Coming(Taken(c)) == Coming(c)
  {
    SameSent(Coming(c), c.subscriber, Taken(c).subscriber);
    hide Accounts, Matching;
  }

  lemma {:induction false} HeadOf(c: Connection)
    requires ConnectionValid(c) && c.subscriber.channel.taken < |c.subscriber.channel.sent|
    ensures var event := c.subscriber.channel.sent[c.subscriber.channel.taken];
            var at, next := Position(c), Position(Taken(c));
            && (event.Line? || event.Gap?)
            && (event.Line? ==> at < |Coming(c)| && event.line == Coming(c)[at] && next == at + 1)
            && (event.Gap? ==>
                  event.dropped > 0 && next == at + event.dropped < |Coming(c)|
                  && Coming(c)[next].sequence == event.sequence)
  {
    ChannelHead(Coming(c), c.subscriber);
    hide Accounts, Matching, Covered;
  }

  lemma {:induction false} AheadFrom(c: Connection, d: Connection)
    requires Coming(d) == Coming(c) && Position(c) <= Position(d) <= |Coming(c)|
    ensures Ahead(d) == Ahead(c)[Position(d) - Position(c)..]
    ensures Position(d) < |Coming(c)| ==> Ahead(d) != [] && Ahead(d)[0] == Coming(c)[Position(d)]
    ensures Position(c) < |Coming(c)| ==> Ahead(c) != [] && Ahead(c)[0] == Coming(c)[Position(c)]
  {
    hide Matching, Covered;
  }

  // The next entry of a channel is the next matching line, or a gap over some of them.
  lemma {:induction false} ChannelHead(matching: seq<LogLine>, s: Subscriber)
    requires Accounts(matching, s) && s.channel.taken < |s.channel.sent|
    ensures var event := s.channel.sent[s.channel.taken];
            var at, next := Covered(s.channel.sent[..s.channel.taken]), Covered(s.channel.sent[..s.channel.taken + 1]);
            && (event.Line? || event.Gap?)
            && (event.Line? ==> at < |matching| && event.line == matching[at] && next == at + 1)
            && (event.Gap? ==>
                  event.dropped > 0 && next == at + event.dropped < |matching|
                  && matching[next].sequence == event.sequence)
  {
    var sent, taken := s.channel.sent, s.channel.taken;
    assert EntryInPlace(matching, sent, taken);
    assert sent[..taken + 1] == sent[..taken] + [sent[taken]];
    CoveredSnoc(sent[..taken], sent[taken]);
    hide Covered;
  }

  // --- the order is kept ---

  lemma {:induction false} DueWiden(due: seq<LogLine>, received: seq<LogLine>, counter: nat, larger: nat)
    requires DueInOrder(due, received, counter) && counter <= larger
    ensures DueInOrder(due, received, larger)
  {}

  lemma {:induction false} DueSnoc(due: seq<LogLine>, received: seq<LogLine>, counter: nat, line: LogLine)
    requires DueInOrder(due, received, counter) && line.sequence == counter + 1
    requires forall x :: x in received ==> x.sequence <= counter
    ensures DueInOrder(due + [line], received, counter + 1)
  {
    NumberedSnoc(due, line, counter);
    hide NumberedUpTo;
  }

  // Delivering the first due line, or leaving some out, keeps the rest in order.
  lemma {:induction false} DueSuffix(due: seq<LogLine>, n: nat, received: seq<LogLine>, counter: nat)
    requires DueInOrder(due, received, counter) && n <= |due|
    ensures DueInOrder(due[n..], received, counter)
    ensures n > 0 ==> DueInOrder(due[n..], received + [due[n - 1]], counter)
  {
    var rest := due[n..];
    forall x | x in rest ensures x in due && LinesBelow(received, x.sequence) {}
    if n > 0 {
      forall x | x in rest ensures LinesBelow(received + [due[n - 1]], x.sequence) {
        var k :| 0 <= k < |rest| && rest[k] == x;
        assert due[n - 1].sequence < due[n + k].sequence;
      }
    }
  }

  lemma {:induction false} GotInOrder(w: World, hub: string, event: Event)
    requires ReceivedInOrder(w.received, w.counter, w.cursor, hub)
    requires event.Line? ==> LinesBelow(w.received, event.line.sequence) && event.line.sequence <= w.counter
    ensures ReceivedInOrder(Got(w, hub, event).received, w.counter, Got(w, hub, event).cursor, hub)
  {
    var g := Got(w, hub, event);
    forall i, j | 0 <= i < j < |g.received| ensures g.received[i].sequence < g.received[j].sequence {
      if j == |w.received| { assert g.received[i] in w.received; }
    }
  }

  lemma {:induction false} OrderOnReceive(w: World, hub: string, c: Connection)
    requires InOrder(w, hub) && w.connection == Some(c)
    ensures InOrder(Received(w, hub, c), hub)
  {
    hide NumberedUpTo, ConnectionValid, ReceivedInOrder, DueInOrder, Due, Ahead, LinesIn;
    TakenInRange(c);
    if c.initial != [] {
      ReplayIsDue(c);
      OrderOnEvent(w, hub, c, c.initial[0], if c.initial[0].Line? then 1 else 0);
    } else if c.subscriber.channel.taken < |c.subscriber.channel.sent| {
      var event := c.subscriber.channel.sent[c.subscriber.channel.taken];
      ChannelIsDue(c);
      OrderOnEvent(w, hub, c, event, if event.Line? then 1 else event.dropped);
    }
  }

  lemma {:induction false} TakenInRange(c: Connection)
    requires ConnectionValid(c)
    ensures c.subscriber.channel.taken <= |c.subscriber.channel.sent|
  {}

  lemma {:induction false} OrderOnEvent(w: World, hub: string, c: Connection, event: Event, n: nat)
    requires ReceivedInOrder(w.received, w.counter, w.cursor, hub) && DueInOrder(Due(c), w.received, w.counter) &&
             n <= |Due(c)|
    requires event.Line? ==> n == 1 && event.line == Due(c)[0]
    ensures ReceivedInOrder(Got(w, hub, event).received, w.counter, Got(w, hub, event).cursor, hub)
    ensures DueInOrder(Due(c)[n..], Got(w, hub, event).received, w.counter)
    ensures n == 0 ==> Due(c)[n..] == Due(c)
  {
    hide NumberedUpTo, Due;
    var due := Due(c);
    DueSuffix(due, n, w.received, w.counter);
    if event.Line? { FirstDue(due, w.received, w.counter); }
    GotInOrder(w, hub, event);
  }

  lemma {:induction false} FirstDue(due: seq<LogLine>, received: seq<LogLine>, counter: nat)
    requires DueInOrder(due, received, counter) && due != []
    ensures LinesBelow(received, due[0].sequence) && due[0].sequence <= counter
  {
    assert due[0] in due;
  }

  lemma {:induction false} LinesOfReplay(lines: seq<LogLine>)
    ensures LinesIn(AsEvents(lines)) == lines
  {
    if lines != [] {
      LinesOfReplay(lines[1..]);
      assert AsEvents(lines)[1..] == AsEvents(lines[1..]);
    }
  }

  // A fresh connection owes exactly its replay.
  lemma {:induction false} OpenedOwes(w: World, hub: string, selection: Selection, tail: nat)
    requires w.registered && NumberedUpTo(w.published, w.counter)
    ensures var c := Opened(w, hub, selection, tail).connection.value;
            var replay := InitialLines(hub, selection, tail, w.cursor, Retained(Pushed(w)));
            && LinesIn(c.initial) == replay && Due(c) == replay
            && ConnectionValid(c)
            && NumberedUpTo(replay, w.counter)
            && (forall x :: x in replay ==> x in w.published && selection.Includes(x.stream))
            && (Holds(w.cursor, hub) ==> forall x :: x in replay ==> !AtOrBelow(w.cursor, hub, x.sequence))
            && (c.initial != [] && c.initial[0].HubReset? ==>
                c.initial[0].sequence == w.counter && !Holds(w.cursor, hub))
  {
    hide InitialLines, Retained, Matching, Increasing, Accounts, Ahead;
    var ring := Retained(Pushed(w));
    RetainedOfPublished(w);
    NumberedIncreases(ring, w.counter);
    InitialLinesAreRight(hub, selection, tail, w.cursor, ring);
    var replay := InitialLines(hub, selection, tail, w.cursor, ring);
    var c := Opened(w, hub, selection, tail).connection.value;
    InitialShape(hub, selection, tail, w.cursor, ring, w.counter);
    EmptyChannel(c);
    assert replay + [] == replay;
  }

  // A replay is its lines, after a reset exactly for a cursor of another hub.
  lemma {:induction false} InitialShape(hub: string, selection: Selection, tail: nat, cursor: Option<Cursor>,
                                        ring: seq<LogLine>, counter: nat)
    ensures var initial := Initial(hub, selection, tail, cursor, ring, counter);
            && ReplayShape(initial)
            && LinesIn(initial) == InitialLines(hub, selection, tail, cursor, ring)
            && (initial != [] && initial[0].HubReset? ==> initial[0].sequence == counter && !Holds(cursor, hub))
  {
    hide InitialLines;
    var replay := InitialLines(hub, selection, tail, cursor, ring);
    LinesOfReplay(replay);
    if cursor.Some? && cursor.value.hub != hub {
      var reset := [HubReset(counter, cursor.value.hub)];
      assert (reset + AsEvents(replay))[1..] == AsEvents(replay);
      assert [] + replay == replay;
    } else {
      assert [] + AsEvents(replay) == AsEvents(replay);
    }
  }

  lemma {:induction false} EmptyChannel(c: Connection)
    requires c.offered == [] && c.subscriber.channel == Channel([], 0, true) && c.subscriber.dropped == 0
    ensures Accounts(Coming(c), c.subscriber) && Ahead(c) == []
  {}

  lemma {:induction false} RetainedOfPublished(w: World)
    requires NumberedUpTo(w.published, w.counter)
    ensures var ring := Retained(Pushed(w));
            NumberedUpTo(ring, w.counter) && forall x :: x in ring ==> x in w.published
  {
    RetainedKeepsOrder(Pushed(w));
    hide Retained;
    assert forall x :: x in Pushed(w) ==> x in w.published;
  }

  lemma {:induction false} OrderOnOpen(w: World, hub: string, selection: Selection, tail: nat)
    requires InOrder(w, hub) && w.connection.None?
    ensures InOrder(Opened(w, hub, selection, tail), hub)
  {
    hide InitialLines, Retained, Due, ConnectionValid, NumberedUpTo, Initial, LinesIn, Increasing;
    if w.registered {
      OpenedOwes(w, hub, selection, tail);
      var c := Opened(w, hub, selection, tail).connection.value;
      forall x | x in Due(c) ensures LinesBelow(w.received, x.sequence) {}
    }
  }

  lemma {:induction false} OrderOnPublish(w: World, hub: string, line: LogLine)
    requires InOrder(w, hub) && w.registered && line.sequence == w.counter + 1
    ensures InOrder(Next(w, hub, Publish(line.stream, line.text)), hub)
  {
    hide Due, ConnectionValid, NumberedUpTo, DueInOrder, Increasing, Offered;
    NumberedSnoc(w.published, line, w.counter);
    if w.connection.Some? {
      ConnectionOnPublish(w.connection.value, w.received, w.counter, line);
    }
    assert line == LogLine(w.counter + 1, line.stream, line.text);
  }

  lemma {:induction false} ConnectionOnPublish(c: Connection, received: seq<LogLine>, counter: nat, line: LogLine)
    requires ConnectionValid(c) && DueInOrder(Due(c), received, counter) && line.sequence == counter + 1
    requires forall x :: x in received ==> x.sequence <= counter
    ensures Offered(c, line).Some?
    ensures var d := Offered(c, line).value; ConnectionValid(d) && DueInOrder(Due(d), received, counter + 1)
  {
    hide Due, ConnectionValid, DueInOrder;
    DueWiden(Due(c), received, counter, counter + 1);
    DueSnoc(Due(c), received, counter, line);
    if c.detachedAt.None? {
      OfferedIsDue(c, line);
      assert Due(c) + [] == Due(c);
    }
  }

  lemma {:induction false} OrderOnRegister(w: World, hub: string, content: seq<(Stream, seq<byte>)>)
    requires InOrder(w, hub)
    ensures InOrder(Next(w, hub, Register(content)), hub)
  {
    NumberedAppend(w.published, Loaded(w.counter, content), w.counter);
    if w.connection.Some? {
      DueWiden(Due(w.connection.value), w.received, w.counter, w.counter + |content|);
    }
    hide Due, ConnectionValid, NumberedUpTo, DueInOrder, Increasing;
  }

  lemma {:induction false} NumberedAppend(lines: seq<LogLine>, more: seq<LogLine>, counter: nat)
    requires NumberedUpTo(lines, counter)
    requires forall i :: 0 <= i < |more| ==> more[i].sequence == counter + i + 1
    ensures NumberedUpTo(lines + more, counter + |more|)
  {
    var all := lines + more;
    forall i, j | 0 <= i < j < |all| ensures all[i].sequence < all[j].sequence {
      if i < |lines| <= j { assert all[i] in lines; }
    }
  }

  lemma {:induction false} StaysInOrder(w: World, hub: string, step: Step)
    requires InOrder(w, hub)
    ensures InOrder(Next(w, hub, step), hub)
  {
    match step {
      case OtherServicePublishes =>
        NumberedWiden(w.published, w.counter, w.counter + 1);
        if w.connection.Some? { DueWiden(Due(w.connection.value), w.received, w.counter, w.counter + 1); }
        hide Due, ConnectionValid, NumberedUpTo, DueInOrder, Increasing;
      case Publish(stream, text) =>
        if w.registered { OrderOnPublish(w, hub, LogLine(w.counter + 1, stream, text)); }
      case SecondTry => if w.connection.Some? { RetriedOwesSame(w.connection.value); }
      case Unregister => OrderOnUnregister(w, hub);
      case Register(content) => OrderOnRegister(w, hub, content);
      case Connect(selection, tail) => OrderOnOpen(Closed(w, hub), hub, selection, tail);
      case Receive => if w.connection.Some? { OrderOnReceive(w, hub, w.connection.value); }
      case ReceiveHeartbeat =>
      case Hangup =>
    }
  }

  lemma {:induction false} OrderOnUnregister(w: World, hub: string)
    requires InOrder(w, hub)
    ensures InOrder(Next(w, hub, Unregister), hub)
  {
    hide Due, ConnectionValid, NumberedUpTo, DueInOrder, Increasing;
    if w.connection.Some? {
      SameDue(w.connection.value, w.connection.value.(detachedAt := Some(w.counter), behind := None));
    }
  }

  lemma {:induction false} SameDue(c: Connection, d: Connection)
    requires d == c.(detachedAt := d.detachedAt, behind := None)
    ensures Due(d) == Due(c)
    ensures ConnectionValid(c) ==> ConnectionValid(d)
  {
    hide Accounts, Matching, Covered;
    assert Coming(d) == Coming(c);
  }

  lemma {:induction false} RunStaysInOrder(w: World, hub: string, steps: seq<Step>)
    requires InOrder(w, hub)
    ensures InOrder(Run(w, hub, steps), hub)
    decreases |steps|
  {
    hide InOrder, Next;
    if steps != [] {
      StaysInOrder(w, hub, steps[0]);
      RunStaysInOrder(Next(w, hub, steps[0]), hub, steps[1..]);
    }
  }

  function Watching(counter: nat, registered: bool, published: seq<LogLine>, start: nat,
                    cursor: Option<Cursor>): World {
    World(counter, registered, published, start, None, cursor, [], {}, {}, {})
  }

  // Over every run from before the viewer has received anything, whatever cursor it holds, however often
  // it reconnects, and through removals and registrations of the service: numbers arrive in strictly
  // increasing order, so none arrives twice, and all that the open connection owes is newer and in order.
  // A line loaded again from a log file at registration gets a new number, so its text can come again.
  lemma {:induction false} NoLineTwice(hub: string, cursor: Option<Cursor>, registered: bool, published: seq<LogLine>,
                                       start: nat,
                                       counter: nat, steps: seq<Step>)
    requires NumberedUpTo(published, counter)
    ensures var w := Run(Watching(counter, registered, published, start, cursor), hub, steps);
            && Increasing(w.received)
            && (w.connection.Some? ==> Increasing(w.received + Due(w.connection.value)))
  {
    var w := Run(Watching(counter, registered, published, start, cursor), hub, steps);
    RunStaysInOrder(Watching(counter, registered, published, start, cursor), hub, steps);
    if w.connection.Some? {
      hide Run, Due, ConnectionValid;
      var due := Due(w.connection.value);
      var all := w.received + due;
      forall i, j | 0 <= i < j < |all| ensures all[i].sequence < all[j].sequence {
        if i < |w.received| <= j {
          assert due[j - |w.received|] in due;
          assert all[i] in w.received;
        }
      }
    }
  }
}
