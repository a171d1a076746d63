// Two runs in which a reconnecting viewer misses a line that the ring still holds, one for each way in
// which the end of a connection can orphan lines.
module LiveLogLosses {
  import opened Wrappers
  import opened LiveLogs
  import opened LiveLogHub
  import opened LiveLogClient
  import opened LiveLogCoverage

  // --- cut off behind a hub reset ---

  // After a reconnect to another hub: the reset alone moves the cursor past the replay it announces, so a
  // viewer that is cut off right behind it never gets the replay, although the ring still holds it.
  lemma {:induction false} ResetThenHangupLosesReplay()
    ensures var steps := [Connect(Both, 10), Receive, Hangup, Connect(Both, 10)];
            var w := Run(Watching(1, true, [LINE], 0, Some(Cursor("previous", 5))), "hub", steps);
            && AllSelect(steps, Both)
            && LINE in Retained(Pushed(w)) && w.connection.Some? && Due(w.connection.value) == []
            && w.received == [] && w.reported == w.skipped == {} && w.orphaned == {LINE.sequence}
  {
    ConnectsWithReset();
    ReceivesReset();
    OrphansLine();
    ReconnectsToNothing();
    hide Next, Retained, Due;
    FourSteps(WAITING, "hub", [Connect(Both, 10), Receive, Hangup, Connect(Both, 10)]);
  }

  const LINE := LogLine(1, Stdout, [])
  const SUBSCRIBER := Subscriber(Both, Channel([], 0, true), 0)
  const REPLAY := [HubReset(1, "previous"), Line(LINE)]
  const WAITING := Watching(1, true, [LINE], 0, Some(Cursor("previous", 5)))
  const CONNECTED := WAITING.(connection := Some(Connection(REPLAY, SUBSCRIBER, [], None, false, None)))
  const WAS_RESET := Connection([Line(LINE)], SUBSCRIBER, [], None, true, None)
  const ADVANCED := WAITING.(connection := Some(WAS_RESET), cursor := Some(Cursor("hub", 1)))
  const CUT_OFF := WAITING.(cursor := Some(Cursor("hub", 1)), orphaned := {1})
  const RESUMED := CUT_OFF.(connection := Some(Connection([], SUBSCRIBER, [], None, false, None)))

  lemma {:induction false} ConnectsWithReset()
    ensures Next(WAITING, "hub", Connect(Both, 10)) == CONNECTED
  {
    FirstReplay(LINE);
    hide Initial, Replayed;
    assert Pushed(WAITING) == [LINE] && Retained([LINE]) == [LINE];
    assert REPLAY[1..] == [Line(LINE)] && LinesIn([Line(LINE)][1..]) == [] && LinesIn(REPLAY) == [LINE];
  }

  lemma {:induction false} ReceivesReset()
    ensures Next(CONNECTED, "hub", Receive) == ADVANCED
  {
    assert REPLAY[1..] == WAS_RESET.initial;
  }

  lemma {:induction false} OrphansLine()
    ensures Next(ADVANCED, "hub", Hangup) == CUT_OFF
  {
    EmptyChannel(WAS_RESET);
    assert WAS_RESET.initial[1..] == [] && LinesIn(WAS_RESET.initial) == [LINE];
    assert Due(WAS_RESET) == [LINE];
  }

  lemma {:induction false} ReconnectsToNothing()
    ensures Next(CUT_OFF, "hub", Connect(Both, 10)) == RESUMED
    ensures LINE in Retained(Pushed(RESUMED)) && Due(RESUMED.connection.value) == []
  {
    SecondReplay(LINE);
    EmptyChannel(RESUMED.connection.value);
    hide Initial, Replayed;
    assert Pushed(CUT_OFF) == [LINE] && Retained([LINE]) == [LINE];
  }

  lemma {:induction false} FirstReplay(line: LogLine)
    requires line == LogLine(1, Stdout, [])
    ensures Initial("hub", Both, 10, Some(Cursor("previous", 5)), [line], 1) == [HubReset(1, "previous"), Line(line)]
  {
    assert [line][1..] == [] && Replayed(Both, None, [line]) == [line] + [];
    assert AsEvents([line]) == [Line(line)];
  }

  lemma {:induction false} SecondReplay(line: LogLine)
    requires line == LogLine(1, Stdout, [])
    ensures Initial("hub", Both, 10, Some(Cursor("hub", 1)), [line], 1) == []
  {
    assert [line][1..] == [] && Replayed(Both, Some(1), [line]) == [] + [];
    assert AsEvents([]) == [];
  }

  lemma {:induction false} FourSteps(w: World, hub: string, steps: seq<Step>)
    requires |steps| == 4
    ensures Run(w, hub, steps) == Next(Next(Next(Next(w, hub, steps[0]), hub, steps[1]), hub, steps[2]), hub, steps[3])
  {
    hide Next;
    OneStep(w, hub, steps);
    var w1 := Next(w, hub, steps[0]);
    OneStep(w1, hub, steps[1..]);
    var w2 := Next(w1, hub, steps[1]);
    OneStep(w2, hub, steps[2..]);
    OneStep(Next(w2, hub, steps[2]), hub, steps[3..]);
  }

  lemma {:induction false} OneStep(w: World, hub: string, steps: seq<Step>)
    requires steps != []
    ensures Run(w, hub, steps) == Run(Next(w, hub, steps[0]), hub, steps[1..])
    ensures |steps| > 1 ==> steps[1..][1..] == steps[2..]
  {}

  // --- cut off behind a gap ---

  const PUBLISH := Publish(Stdout, [])
  const CONNECT := Connect(Both, 10)

  // The first n lines of a service that publishes empty lines.
  function Plain(n: nat): (lines: seq<LogLine>)
    ensures |lines| == n && forall i :: 0 <= i < n ==> lines[i] == LogLine(i + 1, Stdout, [])
  {
    seq(n, i requires 0 <= i < n => LogLine(i + 1, Stdout, []))
  }

  function Repeat(step: Step, n: nat): (steps: seq<Step>)
    ensures |steps| == n && forall i :: 0 <= i < n ==> steps[i] == step
  {
    seq(n, i requires 0 <= i < n => step)
  }

  lemma {:induction false} PlainMatches(n: nat)
    ensures Matching(Both, Plain(n)) == Plain(n)
  {
    if n > 0 {
      PlainMatches(n - 1);
      hide Matching;
      var line := LogLine(n, Stdout, []);
      assert Plain(n) == Plain(n - 1) + [line];
      MatchingSnoc(Both, Plain(n - 1), line);
    }
  }

  lemma {:induction false} PlainCovered(n: nat)
    ensures Covered(AsEvents(Plain(n))) == n
  {
    if n > 0 {
      PlainCovered(n - 1);
      assert AsEvents(Plain(n)) == AsEvents(Plain(n - 1)) + [Line(Plain(n)[n - 1])];
      CoveredSnoc(AsEvents(Plain(n - 1)), Line(Plain(n)[n - 1]));
    }
  }

  lemma {:induction false} EmptyTexts(lines: seq<LogLine>)
    requires forall i :: 0 <= i < |lines| ==> lines[i].text == []
    ensures TextBytes(lines) == 0
  {
    if lines != [] { EmptyTexts(lines[1..]); }
  }

  lemma {:induction false} PlainRetained(n: nat)
    requires n <= LIVE_RING_LINES
    ensures Retained(Plain(n)) == Plain(n)
  {
    EmptyTexts(Plain(n));
  }

  // After n publishes: entries in the channel, how many of them taken, the pending count.
  function Link(sent: seq<Event>, taken: nat, dropped: nat, n: nat, behind: Option<LogLine>): Connection {
    Connection([], Subscriber(Both, Channel(sent, taken, true), dropped), Plain(n), None, false, behind)
  }

  function Viewing(n: nat, c: Connection, cursor: Option<Cursor>, received: nat, reported: set<nat>): World {
    World(n, true, Plain(n), 0, Some(c), cursor, Plain(received), reported, {}, {})
  }

  function At(n: nat): Option<Cursor> {
    Some(Cursor("hub", n))
  }

  // n lines waiting in the queue.
  function Filled(n: nat): World {
    Viewing(n, Link(AsEvents(Plain(n)), 0, 0, n, None), None, 0, {})
  }

  // A full queue in front of a gap over line 257, of which k entries are taken.
  function Draining(k: nat): World {
    Viewing(258, Link(AsEvents(Plain(256)) + [Gap(258, 1)], k, 1, 258, None), At(k), k, {})
  }

  const OVERFULL := Viewing(257, Link(AsEvents(Plain(256)), 0, 1, 257, None), None, 0, {})
  const ONE_TAKEN := Viewing(257, Link(AsEvents(Plain(256)), 1, 1, 257, None), At(1), 1, {})
  const GAPPED := Viewing(258, Link(AsEvents(Plain(256)) + [Gap(258, 1)], 1, 1, 258, Some(LogLine(258, Stdout, []))),
      At(1), 1, {})
  const BEHIND_GAP := Viewing(258, Link(AsEvents(Plain(256)) + [Gap(258, 1)], 257, 1, 258, None), At(258), 256, {257})
  const WITHOUT_258 := World(258, true, Plain(258), 0, None, At(258), Plain(256), {257}, {}, {258})
  const BACK := WITHOUT_258.(connection := Some(Connection([], SUBSCRIBER, [], None, false, None)))

  lemma {:induction false} StartsWatching()
    ensures Next(Watching(0, true, [], 0, None), "hub", CONNECT) == Filled(0)
  {
    var w := Watching(0, true, [], 0, None);
    assert Pushed(w) == [] && Retained([]) == [];
    assert AsEvents([]) == [] && [] + AsEvents([]) == [];
    assert Plain(0) == [] && AsEvents(Plain(0)) == [];
  }

  lemma {:induction false} Fills(n: nat)
    requires n < LIVE_SUBSCRIBER_QUEUE
    ensures Next(Filled(n), "hub", PUBLISH) == Filled(n + 1)
  {
    var line := LogLine(n + 1, Stdout, []);
    assert Plain(n + 1) == Plain(n) + [line];
    assert AsEvents(Plain(n + 1)) == AsEvents(Plain(n)) + [Line(line)];
    assert AsEvents(Plain(n)) + [] == AsEvents(Plain(n));
  }

  lemma {:induction false} Overfills()
    ensures Next(Filled(256), "hub", PUBLISH) == OVERFULL
  {
    assert Plain(257) == Plain(256) + [LogLine(257, Stdout, [])];
    assert AsEvents(Plain(256)) + [] == AsEvents(Plain(256));
  }

  lemma {:induction false} TakesOne()
    ensures Next(OVERFULL, "hub", Receive) == ONE_TAKEN
  {
    assert Plain(0) + [LogLine(1, Stdout, [])] == Plain(1);
  }

  lemma {:induction false} GapFits()
    ensures Next(ONE_TAKEN, "hub", PUBLISH) == GAPPED
  {
    assert Plain(258) == Plain(257) + [LogLine(258, Stdout, [])];
  }

  lemma {:induction false} SecondTryFails()
    ensures Next(GAPPED, "hub", SecondTry) == Draining(1)
  {}

  lemma {:induction false} Drains(k: nat)
    requires k < 256
    ensures Next(Draining(k), "hub", Receive) == Draining(k + 1)
  {
    hide Covered, Matching, Ahead;
    var sent := AsEvents(Plain(256)) + [Gap(258, 1)];
    assert sent[k] == Line(LogLine(k + 1, Stdout, []));
    assert Plain(k + 1) == Plain(k) + [LogLine(k + 1, Stdout, [])];
  }

  // How far the gap reaches: it covers line 257 and names line 258, which is still ahead.
  lemma {:induction false} GapPositions(k: nat)
    requires k == 256 || k == 257
    ensures var c := Link(AsEvents(Plain(256)) + [Gap(258, 1)], k, 1, 258, None);
            Ahead(c) == Plain(258)[k..] && Due(c) == Plain(258)[k..]
  {
    var lines, gap := AsEvents(Plain(256)), Gap(258, 1);
    PlainMatches(258);
    PlainCovered(256);
    CoveredSnoc(lines, gap);
    assert (lines + [gap])[..256] == lines && (lines + [gap])[..257] == lines + [gap];
    hide Covered, Matching;
    assert [] + Plain(258)[k..] == Plain(258)[k..];
  }

  lemma {:induction false} TakesGap()
    ensures Next(Draining(256), "hub", Receive) == BEHIND_GAP
  {
    GapPositions(256);
    hide Ahead;
    assert Plain(258)[256..][..1] == [LogLine(257, Stdout, [])];
  }

  lemma {:induction false} OrphansTrigger()
    ensures Next(BEHIND_GAP, "hub", Hangup) == WITHOUT_258
  {
    hide Due, Ahead, AsEvents;
    GapPositions(257);
    assert Plain(258)[257..] == [LogLine(258, Stdout, [])];
    var orphans := set x | x in [LogLine(258, Stdout, [])] && AtOrBelow(At(258), "hub", x.sequence) :: x.sequence;
    assert orphans == {258};
  }

  lemma {:induction false} ComesBack()
    ensures Next(WITHOUT_258, "hub", CONNECT) == BACK
    ensures LogLine(258, Stdout, []) in Retained(Pushed(BACK)) && Due(BACK.connection.value) == []
  {
    hide Retained, Initial, Ahead, AsEvents;
    assert Pushed(WITHOUT_258) == Plain(258) == Pushed(BACK);
    PlainRetained(258);
    NothingAfter(Plain(258));
    EmptyChannel(BACK.connection.value);
    assert LogLine(258, Stdout, []) == Plain(258)[257];
    assert Closed(WITHOUT_258, "hub") == WITHOUT_258;
    NothingLeftOut();
  }

  lemma {:induction false} NothingLeftOut()
    ensures LeftOut(WITHOUT_258, "hub", Both, []) == {} && LinesIn([]) == []
  {}

  lemma {:induction false} NothingAfter(ring: seq<LogLine>)
    requires Increasing(ring) && forall x :: x in ring ==> x.sequence <= 258
    ensures Initial("hub", Both, 10, At(258), ring, 258) == []
  {
    InitialLinesAreRight("hub", Both, 10, At(258), ring);
    hide InitialLines;
    var lines := InitialLines("hub", Both, 10, At(258), ring);
    EmptyOrNot(lines);
    assert AsEvents(lines) == [];
  }

  lemma {:induction false} EmptyOrNot(lines: seq<LogLine>)
    ensures lines == [] || exists x :: x in lines
  {
    if lines != [] { assert lines[0] in lines; }
  }

  lemma {:induction false} RunConcat(w: World, hub: string, first: seq<Step>, second: seq<Step>)
    ensures Run(w, hub, first + second) == Run(Run(w, hub, first), hub, second)
    decreases |first|
  {
    hide Next;
    if first == [] {
      assert first + second == second;
    } else {
      assert (first + second)[1..] == first[1..] + second;
      RunConcat(Next(w, hub, first[0]), hub, first[1..], second);
    }
  }

  lemma {:induction false} RunOne(w: World, hub: string, step: Step)
    ensures Run(w, hub, [step]) == Next(w, hub, step)
  {
    hide Next;
    assert [step][1..] == [];
  }

  lemma {:induction false} RunSnoc(w: World, hub: string, steps: seq<Step>, step: Step)
    ensures Run(w, hub, steps + [step]) == Next(Run(w, hub, steps), hub, step)
  {
    RunConcat(w, hub, steps, [step]);
    RunOne(Run(w, hub, steps), hub, step);
  }

  lemma {:induction false} RunFills(n: nat)
    requires n <= 256
    ensures Run(Filled(0), "hub", Repeat(PUBLISH, n)) == Filled(n)
  {
    hide Next, Filled;
    if n > 0 {
      RunFills(n - 1);
      assert Repeat(PUBLISH, n) == Repeat(PUBLISH, n - 1) + [PUBLISH];
      RunSnoc(Filled(0), "hub", Repeat(PUBLISH, n - 1), PUBLISH);
      Fills(n - 1);
    }
  }

  lemma {:induction false} RunDrains(k: nat)
    requires k <= 255
    ensures Run(Draining(1), "hub", Repeat(Receive, k)) == Draining(k + 1)
  {
    hide Next, Draining;
    if k > 0 {
      RunDrains(k - 1);
      assert Repeat(Receive, k) == Repeat(Receive, k - 1) + [Receive];
      RunSnoc(Draining(1), "hub", Repeat(Receive, k - 1), Receive);
      Drains(k);
    }
  }

  // The queue runs full, one line is dropped, the gap that reports it takes the last place, and so the line
  // behind it is dropped as well. A viewer cut off right behind the gap never gets that line.
  lemma {:induction false} GapThenHangupLosesLine() returns (steps: seq<Step>)
    ensures var w := Run(Watching(0, true, [], 0, None), "hub", steps);
            var line := LogLine(258, Stdout, []);
            && AllSelect(steps, Both)
            && line in Retained(Pushed(w)) && w.connection.Some? && Due(w.connection.value) == []
            && line !in w.received && 258 !in w.reported && 258 !in w.skipped && 258 in w.orphaned
  {
    hide Next, Run, Viewing, Link, At, Filled, Draining, Due, Retained, AllSelect;
    var w0 := Watching(0, true, [], 0, None);
    var filling := RunToFull(w0);
    var gapped := RunToGap(w0, filling);
    steps := RunToEnd(w0, gapped);
    ComesBack();
    EndsWithout258();
  }

  lemma {:induction false} EndsWithout258()
    ensures LogLine(258, Stdout, []) !in BACK.received && 258 !in BACK.reported && 258 !in BACK.skipped &&
            258 in BACK.orphaned
  {}

  lemma {:induction false} SelectConcat(a: seq<Step>, b: seq<Step>)
    requires AllSelect(a, Both) && AllSelect(b, Both)
    ensures AllSelect(a + b, Both)
  {}

  lemma {:induction false} SelectRepeat(step: Step, n: nat)
    requires Selects(step, Both)
    ensures AllSelect(Repeat(step, n), Both) && AllSelect([step], Both)
  {}

  // One more step of a run.
  lemma {:induction false} GoOn(w0: World, steps: seq<Step>, w: World, step: Step)
    requires Run(w0, "hub", steps) == w && AllSelect(steps, Both) && Selects(step, Both)
    ensures Run(w0, "hub", steps + [step]) == Next(w, "hub", step) && AllSelect(steps + [step], Both)
  {
    RunSnoc(w0, "hub", steps, step);
    SelectRepeat(step, 0);
    SelectConcat(steps, [step]);
  }

  lemma {:induction false} RunToFull(w0: World) returns (steps: seq<Step>)
    requires w0 == Watching(0, true, [], 0, None)
    ensures Run(w0, "hub", steps) == Filled(256) && AllSelect(steps, Both)
  {
    hide Next, Run, Filled, AllSelect;
    StartsWatching();
    RunOne(w0, "hub", CONNECT);
    RunFills(256);
    RunConcat(w0, "hub", [CONNECT], Repeat(PUBLISH, 256));
    SelectRepeat(CONNECT, 0);
    SelectRepeat(PUBLISH, 256);
    SelectConcat([CONNECT], Repeat(PUBLISH, 256));
    steps := [CONNECT] + Repeat(PUBLISH, 256);
  }

  lemma {:induction false} RunToGap(w0: World, filling: seq<Step>) returns (steps: seq<Step>)
    requires Run(w0, "hub", filling) == Filled(256) && AllSelect(filling, Both)
    ensures Run(w0, "hub", steps) == Draining(1) && AllSelect(steps, Both)
  {
    hide Next, Run, Viewing, Link, At, Filled, Draining, AllSelect;
    Overfills();
    GoOn(w0, filling, Filled(256), PUBLISH);
    steps := filling + [PUBLISH];
    TakesOne();
    GoOn(w0, steps, OVERFULL, Receive);
    steps := steps + [Receive];
    GapFits();
    GoOn(w0, steps, ONE_TAKEN, PUBLISH);
    steps := steps + [PUBLISH];
    SecondTryFails();
    GoOn(w0, steps, GAPPED, SecondTry);
    steps := steps + [SecondTry];
  }

  lemma {:induction false} RunToEnd(w0: World, gapped: seq<Step>) returns (steps: seq<Step>)
    requires Run(w0, "hub", gapped) == Draining(1) && AllSelect(gapped, Both)
    ensures Run(w0, "hub", steps) == BACK && AllSelect(steps, Both)
  {
    hide Next, Run, Viewing, Link, At, Draining, AllSelect, Retained, Due;
    RunDrains(255);
    RunConcat(w0, "hub", gapped, Repeat(Receive, 255));
    SelectRepeat(Receive, 255);
    SelectConcat(gapped, Repeat(Receive, 255));
    steps := gapped + Repeat(Receive, 255);
    TakesGap();
    GoOn(w0, steps, Draining(256), Receive);
    steps := steps + [Receive];
    OrphansTrigger();
    GoOn(w0, steps, BEHIND_GAP, Hangup);
    steps := steps + [Hangup];
    ComesBack();
    GoOn(w0, steps, WITHOUT_258, CONNECT);
    steps := steps + [CONNECT];
  }
}
