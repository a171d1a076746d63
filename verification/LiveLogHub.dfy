// src/adapters/service_logs.rs: `LiveLogHub`, which numbers lines across all services and opens
// subscriptions. Every method is one critical section of the hub's lock; `reconcile` has two, with log
// files read in between.
module LiveLogHub {
  import opened Wrappers
  import opened Bytes
  import opened LineFraming
  import opened LiveLogs

  const MAX_LIVE_SUBSCRIBERS_PER_SERVICE: nat := 8
  const MAX_TAIL_LINES: nat := 1000

  datatype Cursor = Cursor(hub: string, sequence: nat)

  datatype SubscribeError = ServiceNotFound | TooManySubscribers

  datatype Subscription = Subscription(id: nat, initial: seq<Event>)

  // Fresh lines numbered consecutively after `start`.
  function Numbered(start: nat, stream: Stream, texts: seq<seq<byte>>): (lines: seq<LogLine>)
    ensures |lines| == |texts|
    ensures forall i :: 0 <= i < |lines| ==> lines[i] == LogLine(start + i + 1, stream, texts[i])
  {
    seq(|texts|, i requires 0 <= i < |texts| => LogLine(start + i + 1, stream, texts[i]))
  }

  // --- what a new subscription replays ---

  predicate Replays(selection: Selection, after: Option<nat>, line: LogLine) {
    selection.Includes(line.stream) && (after.Some? ==> line.sequence > after.value)
  }

  function Replayed(selection: Selection, after: Option<nat>, ring: seq<LogLine>): seq<LogLine> {
    if ring == [] then []
    else (if Replays(selection, after, ring[0]) then [ring[0]] else []) + Replayed(selection, after, ring[1..])
  }

  function LastOf(lines: seq<LogLine>, tail: nat): seq<LogLine> {
    if |lines| > tail then lines[|lines| - tail..] else lines
  }

  function AsEvents(lines: seq<LogLine>): seq<Event> {
    seq(|lines|, i requires 0 <= i < |lines| => Line(lines[i]))
  }

  function InitialLines(hub: string, selection: Selection, tail: nat, cursor: Option<Cursor>,
                        ring: seq<LogLine>): seq<LogLine> {
    if cursor.Some? && cursor.value.hub == hub
    then Replayed(selection, Some(cursor.value.sequence), ring)
    else LastOf(Replayed(selection, None, ring), tail)
  }

  // A cursor of another hub is answered with a reset before the replay.
  function Initial(hub: string, selection: Selection, tail: nat, cursor: Option<Cursor>, ring: seq<LogLine>,
                   watermark: nat): seq<Event> {
    (if cursor.Some? && cursor.value.hub != hub then [HubReset(watermark, cursor.value.hub)] else [])
    + AsEvents(InitialLines(hub, selection, tail, cursor, ring))
  }

  lemma {:induction false} ReplayedMembers(selection: Selection, after: Option<nat>, ring: seq<LogLine>)
    requires Increasing(ring)
    ensures var r := Replayed(selection, after, ring);
            && (forall x :: x in r <==> x in ring && Replays(selection, after, x))
            && Increasing(r)
  {
    if ring != [] {
      assert forall x :: x in ring <==> x == ring[0] || x in ring[1..];
      ReplayedMembers(selection, after, ring[1..]);
      var r := Replayed(selection, after, ring[1..]);
      forall i | 0 <= i < |r| ensures ring[0].sequence < r[i].sequence {
        assert r[i] in ring[1..];
      }
    }
  }

  lemma {:induction false} LastOfKeepsOrder(lines: seq<LogLine>, tail: nat)
    requires Increasing(lines)
    ensures Increasing(LastOf(lines, tail)) && |LastOf(lines, tail)| <= tail
    ensures forall x :: x in LastOf(lines, tail) ==> x in lines
  {}

  lemma {:induction false} MatchingCons(selection: Selection, x: LogLine, rest: seq<LogLine>)
    ensures Matching(selection, [x] + rest) ==
            (if selection.Includes(x.stream) then [x] else []) + Matching(selection, rest)
  {
    if rest == [] {
      assert ([x] + rest)[..0] == [] && Matching(selection, []) == [];
    } else {
      var front, last := rest[..|rest| - 1], rest[|rest| - 1];
      assert ([x] + rest)[..|rest|] == [x] + front;
      MatchingCons(selection, x, front);
    }
  }

  lemma {:induction false} ReplayedIsMatching(selection: Selection, ring: seq<LogLine>)
    ensures Replayed(selection, None, ring) == Matching(selection, ring)
  {
    if ring != [] {
      ReplayedIsMatching(selection, ring[1..]);
      MatchingCons(selection, ring[0], ring[1..]);
      assert [ring[0]] + ring[1..] == ring;
    }
  }

  // The replay is in order and drawn from the ring. For a cursor of this hub it is exactly the selected
  // lines after the cursor, otherwise exactly the last `tail` selected lines, or all if there are fewer.
  lemma {:induction false} InitialLinesAreRight(hub: string, selection: Selection, tail: nat, cursor: Option<Cursor>,
                                                ring: seq<LogLine>)
    requires Increasing(ring)
    ensures var lines := InitialLines(hub, selection, tail, cursor, ring);
            var selected := Matching(selection, ring);
            && Increasing(lines)
            && (forall x :: x in lines ==> x in ring && selection.Includes(x.stream))
            && if cursor.Some? && cursor.value.hub == hub
               then forall x :: x in lines <==>
                      x in ring && selection.Includes(x.stream) && x.sequence > cursor.value.sequence
               else lines == selected[if |selected| > tail then |selected| - tail else 0..]
  {
    hide Replayed, Matching;
    if cursor.Some? && cursor.value.hub == hub {
      ReplayedMembers(selection, Some(cursor.value.sequence), ring);
    } else {
      ReplayedMembers(selection, None, ring);
      ReplayedIsMatching(selection, ring);
      LastOfKeepsOrder(Replayed(selection, None, ring), tail);
    }
  }

  // The right lines for a new subscription: of the chosen stream, from the ring, in order; exactly those
  // after the number to resume at, or the newest ones, as many as the tail allows.
  ghost predicate RightLines(lines: seq<LogLine>, selection: Selection, tail: nat, resume: Option<nat>,
                             ring: seq<LogLine>)
  {
    && Increasing(lines)
    && (forall x :: x in lines ==>
          && x in ring
          && (selection == OnlyStdout ==> x.stream == Stdout) && (selection == OnlyStderr ==> x.stream == Stderr))
    && (resume.None? ==> |lines| <= tail)
    && (forall x :: x in ring && (selection == Both || (selection == OnlyStdout && x.stream == Stdout)
                                  || (selection == OnlyStderr && x.stream == Stderr)) ==>
          if resume.Some? then x in lines <==> x.sequence > resume.value
          else x in lines || (|lines| == tail && forall i :: 0 <= i < |lines| ==> x.sequence < lines[i].sequence))
  }

  // A cursor of this hub resumes behind it; one of another hub is answered with a reset first.
  ghost predicate RightReplay(initial: seq<Event>, hub: string, selection: Selection, tail: nat,
                              cursor: Option<Cursor>, ring: seq<LogLine>, watermark: nat)
  {
    exists lines ::
      && initial == (if cursor.Some? && cursor.value.hub != hub then [HubReset(watermark, cursor.value.hub)] else [])
                    + AsEvents(lines)
      && RightLines(lines, selection, tail,
                    if cursor.Some? && cursor.value.hub == hub then Some(cursor.value.sequence) else None, ring)
  }

  lemma {:induction false} InitialIsRight(hub: string, selection: Selection, tail: nat, cursor: Option<Cursor>,
                                          ring: seq<LogLine>, watermark: nat)
    requires Increasing(ring)
    ensures RightReplay(Initial(hub, selection, tail, cursor, ring, watermark), hub, selection, tail, cursor, ring,
                        watermark)
  {
    hide InitialLines, AsEvents, RightLines;
    InitialLinesSelect(hub, selection, tail, cursor, ring);
  }

  lemma {:induction false} InitialLinesSelect(hub: string, selection: Selection, tail: nat, cursor: Option<Cursor>,
                                              ring: seq<LogLine>)
    requires Increasing(ring)
    ensures RightLines(InitialLines(hub, selection, tail, cursor, ring), selection, tail,
                       if cursor.Some? && cursor.value.hub == hub then Some(cursor.value.sequence) else None, ring)
  {
    hide InitialLines, Matching, Increasing;
    InitialLinesAreRight(hub, selection, tail, cursor, ring);
    if cursor.None? || cursor.value.hub != hub {
      MatchingIs(ring);
      MatchingInOrder(selection, ring);
      var selected := Matching(selection, ring);
      LastLinesAreNewest(selected, InitialLines(hub, selection, tail, cursor, ring), tail);
    }
  }

  lemma {:induction false} LastLinesAreNewest(selected: seq<LogLine>, lines: seq<LogLine>, tail: nat)
    requires Increasing(selected) && lines == selected[if |selected| > tail then |selected| - tail else 0..]
    ensures Increasing(lines) && |lines| <= tail && forall x :: x in lines ==> x in selected
    ensures forall x :: x in selected ==>
              x in lines || (|lines| == tail && forall i :: 0 <= i < |lines| ==> x.sequence < lines[i].sequence)
  {
    var n := |selected| - |lines|;
    forall x | x in selected && x !in lines
      ensures |lines| == tail && forall i :: 0 <= i < |lines| ==> x.sequence < lines[i].sequence
    {
      var k :| 0 <= k < |selected| && selected[k] == x;
      assert forall j :: n <= j < |selected| ==> selected[j] == lines[j - n];
      assert k < n;
      forall i | 0 <= i < |lines| ensures x.sequence < lines[i].sequence {
        assert lines[i] == selected[n + i];
      }
    }
  }

  lemma {:induction false} RetainedKeepsOrder(lines: seq<LogLine>)
    requires Increasing(lines)
    ensures Increasing(Retained(lines)) && forall x :: x in Retained(lines) ==> x in lines
  {
    var k := RetainedIsLongestSuffix(lines);
  }

  // --- the hub ---

  // Published lines carry increasing numbers up to the hub's counter.
  ghost predicate NumberedUpTo(lines: seq<LogLine>, counter: nat) {
    Increasing(lines) && forall x :: x in lines ==> x.sequence <= counter
  }

  lemma {:induction false} NumberedSnoc(lines: seq<LogLine>, line: LogLine, counter: nat)
    requires NumberedUpTo(lines, counter) && line.sequence == counter + 1
    ensures NumberedUpTo(lines + [line], counter + 1)
  {
    var all := lines + [line];
    forall i, j | 0 <= i < j < |all| ensures all[i].sequence < all[j].sequence {
      if j == |lines| { assert all[i] in lines; }
    }
  }

  lemma {:induction false} OfferEachSnoc(subscribers: map<nat, Subscriber>, lines: seq<LogLine>, line: LogLine,
                                         receivers: Receivers)
    ensures OfferEach(subscribers, lines + [line], receivers) ==
            OfferAll(OfferEach(subscribers, lines, receivers), line, receivers)
    decreases |lines|
  {
    if lines == [] {
      assert |(lines + [line])[1..]| == 0;
    } else {
      assert (lines + [line])[1..] == lines[1..] + [line];
      OfferEachSnoc(OfferAll(subscribers, lines[0], receivers), lines[1..], line, receivers);
    }
  }

  lemma {:induction false} NumberedIncreases(lines: seq<LogLine>, counter: nat)
    requires NumberedUpTo(lines, counter)
    ensures Increasing(lines)
  {}

  lemma {:induction false} NothingNumbered(counter: nat)
    ensures NumberedUpTo([], counter)
  {}

  lemma {:induction false} NumberedWiden(lines: seq<LogLine>, counter: nat, larger: nat)
    requires NumberedUpTo(lines, counter) && counter <= larger
    ensures NumberedUpTo(lines, larger)
  {}

  lemma {:induction false} OfferEachKeys(subscribers: map<nat, Subscriber>, lines: seq<LogLine>, receivers: Receivers)
    ensures OfferEach(subscribers, lines, receivers).Keys <= subscribers.Keys
    decreases |lines|
  {
    if lines != [] {
      OfferEachKeys(OfferAll(subscribers, lines[0], receivers), lines[1..], receivers);
    }
  }

  // The lines carry these streams and texts, whatever their numbers.
  ghost predicate SameContent(lines: seq<LogLine>, content: seq<(Stream, seq<byte>)>) {
    && |lines| == |content|
    && forall i :: 0 <= i < |lines| ==> lines[i].stream == content[i].0 && lines[i].text == content[i].1
  }

  lemma {:induction false} SameContentSnoc(lines: seq<LogLine>, content: seq<(Stream, seq<byte>)>, k: nat,
                                           line: LogLine)
    requires k < |content| && SameContent(lines, content[..k]) && line.stream == content[k].0 &&
             line.text == content[k].1
    ensures SameContent(lines + [line], content[..k + 1])
  {}

  // --- a whole stream, chunk by chunk ---

  function TextsOf(stream: Stream, lines: seq<LogLine>): seq<seq<byte>> {
    if lines == [] then []
    else TextsOf(stream, lines[..|lines| - 1]) + if lines[|lines| - 1].stream == stream then [lines[|lines| - 1].text]
        else []
  }

  function ChunksOf(stream: Stream, inputs: seq<(Stream, seq<byte>)>): seq<seq<byte>> {
    if inputs == [] then []
    else ChunksOf(stream, inputs[..|inputs| - 1]) + if inputs[|inputs| - 1].0 == stream then [inputs[|inputs| - 1].1]
        else []
  }

  lemma {:induction false} TextsOfConcat(stream: Stream, a: seq<LogLine>, b: seq<LogLine>)
    ensures TextsOf(stream, a + b) == TextsOf(stream, a) + TextsOf(stream, b)
    decreases |b|
  {
    if b == [] {
      assert a + b == a;
    } else {
      assert (a + b)[..|a + b| - 1] == a + b[..|b| - 1];
      TextsOfConcat(stream, a, b[..|b| - 1]);
    }
  }

  lemma {:induction false} TextsOfNumbered(stream: Stream, start: nat, of: Stream, texts: seq<seq<byte>>)
    ensures TextsOf(stream, Numbered(start, of, texts)) == if of == stream then texts else []
  {
    if texts != [] {
      var front := texts[..|texts| - 1];
      assert Numbered(start, of, texts)[..|texts| - 1] == Numbered(start, of, front);
      TextsOfNumbered(stream, start, of, front);
      assert front + [texts[|texts| - 1]] == texts;
    }
  }

  lemma {:induction false} FeedSnoc(rest: seq<byte>, chunks: seq<seq<byte>>, chunk: seq<byte>)
    ensures var f := FeedFrom(rest, chunks);
            var g := Frame(f.rest + chunk);
            FeedFrom(rest, chunks + [chunk]) == Framed(f.pieces + g.pieces, g.rest)
    decreases |chunks|
  {
    hide Frame;
    if chunks == [] {
      var g := Frame(rest + chunk);
      assert [chunk][1..] == [] && (chunks + [chunk]) == [chunk];
      assert g.pieces + [] == g.pieces && [] + g.pieces == g.pieces;
    } else {
      assert (chunks + [chunk])[1..] == chunks[1..] + [chunk];
      var first := Frame(rest + chunks[0]);
      FeedSnoc(first.rest, chunks[1..], chunk);
      var f := FeedFrom(first.rest, chunks[1..]);
      FirstPieces(first.pieces, f.pieces, Frame(f.rest + chunk).pieces);
    }
  }

  lemma {:induction false} FirstPieces(a: seq<Piece>, b: seq<Piece>, c: seq<Piece>)
    ensures a + (b + c) == (a + b) + c
  {}

  // One stream of a service after these reads: its lines are what feeding its chunks gives, its leftover too.
  ghost predicate Fed(stream: Stream, earlier: seq<LogLine>, partial: seq<byte>, inputs: seq<(Stream, seq<byte>)>,
                      pushed: seq<LogLine>, rest: seq<byte>)
  {
    var f := FeedFrom(partial, ChunksOf(stream, inputs));
    TextsOf(stream, pushed) == TextsOf(stream, earlier) + Shown(f.pieces) && rest == f.rest
  }

  lemma {:induction false} NothingFed(stream: Stream, earlier: seq<LogLine>, partial: seq<byte>, inputs: seq<(Stream,
                                      seq<byte>)>)
    ensures Fed(stream, earlier, partial, inputs[..0], earlier, partial)
  {
    assert TextsOf(stream, earlier) + Shown([]) == TextsOf(stream, earlier);
  }

  lemma {:induction false} FedMore(stream: Stream, earlier: seq<LogLine>, partial: seq<byte>, inputs: seq<(Stream,
                                   seq<byte>)>,
                                   k: nat, before: seq<LogLine>, rest: seq<byte>, start: nat, buffer: seq<byte>,
                                   pushed: seq<LogLine>, left: seq<byte>)
    requires k < |inputs| && Fed(stream, earlier, partial, inputs[..k], before, rest)
    requires if inputs[k].0 == stream then buffer == rest + inputs[k].1 && left == Frame(buffer).rest else left == rest
    requires pushed == before + Numbered(start, inputs[k].0, Shown(Frame(buffer).pieces))
    ensures Fed(stream, earlier, partial, inputs[..k + 1], pushed, left)
  {
    var (of, bytes) := inputs[k];
    assert inputs[..k + 1][..k] == inputs[..k];
    var chunks := ChunksOf(stream, inputs[..k]);
    assert ChunksOf(stream, inputs[..k + 1]) == chunks + if of == stream then [bytes] else [];
    var f := FeedFrom(partial, chunks);
    var texts := Shown(Frame(buffer).pieces);
    hide Frame, FeedFrom, Numbered, TextsOf, ChunksOf, Shown;
    TextsOfConcat(stream, before, Numbered(start, of, texts));
    TextsOfNumbered(stream, start, of, texts);
    if of == stream {
      FeedSnoc(partial, chunks, bytes);
      ShownConcat(f.pieces, Frame(buffer).pieces);
      RegroupTexts(TextsOf(stream, earlier), Shown(f.pieces), texts);
    } else {
      assert chunks + [] == chunks;
      assert TextsOf(stream, before) + [] == TextsOf(stream, before);
    }
  }

  lemma {:induction false} RegroupTexts(a: seq<seq<byte>>, b: seq<seq<byte>>, c: seq<seq<byte>>)
    ensures (a + b) + c == a + (b + c)
  {}

  lemma {:induction false} FedThenClosed(stream: Stream, earlier: seq<LogLine>, inputs: seq<(Stream, seq<byte>)>,
                                         before: seq<LogLine>, rest: seq<byte>, start: nat)
    requires Fed(stream, earlier, [], inputs, before, rest)
    ensures TextsOf(stream, before + Numbered(start, stream, Shown(CloseWith(Frame(rest))))) ==
            TextsOf(stream, earlier) + Output(ChunksOf(stream, inputs))
  {
    var chunks := ChunksOf(stream, inputs);
    var f := FeedFrom([], chunks);
    FeedConserves([], chunks);
    FrameKeep(rest);
    var closing := CloseWith(Framed([], rest));
    assert closing == if rest != [] then [Unterminated(rest)] else [];
    assert CloseWith(f) == f.pieces + closing;
    ShownConcat(f.pieces, closing);
    hide Frame, FeedFrom, Numbered, TextsOf, ChunksOf, Shown, CloseWith;
    TextsOfConcat(stream, before, Numbered(start, stream, Shown(closing)));
    TextsOfNumbered(stream, start, stream, Shown(closing));
    RegroupTexts(TextsOf(stream, earlier), Shown(f.pieces), Shown(closing));
  }

  class LiveLogHub {
    const instanceId: string
    var nextSequence: nat
    var nextSubscriberId: nat
    var services: map<string, LiveServiceState>

    ghost predicate Valid()
      reads this, services.Values
    {
      && (forall a, b :: a in services && b in services && a != b ==> services[a] != services[b])
      && (forall id :: id in services ==> services[id].Valid() && NumberedUpTo(services[id].pushed, nextSequence))
      && (forall id, s :: id in services && s in services[id].subscribers ==> s <= nextSubscriberId)
    }

    constructor (instanceId: string)
      ensures Valid() && this.instanceId == instanceId && services == map[] && nextSequence == 0
    {
      this.instanceId := instanceId;
      nextSequence, nextSubscriberId, services := 0, 0, map[];
    }

    // Every subscriber of the service heard what it asked for of the lines since it joined.
    ghost predicate AllHeard(service: LiveServiceState)
      reads service
    {
      forall id :: id in service.subscribers ==>
        && id in service.since && service.since[id] <= |service.pushed|
        && Heard(service.subscribers[id], service.pushed[service.since[id]..])
    }

    // Numbers and publishes complete lines of one service, while the receivers go on as they like.
    method PublishLines(service: LiveServiceState, stream: Stream, texts: seq<seq<byte>>, receivers: Receivers)
      requires service.Valid() && NumberedUpTo(service.pushed, nextSequence)
      modifies this`nextSequence, service`ring, service`ringBytes, service`pushed, service`subscribers
      ensures nextSequence == old(nextSequence) + |texts|
      ensures service.Valid() && NumberedUpTo(service.pushed, nextSequence)
      ensures service.pushed == old(service.pushed) + Numbered(old(nextSequence), stream, texts)
      ensures service.subscribers ==
              OfferEach(old(service.subscribers), Numbered(old(nextSequence), stream, texts), receivers)
      ensures AllHeard(service)
    {
      hide Numbered, OfferEach, OfferAll, NumberedUpTo, LiveServiceState.Valid;
      ghost var lines := Numbered(nextSequence, stream, texts);
      ghost var start, earlier, before := nextSequence, service.pushed, service.subscribers;
      NothingOffered(before, lines, receivers);
      assert earlier + lines[..0] == earlier;
      for k := 0 to |texts|
        invariant nextSequence == start + k
        invariant service.Valid() && NumberedUpTo(service.pushed, nextSequence)
        invariant service.pushed == earlier + lines[..k]
        invariant service.subscribers == OfferEach(before, lines[..k], receivers)
      {
        nextSequence := nextSequence + 1;
        var line := LogLine(nextSequence, stream, texts[k]);
        NumberedSnoc(service.pushed, line, start + k);
        OfferEachSnoc(before, lines[..k], line, receivers);
        TakeOneMore(earlier, lines, k);
        service.PublishEvent(line, receivers);
      }
      assert lines[..|texts|] == lines;
      NumberedIncreases(service.pushed, nextSequence);
      service.AllHeard();
    }

    method Publish(serviceId: string, stream: Stream, bytes: seq<byte>, receivers: Receivers)
      requires Valid()
      modifies this`nextSequence, services.Values
      ensures Valid()
      ensures forall id :: id in services && id != serviceId ==> unchanged(services[id])
      ensures serviceId !in services ==> nextSequence == old(nextSequence)
      ensures serviceId in services ==>
                && Published(serviceId, stream, old(services[serviceId].Partial(stream)) + bytes, false, receivers)
                && AllHeard(services[serviceId])
    {
      hide Frame, Numbered, OfferEach, Shown, CloseWith, NumberedUpTo, LiveServiceState.Valid;
      if serviceId !in services {
        return;
      }
      var service := services[serviceId];
      service.SetPartial(stream, service.Partial(stream) + bytes);
      var texts := service.TakeCompleteLines(stream, false);
      PublishLines(service, stream, texts, receivers);
      OfferEachKeys(old(service.subscribers), Numbered(old(nextSequence), stream, texts), receivers);
      forall id | id in services ensures NumberedUpTo(services[id].pushed, nextSequence) {
        if id != serviceId {
          NumberedWiden(services[id].pushed, old(nextSequence), nextSequence);
        }
      }
    }

    method CloseStream(serviceId: string, stream: Stream, receivers: Receivers)
      requires Valid()
      modifies this`nextSequence, services.Values
      ensures Valid()
      ensures forall id :: id in services && id != serviceId ==> unchanged(services[id])
      ensures serviceId !in services ==> nextSequence == old(nextSequence)
      ensures serviceId in services ==>
                && Published(serviceId, stream, old(services[serviceId].Partial(stream)), true, receivers)
                && AllHeard(services[serviceId])
    {
      hide Frame, Numbered, OfferEach, Shown, CloseWith, NumberedUpTo, LiveServiceState.Valid;
      if serviceId !in services {
        return;
      }
      var service := services[serviceId];
      var texts := service.TakeCompleteLines(stream, true);
      PublishLines(service, stream, texts, receivers);
      OfferEachKeys(old(service.subscribers), Numbered(old(nextSequence), stream, texts), receivers);
      forall id | id in services ensures NumberedUpTo(services[id].pushed, nextSequence) {
        if id != serviceId {
          NumberedWiden(services[id].pushed, old(nextSequence), nextSequence);
        }
      }
    }

    // `buffer` was framed: its lines were numbered, pushed and offered, its leftover kept.
    twostate predicate Published(serviceId: string, stream: Stream, buffer: seq<byte>, close: bool,
                                 receivers: Receivers)
      requires serviceId in services && serviceId in old(services) && old(services[serviceId]) == services[serviceId]
      reads this, services[serviceId]
    {
      var service := services[serviceId];
      var f := Frame(buffer);
      var texts := Shown(if close then CloseWith(f) else f.pieces);
      var lines := Numbered(old(nextSequence), stream, texts);
      && nextSequence == old(nextSequence) + |texts|
      && service.Partial(stream) == (if close then [] else f.rest)
      && (forall other :: other != stream ==> service.Partial(other) == old(service.Partial(other)))
      && service.pushed == old(service.pushed) + lines
      && service.subscribers == OfferEach(old(service.subscribers), lines, receivers)
    }

    // The log pumps of one service: chunks of its two streams as they were read, in any interleaving.
    method PublishReads(serviceId: string, inputs: seq<(Stream, seq<byte>)>, receivers: Receivers)
      requires Valid() && serviceId in services
      modifies this`nextSequence, services.Values
      ensures Valid()
      ensures forall id :: id in services && id != serviceId ==> unchanged(services[id])
      ensures forall stream ::
                Fed(stream, old(services[serviceId].pushed), old(services[serviceId].Partial(stream)), inputs,
                    services[serviceId].pushed, services[serviceId].Partial(stream))
    {
      hide Fed, LiveLogHub.Valid, LiveServiceState.Valid, Frame, Shown, Numbered, OfferEach;
      var service := services[serviceId];
      ghost var earlier := service.pushed;
      forall stream ensures Fed(stream, earlier, service.Partial(stream), inputs[..0], earlier,
          service.Partial(stream)) {
        NothingFed(stream, earlier, service.Partial(stream), inputs);
      }
      for k := 0 to |inputs|
        invariant Valid()
        invariant forall id :: id in services && id != serviceId ==> unchanged(services[id])
        invariant forall stream ::
                    Fed(stream, earlier, old(service.Partial(stream)), inputs[..k], service.pushed,
                        service.Partial(stream))
      {
        ghost var before, start, out, err := service.pushed, nextSequence, service.Partial(Stdout),
            service.Partial(Stderr);
        var (stream, bytes) := inputs[k];
        ghost var buffer := service.Partial(stream) + bytes;
        Publish(serviceId, stream, bytes, receivers);
        forall other
          ensures Fed(other, earlier, old(service.Partial(other)), inputs[..k + 1], service.pushed,
                  service.Partial(other))
        {
          FedMore(other, earlier, old(service.Partial(other)), inputs, k, before, if other == Stdout then out
              else err, start,
                  buffer, service.pushed, service.Partial(other));
        }
      }
      assert inputs[..|inputs|] == inputs;
    }

    // A stream that starts fresh, is read in any chunks and then closed shows what `Output` says of those
    // chunks, whatever the other stream does in between.
    method PumpStream(serviceId: string, inputs: seq<(Stream, seq<byte>)>, stream: Stream, receivers: Receivers)
      requires Valid() && serviceId in services && services[serviceId].Partial(stream) == []
      modifies this`nextSequence, services.Values
      ensures Valid()
      ensures TextsOf(stream, services[serviceId].pushed) ==
              TextsOf(stream, old(services[serviceId].pushed)) + Output(ChunksOf(stream, inputs))
      ensures services[serviceId].Partial(stream) == []
    {
      hide LiveLogHub.Valid, LiveServiceState.Valid, Frame, CloseWith, Shown, FeedFrom, Numbered, TextsOf;
      ghost var earlier := services[serviceId].pushed;
      PublishReads(serviceId, inputs, receivers);
      ghost var before, rest, start := services[serviceId].pushed, services[serviceId].Partial(stream), nextSequence;
      CloseStream(serviceId, stream, receivers);
      FedThenClosed(stream, earlier, inputs, before, rest, start);
    }

    lemma {:induction false} ReplayIsRight(service: LiveServiceState, selection: Selection, tail: nat,
                                           cursor: Option<Cursor>)
      requires service.Valid() && NumberedUpTo(service.pushed, nextSequence)
      ensures RightReplay(Initial(instanceId, selection, tail, cursor, service.ring, nextSequence), instanceId,
                          selection, tail, cursor, service.ring, nextSequence)
    {
      hide Retained, Initial, RightReplay;
      RetainedKeepsOrder(service.pushed);
      InitialIsRight(instanceId, selection, tail, cursor, service.ring, nextSequence);
    }

    method Subscribe(serviceId: string, selection: Selection, requestedTail: nat, cursor: Option<Cursor>)
      returns (r: Result<Subscription, SubscribeError>)
      requires Valid()
      modifies this`nextSubscriberId, services.Values
      ensures Valid()
      ensures nextSubscriberId == old(nextSubscriberId) + 1
      ensures forall id :: id in services && id != serviceId ==> unchanged(services[id])
      ensures serviceId !in services ==> r == Failure(ServiceNotFound)
      ensures serviceId in services ==>
                var service: LiveServiceState := services[serviceId];
                && unchanged(service`ring, service`ringBytes, service`stdoutPartial, service`stderrPartial,
                    service`pushed)
                && if old(|service.subscribers|) >= 8 then
                     r == Failure(TooManySubscribers) && unchanged(service)
                   else
                     var tail := if requestedTail > MAX_TAIL_LINES then MAX_TAIL_LINES else requestedTail;
                     && r == Success(Subscription(nextSubscriberId,
                                       Initial(instanceId, selection, tail, cursor, service.ring, nextSequence)))
                     && RightReplay(r.value.initial, instanceId, selection,
                                    if requestedTail > 1000 then 1000 else requestedTail, cursor, service.ring,
                                    nextSequence)
                     && nextSubscriberId !in old(service.subscribers)
                     && service.subscribers ==
                        old(service.subscribers)[nextSubscriberId := Subscriber(selection, Channel([], 0, true), 0)]
                     && service.since == old(service.since)[nextSubscriberId := |service.pushed|]
    {
      hide Initial, NumberedUpTo, LiveServiceState.Valid, RightReplay;
      nextSubscriberId := nextSubscriberId + 1;
      if serviceId !in services {
        return Failure(ServiceNotFound);
      }
      var service := services[serviceId];
      if |service.subscribers| >= MAX_LIVE_SUBSCRIBERS_PER_SERVICE {
        return Failure(TooManySubscribers);
      }
      var tail := if requestedTail > MAX_TAIL_LINES then MAX_TAIL_LINES else requestedTail;
      var initial := Initial(instanceId, selection, tail, cursor, service.ring, nextSequence);
      ReplayIsRight(service, selection, tail, cursor);
      service.AddSubscriber(nextSubscriberId, selection);
      return Success(Subscription(nextSubscriberId, initial));
    }

    // Two critical sections with file reads in between. `seen` are the services of the first section; wanted
    // ones not among them get the lines of their log files. This is the second section, on whatever the hub
    // has become: wanted services with state keep it, with their subscribers, even if they were loaded
    // meanwhile. The result is the wanted set exactly if no wanted service was dropped in between.
    method Reconcile(wanted: set<string>, seen: set<string>, files: string -> seq<(Stream, seq<byte>)>)
      requires Valid()
      modifies this`nextSequence, this`services
      ensures Valid()
      ensures services.Keys == (old(services).Keys * wanted) + (wanted - seen)
      ensures services.Keys == wanted <==> wanted * seen <= old(services).Keys
      ensures forall id :: id in services && id in old(services) ==>
                services[id] == old(services)[id] && unchanged(services[id])
      ensures forall id :: id in services && id !in old(services) ==>
                && fresh(services[id])
                && services[id].subscribers == map[]
                && SameContent(services[id].pushed, files(id))
      ensures nextSequence >= old(nextSequence)
    {
      hide NumberedUpTo, SameContent, LiveServiceState.Valid, LiveLogHub.Valid;
      ghost var before := services;
      Retain(wanted);
      var loaded := wanted - seen;
      var todo := loaded;
      while todo != {}
        invariant Valid()
        invariant todo <= loaded && services.Keys == (before.Keys * wanted) + (loaded - todo)
        invariant forall id :: id in services && id in before ==> services[id] == before[id] && unchanged(services[id])
        invariant forall id :: id in services && id !in before ==>
                    && fresh(services[id])
                    && services[id].subscribers == map[]
                    && SameContent(services[id].pushed, files(id))
        invariant nextSequence >= old(nextSequence)
        decreases todo
      {
        var id :| id in todo;
        todo := todo - {id};
        if id in services {
          continue;
        }
        AddService(id, files(id));
      }
      WantedIff(wanted, seen, before.Keys);
    }

    method Retain(wanted: set<string>)
      requires Valid()
      modifies this`services
      ensures Valid()
      ensures services == map id | id in old(services) && id in wanted :: old(services)[id]
    {
      hide NumberedUpTo, LiveServiceState.Valid;
      services := map id | id in services && id in wanted :: services[id];
    }

    method AddService(id: string, lines: seq<(Stream, seq<byte>)>)
      requires Valid() && id !in services
      modifies this`nextSequence, this`services
      ensures Valid()
      ensures services.Keys == old(services).Keys + {id}
      ensures forall other :: other in old(services) ==>
                services[other] == old(services)[other] && unchanged(services[other])
      ensures fresh(services[id]) && services[id].subscribers == map[] && SameContent(services[id].pushed, lines)
      ensures nextSequence >= old(nextSequence)
    {
      hide NumberedUpTo, SameContent, LiveServiceState.Valid;
      var service := new LiveServiceState();
      NothingNumbered(nextSequence);
      Replay(service, lines);
      forall other | other in services ensures NumberedUpTo(services[other].pushed, nextSequence) {
        NumberedWiden(services[other].pushed, old(nextSequence), nextSequence);
      }
      services := services[id := service];
    }

    // Loads persisted lines into a new service's ring.
    method Replay(service: LiveServiceState, lines: seq<(Stream, seq<byte>)>)
      requires service.Valid() && service.pushed == [] && service.subscribers == map[]
      modifies this`nextSequence, service`ring, service`ringBytes, service`pushed
      ensures nextSequence == old(nextSequence) + |lines|
      ensures service.Valid() && NumberedUpTo(service.pushed, nextSequence)
      ensures SameContent(service.pushed, lines)
    {
      ghost var start := nextSequence;
      NothingNumbered(nextSequence);
      assert SameContent([], lines[..0]);
      hide NumberedUpTo, SameContent, Retained, TextBytes;
      for k := 0 to |lines|
        invariant nextSequence == start + k
        invariant service.Valid() && NumberedUpTo(service.pushed, nextSequence)
        invariant service.subscribers == map[]
        invariant SameContent(service.pushed, lines[..k])
      {
        nextSequence := nextSequence + 1;
        var line := LogLine(nextSequence, lines[k].0, lines[k].1);
        NumberedSnoc(service.pushed, line, start + k);
        SameContentSnoc(service.pushed, lines, k, line);
        service.PushRing(line);
      }
      assert lines[..|lines|] == lines;
    }

    method Unsubscribe(serviceId: string, subscriberId: nat)
      requires Valid()
      modifies services.Values
      ensures Valid()
      ensures forall id :: id in services && id != serviceId ==> unchanged(services[id])
      ensures serviceId in services ==>
                var service: LiveServiceState := services[serviceId];
                && service.subscribers == old(service.subscribers) - {subscriberId}
                && unchanged(service`ring, service`ringBytes, service`stdoutPartial, service`stderrPartial,
                    service`pushed)
    {
      if serviceId in services {
        services[serviceId].RemoveSubscriber(subscriberId);
      }
    }
  }

  lemma {:induction false} WantedIff(wanted: set<string>, seen: set<string>, now: set<string>)
    ensures (now * wanted) + (wanted - seen) == wanted <==> wanted * seen <= now
  {
    if (now * wanted) + (wanted - seen) == wanted {
      forall id | id in wanted * seen ensures id in now {
        assert id in (now * wanted) + (wanted - seen);
      }
    }
  }

  lemma {:induction false} NothingOffered(subscribers: map<nat, Subscriber>, lines: seq<LogLine>, receivers: Receivers)
    ensures OfferEach(subscribers, lines[..0], receivers) == subscribers
  {}

  lemma {:induction false} TakeOneMore(earlier: seq<LogLine>, lines: seq<LogLine>, k: nat)
    requires k < |lines|
    ensures lines[..k + 1] == lines[..k] + [lines[k]]
    ensures earlier + lines[..k + 1] == earlier + lines[..k] + [lines[k]]
  {}
}
