// src/adapters/service_logs.rs: one service's bounded ring and its subscribers.
module LiveLogs {
  import opened Wrappers
  import opened Bytes
  import opened Sequences
  import opened LineFraming

  const LIVE_RING_LINES: nat := 1000
  const LIVE_RING_BYTES: nat := 1048576
  const LIVE_SUBSCRIBER_QUEUE: nat := 256

  datatype Stream = Stdout | Stderr

  datatype Selection = Both | OnlyStdout | OnlyStderr {
    predicate Includes(stream: Stream) {
      this == Both || (this == OnlyStdout && stream == Stdout) || (this == OnlyStderr && stream == Stderr)
    }
  }

  datatype LogLine = LogLine(sequence: nat, stream: Stream, text: seq<byte>)

  // What travels to a subscriber.
  datatype Event =
    | Line(line: LogLine)
    | Gap(sequence: nat, dropped: nat)
    | HubReset(sequence: nat, previousHub: string)
    | Heartbeat

  // --- the ring ---

  function TextBytes(lines: seq<LogLine>): nat {
    if lines == [] then 0 else |lines[0].text| + TextBytes(lines[1..])
  }

  predicate Fits(lines: seq<LogLine>) {
    |lines| <= LIVE_RING_LINES && TextBytes(lines) <= LIVE_RING_BYTES
  }

  // The longest suffix within both bounds.
  function Retained(lines: seq<LogLine>): seq<LogLine> {
    if Fits(lines) then lines else Retained(lines[1..])
  }

  lemma {:induction false} RetainedIsLongestSuffix(lines: seq<LogLine>) returns (k: nat)
    ensures k <= |lines| && Retained(lines) == lines[k..]
    ensures |lines| - k <= 1000 && TextBytes(lines[k..]) <= 1024 * 1024
    ensures forall j :: 0 <= j < k ==> |lines| - j > 1000 || TextBytes(lines[j..]) > 1024 * 1024
  {
    if Fits(lines) {
      k := 0;
      assert lines[k..] == lines;
    } else {
      var n := RetainedIsLongestSuffix(lines[1..]);
      k := n + 1;
      assert lines[1..][n..] == lines[k..];
      forall j | 0 <= j < k ensures |lines| - j > 1000 || TextBytes(lines[j..]) > 1024 * 1024 {
        assert j > 0 ==> lines[1..][j - 1..] == lines[j..];
        assert j == 0 ==> lines[j..] == lines;
      }
    }
  }

  lemma {:induction false} TextBytesConcat(a: seq<LogLine>, b: seq<LogLine>)
    ensures TextBytes(a + b) == TextBytes(a) + TextBytes(b)
    decreases |a|
  {
    if a == [] {
      assert a + b == b;
    } else {
      assert (a + b)[1..] == a[1..] + b;
      TextBytesConcat(a[1..], b);
    }
  }

  // Trimming as lines arrive loses nothing that trimming at the end would keep.
  lemma {:induction false} RetainedSnoc(lines: seq<LogLine>, line: LogLine)
    ensures Retained(lines + [line]) == Retained(Retained(lines) + [line])
  {
    if !Fits(lines) {
      TextBytesConcat(lines, [line]);
      assert !Fits(lines + [line]);
      assert (lines + [line])[1..] == lines[1..] + [line];
      RetainedSnoc(lines[1..], line);
    }
  }

  // --- one subscriber's bounded channel ---

  // Everything ever sent; the receiver has taken the first `taken` entries.
  datatype Channel = Channel(sent: seq<Event>, taken: nat, connected: bool)

  datatype SendResult = Sent(channel: Channel) | Full | Disconnected

  function TrySend(c: Channel, e: Event): SendResult {
    if !c.connected then Disconnected
    else if |c.sent| - c.taken >= LIVE_SUBSCRIBER_QUEUE then Full
    else Sent(c.(sent := c.sent + [e]))
  }

  datatype Subscriber = Subscriber(selection: Selection, channel: Channel, dropped: nat)

  // What publishing one line does to one subscriber, by the free places in its queue: a pending gap goes
  // first and takes a place of its own; what finds no place counts as dropped. None: to be removed.
  function Offer(s: Subscriber, line: LogLine): Option<Subscriber> {
    if !s.selection.Includes(line.stream) then Some(s)
    else if !s.channel.connected then None
    else
      var gap := if s.dropped > 0 then [Gap(line.sequence, s.dropped)] else [];
      var queued := |s.channel.sent| - s.channel.taken;
      if queued + |gap| < LIVE_SUBSCRIBER_QUEUE then
        Some(s.(channel := s.channel.(sent := s.channel.sent + gap + [Line(line)]), dropped := 0))
      else if queued + |gap| == LIVE_SUBSCRIBER_QUEUE then
        Some(s.(channel := s.channel.(sent := s.channel.sent + gap), dropped := 1))
      else Some(s.(dropped := s.dropped + 1))
  }

  // What a receiver does while the publisher holds the lock, which it does not need: it takes some of the
  // entries waiting for it, or hangs up.
  datatype Progress = Progress(taken: nat, gone: bool)

  function Progressed(s: Subscriber, p: Progress): Subscriber {
    var c := s.channel;
    s.(channel := c.(taken := if c.taken + p.taken <= |c.sent| then c.taken + p.taken else c.taken,
                     connected := c.connected && !p.gone))
  }

  // What the receiver of a subscriber does before a line is offered, and between a gap and that line.
  type Receivers = (nat, nat) -> (Progress, Progress)

  function GapSent(s: Subscriber, line: LogLine): Subscriber {
    s.(channel := s.channel.(sent := s.channel.sent + [Gap(line.sequence, s.dropped)]), dropped := 0)
  }

  // The offer to a subscriber whose receiver goes on meanwhile: if a gap could be sent, the line is
  // offered to what the receiver has made of it by then.
  function OfferDuring(s: Subscriber, line: LogLine, progress: (Progress, Progress)): Option<Subscriber> {
    var t := Progressed(s, progress.0);
    if t.selection.Includes(line.stream) && t.channel.connected && t.dropped > 0
       && |t.channel.sent| - t.channel.taken < LIVE_SUBSCRIBER_QUEUE
    then Offer(Progressed(GapSent(t, line), progress.1), line)
    else Offer(t, line)
  }

  // With an idle receiver the free places at the start decide.
  lemma {:induction false} OfferToIdle(s: Subscriber, line: LogLine)
    ensures OfferDuring(s, line, (Progress(0, false), Progress(0, false))) == Offer(s, line)
  {
    var sent, gap := s.channel.sent, [Gap(line.sequence, s.dropped)];
    assert sent + gap + [] == sent + gap;
  }

  function OfferAll(subscribers: map<nat, Subscriber>, line: LogLine, receivers: Receivers): map<nat, Subscriber> {
    map id | id in subscribers && OfferDuring(subscribers[id], line, receivers(line.sequence, id)).Some?
      :: OfferDuring(subscribers[id], line, receivers(line.sequence, id)).value
  }

  function OfferEach(subscribers: map<nat, Subscriber>, lines: seq<LogLine>, receivers: Receivers): map<nat, Subscriber>
    decreases |lines|
  {
    if lines == [] then subscribers else OfferEach(OfferAll(subscribers, lines[0], receivers), lines[1..], receivers)
  }

  // --- accounting ---

  function Matching(selection: Selection, lines: seq<LogLine>): seq<LogLine> {
    if lines == [] then []
    else
      Matching(selection, lines[..|lines| - 1]) +
      if selection.Includes(lines[|lines| - 1].stream) then [lines[|lines| - 1]] else []
  }

  // How many matching lines these entries account for: one per line, `dropped` per gap.
  function Covered(sent: seq<Event>): nat {
    if sent == [] then 0
    else
      Covered(sent[..|sent| - 1]) +
      match sent[|sent| - 1]
      case Line(_) => 1
      case Gap(_, dropped) => dropped
      case _ => 0
  }

  // Entry i reports the right position in the matching lines: a line is the next one, a gap skips
  // at least one and names the line that triggered it, which comes right after those skipped.
  ghost predicate EntryInPlace(matching: seq<LogLine>, sent: seq<Event>, i: nat)
    requires i < |sent|
  {
    var at := Covered(sent[..i]);
    match sent[i]
    case Line(line) => at < |matching| && line == matching[at]
    case Gap(sequence, dropped) =>
      dropped > 0 && at + dropped < |matching| && matching[at + dropped].sequence == sequence
    case _ => false
  }

  // Lines sent, lines reported dropped and lines silently pending are together all matching lines.
  ghost predicate Accounts(matching: seq<LogLine>, s: Subscriber) {
    && Covered(s.channel.sent) + s.dropped == |matching|
    && forall i: nat :: i < |s.channel.sent| ==> EntryInPlace(matching, s.channel.sent, i)
  }

  lemma {:induction false} EntryStaysInPlace(matching: seq<LogLine>, more: seq<LogLine>, sent: seq<Event>,
                                             added: seq<Event>, i: nat)
    requires i < |sent| && EntryInPlace(matching, sent, i)
    ensures EntryInPlace(matching + more, sent + added, i)
  {
    assert (sent + added)[..i] == sent[..i];
  }

  lemma {:induction false} CoveredSnoc(sent: seq<Event>, e: Event)
    ensures Covered(sent + [e]) == Covered(sent) + match e case Line(_) => 1 case Gap(_, dropped) => dropped case _ => 0
  {
    assert (sent + [e])[..|sent|] == sent;
  }

  // One entry more, and perhaps one matching line more.
  lemma {:induction false} AccountsAfterEntry(matching: seq<LogLine>, more: seq<LogLine>, s: Subscriber, e: Event,
                                              dropped: nat)
    requires forall i: nat :: i < |s.channel.sent| ==> EntryInPlace(matching, s.channel.sent, i)
    requires EntryInPlace(matching + more, s.channel.sent + [e], |s.channel.sent|)
    requires Covered(s.channel.sent + [e]) + dropped == |matching + more|
    ensures Accounts(matching + more, s.(channel := s.channel.(sent := s.channel.sent + [e]), dropped := dropped))
  {
    var sent := s.channel.sent + [e];
    forall i: nat | i < |sent| ensures EntryInPlace(matching + more, sent, i) {
      if i < |s.channel.sent| {
        EntryStaysInPlace(matching, more, s.channel.sent, [e], i);
      }
    }
  }

  lemma {:induction false} AccountsAfterDrop(matching: seq<LogLine>, line: LogLine, s: Subscriber)
    requires Accounts(matching, s)
    ensures Accounts(matching + [line], s.(dropped := s.dropped + 1))
  {
    forall i: nat | i < |s.channel.sent| ensures EntryInPlace(matching + [line], s.channel.sent, i) {
      EntryStaysInPlace(matching, [line], s.channel.sent, [], i);
      assert s.channel.sent + [] == s.channel.sent;
    }
  }

  lemma {:induction false} AccountsAfterLine(matching: seq<LogLine>, line: LogLine, s: Subscriber)
    requires Accounts(matching, s) && s.dropped == 0
    ensures Accounts(matching + [line], s.(channel := s.channel.(sent := s.channel.sent + [Line(line)])))
  {
    CoveredSnoc(s.channel.sent, Line(line));
    assert (s.channel.sent + [Line(line)])[..|s.channel.sent|] == s.channel.sent;
    AccountsAfterEntry(matching, [line], s, Line(line), 0);
  }

  // A gap entry together with its triggering line; the line may still be dropped.
  lemma {:induction false} AccountsAfterGap(matching: seq<LogLine>, line: LogLine, s: Subscriber)
    requires Accounts(matching, s) && s.dropped > 0
    ensures var gap := Gap(line.sequence, s.dropped);
            var sent := s.channel.sent + [gap];
            && Accounts(matching + [line], s.(channel := s.channel.(sent := sent), dropped := 1))
            && Accounts(matching + [line], s.(channel := s.channel.(sent := sent + [Line(line)]), dropped := 0))
  {
    var gap := Gap(line.sequence, s.dropped);
    CoveredSnoc(s.channel.sent, gap);
    var sent := s.channel.sent + [gap];
    assert sent[..|s.channel.sent|] == s.channel.sent;
    AccountsAfterEntry(matching, [line], s, gap, 1);
    var t := s.(channel := s.channel.(sent := sent), dropped := 1);
    CoveredSnoc(sent, Line(line));
    assert (sent + [Line(line)])[..|sent|] == sent;
    assert (matching + [line]) + [] == matching + [line];
    AccountsAfterEntry(matching + [line], [], t, Line(line), 0);
  }

  // Whatever the channel answers, a surviving subscriber's account stays exact.
  lemma {:induction false} OfferAccounts(matching: seq<LogLine>, line: LogLine, s: Subscriber)
    requires Accounts(matching, s) && Offer(s, line).Some?
    ensures Accounts(if s.selection.Includes(line.stream) then matching + [line] else matching, Offer(s, line).value)
    ensures Offer(s, line).value.selection == s.selection
  {
    hide Accounts, Covered;
    assert s.channel.sent + [] == s.channel.sent;
    if s.selection.Includes(line.stream) {
      AccountsAfterDrop(matching, line, s);
      if s.dropped == 0 {
        AccountsAfterLine(matching, line, s);
      } else {
        AccountsAfterGap(matching, line, s);
      }
    }
  }

  // The account does not depend on what the receiver has taken, or whether it is still there.
  lemma {:induction false} ProgressAccounts(matching: seq<LogLine>, s: Subscriber, p: Progress)
    ensures Accounts(matching, Progressed(s, p)) <==> Accounts(matching, s)
  {}

  lemma {:induction false} OfferDuringAccounts(matching: seq<LogLine>, line: LogLine, s: Subscriber,
                                               progress: (Progress, Progress))
    requires Accounts(matching, s) && OfferDuring(s, line, progress).Some?
    ensures var r := OfferDuring(s, line, progress).value;
            && Accounts(if s.selection.Includes(line.stream) then matching + [line] else matching, r)
            && r.selection == s.selection
  {
    var t := Progressed(s, progress.0);
    ProgressAccounts(matching, s, progress.0);
    hide Accounts, Covered;
    if t.selection.Includes(line.stream) && t.channel.connected && t.dropped > 0
       && |t.channel.sent| - t.channel.taken < LIVE_SUBSCRIBER_QUEUE
    {
      var u := Progressed(GapSent(t, line), progress.1);
      AccountsAfterGap(matching, line, t);
      assert u.channel.sent + [] == u.channel.sent;
      var r := Offer(u, line).value;
      SameSent(matching + [line], t.(channel := t.channel.(sent := r.channel.sent), dropped := r.dropped), r);
    } else {
      OfferAccounts(matching, line, t);
    }
  }

  lemma {:induction false} SameSent(matching: seq<LogLine>, s: Subscriber, t: Subscriber)
    requires Accounts(matching, s) && t.channel.sent == s.channel.sent && t.dropped == s.dropped
    ensures Accounts(matching, t)
  {}

  // --- lines in order ---

  ghost predicate Increasing(lines: seq<LogLine>) {
    forall i, j :: 0 <= i < j < |lines| ==> lines[i].sequence < lines[j].sequence
  }

  lemma {:induction false} MatchingSnoc(selection: Selection, lines: seq<LogLine>, line: LogLine)
    ensures Matching(selection, lines + [line]) ==
            Matching(selection, lines) + if selection.Includes(line.stream) then [line] else []
  {
    assert (lines + [line])[..|lines|] == lines;
  }

  // A selection keeps all lines, or exactly those of its stream, and the two streams share all lines out.
  lemma {:induction false} MatchingIs(lines: seq<LogLine>)
    ensures Matching(Both, lines) == lines
    ensures forall x :: x in Matching(OnlyStdout, lines) <==> x in lines && x.stream == Stdout
    ensures forall x :: x in Matching(OnlyStderr, lines) <==> x in lines && x.stream == Stderr
    ensures |Matching(OnlyStdout, lines)| + |Matching(OnlyStderr, lines)| == |lines|
  {
    if lines != [] {
      var front := lines[..|lines| - 1];
      assert lines == front + [lines[|lines| - 1]];
      MatchingIs(front);
    }
  }

  lemma {:induction false} MatchingInOrder(selection: Selection, lines: seq<LogLine>)
    requires Increasing(lines)
    ensures Increasing(Matching(selection, lines))
    ensures forall x :: x in Matching(selection, lines) ==> x in lines
  {
    if lines != [] {
      var front, last := lines[..|lines| - 1], lines[|lines| - 1];
      MatchingInOrder(selection, front);
      var m := Matching(selection, front);
      forall i | 0 <= i < |m| ensures m[i].sequence < last.sequence {
        assert m[i] in front;
      }
    }
  }

  // Of the lines published since it joined, a subscriber was sent only those of its stream; each of these
  // was sent, or is within a gap it was told of, or is still to be told of.
  ghost predicate Heard(s: Subscriber, lines: seq<LogLine>) {
    var sent := s.channel.sent;
    && (forall i :: 0 <= i < |sent| && sent[i].Line? ==>
          && sent[i].line in lines
          && (s.selection == OnlyStdout ==> sent[i].line.stream == Stdout)
          && (s.selection == OnlyStderr ==> sent[i].line.stream == Stderr))
    && (forall x :: x in lines && (s.selection == Both || (s.selection == OnlyStdout && x.stream == Stdout)
                                   || (s.selection == OnlyStderr && x.stream == Stderr)) ==>
          Line(x) in sent || ToldOf(sent, x) || (s.dropped > 0 && AfterLines(sent, |sent|, x)))
  }

  // The first n entries hold only lines older than x.
  ghost predicate AfterLines(sent: seq<Event>, n: nat, x: LogLine)
    requires n <= |sent|
  {
    forall j :: 0 <= j < n && sent[j].Line? ==> sent[j].line.sequence < x.sequence
  }

  ghost predicate ToldOf(sent: seq<Event>, x: LogLine) {
    exists i :: 0 <= i < |sent| && sent[i].Gap? && x.sequence < sent[i].sequence && AfterLines(sent, i, x)
  }

  lemma {:induction false} CoveredRises(sent: seq<Event>, i: nat, j: nat)
    requires i <= j <= |sent|
    ensures Covered(sent[..i]) <= Covered(sent[..j])
    decreases j
  {
    if i < j {
      assert sent[..j][..j - 1] == sent[..j - 1];
      CoveredRises(sent, i, j - 1);
    }
  }

  // The first n entries deal with the first Covered(sent[..n]) lines.
  lemma {:induction false} CoveredLine(matching: seq<LogLine>, sent: seq<Event>, n: nat, p: nat)
    requires n <= |sent| && Increasing(matching) && p < Covered(sent[..n]) && p < |matching|
    requires forall i: nat :: i < |sent| ==> EntryInPlace(matching, sent, i)
    ensures Line(matching[p]) in sent || ToldOf(sent, matching[p])
    decreases n
  {
    assert sent[..n][..n - 1] == sent[..n - 1];
    if p < Covered(sent[..n - 1]) {
      CoveredLine(matching, sent, n - 1, p);
    } else {
      assert EntryInPlace(matching, sent, n - 1);
      EarlierLines(matching, sent, n - 1, p);
    }
  }

  lemma {:induction false} EarlierLines(matching: seq<LogLine>, sent: seq<Event>, n: nat, p: nat)
    requires n <= |sent| && Increasing(matching) && Covered(sent[..n]) <= p < |matching|
    requires forall i: nat :: i < |sent| ==> EntryInPlace(matching, sent, i)
    ensures AfterLines(sent, n, matching[p])
  {
    forall j: nat | j < n && sent[j].Line? ensures sent[j].line.sequence < matching[p].sequence {
      assert EntryInPlace(matching, sent, j);
      assert sent[..j + 1][..j] == sent[..j];
      CoveredRises(sent, j + 1, n);
    }
  }

  lemma {:induction false} AccountsHeard(s: Subscriber, lines: seq<LogLine>)
    requires Increasing(lines) && Accounts(Matching(s.selection, lines), s)
    ensures Heard(s, lines)
  {
    var matching, sent := Matching(s.selection, lines), s.channel.sent;
    MatchingIs(lines);
    MatchingInOrder(s.selection, lines);
    hide Matching, ToldOf, AfterLines, Covered, EntryInPlace, Accounts;
    AccountsLines(s, matching);
    forall x | x in matching
      ensures Line(x) in sent || ToldOf(sent, x) || (s.dropped > 0 && AfterLines(sent, |sent|, x))
    {
      AccountsLine(s, matching, x);
    }
  }

  lemma {:induction false} AccountsLines(s: Subscriber, matching: seq<LogLine>)
    requires Accounts(matching, s)
    ensures var sent := s.channel.sent; forall i :: 0 <= i < |sent| && sent[i].Line? ==> sent[i].line in matching
  {
    var sent := s.channel.sent;
    hide Covered;
    forall i: nat | i < |sent| && sent[i].Line? ensures sent[i].line in matching {
      assert EntryInPlace(matching, sent, i);
    }
  }

  lemma {:induction false} AccountsLine(s: Subscriber, matching: seq<LogLine>, x: LogLine)
    requires Accounts(matching, s) && Increasing(matching) && x in matching
    ensures var sent := s.channel.sent;
            Line(x) in sent || ToldOf(sent, x) || (s.dropped > 0 && AfterLines(sent, |sent|, x))
  {
    var sent := s.channel.sent;
    hide EntryInPlace, ToldOf, AfterLines, Covered;
    assert sent[..|sent|] == sent;
    var p: nat :| p < |matching| && matching[p] == x;
    if p < Covered(sent) {
      CoveredLine(matching, sent, |sent|, p);
    } else {
      EarlierLines(matching, sent, |sent|, p);
    }
  }

  // --- one service ---

  // Every subscriber's account of the lines since it joined is exact.
  ghost predicate AllAccounted(subscribers: map<nat, Subscriber>, since: map<nat, nat>, pushed: seq<LogLine>) {
    forall id :: id in subscribers ==>
      && id in since && since[id] <= |pushed|
      && Accounts(Matching(subscribers[id].selection, pushed[since[id]..]), subscribers[id])
  }

  lemma {:induction false} AllStayAccounted(before: map<nat, Subscriber>, since: map<nat, nat>, pushed: seq<LogLine>,
                                            line: LogLine, receivers: Receivers)
    requires AllAccounted(before, since, pushed)
    ensures AllAccounted(OfferAll(before, line, receivers), since, pushed + [line])
  {
    hide Accounts, Matching, OfferDuring;
    var after := OfferAll(before, line, receivers);
    forall id | id in after
      ensures id in since && since[id] <= |pushed|
      ensures Accounts(Matching(after[id].selection, (pushed + [line])[since[id]..]), after[id])
    {
      KeepsAccount(before[id], after[id], pushed, since[id], line, receivers(line.sequence, id));
    }
  }

  class LiveServiceState {
    var ring: seq<LogLine>
    var ringBytes: nat
    var stdoutPartial: seq<byte>
    var stderrPartial: seq<byte>
    var subscribers: map<nat, Subscriber>
    // Every line published since creation, and how many there were when each subscriber joined.
    ghost var pushed: seq<LogLine>
    ghost var since: map<nat, nat>

    ghost predicate Valid()
      reads this`ring, this`ringBytes, this`pushed, this`subscribers, this`since
    {
      && ring == Retained(pushed)
      && ringBytes == TextBytes(ring)
      && AllAccounted(subscribers, since, pushed)
    }

    constructor ()
      ensures Valid() && pushed == [] && subscribers == map[] && stdoutPartial == [] && stderrPartial == []
    {
      ring, ringBytes, stdoutPartial, stderrPartial, subscribers := [], 0, [], [], map[];
      pushed, since := [], map[];
    }

    function Partial(stream: Stream): seq<byte>
      reads this`stdoutPartial, this`stderrPartial
    {
      if stream == Stdout then stdoutPartial else stderrPartial
    }

    method SetPartial(stream: Stream, bytes: seq<byte>)
      modifies this`stdoutPartial, this`stderrPartial
      ensures Partial(stream) == bytes
      ensures forall other :: other != stream ==> Partial(other) == old(Partial(other))
    {
      if stream == Stdout { stdoutPartial := bytes; } else { stderrPartial := bytes; }
    }

    // Drains complete lines, oversized partial lines and, on close, the leftover.
    method TakeCompleteLines(stream: Stream, close: bool) returns (lines: seq<seq<byte>>)
      modifies this`stdoutPartial, this`stderrPartial
      ensures var f := old(Frame(Partial(stream)));
              && lines == Shown(if close then CloseWith(f) else f.pieces)
              && Partial(stream) == if close then [] else f.rest
      ensures forall other :: other != stream ==> Partial(other) == old(Partial(other))
    {
      lines := [];
      ghost var f := Frame(Partial(stream));
      ghost var done: seq<Piece> := [];
      assert [] + f.pieces == f.pieces;
      hide Shown;
      NothingIsShown();
      while true
        invariant lines == Shown(done)
        invariant f == Framed(done + Frame(Partial(stream)).pieces, Frame(Partial(stream)).rest)
        invariant forall other :: other != stream ==> Partial(other) == old(Partial(other))
        decreases |Partial(stream)|
      {
        var partial := Partial(stream);
        ghost var piece;
        if LF in partial {
          var position := IndexOf(partial, LF);
          var bytes := partial[..position + 1];
          SetPartial(stream, partial[position + 1..]);
          bytes := bytes[..|bytes| - 1];
          assert bytes == partial[..position];
          piece := Terminate(bytes);
          FrameAtNewline(partial);
          if bytes != [] && bytes[|bytes| - 1] == CR {
            bytes := bytes[..|bytes| - 1];
          }
          lines := lines + [bytes];
        } else if |partial| >= MAX_PARTIAL_LINE_BYTES {
          var bytes := partial[..MAX_PARTIAL_LINE_BYTES];
          SetPartial(stream, partial[MAX_PARTIAL_LINE_BYTES..]);
          piece := Truncated(bytes);
          FrameCut(partial);
          lines := lines + [bytes + TRUNCATION_NOTE];
        } else {
          FrameKeep(partial);
          assert done + [] == done;
          break;
        }
        ShownSnoc(done, piece);
        Regroup(done, [piece], Frame(Partial(stream)).pieces);
        done := done + [piece];
      }
      if close && Partial(stream) != [] {
        lines := lines + [Partial(stream)];
        ShownSnoc(done, Unterminated(Partial(stream)));
        SetPartial(stream, []);
      } else {
        assert done + [] == done;
      }
    }

    method PushRing(line: LogLine)
      requires ring == Retained(pushed) && ringBytes == TextBytes(ring)
      modifies this`ring, this`ringBytes, this`pushed
      ensures pushed == old(pushed) + [line]
      ensures ring == Retained(pushed) && ringBytes == TextBytes(ring) && |ring| <= 1000 && ringBytes <= 1024 * 1024
    {
      RetainedSnoc(pushed, line);
      TextBytesConcat(ring, [line]);
      pushed := pushed + [line];
      ghost var all := pushed;
      ringBytes := ringBytes + |line.text|;
      ring := ring + [line];
      while |ring| > LIVE_RING_LINES || ringBytes > LIVE_RING_BYTES
        invariant pushed == all
        invariant ringBytes == TextBytes(ring)
        invariant Retained(ring) == Retained(all)
        decreases |ring|
      {
        if ring == [] {
          break;
        }
        var removed := ring[0];
        ring := ring[1..];
        ringBytes := ringBytes - |removed.text|;
      }
    }

    // Delivery of one line to one subscriber, as the publishing loop does it: one or two attempts to send,
    // before each of which the receiver may have moved on. A surviving subscriber is accounted for up to
    // and including the line, and only a receiver that is gone is removed.
    static method Deliver(s: Subscriber, line: LogLine, progress: (Progress, Progress)) returns (r: Option<Subscriber>)
      ensures r == OfferDuring(s, line, progress)
      // The other stream's lines are not offered.
      ensures (s.selection == OnlyStdout && line.stream == Stderr)
              || (s.selection == OnlyStderr && line.stream == Stdout) ==>
                r == Some(Progressed(s, progress.0))
      ensures s.selection == Both || (s.selection == OnlyStdout <==> line.stream == Stdout) ==>
                var t := Progressed(s, progress.0).channel;
                && (r.None? <==> !t.connected || (progress.1.gone && s.dropped > 0 && |t.sent| - t.taken < 256))
                && (t.connected && progress.1 == Progress(0, false) ==>
                      var room := 256 - (|t.sent| - t.taken);
                      && r.value.channel.taken == t.taken && r.value.channel.connected
                      && r.value.channel.sent ==
                         t.sent + (if room <= 0 then []
                                   else if s.dropped == 0 then [Line(line)]
                                   else if room == 1 then [Gap(line.sequence, s.dropped)]
                                   else [Gap(line.sequence, s.dropped), Line(line)])
                      && r.value.dropped ==
                         (if room <= 0 then s.dropped + 1 else if s.dropped > 0 && room == 1 then 1 else 0))
      ensures r.Some? ==> r.value.selection == s.selection
      ensures r.Some? && s.channel.taken <= |s.channel.sent| <= s.channel.taken + 256 ==>
                r.value.channel.taken <= |r.value.channel.sent| <= r.value.channel.taken + 256
      ensures forall matching :: r.Some? && Accounts(matching, s) ==>
                Accounts(if s.selection.Includes(line.stream) then matching + [line] else matching, r.value)
    {
      forall matching | OfferDuring(s, line, progress).Some? && Accounts(matching, s)
        ensures Accounts(if s.selection.Includes(line.stream) then matching + [line] else matching,
                         OfferDuring(s, line, progress).value)
      {
        OfferDuringAccounts(matching, line, s, progress);
      }
      hide Accounts;
      var subscriber := Progressed(s, progress.0);
      assert subscriber.channel.sent + [] == subscriber.channel.sent;
      if !subscriber.selection.Includes(line.stream) {
        return Some(subscriber);
      }
      if subscriber.dropped > 0 {
        match TrySend(subscriber.channel, Gap(line.sequence, subscriber.dropped)) {
          case Sent(c) =>
            subscriber := Progressed(subscriber.(channel := c, dropped := 0), progress.1);
            assert subscriber.channel.sent + [] == subscriber.channel.sent;
          case Full =>
            return Some(subscriber.(dropped := subscriber.dropped + 1));
          case Disconnected =>
            return None;
        }
      }
      match TrySend(subscriber.channel, Line(line)) {
        case Sent(c) => return Some(subscriber.(channel := c));
        case Full => return Some(subscriber.(dropped := subscriber.dropped + 1));
        case Disconnected => return None;
      }
    }

    method PublishEvent(line: LogLine, receivers: Receivers)
      requires Valid()
      modifies this`ring, this`ringBytes, this`pushed, this`subscribers
      ensures Valid()
      ensures pushed == old(pushed) + [line]
      ensures subscribers == OfferAll(old(subscribers), line, receivers)
      ensures Increasing(pushed) ==>
                forall id :: id in subscribers ==> Heard(subscribers[id], pushed[since[id]..])
    {
      AllStayAccounted(subscribers, since, pushed, line, receivers);
      hide Heard, AllAccounted, OfferAll, Retained, TextBytes;
      PushRing(line);
      subscribers := DeliverAll(subscribers, line, receivers);
      if Increasing(pushed) {
        AllHeard();
      }
    }

    lemma {:induction false} AllHeard()
      requires Valid() && Increasing(pushed)
      ensures forall id :: id in subscribers ==>
                id in since && since[id] <= |pushed| && Heard(subscribers[id], pushed[since[id]..])
    {
      hide Heard, Accounts;
      forall id | id in subscribers ensures Heard(subscribers[id], pushed[since[id]..]) {
        AccountsHeard(subscribers[id], pushed[since[id]..]);
      }
    }

    method AddSubscriber(id: nat, selection: Selection)
      requires Valid() && id !in subscribers
      modifies this`subscribers, this`since
      ensures Valid()
      ensures subscribers == old(subscribers)[id := Subscriber(selection, Channel([], 0, true), 0)]
      ensures since == old(since)[id := |pushed|]
    {
      subscribers := subscribers[id := Subscriber(selection, Channel([], 0, true), 0)];
      since := since[id := |pushed|];
      assert pushed[|pushed|..] == [];
    }

    method RemoveSubscriber(id: nat)
      requires Valid()
      modifies this`subscribers
      ensures Valid()
      ensures subscribers == old(subscribers) - {id}
    {
      subscribers := subscribers - {id};
    }

    static method DeliverAll(before: map<nat, Subscriber>, line: LogLine, receivers: Receivers)
      returns (subscribers: map<nat, Subscriber>)
      ensures subscribers == OfferAll(before, line, receivers)
    {
      hide OfferDuring;
      subscribers := before;
      var disconnected: set<nat> := {};
      var todo := subscribers.Keys;
      while todo != {}
        invariant todo <= subscribers.Keys == before.Keys
        invariant disconnected <= before.Keys - todo
        invariant forall id :: id in todo ==> subscribers[id] == before[id]
        invariant forall id :: id in disconnected ==> OfferDuring(before[id], line, receivers(line.sequence, id)).None?
        invariant forall id :: id in before && id !in todo && id !in disconnected ==>
                    OfferDuring(before[id], line, receivers(line.sequence, id)) == Some(subscribers[id])
        decreases todo
      {
        var id :| id in todo;
        todo := todo - {id};
        var subscriber := Deliver(subscribers[id], line, receivers(line.sequence, id));
        if subscriber.Some? {
          subscribers := subscribers[id := subscriber.value];
        } else {
          disconnected := disconnected + {id};
        }
      }
      subscribers := subscribers - disconnected;
    }
  }

  lemma {:induction false} KeepsAccount(s: Subscriber, t: Subscriber, earlier: seq<LogLine>, since: nat, line: LogLine,
                                        progress: (Progress, Progress))
    requires since <= |earlier| && Accounts(Matching(s.selection, earlier[since..]), s)
    requires OfferDuring(s, line, progress) == Some(t)
    ensures Accounts(Matching(t.selection, (earlier + [line])[since..]), t)
  {
    hide Accounts, OfferDuring, Matching;
    assert (earlier + [line])[since..] == earlier[since..] + [line];
    MatchingSnoc(s.selection, earlier[since..], line);
    OfferDuringAccounts(Matching(s.selection, earlier[since..]), line, s, progress);
    assert Matching(s.selection, earlier[since..]) + [] == Matching(s.selection, earlier[since..]);
  }

  lemma {:induction false} ShownSnoc(pieces: seq<Piece>, piece: Piece)
    ensures Shown(pieces + [piece]) == Shown(pieces) + [piece.Shown()]
  {}

  lemma {:induction false} NothingIsShown()
    ensures Shown([]) == []
  {}
}
