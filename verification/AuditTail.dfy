// src/adapters/registration_events.rs: the follower of the append-only registration audit. Decoding
// one JSON record is a parameter.
module AuditTail {
  import opened Wrappers
  import opened Bytes
  import opened Sequences

  const MAX_EVENT_BYTES: nat := 16 * 1024
  const MAX_POLL_BYTES: nat := 256 * 1024

  datatype AuditEvent = AuditEvent(schemaVersion: nat, body: string)

  datatype PollError = Io | Oversized | Parse | UnsupportedSchema(version: nat)

  // What the file system shows to one poll.
  datatype FileView = Missing | Unreadable | Present(content: seq<byte>, readable: bool)

  // --- lines ---

  // Non-empty runs of bytes that a newline ends.
  function Records(bytes: seq<byte>): seq<seq<byte>>
    decreases |bytes|
  {
    if LF !in bytes then []
    else
      var i := IndexOf(bytes, LF);
      if i == 0 then Records(bytes[i + 1..]) else [bytes[..i]] + Records(bytes[i + 1..])
  }

  // How many bytes the complete lines take up.
  function CompleteLength(bytes: seq<byte>): (n: nat)
    ensures n <= |bytes| && LF !in bytes[n..]
    ensures n > 0 ==> bytes[n - 1] == LF
    ensures n > 0 <==> LF in bytes
  {
    if bytes == [] then 0
    else if bytes[|bytes| - 1] == LF then |bytes|
    else
      var front := bytes[..|bytes| - 1];
      var n := CompleteLength(front);
      assert bytes[n..] == front[n..] + [bytes[|bytes| - 1]];
      assert forall b :: b in bytes <==> b in front || b == bytes[|bytes| - 1];
      n
  }

  ghost predicate AtLineStart(bytes: seq<byte>, at: nat) {
    at <= |bytes| && (at == 0 || bytes[at - 1] == LF)
  }

  lemma {:induction false} RecordsConcat(a: seq<byte>, b: seq<byte>)
    requires AtLineStart(a, |a|)
    ensures Records(a + b) == Records(a) + Records(b)
    decreases |a|
  {
    hide Records, IndexOf;
    if a == [] {
      assert a + b == b;
      NoRecords(a);
      assert [] + Records(b) == Records(b);
    } else {
      var i := IndexOf(a, LF);
      IndexOfPrefix(a, b, LF);
      assert (a + b)[..i] == a[..i] && (a + b)[i + 1..] == a[i + 1..] + b;
      RecordsConcat(a[i + 1..], b);
      NextRecord(a);
      NextRecord(a + b);
      if i > 0 {
        Regroup([a[..i]], Records(a[i + 1..]), Records(b));
      }
    }
  }

  // The line in front is a record unless it is empty. With NoRecords this determines Records.
  lemma {:induction false} RecordsByLine(line: seq<byte>, rest: seq<byte>)
    requires LF !in line
    ensures Records(line + [LF] + rest) == (if line == [] then [] else [line]) + Records(rest)
  {
    var bytes := line + [LF] + rest;
    assert bytes[|line|] == LF && bytes[..|line|] == line;
    IndexOfFound(bytes, |line|, LF);
    assert bytes[|line| + 1..] == rest && bytes[..|line|] == line;
    assert [] + Records(rest) == Records(rest);
  }

  lemma {:induction false} NoRecords(bytes: seq<byte>)
    requires LF !in bytes
    ensures Records(bytes) == []
  {}

  // --- records ---

  function CheckLine(parse: seq<byte> -> Option<AuditEvent>, line: seq<byte>): Result<AuditEvent, PollError> {
    if |line| > MAX_EVENT_BYTES then Failure(Oversized)
    else
      match parse(line)
      case None => Failure(Parse)
      case Some(event) => if event.schemaVersion != 1 then Failure(UnsupportedSchema(event.schemaVersion))
          else Success(event)
  }

  // All events, or the first problem.
  function CheckAll(parse: seq<byte> -> Option<AuditEvent>, lines: seq<seq<byte>>): Result<seq<AuditEvent>, PollError> {
    if lines == [] then Success([])
    else
      match CheckLine(parse, lines[0])
      case Failure(e) => Failure(e)
      case Success(event) => After([event], CheckAll(parse, lines[1..]))
  }

  function After(events: seq<AuditEvent>, r: Result<seq<AuditEvent>, PollError>): Result<seq<AuditEvent>, PollError> {
    if r.Success? then Success(events + r.value) else r
  }

  // What one poll answers and where it leaves the offset.
  function Polled(parse: seq<byte> -> Option<AuditEvent>, offset: nat, file: FileView)
    : (Result<seq<AuditEvent>, PollError>, nat)
  {
    match file
    case Missing => (Success([]), offset)
    case Unreadable => (Failure(Io), offset)
    case Present(content, readable) =>
      var from := if |content| < offset then 0 else offset;
      if |content| == from then (Success([]), from)
      else if !readable then (Failure(Io), from)
      else
        var bytes := Pending(content, from);
        var n := CompleteLength(bytes);
        if n == 0 then (if |bytes| > MAX_EVENT_BYTES then Failure(Oversized) else Success([]), from)
        else
          var r := CheckAll(parse, Records(bytes[..n]));
          (r, if r.Success? then from + n else from)
  }

  // The bytes one poll looks at.
  function Pending(content: seq<byte>, from: nat): seq<byte>
    requires from <= |content|
  {
    content[from..from + if |content| - from < MAX_POLL_BYTES then |content| - from else MAX_POLL_BYTES]
  }

  class RegistrationAuditTail {
    const parse: seq<byte> -> Option<AuditEvent>
    var offset: nat

    // Follows from the present end of the file.
    constructor (file: FileView, parse: seq<byte> -> Option<AuditEvent>)
      ensures this.parse == parse && offset == if file.Present? then |file.content| else 0
    {
      this.parse := parse;
      offset := if file.Present? then |file.content| else 0;
    }

    method Poll(file: FileView) returns (r: Result<seq<AuditEvent>, PollError>)
      modifies this`offset
      ensures (r, offset) == Polled(parse, old(offset), file)
      ensures !file.Present? ==> offset == old(offset) && r == if file.Missing? then Success([]) else Failure(Io)
      // A file that became shorter is read from its start; of the unread bytes one window is looked at.
      ensures file.Present? ==>
                var from := if |file.content| < old(offset) then 0 else old(offset);
                var end := if |file.content| - from < 256 * 1024 then |file.content| else from + 256 * 1024;
                var window := file.content[from..end];
                if |file.content| > from && !file.readable then r == Failure(Io) && offset == from
                else if LF !in window then
                  offset == from && r == if |window| > 16 * 1024 then Failure(Oversized) else Success([])
                else exists n :: 0 < n <= |window| && window[n - 1] == LF && LF !in window[n..]
                       && ReadRight(parse, Records(window[..n]), r)
                       && offset == if r.Success? then from + n else from
    {
      PolledIs(parse, offset, file);
      hide Records, CheckAll, CheckLine, Pending, CompleteLength, ReadRight;
      match file {
        case Missing => return Success([]);
        case Unreadable => return Failure(Io);
        case Present(content, readable) =>
          var length := |content|;
          if length < offset {
            offset := 0;
          }
          if length == offset {
            return Success([]);
          }
          if !readable {
            return Failure(Io);
          }
          var bytes := Pending(content, offset);
          var completeLength := CompleteLength(bytes);
          if completeLength == 0 {
            if |bytes| > MAX_EVENT_BYTES {
              return Failure(Oversized);
            }
            return Success([]);
          }
          r := ReadEvents(bytes[..completeLength]);
          if r.Success? {
            offset := offset + completeLength;
          }
      }
    }

    method ReadEvents(complete: seq<byte>) returns (r: Result<seq<AuditEvent>, PollError>)
      ensures r == CheckAll(parse, Records(complete)) && ReadRight(parse, Records(complete), r)
    {
      CheckAllReads(parse, Records(complete));
      hide ReadRight;
      var events := [];
      var rest := complete;
      ghost var all := CheckAll(parse, Records(complete));
      AfterNothing(all);
      hide CheckAll, After, Records;
      while LF in rest
        invariant all == After(events, CheckAll(parse, Records(rest)))
        decreases |rest|
      {
        var i := IndexOf(rest, LF);
        var line := rest[..i];
        NextRecord(rest);
        rest := rest[i + 1..];
        if line == [] {
          continue;
        }
        CheckMore(parse, events, line, Records(rest));
        if |line| > MAX_EVENT_BYTES {
          return Failure(Oversized);
        }
        var event := parse(line);
        if event.None? {
          return Failure(Parse);
        }
        if event.value.schemaVersion != 1 {
          return Failure(UnsupportedSchema(event.value.schemaVersion));
        }
        events := events + [event.value];
      }
      NoRecords(rest);
      CheckNone(parse, events);
      return Success(events);
    }
  }

  lemma {:induction false} AfterNothing(r: Result<seq<AuditEvent>, PollError>)
    ensures After([], r) == r
  {
    if r.Success? { assert [] + r.value == r.value; }
  }

  lemma {:induction false} NextRecord(bytes: seq<byte>)
    requires LF in bytes
    ensures var i := IndexOf(bytes, LF);
            Records(bytes) == if i == 0 then Records(bytes[i + 1..]) else [bytes[..i]] + Records(bytes[i + 1..])
  {}

  lemma {:induction false} CheckMore(parse: seq<byte> -> Option<AuditEvent>, events: seq<AuditEvent>, line: seq<byte>,
                                     more: seq<seq<byte>>)
    ensures After(events, CheckAll(parse, [line] + more)) ==
            match CheckLine(parse, line)
            case Failure(e) => Failure(e)
            case Success(event) => After(events + [event], CheckAll(parse, more))
  {
    assert ([line] + more)[1..] == more;
    var c := CheckLine(parse, line);
    var r := CheckAll(parse, more);
    if c.Success? && r.Success? {
      Regroup(events, [c.value], r.value);
    }
  }

  lemma {:induction false} CheckNone(parse: seq<byte> -> Option<AuditEvent>, events: seq<AuditEvent>)
    ensures After(events, CheckAll(parse, [])) == Success(events)
  {
    assert events + [] == events;
  }

  // --- what a poll answers, in terms of the lines ---

  // The events of all lines, or what is wrong with the first line that is not acceptable.
  ghost predicate ReadRight(parse: seq<byte> -> Option<AuditEvent>, lines: seq<seq<byte>>,
                            r: Result<seq<AuditEvent>, PollError>)
  {
    match r
    case Success(events) =>
      && |events| == |lines|
      && forall i :: 0 <= i < |lines| ==> Acceptable(parse, lines[i]) && parse(lines[i]).value == events[i]
    case Failure(e) =>
      exists k :: 0 <= k < |lines| && (forall i :: 0 <= i < k ==> Acceptable(parse, lines[i]))
                  && if |lines[k]| > 16 * 1024 then e == Oversized
                     else if parse(lines[k]).None? then e == Parse
                     else parse(lines[k]).value.schemaVersion != 1
                          && e == UnsupportedSchema(parse(lines[k]).value.schemaVersion)
  }

  lemma {:induction false} CheckAllReads(parse: seq<byte> -> Option<AuditEvent>, lines: seq<seq<byte>>)
    ensures ReadRight(parse, lines, CheckAll(parse, lines))
  {
    if lines != [] {
      CheckAllReads(parse, lines[1..]);
      var c, r := CheckLine(parse, lines[0]), CheckAll(parse, lines[1..]);
      if c.Success? && r.Failure? {
        LaterProblem(parse, lines, r);
      }
    }
  }

  lemma {:induction false} LaterProblem(parse: seq<byte> -> Option<AuditEvent>, lines: seq<seq<byte>>,
                                        r: Result<seq<AuditEvent>, PollError>)
    requires lines != [] && Acceptable(parse, lines[0]) && r.Failure? && ReadRight(parse, lines[1..], r)
    ensures ReadRight(parse, lines, r)
  {
    var rest := lines[1..];
    var k :| 0 <= k < |rest| && (forall i :: 0 <= i < k ==> Acceptable(parse, rest[i]))
             && if |rest[k]| > 16 * 1024 then r.error == Oversized
                else if parse(rest[k]).None? then r.error == Parse
                else parse(rest[k]).value.schemaVersion != 1
                     && r.error == UnsupportedSchema(parse(rest[k]).value.schemaVersion);
    assert lines[k + 1] == rest[k];
    forall i | 0 <= i < k + 1 ensures Acceptable(parse, lines[i]) {
      if i > 0 { assert lines[i] == rest[i - 1]; }
    }
  }

  lemma {:induction false} PolledIs(parse: seq<byte> -> Option<AuditEvent>, offset: nat, file: FileView)
    ensures var (r, next) := Polled(parse, offset, file);
            file.Present? ==>
              var from := if |file.content| < offset then 0 else offset;
              var end := if |file.content| - from < MAX_POLL_BYTES then |file.content| else from + MAX_POLL_BYTES;
              var window := file.content[from..end];
              if |file.content| > from && !file.readable then r == Failure(Io) && next == from
              else if LF !in window then
                next == from && r == if |window| > MAX_EVENT_BYTES then Failure(Oversized) else Success([])
              else exists n :: 0 < n <= |window| && window[n - 1] == LF && LF !in window[n..]
                     && ReadRight(parse, Records(window[..n]), r)
                     && next == if r.Success? then from + n else from
  {
    hide Records, CheckAll, CompleteLength, ReadRight;
    if file.Present? {
      var content := file.content;
      var from := if |content| < offset then 0 else offset;
      var window := Pending(content, from);
      hide Pending;
      var n := CompleteLength(window);
      if |content| > from && file.readable && n > 0 {
        CheckAllReads(parse, Records(window[..n]));
      }
    }
  }

  // --- following a well-formed audit ---

  ghost predicate Acceptable(parse: seq<byte> -> Option<AuditEvent>, line: seq<byte>) {
    |line| <= 16 * 1024 && parse(line).Some? && parse(line).value.schemaVersion == 1
  }

  // Every complete line is an acceptable record, and a line still being written is not too long.
  ghost predicate WellFormed(parse: seq<byte> -> Option<AuditEvent>, bytes: seq<byte>) {
    && (forall line :: line in Records(bytes) ==> Acceptable(parse, line))
    && |bytes| - CompleteLength(bytes) <= MAX_EVENT_BYTES
  }

  function EventsOf(parse: seq<byte> -> Option<AuditEvent>, lines: seq<seq<byte>>): seq<AuditEvent> {
    if lines == [] then []
    else (if parse(lines[0]).Some? then [parse(lines[0]).value] else []) + EventsOf(parse, lines[1..])
  }

  lemma {:induction false} CheckAllAccepts(parse: seq<byte> -> Option<AuditEvent>, lines: seq<seq<byte>>)
    ensures CheckAll(parse, lines).Success? <==> forall line :: line in lines ==> Acceptable(parse, line)
    ensures CheckAll(parse, lines).Success? ==> CheckAll(parse, lines).value == EventsOf(parse, lines)
  {
    if lines != [] {
      CheckAllAccepts(parse, lines[1..]);
      assert CheckLine(parse, lines[0]).Success? <==> Acceptable(parse, lines[0]);
      assert forall line :: line in lines <==> line == lines[0] || line in lines[1..];
    }
  }

  lemma {:induction false} EventsConcat(parse: seq<byte> -> Option<AuditEvent>, a: seq<seq<byte>>, b: seq<seq<byte>>)
    ensures EventsOf(parse, a + b) == EventsOf(parse, a) + EventsOf(parse, b)
    decreases |a|
  {
    if a == [] {
      assert a + b == b;
    } else {
      assert (a + b)[1..] == a[1..] + b && (a + b)[0] == a[0];
      EventsConcat(parse, a[1..], b);
      Regroup(if parse(a[0]).Some? then [parse(a[0]).value] else [], EventsOf(parse, a[1..]), EventsOf(parse, b));
    }
  }

  // The first line ends within one record's length.
  lemma {:induction false} FirstLineIsShort(parse: seq<byte> -> Option<AuditEvent>, bytes: seq<byte>)
    requires WellFormed(parse, bytes)
    ensures LF in bytes ==> IndexOf(bytes, LF) <= MAX_EVENT_BYTES
    ensures LF !in bytes ==> |bytes| <= MAX_EVENT_BYTES
  {
    if LF in bytes {
      NextRecord(bytes);
      var i := IndexOf(bytes, LF);
      if i > 0 {
        assert bytes[..i] in Records(bytes);
      }
    }
  }

  lemma {:induction false} CompleteConcat(a: seq<byte>, b: seq<byte>)
    requires AtLineStart(a, |a|)
    ensures CompleteLength(a + b) == |a| + CompleteLength(b)
    decreases |b|
  {
    if b == [] {
      assert a + b == a;
      if a != [] { assert LF == a[|a| - 1]; }
    } else {
      assert (a + b)[..|a + b| - 1] == a + b[..|b| - 1];
      CompleteConcat(a, b[..|b| - 1]);
    }
  }

  lemma {:induction false} WellFormedRest(parse: seq<byte> -> Option<AuditEvent>, bytes: seq<byte>, at: nat)
    requires WellFormed(parse, bytes) && AtLineStart(bytes, at)
    ensures WellFormed(parse, bytes[at..])
    ensures forall line :: line in Records(bytes[..at]) ==> Acceptable(parse, line)
  {
    hide Acceptable, Records, CompleteLength;
    assert bytes == bytes[..at] + bytes[at..];
    RecordsConcat(bytes[..at], bytes[at..]);
    CompleteConcat(bytes[..at], bytes[at..]);
  }

  // The window shows a complete line whenever one is waiting, and everything if it fits.
  lemma {:induction false} WindowSuffices(parse: seq<byte> -> Option<AuditEvent>, content: seq<byte>, offset: nat)
    requires WellFormed(parse, content) && AtLineStart(content, offset)
    ensures LF in content[offset..] <==> LF in Pending(content, offset)
    ensures LF !in content[offset..] ==> |content| - offset <= MAX_EVENT_BYTES
    ensures |content| - offset <= MAX_POLL_BYTES ==> Pending(content, offset) == content[offset..]
  {
    var rest := content[offset..];
    WellFormedRest(parse, content, offset);
    FirstLineIsShort(parse, rest);
    hide WellFormed;
    var bytes := Pending(content, offset);
    assert rest[..|bytes|] == bytes;
    if LF in rest {
      assert bytes[IndexOf(rest, LF)] == LF;
    }
  }

  // One poll of a well-formed audit from a line start: it never fails, delivers exactly the records
  // between the old and the new offset, stops at a line start again, moves on exactly when a complete
  // line is waiting, and leaves none waiting that fits its window.
  lemma {:induction false} PollDelivers(parse: seq<byte> -> Option<AuditEvent>, content: seq<byte>, offset: nat)
    requires WellFormed(parse, content) && AtLineStart(content, offset)
    ensures var (r, next) := Polled(parse, offset, Present(content, true));
            && offset <= next && AtLineStart(content, next)
            && r == Success(EventsOf(parse, Records(content[offset..next])))
            && (LF in content[offset..] <==> next > offset)
            && (|content| - offset <= MAX_POLL_BYTES ==> LF !in content[next..])
  {
    hide WellFormed, Records, EventsOf, Pending, CompleteLength, Polled;
    PolledWindow(parse, content, offset);
    WindowSuffices(parse, content, offset);
    WindowIsPrefix(content, offset, CompleteLength(Pending(content, offset)));
  }

  // The poll takes the complete part of its window.
  lemma {:induction false} PolledWindow(parse: seq<byte> -> Option<AuditEvent>, content: seq<byte>, offset: nat)
    requires WellFormed(parse, content) && AtLineStart(content, offset)
    ensures var n := CompleteLength(Pending(content, offset));
            && offset + n <= |content|
            && Polled(parse, offset, Present(content, true)) ==
               (Success(EventsOf(parse, Records(content[offset..offset + n]))), offset + n)
  {
    hide WellFormed, Acceptable, Records, CheckAll, EventsOf, Pending, CompleteLength;
    var bytes := Pending(content, offset);
    var n := CompleteLength(bytes);
    WindowAccepted(parse, content, offset);
    if n == 0 {
      assert content[offset..offset + n] == [];
      NoRecords([]);
      NoEvents(parse);
      assert |bytes| <= MAX_EVENT_BYTES by {
        WindowSuffices(parse, content, offset);
        WindowIsPrefix(content, offset, 0);
      }
      assert Polled(parse, offset, Present(content, true)) == (Success([]), offset);
    } else {
      WindowIsPrefix(content, offset, n);
    }
  }

  lemma {:induction false} WindowAccepted(parse: seq<byte> -> Option<AuditEvent>, content: seq<byte>, offset: nat)
    requires WellFormed(parse, content) && AtLineStart(content, offset)
    ensures var n := CompleteLength(Pending(content, offset));
            && offset + n <= |content|
            && CheckAll(parse, Records(Pending(content, offset)[..n])) ==
                Success(EventsOf(parse, Records(content[offset..offset + n])))
  {
    hide WellFormed, Acceptable, Records, CheckAll, EventsOf, Pending, CompleteLength;
    var n := CompleteLength(Pending(content, offset));
    WindowIsPrefix(content, offset, n);
    var lines := Records(content[offset..offset + n]);
    if n == 0 {
      NoRecords(content[offset..offset + n]);
    } else {
      WellFormedRestOf(parse, content, offset, n);
    }
    CheckAllAccepts(parse, lines);
  }

  lemma {:induction false} WindowIsPrefix(content: seq<byte>, offset: nat, n: nat)
    requires offset <= |content| && n <= |Pending(content, offset)|
    ensures offset + n <= |content| && |Pending(content, offset)| <= |content| - offset
    ensures content[offset..offset + n] == Pending(content, offset)[..n]
    ensures n > 0 ==> content[offset + n - 1] == Pending(content, offset)[n - 1]
    ensures Pending(content, offset) == content[offset..] ==> content[offset + n..] == Pending(content, offset)[n..]
  {}

  lemma {:induction false} WellFormedRestOf(parse: seq<byte> -> Option<AuditEvent>, content: seq<byte>, offset: nat,
                                            n: nat)
    requires WellFormed(parse, content) && AtLineStart(content, offset) && offset + n <= |content|
    requires n > 0 && content[offset + n - 1] == LF
    ensures forall line :: line in Records(content[offset..offset + n]) ==> Acceptable(parse, line)
  {
    WellFormedRest(parse, content, offset);
    var rest := content[offset..];
    assert rest[n - 1] == LF;
    WellFormedRest(parse, rest, n);
    assert rest[..n] == content[offset..offset + n];
  }

  // --- whole runs ---

  datatype Follow = Follow(content: seq<byte>, offset: nat, delivered: seq<AuditEvent>, failed: bool)

  datatype Step = Append(bytes: seq<byte>) | Poll | PollWhileHidden(view: FileView)

  function Next(parse: seq<byte> -> Option<AuditEvent>, s: Follow, step: Step): Follow {
    match step
    case Append(bytes) => s.(content := s.content + bytes)
    case Poll =>
      var (r, next) := Polled(parse, s.offset, Present(s.content, true));
      s.(offset := next, delivered := if r.Success? then s.delivered + r.value else s.delivered,
         failed := s.failed || r.Failure?)
    case PollWhileHidden(view) =>
      // the file is briefly not there, or cannot be opened
      var (r, next) := Polled(parse, s.offset, if view.Present? then Present(s.content, false) else view);
      s.(offset := next, delivered := if r.Success? then s.delivered + r.value else s.delivered)
  }

  function Run(parse: seq<byte> -> Option<AuditEvent>, s: Follow, steps: seq<Step>): Follow
    decreases |steps|
  {
    if steps == [] then s else Run(parse, Next(parse, s, steps[0]), steps[1..])
  }

  // The file is well formed at every moment of the run.
  ghost predicate AlwaysWellFormed(parse: seq<byte> -> Option<AuditEvent>, s: Follow, steps: seq<Step>)
    decreases |steps|
  {
    WellFormed(parse, s.content) && (steps != [] ==> AlwaysWellFormed(parse, Next(parse, s, steps[0]), steps[1..]))
  }

  ghost predicate OnTrack(parse: seq<byte> -> Option<AuditEvent>, start: nat, s: Follow) {
    && start <= s.offset && AtLineStart(s.content, s.offset) && AtLineStart(s.content, start)
    && s.delivered == EventsOf(parse, Records(s.content[start..s.offset]))
    && !s.failed
  }

  lemma {:induction false} StepStaysOnTrack(parse: seq<byte> -> Option<AuditEvent>, start: nat, s: Follow, step: Step)
    requires OnTrack(parse, start, s) && WellFormed(parse, s.content)
    ensures OnTrack(parse, start, Next(parse, s, step))
    ensures Next(parse, s, step).offset >= s.offset
  {
    hide Records, EventsOf, WellFormed;
    match step {
      case Append(bytes) =>
        assert (s.content + bytes)[start..s.offset] == s.content[start..s.offset];
      case Poll =>
        PollDelivers(parse, s.content, s.offset);
        hide Polled;
        var next := Polled(parse, s.offset, Present(s.content, true)).1;
        Extends(parse, s.content, start, s.offset, next);
      case PollWhileHidden(view) =>
        assert s.delivered + [] == s.delivered;
    }
  }

  lemma {:induction false} Extends(parse: seq<byte> -> Option<AuditEvent>, content: seq<byte>, start: nat, a: nat,
                                   b: nat)
    requires start <= a <= b <= |content| && AtLineStart(content, start) && AtLineStart(content, a)
    ensures EventsOf(parse, Records(content[start..b])) ==
            EventsOf(parse, Records(content[start..a])) + EventsOf(parse, Records(content[a..b]))
  {
    assert content[start..b] == content[start..a] + content[a..b];
    RecordsConcat(content[start..a], content[a..b]);
    EventsConcat(parse, Records(content[start..a]), Records(content[a..b]));
  }

  lemma {:induction false} RunStaysOnTrack(parse: seq<byte> -> Option<AuditEvent>, start: nat, s: Follow,
                                           steps: seq<Step>)
    requires OnTrack(parse, start, s) && AlwaysWellFormed(parse, s, steps)
    ensures OnTrack(parse, start, Run(parse, s, steps)) && WellFormed(parse, Run(parse, s, steps).content)
    decreases |steps|
  {
    if steps != [] {
      hide OnTrack, WellFormed, Next;
      StepStaysOnTrack(parse, start, s, steps[0]);
      RunStaysOnTrack(parse, start, Next(parse, s, steps[0]), steps[1..]);
    }
  }

  // Followed from its end, a well-formed audit is delivered line by line, each complete non-empty line
  // once and in order, never a partial one; no poll of it fails; and polling once per byte still unread
  // is enough to have delivered every complete line.
  lemma {:induction false} EachLineOnce(parse: seq<byte> -> Option<AuditEvent>, content: seq<byte>, steps: seq<Step>)
    requires AtLineStart(content, |content|)
    requires AlwaysWellFormed(parse, Follow(content, |content|, [], false), steps)
    ensures var s := Run(parse, Follow(content, |content|, [], false), steps);
            && !s.failed
            && |content| <= s.offset <= |s.content|
            && s.delivered == EventsOf(parse, Records(s.content[|content|..s.offset]))
            && var t := Polls(parse, s, |s.content| - s.offset);
            && !t.failed && t.delivered == EventsOf(parse, Records(s.content[|content|..]))
  {
    hide Run, AlwaysWellFormed, Records, EventsOf, WellFormed, Polls, Polled, Next;
    var s0 := Follow(content, |content|, [], false);
    StartsOnTrack(parse, content);
    RunStaysOnTrack(parse, |content|, s0, steps);
    var s := Run(parse, s0, steps);
    PollsDeliverAll(parse, |content|, s);
  }

  lemma {:induction false} PollsDeliverAll(parse: seq<byte> -> Option<AuditEvent>, start: nat, s: Follow)
    requires OnTrack(parse, start, s) && WellFormed(parse, s.content)
    ensures start <= s.offset <= |s.content|
    ensures var t := Polls(parse, s, |s.content| - s.offset);
            !t.failed && t.delivered == EventsOf(parse, Records(s.content[start..]))
  {
    hide Records, EventsOf, WellFormed, Polls, Polled, Next;
    PollsDrain(parse, start, s, |s.content| - s.offset);
    DrainedIsEverything(parse, start, Polls(parse, s, |s.content| - s.offset));
  }

  lemma {:induction false} StartsOnTrack(parse: seq<byte> -> Option<AuditEvent>, content: seq<byte>)
    requires AtLineStart(content, |content|)
    ensures OnTrack(parse, |content|, Follow(content, |content|, [], false))
  {
    assert content[|content|..|content|] == [];
    NoRecords([]);
    NoEvents(parse);
  }

  lemma {:induction false} DrainedIsEverything(parse: seq<byte> -> Option<AuditEvent>, start: nat, s: Follow)
    requires OnTrack(parse, start, s) && LF !in s.content[s.offset..]
    ensures s.delivered == EventsOf(parse, Records(s.content[start..]))
  {
    hide Records, EventsOf;
    Extends(parse, s.content, start, s.offset, |s.content|);
    assert s.content[s.offset..|s.content|] == s.content[s.offset..];
    assert s.content[start..|s.content|] == s.content[start..];
    NoRecords(s.content[s.offset..]);
    NoEvents(parse);
  }

  lemma {:induction false} NoEvents(parse: seq<byte> -> Option<AuditEvent>)
    ensures EventsOf(parse, []) == []
  {}

  function Polls(parse: seq<byte> -> Option<AuditEvent>, s: Follow, n: nat): Follow
    decreases n
  {
    if n == 0 then s else Polls(parse, Next(parse, s, Step.Poll), n - 1)
  }

  lemma {:induction false} PollsDrain(parse: seq<byte> -> Option<AuditEvent>, start: nat, s: Follow, n: nat)
    requires OnTrack(parse, start, s) && WellFormed(parse, s.content) && n >= |s.content| - s.offset
    ensures var t := Polls(parse, s, n);
            OnTrack(parse, start, t) && t.content == s.content && LF !in t.content[t.offset..]
    decreases n
  {
    hide WellFormed, Records, EventsOf, Polled, CompleteLength, CheckAll, CheckLine;
    if n > 0 {
      StepStaysOnTrack(parse, start, s, Step.Poll);
      PollMoves(parse, s);
      var next := Next(parse, s, Step.Poll);
      hide Next, OnTrack;
      if next.offset > s.offset {
        PollsDrain(parse, start, next, n - 1);
      } else {
        PollsIdle(parse, start, next, n - 1);
      }
    } else {
      assert s.content[s.offset..] == [];
    }
  }

  lemma {:induction false} PollMoves(parse: seq<byte> -> Option<AuditEvent>, s: Follow)
    requires WellFormed(parse, s.content) && AtLineStart(s.content, s.offset)
    ensures var next := Next(parse, s, Step.Poll);
            && next.content == s.content && next.offset >= s.offset
            && (next.offset == s.offset ==> LF !in s.content[s.offset..])
  {
    hide WellFormed, Records, EventsOf, Polled;
    PollDelivers(parse, s.content, s.offset);
  }

  // With no complete line waiting, polling changes nothing.
  lemma {:induction false} PollsIdle(parse: seq<byte> -> Option<AuditEvent>, start: nat, s: Follow, n: nat)
    requires OnTrack(parse, start, s) && WellFormed(parse, s.content) && LF !in s.content[s.offset..]
    ensures Polls(parse, s, n) == s
    decreases n
  {
    hide WellFormed, EventsOf, Polled, Records;
    if n > 0 {
      PollDelivers(parse, s.content, s.offset);
      assert s.content[s.offset..s.offset] == [];
      NoRecords([]);
      NoEvents(parse);
      assert s.delivered + [] == s.delivered;
      PollsIdle(parse, start, s, n - 1);
    }
  }
}
