// src/adapters/service_logs.rs: how `take_complete_lines` cuts an arbitrary byte stream into lines.
// Texts are bytes; the lossy UTF-8 conversion of the original is not modelled.
module LineFraming {
  import opened Bytes
  import opened Sequences

  const MAX_PARTIAL_LINE_BYTES: nat := 65536

  // " [line truncated]"
  const TRUNCATION_NOTE: seq<byte> := [32, 91, 108, 105, 110, 101, 32, 116, 114, 117, 110, 99, 97, 116, 101, 100, 93]

  // A line together with how it ended.
  datatype Piece =
    | Terminated(text: seq<byte>, cr: bool)
    | Truncated(text: seq<byte>)
    | Unterminated(text: seq<byte>)
  {
    // What subscribers see.
    function Shown(): seq<byte> {
      if Truncated? then text + TRUNCATION_NOTE else text
    }

    // The bytes of the stream it stands for.
    function Raw(): seq<byte> {
      match this
      case Terminated(t, cr) => t + (if cr then [CR] else []) + [LF]
      case Truncated(t) => t
      case Unterminated(t) => t
    }
  }

  datatype Framed = Framed(pieces: seq<Piece>, rest: seq<byte>)

  // A newline-free line with its optional carriage return split off.
  function Terminate(line: seq<byte>): Piece {
    if line != [] && line[|line| - 1] == CR then Terminated(line[..|line| - 1], true) else Terminated(line, false)
  }

  function Frame(buffer: seq<byte>): Framed
    decreases |buffer|
  {
    if LF in buffer then
      var at := IndexOf(buffer, LF);
      var more := Frame(buffer[at + 1..]);
      Framed([Terminate(buffer[..at])] + more.pieces, more.rest)
    else if |buffer| >= MAX_PARTIAL_LINE_BYTES then
      var more := Frame(buffer[MAX_PARTIAL_LINE_BYTES..]);
      Framed([Truncated(buffer[..MAX_PARTIAL_LINE_BYTES])] + more.pieces, more.rest)
    else Framed([], buffer)
  }

  function CloseWith(f: Framed): seq<Piece> {
    f.pieces + if f.rest != [] then [Unterminated(f.rest)] else []
  }

  function Shown(pieces: seq<Piece>): seq<seq<byte>> {
    seq(|pieces|, i requires 0 <= i < |pieces| => pieces[i].Shown())
  }

  function Raw(pieces: seq<Piece>): seq<byte> {
    if pieces == [] then [] else pieces[0].Raw() + Raw(pieces[1..])
  }

  // A run of publishes, starting from `rest`.
  ghost function FeedFrom(rest: seq<byte>, chunks: seq<seq<byte>>): Framed
    decreases |chunks|
  {
    if chunks == [] then Framed([], rest)
    else
      var first := Frame(rest + chunks[0]);
      var more := FeedFrom(first.rest, chunks[1..]);
      Framed(first.pieces + more.pieces, more.rest)
  }

  // What subscribers are shown for a stream published in these chunks and then closed.
  ghost function Output(chunks: seq<seq<byte>>): seq<seq<byte>> {
    Shown(CloseWith(FeedFrom([], chunks)))
  }

  ghost function Join(chunks: seq<seq<byte>>): seq<byte> {
    if chunks == [] then [] else chunks[0] + Join(chunks[1..])
  }

  // --- unfolding, one case at a time ---

  lemma {:induction false} FrameAtNewline(buffer: seq<byte>)
    requires LF in buffer
    ensures var at := IndexOf(buffer, LF);
            var more := Frame(buffer[at + 1..]);
            Frame(buffer) == Framed([Terminate(buffer[..at])] + more.pieces, more.rest)
  {}

  lemma {:induction false} FrameCut(buffer: seq<byte>)
    requires LF !in buffer && |buffer| >= MAX_PARTIAL_LINE_BYTES
    ensures var more := Frame(buffer[MAX_PARTIAL_LINE_BYTES..]);
            Frame(buffer) == Framed([Truncated(buffer[..MAX_PARTIAL_LINE_BYTES])] + more.pieces, more.rest)
  {}

  lemma {:induction false} FrameKeep(buffer: seq<byte>)
    requires LF !in buffer && |buffer| < MAX_PARTIAL_LINE_BYTES
    ensures Frame(buffer) == Framed([], buffer)
  {}

  lemma {:induction false} AroundNewline(s: seq<byte>)
    requires LF in s
    ensures var at := IndexOf(s, LF); s[..at] + [LF] + s[at + 1..] == s
  {}

  // --- nothing is lost or reordered ---

  lemma {:induction false} RawConcat(a: seq<Piece>, b: seq<Piece>)
    ensures Raw(a + b) == Raw(a) + Raw(b)
    decreases |a|
  {
    if a == [] {
      assert a + b == b;
    } else {
      assert (a + b)[1..] == a[1..] + b;
      RawConcat(a[1..], b);
    }
  }

  lemma {:induction false} TerminateRaw(line: seq<byte>)
    ensures Terminate(line).Raw() == line + [LF]
  {
    if line != [] && line[|line| - 1] == CR {
      assert line == line[..|line| - 1] + [CR];
    }
  }

  lemma {:induction false} FrameConserves(buffer: seq<byte>)
    ensures var f := Frame(buffer);
            && Raw(f.pieces) + f.rest == buffer
            && LF !in f.rest && |f.rest| < MAX_PARTIAL_LINE_BYTES
    decreases |buffer|
  {
    hide Frame, IndexOf, Terminate, Raw;
    if LF in buffer {
      var at := IndexOf(buffer, LF);
      var more := Frame(buffer[at + 1..]);
      FrameAtNewline(buffer);
      FrameConserves(buffer[at + 1..]);
      TerminateRaw(buffer[..at]);
      FirstRaw(Terminate(buffer[..at]), more.pieces, more.rest);
      AroundNewline(buffer);
    } else if |buffer| >= MAX_PARTIAL_LINE_BYTES {
      var more := Frame(buffer[MAX_PARTIAL_LINE_BYTES..]);
      FrameCut(buffer);
      FrameConserves(buffer[MAX_PARTIAL_LINE_BYTES..]);
      FirstRaw(Truncated(buffer[..MAX_PARTIAL_LINE_BYTES]), more.pieces, more.rest);
      assert buffer[..MAX_PARTIAL_LINE_BYTES] + buffer[MAX_PARTIAL_LINE_BYTES..] == buffer;
    } else {
      FrameKeep(buffer);
      NoRaw(buffer);
    }
  }

  lemma {:induction false} NoRaw(rest: seq<byte>)
    ensures Raw([]) + rest == rest
  {
    assert [] + rest == rest;
  }

  lemma {:induction false} FirstRaw(p: Piece, ps: seq<Piece>, rest: seq<byte>)
    ensures Raw([p] + ps) + rest == p.Raw() + (Raw(ps) + rest)
  {
    assert ([p] + ps)[1..] == ps;
  }

  // However the stream is cut, the pieces and the leftover spell it out in order, and the leftover
  // is newline-free and shorter than 64 KiB.
  lemma {:induction false} FeedConserves(rest: seq<byte>, chunks: seq<seq<byte>>)
    requires LF !in rest && |rest| < MAX_PARTIAL_LINE_BYTES
    ensures var f := FeedFrom(rest, chunks);
            && Raw(f.pieces) + f.rest == rest + Join(chunks)
            && LF !in f.rest && |f.rest| < MAX_PARTIAL_LINE_BYTES
    decreases |chunks|
  {
    if chunks == [] {
      assert rest + [] == rest;
    } else {
      hide Frame, Raw;
      var first := Frame(rest + chunks[0]);
      FrameConserves(rest + chunks[0]);
      var more := FeedFrom(first.rest, chunks[1..]);
      FeedConserves(first.rest, chunks[1..]);
      RawConcat(first.pieces, more.pieces);
      var c := Join(chunks[1..]);
      Regroup(Raw(first.pieces), Raw(more.pieces), more.rest);
      Regroup(Raw(first.pieces), first.rest, c);
      Regroup(rest, chunks[0], c);
    }
  }

  lemma {:induction false} CloseConserves(chunks: seq<seq<byte>>)
    ensures Raw(CloseWith(FeedFrom([], chunks))) == Join(chunks)
  {
    FeedConserves([], chunks);
    var f := FeedFrom([], chunks);
    assert [] + Join(chunks) == Join(chunks);
    if f.rest != [] {
      RawConcat(f.pieces, [Unterminated(f.rest)]);
      assert Raw([Unterminated(f.rest)]) == f.rest + [];
    } else {
      assert f.pieces + [] == f.pieces;
    }
  }

  // --- the reference: split the whole stream at newlines ---

  function Split(s: seq<byte>): seq<seq<byte>>
    decreases |s|
  {
    if LF in s then
      var at := IndexOf(s, LF);
      [Terminate(s[..at]).text] + Split(s[at + 1..])
    else if s != [] then [s]
    else []
  }

  // What splitting means: a line end is a newline with, perhaps, one carriage return before it.
  lemma {:induction false} SplitIs(line: seq<byte>, rest: seq<byte>)
    requires LF !in line
    ensures Split(line) == if line == [] then [] else [line]
    ensures Split(line + [LF] + rest) ==
            [if line != [] && line[|line| - 1] == 13 then line[..|line| - 1] else line] + Split(rest)
  {
    var s := line + [LF] + rest;
    hide IndexOf;
    assert s[|line|] == LF && s[..|line|] == line && s[|line| + 1..] == rest;
    IndexOfFound(s, |line|, LF);
  }

  // A 64 KiB window without a newline starts at i.
  ghost predicate SparseAt(s: seq<byte>, i: nat) {
    i + MAX_PARTIAL_LINE_BYTES <= |s| && LF !in s[i..i + MAX_PARTIAL_LINE_BYTES]
  }

  ghost predicate Dense(s: seq<byte>) {
    forall i: nat :: !SparseAt(s, i)
  }

  lemma {:induction false} DenseSuffix(a: seq<byte>, b: seq<byte>)
    requires Dense(a + b)
    ensures Dense(b)
  {
    forall i: nat ensures !SparseAt(b, i) {
      if i + MAX_PARTIAL_LINE_BYTES <= |b| {
        var j := |a| + i;
        assert (a + b)[j..j + MAX_PARTIAL_LINE_BYTES] == b[i..i + MAX_PARTIAL_LINE_BYTES];
        assert !SparseAt(a + b, j);
      }
    }
  }

  lemma {:induction false} DenseIsShort(a: seq<byte>, b: seq<byte>)
    requires Dense(a + b) && LF !in a
    ensures |a| < MAX_PARTIAL_LINE_BYTES
  {
    if |a| >= MAX_PARTIAL_LINE_BYTES {
      assert (a + b)[0..MAX_PARTIAL_LINE_BYTES] == a[..MAX_PARTIAL_LINE_BYTES];
      assert SparseAt(a + b, 0);
    }
  }

  lemma {:induction false} ShownConcat(a: seq<Piece>, b: seq<Piece>)
    ensures Shown(a + b) == Shown(a) + Shown(b)
  {}

  // Cutting the buffer off a dense stream and continuing with the rest changes nothing.
  lemma {:induction false} DenseStep(buffer: seq<byte>, after: seq<byte>)
    requires Dense(buffer + after)
    ensures var f := Frame(buffer);
            && Split(buffer + after) == Shown(f.pieces) + Split(f.rest + after)
            && Dense(f.rest + after)
    decreases |buffer|
  {
    hide Frame, IndexOf, Terminate, Split, Dense, Shown;
    if LF !in buffer {
      DenseIsShort(buffer, after);
      FrameKeep(buffer);
      NothingShown(Split(buffer + after));
    } else {
      var at := IndexOf(buffer, LF);
      var tail := buffer[at + 1..];
      var more := Frame(tail);
      FrameAtNewline(buffer);
      SplitBuffer(buffer, after, at + 1);
      DenseSuffix(buffer[..at + 1], tail + after);
      DenseStep(tail, after);
      NewlineInPrefix(buffer, after);
      ShownFirst(Terminate(buffer[..at]), more.pieces);
      SplitAtNewline(buffer + after);
      Regroup([Terminate(buffer[..at]).text], Shown(more.pieces), Split(more.rest + after));
    }
  }

  lemma {:induction false} SplitBuffer(buffer: seq<byte>, after: seq<byte>, n: nat)
    requires n <= |buffer|
    ensures buffer + after == buffer[..n] + (buffer[n..] + after)
  {}

  lemma {:induction false} NothingShown(lines: seq<seq<byte>>)
    ensures Shown([]) + lines == lines
  {}

  lemma {:induction false} ShownFirst(p: Piece, ps: seq<Piece>)
    requires !p.Truncated?
    ensures Shown([p] + ps) == [p.text] + Shown(ps)
  {}

  lemma {:induction false} SplitAtNewline(s: seq<byte>)
    requires LF in s
    ensures var at := IndexOf(s, LF); Split(s) == [Terminate(s[..at]).text] + Split(s[at + 1..])
    ensures !Terminate(s[..IndexOf(s, LF)]).Truncated?
  {}

  lemma {:induction false} NewlineInPrefix(a: seq<byte>, b: seq<byte>)
    requires LF in a
    ensures var at := IndexOf(a, LF);
            && LF in a + b && IndexOf(a + b, LF) == at
            && (a + b)[..at] == a[..at] && (a + b)[at + 1..] == a[at + 1..] + b
            && !Terminate(a[..at]).Truncated?
  {
    IndexOfPrefix(a, b, LF);
  }

  lemma {:induction false} DenseFeed(rest: seq<byte>, chunks: seq<seq<byte>>)
    requires LF !in rest && |rest| < MAX_PARTIAL_LINE_BYTES
    requires Dense(rest + Join(chunks))
    ensures Shown(CloseWith(FeedFrom(rest, chunks))) == Split(rest + Join(chunks))
    decreases |chunks|
  {
    if chunks == [] {
      assert rest + Join(chunks) == rest;
      ClosingShown(rest);
    } else {
      hide Frame, Split, Dense, Shown;
      var buffer, after := rest + chunks[0], Join(chunks[1..]);
      Regroup(rest, chunks[0], after);
      DenseStep(buffer, after);
      FrameConserves(buffer);
      var first := Frame(buffer);
      var more := FeedFrom(first.rest, chunks[1..]);
      DenseFeed(first.rest, chunks[1..]);
      var closing := if more.rest != [] then [Unterminated(more.rest)] else [];
      Regroup(first.pieces, more.pieces, closing);
      ShownConcat(first.pieces, more.pieces + closing);
    }
  }

  lemma {:induction false} ClosingShown(rest: seq<byte>)
    requires LF !in rest
    ensures Shown(CloseWith(Framed([], rest))) == Split(rest)
  {
    if rest != [] {
      assert [] + [Unterminated(rest)] == [Unterminated(rest)];
    }
  }

  // --- without density some chunking shows something else ---

  lemma {:induction false} OutputIsLongEnough(s: seq<byte>)
    ensures |CloseWith(Frame(s))| >= |Split(s)|
    decreases |s|
  {
    if LF in s {
      OutputIsLongEnough(s[IndexOf(s, LF) + 1..]);
    }
  }

  lemma {:induction false} SplitShort(s: seq<byte>)
    requires LF !in s && s != []
    ensures Split(s) == [s]
  {}

  lemma {:induction false} SplitCountSuffix(a: seq<byte>, b: seq<byte>)
    requires LF !in a && b != []
    ensures |Split(a + b)| == |Split(b)|
  {
    hide IndexOf, Split, Terminate;
    if LF in b {
      NewlineInSuffix(a, b);
      SplitAtNewline(a + b);
      SplitAtNewline(b);
    } else {
      SplitShort(a + b);
      SplitShort(b);
    }
  }

  lemma {:induction false} NewlineInSuffix(a: seq<byte>, b: seq<byte>)
    requires LF !in a && LF in b
    ensures LF in a + b && IndexOf(a + b, LF) == |a| + IndexOf(b, LF)
    ensures (a + b)[IndexOf(a + b, LF) + 1..] == b[IndexOf(b, LF) + 1..]
    decreases |a|
  {
    assert (a + b)[|a| + IndexOf(b, LF)] == LF;
    if a == [] {
      assert a + b == b;
    } else {
      assert (a + b)[1..] == a[1..] + b;
      assert a[0] != LF;
      NewlineInSuffix(a[1..], b);
    }
  }

  // The lines of `before` are shown by these pieces, whatever follows.
  ghost predicate Covers(before: seq<byte>, pieces: seq<Piece>) {
    forall b :: Split(before + b) == Shown(pieces) + Split(b)
  }

  lemma {:induction false} CoversFirst(before: seq<byte>, pieces: seq<Piece>)
    requires LF in before && Covers(before[IndexOf(before, LF) + 1..], pieces)
    ensures Covers(before, [Terminate(before[..IndexOf(before, LF)])] + pieces)
  {
    var at := IndexOf(before, LF);
    var line, tail := Terminate(before[..at]), before[at + 1..];
    forall b ensures Split(before + b) == Shown([line] + pieces) + Split(b) {
      hide IndexOf, Terminate, Split, Shown;
      NewlineInPrefix(before, b);
      SplitAtNewline(before + b);
      ShownFirst(line, pieces);
      assert Split(tail + b) == Shown(pieces) + Split(b);
      Regroup([line.text], Shown(pieces), Split(b));
    }
  }

  // The newline-free start of a long line, arriving with everything before it, is cut off.
  lemma {:induction false} LongLineIsCut(before: seq<byte>, a: seq<byte>) returns (lines: seq<Piece>)
    requires before == [] || before[|before| - 1] == LF
    requires LF !in a && |a| == MAX_PARTIAL_LINE_BYTES
    ensures Frame(before + a) == Framed(lines + [Truncated(a)], [])
    ensures Covers(before, lines)
    decreases |before|
  {
    hide Frame, IndexOf, Terminate;
    if before == [] {
      assert before + a == a;
      FrameCut(a);
      assert a[..MAX_PARTIAL_LINE_BYTES] == a && a[MAX_PARTIAL_LINE_BYTES..] == [];
      FrameKeep([]);
      lines := [];
      forall b ensures Split(before + b) == Shown(lines) + Split(b) {
        assert before + b == b;
        NothingShown(Split(b));
      }
    } else {
      hide Split, Shown, Covers;
      var at := IndexOf(before, LF);
      var tail := before[at + 1..];
      NewlineInPrefix(before, a);
      FrameAtNewline(before + a);
      var more := LongLineIsCut(tail, a);
      lines := [Terminate(before[..at])] + more;
      CoversFirst(before, more);
      Regroup([Terminate(before[..at])], more, [Truncated(a)]);
    }
  }

  // Where the line containing position i starts.
  lemma {:induction false} LineStart(s: seq<byte>, i: nat) returns (j: nat)
    requires i <= |s|
    ensures j <= i && LF !in s[j..i] && (j == 0 || s[j - 1] == LF)
  {
    if i == 0 || s[i - 1] == LF {
      j := i;
    } else {
      j := LineStart(s, i - 1);
      assert s[j..i] == s[j..i - 1] + [s[i - 1]];
    }
  }

  // A newline-free window makes the two-chunk delivery that ends inside its line differ from the split.
  lemma {:induction false} SparseBreaks(s: seq<byte>, i: nat) returns (chunks: seq<seq<byte>>)
    requires SparseAt(s, i)
    ensures Join(chunks) == s && Output(chunks) != Split(s)
  {
    var j := LineStart(s, i);
    var before, a, b := s[..j], s[j..j + MAX_PARTIAL_LINE_BYTES], s[j + MAX_PARTIAL_LINE_BYTES..];
    WindowFromStart(s, j, i);
    ThreeParts(s, j, j + MAX_PARTIAL_LINE_BYTES);
    chunks := [before + a, b];
    JoinTwo(before + a, b);
    hide *;
    var lines := LongLineIsCut(before, a);
    TwoChunkOutput(before + a, b);
    CutShows(lines, a, b);
    CoversSplit(before, lines, a + b);
    CutDiffers(Shown(lines), a, b);
  }

  lemma {:induction false} WindowFromStart(s: seq<byte>, j: nat, i: nat)
    requires SparseAt(s, i) && j <= i && LF !in s[j..i]
    ensures LF !in s[j..j + MAX_PARTIAL_LINE_BYTES]
  {
    var w := s[j..j + MAX_PARTIAL_LINE_BYTES];
    forall k | 0 <= k < |w| ensures w[k] != LF {
      if j + k < i {
        assert s[j..i][k] == w[k];
      } else {
        assert s[i..i + MAX_PARTIAL_LINE_BYTES][j + k - i] == w[k];
      }
    }
  }

  lemma {:induction false} ThreeParts(s: seq<byte>, j: nat, k: nat)
    requires j <= k <= |s|
    ensures s == s[..j] + s[j..k] + s[k..] == s[..j] + (s[j..k] + s[k..])
  {}

  lemma {:induction false} JoinTwo(c: seq<byte>, b: seq<byte>)
    ensures Join([c, b]) == c + b
  {
    var chunks: seq<seq<byte>> := [c, b];
    assert chunks[1..] == [b] && |chunks[1..][1..]| == 0;
    assert Join(chunks[1..]) == b + [];
  }

  lemma {:induction false} CoversSplit(before: seq<byte>, lines: seq<Piece>, b: seq<byte>)
    requires Covers(before, lines)
    ensures Split(before + b) == Shown(lines) + Split(b)
  {}

  lemma {:induction false} CutShows(lines: seq<Piece>, a: seq<byte>, b: seq<byte>)
    ensures Shown(lines + [Truncated(a)]) + Shown(CloseWith(Frame(b))) ==
            Shown(lines) + ([a + TRUNCATION_NOTE] + Shown(CloseWith(Frame(b))))
  {
    ShownConcat(lines, [Truncated(a)]);
  }

  // Either the last line carries the truncation note, or there is one line too many.
  lemma {:induction false} CutDiffers(lines: seq<seq<byte>>, a: seq<byte>, b: seq<byte>)
    requires LF !in a && a != []
    ensures lines + ([a + TRUNCATION_NOTE] + Shown(CloseWith(Frame(b)))) != lines + Split(a + b)
  {
    var shown, split := [a + TRUNCATION_NOTE] + Shown(CloseWith(Frame(b))), Split(a + b);
    if b == [] {
      assert a + b == a;
      assert shown[0] == a + TRUNCATION_NOTE && split[0] == a;
      assert |a + TRUNCATION_NOTE| != |a|;
    } else {
      OutputIsLongEnough(b);
      SplitCountSuffix(a, b);
    }
    assert shown != split;
    assert (lines + shown)[|lines|..] == shown && (lines + split)[|lines|..] == split;
  }

  lemma {:induction false} TwoChunkOutput(c: seq<byte>, b: seq<byte>)
    requires Frame(c).rest == []
    ensures Output([c, b]) == Shown(Frame(c).pieces) + Shown(CloseWith(Frame(b)))
  {
    var chunks: seq<seq<byte>> := [c, b];
    assert chunks[1..] == [b] && |chunks[1..][1..]| == 0;
    assert [] + c == c && [] + b == b;
    var f, g := Frame(c), Frame(b);
    assert FeedFrom([], [b]) == Framed(g.pieces + [], g.rest);
    assert g.pieces + [] == g.pieces;
    var closing := if g.rest != [] then [Unterminated(g.rest)] else [];
    assert CloseWith(FeedFrom([], chunks)) == f.pieces + (g.pieces + closing);
    ShownConcat(f.pieces, g.pieces + closing);
  }

  // Every chunking of a stream shows exactly its lines if, and only if, no 64 KiB window lacks a newline.
  lemma {:induction false} EveryChunkingSplitsIff(s: seq<byte>)
    ensures (forall chunks :: Join(chunks) == s ==> Output(chunks) == Split(s)) <==> Dense(s)
  {
    if Dense(s) {
      forall chunks | Join(chunks) == s ensures Output(chunks) == Split(s) {
        assert [] + Join(chunks) == s;
        DenseFeed([], chunks);
      }
    } else {
      var i: nat :| SparseAt(s, i);
      var chunks := SparseBreaks(s, i);
    }
  }

  // --- when the chunking does not matter at all ---

  // Newline-free windows occur only in the unterminated end of the stream.
  ghost predicate SparseOnlyAtEnd(s: seq<byte>) {
    forall i: nat :: SparseAt(s, i) ==> LF !in s[i..]
  }

  lemma {:induction false} SparseOnlyAtEndSuffix(a: seq<byte>, b: seq<byte>)
    requires SparseOnlyAtEnd(a + b)
    ensures SparseOnlyAtEnd(b)
  {
    forall i: nat | SparseAt(b, i) ensures LF !in b[i..] {
      var j := |a| + i;
      assert (a + b)[j..j + MAX_PARTIAL_LINE_BYTES] == b[i..i + MAX_PARTIAL_LINE_BYTES];
      assert SparseAt(a + b, j);
      assert (a + b)[j..] == b[i..];
    }
  }

  lemma {:induction false} LongStartIsEnd(buffer: seq<byte>, after: seq<byte>)
    requires SparseOnlyAtEnd(buffer + after) && LF !in buffer && |buffer| >= MAX_PARTIAL_LINE_BYTES
    ensures LF !in buffer + after
  {
    var s := buffer + after;
    assert s[0..0 + MAX_PARTIAL_LINE_BYTES] == buffer[..MAX_PARTIAL_LINE_BYTES];
    assert SparseAt(s, 0);
    assert s[0..] == s;
  }

  lemma {:induction false} FirstPiece(p: Piece, more: seq<Piece>, rest: seq<Piece>)
    ensures [p] + (more + rest) == ([p] + more) + rest
  {}

  // Framing early and continuing with the leftover gives what framing everything at once gives.
  lemma {:induction false} FrameContinues(buffer: seq<byte>, after: seq<byte>)
    requires SparseOnlyAtEnd(buffer + after)
    ensures var f := Frame(buffer);
            var g := Frame(f.rest + after);
            Frame(buffer + after) == Framed(f.pieces + g.pieces, g.rest) && SparseOnlyAtEnd(f.rest + after)
    decreases |buffer|
  {
    hide Frame, IndexOf, Terminate, SparseOnlyAtEnd;
    if LF in buffer {
      var at := IndexOf(buffer, LF);
      var tail := buffer[at + 1..];
      FrameAtNewline(buffer);
      SplitBuffer(buffer, after, at + 1);
      SparseOnlyAtEndSuffix(buffer[..at + 1], tail + after);
      FrameContinues(tail, after);
      NewlineInPrefix(buffer, after);
      FrameAtNewline(buffer + after);
      FirstPiece(Terminate(buffer[..at]), Frame(tail).pieces, Frame(Frame(tail).rest + after).pieces);
    } else if |buffer| >= MAX_PARTIAL_LINE_BYTES {
      var tail := buffer[MAX_PARTIAL_LINE_BYTES..];
      FrameCut(buffer);
      LongStartIsEnd(buffer, after);
      FrameCut(buffer + after);
      SplitBuffer(buffer, after, MAX_PARTIAL_LINE_BYTES);
      SparseOnlyAtEndSuffix(buffer[..MAX_PARTIAL_LINE_BYTES], tail + after);
      FrameContinues(tail, after);
      assert (buffer + after)[..MAX_PARTIAL_LINE_BYTES] == buffer[..MAX_PARTIAL_LINE_BYTES];
      assert (buffer + after)[MAX_PARTIAL_LINE_BYTES..] == tail + after;
      FirstPiece(Truncated(buffer[..MAX_PARTIAL_LINE_BYTES]), Frame(tail).pieces,
          Frame(Frame(tail).rest + after).pieces);
    } else {
      FrameKeep(buffer);
      assert [] + Frame(buffer + after).pieces == Frame(buffer + after).pieces;
    }
  }

  lemma {:induction false} FeedIsFrame(rest: seq<byte>, chunks: seq<seq<byte>>)
    requires LF !in rest && |rest| < MAX_PARTIAL_LINE_BYTES
    requires SparseOnlyAtEnd(rest + Join(chunks))
    ensures FeedFrom(rest, chunks) == Frame(rest + Join(chunks))
    decreases |chunks|
  {
    hide Frame, SparseOnlyAtEnd;
    if chunks == [] {
      assert rest + Join(chunks) == rest;
      FrameKeep(rest);
    } else {
      var buffer, after := rest + chunks[0], Join(chunks[1..]);
      Regroup(rest, chunks[0], after);
      FrameContinues(buffer, after);
      FrameConserves(buffer);
      FeedIsFrame(Frame(buffer).rest, chunks[1..]);
    }
  }

  // Complete lines in front do not affect how the rest is framed.
  lemma {:induction false} FrameAfterLines(before: seq<byte>, x: seq<byte>)
    requires before == [] || before[|before| - 1] == LF
    ensures Frame(before + x) == Framed(Frame(before).pieces + Frame(x).pieces, Frame(x).rest)
    decreases |before|
  {
    hide Frame, IndexOf, Terminate;
    if before == [] {
      FrameKeep(before);
      assert before + x == x && [] + Frame(x).pieces == Frame(x).pieces;
    } else {
      var at := IndexOf(before, LF);
      var tail := before[at + 1..];
      FrameAtNewline(before);
      NewlineInPrefix(before, x);
      FrameAtNewline(before + x);
      FrameAfterLines(tail, x);
      FirstPiece(Terminate(before[..at]), Frame(tail).pieces, Frame(x).pieces);
    }
  }

  lemma {:induction false} FrameSameCount(a: seq<byte>, b: seq<byte>)
    requires LF !in a && LF in b
    ensures |Frame(a + b).pieces| == |Frame(b).pieces| && Frame(a + b).rest == Frame(b).rest
  {
    hide Frame, IndexOf, Terminate;
    NewlineInSuffix(a, b);
    FrameAtNewline(a + b);
    FrameAtNewline(b);
  }

  lemma {:induction false} OneChunkOutput(s: seq<byte>)
    ensures Join([s]) == s && Output([s]) == Shown(CloseWith(Frame(s)))
  {
    var chunks := [s];
    assert |chunks[1..]| == 0 && s + [] == s && [] + s == s;
    assert Frame(s).pieces + [] == Frame(s).pieces;
    assert FeedFrom([], chunks) == Frame(s);
  }

  // A newline-free stream of 64 KiB or more is shown 64 KiB at a time, each part marked as cut.
  lemma {:induction false} LongEndShown(s: seq<byte>)
    requires LF !in s && |s| >= 64 * 1024
    ensures Output([s]) == [s[..64 * 1024] + TRUNCATION_NOTE] + Output([s[64 * 1024..]])
    ensures |TRUNCATION_NOTE| == |" [line truncated]"|
    ensures forall i :: 0 <= i < |TRUNCATION_NOTE| ==> TRUNCATION_NOTE[i] as char == " [line truncated]"[i]
  {
    hide Output, Frame;
    var rest := s[64 * 1024..];
    OneChunkOutput(s);
    OneChunkOutput(rest);
    FrameCut(s);
    ShownConcat([Truncated(s[..64 * 1024])], CloseWith(Frame(rest)));
    var closing := if Frame(rest).rest != [] then [Unterminated(Frame(rest).rest)] else [];
    FirstPiece(Truncated(s[..64 * 1024]), Frame(rest).pieces, closing);
  }

  // A terminated line of 64 KiB or more, cut inside by a chunk boundary, gives one line too many.
  lemma {:induction false} LongLineMatters(s: seq<byte>, i: nat) returns (chunks: seq<seq<byte>>)
    requires SparseAt(s, i) && LF in s[i..]
    ensures Join(chunks) == s && |Output(chunks)| == |Output([s])| + 1
  {
    hide Output, Join, Frame, CloseWith;
    var j := LineStart(s, i);
    var before, a, b := s[..j], s[j..j + MAX_PARTIAL_LINE_BYTES], s[j + MAX_PARTIAL_LINE_BYTES..];
    WindowFromStart(s, j, i);
    NewlineIsLater(s, j, i);
    ThreeParts(s, j, j + MAX_PARTIAL_LINE_BYTES);
    chunks := [before + a, b];
    hide *;
    JoinTwo(before + a, b);
    OneChunkOutput(s);
    CutFrame(before, a);
    TwoChunkOutput(before + a, b);
    FrameAfterLines(before, a + b);
    FrameSameCount(a, b);
    CountClosed(Frame(s));
    CountClosed(Frame(b));
    CountShown(Frame(before + a).pieces);
    CountShown(CloseWith(Frame(b)));
    CountShown(CloseWith(Frame(s)));
  }

  lemma {:induction false} CutFrame(before: seq<byte>, a: seq<byte>)
    requires before == [] || before[|before| - 1] == LF
    requires LF !in a && |a| == MAX_PARTIAL_LINE_BYTES
    ensures Frame(before + a).rest == [] && |Frame(before + a).pieces| == |Frame(before).pieces| + 1
  {
    hide Frame;
    FrameAfterLines(before, a);
    FrameCut(a);
    FrameKeep([]);
    assert a[MAX_PARTIAL_LINE_BYTES..] == [];
  }

  lemma {:induction false} NewlineIsLater(s: seq<byte>, j: nat, i: nat)
    requires SparseAt(s, i) && j <= i && LF in s[i..]
    ensures LF in s[j + MAX_PARTIAL_LINE_BYTES..]
  {
    var end := i + MAX_PARTIAL_LINE_BYTES;
    assert s[i..] == s[i..end] + s[end..];
    assert s[j + MAX_PARTIAL_LINE_BYTES..] == s[j + MAX_PARTIAL_LINE_BYTES..end] + s[end..];
  }

  lemma {:induction false} CountClosed(f: Framed)
    ensures |CloseWith(f)| == |f.pieces| + if f.rest != [] then 1 else 0
  {}

  lemma {:induction false} CountShown(pieces: seq<Piece>)
    ensures |Shown(pieces)| == |pieces|
  {}

  // Any two chunkings of a stream show the same if, and only if, no newline ends a line of 64 KiB or
  // more: only such a line shows where the chunks were cut.
  lemma {:induction false} ChunkingNeverMattersIff(s: seq<byte>)
    ensures (forall c1, c2 :: Join(c1) == s && Join(c2) == s ==> Output(c1) == Output(c2)) <==> SparseOnlyAtEnd(s)
  {
    if SparseOnlyAtEnd(s) {
      forall c | Join(c) == s ensures Output(c) == Shown(CloseWith(Frame(s))) {
        assert [] + Join(c) == s;
        FeedIsFrame([], c);
      }
    } else {
      var i: nat :| SparseAt(s, i) && LF in s[i..];
      var chunks := LongLineMatters(s, i);
      OneChunkOutput(s);
    }
  }
}
