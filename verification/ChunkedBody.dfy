// src/adapters/http_response.rs: `decode_chunked_body` (chunked transfer coding, section 7.1 of RFC 9112).
module ChunkedBody {
  import opened Wrappers
  import opened Bytes

  const USIZE_MAX: nat := 0xFFFF_FFFF_FFFF_FFFF

  datatype DecodeError =
    | SizeLineIncomplete | SizeNotAscii | SizeInvalid | TrailersIncomplete
    | SizeExceedsBound | FramingExceedsBound | DataIncomplete

  // --- the size line ---

  function HexDigit(b: byte): Option<nat> {
    if 48 <= b <= 57 then Some(b - 48)
    else if 65 <= b <= 70 then Some(b - 55)
    else if 97 <= b <= 102 then Some(b - 87)
    else None
  }

  predicate AllHex(s: seq<byte>) {
    forall i :: 0 <= i < |s| ==> HexDigit(s[i]).Some?
  }

  function HexValue(s: seq<byte>): nat
    requires AllHex(s)
  {
    if s == [] then 0 else 16 * HexValue(s[..|s| - 1]) + HexDigit(s[|s| - 1]).value
  }

  // Unsigned radix-16 parsing: one optional plus sign, at least one digit, no overflow.
  function ParseHex(s: seq<byte>): Option<nat> {
    var digits := if s != [] && s[0] == PLUS then s[1..] else s;
    if digits != [] && AllHex(digits) && HexValue(digits) <= USIZE_MAX then Some(HexValue(digits)) else None
  }

  // What precedes the first semicolon.
  function SizeToken(line: seq<byte>): seq<byte> {
    if line == [] || line[0] == SEMICOLON then [] else [line[0]] + SizeToken(line[1..])
  }

  function ParseSize(line: seq<byte>): Option<nat> {
    ParseHex(Trim(SizeToken(line)))
  }

  predicate EndsWith(s: seq<byte>, suffix: seq<byte>) {
    |suffix| <= |s| && s[|s| - |suffix|..] == suffix
  }

  predicate TrailersComplete(trailers: seq<byte>) {
    trailers == CRLF || EndsWith(trailers, CRLF + CRLF)
  }

  // --- what an accepted body looks like ---

  datatype Chunk = Chunk(line: seq<byte>, data: seq<byte>)
  datatype Body = Body(chunks: seq<Chunk>, lastLine: seq<byte>, trailers: seq<byte>)

  ghost predicate SizeLine(line: seq<byte>, size: nat) {
    FindCrlf(line).None? && ValidUtf8(line) && ParseSize(line) == Some(size)
  }

  ghost predicate Accepted(b: Body) {
    && (forall c :: c in b.chunks ==> c.data != [] && SizeLine(c.line, |c.data|))
    && SizeLine(b.lastLine, 0)
    && TrailersComplete(b.trailers)
  }

  ghost function EncodeChunks(chunks: seq<Chunk>): seq<byte> {
    if chunks == [] then []
    else (chunks[0].line + CRLF) + (chunks[0].data + CRLF) + EncodeChunks(chunks[1..])
  }

  ghost function Encode(b: Body): seq<byte> {
    EncodeChunks(b.chunks) + ((b.lastLine + CRLF) + b.trailers)
  }

  ghost function Payload(chunks: seq<Chunk>): seq<byte> {
    if chunks == [] then [] else chunks[0].data + Payload(chunks[1..])
  }

  // --- decoding one suffix, `at` being its offset in the whole body ---

  // One chunk of `used` framed bytes, or the end.
  datatype Head = Stop(r: Result<seq<byte>, DecodeError>) | Next(data: seq<byte>, used: nat)

  ghost function ReadHead(s: seq<byte>, at: nat): (h: Head)
    ensures h.Next? ==> 0 < h.used <= |s|
  {
    match FindCrlf(s)
    case None => Stop(Failure(SizeLineIncomplete))
    case Some(end) =>
      var line, rest := s[..end], s[end + 2..];
      if !ValidUtf8(line) then Stop(Failure(SizeNotAscii))
      else
        match ParseSize(line)
        case None => Stop(Failure(SizeInvalid))
        case Some(size) =>
          if size == 0 then
            Stop(if TrailersComplete(rest) then Success([]) else Failure(TrailersIncomplete))
          else if at + end + 2 + size > USIZE_MAX then Stop(Failure(SizeExceedsBound))
          else if at + end + 2 + size + 2 > USIZE_MAX then Stop(Failure(FramingExceedsBound))
          else if size + 2 > |rest| || rest[size..size + 2] != CRLF then Stop(Failure(DataIncomplete))
          else Next(rest[..size], end + 2 + size + 2)
  }

  ghost function Prepend(prefix: seq<byte>, r: Result<seq<byte>, DecodeError>): Result<seq<byte>, DecodeError> {
    match r
    case Failure(e) => Failure(e)
    case Success(d) => Success(prefix + d)
  }

  ghost function Decode(s: seq<byte>, at: nat): Result<seq<byte>, DecodeError>
    decreases |s|
  {
    match ReadHead(s, at)
    case Stop(r) => r
    case Next(data, used) => Prepend(data, Decode(s[used..], at + used))
  }

  // What was decoded up to `cursor` followed by what is still to decode makes the whole result.
  ghost predicate Resumes(encoded: seq<byte>, cursor: nat, decoded: seq<byte>) {
    cursor <= |encoded| && Decode(encoded, 0) == Prepend(decoded, Decode(encoded[cursor..], cursor))
  }

  lemma {:induction false} ResumesAtStart(encoded: seq<byte>)
    ensures Resumes(encoded, 0, [])
  {
    hide Decode;
    assert encoded[0..] == encoded;
    var r := Decode(encoded, 0);
    if r.Success? { assert [] + r.value == r.value; }
  }

  lemma {:induction false} ResumesAfterChunk(encoded: seq<byte>, cursor: nat, decoded: seq<byte>, data: seq<byte>,
                                             used: nat)
    requires Resumes(encoded, cursor, decoded)
    requires ReadHead(encoded[cursor..], cursor) == Next(data, used)
    ensures Resumes(encoded, cursor + used, decoded + data)
  {
    hide ReadHead;
    assert encoded[cursor..][used..] == encoded[cursor + used..];
    var r := Decode(encoded[cursor + used..], cursor + used);
    assert Decode(encoded[cursor..], cursor) == Prepend(data, r);
    hide Decode;
    if r.Success? {
      assert decoded + (data + r.value) == decoded + data + r.value;
    }
  }

  // Where the loop stops, the definition stops too.
  lemma {:induction false} StopsHere(encoded: seq<byte>, cursor: nat, decoded: seq<byte>, r: Result<seq<byte>,
                                     DecodeError>)
    requires Resumes(encoded, cursor, decoded)
    requires ReadHead(encoded[cursor..], cursor) == Stop(r)
    ensures Decode(encoded, 0) == Prepend(decoded, r)
  {}

  lemma {:induction false} SliceOfSuffix(s: seq<byte>, start: nat, a: nat, b: nat)
    requires a <= b && start + b <= |s|
    ensures s[start..][a..b] == s[start + a..start + b]
  {}

  // The body of the decoding loop: one size line and, unless it is the last, its data.
  method ReadChunk(encoded: seq<byte>, cursor: nat) returns (h: Head)
    requires cursor <= |encoded| <= USIZE_MAX
    ensures h == ReadHead(encoded[cursor..], cursor)
  {
    hide FindCrlf, ValidUtf8, ParseSize, TrailersComplete;
    ghost var s := encoded[cursor..];
    var found := FindCrlf(encoded[cursor..]);
    if found.None? {
      return Stop(Failure(SizeLineIncomplete));
    }
    var lineEnd := cursor + found.value;
    assert encoded[cursor..lineEnd] == s[..found.value];
    if !ValidUtf8(encoded[cursor..lineEnd]) {
      return Stop(Failure(SizeNotAscii));
    }
    var parsed := ParseSize(encoded[cursor..lineEnd]);
    if parsed.None? {
      return Stop(Failure(SizeInvalid));
    }
    var size := parsed.value;
    var start := lineEnd + 2;
    ghost var rest := s[found.value + 2..];
    assert encoded[start..] == rest;
    if size == 0 {
      if TrailersComplete(encoded[start..]) {
        return Stop(Success([]));
      }
      return Stop(Failure(TrailersIncomplete));
    }
    var dataEnd := start + size;
    if dataEnd > USIZE_MAX {
      return Stop(Failure(SizeExceedsBound));
    }
    var framingEnd := dataEnd + 2;
    if framingEnd > USIZE_MAX {
      return Stop(Failure(FramingExceedsBound));
    }
    if framingEnd > |encoded| {
      return Stop(Failure(DataIncomplete));
    }
    SliceOfSuffix(encoded, start, size, size + 2);
    SliceOfSuffix(encoded, start, 0, size);
    if encoded[dataEnd..framingEnd] != CRLF {
      return Stop(Failure(DataIncomplete));
    }
    return Next(encoded[start..dataEnd], framingEnd - cursor);
  }

  method DecodeChunkedBody(encoded: seq<byte>) returns (r: Result<seq<byte>, DecodeError>)
    requires |encoded| <= USIZE_MAX
    ensures r == Decode(encoded, 0)
  {
    hide ReadHead, Decode, Resumes;
    var cursor: nat := 0;
    var decoded: seq<byte> := [];
    ResumesAtStart(encoded);
    while true
      invariant cursor <= |encoded| && Resumes(encoded, cursor, decoded)
      decreases |encoded| - cursor
    {
      var head := ReadChunk(encoded, cursor);
      if head.Stop? {
        StopsHere(encoded, cursor, decoded, head.r);
        return if head.r.Success? then Success(decoded + head.r.value) else head.r;
      }
      ResumesAfterChunk(encoded, cursor, decoded, head.data, head.used);
      decoded := decoded + head.data;
      cursor := cursor + head.used;
    }
  }

  // --- decoding inverts encoding ---

  lemma {:induction false} FindCrlfAfterLine(line: seq<byte>, rest: seq<byte>)
    requires FindCrlf(line).None?
    ensures FindCrlf(line + CRLF + rest) == Some(|line|)
  {
    var s := line + CRLF + rest;
    assert IsCrlfAt(s, |line|);
    forall i: nat | i < |line| ensures !IsCrlfAt(s, i) {
      assert !IsCrlfAt(line, i);
    }
  }

  // One size line at the front of a suffix.
  lemma {:induction false} DecodeSizeLine(line: seq<byte>, size: nat, rest: seq<byte>)
    requires SizeLine(line, size)
    ensures var s := line + CRLF + rest;
            && FindCrlf(s) == Some(|line|) && s[..|line|] == line && s[|line| + 2..] == rest
  {
    FindCrlfAfterLine(line, rest);
  }

  lemma {:induction false} ChunkIsHead(c: Chunk, rest: seq<byte>, at: nat)
    requires c.data != [] && SizeLine(c.line, |c.data|)
    requires var s := c.line + CRLF + (c.data + CRLF + rest); at + |s| <= USIZE_MAX
    ensures var s := c.line + CRLF + (c.data + CRLF + rest);
            var used := |c.line| + 2 + |c.data| + 2;
            ReadHead(s, at) == Next(c.data, used) && s[used..] == rest
  {
    hide FindCrlf, ValidUtf8, ParseSize, TrailersComplete;
    var tail := c.data + CRLF + rest;
    DecodeSizeLine(c.line, |c.data|, tail);
    assert tail[|c.data|..|c.data| + 2] == CRLF && tail[..|c.data|] == c.data;
  }

  lemma {:induction false} LastLineIsHead(line: seq<byte>, trailers: seq<byte>, at: nat)
    requires SizeLine(line, 0) && TrailersComplete(trailers)
    ensures ReadHead([] + ((line + CRLF) + trailers), at) == Stop(Success([]))
  {
    hide FindCrlf, ValidUtf8, ParseSize, TrailersComplete;
    DecodeSizeLine(line, 0, trailers);
    assert [] + ((line + CRLF) + trailers) == line + CRLF + trailers;
  }

  lemma {:induction false} DecodeComplete(b: Body, at: nat)
    requires Accepted(b) && at + |Encode(b)| <= USIZE_MAX
    ensures Decode(Encode(b), at) == Success(Payload(b.chunks))
    decreases |b.chunks|
  {
    hide ReadHead, SizeLine, TrailersComplete;
    if b.chunks == [] {
      LastLineIsHead(b.lastLine, b.trailers, at);
    } else {
      var c := b.chunks[0];
      assert c in b.chunks;
      var tail := b.(chunks := b.chunks[1..]);
      assert b.chunks == [c] + tail.chunks;
      assert b == tail.(chunks := [c] + tail.chunks);
      EncodeWithChunk(tail, c);
      hide Encode, EncodeChunks;
      ChunkIsHead(c, Encode(tail), at);
      DecodeComplete(tail, at + |c.line| + 2 + |c.data| + 2);
      assert Decode(Encode(b), at) == Prepend(c.data, Decode(Encode(tail), at + |c.line| + 2 + |c.data| + 2));
    }
  }

  lemma {:induction false} HeadIsChunk(s: seq<byte>, at: nat) returns (line: seq<byte>)
    requires ReadHead(s, at).Next?
    ensures var h := ReadHead(s, at);
            && h.data != [] && SizeLine(line, |h.data|)
            && s == line + CRLF + (h.data + CRLF + s[h.used..])
  {
    hide FindCrlf, ValidUtf8, ParseSize, TrailersComplete;
    var end := FindCrlf(s).value;
    line := s[..end];
    LineBeforeCrlf(s, end);
    var rest := s[end + 2..];
    var size := ParseSize(line).value;
    assert s[end..end + 2] == CRLF;
    assert s == line + CRLF + rest;
    assert rest == rest[..size] + CRLF + rest[size + 2..];
    assert rest[size + 2..] == s[end + 2 + size + 2..];
  }

  lemma {:induction false} HeadIsEnd(s: seq<byte>, at: nat) returns (line: seq<byte>, trailers: seq<byte>)
    requires ReadHead(s, at).Stop? && ReadHead(s, at).r.Success?
    ensures SizeLine(line, 0) && TrailersComplete(trailers) && s == (line + CRLF) + trailers
    ensures ReadHead(s, at).r.value == []
  {
    hide FindCrlf, ValidUtf8, ParseSize, TrailersComplete;
    var end := FindCrlf(s).value;
    line, trailers := s[..end], s[end + 2..];
    LineBeforeCrlf(s, end);
    assert s[end..end + 2] == CRLF;
  }

  // Whatever is decoded successfully was such an encoding.
  lemma {:induction false} DecodeSound(s: seq<byte>, at: nat) returns (b: Body)
    requires Decode(s, at).Success?
    ensures Accepted(b) && Encode(b) == s && Payload(b.chunks) == Decode(s, at).value
    decreases |s|
  {
    hide ReadHead, SizeLine, TrailersComplete;
    var h := ReadHead(s, at);
    if h.Stop? {
      var line, trailers := HeadIsEnd(s, at);
      b := Body([], line, trailers);
      assert [] + s == s;
    } else {
      var line := HeadIsChunk(s, at);
      var tail := DecodeSound(s[h.used..], at + h.used);
      b := tail.(chunks := [Chunk(line, h.data)] + tail.chunks);
      EncodeWithChunk(tail, Chunk(line, h.data));
    }
  }

  lemma {:induction false} EncodeWithChunk(tail: Body, c: Chunk)
    ensures var b := tail.(chunks := [c] + tail.chunks);
            && Encode(b) == c.line + CRLF + (c.data + CRLF + Encode(tail))
            && Payload(b.chunks) == c.data + Payload(tail.chunks)
            && (Accepted(tail) && c.data != [] && SizeLine(c.line, |c.data|) ==> Accepted(b))
  {
    var b := tail.(chunks := [c] + tail.chunks);
    assert b.chunks[1..] == tail.chunks;
    assert forall x :: x in b.chunks <==> x == c || x in tail.chunks;
  }

  lemma {:induction false} LineBeforeCrlf(s: seq<byte>, end: nat)
    requires FindCrlf(s) == Some(end)
    ensures FindCrlf(s[..end]).None?
  {
    forall i: nat ensures !IsCrlfAt(s[..end], i) {
      if i < end { assert !IsCrlfAt(s, i); }
    }
  }

  // The decoder accepts exactly the encodings, and returns exactly their payload.
  lemma {:induction false} DecodeIsExact(s: seq<byte>, d: seq<byte>)
    requires |s| <= USIZE_MAX
    ensures Decode(s, 0) == Success(d) <==> exists b :: Accepted(b) && Encode(b) == s && Payload(b.chunks) == d
  {
    if Decode(s, 0) == Success(d) {
      var b := DecodeSound(s, 0);
    }
    forall b | Accepted(b) && Encode(b) == s && Payload(b.chunks) == d ensures Decode(s, 0) == Success(d) {
      DecodeComplete(b, 0);
    }
  }

  lemma {:induction false} SizeLineNotEmpty(line: seq<byte>, size: nat)
    requires SizeLine(line, size)
    ensures line != []
  {}

  // Framing costs at least five bytes per chunk and five for the end.
  lemma {:induction false} FramingOverhead(b: Body)
    requires Accepted(b)
    ensures |Payload(b.chunks)| + 5 * |b.chunks| + 5 <= |Encode(b)|
    decreases |b.chunks|
  {
    SizeLineNotEmpty(b.lastLine, 0);
    if b.chunks != [] {
      var c := b.chunks[0];
      assert c in b.chunks;
      SizeLineNotEmpty(c.line, |c.data|);
      FramingOverhead(b.(chunks := b.chunks[1..]));
    }
  }

  // --- the encodings of section 7.1 of RFC 9112 ---

  predicate IsPadding(s: seq<byte>) {
    forall i :: 0 <= i < |s| ==> s[i] == SPACE || s[i] == TAB
  }

  // Any spelling of the size, white space, then nothing or extensions starting with a semicolon.
  ghost predicate StandardParts(line: seq<byte>, size: nat, digits: seq<byte>, padding: seq<byte>,
                                extension: seq<byte>) {
    && line == digits + padding + extension
    && digits != [] && AllHex(digits) && HexValue(digits) == size
    && IsPadding(padding)
    && (extension == [] || extension[0] == SEMICOLON)
    && FindCrlf(extension).None?
  }

  ghost predicate StandardLine(line: seq<byte>, size: nat) {
    exists digits, padding, extension :: StandardParts(line, size, digits, padding, extension)
  }

  // Field lines, each ended by CR LF, then an empty line.
  ghost function TrailerSection(fields: seq<seq<byte>>): seq<byte> {
    if fields == [] then CRLF else fields[0] + CRLF + TrailerSection(fields[1..])
  }

  ghost predicate Standard(b: Body, fields: seq<seq<byte>>) {
    && (forall c :: c in b.chunks ==> c.data != [] && StandardLine(c.line, |c.data|))
    && StandardLine(b.lastLine, 0)
    && b.trailers == TrailerSection(fields)
  }

  ghost predicate LinesAreUtf8(b: Body) {
    (forall c :: c in b.chunks ==> ValidUtf8(c.line)) && ValidUtf8(b.lastLine)
  }

  // The token ends where the extensions begin.
  lemma {:induction false} SizeTokenOf(token: seq<byte>, extension: seq<byte>)
    requires SEMICOLON !in token && (extension == [] || extension[0] == SEMICOLON)
    ensures SizeToken(token + extension) == token
  {
    if token == [] {
      assert token + extension == extension;
    } else {
      assert (token + extension)[1..] == token[1..] + extension;
      SizeTokenOf(token[1..], extension);
    }
  }

  // What a size can start and end with; no white-space character does.
  predicate Solid(b: byte) {
    HexDigit(b).Some? || b == PLUS
  }

  lemma {:induction false} WhiteSpaceIsNotSolid(w: seq<byte>)
    requires w != [] && (Solid(w[0]) || Solid(w[|w| - 1]))
    ensures !IsWhiteSpace(w)
  {}

  lemma {:induction false} NoSpaceOfWidth(s: seq<byte>, n: nat)
    requires 1 <= n <= |s|
    ensures Solid(s[0]) ==> !IsWhiteSpace(s[..n])
    ensures Solid(s[|s| - 1]) ==> !IsWhiteSpace(s[|s| - n..])
  {
    hide IsWhiteSpace, Solid;
    var front, back := s[..n], s[|s| - n..];
    assert front[0] == s[0] && back[n - 1] == s[|s| - 1];
    if Solid(front[0]) { WhiteSpaceIsNotSolid(front); }
    if Solid(back[n - 1]) { WhiteSpaceIsNotSolid(back); }
  }

  lemma {:induction false} NoOuterSpace(s: seq<byte>)
    requires s != []
    ensures Solid(s[0]) ==> FrontSpace(s) == 0
    ensures Solid(s[|s| - 1]) ==> BackSpace(s) == 0
  {
    hide IsWhiteSpace, Solid, FrontSpace, BackSpace;
    NoSpaceOfWidth(s, 1);
    if |s| >= 2 { NoSpaceOfWidth(s, 2); }
    if |s| >= 3 { NoSpaceOfWidth(s, 3); }
    if Solid(s[0]) { NoFrontSpace(s); }
    if Solid(s[|s| - 1]) { NoBackSpace(s); }
  }

  lemma {:induction false} NoFrontSpace(s: seq<byte>)
    requires |s| >= 1 ==> !IsWhiteSpace(s[..1])
    requires |s| >= 2 ==> !IsWhiteSpace(s[..2])
    requires |s| >= 3 ==> !IsWhiteSpace(s[..3])
    ensures FrontSpace(s) == 0
  {
    hide IsWhiteSpace;
  }

  lemma {:induction false} NoBackSpace(s: seq<byte>)
    requires |s| >= 1 ==> !IsWhiteSpace(s[|s| - 1..])
    requires |s| >= 2 ==> !IsWhiteSpace(s[|s| - 2..])
    requires |s| >= 3 ==> !IsWhiteSpace(s[|s| - 3..])
    ensures BackSpace(s) == 0
  {
    hide IsWhiteSpace;
  }

  // Runs of white-space characters.
  ghost predicate Blank(ws: seq<seq<byte>>) {
    forall w :: w in ws ==> IsWhiteSpace(w)
  }

  lemma {:induction false} SpaceInFront(w: seq<byte>, rest: seq<byte>)
    requires IsWhiteSpace(w)
    ensures FrontSpace(w + rest) == |w| && (w + rest)[|w|..] == rest
  {
    var s := w + rest;
    assert s[..|w|] == w;
    if |w| >= 2 { assert s[..1][0] == w[0]; }
    if |w| == 3 { assert s[..2][0] == w[0]; }
  }

  lemma {:induction false} SpaceBehind(rest: seq<byte>, w: seq<byte>)
    requires IsWhiteSpace(w)
    ensures BackSpace(rest + w) == |w| && (rest + w)[..|rest|] == rest
  {
    var s := rest + w;
    assert s[|s| - |w|..] == w;
    if |w| >= 2 { assert s[|s| - 1..][0] == w[|w| - 1]; }
    if |w| == 3 { assert s[|s| - 2..][0] == w[1] && s[|s| - 2..][1] == w[2]; }
  }

  lemma {:induction false} FlattenSnoc(parts: seq<seq<byte>>, last: seq<byte>)
    ensures Flatten(parts + [last]) == Flatten(parts) + last
  {
    if parts == [] {
      assert [last][1..] == [];
    } else {
      assert (parts + [last])[1..] == parts[1..] + [last];
      FlattenSnoc(parts[1..], last);
    }
  }

  // Trimming takes off exactly the white space around.
  lemma {:induction false} TrimIs(front: seq<seq<byte>>, mid: seq<byte>, back: seq<seq<byte>>)
    requires Blank(front) && Blank(back) && mid != [] && Solid(mid[0]) && Solid(mid[|mid| - 1])
    ensures Trim(Flatten(front) + mid + Flatten(back)) == mid
    decreases |front| + |back|
  {
    hide IsWhiteSpace, Solid, Flatten, Trim;
    if front != [] {
      var w, rest := front[0], front[1..];
      assert IsWhiteSpace(w) && front == [w] + rest;
      MoreInFront(w, rest, mid, Flatten(back));
      TrimIs(rest, mid, back);
      TrimFront(w, Flatten(rest) + mid + Flatten(back));
    } else if back != [] {
      var rest, w := back[..|back| - 1], back[|back| - 1];
      assert IsWhiteSpace(w) && back == rest + [w];
      MoreBehind(Flatten(front), mid, rest, w);
      NoneAround(mid);
      TrimIs(front, mid, rest);
      assert (Flatten(front) + mid + Flatten(rest))[0] == mid[0];
      TrimBack(Flatten(front) + mid + Flatten(rest), w);
    } else {
      NoneAround(mid);
      NoOuterSpace(mid);
      TrimDone(mid);
    }
  }

  lemma {:induction false} TrimFront(w: seq<byte>, rest: seq<byte>)
    requires IsWhiteSpace(w)
    ensures Trim(w + rest) == Trim(rest)
  {
    SpaceInFront(w, rest);
    SpaceWidth(w);
    hide IsWhiteSpace, FrontSpace, BackSpace;
  }

  lemma {:induction false} TrimBack(rest: seq<byte>, w: seq<byte>)
    requires IsWhiteSpace(w) && rest != [] && Solid(rest[0])
    ensures Trim(rest + w) == Trim(rest)
  {
    var s := rest + w;
    assert s[0] == rest[0];
    NoOuterSpace(s);
    SpaceBehind(rest, w);
    SpaceWidth(w);
    hide IsWhiteSpace, Solid, FrontSpace, BackSpace;
  }

  lemma {:induction false} TrimDone(s: seq<byte>)
    requires FrontSpace(s) == 0 && BackSpace(s) == 0
    ensures Trim(s) == s
  {}

  lemma {:induction false} SpaceWidth(w: seq<byte>)
    requires IsWhiteSpace(w)
    ensures |w| > 0
  {}

  lemma {:induction false} OuterSpace(s: seq<byte>)
    ensures FrontSpace(s) > 0 ==> FrontSpace(s) <= |s| && IsWhiteSpace(s[..FrontSpace(s)])
    ensures BackSpace(s) > 0 ==> BackSpace(s) <= |s| && IsWhiteSpace(s[|s| - BackSpace(s)..])
  {
    hide IsWhiteSpace;
  }

  lemma {:induction false} MoreInFront(w: seq<byte>, ws: seq<seq<byte>>, mid: seq<byte>, back: seq<byte>)
    requires IsWhiteSpace(w) && Blank(ws)
    ensures Blank([w] + ws) && Flatten([w] + ws) + mid + back == w + (Flatten(ws) + mid + back)
  {
    assert ([w] + ws)[1..] == ws;
  }

  lemma {:induction false} MoreBehind(front: seq<byte>, mid: seq<byte>, ws: seq<seq<byte>>, w: seq<byte>)
    requires IsWhiteSpace(w) && Blank(ws)
    ensures Blank(ws + [w]) && front + mid + Flatten(ws + [w]) == (front + mid + Flatten(ws)) + w
  {
    FlattenSnoc(ws, w);
  }

  lemma {:induction false} TrimSplits(s: seq<byte>) returns (front: seq<seq<byte>>, back: seq<seq<byte>>)
    ensures Blank(front) && Blank(back) && s == Flatten(front) + Trim(s) + Flatten(back)
    decreases |s|
  {
    hide IsWhiteSpace, FrontSpace, BackSpace, Flatten, Blank;
    OuterSpace(s);
    if FrontSpace(s) > 0 {
      var w, rest := s[..FrontSpace(s)], s[FrontSpace(s)..];
      front, back := TrimSplits(rest);
      MoreInFront(w, front, Trim(rest), Flatten(back));
      front := [w] + front;
      assert s == w + rest;
    } else if BackSpace(s) > 0 {
      var rest, w := s[..|s| - BackSpace(s)], s[|s| - BackSpace(s)..];
      front, back := TrimSplits(rest);
      MoreBehind(Flatten(front), Trim(rest), back, w);
      back := back + [w];
      assert s == rest + w;
    } else {
      front, back := [], [];
      NoneAround(s);
    }
  }

  lemma {:induction false} NoneAround(s: seq<byte>)
    ensures Blank([]) && Flatten([]) + s + Flatten([]) == s
  {}

  lemma {:induction false} PaddingIsBlank(padding: seq<byte>) returns (ws: seq<seq<byte>>)
    requires IsPadding(padding)
    ensures Blank(ws) && Flatten(ws) == padding
  {
    ws := [];
    if padding != [] {
      var rest := PaddingIsBlank(padding[1..]);
      ws := [[padding[0]]] + rest;
      assert ws[1..] == rest && padding == [padding[0]] + padding[1..];
    }
  }

  lemma {:induction false} ParseSizeOf(digits: seq<byte>, padding: seq<byte>, extension: seq<byte>)
    requires digits != [] && AllHex(digits) && HexValue(digits) <= USIZE_MAX && IsPadding(padding)
    requires extension == [] || extension[0] == SEMICOLON
    ensures ParseSize(digits + padding + extension) == Some(HexValue(digits))
  {
    hide Trim, HexValue;
    forall i | 0 <= i < |digits| ensures digits[i] != SEMICOLON {
      assert HexDigit(digits[i]).Some?;
    }
    SizeTokenOf(digits + padding, extension);
    var ws := PaddingIsBlank(padding);
    assert HexDigit(digits[0]).Some? && HexDigit(digits[|digits| - 1]).Some?;
    TrimIs([], digits, ws);
    assert [] + digits + padding == digits + padding;
  }

  // --- which size lines are read ---

  // The sixteen digits in both cases, and what a further digit does to a value.
  lemma {:induction false} HexDigitIs(b: byte, v: nat)
    ensures HexDigit(b) == Some(v) <==>
              v < 16 && (b as char == "0123456789abcdef"[v] || b as char == "0123456789ABCDEF"[v])
    ensures forall digits: seq<byte> :: AllHex(digits) && HexDigit(b) == Some(v) ==>
              AllHex(digits + [b]) && HexValue(digits + [b]) == 16 * HexValue(digits) + v
  {
    forall digits: seq<byte> | AllHex(digits) && HexDigit(b) == Some(v)
      ensures AllHex(digits + [b]) && HexValue(digits + [b]) == 16 * HexValue(digits) + v
    {
      assert (digits + [b])[..|digits|] == digits;
    }
  }

  // Any white space, perhaps a plus sign, digits, any white space, and what a semicolon starts.
  ghost predicate SizeParts(line: seq<byte>, size: nat, front: seq<seq<byte>>, sign: seq<byte>, digits: seq<byte>,
                            back: seq<seq<byte>>, extension: seq<byte>)
  {
    && line == Flatten(front) + (sign + digits) + Flatten(back) + extension
    && Blank(front) && Blank(back) && (sign == [] || sign == [PLUS])
    && digits != [] && AllHex(digits) && HexValue(digits) == size <= 0xFFFF_FFFF_FFFF_FFFF
    && (extension == [] || extension[0] == SEMICOLON)
  }

  // A size line is read as a size exactly if it is made like that.
  lemma {:induction false} SizeLineIs(line: seq<byte>, size: nat)
    ensures ParseSize(line) == Some(size) <==>
              exists front, sign, digits, back, extension ::
                SizeParts(line, size, front, sign, digits, back, extension)
  {
    if ParseSize(line) == Some(size) {
      SizeHasParts(line, size);
    }
    forall front, sign, digits, back, extension | SizeParts(line, size, front, sign, digits, back, extension)
      ensures ParseSize(line) == Some(size)
    {
      PartsAreSize(line, size, front, sign, digits, back, extension);
    }
  }

  lemma {:induction false} SizeHasParts(line: seq<byte>, size: nat)
    requires ParseSize(line) == Some(size)
    ensures exists front, sign, digits, back, extension ::
              SizeParts(line, size, front, sign, digits, back, extension)
  {
    hide Trim, AllHex, HexValue, Blank, Flatten;
    var token := SizeToken(line);
    SizeTokenSplits(line);
    var front, back := TrimSplits(token);
    var t := Trim(token);
    var sign := if t != [] && t[0] == PLUS then [PLUS] else [];
    var digits := if t != [] && t[0] == PLUS then t[1..] else t;
    assert sign + digits == t;
    assert SizeParts(line, size, front, sign, digits, back, line[|token|..]);
  }

  lemma {:induction false} SizeTokenSplits(line: seq<byte>)
    ensures var n := |SizeToken(line)|;
            && n <= |line| && line == SizeToken(line) + line[n..] && SEMICOLON !in SizeToken(line)
            && (line[n..] == [] || line[n] == SEMICOLON)
  {
    if line != [] && line[0] != SEMICOLON {
      SizeTokenSplits(line[1..]);
    }
  }

  lemma {:induction false} PartsAreSize(line: seq<byte>, size: nat, front: seq<seq<byte>>, sign: seq<byte>,
                                        digits: seq<byte>, back: seq<seq<byte>>, extension: seq<byte>)
    requires SizeParts(line, size, front, sign, digits, back, extension)
    ensures ParseSize(line) == Some(size)
  {
    var t := sign + digits;
    forall i | 0 <= i < |t| ensures Solid(t[i]) && t[i] != SEMICOLON {
      if i >= |sign| { assert HexDigit(digits[i - |sign|]).Some?; }
    }
    hide Trim, HexValue, HexDigit, IsWhiteSpace;
    BlankHasNoSemicolon(front);
    BlankHasNoSemicolon(back);
    var token := Flatten(front) + t + Flatten(back);
    SizeTokenOf(token, extension);
    TrimIs(front, t, back);
    if sign == [] {
      assert t == digits && HexDigit(digits[0]).Some?;
      PlusIsNoDigit(digits[0]);
    } else {
      assert t[1..] == digits;
    }
  }

  lemma {:induction false} PlusIsNoDigit(b: byte)
    requires HexDigit(b).Some?
    ensures b != PLUS
  {}

  lemma {:induction false} BlankHasNoSemicolon(ws: seq<seq<byte>>)
    requires Blank(ws)
    ensures SEMICOLON !in Flatten(ws)
  {
    if ws != [] {
      assert IsWhiteSpace(ws[0]);
      BlankHasNoSemicolon(ws[1..]);
    }
  }

  // --- what is answered, line by line ---

  // Without a line end there is no size; otherwise the first line and what follows it decide, up to the
  // next line. With SizeLineIs this determines every answer of the decoder.
  lemma {:induction false} LineDecides(line: seq<byte>, rest: seq<byte>, at: nat)
    requires FindCrlf(line).None?
    ensures Decode(line, at) == Failure(SizeLineIncomplete)
    ensures Decode(line + CRLF + rest, at) ==
            if !ValidUtf8(line) then Failure(SizeNotAscii)
            else if ParseSize(line).None? then Failure(SizeInvalid)
            else
              var size := ParseSize(line).value;
              var end := at + |line| + 2 + size;
              if size == 0 then
                if rest == [13, 10] || (|rest| >= 4 && rest[|rest| - 4..] == [13, 10, 13, 10]) then Success([])
                else Failure(TrailersIncomplete)
              else if end > USIZE_MAX then Failure(SizeExceedsBound)
              else if end + 2 > USIZE_MAX then Failure(FramingExceedsBound)
              else if |rest| < size + 2 || rest[size] != 13 || rest[size + 1] != 10 then Failure(DataIncomplete)
              else Prepend(rest[..size], Decode(rest[size + 2..], end + 2))
  {
    hide *;
    FindCrlfAfterLine(line, rest);
    NoLineEnd(line, at);
    var s := line + CRLF + rest;
    DecodeByHead(s, at);
    LineHead(line, rest, at);
    if ReadHead(s, at).Next? {
      var size := ParseSize(line).value;
      AfterFrame(line, rest, size);
    }
  }

  lemma {:induction false} NoLineEnd(s: seq<byte>, at: nat)
    requires FindCrlf(s).None?
    ensures Decode(s, at) == Failure(SizeLineIncomplete)
  {}

  lemma {:induction false} AfterFrame(line: seq<byte>, rest: seq<byte>, size: nat)
    requires size + 2 <= |rest|
    ensures (line + CRLF + rest)[|line| + 2 + size + 2..] == rest[size + 2..]
  {}

  lemma {:induction false} DecodeByHead(s: seq<byte>, at: nat)
    ensures Decode(s, at) ==
            match ReadHead(s, at)
            case Stop(r) => r
            case Next(data, used) => Prepend(data, Decode(s[used..], at + used))
  {}

  lemma {:induction false} LineHead(line: seq<byte>, rest: seq<byte>, at: nat)
    requires FindCrlf(line + CRLF + rest) == Some(|line|)
    ensures ReadHead(line + CRLF + rest, at) ==
            if !ValidUtf8(line) then Stop(Failure(SizeNotAscii))
            else if ParseSize(line).None? then Stop(Failure(SizeInvalid))
            else
              var size := ParseSize(line).value;
              var end := at + |line| + 2 + size;
              if size == 0 then
                if rest == [13, 10] || (|rest| >= 4 && rest[|rest| - 4..] == [13, 10, 13, 10]) then Stop(Success([]))
                else Stop(Failure(TrailersIncomplete))
              else if end > USIZE_MAX then Stop(Failure(SizeExceedsBound))
              else if end + 2 > USIZE_MAX then Stop(Failure(FramingExceedsBound))
              else if |rest| < size + 2 || rest[size] != 13 || rest[size + 1] != 10 then Stop(Failure(DataIncomplete))
              else Next(rest[..size], |line| + 2 + size + 2)
  {
    hide FindCrlf, ValidUtf8, ParseSize;
    var s := line + CRLF + rest;
    assert s[..|line|] == line && s[|line| + 2..] == rest;
    assert CRLF + CRLF == [13, 10, 13, 10];
  }

  lemma {:induction false} NoCrlfInLine(digits: seq<byte>, padding: seq<byte>, extension: seq<byte>)
    requires AllHex(digits) && IsPadding(padding) && FindCrlf(extension).None?
    ensures FindCrlf(digits + padding + extension).None?
  {
    var token := digits + padding;
    var line := token + extension;
    forall i: nat ensures !IsCrlfAt(line, i) {
      if i < |token| {
        if i < |digits| { assert HexDigit(digits[i]).Some?; }
        assert token[i] != CR;
      } else {
        assert !IsCrlfAt(extension, i - |token|);
      }
    }
  }

  lemma {:induction false} StandardLineParses(line: seq<byte>, size: nat)
    requires StandardLine(line, size) && size <= USIZE_MAX
    ensures FindCrlf(line).None? && ParseSize(line) == Some(size)
  {
    hide FindCrlf, ParseSize, HexValue, AllHex, IsPadding;
    var digits, padding, extension :| StandardParts(line, size, digits, padding, extension);
    ParseSizeOf(digits, padding, extension);
    NoCrlfInLine(digits, padding, extension);
  }

  lemma {:induction false} TrailerSectionComplete(fields: seq<seq<byte>>)
    ensures TrailersComplete(TrailerSection(fields))
    ensures EndsWith(TrailerSection(fields), CRLF)
  {
    if fields != [] {
      TrailerSectionComplete(fields[1..]);
      var inner := TrailerSection(fields[1..]);
      var t := TrailerSection(fields);
      if inner == CRLF {
        assert t[|t| - 4..] == CRLF + CRLF;
      } else {
        assert t[|t| - 4..] == inner[|inner| - 4..];
      }
      assert t[|t| - 2..] == inner[|inner| - 2..];
    }
  }

  lemma {:induction false} BadLineStops(line: seq<byte>, rest: seq<byte>, at: nat)
    requires FindCrlf(line).None? && !ValidUtf8(line)
    ensures ReadHead(line + CRLF + rest, at) == Stop(Failure(SizeNotAscii))
  {
    FindCrlfAfterLine(line, rest);
    hide FindCrlf, ValidUtf8, ParseSize, TrailersComplete;
    var s := line + CRLF + rest;
    assert s[..|line|] == line;
  }

  // The decoder inverts every encoding of section 7.1 of RFC 9112: any chunking into non-empty chunks,
  // any spelling of the sizes, white space before the extensions, any extensions, any trailer section;
  // except that it gives up on exactly those with a size line that is not UTF-8.
  lemma {:induction false} StandardRoundTrip(b: Body, fields: seq<seq<byte>>)
    requires Standard(b, fields) && |Encode(b)| <= USIZE_MAX
    ensures Decode(Encode(b), 0) == if LinesAreUtf8(b) then Success(Payload(b.chunks)) else Failure(SizeNotAscii)
  {
    StandardDecodes(b, fields, 0);
  }

  lemma {:induction false} StandardDecodes(b: Body, fields: seq<seq<byte>>, at: nat)
    requires Standard(b, fields) && at + |Encode(b)| <= USIZE_MAX
    ensures Decode(Encode(b), at) == if LinesAreUtf8(b) then Success(Payload(b.chunks)) else Failure(SizeNotAscii)
    decreases |b.chunks|
  {
    hide StandardLine, Standard, LinesAreUtf8, Encode, Decode, Payload;
    if b.chunks == [] {
      StandardShape(b, fields);
      StandardEnd(b, fields, at);
    } else {
      var c, tail := b.chunks[0], b.(chunks := b.chunks[1..]);
      StandardFirst(b, fields);
      if ValidUtf8(c.line) {
        FirstDecodes(b, c, tail, at);
        StandardDecodes(tail, fields, at + |c.line| + 2 + |c.data| + 2);
      } else {
        FirstFails(b, c, tail, at);
      }
    }
  }

  lemma {:induction false} StandardShape(b: Body, fields: seq<seq<byte>>)
    requires Standard(b, fields)
    ensures b.trailers == TrailerSection(fields)
    ensures FindCrlf(b.lastLine).None? && ParseSize(b.lastLine) == Some(0)
  {
    hide StandardLine;
    StandardLineParses(b.lastLine, 0);
  }

  lemma {:induction false} StandardFirst(b: Body, fields: seq<seq<byte>>)
    requires Standard(b, fields) && b.chunks != [] && |Encode(b)| <= USIZE_MAX
    ensures var c, tail := b.chunks[0], b.(chunks := b.chunks[1..]);
            && c.data != [] && FindCrlf(c.line).None? && ParseSize(c.line) == Some(|c.data|)
            && Standard(tail, fields)
            && (LinesAreUtf8(b) <==> ValidUtf8(c.line) && LinesAreUtf8(tail))
            && |Encode(b)| == |c.line| + 2 + |c.data| + 2 + |Encode(tail)|
  {
    var c, tail := b.chunks[0], b.(chunks := b.chunks[1..]);
    hide StandardLine, FindCrlf, ParseSize, ValidUtf8;
    assert forall x :: x in b.chunks <==> x == c || x in tail.chunks;
    StandardLineParses(c.line, |c.data|);
  }

  lemma {:induction false} FirstDecodes(b: Body, c: Chunk, tail: Body, at: nat)
    requires b.chunks != [] && c == b.chunks[0] && tail == b.(chunks := b.chunks[1..])
    requires c.data != [] && SizeLine(c.line, |c.data|) && at + |Encode(b)| <= USIZE_MAX
    ensures Decode(Encode(b), at) == Prepend(c.data, Decode(Encode(tail), at + |c.line| + 2 + |c.data| + 2))
    ensures Payload(b.chunks) == c.data + Payload(tail.chunks)
  {
    hide SizeLine, ReadHead, Encode, EncodeChunks, Accepted, Payload;
    assert b.chunks == [c] + tail.chunks;
    assert b == tail.(chunks := [c] + tail.chunks);
    EncodeWithChunk(tail, c);
    ChunkIsHead(c, Encode(tail), at);
    assert ReadHead(Encode(b), at) == Next(c.data, |c.line| + 2 + |c.data| + 2);
  }

  lemma {:induction false} FirstFails(b: Body, c: Chunk, tail: Body, at: nat)
    requires b.chunks != [] && c == b.chunks[0] && tail == b.(chunks := b.chunks[1..])
    requires FindCrlf(c.line).None? && !ValidUtf8(c.line)
    ensures Decode(Encode(b), at) == Failure(SizeNotAscii)
  {
    hide ValidUtf8, ReadHead, Encode, EncodeChunks, Accepted, Payload;
    assert b.chunks == [c] + tail.chunks;
    assert b == tail.(chunks := [c] + tail.chunks);
    EncodeWithChunk(tail, c);
    BadLineStops(c.line, c.data + CRLF + Encode(tail), at);
  }

  lemma {:induction false} StandardEnd(b: Body, fields: seq<seq<byte>>, at: nat)
    requires b.chunks == [] && b.trailers == TrailerSection(fields)
    requires FindCrlf(b.lastLine).None? && ParseSize(b.lastLine) == Some(0)
    ensures Decode(Encode(b), at) == if LinesAreUtf8(b) then Success(Payload(b.chunks)) else Failure(SizeNotAscii)
  {
    hide ReadHead, ValidUtf8, ParseSize, FindCrlf, TrailersComplete, TrailerSection, EndsWith, Decode, Encode;
    TrailerSectionComplete(fields);
    EmptyEncodes(b);
    if ValidUtf8(b.lastLine) {
      LastLineIsHead(b.lastLine, b.trailers, at);
      DecodeStops(Encode(b), at, Success([]));
    } else {
      BadLineStops(b.lastLine, b.trailers, at);
      DecodeStops(Encode(b), at, Failure(SizeNotAscii));
    }
  }

  lemma {:induction false} EmptyEncodes(b: Body)
    requires b.chunks == []
    ensures Encode(b) == [] + ((b.lastLine + CRLF) + b.trailers) == b.lastLine + CRLF + b.trailers
    ensures Payload(b.chunks) == []
  {}

  lemma {:induction false} DecodeStops(s: seq<byte>, at: nat, r: Result<seq<byte>, DecodeError>)
    requires ReadHead(s, at) == Stop(r)
    ensures Decode(s, at) == r
  {}

  // --- the plainest encoder ---

  function DigitOf(n: nat): byte
    requires n < 16
  {
    if n < 10 then 48 + n else 87 + n
  }

  function HexDigits(n: nat): (digits: seq<byte>)
    ensures digits != [] && AllHex(digits) && HexValue(digits) == n
  {
    if n < 16 then
      assert HexValue([DigitOf(n)]) == 16 * HexValue([]) + n;
      [DigitOf(n)]
    else
      var front, last := HexDigits(n / 16), DigitOf(n % 16);
      assert (front + [last])[..|front|] == front;
      front + [last]
  }

  // Lower-case sizes, no extensions, no trailer fields.
  function Plainly(parts: seq<seq<byte>>): (b: Body)
    ensures |b.chunks| == |parts|
    ensures forall i :: 0 <= i < |parts| ==> b.chunks[i] == Chunk(HexDigits(|parts[i]|), parts[i])
  {
    Body(seq(|parts|, i requires 0 <= i < |parts| => Chunk(HexDigits(|parts[i]|), parts[i])), HexDigits(0), CRLF)
  }

  function Flatten(parts: seq<seq<byte>>): seq<byte> {
    if parts == [] then [] else parts[0] + Flatten(parts[1..])
  }

  lemma {:induction false} PayloadIsFlat(chunks: seq<Chunk>, parts: seq<seq<byte>>)
    requires |chunks| == |parts| && forall i :: 0 <= i < |parts| ==> chunks[i].data == parts[i]
    ensures Payload(chunks) == Flatten(parts)
  {
    if parts != [] {
      PayloadIsFlat(chunks[1..], parts[1..]);
    }
  }

  lemma {:induction false} DigitsAreStandard(size: nat)
    ensures StandardLine(HexDigits(size), size) && ValidUtf8(HexDigits(size))
  {
    var digits, none: seq<byte> := HexDigits(size), [];
    assert digits == digits + none + none;
    assert StandardParts(digits, size, digits, none, none);
    forall i | 0 <= i < |digits| ensures digits[i] < 0x80 {
      assert HexDigit(digits[i]).Some?;
    }
    AsciiIsUtf8(digits);
  }

  lemma {:induction false} PlainlyIsStandard(parts: seq<seq<byte>>)
    requires forall p :: p in parts ==> p != []
    ensures Standard(Plainly(parts), []) && LinesAreUtf8(Plainly(parts))
  {
    hide StandardLine, HexDigits, ValidUtf8;
    var b := Plainly(parts);
    forall c | c in b.chunks ensures c.data != [] && StandardLine(c.line, |c.data|) && ValidUtf8(c.line) {
      var i :| 0 <= i < |parts| && b.chunks[i] == c;
      assert parts[i] in parts;
      DigitsAreStandard(|c.data|);
    }
    DigitsAreStandard(0);
  }

  // Any list of non-empty parts survives the plain encoding.
  lemma {:induction false} PlainRoundTrip(parts: seq<seq<byte>>)
    requires forall p :: p in parts ==> p != []
    requires |Encode(Plainly(parts))| <= USIZE_MAX
    ensures Decode(Encode(Plainly(parts)), 0) == Success(Flatten(parts))
  {
    PlainlyIsStandard(parts);
    PayloadIsFlat(Plainly(parts).chunks, parts);
    hide *;
    StandardRoundTrip(Plainly(parts), []);
  }
}
