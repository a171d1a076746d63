// Bytes, and the pieces of the UTF-8 encoding that the byte-level parsers depend on.
module Bytes {
  import opened Wrappers

  type byte = x: int | 0 <= x < 256

  const CR: byte := 13
  const LF: byte := 10
  const TAB: byte := 9
  const SPACE: byte := 32
  const SEMICOLON: byte := 59
  const PLUS: byte := 43
  const CRLF: seq<byte> := [CR, LF]

  predicate IsCrlfAt(s: seq<byte>, i: nat) {
    i + 1 < |s| && s[i] == CR && s[i + 1] == LF
  }

  // Offset of the first CR LF pair.
  function FindCrlf(s: seq<byte>): (r: Option<nat>)
    ensures r.Some? ==> IsCrlfAt(s, r.value) && forall i: nat :: i < r.value ==> !IsCrlfAt(s, i)
    ensures r.None? ==> forall i: nat :: !IsCrlfAt(s, i)
  {
    if |s| < 2 then None
    else if s[0] == CR && s[1] == LF then Some(0)
    else
      assert forall i: nat :: i > 0 && IsCrlfAt(s, i) ==> IsCrlfAt(s[1..], i - 1);
      match FindCrlf(s[1..])
      case None => None
      case Some(i) =>
        assert forall j: nat :: j < i + 1 && IsCrlfAt(s, j) ==> j > 0 && IsCrlfAt(s[1..], j - 1);
        Some(i + 1)
  }

  predicate Continues(s: seq<byte>, i: nat) {
    i < |s| && 0x80 <= s[i] <= 0xBF
  }

  // Length of the well-formed UTF-8 character at the front, 0 if there is none
  // (Table 3-7 of the Unicode Standard).
  function Utf8Width(s: seq<byte>): (n: nat)
    ensures n <= |s|
  {
    if s == [] then 0
    else if s[0] < 0x80 then 1
    else if 0xC2 <= s[0] <= 0xDF && Continues(s, 1) then 2
    else if 0xE0 <= s[0] <= 0xEF && Continues(s, 1) && Continues(s, 2)
            && (s[0] == 0xE0 ==> s[1] >= 0xA0) && (s[0] == 0xED ==> s[1] <= 0x9F) then 3
    else if 0xF0 <= s[0] <= 0xF4 && Continues(s, 1) && Continues(s, 2) && Continues(s, 3)
            && (s[0] == 0xF0 ==> s[1] >= 0x90) && (s[0] == 0xF4 ==> s[1] <= 0x8F) then 4
    else 0
  }

  predicate ValidUtf8(s: seq<byte>)
    decreases |s|
  {
    s == [] || (var n := Utf8Width(s); n > 0 && ValidUtf8(s[n..]))
  }

  // --- the same encoding, from the characters ---

  predicate Scalar(c: nat) {
    c < 0xD800 || 0xE000 <= c < 0x110000
  }

  // The encoding of one Unicode scalar value (section 3 of RFC 3629).
  function Utf8(c: nat): seq<byte>
    requires Scalar(c)
  {
    if c < 0x80 then [c]
    else if c < 0x800 then [0xC0 + c / 64, 0x80 + c % 64]
    else if c < 0x10000 then [0xE0 + c / 4096, 0x80 + c / 64 % 64, 0x80 + c % 64]
    else [0xF0 + c / 262144, 0x80 + c / 4096 % 64, 0x80 + c / 64 % 64, 0x80 + c % 64]
  }

  function Utf8Text(cs: seq<nat>): seq<byte>
    requires forall i :: 0 <= i < |cs| ==> Scalar(cs[i])
  {
    if cs == [] then [] else Utf8(cs[0]) + Utf8Text(cs[1..])
  }

  lemma {:induction false} ShortInFront(c: nat, rest: seq<byte>)
    requires c < 0x800
    ensures Utf8Width(Utf8(c) + rest) == |Utf8(c)|
  {
    var s, u := Utf8(c) + rest, Utf8(c);
    assert forall i :: 0 <= i < |u| ==> s[i] == u[i];
  }

  lemma {:induction false} ThreeInFront(c: nat, rest: seq<byte>)
    requires Scalar(c) && 0x800 <= c < 0x10000
    ensures Utf8Width(Utf8(c) + rest) == |Utf8(c)|
  {
    var s, u := Utf8(c) + rest, Utf8(c);
    assert s[0] == u[0] && s[1] == u[1] && s[2] == u[2];
  }

  lemma {:induction false} FourInFront(c: nat, rest: seq<byte>)
    requires Scalar(c) && 0x10000 <= c
    ensures Utf8Width(Utf8(c) + rest) == |Utf8(c)|
  {
    var s, u := Utf8(c) + rest, Utf8(c);
    assert s[0] == u[0] && s[1] == u[1] && s[2] == u[2] && s[3] == u[3];
  }

  lemma {:induction false} CharacterInFront(c: nat, rest: seq<byte>)
    requires Scalar(c)
    ensures Utf8Width(Utf8(c) + rest) == |Utf8(c)|
  {
    if c < 0x800 {
      ShortInFront(c, rest);
    } else if c < 0x10000 {
      ThreeInFront(c, rest);
    } else {
      FourInFront(c, rest);
    }
  }

  // Six bits at a time.
  lemma {:induction false} SixBits(a: nat, b: nat, c: nat, d: nat)
    requires b < 64 && c < 64 && d < 64
    ensures var n := a * 262144 + b * 4096 + c * 64 + d;
            n / 262144 == a && n / 4096 % 64 == b && n / 64 % 64 == c && n % 64 == d
            && n / 4096 == a * 64 + b && n / 64 == a * 4096 + b * 64 + c
  {
    var n := a * 262144 + b * 4096 + c * 64 + d;
    assert n == 64 * (a * 4096 + b * 64 + c) + d;
    assert n == 4096 * (a * 64 + b) + (c * 64 + d);
    assert n == 262144 * a + (b * 4096 + c * 64 + d);
    assert n / 64 == a * 4096 + b * 64 + c;
    assert n / 4096 == a * 64 + b;
  }

  // The character of a well-formed encoding.
  lemma {:induction false} FrontCharacter(s: seq<byte>) returns (c: nat)
    requires Utf8Width(s) > 0
    ensures Scalar(c) && Utf8(c) == s[..Utf8Width(s)]
  {
    var n := Utf8Width(s);
    if n == 1 {
      c := s[0];
    } else if n == 2 {
      c := (s[0] as int - 0xC0) * 64 + (s[1] as int - 0x80);
    } else if n == 3 {
      c := ThreeBytes(s);
    } else {
      c := FourBytes(s);
    }
  }

  lemma {:induction false} ThreeBytes(s: seq<byte>) returns (c: nat)
    requires Utf8Width(s) == 3
    ensures Scalar(c) && Utf8(c) == s[..3]
  {
    var high: nat, mid: nat, low: nat := s[0] as int - 0xE0, s[1] as int - 0x80, s[2] as int - 0x80;
    SixBits(0, high, mid, low);
    c := high * 4096 + mid * 64 + low;
  }

  lemma {:induction false} FourBytes(s: seq<byte>) returns (c: nat)
    requires Utf8Width(s) == 4
    ensures Scalar(c) && Utf8(c) == s[..4]
  {
    var top: nat, high: nat := s[0] as int - 0xF0, s[1] as int - 0x80;
    var mid: nat, low: nat := s[2] as int - 0x80, s[3] as int - 0x80;
    SixBits(top, high, mid, low);
    c := top * 262144 + high * 4096 + mid * 64 + low;
  }

  // Valid are exactly the encodings of some characters.
  lemma {:induction false} ValidUtf8Iff(s: seq<byte>)
    ensures ValidUtf8(s) <==> exists cs :: (forall i :: 0 <= i < |cs| ==> Scalar(cs[i])) && Utf8Text(cs) == s
  {
    hide Utf8, Utf8Width, Scalar;
    if ValidUtf8(s) {
      var cs := CharactersOf(s);
    }
    forall cs | (forall i :: 0 <= i < |cs| ==> Scalar(cs[i])) && Utf8Text(cs) == s ensures ValidUtf8(s) {
      TextIsValid(cs);
    }
  }

  lemma {:induction false} CharactersOf(s: seq<byte>) returns (cs: seq<nat>)
    requires ValidUtf8(s)
    ensures (forall i :: 0 <= i < |cs| ==> Scalar(cs[i])) && Utf8Text(cs) == s
    decreases |s|
  {
    hide Utf8, Utf8Width, Scalar;
    if s == [] {
      cs := [];
    } else {
      var n := Utf8Width(s);
      var c := FrontCharacter(s);
      var rest := CharactersOf(s[n..]);
      cs := [c] + rest;
      assert cs[1..] == rest && s[..n] + s[n..] == s;
    }
  }

  lemma {:induction false} TextIsValid(cs: seq<nat>)
    requires forall i :: 0 <= i < |cs| ==> Scalar(cs[i])
    ensures ValidUtf8(Utf8Text(cs))
  {
    if cs != [] {
      var rest := Utf8Text(cs[1..]);
      TextIsValid(cs[1..]);
      CharacterInFront(cs[0], rest);
      assert (Utf8(cs[0]) + rest)[|Utf8(cs[0])|..] == rest;
    }
  }

  lemma {:induction false} AsciiIsUtf8(s: seq<byte>)
    requires forall i :: 0 <= i < |s| ==> s[i] < 0x80
    ensures ValidUtf8(s)
  {
    if s != [] {
      AsciiIsUtf8(s[1..]);
    }
  }

  // Exactly the bytes of one White_Space character.
  predicate IsWhiteSpace(s: seq<byte>) {
    || (|s| == 1 && (9 <= s[0] <= 13 || s[0] == 32))
    || (|s| == 2 && s[0] == 0xC2 && (s[1] == 0x85 || s[1] == 0xA0))
    || (|s| == 3 && s[0] == 0xE1 && s[1] == 0x9A && s[2] == 0x80)
    || (|s| == 3 && s[0] == 0xE2 && s[1] == 0x80 && (0x80 <= s[2] <= 0x8A || s[2] == 0xA8 || s[2] == 0xA9 ||
        s[2] == 0xAF))
    || (|s| == 3 && s[0] == 0xE2 && s[1] == 0x81 && s[2] == 0x9F)
    || (|s| == 3 && s[0] == 0xE3 && s[1] == 0x80 && s[2] == 0x80)
  }

  // The characters with the White_Space property of the Unicode Character Database.
  lemma {:induction false} WhiteSpaceIs(s: seq<byte>)
    ensures IsWhiteSpace(s) <==>
              exists c | 0x9 <= c <= 0xD || c == 0x20 || c == 0x85 || c == 0xA0 || c == 0x1680 || 0x2000 <= c <= 0x200A
                         || c == 0x2028 || c == 0x2029 || c == 0x202F || c == 0x205F || c == 0x3000 :: s == Utf8(c)
  {
    if IsWhiteSpace(s) {
      assert Utf8Width(s) == |s|;
      var c := FrontCharacter(s);
      assert s[..|s|] == s;
    }
  }

  // Width of the white-space character at the front, 0 if there is none; likewise at the back.
  function FrontSpace(s: seq<byte>): nat {
    if |s| >= 1 && IsWhiteSpace(s[..1]) then 1
    else if |s| >= 2 && IsWhiteSpace(s[..2]) then 2
    else if |s| >= 3 && IsWhiteSpace(s[..3]) then 3
    else 0
  }

  function BackSpace(s: seq<byte>): nat {
    if |s| >= 1 && IsWhiteSpace(s[|s| - 1..]) then 1
    else if |s| >= 2 && IsWhiteSpace(s[|s| - 2..]) then 2
    else if |s| >= 3 && IsWhiteSpace(s[|s| - 3..]) then 3
    else 0
  }

  // Removes leading and trailing white space of a UTF-8 text.
  function Trim(s: seq<byte>): seq<byte>
    decreases |s|
  {
    if FrontSpace(s) > 0 then Trim(s[FrontSpace(s)..])
    else if BackSpace(s) > 0 then Trim(s[..|s| - BackSpace(s)])
    else s
  }
}
