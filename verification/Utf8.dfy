/** Well-formed UTF-8: the byte sequences of section 4 of RFC 3629, which are exactly
    the encodings of section 3. */
module Utf8 {
  import opened Prelude

  predicate Tail(b: byte) { 0x80 <= b <= 0xBF }

  /** Length of the well-formed character at the front of `s`, or 0. */
  function CharLength(s: seq<byte>): (n: nat)
    ensures n <= |s| && n <= 4
  {
    if s == [] then 0
    else if s[0] <= 0x7F then 1
    else if |s| >= 2 && 0xC2 <= s[0] <= 0xDF && Tail(s[1]) then 2
    else if |s| >= 3 && Tail(s[2]) && (
      (s[0] == 0xE0 && 0xA0 <= s[1] <= 0xBF) ||
      (s[0] == 0xED && 0x80 <= s[1] <= 0x9F) ||
      (((0xE1 <= s[0] <= 0xEC) || (0xEE <= s[0] <= 0xEF)) && Tail(s[1]))) then 3
    else if |s| >= 4 && Tail(s[2]) && Tail(s[3]) && (
      (s[0] == 0xF0 && 0x90 <= s[1] <= 0xBF) ||
      (s[0] == 0xF4 && 0x80 <= s[1] <= 0x8F) ||
      (0xF1 <= s[0] <= 0xF3 && Tail(s[1]))) then 4
    else 0
  }

  predicate ValidUtf8(s: seq<byte>) {
    s == [] || (CharLength(s) > 0 && ValidUtf8(s[CharLength(s)..]))
  }

  lemma FirstCharacter(a: seq<byte>, b: seq<byte>)
    requires CharLength(a) > 0
    ensures CharLength(a + b) == CharLength(a)
  {
  }

  lemma {:induction false} ValidConcat(a: seq<byte>, b: seq<byte>)
    requires ValidUtf8(a)
    ensures ValidUtf8(a + b) <==> ValidUtf8(b)
    decreases |a|
  {
    if a == [] {
      assert a + b == b;
    } else {
      var n := CharLength(a);
      ValidConcat(a[n..], b);
      FirstCharacter(a, b);
      assert (a + b)[n..] == a[n..] + b;
      hide CharLength;
    }
  }

  lemma AsciiIsValid(s: seq<byte>)
    requires forall i :: 0 <= i < |s| ==> s[i] <= 0x7F
    ensures ValidUtf8(s)
  {
    if s != [] { AsciiIsValid(s[1..]); }
  }

  // ---------------------------------------------------------------- as encoded text

  /** A Unicode scalar value: a code point that is not a surrogate. */
  type Scalar = c: int | 0 <= c < 0xD800 || 0xE000 <= c <= 0x10FFFF

  /** The bits of a code point, six to a byte after the first. */
  function Encoded(c: Scalar): seq<byte> {
    if c < 0x80 then [c]
    else if c < 0x800 then [0xC0 + c / 64, 0x80 + c % 64]
    else if c < 0x10000 then [0xE0 + c / 64 / 64, 0x80 + c / 64 % 64, 0x80 + c % 64]
    else [0xF0 + c / 64 / 64 / 64, 0x80 + c / 64 / 64 % 64, 0x80 + c / 64 % 64, 0x80 + c % 64]
  }

  function Text(cs: seq<Scalar>): seq<byte> {
    if cs == [] then [] else Encoded(cs[0]) + Text(cs[1..])
  }

  ghost predicate IsText(s: seq<byte>) { exists cs: seq<Scalar> :: Text(cs) == s }

  lemma EncodedIsCharacter(c: Scalar, rest: seq<byte>)
    ensures CharLength(Encoded(c) + rest) == |Encoded(c)| > 0
  {
  }

  /** The code point whose bits a character carries. */
  function Point(s: seq<byte>): int {
    if |s| == 1 then s[0]
    else if |s| == 2 then 64 * (s[0] as int - 0xC0) + (s[1] as int - 0x80)
    else if |s| == 3 then 64 * (64 * (s[0] as int - 0xE0) + (s[1] as int - 0x80)) + (s[2] as int - 0x80)
    else if |s| == 4 then
      64 * (64 * (64 * (s[0] as int - 0xF0) + (s[1] as int - 0x80)) + (s[2] as int - 0x80)) + (s[3] as int - 0x80)
    else 0
  }

  lemma PointOfEncoded(c: Scalar)
    ensures Point(Encoded(c)) == c
  {
    assert c == 64 * (c / 64) + c % 64;
    assert c / 64 == 64 * (c / 64 / 64) + c / 64 % 64;
    assert c / 64 / 64 == 64 * (c / 64 / 64 / 64) + c / 64 / 64 % 64;
  }

  lemma Sextet(q: nat, d: nat)
    requires d < 64
    ensures (64 * q + d) / 64 == q && (64 * q + d) % 64 == d
  {
  }

  lemma TwoBytes(a: byte, b: byte)
    requires CharLength([a, b]) == 2
    ensures 0x80 <= Point([a, b]) < 0x800 && Encoded(Point([a, b])) == [a, b]
  {
    Sextet(a as int - 0xC0, b as int - 0x80);
  }

  lemma ThreeBytes(a: byte, b: byte, c: byte) returns (p: Scalar)
    requires CharLength([a, b, c]) == 3
    ensures Encoded(p) == [a, b, c]
  {
    p := Point([a, b, c]);
    Sextet(a as int - 0xE0, b as int - 0x80);
    Sextet(64 * (a as int - 0xE0) + (b as int - 0x80), c as int - 0x80);
  }

  lemma FourBytes(a: byte, b: byte, c: byte, d: byte) returns (p: Scalar)
    requires CharLength([a, b, c, d]) == 4
    ensures Encoded(p) == [a, b, c, d]
  {
    p := Point([a, b, c, d]);
    var q: nat := 64 * (a as int - 0xF0) + (b as int - 0x80);
    Sextet(a as int - 0xF0, b as int - 0x80);
    Sextet(q, c as int - 0x80);
    Sextet(64 * q + (c as int - 0x80), d as int - 0x80);
  }

  lemma CharacterIsEncoded(s: seq<byte>) returns (c: Scalar)
    requires CharLength(s) > 0
    ensures Encoded(c) == s[..CharLength(s)]
  {
    var n := CharLength(s);
    SameLength(s);
    hide CharLength, Point;
    if n == 1 {
      c := OneByte(s[0]);
      assert s[..1] == [s[0]];
    } else if n == 2 {
      TwoBytes(s[0], s[1]);
      c := Point([s[0], s[1]]);
      assert s[..2] == [s[0], s[1]];
    } else if n == 3 {
      c := ThreeBytes(s[0], s[1], s[2]);
      assert s[..3] == [s[0], s[1], s[2]];
    } else {
      c := FourBytes(s[0], s[1], s[2], s[3]);
      assert s[..4] == [s[0], s[1], s[2], s[3]];
    }
  }

  lemma OneByte(b: byte) returns (c: Scalar)
    requires CharLength([b]) == 1
    ensures Encoded(c) == [b]
  {
    c := b;
  }

  lemma SameLength(s: seq<byte>)
    requires CharLength(s) > 0
    ensures
      match CharLength(s)
      case 1 => CharLength([s[0]]) == 1
      case 2 => CharLength([s[0], s[1]]) == 2
      case 3 => CharLength([s[0], s[1], s[2]]) == 3
      case _ => CharLength(s) == 4 && CharLength([s[0], s[1], s[2], s[3]]) == 4
  {
  }

  lemma {:induction false} TextIsValid(cs: seq<Scalar>)
    ensures ValidUtf8(Text(cs))
  {
    if cs != [] {
      TextIsValid(cs[1..]);
      EncodedIsCharacter(cs[0], Text(cs[1..]));
      var s, n := Text(cs), |Encoded(cs[0])|;
      assert s[n..] == Text(cs[1..]);
      hide CharLength, Encoded;
    }
  }

  lemma {:induction false} ValidIsText(s: seq<byte>) returns (cs: seq<Scalar>)
    requires ValidUtf8(s)
    ensures Text(cs) == s
    decreases |s|
  {
    hide CharLength, Encoded;
    if s == [] {
      cs := [];
    } else {
      var n := CharLength(s);
      var c := CharacterIsEncoded(s);
      var more := ValidIsText(s[n..]);
      cs := [c] + more;
      assert cs[1..] == more && s == s[..n] + s[n..];
    }
  }

  /** The strings that are text are the encodings of sequences of scalar values. */
  lemma ValidUtf8Iff(s: seq<byte>)
    ensures ValidUtf8(s) <==> IsText(s)
  {
    if ValidUtf8(s) {
      var cs := ValidIsText(s);
    }
    if cs: seq<Scalar> :| Text(cs) == s {
      TextIsValid(cs);
    }
  }

  /** No two texts have the same bytes. */
  lemma {:induction false} TextInjective(a: seq<Scalar>, b: seq<Scalar>)
    requires Text(a) == Text(b)
    ensures a == b
  {
    if a != [] { EncodedIsCharacter(a[0], Text(a[1..])); }
    if b != [] { EncodedIsCharacter(b[0], Text(b[1..])); }
    if a != [] && b != [] {
      var n := CharLength(Text(a));
      assert Encoded(a[0]) == Text(a)[..n] && Encoded(b[0]) == Text(b)[..n];
      PointOfEncoded(a[0]);
      PointOfEncoded(b[0]);
      assert Text(a[1..]) == Text(a)[n..] && Text(b[1..]) == Text(b)[n..];
      hide CharLength, Encoded;
      TextInjective(a[1..], b[1..]);
      assert a == [a[0]] + a[1..] && b == [b[0]] + b[1..];
    }
  }
}
