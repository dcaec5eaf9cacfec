/** UTF-8 as section 3 of RFC 3629 defines it, and what reading bytes as UTF-8 finds, with the
    maximal subparts of section 3.9 of the Unicode Standard. */
module Utf8 {
  import opened Octets

  type Bytes = seq<Byte>

  /** A Unicode scalar value: any code point but a surrogate. */
  type Scalar = c: int | 0 <= c < 0xD800 || 0xE000 <= c < 0x11_0000

  function Encode(c: Scalar): (r: Bytes)
    ensures 1 <= |r| <= 4
  {
    if c < 0x80 then [c]
    else if c < 0x800 then [0xC0 + c / 64, 0x80 + c % 64]
    else if c < 0x1_0000 then [0xE0 + c / 4096, 0x80 + c / 64 % 64, 0x80 + c % 64]
    else [0xF0 + c / 262144, 0x80 + c / 4096 % 64, 0x80 + c / 64 % 64, 0x80 + c % 64]
  }

  function EncodeAll(text: seq<Scalar>): Bytes {
    if text == [] then [] else Encode(text[0]) + EncodeAll(text[1..])
  }

  ghost predicate WellFormed(s: Bytes) {
    exists text :: s == EncodeAll(text)
  }

  ghost predicate IsChar(s: Bytes) {
    exists c: Scalar :: s == Encode(c)
  }

  /** The start of a character, but not all of it. */
  ghost predicate IsStart(s: Bytes) {
    exists c: Scalar :: 0 < |s| < |Encode(c)| && s == Encode(c)[..|s|]
  }

  /** What the front of some bytes is: a character, the start of one cut at the end, or `len`
      bytes that are part of none. */
  datatype Front = Char(len: nat) | Cut | Bad(len: nat)

  predicate IsContinuation(b: Byte) {
    0x80 <= b < 0xC0
  }

  /** How many bytes a character with this first byte has, 0 if none has it. */
  function Width(b: Byte): nat {
    if b < 0x80 then 1
    else if b < 0xC2 then 0
    else if b < 0xE0 then 2
    else if b < 0xF0 then 3
    else if b < 0xF5 then 4
    else 0
  }

  /** Some character starts with these two bytes. */
  predicate IsSecond(first: Byte, second: Byte) {
    && IsContinuation(second)
    && (first == 0xE0 ==> 0xA0 <= second)
    && (first == 0xED ==> second < 0xA0)
    && (first == 0xF0 ==> 0x90 <= second)
    && (first == 0xF4 ==> second < 0x90)
  }

  function FrontOf(s: Bytes): (f: Front)
    requires s != []
    ensures f.Cut? ==> |s| <= 3
    ensures !f.Cut? ==> 1 <= f.len <= |s|
  {
    var width := Width(s[0]);
    if width == 0 then Bad(1)
    else if width == 1 then Char(1)
    else if |s| < 2 then Cut
    else if !IsSecond(s[0], s[1]) then Bad(1)
    else if width == 2 then Char(2)
    else if |s| < 3 then Cut
    else if !IsContinuation(s[2]) then Bad(2)
    else if width == 3 then Char(3)
    else if |s| < 4 then Cut
    else if !IsContinuation(s[3]) then Bad(3)
    else Char(4)
  }

  // What a front is, in terms of the encoding alone.

  lemma EncodedBytes(c: Scalar)
    ensures var s := Encode(c);
      && Width(s[0]) == |s|
      && (|s| > 1 ==> IsSecond(s[0], s[1])) && forall i :: 2 <= i < |s| ==> IsContinuation(s[i])
  {
  }

  lemma EncodedFront(c: Scalar, rest: Bytes)
    ensures FrontOf(Encode(c) + rest) == Char(|Encode(c)|)
  {
    hide Encode, Width, IsSecond, IsContinuation;
    EncodedBytes(c);
    var s := Encode(c);
    assert forall i :: 0 <= i < |s| ==> (s + rest)[i] == s[i];
  }

  lemma StartIsCut(s: Bytes)
    requires IsStart(s)
    ensures FrontOf(s) == Cut
  {
    hide Encode, Width, IsSecond, IsContinuation;
    var c: Scalar :| 0 < |s| < |Encode(c)| && s == Encode(c)[..|s|];
    EncodedBytes(c);
    assert forall i :: 0 <= i < |s| ==> s[i] == Encode(c)[i];
  }

  lemma TwoBytes(a: Byte, b: Byte)
    requires 0xC2 <= a < 0xE0 && IsContinuation(b)
    ensures IsChar([a, b])
  {
    var c: Scalar := (a as int - 0xC0) * 64 + (b as int - 0x80);
    assert Encode(c) == [a, b];
  }

  lemma ThreeBytes(a: Byte, b: Byte, c: Byte)
    requires 0xE0 <= a < 0xF0 && IsSecond(a, b) && IsContinuation(c)
    ensures IsChar([a, b, c])
  {
    var code: int := (a as int - 0xE0) * 4096 + (b as int - 0x80) * 64 + (c as int - 0x80);
    assert code / 4096 == a as int - 0xE0 && code / 64 % 64 == b as int - 0x80 && code % 64 == c as int - 0x80;
    assert Encode(code) == [a, b, c];
  }

  lemma FourBytes(a: Byte, b: Byte, c: Byte, d: Byte)
    requires 0xF0 <= a < 0xF5 && IsSecond(a, b) && IsContinuation(c) && IsContinuation(d)
    ensures IsChar([a, b, c, d])
  {
    var high: int := (a as int - 0xF0) * 64 + (b as int - 0x80);
    var code: int := high * 4096 + (c as int - 0x80) * 64 + (d as int - 0x80);
    SplitLow(high, c as int - 0x80, d as int - 0x80);
    assert 0x1_0000 <= code < 0x11_0000;
    assert high / 64 == a as int - 0xF0 && high % 64 == b as int - 0x80;
    assert Encode(code) == [a, b, c, d];
  }

  /** A number put together from its high part and two groups of six bits comes apart again. */
  lemma SplitLow(high: int, c: int, d: int)
    requires 0 <= high && 0 <= c < 64 && 0 <= d < 64
    ensures var code := high * 4096 + c * 64 + d;
      code / 4096 == high && code / 64 % 64 == c && code % 64 == d && code / 262144 == high / 64
  {
    var code := high * 4096 + c * 64 + d;
    assert code / 64 == high * 64 + c;
    assert code / 262144 == (code / 4096) / 64;
  }

  /** A front that reads as a character is one. */
  lemma CharIs(s: Bytes)
    requires s != [] && FrontOf(s).Char?
    ensures IsChar(s[..FrontOf(s).len])
  {
    hide IsChar;
    match FrontOf(s).len
    case 1 => AsciiByte(s[0]); assert s[..1] == [s[0]];
    case 2 => TwoBytes(s[0], s[1]); assert s[..2] == [s[0], s[1]];
    case 3 => ThreeBytes(s[0], s[1], s[2]); assert s[..3] == [s[0], s[1], s[2]];
    case _ => FourBytes(s[0], s[1], s[2], s[3]); assert s[..4] == [s[0], s[1], s[2], s[3]];
  }

  lemma AsciiByte(a: Byte)
    requires a < 0x80
    ensures IsChar([a])
  {
    assert Encode(a as Scalar) == [a];
  }

  /** The first continuation byte that makes a character start with `b`. */
  function Following(b: Byte): Byte {
    if b == 0xE0 then 0xA0 else if b == 0xF0 then 0x90 else 0x80
  }

  /** A cut front is the start of a character: filling it up makes one. */
  lemma CutIs(s: Bytes)
    requires s != [] && FrontOf(s).Cut?
    ensures IsStart(s)
  {
    var more: Bytes := (if |s| == 1 then [Following(s[0])] else []) + [0x80, 0x80, 0x80];
    var full := s + more;
    assert forall i :: 0 <= i < |s| ==> full[i] == s[i];
    assert FrontOf(full) == Char(Width(s[0]));
    CharIs(full);
    var n := Width(s[0]);
    var c: Scalar :| full[..n] == Encode(c);
    assert s == full[..n][..|s|];
  }

  /** What a front is depends only on the bytes read. */
  lemma FrontStable(s: Bytes, more: Bytes)
    requires s != [] && !FrontOf(s).Cut?
    ensures FrontOf(s + more) == FrontOf(s)
  {
    assert forall i :: 0 <= i < |s| ==> (s + more)[i] == s[i];
  }

  /** Some character begins with `s`, or is it. */
  ghost predicate Begins(s: Bytes) {
    IsStart(s) || IsChar(s)
  }

  lemma BeginsIsNotBad(s: Bytes)
    requires s != []
    ensures Begins(s) ==> !FrontOf(s).Bad?
  {
    if IsStart(s) {
      StartIsCut(s);
    } else if IsChar(s) {
      var c: Scalar :| s == Encode(c);
      EncodedFront(c, []);
      assert s + [] == s;
    }
  }

  /** Bytes that are part of no character: as many as begin one, which the next byte breaks off,
      or a single byte no character begins with. */
  lemma BadIs(s: Bytes)
    requires s != [] && FrontOf(s).Bad?
    ensures var n := FrontOf(s).len;
      if IsStart(s[..n]) then n < |s| && !Begins(s[..n + 1]) else n == 1 && !Begins(s[..1])
  {
    var n := FrontOf(s).len;
    if Width(s[0]) == 0 {
      BeginsIsNotBad(s[..1]);
    } else {
      assert FrontOf(s[..n]) == Cut;
      CutIs(s[..n]);
      BeginsIsNotBad(s[..n + 1]);
    }
  }

  /** `bad` is a maximal subpart before `rest`: the start of a character the next byte breaks off,
      or a byte no character begins with. */
  ghost predicate IsMaximal(bad: Bytes, rest: Bytes) {
    if IsStart(bad) then rest != [] && !Begins(bad + rest[..1]) else |bad| == 1 && !Begins(bad)
  }

  /** A maximal subpart is what reading finds bad. */
  lemma MaximalIsBad(bad: Bytes, rest: Bytes)
    requires IsMaximal(bad, rest)
    ensures FrontOf(bad + rest) == Bad(|bad|)
  {
    if IsStart(bad) {
      StartIsCut(bad);
      var s := bad + rest[..1];
      OneMoreByte(bad, rest[0]);
      assert s == bad + [rest[0]];
      if FrontOf(s).Cut? {
        CutIs(s);
      } else {
        assert FrontOf(s).Char? ==> s[..|s|] == s;
        if FrontOf(s).Char? {
          CharIs(s);
        }
        FrontStable(s, rest[1..]);
        assert s + rest[1..] == bad + rest;
      }
    } else {
      assert bad[..1] == bad;
      if FrontOf(bad).Cut? {
        CutIs(bad);
      } else {
        if FrontOf(bad).Char? {
          CharIs(bad);
        }
        FrontStable(bad, rest);
      }
    }
  }

  lemma OneMoreByte(start: Bytes, b: Byte)
    requires start != [] && FrontOf(start).Cut?
    ensures var f := FrontOf(start + [b]);
      f == Cut || f == Char(|start| + 1) || f == Bad(|start|)
  {
    assert forall i :: 0 <= i < |start| ==> (start + [b])[i] == start[i];
  }
}
