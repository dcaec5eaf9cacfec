/** A terminal's output: bytes cut anywhere become text, whose tail is kept. */
module Terminals {
  import opened Utf8

  const SCROLLBACK: nat := 256 * 1024

  /** U+FFFD. */
  const REPLACEMENT: Bytes := Encode(0xFFFD)

  /** How many bytes at the front are whole characters. */
  function ValidUpTo(s: Bytes): (valid: nat)
    ensures valid <= |s| && (valid < |s| ==> !FrontOf(s[valid..]).Char?)
  {
    if s == [] || !FrontOf(s).Char? then 0
    else
      var n := FrontOf(s).len;
      assert forall i :: 0 <= i <= |s| - n ==> s[n..][i..] == s[n + i..];
      n + ValidUpTo(s[n..])
  }

  /** The text some bytes come to, and the bytes left for later. */
  datatype Decoded = Decoded(text: Bytes, pending: Bytes)

  /** Reads front after front: characters stay, bytes that are part of none are replaced. */
  function Decode(s: Bytes): Decoded
    decreases |s|
  {
    if s == [] then Decoded([], [])
    else match FrontOf(s)
      case Cut => Decoded([], s)
      case Char(n) => var rest := Decode(s[n..]); Decoded(s[..n] + rest.text, rest.pending)
      case Bad(n) => var rest := Decode(s[n..]); Decoded(REPLACEMENT + rest.text, rest.pending)
  }

  lemma {:induction false} DecodeSkips(s: Bytes)
    ensures Decode(s).text == s[..ValidUpTo(s)] + Decode(s[ValidUpTo(s)..]).text
    ensures Decode(s).pending == Decode(s[ValidUpTo(s)..]).pending
    decreases |s|
  {
    hide FrontOf, Decode, ValidUpTo;
    ValidChar(s);
    var valid := ValidUpTo(s);
    if valid == 0 {
      assert s[0..] == s && s[..0] == [];
      assert [] + Decode(s).text == Decode(s).text;
    } else {
      var n := FrontOf(s).len;
      var rest := s[n..];
      DecodeSkips(rest);
      DecodeChar(s);
      assert rest[valid - n..] == s[valid..];
      assert s[..n] + rest[..valid - n] == s[..valid];
      var more := Decode(s[valid..]).text;
      assert s[..n] + (rest[..valid - n] + more) == s[..n] + rest[..valid - n] + more;
    }
  }

  lemma ValidChar(s: Bytes)
    ensures ValidUpTo(s) > 0 ==>
      s != [] && FrontOf(s).Char? && ValidUpTo(s) == FrontOf(s).len + ValidUpTo(s[FrontOf(s).len..])
  {
  }

  lemma DecodeChar(s: Bytes)
    requires s != [] && FrontOf(s).Char?
    ensures var n := FrontOf(s).len;
      Decode(s).text == s[..n] + Decode(s[n..]).text && Decode(s).pending == Decode(s[n..]).pending
  {
    hide FrontOf;
  }

  class Utf8Stream {
    var pending: Bytes

    constructor ()
      ensures pending == []
    {
      pending := [];
    }

    /** Adds bytes and returns the text they complete. */
    method Push(bytes: Bytes) returns (text: Bytes)
      modifies this
      ensures Decoded(text, pending) == Decode(old(pending) + bytes)
    {
      hide FrontOf, ValidUpTo;
      ghost var all := pending + bytes;
      pending := pending + bytes;
      text := [];
      while true
        invariant Decode(all) == Decoded(text + Decode(pending).text, Decode(pending).pending)
        decreases |pending|
      {
        var valid := ValidUpTo(pending);
        DecodeSkips(pending);
        ghost var rest := pending[valid..];
        assert Decode(all) == Decoded(text + pending[..valid] + Decode(rest).text, Decode(rest).pending) by {
          assert text + (pending[..valid] + Decode(rest).text) == text + pending[..valid] + Decode(rest).text;
        }
        text := text + pending[..valid];
        if valid == |pending| {
          pending := [];
          assert text + [] == text;
          return;
        }
        var front := FrontOf(pending[valid..]);
        if front.Cut? {
          pending := pending[valid..];
          assert text + [] == text;
          return;
        }
        assert rest[front.len..] == pending[valid + front.len..];
        assert text + (REPLACEMENT + Decode(rest[front.len..]).text) == text + REPLACEMENT + Decode(rest[front.len..]).text;
        text, pending := text + REPLACEMENT, pending[valid + front.len..];
      }
    }
  }

  // Chunks.

  /** Text does not depend on where the bytes were cut in two. */
  lemma {:induction false} ChunksJoin(a: Bytes, b: Bytes)
    ensures var first := Decode(a);
      var second := Decode(first.pending + b);
      Decode(a + b) == Decoded(first.text + second.text, second.pending)
    decreases |a|
  {
    hide FrontOf;
    if a == [] {
      assert a + b == b;
    } else if FrontOf(a).Cut? {
      assert [] + Decode(a + b).text == Decode(a + b).text;
    } else {
      var n := FrontOf(a).len;
      FrontStable(a, b);
      ChunksJoin(a[n..], b);
      assert (a + b)[n..] == a[n..] + b && (a + b)[..n] == a[..n];
      var rest, second := Decode(a[n..]), Decode(Decode(a[n..]).pending + b);
      var piece := if FrontOf(a).Char? then a[..n] else REPLACEMENT;
      assert piece + (rest.text + second.text) == piece + rest.text + second.text;
    }
  }

  function Concat(chunks: seq<Bytes>): Bytes {
    if chunks == [] then [] else Concat(chunks[..|chunks| - 1]) + chunks[|chunks| - 1]
  }

  /** What pushing one chunk after another comes to. */
  function DecodeChunks(chunks: seq<Bytes>): Decoded {
    if chunks == [] then Decoded([], [])
    else
      var before := DecodeChunks(chunks[..|chunks| - 1]);
      var last := Decode(before.pending + chunks[|chunks| - 1]);
      Decoded(before.text + last.text, last.pending)
  }

  /** Nor on any way of cutting them up. */
  lemma {:induction false} ChunkingIrrelevant(chunks: seq<Bytes>)
    ensures DecodeChunks(chunks) == Decode(Concat(chunks))
  {
    if chunks != [] {
      ChunkingIrrelevant(chunks[..|chunks| - 1]);
      ChunksJoin(Concat(chunks[..|chunks| - 1]), chunks[|chunks| - 1]);
    }
  }

  /** What stays pending is the start of a character, at most 3 bytes. */
  lemma {:induction false} PendingIsStart(s: Bytes)
    ensures var pending := Decode(s).pending;
      |pending| <= 3 && (pending == [] || IsStart(pending)) && |pending| <= |s| && pending == s[|s| - |pending|..]
    decreases |s|
  {
    if s != [] {
      if FrontOf(s).Cut? {
        CutIs(s);
      } else {
        PendingIsStart(s[FrontOf(s).len..]);
      }
    }
  }

  /** Well-formed input comes out unchanged, with nothing pending. */
  lemma {:induction false} WellFormedUnchanged(text: seq<Scalar>)
    ensures Decode(EncodeAll(text)) == Decoded(EncodeAll(text), [])
  {
    if text != [] {
      var first, rest := Encode(text[0]), EncodeAll(text[1..]);
      EncodedFront(text[0], rest);
      WellFormedUnchanged(text[1..]);
      assert (first + rest)[..|first|] == first && (first + rest)[|first|..] == rest;
    }
  }

  /** Each maximal subpart that is no character comes out as one replacement character, what is
      before it unchanged. */
  lemma MaximalReplaced(text: seq<Scalar>, bad: Bytes, rest: Bytes)
    requires IsMaximal(bad, rest)
    ensures Decode(EncodeAll(text) + bad + rest) == Decoded(EncodeAll(text) + REPLACEMENT + Decode(rest).text, Decode(rest).pending)
  {
    hide Decode, Encode, EncodeAll, IsMaximal, FrontOf;
    var good := EncodeAll(text);
    assert bad != [] by { MaximalSome(bad, rest); }
    MaximalIsBad(bad, rest);
    DecodeBad(bad, rest);
    WellFormedUnchanged(text);
    ChunksJoin(good, bad + rest);
    assert good + bad + rest == good + (bad + rest);
    assert [] + (bad + rest) == bad + rest;
    assert good + (REPLACEMENT + Decode(rest).text) == good + REPLACEMENT + Decode(rest).text;
  }

  lemma MaximalSome(bad: Bytes, rest: Bytes)
    requires IsMaximal(bad, rest)
    ensures bad != []
  {
    hide Encode, Begins;
  }

  lemma DecodeBad(bad: Bytes, rest: Bytes)
    requires bad != [] && FrontOf(bad + rest) == Bad(|bad|)
    ensures Decode(bad + rest) == Decoded(REPLACEMENT + Decode(rest).text, Decode(rest).pending)
  {
    hide FrontOf;
    assert (bad + rest)[|bad|..] == rest;
  }

  /** The start of a character at the end stays for later, what is before it comes out unchanged. */
  lemma StartStays(text: seq<Scalar>, start: Bytes)
    requires IsStart(start)
    ensures Decode(EncodeAll(text) + start) == Decoded(EncodeAll(text), start)
  {
    var good := EncodeAll(text);
    StartIsCut(start);
    assert Decode(start) == Decoded([], start);
    WellFormedUnchanged(text);
    ChunksJoin(good, start);
    hide Decode, EncodeAll, IsStart;
    assert [] + start == start && good + [] == good;
  }

  lemma {:induction false} EncodeJoins(a: seq<Scalar>, b: seq<Scalar>)
    ensures EncodeAll(a + b) == EncodeAll(a) + EncodeAll(b)
  {
    hide Encode;
    if a == [] {
      assert a + b == b;
    } else {
      EncodeJoins(a[1..], b);
      assert (a + b)[1..] == a[1..] + b;
    }
  }

  lemma WellFormedJoins(a: Bytes, b: Bytes)
    requires WellFormed(a) && WellFormed(b)
    ensures WellFormed(a + b)
  {
    var x :| a == EncodeAll(x);
    var y :| b == EncodeAll(y);
    EncodeJoins(x, y);
  }

  lemma CharWellFormed(s: Bytes)
    requires IsChar(s)
    ensures WellFormed(s)
  {
    var c: Scalar :| s == Encode(c);
    assert EncodeAll([c]) == Encode(c) + EncodeAll([]);
  }

  /** The text is always well-formed. */
  lemma {:induction false} TextWellFormed(s: Bytes)
    ensures WellFormed(Decode(s).text)
    decreases |s|
  {
    assert WellFormed([]) by { assert EncodeAll([]) == []; }
    if s != [] {
      match FrontOf(s)
      case Cut =>
      case Char(n) =>
        TextWellFormed(s[n..]);
        CharIs(s);
        CharWellFormed(s[..n]);
        WellFormedJoins(s[..n], Decode(s[n..]).text);
      case Bad(n) =>
        TextWellFormed(s[n..]);
        assert IsChar(REPLACEMENT);
        CharWellFormed(REPLACEMENT);
        WellFormedJoins(REPLACEMENT, Decode(s[n..]).text);
    }
  }

  // The scrollback.

  predicate IsBoundary(s: Bytes, i: nat) {
    i == |s| || (i < |s| && (i == 0 || !IsContinuation(s[i])))
  }

  /** The first place at or after `i` where a character starts. */
  ghost function BoundaryFrom(s: Bytes, i: nat): (cut: nat)
    requires i <= |s|
    ensures i <= cut <= |s| && IsBoundary(s, cut) && forall j :: i <= j < cut ==> !IsBoundary(s, j)
    decreases |s| - i
  {
    if IsBoundary(s, i) then i else BoundaryFrom(s, i + 1)
  }

  /** As much of the end of a text as fits, from where a character starts. */
  ghost function Tail(s: Bytes): Bytes {
    if |s| <= SCROLLBACK then s else s[BoundaryFrom(s, |s| - SCROLLBACK)..]
  }

  class Terminal {
    var scrollback: Bytes

    constructor ()
      ensures scrollback == []
    {
      scrollback := [];
    }

    method Keep(data: Bytes)
      modifies this
      ensures scrollback == Tail(old(scrollback) + data)
    {
      hide BoundaryFrom;
      scrollback := scrollback + data;
      if |scrollback| > SCROLLBACK {
        var cut := |scrollback| - SCROLLBACK;
        while !IsBoundary(scrollback, cut)
          decreases |scrollback| - cut
          invariant |scrollback| - SCROLLBACK <= cut <= |scrollback|
          invariant forall j :: |scrollback| - SCROLLBACK <= j < cut ==> !IsBoundary(scrollback, j)
        {
          cut := cut + 1;
        }
        FirstBoundary(scrollback, |scrollback| - SCROLLBACK, cut);
        scrollback := scrollback[cut..];
      }
    }

    /** Sends the text of a shell's output on, read by read, and keeps its tail. */
    method PumpOutput(chunks: seq<Bytes>) returns (sent: seq<Bytes>)
      requires scrollback == []
      modifies this
      ensures Concat(sent) == Decode(Concat(chunks)).text
      ensures forall data :: data in sent ==> data != []
      ensures scrollback == Tail(Decode(Concat(chunks)).text)
    {
      var decoder := new Utf8Stream();
      sent := [];
      for i := 0 to |chunks|
        invariant fresh(decoder)
        invariant Decoded(Concat(sent), decoder.pending) == DecodeChunks(chunks[..i])
        invariant forall data :: data in sent ==> data != []
        invariant scrollback == Tail(Concat(sent))
      {
        ghost var pending := decoder.pending;
        var data := decoder.Push(chunks[i]);
        assert chunks[..i + 1][..i] == chunks[..i];
        if data == [] {
          continue;
        }
        TextWellFormed(pending + chunks[i]);
        TailOfMore(Concat(sent), data);
        Keep(data);
        assert (sent + [data])[..|sent|] == sent;
        sent := sent + [data];
      }
      assert chunks[..|chunks|] == chunks;
      ChunkingIrrelevant(chunks);
    }
  }

  lemma WellFormedStarts(s: Bytes)
    requires WellFormed(s) && s != []
    ensures !IsContinuation(s[0])
  {
    var text :| s == EncodeAll(text);
    assert s[0] == Encode(text[0])[0];
  }

  /** Text added to a kept tail keeps the tail of the whole text. */
  lemma TailOfMore(s: Bytes, data: Bytes)
    requires WellFormed(data)
    ensures Tail(Tail(s) + data) == Tail(s + data)
  {
    if data == [] {
      assert Tail(s) + data == Tail(s) && s + data == s;
    } else if |s| > SCROLLBACK {
      WellFormedStarts(data);
      hide WellFormed;
      var cut := BoundaryFrom(s, |s| - SCROLLBACK);
      var all := s + data;
      assert IsBoundary(all, cut);
      assert Tail(s) + data == all[cut..];
      forall j | |s| - SCROLLBACK <= j < cut ensures !IsBoundary(all, j) {
        assert !IsBoundary(s, j);
      }
      if cut < |all| - SCROLLBACK {
        ShiftedTail(all, cut);
      }
    } else {
      assert Tail(s) == s;
    }
  }

  /** Cutting from a boundary that is not yet far enough changes nothing. */
  lemma ShiftedTail(all: Bytes, cut: nat)
    requires IsBoundary(all, cut) && cut < |all| - SCROLLBACK
    ensures Tail(all[cut..]) == Tail(all)
  {
    hide Tail;
    var kept := all[cut..];
    forall j: nat | |kept| - SCROLLBACK <= j <= |kept| ensures IsBoundary(kept, j) == IsBoundary(all, cut + j) {
    }
    FirstBoundary(kept, |kept| - SCROLLBACK, BoundaryFrom(all, |all| - SCROLLBACK) - cut);
    TailIs(kept);
    TailIs(all);
    assert kept[BoundaryFrom(kept, |kept| - SCROLLBACK)..] == all[BoundaryFrom(all, |all| - SCROLLBACK)..];
  }

  lemma TailIs(s: Bytes)
    requires |s| > SCROLLBACK
    ensures Tail(s) == s[BoundaryFrom(s, |s| - SCROLLBACK)..]
  {
  }

  lemma FirstBoundary(s: Bytes, i: nat, cut: nat)
    requires i <= cut <= |s| && IsBoundary(s, cut) && forall j :: i <= j < cut ==> !IsBoundary(s, j)
    ensures BoundaryFrom(s, i) == cut
  {
  }

  /** A well-formed text cut where a character starts is well-formed. */
  lemma {:induction false} CutWellFormed(text: seq<Scalar>, i: nat)
    requires i <= |EncodeAll(text)| && IsBoundary(EncodeAll(text), i)
    ensures WellFormed(EncodeAll(text)[i..])
  {
    var s := EncodeAll(text);
    if i == 0 {
      assert s[0..] == s;
    } else {
      var n := |Encode(text[0])|;
      assert forall j :: 0 < j < n ==> s[j] == Encode(text[0])[j] && IsContinuation(s[j]);
      CutWellFormed(text[1..], i - n);
      assert EncodeAll(text[1..])[i - n..] == s[i..];
    }
  }

  /** What is kept of a shell's output is well-formed, fits, and drops no more than it must: at
      most 3 bytes beyond what does not fit. */
  lemma TailFits(s: Bytes)
    requires WellFormed(s)
    ensures WellFormed(Tail(s)) && |Tail(s)| <= SCROLLBACK && Tail(s) == s[|s| - |Tail(s)|..]
    ensures |s| > SCROLLBACK ==> |Tail(s)| >= SCROLLBACK - 3
  {
    hide BoundaryFrom, Encode, EncodeAll;
    var text :| s == EncodeAll(text);
    hide WellFormed;
    if |s| > SCROLLBACK {
      CutWellFormed(text, BoundaryFrom(s, |s| - SCROLLBACK));
      NearBoundary(text, |s| - SCROLLBACK);
    }
  }

  lemma {:induction false} NearBoundary(text: seq<Scalar>, i: nat)
    requires i <= |EncodeAll(text)|
    ensures exists j :: i <= j <= i + 3 && IsBoundary(EncodeAll(text), j)
  {
    var s := EncodeAll(text);
    if i > 0 {
      var n := |Encode(text[0])|;
      var rest := EncodeAll(text[1..]);
      assert s[n..] == rest;
      if i < n {
        assert rest != [] ==> !IsContinuation(rest[0]) by {
          if rest != [] { WellFormedStarts(rest); }
        }
        assert IsBoundary(s, n);
      } else {
        NearBoundary(text[1..], i - n);
        var j :| i - n <= j <= i - n + 3 && IsBoundary(rest, j);
        assert rest != [] ==> !IsContinuation(rest[0]) by {
          if rest != [] { WellFormedStarts(rest); }
        }
        assert IsBoundary(s, j + n);
      }
    } else {
      assert IsBoundary(s, 0);
    }
  }
}
