/** Trimming as `str::trim` does it, on the bytes of UTF-8 text. */
module Trimming {
  import opened Bytes
  import opened JsonText

  /** The UTF-8 forms of the white space characters of Unicode outside ASCII. */
  predicate IsWideSpace(s: bytes) {
    || (|s| == 2 && s[0] == 0xC2 && (s[1] == 0x85 || s[1] == 0xA0))
    || (|s| == 3 && s[0] == 0xE1 && s[1] == 0x9A && s[2] == 0x80)
    || (|s| == 3 && s[0] == 0xE2 && s[1] == 0x80 && (0x80 <= s[2] <= 0x8A || 0xA8 <= s[2] <= 0xA9 || s[2] == 0xAF))
    || (|s| == 3 && s[0] == 0xE2 && s[1] == 0x81 && s[2] == 0x9F)
    || (|s| == 3 && s[0] == 0xE3 && s[1] == 0x80 && s[2] == 0x80)
  }

  predicate IsAsciiSpace(b: byte) {
    0x09 <= b <= 0x0D || b == 0x20
  }

  function TrimStart(s: bytes): bytes {
    if s != [] && IsAsciiSpace(s[0]) then TrimStart(s[1..])
    else if |s| >= 2 && IsWideSpace(s[..2]) then TrimStart(s[2..])
    else if |s| >= 3 && IsWideSpace(s[..3]) then TrimStart(s[3..])
    else s
  }

  function TrimEnd(s: bytes): bytes {
    var n := |s|;
    if n >= 1 && IsAsciiSpace(s[n - 1]) then TrimEnd(s[..n - 1])
    else if n >= 2 && IsWideSpace(s[n - 2..]) then TrimEnd(s[..n - 2])
    else if n >= 3 && IsWideSpace(s[n - 3..]) then TrimEnd(s[..n - 3])
    else s
  }

  function Trim(s: bytes): bytes {
    TrimEnd(TrimStart(s))
  }

  // ----- What white space is -----

  /** The code points with the property White_Space of Unicode. */
  predicate IsWhiteSpace(c: nat) {
    || 0x09 <= c <= 0x0D || c == 0x20 || c == 0x85 || c == 0xA0 || c == 0x1680 || 0x2000 <= c <= 0x200A
    || c == 0x2028 || c == 0x2029 || c == 0x202F || c == 0x205F || c == 0x3000
  }

  predicate IsSpaceChar(s: bytes) {
    (|s| == 1 && IsAsciiSpace(s[0])) || IsWideSpace(s)
  }

  /** The bytes trimmed as one character are those of the white space code points. */
  lemma SpaceCharExactly(s: bytes)
    ensures IsSpaceChar(s) <==> exists c :: IsWhiteSpace(c) && s == EncodeUtf8(c)
  {
    if IsSpaceChar(s) {
      var c := CodePointOf(s);
      assert IsWhiteSpace(c) && s == EncodeUtf8(c);
    }
  }

  function CodePointOf(s: bytes): nat
    requires IsSpaceChar(s)
  {
    if |s| == 1 then s[0] as nat
    else if |s| == 2 then (s[0] as nat - 0xC0) * 64 + (s[1] as nat - 0x80)
    else ((s[0] as nat - 0xE0) * 64 + (s[1] as nat - 0x80)) * 64 + (s[2] as nat - 0x80)
  }

  predicate SpaceChars(chars: seq<bytes>) {
    forall i :: 0 <= i < |chars| ==> IsSpaceChar(chars[i])
  }

  /** The characters one after the other. */
  function Flat(chars: seq<bytes>): bytes {
    if chars == [] then [] else chars[0] + Flat(chars[1..])
  }

  predicate StartsWithSpace(s: bytes) {
    || (|s| >= 1 && IsSpaceChar(s[..1]))
    || (|s| >= 2 && IsSpaceChar(s[..2]))
    || (|s| >= 3 && IsSpaceChar(s[..3]))
  }

  predicate EndsWithSpace(s: bytes) {
    || (|s| >= 1 && IsSpaceChar(s[|s| - 1..]))
    || (|s| >= 2 && IsSpaceChar(s[|s| - 2..]))
    || (|s| >= 3 && IsSpaceChar(s[|s| - 3..]))
  }

  // ----- What trimming does -----

  lemma TrimStartOne(c: bytes, s: bytes)
    requires IsSpaceChar(c)
    ensures TrimStart(c + s) == TrimStart(s)
  {
    var t := c + s;
    assert t[|c|..] == s && t[..|c|] == c;
    assert |c| == 3 ==> t[..2] == c[..2];
  }

  lemma TrimEndOne(s: bytes, c: bytes)
    requires IsSpaceChar(c)
    ensures TrimEnd(s + c) == TrimEnd(s)
  {
    var t := s + c;
    EndOf(s, c);
    if |c| == 3 {
      EndOf(s + [c[0]], c[1..]);
      assert t == s + [c[0]] + c[1..];
    }
  }

  lemma EndOf(s: bytes, c: bytes)
    requires c != []
    ensures var t := s + c; t[|t| - |c|..] == c && t[..|t| - |c|] == s && t[|t| - 1] == c[|c| - 1]
  {
  }

  lemma {:induction false} FlatAppend(chars: seq<bytes>, c: bytes)
    ensures Flat(chars + [c]) == Flat(chars) + c
  {
    if chars == [] {
      assert [c][1..] == [] && chars + [c] == [c];
      assert Flat([c]) == c + [];
    } else {
      assert (chars + [c])[0] == chars[0] && (chars + [c])[1..] == chars[1..] + [c];
      FlatAppend(chars[1..], c);
      assert chars[0] + (Flat(chars[1..]) + c) == chars[0] + Flat(chars[1..]) + c;
    }
  }

  lemma FlatFirst(c: bytes, chars: seq<bytes>)
    ensures Flat([c] + chars) == c + Flat(chars)
  {
    assert ([c] + chars)[1..] == chars;
  }

  lemma TrimStartStops(s: bytes)
    requires !StartsWithSpace(s)
    ensures TrimStart(s) == s
  {
  }

  lemma TrimEndStops(s: bytes)
    requires !EndsWithSpace(s)
    ensures TrimEnd(s) == s
  {
  }

  /** A text that starts with white space is one character of it and a rest. */
  lemma StartSplits(s: bytes) returns (c: bytes, rest: bytes)
    requires StartsWithSpace(s)
    ensures IsSpaceChar(c) && s == c + rest && |rest| < |s|
  {
    var n := if IsSpaceChar(s[..1]) then 1 else if |s| >= 2 && IsSpaceChar(s[..2]) then 2 else 3;
    c, rest := s[..n], s[n..];
  }

  lemma EndSplits(s: bytes) returns (rest: bytes, c: bytes)
    requires EndsWithSpace(s)
    ensures IsSpaceChar(c) && s == rest + c && |rest| < |s|
  {
    var k := |s|;
    var n := if IsSpaceChar(s[k - 1..]) then 1 else if k >= 2 && IsSpaceChar(s[k - 2..]) then 2 else 3;
    rest, c := s[..k - n], s[k - n..];
  }

  lemma {:induction false} TrimStartExactly(s: bytes) returns (a: seq<bytes>)
    ensures SpaceChars(a) && s == Flat(a) + TrimStart(s) && !StartsWithSpace(TrimStart(s))
    decreases |s|
  {
    if StartsWithSpace(s) {
      var c, rest := StartSplits(s);
      var others := TrimStartExactly(rest);
      TrimStartOne(c, rest);
      a := [c] + others;
      FlatFirst(c, others);
      Regroup(c, Flat(others), TrimStart(rest));
    } else {
      TrimStartStops(s);
      a := [];
    }
  }

  lemma Regroup(a: bytes, b: bytes, c: bytes)
    ensures (a + b) + c == a + (b + c)
  {
  }

  lemma {:induction false} TrimEndExactly(s: bytes) returns (b: seq<bytes>)
    ensures SpaceChars(b) && s == TrimEnd(s) + Flat(b) && !EndsWithSpace(TrimEnd(s))
    decreases |s|
  {
    if EndsWithSpace(s) {
      var rest, c := EndSplits(s);
      var others := TrimEndExactly(rest);
      TrimEndOne(rest, c);
      b := others + [c];
      FlatAppend(others, c);
      Regroup(TrimEnd(rest), Flat(others), c);
    } else {
      TrimEndStops(s);
      b := [];
    }
  }

  lemma PrefixStart(t: bytes, rest: bytes)
    requires StartsWithSpace(t)
    ensures StartsWithSpace(t + rest)
  {
    var s := t + rest;
    assert s[..1] == t[..1];
    assert |t| >= 2 ==> s[..2] == t[..2];
    assert |t| >= 3 ==> s[..3] == t[..3];
  }

  /** Trimming removes white space characters from both ends, and none is left at either end. */
  lemma TrimExactly(s: bytes) returns (a: seq<bytes>, b: seq<bytes>)
    ensures SpaceChars(a) && SpaceChars(b) && s == Flat(a) + Trim(s) + Flat(b)
    ensures !StartsWithSpace(Trim(s)) && !EndsWithSpace(Trim(s))
  {
    a := TrimStartExactly(s);
    b := TrimEndExactly(TrimStart(s));
    assert Flat(a) + (Trim(s) + Flat(b)) == Flat(a) + Trim(s) + Flat(b);
    if StartsWithSpace(Trim(s)) {
      PrefixStart(Trim(s), Flat(b));
    }
  }

  lemma {:induction false} TrimStartRemoves(a: seq<bytes>, s: bytes)
    requires SpaceChars(a)
    ensures TrimStart(Flat(a) + s) == TrimStart(s)
  {
    if a == [] {
      assert Flat(a) + s == s;
    } else {
      assert a[0] + Flat(a[1..]) + s == a[0] + (Flat(a[1..]) + s);
      TrimStartOne(a[0], Flat(a[1..]) + s);
      TrimStartRemoves(a[1..], s);
    }
  }

  lemma {:induction false} TrimEndRemoves(s: bytes, b: seq<bytes>)
    requires SpaceChars(b)
    ensures TrimEnd(s + Flat(b)) == TrimEnd(s)
    decreases |b|
  {
    if b == [] {
      assert s + Flat(b) == s;
    } else {
      var init, c := b[..|b| - 1], b[|b| - 1];
      assert b == init + [c];
      FlatAppend(init, c);
      assert s + (Flat(init) + c) == s + Flat(init) + c;
      TrimEndOne(s + Flat(init), c);
      TrimEndRemoves(s, init);
    }
  }

  /** The first and the last byte are ASCII and no white space. */
  predicate HasPlainEnds(s: bytes) {
    s != [] && s[0] < 0x80 && !IsAsciiSpace(s[0]) && s[|s| - 1] < 0x80 && !IsAsciiSpace(s[|s| - 1])
  }

  lemma PlainStart(s: bytes)
    requires s != [] && s[0] < 0x80 && !IsAsciiSpace(s[0])
    ensures !StartsWithSpace(s)
  {
    if StartsWithSpace(s) {
      var c, rest := StartSplits(s);
    }
  }

  lemma PlainEnd(s: bytes)
    requires s != [] && s[|s| - 1] < 0x80 && !IsAsciiSpace(s[|s| - 1])
    ensures !EndsWithSpace(s)
  {
    if EndsWithSpace(s) {
      SpaceAtEnd(s);
    }
  }

  lemma SpaceAtEnd(s: bytes)
    requires EndsWithSpace(s)
    ensures s[|s| - 1] >= 0x80 || IsAsciiSpace(s[|s| - 1])
  {
    var rest, c := EndSplits(s);
    EndOf(rest, c);
    LastByteOfSpace(c);
  }

  lemma LastByteOfSpace(c: bytes)
    requires IsSpaceChar(c)
    ensures c[|c| - 1] >= 0x80 || IsAsciiSpace(c[|c| - 1])
  {
  }

  /** White space around a text with plain ends is exactly what is trimmed. */
  lemma TrimSurrounded(a: seq<bytes>, s: bytes, b: seq<bytes>)
    requires SpaceChars(a) && SpaceChars(b) && HasPlainEnds(s)
    ensures Trim(Flat(a) + s + Flat(b)) == s
  {
    Regroup(Flat(a), s, Flat(b));
    TrimStartRemoves(a, s + Flat(b));
    PlainStart(s + Flat(b));
    TrimStartStops(s + Flat(b));
    TrimEndRemoves(s, b);
    PlainEnd(s);
    TrimEndStops(s);
  }

  lemma TrimKeeps(s: bytes)
    requires HasPlainEnds(s)
    ensures Trim(s) == s
  {
    TrimSurrounded([], s, []);
    assert [] + s + [] == s;
  }
}
