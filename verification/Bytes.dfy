/** Bytes, UTF-8 text and fixed-width integers: the value types of the Rust crates. */
module Bytes {

  newtype byte = b: int | 0 <= b < 256

  type bytes = seq<byte>

  const U8_MAX: nat := 0xFF
  const U32_MAX: nat := 0xFFFF_FFFF
  const U64_MAX: nat := 0xFFFF_FFFF_FFFF_FFFF

  type u8 = n: nat | n <= U8_MAX
  type u32 = n: nat | n <= U32_MAX
  type u64 = n: nat | n <= U64_MAX

  /** Addition of two `u64` values in a release build: it wraps around. */
  function WrappingAdd(a: u64, b: u64): (r: u64)
    ensures r == if a + b < 0x1_0000_0000_0000_0000 then a + b else a + b - 0x1_0000_0000_0000_0000
  {
    (a + b) % (U64_MAX + 1)
  }

  /** The bytes of a literal whose characters are all ASCII. */
  function Ascii(s: string): (r: bytes)
    ensures |r| == |s|
    ensures forall i :: 0 <= i < |s| ==> r[i] == (s[i] as int % 128) as byte
  {
    seq(|s|, i requires 0 <= i < |s| => (s[i] as int % 128) as byte)
  }

  predicate IsContinuation(b: byte) {
    0x80 <= b <= 0xBF
  }

  /** The length of the well-formed UTF-8 sequence at the start of `s`, or 0 if there is none
      (section 4 of RFC 3629). */
  function SequenceLength(s: bytes): (n: nat)
    requires s != []
    ensures n <= |s|
  {
    var b := s[0];
    if b < 0x80 then
      1
    else if 0xC2 <= b <= 0xDF then
      if |s| >= 2 && IsContinuation(s[1]) then 2 else 0
    else if 0xE0 <= b <= 0xEF then
      if && |s| >= 3
         && IsContinuation(s[1])
         && IsContinuation(s[2])
         && (b == 0xE0 ==> s[1] >= 0xA0)
         && (b == 0xED ==> s[1] <= 0x9F)
      then 3 else 0
    else if 0xF0 <= b <= 0xF4 then
      if && |s| >= 4
         && IsContinuation(s[1])
         && IsContinuation(s[2])
         && IsContinuation(s[3])
         && (b == 0xF0 ==> s[1] >= 0x90)
         && (b == 0xF4 ==> s[1] <= 0x8F)
      then 4 else 0
    else
      0
  }

  predicate IsUtf8(s: bytes) {
    s == [] || (var n := SequenceLength(s); n > 0 && IsUtf8(s[n..]))
  }

  /** A Rust `String` or `&str`. */
  type Text = s: bytes | IsUtf8(s) witness []

  lemma {:induction false} AsciiIsUtf8(s: bytes)
    requires forall b <- s :: b < 0x80
    ensures IsUtf8(s)
  {
    if s != [] {
      assert s[0] in s;
      assert forall b <- s[1..] :: b in s;
      AsciiIsUtf8(s[1..]);
    }
  }

  function ToLower(b: byte): byte {
    if 0x41 <= b <= 0x5A then b + 32 else b
  }

  /** `str::eq_ignore_ascii_case`. */
  predicate EqIgnoreAsciiCase(a: bytes, b: bytes) {
    |a| == |b| && forall i :: 0 <= i < |a| ==> ToLower(a[i]) == ToLower(b[i])
  }

  /** An upper-case ASCII letter and its lower-case form. */
  predicate IsCasePair(upper: byte, lower: byte) {
    0x41 <= upper <= 0x5A && lower == upper + 0x20
  }

  lemma SameUpToCase(a: byte, b: byte)
    ensures ToLower(a) == ToLower(b) <==> a == b || IsCasePair(a, b) || IsCasePair(b, a)
  {
  }

  /** Two texts are equal up to ASCII case if and only if they differ at most in the case of letters: at each position
      they are the same, or one has an upper-case letter and the other its lower-case form. */
  lemma IgnoresAsciiCaseExactly(a: bytes, b: bytes)
    ensures EqIgnoreAsciiCase(a, b) <==>
            |a| == |b| && forall i :: 0 <= i < |a| ==> a[i] == b[i] || IsCasePair(a[i], b[i]) || IsCasePair(b[i], a[i])
  {
    forall i | 0 <= i < |a| && i < |b|
      ensures ToLower(a[i]) == ToLower(b[i]) <==> a[i] == b[i] || IsCasePair(a[i], b[i]) || IsCasePair(b[i], a[i])
    {
      SameUpToCase(a[i], b[i]);
    }
  }
}
