/** The scalar encodings inside a JSON document: escaped strings and unsigned decimal numbers. */
module JsonText {
  import opened Bytes
  import opened Wrappers
  import opened Json
  import opened JsonRoundTrip

  // ----- Strings -----

  function HexDigit(n: nat): (b: byte)
    requires n < 16
    ensures IsHexDigit(b)
  {
    if n < 10 then (0x30 + n) as byte else (0x61 + n - 10) as byte
  }

  function HexValue(b: byte): (n: nat)
    requires IsHexDigit(b)
    ensures n < 16
  {
    if IsDigit(b) then b as nat - 0x30
    else if 0x41 <= b <= 0x46 then b as nat - 0x41 + 10
    else b as nat - 0x61 + 10
  }

  /** How `serde_json` writes one byte of a string. */
  function EscapeByte(b: byte): bytes {
    if b == QUOTE || b == BACKSLASH then [BACKSLASH, b]
    else if b == 0x08 then [BACKSLASH, 0x62]
    else if b == 0x0C then [BACKSLASH, 0x66]
    else if b == 0x0A then [BACKSLASH, 0x6E]
    else if b == 0x0D then [BACKSLASH, 0x72]
    else if b == 0x09 then [BACKSLASH, 0x74]
    else if b < 0x20 then [BACKSLASH, LOWER_U, ZERO, ZERO, HexDigit(b as nat / 16), HexDigit(b as nat % 16)]
    else [b]
  }

  function Escape(s: bytes): bytes {
    if s == [] then [] else EscapeByte(s[0]) + Escape(s[1..])
  }

  function UnescapeLetter(b: byte): byte
    requires IsSimpleEscape(b)
  {
    if b == 0x62 then 0x08
    else if b == 0x66 then 0x0C
    else if b == 0x6E then 0x0A
    else if b == 0x72 then 0x0D
    else if b == 0x74 then 0x09
    else b
  }

  /** A hexadecimal digit stands for its place among the digits, in either case. */
  lemma HexValueExactly(b: byte)
    requires IsHexDigit(b)
    ensures b as int == "0123456789abcdef"[HexValue(b)] as int || b as int == "0123456789ABCDEF"[HexValue(b)] as int
  {
  }

  /** The four hexadecimal digits after a `\u`. */
  function HexEscape(s: bytes): (n: nat)
    requires |s| >= 6 && forall i :: 2 <= i < 6 ==> IsHexDigit(s[i])
    ensures n <= 0xFFFF
  {
    ((HexValue(s[2]) * 16 + HexValue(s[3])) * 16 + HexValue(s[4])) * 16 + HexValue(s[5])
  }

  /** UTF-8 of a Unicode scalar value (section 3 of RFC 3629). */
  function EncodeUtf8(c: nat): bytes
    requires c <= 0x10FFFF
  {
    if c < 0x80 then [c as byte]
    else if c < 0x800 then [(0xC0 + c / 64) as byte, (0x80 + c % 64) as byte]
    else if c < 0x1_0000 then [(0xE0 + c / 4096) as byte, (0x80 + c / 64 % 64) as byte, (0x80 + c % 64) as byte]
    else [(0xF0 + c / 262144) as byte, (0x80 + c / 4096 % 64) as byte, (0x80 + c / 64 % 64) as byte, (0x80 + c % 64) as byte]
  }

  /** The bytes a string literal stands for; an unpaired surrogate escape stands for nothing. */
  function DecodeUnits(raw: bytes): Option<bytes> {
    var n := UnitLength(raw);
    if raw == [] then
      Some([])
    else if n == 0 then
      None
    else if n == 1 then
      var rest :- DecodeUnits(raw[1..]);
      Some([raw[0]] + rest)
    else if n == 2 then
      var rest :- DecodeUnits(raw[2..]);
      Some([UnescapeLetter(raw[1])] + rest)
    else
      var c := HexEscape(raw);
      if 0xD800 <= c <= 0xDBFF then
        var t := raw[6..];
        if UnitLength(t) == 6 && 0xDC00 <= HexEscape(t) <= 0xDFFF then
          var rest :- DecodeUnits(t[6..]);
          Some(EncodeUtf8(0x1_0000 + (c - 0xD800) * 0x400 + (HexEscape(t) - 0xDC00)) + rest)
        else
          None
      else if 0xDC00 <= c <= 0xDFFF then
        None
      else
        var rest :- DecodeUnits(raw[6..]);
        Some(EncodeUtf8(c) + rest)
  }

  /** A string literal read as a Rust `String`. */
  function DecodeString(raw: bytes): Option<Text> {
    var s :- DecodeUnits(raw);
    if IsUtf8(s) then Some(s) else None
  }

  /** Quotes, backslashes and controls are escaped; every other byte is left alone. */
  lemma EscapedExactly(b: byte)
    ensures EscapeByte(b) == [b] <==> b >= 0x20 && b != 0x22 && b != 0x5C
    ensures b == 0x22 || b == 0x5C ==> EscapeByte(b) == [0x5C, b]
  {
  }

  /** The controls that have a letter. */
  lemma LetteredControls()
    ensures EscapeByte(0x08) == Ascii("\\b") && EscapeByte(0x09) == Ascii("\\t") && EscapeByte(0x0A) == Ascii("\\n")
    ensures EscapeByte(0x0C) == Ascii("\\f") && EscapeByte(0x0D) == Ascii("\\r")
  {
  }

  predicate HasLetter(b: byte) {
    b == 0x08 || b == 0x09 || b == 0x0A || b == 0x0C || b == 0x0D
  }

  /** The other controls are written with four lower-case hexadecimal digits. */
  lemma OtherControls(b: byte)
    requires b < 0x20 && !HasLetter(b)
    ensures EscapeByte(b) == Ascii("\\u00") + Ascii(["01"[b as nat / 16]]) + Ascii(["0123456789abcdef"[b as nat % 16]])
  {
    HexDigitAt(b as nat / 16);
    HexDigitAt(b as nat % 16);
    assert Ascii("\\u00") == [BACKSLASH, LOWER_U, ZERO, ZERO];
    assert Ascii(["01"[b as nat / 16]]) == [HexDigit(b as nat / 16)];
    assert Ascii(["0123456789abcdef"[b as nat % 16]]) == [HexDigit(b as nat % 16)];
  }

  lemma HexDigitAt(n: nat)
    requires n < 16
    ensures HexDigit(n) as int == "0123456789abcdef"[n] as int
    ensures n < 2 ==> "01"[n] == "0123456789abcdef"[n]
  {
  }

  lemma EscapedByteDecodes(b: byte, rest: bytes)
    ensures UnitLength(EscapeByte(b) + rest) == |EscapeByte(b)| > 0
    ensures DecodeUnits(rest).Some? ==> DecodeUnits(EscapeByte(b) + rest) == Some([b] + DecodeUnits(rest).value)
  {
    var s := EscapeByte(b) + rest;
    assert s[|EscapeByte(b)|..] == rest;
    if |EscapeByte(b)| == 6 {
      assert HexEscape(s) == b as nat;
    }
  }

  /** Every byte string survives escaping, whatever quotes, backslashes and controls it holds. */
  lemma {:induction false} EscapeRoundTrip(s: bytes)
    ensures IsStringLiteral(Escape(s))
    ensures DecodeUnits(Escape(s)) == Some(s)
  {
    if s != [] {
      EscapedByteDecodes(s[0], Escape(s[1..]));
      EscapeRoundTrip(s[1..]);
      assert Escape(s)[|EscapeByte(s[0])|..] == Escape(s[1..]);
      assert s == [s[0]] + s[1..];
    }
  }

  // ----- Unsigned integers -----

  function Decimal(n: nat): (s: bytes)
    ensures |s| > 0
  {
    if n < 10 then [(0x30 + n) as byte] else Decimal(n / 10) + [(0x30 + n % 10) as byte]
  }

  predicate AllDigits(s: bytes) {
    forall b <- s :: IsDigit(b)
  }

  function DigitsValue(s: bytes): nat
    requires AllDigits(s)
  {
    if s == [] then 0
    else
      assert s[|s| - 1] in s && forall b <- s[..|s| - 1] :: b in s;
      DigitsValue(s[..|s| - 1]) * 10 + (s[|s| - 1] as nat - 0x30)
  }

  /** A number literal read as an unsigned integer no greater than `max`. */
  function DecodeUnsigned(literal: bytes, max: nat): (r: Option<nat>)
    ensures r.Some? ==> r.value <= max
  {
    if literal != [] && AllDigits(literal) && DigitsValue(literal) <= max then Some(DigitsValue(literal)) else None
  }

  lemma {:induction false} DecimalRoundTrip(n: nat)
    ensures AllDigits(Decimal(n)) && DigitsValue(Decimal(n)) == n
    ensures n > 0 ==> Decimal(n)[0] != ZERO
    ensures n == 0 ==> Decimal(n) == [ZERO]
  {
    if n >= 10 {
      DecimalRoundTrip(n / 10);
      assert Decimal(n)[..|Decimal(n)| - 1] == Decimal(n / 10);
    } else {
      assert Decimal(n)[..0] == [];
    }
  }

  /** The decimal form, digit by digit: one digit below ten, and otherwise the form of the leading part with the last
      digit after it. */
  lemma DecimalTable(n: nat, d: nat)
    requires d < 10
    ensures Decimal(d) == Ascii(["0123456789"[d]])
    ensures n > 0 ==> Decimal(10 * n + d) == Decimal(n) + Decimal(d)
  {
    assert (10 * n + d) / 10 == n && (10 * n + d) % 10 == d;
    assert "0123456789"[d] as int == 0x30 + d;
  }

  lemma {:induction false} DigitRunOfDigits(s: bytes, i: nat)
    requires AllDigits(s) && i <= |s|
    ensures DigitRun(s, i) == |s| - i
    decreases |s| - i
  {
    if i < |s| {
      DigitRunOfDigits(s, i + 1);
    }
  }

  lemma DecimalIsNumber(n: nat)
    ensures IsNumberLiteral(Decimal(n))
  {
    DecimalRoundTrip(n);
    DigitRunOfDigits(Decimal(n), 0);
    assert Decimal(n)[0] in Decimal(n);
  }

  // ----- Escapes that are read but never written, and UTF-8 -----

  /** A Unicode scalar value: a code point that is no surrogate. */
  predicate IsScalarValue(c: nat) {
    c <= 0xD7FF || 0xE000 <= c <= 0x10FFFF
  }

  /** The UTF-8 form of a scalar value is one well-formed sequence, whatever follows it. */
  lemma ScalarIsSequence(c: nat, rest: bytes)
    requires IsScalarValue(c)
    ensures SequenceLength(EncodeUtf8(c) + rest) == |EncodeUtf8(c)|
  {
  }

  /** Every well-formed sequence is the UTF-8 form of a scalar value. */
  lemma SequenceIsScalar(s: bytes) returns (c: nat)
    requires s != [] && SequenceLength(s) > 0
    ensures IsScalarValue(c) && s[..SequenceLength(s)] == EncodeUtf8(c)
  {
    var n := SequenceLength(s);
    if n == 1 {
      c := s[0] as nat;
      assert s[..1] == [s[0]];
    } else if n == 2 {
      c := TwoByteScalar(s[0], s[1]);
      assert s[..2] == [s[0], s[1]];
    } else if n == 3 {
      c := ThreeByteScalar(s[0], s[1], s[2]);
      assert s[..3] == [s[0], s[1], s[2]];
    } else {
      c := FourByteScalar(s[0], s[1], s[2], s[3]);
      assert s[..4] == [s[0], s[1], s[2], s[3]];
    }
  }

  lemma TwoByteScalar(p: byte, q: byte) returns (c: nat)
    requires 0xC2 <= p <= 0xDF && IsContinuation(q)
    ensures IsScalarValue(c) && EncodeUtf8(c) == [p, q]
  {
    c := (p as nat - 0xC0) * 64 + (q as nat - 0x80);
  }

  lemma ThreeByteScalar(p: byte, q: byte, r: byte) returns (c: nat)
    requires 0xE0 <= p <= 0xEF && IsContinuation(q) && IsContinuation(r)
    requires (p == 0xE0 ==> q >= 0xA0) && (p == 0xED ==> q <= 0x9F)
    ensures IsScalarValue(c) && EncodeUtf8(c) == [p, q, r]
  {
    c := ((p as nat - 0xE0) * 64 + (q as nat - 0x80)) * 64 + (r as nat - 0x80);
  }

  lemma FourByteScalar(p: byte, q: byte, r: byte, s: byte) returns (c: nat)
    requires 0xF0 <= p <= 0xF4 && IsContinuation(q) && IsContinuation(r) && IsContinuation(s)
    requires (p == 0xF0 ==> q >= 0x90) && (p == 0xF4 ==> q <= 0x8F)
    ensures IsScalarValue(c) && EncodeUtf8(c) == [p, q, r, s]
  {
    var x, y, z, w := p as nat - 0xF0, q as nat - 0x80, r as nat - 0x80, s as nat - 0x80;
    c := ((x * 64 + y) * 64 + z) * 64 + w;
    SixBits((x * 64 + y) * 64 + z, w);
    SixBits(x * 64 + y, z);
    SixBits(x, y);
    Regrouped(c);
    assert c / 262144 == x && c / 4096 % 64 == y && c / 64 % 64 == z && c % 64 == w;
  }

  lemma SixBits(a: nat, b: nat)
    requires b < 64
    ensures (a * 64 + b) / 64 == a && (a * 64 + b) % 64 == b
  {
  }

  lemma Regrouped(c: nat)
    ensures c / 64 / 64 == c / 4096 && c / 4096 / 64 == c / 262144
  {
  }

  /** The letters that may follow a backslash, and what those with a meaning of their own stand for. */
  lemma SimpleEscapesExactly(b: byte)
    ensures IsSimpleEscape(b) <==> b in Ascii("\"\\/bfnrt")
    ensures UnescapeLetter(0x62) == 0x08 && UnescapeLetter(0x66) == 0x0C && UnescapeLetter(0x6E) == 0x0A
    ensures UnescapeLetter(0x72) == 0x0D && UnescapeLetter(0x74) == 0x09
    ensures b == 0x22 || b == 0x5C || b == 0x2F ==> UnescapeLetter(b) == b
  {
    var letters := Ascii("\"\\/bfnrt");
    assert letters == [0x22, 0x5C, 0x2F, 0x62, 0x66, 0x6E, 0x72, 0x74];
  }

  /** The text of an escape by number. */
  function UnicodeEscape(a: byte, b: byte, c: byte, d: byte): bytes {
    [0x5C, 0x75, a, b, c, d]
  }

  /** Any character may be escaped by its number, in either case of the digits. */
  lemma UnicodeEscapeReads(a: byte, b: byte, c: byte, d: byte, rest: bytes)
    requires IsHexDigit(a) && IsHexDigit(b) && IsHexDigit(c) && IsHexDigit(d)
    ensures var s, n := UnicodeEscape(a, b, c, d) + rest,
                        ((HexValue(a) * 16 + HexValue(b)) * 16 + HexValue(c)) * 16 + HexValue(d);
            && (IsScalarValue(n) && DecodeUnits(rest).Some? ==>
                  DecodeUnits(s) == Some(EncodeUtf8(n) + DecodeUnits(rest).value))
            && (0xDC00 <= n <= 0xDFFF ==> DecodeUnits(s) == None)
  {
    var s := UnicodeEscape(a, b, c, d) + rest;
    assert s[6..] == rest && UnitLength(s) == 6;
  }
}
