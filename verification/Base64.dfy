/** Base64 as RFC 4648 defines it: the standard padded form of section 4, the URL-safe form of
    section 5 used without padding, both decoded canonically (section 3.5). */
module Base64 {
  import opened Bytes
  import opened Wrappers

  datatype Alphabet = Standard | UrlSafe {

    function Char62(): byte {
      if Standard? then 0x2B else 0x2D // '+' or '-'
    }

    function Char63(): byte {
      if Standard? then 0x2F else 0x5F // '/' or '_'
    }
  }

  newtype sextet = v: int | 0 <= v < 64

  const PAD: byte := 0x3D // '='

  function EncodeSextet(alphabet: Alphabet, v: sextet): (c: byte)
    ensures c < 0x80
  {
    if v < 26 then (v as int + 0x41) as byte
    else if v < 52 then (v as int - 26 + 0x61) as byte
    else if v < 62 then (v as int - 52 + 0x30) as byte
    else if v == 62 then alphabet.Char62()
    else alphabet.Char63()
  }

  function DecodeSextet(alphabet: Alphabet, c: byte): Option<sextet> {
    if 0x41 <= c <= 0x5A then Some((c as int - 0x41) as sextet)
    else if 0x61 <= c <= 0x7A then Some((c as int - 0x61 + 26) as sextet)
    else if 0x30 <= c <= 0x39 then Some((c as int - 0x30 + 52) as sextet)
    else if c == alphabet.Char62() then Some(62)
    else if c == alphabet.Char63() then Some(63)
    else None
  }

  predicate InAlphabet(alphabet: Alphabet, c: byte) {
    DecodeSextet(alphabet, c).Some?
  }

  /** The characters of an alphabet in order (tables 1 and 2 of RFC 4648): the two differ in the last two. */
  function Table(alphabet: Alphabet): (table: string)
    ensures |table| == 64
  {
    "ABCDEFGHIJKLMNOPQRSTUVWXYZ" + "abcdefghijklmnopqrstuvwxyz" + "0123456789" + if alphabet.Standard? then "+/" else "-_"
  }

  lemma UpperCaseAt(i: nat)
    requires i < 26
    ensures "ABCDEFGHIJKLMNOPQRSTUVWXYZ"[i] as int == 0x41 + i
  {
  }

  lemma LowerCaseAt(i: nat)
    requires i < 26
    ensures "abcdefghijklmnopqrstuvwxyz"[i] as int == 0x61 + i
  {
  }

  lemma DigitAt(i: nat)
    requires i < 10
    ensures "0123456789"[i] as int == 0x30 + i
  {
  }

  lemma TableAt(alphabet: Alphabet, i: nat)
    requires i < 64
    ensures Table(alphabet)[i] ==
            if i < 26 then "ABCDEFGHIJKLMNOPQRSTUVWXYZ"[i]
            else if i < 52 then "abcdefghijklmnopqrstuvwxyz"[i - 26]
            else if i < 62 then "0123456789"[i - 52]
            else if i == 62 then (if alphabet.Standard? then '+' else '-')
            else (if alphabet.Standard? then '/' else '_')
  {
  }

  /** Sextet `v` is written as the `v`-th character of the table. */
  lemma EncodesByTable(alphabet: Alphabet, v: sextet)
    ensures EncodeSextet(alphabet, v) as int == Table(alphabet)[v] as int
  {
    var i := v as int;
    TableAt(alphabet, i);
    if i < 26 {
      UpperCaseAt(i);
    } else if i < 52 {
      LowerCaseAt(i - 26);
    } else if i < 62 {
      DigitAt(i - 52);
    }
  }

  /** A character is read as sextet `v` if and only if it is the `v`-th of the table. */
  lemma DecodesByTable(alphabet: Alphabet, c: byte, v: sextet)
    ensures DecodeSextet(alphabet, c) == Some(v) <==> c as int == Table(alphabet)[v] as int
  {
    EncodesByTable(alphabet, v);
    EncodeThenDecodeSextet(alphabet, v);
    if DecodeSextet(alphabet, c) == Some(v) {
      DecodeThenEncodeSextet(alphabet, c);
    }
  }

  lemma EncodeThenDecodeSextet(alphabet: Alphabet, v: sextet)
    ensures DecodeSextet(alphabet, EncodeSextet(alphabet, v)) == Some(v)
  {
  }

  lemma DecodeThenEncodeSextet(alphabet: Alphabet, c: byte)
    requires InAlphabet(alphabet, c)
    ensures EncodeSextet(alphabet, DecodeSextet(alphabet, c).value) == c
  {
  }

  /** The two directions of the alphabet are inverse to each other, and neither '.' nor '=' is in it. */
  lemma SextetRoundTrip(alphabet: Alphabet)
    ensures forall v :: DecodeSextet(alphabet, EncodeSextet(alphabet, v)) == Some(v)
    ensures forall c | InAlphabet(alphabet, c) ::
              EncodeSextet(alphabet, DecodeSextet(alphabet, c).value) == c
    ensures !InAlphabet(alphabet, 0x2E) && !InAlphabet(alphabet, PAD)
  {
    forall v ensures DecodeSextet(alphabet, EncodeSextet(alphabet, v)) == Some(v) {
      EncodeThenDecodeSextet(alphabet, v);
    }
    forall c | InAlphabet(alphabet, c) ensures EncodeSextet(alphabet, DecodeSextet(alphabet, c).value) == c {
      DecodeThenEncodeSextet(alphabet, c);
    }
  }

  // Regrouping octets into sextets: three become four, and a final one or two become two or three.

  function First(a: byte): sextet { (a / 4) as sextet }
  function Second(a: byte, b: byte): sextet { ((a % 4) * 16 + b / 16) as sextet }
  function Third(b: byte, c: byte): sextet { ((b % 16) * 4 + c / 64) as sextet }
  function Fourth(c: byte): sextet { (c % 64) as sextet }

  function High(p: sextet, q: sextet): byte { (p as int * 4 + q as int / 16) as byte }
  function Middle(q: sextet, r: sextet): byte { ((q as int % 16) * 16 + r as int / 4) as byte }
  function Low(r: sextet, s: sextet): byte { ((r as int % 4) * 64 + s as int) as byte }

  function ToSextets(data: bytes): seq<sextet> {
    if data == [] then []
    else if |data| == 1 then [First(data[0]), Second(data[0], 0)]
    else if |data| == 2 then [First(data[0]), Second(data[0], data[1]), Third(data[1], 0)]
    else [First(data[0]), Second(data[0], data[1]), Third(data[1], data[2]), Fourth(data[2])] + ToSextets(data[3..])
  }

  /** A dangling sextet or a nonzero trailing bit is an error. */
  function FromSextets(v: seq<sextet>): Option<bytes> {
    if v == [] then Some([])
    else if |v| == 1 then None
    else if |v| == 2 then
      if v[1] % 16 != 0 then None else Some([High(v[0], v[1])])
    else if |v| == 3 then
      if v[2] % 4 != 0 then None else Some([High(v[0], v[1]), Middle(v[1], v[2])])
    else
      var rest :- FromSextets(v[4..]);
      Some([High(v[0], v[1]), Middle(v[1], v[2]), Low(v[2], v[3])] + rest)
  }

  lemma FirstOctetRoundTrip(a: byte, b: byte)
    ensures High(First(a), Second(a, b)) == a
    ensures Second(a, 0) % 16 == 0
  {
  }

  lemma OctetsRoundTrip(a: byte, b: byte, c: byte)
    ensures High(First(a), Second(a, b)) == a
    ensures Middle(Second(a, b), Third(b, c)) == b
    ensures Low(Third(b, c), Fourth(c)) == c
    ensures Second(a, 0) % 16 == 0 && Third(b, 0) % 4 == 0
  {
  }

  lemma SextetsRoundTrip(p: sextet, q: sextet, r: sextet, s: sextet)
    ensures First(High(p, q)) == p
    ensures Second(High(p, q), Middle(q, r)) == q
    ensures Third(Middle(q, r), Low(r, s)) == r
    ensures Fourth(Low(r, s)) == s
    ensures q % 16 == 0 ==> Second(High(p, q), 0) == q
    ensures r % 4 == 0 ==> Third(Middle(q, r), 0) == r
  {
  }

  lemma FromToGroup(a: byte, b: byte, c: byte, rest: seq<sextet>)
    requires FromSextets(rest).Some?
    ensures var v := [First(a), Second(a, b), Third(b, c), Fourth(c)] + rest;
            FromSextets(v) == Some([a, b, c] + FromSextets(rest).value)
  {
    var v := [First(a), Second(a, b), Third(b, c), Fourth(c)] + rest;
    assert v[4..] == rest;
    OctetsRoundTrip(a, b, c);
  }

  lemma FromToOne(a: byte)
    ensures FromSextets(ToSextets([a])) == Some([a])
  {
    FirstOctetRoundTrip(a, 0);
    var v := [First(a), Second(a, 0)];
    assert ToSextets([a]) == v;
    assert FromSextets(v) == Some([High(v[0], v[1])]);
  }

  lemma FromToTwo(a: byte, b: byte)
    ensures FromSextets(ToSextets([a, b])) == Some([a, b])
  {
    OctetsRoundTrip(a, b, 0);
    assert ToSextets([a, b]) == [First(a), Second(a, b), Third(b, 0)];
  }

  lemma {:induction false} FromToSextets(data: bytes)
    ensures FromSextets(ToSextets(data)) == Some(data)
  {
    if data == [] {
    } else if |data| == 1 {
      FromToOne(data[0]);
      assert data == [data[0]];
    } else if |data| == 2 {
      FromToTwo(data[0], data[1]);
      assert data == [data[0], data[1]];
    } else {
      FromToSextets(data[3..]);
      FromToGroup(data[0], data[1], data[2], ToSextets(data[3..]));
      assert data == [data[0], data[1], data[2]] + data[3..];
    }
  }

  lemma ToFromGroup(p: sextet, q: sextet, r: sextet, s: sextet, rest: seq<sextet>)
    requires FromSextets(rest).Some?
    ensures var data := [High(p, q), Middle(q, r), Low(r, s)] + FromSextets(rest).value;
            ToSextets(data) == [p, q, r, s] + ToSextets(FromSextets(rest).value)
  {
    var data := [High(p, q), Middle(q, r), Low(r, s)] + FromSextets(rest).value;
    assert data[3..] == FromSextets(rest).value;
    SextetsRoundTrip(p, q, r, s);
  }

  lemma {:induction false} ToFromSextets(v: seq<sextet>)
    requires FromSextets(v).Some?
    ensures ToSextets(FromSextets(v).value) == v
  {
    if v == [] {
    } else if |v| == 2 {
      SextetsRoundTrip(v[0], v[1], 0, 0);
    } else if |v| == 3 {
      SextetsRoundTrip(v[0], v[1], v[2], 0);
    } else {
      ToFromGroup(v[0], v[1], v[2], v[3], v[4..]);
      ToFromSextets(v[4..]);
      assert v == [v[0], v[1], v[2], v[3]] + v[4..];
    }
  }

  lemma CountUp(n: nat, count: nat)
    ensures (n + 3) % 3 == n % 3 && (count + 4) % 4 == count % 4
  {
  }

  lemma {:induction false} SextetCount(data: bytes)
    ensures |ToSextets(data)| % 4 == if |data| % 3 == 0 then 0 else |data| % 3 + 1
  {
    if |data| >= 3 {
      SextetCount(data[3..]);
      CountUp(|data| - 3, |ToSextets(data[3..])|);
    }
  }

  // What regrouping means: the bits stay as they are, with zero bits after the last of them.

  /** The big-endian number that octets denote after `leading`. */
  function OctetsNumber(leading: nat, data: bytes): nat
    decreases |data|
  {
    if data == [] then leading else OctetsNumber(leading * 256 + data[0] as nat, data[1..])
  }

  /** The big-endian number that sextets denote after `leading`. */
  function SextetsNumber(leading: nat, v: seq<sextet>): nat
    decreases |v|
  {
    if v == [] then leading else SextetsNumber(leading * 64 + v[0] as nat, v[1..])
  }

  lemma GroupKeepsNumber(leading: nat, a: byte, b: byte, c: byte)
    ensures ((leading * 256 + a as nat) * 256 + b as nat) * 256 + c as nat ==
            (((leading * 64 + First(a) as nat) * 64 + Second(a, b) as nat) * 64 + Third(b, c) as nat) * 64 + Fourth(c) as nat
    ensures (leading * 64 + First(a) as nat) * 64 + Second(a, 0) as nat == (leading * 256 + a as nat) * 16
    ensures ((leading * 64 + First(a) as nat) * 64 + Second(a, b) as nat) * 64 + Third(b, 0) as nat ==
            ((leading * 256 + a as nat) * 256 + b as nat) * 4
  {
  }

  lemma NextSextet(leading: nat, p: sextet, rest: seq<sextet>)
    ensures SextetsNumber(leading, [p] + rest) == SextetsNumber(leading * 64 + p as nat, rest)
  {
    assert ([p] + rest)[1..] == rest;
  }

  lemma NextOctet(leading: nat, a: byte, rest: bytes)
    ensures OctetsNumber(leading, [a] + rest) == OctetsNumber(leading * 256 + a as nat, rest)
  {
    assert ([a] + rest)[1..] == rest;
  }

  lemma TwoSextets(leading: nat, p: sextet, q: sextet, rest: seq<sextet>)
    ensures SextetsNumber(leading, [p, q] + rest) == SextetsNumber((leading * 64 + p as nat) * 64 + q as nat, rest)
  {
    NextSextet(leading, p, [q] + rest);
    NextSextet(leading * 64 + p as nat, q, rest);
    assert [p, q] + rest == [p] + ([q] + rest);
  }

  lemma FourSextets(leading: nat, p: sextet, q: sextet, r: sextet, s: sextet, rest: seq<sextet>)
    ensures SextetsNumber(leading, [p, q, r, s] + rest) ==
            SextetsNumber((((leading * 64 + p as nat) * 64 + q as nat) * 64 + r as nat) * 64 + s as nat, rest)
  {
    TwoSextets(leading, p, q, [r, s] + rest);
    TwoSextets((leading * 64 + p as nat) * 64 + q as nat, r, s, rest);
    assert [p, q, r, s] + rest == [p, q] + ([r, s] + rest);
  }

  lemma TwoOctets(leading: nat, a: byte, b: byte, rest: bytes)
    ensures OctetsNumber(leading, [a, b] + rest) == OctetsNumber((leading * 256 + a as nat) * 256 + b as nat, rest)
  {
    NextOctet(leading, a, [b] + rest);
    NextOctet(leading * 256 + a as nat, b, rest);
    assert [a, b] + rest == [a] + ([b] + rest);
  }

  lemma ThreeOctets(leading: nat, a: byte, b: byte, c: byte, rest: bytes)
    ensures OctetsNumber(leading, [a, b, c] + rest) ==
            OctetsNumber(((leading * 256 + a as nat) * 256 + b as nat) * 256 + c as nat, rest)
  {
    TwoOctets(leading, a, b, [c] + rest);
    NextOctet((leading * 256 + a as nat) * 256 + b as nat, c, rest);
    assert [a, b, c] + rest == [a, b] + ([c] + rest);
  }

  /** The factor of the zero bits after the last octet: none, four or two. */
  function TrailingFactor(n: nat): nat {
    if n % 3 == 0 then 1 else if n % 3 == 1 then 16 else 4
  }

  lemma {:induction false} RegroupKeepsNumber(leading: nat, data: bytes)
    ensures SextetsNumber(leading, ToSextets(data)) == OctetsNumber(leading, data) * TrailingFactor(|data|)
    decreases |data|
  {
    if data == [] {
    } else if |data| == 1 {
      OneKeepsNumber(leading, data[0]);
      assert data == [data[0]];
    } else if |data| == 2 {
      TwoKeepNumber(leading, data[0], data[1]);
      assert data == [data[0], data[1]];
    } else {
      var rest := data[3..];
      var a, b, c := data[0], data[1], data[2];
      assert data == [a, b, c] + rest;
      RegroupKeepsNumber(AfterGroup(leading, a, b, c), rest);
      GroupToSextets(a, b, c, rest);
      SextetsAfterGroup(leading, a, b, c, ToSextets(rest));
      OctetsAfterGroup(leading, a, b, c, rest);
    }
  }

  /** The number after one more group of three octets. */
  function AfterGroup(leading: nat, a: byte, b: byte, c: byte): nat {
    ((leading * 256 + a as nat) * 256 + b as nat) * 256 + c as nat
  }

  lemma GroupToSextets(a: byte, b: byte, c: byte, rest: bytes)
    ensures ToSextets([a, b, c] + rest) == [First(a), Second(a, b), Third(b, c), Fourth(c)] + ToSextets(rest)
  {
    assert ([a, b, c] + rest)[3..] == rest;
  }

  lemma SextetsAfter(leading: nat, p: sextet, q: sextet, r: sextet, s: sextet, number: nat, v: seq<sextet>)
    requires number == (((leading * 64 + p as nat) * 64 + q as nat) * 64 + r as nat) * 64 + s as nat
    ensures SextetsNumber(leading, [p, q, r, s] + v) == SextetsNumber(number, v)
  {
    FourSextets(leading, p, q, r, s, v);
  }

  lemma SextetsAfterGroup(leading: nat, a: byte, b: byte, c: byte, v: seq<sextet>)
    ensures SextetsNumber(leading, [First(a), Second(a, b), Third(b, c), Fourth(c)] + v) ==
            SextetsNumber(AfterGroup(leading, a, b, c), v)
  {
    GroupKeepsNumber(leading, a, b, c);
    SextetsAfter(leading, First(a), Second(a, b), Third(b, c), Fourth(c), AfterGroup(leading, a, b, c), v);
  }

  lemma OctetsAfterGroup(leading: nat, a: byte, b: byte, c: byte, rest: bytes)
    ensures OctetsNumber(leading, [a, b, c] + rest) == OctetsNumber(AfterGroup(leading, a, b, c), rest)
    ensures TrailingFactor(|[a, b, c] + rest|) == TrailingFactor(|rest|)
  {
    ThreeOctets(leading, a, b, c, rest);
    CountUp(|rest|, 0);
  }

  lemma OneKeepsNumber(leading: nat, a: byte)
    ensures SextetsNumber(leading, ToSextets([a])) == OctetsNumber(leading, [a]) * 16
  {
    GroupKeepsNumber(leading, a, 0, 0);
    TwoSextets(leading, First(a), Second(a, 0), []);
    NextOctet(leading, a, []);
    assert ToSextets([a]) == [First(a), Second(a, 0)] + [] && [a] == [a] + [];
  }

  lemma TwoKeepNumber(leading: nat, a: byte, b: byte)
    ensures SextetsNumber(leading, ToSextets([a, b])) == OctetsNumber(leading, [a, b]) * 4
  {
    GroupKeepsNumber(leading, a, b, 0);
    TwoSextets(leading, First(a), Second(a, b), [Third(b, 0)]);
    NextSextet((leading * 64 + First(a) as nat) * 64 + Second(a, b) as nat, Third(b, 0), []);
    TwoOctets(leading, a, b, []);
    assert ToSextets([a, b]) == [First(a), Second(a, b)] + ([Third(b, 0)] + []) && [a, b] == [a, b] + [];
  }

  // The unpadded form.

  predicate AllInAlphabet(alphabet: Alphabet, text: bytes) {
    forall c <- text :: InAlphabet(alphabet, c)
  }

  function SextetsOf(alphabet: Alphabet, text: bytes): (v: seq<sextet>)
    requires AllInAlphabet(alphabet, text)
    ensures |v| == |text|
    ensures forall i :: 0 <= i < |text| ==> DecodeSextet(alphabet, text[i]) == Some(v[i])
  {
    assert forall i :: 0 <= i < |text| ==> InAlphabet(alphabet, text[i]);
    seq(|text|, i requires 0 <= i < |text| => DecodeSextet(alphabet, text[i]).value)
  }

  function EncodeUnpadded(alphabet: Alphabet, data: bytes): bytes {
    var v := ToSextets(data);
    seq(|v|, i requires 0 <= i < |v| => EncodeSextet(alphabet, v[i]))
  }

  /** Strict decoding without padding: a character outside the alphabet, a dangling character or a
      nonzero trailing bit is an error. */
  function DecodeUnpadded(alphabet: Alphabet, text: bytes): Option<bytes> {
    if AllInAlphabet(alphabet, text) then FromSextets(SextetsOf(alphabet, text)) else None
  }

  /** Every character of an encoding is an ASCII character of the alphabet. */
  lemma EncodedInAlphabet(alphabet: Alphabet, data: bytes)
    ensures AllInAlphabet(alphabet, EncodeUnpadded(alphabet, data))
    ensures forall c <- EncodeUnpadded(alphabet, data) :: c < 0x80
  {
    SextetRoundTrip(alphabet);
  }

  /** `v` gives the place of each character of a text in the table of the alphabet. */
  predicate Places(alphabet: Alphabet, text: bytes, v: seq<sextet>) {
    |v| == |text| && forall i :: 0 <= i < |text| ==> text[i] as int == Table(alphabet)[v[i]] as int
  }

  /** An encoding, read by the places of its characters in the table, denotes the same big-endian number as its octets,
      with zero bits up to the end of the last character, and has the fewest characters that hold them. */
  lemma EncodingKeepsNumber(alphabet: Alphabet, data: bytes)
    ensures var text := EncodeUnpadded(alphabet, data);
            && |text| == (4 * |data| + 2) / 3
            && exists v :: Places(alphabet, text, v) && SextetsNumber(0, v) == OctetsNumber(0, data) * TrailingFactor(|data|)
  {
    var v := ToSextets(data);
    forall i | 0 <= i < |v| ensures EncodeSextet(alphabet, v[i]) as int == Table(alphabet)[v[i]] as int {
      EncodesByTable(alphabet, v[i]);
    }
    assert Places(alphabet, EncodeUnpadded(alphabet, data), v);
    RegroupKeepsNumber(0, data);
    SextetLength(data);
  }

  lemma {:induction false} SextetLength(data: bytes)
    ensures |ToSextets(data)| == (4 * |data| + 2) / 3
  {
    if |data| >= 3 {
      SextetLength(data[3..]);
    }
  }

  /** Decoding undoes encoding. */
  lemma DecodeEncode(alphabet: Alphabet, data: bytes)
    ensures DecodeUnpadded(alphabet, EncodeUnpadded(alphabet, data)) == Some(data)
  {
    SextetRoundTrip(alphabet);
    EncodedInAlphabet(alphabet, data);
    assert SextetsOf(alphabet, EncodeUnpadded(alphabet, data)) == ToSextets(data);
    FromToSextets(data);
  }

  /** Whatever decodes is the encoding of what it decodes to, so no two accepted texts decode alike. */
  lemma EncodeDecode(alphabet: Alphabet, text: bytes)
    requires DecodeUnpadded(alphabet, text).Some?
    ensures EncodeUnpadded(alphabet, DecodeUnpadded(alphabet, text).value) == text
  {
    SextetRoundTrip(alphabet);
    ToFromSextets(SextetsOf(alphabet, text));
  }

  /** A text whose first character is outside the alphabet does not decode. */
  lemma BadStartRejected(alphabet: Alphabet, text: bytes)
    requires text != [] && !InAlphabet(alphabet, text[0])
    ensures DecodeUnpadded(alphabet, text).None?
  {
    assert text[0] in text;
  }

  // The padded form.

  function PaddingFor(n: nat): bytes {
    if n % 3 == 0 then [] else if n % 3 == 1 then [PAD, PAD] else [PAD]
  }

  function EncodePadded(data: bytes): bytes {
    EncodeUnpadded(Standard, data) + PaddingFor(|data|)
  }

  function StripPadding(text: bytes): bytes {
    var n := |text|;
    if n >= 2 && text[n - 1] == PAD && text[n - 2] == PAD then text[..n - 2]
    else if n >= 1 && text[n - 1] == PAD then text[..n - 1]
    else text
  }

  /** Decoding that requires canonical padding. */
  function DecodePadded(text: bytes): Option<bytes> {
    if |text| % 4 != 0 then None else DecodeUnpadded(Standard, StripPadding(text))
  }

  lemma PadNotInAlphabet(alphabet: Alphabet, text: bytes)
    requires AllInAlphabet(alphabet, text)
    ensures PAD !in text
  {
    SextetRoundTrip(alphabet);
  }

  lemma StripsOwnPadding(body: bytes, n: nat)
    requires PAD !in body
    ensures StripPadding(body + PaddingFor(n)) == body
  {
    var text := body + PaddingFor(n);
    assert text[..|body|] == body;
    assert |body| > 0 ==> body[|body| - 1] in body;
  }

  lemma RestoresPadding(text: bytes, n: nat)
    requires |text| % 4 == 0
    requires |StripPadding(text)| % 4 == if n % 3 == 0 then 0 else n % 3 + 1
    ensures StripPadding(text) + PaddingFor(n) == text
  {
  }

  lemma EncodedLength(alphabet: Alphabet, data: bytes)
    ensures |EncodeUnpadded(alphabet, data)| % 4 == if |data| % 3 == 0 then 0 else |data| % 3 + 1
  {
    SextetCount(data);
  }

  lemma PaddedLength(length: nat, n: nat)
    requires length % 4 == if n % 3 == 0 then 0 else n % 3 + 1
    ensures (length + |PaddingFor(n)|) % 4 == 0
  {
  }

  lemma DecodeEncodePadded(data: bytes)
    ensures DecodePadded(EncodePadded(data)) == Some(data)
    ensures forall c <- EncodePadded(data) :: c < 0x80
    ensures var body, text := EncodeUnpadded(Standard, data), EncodePadded(data);
            && |text| % 4 == 0 && |body| <= |text| <= |body| + 2 && text[..|body|] == body
            && forall i :: |body| <= i < |text| ==> text[i] == 0x3D // '='
  {
    var body := EncodeUnpadded(Standard, data);
    EncodedLength(Standard, data);
    EncodedInAlphabet(Standard, data);
    PadNotInAlphabet(Standard, body);
    StripsOwnPadding(body, |data|);
    DecodeEncode(Standard, data);
    PaddedLength(|body|, |data|);
  }

  /** Padded decoding is canonical too. */
  lemma EncodeDecodePadded(text: bytes)
    requires DecodePadded(text).Some?
    ensures EncodePadded(DecodePadded(text).value) == text
  {
    var data := DecodePadded(text).value;
    EncodeDecode(Standard, StripPadding(text));
    EncodedLength(Standard, data);
    RestoresPadding(text, |data|);
  }
}
