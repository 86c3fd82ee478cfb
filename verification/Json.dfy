/** The JSON grammar of RFC 8259 as `serde_json` reads and writes it. A document is kept as a syntax
    tree whose strings and numbers are still the literals of the text: `serde_json` checks the syntax
    of a member it ignores but never decodes it. */
module Json {
  import opened Bytes
  import opened Wrappers

  const QUOTE: byte := 0x22      // '"'
  const BACKSLASH: byte := 0x5C
  const COMMA: byte := 0x2C
  const COLON: byte := 0x3A
  const OPEN_BRACE: byte := 0x7B
  const CLOSE_BRACE: byte := 0x7D
  const OPEN_BRACKET: byte := 0x5B
  const CLOSE_BRACKET: byte := 0x5D
  const MINUS: byte := 0x2D
  const PLUS: byte := 0x2B
  const DOT: byte := 0x2E
  const ZERO: byte := 0x30
  const LOWER_U: byte := 0x75

  datatype Value =
    | Null
    | Bool(b: bool)
    | Number(literal: bytes)
    | String(raw: bytes)
    | Array(items: seq<Value>)
    | Object(members: seq<Member>)

  /** A member of an object; `key` is the literal between the quotes. */
  datatype Member = Member(key: bytes, value: Value)

  // ----- Printing: the compact form, without any whitespace -----

  function Quoted(raw: bytes): bytes {
    [QUOTE] + raw + [QUOTE]
  }

  function Print(v: Value): (r: bytes)
    decreases v, 1
  {
    match v
    case Null => Ascii("null")
    case Bool(b) => if b then Ascii("true") else Ascii("false")
    case Number(literal) => literal
    case String(raw) => Quoted(raw)
    case Array(items) => if items == [] then [OPEN_BRACKET, CLOSE_BRACKET] else [OPEN_BRACKET] + PrintItems(items)
    case Object(members) => if members == [] then [OPEN_BRACE, CLOSE_BRACE] else [OPEN_BRACE] + PrintMembers(members)
  }

  /** The items of a nonempty array, up to and including the closing bracket. */
  function PrintItems(items: seq<Value>): bytes
    requires items != []
    decreases items, 0
  {
    Print(items[0]) + (if |items| == 1 then [CLOSE_BRACKET] else [COMMA] + PrintItems(items[1..]))
  }

  /** The members of a nonempty object, up to and including the closing brace. */
  function PrintMembers(members: seq<Member>): bytes
    requires members != []
    decreases members, 0
  {
    Quoted(members[0].key) + [COLON] + Print(members[0].value)
    + (if |members| == 1 then [CLOSE_BRACE] else [COMMA] + PrintMembers(members[1..]))
  }

  // ----- Lexical elements -----

  predicate IsSpace(b: byte) {
    b == 0x20 || b == 0x09 || b == 0x0A || b == 0x0D
  }

  function SkipSpace(s: bytes): (r: bytes)
    ensures |r| <= |s|
    ensures r != [] ==> !IsSpace(r[0])
  {
    if s != [] && IsSpace(s[0]) then SkipSpace(s[1..]) else s
  }

  predicate IsDigit(b: byte) {
    0x30 <= b <= 0x39
  }

  predicate IsHexDigit(b: byte) {
    IsDigit(b) || 0x41 <= b <= 0x46 || 0x61 <= b <= 0x66
  }

  /** The letter of a two-character escape: one of " \ / b f n r t. */
  predicate IsSimpleEscape(b: byte) {
    b == QUOTE || b == BACKSLASH || b == 0x2F || b == 0x62 || b == 0x66 || b == 0x6E || b == 0x72 || b == 0x74
  }

  /** The number of bytes of the character or escape sequence at the start of a string literal, or 0
      when neither is there: at the closing quote, a control character or a malformed escape. */
  function UnitLength(s: bytes): (n: nat)
    ensures n <= |s|
  {
    if s == [] || s[0] == QUOTE || s[0] < 0x20 then 0
    else if s[0] != BACKSLASH then 1
    else if |s| >= 2 && IsSimpleEscape(s[1]) then 2
    else if |s| >= 6 && s[1] == LOWER_U && (forall i :: 2 <= i < 6 ==> IsHexDigit(s[i])) then 6
    else 0
  }

  datatype Scan<+T> = Scan(value: T, rest: bytes)

  /** Reads a string literal whose opening quote has been consumed. */
  function ScanString(s: bytes): (r: Option<Scan<bytes>>)
    ensures r.Some? ==> |r.value.rest| < |s|
  {
    if s != [] && s[0] == QUOTE then
      Some(Scan([], s[1..]))
    else
      var n := UnitLength(s);
      if n == 0 then
        None
      else
        var tail :- ScanString(s[n..]);
        Some(Scan(s[..n] + tail.value, tail.rest))
  }

  /** The number of digits starting at position `i`. */
  function DigitRun(s: bytes, i: nat): (n: nat)
    requires i <= |s|
    ensures i + n <= |s|
    ensures forall k :: i <= k < i + n ==> IsDigit(s[k])
    decreases |s| - i
  {
    if i < |s| && IsDigit(s[i]) then 1 + DigitRun(s, i + 1) else 0
  }

  /** The end of the integer part: a lone zero, or digits that do not start with zero. */
  function IntegerEnd(s: bytes): (r: Option<nat>)
    ensures r.Some? ==> 0 < r.value <= |s|
  {
    var start := if s != [] && s[0] == MINUS then 1 else 0;
    var run := DigitRun(s, start);
    if run == 0 then None
    else if s[start] == ZERO then (if run > 1 then None else Some(start + 1))
    else Some(start + run)
  }

  function FractionEnd(s: bytes, i: nat): (r: Option<nat>)
    requires i <= |s|
    ensures r.Some? ==> i <= r.value <= |s|
  {
    if i < |s| && s[i] == DOT then
      var run := DigitRun(s, i + 1);
      if run == 0 then None else Some(i + 1 + run)
    else
      Some(i)
  }

  function ExponentEnd(s: bytes, i: nat): (r: Option<nat>)
    requires i <= |s|
    ensures r.Some? ==> i <= r.value <= |s|
  {
    if i < |s| && (s[i] == 0x65 || s[i] == 0x45) then
      var start := if i + 1 < |s| && (s[i + 1] == PLUS || s[i + 1] == MINUS) then i + 2 else i + 1;
      var run := DigitRun(s, start);
      if run == 0 then None else Some(start + run)
    else
      Some(i)
  }

  /** The length of the number literal at the start of `s`. */
  function NumberEnd(s: bytes): (r: Option<nat>)
    ensures r.Some? ==> 0 < r.value <= |s|
  {
    var i :- IntegerEnd(s);
    var j :- FractionEnd(s, i);
    ExponentEnd(s, j)
  }

  predicate StartsWith(s: bytes, prefix: bytes) {
    |prefix| <= |s| && s[..|prefix|] == prefix
  }

  // ----- Parsing -----

  function ParseWord(s: bytes): (r: Option<Scan<Value>>)
    ensures r.Some? ==> |r.value.rest| < |s| && (r.value.value.Null? || r.value.value.Bool?)
  {
    if StartsWith(s, Ascii("null")) then Some(Scan(Null, s[4..]))
    else if StartsWith(s, Ascii("true")) then Some(Scan(Bool(true), s[4..]))
    else if StartsWith(s, Ascii("false")) then Some(Scan(Bool(false), s[5..]))
    else None
  }

  /** Reads one value, skipping whitespace before it. */
  function ParseValue(text: bytes): (r: Option<Scan<Value>>)
    ensures r.Some? ==> |r.value.rest| < |text|
    decreases |text|, 0
  {
    var s := SkipSpace(text);
    if s == [] then
      None
    else if s[0] == OPEN_BRACE then
      var t := SkipSpace(s[1..]);
      if t != [] && t[0] == CLOSE_BRACE then
        Some(Scan(Object([]), t[1..]))
      else
        var members :- ParseMembers(t);
        Some(Scan(Object(members.value), members.rest))
    else if s[0] == OPEN_BRACKET then
      var t := SkipSpace(s[1..]);
      if t != [] && t[0] == CLOSE_BRACKET then
        Some(Scan(Array([]), t[1..]))
      else
        var items :- ParseItems(t);
        Some(Scan(Array(items.value), items.rest))
    else if s[0] == QUOTE then
      var str :- ScanString(s[1..]);
      Some(Scan(String(str.value), str.rest))
    else if s[0] == MINUS || IsDigit(s[0]) then
      var n :- NumberEnd(s);
      Some(Scan(Number(s[..n]), s[n..]))
    else
      ParseWord(s)
  }

  /** Reads the rest of a nonempty array, up to and including the closing bracket. */
  function ParseItems(text: bytes): (r: Option<Scan<seq<Value>>>)
    ensures r.Some? ==> |r.value.rest| < |text|
    decreases |text|, 1
  {
    var first :- ParseValue(text);
    var s := SkipSpace(first.rest);
    if s == [] then
      None
    else if s[0] == CLOSE_BRACKET then
      Some(Scan([first.value], s[1..]))
    else if s[0] == COMMA then
      var others :- ParseItems(s[1..]);
      Some(Scan([first.value] + others.value, others.rest))
    else
      None
  }

  /** Reads the key of a member and the colon after it. */
  function ParseKey(text: bytes): (r: Option<Scan<bytes>>)
    ensures r.Some? ==> |r.value.rest| < |text|
  {
    var s := SkipSpace(text);
    if s == [] || s[0] != QUOTE then
      None
    else
      var key :- ScanString(s[1..]);
      var t := SkipSpace(key.rest);
      if t == [] || t[0] != COLON then None else Some(Scan(key.value, t[1..]))
  }

  /** Reads the rest of a nonempty object, up to and including the closing brace. */
  function ParseMembers(text: bytes): (r: Option<Scan<seq<Member>>>)
    ensures r.Some? ==> |r.value.rest| < |text|
    decreases |text|, 1
  {
    var key :- ParseKey(text);
    var value :- ParseValue(key.rest);
    var member := Member(key.value, value.value);
    var s := SkipSpace(value.rest);
    if s == [] then
      None
    else if s[0] == CLOSE_BRACE then
      Some(Scan([member], s[1..]))
    else if s[0] == COMMA then
      var others :- ParseMembers(s[1..]);
      Some(Scan([member] + others.value, others.rest))
    else
      None
  }

  /** A whole document: one value and nothing after it but whitespace. */
  function ParseDocument(text: bytes): Option<Value> {
    var v :- ParseValue(text);
    if SkipSpace(v.rest) == [] then Some(v.value) else None
  }
}
