/** Printing and parsing a JSON syntax tree are inverse to each other, for every document. */
module JsonRoundTrip {
  import opened Bytes
  import opened Wrappers
  import opened Json

  // ----- The trees that some text denotes -----

  /** `raw` is a sequence of complete characters and escapes. */
  predicate IsStringLiteral(raw: bytes) {
    raw == [] || (var n := UnitLength(raw); n > 0 && IsStringLiteral(raw[n..]))
  }

  predicate IsNumberLiteral(literal: bytes) {
    NumberEnd(literal) == Some(|literal|)
  }

  ghost predicate WellFormed(v: Value)
    decreases v
  {
    match v
    case Null => true
    case Bool(_) => true
    case Number(literal) => IsNumberLiteral(literal)
    case String(raw) => IsStringLiteral(raw)
    case Array(items) => forall i :: 0 <= i < |items| ==> WellFormed(items[i])
    case Object(members) => forall i :: 0 <= i < |members| ==>
      IsStringLiteral(members[i].key) && WellFormed(members[i].value)
  }

  // ----- Literals read back from any context -----

  lemma UnitInContext(raw: bytes, rest: bytes)
    requires UnitLength(raw) > 0
    ensures var s, n := raw + [QUOTE] + rest, UnitLength(raw);
            && s[0] != QUOTE && UnitLength(s) == n
            && s[..n] + raw[n..] == raw && s[n..] == raw[n..] + [QUOTE] + rest
  {
  }

  lemma {:induction false} StringReadsBack(raw: bytes, rest: bytes)
    requires IsStringLiteral(raw)
    ensures ScanString(raw + [QUOTE] + rest) == Some(Scan(raw, rest))
  {
    var s := raw + [QUOTE] + rest;
    if raw == [] {
      assert s == [QUOTE] + rest;
    } else {
      var n := UnitLength(raw);
      UnitInContext(raw, rest);
      StringReadsBack(raw[n..], rest);
    }
  }

  /** No byte at the start of `rest` could prolong a number. */
  predicate EndsNumber(rest: bytes) {
    rest != [] ==> !IsDigit(rest[0]) && rest[0] != DOT && rest[0] != 0x65 && rest[0] != 0x45
  }

  lemma {:induction false} DigitRunInContext(literal: bytes, rest: bytes, i: nat)
    requires i <= |literal| && EndsNumber(rest)
    ensures DigitRun(literal + rest, i) == DigitRun(literal, i)
    decreases |literal| - i
  {
    if i < |literal| {
      DigitRunInContext(literal, rest, i + 1);
    }
  }

  lemma IntegerInContext(literal: bytes, rest: bytes)
    requires IntegerEnd(literal).Some? && EndsNumber(rest)
    ensures IntegerEnd(literal + rest) == IntegerEnd(literal)
  {
    DigitRunInContext(literal, rest, if literal[0] == MINUS then 1 else 0);
  }

  lemma FractionInContext(literal: bytes, rest: bytes, i: nat)
    requires i <= |literal| && FractionEnd(literal, i).Some? && EndsNumber(rest)
    ensures FractionEnd(literal + rest, i) == FractionEnd(literal, i)
  {
    if i < |literal| {
      DigitRunInContext(literal, rest, i + 1);
    }
  }

  lemma ExponentInContext(literal: bytes, rest: bytes, i: nat)
    requires i <= |literal| && ExponentEnd(literal, i).Some? && EndsNumber(rest)
    ensures ExponentEnd(literal + rest, i) == ExponentEnd(literal, i)
  {
    if i < |literal| {
      DigitRunInContext(literal, rest, i + 1);
      if i + 1 < |literal| {
        DigitRunInContext(literal, rest, i + 2);
      }
    }
  }

  lemma NumberReadsBack(literal: bytes, rest: bytes)
    requires IsNumberLiteral(literal) && EndsNumber(rest)
    ensures NumberEnd(literal + rest) == Some(|literal|)
  {
    var i := IntegerEnd(literal).value;
    var j := FractionEnd(literal, i).value;
    IntegerInContext(literal, rest);
    FractionInContext(literal, rest, i);
    ExponentInContext(literal, rest, j);
  }

  // ----- Every printed tree parses to itself, whatever follows it -----

  /** The first byte of a printed value is not whitespace. */
  lemma PrintStart(v: Value)
    requires WellFormed(v)
    ensures Print(v) != [] && !IsSpace(Print(v)[0])
    ensures Print(v)[0] != CLOSE_BRACKET && Print(v)[0] != CLOSE_BRACE
  {
  }

  lemma WordParses(v: Value, rest: bytes)
    requires v.Null? || v.Bool?
    ensures ParseValue(Print(v) + rest) == Some(Scan(v, rest))
  {
    WordStarts(Print(v), rest);
    if v.Null? {
      NullParses(rest);
    } else if v.b {
      TrueParses(rest);
    } else {
      FalseParses(rest);
    }
    WordIsValue(Print(v) + rest);
  }

  lemma WordIsValue(s: bytes)
    requires s != [] && SkipSpace(s) == s && 0x61 <= s[0] <= 0x7A
    ensures ParseValue(s) == ParseWord(s)
  {
  }

  lemma WordStarts(word: bytes, rest: bytes)
    requires word != [] && !IsSpace(word[0])
    ensures var s := word + rest; SkipSpace(s) == s && StartsWith(s, word) && s[|word|..] == rest && s[0] == word[0]
  {
  }

  lemma NullParses(rest: bytes)
    ensures ParseWord(Ascii("null") + rest) == Some(Scan(Null, rest))
  {
    WordStarts(Ascii("null"), rest);
  }

  lemma TrueParses(rest: bytes)
    ensures ParseWord(Ascii("true") + rest) == Some(Scan(Bool(true), rest))
  {
    WordStarts(Ascii("true"), rest);
    DifferentStart(Ascii("true") + rest, Ascii("null"));
  }

  lemma FalseParses(rest: bytes)
    ensures ParseWord(Ascii("false") + rest) == Some(Scan(Bool(false), rest))
  {
    WordStarts(Ascii("false"), rest);
    DifferentStart(Ascii("false") + rest, Ascii("null"));
    DifferentStart(Ascii("false") + rest, Ascii("true"));
  }

  lemma DifferentStart(s: bytes, word: bytes)
    requires s != [] && word != [] && s[0] != word[0]
    ensures !StartsWith(s, word)
  {
  }

  lemma NumberParses(literal: bytes, rest: bytes)
    requires IsNumberLiteral(literal) && EndsNumber(rest)
    ensures ParseValue(literal + rest) == Some(Scan(Number(literal), rest))
  {
    var s := literal + rest;
    NumberReadsBack(literal, rest);
    assert s[..|literal|] == literal && s[|literal|..] == rest;
    assert SkipSpace(s) == s;
  }

  lemma StringParses(raw: bytes, rest: bytes)
    requires IsStringLiteral(raw)
    ensures ParseValue(Quoted(raw) + rest) == Some(Scan(String(raw), rest))
  {
    var s := Quoted(raw) + rest;
    assert s[1..] == raw + [QUOTE] + rest;
    StringReadsBack(raw, rest);
    assert SkipSpace(s) == s;
  }

  lemma ArrayParses(body: bytes, items: seq<Value>, rest: bytes)
    requires body != [] && !IsSpace(body[0]) && body[0] != CLOSE_BRACKET
    requires ParseItems(body) == Some(Scan(items, rest))
    ensures ParseValue([OPEN_BRACKET] + body) == Some(Scan(Array(items), rest))
  {
    var s := [OPEN_BRACKET] + body;
    assert SkipSpace(s) == s && s[1..] == body && SkipSpace(body) == body;
  }

  lemma ObjectParses(body: bytes, members: seq<Member>, rest: bytes)
    requires body != [] && body[0] == QUOTE
    requires ParseMembers(body) == Some(Scan(members, rest))
    ensures ParseValue([OPEN_BRACE] + body) == Some(Scan(Object(members), rest))
  {
    var s := [OPEN_BRACE] + body;
    assert SkipSpace(s) == s && s[1..] == body && SkipSpace(body) == body;
  }

  lemma EmptyParses(rest: bytes)
    ensures ParseValue(Print(Array([])) + rest) == Some(Scan(Array([]), rest))
    ensures ParseValue(Print(Object([])) + rest) == Some(Scan(Object([]), rest))
  {
    var s, t := [OPEN_BRACKET, CLOSE_BRACKET] + rest, [OPEN_BRACE, CLOSE_BRACE] + rest;
    assert s[1..] == [CLOSE_BRACKET] + rest && t[1..] == [CLOSE_BRACE] + rest;
    assert s[1..][1..] == rest && t[1..][1..] == rest;
  }

  /** What is printed after the first of several values: the closing byte, or a comma and the others. */
  function AfterItem(items: seq<Value>): bytes
    requires items != []
  {
    if |items| == 1 then [CLOSE_BRACKET] else [COMMA] + PrintItems(items[1..])
  }

  function AfterMember(members: seq<Member>): bytes
    requires members != []
  {
    if |members| == 1 then [CLOSE_BRACE] else [COMMA] + PrintMembers(members[1..])
  }

  lemma Regroup(a: bytes, b: bytes, c: bytes)
    ensures (a + b) + c == a + (b + c)
  {
  }

  lemma DropFirst(b: byte, s: bytes, rest: bytes)
    ensures ([b] + s + rest)[1..] == s + rest
  {
  }

  lemma PrintedArray(items: seq<Value>, rest: bytes)
    requires items != []
    ensures Print(Array(items)) + rest == [OPEN_BRACKET] + (PrintItems(items) + rest)
  {
    Regroup([OPEN_BRACKET], PrintItems(items), rest);
  }

  lemma PrintedItems(items: seq<Value>, rest: bytes)
    requires items != []
    ensures PrintItems(items) + rest == Print(items[0]) + (AfterItem(items) + rest)
  {
    Regroup(Print(items[0]), AfterItem(items), rest);
  }

  lemma PrintedItemsStart(items: seq<Value>, rest: bytes)
    requires items != [] && Print(items[0]) != []
    ensures PrintItems(items) + rest != [] && (PrintItems(items) + rest)[0] == Print(items[0])[0]
  {
  }

  lemma PrintedAfterItem(items: seq<Value>, rest: bytes)
    requires items != []
    ensures AfterItem(items) + rest != []
    ensures (AfterItem(items) + rest)[0] == if |items| == 1 then CLOSE_BRACKET else COMMA
    ensures (AfterItem(items) + rest)[1..] == if |items| == 1 then rest else PrintItems(items[1..]) + rest
  {
    if |items| == 1 {
      DropFirst(CLOSE_BRACKET, [], rest);
    } else {
      DropFirst(COMMA, PrintItems(items[1..]), rest);
    }
  }

  lemma PrintedObject(members: seq<Member>, rest: bytes)
    requires members != []
    ensures Print(Object(members)) + rest == [OPEN_BRACE] + (PrintMembers(members) + rest)
  {
    Regroup([OPEN_BRACE], PrintMembers(members), rest);
  }

  lemma PrintedMembers(members: seq<Member>, rest: bytes)
    requires members != []
    ensures PrintMembers(members) + rest ==
            Quoted(members[0].key) + [COLON] + (Print(members[0].value) + (AfterMember(members) + rest))
  {
    var start, printed := Quoted(members[0].key) + [COLON], Print(members[0].value);
    Regroup(start + printed, AfterMember(members), rest);
    Regroup(start, printed, AfterMember(members) + rest);
  }

  lemma PrintedAfterMember(members: seq<Member>, rest: bytes)
    requires members != []
    ensures AfterMember(members) + rest != []
    ensures (AfterMember(members) + rest)[0] == if |members| == 1 then CLOSE_BRACE else COMMA
    ensures (AfterMember(members) + rest)[1..] == if |members| == 1 then rest else PrintMembers(members[1..]) + rest
  {
    if |members| == 1 {
      DropFirst(CLOSE_BRACE, [], rest);
    } else {
      DropFirst(COMMA, PrintMembers(members[1..]), rest);
    }
  }

  lemma {:induction false} PrintParses(v: Value, rest: bytes)
    requires WellFormed(v)
    requires v.Number? ==> EndsNumber(rest)
    ensures ParseValue(Print(v) + rest) == Some(Scan(v, rest))
    decreases v, 1
  {
    match v
    case Null => WordParses(v, rest);
    case Bool(b) => WordParses(v, rest);
    case Number(literal) => NumberParses(literal, rest);
    case String(raw) => StringParses(raw, rest);
    case Array(items) =>
      if items == [] {
        EmptyParses(rest);
      } else {
        ItemsParse(items, rest);
        PrintStart(items[0]);
        PrintedItemsStart(items, rest);
        PrintedArray(items, rest);
        ArrayParses(PrintItems(items) + rest, items, rest);
      }
    case Object(members) =>
      if members == [] {
        EmptyParses(rest);
      } else {
        MembersParse(members, rest);
        PrintedObject(members, rest);
        ObjectParses(PrintMembers(members) + rest, members, rest);
      }
  }

  lemma ItemParses(text: bytes, v: Value, after: bytes, others: seq<Value>, rest: bytes)
    requires ParseValue(text) == Some(Scan(v, after))
    requires after != []
    requires || (after[0] == CLOSE_BRACKET && others == [] && after[1..] == rest)
             || (after[0] == COMMA && ParseItems(after[1..]) == Some(Scan(others, rest)))
    ensures ParseItems(text) == Some(Scan([v] + others, rest))
  {
    assert SkipSpace(after) == after;
    assert others == [] ==> [v] + others == [v];
  }

  lemma {:induction false} ItemsParse(items: seq<Value>, rest: bytes)
    requires items != [] && forall i :: 0 <= i < |items| ==> WellFormed(items[i])
    ensures ParseItems(PrintItems(items) + rest) == Some(Scan(items, rest))
    decreases items, 0
  {
    var v, others, after := items[0], items[1..], AfterItem(items) + rest;
    PrintedAfterItem(items, rest);
    PrintParses(v, after);
    if others != [] {
      ItemsParse(others, rest);
    }
    PrintedItems(items, rest);
    ItemParses(PrintItems(items) + rest, v, after, others, rest);
    assert items == [v] + others;
  }

  lemma KeyParses(key: bytes, rest: bytes)
    requires IsStringLiteral(key)
    ensures ParseKey(Quoted(key) + [COLON] + rest) == Some(Scan(key, rest))
  {
    var s, t := Quoted(key) + [COLON] + rest, [COLON] + rest;
    assert s[1..] == key + [QUOTE] + t;
    StringReadsBack(key, t);
    assert SkipSpace(s) == s && SkipSpace(t) == t && t[1..] == rest;
  }

  /** The last member, or one followed by a comma and `others`. */
  lemma MemberParses(text: bytes, m: Member, after: bytes, others: seq<Member>, rest: bytes)
    requires ParseKey(text).Some? && ParseKey(text).value.value == m.key
    requires ParseValue(ParseKey(text).value.rest) == Some(Scan(m.value, after))
    requires after != []
    requires || (after[0] == CLOSE_BRACE && others == [] && after[1..] == rest)
             || (after[0] == COMMA && ParseMembers(after[1..]) == Some(Scan(others, rest)))
    ensures ParseMembers(text) == Some(Scan([m] + others, rest))
  {
    assert SkipSpace(after) == after;
    assert others == [] ==> [m] + others == [m];
  }

  /** The key of the first member, and where its value starts. */
  lemma FirstKeyParses(members: seq<Member>, rest: bytes)
    requires members != [] && IsStringLiteral(members[0].key)
    ensures ParseKey(PrintMembers(members) + rest) ==
            Some(Scan(members[0].key, Print(members[0].value) + (AfterMember(members) + rest)))
  {
    KeyParses(members[0].key, Print(members[0].value) + (AfterMember(members) + rest));
    PrintedMembers(members, rest);
  }

  lemma {:induction false} MembersParse(members: seq<Member>, rest: bytes)
    requires members != []
    requires forall i :: 0 <= i < |members| ==> IsStringLiteral(members[i].key) && WellFormed(members[i].value)
    ensures ParseMembers(PrintMembers(members) + rest) == Some(Scan(members, rest))
    decreases members, 0
  {
    var m, others, after := members[0], members[1..], AfterMember(members) + rest;
    FirstKeyParses(members, rest);
    PrintedAfterMember(members, rest);
    PrintParses(m.value, after);
    if others != [] {
      MembersParse(others, rest);
    }
    MemberParses(PrintMembers(members) + rest, m, after, others, rest);
    assert members == [m] + others;
  }

  /** Reading back what was printed. */
  lemma DocumentRoundTrip(v: Value)
    requires WellFormed(v)
    ensures ParseDocument(Print(v)) == Some(v)
  {
    PrintParses(v, []);
    assert Print(v) + [] == Print(v);
  }

  // ----- Every parsed tree is one that prints and parses to itself -----

  lemma {:induction false} ScannedIsLiteral(s: bytes)
    requires ScanString(s).Some?
    ensures IsStringLiteral(ScanString(s).value.value)
  {
    if s[0] != QUOTE {
      var n := UnitLength(s);
      ScannedIsLiteral(s[n..]);
      var tail := ScanString(s[n..]).value.value;
      assert (s[..n] + tail)[n..] == tail;
      assert UnitLength(s[..n] + tail) == n;
    }
  }

  lemma {:induction false} DigitRunOfPrefix(s: bytes, n: nat, i: nat)
    requires i <= n <= |s| && i + DigitRun(s, i) <= n
    ensures DigitRun(s[..n], i) == DigitRun(s, i)
    decreases n - i
  {
    if i < n && IsDigit(s[i]) {
      DigitRunOfPrefix(s, n, i + 1);
    }
  }

  lemma IntegerOfPrefix(s: bytes, n: nat)
    requires n <= |s| && IntegerEnd(s).Some? && IntegerEnd(s).value <= n
    ensures IntegerEnd(s[..n]) == IntegerEnd(s)
  {
    DigitRunOfPrefix(s, n, if s[0] == MINUS then 1 else 0);
  }

  lemma FractionOfPrefix(s: bytes, n: nat, i: nat)
    requires i <= n <= |s| && FractionEnd(s, i).Some? && FractionEnd(s, i).value <= n
    ensures FractionEnd(s[..n], i) == FractionEnd(s, i)
  {
    if i < |s| && s[i] == DOT {
      DigitRunOfPrefix(s, n, i + 1);
    }
  }

  lemma ExponentOfPrefix(s: bytes, n: nat, i: nat)
    requires i <= n <= |s| && ExponentEnd(s, i) == Some(n)
    ensures ExponentEnd(s[..n], i) == Some(n)
  {
    if i < |s| && (s[i] == 0x65 || s[i] == 0x45) {
      DigitRunOfPrefix(s, n, if i + 1 < |s| && (s[i + 1] == PLUS || s[i + 1] == MINUS) then i + 2 else i + 1);
    }
  }

  lemma ScannedIsNumber(s: bytes)
    requires NumberEnd(s).Some?
    ensures IsNumberLiteral(s[..NumberEnd(s).value])
  {
    var i := IntegerEnd(s).value;
    var j := FractionEnd(s, i).value;
    var n := ExponentEnd(s, j).value;
    IntegerOfPrefix(s, n);
    FractionOfPrefix(s, n, i);
    ExponentOfPrefix(s, n, j);
  }

  lemma {:induction false} ParsedWellFormed(text: bytes)
    requires ParseValue(text).Some?
    ensures WellFormed(ParseValue(text).value.value)
    decreases |text|, 0
  {
    var s := SkipSpace(text);
    if s[0] == OPEN_BRACE {
      var t := SkipSpace(s[1..]);
      if !(t != [] && t[0] == CLOSE_BRACE) {
        ParsedMembersWellFormed(t);
      }
    } else if s[0] == OPEN_BRACKET {
      var t := SkipSpace(s[1..]);
      if !(t != [] && t[0] == CLOSE_BRACKET) {
        ParsedItemsWellFormed(t);
      }
    } else if s[0] == QUOTE {
      ScannedIsLiteral(s[1..]);
    } else if s[0] == MINUS || IsDigit(s[0]) {
      ScannedIsNumber(s);
    }
  }

  lemma {:induction false} ParsedItemsWellFormed(text: bytes)
    requires ParseItems(text).Some?
    ensures forall i :: 0 <= i < |ParseItems(text).value.value| ==> WellFormed(ParseItems(text).value.value[i])
    decreases |text|, 1
  {
    ParsedWellFormed(text);
    var s := SkipSpace(ParseValue(text).value.rest);
    if s[0] == COMMA {
      ParsedItemsWellFormed(s[1..]);
    }
  }

  lemma {:induction false} ParsedMembersWellFormed(text: bytes)
    requires ParseMembers(text).Some?
    ensures WellFormed(Object(ParseMembers(text).value.value))
    decreases |text|, 1
  {
    var key, value := ParseKey(text).value, ParseValue(ParseKey(text).value.rest).value;
    ScannedIsLiteral(SkipSpace(text)[1..]);
    ParsedWellFormed(key.rest);
    var s := SkipSpace(value.rest);
    if s[0] == COMMA {
      ParsedMembersWellFormed(s[1..]);
    }
  }

  /** Reprinting an accepted document denotes the same tree: only whitespace is lost. */
  lemma ReprintParses(text: bytes)
    requires ParseDocument(text).Some?
    ensures ParseDocument(Print(ParseDocument(text).value)) == ParseDocument(text)
  {
    ParsedWellFormed(text);
    DocumentRoundTrip(ParseDocument(text).value);
  }
}
