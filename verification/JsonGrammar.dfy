/** The grammar of RFC 8259 as a relation, with white space wherever section 2 allows it; the parser accepts exactly
    what the grammar derives. */
module JsonGrammar {
  import opened Bytes
  import opened Wrappers
  import opened Json
  import opened JsonRoundTrip

  // ----- The grammar: a text is a value, then the rest -----

  predicate Blank(w: bytes) {
    forall i :: 0 <= i < |w| ==> w[i] == 0x20 || w[i] == 0x09 || w[i] == 0x0A || w[i] == 0x0D
  }

  /** `text` is some white space and then `t`. */
  predicate SkipsTo(text: bytes, t: bytes) {
    |t| <= |text| && text[|text| - |t|..] == t && Blank(text[..|text| - |t|])
  }

  /** `text` starts with the byte `b` and goes on with `rest`. */
  predicate Starts(text: bytes, b: byte, rest: bytes) {
    text == [b] + rest
  }

  ghost predicate ReadsValue(text: bytes, v: Value, rest: bytes)
    decreases v, 1
  {
    exists t :: SkipsTo(text, t) && ReadsCore(t, v, rest)
  }

  ghost predicate ReadsCore(t: bytes, v: Value, rest: bytes)
    decreases v, 0
  {
    match v
    case Null => t == Ascii("null") + rest
    case Bool(b) => t == (if b then Ascii("true") else Ascii("false")) + rest
    case Number(literal) => IsNumberLiteral(literal) && t == literal + rest
    case String(raw) => IsStringLiteral(raw) && t == Quoted(raw) + rest
    case Array(items) =>
      if items == [] then ReadsEmpty(t, OPEN_BRACKET, CLOSE_BRACKET, rest)
      else exists body :: Starts(t, OPEN_BRACKET, body) && ReadsItems(body, items, rest)
    case Object(members) =>
      if members == [] then ReadsEmpty(t, OPEN_BRACE, CLOSE_BRACE, rest)
      else exists body :: Starts(t, OPEN_BRACE, body) && ReadsMembers(body, members, rest)
  }

  ghost predicate ReadsEmpty(t: bytes, open: byte, close: byte, rest: bytes) {
    exists body, u :: Starts(t, open, body) && SkipsTo(body, u) && Starts(u, close, rest)
  }

  /** Values with commas between them, up to and including the closing bracket. */
  ghost predicate ReadsItems(text: bytes, items: seq<Value>, rest: bytes)
    requires items != []
    decreases items, 0
  {
    exists after, u, next ::
      && ReadsValue(text, items[0], after) && SkipsTo(after, u)
      && if |items| == 1 then Starts(u, CLOSE_BRACKET, next) && next == rest
         else Starts(u, COMMA, next) && ReadsItems(next, items[1..], rest)
  }

  ghost predicate ReadsKey(text: bytes, raw: bytes, rest: bytes) {
    exists t, after, u ::
      SkipsTo(text, t) && IsStringLiteral(raw) && t == Quoted(raw) + after && SkipsTo(after, u) && Starts(u, COLON, rest)
  }

  /** Members with commas between them, up to and including the closing brace. */
  ghost predicate ReadsMembers(text: bytes, members: seq<Member>, rest: bytes)
    requires members != []
    decreases members, 0
  {
    exists value, after, u, next ::
      && ReadsKey(text, members[0].key, value) && ReadsValue(value, members[0].value, after) && SkipsTo(after, u)
      && if |members| == 1 then Starts(u, CLOSE_BRACE, next) && next == rest
         else Starts(u, COMMA, next) && ReadsMembers(next, members[1..], rest)
  }

  /** A document is a value with white space around it. */
  ghost predicate IsDocument(text: bytes, v: Value) {
    exists rest :: ReadsValue(text, v, rest) && Blank(rest)
  }

  // ----- White space -----

  lemma {:induction false} SkipSpaceSkips(text: bytes)
    ensures SkipsTo(text, SkipSpace(text))
  {
    if text != [] && IsSpace(text[0]) {
      SkipSpaceSkips(text[1..]);
      var n := |text| - |SkipSpace(text)|;
      assert text[1..][..n - 1] == text[..n][1..];
      assert text[..n] == [text[0]] + text[1..][..n - 1];
      assert text[1..][n - 1..] == text[n..];
    } else {
      assert text[..0] == [];
    }
  }

  lemma {:induction false} SkipsFurther(text: bytes, t: bytes)
    requires SkipsTo(text, t)
    ensures SkipSpace(text) == SkipSpace(t)
    decreases |text|
  {
    if |t| < |text| {
      var n := |text| - |t|;
      assert text[..n][0] == text[0];
      assert text[1..][..n - 1] == text[..n][1..];
      assert text[1..][n - 1..] == t;
      SkipsFurther(text[1..], t);
    } else {
      assert text[0..] == text;
    }
  }

  lemma SkipSpaceStays(s: bytes)
    requires s != [] ==> !IsSpace(s[0])
    ensures SkipSpace(s) == s
  {
  }

  // ----- The parser reads what the grammar derives -----

  lemma SkippedParses(text: bytes, t: bytes)
    requires SkipsTo(text, t)
    ensures ParseValue(text) == ParseValue(t)
    ensures ParseKey(text) == ParseKey(t)
  {
    SkipsFurther(text, t);
  }

  /** What follows a value inside an array or an object does not continue a number. */
  lemma AfterEndsNumber(after: bytes, u: bytes, b: byte, next: bytes)
    requires SkipsTo(after, u) && Starts(u, b, next) && (b == COMMA || b == CLOSE_BRACKET || b == CLOSE_BRACE)
    ensures EndsNumber(after)
  {
    if |u| < |after| {
      assert after[..|after| - |u|][0] == after[0];
    } else {
      assert after == u;
    }
  }

  lemma BlankEndsNumber(w: bytes)
    requires Blank(w)
    ensures EndsNumber(w) && SkipSpace(w) == []
  {
    assert w[|w|..] == [] && w[..|w|] == w;
    SkipsFurther(w, []);
  }

  lemma EmptyReads(t: bytes, open: byte, close: byte, rest: bytes)
    requires ReadsEmpty(t, open, close, rest) && !IsSpace(close)
    ensures t != [] && t[0] == open && SkipSpace(t[1..]) == [close] + rest
  {
    var body, u :| Starts(t, open, body) && SkipsTo(body, u) && Starts(u, close, rest);
    assert t[1..] == body;
    SkipsFurther(body, u);
    SkipSpaceStays(u);
  }

  lemma EmptyArrayParses(t: bytes, rest: bytes)
    requires ReadsEmpty(t, OPEN_BRACKET, CLOSE_BRACKET, rest)
    ensures ParseValue(t) == Some(Scan(Array([]), rest))
  {
    EmptyReads(t, OPEN_BRACKET, CLOSE_BRACKET, rest);
    SkipSpaceStays(t);
    assert ([CLOSE_BRACKET] + rest)[1..] == rest;
  }

  lemma EmptyObjectParses(t: bytes, rest: bytes)
    requires ReadsEmpty(t, OPEN_BRACE, CLOSE_BRACE, rest)
    ensures ParseValue(t) == Some(Scan(Object([]), rest))
  {
    EmptyReads(t, OPEN_BRACE, CLOSE_BRACE, rest);
    SkipSpaceStays(t);
    assert ([CLOSE_BRACE] + rest)[1..] == rest;
  }

  /** The items of an array parse the same with and without the white space before them. */
  lemma SkippedItems(body: bytes)
    ensures ParseItems(SkipSpace(body)) == ParseItems(body)
    ensures ParseMembers(SkipSpace(body)) == ParseMembers(body)
  {
    SkipSpaceSkips(body);
    SkippedParses(body, SkipSpace(body));
  }

  lemma WordStartsWithLetter(s: bytes)
    requires s != [] && ParseWord(s).Some?
    ensures 0x61 <= s[0] <= 0x7A
  {
    assert Ascii("null")[0] == 0x6E && Ascii("true")[0] == 0x74 && Ascii("false")[0] == 0x66;
    assert StartsWith(s, Ascii("null")) ==> s[0] == s[..4][0];
    assert StartsWith(s, Ascii("true")) ==> s[0] == s[..4][0];
    assert StartsWith(s, Ascii("false")) ==> s[0] == s[..5][0];
  }

  lemma ValueStart(text: bytes)
    requires ParseValue(text).Some?
    ensures SkipSpace(text) != [] && SkipSpace(text)[0] != CLOSE_BRACKET
  {
    var s := SkipSpace(text);
    if ParseWord(s).Some? {
      WordStartsWithLetter(s);
    }
  }

  lemma ParsedStart(text: bytes)
    ensures ParseItems(text).Some? ==> SkipSpace(text) != [] && SkipSpace(text)[0] != CLOSE_BRACKET
    ensures ParseMembers(text).Some? ==> SkipSpace(text) != [] && SkipSpace(text)[0] == QUOTE
  {
    if ParseItems(text).Some? {
      ParsedAfterItem(text);
      ValueStart(text);
    }
    if ParseMembers(text).Some? {
      ParsedAfterMember(text);
      ParsedAtKey(text);
    }
  }

  lemma BracketParses(t: bytes, body: bytes, items: seq<Value>, rest: bytes)
    requires Starts(t, OPEN_BRACKET, body) && ParseItems(body) == Some(Scan(items, rest))
    ensures ParseValue(t) == Some(Scan(Array(items), rest))
  {
    ParsedStart(body);
    SkippedItems(body);
    SkipSpaceStays(t);
    assert t[1..] == body;
  }

  lemma BraceParses(t: bytes, body: bytes, members: seq<Member>, rest: bytes)
    requires Starts(t, OPEN_BRACE, body) && ParseMembers(body) == Some(Scan(members, rest))
    ensures ParseValue(t) == Some(Scan(Object(members), rest))
  {
    ParsedStart(body);
    SkippedItems(body);
    SkipSpaceStays(t);
    assert t[1..] == body;
  }

  lemma {:induction false} ValueParses(text: bytes, v: Value, rest: bytes)
    requires ReadsValue(text, v, rest) && (v.Number? ==> EndsNumber(rest))
    ensures ParseValue(text) == Some(Scan(v, rest))
    decreases v, 1
  {
    var t :| SkipsTo(text, t) && ReadsCore(t, v, rest);
    CoreParses(t, v, rest);
    SkippedParses(text, t);
  }

  lemma {:induction false} CoreParses(t: bytes, v: Value, rest: bytes)
    requires ReadsCore(t, v, rest) && (v.Number? ==> EndsNumber(rest))
    ensures ParseValue(t) == Some(Scan(v, rest))
    decreases v, 0
  {
    match v
    case Null => WordParses(v, rest);
    case Bool(_) => WordParses(v, rest);
    case Number(literal) => NumberParses(literal, rest);
    case String(raw) => StringParses(raw, rest);
    case Array(items) =>
      if items == [] {
        EmptyArrayParses(t, rest);
      } else {
        var body :| Starts(t, OPEN_BRACKET, body) && ReadsItems(body, items, rest);
        ItemsParsed(body, items, rest);
        BracketParses(t, body, items, rest);
      }
    case Object(members) =>
      if members == [] {
        EmptyObjectParses(t, rest);
      } else {
        var body :| Starts(t, OPEN_BRACE, body) && ReadsMembers(body, members, rest);
        MembersParsed(body, members, rest);
        BraceParses(t, body, members, rest);
      }
  }

  /** One item, white space, and the closing bracket or a comma and the other items. */
  lemma ItemsStep(text: bytes, v: Value, after: bytes, u: bytes, next: bytes, others: seq<Value>, rest: bytes)
    requires ParseValue(text) == Some(Scan(v, after)) && SkipsTo(after, u)
    requires || (Starts(u, CLOSE_BRACKET, next) && others == [] && next == rest)
             || (Starts(u, COMMA, next) && ParseItems(next) == Some(Scan(others, rest)))
    ensures ParseItems(text) == Some(Scan([v] + others, rest))
  {
    SkipsFurther(after, u);
    SkipSpaceStays(u);
    assert u[1..] == next;
    assert others == [] ==> [v] + others == [v];
  }

  lemma ItemsParts(text: bytes, items: seq<Value>, rest: bytes) returns (after: bytes, u: bytes, next: bytes)
    requires items != [] && ReadsItems(text, items, rest)
    ensures ReadsValue(text, items[0], after) && SkipsTo(after, u)
    ensures if |items| == 1 then Starts(u, CLOSE_BRACKET, next) && next == rest
            else Starts(u, COMMA, next) && ReadsItems(next, items[1..], rest)
  {
    after, u, next :|
      && ReadsValue(text, items[0], after) && SkipsTo(after, u)
      && if |items| == 1 then Starts(u, CLOSE_BRACKET, next) && next == rest
         else Starts(u, COMMA, next) && ReadsItems(next, items[1..], rest);
  }

  lemma {:induction false} ItemsParsed(text: bytes, items: seq<Value>, rest: bytes)
    requires items != [] && ReadsItems(text, items, rest)
    ensures ParseItems(text) == Some(Scan(items, rest))
    decreases items, 0
  {
    var after, u, next := ItemsParts(text, items, rest);
    AfterEndsNumber(after, u, if |items| == 1 then CLOSE_BRACKET else COMMA, next);
    ValueParses(text, items[0], after);
    if |items| > 1 {
      ItemsParsed(next, items[1..], rest);
    }
    ItemsStep(text, items[0], after, u, next, items[1..], rest);
    assert items == [items[0]] + items[1..];
  }

  lemma KeyParsed(text: bytes, raw: bytes, rest: bytes)
    requires ReadsKey(text, raw, rest)
    ensures ParseKey(text) == Some(Scan(raw, rest))
  {
    var t, after, u :|
      SkipsTo(text, t) && IsStringLiteral(raw) && t == Quoted(raw) + after && SkipsTo(after, u) && Starts(u, COLON, rest);
    SkippedParses(text, t);
    KeyAtQuote(t, raw, after);
    SkipsFurther(after, u);
    SkipSpaceStays(u);
    assert u[1..] == rest;
  }

  lemma KeyAtQuote(t: bytes, raw: bytes, after: bytes)
    requires IsStringLiteral(raw) && t == Quoted(raw) + after
    ensures SkipSpace(t) == t && t[0] == QUOTE && ScanString(t[1..]) == Some(Scan(raw, after))
  {
    assert t[1..] == raw + [QUOTE] + after;
    StringReadsBack(raw, after);
  }

  lemma MembersStep(text: bytes, m: Member, value: bytes, after: bytes, u: bytes, next: bytes, others: seq<Member>, rest: bytes)
    requires ParseKey(text) == Some(Scan(m.key, value))
    requires ParseValue(value) == Some(Scan(m.value, after)) && SkipsTo(after, u)
    requires || (Starts(u, CLOSE_BRACE, next) && others == [] && next == rest)
             || (Starts(u, COMMA, next) && ParseMembers(next) == Some(Scan(others, rest)))
    ensures ParseMembers(text) == Some(Scan([m] + others, rest))
  {
    SkipsFurther(after, u);
    SkipSpaceStays(u);
    assert u[1..] == next;
    assert others == [] ==> [m] + others == [m];
  }

  lemma MembersParts(text: bytes, members: seq<Member>, rest: bytes)
    returns (value: bytes, after: bytes, u: bytes, next: bytes)
    requires members != [] && ReadsMembers(text, members, rest)
    ensures ReadsKey(text, members[0].key, value) && ReadsValue(value, members[0].value, after) && SkipsTo(after, u)
    ensures if |members| == 1 then Starts(u, CLOSE_BRACE, next) && next == rest
            else Starts(u, COMMA, next) && ReadsMembers(next, members[1..], rest)
  {
    value, after, u, next :|
      && ReadsKey(text, members[0].key, value) && ReadsValue(value, members[0].value, after) && SkipsTo(after, u)
      && if |members| == 1 then Starts(u, CLOSE_BRACE, next) && next == rest
         else Starts(u, COMMA, next) && ReadsMembers(next, members[1..], rest);
  }

  lemma {:induction false} MembersParsed(text: bytes, members: seq<Member>, rest: bytes)
    requires members != [] && ReadsMembers(text, members, rest)
    ensures ParseMembers(text) == Some(Scan(members, rest))
    decreases members, 0
  {
    var m := members[0];
    var value, after, u, next := MembersParts(text, members, rest);
    AfterEndsNumber(after, u, if |members| == 1 then CLOSE_BRACE else COMMA, next);
    KeyParsed(text, m.key, value);
    ValueParses(value, m.value, after);
    if |members| > 1 {
      MembersParsed(next, members[1..], rest);
    }
    MembersStep(text, m, value, after, u, next, members[1..], rest);
    assert members == [m] + members[1..];
  }

  // ----- The grammar derives what the parser reads -----

  lemma {:induction false} ScannedSplits(s: bytes)
    requires ScanString(s).Some?
    ensures var r := ScanString(s).value; s == r.value + [QUOTE] + r.rest
  {
    if s[0] == QUOTE {
      assert s == [] + [QUOTE] + s[1..];
    } else {
      var n := UnitLength(s);
      ScannedSplits(s[n..]);
      var tail := ScanString(s[n..]).value;
      assert s == s[..n] + s[n..];
      Regroup(s[..n], tail.value, [QUOTE]);
      Regroup(s[..n], tail.value + [QUOTE], tail.rest);
    }
  }

  lemma ScannedQuoted(s: bytes)
    requires s != [] && s[0] == QUOTE && ScanString(s[1..]).Some?
    ensures var r := ScanString(s[1..]).value; IsStringLiteral(r.value) && s == Quoted(r.value) + r.rest
  {
    ScannedSplits(s[1..]);
    ScannedIsLiteral(s[1..]);
    var r := ScanString(s[1..]).value;
    assert s == [QUOTE] + s[1..];
    Regroup([QUOTE], r.value, [QUOTE]);
    Regroup([QUOTE], r.value + [QUOTE], r.rest);
  }

  lemma WordReads(s: bytes)
    requires ParseWord(s).Some?
    ensures var r := ParseWord(s).value; ReadsCore(s, r.value, r.rest)
  {
    assert s == s[..4] + s[4..];
    assert |s| >= 5 ==> s == s[..5] + s[5..];
  }

  lemma EmptyIsRead(t: bytes, open: byte, close: byte, u: bytes)
    requires t != [] && t[0] == open && SkipsTo(t[1..], u) && u != [] && u[0] == close
    ensures ReadsEmpty(t, open, close, u[1..])
  {
    assert Starts(t, open, t[1..]) && Starts(u, close, u[1..]);
  }

  lemma ArrayIsRead(t: bytes, items: seq<Value>, rest: bytes)
    requires t != [] && t[0] == OPEN_BRACKET && items != [] && ReadsItems(t[1..], items, rest)
    ensures ReadsCore(t, Array(items), rest)
  {
    assert Starts(t, OPEN_BRACKET, t[1..]);
  }

  lemma ObjectIsRead(t: bytes, members: seq<Member>, rest: bytes)
    requires t != [] && t[0] == OPEN_BRACE && members != [] && ReadsMembers(t[1..], members, rest)
    ensures ReadsCore(t, Object(members), rest)
  {
    assert Starts(t, OPEN_BRACE, t[1..]);
  }

  lemma NumberIsRead(s: bytes)
    requires NumberEnd(s).Some?
    ensures var n := NumberEnd(s).value; ReadsCore(s, Number(s[..n]), s[n..])
  {
    ScannedIsNumber(s);
    assert s == s[..NumberEnd(s).value] + s[NumberEnd(s).value..];
  }

  /** What the parser does at a bracket or a brace. */
  lemma ParsedAtBracket(text: bytes, s: bytes)
    requires s == SkipSpace(text) && s != [] && s[0] == OPEN_BRACKET && ParseValue(text).Some?
    ensures var t, r := SkipSpace(s[1..]), ParseValue(text).value;
            if t != [] && t[0] == CLOSE_BRACKET then r == Scan(Array([]), t[1..])
            else && ParseItems(s[1..]).Some?
                 && r == Scan(Array(ParseItems(s[1..]).value.value), ParseItems(s[1..]).value.rest)
  {
    SkippedItems(s[1..]);
  }

  lemma ParsedAtBrace(text: bytes, s: bytes)
    requires s == SkipSpace(text) && s != [] && s[0] == OPEN_BRACE && ParseValue(text).Some?
    ensures var t, r := SkipSpace(s[1..]), ParseValue(text).value;
            if t != [] && t[0] == CLOSE_BRACE then r == Scan(Object([]), t[1..])
            else && ParseMembers(s[1..]).Some?
                 && r == Scan(Object(ParseMembers(s[1..]).value.value), ParseMembers(s[1..]).value.rest)
  {
    SkippedItems(s[1..]);
  }

  lemma ParsedScalar(text: bytes, s: bytes)
    requires s == SkipSpace(text) && s != [] && s[0] != OPEN_BRACE && s[0] != OPEN_BRACKET && ParseValue(text).Some?
    ensures var r := ParseValue(text).value; ReadsCore(s, r.value, r.rest)
  {
    if s[0] == QUOTE {
      ScannedQuoted(s);
    } else if s[0] == MINUS || IsDigit(s[0]) {
      NumberIsRead(s);
    } else {
      WordReads(s);
    }
  }

  lemma {:induction false} ParsedReads(text: bytes)
    requires ParseValue(text).Some?
    ensures var r := ParseValue(text).value; ReadsValue(text, r.value, r.rest)
    decreases |text|, 0
  {
    var s, r := SkipSpace(text), ParseValue(text).value;
    SkipSpaceSkips(text);
    if s[0] == OPEN_BRACE {
      var t := SkipSpace(s[1..]);
      SkipSpaceSkips(s[1..]);
      ParsedAtBrace(text, s);
      if t != [] && t[0] == CLOSE_BRACE {
        EmptyIsRead(s, OPEN_BRACE, CLOSE_BRACE, t);
      } else {
        ParsedMembersRead(s[1..]);
        ObjectIsRead(s, ParseMembers(s[1..]).value.value, r.rest);
      }
    } else if s[0] == OPEN_BRACKET {
      var t := SkipSpace(s[1..]);
      SkipSpaceSkips(s[1..]);
      ParsedAtBracket(text, s);
      if t != [] && t[0] == CLOSE_BRACKET {
        EmptyIsRead(s, OPEN_BRACKET, CLOSE_BRACKET, t);
      } else {
        ParsedItemsRead(s[1..]);
        ArrayIsRead(s, ParseItems(s[1..]).value.value, r.rest);
      }
    } else {
      ParsedScalar(text, s);
    }
    assert ReadsCore(s, r.value, r.rest);
  }

  lemma LastItemIsRead(text: bytes, v: Value, after: bytes, u: bytes, rest: bytes)
    requires ReadsValue(text, v, after) && SkipsTo(after, u) && Starts(u, CLOSE_BRACKET, rest)
    ensures ReadsItems(text, [v], rest)
  {
  }

  lemma OtherItemsAreRead(text: bytes, v: Value, after: bytes, u: bytes, next: bytes, others: seq<Value>, rest: bytes)
    requires ReadsValue(text, v, after) && SkipsTo(after, u) && Starts(u, COMMA, next)
    requires others != [] && ReadsItems(next, others, rest)
    ensures ReadsItems(text, [v] + others, rest)
  {
    var items := [v] + others;
    assert items[0] == v && items[1..] == others;
  }

  /** What the parser does after an item or a member. */
  lemma ParsedAfterItem(text: bytes)
    requires ParseItems(text).Some?
    ensures ParseValue(text).Some?
    ensures var first, r := ParseValue(text).value, ParseItems(text).value;
            var s := SkipSpace(first.rest);
            && s != []
            && if s[0] == CLOSE_BRACKET then r == Scan([first.value], s[1..])
               else && s[0] == COMMA && ParseItems(s[1..]).Some? && |s[1..]| < |text|
                    && r == Scan([first.value] + ParseItems(s[1..]).value.value, ParseItems(s[1..]).value.rest)
  {
  }

  lemma {:induction false} ParsedItemsRead(text: bytes)
    requires ParseItems(text).Some?
    ensures var r := ParseItems(text).value; r.value != [] && ReadsItems(text, r.value, r.rest)
    decreases |text|, 1
  {
    ParsedAfterItem(text);
    ParsedReads(text);
    var first := ParseValue(text).value;
    var s := SkipSpace(first.rest);
    SkipSpaceSkips(first.rest);
    if s[0] == CLOSE_BRACKET {
      StartsAtFirst(s);
      LastItemIsRead(text, first.value, first.rest, s, s[1..]);
    } else {
      ParsedItemsRead(s[1..]);
      StartsAtFirst(s);
      var others := ParseItems(s[1..]).value;
      OtherItemsAreRead(text, first.value, first.rest, s, s[1..], others.value, others.rest);
    }
  }

  lemma StartsAtFirst(s: bytes)
    requires s != []
    ensures Starts(s, s[0], s[1..])
  {
  }

  lemma KeyIsRead(text: bytes, t: bytes, raw: bytes, after: bytes, u: bytes, rest: bytes)
    requires SkipsTo(text, t) && IsStringLiteral(raw) && t == Quoted(raw) + after && SkipsTo(after, u) && Starts(u, COLON, rest)
    ensures ReadsKey(text, raw, rest)
  {
  }

  /** What the parser does at a key. */
  lemma ParsedAtKey(text: bytes)
    requires ParseKey(text).Some?
    ensures var s, r := SkipSpace(text), ParseKey(text).value;
            && s != [] && s[0] == QUOTE && ScanString(s[1..]).Some?
            && var key := ScanString(s[1..]).value;
            var t := SkipSpace(key.rest);
            t != [] && t[0] == COLON && r == Scan(key.value, t[1..])
  {
  }

  lemma ParsedKeyReads(text: bytes)
    requires ParseKey(text).Some?
    ensures var r := ParseKey(text).value; ReadsKey(text, r.value, r.rest)
  {
    ParsedAtKey(text);
    var s := SkipSpace(text);
    var key := ScanString(s[1..]).value;
    var t := SkipSpace(key.rest);
    SkipSpaceSkips(text);
    ScannedQuoted(s);
    SkipSpaceSkips(key.rest);
    assert Starts(t, COLON, t[1..]);
    KeyIsRead(text, s, key.value, key.rest, t, t[1..]);
  }

  lemma LastMemberIsRead(text: bytes, m: Member, value: bytes, after: bytes, u: bytes, rest: bytes)
    requires ReadsKey(text, m.key, value) && ReadsValue(value, m.value, after) && SkipsTo(after, u)
    requires Starts(u, CLOSE_BRACE, rest)
    ensures ReadsMembers(text, [m], rest)
  {
    var members, next := [m], rest;
    assert members[0].key == m.key && members[0].value == m.value && next == rest;
  }

  lemma OtherMembersAreRead(text: bytes, m: Member, value: bytes, after: bytes, u: bytes, next: bytes, others: seq<Member>,
                            rest: bytes)
    requires ReadsKey(text, m.key, value) && ReadsValue(value, m.value, after) && SkipsTo(after, u)
    requires Starts(u, COMMA, next) && others != [] && ReadsMembers(next, others, rest)
    ensures ReadsMembers(text, [m] + others, rest)
  {
    var members := [m] + others;
    assert members[0] == m && members[1..] == others;
  }

  lemma ParsedAfterMember(text: bytes)
    requires ParseMembers(text).Some?
    ensures ParseKey(text).Some? && ParseValue(ParseKey(text).value.rest).Some?
    ensures var key, r := ParseKey(text).value, ParseMembers(text).value;
            var value := ParseValue(key.rest).value;
            var m, s := Member(key.value, value.value), SkipSpace(value.rest);
            && s != []
            && if s[0] == CLOSE_BRACE then r == Scan([m], s[1..])
               else && s[0] == COMMA && ParseMembers(s[1..]).Some? && |s[1..]| < |text|
                    && r == Scan([m] + ParseMembers(s[1..]).value.value, ParseMembers(s[1..]).value.rest)
  {
  }

  lemma {:induction false} ParsedMembersRead(text: bytes)
    requires ParseMembers(text).Some?
    ensures var r := ParseMembers(text).value; r.value != [] && ReadsMembers(text, r.value, r.rest)
    decreases |text|, 1
  {
    ParsedAfterMember(text);
    ParsedKeyReads(text);
    var key := ParseKey(text).value;
    ParsedReads(key.rest);
    var value := ParseValue(key.rest).value;
    var s := SkipSpace(value.rest);
    SkipSpaceSkips(value.rest);
    if s[0] == CLOSE_BRACE {
      StartsAtFirst(s);
      LastMemberIsRead(text, Member(key.value, value.value), key.rest, value.rest, s, s[1..]);
    } else {
      ParsedMembersRead(s[1..]);
      StartsAtFirst(s);
      var others := ParseMembers(s[1..]).value;
      OtherMembersAreRead(text, Member(key.value, value.value), key.rest, value.rest, s, s[1..], others.value, others.rest);
    }
  }

  /** The parser accepts a text as a document if and only if the grammar derives it, with the same tree: white space
      between tokens never matters, and nothing else is let through. */
  lemma ParsesExactly(text: bytes, v: Value)
    ensures ParseDocument(text) == Some(v) <==> IsDocument(text, v)
  {
    if ParseDocument(text) == Some(v) {
      ParsedReads(text);
      var rest := ParseValue(text).value.rest;
      SkipSpaceSkips(rest);
      assert rest[..|rest|] == rest;
    }
    if IsDocument(text, v) {
      var rest :| ReadsValue(text, v, rest) && Blank(rest);
      BlankEndsNumber(rest);
      ValueParses(text, v, rest);
    }
  }
}
