/** How a derived `serde` struct is written to and read from a JSON value. Reading accepts an object
    with the fields in any order and unknown members ignored, or an array in declaration order. */
module JsonFields {
  import opened Bytes
  import opened Wrappers
  import opened Json
  import opened JsonRoundTrip
  import opened JsonText

  // ----- Finding the fields -----

  predicate Named(m: Member, name: bytes) {
    DecodeString(m.key) == Some(name)
  }

  /** The values of the chosen members, in document order. */
  function ValuesWhere(members: seq<Member>, chosen: Member -> bool): seq<Value> {
    if members == [] then []
    else (if chosen(members[0]) then [members[0].value] else []) + ValuesWhere(members[1..], chosen)
  }

  function NamedAs(name: bytes): Member -> bool {
    m => Named(m, name)
  }

  /** The values of the members with a given name, in document order. */
  function ValuesNamed(members: seq<Member>, name: bytes): seq<Value> {
    ValuesWhere(members, NamedAs(name))
  }

  predicate KeysDecode(members: seq<Member>) {
    forall m <- members :: DecodeString(m.key).Some?
  }

  /** The value found for each field, if any. A repeated field, a key that is no string and an array
      longer than the struct are errors; an unknown member is not. */
  function StructFields(v: Value, names: seq<string>): (r: Option<seq<Option<Value>>>)
    ensures r.Some? ==> |r.value| == |names|
  {
    match v
    case Object(members) =>
      if KeysDecode(members) && forall name <- names :: |ValuesNamed(members, Ascii(name))| <= 1 then
        Some(seq(|names|, i requires 0 <= i < |names| =>
          var found := ValuesNamed(members, Ascii(names[i])); if found == [] then None else Some(found[0])))
      else
        None
    case Array(items) =>
      if |items| <= |names| then
        Some(seq(|names|, i requires 0 <= i < |names| => if i < |items| then Some(items[i]) else None))
      else
        None
    case _ => None
  }

  /** An object with one member for each field, in declaration order. */
  function StructValue(names: seq<string>, values: seq<Value>): Value
    requires |names| == |values|
  {
    Object(seq(|names|, i requires 0 <= i < |names| => Member(Escape(Ascii(names[i])), values[i])))
  }

  // ----- Scalar fields -----

  /** The content of one field. */
  datatype Scalar = TextScalar(text: Text) | UnsignedScalar(n: nat)

  /** The type of one field; `max` is the greatest value of its integer type. */
  datatype Kind = TextKind | UnsignedKind(max: nat)

  /** A declared field; one marked `#[serde(default)]` is optional. */
  datatype FieldSpec = FieldSpec(name: string, kind: Kind, optional: bool)

  predicate Fits(s: Scalar, kind: Kind) {
    match kind
    case TextKind => s.TextScalar?
    case UnsignedKind(max) => s.UnsignedScalar? && s.n <= max
  }

  function WriteScalar(s: Scalar): Value {
    match s
    case TextScalar(text) => String(Escape(text))
    case UnsignedScalar(n) => Number(Decimal(n))
  }

  function ReadScalar(v: Value, kind: Kind): (r: Option<Scalar>)
    ensures r.Some? ==> Fits(r.value, kind)
  {
    match kind
    case TextKind =>
      if v.String? then
        var text :- DecodeString(v.raw);
        Some(TextScalar(text))
      else
        None
    case UnsignedKind(max) =>
      if v.Number? then
        var n :- DecodeUnsigned(v.literal, max);
        Some(UnsignedScalar(n))
      else
        None
  }

  function ReadField(field: Option<Value>, spec: FieldSpec): (r: Option<Scalar>)
    ensures r.Some? ==> Fits(r.value, spec.kind)
  {
    match field
    case Some(v) => ReadScalar(v, spec.kind)
    case None =>
      if !spec.optional then None
      else if spec.kind.TextKind? then Some(TextScalar([]))
      else Some(UnsignedScalar(0))
  }

  // ----- Structs of scalar fields -----

  function Names(schema: seq<FieldSpec>): (names: seq<string>)
    ensures |names| == |schema| && forall i :: 0 <= i < |schema| ==> names[i] == schema[i].name
  {
    seq(|schema|, i requires 0 <= i < |schema| => schema[i].name)
  }

  predicate AllFit(scalars: seq<Scalar>, schema: seq<FieldSpec>) {
    |scalars| == |schema| && forall i :: 0 <= i < |schema| ==> Fits(scalars[i], schema[i].kind)
  }

  function WriteStruct(scalars: seq<Scalar>, schema: seq<FieldSpec>): Value
    requires |scalars| == |schema|
  {
    StructValue(Names(schema), seq(|scalars|, i requires 0 <= i < |scalars| => WriteScalar(scalars[i])))
  }

  function ReadStruct(v: Value, schema: seq<FieldSpec>): (r: Option<seq<Scalar>>)
    ensures r.Some? ==> AllFit(r.value, schema)
  {
    var fields :- StructFields(v, Names(schema));
    if forall i :: 0 <= i < |schema| ==> ReadField(fields[i], schema[i]).Some? then
      Some(seq(|schema|, i requires 0 <= i < |schema| => ReadField(fields[i], schema[i]).value))
    else
      None
  }

  // ----- Round trips -----

  lemma ScalarReadsBack(s: Scalar, kind: Kind)
    requires Fits(s, kind)
    ensures WellFormed(WriteScalar(s)) && ReadScalar(WriteScalar(s), kind) == Some(s)
  {
    match s
    case TextScalar(text) => EscapeRoundTrip(text);
    case UnsignedScalar(n) =>
      DecimalIsNumber(n);
      DecimalRoundTrip(n);
  }

  /** No two fields share a name. */
  predicate Distinct(names: seq<string>) {
    forall i, j :: 0 <= i < j < |names| ==> Ascii(names[i]) != Ascii(names[j])
  }

  lemma {:induction false} OnlyOneChosen(members: seq<Member>, chosen: Member -> bool, k: nat)
    requires k < |members| && chosen(members[k])
    requires forall i :: 0 <= i < |members| && i != k ==> !chosen(members[i])
    ensures ValuesWhere(members, chosen) == [members[k].value]
  {
    if k == 0 {
      NoneChosen(members[1..], chosen);
    } else {
      OnlyOneChosen(members[1..], chosen, k - 1);
    }
  }

  lemma {:induction false} NoneChosen(members: seq<Member>, chosen: Member -> bool)
    requires forall i :: 0 <= i < |members| ==> !chosen(members[i])
    ensures ValuesWhere(members, chosen) == []
  {
    if members != [] {
      NoneChosen(members[1..], chosen);
    }
  }

  lemma NameReadsBack(name: string)
    ensures IsStringLiteral(Escape(Ascii(name))) && DecodeString(Escape(Ascii(name))) == Some(Ascii(name))
  {
    EscapeRoundTrip(Ascii(name));
    AsciiIsUtf8(Ascii(name));
  }

  /** A written struct has exactly its fields. */
  lemma FieldsReadBack(names: seq<string>, values: seq<Value>)
    requires |names| == |values| && Distinct(names)
    ensures var r := StructFields(StructValue(names, values), names);
            r.Some? && forall i :: 0 <= i < |names| ==> r.value[i] == Some(values[i])
  {
    var members := StructValue(names, values).members;
    forall i | 0 <= i < |names| ensures DecodeString(members[i].key) == Some(Ascii(names[i])) {
      NameReadsBack(names[i]);
    }
    forall i | 0 <= i < |names| ensures ValuesNamed(members, Ascii(names[i])) == [values[i]] {
      OnlyOneChosen(members, NamedAs(Ascii(names[i])), i);
    }
    assert KeysDecode(members);
    assert forall name <- names :: |ValuesNamed(members, Ascii(name))| <= 1;
  }

  lemma StructWellFormed(names: seq<string>, values: seq<Value>)
    requires |names| == |values| && forall v <- values :: WellFormed(v)
    ensures WellFormed(StructValue(names, values))
  {
    var members := StructValue(names, values).members;
    forall i | 0 <= i < |members| ensures IsStringLiteral(members[i].key) && WellFormed(members[i].value) {
      NameReadsBack(names[i]);
    }
  }

  /** Reading undoes writing, for every struct of scalar fields. */
  lemma StructRoundTrip(scalars: seq<Scalar>, schema: seq<FieldSpec>)
    requires AllFit(scalars, schema) && Distinct(Names(schema))
    ensures WellFormed(WriteStruct(scalars, schema))
    ensures ReadStruct(WriteStruct(scalars, schema), schema) == Some(scalars)
  {
    var values := seq(|scalars|, i requires 0 <= i < |scalars| => WriteScalar(scalars[i]));
    forall i | 0 <= i < |schema|
      ensures WellFormed(values[i]) && ReadScalar(values[i], schema[i].kind) == Some(scalars[i])
    {
      ScalarReadsBack(scalars[i], schema[i].kind);
    }
    FieldsReadBack(Names(schema), values);
    StructWellFormed(Names(schema), values);
    assert ReadStruct(WriteStruct(scalars, schema), schema).value == scalars;
  }

  /** Length and first character of a name, enough to tell the names of a struct apart. */
  function Fingerprint(name: string): nat {
    |name| * 256 + if name == "" then 0 else name[0] as nat % 128
  }

  lemma DistinctByFingerprint(names: seq<string>, prints: seq<nat>)
    requires |names| == |prints| && forall i :: 0 <= i < |names| ==> Fingerprint(names[i]) == prints[i]
    requires forall i, j :: 0 <= i < j < |prints| ==> prints[i] != prints[j]
    ensures Distinct(names)
  {
  }

  // ----- The spelling of a field -----

  /** A field as it is spelled in a document: its quoted name, a colon, and its escaped text in quotes or its number
      in decimal. */
  function Spelled(name: string, s: Scalar): bytes {
    Quoted(Ascii(name)) + [COLON] + match s case TextScalar(text) => Quoted(Escape(text)) case UnsignedScalar(n) => Decimal(n)
  }

  /** A name of lower-case letters and underscores. */
  predicate IsPlain(name: string) {
    forall i :: 0 <= i < |name| ==> 'a' <= name[i] <= 'z' || name[i] == '_'
  }

  function FieldOf(name: string, s: Scalar): Member {
    Member(Escape(Ascii(name)), WriteScalar(s))
  }

  function PrintField(m: Member): bytes {
    Quoted(m.key) + [COLON] + Print(m.value)
  }

  lemma {:induction false} PlainUnescaped(s: bytes)
    requires forall i :: 0 <= i < |s| ==> EscapeByte(s[i]) == [s[i]]
    ensures Escape(s) == s
  {
    if s != [] {
      PlainUnescaped(s[1..]);
      assert s == [s[0]] + s[1..];
    }
  }

  lemma PrintedField(name: string, s: Scalar)
    requires IsPlain(name)
    ensures PrintField(FieldOf(name, s)) == Spelled(name, s)
  {
    PlainUnescaped(Ascii(name));
  }

  /** The parts with commas between them. */
  function Joined(parts: seq<bytes>): bytes
    requires parts != []
  {
    if |parts| == 1 then parts[0] else parts[0] + [COMMA] + Joined(parts[1..])
  }

  lemma {:induction false} MembersJoined(members: seq<Member>, parts: seq<bytes>)
    requires members != [] && |parts| == |members|
    requires forall i :: 0 <= i < |members| ==> PrintField(members[i]) == parts[i]
    ensures PrintMembers(members) == Joined(parts) + [CLOSE_BRACE]
  {
    assert PrintField(members[0]) == parts[0];
    if |members| > 1 {
      MembersJoined(members[1..], parts[1..]);
      AfterComma(parts[0], Joined(parts[1..]));
    }
  }

  lemma AfterComma(part: bytes, rest: bytes)
    ensures part + ([COMMA] + (rest + [CLOSE_BRACE])) == part + [COMMA] + rest + [CLOSE_BRACE]
  {
  }

  /** An object of named fields as it is spelled in a document without white space. */
  function SpelledObject(names: seq<string>, scalars: seq<Scalar>): bytes
    requires |names| == |scalars| > 0
  {
    [OPEN_BRACE] + Joined(seq(|names|, i requires 0 <= i < |names| => Spelled(names[i], scalars[i]))) + [CLOSE_BRACE]
  }

  /** A written struct is spelled as its fields in declaration order. */
  lemma PrintedStruct(scalars: seq<Scalar>, schema: seq<FieldSpec>)
    requires |scalars| == |schema| > 0
    requires forall i :: 0 <= i < |schema| ==> IsPlain(schema[i].name)
    ensures Print(WriteStruct(scalars, schema)) == SpelledObject(Names(schema), scalars)
  {
    var members, names := WriteStruct(scalars, schema).members, Names(schema);
    var parts := seq(|names|, i requires 0 <= i < |names| => Spelled(names[i], scalars[i]));
    forall i | 0 <= i < |members| ensures PrintField(members[i]) == parts[i] {
      MemberOfStruct(scalars, schema, i);
      PrintedField(schema[i].name, scalars[i]);
    }
    MembersJoined(members, parts);
    BracesAround(members, Joined(parts));
  }

  lemma MemberOfStruct(scalars: seq<Scalar>, schema: seq<FieldSpec>, i: nat)
    requires |scalars| == |schema| && i < |schema|
    ensures WriteStruct(scalars, schema).members[i] == FieldOf(schema[i].name, scalars[i])
  {
  }

  lemma BracesAround(members: seq<Member>, body: bytes)
    requires members != [] && PrintMembers(members) == body + [CLOSE_BRACE]
    ensures Print(Object(members)) == [OPEN_BRACE] + body + [CLOSE_BRACE]
  {
  }

  // ----- The order of members does not matter -----

  lemma RegroupValues(a: seq<Value>, b: seq<Value>, c: seq<Value>)
    ensures (a + b) + c == a + (b + c)
  {
  }

  lemma {:induction false} ChosenOfConcat(a: seq<Member>, b: seq<Member>, chosen: Member -> bool)
    ensures ValuesWhere(a + b, chosen) == ValuesWhere(a, chosen) + ValuesWhere(b, chosen)
  {
    if a == [] {
      assert a + b == b;
    } else {
      ChosenOfConcat(a[1..], b, chosen);
      assert (a + b)[0] == a[0] && (a + b)[1..] == a[1..] + b;
      var first := if chosen(a[0]) then [a[0].value] else [];
      RegroupValues(first, ValuesWhere(a[1..], chosen), ValuesWhere(b, chosen));
    }
  }

  lemma ChosenInTheMiddle(p: seq<Member>, m: seq<Member>, q: seq<Member>, chosen: Member -> bool)
    ensures multiset(ValuesWhere(p + (m + q), chosen)) ==
            multiset(ValuesWhere(m, chosen)) + multiset(ValuesWhere(p + q, chosen))
  {
    ChosenOfConcat(p, m + q, chosen);
    ChosenOfConcat(m, q, chosen);
    ChosenOfConcat(p, q, chosen);
  }

  lemma ChosenWithout(b: seq<Member>, k: nat, chosen: Member -> bool)
    requires k < |b|
    ensures multiset(ValuesWhere(b, chosen)) ==
            multiset(ValuesWhere([b[k]], chosen)) + multiset(ValuesWhere(b[..k] + b[k + 1..], chosen))
  {
    assert b == b[..k] + ([b[k]] + b[k + 1..]);
    ChosenInTheMiddle(b[..k], [b[k]], b[k + 1..], chosen);
  }

  lemma {:induction false} ChosenOfPermutation(a: seq<Member>, b: seq<Member>, chosen: Member -> bool)
    requires multiset(a) == multiset(b)
    ensures multiset(ValuesWhere(a, chosen)) == multiset(ValuesWhere(b, chosen))
  {
    if a == [] {
      assert |multiset(b)| == 0;
    } else {
      assert a[0] in multiset(b);
      var k :| 0 <= k < |b| && b[k] == a[0];
      RemoveEqual(a, b, k);
      ChosenOfPermutation(a[1..], b[..k] + b[k + 1..], chosen);
      ChosenWithout(a, 0, chosen);
      assert a[..0] + a[1..] == a[1..];
      ChosenWithout(b, k, chosen);
    }
  }

  lemma RemoveEqual<T>(a: seq<T>, b: seq<T>, k: nat)
    requires multiset(a) == multiset(b) && a != [] && k < |b| && b[k] == a[0]
    ensures multiset(a[1..]) == multiset(b[..k] + b[k + 1..])
  {
    assert a == [a[0]] + a[1..];
    assert b == b[..k] + [b[k]] + b[k + 1..];
    assert multiset(a[1..]) == multiset(a) - multiset{a[0]};
    assert multiset(b[..k] + b[k + 1..]) == multiset(b) - multiset{a[0]};
  }

  /** Reordering the members of an object changes no field. */
  lemma FieldOrderIrrelevant(a: seq<Member>, b: seq<Member>, names: seq<string>)
    requires multiset(a) == multiset(b)
    ensures StructFields(Object(a), names) == StructFields(Object(b), names)
  {
    assert forall m :: m in a <==> m in multiset(a);
    assert forall m :: m in b <==> m in multiset(b);
    assert KeysDecode(a) == KeysDecode(b);
    forall name <- names ensures SameSingleton(ValuesNamed(a, Ascii(name)), ValuesNamed(b, Ascii(name))) {
      ChosenOfPermutation(a, b, NamedAs(Ascii(name)));
      SingletonOfPermutation(ValuesNamed(a, Ascii(name)), ValuesNamed(b, Ascii(name)));
    }
    var r, q := StructFields(Object(a), names), StructFields(Object(b), names);
    if r.Some? {
      assert r.value == q.value;
    }
  }

  predicate SameSingleton(p: seq<Value>, q: seq<Value>) {
    |p| == |q| && (|p| == 1 ==> p == q)
  }

  lemma SingletonOfPermutation(p: seq<Value>, q: seq<Value>)
    requires multiset(p) == multiset(q)
    ensures SameSingleton(p, q)
  {
    assert |p| == |multiset(p)| == |multiset(q)| == |q|;
    if |p| == 1 {
      assert p[0] in multiset(q);
    }
  }

  // ----- What else reads, and what does not -----

  lemma NotChosen(a: seq<Member>, m: Member, b: seq<Member>, chosen: Member -> bool)
    requires !chosen(m)
    ensures ValuesWhere(a + [m] + b, chosen) == ValuesWhere(a + b, chosen)
  {
    ChosenOfConcat(a + [m], b, chosen);
    ChosenOfConcat(a, [m], chosen);
    ChosenOfConcat(a, b, chosen);
  }

  /** A member under any other name is ignored, wherever it stands. */
  lemma UnknownIgnored(a: seq<Member>, m: Member, b: seq<Member>, names: seq<string>)
    requires DecodeString(m.key).Some? && forall name <- names :: !Named(m, Ascii(name))
    ensures StructFields(Object(a + [m] + b), names) == StructFields(Object(a + b), names)
  {
    assert forall x :: x in a + [m] + b <==> x in a + b || x == m;
    assert KeysDecode(a + [m] + b) == KeysDecode(a + b);
    forall name <- names ensures ValuesNamed(a + [m] + b, Ascii(name)) == ValuesNamed(a + b, Ascii(name)) {
      NotChosen(a, m, b, NamedAs(Ascii(name)));
    }
    var r, q := StructFields(Object(a + [m] + b), names), StructFields(Object(a + b), names);
    if r.Some? {
      assert r.value == q.value;
    }
  }

  lemma {:induction false} ChosenIsThere(members: seq<Member>, chosen: Member -> bool, k: nat)
    requires k < |members| && chosen(members[k])
    ensures |ValuesWhere(members, chosen)| >= 1
  {
    if k > 0 {
      ChosenIsThere(members[1..], chosen, k - 1);
    }
  }

  /** A field that occurs twice is an error. */
  lemma RepeatedRejected(members: seq<Member>, i: nat, j: nat, names: seq<string>, name: string)
    requires i < j < |members| && name in names && Named(members[i], Ascii(name)) && Named(members[j], Ascii(name))
    ensures StructFields(Object(members), names).None?
  {
    var chosen := NamedAs(Ascii(name));
    ChosenOfConcat(members[..j], members[j..], chosen);
    ChosenIsThere(members[..j], chosen, i);
    ChosenIsThere(members[j..], chosen, 0);
    assert members[..j] + members[j..] == members;
    assert |ValuesNamed(members, Ascii(name))| >= 2;
  }

  /** A struct without one of its unmarked fields does not read. */
  lemma MissingRejected(members: seq<Member>, schema: seq<FieldSpec>, i: nat)
    requires i < |schema| && !schema[i].optional && ValuesNamed(members, Ascii(schema[i].name)) == []
    ensures ReadStruct(Object(members), schema).None?
  {
    var fields := StructFields(Object(members), Names(schema));
    assert fields.Some? ==> fields.value[i] == None && ReadField(fields.value[i], schema[i]).None?;
  }

  /** A struct is also read from an array of its fields in declaration order, where marked fields at the end may be
      missing; a longer array does not read. */
  lemma ArrayReads(scalars: seq<Scalar>, schema: seq<FieldSpec>, items: seq<Value>)
    requires AllFit(scalars, schema)
    requires forall i :: 0 <= i < |items| && i < |schema| ==> items[i] == WriteScalar(scalars[i])
    requires forall i :: |items| <= i < |schema| ==> ReadField(None, schema[i]) == Some(scalars[i])
    ensures ReadStruct(Array(items), schema) == if |items| <= |schema| then Some(scalars) else None
  {
    if |items| <= |schema| {
      var fields := StructFields(Array(items), Names(schema)).value;
      forall i | 0 <= i < |schema| ensures ReadField(fields[i], schema[i]) == Some(scalars[i]) {
        ScalarReadsBack(scalars[i], schema[i].kind);
      }
      assert ReadStruct(Array(items), schema).value == scalars;
    }
  }
}
