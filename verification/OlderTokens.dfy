/** Tokens of an older shape: fewer fields, the others left to their defaults. They still read, but verification
    serialises all eleven fields again and checks the signature over that text. */
module OlderTokens {
  import opened Bytes
  import opened Wrappers
  import opened Base64
  import opened Json
  import opened JsonRoundTrip
  import opened JsonText
  import opened JsonFields
  import opened Signing
  import opened SignedToken

  // ----- Structs written with some of their fields -----

  /** The value a marked field takes when it is missing. */
  function Default(kind: Kind): Scalar {
    if kind.TextKind? then TextScalar([]) else UnsignedScalar(0)
  }

  /** `kept` holds positions of fields, each once; the other fields are marked and have their defaults. */
  predicate KeepsEnough(scalars: seq<Scalar>, schema: seq<FieldSpec>, kept: seq<nat>)
    requires |scalars| == |schema|
  {
    && (forall j :: 0 <= j < |kept| ==> kept[j] < |schema|)
    && (forall j, k :: 0 <= j < k < |kept| ==> kept[j] != kept[k])
    && (forall i :: 0 <= i < |schema| && i !in kept ==> schema[i].optional && scalars[i] == Default(schema[i].kind))
  }

  function KeptNames(schema: seq<FieldSpec>, kept: seq<nat>): seq<string>
    requires forall j :: 0 <= j < |kept| ==> kept[j] < |schema|
  {
    seq(|kept|, j requires 0 <= j < |kept| => schema[kept[j]].name)
  }

  function KeptValues(scalars: seq<Scalar>, kept: seq<nat>): seq<Value>
    requires forall j :: 0 <= j < |kept| ==> kept[j] < |scalars|
  {
    seq(|kept|, j requires 0 <= j < |kept| => WriteScalar(scalars[kept[j]]))
  }

  /** An object with the kept fields only, in the order of `kept`. */
  function WriteKept(scalars: seq<Scalar>, schema: seq<FieldSpec>, kept: seq<nat>): Value
    requires |scalars| == |schema| && forall j :: 0 <= j < |kept| ==> kept[j] < |schema|
  {
    StructValue(KeptNames(schema, kept), KeptValues(scalars, kept))
  }

  /** The members of a written struct under one name. */
  lemma KeptFieldFound(names: seq<string>, values: seq<Value>, j: nat)
    requires |names| == |values| && Distinct(names) && j < |names|
    ensures ValuesNamed(StructValue(names, values).members, Ascii(names[j])) == [values[j]]
  {
    var members := StructValue(names, values).members;
    forall i | 0 <= i < |names| ensures DecodeString(members[i].key) == Some(Ascii(names[i])) {
      NameReadsBack(names[i]);
    }
    OnlyOneChosen(members, NamedAs(Ascii(names[j])), j);
  }

  lemma OmittedFieldNotFound(names: seq<string>, values: seq<Value>, name: string)
    requires |names| == |values| && forall i :: 0 <= i < |names| ==> Ascii(names[i]) != Ascii(name)
    ensures ValuesNamed(StructValue(names, values).members, Ascii(name)) == []
  {
    var members := StructValue(names, values).members;
    forall i | 0 <= i < |names| ensures DecodeString(members[i].key) == Some(Ascii(names[i])) {
      NameReadsBack(names[i]);
    }
    NoneChosen(members, NamedAs(Ascii(name)));
  }

  lemma KeptNamesDistinct(schema: seq<FieldSpec>, kept: seq<nat>)
    requires Distinct(Names(schema))
    requires forall j :: 0 <= j < |kept| ==> kept[j] < |schema|
    requires forall j, k :: 0 <= j < k < |kept| ==> kept[j] != kept[k]
    ensures Distinct(KeptNames(schema, kept))
  {
    var names := Names(schema);
    forall j, k | 0 <= j < k < |kept| ensures Ascii(names[kept[j]]) != Ascii(names[kept[k]]) {
      assert kept[j] < kept[k] || kept[k] < kept[j];
    }
  }

  /** What reading finds for field `i`. */
  lemma FieldOfKept(scalars: seq<Scalar>, schema: seq<FieldSpec>, kept: seq<nat>, i: nat)
    requires AllFit(scalars, schema) && Distinct(Names(schema)) && KeepsEnough(scalars, schema, kept) && i < |schema|
    ensures var found := ValuesNamed(WriteKept(scalars, schema, kept).members, Ascii(schema[i].name));
            && |found| <= 1
            && ReadField(if found == [] then None else Some(found[0]), schema[i]) == Some(scalars[i])
  {
    KeptNamesDistinct(schema, kept);
    if i in kept {
      var j :| 0 <= j < |kept| && kept[j] == i;
      KeptFieldFound(KeptNames(schema, kept), KeptValues(scalars, kept), j);
      ScalarReadsBack(scalars[i], schema[i].kind);
    } else {
      var names := Names(schema);
      forall j | 0 <= j < |kept| ensures Ascii(names[kept[j]]) != Ascii(names[i]) {
        assert kept[j] < i || i < kept[j];
      }
      OmittedFieldNotFound(KeptNames(schema, kept), KeptValues(scalars, kept), schema[i].name);
    }
  }

  /** Leaving out marked fields that have their defaults, and writing the others in any order, loses nothing. */
  lemma KeptReadsBack(scalars: seq<Scalar>, schema: seq<FieldSpec>, kept: seq<nat>)
    requires AllFit(scalars, schema) && Distinct(Names(schema)) && KeepsEnough(scalars, schema, kept)
    ensures WellFormed(WriteKept(scalars, schema, kept))
    ensures ReadStruct(WriteKept(scalars, schema, kept), schema) == Some(scalars)
  {
    var v := WriteKept(scalars, schema, kept);
    KeptWellFormed(scalars, schema, kept);
    forall j | 0 <= j < |v.members| ensures DecodeString(v.members[j].key).Some? {
      NameReadsBack(KeptNames(schema, kept)[j]);
    }
    forall i | 0 <= i < |schema|
      ensures var found := ValuesNamed(v.members, Ascii(Names(schema)[i]));
              && |found| <= 1
              && ReadField(if found == [] then None else Some(found[0]), schema[i]) == Some(scalars[i])
    {
      FieldOfKept(scalars, schema, kept, i);
    }
    ReadFromFound(v, schema, scalars);
  }

  lemma KeptWellFormed(scalars: seq<Scalar>, schema: seq<FieldSpec>, kept: seq<nat>)
    requires AllFit(scalars, schema) && forall j :: 0 <= j < |kept| ==> kept[j] < |schema|
    ensures WellFormed(WriteKept(scalars, schema, kept))
  {
    var values := KeptValues(scalars, kept);
    forall j | 0 <= j < |kept| ensures WellFormed(values[j]) {
      ScalarReadsBack(scalars[kept[j]], schema[kept[j]].kind);
    }
    StructWellFormed(KeptNames(schema, kept), values);
  }

  lemma ReadFromFound(v: Value, schema: seq<FieldSpec>, scalars: seq<Scalar>)
    requires v.Object? && KeysDecode(v.members) && |scalars| == |schema|
    requires forall i :: 0 <= i < |schema| ==>
               var found := ValuesNamed(v.members, Ascii(Names(schema)[i]));
               && |found| <= 1
               && ReadField(if found == [] then None else Some(found[0]), schema[i]) == Some(scalars[i])
    ensures ReadStruct(v, schema) == Some(scalars)
  {
    assert forall name <- Names(schema) :: |ValuesNamed(v.members, Ascii(name))| <= 1;
    var fields := StructFields(v, Names(schema)).value;
    assert forall i :: 0 <= i < |schema| ==> ReadField(fields[i], schema[i]) == Some(scalars[i]);
    assert ReadStruct(v, schema).value == scalars;
  }

  // ----- Older tokens -----

  /** Which fields a token may leave out: whatever is left out has its default, and the object reads, as the token it
      was made from, exactly when version, event, expiry and nonce are there. */
  lemma RequiredFieldsExactly(t: AccessToken, kept: seq<nat>)
    requires forall j :: 0 <= j < |kept| ==> kept[j] < 11
    requires forall j, k :: 0 <= j < k < |kept| ==> kept[j] != kept[k]
    requires forall i :: 2 <= i <= 8 && i !in kept ==> TokenScalars(t)[i] == Default(TokenSchema()[i].kind)
    ensures var r := TokenFromJson(WriteKept(TokenScalars(t), TokenSchema(), kept));
            && (r.Some? <==> 0 in kept && 1 in kept && 9 in kept && 10 in kept)
            && (r.Some? ==> r == Some(t))
  {
    TokenFieldsDistinct();
    MarkedFields();
    if 0 in kept && 1 in kept && 9 in kept && 10 in kept {
      KeptReadsBack(TokenScalars(t), TokenSchema(), kept);
    } else {
      var i := if 0 !in kept then 0 else if 1 !in kept then 1 else if 9 !in kept then 9 else 10;
      LeftOutRejected(t, kept, i);
    }
  }

  lemma MarkedFields()
    ensures forall i :: 0 <= i < 11 ==> (TokenSchema()[i].optional <==> 2 <= i <= 8)
  {
  }

  lemma LeftOutRejected(t: AccessToken, kept: seq<nat>, i: nat)
    requires forall j :: 0 <= j < |kept| ==> kept[j] < 11
    requires i < 11 && i !in kept && !TokenSchema()[i].optional && Distinct(Names(TokenSchema()))
    ensures TokenFromJson(WriteKept(TokenScalars(t), TokenSchema(), kept)).None?
  {
    var names := Names(TokenSchema());
    forall j | 0 <= j < |kept| ensures Ascii(names[kept[j]]) != Ascii(names[i]) {
      assert kept[j] < i || i < kept[j];
    }
    OmittedFieldNotFound(KeptNames(TokenSchema(), kept), KeptValues(TokenScalars(t), kept), TokenSchema()[i].name);
    MissingRejected(WriteKept(TokenScalars(t), TokenSchema(), kept).members, TokenSchema(), i);
  }

  /** An object with fewer than eleven members that reads as a token is not the text its signature is checked over. */
  lemma FewerFieldsOtherText(members: seq<Member>, t: AccessToken)
    requires WellFormed(Object(members)) && TokenFromJson(Object(members)) == Some(t) && |members| < 11
    ensures Print(Object(members)) != TokenBytes(t)
  {
    TokenRoundTrip(t);
    DocumentRoundTrip(Object(members));
    DocumentRoundTrip(TokenToJson(t));
  }

  /** Acceptance of a signed token, exactly: the text reads as a signed token, whose signature is the one canonical
      spelling of a signature that the key accepts over all eleven fields of the token, and it has not expired. */
  lemma SignedAcceptedExactly(text: bytes, vk: VerifyingKey, now: u64)
    ensures VerifyTokenString(text, vk, now) <==>
            exists s, signature: Signature ::
              SignedTokenFromJson(text) == Some(s) && SignatureOf(s, signature) && vk(TokenBytes(s.token), signature)
              && now < s.token.expiresAt
  {
    if VerifyTokenString(text, vk, now) {
      var s := SignedTokenFromJson(text).value;
      var signature: Signature := DecodePadded(s.signature).value;
      EncodeDecodePadded(s.signature);
      assert SignatureOf(s, signature);
    }
    forall s, signature: Signature | SignatureOf(s, signature) ensures DecodePadded(s.signature) == Some(signature) {
      DecodeEncodePadded(signature);
    }
  }

  predicate SignatureOf(s: SignedAccessToken, signature: Signature) {
    s.signature == EncodePadded(signature)
  }

  /** A token written with the kept fields only. */
  function OlderToJson(t: AccessToken, kept: seq<nat>): Value
    requires KeepsEnough(TokenScalars(t), TokenSchema(), kept)
  {
    WriteKept(TokenScalars(t), TokenSchema(), kept)
  }

  function OlderSignature(t: AccessToken, kept: seq<nat>, sk: SigningKey): (s: Text)
    requires KeepsEnough(TokenScalars(t), TokenSchema(), kept)
  {
    var signature := sk(Print(OlderToJson(t, kept)));
    DecodeEncodePadded(signature);
    AsciiIsUtf8(EncodePadded(signature));
    EncodePadded(signature)
  }

  /** The string of a token of an older shape, signed over its own text. */
  function OlderString(t: AccessToken, kept: seq<nat>, sk: SigningKey): bytes
    requires KeepsEnough(TokenScalars(t), TokenSchema(), kept)
  {
    Print(StructValue(SIGNED_FIELDS, [OlderToJson(t, kept), WriteScalar(TextScalar(OlderSignature(t, kept, sk)))]))
  }

  /** An older token still reads as the token it was made from. */
  lemma OlderReads(t: AccessToken, kept: seq<nat>, sk: SigningKey)
    requires KeepsEnough(TokenScalars(t), TokenSchema(), kept)
    ensures WellFormed(OlderToJson(t, kept)) && TokenFromJson(OlderToJson(t, kept)) == Some(t)
    ensures SignedTokenFromJson(OlderString(t, kept, sk)) == Some(SignedAccessToken(t, OlderSignature(t, kept, sk)))
  {
    var signature := OlderSignature(t, kept, sk);
    var tokenValue, signatureValue := OlderToJson(t, kept), WriteScalar(TextScalar(signature));
    OlderTokenReads(t, kept);
    ScalarReadsBack(TextScalar(signature), TextKind);
    SignedFieldsFound(tokenValue, signatureValue);
    var v := StructValue(SIGNED_FIELDS, [tokenValue, signatureValue]);
    SignedFieldsRead(v, tokenValue, signatureValue, SignedAccessToken(t, signature));
    DocumentRoundTrip(v);
  }

  lemma OlderTokenReads(t: AccessToken, kept: seq<nat>)
    requires KeepsEnough(TokenScalars(t), TokenSchema(), kept)
    ensures WellFormed(OlderToJson(t, kept)) && TokenFromJson(OlderToJson(t, kept)) == Some(t)
  {
    TokenFieldsDistinct();
    KeptReadsBack(TokenScalars(t), TokenSchema(), kept);
  }

  /** Whatever fields an older token left out, its text is not the one that is checked; and it is accepted if and
      only if the key takes the signature made over the older text for one over all eleven fields, before expiry. */
  lemma OlderAcceptedExactly(t: AccessToken, kept: seq<nat>, sk: SigningKey, vk: VerifyingKey, now: u64)
    requires KeepsEnough(TokenScalars(t), TokenSchema(), kept) && |kept| < 11
    ensures Print(OlderToJson(t, kept)) != TokenBytes(t)
    ensures VerifyTokenString(OlderString(t, kept, sk), vk, now) <==>
            vk(TokenBytes(t), sk(Print(OlderToJson(t, kept)))) && now < t.expiresAt
  {
    OlderReads(t, kept, sk);
    FewerFieldsOtherText(OlderToJson(t, kept).members, t);
    DecodeEncodePadded(sk(Print(OlderToJson(t, kept))));
  }

  /** The key that accepts nothing but what the signing key makes. */
  function ExactKey(sk: SigningKey): VerifyingKey {
    (m, signature) => signature == sk(m)
  }

  /** The older Lightning token of five fields, without those of Stellar: signed by the issuer itself, it reads, and
      a key that accepts exactly what the issuer signs accepts it at no time, unless the two texts happen to have the
      same signature. */
  lemma LightningShapeVerdict(version: u8, eventId: Text, paymentHash: Text, expiresAt: u64, nonce: Text,
                               sk: SigningKey, now: u64)
    ensures var t := AccessToken(version, eventId, paymentHash, [], [], [], [], [], 0, expiresAt, nonce);
            && KeepsEnough(TokenScalars(t), TokenSchema(), LIGHTNING_FIELDS)
            && KeyPair(sk, ExactKey(sk))
            && SignedTokenFromJson(OlderString(t, LIGHTNING_FIELDS, sk)).Some?
            && (VerifyTokenString(OlderString(t, LIGHTNING_FIELDS, sk), ExactKey(sk), now) <==>
                sk(TokenBytes(t)) == sk(Print(OlderToJson(t, LIGHTNING_FIELDS))) && now < expiresAt)
  {
    var t := AccessToken(version, eventId, paymentHash, [], [], [], [], [], 0, expiresAt, nonce);
    LightningKeepsEnough(t);
    OlderReads(t, LIGHTNING_FIELDS, sk);
    OlderAcceptedExactly(t, LIGHTNING_FIELDS, sk, ExactKey(sk), now);
  }

  /** Version, event, payment hash, expiry and nonce. */
  const LIGHTNING_FIELDS: seq<nat> := [0, 1, 2, 9, 10]

  lemma LightningKeepsEnough(t: AccessToken)
    requires t.txHash == [] && t.source == [] && t.amount == [] && t.asset == [] && t.memo == [] && t.ledger == 0
    ensures KeepsEnough(TokenScalars(t), TokenSchema(), LIGHTNING_FIELDS)
  {
    assert LIGHTNING_FIELDS[0] == 0 && LIGHTNING_FIELDS[1] == 1 && LIGHTNING_FIELDS[2] == 2;
    assert LIGHTNING_FIELDS[3] == 9 && LIGHTNING_FIELDS[4] == 10;
  }
}
