/** The signed JSON token of the Stellar path. Verification serialises the parsed token again and
    checks the signature over that text, not over the text it was given. */
module SignedToken {
  import opened Bytes
  import opened Wrappers
  import opened Base64
  import opened Json
  import opened JsonRoundTrip
  import opened JsonGrammar
  import opened JsonText
  import opened JsonFields
  import opened Signing

  datatype AccessToken = AccessToken(
    version: u8,
    eventId: Text,
    paymentHash: Text,
    txHash: Text,
    source: Text,
    amount: Text,
    asset: Text,
    memo: Text,
    ledger: u32,
    expiresAt: u64,
    nonce: Text)

  datatype SignedAccessToken = SignedAccessToken(token: AccessToken, signature: Text)

  datatype VerifyError =
    | Decode
    | InvalidSignatureLength
    | InvalidSignature
    | InvalidToken
    | Expired(now: u64, expiresAt: u64)

  /** A token for a Stellar payment; the Lightning payment hash is left empty. */
  function NewStellar(version: u8, eventId: Text, txHash: Text, source: Text, amount: Text, asset: Text, memo: Text,
                      ledger: u32, expiresAt: u64, nonce: Text): AccessToken {
    AccessToken(version, eventId, [], txHash, source, amount, asset, memo, ledger, expiresAt, nonce)
  }

  // ----- JSON forms -----

  function TokenSchema(): (schema: seq<FieldSpec>)
    ensures |schema| == 11
  {
    [FieldSpec("version", UnsignedKind(U8_MAX), false),
     FieldSpec("event_id", TextKind, false),
     FieldSpec("payment_hash", TextKind, true),
     FieldSpec("tx_hash", TextKind, true),
     FieldSpec("source", TextKind, true),
     FieldSpec("amount", TextKind, true),
     FieldSpec("asset", TextKind, true),
     FieldSpec("memo", TextKind, true),
     FieldSpec("ledger", UnsignedKind(U32_MAX), true),
     FieldSpec("expires_at", UnsignedKind(U64_MAX), false),
     FieldSpec("nonce", TextKind, false)]
  }

  function TokenScalars(t: AccessToken): (scalars: seq<Scalar>)
    ensures AllFit(scalars, TokenSchema())
  {
    [UnsignedScalar(t.version), TextScalar(t.eventId), TextScalar(t.paymentHash), TextScalar(t.txHash),
     TextScalar(t.source), TextScalar(t.amount), TextScalar(t.asset), TextScalar(t.memo), UnsignedScalar(t.ledger),
     UnsignedScalar(t.expiresAt), TextScalar(t.nonce)]
  }

  function TokenOfScalars(s: seq<Scalar>): (t: AccessToken)
    requires AllFit(s, TokenSchema())
  {
    assert forall i :: 0 <= i < 11 ==> Fits(s[i], TokenSchema()[i].kind);
    AccessToken(s[0].n, s[1].text, s[2].text, s[3].text, s[4].text, s[5].text, s[6].text, s[7].text, s[8].n, s[9].n,
                s[10].text)
  }

  function TokenToJson(t: AccessToken): Value {
    WriteStruct(TokenScalars(t), TokenSchema())
  }

  function TokenFromJson(v: Value): Option<AccessToken> {
    var scalars :- ReadStruct(v, TokenSchema());
    Some(TokenOfScalars(scalars))
  }

  const SIGNED_FIELDS: seq<string> := ["token", "signature"]

  function SignedToJson(s: SignedAccessToken): Value {
    StructValue(SIGNED_FIELDS, [TokenToJson(s.token), WriteScalar(TextScalar(s.signature))])
  }

  function SignedFromJson(v: Value): Option<SignedAccessToken> {
    var fields :- StructFields(v, SIGNED_FIELDS);
    var tokenValue :- fields[0];
    var token :- TokenFromJson(tokenValue);
    var signature :- ReadField(fields[1], FieldSpec("signature", TextKind, false));
    Some(SignedAccessToken(token, signature.text))
  }

  function TokenBytes(t: AccessToken): bytes {
    Print(TokenToJson(t))
  }

  function SignedTokenToJson(s: SignedAccessToken): bytes {
    Print(SignedToJson(s))
  }

  function SignedTokenFromJson(text: bytes): Option<SignedAccessToken> {
    var v :- ParseDocument(text);
    SignedFromJson(v)
  }

  // ----- Signing and verifying -----

  function SignToken(t: AccessToken, sk: SigningKey): SignedAccessToken {
    var signature := EncodePadded(sk(TokenBytes(t)));
    DecodeEncodePadded(sk(TokenBytes(t)));
    AsciiIsUtf8(signature);
    SignedAccessToken(t, signature)
  }

  function VerifySignedTokenAt(s: SignedAccessToken, vk: VerifyingKey, now: u64): Result<(), VerifyError> {
    match DecodePadded(s.signature)
    case None => Err(Decode)
    case Some(signature) =>
      if |signature| != SIGNATURE_LENGTH then
        Err(InvalidSignatureLength)
      else if !vk(TokenBytes(s.token), signature) then
        Err(InvalidSignature)
      else if s.token.expiresAt <= now then
        Err(Expired(now, s.token.expiresAt))
      else
        Ok(())
  }

  /** Whether a string verifies as a signed token at a time. */
  predicate VerifyTokenString(text: bytes, vk: VerifyingKey, now: u64) {
    match SignedTokenFromJson(text)
    case None => false
    case Some(signed) => VerifySignedTokenAt(signed, vk, now).Ok?
  }

  // ----- Properties -----

  lemma TokenFieldsDistinct()
    ensures Distinct(Names(TokenSchema()))
  {
    DistinctByFingerprint(Names(TokenSchema()), [1910, 2149, 3184, 1908, 1651, 1633, 1377, 1133, 1644, 2661, 1390]);
  }

  lemma TokenRoundTrip(t: AccessToken)
    ensures WellFormed(TokenToJson(t)) && TokenFromJson(TokenToJson(t)) == Some(t)
  {
    TokenFieldsDistinct();
    StructRoundTrip(TokenScalars(t), TokenSchema());
  }

  /** The eleven names, in declaration order. */
  const TOKEN_NAMES: seq<string> := ["version", "event_id", "payment_hash", "tx_hash", "source", "amount", "asset", "memo",
                                     "ledger", "expires_at", "nonce"]

  /** The text of a token that is signed and checked: its fields under their names in this order, without white space. */
  lemma TokenSpelling(t: AccessToken)
    ensures TokenBytes(t) ==
            SpelledObject(TOKEN_NAMES,
                          [UnsignedScalar(t.version), TextScalar(t.eventId), TextScalar(t.paymentHash), TextScalar(t.txHash),
                           TextScalar(t.source), TextScalar(t.amount), TextScalar(t.asset), TextScalar(t.memo),
                           UnsignedScalar(t.ledger), UnsignedScalar(t.expiresAt), TextScalar(t.nonce)])
  {
    TokenNamesPlain();
    PrintedStruct(TokenScalars(t), TokenSchema());
  }

  lemma TokenNamesPlain()
    ensures Names(TokenSchema()) == TOKEN_NAMES
    ensures forall i :: 0 <= i < 11 ==> IsPlain(TokenSchema()[i].name)
  {
    assert IsPlain("version") && IsPlain("event_id") && IsPlain("payment_hash") && IsPlain("tx_hash") && IsPlain("source");
    assert IsPlain("amount") && IsPlain("asset") && IsPlain("memo") && IsPlain("ledger") && IsPlain("expires_at");
    assert IsPlain("nonce");
  }

  /** The string of a signed token, spelled out. */
  lemma SignedSpelling(s: SignedAccessToken)
    ensures SignedTokenToJson(s) ==
            [OPEN_BRACE] + Joined([Quoted(Ascii("token")) + [COLON] + TokenBytes(s.token),
                                   Spelled("signature", TextScalar(s.signature))]) + [CLOSE_BRACE]
  {
    var parts := [Quoted(Ascii("token")) + [COLON] + TokenBytes(s.token), Spelled("signature", TextScalar(s.signature))];
    var members := SignedToJson(s).members;
    SignedMembers(s);
    NamePrinted("token");
    PrintedField("signature", TextScalar(s.signature));
    assert PrintField(members[0]) == parts[0] && PrintField(members[1]) == parts[1];
    MembersJoined(members, parts);
    BracesAround(members, Joined(parts));
  }

  lemma SignedMembers(s: SignedAccessToken)
    ensures IsPlain("token") && IsPlain("signature")
    ensures SignedToJson(s) == Object([Member(Escape(Ascii("token")), TokenToJson(s.token)),
                                       FieldOf("signature", TextScalar(s.signature))])
  {
  }

  lemma NamePrinted(name: string)
    requires IsPlain(name)
    ensures Escape(Ascii(name)) == Ascii(name)
  {
    PlainUnescaped(Ascii(name));
  }

  /** The two fields of a signed token, once found, give the token. */
  lemma SignedFieldsRead(v: Value, tokenValue: Value, signatureValue: Value, s: SignedAccessToken)
    requires TokenFromJson(tokenValue) == Some(s.token)
    requires ReadScalar(signatureValue, TextKind) == Some(TextScalar(s.signature))
    requires StructFields(v, SIGNED_FIELDS) == Some([Some(tokenValue), Some(signatureValue)])
    ensures SignedFromJson(v) == Some(s)
  {
  }

  lemma SignedFieldsFound(tokenValue: Value, signatureValue: Value)
    ensures StructFields(StructValue(SIGNED_FIELDS, [tokenValue, signatureValue]), SIGNED_FIELDS) ==
            Some([Some(tokenValue), Some(signatureValue)])
    ensures WellFormed(tokenValue) && WellFormed(signatureValue) ==>
              WellFormed(StructValue(SIGNED_FIELDS, [tokenValue, signatureValue]))
  {
    var values := [tokenValue, signatureValue];
    DistinctByFingerprint(SIGNED_FIELDS, [5 * 256 + 116, 9 * 256 + 115]);
    FieldsReadBack(SIGNED_FIELDS, values);
    var fields := StructFields(StructValue(SIGNED_FIELDS, values), SIGNED_FIELDS).value;
    assert fields == [Some(tokenValue), Some(signatureValue)];
    if WellFormed(tokenValue) && WellFormed(signatureValue) {
      StructWellFormed(SIGNED_FIELDS, values);
    }
  }

  lemma SignedRoundTrip(s: SignedAccessToken)
    ensures WellFormed(SignedToJson(s)) && SignedFromJson(SignedToJson(s)) == Some(s)
  {
    var tokenValue, signatureValue := TokenToJson(s.token), WriteScalar(TextScalar(s.signature));
    TokenRoundTrip(s.token);
    ScalarReadsBack(TextScalar(s.signature), TextKind);
    SignedFieldsFound(tokenValue, signatureValue);
    SignedFieldsRead(SignedToJson(s), tokenValue, signatureValue, s);
  }

  /** The string of a signed token parses back to the same struct, for every token. */
  lemma SignedTextRoundTrip(s: SignedAccessToken)
    ensures SignedTokenFromJson(SignedTokenToJson(s)) == Some(s)
  {
    SignedRoundTrip(s);
    DocumentRoundTrip(SignedToJson(s));
  }

  /** A token signed by the issuer is accepted at exactly the times before its expiry. */
  lemma SignedTokenAccepted(t: AccessToken, sk: SigningKey, vk: VerifyingKey, now: u64)
    requires KeyPair(sk, vk)
    ensures VerifySignedTokenAt(SignToken(t, sk), vk, now) ==
            if now < t.expiresAt then Ok(()) else Err(Expired(now, t.expiresAt))
    ensures VerifyTokenString(SignedTokenToJson(SignToken(t, sk)), vk, now) <==> now < t.expiresAt
  {
    DecodeEncodePadded(sk(TokenBytes(t)));
    SignedTextRoundTrip(SignToken(t, sk));
    assert vk(TokenBytes(t), sk(TokenBytes(t)));
  }

  /** Which error verification gives: a signature that does not decode or has the wrong length comes first, then one
      the key rejects, and only an accepted one is reported as expired, from the instant of expiry on. */
  lemma SignedErrorsExactly(s: SignedAccessToken, vk: VerifyingKey, now: u64)
    ensures var r, signature := VerifySignedTokenAt(s, vk, now), DecodePadded(s.signature);
            && (r == Err(Decode) <==> signature.None?)
            && (r == Err(InvalidSignatureLength) <==> signature.Some? && |signature.value| != 64)
            && (r == Err(InvalidSignature) <==>
                signature.Some? && |signature.value| == 64 && !vk(TokenBytes(s.token), signature.value))
            && (r == Err(Expired(now, s.token.expiresAt)) <==>
                && signature.Some? && |signature.value| == 64 && vk(TokenBytes(s.token), signature.value)
                && s.token.expiresAt <= now)
            && (r == Ok(()) <==>
                && signature.Some? && |signature.value| == 64 && vk(TokenBytes(s.token), signature.value)
                && now < s.token.expiresAt)
  {
  }

  // ----- A token sent through a JSON library that reorders or reformats it -----

  /** The document of a signed token whose two objects have their members in some other order, as the
      status route produces by way of a sorted map. */
  ghost predicate Rearranges(v: Value, inner: seq<Member>, s: SignedAccessToken) {
    && multiset(inner) == multiset(TokenToJson(s.token).members)
    && v.Object?
    && multiset(v.members) == multiset(OuterMembers(inner, s.signature))
  }

  function OuterMembers(inner: seq<Member>, signature: Text): seq<Member> {
    StructValue(SIGNED_FIELDS, [Object(inner), WriteScalar(TextScalar(signature))]).members
  }

  /** Reordering members and adding or removing whitespace never changes what a token says, so it
      never changes the verdict. */
  lemma RearrangedTokenReads(text: bytes, v: Value, inner: seq<Member>, s: SignedAccessToken)
    requires IsDocument(text, v) && Rearranges(v, inner, s)
    ensures SignedTokenFromJson(text) == Some(s)
  {
    ParsesExactly(text, v);
    var signatureValue := WriteScalar(TextScalar(s.signature));
    InnerReads(inner, s.token);
    ScalarReadsBack(TextScalar(s.signature), TextKind);
    SignedFieldsFound(Object(inner), signatureValue);
    FieldOrderIrrelevant(v.members, OuterMembers(inner, s.signature), SIGNED_FIELDS);
    SignedFieldsRead(v, Object(inner), signatureValue, s);
  }

  lemma InnerReads(inner: seq<Member>, t: AccessToken)
    requires multiset(inner) == multiset(TokenToJson(t).members)
    ensures TokenFromJson(Object(inner)) == Some(t)
  {
    TokenRoundTrip(t);
    FieldOrderIrrelevant(inner, TokenToJson(t).members, Names(TokenSchema()));
  }
}
