/** The compact token of the Lightning path: base64url of a JSON payload, a '.', base64url of its signature. */
module CompactToken {
  import opened Bytes
  import opened Wrappers
  import opened Base64
  import opened Json
  import opened JsonRoundTrip
  import opened JsonFields
  import opened Signing

  datatype CompactPayload = CompactPayload(paymentHash: Text, expiresAt: u64, eventId: Text)

  datatype CompactVerifyError =
    | InvalidFormat
    | InvalidPayload
    | InvalidSignature
    | InvalidSignatureLength
    | InvalidBase64

  const PERIOD: byte := 0x2E // '.'

  // ----- The payload as JSON -----

  function Schema(): seq<FieldSpec> {
    [FieldSpec("payment_hash", TextKind, false),
     FieldSpec("expires_at", UnsignedKind(U64_MAX), false),
     FieldSpec("event_id", TextKind, false)]
  }

  function Scalars(p: CompactPayload): (scalars: seq<Scalar>)
    ensures AllFit(scalars, Schema())
  {
    [TextScalar(p.paymentHash), UnsignedScalar(p.expiresAt), TextScalar(p.eventId)]
  }

  function ToJson(p: CompactPayload): Value {
    WriteStruct(Scalars(p), Schema())
  }

  function FromJson(v: Value): Option<CompactPayload> {
    var scalars :- ReadStruct(v, Schema());
    assert Fits(scalars[0], Schema()[0].kind) && Fits(scalars[1], Schema()[1].kind) && Fits(scalars[2], Schema()[2].kind);
    Some(CompactPayload(scalars[0].text, scalars[1].n, scalars[2].text))
  }

  function PayloadBytes(p: CompactPayload): bytes {
    Print(ToJson(p))
  }

  function ParsePayload(data: bytes): Option<CompactPayload> {
    var v :- ParseDocument(data);
    FromJson(v)
  }

  // ----- Signing and verifying -----

  /** The wire form of a payload and a signature over it. */
  function Assemble(payload: bytes, signature: bytes): bytes {
    EncodeUnpadded(UrlSafe, payload) + [PERIOD] + EncodeUnpadded(UrlSafe, signature)
  }

  function SignCompactPayload(p: CompactPayload, sk: SigningKey): bytes {
    Assemble(PayloadBytes(p), sk(PayloadBytes(p)))
  }

  /** Splits at the first '.', if there is one. */
  function SplitAtPeriod(s: bytes): Option<(bytes, bytes)> {
    if s == [] then
      None
    else if s[0] == PERIOD then
      Some(([], s[1..]))
    else
      var parts :- SplitAtPeriod(s[1..]);
      Some(([s[0]] + parts.0, parts.1))
  }

  function VerifyCompactToken(token: bytes, vk: VerifyingKey): Result<CompactPayload, CompactVerifyError> {
    match SplitAtPeriod(token)
    case None => Err(InvalidFormat)
    case Some((payloadText, signatureText)) =>
      match DecodeUnpadded(UrlSafe, payloadText)
      case None => Err(InvalidBase64)
      case Some(payload) =>
        match DecodeUnpadded(UrlSafe, signatureText)
        case None => Err(InvalidBase64)
        case Some(signature) =>
          if |signature| != SIGNATURE_LENGTH then
            Err(InvalidSignatureLength)
          else if !vk(payload, signature) then
            Err(InvalidSignature)
          else
            match ParsePayload(payload)
            case None => Err(InvalidPayload)
            case Some(p) => Ok(p)
  }

  // ----- Properties -----

  /** The bytes that are signed, spelled out: the three fields in declaration order, without white space. */
  lemma PayloadSpelling(p: CompactPayload)
    ensures PayloadBytes(p) == SpelledObject(["payment_hash", "expires_at", "event_id"],
                                             [TextScalar(p.paymentHash), UnsignedScalar(p.expiresAt), TextScalar(p.eventId)])
  {
    var names := ["payment_hash", "expires_at", "event_id"];
    assert IsPlain(names[0]) && IsPlain(names[1]) && IsPlain(names[2]);
    assert Names(Schema()) == names;
    PrintedStruct(Scalars(p), Schema());
  }

  lemma PayloadRoundTrip(p: CompactPayload)
    ensures ParsePayload(PayloadBytes(p)) == Some(p)
  {
    DistinctByFingerprint(Names(Schema()), [12 * 256 + 112, 10 * 256 + 101, 8 * 256 + 101]);
    StructRoundTrip(Scalars(p), Schema());
    DocumentRoundTrip(ToJson(p));
  }

  /** All three fields are required. */
  lemma PayloadFieldsRequired(members: seq<Member>, name: string)
    requires name in ["payment_hash", "expires_at", "event_id"] && ValuesNamed(members, Ascii(name)) == []
    ensures FromJson(Object(members)).None?
  {
    assert Schema()[0].name == "payment_hash" && Schema()[1].name == "expires_at" && Schema()[2].name == "event_id";
    MissingRejected(members, Schema(), if name == "payment_hash" then 0 else if name == "expires_at" then 1 else 2);
  }

  lemma {:induction false} SplitsAtFirstPeriod(a: bytes, b: bytes)
    requires PERIOD !in a
    ensures SplitAtPeriod(a + [PERIOD] + b) == Some((a, b))
  {
    var s := a + [PERIOD] + b;
    if a == [] {
      assert s[1..] == b;
    } else {
      assert s[1..] == a[1..] + [PERIOD] + b;
      SplitsAtFirstPeriod(a[1..], b);
      assert a == [a[0]] + a[1..];
    }
  }

  lemma {:induction false} SplitRejoins(s: bytes)
    requires SplitAtPeriod(s).Some?
    ensures var (a, b) := SplitAtPeriod(s).value; s == a + [PERIOD] + b && PERIOD !in a
  {
    if s[0] != PERIOD {
      SplitRejoins(s[1..]);
      var (a, b) := SplitAtPeriod(s[1..]).value;
      assert s == [s[0]] + s[1..] == ([s[0]] + a) + [PERIOD] + b;
    } else {
      assert s == [] + [PERIOD] + s[1..];
    }
  }

  /** The parts of an assembled token come back, so the first '.' is the separator. */
  lemma AssembleSplits(payload: bytes, signature: bytes)
    ensures SplitAtPeriod(Assemble(payload, signature)) ==
            Some((EncodeUnpadded(UrlSafe, payload), EncodeUnpadded(UrlSafe, signature)))
    ensures DecodeUnpadded(UrlSafe, EncodeUnpadded(UrlSafe, payload)) == Some(payload)
    ensures DecodeUnpadded(UrlSafe, EncodeUnpadded(UrlSafe, signature)) == Some(signature)
  {
    EncodedInAlphabet(UrlSafe, payload);
    SextetRoundTrip(UrlSafe);
    SplitsAtFirstPeriod(EncodeUnpadded(UrlSafe, payload), EncodeUnpadded(UrlSafe, signature));
    DecodeEncode(UrlSafe, payload);
    DecodeEncode(UrlSafe, signature);
  }

  /** A token signed by the issuer verifies to exactly the payload that was signed. */
  lemma CompactRoundTrip(p: CompactPayload, sk: SigningKey, vk: VerifyingKey)
    requires KeyPair(sk, vk)
    ensures VerifyCompactToken(SignCompactPayload(p, sk), vk) == Ok(p)
    ensures SignCompactPayload(p, sk) == SpelledToken(PayloadBytes(p), sk(PayloadBytes(p)))
  {
    AssembleSplits(PayloadBytes(p), sk(PayloadBytes(p)));
    PayloadRoundTrip(p);
    assert vk(PayloadBytes(p), sk(PayloadBytes(p)));
  }

  /** A compact token, spelled out: the payload, a period, the signature. */
  function SpelledToken(payload: bytes, signature: bytes): bytes {
    EncodeUnpadded(UrlSafe, payload) + [0x2E] + EncodeUnpadded(UrlSafe, signature)
  }

  /** The payload bytes, signature and payload that a string carries as a compact token. */
  ghost predicate Carries(token: bytes, payload: bytes, signature: Signature, p: CompactPayload) {
    |signature| == 64 && token == SpelledToken(payload, signature) && ParsePayload(payload) == Some(p)
  }

  /** Acceptance, exactly: the string is the one canonical spelling of some payload and signature that
      the key accepts, and the payload parses to the result. */
  lemma AcceptedExactly(token: bytes, vk: VerifyingKey, p: CompactPayload)
    ensures VerifyCompactToken(token, vk) == Ok(p) <==>
            exists payload, signature: Signature :: vk(payload, signature) && Carries(token, payload, signature, p)
  {
    if VerifyCompactToken(token, vk) == Ok(p) {
      SplitRejoins(token);
      var (a, b) := SplitAtPeriod(token).value;
      var payload, signature: Signature := DecodeUnpadded(UrlSafe, a).value, DecodeUnpadded(UrlSafe, b).value;
      EncodeDecode(UrlSafe, a);
      EncodeDecode(UrlSafe, b);
      assert vk(payload, signature) && Carries(token, payload, signature, p);
    }
    if exists payload, signature: Signature :: vk(payload, signature) && Carries(token, payload, signature, p) {
      var payload, signature: Signature :| vk(payload, signature) && Carries(token, payload, signature, p);
      AssembleSplits(payload, signature);
    }
  }

  /** A string without a period, and no other, has an invalid format. */
  lemma FormatErrorExactly(token: bytes, vk: VerifyingKey)
    ensures VerifyCompactToken(token, vk) == Err(InvalidFormat) <==> 0x2E !in token
  {
    if SplitAtPeriod(token).Some? {
      SplitRejoins(token);
    } else {
      NoSplitNoPeriod(token);
    }
  }

  lemma {:induction false} NoSplitNoPeriod(token: bytes)
    requires SplitAtPeriod(token).None?
    ensures PERIOD !in token
  {
    if token != [] {
      NoSplitNoPeriod(token[1..]);
      assert token == [token[0]] + token[1..];
    }
  }

  /** Which error any other string gives, by what is before and after its first period. */
  lemma ErrorsExactly(a: bytes, b: bytes, vk: VerifyingKey)
    requires 0x2E !in a
    ensures var r := VerifyCompactToken(a + [0x2E] + b, vk);
            var payload, signature := DecodeUnpadded(UrlSafe, a), DecodeUnpadded(UrlSafe, b);
            && (r == Err(InvalidBase64) <==> payload.None? || signature.None?)
            && (r == Err(InvalidSignatureLength) <==> payload.Some? && signature.Some? && |signature.value| != 64)
            && (r == Err(InvalidSignature) <==>
                payload.Some? && signature.Some? && |signature.value| == 64 && !vk(payload.value, signature.value))
            && (r == Err(InvalidPayload) <==>
                && payload.Some? && signature.Some? && |signature.value| == 64 && vk(payload.value, signature.value)
                && ParsePayload(payload.value).None?)
  {
    SplitsAtFirstPeriod(a, b);
  }

  /** The decoded parts of an accepted token. */
  function Parts(token: bytes): Option<(bytes, bytes)> {
    var (a, b) :- SplitAtPeriod(token);
    var payload :- DecodeUnpadded(UrlSafe, a);
    var signature :- DecodeUnpadded(UrlSafe, b);
    Some((payload, signature))
  }

  /** Two accepted strings with the same payload bytes and signature bytes are the same string. */
  lemma CanonicalForm(s: bytes, t: bytes, vk: VerifyingKey)
    requires VerifyCompactToken(s, vk).Ok? && VerifyCompactToken(t, vk).Ok?
    ensures Parts(s).Some? && Parts(t).Some?
    ensures Parts(s) == Parts(t) ==> s == t
  {
    SplitRejoins(s);
    SplitRejoins(t);
    var (a, b) := SplitAtPeriod(s).value;
    var (c, d) := SplitAtPeriod(t).value;
    EncodeDecode(UrlSafe, a);
    EncodeDecode(UrlSafe, b);
    EncodeDecode(UrlSafe, c);
    EncodeDecode(UrlSafe, d);
  }

  /** A token is ASCII, so it is also a Rust `String`. */
  lemma TokenIsText(p: CompactPayload, sk: SigningKey)
    ensures IsUtf8(SignCompactPayload(p, sk))
  {
    var token := SignCompactPayload(p, sk);
    EncodedInAlphabet(UrlSafe, PayloadBytes(p));
    EncodedInAlphabet(UrlSafe, sk(PayloadBytes(p)));
    AsciiIsUtf8(token);
  }
}
