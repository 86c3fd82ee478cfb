/** The offline verdict of the verifier: a signed JSON token first, a compact token otherwise. */
module Gate {
  import opened Bytes
  import opened Wrappers
  import opened Trimming
  import opened Base64
  import opened Json
  import opened Signing
  import opened CompactToken
  import opened SignedToken
  import opened Issuance

  // ----- The verdict -----

  predicate IsExpired(expiresAt: u64, now: u64) {
    now > expiresAt
  }

  /** `run` on a given token text. The clock is read once for each format, the second time no earlier
      than the first. */
  predicate Admits(input: bytes, vk: VerifyingKey, first: u64, second: u64) {
    var token := Trim(input);
    if VerifyTokenString(token, vk, first) then
      true
    else
      match VerifyCompactToken(token, vk)
      case Err(_) => false
      case Ok(payload) => !IsExpired(payload.expiresAt, second)
  }

  // ----- No string is a token in both formats -----

  /** Where an object or an array was read, the text starts with white space or an opening bracket. */
  lemma CompositeStart(text: bytes)
    requires ParseDocument(text).Some?
    requires ParseDocument(text).value.Object? || ParseDocument(text).value.Array?
    ensures text != []
    ensures IsSpace(text[0]) || text[0] == OPEN_BRACE || text[0] == OPEN_BRACKET
  {
  }

  lemma SignedTokenStart(text: bytes)
    requires SignedTokenFromJson(text).Some?
    ensures text != [] && text[0] != PERIOD && !InAlphabet(UrlSafe, text[0])
  {
    SignedIsComposite(ParseDocument(text).value);
    CompositeStart(text);
    CompositeStartByte(text[0]);
  }

  lemma CompositeStartByte(b: byte)
    requires IsSpace(b) || b == OPEN_BRACE || b == OPEN_BRACKET
    ensures b != PERIOD && !InAlphabet(UrlSafe, b)
  {
  }

  lemma SignedIsComposite(v: Value)
    requires SignedFromJson(v).Some?
    ensures v.Object? || v.Array?
  {
  }

  lemma CompactTokenStart(text: bytes, vk: VerifyingKey)
    requires VerifyCompactToken(text, vk).Ok?
    ensures text != [] && (text[0] == PERIOD || InAlphabet(UrlSafe, text[0]))
  {
    if text[0] != PERIOD && !InAlphabet(UrlSafe, text[0]) {
      BadStartRejected(UrlSafe, SplitAtPeriod(text).value.0);
    }
  }

  /** A string that parses as a signed token is never accepted as a compact token, whatever the key. */
  lemma FormatsDisjoint(text: bytes, vk: VerifyingKey)
    ensures !(SignedTokenFromJson(text).Some? && VerifyCompactToken(text, vk).Ok?)
  {
    if SignedTokenFromJson(text).Some? && VerifyCompactToken(text, vk).Ok? {
      SignedTokenStart(text);
      CompactTokenStart(text, vk);
    }
  }

  // ----- The verdict over time -----

  /** A text that parses as a signed token is admitted exactly when its signature verifies and the
      clock is before its expiry: the fallback never revives it. */
  lemma SignedVerdict(input: bytes, vk: VerifyingKey, first: u64, second: u64)
    requires SignedTokenFromJson(Trim(input)).Some?
    ensures Admits(input, vk, first, second) <==>
            VerifySignedTokenAt(SignedTokenFromJson(Trim(input)).value, vk, first).Ok?
  {
    FormatsDisjoint(Trim(input), vk);
  }

  /** Every other text is admitted exactly when it is an accepted compact token whose expiry the clock
      has not passed. */
  lemma CompactVerdict(input: bytes, vk: VerifyingKey, first: u64, second: u64)
    requires SignedTokenFromJson(Trim(input)).None?
    ensures Admits(input, vk, first, second) <==>
            exists p :: VerifyCompactToken(Trim(input), vk) == Ok(p) && second <= p.expiresAt
  {
  }

  /** What is admitted now was admitted at every earlier time. */
  lemma AdmittedEarlier(input: bytes, vk: VerifyingKey, first: u64, second: u64, first': u64, second': u64)
    requires first' <= first && second' <= second
    requires Admits(input, vk, first, second)
    ensures Admits(input, vk, first', second')
  {
  }

  /** White space around a text with plain ends, such as a token, does not matter. */
  lemma SpacesIgnored(before: seq<bytes>, text: bytes, after: seq<bytes>, vk: VerifyingKey, first: u64, second: u64)
    requires SpaceChars(before) && SpaceChars(after) && HasPlainEnds(text)
    ensures Admits(Flat(before) + text + Flat(after), vk, first, second) <==> Admits(text, vk, first, second)
  {
    TrimSurrounded(before, text, after);
    TrimKeeps(text);
  }

  // ----- From the issuer to the gate -----

  /** Bounds of a printed object. */
  lemma ObjectBounds(members: seq<Member>)
    ensures var s := Print(Object(members)); s != [] && s[0] == OPEN_BRACE && s[|s| - 1] == CLOSE_BRACE
  {
    if members != [] {
      MembersEnd(members);
    }
  }

  lemma {:induction false} MembersEnd(members: seq<Member>)
    requires members != []
    ensures var s := PrintMembers(members); s != [] && s[|s| - 1] == CLOSE_BRACE
  {
    if |members| > 1 {
      MembersEnd(members[1..]);
    }
  }

  lemma SignedTextBounds(s: SignedAccessToken)
    ensures var text := SignedTokenToJson(s); text != [] && text[0] == OPEN_BRACE && text[|text| - 1] == CLOSE_BRACE
  {
    ObjectBounds(SignedToJson(s).members);
  }

  /** Issue to gate, Stellar path: whatever the payment and the event say, the issued string is the
      token it was made from, and the gate admits it exactly before its expiry. */
  lemma IssuedTokenAtGate(event: PaymentEvent, eventId: Text, expiresAt: u64, nonce: Text, sk: SigningKey,
                          vk: VerifyingKey, qr: Renderer, first: u64, second: u64)
    requires KeyPair(sk, vk)
    requires IssueToken(event, eventId, expiresAt, nonce, sk, qr).Some?
    ensures var artifact := IssueToken(event, eventId, expiresAt, nonce, sk, qr).value;
            var signed := SignedTokenFromJson(artifact.token);
            && signed.Some?
            && signed.value.token == AccessToken(1, eventId, [], event.txHash, event.sourceAccount, event.amount, event.asset,
                                                 event.memo, event.ledgerSequence, expiresAt, nonce)
            && HasPlainEnds(artifact.token)
            && (Admits(artifact.token, vk, first, second) <==> first < expiresAt)
  {
    SignedTextAtGate(TokenFor(event, eventId, expiresAt, nonce), sk, vk, first, second);
  }

  lemma SignedTextAtGate(token: AccessToken, sk: SigningKey, vk: VerifyingKey, first: u64, second: u64)
    requires KeyPair(sk, vk)
    ensures var text := SignedTokenToJson(SignToken(token, sk));
            && SignedTokenFromJson(text) == Some(SignToken(token, sk))
            && HasPlainEnds(text)
            && (Admits(text, vk, first, second) <==> first < token.expiresAt)
  {
    var signed := SignToken(token, sk);
    SignedTextRoundTrip(signed);
    SignedTextBounds(signed);
    TrimKeeps(SignedTokenToJson(signed));
    SignedTokenAccepted(token, sk, vk, first);
    SignedVerdict(SignedTokenToJson(signed), vk, first, second);
  }

  lemma EncodedNonempty(data: bytes)
    requires data != []
    ensures EncodeUnpadded(UrlSafe, data) != []
  {
    SextetCount(data);
  }

  /** Issue to gate, Lightning path: the gate admits the compact token exactly through its expiry. */
  lemma CompactTokenAtGate(p: CompactPayload, sk: SigningKey, vk: VerifyingKey, first: u64, second: u64)
    requires KeyPair(sk, vk)
    ensures HasPlainEnds(SignCompactPayload(p, sk))
    ensures Admits(SignCompactPayload(p, sk), vk, first, second) <==> second <= p.expiresAt
  {
    var token := SignCompactPayload(p, sk);
    CompactRoundTrip(p, sk, vk);
    CompactTextBounds(PayloadBytes(p), sk(PayloadBytes(p)));
    TrimKeeps(token);
    FormatsDisjoint(token, vk);
    CompactVerdict(token, vk, first, second);
  }

  lemma CompactTextBounds(payload: bytes, signature: bytes)
    requires signature != []
    ensures HasPlainEnds(Assemble(payload, signature))
  {
    var a, b := EncodeUnpadded(UrlSafe, payload), EncodeUnpadded(UrlSafe, signature);
    EncodedInAlphabet(UrlSafe, payload);
    EncodedInAlphabet(UrlSafe, signature);
    EncodedNonempty(signature);
    SpaceNotInAlphabet();
    var token := Assemble(payload, signature);
    assert token[|token| - 1] == b[|b| - 1] && b[|b| - 1] in b;
    assert a != [] ==> token[0] == a[0] && a[0] in a;
  }

  lemma SpaceNotInAlphabet()
    ensures forall c :: IsAsciiSpace(c) ==> !InAlphabet(UrlSafe, c)
  {
  }
}
