/** Issuing an access artifact for a confirmed payment. */
module Issuance {
  import opened Bytes
  import opened Wrappers
  import opened Signing
  import opened SignedToken

  /** A confirmed payment as the payment provider reports it. */
  datatype PaymentEvent = PaymentEvent(
    txHash: Text,
    sourceAccount: Text,
    destinationAccount: Text,
    amount: Text,
    asset: Text,
    memo: Text,
    ledgerSequence: u32,
    confirmedAt: u64)

  datatype AccessArtifact = AccessArtifact(token: bytes, qrPng: bytes, qrAscii: bytes, txHash: Text)

  /** QR rendering, which fails when the payload does not fit into a QR code. */
  datatype Renderer = Renderer(png: bytes -> Option<bytes>, ascii: bytes -> Option<bytes>)

  const TOKEN_VERSION: u8 := 1

  function TokenFor(event: PaymentEvent, eventId: Text, expiresAt: u64, nonce: Text): AccessToken {
    NewStellar(TOKEN_VERSION, eventId, event.txHash, event.sourceAccount, event.amount, event.asset, event.memo,
               event.ledgerSequence, expiresAt, nonce)
  }

  /** `issue_token`, with the random nonce as an argument. */
  function IssueToken(event: PaymentEvent, eventId: Text, expiresAt: u64, nonce: Text, sk: SigningKey, qr: Renderer)
    : Option<AccessArtifact>
  {
    var token := SignedTokenToJson(SignToken(TokenFor(event, eventId, expiresAt, nonce), sk));
    var png :- qr.png(token);
    var ascii :- qr.ascii(token);
    Some(AccessArtifact(token, png, ascii, event.txHash))
  }

  /** Issuing succeeds if and only if the token fits into both QR forms; the artifact holds the signed string of a
      version 1 token with the fields of the payment and no payment hash, that string in each QR form, and the hash. */
  lemma IssuedExactly(event: PaymentEvent, eventId: Text, expiresAt: u64, nonce: Text, sk: SigningKey, qr: Renderer)
    ensures var token := SignedTokenToJson(SignToken(
              AccessToken(1, eventId, [], event.txHash, event.sourceAccount, event.amount, event.asset, event.memo,
                          event.ledgerSequence, expiresAt, nonce), sk));
            IssueToken(event, eventId, expiresAt, nonce, sk, qr) ==
              if qr.png(token).Some? && qr.ascii(token).Some? then
                Some(AccessArtifact(token, qr.png(token).value, qr.ascii(token).value, event.txHash))
              else
                None
  {
  }
}
