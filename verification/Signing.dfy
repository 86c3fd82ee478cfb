/** Ed25519 (section 5.1 of RFC 8032) kept abstract: a signing key is the deterministic function from
    messages to signatures, a verifying key the predicate that accepts or rejects a signature. */
module Signing {
  import opened Bytes

  const SIGNATURE_LENGTH: nat := 64

  type Signature = s: bytes | |s| == SIGNATURE_LENGTH witness seq(SIGNATURE_LENGTH, _ => 0)

  type SigningKey = bytes -> Signature

  type VerifyingKey = (bytes, Signature) -> bool

  /** Every signature the signing key makes is accepted by the verifying key. */
  ghost predicate KeyPair(sk: SigningKey, vk: VerifyingKey) {
    forall m :: vk(m, sk(m))
  }
}
