/**
 * The detached-signature scheme, kept abstract. Each step of the foreign libraries
 * that can fail is a field returning `Option` (`None` where the library throws); the
 * scheme itself is a parameter of both nodes, so nothing here assumes how Ed25519
 * works. `VerifyMessage` is the hub's `verifyMessage`, `SignMessage` the validator's
 * `signMessage`.
 */
module Signatures {
  import opened Wrappers
  import opened Protocol

  type Bytes = seq<bv8>

  datatype KeyPair = KeyPair(publicKey: PublicKey, secretKey: Bytes)

  datatype Scheme = Scheme(
    /** UTF-8 encoding of a text (`decodeUTF8`). */
    utf8: string -> Bytes,
    /** `new Uint8Array(JSON.parse(signature))`; `None` where parsing throws. */
    decodeSignature: Signature -> Option<Bytes>,
    /** `new PublicKey(publicKey).toBytes()`; `None` where the key is rejected. */
    decodePublicKey: PublicKey -> Option<Bytes>,
    /** `nacl.sign.detached.verify(message, signature, key)`; `None` where it throws. */
    detachedVerify: (Bytes, Bytes, Bytes) -> Option<bool>,
    /** `nacl.sign.detached(message, secretKey)`. */
    detachedSign: (Bytes, Bytes) -> Bytes,
    /** `JSON.stringify(Array.from(signature))`. */
    encodeSignature: Bytes -> Signature)

  /**
   * The hub's check of a signature. It is a total boolean function: every failure
   * on the way (undecodable signature, bad key, a throwing verifier) gives `false`.
   */
  function VerifyMessage(s: Scheme, message: string, publicKey: PublicKey, signature: Signature): (ok: bool)
    ensures ok ==> s.decodeSignature(signature).Some? && s.decodePublicKey(publicKey).Some?
    ensures ok ==> s.detachedVerify(s.utf8(message), s.decodeSignature(signature).value,
                                    s.decodePublicKey(publicKey).value) == Some(true)
  {
    match s.decodeSignature(signature)
    case None => false
    case Some(sig) =>
      match s.decodePublicKey(publicKey)
      case None => false
      case Some(key) => s.detachedVerify(s.utf8(message), sig, key) == Some(true)
  }

  /** Parsing a signature's wire text gives its bytes back, as `JSON.parse` undoes `JSON.stringify`. */
  ghost predicate Coherent(s: Scheme) {
    forall b :: s.decodeSignature(s.encodeSignature(b)) == Some(b)
  }

  /**
   * The validator's signature over a text, as it is put on the wire. Under a
   * coherent encoding the hub decodes exactly the detached signature of the text's
   * UTF-8 bytes under the secret key.
   */
  function SignMessage(s: Scheme, message: string, kp: KeyPair): (sig: Signature)
    ensures Coherent(s) ==> s.decodeSignature(sig) == Some(s.detachedSign(s.utf8(message), kp.secretKey))
  {
    s.encodeSignature(s.detachedSign(s.utf8(message), kp.secretKey))
  }

  /** The scheme accepts every signature made with the key pair over any text. */
  ghost predicate Honest(s: Scheme, kp: KeyPair) {
    forall m :: VerifyMessage(s, m, kp.publicKey, SignMessage(s, m, kp))
  }

  /** A signature made with the key pair verifies for the text it was made over and for no other. */
  ghost predicate Binding(s: Scheme, kp: KeyPair) {
    forall m, m' :: VerifyMessage(s, m', kp.publicKey, SignMessage(s, m, kp)) ==> m' == m
  }

  /** `verifyMessage` cannot raise: a failure to decode either input yields `false`. */
  lemma MalformedInputIsRejected(s: Scheme, message: string, publicKey: PublicKey, signature: Signature)
    requires s.decodeSignature(signature).None? || s.decodePublicKey(publicKey).None?
    ensures !VerifyMessage(s, message, publicKey, signature)
  {
  }
}
