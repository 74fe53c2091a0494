/**
 Symbolic cryptography. A digest is the value it was taken of, so digests are injective; a value that
 is no digest of anything in the model is `Unmatched`. A signature names its key and its message, and
 verifies for nothing else.
 */
module Crypto {

  datatype Digest<+T> = Sha256(preimage: T) | Unmatched(tag: nat)

  datatype PublicKey = PublicKey(spki: nat)

  type KeyId = Digest<PublicKey>

  function PublicKeyId(key: PublicKey): KeyId {
    Sha256(key)
  }

  datatype Signature<+T> = SignedBy(key: PublicKey, message: T) | Malformed(tag: nat)

  predicate Verifies<T(==)>(key: PublicKey, message: T, signature: Signature<T>) {
    signature == SignedBy(key, message)
  }
}
