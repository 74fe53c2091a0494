/**
 Wrapping a content key to a site's X25519 key. The code's own derivation is given first; RFC 9180 is
 then written down separately, for any cipher suite, and the two are proved to agree.
 */
module Hpke {
  import opened Prelude

  newtype byte = x: int | 0 <= x < 256

  type Bytes = seq<byte>

  /** The primitives underneath, as the code calls them. */
  datatype Primitives = Primitives(
    hmac: (Bytes, Bytes) -> Bytes,
    expand: (Bytes, Bytes, nat) -> Bytes,
    publicKey: Bytes -> Bytes,
    exchange: (Bytes, Bytes) -> Bytes,
    seal: (Bytes, Bytes, Bytes, Bytes) -> Bytes,
    unseal: (Bytes, Bytes, Bytes, Bytes) -> Option<Bytes>)

  /** An HMAC key is padded with zeros, Diffie-Hellman commutes, and what is sealed opens under the same
      key, nonce and associated data. */
  ghost predicate Lawful(p: Primitives) {
    && (forall m :: p.hmac([], m) == p.hmac(Zeros(32), m))
    && (forall a, b :: p.exchange(a, p.publicKey(b)) == p.exchange(b, p.publicKey(a)))
    && (forall a :: |p.publicKey(a)| == 32)
    && (forall k, n, m, a :: p.unseal(k, n, p.seal(k, n, m, a), a) == Some(m))
    && forall k, n, m, a :: |p.seal(k, n, m, a)| == |m| + 16
  }

  function Zeros(n: nat): Bytes {
    seq(n, _ => 0)
  }

  function Ascii(s: string): (r: Bytes)
    ensures |r| == |s|
  {
    seq(|s|, i requires 0 <= i < |s| => (s[i] as int % 256) as byte)
  }

  // ---------------------------------------------------------------- as the code derives it

  function HkdfExtract(p: Primitives, salt: Bytes, ikm: Bytes): Bytes {
    p.hmac(if salt == [] then Zeros(32) else salt, ikm)
  }

  function CodeLabeledExtract(p: Primitives, suite: Bytes, salt: Bytes, lbl: Bytes, ikm: Bytes): Bytes {
    HkdfExtract(p, salt, Ascii("HPKE-v1") + suite + lbl + ikm)
  }

  function CodeLabeledExpand(p: Primitives, suite: Bytes, prk: Bytes, lbl: Bytes, info: Bytes, length: nat): Bytes
    requires length < 65536
  {
    var labeled := [(length / 256) as byte, (length % 256) as byte] + Ascii("HPKE-v1") + suite + lbl + info;
    p.expand(prk, labeled, length)
  }

  function HpkeContext(p: Primitives, shared: Bytes, info: Bytes): (Bytes, Bytes) {
    var suite := Ascii("HPKE") + [0x00, 0x20] + [0x00, 0x01] + [0x00, 0x02];
    var pskIdHash := CodeLabeledExtract(p, suite, [], Ascii("psk_id_hash"), []);
    var infoHash := CodeLabeledExtract(p, suite, [], Ascii("info_hash"), info);
    var context := [0x00] + pskIdHash + infoHash;
    var secret := CodeLabeledExtract(p, suite, shared, Ascii("secret"), []);
    (CodeLabeledExpand(p, suite, secret, Ascii("key"), context, 32),
     CodeLabeledExpand(p, suite, secret, Ascii("base_nonce"), context, 12))
  }

  function CodeShared(p: Primitives, dh: Bytes, enc: Bytes, recipient: Bytes): Bytes {
    var kemSuite := Ascii("KEM") + [0x00, 0x20];
    var eaePrk := CodeLabeledExtract(p, kemSuite, [], Ascii("eae_prk"), dh);
    CodeLabeledExpand(p, kemSuite, eaePrk, Ascii("shared_secret"), enc + recipient, 32)
  }

  /** `_hpke_wrap` with the ephemeral secret it draws. */
  function Wrap(p: Primitives, recipient: Bytes, contentKey: Bytes, info: Bytes, aad: Bytes, ephemeral: Bytes): (Bytes, Bytes) {
    var enc := p.publicKey(ephemeral);
    var (key, nonce) := HpkeContext(p, CodeShared(p, p.exchange(ephemeral, recipient), enc, recipient), info);
    (enc, p.seal(key, nonce, contentKey, aad))
  }

  /** `_hpke_unwrap` */
  function Unwrap(p: Primitives, secret: Bytes, enc: Bytes, wrapped: Bytes, info: Bytes, aad: Bytes): Option<Bytes> {
    if |enc| != 32 then None
    else
      var (key, nonce) := HpkeContext(p, CodeShared(p, p.exchange(secret, enc), enc, p.publicKey(secret)), info);
      p.unseal(key, nonce, wrapped, aad)
  }

  // ---------------------------------------------------------------- RFC 9180

  /** Section 7: the algorithm identifiers and lengths of a cipher suite. */
  datatype Suite = Suite(kemId: nat, kdfId: nat, aeadId: nat, nSecret: nat, nKey: nat, nNonce: nat)

  const X25519_SHA256_AES256GCM := Suite(0x0020, 0x0001, 0x0002, 32, 32, 12)

  /** I2OSP of section 4 of RFC 8017: `width` big-endian bytes. */
  function I2OSP(n: nat, width: nat): (r: Bytes)
    ensures |r| == width
  {
    if width == 0 then [] else I2OSP(n / 256, width - 1) + [(n % 256) as byte]
  }

  /** Section 4 */
  function LabeledExtract(p: Primitives, suiteId: Bytes, salt: Bytes, lbl: string, ikm: Bytes): Bytes {
    p.hmac(salt, Ascii("HPKE-v1") + suiteId + Ascii(lbl) + ikm)
  }

  function LabeledExpand(p: Primitives, suiteId: Bytes, prk: Bytes, lbl: string, info: Bytes, length: nat): Bytes {
    p.expand(prk, I2OSP(length, 2) + Ascii("HPKE-v1") + suiteId + Ascii(lbl) + info, length)
  }

  /** Section 4.1 */
  function ExtractAndExpand(p: Primitives, s: Suite, dh: Bytes, kemContext: Bytes): Bytes {
    var suiteId := Ascii("KEM") + I2OSP(s.kemId, 2);
    LabeledExpand(p, suiteId, LabeledExtract(p, suiteId, [], "eae_prk", dh), "shared_secret", kemContext, s.nSecret)
  }

  /** Section 4.1: the shared secret and the encapsulated key. */
  function Encap(p: Primitives, s: Suite, pkR: Bytes, skE: Bytes): (Bytes, Bytes) {
    (ExtractAndExpand(p, s, p.exchange(skE, pkR), p.publicKey(skE) + pkR), p.publicKey(skE))
  }

  function Decap(p: Primitives, s: Suite, enc: Bytes, skR: Bytes): Bytes {
    ExtractAndExpand(p, s, p.exchange(skR, enc), enc + p.publicKey(skR))
  }

  datatype Context = Context(key: Bytes, baseNonce: Bytes)

  /** Section 5.1 */
  function KeySchedule(p: Primitives, s: Suite, mode: byte, shared: Bytes, info: Bytes, psk: Bytes, pskId: Bytes): Context {
    var suiteId := Ascii("HPKE") + I2OSP(s.kemId, 2) + I2OSP(s.kdfId, 2) + I2OSP(s.aeadId, 2);
    var pskIdHash := LabeledExtract(p, suiteId, [], "psk_id_hash", pskId);
    var infoHash := LabeledExtract(p, suiteId, [], "info_hash", info);
    var keyScheduleContext := [mode] + pskIdHash + infoHash;
    var secret := LabeledExtract(p, suiteId, shared, "secret", psk);
    Context(LabeledExpand(p, suiteId, secret, "key", keyScheduleContext, s.nKey),
            LabeledExpand(p, suiteId, secret, "base_nonce", keyScheduleContext, s.nNonce))
  }

  /** Section 5.1.1: the context of the sender, and of the receiver, in base mode. */
  function SetupBaseS(p: Primitives, s: Suite, pkR: Bytes, info: Bytes, skE: Bytes): Context {
    KeySchedule(p, s, 0x00, Encap(p, s, pkR, skE).0, info, [], [])
  }

  function SetupBaseR(p: Primitives, s: Suite, enc: Bytes, skR: Bytes, info: Bytes): Context {
    KeySchedule(p, s, 0x00, Decap(p, s, enc, skR), info, [], [])
  }

  // ---------------------------------------------------------------- agreement

  lemma TwoOctets(n: nat)
    requires n < 65536
    ensures I2OSP(n, 2) == [(n / 256) as byte, (n % 256) as byte]
  {
    assert I2OSP(n / 256, 1) == I2OSP(n / 256 / 256, 0) + [(n / 256 % 256) as byte];
  }

  lemma ExtractAgrees(p: Primitives, suite: Bytes, salt: Bytes, lbl: string, ikm: Bytes)
    requires Lawful(p)
    ensures CodeLabeledExtract(p, suite, salt, Ascii(lbl), ikm) == LabeledExtract(p, suite, salt, lbl, ikm)
  {
  }

  lemma ExpandAgrees(p: Primitives, suite: Bytes, prk: Bytes, lbl: string, info: Bytes, length: nat)
    requires length < 65536
    ensures CodeLabeledExpand(p, suite, prk, Ascii(lbl), info, length) == LabeledExpand(p, suite, prk, lbl, info, length)
  {
    TwoOctets(length);
  }

  lemma SharedAgrees(p: Primitives, dh: Bytes, enc: Bytes, recipient: Bytes)
    requires Lawful(p)
    ensures CodeShared(p, dh, enc, recipient) == ExtractAndExpand(p, X25519_SHA256_AES256GCM, dh, enc + recipient)
  {
    var suite := Ascii("KEM") + [0x00, 0x20];
    TwoOctets(0x20);
    ExtractAgrees(p, suite, [], "eae_prk", dh);
    ExpandAgrees(p, suite, LabeledExtract(p, suite, [], "eae_prk", dh), "shared_secret", enc + recipient, 32);
  }

  /** The key and nonce are those of section 5.1 in base mode for DHKEM(X25519, HKDF-SHA256), HKDF-SHA256
      and AES-256-GCM. */
  lemma ContextAgrees(p: Primitives, shared: Bytes, info: Bytes)
    requires Lawful(p)
    ensures var c := KeySchedule(p, X25519_SHA256_AES256GCM, 0x00, shared, info, [], []);
            HpkeContext(p, shared, info) == (c.key, c.baseNonce)
  {
    var suite := Ascii("HPKE") + [0x00, 0x20] + [0x00, 0x01] + [0x00, 0x02];
    TwoOctets(0x20);
    TwoOctets(0x01);
    TwoOctets(0x02);
    assert suite == Ascii("HPKE") + I2OSP(0x20, 2) + I2OSP(0x01, 2) + I2OSP(0x02, 2);
    ExtractAgrees(p, suite, [], "psk_id_hash", []);
    ExtractAgrees(p, suite, [], "info_hash", info);
    ExtractAgrees(p, suite, shared, "secret", []);
    var context := [0x00] + LabeledExtract(p, suite, [], "psk_id_hash", []) + LabeledExtract(p, suite, [], "info_hash", info);
    var secret := LabeledExtract(p, suite, shared, "secret", []);
    ExpandAgrees(p, suite, secret, "key", context, 32);
    ExpandAgrees(p, suite, secret, "base_nonce", context, 12);
  }

  /** The sender seals the content key once, under the key and base nonce of the RFC's sender context. */
  lemma WrapFollowsRfc9180(p: Primitives, pkR: Bytes, contentKey: Bytes, info: Bytes, aad: Bytes, skE: Bytes)
    requires Lawful(p)
    ensures var c := SetupBaseS(p, X25519_SHA256_AES256GCM, pkR, info, skE);
            Wrap(p, pkR, contentKey, info, aad, skE)
            == (Encap(p, X25519_SHA256_AES256GCM, pkR, skE).1, p.seal(c.key, c.baseNonce, contentKey, aad))
  {
    SharedAgrees(p, p.exchange(skE, pkR), p.publicKey(skE), pkR);
    ContextAgrees(p, CodeShared(p, p.exchange(skE, pkR), p.publicKey(skE), pkR), info);
  }

  lemma UnwrapFollowsRfc9180(p: Primitives, skR: Bytes, enc: Bytes, wrapped: Bytes, info: Bytes, aad: Bytes)
    requires Lawful(p) && |enc| == 32
    ensures var c := SetupBaseR(p, X25519_SHA256_AES256GCM, enc, skR, info);
            Unwrap(p, skR, enc, wrapped, info, aad) == p.unseal(c.key, c.baseNonce, wrapped, aad)
  {
    SharedAgrees(p, p.exchange(skR, enc), enc, p.publicKey(skR));
    ContextAgrees(p, CodeShared(p, p.exchange(skR, enc), enc, p.publicKey(skR)), info);
  }

  /** Sender and receiver derive one key and nonce, so unwrapping returns the wrapped key; the
      encapsulated key has 32 bytes and the wrapped key 16 more than the content key. */
  lemma UnwrapInvertsWrap(p: Primitives, skR: Bytes, contentKey: Bytes, info: Bytes, aad: Bytes, skE: Bytes)
    requires Lawful(p)
    ensures var (enc, wrapped) := Wrap(p, p.publicKey(skR), contentKey, info, aad, skE);
            && |enc| == 32 && |wrapped| == |contentKey| + 16
            && SetupBaseS(p, X25519_SHA256_AES256GCM, p.publicKey(skR), info, skE)
               == SetupBaseR(p, X25519_SHA256_AES256GCM, enc, skR, info)
            && Unwrap(p, skR, enc, wrapped, info, aad) == Some(contentKey)
  {
    assert p.exchange(skE, p.publicKey(skR)) == p.exchange(skR, p.publicKey(skE));
  }
}
