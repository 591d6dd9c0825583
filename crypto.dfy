/**
 * The foreign library calls the core makes, as values the model is given:
 * SHA-256 (FIPS 180-4) from hashlib, RSA key generation, PEM/PKCS#8 and
 * SubjectPublicKeyInfo serialisation, RSASSA-PSS signing and verification
 * (section 8.1 of RFC 8017) from the `cryptography` package, and the
 * lenient path of the standard base64 decoder. `Sound` collects what their
 * documentation promises; lemmas that need those promises require it.
 */
module Crypto {
  import opened Common

  /** Number of bits of `n` (0 for 0): the `key_size` of a key with modulus `n`. */
  function BitLength(n: nat): nat {
    if n == 0 then 0 else 1 + BitLength(n / 2)
  }

  datatype RsaPrivateKey = RsaPrivateKey(modulus: nat, publicExponent: nat, privateExponent: nat)

  datatype RsaPublicKey = RsaPublicKey(modulus: nat, publicExponent: nat)

  function KeySize(k: RsaPrivateKey): nat {
    BitLength(k.modulus)
  }

  function PublicKeySize(k: RsaPublicKey): nat {
    BitLength(k.modulus)
  }

  /** `private_key.public_key()`: the modulus and public exponent of the private key. */
  function PublicKeyOf(k: RsaPrivateKey): (pub: RsaPublicKey)
    ensures PublicKeySize(pub) == KeySize(k) && pub.publicExponent == k.publicExponent
  {
    RsaPublicKey(k.modulus, k.publicExponent)
  }

  /** What a PEM container deserialises to: an RSA key or a key of another algorithm family. */
  datatype PrivateKeyObject = RsaPrivate(key: RsaPrivateKey) | OtherPrivate(algorithm: string)

  datatype PublicKeyObject = RsaPublic(key: RsaPublicKey) | OtherPublic(algorithm: string)

  /** `NoEncryption()` or `BestAvailableEncryption(password)`. */
  datatype KeyEncryption = NoEncryption | BestAvailableEncryption(password: string)

  datatype HashAlgorithm = SHA256

  datatype SaltLength = MaxLength | FixedSalt(length: nat)

  /** PSS padding: its mask generation function (MGF1 over a hash) and salt length. */
  datatype Padding = PSS(mgf1Hash: HashAlgorithm, saltLength: SaltLength)

  /** The padding and hash `RSASigner.sign_file` uses: MGF1-SHA-256, maximum salt, SHA-256. */
  const SignerPadding := PSS(SHA256, MaxLength)
  const SignerHash := SHA256

  /**
   * The library calls. Passwords are passed as text: the source encodes
   * them with UTF-8, which is injective, so equal and unequal passwords stay so.
   */
  datatype Primitives = Primitives(
    sha256: Bytes -> Bytes,
    // rsa.generate_private_key(public_exponent, key_size), with its randomness as a seed
    generatePrivateKey: (nat, nat, nat) -> RsaPrivateKey,
    // private_key.private_bytes(PEM, PKCS8, encryption)
    privateBytes: (RsaPrivateKey, KeyEncryption) -> Bytes,
    // public_key.public_bytes(PEM, SubjectPublicKeyInfo)
    publicBytes: RsaPublicKey -> Bytes,
    // serialization.load_pem_private_key(data, password)
    loadPemPrivateKey: (Bytes, Option<string>) -> Result<PrivateKeyObject>,
    // serialization.load_pem_public_key(data)
    loadPemPublicKey: Bytes -> Result<PublicKeyObject>,
    // private_key.sign(message, padding, hash), with the PSS salt as an argument
    sign: (RsaPrivateKey, Bytes, Padding, HashAlgorithm, Bytes) -> Bytes,
    // public_key.verify(signature, message, padding, hash): false where it raises InvalidSignature
    verify: (RsaPublicKey, Bytes, Bytes, Padding, HashAlgorithm) -> bool,
    // base64.b64decode on ASCII text that is not canonical: None where it raises binascii.Error
    b64decodeLenient: string -> Option<Bytes>
  )

  /** A SHA-256 digest is 32 bytes. */
  ghost predicate DigestLength(lib: Primitives) {
    forall m :: |lib.sha256(m)| == 32
  }

  /** A generated key has the requested size and exponent. */
  ghost predicate KeyGeneration(lib: Primitives) {
    forall size: nat, seed: nat ::
      (size == 2048 || size == 3072) ==>
        KeySize(lib.generatePrivateKey(65537, size, seed)) == size
        && lib.generatePrivateKey(65537, size, seed).publicExponent == 65537
  }

  /** A private key container loads back, given the password it was encrypted with (or none). */
  ghost predicate PrivateRoundTrip(lib: Primitives) {
    && (forall k :: lib.loadPemPrivateKey(lib.privateBytes(k, NoEncryption), None) == Ok(RsaPrivate(k)))
    && (forall k, pw :: pw != "" ==>
          lib.loadPemPrivateKey(lib.privateBytes(k, BestAvailableEncryption(pw)), Some(pw)) == Ok(RsaPrivate(k)))
  }

  /** An encrypted container given a different password raises ValueError (decryption or parsing fails). */
  ghost predicate WrongPasswordRejected(lib: Primitives) {
    forall k, pw, other :: pw != "" && other != pw ==>
      var r := lib.loadPemPrivateKey(lib.privateBytes(k, BestAvailableEncryption(pw)), Some(other));
      r.Err? && r.error.kind == ValueError
  }

  /** A password for an unencrypted container, or none for an encrypted one, raises TypeError. */
  ghost predicate PasswordPresenceChecked(lib: Primitives) {
    && (forall k, pw :: pw != "" ==>
          var r := lib.loadPemPrivateKey(lib.privateBytes(k, BestAvailableEncryption(pw)), None);
          r.Err? && r.error.kind == TypeError)
    && (forall k, pw ::
          var r := lib.loadPemPrivateKey(lib.privateBytes(k, NoEncryption), Some(pw));
          r.Err? && r.error.kind == TypeError)
  }

  /** A public key container loads back to the same key. */
  ghost predicate PublicRoundTrip(lib: Primitives) {
    forall pk :: lib.loadPemPublicKey(lib.publicBytes(pk)) == Ok(RsaPublic(pk))
  }

  /** PSS correctness: a signature made with a key verifies under its public key, with the same parameters. */
  ghost predicate SignatureVerifies(lib: Primitives) {
    forall k, m, pad, h, salt ::
      lib.verify(PublicKeyOf(k), lib.sign(k, m, pad, h, salt), m, pad, h)
  }

  /** An RSA signature has the byte length of the modulus. */
  ghost predicate SignatureLength(lib: Primitives) {
    forall k, m, pad, h, salt :: |lib.sign(k, m, pad, h, salt)| == (KeySize(k) + 7) / 8
  }

  ghost predicate Sound(lib: Primitives) {
    && DigestLength(lib)
    && KeyGeneration(lib)
    && PrivateRoundTrip(lib)
    && WrongPasswordRejected(lib)
    && PasswordPresenceChecked(lib)
    && PublicRoundTrip(lib)
    && SignatureVerifies(lib)
    && SignatureLength(lib)
  }

  /** A 2048-bit key signs 256 bytes, a 3072-bit key 384. */
  lemma SignatureBytes(lib: Primitives, k: RsaPrivateKey, m: Bytes, salt: Bytes)
    requires SignatureLength(lib)
    requires KeySize(k) == 2048 || KeySize(k) == 3072
    ensures |lib.sign(k, m, SignerPadding, SignerHash, salt)| == if KeySize(k) == 2048 then 256 else 384
  {
  }
}
