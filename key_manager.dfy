/**
 * `RSAKeyManager`: owns at most one RSA key pair, generates it, writes it
 * as PEM files (PKCS#8 for the private key, optionally password-encrypted;
 * SubjectPublicKeyInfo for the public key) and loads it back, classifying
 * the failures.
 */
module KeyManager {
  import opened Common
  import opened Text
  import opened Paths
  import opened Crypto
  import opened Utils

  predicate IsSupportedKeySize(keySize: int) {
    keySize == 2048 || keySize == 3072
  }

  /** The public exponent every generated key uses. */
  const PublicExponent := 65537

  const MsgBadKeySize := "key size must be 2048 or 3072 bits"
  const MsgNoPrivateKey := "no private key to save"
  const MsgNoPublicKey := "no public key to save"
  const MsgSavePrivateFailed := "could not save private key: "
  const MsgSavePublicFailed := "could not save public key: "
  const MsgNotRsa := "file does not hold a valid RSA key"
  const MsgNotRsaPublic := "file does not hold a valid RSA public key"
  const MsgWrongPassword := "wrong password or damaged key file"
  const MsgLoadPrivateFailed := "could not load private key: "
  const MsgLoadPublicFailed := "could not load public key: "

  /** The two library messages that `load_private_key` folds into one error. */
  const BadDecrypt := "Bad decrypt"
  const CouldNotDeserialize := "could not deserialize"

  /** A password is used only when it is a non-empty string. */
  function EncryptionFor(password: Option<string>): (e: KeyEncryption)
    ensures e.BestAvailableEncryption? <==> Truthy(password)
    ensures e.BestAvailableEncryption? ==> e.password == password.value
  {
    if Truthy(password) then BestAvailableEncryption(password.value) else NoEncryption
  }

  /** `password.encode('utf-8') if password else None`. */
  function PasswordArgument(password: Option<string>): (r: Option<string>)
    ensures r.Some? <==> Truthy(password)
    ensures r.Some? ==> r == password
  {
    if Truthy(password) then password else None
  }

  /** What `save_private_key` writes or raises, for the key the manager holds. */
  function SavePrivateKeyOutcome(lib: Primitives, key: Option<RsaPrivateKey>, fs: FileStore, path: Path,
                                 password: Option<string>): (r: Result<FileStore>)
    ensures key.None? ==> r == Err(Error(ValueError, MsgNoPrivateKey))
    ensures key.Some? ==>
      var pem := lib.privateBytes(key.value, EncryptionFor(password));
      (r.Ok? <==> SafeFileWrite(fs, path, pem).Ok?)
      && (r.Ok? ==> r.value == SafeFileWrite(fs, path, pem).value && r.value.files == fs.files[path := pem])
      && (r.Err? ==> r.error.kind == IOError)
  {
    if key.None? then Err(Error(ValueError, MsgNoPrivateKey))
    else
      var pem := lib.privateBytes(key.value, EncryptionFor(password));
      match SafeFileWrite(fs, path, pem)
      case Ok(fs') => Ok(fs')
      case Err(e) => Err(Error(IOError, MsgSavePrivateFailed + e.message))
  }

  /** What `save_public_key` writes or raises. */
  function SavePublicKeyOutcome(lib: Primitives, key: Option<RsaPublicKey>, fs: FileStore, path: Path): (r: Result<FileStore>)
    ensures key.None? ==> r == Err(Error(ValueError, MsgNoPublicKey))
    ensures key.Some? ==>
      var pem := lib.publicBytes(key.value);
      (r.Ok? <==> SafeFileWrite(fs, path, pem).Ok?)
      && (r.Ok? ==> r.value == SafeFileWrite(fs, path, pem).value && r.value.files == fs.files[path := pem])
      && (r.Err? ==> r.error.kind == IOError)
  {
    if key.None? then Err(Error(ValueError, MsgNoPublicKey))
    else
      var pem := lib.publicBytes(key.value);
      match SafeFileWrite(fs, path, pem)
      case Ok(fs') => Ok(fs')
      case Err(e) => Err(Error(IOError, MsgSavePublicFailed + e.message))
  }

  /**
   * The `except` clauses of `load_private_key`: a ValueError whose text
   * holds "Bad decrypt" or "could not deserialize" (case-sensitively)
   * becomes the combined wrong-password error, any other ValueError is
   * raised unchanged, and every other failure becomes IOError.
   */
  function ClassifyLoadError(e: Error): (r: Error)
    ensures r.kind == (if e.kind == ValueError then ValueError else IOError)
    ensures e.kind == ValueError && SignalsBadPassword(e.message) ==> r == Error(ValueError, MsgWrongPassword)
    ensures e.kind == ValueError && !SignalsBadPassword(e.message) ==> r == e
  {
    if e.kind == ValueError then
      if SignalsBadPassword(e.message) then Error(ValueError, MsgWrongPassword)
      else e
    else Error(IOError, MsgLoadPrivateFailed + e.message)
  }

  /** The text holds "Bad decrypt" or "could not deserialize". */
  predicate SignalsBadPassword(message: string) {
    Contains(message, BadDecrypt) || Contains(message, CouldNotDeserialize)
  }

  /** The steps of `load_private_key` inside its `try`: read, parse, check the algorithm. */
  function ReadPrivateKey(lib: Primitives, fs: FileStore, path: Path, password: Option<string>): Result<RsaPrivateKey> {
    var pem :- SafeFileRead(fs, path);
    var obj :- lib.loadPemPrivateKey(pem, PasswordArgument(password));
    if obj.RsaPrivate? then Ok(obj.key) else Err(Error(ValueError, MsgNotRsa))
  }

  /** What `load_private_key` returns or raises. */
  function LoadPrivateKeyOutcome(lib: Primitives, fs: FileStore, path: Path, password: Option<string>): (r: Result<RsaPrivateKey>)
    ensures r.Ok? <==> SafeFileRead(fs, path).Ok?
                       && lib.loadPemPrivateKey(fs.files[path], PasswordArgument(password)).Ok?
                       && lib.loadPemPrivateKey(fs.files[path], PasswordArgument(password)).value.RsaPrivate?
    ensures r.Ok? ==> r == Ok(lib.loadPemPrivateKey(fs.files[path], PasswordArgument(password)).value.key)
    ensures SafeFileRead(fs, path).Err? ==> r.Err? && r.error.kind == IOError
    ensures r.Err? ==> r.error.kind in {ValueError, IOError}
  {
    match ReadPrivateKey(lib, fs, path, password)
    case Ok(k) => Ok(k)
    case Err(e) => Err(ClassifyLoadError(e))
  }

  /** What `load_public_key` returns or raises: every failure is IOError. */
  function LoadPublicKeyOutcome(lib: Primitives, fs: FileStore, path: Path): (r: Result<RsaPublicKey>)
    ensures r.Ok? <==> SafeFileRead(fs, path).Ok?
                       && lib.loadPemPublicKey(fs.files[path]).Ok?
                       && lib.loadPemPublicKey(fs.files[path]).value.RsaPublic?
    ensures r.Ok? ==> r == Ok(lib.loadPemPublicKey(fs.files[path]).value.key)
    ensures r.Err? ==> r.error.kind == IOError
  {
    var read :=
      var pem :- SafeFileRead(fs, path);
      var obj :- lib.loadPemPublicKey(pem);
      if obj.RsaPublic? then Ok(obj.key) else Err(Error(ValueError, MsgNotRsaPublic));
    match read
    case Ok(k) => Ok(k)
    case Err(e) => Err(Error(IOError, MsgLoadPublicFailed + e.message))
  }

  class RSAKeyManager {
    const crypto: Primitives
    const keySize: nat
    var privateKey: Option<RsaPrivateKey>
    var publicKey: Option<RsaPublicKey>

    /** `__init__` once the key size has been accepted: no keys yet. */
    constructor(crypto: Primitives, keySize: nat)
      requires IsSupportedKeySize(keySize)
      ensures this.crypto == crypto && this.keySize == keySize
      ensures privateKey == None && publicKey == None
    {
      this.crypto := crypto;
      this.keySize := keySize;
      privateKey := None;
      publicKey := None;
    }

    /** The size is one of the two supported, and a held private key comes with a public key. */
    ghost predicate Valid()
      reads this
    {
      IsSupportedKeySize(keySize) && (privateKey.Some? ==> publicKey.Some?)
    }

    /**
     * `generate_keypair`: a fresh key of the manager's size with exponent
     * 65537 (the library's randomness is the seed), and its public half;
     * both become the manager's keys.
     */
    method GenerateKeypair(seed: nat) returns (priv: RsaPrivateKey, pub: RsaPublicKey)
      requires Valid()
      modifies this
      ensures Valid()
      ensures priv == crypto.generatePrivateKey(PublicExponent, keySize, seed) && pub == PublicKeyOf(priv)
      ensures KeyGeneration(crypto) ==> KeySize(priv) == keySize && priv.publicExponent == PublicExponent
      ensures privateKey == Some(priv) && publicKey == Some(pub)
    {
      priv := crypto.generatePrivateKey(PublicExponent, keySize, seed);
      pub := PublicKeyOf(priv);
      privateKey := Some(priv);
      publicKey := Some(pub);
    }

    /** `save_private_key`: the key leaves the manager unchanged; only the store is new. */
    method SavePrivateKey(fs: FileStore, path: Path, password: Option<string>) returns (r: Result<FileStore>)
      ensures r == SavePrivateKeyOutcome(crypto, privateKey, fs, path, password)
    {
      if privateKey.None? {
        return Err(Error(ValueError, MsgNoPrivateKey));
      }
      var encryption := NoEncryption;
      if Truthy(password) {
        encryption := BestAvailableEncryption(password.value);
      }
      var pem := crypto.privateBytes(privateKey.value, encryption);
      var written := SafeFileWrite(fs, path, pem);
      if written.Err? {
        return Err(Error(IOError, MsgSavePrivateFailed + written.error.message));
      }
      r := Ok(written.value);
    }

    /** `save_public_key`. */
    method SavePublicKey(fs: FileStore, path: Path) returns (r: Result<FileStore>)
      ensures r == SavePublicKeyOutcome(crypto, publicKey, fs, path)
    {
      if publicKey.None? {
        return Err(Error(ValueError, MsgNoPublicKey));
      }
      var pem := crypto.publicBytes(publicKey.value);
      var written := SafeFileWrite(fs, path, pem);
      if written.Err? {
        return Err(Error(IOError, MsgSavePublicFailed + written.error.message));
      }
      r := Ok(written.value);
    }

    /**
     * `load_private_key`: on success the loaded key and its public half
     * replace the manager's keys; on failure they stay as they were.
     */
    method LoadPrivateKey(fs: FileStore, path: Path, password: Option<string>) returns (r: Result<RsaPrivateKey>)
      requires Valid()
      modifies this
      ensures Valid()
      ensures r == LoadPrivateKeyOutcome(crypto, fs, path, password)
      ensures r.Ok? ==> privateKey == Some(r.value) && publicKey == Some(PublicKeyOf(r.value))
      ensures r.Err? ==> privateKey == old(privateKey) && publicKey == old(publicKey)
    {
      var read := SafeFileRead(fs, path);
      if read.Err? {
        return Err(ClassifyLoadError(read.error));
      }
      var parsed := crypto.loadPemPrivateKey(read.value, PasswordArgument(password));
      if parsed.Err? {
        return Err(ClassifyLoadError(parsed.error));
      }
      if !parsed.value.RsaPrivate? {
        return Err(ClassifyLoadError(Error(ValueError, MsgNotRsa)));
      }
      var key := parsed.value.key;
      privateKey := Some(key);
      publicKey := Some(PublicKeyOf(key));
      r := Ok(key);
    }

    /** `load_public_key`: on success only the public key is replaced. */
    method LoadPublicKey(fs: FileStore, path: Path) returns (r: Result<RsaPublicKey>)
      requires Valid()
      modifies this
      ensures Valid()
      ensures r == LoadPublicKeyOutcome(crypto, fs, path)
      ensures privateKey == old(privateKey)
      ensures publicKey == if r.Ok? then Some(r.value) else old(publicKey)
    {
      var read := SafeFileRead(fs, path);
      if read.Err? {
        return Err(Error(IOError, MsgLoadPublicFailed + read.error.message));
      }
      var parsed := crypto.loadPemPublicKey(read.value);
      if parsed.Err? {
        return Err(Error(IOError, MsgLoadPublicFailed + parsed.error.message));
      }
      if !parsed.value.RsaPublic? {
        return Err(Error(IOError, MsgLoadPublicFailed + MsgNotRsaPublic));
      }
      publicKey := Some(parsed.value.key);
      r := Ok(parsed.value.key);
    }
  }

  /** `RSAKeyManager(key_size)`: ValueError for a size other than 2048 and 3072. */
  method Create(crypto: Primitives, keySize: int) returns (r: Result<RSAKeyManager>)
    ensures r.Err? <==> !IsSupportedKeySize(keySize)
    ensures r.Err? ==> r.error == Error(ValueError, MsgBadKeySize)
    ensures r.Ok? ==> fresh(r.value) && r.value.Valid() && r.value.keySize == keySize && r.value.crypto == crypto
                      && r.value.privateKey == None && r.value.publicKey == None
  {
    if !IsSupportedKeySize(keySize) {
      return Err(Error(ValueError, MsgBadKeySize));
    }
    var m := new RSAKeyManager(crypto, keySize as nat);
    r := Ok(m);
  }

  // ------------------------------------------------------------------ lemmas

  /** A private key saved with a password (or none) loads back with the same password. */
  lemma PrivateKeyRoundTrip(lib: Primitives, k: RsaPrivateKey, fs: FileStore, path: Path, password: Option<string>)
    requires PrivateRoundTrip(lib)
    requires SavePrivateKeyOutcome(lib, Some(k), fs, path, password).Ok?
    requires path !in fs.readDenied
    ensures LoadPrivateKeyOutcome(lib, SavePrivateKeyOutcome(lib, Some(k), fs, path, password).value, path, password) == Ok(k)
  {
    var fs' := SavePrivateKeyOutcome(lib, Some(k), fs, path, password).value;
    ReadAfterWrite(fs, path, lib.privateBytes(k, EncryptionFor(password)));
    assert SafeFileRead(fs', path) == Ok(lib.privateBytes(k, EncryptionFor(password)));
    if Truthy(password) {
      assert lib.loadPemPrivateKey(lib.privateBytes(k, BestAvailableEncryption(password.value)), Some(password.value)) == Ok(RsaPrivate(k));
    }
  }

  /** A public key saved to a file loads back unchanged. */
  lemma PublicKeyRoundTrip(lib: Primitives, pk: RsaPublicKey, fs: FileStore, path: Path)
    requires PublicRoundTrip(lib)
    requires SavePublicKeyOutcome(lib, Some(pk), fs, path).Ok?
    requires path !in fs.readDenied
    ensures LoadPublicKeyOutcome(lib, SavePublicKeyOutcome(lib, Some(pk), fs, path).value, path) == Ok(pk)
  {
    ReadAfterWrite(fs, path, lib.publicBytes(pk));
  }

  /** An encrypted key loaded with a different non-empty password raises ValueError. */
  lemma WrongPasswordIsValueError(lib: Primitives, k: RsaPrivateKey, fs: FileStore, path: Path, pw: string, other: string)
    requires WrongPasswordRejected(lib)
    requires pw != "" && other != "" && other != pw
    requires SavePrivateKeyOutcome(lib, Some(k), fs, path, Some(pw)).Ok?
    requires path !in fs.readDenied
    ensures var r := LoadPrivateKeyOutcome(lib, SavePrivateKeyOutcome(lib, Some(k), fs, path, Some(pw)).value, path, Some(other));
      r.Err? && r.error.kind == ValueError
  {
    ReadAfterWrite(fs, path, lib.privateBytes(k, BestAvailableEncryption(pw)));
    var e := lib.loadPemPrivateKey(lib.privateBytes(k, BestAvailableEncryption(pw)), Some(other));
    assert e.Err? && e.error.kind == ValueError;
  }

  /**
   * A password whose presence does not match the file (none for an
   * encrypted key, one for an unencrypted key) makes the library raise
   * TypeError, which `load_private_key` reports as IOError, not as the
   * wrong-password ValueError.
   */
  lemma PasswordPresenceMismatchIsIOError(lib: Primitives, k: RsaPrivateKey, fs: FileStore, path: Path,
                                          saved: Option<string>, given: Option<string>)
    requires PasswordPresenceChecked(lib)
    requires Truthy(saved) != Truthy(given)
    requires SavePrivateKeyOutcome(lib, Some(k), fs, path, saved).Ok?
    requires path !in fs.readDenied
    ensures var r := LoadPrivateKeyOutcome(lib, SavePrivateKeyOutcome(lib, Some(k), fs, path, saved).value, path, given);
      r.Err? && r.error.kind == IOError
  {
    var pem := lib.privateBytes(k, EncryptionFor(saved));
    ReadAfterWrite(fs, path, pem);
    if Truthy(saved) {
      assert lib.loadPemPrivateKey(lib.privateBytes(k, BestAvailableEncryption(saved.value)), None).error.kind == TypeError;
    } else {
      assert lib.loadPemPrivateKey(lib.privateBytes(k, NoEncryption), Some(given.value)).error.kind == TypeError;
    }
  }

  /** A container that holds a key of another family raises the not-RSA ValueError unchanged. */
  lemma NotRsaKeyIsValueError(lib: Primitives, fs: FileStore, path: Path, password: Option<string>)
    requires SafeFileRead(fs, path).Ok?
    requires var obj := lib.loadPemPrivateKey(fs.files[path], PasswordArgument(password));
      obj.Ok? && obj.value.OtherPrivate?
    ensures LoadPrivateKeyOutcome(lib, fs, path, password) == Err(Error(ValueError, MsgNotRsa))
  {
    NotRsaMessageKept();
    assert ReadPrivateKey(lib, fs, path, password) == Err(Error(ValueError, MsgNotRsa));
  }

  /** The not-RSA message holds neither library phrase. */
  lemma NotRsaMessageKept()
    ensures !SignalsBadPassword(MsgNotRsa)
  {
    NotRsaLacksBadDecrypt();
    NotRsaLacksDeserialize();
  }

  lemma NotRsaLacksBadDecrypt()
    ensures !Contains(MsgNotRsa, BadDecrypt)
  {
    MissingCharNotContained(MsgNotRsa, BadDecrypt, 'B');
  }

  lemma NotRsaLacksDeserialize()
    ensures !Contains(MsgNotRsa, CouldNotDeserialize)
  {
    MissingCharNotContained(MsgNotRsa, CouldNotDeserialize, 'z');
  }

  /**
   * The match is case-sensitive: a library ValueError whose text starts
   * with "Could not deserialize" (capital C), and whose remainder holds
   * neither phrase, is raised as it came, not as the combined error.
   */
  lemma CapitalisedMessagePassesThrough(rest: string)
    requires !Contains(rest, CouldNotDeserialize) && !Contains(rest, BadDecrypt)
    ensures ClassifyLoadError(Error(ValueError, CapitalisedDeserialize + rest))
            == Error(ValueError, CapitalisedDeserialize + rest)
  {
    assert CouldNotDeserialize[0] == 'c' && BadDecrypt[0] == 'B';
    NotContainedAfterPrefix(CapitalisedDeserialize, rest, CouldNotDeserialize);
    NotContainedAfterPrefix(CapitalisedDeserialize, rest, BadDecrypt);
  }

  /** The opening words of the library's "Could not deserialize key data. ..." error (capital C). */
  const CapitalisedDeserialize := "Could not deserialize"
}
