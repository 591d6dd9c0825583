/**
 * `RSASigner`: signs the SHA-256 digest of a file with RSASSA-PSS
 * (MGF1-SHA-256, maximum salt length, SHA-256) under a private key loaded
 * from a PEM file, and writes the signature raw or as Base64 next to the
 * file or at a given path.
 */
module Signer {
  import opened Common
  import opened Text
  import opened Paths
  import opened Crypto
  import opened Base64
  import opened Utils
  import opened KeyManager

  const FormatBase64 := "base64"
  const FormatBinary := "binary"

  const MsgSignFailed := "could not sign file: "
  const MsgSaveSignatureFailed := "could not save signature: "
  const MsgSignAndSaveFailed := "could not sign and save file: "

  /**
   * What `sign_file` returns or raises: the PSS signature of the file's
   * digest under the loaded key (the salt stands for the library's
   * randomness); any failure of loading, hashing or signing is RuntimeError.
   */
  function SignFileOutcome(lib: Primitives, fs: FileStore, file: Path, keyPath: Path, password: Option<string>,
                           salt: Bytes): (r: Result<Bytes>)
    ensures r.Ok? <==> LoadPrivateKeyOutcome(lib, fs, keyPath, password).Ok? && HashFileOutcome(lib, fs, file).Ok?
    ensures r.Ok? ==> r.value == lib.sign(LoadPrivateKeyOutcome(lib, fs, keyPath, password).value,
                                          lib.sha256(fs.files[file]), SignerPadding, SignerHash, salt)
    ensures r.Err? ==> r.error.kind == RuntimeError
  {
    var signed :=
      var key :- LoadPrivateKeyOutcome(lib, fs, keyPath, password);
      var digest :- HashFileOutcome(lib, fs, file);
      Ok(lib.sign(key, digest, SignerPadding, SignerHash, salt));
    match signed
    case Ok(s) => Ok(s)
    case Err(e) => Err(Error(RuntimeError, MsgSignFailed + e.message))
  }

  /** The bytes `save_signature` writes: the Base64 text for "base64", the raw signature otherwise. */
  function SignatureFileBytes(signature: Bytes, format: string): (data: Bytes)
    ensures format == FormatBase64 ==> IsAsciiBytes(data) && AsciiText(data) == EncodeBase64(signature)
    ensures format != FormatBase64 ==> data == signature
  {
    if format == FormatBase64 then
      EncodeIsAscii(signature);
      AsciiRoundTrip(EncodeBase64(signature));
      AsciiBytes(EncodeBase64(signature))
    else signature
  }

  /** What `save_signature` writes or raises: a failed write is IOError. */
  function SaveSignatureOutcome(fs: FileStore, signature: Bytes, output: Path, format: string): (r: Result<FileStore>)
    ensures r.Ok? <==> SafeFileWrite(fs, output, SignatureFileBytes(signature, format)).Ok?
    ensures r.Ok? ==> r.value == SafeFileWrite(fs, output, SignatureFileBytes(signature, format)).value
    ensures r.Err? ==> r.error.kind == IOError
  {
    match SafeFileWrite(fs, output, SignatureFileBytes(signature, format))
    case Ok(fs') => Ok(fs')
    case Err(e) => Err(Error(IOError, MsgSaveSignatureFailed + e.message))
  }

  /** The extension `sign_and_save` appends when no signature path is given. */
  function SignatureExtension(format: string): string {
    if format == FormatBase64 then "b64" else "sig"
  }

  /** `file.with_suffix(file.suffix + '.b64')`, or `'.sig'` for any other format. */
  function DefaultSignaturePath(file: Path, format: string): Result<Path> {
    WithSuffix(file, Suffix(file) + "." + SignatureExtension(format))
  }

  /**
   * The default signature path is the file's path with ".b64" or ".sig"
   * appended to the whole name, in the same directory; its suffix is then
   * that extension.
   */
  lemma DefaultSignaturePathShape(file: Path, format: string)
    requires ValidPath(file) && |file.parts| > 0
    ensures var ext := SignatureExtension(format);
      && DefaultSignaturePath(file, format) == Ok(WithName(file, Name(file) + "." + ext))
      && Suffix(DefaultSignaturePath(file, format).value) == "." + ext
      && DefaultSignaturePath(file, format).value != file
  {
    var ext := SignatureExtension(format);
    assert file.parts[|file.parts| - 1] != "";
    assert '/' !in Name(file);
    assert Suffix(file) + "." + ext == Suffix(file) + ("." + ext);
    AppendToSuffix(file, "." + ext);
    assert Name(file) + "." + ext == Name(file) + ("." + ext);
    SuffixOfExtension(file, Name(file), ext);
    assert Name(file) + "." + ext != Name(file) by {
      assert |Name(file) + "." + ext| > |Name(file)|;
    }
  }

  /** Where the signature went and the store holding it. */
  datatype Saved = Saved(signaturePath: Path, store: FileStore)

  /** `signature_path`, or the default next to the file. */
  function TargetPath(file: Path, signaturePath: Option<Path>, format: string): Result<Path> {
    if signaturePath.Some? then Ok(signaturePath.value) else DefaultSignaturePath(file, format)
  }

  /**
   * What `sign_and_save` returns or raises: sign first, then pick the
   * path, then write; any failure is RuntimeError and nothing is written
   * unless the signature was made.
   */
  function SignAndSaveOutcome(lib: Primitives, fs: FileStore, file: Path, keyPath: Path, signaturePath: Option<Path>,
                              password: Option<string>, format: string, salt: Bytes): (r: Result<Saved>)
    ensures r.Ok? <==> SignFileOutcome(lib, fs, file, keyPath, password, salt).Ok?
                       && TargetPath(file, signaturePath, format).Ok?
                       && SaveSignatureOutcome(fs, SignFileOutcome(lib, fs, file, keyPath, password, salt).value,
                                               TargetPath(file, signaturePath, format).value, format).Ok?
    ensures r.Ok? ==>
      && r.value.signaturePath == TargetPath(file, signaturePath, format).value
      && r.value.store == SaveSignatureOutcome(fs, SignFileOutcome(lib, fs, file, keyPath, password, salt).value,
                                               r.value.signaturePath, format).value
    ensures r.Err? ==> r.error.kind == RuntimeError
  {
    var done :=
      var signature :- SignFileOutcome(lib, fs, file, keyPath, password, salt);
      var target :- TargetPath(file, signaturePath, format);
      var fs' :- SaveSignatureOutcome(fs, signature, target, format);
      Ok(Saved(target, fs'));
    match done
    case Ok(saved) => Ok(saved)
    case Err(e) => Err(Error(RuntimeError, MsgSignAndSaveFailed + e.message))
  }

  /** The key manager's keys after `load_private_key` returned `loaded`. */
  ghost predicate KeysAfterLoad(m: RSAKeyManager, loaded: Result<RsaPrivateKey>,
                                oldPrivate: Option<RsaPrivateKey>, oldPublic: Option<RsaPublicKey>)
    reads m
  {
    if loaded.Ok? then m.privateKey == Some(loaded.value) && m.publicKey == Some(PublicKeyOf(loaded.value))
    else m.privateKey == oldPrivate && m.publicKey == oldPublic
  }

  class RSASigner {
    const keyManager: RSAKeyManager

    /** `key_manager or RSAKeyManager()`: the given manager, or a new 2048-bit one. */
    constructor(crypto: Primitives, keyManager: Option<RSAKeyManager>)
      requires keyManager.Some? ==> keyManager.value.Valid()
      ensures keyManager.Some? ==> this.keyManager == keyManager.value
      ensures keyManager.None? ==> fresh(this.keyManager) && this.keyManager.crypto == crypto
                                   && this.keyManager.keySize == 2048
                                   && this.keyManager.privateKey == None && this.keyManager.publicKey == None
      ensures this.keyManager.Valid()
    {
      if keyManager.Some? {
        this.keyManager := keyManager.value;
      } else {
        this.keyManager := new RSAKeyManager(crypto, 2048);
      }
    }

    /** `sign_file`; the manager keeps the loaded key, even when hashing then fails. */
    method SignFile(fs: FileStore, file: Path, keyPath: Path, password: Option<string>, salt: Bytes)
      returns (r: Result<Bytes>)
      requires keyManager.Valid()
      modifies keyManager
      ensures keyManager.Valid()
      ensures r == SignFileOutcome(keyManager.crypto, fs, file, keyPath, password, salt)
      ensures KeysAfterLoad(keyManager, LoadPrivateKeyOutcome(keyManager.crypto, fs, keyPath, password),
                            old(keyManager.privateKey), old(keyManager.publicKey))
    {
      var key := keyManager.LoadPrivateKey(fs, keyPath, password);
      if key.Err? {
        return Err(Error(RuntimeError, MsgSignFailed + key.error.message));
      }
      var digest, _ := HashFile(keyManager.crypto, fs, file);
      if digest.Err? {
        return Err(Error(RuntimeError, MsgSignFailed + digest.error.message));
      }
      r := Ok(keyManager.crypto.sign(key.value, digest.value, SignerPadding, SignerHash, salt));
    }

    /** `save_signature`. */
    method SaveSignature(fs: FileStore, signature: Bytes, output: Path, format: string) returns (r: Result<FileStore>)
      ensures r == SaveSignatureOutcome(fs, signature, output, format)
    {
      var data := signature;
      if format == FormatBase64 {
        data := SignatureFileBytes(signature, format);
      }
      var written := SafeFileWrite(fs, output, data);
      if written.Err? {
        return Err(Error(IOError, MsgSaveSignatureFailed + written.error.message));
      }
      r := Ok(written.value);
    }

    /** `sign_and_save`. */
    method SignAndSave(fs: FileStore, file: Path, keyPath: Path, signaturePath: Option<Path>,
                       password: Option<string>, format: string, salt: Bytes) returns (r: Result<Saved>)
      requires keyManager.Valid()
      modifies keyManager
      ensures keyManager.Valid()
      ensures r == SignAndSaveOutcome(keyManager.crypto, fs, file, keyPath, signaturePath, password, format, salt)
      ensures KeysAfterLoad(keyManager, LoadPrivateKeyOutcome(keyManager.crypto, fs, keyPath, password),
                            old(keyManager.privateKey), old(keyManager.publicKey))
    {
      var signature := SignFile(fs, file, keyPath, password, salt);
      if signature.Err? {
        return Err(Error(RuntimeError, MsgSignAndSaveFailed + signature.error.message));
      }
      var target := signaturePath;
      if target.None? {
        var path := DefaultSignaturePath(file, format);
        if path.Err? {
          return Err(Error(RuntimeError, MsgSignAndSaveFailed + path.error.message));
        }
        target := Some(path.value);
      }
      var saved := SaveSignature(fs, signature.value, target.value, format);
      if saved.Err? {
        return Err(Error(RuntimeError, MsgSignAndSaveFailed + saved.error.message));
      }
      r := Ok(Saved(target.value, saved.value));
    }
  }

  /**
   * A successful `sign_and_save` with no signature path leaves the
   * signature next to the signed file under its name plus ".b64" or
   * ".sig", and changes no other file.
   */
  lemma SignAndSaveDefaultPath(lib: Primitives, fs: FileStore, file: Path, keyPath: Path,
                               password: Option<string>, format: string, salt: Bytes)
    requires ValidPath(file) && WellFormed(fs)
    requires SignAndSaveOutcome(lib, fs, file, keyPath, None, password, format, salt).Ok?
    ensures var saved := SignAndSaveOutcome(lib, fs, file, keyPath, None, password, format, salt).value;
      && saved.signaturePath == WithName(file, Name(file) + "." + SignatureExtension(format))
      && Suffix(saved.signaturePath) == "." + SignatureExtension(format)
      && saved.store.files == fs.files[saved.signaturePath := SignatureFileBytes(
           SignFileOutcome(lib, fs, file, keyPath, password, salt).value, format)]
      && saved.store.readDenied == fs.readDenied
      && file in saved.store.files && saved.store.files[file] == fs.files[file]
  {
    DefaultSignaturePathShape(file, format);
  }
}
