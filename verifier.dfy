/**
 * `RSAVerifier`: loads a signature file (Base64 when its suffix is ".b64"
 * in any letter case, raw bytes otherwise), and checks it against the
 * SHA-256 digest of a file under a public key loaded from a PEM file.
 * A signature that does not match is the answer `false`, not an error.
 */
module Verifier {
  import opened Common
  import opened Text
  import opened Paths
  import opened Crypto
  import opened Base64
  import opened Utils
  import opened KeyManager

  /** The padding and hash `verify_signature` checks with: MGF1-SHA-256, maximum salt, SHA-256. */
  const VerifierPadding := PSS(SHA256, MaxLength)
  const VerifierHash := SHA256

  const Base64Suffix := ".b64"

  const MsgNotUtf8 := "signature file is not ASCII text"
  const MsgLoadSignatureFailed := "could not load signature: "
  const MsgVerifyFailed := "could not verify signature: "
  const MsgVerifyFileFailed := "could not verify file: "

  /** The signature file is read as Base64 text. */
  predicate IsBase64SignaturePath(p: Path) {
    Lower(Suffix(p)) == Base64Suffix
  }

  /**
   * What `load_signature` returns or raises. For a ".b64" path the bytes
   * must be ASCII text (otherwise UTF-8 decoding or the Base64 decoder
   * fails) and are Base64-decoded; any failure is IOError.
   */
  function LoadSignatureOutcome(lib: Primitives, fs: FileStore, p: Path): (r: Result<Bytes>)
    ensures SafeFileRead(fs, p).Err? ==> r.Err?
    ensures !IsBase64SignaturePath(p) ==> (r.Ok? <==> SafeFileRead(fs, p).Ok?)
    ensures !IsBase64SignaturePath(p) && r.Ok? ==> r.value == fs.files[p]
    ensures IsBase64SignaturePath(p) ==>
      (r.Ok? <==> SafeFileRead(fs, p).Ok? && IsAsciiBytes(fs.files[p]) && DecodeBase64(lib, AsciiText(fs.files[p])).Ok?)
    ensures IsBase64SignaturePath(p) && r.Ok? ==>
      IsAsciiBytes(fs.files[p]) && r == DecodeBase64(lib, AsciiText(fs.files[p]))
    ensures r.Err? ==> r.error.kind == IOError
  {
    var loaded :=
      if IsBase64SignaturePath(p) then
        var raw :- SafeFileRead(fs, p);
        if !IsAsciiBytes(raw) then Err(Error(ValueError, MsgNotUtf8))
        else DecodeBase64(lib, AsciiText(raw))
      else SafeFileRead(fs, p);
    match loaded
    case Ok(sig) => Ok(sig)
    case Err(e) => Err(Error(IOError, MsgLoadSignatureFailed + e.message))
  }

  /**
   * What `verify_signature` returns or raises: the PSS verdict on the
   * file's digest under the loaded public key, or RuntimeError when the
   * key cannot be loaded or the file cannot be hashed.
   */
  function VerifySignatureOutcome(lib: Primitives, fs: FileStore, file: Path, signature: Bytes, keyPath: Path)
    : (r: Result<bool>)
    ensures r.Ok? <==> LoadPublicKeyOutcome(lib, fs, keyPath).Ok? && HashFileOutcome(lib, fs, file).Ok?
    ensures r.Ok? ==> r.value == lib.verify(LoadPublicKeyOutcome(lib, fs, keyPath).value, signature,
                                            lib.sha256(fs.files[file]), VerifierPadding, VerifierHash)
    ensures r.Err? ==> r.error.kind == RuntimeError
  {
    var verdict :=
      var key :- LoadPublicKeyOutcome(lib, fs, keyPath);
      var digest :- HashFileOutcome(lib, fs, file);
      Ok(lib.verify(key, signature, digest, VerifierPadding, VerifierHash));
    match verdict
    case Ok(valid) => Ok(valid)
    case Err(e) => Err(Error(RuntimeError, MsgVerifyFailed + e.message))
  }

  /** What `verify_file` returns or raises: the verdict on the loaded signature; failures are RuntimeError. */
  function VerifyFileOutcome(lib: Primitives, fs: FileStore, file: Path, signaturePath: Path, keyPath: Path)
    : (r: Result<bool>)
    ensures r.Ok? <==> LoadSignatureOutcome(lib, fs, signaturePath).Ok?
                       && VerifySignatureOutcome(lib, fs, file, LoadSignatureOutcome(lib, fs, signaturePath).value, keyPath).Ok?
    ensures r.Ok? ==> r == VerifySignatureOutcome(lib, fs, file, LoadSignatureOutcome(lib, fs, signaturePath).value, keyPath)
    ensures r.Err? ==> r.error.kind == RuntimeError
  {
    var verdict :=
      var signature :- LoadSignatureOutcome(lib, fs, signaturePath);
      VerifySignatureOutcome(lib, fs, file, signature, keyPath);
    match verdict
    case Ok(valid) => Ok(valid)
    case Err(e) => Err(Error(RuntimeError, MsgVerifyFileFailed + e.message))
  }

  class RSAVerifier {
    const keyManager: RSAKeyManager

    /** `key_manager or RSAKeyManager()`. */
    constructor(crypto: Primitives, keyManager: Option<RSAKeyManager>)
      requires keyManager.Some? ==> keyManager.value.Valid()
      ensures keyManager.Some? ==> this.keyManager == keyManager.value
      ensures keyManager.None? ==> fresh(this.keyManager) && this.keyManager.crypto == crypto
                                   && this.keyManager.keySize == 2048
                                   && this.keyManager.privateKey == None && this.keyManager.publicKey == None
      ensures this.keyManager.Valid()
    {
      if keyManager.Some? {
        this.keyManager := keyManager.value;
      } else {
        this.keyManager := new RSAKeyManager(crypto, 2048);
      }
    }

    /** `load_signature`. */
    method LoadSignature(fs: FileStore, p: Path) returns (r: Result<Bytes>)
      ensures r == LoadSignatureOutcome(keyManager.crypto, fs, p)
    {
      var raw := SafeFileRead(fs, p);
      if raw.Err? {
        return Err(Error(IOError, MsgLoadSignatureFailed + raw.error.message));
      }
      if !IsBase64SignaturePath(p) {
        return Ok(raw.value);
      }
      if !IsAsciiBytes(raw.value) {
        return Err(Error(IOError, MsgLoadSignatureFailed + MsgNotUtf8));
      }
      var decoded := DecodeBase64(keyManager.crypto, AsciiText(raw.value));
      if decoded.Err? {
        return Err(Error(IOError, MsgLoadSignatureFailed + decoded.error.message));
      }
      r := Ok(decoded.value);
    }

    /** `verify_signature`; a loaded public key replaces the manager's. */
    method VerifySignature(fs: FileStore, file: Path, signature: Bytes, keyPath: Path) returns (r: Result<bool>)
      requires keyManager.Valid()
      modifies keyManager
      ensures keyManager.Valid()
      ensures r == VerifySignatureOutcome(keyManager.crypto, fs, file, signature, keyPath)
      ensures keyManager.privateKey == old(keyManager.privateKey)
      ensures var loaded := LoadPublicKeyOutcome(keyManager.crypto, fs, keyPath);
        keyManager.publicKey == if loaded.Ok? then Some(loaded.value) else old(keyManager.publicKey)
    {
      var key := keyManager.LoadPublicKey(fs, keyPath);
      if key.Err? {
        return Err(Error(RuntimeError, MsgVerifyFailed + key.error.message));
      }
      var digest, _ := HashFile(keyManager.crypto, fs, file);
      if digest.Err? {
        return Err(Error(RuntimeError, MsgVerifyFailed + digest.error.message));
      }
      r := Ok(keyManager.crypto.verify(key.value, signature, digest.value, VerifierPadding, VerifierHash));
    }

    /** `verify_file`. */
    method VerifyFile(fs: FileStore, file: Path, signaturePath: Path, keyPath: Path) returns (r: Result<bool>)
      requires keyManager.Valid()
      modifies keyManager
      ensures keyManager.Valid()
      ensures r == VerifyFileOutcome(keyManager.crypto, fs, file, signaturePath, keyPath)
      ensures keyManager.privateKey == old(keyManager.privateKey)
      ensures var loaded := LoadPublicKeyOutcome(keyManager.crypto, fs, keyPath);
        keyManager.publicKey ==
          if LoadSignatureOutcome(keyManager.crypto, fs, signaturePath).Ok? && loaded.Ok? then Some(loaded.value)
          else old(keyManager.publicKey)
    {
      var signature := LoadSignature(fs, signaturePath);
      if signature.Err? {
        return Err(Error(RuntimeError, MsgVerifyFileFailed + signature.error.message));
      }
      var verdict := VerifySignature(fs, file, signature.value, keyPath);
      if verdict.Err? {
        return Err(Error(RuntimeError, MsgVerifyFileFailed + verdict.error.message));
      }
      r := verdict;
    }
  }

  /** ".b64" in any letter case selects Base64; ".sig" does not. */
  lemma SignatureSuffixes(p: Path)
    ensures Suffix(p) == ".b64" || Suffix(p) == ".B64" ==> IsBase64SignaturePath(p)
    ensures Suffix(p) == ".sig" ==> !IsBase64SignaturePath(p)
  {
    LowerSuffixes(Suffix(p));
  }

  /** ".b64" and ".B64" lower-case to ".b64"; ".sig" does not. */
  lemma LowerSuffixes(s: string)
    ensures s == ".b64" || s == ".B64" ==> Lower(s) == Base64Suffix
    ensures s == ".sig" ==> Lower(s) != Base64Suffix
  {
    var l := Lower(s);
    if s == ".b64" || s == ".B64" {
      assert l[0] == LowerChar(s[0]) == '.' && l[1] == LowerChar(s[1]) == 'b';
      assert l[2] == LowerChar(s[2]) == '6' && l[3] == LowerChar(s[3]) == '4';
      assert l == Base64Suffix;
    }
    if s == ".sig" {
      assert l[1] == LowerChar(s[1]) == 's';
      assert Base64Suffix[1] == 'b';
    }
  }

  /** A Base64 signature file written under a ".b64" name loads back as the signature. */
  lemma LoadBase64Signature(lib: Primitives, fs: FileStore, p: Path, signature: Bytes)
    requires IsBase64SignaturePath(p) && p in fs.files && p !in fs.readDenied
    requires IsAsciiBytes(fs.files[p]) && AsciiText(fs.files[p]) == EncodeBase64(signature)
    ensures LoadSignatureOutcome(lib, fs, p) == Ok(signature)
  {
    DecodeBase64OfEncode(lib, signature);
  }

  /** A raw signature file under any other name loads back unchanged. */
  lemma LoadRawSignature(lib: Primitives, fs: FileStore, p: Path)
    requires !IsBase64SignaturePath(p) && p in fs.files && p !in fs.readDenied
    ensures LoadSignatureOutcome(lib, fs, p) == Ok(fs.files[p])
  {
  }
}
