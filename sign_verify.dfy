/**
 * The signer and the verifier together: a file signed by `sign_and_save`
 * verifies with `verify_file` under the matching public key, in both
 * formats and with a password-protected key; after the file changes, or
 * under another public key, the verdict is the PSS check of the signature
 * against that digest or key.
 */
module SignVerify {
  import opened Common
  import opened Text
  import opened Paths
  import opened Crypto
  import opened Base64
  import opened Utils
  import opened KeyManager
  import opened Signer
  import opened Verifier

  /** The path `Signer.DefaultSignaturePath` gives for `file`: its name with ".b64" or ".sig" appended. */
  function DefaultSignatureFile(file: Path, format: string): (r: Path)
    requires ValidPath(file) && |file.parts| > 0
    ensures DefaultSignaturePath(file, format) == Ok(r)
  {
    DefaultSignaturePathShape(file, format);
    WithName(file, Name(file) + "." + SignatureExtension(format))
  }

  /** The signature file written by `sign_and_save` loads back as the signature it made. */
  lemma {:induction false} SavedSignatureLoads(lib: Primitives, fs: FileStore, file: Path, keyPath: Path,
                                               password: Option<string>, format: string, salt: Bytes)
    requires WellFormed(fs) && ValidPath(file) && |file.parts| > 0
    requires DefaultSignatureFile(file, format) !in fs.readDenied
    requires SignAndSaveOutcome(lib, fs, file, keyPath, None, password, format, salt).Ok?
    ensures var saved := SignAndSaveOutcome(lib, fs, file, keyPath, None, password, format, salt).value;
      LoadSignatureOutcome(lib, saved.store, saved.signaturePath)
        == Ok(SignFileOutcome(lib, fs, file, keyPath, password, salt).value)
  {
    var saved := SignAndSaveOutcome(lib, fs, file, keyPath, None, password, format, salt).value;
    var signature := SignFileOutcome(lib, fs, file, keyPath, password, salt).value;
    SignAndSaveDefaultPath(lib, fs, file, keyPath, password, format, salt);
    assert saved.store.files[saved.signaturePath] == SignatureFileBytes(signature, format);
    LoadSignatureFile(lib, saved.store, saved.signaturePath, signature, format);
  }

  /** A signature file as `save_signature` writes it, under the extension for its format, loads back. */
  lemma LoadSignatureFile(lib: Primitives, store: FileStore, p: Path, signature: Bytes, format: string)
    requires p in store.files && p !in store.readDenied
    requires store.files[p] == SignatureFileBytes(signature, format)
    requires Suffix(p) == "." + SignatureExtension(format)
    ensures LoadSignatureOutcome(lib, store, p) == Ok(signature)
  {
    if format == FormatBase64 {
      assert Suffix(p) == ".b64";
      SignatureSuffixes(p);
      LoadBase64Signature(lib, store, p, signature);
    } else {
      assert Suffix(p) == ".sig";
      SignatureSuffixes(p);
      LoadRawSignature(lib, store, p);
    }
  }

  /**
   * What `verify_file` answers on the signature `sign_and_save` left next
   * to the file, after the file's content has become `content` (the same
   * content when nothing changed) and with the public key file `pubPath`
   * holding `pub`: exactly the PSS check of that signature against the
   * digest of `content` under `pub`.
   */
  lemma {:induction false} VerdictOnSavedSignature(lib: Primitives, fs: FileStore, file: Path, keyPath: Path,
                                                   password: Option<string>, format: string, salt: Bytes,
                                                   pubPath: Path, pub: RsaPublicKey, content: Bytes)
    requires PublicRoundTrip(lib)
    requires WellFormed(fs) && ValidPath(file) && |file.parts| > 0
    requires DefaultSignatureFile(file, format) !in fs.readDenied
    requires pubPath != DefaultSignatureFile(file, format) && pubPath != file
    requires pubPath in fs.files && pubPath !in fs.readDenied && fs.files[pubPath] == lib.publicBytes(pub)
    requires SignAndSaveOutcome(lib, fs, file, keyPath, None, password, format, salt).Ok?
    ensures var saved := SignAndSaveOutcome(lib, fs, file, keyPath, None, password, format, salt).value;
      var changed := saved.store.(files := saved.store.files[file := content]);
      VerifyFileOutcome(lib, changed, file, saved.signaturePath, pubPath)
        == Ok(lib.verify(pub, SignFileOutcome(lib, fs, file, keyPath, password, salt).value,
                         lib.sha256(content), VerifierPadding, VerifierHash))
  {
    var saved := SignAndSaveOutcome(lib, fs, file, keyPath, None, password, format, salt).value;
    var changed := saved.store.(files := saved.store.files[file := content]);
    var signature := SignFileOutcome(lib, fs, file, keyPath, password, salt).value;
    SignAndSaveDefaultPath(lib, fs, file, keyPath, password, format, salt);
    SavedSignatureLoads(lib, fs, file, keyPath, password, format, salt);
    assert SafeFileRead(changed, saved.signaturePath) == SafeFileRead(saved.store, saved.signaturePath);
    assert LoadSignatureOutcome(lib, changed, saved.signaturePath) == Ok(signature);
    assert changed.files[pubPath] == lib.publicBytes(pub);
    assert LoadPublicKeyOutcome(lib, changed, pubPath) == Ok(pub);
    assert HashFileOutcome(lib, changed, file) == Ok(lib.sha256(content));
  }

  /**
   * `test_sign_and_verify_success` and `test_sign_base64_format`: with the
   * public key that matches the signing key, the untouched file verifies.
   */
  lemma SignedFileVerifies(lib: Primitives, fs: FileStore, file: Path, keyPath: Path, password: Option<string>,
                           format: string, salt: Bytes, pubPath: Path, k: RsaPrivateKey)
    requires PublicRoundTrip(lib) && SignatureVerifies(lib)
    requires WellFormed(fs) && ValidPath(file) && |file.parts| > 0
    requires DefaultSignatureFile(file, format) !in fs.readDenied
    requires pubPath != DefaultSignatureFile(file, format) && pubPath != file
    requires pubPath in fs.files && pubPath !in fs.readDenied && fs.files[pubPath] == lib.publicBytes(PublicKeyOf(k))
    requires LoadPrivateKeyOutcome(lib, fs, keyPath, password) == Ok(k)
    requires SignAndSaveOutcome(lib, fs, file, keyPath, None, password, format, salt).Ok?
    ensures var saved := SignAndSaveOutcome(lib, fs, file, keyPath, None, password, format, salt).value;
      VerifyFileOutcome(lib, saved.store, file, saved.signaturePath, pubPath) == Ok(true)
  {
    var saved := SignAndSaveOutcome(lib, fs, file, keyPath, None, password, format, salt).value;
    SignAndSaveDefaultPath(lib, fs, file, keyPath, password, format, salt);
    var content := fs.files[file];
    VerdictOnSavedSignature(lib, fs, file, keyPath, password, format, salt, pubPath, PublicKeyOf(k), content);
    assert saved.store.(files := saved.store.files[file := content]) == saved.store;
  }

  /**
   * `test_verify_tampered_file`: once the file is rewritten with other
   * content, the verdict is the PSS check against the new digest, so it is
   * false whenever the scheme rejects the old signature for that digest.
   */
  lemma TamperedFileVerdict(lib: Primitives, fs: FileStore, file: Path, keyPath: Path, password: Option<string>,
                            format: string, salt: Bytes, pubPath: Path, k: RsaPrivateKey, tampered: Bytes)
    requires PublicRoundTrip(lib)
    requires WellFormed(fs) && ValidPath(file) && |file.parts| > 0
    requires DefaultSignatureFile(file, format) !in fs.readDenied
    requires pubPath != DefaultSignatureFile(file, format) && pubPath != file
    requires pubPath in fs.files && pubPath !in fs.readDenied && fs.files[pubPath] == lib.publicBytes(PublicKeyOf(k))
    requires LoadPrivateKeyOutcome(lib, fs, keyPath, password) == Ok(k)
    requires SignAndSaveOutcome(lib, fs, file, keyPath, None, password, format, salt).Ok?
    requires var saved := SignAndSaveOutcome(lib, fs, file, keyPath, None, password, format, salt).value;
      SafeFileWrite(saved.store, file, tampered).Ok?
    requires !lib.verify(PublicKeyOf(k), lib.sign(k, lib.sha256(fs.files[file]), SignerPadding, SignerHash, salt),
                         lib.sha256(tampered), VerifierPadding, VerifierHash)
    ensures var saved := SignAndSaveOutcome(lib, fs, file, keyPath, None, password, format, salt).value;
      VerifyFileOutcome(lib, SafeFileWrite(saved.store, file, tampered).value, file, saved.signaturePath, pubPath)
        == Ok(false)
  {
    var saved := SignAndSaveOutcome(lib, fs, file, keyPath, None, password, format, salt).value;
    var rewritten := SafeFileWrite(saved.store, file, tampered).value;
    VerdictOnSavedSignature(lib, fs, file, keyPath, password, format, salt, pubPath, PublicKeyOf(k), tampered);
    var changed := saved.store.(files := saved.store.files[file := tampered]);
    SignAndSaveDefaultPath(lib, fs, file, keyPath, password, format, salt);
    // The rewrite may also create directories; nothing the verifier reads depends on them.
    assert rewritten.files == changed.files && rewritten.readDenied == changed.readDenied;
    assert VerifyFileOutcome(lib, rewritten, file, saved.signaturePath, pubPath)
        == VerifyFileOutcome(lib, changed, file, saved.signaturePath, pubPath) by {
      ReadableStoreAgrees(lib, rewritten, changed, file, saved.signaturePath, pubPath);
    }
  }

  /** Two stores with the same files and read permissions give the same verdict. */
  lemma ReadableStoreAgrees(lib: Primitives, a: FileStore, b: FileStore, file: Path, signaturePath: Path, keyPath: Path)
    requires a.files == b.files && a.readDenied == b.readDenied
    requires file in a.files && signaturePath in a.files && keyPath in a.files
    ensures VerifyFileOutcome(lib, a, file, signaturePath, keyPath) == VerifyFileOutcome(lib, b, file, signaturePath, keyPath)
  {
    assert SafeFileRead(a, signaturePath) == SafeFileRead(b, signaturePath);
    assert SafeFileRead(a, keyPath) == SafeFileRead(b, keyPath);
    assert HashFileOutcome(lib, a, file) == HashFileOutcome(lib, b, file);
  }

  /**
   * Verifying under a public key other than the signer's gives the PSS
   * check under that key, so false whenever the scheme rejects it.
   */
  lemma OtherKeyVerdict(lib: Primitives, fs: FileStore, file: Path, keyPath: Path, password: Option<string>,
                        format: string, salt: Bytes, otherPath: Path, k: RsaPrivateKey, other: RsaPublicKey)
    requires PublicRoundTrip(lib)
    requires WellFormed(fs) && ValidPath(file) && |file.parts| > 0
    requires DefaultSignatureFile(file, format) !in fs.readDenied
    requires otherPath != DefaultSignatureFile(file, format) && otherPath != file
    requires otherPath in fs.files && otherPath !in fs.readDenied && fs.files[otherPath] == lib.publicBytes(other)
    requires LoadPrivateKeyOutcome(lib, fs, keyPath, password) == Ok(k)
    requires SignAndSaveOutcome(lib, fs, file, keyPath, None, password, format, salt).Ok?
    requires !lib.verify(other, lib.sign(k, lib.sha256(fs.files[file]), SignerPadding, SignerHash, salt),
                         lib.sha256(fs.files[file]), VerifierPadding, VerifierHash)
    ensures var saved := SignAndSaveOutcome(lib, fs, file, keyPath, None, password, format, salt).value;
      VerifyFileOutcome(lib, saved.store, file, saved.signaturePath, otherPath) == Ok(false)
  {
    var saved := SignAndSaveOutcome(lib, fs, file, keyPath, None, password, format, salt).value;
    SignAndSaveDefaultPath(lib, fs, file, keyPath, password, format, salt);
    var content := fs.files[file];
    VerdictOnSavedSignature(lib, fs, file, keyPath, password, format, salt, otherPath, other, content);
    assert saved.store.(files := saved.store.files[file := content]) == saved.store;
  }

  /**
   * `test_sign_with_password_protected_key`: save the private key under a
   * password and the public key beside it, sign with that password, and
   * the signature verifies.
   */
  lemma {:induction false} PasswordProtectedKeyPipeline(lib: Primitives, fs0: FileStore, k: RsaPrivateKey,
                                                        keyPath: Path, pubPath: Path, password: string,
                                                        file: Path, format: string, salt: Bytes)
    requires Sound(lib)
    requires WellFormed(fs0) && ValidPath(file) && |file.parts| > 0
    requires keyPath != pubPath && keyPath !in fs0.readDenied && pubPath !in fs0.readDenied
    requires DefaultSignatureFile(file, format) !in fs0.readDenied
    requires pubPath != DefaultSignatureFile(file, format) && pubPath != file && keyPath != file
    requires SavePrivateKeyOutcome(lib, Some(k), fs0, keyPath, Some(password)).Ok?
    requires var fs1 := SavePrivateKeyOutcome(lib, Some(k), fs0, keyPath, Some(password)).value;
      SavePublicKeyOutcome(lib, Some(PublicKeyOf(k)), fs1, pubPath).Ok?
    requires var fs1 := SavePrivateKeyOutcome(lib, Some(k), fs0, keyPath, Some(password)).value;
      var fs2 := SavePublicKeyOutcome(lib, Some(PublicKeyOf(k)), fs1, pubPath).value;
      SignAndSaveOutcome(lib, fs2, file, keyPath, None, Some(password), format, salt).Ok?
    ensures var fs1 := SavePrivateKeyOutcome(lib, Some(k), fs0, keyPath, Some(password)).value;
      var fs2 := SavePublicKeyOutcome(lib, Some(PublicKeyOf(k)), fs1, pubPath).value;
      var saved := SignAndSaveOutcome(lib, fs2, file, keyPath, None, Some(password), format, salt).value;
      VerifyFileOutcome(lib, saved.store, file, saved.signaturePath, pubPath) == Ok(true)
  {
    var fs1 := SavePrivateKeyOutcome(lib, Some(k), fs0, keyPath, Some(password)).value;
    var fs2 := SavePublicKeyOutcome(lib, Some(PublicKeyOf(k)), fs1, pubPath).value;
    WriteKeepsWellFormed(fs0, keyPath, lib.privateBytes(k, EncryptionFor(Some(password))));
    WriteKeepsWellFormed(fs1, pubPath, lib.publicBytes(PublicKeyOf(k)));
    PrivateKeyRoundTrip(lib, k, fs0, keyPath, Some(password));
    assert LoadPrivateKeyOutcome(lib, fs1, keyPath, Some(password)) == Ok(k);
    assert SafeFileRead(fs2, keyPath) == SafeFileRead(fs1, keyPath);
    assert LoadPrivateKeyOutcome(lib, fs2, keyPath, Some(password)) == Ok(k);
    SignedFileVerifies(lib, fs2, file, keyPath, Some(password), format, salt, pubPath, k);
  }
}
