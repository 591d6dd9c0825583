/**
 * The decisions of the command-line commands `genkey`, `sign` and
 * `verify`: the password confirmation gate, the timestamp gate and the
 * timestamp path, and what each command reports. Every command catches
 * its failures and reports them, so the outcomes below are reports, not
 * errors. The typed passwords, the timestamp service (clock and JSON
 * files) and the library randomness are parameters.
 */
module Cli {
  import opened Common
  import opened Text
  import opened Paths
  import opened Crypto
  import opened Utils
  import opened KeyManager
  import opened Signer
  import opened Verifier

  datatype GenkeyReport = KeysSaved | PasswordMismatch | GenkeyFailed(message: string)

  /**
   * What `sign` prints. Once `sign_and_save` has returned, the signature
   * path is printed; a timestamp failure after that is printed as well.
   */
  datatype SignReport =
    | Signed(signaturePath: Path, timestampPath: Option<Path>)
    | SignedTimestampFailed(signaturePath: Path, message: string)
    | SignFailed(message: string)

  /**
   * What `verify` prints. A valid verdict is printed before the timestamp
   * is loaded; a failure to load it is printed after the verdict.
   */
  datatype VerifyReport =
    | SignatureValid(signedAt: Option<string>)
    | ValidTimestampFailed(message: string)
    | SignatureInvalid
    | VerifyFailed(message: string)

  /** The key `generate_keypair` makes for `genkey`. */
  function GeneratedKey(lib: Primitives, keySize: int, seed: nat): RsaPrivateKey
    requires IsSupportedKeySize(keySize)
  {
    lib.generatePrivateKey(PublicExponent, keySize, seed)
  }

  /** The password `genkey` saves with: the typed one under `--password`, none otherwise. */
  function GenkeyPassword(usePassword: bool, entered: string): Option<string> {
    if usePassword then Some(entered) else None
  }

  /**
   * What `genkey` reports and the store afterwards. An unsupported size is
   * reported before anything else; under `--password` two different entries
   * stop the command before either key file is written; a failure to write
   * the public key leaves the private key file written.
   */
  function GenkeyOutcome(lib: Primitives, fs: FileStore, keySize: int, privatePath: Path, publicPath: Path,
                         usePassword: bool, entered: string, confirmed: string, seed: nat): (r: (GenkeyReport, FileStore))
    ensures !IsSupportedKeySize(keySize) ==> r == (GenkeyFailed(MsgBadKeySize), fs)
    ensures r.0 == PasswordMismatch <==> IsSupportedKeySize(keySize) && usePassword && entered != confirmed
    ensures r.0 == PasswordMismatch ==> r.1 == fs
    ensures r.0 == KeysSaved ==>
      var k := GeneratedKey(lib, keySize, seed);
      r.1.files == fs.files[privatePath := lib.privateBytes(k, EncryptionFor(GenkeyPassword(usePassword, entered)))]
                           [publicPath := lib.publicBytes(PublicKeyOf(k))]
  {
    if !IsSupportedKeySize(keySize) then (GenkeyFailed(MsgBadKeySize), fs)
    else if usePassword && entered != confirmed then (PasswordMismatch, fs)
    else
      var k := GeneratedKey(lib, keySize, seed);
      match SavePrivateKeyOutcome(lib, Some(k), fs, privatePath, GenkeyPassword(usePassword, entered))
      case Err(e) => (GenkeyFailed(e.message), fs)
      case Ok(fs1) =>
        match SavePublicKeyOutcome(lib, Some(PublicKeyOf(k)), fs1, publicPath)
        case Err(e) => (GenkeyFailed(e.message), fs1)
        case Ok(fs2) => (KeysSaved, fs2)
  }

  /** `genkey`: `entered` and `confirmed` are what the two password prompts return. */
  method Genkey(lib: Primitives, fs: FileStore, keySize: int, privatePath: Path, publicPath: Path,
                usePassword: bool, entered: string, confirmed: string, seed: nat)
    returns (report: GenkeyReport, fs': FileStore)
    ensures (report, fs') == GenkeyOutcome(lib, fs, keySize, privatePath, publicPath, usePassword, entered, confirmed, seed)
  {
    var created := Create(lib, keySize);
    if created.Err? {
      return GenkeyFailed(created.error.message), fs;
    }
    var manager := created.value;
    var _, _ := manager.GenerateKeypair(seed);
    var keyPassword: Option<string> := None;
    if usePassword {
      keyPassword := Some(entered);
      if entered != confirmed {
        return PasswordMismatch, fs;
      }
    }
    var saved := manager.SavePrivateKey(fs, privatePath, keyPassword);
    if saved.Err? {
      return GenkeyFailed(saved.error.message), fs;
    }
    var savedPublic := manager.SavePublicKey(saved.value, publicPath);
    if savedPublic.Err? {
      return GenkeyFailed(savedPublic.error.message), saved.value;
    }
    return KeysSaved, savedPublic.value;
  }

  /**
   * The key files `genkey` saved load back as the generated pair, with the
   * password it was given (none without `--password`), and the private key
   * has the requested size.
   */
  lemma GenkeyFilesLoad(lib: Primitives, fs: FileStore, keySize: int, privatePath: Path, publicPath: Path,
                        usePassword: bool, entered: string, confirmed: string, seed: nat)
    requires Sound(lib)
    requires privatePath != publicPath && privatePath !in fs.readDenied && publicPath !in fs.readDenied
    requires GenkeyOutcome(lib, fs, keySize, privatePath, publicPath, usePassword, entered, confirmed, seed).0 == KeysSaved
    ensures IsSupportedKeySize(keySize)
    ensures var k := GeneratedKey(lib, keySize, seed);
      var fs' := GenkeyOutcome(lib, fs, keySize, privatePath, publicPath, usePassword, entered, confirmed, seed).1;
      && KeySize(k) == keySize
      && LoadPrivateKeyOutcome(lib, fs', privatePath, GenkeyPassword(usePassword, entered)) == Ok(k)
      && LoadPublicKeyOutcome(lib, fs', publicPath) == Ok(PublicKeyOf(k))
  {
    var k := GeneratedKey(lib, keySize, seed);
    var pw := GenkeyPassword(usePassword, entered);
    var fs1 := SavePrivateKeyOutcome(lib, Some(k), fs, privatePath, pw).value;
    var fs2 := SavePublicKeyOutcome(lib, Some(PublicKeyOf(k)), fs1, publicPath).value;
    PrivateKeyRoundTrip(lib, k, fs, privatePath, pw);
    assert SafeFileRead(fs2, privatePath) == SafeFileRead(fs1, privatePath);
    PublicKeyRoundTrip(lib, PublicKeyOf(k), fs1, publicPath);
  }

  /** Without `--password` the private key file is unencrypted. */
  lemma GenkeyWithoutPasswordUnencrypted(lib: Primitives, fs: FileStore, keySize: int, privatePath: Path,
                                         publicPath: Path, entered: string, confirmed: string, seed: nat)
    requires privatePath != publicPath
    requires GenkeyOutcome(lib, fs, keySize, privatePath, publicPath, false, entered, confirmed, seed).0 == KeysSaved
    ensures IsSupportedKeySize(keySize)
    ensures GenkeyOutcome(lib, fs, keySize, privatePath, publicPath, false, entered, confirmed, seed).1.files[privatePath]
            == lib.privateBytes(GeneratedKey(lib, keySize, seed), NoEncryption)
  {
  }

  /** `with_suffix('.timestamp.json')`. */
  const TimestampSuffix := ".timestamp.json"

  /** The timestamp path: the signature path with its last suffix replaced by ".timestamp.json". */
  function TimestampPath(signaturePath: Path): (r: Result<Path>)
    ensures r.Ok? <==> Name(signaturePath) != ""
    ensures r.Ok? ==> Parent(r.value) == Parent(signaturePath)
                      && Name(r.value) == Name(signaturePath)[..|Name(signaturePath)| - |Suffix(signaturePath)|] + TimestampSuffix
  {
    assert IsValidSuffix(TimestampSuffix) by {
      assert TimestampSuffix[0] == '.';
    }
    WithSuffix(signaturePath, TimestampSuffix)
  }

  /** `x.txt.sig` and `x.txt.b64`, the default signature names, both map to `x.txt.timestamp.json`. */
  lemma TimestampOfDefaultSignature(file: Path, format: string)
    requires ValidPath(file) && |file.parts| > 0
    ensures TimestampPath(WithName(file, Name(file) + "." + SignatureExtension(format)))
            == Ok(WithName(file, Name(file) + TimestampSuffix))
  {
    var ext := SignatureExtension(format);
    var sp := WithName(file, Name(file) + "." + ext);
    assert file.parts[|file.parts| - 1] != "";
    SuffixOfExtension(file, Name(file), ext);
    var name := Name(file) + "." + ext;
    assert name[..|name| - |"." + ext|] == Name(file);
    var t := TimestampPath(sp).value;
    SameParentAndName(t, WithName(file, Name(file) + TimestampSuffix));
  }

  /** A name with no suffix gets ".timestamp.json" appended. */
  lemma TimestampOfPlainName(sp: Path)
    requires |sp.parts| > 0 && Name(sp) != "" && Suffix(sp) == ""
    ensures TimestampPath(sp) == Ok(WithName(sp, Name(sp) + TimestampSuffix))
  {
    var t := TimestampPath(sp).value;
    assert Name(sp)[..|Name(sp)|] == Name(sp);
    SameParentAndName(t, WithName(sp, Name(sp) + TimestampSuffix));
  }

  /**
   * What `sign` reports and the store afterwards. A timestamp is written
   * only under `--timestamp` and only once `sign_and_save` has returned;
   * a timestamp failure is reported after the signature path.
   * `saveTimestamp` stands for creating the timestamp and saving it.
   */
  function SignCommandOutcome(lib: Primitives, fs: FileStore, file: Path, keyPath: Path, signaturePath: Option<Path>,
                              format: string, usePassword: bool, entered: string, timestamp: bool,
                              saveTimestamp: (FileStore, Path) -> Result<FileStore>, salt: Bytes)
    : (r: (SignReport, FileStore))
    requires format == FormatBinary || format == FormatBase64
    ensures var signed := SignAndSaveOutcome(lib, fs, file, keyPath, signaturePath, GenkeyPassword(usePassword, entered), format, salt);
      && (signed.Err? ==> r == (SignFailed(signed.error.message), fs))
      && (signed.Ok? && !timestamp ==> r == (Signed(signed.value.signaturePath, None), signed.value.store))
      && (signed.Ok? && timestamp ==>
            var tp := TimestampPath(signed.value.signaturePath);
            if tp.Ok? && saveTimestamp(signed.value.store, tp.value).Ok?
            then r == (Signed(signed.value.signaturePath, Some(tp.value)),
                       saveTimestamp(signed.value.store, tp.value).value)
            else r.0.SignedTimestampFailed? && r.0.signaturePath == signed.value.signaturePath
                 && r.1 == signed.value.store)
      && (r.0.SignFailed? <==> signed.Err?)
  {
    StampOutcome(SignAndSaveOutcome(lib, fs, file, keyPath, signaturePath, GenkeyPassword(usePassword, entered), format, salt),
                 fs, timestamp, saveTimestamp)
  }

  /** What `sign` reports once `sign_and_save` has given `signed`, starting from the store `fs`. */
  function StampOutcome(signed: Result<Saved>, fs: FileStore, timestamp: bool,
                        saveTimestamp: (FileStore, Path) -> Result<FileStore>): (SignReport, FileStore)
  {
    match signed
    case Err(e) => (SignFailed(e.message), fs)
    case Ok(saved) =>
      if !timestamp then (Signed(saved.signaturePath, None), saved.store)
      else
        match TimestampPath(saved.signaturePath)
        case Err(e) => (SignedTimestampFailed(saved.signaturePath, e.message), saved.store)
        case Ok(tp) =>
          match saveTimestamp(saved.store, tp)
          case Err(e) => (SignedTimestampFailed(saved.signaturePath, e.message), saved.store)
          case Ok(fs') => (Signed(saved.signaturePath, Some(tp)), fs')
  }

  /** `sign`: `entered` is what the password prompt returns; `format` is one of click's two choices. */
  method SignCommand(lib: Primitives, fs: FileStore, file: Path, keyPath: Path, signaturePath: Option<Path>,
                     format: string, usePassword: bool, entered: string, timestamp: bool,
                     saveTimestamp: (FileStore, Path) -> Result<FileStore>, salt: Bytes)
    returns (report: SignReport, fs': FileStore)
    requires format == FormatBinary || format == FormatBase64
    ensures (report, fs') == SignCommandOutcome(lib, fs, file, keyPath, signaturePath, format, usePassword, entered,
                                                timestamp, saveTimestamp, salt)
  {
    var keyPassword: Option<string> := None;
    if usePassword {
      keyPassword := Some(entered);
    }
    var signer := new RSASigner(lib, None);
    var signed := signer.SignAndSave(fs, file, keyPath, signaturePath, keyPassword, format, salt);
    assert SignCommandOutcome(lib, fs, file, keyPath, signaturePath, format, usePassword, entered, timestamp,
                              saveTimestamp, salt) == StampOutcome(signed, fs, timestamp, saveTimestamp);
    if signed.Err? {
      return SignFailed(signed.error.message), fs;
    }
    var saved := signed.value;
    if !timestamp {
      return Signed(saved.signaturePath, None), saved.store;
    }
    var tp := TimestampPath(saved.signaturePath);
    if tp.Err? {
      return SignedTimestampFailed(saved.signaturePath, tp.error.message), saved.store;
    }
    var stamped := saveTimestamp(saved.store, tp.value);
    if stamped.Err? {
      return SignedTimestampFailed(saved.signaturePath, stamped.error.message), saved.store;
    }
    return Signed(saved.signaturePath, Some(tp.value)), stamped.value;
  }

  /**
   * What `verify` reports. The timestamp is read only for a valid
   * signature and only when a timestamp path was given and exists; a
   * failure to load it is reported after the valid verdict.
   * `loadTimestamp` stands for loading it and picking its time field.
   */
  function VerifyCommandOutcome(lib: Primitives, fs: FileStore, file: Path, signaturePath: Path, keyPath: Path,
                                timestamp: Option<Path>, loadTimestamp: (FileStore, Path) -> Result<string>)
    : (r: VerifyReport)
    ensures var verdict := VerifyFileOutcome(lib, fs, file, signaturePath, keyPath);
      && (verdict.Err? ==> r == VerifyFailed(verdict.error.message))
      && (r == SignatureInvalid <==> verdict == Ok(false))
      && (r.SignatureValid? || r.ValidTimestampFailed? <==> verdict == Ok(true))
      && (r.ValidTimestampFailed? <==> verdict == Ok(true) && timestamp.Some? && Exists(fs, timestamp.value)
                                       && loadTimestamp(fs, timestamp.value).Err?)
      && (verdict == Ok(true) && !(timestamp.Some? && Exists(fs, timestamp.value)) ==> r == SignatureValid(None))
      && (r.SignatureValid? && r.signedAt.Some? ==>
            timestamp.Some? && Exists(fs, timestamp.value) && loadTimestamp(fs, timestamp.value) == Ok(r.signedAt.value))
  {
    match VerifyFileOutcome(lib, fs, file, signaturePath, keyPath)
    case Err(e) => VerifyFailed(e.message)
    case Ok(valid) =>
      if !valid then SignatureInvalid
      else if timestamp.Some? && Exists(fs, timestamp.value) then
        match loadTimestamp(fs, timestamp.value)
        case Err(e) => ValidTimestampFailed(e.message)
        case Ok(signedAt) => SignatureValid(Some(signedAt))
      else SignatureValid(None)
  }

  /** `verify`. */
  method VerifyCommand(lib: Primitives, fs: FileStore, file: Path, signaturePath: Path, keyPath: Path,
                       timestamp: Option<Path>, loadTimestamp: (FileStore, Path) -> Result<string>)
    returns (report: VerifyReport)
    ensures report == VerifyCommandOutcome(lib, fs, file, signaturePath, keyPath, timestamp, loadTimestamp)
  {
    var verifier := new RSAVerifier(lib, None);
    var verdict := verifier.VerifyFile(fs, file, signaturePath, keyPath);
    if verdict.Err? {
      return VerifyFailed(verdict.error.message);
    }
    if !verdict.value {
      return SignatureInvalid;
    }
    if timestamp.Some? && Exists(fs, timestamp.value) {
      var loaded := loadTimestamp(fs, timestamp.value);
      if loaded.Err? {
        return ValidTimestampFailed(loaded.error.message);
      }
      return SignatureValid(Some(loaded.value));
    }
    return SignatureValid(None);
  }
}
