# RSA file signing: a Dafny model

This project models the core of a small Python system that signs files and checks their signatures:

- An RSA key manager generates 2048- or 3072-bit keys with public exponent 65537. It writes them as PEM files: PKCS#8 for the private key, optionally encrypted with a password, and SubjectPublicKeyInfo for the public key. It loads them back and sorts the failures into error kinds.
- The signer hashes a file with SHA-256, reading it in 4096-byte chunks. It signs the digest with RSASSA-PSS (MGF1-SHA-256, maximum salt length, SHA-256). It writes the signature raw (`.sig`) or as Base64 text (`.b64`), by default next to the file.
- The verifier loads a signature: Base64 when the path's suffix, lower-cased, is `.b64`, raw bytes otherwise. It answers `true` or `false` with the same PSS parameters. A signature that does not match is the answer `false`, not an error.
- The file utilities cover reading and writing with their error mapping, parent-directory creation, path validation, Base64, and the keyword filter on log records.
- The command-line commands `genkey`, `sign` and `verify` contribute their control decisions. The web application contributes its extension check, its password field and its upload guards.

The model is written as follows:

- **Classes:** the stateful objects of the source (`RSAKeyManager`, `RSASigner`, `RSAVerifier`, the open file and the SHA-256 hasher in `hash_file`) are Dafny classes. Each method is proved equal to an outcome function (`...Outcome`). That function says what the operation returns or raises and what the file system looks like afterwards. The properties are lemmas about those functions.
- **File system:** a value (`Utils.FileStore`). It records which paths hold which bytes, which are directories, and which may not be read or written.
- **Exceptions:** Python exceptions are `Result` values whose `Error` carries the exception class (`ErrorKind`) and a message. The messages are English renderings of the source's messages.
- **The `cryptography` library:** a value of function type (`Crypto.Primitives`). Its documented guarantees are separate predicates, collected in `Crypto.Sound`:
  - a digest is 32 bytes;
  - a generated key has the requested size;
  - PEM round trips work;
  - a wrong password raises ValueError;
  - a password whose presence does not match the file raises TypeError;
  - a PSS signature verifies under the matching public key;
  - a signature is as long as the modulus.

  Each lemma assumes only the guarantees it uses.

Where the code and its design description disagree, the model follows the code:

- **Load errors.** The design describes one combined "wrong passphrase or corrupt file" error for every failed decryption or parse. `load_private_key` raises that combined ValueError only when the library's ValueError text contains "Bad decrypt" or "could not deserialize". The match is case-sensitive (`KeyManager.CapitalisedMessagePassesThrough`). Any other ValueError, including the not-RSA one, is re-raised unchanged.
- **Password presence.** A missing password for an encrypted key, or a password for an unencrypted one, makes the library raise TypeError. `load_private_key` reports that as IOError, not as the combined error (`KeyManager.PasswordPresenceMismatchIsIOError`).
- **`load_public_key`** reports every failure, including "not an RSA key", as IOError.
- **Load failures in signing and verifying** become RuntimeError: `sign_file`, `sign_and_save`, `verify_signature` and `verify_file` wrap every failure they catch in RuntimeError. Signature-load failures become IOError inside `load_signature`, then RuntimeError in `verify_file`.
- **`output_format`.** The `output_format` argument of `sign_file` has no effect; the model leaves it out.
- **The default signature name** appends `.sig` or `.b64` to the whole file name (`a.txt` → `a.txt.sig`). The `sign` command's timestamp file replaces only the last suffix of the signature path (`a.txt.sig` → `a.txt.timestamp.json`), not `<signature>.timestamp.json`.
- **`allowed_file`** is defined in the web application but no route calls it.

## Model

| member | source | states |
|---|---|---|
| Utils.OpenForReading | rsa_signature/utils.py:45-46 | Opening succeeds exactly for a readable file and yields its bytes. Otherwise it fails with FileNotFoundError, PermissionError or IsADirectoryError. |
| Utils.SafeFileRead | rsa_signature/utils.py:42-52 | Succeeds exactly for a readable file, with its bytes unchanged. A missing path raises FileNotFoundError, an unreadable file PermissionError, a directory IOError. |
| Utils.MakeDirs | rsa_signature/utils.py:36-40 | On success the directory exists and no file or permission changes. Every new directory is the target or one of its ancestors, and was neither a file nor a directory before. An existing directory is left as it is. An existing file in the way, or a forbidden directory, raises FileExistsError or PermissionError. |
| Utils.OpenForWriting | rsa_signature/utils.py:58-59 | Succeeds exactly when the path is not a directory and may be written, and then the path holds the data. A directory raises IsADirectoryError, a forbidden path PermissionError. |
| Utils.SafeFileWrite | rsa_signature/utils.py:54-63 | A failed parent creation fails the write, as PermissionError exactly when the creation was refused for permission. A directory at the path is IOError, a forbidden path PermissionError. Otherwise the write succeeds: exactly one file changes, to the data, and its parent directory exists. |
| Utils.WriteKeepsWellFormed | rsa_signature/utils.py:54-63 | A write never turns a directory into a file, nor the root into a file. |
| Utils.ReadAfterWrite | rsa_signature/utils.py:42-63 | Reading back a written, readable file gives the written bytes. |
| Utils.WriteKeepsOthers | rsa_signature/utils.py:54-63 | A write leaves every other file's read result unchanged. |
| Utils.ValidateFilePath | rsa_signature/utils.py:87-94 | Returns the path exactly when it is a file. A missing path raises FileNotFoundError and an existing non-file raises ValueError, each if and only if. |
| Utils.AsciiRoundTrip | rsa_signature/utils.py:65-67 | Encoding ASCII text to bytes and decoding it back gives the text. |
| Utils.BinaryReader.Read | rsa_signature/utils.py:81 | `f.read(4096)` returns the next bytes at the position: the requested count, or what is left. It advances the position by that much. |
| Utils.Sha256Hasher.Update | rsa_signature/utils.py:82 | The hasher has absorbed the old prefix followed by the chunk. |
| Utils.HashFileOutcome | rsa_signature/utils.py:76-85 | Succeeds exactly for a readable file, with the SHA-256 of its whole content. Every failure is IOError. |
| Utils.HashFile | rsa_signature/utils.py:76-85 | The chunked loop returns the same as hashing the whole content at once. The chunks, in order, are exactly the file, each 1 to 4096 bytes. The digest is 32 bytes. |
| Utils.AnyContained | rsa_signature/utils.py:30 | True exactly when some keyword occurs in the text. |
| Utils.KeepRecord | rsa_signature/utils.py:25-30 | A record is kept exactly when no sensitive keyword occurs in its lower-cased message. |
| Utils.KeepRecordIff | rsa_signature/utils.py:28-30 | Kept exactly when no keyword occurs at any position of the lower-cased message. |
| Utils.KeepRecordIgnoresCase | rsa_signature/utils.py:29 | Lower-casing a message first does not change the filter's decision. |
| Utils.MentionIsDropped | rsa_signature/utils.py:28-30 | Any message containing "password", "private_key" or "secret" is dropped, whatever text surrounds it. |
| Text.ContainsIff | rsa_signature/utils.py:30 | The recursive substring test holds exactly when the substring occurs at some index, as Python's `in` does. |
| Text.MissingCharNotContained | rsa_signature/key_manager.py:153 | A text lacking some character of the pattern does not contain the pattern. |
| Text.Lower | rsa_signature/utils.py:29 | Lower-casing keeps the length, maps each character separately, and leaves no ASCII capital. |
| Text.LastIndexOf | rsa_signature/webapp.py:28 | The index of the last occurrence of a character, or -1 when there is none. |
| Base64.EncodeBase64 | rsa_signature/utils.py:65-67 | The text has length 4⌈n/3⌉. |
| Base64.EncodeAlphabet | rsa_signature/utils.py:65-67 | Every character of the encoding is from the Base64 alphabet or '='. |
| Base64.EncodeIsAscii | rsa_signature/utils.py:65-67 | The encoding is ASCII text, so decoding it as UTF-8 cannot fail. |
| Base64.DecodeBase64 | rsa_signature/utils.py:69-74 | Text with a non-ASCII character is refused. Every failure is ValueError. |
| Base64.DecodeEncode | rsa_signature/utils.py:65-74 | An encoding is canonical, and decoding it gives the bytes back. |
| Base64.EncodeDecode | rsa_signature/utils.py:65-74 | Canonical text is the encoding of what it decodes to. |
| Base64.DecodeBase64OfEncode | rsa_signature/utils.py:65-74 | `decode_base64(encode_base64(b)) == b` for all bytes. |
| Paths.Suffix | rsa_signature/verifier.py:41 | `PurePath.suffix`: from the last dot of the name to its end, or "" when the name has no dot, starts with its only dot, or ends with a dot. SuffixShape states what this gives. |
| Paths.SuffixShape | rsa_signature/verifier.py:41 | A non-empty suffix is a dot and at least one character, has no other dot, and ends the name. |
| Paths.WithSuffix | rsa_signature/signer.py:125 | `with_suffix` keeps the directory and replaces the name's suffix. ValueError for an invalid suffix, an empty name, or an empty or "." result, if and only if. |
| Paths.AppendToSuffix | rsa_signature/signer.py:125-127 | `p.with_suffix(p.suffix + ext)` is the whole name with `ext` appended. |
| Paths.SuffixOfExtension | rsa_signature/signer.py:125-127 | The name `stem.ext` has suffix `.ext`. |
| Crypto.SignatureBytes | rsa_signature/signer.py:56-63 | A PSS signature is 256 bytes under a 2048-bit key and 384 under a 3072-bit key. |
| KeyManager.RSAKeyManager.constructor | rsa_signature/key_manager.py:29-31 | A new manager keeps the size and holds no keys. |
| KeyManager.IsSupportedKeySize | rsa_signature/key_manager.py:26 | The sizes accepted are exactly 2048 and 3072. Create reports every other size. |
| KeyManager.Create | rsa_signature/key_manager.py:19-31 | ValueError exactly for a key size other than 2048 and 3072. Otherwise a fresh manager with that size and no keys. |
| KeyManager.RSAKeyManager.GenerateKeypair | rsa_signature/key_manager.py:33-56 | The generated key has exponent 65537 and the manager's size. The public key is its public half. Both become the manager's keys. |
| KeyManager.EncryptionFor | rsa_signature/key_manager.py:75-79 | The private key is encrypted exactly when the password is non-empty, and then with that password. |
| KeyManager.PasswordArgument | rsa_signature/key_manager.py:137 | A password is passed to the loader exactly when it is non-empty. |
| KeyManager.SavePrivateKeyOutcome | rsa_signature/key_manager.py:62-94 | With no key: ValueError. Otherwise the PEM, encrypted as the password says, is written and no other file changes. A failed write is IOError. |
| KeyManager.RSAKeyManager.SavePrivateKey | rsa_signature/key_manager.py:62-94 | The method does what SavePrivateKeyOutcome says for the key the manager holds. |
| KeyManager.SavePublicKeyOutcome | rsa_signature/key_manager.py:96-119 | With no key: ValueError. Otherwise the public PEM is written and no other file changes. A failed write is IOError. |
| KeyManager.RSAKeyManager.SavePublicKey | rsa_signature/key_manager.py:96-119 | The method does what SavePublicKeyOutcome says for the manager's public key. |
| KeyManager.ClassifyLoadError | rsa_signature/key_manager.py:152-158 | A ValueError naming "Bad decrypt" or "could not deserialize" becomes the combined wrong-password error. Any other ValueError passes unchanged. Every other error becomes IOError. |
| KeyManager.LoadPrivateKeyOutcome | rsa_signature/key_manager.py:121-158 | Succeeds exactly when the file is readable, parses with the given password, and holds an RSA key, returning that key. An unreadable file is IOError. Every failure is ValueError or IOError. |
| KeyManager.RSAKeyManager.LoadPrivateKey | rsa_signature/key_manager.py:121-158 | On success the loaded key and its public half replace the manager's keys. On failure both stay as they were. |
| KeyManager.LoadPublicKeyOutcome | rsa_signature/key_manager.py:160-187 | Succeeds exactly when the file is readable and parses to an RSA public key. Every failure is IOError. |
| KeyManager.RSAKeyManager.LoadPublicKey | rsa_signature/key_manager.py:160-187 | On success only the public key is replaced. The private key never changes. |
| KeyManager.PrivateKeyRoundTrip | tests/test_key_manager.py:28-59 | A private key saved with a password, or with none, loads back as the same key with that password. |
| KeyManager.PublicKeyRoundTrip | rsa_signature/key_manager.py:160-187 | A saved public key loads back unchanged. |
| KeyManager.WrongPasswordIsValueError | tests/test_key_manager.py:61-76 | An encrypted key loaded with another non-empty password raises ValueError. |
| KeyManager.PasswordPresenceMismatchIsIOError | rsa_signature/key_manager.py:137-158 | Loading with no password for an encrypted key, or with one for an unencrypted key, raises IOError. |
| KeyManager.NotRsaKeyIsValueError | rsa_signature/key_manager.py:143-155 | A container holding another kind of key raises the not-RSA ValueError unchanged. |
| KeyManager.NotRsaMessageKept | rsa_signature/key_manager.py:144-155 | The not-RSA message contains neither library phrase, so it is not folded into the combined error. |
| KeyManager.CapitalisedMessagePassesThrough | rsa_signature/key_manager.py:152-155 | The phrase match is case-sensitive. A ValueError reading "Could not deserialize" followed by any text that holds neither phrase is re-raised as it came. The library's "Could not deserialize key data. …" error is of this form. |
| Signer.RSASigner.constructor | rsa_signature/signer.py:20-27 | Uses the given manager, or a fresh 2048-bit one with no keys. |
| Signer.SignFileOutcome | rsa_signature/signer.py:29-70 | Succeeds exactly when the key loads and the file hashes, and returns the PSS signature of the file's digest. Every failure is RuntimeError. |
| Signer.RSASigner.SignFile | rsa_signature/signer.py:29-70 | The method does what SignFileOutcome says. The loaded key stays in the manager even when hashing then fails. |
| Signer.SignatureFileBytes | rsa_signature/signer.py:84-91 | For "base64", the ASCII bytes of the Base64 text of the signature. For any other format, the signature itself. |
| Signer.SaveSignatureOutcome | rsa_signature/signer.py:72-97 | Writes those bytes at the output path. A failed write is IOError. |
| Signer.RSASigner.SaveSignature | rsa_signature/signer.py:72-97 | The method does what SaveSignatureOutcome says. |
| Signer.DefaultSignaturePathShape | rsa_signature/signer.py:122-127 | The default signature path is in the file's directory: the file's name with ".b64" or ".sig" appended. Its suffix is that extension and it differs from the file. |
| Signer.DefaultSignaturePath | rsa_signature/signer.py:122-127 | `file.with_suffix(file.suffix + ".b64")` for the Base64 format, `".sig"` otherwise. DefaultSignaturePathShape states what this gives. |
| Signer.TargetPath | rsa_signature/signer.py:122-127 | The given signature path, or the default one when none is given. |
| Signer.SignAndSaveOutcome | rsa_signature/signer.py:99-136 | Signs, then picks the path, then writes. It succeeds exactly when all three do, returning the path and the new store. Every failure is RuntimeError. |
| Signer.RSASigner.SignAndSave | rsa_signature/signer.py:99-136 | The method does what SignAndSaveOutcome says. |
| Signer.SignAndSaveDefaultPath | tests/test_signer_verifier.py:45-56 | Without a signature path, the signature lands at the file's name plus ".b64" or ".sig". Only that file changes and the signed file is untouched. |
| Verifier.RSAVerifier.constructor | rsa_signature/verifier.py:19-26 | Uses the given manager, or a fresh 2048-bit one with no keys. |
| Verifier.IsBase64SignaturePath | rsa_signature/verifier.py:41 | The lower-cased suffix is ".b64". SignatureSuffixes states which suffixes qualify. |
| Verifier.LoadSignatureOutcome | rsa_signature/verifier.py:28-51 | For a ".b64" path, in any letter case, the load succeeds exactly when the file is readable, its bytes are ASCII and their text decodes, and then gives the Base64 decoding. For any other path it succeeds exactly when the file is readable, with its bytes. Every failure is IOError. |
| Verifier.RSAVerifier.LoadSignature | rsa_signature/verifier.py:28-51 | The method does what LoadSignatureOutcome says. |
| Verifier.VerifySignatureOutcome | rsa_signature/verifier.py:53-95 | When the public key loads and the file hashes, the answer is the PSS verdict on the digest, `false` included. Otherwise RuntimeError. |
| Verifier.RSAVerifier.VerifySignature | rsa_signature/verifier.py:53-95 | The method does what VerifySignatureOutcome says. A loaded public key replaces the manager's. |
| Verifier.VerifyFileOutcome | rsa_signature/verifier.py:97-120 | The verdict on the loaded signature. Any failure is RuntimeError. |
| Verifier.RSAVerifier.VerifyFile | rsa_signature/verifier.py:97-120 | The method does what VerifyFileOutcome says. The private key is kept. The public key becomes the loaded one when the signature and the key both load, and stays as it was otherwise. |
| Verifier.SignatureSuffixes | rsa_signature/verifier.py:41 | ".b64" and ".B64" select Base64 decoding. ".sig" does not. |
| Verifier.LoadBase64Signature | rsa_signature/verifier.py:41-44 | A file holding the Base64 text of a signature, under a ".b64" name, loads back as that signature. |
| Verifier.LoadRawSignature | rsa_signature/verifier.py:45-47 | Any other readable file loads as its bytes. |
| SignVerify.SavedSignatureLoads | rsa_signature/verifier.py:41-47 | The file `sign_and_save` writes, in either format, loads back as the signature it made. |
| SignVerify.LoadSignatureFile | rsa_signature/verifier.py:41-47 | A file written by `save_signature` in one format, under that format's extension, loads back as the signature. |
| SignVerify.VerdictOnSavedSignature | rsa_signature/verifier.py:97-120 | After a sign_and_save, and whatever the file then holds, `verify_file` answers the PSS check of that signature against the current content's digest. |
| SignVerify.SignedFileVerifies | tests/test_signer_verifier.py:26-64 | Sign then verify with the matching public key gives `true`, in both formats. |
| SignVerify.TamperedFileVerdict | tests/test_signer_verifier.py:66-84 | After the file is rewritten, `verify_file` returns `false` (not an error) whenever PSS rejects the old signature for the new digest. |
| SignVerify.ReadableStoreAgrees | rsa_signature/verifier.py:97-120 | The verdict depends only on the files and the read permissions. |
| SignVerify.OtherKeyVerdict | rsa_signature/verifier.py:70-92 | Under another public key, the answer is `false` whenever PSS rejects the signature under that key. |
| SignVerify.PasswordProtectedKeyPipeline | tests/test_signer_verifier.py:86-108 | A key saved with a password signs with that password, and the result verifies under the public key. |
| Cli.GenkeyOutcome | rsa_signature/cli.py:28-57 | An unsupported size is reported before anything is written. Under `--password`, differing entries stop the command without writing any key (if and only if). On success both key files hold the generated pair's PEM. |
| Cli.Genkey | rsa_signature/cli.py:28-57 | The command does what GenkeyOutcome says. |
| Cli.GenkeyFilesLoad | rsa_signature/cli.py:34-50 | The files `genkey` wrote load back as the generated pair with the password it used. The key has the requested size. |
| Cli.GenkeyWithoutPasswordUnencrypted | rsa_signature/cli.py:40-49 | Without `--password` the private key is saved unencrypted. |
| Cli.TimestampPath | rsa_signature/cli.py:92 | Defined exactly for a non-empty name. It keeps the directory and replaces the last suffix with ".timestamp.json". |
| Cli.TimestampOfDefaultSignature | rsa_signature/cli.py:92 | `x.sig` and `x.b64`, the default signature names, both give `x.timestamp.json`. |
| Cli.TimestampOfPlainName | rsa_signature/cli.py:92 | A name with no suffix gets ".timestamp.json" appended. |
| Cli.SignCommandOutcome | rsa_signature/cli.py:67-97 | A sign_and_save failure is reported, and only then is the report a plain failure. Otherwise the signature path is reported. The timestamp is written only under `--timestamp` and only after signing succeeded. A timestamp failure is reported together with the signature path, on the store the signing left. |
| Cli.StampOutcome | rsa_signature/cli.py:85-97 | The part of `sign` after sign_and_save: the report and the store as SignCommandOutcome states them. |
| Cli.SignCommand | rsa_signature/cli.py:67-97 | The command does what SignCommandOutcome says. |
| Cli.VerifyCommandOutcome | rsa_signature/cli.py:104-127 | "Invalid" exactly for a `false` verdict. "Valid", with or without a timestamp failure, exactly for `true`. A signing time is shown only for a valid signature whose timestamp path was given and exists. A timestamp failure is reported after the valid verdict, exactly when loading an existing timestamp fails. |
| Cli.VerifyCommand | rsa_signature/cli.py:104-127 | The command does what VerifyCommandOutcome says. |
| WebApp.AllowedFile | rsa_signature/webapp.py:27-28 | A dot, and the lower-cased text after the last dot is one of the thirteen extensions. AllowedFileByLastExtension states what this decides. |
| WebApp.LastExtension | rsa_signature/webapp.py:28 | The text after the last dot: it holds no dot and ends the name. |
| WebApp.AllowedFileByLastExtension | rsa_signature/webapp.py:25-28 | `stem.ext` is accepted exactly when `ext`, lower-cased, is one of the thirteen extensions, whatever the stem. |
| WebApp.NoDotRefused | rsa_signature/webapp.py:28 | A name without a dot is refused. |
| WebApp.TrailingDotRefused | rsa_signature/webapp.py:25-28 | A name ending in a dot is refused. |
| WebApp.StripStart | rsa_signature/webapp.py:45 | Drops exactly the leading whitespace. |
| WebApp.StripEnd | rsa_signature/webapp.py:45 | Drops exactly the trailing whitespace. |
| WebApp.Strip | rsa_signature/webapp.py:45 | Empty exactly when the text is all whitespace. Otherwise it neither starts nor ends with whitespace. |
| WebApp.FormPassword | rsa_signature/webapp.py:45-57 | No password exactly when the field is absent or blank. Otherwise the stripped text. |
| WebApp.FormPasswordEncryption | rsa_signature/webapp.py:57 | A generated key is encrypted exactly when the field has a non-blank character, and then with the stripped text. |
| WebApp.SignUploadGuard | rsa_signature/webapp.py:79-90 | The sign route goes on exactly when both uploads exist with non-empty names. A missing upload gets the "choose a file and a key" message. |
| WebApp.FirstMissing | rsa_signature/webapp.py:130-134 | None exactly when every field is uploaded. Otherwise the first field, in order, that is missing. |
| WebApp.VerifyUploadGuard | rsa_signature/webapp.py:130-142 | The verify route goes on exactly when all three uploads exist with non-empty names. The first missing one is named. |
| WebApp.MissingSignatureNamed | rsa_signature/webapp.py:130-134 | With the file uploaded and the signature missing, the message names "signature". |

## Left out

- RSA arithmetic, PEM/PKCS#8 encoding, password-based encryption, SHA-256 and PSS are the `cryptography` library's work. They are modelled as the functions in `Crypto.Primitives` and their documented guarantees, not computed.
- `Crypto.Primitives`: generation, serialisation and signing are total functions. So the RuntimeError path of `generate_keypair` and library errors during `private_bytes`, `public_bytes` or `sign` are not modelled.
- Randomness is a parameter: key generation takes a seed and signing takes a salt.
- Base64 decoding of the signature file is exact only on canonical text. Everything else is left to an uninterpreted lenient decoder, which may succeed or fail.
- `Verifier.LoadSignatureOutcome` checks for ASCII instead of decoding UTF-8. A `.b64` file holding non-ASCII UTF-8 fails either way, because `b64decode` refuses non-ASCII text.
- Passwords are text. Their UTF-8 encoding is taken as injective, which it is. Strings with lone surrogates, which cannot be encoded, are not modelled.
- `Text.Lower` lower-cases ASCII letters only. `WebApp.IsSpace` covers the ASCII and Latin-1 whitespace only. Python's full Unicode case and space tables are not modelled.
- On load, the key size is not compared with the manager's `key_size`, as in the source.
- The file system is a finite map with read and write permission sets. Symlinks, races, disk-full errors and `NotADirectoryError`, written here as FileExistsError, are not modelled. The path rules are `pathlib`'s for POSIX paths.
- Utils.MakeDirs: when creating a deeper directory fails, the shallower ones `mkdir` already made stay on disk. The model returns only the error and drops them, because the failure paths would otherwise have to carry a store too.
- Utils.SafeFileWrite: for the same reason, a failed write is modelled as leaving the store unchanged, although parent directories it created before failing stay.
- Cli.GenkeyOutcome and Cli.SignCommandOutcome: their stores on a failed write follow the two lines above. They are the stores before the write, without any directories the failed write created.
- Logging configuration (handlers, the log file, levels) is left out. So are the log calls themselves, since they change no result. Only the keyword filter is modelled.
- `rsa_signature/timestamp.py` is not part of this model. Creating, saving and loading a timestamp are parameters of `Cli.SignCommand` and `Cli.VerifyCommand`.
- `Cli.SignCommand`: the `--format` choice is restricted to click's two values, and click enforces that before the command runs.
- `Cli.VerifyCommand`: `--timestamp ""` is falsy in Python and takes the same path as no timestamp. The model receives it as `None`.
- Console output, `getpass` prompts and exit behaviour are I/O. The typed passwords are parameters, and the printed result is the report datatype.
- The Flask routes beyond their guards are HTTP plumbing: `secure_filename`, saving uploads, the integer parse of `key_size`, templates, downloads and the 16 MB upload limit.
