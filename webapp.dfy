/**
 * The pure decisions of the web application: the upload extension check,
 * the password form field, and the guards the sign and verify routes apply
 * to the uploaded files before saving anything.
 */
module WebApp {
  import opened Common
  import opened Text
  import opened KeyManager

  /** The thirteen accepted upload extensions. */
  const AllowedExtensions: set<string> :=
    {"txt", "pdf", "png", "jpg", "jpeg", "gif", "doc", "docx", "zip", "py", "js", "html", "css"}

  /** `filename.rsplit('.', 1)[1]` when the name holds a dot: the text after its last dot. */
  function LastExtension(filename: string): (ext: string)
    requires '.' in filename
    ensures '.' !in ext
    ensures |ext| < |filename| && filename[|filename| - |ext| - 1] == '.'
    ensures filename[|filename| - |ext|..] == ext
  {
    var i := LastIndexOf(filename, '.');
    filename[i + 1..]
  }

  /** `allowed_file`: a dot, and the lower-cased text after the last dot is an accepted extension. */
  predicate AllowedFile(filename: string) {
    '.' in filename && Lower(LastExtension(filename)) in AllowedExtensions
  }

  /**
   * Only the text after the last dot decides: `stem.ext` is accepted exactly
   * when `ext`, lower-cased, is one of the extensions, whatever the stem is
   * (so `a.tar.gz` is judged by `gz`, `REPORT.PDF` by `pdf`, and a name
   * ending in a dot by the empty extension, which is refused).
   */
  lemma {:induction false} AllowedFileByLastExtension(stem: string, ext: string)
    requires '.' !in ext
    ensures AllowedFile(stem + "." + ext) <==> Lower(ext) in AllowedExtensions
  {
    var name := stem + "." + ext;
    assert name == stem + ("." + ext);
    assert name[|stem|] == '.';
    LastIndexOfConcat(stem, "." + ext, '.');
    assert LastIndexOf("." + ext, '.') == 0 by {
      forall j | 0 < j < |"." + ext| ensures ("." + ext)[j] != '.' {
        assert ("." + ext)[j] == ext[j - 1];
      }
    }
    assert name[|stem| + 1..] == ext;
  }

  /** A name without a dot is refused. */
  lemma NoDotRefused(filename: string)
    requires '.' !in filename
    ensures !AllowedFile(filename)
  {
  }

  /** The empty extension is not accepted: a name ending in a dot is refused. */
  lemma TrailingDotRefused(stem: string)
    ensures !AllowedFile(stem + ".")
  {
    AllowedFileByLastExtension(stem, "");
  }

  /** Whitespace for `str.strip()`: the ASCII and Latin-1 characters Python counts as spaces. */
  predicate IsSpace(c: char) {
    c == ' ' || c == '\t' || c == '\n' || c == '\r' || c == '\U{000B}' || c == '\U{000C}'
    || ('\U{001C}' <= c <= '\U{001F}') || c == '\U{0085}' || c == '\U{00A0}'
  }

  /** `s.lstrip()`: the suffix left after the leading whitespace. */
  function StripStart(s: string): (r: string)
    ensures |r| <= |s| && r == s[|s| - |r|..]
    ensures forall k :: 0 <= k < |s| - |r| ==> IsSpace(s[k])
    ensures r != "" ==> !IsSpace(r[0])
    decreases |s|
  {
    if s != "" && IsSpace(s[0]) then StripStart(s[1..]) else s
  }

  /** `s.rstrip()`: the prefix left before the trailing whitespace. */
  function StripEnd(s: string): (r: string)
    ensures |r| <= |s| && r == s[..|r|]
    ensures forall k :: |r| <= k < |s| ==> IsSpace(s[k])
    ensures r != "" ==> !IsSpace(r[|r| - 1])
    decreases |s|
  {
    if s != "" && IsSpace(s[|s| - 1]) then StripEnd(s[..|s| - 1]) else s
  }

  /** `s.strip()`. */
  function Strip(s: string): (r: string)
    ensures r == "" <==> forall k :: 0 <= k < |s| ==> IsSpace(s[k])
    ensures r != "" ==> !IsSpace(r[0]) && !IsSpace(r[|r| - 1])
  {
    var t := StripStart(s);
    var r := StripEnd(t);
    assert r == "" ==> t == "";
    assert r != "" ==> !IsSpace(r[0]) by {
      if r != "" {
        assert r[0] == t[0];
      }
    }
    r
  }

  /**
   * `request.form.get('password', '').strip()`, then `password if password
   * else None`: absent or blank fields are no password.
   */
  function FormPassword(field: Option<string>): (r: Option<string>)
    ensures r.None? <==> field.None? || forall k :: 0 <= k < |field.value| ==> IsSpace(field.value[k])
    ensures r.Some? ==> r.value == Strip(field.value) && r.value != ""
  {
    var p := if field.Some? then Strip(field.value) else "";
    if p == "" then None else Some(p)
  }

  /** The form password encrypts a key exactly when it is not blank, with the stripped text. */
  lemma FormPasswordEncryption(field: Option<string>)
    ensures var e := EncryptionFor(FormPassword(field));
      (e.BestAvailableEncryption? <==> field.Some? && exists k :: 0 <= k < |field.value| && !IsSpace(field.value[k]))
      && (e.BestAvailableEncryption? ==> e.password == Strip(field.value))
  {
  }

  /** An uploaded file: the name the browser sent and the bytes. */
  datatype Upload = Upload(filename: string, content: Bytes)

  /** Redirect back to the form with a message, or go on. */
  datatype Guard = Proceed | Redirect(message: string)

  const MsgChooseFileAndKey := "please choose a file and a private key"
  const MsgChooseValidFiles := "please choose valid files"
  const MsgChoose := "please choose "
  const MsgChooseAllFiles := "please choose all required files"

  /** The guards of the sign route, before anything is saved. */
  function SignUploadGuard(files: map<string, Upload>): (g: Guard)
    ensures g == Proceed <==> "file" in files && "private_key" in files
                              && files["file"].filename != "" && files["private_key"].filename != ""
    ensures !("file" in files && "private_key" in files) ==> g == Redirect(MsgChooseFileAndKey)
  {
    if "file" !in files || "private_key" !in files then Redirect(MsgChooseFileAndKey)
    else if files["file"].filename == "" || files["private_key"].filename == "" then Redirect(MsgChooseValidFiles)
    else Proceed
  }

  /** The uploads the verify route needs, in the order it checks them. */
  const VerifyFields: seq<string> := ["file", "signature", "public_key"]

  /** The first of `fields` that is not uploaded. */
  function FirstMissing(fields: seq<string>, files: map<string, Upload>): (r: Option<string>)
    ensures r.None? <==> forall i :: 0 <= i < |fields| ==> fields[i] in files
    ensures r.Some? ==> exists i :: 0 <= i < |fields| && fields[i] == r.value && r.value !in files
                                    && forall j :: 0 <= j < i ==> fields[j] in files
  {
    if fields == [] then None
    else if fields[0] !in files then Some(fields[0])
    else
      var rest := FirstMissing(fields[1..], files);
      if rest.Some? then
        var i :| 0 <= i < |fields[1..]| && fields[1..][i] == rest.value && rest.value !in files
                 && forall j :: 0 <= j < i ==> fields[1..][j] in files;
        assert fields[i + 1] == rest.value;
        rest
      else rest
  }

  /** The guards of the verify route: every upload present, in order, then every filename non-empty. */
  function VerifyUploadGuard(files: map<string, Upload>): (g: Guard)
    ensures g == Proceed <==> forall i :: 0 <= i < |VerifyFields| ==>
                                VerifyFields[i] in files && files[VerifyFields[i]].filename != ""
    ensures FirstMissing(VerifyFields, files).Some? ==> g == Redirect(MsgChoose + FirstMissing(VerifyFields, files).value)
  {
    var missing := FirstMissing(VerifyFields, files);
    if missing.Some? then Redirect(MsgChoose + missing.value)
    else if exists i :: 0 <= i < |VerifyFields| && files[VerifyFields[i]].filename == "" then Redirect(MsgChooseAllFiles)
    else Proceed
  }

  /** A missing signature upload is named, even when the file upload is present. */
  lemma MissingSignatureNamed(files: map<string, Upload>)
    requires "file" in files && "signature" !in files
    ensures VerifyUploadGuard(files) == Redirect(MsgChoose + "signature")
  {
    assert VerifyFields[1] == "signature";
  }
}
