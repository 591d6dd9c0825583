/**
 * The file helpers of the utilities module: reading and writing with the
 * error mapping of `safe_file_read` / `safe_file_write`, the parent
 * directory creation of `ensure_directory`, `validate_file_path`, and the
 * chunked SHA-256 loop of `hash_file`. The file system is a value: which
 * paths hold which bytes, which are directories, and which may not be read
 * or written.
 */
module Utils {
  import opened Common
  import opened Text
  import opened Paths
  import opened Crypto

  datatype FileStore = FileStore(
    files: map<Path, Bytes>,
    dirs: set<Path>,
    readDenied: set<Path>,
    writeDenied: set<Path>
  )

  /** No path is both a file and a directory, and "." and "/" are never files. */
  ghost predicate WellFormed(fs: FileStore) {
    && fs.files.Keys !! fs.dirs
    && forall p :: p in fs.files ==> |p.parts| > 0
  }

  /** "." and "/" always exist as directories. */
  predicate IsDirectory(fs: FileStore, p: Path) {
    |p.parts| == 0 || p in fs.dirs
  }

  predicate Exists(fs: FileStore, p: Path) {
    p in fs.files || IsDirectory(fs, p)
  }

  const MsgNoSuchFile := "No such file or directory"
  const MsgPermissionDenied := "Permission denied"
  const MsgIsADirectory := "Is a directory"
  const MsgFileExists := "File exists"

  /** `open(path, 'rb').read()`: the bytes, or the OSError subclass `open` raises. */
  function OpenForReading(fs: FileStore, p: Path): (r: Result<Bytes>)
    ensures r.Ok? <==> p in fs.files && p !in fs.readDenied
    ensures r.Ok? ==> r.value == fs.files[p]
    ensures r.Err? ==> r.error.kind in {FileNotFoundError, PermissionError, IsADirectoryError}
  {
    if p in fs.files then
      if p in fs.readDenied then Err(Error(PermissionError, MsgPermissionDenied))
      else Ok(fs.files[p])
    else if IsDirectory(fs, p) then Err(Error(IsADirectoryError, MsgIsADirectory))
    else Err(Error(FileNotFoundError, MsgNoSuchFile))
  }

  const MsgReadMissing := "file does not exist: "
  const MsgReadDenied := "no permission to read file: "
  const MsgReadFailed := "error reading file: "

  /**
   * `safe_file_read`: the file's bytes unchanged; a missing file raises
   * FileNotFoundError, no permission PermissionError, anything else IOError.
   */
  function SafeFileRead(fs: FileStore, p: Path): (r: Result<Bytes>)
    ensures r.Ok? <==> p in fs.files && p !in fs.readDenied
    ensures r.Ok? ==> r.value == fs.files[p]
    ensures r.Err? && p !in fs.files && !IsDirectory(fs, p) ==> r.error.kind == FileNotFoundError
    ensures r.Err? && p in fs.files ==> r.error.kind == PermissionError
    ensures r.Err? && p !in fs.files && IsDirectory(fs, p) ==> r.error.kind == IOError
  {
    match OpenForReading(fs, p)
    case Ok(data) => Ok(data)
    case Err(e) =>
      if e.kind == FileNotFoundError then Err(Error(FileNotFoundError, MsgReadMissing + e.message))
      else if e.kind == PermissionError then Err(Error(PermissionError, MsgReadDenied + e.message))
      else Err(Error(IOError, MsgReadFailed + e.message))
  }

  /**
   * `Path(d).mkdir(parents=True, exist_ok=True)`: create `d` and every
   * missing ancestor. An existing directory is fine; an existing file, or a
   * directory that may not be created, raises. Only directories are added.
   */
  function MakeDirs(fs: FileStore, d: Path): (r: Result<FileStore>)
    ensures r.Ok? ==> r.value.files == fs.files && fs.dirs <= r.value.dirs
                      && r.value.readDenied == fs.readDenied && r.value.writeDenied == fs.writeDenied
    ensures r.Ok? ==> IsDirectory(r.value, d)
    ensures r.Ok? ==> forall q :: q in r.value.dirs - fs.dirs ==> q !in fs.files && IsAncestor(q, d)
    ensures IsDirectory(fs, d) ==> r == Ok(fs)
    ensures r.Err? ==> r.error.kind in {FileExistsError, PermissionError}
    decreases |d.parts|
  {
    if IsDirectory(fs, d) then Ok(fs)
    else if d in fs.files then Err(Error(FileExistsError, MsgFileExists))
    else
      var up :- MakeDirs(fs, Parent(d));
      assert forall q :: q in up.dirs - fs.dirs ==> IsAncestor(q, d) by {
        forall q | q in up.dirs - fs.dirs ensures IsAncestor(q, d) {
          AncestorOfParent(q, d);
        }
      }
      if d in up.writeDenied then Err(Error(PermissionError, MsgPermissionDenied))
      else Ok(up.(dirs := up.dirs + {d}))
  }

  /** A directory that `mkdir` creates for `d` is never deeper than `d`. */
  lemma NewDirsNoDeeper(fs: FileStore, d: Path, q: Path)
    requires MakeDirs(fs, d).Ok? && q in MakeDirs(fs, d).value.dirs - fs.dirs
    ensures |q.parts| <= |d.parts| && q !in fs.files
  {
  }

  const MsgWriteDenied := "no permission to write file: "
  const MsgWriteFailed := "error writing file: "

  /**
   * `open(path, 'wb').write(data)` once the parent exists: a directory at
   * the path raises IsADirectoryError, a path that may not be written
   * PermissionError; otherwise the path holds the data, whatever it held.
   */
  function OpenForWriting(fs: FileStore, p: Path, data: Bytes): (r: Result<FileStore>)
    ensures r.Ok? <==> !IsDirectory(fs, p) && p !in fs.writeDenied
    ensures r.Ok? ==> r.value.files == fs.files[p := data] && r.value.dirs == fs.dirs
                      && r.value.readDenied == fs.readDenied && r.value.writeDenied == fs.writeDenied
    ensures IsDirectory(fs, p) ==> r == Err(Error(IsADirectoryError, MsgIsADirectory))
    ensures r.Err? && !IsDirectory(fs, p) ==> r.error.kind == PermissionError
  {
    if IsDirectory(fs, p) then Err(Error(IsADirectoryError, MsgIsADirectory))
    else if p in fs.writeDenied then Err(Error(PermissionError, MsgPermissionDenied))
    else Ok(fs.(files := fs.files[p := data]))
  }

  /**
   * `safe_file_write`: create the parent directory, then write the bytes.
   * A permission failure raises PermissionError, every other failure IOError.
   */
  function SafeFileWrite(fs: FileStore, p: Path, data: Bytes): (r: Result<FileStore>)
    ensures r.Err? ==> r.error.kind in {PermissionError, IOError}
    ensures var d := MakeDirs(fs, Parent(p));
      && (d.Err? ==> r.Err? && (r.error.kind == PermissionError <==> d.error.kind == PermissionError))
      && (d.Ok? && IsDirectory(fs, p) ==> r.Err? && r.error.kind == IOError)
      && (d.Ok? && !IsDirectory(fs, p) && p in fs.writeDenied ==> r.Err? && r.error.kind == PermissionError)
      && (d.Ok? && !IsDirectory(fs, p) && p !in fs.writeDenied ==> r == Ok(d.value.(files := d.value.files[p := data])))
    ensures r.Ok? ==> r.value.files == fs.files[p := data]
                      && IsDirectory(r.value, Parent(p))
                      && r.value.readDenied == fs.readDenied && r.value.writeDenied == fs.writeDenied
  {
    var d := MakeDirs(fs, Parent(p));
    assert d.Ok? ==> (IsDirectory(d.value, p) <==> IsDirectory(fs, p)) by {
      if d.Ok? && |p.parts| > 0 && p in d.value.dirs - fs.dirs {
        NewDirsNoDeeper(fs, Parent(p), p);
      }
    }
    var written :=
      var parent :- d;
      OpenForWriting(parent, p, data);
    match written
    case Ok(fs') => Ok(fs')
    case Err(e) =>
      if e.kind == PermissionError then Err(Error(PermissionError, MsgWriteDenied + e.message))
      else Err(Error(IOError, MsgWriteFailed + e.message))
  }

  /** Writing keeps the store well formed. */
  lemma WriteKeepsWellFormed(fs: FileStore, p: Path, data: Bytes)
    requires WellFormed(fs)
    requires SafeFileWrite(fs, p, data).Ok?
    ensures WellFormed(SafeFileWrite(fs, p, data).value)
  {
    var parent := MakeDirs(fs, Parent(p)).value;
    assert p !in parent.dirs;
    assert |p.parts| > 0;
    forall q | q in parent.dirs - fs.dirs ensures q != p {
      NewDirsNoDeeper(fs, Parent(p), q);
    }
  }

  /** Reading back what was written gives those bytes, unless the file may not be read. */
  lemma ReadAfterWrite(fs: FileStore, p: Path, data: Bytes)
    requires SafeFileWrite(fs, p, data).Ok? && p !in fs.readDenied
    ensures SafeFileRead(SafeFileWrite(fs, p, data).value, p) == Ok(data)
  {
  }

  /** A write leaves every other file as it was, readable as before. */
  lemma WriteKeepsOthers(fs: FileStore, p: Path, data: Bytes, q: Path)
    requires SafeFileWrite(fs, p, data).Ok? && q != p && q in fs.files
    ensures SafeFileRead(SafeFileWrite(fs, p, data).value, q) == SafeFileRead(fs, q)
  {
  }

  const MsgNotAFile := "path is not a file: "

  /**
   * `validate_file_path`: a path that does not exist raises
   * FileNotFoundError, one that is not a regular file ValueError; otherwise
   * the path is returned.
   */
  function ValidateFilePath(fs: FileStore, p: Path): (r: Result<Path>)
    ensures r == Ok(p) <==> p in fs.files
    ensures r.Err? && !Exists(fs, p) <==> r == Err(Error(FileNotFoundError, MsgReadMissing))
    ensures r.Err? && Exists(fs, p) <==> r == Err(Error(ValueError, MsgNotAFile))
  {
    if !Exists(fs, p) then Err(Error(FileNotFoundError, MsgReadMissing))
    else if p !in fs.files then Err(Error(ValueError, MsgNotAFile))
    else Ok(p)
  }

  /** The bytes of ASCII text (text-mode writes of ASCII are byte-for-byte). */
  function AsciiBytes(s: string): (b: Bytes)
    requires IsAscii(s)
    ensures |b| == |s| && forall i :: 0 <= i < |s| ==> b[i] == s[i] as int
  {
    seq(|s|, i requires 0 <= i < |s| => s[i] as int as byte)
  }

  predicate IsAsciiBytes(b: Bytes) {
    forall i :: 0 <= i < |b| ==> b[i] < 128
  }

  /** `data.decode('utf-8')` on ASCII bytes. */
  function AsciiText(b: Bytes): (s: string)
    requires IsAsciiBytes(b)
    ensures IsAscii(s) && AsciiBytes(s) == b
  {
    seq(|b|, i requires 0 <= i < |b| => b[i] as char)
  }

  /** Decoding the bytes of ASCII text gives the text back. */
  lemma AsciiRoundTrip(s: string)
    requires IsAscii(s)
    ensures IsAsciiBytes(AsciiBytes(s)) && AsciiText(AsciiBytes(s)) == s
  {
  }

  // ---------------------------------------------------------------- hash_file

  /** `f.read(4096)`: the chunk size of the hashing loop. */
  const ChunkSize := 4096

  /** An open binary file: its content and the read position. */
  class BinaryReader {
    const content: Bytes
    var position: nat

    constructor(content: Bytes)
      ensures this.content == content && position == 0
    {
      this.content := content;
      position := 0;
    }

    /** `f.read(size)`: the next at most `size` bytes; empty only at the end. */
    method Read(size: nat) returns (chunk: Bytes)
      requires 0 < size && position <= |content|
      modifies this
      ensures old(position) + |chunk| <= |content| && position == old(position) + |chunk|
      ensures chunk == content[old(position)..position]
      ensures |chunk| == if |content| - old(position) < size then |content| - old(position) else size
    {
      var end := if |content| - position < size then |content| else position + size;
      chunk := content[position..end];
      position := end;
    }
  }

  /** A `hashlib.sha256()` object: its state is the prefix absorbed so far. */
  class Sha256Hasher {
    const lib: Primitives
    var absorbed: Bytes

    constructor(lib: Primitives)
      ensures this.lib == lib && absorbed == []
    {
      this.lib := lib;
      absorbed := [];
    }

    method Update(chunk: Bytes)
      modifies this
      ensures absorbed == old(absorbed) + chunk
    {
      absorbed := absorbed + chunk;
    }

    function Digest(): Bytes
      reads this
    {
      lib.sha256(absorbed)
    }
  }

  /** The chunks one after the other. */
  ghost function Flatten(chunks: seq<Bytes>): Bytes {
    if chunks == [] then [] else Flatten(chunks[..|chunks| - 1]) + chunks[|chunks| - 1]
  }

  const MsgHashFailed := "error hashing file: "

  /** What `hash_file` returns or raises: the digest of the whole content, or IOError. */
  function HashFileOutcome(lib: Primitives, fs: FileStore, p: Path): (r: Result<Bytes>)
    ensures r.Ok? <==> p in fs.files && p !in fs.readDenied
    ensures r.Ok? ==> r.value == lib.sha256(fs.files[p])
    ensures r.Err? ==> r.error.kind == IOError
  {
    match OpenForReading(fs, p)
    case Ok(content) => Ok(lib.sha256(content))
    case Err(e) => Err(Error(IOError, MsgHashFailed + e.message))
  }

  /**
   * `hash_file`: read chunks of at most 4096 bytes into the hasher until an
   * empty read. Every byte is absorbed once, in file order, so the digest is
   * that of the whole content; any failure raises IOError.
   */
  method HashFile(lib: Primitives, fs: FileStore, p: Path) returns (r: Result<Bytes>, ghost chunks: seq<Bytes>)
    ensures r == HashFileOutcome(lib, fs, p)
    ensures DigestLength(lib) && r.Ok? ==> |r.value| == 32
    ensures r.Ok? ==> Flatten(chunks) == fs.files[p]
    ensures forall i :: 0 <= i < |chunks| ==> 0 < |chunks[i]| <= ChunkSize
  {
    chunks := [];
    var file := OpenForReading(fs, p);
    if file.Err? {
      return Err(Error(IOError, MsgHashFailed + file.error.message)), chunks;
    }
    var f := new BinaryReader(file.value);
    var hasher := new Sha256Hasher(lib);
    while true
      invariant f.position <= |f.content| && f.content == fs.files[p]
      invariant hasher.lib == lib && hasher.absorbed == f.content[..f.position]
      invariant Flatten(chunks) == hasher.absorbed
      invariant forall i :: 0 <= i < |chunks| ==> 0 < |chunks[i]| <= ChunkSize
      decreases |f.content| - f.position
    {
      ghost var before := f.position;
      var chunk := f.Read(ChunkSize);
      if chunk == [] {
        break;
      }
      hasher.Update(chunk);
      assert (chunks + [chunk])[..|chunks|] == chunks;
      chunks := chunks + [chunk];
      assert f.content[..f.position] == f.content[..before] + chunk by {
        assert f.content[..f.position] == f.content[..f.position - |chunk|] + f.content[f.position - |chunk|..f.position];
      }
    }
    assert f.content[..f.position] == f.content;
    r := Ok(hasher.Digest());
  }

  // ----------------------------------------------------- SensitiveDataFilter

  /** The words whose mention, in any letter case, keeps a log record out of the log. */
  const SensitiveKeywords: seq<string> := ["password", "private_key", "secret"]

  /** `any(keyword in text for keyword in keywords)`. */
  function AnyContained(keywords: seq<string>, text: string): (r: bool)
    ensures r <==> exists k :: 0 <= k < |keywords| && Contains(text, keywords[k])
  {
    if keywords == [] then false
    else Contains(text, keywords[0]) || AnyContained(keywords[1..], text)
  }

  /** `SensitiveDataFilter.filter`: keep the record unless its lower-cased message names a keyword. */
  function KeepRecord(message: string): (keep: bool)
    ensures keep <==> forall k :: 0 <= k < |SensitiveKeywords| ==> !Contains(Lower(message), SensitiveKeywords[k])
  {
    !AnyContained(SensitiveKeywords, Lower(message))
  }

  /** A record is kept exactly when no keyword occurs at any position of its lower-cased message. */
  lemma KeepRecordIff(message: string)
    ensures KeepRecord(message) <==>
      forall k, i :: 0 <= k < |SensitiveKeywords| ==> !OccursAt(Lower(message), SensitiveKeywords[k], i)
  {
    forall k | 0 <= k < |SensitiveKeywords| {
      ContainsIff(Lower(message), SensitiveKeywords[k]);
    }
  }

  /** The filter ignores letter case. */
  lemma KeepRecordIgnoresCase(message: string)
    ensures KeepRecord(Lower(message)) == KeepRecord(message)
  {
    LowerIdempotent(message);
  }

  /** Lower-casing distributes over concatenation. */
  lemma LowerConcat(a: string, b: string)
    ensures Lower(a + b) == Lower(a) + Lower(b)
  {
  }

  /** A message that mentions a keyword anywhere, whatever the case around it, is dropped. */
  lemma {:induction false} MentionIsDropped(before: string, k: nat, after: string)
    requires k < |SensitiveKeywords|
    ensures !KeepRecord(before + SensitiveKeywords[k] + after)
  {
    var w := SensitiveKeywords[k];
    assert Lower(w) == w;
    LowerConcat(before + w, after);
    LowerConcat(before, w);
    var low := Lower(before) + w + Lower(after);
    assert low[|before|..|before| + |w|] == w;
    assert OccursAt(low, w, |before|);
    KeepRecordIff(before + w + after);
  }
}
