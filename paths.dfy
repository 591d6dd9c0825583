/**
 * The part of `pathlib` the core depends on: a path's final name, its
 * parent, its suffix, and `with_suffix`, with CPython's rules for each.
 */
module Paths {
  import opened Common
  import opened Text

  /**
   * A normalised path: whether it starts at the root, and its components
   * (none of them empty, ".", or containing "/"). The relative path with no
   * components is ".", the absolute one is "/".
   */
  datatype Path = Path(absolute: bool, parts: seq<string>)

  /** The components are as `pathlib` normalises them: non-empty, not ".", without "/". */
  predicate ValidPath(p: Path) {
    forall i :: 0 <= i < |p.parts| ==> p.parts[i] != "" && p.parts[i] != "." && '/' !in p.parts[i]
  }

  /** `PurePath.name`: the final component, "" for "." and "/". */
  function Name(p: Path): string {
    if |p.parts| == 0 then "" else p.parts[|p.parts| - 1]
  }

  /** `PurePath.parent`: "." and "/" are their own parents. */
  function Parent(p: Path): (r: Path)
    ensures |p.parts| > 0 ==> |r.parts| == |p.parts| - 1
  {
    if |p.parts| == 0 then p else Path(p.absolute, p.parts[..|p.parts| - 1])
  }

  /** `a` is `d` itself or one of the directories above it. */
  predicate IsAncestor(a: Path, d: Path) {
    a.absolute == d.absolute && |a.parts| <= |d.parts| && d.parts[..|a.parts|] == a.parts
  }

  /** What lies above the parent lies above the path. */
  lemma AncestorOfParent(a: Path, d: Path)
    requires IsAncestor(a, Parent(d))
    ensures IsAncestor(a, d)
  {
    if |d.parts| > 0 {
      assert d.parts[..|a.parts|] == d.parts[..|d.parts| - 1][..|a.parts|];
    }
  }

  /** The same directory with another final name. */
  function WithName(p: Path, name: string): (r: Path)
    requires |p.parts| > 0
    ensures Name(r) == name && Parent(r) == Parent(p)
  {
    Path(p.absolute, p.parts[..|p.parts| - 1] + [name])
  }

  /** The suffixes `with_suffix` accepts: "" or a dot followed by at least one character, without "/". */
  predicate IsValidSuffix(suffix: string) {
    '/' !in suffix && (suffix == "" || (suffix[0] == '.' && suffix != "."))
  }

  /**
   * `PurePath.suffix`: from the last dot of the name to its end, or "" when
   * the name has no dot, has its only dot first, or ends with the dot.
   */
  function Suffix(p: Path): string {
    var name := Name(p);
    var i := LastIndexOf(name, '.');
    if 0 < i < |name| - 1 then name[i..] else ""
  }

  /** A non-empty suffix is a dot and at least one more character, ends the name, and holds no other dot. */
  lemma SuffixShape(p: Path)
    ensures var s := Suffix(p);
      s == "" || (|s| >= 2 && s[0] == '.' && '.' !in s[1..]
                  && |s| < |Name(p)| && Name(p)[|Name(p)| - |s|..] == s)
  {
    var name := Name(p);
    var i := LastIndexOf(name, '.');
    if 0 < i < |name| - 1 {
      assert forall j :: 0 <= j < |name[i..][1..]| ==> name[i..][1..][j] == name[i + 1 + j];
    }
  }

  const MsgInvalidSuffix := "Invalid suffix"
  const MsgEmptyName := "has an empty name"
  const MsgInvalidName := "Invalid name"

  /**
   * `PurePath.with_suffix`: replace the name's suffix (append when it has
   * none). ValueError for an invalid suffix, for an empty name, and for a
   * resulting name that `with_name` refuses (empty or ".").
   */
  function WithSuffix(p: Path, suffix: string): (r: Result<Path>)
    ensures r.Ok? <==> IsValidSuffix(suffix) && Name(p) != ""
                        && Name(p)[..|Name(p)| - |Suffix(p)|] + suffix !in {"", "."}
    ensures r.Err? ==> r.error.kind == ValueError
    ensures r.Ok? ==> (Parent(r.value) == Parent(p)
                       && Name(r.value) == Name(p)[..|Name(p)| - |Suffix(p)|] + suffix)
  {
    SuffixShape(p);
    if !IsValidSuffix(suffix) then Err(Error(ValueError, MsgInvalidSuffix))
    else if Name(p) == "" then Err(Error(ValueError, MsgEmptyName))
    else
      var name := Name(p);
      var newName := name[..|name| - |Suffix(p)|] + suffix;
      if newName == "" || newName == "." then Err(Error(ValueError, MsgInvalidName))
      else Ok(WithName(p, newName))
  }

  /**
   * Appending an extension to the current suffix keeps the whole name:
   * `p.with_suffix(p.suffix + ext)` is the name with `ext` appended.
   */
  lemma {:induction false} AppendToSuffix(p: Path, ext: string)
    requires Name(p) != "" && '/' !in Name(p) && IsValidSuffix(ext) && ext != ""
    ensures WithSuffix(p, Suffix(p) + ext) == Ok(WithName(p, Name(p) + ext))
  {
    SuffixShape(p);
    var name := Name(p);
    var s := Suffix(p);
    EndHasNoSlash(name, |name| - |s|);
    ValidSuffixConcat(s, ext);
    StemPlusSuffix(name, s, ext);
  }

  /** A part of a name without "/" has none either. */
  lemma EndHasNoSlash(name: string, i: nat)
    requires '/' !in name && i <= |name|
    ensures '/' !in name[i..]
  {
    forall k | 0 <= k < |name[i..]| ensures name[i..][k] != '/' {
      assert name[i..][k] == name[i + k];
    }
  }

  /** A valid (possibly empty) suffix followed by a valid non-empty one is valid. */
  lemma ValidSuffixConcat(s: string, ext: string)
    requires '/' !in s && (s == "" || s[0] == '.')
    requires IsValidSuffix(ext) && ext != ""
    ensures IsValidSuffix(s + ext)
  {
    if s == "" {
      assert s + ext == ext;
    } else {
      assert (s + ext)[0] == '.';
      forall k | 0 <= k < |s + ext| ensures (s + ext)[k] != '/' {
        if k < |s| { assert (s + ext)[k] == s[k]; } else { assert (s + ext)[k] == ext[k - |s|]; }
      }
    }
  }

  /** The stem before a name's suffix, followed by the suffix and more, is the name followed by the more. */
  lemma StemPlusSuffix(name: string, s: string, ext: string)
    requires |s| <= |name| && name[|name| - |s|..] == s
    ensures name[..|name| - |s|] + (s + ext) == name + ext
  {
    assert name[..|name| - |s|] + s == name;
  }

  /** A name ending in `.ext` (with a non-empty `ext` free of dots, after a non-empty stem) has suffix `.ext`. */
  lemma {:induction false} SuffixOfExtension(p: Path, stem: string, ext: string)
    requires |p.parts| > 0 && stem != "" && ext != "" && '.' !in ext
    ensures Suffix(WithName(p, stem + "." + ext)) == "." + ext
  {
    var name := stem + "." + ext;
    assert name == stem + ("." + ext);
    LastIndexOfConcat(stem, "." + ext, '.');
    assert LastIndexOf("." + ext, '.') == 0 by {
      forall j | 0 < j < |"." + ext| ensures ("." + ext)[j] != '.' {
        assert ("." + ext)[j] == ext[j - 1];
      }
    }
    assert name[|stem|..] == "." + ext;
  }

  /** A path with a name is determined by its parent and its name. */
  lemma SameParentAndName(p: Path, q: Path)
    requires Name(p) != "" && Name(q) != ""
    requires Parent(p) == Parent(q) && Name(p) == Name(q)
    ensures p == q
  {
    assert p.parts == Parent(p).parts + [Name(p)];
    assert q.parts == Parent(q).parts + [Name(q)];
  }
}
