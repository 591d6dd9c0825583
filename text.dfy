/**
 * The few Python string operations the core relies on: the `in` substring
 * test, `str.lower()` restricted to ASCII letters, and `str.rfind`.
 */
module Text {

  /** `sub` occurs in `s` starting at index `i`. */
  ghost predicate OccursAt(s: string, sub: string, i: int) {
    0 <= i && i + |sub| <= |s| && s[i..i + |sub|] == sub
  }

  predicate IsPrefix(p: string, s: string) {
    |p| <= |s| && s[..|p|] == p
  }

  /** Python's `sub in s`, as a left-to-right search. */
  predicate Contains(s: string, sub: string)
    decreases |s|
  {
    IsPrefix(sub, s) || (|s| > 0 && Contains(s[1..], sub))
  }

  /** An occurrence at index `i` is found by the search. */
  lemma {:induction false} OccursImpliesContains(s: string, sub: string, i: int)
    requires OccursAt(s, sub, i)
    ensures Contains(s, sub)
    decreases i
  {
    if i > 0 {
      assert s[1..][i - 1..i - 1 + |sub|] == s[i..i + |sub|];
      OccursImpliesContains(s[1..], sub, i - 1);
    }
  }

  /** What the search finds is an occurrence, at the index it reached. */
  lemma {:induction false} ContainsImpliesOccurs(s: string, sub: string) returns (i: int)
    requires Contains(s, sub)
    ensures OccursAt(s, sub, i)
    decreases |s|
  {
    if IsPrefix(sub, s) {
      i := 0;
    } else {
      var j := ContainsImpliesOccurs(s[1..], sub);
      assert s[1..][j..j + |sub|] == s[j + 1..j + 1 + |sub|];
      i := j + 1;
    }
  }

  /** The search finds `sub` exactly when it occurs at some index of `s`. */
  lemma ContainsIff(s: string, sub: string)
    ensures Contains(s, sub) <==> exists i :: OccursAt(s, sub, i)
  {
    if Contains(s, sub) {
      var i := ContainsImpliesOccurs(s, sub);
    }
    forall i | OccursAt(s, sub, i) ensures Contains(s, sub) {
      OccursImpliesContains(s, sub, i);
    }
  }

  /** Every occurrence in a part of a string is an occurrence in the whole. */
  lemma {:induction false} ContainsInConcat(a: string, b: string, sub: string)
    requires Contains(b, sub)
    ensures Contains(a + b, sub) && Contains(b + a, sub)
  {
    ContainsIff(b, sub);
    var i :| OccursAt(b, sub, i);
    assert (a + b)[|a| + i..|a| + i + |sub|] == b[i..i + |sub|];
    assert OccursAt(a + b, sub, |a| + i);
    assert (b + a)[i..i + |sub|] == b[i..i + |sub|];
    assert OccursAt(b + a, sub, i);
    ContainsIff(a + b, sub);
    ContainsIff(b + a, sub);
  }

  /** No occurrence of `sub` is possible where one of its characters is missing. */
  lemma {:induction false} MissingCharNotContained(s: string, sub: string, c: char)
    requires c in sub && c !in s
    ensures !Contains(s, sub)
    decreases |s|
  {
    var j :| 0 <= j < |sub| && sub[j] == c;
    if |sub| <= |s| {
      assert s[..|sub|][j] != sub[j];
    }
    if |s| > 0 {
      assert c !in s[1..] by {
        forall k | 0 <= k < |s[1..]| ensures s[1..][k] != c {
          assert s[1..][k] == s[k + 1];
        }
      }
      MissingCharNotContained(s[1..], sub, c);
    }
  }

  /** ASCII lower-casing of one character; every other character is kept. */
  /**
   * A pattern whose first character does not occur in `p` cannot start
   * inside `p`, so in `p + rest` it can only be found within `rest`.
   */
  lemma {:induction false} NotContainedAfterPrefix(p: string, rest: string, sub: string)
    requires sub != "" && sub[0] !in p && !Contains(rest, sub)
    ensures !Contains(p + rest, sub)
    decreases |p|
  {
    if p == "" {
      assert p + rest == rest;
    } else {
      assert (p + rest)[0] == p[0] != sub[0];
      assert !IsPrefix(sub, p + rest);
      assert (p + rest)[1..] == p[1..] + rest;
      assert sub[0] !in p[1..] by {
        forall k | 0 <= k < |p[1..]| ensures p[1..][k] != sub[0] {
          assert p[1..][k] == p[k + 1];
        }
      }
      NotContainedAfterPrefix(p[1..], rest, sub);
    }
  }

  function LowerChar(c: char): char {
    if 'A' <= c <= 'Z' then (c as int + 32) as char else c
  }

  /** `s.lower()` on the ASCII letters of `s`. */
  function Lower(s: string): (r: string)
    ensures |r| == |s|
    ensures forall i :: 0 <= i < |s| ==> r[i] == LowerChar(s[i])
    ensures forall i :: 0 <= i < |s| ==> !('A' <= r[i] <= 'Z')
  {
    seq(|s|, i requires 0 <= i < |s| => LowerChar(s[i]))
  }

  /** Lower-casing twice is lower-casing once. */
  lemma LowerIdempotent(s: string)
    ensures Lower(Lower(s)) == Lower(s)
  {
  }

  /** Python's `s.rfind(c)` for one character: the last index of `c`, or -1. */
  function LastIndexOf(s: string, c: char): (r: int)
    ensures -1 <= r < |s|
    ensures r >= 0 ==> s[r] == c
    ensures forall j :: r < j < |s| ==> s[j] != c
    decreases |s|
  {
    if |s| == 0 then -1
    else if s[|s| - 1] == c then |s| - 1
    else LastIndexOf(s[..|s| - 1], c)
  }

  /** The last `c` of `a + b` is in `b` when `b` holds one. */
  lemma LastIndexOfConcat(a: string, b: string, c: char)
    requires c in b
    ensures LastIndexOf(a + b, c) == |a| + LastIndexOf(b, c)
  {
    var r := LastIndexOf(a + b, c);
    var k :| 0 <= k < |b| && b[k] == c;
    assert (a + b)[|a| + k] == c;
    var q := LastIndexOf(b, c);
    assert (a + b)[|a| + q] == c;
  }

  /** Every character of `s` is ASCII. */
  predicate IsAscii(s: string) {
    forall i :: 0 <= i < |s| ==> s[i] as int < 128
  }
}
