/** The string operations the dashboard relies on: `str.lower()`, `str.strip()`, the substring
    test `in`, and `str.replace`. */
module Text {

  /** Python's `str.isspace()` for one character: the characters `str.strip()` removes. */
  predicate IsSpace(c: char) {
    var n := c as int;
    (9 <= n <= 13) || (0x1C <= n <= 0x20) || n == 0x85 || n == 0xA0 || n == 0x1680
    || (0x2000 <= n <= 0x200A) || n == 0x2028 || n == 0x2029 || n == 0x202F || n == 0x205F
    || n == 0x3000
  }

  predicate IsUpper(c: char) {
    'A' <= c <= 'Z'
  }

  /** Lower-case mapping of one character (ASCII letters only). */
  function LowerChar(c: char): (d: char)
    ensures !IsUpper(d)
    ensures !IsUpper(c) ==> d == c
    ensures IsSpace(d) <==> IsSpace(c)
  {
    if IsUpper(c) then (c as int + 32) as char else c
  }

  /** `str.lower()`. */
  function Lower(s: string): (r: string)
    ensures |r| == |s|
    ensures forall i :: 0 <= i < |s| ==> r[i] == LowerChar(s[i])
  {
    if s == [] then [] else [LowerChar(s[0])] + Lower(s[1..])
  }

  predicate IsLowerCase(s: string) {
    forall i :: 0 <= i < |s| ==> !IsUpper(s[i])
  }

  /** Neither end of `s` is whitespace. */
  predicate IsStripped(s: string) {
    s == [] || (!IsSpace(s[0]) && !IsSpace(s[|s| - 1]))
  }

  /** `str.lstrip()`: the longest suffix of `s` that does not start with whitespace. */
  function StripStart(s: string): (r: string)
    ensures |r| <= |s| && r == s[|s| - |r|..]
    ensures forall k :: 0 <= k < |s| - |r| ==> IsSpace(s[k])
    ensures r == [] || !IsSpace(r[0])
  {
    if s != [] && IsSpace(s[0]) then StripStart(s[1..]) else s
  }

  /** `str.rstrip()`: the longest prefix of `s` that does not end with whitespace. */
  function StripEnd(s: string): (r: string)
    ensures |r| <= |s| && r == s[..|r|]
    ensures forall k :: |r| <= k < |s| ==> IsSpace(s[k])
    ensures r == [] || !IsSpace(r[|r| - 1])
  {
    if s != [] && IsSpace(s[|s| - 1]) then StripEnd(s[..|s| - 1]) else s
  }

  /** `str.strip()`: `s` without its leading and trailing whitespace. The result is the slice
      `s[i..i + |r|]`, everything outside that slice is whitespace, and the result itself has
      no whitespace at either end. */
  function Strip(s: string): (r: string)
    ensures IsStripped(r)
    ensures exists i :: SliceAt(s, r, i) && OnlySpaceOutside(s, i, i + |r|)
  {
    var t := StripStart(s);
    StrippedEnds(t);
    StripIsSlice(s, t);
    SpaceAfterStrip(s, t);
    assert OnlySpaceOutside(s, |s| - |t|, |s| - |t| + |StripEnd(t)|);
    StripEnd(t)
  }

  /** A string with no leading whitespace keeps none after its end is stripped. */
  lemma StrippedEnds(t: string)
    requires t == [] || !IsSpace(t[0])
    ensures IsStripped(StripEnd(t))
  {
    var r := StripEnd(t);
    assert r == [] || r[0] == t[0];
  }

  /** Stripping the end of the suffix `t` of `s` leaves a slice of `s`. */
  lemma StripIsSlice(s: string, t: string)
    requires |t| <= |s| && t == s[|s| - |t|..]
    ensures SliceAt(s, StripEnd(t), |s| - |t|)
  {
    PrefixOfSuffix(s, t, StripEnd(t));
  }

  /** A prefix `r` of a suffix `t` of `s` is the slice of `s` where `t` starts. */
  lemma PrefixOfSuffix(s: string, t: string, r: string)
    requires |t| <= |s| && t == s[|s| - |t|..]
    requires |r| <= |t| && r == t[..|r|]
    ensures SliceAt(s, r, |s| - |t|)
  {
    var i := |s| - |t|;
    assert s[i..i + |r|] == t[..|r|];
  }

  /** What the end stripping removes from the suffix `t` of `s` is whitespace of `s`. */
  lemma SpaceAfterStrip(s: string, t: string)
    requires |t| <= |s| && t == s[|s| - |t|..]
    ensures forall k :: |s| - |t| + |StripEnd(t)| <= k < |s| ==> IsSpace(s[k])
  {
    var i := |s| - |t|;
    var r := StripEnd(t);
    forall k | i + |r| <= k < |s|
      ensures IsSpace(s[k])
    {
      assert s[k] == t[k - i];
    }
  }

  /** `r` occurs in `s` at position `i`. */
  predicate SliceAt(s: string, r: string, i: int) {
    0 <= i <= |s| - |r| && s[i..i + |r|] == r
  }

  /** Every character of `s` before `i` and from `j` on is whitespace. */
  predicate OnlySpaceOutside(s: string, i: int, j: int) {
    (forall k :: 0 <= k < i && k < |s| ==> IsSpace(s[k]))
    && (forall k :: j <= k < |s| && 0 <= k ==> IsSpace(s[k]))
  }

  /** Normal form of a label or domain: lower case, with no whitespace at either end. */
  predicate IsNormal(s: string) {
    IsLowerCase(s) && IsStripped(s)
  }

  /** `.str.lower().str.strip()`, the normalization applied to labels and domains. */
  function Normalize(s: string): (r: string)
    ensures IsNormal(r)
  {
    var l := Lower(s);
    assert IsLowerCase(l);
    StripKeepsLowerCase(l);
    Strip(l)
  }

  /** Stripping removes characters only, so it keeps a string lower case. */
  lemma StripKeepsLowerCase(l: string)
    requires IsLowerCase(l)
    ensures IsLowerCase(Strip(l))
  {
    var r := Strip(l);
    var i :| SliceAt(l, r, i) && OnlySpaceOutside(l, i, i + |r|);
    forall k | 0 <= k < |r|
      ensures !IsUpper(r[k])
    {
      assert r[k] == l[i + k];
    }
  }

  lemma {:induction false} LowerOfLowerCase(s: string)
    requires IsLowerCase(s)
    ensures Lower(s) == s
  {
    if s != [] {
      LowerOfLowerCase(s[1..]);
    }
  }

  lemma StripOfStripped(s: string)
    requires IsStripped(s)
    ensures Strip(s) == s
  {
    assert StripStart(s) == s;
    assert StripEnd(s) == s;
  }

  /** A string already in normal form is left as it is. */
  lemma NormalizeFixesNormal(s: string)
    requires IsNormal(s)
    ensures Normalize(s) == s
  {
    LowerOfLowerCase(s);
    StripOfStripped(s);
  }

  /** Normalizing twice is normalizing once. */
  lemma NormalizeIdempotent(s: string)
    ensures Normalize(Normalize(s)) == Normalize(s)
  {
    NormalizeFixesNormal(Normalize(s));
  }

  predicate StartsWith(s: string, p: string) {
    |p| <= |s| && s[..|p|] == p
  }

  /** Python's `p in s`. */
  predicate Contains(s: string, p: string)
    decreases |s|
  {
    StartsWith(s, p) || (s != [] && Contains(s[1..], p))
  }

  /** `p in s` holds exactly when `p` occurs in `s` at some position. */
  lemma {:induction false} ContainsAt(s: string, p: string)
    ensures Contains(s, p) <==> exists i :: SliceAt(s, p, i)
  {
    if StartsWith(s, p) {
      assert SliceAt(s, p, 0);
    } else if s != [] {
      ContainsAt(s[1..], p);
      if Contains(s[1..], p) {
        var i :| SliceAt(s[1..], p, i);
        assert s[1..][i..i + |p|] == s[i + 1..i + 1 + |p|];
        assert SliceAt(s, p, i + 1);
      }
      if i :| SliceAt(s, p, i) {
        assert i > 0;
        assert SliceAt(s[1..], p, i - 1);
      }
    }
  }

  /** A case-insensitive substring test: `p.lower() in s.lower()`. */
  predicate ContainsIgnoreCase(s: string, p: string) {
    Contains(Lower(s), Lower(p))
  }

  /** An exact occurrence is also an occurrence when case is ignored. */
  lemma {:induction false} ContainsImpliesIgnoreCase(s: string, p: string)
    requires Contains(s, p)
    ensures ContainsIgnoreCase(s, p)
  {
    if StartsWith(s, p) {
      assert Lower(s)[..|p|] == Lower(p);
    } else {
      ContainsImpliesIgnoreCase(s[1..], p);
      assert Lower(s)[1..] == Lower(s[1..]);
    }
  }

  /** `str.replace(pat, rep)`: every occurrence of `pat`, scanning left to right without
      overlaps, is replaced by `rep`. */
  function ReplaceAll(s: string, pat: string, rep: string): string
    requires |pat| > 0
    decreases |s|
  {
    if StartsWith(s, pat) then rep + ReplaceAll(s[|pat|..], pat, rep)
    else if s == [] then []
    else [s[0]] + ReplaceAll(s[1..], pat, rep)
  }

  /** Replacing a pattern that does not occur leaves the string unchanged. */
  lemma {:induction false} ReplaceAbsent(s: string, pat: string, rep: string)
    requires |pat| > 0 && !Contains(s, pat)
    ensures ReplaceAll(s, pat, rep) == s
    decreases |s|
  {
    if s != [] {
      ReplaceAbsent(s[1..], pat, rep);
    }
  }

  /** A replacement that is longer than the pattern lengthens the string exactly when the
      pattern occurs. */
  lemma {:induction false} ReplaceLengthens(s: string, pat: string, rep: string)
    requires 0 < |pat| < |rep|
    ensures |ReplaceAll(s, pat, rep)| >= |s|
    ensures |ReplaceAll(s, pat, rep)| > |s| <==> Contains(s, pat)
    decreases |s|
  {
    if StartsWith(s, pat) {
      ReplaceLengthens(s[|pat|..], pat, rep);
    } else if s != [] {
      ReplaceLengthens(s[1..], pat, rep);
    }
  }
}
