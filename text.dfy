/** String helpers used by the search engine: ASCII lower-casing, the
    prefix / suffix / substring tests behind Python's `startswith`,
    `endswith` and `in`, and the backslash-to-slash replacement applied to
    directory names. */
module Text {

  /** Lower-cases one character. Python's `str.lower()` lower-cases every
      cased Unicode character and may change the length of a string; this
      model lower-cases only the ASCII letters A-Z and keeps the length. */
  function ToLower(c: char): char
  {
    if 'A' <= c <= 'Z' then (c as int + 32) as char else c
  }

  /** `s.lower()`, character by character. */
  function Lower(s: string): (r: string)
    ensures |r| == |s|
    ensures forall i :: 0 <= i < |s| ==> r[i] == ToLower(s[i])
  {
    if s == [] then [] else [ToLower(s[0])] + Lower(s[1..])
  }

  /** Lower-casing twice is lower-casing once. */
  lemma LowerIdempotent(s: string)
    ensures Lower(Lower(s)) == Lower(s)
  {
  }

  /** `s.startswith(p)`: `s` is `p` followed by some rest. */
  predicate IsPrefix(p: string, s: string)
    ensures IsPrefix(p, s) <==> exists r :: s == p + r
  {
    assert |p| <= |s| ==> s == s[..|p|] + s[|p|..];
    |p| <= |s| && s[..|p|] == p
  }

  /** `s.endswith(p)`: `s` is some rest followed by `p`. */
  predicate IsSuffix(p: string, s: string)
    ensures IsSuffix(p, s) <==> exists r :: s == r + p
  {
    assert |p| <= |s| ==> s == s[..|s| - |p|] + s[|s| - |p|..];
    assert forall r :: s == r + p ==> s[|s| - |p|..] == p;
    |p| <= |s| && s[|s| - |p|..] == p
  }

  /** `t` occurs in `s` starting at position `i`. */
  predicate OccursAt(t: string, s: string, i: int)
  {
    0 <= i && i + |t| <= |s| && s[i..i + |t|] == t
  }

  /** A suffix of `s` that is not a prefix is a suffix of `s[1..]`. */
  lemma SuffixOfTail(t: string, s: string)
    requires s != []
    ensures IsSuffix(t, s) && !IsPrefix(t, s) ==> IsSuffix(t, s[1..])
  {
  }

  /** `t in s` for strings: `t` is a prefix of some suffix of `s`. A
      substring is never longer than the string; a prefix or a suffix is a
      substring; the empty string is a substring of every string. */
  predicate IsSubstring(t: string, s: string)
    ensures IsSubstring(t, s) ==> |t| <= |s|
    ensures IsPrefix(t, s) ==> IsSubstring(t, s)
    ensures IsSuffix(t, s) ==> IsSubstring(t, s)
    decreases |s|
  {
    if IsPrefix(t, s) then true
    else if s == [] then false
    else
      SuffixOfTail(t, s);
      IsSubstring(t, s[1..])
  }

  /** The recursive substring test agrees with "occurs at some position". */
  lemma {:induction false} SubstringIffOccurs(t: string, s: string)
    ensures IsSubstring(t, s) <==> exists i :: OccursAt(t, s, i)
    decreases |s|
  {
    if IsPrefix(t, s) {
      assert OccursAt(t, s, 0);
    } else if s == [] {
      assert forall i :: !OccursAt(t, s, i);
    } else {
      SubstringIffOccurs(t, s[1..]);
      forall i | OccursAt(t, s[1..], i)
        ensures OccursAt(t, s, i + 1)
      {
        assert s[1..][i..i + |t|] == s[i + 1..i + 1 + |t|];
      }
      forall i | OccursAt(t, s, i)
        ensures OccursAt(t, s[1..], i - 1)
      {
        assert i != 0 by { assert s[..|t|] == s[0..0 + |t|]; }
        assert s[1..][i - 1..i - 1 + |t|] == s[i..i + |t|];
      }
    }
  }

  /** `s.replace('\\', '/')`: every backslash becomes a slash, every other
      character stays in place, and no backslash is left. */
  function ReplaceBackslashes(s: string): (r: string)
    ensures |r| == |s|
    ensures forall i :: 0 <= i < |s| ==> r[i] == if s[i] == '\\' then '/' else s[i]
    ensures '\\' !in r
  {
    if s == [] then [] else [if s[0] == '\\' then '/' else s[0]] + ReplaceBackslashes(s[1..])
  }
}
