/**
 * The few operations on Python `str` that the scripts use, with Python's
 * semantics: `endswith`, the last component of `split(sep)`, and `replace`
 * with and without a count of one.
 */
module Strings {

  /** Python's `s.endswith(suffix)`. */
  predicate EndsWith(s: string, suffix: string) {
    |suffix| <= |s| && s[|s| - |suffix|..] == suffix
  }

  /** `pat` occurs in `s` starting at index `i`. */
  predicate OccursAt(s: string, pat: string, i: int) {
    0 <= i && i + |pat| <= |s| && s[i..i + |pat|] == pat
  }

  /** `i` is the leftmost index at which `pat` occurs in `s`. */
  predicate FirstOccurrence(s: string, pat: string, i: int) {
    OccursAt(s, pat, i) && forall j :: 0 <= j < i ==> !OccursAt(s, pat, j)
  }

  /**
   * The loop `for x in suffixes: if s.endswith(x): return True`, falling
   * through to False.
   */
  function EndsWithAny(s: string, suffixes: seq<string>): (r: bool)
    ensures r <==> exists x :: x in suffixes && EndsWith(s, x)
  {
    if suffixes == [] then false
    else if EndsWith(s, suffixes[0]) then true
    else
      assert forall x :: x in suffixes <==> x == suffixes[0] || x in suffixes[1..];
      EndsWithAny(s, suffixes[1..])
  }

  /** Prepending text never changes whether a suffix no longer than `s` matches. */
  lemma EndsWithPrepend(p: string, s: string, suffix: string)
    requires |suffix| <= |s|
    ensures EndsWith(p + s, suffix) <==> EndsWith(s, suffix)
  {
    assert (p + s)[|p + s| - |suffix|..] == s[|s| - |suffix|..];
  }

  /** Whatever comes before it, a string ends with itself. */
  lemma EndsWithAppend(p: string, s: string)
    ensures EndsWith(p + s, s)
  {
    assert (p + s)[|p + s| - |s|..] == s;
  }

  /** A suffix agrees with the string on its k-th character from the end. */
  lemma EndsWithCharFromEnd(s: string, suffix: string, k: int)
    requires EndsWith(s, suffix) && 0 < k <= |suffix|
    ensures s[|s| - k] == suffix[|suffix| - k]
  {
    assert s[|s| - |suffix|..][|suffix| - k] == s[|s| - k];
  }

  /** Two suffixes of one string: the shorter one is a suffix of the longer one. */
  lemma SuffixesNest(s: string, a: string, b: string)
    requires EndsWith(s, a) && EndsWith(s, b) && |a| <= |b|
    ensures EndsWith(b, a)
  {
    assert b[|b| - |a|..] == s[|s| - |a|..];
  }

  /**
   * Python's `s.split(sep)[-1]`: the text after the last `sep`, or all of
   * `s` when it holds no `sep`.
   */
  function LastComponent(s: string, sep: char): (r: string)
    ensures sep !in r
    ensures EndsWith(s, r)
    ensures |r| < |s| ==> s[|s| - |r| - 1] == sep
  {
    if |s| == 0 then ""
    else if s[|s| - 1] == sep then ""
    else
      var r' := LastComponent(s[..|s| - 1], sep);
      assert s[|s| - |r'| - 1..] == s[..|s| - 1][|s| - 1 - |r'|..] + [s[|s| - 1]];
      r' + [s[|s| - 1]]
  }

  /** An occurrence in `s[1..]` is an occurrence in `s` one place further on. */
  lemma OccursShift(s: string, pat: string, i: int)
    requires |s| > 0 && 0 <= i
    ensures OccursAt(s[1..], pat, i) <==> OccursAt(s, pat, i + 1)
  {
    if i + |pat| <= |s| - 1 {
      assert s[1..][i..i + |pat|] == s[i + 1..i + 1 + |pat|];
    }
  }

  /** Python's `s.replace(pat, rep, 1)`. */
  function ReplaceFirst(s: string, pat: string, rep: string): string
    requires |pat| > 0
    decreases |s|
  {
    if |s| < |pat| then s
    else if s[..|pat|] == pat then rep + s[|pat|..]
    else [s[0]] + ReplaceFirst(s[1..], pat, rep)
  }

  /** Python's `s.replace(pat, rep)`: every occurrence, scanning left to right. */
  function ReplaceAll(s: string, pat: string, rep: string): string
    requires |pat| > 0
    decreases |s|
  {
    if |s| < |pat| then s
    else if s[..|pat|] == pat then rep + ReplaceAll(s[|pat|..], pat, rep)
    else [s[0]] + ReplaceAll(s[1..], pat, rep)
  }

  /** A leftmost occurrence past the start is the leftmost occurrence of `s[1..]`, one place earlier. */
  lemma FirstOccurrenceShift(s: string, pat: string, i: int)
    requires FirstOccurrence(s, pat, i) && 0 < i
    ensures !OccursAt(s, pat, 0) && FirstOccurrence(s[1..], pat, i - 1)
  {
    OccursShift(s, pat, i - 1);
    forall j | 0 <= j < i - 1
      ensures !OccursAt(s[1..], pat, j)
    {
      OccursShift(s, pat, j);
    }
  }

  /** Cutting `s` at i and at i + n agrees with cutting `s[1..]` one place earlier. */
  lemma CutsShift(s: string, i: int, n: nat)
    requires 0 < i && i + n <= |s|
    ensures s[..i] == [s[0]] + s[1..][..i - 1]
    ensures s[i + n..] == s[1..][i - 1 + n..]
  {
  }

  /** Where `pat` does not start the string, both replacements keep the first character. */
  lemma ReplaceSkipsFirst(s: string, pat: string, rep: string)
    requires |pat| > 0 && |pat| <= |s| && !OccursAt(s, pat, 0)
    ensures ReplaceFirst(s, pat, rep) == [s[0]] + ReplaceFirst(s[1..], pat, rep)
    ensures ReplaceAll(s, pat, rep) == [s[0]] + ReplaceAll(s[1..], pat, rep)
  {
  }

  /** Where `pat` starts the string, both replacements put `rep` in its place. */
  lemma ReplaceAtStart(s: string, pat: string, rep: string)
    requires |pat| > 0 && OccursAt(s, pat, 0)
    ensures ReplaceFirst(s, pat, rep) == rep + s[|pat|..]
    ensures ReplaceAll(s, pat, rep) == rep + ReplaceAll(s[|pat|..], pat, rep)
  {
    assert s[..|pat|] == pat;
  }

  /** Regrouping a character put in front of three concatenated parts. */
  lemma ConsGroups(x: string, y: string, c: char, a: string, b: string, d: string)
    requires x == [c] + y && y == a + b + d
    ensures x == ([c] + a) + b + d
  {
  }

  /** `replace(pat, rep, 1)` replaces exactly the leftmost occurrence. */
  lemma {:induction false} ReplaceFirstAtFirstOccurrence(s: string, pat: string, rep: string, i: int)
    requires |pat| > 0 && FirstOccurrence(s, pat, i)
    ensures ReplaceFirst(s, pat, rep) == s[..i] + rep + s[i + |pat|..]
    decreases i
  {
    if i == 0 {
      ReplaceAtStart(s, pat, rep);
      assert s[..i] == [];
    } else {
      var t := s[1..];
      FirstOccurrenceShift(s, pat, i);
      ReplaceSkipsFirst(s, pat, rep);
      ReplaceFirstAtFirstOccurrence(t, pat, rep, i - 1);
      CutsShift(s, i, |pat|);
      ConsGroups(ReplaceFirst(s, pat, rep), ReplaceFirst(t, pat, rep), s[0], t[..i - 1], rep, t[i - 1 + |pat|..]);
    }
  }

  /**
   * `replace(pat, rep)` scans left to right without overlaps: the text
   * before the leftmost occurrence is kept, that occurrence becomes `rep`,
   * and the rest is processed again from just after it.
   */
  lemma {:induction false} ReplaceAllAtFirstOccurrence(s: string, pat: string, rep: string, i: int)
    requires |pat| > 0 && FirstOccurrence(s, pat, i)
    ensures ReplaceAll(s, pat, rep) == s[..i] + rep + ReplaceAll(s[i + |pat|..], pat, rep)
    decreases i
  {
    if i == 0 {
      ReplaceAtStart(s, pat, rep);
      assert s[..i] == [];
    } else {
      var t := s[1..];
      FirstOccurrenceShift(s, pat, i);
      ReplaceSkipsFirst(s, pat, rep);
      ReplaceAllAtFirstOccurrence(t, pat, rep, i - 1);
      CutsShift(s, i, |pat|);
      ConsGroups(ReplaceAll(s, pat, rep), ReplaceAll(t, pat, rep), s[0], t[..i - 1], rep,
                 ReplaceAll(t[i - 1 + |pat|..], pat, rep));
    }
  }

  /** Without an occurrence, `replace(pat, rep, 1)` returns its input. */
  lemma {:induction false} ReplaceFirstWithoutOccurrence(s: string, pat: string, rep: string)
    requires |pat| > 0 && forall i :: !OccursAt(s, pat, i)
    ensures ReplaceFirst(s, pat, rep) == s
    decreases |s|
  {
    if |s| >= |pat| {
      assert !OccursAt(s, pat, 0);
      forall j | 0 <= j
        ensures !OccursAt(s[1..], pat, j)
      {
        OccursShift(s, pat, j);
      }
      ReplaceFirstWithoutOccurrence(s[1..], pat, rep);
    }
  }

  /** Without an occurrence, `replace(pat, rep)` returns its input. */
  lemma {:induction false} ReplaceAllWithoutOccurrence(s: string, pat: string, rep: string)
    requires |pat| > 0 && forall i :: !OccursAt(s, pat, i)
    ensures ReplaceAll(s, pat, rep) == s
    decreases |s|
  {
    if |s| >= |pat| {
      assert !OccursAt(s, pat, 0);
      forall j | 0 <= j
        ensures !OccursAt(s[1..], pat, j)
      {
        OccursShift(s, pat, j);
      }
      ReplaceAllWithoutOccurrence(s[1..], pat, rep);
    }
  }

  /** `replace(pat, rep, 1)` passes over a prefix that lacks the first character of `pat`. */
  lemma {:induction false} ReplaceFirstPrefix(p: string, s: string, pat: string, rep: string)
    requires |pat| > 0 && pat[0] !in p
    ensures ReplaceFirst(p + s, pat, rep) == p + ReplaceFirst(s, pat, rep)
    decreases |p|
  {
    if p != [] {
      var t := p + s;
      assert t[0] == p[0] && t[1..] == p[1..] + s;
      if |t| >= |pat| {
        assert t[..|pat|][0] != pat[0];
        assert ReplaceFirst(t, pat, rep) == [t[0]] + ReplaceFirst(t[1..], pat, rep);
      }
      ReplaceFirstPrefix(p[1..], s, pat, rep);
      assert p == [p[0]] + p[1..];
    } else {
      assert p + s == s;
    }
  }

  /** `replace(pat, rep)` passes over a prefix that lacks the first character of `pat`. */
  lemma {:induction false} ReplaceAllPrefix(p: string, s: string, pat: string, rep: string)
    requires |pat| > 0 && pat[0] !in p
    ensures ReplaceAll(p + s, pat, rep) == p + ReplaceAll(s, pat, rep)
    decreases |p|
  {
    if p != [] {
      var t := p + s;
      assert t[0] == p[0] && t[1..] == p[1..] + s;
      if |t| >= |pat| {
        assert t[..|pat|][0] != pat[0];
        assert ReplaceAll(t, pat, rep) == [t[0]] + ReplaceAll(t[1..], pat, rep);
      }
      ReplaceAllPrefix(p[1..], s, pat, rep);
      assert p == [p[0]] + p[1..];
    } else {
      assert p + s == s;
    }
  }

  /** `replace(pat, rep, 1)` on a string that starts with `pat`. */
  lemma ReplaceFirstAtStart(pat: string, t: string, rep: string)
    requires |pat| > 0
    ensures ReplaceFirst(pat + t, pat, rep) == rep + t
  {
    assert (pat + t)[..|pat|] == pat;
    assert (pat + t)[|pat|..] == t;
  }
}
