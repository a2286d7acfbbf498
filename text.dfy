/**
 * Literal global string replacement, as the share controller means it: every
 * non-overlapping occurrence of a pattern, found in one left-to-right pass, is
 * replaced by a fixed text, and the inserted text is never scanned again.
 * Also joining and splitting strings on a separator.
 */
module Text {

  /** `pat` occurs in `s` starting at index `i`. */
  predicate MatchAt(s: string, pat: string, i: nat)
  {
    i + |pat| <= |s| && s[i..i + |pat|] == pat
  }

  /** `pat` occurs somewhere in `s`. */
  predicate Occurs(s: string, pat: string)
  {
    exists i: nat :: i < |s| && MatchAt(s, pat, i)
  }

  /**
   * The first character of `pat` appears nowhere else in it. Every placeholder
   * of the share templates has this shape: `@` followed by letters. Such a
   * pattern cannot overlap itself, so its occurrences never straddle each other.
   */
  predicate LeadUnique(pat: string)
  {
    pat != [] && pat[0] !in pat[1..]
  }

  /**
   * Replaces every occurrence of `pat` in `s` by `rep`, scanning left to right
   * and resuming after each replaced occurrence (the effect of
   * `s.replace(/pat/g, rep)` when `rep` holds no `$`).
   */
  function ReplaceAll(s: string, pat: string, rep: string): string
    requires pat != []
    decreases |s|
  {
    if |pat| <= |s| && s[..|pat|] == pat then rep + ReplaceAll(s[|pat|..], pat, rep)
    else if s == [] then []
    else [s[0]] + ReplaceAll(s[1..], pat, rep)
  }

  /** An occurrence at the front is replaced, and scanning resumes after it. */
  lemma MatchHead(pat: string, t: string, rep: string)
    requires pat != []
    ensures ReplaceAll(pat + t, pat, rep) == rep + ReplaceAll(t, pat, rep)
  {
    assert (pat + t)[..|pat|] == pat;
    assert (pat + t)[|pat|..] == t;
  }

  /** A prefix without the pattern's first character is copied unchanged. */
  lemma {:induction false} SkipNoLead(p: string, t: string, pat: string, rep: string)
    requires pat != [] && pat[0] !in p
    ensures ReplaceAll(p + t, pat, rep) == p + ReplaceAll(t, pat, rep)
  {
    if p == [] {
      assert p + t == t;
    } else {
      var s := p + t;
      assert s[0] == p[0] != pat[0];
      assert |pat| <= |s| ==> s[..|pat|][0] != pat[0];
      assert s[1..] == p[1..] + t;
      SkipNoLead(p[1..], t, pat, rep);
      calc {
        ReplaceAll(s, pat, rep);
        [s[0]] + ReplaceAll(s[1..], pat, rep);
        [p[0]] + (p[1..] + ReplaceAll(t, pat, rep));
        { assert [p[0]] + p[1..] == p; }
        p + ReplaceAll(t, pat, rep);
      }
    }
  }

  /** A string without the pattern has no occurrence at its front, nor in its tail. */
  lemma NoOccurrenceParts(s: string, pat: string)
    requires pat != [] && s != [] && !Occurs(s, pat)
    ensures !(|pat| <= |s| && s[..|pat|] == pat)
    ensures !Occurs(s[1..], pat)
  {
    assert !MatchAt(s, pat, 0);
    if |pat| <= |s| {
      assert s[..|pat|] == s[0..0 + |pat|];
    }
    forall i: nat | i < |s[1..]|
      ensures !MatchAt(s[1..], pat, i)
    {
      assert !MatchAt(s, pat, i + 1);
      if i + |pat| <= |s[1..]| {
        assert s[1..][i..i + |pat|] == s[i + 1..i + 1 + |pat|];
      }
    }
  }

  /** A string in which the pattern does not occur is returned unchanged. */
  lemma {:induction false} Unchanged(s: string, pat: string, rep: string)
    requires pat != [] && !Occurs(s, pat)
    ensures ReplaceAll(s, pat, rep) == s
  {
    if s != [] {
      NoOccurrenceParts(s, pat);
      Unchanged(s[1..], pat, rep);
      assert [s[0]] + s[1..] == s;
    }
  }

  /**
   * Replacing in `a + b` is replacing in each half, when `b` starts with the
   * pattern's first character: no occurrence can then straddle the boundary.
   */
  lemma {:induction false} ConcatAtLead(a: string, b: string, pat: string, rep: string)
    requires LeadUnique(pat) && b != [] && b[0] == pat[0]
    ensures ReplaceAll(a + b, pat, rep) == ReplaceAll(a, pat, rep) + ReplaceAll(b, pat, rep)
    decreases |a|
  {
    var s := a + b;
    if a == [] {
      assert s == b;
    } else if |pat| <= |a| && a[..|pat|] == pat {
      assert s[..|pat|] == pat;
      assert s[|pat|..] == a[|pat|..] + b;
      ConcatAtLead(a[|pat|..], b, pat, rep);
    } else {
      if |pat| <= |a| {
        assert s[..|pat|] == a[..|pat|];
      } else if |pat| <= |s| {
        assert pat[|a|] == pat[1..][|a| - 1] != pat[0];
        assert s[..|pat|][|a|] == b[0] == pat[0];
      }
      assert s[1..] == a[1..] + b;
      ConcatAtLead(a[1..], b, pat, rep);
    }
  }

  /** The parts of `parts`, with `sep` between each two neighbours. */
  function Join(parts: seq<string>, sep: string): string
  {
    if |parts| == 0 then []
    else if |parts| == 1 then parts[0]
    else parts[0] + sep + Join(parts[1..], sep)
  }

  /**
   * Every occurrence is replaced in one pass, and the replacement is never
   * rescanned: a string cut by the pattern into pattern-free parts comes out
   * as those same parts joined by `rep`, whatever `rep` contains.
   */
  lemma {:induction false} ReplaceAllJoin(parts: seq<string>, pat: string, rep: string)
    requires LeadUnique(pat)
    requires forall k :: 0 <= k < |parts| ==> !Occurs(parts[k], pat)
    ensures ReplaceAll(Join(parts, pat), pat, rep) == Join(parts, rep)
  {
    if |parts| == 1 {
      Unchanged(parts[0], pat, rep);
    } else if |parts| > 1 {
      var tail := Join(parts[1..], pat);
      assert Join(parts, pat) == parts[0] + (pat + tail);
      ConcatAtLead(parts[0], pat + tail, pat, rep);
      Unchanged(parts[0], pat, rep);
      MatchHead(pat, tail, rep);
      ReplaceAllJoin(parts[1..], pat, rep);
    }
  }

  /** A pattern placed between two strings occurs in the result. */
  lemma Placed(a: string, pat: string, c: string)
    requires pat != []
    ensures Occurs(a + pat + c, pat)
  {
    assert (a + pat + c)[|a|..|a| + |pat|] == pat;
    assert MatchAt(a + pat + c, pat, |a|);
  }

  /** Cuts `s` at every `sep`, keeping the (possibly empty) pieces in order. */
  function Split(s: string, sep: char): (r: seq<string>)
    ensures |r| >= 1
  {
    if s == [] then [[]]
    else if s[0] == sep then [[]] + Split(s[1..], sep)
    else
      var rest := Split(s[1..], sep);
      [[s[0]] + rest[0]] + rest[1..]
  }

  /** Splitting a piece without `sep`, followed by `sep` and more text. */
  lemma {:induction false} SplitPiece(a: string, sep: char, b: string)
    requires sep !in a
    ensures Split(a + [sep] + b, sep) == [a] + Split(b, sep)
    ensures Split(a, sep) == [a]
  {
    if a != [] {
      assert (a + [sep] + b)[1..] == a[1..] + [sep] + b;
      SplitPiece(a[1..], sep, b);
      assert [a[0]] + a[1..] == a;
    } else {
      assert a + [sep] + b == [sep] + b;
    }
  }

  /** Splitting undoes joining when no part contains the separator. */
  lemma {:induction false} SplitJoin(parts: seq<string>, sep: char)
    requires |parts| >= 1
    requires forall k :: 0 <= k < |parts| ==> sep !in parts[k]
    ensures Split(Join(parts, [sep]), sep) == parts
  {
    if |parts| == 1 {
      SplitPiece(parts[0], sep, []);
    } else {
      SplitPiece(parts[0], sep, Join(parts[1..], [sep]));
      SplitJoin(parts[1..], sep);
      assert [parts[0]] + parts[1..] == parts;
    }
  }
}
