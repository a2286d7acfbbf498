/**
 * `String.prototype.replace` with a global regular expression and a STRING
 * replacement, as the share controller calls it. The replacement string is not
 * inserted literally: `$$` inserts `$`, `$&` the matched text, `` $` `` the text
 * before the match and `$'` the text after it (the placeholder patterns have no
 * capture groups, so `$1` and `$<` stay literal). The controller never escapes
 * `$` in the url, title, description or twitter user it inserts.
 */
module JsReplace {
  import opened Text
  import opened Templating

  /** The text a replacement string stands for, at a match of `matched` at `pos` in `s`. */
  function Expand(rep: string, s: string, pos: nat, matched: string): string
    requires pos + |matched| <= |s|
    decreases |rep|
  {
    if rep == [] then []
    else if rep[0] == '$' && |rep| >= 2 then
      if rep[1] == '$' then "$" + Expand(rep[2..], s, pos, matched)
      else if rep[1] == '&' then matched + Expand(rep[2..], s, pos, matched)
      else if rep[1] == '`' then s[..pos] + Expand(rep[2..], s, pos, matched)
      else if rep[1] == '\'' then s[pos + |matched|..] + Expand(rep[2..], s, pos, matched)
      else "$" + Expand(rep[1..], s, pos, matched)
    else [rep[0]] + Expand(rep[1..], s, pos, matched)
  }

  /** The output of the scan of `s` from index `i` on (the regular expression's `lastIndex`). */
  function ScanFrom(s: string, pat: string, rep: string, i: nat): string
    requires pat != []
    decreases |s| - i
  {
    if i >= |s| then []
    else if MatchAt(s, pat, i) then Expand(rep, s, i, pat) + ScanFrom(s, pat, rep, i + |pat|)
    else [s[i]] + ScanFrom(s, pat, rep, i + 1)
  }

  /** `s.replace(/pat/g, rep)` as JavaScript evaluates it. */
  function ReplaceAllJs(s: string, pat: string, rep: string): string
    requires pat != []
  {
    ScanFrom(s, pat, rep, 0)
  }

  /** A replacement without `$` stands for itself. */
  lemma {:induction false} ExpandLiteral(rep: string, s: string, pos: nat, matched: string)
    requires pos + |matched| <= |s| && '$' !in rep
    ensures Expand(rep, s, pos, matched) == rep
    decreases |rep|
  {
    if rep != [] {
      assert rep[0] != '$';
      assert '$' !in rep[1..];
      ExpandLiteral(rep[1..], s, pos, matched);
      assert [rep[0]] + rep[1..] == rep;
    }
  }

  /** At an occurrence, both scans emit `rep` and resume after it. */
  lemma MatchCase(s: string, pat: string, rep: string, i: nat)
    requires pat != [] && '$' !in rep && MatchAt(s, pat, i)
    requires ScanFrom(s, pat, rep, i + |pat|) == ReplaceAll(s[i + |pat|..], pat, rep)
    ensures ScanFrom(s, pat, rep, i) == ReplaceAll(s[i..], pat, rep)
  {
    var t := s[i..];
    assert t[..|pat|] == s[i..i + |pat|];
    assert t[|pat|..] == s[i + |pat|..];
    ExpandLiteral(rep, s, i, pat);
  }

  /** Away from an occurrence, both scans copy one character and move on. */
  lemma OtherCase(s: string, pat: string, rep: string, i: nat)
    requires pat != [] && i < |s| && !MatchAt(s, pat, i)
    requires ScanFrom(s, pat, rep, i + 1) == ReplaceAll(s[i + 1..], pat, rep)
    ensures ScanFrom(s, pat, rep, i) == ReplaceAll(s[i..], pat, rep)
  {
    var t := s[i..];
    if |pat| <= |t| {
      assert t[..|pat|] == s[i..i + |pat|];
    }
    assert t[1..] == s[i + 1..];
  }

  /** Scanning from `i` on a `$`-free replacement is the literal replace of the rest of `s`. */
  lemma {:induction false} ScanFromLiteral(s: string, pat: string, rep: string, i: nat)
    requires pat != [] && '$' !in rep && i <= |s|
    ensures ScanFrom(s, pat, rep, i) == ReplaceAll(s[i..], pat, rep)
    decreases |s| - i
  {
    if i == |s| {
      assert s[i..] == [];
    } else if MatchAt(s, pat, i) {
      ScanFromLiteral(s, pat, rep, i + |pat|);
      MatchCase(s, pat, rep, i);
    } else {
      ScanFromLiteral(s, pat, rep, i + 1);
      OtherCase(s, pat, rep, i);
    }
  }

  /** For a value without `$`, JavaScript's replace is the literal replace. */
  lemma AgreesWithoutDollar(s: string, pat: string, rep: string)
    requires pat != [] && '$' !in rep
    ensures ReplaceAllJs(s, pat, rep) == ReplaceAll(s, pat, rep)
  {
    ScanFromLiteral(s, pat, rep, 0);
    assert s[0..] == s;
  }

  /**
   * A value `$&` puts the placeholder itself back: inserting the title `$&`
   * for `@title` leaves `@title` in the share link, where a literal insertion
   * gives `$&`.
   */
  lemma MatchedTextReinserted(pat: string)
    requires pat != []
    ensures ReplaceAllJs(pat, pat, "$&") == pat
    ensures ReplaceAll(pat, pat, "$&") == "$&"
  {
    assert MatchAt(pat, pat, 0) by { assert pat[0..|pat|] == pat; }
    var rep := "$&";
    assert rep[0] == '$' && rep[1] == '&' && rep[2..] == [];
    assert Expand(rep, pat, 0, pat) == pat + Expand([], pat, 0, pat) == pat;
    assert ScanFrom(pat, pat, rep, |pat|) == [];
    MatchHead(pat, [], "$&");
    assert pat + [] == pat;
  }

  /** A value `$$` leaves a single `$` where a literal insertion gives `$$`. */
  lemma DollarPairCollapses(pat: string)
    requires pat != []
    ensures ReplaceAllJs(pat, pat, "$$") == "$"
    ensures ReplaceAll(pat, pat, "$$") == "$$"
  {
    assert MatchAt(pat, pat, 0) by { assert pat[0..|pat|] == pat; }
    var rep := "$$";
    assert rep[0] == '$' && rep[1] == '$' && rep[2..] == [];
    assert Expand(rep, pat, 0, pat) == "$" + Expand([], pat, 0, pat) == "$";
    assert ScanFrom(pat, pat, rep, |pat|) == [];
    MatchHead(pat, [], "$$");
    assert pat + [] == pat;
  }

  // ---------------------------------------------------------------------------
  // The four replaces of `share`, as written

  /** The share link for `template` as the component computes it. */
  function SubstituteJs(template: string, f: Fields): string
  {
    var afterUrl := ReplaceAllJs(template, UrlToken, f.url);
    var afterTitle := ReplaceAllJs(afterUrl, TitleToken, f.title);
    var afterDescription := ReplaceAllJs(afterTitle, DescriptionToken, f.description);
    ReplaceAllJs(afterDescription, TwitterUserToken, f.twitterUser)
  }

  /** Values without `$` give the same link as the literal substitution. */
  lemma SubstituteAgreesWithoutDollar(template: string, f: Fields)
    requires '$' !in f.url && '$' !in f.title && '$' !in f.description && '$' !in f.twitterUser
    ensures SubstituteJs(template, f) == Substitute(template, f)
  {
    var afterUrl := ReplaceAll(template, UrlToken, f.url);
    var afterTitle := ReplaceAll(afterUrl, TitleToken, f.title);
    var afterDescription := ReplaceAll(afterTitle, DescriptionToken, f.description);
    AgreesWithoutDollar(template, UrlToken, f.url);
    AgreesWithoutDollar(afterUrl, TitleToken, f.title);
    AgreesWithoutDollar(afterTitle, DescriptionToken, f.description);
    AgreesWithoutDollar(afterDescription, TwitterUserToken, f.twitterUser);
  }

  /** `@title` passes the url, description and twitter user steps unchanged. */
  lemma TitleTokenKept(r: string, p: string)
    requires '$' !in r && (p == UrlToken || p == DescriptionToken || p == TwitterUserToken)
    ensures ReplaceAllJs(TitleToken, p, r) == TitleToken
  {
    TokenFacts();
    AgreesWithoutDollar(TitleToken, p, r);
    OtherToken(TitleToken, p, r);
  }

  /** Text without `@` passes the description and twitter user steps unchanged. */
  lemma PlainKept(v: string, f: Fields)
    requires Plain(v) && '$' !in f.description && '$' !in f.twitterUser
    ensures ReplaceAllJs(ReplaceAllJs(v, DescriptionToken, f.description), TwitterUserToken, f.twitterUser) == v
  {
    TokenFacts();
    AgreesWithoutDollar(v, DescriptionToken, f.description);
    NoAt(v, DescriptionToken, f.description);
    AgreesWithoutDollar(v, TwitterUserToken, f.twitterUser);
    NoAt(v, TwitterUserToken, f.twitterUser);
  }

  /**
   * Through all four steps, the title `$&` puts `@title` back into the link,
   * where the literal substitution inserts `$&`.
   */
  lemma AmpersandTitle(f: Fields)
    requires '$' !in f.url && '$' !in f.description && '$' !in f.twitterUser
    ensures SubstituteJs(TitleToken, f.(title := "$&")) == TitleToken
    ensures Substitute(TitleToken, f.(title := "$&")) == "$&"
  {
    var g := f.(title := "$&");
    TitleTokenKept(g.url, UrlToken);
    var afterUrl := ReplaceAllJs(TitleToken, UrlToken, g.url);
    MatchedTextReinserted(TitleToken);
    var afterTitle := ReplaceAllJs(afterUrl, TitleToken, g.title);
    assert afterTitle == TitleToken;
    TitleTokenKept(g.description, DescriptionToken);
    TitleTokenKept(g.twitterUser, TwitterUserToken);
    assert SubstituteJs(TitleToken, g) == TitleToken;
    assert Plain(g.title) by { assert g.title == ['$', '&']; }
    PlainTitle(g);
  }

  /** The literal substitution inserts an `@`-free title as it is. */
  lemma PlainTitle(g: Fields)
    requires Plain(g.title)
    ensures Substitute(TitleToken, g) == g.title
  {
    TokenFacts();
    OtherToken(TitleToken, UrlToken, g.url);
    Whole(TitleToken, g.title);
    NoAt(g.title, DescriptionToken, g.description);
    NoAt(g.title, TwitterUserToken, g.twitterUser);
  }

  /**
   * Through all four steps, the title `$$` comes out as `$`, where the literal
   * substitution inserts `$$`.
   */
  lemma DoubleDollarTitle(f: Fields)
    requires '$' !in f.url && '$' !in f.description && '$' !in f.twitterUser
    ensures SubstituteJs(TitleToken, f.(title := "$$")) == "$"
    ensures Substitute(TitleToken, f.(title := "$$")) == "$$"
  {
    var g := f.(title := "$$");
    TitleTokenKept(g.url, UrlToken);
    DollarPairCollapses(TitleToken);
    assert Plain("$");
    PlainKept("$", g);
    assert Plain(g.title) by { assert g.title == ['$', '$']; }
    PlainTitle(g);
  }
}
