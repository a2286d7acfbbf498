/**
 * How `share` turns a network's template into a share link: four global
 * replaces, chained in the order url, title, description, twitter user. Each
 * placeholder is matched case-sensitively, every occurrence is replaced in one
 * left-to-right pass, and nothing is URL-encoded. A value inserted by an earlier
 * step is seen by the later steps; a value inserted by a later step is never
 * seen by an earlier one.
 */
module Templating {
  import opened Text

  const UrlToken := "@url"
  const TitleToken := "@title"
  const DescriptionToken := "@description"
  const TwitterUserToken := "@twitteruser"

  /** The component properties that fill the placeholders. */
  datatype Fields = Fields(url: string, title: string, description: string, twitterUser: string)

  /** The share link for `template`. */
  function Substitute(template: string, f: Fields): string
  {
    var afterUrl := ReplaceAll(template, UrlToken, f.url);
    var afterTitle := ReplaceAll(afterUrl, TitleToken, f.title);
    var afterDescription := ReplaceAll(afterTitle, DescriptionToken, f.description);
    ReplaceAll(afterDescription, TwitterUserToken, f.twitterUser)
  }

  // ---------------------------------------------------------------------------
  // Facts about placeholders in general

  /** Text that cannot hold a placeholder. */
  predicate Plain(s: string)
  {
    '@' !in s
  }

  /** The shape of a placeholder: `@` followed by text without `@`. */
  predicate Marker(p: string)
  {
    |p| >= 2 && p[0] == '@' && '@' !in p[1..]
  }

  /** `q` and `p` differ at an index inside both. */
  predicate Differ(q: string, p: string)
  {
    exists k: nat :: k < |q| && k < |p| && q[k] != p[k]
  }

  /** The four placeholders are markers, and any two of them differ. */
  lemma TokenFacts()
    ensures Marker(UrlToken) && Marker(TitleToken) && Marker(DescriptionToken) && Marker(TwitterUserToken)
    ensures Differ(TitleToken, UrlToken) && Differ(DescriptionToken, UrlToken) && Differ(TwitterUserToken, UrlToken)
    ensures Differ(UrlToken, TitleToken) && Differ(DescriptionToken, TitleToken) && Differ(TwitterUserToken, TitleToken)
    ensures Differ(UrlToken, DescriptionToken) && Differ(TitleToken, DescriptionToken) && Differ(TwitterUserToken, DescriptionToken)
    ensures Differ(UrlToken, TwitterUserToken) && Differ(TitleToken, TwitterUserToken) && Differ(DescriptionToken, TwitterUserToken)
  {
    assert UrlToken[1] == 'u' && TitleToken[1] == 't' && DescriptionToken[1] == 'd' && TwitterUserToken[1] == 't';
    assert TitleToken[2] == 'i' && TwitterUserToken[2] == 'w';
  }

  /** A marker cannot overlap itself. */
  lemma MarkerLeadUnique(p: string)
    requires Marker(p)
    ensures LeadUnique(p)
  {
  }

  /** A text that starts with a different marker survives replacing `p`. */
  lemma {:induction false} OtherToken(q: string, p: string, r: string)
    requires Marker(p) && q != [] && q[0] == '@' && Plain(q[1..]) && Differ(q, p)
    ensures ReplaceAll(q, p, r) == q
  {
    var k: nat :| k < |q| && k < |p| && q[k] != p[k];
    assert |p| <= |q| ==> q[..|p|][k] != p[k];
    SkipNoLead(q[1..], [], p, r);
    assert q[1..] + [] == q[1..];
    assert [q[0]] + q[1..] == q;
  }

  /** A text without `@` survives every replace step. */
  lemma NoAt(s: string, p: string, r: string)
    requires Marker(p) && Plain(s)
    ensures ReplaceAll(s, p, r) == s
  {
    SkipNoLead(s, [], p, r);
    assert s + [] == s;
  }

  /** Replacing a marker that is the whole text gives the value. */
  lemma Whole(p: string, r: string)
    requires p != []
    ensures ReplaceAll(p, p, r) == r
  {
    MatchHead(p, [], r);
    assert p + [] == p;
    assert r + [] == r;
  }

  /** What may follow a piece: nothing, or more pieces starting with `@`. */
  predicate Tail(t: string)
  {
    t == [] || t[0] == '@'
  }

  /**
   * The piece `q + c` (another marker, then plain text), followed by a tail that
   * survives replacing `p`, survives too.
   */
  lemma {:induction false} Survives(q: string, c: string, t: string, p: string, r: string)
    requires Marker(q) && Marker(p) && Differ(q, p) && Plain(c)
    requires Tail(t) && ReplaceAll(t, p, r) == t
    ensures Tail((q + c) + t) && ReplaceAll((q + c) + t, p, r) == (q + c) + t
  {
    var k: nat :| k < |q| && k < |p| && q[k] != p[k];
    assert (q + c)[k] == q[k];
    assert (q + c)[1..] == q[1..] + c;
    OtherToken(q + c, p, r);
    if t != [] {
      MarkerLeadUnique(p);
      ConcatAtLead(q + c, t, p, r);
    } else {
      assert (q + c) + t == q + c;
    }
  }

  /**
   * One step: plain text, the marker `p` followed by plain text, then a tail the
   * step leaves alone. The marker becomes the value; nothing else changes.
   */
  lemma {:induction false} Step(x: string, p: string, c: string, t: string, r: string)
    requires Marker(p) && Plain(x) && Plain(c)
    requires Tail(t) && ReplaceAll(t, p, r) == t
    ensures ReplaceAll(x + (p + c) + t, p, r) == x + r + c + t
  {
    MarkerLeadUnique(p);
    assert ReplaceAll(p + c, p, r) == r + c by {
      MatchHead(p, c, r);
      NoAt(c, p, r);
    }
    NoAt(x, p, r);
    ConcatAtLead(x, p + c, p, r);
    if t != [] {
      ConcatAtLead(x + (p + c), t, p, r);
    } else {
      assert x + (p + c) + t == x + (p + c);
    }
  }

  // ---------------------------------------------------------------------------
  // Properties of the substitution

  /** A template in which no placeholder occurs is returned unchanged. */
  lemma NoPlaceholderUnchanged(template: string, f: Fields)
    requires !Occurs(template, UrlToken) && !Occurs(template, TitleToken)
    requires !Occurs(template, DescriptionToken) && !Occurs(template, TwitterUserToken)
    ensures Substitute(template, f) == template
  {
    Unchanged(template, UrlToken, f.url);
    Unchanged(template, TitleToken, f.title);
    Unchanged(template, DescriptionToken, f.description);
    Unchanged(template, TwitterUserToken, f.twitterUser);
  }

  /**
   * The order of the steps: a placeholder on its own becomes its value, and
   * that value then goes through exactly the steps that come after its own.
   */
  lemma PlaceholderAlone(f: Fields)
    ensures Substitute(UrlToken, f)
         == ReplaceAll(ReplaceAll(ReplaceAll(f.url, TitleToken, f.title), DescriptionToken, f.description), TwitterUserToken, f.twitterUser)
    ensures Substitute(TitleToken, f)
         == ReplaceAll(ReplaceAll(f.title, DescriptionToken, f.description), TwitterUserToken, f.twitterUser)
    ensures Substitute(DescriptionToken, f)
         == ReplaceAll(f.description, TwitterUserToken, f.twitterUser)
    ensures Substitute(TwitterUserToken, f) == f.twitterUser
  {
    TokenFacts();
    Whole(UrlToken, f.url);
    OtherToken(TitleToken, UrlToken, f.url);
    Whole(TitleToken, f.title);
    OtherToken(DescriptionToken, UrlToken, f.url);
    OtherToken(DescriptionToken, TitleToken, f.title);
    Whole(DescriptionToken, f.description);
    OtherToken(TwitterUserToken, UrlToken, f.url);
    OtherToken(TwitterUserToken, TitleToken, f.title);
    OtherToken(TwitterUserToken, DescriptionToken, f.description);
    Whole(TwitterUserToken, f.twitterUser);
  }

  /**
   * A url holding `@title` gets the title spliced in, while a title holding
   * `@url` keeps it: the url step has already run.
   */
  lemma OrderMatters(f: Fields)
    requires Plain(f.title)
    ensures Substitute(UrlToken, f.(url := TitleToken)) == f.title
    ensures Substitute(TitleToken, f.(title := UrlToken)) == UrlToken
  {
    TokenFacts();
    PlaceholderAlone(f.(url := TitleToken));
    PlaceholderAlone(f.(title := UrlToken));
    Whole(TitleToken, f.title);
    NoAt(f.title, DescriptionToken, f.description);
    NoAt(f.title, TwitterUserToken, f.twitterUser);
    OtherToken(UrlToken, DescriptionToken, f.description);
    OtherToken(UrlToken, TwitterUserToken, f.twitterUser);
  }

  /** An optional placeholder `p` followed by plain text `c`. */
  function Slot(present: bool, p: string, c: string): string
  {
    if present then p + c else []
  }

  /** A slot followed by a tail that survives replacing `p`, when the slot's marker differs from `p`. */
  lemma {:induction false} SlotSurvives(present: bool, q: string, c: string, t: string, p: string, r: string)
    requires Marker(q) && Marker(p) && Differ(q, p) && Plain(c)
    requires Tail(t) && ReplaceAll(t, p, r) == t
    ensures Tail(Slot(present, q, c) + t)
    ensures ReplaceAll(Slot(present, q, c) + t, p, r) == Slot(present, q, c) + t
  {
    if present {
      Survives(q, c, t, p, r);
    } else {
      assert Slot(present, q, c) + t == t;
    }
  }

  /** A step leaves plain text followed by a tail it leaves alone. */
  lemma {:induction false} PlainThenTail(x: string, t: string, p: string, r: string)
    requires Marker(p) && Plain(x)
    requires Tail(t) && ReplaceAll(t, p, r) == t
    ensures ReplaceAll(x + t, p, r) == x + t
  {
    NoAt(x, p, r);
    if t != [] {
      MarkerLeadUnique(p);
      ConcatAtLead(x, t, p, r);
    } else {
      assert x + t == x;
    }
  }

  /** The step for `p` on plain text, the slot of `p`, and a tail the step leaves alone. */
  lemma {:induction false} SlotStep(x: string, present: bool, p: string, c: string, t: string, r: string)
    requires Marker(p) && Plain(x) && Plain(c)
    requires Tail(t) && ReplaceAll(t, p, r) == t
    ensures ReplaceAll(x + (Slot(present, p, c) + t), p, r) == x + Slot(present, r, c) + t
    ensures (present ==> Plain(r)) ==> Plain(x + Slot(present, r, c))
  {
    if present {
      PresentSlot(x, p, c, t, r);
    } else {
      PlainThenTail(x, t, p, r);
      assert x + ([] + t) == x + t;
      assert x + [] == x;
    }
  }

  /** The present case of `SlotStep`. */
  lemma {:induction false} PresentSlot(x: string, p: string, c: string, t: string, r: string)
    requires Marker(p) && Plain(x) && Plain(c)
    requires Tail(t) && ReplaceAll(t, p, r) == t
    ensures ReplaceAll(x + ((p + c) + t), p, r) == x + (r + c) + t
    ensures Plain(r) ==> Plain(x + (r + c))
  {
    Step(x, p, c, t, r);
    assert x + ((p + c) + t) == x + (p + c) + t;
    assert x + (r + c) + t == x + r + c + t;
  }

  /** The first of four steps: the three later slots survive it. */
  lemma {:induction false} FirstStep(x: string, p: string, s: bool, c: string, r: string,
                  q2: string, s2: bool, c2: string, q3: string, s3: bool, c3: string, q4: string, s4: bool, c4: string)
    requires Marker(p) && Marker(q2) && Marker(q3) && Marker(q4)
    requires Differ(q2, p) && Differ(q3, p) && Differ(q4, p)
    requires Plain(x) && Plain(c) && (s ==> Plain(r)) && Plain(c2) && Plain(c3) && Plain(c4)
    ensures var t := Slot(s2, q2, c2) + (Slot(s3, q3, c3) + (Slot(s4, q4, c4) + []));
      ReplaceAll(x + (Slot(s, p, c) + t), p, r) == x + Slot(s, r, c) + t
    ensures Plain(x + Slot(s, r, c))
  {
    var t4 := Slot(s4, q4, c4) + [];
    var t3 := Slot(s3, q3, c3) + t4;
    SlotSurvives(s4, q4, c4, [], p, r);
    SlotSurvives(s3, q3, c3, t4, p, r);
    SlotSurvives(s2, q2, c2, t3, p, r);
    SlotStep(x, s, p, c, Slot(s2, q2, c2) + t3, r);
  }

  /** The second of four steps: the two later slots survive it. */
  lemma {:induction false} SecondStep(x: string, p: string, s: bool, c: string, r: string,
                   q3: string, s3: bool, c3: string, q4: string, s4: bool, c4: string)
    requires Marker(p) && Marker(q3) && Marker(q4)
    requires Differ(q3, p) && Differ(q4, p)
    requires Plain(x) && Plain(c) && (s ==> Plain(r)) && Plain(c3) && Plain(c4)
    ensures var t := Slot(s3, q3, c3) + (Slot(s4, q4, c4) + []);
      ReplaceAll(x + (Slot(s, p, c) + t), p, r) == x + Slot(s, r, c) + t
    ensures Plain(x + Slot(s, r, c))
  {
    var t4 := Slot(s4, q4, c4) + [];
    SlotSurvives(s4, q4, c4, [], p, r);
    SlotSurvives(s3, q3, c3, t4, p, r);
    SlotStep(x, s, p, c, Slot(s3, q3, c3) + t4, r);
  }

  /** The third of four steps: the last slot survives it. */
  lemma {:induction false} ThirdStep(x: string, p: string, s: bool, c: string, r: string, q4: string, s4: bool, c4: string)
    requires Marker(p) && Marker(q4) && Differ(q4, p)
    requires Plain(x) && Plain(c) && (s ==> Plain(r)) && Plain(c4)
    ensures var t := Slot(s4, q4, c4) + [];
      ReplaceAll(x + (Slot(s, p, c) + t), p, r) == x + Slot(s, r, c) + t
    ensures Plain(x + Slot(s, r, c))
  {
    SlotSurvives(s4, q4, c4, [], p, r);
    SlotStep(x, s, p, c, Slot(s4, q4, c4) + [], r);
  }

  /** The last of four steps: no later step can touch the value it inserts. */
  lemma {:induction false} LastStep(x: string, p: string, s: bool, c: string, r: string)
    requires Marker(p) && Plain(x) && Plain(c)
    ensures ReplaceAll(x + (Slot(s, p, c) + []), p, r) == x + Slot(s, r, c) + []
  {
    SlotStep(x, s, p, c, [], r);
  }

  lemma Regroup(x: string, h1: string, h2: string, h3: string, h4: string)
    ensures x + h1 + h2 + h3 + h4 == x + (h1 + (h2 + (h3 + (h4 + []))))
  {
  }

  lemma EmptyEnd(y: string)
    ensures y + [] == y
  {
  }

  /**
   * Four replace steps over plain text followed by four slots, one per step and
   * in the order of the steps: each present marker becomes its value.
   */
  lemma {:induction false} SlotsInOrder(x0: string,
                     p1: string, s1: bool, c1: string, r1: string,
                     p2: string, s2: bool, c2: string, r2: string,
                     p3: string, s3: bool, c3: string, r3: string,
                     p4: string, s4: bool, c4: string, r4: string)
    requires Marker(p1) && Marker(p2) && Marker(p3) && Marker(p4)
    requires Differ(p2, p1) && Differ(p3, p1) && Differ(p4, p1)
    requires Differ(p3, p2) && Differ(p4, p2) && Differ(p4, p3)
    requires Plain(x0) && Plain(c1) && Plain(c2) && Plain(c3) && Plain(c4)
    requires (s1 ==> Plain(r1)) && (s2 ==> Plain(r2)) && (s3 ==> Plain(r3))
    ensures ReplaceAll(ReplaceAll(ReplaceAll(ReplaceAll(
              x0 + Slot(s1, p1, c1) + Slot(s2, p2, c2) + Slot(s3, p3, c3) + Slot(s4, p4, c4),
              p1, r1), p2, r2), p3, r3), p4, r4)
         == x0 + Slot(s1, r1, c1) + Slot(s2, r2, c2) + Slot(s3, r3, c3) + Slot(s4, r4, c4)
  {
    var h1, h2, h3, h4 := Slot(s1, p1, c1), Slot(s2, p2, c2), Slot(s3, p3, c3), Slot(s4, p4, c4);
    var t4 := h4 + [];
    var t3 := h3 + t4;
    var t2 := h2 + t3;
    var y1 := x0 + Slot(s1, r1, c1);
    var y2 := y1 + Slot(s2, r2, c2);
    var y3 := y2 + Slot(s3, r3, c3);
    Regroup(x0, h1, h2, h3, h4);
    EmptyEnd(y3 + Slot(s4, r4, c4));
    FirstStep(x0, p1, s1, c1, r1, p2, s2, c2, p3, s3, c3, p4, s4, c4);
    SecondStep(y1, p2, s2, c2, r2, p3, s3, c3, p4, s4, c4);
    ThirdStep(y2, p3, s3, c3, r3, p4, s4, c4);
    LastStep(y3, p4, s4, c4, r4);
  }

  /**
   * A template made of plain text followed by the placeholders, each at most
   * once and in the order of the steps, each followed by plain text: each
   * placeholder present becomes its value. A value inserted before a later step
   * must hold no `@`; the twitter user, inserted last, may hold anything.
   */
  lemma PlaceholdersInOrder(x0: string, hasUrl: bool, a: string, hasTitle: bool, b: string,
                            hasDescription: bool, c: string, hasTwitterUser: bool, e: string, f: Fields)
    requires (hasUrl ==> Plain(f.url)) && (hasTitle ==> Plain(f.title)) && (hasDescription ==> Plain(f.description))
    requires Plain(x0) && Plain(a) && Plain(b) && Plain(c) && Plain(e)
    ensures Substitute(x0 + Slot(hasUrl, UrlToken, a) + Slot(hasTitle, TitleToken, b)
                          + Slot(hasDescription, DescriptionToken, c) + Slot(hasTwitterUser, TwitterUserToken, e), f)
         == x0 + Slot(hasUrl, f.url, a) + Slot(hasTitle, f.title, b)
               + Slot(hasDescription, f.description, c) + Slot(hasTwitterUser, f.twitterUser, e)
  {
    TokenFacts();
    SlotsInOrder(x0, UrlToken, hasUrl, a, f.url, TitleToken, hasTitle, b, f.title,
                 DescriptionToken, hasDescription, c, f.description, TwitterUserToken, hasTwitterUser, e, f.twitterUser);
  }

  /** Plain text followed by `@url` yields the text followed by the url. */
  lemma UrlAtEnd(x: string, f: Fields)
    requires Plain(x) && Plain(f.url)
    ensures Substitute(x + UrlToken, f) == x + f.url
  {
    var w := x + f.url;
    assert ReplaceAll(x + UrlToken, UrlToken, f.url) == w by {
      assert UrlToken[0] == '@';
      SkipNoLead(x, UrlToken, UrlToken, f.url);
      Whole(UrlToken, f.url);
    }
    assert Plain(w);
    assert ReplaceAll(w, TitleToken, f.title) == w by {
      TokenFacts();
      NoAt(w, TitleToken, f.title);
    }
    assert ReplaceAll(w, DescriptionToken, f.description) == w by {
      TokenFacts();
      NoAt(w, DescriptionToken, f.description);
    }
    assert ReplaceAll(w, TwitterUserToken, f.twitterUser) == w by {
      TokenFacts();
      NoAt(w, TwitterUserToken, f.twitterUser);
    }
  }

  /** The template `@url|@title|@description|@twitteruser` yields the four values separated by `|`. */
  lemma AllFourPlaceholders(f: Fields)
    requires Plain(f.url) && Plain(f.title) && Plain(f.description)
    ensures Substitute(UrlToken + "|" + TitleToken + "|" + DescriptionToken + "|" + TwitterUserToken, f)
         == f.url + "|" + f.title + "|" + f.description + "|" + f.twitterUser
  {
    var bar := "|";
    assert Plain(bar) && Plain([]);
    PlaceholdersInOrder([], true, bar, true, bar, true, bar, true, [], f);
    assert [] + Slot(true, UrlToken, bar) + Slot(true, TitleToken, bar) + Slot(true, DescriptionToken, bar)
              + Slot(true, TwitterUserToken, [])
        == UrlToken + bar + TitleToken + bar + DescriptionToken + bar + TwitterUserToken;
    assert [] + Slot(true, f.url, bar) + Slot(true, f.title, bar) + Slot(true, f.description, bar)
              + Slot(true, f.twitterUser, [])
        == f.url + bar + f.title + bar + f.description + bar + f.twitterUser;
  }

  /** A marker twice, with plain text between, becomes the value twice. */
  lemma {:induction false} Twice(p: string, c: string, r: string)
    requires Marker(p) && Plain(c)
    ensures ReplaceAll(p + c + p, p, r) == r + c + r
  {
    MarkerLeadUnique(p);
    MatchHead(p, c + p, r);
    assert p + c + p == p + (c + p);
    NoAt(c, p, r);
    Whole(p, r);
    ConcatAtLead(c, p, p, r);
  }

  /** Every occurrence is replaced: `@url @url` becomes the url twice. */
  lemma RepeatedPlaceholder(f: Fields)
    requires Plain(f.url)
    ensures Substitute(UrlToken + " " + UrlToken, f) == f.url + " " + f.url
  {
    TokenFacts();
    var space := " ";
    Twice(UrlToken, space, f.url);
    assert Plain(f.url + space + f.url);
    NoAt(f.url + space + f.url, TitleToken, f.title);
    NoAt(f.url + space + f.url, DescriptionToken, f.description);
    NoAt(f.url + space + f.url, TwitterUserToken, f.twitterUser);
  }

  /** A step leaves a marker that differs from its own, between plain texts. */
  lemma {:induction false} WordKept(x: string, q: string, c: string, p: string, r: string)
    requires Marker(q) && Marker(p) && Differ(q, p) && Plain(x) && Plain(c)
    ensures ReplaceAll(x + (q + c), p, r) == x + (q + c)
  {
    assert ReplaceAll([], p, r) == [];
    Survives(q, c, [], p, r);
    assert (q + c) + [] == q + c;
    PlainThenTail(x, q + c, p, r);
  }

  /**
   * An `@` word that differs from each placeholder, with text without `@` on
   * either side, passes all four steps unchanged.
   */
  lemma NotAPlaceholder(x: string, q: string, c: string, f: Fields)
    requires Marker(q) && Plain(x) && Plain(c)
    requires Differ(q, UrlToken) && Differ(q, TitleToken) && Differ(q, DescriptionToken) && Differ(q, TwitterUserToken)
    ensures Substitute(x + q + c, f) == x + q + c
  {
    var w := x + (q + c);
    assert x + q + c == w;
    assert ReplaceAll(w, UrlToken, f.url) == w by {
      TokenFacts();
      WordKept(x, q, c, UrlToken, f.url);
    }
    assert ReplaceAll(w, TitleToken, f.title) == w by {
      TokenFacts();
      WordKept(x, q, c, TitleToken, f.title);
    }
    assert ReplaceAll(w, DescriptionToken, f.description) == w by {
      TokenFacts();
      WordKept(x, q, c, DescriptionToken, f.description);
    }
    assert ReplaceAll(w, TwitterUserToken, f.twitterUser) == w by {
      TokenFacts();
      WordKept(x, q, c, TwitterUserToken, f.twitterUser);
    }
  }

  /** A step on its marker, plain text and a different marker: only its marker is replaced. */
  lemma {:induction false} MarkerBeforeWord(p: string, c: string, q: string, r: string)
    requires Marker(p) && Plain(c) && Marker(q) && Differ(q, p)
    ensures ReplaceAll(p + c + q, p, r) == r + c + q
  {
    OtherToken(q, p, r);
    Step([], p, c, q, r);
    assert [] + (p + c) + q == p + c + q;
    assert [] + r + c + q == r + c + q;
  }

  /**
   * The url is filled in and an `@` word after it, which differs from each
   * placeholder, is kept.
   */
  lemma WordAfterUrl(q: string, f: Fields)
    requires Plain(f.url) && Marker(q)
    requires Differ(q, UrlToken) && Differ(q, TitleToken) && Differ(q, DescriptionToken) && Differ(q, TwitterUserToken)
    ensures Substitute(UrlToken + " " + q, f) == f.url + " " + q
  {
    var w := f.url + " " + q;
    assert ReplaceAll(UrlToken + " " + q, UrlToken, f.url) == w by {
      TokenFacts();
      MarkerBeforeWord(UrlToken, " ", q, f.url);
    }
    assert Plain(f.url + " ");
    assert w == (f.url + " ") + (q + []);
    assert ReplaceAll(w, TitleToken, f.title) == w by {
      TokenFacts();
      WordKept(f.url + " ", q, [], TitleToken, f.title);
    }
    assert ReplaceAll(w, DescriptionToken, f.description) == w by {
      TokenFacts();
      WordKept(f.url + " ", q, [], DescriptionToken, f.description);
    }
    assert ReplaceAll(w, TwitterUserToken, f.twitterUser) == w by {
      TokenFacts();
      WordKept(f.url + " ", q, [], TwitterUserToken, f.twitterUser);
    }
  }

  /** The word `@unknown` differs from each placeholder. */
  lemma UnknownWord()
    ensures Marker("@unknown")
    ensures Differ("@unknown", UrlToken) && Differ("@unknown", TitleToken)
    ensures Differ("@unknown", DescriptionToken) && Differ("@unknown", TwitterUserToken)
  {
    var unknown := "@unknown";
    assert unknown[1] == 'u' && unknown[2] == 'n';
    assert UrlToken[2] == 'r' && TitleToken[1] == 't' && DescriptionToken[1] == 'd' && TwitterUserToken[1] == 't';
  }

  /** `@url @unknown` keeps the unknown word after the url. */
  lemma UnknownAfterUrl(f: Fields)
    requires Plain(f.url)
    ensures Substitute(UrlToken + " " + "@unknown", f) == f.url + " " + "@unknown"
  {
    UnknownWord();
    WordAfterUrl("@unknown", f);
  }

  /**
   * Placeholders have no word boundary: in `@titles` the `@title` is replaced
   * and the `s` stays.
   */
  lemma TitlePrefixOfWord(f: Fields)
    requires Plain(f.title)
    ensures Substitute(TitleToken + "s", f) == f.title + "s"
  {
    var s := "s";
    var w := f.title + s;
    assert ReplaceAll(TitleToken + s, UrlToken, f.url) == TitleToken + s by {
      TokenFacts();
      WordKept([], TitleToken, s, UrlToken, f.url);
      assert [] + (TitleToken + s) == TitleToken + s;
    }
    assert ReplaceAll(TitleToken + s, TitleToken, f.title) == w by {
      TokenFacts();
      MatchHead(TitleToken, s, f.title);
      NoAt(s, TitleToken, f.title);
    }
    assert Plain(w);
    assert ReplaceAll(w, DescriptionToken, f.description) == w by {
      TokenFacts();
      NoAt(w, DescriptionToken, f.description);
    }
    assert ReplaceAll(w, TwitterUserToken, f.twitterUser) == w by {
      TokenFacts();
      NoAt(w, TwitterUserToken, f.twitterUser);
    }
  }

  /** The word `@URL` differs from each placeholder: matching is case-sensitive. */
  lemma UpperUrlWord()
    ensures Marker("@URL")
    ensures Differ("@URL", UrlToken) && Differ("@URL", TitleToken)
    ensures Differ("@URL", DescriptionToken) && Differ("@URL", TwitterUserToken)
  {
    var upper := "@URL";
    assert upper[1] == 'U';
    assert UrlToken[1] == 'u' && TitleToken[1] == 't' && DescriptionToken[1] == 'd' && TwitterUserToken[1] == 't';
  }

  /** Tokens that are not placeholders survive: `@unknown`, and `@URL` since matching is case-sensitive. */
  lemma UnknownTokensKept(f: Fields)
    ensures Substitute("@unknown", f) == "@unknown"
    ensures Substitute("@URL", f) == "@URL"
  {
    UnknownWord();
    UpperUrlWord();
    NotAPlaceholder([], "@unknown", [], f);
    NotAPlaceholder([], "@URL", [], f);
    assert [] + "@unknown" + [] == "@unknown";
    assert [] + "@URL" + [] == "@URL";
  }
}
