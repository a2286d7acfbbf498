/**
 * The component's `networks` data: for each network key, the share-link
 * template (`sharer`) and, for two networks, a statistics-endpoint template
 * (`stats`) that nothing reads. The templates are written with the placeholder
 * constants; each is the same string as the literal in the component.
 */
module Networks {
  import opened Wrappers
  import opened Text
  import opened Templating

  datatype Network = Network(sharer: string, stats: Option<string>)

  /** The six supported network keys. */
  const Keys: set<string> := {"facebook", "twitter", "googleplus", "pinterest", "reddit", "linkedin"}

  // Each link prefix is written as its host followed by its path.
  const FacebookPrefix := "https://www.facebook.com" + "/sharer/sharer.php?u="
  const TwitterPrefix := "https://twitter.com" + "/intent/tweet?url="
  const GooglePlusPrefix := "https://plus.google.com" + "/share?url="
  const PinterestPrefix := "https://pinterest.com" + "/pin/create/button/?url="
  const RedditPrefix := "http://www.reddit.com" + "/submit?url="
  const LinkedInPrefix := "https://www.linkedin.com" + "/shareArticle" + "?mini=true&url="

  /** The share-link templates. */
  const FacebookSharer := FacebookPrefix + UrlToken + "&summary=" + TitleToken
  const TwitterSharer := TwitterPrefix + UrlToken + "&via=" + TwitterUserToken
  const GooglePlusSharer := GooglePlusPrefix + UrlToken
  const PinterestSharer := PinterestPrefix + UrlToken + "&description=" + TitleToken
  const RedditSharer := RedditPrefix + UrlToken + "&title=" + TitleToken
  const LinkedInSharer := LinkedInPrefix + UrlToken + "&title=" + TitleToken + "&summary=" + DescriptionToken

  /** The registry a new component starts with. */
  function Registry(): map<string, Network>
  {
    map[
      "facebook" := Network(FacebookSharer, Some("https://api.facebook.com/method/links.getStats?urls=" + UrlToken + "&format=json")),
      "twitter" := Network(TwitterSharer, None),
      "googleplus" := Network(GooglePlusSharer, Some("https://plusone.google.com/_/+1/fastbutton?url=" + UrlToken)),
      "pinterest" := Network(PinterestSharer, None),
      "reddit" := Network(RedditSharer, None),
      "linkedin" := Network(LinkedInSharer, None)
    ]
  }

  /** The registry holds exactly the six networks; only facebook and googleplus carry `stats`. */
  lemma RegistryShape()
    ensures Registry().Keys == Keys
    ensures forall n :: n in Registry() ==> (Registry()[n].stats.Some? <==> n == "facebook" || n == "googleplus")
  {
  }

  /** Every share-link template has a place for the shared url. */
  lemma EveryTemplateHasUrl()
    ensures forall n :: n in Registry() ==> Occurs(Registry()[n].sharer, UrlToken)
  {
    Placed(FacebookPrefix, UrlToken, "&summary=" + TitleToken);
    assert FacebookPrefix + UrlToken + ("&summary=" + TitleToken) == FacebookSharer;
    Placed(TwitterPrefix, UrlToken, "&via=" + TwitterUserToken);
    assert TwitterPrefix + UrlToken + ("&via=" + TwitterUserToken) == TwitterSharer;
    Placed(GooglePlusPrefix, UrlToken, []);
    assert GooglePlusPrefix + UrlToken + [] == GooglePlusSharer;
    Placed(PinterestPrefix, UrlToken, "&description=" + TitleToken);
    assert PinterestPrefix + UrlToken + ("&description=" + TitleToken) == PinterestSharer;
    Placed(RedditPrefix, UrlToken, "&title=" + TitleToken);
    assert RedditPrefix + UrlToken + ("&title=" + TitleToken) == RedditSharer;
    var rest := "&title=" + TitleToken + "&summary=" + DescriptionToken;
    Placed(LinkedInPrefix, UrlToken, rest);
    assert LinkedInPrefix + UrlToken + rest == LinkedInSharer;
  }

  // ---------------------------------------------------------------------------
  // The link each network opens
  //
  // Each lemma requires `@`-free text only of the values its template inserts
  // before a later replace step; the values it does not insert, and a twitter
  // user (inserted by the last step), may hold anything.

  /** No link prefix holds an `@`. */
  lemma FacebookPrefixPlain() ensures Plain(FacebookPrefix)
  {
    assert Plain("https://www.facebook.com") && Plain("/sharer/sharer.php?u=");
  }

  lemma TwitterPrefixPlain() ensures Plain(TwitterPrefix)
  {
    assert Plain("https://twitter.com") && Plain("/intent/tweet?url=");
  }

  lemma GooglePlusPrefixPlain() ensures Plain(GooglePlusPrefix)
  {
    assert Plain("https://plus.google.com") && Plain("/share?url=");
  }

  lemma PinterestPrefixPlain() ensures Plain(PinterestPrefix)
  {
    assert Plain("https://pinterest.com") && Plain("/pin/create/button/?url=");
  }

  lemma RedditPrefixPlain() ensures Plain(RedditPrefix)
  {
    assert Plain("http://www.reddit.com") && Plain("/submit?url=");
  }

  lemma LinkedInPrefixPlain() ensures Plain(LinkedInPrefix)
  {
    assert Plain("https://www.linkedin.com") && Plain("/shareArticle") && Plain("?mini=true&url=");
  }

  /** Facebook shares the url and gives the title as the summary. */
  lemma FacebookLink(f: Fields)
    requires Plain(f.url) && Plain(f.title)
    ensures Substitute(Registry()["facebook"].sharer, f) == FacebookPrefix + f.url + "&summary=" + f.title
  {
    var c := "&summary=";
    FacebookPrefixPlain();
    PlaceholdersInOrder(FacebookPrefix, true, c, true, [], false, [], false, [], f);
    assert FacebookPrefix + Slot(true, UrlToken, c) + Slot(true, TitleToken, []) + Slot(false, DescriptionToken, []) + Slot(false, TwitterUserToken, [])
      == FacebookSharer;
    assert FacebookPrefix + Slot(true, f.url, c) + Slot(true, f.title, []) + Slot(false, f.description, []) + Slot(false, f.twitterUser, [])
      == FacebookPrefix + f.url + c + f.title;
  }

  /** Twitter shares the url via the twitter user. */
  lemma TwitterLink(f: Fields)
    requires Plain(f.url)
    ensures Substitute(Registry()["twitter"].sharer, f) == TwitterPrefix + f.url + "&via=" + f.twitterUser
  {
    var c := "&via=";
    TwitterPrefixPlain();
    PlaceholdersInOrder(TwitterPrefix, true, c, false, [], false, [], true, [], f);
    assert TwitterPrefix + Slot(true, UrlToken, c) + Slot(false, TitleToken, []) + Slot(false, DescriptionToken, []) + Slot(true, TwitterUserToken, [])
      == TwitterSharer;
    assert TwitterPrefix + Slot(true, f.url, c) + Slot(false, f.title, []) + Slot(false, f.description, []) + Slot(true, f.twitterUser, [])
      == TwitterPrefix + f.url + c + f.twitterUser;
  }

  /** Google+ shares the url alone. */
  lemma GooglePlusLink(f: Fields)
    requires Plain(f.url)
    ensures Substitute(Registry()["googleplus"].sharer, f) == GooglePlusPrefix + f.url
  {
    GooglePlusPrefixPlain();
    UrlAtEnd(GooglePlusPrefix, f);
    assert Registry()["googleplus"].sharer == GooglePlusPrefix + UrlToken;
  }

  /** Pinterest shares the url and gives the title as the description. */
  lemma PinterestLink(f: Fields)
    requires Plain(f.url) && Plain(f.title)
    ensures Substitute(Registry()["pinterest"].sharer, f) == PinterestPrefix + f.url + "&description=" + f.title
  {
    var c := "&description=";
    PinterestPrefixPlain();
    PlaceholdersInOrder(PinterestPrefix, true, c, true, [], false, [], false, [], f);
    assert PinterestPrefix + Slot(true, UrlToken, c) + Slot(true, TitleToken, []) + Slot(false, DescriptionToken, []) + Slot(false, TwitterUserToken, [])
      == PinterestSharer;
    assert PinterestPrefix + Slot(true, f.url, c) + Slot(true, f.title, []) + Slot(false, f.description, []) + Slot(false, f.twitterUser, [])
      == PinterestPrefix + f.url + c + f.title;
  }

  /** Reddit shares the url with the title. */
  lemma RedditLink(f: Fields)
    requires Plain(f.url) && Plain(f.title)
    ensures Substitute(Registry()["reddit"].sharer, f) == RedditPrefix + f.url + "&title=" + f.title
  {
    var c := "&title=";
    RedditPrefixPlain();
    PlaceholdersInOrder(RedditPrefix, true, c, true, [], false, [], false, [], f);
    assert RedditPrefix + Slot(true, UrlToken, c) + Slot(true, TitleToken, []) + Slot(false, DescriptionToken, []) + Slot(false, TwitterUserToken, [])
      == RedditSharer;
    assert RedditPrefix + Slot(true, f.url, c) + Slot(true, f.title, []) + Slot(false, f.description, []) + Slot(false, f.twitterUser, [])
      == RedditPrefix + f.url + c + f.title;
  }

  /** LinkedIn shares the url with the title and gives the description as the summary. */
  lemma LinkedInLink(f: Fields)
    requires Plain(f.url) && Plain(f.title) && Plain(f.description)
    ensures Substitute(Registry()["linkedin"].sharer, f)
         == LinkedInPrefix + f.url + "&title=" + f.title + "&summary=" + f.description
  {
    var a, b := "&title=", "&summary=";
    LinkedInPrefixPlain();
    PlaceholdersInOrder(LinkedInPrefix, true, a, true, b, true, [], false, [], f);
    assert LinkedInPrefix + Slot(true, UrlToken, a) + Slot(true, TitleToken, b) + Slot(true, DescriptionToken, []) + Slot(false, TwitterUserToken, [])
      == LinkedInSharer;
    assert LinkedInPrefix + Slot(true, f.url, a) + Slot(true, f.title, b) + Slot(true, f.description, []) + Slot(false, f.twitterUser, [])
      == LinkedInPrefix + f.url + a + f.title + b + f.description;
  }
}
