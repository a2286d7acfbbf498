# social-shares: a Dafny model of the share controller

`src/vue.social-shares.js` defines the `social-shares` component: a group of
links to six social networks. It holds three pieces of state:

- a registry of share-link templates, one per network;
- a `popup` record with window features, size, position and the last window handle;
- the properties `url`, `title`, `description` and `twitterUser`.

The component runs three operations:

- `ready` defaults the url to the page address and centres the popup on the screen.
- `share(network)` fills the network's template with the four values and passes the link to `_openSharer`, then dispatches `social_shares_click`.
- `_openSharer` calls `window.open` with a feature string written from the popup record, and keeps the handle it gets back.

The model is split into eight modules:

- `Wrappers` (`wrappers.dfy`): `Option` and `Outcome`.
- `Text` (`text.dfy`): literal global replacement. A pattern's occurrences are replaced in one left-to-right pass, and the inserted text is never scanned again. Also joining and splitting on a separator.
- `JsReplace` (`js_replace.dfy`): `String.prototype.replace` with a global regular expression and a string replacement, as JavaScript evaluates it. This includes the expansion of `$$`, `$&`, `` $` `` and `$'`.
- `Templating` (`templating.dfy`): the four placeholders and the four-step substitution of `share`.
- `Networks` (`networks.dfy`): the `networks` registry.
- `Decimal` (`decimal.dfy`): how JavaScript writes the integers and half-integers that reach the feature string, and a reader that parses them back.
- `PopupSettings` (`popup.dfy`): the `popup` record, the centring arithmetic of `ready`, and the feature string of `_openSharer` with its reader.
- `SocialShares` (`social_shares.dfy`): class `Widget`, with the component's fields and the methods `Share`, `OpenSharer` and `Ready`. These methods change the fields in place.

The browser is outside the model:

- The page address `window.location.href` is a parameter of `Ready`, and so is the screen size `window.screen.width`/`height`.
- The handle `window.open` returns is a parameter of `Share` and `OpenSharer`. `Handle.Null` stands for a blocked popup.
- The calls to `window.open` and `$dispatch` are appended to the logs `openCalls` and `events`.

Choices the code settles:

- The registry holds six networks, and every one of them is shared through the popup (src/vue.social-shares.js:96-124).
- Placeholders match case-sensitively: the regular expressions (`/\@url/g` and the others) carry no `i` flag (src/vue.social-shares.js:168-171). `Templating.UnknownTokensKept` shows that `@URL` is left alone.
- The values are inserted without URL encoding, both in the code and in the model.
- An unknown network key throws a `TypeError` (reading `.sharer`, or `.replace` on the `undefined` it gives) before anything else happens. `Share` returns `Fail(TypeError)` and changes nothing, rather than requiring a known key.

## Model

| member | source | states |
|---|---|---|
| Networks.Registry | src/vue.social-shares.js:96-124 | the `networks` registry: six keys, each with its `sharer` template and, for facebook and googleplus, its `stats` template; its shape is stated by Networks.RegistryShape and its links by the six link lemmas |
| Text.ReplaceAll | src/vue.social-shares.js:168 | a global replace of a literal pattern in one left-to-right pass; its meaning is stated by Text.ReplaceAllJoin and Text.Unchanged |
| JsReplace.ReplaceAllJs | src/vue.social-shares.js:168 | `replace` with a global regular expression and a string replacement, expanding `$` patterns as JavaScript does; related to the literal replace by JsReplace.AgreesWithoutDollar |
| JsReplace.SubstituteJs | src/vue.social-shares.js:168-171 | the four replaces of `share` as JavaScript runs them; related to the corrected link by JsReplace.SubstituteAgreesWithoutDollar |
| Templating.Substitute | src/vue.social-shares.js:168-171 | the four replaces of `share` with literal insertion, in source order; what they yield is stated by Templating.PlaceholdersInOrder |
| Decimal.IntText | src/vue.social-shares.js:188-189 | how JavaScript writes an integer size; read back by Decimal.IntTextRoundTrip |
| Decimal.NumberText | src/vue.social-shares.js:191-194 | how JavaScript writes a half-integer position; read back by Decimal.NumberTextRoundTrip |
| PopupSettings.Features | src/vue.social-shares.js:187-199 | the feature string written from the popup record; what it reads back as is stated by PopupSettings.FeatureString |
| Networks.RegistryShape | src/vue.social-shares.js:96-124 | the registry holds exactly the keys facebook, twitter, googleplus, pinterest, reddit and linkedin; only facebook and googleplus have a `stats` template |
| Networks.EveryTemplateHasUrl | src/vue.social-shares.js:96-124 | every network's share template contains the `@url` placeholder |
| Networks.FacebookLink | src/vue.social-shares.js:100 | for an `@`-free url and title and any description and twitter user, facebook opens its sharer prefix, the url, `&summary=` and the title |
| Networks.TwitterLink | src/vue.social-shares.js:105 | for an `@`-free url and any title, description and twitter user, twitter opens its intent prefix, the url, `&via=` and the twitter user |
| Networks.GooglePlusLink | src/vue.social-shares.js:109 | for an `@`-free url and any title, description and twitter user, google+ opens its share prefix followed by the url |
| Networks.PinterestLink | src/vue.social-shares.js:114 | for an `@`-free url and title and any description and twitter user, pinterest opens its pin prefix, the url, `&description=` and the title |
| Networks.RedditLink | src/vue.social-shares.js:118 | for an `@`-free url and title and any description and twitter user, reddit opens its submit prefix, the url, `&title=` and the title |
| Networks.LinkedInLink | src/vue.social-shares.js:122 | for an `@`-free url, title and description and any twitter user, linkedin opens its share-article prefix, the url, `&title=`, the title, `&summary=` and the description |
| Text.ReplaceAllJoin | src/vue.social-shares.js:168 | a global replace makes one pass: a string cut by the placeholder into placeholder-free parts becomes those parts joined by the value, whatever the value contains |
| Text.Unchanged | src/vue.social-shares.js:168 | a string without the placeholder is returned unchanged by a global replace |
| Templating.PlaceholdersInOrder | src/vue.social-shares.js:168-171 | a template made of a prefix and optional `@url`, `@title`, `@description`, `@twitteruser` segments, in that order, yields the prefix and segments with the url, title, description and twitter user put in place; only a value inserted before a later step must be free of `@`, and the twitter user may hold anything |
| Templating.AllFourPlaceholders | src/vue.social-shares.js:168-171 | the four placeholders separated by bars yield the four values separated by bars, for an `@`-free url, title and description and any twitter user |
| Templating.UrlAtEnd | src/vue.social-shares.js:168-171 | `@`-free text followed by `@url` yields the text followed by the url, for an `@`-free url and any other value |
| Templating.RepeatedPlaceholder | src/vue.social-shares.js:168 | the global flag replaces every occurrence: for an `@`-free url, `@url @url` yields the url twice |
| Templating.PlaceholderAlone | src/vue.social-shares.js:168-171 | each placeholder on its own yields its value after the later steps have run on it; only `@twitteruser` yields exactly its value |
| Templating.NoPlaceholderUnchanged | src/vue.social-shares.js:168-171 | a template with none of the four placeholders comes back unchanged |
| Templating.NotAPlaceholder | src/vue.social-shares.js:168-171 | an `@` word that differs from each placeholder within the shorter of the two lengths, with `@`-free text on either side, is left in the link |
| Templating.WordAfterUrl | src/vue.social-shares.js:168-171 | for an `@`-free url, in `@url` followed by a space and such a word, the url is filled in and the word is kept |
| Templating.UnknownAfterUrl | src/vue.social-shares.js:168-171 | for an `@`-free url, `@url @unknown` yields the url followed by ` @unknown` |
| Templating.TitlePrefixOfWord | src/vue.social-shares.js:169 | placeholders have no word boundary: for an `@`-free title, `@titles` yields the title followed by `s` |
| Templating.UnknownTokensKept | src/vue.social-shares.js:168-171 | `@unknown` and the upper-case `@URL` are left in the link (matching is case-sensitive) |
| Templating.OrderMatters | src/vue.social-shares.js:168-169 | the replacements run in sequence: a url that is `@title` receives an `@`-free title in the next step, but a title that is `@url` keeps it |
| JsReplace.AgreesWithoutDollar | src/vue.social-shares.js:168-171 | for a value without `$`, JavaScript's replace is the literal replace of `Text.ReplaceAll` |
| JsReplace.MatchedTextReinserted | src/vue.social-shares.js:168-171 | a value `$&` puts the placeholder back where a literal insertion gives `$&` |
| JsReplace.DollarPairCollapses | src/vue.social-shares.js:168-171 | a value `$$` leaves one `$` where a literal insertion gives `$$` |
| JsReplace.SubstituteAgreesWithoutDollar | src/vue.social-shares.js:168-171 | when no value holds `$`, the four replaces as JavaScript runs them give the same link as the literal substitution |
| JsReplace.AmpersandTitle | src/vue.social-shares.js:168-171 | through all four replaces, the title `$&` puts `@title` back into the link, where the literal substitution gives `$&` |
| JsReplace.DoubleDollarTitle | src/vue.social-shares.js:168-171 | through all four replaces, the title `$$` comes out as `$`, where the literal substitution gives `$$` |
| Decimal.IntTextRoundTrip | src/vue.social-shares.js:188-189 | the text of an integer height or width parses back to that number and holds no `,` or `=` |
| Decimal.NumberTextRoundTrip | src/vue.social-shares.js:191-194 | the text of a half-integer left or top parses back to that number and holds no `,` or `=` |
| PopupSettings.CentredLeft | src/vue.social-shares.js:211-213 | the left edge leaves equal space on both sides of the popup widened by 10 pixels of border on each side |
| PopupSettings.CentredTop | src/vue.social-shares.js:214-216 | the top edge leaves equal space above and below the popup extended by 50 pixels for the title and status bars |
| PopupSettings.CentredOnFullHd | src/vue.social-shares.js:212-216 | the default 626 x 436 popup on a 1920 x 1080 screen sits at left 637, top 272 |
| PopupSettings.HalfPixelOnOddScreen | src/vue.social-shares.js:212-213 | an odd screen width puts the popup at a half pixel (360.5 on a 1367-pixel screen) |
| PopupSettings.ParseRender | src/vue.social-shares.js:187-199 | a non-empty list of `key=value` entries written with commas reads back as the same entries when no key or value holds `,` or `=` |
| PopupSettings.FeatureString | src/vue.social-shares.js:187-199 | the feature string reads back as its 13 entries in source order; each flag reads `yes` exactly when set; height and width read back as the popup's size; left/top and screenX/screenY read back as its position |
| SocialShares.Widget.constructor | src/vue.social-shares.js:88-144 | a new component has the given properties, the six-network registry, the default popup record and empty logs |
| SocialShares.Widget.OpenSharer | src/vue.social-shares.js:182-201 | one `window.open` call with the link, the name `sharer` and the features of the popup record; the returned handle is stored in `popup.window`; nothing else changes |
| SocialShares.Widget.Share | src/vue.social-shares.js:164-175 | without a url: no popup and one click event with an undefined url. With a url and a known network: one popup at the filled-in template, then one click event with the url. With a url and an unknown key: a `TypeError`, with no popup and no event. The properties and the registry never change |
| SocialShares.Widget.Ready | src/vue.social-shares.js:207-217 | the url becomes the page address only when it was undefined; left and top become the centred positions for the current size; nothing else changes |

## Left out

- Vue registration, prop type checks, the child-link templates and the `components` block (`_sr_mixin`, `childMixin`, the six aliases) are rendering only. A child link calls `share(network)`, which is modelled.
- The `withCounts` and `googleKey` properties and the `stats` templates are not used: nothing in the component reads them. `stats` is kept as data in the registry.
- `$dispatch` travelling up the component tree is not modelled. A dispatched event is recorded in `events`.
- `window.open`, `window.location` and `window.screen` are browser calls. They become parameters and a log, as described above.
- `popup.width` and `popup.height` are integers, as in the component's data. Non-integer sizes set from outside, floating-point rounding, and JavaScript's exponent notation for numbers of 10^21 and above are not modelled.
- Gruntfile.js is a build script and is not part of this model.
- Templating.PlaceholdersInOrder: it requires `@`-free text only of a value inserted before a later step (url, title, description when present); the twitter user, inserted last, and the values of absent placeholders may hold anything. An earlier value that holds a later placeholder is rewritten by that later step, and only the examples in Templating.OrderMatters cover that case. An `@` that forms no later placeholder would be kept, but the lemma does not cover it.
- Networks.FacebookLink: it requires an `@`-free url and title, the two values facebook inserts before a later step; a url or title holding a later placeholder is rewritten by the component, which the lemma does not describe.
- Networks.TwitterLink: it requires an `@`-free url, the one value twitter inserts before a later step; a url holding a later placeholder is rewritten by the component, which the lemma does not describe.
- Networks.GooglePlusLink: it requires an `@`-free url, the one value google+ inserts; a url holding a later placeholder is rewritten by the component, which the lemma does not describe.
- Networks.PinterestLink: it requires an `@`-free url and title, the two values pinterest inserts before a later step; a url or title holding a later placeholder is rewritten by the component, which the lemma does not describe.
- Networks.RedditLink: it requires an `@`-free url and title, the two values reddit inserts before a later step; a url or title holding a later placeholder is rewritten by the component, which the lemma does not describe.
- Networks.LinkedInLink: it requires an `@`-free url, title and description, the three values linkedin inserts before a later step; one of them holding a later placeholder is rewritten by the component, which the lemma does not describe.
- SocialShares.Widget.Share: the link it opens is the literal substitution `Templating.Substitute`, the corrected behaviour from "## Findings". The component's own link, `JsReplace.SubstituteJs`, expands `$` patterns in the values. The two are equal whenever no value holds `$` (JsReplace.SubstituteAgreesWithoutDollar), and they differ for values such as `$&` and `$$` (JsReplace.AmpersandTitle, JsReplace.DoubleDollarTitle).

## Findings

| source | as written | input that shows it | evidently intended | confidence | as-written member | corrected member |
|---|---|---|---|---|---|---|
| src/vue.social-shares.js:168-171 | each value is passed to `replace` as a replacement string, so `$&`, `$$`, `` $` `` and `$'` inside it are expanded rather than inserted | the title `$&` with the template `@title` yields `@title` instead of `$&` | the value is inserted literally, as a replacement function or an escaped `$` would do | not executed | JsReplace.AmpersandTitle | Templating.PlaceholdersInOrder |

The as-written link is `JsReplace.SubstituteJs`: the four replaces of `share` as JavaScript runs them.
`JsReplace.AmpersandTitle` and `JsReplace.DoubleDollarTitle` exhibit the discrepancy through all four steps.
The corrected link is `Templating.Substitute`, built on the literal replacement `Text.ReplaceAll`.
`Templating.PlaceholdersInOrder` proves that it puts every value in its place, whatever `$` the value holds, when the values inserted before a later step hold no `@`.
`Text.ReplaceAllJoin` proves the same for a single literal replace with any value.
The rest of the model, `SocialShares.Widget.Share` included, uses the corrected link.
`JsReplace.SubstituteAgreesWithoutDollar` proves that the two links agree whenever no value holds `$`.
