# Amazon affiliate hub — a Dafny model of its link resolver and card store

The page `src/App.js` converts pasted Amazon product URLs into affiliate-tagged
links and keeps a small list of deal cards (title, image, link), newest first.
This project models the two parts of it that hold logic:

- **Affiliate link resolver** (`link_resolver.dfy`, module `LinkResolver`, with
  the string helpers of `text.dfy`, module `Text`):
  - `extractASIN` finds the 10-character product code (ASIN) by trying five
    case-insensitive path patterns in a fixed order. These are `/dp/`,
    `/gp/product/`, `/gp/aw/d/`, `/product/`, and a bare `/<code>` followed by
    `/`, `?` or the end of the path.
  - `getAffiliateLinkFromAsin` rebuilds the canonical
    `/dp/<code>/?tag=…&linkCode=ll1&language=…&ref_=as_li_ss_tl` link.
  - `generate` appends `tag=<store id>` to the trimmed input as plain text.
- **Card store** (`card_store.dfy`, module `CardStore`): the `Card` record and
  the pure prepend, map-by-id and filter-by-id list transformations. The class
  `App` holds the page's state fields (`storeId`, `inputUrl`, `affiliateLink`,
  `cards`, `editingId`, `editTitle`, `editImage`). Its methods `Generate`,
  `AddCard`, `StartEdit`, `SaveEdit` and `DeleteCard` set those fields as the
  page's handlers do.

Modelling choices:

- The browser's `new URL(...)` is a parameter of type `string -> Option<Url>`.
  `None` means the constructor throws. `Url` keeps only the parts the page
  reads: `protocol` (with its trailing `:`), `hostname` and `pathname`.
- `encodeURIComponent` is a parameter of type `string -> string`.
- The `App` class takes both parameters when it is constructed.
- `Date.now()` is the `now` parameter of `AddCard`.
- `window.confirm` is the `confirmed` parameter of `DeleteCard`.
- `alert(...)` is the `Some(message)` result of a handler. That result comes
  with no change of state.
- A regular expression `match` without the `g` flag returns the match that
  starts leftmost. `Search` computes that match, and `Leftmost` and `Winner`
  state it.
- The `i` flag folds case in the literal parts too, so `/DP/` matches.
  `[A-Z0-9]` under `i` accepts exactly the ASCII letters and digits.
- `String.prototype.trim` removes ECMAScript WhiteSpace and LineTerminator
  characters. `Text.IsJsSpace` lists them.
- The text inputs are controlled fields. Typing writes `inputUrl`, `storeId`,
  `editTitle` or `editImage` directly, and the model leaves them as public
  fields for that reason.

Three behaviours of the code that a reader might expect otherwise:

- `extractASIN` returns the code exactly as it appears in the path, in
  whatever case; nothing upper-cases it, and neither does `ExtractAsin`.
- `deleteCard` filters out every card with the given id, not only the first.
  `DeleteRemovesOne` proves that one card goes only for a list whose ids are
  unique. Ids stay unique only while every `Date.now()` read by `addCard`
  differs from the ids already in the list (`PrependKeepsUnique` requires
  it); deleting and editing keep them unique (`WithoutKeepsUnique`,
  `EditKeepsIdentity`). A clock set back can break it.
- `getAffiliateLinkFromAsin` is defined but nothing on the page calls it. The
  generated link always comes from `generate`.

## Model

| member | source | states |
|---|---|---|
| `Text.Trim` | src/App.js:61 | `trim` gives an empty string exactly for blank input; otherwise the result starts and ends with a non-whitespace character |
| `Text.TrimIsSlice` | src/App.js:61 | the trimmed string is a contiguous slice of the input with only whitespace cut off either side |
| `Text.TrimIdempotent` | src/App.js:61 | trimming twice equals trimming once |
| `LinkResolver.MatchesAt` | src/App.js:29-33 | defines where a pattern matches: the literal part (`/dp/`, `/gp/product/`, `/gp/aw/d/`, `/product/`, or `/` for the bare segment) equals the path's text up to ASCII case, the next ten characters are ASCII letters or digits, and for the bare segment they are followed by `/`, `?` or the end of the path |
| `LinkResolver.GpProductIsProduct` | src/App.js:28-34 | about `Patterns`, which lists the page's five patterns in the page's order: the second is contained in the fourth, since a `/gp/product/` match is also a `/product/` match three characters on with the same code, so the second pattern decides only by coming first |
| `LinkResolver.Capture` | src/App.js:29-33 | the capture group of any of the five patterns is a 10-character alphanumeric code taken verbatim from the path |
| `LinkResolver.Search` | src/App.js:36 | `p.match(re)` finds the leftmost match at or after the start; `None` means no position matches |
| `LinkResolver.FirstMatch` | src/App.js:35-39 | the loop returns the first pattern that matches anywhere, with its leftmost position; every earlier pattern matches nowhere; `None` means no pattern matches |
| `LinkResolver.ExtractAsin` | src/App.js:24-43 | an unparsable trimmed input gives `None`; any code returned is 10 ASCII letters or digits |
| `LinkResolver.WinnerUnique` | src/App.js:35-38 | the winning pattern and its match position are unique, so the result is determined |
| `LinkResolver.ExtractAsinReturnsWinner` | src/App.js:28-38 | when pattern k is the first to match and its leftmost match is at i, `extractASIN` returns exactly that capture |
| `LinkResolver.ExtractAsinNoneIffNoMatch` | src/App.js:39 | for a parsable input, `null` comes back exactly when none of the five patterns matches the path |
| `LinkResolver.EarlierPatternWins` | src/App.js:35-38 | if pattern k matches somewhere, the pattern used is k or an earlier one; a later pattern is never used |
| `LinkResolver.DpAfterPlainPrefix` | src/App.js:29 | a `/dp/<code>` preceded by text without the letter `d` is the leftmost match of the first pattern, and that pattern wins |
| `LinkResolver.DpPathYieldsCode` | src/App.js:29 | such a path yields the code as written, and a longer alphanumeric run after `/dp/` yields its first ten characters |
| `LinkResolver.DpBeatsEarlierBareSegment` | src/App.js:28-37 | for every pair of codes, in `/<bare>/dp/<code>` the bare-segment pattern matches at the start, yet the `/dp/` code is returned, because `/dp/` cannot match inside `/<bare>` |
| `LinkResolver.BareSegmentAtStart` | src/App.js:33 | `/<code>` followed by `/`, `?` or the end of the path matches the bare-segment pattern |
| `LinkResolver.CanonicalPathYieldsCode` | src/App.js:29 | a path that is exactly `/dp/<code>/` yields the code |
| `LinkResolver.Language` | src/App.js:52 | the language is `en_IN` exactly when the host ends with `.in`, and `en_US` otherwise |
| `LinkResolver.LanguageExamples` | src/App.js:52 | `www.amazon.in` gives `en_IN`; `www.amazon.com` and `amazon.in.example.com` give `en_US` |
| `LinkResolver.CanonicalLink` | src/App.js:50-53 | defines the canonical link: `protocol//hostname/dp/<asin>/?tag=<encoded id>&linkCode=ll1&language=<lang>&ref_=as_li_ss_tl`; the original path and query play no part |
| `LinkResolver.GetAffiliateLinkFromAsin` | src/App.js:46-57 | `null` exactly when the trimmed URL does not parse; otherwise `protocol//hostname/dp/<asin>/?tag=<enc(storeId)>&linkCode=ll1&language=<lang>&ref_=as_li_ss_tl` |
| `LinkResolver.AffiliateLinkIgnoresPathAndQuery` | src/App.js:48-53 | two URLs with the same protocol and host give the same link; the original path and query are discarded |
| `LinkResolver.AffiliateLinkRoundTrip` | src/App.js:46-53 | extracting the code from a canonical link gives back the code it was built from, for a URL parser that reads a plain path written after a parsed origin back as that path |
| `LinkResolver.TaggedUrl` | src/App.js:64-71 | the result is the URL followed by `&` exactly when the URL already has a `?`, by `?` otherwise, then `tag=` and the encoded id; the URL is its prefix |
| `LinkResolver.TaggedUrlQuery` | src/App.js:66-71 | for an input without a `#` and an encoded id without a `#` (`encodeURIComponent` never emits one), the result's query (the text between the first `?` and any `#`) is the input's query (if any) followed by `tag=<id>` as its last parameter, and there is no fragment |
| `LinkResolver.TaggedUrlIntoFragment` | src/App.js:66-71 | for an input with a `#`, the query is left as it was and `tag=<id>` is appended to the fragment instead, after `&` when a `?` appears anywhere in the input |
| `LinkResolver.TaggedUrlNeedsNoParsing` | src/App.js:61-73 | text that is not a URL is tagged all the same: `not a url` becomes `not a url?tag=<id>` |
| `CardStore.InitialStoreId` | src/App.js:6 | the store id at start-up is never empty: the saved one unless it is missing or empty, else `lavish057-21` |
| `CardStore.InitialCards` | src/App.js:9-15 | a parse failure of the saved list gives the empty list; a parsed list is taken as is |
| `CardStore.NewCard` | src/App.js:97-103 | the new card carries the extracted code or `""`, the title `Product <code>`, the generated link and the placeholder image |
| `CardStore.StagedImage` | src/App.js:112 | the editor's image field is blank exactly for the placeholder (or an empty image); otherwise it is the card's image |
| `CardStore.ApplyEdit` | src/App.js:119 | a non-empty staged title replaces the title, an empty one keeps it; the image becomes the staged image or the placeholder; id, code and link stay |
| `CardStore.ShownImage` | src/App.js:198 | a card always displays a non-empty picture: its own image, or the placeholder `https://via.placeholder.com/400x300?text=Product+Image` when it has none |
| `CardStore.EditKeepsShownImage` | src/App.js:109-122 | opening the editor and saving it unchanged never changes the picture displayed, including for a card with an empty image |
| `CardStore.EditById` | src/App.js:116-122 | same length and order; cards with another id are unchanged; cards with this id are edited |
| `CardStore.WithoutId` | src/App.js:130 | no kept card has this id, and the length drops by exactly the number of cards with this id |
| `CardStore.WithoutMembers` | src/App.js:130 | the kept cards are exactly the cards of the list whose id differs |
| `CardStore.WithoutKeepsOrder` | src/App.js:130 | the filter distributes over concatenation, so kept cards keep their relative order |
| `CardStore.WithoutAbsent` | src/App.js:130 | deleting an id no card carries leaves the list unchanged |
| `CardStore.WithoutKeepsUnique` | src/App.js:130 | deleting keeps ids unique |
| `CardStore.DeleteRemovesOne` | src/App.js:128-131 | with unique ids, deleting a present id shortens the list by exactly one, and deleting an absent id changes nothing |
| `CardStore.EditKeepsIdentity` | src/App.js:115-122 | saving an edit keeps every card's id, code and link, and keeps ids unique |
| `CardStore.EditMissIsNoOp` | src/App.js:115-122 | saving an edit for an id that no card carries leaves the list unchanged |
| `CardStore.EditRoundTrip` | src/App.js:109-126 | opening the editor and saving without changes gives the card back exactly when its image is non-empty |
| `CardStore.PrependKeepsUnique` | src/App.js:98-104 | prepending a card whose id is new keeps ids unique |
| `CardStore.App.constructor` | src/App.js:6-18 | start-up state: loaded store id and cards, empty input and link, no card being edited, empty editor fields |
| `CardStore.App.Generate` | src/App.js:60-74 | blank input alerts and leaves the link unchanged; otherwise the link is the tagged trimmed input, which is its prefix |
| `CardStore.App.AddCard` | src/App.js:94-107 | without a link it alerts and changes nothing; otherwise the new card goes in front of the unchanged old list, input and link are cleared, and ids stay unique if `now` is new |
| `CardStore.App.StartEdit` | src/App.js:109-113 | stages the card's id, its title and its image (blank for the placeholder); the list is untouched |
| `CardStore.App.SaveEdit` | src/App.js:115-126 | the list becomes the edit-by-id of the old list with the staged fields; the editor is closed and cleared |
| `CardStore.App.DeleteCard` | src/App.js:128-131 | a declined confirmation leaves the list as it was; a given one filters out the id |

## Left out

- Rendering, styles and the Cancel button of the editor (src/App.js:133-225) are user interface, not logic. The one rule they hold, the image fallback of src/App.js:198, is `ShownImage`.
- Clipboard read and write (src/App.js:76-92) are asynchronous browser calls whose only effect is an alert or the input field.
- Persistence to `localStorage` (src/App.js:20-21) and `JSON.parse`/`JSON.stringify` are I/O. Only the load rule is modelled, in `InitialStoreId` and `InitialCards`. A saved value that parses to something other than a list of cards is not modelled.
- The URL parser and `encodeURIComponent` are function parameters. The model does not re-verify how the browser implements them. That includes the parser's own stripping of control characters and its lower-casing of host names.
- `AffiliateLinkRoundTrip`: holds for a URL parser with the `ReadsPlainPath` property and a protocol that does not start with whitespace, because the parser is a parameter and nothing else ties its output to its input.
- Strings are sequences of Unicode scalar values. A store id that holds a lone surrogate cannot be written down: in the browser `encodeURIComponent` throws on it, so `getAffiliateLinkFromAsin` returns `null` and `generate` throws with the link unchanged. Those outcomes are not modelled.
- Card ids are mathematical integers. `Date.now()` returns integral milliseconds, well inside the range of numbers that JavaScript represents exactly.
- The reactivity of React's state setters is left out. Every handler here runs to completion and sets its fields in order, which gives the same final state.
