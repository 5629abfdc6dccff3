# Property search filter — a Dafny model

This project models the search filter of a client-side estate-agent app: a
catalogue of listings is narrowed by a query (property type, bedroom range,
price range, date added, postcode area) and the page records the result and
whether a search has run. It models two revisions of `handleSearch`:

- the current search page (`src/components/SearchPage.jsx`), which compares the
  listing's postcode-area token (the first match of `[A-Z]{1,2}\d{1,2}` in its
  location) with the trimmed, upper-cased query; and
- the older component (`src/App.jsx`), which keeps a listing whose upper-cased
  location starts with the query text.

It also models the description truncation of the property card
(`src/components/PropertyCard.jsx`).

Modules, one per source concern:

- `Wrappers` (`wrappers.dfy`): `Option`, with `None` for JavaScript's null/undefined.
- `SeqFilter` (`seq_filter.dfy`): `Array.prototype.filter` as `Filter`, with its
  membership, multiplicity, subsequence, fusion and commutation lemmas.
- `Text` (`text.dfy`): `trim` (the ECMAScript whitespace and line-terminator set),
  `toUpperCase` on ASCII letters, `startsWith`, and the UTF-16 encoding in
  which JavaScript's `length` and `slice` count.
- `Listings` (`listings.dfy`): the `Listing`, `Date`, `Range` and `Query` records.
  Also the type, bedroom, price and date filters that both revisions share, and
  the lemmas that carry each filter stage.
- `AreaToken` (`area_token.dfy`): the regular-expression match, written as the
  backtracking matcher does it. It is proved to return the leftmost-longest token.
- `SearchPage` (`search_page.dfy`): the current pipeline. `Search` is the
  specification: one filter by the conjunction of the active predicates.
  `FilterProperties` is the source's chain of filters, proved equal to it.
  `Session` is the component state (`filteredProperties`, `hasSearched`).
- `App` (`app.dfy`): the older pipeline and its `Session`. It also has lemmas
  comparing the prefix rule with the area-token rule.
- `PropertyCard` (`property_card.dfy`): `ShownDescription`, over UTF-16 code units.

Three behaviours of the code worth noting:

- The date filter compares against a chosen calendar day (`addedDate >= dateAdded`).
  It is not an "added within the last N days" window.
- A range with `lo > hi` is not rejected. It just keeps nothing (`Listings.InvertedRangeKeepsNothing`).
- The older component's postcode rule is a prefix test on the whole location,
  not an exact area match.

## Model

| member | source | states |
|---|---|---|
| SeqFilter.Filter | src/components/SearchPage.jsx:22-64 | the filter result is no longer than its input and every kept element passes the predicate |
| SeqFilter.FilterEmbedding | src/components/SearchPage.jsx:19-38 | the kept elements sit at strictly increasing positions of the input |
| SeqFilter.FilterIsSubsequence | src/components/SearchPage.jsx:19-38 | a filter result is a subsequence of its input: nothing added or reordered |
| SeqFilter.FilterMembership | src/components/SearchPage.jsx:22-64 | an element is kept exactly when it is in the input and passes |
| SeqFilter.FilterMultiplicity | src/components/SearchPage.jsx:22-64 | a kept element occurs as often as in the input, a dropped one never: no duplicates |
| SeqFilter.FilterEmpty | src/components/SearchPage.jsx:92-94 | the result is empty exactly when no input element passes |
| SeqFilter.FilterAllPass | src/components/SearchPage.jsx:19 | filtering by a predicate every element passes returns the input |
| SeqFilter.FilterExt | src/components/SearchPage.jsx:22-64 | filters by predicates that agree on the elements give the same result |
| SeqFilter.FilterFuse | src/components/SearchPage.jsx:22-64 | two successive filters equal one filter by the conjunction |
| SeqFilter.FilterCommute | src/components/SearchPage.jsx:22-64 | two filters may be applied in either order |
| Text.TrimStart | src/components/SearchPage.jsx:53-54 | the result is a suffix, what was cut is whitespace, and it does not begin with whitespace |
| Text.TrimEnd | src/components/SearchPage.jsx:53-54 | the result is a prefix, what was cut is whitespace, and it does not end with whitespace |
| Text.TrimShape | src/components/SearchPage.jsx:53-54 | `trim` returns the middle of the text with only whitespace cut from either end |
| Text.TrimEmptyIffAllWhitespace | src/components/SearchPage.jsx:53 | `trim()` is empty exactly when the text is empty or all whitespace |
| Text.Trim | src/components/SearchPage.jsx:53-54 | `trim()`: trailing whitespace removed from the text with leading whitespace removed; its meaning is in `TrimShape` |
| Text.UpperChar | src/components/SearchPage.jsx:54 | a lower-case ASCII letter becomes the capital at the same alphabet position; every other character is unchanged; no lower-case letter remains |
| Text.Upper | src/App.jsx:35 | `toUpperCase` keeps the length and maps each character |
| Text.UpperIdempotent | src/components/SearchPage.jsx:54 | upper-casing twice equals upper-casing once |
| Text.UpperHasNoLower | src/App.jsx:35 | the upper-cased location holds no lower-case ASCII letter |
| Text.UpperCharWhitespace | src/components/SearchPage.jsx:54 | upper-casing a character neither makes nor removes whitespace |
| Text.TrimStartUpper | src/components/SearchPage.jsx:54 | removing leading whitespace commutes with upper-casing |
| Text.TrimEndUpper | src/components/SearchPage.jsx:54 | removing trailing whitespace commutes with upper-casing |
| Text.TrimUpper | src/components/SearchPage.jsx:54 | `s.toUpperCase().trim()` equals `s.trim().toUpperCase()` |
| Text.TrimPadded | src/components/SearchPage.jsx:53-54 | a word with one space on each side trims back to the word |
| Text.StartsWith | src/App.jsx:35 | `s.startsWith(prefix)`: the prefix is no longer than `s` and equals its first characters |
| Text.Utf16Char | src/components/PropertyCard.jsx:21-22 | a Basic Multilingual Plane character is one code unit equal to it; any other is a high surrogate followed by a low one |
| Text.Utf16 | src/components/PropertyCard.jsx:21-22 | the string value of a text is at least as long as the text, exactly as long when every character is in the Basic Multilingual Plane (`Utf16OfBmp` proves the units then equal the characters) |
| Text.Utf16Append | src/components/PropertyCard.jsx:21-22 | encoding a concatenation concatenates the encodings |
| Text.Utf16Astral | src/components/PropertyCard.jsx:21-22 | a text of characters outside the Basic Multilingual Plane takes two code units per character |
| Listings.DaysInMonth | src/components/SearchPage.jsx:43-47 | each month has 28 to 31 days: 31 exactly in January, March, May, July, August, October and December, 30 in April, June, September and November, and February 29 in Gregorian leap years and 28 otherwise |
| Listings.ValidDate | src/components/SearchPage.jsx:43-47 | a day that exists in the calendar, so `new Date(year, month, day)` does not roll it over into the next month |
| Listings.OnOrAfter | src/components/SearchPage.jsx:43-48 | `addedDate >= dateAdded` on calendar days: a later year, or the same year and a later month, or the same month and a day no earlier |
| Listings.OnOrAfterIsTimeOrder | src/components/SearchPage.jsx:43-48 | on real calendar days the (year, month, day) order agrees with the order of a day index with 31 slots per month (not JavaScript's time value, but ordered as it is) |
| Listings.OnOrAfterTotalOrder | src/components/SearchPage.jsx:41-50 | the date comparison is reflexive, total, antisymmetric and transitive |
| Listings.RangeInclusive | src/components/SearchPage.jsx:27-38 | both ends of a bedroom or price range are kept, and only values between them |
| Listings.InvertedRangeKeepsNothing | src/App.jsx:18-23 | a range whose ends are swapped is not rejected and keeps nothing |
| Listings.TypeFilterActive | src/components/SearchPage.jsx:22 | `type && type !== "Any"`: the type filter runs only for a present, non-empty type other than "Any" |
| Listings.HasKind | src/components/SearchPage.jsx:23 | the type step's predicate: the listing's type equals the query's |
| Listings.BedroomsIn | src/components/SearchPage.jsx:28-30 | the bedrooms step's predicate: both ends of the range included |
| Listings.PriceIn | src/components/SearchPage.jsx:35-37 | the price step's predicate: both ends of the range included |
| Listings.AddedOnOrAfter | src/components/SearchPage.jsx:42-49 | the date step's predicate: the listing was added on or after the chosen day |
| Listings.TypeStage | src/components/SearchPage.jsx:22-24 | after the type step the kept listings are those of the type, all of them when the type is null, empty or "Any" |
| Listings.BedroomsStage | src/components/SearchPage.jsx:27-31 | after the bedrooms step the kept listings also lie in the bedroom range when one is given |
| Listings.PriceStage | src/components/SearchPage.jsx:34-38 | after the price step the kept listings also lie in the price range when one is given |
| Listings.DateStage | src/components/SearchPage.jsx:41-50 | after the date step the kept listings were also added on or after the chosen day when one is given |
| AreaToken.MatchAt | src/components/SearchPage.jsx:59 | a match found at a position is a token of `[A-Z]{1,2}\d{1,2}` there |
| AreaToken.FindFrom | src/components/SearchPage.jsx:59 | a match found from a position is a token at or after it |
| AreaToken.FirstAreaToken | src/components/SearchPage.jsx:59 | the extracted text is in the language `[A-Z]{1,2}\d{1,2}` |
| AreaToken.MatchAtIsLongest | src/components/SearchPage.jsx:59 | the backtracking order (two letters before one, two digits before one) picks the longest token at a position, and fails only where none starts |
| AreaToken.FindFromSpec | src/components/SearchPage.jsx:59 | scanning from a position yields the first position with a token and the longest token there, or none when no token follows |
| AreaToken.FindAreaTokenSpec | src/components/SearchPage.jsx:59 | the extracted token is exactly the leftmost-longest one, and none is extracted exactly when the location holds no token |
| AreaToken.TokenIsItsOwnArea | src/components/SearchPage.jsx:59 | a token on its own extracts to itself |
| AreaToken.ExampleTownThenArea | src/components/SearchPage.jsx:58-59 | "Orpington BR5" yields "BR5" |
| AreaToken.ExampleTwoDigits | src/components/SearchPage.jsx:59 | "Bromley BR15" yields "BR15", not "BR1" |
| AreaToken.ExampleInsideWord | src/components/SearchPage.jsx:59 | without a word boundary "ABC12" yields "BC12" |
| SearchPage.PostcodeFilterActive | src/components/SearchPage.jsx:53 | `postcode && postcode.trim() !== ""`: a present postcode that is not blank after trimming |
| SearchPage.NormalizedPostcode | src/components/SearchPage.jsx:54 | the query is trimmed and then upper-cased; sanitising is the identity |
| SearchPage.AreaMatches | src/components/SearchPage.jsx:58-63 | a listing matches when its location has an area token equal to the query, and never when it has none |
| SearchPage.InArea | src/components/SearchPage.jsx:55-64 | the postcode step's predicate, `AreaMatches` with the sanitised query |
| SearchPage.Search | src/components/SearchPage.jsx:19-65 | the result of `handleSearch`: the catalogue filtered by the conjunction of the active filters; its meaning is in `SearchSpec` |
| SearchPage.SearchSpec | src/components/SearchPage.jsx:19-64 | the result is a subsequence of the catalogue holding a listing exactly when it passes every active filter, and as often |
| SearchPage.ResultsSatisfyActiveFilters | src/components/SearchPage.jsx:22-64 | each result listing has the queried type, lies in both ranges, was added on or after the day, and has the queried area token |
| SearchPage.SearchEmpty | src/components/SearchPage.jsx:92-94 | the result is empty exactly when no catalogue listing passes every active filter |
| SearchPage.NoOpQueryKeepsAll | src/components/SearchPage.jsx:19-65 | a query with type "Any" or null and no range, date or postcode returns the whole catalogue in order |
| SearchPage.InactiveTypeIsNoFilter | src/components/SearchPage.jsx:22 | a null, empty or "Any" type gives the same result as no type |
| SearchPage.BlankPostcodeNoFilter | src/components/SearchPage.jsx:53 | the postcode filter is active exactly for a present, not-all-whitespace postcode; otherwise every listing passes it |
| SearchPage.BlankPostcodeIsNoFilter | src/components/SearchPage.jsx:53 | a blank postcode gives the same result as no postcode |
| SearchPage.AreaMatchesSpec | src/components/SearchPage.jsx:58-63 | a listing matches an area query exactly when the leftmost-longest token of its location is the query; a location without a token matches nothing |
| SearchPage.PostcodeExactArea | src/components/SearchPage.jsx:53-64 | with an active postcode a listing is kept exactly when its leftmost-longest area token equals the trimmed, upper-cased query; a location without a token is never kept |
| SearchPage.QueryCaseIgnored | src/components/SearchPage.jsx:53-61 | a query and its upper-cased form are active together, normalise alike and keep the same listings: the query's case does not matter |
| SearchPage.PaddedQuery | src/components/SearchPage.jsx:53-54 | spaces around a query do not matter: it is active and normalises to the upper-cased word |
| SearchPage.LowercaseQueryKeepsTownFirstLocation | src/components/SearchPage.jsx:53-64 | the query " br5 " keeps a listing located at "Orpington BR5" |
| SearchPage.NonTokenQueryKeepsNothing | src/components/SearchPage.jsx:54-61 | a normalised query that is not an area token ("BR", "BR123") keeps nothing |
| SearchPage.PrefixOfTokenDoesNotMatch | src/components/SearchPage.jsx:61 | the comparison is exact: a query shorter than the listing's token ("BR1" against "BR15") does not keep it |
| SearchPage.FilterOrderIrrelevant | src/components/SearchPage.jsx:22-64 | the five filters applied in reverse order give the same result |
| SearchPage.PostcodeStage | src/components/SearchPage.jsx:53-64 | after the postcode step the kept listings are exactly the search result |
| SearchPage.FilterProperties | src/components/SearchPage.jsx:19-65 | the step-by-step narrowing of `results` equals the single conjunction filter `Search` |
| SearchPage.Session.constructor | src/components/SearchPage.jsx:15-16 | before any search the list is empty and `hasSearched` is false |
| SearchPage.Session.HandleSearch | src/components/SearchPage.jsx:18-69 | afterwards `hasSearched` is true and `filteredProperties` is the search result of the query; the invariant is kept |
| SearchPage.Session.Notice | src/components/SearchPage.jsx:88-94 | the prompt shows exactly before the first search; "no matches" shows exactly when a search ran and no listing passes it |
| App.PostcodeFilterActive | src/App.jsx:34 | `if (postcode)`: a present, non-empty postcode, not trimmed |
| App.LocationStartsWith | src/App.jsx:35 | the upper-cased location starts with the query as typed |
| App.LocationPrefix | src/App.jsx:35 | the postcode step's predicate, `LocationStartsWith` as a function value |
| App.Search | src/App.jsx:13-37 | the result of the older `handleSearch`: the catalogue filtered by the conjunction of its active filters; its meaning is in `App.SearchSpec` |
| App.SearchSpec | src/App.jsx:13-37 | the result is a subsequence of the catalogue holding a listing exactly when it passes every active filter, and as often |
| App.PostcodeStage | src/App.jsx:34-36 | after the prefix step the kept listings are exactly the search result |
| App.FilterProperties | src/App.jsx:13-36 | the step-by-step narrowing of `results` equals the single conjunction filter `Search` |
| App.LowercaseQueryKeepsNothing | src/App.jsx:35 | the query is not upper-cased here, so one holding a lower-case ASCII letter keeps nothing |
| App.UppercaseQueryIgnoresCase | src/App.jsx:35 | an upper-case query keeps a listing exactly when the location begins with text that upper-cases to it |
| App.BlankQueryIsActive | src/App.jsx:34-35 | the query is not trimmed: an all-space query is active and keeps only locations that begin with as many spaces |
| App.TokenIsNormalized | src/components/SearchPage.jsx:54 | an area token is unchanged by trimming and upper-casing |
| App.RulesAgreeOnLeadingToken | src/App.jsx:34-36 | when the location begins with its area token and the query is that token, both rules keep the listing |
| App.AreaRuleKeepsTownFirstLocation | src/components/SearchPage.jsx:53-64 | the area rule keeps "Orpington BR5" for "BR5" |
| App.PrefixRuleMissesTownFirstLocation | src/App.jsx:34-36 | the prefix rule drops "Orpington BR5" for "BR5" |
| App.PrefixRuleKeepsLongerArea | src/App.jsx:34-36 | the prefix rule keeps "BR15 Bromley" for "BR1"; the area rule does not |
| App.Session.constructor | src/App.jsx:9-10 | before any search the list is empty and `hasSearched` is false |
| App.Session.HandleSearch | src/App.jsx:12-40 | afterwards `hasSearched` is true and `filteredProperties` is the search result of the query; the invariant is kept |
| App.Session.Notice | src/App.jsx:48-54 | the prompt shows exactly before the first search; "no matches" shows exactly when a search ran and no listing passes it |
| PropertyCard.ShownDescription | src/components/PropertyCard.jsx:21-23 | a description of at most 150 UTF-16 code units is shown unchanged (150 included); a longer one as its first 150 code units and "..." |
| PropertyCard.ShownBounds | src/components/PropertyCard.jsx:21-23 | the shown text is at most 153 code units and begins with the first min(150, length) units |
| PropertyCard.ShownIdempotent | src/components/PropertyCard.jsx:21-23 | truncating a shown text again changes nothing |
| PropertyCard.ShownUnchangedIff | src/components/PropertyCard.jsx:21-23 | the text is shown unchanged exactly when it is short, or 153 code units ending in "..." |
| PropertyCard.BmpTextCutByCharacters | src/components/PropertyCard.jsx:21-23 | for Basic Multilingual Plane text the cut falls after the 150th character |
| PropertyCard.AstralTextIsCut | src/components/PropertyCard.jsx:21-23 | 76 characters outside the Basic Multilingual Plane (76 emoji) are 152 code units, so the card shows 75 of them and "..." |
| PropertyCard.CutSplitsSurrogatePair | src/components/PropertyCard.jsx:21-23 | for one BMP character and 75 outside it ("a" and 75 emoji) the cut falls inside the last character, leaving a lone high surrogate |
| Text.Utf16OfBmp | src/components/PropertyCard.jsx:21-22 | Basic Multilingual Plane text encodes one unit per character, each equal to its character |
| Text.Utf16PrefixOfBmp | src/components/PropertyCard.jsx:21-22 | for Basic Multilingual Plane text the first n code units encode the first n characters |

## Left out

- Sorting and the favourites list: their operations are not in the modelled files. They reach the search page only as props.
- The `propertyPostcode` value at `src/components/SearchPage.jsx:56-57` is never read, so it is not modelled.
- `DOMPurify.sanitize` is a foreign library. It is taken as the identity on the trimmed, upper-cased query.
- `toUpperCase` is modelled on ASCII letters only. Other scripts' case mappings, including ones that change the length (`ß` to `SS`), are not modelled.
- Dates: the month name in the catalogue is taken as already parsed to a month index. `new Date("<month> 1")`, time of day and time zones are not modelled. The picker's value is a calendar day. `new Date(y, m, d)` rolls a day past the month's end (30 February) into the next month; the order lemma is stated only for real calendar days (`Listings.ValidDate`). It also maps years 0 to 99 to 1900 to 1999; the model compares years as given, so a two-digit year is a different day here.
- Only the property card counts in UTF-16 code units. The search predicates work on Unicode scalar values; trimming, ASCII upper-casing, `startsWith` and the ASCII area pattern give the same answers under either count, since every character they test is in the Basic Multilingual Plane. The card receives a catalogue description as `Text.Utf16(description)`.
- Numbers are unbounded integers. JavaScript's floating-point numbers, and non-numeric or missing slider values, are not modelled.
- JavaScript truthiness of non-string `type` or `postcode` values is not modelled. A field is either absent (`None`) or a string, and an empty string behaves as the code's falsy test says.
- The catalogue file `src/data/properties.json` is not part of this model. The catalogue is a parameter, and `Session.properties` is fixed for the life of a session.
- Rendering, the form widgets and their default values, the property page, drag and drop, routing and build configuration are presentation only.
- `src/App.test.jsx` targets another revision of the form. No query semantics are taken from it.

## Findings

| source | as written | input that shows it | evidently intended | confidence | as-written member | corrected member |
|---|---|---|---|---|---|---|
| src/App.jsx:34-36 | keeps a listing only when its upper-cased location starts with the postcode query | location "Orpington BR5" with query "BR5" is dropped | keep the listings whose postcode area is the query, as the later search page does by extracting the area token | medium; not executed | App.PrefixRuleMissesTownFirstLocation | SearchPage.PostcodeExactArea |
