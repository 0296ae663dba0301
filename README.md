# Marketing news aggregator, modelled in Dafny

This project models the data logic of a small news site. The site reads the RSS/Atom feeds of
marketing portals, groups their articles by country, and shows one tab per country with a
search box. The modelled parts are:

- `extractImage` (utils/fetchFeeds.js). One `exec` of `/<img[^>]+src=["']([^"']+)["']/i`.
  - `ImageExtractor.Matches` states declaratively every way the expression can match.
  - `ImageExtractor.First` states which match `exec` returns: the leftmost start, then the last
    `src=` (the greedy `[^>]+` backs off from the right), then the longest value.
  - `ExtractImage` computes that match by scanning and is proved to meet `First`.
  - Case folding is ASCII-only, as for an expression without the `u` flag.
- Item normalisation (`Articles.Normalise`). A raw feed item with optional fields becomes an
  article through the source's `||` chains, with JavaScript truthiness of strings
  (`JsValues.Truthy`).
- `fetchAllFeeds`, modelled as `Aggregator.FetchAllFeeds`. Each configured feed is paired with
  the outcome its fetch settled to: a rejection, or a parsed feed whose `items` may be missing.
  - A loop over the feeds fills a results object held as its keys in insertion order plus a
    map.
  - Each country's list is then copied into an array and sorted in place by a stable insertion
    sort (`ArticleSort.SortByDate`).
  - The sort is proved equal to the stable newest-first sort `ArticleSort.SortDesc`. That
    function is proved to be a permutation, sorted, and stable. It is also proved to be the
    only sorted arrangement that keeps the order within every key.
- The home page (pages/index.js): the tab list, the tab selected at first, and the filtered
  article list (`NewsPage.FilteredNews`).
- The four configured sources of config/feeds.js, used as worked scenarios
  (`FeedsConfig`), plus two small worked examples (`Scenarios`).

Behaviour of the code that is easy to misread:

- The comparator at utils/fetchFeeds.js:83-84 gives an article without a date the key 0, so
  such an article does not always sort last. It comes after every article dated after
  1970-01-01 (`ArticleSort.UndatedAfterPostEpoch`). An article dated before 1970 sorts after it.
- The comment at utils/fetchFeeds.js:23-26 says `extractImage` pulls out the first `<img>`
  tag's `src` attribute. The expression at line 33 does not always do that:
  - It takes the first `<img` at which the whole expression matches. An earlier tag whose `>`
    comes before any `src="…"` is passed over (`ImageExamples.LaterTag`).
  - Within that tag it takes the last `src=`, so `data-src="b"` after `src="a"` yields `b`
    (`ImageExamples.DataSrcWins`).
  - Either quote ends the value, so `src="it's.jpg"` yields `it` (`ImageExamples.ApostropheCuts`).
- The feeds are fetched one after another (`for … of` with `await` at utils/fetchFeeds.js:53-55),
  so the model's loop is sequential.

## Model

| member | source | states |
|---|---|---|
| JsValues.Or | utils/fetchFeeds.js:68 | JavaScript's or on two optional strings is `a` when `a` is truthy and `b` otherwise, so it is truthy exactly when one side is |
| JsValues.OrElse | utils/fetchFeeds.js:67 | a fallback to a literal gives `a`'s string when truthy, the literal otherwise |
| JsValues.LowerCharMeaning | pages/index.js:49-50 | ASCII upper-case letters map to their lower-case letter, every other character is unchanged, and no result is an upper-case letter |
| JsValues.Lower | pages/index.js:49-50 | `toLowerCase` restricted to ASCII: same length, each character lower-cased, no upper-case ASCII letter left |
| JsValues.Includes | pages/index.js:49-50 | `s.includes(t)` holds exactly when `t` occurs in `s` at some index |
| ImageExtractor.QuoteFrom | utils/fetchFeeds.js:33 | the first quote at or after `i`: no quote before it, and it is a quote unless the text ended |
| ImageExtractor.CloseFrom | utils/fetchFeeds.js:33 | the first `>` at or after `i`, the furthest `[^>]+` can reach |
| ImageExtractor.MatchesIff | utils/fetchFeeds.js:33 | with `<img` at `p`, a match at `q` with group length `n` exists exactly when `q` lies before the first `>`, `src=`+quote is at `q`, a non-empty quote-free run follows and ends at a quote, and `n` is that run's length |
| ImageExtractor.LastSrc | utils/fetchFeeds.js:33 | the greatest `src=` position in a range at which the rest of the expression matches, or none in the range |
| ImageExtractor.MatchFrom | utils/fetchFeeds.js:33 | for a fixed `<img` start: the match with the last `src=` and the longest group; none exactly when no match starts there |
| ImageExtractor.ScanFrom | utils/fetchFeeds.js:34 | trying starts from the left: no match starts before the one returned; none exactly when no match starts at or after `p` |
| ImageExtractor.FirstMatch | utils/fetchFeeds.js:34 | the result meets `First` (leftmost start, last `src=`, longest group); none exactly when the expression matches nowhere |
| ImageExtractor.ExtractImage | utils/fetchFeeds.js:31-36 | null for a missing or empty input; otherwise non-null exactly when the expression matches; the value is group 1 of the first match, is non-empty and holds no quote |
| ImageExtractor.FirstUnique | utils/fetchFeeds.js:34 | there is exactly one first match, so `exec`'s result is determined |
| ImageExtractor.ExtractImageIsFirst | utils/fetchFeeds.js:34-35 | for any match meeting `First`, `extractImage` returns its group |
| ImageExtractor.ExtractImageOfResult | utils/fetchFeeds.js:33-35 | an extracted URL fed back in yields null, since it holds no quote |
| ImageExamples.DataSrcWins | utils/fetchFeeds.js:33 | `<img src="a" data-src="b">` yields `b` |
| ImageExamples.ApostropheCuts | utils/fetchFeeds.js:33 | `<img src="it's.jpg">` yields `it` |
| ImageExamples.UpperCaseTag | utils/fetchFeeds.js:33 | `<IMG SRC='x.png'>` yields `x.png`: case is ignored and single quotes work |
| ImageExamples.LaterTag | utils/fetchFeeds.js:33 | `<img alt="x"><img src="y">` yields `y`: the first tag cannot match past its `>` |
| ImageExamples.NoMatch | utils/fetchFeeds.js:32-35 | null when no character separates `<img` from `src=`, for an empty value, for `''` and for a missing input |
| Articles.EnclosureImage | utils/fetchFeeds.js:63 | the enclosure URL when an enclosure with a non-empty URL exists, null otherwise |
| Articles.ImageHtml | utils/fetchFeeds.js:64 | the HTML searched is `content:encoded` if non-empty, else `content` if non-empty, else `''` |
| Articles.ImageOf | utils/fetchFeeds.js:63-65 | the enclosure URL wins; otherwise the extraction from `content:encoded`, else from `content`; null exactly when there is no enclosure URL and the chosen HTML has no match |
| Articles.DateOf | utils/fetchFeeds.js:69 | `isoDate` if non-empty, else `pubDate` if non-empty, else null |
| Articles.Normalise | utils/fetchFeeds.js:66-73 | each field's fallback chain: title or `''`; link, guid or `'#'`; date; snippet, summary or `''`; the configured feed name as source; the image |
| Articles.ContentIgnoredWhenEncoded | utils/fetchFeeds.js:64 | with a non-empty `content:encoded`, changing `content` never changes the article |
| Articles.EnclosureWins | utils/fetchFeeds.js:63-65 | a non-empty enclosure URL is the image whatever the HTML holds |
| ArticleSort.KeyOfDate | utils/fetchFeeds.js:83-84 | the comparator value is the timestamp of a present, non-empty date, and 0 for a missing or empty one |
| ArticleSort.InsertPermutation | utils/fetchFeeds.js:82-86 | one insertion step adds exactly the inserted article |
| ArticleSort.InsertSorted | utils/fetchFeeds.js:82-86 | inserting into a newest-first list keeps it newest first |
| ArticleSort.InsertStable | utils/fetchFeeds.js:82-86 | the inserted article goes after the articles with its key already present |
| ArticleSort.SortDescPermutation | utils/fetchFeeds.js:82-86 | the sorted list is a permutation of the input |
| ArticleSort.SortDescSorted | utils/fetchFeeds.js:82-86 | the sorted list is non-increasing in key: timestamp, or 0 when the date is null |
| ArticleSort.SortDescStable | utils/fetchFeeds.js:82-86 | for every key, the articles with that key keep their input order |
| ArticleSort.StableSortUnique | utils/fetchFeeds.js:82-86 | any sorted list that keeps the order within every key is exactly the sort's result |
| ArticleSort.SortedStableEqual | utils/fetchFeeds.js:82-86 | two sorted lists that agree within every key are equal |
| ArticleSort.SortedHeadIsNewest | utils/fetchFeeds.js:82-86 | the first article of a sorted list has the greatest key |
| ArticleSort.UndatedAfterPostEpoch | utils/fetchFeeds.js:83-85 | after the sort, an undated article comes after every article with a positive timestamp |
| ArticleSort.InsertAt | utils/fetchFeeds.js:82-86 | inserting puts the article right after the last article whose key is at least its own |
| ArticleSort.InsertLast | utils/fetchFeeds.js:82-86 | one pass of the in-place insertion sort: the prefix becomes the insertion of the next article, the rest is untouched |
| ArticleSort.SortByDate | utils/fetchFeeds.js:82-86 | the in-place sort leaves the array holding the stable newest-first sort of its old contents |
| Aggregator.ItemsOf | utils/fetchFeeds.js:56 | the parsed items when the parser gave `items`, or none when the feed has no `items` |
| Aggregator.Step | utils/fetchFeeds.js:54-78 | a failed feed changes nothing; a parsed one adds its country at the end of the key order if new, appends its normalised items under it, and leaves every other key and list unchanged |
| Aggregator.NormaliseAll | utils/fetchFeeds.js:61-74 | one article per item, in item order, each the item's normalisation |
| Aggregator.GroupedWellFormed | utils/fetchFeeds.js:52-60 | after the loop the key order lists every key of the results object exactly once |
| Aggregator.GroupedKeys | utils/fetchFeeds.js:53-60 | a country is a key exactly when one of its feeds parsed, even one without items |
| Aggregator.GroupedKeyOrder | utils/fetchFeeds.js:58-60 | the keys come in the order in which each country's first parsed feed appears |
| Aggregator.KeyOrderMembers | utils/fetchFeeds.js:58-60 | a country is in the key order exactly when one of its feeds parsed |
| Aggregator.KeyOrderByFirstParse | utils/fetchFeeds.js:53-60 | when country `j` comes after country `i` in the key order, every parsed feed of `j` has a parsed feed of `i` before it |
| Aggregator.TabOrder | utils/fetchFeeds.js:53-60 | the same for the returned object: its keys come in the order of their countries' first parsed feeds |
| Aggregator.ContributionSnoc | utils/fetchFeeds.js:53-74 | one more feed extends a country's contribution by its items exactly when it parsed for that country |
| Aggregator.GroupedContents | utils/fetchFeeds.js:52-74 | before the sort, a country's list is the concatenation of its parsed feeds' normalised items, in configuration order then item order |
| Aggregator.ContributionNone | utils/fetchFeeds.js:53-60 | a country with no key has no articles from any feed |
| Aggregator.GroupedSkipsFailure | utils/fetchFeeds.js:75-78 | a failed feed in the middle of the list leaves the results object as if it were absent |
| Aggregator.FailureIsolation | utils/fetchFeeds.js:53-78 | removing a failed feed from the configuration does not change the result |
| Aggregator.FirstCountry | utils/fetchFeeds.js:58-60 | the first key is the country of the first feed that parsed |
| Aggregator.NoCountries | utils/fetchFeeds.js:52-60 | when every feed failed the results object has no key |
| Aggregator.AggregateContents | utils/fetchFeeds.js:51-88 | the result's keys are the countries with a parsed feed, and each list is the stable newest-first sort of that country's contribution |
| Aggregator.PushItems | utils/fetchFeeds.js:61-74 | the `forEach` pushes append the feed's normalised items to its country's list and touch nothing else |
| Aggregator.AddFeed | utils/fetchFeeds.js:54-78 | one loop iteration: a failed feed changes nothing; a parsed one creates its country's list if new, then appends its items |
| Aggregator.SortList | utils/fetchFeeds.js:82-86 | sorting one country's array yields the stable newest-first sort of its list |
| Aggregator.SortEach | utils/fetchFeeds.js:81-87 | the sort phase sorts every country's list and keeps the keys and their order |
| Aggregator.FetchAllFeeds | utils/fetchFeeds.js:51-89 | the returned object lists each key once, in first-parse order; a country is a key exactly when one of its feeds parsed; each list is the sorted contribution of that country |
| NewsPage.Shown | pages/index.js:49-50 | an article is shown exactly when its non-empty title or its non-empty snippet, lower-cased, contains the lower-cased query at some index |
| NewsPage.KeepMatching | pages/index.js:48-51 | the filter result is no longer than the list and holds exactly the list's articles that the search shows |
| NewsPage.Countries | pages/index.js:39 | the tabs are the result's keys in order, or none without data |
| NewsPage.DefaultCountry | pages/index.js:41-43 | the first tab is selected, or `''` when there is none |
| NewsPage.FilteredNews | pages/index.js:47-52 | `[]` without data, with no tab selected, or for a country that is not a key; otherwise the selected list filtered |
| NewsPage.KeepMatchingAppend | pages/index.js:48 | filtering a concatenation filters each part |
| NewsPage.KeepMatchingSingle | pages/index.js:48 | a single article is kept exactly when it is shown |
| NewsPage.KeepMatchingCounts | pages/index.js:48 | each shown article is kept as often as it occurs; every other article is dropped |
| NewsPage.KeepMatchingInOrder | pages/index.js:48 | the filter result is an order-preserving subsequence of the list |
| NewsPage.FilteredIsSubsequence | pages/index.js:47-51 | the list on screen is an order-preserving subsequence of the selected country's list, and every article in it matches the query |
| NewsPage.BlankNeverShown | pages/index.js:49-50 | an article with an empty title and an empty snippet is never shown, even for the empty query |
| NewsPage.EmptyQueryShown | pages/index.js:49-50 | for the empty query an article is shown exactly when its title or snippet is non-empty |
| NewsPage.EmptyQueryKeepsAll | pages/index.js:48-51 | with nothing typed, a list whose articles all have a title or snippet is shown whole |
| NewsPage.QueryCaseIgnored | pages/index.js:49-50 | lower-casing the query first changes nothing |
| NewsPage.ShownPrefix | pages/index.js:49-50 | an article shown for a query is shown for every prefix of it |
| NewsPage.TypingNarrows | pages/index.js:48-51 | filtering the result again with a longer query gives the longer query's result on the whole list |
| NewsPage.DefaultIsFirstParsedCountry | pages/index.js:39-43 | the tab selected at first is the country of the first configured feed that parsed |
| NewsPage.DefaultWhenAllFailed | pages/index.js:39-43 | with every feed failed there are no tabs and the selection is `''` |
| NewsPage.ContributionSource | utils/fetchFeeds.js:71 | an article of a country's contribution carries the name of a feed of that country that parsed |
| NewsPage.ShownFromSelectedCountry | pages/index.js:47-48 | every article listed comes from a parsed feed configured for the selected country and carries its name |
| FeedsConfig.Countries4 | utils/fetchFeeds.js:58-60 | with four feeds, the key order is built by adding each parsed feed's country if new |
| FeedsConfig.Contributions | utils/fetchFeeds.js:53-74 | with four feeds, a tab's unsorted list is each feed's contribution in order |
| FeedsConfig.AllFeedsUp | config/feeds.js:10-37 | with all four sources up: tabs Estados Unidos then Reino Unido, each the sorted union of its two feeds, Estados Unidos selected |
| FeedsConfig.AdweekDown | config/feeds.js:10-37 | with Adweek down: Reino Unido comes first and is selected, and Estados Unidos holds Social Media Today alone |
| Scenarios.HtmlImage | utils/fetchFeeds.js:64 | `<img src="img2.jpg">` yields `img2.jpg` |
| Scenarios.NormaliseItems | utils/fetchFeeds.js:63-73 | an item with an enclosure keeps the enclosure URL; an item with only HTML gets the extracted image |
| Scenarios.TwoFeedsOneCountry | utils/fetchFeeds.js:51-88 | two feeds of one country: the newer article, from the second feed, comes first |
| Scenarios.UndatedLast | utils/fetchFeeds.js:82-86 | an undated article sorts after one dated 2024-01-01 |

## Left out

- `parser.parseURL`, the rss-parser library and its 10-second timeout are network I/O and XML
  parsing in a library outside this model. Each feed's outcome is an input: a rejection, or
  the parsed items.
- `new Date(text).getTime()` is not modelled. Each date carries its text, which decides the
  `||` chains, and the timestamp that call gives. Unparseable dates (NaN), which make the
  comparator inconsistent, are outside the model.
- Exceptions thrown part-way through `items.forEach` by malformed items (a `null` item, say)
  would leave some pushes behind. They are not modelled: items are records with optional
  fields.
- `console.error` logging and the error messages are not modelled. They have no effect on the
  result.
- `toLowerCase` is modelled for ASCII letters only. Unicode case mapping and UTF-16 code units
  versus code points are not modelled.
- JavaScript orders integer-like object keys before the others. This model keeps every key in
  insertion order, which matches non-numeric country names such as those configured.
- Country names or selected tabs that coincide with `Object.prototype` properties
  (`constructor`, `__proto__`) are not modelled.
- The sort is modelled as an insertion sort on a copied array. The engine's own algorithm is
  not modelled; ECMAScript requires a stable sort, and a stable sort's result is determined
  (`ArticleSort.StableSortUnique`). Aliasing of the result's arrays is not modelled.
- The JSON round trip between the server and the page is not modelled. Every field of an
  article is already a string or null, so it changes nothing.
- The React/SWR code (`useSWR`, `fetcher`, `useState` updates, the JSX) is not modelled.
  Neither are components/NewsCard.jsx, components/CountryTabs.jsx, pages/api/news.js,
  pages/_app.js and the build configuration files; they are rendering, HTTP and framework
  wiring.
