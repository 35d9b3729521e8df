# Wikivoyage fetch cache, modelled in Dafny

The model covers the part of the travel-guide web application that talks to the
Wikivoyage API (`src/wiki-fetch-cache/index.js`):

- **Paths and titles** (`wiki_paths.dfy`, module `WikiPaths`).
  - `wikiPath` turns a page title into a `/wiki/...` path.
  - `wikiTitle` turns a path back into a title.
  - Each direction uses a single-character string replacement, which changes only the first match.
  - The model keeps that rule. It proves exactly when each round trip (title to path to title, and path to title to path) gives its input back, and gives a title for which it does not.
- **Request URLs** (`query_url.dfy`, module `QueryUrl`).
  - Every request carries the common parameters `origin=*`, `format=json` and `formatversion=2`.
  - The call-specific parameters are merged onto them by object spread.
  - The result is serialised after the endpoint `https://en.wikivoyage.org/w/api.php?`.
  - A parameter object is an ordered association list. For property names that are not array indices (all the names these requests use), `Put` follows JavaScript property assignment: an existing name keeps its place, and a new name is appended.
  - Serialising one `key=value` pair is a parameter of the model (`ParamEncoder`).
  - Injectivity results assume only that the encoder is `Separable`: its pieces are non-empty, contain no `&`, and different pairs encode differently.
- **Cache-aside resolution** (`fetch_cache.dfy`, module `FetchCache`).
  - The URL is the key into the browser's string store.
  - A key holding non-empty text is a hit: the text is parsed and the network is not asked.
  - On a miss, the API is asked and one field of its answer is kept and stored: `query.prefixsearch` for a search, `parse` for a page.
  - The function `Resolution` specifies one call. `Run` specifies a sequence of calls.
  - The class `WikiClient` holds the store and, as ghost state used only by the specification, the log of URLs sent to the network. Its methods `Search` and `Page` are proved against `Resolution`.
  - The network and the JSON text codec are parameters of the model (`Api`, `Codec`).

When the call settles on `undefined` (a page answer that is not null and has no `parse`, or a search answer whose `query` is present, not null, and has no `prefixsearch`), the source stores the value `undefined`, and the store turns it into the text "undefined".
- That text is not empty, so every later call for the same URL is a hit.
- `JSON.parse` rejects that text, so these later calls fail and never ask the network again.
- The model reproduces this behaviour, and `FetchCache.MissingFieldSticks` states it.

## Model

| member | source | states |
|---|---|---|
| WikiPaths.ReplaceFirst | src/wiki-fetch-cache/index.js:6 | a string replacement with a one-character pattern keeps the length and changes only the first occurrence of the pattern |
| WikiPaths.WikiPath | src/wiki-fetch-cache/index.js:5-6 | the path is `/wiki/` followed by the title, with the title's first space (and only that one) made an underscore |
| WikiPaths.StripPrefix | src/wiki-fetch-cache/index.js:9 | a leading `/wiki/` is removed once; a path without it is kept as is |
| WikiPaths.WikiTitle | src/wiki-fetch-cache/index.js:8-9 | the title is the path with a leading `/wiki/` removed and its first underscore (and only that one) made a space |
| WikiPaths.SwapBack | src/wiki-fetch-cache/index.js:5-9 | replacing the first `a` by `b` and then the first `b` by `a` restores a string exactly when no `b` precedes its first `a` |
| WikiPaths.TitlePathRoundTrip | src/wiki-fetch-cache/index.js:5-9 | the title of the path of `t` is `t` if and only if `t` has no underscore before its first space; in particular for any title without underscores |
| WikiPaths.PathTitleRoundTrip | src/wiki-fetch-cache/index.js:5-9 | the path of the title of `p` is `p` if and only if `p` starts with `/wiki/` and no space precedes the first underscore after the prefix |
| WikiPaths.UnderscoreTitleCounterexample | src/wiki-fetch-cache/index.js:5-9 | the title "a_b c" does not survive the round trip through its path |
| WikiPaths.UnderscorePath | src/wiki-fetch-cache/index.js:5-6 | the path of "a_b c" is "/wiki/a_b_c" |
| WikiPaths.UnderscoreTitle | src/wiki-fetch-cache/index.js:8-9 | the title of "/wiki/a_b_c" is "a b_c": only the first underscore becomes a space |
| WikiPaths.UnprefixedPathKept | src/wiki-fetch-cache/index.js:8-9 | a path without the prefix is not stripped; only its first underscore changes |
| WikiPaths.ParisPath | src/wiki-fetch-cache/index.js:5-6 | the path of "Paris" is "/wiki/Paris" |
| WikiPaths.ParisTitle | src/wiki-fetch-cache/index.js:8-9 | the title of "/wiki/Paris" is "Paris" |
| WikiPaths.ParisBareTitle | src/wiki-fetch-cache/index.js:8-9 | the bare "Paris" is its own title |
| WikiPaths.TitleOfPrefixed | src/wiki-fetch-cache/index.js:8-9 | the title of `/wiki/` followed by `rest` is `rest` with its first underscore made a space |
| QueryUrl.Get | src/wiki-fetch-cache/index.js:26 | reading a property gives nothing exactly when the name is absent |
| QueryUrl.Put | src/wiki-fetch-cache/index.js:26 | assigning a property keeps the names and their order when the name exists, and appends the property when it is new |
| QueryUrl.PutGet | src/wiki-fetch-cache/index.js:26 | after an assignment the name reads as the new value, and every other name reads as before |
| QueryUrl.SpreadKeys | src/wiki-fetch-cache/index.js:26 | `Spread`, the object spread `{ ...target, ...source }`: the spread lists the target's names in their order, then the source's new names in the source's order |
| QueryUrl.SpreadGet | src/wiki-fetch-cache/index.js:26 | `Spread`: in the spread a source property wins, and any other name keeps the target's value |
| QueryUrl.NewKeysDistinct | src/wiki-fetch-cache/index.js:26 | a spread of objects never repeats a name |
| QueryUrl.SpreadFresh | src/wiki-fetch-cache/index.js:26 | spreading properties whose names are all new appends them in order |
| QueryUrl.QueryParamsLayout | src/wiki-fetch-cache/index.js:17-26 | `QueryParams`, the merged parameters: the request carries origin, format and formatversion first, then the new special names in order; a special parameter overrides a common one's value in place, and no name repeats |
| QueryUrl.CommonKeys | src/wiki-fetch-cache/index.js:19-25 | the common parameters are origin, format and formatversion, in that order |
| QueryUrl.SpecialOverridesCommonInPlace | src/wiki-fetch-cache/index.js:26 | a special `format` overrides the common one and stays in second place, and a new name is appended |
| QueryUrl.WikiQueryUrl | src/wiki-fetch-cache/index.js:17-28 | every request URL starts with the endpoint followed by `?` |
| QueryUrl.StringifyEmpty | src/wiki-fetch-cache/index.js:27 | `Stringify`: with a separable encoder, only the empty parameter list serialises to the empty text |
| QueryUrl.StringifyHead | src/wiki-fetch-cache/index.js:27 | `Stringify`: equal query strings start with the same property and agree on the serialisation of the rest |
| QueryUrl.StringifyInjective | src/wiki-fetch-cache/index.js:27 | `Stringify` and `Joined` (the encoded properties joined by `&`): with a separable encoder, equal query strings come from equal parameter lists |
| QueryUrl.QueryUrlInjective | src/wiki-fetch-cache/index.js:17-28 | equal request URLs carry equal merged parameters |
| QueryUrl.SearchQueryParams | src/wiki-fetch-cache/index.js:37-44 | `SearchParams` and `SearchUrl`: a search request carries the three common parameters, then action=query, list=prefixsearch and pssearch |
| QueryUrl.PageQueryParams | src/wiki-fetch-cache/index.js:69-76 | `PageParams` and `PageUrl`: a page request carries the three common parameters, then action=parse, the page title and prop=text |
| QueryUrl.SearchUrlInjective | src/wiki-fetch-cache/index.js:37-46 | different search strings never share a cache key |
| QueryUrl.SearchPageUrlsDiffer | src/wiki-fetch-cache/index.js:37-46 | a search and a page request never share a cache key |
| QueryUrl.PageUrlSameTitle | src/wiki-fetch-cache/index.js:69-78 | two page requests share a cache key if and only if their paths name the same title |
| QueryUrl.PageUrlByTitle | src/wiki-fetch-cache/index.js:69-78 | "/wiki/Paris" and "Paris" share one cache key |
| FetchCache.FromResponse | src/wiki-fetch-cache/index.js:54-57 | a failed request or unreadable body rejects as a network failure and never as a parse, type or missing-field failure; a readable body yields the kept field |
| FetchCache.EmptyEntryIsRefetched | src/wiki-fetch-cache/index.js:46-48 | `IsHit`, the truthiness test: an entry holding the empty text is a miss that asks the network and resolves as if the entry were absent |
| FetchCache.Extract | src/wiki-fetch-cache/index.js:57 | `Property` and `Extract`: a search keeps `query.prefixsearch` and a page keeps `parse`; reading through null, or reading `prefixsearch` of a missing `query`, is a type error; a missing last field is `undefined` |
| FetchCache.Resolution | src/wiki-fetch-cache/index.js:46-60 | the network is asked exactly on a miss (`IsHit` fails); a network failure writes nothing; a parse failure comes only from a hit; a hit returns the parsed entry and changes nothing; a miss returns the kept field and stores its text, stores "undefined" when the field is missing, and stores nothing on an error; filled entries and other keys are never changed |
| FetchCache.RepeatIsServedFromStore | src/wiki-fetch-cache/index.js:46-58 | after a successful call, the same URL is a hit that returns the same value, whatever the network would answer |
| FetchCache.MissingFieldSticks | src/wiki-fetch-cache/index.js:46-58 | after a call that settled on `undefined` (a page answer that is not null and has no `parse`, or a search answer whose `query` is present, not null, and has no `prefixsearch`), every later call for that URL fails to parse and does not ask the network |
| FetchCache.RunKeepsFilledEntries | src/wiki-fetch-cache/index.js:46-58 | over any series of calls, no key is evicted, and an entry with non-empty text keeps its text and is never fetched |
| FetchCache.RunTouchesOnlyRequested | src/wiki-fetch-cache/index.js:46-58 | over any series of calls, only requested URLs are fetched or written |
| FetchCache.FetchedAtMostOnce | src/wiki-fetch-cache/index.js:46-58 | a URL resolved successfully is never sent to the network again |
| FetchCache.TokyoSearchScenario | src/wiki-fetch-cache/index.js:34-61 | a first search for "Tokyo" on an empty store asks the API and stores the suggestions; a second search, with the network gone, returns them from the store |
| FetchCache.WikiClient.Fetch | src/wiki-fetch-cache/index.js:54 | the request is logged, and its answer is the API's |
| FetchCache.WikiClient.Resolve | src/wiki-fetch-cache/index.js:46-60 | the lookup shared by search and page (also index.js:78-93): result, new store and new network log are those of `Resolution` |
| FetchCache.WikiClient.Search | src/wiki-fetch-cache/index.js:34-61 | `wikiSearch`: result, store and log are those of `Resolution` on the search URL, keeping `query.prefixsearch` |
| FetchCache.WikiClient.Page | src/wiki-fetch-cache/index.js:68-94 | `wikiPage`: result, store and log are those of `Resolution` on the page URL, keeping `parse` |

## Left out

- Asynchrony. The promises and `fetch` are modelled as an immediate call to the `Api` oracle. A network failure and a response body that is not JSON are both `NetworkFailure`. On a hit whose text does not parse, the source throws synchronously out of `wikiSearch`/`wikiPage` instead of returning a rejected promise; the model reports both as a `Failure` result (`ParseFailure`), so a caller's `.catch` that would miss the synchronous throw is not modelled.
- Interleaving. Two concurrent calls for the same URL both miss and both fetch; the model runs calls one after the other.
- The request options: the GET method and the `User-Agent` header have no effect on the result.
- The `console.log` lines.
- The exact `querystring` escaping. It is an abstract `ParamEncoder`, assumed `Separable` where injectivity is proved. The number 2 is written as the string "2".
- The JSON text syntax. It is the abstract `Codec`; `Lawful` states the laws the proofs use. JSON numbers are integers, not floating point.
- The limits of the browser store: quota errors, eviction by the browser, storage shared between tabs and sessions.
- FetchCache.Extract: when the call settles on `undefined` (a page answer that is not null and has no `parse`, or a search answer whose `query` is present, not null, and has no `prefixsearch`), the source resolves to that value. The model reports this as `Failure(Undefined)` instead of a value.
- QueryUrl.Put: property names that are array indices ("0", "42") are listed first by JavaScript, in ascending order, before all other names; the model keeps insertion order for every name. The requests built here only use the fixed non-index names action, list, pssearch, page and prop.
- QueryUrl.SpreadKeys: states the insertion order, which JavaScript uses only for names that are not array indices (see QueryUrl.Put).
- QueryUrl.QueryParamsLayout: the order it states holds only when no special parameter is named like an array index (see QueryUrl.Put).
- Strings are sequences of Unicode scalar values, as Dafny's `string` is; JavaScript strings are UTF-16 code units and may hold a lone surrogate. Such inputs are out of scope: the `URIError` that the query-string escaping throws on a lone surrogate, before the store is read, is not modelled, and `ParamEncoder` is total.
- The type annotations `WikiSuggestion` and `WikiPage`, which are not checked at run time. The kept field is any JSON value.
- The user-interface components that call these functions.
