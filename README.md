# Explore browser — a Dafny model

This project models the explore browser of the PromptKing site. The browser
shows community skills, commands, prompts and rules. It works like this:

- The server route fetches the collection once. If the response carries no
  per-category counts, the route computes them from the entries.
- The client page runs a pipeline over the entries: a free-text search on a
  debounced query, a category filter, per-category counts, and a growing
  window of 20 entries at a time.
- The window grows by infinite scroll, or by a "Load More" button.
- Each card shows a truncated content preview, a fade, and a collapsed tag
  row with a `+N` badge.

The modules:

| module | file | what it holds |
|---|---|---|
| `Wrappers` | wrappers.dfy | `Option`, for the optional fields and the missing response |
| `JsSemantics` | js.dfy | the JavaScript built-ins the code relies on, with their ECMAScript meaning: `slice` (negative and out-of-range indices included), `trim` (the full WhiteSpace and LineTerminator set), `toLowerCase` and `includes` |
| `Sequences` | sequences.dfy | `Array.prototype.filter`, and the order-preserving subsequence relation it produces |
| `ExploreTypes` | types.dfy | the records of the explore API |
| `Search` | search.dfy | `searchPrompts`, `filterByType`, `calculateTypeCounts` and `paginateItems` |
| `ExplorePage` | page.dfy | the derived view as a pure function of the state; the session (`ExploreSession`), whose methods are the page's events |
| `ExploreCard` | card.dfy | `truncate`, the preview and fade rule, the tag row, and the guard of `highlightText` |
| `ExploreRoute` | route.dfy | the fallback rule of the server route, and the mounting of the page |

`ExploreSession` models:

- the four `useState` fields;
- the `useDebounce` hook;
- the reset effect;
- `loadMore`.

Timers and the intersection observer are replaced by explicit events:

- `SetSearchQuery(query, now)` is a keystroke at time `now`. A changed query
  cancels the pending timeout and schedules its own. A real timeout fires
  at its deadline, before any later keystroke, so a keystroke may only
  arrive while the pending timeout is not yet due: the caller delivers
  `Tick` at every deadline first.
- `Tick(now)` is the clock reaching `now`. A due timeout publishes the raw
  query.
- `SetActiveFilter(f)` is a click on a category.
- `LoadMore(hasMore)` is the button. Like the callback in the page, it
  acts on the `hasMore` flag it closed over. That is the flag of the render
  that created it, which can lag behind a state not yet rendered.
- `OnSentinel(isIntersecting, hasMore)` is an observer callback. It carries
  the flag of the render that installed the observer.

The session keeps the time of the latest timed event. Both timed events
require that time not to go backwards; the other events leave it alone.

`ExploreSession.Valid()` is the invariant every event keeps:

- `isSearching` is exactly "raw query differs from debounced query";
- the window size is a positive multiple of 20;
- a pending emission carries the current raw query, due 300 time units
  after its last edit;
- that last edit is not later than the session's clock.

`RapidEditsScenario` walks through three edits made within one quiet
period, "g", "gi" and "git". Only "git" is ever published.

The search keeps an entry when the lower-cased query occurs in the entry's
lower-cased name, its description (when present) or one of its tags. The
query is trimmed only for the blank test, and is matched untrimmed. The
model proves the following:

- The search is the unique longest order-preserving selection of matching
  entries (`SearchPromptsIsLongestMatch`).
- The search and the category filter commute, and are one filter by the
  conjunction of their tests (`SearchAndFilterCommute`).
- The counts partition the collection.
- The counts agree with an independent single-pass tally.
- Whenever the counts are computed locally (under a non-empty debounced
  query, or by the route when the response carries none), the count beside
  every category equals what that category would show. The server's counts
  are not tied to the entries.

Two details of the code are modelled as written:

- The page recomputes the counts whenever the debounced query is a
  non-empty string. The test is JavaScript truthiness, not a trim. So a
  whitespace-only query shows counts computed over the whole collection,
  not the route's initial counts (`ExplorePage.CountsRule`).
- `response?.data || []` and `response?.typeCounts || ...` depend only on
  whether the response and its counts are present. An array or an object
  is always truthy.

## Model

| member | source | states |
|---|---|---|
| JsSemantics.RelativeIndex | components/explore/utils/search.ts:43 | a slice bound resolves to a position within the sequence: a non-negative bound is clamped to the length, and a negative one counts from the end |
| JsSemantics.Slice | components/explore/utils/search.ts:43 | for non-negative bounds, `slice` has length `max(0, min(end, n) - min(start, n))` and holds the elements from `start` on; inside the sequence it is the ordinary subsequence |
| JsSemantics.TrimStart | components/explore/utils/search.ts:7 | the result is a suffix of the input; every character dropped is whitespace; the result does not start with whitespace |
| JsSemantics.TrimEnd | components/explore/utils/search.ts:7 | the result is a prefix of the input; every character dropped is whitespace; the result does not end with whitespace |
| JsSemantics.Trim | components/explore/utils/search.ts:7 | `trim` gives the empty string exactly when the input is all whitespace; the result is a contiguous piece of the input with only whitespace before and after it, and when non-empty it neither starts nor ends with whitespace |
| JsSemantics.TrimIsInfix | components/explore/utils/search.ts:7 | what `trim` keeps is a contiguous piece of the input, preceded and followed only by whitespace |
| JsSemantics.LowerChar | components/explore/utils/search.ts:9 | an upper-case ASCII letter becomes the lower-case letter at the same position of the alphabet, and any other character is left alone |
| JsSemantics.ToLower | components/explore/utils/search.ts:9 | `toLowerCase` keeps the length and lower-cases each character in place |
| JsSemantics.ToLowerIdempotent | components/explore/utils/search.ts:9 | lower-casing an already lower-cased string changes nothing |
| JsSemantics.ToLowerKeepsBlank | components/explore/utils/search.ts:7-9 | a string is blank exactly when its lower-cased form is blank |
| JsSemantics.Includes | components/explore/utils/search.ts:12 | `includes` is true exactly when the needle occurs at some position of the string |
| Sequences.Filter | components/explore/utils/search.ts:11-17 | `filter` returns an order-preserving subsequence whose elements all pass the test, and it keeps every element that passes |
| Sequences.SubsequenceTransitive | components/explore/page.tsx:54-63 | a selection taken from a selection is a selection of the original, so stacked filters and the window stay ordered selections of the collection |
| Sequences.SubsequenceMultiset | components/explore/utils/search.ts:11 | a filtered list never holds an entry more often than its input does |
| Sequences.SubsequenceReflexive | components/explore/utils/search.ts:7 | returning the input unchanged is a (trivial) selection of it |
| Sequences.FilterMaximal | components/explore/utils/search.ts:11-17 | no ordered selection whose elements all pass the test is longer than `filter`'s result |
| Sequences.FilterUnique | components/explore/utils/search.ts:11-17 | `filter`'s result is the only ordered selection of its length whose elements all pass; with FilterMaximal this characterises it independently of how it is computed |
| Sequences.FilterFilter | components/explore/page.tsx:54-57 | filtering by one test and then another is filtering once by their conjunction |
| Sequences.FilterAgree | components/explore/utils/search.ts:11-17 | filters whose tests agree on every element give the same result |
| Sequences.FilterKeepAll | components/explore/utils/search.ts:24 | a filter that rejects nothing returns its input |
| Search.SearchPrompts | components/explore/utils/search.ts:3-18 | a blank or whitespace-only query returns the input unchanged; otherwise an entry is in the result exactly when it is in the input and the lower-cased query occurs in its name, present description or some tag; the result is always an order-preserving selection of the input |
| Search.SearchPromptsIsLongestMatch | components/explore/utils/search.ts:11-17 | for a non-blank query, no ordered selection of matching entries is longer than the search result, and one of equal length is the search result |
| Search.SearchIsCaseInsensitive | components/explore/utils/search.ts:9-16 | searching for a query and for its lower-cased form gives the same entries |
| Search.SearchPromptsIsFilter | components/explore/utils/search.ts:7-17 | the search, guard included, is a single filter whose test accepts every entry under a blank query |
| Search.FilterByType | components/explore/utils/search.ts:20-26 | `'all'` returns the input unchanged; otherwise the result is an ordered selection holding exactly the entries of that category |
| Search.FilterByTypeIsFilter | components/explore/utils/search.ts:24-25 | the category filter is a single filter by the selector's test |
| Search.SearchThenFilter | components/explore/page.tsx:54-57 | searching and then filtering by category is one filter by the combined test |
| Search.FilterThenSearch | components/explore/utils/search.ts:3-26 | filtering by category and then searching is the same single filter |
| Search.SearchAndFilterCommute | components/explore/page.tsx:54-57 | the search and the category filter may be applied in either order |
| Search.CalculateTypeCounts | components/explore/utils/search.ts:28-36 | `all` is the number of entries; every count is non-negative; the four category counts add up to `all` |
| Search.TypeCountsPartition | components/explore/utils/search.ts:31-34 | the four category filters split every collection |
| Search.CountsMatchFilters | components/explore/utils/search.ts:28-36 | the count reported for each selector is the length of the list that selector shows |
| Search.CalculateTypeCountsIsTally | components/explore/utils/search.ts:28-36 | the filter-based counts equal a single pass that bumps one bucket per entry |
| Search.PaginateItems | components/explore/utils/search.ts:38-48 | with non-negative arguments the page has `min(limit, max(0, n - offset))` entries, namely those from `offset` on; `hasMore` holds exactly when `offset + limit < n`; an offset at or past the end gives an empty page and no more |
| Search.PaginatePrefixMonotonic | components/explore/utils/search.ts:43 | a larger window from the start has the smaller window as a prefix |
| Search.PaginateExtends | components/explore/utils/search.ts:43-46 | a window of `k + n` is the window of `k` followed by the page of `n` after it, and it is strictly longer when the first window had more to show |
| ExplorePage.DeriveView | components/explore/page.tsx:53-63 | the filtered list is the single filter by search and category over the collection; the displayed entries are its first `displayCount`; `hasMore` holds exactly when entries remain beyond them |
| ExplorePage.ViewSelectsFromCollection | components/explore/page.tsx:54-63 | the displayed entries are an ordered selection of the filtered ones and of the collection; they never outnumber the filtered ones; every filtered entry passes both tests and every entry passing both is filtered; a non-empty window is empty only when nothing passes |
| ExplorePage.CountsRule | components/explore/page.tsx:59-61 | counts are the initial counts exactly when the debounced query is the empty string; otherwise each category's count is what that category shows under the search, the counts sum to the total, and a whitespace-only query counts the whole collection |
| ExplorePage.WindowGrows | components/explore/page.tsx:63-70 | widening the window keeps the filtered list, only appends to the displayed entries, and shows more when there was more |
| ExplorePage.ExploreSession.constructor | components/explore/page.tsx:31-37 | the session starts at time 0, with its last edit at 0, with empty raw and debounced queries, no pending timeout, `'all'`, a window of 20, not searching, and satisfies the invariant |
| ExplorePage.ExploreSession.SetSearchQuery | components/explore/page.tsx:14-20 | a keystroke no earlier than the last event, and before the pending emission is due, moves the clock to its time; a changed query replaces the pending emission with one for itself, due 300 units later; an unchanged query leaves the timer alone; `isSearching` becomes "raw differs from debounced"; the debounced query, the category and the window — everything the view derives from — stay as they were |
| ExplorePage.ExploreSession.Tick | components/explore/page.tsx:14-51 | the clock moves forward to `now`; a due emission publishes the raw query and stops the searching state; the debounced query only changes to the raw query, and only once 300 units have passed since its last edit, which no later keystroke has superseded; the window resets to 20 exactly when the debounced query changes; otherwise only the clock moves |
| ExplorePage.ExploreSession.SetActiveFilter | components/explore/page.tsx:48-51 | a different category resets the window to 20; the same category changes nothing; the queries, the timer, the searching flag, the clock and the last edit are untouched |
| ExplorePage.ExploreSession.LoadMore | components/explore/page.tsx:66-70 | it grows the window by exactly 20 when the `hasMore` it closed over is set, and changes nothing otherwise, so it is idempotent once the list is exhausted; the queries, the timer, the category, the searching flag, the clock and the last edit are kept, and so is the invariant, including the window being a positive multiple of 20 (when the flag is current, WindowGrows gives what the larger window displays) |
| ExplorePage.ExploreSession.OnSentinel | components/explore/page.tsx:77-82 | the observer callback grows the window by 20 only when the sentinel is in view and its render's `hasMore` is set; otherwise nothing changes; the queries, the timer, the category, the searching flag, the clock and the last edit are always kept |
| ExploreCard.Truncate | components/explore/card.tsx:50-53 | text that fits is returned as is; longer text becomes its first `maxLength` characters followed by `"..."`, `maxLength + 3` long; a negative bound counts from the end; the bound defaults to 200 |
| ExploreCard.ContentPreview | components/explore/card.tsx:102-104 | without the fade the preview is the whole content; with it (collapsed, longer than 300) it is the first 300 characters followed by an ellipsis |
| ExploreCard.Tags | components/explore/card.tsx:110-126 | a tag row is rendered exactly when tags are present and non-empty; expanded, it shows all of them; collapsed, it shows the first `min(n, 4)`, and the `+N` badge is positive and accounts for exactly the hidden ones |
| ExploreCard.HighlightText | components/explore/card.tsx:55-56 | the text is left unhighlighted exactly when the query trims to empty, and its text is never altered |
| ExploreRoute.InitialData | app/explore/page.tsx:36 | the page receives the fetched entries, or none when the fetch gave nothing |
| ExploreRoute.InitialTypeCounts | app/explore/page.tsx:31 | the server's counts are used when present; otherwise the counts describe exactly the entries handed to the page (total and partition), and are all zero when the fetch gave nothing |
| ExploreRoute.FallbackCountsConsistent | app/explore/page.tsx:31 | locally computed counts give, for every category, the number of entries that category shows before any search |
| ExploreRoute.FirstRender | app/explore/page.tsx:31-36 | the first render shows the first 20 entries of the whole collection under `'all'` with the route's counts; a failed fetch renders an empty list with zero counts |
| ExploreRoute.Mount | app/explore/page.tsx:36 | the mounted session starts from the route's entries and counts, with empty raw and debounced queries, nothing pending, `'all'`, a window of 20, not searching, the clock and last edit at 0; it satisfies the invariant and renders the first view |

## Left out

- Network fetching and JSON decoding (`fetchExploreData`, components/explore/utils/fetch.ts) are not modelled. The response is a parameter, and a failed fetch is `None`. A non-ok response whose body lacks `data` is not represented: the typed record always carries its entries.
- The timer and the intersection observer are replaced by the explicit events `Tick(now)` and `OnSentinel(isIntersecting, hasMore)`. Timer cancellation on unmount is left out.
- React's render order is not modelled. React renders once with the old window before the reset effect runs. The model applies the reset atomically with the change that causes it. It likewise updates `isSearching` in the same step as the queries.
- JsSemantics.ToLower: does not model Unicode case mapping. Only the ASCII letters A–Z are lower-cased.
- Strings are sequences of characters, not UTF-16 code units. Lengths, `slice` and `includes` count characters.
- ExploreCard.HighlightText: does not model the regex split and the `<mark>` wrapping (including the `lastIndex` quirk of the global regex's `test`). Only its blank-query guard is modelled.
- Clipboard copy, the `copied` and `isExpanded` toggles, and `toLocaleString` formatting are left out. `isExpanded` is a parameter of the card helpers.
- Markup-only files are left out: layout, home page, hero, navigation, footer, call-to-action, and the filter bar.
- The `slice(0, 12)` of components/explore/section.tsx is not part of this model. It is the same slice as `Search.PaginateItems`.
- `versions` and `versionCount` are carried in the records and never inspected.
- JavaScript numbers are modelled as unbounded integers. Counts and window sizes cannot reach the range where doubles lose precision.
