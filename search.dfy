/**
  The data pipeline of the explore browser (components/explore/utils/search.ts):
  free-text search, category filter, per-category counts and pagination.
  All four are total functions over sequences of entries.
 */
module Search {
  import opened Wrappers
  import opened JsSemantics
  import opened Sequences
  import opened ExploreTypes

  // ---------------------------------------------------------------------
  // searchPrompts
  // ---------------------------------------------------------------------

  /** Some tag contains the lower-cased query (`tags?.some(...)`); absent
      tags match nothing. */
  predicate TagMatches(tags: Option<seq<string>>, lowerQuery: string)
  {
    tags.Some? && exists i :: 0 <= i < |tags.value| && Includes(ToLower(tags.value[i]), lowerQuery)
  }

  /** The match test of one entry: its name, its description when present,
      or one of its tags contains the lower-cased query. */
  predicate Matches(item: ExplorePromptGroup, lowerQuery: string)
  {
    var p := item.prompt;
    Includes(ToLower(p.name), lowerQuery)
    || (p.description.Some? && Includes(ToLower(p.description.value), lowerQuery))
    || TagMatches(p.tags, lowerQuery)
  }

  /** The test the search applies to one entry: under a blank query every
      entry passes, otherwise the entry must match the lower-cased query. */
  function SearchAccepts(query: string): ExplorePromptGroup -> bool
  {
    (item: ExplorePromptGroup) => IsBlank(query) || Matches(item, ToLower(query))
  }

  /** `searchPrompts(items, query)`. A blank query returns the input as it
      is; otherwise the entries that match the lower-cased (untrimmed) query
      are kept, in their order. The guard `!query.trim()` is written as
      `IsBlank(query)`, which the contract of `Trim` proves equivalent. */
  function SearchPrompts(items: seq<ExplorePromptGroup>, query: string): (r: seq<ExplorePromptGroup>)
    ensures IsSubsequence(r, items)
    ensures IsBlank(query) ==> r == items
    ensures !IsBlank(query) ==> forall x :: x in r <==> x in items && Matches(x, ToLower(query))
  {
    if IsBlank(query) then
      SubsequenceReflexive(items);
      items
    else
      var r := Filter(SearchAccepts(query), items);
      SubsequenceMultiset(r, items);
      assert forall x :: x in r ==> x in multiset(items);
      r
  }

  /** The search keeps the longest subsequence of matching entries, and it is
      the only subsequence of that length whose entries all match. */
  lemma SearchPromptsIsLongestMatch(items: seq<ExplorePromptGroup>, query: string, r: seq<ExplorePromptGroup>)
    requires !IsBlank(query)
    requires IsSubsequence(r, items)
    requires forall i :: 0 <= i < |r| ==> Matches(r[i], ToLower(query))
    ensures |r| <= |SearchPrompts(items, query)|
    ensures |r| == |SearchPrompts(items, query)| ==> r == SearchPrompts(items, query)
  {
    var p := SearchAccepts(query);
    assert AllSatisfy(p, r);
    FilterMaximal(p, items, r);
    if |r| == |SearchPrompts(items, query)| {
      FilterUnique(p, items, r);
    }
  }

  /** The search ignores the case of ASCII letters in the query. */
  lemma SearchIsCaseInsensitive(items: seq<ExplorePromptGroup>, query: string)
    ensures SearchPrompts(items, query) == SearchPrompts(items, ToLower(query))
  {
    ToLowerKeepsBlank(query);
    ToLowerIdempotent(query);
  }

  /** The search, guard included, is one filter. */
  lemma SearchPromptsIsFilter(items: seq<ExplorePromptGroup>, query: string)
    ensures SearchPrompts(items, query) == Filter(SearchAccepts(query), items)
  {
    if IsBlank(query) {
      FilterKeepAll(SearchAccepts(query), items);
    }
  }

  // ---------------------------------------------------------------------
  // filterByType
  // ---------------------------------------------------------------------

  /** The test of a category selector: `'all'` accepts every entry, a
      category the entries of exactly that type. */
  function Accepts(f: TypeFilter): ExplorePromptGroup -> bool
  {
    (item: ExplorePromptGroup) => f.All? || item.prompt.kind == f.kind
  }

  /** `filterByType(items, type)`: `'all'` passes everything through;
      otherwise the entries of exactly that type are kept, in their order. */
  function FilterByType(items: seq<ExplorePromptGroup>, f: TypeFilter): (r: seq<ExplorePromptGroup>)
    ensures IsSubsequence(r, items)
    ensures f.All? ==> r == items
    ensures forall i :: 0 <= i < |r| ==> Accepts(f)(r[i])
    ensures forall i :: 0 <= i < |items| && Accepts(f)(items[i]) ==> items[i] in r
  {
    if f.All? then
      SubsequenceReflexive(items);
      items
    else
      Filter(Accepts(f), items)
  }

  lemma FilterByTypeIsFilter(items: seq<ExplorePromptGroup>, f: TypeFilter)
    ensures FilterByType(items, f) == Filter(Accepts(f), items)
  {
    if f.All? {
      FilterKeepAll(Accepts(f), items);
    }
  }

  /** The combined test of the two stages. */
  function PipelineAccepts(query: string, f: TypeFilter): ExplorePromptGroup -> bool
  {
    And(SearchAccepts(query), Accepts(f))
  }

  /** Searching then filtering is one filter by both tests. */
  lemma SearchThenFilter(items: seq<ExplorePromptGroup>, query: string, f: TypeFilter)
    ensures FilterByType(SearchPrompts(items, query), f) == Filter(PipelineAccepts(query, f), items)
  {
    var s, a := SearchAccepts(query), Accepts(f);
    calc {
      FilterByType(SearchPrompts(items, query), f);
    == { FilterByTypeIsFilter(SearchPrompts(items, query), f); }
      Filter(a, SearchPrompts(items, query));
    == { SearchPromptsIsFilter(items, query); }
      Filter(a, Filter(s, items));
    == { FilterFilter(s, a, items); }
      Filter(And(s, a), items);
    }
  }

  /** Filtering then searching is the same single filter. */
  lemma FilterThenSearch(items: seq<ExplorePromptGroup>, query: string, f: TypeFilter)
    ensures SearchPrompts(FilterByType(items, f), query) == Filter(PipelineAccepts(query, f), items)
  {
    var s, a := SearchAccepts(query), Accepts(f);
    calc {
      SearchPrompts(FilterByType(items, f), query);
    == { SearchPromptsIsFilter(FilterByType(items, f), query); }
      Filter(s, FilterByType(items, f));
    == { FilterByTypeIsFilter(items, f); }
      Filter(s, Filter(a, items));
    == { FilterFilter(a, s, items); }
      Filter(And(a, s), items);
    == { FilterAgree(And(a, s), And(s, a), items); }
      Filter(And(s, a), items);
    }
  }

  /** The search and the category filter may be applied in either order. */
  lemma SearchAndFilterCommute(items: seq<ExplorePromptGroup>, query: string, f: TypeFilter)
    ensures FilterByType(SearchPrompts(items, query), f) == SearchPrompts(FilterByType(items, f), query)
  {
    SearchThenFilter(items, query, f);
    FilterThenSearch(items, query, f);
  }

  // ---------------------------------------------------------------------
  // calculateTypeCounts
  // ---------------------------------------------------------------------

  /** `calculateTypeCounts(items)`: the total, and per category the length
      of the filter by that category. */
  function CalculateTypeCounts(items: seq<ExplorePromptGroup>): (r: TypeCounts)
    ensures r.all == |items|
    ensures 0 <= r.skill && 0 <= r.command && 0 <= r.prompt && 0 <= r.rule
    ensures r.skill + r.command + r.prompt + r.rule == r.all
  {
    TypeCountsPartition(items);
    TypeCounts(
      |items|,
      |Filter(Accepts(Only(Skill)), items)|,
      |Filter(Accepts(Only(Command)), items)|,
      |Filter(Accepts(Only(Prompt)), items)|,
      |Filter(Accepts(Only(Rule)), items)|)
  }

  /** The four categories split every collection. */
  lemma {:induction false} TypeCountsPartition(items: seq<ExplorePromptGroup>)
    ensures |Filter(Accepts(Only(Skill)), items)| + |Filter(Accepts(Only(Command)), items)|
          + |Filter(Accepts(Only(Prompt)), items)| + |Filter(Accepts(Only(Rule)), items)| == |items|
    decreases |items|
  {
    if items != [] {
      TypeCountsPartition(items[1..]);
    }
  }

  /** The count reported for a selector, as the filter bar reads it. */
  function CountFor(counts: TypeCounts, f: TypeFilter): int
  {
    match f
    case All => counts.all
    case Only(Skill) => counts.skill
    case Only(Command) => counts.command
    case Only(Prompt) => counts.prompt
    case Only(Rule) => counts.rule
  }

  /** Over the collection they were computed from, the count reported for
      each selector is the number of entries that selector would show. */
  lemma CountsMatchFilters(items: seq<ExplorePromptGroup>, f: TypeFilter)
    ensures CountFor(CalculateTypeCounts(items), f) == |FilterByType(items, f)|
  {
  }

  /** One count incremented for an entry of category `t`, and `all` with it. */
  function Bump(c: TypeCounts, t: PromptType): TypeCounts
  {
    match t
    case Skill => c.(all := c.all + 1, skill := c.skill + 1)
    case Command => c.(all := c.all + 1, command := c.command + 1)
    case Prompt => c.(all := c.all + 1, prompt := c.prompt + 1)
    case Rule => c.(all := c.all + 1, rule := c.rule + 1)
  }

  /** A single pass that bumps one bucket per entry: a reference definition
      of the counts that does not go through the filters. */
  function Tally(items: seq<ExplorePromptGroup>): TypeCounts
    decreases |items|
  {
    if items == [] then TypeCounts(0, 0, 0, 0, 0)
    else Bump(Tally(items[1..]), items[0].prompt.kind)
  }

  lemma {:induction false} CalculateTypeCountsIsTally(items: seq<ExplorePromptGroup>)
    ensures CalculateTypeCounts(items) == Tally(items)
    decreases |items|
  {
    if items != [] {
      CalculateTypeCountsIsTally(items[1..]);
    }
  }

  // ---------------------------------------------------------------------
  // paginateItems
  // ---------------------------------------------------------------------

  datatype Page<T> = Page(items: seq<T>, hasMore: bool)

  /** `paginateItems(items, offset, limit)`: the slice of at most `limit`
      entries starting at `offset`, and whether entries follow it. */
  function PaginateItems<T>(items: seq<T>, offset: int, limit: int): (r: Page<T>)
    ensures 0 <= offset && 0 <= limit ==> |r.items| == Min(limit, Max(0, |items| - offset))
    ensures 0 <= offset ==>
              forall i :: 0 <= i < |r.items| ==> offset + i < |items| && r.items[i] == items[offset + i]
    ensures r.hasMore <==> offset + limit < |items|
    ensures 0 <= limit && |items| <= offset ==> r.items == [] && !r.hasMore
  {
    Page(Slice(items, offset, offset + limit), offset + limit < |items|)
  }

  /** Growing the window from the start only appends to what was shown. */
  lemma PaginatePrefixMonotonic<T>(items: seq<T>, k1: int, k2: int)
    requires 0 <= k1 <= k2
    ensures PaginateItems(items, 0, k1).items <= PaginateItems(items, 0, k2).items
  {
  }

  /** A window of `k + n` is the window of `k` followed by the page of `n`
      after it; when the first window had more to show and `n > 0`, the
      extension is strict. */
  lemma PaginateExtends<T>(items: seq<T>, k: int, n: int)
    requires 0 <= k && 0 <= n
    ensures PaginateItems(items, 0, k + n).items
         == PaginateItems(items, 0, k).items + PaginateItems(items, k, n).items
    ensures PaginateItems(items, 0, k).hasMore && 0 < n ==>
              |PaginateItems(items, 0, k).items| < |PaginateItems(items, 0, k + n).items|
  {
    var a := PaginateItems(items, 0, k).items;
    var b := PaginateItems(items, k, n).items;
    var c := PaginateItems(items, 0, k + n).items;
    assert |c| == |a| + |b|;
    assert forall i :: 0 <= i < |c| ==> c[i] == (a + b)[i];
  }
}
