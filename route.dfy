/**
  The server route that mounts the browser (app/explore/page.tsx): it
  fetches the collection once and hands the entries and their counts to the
  page, falling back to an empty collection when the fetch gave nothing and
  to counts computed from the entries when the response carries none.
 */
module ExploreRoute {
  import opened Wrappers
  import opened JsSemantics
  import opened ExploreTypes
  import opened Search
  import opened ExplorePage

  /** `response?.data || []`: the fetched entries, or none at all when the
      fetch failed (`None`). */
  function InitialData(response: Option<ExploreApiResponse>): (r: seq<ExplorePromptGroup>)
    ensures response.None? ==> r == []
    ensures response.Some? ==> r == response.value.data
  {
    match response
    case None => []
    case Some(body) => body.data
  }

  /** `response?.typeCounts || calculateTypeCounts(response?.data || [])`:
      the server's counts when it sent some; otherwise counts that describe
      exactly the entries handed to the page. */
  function InitialTypeCounts(response: Option<ExploreApiResponse>): (r: TypeCounts)
    ensures response.Some? && response.value.typeCounts.Some? ==> r == response.value.typeCounts.value
    ensures !(response.Some? && response.value.typeCounts.Some?) ==>
              r.all == |InitialData(response)| && r.skill + r.command + r.prompt + r.rule == r.all
    ensures response.None? ==> r == TypeCounts(0, 0, 0, 0, 0)
  {
    if response.Some? && response.value.typeCounts.Some? then response.value.typeCounts.value
    else
      var data := InitialData(response);
      CalculateTypeCounts(data)
  }

  /** Whenever the counts were computed locally, the figure beside every
      category is the number of entries that category shows before any
      search. */
  lemma FallbackCountsConsistent(response: Option<ExploreApiResponse>, f: TypeFilter)
    requires !(response.Some? && response.value.typeCounts.Some?)
    ensures CountFor(InitialTypeCounts(response), f) == |FilterByType(InitialData(response), f)|
  {
    CountsMatchFilters(InitialData(response), f);
  }

  /** What the page first renders: the first page of the whole collection
      under `'all'`, the counts the route chose, and for a failed fetch an
      empty list with zero counts. */
  lemma FirstRender(response: Option<ExploreApiResponse>)
    ensures var v := DeriveView(InitialData(response), InitialTypeCounts(response), "", All, PageSize);
      && v.filteredItems == InitialData(response)
      && v.displayedItems == InitialData(response)[..Min(PageSize, |InitialData(response)|)]
      && v.typeCounts == InitialTypeCounts(response)
      && (v.hasMore <==> PageSize < |InitialData(response)|)
      && (response.None? ==> v.displayedItems == [] && v.typeCounts == TypeCounts(0, 0, 0, 0, 0))
  {
    var data := InitialData(response);
    SearchThenFilter(data, "", All);
  }

  /** Rendering the route: the page's session starts from the chosen entries
      and counts, with an empty query and nothing pending, the `'all'`
      category, a window of one page and the clock at 0. */
  method Mount(response: Option<ExploreApiResponse>) returns (session: ExploreSession)
    ensures fresh(session) && session.Valid()
    ensures session.initialData == InitialData(response)
    ensures session.initialTypeCounts == InitialTypeCounts(response)
    ensures session.searchQuery == "" && session.debouncedSearchQuery == "" && session.pending.None?
    ensures session.activeFilter == All && session.displayCount == PageSize && !session.isSearching
    ensures session.clock == 0 && session.lastEdit == 0
    ensures session.View() == DeriveView(InitialData(response), InitialTypeCounts(response), "", All, PageSize)
  {
    session := new ExploreSession(InitialData(response), InitialTypeCounts(response));
  }
}
