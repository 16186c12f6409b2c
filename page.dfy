/**
  The browse controller of the explore page (components/explore/page.tsx).
  Its session state — the raw query, the debounced query with its pending
  timer, the active category, the window size and the searching flag — is
  an object whose methods are the page's events; what the page renders is
  a pure function of that state.
 */
module ExplorePage {
  import opened Wrappers
  import opened JsSemantics
  import opened Sequences
  import opened ExploreTypes
  import opened Search

  /** The window grows by this many entries at a time. */
  const PageSize: nat := 20
  /** The quiet period of the query debounce, in the clock's time units. */
  const DebounceDelay: nat := 300

  /** What the page renders for one state. */
  datatype ExploreView = ExploreView(
    filteredItems: seq<ExplorePromptGroup>,
    typeCounts: TypeCounts,
    displayedItems: seq<ExplorePromptGroup>,
    hasMore: bool)

  /** The derived pipeline: search by the debounced query, filter by the
      category, count (only when the debounced query is non-empty), then take
      the first `displayCount` entries. */
  function DeriveView(
    initialData: seq<ExplorePromptGroup>,
    initialTypeCounts: TypeCounts,
    debouncedQuery: string,
    activeFilter: TypeFilter,
    displayCount: nat): (v: ExploreView)
    ensures v.filteredItems == Filter(PipelineAccepts(debouncedQuery, activeFilter), initialData)
    ensures v.displayedItems == v.filteredItems[..Min(displayCount, |v.filteredItems|)]
    ensures v.hasMore <==> displayCount < |v.filteredItems|
  {
    var filtered := FilterByType(SearchPrompts(initialData, debouncedQuery), activeFilter);
    SearchThenFilter(initialData, debouncedQuery, activeFilter);
    var counts := if debouncedQuery != "" then CalculateTypeCounts(SearchPrompts(initialData, debouncedQuery))
                  else initialTypeCounts;
    var page := PaginateItems(filtered, 0, displayCount);
    assert page.items == filtered[..Min(displayCount, |filtered|)];
    ExploreView(filtered, counts, page.items, page.hasMore)
  }

  /** The rendered entries are a stable selection of the collection, every
      one of them passes the search and the category, no entry that passes
      both is missing from the filtered list, and the page is empty only
      when nothing passes. */
  lemma ViewSelectsFromCollection(
    initialData: seq<ExplorePromptGroup>,
    initialTypeCounts: TypeCounts,
    debouncedQuery: string,
    activeFilter: TypeFilter,
    displayCount: nat)
    ensures var v := DeriveView(initialData, initialTypeCounts, debouncedQuery, activeFilter, displayCount);
      && IsSubsequence(v.displayedItems, v.filteredItems)
      && IsSubsequence(v.filteredItems, initialData)
      && IsSubsequence(v.displayedItems, initialData)
      && |v.displayedItems| <= |v.filteredItems|
      && (forall i :: 0 <= i < |v.filteredItems| ==> PipelineAccepts(debouncedQuery, activeFilter)(v.filteredItems[i]))
      && (forall i :: 0 <= i < |initialData| && PipelineAccepts(debouncedQuery, activeFilter)(initialData[i]) ==>
            initialData[i] in v.filteredItems)
      && (0 < displayCount ==> (v.displayedItems == [] <==> v.filteredItems == []))
  {
    var v := DeriveView(initialData, initialTypeCounts, debouncedQuery, activeFilter, displayCount);
    PrefixIsSubsequence(v.displayedItems, v.filteredItems);
    SubsequenceTransitive(v.displayedItems, v.filteredItems, initialData);
  }

  lemma {:induction false} PrefixIsSubsequence<T>(p: seq<T>, s: seq<T>)
    requires p <= s
    ensures IsSubsequence(p, s)
    decreases |s|
  {
    if p != [] {
      PrefixIsSubsequence(p[1..], s[1..]);
    }
  }

  /** The counts rule: the initial counts exactly while the debounced query
      is the empty string; otherwise the count shown beside each category is
      the number of entries that category would show under the current
      search, and for a whitespace-only query those are the counts of the
      whole collection. */
  lemma CountsRule(
    initialData: seq<ExplorePromptGroup>,
    initialTypeCounts: TypeCounts,
    debouncedQuery: string,
    activeFilter: TypeFilter,
    displayCount: nat)
    ensures var c := DeriveView(initialData, initialTypeCounts, debouncedQuery, activeFilter, displayCount).typeCounts;
      && (debouncedQuery == "" ==> c == initialTypeCounts)
      && (debouncedQuery != "" ==>
            forall g :: CountFor(c, g) == |FilterByType(SearchPrompts(initialData, debouncedQuery), g)|)
      && (debouncedQuery != "" ==> c.skill + c.command + c.prompt + c.rule == c.all)
      && (debouncedQuery != "" && IsBlank(debouncedQuery) ==> c == CalculateTypeCounts(initialData))
  {
    var searched := SearchPrompts(initialData, debouncedQuery);
    var c := DeriveView(initialData, initialTypeCounts, debouncedQuery, activeFilter, displayCount).typeCounts;
    if debouncedQuery != "" {
      assert c == CalculateTypeCounts(searched);
      forall g ensures CountFor(c, g) == |FilterByType(searched, g)| {
        CountsMatchFilters(searched, g);
      }
    }
  }

  /** Widening the window keeps the same filtered list and only appends to
      the displayed entries; when there was more to show, it shows more. */
  lemma WindowGrows(
    initialData: seq<ExplorePromptGroup>,
    initialTypeCounts: TypeCounts,
    debouncedQuery: string,
    activeFilter: TypeFilter,
    displayCount: nat,
    newCount: nat)
    requires displayCount < newCount
    ensures var v := DeriveView(initialData, initialTypeCounts, debouncedQuery, activeFilter, displayCount);
            var w := DeriveView(initialData, initialTypeCounts, debouncedQuery, activeFilter, newCount);
      && w.filteredItems == v.filteredItems
      && v.displayedItems <= w.displayedItems
      && (v.hasMore ==> |v.displayedItems| < |w.displayedItems|)
  {
  }

  lemma NextPageIsMultiple(n: nat)
    requires n % PageSize == 0
    ensures (n + PageSize) % PageSize == 0
  {
  }

  /** A pending emission of the debounce timer. */
  datatype PendingEmission = PendingEmission(value: string, deadline: int)

  class ExploreSession {
    const initialData: seq<ExplorePromptGroup>
    const initialTypeCounts: TypeCounts

    var searchQuery: string
    var debouncedSearchQuery: string
    /** The scheduled, not yet fired, timeout of the debounce. */
    var pending: Option<PendingEmission>
    var activeFilter: TypeFilter
    var displayCount: nat
    var isSearching: bool
    /** The time of the latest event that carried one; it never goes back. */
    var clock: int
    /** The time of the latest change of the raw query. */
    ghost var lastEdit: int

    ghost predicate Valid()
      reads this
    {
      && isSearching == (searchQuery != debouncedSearchQuery)
      && PageSize <= displayCount && displayCount % PageSize == 0
      && (pending.None? ==> debouncedSearchQuery == searchQuery)
      && (pending.Some? ==> pending.value == PendingEmission(searchQuery, lastEdit + DebounceDelay))
      && lastEdit <= clock
    }

    function View(): ExploreView
      reads this
    {
      DeriveView(initialData, initialTypeCounts, debouncedSearchQuery, activeFilter, displayCount)
    }

    constructor(initialData: seq<ExplorePromptGroup>, initialTypeCounts: TypeCounts)
      ensures Valid()
      ensures this.initialData == initialData && this.initialTypeCounts == initialTypeCounts
      ensures searchQuery == "" && debouncedSearchQuery == "" && pending.None?
      ensures activeFilter == All && displayCount == PageSize && !isSearching
      ensures clock == 0 && lastEdit == 0
    {
      this.initialData := initialData;
      this.initialTypeCounts := initialTypeCounts;
      searchQuery := "";
      debouncedSearchQuery := "";
      pending := None;
      activeFilter := All;
      displayCount := PageSize;
      isSearching := false;
      clock := 0;
      lastEdit := 0;
    }

    /** A keystroke in the search box at time `now`: a changed query cancels
        the pending emission and schedules its own; an unchanged one is
        ignored. Nothing the view derives from changes until the timer
        fires. A timer fires at its deadline, before any later keystroke, so
        a keystroke comes while the pending emission is not yet due: the
        caller delivers `Tick` at every deadline first. */
    method SetSearchQuery(query: string, now: int)
      requires Valid()
      requires clock <= now
      requires pending.None? || now < pending.value.deadline
      modifies this
      ensures Valid()
      ensures clock == now
      ensures searchQuery == query
      ensures query != old(searchQuery) ==>
                pending == Some(PendingEmission(query, now + DebounceDelay)) && lastEdit == now
      ensures query == old(searchQuery) ==>
                pending == old(pending) && lastEdit == old(lastEdit) && isSearching == old(isSearching)
      ensures debouncedSearchQuery == old(debouncedSearchQuery)
      ensures activeFilter == old(activeFilter) && displayCount == old(displayCount)
      ensures isSearching <==> query != debouncedSearchQuery
    {
      clock := now;
      if query != searchQuery {
        searchQuery := query;
        pending := Some(PendingEmission(query, now + DebounceDelay));
        lastEdit := now;
        isSearching := searchQuery != debouncedSearchQuery;
      }
    }

    /** The clock reaches `now`: a pending emission whose deadline has passed
        fires and publishes the raw query; the window is reset only when the
        debounced query actually changes. */
    method Tick(now: int)
      requires Valid()
      requires clock <= now
      modifies this
      ensures Valid()
      ensures clock == now
      ensures searchQuery == old(searchQuery) && activeFilter == old(activeFilter) && lastEdit == old(lastEdit)
      ensures old(pending).Some? && old(pending).value.deadline <= now ==>
                pending.None? && debouncedSearchQuery == searchQuery && !isSearching
      ensures !(old(pending).Some? && old(pending).value.deadline <= now) ==>
                pending == old(pending) && debouncedSearchQuery == old(debouncedSearchQuery)
                && displayCount == old(displayCount) && isSearching == old(isSearching)
      ensures debouncedSearchQuery != old(debouncedSearchQuery) ==>
                debouncedSearchQuery == searchQuery && lastEdit + DebounceDelay <= now
                && displayCount == PageSize
      ensures debouncedSearchQuery == old(debouncedSearchQuery) ==> displayCount == old(displayCount)
    {
      clock := now;
      if pending.Some? && pending.value.deadline <= now {
        var value := pending.value.value;
        pending := None;
        if value != debouncedSearchQuery {
          debouncedSearchQuery := value;
          displayCount := PageSize;
        }
        isSearching := searchQuery != debouncedSearchQuery;
      }
    }

    /** A click on a category: a different category resets the window. */
    method SetActiveFilter(f: TypeFilter)
      requires Valid()
      modifies this
      ensures Valid()
      ensures activeFilter == f
      ensures f != old(activeFilter) ==> displayCount == PageSize
      ensures f == old(activeFilter) ==> unchanged(this)
      ensures searchQuery == old(searchQuery) && debouncedSearchQuery == old(debouncedSearchQuery)
      ensures pending == old(pending) && isSearching == old(isSearching)
      ensures clock == old(clock) && lastEdit == old(lastEdit)
    {
      if f != activeFilter {
        activeFilter := f;
        displayCount := PageSize;
      }
    }

    /** `loadMore`: the callback adds a page only when the `hasMore` it
        closed over is set. That is the flag of the render that created it,
        which is `View().hasMore` unless a newer state has not yet been
        rendered; when it is current, WindowGrows states what the display
        gains. */
    method LoadMore(hasMore: bool)
      requires Valid()
      modifies this
      ensures Valid()
      ensures hasMore ==> displayCount == old(displayCount) + PageSize
      ensures !hasMore ==> unchanged(this)
      ensures searchQuery == old(searchQuery) && debouncedSearchQuery == old(debouncedSearchQuery)
      ensures activeFilter == old(activeFilter) && pending == old(pending) && isSearching == old(isSearching)
      ensures clock == old(clock) && lastEdit == old(lastEdit)
    {
      if hasMore {
        NextPageIsMultiple(displayCount);
        displayCount := displayCount + PageSize;
      }
    }

    /** The observer callback: the sentinel reports whether it is in view,
        and `loadMore` runs only while the render that installed the
        observer had more to show. */
    method OnSentinel(isIntersecting: bool, hasMore: bool)
      requires Valid()
      modifies this
      ensures Valid()
      ensures isIntersecting && hasMore ==> displayCount == old(displayCount) + PageSize
      ensures !(isIntersecting && hasMore) ==> unchanged(this)
      ensures searchQuery == old(searchQuery) && debouncedSearchQuery == old(debouncedSearchQuery)
      ensures activeFilter == old(activeFilter) && pending == old(pending) && isSearching == old(isSearching)
      ensures clock == old(clock) && lastEdit == old(lastEdit)
    {
      if isIntersecting && hasMore {
        LoadMore(hasMore);
      }
    }
  }

  /** Rapid edits "g", "gi", "git" inside one quiet period: only "git" is
      ever published, and the page is searching until it is. */
  method RapidEditsScenario(data: seq<ExplorePromptGroup>, counts: TypeCounts)
  {
    var session := new ExploreSession(data, counts);
    session.SetSearchQuery("g", 0);
    assert session.isSearching;
    session.SetSearchQuery("gi", 100);
    session.Tick(250);
    assert session.debouncedSearchQuery == "" && session.isSearching;
    session.SetSearchQuery("git", 260);
    session.Tick(500);
    assert session.debouncedSearchQuery == "" && session.isSearching;
    session.Tick(560);
    assert session.debouncedSearchQuery == "git" && !session.isSearching;
  }
}
