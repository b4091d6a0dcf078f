/** The search hook of hooks/use-search.ts: the guarded search transition,
    the filter views, the result count, clearing, and the post toggles
    applied to the search results. */
module Search {
  import opened Wrappers
  import opened Text
  import opened Models
  import PI = PostInteractions

  /** `'all' | 'users' | 'posts'`. */
  datatype Filter = All | Users | Posts

  datatype SearchResults = SearchResults(posts: seq<PostItem>, users: seq<User>)

  datatype SearchState = SearchState(
    query: string,
    results: SearchResults,
    isSearching: bool,
    hasSearched: bool,
    activeFilter: Filter)

  const NoResults: SearchResults := SearchResults([], [])

  /** The hook's initial state. */
  const InitialSearch: SearchState := SearchState("", NoResults, false, false, All)

  /** `query || searchQuery`: an explicit truthy argument wins over the stored query. */
  function EffectiveTerm(st: SearchState, query: Option<string>): (t: string)
    ensures query.Some? && Truthy(query.value) ==> t == query.value
    ensures query.None? || !Truthy(query.value) ==> t == st.query
  {
    if query.Some? && Truthy(query.value) then query.value else st.query
  }

  /** The keyword `findPosts` and `findUsers` both receive, or None when
      `handleSearch` returns before searching. */
  function SearchRequest(st: SearchState, query: Option<string>): (k: Option<string>)
    ensures k.None? <==> IsBlank(EffectiveTerm(st, query))
    ensures k.Some? ==> k.value == Trim(EffectiveTerm(st, query)) && Truthy(k.value)
  {
    var term := EffectiveTerm(st, query);
    TrimmedTruthyIffNotBlank(term);
    if IsBlank(term) then None else Some(Trim(term))
  }

  /** The state while both requests are pending. */
  function StartSearch(st: SearchState, query: Option<string>): (s: SearchState)
    ensures SearchRequest(st, query).None? ==> s == st
    ensures SearchRequest(st, query).Some? ==> s.isSearching && s.(isSearching := st.isSearching) == st
  {
    if SearchRequest(st, query).None? then st else st.(isSearching := true)
  }

  /** `handleSearch(query)` once it has settled; `outcome` is what
      `Promise.all` of the two requests resolved or rejected with. */
  function HandleSearch(st: SearchState, query: Option<string>, outcome: Result<SearchResults, string>): (s: SearchState)
    ensures SearchRequest(st, query).None? ==> s == st
    ensures SearchRequest(st, query).Some? ==>
              && !s.isSearching
              && s.query == st.query
              && s.activeFilter == st.activeFilter
    ensures SearchRequest(st, query).Some? && outcome.Success? ==>
              s.results == outcome.value && s.hasSearched
    ensures SearchRequest(st, query).Some? && outcome.Failure? ==>
              s.results == NoResults && s.hasSearched == st.hasSearched
  {
    if SearchRequest(st, query).None? then st
    else
      var pending := StartSearch(st, query);
      match outcome
      case Success(found) => pending.(results := found, hasSearched := true, isSearching := false)
      case Failure(_) => pending.(results := NoResults, isSearching := false)
  }

  /** An explicit query made only of whitespace shadows the stored query, so
      the search does nothing even when the stored query is not blank. */
  lemma WhitespaceArgumentShadowsStoredQuery(st: SearchState, arg: string, outcome: Result<SearchResults, string>)
    requires Truthy(arg) && IsBlank(arg)
    ensures HandleSearch(st, Some(arg), outcome) == st
  {
  }

  /** `getFilteredResults()`: the section the active filter shows. */
  function FilteredResults(st: SearchState): (r: SearchResults)
    ensures st.activeFilter == Users ==> r.posts == [] && r.users == st.results.users
    ensures st.activeFilter == Posts ==> r.posts == st.results.posts && r.users == []
    ensures st.activeFilter == All ==> r == st.results
  {
    match st.activeFilter
    case Users => SearchResults([], st.results.users)
    case Posts => SearchResults(st.results.posts, [])
    case All => st.results
  }

  /** `getTotalCount()`: the number of posts and users found. */
  function TotalCount(st: SearchState): (n: nat)
    ensures n == 0 <==> st.results == NoResults
    ensures n >= |st.results.posts| && n >= |st.results.users|
  {
    |st.results.posts| + |st.results.users|
  }

  /** The count ignores the filter, and equals the sizes of the users view and
      the posts view together: those two views split the results. */
  lemma TotalCountSplitsByFilter(st: SearchState, f: Filter)
    ensures TotalCount(st.(activeFilter := f)) == TotalCount(st)
    ensures var u := FilteredResults(st.(activeFilter := Users));
            var p := FilteredResults(st.(activeFilter := Posts));
            TotalCount(st) == |u.posts| + |u.users| + |p.posts| + |p.users|
  {
  }

  /** `clearSearch()`. */
  function ClearSearch(st: SearchState): (s: SearchState)
    ensures s.query == "" && s.results == NoResults && !s.hasSearched && s.activeFilter == All
    ensures s.isSearching == st.isSearching
    ensures TotalCount(s) == 0
  {
    st.(query := "", results := NoResults, hasSearched := false, activeFilter := All)
  }

  /** A cleared search does nothing until a new query is given. */
  lemma ClearedSearchIgnoresStoredQuery(st: SearchState, outcome: Result<SearchResults, string>)
    ensures HandleSearch(ClearSearch(st), None, outcome) == ClearSearch(st)
  {
    var cleared := ClearSearch(st);
    assert EffectiveTerm(cleared, None) == "";
    BlankIffAllWhitespace("");
    assert SearchRequest(cleared, None).None?;
  }

  /** The search hook's own `updatePostReaction` / `updatePostShare`: the
      found posts get the same toggle rule as the feed, nothing else changes. */
  function UpdateResultToggle(st: SearchState, kind: PI.Toggle, postId: int, newState: bool): (s: SearchState)
    ensures s.results.users == st.results.users
    ensures s.results.posts == PI.UpdateToggle(st.results.posts, kind, postId, newState)
    ensures s.(results := st.results) == st
    ensures TotalCount(s) == TotalCount(st)
  {
    st.(results := st.results.(posts := PI.UpdateToggle(st.results.posts, kind, postId, newState)))
  }
}
