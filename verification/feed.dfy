/** The cursor pager of hooks/use-posts.ts: the flags raised when a fetch
    starts, replace-or-append when it settles, the `loadMore` guard and
    `refresh`. A fetch is one transition from the state before the call to the
    settled state; the normalised reply of `getPosts` is its input. */
module Feed {
  import opened Wrappers
  import opened Text
  import opened Models
  import PS = PostService

  datatype FeedState = FeedState(
    posts: seq<PostItem>,
    loading: bool,
    refreshing: bool,
    loadingMore: bool,
    hasMore: bool,
    nextCursor: Option<string>,
    error: Option<string>)

  /** The message a failed fetch leaves in `error`. */
  const FetchError: string := "Có lỗi xảy ra khi tải posts"

  /** The hook's state before its first fetch. */
  const InitialFeed: FeedState := FeedState([], false, false, false, true, None, None)

  predicate TruthyCursor(cursor: Option<string>) {
    cursor.Some? && Truthy(cursor.value)
  }

  /** No fetch is in flight. */
  predicate Settled(st: FeedState) {
    !st.loading && !st.refreshing && !st.loadingMore
  }

  /** The state right after `fetchPosts(cursor, isRefresh)` starts: one flag
      raised, chosen by refresh first, then by a truthy cursor, and the error
      cleared. */
  function BeginFetch(st: FeedState, cursor: Option<string>, isRefresh: bool): (s: FeedState)
    ensures isRefresh ==> s.refreshing && s.loading == st.loading && s.loadingMore == st.loadingMore
    ensures !isRefresh && TruthyCursor(cursor) ==>
              s.loadingMore && s.loading == st.loading && s.refreshing == st.refreshing
    ensures !isRefresh && !TruthyCursor(cursor) ==>
              s.loading && s.refreshing == st.refreshing && s.loadingMore == st.loadingMore
    ensures s.error.None?
    ensures s.posts == st.posts && s.hasMore == st.hasMore && s.nextCursor == st.nextCursor
  {
    var raised :=
      if isRefresh then st.(refreshing := true)
      else if TruthyCursor(cursor) then st.(loadingMore := true)
      else st.(loading := true);
    raised.(error := None)
  }

  /** Starting from a settled state, exactly one of the three flags is up. */
  lemma BeginFetchRaisesOneFlag(st: FeedState, cursor: Option<string>, isRefresh: bool)
    requires Settled(st)
    ensures var s := BeginFetch(st, cursor, isRefresh);
            (if s.loading then 1 else 0) + (if s.refreshing then 1 else 0) + (if s.loadingMore then 1 else 0) == 1
  {
  }

  /** The query the fetch sends. */
  function FetchParams(cursor: Option<string>): map<string, string> {
    PS.PostsParams(cursor, PS.DefaultLimit)
  }

  /** `fetchPosts(cursor, isRefresh)` once settled; `reply` is the body the
      posts endpoint answered with, or the rejection. */
  function FetchPosts(st: FeedState, cursor: Option<string>, isRefresh: bool, reply: Result<PS.RawPage, string>): (s: FeedState)
    ensures Settled(s)
    ensures reply.Success? && (isRefresh || !TruthyCursor(cursor)) ==>
              s.posts == PS.NormalizePage(reply.value).data
    ensures reply.Success? && !isRefresh && TruthyCursor(cursor) ==>
              s.posts == st.posts + PS.NormalizePage(reply.value).data
    ensures reply.Success? ==>
              && s.nextCursor == reply.value.nextCursor
              && (s.hasMore <==> TruthyCursor(reply.value.nextCursor))
              && s.error.None?
    ensures reply.Failure? ==>
              && s.posts == st.posts
              && s.nextCursor == st.nextCursor
              && s.hasMore == st.hasMore
              && s.error == Some(FetchError)
  {
    var started := BeginFetch(st, cursor, isRefresh);
    var finished :=
      match reply
      case Success(raw) =>
        var page := PS.NormalizePage(raw);
        var posts := if isRefresh || !TruthyCursor(cursor) then page.data else started.posts + page.data;
        started.(posts := posts, nextCursor := page.nextCursor, hasMore := page.hasMore)
      case Failure(_) => started.(error := Some(FetchError));
    finished.(loading := false, refreshing := false, loadingMore := false)
  }

  /** The `loadMore` guard: no page is loading, more pages exist, and a
      cursor to ask for them is stored. */
  predicate CanLoadMore(st: FeedState)
    ensures CanLoadMore(st) ==> st.nextCursor.Some? && st.nextCursor.value != ""
    ensures st.loadingMore || !st.hasMore ==> !CanLoadMore(st)
  {
    !st.loadingMore && st.hasMore && TruthyCursor(st.nextCursor)
  }

  /** `loadMore()`: fetch the page after `nextCursor` when the guard allows,
      otherwise nothing happens. */
  function LoadMore(st: FeedState, reply: Result<PS.RawPage, string>): (s: FeedState)
    ensures !CanLoadMore(st) ==> s == st
    ensures CanLoadMore(st) && reply.Success? ==>
              && |s.posts| >= |st.posts|
              && s.posts[..|st.posts|] == st.posts
              && s.posts[|st.posts|..] == PS.NormalizePage(reply.value).data
    ensures CanLoadMore(st) ==> Settled(s)
  {
    if CanLoadMore(st) then FetchPosts(st, st.nextCursor, false, reply) else st
  }

  /** The request `loadMore` sends: the stored cursor, when it sends one. */
  lemma LoadMoreSendsStoredCursor(st: FeedState)
    requires CanLoadMore(st)
    ensures FetchParams(st.nextCursor)["cursor"] == st.nextCursor.value
  {
  }

  /** `refresh()`: a refresh fetch without a cursor; the page replaces the list. */
  function Refresh(st: FeedState, reply: Result<PS.RawPage, string>): (s: FeedState)
    ensures reply.Success? ==> s.posts == PS.NormalizePage(reply.value).data
    ensures reply.Failure? ==> s.posts == st.posts && s.error == Some(FetchError)
    ensures Settled(s)
  {
    FetchPosts(st, None, true, reply)
  }

  /** The fetch the hook runs when it mounts. */
  function Mount(reply: Result<PS.RawPage, string>): (s: FeedState)
    ensures reply.Success? ==> s.posts == PS.NormalizePage(reply.value).data
    ensures reply.Failure? ==> s.posts == [] && s.hasMore && s.nextCursor.None?
  {
    FetchPosts(InitialFeed, None, false, reply)
  }

  /** After a successful fetch, more can be loaded exactly when the server
      returned a truthy cursor; a falsy cursor exhausts the feed. */
  lemma LoadMoreAllowedIffCursor(st: FeedState, cursor: Option<string>, isRefresh: bool, raw: PS.RawPage)
    ensures CanLoadMore(FetchPosts(st, cursor, isRefresh, Success(raw))) <==> TruthyCursor(raw.nextCursor)
  {
  }

  /** An exhausted feed ignores every later `loadMore`, whatever it would have returned. */
  lemma ExhaustedFeedIgnoresLoadMore(st: FeedState, cursor: Option<string>, isRefresh: bool,
                                     raw: PS.RawPage, later: Result<PS.RawPage, string>)
    requires !TruthyCursor(raw.nextCursor)
    ensures var s := FetchPosts(st, cursor, isRefresh, Success(raw));
            LoadMore(s, later) == s
  {
  }

  /** A failed fetch keeps the pager where it was, so the same `loadMore`
      can be retried. */
  lemma FailedLoadMoreCanRetry(st: FeedState, err: string)
    requires CanLoadMore(st)
    ensures var s := LoadMore(st, Failure(err));
            CanLoadMore(s) && s.nextCursor == st.nextCursor && s.posts == st.posts
  {
  }

  /** Two successful `loadMore` calls append their pages in order after the
      existing posts. */
  lemma TwoLoadsAppendInOrder(st: FeedState, first: PS.RawPage, second: PS.RawPage)
    requires CanLoadMore(st) && TruthyCursor(first.nextCursor)
    ensures LoadMore(LoadMore(st, Success(first)), Success(second)).posts
            == st.posts + PS.NormalizePage(first).data + PS.NormalizePage(second).data
  {
  }
}
