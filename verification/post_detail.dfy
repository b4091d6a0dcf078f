/** The post-detail hook of hooks/use-post-detail.ts: loading a post with
    its comments, and adding a comment once the server has answered. */
module PostDetail {
  import opened Wrappers
  import opened Text
  import opened Models
  import PS = PostService

  datatype DetailState = DetailState(
    post: Option<PostItem>,
    comments: seq<Comment>,
    loading: bool,
    error: Option<string>)

  const NotFoundError: string := "Không tìm thấy bài viết"
  const LoadError: string := "Có lỗi xảy ra khi tải bài viết"

  const InitialDetail: DetailState := DetailState(None, [], false, None)

  /** `fetchPostDetail()` once settled. `reply` is what `Promise.all` of
      `getPostById` and `getComments` gave: both raw bodies, or a rejection. */
  function FetchPostDetail(st: DetailState, postId: string,
                           reply: Result<(PS.Reply<PostItem>, PS.Reply<seq<Comment>>), string>): (s: DetailState)
    ensures !Truthy(postId) ==> s == st
    ensures Truthy(postId) ==> !s.loading
    ensures Truthy(postId) && reply.Success? && PS.Unwrap(reply.value.0).Some? ==>
              && s.post == PS.Unwrap(reply.value.0)
              && s.comments == PS.CommentsOf(reply.value.1)
              && s.error.None?
    ensures Truthy(postId) && reply.Success? && PS.Unwrap(reply.value.0).None? ==>
              s.post == st.post && s.comments == st.comments && s.error == Some(NotFoundError)
    ensures Truthy(postId) && reply.Failure? ==>
              s.post == st.post && s.comments == st.comments && s.error == Some(LoadError)
  {
    if !Truthy(postId) then st
    else
      var started := st.(loading := true, error := None);
      var finished :=
        match reply
        case Success((postReply, commentsReply)) =>
          var found := PS.Unwrap(postReply);
          if found.None? then started.(error := Some(NotFoundError))
          else started.(post := found, comments := PS.CommentsOf(commentsReply))
        case Failure(_) => started.(error := Some(LoadError));
      finished.(loading := false)
  }

  /** `refresh` is `fetchPostDetail` again: refreshing with the same reply
      leaves the screen as the first load did. */
  lemma RefreshIsIdempotent(st: DetailState, postId: string,
                            reply: Result<(PS.Reply<PostItem>, PS.Reply<seq<Comment>>), string>)
    ensures var once := FetchPostDetail(st, postId, reply);
            FetchPostDetail(once, postId, reply) == once
  {
  }

  /** The comments a load shows follow the server's list whatever its
      envelope, and a falsy comments body clears the comments shown before
      rather than keeping them. */
  lemma LoadedCommentsFollowReply(st: DetailState, postId: string, p: PostItem, cs: seq<Comment>)
    requires Truthy(postId)
    ensures FetchPostDetail(st, postId, Success((PS.WithData(p), PS.WithData(cs))))
            == FetchPostDetail(st, postId, Success((PS.Plain(p), PS.Plain(cs))))
    ensures FetchPostDetail(st, postId, Success((PS.WithData(p), PS.WithData(cs)))).comments == cs
    ensures FetchPostDetail(st, postId, Success((PS.WithData(p), PS.FalsyBody))).comments == []
  {
  }

  /** A comment added after a successful load lands after the loaded
      comments, and the loaded post's count goes up by one. */
  lemma LoadThenCommentAppends(st: DetailState, postId: string, p: PostItem, cs: seq<Comment>,
                               content: string, c: Comment)
    requires !IsBlank(content) && Truthy(postId)
    ensures var loaded := FetchPostDetail(st, postId, Success((PS.WithData(p), PS.WithData(cs))));
            var after := AddComment(loaded, postId, content, Success(Some(c)));
            && after.1
            && after.0.comments == cs + [c]
            && after.0.post == Some(p.(commentsCount := p.commentsCount + 1))
  {
  }

  /** The content `addComment` sends, or None when it returns false at once
      (no post id, or blank content). */
  function CommentRequest(postId: string, content: string): (sent: Option<string>)
    ensures sent.None? <==> !Truthy(postId) || IsBlank(content)
    ensures sent.Some? ==> sent.value == Trim(content) && Truthy(sent.value)
  {
    TrimmedTruthyIffNotBlank(content);
    if !Truthy(postId) || IsBlank(content) then None else Some(Trim(content))
  }

  /** `addComment(content)` once settled, with its boolean result. `reply` is
      the service result's `data` member: `Success(Some(c))` when it holds the
      comment `c`, `Success(None)` when it is missing, `Failure` on a throw. */
  function AddComment(st: DetailState, postId: string, content: string,
                      reply: Result<Option<Comment>, string>): (r: (DetailState, bool))
    ensures CommentRequest(postId, content).None? ==> r == (st, false)
    ensures CommentRequest(postId, content).Some? && reply.Success? && reply.value.Some? ==>
              && r.1
              && r.0.comments == st.comments + [reply.value.value]
              && (st.post.None? ==> r.0.post.None?)
              && (st.post.Some? ==>
                    && r.0.post.Some?
                    && r.0.post.value.commentsCount == st.post.value.commentsCount + 1
                    && r.0.post.value.(commentsCount := st.post.value.commentsCount) == st.post.value)
              && r.0.loading == st.loading && r.0.error == st.error
    ensures reply.Failure? || (reply.Success? && reply.value.None?) ==> r == (st, false)
  {
    if CommentRequest(postId, content).None? then (st, false)
    else
      match reply
      case Success(Some(c)) =>
        var post := if st.post.Some? then Some(st.post.value.(commentsCount := st.post.value.commentsCount + 1)) else None;
        (st.(comments := st.comments + [c], post := post), true)
      case Success(None) => (st, false)
      case Failure(_) => (st, false)
  }

  /** Each successful `addComment` appends one comment at the end: two of
      them leave the earlier comments in front, in order. */
  lemma TwoCommentsAppendInOrder(st: DetailState, postId: string, a: string, b: string, ca: Comment, cb: Comment)
    requires CommentRequest(postId, a).Some? && CommentRequest(postId, b).Some?
    ensures var first := AddComment(st, postId, a, Success(Some(ca))).0;
            AddComment(first, postId, b, Success(Some(cb))).0.comments == st.comments + [ca, cb]
  {
  }

  // ---------------------------------------------------------------------
  // The hook wired to the service, as written and as intended.

  /** The hook as it is wired to `PostService.addComment`: the service has
      already returned `response.data || response`, a comment record or a
      falsy body, and the hook then reads `.data` of that value, which a
      comment record does not have. `server` is the reply body of the request. */
  function AddCommentAsWired(st: DetailState, postId: string, content: string,
                             server: Result<PS.Reply<Comment>, string>): (r: (DetailState, bool))
    ensures r == (st, false)
  {
    var seen: Result<Option<Comment>, string> :=
      match server
      case Success(_) => Success(None)
      case Failure(e) => Failure(e);
    AddComment(st, postId, content, seen)
  }

  /** The discrepancy: a non-blank comment that the server accepted with a
      `{ data: comment }` reply is never shown, and the call reports failure. */
  lemma AsWiredDropsAcceptedComment(st: DetailState, postId: string, content: string, c: Comment)
    requires CommentRequest(postId, content).Some?
    ensures AddCommentAsWired(st, postId, content, Success(PS.WithData(c))).0.comments == st.comments
    ensures !AddCommentAsWired(st, postId, content, Success(PS.WithData(c))).1
    ensures AddComment(st, postId, content, Success(Some(c))).0.comments == st.comments + [c]
  {
  }

  /** The intended wiring: the hook appends the comment the service unwrapped. */
  function AddCommentIntended(st: DetailState, postId: string, content: string,
                              server: Result<PS.Reply<Comment>, string>): (r: (DetailState, bool))
    ensures CommentRequest(postId, content).Some? && server.Success? && !server.value.FalsyBody? ==>
              && r.1
              && r.0.comments == st.comments + [PS.Unwrap(server.value).value]
    ensures CommentRequest(postId, content).None? || server.Failure? || server.value.FalsyBody? ==>
              r == (st, false)
  {
    var seen: Result<Option<Comment>, string> :=
      match server
      case Success(body) => Success(PS.Unwrap(body))
      case Failure(e) => Failure(e);
    AddComment(st, postId, content, seen)
  }
}
