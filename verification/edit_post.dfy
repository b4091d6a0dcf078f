/** The edit form of app/modals/edit-post.tsx: the media URL list taken
    from the post, adding uploaded images, removing one, and saving. */
module EditPost {
  import opened Wrappers
  import opened Text
  import opened Models
  import Lists
  import PS = PostService
  import PostCard

  datatype EditForm = EditForm(content: string, mediaUrls: seq<string>, isLoading: bool)

  /** `post.media?.map(m => m.media_url) || []`. */
  function MediaUrlsOf(post: PostItem): (urls: seq<string>)
    ensures post.media.None? ==> urls == []
    ensures post.media.Some? ==>
              |urls| == |post.media.value| && forall i :: 0 <= i < |urls| ==> urls[i] == post.media.value[i].mediaUrl
  {
    match post.media
    case None => []
    case Some(ms) => seq(|ms|, i requires 0 <= i < |ms| => ms[i].mediaUrl)
  }

  /** The form's initial state for `post`. */
  function OpenEditForm(post: PostItem): (st: EditForm)
    ensures st.content == post.content && st.mediaUrls == MediaUrlsOf(post) && !st.isLoading
  {
    EditForm(post.content, MediaUrlsOf(post), false)
  }

  /** The effect run when `visible` or `post` changes: reload from the post when visible. */
  function ResetOnOpen(st: EditForm, visible: bool, post: PostItem): (s: EditForm)
    ensures visible ==> s.content == post.content && s.mediaUrls == MediaUrlsOf(post) && s.isLoading == st.isLoading
    ensures !visible ==> s == st
  {
    if visible then st.(content := post.content, mediaUrls := MediaUrlsOf(post)) else st
  }

  /** The request `editPost` receives. */
  datatype EditRequest = EditRequest(postId: int, content: string, mediaUrls: seq<string>)

  /** What `handleSave` sends, or None when the content is blank. */
  function SaveRequest(st: EditForm, postId: int): (req: Option<EditRequest>)
    ensures req.None? <==> IsBlank(st.content)
    ensures req.Some? ==> req.value == EditRequest(postId, Trim(st.content), st.mediaUrls) && Truthy(req.value.content)
  {
    TrimmedTruthyIffNotBlank(st.content);
    if IsBlank(st.content) then None else Some(EditRequest(postId, Trim(st.content), st.mediaUrls))
  }

  /** `handleSave()` once settled: the form afterwards and the post handed to
      `onPostUpdated`, if the edit succeeded. */
  function HandleSave(st: EditForm, postId: int, reply: Result<PostItem, string>): (r: (EditForm, Option<PostItem>))
    ensures SaveRequest(st, postId).None? ==> r == (st, None)
    ensures SaveRequest(st, postId).Some? ==> r.0 == st.(isLoading := false)
    ensures r.1.Some? <==> SaveRequest(st, postId).Some? && reply.Success?
    ensures r.1.Some? ==> r.1.value == reply.value
  {
    if SaveRequest(st, postId).None? then (st, None)
    else (st.(isLoading := false), if reply.Success? then Some(reply.value) else None)
  }

  /** Opening the form on a post and saving it unchanged sends the post's
      own trimmed content and its media URLs in order. */
  lemma OpenThenSaveSendsPost(post: PostItem)
    requires !IsBlank(post.content)
    ensures var req := SaveRequest(OpenEditForm(post), post.id);
            && req == Some(EditRequest(post.id, Trim(post.content), MediaUrlsOf(post)))
            && |req.value.mediaUrls| == (if post.media.Some? then |post.media.value| else 0)
  {
  }

  /** Reopening the form discards edits made to the media list: the effect
      reloads exactly the state the form was first opened with. */
  lemma ReopenDiscardsEdits(post: PostItem, index: int)
    ensures ResetOnOpen(HandleRemoveImage(OpenEditForm(post), index), true, post) == OpenEditForm(post)
  {
  }

  /** The form starts with the URLs the card's image viewer shows for the
      same post: none exactly when the card draws no gallery, and the
      viewer's list otherwise. */
  lemma EditorStartsWithViewerUrls(post: PostItem)
    ensures PostCard.MediaGallery(post.media).None? <==> MediaUrlsOf(post) == []
    ensures PostCard.MediaGallery(post.media).Some? ==>
              PostCard.MediaGallery(post.media).value.viewerUrls == MediaUrlsOf(post)
  {
    if post.media.Some? && |post.media.value| > 0 {
      assert MediaUrlsOf(post)[0] == post.media.value[0].mediaUrl;
    }
  }

  /** One picked asset: its URI and the outcome of `uploadImage` for it,
      the uploaded URL or None when that upload failed. */
  datatype PickedAsset = PickedAsset(uri: string, upload: Option<string>)

  /** Every picked asset's upload succeeded. */
  predicate AllUploaded(assets: seq<PickedAsset>) {
    forall k :: 0 <= k < |assets| ==> assets[k].upload.Some?
  }

  /** `handleAddImage()` once settled. `picked` is the picker's assets (None
      when cancelled); `Promise.all` keeps asset order and fails if any
      upload fails. */
  function HandleAddImage(st: EditForm, picked: Option<seq<PickedAsset>>): (s: EditForm)
    ensures !s.isLoading && s.content == st.content
    ensures picked.None? || !AllUploaded(picked.value) ==> s.mediaUrls == st.mediaUrls
    ensures picked.Some? && AllUploaded(picked.value) ==>
              && |s.mediaUrls| == |st.mediaUrls| + |picked.value|
              && s.mediaUrls[..|st.mediaUrls|] == st.mediaUrls
              && forall k :: 0 <= k < |picked.value| ==> s.mediaUrls[|st.mediaUrls| + k] == picked.value[k].upload.value
  {
    if picked.None? || !AllUploaded(picked.value) then st.(isLoading := false)
    else
      var assets := picked.value;
      var uploaded := seq(|assets|, k requires 0 <= k < |assets| && AllUploaded(assets) => assets[k].upload.value);
      st.(mediaUrls := st.mediaUrls + uploaded, isLoading := false)
  }

  /** `handleRemoveImage(index)`. */
  function HandleRemoveImage(st: EditForm, index: int): (s: EditForm)
    ensures 0 <= index < |st.mediaUrls| ==> s.mediaUrls == st.mediaUrls[..index] + st.mediaUrls[index + 1..]
    ensures !(0 <= index < |st.mediaUrls|) ==> s == st
    ensures s.content == st.content && s.isLoading == st.isLoading
  {
    st.(mediaUrls := Lists.RemoveAt(st.mediaUrls, index))
  }

  /** Removing the image just added, at its index, gives back the earlier list. */
  lemma AddThenRemoveRestores(st: EditForm, asset: PickedAsset)
    requires asset.upload.Some?
    ensures HandleRemoveImage(HandleAddImage(st, Some([asset])), |st.mediaUrls|).mediaUrls == st.mediaUrls
  {
    var s := HandleAddImage(st, Some([asset]));
    assert s.mediaUrls[..|st.mediaUrls|] == st.mediaUrls;
  }

  /** `handleSave` as written calls `PostService.editPost`, which the service
      does not define: the call throws before any request is sent, so the
      post is never handed to `onPostUpdated`, whatever the server would
      have answered. */
  function HandleSaveAsWritten(st: EditForm, postId: int, reply: Result<PostItem, string>): (r: (EditForm, Option<PostItem>))
    ensures r.1.None?
    ensures SaveRequest(st, postId).Some? ==> r.0 == st.(isLoading := false)
    ensures SaveRequest(st, postId).None? ==> r.0 == st
  {
    PS.UndefinedMethodsThrow(reply);
    HandleSave(st, postId, PS.Call("editPost", reply))
  }

  /** The discrepancy: a non-blank edit the server would accept updates
      nothing as written, while the intended save hands the post on. */
  lemma AsWrittenSaveNeverUpdates(st: EditForm, postId: int, p: PostItem)
    requires !IsBlank(st.content)
    ensures HandleSaveAsWritten(st, postId, Success(p)).1 == None
    ensures HandleSave(st, postId, Success(p)).1 == Some(p)
  {
  }

  /** The save button's `disabled` predicate. */
  predicate SaveDisabled(st: EditForm) {
    st.isLoading || IsBlank(st.content)
  }

  /** When idle, the button is disabled exactly when saving would be refused. */
  lemma SaveDisabledIffRefused(st: EditForm, postId: int)
    requires !st.isLoading
    ensures SaveDisabled(st) <==> SaveRequest(st, postId).None?
  {
  }
}
