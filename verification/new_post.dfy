/** The compose screen of app/modals/new-post.tsx: picking and removing
    images, the per-image upload progress, and posting. The picker, the
    uploader and the post request are inputs. */
module NewPost {
  import opened Wrappers
  import opened Text
  import Lists
  import PS = PostService

  datatype SelectedImage = SelectedImage(uri: string, uploading: bool, uploadedUrl: Option<string>)

  datatype NewPostForm = NewPostForm(content: string, images: seq<SelectedImage>, isPosting: bool)

  /** The value the progress callback stores in `uploadedUrl`. */
  const UploadedMarker: string := "uploaded"

  const EmptyPost: NewPostForm := NewPostForm("", [], false)

  /** `pickImages()`: the picked URIs are appended, not uploading, when the
      permission is granted and the picker was not cancelled (`picked` None). */
  function PickImages(st: NewPostForm, granted: bool, picked: Option<seq<string>>): (s: NewPostForm)
    ensures !granted || picked.None? ==> s == st
    ensures granted && picked.Some? ==>
              && |s.images| == |st.images| + |picked.value|
              && s.images[..|st.images|] == st.images
              && (forall k :: 0 <= k < |picked.value| ==>
                    s.images[|st.images| + k] == SelectedImage(picked.value[k], false, None))
              && s.content == st.content && s.isPosting == st.isPosting
  {
    if !granted || picked.None? then st
    else
      var added := seq(|picked.value|, k requires 0 <= k < |picked.value| => SelectedImage(picked.value[k], false, None));
      st.(images := st.images + added)
  }

  /** `removeImage(index)`. */
  function RemoveImage(st: NewPostForm, index: int): (s: NewPostForm)
    ensures 0 <= index < |st.images| ==> s.images == st.images[..index] + st.images[index + 1..]
    ensures !(0 <= index < |st.images|) ==> s == st
    ensures s.content == st.content && s.isPosting == st.isPosting
  {
    st.(images := Lists.RemoveAt(st.images, index))
  }

  /** Removing the image just picked, at its index, gives back the form as
      it was before the pick. */
  lemma PickThenRemoveRestores(st: NewPostForm, uri: string)
    ensures RemoveImage(PickImages(st, true, Some([uri])), |st.images|) == st
  {
    var picked := PickImages(st, true, Some([uri]));
    assert picked.images[..|st.images|] == st.images;
  }

  /** The progress callback `(completed, total)`: images before `completed`
      are uploaded, the one at `completed` is uploading, later ones are left. */
  function MarkProgress(images: seq<SelectedImage>, completed: int): (r: seq<SelectedImage>)
    ensures |r| == |images|
    ensures forall i :: 0 <= i < |images| && i < completed ==>
              r[i] == images[i].(uploading := false, uploadedUrl := Some(UploadedMarker))
    ensures forall i :: 0 <= i < |images| && i == completed ==> r[i] == images[i].(uploading := true)
    ensures forall i :: 0 <= i < |images| && i > completed ==> r[i] == images[i]
  {
    seq(|images|, i requires 0 <= i < |images| =>
      if i < completed then images[i].(uploading := false, uploadedUrl := Some(UploadedMarker))
      else if i == completed then images[i].(uploading := true)
      else images[i])
  }

  /** The images after a series of progress reports, in the order they came. */
  function ApplyProgress(images: seq<SelectedImage>, reports: seq<int>): seq<SelectedImage>
    decreases |reports|
  {
    if |reports| == 0 then images
    else ApplyProgress(MarkProgress(images, reports[0]), reports[1..])
  }

  /** Whatever progress is reported, the images keep their number, order and URIs. */
  lemma {:induction false} ProgressKeepsImages(images: seq<SelectedImage>, reports: seq<int>)
    ensures |ApplyProgress(images, reports)| == |images|
    ensures forall i :: 0 <= i < |images| ==> ApplyProgress(images, reports)[i].uri == images[i].uri
    decreases |reports|
  {
    if |reports| > 0 {
      ProgressKeepsImages(MarkProgress(images, reports[0]), reports[1..]);
    }
  }

  /** Once every image is reported complete, all are uploaded and none is uploading. */
  lemma CompletedUploadMarksAll(images: seq<SelectedImage>)
    ensures forall i :: 0 <= i < |images| ==>
              var m := MarkProgress(images, |images|)[i];
              !m.uploading && m.uploadedUrl == Some(UploadedMarker)
  {
  }

  /** The arguments `handlePost` passes to `addPost`. */
  datatype AddPostRequest = AddPostRequest(content: string, mediaUrls: seq<string>)

  /** The effect of `handlePost()`: the form afterwards, the arguments it
      calls `addPost` with (None when it does not get that far), and whether
      the post was created. */
  datatype PostAttempt = PostAttempt(form: NewPostForm, request: Option<AddPostRequest>, posted: bool)

  /** `handlePost()` once settled. `progress` are the progress reports the
      uploader made, `upload` its outcome (used only when images are
      selected), `created` the outcome of `addPost`. */
  function HandlePost(st: NewPostForm, progress: seq<int>, upload: Result<seq<string>, string>,
                      created: Result<(), string>): (a: PostAttempt)
    ensures IsBlank(st.content) ==> a == PostAttempt(st, None, false)
    ensures !IsBlank(st.content) && |st.images| == 0 ==>
              a.request == Some(AddPostRequest(Trim(st.content), []))
    ensures !IsBlank(st.content) && |st.images| > 0 && upload.Success? ==>
              a.request == Some(AddPostRequest(Trim(st.content), upload.value))
    ensures !IsBlank(st.content) && |st.images| > 0 && upload.Failure? ==> a.request.None?
    ensures a.posted <==> a.request.Some? && created.Success?
    ensures a.posted ==> a.form == EmptyPost
    ensures !IsBlank(st.content) && !a.posted ==>
              && !a.form.isPosting
              && a.form.content == st.content
              && a.form.images == (if |st.images| > 0 then ApplyProgress(st.images, progress) else st.images)
  {
    if IsBlank(st.content) then PostAttempt(st, None, false)
    else
      var images := if |st.images| > 0 then ApplyProgress(st.images, progress) else st.images;
      var failed := st.(images := images, isPosting := false);
      var urls: Result<seq<string>, string> := if |st.images| > 0 then upload else Success([]);
      match urls
      case Failure(_) => PostAttempt(failed, None, false)
      case Success(mediaUrls) =>
        var request := AddPostRequest(Trim(st.content), mediaUrls);
        if created.Success? then PostAttempt(EmptyPost, Some(request), true)
        else PostAttempt(failed, Some(request), false)
  }

  /** `handlePost` as written calls `PostService.addPost`, which the service
      does not define: the call throws once the uploads are done, so nothing
      is ever posted and the typed content stays in the form. The result's
      `request` holds the arguments the throwing call was given; no request
      reaches the server. */
  function HandlePostAsWritten(st: NewPostForm, progress: seq<int>, upload: Result<seq<string>, string>,
                               created: Result<(), string>): (a: PostAttempt)
    ensures !a.posted
    ensures a.form.content == st.content
    ensures !IsBlank(st.content) ==> !a.form.isPosting
  {
    PS.UndefinedMethodsThrow(created);
    HandlePost(st, progress, upload, PS.Call("addPost", created))
  }

  /** The discrepancy: a text-only post the server would accept is not
      created as written, while the intended handler posts it and clears
      the form. */
  lemma AsWrittenPostNeverCreated(st: NewPostForm, progress: seq<int>, upload: Result<seq<string>, string>)
    requires !IsBlank(st.content) && |st.images| == 0
    ensures var a := HandlePostAsWritten(st, progress, upload, Success(()));
            !a.posted && a.request.Some? && a.form.content == st.content
    ensures HandlePost(st, progress, upload, Success(())).posted
    ensures HandlePost(st, progress, upload, Success(())).form == EmptyPost
  {
  }

  /** The post button's `disabled` predicate. */
  predicate PostDisabled(st: NewPostForm) {
    st.isPosting || IsBlank(st.content)
  }

  /** When idle, the button is disabled exactly when posting sends no request
      even though every upload succeeds. */
  lemma PostDisabledIffRefused(st: NewPostForm, progress: seq<int>, urls: seq<string>, created: Result<(), string>)
    requires !st.isPosting
    ensures PostDisabled(st) <==> HandlePost(st, progress, Success(urls), created).request.None?
  {
  }
}
