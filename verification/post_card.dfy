/** The display derivations of components/post-card.tsx: the media gallery,
    the values handed to the toggle callbacks, and the author label. */
module PostCard {
  import opened Wrappers
  import opened Text
  import opened Models
  import PI = PostInteractions
  import PS = PostService

  /** The most tiles the gallery shows. */
  const MaxTiles: nat := 4

  /** The label shown when the author or its name is missing. */
  const DefaultAuthor: string := "Người dùng"

  /** One gallery tile: its media, and the "+N" count drawn over it, if any. */
  datatype Tile = Tile(media: Media, overlay: Option<int>)

  /** What `MediaGallery` renders: the tiles, and the URL list every tile
      hands to the image viewer. */
  datatype Gallery = Gallery(tiles: seq<Tile>, viewerUrls: seq<string>)

  /** `MediaGallery({ media })`: None when it renders nothing. */
  function MediaGallery(media: Option<seq<Media>>): (g: Option<Gallery>)
    ensures g.None? <==> media.None? || |media.value| == 0
    ensures g.Some? ==>
              && |g.value.tiles| == (if |media.value| < MaxTiles then |media.value| else MaxTiles)
              && (forall i :: 0 <= i < |g.value.tiles| ==> g.value.tiles[i].media == media.value[i])
              && (forall i :: 0 <= i < |g.value.tiles| ==>
                    (g.value.tiles[i].overlay.Some? <==> i == 3 && |media.value| > MaxTiles))
              && (forall i :: 0 <= i < |g.value.tiles| && g.value.tiles[i].overlay.Some? ==>
                    g.value.tiles[i].overlay.value == |media.value| - MaxTiles)
              && |g.value.viewerUrls| == |media.value|
              && (forall i :: 0 <= i < |media.value| ==> g.value.viewerUrls[i] == media.value[i].mediaUrl)
  {
    if media.None? || |media.value| == 0 then None
    else
      var ms := media.value;
      var shown := if |ms| < MaxTiles then ms else ms[..MaxTiles];
      var tiles := seq(|shown|, i requires 0 <= i < |shown| =>
        Tile(shown[i], if |ms| > 4 && i == 3 then Some(|ms| - 4) else None));
      Some(Gallery(tiles, seq(|ms|, i requires 0 <= i < |ms| => ms[i].mediaUrl)))
  }

  /** With more than four media, the tiles and the overlay count together
      account for every media item. */
  lemma GalleryAccountsForAllMedia(media: seq<Media>)
    requires |media| > MaxTiles
    ensures var g := MediaGallery(Some(media)).value;
            |g.tiles| + g.tiles[3].overlay.value == |media|
  {
  }

  /** `handleReactionPress` / `handleSharePress`: the arguments passed to the
      callback once the toggle request has settled, or None when it failed. */
  function ToggleCallback(post: PostItem, kind: PI.Toggle, request: Result<(), string>): (args: Option<(int, bool)>)
    ensures args.Some? <==> request.Success?
    ensures args.Some? ==> args.value.0 == post.id && args.value.1 == !PI.Flag(post, kind)
  {
    if request.Success? then Some((post.id, !PI.Flag(post, kind))) else None
  }

  /** A press on the card of `posts[i]` fed through the list's toggle
      callback: a failed request changes nothing; a successful one flips the
      pressed post's flag, applies the counter rule to every post with its
      id, and leaves every other post as it was. */
  function PressOnList(posts: seq<PostItem>, i: nat, kind: PI.Toggle, request: Result<(), string>): (r: seq<PostItem>)
    requires i < |posts|
    ensures request.Failure? ==> r == posts
    ensures request.Success? ==>
              && |r| == |posts|
              && PI.Flag(r[i], kind) == !PI.Flag(posts[i], kind)
              && (forall j :: 0 <= j < |posts| && posts[j].id != posts[i].id ==> r[j] == posts[j])
              && (forall j :: 0 <= j < |posts| && posts[j].id == posts[i].id ==>
                    r[j] == PI.ApplyToggle(posts[j], kind, !PI.Flag(posts[i], kind)))
  {
    match ToggleCallback(posts[i], kind, request)
    case None => posts
    case Some((postId, newState)) => PI.UpdateToggle(posts, kind, postId, newState)
  }

  /** The service method each toggle button calls. */
  function ToggleMethod(kind: PI.Toggle): string {
    match kind
    case Reaction => "toggleReaction"
    case Share => "toggleShare"
  }

  /** The press as written: `handleReactionPress` and `handleSharePress`
      call `PostService.toggleReaction` and `PostService.toggleShare`, which
      the service does not define, so the call throws, the callback is never
      invoked and the list never changes. */
  function PressAsWritten(posts: seq<PostItem>, i: nat, kind: PI.Toggle, request: Result<(), string>): (r: seq<PostItem>)
    requires i < |posts|
    ensures r == posts
  {
    PS.UndefinedMethodsThrow(request);
    PressOnList(posts, i, kind, PS.Call(ToggleMethod(kind), request))
  }

  /** The discrepancy: a press the server would accept toggles nothing as
      written, while the intended press flips the post's flag. */
  lemma AsWrittenPressNeverToggles(posts: seq<PostItem>, i: nat, kind: PI.Toggle)
    requires i < |posts|
    ensures PressAsWritten(posts, i, kind, Success(())) == posts
    ensures PressOnList(posts, i, kind, Success(())) != posts
  {
    var pressed := PressOnList(posts, i, kind, Success(()));
    assert PI.Flag(pressed[i], kind) != PI.Flag(posts[i], kind);
  }

  /** Two successful presses on a post whose id is unique and whose counter
      can take the step down restore the list. */
  lemma TwoPressesRestore(posts: seq<PostItem>, i: nat, kind: PI.Toggle)
    requires i < |posts| && PI.DistinctIds(posts)
    requires PI.Flag(posts[i], kind) ==> PI.Count(posts[i], kind) >= 1
    requires !PI.Flag(posts[i], kind) ==> PI.Count(posts[i], kind) >= 0
    ensures PressOnList(PressOnList(posts, i, kind, Success(())), i, kind, Success(())) == posts
  {
    var once := PressOnList(posts, i, kind, Success(()));
    var twice := PressOnList(once, i, kind, Success(()));
    forall j | 0 <= j < |posts| ensures twice[j] == posts[j] {
      if j == i {
        assert PI.SetToggle(once[i], kind, PI.Flag(posts[i], kind), PI.Count(posts[i], kind)) == posts[i];
      }
    }
  }

  /** `post.user?.name || "Người dùng"`. */
  function AuthorName(post: PostItem): (name: string)
    ensures post.user.Some? && Truthy(post.user.value.name) ==> name == post.user.value.name
    ensures post.user.None? || !Truthy(post.user.value.name) ==> name == DefaultAuthor
    ensures Truthy(name)
  {
    if post.user.Some? && Truthy(post.user.value.name) then post.user.value.name else DefaultAuthor
  }

  /** Reactions and shares change neither the author label nor the
      gallery: the card's other derivations survive every toggle. */
  lemma AuthorNameSurvivesInteractions(p: PostItem, kind: PI.Toggle, on: bool)
    ensures AuthorName(PI.ApplyToggle(p, kind, on)) == AuthorName(p)
    ensures MediaGallery(PI.ApplyToggle(p, kind, on).media) == MediaGallery(p.media)
  {
  }
}
