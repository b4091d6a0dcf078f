# Social client state transitions, modelled in Dafny

This project models the client-side state logic of a React Native social
network client. That logic covers a post feed, search, post details with
comments, chat, and the compose, edit, report and new-conversation forms.
The logic lives in React hooks and form screens. Each hook callback or form
handler is written here as a pure function. It maps the state before the
call, plus the settled outcome of any remote call, to the state after it.
Remote outcomes are passed in as `Success(x)` or `Failure(e)`.

Modules follow the source files:

- `Wrappers` holds `Option` and `Result`.
- `Text` covers `String.prototype.trim`, string truthiness, `join` and the avatar initial.
- `Lists` covers removal by index.
- `Models` transcribes the records of models/post.ts, models/message.ts and models/user.ts.
- `PostInteractions` is hooks/use-post-interactions.ts.
- `Search` is hooks/use-search.ts.
- `PostService` is services/post.ts.
- `Feed` is hooks/use-posts.ts.
- `PostDetail` is hooks/use-post-detail.ts.
- `Messages` is hooks/use-messages.ts.
- `NewConversation`, `ReportPost`, `NewPost` and `EditPost` are the four form modals.
- `PostCard` is components/post-card.tsx.
- `ChatList` is app/chat/index.tsx.

"Blank" means `Trim(s) == ""`, which is the client's `!s.trim()`. `Trim`
strips the ECMAScript WhiteSpace and LineTerminator code points. A string is
"truthy" when it is not empty.

The message and comment records carry fields for optimistic sends and nested
replies: temporary ids, a send status and `children_recursive`. No code path
of the client uses them. Messages and comments are appended only after the
server answers, and comments form a flat list. The model follows the code,
so it has no optimistic or realtime reconciliation.

## Model

| member | source | states |
|---|---|---|
| Text.Trim | hooks/use-search.ts:25 | `trim` returns a contiguous slice of the input, with only whitespace cut from either end and no whitespace left at its ends |
| Text.BlankIffAllWhitespace | app/modals/new-post.tsx:60 | a string is blank exactly when every character of it is whitespace |
| Text.TrimIdempotent | hooks/use-post-detail.ts:41-44 | trimming an already trimmed string changes nothing |
| Text.JoinSnoc | app/modals/report-post.tsx:64 | joining one more element appends the separator and that element |
| Text.Join | app/modals/report-post.tsx:64 | `join` of no elements is ""; otherwise the result starts with the first element and its length is the elements' lengths plus one separator between each neighbouring pair |
| Text.Initial | app/chat/index.tsx:42 | the avatar initial is one upper-cased character for a non-empty name and empty otherwise |
| Lists.RemoveAt | app/modals/new-post.tsx:54-56 | the index filter removes exactly the element at an in-range index and keeps the rest in order; an out-of-range index removes nothing |
| PostInteractions.ApplyToggle | hooks/use-post-interactions.ts:16-22 | the flag becomes the new state; the counter goes up by one, or down by one but never below 0; no other field changes |
| PostInteractions.UpdateToggle | hooks/use-post-interactions.ts:12-42 | every post with the given id becomes exactly ApplyToggle of itself (flag set, counter one up, or one down and clamped at 0); every other post and the length are kept |
| PostInteractions.OnThenOffRestores | hooks/use-post-interactions.ts:12-25 | switching a toggle on and then off restores the list when the matching posts were off with non-negative counters |
| PostInteractions.FindIndex | hooks/use-post-interactions.ts:47 | `findIndex` gives the first position holding the id, or -1 when no post holds it |
| PostInteractions.FirstIndexIffUnseen | hooks/use-post-interactions.ts:46-48 | a post passes the dedupe filter exactly when its id does not occur earlier in the list |
| PostInteractions.KeepFirstUpToFacts | hooks/use-post-interactions.ts:44-49 | on every prefix, the filter keeps first occurrences only, in first-occurrence order, and keeps every id of the prefix |
| PostInteractions.KeepFirstDistinct | hooks/use-post-interactions.ts:44-49 | the de-duplicated list has pairwise distinct ids |
| PostInteractions.KeepFirstSameIds | hooks/use-post-interactions.ts:44-49 | the de-duplicated list has exactly the ids of the input |
| PostInteractions.KeepFirstKeepsFirstOccurrence | hooks/use-post-interactions.ts:44-49 | each kept post is the first occurrence of its id |
| PostInteractions.KeepFirstPreservesOrder | hooks/use-post-interactions.ts:44-49 | kept posts keep their relative input order |
| PostInteractions.KeepFirstOfDistinct | hooks/use-post-interactions.ts:44-49 | the filter keeps every post of a list without repeated ids |
| PostInteractions.KeepFirstIdempotent | hooks/use-post-interactions.ts:44-49 | de-duplicating twice equals de-duplicating once |
| PostInteractions.UpdatePosts | hooks/use-post-interactions.ts:44-50 | a single pass with a set of seen ids computes exactly the source's first-occurrence filter: distinct ids, the same id set |
| PostInteractions.UpdatePost | hooks/use-post-interactions.ts:52-58 | every post with the updated id becomes the updated post; the length, the positions and all other posts are kept |
| PostInteractions.UpdatePostIdempotent | hooks/use-post-interactions.ts:52-57 | replacing with the same post twice equals replacing once |
| PostInteractions.RemovePost | hooks/use-post-interactions.ts:60-64 | no post with the id remains; the remaining posts are exactly the others; a missing id changes nothing |
| PostInteractions.RemovePostDistributes | hooks/use-post-interactions.ts:60-63 | removal keeps order: what remains of a concatenation is what remains of each part, in sequence |
| PostInteractions.RemoveAfterUpdate | hooks/use-post-interactions.ts:52-63 | replacing a post and then removing its id equals removing the id |
| Search.EffectiveTerm | hooks/use-search.ts:24 | a truthy explicit query wins over the stored query |
| Search.SearchRequest | hooks/use-search.ts:24-32 | no request is made iff the effective term is blank; otherwise both requests get the trimmed, non-empty term |
| Search.StartSearch | hooks/use-search.ts:23-27 | a search that proceeds raises `isSearching` and changes nothing else; a blank one changes nothing |
| Search.HandleSearch | hooks/use-search.ts:23-42 | blank is a no-op; success replaces the results and sets `hasSearched`; failure empties the results and keeps `hasSearched`; `isSearching` ends false |
| Search.WhitespaceArgumentShadowsStoredQuery | hooks/use-search.ts:24-25 | an explicit whitespace-only query shadows the stored query, so the search does nothing |
| Search.FilteredResults | hooks/use-search.ts:44-53 | 'users' shows only users, 'posts' shows only posts, 'all' shows the results unchanged |
| Search.TotalCountSplitsByFilter | hooks/use-search.ts:55-57 | the total ignores the filter and equals the users view plus the posts view |
| Search.TotalCount | hooks/use-search.ts:55-57 | the count is 0 exactly when both result lists are empty, and is at least the size of each |
| Search.ClearSearch | hooks/use-search.ts:59-64 | the query becomes "", the results are emptied, `hasSearched` becomes false and the filter becomes 'all'; `isSearching` is kept |
| Search.ClearedSearchIgnoresStoredQuery | hooks/use-search.ts:59-64 | after clearing, a search without an argument does nothing |
| Search.UpdateResultToggle | hooks/use-search.ts:66-98 | found posts get the feed's toggle rule; users and every other field are untouched |
| PostService.Call | services/post.ts:44-102 | a method the service object defines yields the request's outcome; calling any other name throws a TypeError before a request is made |
| PostService.UndefinedMethodsThrow | services/post.ts:44-102 | `reportPost`, `editPost`, `addPost`, `toggleReaction` and `toggleShare` are not among the service's methods, so every call to them fails whatever the server would answer |
| PostService.DecimalStringRoundTrip | services/post.ts:51 | `limit.toString()` is exact: reading the decimal string back gives the limit |
| PostService.PostsParams | services/post.ts:49-53 | `limit` is always present; `cursor` is present iff a truthy cursor is passed, and then carries it unchanged; there are no other keys |
| PostService.DefaultParams | services/post.ts:49-52 | with no cursor and the default limit, the query is exactly `limit=20` |
| PostService.NormalizePage | services/post.ts:61-68 | missing data becomes []; the cursor passes through; `hasMore` iff the cursor is truthy |
| PostService.NextRequestCarriesCursorIffMore | services/post.ts:49-68 | the cursor a page returns is sent with the next request exactly when that page reports more pages |
| PostService.Unwrap | services/post.ts:74-77 | the `data`-or-body fallback gives the data member when present, else the body, and nothing for a falsy body |
| PostService.CommentsOf | services/post.ts:82-87 | the comment list falls back from data to the body to [] |
| PostService.UnwrapIgnoresEnvelope | services/post.ts:74-87 | a value sent inside `{ data }` and the same value sent bare unwrap alike, for a post and for a comment list |
| Feed.BeginFetch | hooks/use-posts.ts:15-25 | a refresh raises `refreshing`, else a truthy cursor raises `loadingMore`, else `loading` is raised; the error is cleared; the data is kept |
| Feed.BeginFetchRaisesOneFlag | hooks/use-posts.ts:17-23 | from a settled state, exactly one flag is raised |
| Feed.FetchPosts | hooks/use-posts.ts:15-46 | a refresh or cursorless fetch replaces the posts; a cursor fetch appends them; success copies the cursor and `hasMore`; failure keeps the data and sets the error; all flags end false |
| Feed.LoadMore | hooks/use-posts.ts:48-52 | the guard `!loadingMore && hasMore && nextCursor` decides; when it fails nothing changes; otherwise the page is appended after an unchanged prefix |
| Feed.CanLoadMore | hooks/use-posts.ts:48-52 | the guard holds only with a non-empty stored cursor, and never while a page is loading or when no more pages exist |
| Feed.LoadMoreSendsStoredCursor | hooks/use-posts.ts:48-52 | loadMore sends the stored cursor as the `cursor` parameter |
| Feed.Refresh | hooks/use-posts.ts:54-56 | a successful refresh replaces the list with the page |
| Feed.Mount | hooks/use-posts.ts:58-60 | the mount fetch replaces the empty list; on failure the pager stays at its initial values |
| Feed.LoadMoreAllowedIffCursor | hooks/use-posts.ts:36-52 | after a successful fetch, loadMore may fetch iff the server returned a truthy cursor |
| Feed.ExhaustedFeedIgnoresLoadMore | hooks/use-posts.ts:36-52 | once a page arrives without a truthy cursor, every later loadMore is a no-op |
| Feed.FailedLoadMoreCanRetry | hooks/use-posts.ts:38-52 | a failed loadMore keeps the cursor and the posts, and loadMore stays allowed |
| Feed.TwoLoadsAppendInOrder | hooks/use-posts.ts:32-33 | two successful loadMore calls append their pages in order |
| PostDetail.FetchPostDetail | hooks/use-post-detail.ts:12-38 | an empty id is a no-op; a found post sets the post and comments; a missing post only sets the not-found error; a failure only sets the load error; loading ends false |
| PostDetail.RefreshIsIdempotent | hooks/use-post-detail.ts:12-38 | `refresh` with the same reply as the load leaves the screen as the load did |
| PostDetail.LoadedCommentsFollowReply | hooks/use-post-detail.ts:20-31 | the comments shown after a load are the server's list whether or not it comes in a `{ data }` envelope, and a falsy comments body clears the earlier comments |
| PostDetail.LoadThenCommentAppends | hooks/use-post-detail.ts:12-55 | after a successful load, an accepted comment lands after the loaded comments and the loaded post's count rises by one |
| PostDetail.CommentRequest | hooks/use-post-detail.ts:41-44 | nothing is sent for an empty post id or blank content; otherwise the trimmed content is sent |
| PostDetail.AddComment | hooks/use-post-detail.ts:40-60 | a reply with data appends exactly that comment at the end, adds 1 to the count (a null post stays null) and returns true; anything else returns false and changes nothing |
| PostDetail.TwoCommentsAppendInOrder | hooks/use-post-detail.ts:46-48 | successive comments are appended in order after the earlier ones |
| PostDetail.AddCommentAsWired | hooks/use-post-detail.ts:44-46 | composed with the service's unwrapping, the hook returns false and changes nothing for every reply |
| PostDetail.AsWiredDropsAcceptedComment | hooks/use-post-detail.ts:44-55 | a comment accepted with a `{ data: comment }` reply is not shown, although the hook's append path would show it |
| PostDetail.AddCommentIntended | hooks/use-post-detail.ts:44-52 | wired to the unwrapped value, an accepted comment is appended and true is returned |
| Messages.FetchMessages | hooks/use-messages.ts:12-24 | success replaces the messages wholesale and sets the conversation; failure keeps them and sets the error's message or the default; loading ends false |
| Messages.SendMessage | hooks/use-messages.ts:26-38 | success appends exactly the server's message and returns true, keeping the error; failure keeps the messages, sets the error and returns false; sending ends false; `loading` and the conversation are never touched |
| Messages.FailedThenSentAppendsOnce | hooks/use-messages.ts:26-38 | a failed send followed by a successful one appends exactly one message |
| Messages.FetchReplacesSentMessages | hooks/use-messages.ts:16-18 | a later fetch discards locally appended messages in favour of the server's list |
| Messages.Mount | hooks/use-messages.ts:40-44 | the mount fetch runs only for a truthy conversation id |
| NewConversation.LoadFriends | app/modals/new-conversation.tsx:34-47 | with no signed-in user nothing changes; loaded friends all start unselected, in order; a failure keeps the list; loading ends false |
| NewConversation.FindFriend | app/modals/new-conversation.tsx:59 | `find` returns a friend iff one has the id, and then the first such friend in list order |
| NewConversation.SelectedIds | app/modals/new-conversation.tsx:84 | the request ids are the selected users' ids in selection order |
| NewConversation.Unselect | app/modals/new-conversation.tsx:64 | removing an id keeps exactly the other users and keeps the selection repeat-free |
| NewConversation.UnselectDistributes | app/modals/new-conversation.tsx:64 | the filter keeps order: what remains of a concatenation is what remains of each part, in sequence |
| NewConversation.UnselectSingle | app/modals/new-conversation.tsx:64 | a single user is removed exactly when it has the id |
| NewConversation.ToggleUserSelection | app/modals/new-conversation.tsx:49-69 | only friends with the id flip their mark; an unknown id keeps the selection; a selected id is removed; otherwise the friend is appended |
| NewConversation.LoadedFormIsConsistent | app/modals/new-conversation.tsx:41 | after loading, the marks agree with the (empty) selection |
| NewConversation.ToggleKeepsConsistent | app/modals/new-conversation.tsx:49-69 | toggling keeps marks and selection in agreement, keeps the selection among the friends, and keeps it repeat-free |
| NewConversation.ToggleTwiceRestores | app/modals/new-conversation.tsx:49-69 | toggling an unselected id twice restores the form |
| NewConversation.UnselectAbsent | app/modals/new-conversation.tsx:62-67 | removing a just-appended, previously absent id gives back the selection |
| NewConversation.CreateRequestOf | app/modals/new-conversation.tsx:71-85 | an empty selection is refused first, then a blank name; otherwise the request carries the trimmed name and the selected ids in order |
| NewConversation.CreateEnabledIffValid | app/modals/new-conversation.tsx:152-154 | the create button is enabled iff no create is running and the validation passes |
| NewConversation.CreateConversation | app/modals/new-conversation.tsx:71-104 | a refused create changes nothing; otherwise creating ends false, and the new chat is opened iff the reply has a truthy id |
| ReportPost.WithoutReason | app/modals/report-post.tsx:44 | the filter keeps exactly the other reasons |
| ReportPost.WithoutReasonDistributes | app/modals/report-post.tsx:44 | the filter keeps order: what remains of a concatenation is what remains of each part, in sequence |
| ReportPost.WithoutReasonSingle | app/modals/report-post.tsx:44 | a single reason is removed exactly when it is the given one |
| ReportPost.ReasonToggle | app/modals/report-post.tsx:41-49 | a selected reason is removed; otherwise it is appended; nothing else changes |
| ReportPost.ToggleKeepsSelectionWellFormed | app/modals/report-post.tsx:21-48 | toggling keeps the selection repeat-free, and within the offered options |
| ReportPost.ToggleTwiceRestores | app/modals/report-post.tsx:41-48 | toggling an unselected reason twice restores the form |
| ReportPost.AssembledReasons | app/modals/report-post.tsx:52-55 | the selected reasons in order, then the trimmed other reason if it is not blank |
| ReportPost.ReportPayload | app/modals/report-post.tsx:52-64 | no payload iff no reason; otherwise the reasons joined with ", " |
| ReportPost.PayloadEndsWithOtherReason | app/modals/report-post.tsx:52-64 | with both kinds of reason, the payload is the selected reasons, ", ", then the trimmed other reason |
| ReportPost.HandleSubmit | app/modals/report-post.tsx:51-79 | with a service that defines `reportPost`: with no reason, nothing changes; success clears the form; failure keeps it; loading ends false |
| ReportPost.HandleSubmitAsWritten | app/modals/report-post.tsx:51-79 | as written the report never succeeds: with a reason, the form is kept and the failure alert is shown, whatever the server would answer |
| ReportPost.AsWrittenSubmitNeverClears | app/modals/report-post.tsx:64 | a report with a reason fails and keeps its selection as written, while the intended submit clears the form on success |
| ReportPost.HandleClose | app/modals/report-post.tsx:81-85 | closing empties the selected and other reasons |
| ReportPost.SubmitDisabledIffNoReason | app/modals/report-post.tsx:99-101 | when idle, the button is disabled iff submitting would be refused |
| NewPost.PickImages | app/modals/new-post.tsx:30-51 | picked URIs are appended after the existing images, not uploading; a denied permission or a cancel changes nothing |
| NewPost.RemoveImage | app/modals/new-post.tsx:54-56 | removes exactly the image at the index and keeps the rest in order; an out-of-range index changes nothing |
| NewPost.PickThenRemoveRestores | app/modals/new-post.tsx:30-56 | removing the image just picked, at its index, gives back the form |
| NewPost.MarkProgress | app/modals/new-post.tsx:74-81 | images before `completed` are uploaded and not uploading, the one at `completed` is uploading, later ones are unchanged, and the length is kept |
| NewPost.ProgressKeepsImages | app/modals/new-post.tsx:74-81 | any series of progress reports keeps the number, order and URIs of the images |
| NewPost.CompletedUploadMarksAll | app/modals/new-post.tsx:76-80 | a full-count report marks every image uploaded |
| NewPost.HandlePost | app/modals/new-post.tsx:59-102 | with a service that defines `addPost`: blank content is refused; with no images the media list is [] and no upload happens; `addPost` gets the trimmed content; success resets the form |
| NewPost.HandlePostAsWritten | app/modals/new-post.tsx:59-102 | as written nothing is ever posted, and the typed content stays in the form |
| NewPost.AsWrittenPostNeverCreated | app/modals/new-post.tsx:87 | a text-only post is not created as written, while the intended handler posts it and resets the form |
| NewPost.PostDisabledIffRefused | app/modals/new-post.tsx:111 | when idle, the post button is disabled iff posting would send nothing |
| EditPost.MediaUrlsOf | app/modals/edit-post.tsx:35-37 | the media URLs of the post in order, or [] when media is absent |
| EditPost.OpenEditForm | app/modals/edit-post.tsx:34-38 | the form opens with the post's content and media URLs |
| EditPost.ResetOnOpen | app/modals/edit-post.tsx:41-46 | becoming visible reloads the content and URLs from the post |
| EditPost.ReopenDiscardsEdits | app/modals/edit-post.tsx:34-46 | reopening the form after removing an image gives back the form as first opened |
| EditPost.OpenThenSaveSendsPost | app/modals/edit-post.tsx:34-56 | saving the form as opened sends the post's trimmed content and all its media URLs in order |
| EditPost.EditorStartsWithViewerUrls | app/modals/edit-post.tsx:35-37 | the form starts with the URL list the card's image viewer gets; it is empty exactly when the card draws no gallery |
| EditPost.SaveRequest | app/modals/edit-post.tsx:48-56 | blank content is refused; otherwise `editPost` gets the id, the trimmed content and the current URLs |
| EditPost.HandleSave | app/modals/edit-post.tsx:48-65 | with a service that defines `editPost`: the updated post reaches the callback iff the save succeeded; loading ends false |
| EditPost.HandleSaveAsWritten | app/modals/edit-post.tsx:48-65 | as written no post ever reaches the callback; loading ends false |
| EditPost.AsWrittenSaveNeverUpdates | app/modals/edit-post.tsx:56 | a non-blank edit is not handed on as written, while the intended save hands on the server's post |
| EditPost.HandleAddImage | app/modals/edit-post.tsx:67-89 | each picked asset carries its own upload outcome; the uploaded URLs are appended in asset order when every upload succeeds; a cancel or any failed upload keeps the URLs; loading ends false |
| EditPost.HandleRemoveImage | app/modals/edit-post.tsx:91-93 | removes exactly the URL at the index and keeps the others in order |
| EditPost.AddThenRemoveRestores | app/modals/edit-post.tsx:77-93 | removing the image just added, at its index, restores the URL list |
| EditPost.SaveDisabledIffRefused | app/modals/edit-post.tsx:107-109 | when idle, the save button is disabled iff saving would be refused |
| PostCard.MediaGallery | components/post-card.tsx:34-70 | missing or empty media render nothing; at most 4 tiles, the first 4 media in order; "+N" only on tile 3 and only past 4, with N = length - 4; the viewer gets every URL in order |
| PostCard.GalleryAccountsForAllMedia | components/post-card.tsx:50-63 | the shown tiles plus the overlay count account for every media item |
| PostCard.ToggleCallback | components/post-card.tsx:112-131 | with a service that defines the toggle method: the callback fires only after the request succeeds, with the post id and the negated flag |
| PostCard.PressOnList | components/post-card.tsx:112-131 | a failed request leaves the list as it was; a successful press flips the pressed post's flag, applies the counter rule to every post with its id and keeps every other post |
| PostCard.PressAsWritten | components/post-card.tsx:112-131 | as written a press never changes the list |
| PostCard.AsWrittenPressNeverToggles | components/post-card.tsx:114 | a press the server would accept toggles nothing as written, while the intended press changes the list |
| PostCard.TwoPressesRestore | components/post-card.tsx:112-131 | two successful presses on a post with a unique id restore the list when the counter allows the step down |
| PostCard.AuthorName | components/post-card.tsx:89 | the author's name when present and non-empty, else the default label; never empty |
| PostCard.AuthorNameSurvivesInteractions | components/post-card.tsx:89 | reactions and shares change neither the author label nor the gallery |
| ChatList.NamesExcept | app/chat/index.tsx:27-29 | every name is a kept participant's and every kept participant's name appears; empty iff none is kept |
| ChatList.NamesExceptDistributes | app/chat/index.tsx:27-29 | the filter keeps order: the names of a concatenation are the names of each part, in sequence |
| ChatList.NamesExceptSingle | app/chat/index.tsx:27-29 | a single participant contributes its name exactly when its user id is not the excluded one |
| ChatList.NameExcluding | app/chat/index.tsx:23-33 | a truthy name is used as is; otherwise the other participants' names joined with ", "; otherwise the default label |
| ChatList.ConversationNameAsWritten | app/chat/index.tsx:23-33 | the fallback chain with participants filtered by the conversation's own id; when every participant's user id equals that id, the default label |
| ChatList.ConversationName | app/chat/index.tsx:23-33 | the fallback chain with the viewer left out; a chat with only the viewer gets the default label |
| ChatList.TwoPersonChatShowsOtherParticipant | app/chat/index.tsx:27-30 | an unnamed two-person chat is titled with the other person's name |
| ChatList.AsWrittenTitlesChatWithViewer | app/chat/index.tsx:27 | as written, a concrete chat is titled with the viewer's own name |
| ChatList.AvatarLetter | app/chat/index.tsx:42 | the avatar shows the initial of the title as written, so it follows the same filtering by the conversation's id |
| ChatList.AvatarLetterIntended | app/chat/index.tsx:42 | the avatar with the viewer left out agrees with the intended title |
| ChatList.AvatarLetterFallbacks | app/chat/index.tsx:23-42 | a named chat shows its name's initial both ways; an unnamed chat whose participants all carry the conversation's id shows the default label's initial |
| ChatList.PreviewAndTitleIndependent | app/chat/index.tsx:23-57 | the preview line depends only on the last message and the title only on the name and participants |
| ChatList.LastMessagePreview | app/chat/index.tsx:57 | the last message's content when present and non-empty, else the default text; never empty |

## Left out

- Realtime delivery is not modelled: services/websocket.ts, hooks/use-websocket.ts, hooks/use-chat-websocket.ts and components/websocket-status.tsx form a network subscription client. Its channel listens for the event name 'MessageSent' (hooks/use-chat-websocket.ts:48). When the conversation id becomes falsy, the teardown stops listening for '.MessageSent' (hooks/use-chat-websocket.ts:30). The channel switch and the unmount cleanup stop listening for 'MessageSent' (hooks/use-chat-websocket.ts:41 and :55). That mismatch is noted here but not modelled.
- Optimistic messages with temporary ids, and nested comment replies, are not modelled. Only record fields exist for them (models/message.ts:24-32, models/post.ts:38), and no code uses those fields.
- HTTP, token storage and session are I/O, so they are left out (services/api.ts, services/auth.ts, hooks/use-auth-context.tsx, hooks/use-auth.ts). So are the thin REST wrappers services/message.ts, services/search.ts, services/friendship.ts and services/user.ts. Their results are inputs to the transitions. A body of `null` makes a property read throw; the model folds that into `Failure`.
- Image picking and upload (services/cloudinary.ts, expo-image-picker) are inputs. The picker's 10-image selection limit is the picker's own. In NewPost.HandlePost the progress reports arrive as a given sequence, because their real order depends on upload completion order.
- Floats and dates are left out: gallery tile sizes, `formatTime`, locale date formatting and app/modals/image-viewer.tsx.
- Alerts and navigation (`Alert.alert`, `router.back`/`push`, `onClose`, `onReportSuccess`) are left out. The only exception is the conversation id that NewConversation.CreateConversation opens.
- Presentation-only screens hold no state logic, so they are left out. These are app/_layout.tsx, app/modals/_layout.tsx, app/+not-found.tsx and app/index.tsx. Also app/modals/edit-profile.tsx (its save does nothing), app/post/comments.tsx (fixed sample data) and app/modals/reactions-shares-modal.tsx. Also the search components and every style sheet.
- The development scripts services/api-test.ts and utils/test-api.ts are left out. They call client methods that do not exist.
- React scheduling is not modelled. Each handler is one sequential transition from the state before to the settled state. Batching and overlapping calls are not modelled. The `friends` closure read by the selection toggle (app/modals/new-conversation.tsx:59) is modelled as a read of the current list.
- The plain setters `setSearchQuery` and `setActiveFilter` (hooks/use-search.ts:102-107) are field assignments and get no separate member.
- app/chat/[id].tsx reads message pagination fields (`loadingMore`, `hasMore`, `loadMoreMessages`) that hooks/use-messages.ts does not return, so message pagination has no model.
- Text.Initial: upper-cases the ASCII letters only. Full Unicode `toUpperCase` mappings, some of which change length, are not modelled. Strings here are sequences of Unicode scalar values, while `charAt(0)` returns the first UTF-16 code unit. So for a title starting with a character outside the Basic Multilingual Plane, such as an emoji, the source shows a lone high surrogate and the model shows the whole character.
- PostService.Unwrap: an envelope whose `data` member is present but null is treated as absent. In that case the source would return the envelope object itself.
- Messages.Mount: the conversation id is an integer. The `NaN` that `parseInt` can produce is not modelled. `NaN` is falsy, just like 0.

## Findings

| source | as written | input that shows it | evidently intended | confidence | as-written member | corrected member |
|---|---|---|---|---|---|---|
| app/chat/index.tsx:27 | leaves out participants whose `user_id` equals `conversation.id` | unnamed conversation 2 between the viewer An (user 1) and Binh (user 2) is titled "An", and its avatar shows "A" (ChatList.AvatarLetter follows the same title) | leave out the viewer, as the chat screen does with `user?.id` (app/chat/[id].tsx:35), so the title is "Binh" | high; not executed | ChatList.AsWrittenTitlesChatWithViewer | ChatList.ConversationName |
| hooks/use-post-detail.ts:46 | tests `response.data` on the value that services/post.ts:94 has already unwrapped | a non-blank comment the server accepts with `{ data: comment }` (or a bare comment) returns false and is not appended | append the comment the service returned and count it | medium, because only a doubly wrapped reply reaches the append; not executed | PostDetail.AsWiredDropsAcceptedComment | PostDetail.AddCommentIntended |
| app/modals/report-post.tsx:64 | calls `PostService.reportPost`, which services/post.ts does not define | any report with a selected reason: the call throws a TypeError, the failure alert shows and the form is kept | call a service method that sends the report | high, because type annotations are not checked at run time; not executed | ReportPost.AsWrittenSubmitNeverClears | ReportPost.HandleSubmit |
| app/modals/edit-post.tsx:56 | calls `PostService.editPost`, which services/post.ts does not define | saving any non-blank edit: the call throws and `onPostUpdated` is never called | call a service method that sends the edit | high, because type annotations are not checked at run time; not executed | EditPost.AsWrittenSaveNeverUpdates | EditPost.HandleSave |
| app/modals/new-post.tsx:87 | calls `PostService.addPost`, which services/post.ts does not define | posting the text "hi" with no images: the call throws and nothing is created | call a service method that creates the post | high, because type annotations are not checked at run time; not executed | NewPost.AsWrittenPostNeverCreated | NewPost.HandlePost |
| components/post-card.tsx:114 | calls `PostService.toggleReaction` (and `toggleShare` at :125), which services/post.ts does not define | pressing the like or share button on any post: the call throws and the list never changes | call a service method that toggles the reaction or share | high, because type annotations are not checked at run time; not executed | PostCard.AsWrittenPressNeverToggles | PostCard.PressOnList |
