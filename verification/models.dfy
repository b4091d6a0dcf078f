/** The records the client exchanges with its backend (models/post.ts,
    models/message.ts, models/user.ts). Dates are kept as the opaque strings
    the server sends; fields the client reads through `?.` are optional. */
module Models {
  import opened Wrappers

  datatype Gender = Male | Female
  datatype Role = Member | Admin
  datatype FriendStatus = Friends | OutgoingRequest | IngoingRequest

  datatype User = User(
    id: int,
    name: string,
    avatarUrl: Option<string>,
    email: Option<string>,
    gender: Option<Gender>,
    role: Role,
    disableAt: Option<string>,
    isViolated: bool,
    friendStatus: Option<FriendStatus>)

  datatype Media = Media(id: int, mediaUrl: string)

  /** A feed post. `user` and `media` are declared mandatory but the card and
      the edit form read them through `?.`, so the model lets them be absent. */
  datatype PostItem = PostItem(
    id: int,
    content: string,
    user: Option<User>,
    media: Option<seq<Media>>,
    reactionsCount: int,
    commentsCount: int,
    sharesCount: int,
    createdAt: string,
    isLiked: bool,
    isShared: bool)

  /** A comment; `childrenRecursive` is carried but never walked by the client. */
  datatype Comment = Comment(
    id: int,
    postId: int,
    content: string,
    parentCommentId: Option<int>,
    createdAt: string,
    user: User,
    isLiked: bool,
    reactionsCount: int,
    childrenRecursive: seq<Comment>)

  /** A message id is the server's number, or a temporary string. */
  datatype MessageId = ServerId(n: int) | TemporaryId(token: string)

  datatype MessageStatus = Sending | Sent | Failed

  datatype Message = Message(
    id: MessageId,
    conversationId: int,
    senderId: int,
    content: string,
    createdAt: string,
    sender: User,
    status: Option<MessageStatus>,
    tempId: Option<string>)

  datatype Participant = Participant(
    id: int,
    conversationId: int,
    userId: int,
    lastReadMessageId: int,
    user: User)

  datatype Conversation = Conversation(
    id: int,
    createdAt: string,
    name: Option<string>,
    avatarUrl: Option<string>,
    lastMessageAt: string,
    participants: seq<Participant>,
    lastMessage: Option<Message>)
}
