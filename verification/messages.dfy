/** The message hook of hooks/use-messages.ts: loading a conversation's
    messages and appending a sent message once the server has returned it. */
module Messages {
  import opened Wrappers
  import opened Models

  /** What a `catch` receives: an `Error` with its message, or any other value. */
  datatype Thrown = ErrorObject(message: string) | OtherValue

  /** `err instanceof Error ? err.message : fallback`. */
  function ErrorText(e: Thrown, fallback: string): string {
    match e
    case ErrorObject(m) => m
    case OtherValue => fallback
  }

  const FetchFallback: string := "Có lỗi xảy ra"
  const SendFallback: string := "Không thể gửi tin nhắn"

  /** What `MessageService.getMessages` resolves with. */
  datatype MessagePage = MessagePage(conversation: Conversation, messages: seq<Message>, nextCursor: Option<string>)

  datatype MessagesState = MessagesState(
    messages: seq<Message>,
    conversation: Option<Conversation>,
    loading: bool,
    error: Option<string>,
    sending: bool)

  /** The hook's initial state: loading until the first fetch settles. */
  const InitialMessages: MessagesState := MessagesState([], None, true, None, false)

  /** `fetchMessages()` once settled. */
  function FetchMessages(st: MessagesState, reply: Result<MessagePage, Thrown>): (s: MessagesState)
    ensures !s.loading && s.sending == st.sending
    ensures reply.Success? ==>
              && s.messages == reply.value.messages
              && s.conversation == Some(reply.value.conversation)
              && s.error.None?
    ensures reply.Failure? ==>
              && s.messages == st.messages
              && s.conversation == st.conversation
              && s.error == Some(ErrorText(reply.error, FetchFallback))
    ensures reply.Failure? && reply.error.OtherValue? ==> s.error == Some(FetchFallback)
  {
    var started := st.(loading := true, error := None);
    var finished :=
      match reply
      case Success(page) => started.(messages := page.messages, conversation := Some(page.conversation))
      case Failure(e) => started.(error := Some(ErrorText(e, FetchFallback)));
    finished.(loading := false)
  }

  /** `sendMessage(content)` once settled, with its boolean result; `reply`
      is the message the server created, or the rejection. */
  function SendMessage(st: MessagesState, reply: Result<Message, Thrown>): (r: (MessagesState, bool))
    ensures !r.0.sending
    ensures r.0.(messages := st.messages, error := st.error, sending := st.sending) == st
    ensures r.1 <==> reply.Success?
    ensures reply.Success? ==>
              && r.0.messages == st.messages + [reply.value]
              && r.0.error == st.error
              && r.0.conversation == st.conversation
    ensures reply.Failure? ==>
              && r.0.messages == st.messages
              && r.0.error == Some(ErrorText(reply.error, SendFallback))
  {
    var started := st.(sending := true);
    match reply
    case Success(m) => (started.(messages := started.messages + [m], sending := false), true)
    case Failure(e) => (started.(error := Some(ErrorText(e, SendFallback)), sending := false), false)
  }

  /** A failed send changes nothing a later send depends on: failing and then
      succeeding appends exactly the one message the server returned. */
  lemma FailedThenSentAppendsOnce(st: MessagesState, e: Thrown, m: Message)
    ensures SendMessage(SendMessage(st, Failure(e)).0, Success(m)).0.messages == st.messages + [m]
  {
  }

  /** A later fetch discards messages appended by earlier sends: the list is
      then exactly the server's. */
  lemma FetchReplacesSentMessages(st: MessagesState, m: Message, page: MessagePage)
    ensures FetchMessages(SendMessage(st, Success(m)).0, Success(page)).messages == page.messages
  {
  }

  /** The mount effect runs only for a truthy (non-zero) conversation id. */
  predicate FetchesOnMount(conversationId: int) {
    conversationId != 0
  }

  /** The hook's state after its mount effect has settled. */
  function Mount(conversationId: int, reply: Result<MessagePage, Thrown>): (s: MessagesState)
    ensures !FetchesOnMount(conversationId) ==> s == InitialMessages && s.loading
    ensures FetchesOnMount(conversationId) ==> !s.loading
    ensures FetchesOnMount(conversationId) && reply.Success? ==> s.messages == reply.value.messages
  {
    if FetchesOnMount(conversationId) then FetchMessages(InitialMessages, reply) else InitialMessages
  }
}
