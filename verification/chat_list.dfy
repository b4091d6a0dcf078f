/** The conversation row of app/chat/index.tsx: the displayed name, the
    avatar letter and the last-message preview. */
module ChatList {
  import opened Wrappers
  import opened Text
  import opened Models

  const DefaultConversationName: string := "Cuộc trò chuyện"
  const NoMessagePreview: string := "Chưa có tin nhắn"
  const NameSeparator: string := ", "

  /** The names of the participants whose user id is not `excluded`, in order. */
  function NamesExcept(ps: seq<Participant>, excluded: int): (names: seq<string>)
    ensures |names| <= |ps|
    ensures |names| == 0 <==> forall i :: 0 <= i < |ps| ==> ps[i].userId == excluded
    ensures forall n :: n in names ==> exists i :: 0 <= i < |ps| && ps[i].userId != excluded && ps[i].user.name == n
    ensures forall i :: 0 <= i < |ps| && ps[i].userId != excluded ==> ps[i].user.name in names
    decreases |ps|
  {
    if |ps| == 0 then []
    else
      var rest := NamesExcept(ps[1..], excluded);
      assert forall n :: n in rest ==> exists i :: 0 <= i < |ps[1..]| && ps[1..][i].userId != excluded && ps[1..][i].user.name == n;
      assert forall i :: 1 <= i < |ps| ==> ps[i] == ps[1..][i - 1];
      if ps[0].userId == excluded then rest else [ps[0].user.name] + rest
  }

  /** The names keep participant order: the names of a concatenation are
      the names of each part in turn. */
  lemma {:induction false} NamesExceptDistributes(a: seq<Participant>, b: seq<Participant>, excluded: int)
    ensures NamesExcept(a + b, excluded) == NamesExcept(a, excluded) + NamesExcept(b, excluded)
    decreases |a|
  {
    if |a| == 0 {
      assert a + b == b;
    } else {
      assert (a + b)[1..] == a[1..] + b;
      NamesExceptDistributes(a[1..], b, excluded);
    }
  }

  /** One participant contributes its name exactly when it is not excluded. */
  lemma NamesExceptSingle(p: Participant, excluded: int)
    ensures NamesExcept([p], excluded) == (if p.userId == excluded then [] else [p.user.name])
  {
    assert [p][1..] == [];
  }

  /** The name chain with the participant filter keyed on `excluded`. */
  function NameExcluding(conv: Conversation, excluded: int): (name: string)
    ensures conv.name.Some? && Truthy(conv.name.value) ==> name == conv.name.value
    ensures !(conv.name.Some? && Truthy(conv.name.value)) && |NamesExcept(conv.participants, excluded)| > 0 ==>
              name == Join(NamesExcept(conv.participants, excluded), NameSeparator)
    ensures !(conv.name.Some? && Truthy(conv.name.value)) && |NamesExcept(conv.participants, excluded)| == 0 ==>
              name == DefaultConversationName
  {
    if conv.name.Some? && Truthy(conv.name.value) then conv.name.value
    else
      var names := NamesExcept(conv.participants, excluded);
      if |names| > 0 then Join(names, NameSeparator) else DefaultConversationName
  }

  /** `getConversationName()` as written: the participants left out are
      those whose user id equals the conversation's own id. */
  function ConversationNameAsWritten(conv: Conversation): (name: string)
    ensures conv.name.Some? && Truthy(conv.name.value) ==> name == conv.name.value
    ensures !(conv.name.Some? && Truthy(conv.name.value)) && |NamesExcept(conv.participants, conv.id)| > 0 ==>
              name == Join(NamesExcept(conv.participants, conv.id), NameSeparator)
    ensures !(conv.name.Some? && Truthy(conv.name.value)) &&
            (forall i :: 0 <= i < |conv.participants| ==> conv.participants[i].userId == conv.id) ==>
              name == DefaultConversationName
  {
    NameExcluding(conv, conv.id)
  }

  /** The name as intended: the viewer (`viewerId`) is the participant left out. */
  function ConversationName(conv: Conversation, viewerId: int): (name: string)
    ensures conv.name.Some? && Truthy(conv.name.value) ==> name == conv.name.value
    ensures !(conv.name.Some? && Truthy(conv.name.value)) && |NamesExcept(conv.participants, viewerId)| > 0 ==>
              name == Join(NamesExcept(conv.participants, viewerId), NameSeparator)
    ensures !(conv.name.Some? && Truthy(conv.name.value)) &&
            (forall i :: 0 <= i < |conv.participants| ==> conv.participants[i].userId == viewerId) ==>
              name == DefaultConversationName
  {
    NameExcluding(conv, viewerId)
  }

  /** An unnamed two-person chat lists the other person only. */
  lemma TwoPersonChatShowsOtherParticipant(conv: Conversation, viewerId: int, other: Participant, me: Participant)
    requires !(conv.name.Some? && Truthy(conv.name.value))
    requires conv.participants == [me, other] && me.userId == viewerId && other.userId != viewerId
    ensures ConversationName(conv, viewerId) == other.user.name
  {
    assert NamesExcept(conv.participants, viewerId) == [other.user.name] by {
      assert conv.participants[1..] == [other];
      assert conv.participants[1..][1..] == [];
    }
  }

  function SampleUser(id: int, name: string): User {
    User(id, name, None, None, None, Member, None, false, None)
  }

  /** The discrepancy: in conversation 2 between the viewer An (user 1) and
      Binh (user 2), the row as written is titled with the viewer's own name,
      because Binh's user id happens to equal the conversation id. */
  lemma AsWrittenTitlesChatWithViewer()
    ensures var an := Participant(10, 2, 1, 0, SampleUser(1, "An"));
            var binh := Participant(11, 2, 2, 0, SampleUser(2, "Binh"));
            var conv := Conversation(2, "", None, None, "", [an, binh], None);
            && ConversationNameAsWritten(conv) == "An" && ConversationName(conv, 1) == "Binh"
            && AvatarLetter(conv) == "A" && AvatarLetterIntended(conv, 1) == "B"
  {
    var an := Participant(10, 2, 1, 0, SampleUser(1, "An"));
    var binh := Participant(11, 2, 2, 0, SampleUser(2, "Binh"));
    var conv := Conversation(2, "", None, None, "", [an, binh], None);
    assert [an, binh][1..] == [binh];
    assert NamesExcept([binh], 2) == [];
    assert NamesExcept([an, binh], 2) == ["An"];
    TwoPersonChatShowsOtherParticipant(conv, 1, binh, an);
  }

  /** The avatar letter as written: the first character of the row's title
      `getConversationName()`, upper-cased. */
  function AvatarLetter(conv: Conversation): (letter: string)
    ensures |letter| <= 1
    ensures |letter| == 1 <==> |ConversationNameAsWritten(conv)| > 0
    ensures |letter| == 1 ==> letter[0] == ToUpperAscii(ConversationNameAsWritten(conv)[0])
  {
    Initial(ConversationNameAsWritten(conv))
  }

  /** The avatar letter of the corrected title. */
  function AvatarLetterIntended(conv: Conversation, viewerId: int): (letter: string)
    ensures |letter| <= 1
    ensures |letter| == 1 <==> |ConversationName(conv, viewerId)| > 0
    ensures |letter| == 1 ==> letter[0] == ToUpperAscii(ConversationName(conv, viewerId)[0])
  {
    Initial(ConversationName(conv, viewerId))
  }

  /** The avatar follows the title's fallbacks: a named chat shows its name's
      initial, and an unnamed chat with nobody else shows "C" of the default
      label. Either way the letter agrees with the intended title's whenever
      the two titles agree, as they do for every named chat. */
  lemma AvatarLetterFallbacks(conv: Conversation, viewerId: int)
    ensures conv.name.Some? && Truthy(conv.name.value) ==>
              AvatarLetter(conv) == Initial(conv.name.value) == AvatarLetterIntended(conv, viewerId)
    ensures !(conv.name.Some? && Truthy(conv.name.value)) &&
            (forall i :: 0 <= i < |conv.participants| ==> conv.participants[i].userId == conv.id) ==>
              AvatarLetter(conv) == "C"
  {
  }

  /** `conversation.last_message?.content || 'Chưa có tin nhắn'`. */
  function LastMessagePreview(conv: Conversation): (preview: string)
    ensures conv.lastMessage.Some? && Truthy(conv.lastMessage.value.content) ==> preview == conv.lastMessage.value.content
    ensures conv.lastMessage.None? || !Truthy(conv.lastMessage.value.content) ==> preview == NoMessagePreview
    ensures Truthy(preview)
  {
    if conv.lastMessage.Some? && Truthy(conv.lastMessage.value.content) then conv.lastMessage.value.content
    else NoMessagePreview
  }

  /** The preview and the title read disjoint fields: a new last message
      never renames the row, and renaming the chat never changes the preview. */
  lemma PreviewAndTitleIndependent(conv: Conversation, last: Option<Message>, name: Option<string>)
    ensures ConversationNameAsWritten(conv.(lastMessage := last)) == ConversationNameAsWritten(conv)
    ensures AvatarLetter(conv.(lastMessage := last)) == AvatarLetter(conv)
    ensures LastMessagePreview(conv.(name := name)) == LastMessagePreview(conv)
  {
  }
}
