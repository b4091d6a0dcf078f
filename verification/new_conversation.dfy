/** The new-conversation form of app/modals/new-conversation.tsx: loading
    friends, toggling who is selected, validating and assembling the create
    request. The `friends` lookup of a toggle reads the current list. */
module NewConversation {
  import opened Wrappers
  import opened Text
  import opened Models

  /** `SelectedUser`: a friend with its check mark. */
  datatype Friend = Friend(user: User, selected: bool)

  datatype ConversationForm = ConversationForm(
    friends: seq<Friend>,
    loading: bool,
    creating: bool,
    name: string,
    selectedUsers: seq<User>)

  /** The screen's state when it opens. */
  const InitialForm: ConversationForm := ConversationForm([], true, false, "", [])

  /** `loadFriends()` once settled; `reply` is the friend list or the rejection. */
  function LoadFriends(st: ConversationForm, currentUser: Option<User>, reply: Result<seq<User>, string>): (s: ConversationForm)
    ensures currentUser.None? ==> s == st
    ensures currentUser.Some? ==> !s.loading && s.(loading := st.loading, friends := st.friends) == st
    ensures currentUser.Some? && reply.Success? ==>
              && |s.friends| == |reply.value|
              && forall i :: 0 <= i < |s.friends| ==> s.friends[i] == Friend(reply.value[i], false)
    ensures currentUser.Some? && reply.Failure? ==> s.friends == st.friends
  {
    if currentUser.None? then st
    else
      match reply
      case Success(users) =>
        st.(friends := seq(|users|, i requires 0 <= i < |users| => Friend(users[i], false)), loading := false)
      case Failure(_) => st.(loading := false)
  }

  /** `friends.find(f => f.id === userId)`: the first friend with that id. */
  function FindFriend(friends: seq<Friend>, userId: int): (found: Option<User>)
    ensures found.None? <==> forall i :: 0 <= i < |friends| ==> friends[i].user.id != userId
    ensures found.Some? ==>
              exists i :: 0 <= i < |friends| && friends[i].user == found.value &&
                          forall j :: 0 <= j < i ==> friends[j].user.id != userId
    ensures found.Some? ==> found.value.id == userId
    decreases |friends|
  {
    if |friends| == 0 then None
    else if friends[0].user.id == userId then Some(friends[0].user)
    else
      var rest := FindFriend(friends[1..], userId);
      assert rest.Some? ==>
               exists i :: 0 <= i < |friends| && friends[i].user == rest.value &&
                           forall j :: 0 <= j < i ==> friends[j].user.id != userId
      by {
        if rest.Some? {
          var k :| 0 <= k < |friends[1..]| && friends[1..][k].user == rest.value &&
                   forall j :: 0 <= j < k ==> friends[1..][j].user.id != userId;
          assert friends[k + 1].user == rest.value;
          forall j | 0 <= j < k + 1 ensures friends[j].user.id != userId {
            if j > 0 {
              assert friends[j] == friends[1..][j - 1];
            }
          }
        }
      }
      rest
  }

  /** The ids of the selected users, in selection order. */
  function SelectedIds(users: seq<User>): (ids: seq<int>)
    ensures |ids| == |users|
    ensures forall i :: 0 <= i < |users| ==> ids[i] == users[i].id
  {
    seq(|users|, i requires 0 <= i < |users| => users[i].id)
  }

  /** The ids of a user list as a set: `prev.some(u => u.id === userId)` is membership in it. */
  function IdSet(users: seq<User>): set<int> {
    set i | 0 <= i < |users| :: users[i].id
  }

  /** Nobody occurs twice. */
  predicate DistinctUsers(users: seq<User>) {
    forall a, b :: 0 <= a < b < |users| ==> users[a].id != users[b].id
  }

  /** `prev.filter(u => u.id !== userId)`. */
  function Unselect(users: seq<User>, userId: int): (r: seq<User>)
    ensures forall u :: u in r <==> u in users && u.id != userId
    ensures IdSet(r) == IdSet(users) - {userId}
    ensures DistinctUsers(users) ==> DistinctUsers(r)
    decreases |users|
  {
    if |users| == 0 then []
    else
      var rest := Unselect(users[1..], userId);
      IdSetCons(users[0], users[1..]);
      assert [users[0]] + users[1..] == users;
      if users[0].id == userId then rest
      else
        IdSetCons(users[0], rest);
        assert DistinctUsers(users) ==> users[0].id !in IdSet(users[1..]);
        [users[0]] + rest
  }

  /** The filter keeps order: unselecting from a concatenation unselects
      from each part in turn, so the remaining users keep selection order and
      the request's ids follow it. */
  lemma {:induction false} UnselectDistributes(a: seq<User>, b: seq<User>, userId: int)
    ensures Unselect(a + b, userId) == Unselect(a, userId) + Unselect(b, userId)
    decreases |a|
  {
    if |a| == 0 {
      assert a + b == b;
    } else {
      assert (a + b)[1..] == a[1..] + b;
      UnselectDistributes(a[1..], b, userId);
    }
  }

  /** On one user the filter drops it exactly when it has the id. */
  lemma UnselectSingle(u: User, userId: int)
    ensures Unselect([u], userId) == (if u.id == userId then [] else [u])
  {
    assert [u][1..] == [];
  }

  /** Prepending a user adds exactly its id. */
  lemma IdSetCons(u: User, users: seq<User>)
    ensures IdSet([u] + users) == {u.id} + IdSet(users)
  {
    var s := [u] + users;
    forall id | id in IdSet(users) ensures id in IdSet(s) {
      var i :| 0 <= i < |users| && users[i].id == id;
      assert s[i + 1].id == id;
    }
    forall id | id in IdSet(s) ensures id in {u.id} + IdSet(users) {
      var i :| 0 <= i < |s| && s[i].id == id;
      if i > 0 {
        assert users[i - 1].id == id;
      }
    }
    assert s[0].id == u.id;
  }

  /** Appending a user adds exactly its id. */
  lemma IdSetSnoc(users: seq<User>, u: User)
    ensures IdSet(users + [u]) == IdSet(users) + {u.id}
  {
    var s := users + [u];
    forall id | id in IdSet(users) ensures id in IdSet(s) {
      var i :| 0 <= i < |users| && users[i].id == id;
      assert s[i].id == id;
    }
    assert s[|users|].id == u.id;
  }

  /** `toggleUserSelection(userId)`: flips the check mark of every friend with
      that id, and adds the friend at the end of the selection or removes it. */
  function ToggleUserSelection(st: ConversationForm, userId: int): (s: ConversationForm)
    ensures |s.friends| == |st.friends|
    ensures forall i :: 0 <= i < |st.friends| ==>
              && s.friends[i].user == st.friends[i].user
              && s.friends[i].selected == (if st.friends[i].user.id == userId then !st.friends[i].selected else st.friends[i].selected)
    ensures FindFriend(st.friends, userId).None? ==> s.selectedUsers == st.selectedUsers
    ensures FindFriend(st.friends, userId).Some? && userId in IdSet(st.selectedUsers) ==>
              s.selectedUsers == Unselect(st.selectedUsers, userId)
    ensures FindFriend(st.friends, userId).Some? && userId !in IdSet(st.selectedUsers) ==>
              s.selectedUsers == st.selectedUsers + [FindFriend(st.friends, userId).value]
    ensures s.(friends := st.friends, selectedUsers := st.selectedUsers) == st
  {
    var friends := seq(|st.friends|, i requires 0 <= i < |st.friends| =>
      if st.friends[i].user.id == userId then st.friends[i].(selected := !st.friends[i].selected) else st.friends[i]);
    var found := FindFriend(st.friends, userId);
    var selected :=
      if found.None? then st.selectedUsers
      else if userId in IdSet(st.selectedUsers) then Unselect(st.selectedUsers, userId)
      else st.selectedUsers + [found.value];
    st.(friends := friends, selectedUsers := selected)
  }

  /** The check marks agree with the selection. */
  predicate MarksMatchSelection(st: ConversationForm) {
    forall i :: 0 <= i < |st.friends| ==> (st.friends[i].selected <==> st.friends[i].user.id in IdSet(st.selectedUsers))
  }

  /** Every selected user is one of the friends. */
  predicate SelectionFromFriends(st: ConversationForm) {
    forall u :: u in st.selectedUsers ==> exists i :: 0 <= i < |st.friends| && st.friends[i].user == u
  }

  /** The check marks agree with the selection, every selected user is a
      friend, and nobody is selected twice. */
  predicate Consistent(st: ConversationForm) {
    MarksMatchSelection(st) && SelectionFromFriends(st) && DistinctUsers(st.selectedUsers)
  }

  /** The form is consistent once the friends have loaded. */
  lemma LoadedFormIsConsistent(currentUser: User, reply: Result<seq<User>, string>)
    ensures Consistent(LoadFriends(InitialForm, Some(currentUser), reply))
  {
  }

  /** Toggling keeps the form consistent. */
  lemma ToggleKeepsConsistent(st: ConversationForm, userId: int)
    requires Consistent(st)
    ensures Consistent(ToggleUserSelection(st, userId))
  {
    var s := ToggleUserSelection(st, userId);
    var found := FindFriend(st.friends, userId);
    if found.Some? && userId !in IdSet(st.selectedUsers) {
      IdSetSnoc(st.selectedUsers, found.value);
      assert DistinctUsers(s.selectedUsers) by {
        forall a | 0 <= a < |st.selectedUsers| ensures st.selectedUsers[a].id != userId {
          assert st.selectedUsers[a].id in IdSet(st.selectedUsers);
        }
      }
    }
    assert SelectionFromFriends(s) by {
      forall u | u in s.selectedUsers
        ensures exists i :: 0 <= i < |s.friends| && s.friends[i].user == u
      {
        var i :| 0 <= i < |st.friends| && st.friends[i].user == u;
        assert s.friends[i].user == u;
      }
    }
  }

  /** Selecting a friend and toggling it again restores the form. */
  lemma ToggleTwiceRestores(st: ConversationForm, userId: int)
    requires userId !in IdSet(st.selectedUsers)
    ensures ToggleUserSelection(ToggleUserSelection(st, userId), userId) == st
  {
    var once := ToggleUserSelection(st, userId);
    var twice := ToggleUserSelection(once, userId);
    var found := FindFriend(st.friends, userId);
    FindFriendSameUsers(st.friends, once.friends, userId);
    if found.Some? {
      IdSetSnoc(st.selectedUsers, found.value);
      UnselectAbsent(st.selectedUsers, found.value);
    }
    assert twice.friends == st.friends;
  }

  /** `find` only looks at the users, not at the check marks. */
  lemma {:induction false} FindFriendSameUsers(a: seq<Friend>, b: seq<Friend>, userId: int)
    requires |a| == |b| && forall i :: 0 <= i < |a| ==> a[i].user == b[i].user
    ensures FindFriend(a, userId) == FindFriend(b, userId)
    decreases |a|
  {
    if |a| > 0 {
      FindFriendSameUsers(a[1..], b[1..], userId);
    }
  }

  /** Removing the id just appended, when it was absent, gives back the list. */
  lemma {:induction false} UnselectAbsent(users: seq<User>, u: User)
    requires u.id !in IdSet(users)
    ensures Unselect(users + [u], u.id) == users
    decreases |users|
  {
    if |users| == 0 {
      assert Unselect([u], u.id) == [] + Unselect([], u.id);
    } else {
      assert (users + [u])[1..] == users[1..] + [u];
      assert users[0].id in IdSet(users);
      assert u.id !in IdSet(users[1..]) by {
        forall k | 0 <= k < |users[1..]| ensures users[1..][k].id != u.id {
          assert users[k + 1].id in IdSet(users);
        }
      }
      UnselectAbsent(users[1..], u);
    }
  }

  /** Why `createConversation` refuses, in the order it checks. */
  datatype CreateError = NoMembers | BlankName

  /** The request `addConversation` receives. */
  datatype CreateRequest = CreateRequest(name: string, userIds: seq<int>)

  /** `createConversation()` up to the request: its validation and payload. */
  function CreateRequestOf(st: ConversationForm): (r: Result<CreateRequest, CreateError>)
    ensures |st.selectedUsers| == 0 ==> r == Failure(NoMembers)
    ensures |st.selectedUsers| > 0 && IsBlank(st.name) ==> r == Failure(BlankName)
    ensures |st.selectedUsers| > 0 && !IsBlank(st.name) ==>
              && r.Success?
              && r.value.name == Trim(st.name) && Truthy(r.value.name)
              && |r.value.userIds| == |st.selectedUsers|
              && forall i :: 0 <= i < |st.selectedUsers| ==> r.value.userIds[i] == st.selectedUsers[i].id
  {
    TrimmedTruthyIffNotBlank(st.name);
    if |st.selectedUsers| == 0 then Failure(NoMembers)
    else if IsBlank(st.name) then Failure(BlankName)
    else Success(CreateRequest(Trim(st.name), SelectedIds(st.selectedUsers)))
  }

  /** The create button's `disabled` predicate. */
  predicate CreateDisabled(st: ConversationForm) {
    st.creating || |st.selectedUsers| == 0 || IsBlank(st.name)
  }

  /** The button is enabled exactly when no create is running and the
      validation would pass. */
  lemma CreateEnabledIffValid(st: ConversationForm)
    ensures !CreateDisabled(st) <==> !st.creating && CreateRequestOf(st).Success?
  {
  }

  /** `createConversation()` once settled: the conversation to open, if the
      server returned one with a truthy id; the form itself only stops creating. */
  function CreateConversation(st: ConversationForm, reply: Result<Conversation, string>): (r: (ConversationForm, Option<int>))
    ensures CreateRequestOf(st).Failure? ==> r == (st, None)
    ensures CreateRequestOf(st).Success? ==> r.0 == st.(creating := false)
    ensures r.1.Some? <==> CreateRequestOf(st).Success? && reply.Success? && reply.value.id != 0
    ensures r.1.Some? ==> r.1.value == reply.value.id
  {
    if CreateRequestOf(st).Failure? then (st, None)
    else
      var target := if reply.Success? && reply.value.id != 0 then Some(reply.value.id) else None;
      (st.(creating := false), target)
  }
}
