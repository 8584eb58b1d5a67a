/** The "new chat" dialog: a list of other users filtered by a query, and
    creating a direct chat, whose duplicate check hands `find` an async
    callback and so refuses whenever the user is in any direct chat. */
module NewChat {
  import opened Common
  import opened Tables
  import Query
  import AddFriend

  /** The candidates: 20 profiles other than the user's (all of them when
      there are fewer), in the order the backend returns them. */
  function Candidates(profiles: seq<Profile>, me: string): (r: seq<Profile>)
    ensures |r| == if |AddFriend.Others(profiles, me)| < 20 then |AddFriend.Others(profiles, me)| else 20
    ensures multiset(r) <= multiset(AddFriend.Others(profiles, me))
    ensures forall u | u in r :: u in profiles && u.id != me
  {
    var others := AddFriend.Others(profiles, me);
    var r := Query.Limit(others, 20);
    assert others == r + others[|r|..];
    assert multiset(others) == multiset(r) + multiset(others[|r|..]);
    assert forall u | u in r :: u in others;
    r
  }

  /** `filteredUsers`: unlike the friend dialog there is no blank-query
      shortcut, so only the substring test decides. */
  function FilteredUsers(users: seq<Profile>, query: string): seq<Profile> {
    Filter(users, u => AddFriend.MatchesQuery(u, Lower(query)))
  }

  /** A user is shown exactly when a name of theirs contains the query,
      ignoring ASCII case. */
  lemma FilteredUsersMeaning(users: seq<Profile>, query: string, u: Profile)
    ensures u in FilteredUsers(users, query) <==> u in users && AddFriend.MatchesQuery(u, Lower(query))
  {
  }

  /** With an empty query exactly the users having a username or a display
      name are shown. */
  lemma EmptyQueryKeepsNamed(users: seq<Profile>, u: Profile)
    ensures u in FilteredUsers(users, "") <==> u in users && (u.username.Some? || u.displayName.Some?)
  {
    if u.username.Some? {
      IncludesEmpty(Lower(u.username.value));
    }
    if u.displayName.Some? {
      IncludesEmpty(Lower(u.displayName.value));
    }
  }

  /** The lookup's result is non-empty: some membership row of the user points
      at an existing chat whose `is_group` is false. */
  predicate InDirectChat(participants: seq<ChatParticipant>, chats: seq<Chat>, me: string) {
    exists i, j | 0 <= i < |participants| && 0 <= j < |chats| ::
      participants[i].userId == Some(me) && participants[i].chatId == Some(chats[j].id) &&
      chats[j].isGroup == Some(false)
  }

  /** The chat row the dialog inserts. */
  function NewChatRow(me: string, stamp: Stamp): (c: Chat)
    ensures c.id == stamp.id && c.isGroup == Some(false) && c.createdBy == Some(me) && c.name.None?
  {
    Chat(stamp.id, None, Some(false), Some(me), stamp.at)
  }

  /** Its two participant rows: the user, then the chosen user. */
  function NewMembers(chatId: string, me: string, other: string): seq<ChatParticipant> {
    [ChatParticipant(Some(chatId), Some(me)), ChatParticipant(Some(chatId), Some(other))]
  }

  /** Once a direct chat has been created the user is in a direct chat, so
      every later creation is refused, whoever the partner. */
  lemma CreatedChatBlocksNext(participants: seq<ChatParticipant>, chats: seq<Chat>, me: string, other: string, stamp: Stamp)
    ensures InDirectChat(participants + NewMembers(stamp.id, me, other), chats + [NewChatRow(me, stamp)], me)
  {
    var ps := participants + NewMembers(stamp.id, me, other);
    var cs := chats + [NewChatRow(me, stamp)];
    assert ps[|participants|].userId == Some(me) && ps[|participants|].chatId == Some(cs[|chats|].id);
  }

  /** A fresh chat id names exactly the two new members. */
  lemma {:induction false} NewChatMembership(participants: seq<ChatParticipant>, me: string, other: string, id: string)
    requires forall i | 0 <= i < |participants| :: participants[i].chatId != Some(id)
    ensures Filter(participants + NewMembers(id, me, other), (p: ChatParticipant) => p.chatId == Some(id)) ==
      NewMembers(id, me, other)
  {
    var p := (q: ChatParticipant) => q.chatId == Some(id);
    FilterConcat(participants, NewMembers(id, me, other), p);
    FilterNone(participants, p);
    FilterAll(NewMembers(id, me, other), p);
  }

  /** How `createDirectChat` ends. */
  datatype Outcome = NoUser | Refused | ChatFailed | MembersFailed | Created

  class NewChatDialog {
    const db: Database
    const user: Option<AuthUser>
    var open: bool
    var users: seq<Profile>
    var searchQuery: string
    var loading: bool

    constructor (db: Database, user: Option<AuthUser>, open: bool)
      ensures this.db == db && this.user == user && this.open == open
      ensures users == [] && searchQuery == "" && !loading
    {
      this.db := db;
      this.user := user;
      this.open := open;
      users, searchQuery, loading := [], "", false;
    }

    method FetchUsers(fetchOk: bool)
      modifies this`users
      ensures user.Some? && fetchOk ==> users == Candidates(db.profiles, user.value.id)
      ensures !(user.Some? && fetchOk) ==> users == old(users)
    {
      if user.Some? && fetchOk {
        users := Candidates(db.profiles, user.value.id);
      }
    }

    /** `lookupOk` is whether the membership lookup returned data (its error
        is not checked), `chatStamp` the new chat's id and time or `None`
        when its insert fails, `membersOk` the participant insert's outcome.
        Nothing is rolled back: a failed participant insert leaves the chat
        row behind. */
    method CreateDirectChat(other: string, lookupOk: bool, chatStamp: Option<Stamp>, membersOk: bool)
      returns (outcome: Outcome)
      modifies this`loading, this`open, db`chats, db`chatParticipants
      ensures user.None? <==> outcome == NoUser
      ensures user.None? ==> loading == old(loading)
      ensures user.Some? ==> !loading
      ensures outcome == Refused <==> user.Some? && lookupOk && InDirectChat(old(db.chatParticipants), old(db.chats), user.value.id)
      ensures outcome == ChatFailed <==>
        user.Some? && !(lookupOk && InDirectChat(old(db.chatParticipants), old(db.chats), user.value.id)) && chatStamp.None?
      ensures outcome in {NoUser, Refused, ChatFailed} ==>
        db.chats == old(db.chats) && db.chatParticipants == old(db.chatParticipants) && open == old(open)
      ensures outcome in {MembersFailed, Created} ==>
        chatStamp.Some? && db.chats == old(db.chats) + [NewChatRow(user.value.id, chatStamp.value)]
      ensures outcome == MembersFailed <==> outcome in {MembersFailed, Created} && !membersOk
      ensures outcome == MembersFailed ==> db.chatParticipants == old(db.chatParticipants) && open == old(open)
      ensures outcome == Created ==>
        db.chatParticipants == old(db.chatParticipants) + NewMembers(chatStamp.value.id, user.value.id, other) && !open
    {
      if user.None? {
        return NoUser;
      }
      var me := user.value.id;
      loading := true;
      if lookupOk && InDirectChat(db.chatParticipants, db.chats, me) {
        loading := false;
        return Refused;
      }
      if chatStamp.None? {
        loading := false;
        return ChatFailed;
      }
      db.chats := db.chats + [NewChatRow(me, chatStamp.value)];
      if !membersOk {
        loading := false;
        return MembersFailed;
      }
      db.chatParticipants := db.chatParticipants + NewMembers(chatStamp.value.id, me, other);
      open := false;
      loading := false;
      outcome := Created;
    }
  }
}
