/** The messages page: the user's chats newest first, the selected chat's
    messages oldest first, the name and preview shown for each chat, and
    sending a message. */
module Messages {
  import opened Common
  import opened Tables
  import Query
  import Language

  /** A chat as the page loads it: the row, its participants' profiles and
      its messages. */
  datatype ChatView = ChatView(chat: Chat, participants: seq<Profile>, messages: seq<Message>)

  /** `p.profiles.id !== user?.id`: without a user every participant
      differs. */
  predicate IsOther(p: Profile, me: Option<string>) {
    me.None? || p.id != me.value
  }

  /** `participants.find(...)`: the first participant other than the user. */
  function FirstOther(ps: seq<Profile>, me: Option<string>): (r: Option<Profile>)
    ensures r.Some? ==> r.value in ps && IsOther(r.value, me)
    ensures r.Some? ==> exists i | 0 <= i < |ps| :: ps[i] == r.value && forall j | 0 <= j < i :: !IsOther(ps[j], me)
    ensures r.None? <==> forall i | 0 <= i < |ps| :: !IsOther(ps[i], me)
  {
    if ps == [] then None
    else if IsOther(ps[0], me) then Some(ps[0])
    else
      var r := FirstOther(ps[1..], me);
      assert r.Some? ==> exists i | 0 <= i < |ps| :: ps[i] == r.value && forall j | 0 <= j < i :: !IsOther(ps[j], me) by {
        if r.Some? {
          var i :| 0 <= i < |ps[1..]| && ps[1..][i] == r.value && forall j | 0 <= j < i :: !IsOther(ps[1..][j], me);
          assert ps[i + 1] == r.value;
          assert forall j | 0 <= j < i + 1 :: !IsOther(ps[j], me) by {
            forall j | 0 <= j < i + 1 ensures !IsOther(ps[j], me) {
              if j > 0 {
                assert ps[j] == ps[1..][j - 1];
              }
            }
          }
        }
      }
      r
  }

  /** `getChatName`: a group's non-empty name; otherwise the first other
      participant's display name, else username (empty strings fall
      through), else the unknown-user text. */
  function ChatName(view: ChatView, me: Option<string>, lang: Language.Lang): string {
    if view.chat.isGroup == Some(true) && Truthy(view.chat.name) then view.chat.name.value
    else
      match FirstOther(view.participants, me)
      case Some(p) =>
        if Truthy(p.displayName) then p.displayName.value
        else if Truthy(p.username) then p.username.value
        else Language.T(lang, "messages.unknownUser")
      case None => Language.T(lang, "messages.unknownUser")
  }

  /** A named group is shown by its name. */
  lemma GroupShowsName(view: ChatView, me: Option<string>, lang: Language.Lang)
    requires view.chat.isGroup == Some(true) && Truthy(view.chat.name)
    ensures ChatName(view, me, lang) == view.chat.name.value
  {
  }

  /** Outside the named-group case the name comes from the first participant
      other than the user: their display name when it is non-empty, else
      their username when that is non-empty, else (and when there is no such
      participant) the fallback key itself. */
  lemma ChatNameFromOther(view: ChatView, me: Option<string>, lang: Language.Lang)
    requires !(view.chat.isGroup == Some(true) && Truthy(view.chat.name))
    ensures var o := FirstOther(view.participants, me);
      o.Some? && Truthy(o.value.displayName) ==> ChatName(view, me, lang) == o.value.displayName.value
    ensures var o := FirstOther(view.participants, me);
      o.Some? && !Truthy(o.value.displayName) && Truthy(o.value.username) ==>
        ChatName(view, me, lang) == o.value.username.value
    ensures var o := FirstOther(view.participants, me);
      (o.None? || (!Truthy(o.value.displayName) && !Truthy(o.value.username))) ==>
        ChatName(view, me, lang) == "messages.unknownUser"
    ensures ChatName(view, me, lang) == "messages.unknownUser" || exists i | 0 <= i < |view.participants| ::
      && IsOther(view.participants[i], me)
      && (forall j | 0 <= j < i :: !IsOther(view.participants[j], me))
      && (Some(ChatName(view, me, lang)) == view.participants[i].displayName ||
          Some(ChatName(view, me, lang)) == view.participants[i].username)
  {
    Language.UndefinedKeysShowThemselves(lang);
  }

  /** A chat whose only participant is the user (and that is not a named
      group) shows the unknown-user text, never the user's own name. */
  lemma OwnEntryNeverNames(view: ChatView, me: string, lang: Language.Lang)
    requires !(view.chat.isGroup == Some(true) && Truthy(view.chat.name))
    requires forall i | 0 <= i < |view.participants| :: view.participants[i].id == me
    ensures ChatName(view, Some(me), lang) == "messages.unknownUser"
  {
    Language.UndefinedKeysShowThemselves(lang);
  }

  /** `getLastMessage`: the last message's content, unless there is none or
      it is empty. */
  function LastMessage(view: ChatView, lang: Language.Lang): string {
    if view.messages != [] && view.messages[|view.messages| - 1].content != "" then
      view.messages[|view.messages| - 1].content
    else Language.T(lang, "messages.noMessages")
  }

  /** The preview is the last message's content, or the fallback key itself
      when the chat has no message or the last one is empty. */
  lemma LastMessageMeaning(view: ChatView, lang: Language.Lang)
    ensures view.messages == [] ==> LastMessage(view, lang) == "messages.noMessages"
    ensures view.messages != [] ==>
      LastMessage(view, lang) ==
        (if view.messages[|view.messages| - 1].content == "" then "messages.noMessages"
         else view.messages[|view.messages| - 1].content)
  {
    Language.UndefinedKeysShowThemselves(lang);
  }

  /** A chat's messages, oldest first. */
  function ChatMessages(rows: seq<Message>, chatId: string): (r: seq<Message>)
    ensures forall m | m in r :: m in rows && m.chatId == Some(chatId)
    ensures forall m | m in rows && m.chatId == Some(chatId) :: m in r
    ensures forall m :: multiset(r)[m] == if m.chatId == Some(chatId) then multiset(rows)[m] else 0
    ensures Query.SortedAsc(r, (m: Message) => m.createdAt)
  {
    var mine := Filter(rows, (m: Message) => m.chatId == Some(chatId));
    FilterMultiset(rows, (m: Message) => m.chatId == Some(chatId));
    var r := Query.OrderAsc(mine, (m: Message) => m.createdAt);
    assert forall m :: m in r <==> m in multiset(mine);
    r
  }

  function ByRecentUpdate(chats: seq<ChatView>): (r: seq<ChatView>)
    ensures multiset(r) == multiset(chats)
    ensures Query.SortedDesc(r, (c: ChatView) => c.chat.updatedAt)
  {
    Query.OrderDesc(chats, (c: ChatView) => c.chat.updatedAt)
  }

  /** `sendMessage`'s guard: non-blank text, a selected chat and a user. */
  predicate CanSend(text: string, selectedChat: Option<string>, user: Option<AuthUser>) {
    !IsBlank(text) && Truthy(selectedChat) && user.Some?
  }

  class MessagesPage {
    const db: Database
    const user: Option<AuthUser>
    var chats: seq<ChatView>
    var selectedChat: Option<string>
    var messages: seq<Message>
    var newMessage: string
    var loading: bool

    constructor (db: Database, user: Option<AuthUser>)
      ensures this.db == db && this.user == user
      ensures chats == [] && selectedChat == None && messages == [] && newMessage == "" && loading
    {
      this.db := db;
      this.user := user;
      chats, selectedChat, messages, newMessage, loading := [], None, [], "", true;
    }

    /** The chats the backend returned for the user, newest update first;
        the spinner stops whatever the outcome. */
    method FetchChats(fetched: Option<seq<ChatView>>)
      modifies this`chats, this`loading
      ensures !loading
      ensures fetched.Some? ==> chats == ByRecentUpdate(fetched.value)
      ensures fetched.None? ==> chats == old(chats)
    {
      if fetched.Some? {
        chats := ByRecentUpdate(fetched.value);
      }
      loading := false;
    }

    method FetchMessages(chatId: string, fetchOk: bool)
      modifies this`messages
      ensures fetchOk ==> messages == ChatMessages(db.messages, chatId)
      ensures !fetchOk ==> messages == old(messages)
    {
      if fetchOk {
        messages := ChatMessages(db.messages, chatId);
      }
    }

    /** Selecting a non-empty chat id loads its messages. */
    method SelectChat(chatId: string, fetchOk: bool)
      modifies this`selectedChat, this`messages
      ensures selectedChat == Some(chatId)
      ensures chatId != "" && fetchOk ==> messages == ChatMessages(db.messages, chatId)
      ensures !(chatId != "" && fetchOk) ==> messages == old(messages)
    {
      selectedChat := Some(chatId);
      if chatId != "" {
        FetchMessages(chatId, fetchOk);
      }
    }

    method SetNewMessage(text: string)
      modifies this`newMessage
      ensures newMessage == text
    {
      newMessage := text;
    }

    /** The back button: no chat is selected and the loaded messages stay. */
    method DeselectChat()
      modifies this`selectedChat
      ensures selectedChat == None && !CanSend(newMessage, selectedChat, user)
    {
      selectedChat := None;
    }

    /** Stores the untrimmed text from the user in the selected chat, clears
        the input and reloads the chat; a refused or failed send changes
        nothing. */
    method SendMessage(insertOk: bool, now: int, refetchOk: bool)
      modifies this`newMessage, this`messages, db`messages
      ensures !CanSend(old(newMessage), selectedChat, user) || !insertOk ==>
        newMessage == old(newMessage) && messages == old(messages) && db.messages == old(db.messages)
      ensures CanSend(old(newMessage), selectedChat, user) && insertOk ==>
        && db.messages == old(db.messages) + [Message(selectedChat, Some(user.value.id), old(newMessage), now)]
        && newMessage == ""
        && (refetchOk ==> messages == ChatMessages(db.messages, selectedChat.value))
        && (!refetchOk ==> messages == old(messages))
    {
      if IsBlank(newMessage) || !Truthy(selectedChat) || user.None? {
        return;
      }
      if !insertOk {
        return;
      }
      db.messages := db.messages + [Message(selectedChat, Some(user.value.id), newMessage, now)];
      newMessage := "";
      FetchMessages(selectedChat.value, refetchOk);
    }
  }

  /** A sent message shows up in the reloaded chat, with its text untrimmed. */
  lemma SentMessageListed(rows: seq<Message>, chatId: string, me: string, text: string, now: int)
    ensures Message(Some(chatId), Some(me), text, now) in
      ChatMessages(rows + [Message(Some(chatId), Some(me), text, now)], chatId)
  {
  }
}
