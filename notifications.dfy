/** The notifications dialog: the user's 20 newest notifications, the unread
    badge, and marking one or all of them read both in the backend and in
    the loaded list. */
module Notifications {
  import opened Common
  import opened Tables
  import Query

  /** `!n.is_read`: a null `is_read` also shows as unread. */
  predicate IsUnread(n: Notification) {
    n.isRead != Some(true)
  }

  function UnreadCount(list: seq<Notification>): (c: nat)
    ensures c <= |list|
    ensures c == 0 <==> forall i | 0 <= i < |list| :: !IsUnread(list[i])
  {
    var unread := Filter(list, IsUnread);
    assert unread != [] ==> unread[0] in unread;
    |unread|
  }

  function MarkedRead(n: Notification): Notification {
    n.(isRead := Some(true))
  }

  /** The list after `markAllAsRead`: every entry read, nothing else changed. */
  function MarkAllRead(list: seq<Notification>): (r: seq<Notification>)
    ensures |r| == |list|
    ensures forall i | 0 <= i < |r| :: !IsUnread(r[i]) && r[i] == list[i].(isRead := r[i].isRead)
  {
    if list == [] then [] else [MarkedRead(list[0])] + MarkAllRead(list[1..])
  }

  /** The list after `markAsRead(id)`: the entries with that id are read,
      every other entry is as it was. */
  function MarkRead(list: seq<Notification>, id: string): (r: seq<Notification>)
    ensures |r| == |list|
    ensures forall i | 0 <= i < |r| :: r[i].id == list[i].id && r[i] == list[i].(isRead := r[i].isRead)
    ensures forall i | 0 <= i < |r| && list[i].id == id :: !IsUnread(r[i])
    ensures forall i | 0 <= i < |r| && list[i].id != id :: r[i] == list[i]
  {
    if list == [] then []
    else
      var head := if list[0].id == id then MarkedRead(list[0]) else list[0];
      [head] + MarkRead(list[1..], id)
  }

  /** After marking everything read the badge is gone. */
  lemma MarkAllReadClearsBadge(list: seq<Notification>)
    ensures UnreadCount(MarkAllRead(list)) == 0
  {
  }

  /** Marking the same id twice is marking it once. */
  lemma MarkReadIdempotent(list: seq<Notification>, id: string)
    ensures MarkRead(MarkRead(list, id), id) == MarkRead(list, id)
  {
  }

  /** Marking an id read lowers the badge by the number of unread entries
      carrying that id. */
  lemma {:induction false} MarkReadCount(list: seq<Notification>, id: string)
    ensures UnreadCount(MarkRead(list, id)) ==
      UnreadCount(list) - |Filter(list, (n: Notification) => IsUnread(n) && n.id == id)|
  {
    if list != [] {
      MarkReadCount(list[1..], id);
      var r := MarkRead(list, id);
      assert r[1..] == MarkRead(list[1..], id);
    }
  }

  /** The backend's `markAllAsRead` update: this user's rows with `is_read`
      false become read; a null `is_read` does not equal false and stays. */
  function BackendMarkAll(rows: seq<Notification>, me: string): (r: seq<Notification>)
    ensures |r| == |rows|
    ensures forall i | 0 <= i < |r| && rows[i].userId != Some(me) :: r[i] == rows[i]
    ensures forall i | 0 <= i < |r| && rows[i].userId == Some(me) ::
      r[i].isRead == (if rows[i].isRead == Some(false) then Some(true) else rows[i].isRead)
    ensures forall i | 0 <= i < |r| :: r[i] == rows[i].(isRead := r[i].isRead)
  {
    if rows == [] then []
    else
      var head := if rows[0].userId == Some(me) && rows[0].isRead == Some(false) then MarkedRead(rows[0]) else rows[0];
      [head] + BackendMarkAll(rows[1..], me)
  }

  /** `.eq('user_id', user.id)`: the user's notifications. */
  function Owned(rows: seq<Notification>, me: string): seq<Notification> {
    Filter(rows, (n: Notification) => n.userId == Some(me))
  }

  /** What the dialog loads: the user's 20 newest notifications (all of
      them when there are fewer), newest first; none that was left out is
      newer than one that was kept. */
  function Latest(rows: seq<Notification>, me: string): (r: seq<Notification>)
    ensures |r| == if |Owned(rows, me)| < 20 then |Owned(rows, me)| else 20
    ensures multiset(r) <= multiset(Owned(rows, me))
    ensures forall n | n in r :: n in rows && n.userId == Some(me)
    ensures Query.SortedDesc(r, (n: Notification) => n.createdAt)
    ensures forall n, k | n in multiset(Owned(rows, me)) - multiset(r) && k in r :: n.createdAt <= k.createdAt
  {
    var mine := Owned(rows, me);
    var key := (n: Notification) => n.createdAt;
    var ordered := Query.OrderDesc(mine, key);
    var r := Query.Limit(ordered, 20);
    Query.LimitSortedDesc(ordered, 20, key);
    Query.LimitDropsOlder(ordered, 20, key);
    assert forall n | n in r :: n in multiset(ordered);
    r
  }

  class NotificationsDialog {
    const db: Database
    const user: Option<AuthUser>
    var notifications: seq<Notification>
    var loading: bool

    constructor (db: Database, user: Option<AuthUser>)
      ensures this.db == db && this.user == user && notifications == [] && !loading
    {
      this.db := db;
      this.user := user;
      notifications, loading := [], false;
    }

    method FetchNotifications(fetchOk: bool)
      modifies this`notifications
      ensures user.Some? && fetchOk ==> notifications == Latest(db.notifications, user.value.id)
      ensures !(user.Some? && fetchOk) ==> notifications == old(notifications)
    {
      if user.Some? && fetchOk {
        notifications := Latest(db.notifications, user.value.id);
      }
    }

    /** Without a user nothing happens; a failed update leaves both the
        backend and the list as they were. */
    method MarkAllAsRead(updateOk: bool)
      modifies this`notifications, this`loading, db`notifications
      ensures user.None? ==> notifications == old(notifications) && loading == old(loading)
      ensures user.Some? ==> !loading
      ensures user.Some? && updateOk ==>
        && db.notifications == BackendMarkAll(old(db.notifications), user.value.id)
        && notifications == MarkAllRead(old(notifications))
      ensures !(user.Some? && updateOk) ==>
        db.notifications == old(db.notifications) && notifications == old(notifications)
    {
      if user.None? {
        return;
      }
      loading := true;
      if updateOk {
        db.notifications := BackendMarkAll(db.notifications, user.value.id);
        notifications := MarkAllRead(notifications);
      }
      loading := false;
    }

    /** Marks every row with that id read, whoever owns it. */
    method MarkAsRead(id: string, updateOk: bool)
      modifies this`notifications, db`notifications
      ensures updateOk ==>
        db.notifications == MarkRead(old(db.notifications), id) && notifications == MarkRead(old(notifications), id)
      ensures !updateOk ==> db.notifications == old(db.notifications) && notifications == old(notifications)
    {
      if updateOk {
        db.notifications := MarkRead(db.notifications, id);
        notifications := MarkRead(notifications, id);
      }
    }

    /** A click on a card: only an unread entry is marked. */
    method Click(n: Notification, updateOk: bool)
      modifies this`notifications, db`notifications
      ensures !IsUnread(n) ==> db.notifications == old(db.notifications) && notifications == old(notifications)
      ensures IsUnread(n) && updateOk ==>
        db.notifications == MarkRead(old(db.notifications), n.id) && notifications == MarkRead(old(notifications), n.id)
      ensures IsUnread(n) && !updateOk ==>
        db.notifications == old(db.notifications) && notifications == old(notifications)
    {
      if IsUnread(n) {
        MarkAsRead(n.id, updateOk);
      }
    }
  }
}
