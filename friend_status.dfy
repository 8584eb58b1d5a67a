/** The friend-relationship hook: derives how the signed-in user (the viewer)
    stands towards one target user from the `friends` table, and sends,
    accepts and removes requests. The table has no uniqueness constraint, so
    several rows may connect the same pair; a request is "pending" whenever its
    status is anything but 'accepted' (including null); there is no decline. */
module FriendStatus {
  import opened Common
  import opened Tables

  /** The hook's `status`: 'none' is `Unrelated`. */
  datatype FriendStatus = Unrelated | PendingSent | PendingReceived | Friends

  const Accepted: string := "accepted"
  const Pending: string := "pending"

  /** The column default of `notifications.is_read`, which inserts leave out. */
  const DefaultIsRead: Option<bool> := Some(false)

  /** The row is a request between `a` and `b`, in either direction. */
  predicate Between(r: FriendRow, a: string, b: string) {
    || (r.userId == Some(a) && r.friendId == Some(b))
    || (r.userId == Some(b) && r.friendId == Some(a))
  }

  /** The rows the pair lookup matches. */
  function PairRows(rows: seq<FriendRow>, a: string, b: string): seq<FriendRow> {
    Filter(rows, r => Between(r, a, b))
  }

  /** `.single()`: the row when exactly one matched; otherwise the call
      reports an error and no data. */
  function Single(rows: seq<FriendRow>): (r: Option<FriendRow>)
    ensures r.Some? <==> |rows| == 1
    ensures r.Some? ==> r.value == rows[0]
  {
    if |rows| == 1 then Some(rows[0]) else None
  }

  /** The status one row gives the viewer. */
  function Derive(row: Option<FriendRow>, viewer: string): FriendStatus {
    match row
    case None => Unrelated
    case Some(r) =>
      if r.status == Some(Accepted) then Friends
      else if r.userId == Some(viewer) then PendingSent
      else PendingReceived
  }

  /** The status `checkFriendStatus` settles on once it has queried the table
      (`lookupOk` is false when the query fails for a reason other than the
      number of rows). */
  function LookupStatus(rows: seq<FriendRow>, viewer: string, target: string, lookupOk: bool): FriendStatus {
    if lookupOk then Derive(Single(PairRows(rows, viewer, target)), viewer) else Unrelated
  }

  /** What each kind of row means to the viewer. */
  lemma DeriveCases(r: FriendRow, viewer: string)
    ensures Derive(None, viewer) == Unrelated
    ensures r.status == Some(Accepted) ==> Derive(Some(r), viewer) == Friends
    ensures r.status != Some(Accepted) && r.userId == Some(viewer) ==> Derive(Some(r), viewer) == PendingSent
    ensures r.status != Some(Accepted) && r.userId != Some(viewer) ==> Derive(Some(r), viewer) == PendingReceived
  {
  }

  /** One row between two different users looks like a sent request to one of
      them exactly when it looks like a received request to the other, and
      like a friendship to both or neither. */
  lemma DeriveSwapsViewers(r: FriendRow, a: string, b: string)
    requires a != b && Between(r, a, b)
    ensures Derive(Some(r), a) == PendingSent <==> Derive(Some(r), b) == PendingReceived
    ensures Derive(Some(r), a) == PendingReceived <==> Derive(Some(r), b) == PendingSent
    ensures Derive(Some(r), a) == Friends <==> Derive(Some(r), b) == Friends
    ensures Derive(Some(r), a) != Unrelated
  {
  }

  /** The lookup matches the same rows from either side. */
  lemma PairRowsSymmetric(rows: seq<FriendRow>, a: string, b: string)
    ensures PairRows(rows, a, b) == PairRows(rows, b, a)
  {
    FilterSame(rows, r => Between(r, a, b), r => Between(r, b, a));
  }

  /** Viewer `a` looking at `b` and viewer `b` looking at `a` see the two ends
      of the same relationship. */
  lemma LookupSymmetric(rows: seq<FriendRow>, a: string, b: string, lookupOk: bool)
    requires a != b
    ensures LookupStatus(rows, a, b, lookupOk) == PendingSent <==> LookupStatus(rows, b, a, lookupOk) == PendingReceived
    ensures LookupStatus(rows, a, b, lookupOk) == Friends <==> LookupStatus(rows, b, a, lookupOk) == Friends
    ensures LookupStatus(rows, a, b, lookupOk) == Unrelated <==> LookupStatus(rows, b, a, lookupOk) == Unrelated
  {
    PairRowsSymmetric(rows, a, b);
    var m := PairRows(rows, a, b);
    if lookupOk && |m| == 1 {
      assert m[0] in m;
      DeriveSwapsViewers(m[0], a, b);
    }
  }

  /** A failed query, no row or several rows all end in 'none'. */
  lemma LookupUnrelated(rows: seq<FriendRow>, viewer: string, target: string, lookupOk: bool)
    ensures !lookupOk || |PairRows(rows, viewer, target)| != 1 ==> LookupStatus(rows, viewer, target, lookupOk) == Unrelated
  {
  }

  /** The row `sendFriendRequest` inserts. */
  function RequestRow(viewer: string, target: string): FriendRow {
    FriendRow(Some(viewer), Some(target), Some(Pending))
  }

  /** The notification `sendFriendRequest` inserts for the target; the sender
      is named by their display name, or by their e-mail when it is missing or
      empty. */
  function RequestNotification(sender: AuthUser, target: string, stamp: Stamp): (n: Notification)
    ensures n.userId == Some(target) && n.kind == "friend_request" && n.data == FromUser(sender.id)
  {
    var senderName := if Truthy(sender.displayName) then sender.displayName.value else sender.email;
    Notification(stamp.id, Some(target), "friend_request", "New Friend Request",
                 senderName + " sent you a friend request", FromUser(sender.id), DefaultIsRead, stamp.at)
  }

  /** The rows `removeFriend` leaves: everything not between the pair. */
  function WithoutPair(rows: seq<FriendRow>, a: string, b: string): seq<FriendRow> {
    Filter(rows, r => !Between(r, a, b))
  }

  /** The rows `acceptFriendRequest` marks: requests from `target` to `viewer`. */
  predicate Incoming(r: FriendRow, viewer: string, target: string) {
    r.userId == Some(target) && r.friendId == Some(viewer)
  }

  function AcceptIncoming(rows: seq<FriendRow>, viewer: string, target: string): (r: seq<FriendRow>)
    ensures |r| == |rows|
    ensures forall i | 0 <= i < |rows| ::
      r[i] == if Incoming(rows[i], viewer, target) then rows[i].(status := Some(Accepted)) else rows[i]
  {
    seq(|rows|, i requires 0 <= i < |rows| =>
      if Incoming(rows[i], viewer, target) then rows[i].(status := Some(Accepted)) else rows[i])
  }

  /** On a pair with no row yet, a sent request reads as sent to the sender
      and as received to the target. */
  lemma SendThenLookup(rows: seq<FriendRow>, a: string, b: string)
    requires a != b && PairRows(rows, a, b) == []
    ensures LookupStatus(rows + [RequestRow(a, b)], a, b, true) == PendingSent
    ensures LookupStatus(rows + [RequestRow(a, b)], b, a, true) == PendingReceived
  {
    FilterConcat(rows, [RequestRow(a, b)], r => Between(r, a, b));
    assert PairRows(rows + [RequestRow(a, b)], a, b) == [RequestRow(a, b)];
    LookupSymmetric(rows + [RequestRow(a, b)], a, b, true);
  }

  /** Sending again on a pair that already has a row (a second request, a
      counter-request or a request to a friend) is not refused; it leaves two
      rows, and from then on the lookup shows 'none' to both users. */
  lemma SendAgainHidesRelationship(rows: seq<FriendRow>, a: string, b: string, lookupOk: bool)
    requires a != b && PairRows(rows, a, b) != []
    ensures LookupStatus(rows + [RequestRow(a, b)], a, b, lookupOk) == Unrelated
    ensures LookupStatus(rows + [RequestRow(a, b)], b, a, lookupOk) == Unrelated
  {
    FilterConcat(rows, [RequestRow(a, b)], r => Between(r, a, b));
    assert |PairRows(rows + [RequestRow(a, b)], a, b)| >= 2;
    LookupSymmetric(rows + [RequestRow(a, b)], a, b, lookupOk);
  }

  /** After removal no row connects the pair, so both see 'none', and every
      row between other users survives in order. */
  lemma RemoveThenLookup(rows: seq<FriendRow>, a: string, b: string, lookupOk: bool)
    requires a != b
    ensures PairRows(WithoutPair(rows, a, b), a, b) == []
    ensures LookupStatus(WithoutPair(rows, a, b), a, b, lookupOk) == Unrelated
    ensures LookupStatus(WithoutPair(rows, a, b), b, a, lookupOk) == Unrelated
    ensures forall r :: r in rows && !Between(r, a, b) ==> r in WithoutPair(rows, a, b)
  {
    var rest := WithoutPair(rows, a, b);
    FilterNone(rest, r => Between(r, a, b));
    LookupSymmetric(rest, a, b, lookupOk);
  }

  /** Accepting marks only requests from the target to the viewer, so the
      viewer's own outgoing request stays pending. */
  lemma AcceptLeavesOutgoing(rows: seq<FriendRow>, viewer: string, target: string, i: int)
    requires viewer != target && 0 <= i < |rows| && rows[i].userId == Some(viewer)
    ensures AcceptIncoming(rows, viewer, target)[i] == rows[i]
  {
  }

  /** When the pair has exactly one row and it is the target's request,
      accepting it makes both users friends. */
  lemma AcceptThenLookup(rows: seq<FriendRow>, viewer: string, target: string)
    requires viewer != target
    requires PairRows(rows, viewer, target) == [RequestRow(target, viewer)]
    ensures LookupStatus(AcceptIncoming(rows, viewer, target), viewer, target, true) == Friends
    ensures LookupStatus(AcceptIncoming(rows, viewer, target), target, viewer, true) == Friends
  {
    var acc := AcceptIncoming(rows, viewer, target);
    var m := PairRows(acc, viewer, target);
    var row := FriendRow(Some(target), Some(viewer), Some(Accepted));
    assert row in m by {
      var j :| 0 <= j < |rows| && rows[j] == RequestRow(target, viewer) by {
        assert RequestRow(target, viewer) in PairRows(rows, viewer, target);
      }
      assert acc[j] == row;
      assert row in acc;
    }
    assert |PairRows(rows, viewer, target)| == 1;
    PairRowsAcceptedCount(rows, viewer, target);
    assert m[0] in m;
    LookupSymmetric(acc, viewer, target, true);
  }

  /** Accepting keeps the number of rows of each pair. */
  lemma {:induction false} PairRowsAcceptedCount(rows: seq<FriendRow>, viewer: string, target: string)
    ensures |PairRows(AcceptIncoming(rows, viewer, target), viewer, target)| == |PairRows(rows, viewer, target)|
  {
    if rows != [] {
      PairRowsAcceptedCount(rows[1..], viewer, target);
      assert AcceptIncoming(rows, viewer, target)[1..] == AcceptIncoming(rows[1..], viewer, target);
    }
  }

  /** The hook instance for one target user. */
  class FriendStatusHook {
    const db: Database
    const user: Option<AuthUser>
    const targetUserId: string
    var status: FriendStatus
    var loading: bool

    constructor (db: Database, user: Option<AuthUser>, targetUserId: string)
      ensures this.db == db && this.user == user && this.targetUserId == targetUserId
      ensures status == Unrelated && loading
    {
      this.db := db;
      this.user := user;
      this.targetUserId := targetUserId;
      status := Unrelated;
      loading := true;
    }

    /** Signed in and a target given (empty ids are falsy). */
    predicate HasPair() {
      user.Some? && targetUserId != ""
    }

    /** `checkFriendStatus` does not query for a missing user or target or
        when the target is the viewer. */
    predicate SkipsLookup() {
      !HasPair() || user.value.id == targetUserId
    }

    method CheckFriendStatus(lookupOk: bool)
      modifies this`status, this`loading
      ensures !loading
      ensures SkipsLookup() ==> status == old(status)
      ensures !SkipsLookup() ==> status == LookupStatus(db.friends, user.value.id, targetUserId, lookupOk)
    {
      if SkipsLookup() {
        loading := false;
        return;
      }
      var matched := PairRows(db.friends, user.value.id, targetUserId);
      if !lookupOk {
        status := Unrelated;
      } else {
        status := Derive(Single(matched), user.value.id);
      }
      loading := false;
    }

    /** Inserts the request row and, unless that insert fails, a notification
        for the target whose own outcome is not checked. No check for an
        existing row or for a request to oneself. */
    method SendFriendRequest(insertOk: bool, notifyOk: bool, stamp: Stamp) returns (sent: bool)
      modifies this`status, db`friends, db`notifications
      ensures sent == (HasPair() && insertOk)
      ensures sent ==> db.friends == old(db.friends) + [RequestRow(user.value.id, targetUserId)]
      ensures sent ==> status == PendingSent
      ensures sent && notifyOk ==>
        db.notifications == old(db.notifications) + [RequestNotification(user.value, targetUserId, stamp)]
      ensures !(sent && notifyOk) ==> db.notifications == old(db.notifications)
      ensures !sent ==> db.friends == old(db.friends) && status == old(status)
    {
      if !HasPair() {
        return false;
      }
      if !insertOk {
        return false;
      }
      db.friends := db.friends + [RequestRow(user.value.id, targetUserId)];
      if notifyOk {
        db.notifications := db.notifications + [RequestNotification(user.value, targetUserId, stamp)];
      }
      status := PendingSent;
      sent := true;
    }

    /** Deletes every row between the two users, whatever its status. */
    method RemoveFriend(deleteOk: bool) returns (removed: bool)
      modifies this`status, db`friends
      ensures removed == (HasPair() && deleteOk)
      ensures removed ==> db.friends == WithoutPair(old(db.friends), user.value.id, targetUserId)
      ensures removed ==> status == Unrelated
      ensures !removed ==> db.friends == old(db.friends) && status == old(status)
    {
      if !HasPair() || !deleteOk {
        return false;
      }
      db.friends := WithoutPair(db.friends, user.value.id, targetUserId);
      status := Unrelated;
      removed := true;
    }

    /** Marks the target's requests to the viewer accepted; the status becomes
        'friends' even when no row matched. */
    method AcceptFriendRequest(updateOk: bool) returns (accepted: bool)
      modifies this`status, db`friends
      ensures accepted == (HasPair() && updateOk)
      ensures accepted ==> db.friends == AcceptIncoming(old(db.friends), user.value.id, targetUserId)
      ensures accepted ==> status == Friends
      ensures !accepted ==> db.friends == old(db.friends) && status == old(status)
    {
      if !HasPair() || !updateOk {
        return false;
      }
      db.friends := AcceptIncoming(db.friends, user.value.id, targetUserId);
      status := Friends;
      accepted := true;
    }
  }
}
