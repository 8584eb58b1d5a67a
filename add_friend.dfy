/** The "Add New Friend" dialog: a searchable list of other users, the set of
    users the signed-in user has already asked, a second way of sending a
    friend request (without a notification), and an e-mail invitation that is
    only checked against a hand-written pattern and never stored. */
module AddFriend {
  import opened Common
  import opened Tables
  import FriendStatus
  import Query

  // The invitation pattern /^[^\s@]+@[^\s@]+\.[^\s@]+$/.

  /** A non-empty run of characters that are neither white space nor '@'
      (the regular expression's `[^\s@]+`). */
  predicate Segment(x: string) {
    |x| > 0 && forall i | 0 <= i < |x| :: !IsSpace(x[i]) && x[i] != '@'
  }

  /** The pattern matches: `s` splits as local part, '@', a domain label, '.'
      and the rest, each part a `Segment`. */
  ghost predicate PatternMatches(s: string) {
    exists a, b | 0 < a < b < |s| - 1 ::
      s[a] == '@' && s[b] == '.' && Segment(s[..a]) && Segment(s[a + 1..b]) && Segment(s[b + 1..])
  }

  /** The position of the first `c` in `s`, or `|s|` when there is none. */
  function IndexOf(s: string, c: char): (k: nat)
    ensures k <= |s|
    ensures k < |s| ==> s[k] == c
    ensures forall j | 0 <= j < k :: s[j] != c
  {
    if s == [] then 0
    else if s[0] == c then 0
    else 1 + IndexOf(s[1..], c)
  }

  predicate NoSpace(s: string) {
    forall i | 0 <= i < |s| :: !IsSpace(s[i])
  }

  /** A '.' somewhere in `d` other than its first or last character. */
  predicate HasInnerDot(d: string) {
    exists j | 0 < j < |d| - 1 :: d[j] == '.'
  }

  /** The test `sendEmailInvite` applies: no white space anywhere, one '@'
      that is not the first character, and a '.' in the part after it that is
      neither that part's first nor its last character. */
  predicate IsInviteEmail(s: string) {
    var a := IndexOf(s, '@');
    && NoSpace(s)
    && 0 < a < |s|
    && '@' !in s[a + 1..]
    && HasInnerDot(s[a + 1..])
  }

  /** Every address the scan accepts matches the regular expression. */
  lemma InviteEmailIsPattern(s: string)
    requires IsInviteEmail(s)
    ensures PatternMatches(s)
  {
    var a := IndexOf(s, '@');
    var d := s[a + 1..];
    var j :| 0 < j < |d| - 1 && d[j] == '.';
    var b := a + 1 + j;
    forall i | 0 <= i < |d| ensures d[i] != '@' {
      assert d[i] in d;
    }
    assert Segment(s[..a]);
    assert s[a + 1..b] == d[..j];
    assert Segment(s[a + 1..b]);
    assert s[b + 1..] == d[j + 1..];
    assert Segment(s[b + 1..]);
  }

  /** Every address the regular expression matches passes the scan. */
  lemma PatternIsInviteEmail(s: string)
    requires PatternMatches(s)
    ensures IsInviteEmail(s)
  {
    var a, b :| 0 < a < b < |s| - 1 && s[a] == '@' && s[b] == '.' &&
      Segment(s[..a]) && Segment(s[a + 1..b]) && Segment(s[b + 1..]);
    forall i | 0 <= i < |s| ensures !IsSpace(s[i]) && (s[i] == '@' ==> i == a) {
      if i < a {
        assert s[i] == s[..a][i];
      } else if a < i < b {
        assert s[i] == s[a + 1..b][i - a - 1];
      } else if b < i {
        assert s[i] == s[b + 1..][i - b - 1];
      }
    }
    var d := s[a + 1..];
    assert d[b - a - 1] == '.';
    forall k | 0 <= k < |d| ensures d[k] != '@' {
      assert d[k] == s[a + 1 + k];
    }
  }

  /** The scan accepts exactly the strings the regular expression matches. */
  lemma InviteEmailMatchesPattern(s: string)
    ensures IsInviteEmail(s) <==> PatternMatches(s)
  {
    if IsInviteEmail(s) {
      InviteEmailIsPattern(s);
    }
    if PatternMatches(s) {
      PatternIsInviteEmail(s);
    }
  }

  /** An accepted address has exactly one '@', after a non-empty local part,
      and no white space. */
  lemma InviteEmailShape(s: string)
    requires IsInviteEmail(s)
    ensures 0 < IndexOf(s, '@') < |s|
    ensures forall k | 0 <= k < |s| :: s[k] == '@' <==> k == IndexOf(s, '@')
    ensures forall k | 0 <= k < |s| :: !IsSpace(s[k])
  {
    var a := IndexOf(s, '@');
    forall k | 0 <= k < |s| ensures s[k] == '@' <==> k == a {
      if k > a {
        assert s[k] == s[a + 1..][k - a - 1];
      }
    }
  }

  // The user list.

  /** The user matches a lower-cased query on username or display name; a
      missing name never matches. */
  predicate MatchesQuery(u: Profile, lowerQuery: string) {
    || (u.username.Some? && Includes(Lower(u.username.value), lowerQuery))
    || (u.displayName.Some? && Includes(Lower(u.displayName.value), lowerQuery))
  }

  /** A blank query keeps everyone; otherwise the query, lower-cased but not
      trimmed, must occur in a name. */
  predicate KeepUser(u: Profile, query: string) {
    IsBlank(query) || MatchesQuery(u, Lower(query))
  }

  function FilteredUsers(users: seq<Profile>, query: string): seq<Profile> {
    Filter(users, u => KeepUser(u, query))
  }

  /** A blank query shows the fetched list unchanged. */
  lemma BlankQueryKeepsAll(users: seq<Profile>, query: string)
    requires IsBlank(query)
    ensures FilteredUsers(users, query) == users
  {
    FilterAll(users, u => KeepUser(u, query));
  }

  /** With a query that is not blank, a user is shown exactly when a name of
      theirs contains it, ignoring ASCII case. */
  lemma QueryKeepsMatches(users: seq<Profile>, query: string, u: Profile)
    requires !IsBlank(query)
    ensures u in FilteredUsers(users, query) <==> u in users && MatchesQuery(u, Lower(query))
  {
  }

  /** Every profile but the signed-in user's (`.neq('id', user.id)`). */
  function Others(profiles: seq<Profile>, me: string): (r: seq<Profile>)
    ensures forall u :: u in r <==> u in profiles && u.id != me
  {
    Filter(profiles, (u: Profile) => u.id != me)
  }

  predicate Named(u: Profile) {
    u.displayName.Some?
  }

  /** The position of a profile's display name in the database's collation,
      `rank` being that collation. */
  function NameKey(rank: string -> int): Profile -> int {
    (u: Profile) => if u.displayName.Some? then rank(u.displayName.value) else 0
  }

  /** `.order('display_name')`: the profiles with a display name ascending by
      the collation `rank`, then those without one (an ascending order puts
      nulls last). */
  function ByDisplayName(users: seq<Profile>, rank: string -> int): seq<Profile> {
    Query.OrderAsc(Filter(users, Named), NameKey(rank)) + Filter(users, u => !Named(u))
  }

  /** The reordering keeps every profile, puts the named ones first and in
      collation order. */
  lemma {:induction false} ByDisplayNameOrdered(users: seq<Profile>, rank: string -> int)
    ensures multiset(ByDisplayName(users, rank)) == multiset(users)
    ensures forall i, j | 0 <= i < j < |ByDisplayName(users, rank)| && Named(ByDisplayName(users, rank)[j]) ::
      Named(ByDisplayName(users, rank)[i]) &&
      rank(ByDisplayName(users, rank)[i].displayName.value) <= rank(ByDisplayName(users, rank)[j].displayName.value)
  {
    var named := Filter(users, Named);
    var unnamed := Filter(users, u => !Named(u));
    var sorted := Query.OrderAsc(named, NameKey(rank));
    var r := ByDisplayName(users, rank);
    assert r == sorted + unnamed;
    FilterMultiset(users, Named);
    FilterMultiset(users, u => !Named(u));
    assert multiset(r) == multiset(users) by {
      forall x ensures multiset(r)[x] == multiset(users)[x] {
        assert multiset(r)[x] == multiset(named)[x] + multiset(unnamed)[x];
      }
    }
    forall i, j | 0 <= i < j < |r| && Named(r[j])
      ensures Named(r[i]) && rank(r[i].displayName.value) <= rank(r[j].displayName.value)
    {
      assert r[i] == sorted[i] && r[j] == sorted[j];
      assert sorted[i] in multiset(named);
      assert sorted[j] in multiset(named);
    }
  }

  // The "already requested" set.

  /** The `friend_id` of every row the user sent, whatever its status. */
  function RequestedIds(rows: seq<FriendRow>, me: string): (r: seq<Option<string>>)
    ensures |r| <= |rows|
  {
    var mine := Filter(rows, (row: FriendRow) => row.userId == Some(me));
    seq(|mine|, i requires 0 <= i < |mine| => mine[i].friendId)
  }

  /** A user is marked exactly when some row from the signed-in user names
      them, pending or accepted; incoming rows do not mark anyone. */
  lemma RequestedIdsMeaning(rows: seq<FriendRow>, me: string, id: string)
    ensures Some(id) in RequestedIds(rows, me) <==>
      exists i | 0 <= i < |rows| :: rows[i].userId == Some(me) && rows[i].friendId == Some(id)
  {
    var mine := Filter(rows, (row: FriendRow) => row.userId == Some(me));
    var r := RequestedIds(rows, me);
    if Some(id) in r {
      var k :| 0 <= k < |r| && r[k] == Some(id);
      assert mine[k] in mine;
    }
    if exists i | 0 <= i < |rows| :: rows[i].userId == Some(me) && rows[i].friendId == Some(id) {
      var i :| 0 <= i < |rows| && rows[i].userId == Some(me) && rows[i].friendId == Some(id);
      assert rows[i] in mine;
      var k :| 0 <= k < |mine| && mine[k] == rows[i];
      assert r[k] == Some(id);
    }
  }

  /** How `sendEmailInvite` ends. */
  datatype InviteOutcome = Skipped | Rejected | Invited

  /** The branch `sendEmailInvite` takes for the typed address. */
  function InviteOutcomeOf(signedIn: bool, input: string): InviteOutcome {
    if !signedIn || IsBlank(input) then Skipped
    else if !IsInviteEmail(input) then Rejected
    else Invited
  }

  /** The invitation is skipped exactly when nobody is signed in or the field
      is blank, and goes out exactly when the address matches the pattern. */
  lemma InviteOutcomeMeaning(signedIn: bool, input: string)
    ensures InviteOutcomeOf(signedIn, input) == Skipped <==> !signedIn || IsBlank(input)
    ensures InviteOutcomeOf(signedIn, input) == Invited <==>
      signedIn && !IsBlank(input) && PatternMatches(input)
  {
    InviteEmailMatchesPattern(input);
  }

  class AddFriendDialog {
    const db: Database
    const user: Option<AuthUser>
    var users: seq<Profile>
    var searchQuery: string
    var emailInvite: string
    var loading: bool
    var requested: seq<Option<string>>

    constructor (db: Database, user: Option<AuthUser>)
      ensures this.db == db && this.user == user
      ensures users == [] && searchQuery == "" && emailInvite == "" && !loading && requested == []
    {
      this.db := db;
      this.user := user;
      users, searchQuery, emailInvite, loading, requested := [], "", "", false, [];
    }

    /** The users the list shows. */
    function Shown(): seq<Profile>
      reads this
    {
      FilteredUsers(users, searchQuery)
    }

    /** The "Add" button of a user is disabled. */
    predicate AddDisabled(id: string)
      reads this
    {
      Some(id) in requested || loading
    }

    /** On opening: the first 20 other users by display name replace the
        list when the read succeeds; nothing happens without a signed-in
        user. */
    method FetchUsers(fetchOk: bool, rank: string -> int)
      modifies this`users
      ensures user.Some? && fetchOk ==>
        users == Query.Limit(ByDisplayName(Others(db.profiles, user.value.id), rank), 20)
      ensures !(user.Some? && fetchOk) ==> users == old(users)
    {
      if user.Some? && fetchOk {
        users := Query.Limit(ByDisplayName(Others(db.profiles, user.value.id), rank), 20);
      }
    }

    method FetchExistingFriends(fetchOk: bool)
      modifies this`requested
      ensures user.Some? && fetchOk ==> requested == RequestedIds(db.friends, user.value.id)
      ensures !(user.Some? && fetchOk) ==> requested == old(requested)
    {
      if user.Some? && fetchOk {
        requested := RequestedIds(db.friends, user.value.id);
      }
    }

    method SetSearchQuery(q: string)
      modifies this`searchQuery
      ensures searchQuery == q
    {
      searchQuery := q;
    }

    /** Inserts a pending request and marks the user; unlike the hook's send,
        it creates no notification (the notifications table is not in the
        frame). */
    method SendFriendRequest(friendId: string, insertOk: bool)
      modifies this`requested, this`loading, db`friends
      ensures user.None? ==> requested == old(requested) && db.friends == old(db.friends) && loading == old(loading)
      ensures user.Some? ==> !loading
      ensures user.Some? && insertOk ==>
        && db.friends == old(db.friends) + [FriendStatus.RequestRow(user.value.id, friendId)]
        && requested == old(requested) + [Some(friendId)]
        && AddDisabled(friendId)
      ensures user.Some? && !insertOk ==> db.friends == old(db.friends) && requested == old(requested)
    {
      if user.None? {
        return;
      }
      loading := true;
      if insertOk {
        db.friends := db.friends + [FriendStatus.RequestRow(user.value.id, friendId)];
        requested := requested + [Some(friendId)];
      }
      loading := false;
    }

    method SetEmailInvite(s: string)
      modifies this`emailInvite
      ensures emailInvite == s
    {
      emailInvite := s;
    }

    /** Blank input (or no user) does nothing; an address the pattern refuses
        is rejected; an accepted one clears the field. Nothing is stored. */
    method SendEmailInvite() returns (outcome: InviteOutcome)
      modifies this`emailInvite, this`loading
      ensures outcome == InviteOutcomeOf(user.Some?, old(emailInvite))
      ensures outcome == Invited ==> emailInvite == "" && !loading
      ensures outcome != Invited ==> emailInvite == old(emailInvite) && loading == old(loading)
    {
      var input := emailInvite;
      if user.None? || IsBlank(input) {
        return Skipped;
      }
      if !IsInviteEmail(input) {
        return Rejected;
      }
      loading := true;
      emailInvite := "";
      loading := false;
      outcome := Invited;
    }
  }
}
