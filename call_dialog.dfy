/** The call dialog: the accepted friends the user may call, a selection
    list that each click toggles, and the start and cancel buttons. */
module CallDialog {
  import opened Common
  import opened Tables
  import FriendStatus

  /** The rows offered: requests the user sent that were accepted. */
  function CallableFriends(rows: seq<FriendRow>, me: string): (r: seq<FriendRow>)
    ensures forall row :: row in r <==>
      row in rows && row.userId == Some(me) && row.status == Some(FriendStatus.Accepted)
  {
    Filter(rows, (row: FriendRow) => row.userId == Some(me) && row.status == Some(FriendStatus.Accepted))
  }

  /** An accepted request the user received is not offered: only the sender
      of an accepted request sees the other side in this list. */
  lemma ReceivedFriendNotOffered(rows: seq<FriendRow>, me: string, other: string)
    requires other != me
    ensures FriendRow(Some(other), Some(me), Some(FriendStatus.Accepted)) !in CallableFriends(rows, me)
  {
  }

  predicate NoDup(s: seq<string>) {
    forall i, j | 0 <= i < j < |s| :: s[i] != s[j]
  }

  /** `toggleFriend`: drop `id` if it is selected, else append it. */
  function Toggled(sel: seq<string>, id: string): (r: seq<string>)
    ensures id in sel ==> id !in r
    ensures id !in sel ==> r == sel + [id]
    ensures forall x | x != id :: x in r <==> x in sel
  {
    if id in sel then Filter(sel, (x: string) => x != id) else sel + [id]
  }

  /** A selection without duplicates keeps having none. */
  lemma {:induction false} ToggledNoDup(sel: seq<string>, id: string)
    requires NoDup(sel)
    ensures NoDup(Toggled(sel, id))
  {
    if id in sel {
      FilterNoDup(sel, (x: string) => x != id);
    }
  }

  lemma {:induction false} FilterNoDup(s: seq<string>, p: string -> bool)
    requires NoDup(s)
    ensures NoDup(Filter(s, p))
  {
    if s != [] {
      assert NoDup(s[1..]) by {
        forall i, j | 0 <= i < j < |s[1..]| ensures s[1..][i] != s[1..][j] {
          assert s[1..][i] == s[i + 1] && s[1..][j] == s[j + 1];
        }
      }
      FilterNoDup(s[1..], p);
      var rest := Filter(s[1..], p);
      if p(s[0]) {
        assert s[0] !in rest;
        var r := [s[0]] + rest;
        forall i, j | 0 <= i < j < |r| ensures r[i] != r[j] {
          if i == 0 {
            assert r[j] == rest[j - 1];
            assert rest[j - 1] in rest;
          } else {
            assert r[i] == rest[i - 1] && r[j] == rest[j - 1];
          }
        }
      }
    }
  }

  /** Toggling an id twice restores the selected set; when the id was not
      selected it restores the exact list. When it was selected and was not
      last, it comes back at the end. */
  lemma {:induction false} ToggleTwice(sel: seq<string>, id: string)
    ensures forall x :: x in Toggled(Toggled(sel, id), id) <==> x in sel
    ensures id !in sel ==> Toggled(Toggled(sel, id), id) == sel
  {
    if id !in sel {
      FilterConcat(sel, [id], (x: string) => x != id);
      FilterAll(sel, (x: string) => x != id);
      assert Filter([id], (x: string) => x != id) == [];
    }
  }

  datatype CallMode = Direct | Conference

  /** `'conference'` exactly when more than one friend is selected. */
  function ModeFor(selected: nat): (m: CallMode)
    ensures m == Conference <==> selected > 1
  {
    if selected > 1 then Conference else Direct
  }

  class CallDialogState {
    const db: Database
    const user: Option<AuthUser>
    var open: bool
    var friends: seq<FriendRow>
    var selected: seq<string>
    var loading: bool

    predicate Valid()
      reads this
    {
      NoDup(selected)
    }

    /** The selection always starts empty; the dialog takes no preselected
        friend. */
    constructor (db: Database, user: Option<AuthUser>, open: bool)
      ensures Valid() && this.db == db && this.user == user && this.open == open
      ensures friends == [] && selected == [] && !loading
    {
      this.db := db;
      this.user := user;
      this.open := open;
      friends, selected, loading := [], [], false;
    }

    method FetchFriends(fetchOk: bool)
      modifies this`friends, this`loading
      ensures user.Some? ==> !loading
      ensures user.None? ==> loading == old(loading)
      ensures user.Some? && fetchOk ==> friends == CallableFriends(db.friends, user.value.id)
      ensures !(user.Some? && fetchOk) ==> friends == old(friends)
    {
      if user.None? {
        return;
      }
      loading := true;
      if fetchOk {
        friends := CallableFriends(db.friends, user.value.id);
      }
      loading := false;
    }

    method ToggleFriend(id: string)
      requires Valid()
      modifies this`selected
      ensures Valid() && selected == Toggled(old(selected), id)
    {
      ToggledNoDup(selected, id);
      if id in selected {
        selected := Filter(selected, (x: string) => x != id);
      } else {
        selected := selected + [id];
      }
    }

    /** An empty selection is refused and changes nothing; otherwise the
        call mode is reported, the dialog closes and the selection empties. */
    method StartCall() returns (mode: Option<CallMode>)
      requires Valid()
      modifies this`open, this`selected
      ensures Valid()
      ensures old(selected) == [] ==> mode == None && open == old(open) && selected == []
      ensures old(selected) != [] ==> mode == Some(ModeFor(|old(selected)|)) && !open && selected == []
    {
      if |selected| == 0 {
        return None;
      }
      mode := Some(if |selected| > 1 then Conference else Direct);
      open := false;
      selected := [];
    }

    method Cancel()
      modifies this`open, this`selected
      ensures Valid() && !open && selected == []
    {
      open := false;
      selected := [];
    }
  }
}
