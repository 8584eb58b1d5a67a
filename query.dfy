/** The two result-shaping clauses the components put on their table reads:
    `.order(column, { ascending })` over a timestamp column and `.limit(n)`.
    Filtering (`.eq`, `.neq`) is `Common.Filter`. Ordering is by an integer key;
    rows with equal keys come back in one fixed order, as the backend promises
    no particular order among ties. */
module Query {

  predicate SortedAsc<T>(s: seq<T>, key: T -> int) {
    forall i, j | 0 <= i < j < |s| :: key(s[i]) <= key(s[j])
  }

  predicate SortedDesc<T>(s: seq<T>, key: T -> int) {
    forall i, j | 0 <= i < j < |s| :: key(s[i]) >= key(s[j])
  }

  /** `x` placed into the ascending sequence `s` before the first element
      whose key is not smaller. */
  function InsertAsc<T(!new)>(x: T, s: seq<T>, key: T -> int): (r: seq<T>)
    ensures multiset(r) == multiset(s) + multiset{x}
    ensures forall y :: y in r <==> y == x || y in s
    ensures |r| == |s| + 1
  {
    if s == [] || key(x) <= key(s[0]) then [x] + s
    else
      assert s == [s[0]] + s[1..];
      [s[0]] + InsertAsc(x, s[1..], key)
  }

  /** Inserting into an ascending sequence keeps it ascending. */
  lemma {:induction false} InsertAscSorted<T(!new)>(x: T, s: seq<T>, key: T -> int)
    requires SortedAsc(s, key)
    ensures SortedAsc(InsertAsc(x, s, key), key)
  {
    if s != [] && key(x) > key(s[0]) {
      var rest := InsertAsc(x, s[1..], key);
      InsertAscSorted(x, s[1..], key);
      forall k | 0 <= k < |rest|
        ensures key(s[0]) <= key(rest[k])
      {
        assert rest[k] in rest;
        if rest[k] != x {
          var j :| 0 <= j < |s[1..]| && s[1..][j] == rest[k];
          assert s[j + 1] == rest[k];
        }
      }
    }
  }

  /** `.order(column, { ascending: true })`: the same rows, ascending by key. */
  function OrderAsc<T(!new)>(s: seq<T>, key: T -> int): (r: seq<T>)
    ensures SortedAsc(r, key)
    ensures multiset(r) == multiset(s)
    ensures |r| == |s|
  {
    if s == [] then []
    else
      assert s == [s[0]] + s[1..];
      var rest := OrderAsc(s[1..], key);
      InsertAscSorted(s[0], rest, key);
      InsertAsc(s[0], rest, key)
  }

  /** `.order(column, { ascending: false })`: the same rows, newest first. */
  function OrderDesc<T(!new)>(s: seq<T>, key: T -> int): (r: seq<T>)
    ensures SortedDesc(r, key)
    ensures multiset(r) == multiset(s)
    ensures |r| == |s|
  {
    var neg := (x: T) => -key(x);
    var r := OrderAsc(s, neg);
    assert forall i, j | 0 <= i < j < |r| :: neg(r[i]) <= neg(r[j]);
    r
  }

  /** `.limit(n)`: the first `n` rows, or all of them when there are fewer. */
  function Limit<T>(s: seq<T>, n: nat): (r: seq<T>)
    ensures |r| <= n && |r| <= |s|
    ensures |s| <= n ==> r == s
    ensures |s| > n ==> |r| == n
    ensures r == s[..|r|]
  {
    if |s| <= n then s else s[..n]
  }

  /** What `.limit(n)` keeps of a descending sequence: part of it, and
      nothing it drops has a greater key than anything it keeps. */
  lemma LimitDropsOlder<T>(s: seq<T>, n: nat, key: T -> int)
    requires SortedDesc(s, key)
    ensures multiset(Limit(s, n)) <= multiset(s)
    ensures forall x, y | x in multiset(s) - multiset(Limit(s, n)) && y in Limit(s, n) :: key(x) <= key(y)
  {
    var r := Limit(s, n);
    var rest := s[|r|..];
    assert s == r + rest;
    assert multiset(s) == multiset(r) + multiset(rest);
    assert multiset(s) - multiset(r) == multiset(rest);
    forall x, y | x in multiset(s) - multiset(r) && y in r
      ensures key(x) <= key(y)
    {
      assert x in rest;
      var j :| 0 <= j < |rest| && rest[j] == x;
      var i :| 0 <= i < |r| && r[i] == y;
      assert s[i] == y && s[|r| + j] == x;
    }
  }

  /** A prefix of a sorted sequence is sorted. */
  lemma LimitSortedDesc<T>(s: seq<T>, n: nat, key: T -> int)
    requires SortedDesc(s, key)
    ensures SortedDesc(Limit(s, n), key)
  {
  }
}
