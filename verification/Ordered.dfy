/** ORDER BY id: the elements of a finite set of ids in ascending order. */
module Ordered {

  lemma {:induction false} LeastExists(ids: set<nat>, x: nat)
    requires x in ids
    ensures exists m :: m in ids && forall y :: y in ids ==> m <= y
    decreases x
  {
    if y :| y in ids && y < x { LeastExists(ids, y); }
  }

  function Least(ids: set<nat>): (x: nat)
    requires ids != {}
    ensures x in ids && forall y :: y in ids ==> x <= y
  {
    var some :| some in ids;
    LeastExists(ids, some);
    var x :| x in ids && forall y :: y in ids ==> x <= y;
    x
  }

  lemma {:induction false} GreatestExists(ids: set<nat>, x: nat)
    requires x in ids
    ensures exists m :: m in ids && forall y :: y in ids ==> y <= m
    decreases set y | y in ids && y > x
  {
    if y :| y in ids && y > x {
      var above, aboveY := set z | z in ids && z > x, set z | z in ids && z > y;
      assert aboveY <= above && y in above && y !in aboveY;
      GreatestExists(ids, y);
    }
  }

  function Greatest(ids: set<nat>): (m: nat)
    requires ids != {}
    ensures m in ids && forall y :: y in ids ==> y <= m
  {
    var some :| some in ids;
    GreatestExists(ids, some);
    var m :| m in ids && forall y :: y in ids ==> y <= m;
    m
  }

  predicate Increasing(s: seq<nat>) {
    forall i, j :: 0 <= i < j < |s| ==> s[i] < s[j]
  }

  ghost predicate IsAscending(s: seq<nat>, ids: set<nat>) {
    |s| == |ids| && Increasing(s) && forall x :: x in s <==> x in ids
  }

  lemma {:induction false} AscendingExists(ids: set<nat>)
    ensures exists s :: IsAscending(s, ids)
  {
    if ids == {} {
      assert IsAscending([], ids);
    } else {
      var x := Least(ids);
      AscendingExists(ids - {x});
      var rest :| IsAscending(rest, ids - {x});
      assert forall i :: 0 <= i < |rest| ==> rest[i] in rest;
      assert IsAscending([x] + rest, ids);
    }
  }

  lemma IncreasingTail(s: seq<nat>, y: nat)
    requires s != [] && Increasing(s)
    ensures Increasing(s[1..]) && (y in s[1..] <==> y in s && y != s[0])
  {
    if y in s && y != s[0] {
      var j :| 0 <= j < |s| && s[j] == y;
      assert s[1..][j - 1] == y;
    }
  }

  /** An increasing sequence is determined by its elements. */
  lemma {:induction false} SameElements(s: seq<nat>, t: seq<nat>)
    requires Increasing(s) && Increasing(t) && forall x :: x in s <==> x in t
    ensures s == t
  {
    assert (s != [] ==> s[0] in s) && (t != [] ==> t[0] in t);
    if s != [] && t != [] {
      assert s[0] in t && t[0] in s;
      assert s[0] == t[0];
      IncreasingTail(s, 0);
      IncreasingTail(t, 0);
      forall y ensures y in s[1..] <==> y in t[1..] { IncreasingTail(s, y); IncreasingTail(t, y); }
      SameElements(s[1..], t[1..]);
      assert s == [s[0]] + s[1..] && t == [t[0]] + t[1..];
    }
  }

  ghost function Ascending(ids: set<nat>): (s: seq<nat>)
    ensures IsAscending(s, ids)
  {
    AscendingExists(ids);
    var s :| IsAscending(s, ids);
    s
  }

  /** The `n` smallest elements come first, then those above the `n`-th. */
  lemma AscendingSplit(ids: set<nat>, n: nat, rest: set<nat>)
    requires 0 < n <= |ids| && forall x :: x in rest <==> x in ids && x > Ascending(ids)[n - 1]
    ensures Ascending(ids)[n - 1] in ids && Ascending(ids) == Ascending(ids)[..n] + Ascending(rest)
  {
    var s := Ascending(ids);
    assert s[n - 1] in s;
    Tail(s, n, Ascending(rest));
  }

  lemma Tail(s: seq<nat>, n: nat, t: seq<nat>)
    requires 0 < n <= |s| && Increasing(s) && Increasing(t)
    requires forall x :: x in t <==> x in s && x > s[n - 1]
    ensures s == s[..n] + t
  {
    assert Increasing(s[n..]);
    forall x ensures x in s[n..] <==> x in t {
      if x in t {
        var j :| 0 <= j < |s| && s[j] == x;
        assert n <= j;
        assert s[n..][j - n] == x;
      }
      if x in s[n..] { var j :| 0 <= j < |s[n..]| && s[n..][j] == x; assert s[n + j] == x; }
    }
    SameElements(s[n..], t);
  }

  /** Smallest elements first: a prefix of the ascending order, whatever follows. */
  lemma PrefixOf(ids: set<nat>, s: seq<nat>, rest: set<nat>)
    requires Increasing(s) && forall x :: x in ids <==> x in s || x in rest
    requires forall i, y :: 0 <= i < |s| && y in rest ==> s[i] < y
    ensures Ascending(ids) == s + Ascending(rest)
  {
    var t := s + Ascending(rest);
    assert forall i :: |s| <= i < |t| ==> t[i] in Ascending(rest);
    SameElements(Ascending(ids), t);
  }

  function Elements(s: seq<nat>): set<nat> {
    set x | x in s
  }

  lemma {:induction false} Distinct(s: seq<nat>)
    requires Increasing(s)
    ensures |Elements(s)| == |s|
  {
    if s != [] {
      var front, last := s[..|s| - 1], s[|s| - 1];
      Distinct(front);
      assert forall i :: 0 <= i < |front| ==> front[i] < last;
      forall x ensures x in s <==> x in front || x == last {
        if x in s { var i :| 0 <= i < |s| && s[i] == x; assert i < |front| ==> front[i] == x; }
      }
      assert Elements(s) == Elements(front) + {last};
    }
  }

  lemma FirstElements(s: seq<nat>, n: nat)
    requires Increasing(s) && n <= |s|
    ensures |Elements(s[..n])| == n
    ensures forall x, y :: x in s[..n] && y in s && y !in s[..n] ==> x < y
  {
    Distinct(s[..n]);
    forall x, y | x in s[..n] && y in s && y !in s[..n] ensures x < y {
      var i :| 0 <= i < n && s[i] == x;
      var j :| 0 <= j < |s| && s[j] == y;
      assert forall k :: 0 <= k < n ==> s[k] in s[..n];
    }
  }

  /** ORDER BY id LIMIT `limit`. */
  method TakeLeast(ids: set<nat>, limit: nat) returns (s: seq<nat>)
    ensures s == Ascending(ids)[..if limit < |ids| then limit else |ids|]
  {
    s := [];
    var left := ids;
    while |s| < limit && left != {}
      invariant |s| <= limit && Increasing(s)
      invariant forall x :: x in ids <==> x in s || x in left
      invariant forall i, y :: 0 <= i < |s| && y in left ==> s[i] < y
      decreases left
    {
      var x := Least(left);
      left := left - {x};
      s := s + [x];
    }
    PrefixOf(ids, s, left);
  }
}
