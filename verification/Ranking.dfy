/** ORDER BY ... LIMIT over table rows, with ties in table order. */
module Ranking {
  /** `before` compares by some key: rows that neither precedes the other are tied. */
  ghost predicate Ranks<T(!new)>(before: (T, T) -> bool) {
    && (forall a, b :: before(a, b) ==> !before(b, a))
    && (forall a, b, c :: !before(b, a) && !before(c, b) ==> !before(c, a))
  }

  ghost predicate Sorted<T>(s: seq<T>, before: (T, T) -> bool) {
    forall i, j :: 0 <= i < j < |s| ==> !before(s[j], s[i])
  }

  function Place<T>(x: T, s: seq<T>, before: (T, T) -> bool): seq<T> {
    if s == [] || !before(x, s[|s| - 1]) then s + [x]
    else Place(x, s[..|s| - 1], before) + [s[|s| - 1]]
  }

  function OrderBy<T>(s: seq<T>, before: (T, T) -> bool): seq<T> {
    if s == [] then [] else Place(s[|s| - 1], OrderBy(s[..|s| - 1], before), before)
  }

  function Limit<T>(s: seq<T>, n: nat): (r: seq<T>)
    ensures r <= s && |r| == if |s| <= n then |s| else n
  {
    if |s| <= n then s else s[..n]
  }

  /** Placing a row puts it somewhere and moves nothing else. */
  lemma {:induction false} PlaceSplits<T>(x: T, s: seq<T>, before: (T, T) -> bool) returns (k: nat)
    ensures k <= |s| && Place(x, s, before) == s[..k] + [x] + s[k..]
    ensures forall i :: k <= i < |s| ==> before(x, s[i])
    ensures k > 0 ==> !before(x, s[k - 1])
  {
    if s == [] || !before(x, s[|s| - 1]) {
      k := |s|;
    } else {
      var n := |s| - 1;
      k := PlaceSplits(x, s[..n], before);
      assert s[..n][..k] == s[..k];
      assert s[..n][k..] + [s[n]] == s[k..];
    }
  }

  lemma PlaceKeepsSorted<T(!new)>(x: T, s: seq<T>, before: (T, T) -> bool)
    requires Ranks(before) && Sorted(s, before)
    ensures Sorted(Place(x, s, before), before)
  {
    var k := PlaceSplits(x, s, before);
    var r := Place(x, s, before);
    forall i, j | 0 <= i < j < |r| ensures !before(r[j], r[i]) {
      if i < k && j < k { assert r[i] == s[i] && r[j] == s[j]; }
      else if i < k && j == k {
        assert r[i] == s[i];
        assert i < k - 1 ==> !before(s[k - 1], s[i]);
      } else if i < k { assert r[i] == s[i] && r[j] == s[j - 1]; }
      else if i == k { assert r[j] == s[j - 1]; }
      else { assert r[i] == s[i - 1] && r[j] == s[j - 1]; }
    }
  }

  lemma PlaceKeepsRows<T>(x: T, s: seq<T>, before: (T, T) -> bool)
    ensures multiset(Place(x, s, before)) == multiset(s) + multiset{x}
  {
    var k := PlaceSplits(x, s, before);
    assert s == s[..k] + s[k..];
  }

  lemma {:induction false} OrderBySorts<T(!new)>(s: seq<T>, before: (T, T) -> bool)
    requires Ranks(before)
    ensures Sorted(OrderBy(s, before), before)
  {
    if s != [] {
      OrderBySorts(s[..|s| - 1], before);
      PlaceKeepsSorted(s[|s| - 1], OrderBy(s[..|s| - 1], before), before);
    }
  }

  lemma {:induction false} OrderByKeepsRows<T>(s: seq<T>, before: (T, T) -> bool)
    ensures multiset(OrderBy(s, before)) == multiset(s)
  {
    if s != [] {
      var n := |s| - 1;
      OrderByKeepsRows(s[..n], before);
      PlaceKeepsRows(s[n], OrderBy(s[..n], before), before);
      assert s == s[..n] + [s[n]];
    }
  }

  /** Sorted, and the same rows as often. */
  lemma OrderByIs<T(!new)>(s: seq<T>, before: (T, T) -> bool)
    requires Ranks(before)
    ensures Sorted(OrderBy(s, before), before) && multiset(OrderBy(s, before)) == multiset(s)
  {
    OrderBySorts(s, before);
    OrderByKeepsRows(s, before);
  }

  /** LIMIT takes the foremost: no row left out precedes one that is in. */
  lemma ForemostAreIn<T(!new)>(s: seq<T>, before: (T, T) -> bool, n: nat, x: T, y: T)
    requires Ranks(before)
    requires x in Limit(OrderBy(s, before), n) && y in s && y !in Limit(OrderBy(s, before), n)
    ensures x in s && !before(y, x) && |Limit(OrderBy(s, before), n)| == n
  {
    OrderByIs(s, before);
    var r := OrderBy(s, before);
    assert y in multiset(r);
    var i :| 0 <= i < |Limit(r, n)| && Limit(r, n)[i] == x;
    var j :| 0 <= j < |r| && r[j] == y;
    assert r[i] == x && x in multiset(r);
    assert forall m :: 0 <= m < |Limit(r, n)| ==> r[m] == Limit(r, n)[m] && Limit(r, n)[m] in Limit(r, n);
  }

  lemma SameRows<T(!new)>(s: seq<T>, before: (T, T) -> bool, n: nat, x: T)
    requires Ranks(before) && x in Limit(OrderBy(s, before), n)
    ensures x in s
  {
    OrderByIs(s, before);
    assert x in OrderBy(s, before);
    assert x in multiset(OrderBy(s, before));
  }
}
