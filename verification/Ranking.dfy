/** Ranked lists cut to their first entries. */
module Ranking {
  ghost predicate Ranks<T(!new)>(le: (T, T) -> bool) {
    && (forall a, b :: le(a, b) || le(b, a))
    && (forall a, b, c :: le(a, b) && le(b, c) ==> le(a, c))
  }

  ghost predicate Ordered<T>(s: seq<T>, le: (T, T) -> bool) {
    forall i, j | 0 <= i <= j < |s| :: le(s[i], s[j])
  }

  ghost predicate Distinct<T>(s: seq<T>) {
    forall i, j | 0 <= i < j < |s| :: s[i] != s[j]
  }

  function Insert<T>(s: seq<T>, x: T, le: (T, T) -> bool): seq<T> {
    if s == [] then [x]
    else if le(s[|s| - 1], x) then s + [x]
    else Insert(s[..|s| - 1], x, le) + [s[|s| - 1]]
  }

  lemma {:induction false} InsertElements<T>(s: seq<T>, x: T, le: (T, T) -> bool)
    ensures multiset(Insert(s, x, le)) == multiset(s) + multiset{x}
  {
    if s != [] {
      var n := |s| - 1;
      assert s == s[..n] + [s[n]];
      if !le(s[n], x) {
        InsertElements(s[..n], x, le);
      }
    }
  }

  lemma OrderedAppend<T(!new)>(s: seq<T>, x: T, le: (T, T) -> bool)
    requires Ranks(le) && Ordered(s, le) && forall y | y in s :: le(y, x)
    ensures Ordered(s + [x], le)
  {
  }

  lemma LastIsGreatest<T(!new)>(s: seq<T>, le: (T, T) -> bool)
    requires Ordered(s, le) && s != []
    ensures forall y | y in s :: le(y, s[|s| - 1])
  {
  }

  lemma {:induction false} InsertKeepsOrder<T(!new)>(s: seq<T>, x: T, le: (T, T) -> bool)
    requires Ranks(le) && Ordered(s, le)
    ensures Ordered(Insert(s, x, le), le)
  {
    if s == [] {
      assert le(x, x);
    } else {
      var n := |s| - 1;
      LastIsGreatest(s, le);
      assert forall y | y in s[..n] :: y in s;
      if le(s[n], x) {
        OrderedAppend(s, x, le);
      } else {
        InsertKeepsOrder(s[..n], x, le);
        InsertElements(s[..n], x, le);
        var t := Insert(s[..n], x, le);
        assert forall y | y in t :: y in multiset(t);
        OrderedAppend(t, s[n], le);
      }
    }
  }

  /** A library sort. */
  function Sort<T>(s: seq<T>, le: (T, T) -> bool): seq<T> {
    if s == [] then [] else Insert(Sort(s[..|s| - 1], le), s[|s| - 1], le)
  }

  lemma {:induction false} SortFacts<T(!new)>(s: seq<T>, le: (T, T) -> bool)
    requires Ranks(le)
    ensures multiset(Sort(s, le)) == multiset(s) && Ordered(Sort(s, le), le)
  {
    if s != [] {
      var n := |s| - 1;
      SortFacts(s[..n], le);
      InsertElements(Sort(s[..n], le), s[n], le);
      InsertKeepsOrder(Sort(s[..n], le), s[n], le);
      assert s == s[..n] + [s[n]];
    }
  }

  lemma SameElements<T>(s: seq<T>, r: seq<T>)
    requires multiset(s) == multiset(r)
    ensures |s| == |r|
    ensures forall x :: x in s <==> x in r
    ensures Distinct(s) ==> Distinct(r)
  {
    assert |s| == |multiset(s)| && |r| == |multiset(r)|;
    forall x
      ensures x in s <==> x in r
    {
      assert x in s <==> x in multiset(s);
      assert x in r <==> x in multiset(r);
    }
    if Distinct(s) && !Distinct(r) {
      var i, j :| 0 <= i < j < |r| && r[i] == r[j];
      assert r == r[..i] + [r[i]] + r[i + 1..j] + [r[j]] + r[j + 1..];
      assert multiset(s)[r[i]] >= 2;
      OnceOnly(s, r[i]);
    }
  }

  lemma {:induction false} OnceOnly<T>(s: seq<T>, x: T)
    requires Distinct(s)
    ensures multiset(s)[x] <= 1
  {
    if s != [] {
      var n := |s| - 1;
      assert s == s[..n] + [s[n]];
      OnceOnly(s[..n], x);
      assert forall i | 0 <= i < n :: s[..n][i] != s[n];
    }
  }

  function Take<T>(s: seq<T>, n: nat): seq<T> { if |s| <= n then s else s[..n] }

  /** The first `n` of what is entitled, and nothing left out goes before what is in. */
  ghost predicate Top<T(!new)>(top: seq<T>, entitled: T -> bool, le: (T, T) -> bool, n: nat) {
    && |top| <= n
    && Distinct(top)
    && Ordered(top, le)
    && (forall x | x in top :: entitled(x))
    && (forall x | entitled(x) && x !in top :: |top| == n && forall t | t in top :: le(t, x))
  }

  lemma SortThenTake<T(!new)>(all: seq<T>, entitled: T -> bool, le: (T, T) -> bool, n: nat)
    requires Ranks(le) && Distinct(all) && forall x :: x in all <==> entitled(x)
    ensures Top(Take(Sort(all, le), n), entitled, le, n)
  {
    SortFacts(all, le);
    var sorted := Sort(all, le);
    hide Sort;
    SameElements(all, sorted);
    var top := Take(sorted, n);
    assert forall i | 0 <= i < |top| :: top[i] == sorted[i];
    forall x | x in sorted && x !in top
      ensures |top| == n && forall t | t in top :: le(t, x)
    {
      var j :| 0 <= j < |sorted| && sorted[j] == x;
      assert j >= |top|;
    }
    hide Ordered, Distinct;
    assert Ordered(top, le) && Distinct(top) by { TakeKeepsOrder(sorted, le, n); }
  }

  lemma TakeKeepsOrder<T>(s: seq<T>, le: (T, T) -> bool, n: nat)
    requires Ordered(s, le) && Distinct(s)
    ensures Ordered(Take(s, n), le) && Distinct(Take(s, n))
  {
  }

  /** The first `n` of a list that may hold equal entries. */
  ghost predicate TopOf<T(!new)>(top: seq<T>, all: seq<T>, le: (T, T) -> bool, n: nat) {
    && |top| == (if |all| <= n then |all| else n)
    && Ordered(top, le)
    && exists rest: seq<T> :: LeftOut(top, rest, all, le)
  }

  ghost predicate LeftOut<T(!new)>(top: seq<T>, rest: seq<T>, all: seq<T>, le: (T, T) -> bool) {
    && multiset(top + rest) == multiset(all)
    && forall t, r | t in top && r in rest :: le(t, r)
  }

  lemma SortThenTakeOf<T(!new)>(all: seq<T>, le: (T, T) -> bool, n: nat)
    requires Ranks(le)
    ensures TopOf(Take(Sort(all, le), n), all, le, n)
  {
    SortFacts(all, le);
    var sorted := Sort(all, le);
    hide Sort;
    SameElements(all, sorted);
    var top := Take(sorted, n);
    var rest := sorted[|top|..];
    assert top + rest == sorted;
    assert LeftOut(top, rest, all, le);
  }
}
