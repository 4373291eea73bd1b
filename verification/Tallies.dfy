/** Counters and groups kept in maps, and what they add up to. */
module Tallies {
  import opened Wrappers

  // ---------------------------------------------------------------- sums over sets

  ghost function SetSum<K(!new)>(s: set<K>, f: K -> int): int {
    if s == {} then 0 else
      var k :| k in s;
      f(k) + SetSum(s - {k}, f)
  }

  lemma {:induction false} SetSumTake<K(!new)>(s: set<K>, f: K -> int, k: K)
    requires k in s
    ensures SetSum(s, f) == f(k) + SetSum(s - {k}, f)
    decreases s
  {
    var k0 :| k0 in s && SetSum(s, f) == f(k0) + SetSum(s - {k0}, f);
    if k0 != k {
      SetSumTake(s - {k0}, f, k);
      SetSumTake(s - {k}, f, k0);
      assert s - {k0} - {k} == s - {k} - {k0};
    }
  }

  lemma {:induction false} SetSumSame<K(!new)>(s: set<K>, f: K -> int, g: K -> int)
    requires forall k | k in s :: f(k) == g(k)
    ensures SetSum(s, f) == SetSum(s, g)
    decreases s
  {
    if s != {} {
      var k :| k in s;
      SetSumTake(s, f, k);
      SetSumTake(s, g, k);
      SetSumSame(s - {k}, f, g);
    }
  }

  lemma {:induction false} SetSumMinus<K(!new)>(s: set<K>, f: K -> int, g: K -> int, h: K -> int)
    requires forall k | k in s :: f(k) == g(k) - h(k)
    ensures SetSum(s, f) == SetSum(s, g) - SetSum(s, h)
    decreases s
  {
    if s != {} {
      var k :| k in s;
      SetSumTake(s, f, k);
      SetSumTake(s, g, k);
      SetSumTake(s, h, k);
      SetSumMinus(s - {k}, f, g, h);
    }
  }

  // ---------------------------------------------------------------- sums over lists

  /** The sum of `v` over the entries that have a key. */
  function Keyed<R, K>(rs: seq<R>, key: R -> Option<K>, v: R -> nat): nat {
    if rs == [] then 0 else
      var n := |rs| - 1;
      Keyed(rs[..n], key, v) + if key(rs[n]).Some? then v(rs[n]) else 0
  }

  /** The sum of `v` over the entries with this key. */
  function Share<R, K(==)>(rs: seq<R>, key: R -> Option<K>, v: R -> nat, k: K): nat {
    if rs == [] then 0 else
      var n := |rs| - 1;
      Share(rs[..n], key, v, k) + if key(rs[n]) == Some(k) then v(rs[n]) else 0
  }

  lemma KeyedNext<R, K>(rs: seq<R>, i: nat, key: R -> Option<K>, v: R -> nat)
    requires i < |rs|
    ensures Keyed(rs[..i + 1], key, v) == Keyed(rs[..i], key, v) + if key(rs[i]).Some? then v(rs[i]) else 0
  {
    assert rs[..i + 1][..i] == rs[..i];
  }

  lemma ShareNext<R, K>(rs: seq<R>, i: nat, key: R -> Option<K>, v: R -> nat, k: K)
    requires i < |rs|
    ensures Share(rs[..i + 1], key, v, k) == Share(rs[..i], key, v, k) + if key(rs[i]) == Some(k) then v(rs[i]) else 0
  {
    assert rs[..i + 1][..i] == rs[..i];
  }

  // ---------------------------------------------------------------- counters by key

  function Get<K>(m: map<K, nat>, k: K): nat { if k in m then m[k] else 0 }

  function Bump<K>(m: map<K, nat>, k: K, x: nat): map<K, nat> { m[k := Get(m, k) + x] }

  ghost function MapSum<K(!new)>(m: map<K, nat>): int { SetSum(m.Keys, k => Get(m, k)) }

  lemma MapSumBump<K(!new)>(m: map<K, nat>, k: K, x: nat)
    ensures MapSum(Bump(m, k, x)) == MapSum(m) + x
  {
    var m' := Bump(m, k, x);
    var (f, f') := ((j: K) => Get(m, j), (j: K) => Get(m', j));
    SetSumTake(m'.Keys, f', k);
    if k in m {
      SetSumTake(m.Keys, f, k);
    }
    assert m'.Keys - {k} == m.Keys - {k};
    assert k !in m ==> m.Keys - {k} == m.Keys;
    SetSumSame(m.Keys - {k}, f, f');
  }

  /** The counters after the whole list: each entry with a key adds its value there. */
  function Tally<R, K>(rs: seq<R>, key: R -> Option<K>, v: R -> nat): map<K, nat> {
    if rs == [] then map[] else
      var n := |rs| - 1;
      var m := Tally(rs[..n], key, v);
      match key(rs[n])
      case None => m
      case Some(k) => Bump(m, k, v(rs[n]))
  }

  lemma TallyNext<R, K>(rs: seq<R>, i: nat, key: R -> Option<K>, v: R -> nat)
    requires i < |rs|
    ensures Tally(rs[..i + 1], key, v)
            == if key(rs[i]).Some? then Bump(Tally(rs[..i], key, v), key(rs[i]).value, v(rs[i]))
              else Tally(rs[..i], key, v)
  {
    assert rs[..i + 1][..i] == rs[..i];
  }

  /** Each counter is exactly what the entries with its key add up to. */
  lemma {:induction false} TallyAt<R(!new), K(!new)>(rs: seq<R>, key: R -> Option<K>, v: R -> nat, k: K)
    ensures k in Tally(rs, key, v) <==> exists r :: r in rs && key(r) == Some(k)
    ensures Get(Tally(rs, key, v), k) == Share(rs, key, v, k)
  {
    if rs != [] {
      var n := |rs| - 1;
      assert rs == rs[..n] + [rs[n]];
      TallyAt(rs[..n], key, v, k);
    }
  }

  /** Nothing is lost or counted twice: all counters add up to what had a key. */
  lemma {:induction false} TallyConserves<R, K(!new)>(rs: seq<R>, key: R -> Option<K>, v: R -> nat)
    ensures MapSum(Tally(rs, key, v)) == Keyed(rs, key, v)
  {
    if rs != [] {
      var n := |rs| - 1;
      TallyConserves(rs[..n], key, v);
      var m := Tally(rs[..n], key, v);
      if key(rs[n]).Some? {
        MapSumBump(m, key(rs[n]).value, v(rs[n]));
      }
    }
  }

  ghost function Keys<R(!new), K(!new)>(rs: seq<R>, key: R -> Option<K>): set<K> {
    set r | r in rs && key(r).Some? :: key(r).value
  }

  lemma KeysNext<R(!new), K(!new)>(rs: seq<R>, i: nat, key: R -> Option<K>)
    requires i < |rs|
    ensures Keys(rs[..i + 1], key) == Keys(rs[..i], key) + if key(rs[i]).Some? then {key(rs[i]).value} else {}
  {
    assert rs[..i + 1] == rs[..i] + [rs[i]];
  }

  /** The shares of all keys add up. */
  lemma SharesAddUp<R(!new), K(!new)>(rs: seq<R>, key: R -> Option<K>, v: R -> nat)
    ensures SetSum(Keys(rs, key), k => Share(rs, key, v, k)) == Keyed(rs, key, v)
  {
    var m := Tally(rs, key, v);
    TallyConserves(rs, key, v);
    forall k
      ensures k in m <==> k in Keys(rs, key)
      ensures Get(m, k) == Share(rs, key, v, k)
    {
      TallyAt(rs, key, v, k);
    }
    assert m.Keys == Keys(rs, key);
    SetSumSame(m.Keys, k => Get(m, k), k => Share(rs, key, v, k));
  }

  // ---------------------------------------------------------------- groups by key

  /** The entries of the list with this key, in order. */
  function Group<R, K(==)>(rs: seq<R>, key: R -> Option<K>, k: K): seq<R> {
    if rs == [] then [] else
      var n := |rs| - 1;
      Group(rs[..n], key, k) + if key(rs[n]) == Some(k) then [rs[n]] else []
  }

  /** Every entry with the key, as often as the list holds it, and no other. */
  lemma {:induction false} GroupCounts<R(!new), K(!new)>(rs: seq<R>, key: R -> Option<K>, k: K, r: R)
    ensures multiset(Group(rs, key, k))[r] == if key(r) == Some(k) then multiset(rs)[r] else 0
  {
    if rs != [] {
      var n := |rs| - 1;
      GroupCounts(rs[..n], key, k, r);
      assert rs == rs[..n] + [rs[n]];
    }
  }

  lemma GroupMembers<R(!new), K(!new)>(rs: seq<R>, key: R -> Option<K>, k: K)
    ensures forall r :: r in Group(rs, key, k) <==> r in rs && key(r) == Some(k)
    ensures Group(rs, key, k) != [] <==> k in Keys(rs, key)
  {
    var g := Group(rs, key, k);
    hide Group;
    forall r
      ensures r in g <==> r in rs && key(r) == Some(k)
    {
      GroupCounts(rs, key, k, r);
      assert r in g <==> multiset(g)[r] > 0;
      assert r in rs <==> multiset(rs)[r] > 0;
    }
    if g != [] {
      assert g[0] in g;
    }
  }

  /** The groups by key, none empty. */
  ghost predicate Grouped<R, K(!new)>(groups: map<K, seq<R>>, rs: seq<R>, key: R -> Option<K>) {
    && (forall k | k in groups :: groups[k] == Group(rs, key, k) && groups[k] != [])
    && (forall k | k !in groups :: Group(rs, key, k) == [])
  }

  method GroupBy<R, K(==, !new)>(rs: seq<R>, key: R -> Option<K>) returns (groups: map<K, seq<R>>)
    ensures Grouped(groups, rs, key)
  {
    groups := map[];
    for i := 0 to |rs|
      invariant Grouped(groups, rs[..i], key)
    {
      assert rs[..i + 1][..i] == rs[..i];
      if key(rs[i]).Some? {
        var k := key(rs[i]).value;
        groups := groups[k := (if k in groups then groups[k] else []) + [rs[i]]];
      }
    }
    assert rs[..|rs|] == rs;
  }

  lemma GroupKeys<R(!new), K(!new)>(groups: map<K, seq<R>>, rs: seq<R>, key: R -> Option<K>)
    requires Grouped(groups, rs, key)
    ensures groups.Keys == Keys(rs, key)
    ensures forall k | k in groups :: groups[k] == Group(rs, key, k) && groups[k] != []
  {
    forall k
      ensures k in groups <==> k in Keys(rs, key)
    {
      GroupMembers(rs, key, k);
    }
  }

  // ---------------------------------------------------------------- ratios

  function Ratio(a: nat, b: nat): real { if b == 0 then 0.0 else a as real / b as real }

  lemma RatioInUnit(a: nat, b: nat)
    requires a <= b
    ensures 0.0 <= Ratio(a, b) <= 1.0
  {
  }

  lemma RatioTimes(a: nat, b: nat)
    requires a <= b
    ensures Ratio(a, b) * b as real == a as real
    ensures b == 0 ==> Ratio(a, b) == 0.0
  {
  }
}
