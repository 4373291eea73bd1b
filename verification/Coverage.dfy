/** Precise-coverage byte counting for one script.

    The service flattens all ranges into open and close points, sorts them with a
    three-level order and sweeps once with a stack. The reference definition here
    is per offset: the smallest enclosing range decides, and among ranges with the
    same bounds the one listed last. */
module Coverage {
  import opened Sets

  datatype Range = Range(start: int, end: int, count: int) {
    function Length(): int { end - start }

    predicate Covers(p: int) { start <= p < end }
  }

  datatype Kind = Open | Close

  /** One sweep event; `len` and `count` are those of the range it came from. */
  datatype Point = Point(offset: int, kind: Kind, len: int, count: int)

  function OpenOf(r: Range): Point { Point(r.start, Open, r.end - r.start, r.count) }

  function CloseOf(r: Range): Point { Point(r.end, Close, r.end - r.start, r.count) }

  // ---------------------------------------------------------------- reference

  ghost predicate Inside(inner: Range, outer: Range) {
    outer.start <= inner.start && inner.end <= outer.end
  }

  ghost predicate Apart(a: Range, b: Range) {
    a.end <= b.start || b.end <= a.start
  }

  /** Ranges of positive length are pairwise nested or disjoint. */
  ghost predicate Laminar(rs: seq<Range>) {
    forall i, j | 0 <= i < |rs| && 0 <= j < |rs| && rs[i].Length() > 0 && rs[j].Length() > 0 ::
      Apart(rs[i], rs[j]) || Inside(rs[i], rs[j]) || Inside(rs[j], rs[i])
  }

  /** Range `i` is the smallest one around `p`; equal lengths are decided by list order. */
  ghost predicate Innermost(rs: seq<Range>, i: int, p: int) {
    && 0 <= i < |rs|
    && rs[i].Covers(p)
    && forall j | 0 <= j < |rs| && rs[j].Covers(p) ::
         rs[i].Length() < rs[j].Length() || (rs[i].Length() == rs[j].Length() && j <= i)
  }

  ghost predicate UsedAt(rs: seq<Range>, p: int) {
    exists i :: Innermost(rs, i, p) && rs[i].count > 0
  }

  ghost function Span(lo: int, hi: int): set<int> {
    set p: int {:trigger Between(lo, p, hi)} | lo <= p < hi
  }

  predicate Between(lo: int, p: int, hi: int) { lo <= p < hi }

  ghost function Offsets(r: Range): set<int> {
    Span(r.start, r.end)
  }

  ghost function UsedOffsets(rs: seq<Range>): set<int> {
    set i, p | 0 <= i < |rs| && p in Offsets(rs[i]) && UsedAt(rs, p) :: p
  }

  ghost function UsedBelow(rs: seq<Range>, x: int): set<int> {
    set p | p in UsedOffsets(rs) && p < x
  }

  /** `total` is the largest end of a positive-length range, and never negative. */
  ghost predicate IsTotal(rs: seq<Range>, total: int) {
    && total >= 0
    && (forall i | 0 <= i < |rs| && rs[i].Length() > 0 :: rs[i].end <= total)
    && (total > 0 ==> exists i :: 0 <= i < |rs| && rs[i].Length() > 0 && rs[i].end == total)
  }

  function Flat(functions: seq<seq<Range>>): seq<Range> {
    if functions == [] then [] else Flat(functions[..|functions| - 1]) + functions[|functions| - 1]
  }

  // ---------------------------------------------------------------- sort order

  /** The comparator: offset; closes before opens; longer opens first, shorter closes first. */
  predicate Precedes(a: Point, b: Point) {
    || a.offset < b.offset
    || (a.offset == b.offset
        && (|| (a.kind == Close && b.kind == Open)
            || (a.kind == b.kind && if a.kind == Open then a.len >= b.len else a.len <= b.len)))
  }

  ghost predicate Sorted(ps: seq<Point>) {
    forall i, j | 0 <= i < j < |ps| :: Precedes(ps[i], ps[j])
  }

  /** `from[k]` is the position `sorted[k]` had before sorting: every position occurs
      once, and points that compare equal keep their order. */
  ghost predicate StableOrder(ps: seq<Point>, sorted: seq<Point>, from: seq<int>) {
    && |ps| == |sorted| == |from|
    && (forall k | 0 <= k < |sorted| :: 0 <= from[k] < |ps| && sorted[k] == ps[from[k]])
    && (forall i | 0 <= i < |ps| :: i in from)
    && (forall i, j | 0 <= i < j < |from| :: from[i] != from[j])
    && (forall i, j | 0 <= i < j < |sorted| && Precedes(sorted[j], sorted[i]) :: from[i] < from[j])
  }

  /** The library's stable sort, as an insertion sort. */
  method SortPoints(ps: seq<Point>) returns (sorted: seq<Point>, ghost from: seq<int>)
    ensures Sorted(sorted)
    ensures StableOrder(ps, sorted, from)
  {
    sorted, from := [], [];
    for m := 0 to |ps|
      invariant Sorted(sorted)
      invariant StableOrder(ps[..m], sorted, from)
    {
      var j := m;
      while j > 0 && !Precedes(sorted[j - 1], ps[m])
        invariant 0 <= j <= m
        invariant forall i | j <= i < m :: !Precedes(sorted[i], ps[m])
      {
        j := j - 1;
      }
      InsertKeepsOrder(ps, m, sorted, from, j);
      sorted := sorted[..j] + [ps[m]] + sorted[j..];
      from := from[..j] + [m] + from[j..];
    }
    assert ps[..|ps|] == ps;
  }

  lemma PrecedesIsTotalOrder(a: Point, b: Point, c: Point)
    ensures Precedes(a, b) || Precedes(b, a)
    ensures Precedes(a, b) && Precedes(b, c) ==> Precedes(a, c)
    ensures !Precedes(b, a) && Precedes(b, c) ==> Precedes(a, c) && !Precedes(c, a)
  {
  }

  lemma InsertKeepsOrder(ps: seq<Point>, m: int, s: seq<Point>, from: seq<int>, j: int)
    requires 0 <= m < |ps| && 0 <= j <= m
    requires Sorted(s) && StableOrder(ps[..m], s, from)
    requires j > 0 ==> Precedes(s[j - 1], ps[m])
    requires forall i | j <= i < m :: !Precedes(s[i], ps[m])
    ensures Sorted(s[..j] + [ps[m]] + s[j..])
    ensures StableOrder(ps[..m + 1], s[..j] + [ps[m]] + s[j..], from[..j] + [m] + from[j..])
  {
    var r := s[..j] + [ps[m]] + s[j..];
    var f := from[..j] + [m] + from[j..];
    InsertKeepsPositions(ps, m, s, from, j);
    forall i, k | 0 <= i < k < |r|
      ensures Precedes(r[i], r[k]) && (Precedes(r[k], r[i]) ==> f[i] < f[k])
    {
      InsertKeepsPair(s, from, ps[m], m, j, i, k);
    }
  }

  lemma InsertKeepsPair(s: seq<Point>, from: seq<int>, x: Point, m: int, j: int, i: int, k: int)
    requires |s| == |from| == m && 0 <= j <= m && 0 <= i < k <= m
    requires forall a, b | 0 <= a < b < m :: Precedes(s[a], s[b]) && (Precedes(s[b], s[a]) ==> from[a] < from[b])
    requires forall a | 0 <= a < m :: from[a] < m
    requires j > 0 ==> Precedes(s[j - 1], x)
    requires j < m ==> !Precedes(s[j], x)
    ensures var r, f := s[..j] + [x] + s[j..], from[..j] + [m] + from[j..];
            Precedes(r[i], r[k]) && (Precedes(r[k], r[i]) ==> f[i] < f[k])
  {
    if k == j {
      PrecedesIsTotalOrder(s[i], s[j - 1], x);
    } else if i == j {
      PrecedesIsTotalOrder(x, s[j], s[k - 1]);
    }
  }

  lemma InsertHoldsAll(from: seq<int>, m: int, j: int)
    requires |from| == m && 0 <= j <= m && forall i | 0 <= i < m :: i in from
    ensures forall i | 0 <= i < m + 1 :: i in from[..j] + [m] + from[j..]
  {
    var f := from[..j] + [m] + from[j..];
    assert f[j] == m;
    forall i | 0 <= i < m
      ensures i in f
    {
      assert i in from;
      var k :| 0 <= k < m && from[k] == i;
      assert f[if k < j then k else k + 1] == i;
    }
  }

  lemma InsertKeepsPositions(ps: seq<Point>, m: int, s: seq<Point>, from: seq<int>, j: int)
    requires 0 <= m < |ps| && 0 <= j <= m
    requires StableOrder(ps[..m], s, from)
    ensures var r, f := s[..j] + [ps[m]] + s[j..], from[..j] + [m] + from[j..];
            && (forall i, k | 0 <= i < k < m + 1 :: f[i] != f[k])
            && (forall k | 0 <= k < m + 1 :: 0 <= f[k] < m + 1 && r[k] == ps[f[k]])
            && (forall i | 0 <= i < m + 1 :: i in f)
  {
    InsertHoldsAll(from, m, j);
    hide Precedes;
  }

  // ---------------------------------------------------------------- the sorted events of a range list

  function Bounds(p: Point): (int, int) {
    if p.kind == Open then (p.offset, p.offset + p.len) else (p.offset - p.len, p.offset)
  }

  function BoundsOf(r: Range): (int, int) { (r.start, r.end) }

  ghost predicate IsEvent(rs: seq<Range>, p: Point, i: int) {
    && 0 <= i < |rs|
    && rs[i].Length() > 0
    && p == if p.kind == Open then OpenOf(rs[i]) else CloseOf(rs[i])
  }

  ghost predicate EventAt(ps: seq<Point>, ids: seq<int>, kind: Kind, i: int, k: int)
    requires |ps| == |ids|
  {
    0 <= k < |ps| && ps[k].kind == kind && ids[k] == i
  }

  ghost predicate HasEvent(ps: seq<Point>, ids: seq<int>, kind: Kind, i: int)
    requires |ps| == |ids|
  {
    exists k :: EventAt(ps, ids, kind, i, k)
  }

  /** `ps` holds one open and one close for every positive-length range, `ids[k]` being
      the range behind `ps[k]`. */
  ghost predicate Events(rs: seq<Range>, ps: seq<Point>, ids: seq<int>) {
    && |ps| == |ids|
    && (forall k | 0 <= k < |ps| :: IsEvent(rs, ps[k], ids[k]))
    && (forall i, kind | 0 <= i < |rs| && rs[i].Length() > 0 :: HasEvent(ps, ids, kind, i))
    && (forall j, k | 0 <= j < k < |ps| && ps[j].kind == ps[k].kind :: ids[j] != ids[k])
  }

  ghost predicate SortedEvents(rs: seq<Range>, ps: seq<Point>, ids: seq<int>) {
    && Events(rs, ps, ids)
    && Sorted(ps)
    && (forall j, k | 0 <= j < k < |ps| && ps[j].kind == ps[k].kind && Bounds(ps[j]) == Bounds(ps[k]) ::
        ids[j] < ids[k])
  }

  /** The ranges whose open (or close) is among the first `k` points. */
  ghost function Seen(ps: seq<Point>, ids: seq<int>, kind: Kind, k: int): set<int>
    requires |ps| == |ids| && 0 <= k <= |ps|
  {
    set m | 0 <= m < k && ps[m].kind == kind :: ids[m]
  }

  ghost function Alike(rs: seq<Range>, b: (int, int)): set<int> {
    set i | 0 <= i < |rs| && rs[i].Length() > 0 && BoundsOf(rs[i]) == b
  }

  lemma SeenNext(rs: seq<Range>, ps: seq<Point>, ids: seq<int>, kind: Kind, k: int)
    requires Events(rs, ps, ids) && 0 <= k < |ps|
    ensures ps[k].kind == kind ==> ids[k] !in Seen(ps, ids, kind, k)
    ensures Seen(ps, ids, kind, k + 1) == Seen(ps, ids, kind, k) + if ps[k].kind == kind then {ids[k]} else {}
  {
  }

  /** A range is opened before it is closed. */
  lemma OpensBeforeCloses(rs: seq<Range>, ps: seq<Point>, ids: seq<int>, k: int)
    requires SortedEvents(rs, ps, ids) && 0 <= k <= |ps|
    ensures Seen(ps, ids, Close, k) <= Seen(ps, ids, Open, k)
  {
    forall m | 0 <= m < k && ps[m].kind == Close
      ensures ids[m] in Seen(ps, ids, Open, k)
    {
      assert IsEvent(rs, ps[m], ids[m]);
      assert HasEvent(ps, ids, Open, ids[m]);
      var o :| EventAt(ps, ids, Open, ids[m], o);
      assert IsEvent(rs, ps[o], ids[o]);
      assert o <= m || Precedes(ps[m], ps[o]);
    }
  }

  /** Whatever the ranges look like, a close never meets an empty stack. */
  lemma NeverPopsEmpty(rs: seq<Range>, ps: seq<Point>, ids: seq<int>, k: int)
    requires SortedEvents(rs, ps, ids)
    requires 0 <= k < |ps| && ps[k].kind == Close
    ensures |Seen(ps, ids, Close, k)| < |Seen(ps, ids, Open, k)|
  {
    SeenNext(rs, ps, ids, Close, k);
    SeenNext(rs, ps, ids, Open, k);
    OpensBeforeCloses(rs, ps, ids, k + 1);
    SubsetSize(Seen(ps, ids, Close, k + 1), Seen(ps, ids, Open, k + 1));
  }

  lemma AllSeen(rs: seq<Range>, ps: seq<Point>, ids: seq<int>)
    requires Events(rs, ps, ids)
    ensures Seen(ps, ids, Open, |ps|) == Seen(ps, ids, Close, |ps|)
  {
    forall i, kind: Kind, other: Kind | i in Seen(ps, ids, kind, |ps|)
      ensures i in Seen(ps, ids, other, |ps|)
    {
      var m :| 0 <= m < |ps| && ps[m].kind == kind && ids[m] == i;
      assert IsEvent(rs, ps[m], ids[m]);
      assert HasEvent(ps, ids, other, i);
      var k :| EventAt(ps, ids, other, i, k);
    }
  }

  // ---------------------------------------------------------------- the stack of a laminar list

  ghost function Elements(g: seq<int>): set<int> { set i | i in g }

  ghost predicate Nested(rs: seq<Range>, inner: int, outer: int) {
    && 0 <= inner < |rs| && 0 <= outer < |rs|
    && Inside(rs[inner], rs[outer])
    && (BoundsOf(rs[inner]) == BoundsOf(rs[outer]) ==> outer < inner)
  }

  /** As many ranges with bounds `b` are on the stack as are opened and not closed. */
  ghost predicate Balanced(rs: seq<Range>, ps: seq<Point>, ids: seq<int>, k: int, g: seq<int>, b: (int, int))
    requires |ps| == |ids| && 0 <= k <= |ps|
  {
    |Elements(g) * Alike(rs, b)| + |Seen(ps, ids, Close, k) * Alike(rs, b)| == |Seen(ps, ids, Open, k) * Alike(rs, b)|
  }

  /** `g` lists the ranges on the stack, outermost first, after the first `k` points. */
  ghost predicate OpenChain(rs: seq<Range>, ps: seq<Point>, ids: seq<int>, k: int, g: seq<int>)
    requires |ps| == |ids| && 0 <= k <= |ps|
  {
    && Elements(g) <= Seen(ps, ids, Open, k)
    && (forall a, b | 0 <= a < b < |g| :: Nested(rs, g[b], g[a]))
    && AllBalanced(rs, ps, ids, k, g)
    && (forall i | i in Seen(ps, ids, Open, k) :: AlikeClosed(rs, Seen(ps, ids, Close, k), i) || i in g)
  }

  ghost predicate AllBalanced(rs: seq<Range>, ps: seq<Point>, ids: seq<int>, k: int, g: seq<int>)
    requires |ps| == |ids| && 0 <= k <= |ps|
  {
    forall b :: Balanced(rs, ps, ids, k, g, b)
  }

  /** A range with the bounds of range `i` is already closed. */
  ghost predicate AlikeClosed(rs: seq<Range>, closed: set<int>, i: int) {
    0 <= i < |rs| && closed * Alike(rs, BoundsOf(rs[i])) != {}
  }

  /** Whatever is on the stack still has a close to come. */
  lemma CloseToCome(rs: seq<Range>, ps: seq<Point>, ids: seq<int>, k: int, g: seq<int>, i: int) returns (j: int)
    requires SortedEvents(rs, ps, ids) && 0 <= k <= |ps|
    requires OpenChain(rs, ps, ids, k, g)
    requires i in g
    ensures 0 <= i < |rs| && k <= j < |ps|
    ensures IsEvent(rs, ps[j], ids[j]) && ps[j].kind == Close && BoundsOf(rs[ids[j]]) == BoundsOf(rs[i])
  {
    assert i in Elements(g);
    var m :| 0 <= m < k && ps[m].kind == Open && ids[m] == i;
    assert IsEvent(rs, ps[m], i);
    var b := BoundsOf(rs[i]);
    var alike := Alike(rs, b);
    assert Balanced(rs, ps, ids, k, g, b);
    assert i in Elements(g) * alike;
    var closed, opens := Seen(ps, ids, Close, k) * alike, Seen(ps, ids, Open, k) * alike;
    if opens <= closed {
      SubsetSize(opens, closed);
    }
    var q :| q in opens && q !in closed;
    assert HasEvent(ps, ids, Close, q);
    j :| EventAt(ps, ids, Close, q, j);
    assert IsEvent(rs, ps[j], ids[j]);
  }

  /** A close always meets a range with its own bounds on top of the stack. */
  lemma CloseMatchesTop(rs: seq<Range>, ps: seq<Point>, ids: seq<int>, k: int, g: seq<int>)
    requires SortedEvents(rs, ps, ids)
    requires 0 <= k < |ps| && ps[k].kind == Close
    requires OpenChain(rs, ps, ids, k, g)
    ensures g != [] && 0 <= ids[k] < |rs| && 0 <= g[|g| - 1] < |rs|
    ensures BoundsOf(rs[g[|g| - 1]]) == BoundsOf(rs[ids[k]])
  {
    assert IsEvent(rs, ps[k], ids[k]);
    var i := StackHasAlike(rs, ps, ids, k, g);
    var t := |g| - 1;
    var j := CloseToCome(rs, ps, ids, k, g, g[t]);
    assert j == k || Precedes(ps[k], ps[j]);
    assert i == t || Nested(rs, g[t], g[i]);
  }

  lemma StackHasAlike(rs: seq<Range>, ps: seq<Point>, ids: seq<int>, k: int, g: seq<int>) returns (i: int)
    requires SortedEvents(rs, ps, ids)
    requires 0 <= k < |ps| && ps[k].kind == Close
    requires OpenChain(rs, ps, ids, k, g)
    ensures 0 <= i < |g| && g[i] in Alike(rs, Bounds(ps[k]))
  {
    var alike := Alike(rs, Bounds(ps[k]));
    AlikeOpened(rs, ps, ids, k);
    assert Seen(ps, ids, Open, k) * alike == alike;
    AlikeStillOpen(rs, ps, ids, k);
    assert Balanced(rs, ps, ids, k, g, Bounds(ps[k]));
    var q :| q in Elements(g) * alike;
    i :| 0 <= i < |g| && g[i] == q;
  }

  lemma AlikeStillOpen(rs: seq<Range>, ps: seq<Point>, ids: seq<int>, k: int)
    requires SortedEvents(rs, ps, ids)
    requires 0 <= k < |ps| && ps[k].kind == Close
    ensures |Seen(ps, ids, Close, k) * Alike(rs, Bounds(ps[k]))| < |Alike(rs, Bounds(ps[k]))|
  {
    var i, alike := ids[k], Alike(rs, Bounds(ps[k]));
    assert IsEvent(rs, ps[k], i);
    var closed := Seen(ps, ids, Close, k);
    assert i !in closed by {
      SeenNext(rs, ps, ids, Close, k);
    }
    assert i in alike && i !in closed * alike;
    SubsetSize(closed * alike, alike);
  }

  /** Before a close is processed, every range with its bounds has been opened. */
  lemma AlikeOpened(rs: seq<Range>, ps: seq<Point>, ids: seq<int>, k: int)
    requires SortedEvents(rs, ps, ids)
    requires 0 <= k < |ps| && ps[k].kind == Close
    ensures Alike(rs, Bounds(ps[k])) <= Seen(ps, ids, Open, k)
  {
    assert IsEvent(rs, ps[k], ids[k]);
    forall i | i in Alike(rs, Bounds(ps[k]))
      ensures i in Seen(ps, ids, Open, k)
    {
      assert HasEvent(ps, ids, Open, i);
      var o :| EventAt(ps, ids, Open, i, o);
      assert IsEvent(rs, ps[o], ids[o]);
      assert o <= k;
    }
  }

  /** An open of a laminar list lies inside everything on the stack. */
  lemma OpenNests(rs: seq<Range>, ps: seq<Point>, ids: seq<int>, k: int, g: seq<int>, i: int)
    requires Laminar(rs) && SortedEvents(rs, ps, ids)
    requires 0 <= k < |ps| && ps[k].kind == Open
    requires OpenChain(rs, ps, ids, k, g)
    requires i in g
    ensures Nested(rs, ids[k], i)
  {
    assert IsEvent(rs, ps[k], ids[k]);
    var j := CloseToCome(rs, ps, ids, k, g, i);
    assert Precedes(ps[k], ps[j]);
    assert i in Elements(g);
    var m :| 0 <= m < k && ps[m].kind == Open && ids[m] == i;
    assert Precedes(ps[m], ps[k]) && IsEvent(rs, ps[m], i);
  }

  lemma AddOne(a: set<int>, i: int, alike: set<int>)
    requires i !in a
    ensures |(a + {i}) * alike| == |a * alike| + if i in alike then 1 else 0
  {
    if i in alike {
      assert (a + {i}) * alike == a * alike + {i};
    } else {
      assert (a + {i}) * alike == a * alike;
    }
  }

  lemma PushKeepsBalance(rs: seq<Range>, ps: seq<Point>, ids: seq<int>, k: int, g: seq<int>)
    requires Events(rs, ps, ids)
    requires 0 <= k < |ps| && ps[k].kind == Open
    requires Elements(g) <= Seen(ps, ids, Open, k)
    requires AllBalanced(rs, ps, ids, k, g)
    ensures Elements(g + [ids[k]]) == Elements(g) + {ids[k]}
    ensures AllBalanced(rs, ps, ids, k + 1, g + [ids[k]])
  {
    var i, k', g' := ids[k], k + 1, g + [ids[k]];
    SeenNext(rs, ps, ids, Open, k);
    SeenNext(rs, ps, ids, Close, k);
    assert Elements(g') == Elements(g) + {i};
    forall b
      ensures Balanced(rs, ps, ids, k', g', b)
    {
      assert Balanced(rs, ps, ids, k, g, b);
      AddOne(Elements(g), i, Alike(rs, b));
      AddOne(Seen(ps, ids, Open, k), i, Alike(rs, b));
    }
  }

  lemma PushKeepsChain(rs: seq<Range>, ps: seq<Point>, ids: seq<int>, k: int, g: seq<int>)
    requires Laminar(rs) && SortedEvents(rs, ps, ids)
    requires 0 <= k < |ps| && ps[k].kind == Open
    requires OpenChain(rs, ps, ids, k, g)
    ensures OpenChain(rs, ps, ids, k + 1, g + [ids[k]])
  {
    SeenNext(rs, ps, ids, Open, k);
    SeenNext(rs, ps, ids, Close, k);
    PushKeepsBalance(rs, ps, ids, k, g);
    forall i | i in g
      ensures Nested(rs, ids[k], i)
    {
      OpenNests(rs, ps, ids, k, g, i);
    }
  }

  lemma PopKeepsBalance(rs: seq<Range>, ps: seq<Point>, ids: seq<int>, k: int, g: seq<int>, top: int, closing: int)
    requires |ps| == |ids| && 0 <= k < |ps|
    requires Seen(ps, ids, Open, k + 1) == Seen(ps, ids, Open, k)
    requires Seen(ps, ids, Close, k + 1) == Seen(ps, ids, Close, k) + {closing} && closing !in Seen(ps, ids, Close, k)
    requires forall b :: top in Alike(rs, b) <==> closing in Alike(rs, b)
    requires top !in g
    requires AllBalanced(rs, ps, ids, k, g + [top])
    ensures AllBalanced(rs, ps, ids, k + 1, g)
  {
    var k' := k + 1;
    assert Elements(g + [top]) == Elements(g) + {top};
    forall b
      ensures Balanced(rs, ps, ids, k', g, b)
    {
      assert Balanced(rs, ps, ids, k, g + [top], b);
      MoveOne(Elements(g), top, Seen(ps, ids, Close, k), closing, Alike(rs, b));
    }
  }

  lemma MoveOne(a: set<int>, i: int, c: set<int>, j: int, alike: set<int>)
    requires i !in a && j !in c && (i in alike <==> j in alike)
    ensures |(a + {i}) * alike| + |c * alike| == |a * alike| + |(c + {j}) * alike|
  {
    AddOne(a, i, alike);
    AddOne(c, j, alike);
  }

  lemma PopKeepsChain(rs: seq<Range>, ps: seq<Point>, ids: seq<int>, k: int, g: seq<int>, top: int)
    requires SortedEvents(rs, ps, ids)
    requires 0 <= k < |ps| && ps[k].kind == Close
    requires OpenChain(rs, ps, ids, k, g + [top])
    ensures OpenChain(rs, ps, ids, k + 1, g)
  {
    var chain := g + [top];
    CloseMatchesTop(rs, ps, ids, k, chain);
    assert IsEvent(rs, ps[k], ids[k]);
    assert top !in g by {
      forall a | 0 <= a < |g|
        ensures g[a] != top
      {
        assert chain[a] == g[a] && chain[|g|] == top;
        assert Nested(rs, chain[|g|], chain[a]);
      }
    }
    TopHasLength(rs, ps, ids, k, chain, top);
    SeenNext(rs, ps, ids, Open, k);
    SeenNext(rs, ps, ids, Close, k);
    PopKeepsBalance(rs, ps, ids, k, g, top, ids[k]);
    PopKeepsMembers(rs, ps, ids, k, g, top);
    forall a, b | 0 <= a < b < |g|
      ensures Nested(rs, g[b], g[a])
    {
      assert chain[a] == g[a] && chain[b] == g[b];
    }
  }

  lemma TopHasLength(rs: seq<Range>, ps: seq<Point>, ids: seq<int>, k: int, g: seq<int>, i: int)
    requires Events(rs, ps, ids) && 0 <= k <= |ps|
    requires Elements(g) <= Seen(ps, ids, Open, k)
    requires i in g
    ensures 0 <= i < |rs| && rs[i].Length() > 0
  {
    assert i in Elements(g);
    var m :| 0 <= m < k && ps[m].kind == Open && ids[m] == i;
    assert IsEvent(rs, ps[m], i);
  }

  lemma PopKeepsMembers(rs: seq<Range>, ps: seq<Point>, ids: seq<int>, k: int, g: seq<int>, top: int)
    requires Events(rs, ps, ids)
    requires 0 <= k < |ps| && ps[k].kind == Close
    requires OpenChain(rs, ps, ids, k, g + [top])
    requires 0 <= top < |rs| && 0 <= ids[k] < |rs| && BoundsOf(rs[top]) == BoundsOf(rs[ids[k]])
    ensures Elements(g) <= Seen(ps, ids, Open, k + 1)
    ensures forall i | i in Seen(ps, ids, Open, k + 1) :: AlikeClosed(rs, Seen(ps, ids, Close, k + 1), i) || i in g
  {
    assert IsEvent(rs, ps[k], ids[k]);
    SeenNext(rs, ps, ids, Open, k);
    SeenNext(rs, ps, ids, Close, k);
    assert Elements(g) <= Elements(g + [top]);
    var closed, closed' := Seen(ps, ids, Close, k), Seen(ps, ids, Close, k + 1);
    forall i | i in Seen(ps, ids, Open, k)
      ensures AlikeClosed(rs, closed', i) || i in g
    {
      if i == top {
        assert ids[k] in closed' * Alike(rs, BoundsOf(rs[i]));
      } else if AlikeClosed(rs, closed, i) {
        var q :| q in closed * Alike(rs, BoundsOf(rs[i]));
        assert q in closed' * Alike(rs, BoundsOf(rs[i]));
      }
    }
  }

  // ---------------------------------------------------------------- the top of the stack decides

  /** Between two offsets the stack holds exactly the ranges around them. */
  lemma CoveringIsOpen(rs: seq<Range>, ps: seq<Point>, ids: seq<int>, k: int, g: seq<int>, p: int, q: int)
    requires SortedEvents(rs, ps, ids)
    requires 0 < k < |ps| && ps[k - 1].offset <= p < ps[k].offset
    requires OpenChain(rs, ps, ids, k, g)
    requires 0 <= q < |rs| && rs[q].Covers(p)
    ensures q in g
  {
    assert HasEvent(ps, ids, Open, q);
    var o :| EventAt(ps, ids, Open, q, o);
    assert IsEvent(rs, ps[o], q);
    assert o < k;
    assert q in Seen(ps, ids, Open, k);
    if AlikeClosed(rs, Seen(ps, ids, Close, k), q) {
      var i :| i in Seen(ps, ids, Close, k) * Alike(rs, BoundsOf(rs[q]));
      ClosedIsPast(rs, ps, ids, k, i);
    }
  }

  lemma ClosedIsPast(rs: seq<Range>, ps: seq<Point>, ids: seq<int>, k: int, i: int)
    requires SortedEvents(rs, ps, ids)
    requires 0 < k <= |ps| && i in Seen(ps, ids, Close, k)
    ensures 0 <= i < |rs| && rs[i].end <= ps[k - 1].offset
  {
    var m :| 0 <= m < k && ps[m].kind == Close && ids[m] == i;
    assert IsEvent(rs, ps[m], i);
    assert m == k - 1 || Precedes(ps[m], ps[k - 1]);
  }

  lemma TopDecides(rs: seq<Range>, ps: seq<Point>, ids: seq<int>, k: int, g: seq<int>, p: int)
    requires SortedEvents(rs, ps, ids)
    requires 0 < k < |ps| && ps[k - 1].offset <= p < ps[k].offset
    requires OpenChain(rs, ps, ids, k, g)
    ensures g != [] ==> Innermost(rs, g[|g| - 1], p)
    ensures UsedAt(rs, p) <==> g != [] && rs[g[|g| - 1]].count > 0
  {
    hide SortedEvents;
    forall q | 0 <= q < |rs| && rs[q].Covers(p)
      ensures q in g
    {
      CoveringIsOpen(rs, ps, ids, k, g, p, q);
    }
    if g != [] {
      TopCovers(rs, ps, ids, k, g, p);
      var top := g[|g| - 1];
      forall q | 0 <= q < |rs| && rs[q].Covers(p)
        ensures rs[top].Length() < rs[q].Length() || (rs[top].Length() == rs[q].Length() && q <= top)
      {
        var i :| 0 <= i < |g| && g[i] == q;
        assert i == |g| - 1 || Nested(rs, top, q);
      }
    }
  }

  lemma TopCovers(rs: seq<Range>, ps: seq<Point>, ids: seq<int>, k: int, g: seq<int>, p: int)
    requires SortedEvents(rs, ps, ids)
    requires 0 < k < |ps| && ps[k - 1].offset <= p < ps[k].offset
    requires OpenChain(rs, ps, ids, k, g) && g != []
    ensures 0 <= g[|g| - 1] < |rs| && rs[g[|g| - 1]].Covers(p)
  {
    var top := g[|g| - 1];
    var j := CloseToCome(rs, ps, ids, k, g, top);
    assert j == k || Precedes(ps[k], ps[j]);
    assert top in Elements(g);
    var m :| 0 <= m < k && ps[m].kind == Open && ids[m] == top;
    assert IsEvent(rs, ps[m], top);
    assert m == k - 1 || Precedes(ps[m], ps[k - 1]);
  }

  lemma {:induction false} SpanSize(lo: int, hi: int)
    requires lo <= hi
    ensures |Span(lo, hi)| == hi - lo
    decreases hi - lo
  {
    if lo < hi {
      SpanSize(lo, hi - 1);
      assert Span(lo, hi) == Span(lo, hi - 1) + {hi - 1} by {
        assert Between(lo, hi - 1, hi);
        forall p | lo <= p < hi - 1
          ensures p in Span(lo, hi) && p in Span(lo, hi - 1)
        {
          assert Between(lo, p, hi) && Between(lo, p, hi - 1);
        }
      }
    } else {
      assert Span(lo, hi) == {};
    }
  }

  lemma UsedAtIsUsedOffset(rs: seq<Range>, p: int)
    ensures UsedAt(rs, p) <==> p in UsedOffsets(rs)
  {
    if UsedAt(rs, p) {
      var i :| Innermost(rs, i, p);
      assert Between(rs[i].start, p, rs[i].end);
      assert p in Offsets(rs[i]);
    }
  }

  /** The offsets between two consecutive points that count as used. */
  ghost function Counting(rs: seq<Range>, ps: seq<Point>, k: int, g: seq<int>): set<int>
    requires 0 < k < |ps| && (g != [] ==> 0 <= g[|g| - 1] < |rs|)
  {
    if g != [] && rs[g[|g| - 1]].count > 0 then Span(ps[k - 1].offset, ps[k].offset) else {}
  }

  lemma UsedBetween(rs: seq<Range>, ps: seq<Point>, ids: seq<int>, k: int, g: seq<int>, p: int)
    requires SortedEvents(rs, ps, ids)
    requires 0 < k < |ps| && OpenChain(rs, ps, ids, k, g)
    requires g != [] ==> 0 <= g[|g| - 1] < |rs|
    requires ps[k - 1].offset <= ps[k].offset
    ensures p in UsedBelow(rs, ps[k].offset) <==> p in UsedBelow(rs, ps[k - 1].offset) || p in Counting(rs, ps, k, g)
  {
    UsedAtIsUsedOffset(rs, p);
    assert Between(ps[k - 1].offset, p, ps[k].offset) == (p in Span(ps[k - 1].offset, ps[k].offset));
    if ps[k - 1].offset <= p < ps[k].offset {
      TopDecides(rs, ps, ids, k, g, p);
    }
  }

  lemma UsedBelowGrows(rs: seq<Range>, ps: seq<Point>, ids: seq<int>, k: int, g: seq<int>)
    requires SortedEvents(rs, ps, ids)
    requires 0 < k < |ps| && OpenChain(rs, ps, ids, k, g)
    requires g != [] ==> 0 <= g[|g| - 1] < |rs|
    ensures |UsedBelow(rs, ps[k].offset)| == |UsedBelow(rs, ps[k - 1].offset)|
            + if g != [] && rs[g[|g| - 1]].count > 0 then ps[k].offset - ps[k - 1].offset else 0
  {
    var lo, hi := ps[k - 1].offset, ps[k].offset;
    assert Precedes(ps[k - 1], ps[k]);
    var added := Counting(rs, ps, k, g);
    forall p
      ensures p in UsedBelow(rs, hi) <==> p in UsedBelow(rs, lo) || p in added
    {
      UsedBetween(rs, ps, ids, k, g, p);
    }
    assert UsedBelow(rs, hi) == UsedBelow(rs, lo) + added;
    assert UsedBelow(rs, lo) !! added;
    SpanSize(lo, hi);
  }

  lemma UsedBelowEnds(rs: seq<Range>, ps: seq<Point>, ids: seq<int>)
    requires SortedEvents(rs, ps, ids) && ps != []
    ensures UsedBelow(rs, ps[0].offset) == {}
    ensures UsedBelow(rs, ps[|ps| - 1].offset) == UsedOffsets(rs)
  {
    forall p | p in UsedOffsets(rs)
      ensures ps[0].offset <= p < ps[|ps| - 1].offset
    {
      var i :| 0 <= i < |rs| && p in Offsets(rs[i]);
      assert Between(rs[i].start, p, rs[i].end);
      assert HasEvent(ps, ids, Open, i) && HasEvent(ps, ids, Close, i);
      var o :| EventAt(ps, ids, Open, i, o);
      var c :| EventAt(ps, ids, Close, i, c);
      assert IsEvent(rs, ps[o], i) && IsEvent(rs, ps[c], i);
      assert o == 0 || Precedes(ps[0], ps[o]);
      assert c == |ps| - 1 || Precedes(ps[c], ps[|ps| - 1]);
    }
  }

  // ---------------------------------------------------------------- the sweep

  /** The stack is as deep as there are open ranges. */
  ghost predicate DepthFits(ps: seq<Point>, ids: seq<int>, k: int, depth: int)
    requires |ps| == |ids| && 0 <= k <= |ps|
  {
    depth + |Seen(ps, ids, Close, k)| == |Seen(ps, ids, Open, k)|
  }

  /** The stack holds the counts of the ranges in `g`. */
  ghost predicate StackFits(rs: seq<Range>, ps: seq<Point>, ids: seq<int>, k: int, stack: seq<int>, g: seq<int>)
    requires |ps| == |ids| && 0 <= k <= |ps|
  {
    && OpenChain(rs, ps, ids, k, g)
    && |g| == |stack|
    && forall i | 0 <= i < |g| :: 0 <= g[i] < |rs| && stack[i] == rs[g[i]].count
  }

  lemma DepthNext(rs: seq<Range>, ps: seq<Point>, ids: seq<int>, k: int, depth: int)
    requires SortedEvents(rs, ps, ids)
    requires 0 <= k < |ps| && DepthFits(ps, ids, k, depth)
    ensures ps[k].kind == Close ==> depth > 0
    ensures DepthFits(ps, ids, k + 1, if ps[k].kind == Open then depth + 1 else depth - 1)
  {
    SeenNext(rs, ps, ids, Open, k);
    SeenNext(rs, ps, ids, Close, k);
    if ps[k].kind == Close {
      NeverPopsEmpty(rs, ps, ids, k);
    }
  }

  lemma PushFits(rs: seq<Range>, ps: seq<Point>, ids: seq<int>, k: int, stack: seq<int>, g: seq<int>)
    requires Laminar(rs) && SortedEvents(rs, ps, ids)
    requires 0 <= k < |ps| && ps[k].kind == Open
    requires StackFits(rs, ps, ids, k, stack, g)
    ensures StackFits(rs, ps, ids, k + 1, stack + [ps[k].count], g + [ids[k]])
  {
    assert IsEvent(rs, ps[k], ids[k]);
    PushKeepsChain(rs, ps, ids, k, g);
  }

  lemma PopFits(rs: seq<Range>, ps: seq<Point>, ids: seq<int>, k: int, stack: seq<int>, g: seq<int>)
    requires Laminar(rs) && SortedEvents(rs, ps, ids)
    requires 0 <= k < |ps| && ps[k].kind == Close
    requires StackFits(rs, ps, ids, k, stack, g) && stack != []
    ensures StackFits(rs, ps, ids, k + 1, stack[..|stack| - 1], g[..|g| - 1])
  {
    assert g == g[..|g| - 1] + [g[|g| - 1]];
    PopKeepsChain(rs, ps, ids, k, g[..|g| - 1], g[|g| - 1]);
  }

  ghost predicate CountFits(rs: seq<Range>, ps: seq<Point>, ids: seq<int>, k: int, stack: seq<int>, g: seq<int>,
                            used: int)
    requires |ps| == |ids| && 0 <= k <= |ps| && ps != []
  {
    && StackFits(rs, ps, ids, k, stack, g)
    && used == |UsedBelow(rs, ps[if k == 0 then 0 else k - 1].offset)|
  }

  ghost predicate Counted(rs: seq<Range>, ps: seq<Point>, ids: seq<int>, k: int, stack: seq<int>, used: int)
    requires |ps| == |ids| && 0 <= k <= |ps| && ps != []
  {
    exists g :: CountFits(rs, ps, ids, k, stack, g, used)
  }

  ghost function Gain(ps: seq<Point>, k: int, stack: seq<int>): int
    requires 0 <= k < |ps|
  {
    if k > 0 && stack != [] && stack[|stack| - 1] > 0 then ps[k].offset - ps[k - 1].offset else 0
  }

  lemma CountedNext(rs: seq<Range>, ps: seq<Point>, ids: seq<int>, k: int, stack: seq<int>, used: int, stack': seq<int>)
    requires Laminar(rs) && SortedEvents(rs, ps, ids)
    requires 0 <= k < |ps| && Counted(rs, ps, ids, k, stack, used)
    requires ps[k].kind == Close ==> stack != []
    requires stack' == if ps[k].kind == Open then stack + [ps[k].count] else stack[..|stack| - 1]
    ensures Counted(rs, ps, ids, k + 1, stack', used + Gain(ps, k, stack))
  {
    var g :| CountFits(rs, ps, ids, k, stack, g, used);
    assert |UsedBelow(rs, ps[k].offset)| == used + Gain(ps, k, stack) by {
      if k > 0 {
        UsedBelowGrows(rs, ps, ids, k, g);
      }
    }
    var g' := StackNext(rs, ps, ids, k, stack, g, stack');
    assert CountFits(rs, ps, ids, k + 1, stack', g', used + Gain(ps, k, stack));
  }

  lemma StackNext(rs: seq<Range>, ps: seq<Point>, ids: seq<int>, k: int, stack: seq<int>, g: seq<int>, stack': seq<int>)
    returns (g': seq<int>)
    requires Laminar(rs) && SortedEvents(rs, ps, ids)
    requires 0 <= k < |ps| && StackFits(rs, ps, ids, k, stack, g)
    requires ps[k].kind == Close ==> stack != []
    requires stack' == if ps[k].kind == Open then stack + [ps[k].count] else stack[..|stack| - 1]
    ensures StackFits(rs, ps, ids, k + 1, stack', g')
  {
    if ps[k].kind == Open {
      PushFits(rs, ps, ids, k, stack, g);
      g' := g + [ids[k]];
    } else {
      PopFits(rs, ps, ids, k, stack, g);
      g' := g[..|g| - 1];
    }
  }

  lemma CountFitsEnds(rs: seq<Range>, ps: seq<Point>, ids: seq<int>)
    requires SortedEvents(rs, ps, ids) && ps != []
    ensures CountFits(rs, ps, ids, 0, [], [], 0)
    ensures forall g, used | CountFits(rs, ps, ids, |ps|, [], g, used) :: used == |UsedOffsets(rs)|
  {
    UsedBelowEnds(rs, ps, ids);
    assert Seen(ps, ids, Open, 0) == Seen(ps, ids, Close, 0) == {};
    forall b
      ensures Balanced(rs, ps, ids, 0, [], b)
    {
    }
  }

  lemma SweepStarts(rs: seq<Range>, ps: seq<Point>, ids: seq<int>)
    requires SortedEvents(rs, ps, ids) && ps != []
    ensures DepthFits(ps, ids, 0, 0) && Counted(rs, ps, ids, 0, [], 0)
  {
    assert Seen(ps, ids, Open, 0) == Seen(ps, ids, Close, 0) == {};
    CountFitsEnds(rs, ps, ids);
  }

  lemma SweepEnds(rs: seq<Range>, ps: seq<Point>, ids: seq<int>, stack: seq<int>, used: int)
    requires SortedEvents(rs, ps, ids) && ps != []
    requires DepthFits(ps, ids, |ps|, |stack|)
    ensures stack == []
    ensures Counted(rs, ps, ids, |ps|, stack, used) ==> used == |UsedOffsets(rs)|
  {
    AllSeen(rs, ps, ids);
    CountFitsEnds(rs, ps, ids);
  }

  lemma InOrder(rs: seq<Range>, ps: seq<Point>, ids: seq<int>, k: int)
    requires SortedEvents(rs, ps, ids) && 0 < k < |ps|
    ensures ps[k - 1].offset <= ps[k].offset
  {
    assert Precedes(ps[k - 1], ps[k]);
  }

  /** The sweep as a recursion over the remaining points. */
  function SweepRest(ps: seq<Point>, stack: seq<int>, last: int): int {
    if ps == [] then 0 else
      var p := ps[0];
      (if stack != [] && p.offset > last && stack[|stack| - 1] > 0 then p.offset - last else 0)
      + SweepRest(ps[1..],
                  if p.kind == Open then stack + [p.count] else if stack == [] then [] else stack[..|stack| - 1],
                  p.offset)
  }

  lemma SweepRestNext(ps: seq<Point>, k: int, stack: seq<int>, last: int)
    requires 0 <= k <= |ps|
    ensures k == 0 ==> SweepRest(ps[k..], stack, last) == SweepRest(ps, stack, last)
    ensures k == |ps| ==> SweepRest(ps[k..], stack, last) == 0
    ensures k < |ps| ==>
              SweepRest(ps[k..], stack, last)
              == (if stack != [] && ps[k].offset > last && stack[|stack| - 1] > 0 then ps[k].offset - last else 0)
                 + SweepRest(ps[k + 1..],
                             if ps[k].kind == Open then stack + [ps[k].count]
                             else if stack == [] then [] else stack[..|stack| - 1],
                             ps[k].offset)
  {
    if k < |ps| {
      assert ps[k..][1..] == ps[k + 1..];
    }
    assert ps[0..] == ps;
  }

  /** The sweep over sorted points. The pop is unconditional in the service; here its
      index is checked, so it never happens on an empty stack. */
  method Sweep(ghost rs: seq<Range>, ps: seq<Point>, ghost ids: seq<int>) returns (used: nat)
    requires |ps| == |ids| && ps != [] && SortedEvents(rs, ps, ids)
    ensures used == SweepRest(ps, [], ps[0].offset)
    ensures used <= ps[|ps| - 1].offset - ps[0].offset
    ensures Laminar(rs) ==> used == |UsedOffsets(rs)|
  {
    hide SortedEvents, Counted, DepthFits, Laminar, SweepRest, UsedOffsets;
    var stack: seq<int> := [];
    used := 0;
    var lastOffset := ps[0].offset;
    SweepStarts(rs, ps, ids);
    SweepRestNext(ps, 0, stack, lastOffset);
    for k := 0 to |ps|
      invariant DepthFits(ps, ids, k, |stack|)
      invariant lastOffset == ps[if k == 0 then 0 else k - 1].offset
      invariant used <= lastOffset - ps[0].offset
      invariant used + SweepRest(ps[k..], stack, lastOffset) == SweepRest(ps, [], ps[0].offset)
      invariant Laminar(rs) ==> Counted(rs, ps, ids, k, stack, used)
    {
      if k > 0 {
        InOrder(rs, ps, ids, k);
      }
      DepthNext(rs, ps, ids, k, |stack|);
      SweepRestNext(ps, k, stack, lastOffset);
      ghost var stack' := if ps[k].kind == Open then stack + [ps[k].count] else stack[..|stack| - 1];
      if Laminar(rs) {
        CountedNext(rs, ps, ids, k, stack, used, stack');
      }
      if stack != [] && ps[k].offset > lastOffset && stack[|stack| - 1] > 0 {
        used := used + (ps[k].offset - lastOffset);
      }
      lastOffset := ps[k].offset;
      if ps[k].kind == Open {
        stack := stack + [ps[k].count];
      } else {
        stack := stack[..|stack| - 1];
      }
    }
    SweepRestNext(ps, |ps|, stack, lastOffset);
    SweepEnds(rs, ps, ids, stack, used);
  }

  // ---------------------------------------------------------------- the whole function

  /** The unsorted points, two per positive-length range, with their range numbers. */
  ghost predicate RawEvents(rs: seq<Range>, ps: seq<Point>, ids: seq<int>) {
    && Events(rs, ps, ids)
    && forall j, k | 0 <= j < k < |ps| && ps[j].kind == ps[k].kind :: ids[j] < ids[k]
  }

  lemma AppendRange(rs: seq<Range>, r: Range, ps: seq<Point>, ids: seq<int>)
    requires RawEvents(rs, ps, ids)
    ensures r.Length() <= 0 ==> RawEvents(rs + [r], ps, ids)
    ensures r.Length() > 0 ==> RawEvents(rs + [r], ps + [OpenOf(r), CloseOf(r)], ids + [|rs|, |rs|])
  {
    var rs' := rs + [r];
    var ps', ids' := ps + [OpenOf(r), CloseOf(r)], ids + [|rs|, |rs|];
    forall k | 0 <= k < |ps|
      ensures IsEvent(rs', ps[k], ids[k]) && IsEvent(rs, ps[k], ids[k])
    {
    }
    forall i, kind | 0 <= i < |rs'| && rs'[i].Length() > 0
      ensures i < |rs| ==> HasEvent(ps, ids, kind, i)
      ensures HasEvent(ps', ids', kind, i)
    {
      if i < |rs| {
        assert rs'[i] == rs[i];
        assert HasEvent(ps, ids, kind, i);
        var k :| EventAt(ps, ids, kind, i, k);
        assert EventAt(ps', ids', kind, i, k);
      } else {
        assert EventAt(ps', ids', kind, i, if kind == Open then |ps| else |ps| + 1);
      }
    }
  }

  lemma SortingKeepsEvents(rs: seq<Range>, ps: seq<Point>, ids: seq<int>, sorted: seq<Point>, from: seq<int>)
    returns (order: seq<int>)
    requires RawEvents(rs, ps, ids)
    requires Sorted(sorted) && StableOrder(ps, sorted, from)
    ensures SortedEvents(rs, sorted, order)
  {
    order := seq(|from|, k requires 0 <= k < |from| => ids[from[k]]);
    forall i, kind | 0 <= i < |rs| && rs[i].Length() > 0
      ensures HasEvent(sorted, order, kind, i)
    {
      assert HasEvent(ps, ids, kind, i);
      var j :| EventAt(ps, ids, kind, i, j);
      assert j in from;
      var k :| 0 <= k < |from| && from[k] == j;
      assert EventAt(sorted, order, kind, i, k);
    }
    forall k | 0 <= k < |sorted|
      ensures IsEvent(rs, sorted[k], order[k])
    {
      assert IsEvent(rs, ps[from[k]], ids[from[k]]);
    }
    SortingKeepsOrder(rs, ps, ids, sorted, from, order);
  }

  lemma SortingKeepsOrder(rs: seq<Range>, ps: seq<Point>, ids: seq<int>, sorted: seq<Point>, from: seq<int>,
                          order: seq<int>)
    requires RawEvents(rs, ps, ids)
    requires Sorted(sorted) && StableOrder(ps, sorted, from)
    requires |order| == |from| && forall k | 0 <= k < |from| :: order[k] == ids[from[k]]
    ensures forall j, k | 0 <= j < k < |sorted| && sorted[j].kind == sorted[k].kind :: order[j] != order[k]
    ensures forall j, k | 0 <= j < k < |sorted| && sorted[j].kind == sorted[k].kind
                          && Bounds(sorted[j]) == Bounds(sorted[k]) ::
              order[j] < order[k]
  {
    forall j, k | 0 <= j < k < |sorted| && sorted[j].kind == sorted[k].kind
      ensures order[j] != order[k]
      ensures Bounds(sorted[j]) == Bounds(sorted[k]) ==> order[j] < order[k]
    {
      var a, b := from[j], from[k];
      assert sorted[j] == ps[a] && sorted[k] == ps[b];
      if a < b {
      } else {
        assert ids[b] < ids[a];
        assert !Precedes(sorted[k], sorted[j]);
      }
    }
  }

  lemma NothingUsed(rs: seq<Range>)
    requires RawEvents(rs, [], [])
    ensures UsedOffsets(rs) == {} && IsTotal(rs, 0)
  {
    forall i | 0 <= i < |rs|
      ensures rs[i].Length() <= 0
    {
      assert !HasEvent([], [], Open, i);
    }
    forall i | 0 <= i < |rs|
      ensures Offsets(rs[i]) == {}
    {
    }
  }

  lemma TotalFromCloses(rs: seq<Range>, ps: seq<Point>, ids: seq<int>, total: int)
    requires RawEvents(rs, ps, ids) && total >= 0
    requires forall k | 0 <= k < |ps| && ps[k].kind == Close :: ps[k].offset <= total
    requires total == 0 || exists k :: 0 <= k < |ps| && ps[k].kind == Close && ps[k].offset == total
    ensures IsTotal(rs, total)
  {
    forall i | 0 <= i < |rs| && rs[i].Length() > 0
      ensures rs[i].end <= total
    {
      assert HasEvent(ps, ids, Close, i);
      var k :| EventAt(ps, ids, Close, i, k);
      assert IsEvent(rs, ps[k], i);
    }
    if total > 0 {
      var k :| 0 <= k < |ps| && ps[k].kind == Close && ps[k].offset == total;
      assert IsEvent(rs, ps[k], ids[k]);
    }
  }

  lemma WithinTotal(rs: seq<Range>, ps: seq<Point>, ids: seq<int>, total: int)
    requires SortedEvents(rs, ps, ids) && ps != [] && IsTotal(rs, total)
    requires forall i | 0 <= i < |rs| && rs[i].Length() > 0 :: rs[i].start >= 0
    ensures ps[|ps| - 1].offset - ps[0].offset <= total
  {
    assert IsEvent(rs, ps[0], ids[0]) && IsEvent(rs, ps[|ps| - 1], ids[|ps| - 1]);
  }

  /** The sweep's sum, on any ranges: also where they cross. */
  ghost predicate SweptFrom(rs: seq<Range>, used: int) {
    exists ps: seq<Point>, ids | SortedEvents(rs, ps, ids) ::
      used == if ps == [] then 0 else SweepRest(ps, [], ps[0].offset)
  }

  /** `(used, total)` for one script's function ranges. */
  method ComputeJsCoverage(functions: seq<seq<Range>>) returns (used: nat, total: nat)
    ensures SweptFrom(Flat(functions), used)
    ensures IsTotal(Flat(functions), total)
    ensures Laminar(Flat(functions)) ==> used == |UsedOffsets(Flat(functions))|
    ensures (forall r | r in Flat(functions) && r.Length() > 0 :: r.start >= 0) ==> used <= total
  {
    ghost var rs := Flat(functions);
    var points := FlattenPoints(functions);
    ghost var ids :| RawEvents(rs, points, ids);
    if points == [] {
      NothingUsed(rs);
      assert SortedEvents(rs, points, ids);
      return 0, 0;
    }
    total := 0;
    for k := 0 to |points|
      invariant forall j | 0 <= j < k && points[j].kind == Close :: points[j].offset <= total
      invariant total == 0 || exists j :: 0 <= j < k && points[j].kind == Close && points[j].offset == total
    {
      if points[k].kind == Close && points[k].offset > total {
        total := points[k].offset;
      }
    }
    TotalFromCloses(rs, points, ids, total);
    var sorted, from := SortPoints(points);
    ghost var order := SortingKeepsEvents(rs, points, ids, sorted, from);
    used := Sweep(rs, sorted, order);
    assert SortedEvents(rs, sorted, order);
    if forall r | r in rs && r.Length() > 0 :: r.start >= 0 {
      WithinTotal(rs, sorted, order, total);
    }
  }

  /** An open and a close point for each range of positive length, in list order. */
  method FlattenPoints(functions: seq<seq<Range>>) returns (points: seq<Point>)
    ensures exists ids :: RawEvents(Flat(functions), points, ids)
  {
    points := [];
    ghost var ids: seq<int> := [];
    ghost var rs: seq<Range> := [];
    for i := 0 to |functions|
      invariant rs == Flat(functions[..i])
      invariant RawEvents(rs, points, ids)
    {
      var f := functions[i];
      ghost var before := rs;
      for j := 0 to |f|
        invariant rs == before + f[..j]
        invariant RawEvents(rs, points, ids)
      {
        var r := f[j];
        var len := r.end - r.start;
        AppendRange(rs, r, points, ids);
        assert before + f[..j + 1] == rs + [r];
        if len > 0 {
          points := points + [Point(r.start, Open, len, r.count), Point(r.end, Close, len, r.count)];
          ids := ids + [|rs|, |rs|];
        }
        rs := rs + [r];
      }
      assert functions[..i + 1][..i] == functions[..i];
      assert f[..|f|] == f;
    }
    assert functions[..|functions|] == functions;
  }
}
