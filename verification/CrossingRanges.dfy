/** What the sweep makes of two ranges that cross: exactly how far off it is. */
module CrossingRanges {
  import opened Coverage

  /** `a` begins first, and ends inside `b`. */
  predicate Cross(rs: seq<Range>, a: Range, b: Range) {
    (rs == [a, b] || rs == [b, a]) && a.start < b.start < a.end < b.end
  }

  /** Which of the two decides where they overlap: the shorter, or the later of equal ones. */
  predicate FirstIsInner(rs: seq<Range>, a: Range, b: Range) {
    a.Length() < b.Length() || (a.Length() == b.Length() && rs == [b, a])
  }

  function Weight(used: bool, length: int): int { if used then length else 0 }

  /** The offsets used: those of `a` alone, of the overlap, and of `b` alone. */
  function TrulyUsed(rs: seq<Range>, a: Range, b: Range): int {
    Weight(a.count > 0, b.start - a.start)
    + Weight(if FirstIsInner(rs, a, b) then a.count > 0 else b.count > 0, a.end - b.start)
    + Weight(b.count > 0, b.end - a.end)
  }

  /** What the sweep adds up: the overlap goes to `b`, and the rest of `b` to `a`. */
  function Swept(a: Range, b: Range): int {
    Weight(a.count > 0, b.start - a.start) + Weight(b.count > 0, a.end - b.start) + Weight(a.count > 0, b.end - a.end)
  }

  // ---------------------------------------------------------------- the sorted points

  lemma NumberOf(rs: seq<Range>, a: Range, b: Range) returns (i: int, j: int)
    requires Cross(rs, a, b)
    ensures {i, j} == {0, 1} && i != j && |rs| == 2 && rs[i] == a && rs[j] == b
    ensures i < j <==> rs == [a, b]
  {
    if rs == [a, b] {
      i, j := 0, 1;
    } else {
      i, j := 1, 0;
    }
  }

  lemma FourPoints(rs: seq<Range>, a: Range, b: Range, ps: seq<Point>, ids: seq<int>)
    requires Cross(rs, a, b) && SortedEvents(rs, ps, ids)
    ensures ps == [OpenOf(a), OpenOf(b), CloseOf(a), CloseOf(b)]
  {
    var i, j := NumberOf(rs, a, b);
    assert HasEvent(ps, ids, Open, i) && HasEvent(ps, ids, Open, j);
    assert HasEvent(ps, ids, Close, i) && HasEvent(ps, ids, Close, j);
    var oa :| EventAt(ps, ids, Open, i, oa);
    var ob :| EventAt(ps, ids, Open, j, ob);
    var ca :| EventAt(ps, ids, Close, i, ca);
    var cb :| EventAt(ps, ids, Close, j, cb);
    assert IsEvent(rs, ps[oa], i) && IsEvent(rs, ps[ob], j) && IsEvent(rs, ps[ca], i) && IsEvent(rs, ps[cb], j);
    Before(ps, oa, ob);
    Before(ps, ob, ca);
    Before(ps, ca, cb);
    forall k: int | 0 <= k < |ps|
      ensures OneOf(k, oa, ob, ca, cb)
    {
      assert IsEvent(rs, ps[k], ids[k]);
    }
    OnlyFour(|ps|, oa, ob, ca, cb);
    hide SortedEvents, HasEvent, OneOf;
  }

  predicate OneOf(k: int, a: int, b: int, c: int, d: int) { k == a || k == b || k == c || k == d }

  lemma OnlyFour(n: int, a: int, b: int, c: int, d: int)
    requires 0 <= a < b < c < d < n && forall k | 0 <= k < n :: OneOf(k, a, b, c, d)
    ensures (a, b, c, d, n) == (0, 1, 2, 3, 4)
  {
    assert OneOf(0, a, b, c, d) && OneOf(1, a, b, c, d) && OneOf(2, a, b, c, d) && OneOf(3, a, b, c, d);
    assert n > 4 ==> OneOf(4, a, b, c, d);
  }

  lemma Before(ps: seq<Point>, i: int, j: int)
    requires Sorted(ps) && 0 <= i < |ps| && 0 <= j < |ps| && ps[i].offset < ps[j].offset
    ensures i < j
  {
    assert !Precedes(ps[j], ps[i]);
  }

  lemma SweepOfFour(a: Range, b: Range)
    requires a.start < b.start < a.end < b.end
    ensures SweepRest([OpenOf(a), OpenOf(b), CloseOf(a), CloseOf(b)], [], a.start) == Swept(a, b)
  {
    var ps := [OpenOf(a), OpenOf(b), CloseOf(a), CloseOf(b)];
    var x, y := a.count, b.count;
    assert ps[1..] == [ps[1], ps[2], ps[3]] && ps[2..] == [ps[2], ps[3]] && ps[3..] == [ps[3]];
    assert SweepRest(ps[3..], [x], a.end) == Weight(x > 0, b.end - a.end) by {
      assert [x][..0] == [] && ps[3..][1..] == [];
    }
    assert SweepRest(ps[2..], [x, y], b.start) == Weight(y > 0, a.end - b.start) + Weight(x > 0, b.end - a.end) by {
      assert ps[2..][1..] == ps[3..] && [x, y][..1] == [x];
    }
    assert SweepRest(ps[1..], [x], a.start) == Swept(a, b) by {
      assert ps[1..][1..] == ps[2..] && [x] + [y] == [x, y];
    }
    assert [] + [x] == [x];
  }

  // ---------------------------------------------------------------- the used offsets

  lemma UsedWhere(rs: seq<Range>, a: Range, b: Range, p: int)
    requires Cross(rs, a, b)
    ensures UsedAt(rs, p) <==>
              || (a.count > 0 && a.start <= p < b.start)
              || ((if FirstIsInner(rs, a, b) then a.count > 0 else b.count > 0) && b.start <= p < a.end)
              || (b.count > 0 && a.end <= p < b.end)
  {
    var i, j := NumberOf(rs, a, b);
    if a.start <= p < b.start {
      assert Innermost(rs, i, p);
    } else if b.start <= p < a.end {
      assert Innermost(rs, if FirstIsInner(rs, a, b) then i else j, p);
    } else if a.end <= p < b.end {
      assert Innermost(rs, j, p);
    }
  }

  ghost function Part(used: bool, lo: int, hi: int): set<int> { if used then Span(lo, hi) else {} }

  lemma PartSize(used: bool, lo: int, hi: int)
    requires lo <= hi
    ensures |Part(used, lo, hi)| == Weight(used, hi - lo)
    ensures forall p :: p in Part(used, lo, hi) <==> used && lo <= p < hi
  {
    SpanSize(lo, hi);
    forall p
      ensures p in Part(used, lo, hi) <==> used && lo <= p < hi
    {
      assert Between(lo, p, hi) == (p in Span(lo, hi));
    }
  }

  lemma UsedCount(rs: seq<Range>, a: Range, b: Range)
    requires Cross(rs, a, b)
    ensures |UsedOffsets(rs)| == TrulyUsed(rs, a, b)
  {
    hide UsedOffsets, UsedAt, Part;
    var inner := if FirstIsInner(rs, a, b) then a.count > 0 else b.count > 0;
    var x, y, z := Part(a.count > 0, a.start, b.start), Part(inner, b.start, a.end), Part(b.count > 0, a.end, b.end);
    PartSize(a.count > 0, a.start, b.start);
    PartSize(inner, b.start, a.end);
    PartSize(b.count > 0, a.end, b.end);
    forall p
      ensures p in UsedOffsets(rs) <==> p in x + y + z
    {
      UsedAtIsUsedOffset(rs, p);
      UsedWhere(rs, a, b, p);
    }
    OnEitherSide(x, y, b.start);
    OnEitherSide(x + y, z, a.end);
    hide FirstIsInner;
    assert UsedOffsets(rs) == x + y + z;
    ThreeSizes(x, y, z);
  }

  lemma OnEitherSide(x: set<int>, y: set<int>, mid: int)
    requires (forall p | p in x :: p < mid) && forall p | p in y :: mid <= p
    ensures x !! y
  {
    forall p | p in x
      ensures p !in y
    {
    }
  }

  lemma ThreeSizes(x: set<int>, y: set<int>, z: set<int>)
    requires x !! y && (x + y) !! z
    ensures |x + y + z| == |x| + |y| + |z|
  {
  }

  // ---------------------------------------------------------------- how far off

  /** For every two crossing ranges: what the sweep reports, what is used, and that the two
      are equal if and only if both ranges ran or neither did, or the inner range is the one
      that begins first and the two mistakes cancel. */
  lemma CrossingPair(rs: seq<Range>, a: Range, b: Range, used: int)
    requires Cross(rs, a, b) && SweptFrom(rs, used)
    ensures used == Swept(a, b) && |UsedOffsets(rs)| == TrulyUsed(rs, a, b)
    ensures used == |UsedOffsets(rs)| <==>
            || (a.count > 0 <==> b.count > 0)
            || (FirstIsInner(rs, a, b) && a.end - b.start == b.end - a.end)
  {
    var ps: seq<Point>, ids :|
      SortedEvents(rs, ps, ids) && used == if ps == [] then 0 else SweepRest(ps, [], ps[0].offset);
    FourPoints(rs, a, b, ps, ids);
    SweepOfFour(a, b);
    UsedCount(rs, a, b);
    hide SweepRest, SortedEvents, UsedOffsets;
  }

  /** Offsets 10 to 19 lie only in a range that did not run, yet the sweep counts them: 15
      against 10. */
  lemma CrossingRangesOverCount(rs: seq<Range>, used: int)
    requires rs == [Range(0, 10, 1), Range(5, 20, 0)] && SweptFrom(rs, used)
    ensures used == 15 && |UsedOffsets(rs)| == 10
  {
    CrossingPair(rs, rs[0], rs[1], used);
    hide SweptFrom, UsedOffsets;
  }
}
