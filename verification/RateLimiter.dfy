/** The process-wide token bucket, over the reals. */
module RateLimiting {
  import opened Wrappers

  datatype Bucket = Bucket(tokens: real, capacity: real, refill: real, last: real)

  function RMin(a: real, b: real): real { if a < b then a else b }

  function RMax(a: real, b: real): real { if a < b then b else a }

  /** What `elapsed` seconds add. */
  function Refilled(b: Bucket, elapsed: real): real { elapsed * b.refill }

  /** Tokens available to a call at `now`, before it takes one; elapsed time is never negative. */
  function Level(b: Bucket, now: real): real {
    RMin(b.tokens + Refilled(b, RMax(now - b.last, 0.0)), b.capacity)
  }

  predicate Admits(b: Bucket, now: real) { Level(b, now) >= 1.0 }

  function Take(b: Bucket, now: real): Bucket {
    b.(tokens := Level(b, now) - (if Admits(b, now) then 1.0 else 0.0), last := now)
  }

  class RateLimiter {
    var inner: Option<Bucket>

    constructor FromEnv(rps: nat, burst: nat, now: real)
      ensures rps == 0 ==> inner == None
      ensures rps > 0 ==> inner.Some? && Full(inner.value, Max(burst, 1) as real, rps as real, now)
    {
      if rps == 0 {
        inner := None;
      } else {
        inner := Some(Bucket(Max(burst, 1) as real, Max(burst, 1) as real, rps as real, now));
      }
    }

    /** No limiter admits everything. */
    method TryAcquire(now: real) returns (allowed: bool)
      modifies this
      ensures old(inner).None? ==> allowed && inner == None
      ensures old(inner).Some? ==>
        allowed == Admits(old(inner).value, now) && inner == Some(Take(old(inner).value, now))
    {
      if inner == None {
        return true;
      }
      var b := inner.value;
      var elapsed := RMax(now - b.last, 0.0);
      b := b.(last := now);
      b := b.(tokens := RMin(b.tokens + elapsed * b.refill, b.capacity));
      if b.tokens >= 1.0 {
        b := b.(tokens := b.tokens - 1.0);
        allowed := true;
      } else {
        allowed := false;
      }
      inner := Some(b);
    }
  }

  // ---------------------------------------------------------------- runs of calls

  /** A bucket as it is made: full. */
  predicate Full(b: Bucket, capacity: real, refill: real, now: real) {
    b == Bucket(capacity, capacity, refill, now) && capacity >= 1.0 && refill >= 0.0
  }

  /** Call times never go back, and none is before the bucket was made. */
  ghost predicate Times(b: Bucket, t: seq<real>) {
    && (forall i | 0 <= i < |t| :: b.last <= t[i])
    && (forall i, j | 0 <= i <= j < |t| :: t[i] <= t[j])
  }

  /** The bucket after the first `n` calls. */
  function After(b: Bucket, t: seq<real>, n: nat): Bucket
    requires n <= |t|
  {
    if n == 0 then b else Take(After(b, t, n - 1), t[n - 1])
  }

  predicate AdmittedAt(b: Bucket, t: seq<real>, n: nat)
    requires n < |t|
  {
    Admits(After(b, t, n), t[n])
  }

  /** How many of the calls `k` to `n - 1` are admitted. */
  function Admitted(b: Bucket, t: seq<real>, k: nat, n: nat): nat
    requires k <= n <= |t|
  {
    if k == n then 0 else Admitted(b, t, k, n - 1) + if AdmittedAt(b, t, n - 1) then 1 else 0
  }

  /** What window `k..n` leaves for call `n`: the burst and `rate` tokens a second, less the
      calls admitted in it. */
  function Room(b: Bucket, t: seq<real>, k: nat, n: nat): real
    requires k <= n < |t|
  {
    b.capacity + (t[n] - t[k]) * b.refill - Admitted(b, t, k, n) as real
  }

  lemma {:induction false} Parameters(b: Bucket, t: seq<real>, n: nat)
    requires n <= |t|
    ensures var a := After(b, t, n);
            a.capacity == b.capacity && a.refill == b.refill && a.last == if n == 0 then b.last else t[n - 1]
  {
    if n > 0 {
      Parameters(b, t, n - 1);
    }
  }

  lemma RefillAdds(b: Bucket, x: real, y: real)
    ensures Refilled(b, x + y) == Refilled(b, x) + Refilled(b, y)
    ensures b.refill >= 0.0 && y >= 0.0 ==> Refilled(b, y) >= 0.0
    ensures Refilled(b, 0.0) == 0.0
  {
  }

  lemma RoomGrows(b: Bucket, t: seq<real>, k: nat, n: nat)
    requires k <= n && n + 1 < |t|
    ensures Room(b, t, k, n + 1)
            == Room(b, t, k, n) + Refilled(b, t[n + 1] - t[n]) - (if AdmittedAt(b, t, n) then 1.0 else 0.0)
  {
    WindowRefills(b, t, k, n);
    WindowRefills(b, t, k, n + 1);
    RefillAdds(b, t[n] - t[k], t[n + 1] - t[n]);
    hide Refilled, Room;
    assert t[n + 1] - t[k] == (t[n] - t[k]) + (t[n + 1] - t[n]);
  }

  /** The bucket refills by the rate. */
  lemma RefillIs(b: Bucket, x: real)
    ensures Refilled(b, x) == x * b.refill
  {
  }

  lemma WindowRefills(b: Bucket, t: seq<real>, k: nat, n: nat)
    requires k <= n < |t|
    ensures Refilled(b, t[n] - t[k]) == (t[n] - t[k]) * b.refill
    ensures Room(b, t, k, n) == b.capacity + Refilled(b, t[n] - t[k]) - Admitted(b, t, k, n) as real
  {
    hide Admitted, Refilled;
    RefillIs(b, t[n] - t[k]);
  }

  lemma SameRefill(a: Bucket, b: Bucket, x: real)
    requires a.refill == b.refill
    ensures Refilled(a, x) == Refilled(b, x)
  {
  }

  lemma LevelNext(b: Bucket, t: seq<real>, n: nat)
    requires Times(b, t) && n + 1 < |t|
    ensures Level(After(b, t, n + 1), t[n + 1])
            == RMin(Level(After(b, t, n), t[n]) - (if AdmittedAt(b, t, n) then 1.0 else 0.0)
                    + Refilled(b, t[n + 1] - t[n]), b.capacity)
  {
    hide Refilled;
    Parameters(b, t, n + 1);
    assert After(b, t, n + 1) == Take(After(b, t, n), t[n]);
    SameRefill(After(b, t, n + 1), b, t[n + 1] - t[n]);
  }

  lemma RoomNow(b: Bucket, t: seq<real>, n: nat)
    requires Full(b, b.capacity, b.refill, b.last) && Times(b, t) && n < |t|
    ensures Room(b, t, n, n) == b.capacity
    ensures n == 0 ==> Level(After(b, t, n), t[n]) == b.capacity
  {
    RefillAdds(b, 0.0, RMax(t[n] - b.last, 0.0));
  }

  /** The level at call `n` is the tightest of the windows ending there. */
  lemma {:induction false} LevelIsTightestRoom(b: Bucket, t: seq<real>, n: nat)
    requires Full(b, b.capacity, b.refill, b.last) && Times(b, t) && n < |t|
    ensures forall k | 0 <= k <= n :: Level(After(b, t, n), t[n]) <= Room(b, t, k, n)
    ensures exists k :: 0 <= k <= n && Level(After(b, t, n), t[n]) == Room(b, t, k, n)
  {
    hide Level, Refilled, After, Room, Admitted;
    var level := Level(After(b, t, n), t[n]);
    RoomNow(b, t, n);
    if n > 0 {
      LevelIsTightestRoom(b, t, n - 1);
      LevelNext(b, t, n - 1);
      forall k | 0 <= k < n
        ensures level <= Room(b, t, k, n)
      {
        RoomGrows(b, t, k, n - 1);
      }
      if level != b.capacity {
        var k :| 0 <= k <= n - 1 && Level(After(b, t, n - 1), t[n - 1]) == Room(b, t, k, n - 1);
        RoomGrows(b, t, k, n - 1);
        assert level == Room(b, t, k, n);
      }
    }
  }

  /** Window `k..n` leaves room for call `n`. */
  ghost predicate Fits(b: Bucket, t: seq<real>, k: nat, n: nat)
    requires k <= n < |t|
  {
    Admitted(b, t, k, n) as real + 1.0 <= b.capacity + (t[n] - t[k]) * b.refill
  }

  /** A call is admitted exactly when every window ending at it stays within
      capacity + rate * elapsed, this call included. */
  lemma AdmittedExactlyWhen(b: Bucket, t: seq<real>, n: nat)
    requires Full(b, b.capacity, b.refill, b.last) && Times(b, t) && n < |t|
    ensures AdmittedAt(b, t, n) <==> forall k | 0 <= k <= n :: Fits(b, t, k, n)
  {
    LevelIsTightestRoom(b, t, n);
    hide After, Admitted;
    forall k | 0 <= k <= n
      ensures Fits(b, t, k, n) <==> Room(b, t, k, n) >= 1.0
    {
      FitsIsRoom(b, t, k, n);
    }
    hide Room, Fits;
  }

  lemma FitsIsRoom(b: Bucket, t: seq<real>, k: nat, n: nat)
    requires k <= n < |t|
    ensures Fits(b, t, k, n) <==> Room(b, t, k, n) >= 1.0
  {
  }

  /** Room is never overdrawn. */
  lemma {:induction false} RoomLeft(b: Bucket, t: seq<real>, i: nat, j: nat)
    requires Full(b, b.capacity, b.refill, b.last) && Times(b, t) && i <= j < |t|
    ensures Room(b, t, i, j) >= if AdmittedAt(b, t, j) then 1.0 else 0.0
    decreases j
  {
    hide Room, Refilled, Admitted, After, AdmittedAt;
    if AdmittedAt(b, t, j) {
      AdmittedExactlyWhen(b, t, j);
      FitsIsRoom(b, t, i, j);
    } else if i < j {
      RoomLeft(b, t, i, j - 1);
      RoomGrows(b, t, i, j - 1);
      RefillAdds(b, 0.0, t[j] - t[j - 1]);
    } else {
      RoomNow(b, t, j);
    }
  }

  lemma OneMoreCall(b: Bucket, t: seq<real>, i: nat, j: nat)
    requires i <= j < |t|
    ensures Admitted(b, t, i, j + 1) == Admitted(b, t, i, j) + if AdmittedAt(b, t, j) then 1 else 0
  {
    hide AdmittedAt;
  }

  lemma RoomMeans(b: Bucket, t: seq<real>, i: nat, j: nat)
    requires i <= j < |t|
    ensures Room(b, t, i, j) + Admitted(b, t, i, j) as real == b.capacity + (t[j] - t[i]) * b.refill
  {
    hide Admitted;
  }

  /** No window of calls is admitted beyond the burst plus what its length refills. */
  lemma WindowBound(b: Bucket, t: seq<real>, i: nat, j: nat)
    requires Full(b, b.capacity, b.refill, b.last) && Times(b, t) && i <= j < |t|
    ensures Admitted(b, t, i, j + 1) as real <= b.capacity + (t[j] - t[i]) * b.refill
  {
    hide *;
    RoomLeft(b, t, i, j);
    OneMoreCall(b, t, i, j);
    RoomMeans(b, t, i, j);
  }
}
