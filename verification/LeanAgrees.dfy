/** The lean collect loop against the full one, on the same page load.

    The full loop also hears other streams. They can keep it awake past a quiet exit, or end
    it in a tie with its sleep; what it then knows is the fold of the events it heard. */
module LeanAgrees {
  import opened Wrappers
  import opened Collect

  // ---------------------------------------------------------------- the events both loops hear

  function CoreOnly(events: seq<Arrival>): seq<Arrival> {
    if events == [] then [] else
      var last := events[|events| - 1];
      CoreOnly(events[..|events| - 1]) + if IsCore(last.event) then [last] else []
  }

  /** How many of the first `k` events the lean loop hears. */
  function Heard(events: seq<Arrival>, k: nat): (c: nat)
    requires k <= |events|
    ensures c <= |CoreOnly(events)|
  {
    CoreOnlyPrefix(events, k);
    |CoreOnly(events[..k])|
  }

  lemma {:induction false} CoreOnlyPrefix(events: seq<Arrival>, k: nat)
    requires k <= |events|
    ensures CoreOnly(events[..k]) <= CoreOnly(events)
    ensures forall a | a in CoreOnly(events) :: a in events && IsCore(a.event)
  {
    if events != [] {
      var n := |events| - 1;
      if k <= n {
        CoreOnlyPrefix(events[..n], k);
        assert events[..n][..k] == events[..k];
      } else {
        CoreOnlyPrefix(events[..n], n);
        assert events[..k] == events;
      }
    }
  }

  lemma HeardNext(events: seq<Arrival>, k: nat)
    requires k < |events|
    ensures Heard(events, k + 1) == Heard(events, k) + if IsCore(events[k].event) then 1 else 0
    ensures Heard(events, k + 1) <= |CoreOnly(events)|
    ensures IsCore(events[k].event) ==> CoreOnly(events)[Heard(events, k)] == events[k]
  {
    assert events[..k + 1][..k] == events[..k];
    CoreOnlyPrefix(events, k + 1);
    assert IsCore(events[k].event) ==> CoreOnly(events[..k + 1])[Heard(events, k)] == events[k];
  }

  /** The next event the lean loop hears is still to come in the full list. */
  lemma {:induction false} NextHeard(events: seq<Arrival>, k: nat) returns (j: nat)
    requires k <= |events| && Heard(events, k) < |CoreOnly(events)|
    ensures k <= j < |events| && CoreOnly(events)[Heard(events, k)] == events[j]
    decreases |events| - k
  {
    assert events[..|events|] == events;
    assert k < |events|;
    HeardNext(events, k);
    if IsCore(events[k].event) {
      j := k;
    } else {
      j := NextHeard(events, k + 1);
    }
  }

  ghost predicate AllCore(heard: seq<Arrival>) { forall a | a in heard :: IsCore(a.event) }

  lemma {:induction false} CoreOnlyIdempotent(heard: seq<Arrival>)
    requires AllCore(heard)
    ensures CoreOnly(heard) == heard
  {
    if heard != [] {
      var n := |heard| - 1;
      CoreOnlyIdempotent(heard[..n]);
      assert heard == heard[..n] + [heard[n]];
    }
  }

  lemma CoreOnlyIsCore(events: seq<Arrival>)
    ensures AllCore(CoreOnly(events))
  {
    CoreOnlyPrefix(events, |events|);
  }

  /** The lean loop hears all of its own list. */
  lemma LeanHears(heard: seq<Arrival>)
    requires AllCore(heard)
    ensures CoreOnly(heard) == heard
    ensures forall k: nat | k <= |heard| :: Heard(heard, k) == k
  {
    CoreOnlyIdempotent(heard);
    forall k: nat | k <= |heard|
      ensures Heard(heard, k) == k
    {
      CoreOnlyIdempotent(heard[..k]);
    }
  }

  lemma {:induction false} CoreOnlyArriving(events: seq<Arrival>)
    requires Arriving(events)
    ensures Arriving(CoreOnly(events))
  {
    if events != [] {
      var n := |events| - 1;
      CoreOnlyArriving(events[..n]);
      CoreOnlyPrefix(events[..n], n);
      var heard := CoreOnly(events[..n]);
      assert CoreOnly(events) == heard + if IsCore(events[n].event) then [events[n]] else [];
      hide CoreOnly;
      forall a | a in heard
        ensures a.at <= events[n].at
      {
        assert a in events[..n];
      }
      AppendsArriving(heard, events[n]);
    }
  }

  lemma AppendsArriving(heard: seq<Arrival>, a: Arrival)
    requires Arriving(heard) && forall b | b in heard :: b.at <= a.at
    ensures Arriving(heard + [a])
  {
  }

  // ---------------------------------------------------------------- the state is a fold

  /** The state after handling every event of a list of lifecycle and response events. */
  function Fold(l: Loop, start: nat, heard: seq<Arrival>): Result<Loop, (int, string)> {
    if heard == [] then Ok(l) else
      var n := |heard| - 1;
      match Fold(l, start, heard[..n])
      case Err(f) => Err(f)
      case Ok(l') => Handle(l', n, heard[n].event, Max(start, heard[n].at))
  }

  predicate SameCore(a: Loop, b: Loop) { a.core == b.core }

  lemma HandleSameCore(a: Loop, b: Loop, j: nat, k: nat, event: Event, t: nat)
    requires SameCore(a, b)
    ensures var (x, y) := (Handle(a, j, event, t), Handle(b, k, event, t));
            && (x.Ok? <==> y.Ok?)
            && (x.Ok? ==> SameCore(x.value, y.value))
            && (x.Err? ==> x.error == y.error)
  {
  }

  lemma OtherKeepsCore(l: Loop, k: nat, event: Event, t: nat)
    requires !IsCore(event)
    ensures Handle(l, k, event, t) == Ok(l.(now := t))
  {
  }

  lemma HandleSetsNow(l: Loop, k: nat, event: Event, t: nat)
    requires Handle(l, k, event, t).Ok?
    ensures Handle(l, k, event, t).value.now == t
  {
  }

  /** What a loop that started as `l0` knows after the first `m` events. */
  function Known(l0: Loop, heard: seq<Arrival>, m: nat): Result<Loop, (int, string)>
    requires m <= |heard|
  {
    Fold(l0, l0.now, heard[..m])
  }

  /** When an event is handled, whatever other streams interleave. */
  function Due(l0: Loop, a: Arrival): nat { Max(l0.now, a.at) }

  lemma KnownNext(l0: Loop, heard: seq<Arrival>, m: nat)
    requires m < |heard|
    ensures Known(l0, heard, m + 1).Ok? ==> Known(l0, heard, m).Ok?
    ensures Known(l0, heard, m).Ok? ==>
              Known(l0, heard, m + 1) == Handle(Known(l0, heard, m).value, m, heard[m].event, Due(l0, heard[m]))
  {
    assert heard[..m + 1][..m] == heard[..m];
    hide Handle;
  }

  lemma {:induction false} KnownBefore(l0: Loop, heard: seq<Arrival>, i: nat, m: nat)
    requires i <= m <= |heard| && Known(l0, heard, m).Ok?
    ensures Known(l0, heard, i).Ok?
    decreases m
  {
    if i < m {
      KnownNext(l0, heard, m - 1);
      hide Known;
      KnownBefore(l0, heard, i, m - 1);
    }
  }

  lemma KnownNow(l0: Loop, heard: seq<Arrival>, m: nat)
    requires m <= |heard| && Known(l0, heard, m).Ok?
    ensures Known(l0, heard, m).value.now == if m == 0 then l0.now else Due(l0, heard[m - 1])
  {
    if m > 0 {
      KnownNext(l0, heard, m - 1);
      hide Known;
      HandleSetsNow(Known(l0, heard, m - 1).value, m - 1, heard[m - 1].event, Due(l0, heard[m - 1]));
    }
  }

  // ---------------------------------------------------------------- what can happen

  /** What a loop reports, up to the phrasing of the times. */
  datatype Outcome = Ended(core: Core) | Failed(status: int, url: string, at: nat)

  function OutcomeOf(e: Exit): Outcome {
    if e.Settled? then Ended(e.last.core) else Failed(e.status, e.url, e.failedAt)
  }

  function EndTime(e: Exit): nat { if e.Settled? then e.at else e.failedAt }

  /** The latest moment at which a loop may handle an event, however long it is kept awake. */
  function Cap(cfg: Config, c: Core): nat {
    if GateAt(cfg, c).Some? && c.pending == [] then Min(cfg.deadline, GateAt(cfg, c).value + POST_IDLE_GRACE)
    else cfg.deadline
  }

  lemma StopBounds(cfg: Config, l: Loop)
    ensures Min(Cap(cfg, l.core), l.now + QUIET_GRACE) <= StopAt(cfg, l) <= Cap(cfg, l.core) <= cfg.deadline
  {
  }

  lemma StopMonotone(cfg: Config, a: Loop, b: Loop)
    requires SameCore(a, b) && a.now <= b.now
    ensures StopAt(cfg, a) <= StopAt(cfg, b)
  {
  }

  /** Event `i` comes before the cap, or at the cap and wins the tie. */
  predicate Passes(cfg: Config, l0: Loop, heard: seq<Arrival>, i: nat)
    requires i < |heard| && Known(l0, heard, i).Ok?
  {
    var (l, t) := (Known(l0, heard, i).value, Due(l0, heard[i]));
    var cap := Cap(cfg, l.core);
    l.now < cap && (t < cap || (t == cap && heard[i].wins))
  }

  /** Kept awake, a loop can come to know the first `m` events. */
  ghost predicate Reached(cfg: Config, l0: Loop, heard: seq<Arrival>, m: nat)
    requires m <= |heard|
  {
    Known(l0, heard, m).Ok? && forall i: nat | i < m :: Known(l0, heard, i).Ok? && Passes(cfg, l0, heard, i)
  }

  /** Left alone, a loop that knows `m` events can end before the next one. */
  predicate CanStop(cfg: Config, l0: Loop, heard: seq<Arrival>, m: nat)
    requires m <= |heard| && Known(l0, heard, m).Ok?
  {
    m == |heard| || StopAt(cfg, Known(l0, heard, m).value) <= Due(l0, heard[m])
  }

  ghost predicate EndsAfter(cfg: Config, l0: Loop, heard: seq<Arrival>, m: nat, o: Outcome) {
    && m <= |heard| && Reached(cfg, l0, heard, m)
    && var l := Known(l0, heard, m).value;
       match o
       case Ended(core) => CanStop(cfg, l0, heard, m) && core == l.core
       case Failed(status, url, at) =>
         && m < |heard| && Passes(cfg, l0, heard, m) && at == Due(l0, heard[m])
         && Handle(l, m, heard[m].event, at) == Err((status, url))
  }

  /** Decided by the lifecycle and response events alone. */
  ghost predicate Possible(cfg: Config, l0: Loop, heard: seq<Arrival>, o: Outcome) {
    exists m :: EndsAfter(cfg, l0, heard, m, o)
  }

  function EarliestEnd(cfg: Config, l0: Loop, heard: seq<Arrival>, m: nat, o: Outcome): nat
    requires m <= |heard| && Known(l0, heard, m).Ok?
  {
    match o
    case Ended(_) => Max(Known(l0, heard, m).value.now, StopAt(cfg, Known(l0, heard, m).value))
    case Failed(_, _, at) => at
  }

  // ---------------------------------------------------------------- every run is possible

  /** The loop knows the first `m` events, and may have been kept awake since. */
  ghost predicate Knows(cfg: Config, l0: Loop, heard: seq<Arrival>, m: nat, l: Loop)
    requires m <= |heard|
  {
    && Reached(cfg, l0, heard, m)
    && SameCore(Known(l0, heard, m).value, l)
    && Known(l0, heard, m).value.now <= l.now
  }

  /** The first `k` events bring the loop the first `m` of those it hears. */
  ghost predicate Hears(events: seq<Arrival>, k: nat, heard: seq<Arrival>, m: nat) {
    k <= |events| && heard == CoreOnly(events) && m == Heard(events, k) && m <= |heard|
  }

  ghost predicate OnTime(l0: Loop, events: seq<Arrival>, l: Loop, k: nat) {
    l0.now <= l.now && (l.now == l0.now || forall j | k <= j < |events| :: l.now <= events[j].at)
  }

  lemma OnTimeNext(l0: Loop, events: seq<Arrival>, l: Loop, k: nat, l': Loop)
    requires Arriving(events) && k < |events| && OnTime(l0, events, l, k) && l'.now == DeliveredAt(l, events[k])
    ensures OnTime(l0, events, l', k + 1) && l'.now == Due(l0, events[k])
  {
  }

  lemma StartKnows(cfg: Config, l0: Loop, events: seq<Arrival>)
    ensures Hears(events, 0, CoreOnly(events), 0) && OnTime(l0, events, l0, 0)
    ensures Knows(cfg, l0, CoreOnly(events), 0, l0)
  {
    assert events[..0] == [] && CoreOnly(events)[..0] == [];
  }

  lemma StopsKnowing(cfg: Config, l0: Loop, heard: seq<Arrival>, m: nat, l: Loop)
    requires m <= |heard| && Knows(cfg, l0, heard, m, l) && (m < |heard| ==> StopAt(cfg, l) <= Due(l0, heard[m]))
    ensures EndsAfter(cfg, l0, heard, m, Ended(l.core))
    ensures EarliestEnd(cfg, l0, heard, m, Ended(l.core)) <= Max(l.now, StopAt(cfg, l))
  {
    StopMonotone(cfg, Known(l0, heard, m).value, l);
    hide Known, Passes, StopAt;
  }

  lemma HeardAll(events: seq<Arrival>)
    ensures Heard(events, |events|) == |CoreOnly(events)|
  {
    assert events[..|events|] == events;
  }

  /** When the loop stops, what it has not heard is not due before. */
  lemma NextIsLate(cfg: Config, l0: Loop, events: seq<Arrival>, l: Loop, k: nat, heard: seq<Arrival>, m: nat)
    requires Arriving(events) && Hears(events, k, heard, m) && OnTime(l0, events, l, k) && m < |heard|
    requires StopAt(cfg, l) <= l.now || k == |events| || SleepFirst(cfg, l, events[k])
    ensures StopAt(cfg, l) <= Due(l0, heard[m])
  {
    HeardAll(events);
    hide CoreOnly, StopAt, Heard;
    var j := NextHeard(events, k);
    assert events[k].at <= events[j].at;
  }

  lemma LoopPasses(cfg: Config, l0: Loop, heard: seq<Arrival>, m: nat, l: Loop)
    requires m < |heard| && Knows(cfg, l0, heard, m, l) && DeliveredAt(l, heard[m]) == Due(l0, heard[m])
    requires StopAt(cfg, l) > l.now && !SleepFirst(cfg, l, heard[m])
    ensures Passes(cfg, l0, heard, m)
  {
    StopBounds(cfg, l);
    hide Known, StopAt;
    assert Cap(cfg, l.core) == Cap(cfg, Known(l0, heard, m).value.core);
    hide Cap;
  }

  lemma KnowsNext(cfg: Config, l0: Loop, heard: seq<Arrival>, m: nat, l: Loop, k: nat)
    requires m < |heard| && Knows(cfg, l0, heard, m, l) && Passes(cfg, l0, heard, m)
    ensures var (r, f) := (Handle(l, k, heard[m].event, Due(l0, heard[m])),
                           Handle(Known(l0, heard, m).value, m, heard[m].event, Due(l0, heard[m])));
            (r.Ok? ==> Knows(cfg, l0, heard, m + 1, r.value)) && (r.Err? ==> f == r)
  {
    var t, known := Due(l0, heard[m]), Known(l0, heard, m).value;
    HandleSameCore(known, l, m, k, heard[m].event, t);
    KnownNext(l0, heard, m);
    hide Known, Due, Passes;
    var r := Handle(l, k, heard[m].event, t);
    if r.Ok? {
      HandleSetsNow(l, k, heard[m].event, t);
      HandleSetsNow(known, m, heard[m].event, t);
    }
    hide Handle;
  }

  lemma HearsNext(events: seq<Arrival>, k: nat, heard: seq<Arrival>, m: nat)
    requires Hears(events, k, heard, m) && k < |events|
    ensures IsCore(events[k].event) ==> m < |heard| && heard[m] == events[k] && Hears(events, k + 1, heard, m + 1)
    ensures !IsCore(events[k].event) ==> Hears(events, k + 1, heard, m)
  {
    HeardNext(events, k);
    hide CoreOnly, Heard, IsCore;
  }

  /** Whatever is interleaved, the run ends in one of the possible ways, and no earlier than
      a loop that was not kept awake. */
  lemma {:induction false} RunEnds(cfg: Config, l0: Loop, events: seq<Arrival>, l: Loop, k: nat,
                                   heard: seq<Arrival>, m: nat)
    returns (n: nat)
    requires Arriving(events) && Hears(events, k, heard, m) && Knows(cfg, l0, heard, m, l) && OnTime(l0, events, l, k)
    ensures var e := Run(cfg, l, events, k);
            && Hears(events, Consumed(e), heard, n) && EndsAfter(cfg, l0, heard, n, OutcomeOf(e))
            && EarliestEnd(cfg, l0, heard, n, OutcomeOf(e)) <= EndTime(e)
    decreases |events| - k
  {
    RunUnfolds(cfg, l, events, k);
    hide Run, Arriving, StopAt, SleepFirst, Hears, Knows, OnTime, Handle, DeliveredAt, Passes, Due;
    if StopAt(cfg, l) <= l.now || k == |events| || SleepFirst(cfg, l, events[k]) {
      hide EndsAfter, EarliestEnd;
      n := m;
      if m < |heard| {
        NextIsLate(cfg, l0, events, l, k, heard, m);
      }
      StopsKnowing(cfg, l0, heard, m, l);
    } else {
      var t := DeliveredAt(l, events[k]);
      OnTimeNext(l0, events, l, k, l.(now := t));
      HearsNext(events, k, heard, m);
      if !IsCore(events[k].event) {
        hide EndsAfter, EarliestEnd;
        OtherKeepsCore(l, k, events[k].event, t);
        StaysKnowing(cfg, l0, heard, m, l, t);
        n := RunEnds(cfg, l0, events, l.(now := t), k + 1, heard, m);
      } else {
        n := RunEndsHearing(cfg, l0, events, l, k, heard, m);
      }
    }
  }

  lemma StaysKnowing(cfg: Config, l0: Loop, heard: seq<Arrival>, m: nat, l: Loop, t: nat)
    requires m <= |heard| && Knows(cfg, l0, heard, m, l) && l.now <= t
    ensures Knows(cfg, l0, heard, m, l.(now := t))
  {
    hide Known, Reached;
  }

  lemma FailsKnowing(cfg: Config, l0: Loop, heard: seq<Arrival>, m: nat, l: Loop, k: nat, e: Exit)
    requires m < |heard| && Knows(cfg, l0, heard, m, l) && Passes(cfg, l0, heard, m)
    requires var (r, t) := (Handle(l, k, heard[m].event, Due(l0, heard[m])), Due(l0, heard[m]));
             r.Err? && e == UpstreamFailure(r.error.0, r.error.1, t, k)
    ensures EndsAfter(cfg, l0, heard, m, OutcomeOf(e)) && EarliestEnd(cfg, l0, heard, m, OutcomeOf(e)) <= EndTime(e)
    ensures Consumed(e) == k
  {
    KnowsNext(cfg, l0, heard, m, l, k);
    hide Known, Reached, Handle, Passes;
  }

  lemma {:induction false} RunEndsHearing(cfg: Config, l0: Loop, events: seq<Arrival>, l: Loop, k: nat,
                                          heard: seq<Arrival>, m: nat)
    returns (n: nat)
    requires Arriving(events) && Hears(events, k, heard, m) && Knows(cfg, l0, heard, m, l) && OnTime(l0, events, l, k)
    requires StopAt(cfg, l) > l.now && k < |events| && !SleepFirst(cfg, l, events[k]) && IsCore(events[k].event)
    ensures var e := Run(cfg, l, events, k);
            && Hears(events, Consumed(e), heard, n) && EndsAfter(cfg, l0, heard, n, OutcomeOf(e))
            && EarliestEnd(cfg, l0, heard, n, OutcomeOf(e)) <= EndTime(e)
    decreases |events| - k, 0
  {
    hide *;
    var t := DeliveredAt(l, events[k]);
    var r := Handle(l, k, events[k].event, t);
    RunUnfolds(cfg, l, events, k);
    OnTimeNext(l0, events, l, k, l.(now := t));
    HearsNext(events, k, heard, m);
    LoopPasses(cfg, l0, heard, m, l);
    KnowsNext(cfg, l0, heard, m, l, k);
    if r.Ok? {
      HandleSetsNow(l, k, events[k].event, t);
      OnTimeNext(l0, events, l, k, r.value);
      n := RunEnds(cfg, l0, events, r.value, k + 1, heard, m + 1);
    } else {
      n := m;
      FailsKnowing(cfg, l0, heard, m, l, k, UpstreamFailure(r.error.0, r.error.1, t, k));
    }
  }

  lemma RunIsPossible(cfg: Config, l0: Loop, events: seq<Arrival>)
    requires Arriving(events)
    ensures Possible(cfg, l0, CoreOnly(events), OutcomeOf(Run(cfg, l0, events, 0)))
  {
    hide Run, CoreOnly, Hears, Knows, OnTime, EndsAfter, EarliestEnd;
    StartKnows(cfg, l0, events);
    var n := RunEnds(cfg, l0, events, l0, 0, CoreOnly(events), 0);
  }

  // ---------------------------------------------------------------- agreeing

  function LeanMs(init: Option<real>, ts: Option<real>): nat {
    if init.Some? && ts.Some? && ts.value >= init.value then SaturatingU32((ts.value - init.value) * 1000.0) else 0
  }

  function FullMs(init: Option<real>, ts: Option<real>): nat {
    if init.Some? && ts.Some? then
      SaturatingU32((if ts.value - init.value < 0.0 then 0.0 else ts.value - init.value) * 1000.0)
    else 0
  }

  /** The times reported for first paint, content loaded and load. */
  function LeanTimes(c: Core): (nat, nat, nat) {
    (LeanMs(c.initTs, c.fcpTs), LeanMs(c.initTs, c.dclTs), LeanMs(c.initTs, c.loadTs))
  }

  function FullTimes(c: Core): (nat, nat, nat) {
    (FullMs(c.initTs, c.fcpTs), FullMs(c.initTs, c.dclTs), FullMs(c.initTs, c.loadTs))
  }

  /** Both loops report the same: the whole milliseconds from `init` to the mark, zero for a
      mark before it and when one of the two is missing. */
  lemma ReportedTimesAgree(init: Option<real>, ts: Option<real>)
    ensures LeanMs(init, ts) == FullMs(init, ts)
    ensures if init.Some? && ts.Some? then IsPhase(LeanMs(init, ts), init.value * 1000.0, ts.value * 1000.0)
            else LeanMs(init, ts) == 0
  {
  }

  /** On one page load, the same document, marks, reported times, gate times and pending
      patterns, or the same failure. */
  ghost predicate SameOutcome(full: Exit, lean: Exit) {
    if lean.UpstreamFailure? then
      full.UpstreamFailure? && (full.status, full.url, full.failedAt) == (lean.status, lean.url, lean.failedAt)
    else
      full.Settled? && full.last.core == lean.last.core && FullTimes(full.last.core) == LeanTimes(lean.last.core)
  }

  lemma OutcomeDecides(full: Exit, lean: Exit)
    ensures SameOutcome(full, lean) <==> OutcomeOf(full) == OutcomeOf(lean)
  {
    if lean.Settled? {
      var c := lean.last.core;
      ReportedTimesAgree(c.initTs, c.fcpTs);
      ReportedTimesAgree(c.initTs, c.dclTs);
      ReportedTimesAgree(c.initTs, c.loadTs);
      hide LeanMs, FullMs;
    }
  }

  /** The lean loop's exit, on the list it hears. */
  lemma LeanEnds(cfg: Config, l0: Loop, heard: seq<Arrival>)
    requires Arriving(heard) && AllCore(heard)
    ensures var e := Run(cfg, l0, heard, 0); EndsAfter(cfg, l0, heard, Consumed(e), OutcomeOf(e))
  {
    hide Run, CoreOnly, Heard, Knows, OnTime, EndsAfter, EarliestEnd;
    StartKnows(cfg, l0, heard);
    LeanHears(heard);
    var n := RunEnds(cfg, l0, heard, l0, 0, heard, 0);
  }

  /** The loops agree whenever they handled the same lifecycle and response events. */
  lemma SameEventsSameCore(cfg: Config, l0: Loop, events: seq<Arrival>)
    requires Arriving(events)
    ensures var (full, lean) := (Run(cfg, l0, events, 0), Run(cfg, l0, CoreOnly(events), 0));
            Consumed(full) <= |events|
            && (full.Settled? && lean.Settled? && Heard(events, full.used) == lean.used ==> SameOutcome(full, lean))
  {
    hide Run, CoreOnly, Heard, Knows, OnTime, EarliestEnd, Known, Reached, CanStop, Passes, SameOutcome;
    CoreOnlyArriving(events);
    CoreOnlyIsCore(events);
    LeanEnds(cfg, l0, CoreOnly(events));
    StartKnows(cfg, l0, events);
    var n := RunEnds(cfg, l0, events, l0, 0, CoreOnly(events), 0);
    OutcomeDecides(Run(cfg, l0, events, 0), Run(cfg, l0, CoreOnly(events), 0));
  }

  // ---------------------------------------------------------------- when the lean loop is right

  /** Where a run that settles stops, and when. */
  lemma {:induction false} SettledStops(cfg: Config, l: Loop, events: seq<Arrival>, k: nat)
    requires k <= |events| && Arriving(events)
    ensures var e := Run(cfg, l, events, k);
            e.Settled? ==>
              && k <= e.used <= |events|
              && e.last.now == (if e.used == k then l.now else Max(l.now, events[e.used - 1].at))
              && e.at == Max(e.last.now, StopAt(cfg, e.last))
              && (StopAt(cfg, e.last) <= e.last.now || e.used == |events| || SleepFirst(cfg, e.last, events[e.used]))
    decreases |events| - k
  {
    RunUnfolds(cfg, l, events, k);
    hide Run, Handle, StopAt;
    if StopAt(cfg, l) > l.now && k < |events| && !SleepFirst(cfg, l, events[k]) {
      var t := DeliveredAt(l, events[k]);
      if Handle(l, k, events[k].event, t).Ok? {
        HandleSetsNow(l, k, events[k].event, t);
        SettledStops(cfg, Handle(l, k, events[k].event, t).value, events, k + 1);
      }
    }
  }

  function Handled(e: Exit): nat { if e.Settled? then e.used else e.seen + 1 }

  /** Event `i` is due before the sleep of the loop that knows those before it ends. */
  predicate InTime(cfg: Config, l0: Loop, heard: seq<Arrival>, i: nat) {
    i < |heard| && Known(l0, heard, i).Ok? && Due(l0, heard[i]) < StopAt(cfg, Known(l0, heard, i).value)
  }

  /** The lean loop handled no event in the very instant its sleep ended. */
  ghost predicate NoTie(cfg: Config, l0: Loop, heard: seq<Arrival>) {
    forall i: nat | i < Handled(Run(cfg, l0, heard, 0)) :: InTime(cfg, l0, heard, i)
  }

  /** At the deadline nothing more can be heard, and neither after the last event. */
  ghost predicate RanOut(cfg: Config, heard: seq<Arrival>, lean: Exit) {
    lean.UpstreamFailure? || lean.at == cfg.deadline || lean.used == |heard|
  }

  /** Where the lean loop stopped for good the next event does not pass. */
  lemma RanOutBlocks(cfg: Config, l0: Loop, heard: seq<Arrival>, m: nat, at: nat)
    requires Arriving(heard) && m < |heard| && Known(l0, heard, m).Ok? && at == cfg.deadline
    requires var l := Known(l0, heard, m).value;
             && at == Max(l.now, StopAt(cfg, l))
             && (StopAt(cfg, l) <= l.now || SleepFirst(cfg, l, heard[m]))
    ensures !Passes(cfg, l0, heard, m)
  {
    var l := Known(l0, heard, m).value;
    KnownNow(l0, heard, m);
    StopBounds(cfg, l);
    assert m > 0 ==> heard[m - 1].at <= heard[m].at;
    hide Known, StopAt, Cap, Arriving;
  }

  lemma SameStop(cfg: Config, a: Loop, b: Loop)
    requires SameCore(a, b) && a.now == b.now
    ensures StopAt(cfg, a) == StopAt(cfg, b)
  {
  }

  lemma LeanStops(cfg: Config, l0: Loop, heard: seq<Arrival>)
    requires Arriving(heard) && AllCore(heard)
    ensures var e := Run(cfg, l0, heard, 0);
            && Consumed(e) <= |heard| && Known(l0, heard, Consumed(e)).Ok?
            && EndTime(e) == EarliestEnd(cfg, l0, heard, Consumed(e), OutcomeOf(e))
            && (e.Settled? && RanOut(cfg, heard, e) && e.used < |heard| ==> !Passes(cfg, l0, heard, e.used))
  {
    hide Run, Known, StopAt, Passes, Arriving, Handle, CanStop;
    LeanEnds(cfg, l0, heard);
    SettledStops(cfg, l0, heard, 0);
    var e := Run(cfg, l0, heard, 0);
    if e.Settled? {
      KnownNow(l0, heard, e.used);
      SameStop(cfg, Known(l0, heard, e.used).value, e.last);
      if e.used < |heard| && e.at == cfg.deadline {
        RanOutBlocks(cfg, l0, heard, e.used, e.at);
      }
    }
  }

  /** What ends a loop that cannot stop is the next event. */
  lemma FailsThere(cfg: Config, l0: Loop, heard: seq<Arrival>, m: nat, o: Outcome)
    requires m < |heard| && EndsAfter(cfg, l0, heard, m, o) && (o.Ended? ==> !CanStop(cfg, l0, heard, m))
    ensures Known(l0, heard, m + 1).Err?
  {
    KnownNext(l0, heard, m);
    hide Known, Passes, StopAt, Handle;
  }

  lemma CannotStop(cfg: Config, l0: Loop, heard: seq<Arrival>, m: nat)
    requires NoTie(cfg, l0, heard) && m < Handled(Run(cfg, l0, heard, 0))
    ensures m < |heard| && Known(l0, heard, m).Ok? && !CanStop(cfg, l0, heard, m)
  {
    assert InTime(cfg, l0, heard, m);
    hide Run, Known, StopAt;
  }

  /** An end after `m` events is past all that the lean loop handled, and the same where that
      one failed, or where both stopped after as many. */
  ghost predicate NoEarlier(lean: Exit, m: nat, o: Outcome) {
    && Consumed(lean) <= m
    && (lean.UpstreamFailure? ==> m == lean.seen && o == OutcomeOf(lean))
    && (m == Consumed(lean) && o.Ended? ==> o == OutcomeOf(lean))
  }

  lemma NotBefore(cfg: Config, l0: Loop, heard: seq<Arrival>, m: nat, o: Outcome)
    requires Arriving(heard) && AllCore(heard)
    ensures NoTie(cfg, l0, heard) && EndsAfter(cfg, l0, heard, m, o) ==> NoEarlier(Run(cfg, l0, heard, 0), m, o)
  {
    LeanEnds(cfg, l0, heard);
    var lean := Run(cfg, l0, heard, 0);
    var u := Consumed(lean);
    hide Run, Known, Passes, StopAt, Handle, NoTie;
    if NoTie(cfg, l0, heard) && EndsAfter(cfg, l0, heard, m, o) {
      if m < u {
        CannotStop(cfg, l0, heard, m);
        FailsThere(cfg, l0, heard, m, o);
        KnownBefore(l0, heard, m + 1, u);
      } else if lean.UpstreamFailure? {
        CannotStop(cfg, l0, heard, u);
        if m > u {
          FailsThere(cfg, l0, heard, u, OutcomeOf(lean));
          KnownBefore(l0, heard, u + 1, m);
        }
      }
    }
  }

  lemma LaterEnd(cfg: Config, l0: Loop, heard: seq<Arrival>, u: nat, o: Outcome, m: nat, p: Outcome)
    requires Arriving(heard) && u <= m && EndsAfter(cfg, l0, heard, u, o) && EndsAfter(cfg, l0, heard, m, p)
    requires o.Ended?
    ensures EarliestEnd(cfg, l0, heard, u, o) <= EarliestEnd(cfg, l0, heard, m, p)
  {
    KnownNow(l0, heard, u);
    KnownNow(l0, heard, m);
    hide Known, Passes, StopAt, Handle, Reached;
    if u < m {
      assert heard[u].at <= heard[m - 1].at;
      assert u > 0 ==> heard[u - 1].at <= heard[u].at;
    }
  }

  /** Whatever the full loop interleaves: if the lean loop handled no event in the instant its
      sleep ended, the full loop ends no earlier; and if the lean loop also failed, ran to its
      deadline or handled all its events, the outcome is the same. */
  lemma LeanAgreesWithFull(cfg: Config, l0: Loop, events: seq<Arrival>)
    requires Arriving(events) && NoTie(cfg, l0, CoreOnly(events))
    ensures var (heard, full, lean) := (CoreOnly(events), Run(cfg, l0, events, 0), Run(cfg, l0, CoreOnly(events), 0));
            && EndTime(lean) <= EndTime(full)
            && Consumed(full) <= |events| && Consumed(lean) <= Heard(events, Consumed(full))
            && (RanOut(cfg, heard, lean) ==> SameOutcome(full, lean))
  {
    var heard := CoreOnly(events);
    var full, lean := Run(cfg, l0, events, 0), Run(cfg, l0, heard, 0);
    hide Run, CoreOnly, Heard, Knows, OnTime, Known, SameOutcome, NoTie, Handle, Passes, CanStop, Arriving, AllCore;
    CoreOnlyArriving(events);
    CoreOnlyIsCore(events);
    StartKnows(cfg, l0, events);
    var m := RunEnds(cfg, l0, events, l0, 0, heard, 0);
    LeanEnds(cfg, l0, heard);
    LeanStops(cfg, l0, heard);
    NotBefore(cfg, l0, heard, m, OutcomeOf(full));
    OutcomeDecides(full, lean);
    if lean.Settled? {
      LaterEnd(cfg, l0, heard, Consumed(lean), OutcomeOf(lean), m, OutcomeOf(full));
    }
    hide EarliestEnd;
  }

  // ---------------------------------------------------------------- two concrete differences

  lemma CoreOnlyNext(events: seq<Arrival>, k: nat)
    requires k < |events|
    ensures CoreOnly(events[..k + 1]) == CoreOnly(events[..k]) + if IsCore(events[k].event) then [events[k]] else []
  {
    assert events[..k + 1][..k] == events[..k];
  }

  /** One handled event of a run. */
  lemma RunStep(cfg: Config, l: Loop, events: seq<Arrival>, k: nat, l': Loop)
    requires k < |events| && StopAt(cfg, l) > l.now && !SleepFirst(cfg, l, events[k])
    requires Handle(l, k, events[k].event, DeliveredAt(l, events[k])) == Ok(l')
    ensures Run(cfg, l, events, k) == Run(cfg, l', events, k + 1)
  {
    RunUnfolds(cfg, l, events, k);
    hide Run, Handle, StopAt, SleepFirst;
  }

  const IDLE := Arrival(100, false, Lifecycle("networkIdle", 1.0))

  const OTHER := Arrival(150, false, Event.Other)

  const LOAD := Arrival(240, false, Lifecycle("load", 2.0))

  function AfterIdle(now: nat): Loop {
    var l := Start([], 0);
    l.(core := l.core.(idleAt := Some(100)), now := now)
  }

  lemma LeanLeavesEarly()
    ensures CoreOnly([IDLE, OTHER, LOAD]) == [IDLE, LOAD]
    ensures Run(Config(1000, false), Start([], 0), [IDLE, LOAD], 0) == Settled(AfterIdle(100), 200, 1)
  {
    CoreOnlyNext([IDLE, OTHER, LOAD], 0);
    CoreOnlyNext([IDLE, OTHER, LOAD], 1);
    assert [IDLE, OTHER, LOAD][..2] == [IDLE, OTHER];
    hide CoreOnly;
    RunStep(Config(1000, false), Start([], 0), [IDLE, LOAD], 0, AfterIdle(100));
    RunUnfolds(Config(1000, false), AfterIdle(100), [IDLE, LOAD], 1);
    hide Run;
  }

  lemma FullStaysForLoad()
    ensures var e := Run(Config(1000, false), Start([], 0), [IDLE, OTHER, LOAD], 0);
            e.Settled? && e.at == 340 && e.last.core.loadTs == Some(2.0)
  {
    var cfg, events := Config(1000, false), [IDLE, OTHER, LOAD];
    RunStep(cfg, Start([], 0), events, 0, AfterIdle(100));
    RunStep(cfg, AfterIdle(100), events, 1, AfterIdle(150));
    var l := AfterIdle(240);
    l := l.(core := l.core.(loadAt := Some(240), loadTs := Some(2.0)));
    RunStep(cfg, AfterIdle(150), events, 2, l);
    RunUnfolds(cfg, l, events, 3);
    hide Run;
  }

  /** The exception is real: another stream's event postpones the quiet exit of the full loop
      past a load event that the lean loop never handles. */
  lemma QuietExitDiffers()
    ensures var (cfg, events) := (Config(1000, false), [IDLE, OTHER, LOAD]);
            var (full, lean) := (Run(cfg, Start([], 0), events, 0), Run(cfg, Start([], 0), CoreOnly(events), 0));
            && Arriving(events) && Untied(events)
            && full.Settled? && lean.Settled? && lean.at < full.at && !SameOutcome(full, lean)
  {
    LeanLeavesEarly();
    FullStaysForLoad();
    hide Run, CoreOnly;
  }

  const LAST_LOAD := Arrival(100, true, Lifecycle("load", 2.0))

  const LAST_OTHER := Arrival(100, true, Event.Other)

  lemma FullEndsOnOther()
    ensures CoreOnly([LAST_OTHER, LAST_LOAD]) == [LAST_LOAD]
    ensures var e := Run(Config(100, false), Start([], 0), [LAST_OTHER, LAST_LOAD], 0);
            e.Settled? && e.last.core.loadTs == None
  {
    CoreOnlyNext([LAST_OTHER, LAST_LOAD], 0);
    assert [LAST_OTHER, LAST_LOAD][..0] == [] && [LAST_OTHER, LAST_LOAD][..1] == [LAST_OTHER];
    CoreOnlyNext([LAST_OTHER, LAST_LOAD], 1);
    assert [LAST_OTHER, LAST_LOAD][..2] == [LAST_OTHER, LAST_LOAD];
    hide CoreOnly;
    var l := Start([], 0).(now := 100);
    RunStep(Config(100, false), Start([], 0), [LAST_OTHER, LAST_LOAD], 0, l);
    RunUnfolds(Config(100, false), l, [LAST_OTHER, LAST_LOAD], 1);
    hide Run;
  }

  lemma LeanHearsLoad()
    ensures var e := Run(Config(100, false), Start([], 0), [LAST_LOAD], 0);
            e.Settled? && e.at == 100 && e.last.core.loadTs == Some(2.0)
  {
    var l := Start([], 0).(now := 100);
    l := l.(core := l.core.(loadAt := Some(100), loadTs := Some(2.0)));
    RunStep(Config(100, false), Start([], 0), [LAST_LOAD], 0, l);
    RunUnfolds(Config(100, false), l, [LAST_LOAD], 1);
    hide Run;
  }

  /** Why no event may win a tie in the laws above: at the deadline, one of another stream
      that does ends the full loop, while the lean loop still handles the load event. */
  lemma TieDiffers()
    ensures var (cfg, events) := (Config(100, false), [LAST_OTHER, LAST_LOAD]);
            var (full, lean) := (Run(cfg, Start([], 0), events, 0), Run(cfg, Start([], 0), CoreOnly(events), 0));
            lean.Settled? && lean.at == cfg.deadline && !SameOutcome(full, lean)
  {
    FullEndsOnOther();
    LeanHearsLoad();
    hide Run, CoreOnly;
  }
}
