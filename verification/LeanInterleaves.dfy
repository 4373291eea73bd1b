/** Exactly which outcomes other streams can bring about, and so when the two loops agree.

    A loop that is ready can be kept awake by other streams until its cap, and an event of
    another stream that loses a tie ends its sleep. Nothing else can happen. */
module LeanInterleaves {
  import opened Wrappers
  import opened Strings
  import opened Collect
  import opened CollectLaws
  import opened LeanAgrees

  // ---------------------------------------------------------------- a list for every outcome

  /** Chatter of another stream, every millisecond. */
  function Chatter(from: nat, to: nat): seq<Arrival> {
    if to <= from then [] else seq(to - from, i requires 0 <= i => Arrival(from + i, false, Event.Other))
  }

  /** The time after `m` events. */
  function TimeAt(l0: Loop, heard: seq<Arrival>, m: nat): nat
    requires m <= |heard|
  {
    if m == 0 then l0.now else Due(l0, heard[m - 1])
  }

  /** The first `m` events, with chatter before each of them. */
  function Filled(l0: Loop, heard: seq<Arrival>, m: nat): seq<Arrival>
    requires m <= |heard|
  {
    if m == 0 then [] else
      Filled(l0, heard, m - 1) + (Chatter(TimeAt(l0, heard, m - 1), heard[m - 1].at) + [heard[m - 1]])
  }

  /** Then `mid`, which only the full loop hears, and the rest. */
  function Interleaved(l0: Loop, heard: seq<Arrival>, m: nat, mid: seq<Arrival>): seq<Arrival>
    requires m <= |heard|
  {
    Filled(l0, heard, m) + (mid + heard[m..])
  }

  ghost predicate NoneHeard(events: seq<Arrival>) { forall a | a in events :: !IsCore(a.event) && !a.wins }

  ghost predicate Within(events: seq<Arrival>, lo: nat, hi: nat) { forall a | a in events :: lo <= a.at <= hi }

  /** `mid` fits after the first `m` events and before the next. */
  ghost predicate Fits(heard: seq<Arrival>, m: nat, mid: seq<Arrival>)
    requires m <= |heard|
  {
    && Arriving(mid) && NoneHeard(mid)
    && (forall a | a in mid :: (m > 0 ==> heard[m - 1].at <= a.at) && (m < |heard| ==> a.at <= heard[m].at))
  }

  lemma {:induction false} CoreOnlyAppends(a: seq<Arrival>, b: seq<Arrival>)
    ensures CoreOnly(a + b) == CoreOnly(a) + CoreOnly(b)
  {
    if b == [] {
      assert a + b == a;
    } else {
      var n := |b| - 1;
      assert (a + b)[..|a| + n] == a + b[..n];
      CoreOnlyAppends(a, b[..n]);
    }
  }

  lemma {:induction false} NoCore(events: seq<Arrival>)
    requires NoneHeard(events)
    ensures CoreOnly(events) == []
  {
    if events != [] {
      NoCore(events[..|events| - 1]);
    }
  }

  lemma ChatterFacts(from: nat, to: nat)
    ensures Arriving(Chatter(from, to)) && NoneHeard(Chatter(from, to)) && Within(Chatter(from, to), from, to)
    ensures |Chatter(from, to)| == Max(to - from, 0)
    ensures forall i | 0 <= i < |Chatter(from, to)| :: Chatter(from, to)[i] == Arrival(from + i, false, Event.Other)
  {
  }

  lemma AppendsInOrder(a: seq<Arrival>, b: seq<Arrival>)
    requires Arriving(a) && Arriving(b) && forall x, y | x in a && y in b :: x.at <= y.at
    ensures Arriving(a + b)
  {
  }

  lemma PieceCore(l0: Loop, heard: seq<Arrival>, m: nat)
    requires m < |heard| && AllCore(heard)
    ensures CoreOnly(Chatter(TimeAt(l0, heard, m), heard[m].at) + [heard[m]]) == [heard[m]]
  {
    var c := Chatter(TimeAt(l0, heard, m), heard[m].at);
    ChatterFacts(TimeAt(l0, heard, m), heard[m].at);
    assert [heard[m]][..0] == [] && CoreOnly([heard[m]]) == [heard[m]];
    hide CoreOnly, Chatter, TimeAt, Within, Arriving;
    NoCore(c);
    CoreOnlyAppends(c, [heard[m]]);
  }

  lemma {:induction false} FilledCore(l0: Loop, heard: seq<Arrival>, m: nat)
    requires m <= |heard| && AllCore(heard)
    ensures CoreOnly(Filled(l0, heard, m)) == heard[..m]
  {
    hide CoreOnly, Chatter, TimeAt, AllCore;
    if m == 0 {
      CoreOfNone();
    } else {
      PieceCore(l0, heard, m - 1);
      FilledCore(l0, heard, m - 1);
      var piece := Chatter(TimeAt(l0, heard, m - 1), heard[m - 1].at) + [heard[m - 1]];
      CoreOnlyAppends(Filled(l0, heard, m - 1), piece);
      assert heard[..m] == heard[..m - 1] + [heard[m - 1]];
    }
  }

  lemma CoreOfNone()
    ensures CoreOnly([]) == []
  {
  }

  /** The chatter and the event after it. */
  lemma PieceInOrder(l0: Loop, heard: seq<Arrival>, m: nat)
    requires 0 < m <= |heard| && Arriving(heard)
    ensures var piece := Chatter(TimeAt(l0, heard, m - 1), heard[m - 1].at) + [heard[m - 1]];
            && Arriving(piece)
            && (forall a | a in piece :: a.at <= heard[m - 1].at && (m > 1 ==> heard[m - 2].at <= a.at))
            && (Untied(heard) ==> Untied(piece))
  {
    var c := Chatter(TimeAt(l0, heard, m - 1), heard[m - 1].at);
    ChatterFacts(TimeAt(l0, heard, m - 1), heard[m - 1].at);
    hide Chatter;
    AppendsInOrder(c, [heard[m - 1]]);
  }

  lemma {:induction false} FilledInOrder(l0: Loop, heard: seq<Arrival>, m: nat)
    requires m <= |heard| && Arriving(heard)
    ensures Arriving(Filled(l0, heard, m)) && (Untied(heard) ==> Untied(Filled(l0, heard, m)))
    ensures forall a | a in Filled(l0, heard, m) :: m > 0 && a.at <= heard[m - 1].at
  {
    if m > 0 {
      var piece := Chatter(TimeAt(l0, heard, m - 1), heard[m - 1].at) + [heard[m - 1]];
      var before := Filled(l0, heard, m - 1);
      assert Filled(l0, heard, m) == before + piece;
      FilledInOrder(l0, heard, m - 1);
      PieceInOrder(l0, heard, m);
      assert m > 1 ==> heard[m - 2].at <= heard[m - 1].at;
      hide Filled, Chatter, TimeAt, Arriving;
      AppendsInOrder(before, piece);
    }
  }

  lemma InterleavedCore(l0: Loop, heard: seq<Arrival>, m: nat, mid: seq<Arrival>)
    requires m <= |heard| && AllCore(heard) && NoneHeard(mid)
    ensures CoreOnly(Interleaved(l0, heard, m, mid)) == heard
  {
    hide CoreOnly, Filled;
    FilledCore(l0, heard, m);
    NoCore(mid);
    CoreOnlyIdempotent(heard[m..]);
    CoreOnlyAppends(mid, heard[m..]);
    CoreOnlyAppends(Filled(l0, heard, m), mid + heard[m..]);
    assert heard[..m] + heard[m..] == heard;
  }

  lemma InterleavedInOrder(l0: Loop, heard: seq<Arrival>, m: nat, mid: seq<Arrival>)
    requires m <= |heard| && Arriving(heard) && Fits(heard, m, mid)
    ensures Arriving(Interleaved(l0, heard, m, mid))
    ensures Untied(heard) ==> Untied(Interleaved(l0, heard, m, mid))
  {
    hide Filled;
    FilledInOrder(l0, heard, m);
    RestInOrder(heard, m);
    hide Arriving;
    AppendsInOrder(mid, heard[m..]);
    AppendsInOrder(Filled(l0, heard, m), mid + heard[m..]);
  }

  lemma RestInOrder(heard: seq<Arrival>, m: nat)
    requires m <= |heard| && Arriving(heard)
    ensures Arriving(heard[m..])
    ensures forall a | a in heard[m..] :: heard[m].at <= a.at && (m > 0 ==> heard[m - 1].at <= heard[m].at)
  {
  }

  // ---------------------------------------------------------------- the run over it

  /** At the moment and with the knowledge of the fold. */
  ghost predicate Matches(l0: Loop, heard: seq<Arrival>, m: nat, l: Loop)
    requires m <= |heard|
  {
    Known(l0, heard, m).Ok? && SameCore(Known(l0, heard, m).value, l) && l.now == TimeAt(l0, heard, m)
  }

  /** Below its cap a loop handles what comes within the quiet window. */
  lemma Awake(cfg: Config, l: Loop, a: Arrival)
    requires l.now < Cap(cfg, l.core) && DeliveredAt(l, a) < l.now + QUIET_GRACE
    requires DeliveredAt(l, a) < Cap(cfg, l.core) || (DeliveredAt(l, a) == Cap(cfg, l.core) && a.wins)
    ensures StopAt(cfg, l) > l.now && !SleepFirst(cfg, l, a)
  {
    StopBounds(cfg, l);
    hide StopAt, Cap;
  }

  lemma {:induction false} PassesChatter(cfg: Config, l: Loop, events: seq<Arrival>, k: nat, n: nat)
    requires k + n <= |events| && (n > 0 ==> l.now + n - 1 < Cap(cfg, l.core))
    requires forall j | k <= j < k + n :: events[j] == Arrival(l.now + (j - k), false, Event.Other)
    ensures Run(cfg, l, events, k) == Run(cfg, l.(now := if n == 0 then l.now else l.now + n - 1), events, k + n)
    decreases n
  {
    hide Run, Handle, Cap, StopAt, SleepFirst;
    if n == 0 {
      assert l.(now := l.now) == l;
    } else {
      PassesChatter(cfg, l, events, k, n - 1);
      var l' := l.(now := if n == 1 then l.now else l.now + n - 2);
      assert events[k + n - 1] == Arrival(l.now + n - 1, false, Event.Other);
      Awake(cfg, l', events[k + n - 1]);
      OtherKeepsCore(l', k + n - 1, Event.Other, l.now + n - 1);
      RunStep(cfg, l', events, k + n - 1, l.(now := l.now + n - 1));
    }
  }

  /** The events from `k` on start with `part`. */
  ghost predicate From(events: seq<Arrival>, k: nat, part: seq<Arrival>) {
    k + |part| <= |events| && events[k..k + |part|] == part
  }

  lemma FromAppends(events: seq<Arrival>, k: nat, a: seq<Arrival>, b: seq<Arrival>)
    requires From(events, k, a + b)
    ensures From(events, k, a) && From(events, k + |a|, b)
  {
    var s := events[k..k + |a + b|];
    assert s[..|a|] == a && s[|a|..] == b;
  }

  lemma FromAt(events: seq<Arrival>, k: nat, part: seq<Arrival>)
    requires From(events, k, part)
    ensures k + |part| <= |events| && forall j | k <= j < k + |part| :: events[j] == part[j - k]
  {
    forall j | k <= j < k + |part|
      ensures events[j] == part[j - k]
    {
      assert events[k..k + |part|][j - k] == part[j - k];
    }
  }

  lemma MatchPasses(cfg: Config, l0: Loop, heard: seq<Arrival>, m: nat, l: Loop)
    requires Arriving(heard) && m < |heard| && Matches(l0, heard, m, l) && Passes(cfg, l0, heard, m)
    ensures var (t, cap) := (Due(l0, heard[m]), Cap(cfg, l.core));
            && l.now < cap && (t < cap || (t == cap && heard[m].wins)) && t == Max(l.now, heard[m].at)
    ensures l.now == TimeAt(l0, heard, m)
  {
    KnownNow(l0, heard, m);
    assert m > 0 ==> heard[m - 1].at <= heard[m].at;
    assert Cap(cfg, l.core) == Cap(cfg, Known(l0, heard, m).value.core);
    hide Known, Cap, Arriving;
  }

  lemma LastChatter(l: Loop, a: Arrival, n: nat, q: Loop)
    requires n == Max(a.at - l.now, 0) && q == l.(now := if n == 0 then l.now else l.now + n - 1)
    ensures SameCore(l, q) && q.core == l.core && DeliveredAt(q, a) == Max(l.now, a.at) < q.now + QUIET_GRACE
    ensures n > 0 ==> q.now == l.now + n - 1 < Max(l.now, a.at)
  {
  }

  /** Chatter, after which the loop still takes what is due below its cap. */
  lemma KeptAwake(cfg: Config, l: Loop, a: Arrival, events: seq<Arrival>, k: nat) returns (q: Loop)
    requires From(events, k, Chatter(l.now, a.at)) && l.now < Cap(cfg, l.core)
    requires var t := Max(l.now, a.at); t < Cap(cfg, l.core) || (t == Cap(cfg, l.core) && a.wins)
    ensures SameCore(l, q) && DeliveredAt(q, a) == Max(l.now, a.at)
    ensures StopAt(cfg, q) > q.now && !SleepFirst(cfg, q, a)
    ensures Run(cfg, l, events, k) == Run(cfg, q, events, k + |Chatter(l.now, a.at)|)
  {
    hide *;
    ChatterFacts(l.now, a.at);
    FromAt(events, k, Chatter(l.now, a.at));
    var n := |Chatter(l.now, a.at)|;
    q := l.(now := if n == 0 then l.now else l.now + n - 1);
    LastChatter(l, a, n, q);
    PassesChatter(cfg, l, events, k, n);
    Awake(cfg, q, a);
  }

  /** The next event is due at once. */
  lemma PassesToNext(cfg: Config, l0: Loop, heard: seq<Arrival>, m: nat, l: Loop, events: seq<Arrival>, k: nat)
    returns (q: Loop)
    requires Arriving(heard) && m < |heard| && Matches(l0, heard, m, l) && Passes(cfg, l0, heard, m)
    requires From(events, k, Chatter(TimeAt(l0, heard, m), heard[m].at))
    ensures SameCore(l, q) && DeliveredAt(q, heard[m]) == Due(l0, heard[m])
    ensures StopAt(cfg, q) > q.now && !SleepFirst(cfg, q, heard[m])
    ensures Run(cfg, l, events, k) == Run(cfg, q, events, k + |Chatter(TimeAt(l0, heard, m), heard[m].at)|)
  {
    hide *;
    MatchPasses(cfg, l0, heard, m, l);
    q := KeptAwake(cfg, l, heard[m], events, k);
  }

  /** Chatter, then the event itself. */
  lemma PassesOne(cfg: Config, l0: Loop, heard: seq<Arrival>, m: nat, l: Loop, events: seq<Arrival>, k: nat)
    returns (l': Loop)
    requires Arriving(heard) && m < |heard| && Matches(l0, heard, m, l) && Passes(cfg, l0, heard, m)
    requires Known(l0, heard, m + 1).Ok?
    requires From(events, k, Chatter(TimeAt(l0, heard, m), heard[m].at) + [heard[m]])
    ensures Matches(l0, heard, m + 1, l')
    ensures Run(cfg, l, events, k) == Run(cfg, l', events, k + |Chatter(TimeAt(l0, heard, m), heard[m].at)| + 1)
  {
    var c, t := Chatter(TimeAt(l0, heard, m), heard[m].at), Due(l0, heard[m]);
    FromAppends(events, k, c, [heard[m]]);
    FromAt(events, k + |c|, [heard[m]]);
    assert events[k + |c|] == heard[m];
    hide Run, Known, Chatter, From, Arriving, Passes, StopAt, SleepFirst, Handle;
    var q := PassesToNext(cfg, l0, heard, m, l, events, k);
    KnownNext(l0, heard, m);
    var known := Known(l0, heard, m).value;
    HandleSameCore(known, q, m, k + |c|, heard[m].event, t);
    l' := Handle(q, k + |c|, heard[m].event, t).value;
    HandleSetsNow(q, k + |c|, heard[m].event, t);
    RunStep(cfg, q, events, k + |c|, l');
  }

  /** All of them, up to event `m - 1`. */
  lemma {:induction false} PassesFilled(cfg: Config, l0: Loop, heard: seq<Arrival>, m: nat, events: seq<Arrival>)
    returns (l: Loop)
    requires Arriving(heard) && m <= |heard| && Reached(cfg, l0, heard, m) && From(events, 0, Filled(l0, heard, m))
    ensures Matches(l0, heard, m, l)
    ensures |Filled(l0, heard, m)| <= |events|
    ensures Run(cfg, l0, events, 0) == Run(cfg, l, events, |Filled(l0, heard, m)|)
    decreases m
  {
    hide Run, Passes, Known, Chatter, TimeAt, Matches, Arriving;
    if m == 0 {
      l := l0;
      StartMatches(l0, heard);
    } else {
      var piece := Chatter(TimeAt(l0, heard, m - 1), heard[m - 1].at) + [heard[m - 1]];
      FromAppends(events, 0, Filled(l0, heard, m - 1), piece);
      var l' := PassesFilled(cfg, l0, heard, m - 1, events);
      l := PassesOne(cfg, l0, heard, m - 1, l', events, |Filled(l0, heard, m - 1)|);
    }
  }

  lemma StartMatches(l0: Loop, heard: seq<Arrival>)
    ensures Matches(l0, heard, 0, l0)
  {
  }

  /** Something of another stream that loses to the sleep. */
  function Stopper(cfg: Config, l: Loop): seq<Arrival> {
    if StopAt(cfg, l) > l.now then [Arrival(StopAt(cfg, l), false, Event.Other)] else []
  }

  lemma StopperFits(cfg: Config, l0: Loop, heard: seq<Arrival>, m: nat)
    requires m <= |heard| && Known(l0, heard, m).Ok? && CanStop(cfg, l0, heard, m)
    ensures Fits(heard, m, Stopper(cfg, Known(l0, heard, m).value))
  {
    KnownNow(l0, heard, m);
    hide Known, StopAt;
  }

  lemma StopsThere(cfg: Config, l: Loop, events: seq<Arrival>, k: nat)
    requires From(events, k, Stopper(cfg, l))
    ensures k <= |events| && Run(cfg, l, events, k).Settled? && Run(cfg, l, events, k).last == l
  {
    FromAt(events, k, Stopper(cfg, l));
    RunUnfolds(cfg, l, events, k);
    hide Run, StopAt, From;
    if StopAt(cfg, l) > l.now {
      assert events[k] == Arrival(StopAt(cfg, l), false, Event.Other);
    }
  }

  lemma SplitAt(l0: Loop, heard: seq<Arrival>, m: nat, mid: seq<Arrival>)
    requires m <= |heard|
    ensures var (events, n) := (Interleaved(l0, heard, m, mid), |Filled(l0, heard, m)|);
            && From(events, 0, Filled(l0, heard, m)) && From(events, n, mid)
            && (m < |heard| ==> From(events, n, mid + [heard[m]]))
  {
    hide Filled;
    var (events, n) := (Interleaved(l0, heard, m, mid), |Filled(l0, heard, m)|);
    assert events[n..] == mid + heard[m..];
    assert m < |heard| ==> (mid + heard[m..])[..|mid| + 1] == mid + [heard[m]];
  }

  lemma EndIsReal(cfg: Config, l0: Loop, heard: seq<Arrival>, m: nat, core: Core)
    requires Arriving(heard) && EndsAfter(cfg, l0, heard, m, Ended(core))
    ensures Known(l0, heard, m).Ok?
    ensures var events := Interleaved(l0, heard, m, Stopper(cfg, Known(l0, heard, m).value));
            OutcomeOf(Run(cfg, l0, events, 0)) == Ended(core)
  {
    var known := Known(l0, heard, m).value;
    var mid := Stopper(cfg, known);
    var events, n := Interleaved(l0, heard, m, mid), |Filled(l0, heard, m)|;
    SplitAt(l0, heard, m, mid);
    KnownNow(l0, heard, m);
    hide Run, Known, StopAt, Passes, Filled, From, Interleaved, Arriving;
    var l := PassesFilled(cfg, l0, heard, m, events);
    SameStop(cfg, l, known);
    StopsThere(cfg, l, events, n);
  }

  lemma FailureIsReal(cfg: Config, l0: Loop, heard: seq<Arrival>, m: nat, o: Outcome)
    requires Arriving(heard) && EndsAfter(cfg, l0, heard, m, o) && o.Failed?
    ensures var events := Interleaved(l0, heard, m, Chatter(TimeAt(l0, heard, m), heard[m].at));
            OutcomeOf(Run(cfg, l0, events, 0)) == o
  {
    var c := Chatter(TimeAt(l0, heard, m), heard[m].at);
    var events, n := Interleaved(l0, heard, m, c), |Filled(l0, heard, m)|;
    SplitAt(l0, heard, m, c);
    FromAppends(events, n, c, [heard[m]]);
    FromAt(events, n + |c|, [heard[m]]);
    assert events[n + |c|] == heard[m];
    hide Run, Known, StopAt, SleepFirst, Passes, Filled, From, Interleaved, Arriving, Handle, Chatter;
    var l := PassesFilled(cfg, l0, heard, m, events);
    var q := PassesToNext(cfg, l0, heard, m, l, events, n);
    HandleSameCore(Known(l0, heard, m).value, q, m, n + |c|, heard[m].event, o.at);
    RunUnfolds(cfg, q, events, n + |c|);
  }

  lemma ChatterFits(l0: Loop, heard: seq<Arrival>, m: nat)
    requires m < |heard| && Arriving(heard)
    ensures Fits(heard, m, Chatter(TimeAt(l0, heard, m), heard[m].at))
  {
    ChatterFacts(TimeAt(l0, heard, m), heard[m].at);
    hide Chatter, Arriving;
  }

  /** A list for every possible outcome; without ties where the given list has none. */
  lemma Realize(cfg: Config, l0: Loop, heard: seq<Arrival>, o: Outcome) returns (events: seq<Arrival>)
    requires Arriving(heard) && AllCore(heard) && Possible(cfg, l0, heard, o)
    ensures Arriving(events) && CoreOnly(events) == heard && (Untied(heard) ==> Untied(events))
    ensures OutcomeOf(Run(cfg, l0, events, 0)) == o
  {
    var m: nat :| EndsAfter(cfg, l0, heard, m, o);
    var mid := if o.Ended? then Stopper(cfg, Known(l0, heard, m).value)
               else Chatter(TimeAt(l0, heard, m), heard[m].at);
    events := Interleaved(l0, heard, m, mid);
    hide Run, Known, StopAt, Passes, Interleaved, Arriving, Handle, Chatter, TimeAt, Stopper, CoreOnly;
    if o.Ended? {
      StopperFits(cfg, l0, heard, m);
      EndIsReal(cfg, l0, heard, m, o.core);
    } else {
      ChatterFits(l0, heard, m);
      FailureIsReal(cfg, l0, heard, m, o);
    }
    InterleavedCore(l0, heard, m, mid);
    InterleavedInOrder(l0, heard, m, mid);
  }

  // ---------------------------------------------------------------- the theorems

  /** Some interleaving of the list with other streams has this outcome. */
  ghost predicate CanEndWith(cfg: Config, l0: Loop, heard: seq<Arrival>, o: Outcome) {
    exists events :: Arriving(events) && CoreOnly(events) == heard && OutcomeOf(Run(cfg, l0, events, 0)) == o
  }

  /** Decided by the list alone, before any other stream is looked at: the outcomes of its
      interleavings are exactly the possible ones. */
  lemma OutcomesExactly(cfg: Config, l0: Loop, heard: seq<Arrival>, o: Outcome)
    requires Arriving(heard) && AllCore(heard)
    ensures CanEndWith(cfg, l0, heard, o) <==> Possible(cfg, l0, heard, o)
  {
    hide Run, Arriving, CoreOnly, Possible, OutcomeOf;
    if events: seq<Arrival>
      :| Arriving(events) && CoreOnly(events) == heard && OutcomeOf(Run(cfg, l0, events, 0)) == o {
      RunIsPossible(cfg, l0, events);
    }
    if Possible(cfg, l0, heard, o) {
      var events := Realize(cfg, l0, heard, o);
    }
  }

  /** The outcomes agree over every interleaving of one list of lifecycle and response events
      with events of other streams. */
  ghost predicate AgreesOn(cfg: Config, l0: Loop, heard: seq<Arrival>) {
    forall events | Arriving(events) && CoreOnly(events) == heard ::
      SameOutcome(Run(cfg, l0, events, 0), Run(cfg, l0, heard, 0))
  }

  ghost predicate OneOutcome(cfg: Config, l0: Loop, heard: seq<Arrival>) {
    forall o, p | Possible(cfg, l0, heard, o) && Possible(cfg, l0, heard, p) :: o == p
  }

  /** Of two possible outcomes one differs from that of the lean loop. */
  lemma TwoDiffer(cfg: Config, l0: Loop, heard: seq<Arrival>, o: Outcome, p: Outcome) returns (events: seq<Arrival>)
    requires Arriving(heard) && AllCore(heard) && o != p
    requires Possible(cfg, l0, heard, o) && Possible(cfg, l0, heard, p)
    ensures Arriving(events) && CoreOnly(events) == heard && (Untied(heard) ==> Untied(events))
    ensures !SameOutcome(Run(cfg, l0, events, 0), Run(cfg, l0, heard, 0))
  {
    hide *;
    var lean := Run(cfg, l0, heard, 0);
    events := Realize(cfg, l0, heard, if OutcomeOf(lean) == o then p else o);
    OutcomeDecides(Run(cfg, l0, events, 0), lean);
  }

  /** No interleaving changes the outcome if and only if only one is possible. */
  lemma AgreesExactlyWhen(cfg: Config, l0: Loop, heard: seq<Arrival>)
    requires Arriving(heard) && AllCore(heard)
    ensures AgreesOn(cfg, l0, heard) <==> OneOutcome(cfg, l0, heard)
  {
    hide Run, Arriving, CoreOnly, Possible, OutcomeOf, SameOutcome, AllCore, Untied;
    if o, p :| Possible(cfg, l0, heard, o) && Possible(cfg, l0, heard, p) && o != p {
      var events := TwoDiffer(cfg, l0, heard, o, p);
      assert !AgreesOn(cfg, l0, heard);
    } else {
      LeanHears(heard);
      RunIsPossible(cfg, l0, heard);
      forall events | Arriving(events) && CoreOnly(events) == heard
        ensures SameOutcome(Run(cfg, l0, events, 0), Run(cfg, l0, heard, 0))
      {
        RunIsPossible(cfg, l0, events);
        OutcomeDecides(Run(cfg, l0, events, 0), Run(cfg, l0, heard, 0));
      }
    }
  }

  // ---------------------------------------------------------------- over all lists

  /** With no more time than the quiet window the lean loop always runs to its deadline. */
  lemma ShortRunsToDeadline(patterns: seq<string>, start: nat, timeout: nat, waitUntilLoad: bool, heard: seq<Arrival>)
    requires timeout <= QUIET_GRACE
    ensures var lean := Run(Config(start + timeout, waitUntilLoad), Start(patterns, start), heard, 0);
            lean.Settled? ==> lean.at == start + timeout
  {
    var lean := Run(Config(start + timeout, waitUntilLoad), Start(patterns, start), heard, 0);
    ExitPolicy(patterns, start, timeout, waitUntilLoad, heard);
    hide Run, Start, AllServed, ClockAt, GateName;
    if lean.Settled? && lean.at < start + timeout {
      var j: nat :| FirstOf(heard, lean.used, GateName(waitUntilLoad), j)
        && WellTimed(start, heard, lean.last.served, lean.used, lean.at, ClockAt(start, heard, j + 1));
      ClockGrows(start, heard, 0, j + 1);
    }
  }

  lemma HandledNext(cfg: Config, l: Loop, events: seq<Arrival>, k: nat)
    requires k <= |events| && Handled(Run(cfg, l, events, k)) > k
    ensures k < |events| && !SleepFirst(cfg, l, events[k])
    ensures var r := Handle(l, k, events[k].event, DeliveredAt(l, events[k]));
            Handled(Run(cfg, l, events, k)) == if r.Ok? then Handled(Run(cfg, r.value, events, k + 1)) else k + 1
  {
    RunUnfolds(cfg, l, events, k);
    hide Run, Handle, StopAt, SleepFirst;
  }

  lemma MatchNext(l0: Loop, heard: seq<Arrival>, k: nat, l: Loop)
    requires Arriving(heard) && k < |heard| && Matches(l0, heard, k, l)
    ensures DeliveredAt(l, heard[k]) == Due(l0, heard[k])
    ensures var r := Handle(l, k, heard[k].event, Due(l0, heard[k])); r.Ok? ==> Matches(l0, heard, k + 1, r.value)
  {
    var t := Due(l0, heard[k]);
    KnownNext(l0, heard, k);
    HandleSameCore(Known(l0, heard, k).value, l, k, k, heard[k].event, t);
    assert k > 0 ==> heard[k - 1].at <= heard[k].at;
    hide Known, Handle, Arriving;
    if Handle(l, k, heard[k].event, t).Ok? {
      HandleSetsNow(l, k, heard[k].event, t);
    }
  }

  /** Without ties an event is handled before the sleep would have ended. */
  lemma UntiedNext(cfg: Config, l0: Loop, heard: seq<Arrival>, k: nat, l: Loop)
    requires Arriving(heard) && Untied(heard) && k < |heard| && Matches(l0, heard, k, l)
    requires !SleepFirst(cfg, l, heard[k])
    ensures InTime(cfg, l0, heard, k)
  {
    MatchNext(l0, heard, k, l);
    KnownNow(l0, heard, k);
    SameStop(cfg, l, Known(l0, heard, k).value);
    hide Known, StopAt, Arriving, DeliveredAt, Handle;
  }

  lemma {:induction false} UntiedRun(cfg: Config, l0: Loop, heard: seq<Arrival>, l: Loop, k: nat, i: nat)
    requires Arriving(heard) && Untied(heard) && k <= |heard| && Matches(l0, heard, k, l)
    requires k <= i < Handled(Run(cfg, l, heard, k))
    ensures InTime(cfg, l0, heard, i)
    decreases i - k
  {
    hide *;
    HandledNext(cfg, l, heard, k);
    if i == k {
      UntiedNext(cfg, l0, heard, k, l);
    } else {
      MatchNext(l0, heard, k, l);
      UntiedRun(cfg, l0, heard, Handle(l, k, heard[k].event, Due(l0, heard[k])).value, k + 1, i);
    }
  }

  lemma UntiedNoTie(cfg: Config, l0: Loop, heard: seq<Arrival>)
    requires Arriving(heard) && Untied(heard)
    ensures NoTie(cfg, l0, heard)
  {
    StartMatches(l0, heard);
    hide Run, Known, StopAt, Arriving, Untied, Matches, Due, Handled, InTime;
    forall i: nat | i < Handled(Run(cfg, l0, heard, 0))
      ensures InTime(cfg, l0, heard, i)
    {
      UntiedRun(cfg, l0, heard, l0, 0, i);
    }
  }

  // ---------------------------------------------------------------- a list for every request

  /** A URL that contains every pattern. */
  function Joined(patterns: seq<string>): string {
    if patterns == [] then "u" else Joined(patterns[..|patterns| - 1]) + patterns[|patterns| - 1]
  }

  lemma {:induction false} JoinedContains(patterns: seq<string>, i: nat)
    requires i < |patterns|
    ensures Contains(Joined(patterns), patterns[i])
    decreases |patterns|
  {
    var n := |patterns| - 1;
    var url, before := Joined(patterns), Joined(patterns[..n]);
    if i == n {
      assert OccursAt(url, patterns[i], |before|);
    } else {
      JoinedContains(patterns[..n], i);
      var j :| 0 <= j <= |before| && OccursAt(before, patterns[i], j);
      assert url[j..j + |patterns[i]|] == before[j..j + |patterns[i]|];
      assert OccursAt(url, patterns[i], j);
    }
  }

  lemma {:induction false} JoinedIsReal(patterns: seq<string>)
    ensures Joined(patterns) != "" && Joined(patterns)[0] == 'u' && IsRealResource(Joined(patterns))
  {
    if patterns != [] {
      JoinedIsReal(patterns[..|patterns| - 1]);
    }
  }

  function Hit(patterns: seq<string>, start: nat): Arrival {
    Arrival(start, false, Received(Response("", Joined(patterns), 200, false, None, None, None, None, None)))
  }

  function Gate(start: nat, waitUntilLoad: bool): Arrival {
    Arrival(start, false, Lifecycle(if waitUntilLoad then "load" else "networkIdle", 0.0))
  }

  function Late(start: nat): Arrival { Arrival(start + QUIET_GRACE, false, Lifecycle("firstContentfulPaint", 0.0)) }

  /** Every pattern served and the gate fired at once, then a paint when the quiet window ends. */
  function Tight(patterns: seq<string>, start: nat, waitUntilLoad: bool): seq<Arrival> {
    seq(|patterns|, _ => Hit(patterns, start)) + [Gate(start, waitUntilLoad), Late(start)]
  }

  /** No gate yet, no paint yet, and all that is pending is in the joined URL. */
  ghost predicate Hitting(patterns: seq<string>, start: nat, l: Loop, left: nat) {
    && l.now == start && l.core.loadAt == None && l.core.idleAt == None && l.core.fcpTs == None
    && |l.core.pending| == left
    && forall p | p in l.core.pending :: Contains(Joined(patterns), p.text)
  }

  lemma OneHit(patterns: seq<string>, start: nat, l: Loop, left: nat, k: nat)
    requires Hitting(patterns, start, l, left) && left > 0
    ensures var r := Handle(l, k, Hit(patterns, start).event, start);
            r.Ok? && Hitting(patterns, start, r.value, left - 1)
  {
    JoinedIsReal(patterns);
    var pending := l.core.pending;
    assert pending[0] in pending;
    assert Position(pending, Joined(patterns)) == 0;
    var rest := SwapRemove(pending, 0);
    assert forall i | 0 <= i < |rest| :: rest[i] in pending;
    hide Joined, Contains, Position, IsRealResource;
  }

  /** Pending patterns keep the loop to its deadline, and so does a gate that has not fired. */
  lemma WaitsForDeadline(cfg: Config, patterns: seq<string>, start: nat, l: Loop, left: nat)
    requires Hitting(patterns, start, l, left)
    ensures Cap(cfg, l.core) == cfg.deadline
  {
  }

  lemma StartHits(patterns: seq<string>, start: nat)
    ensures Hitting(patterns, start, Start(patterns, start), |patterns|)
  {
    var pending := Enumerate(patterns);
    forall p | p in pending
      ensures Contains(Joined(patterns), p.text)
    {
      var i :| 0 <= i < |pending| && pending[i] == p;
      JoinedContains(patterns, i);
    }
  }

  lemma TightAt(patterns: seq<string>, start: nat, waitUntilLoad: bool)
    ensures var (heard, n) := (Tight(patterns, start, waitUntilLoad), |patterns|);
            && |heard| == n + 2 && heard[n] == Gate(start, waitUntilLoad) && heard[n + 1] == Late(start)
            && forall i | 0 <= i < n :: heard[i] == Hit(patterns, start)
  {
    hide Hit, Gate;
  }

  lemma TightInOrder(patterns: seq<string>, start: nat, waitUntilLoad: bool)
    ensures var heard := Tight(patterns, start, waitUntilLoad); Arriving(heard) && AllCore(heard) && Untied(heard)
  {
    hide Joined;
  }

  /** The loop after the gate: ready, quiet, and about to miss the paint. */
  lemma AfterGate(cfg: Config, patterns: seq<string>, start: nat, l: Loop, k: nat) returns (g: Loop)
    requires Hitting(patterns, start, l, 0) && cfg.deadline > start + QUIET_GRACE
    ensures Handle(l, k, Gate(start, cfg.waitUntilLoad).event, start) == Ok(g)
    ensures g.now == start && g.core.fcpTs == None && StopAt(cfg, g) == start + QUIET_GRACE < Cap(cfg, g.core)
  {
    g := Handle(l, k, Gate(start, cfg.waitUntilLoad).event, start).value;
  }

  lemma {:induction false} HitsKnown(cfg: Config, patterns: seq<string>, start: nat, heard: seq<Arrival>, i: nat)
    requires i <= |patterns| <= |heard| && forall j | 0 <= j < |patterns| :: heard[j] == Hit(patterns, start)
    requires cfg.deadline > start
    ensures Reached(cfg, Start(patterns, start), heard, i)
    ensures Hitting(patterns, start, Known(Start(patterns, start), heard, i).value, |patterns| - i)
    decreases i
  {
    var l0 := Start(patterns, start);
    hide Handle, Hitting, Hit, Start, Known, Cap, Passes;
    if i == 0 {
      StartHits(patterns, start);
      NoneKnown(l0, heard);
    } else {
      HitsKnown(cfg, patterns, start, heard, i - 1);
      var l := Known(l0, heard, i - 1).value;
      KnownNext(l0, heard, i - 1);
      OneHit(patterns, start, l, |patterns| - (i - 1), i - 1);
      AtStart(patterns, start);
      HitDue(cfg, patterns, start, l0, heard, i - 1, |patterns| - (i - 1));
    }
  }

  lemma NoneKnown(l0: Loop, heard: seq<Arrival>)
    ensures Known(l0, heard, 0) == Ok(l0)
  {
  }

  lemma AtStart(patterns: seq<string>, start: nat)
    ensures Start(patterns, start).now == Hit(patterns, start).at == start
  {
  }

  /** Every event of the first instant passes. */
  lemma HitDue(cfg: Config, patterns: seq<string>, start: nat, l0: Loop, heard: seq<Arrival>, i: nat, left: nat)
    requires i < |heard| && heard[i].at == start == l0.now && cfg.deadline > start
    requires Known(l0, heard, i).Ok? && Hitting(patterns, start, Known(l0, heard, i).value, left)
    ensures Due(l0, heard[i]) == start && Passes(cfg, l0, heard, i)
  {
    WaitsForDeadline(cfg, patterns, start, Known(l0, heard, i).value, left);
    hide Known, Cap;
  }

  /** After the gate the loop can leave, or be kept awake and handle the paint. */
  lemma TightKnown(cfg: Config, patterns: seq<string>, start: nat, heard: seq<Arrival>) returns (g: Loop)
    requires heard == Tight(patterns, start, cfg.waitUntilLoad) && cfg.deadline > start + QUIET_GRACE
    ensures |heard| == |patterns| + 2 && Reached(cfg, Start(patterns, start), heard, |patterns| + 1)
    ensures Known(Start(patterns, start), heard, |patterns| + 1) == Ok(g)
    ensures g.now == start && g.core.fcpTs == None && StopAt(cfg, g) == start + QUIET_GRACE < Cap(cfg, g.core)
  {
    var l0, n := Start(patterns, start), |patterns|;
    assert l0.now == start;
    TightAt(patterns, start, cfg.waitUntilLoad);
    hide Handle, Hitting, Hit, Start, Known, Cap, StopAt, Tight, Passes;
    HitsKnown(cfg, patterns, start, heard, n);
    HitDue(cfg, patterns, start, l0, heard, n, 0);
    KnownNext(l0, heard, n);
    g := AfterGate(cfg, patterns, start, Known(l0, heard, n).value, n);
  }

  lemma PaintIsNew(cfg: Config, l0: Loop, heard: seq<Arrival>, m: nat)
    requires m < |heard| && heard[m].event == Lifecycle("firstContentfulPaint", 0.0)
    requires Reached(cfg, l0, heard, m) && Passes(cfg, l0, heard, m) && Known(l0, heard, m).value.core.fcpTs == None
    ensures Reached(cfg, l0, heard, m + 1) && Known(l0, heard, m + 1).value.core.fcpTs == Some(0.0)
  {
    KnownNext(l0, heard, m);
    hide Known, Cap, Passes;
  }

  /** A list with two possible outcomes: without the paint, and with it. */
  lemma PaintDecides(cfg: Config, l0: Loop, heard: seq<Arrival>, m: nat) returns (o: Outcome, p: Outcome)
    requires |heard| == m + 1 && heard[m].event == Lifecycle("firstContentfulPaint", 0.0)
    requires Reached(cfg, l0, heard, m) && CanStop(cfg, l0, heard, m) && Passes(cfg, l0, heard, m)
    requires Known(l0, heard, m).value.core.fcpTs == None
    ensures o != p && Possible(cfg, l0, heard, o) && Possible(cfg, l0, heard, p)
  {
    PaintIsNew(cfg, l0, heard, m);
    hide Known, Passes, Reached;
    o, p := Ended(Known(l0, heard, m).value.core), Ended(Known(l0, heard, m + 1).value.core);
    assert EndsAfter(cfg, l0, heard, m, o) && EndsAfter(cfg, l0, heard, m + 1, p);
  }

  lemma TightDiffers(patterns: seq<string>, start: nat, timeout: nat, waitUntilLoad: bool)
    returns (events: seq<Arrival>)
    requires timeout > QUIET_GRACE
    ensures var (cfg, l0) := (Config(start + timeout, waitUntilLoad), Start(patterns, start));
            && Arriving(events) && Untied(events)
            && !SameOutcome(Run(cfg, l0, events, 0), Run(cfg, l0, CoreOnly(events), 0))
  {
    var (cfg, l0) := (Config(start + timeout, waitUntilLoad), Start(patterns, start));
    var heard, m := Tight(patterns, start, waitUntilLoad), |patterns| + 1;
    assert l0.now == start;
    TightAt(patterns, start, waitUntilLoad);
    TightInOrder(patterns, start, waitUntilLoad);
    hide Run, Known, Cap, StopAt, Tight, Start, Hit, Gate, Reached, Possible, SameOutcome, CoreOnly, Arriving;
    var g := TightKnown(cfg, patterns, start, heard);
    assert CanStop(cfg, l0, heard, m) && Passes(cfg, l0, heard, m);
    var o, p := PaintDecides(cfg, l0, heard, m);
    events := TwoDiffer(cfg, l0, heard, o, p);
  }

  /** With no more time than the quiet window, and no tie, the loops agree. */
  lemma ShortAgrees(patterns: seq<string>, start: nat, timeout: nat, waitUntilLoad: bool, events: seq<Arrival>)
    requires timeout <= QUIET_GRACE && Arriving(events) && Untied(events)
    ensures var (cfg, l0) := (Config(start + timeout, waitUntilLoad), Start(patterns, start));
            SameOutcome(Run(cfg, l0, events, 0), Run(cfg, l0, CoreOnly(events), 0))
  {
    var (cfg, l0) := (Config(start + timeout, waitUntilLoad), Start(patterns, start));
    CoreOnlyPrefix(events, |events|);
    hide Run, Arriving, CoreOnly, SameOutcome, Start, NoTie;
    assert Untied(CoreOnly(events));
    CoreOnlyArriving(events);
    UntiedNoTie(cfg, l0, CoreOnly(events));
    ShortRunsToDeadline(patterns, start, timeout, waitUntilLoad, CoreOnly(events));
    LeanAgreesWithFull(cfg, l0, events);
  }

  /** For a request, without ties: the loops agree on every list of events if and only if the
      request allows no more time than the quiet window. */
  lemma UntiedAgreesExactlyWhen(patterns: seq<string>, start: nat, timeout: nat, waitUntilLoad: bool)
    ensures var (cfg, l0) := (Config(start + timeout, waitUntilLoad), Start(patterns, start));
            (forall events | Arriving(events) && Untied(events) ::
               SameOutcome(Run(cfg, l0, events, 0), Run(cfg, l0, CoreOnly(events), 0)))
            <==> timeout <= QUIET_GRACE
  {
    hide Run, Arriving, CoreOnly, SameOutcome, Untied, Start;
    if timeout <= QUIET_GRACE {
      forall events | Arriving(events) && Untied(events)
        ensures var (cfg, l0) := (Config(start + timeout, waitUntilLoad), Start(patterns, start));
                SameOutcome(Run(cfg, l0, events, 0), Run(cfg, l0, CoreOnly(events), 0))
      {
        ShortAgrees(patterns, start, timeout, waitUntilLoad, events);
      }
    } else {
      var events := TightDiffers(patterns, start, timeout, waitUntilLoad);
    }
  }

  /** A paint that wins the tie at the deadline. */
  function LastPaint(at: nat): Arrival { Arrival(at, true, Lifecycle("firstContentfulPaint", 0.0)) }

  lemma TieDecides(patterns: seq<string>, start: nat, timeout: nat, waitUntilLoad: bool)
    returns (o: Outcome, p: Outcome)
    requires timeout > 0
    ensures var (cfg, l0) := (Config(start + timeout, waitUntilLoad), Start(patterns, start));
            && o != p && Possible(cfg, l0, [LastPaint(start + timeout)], o)
            && Possible(cfg, l0, [LastPaint(start + timeout)], p)
  {
    var (cfg, l0) := (Config(start + timeout, waitUntilLoad), Start(patterns, start));
    var heard := [LastPaint(start + timeout)];
    assert Known(l0, heard, 0) == Ok(l0) && l0.core.fcpTs == None;
    assert Cap(cfg, l0.core) == StopAt(cfg, l0) == start + timeout && l0.now == start;
    hide Known, Cap, StopAt, Start;
    o, p := PaintDecides(cfg, l0, heard, 0);
  }

  lemma TieMakesADifference(patterns: seq<string>, start: nat, timeout: nat, waitUntilLoad: bool)
    returns (events: seq<Arrival>)
    requires timeout > 0
    ensures var (cfg, l0) := (Config(start + timeout, waitUntilLoad), Start(patterns, start));
            Arriving(events) && !SameOutcome(Run(cfg, l0, events, 0), Run(cfg, l0, CoreOnly(events), 0))
  {
    var (cfg, l0) := (Config(start + timeout, waitUntilLoad), Start(patterns, start));
    hide Run, Possible, Start, CoreOnly, SameOutcome;
    var o, p := TieDecides(patterns, start, timeout, waitUntilLoad);
    events := TwoDiffer(cfg, l0, [LastPaint(start + timeout)], o, p);
  }

  /** For a request, with ties: the loops agree on every list of events only when they have no
      time to handle any. */
  lemma AgreesAlwaysExactlyWhen(patterns: seq<string>, start: nat, timeout: nat, waitUntilLoad: bool)
    ensures var (cfg, l0) := (Config(start + timeout, waitUntilLoad), Start(patterns, start));
            (forall events | Arriving(events) ::
               SameOutcome(Run(cfg, l0, events, 0), Run(cfg, l0, CoreOnly(events), 0)))
            <==> timeout == 0
  {
    var (cfg, l0) := (Config(start + timeout, waitUntilLoad), Start(patterns, start));
    if timeout == 0 {
      forall events | Arriving(events)
        ensures SameOutcome(Run(cfg, l0, events, 0), Run(cfg, l0, CoreOnly(events), 0))
      {
        RunUnfolds(cfg, l0, events, 0);
        RunUnfolds(cfg, l0, CoreOnly(events), 0);
        hide Run, CoreOnly;
        OutcomeDecides(Run(cfg, l0, events, 0), Run(cfg, l0, CoreOnly(events), 0));
      }
    } else {
      hide Run, Arriving, CoreOnly, SameOutcome, Start;
      var events := TieMakesADifference(patterns, start, timeout, waitUntilLoad);
    }
  }
}
