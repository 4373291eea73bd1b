/** What both collect loops guarantee, in terms of the events alone: which patterns are
    served, and when the loops stop. */
module CollectLaws {
  import opened Wrappers
  import opened Strings
  import opened Collect

  // ---------------------------------------------------------------- instants

  predicate IsMark(e: Event, name: string) { e.Lifecycle? && e.name == name }

  /** The time after the first `k` events: each is handled when it arrives, or at once if it
      was queued before. */
  function ClockAt(start: nat, events: seq<Arrival>, k: nat): nat
    requires k <= |events|
  {
    if k == 0 then start else Max(ClockAt(start, events, k - 1), events[k - 1].at)
  }

  lemma {:induction false} ClockGrows(start: nat, events: seq<Arrival>, j: nat, k: nat)
    requires j <= k <= |events|
    ensures start <= ClockAt(start, events, j) <= ClockAt(start, events, k)
    decreases k
  {
    if j < k {
      ClockGrows(start, events, j, k - 1);
    } else if k > 0 {
      ClockGrows(start, events, k - 1, k - 1);
    }
  }

  /** Event `j` is the first mark of this name, and among the first `k` events. */
  ghost predicate FirstOf(events: seq<Arrival>, k: nat, name: string, j: nat)
    requires k <= |events|
  {
    j < k && IsMark(events[j].event, name) && forall i | 0 <= i < j :: !IsMark(events[i].event, name)
  }

  /** `o` is the instant of the first mark of this name. */
  ghost predicate Instant(start: nat, events: seq<Arrival>, k: nat, name: string, o: Option<nat>)
    requires k <= |events|
  {
    if o.None? then forall j | 0 <= j < k :: !IsMark(events[j].event, name)
    else exists j: nat :: FirstOf(events, k, name, j) && o.value == ClockAt(start, events, j + 1)
  }

  ghost predicate Clocked(start: nat, events: seq<Arrival>, k: nat, l: Loop) {
    && k <= |events|
    && l.now == ClockAt(start, events, k)
    && Instant(start, events, k, "load", l.core.loadAt)
    && Instant(start, events, k, "networkIdle", l.core.idleAt)
  }

  lemma InstantNext(start: nat, events: seq<Arrival>, k: nat, name: string, o: Option<nat>)
    requires k < |events| && Instant(start, events, k, name, o)
    ensures Instant(start, events, k + 1, name,
                    if IsMark(events[k].event, name) then GetOrInsert(o, ClockAt(start, events, k + 1)) else o)
  {
    hide ClockAt;
    if o.Some? {
      var j: nat :| FirstOf(events, k, name, j) && o.value == ClockAt(start, events, j + 1);
      assert FirstOf(events, k + 1, name, j);
    } else if IsMark(events[k].event, name) {
      assert FirstOf(events, k + 1, name, k);
    }
  }

  lemma HandledInstants(l: Loop, k: nat, event: Event, t: nat)
    requires Handle(l, k, event, t).Ok?
    ensures var l' := Handle(l, k, event, t).value;
            && l'.now == t
            && l'.core.loadAt == (if IsMark(event, "load") then GetOrInsert(l.core.loadAt, t) else l.core.loadAt)
            && l'.core.idleAt == (if IsMark(event, "networkIdle") then GetOrInsert(l.core.idleAt, t) else l.core.idleAt)
  {
    hide Position, OnDocument, IsRealResource, SwapRemove;
  }

  lemma HandleKeepsClocked(start: nat, l: Loop, events: seq<Arrival>, k: nat)
    requires k < |events| && Clocked(start, events, k, l)
    ensures DeliveredAt(l, events[k]) == ClockAt(start, events, k + 1)
    ensures var r := Handle(l, k, events[k].event, DeliveredAt(l, events[k]));
            r.Ok? ==> Clocked(start, events, k + 1, r.value)
  {
    var t := DeliveredAt(l, events[k]);
    assert t == ClockAt(start, events, k + 1);
    var r := Handle(l, k, events[k].event, t);
    if r.Ok? {
      HandledInstants(l, k, events[k].event, t);
      hide Handle, Instant, ClockAt, IsMark;
      InstantNext(start, events, k, "load", l.core.loadAt);
      InstantNext(start, events, k, "networkIdle", l.core.idleAt);
    }
  }

  // ---------------------------------------------------------------- wait patterns

  /** Event `e` is a real 2xx or 3xx response whose URL contains the pattern. */
  predicate Serves(events: seq<Arrival>, e: nat, pattern: string) {
    && e < |events|
    && events[e].event.Received?
    && var r := events[e].event.response;
       IsRealResource(r.url) && 200 <= r.status < 400 && Contains(r.url, pattern)
  }

  ghost predicate Waits(pending: seq<Pattern>, i: nat) {
    exists p :: p in pending && p.index == i
  }

  /** Each requested pattern is either pending or served, each by a response of its own. */
  ghost predicate Discharged(patterns: seq<string>, l: Loop, events: seq<Arrival>, k: nat) {
    && (forall p | p in l.core.pending :: p.index < |patterns| && p.text == patterns[p.index] && p.index !in l.served)
    && (forall a, b | 0 <= a < b < |l.core.pending| :: l.core.pending[a].index != l.core.pending[b].index)
    && (forall i: nat | i < |patterns| :: i in l.served || Waits(l.core.pending, i))
    && (forall i | i in l.served :: i < |patterns| && l.served[i] < k && Serves(events, l.served[i], patterns[i]))
    && (forall i, j | i in l.served && j in l.served && i != j :: l.served[i] != l.served[j])
  }

  lemma SwapRemoveFacts<T>(s: seq<T>, i: nat)
    requires i < |s|
    ensures var r := SwapRemove(s, i);
            && |r| == |s| - 1
            && (forall j | 0 <= j < |r| :: r[j] == s[if j == i then |s| - 1 else j])
            && (forall x | x in s :: x in r || x == s[i])
  {
    var r := SwapRemove(s, i);
    forall x | x in s
      ensures x in r || x == s[i]
    {
      var j :| 0 <= j < |s| && s[j] == x;
      if j != i {
        assert r[if j == |s| - 1 then i else j] == x;
      }
    }
  }

  /** Without the pattern at `pos` the others are as they were. */
  lemma RestWaits(pending: seq<Pattern>, pos: nat)
    requires pos < |pending| && forall a, b | 0 <= a < b < |pending| :: pending[a].index != pending[b].index
    ensures var rest := SwapRemove(pending, pos);
            && (forall p | p in rest :: p in pending && p.index != pending[pos].index)
            && (forall a, b | 0 <= a < b < |rest| :: rest[a].index != rest[b].index)
            && (forall m: nat | Waits(pending, m) && m != pending[pos].index :: Waits(rest, m))
  {
    var rest := SwapRemove(pending, pos);
    SwapRemoveFacts(pending, pos);
    hide SwapRemove;
    forall p | p in rest
      ensures p in pending && p.index != pending[pos].index
    {
      var j :| 0 <= j < |rest| && rest[j] == p;
    }
    forall m: nat | Waits(pending, m) && m != pending[pos].index
      ensures Waits(rest, m)
    {
      var p :| p in pending && p.index == m;
      assert p in rest;
    }
  }

  lemma ServeOne(patterns: seq<string>, l: Loop, events: seq<Arrival>, k: nat, pos: nat, l': Loop)
    requires Discharged(patterns, l, events, k) && k < |events|
    requires pos < |l.core.pending| && Serves(events, k, l.core.pending[pos].text)
    requires l'.core.pending == SwapRemove(l.core.pending, pos)
    requires l'.served == l.served[l.core.pending[pos].index := k]
    ensures Discharged(patterns, l', events, k + 1)
  {
    assert l.core.pending[pos] in l.core.pending;
    RestWaits(l.core.pending, pos);
    hide SwapRemove, Serves, Waits;
  }

  lemma HandleKeepsDischarged(patterns: seq<string>, l: Loop, events: seq<Arrival>, k: nat, t: nat)
    requires Discharged(patterns, l, events, k) && k < |events|
    requires Handle(l, k, events[k].event, t).Ok?
    ensures Discharged(patterns, Handle(l, k, events[k].event, t).value, events, k + 1)
  {
    var l' := Handle(l, k, events[k].event, t).value;
    if l'.served != l.served || l'.core.pending != l.core.pending {
      var r := events[k].event.response;
      var pos := Position(l.core.pending, r.url);
      hide Position, OnDocument, IsRealResource, Contains, Discharged;
      ServeOne(patterns, l, events, k, pos, l');
    } else {
      hide Handle;
    }
  }

  lemma StartIsDischarged(patterns: seq<string>, start: nat, events: seq<Arrival>)
    ensures Discharged(patterns, Start(patterns, start), events, 0)
  {
    var pending := Enumerate(patterns);
    forall i: nat | i < |patterns|
      ensures Waits(pending, i)
    {
      assert pending[i] in pending && pending[i].index == i;
    }
  }

  /** What was served before event `k` stays, and the rest is served from then on. */
  ghost predicate ServedGrows(before: map<nat, nat>, after: map<nat, nat>, k: nat) {
    && (forall i | i in before :: i in after && after[i] == before[i] && before[i] < k)
    && (forall i | i in after && i !in before :: after[i] >= k)
  }

  /** The patterns that event `j` could serve: in its URL, and not served before it. */
  ghost predicate Wanted(patterns: seq<string>, events: seq<Arrival>, served: map<nat, nat>, j: nat, i: nat) {
    && j < |events| && events[j].event.Received? && IsRealResource(events[j].event.response.url)
    && i < |patterns| && Contains(events[j].event.response.url, patterns[i])
    && (i in served ==> served[i] >= j)
  }

  /** A response that some pattern waits for serves one of those, or fails the collection. */
  ghost predicate Taken(patterns: seq<string>, events: seq<Arrival>, served: map<nat, nat>, j: nat) {
    (exists i :: Wanted(patterns, events, served, j, i)) ==>
      && 200 <= events[j].event.response.status < 400
      && exists i :: i in served && served[i] == j && Wanted(patterns, events, served, j, i)
  }

  lemma NoneWanted(patterns: seq<string>, l: Loop, events: seq<Arrival>, k: nat)
    requires Discharged(patterns, l, events, k) && k < |events| && events[k].event.Received?
    requires Position(l.core.pending, events[k].event.response.url) == |l.core.pending|
    ensures forall i :: !Wanted(patterns, events, l.served, k, i)
  {
    var pending := l.core.pending;
    forall i: nat
      ensures !Wanted(patterns, events, l.served, k, i)
    {
      if i < |patterns| && i !in l.served {
        var p :| p in pending && p.index == i;
        var j :| 0 <= j < |pending| && pending[j] == p;
      }
    }
  }

  lemma HandleServes(patterns: seq<string>, l: Loop, events: seq<Arrival>, k: nat, t: nat)
    requires Discharged(patterns, l, events, k) && k < |events|
    requires Handle(l, k, events[k].event, t).Ok?
    ensures var l' := Handle(l, k, events[k].event, t).value;
            && (forall i | i in l.served :: i in l'.served && l'.served[i] == l.served[i] && l.served[i] < k)
            && (forall i | i in l'.served && i !in l.served ::
                  l'.served[i] == k && i < |patterns| && Contains(events[k].event.response.url, patterns[i]))
            && ((exists i :: Wanted(patterns, events, l.served, k, i)) ==>
                  && 200 <= events[k].event.response.status < 400
                  && exists i :: i in l'.served && i !in l.served)
  {
    var event, pending := events[k].event, l.core.pending;
    if event.Received? && IsRealResource(event.response.url) {
      var pos := Position(pending, event.response.url);
      if pos < |pending| {
        assert pending[pos] in pending;
        assert pending[pos].index in Handle(l, k, event, t).value.served;
      } else {
        NoneWanted(patterns, l, events, k);
      }
    }
    hide Position, OnDocument, IsRealResource, SwapRemove, Contains;
  }

  lemma TakenNow(patterns: seq<string>, l: Loop, events: seq<Arrival>, k: nat, t: nat, after: map<nat, nat>)
    requires Discharged(patterns, l, events, k) && k < |events|
    requires Handle(l, k, events[k].event, t).Ok?
    requires ServedGrows(l.served, after, k)
    requires ServedGrows(Handle(l, k, events[k].event, t).value.served, after, k + 1)
    ensures Taken(patterns, events, after, k)
  {
    var l' := Handle(l, k, events[k].event, t).value;
    HandleServes(patterns, l, events, k, t);
    hide Handle, Discharged, Contains, IsRealResource;
    if i: nat :| Wanted(patterns, events, after, k, i) {
      assert Wanted(patterns, events, l.served, k, i);
      var n :| n in l'.served && n !in l.served;
      assert n in after && after[n] == k && Wanted(patterns, events, after, k, n);
    }
  }

  lemma ServedNext(patterns: seq<string>, l: Loop, events: seq<Arrival>, k: nat, t: nat, after: map<nat, nat>)
    requires Discharged(patterns, l, events, k) && k < |events|
    requires Handle(l, k, events[k].event, t).Ok?
    requires ServedGrows(Handle(l, k, events[k].event, t).value.served, after, k + 1)
    ensures ServedGrows(l.served, after, k) && Taken(patterns, events, after, k)
  {
    hide *;
    HandleServes(patterns, l, events, k, t);
    ServedBack(l.served, Handle(l, k, events[k].event, t).value.served, after, k);
    TakenNow(patterns, l, events, k, t, after);
  }

  /** What a run serves, from any point of it on. */
  ghost predicate ServesFrom(patterns: seq<string>, l: Loop, events: seq<Arrival>, k: nat, e: Exit) {
    e.Settled? ==>
      && k <= e.used <= |events| && Discharged(patterns, e.last, events, e.used)
      && ServedGrows(l.served, e.last.served, k)
      && forall j | k <= j < e.used :: Taken(patterns, events, e.last.served, j)
  }

  lemma ServesLater(patterns: seq<string>, l: Loop, events: seq<Arrival>, k: nat, t: nat, e: Exit)
    requires Discharged(patterns, l, events, k) && k < |events|
    requires var r := Handle(l, k, events[k].event, t); r.Ok? && ServesFrom(patterns, r.value, events, k + 1, e)
    ensures ServesFrom(patterns, l, events, k, e)
  {
    hide Handle, Discharged, Taken, ServedGrows;
    if e.Settled? {
      ServedNext(patterns, l, events, k, t, e.last.served);
    }
  }

  lemma {:induction false} RunServes(cfg: Config, patterns: seq<string>, l: Loop, events: seq<Arrival>, k: nat)
    requires k <= |events| && Discharged(patterns, l, events, k)
    ensures ServesFrom(patterns, l, events, k, Run(cfg, l, events, k))
    decreases |events| - k
  {
    ServedSoFar(patterns, l, events, k);
    hide Run, Handle, Discharged, Taken, StopAt, SleepFirst, DeliveredAt, ServedGrows;
    RunUnfolds(cfg, l, events, k);
    if StopAt(cfg, l) > l.now && k < |events| && !SleepFirst(cfg, l, events[k]) {
      var t := DeliveredAt(l, events[k]);
      if Handle(l, k, events[k].event, t).Ok? {
        hide ServesFrom;
        HandleKeepsDischarged(patterns, l, events, k, t);
        RunServes(cfg, patterns, Handle(l, k, events[k].event, t).value, events, k + 1);
        ServesLater(patterns, l, events, k, t, Run(cfg, l, events, k));
      }
    }
  }

  lemma ServedSoFar(patterns: seq<string>, l: Loop, events: seq<Arrival>, k: nat)
    requires Discharged(patterns, l, events, k)
    ensures ServedGrows(l.served, l.served, k)
  {
  }

  lemma ServedBack(before: map<nat, nat>, mid: map<nat, nat>, after: map<nat, nat>, k: nat)
    requires ServedGrows(mid, after, k + 1)
    requires forall i | i in before :: i in mid && mid[i] == before[i] && before[i] < k
    requires forall i | i in mid && i !in before :: mid[i] == k
    ensures ServedGrows(before, after, k)
  {
  }

  // ---------------------------------------------------------------- failures

  /** The run over the events before the failing one handles them all; the failing event is a
      real response outside 200..399 that contains a pattern still waiting then. */
  ghost predicate FailedOn(cfg: Config, patterns: seq<string>, l: Loop, events: seq<Arrival>, k: nat, e: Exit)
    requires e.UpstreamFailure? && k <= e.seen < |events|
  {
    var before := Run(cfg, l, events[..e.seen], k);
    && before.Settled? && before.used == e.seen
    && events[e.seen].event.Received?
    && (e.status, e.url) == (events[e.seen].event.response.status, events[e.seen].event.response.url)
    && !(200 <= e.status < 400)
    && exists i :: Wanted(patterns, events, before.last.served, e.seen, i)
  }

  lemma HandleFails(patterns: seq<string>, l: Loop, events: seq<Arrival>, k: nat, t: nat)
    requires k < |events| && Discharged(patterns, l, events, k)
    requires Handle(l, k, events[k].event, t).Err?
    ensures events[k].event.Received? && var r := events[k].event.response;
            && Handle(l, k, events[k].event, t).error == (r.status, r.url) && !(200 <= r.status < 400)
            && exists i :: Wanted(patterns, events, l.served, k, i)
  {
    var r := events[k].event.response;
    var p := l.core.pending[Position(l.core.pending, r.url)];
    assert p in l.core.pending && Contains(r.url, patterns[p.index]);
    assert Wanted(patterns, events, l.served, k, p.index);
  }

  /** A run over the events before a later one starts with the same step. */
  lemma SameFirstStep(cfg: Config, l: Loop, events: seq<Arrival>, k: nat, n: nat)
    requires k < n <= |events| && StopAt(cfg, l) > l.now && !SleepFirst(cfg, l, events[k])
    requires Handle(l, k, events[k].event, DeliveredAt(l, events[k])).Ok?
    ensures Run(cfg, l, events[..n], k)
            == Run(cfg, Handle(l, k, events[k].event, DeliveredAt(l, events[k])).value, events[..n], k + 1)
  {
    RunUnfolds(cfg, l, events[..n], k);
    hide Run, Handle, StopAt, SleepFirst;
  }

  lemma FailsNow(cfg: Config, patterns: seq<string>, l: Loop, events: seq<Arrival>, k: nat, e: Exit)
    requires k < |events| && Discharged(patterns, l, events, k) && StopAt(cfg, l) > l.now
    requires var r := Handle(l, k, events[k].event, DeliveredAt(l, events[k]));
             r.Err? && e == UpstreamFailure(r.error.0, r.error.1, DeliveredAt(l, events[k]), k)
    ensures FailedOn(cfg, patterns, l, events, k, e)
  {
    HandleFails(patterns, l, events, k, DeliveredAt(l, events[k]));
    RunUnfolds(cfg, l, events[..k], k);
    hide Run, Handle, StopAt, Wanted, DeliveredAt;
  }

  /** A failure, when it comes, and why. */
  ghost predicate FailsFrom(cfg: Config, patterns: seq<string>, start: nat, l: Loop, events: seq<Arrival>, k: nat,
                            e: Exit)
  {
    e.UpstreamFailure? ==>
      && k <= e.seen < |events| && e.failedAt == ClockAt(start, events, e.seen + 1) <= cfg.deadline
      && FailedOn(cfg, patterns, l, events, k, e)
  }

  lemma {:induction false} RunFails(cfg: Config, patterns: seq<string>, start: nat, l: Loop, events: seq<Arrival>,
                                    k: nat)
    requires Clocked(start, events, k, l) && Discharged(patterns, l, events, k)
    ensures FailsFrom(cfg, patterns, start, l, events, k, Run(cfg, l, events, k))
    decreases |events| - k
  {
    RunUnfolds(cfg, l, events, k);
    StopWithin(cfg, l);
    hide Run, Handle, Discharged, Clocked, Wanted, ClockAt, StopAt;
    if StopAt(cfg, l) > l.now && k < |events| && !SleepFirst(cfg, l, events[k]) {
      var t := DeliveredAt(l, events[k]);
      var r := Handle(l, k, events[k].event, t);
      HandleKeepsClocked(start, l, events, k);
      if r.Ok? {
        HandleKeepsDischarged(patterns, l, events, k, t);
        RunFails(cfg, patterns, start, r.value, events, k + 1);
        var e := Run(cfg, l, events, k);
        if e.UpstreamFailure? {
          SameFirstStep(cfg, l, events, k, e.seen);
        }
      } else {
        hide FailedOn;
        FailsNow(cfg, patterns, l, events, k, Run(cfg, l, events, k));
      }
    }
  }

  lemma StopWithin(cfg: Config, l: Loop)
    ensures StopAt(cfg, l) <= cfg.deadline
  {
  }

  // ---------------------------------------------------------------- when the loop stops

  function GateName(waitUntilLoad: bool): string { if waitUntilLoad then "load" else "networkIdle" }

  /** Every pattern was served by one of the first `k` events. */
  ghost predicate AllServed(patterns: seq<string>, served: map<nat, nat>, k: nat) {
    forall i: nat | i < |patterns| :: i in served && served[i] < k
  }

  /** When a loop that has handled `k` events means to stop: at its deadline, or, once the mark
      it was asked to wait for and every pattern have come, 100 ms after the last event, but at
      most 500 ms after that mark. */
  ghost predicate StopTime(patterns: seq<string>, start: nat, timeout: nat, waitUntilLoad: bool, events: seq<Arrival>,
                           served: map<nat, nat>, k: nat, stop: nat)
    requires k <= |events|
  {
    if (exists j: nat :: FirstOf(events, k, GateName(waitUntilLoad), j)) && AllServed(patterns, served, k) then
      exists j: nat :: FirstOf(events, k, GateName(waitUntilLoad), j)
                  && stop == Min(start + timeout,
                                 Min(ClockAt(start, events, j + 1) + 500, ClockAt(start, events, k) + 100))
    else stop == start + timeout
  }

  /** Event `k` is due before that moment, or then and wins the tie. */
  ghost predicate GoesOn(start: nat, events: seq<Arrival>, k: nat, stop: nat) {
    && k < |events| && ClockAt(start, events, k) < stop
    && (ClockAt(start, events, k + 1) < stop || (ClockAt(start, events, k + 1) == stop && events[k].wins))
  }

  /** A loop that has handled `k` events means to stop at `stop`, and goes on before or not. */
  ghost predicate Means(patterns: seq<string>, start: nat, timeout: nat, waitUntilLoad: bool, events: seq<Arrival>,
                        served: map<nat, nat>, k: nat, stop: nat, on: bool)
    requires k <= |events|
  {
    && StopTime(patterns, start, timeout, waitUntilLoad, events, served, k, stop)
    && (GoesOn(start, events, k, stop) <==> on)
  }

  ghost predicate HandledInTime(patterns: seq<string>, start: nat, timeout: nat, waitUntilLoad: bool,
                                events: seq<Arrival>, served: map<nat, nat>, k: nat)
    requires k <= |events|
  {
    exists stop: nat :: Means(patterns, start, timeout, waitUntilLoad, events, served, k, stop, true)
  }

  ghost predicate StoppedAt(patterns: seq<string>, start: nat, timeout: nat, waitUntilLoad: bool, events: seq<Arrival>,
                            served: map<nat, nat>, k: nat, at: nat)
    requires k <= |events|
  {
    exists stop: nat ::
      && Means(patterns, start, timeout, waitUntilLoad, events, served, k, stop, false)
      && at == Max(stop, ClockAt(start, events, k))
  }

  /** The loop handled an event exactly as long as it was due in time, and stopped when it
      meant to. */
  ghost predicate StopsRight(patterns: seq<string>, start: nat, timeout: nat, waitUntilLoad: bool,
                             events: seq<Arrival>, k: nat, e: Exit)
    requires e.Settled?
  {
    && k <= e.used <= |events|
    && (forall n: nat | k <= n < e.used ::
          HandledInTime(patterns, start, timeout, waitUntilLoad, events, e.last.served, n))
    && StoppedAt(patterns, start, timeout, waitUntilLoad, events, e.last.served, e.used, e.at)
  }

  lemma StopTimeIs(cfg: Config, patterns: seq<string>, start: nat, timeout: nat, l: Loop, events: seq<Arrival>, k: nat,
                   served: map<nat, nat>)
    requires Clocked(start, events, k, l) && Discharged(patterns, l, events, k) && ServedGrows(l.served, served, k)
    requires cfg.deadline == start + timeout
    ensures StopTime(patterns, start, timeout, cfg.waitUntilLoad, events, served, k, StopAt(cfg, l))
  {
    var name, gate := GateName(cfg.waitUntilLoad), GateAt(cfg, l.core);
    assert Instant(start, events, k, name, gate);
    assert l.core.pending == [] <==> AllServed(patterns, served, k) by {
      if l.core.pending != [] {
        assert l.core.pending[0] in l.core.pending;
      }
    }
    hide Discharged, AllServed, ClockAt;
    if gate.Some? {
      var j: nat :| FirstOf(events, k, name, j) && gate.value == ClockAt(start, events, j + 1);
      ClockGrows(start, events, j + 1, k);
    }
  }

  lemma GoesOnIs(cfg: Config, start: nat, l: Loop, events: seq<Arrival>, k: nat)
    requires Clocked(start, events, k, l)
    ensures GoesOn(start, events, k, StopAt(cfg, l)) <==>
              StopAt(cfg, l) > l.now && k < |events| && !SleepFirst(cfg, l, events[k])
  {
    if k < |events| {
      HandleKeepsClocked(start, l, events, k);
    }
    hide StopAt, Handle, Instant;
  }

  lemma MeansNow(cfg: Config, patterns: seq<string>, start: nat, timeout: nat, l: Loop, events: seq<Arrival>, k: nat,
                 served: map<nat, nat>)
    requires Clocked(start, events, k, l) && Discharged(patterns, l, events, k) && ServedGrows(l.served, served, k)
    requires cfg.deadline == start + timeout
    ensures var on := StopAt(cfg, l) > l.now && k < |events| && !SleepFirst(cfg, l, events[k]);
            Means(patterns, start, timeout, cfg.waitUntilLoad, events, served, k, StopAt(cfg, l), on)
  {
    StopTimeIs(cfg, patterns, start, timeout, l, events, k, served);
    GoesOnIs(cfg, start, l, events, k);
    hide Clocked, Discharged, StopAt, SleepFirst, StopTime, GoesOn, ServedGrows;
  }

  lemma StopsHere(patterns: seq<string>, start: nat, timeout: nat, waitUntilLoad: bool, events: seq<Arrival>, k: nat,
                  e: Exit, stop: nat)
    requires e.Settled? && e.used == k <= |events| && e.at == Max(stop, ClockAt(start, events, k))
    requires Means(patterns, start, timeout, waitUntilLoad, events, e.last.served, k, stop, false)
    ensures StopsRight(patterns, start, timeout, waitUntilLoad, events, k, e)
  {
    hide Means, ClockAt;
  }

  lemma StopsLater(patterns: seq<string>, start: nat, timeout: nat, waitUntilLoad: bool, events: seq<Arrival>, k: nat,
                   e: Exit, stop: nat)
    requires e.Settled? && k < |events| && StopsRight(patterns, start, timeout, waitUntilLoad, events, k + 1, e)
    requires Means(patterns, start, timeout, waitUntilLoad, events, e.last.served, k, stop, true)
    ensures StopsRight(patterns, start, timeout, waitUntilLoad, events, k, e)
  {
    hide Means, ClockAt, StoppedAt;
  }

  lemma {:induction false} RunStops(cfg: Config, patterns: seq<string>, start: nat, timeout: nat, l: Loop,
                                    events: seq<Arrival>, k: nat)
    requires Clocked(start, events, k, l) && Discharged(patterns, l, events, k) && cfg.deadline == start + timeout
    ensures var e := Run(cfg, l, events, k);
            e.Settled? ==> StopsRight(patterns, start, timeout, cfg.waitUntilLoad, events, k, e)
    decreases |events| - k
  {
    var e, stop := Run(cfg, l, events, k), StopAt(cfg, l);
    assert l.now == ClockAt(start, events, k) && k <= |events|;
    RunServes(cfg, patterns, l, events, k);
    assert e.Settled? ==> ServedGrows(l.served, e.last.served, k);
    hide *;
    RunUnfolds(cfg, l, events, k);
    if e.Settled? {
      MeansNow(cfg, patterns, start, timeout, l, events, k, e.last.served);
      if stop > l.now && k < |events| && !SleepFirst(cfg, l, events[k]) {
        var l' := Handle(l, k, events[k].event, DeliveredAt(l, events[k])).value;
        HandleKeepsClocked(start, l, events, k);
        HandleKeepsDischarged(patterns, l, events, k, DeliveredAt(l, events[k]));
        RunStops(cfg, patterns, start, timeout, l', events, k + 1);
        StopsLater(patterns, start, timeout, cfg.waitUntilLoad, events, k, e, stop);
      } else {
        StopsHere(patterns, start, timeout, cfg.waitUntilLoad, events, k, e, stop);
      }
    }
  }

  lemma StartIsClocked(patterns: seq<string>, start: nat, events: seq<Arrival>)
    ensures Clocked(start, events, 0, Start(patterns, start))
  {
  }

  /** When any collection stops, and which events it handles before, from the events alone. */
  lemma StopsExactly(patterns: seq<string>, start: nat, timeout: nat, waitUntilLoad: bool, events: seq<Arrival>)
    ensures var e := Run(Config(start + timeout, waitUntilLoad), Start(patterns, start), events, 0);
            && (e.Settled? ==> StopsRight(patterns, start, timeout, waitUntilLoad, events, 0, e))
            && (e.UpstreamFailure? ==> e.seen < |events| && e.failedAt == ClockAt(start, events, e.seen + 1))
  {
    var cfg := Config(start + timeout, waitUntilLoad);
    StartIsDischarged(patterns, start, events);
    StartIsClocked(patterns, start, events);
    hide Run, Start, Clocked, Discharged, StopsRight, FailedOn, ClockAt;
    RunStops(cfg, patterns, start, timeout, Start(patterns, start), events, 0);
    RunFails(cfg, patterns, start, Start(patterns, start), events, 0);
  }

  /** Each pattern served by its own real 2xx or 3xx response containing it, and every response
      that a pattern waited for taken for one. */
  ghost predicate OneToOne(patterns: seq<string>, events: seq<Arrival>, served: map<nat, nat>, used: nat) {
    && (forall i | i in served :: i < |patterns| && served[i] < used && Serves(events, served[i], patterns[i]))
    && (forall i, j | i in served && j in served && i != j :: served[i] != served[j])
    && (forall j | 0 <= j < used :: Taken(patterns, events, served, j))
  }

  /** Before the deadline the loop stops only with every requested pattern served; and it fails
      exactly on the first response outside 200..399 that some pattern waits for. */
  lemma PatternsOneToOne(patterns: seq<string>, start: nat, timeout: nat, waitUntilLoad: bool, events: seq<Arrival>)
    ensures var (cfg, l0) := (Config(start + timeout, waitUntilLoad), Start(patterns, start));
            var e := Run(cfg, l0, events, 0);
            && (e.Settled? ==> OneToOne(patterns, events, e.last.served, e.used))
            && (e.Settled? && e.at < start + timeout ==> AllServed(patterns, e.last.served, e.used))
            && (e.UpstreamFailure? ==> e.seen < |events| && FailedOn(cfg, patterns, l0, events, 0, e))
  {
    var (cfg, l0) := (Config(start + timeout, waitUntilLoad), Start(patterns, start));
    StartIsDischarged(patterns, start, events);
    StartIsClocked(patterns, start, events);
    hide Run, Taken, FailedOn, Start, Serves, Clocked, StopTime, ServedGrows, AllServed;
    RunServes(cfg, patterns, l0, events, 0);
    RunFails(cfg, patterns, start, l0, events, 0);
    StopsExactly(patterns, start, timeout, waitUntilLoad, events);
    var e := Run(cfg, l0, events, 0);
    if e.Settled? {
      var stop: nat :| Means(patterns, start, timeout, waitUntilLoad, events, e.last.served, e.used, stop, false)
        && e.at == Max(stop, ClockAt(start, events, e.used));
      StopByDeadline(patterns, start, timeout, waitUntilLoad, events, e.last.served, e.used, stop);
    }
  }

  lemma StopByDeadline(patterns: seq<string>, start: nat, timeout: nat, waitUntilLoad: bool, events: seq<Arrival>,
                       served: map<nat, nat>, k: nat, stop: nat)
    requires k <= |events| && StopTime(patterns, start, timeout, waitUntilLoad, events, served, k, stop)
    ensures stop <= start + timeout && (stop < start + timeout ==> AllServed(patterns, served, k))
  {
    hide AllServed, ClockAt;
  }

  // ---------------------------------------------------------------- the exit policy

  /** An early exit comes at least 100 ms after the mark waited for, at most 500 ms after it or
      with the response that served a last pattern, and before those 500 ms only after 100 ms
      without an event. */
  ghost predicate WellTimed(start: nat, events: seq<Arrival>, served: map<nat, nat>, k: nat, at: nat, gate: nat)
    requires k <= |events|
  {
    && at >= gate + 100
    && (at <= gate + 500 || (at == ClockAt(start, events, k) && exists i :: i in served && served[i] == k - 1))
    && (at < gate + 500 ==> ClockAt(start, events, k) + 100 <= at)
  }

  ghost predicate EarlyExit(patterns: seq<string>, start: nat, waitUntilLoad: bool, events: seq<Arrival>,
                            served: map<nat, nat>, k: nat, at: nat)
    requires k <= |events|
  {
    && AllServed(patterns, served, k)
    && exists j: nat ::
         && FirstOf(events, k, GateName(waitUntilLoad), j)
         && WellTimed(start, events, served, k, at, ClockAt(start, events, j + 1))
  }

  lemma FirstIsOne(events: seq<Arrival>, k: nat, name: string, i: nat, j: nat)
    requires k <= |events| && FirstOf(events, k, name, i) && FirstOf(events, k, name, j)
    ensures i == j
  {
  }

  lemma StopBound(patterns: seq<string>, start: nat, timeout: nat, waitUntilLoad: bool, events: seq<Arrival>,
                  served: map<nat, nat>, k: nat, stop: nat, j: nat)
    requires k <= |events| && StopTime(patterns, start, timeout, waitUntilLoad, events, served, k, stop)
    requires FirstOf(events, k, GateName(waitUntilLoad), j)
    ensures AllServed(patterns, served, k) ==>
              stop == Min(start + timeout, Min(ClockAt(start, events, j + 1) + 500, ClockAt(start, events, k) + 100))
  {
    var name := GateName(waitUntilLoad);
    hide GateName, AllServed, ClockAt;
    if AllServed(patterns, served, k) {
      var n: nat :| FirstOf(events, k, name, n)
        && stop == Min(start + timeout, Min(ClockAt(start, events, n + 1) + 500, ClockAt(start, events, k) + 100));
      FirstIsOne(events, k, name, n, j);
    }
  }

  /** Past the 500 ms only what served a pattern can have kept the loop. */
  lemma LateExit(patterns: seq<string>, start: nat, timeout: nat, waitUntilLoad: bool, events: seq<Arrival>,
                 served: map<nat, nat>, k: nat, j: nat)
    requires 0 < k <= |events| && HandledInTime(patterns, start, timeout, waitUntilLoad, events, served, k - 1)
    requires AllServed(patterns, served, k) && FirstOf(events, k, GateName(waitUntilLoad), j)
    requires ClockAt(start, events, j + 1) + 500 < ClockAt(start, events, k)
    ensures exists i :: i in served && served[i] == k - 1
  {
    var stop: nat :| Means(patterns, start, timeout, waitUntilLoad, events, served, k - 1, stop, true);
    assert j != k - 1;
    assert FirstOf(events, k - 1, GateName(waitUntilLoad), j);
    hide GateName, ClockAt, StopTime, HandledInTime;
    StopBound(patterns, start, timeout, waitUntilLoad, events, served, k - 1, stop, j);
  }

  lemma ClockInTime(patterns: seq<string>, start: nat, timeout: nat, waitUntilLoad: bool, events: seq<Arrival>,
                    served: map<nat, nat>, k: nat)
    requires k <= |events|
    requires k > 0 ==> HandledInTime(patterns, start, timeout, waitUntilLoad, events, served, k - 1)
    ensures ClockAt(start, events, k) <= start + timeout
  {
    if k > 0 {
      var stop: nat :| Means(patterns, start, timeout, waitUntilLoad, events, served, k - 1, stop, true);
      hide AllServed, ClockAt, FirstOf;
    }
  }

  lemma StopsInTime(patterns: seq<string>, start: nat, timeout: nat, waitUntilLoad: bool, events: seq<Arrival>,
                    served: map<nat, nat>, k: nat, at: nat, stop: nat)
    requires k <= |events| && StopTime(patterns, start, timeout, waitUntilLoad, events, served, k, stop)
    requires at == Max(stop, ClockAt(start, events, k)) < start + timeout
    requires k > 0 ==> HandledInTime(patterns, start, timeout, waitUntilLoad, events, served, k - 1)
    ensures EarlyExit(patterns, start, waitUntilLoad, events, served, k, at)
  {
    var j: nat :| FirstOf(events, k, GateName(waitUntilLoad), j);
    assert AllServed(patterns, served, k);
    hide ClockAt, HandledInTime, GateName, AllServed, FirstOf, StopTime;
    StopBound(patterns, start, timeout, waitUntilLoad, events, served, k, stop, j);
    AfterGate(events, k, GateName(waitUntilLoad), j);
    ClockGrows(start, events, j + 1, k);
    if stop < ClockAt(start, events, k) {
      LateExit(patterns, start, timeout, waitUntilLoad, events, served, k, j);
    }
    assert WellTimed(start, events, served, k, at, ClockAt(start, events, j + 1));
  }

  lemma AfterGate(events: seq<Arrival>, k: nat, name: string, j: nat)
    requires k <= |events| && FirstOf(events, k, name, j)
    ensures j < k
  {
  }

  /** Every collection, with any patterns, events and timeout, stops by its deadline, and early
      only as the policy says; or it fails by the deadline. */
  lemma ExitPolicy(patterns: seq<string>, start: nat, timeout: nat, waitUntilLoad: bool, events: seq<Arrival>)
    ensures var e := Run(Config(start + timeout, waitUntilLoad), Start(patterns, start), events, 0);
            && (e.Settled? ==>
                  && e.used <= |events| && e.at <= start + timeout
                  && (e.at < start + timeout ==>
                        EarlyExit(patterns, start, waitUntilLoad, events, e.last.served, e.used, e.at)))
            && (e.UpstreamFailure? ==> e.failedAt <= start + timeout)
  {
    var cfg := Config(start + timeout, waitUntilLoad);
    var e := Run(cfg, Start(patterns, start), events, 0);
    StopsExactly(patterns, start, timeout, waitUntilLoad, events);
    StartIsDischarged(patterns, start, events);
    StartIsClocked(patterns, start, events);
    RunFails(cfg, patterns, start, Start(patterns, start), events, 0);
    hide Run, Start, Clocked, Discharged, FailedOn, HandledInTime, EarlyExit, StopTime, ClockAt, GoesOn;
    if e.Settled? {
      var served := e.last.served;
      var stop: nat :| Means(patterns, start, timeout, waitUntilLoad, events, served, e.used, stop, false)
        && e.at == Max(stop, ClockAt(start, events, e.used));
      ClockInTime(patterns, start, timeout, waitUntilLoad, events, served, e.used);
      StopByDeadline(patterns, start, timeout, waitUntilLoad, events, served, e.used, stop);
      if e.at < start + timeout {
        StopsInTime(patterns, start, timeout, waitUntilLoad, events, served, e.used, e.at, stop);
      }
    }
  }
}
