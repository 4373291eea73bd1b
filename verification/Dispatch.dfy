/** The worker's read loop and its permits.

    The loop reserves one permit, asks Redis for as many entries as permits are free and
    hands one permit to each spawned job; jobs end at any time and give theirs back. */
module Dispatch {
  import opened Wrappers

  datatype Phase =
    | Idle
    | Reserved
    | Reading(want: nat)
    | Spawning(left: nat, held: bool)
    | Reclaiming(want: nat)
    | Draining
    | Drained
    | TimedOut

  datatype State = State(capacity: nat, free: nat, running: nat, phase: Phase)

  datatype Step =
    | Reserve
    | CountFree
    | ReadEntries(n: nat)
    | ReadFails
    | ReclaimEntries(n: nat)
    | Spawn
    | JobEnds
    | Shutdown
    | AcquireAll
    | DrainTimeout

  /** `pages` is the pool's capacity; the worker never runs with less than one permit. */
  function Init(pages: nat): State {
    var capacity := Max(pages, 1);
    State(capacity, capacity, 0, Idle)
  }

  predicate Enabled(s: State, step: Step) {
    match step
    case Reserve => s.phase == Idle && s.free > 0
    case CountFree => s.phase == Reserved
    case ReadEntries(n) => s.phase.Reading? && n <= s.phase.want
    case ReadFails => s.phase.Reading?
    case ReclaimEntries(n) => s.phase.Reclaiming? && n <= s.phase.want
    case Spawn => s.phase.Spawning? && s.phase.left > 0 && (s.phase.held || s.free > 0)
    case JobEnds => s.running > 0
    case Shutdown => s.phase == Idle || s.phase.Reading?
    case AcquireAll => s.phase == Draining && s.free >= s.capacity
    case DrainTimeout => s.phase == Draining
  }

  function Spawned(left: nat): Phase { if left == 0 then Idle else Spawning(left, false) }

  function Apply(s: State, step: Step): State
    requires Enabled(s, step)
  {
    match step
    case Reserve => s.(free := s.free - 1, phase := Reserved)
    case CountFree => s.(phase := Reading(1 + s.free))
    case ReadEntries(n) =>
      if n == 0 then s.(free := s.free + 1, phase := Reclaiming(s.phase.want)) else s.(phase := Spawning(n, true))
    case ReadFails => s.(free := s.free + 1, phase := Idle)
    case ReclaimEntries(n) => s.(phase := Spawned(n))
    case Spawn =>
      s.(free := if s.phase.held then s.free else s.free - 1,
         running := s.running + 1,
         phase := Spawned(s.phase.left - 1))
    case JobEnds => s.(running := s.running - 1, free := s.free + 1)
    case Shutdown => s.(free := if s.phase.Reading? then s.free + 1 else s.free, phase := Draining)
    case AcquireAll => s.(free := s.free - s.capacity, phase := Drained)
    case DrainTimeout => s.(phase := TimedOut)
  }

  function Exec(pages: nat, run: seq<Step>): Option<State> {
    if run == [] then Some(Init(pages)) else
      var before := Exec(pages, run[..|run| - 1]);
      if before.Some? && Enabled(before.value, run[|run| - 1]) then Some(Apply(before.value, run[|run| - 1])) else None
  }

  /** Permits in the loop's own hands. */
  function Reservation(s: State): nat {
    match s.phase
    case Reserved => 1
    case Reading(_) => 1
    case Spawning(_, held) => if held then 1 else 0
    case Drained => s.capacity
    case _ => 0
  }

  /** Entries the loop may still have to hand a permit to. */
  function Owed(s: State): nat {
    match s.phase
    case Reading(want) => want
    case Reclaiming(want) => want
    case Spawning(left, _) => left
    case _ => 0
  }

  /** Every permit is free, held by the loop or held by a job; every entry the loop has
      fetched, or may be about to, has a permit waiting; a drained worker runs nothing. */
  ghost predicate Accounted(s: State) {
    && s.capacity >= 1
    && s.running + s.free + Reservation(s) == s.capacity
    && Owed(s) <= s.free + Reservation(s)
    && (s.phase.Spawning? ==> s.phase.left > 0)
  }

  lemma StepKeepsPermits(s: State, step: Step)
    requires Accounted(s) && Enabled(s, step)
    ensures Accounted(Apply(s, step))
  {
    match step {
      case Spawn =>
      case ReadEntries(n) =>
      case ReclaimEntries(n) =>
      case _ =>
    }
  }

  lemma {:induction false} PermitsAccounted(pages: nat, run: seq<Step>)
    requires Exec(pages, run).Some?
    ensures Accounted(Exec(pages, run).value)
  {
    if run != [] {
      PermitsAccounted(pages, run[..|run| - 1]);
      StepKeepsPermits(Exec(pages, run[..|run| - 1]).value, run[|run| - 1]);
    }
  }

  /** Spawning never waits for a permit, at most `capacity` jobs run, an idle loop can go on
      exactly while fewer do, and the shutdown acquire succeeds exactly when nothing runs. */
  lemma DispatchNeverBlocks(pages: nat, run: seq<Step>)
    requires Exec(pages, run).Some?
    ensures var s := Exec(pages, run).value;
            && (s.phase.Spawning? ==> Enabled(s, Spawn))
            && s.running <= s.capacity == Max(pages, 1)
            && (s.phase == Idle ==> (Enabled(s, Reserve) <==> s.running < s.capacity))
            && (s.phase == Draining ==> (Enabled(s, AcquireAll) <==> s.running == 0))
            && (s.phase == Drained ==> s.running == 0)
    decreases |run|
  {
    PermitsAccounted(pages, run);
    if run != [] {
      DispatchNeverBlocks(pages, run[..|run| - 1]);
    }
  }

  // ---------------------------------------------------------------- what is fetched is run

  /** Entries fetched by the reads and reclaims of a run. */
  function Fetched(run: seq<Step>): nat {
    if run == [] then 0 else
      Fetched(run[..|run| - 1])
      + match run[|run| - 1] case ReadEntries(n) => n case ReclaimEntries(n) => n case _ => 0
  }

  function Times(run: seq<Step>, step: Step): nat {
    if run == [] then 0 else Times(run[..|run| - 1], step) + if run[|run| - 1] == step then 1 else 0
  }

  function Left(s: State): nat { if s.phase.Spawning? then s.phase.left else 0 }

  /** Every entry fetched is handed to a job or about to be, each once; the jobs that run are
      those started and not ended, and no batch is left while the loop is elsewhere. */
  lemma {:induction false} FetchedAreSpawned(pages: nat, run: seq<Step>)
    requires Exec(pages, run).Some?
    ensures var s := Exec(pages, run).value;
            && Fetched(run) == Times(run, Spawn) + Left(s)
            && Times(run, Spawn) == s.running + Times(run, JobEnds)
  {
    if run != [] {
      FetchedAreSpawned(pages, run[..|run| - 1]);
      PermitsAccounted(pages, run[..|run| - 1]);
    }
  }

  function Asked(s: State): Option<nat> {
    match s.phase
    case Reading(want) => Some(want)
    case Reclaiming(want) => Some(want)
    case _ => None
  }

  /** The permits were last counted before step `k`, and `want` is all that no job held then. */
  ghost predicate CountedAt(pages: nat, run: seq<Step>, want: nat, k: nat) {
    && k < |run| && run[k] == CountFree && CountFree !in run[k + 1..]
    && Exec(pages, run[..k]).Some? && want == Max(pages, 1) - Exec(pages, run[..k]).value.running
  }

  lemma CountedLonger(pages: nat, run: seq<Step>, step: Step, want: nat, k: nat)
    requires CountedAt(pages, run, want, k) && step != CountFree
    ensures CountedAt(pages, run + [step], want, k)
  {
    assert (run + [step])[..k] == run[..k] && (run + [step])[k + 1..] == run[k + 1..] + [step];
  }

  /** A read or a reclaim asks for exactly as many entries as jobs did not hold a permit for
      when the loop counted, at least one. */
  lemma {:induction false} AsksForAllFree(pages: nat, run: seq<Step>)
    requires Exec(pages, run).Some? && Asked(Exec(pages, run).value).Some?
    ensures var want := Asked(Exec(pages, run).value).value;
            want >= 1 && exists k: nat :: CountedAt(pages, run, want, k)
  {
    var last := |run| - 1;
    var before, step := run[..last], run[last];
    var s := Exec(pages, before).value;
    PermitsAccounted(pages, before);
    DispatchNeverBlocks(pages, before);
    assert run == before + [step];
    if step == CountFree {
      assert CountedAt(pages, run, Asked(Apply(s, step)).value, last);
    } else {
      AsksForAllFree(pages, before);
      var k: nat :| CountedAt(pages, before, Asked(s).value, k);
      CountedLonger(pages, before, step, Asked(s).value, k);
    }
  }

  // ---------------------------------------------------------------- shutting down

  predicate ShutDown(s: State) { s.phase == Draining || s.phase == Drained || s.phase == TimedOut }

  /** The loop is left by a shutdown and by nothing else, for good. It is noticed while the loop
      waits for a permit or for a read, never with a batch in hand; only a drain times out. */
  lemma {:induction false} LeftByShutdown(pages: nat, run: seq<Step>)
    requires Exec(pages, run).Some?
    ensures var s := Exec(pages, run).value;
            && (ShutDown(s) <==> Shutdown in run)
            && (Enabled(s, Shutdown)
                <==> Shutdown !in run && Left(s) == 0 && !s.phase.Reclaiming? && s.phase != Reserved)
            && (Enabled(s, DrainTimeout)
                <==> Shutdown in run && AcquireAll !in run && DrainTimeout !in run)
            && (s.phase == Drained <==> AcquireAll in run)
            && (s.phase == TimedOut <==> DrainTimeout in run)
            && (ShutDown(s) ==> Left(s) == 0 && Asked(s).None?)
  {
    if run != [] {
      var before, step := run[..|run| - 1], run[|run| - 1];
      LeftByShutdown(pages, before);
      PermitsAccounted(pages, run);
      InOneMore(run, Shutdown);
      InOneMore(run, AcquireAll);
      InOneMore(run, DrainTimeout);
    }
  }

  lemma InOneMore(run: seq<Step>, step: Step)
    requires run != []
    ensures step in run <==> step in run[..|run| - 1] || step == run[|run| - 1]
  {
    assert run == run[..|run| - 1] + [run[|run| - 1]];
  }

  // ---------------------------------------------------------------- batches and the drain

  function Repeat(step: Step, n: nat): seq<Step> { seq(n, _ => step) }

  lemma ExecOne(run: seq<Step>, step: Step, n: nat)
    requires n > 0
    ensures (run + [step])[..|run|] == run
    ensures run + Repeat(step, n) == run + [step] + Repeat(step, n - 1)
  {
  }

  /** The run ends with `n` jobs more than in `s` and the loop idle again. */
  ghost predicate AllStarted(pages: nat, run: seq<Step>, s: State, n: nat) {
    match Exec(pages, run)
    case None => false
    case Some(t) => t.phase == Idle && t.running == s.running + n && t.free + t.running == t.capacity == s.capacity
  }

  lemma {:induction false} SpawnAll(pages: nat, run: seq<Step>, n: nat)
    requires Exec(pages, run).Some? && Left(Exec(pages, run).value) == n > 0
    ensures AllStarted(pages, run + Repeat(Spawn, n), Exec(pages, run).value, n)
    decreases n
  {
    PermitsAccounted(pages, run);
    ExecOne(run, Spawn, n);
    PermitsAccounted(pages, run + [Spawn]);
    if n > 1 {
      SpawnAll(pages, run + [Spawn], n - 1);
    } else {
      assert run + [Spawn] + Repeat(Spawn, 0) == run + [Spawn];
    }
  }

  lemma FetchThenSpawnAll(pages: nat, run: seq<Step>, fetch: Step, n: nat)
    requires Exec(pages, run).Some? && Enabled(Exec(pages, run).value, fetch) && n > 0
    requires fetch == ReadEntries(n) || fetch == ReclaimEntries(n)
    ensures AllStarted(pages, run + [fetch] + Repeat(Spawn, n), Exec(pages, run).value, n)
  {
    var next := run + [fetch];
    assert next[..|run|] == run;
    assert Exec(pages, next) == Some(Apply(Exec(pages, run).value, fetch));
    hide Exec;
    SpawnAll(pages, next, n);
  }

  /** Whatever a read answers, up to all it asked for, is started without one job ending; so
      is what a reclaim answers after an empty read. */
  lemma EveryBatchStarts(pages: nat, run: seq<Step>, n: nat)
    requires Exec(pages, run).Some? && Exec(pages, run).value.phase.Reading?
    requires 0 < n <= Exec(pages, run).value.phase.want
    ensures AllStarted(pages, run + [ReadEntries(n)] + Repeat(Spawn, n), Exec(pages, run).value, n)
    ensures AllStarted(pages, run + [ReadEntries(0)] + [ReclaimEntries(n)] + Repeat(Spawn, n),
                       Exec(pages, run).value, n)
  {
    var empty := run + [ReadEntries(0)];
    assert empty[..|run|] == run;
    assert Exec(pages, empty) == Some(Apply(Exec(pages, run).value, ReadEntries(0)));
    hide Exec, AllStarted;
    FetchThenSpawnAll(pages, run, ReadEntries(n), n);
    FetchThenSpawnAll(pages, empty, ReclaimEntries(n), n);
    assert AllStarted(pages, empty + [ReclaimEntries(n)] + Repeat(Spawn, n), Exec(pages, empty).value, n);
    SameStarted(pages, empty + [ReclaimEntries(n)] + Repeat(Spawn, n), Exec(pages, empty).value,
                Exec(pages, run).value, n);
  }

  lemma SameStarted(pages: nat, run: seq<Step>, s: State, t: State, n: nat)
    requires AllStarted(pages, run, s, n) && s.running == t.running && s.capacity == t.capacity
    ensures AllStarted(pages, run, t, n)
  {
    hide Exec;
  }

  /** Once draining, the worker is drained as soon as the jobs that run have ended. */
  lemma {:induction false} DrainEnds(pages: nat, run: seq<Step>)
    requires Exec(pages, run).Some? && Exec(pages, run).value.phase == Draining
    ensures var s := Exec(pages, run).value;
            Exec(pages, run + Repeat(JobEnds, s.running) + [AcquireAll]) == Some(State(s.capacity, 0, 0, Drained))
    decreases Exec(pages, run).value.running
  {
    var s := Exec(pages, run).value;
    PermitsAccounted(pages, run);
    if s.running == 0 {
      assert run + Repeat(JobEnds, 0) == run;
      assert (run + [AcquireAll])[..|run|] == run;
    } else {
      ExecOne(run, JobEnds, s.running);
      DrainEnds(pages, run + [JobEnds]);
    }
  }
}
