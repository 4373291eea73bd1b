/** What the local store serves, from the operations of a run alone. */
module JobLives {
  import opened Wrappers
  import opened JobResults
  import opened JobStore

  // ---------------------------------------------------------------- one poll

  /** Polling `id` after the run is answered with `v`. */
  ghost predicate PollIs(cfg: Config, run: seq<Op>, id: Id, v: Option<View>) {
    && Exec(cfg, run).Some? && Exec(cfg, run + [Get(id)]).Some?
    && Exec(cfg, run + [Get(id)]).value.log == Exec(cfg, run).value.log + [Poll(v)]
  }

  lemma PollIsView(cfg: Config, run: seq<Op>, id: Id)
    requires Exec(cfg, run).Some?
    ensures PollIs(cfg, run, id, Viewed(Exec(cfg, run).value.records, Exec(cfg, run).value.now, id))
  {
    assert (run + [Get(id)])[..|run|] == run;
  }

  // ---------------------------------------------------------------- one record

  /** The task stands at `task`, and its record is `r` as long as that has not expired. */
  ghost predicate Alive(s: State, id: Id, r: Record, task: Task) {
    && id in s.tasks && s.tasks[id] == task
    && (id in s.records ==> s.records[id] == r)
    && (s.now < r.expires ==> id in s.records)
  }

  predicate Touches(op: Op, id: Id) { (op.Start? && op.id == id) || (op.Finish? && op.id == id) }

  lemma AliveStays(cfg: Config, s: State, op: Op, id: Id, r: Record, task: Task)
    requires Enabled(cfg, s, op) && Alive(s, id, r, task) && !Evicts(op, id) && !Touches(op, id)
    ensures Alive(Apply(cfg, s, op), id, r, task) && s.now <= Apply(cfg, s, op).now
  {
    hide EvictionFits, ActiveIds;
  }

  lemma AliveStarts(cfg: Config, s: State, id: Id, r: Record)
    requires Enabled(cfg, s, Start(id)) && Alive(s, id, r, Spawned)
    ensures Alive(Apply(cfg, s, Start(id)), id, r.(status := Running), Capturing)
    ensures Apply(cfg, s, Start(id)).now == s.now
  {
  }

  /** The answer a finished capture stands for. */
  function OutcomeAt(c: Captured, age: nat): View {
    match c
    case Good(v) => View(Done, Some(200), Some(v), None, age)
    case Unencodable(e) => View(Error, Some(500), None, Some("serialize: " + e), age)
    case Failed(status, message) => View(Error, Some(status), None, Some(message), age)
  }

  /** The record holds that answer. */
  predicate Holds(r: Record, c: Captured) {
    View(r.status, r.httpStatus, r.data, r.error, 0) == OutcomeAt(c, 0)
  }

  lemma AliveFinishes(cfg: Config, s: State, id: Id, c: Captured, r: Record)
    requires Enabled(cfg, s, Finish(id, c)) && Alive(s, id, r, Capturing) && s.now < r.expires
    requires (r.data, r.error) == (None, None)
    ensures var s' := Apply(cfg, s, Finish(id, c));
            && id in s'.records && Alive(s', id, s'.records[id], Over) && s'.now == s.now
            && Holds(s'.records[id], c)
            && (s'.records[id].created, s'.records[id].expires) == (r.created, s.now + cfg.ttl)
  {
  }

  lemma AliveIsViewed(s: State, id: Id, r: Record, task: Task)
    requires Alive(s, id, r, task) && r.created <= s.now
    ensures Viewed(s.records, s.now, id)
            == if s.now < r.expires then Some(View(r.status, r.httpStatus, r.data, r.error, s.now - r.created))
               else None
  {
  }

  // ---------------------------------------------------------------- a submitted job

  /** The reply was a success. */
  ghost predicate Accepted(cfg: Config, run: seq<Op>, id: Id, evict: Option<Id>) {
    && Exec(cfg, run).Some? && Exec(cfg, run + [Submit(id, evict)]).Some?
    && Exec(cfg, run + [Submit(id, evict)]).value.log == Exec(cfg, run).value.log + [Reply(Ok(id))]
  }

  function Waiting(cfg: Config, t: nat, started: bool): Record {
    Record(if started then Running else Queued, None, None, None, t, t + cfg.ttl)
  }

  lemma SubmitStep(cfg: Config, s: State, id: Id, evict: Option<Id>)
    requires Apply(cfg, s, Submit(id, evict)).log == s.log + [Reply(Ok(id))]
    ensures Alive(Apply(cfg, s, Submit(id, evict)), id, Waiting(cfg, s.now, false), Spawned)
    ensures Apply(cfg, s, Submit(id, evict)).now == s.now
  {
    assert Apply(cfg, s, Submit(id, evict)).log[|s.log|] == Reply(Ok(id));
    hide ActiveIds, Unexpired;
  }

  lemma SubmitIsAlive(cfg: Config, run: seq<Op>, id: Id, evict: Option<Id>)
    requires Accepted(cfg, run, id, evict)
    ensures var (s, s') := (Exec(cfg, run).value, Exec(cfg, run + [Submit(id, evict)]).value);
            Alive(s', id, Waiting(cfg, s.now, false), Spawned) && s'.now == s.now
  {
    LastOne(cfg, run, Submit(id, evict));
    hide Exec, Apply, Alive, Waiting;
    SubmitStep(cfg, Exec(cfg, run).value, id, evict);
  }

  ghost predicate Leaves(more: seq<Op>, id: Id) { forall op | op in more :: !Evicts(op, id) }

  ghost predicate Unfinished(more: seq<Op>, id: Id) { forall op | op in more :: !(op.Finish? && op.id == id) }

  lemma {:induction false} WaitsOn(cfg: Config, run: seq<Op>, id: Id, evict: Option<Id>, more: seq<Op>)
    requires Accepted(cfg, run, id, evict) && Exec(cfg, run + [Submit(id, evict)] + more).Some?
    requires Leaves(more, id) && Unfinished(more, id)
    ensures var (s, s') := (Exec(cfg, run).value, Exec(cfg, run + [Submit(id, evict)] + more).value);
            && s.now <= s'.now
            && Alive(s', id, Waiting(cfg, s.now, Start(id) in more), if Start(id) in more then Capturing else Spawned)
    decreases |more|
  {
    var first := run + [Submit(id, evict)];
    if more == [] {
      assert first + more == first;
      SubmitIsAlive(cfg, run, id, evict);
    } else {
      var n := |more| - 1;
      assert first + more == first + more[..n] + [more[n]] && more == more[..n] + [more[n]];
      LastEnabled(cfg, first + more[..n], more[n]);
      LastOne(cfg, first + more[..n], more[n]);
      hide Exec, Apply, Enabled, Evicts, Alive, Waiting;
      WaitsOn(cfg, run, id, evict, more[..n]);
      WaitsNext(cfg, Exec(cfg, first + more[..n]).value, more[n], id, Exec(cfg, run).value.now, Start(id) in more[..n]);
    }
  }

  lemma WaitsNext(cfg: Config, s: State, op: Op, id: Id, t: nat, started: bool)
    requires Enabled(cfg, s, op) && !Evicts(op, id) && !(op.Finish? && op.id == id)
    requires Alive(s, id, Waiting(cfg, t, started), if started then Capturing else Spawned)
    ensures var (s', now) := (Apply(cfg, s, op), started || op == Start(id));
            s.now <= s'.now && Alive(s', id, Waiting(cfg, t, now), if now then Capturing else Spawned)
  {
    var task := if started then Capturing else Spawned;
    if op == Start(id) {
      assert !started;
      hide Apply, Alive;
      AliveStarts(cfg, s, id, Waiting(cfg, t, false));
    } else {
      hide Apply, Alive, Enabled;
      AliveStays(cfg, s, op, id, Waiting(cfg, t, started), task);
    }
  }

  /** After an accepted submit, in whatever run follows without the job's end or its eviction,
      every poll for a whole TTL is served: as queued until it starts, then as running, with its
      age; and none after. */
  lemma SubmittedIsServed(cfg: Config, run: seq<Op>, id: Id, evict: Option<Id>, more: seq<Op>)
    requires Accepted(cfg, run, id, evict) && Exec(cfg, run + [Submit(id, evict)] + more).Some?
    requires Leaves(more, id) && Unfinished(more, id)
    ensures var all := run + [Submit(id, evict)] + more;
            var (t, now) := (Exec(cfg, run).value.now, Exec(cfg, all).value.now);
            && t <= now
            && PollIs(cfg, all, id,
                      if now < t + cfg.ttl
                      then Some(View(if Start(id) in more then Running else Queued, None, None, None, now - t))
                      else None)
  {
    var all := run + [Submit(id, evict)] + more;
    var started := Start(id) in more;
    var t := Exec(cfg, run).value.now;
    hide Exec, Alive, PollIs, Viewed, Leaves, Unfinished, Accepted;
    WaitsOn(cfg, run, id, evict, more);
    AliveIsViewed(Exec(cfg, all).value, id, Waiting(cfg, t, started), if started then Capturing else Spawned);
    PollIsView(cfg, all, id);
  }

  // ---------------------------------------------------------------- a finished job

  /** The run up to the end of the capture. */
  function Whole(run: seq<Op>, id: Id, evict: Option<Id>, mid: seq<Op>, c: Captured): seq<Op> {
    run + [Submit(id, evict)] + mid + [Finish(id, c)]
  }

  /** The capture ends within a TTL of its submit. */
  ghost predicate EndsInTime(cfg: Config, run: seq<Op>, id: Id, evict: Option<Id>, mid: seq<Op>, c: Captured) {
    && Accepted(cfg, run, id, evict) && Leaves(mid, id) && Unfinished(mid, id)
    && Exec(cfg, run + [Submit(id, evict)] + mid).Some?
    && Exec(cfg, run + [Submit(id, evict)] + mid).value.now < Exec(cfg, run).value.now + cfg.ttl
    && Exec(cfg, Whole(run, id, evict, mid, c)).Some?
  }

  lemma EndIsAlive(cfg: Config, run: seq<Op>, id: Id, evict: Option<Id>, mid: seq<Op>, c: Captured) returns (r: Record)
    requires EndsInTime(cfg, run, id, evict, mid, c)
    ensures var (s, s') := (Exec(cfg, run).value, Exec(cfg, Whole(run, id, evict, mid, c)).value);
            && s.now <= s'.now && Alive(s', id, r, Over) && Holds(r, c)
            && (r.created, r.expires) == (s.now, s'.now + cfg.ttl)
  {
    hide *;
    EndsMeans(cfg, run, id, evict, mid, c);
    WaitsOn(cfg, run, id, evict, mid);
    var s, t := Exec(cfg, run + [Submit(id, evict)] + mid).value, Exec(cfg, run).value.now;
    WaitingFinishes(cfg, s, id, c, t, Start(id) in mid);
    r := Apply(cfg, s, Finish(id, c)).records[id];
  }

  lemma EndsMeans(cfg: Config, run: seq<Op>, id: Id, evict: Option<Id>, mid: seq<Op>, c: Captured)
    requires EndsInTime(cfg, run, id, evict, mid, c)
    ensures Accepted(cfg, run, id, evict) && Leaves(mid, id) && Unfinished(mid, id) && Exec(cfg, run).Some?
    ensures var before := Exec(cfg, run + [Submit(id, evict)] + mid);
            && before.Some? && before.value.now < Exec(cfg, run).value.now + cfg.ttl
            && Enabled(cfg, before.value, Finish(id, c))
            && Exec(cfg, Whole(run, id, evict, mid, c)) == Some(Apply(cfg, before.value, Finish(id, c)))
  {
    var before := run + [Submit(id, evict)] + mid;
    hide Exec, Leaves, Unfinished, Apply, Enabled;
    LastEnabled(cfg, before, Finish(id, c));
    LastOne(cfg, before, Finish(id, c));
  }

  lemma WaitingFinishes(cfg: Config, s: State, id: Id, c: Captured, t: nat, started: bool)
    requires Enabled(cfg, s, Finish(id, c)) && s.now < t + cfg.ttl
    requires Alive(s, id, Waiting(cfg, t, started), if started then Capturing else Spawned)
    ensures var s' := Apply(cfg, s, Finish(id, c));
            && id in s'.records && Alive(s', id, s'.records[id], Over) && s'.now == s.now
            && Holds(s'.records[id], c)
            && (s'.records[id].created, s'.records[id].expires) == (t, s.now + cfg.ttl)
  {
    assert started;
    hide Apply, Alive, Enabled, Holds;
    AliveFinishes(cfg, s, id, c, Waiting(cfg, t, true));
  }

  lemma {:induction false} StaysOver(cfg: Config, first: seq<Op>, id: Id, r: Record, more: seq<Op>)
    requires Exec(cfg, first).Some? && Alive(Exec(cfg, first).value, id, r, Over)
    requires Exec(cfg, first + more).Some? && Leaves(more, id)
    ensures Exec(cfg, first).value.now <= Exec(cfg, first + more).value.now
    ensures Alive(Exec(cfg, first + more).value, id, r, Over)
    decreases |more|
  {
    if more == [] {
      assert first + more == first;
    } else {
      var n := |more| - 1;
      assert first + more == first + more[..n] + [more[n]] && more == more[..n] + [more[n]];
      LastEnabled(cfg, first + more[..n], more[n]);
      LastOne(cfg, first + more[..n], more[n]);
      hide Exec, Apply, Evicts;
      StaysOver(cfg, first, id, r, more[..n]);
      assert !Touches(more[n], id);
      hide Alive, Enabled;
      AliveStays(cfg, Exec(cfg, first + more[..n]).value, more[n], id, r, Over);
    }
  }

  /** A job that ends in time is served its outcome until a whole TTL after that, in whatever run
      follows without its eviction, and not after. */
  lemma FinishedIsServed(cfg: Config, run: seq<Op>, id: Id, evict: Option<Id>, mid: seq<Op>, c: Captured, more: seq<Op>)
    requires EndsInTime(cfg, run, id, evict, mid, c) && Leaves(more, id)
    requires Exec(cfg, Whole(run, id, evict, mid, c) + more).Some?
    ensures var (first, all) := (Whole(run, id, evict, mid, c), Whole(run, id, evict, mid, c) + more);
            var (t, end, now) := (Exec(cfg, run).value.now, Exec(cfg, first).value.now, Exec(cfg, all).value.now);
            && t <= end <= now
            && PollIs(cfg, all, id, if now < end + cfg.ttl then Some(OutcomeAt(c, now - t)) else None)
  {
    var first := Whole(run, id, evict, mid, c);
    hide Exec, PollIs, Leaves, Alive, Viewed, Whole;
    var r := EndIsAlive(cfg, run, id, evict, mid, c);
    hide EndsInTime;
    StaysOver(cfg, first, id, r, more);
    AliveIsViewed(Exec(cfg, first + more).value, id, r, Over);
    PollIsView(cfg, first + more, id);
  }

  // ---------------------------------------------------------------- who is let in, and who goes

  /** The jobs that polls are served. */
  function Shown(s: State): set<Id> { set id | id in s.records && Viewed(s.records, s.now, id).Some? }

  function Ongoing(s: State): set<Id> {
    set id | id in Shown(s) && Viewed(s.records, s.now, id).value.status in {Queued, Running}
  }

  lemma ShownIsLive(s: State)
    ensures Shown(s) == Unexpired(s.records, s.now).Keys
    ensures Ongoing(s) == ActiveIds(Unexpired(s.records, s.now))
    ensures |Shown(s)| == |Unexpired(s.records, s.now)|
  {
    assert Shown(s) == Unexpired(s.records, s.now).Keys;
  }

  lemma AdmitsReply(cfg: Config, s: State, id: Id, evict: Option<Id>)
    ensures Apply(cfg, s, Submit(id, evict)).log
            == s.log + [Reply(if |Ongoing(s)| >= cfg.max then Err(|Ongoing(s)|) else Ok(id))]
    ensures Apply(cfg, s, Submit(id, evict)).now == s.now
  {
    ShownIsLive(s);
    hide ActiveIds, Unexpired, Ongoing, Shown, EvictionFits;
  }

  /** The job to go is done or failed, and none of those is older. */
  ghost predicate GoesFirst(s: State, k: Id) {
    && k in Shown(s) - Ongoing(s)
    && forall j | j in Shown(s) - Ongoing(s) ::
         Viewed(s.records, s.now, j).value.ageMs <= Viewed(s.records, s.now, k).value.ageMs
  }

  lemma AdmitsEvict(cfg: Config, s: State, id: Id, evict: Option<Id>)
    requires Enabled(cfg, s, Submit(id, evict))
    ensures evict.Some? <==> |Ongoing(s)| < cfg.max <= |Shown(s)|
    ensures evict.Some? ==> GoesFirst(s, evict.value)
  {
    ShownIsLive(s);
    if evict.Some? {
      assert OldestCompleted(Unexpired(s.records, s.now), evict.value);
      OldestGoesFirst(s, evict.value);
    }
    hide ActiveIds, Unexpired, Ongoing, Shown, OldestCompleted, GoesFirst;
  }

  lemma OldestGoesFirst(s: State, k: Id)
    requires OldestCompleted(Unexpired(s.records, s.now), k)
    ensures GoesFirst(s, k)
  {
    ShownIsLive(s);
    hide ActiveIds;
  }

  lemma AdmitsOthers(cfg: Config, s: State, id: Id, evict: Option<Id>, j: Id)
    requires j != id && evict != Some(j)
    ensures Viewed(Apply(cfg, s, Submit(id, evict)).records, s.now, j) == Viewed(s.records, s.now, j)
  {
    hide ActiveIds;
  }

  /** A submit is refused exactly when `max` jobs are served as queued or running, with their
      number. One is dropped exactly when `max` are served in all: one of the oldest done or
      failed ones. Every other job is served as before. */
  lemma SubmitAdmits(cfg: Config, run: seq<Op>, id: Id, evict: Option<Id>)
    requires Exec(cfg, run + [Submit(id, evict)]).Some?
    ensures Exec(cfg, run).Some?
    ensures var (s, s') := (Exec(cfg, run).value, Exec(cfg, run + [Submit(id, evict)]).value);
            && s'.log == s.log + [Reply(if |Ongoing(s)| >= cfg.max then Err(|Ongoing(s)|) else Ok(id))]
            && (evict.Some? <==> |Ongoing(s)| < cfg.max <= |Shown(s)|)
            && (evict.Some? ==> GoesFirst(s, evict.value))
            && (forall j | j != id && evict != Some(j) ::
                  Viewed(s'.records, s'.now, j) == Viewed(s.records, s.now, j))
  {
    LastEnabled(cfg, run, Submit(id, evict));
    LastOne(cfg, run, Submit(id, evict));
    var s := Exec(cfg, run).value;
    hide *;
    AdmitsReply(cfg, s, id, evict);
    AdmitsEvict(cfg, s, id, evict);
    forall j | j != id && evict != Some(j)
      ensures Viewed(Apply(cfg, s, Submit(id, evict)).records, s.now, j) == Viewed(s.records, s.now, j)
    {
      AdmitsOthers(cfg, s, id, evict, j);
    }
  }

  /** A sweep changes no poll, and leaves nothing that none is served. */
  lemma SweepLeavesShown(cfg: Config, run: seq<Op>)
    requires Exec(cfg, run).Some?
    ensures Exec(cfg, run + [Sweep]).Some?
    ensures var (s, s') := (Exec(cfg, run).value, Exec(cfg, run + [Sweep]).value);
            s'.records.Keys == Shown(s) && forall id :: Viewed(s'.records, s'.now, id) == Viewed(s.records, s.now, id)
  {
    assert (run + [Sweep])[..|run|] == run;
    ShownIsLive(Exec(cfg, run).value);
    hide Exec;
  }

  // ---------------------------------------------------------------- which jobs run

  /** The run's operation `k` submitted the job and was answered with its id. */
  predicate AcceptedAt(run: seq<Op>, log: seq<Seen>, id: Id, k: nat) {
    k < |run| && k < |log| && run[k].Submit? && run[k].id == id && log[k] == Reply(Ok(id))
  }

  ghost predicate WasAccepted(run: seq<Op>, log: seq<Seen>, id: Id) { exists k: nat :: AcceptedAt(run, log, id, k) }

  ghost predicate WasFinished(run: seq<Op>, id: Id) { exists c :: Finish(id, c) in run }

  /** The task of a job stands where the run's operations put it. */
  ghost predicate TaskFits(run: seq<Op>, log: seq<Seen>, tasks: map<Id, Task>, id: Id) {
    && (id in tasks <==> WasAccepted(run, log, id))
    && (Start(id) in run <==> id in tasks && tasks[id] != Spawned)
    && (WasFinished(run, id) <==> id in tasks && tasks[id] == Over)
  }

  lemma AcceptedLonger(run: seq<Op>, log: seq<Seen>, op: Op, seen: Seen, id: Id)
    requires |run| == |log|
    ensures WasAccepted(run + [op], log + [seen], id)
            <==> WasAccepted(run, log, id) || (op.Submit? && op.id == id && seen == Reply(Ok(id)))
  {
    if WasAccepted(run, log, id) {
      var k: nat :| AcceptedAt(run, log, id, k);
      assert AcceptedAt(run + [op], log + [seen], id, k);
    }
    if op.Submit? && op.id == id && seen == Reply(Ok(id)) {
      assert AcceptedAt(run + [op], log + [seen], id, |run|);
    }
    if WasAccepted(run + [op], log + [seen], id) {
      var k: nat :| AcceptedAt(run + [op], log + [seen], id, k);
      assert k < |run| ==> AcceptedAt(run, log, id, k);
    }
  }

  lemma FinishedLonger(run: seq<Op>, op: Op, id: Id)
    ensures WasFinished(run + [op], id) <==> WasFinished(run, id) || (op.Finish? && op.id == id)
  {
    if op.Finish? && op.id == id {
      assert Finish(id, op.captured) in run + [op];
    }
    if WasFinished(run, id) {
      var c :| Finish(id, c) in run;
      assert Finish(id, c) in run + [op];
    }
  }

  lemma TaskStaysFit(cfg: Config, s: State, run: seq<Op>, op: Op, id: Id)
    requires Enabled(cfg, s, op) && |s.log| == |run| && TaskFits(run, s.log, s.tasks, id)
    ensures var s' := Apply(cfg, s, op); |s'.log| == |run| + 1 && TaskFits(run + [op], s'.log, s'.tasks, id)
  {
    var s' := Apply(cfg, s, op);
    hide Unexpired, ActiveIds, EvictionFits, Viewed, Started, Finished, WasAccepted, WasFinished;
    AcceptedLonger(run, s.log, op, s'.log[|run|], id);
    FinishedLonger(run, op, id);
    assert s'.log == s.log + [s'.log[|run|]];
  }

  /** Every operation is answered, and the jobs that run are those that were let in: a job runs
      from its start, which no refused one has, to its end. */
  lemma {:induction false} OnlyAcceptedRun(cfg: Config, run: seq<Op>, id: Id)
    requires Exec(cfg, run).Some?
    ensures var s := Exec(cfg, run).value; |s.log| == |run| && TaskFits(run, s.log, s.tasks, id)
  {
    if run != [] {
      var before, op := run[..|run| - 1], run[|run| - 1];
      assert run == before + [op];
      LastEnabled(cfg, before, op);
      LastOne(cfg, before, op);
      hide Exec, Apply, TaskFits, Enabled;
      OnlyAcceptedRun(cfg, before, id);
      TaskStaysFit(cfg, Exec(cfg, before).value, before, op, id);
    }
  }
}
