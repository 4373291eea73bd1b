/** The local job store: a capped map with expiry, eviction of the oldest completed
    record and a status lifecycle. Each lock-held section is one step with one clock
    reading. */
module JobStore {
  import opened Wrappers
  import opened Sets
  import opened JobResults

  type Id = string

  datatype Record = Record(status: JobStatus, httpStatus: Option<nat>, data: Option<string>, error: Option<string>,
                           created: nat, expires: nat)

  datatype View = View(status: JobStatus, httpStatus: Option<nat>, data: Option<string>, error: Option<string>,
                       ageMs: nat)

  type Records = map<Id, Record>

  datatype Config = Config(max: nat, ttl: nat) {
    predicate Valid() { max >= 1 && ttl >= 1 }
  }

  // ---------------------------------------------------------------- what each locked section does

  function Unexpired(m: Records, now: nat): Records {
    map k | k in m && m[k].expires > now :: m[k]
  }

  predicate IsActive(r: Record) { r.status == Queued || r.status == Running }

  function ActiveIds(m: Records): set<Id> {
    set k | k in m && IsActive(m[k])
  }

  predicate OldestCompleted(m: Records, k: Id) {
    && k in m && !IsActive(m[k])
    && forall j | j in m && !IsActive(m[j]) :: m[k].created <= m[j].created
  }

  function NewRecord(cfg: Config, now: nat): Record { Record(Queued, None, None, None, now, now + cfg.ttl) }

  /** `evict` names the record dropped to make room; equal ages leave a choice. */
  predicate EvictionFits(cfg: Config, live: Records, evict: Option<Id>) {
    if |ActiveIds(live)| >= cfg.max || |live| < cfg.max then evict == None
    else evict.Some? && OldestCompleted(live, evict.value)
  }

  function Submitted(cfg: Config, m: Records, now: nat, id: Id, evict: Option<Id>): (Records, Result<Id, nat>) {
    var live := Unexpired(m, now);
    if |ActiveIds(live)| >= cfg.max then (live, Err(|ActiveIds(live)|))
    else ((if evict.Some? then live - {evict.value} else live)[id := NewRecord(cfg, now)], Ok(id))
  }

  function Started(m: Records, id: Id): Records {
    if id in m then m[id := m[id].(status := Running)] else m
  }

  function Completed(cfg: Config, r: Record, now: nat, c: Captured): Record {
    var r' := r.(expires := now + cfg.ttl);
    match c
    case Good(v) => r'.(status := Done, httpStatus := Some(200), data := Some(v))
    case Unencodable(e) => r'.(status := Error, httpStatus := Some(500), error := Some("serialize: " + e))
    case Failed(status, message) => r'.(status := Error, httpStatus := Some(status), error := Some(message))
  }

  function Finished(cfg: Config, m: Records, now: nat, id: Id, c: Captured): Records {
    if id in m then m[id := Completed(cfg, m[id], now, c)] else m
  }

  function Viewed(m: Records, now: nat, id: Id): Option<View> {
    if id in m && m[id].expires > now then
      Some(View(m[id].status, m[id].httpStatus, m[id].data, m[id].error, Max(now - m[id].created, 0)))
    else None
  }

  // ---------------------------------------------------------------- the store

  class Store {
    const cfg: Config
    var records: Records

    ghost predicate Valid() reads this { cfg.Valid() && |records| <= cfg.max }

    constructor (cfg: Config)
      requires cfg.Valid()
      ensures Valid() && this.cfg == cfg && records == map[]
    {
      this.cfg := cfg;
      records := map[];
    }

    method Submit(id: Id, now: nat) returns (r: Result<Id, nat>, ghost evict: Option<Id>)
      requires Valid()
      modifies this
      ensures Valid()
      ensures EvictionFits(cfg, Unexpired(old(records), now), evict)
      ensures (records, r) == Submitted(cfg, old(records), now, id, evict)
    {
      records := Unexpired(records, now);
      FilterShrinks(old(records), now);
      evict := None;
      var active := |ActiveIds(records)|;
      if active >= cfg.max {
        return Err(active), None;
      }
      ghost var live := records;
      while |records| >= cfg.max
        invariant |records| <= cfg.max && ActiveIds(records) == ActiveIds(live)
        invariant evict == None ==> records == live
        invariant evict.Some? ==>
          OldestCompleted(live, evict.value) && records == live - {evict.value} && |live| == cfg.max
            && |records| < cfg.max
        decreases |records|
      {
        CompletedExists(records, cfg.max);
        var done := set k | k in records && !IsActive(records[k]);
        assert done != {} by {
          var k :| k in records && !IsActive(records[k]);
          assert k in done;
        }
        if done == {} {
          break;
        }
        OldestExists(records, done);
        var oldest :| oldest in done && OldestCompleted(records, oldest);
        evict := Some(oldest);
        RemoveOne(records, oldest);
        records := records - {oldest};
      }
      InsertGrows(records, id, NewRecord(cfg, now));
      records := records[id := NewRecord(cfg, now)];
      r := Ok(id);
    }

    method Start(id: Id)
      requires Valid()
      modifies this
      ensures Valid() && records == Started(old(records), id)
    {
      if id in records {
        ReplaceKeepsSize(records, id, records[id].(status := Running));
        records := records[id := records[id].(status := Running)];
      }
    }

    method Finish(id: Id, now: nat, c: Captured)
      requires Valid()
      modifies this
      ensures Valid() && records == Finished(cfg, old(records), now, id, c)
    {
      if id !in records {
        return;
      }
      var rec := records[id].(expires := now + cfg.ttl);
      match c {
        case Good(v) =>
          rec := rec.(status := Done, httpStatus := Some(200), data := Some(v));
        case Unencodable(e) =>
          rec := rec.(status := Error, httpStatus := Some(500), error := Some("serialize: " + e));
        case Failed(status, message) =>
          rec := rec.(status := Error, httpStatus := Some(status), error := Some(message));
      }
      ReplaceKeepsSize(records, id, rec);
      records := records[id := rec];
    }

    method Get(id: Id, now: nat) returns (v: Option<View>)
      ensures v == Viewed(records, now, id)
    {
      if id !in records {
        return None;
      }
      var rec := records[id];
      if rec.expires <= now {
        return None;
      }
      v := Some(View(rec.status, rec.httpStatus, rec.data, rec.error, Max(now - rec.created, 0)));
    }

    method PurgeExpired(now: nat)
      requires Valid()
      modifies this
      ensures Valid() && records == Unexpired(old(records), now)
    {
      FilterShrinks(records, now);
      records := Unexpired(records, now);
    }
  }

  // ---------------------------------------------------------------- sizes

  lemma FilterShrinks(m: Records, now: nat)
    ensures |Unexpired(m, now)| <= |m|
  {
    assert Unexpired(m, now).Keys <= m.Keys;
    SubsetSize(Unexpired(m, now).Keys, m.Keys);
  }

  lemma RemoveOne(m: Records, k: Id)
    requires k in m
    ensures |m - {k}| == |m| - 1
    ensures !IsActive(m[k]) ==> ActiveIds(m - {k}) == ActiveIds(m)
  {
    assert (m - {k}).Keys == m.Keys - {k};
  }

  lemma InsertGrows(m: Records, k: Id, r: Record)
    ensures |m[k := r]| <= |m| + 1
  {
    assert m[k := r].Keys == m.Keys + {k};
  }

  lemma ReplaceKeepsSize(m: Records, k: Id, r: Record)
    requires k in m
    ensures |m[k := r]| == |m|
  {
    assert m[k := r].Keys == m.Keys;
  }

  /** With fewer than `max` active records a full map holds a completed one. */
  lemma CompletedExists(m: Records, max: nat)
    requires |m| >= max && |ActiveIds(m)| < max
    ensures exists k :: k in m && !IsActive(m[k])
  {
    assert ActiveIds(m) <= m.Keys && ActiveIds(m) != m.Keys;
    var k :| k in m.Keys && k !in ActiveIds(m);
  }

  lemma {:induction false} OldestExists(m: Records, done: set<Id>)
    requires done != {} && forall k | k in done :: k in m
    ensures exists k :: k in done && forall j | j in done :: m[k].created <= m[j].created
    decreases |done|
  {
    var d :| d in done;
    if done - {d} == {} {
      assert done == {d};
    } else {
      OldestExists(m, done - {d});
      var k :| k in done - {d} && forall j | j in done - {d} :: m[k].created <= m[j].created;
      var best := if m[d].created < m[k].created then d else k;
      assert best in done && forall j | j in done :: m[best].created <= m[j].created;
    }
  }

  // ---------------------------------------------------------------- runs

  /** The detached task of a submitted job. */
  datatype Task = Spawned | Capturing | Over

  datatype Op =
    | Submit(id: Id, evict: Option<Id>)
    | Start(id: Id)
    | Finish(id: Id, captured: Captured)
    | Get(id: Id)
    | Sweep
    | Tick(d: nat)

  /** What a caller sees of one operation. */
  datatype Seen = Reply(r: Result<Id, nat>) | Poll(v: Option<View>) | Nothing

  datatype State = State(records: Records, tasks: map<Id, Task>, now: nat, log: seq<Seen>)

  const INIT := State(map[], map[], 0, [])

  /** Ids are fresh; a task starts once and finishes once. */
  predicate Enabled(cfg: Config, s: State, op: Op) {
    match op
    case Submit(id, evict) => id !in s.tasks && EvictionFits(cfg, Unexpired(s.records, s.now), evict)
    case Start(id) => id in s.tasks && s.tasks[id] == Spawned
    case Finish(id, _) => id in s.tasks && s.tasks[id] == Capturing
    case _ => true
  }

  function Apply(cfg: Config, s: State, op: Op): State {
    match op
    case Submit(id, evict) =>
      var (m, r) := Submitted(cfg, s.records, s.now, id, evict);
      s.(records := m, tasks := if r.Ok? then s.tasks[id := Spawned] else s.tasks, log := s.log + [Reply(r)])
    case Start(id) => s.(records := Started(s.records, id), tasks := s.tasks[id := Capturing], log := s.log + [Nothing])
    case Finish(id, c) =>
      s.(records := Finished(cfg, s.records, s.now, id, c), tasks := s.tasks[id := Over], log := s.log + [Nothing])
    case Get(id) => s.(log := s.log + [Poll(Viewed(s.records, s.now, id))])
    case Sweep => s.(records := Unexpired(s.records, s.now), log := s.log + [Nothing])
    case Tick(d) => s.(now := s.now + d, log := s.log + [Nothing])
  }

  function Exec(cfg: Config, run: seq<Op>): Option<State> {
    if run == [] then Some(INIT) else
      var before := Exec(cfg, run[..|run| - 1]);
      if before.Some? && Enabled(cfg, before.value, run[|run| - 1])
      then Some(Apply(cfg, before.value, run[|run| - 1])) else None
  }

  // ---------------------------------------------------------------- caps and lifecycle

  predicate Shaped(r: Record) {
    match r.status
    case Queued => (r.httpStatus, r.data, r.error) == (None, None, None)
    case Running => (r.httpStatus, r.data, r.error) == (None, None, None)
    case Done => r.httpStatus == Some(200) && r.data.Some? && r.error.None?
    case Error => r.httpStatus.Some? && r.data.None? && r.error.Some?
  }

  predicate Matches(r: Record, t: Task) {
    match t
    case Spawned => r.status == Queued
    case Capturing => r.status == Running
    case Over => r.status == Done || r.status == Error
  }

  ghost predicate Sound(cfg: Config, s: State) {
    && |s.records| <= cfg.max
    && |ActiveIds(s.records)| <= cfg.max
    && forall k | k in s.records :: k in s.tasks && Shaped(s.records[k]) && Matches(s.records[k], s.tasks[k])
  }

  predicate Follows(before: JobStatus, after: JobStatus) {
    before == after || (before == Queued && after == Running)
      || (before == Running && (after == Done || after == Error))
  }

  lemma SubmitFits(cfg: Config, m: Records, now: nat, id: Id, evict: Option<Id>)
    requires cfg.Valid() && |m| <= cfg.max && EvictionFits(cfg, Unexpired(m, now), evict)
    ensures |Submitted(cfg, m, now, id, evict).0| <= cfg.max
  {
    var live := Unexpired(m, now);
    FilterShrinks(m, now);
    if |ActiveIds(live)| < cfg.max {
      if evict.Some? {
        RemoveOne(live, evict.value);
        InsertGrows(live - {evict.value}, id, NewRecord(cfg, now));
      } else {
        InsertGrows(live, id, NewRecord(cfg, now));
      }
    }
  }

  lemma StepKeepsSize(cfg: Config, s: State, op: Op)
    requires cfg.Valid() && |s.records| <= cfg.max && Enabled(cfg, s, op)
    ensures |Apply(cfg, s, op).records| <= cfg.max && |ActiveIds(Apply(cfg, s, op).records)| <= cfg.max
  {
    var s' := Apply(cfg, s, op);
    match op {
      case Submit(id, evict) => SubmitFits(cfg, s.records, s.now, id, evict);
      case Start(id) => if id in s.records { ReplaceKeepsSize(s.records, id, s'.records[id]); }
      case Finish(id, c) => if id in s.records { ReplaceKeepsSize(s.records, id, s'.records[id]); }
      case _ => FilterShrinks(s.records, s.now);
    }
    hide Apply, Submitted, Started, Finished;
    assert ActiveIds(s'.records) <= s'.records.Keys;
    SubsetSize(ActiveIds(s'.records), s'.records.Keys);
  }

  /** A record that an operation leaves, and what became of it. */
  lemma StepKeepsRecord(cfg: Config, s: State, op: Op, k: Id)
    requires Enabled(cfg, s, op)
    requires k in s.records ==> k in s.tasks && Shaped(s.records[k]) && Matches(s.records[k], s.tasks[k])
    ensures var s' := Apply(cfg, s, op);
            k in s'.records ==>
              && k in s'.tasks && Shaped(s'.records[k]) && Matches(s'.records[k], s'.tasks[k])
              && (k in s.records ==> Follows(s.records[k].status, s'.records[k].status))
  {
    hide EvictionFits;
  }

  lemma StepKeepsSound(cfg: Config, s: State, op: Op)
    requires cfg.Valid() && Sound(cfg, s) && Enabled(cfg, s, op)
    ensures Sound(cfg, Apply(cfg, s, op))
    ensures forall k | k in s.records && k in Apply(cfg, s, op).records ::
              Follows(s.records[k].status, Apply(cfg, s, op).records[k].status)
  {
    StepKeepsSize(cfg, s, op);
    var s' := Apply(cfg, s, op);
    forall k | k in s'.records
      ensures k in s'.tasks && Shaped(s'.records[k]) && Matches(s'.records[k], s'.tasks[k])
      ensures k in s.records ==> Follows(s.records[k].status, s'.records[k].status)
    {
      StepKeepsRecord(cfg, s, op, k);
    }
    hide Apply, Enabled, Shaped, Matches, Follows, ActiveIds;
  }

  /** In every run the map and its active part stay within `max`, and a record's status
      and fields fit how far its task has come. */
  lemma {:induction false} EveryRunIsSound(cfg: Config, run: seq<Op>)
    requires cfg.Valid() && Exec(cfg, run).Some?
    ensures Sound(cfg, Exec(cfg, run).value)
  {
    if run != [] {
      EveryRunIsSound(cfg, run[..|run| - 1]);
      StepKeepsSound(cfg, Exec(cfg, run[..|run| - 1]).value, run[|run| - 1]);
    }
  }

  /** From one operation to the next a status only moves forward. */
  lemma StatusMovesForward(cfg: Config, run: seq<Op>, op: Op)
    requires cfg.Valid() && Exec(cfg, run + [op]).Some?
    ensures Exec(cfg, run).Some?
    ensures var (s, s') := (Exec(cfg, run).value, Exec(cfg, run + [op]).value);
            forall k | k in s.records && k in s'.records :: Follows(s.records[k].status, s'.records[k].status)
  {
    assert (run + [op])[..|run|] == run;
    EveryRunIsSound(cfg, run);
    StepKeepsSound(cfg, Exec(cfg, run).value, op);
  }

  // ---------------------------------------------------------------- lazy against eager expiry

  /** The store that drops every record at the instant it expires. */
  function EagerExec(cfg: Config, run: seq<Op>): Option<State> {
    if run == [] then Some(INIT) else
      var before := EagerExec(cfg, run[..|run| - 1]);
      if before.Some? && Enabled(cfg, before.value, run[|run| - 1])
      then Some(Expired(Apply(cfg, before.value, run[|run| - 1]))) else None
  }

  function Expired(s: State): State { s.(records := Unexpired(s.records, s.now)) }

  /** A job that finishes while its own expired record is still in the map. */
  predicate FinishesLate(s: State, op: Op) {
    op.Finish? && op.id in s.records && s.records[op.id].expires <= s.now
  }

  ghost predicate NeverLate(cfg: Config, run: seq<Op>) {
    forall n | 0 <= n < |run| && Exec(cfg, run[..n]).Some? :: !FinishesLate(Exec(cfg, run[..n]).value, run[n])
  }

  lemma UnexpiredTwice(m: Records, now: nat, later: nat)
    requires now <= later
    ensures Unexpired(Unexpired(m, now), later) == Unexpired(m, later)
  {
  }

  lemma SubmitInStep(cfg: Config, s: State, id: Id, evict: Option<Id>)
    ensures Apply(cfg, s, Submit(id, evict)) == Apply(cfg, Expired(s), Submit(id, evict))
    ensures Enabled(cfg, s, Submit(id, evict)) <==> Enabled(cfg, Expired(s), Submit(id, evict))
  {
    UnexpiredTwice(s.records, s.now, s.now);
    hide Unexpired, EvictionFits, ActiveIds;
  }

  lemma StartInStep(cfg: Config, s: State, id: Id)
    ensures Expired(Apply(cfg, s, Start(id))) == Expired(Apply(cfg, Expired(s), Start(id)))
  {
    assert Expired(Apply(cfg, s, Start(id))).records == Expired(Apply(cfg, Expired(s), Start(id))).records;
  }

  lemma FinishInStep(cfg: Config, s: State, id: Id, c: Captured)
    requires cfg.Valid()
    ensures Expired(Apply(cfg, s, Finish(id, c))) == Expired(Apply(cfg, Expired(s), Finish(id, c))) <==>
      !FinishesLate(s, Finish(id, c))
  {
    var op := Finish(id, c);
    if FinishesLate(s, op) {
      assert id in Expired(Apply(cfg, s, op)).records;
    } else {
      assert Expired(Apply(cfg, s, op)).records == Expired(Apply(cfg, Expired(s), op)).records;
    }
  }

  lemma GetInStep(cfg: Config, s: State, id: Id)
    ensures Viewed(s.records, s.now, id) == Viewed(Expired(s).records, s.now, id)
  {
  }

  /** One operation keeps the two stores in step, exactly unless a job finishes late. */
  lemma InStepExactlyWhen(cfg: Config, s: State, op: Op)
    requires cfg.Valid()
    ensures Enabled(cfg, s, op) <==> Enabled(cfg, Expired(s), op)
    ensures Apply(cfg, s, op).log == Apply(cfg, Expired(s), op).log
    ensures Expired(Apply(cfg, s, op)) == Expired(Apply(cfg, Expired(s), op)) <==> !FinishesLate(s, op)
  {
    UnexpiredTwice(s.records, s.now, s.now);
    match op {
      case Submit(id, evict) => SubmitInStep(cfg, s, id, evict);
      case Start(id) => StartInStep(cfg, s, id);
      case Finish(id, c) => FinishInStep(cfg, s, id, c);
      case Get(id) => GetInStep(cfg, s, id);
      case Sweep =>
      case Tick(d) => UnexpiredTwice(s.records, s.now, s.now + d);
    }
    hide Unexpired, EvictionFits, Submitted, Started, Finished, Viewed;
  }

  /** Every reply, every poll and every eviction of the lazily swept store is that of the
      store that expires records at once, as long as no job finishes late. */
  lemma {:induction false} LazyIsEager(cfg: Config, run: seq<Op>)
    requires cfg.Valid() && NeverLate(cfg, run) && Exec(cfg, run).Some?
    ensures EagerExec(cfg, run) == Some(Expired(Exec(cfg, run).value))
  {
    if run != [] {
      var n := |run| - 1;
      forall m | 0 <= m < n
        ensures run[..n][..m] == run[..m]
      {
      }
      LazyIsEager(cfg, run[..n]);
      var s := Exec(cfg, run[..n]).value;
      assert !FinishesLate(s, run[n]);
      InStepExactlyWhen(cfg, s, run[n]);
    }
  }

  /** A late finish shows at once: the lazy store serves the job again, the eager one does not. */
  lemma LateFinishShows(cfg: Config, s: State, id: Id, c: Captured)
    requires cfg.Valid() && FinishesLate(s, Finish(id, c))
    ensures Viewed(Apply(cfg, s, Finish(id, c)).records, s.now, id).Some?
    ensures Viewed(Apply(cfg, Expired(s), Finish(id, c)).records, s.now, id).None?
  {
    assert id !in Expired(s).records;
    assert Completed(cfg, s.records[id], s.now, c).expires == s.now + cfg.ttl;
  }

  ghost predicate SameLog(cfg: Config, run: seq<Op>) {
    && Exec(cfg, run).Some? && EagerExec(cfg, run).Some?
    && Exec(cfg, run).value.log == EagerExec(cfg, run).value.log
  }

  ghost predicate PollsAgree(cfg: Config, run: seq<Op>) {
    forall n, id | 0 <= n <= |run| :: SameLog(cfg, run[..n] + [Get(id)])
  }

  lemma {:induction false} PrefixRuns(cfg: Config, run: seq<Op>, n: nat)
    requires Exec(cfg, run).Some? && n <= |run|
    ensures Exec(cfg, run[..n]).Some?
    ensures NeverLate(cfg, run) ==> NeverLate(cfg, run[..n])
    decreases |run| - n
  {
    if n == |run| {
      assert run[..n] == run;
    } else {
      PrefixRuns(cfg, run, n + 1);
      assert run[..n + 1][..n] == run[..n];
      forall m | 0 <= m < n
        ensures run[..n][..m] == run[..m] && run[..n][m] == run[m]
      {
      }
    }
  }

  lemma GetAgrees(cfg: Config, run: seq<Op>, id: Id)
    requires cfg.Valid() && Exec(cfg, run).Some? && NeverLate(cfg, run)
    ensures SameLog(cfg, run + [Get(id)])
  {
    LazyIsEager(cfg, run);
    assert (run + [Get(id)])[..|run|] == run;
    InStepExactlyWhen(cfg, Exec(cfg, run).value, Get(id));
  }

  lemma NeverLateAtFirst(cfg: Config)
    ensures NeverLate(cfg, [])
  {
  }

  lemma {:induction false} FirstLate(cfg: Config, run: seq<Op>) returns (n: nat)
    requires Exec(cfg, run).Some? && !NeverLate(cfg, run)
    ensures n < |run| && Exec(cfg, run[..n]).Some? && NeverLate(cfg, run[..n])
    ensures FinishesLate(Exec(cfg, run[..n]).value, run[n])
  {
    var k := |run| - 1;
    hide Exec, FinishesLate;
    assert run != [] by { NeverLateAtFirst(cfg); }
    PrefixRuns(cfg, run, k);
    forall m | 0 <= m < k
      ensures run[..k][..m] == run[..m] && run[..k][m] == run[m]
    {
    }
    if NeverLate(cfg, run[..k]) {
      n := k;
    } else {
      hide NeverLate;
      n := FirstLate(cfg, run[..k]);
    }
  }

  lemma LastOne(cfg: Config, run: seq<Op>, a: Op)
    ensures Exec(cfg, run + [a]).Some? ==>
              Exec(cfg, run).Some? && Exec(cfg, run + [a]).value == Apply(cfg, Exec(cfg, run).value, a)
    ensures EagerExec(cfg, run + [a]).Some? ==>
              EagerExec(cfg, run).Some?
                && EagerExec(cfg, run + [a]).value == Expired(Apply(cfg, EagerExec(cfg, run).value, a))
  {
    assert (run + [a])[..|run|] == run;
  }

  lemma LateDisagrees(cfg: Config, run: seq<Op>, n: nat)
    requires cfg.Valid() && Exec(cfg, run).Some? && n < |run|
    requires Exec(cfg, run[..n]).Some? && NeverLate(cfg, run[..n])
    requires FinishesLate(Exec(cfg, run[..n]).value, run[n])
    ensures !SameLog(cfg, run[..n + 1] + [Get(run[n].id)])
  {
    var s, id := Exec(cfg, run[..n]).value, run[n].id;
    var more := run[..n] + [run[n]] + [Get(id)];
    assert run[..n + 1] + [Get(id)] == more;
    LazyIsEager(cfg, run[..n]);
    LastOne(cfg, run[..n], run[n]);
    LastOne(cfg, run[..n] + [run[n]], Get(id));
    hide Exec, EagerExec;
    LateFinishShows(cfg, s, id, run[n].captured);
    assert id !in Expired(Apply(cfg, Expired(s), run[n])).records;
    var lazy := Apply(cfg, Apply(cfg, s, run[n]), Get(id)).log;
    var eager := Apply(cfg, Expired(Apply(cfg, Expired(s), run[n])), Get(id)).log;
    assert lazy[|lazy| - 1].v.Some? && eager[|eager| - 1].v.None?;
  }

  /** Polling after every prefix of a run never tells the two stores apart, exactly when no
      job of the run finishes late. */
  lemma LazyIsEagerExactlyWhen(cfg: Config, run: seq<Op>)
    requires cfg.Valid() && Exec(cfg, run).Some?
    ensures PollsAgree(cfg, run) <==> NeverLate(cfg, run)
  {
    if NeverLate(cfg, run) {
      forall n, id | 0 <= n <= |run|
        ensures SameLog(cfg, run[..n] + [Get(id)])
      {
        PrefixRuns(cfg, run, n);
        GetAgrees(cfg, run[..n], id);
      }
    } else {
      var n := FirstLate(cfg, run);
      LateDisagrees(cfg, run, n);
    }
  }

  // ---------------------------------------------------------------- how long a late finish shows

  /** The operations after which record `k` may be gone before it expires. */
  predicate Evicts(op: Op, k: Id) { op.Submit? && op.evict == Some(k) }

  lemma StepKeepsFinished(cfg: Config, s: State, op: Op, k: Id)
    requires Enabled(cfg, s, op) && !Evicts(op, k)
    requires k in s.tasks && s.tasks[k] == Over && k in s.records && s.now < s.records[k].expires
    ensures var s' := Apply(cfg, s, op);
            && k in s'.tasks && s'.tasks[k] == Over && s.now <= s'.now
            && k in s'.records && s'.records[k] == s.records[k]
  {
    hide EvictionFits, ActiveIds;
  }

  lemma StepKeepsGone(cfg: Config, s: State, op: Op, k: Id)
    requires Enabled(cfg, s, op) && k in s.tasks && s.tasks[k] == Over && k !in s.records
    ensures var s' := Expired(Apply(cfg, s, op));
            k in s'.tasks && s'.tasks[k] == Over && k !in s'.records
  {
    hide EvictionFits, ActiveIds;
  }

  lemma {:induction false} FinishedStays(cfg: Config, run: seq<Op>, more: seq<Op>, k: Id)
    requires Exec(cfg, run + more).Some? && forall op | op in more :: !Evicts(op, k)
    requires Exec(cfg, run).Some? ==>
               var s := Exec(cfg, run).value;
               k in s.tasks && s.tasks[k] == Over && k in s.records
                 && Exec(cfg, run + more).value.now < s.records[k].expires
    ensures Exec(cfg, run).Some?
    ensures var (s, s') := (Exec(cfg, run).value, Exec(cfg, run + more).value);
            && k in s'.tasks && s'.tasks[k] == Over && s.now <= s'.now
            && k in s.records && k in s'.records && s'.records[k] == s.records[k]
    decreases |more|
  {
    if more == [] {
      assert run + more == run;
    } else {
      var n := |more| - 1;
      assert run + more == run + more[..n] + [more[n]];
      LastOne(cfg, run + more[..n], more[n]);
      LaterNow(cfg, Exec(cfg, run + more[..n]).value, more[n]);
      hide Exec, Apply, Evicts;
      FinishedStays(cfg, run, more[..n], k);
      LastEnabled(cfg, run + more[..n], more[n]);
      StepKeepsFinished(cfg, Exec(cfg, run + more[..n]).value, more[n], k);
    }
  }

  lemma LaterNow(cfg: Config, s: State, op: Op)
    ensures s.now <= Apply(cfg, s, op).now
  {
  }

  lemma LastEnabled(cfg: Config, run: seq<Op>, a: Op)
    requires Exec(cfg, run + [a]).Some?
    ensures Exec(cfg, run).Some? && Enabled(cfg, Exec(cfg, run).value, a)
  {
    assert (run + [a])[..|run|] == run;
  }

  lemma {:induction false} GoneStaysGone(cfg: Config, run: seq<Op>, more: seq<Op>, k: Id)
    requires EagerExec(cfg, run + more).Some?
    requires EagerExec(cfg, run).Some? ==>
               var s := EagerExec(cfg, run).value; k in s.tasks && s.tasks[k] == Over && k !in s.records
    ensures var s' := EagerExec(cfg, run + more).value; k in s'.tasks && s'.tasks[k] == Over && k !in s'.records
    decreases |more|
  {
    if more == [] {
      assert run + more == run;
    } else {
      var n := |more| - 1;
      assert (run + more)[..|run| + n] == run + more[..n] && (run + more)[|run| + n] == more[n];
      hide Apply;
      GoneStaysGone(cfg, run, more[..n], k);
      StepKeepsGone(cfg, EagerExec(cfg, run + more[..n]).value, more[n], k);
    }
  }

  /** After a late finish, whatever else happens: until the new expiry, a whole `ttl` after
      the finish, every poll is served the outcome, unless the record is evicted; the store
      that drops expired records at once never serves it again. */
  lemma LateFinishStays(cfg: Config, run: seq<Op>, id: Id, c: Captured, more: seq<Op>)
    requires cfg.Valid() && Exec(cfg, run).Some? && NeverLate(cfg, run)
      && FinishesLate(Exec(cfg, run).value, Finish(id, c))
    requires var all := run + [Finish(id, c)] + more;
             && Exec(cfg, all).Some? && Exec(cfg, all).value.now < Exec(cfg, run).value.now + cfg.ttl
             && forall op | op in more :: !Evicts(op, id)
    ensures var (s, all) := (Exec(cfg, run).value, run + [Finish(id, c)] + more);
            && id in s.records
            && var v := Viewed(Exec(cfg, all).value.records, Exec(cfg, all).value.now, id);
               v.Some? && v.value.status == Completed(cfg, s.records[id], s.now, c).status
                 && v.value.status in {Done, Error}
    ensures var all := run + [Finish(id, c)] + more;
            EagerExec(cfg, all).Some? ==>
              Viewed(EagerExec(cfg, all).value.records, EagerExec(cfg, all).value.now, id).None?
  {
    var s, finish := Exec(cfg, run).value, Finish(id, c);
    var all := run + [finish] + more;
    LateStep(cfg, s, id, c);
    PrefixOf(cfg, run + [finish], more);
    LastOne(cfg, run, finish);
    LastEnabled(cfg, run, finish);
    LazyIsEager(cfg, run);
    hide Exec, EagerExec, Apply, NeverLate;
    FinishedStays(cfg, run + [finish], more, id);
    if EagerExec(cfg, all).Some? {
      GoneStaysGone(cfg, run + [finish], more, id);
    }
  }

  lemma LateStep(cfg: Config, s: State, id: Id, c: Captured)
    requires cfg.Valid() && FinishesLate(s, Finish(id, c))
    ensures var s' := Apply(cfg, s, Finish(id, c));
            && id in s'.records && s'.records[id] == Completed(cfg, s.records[id], s.now, c) && s'.now == s.now
            && s'.records[id].expires == s.now + cfg.ttl && s'.records[id].status in {Done, Error}
            && id in s'.tasks && s'.tasks[id] == Over
    ensures var e := Expired(Apply(cfg, Expired(s), Finish(id, c)));
            id !in e.records && id in e.tasks && e.tasks[id] == Over
  {
  }

  lemma {:induction false} PrefixOf(cfg: Config, run: seq<Op>, more: seq<Op>)
    requires Exec(cfg, run + more).Some?
    ensures Exec(cfg, run).Some?
    decreases |more|
  {
    if more == [] {
      assert run + more == run;
    } else {
      var n := |more| - 1;
      assert run + more == run + more[..n] + [more[n]];
      LastEnabled(cfg, run + more[..n], more[n]);
      hide Exec;
      PrefixOf(cfg, run, more[..n]);
    }
  }

  /** A run that ends in one: the job starts at once and its capture outlasts its record. */
  lemma LateFinishRun(cfg: Config, id: Id, c: Captured) returns (run: seq<Op>)
    requires cfg.Valid()
    ensures run == [Submit(id, None), Start(id), Tick(cfg.ttl)]
    ensures Exec(cfg, run + [Finish(id, c)]).Some?
    ensures NeverLate(cfg, run) && FinishesLate(Exec(cfg, run).value, Finish(id, c))
  {
    run := [Submit(id, None), Start(id), Tick(cfg.ttl)];
    assert run[..2] == [Submit(id, None), Start(id)] && run[..2][..1] == [Submit(id, None)] && run[..2][..1][..0] == [];
    assert run[..1] == [Submit(id, None)] && run[..0] == [];
    assert ActiveIds(map[]) == {};
    assert (run + [Finish(id, c)])[..3] == run;
    var s1 := Apply(cfg, INIT, Submit(id, None));
    assert Exec(cfg, run[..1]) == Some(s1);
    var s2 := Apply(cfg, s1, Start(id));
    assert Exec(cfg, run[..2]) == Some(s2);
    var s3 := Apply(cfg, s2, Tick(cfg.ttl));
    assert Exec(cfg, run) == Some(s3);
  }
}
