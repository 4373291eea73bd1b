/** The Redis job protocol: producers, stream, consumer group, workers, result keys.

    Every Redis command is one step; a command whose reply is an error may have been
    applied or not. Producers and workers can stop at any point. */
module JobQueue {
  import opened Wrappers
  import opened JobResults

  type EntryId = nat

  /** Server-minted ids, ids chosen by other writers of the stream, and the entry-id fallback. */
  datatype JobId = Minted(n: nat) | Foreign(text: string) | OfEntry(entry: EntryId)

  datatype Payload = Missing | Malformed | Job(id: Option<JobId>)

  /** What a result key holds. */
  datatype Value = QueuedMark | RunningMark | Final(result: JobResult)

  datatype Key = Key(value: Value, expires: nat)

  /** `maxRun` bounds how long a delivery stays alive; `exactXadd` says that a reported
      XADD failure was not applied. */
  datatype Config = Config(ttl: nat, visibility: nat, maxRetries: nat, deleteOnAck: bool, maxRun: nat,
                           exactXadd: bool)
  {
    ghost predicate Valid() { ttl >= 1 && visibility >= 1 }
  }

  datatype ProducerPhase = Marking | Marked | Cleaning

  datatype Reason = NoPayload | BadJob | Unserializable

  datatype WorkerPhase =
    | Parse
    | Mark
    | Capture(attempt: nat)
    | Write(result: JobResult)
    | Drop(reason: Reason)
    | Ack(written: nat)

  datatype Delivery = Delivery(entry: EntryId, started: nat, phase: WorkerPhase)

  /** How an entry left the pending list. */
  datatype Outcome = Dropped(reason: Reason) | Finished(written: nat)

  /** `payloads`, `acked`, `claimed` and `finals` are history: every entry ever added,
      how it was acknowledged, the ids whose key a worker has written, and the ids
      for which a final result has been written. */
  datatype State = State(
    now: nat,
    payloads: seq<Payload>,
    stream: set<EntryId>,
    cursor: nat,
    pending: map<EntryId, nat>,
    keys: map<JobId, Key>,
    producers: map<nat, ProducerPhase>,
    minted: nat,
    deliveries: map<nat, Delivery>,
    delivered: nat,
    acked: map<EntryId, Outcome>,
    claimed: set<JobId>,
    finals: set<JobId>)

  const INIT := State(0, [], {}, 0, map[], map[], map[], 0, map[], 0, map[], {}, {})

  /** The JSON document behind a key. */
  function Document(v: Value): Stored {
    match v
    case QueuedMark => Stored(Some("queued"), None, None, None)
    case RunningMark => Stored(Some("running"), None, None, None)
    case Final(r) => Encode(r)
  }

  /** A key read through its TTL. */
  function Lookup(s: State, id: JobId): Option<Value> {
    if id in s.keys && s.now < s.keys[id].expires then Some(s.keys[id].value) else None
  }

  /** What a poll of this id is served. */
  function Polled(s: State, id: JobId): Option<JobView> {
    match Lookup(s, id)
    case None => None
    case Some(v) => Some(IntoJobView(Document(v)))
  }

  function PayloadOf(s: State, e: EntryId): Payload {
    if e < |s.payloads| then s.payloads[e] else Missing
  }

  function JobIdOf(s: State, e: EntryId): JobId {
    match PayloadOf(s, e)
    case Job(Some(id)) => id
    case _ => OfEntry(e)
  }

  /** An error reply says nothing about whether the command took effect. */
  datatype Reply = Success | Lost(applied: bool) {
    predicate Applied() { Success? || applied }
  }

  /** XACK and XDEL share a pipeline; a broken connection may have run none, one or both. */
  datatype AckReply = Nothing | AckOnly | AckAndDelete

  datatype ProducerAct = SetMarker(marker: Reply) | AddEntry(xadd: Reply) | DeleteMarker(del: Reply) | Quit

  datatype WorkerAct =
    | ParseJob
    | MarkRunning(mark: Reply)
    | Attempt(outcome: Captured)
    | FailSerialize
    | WriteResult(write: Reply)
    | SendAck(acks: AckReply)
    | Crash

  datatype Step =
    | Tick(d: nat)
    | Mint
    | Produce(n: nat, act: ProducerAct)
    | ForeignAdd(payload: Payload)
    | Read(e: EntryId)
    | Reclaim(e: EntryId)
    | Work(k: nat, work: WorkerAct)

  // ---------------------------------------------------------------- producers

  predicate CanProduce(cfg: Config, s: State, n: nat, act: ProducerAct) {
    && n in s.producers
    && match act
       case SetMarker(_) => s.producers[n] == Marking
       case AddEntry(reply) => s.producers[n] == Marked && (cfg.exactXadd ==> reply != Lost(true))
       case DeleteMarker(_) => s.producers[n] == Cleaning
       case Quit => true
  }

  function Append(s: State, p: Payload): State {
    s.(payloads := s.payloads + [p], stream := s.stream + {|s.payloads|})
  }

  function Leave(s: State, n: nat): State { s.(producers := s.producers - {n}) }

  function MintedJob(n: nat): Payload { Job(Some(Minted(n))) }

  function ApplyAdd(s: State, n: nat, reply: Reply): State {
    var s' := if reply.Applied() then Append(s, MintedJob(n)) else s;
    s'.(producers := if reply.Success? then s.producers - {n} else s.producers[n := Cleaning])
  }

  function ApplyProducer(cfg: Config, s: State, n: nat, act: ProducerAct): State {
    match act
    case SetMarker(reply) =>
      if Lookup(s, Minted(n)).Some? then Leave(s, n) else
        var s' := if reply.Applied() then s.(keys := s.keys[Minted(n) := Key(QueuedMark, s.now + cfg.ttl)]) else s;
        if reply.Success? then s'.(producers := s.producers[n := Marked]) else Leave(s', n)
    case AddEntry(reply) => ApplyAdd(s, n, reply)
    case DeleteMarker(reply) =>
      Leave(if reply.Applied() then s.(keys := s.keys - {Minted(n)}) else s, n)
    case Quit => Leave(s, n)
  }

  // ---------------------------------------------------------------- workers

  predicate CanWork(cfg: Config, s: State, k: nat, act: WorkerAct) {
    && k in s.deliveries
    && var phase := s.deliveries[k].phase;
       match act
       case ParseJob => phase.Parse?
       case MarkRunning(_) => phase.Mark?
       case Attempt(_) => phase.Capture?
       case FailSerialize => phase.Write?
       case WriteResult(_) => phase.Write?
       case SendAck(reply) => (phase.Drop? || phase.Ack?) && (!cfg.deleteOnAck ==> reply != AckAndDelete)
       case Crash => true
  }

  /** The delivery's next phase; `None` when it ends. */
  function NextPhase(cfg: Config, s: State, k: nat, act: WorkerAct): Option<WorkerPhase>
    requires CanWork(cfg, s, k, act)
  {
    var Delivery(e, _, phase) := s.deliveries[k];
    match act
    case ParseJob =>
      (match PayloadOf(s, e)
       case Missing => Some(Drop(NoPayload))
       case Malformed => Some(Drop(BadJob))
       case Job(_) => Some(Mark))
    case MarkRunning(_) => Some(Capture(0))
    case Attempt(outcome) =>
      if Retries(outcome, phase.attempt, cfg.maxRetries) then Some(Capture(phase.attempt + 1))
      else Some(Write(Shape(outcome)))
    case FailSerialize => Some(Drop(Unserializable))
    case WriteResult(reply) => if reply.Success? then Some(Ack(s.now)) else None
    case SendAck(_) => None
    case Crash => None
  }

  /** What a worker's command writes under the job's key. */
  function Written(cfg: Config, s: State, k: nat, act: WorkerAct): Option<Value>
    requires CanWork(cfg, s, k, act)
  {
    match act
    case MarkRunning(reply) => if reply.Applied() then Some(RunningMark) else None
    case WriteResult(reply) => if reply.Applied() then Some(Final(s.deliveries[k].phase.result)) else None
    case _ => None
  }

  function WriteKey(cfg: Config, s: State, id: JobId, v: Option<Value>): State {
    if v.None? then s else
      s.(keys := s.keys[id := Key(v.value, s.now + cfg.ttl)],
         claimed := s.claimed + {id},
         finals := if v.value.Final? then s.finals + {id} else s.finals)
  }

  function Acknowledge(s: State, e: EntryId, phase: WorkerPhase, reply: AckReply): State
    requires phase.Drop? || phase.Ack?
  {
    var how := if phase.Drop? then Dropped(phase.reason) else Finished(phase.written);
    var s' := if reply.Nothing? || e !in s.pending then s
              else s.(pending := s.pending - {e}, acked := s.acked[e := how]);
    if reply.AckAndDelete? then s'.(stream := s.stream - {e}) else s'
  }

  function ApplyWorker(cfg: Config, s: State, k: nat, act: WorkerAct): State
    requires CanWork(cfg, s, k, act)
  {
    var v := s.deliveries[k];
    var next := NextPhase(cfg, s, k, act);
    var s1 := WriteKey(cfg, s, JobIdOf(s, v.entry), Written(cfg, s, k, act));
    var s2 := if act.SendAck? then Acknowledge(s1, v.entry, v.phase, act.acks) else s1;
    s2.(deliveries := if next.Some? then s.deliveries[k := v.(phase := next.value)] else s.deliveries - {k})
  }

  // ---------------------------------------------------------------- the whole system

  function Deliver(s: State, e: EntryId): State {
    s.(pending := s.pending[e := s.now],
       deliveries := s.deliveries[s.delivered := Delivery(e, s.now, Parse)],
       delivered := s.delivered + 1)
  }

  ghost predicate Enabled(cfg: Config, s: State, step: Step) {
    match step
    case Tick(d) => forall k | k in s.deliveries :: s.now + d <= s.deliveries[k].started + cfg.maxRun
    case Mint => true
    case Produce(n, act) => CanProduce(cfg, s, n, act)
    case ForeignAdd(p) => p.Job? && p.id.Some? ==> !p.id.value.Minted?
    case Read(e) => e in s.stream && e >= s.cursor && forall x | x in s.stream && x >= s.cursor :: e <= x
    case Reclaim(e) => e in s.pending && e in s.stream && s.now >= s.pending[e] + cfg.visibility
    case Work(k, act) => CanWork(cfg, s, k, act)
  }

  ghost function Apply(cfg: Config, s: State, step: Step): State
    requires Enabled(cfg, s, step)
  {
    match step
    case Tick(d) => s.(now := s.now + d)
    case Mint => s.(minted := s.minted + 1, producers := s.producers[s.minted := Marking])
    case Produce(n, act) => ApplyProducer(cfg, s, n, act)
    case ForeignAdd(p) => Append(s, p)
    case Read(e) => Deliver(s, e).(cursor := e + 1)
    case Reclaim(e) => Deliver(s, e)
    case Work(k, act) => ApplyWorker(cfg, s, k, act)
  }

  /** The state after a run from the empty system; `None` if some step was not possible. */
  ghost function Exec(cfg: Config, run: seq<Step>): Option<State> {
    if run == [] then Some(INIT) else
      var last := run[|run| - 1];
      var before := Exec(cfg, run[..|run| - 1]);
      if before.Some? && Enabled(cfg, before.value, last) then Some(Apply(cfg, before.value, last)) else None
  }

  lemma Extend(cfg: Config, run: seq<Step>, s: State, step: Step, s': State) returns (run': seq<Step>)
    requires Exec(cfg, run) == Some(s) && Enabled(cfg, s, step) && Apply(cfg, s, step) == s'
    ensures run' == run + [step] && Exec(cfg, run') == Some(s')
  {
    run' := run + [step];
    assert run'[..|run|] == run;
  }

  // ---------------------------------------------------------------- every entry is accounted for

  /** Undelivered, pending, or acknowledged for a reason. */
  ghost predicate EntryAccounted(s: State, e: EntryId) {
    || (e >= s.cursor && e in s.stream && e !in s.pending && e !in s.acked)
    || (e < s.cursor && e in s.pending && e in s.stream && e !in s.acked)
    || (e < s.cursor && e !in s.pending && e in s.acked && Earned(s, e, s.acked[e]))
  }

  /** Acknowledged after a final result for its id, or through one of the drop branches. */
  ghost predicate Earned(s: State, e: EntryId, how: Outcome) {
    match how
    case Finished(w) => w <= s.now && JobIdOf(s, e) in s.finals
    case Dropped(NoPayload) => PayloadOf(s, e) == Missing
    case Dropped(BadJob) => PayloadOf(s, e) == Malformed
    case Dropped(Unserializable) => PayloadOf(s, e).Job?
  }

  ghost predicate PhaseEarned(s: State, v: Delivery) {
    && v.entry < s.cursor
    && v.started <= s.now
    && match v.phase
       case Parse => true
       case Drop(reason) => Earned(s, v.entry, Dropped(reason))
       case Ack(w) => Earned(s, v.entry, Finished(w))
       case _ => PayloadOf(s, v.entry).Job?
  }

  ghost predicate Accounted(s: State) {
    && s.cursor <= |s.payloads|
    && (forall e | 0 <= e < |s.payloads| :: EntryAccounted(s, e))
    && (forall e | e in s.stream || e in s.pending || e in s.acked :: e < |s.payloads|)
    && (forall k | k in s.deliveries :: k < s.delivered && PhaseEarned(s, s.deliveries[k]))
  }

  /** History only grows. */
  ghost predicate Grows(s: State, s': State) {
    s.payloads <= s'.payloads && s.finals <= s'.finals && s.now <= s'.now && s.cursor <= s'.cursor
  }

  lemma EarnedStays(s: State, s': State, e: EntryId, how: Outcome)
    requires Grows(s, s') && e < |s.payloads|
    requires Earned(s, e, how)
    ensures Earned(s', e, how)
  {
  }

  lemma PhaseStays(s: State, s': State, v: Delivery)
    requires Grows(s, s') && s.cursor <= |s.payloads|
    requires PhaseEarned(s, v)
    ensures PhaseEarned(s', v)
  {
    match v.phase
    case Drop(reason) => EarnedStays(s, s', v.entry, Dropped(reason));
    case Ack(w) => EarnedStays(s, s', v.entry, Finished(w));
    case _ =>
  }

  lemma EntryStays(s: State, s': State, e: EntryId)
    requires Grows(s, s') && e < |s.payloads| && EntryAccounted(s, e)
    requires (s'.cursor, s'.pending, s'.acked) == (s.cursor, s.pending, s.acked) && s.stream <= s'.stream
    ensures EntryAccounted(s', e)
  {
    if e in s.acked {
      EarnedStays(s, s', e, s.acked[e]);
    }
  }

  /** A step that leaves the consumer group and the deliveries alone. */
  ghost predicate GroupUntouched(s: State, s': State) {
    && (s'.cursor, s'.pending, s'.acked) == (s.cursor, s.pending, s.acked)
    && (s'.deliveries, s'.delivered) == (s.deliveries, s.delivered)
    && (|| (s'.payloads == s.payloads && s'.stream == s.stream)
        || (|s'.payloads| == |s.payloads| + 1 && s'.stream == s.stream + {|s.payloads|}))
    && Grows(s, s')
  }

  lemma GroupUntouchedKeepsAccounted(s: State, s': State)
    requires Accounted(s) && GroupUntouched(s, s')
    ensures Accounted(s')
  {
    forall e | 0 <= e < |s'.payloads|
      ensures EntryAccounted(s', e)
    {
      if e < |s.payloads| {
        assert EntryAccounted(s, e);
        EntryStays(s, s', e);
      }
    }
    forall k | k in s'.deliveries
      ensures PhaseEarned(s', s'.deliveries[k])
    {
      PhaseStays(s, s', s.deliveries[k]);
    }
  }

  lemma DeliverKeepsAccounted(s: State, e: EntryId, s': State)
    requires Accounted(s)
    requires e in s.stream && ((s'.cursor == s.cursor && e in s.pending) || (s.cursor == e && s'.cursor == e + 1))
    requires s' == Deliver(s, e).(cursor := s'.cursor)
    ensures Accounted(s')
  {
    assert EntryAccounted(s, e);
    forall x | 0 <= x < |s'.payloads|
      ensures EntryAccounted(s', x)
    {
      assert EntryAccounted(s, x);
      if x in s.acked {
        EarnedStays(s, s', x, s.acked[x]);
      }
    }
    forall k | k in s'.deliveries
      ensures k < s'.delivered && PhaseEarned(s', s'.deliveries[k])
    {
      if k != s.delivered {
        PhaseStays(s, s', s.deliveries[k]);
      }
    }
  }

  lemma NextPhaseEarned(cfg: Config, s: State, k: nat, act: WorkerAct)
    requires CanWork(cfg, s, k, act) && PhaseEarned(s, s.deliveries[k])
    requires NextPhase(cfg, s, k, act).Some?
    ensures PhaseEarned(ApplyWorker(cfg, s, k, act), s.deliveries[k].(phase := NextPhase(cfg, s, k, act).value))
  {
  }

  lemma WorkerFrame(cfg: Config, s: State, k: nat, act: WorkerAct)
    requires CanWork(cfg, s, k, act)
    ensures var s' := ApplyWorker(cfg, s, k, act);
            && Grows(s, s')
            && (s'.payloads, s'.cursor, s'.delivered, s'.now) == (s.payloads, s.cursor, s.delivered, s.now)
            && (s'.producers, s'.minted) == (s.producers, s.minted)
            && s'.deliveries == (if NextPhase(cfg, s, k, act).Some? then
                                   s.deliveries[k := s.deliveries[k].(phase := NextPhase(cfg, s, k, act).value)]
                                 else s.deliveries - {k})
            && (!act.SendAck? ==> (s'.stream, s'.pending, s'.acked) == (s.stream, s.pending, s.acked))
  {
  }

  lemma WorkerKeepsEntry(cfg: Config, s: State, k: nat, act: WorkerAct, e: EntryId)
    requires CanWork(cfg, s, k, act)
    requires s.cursor <= |s.payloads| && e < |s.payloads|
    requires EntryAccounted(s, e) && PhaseEarned(s, s.deliveries[k])
    ensures EntryAccounted(ApplyWorker(cfg, s, k, act), e)
  {
    WorkerFrame(cfg, s, k, act);
    if act.SendAck? {
      AckKeepsEntry(cfg, s, k, act.acks, e);
    } else {
      hide ApplyWorker, CanWork, EntryAccounted, PhaseEarned;
      EntryStays(s, ApplyWorker(cfg, s, k, act), e);
    }
  }

  lemma AckKeepsEntry(cfg: Config, s: State, k: nat, reply: AckReply, e: EntryId)
    requires CanWork(cfg, s, k, SendAck(reply))
    requires s.cursor <= |s.payloads| && e < |s.payloads|
    requires EntryAccounted(s, e) && PhaseEarned(s, s.deliveries[k])
    ensures EntryAccounted(ApplyWorker(cfg, s, k, SendAck(reply)), e)
  {
    var s' := ApplyWorker(cfg, s, k, SendAck(reply));
    assert (s'.payloads, s'.finals, s'.now, s'.cursor) == (s.payloads, s.finals, s.now, s.cursor);
    if e in s.acked {
      EarnedStays(s, s', e, s.acked[e]);
    }
  }

  lemma WorkerKeepsAccounted(cfg: Config, s: State, k: nat, act: WorkerAct)
    requires Accounted(s) && CanWork(cfg, s, k, act)
    ensures Accounted(ApplyWorker(cfg, s, k, act))
  {
    var s' := ApplyWorker(cfg, s, k, act);
    WorkerFrame(cfg, s, k, act);
    forall e | 0 <= e < |s'.payloads|
      ensures EntryAccounted(s', e)
    {
      assert EntryAccounted(s, e);
      WorkerKeepsEntry(cfg, s, k, act, e);
    }
    forall j | j in s'.deliveries
      ensures j < s'.delivered && PhaseEarned(s', s'.deliveries[j])
    {
      assert PhaseEarned(s, s.deliveries[j]);
      if j == k {
        NextPhaseEarned(cfg, s, k, act);
      } else {
        PhaseStays(s, s', s.deliveries[j]);
      }
    }
    AckKeepsBounds(cfg, s, k, act);
  }

  lemma AckKeepsBounds(cfg: Config, s: State, k: nat, act: WorkerAct)
    requires Accounted(s) && CanWork(cfg, s, k, act)
    ensures var s' := ApplyWorker(cfg, s, k, act);
            forall e | e in s'.stream || e in s'.pending || e in s'.acked :: e < |s.payloads|
  {
  }

  lemma ProducerFrame(cfg: Config, s: State, n: nat, act: ProducerAct)
    requires CanProduce(cfg, s, n, act)
    ensures GroupUntouched(s, ApplyProducer(cfg, s, n, act))
  {
    match act
    case AddEntry(reply) => assert GroupUntouched(s, ApplyAdd(s, n, reply));
    case _ => OnlyMarkers(cfg, s, n, act);
  }

  lemma OnlyMarkers(cfg: Config, s: State, n: nat, act: ProducerAct)
    requires CanProduce(cfg, s, n, act) && !act.AddEntry?
    ensures var s' := ApplyProducer(cfg, s, n, act);
            s' == s.(keys := s'.keys, producers := s'.producers)
  {
  }

  /** The consumer group never skips an entry. */
  lemma ReadIsNext(s: State, e: EntryId)
    requires Accounted(s)
    requires e in s.stream && e >= s.cursor && forall x | x in s.stream && x >= s.cursor :: e <= x
    ensures e == s.cursor
  {
    assert EntryAccounted(s, s.cursor);
  }

  lemma StepKeepsAccounted(cfg: Config, s: State, step: Step)
    requires Accounted(s) && Enabled(cfg, s, step)
    ensures Accounted(Apply(cfg, s, step))
  {
    hide Accounted, ApplyWorker, ApplyProducer, CanWork, CanProduce;
    var s' := Apply(cfg, s, step);
    match step {
      case Work(k, act) =>
        WorkerKeepsAccounted(cfg, s, k, act);
      case Read(e) =>
        ReadIsNext(s, e);
        DeliverKeepsAccounted(s, e, s');
      case Reclaim(e) =>
        DeliverKeepsAccounted(s, e, s');
      case Produce(n, act) =>
        ProducerFrame(cfg, s, n, act);
        GroupUntouchedKeepsAccounted(s, s');
      case _ =>
        GroupUntouchedKeepsAccounted(s, s');
    }
  }

  /** In every run each entry ever added is still in the stream, or pending, or was
      acknowledged after a final result for its id or through a drop branch. */
  lemma {:induction false} NothingIsLost(cfg: Config, run: seq<Step>)
    requires Exec(cfg, run).Some?
    ensures Accounted(Exec(cfg, run).value)
  {
    if run != [] {
      NothingIsLost(cfg, run[..|run| - 1]);
      StepKeepsAccounted(cfg, Exec(cfg, run[..|run| - 1]).value, run[|run| - 1]);
    }
  }

  /** A pending entry is still in the stream, so a reclaim pass finds it once it is idle. */
  lemma PendingIsReclaimable(cfg: Config, run: seq<Step>, e: EntryId)
    requires Exec(cfg, run).Some?
    ensures var s := Exec(cfg, run).value;
            e in s.pending && s.now >= s.pending[e] + cfg.visibility ==> Enabled(cfg, s, Reclaim(e))
  {
    NothingIsLost(cfg, run);
    var s := Exec(cfg, run).value;
    if e in s.pending {
      assert EntryAccounted(s, e);
    }
  }

  // ---------------------------------------------------------------- markers never come back

  ghost predicate Added(s: State, n: nat) {
    exists e :: 0 <= e < |s.payloads| && s.payloads[e] == MintedJob(n)
  }

  /** A minted id names one entry at most, and its key is a worker's once a worker wrote it. */
  ghost predicate MintedOnce(cfg: Config, s: State) {
    && (forall n | n in s.producers :: n < s.minted && (s.producers[n] != Cleaning || cfg.exactXadd ==> !Added(s, n)))
    && (forall n: nat | Added(s, n) :: n < s.minted)
    && (forall d, e | 0 <= d < e < |s.payloads| && s.payloads[d] == s.payloads[e] :: !IsMinted(s.payloads[e]))
    && (forall id | id in s.claimed && id.Minted? :: Added(s, id.n))
    && (forall id | id in s.claimed && id in s.keys :: s.keys[id].value != QueuedMark)
  }

  predicate IsMinted(p: Payload) { p.Job? && p.id.Some? && p.id.value.Minted? }

  lemma AppendAdds(s: State, p: Payload, s': State)
    requires s'.payloads == s.payloads + [p]
    ensures forall n :: Added(s', n) <==> Added(s, n) || p == MintedJob(n)
  {
    forall n
      ensures Added(s', n) <==> Added(s, n) || p == MintedJob(n)
    {
      if p == MintedJob(n) {
        assert s'.payloads[|s.payloads|] == MintedJob(n);
      }
      if Added(s, n) {
        var e :| 0 <= e < |s.payloads| && s.payloads[e] == MintedJob(n);
        assert s'.payloads[e] == MintedJob(n);
      }
    }
  }

  lemma AddKeepsMinted(cfg: Config, s: State, p: Payload, s': State)
    requires MintedOnce(cfg, s)
    requires s' == Append(s, p).(producers := s'.producers)
    requires forall n | n in s'.producers ::
      n in s.producers && (s'.producers[n] == s.producers[n] || s'.producers[n] == Cleaning)
    requires forall n: nat | p == MintedJob(n) ::
               n < s.minted && !Added(s, n) && (n in s'.producers ==> s'.producers[n] == Cleaning && !cfg.exactXadd)
    ensures MintedOnce(cfg, s')
  {
    AppendAdds(s, p, s');
    assert IsMinted(p) ==> !Added(s, p.id.value.n) && p == MintedJob(p.id.value.n);
  }

  lemma SameEntriesSameAdded(s: State, s': State)
    requires s'.payloads == s.payloads
    ensures forall n :: Added(s', n) <==> Added(s, n)
  {
  }

  lemma MarkerWrites(cfg: Config, s: State, n: nat, act: ProducerAct)
    requires CanProduce(cfg, s, n, act) && !act.AddEntry?
    ensures var s' := ApplyProducer(cfg, s, n, act);
            && (forall m | m in s'.producers ::
                m in s.producers && (s'.producers[m] == s.producers[m] || s.producers[m] == Marking))
            && (forall id | id in s'.keys ::
                  (id in s.keys && s'.keys[id] == s.keys[id]) || (id == Minted(n) && s.producers[n] == Marking))
  {
  }

  lemma MarkerKeepsMinted(cfg: Config, s: State, n: nat, act: ProducerAct)
    requires MintedOnce(cfg, s) && CanProduce(cfg, s, n, act) && !act.AddEntry?
    ensures MintedOnce(cfg, ApplyProducer(cfg, s, n, act))
  {
    OnlyMarkers(cfg, s, n, act);
    MarkerWrites(cfg, s, n, act);
    hide ApplyProducer;
    assert n in s.producers;
    SameEntriesSameAdded(s, ApplyProducer(cfg, s, n, act));
  }

  lemma AddEntryKeepsMinted(cfg: Config, s: State, n: nat, reply: Reply)
    requires MintedOnce(cfg, s) && CanProduce(cfg, s, n, AddEntry(reply))
    ensures MintedOnce(cfg, ApplyAdd(s, n, reply))
  {
    var s' := ApplyAdd(s, n, reply);
    if reply.Applied() {
      AddKeepsMinted(cfg, s, MintedJob(n), s');
    } else {
      SameEntriesSameAdded(s, s');
    }
  }

  lemma WorkerKeepsMinted(cfg: Config, s: State, k: nat, act: WorkerAct)
    requires MintedOnce(cfg, s) && CanWork(cfg, s, k, act)
    ensures MintedOnce(cfg, ApplyWorker(cfg, s, k, act))
  {
    var s' := ApplyWorker(cfg, s, k, act);
    WorkerFrame(cfg, s, k, act);
    SameEntriesSameAdded(s, s');
    var id := JobIdOf(s, s.deliveries[k].entry);
    WorkerKeys(cfg, s, k, act);
    if id.Minted? {
      assert s.payloads[s.deliveries[k].entry] == MintedJob(id.n);
    }
  }

  lemma WorkerKeys(cfg: Config, s: State, k: nat, act: WorkerAct)
    requires CanWork(cfg, s, k, act)
    ensures var s' := ApplyWorker(cfg, s, k, act);
            var id := JobIdOf(s, s.deliveries[k].entry);
            var v := Written(cfg, s, k, act);
            && (v.None? ==> s'.keys == s.keys && s'.claimed == s.claimed)
            && (v.Some? ==>
                v.value != QueuedMark && s'.keys == s.keys[id := Key(v.value, s.now + cfg.ttl)]
                  && s'.claimed == s.claimed + {id})
  {
  }

  lemma StepKeepsMinted(cfg: Config, s: State, step: Step)
    requires MintedOnce(cfg, s) && Enabled(cfg, s, step)
    ensures MintedOnce(cfg, Apply(cfg, s, step))
  {
    hide ApplyWorker, CanWork, CanProduce;
    var s' := Apply(cfg, s, step);
    match step {
      case Work(k, act) => WorkerKeepsMinted(cfg, s, k, act);
      case Produce(n, AddEntry(reply)) => AddEntryKeepsMinted(cfg, s, n, reply);
      case Produce(n, act) => MarkerKeepsMinted(cfg, s, n, act);
      case ForeignAdd(p) => AddKeepsMinted(cfg, s, p, s');
      case _ => SameEntriesSameAdded(s, s');
    }
  }

  lemma MarkersServed(s: State, id: JobId)
    ensures Polled(s, id).Some? && Polled(s, id).value.status == Queued ==> Lookup(s, id) == Some(QueuedMark)
  {
    if Lookup(s, id).Some? && Lookup(s, id).value.Final? {
      TerminalWins(Encode(Lookup(s, id).value.result), None);
    }
  }

  /** Once a worker has written a result key, no run serves that job as `queued` again. */
  lemma {:induction false} NeverQueuedAgain(cfg: Config, run: seq<Step>)
    requires Exec(cfg, run).Some?
    ensures MintedOnce(cfg, Exec(cfg, run).value)
    ensures var s := Exec(cfg, run).value;
            forall id | id in s.claimed && Polled(s, id).Some? :: Polled(s, id).value.status != Queued
  {
    if run != [] {
      NeverQueuedAgain(cfg, run[..|run| - 1]);
      StepKeepsMinted(cfg, Exec(cfg, run[..|run| - 1]).value, run[|run| - 1]);
    }
    var s := Exec(cfg, run).value;
    hide Exec, Polled;
    forall id | id in s.claimed && Polled(s, id).Some?
      ensures Polled(s, id).value.status != Queued
    {
      MarkersServed(s, id);
    }
  }
}
