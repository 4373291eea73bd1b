/** One job all the way through: what the single commands of the protocol add up to when
    nothing interferes, and why no job is ever stuck, whatever did. */
module JobRounds {
  import opened Wrappers
  import opened JobResults
  import opened JobQueue

  // ---------------------------------------------------------------- submitting

  /** A submit queues the entry under a marker and leaves no producer behind. */
  lemma EnqueueWorks(cfg: Config, s: State, n: nat)
    requires n in s.producers && s.producers[n] == Marking && Lookup(s, Minted(n)).None? && cfg.Valid()
    ensures CanProduce(cfg, s, n, SetMarker(Success))
    ensures var s1 := ApplyProducer(cfg, s, n, SetMarker(Success));
            && CanProduce(cfg, s1, n, AddEntry(Success))
            && var s2 := ApplyProducer(cfg, s1, n, AddEntry(Success));
               && s2 == s.(keys := s.keys[Minted(n) := Key(QueuedMark, s.now + cfg.ttl)],
                           producers := s.producers - {n},
                           payloads := s.payloads + [MintedJob(n)], stream := s.stream + {|s.payloads|})
               && Lookup(s2, Minted(n)) == Some(QueuedMark) && JobIdOf(s2, |s.payloads|) == Minted(n)
  {
    var s1 := ApplyProducer(cfg, s, n, SetMarker(Success));
    assert s1.producers == s.producers[n := Marked];
    assert s1.producers - {n} == s.producers - {n};
  }

  // ---------------------------------------------------------------- processing

  /** The commands of delivery `k`, one after the other. */
  function Works(cfg: Config, s: State, k: nat, acts: seq<WorkerAct>): Option<State>
    decreases |acts|
  {
    if acts == [] then Some(s)
    else if CanWork(cfg, s, k, acts[0]) then Works(cfg, ApplyWorker(cfg, s, k, acts[0]), k, acts[1..])
    else None
  }

  function AtPhase(s: State, k: nat, phase: WorkerPhase): State
    requires k in s.deliveries
  {
    s.(deliveries := s.deliveries[k := s.deliveries[k].(phase := phase)])
  }

  lemma WorksOnce(cfg: Config, s: State, k: nat, act: WorkerAct, acts: seq<WorkerAct>)
    requires CanWork(cfg, s, k, act)
    ensures Works(cfg, s, k, [act] + acts) == Works(cfg, ApplyWorker(cfg, s, k, act), k, acts)
  {
    assert ([act] + acts)[1..] == acts;
    hide CanWork, ApplyWorker;
  }

  lemma OneAttempt(cfg: Config, s: State, k: nat, j: nat, c: Captured)
    requires k in s.deliveries && s.deliveries[k].phase == Capture(j)
    ensures CanWork(cfg, s, k, Attempt(c))
    ensures ApplyWorker(cfg, s, k, Attempt(c))
            == AtPhase(s, k, if Retries(c, j, cfg.maxRetries) then Capture(j + 1) else Write(Shape(c)))
  {
  }

  lemma AtPhaseTwice(s: State, k: nat, a: WorkerPhase, b: WorkerPhase)
    requires k in s.deliveries
    ensures AtPhase(AtPhase(s, k, a), k, b) == AtPhase(s, k, b)
  {
    var v := s.deliveries[k];
    assert s.deliveries[k := v.(phase := a)][k := v.(phase := b)] == s.deliveries[k := v.(phase := b)];
  }

  function AckOf(cfg: Config): AckReply { if cfg.deleteOnAck then AckAndDelete else AckOnly }

  /** Attempts `j` to `n`, each fed its own outcome, and what follows. */
  function AttemptsFrom(outcomes: nat -> Captured, j: nat, n: nat, rest: seq<WorkerAct>): seq<WorkerAct>
    requires j <= n
    decreases n - j
  {
    [Attempt(outcomes(j))] + if j == n then rest else AttemptsFrom(outcomes, j + 1, n, rest)
  }

  /** The commands of a delivery that nothing disturbs; the running marker may be lost. */
  function Commands(cfg: Config, outcomes: nat -> Captured, n: nat, mark: Reply): seq<WorkerAct> {
    [ParseJob] + ([MarkRunning(mark)]
                  + AttemptsFrom(outcomes, 0, n, [WriteResult(Success)] + ([SendAck(AckOf(cfg))] + [])))
  }

  /** Retrying ends with the attempt that decides. */
  lemma {:induction false} AttemptsDecide(cfg: Config, s: State, k: nat, outcomes: nat -> Captured, j: nat, n: nat,
                                          rest: seq<WorkerAct>)
    requires k in s.deliveries && s.deliveries[k].phase == Capture(j) && j <= n && Decides(outcomes, cfg.maxRetries, n)
    ensures Works(cfg, s, k, AttemptsFrom(outcomes, j, n, rest))
      == Works(cfg, AtPhase(s, k, Write(Shape(outcomes(n)))), k, rest)
    decreases n - j
  {
    OneAttempt(cfg, s, k, j, outcomes(j));
    if j == n {
      WorksOnce(cfg, s, k, Attempt(outcomes(j)), rest);
    } else {
      var s' := AtPhase(s, k, Capture(j + 1));
      AttemptsDecide(cfg, s', k, outcomes, j + 1, n, rest);
      AtPhaseTwice(s, k, Capture(j + 1), Write(Shape(outcomes(n))));
      WorksOnce(cfg, s, k, Attempt(outcomes(j)), AttemptsFrom(outcomes, j + 1, n, rest));
    }
    hide Works, ApplyWorker, CanWork;
  }

  /** The running marker is written, or lost, and the capture about to start. */
  function RunningAt(cfg: Config, s: State, k: nat, mark: Reply): State
    requires k in s.deliveries
  {
    var id := JobIdOf(s, s.deliveries[k].entry);
    var s' := AtPhase(s, k, Capture(0));
    if mark.Applied() then s'.(keys := s.keys[id := Key(RunningMark, s.now + cfg.ttl)], claimed := s.claimed + {id})
    else s'
  }

  /** The result is written, the entry acknowledged and the delivery over. */
  function Completed(cfg: Config, s: State, k: nat, result: JobResult): State
    requires k in s.deliveries
  {
    var e := s.deliveries[k].entry;
    var id := JobIdOf(s, e);
    s.(keys := s.keys[id := Key(Final(result), s.now + cfg.ttl)], claimed := s.claimed + {id},
       finals := s.finals + {id},
       pending := s.pending - {e}, acked := s.acked[e := Finished(s.now)],
       stream := if cfg.deleteOnAck then s.stream - {e} else s.stream, deliveries := s.deliveries - {k})
  }

  lemma ParseAndMark(cfg: Config, s: State, k: nat, mark: Reply, rest: seq<WorkerAct>)
    requires k in s.deliveries && s.deliveries[k].phase == Parse && PayloadOf(s, s.deliveries[k].entry).Job?
    ensures Works(cfg, s, k, [ParseJob] + ([MarkRunning(mark)] + rest))
      == Works(cfg, RunningAt(cfg, s, k, mark), k, rest)
  {
    var s1 := AtPhase(s, k, Mark);
    AtPhaseTwice(s, k, Mark, Capture(0));
    WorksOnce(cfg, s, k, ParseJob, [MarkRunning(mark)] + rest);
    WorksOnce(cfg, s1, k, MarkRunning(mark), rest);
    hide Works;
    assert ApplyWorker(cfg, s, k, ParseJob) == s1;
    assert ApplyWorker(cfg, s1, k, MarkRunning(mark)) == RunningAt(cfg, s, k, mark);
  }

  lemma WriteAndAck(cfg: Config, s: State, k: nat, result: JobResult)
    requires k in s.deliveries && s.deliveries[k].phase == Write(result) && s.deliveries[k].entry in s.pending
    ensures Works(cfg, s, k, [WriteResult(Success)] + ([SendAck(AckOf(cfg))] + []))
      == Some(Completed(cfg, s, k, result))
  {
    var s1 := ApplyWorker(cfg, s, k, WriteResult(Success));
    assert s1.deliveries - {k} == s.deliveries - {k};
    WorksOnce(cfg, s, k, WriteResult(Success), [SendAck(AckOf(cfg))] + []);
    WorksOnce(cfg, s1, k, SendAck(AckOf(cfg)), []);
    assert Works(cfg, Completed(cfg, s, k, result), k, []) == Some(Completed(cfg, s, k, result));
    hide Works;
    assert ApplyWorker(cfg, s1, k, SendAck(AckOf(cfg))) == Completed(cfg, s, k, result);
  }

  lemma CompletedFrom(cfg: Config, s: State, s3: State, k: nat, result: JobResult)
    requires k in s.deliveries && k in s3.deliveries && s3.deliveries[k].entry == s.deliveries[k].entry
    requires var id := JobIdOf(s, s.deliveries[k].entry);
             && s3 == s.(deliveries := s3.deliveries, keys := s3.keys, claimed := s3.claimed)
             && s3.deliveries - {k} == s.deliveries - {k}
             && s3.keys[id := Key(Final(result), s.now + cfg.ttl)] == s.keys[id := Key(Final(result), s.now + cfg.ttl)]
             && s3.claimed + {id} == s.claimed + {id}
    ensures Completed(cfg, s3, k, result) == Completed(cfg, s, k, result)
  {
  }

  lemma RunningThenCompleted(cfg: Config, s: State, k: nat, mark: Reply, result: JobResult)
    requires k in s.deliveries
    ensures Completed(cfg, AtPhase(RunningAt(cfg, s, k, mark), k, Write(result)), k, result)
      == Completed(cfg, s, k, result)
  {
    var id := JobIdOf(s, s.deliveries[k].entry);
    var s3 := AtPhase(RunningAt(cfg, s, k, mark), k, Write(result));
    assert s3.deliveries - {k} == s.deliveries - {k};
    assert s3.claimed + {id} == s.claimed + {id};
    hide JobIdOf;
    CompletedFrom(cfg, s, s3, k, result);
    hide Completed;
  }

  /** A delivery whose commands succeed, but perhaps for the running marker, leaves its job's
      deciding result under its key for a whole TTL, clears the entry from the pending list (and
      the stream, if so configured) and changes nothing else. */
  lemma DeliveryCompletes(cfg: Config, s: State, k: nat, outcomes: nat -> Captured, n: nat, mark: Reply)
    requires k in s.deliveries && s.deliveries[k].phase == Parse && s.deliveries[k].entry in s.pending
    requires PayloadOf(s, s.deliveries[k].entry).Job? && Decides(outcomes, cfg.maxRetries, n)
    ensures Works(cfg, s, k, Commands(cfg, outcomes, n, mark)) == Some(Completed(cfg, s, k, Shape(outcomes(n))))
  {
    var result := Shape(outcomes(n));
    var last := [WriteResult(Success)] + ([SendAck(AckOf(cfg))] + []);
    AttemptsDecide(cfg, RunningAt(cfg, s, k, mark), k, outcomes, 0, n, last);
    ParseAndMark(cfg, s, k, mark, AttemptsFrom(outcomes, 0, n, last));
    WriteAndAck(cfg, AtPhase(RunningAt(cfg, s, k, mark), k, Write(result)), k, result);
    RunningThenCompleted(cfg, s, k, mark, result);
    hide Works, Completed, Shape, Decides, AckOf, AttemptsFrom;
  }

  // ---------------------------------------------------------------- any other list of commands

  /** No crash, no unserializable result, and every reply a success but that of the marker. */
  predicate Undisturbed(cfg: Config, act: WorkerAct) {
    match act
    case ParseJob => true
    case MarkRunning(_) => true
    case Attempt(_) => true
    case FailSerialize => false
    case WriteResult(reply) => reply.Success?
    case SendAck(reply) => reply == AckOf(cfg)
    case Crash => false
  }

  /** The attempts among the commands are fed the outcomes in turn, from number `j` on. */
  predicate Fed(acts: seq<WorkerAct>, outcomes: nat -> Captured, j: nat)
    decreases |acts|
  {
    if acts == [] then true
    else if acts[0].Attempt? then acts[0].outcome == outcomes(j) && Fed(acts[1..], outcomes, j + 1)
    else Fed(acts[1..], outcomes, j)
  }

  /** The delivery ran to its end, undisturbed. */
  predicate RanOut(cfg: Config, s: State, k: nat, acts: seq<WorkerAct>) {
    && (forall act | act in acts :: Undisturbed(cfg, act))
    && Works(cfg, s, k, acts).Some? && k !in Works(cfg, s, k, acts).value.deliveries
  }

  lemma RanOutNext(cfg: Config, s: State, k: nat, acts: seq<WorkerAct>)
    requires RanOut(cfg, s, k, acts) && k in s.deliveries
    ensures acts != [] && CanWork(cfg, s, k, acts[0]) && Undisturbed(cfg, acts[0])
    ensures RanOut(cfg, ApplyWorker(cfg, s, k, acts[0]), k, acts[1..])
  {
    hide CanWork, ApplyWorker, Undisturbed;
  }

  lemma RanOutEnds(cfg: Config, s: State, k: nat, acts: seq<WorkerAct>)
    requires RanOut(cfg, s, k, acts) && k !in s.deliveries
    ensures acts == []
  {
    hide ApplyWorker;
  }

  lemma OnlyWriteAndAck(cfg: Config, s: State, k: nat, result: JobResult, acts: seq<WorkerAct>)
    requires k in s.deliveries && s.deliveries[k].phase == Write(result) && RanOut(cfg, s, k, acts)
    ensures acts == [WriteResult(Success)] + ([SendAck(AckOf(cfg))] + [])
  {
    RanOutNext(cfg, s, k, acts);
    var s1 := ApplyWorker(cfg, s, k, acts[0]);
    assert acts[0] == WriteResult(Success) && s1.deliveries[k].phase.Ack?;
    hide Works, RanOut;
    RanOutNext(cfg, s1, k, acts[1..]);
    assert acts[1] == SendAck(AckOf(cfg)) && k !in ApplyWorker(cfg, s1, k, acts[1]).deliveries;
    hide ApplyWorker, CanWork;
    RanOutEnds(cfg, ApplyWorker(cfg, s1, k, acts[1]), k, acts[1..][1..]);
    assert acts == [acts[0]] + ([acts[1]] + acts[1..][1..]);
  }

  /** Whatever the list, its attempts go on to the one that decides and no further. */
  lemma {:induction false} OnlyAttempts(cfg: Config, s: State, k: nat, outcomes: nat -> Captured, j: nat,
                                        acts: seq<WorkerAct>)
    returns (n: nat)
    requires k in s.deliveries && s.deliveries[k].phase == Capture(j) && j <= cfg.maxRetries
    requires RanOut(cfg, s, k, acts) && Fed(acts, outcomes, j) && forall i: nat | i < j :: Transient(outcomes(i))
    ensures j <= n && Decides(outcomes, cfg.maxRetries, n)
    ensures acts == AttemptsFrom(outcomes, j, n, [WriteResult(Success)] + ([SendAck(AckOf(cfg))] + []))
    decreases cfg.maxRetries - j
  {
    RanOutNext(cfg, s, k, acts);
    assert acts[0] == Attempt(outcomes(j));
    OneAttempt(cfg, s, k, j, outcomes(j));
    assert acts == [acts[0]] + acts[1..];
    hide Works, RanOut, CanWork, ApplyWorker, Undisturbed;
    if Retries(outcomes(j), j, cfg.maxRetries) {
      n := OnlyAttempts(cfg, AtPhase(s, k, Capture(j + 1)), k, outcomes, j + 1, acts[1..]);
    } else {
      n := j;
      OnlyWriteAndAck(cfg, AtPhase(s, k, Write(Shape(outcomes(j)))), k, Shape(outcomes(j)), acts[1..]);
    }
  }

  /** An undisturbed delivery of a job that ran to its end, its attempts fed the outcomes in
      turn, went through the one list of commands, and to the result of the attempt that
      decides. */
  lemma EveryDeliveryCompletes(cfg: Config, s: State, k: nat, outcomes: nat -> Captured, acts: seq<WorkerAct>)
    requires k in s.deliveries && s.deliveries[k].phase == Parse && s.deliveries[k].entry in s.pending
    requires PayloadOf(s, s.deliveries[k].entry).Job? && RanOut(cfg, s, k, acts) && Fed(acts, outcomes, 0)
    ensures exists n :: Decides(outcomes, cfg.maxRetries, n)
    ensures forall n | Decides(outcomes, cfg.maxRetries, n) ::
              (exists mark :: acts == Commands(cfg, outcomes, n, mark))
                && Works(cfg, s, k, acts) == Some(Completed(cfg, s, k, Shape(outcomes(n))))
  {
    var n, mark := OnlyCommands(cfg, s, k, outcomes, acts);
    DeliveryCompletes(cfg, s, k, outcomes, n, mark);
    assert forall m | Decides(outcomes, cfg.maxRetries, m) :: m == n;
    hide Works, RanOut, Completed, Commands, Decides;
  }

  lemma OnlyCommands(cfg: Config, s: State, k: nat, outcomes: nat -> Captured, acts: seq<WorkerAct>)
    returns (n: nat, mark: Reply)
    requires k in s.deliveries && s.deliveries[k].phase == Parse && PayloadOf(s, s.deliveries[k].entry).Job?
    requires RanOut(cfg, s, k, acts) && Fed(acts, outcomes, 0)
    ensures Decides(outcomes, cfg.maxRetries, n) && acts == Commands(cfg, outcomes, n, mark)
  {
    RanOutNext(cfg, s, k, acts);
    var s1 := ApplyWorker(cfg, s, k, acts[0]);
    assert acts[0] == ParseJob && s1.deliveries[k].phase == Mark;
    hide Works, RanOut;
    RanOutNext(cfg, s1, k, acts[1..]);
    var s2 := ApplyWorker(cfg, s1, k, acts[1]);
    assert acts[1].MarkRunning? && k in s2.deliveries && s2.deliveries[k].phase == Capture(0);
    mark := acts[1].mark;
    hide ApplyWorker, CanWork, Undisturbed;
    assert acts == [acts[0]] + ([acts[1]] + acts[1..][1..]);
    n := OnlyAttempts(cfg, s2, k, outcomes, 0, acts[1..][1..]);
  }

  // ---------------------------------------------------------------- no job is stuck

  /** A run that goes on. */
  ghost predicate Continues(cfg: Config, run: seq<Step>, run': seq<Step>, s: State) {
    run <= run' && Exec(cfg, run') == Some(s)
  }

  lemma OneMore(cfg: Config, run: seq<Step>, r: seq<Step>, s: State, step: Step, s': State) returns (r': seq<Step>)
    requires Continues(cfg, run, r, s) && Enabled(cfg, s, step) && Apply(cfg, s, step) == s'
    ensures Continues(cfg, run, r', s')
  {
    hide Exec, Apply, Enabled;
    r' := Extend(cfg, r, s, step, s');
  }

  /** The commands of a delivery are steps of the run. */
  lemma {:induction false} WorksIsRun(cfg: Config, run: seq<Step>, r: seq<Step>, s: State, k: nat, acts: seq<WorkerAct>,
                                      s': State)
    returns (r': seq<Step>)
    requires Continues(cfg, run, r, s) && Works(cfg, s, k, acts) == Some(s')
    ensures Continues(cfg, run, r', s')
    decreases |acts|
  {
    hide Continues, CanWork, ApplyWorker;
    r' := r;
    if acts != [] {
      var next := ApplyWorker(cfg, s, k, acts[0]);
      r' := OneMore(cfg, run, r, s, Work(k, acts[0]), next);
      r' := WorksIsRun(cfg, run, r', next, k, acts[1..], s');
    }
  }

  /** Every worker stops. */
  lemma {:induction false} CrashAll(cfg: Config, run: seq<Step>, r: seq<Step>, s: State) returns (r': seq<Step>)
    requires Continues(cfg, run, r, s)
    ensures Continues(cfg, run, r', s.(deliveries := map[]))
    decreases |s.deliveries|
  {
    r' := r;
    if s.deliveries == map[] {
      assert s.(deliveries := map[]) == s;
    } else {
      var k :| k in s.deliveries;
      var s1 := s.(deliveries := s.deliveries - {k});
      assert ApplyWorker(cfg, s, k, Crash) == s1;
      assert s1.deliveries.Keys == s.deliveries.Keys - {k};
      hide Continues, ApplyWorker;
      r' := OneMore(cfg, run, r, s, Work(k, Crash), s1);
      r' := CrashAll(cfg, run, r', s1);
    }
  }

  /** The entry has just been handed out. */
  ghost predicate HandedOut(s: State, e: EntryId, k: nat) {
    k in s.deliveries && s.deliveries[k].entry == e && s.deliveries[k].phase == Parse && e in s.pending
  }

  /** A pending entry can be handed out again. */
  lemma Again(cfg: Config, run: seq<Step>, r: seq<Step>, s: State, e: EntryId) returns (r': seq<Step>, s': State)
    requires Continues(cfg, run, r, s) && e in s.pending && e in s.stream
    ensures Continues(cfg, run, r', s') && s'.payloads == s.payloads && HandedOut(s', e, s.delivered)
  {
    var s1 := s.(deliveries := map[]);
    var s2 := s1.(now := s.now + s.pending[e] + cfg.visibility);
    s' := Deliver(s2, e);
    hide Continues;
    r' := CrashAll(cfg, run, r, s);
    r' := OneMore(cfg, run, r', s1, Tick(s.pending[e] + cfg.visibility), s2);
    r' := OneMore(cfg, run, r', s2, Reclaim(e), s');
  }

  lemma ReadEnabled(cfg: Config, s: State)
    requires Accounted(s) && s.cursor < |s.payloads|
    ensures Enabled(cfg, s, Read(s.cursor))
  {
    assert EntryAccounted(s, s.cursor);
  }

  /** An entry not delivered yet is reached by reading on. */
  lemma {:induction false} ReadOn(cfg: Config, run: seq<Step>, r: seq<Step>, s: State, e: EntryId)
    returns (r': seq<Step>, s': State, k: nat)
    requires Continues(cfg, run, r, s) && Accounted(s) && s.cursor <= e < |s.payloads|
    ensures Continues(cfg, run, r', s') && s'.payloads == s.payloads && HandedOut(s', e, k)
    decreases e - s.cursor
  {
    var c := s.cursor;
    var next := Deliver(s, c).(cursor := c + 1);
    ReadEnabled(cfg, s);
    hide Continues, Accounted;
    r' := OneMore(cfg, run, r, s, Read(c), next);
    if c == e {
      s', k := next, s.delivered;
    } else {
      StepKeepsAccounted(cfg, s, Read(c));
      r', s', k := ReadOn(cfg, run, r', next, e);
    }
  }

  /** The entry's job has ended as the captures decide, and the result can be read. */
  ghost predicate Ends(s: State, e: EntryId, result: JobResult) {
    e in s.acked && s.acked[e].Finished? && Lookup(s, JobIdOf(s, e)) == Some(Final(result))
  }

  lemma CompletedEnds(cfg: Config, s: State, e: EntryId, k: nat, result: JobResult)
    requires cfg.Valid() && HandedOut(s, e, k)
    ensures Ends(Completed(cfg, s, k, result), e, result)
    ensures Completed(cfg, s, k, result).payloads == s.payloads
  {
  }

  lemma HandedOutEnds(cfg: Config, run: seq<Step>, r: seq<Step>, s: State, e: EntryId, k: nat,
                      outcomes: nat -> Captured, n: nat)
    returns (r': seq<Step>, s': State)
    requires cfg.Valid() && Continues(cfg, run, r, s) && HandedOut(s, e, k)
    requires PayloadOf(s, e).Job? && Decides(outcomes, cfg.maxRetries, n)
    ensures Continues(cfg, run, r', s') && Ends(s', e, Shape(outcomes(n))) && s'.payloads == s.payloads
  {
    hide Continues, Works, Completed, Commands, Decides, Ends;
    DeliveryCompletes(cfg, s, k, outcomes, n, Success);
    s' := Completed(cfg, s, k, Shape(outcomes(n)));
    CompletedEnds(cfg, s, e, k, Shape(outcomes(n)));
    r' := WorksIsRun(cfg, run, r, s, k, Commands(cfg, outcomes, n, Success), s');
  }

  /** An entry not yet acknowledged can be handed out from every reachable state. */
  lemma EveryEntryIsHandedOut(cfg: Config, run: seq<Step>, e: EntryId)
    returns (run': seq<Step>, s': State, k: nat)
    requires Exec(cfg, run).Some?
    requires var s := Exec(cfg, run).value;
             e < |s.payloads| && e !in s.acked
    ensures Continues(cfg, run, run', s') && HandedOut(s', e, k) && s'.payloads == Exec(cfg, run).value.payloads
  {
    var s := Exec(cfg, run).value;
    NothingIsLost(cfg, run);
    assert EntryAccounted(s, e) && Continues(cfg, run, run, s);
    hide Exec, EntryAccounted, Accounted, Continues;
    if e < s.cursor {
      run', s' := Again(cfg, run, run, s, e);
      k := s.delivered;
    } else {
      run', s', k := ReadOn(cfg, run, run, s, e);
    }
  }

  /** No job is ever stuck: from every reachable state, whatever has crashed or been lost, the
      run can go on so that a job not acknowledged yet is, with the result its captures decide. */
  lemma EveryJobCanEnd(cfg: Config, run: seq<Step>, e: EntryId, outcomes: nat -> Captured, n: nat)
    returns (run': seq<Step>, s': State)
    requires cfg.Valid() && Exec(cfg, run).Some? && Decides(outcomes, cfg.maxRetries, n)
    requires var s := Exec(cfg, run).value;
             e < |s.payloads| && s.payloads[e].Job? && e !in s.acked
    ensures run <= run' && Exec(cfg, run') == Some(s') && Ends(s', e, Shape(outcomes(n)))
    ensures s'.payloads == Exec(cfg, run).value.payloads
  {
    hide Exec, Decides, Ends, EntryAccounted, Accounted;
    var k;
    run', s', k := EveryEntryIsHandedOut(cfg, run, e);
    run', s' := HandedOutEnds(cfg, run, run', s', e, k, outcomes, n);
  }

  // ---------------------------------------------------------------- nor is anything else

  /** Why an entry is dropped before any capture. */
  predicate Unreadable(p: Payload, reason: Reason) {
    (p == Missing && reason == NoPayload) || (p == Malformed && reason == BadJob)
  }

  /** The entry is dropped and acknowledged, for this reason. */
  function Discarded(cfg: Config, s: State, k: nat, reason: Reason): State
    requires k in s.deliveries
  {
    var e := s.deliveries[k].entry;
    s.(pending := s.pending - {e}, acked := s.acked[e := Dropped(reason)],
       stream := if cfg.deleteOnAck then s.stream - {e} else s.stream, deliveries := s.deliveries - {k})
  }

  /** A delivery in the drop branch acknowledges its entry and ends. */
  lemma DropIsAcked(cfg: Config, s: State, k: nat, reason: Reason)
    requires k in s.deliveries && s.deliveries[k].entry in s.pending
    ensures Works(cfg, AtPhase(s, k, Drop(reason)), k, [SendAck(AckOf(cfg))]) == Some(Discarded(cfg, s, k, reason))
  {
    var s1 := AtPhase(s, k, Drop(reason));
    assert s1.deliveries - {k} == s.deliveries - {k};
    assert [SendAck(AckOf(cfg))] == [SendAck(AckOf(cfg))] + [];
    WorksOnce(cfg, s1, k, SendAck(AckOf(cfg)), []);
    assert Works(cfg, Discarded(cfg, s, k, reason), k, []) == Some(Discarded(cfg, s, k, reason));
    hide Works;
    assert ApplyWorker(cfg, s1, k, SendAck(AckOf(cfg))) == Discarded(cfg, s, k, reason);
  }

  /** An entry without a readable job is dropped when it is parsed, and one whose result cannot be
      serialized instead of being written. */
  lemma DropsComplete(cfg: Config, s: State, k: nat, reason: Reason)
    requires k in s.deliveries && s.deliveries[k].entry in s.pending
    ensures s.deliveries[k].phase == Parse && Unreadable(PayloadOf(s, s.deliveries[k].entry), reason) ==>
              Works(cfg, s, k, [ParseJob, SendAck(AckOf(cfg))]) == Some(Discarded(cfg, s, k, reason))
    ensures s.deliveries[k].phase.Write? ==>
              Works(cfg, s, k, [FailSerialize, SendAck(AckOf(cfg))]) == Some(Discarded(cfg, s, k, Unserializable))
  {
    var phase := s.deliveries[k].phase;
    DropIsAcked(cfg, s, k, reason);
    DropIsAcked(cfg, s, k, Unserializable);
    assert [ParseJob, SendAck(AckOf(cfg))] == [ParseJob] + [SendAck(AckOf(cfg))];
    assert [FailSerialize, SendAck(AckOf(cfg))] == [FailSerialize] + [SendAck(AckOf(cfg))];
    hide Works;
    if phase == Parse && Unreadable(PayloadOf(s, s.deliveries[k].entry), reason) {
      assert ApplyWorker(cfg, s, k, ParseJob) == AtPhase(s, k, Drop(reason));
      WorksOnce(cfg, s, k, ParseJob, [SendAck(AckOf(cfg))]);
    } else if phase.Write? {
      assert ApplyWorker(cfg, s, k, FailSerialize) == AtPhase(s, k, Drop(Unserializable));
      WorksOnce(cfg, s, k, FailSerialize, [SendAck(AckOf(cfg))]);
    }
  }

  /** An entry without a readable job does not stay either: the run can go on so that it is
      acknowledged as dropped, for its own reason. */
  lemma EveryBadEntryCanEnd(cfg: Config, run: seq<Step>, e: EntryId, reason: Reason)
    returns (run': seq<Step>, s': State)
    requires Exec(cfg, run).Some?
    requires var s := Exec(cfg, run).value;
             e < |s.payloads| && Unreadable(s.payloads[e], reason) && e !in s.acked
    ensures run <= run' && Exec(cfg, run') == Some(s')
    ensures e in s'.acked && s'.acked[e] == Dropped(reason) && e !in s'.pending
  {
    var k;
    run', s', k := EveryEntryIsHandedOut(cfg, run, e);
    DropsComplete(cfg, s', k, reason);
    hide Exec, Works;
    var acts := [ParseJob, SendAck(AckOf(cfg))];
    run' := WorksIsRun(cfg, run, run', s', k, acts, Discarded(cfg, s', k, reason));
    s' := Discarded(cfg, s', k, reason);
  }

  // ---------------------------------------------------------------- and a new one can be submitted

  /** The key of an id not minted yet is free. */
  ghost predicate KeysMinted(s: State) { forall id | id in s.keys && id.Minted? :: id.n < s.minted }

  lemma WorkerKeepsKeysMinted(cfg: Config, s: State, k: nat, act: WorkerAct)
    requires MintedOnce(cfg, s) && KeysMinted(s) && CanWork(cfg, s, k, act)
    ensures KeysMinted(ApplyWorker(cfg, s, k, act))
  {
    WorkerKeys(cfg, s, k, act);
    WorkerFrame(cfg, s, k, act);
    var id := JobIdOf(s, s.deliveries[k].entry);
    if id.Minted? {
      assert s.payloads[s.deliveries[k].entry] == MintedJob(id.n);
      assert Added(s, id.n);
    }
    hide ApplyWorker, NextPhase, Written, CanWork, JobIdOf;
  }

  lemma ProducerKeepsKeysMinted(cfg: Config, s: State, n: nat, act: ProducerAct)
    requires MintedOnce(cfg, s) && KeysMinted(s) && CanProduce(cfg, s, n, act)
    ensures KeysMinted(ApplyProducer(cfg, s, n, act))
  {
    if !act.AddEntry? {
      OnlyMarkers(cfg, s, n, act);
      MarkerWrites(cfg, s, n, act);
      assert n in s.producers;
      hide ApplyProducer;
    }
  }

  lemma {:induction false} KeysAreMinted(cfg: Config, run: seq<Step>)
    requires Exec(cfg, run).Some?
    ensures KeysMinted(Exec(cfg, run).value)
  {
    if run != [] {
      var s, step := Exec(cfg, run[..|run| - 1]).value, run[|run| - 1];
      KeysAreMinted(cfg, run[..|run| - 1]);
      NeverQueuedAgain(cfg, run[..|run| - 1]);
      hide ApplyWorker, ApplyProducer, CanWork, CanProduce, MintedOnce;
      match step
      case Work(k, act) => WorkerKeepsKeysMinted(cfg, s, k, act);
      case Produce(n, act) => ProducerKeepsKeysMinted(cfg, s, n, act);
      case _ =>
    }
  }

  lemma SubmitRun(cfg: Config, run: seq<Step>, s: State) returns (run': seq<Step>, s': State)
    requires cfg.Valid() && Exec(cfg, run) == Some(s)
    ensures Continues(cfg, run, run', s') && s'.payloads == s.payloads + [MintedJob(s.minted)]
    ensures s'.acked == s.acked
  {
    KeysAreMinted(cfg, run);
    var n, s1 := s.minted, s.(minted := s.minted + 1, producers := s.producers[s.minted := Marking]);
    assert Continues(cfg, run, run, s);
    EnqueueWorks(cfg, s1, n);
    var s2 := ApplyProducer(cfg, s1, n, SetMarker(Success));
    s' := ApplyProducer(cfg, s2, n, AddEntry(Success));
    hide Exec, Continues, ApplyProducer, CanProduce;
    run' := OneMore(cfg, run, run, s, Mint, s1);
    run' := OneMore(cfg, run, run', s1, Produce(n, SetMarker(Success)), s2);
    run' := OneMore(cfg, run, run', s2, Produce(n, AddEntry(Success)), s');
  }

  /** From every reachable state a new job can be submitted under a fresh id and be served the
      result its captures decide. */
  lemma EverySubmitCanEnd(cfg: Config, run: seq<Step>, outcomes: nat -> Captured, n: nat)
    returns (run': seq<Step>, s': State)
    requires cfg.Valid() && Exec(cfg, run).Some? && Decides(outcomes, cfg.maxRetries, n)
    ensures run <= run' && Exec(cfg, run') == Some(s')
    ensures var s := Exec(cfg, run).value;
            JobIdOf(s', |s.payloads|) == Minted(s.minted) && Ends(s', |s.payloads|, Shape(outcomes(n)))
  {
    var s := Exec(cfg, run).value;
    var r, s1 := SubmitRun(cfg, run, s);
    assert Exec(cfg, r) == Some(s1);
    NothingIsLost(cfg, run);
    assert |s.payloads| !in s1.acked;
    hide Exec, Decides, Ends, Accounted;
    run', s' := EveryJobCanEnd(cfg, r, |s.payloads|, outcomes, n);
  }
}
