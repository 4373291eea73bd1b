/** When a finished job's result stays readable until its TTL.

    The worker's comment says that a redelivered entry may briefly show `running` again
    but never loses the final result. That holds of a run in which no entry is reclaimed
    while an earlier delivery of it is running, and a reported XADD failure was not applied;
    and of every run exactly when, besides, no delivery can outlive the visibility timeout. */
module ResultKept {
  import opened Wrappers
  import opened JobResults
  import opened JobQueue

  /** From the write until the TTL the key of an acknowledged, finished job reads as a final result. */
  ghost predicate KeptFor(cfg: Config, s: State, e: EntryId) {
    e in s.acked && s.acked[e].Finished? && JobIdOf(s, e).Minted? && s.now < s.acked[e].written + cfg.ttl ==>
      Lookup(s, JobIdOf(s, e)).Some? && Lookup(s, JobIdOf(s, e)).value.Final?
  }

  ghost predicate Kept(cfg: Config, s: State) { forall e :: KeptFor(cfg, s, e) }

  /** In the terms of `GET`: a finished, acknowledged job is served as done or failed. */
  lemma KeptMeansServed(cfg: Config, s: State, e: EntryId)
    requires KeptFor(cfg, s, e)
    requires e in s.acked && s.acked[e].Finished? && JobIdOf(s, e).Minted? && s.now < s.acked[e].written + cfg.ttl
    ensures Lookup(s, JobIdOf(s, e)).Some?
    ensures IntoJobView(Document(Lookup(s, JobIdOf(s, e)).value)).status in {Done, Error}
  {
    var v := Lookup(s, JobIdOf(s, e)).value;
    TerminalWins(Document(v), None);
  }

  // ---------------------------------------------------------------- one live delivery of an entry

  predicate Of(s: State, k: nat, e: EntryId) { k in s.deliveries && s.deliveries[k].entry == e }

  /** At most one delivery of the entry runs, the one of its latest hand-out. */
  ghost predicate Exclusive(s: State, e: EntryId) {
    && (forall k | Of(s, k, e) :: e in s.pending && s.pending[e] == s.deliveries[k].started)
    && (forall j, k | Of(s, j, e) && Of(s, k, e) :: j == k)
  }

  /** The step does not hand out the entry while an earlier delivery still works on it. */
  ghost predicate NoOverlap(s: State, step: Step, e: EntryId) { step == Reclaim(e) ==> forall k :: !Of(s, k, e) }

  lemma DeliverKeepsExclusive(s: State, d: EntryId, s': State, e: EntryId)
    requires Exclusive(s, e) && s.delivered !in s.deliveries
    requires d == e ==> forall k :: !Of(s, k, e)
    requires s' == Deliver(s, d).(cursor := s'.cursor)
    ensures Exclusive(s', e)
  {
    forall k | Of(s', k, e)
      ensures if k == s.delivered then d == e else Of(s, k, e)
    {
    }
  }

  lemma WorkerPending(cfg: Config, s: State, k: nat, act: WorkerAct)
    requires CanWork(cfg, s, k, act)
    ensures k in s.deliveries
    ensures var s' := ApplyWorker(cfg, s, k, act);
            && (s'.pending == s.pending || (s'.pending == s.pending - {s.deliveries[k].entry} && k !in s'.deliveries))
            && (forall e | e in s'.acked && e !in s.acked ::
                  e == s.deliveries[k].entry && k !in s'.deliveries
                  && (s'.acked[e].Finished? ==> s.deliveries[k].phase == Ack(s'.acked[e].written)))
            && (forall e | e in s.acked && e !in s.pending :: e in s'.acked && s'.acked[e] == s.acked[e])
  {
  }

  lemma WorkerDeliveries(cfg: Config, s: State, k: nat, act: WorkerAct, j: nat, e: EntryId)
    requires CanWork(cfg, s, k, act) && Of(ApplyWorker(cfg, s, k, act), j, e)
    ensures Of(s, j, e) && ApplyWorker(cfg, s, k, act).deliveries[j].started == s.deliveries[j].started
    ensures j != k ==> ApplyWorker(cfg, s, k, act).deliveries[j] == s.deliveries[j]
  {
    WorkerFrame(cfg, s, k, act);
    hide ApplyWorker, NextPhase, CanWork;
  }

  lemma WorkerKeepsExclusive(cfg: Config, s: State, k: nat, act: WorkerAct, e: EntryId)
    requires Exclusive(s, e) && CanWork(cfg, s, k, act)
    ensures Exclusive(ApplyWorker(cfg, s, k, act), e)
  {
    var s' := ApplyWorker(cfg, s, k, act);
    WorkerPending(cfg, s, k, act);
    hide ApplyWorker, NextPhase, CanWork;
    forall j | Of(s', j, e)
      ensures Of(s, j, e) && e in s'.pending && s'.pending[e] == s'.deliveries[j].started
    {
      WorkerDeliveries(cfg, s, k, act, j, e);
    }
  }

  lemma SameDeliveriesStayExclusive(s: State, s': State, e: EntryId)
    requires Exclusive(s, e) && (s'.deliveries, s'.pending) == (s.deliveries, s.pending)
    ensures Exclusive(s', e)
  {
    assert forall k :: Of(s', k, e) ==> Of(s, k, e);
  }

  lemma StepKeepsExclusive(cfg: Config, s: State, step: Step, e: EntryId)
    requires NoOverlap(s, step, e)
    requires Accounted(s) && Exclusive(s, e) && Enabled(cfg, s, step)
    ensures Exclusive(Apply(cfg, s, step), e)
  {
    hide ApplyWorker, ApplyProducer, CanWork, CanProduce;
    var s' := Apply(cfg, s, step);
    match step {
      case Work(k, act) => WorkerKeepsExclusive(cfg, s, k, act, e);
      case Produce(n, act) =>
        ProducerFrame(cfg, s, n, act);
        SameDeliveriesStayExclusive(s, s', e);
      case Read(d) =>
        assert EntryAccounted(s, d);
        DeliverKeepsExclusive(s, d, s', e);
      case Reclaim(d) =>
        DeliverKeepsExclusive(s, d, s', e);
      case _ => SameDeliveriesStayExclusive(s, s', e);
    }
  }

  lemma SameNow(cfg: Config, s: State, n: nat, act: ProducerAct)
    requires CanProduce(cfg, s, n, act)
    ensures ApplyProducer(cfg, s, n, act).now == s.now
  {
  }

  // ---------------------------------------------------------------- the result stays

  ghost predicate Held(cfg: Config, s: State, id: JobId, written: nat) {
    id in s.keys && s.keys[id].value.Final? && s.keys[id].expires >= written + cfg.ttl
  }

  /** Once written, the result of the entry is under its key, acknowledged or not. */
  ghost predicate ResultHeld(cfg: Config, s: State, e: EntryId) {
    JobIdOf(s, e).Minted? ==>
      && (e in s.acked && s.acked[e].Finished? ==> Held(cfg, s, JobIdOf(s, e), s.acked[e].written))
      && (forall k | Of(s, k, e) && s.deliveries[k].phase.Ack? ::
            Held(cfg, s, JobIdOf(s, e), s.deliveries[k].phase.written))
  }

  /** The invariant behind a kept result. */
  ghost predicate Guarded(cfg: Config, s: State, e: EntryId) {
    Accounted(s) && MintedOnce(cfg, s) && Exclusive(s, e) && ResultHeld(cfg, s, e)
  }

  lemma OwnersDiffer(cfg: Config, s: State, d: EntryId, e: EntryId)
    requires MintedOnce(cfg, s) && d < |s.payloads| && e < |s.payloads| && d != e
    requires JobIdOf(s, d).Minted?
    ensures JobIdOf(s, d) != JobIdOf(s, e)
  {
    if d < e {
      assert s.payloads[d] == s.payloads[e] ==> !IsMinted(s.payloads[e]);
    } else {
      assert s.payloads[e] == s.payloads[d] ==> !IsMinted(s.payloads[d]);
    }
  }

  lemma IdIsAdded(s: State, s': State, e: EntryId)
    requires e < |s.payloads| && s.payloads <= s'.payloads
    ensures JobIdOf(s', e) == JobIdOf(s, e)
    ensures JobIdOf(s, e).Minted? ==> Added(s, JobIdOf(s, e).n)
  {
    assert s'.payloads[e] == s.payloads[e];
    if JobIdOf(s, e).Minted? {
      assert s.payloads[e] == MintedJob(JobIdOf(s, e).n);
    }
  }

  lemma EntryInRange(s: State, e: EntryId)
    requires Accounted(s) && (e in s.acked || exists k :: Of(s, k, e))
    ensures e < |s.payloads|
  {
    if k :| Of(s, k, e) {
      assert PhaseEarned(s, s.deliveries[k]);
    }
  }

  /** A step that leaves the entry's key, its acknowledgement and finished deliveries alone. */
  lemma OthersKeepHeld(cfg: Config, s: State, s': State, e: EntryId)
    requires Accounted(s) && ResultHeld(cfg, s, e) && s.payloads <= s'.payloads
    requires e in s'.acked ==> e in s.acked && s'.acked[e] == s.acked[e]
    requires forall k | Of(s', k, e) && s'.deliveries[k].phase.Ack? ::
      Of(s, k, e) && s'.deliveries[k] == s.deliveries[k]
    requires var id := JobIdOf(s, e);
             id.Minted? && Added(s, id.n) && id in s.keys ==> id in s'.keys && s'.keys[id] == s.keys[id]
    ensures ResultHeld(cfg, s', e)
  {
    if e in s'.acked || exists k :: Of(s', k, e) && s'.deliveries[k].phase.Ack? {
      EntryInRange(s, e);
      IdIsAdded(s, s', e);
    }
    hide Accounted;
  }

  lemma OtherKeysStay(cfg: Config, s: State, n: nat, act: ProducerAct, id: JobId)
    requires CanProduce(cfg, s, n, act) && id != Minted(n) && id in s.keys
    ensures id in ApplyProducer(cfg, s, n, act).keys && ApplyProducer(cfg, s, n, act).keys[id] == s.keys[id]
  {
    hide Lookup;
  }

  lemma ProducerKeys(cfg: Config, s: State, n: nat, act: ProducerAct)
    requires cfg.exactXadd && MintedOnce(cfg, s) && CanProduce(cfg, s, n, act)
    ensures var s' := ApplyProducer(cfg, s, n, act);
            forall id: JobId | id.Minted? && Added(s, id.n) && id in s.keys ::
              id in s'.keys && s'.keys[id] == s.keys[id]
  {
    assert n in s.producers && !Added(s, n);
    hide MintedOnce, Added, ApplyProducer, CanProduce;
    forall id: JobId | id.Minted? && Added(s, id.n) && id in s.keys
      ensures id in ApplyProducer(cfg, s, n, act).keys && ApplyProducer(cfg, s, n, act).keys[id] == s.keys[id]
    {
      OtherKeysStay(cfg, s, n, act, id);
    }
  }

  lemma FinishIsHeld(cfg: Config, s: State, k: nat, act: WorkerAct)
    requires CanWork(cfg, s, k, act)
    ensures var s' := ApplyWorker(cfg, s, k, act);
            && (k in s'.deliveries && s'.deliveries[k].phase.Ack? ==>
                  Held(cfg, s', JobIdOf(s, s.deliveries[k].entry), s'.deliveries[k].phase.written))
            && (act.SendAck? ==> s'.keys == s.keys)
            && (!act.SendAck? ==> s'.acked == s.acked)
  {
  }

  /** A worker on another entry. */
  lemma OtherWorkerKeepsHeld(cfg: Config, s: State, k: nat, act: WorkerAct, e: EntryId)
    requires Guarded(cfg, s, e) && CanWork(cfg, s, k, act) && s.deliveries[k].entry != e
    ensures ResultHeld(cfg, ApplyWorker(cfg, s, k, act), e)
  {
    var s', mine := ApplyWorker(cfg, s, k, act), s.deliveries[k].entry;
    WorkerFrame(cfg, s, k, act);
    WorkerPending(cfg, s, k, act);
    WorkerKeys(cfg, s, k, act);
    hide ApplyWorker, NextPhase, CanWork, Written, Earned, PhaseEarned, ResultHeld, MintedOnce;
    if e in s.acked {
      assert EntryAccounted(s, e);
    }
    forall j | Of(s', j, e)
      ensures Of(s, j, e) && s'.deliveries[j] == s.deliveries[j]
    {
      WorkerDeliveries(cfg, s, k, act, j, e);
    }
    if JobIdOf(s, e).Minted? {
      assert e < |s.payloads|;
      assert Of(s, k, mine);
      EntryInRange(s, mine);
      OwnersDiffer(cfg, s, e, mine);
    }
    OthersKeepHeld(cfg, s, s', e);
  }

  /** The worker on the entry itself: the only one, so nothing was acknowledged yet. */
  lemma OwnWorkerKeepsHeld(cfg: Config, s: State, k: nat, act: WorkerAct)
    requires CanWork(cfg, s, k, act) && Guarded(cfg, s, s.deliveries[k].entry)
    ensures ResultHeld(cfg, ApplyWorker(cfg, s, k, act), s.deliveries[k].entry)
  {
    var s', e := ApplyWorker(cfg, s, k, act), s.deliveries[k].entry;
    WorkerFrame(cfg, s, k, act);
    WorkerPending(cfg, s, k, act);
    FinishIsHeld(cfg, s, k, act);
    assert Of(s, k, e);
    EntryInRange(s, e);
    assert EntryAccounted(s, e);
    IdIsAdded(s, s', e);
    hide ApplyWorker, NextPhase, CanWork, Written, Earned, PhaseEarned, MintedOnce, JobIdOf, Accounted;
    forall j | Of(s', j, e)
      ensures j == k
    {
      WorkerDeliveries(cfg, s, k, act, j, e);
    }
  }

  lemma StepKeepsHeld(cfg: Config, s: State, step: Step, e: EntryId)
    requires cfg.exactXadd && Guarded(cfg, s, e) && Enabled(cfg, s, step)
    ensures ResultHeld(cfg, Apply(cfg, s, step), e)
  {
    var s' := Apply(cfg, s, step);
    hide ApplyProducer, ApplyWorker, ResultHeld, Accounted, MintedOnce, Exclusive, CanProduce, CanWork, JobIdOf;
    if step.Work? {
      if WorkedOn(cfg, s, step.k, step.work) == e {
        OwnWorkerKeepsHeld(cfg, s, step.k, step.work);
      } else {
        OtherWorkerKeepsHeld(cfg, s, step.k, step.work, e);
      }
    } else {
      if step.Produce? {
        ProducerFrame(cfg, s, step.n, step.act);
        ProducerKeys(cfg, s, step.n, step.act);
      }
      assert s.payloads <= s'.payloads;
      OthersKeepHeld(cfg, s, s', e);
    }
  }

  function WorkedOn(cfg: Config, s: State, k: nat, act: WorkerAct): EntryId
    requires CanWork(cfg, s, k, act)
  {
    s.deliveries[k].entry
  }

  /** No step of the run hands the entry out while an earlier delivery of it is running. */
  ghost predicate NeverOverlaps(cfg: Config, run: seq<Step>, e: EntryId) {
    forall n | 0 <= n < |run| && Exec(cfg, run[..n]).Some? :: NoOverlap(Exec(cfg, run[..n]).value, run[n], e)
  }

  /** The state before step `n` is the same in a prefix. */
  lemma SameBefore(cfg: Config, run: seq<Step>, n: nat)
    requires n + 1 < |run|
    ensures var before := run[..|run| - 1];
            before[n] == run[n] && Exec(cfg, before[..n]) == Exec(cfg, run[..n])
  {
    assert run[..|run| - 1][..n] == run[..n];
    hide Exec;
  }

  lemma PrefixNeverOverlaps(cfg: Config, run: seq<Step>, e: EntryId)
    requires run != [] && Exec(cfg, run).Some?
    ensures Exec(cfg, run[..|run| - 1]).Some?
    ensures var before := run[..|run| - 1];
            NeverOverlaps(cfg, run, e) <==>
              NeverOverlaps(cfg, before, e) && NoOverlap(Exec(cfg, before).value, run[|run| - 1], e)
  {
    assert Exec(cfg, run[..|run| - 1]).Some?;
    hide NoOverlap, Exec;
    forall n: nat | n + 1 < |run|
      ensures run[..|run| - 1][n] == run[n] && Exec(cfg, run[..|run| - 1][..n]) == Exec(cfg, run[..n])
    {
      SameBefore(cfg, run, n);
    }
  }

  lemma {:induction false} GuardedRuns(cfg: Config, run: seq<Step>, e: EntryId)
    requires cfg.exactXadd && NeverOverlaps(cfg, run, e)
    requires Exec(cfg, run).Some?
    ensures Guarded(cfg, Exec(cfg, run).value, e)
  {
    if run != [] {
      var s := Exec(cfg, run[..|run| - 1]).value;
      PrefixNeverOverlaps(cfg, run, e);
      hide NeverOverlaps;
      GuardedRuns(cfg, run[..|run| - 1], e);
      StepKeepsAccounted(cfg, s, run[|run| - 1]);
      StepKeepsMinted(cfg, s, run[|run| - 1]);
      StepKeepsExclusive(cfg, s, run[|run| - 1], e);
      StepKeepsHeld(cfg, s, run[|run| - 1], e);
    }
  }

  /** If an entry is never reclaimed while an earlier delivery of it is running, its result is
      kept, however long the deliveries run and whatever happens to other entries. */
  lemma KeptWithoutOverlap(cfg: Config, run: seq<Step>, e: EntryId)
    requires cfg.exactXadd && NeverOverlaps(cfg, run, e) && Exec(cfg, run).Some?
    ensures KeptFor(cfg, Exec(cfg, run).value, e)
  {
    GuardedRuns(cfg, run, e);
  }

  // ---------------------------------------------------------------- short deliveries never overlap

  ghost predicate Punctual(cfg: Config, s: State) {
    forall k | k in s.deliveries :: s.now <= s.deliveries[k].started + cfg.maxRun
  }

  lemma StepKeepsPunctual(cfg: Config, s: State, step: Step)
    requires Punctual(cfg, s) && Enabled(cfg, s, step)
    ensures Punctual(cfg, Apply(cfg, s, step))
  {
    if step.Work? {
      WorkerFrame(cfg, s, step.k, step.work);
    }
    if step.Produce? {
      ProducerFrame(cfg, s, step.n, step.act);
      SameNow(cfg, s, step.n, step.act);
    }
    hide ApplyWorker, ApplyProducer, NextPhase;
  }

  /** A delivery that ends within the visibility timeout is over before its entry can be
      reclaimed. */
  lemma {:induction false} ShortRunsNeverOverlap(cfg: Config, run: seq<Step>, e: EntryId)
    requires cfg.maxRun < cfg.visibility && Exec(cfg, run).Some?
    ensures NeverOverlaps(cfg, run, e) && Exclusive(Exec(cfg, run).value, e) && Punctual(cfg, Exec(cfg, run).value)
  {
    if run != [] {
      var s := Exec(cfg, run[..|run| - 1]).value;
      var step := run[|run| - 1];
      ShortRunsNeverOverlap(cfg, run[..|run| - 1], e);
      NothingIsLost(cfg, run[..|run| - 1]);
      PrefixNeverOverlaps(cfg, run, e);
      StepKeepsPunctual(cfg, s, step);
      hide NeverOverlaps, Accounted, Apply;
      assert NoOverlap(s, step, e);
      StepKeepsExclusive(cfg, s, step, e);
    }
  }

  // ---------------------------------------------------------------- runs that lose it

  lemma Overwrite<K, V>(k: K, a: V, b: V)
    ensures map[k := a][k := b] == map[k := b]
    ensures map[k := a] - {k} == map[]
    ensures map[][k := a] == map[k := a]
  {
  }

  /** One worker command, for a system whose only delivery is number 0 of entry 0. */
  lemma WorkAlone(cfg: Config, run: seq<Step>, s: State, v: Delivery, act: WorkerAct, next: WorkerPhase, was: Key)
    returns (run': seq<Step>, s': State)
    requires Exec(cfg, run) == Some(s) && CanWork(cfg, s, 0, act) && !act.SendAck?
    requires s.deliveries == map[0 := v] && s.keys == map[JobIdOf(s, v.entry) := was]
    requires NextPhase(cfg, s, 0, act) == Some(next)
    ensures Exec(cfg, run') == Some(s')
    ensures s' == WriteKey(cfg, s, JobIdOf(s, v.entry), Written(cfg, s, 0, act))
                  .(deliveries := map[0 := v.(phase := next)])
    ensures s'.keys == map[JobIdOf(s, v.entry) :=
                             if Written(cfg, s, 0, act).Some?
                             then Key(Written(cfg, s, 0, act).value, s.now + cfg.ttl) else was]
  {
    Overwrite(0, v, v.(phase := next));
    s' := Apply(cfg, s, Work(0, act));
    run' := Extend(cfg, run, s, Work(0, act), s');
  }

  /** A producer has set the marker and added entry 0, told so or not; a worker has fetched
      it and stands at `phase`. */
  function Working(cfg: Config, reply: Reply, phase: WorkerPhase, mark: Value): State {
    INIT.(payloads := [MintedJob(0)], stream := {0}, cursor := 1, pending := map[0 := 0],
          keys := map[Minted(0) := Key(mark, cfg.ttl)], claimed := if mark.QueuedMark? then {} else {Minted(0)},
          producers := if reply.Success? then map[] else map[0 := Cleaning], minted := 1, delivered := 1,
          deliveries := map[0 := Delivery(0, 0, phase)])
  }

  function AboutToWrite(cfg: Config, reply: Reply): State { Working(cfg, reply, Write(Shape(Good(""))), RunningMark) }

  lemma ReachMarked(cfg: Config) returns (run: seq<Step>, s: State)
    requires cfg.Valid()
    ensures Exec(cfg, run) == Some(s)
    ensures s == INIT.(minted := 1, producers := map[0 := Marked], keys := map[Minted(0) := Key(QueuedMark, cfg.ttl)])
  {
    assert Exec(cfg, []) == Some(INIT);
    hide Exec;
    var s1 := INIT.(minted := 1, producers := map[0 := Marking]);
    run := Extend(cfg, [], INIT, Mint, s1);
    Overwrite(0, Marking, Marked);
    s := s1.(producers := map[0 := Marked], keys := map[Minted(0) := Key(QueuedMark, cfg.ttl)]);
    run := Extend(cfg, run, s1, Produce(0, SetMarker(Success)), s);
  }

  lemma ReachAdded(cfg: Config, reply: Reply) returns (run: seq<Step>, s: State)
    requires cfg.Valid() && reply.Applied() && (cfg.exactXadd ==> reply.Success?)
    ensures Exec(cfg, run) == Some(s)
    ensures s == INIT.(payloads := [MintedJob(0)], stream := {0}, minted := 1,
                       producers := if reply.Success? then map[] else map[0 := Cleaning],
                       keys := map[Minted(0) := Key(QueuedMark, cfg.ttl)])
  {
    var s1;
    run, s1 := ReachMarked(cfg);
    hide Exec;
    Overwrite(0, Marked, Cleaning);
    s := ApplyAdd(s1, 0, reply);
    run := Extend(cfg, run, s1, Produce(0, AddEntry(reply)), s);
    assert [] + [MintedJob(0)] == [MintedJob(0)];
  }

  lemma ReachParsed(cfg: Config, reply: Reply) returns (run: seq<Step>)
    requires cfg.Valid() && reply.Applied() && (cfg.exactXadd ==> reply.Success?)
    ensures Exec(cfg, run) == Some(Working(cfg, reply, Mark, QueuedMark))
  {
    var s;
    run, s := ReachAdded(cfg, reply);
    hide Exec;
    run := Extend(cfg, run, s, Read(0), Working(cfg, reply, Parse, QueuedMark));
    var v := Delivery(0, 0, Parse);
    run, s := WorkAlone(cfg, run, Working(cfg, reply, Parse, QueuedMark), v, ParseJob, Mark, Key(QueuedMark, cfg.ttl));
  }

  lemma ReachWrite(cfg: Config, reply: Reply) returns (run: seq<Step>, s: State)
    requires cfg.Valid() && reply.Applied() && (cfg.exactXadd ==> reply.Success?)
    ensures Exec(cfg, run) == Some(s) && s == AboutToWrite(cfg, reply)
  {
    run := ReachParsed(cfg, reply);
    hide Exec;
    var v := Delivery(0, 0, Mark);
    run, s := WorkAlone(cfg, run, Working(cfg, reply, Mark, QueuedMark), v, MarkRunning(Success), Capture(0),
                        Key(QueuedMark, cfg.ttl));
    assert s == Working(cfg, reply, Capture(0), RunningMark);
    run, s := WorkAlone(cfg, run, s, v.(phase := Capture(0)), Attempt(Good("")), Write(Shape(Good(""))),
                        Key(RunningMark, cfg.ttl));
  }

  /** The entry is acknowledged, and its producer about to clean up. */
  lemma ReachAckedCleaning(cfg: Config) returns (run: seq<Step>, s: State)
    requires cfg.Valid() && !cfg.exactXadd
    ensures Exec(cfg, run) == Some(s) && s.payloads == [MintedJob(0)] && s.now == 0
    ensures s.producers == map[0 := Cleaning] && 0 in s.acked && s.acked[0] == Finished(0)
  {
    run, s := ReachWrite(cfg, Lost(true));
    hide Exec;
    var v := s.deliveries[0];
    run, s := WorkAlone(cfg, run, s, v, WriteResult(Success), Ack(0), Key(RunningMark, cfg.ttl));
    var s1 := Apply(cfg, s, Work(0, SendAck(AckOnly)));
    run := Extend(cfg, run, s, Work(0, SendAck(AckOnly)), s1);
    s := s1;
  }

  /** XADD took effect but was reported as failed: the producer's clean-up deletes the result. */
  lemma CleanupLosesResult(cfg: Config) returns (run: seq<Step>)
    requires cfg.Valid() && !cfg.exactXadd
    ensures Exec(cfg, run).Some? && !Kept(cfg, Exec(cfg, run).value)
  {
    var s;
    run, s := ReachAckedCleaning(cfg);
    hide Exec;
    var s' := Apply(cfg, s, Produce(0, DeleteMarker(Success)));
    run := Extend(cfg, run, s, Produce(0, DeleteMarker(Success)), s');
    assert !KeptFor(cfg, s', 0);
  }

  /** A delivery that outlives the visibility timeout is reclaimed while it still runs;
      the second delivery's `running` marker then replaces the acknowledged result. */
  lemma ReclaimLosesResult(cfg: Config) returns (run: seq<Step>)
    requires cfg.Valid() && cfg.maxRun >= cfg.visibility
    ensures Exec(cfg, run).Some? && !Kept(cfg, Exec(cfg, run).value)
  {
    var s;
    run, s := AckedWhileReclaimed(cfg);
    hide Exec;
    var s1 := Apply(cfg, s, Work(1, ParseJob));
    run := Extend(cfg, run, s, Work(1, ParseJob), s1);
    var s2 := Apply(cfg, s1, Work(1, MarkRunning(Success)));
    run := Extend(cfg, run, s1, Work(1, MarkRunning(Success)), s2);
    assert s2.keys[Minted(0)] == Key(RunningMark, cfg.visibility + cfg.ttl);
    assert !KeptFor(cfg, s2, 0);
  }

  /** Entry 0 is handed out again while its first delivery is about to write. */
  function Reclaimed(cfg: Config): State { Deliver(AboutToWrite(cfg, Success).(now := cfg.visibility), 0) }

  lemma ReachReclaimed(cfg: Config) returns (run: seq<Step>)
    requires cfg.Valid() && cfg.maxRun >= cfg.visibility
    ensures Exec(cfg, run) == Some(Reclaimed(cfg))
  {
    var s;
    run, s := ReachWrite(cfg, Success);
    hide Exec;
    var s1 := s.(now := cfg.visibility);
    run := Extend(cfg, run, s, Tick(cfg.visibility), s1);
    run := Extend(cfg, run, s1, Reclaim(0), Reclaimed(cfg));
  }

  /** Then the first delivery writes and acknowledges. */
  lemma AckedWhileReclaimed(cfg: Config) returns (run: seq<Step>, s: State)
    requires cfg.Valid() && cfg.maxRun >= cfg.visibility
    ensures Exec(cfg, run) == Some(s)
    ensures s.now == cfg.visibility && s.payloads == [MintedJob(0)]
    ensures 1 in s.deliveries && s.deliveries[1] == Delivery(0, cfg.visibility, Parse)
    ensures 0 in s.acked && s.acked[0] == Finished(cfg.visibility)
  {
    run := ReachReclaimed(cfg);
    hide Exec;
    var s2 := Reclaimed(cfg);
    assert s2.deliveries == map[0 := Delivery(0, 0, Write(Shape(Good("")))), 1 := Delivery(0, cfg.visibility, Parse)];
    var s3 := ApplyWorker(cfg, s2, 0, WriteResult(Success));
    run := Extend(cfg, run, s2, Work(0, WriteResult(Success)), s3);
    s := ApplyWorker(cfg, s3, 0, SendAck(AckOnly));
    run := Extend(cfg, run, s3, Work(0, SendAck(AckOnly)), s);
  }

  ghost predicate KeptInEveryRun(cfg: Config) {
    forall run | Exec(cfg, run).Some? :: Kept(cfg, Exec(cfg, run).value)
  }

  lemma KeptExactlyWhen(cfg: Config)
    requires cfg.Valid()
    ensures KeptInEveryRun(cfg) <==> cfg.maxRun < cfg.visibility && cfg.exactXadd
  {
    if cfg.maxRun >= cfg.visibility {
      var run := ReclaimLosesResult(cfg);
    } else if !cfg.exactXadd {
      var run := CleanupLosesResult(cfg);
    } else {
      forall run | Exec(cfg, run).Some?
        ensures Kept(cfg, Exec(cfg, run).value)
      {
        forall e
          ensures KeptFor(cfg, Exec(cfg, run).value, e)
        {
          ShortRunsNeverOverlap(cfg, run, e);
          KeptWithoutOverlap(cfg, run, e);
        }
      }
    }
  }
}
