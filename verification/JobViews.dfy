/** What polling a job is served, from the writes to its key alone. */
module JobViews {
  import opened Wrappers
  import opened JobResults
  import opened JobQueue

  // ---------------------------------------------------------------- the last write

  datatype Write = Submitted | Began | Ended(result: JobResult)

  datatype Stamp = Stamp(write: Write, at: nat)

  /** What one step writes under the key of `id`; `None` for no write, `Some(None)` when it
      deletes the key. */
  ghost function WriteOf(cfg: Config, s: State, step: Step, id: JobId): Option<Option<Stamp>>
    requires Enabled(cfg, s, step)
  {
    match step
    case Produce(n, SetMarker(reply)) =>
      if id == Minted(n) && reply.Applied() && Lookup(s, id).None? then Some(Some(Stamp(Submitted, s.now))) else None
    case Produce(n, DeleteMarker(reply)) => if id == Minted(n) && reply.Applied() then Some(None) else None
    case Work(k, MarkRunning(reply)) =>
      if id == JobIdOf(s, s.deliveries[k].entry) && reply.Applied() then Some(Some(Stamp(Began, s.now))) else None
    case Work(k, WriteResult(reply)) =>
      if id == JobIdOf(s, s.deliveries[k].entry) && reply.Applied() then
        Some(Some(Stamp(Ended(s.deliveries[k].phase.result), s.now)))
      else None
    case _ => None
  }

  /** The last write of a run to the key of `id`; `None` if there was none, or it was deleted since. */
  ghost function LastWrite(cfg: Config, run: seq<Step>, id: JobId): Option<Stamp>
    requires Exec(cfg, run).Some?
  {
    if run == [] then None else
      var before, last := run[..|run| - 1], run[|run| - 1];
      var w := WriteOf(cfg, Exec(cfg, before).value, last, id);
      if w.Some? then w.value else LastWrite(cfg, before, id)
  }

  // ---------------------------------------------------------------- the key follows the writes

  function ValueOf(w: Write): Value {
    match w
    case Submitted => QueuedMark
    case Began => RunningMark
    case Ended(r) => Final(r)
  }

  ghost predicate KeyFits(cfg: Config, s: State, id: JobId, last: Option<Stamp>) {
    match last
    case None => id !in s.keys
    case Some(Stamp(w, at)) => id in s.keys && s.keys[id] == Key(ValueOf(w), at + cfg.ttl)
  }

  lemma WorkerWrites(cfg: Config, s: State, k: nat, act: WorkerAct, id: JobId, last: Option<Stamp>)
    requires CanWork(cfg, s, k, act) && KeyFits(cfg, s, id, last)
    ensures var w := WriteOf(cfg, s, Work(k, act), id);
            KeyFits(cfg, ApplyWorker(cfg, s, k, act), id, if w.Some? then w.value else last)
  {
    WorkerKeys(cfg, s, k, act);
    hide ApplyWorker, NextPhase;
  }

  lemma ProducerWrites(cfg: Config, s: State, n: nat, act: ProducerAct, id: JobId, last: Option<Stamp>)
    requires CanProduce(cfg, s, n, act) && KeyFits(cfg, s, id, last)
    ensures var w := WriteOf(cfg, s, Produce(n, act), id);
            KeyFits(cfg, ApplyProducer(cfg, s, n, act), id, if w.Some? then w.value else last)
  {
    hide Document;
  }

  lemma {:induction false} KeyFollows(cfg: Config, run: seq<Step>, id: JobId)
    requires Exec(cfg, run).Some?
    ensures KeyFits(cfg, Exec(cfg, run).value, id, LastWrite(cfg, run, id))
  {
    if run != [] {
      var before, step := run[..|run| - 1], run[|run| - 1];
      var s := Exec(cfg, before).value;
      KeyFollows(cfg, before, id);
      hide ApplyWorker, ApplyProducer, CanWork, CanProduce, KeyFits;
      match step
      case Work(k, act) => WorkerWrites(cfg, s, k, act, id, LastWrite(cfg, before, id));
      case Produce(n, act) => ProducerWrites(cfg, s, n, act, id, LastWrite(cfg, before, id));
      case _ => SameKeysFit(cfg, s, Exec(cfg, run).value, id, LastWrite(cfg, before, id));
    }
  }

  lemma SameKeysFit(cfg: Config, s: State, s': State, id: JobId, last: Option<Stamp>)
    requires KeyFits(cfg, s, id, last) && s'.keys == s.keys
    ensures KeyFits(cfg, s', id, last)
  {
  }

  // ---------------------------------------------------------------- what is served

  /** A result is served with its own fields, as done or failed. */
  ghost predicate FitsWrite(v: JobView, w: Write) {
    match w
    case Submitted => v == JobView(Queued, None, None, None)
    case Began => v == JobView(Running, None, None, None)
    case Ended(r) => v.status in {Done, Error} && v == JobView(v.status, Some(r.status), r.data, r.error)
  }

  /** In every run a job is served for a whole TTL after the last write to its key, and no
      longer: as queued after the producer's marker, as running after a worker's, as done or
      failed after a result. */
  lemma ServedExactly(cfg: Config, run: seq<Step>, id: JobId)
    requires Exec(cfg, run).Some?
    ensures var (v, last) := (Polled(Exec(cfg, run).value, id), LastWrite(cfg, run, id));
            && (v.Some? <==> last.Some? && Exec(cfg, run).value.now < last.value.at + cfg.ttl)
            && (v.Some? ==> FitsWrite(v.value, last.value.write))
  {
    KeyFollows(cfg, run, id);
    hide Exec, LastWrite;
    var last := LastWrite(cfg, run, id);
    if last.Some? && last.value.write.Ended? {
      TerminalWins(Encode(last.value.write.result), None);
    }
  }

  // ---------------------------------------------------------------- the order of a submit

  /** Its marker was confirmed, and its XADD reported as failed. */
  ghost predicate Marks(run: seq<Step>, n: nat) { Produce(n, SetMarker(Success)) in run }

  ghost predicate FailsToAdd(run: seq<Step>, n: nat) { exists x :: Produce(n, AddEntry(Lost(x))) in run }

  ghost predicate Ordered(run: seq<Step>, s: State, n: nat) {
    && (Added(s, n) || (n in s.producers && s.producers[n] != Marking) ==> Marks(run, n))
    && (n in s.producers && s.producers[n] == Cleaning ==> FailsToAdd(run, n))
  }

  lemma StillOrdered(run: seq<Step>, s: State, step: Step, s': State, n: nat)
    requires Ordered(run, s, n)
    requires Added(s', n) ==> Added(s, n) || Marks(run, n)
    requires n in s'.producers && s'.producers[n] != Marking ==>
               (n in s.producers && s.producers[n] == s'.producers[n])
               || (s'.producers[n] == Marked && step == Produce(n, SetMarker(Success)))
               || (s'.producers[n] == Cleaning && Marks(run, n) && exists x :: step == Produce(n, AddEntry(Lost(x))))
    ensures Ordered(run + [step], s', n)
  {
    if FailsToAdd(run, n) {
      var x :| Produce(n, AddEntry(Lost(x))) in run;
      assert Produce(n, AddEntry(Lost(x))) in run + [step];
    }
    if x :| step == Produce(n, AddEntry(Lost(x))) {
      assert Produce(n, AddEntry(Lost(x))) in run + [step];
    }
  }

  lemma ProduceOrdered(cfg: Config, run: seq<Step>, s: State, m: nat, act: ProducerAct, n: nat)
    requires Ordered(run, s, n) && CanProduce(cfg, s, m, act)
    ensures Ordered(run + [Produce(m, act)], ApplyProducer(cfg, s, m, act), n)
  {
    var s' := ApplyProducer(cfg, s, m, act);
    if act.AddEntry? {
      if act.xadd.Applied() {
        AppendAdds(s, MintedJob(m), s');
      } else {
        SameEntriesSameAdded(s, s');
      }
    } else {
      OnlyMarkers(cfg, s, m, act);
      SameEntriesSameAdded(s, s');
    }
    assert m == n && act.AddEntry? ==> s.producers[n] == Marked;
    hide Added, Lookup;
    StillOrdered(run, s, Produce(m, act), s', n);
  }

  lemma {:induction false} SubmitsInOrder(cfg: Config, run: seq<Step>, n: nat)
    requires Exec(cfg, run).Some?
    ensures Ordered(run, Exec(cfg, run).value, n)
  {
    if run != [] {
      var before, step := run[..|run| - 1], run[|run| - 1];
      var s, s' := Exec(cfg, before).value, Exec(cfg, run).value;
      SubmitsInOrder(cfg, before, n);
      assert run == before + [step];
      hide ApplyWorker, ApplyProducer, CanWork, CanProduce, Ordered, Added;
      match step {
        case Produce(m, act) =>
          ProduceOrdered(cfg, before, s, m, act, n);
        case Work(k, act) =>
          WorkerFrame(cfg, s, k, act);
          SameEntriesSameAdded(s, s');
          StillOrdered(before, s, step, s', n);
        case ForeignAdd(p) =>
          AppendAdds(s, p, s');
          StillOrdered(before, s, step, s', n);
        case _ =>
          SameEntriesSameAdded(s, s');
          StillOrdered(before, s, step, s', n);
      }
    }
  }

  /** No run adds an entry before its marker is confirmed, and none cleans a marker up unless
      its XADD was reported as failed. */
  lemma MarkerFirst(cfg: Config, run: seq<Step>, n: nat)
    requires Exec(cfg, run).Some?
    ensures var s := Exec(cfg, run).value;
            && ((exists e :: 0 <= e < |s.payloads| && s.payloads[e] == MintedJob(n)) ==>
                  Produce(n, SetMarker(Success)) in run)
            && (Enabled(cfg, s, Produce(n, DeleteMarker(Success))) ==> exists x :: Produce(n, AddEntry(Lost(x))) in run)
  {
    SubmitsInOrder(cfg, run, n);
  }

  /** A producer or a delivery can stop at any point of any run; all that Redis holds stays. */
  lemma AnyoneCanStop(cfg: Config, run: seq<Step>, n: nat, k: nat)
    requires Exec(cfg, run).Some?
    ensures var s := Exec(cfg, run).value;
            && (n in s.producers ==>
                  Exec(cfg, run + [Produce(n, Quit)]) == Some(s.(producers := s.producers - {n})))
            && (k in s.deliveries ==>
                  Exec(cfg, run + [Work(k, Crash)]) == Some(s.(deliveries := s.deliveries - {k})))
  {
    assert (run + [Produce(n, Quit)])[..|run|] == run;
    assert (run + [Work(k, Crash)])[..|run|] == run;
  }
}
