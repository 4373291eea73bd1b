/** Which instances can still be drained to zero, and what a cancelled checkout does to
    that. */
module PoolDrains {
  import opened Wrappers
  import opened BrowserPool

  /** The next load of the drain loop reads zero and ends the drain. */
  ghost predicate ReadsZero(s: State, i: nat) {
    i < |s.insts| && s.insts[i].manager == DrainLoop && s.insts[i].inFlight == 0
  }

  /** Some way for the run to go on has a drain of the instance read zero. */
  ghost predicate CanDrain(cfg: Config, run: seq<Step>, i: nat) {
    exists run' | run <= run' && Exec(cfg, run').Some? :: ReadsZero(Exec(cfg, run').value, i)
  }

  // ---------------------------------------------------------------- a leak is for good

  lemma StepKeepsLeaks(cfg: Config, s: State, step: Step, i: nat)
    requires Enabled(cfg, s, step) && i < |s.insts|
    ensures var s' := Apply(cfg, s, step);
            i < |s'.insts| && s.insts[i].leaked <= s'.insts[i].leaked
  {
  }

  /** The count of cancelled callers never goes down. */
  lemma {:induction false} LeaksStay(cfg: Config, run: seq<Step>, run': seq<Step>, i: nat)
    requires run <= run' && Exec(cfg, run').Some? && i < cfg.size
    ensures Exec(cfg, run).Some?
    ensures var (s, s') := (Exec(cfg, run).value, Exec(cfg, run').value);
            |s.insts| == |s'.insts| == cfg.size && s.insts[i].leaked <= s'.insts[i].leaked
    decreases |run'|
  {
    EveryRunIsSound(cfg, run');
    if run != run' {
      var before := run'[..|run'| - 1];
      assert Exec(cfg, before).Some?;
      LeaksStay(cfg, run, before, i);
      StepKeepsLeaks(cfg, Exec(cfg, before).value, run'[|run'| - 1], i);
    } else {
      assert run' == run;
    }
  }

  lemma LeakBlocksDrain(cfg: Config, run: seq<Step>, i: nat)
    requires Exec(cfg, run).Some? && i < cfg.size && |Exec(cfg, run).value.insts| == cfg.size && CanDrain(cfg, run, i)
    ensures Exec(cfg, run).value.insts[i].leaked == 0
  {
    var run' :| run <= run' && Exec(cfg, run').Some? && ReadsZero(Exec(cfg, run').value, i);
    LeaksStay(cfg, run, run', i);
    EveryRunIsSound(cfg, run');
    assert Balanced(cfg, Exec(cfg, run').value, i);
  }

  // ---------------------------------------------------------------- freeing the token

  /** Only instance `j` has changed, and none of its leaks. */
  ghost predicate OnlyChanged(s: State, s': State, j: nat) {
    && j < |s.insts| == |s'.insts|
    && s'.insts == s.insts[j := s'.insts[j]] && s'.insts[j].leaked == s.insts[j].leaked
  }

  function HolderRank(phase: Phase): nat
    requires HasToken(phase)
  {
    match phase
    case DrainLoop => 4
    case Replacing => 3
    case Swapped => 2
    case ServedReset => 1
    case _ => 0
  }

  function HolderAct(phase: Phase): ManagerAct
    requires HasToken(phase)
  {
    match phase
    case DrainLoop => LoadInFlight(true)
    case Replacing => Swap
    case Swapped => ResetServed
    case ServedReset => SetActive
    case _ => DropToken
  }

  lemma HolderStep(cfg: Config, s: State, j: nat)
    requires j < |s.insts| && HasToken(s.insts[j].manager)
    ensures var (phase, step) := (s.insts[j].manager, Run(j, HolderAct(s.insts[j].manager)));
            && Enabled(cfg, s, step)
            && var s' := Apply(cfg, s, step);
               && OnlyChanged(s, s', j) && s'.callers == s.callers
               && (if phase == Finishing then s'.insts[j].manager == Waiting && s'.token == s.token + 1
                   else
                     && HasToken(s'.insts[j].manager) && HolderRank(s'.insts[j].manager) < HolderRank(phase)
                     && s'.token == s.token)
  {
  }

  /** The holder of the token replaces its browser and gives the token back; no drain can
      stop it for longer than its timeout. */
  lemma {:induction false} RunHolder(cfg: Config, run: seq<Step>, s: State, j: nat) returns (run': seq<Step>, s': State)
    requires Exec(cfg, run) == Some(s) && j < |s.insts| && HasToken(s.insts[j].manager)
    ensures run <= run' && Exec(cfg, run') == Some(s')
    ensures OnlyChanged(s, s', j) && s'.insts[j].manager == Waiting && s'.token == s.token + 1
      && s'.callers == s.callers
    decreases HolderRank(s.insts[j].manager)
  {
    HolderStep(cfg, s, j);
    hide Exec, Enabled, Apply, HolderRank, HolderAct, HasToken;
    run', s' := TakeStep(cfg, run, s, Run(j, HolderAct(s.insts[j].manager)));
    if s.insts[j].manager != Finishing {
      run', s' := RunHolder(cfg, run', s', j);
    }
  }

  lemma FreeToken(cfg: Config, run: seq<Step>, s: State, i: nat) returns (run': seq<Step>, s': State)
    requires Exec(cfg, run) == Some(s) && i < |s.insts| && !HasToken(s.insts[i].manager)
    ensures run <= run' && Exec(cfg, run') == Some(s')
    ensures |s'.insts| == |s.insts| && s'.insts[i] == s.insts[i] && s'.token > 0
  {
    EveryRunIsSound(cfg, run);
    hide Exec;
    if s.token > 0 {
      run', s' := run, s;
    } else {
      var j: nat :| j in TokenHolders(s);
      run', s' := RunHolder(cfg, run, s, j);
    }
  }

  // ---------------------------------------------------------------- getting to the drain loop

  function Distance(phase: Phase): nat {
    match phase
    case DrainLoop => 0
    case NeedsToken(reason) => if reason == Crash then 8 else 1
    case Triggered(why) => if why == Crash then 9 else 2
    case Waiting => 3
    case Rechecking => 4
    case Finishing => 4
    case ServedReset => 5
    case Swapped => 6
    case Replacing => 7
  }

  function TowardsDrain(phase: Phase): ManagerAct {
    if HasToken(phase) then HolderAct(phase)
    else if phase.NeedsToken? then TakeToken
    else if phase.Triggered? then LeaveActive
    else if phase == Waiting then Trigger(Age)
    else LoadServed
  }

  lemma StepTowardsDrain(cfg: Config, s: State, i: nat)
    requires i < |s.insts| && s.insts[i].manager != DrainLoop && (s.insts[i].manager.NeedsToken? ==> s.token > 0)
    ensures var step := Run(i, TowardsDrain(s.insts[i].manager));
            && Enabled(cfg, s, step)
            && var s' := Apply(cfg, s, step);
               OnlyChanged(s, s', i) && Distance(s'.insts[i].manager) < Distance(s.insts[i].manager)
  {
  }

  lemma {:induction false} ToDrainLoop(cfg: Config, run: seq<Step>, s: State, i: nat)
    returns (run': seq<Step>, s': State)
    requires Exec(cfg, run) == Some(s) && i < |s.insts|
    ensures run <= run' && Exec(cfg, run') == Some(s')
    ensures |s'.insts| == |s.insts| && s'.insts[i].manager == DrainLoop && s'.insts[i].leaked == s.insts[i].leaked
    decreases Distance(s.insts[i].manager)
  {
    hide Exec, Enabled, Apply, Distance, TowardsDrain;
    run', s' := run, s;
    if s.insts[i].manager != DrainLoop {
      if s.insts[i].manager.NeedsToken? {
        run', s' := FreeToken(cfg, run, s, i);
      }
      StepTowardsDrain(cfg, s', i);
      run', s' := TakeStep(cfg, run', s', Run(i, TowardsDrain(s'.insts[i].manager)));
      run', s' := ToDrainLoop(cfg, run', s', i);
    }
  }

  // ---------------------------------------------------------------- letting the checkouts end

  lemma FlyingStep(cfg: Config, s: State, i: nat, c: nat, act: Act)
    requires i < |s.insts| && c in Flying(s, i)
    requires act == if s.callers[c].stage.Counted? then ReadHandle else Decrement
    ensures Enabled(cfg, s, Call(c, act))
    ensures var s' := Apply(cfg, s, Call(c, act));
            && OnlyChanged(s, s', i) && s'.insts[i].manager == s.insts[i].manager
            && Flying(s', i) == (if act == ReadHandle then Flying(s, i) else Flying(s, i) - {c})
            && (act == ReadHandle ==> s'.callers[c].stage.Live?)
  {
  }

  lemma {:induction false} LetThemEnd(cfg: Config, run: seq<Step>, s: State, i: nat)
    returns (run': seq<Step>, s': State)
    requires Exec(cfg, run) == Some(s) && i < |s.insts|
    ensures run <= run' && Exec(cfg, run') == Some(s')
    ensures |s'.insts| == |s.insts| && s'.insts[i].manager == s.insts[i].manager
      && s'.insts[i].leaked == s.insts[i].leaked
    ensures Flying(s', i) == {}
    decreases |Flying(s, i)|
  {
    run', s' := run, s;
    hide Exec, Enabled, Apply, InFlight;
    if Flying(s, i) != {} {
      var c :| c in Flying(s, i);
      if s.callers[c].stage.Counted? {
        FlyingStep(cfg, s, i, c, ReadHandle);
        run', s' := TakeStep(cfg, run, s, Call(c, ReadHandle));
      }
      FlyingStep(cfg, s', i, c, Decrement);
      hide Flying;
      run', s' := TakeStep(cfg, run', s', Call(c, Decrement));
      run', s' := LetThemEnd(cfg, run', s', i);
    }
  }

  lemma DrainIsReached(cfg: Config, run: seq<Step>, i: nat)
    requires Exec(cfg, run).Some? && i < cfg.size && |Exec(cfg, run).value.insts| == cfg.size
    requires Exec(cfg, run).value.insts[i].leaked == 0
    ensures CanDrain(cfg, run, i)
  {
    var run', s' := ToDrainLoop(cfg, run, Exec(cfg, run).value, i);
    run', s' := LetThemEnd(cfg, run', s', i);
    EveryRunIsSound(cfg, run');
    assert Balanced(cfg, s', i);
    assert ReadsZero(Exec(cfg, run').value, i);
  }

  /** In every reachable state an instance can still be drained to zero if and only if no
      caller was ever cancelled between being counted and getting its handle. */
  lemma DrainsExactlyWhen(cfg: Config, run: seq<Step>, i: nat)
    requires Exec(cfg, run).Some? && i < cfg.size
    ensures |Exec(cfg, run).value.insts| == cfg.size
    ensures CanDrain(cfg, run, i) <==> Exec(cfg, run).value.insts[i].leaked == 0
  {
    EveryRunIsSound(cfg, run);
    if CanDrain(cfg, run, i) {
      LeakBlocksDrain(cfg, run, i);
    } else if Exec(cfg, run).value.insts[i].leaked == 0 {
      DrainIsReached(cfg, run, i);
    }
  }

  // ---------------------------------------------------------------- cancelled runs

  /** A first caller has its permit, and has found the instance still Active. */
  lemma AdmittedRun(cfg: Config) returns (run: seq<Step>, s: State)
    requires cfg.size > 0 && cfg.pages > 0
    ensures Exec(cfg, run) == Some(s) && |s.insts| == cfg.size && s.insts[cfg.size - 1].leaked == 0
    ensures exists now :: s.callers == map[0 := At(cfg.size - 1, Checked(now))]
  {
    assert Exec(cfg, []) == Some(Init(cfg));
    run, s := TakeStep(cfg, [], Init(cfg), Arrive);
    assert forall i | 0 <= i < |s.insts| :: s.insts[i] == Fresh(cfg);
    ScannedIdle(s.insts, cfg.pages, cfg.size);
    run, s := QuietScan(cfg, run, s, 0, cfg.size);
    hide Exec, Scanned;
    run, s := TakeStep(cfg, run, s, Pick(0));
    run, s := TakeStep(cfg, run, s, Call(0, Acquire));
    assert s.callers == map[0 := At(cfg.size - 1, Permitted(0))];
    run, s := TakeStep(cfg, run, s, Call(0, Recheck));
    assert s.callers == map[0 := At(cfg.size - 1, Checked(s.now - 1))];
  }

  /** A caller is cancelled while it waits for the browser handle. */
  lemma CancelledRun(cfg: Config) returns (run: seq<Step>, s: State)
    requires cfg.size > 0 && cfg.pages > 0
    ensures Exec(cfg, run) == Some(s) && run != [] && run[|run| - 1] == Call(0, Cancel)
    ensures |s.insts| == cfg.size && s.insts[cfg.size - 1].leaked == 1 && s.callers == map[]
  {
    run, s := AdmittedRun(cfg);
    hide Exec;
    run, s := TakeStep(cfg, run, s, Call(0, Increment));
    run, s := TakeStep(cfg, run, s, Call(0, Cancel));
  }

  /** Without pages no caller gets past the queue. */
  ghost predicate NoneAdmitted(s: State) {
    && (forall c | c in s.callers ::
          if s.callers[c].At? then s.callers[c].stage == Queued(0) else s.callers[c].tries == 0)
    && (forall i | 0 <= i < |s.insts| :: s.insts[i].leaked == 0 && s.insts[i].free == 0)
  }

  lemma {:induction false} NoPagesNoneAdmitted(cfg: Config, run: seq<Step>)
    requires cfg.pages == 0 && Exec(cfg, run).Some?
    ensures NoneAdmitted(Exec(cfg, run).value)
  {
    if run != [] {
      NoPagesNoneAdmitted(cfg, run[..|run| - 1]);
      StepAdmitsNone(cfg, Exec(cfg, run[..|run| - 1]).value, run[|run| - 1]);
    }
  }

  lemma StepAdmitsNone(cfg: Config, s: State, step: Step)
    requires NoneAdmitted(s) && Enabled(cfg, s, step)
    ensures NoneAdmitted(Apply(cfg, s, step))
  {
  }

  ghost predicate AlwaysDrains(cfg: Config) {
    forall run, i: nat | Exec(cfg, run).Some? && i < cfg.size :: CanDrain(cfg, run, i)
  }

  /** A pool that serves anyone can be brought to a state in which some instance never drains
      clean again. */
  lemma AlwaysDrainsExactlyWhen(cfg: Config)
    ensures AlwaysDrains(cfg) <==> cfg.size == 0 || cfg.pages == 0
  {
    if cfg.size > 0 && cfg.pages > 0 {
      var run, s := CancelledRun(cfg);
      DrainsExactlyWhen(cfg, run, cfg.size - 1);
    } else {
      forall run, i: nat | Exec(cfg, run).Some? && i < cfg.size
        ensures CanDrain(cfg, run, i)
      {
        NoPagesNoneAdmitted(cfg, run);
        DrainsExactlyWhen(cfg, run, i);
      }
    }
  }
}
