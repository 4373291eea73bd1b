/** When `checkout` fails, although it promises to only when no instance is active. */
module PoolErrors {
  import opened Wrappers
  import opened BrowserPool
  import opened PoolDrains

  ghost predicate NoneActive(s: State) { forall i | 0 <= i < |s.insts| :: s.insts[i].status != Active }

  /** Caller `c` is in its call, and no instance is Active. */
  ghost predicate OutageAt(cfg: Config, run: seq<Step>, c: nat) {
    Exec(cfg, run).Some? && c in Exec(cfg, run).value.callers && NoneActive(Exec(cfg, run).value)
  }

  /** At some moment of the call so far no instance was Active. */
  ghost predicate OutageSeen(cfg: Config, run: seq<Step>, c: nat) {
    exists n | 0 <= n <= |run| :: OutageAt(cfg, run[..n], c)
  }

  ghost predicate ErrMeansOutage(cfg: Config) {
    forall run, c | Exec(cfg, run).Some? && Enabled(cfg, Exec(cfg, run).value, GiveUp(c)) :: OutageSeen(cfg, run, c)
  }

  lemma OutageNow(cfg: Config, run: seq<Step>, c: nat)
    requires OutageAt(cfg, run, c)
    ensures OutageSeen(cfg, run, c)
  {
    assert run[..|run|] == run;
  }

  lemma OutageStays(cfg: Config, run: seq<Step>, c: nat)
    requires run != [] && OutageSeen(cfg, run[..|run| - 1], c)
    ensures OutageSeen(cfg, run, c)
  {
    var k := |run| - 1;
    var n :| 0 <= n <= k && OutageAt(cfg, run[..k][..n], c);
    assert run[..k][..n] == run[..n];
  }

  // ---------------------------------------------------------------- a pool of one

  /** The caller has seen an instance out, and nothing better. */
  predicate Suspects(caller: Caller) {
    match caller
    case Choosing(tries, scan) => tries > 0 || (scan.next > 0 && scan.best.None?)
    case At(_, Queued(tries)) => tries > 0
    case At(_, Permitted(tried)) => tried > 0
    case _ => false
  }

  /** Someone who begins to suspect has just looked at an instance that is out. */
  lemma SuspectsAfterOutage(cfg: Config, s: State, step: Step, c: nat)
    requires Accounted(cfg, s) && cfg.size == 1 && Enabled(cfg, s, step)
    requires var s' := Apply(cfg, s, step); c in s'.callers && Suspects(s'.callers[c])
    ensures c in s.callers && (Suspects(s.callers[c]) || NoneActive(s))
  {
    hide Balanced;
  }

  lemma {:induction false} SuspectsSaw(cfg: Config, run: seq<Step>, c: nat)
    requires cfg.size == 1 && Exec(cfg, run).Some?
    requires var s := Exec(cfg, run).value; c in s.callers && Suspects(s.callers[c])
    ensures OutageSeen(cfg, run, c)
  {
    if run != [] {
      var before := run[..|run| - 1];
      var s := Exec(cfg, before).value;
      EveryRunIsSound(cfg, before);
      SuspectsAfterOutage(cfg, s, run[|run| - 1], c);
      hide Apply, Enabled, Accounted, Serialized, WakesKept, History;
      if Suspects(s.callers[c]) {
        SuspectsSaw(cfg, before, c);
      } else {
        OutageNow(cfg, before, c);
      }
      OutageStays(cfg, run, c);
    }
  }

  lemma SmallPoolsKeepPromise(cfg: Config, run: seq<Step>, c: nat)
    requires cfg.size <= 1 && Exec(cfg, run).Some? && Enabled(cfg, Exec(cfg, run).value, GiveUp(c))
    ensures OutageSeen(cfg, run, c)
  {
    EveryRunIsSound(cfg, run);
    hide Exec, Serialized, WakesKept, History;
    if cfg.size == 1 {
      SuspectsSaw(cfg, run, c);
    } else {
      OutageNow(cfg, run, c);
    }
  }

  // ---------------------------------------------------------------- two instances taking turns

  /** One more step that leaves an instance up. */
  lemma StepUp(cfg: Config, run: seq<Step>, s: State, step: Step, c: nat, up: nat) returns (run': seq<Step>, s': State)
    requires Exec(cfg, run) == Some(s) && Enabled(cfg, s, step) && !OutageSeen(cfg, run, c)
    requires up < |Apply(cfg, s, step).insts| && Apply(cfg, s, step).insts[up].status == Active
    ensures s' == Apply(cfg, s, step) && Exec(cfg, run') == Some(s') && !OutageSeen(cfg, run', c)
  {
    run', s' := TakeStep(cfg, run, s, step);
    hide Exec, Apply, Enabled;
    forall n | 0 <= n <= |run'|
      ensures !OutageAt(cfg, run'[..n], c)
    {
      if n <= |run| {
        assert run'[..n] == run[..n];
      } else {
        assert run'[..n] == run';
      }
    }
  }

  lemma {:induction false} NobodyYet(cfg: Config, run: seq<Step>, c: nat)
    requires Exec(cfg, run).Some? && Exec(cfg, run).value.arrived <= c
    ensures !OutageSeen(cfg, run, c)
  {
    EveryRunIsSound(cfg, run);
    assert c !in Exec(cfg, run).value.callers;
    if run != [] {
      var k := |run| - 1;
      NobodyYet(cfg, run[..k], c);
      hide Exec, Accounted, Serialized, WakesKept, History;
      forall n | 0 <= n <= |run|
        ensures !OutageAt(cfg, run[..n], c)
      {
        if n <= k {
          assert run[..k][..n] == run[..n];
        } else {
          assert run[..n] == run;
        }
      }
    }
  }

  /** A step of manager `i`, with `up` in service afterwards. */
  lemma ManageUp(cfg: Config, run: seq<Step>, s: State, i: nat, act: ManagerAct, up: nat)
    returns (run': seq<Step>, s': State)
    requires Exec(cfg, run) == Some(s) && !OutageSeen(cfg, run, 0)
    requires i < |s.insts| && up < |s.insts| && CanManage(cfg, s.token, s.insts[i], act)
    requires if up == i then act == SetActive else s.insts[up].status == Active
    ensures Exec(cfg, run') == Some(s') && !OutageSeen(cfg, run', 0)
    ensures s'.insts == s.insts[i := Manage(cfg, s.now, s.token, s.insts[i], act)] && s'.callers == s.callers
    ensures !act.TakeToken? && !act.DropToken? ==> s'.token == s.token
  {
    hide Exec, OutageSeen;
    run', s' := StepUp(cfg, run, s, Run(i, act), 0, up);
  }

  /** A first caller has arrived, with only instance 1 up. */
  lemma OnlyOneUp(cfg: Config) returns (run: seq<Step>, s: State)
    requires cfg.size >= 2
    ensures Exec(cfg, run) == Some(s) && !OutageSeen(cfg, run, 0) && |s.insts| == cfg.size && s.token == 1
    ensures s.callers == map[0 := Choosing(0, FIRST_LOOK)]
    ensures s.insts[0].manager == NeedsToken(Crash) && s.insts[0].status != Active && s.insts[1] == Fresh(cfg)
    ensures forall i | 2 <= i < cfg.size :: s.insts[i].status != Active
  {
    run, s := EveryInstanceCanBeOut(cfg, Crash, cfg.size, 1);
    NobodyYet(cfg, run, 0);
    hide Exec, OutageSeen;
    run, s := StepUp(cfg, run, s, Arrive, 0, 1);
  }

  /** The scan passes over an instance that is out, with another one up. */
  lemma PassOver(cfg: Config, run: seq<Step>, s: State, k: nat, up: nat) returns (run': seq<Step>, s': State)
    requires Exec(cfg, run) == Some(s) && !OutageSeen(cfg, run, 0) && k < |s.insts| && up < |s.insts|
    requires s.callers == map[0 := Choosing(0, Scan(k, false, None))]
    requires s.insts[k].status != Active && s.insts[up].status == Active
    ensures Exec(cfg, run') == Some(s') && !OutageSeen(cfg, run', 0)
    ensures (s'.insts, s'.token) == (s.insts, s.token) && s'.callers == map[0 := Choosing(0, Scan(k + 1, false, None))]
  {
    hide Exec, OutageSeen;
    run', s' := StepUp(cfg, run, s, LoadStatus(0), 0, up);
  }

  /** While only instance 1 is up the scan passes over instance 0, which is being replaced. */
  ghost predicate FirstPassed(cfg: Config, run: seq<Step>, s: State, phase: Phase) {
    && Exec(cfg, run) == Some(s) && !OutageSeen(cfg, run, 0) && |s.insts| == cfg.size >= 2
    && s.callers == map[0 := Choosing(0, Scan(1, false, None))]
    && s.insts[0].manager == phase && s.insts[1] == Fresh(cfg)
    && forall i | 2 <= i < cfg.size :: s.insts[i].status != Active
  }

  lemma FirstTaken(cfg: Config) returns (run: seq<Step>, s: State)
    requires cfg.size >= 2
    ensures FirstPassed(cfg, run, s, Replacing)
  {
    run, s := OnlyOneUp(cfg);
    hide Exec, OutageSeen, Apply, Enabled;
    run, s := PassOver(cfg, run, s, 0, 1);
    run, s := ManageUp(cfg, run, s, 0, TakeToken, 1);
  }

  lemma FirstReplaced(cfg: Config, run: seq<Step>, s: State, act: ManagerAct, phase: Phase, next: Phase)
    returns (run': seq<Step>, s': State)
    requires FirstPassed(cfg, run, s, phase)
    requires (act, phase, next) in {(Swap, Replacing, Swapped), (ResetServed, Swapped, ServedReset)}
    ensures FirstPassed(cfg, run', s', next)
  {
    hide Exec, OutageSeen, Apply, Enabled;
    run', s' := ManageUp(cfg, run, s, 0, act, 1);
  }

  /** Then instance 0 comes back. */
  lemma FirstIsBack(cfg: Config) returns (run: seq<Step>, s: State)
    requires cfg.size >= 2
    ensures FirstPassed(cfg, run, s, Finishing) && s.insts[0].status == Active
  {
    run, s := FirstTaken(cfg);
    run, s := FirstReplaced(cfg, run, s, Swap, Replacing, Swapped);
    run, s := FirstReplaced(cfg, run, s, ResetServed, Swapped, ServedReset);
    hide Exec, OutageSeen, Apply, Enabled;
    run, s := ManageUp(cfg, run, s, 0, SetActive, 1);
  }

  /** And instance 1 leaves. */
  lemma SecondIsOut(cfg: Config) returns (run: seq<Step>, s: State)
    requires cfg.size >= 2
    ensures Exec(cfg, run) == Some(s) && !OutageSeen(cfg, run, 0) && |s.insts| == cfg.size
    ensures s.callers == map[0 := Choosing(0, Scan(1, false, None))]
    ensures s.insts[0].status == Active && forall i | 1 <= i < cfg.size :: s.insts[i].status != Active
  {
    run, s := FirstIsBack(cfg);
    hide Exec, OutageSeen, Apply, Enabled;
    run, s := ManageUp(cfg, run, s, 1, Trigger(Crash), 0);
    run, s := ManageUp(cfg, run, s, 1, LeaveActive, 0);
  }

  /** And the scan goes on over instances that are out when it looks. */
  lemma {:induction false} LookedAtAll(cfg: Config, k: nat) returns (run: seq<Step>, s: State)
    requires cfg.size >= 2 && 1 <= k <= cfg.size
    ensures Exec(cfg, run) == Some(s) && !OutageSeen(cfg, run, 0) && |s.insts| == cfg.size
    ensures s.callers == map[0 := Choosing(0, Scan(k, false, None))]
    ensures s.insts[0].status == Active && forall i | 1 <= i < cfg.size :: s.insts[i].status != Active
  {
    if k == 1 {
      run, s := SecondIsOut(cfg);
    } else {
      run, s := LookedAtAll(cfg, k - 1);
      hide Exec, OutageSeen;
      run, s := PassOver(cfg, run, s, k - 1, 0);
    }
  }

  /** A checkout fails only in a call during which at some moment no instance was active, in
      every run, if and only if the pool has at most one. With more, a scan can read each
      status while that instance is out and another one is up. */
  lemma ErrMeansOutageExactlyWhen(cfg: Config)
    ensures ErrMeansOutage(cfg) <==> cfg.size <= 1
  {
    if cfg.size >= 2 {
      var run, s := LookedAtAll(cfg, cfg.size);
      assert Enabled(cfg, s, GiveUp(0));
    } else {
      hide Exec, Enabled, OutageSeen;
      forall run, c | Exec(cfg, run).Some? && Enabled(cfg, Exec(cfg, run).value, GiveUp(c))
        ensures OutageSeen(cfg, run, c)
      {
        SmallPoolsKeepPromise(cfg, run, c);
      }
    }
  }

  // ---------------------------------------------------------------- four tries

  /** One caller is choosing, and every instance is in service. */
  ghost predicate Between(cfg: Config, s: State, tries: nat) {
    && |s.insts| == cfg.size > 0 && s.token == 1 && s.callers == map[0 := Choosing(tries, FIRST_LOOK)]
    && forall i | 0 <= i < |s.insts| ::
         s.insts[i].manager == Waiting && s.insts[i].status == Active && s.insts[i].free == cfg.pages
  }

  lemma BetweenIs(cfg: Config, run: seq<Step>, s: State, tries: nat)
    requires Exec(cfg, run) == Some(s) && cfg.size > 0
    requires s.token == 1 && s.callers == map[0 := Choosing(tries, FIRST_LOOK)]
    requires forall i | 0 <= i < |s.insts| :: s.insts[i].manager == Waiting
    ensures Between(cfg, s, tries)
  {
    EveryRunIsSound(cfg, run);
    forall i | 0 <= i < |s.insts|
      ensures s.insts[i].status == Active && s.insts[i].free == cfg.pages
    {
      assert Balanced(cfg, s, i) && Holders(s, i) == {};
      assert s.insts[i].status != Active <==> Out(s.insts[i].manager);
    }
  }

  lemma PickStep(cfg: Config, run: seq<Step>, s: State, tries: nat, i: nat, free: nat)
    returns (run': seq<Step>, s': State)
    requires Exec(cfg, run) == Some(s) && tries < RETRIES
    requires s.callers == map[0 := Choosing(tries, Scan(|s.insts|, false, Some(Best(i, free))))]
    ensures Exec(cfg, run') == Some(s') && (s'.insts, s'.token) == (s.insts, s.token)
    ensures s'.callers == map[0 := At(i, Queued(tries))]
  {
    hide Exec;
    run', s' := TakeStep(cfg, run, s, Pick(0));
  }

  /** The caller has chosen the last instance. */
  lemma LastChosen(cfg: Config, run: seq<Step>, s: State, tries: nat) returns (run': seq<Step>, s': State)
    requires Exec(cfg, run) == Some(s) && Between(cfg, s, tries) && tries < RETRIES
    ensures Exec(cfg, run') == Some(s') && s'.insts == s.insts && s'.token == 1
    ensures s'.callers == map[0 := At(cfg.size - 1, Queued(tries))]
  {
    ScannedIdle(s.insts, cfg.pages, cfg.size);
    hide Exec, Scanned, Apply, Enabled;
    run', s' := QuietScan(cfg, run, s, 0, cfg.size);
    run', s' := PickStep(cfg, run', s', tries, cfg.size - 1, cfg.pages);
  }

  /** The caller has its permit. */
  lemma PermitTaken(cfg: Config, run: seq<Step>, s: State, tries: nat) returns (run': seq<Step>, s': State)
    requires Exec(cfg, run) == Some(s) && Between(cfg, s, tries) && cfg.pages > 0 && tries < RETRIES
    ensures Exec(cfg, run') == Some(s') && |s'.insts| == cfg.size && s'.token == 1
    ensures s'.callers == map[0 := At(cfg.size - 1, Permitted(tries))]
    ensures forall i | 0 <= i < |s'.insts| :: s'.insts[i].manager == Waiting
  {
    run', s' := LastChosen(cfg, run, s, tries);
    hide Exec;
    run', s' := TakeStep(cfg, run', s', Call(0, Acquire));
  }

  /** Its instance crashes before the caller looks at the status again. */
  lemma CrashBeforeRecheck(cfg: Config, run: seq<Step>, s: State, tries: nat) returns (run': seq<Step>, s': State)
    requires Exec(cfg, run) == Some(s) && |s.insts| == cfg.size > 0 && s.token == 1
    requires s.callers == map[0 := At(cfg.size - 1, Permitted(tries))]
    requires forall i | 0 <= i < |s.insts| :: s.insts[i].manager == Waiting
    ensures Exec(cfg, run') == Some(s') && |s'.insts| == cfg.size && s'.token == 1
    ensures s'.callers == map[0 := Choosing(tries + 1, FIRST_LOOK)]
    ensures s'.insts[cfg.size - 1].manager == NeedsToken(Crash)
    ensures forall i | 0 <= i < cfg.size - 1 :: s'.insts[i].manager == Waiting
  {
    hide Exec;
    run', s' := TakeStep(cfg, run, s, Run(cfg.size - 1, Trigger(Crash)));
    run', s' := TakeStep(cfg, run', s', Run(cfg.size - 1, LeaveActive));
    run', s' := TakeStep(cfg, run', s', Call(0, Recheck));
  }

  /** And it is back in service before the caller looks for another one. */
  lemma FailedTry(cfg: Config, run: seq<Step>, s: State, tries: nat) returns (run': seq<Step>, s': State)
    requires Exec(cfg, run) == Some(s) && Between(cfg, s, tries) && cfg.pages > 0 && tries < RETRIES
    ensures Exec(cfg, run') == Some(s') && Between(cfg, s', tries + 1)
  {
    run', s' := PermitTaken(cfg, run, s, tries);
    hide Exec, Between;
    run', s' := CrashBeforeRecheck(cfg, run', s', tries);
    run', s' := TakeStep(cfg, run', s', Run(cfg.size - 1, TakeToken));
    assert s'.insts[cfg.size - 1].manager == Replacing && s'.token == 0;
    hide Apply, Enabled;
    run', s' := RunHolder(cfg, run', s', cfg.size - 1);
    BetweenIs(cfg, run', s', tries + 1);
  }

  /** Up to four times over: then the checkout fails with every instance in service. */
  lemma {:induction false} FailedTries(cfg: Config, tries: nat) returns (run: seq<Step>, s: State)
    requires cfg.size > 0 && cfg.pages > 0 && tries <= RETRIES
    ensures Exec(cfg, run) == Some(s) && Between(cfg, s, tries)
    ensures tries == RETRIES ==> Enabled(cfg, s, GiveUp(0))
  {
    if tries == 0 {
      assert Exec(cfg, []) == Some(Init(cfg));
      run, s := TakeStep(cfg, [], Init(cfg), Arrive);
      BetweenIs(cfg, run, s, 0);
    } else {
      run, s := FailedTries(cfg, tries - 1);
      run, s := FailedTry(cfg, run, s, tries - 1);
    }
  }
}
