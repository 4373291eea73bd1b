/** What an instance's manager does and why, and what a failed checkout met, from the steps of
    a run alone. */
module PoolManagers {
  import opened Wrappers
  import opened BrowserPool

  // ---------------------------------------------------------------- a manager's last step

  predicate IsManage(step: Step, i: nat) { step.Run? && step.i == i }

  /** The last thing the manager of `i` did. */
  function LastAct(run: seq<Step>, i: nat): Option<ManagerAct> {
    if run == [] then None else
      var last := run[|run| - 1];
      if IsManage(last, i) then Some(last.manage) else LastAct(run[..|run| - 1], i)
  }

  /** Why it last meant to recycle: what triggered it, or a re-check of the served count. */
  function Cause(run: seq<Step>, i: nat): Option<Reason> {
    if run == [] then None else
      var last := run[|run| - 1];
      if IsManage(last, i) && last.manage.Trigger? then Some(last.manage.reason)
      else if IsManage(last, i) && last.manage == LoadServed then Some(Count)
      else Cause(run[..|run| - 1], i)
  }

  /** The instance as that last step found it. */
  ghost function Found(cfg: Config, run: seq<Step>, i: nat): Instance
    requires Exec(cfg, run).Some?
  {
    if run == [] || i >= |Exec(cfg, run[..|run| - 1]).value.insts| then Fresh(cfg)
    else if IsManage(run[|run| - 1], i) then Exec(cfg, run[..|run| - 1]).value.insts[i]
    else Found(cfg, run[..|run| - 1], i)
  }

  predicate Enough(cfg: Config, served: nat) { cfg.recycleAfter > 0 && served >= cfg.recycleAfter }

  /** Where a manager stands, by what it did last, why, and what it found. */
  predicate Stands(cfg: Config, inst: Instance, act: Option<ManagerAct>, cause: Option<Reason>, found: Instance) {
    match inst.manager
    case Waiting => act in {None, Some(DropToken)} || (act == Some(LoadServed) && !Enough(cfg, found.served))
    case Rechecking => act == Some(TakeWake)
    case Triggered(why) =>
      cause == Some(why)
      && if why == Count then act == Some(LoadServed) && Enough(cfg, found.served) else act == Some(Trigger(why))
    case NeedsToken(reason) => cause == Some(reason) && act == Some(LeaveActive)
    case DrainLoop =>
      && (cause == Some(Age) || cause == Some(Count))
      && (act == Some(TakeToken) || (act == Some(LoadInFlight(false)) && found.inFlight > 0))
    case Replacing =>
      || (cause == Some(Crash) && act == Some(TakeToken))
      || ((cause == Some(Age) || cause == Some(Count))
          && (act == Some(LoadInFlight(true)) || (act == Some(LoadInFlight(false)) && found.inFlight == 0)))
    case Swapped => act == Some(Swap)
    case ServedReset => act == Some(ResetServed)
    case Finishing => act == Some(SetActive)
  }

  /** It is in service unless its manager has taken it out: down after a crash, else draining. */
  predicate StatusFits(inst: Instance, cause: Option<Reason>) {
    if !Out(inst.manager) then inst.status == Active
    else if cause == Some(Crash) then inst.status == Down
    else inst.status == Draining && (cause == Some(Age) || cause == Some(Count))
  }

  lemma ManageStands(cfg: Config, now: nat, token: nat, inst: Instance, act: ManagerAct, last: Option<ManagerAct>,
                     cause: Option<Reason>, found: Instance)
    requires CanManage(cfg, token, inst, act) && Stands(cfg, inst, last, cause, found) && StatusFits(inst, cause)
    ensures var cause' := if act.Trigger? then Some(act.reason) else if act == LoadServed then Some(Count) else cause;
            && Stands(cfg, Manage(cfg, now, token, inst, act), Some(act), cause', inst)
            && StatusFits(Manage(cfg, now, token, inst, act), cause')
  {
  }

  lemma OthersStand(cfg: Config, s: State, step: Step, i: nat)
    requires Enabled(cfg, s, step) && i < |s.insts| && !IsManage(step, i)
    ensures var s' := Apply(cfg, s, step);
            |s'.insts| == |s.insts|
            && (s'.insts[i].manager, s'.insts[i].status) == (s.insts[i].manager, s.insts[i].status)
  {
  }

  lemma SameStands(cfg: Config, a: Instance, b: Instance, act: Option<ManagerAct>, cause: Option<Reason>,
                   found: Instance)
    requires Stands(cfg, a, act, cause, found) && StatusFits(a, cause) && (b.manager, b.status) == (a.manager, a.status)
    ensures Stands(cfg, b, act, cause, found) && StatusFits(b, cause)
  {
  }

  /** In every run a manager stands where its own last steps have brought it. A voluntary recycle
      goes on to replace the browser only after a load that read zero or one past the deadline; a
      load that reads captures in flight before the deadline stays in the drain; a crash replaces
      it without any load. */
  lemma {:induction false} ManagerFollows(cfg: Config, run: seq<Step>, i: nat)
    requires Exec(cfg, run).Some? && i < cfg.size
    ensures var s := Exec(cfg, run).value;
            && |s.insts| == cfg.size
            && Stands(cfg, s.insts[i], LastAct(run, i), Cause(run, i), Found(cfg, run, i))
            && StatusFits(s.insts[i], Cause(run, i))
  {
    if run != [] {
      var before, step := run[..|run| - 1], run[|run| - 1];
      var s := Exec(cfg, before).value;
      ManagerFollows(cfg, before, i);
      hide Stands, StatusFits, Manage, CanManage;
      if IsManage(step, i) {
        ManageStands(cfg, s.now, s.token, s.insts[i], step.manage, LastAct(before, i), Cause(before, i),
                     Found(cfg, before, i));
      } else {
        OthersStand(cfg, s, step, i);
        hide Apply, Enabled;
        SameStands(cfg, s.insts[i], Exec(cfg, run).value.insts[i], LastAct(before, i), Cause(before, i),
                   Found(cfg, before, i));
      }
    }
  }

  // ---------------------------------------------------------------- what is counted

  /** How many checkouts of `i` were dropped since its served count was last reset. */
  ghost function Drops(cfg: Config, run: seq<Step>, i: nat): nat
    requires Exec(cfg, run).Some?
  {
    if run == [] then 0 else
      var before, last := run[..|run| - 1], run[|run| - 1];
      if last == Run(i, ResetServed) then 0
      else if last.Call? && last.act == AddServed && Exec(cfg, before).value.callers[last.c].i == i then
        Drops(cfg, before, i) + 1
      else Drops(cfg, before, i)
  }

  lemma ServedStep(cfg: Config, s: State, step: Step, i: nat)
    requires Enabled(cfg, s, step) && i < |s.insts|
    ensures |Apply(cfg, s, step).insts| == |s.insts|
    ensures Apply(cfg, s, step).insts[i].served
            == (if step == Run(i, ResetServed) then 0
                else if step.Call? && step.act == AddServed && s.callers[step.c].i == i then s.insts[i].served + 1
                else s.insts[i].served)
  {
  }

  lemma {:induction false} ServedCounts(cfg: Config, run: seq<Step>, i: nat)
    requires Exec(cfg, run).Some? && i < cfg.size
    ensures |Exec(cfg, run).value.insts| == cfg.size
    ensures Exec(cfg, run).value.insts[i].served == Drops(cfg, run, i)
  {
    if run != [] {
      ServedCounts(cfg, run[..|run| - 1], i);
      ServedStep(cfg, Exec(cfg, run[..|run| - 1]).value, run[|run| - 1], i);
      hide Apply;
    }
  }

  /** Until its manager resets it, the count only grows. */
  lemma {:induction false} FoundServed(cfg: Config, run: seq<Step>, i: nat)
    requires Exec(cfg, run).Some? && i < cfg.size && LastAct(run, i) == Some(LoadServed)
    ensures |Exec(cfg, run).value.insts| == cfg.size
    ensures Found(cfg, run, i).served <= Exec(cfg, run).value.insts[i].served
  {
    ServedCounts(cfg, run, i);
    if run != [] {
      var before := run[..|run| - 1];
      ServedCounts(cfg, before, i);
      ServedStep(cfg, Exec(cfg, before).value, run[|run| - 1], i);
      hide Apply, Drops;
      if !IsManage(run[|run| - 1], i) {
        FoundServed(cfg, before, i);
      }
    }
  }

  /** A recycle for the count follows that many drops since the browser was last replaced. */
  lemma CountIsEarned(cfg: Config, run: seq<Step>, i: nat)
    requires Exec(cfg, run).Some? && i < cfg.size
    ensures |Exec(cfg, run).value.insts| == cfg.size
    ensures Exec(cfg, run).value.insts[i].manager == Triggered(Count) ==> 0 < cfg.recycleAfter <= Drops(cfg, run, i)
  {
    ManagerFollows(cfg, run, i);
    ServedCounts(cfg, run, i);
    if Exec(cfg, run).value.insts[i].manager == Triggered(Count) {
      FoundServed(cfg, run, i);
    }
  }

  // ---------------------------------------------------------------- who wakes the manager

  /** When `c` last added its checkout to the count, that reached the threshold. */
  ghost predicate ReachedIt(cfg: Config, run: seq<Step>, c: nat)
    requires Exec(cfg, run).Some?
  {
    run != [] &&
    var before, last := run[..|run| - 1], run[|run| - 1];
    if last == Call(c, AddServed) then 0 < cfg.recycleAfter <= Drops(cfg, run, Exec(cfg, before).value.callers[c].i)
    else ReachedIt(cfg, before, c)
  }

  /** Since the manager last took a wake-up, a checkout that reached the threshold stored one. */
  ghost predicate WakeStored(cfg: Config, run: seq<Step>, i: nat)
    requires Exec(cfg, run).Some?
  {
    run != [] &&
    var before, last := run[..|run| - 1], run[|run| - 1];
    last != Run(i, TakeWake)
    && (WakeStored(cfg, before, i)
        || (last.Call? && last.act == Notify && Exec(cfg, before).value.callers[last.c].i == i
            && ReachedIt(cfg, before, last.c)))
  }

  /** How often the browser of `i` was replaced. */
  ghost function Replaced(run: seq<Step>, i: nat): nat {
    if run == [] then 0 else Replaced(run[..|run| - 1], i) + if run[|run| - 1] == Run(i, Swap) then 1 else 0
  }

  lemma {:induction false} PoolSize(cfg: Config, run: seq<Step>)
    requires Exec(cfg, run).Some?
    ensures |Exec(cfg, run).value.insts| == cfg.size
  {
    if run != [] {
      PoolSize(cfg, run[..|run| - 1]);
    }
  }

  lemma CrossedStep(cfg: Config, s: State, step: Step, c: nat)
    requires Enabled(cfg, s, step)
    ensures var s' := Apply(cfg, s, step);
            c in s'.callers && s'.callers[c].At? && s'.callers[c].stage.Served? ==>
              if step == Call(c, AddServed)
              then s'.callers[c].stage.crossed
                   == (cfg.recycleAfter > 0 && s.insts[s.callers[c].i].served + 1 >= cfg.recycleAfter)
              else c in s.callers && s.callers[c] == s'.callers[c]
  {
  }

  lemma {:induction false} ServedIsRight(cfg: Config, run: seq<Step>, c: nat)
    requires Exec(cfg, run).Some?
    ensures var s := Exec(cfg, run).value;
            c in s.callers && s.callers[c].At? && s.callers[c].stage.Served? ==>
              (s.callers[c].stage.crossed <==> ReachedIt(cfg, run, c))
  {
    if run != [] {
      var before, step := run[..|run| - 1], run[|run| - 1];
      var s := Exec(cfg, before).value;
      ServedIsRight(cfg, before, c);
      CrossedStep(cfg, s, step, c);
      PoolSize(cfg, before);
      hide Apply;
      if step == Call(c, AddServed) {
        ServedCounts(cfg, before, s.callers[c].i);
      }
    }
  }

  lemma WakeStep(cfg: Config, s: State, step: Step, i: nat)
    requires Enabled(cfg, s, step) && i < |s.insts|
    ensures var s' := Apply(cfg, s, step);
            && |s'.insts| == |s.insts|
            && (s'.insts[i].notified
                <==> step != Run(i, TakeWake)
                     && (s.insts[i].notified
                         || (step.Call? && step.act == Notify && s.callers[step.c].i == i
                             && s.callers[step.c].stage.crossed)))
            && s'.insts[i].gen == s.insts[i].gen + if step == Run(i, Swap) then 1 else 0
  {
  }

  /** A wake-up is stored exactly when, since the manager last took one, a dropped checkout brought
      the count to the threshold and notified; and browsers are numbered by their replacements. */
  lemma {:induction false} WakesAreEarned(cfg: Config, run: seq<Step>, i: nat)
    requires Exec(cfg, run).Some? && i < cfg.size
    ensures |Exec(cfg, run).value.insts| == cfg.size
    ensures Exec(cfg, run).value.insts[i].notified <==> WakeStored(cfg, run, i)
    ensures Exec(cfg, run).value.insts[i].gen == Replaced(run, i)
  {
    if run != [] {
      var before, step := run[..|run| - 1], run[|run| - 1];
      WakesAreEarned(cfg, before, i);
      WakeStep(cfg, Exec(cfg, before).value, step, i);
      hide Apply;
      if step.Call? && step.act == Notify {
        ServedIsRight(cfg, before, step.c);
      }
    }
  }

  // ---------------------------------------------------------------- whose browser is swapped

  /** The recorded times are the steps they stand for. */
  ghost predicate LeftRight(cfg: Config, run: seq<Step>, i: nat, inst: Instance) {
    && (forall g | g in inst.leftAt :: inst.leftAt[g] < |run| && run[inst.leftAt[g]] == Run(i, LeaveActive))
    && (forall g | g in inst.zeroAt :: ReadZero(cfg, run, i, inst.zeroAt[g]))
  }

  /** Step `n` is a load of the drain that read zero. */
  ghost predicate ReadZero(cfg: Config, run: seq<Step>, i: nat, n: nat) {
    && n < |run| && IsManage(run[n], i) && run[n].manage.LoadInFlight?
    && Exec(cfg, run[..n]).Some? && i < |Exec(cfg, run[..n]).value.insts|
    && Exec(cfg, run[..n]).value.insts[i].inFlight == 0
  }

  ghost predicate StageRight(run: seq<Step>, c: nat, stage: Stage) {
    match stage
    case Checked(checked) => checked < |run| && run[checked] == Call(c, Recheck)
    case Counted(checked, counted) =>
      checked < counted < |run| && run[checked] == Call(c, Recheck) && run[counted] == Call(c, Increment)
    case Live(_, checked, counted) =>
      checked < counted < |run| && run[checked] == Call(c, Recheck) && run[counted] == Call(c, Increment)
    case _ => true
  }

  ghost predicate TimesRight(cfg: Config, run: seq<Step>, s: State) {
    && s.now == |run|
    && (forall i | 0 <= i < |s.insts| :: LeftRight(cfg, run, i, s.insts[i]))
    && (forall c | c in s.callers && s.callers[c].At? :: StageRight(run, c, s.callers[c].stage))
  }

  lemma ReadZeroStays(cfg: Config, run: seq<Step>, step: Step, i: nat, n: nat)
    requires ReadZero(cfg, run, i, n)
    ensures ReadZero(cfg, run + [step], i, n)
  {
    assert (run + [step])[..n] == run[..n];
    hide Exec;
  }

  lemma LeftStays(cfg: Config, run: seq<Step>, step: Step, i: nat, inst: Instance)
    requires LeftRight(cfg, run, i, inst)
    ensures LeftRight(cfg, run + [step], i, inst)
  {
    hide ReadZero;
    forall g | g in inst.zeroAt
      ensures ReadZero(cfg, run + [step], i, inst.zeroAt[g])
    {
      ReadZeroStays(cfg, run, step, i, inst.zeroAt[g]);
    }
  }

  lemma ManageTimesRight(cfg: Config, run: seq<Step>, s: State, i: nat, act: ManagerAct)
    requires Exec(cfg, run) == Some(s) && Enabled(cfg, s, Run(i, act)) && s.now == |run|
    requires LeftRight(cfg, run, i, s.insts[i])
    ensures LeftRight(cfg, run + [Run(i, act)], i, Manage(cfg, s.now, s.token, s.insts[i], act))
  {
    LeftStays(cfg, run, Run(i, act), i, s.insts[i]);
    hide Exec;
    assert (run + [Run(i, act)])[..|run|] == run;
    if act.LoadInFlight? && s.insts[i].inFlight == 0 {
      assert ReadZero(cfg, run + [Run(i, act)], i, |run|);
    }
  }

  lemma SameTimes(cfg: Config, run: seq<Step>, i: nat, a: Instance, b: Instance)
    requires LeftRight(cfg, run, i, a) && (b.leftAt, b.zeroAt) == (a.leftAt, a.zeroAt)
    ensures LeftRight(cfg, run, i, b)
  {
  }

  lemma OthersKeepTimes(cfg: Config, s: State, step: Step, i: nat)
    requires Enabled(cfg, s, step) && i < |s.insts| && !IsManage(step, i)
    ensures var s' := Apply(cfg, s, step);
            |s'.insts| == |s.insts|
            && (s'.insts[i].leftAt, s'.insts[i].zeroAt) == (s.insts[i].leftAt, s.insts[i].zeroAt)
  {
  }

  lemma StageNext(cfg: Config, run: seq<Step>, s: State, step: Step, c: nat)
    requires Enabled(cfg, s, step) && s.now == |run|
    requires c in s.callers && s.callers[c].At? ==> StageRight(run, c, s.callers[c].stage)
    ensures var s' := Apply(cfg, s, step);
            c in s'.callers && s'.callers[c].At? ==> StageRight(run + [step], c, s'.callers[c].stage)
  {
  }

  lemma LeftNext(cfg: Config, run: seq<Step>, s: State, step: Step, i: nat)
    requires Exec(cfg, run) == Some(s) && Enabled(cfg, s, step) && s.now == |run|
    requires i < |s.insts| && LeftRight(cfg, run, i, s.insts[i])
    ensures var s' := Apply(cfg, s, step); |s'.insts| == |s.insts| && LeftRight(cfg, run + [step], i, s'.insts[i])
  {
    hide Exec, Manage, LeftRight, NextInstance, NextCaller, CanAct, CanManage;
    if IsManage(step, i) {
      ManageTimesRight(cfg, run, s, i, step.manage);
    } else {
      OthersKeepTimes(cfg, s, step, i);
      LeftStays(cfg, run, step, i, s.insts[i]);
      hide Apply, Enabled;
      SameTimes(cfg, run + [step], i, s.insts[i], Apply(cfg, s, step).insts[i]);
    }
  }

  lemma TimesNext(cfg: Config, run: seq<Step>, s: State, step: Step)
    requires Exec(cfg, run) == Some(s) && Enabled(cfg, s, step) && TimesRight(cfg, run, s)
    ensures TimesRight(cfg, run + [step], Apply(cfg, s, step))
  {
    var s' := Apply(cfg, s, step);
    assert s'.now == s.now + 1 && |s'.insts| == |s.insts|;
    hide Exec, Apply, Enabled, LeftRight, StageRight;
    forall i | 0 <= i < |s'.insts|
      ensures LeftRight(cfg, run + [step], i, s'.insts[i])
    {
      LeftNext(cfg, run, s, step, i);
    }
    forall c | c in s'.callers && s'.callers[c].At?
      ensures StageRight(run + [step], c, s'.callers[c].stage)
    {
      StageNext(cfg, run, s, step, c);
    }
  }

  lemma {:induction false} RunTimesRight(cfg: Config, run: seq<Step>)
    requires Exec(cfg, run).Some?
    ensures TimesRight(cfg, run, Exec(cfg, run).value)
  {
    hide TimesRight, Apply, Enabled, Init;
    if run == [] {
      StartsRight(cfg);
    } else {
      var before := run[..|run| - 1];
      RunTimesRight(cfg, before);
      TimesNext(cfg, before, Exec(cfg, before).value, run[|run| - 1]);
      assert run == before + [run[|run| - 1]];
    }
  }

  lemma StartsRight(cfg: Config)
    ensures TimesRight(cfg, [], Init(cfg))
  {
  }

  /** The drain of the browser in service read zero, and it was recorded. */
  ghost predicate ZeroNoted(inst: Instance, act: Option<ManagerAct>, found: Instance) {
    inst.manager == Replacing && act.Some? && act.value.LoadInFlight? && found.inFlight == 0 ==> inst.gen in inst.zeroAt
  }

  lemma OthersKeepZero(cfg: Config, s: State, step: Step, i: nat)
    requires Enabled(cfg, s, step) && i < |s.insts| && !IsManage(step, i)
    ensures var s' := Apply(cfg, s, step);
            && |s'.insts| == |s.insts|
            && (s'.insts[i].manager, s'.insts[i].gen, s'.insts[i].zeroAt)
               == (s.insts[i].manager, s.insts[i].gen, s.insts[i].zeroAt)
  {
  }

  lemma {:induction false} ZeroIsNoted(cfg: Config, run: seq<Step>, i: nat)
    requires Exec(cfg, run).Some? && i < cfg.size
    ensures |Exec(cfg, run).value.insts| == cfg.size
    ensures ZeroNoted(Exec(cfg, run).value.insts[i], LastAct(run, i), Found(cfg, run, i))
  {
    if run != [] {
      var before, step := run[..|run| - 1], run[|run| - 1];
      var s := Exec(cfg, before).value;
      ZeroIsNoted(cfg, before, i);
      if !IsManage(step, i) {
        OthersKeepZero(cfg, s, step, i);
        hide Apply, Enabled;
      }
    }
  }

  /** The caller re-checked the status before it left Active, and was counted after the drain
      had read zero. */
  ghost predicate SlippedThrough(cfg: Config, run: seq<Step>, i: nat, c: nat, checked: nat, counted: nat) {
    && checked < counted < |run|
    && run[checked] == Call(c, Recheck) && run[counted] == Call(c, Increment)
    && exists left, zero | checked < left < zero < counted ::
         run[left] == Run(i, LeaveActive) && ReadZero(cfg, run, i, zero)
  }

  /** A voluntary recycle that did not run into its deadline swaps the browser under no capture
      but one that slipped through between the last look at the status and the drain. */
  lemma SwapSpares(cfg: Config, run: seq<Step>, i: nat, c: nat)
    requires Exec(cfg, run).Some? && i < cfg.size
    requires Cause(run, i) != Some(Crash) && LastAct(run, i) != Some(LoadInFlight(true))
    ensures var s := Exec(cfg, run).value;
            && |s.insts| == cfg.size
            && (s.insts[i].manager == Replacing && c in s.callers && s.callers[c].At? && s.callers[c].i == i
                && s.callers[c].stage.Live? && s.callers[c].stage.browser == s.insts[i].gen ==>
                  SlippedThrough(cfg, run, i, c, s.callers[c].stage.checked, s.callers[c].stage.counted))
  {
    var s := Exec(cfg, run).value;
    ManagerFollows(cfg, run, i);
    ZeroIsNoted(cfg, run, i);
    EveryRunIsSound(cfg, run);
    RunTimesRight(cfg, run);
    hide Exec, Accounted, Serialized, WakesKept, ReadZero;
    if s.insts[i].manager == Replacing && c in s.callers && s.callers[c].At? && s.callers[c].i == i
       && s.callers[c].stage.Live? && s.callers[c].stage.browser == s.insts[i].gen {
      var inst := s.insts[i];
      assert StageOrdered(inst, s.callers[c].stage, s.now) && TimesOrdered(inst, s.now);
      assert LeftRight(cfg, run, i, inst) && StageRight(run, c, s.callers[c].stage);
      var left, zero := inst.leftAt[inst.gen], inst.zeroAt[inst.gen];
      assert run[left] == Run(i, LeaveActive) && ReadZero(cfg, run, i, zero);
    }
  }

  // ---------------------------------------------------------------- what a failed checkout met

  /** Re-checks of `c` that found its instance out of service. */
  ghost function FailedRechecks(cfg: Config, run: seq<Step>, c: nat): nat
    requires Exec(cfg, run).Some?
  {
    if run == [] then 0 else
      var before, last := run[..|run| - 1], run[|run| - 1];
      var s := Exec(cfg, before).value;
      FailedRechecks(cfg, before, c)
      + if last == Call(c, Recheck) && s.insts[s.callers[c].i].status != Active then 1 else 0
  }

  /** At step `n` the scan of `c` loaded the status of instance `j`, and it was not Active. */
  ghost predicate FoundOut(cfg: Config, run: seq<Step>, c: nat, tries: nat, j: nat, n: nat) {
    && n < |run| && run[n] == LoadStatus(c) && Exec(cfg, run[..n]).Some?
    && var s := Exec(cfg, run[..n]).value;
       && Scanning(s, c) && s.callers[c].tries == tries && s.callers[c].scan.next == j < |s.insts|
       && s.insts[j].status != Active
  }

  ghost predicate WasOut(cfg: Config, run: seq<Step>, c: nat, tries: nat, j: nat) {
    exists n: nat :: FoundOut(cfg, run, c, tries, j, n)
  }

  /** Its current scan has found every instance so far out. */
  ghost predicate NoneSoFar(cfg: Config, run: seq<Step>, c: nat, tries: nat, scan: Scan) {
    scan.best.None? ==> forall j: nat | j < scan.next :: WasOut(cfg, run, c, tries, j)
  }

  ghost predicate TriesRight(cfg: Config, run: seq<Step>, c: nat, caller: Caller)
    requires Exec(cfg, run).Some?
  {
    match caller
    case Choosing(tries, scan) => tries == FailedRechecks(cfg, run, c) && NoneSoFar(cfg, run, c, tries, scan)
    case At(_, Queued(tries)) => tries == FailedRechecks(cfg, run, c)
    case At(_, Permitted(tried)) => tried == FailedRechecks(cfg, run, c)
    case _ => true
  }

  lemma WasOutStays(cfg: Config, run: seq<Step>, step: Step, c: nat, tries: nat, j: nat)
    requires WasOut(cfg, run, c, tries, j)
    ensures WasOut(cfg, run + [step], c, tries, j)
  {
    var n: nat :| FoundOut(cfg, run, c, tries, j, n);
    assert (run + [step])[..n] == run[..n];
    hide Exec, Scanning;
    assert FoundOut(cfg, run + [step], c, tries, j, n);
  }

  lemma NoneStays(cfg: Config, run: seq<Step>, step: Step, c: nat, tries: nat, scan: Scan)
    requires NoneSoFar(cfg, run, c, tries, scan)
    ensures NoneSoFar(cfg, run + [step], c, tries, scan)
  {
    hide WasOut;
    if scan.best.None? {
      forall j: nat | j < scan.next
        ensures WasOut(cfg, run + [step], c, tries, j)
      {
        WasOutStays(cfg, run, step, c, tries, j);
      }
    }
  }

  lemma LookNext(cfg: Config, run: seq<Step>, s: State, c: nat)
    requires Exec(cfg, run) == Some(s) && Enabled(cfg, s, LoadStatus(c))
    requires NoneSoFar(cfg, run, c, s.callers[c].tries, s.callers[c].scan)
    ensures NoneSoFar(cfg, run + [LoadStatus(c)], c, s.callers[c].tries,
                      LookAt(s.callers[c].scan, s.insts[s.callers[c].scan.next]))
  {
    var Choosing(tries, scan) := s.callers[c];
    var run' := run + [LoadStatus(c)];
    NoneStays(cfg, run, LoadStatus(c), c, tries, scan);
    assert run'[..|run|] == run;
    hide Exec;
    if s.insts[scan.next].status != Active {
      assert FoundOut(cfg, run', c, tries, scan.next, |run|);
      assert WasOut(cfg, run', c, tries, scan.next);
    }
  }

  lemma FailedNext(cfg: Config, run: seq<Step>, s: State, step: Step, c: nat)
    requires Exec(cfg, run) == Some(s) && Enabled(cfg, s, step)
    ensures Exec(cfg, run + [step]) == Some(Apply(cfg, s, step))
    ensures FailedRechecks(cfg, run + [step], c)
            == FailedRechecks(cfg, run, c)
               + if step == Call(c, Recheck) && s.insts[s.callers[c].i].status != Active then 1 else 0
  {
    assert (run + [step])[..|run|] == run;
    hide Apply, Enabled;
  }

  /** A caller that has not arrived has met nothing. */
  lemma {:induction false} NothingMet(cfg: Config, run: seq<Step>, c: nat)
    requires Exec(cfg, run).Some? && Exec(cfg, run).value.arrived <= c
    ensures FailedRechecks(cfg, run, c) == 0 && c !in Exec(cfg, run).value.callers
  {
    EveryRunIsSound(cfg, run);
    if run != [] {
      var before, step := run[..|run| - 1], run[|run| - 1];
      var s := Exec(cfg, before).value;
      assert s.arrived <= Exec(cfg, run).value.arrived;
      NothingMet(cfg, before, c);
      hide Serialized, WakesKept, History;
    }
  }

  lemma TriesNext(cfg: Config, run: seq<Step>, s: State, step: Step, c: nat)
    requires Exec(cfg, run) == Some(s) && Enabled(cfg, s, step) && c in s.callers && c < s.arrived
    requires TriesRight(cfg, run, c, s.callers[c])
    ensures Exec(cfg, run + [step]) == Some(Apply(cfg, s, step))
    ensures var s' := Apply(cfg, s, step); c in s'.callers ==> TriesRight(cfg, run + [step], c, s'.callers[c])
  {
    FailedNext(cfg, run, s, step, c);
    hide Exec, FailedRechecks, NoneSoFar, NextInstance, Manage;
    if s.callers[c].Choosing? {
      NoneStays(cfg, run, step, c, s.callers[c].tries, s.callers[c].scan);
      if step == LoadStatus(c) {
        LookNext(cfg, run, s, c);
      } else if step == LoadPermits(c) {
        FoundSome(cfg, run + [step], c, s.callers[c].tries, s.callers[c].scan, s.insts[s.callers[c].scan.next]);
      }
    } else {
      StartsOver(cfg, run + [step], c, FailedRechecks(cfg, run + [step], c));
    }
    hide LookAt, Weigh;
  }

  lemma FoundSome(cfg: Config, run: seq<Step>, c: nat, tries: nat, scan: Scan, inst: Instance)
    ensures NoneSoFar(cfg, run, c, tries, Weigh(scan, inst))
  {
  }

  lemma StartsOver(cfg: Config, run: seq<Step>, c: nat, tries: nat)
    ensures NoneSoFar(cfg, run, c, tries, FIRST_LOOK)
  {
  }

  lemma {:induction false} TriesAreMet(cfg: Config, run: seq<Step>, c: nat)
    requires Exec(cfg, run).Some? && c in Exec(cfg, run).value.callers
    ensures TriesRight(cfg, run, c, Exec(cfg, run).value.callers[c])
  {
    if run != [] {
      var before, step := run[..|run| - 1], run[|run| - 1];
      var s := Exec(cfg, before).value;
      assert run == before + [step];
      EveryRunIsSound(cfg, before);
      if c in s.callers {
        TriesAreMet(cfg, before, c);
        TriesNext(cfg, before, s, step, c);
      } else {
        assert step == Arrive && c == s.arrived;
        NothingMet(cfg, before, c);
        FailedNext(cfg, before, s, step, c);
        StartsOver(cfg, run, c, 0);
      }
    }
  }

  /** A checkout fails only after four re-checks of its own found the chosen instance out of
      service, or after a scan in which it found every instance out when it looked. */
  lemma ErrHasCause(cfg: Config, run: seq<Step>, c: nat)
    requires Exec(cfg, run).Some? && Enabled(cfg, Exec(cfg, run).value, GiveUp(c))
    ensures || FailedRechecks(cfg, run, c) == 4
            || forall j: nat | j < cfg.size :: WasOut(cfg, run, c, FailedRechecks(cfg, run, c), j)
  {
    TriesAreMet(cfg, run, c);
    EveryRunIsSound(cfg, run);
    hide Exec, FailedRechecks, WasOut, Serialized, WakesKept, History, Balanced;
  }
}
