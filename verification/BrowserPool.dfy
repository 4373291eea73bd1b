/** The browser pool: callers, checkouts being dropped, and one manager per instance.

    Every shared-memory access is its own step, in one global order. Times are step
    numbers; they are history, no step depends on them. */
module BrowserPool {
  import opened Wrappers
  import opened Sets

  datatype Config = Config(size: nat, pages: nat, recycleAfter: nat)

  datatype Status = Active | Draining | Down

  datatype Reason = Crash | Age | Count

  /** Where a manager stands in its loop. */
  datatype Phase =
    | Waiting
    | Rechecking
    | Triggered(why: Reason)
    | NeedsToken(reason: Reason)
    | DrainLoop
    | Replacing
    | Swapped
    | ServedReset
    | Finishing

  /** `gen` numbers the browser in service. History: `leaked` counts increments whose
      caller was cancelled, `leftAt[g]` is when the status left Active under browser `g`,
      `zeroAt[g]` when the drain of `g` read zero. */
  datatype Instance = Instance(
    status: Status,
    gen: nat,
    free: nat,
    inFlight: nat,
    served: nat,
    notified: bool,
    manager: Phase,
    leaked: nat,
    leftAt: map<nat, nat>,
    zeroAt: map<nat, nat>)

  /** A caller that has chosen an instance, up to the release of its permit. */
  datatype Stage =
    | Queued(tries: nat)
    | Permitted(tried: nat)
    | Checked(checked: nat)
    | Counted(checked: nat, counted: nat)
    | Live(browser: nat, checked: nat, counted: nat)
    | Uncounted
    | Served(crossed: bool)
    | Releasing

  /** The permits an instance had when a scan read them. */
  datatype Best = Best(i: nat, free: nat)

  /** A scan over the instances: the next one, whether its status was just read as Active, and
      the best so far. */
  datatype Scan = Scan(next: nat, active: bool, best: Option<Best>)

  const FIRST_LOOK := Scan(0, false, None)

  datatype Caller = Choosing(tries: nat, scan: Scan) | At(i: nat, stage: Stage)

  datatype State = State(insts: seq<Instance>, token: nat, callers: map<nat, Caller>, arrived: nat, now: nat)

  const RETRIES := 4

  const MAX_UNAVAILABLE := 1

  function Fresh(cfg: Config): Instance {
    Instance(Active, 0, cfg.pages, 0, 0, false, Waiting, 0, map[], map[])
  }

  function Init(cfg: Config): State {
    State(seq(cfg.size, _ => Fresh(cfg)), MAX_UNAVAILABLE, map[], 0, 0)
  }

  // ---------------------------------------------------------------- callers

  /** The scan loads a status; an instance that is out is passed over. */
  function LookAt(scan: Scan, inst: Instance): Scan {
    if inst.status == Active then scan.(active := true) else scan.(next := scan.next + 1)
  }

  /** It loads the permits of an instance it found Active; the last of the best wins. */
  function Weigh(scan: Scan, inst: Instance): Scan {
    Scan(scan.next + 1, false,
         if scan.best.None? || inst.free >= scan.best.value.free then Some(Best(scan.next, inst.free)) else scan.best)
  }

  datatype Act =
    | Acquire
    | Recheck
    | Increment
    | ReadHandle
    | Cancel
    | Decrement
    | AddServed
    | Notify
    | FreePermit

  predicate CanAct(inst: Instance, stage: Stage, act: Act) {
    match act
    case Acquire => stage.Queued? && inst.free > 0
    case Recheck => stage.Permitted?
    case Increment => stage.Checked?
    case ReadHandle => stage.Counted?
    case Cancel => stage.Queued? || stage.Counted?
    case Decrement => stage.Live?
    case AddServed => stage.Uncounted?
    case Notify => stage.Served?
    case FreePermit => stage.Releasing?
  }

  /** What becomes of the caller; `None` when it is gone. */
  function NextCaller(cfg: Config, inst: Instance, now: nat, i: nat, stage: Stage, act: Act): Option<Caller>
    requires CanAct(inst, stage, act)
  {
    match act
    case Acquire => Some(At(i, Permitted(stage.tries)))
    case Recheck =>
      if inst.status == Active then Some(At(i, Checked(now))) else Some(Choosing(stage.tried + 1, FIRST_LOOK))
    case Increment => Some(At(i, Counted(stage.checked, now)))
    case ReadHandle => Some(At(i, Live(inst.gen, stage.checked, stage.counted)))
    case Cancel => None
    case Decrement => Some(At(i, Uncounted))
    case AddServed => Some(At(i, Served(cfg.recycleAfter > 0 && inst.served + 1 >= cfg.recycleAfter)))
    case Notify => Some(At(i, Releasing))
    case FreePermit => None
  }

  function NextInstance(inst: Instance, stage: Stage, act: Act): Instance
    requires CanAct(inst, stage, act)
  {
    match act
    case Acquire => inst.(free := inst.free - 1)
    case Recheck => if inst.status == Active then inst else inst.(free := inst.free + 1)
    case Increment => inst.(inFlight := inst.inFlight + 1)
    case ReadHandle => inst
    case Cancel => if stage.Queued? then inst else inst.(free := inst.free + 1, leaked := inst.leaked + 1)
    case Decrement => inst.(inFlight := Max(inst.inFlight - 1, 0))
    case AddServed => inst.(served := inst.served + 1)
    case Notify => if stage.crossed then inst.(notified := true) else inst
    case FreePermit => inst.(free := inst.free + 1)
  }

  // ---------------------------------------------------------------- managers

  datatype ManagerAct =
    | Trigger(reason: Reason)
    | TakeWake
    | LoadServed
    | LeaveActive
    | TakeToken
    | LoadInFlight(deadline: bool)
    | Swap
    | ResetServed
    | SetActive
    | DropToken

  predicate CanManage(cfg: Config, token: nat, inst: Instance, act: ManagerAct) {
    match act
    case Trigger(reason) => inst.manager == Waiting && reason != Count
    case TakeWake => inst.manager == Waiting && inst.notified
    case LoadServed => inst.manager == Rechecking
    case LeaveActive => inst.manager.Triggered?
    case TakeToken => inst.manager.NeedsToken? && token > 0
    case LoadInFlight(_) => inst.manager == DrainLoop
    case Swap => inst.manager == Replacing
    case ResetServed => inst.manager == Swapped
    case SetActive => inst.manager == ServedReset
    case DropToken => inst.manager == Finishing
  }

  function Manage(cfg: Config, now: nat, token: nat, inst: Instance, act: ManagerAct): Instance
    requires CanManage(cfg, token, inst, act)
  {
    match act
    case Trigger(reason) => inst.(manager := Triggered(reason))
    case TakeWake => inst.(manager := Rechecking, notified := false)
    case LoadServed =>
      inst.(manager := if cfg.recycleAfter > 0 && inst.served >= cfg.recycleAfter then Triggered(Count) else Waiting)
    case LeaveActive =>
      inst.(manager := NeedsToken(inst.manager.why),
            status := if inst.manager.why == Crash then Down else Draining,
            leftAt := inst.leftAt[inst.gen := now])
    case TakeToken => inst.(manager := if inst.manager.reason == Crash then Replacing else DrainLoop)
    case LoadInFlight(deadline) =>
      if inst.inFlight == 0 then inst.(manager := Replacing, zeroAt := inst.zeroAt[inst.gen := now])
      else if deadline then inst.(manager := Replacing)
      else inst
    case Swap => inst.(manager := Swapped, gen := inst.gen + 1)
    case ResetServed => inst.(manager := ServedReset, served := 0)
    case SetActive => inst.(manager := Finishing, status := Active)
    case DropToken => inst.(manager := Waiting)
  }

  // ---------------------------------------------------------------- the whole pool

  datatype Step =
    | Arrive
    | LoadStatus(c: nat)
    | LoadPermits(c: nat)
    | Pick(c: nat)
    | GiveUp(c: nat)
    | Call(c: nat, act: Act)
    | Run(i: nat, manage: ManagerAct)

  predicate Scanning(s: State, c: nat) { c in s.callers && s.callers[c].Choosing? && s.callers[c].tries < RETRIES }

  predicate ScanDone(s: State, c: nat) {
    Scanning(s, c) && !s.callers[c].scan.active && s.callers[c].scan.next == |s.insts|
  }

  ghost predicate Enabled(cfg: Config, s: State, step: Step) {
    match step
    case Arrive => true
    case LoadStatus(c) =>
      Scanning(s, c) && !s.callers[c].scan.active && s.callers[c].scan.next < |s.insts|
    case LoadPermits(c) =>
      Scanning(s, c) && s.callers[c].scan.active && s.callers[c].scan.next < |s.insts|
    case Pick(c) => ScanDone(s, c) && s.callers[c].scan.best.Some?
    case GiveUp(c) =>
      || (c in s.callers && s.callers[c].Choosing? && s.callers[c].tries == RETRIES)
      || (ScanDone(s, c) && s.callers[c].scan.best.None?)
    case Call(c, act) =>
      && c in s.callers && s.callers[c].At? && s.callers[c].i < |s.insts|
      && CanAct(s.insts[s.callers[c].i], s.callers[c].stage, act)
    case Run(i, act) => i < |s.insts| && CanManage(cfg, s.token, s.insts[i], act)
  }

  ghost function Apply(cfg: Config, s: State, step: Step): State
    requires Enabled(cfg, s, step)
  {
    var s' := s.(now := s.now + 1);
    match step
    case Arrive => s'.(callers := s.callers[s.arrived := Choosing(0, FIRST_LOOK)], arrived := s.arrived + 1)
    case LoadStatus(c) =>
      var Choosing(tries, scan) := s.callers[c];
      s'.(callers := s.callers[c := Choosing(tries, LookAt(scan, s.insts[scan.next]))])
    case LoadPermits(c) =>
      var Choosing(tries, scan) := s.callers[c];
      s'.(callers := s.callers[c := Choosing(tries, Weigh(scan, s.insts[scan.next]))])
    case Pick(c) => s'.(callers := s.callers[c := At(s.callers[c].scan.best.value.i, Queued(s.callers[c].tries))])
    case GiveUp(c) => s'.(callers := s.callers - {c})
    case Call(c, act) =>
      var At(i, stage) := s.callers[c];
      var next := NextCaller(cfg, s.insts[i], s.now, i, stage, act);
      s'.(insts := s.insts[i := NextInstance(s.insts[i], stage, act)],
          callers := if next.Some? then s.callers[c := next.value] else s.callers - {c})
    case Run(i, act) =>
      s'.(insts := s.insts[i := Manage(cfg, s.now, s.token, s.insts[i], act)],
          token := if act.TakeToken? then s.token - 1 else if act.DropToken? then s.token + 1 else s.token)
  }

  ghost function Exec(cfg: Config, run: seq<Step>): Option<State> {
    if run == [] then Some(Init(cfg)) else
      var before := Exec(cfg, run[..|run| - 1]);
      var last := run[|run| - 1];
      if before.Some? && Enabled(cfg, before.value, last) then Some(Apply(cfg, before.value, last)) else None
  }

  // ---------------------------------------------------------------- permits and in-flight counts

  predicate Holds(stage: Stage) { !stage.Queued? }

  predicate InFlight(stage: Stage) { stage.Counted? || stage.Live? }

  ghost function Holders(s: State, i: nat): set<nat> {
    set c | c in s.callers && s.callers[c].At? && s.callers[c].i == i && Holds(s.callers[c].stage)
  }

  ghost function Flying(s: State, i: nat): set<nat> {
    set c | c in s.callers && s.callers[c].At? && s.callers[c].i == i && InFlight(s.callers[c].stage)
  }

  /** Free permits and held ones make up the instance's pages; the in-flight counter is
      the live checkouts, the callers about to read the handle and the cancelled ones. */
  ghost predicate Balanced(cfg: Config, s: State, i: nat)
    requires i < |s.insts|
  {
    && s.insts[i].free + |Holders(s, i)| == cfg.pages
    && s.insts[i].inFlight == |Flying(s, i)| + s.insts[i].leaked
  }

  /** A caller names an instance of the pool. */
  predicate InPool(s: State, caller: Caller) {
    match caller
    case At(i, _) => i < |s.insts|
    case Choosing(_, scan) => scan.best.Some? ==> scan.best.value.i < |s.insts|
  }

  ghost predicate Accounted(cfg: Config, s: State) {
    && |s.insts| == cfg.size
    && (forall c | c in s.callers :: c < s.arrived && InPool(s, s.callers[c]))
    && (forall i | 0 <= i < |s.insts| :: Balanced(cfg, s, i))
  }

  lemma SetStep(before: set<nat>, after: set<nat>, c: nat, was: bool, stays: bool)
    requires c in before <==> was
    requires c in after <==> stays
    requires forall d | d != c :: d in before <==> d in after
    ensures |after| == |before| + (if stays then 1 else 0) - (if was then 1 else 0)
  {
    if stays && !was {
      assert after == before + {c};
    } else if was && !stays {
      assert before == after + {c};
    } else {
      assert before == after;
    }
  }

  predicate Occupies(s: State, c: nat, i: nat, holding: bool) {
    && c in s.callers
    && s.callers[c].At? && s.callers[c].i == i
    && if holding then Holds(s.callers[c].stage) else InFlight(s.callers[c].stage)
  }

  lemma CallKeepsBalance(cfg: Config, s: State, c: nat, act: Act, j: nat)
    requires Enabled(cfg, s, Call(c, act)) && j < |s.insts|
    requires Balanced(cfg, s, j)
    ensures Balanced(cfg, Apply(cfg, s, Call(c, act)), j)
  {
    var s' := Apply(cfg, s, Call(c, act));
    SetStep(Holders(s, j), Holders(s', j), c, Occupies(s, c, j, true), Occupies(s', c, j, true));
    SetStep(Flying(s, j), Flying(s', j), c, Occupies(s, c, j, false), Occupies(s', c, j, false));
  }

  lemma CallersUntouched(cfg: Config, s: State, s': State, j: nat)
    requires j < |s.insts| && j < |s'.insts| && s'.callers == s.callers
    requires (s'.insts[j].free, s'.insts[j].inFlight, s'.insts[j].leaked)
      == (s.insts[j].free, s.insts[j].inFlight, s.insts[j].leaked)
    requires Balanced(cfg, s, j)
    ensures Balanced(cfg, s', j)
  {
    assert Holders(s', j) == Holders(s, j) && Flying(s', j) == Flying(s, j);
  }

  lemma ChoiceKeepsBalance(cfg: Config, s: State, step: Step, j: nat)
    requires Enabled(cfg, s, step) && !step.Call? && !step.Run? && j < |s.insts|
    requires forall c | c in s.callers :: c < s.arrived
    requires Balanced(cfg, s, j)
    ensures Balanced(cfg, Apply(cfg, s, step), j)
  {
    var s' := Apply(cfg, s, step);
    assert Holders(s', j) == Holders(s, j) && Flying(s', j) == Flying(s, j);
  }

  lemma StepKeepsAccounted(cfg: Config, s: State, step: Step)
    requires Accounted(cfg, s) && Enabled(cfg, s, step)
    ensures Accounted(cfg, Apply(cfg, s, step))
  {
    var s' := Apply(cfg, s, step);
    forall j | 0 <= j < |s'.insts|
      ensures Balanced(cfg, s', j)
    {
      assert Balanced(cfg, s, j);
      match step {
        case Call(c, act) => CallKeepsBalance(cfg, s, c, act, j);
        case Run(i, act) => CallersUntouched(cfg, s, s', j);
        case _ => ChoiceKeepsBalance(cfg, s, step, j);
      }
    }
  }

  // ---------------------------------------------------------------- replacements are serialized

  predicate Out(phase: Phase) {
    phase.NeedsToken? || phase == DrainLoop || phase == Replacing || phase == Swapped || phase == ServedReset
  }

  predicate HasToken(phase: Phase) {
    phase == DrainLoop || phase == Replacing || phase == Swapped || phase == ServedReset || phase == Finishing
  }

  ghost function TokenHolders(s: State): set<nat> {
    set i: nat | i < |s.insts| && HasToken(s.insts[i].manager)
  }

  /** The status tells where the manager is, and the token has one holder at most. */
  ghost predicate Serialized(s: State) {
    && (forall i | 0 <= i < |s.insts| :: s.insts[i].status != Active <==> Out(s.insts[i].manager))
    && s.token + |TokenHolders(s)| == MAX_UNAVAILABLE
  }

  lemma CallKeepsManager(inst: Instance, stage: Stage, act: Act)
    requires CanAct(inst, stage, act)
    ensures (NextInstance(inst, stage, act).status, NextInstance(inst, stage, act).manager)
      == (inst.status, inst.manager)
  {
  }

  lemma ManageKeepsStatus(cfg: Config, now: nat, token: nat, inst: Instance, act: ManagerAct)
    requires CanManage(cfg, token, inst, act)
    requires inst.status != Active <==> Out(inst.manager)
    ensures var inst' := Manage(cfg, now, token, inst, act);
            && (inst'.status != Active <==> Out(inst'.manager))
            && (act.TakeToken? ==> HasToken(inst'.manager) && !HasToken(inst.manager))
            && (act.DropToken? ==> !HasToken(inst'.manager) && HasToken(inst.manager))
            && (!act.TakeToken? && !act.DropToken? ==> HasToken(inst'.manager) == HasToken(inst.manager))
  {
  }

  lemma StepKeepsSerialized(cfg: Config, s: State, step: Step)
    requires Serialized(s) && Enabled(cfg, s, step)
    ensures Serialized(Apply(cfg, s, step))
  {
    var s' := Apply(cfg, s, step);
    match step {
      case Run(i, act) =>
        ManageKeepsStatus(cfg, s.now, s.token, s.insts[i], act);
        hide Manage, HasToken, Out;
        SetStep(TokenHolders(s), TokenHolders(s'), i, HasToken(s.insts[i].manager), HasToken(s'.insts[i].manager));
      case Call(c, act) =>
        CallKeepsManager(s.insts[s.callers[c].i], s.callers[c].stage, act);
        hide NextInstance, NextCaller, HasToken, Out;
        assert TokenHolders(s') == TokenHolders(s);
      case _ =>
        assert TokenHolders(s') == TokenHolders(s);
    }
  }

  // ---------------------------------------------------------------- no count trigger is lost

  ghost predicate WakeComing(s: State, i: nat)
    requires i < |s.insts|
  {
    || s.insts[i].notified
    || exists c :: c in s.callers && s.callers[c] == At(i, Served(true))
  }

  predicate Listening(phase: Phase) { phase == Waiting || phase == ServedReset || phase == Finishing }

  ghost predicate WakesKept(cfg: Config, s: State) {
    forall i | 0 <= i < |s.insts| && Due(cfg, s.insts[i]) :: WakeComing(s, i)
  }

  lemma CallKeepsWake(cfg: Config, s: State, c: nat, act: Act, j: nat)
    requires Enabled(cfg, s, Call(c, act)) && j < |s.insts|
    requires WakeComing(s, j)
    ensures WakeComing(Apply(cfg, s, Call(c, act)), j)
  {
    if !s.insts[j].notified {
      var d :| d in s.callers && s.callers[d] == At(j, Served(true));
      if d != c {
        assert d in Apply(cfg, s, Call(c, act)).callers
          && Apply(cfg, s, Call(c, act)).callers[d] == At(j, Served(true));
      }
    }
  }

  lemma OthersKeepWake(cfg: Config, s: State, step: Step, j: nat)
    requires Enabled(cfg, s, step) && !step.Call? && j < |s.insts|
    requires forall c | c in s.callers :: c < s.arrived
    requires WakeComing(s, j) && step != Run(j, TakeWake)
    ensures WakeComing(Apply(cfg, s, step), j)
  {
    var s' := Apply(cfg, s, step);
    if !s.insts[j].notified {
      var d :| d in s.callers && s.callers[d] == At(j, Served(true));
      assert d in s'.callers && s'.callers[d] == At(j, Served(true));
    }
  }

  /** A wake-up is due for this instance. */
  predicate Due(cfg: Config, inst: Instance) {
    Listening(inst.manager) && cfg.recycleAfter > 0 && inst.served >= cfg.recycleAfter
  }

  lemma ManageKeepsDue(cfg: Config, now: nat, token: nat, inst: Instance, act: ManagerAct)
    requires CanManage(cfg, token, inst, act) && Due(cfg, Manage(cfg, now, token, inst, act))
    ensures Due(cfg, inst) && !act.TakeWake?
  {
  }

  lemma CallMakesDue(cfg: Config, s: State, c: nat, act: Act, i: nat)
    requires Enabled(cfg, s, Call(c, act)) && i < |s.insts|
    requires Due(cfg, Apply(cfg, s, Call(c, act)).insts[i]) && !Due(cfg, s.insts[i])
    ensures WakeComing(Apply(cfg, s, Call(c, act)), i)
  {
    var s' := Apply(cfg, s, Call(c, act));
    assert act.AddServed? && s'.callers[c] == At(i, Served(true));
  }

  lemma StepKeepsWakes(cfg: Config, s: State, step: Step)
    requires Accounted(cfg, s) && WakesKept(cfg, s) && Enabled(cfg, s, step)
    ensures WakesKept(cfg, Apply(cfg, s, step))
  {
    var s' := Apply(cfg, s, step);
    forall i | 0 <= i < |s'.insts| && Due(cfg, s'.insts[i])
      ensures WakeComing(s', i)
    {
      match step {
        case Call(c, act) =>
          if Due(cfg, s.insts[i]) {
            CallKeepsWake(cfg, s, c, act, i);
          } else {
            CallMakesDue(cfg, s, c, act, i);
          }
        case Run(j, act) =>
          if i == j {
            ManageKeepsDue(cfg, s.now, s.token, s.insts[i], act);
          }
          OthersKeepWake(cfg, s, step, i);
        case _ =>
          OthersKeepWake(cfg, s, step, i);
      }
    }
  }

  // ---------------------------------------------------------------- a drain that reads zero

  /** Times recorded for one instance: leaving Active precedes the zero reading. */
  ghost predicate TimesOrdered(inst: Instance, now: nat) {
    && (inst.gen in inst.leftAt <==> inst.manager.NeedsToken? || inst.manager == DrainLoop || inst.manager == Replacing)
    && (inst.gen in inst.zeroAt ==> inst.manager == Replacing)
    && (forall g | g in inst.leftAt :: g <= inst.gen && inst.leftAt[g] < now)
    && (forall g | g in inst.zeroAt :: g in inst.leftAt && inst.leftAt[g] < inst.zeroAt[g] < now)
  }

  /** A caller on browser `g` re-checked before the status left Active, and if the drain
      of `g` read zero, it was counted only after that reading. */
  ghost predicate Escaped(inst: Instance, g: nat, checked: nat, counted: nat) {
    && (g in inst.leftAt ==> checked < inst.leftAt[g])
    && (g in inst.zeroAt ==> inst.zeroAt[g] < counted)
  }

  ghost predicate StageOrdered(inst: Instance, stage: Stage, now: nat) {
    match stage
    case Checked(checked) => checked < now && (inst.gen in inst.leftAt ==> checked < inst.leftAt[inst.gen])
    case Counted(checked, counted) => checked < counted < now && Escaped(inst, inst.gen, checked, counted)
    case Live(g, checked, counted) => g <= inst.gen && checked < counted < now && Escaped(inst, g, checked, counted)
    case _ => true
  }

  ghost predicate History(s: State) {
    && (forall i | 0 <= i < |s.insts| :: TimesOrdered(s.insts[i], s.now))
    && (forall c | c in s.callers && s.callers[c].At? && s.callers[c].i < |s.insts| ::
          StageOrdered(s.insts[s.callers[c].i], s.callers[c].stage, s.now))
  }

  lemma ManageKeepsTimes(cfg: Config, now: nat, token: nat, inst: Instance, act: ManagerAct)
    requires TimesOrdered(inst, now) && CanManage(cfg, token, inst, act)
    ensures TimesOrdered(Manage(cfg, now, token, inst, act), now + 1)
  {
  }

  lemma ManageKeepsStage(cfg: Config, now: nat, token: nat, inst: Instance, act: ManagerAct, stage: Stage)
    requires TimesOrdered(inst, now) && CanManage(cfg, token, inst, act)
    requires StageOrdered(inst, stage, now)
    requires InFlight(stage) ==> inst.inFlight > 0
    ensures StageOrdered(Manage(cfg, now, token, inst, act), stage, now + 1)
  {
  }

  lemma CallKeepsTimes(cfg: Config, now: nat, inst: Instance, i: nat, stage: Stage, act: Act)
    requires TimesOrdered(inst, now) && CanAct(inst, stage, act)
    requires StageOrdered(inst, stage, now)
    requires inst.status == Active ==> !Out(inst.manager)
    ensures TimesOrdered(NextInstance(inst, stage, act), now + 1)
    ensures var next := NextCaller(cfg, inst, now, i, stage, act);
            next.Some? && next.value.At? ==>
              next.value.i == i && StageOrdered(NextInstance(inst, stage, act), next.value.stage, now + 1)
  {
  }

  lemma CallKeepsStage(now: nat, inst: Instance, stage: Stage, act: Act, other: Stage)
    requires CanAct(inst, stage, act) && StageOrdered(inst, other, now)
    ensures StageOrdered(NextInstance(inst, stage, act), other, now + 1)
  {
  }

  lemma FlyingCounts(cfg: Config, s: State, c: nat)
    requires Accounted(cfg, s) && c in s.callers && s.callers[c].At? && InFlight(s.callers[c].stage)
    ensures s.insts[s.callers[c].i].inFlight > 0
  {
    assert c in Flying(s, s.callers[c].i);
    assert Balanced(cfg, s, s.callers[c].i);
  }

  lemma RunKeepsHistory(cfg: Config, s: State, i: nat, act: ManagerAct)
    requires Accounted(cfg, s) && History(s) && Enabled(cfg, s, Run(i, act))
    ensures History(Apply(cfg, s, Run(i, act)))
  {
    var s' := Apply(cfg, s, Run(i, act));
    ManageKeepsTimes(cfg, s.now, s.token, s.insts[i], act);
    forall c | c in s'.callers && s'.callers[c].At?
      ensures StageOrdered(s'.insts[s.callers[c].i], s.callers[c].stage, s'.now)
    {
      if s.callers[c].i == i {
        if InFlight(s.callers[c].stage) {
          FlyingCounts(cfg, s, c);
        }
        ManageKeepsStage(cfg, s.now, s.token, s.insts[i], act, s.callers[c].stage);
      }
    }
  }

  lemma CallKeepsOther(cfg: Config, s: State, c: nat, act: Act, d: nat)
    requires History(s) && Enabled(cfg, s, Call(c, act)) && d != c
    requires forall d | d in s.callers && s.callers[d].At? :: s.callers[d].i < |s.insts|
    ensures var s' := Apply(cfg, s, Call(c, act));
            d in s'.callers && s'.callers[d].At? ==>
              s'.callers[d].i < |s'.insts| && StageOrdered(s'.insts[s'.callers[d].i], s'.callers[d].stage, s'.now)
  {
    var At(i, stage) := s.callers[c];
    hide NextInstance, NextCaller, CanAct;
    if d in s.callers && s.callers[d].At? {
      if s.callers[d].i == i {
        CallKeepsStage(s.now, s.insts[i], stage, act, s.callers[d].stage);
      } else {
        LaterStage(s.insts[s.callers[d].i], s.callers[d].stage, s.now);
      }
    }
    hide StageOrdered, TimesOrdered;
  }

  lemma LaterStage(inst: Instance, stage: Stage, now: nat)
    requires StageOrdered(inst, stage, now)
    ensures StageOrdered(inst, stage, now + 1)
  {
  }

  lemma LaterTimes(inst: Instance, now: nat)
    requires TimesOrdered(inst, now)
    ensures TimesOrdered(inst, now + 1)
  {
  }

  lemma CallKeepsHistory(cfg: Config, s: State, c: nat, act: Act)
    requires Accounted(cfg, s) && Serialized(s) && History(s) && Enabled(cfg, s, Call(c, act))
    ensures History(Apply(cfg, s, Call(c, act)))
  {
    var s' := Apply(cfg, s, Call(c, act));
    var At(i, stage) := s.callers[c];
    CallKeepsTimes(cfg, s.now, s.insts[i], i, stage, act);
    hide NextInstance, NextCaller, CanAct, StageOrdered, TimesOrdered, Balanced, Out;
    forall j | 0 <= j < |s'.insts|
      ensures TimesOrdered(s'.insts[j], s'.now)
    {
      if j != i {
        LaterTimes(s.insts[j], s.now);
      }
    }
    forall d: nat | d != c
      ensures d in s'.callers && s'.callers[d].At? ==>
                s'.callers[d].i < |s'.insts| && StageOrdered(s'.insts[s'.callers[d].i], s'.callers[d].stage, s'.now)
    {
      CallKeepsOther(cfg, s, c, act, d);
    }
  }

  lemma ChoiceKeepsHistory(cfg: Config, s: State, step: Step)
    requires History(s) && Enabled(cfg, s, step) && !step.Call? && !step.Run?
    requires forall c | c in s.callers :: InPool(s, s.callers[c])
    ensures History(Apply(cfg, s, step))
  {
    var s' := Apply(cfg, s, step);
    assert s'.insts == s.insts && s'.now == s.now + 1;
    assert forall c | c in s'.callers && s'.callers[c].At? ::
        (c in s.callers && s.callers[c] == s'.callers[c]) || s'.callers[c].stage.Queued?;
    hide Apply, Enabled, StageOrdered, TimesOrdered;
    forall i | 0 <= i < |s'.insts|
      ensures TimesOrdered(s'.insts[i], s'.now)
    {
      LaterTimes(s.insts[i], s.now);
    }
    forall c | c in s'.callers && s'.callers[c].At? && s'.callers[c].i < |s'.insts|
      ensures StageOrdered(s'.insts[s'.callers[c].i], s'.callers[c].stage, s'.now)
    {
      if s'.callers[c].stage.Queued? {
        QueuedIsOrdered(s'.insts[s'.callers[c].i], s'.callers[c].stage, s'.now);
      } else {
        LaterStage(s.insts[s.callers[c].i], s.callers[c].stage, s.now);
      }
    }
  }

  lemma QueuedIsOrdered(inst: Instance, stage: Stage, now: nat)
    requires stage.Queued?
    ensures StageOrdered(inst, stage, now)
  {
  }

  lemma StepKeepsHistory(cfg: Config, s: State, step: Step)
    requires Accounted(cfg, s) && Serialized(s) && History(s) && Enabled(cfg, s, step)
    ensures History(Apply(cfg, s, step))
  {
    hide Apply, Enabled, History, Serialized, Balanced;
    match step {
      case Call(c, act) => CallKeepsHistory(cfg, s, c, act);
      case Run(i, act) => RunKeepsHistory(cfg, s, i, act);
      case _ => ChoiceKeepsHistory(cfg, s, step);
    }
  }

  // ---------------------------------------------------------------- every run

  ghost predicate Sound(cfg: Config, s: State) {
    Accounted(cfg, s) && Serialized(s) && WakesKept(cfg, s) && History(s)
  }

  lemma InitIsSound(cfg: Config)
    ensures Sound(cfg, Init(cfg))
  {
    var s := Init(cfg);
    assert TokenHolders(s) == {};
    forall i | 0 <= i < |s.insts|
      ensures Balanced(cfg, s, i)
    {
      assert Holders(s, i) == {} && Flying(s, i) == {};
    }
  }

  lemma {:induction false} EveryRunIsSound(cfg: Config, run: seq<Step>)
    requires Exec(cfg, run).Some?
    ensures Sound(cfg, Exec(cfg, run).value)
  {
    if run == [] {
      InitIsSound(cfg);
    } else {
      var s, step := Exec(cfg, run[..|run| - 1]).value, run[|run| - 1];
      EveryRunIsSound(cfg, run[..|run| - 1]);
      StepKeepsAccounted(cfg, s, step);
      StepKeepsSerialized(cfg, s, step);
      StepKeepsWakes(cfg, s, step);
      StepKeepsHistory(cfg, s, step);
    }
  }

  /** No count trigger is lost: a waiting manager whose instance has served enough has a
      wake-up stored, or the dropping checkout that will store it is still on its way. */
  lemma NoTriggerLost(cfg: Config, run: seq<Step>, i: nat)
    requires Exec(cfg, run).Some? && i < cfg.size
    ensures var s := Exec(cfg, run).value;
            |s.insts| == cfg.size
            && (s.insts[i].manager == Waiting && cfg.recycleAfter > 0 && s.insts[i].served >= cfg.recycleAfter ==>
                  s.insts[i].notified || exists c :: c in s.callers && s.callers[c] == At(i, Served(true)))
  {
    EveryRunIsSound(cfg, run);
    var s := Exec(cfg, run).value;
    if Due(cfg, s.insts[i]) {
      assert WakeComing(s, i);
    }
  }

  /** The drain-and-replace section has one occupant at most. */
  lemma OneReplacementAtATime(cfg: Config, run: seq<Step>, i: nat, j: nat)
    requires Exec(cfg, run).Some? && i < cfg.size && j < cfg.size
    ensures var s := Exec(cfg, run).value;
            |s.insts| == cfg.size
            && (HasToken(s.insts[i].manager) && HasToken(s.insts[j].manager) ==> i == j)
  {
    EveryRunIsSound(cfg, run);
    var s := Exec(cfg, run).value;
    if HasToken(s.insts[i].manager) && HasToken(s.insts[j].manager) && i != j {
      assert {i, j} <= TokenHolders(s);
      SubsetSize({i, j}, TokenHolders(s));
    }
  }

  /** When the drain loop reads zero no checkout is live on the instance; whoever still
      gets the drained browser passed its re-check before the status left Active and was
      counted only after that reading. */
  lemma ZeroDrainIsClean(cfg: Config, run: seq<Step>, i: nat, c: nat)
    requires Exec(cfg, run).Some? && i < cfg.size
    ensures var s := Exec(cfg, run).value;
            |s.insts| == cfg.size
            && (c in s.callers && s.callers[c].At? && s.callers[c].i == i && s.callers[c].stage.Live? ==>
                  var inst := s.insts[i];
                  var Live(g, checked, counted) := s.callers[c].stage;
                  && inst.inFlight > 0
                  && (g in inst.zeroAt ==>
                        g in inst.leftAt && checked < inst.leftAt[g] < inst.zeroAt[g] < counted))
  {
    EveryRunIsSound(cfg, run);
    var s := Exec(cfg, run).value;
    if c in s.callers && s.callers[c].At? && s.callers[c].i == i && s.callers[c].stage.Live? {
      FlyingCounts(cfg, s, c);
      assert StageOrdered(s.insts[i], s.callers[c].stage, s.now);
    }
  }

  // ---------------------------------------------------------------- capacity

  ghost function HoldersBelow(s: State, k: nat): set<nat> {
    set c | c in s.callers && s.callers[c].At? && s.callers[c].i < k && Holds(s.callers[c].stage)
  }

  lemma {:induction false} HoldersBounded(cfg: Config, s: State, k: nat)
    requires Accounted(cfg, s) && k <= cfg.size
    ensures |HoldersBelow(s, k)| <= k * cfg.pages
  {
    if k == 0 {
      assert HoldersBelow(s, 0) == {};
    } else {
      HoldersBounded(cfg, s, k - 1);
      assert HoldersBelow(s, k) == HoldersBelow(s, k - 1) + Holders(s, k - 1);
      assert Balanced(cfg, s, k - 1);
      assert k * cfg.pages == (k - 1) * cfg.pages + cfg.pages;
    }
  }

  /** Checkouts alive over the whole pool, from the permit to its release. */
  lemma CapacityHolds(cfg: Config, run: seq<Step>)
    requires Exec(cfg, run).Some?
    ensures var s := Exec(cfg, run).value;
            && |HoldersBelow(s, cfg.size)| <= cfg.size * cfg.pages
            && forall c | c in s.callers && s.callers[c].At? && Holds(s.callers[c].stage) ::
              c in HoldersBelow(s, cfg.size)
  {
    EveryRunIsSound(cfg, run);
    HoldersBounded(cfg, Exec(cfg, run).value, cfg.size);
  }

  // ---------------------------------------------------------------- how many instances can be out

  ghost predicate Unavailable(s: State, i: nat) { i < |s.insts| && s.insts[i].status != Active }

  ghost predicate AtMostOneOut(cfg: Config) {
    forall run, i, j | Exec(cfg, run).Some? && Unavailable(Exec(cfg, run).value, i)
      && Unavailable(Exec(cfg, run).value, j) :: i == j
  }

  lemma TakeStep(cfg: Config, run: seq<Step>, s: State, step: Step) returns (run': seq<Step>, s': State)
    requires Exec(cfg, run) == Some(s) && Enabled(cfg, s, step)
    ensures run' == run + [step] && run <= run' && s' == Apply(cfg, s, step) && Exec(cfg, run') == Some(s')
  {
    run' := run + [step];
    assert run'[..|run|] == run;
    s' := Apply(cfg, s, step);
  }

  /** The first `k` instances are waiting for the token, but for `spare`; nobody has called. */
  ghost predicate OutBelow(cfg: Config, s: State, reason: Reason, k: nat, spare: nat) {
    && |s.insts| == cfg.size && s.callers == map[] && s.arrived == 0 && s.token == MAX_UNAVAILABLE
    && forall i | 0 <= i < |s.insts| ::
         if i < k && i != spare then s.insts[i].status != Active && s.insts[i].manager == NeedsToken(reason)
         else s.insts[i] == Fresh(cfg)
  }

  lemma TakeOutOne(cfg: Config, run: seq<Step>, s: State, reason: Reason, k: nat, spare: nat)
    returns (run': seq<Step>, s': State)
    requires Exec(cfg, run) == Some(s) && reason != Count
    requires k < cfg.size && k != spare && OutBelow(cfg, s, reason, k, spare)
    ensures Exec(cfg, run') == Some(s') && OutBelow(cfg, s', reason, k + 1, spare)
  {
    hide Exec;
    var s1;
    run', s1 := TakeStep(cfg, run, s, Run(k, Trigger(reason)));
    assert s1.insts == s.insts[k := Fresh(cfg).(manager := Triggered(reason))];
    run', s' := TakeStep(cfg, run', s1, Run(k, LeaveActive));
    assert s'.insts == s1.insts[k := s'.insts[k]] && s'.insts[k].status != Active;
  }

  /** The status leaves Active before the token is taken, so crashes, or ages reached, can take
      out any instances at once, whatever the pool size: all of them, or all but one. */
  lemma {:induction false} EveryInstanceCanBeOut(cfg: Config, reason: Reason, k: nat, spare: nat)
    returns (run: seq<Step>, s: State)
    requires k <= cfg.size && reason != Count
    ensures Exec(cfg, run) == Some(s) && OutBelow(cfg, s, reason, k, spare)
  {
    if k == 0 {
      run, s := [], Init(cfg);
    } else {
      run, s := EveryInstanceCanBeOut(cfg, reason, k - 1, spare);
      if k - 1 != spare {
        run, s := TakeOutOne(cfg, run, s, reason, k - 1, spare);
      }
    }
  }

  lemma AtMostOneOutExactlyWhen(cfg: Config)
    ensures AtMostOneOut(cfg) <==> cfg.size <= 1
  {
    if cfg.size <= 1 {
      forall run | Exec(cfg, run).Some?
        ensures |Exec(cfg, run).value.insts| <= 1
      {
        EveryRunIsSound(cfg, run);
      }
    } else {
      var run, s := EveryInstanceCanBeOut(cfg, Age, cfg.size, cfg.size);
      assert Unavailable(s, 0) && Unavailable(s, 1);
    }
  }

  // ---------------------------------------------------------------- routing

  /** Where a scan stands after `k` instances, if none of them changes meanwhile. */
  function Scanned(insts: seq<Instance>, k: nat): Scan
    requires k <= |insts|
  {
    if k == 0 then FIRST_LOOK else
      var scan := LookAt(Scanned(insts, k - 1), insts[k - 1]);
      if scan.active then Weigh(scan, insts[k - 1]) else scan
  }

  /** The least-loaded active instance, the last one among equals: what an undisturbed scan
      ends with. */
  method PickInstance(insts: seq<Instance>) returns (chosen: Option<nat>)
    ensures chosen.None? <==> forall i | 0 <= i < |insts| :: insts[i].status != Active
    ensures chosen.Some? ==>
              && chosen.value < |insts| && insts[chosen.value].status == Active
              && forall j | 0 <= j < |insts| && insts[j].status == Active ::
                   insts[j].free < insts[chosen.value].free
                     || (insts[j].free == insts[chosen.value].free && j <= chosen.value)
    ensures Scanned(insts, |insts|) == ScanOf(insts, |insts|, chosen)
  {
    chosen := None;
    for k := 0 to |insts|
      invariant chosen.None? <==> forall i | 0 <= i < k :: insts[i].status != Active
      invariant chosen.Some? ==>
                  && chosen.value < k && insts[chosen.value].status == Active
                  && forall j | 0 <= j < k && insts[j].status == Active ::
                       insts[j].free < insts[chosen.value].free
                         || (insts[j].free == insts[chosen.value].free && j <= chosen.value)
      invariant Scanned(insts, k) == ScanOf(insts, k, chosen)
    {
      if insts[k].status == Active && (chosen.None? || insts[k].free >= insts[chosen.value].free) {
        chosen := Some(k);
      }
    }
  }

  function ScanOf(insts: seq<Instance>, k: nat, chosen: Option<nat>): Scan
    requires chosen.Some? ==> chosen.value < |insts|
  {
    Scan(k, false, if chosen.Some? then Some(Best(chosen.value, insts[chosen.value].free)) else None)
  }

  /** Nothing but one caller's scan has changed. */
  ghost predicate OnlyScanned(s: State, s': State, c: nat, tries: nat, scan: Scan) {
    && (s'.insts, s'.token, s'.arrived) == (s.insts, s.token, s.arrived)
    && s'.callers == s.callers[c := Choosing(tries, scan)]
  }

  lemma ScanOne(cfg: Config, run: seq<Step>, s: State, c: nat) returns (run': seq<Step>, s': State)
    requires Exec(cfg, run) == Some(s) && Scanning(s, c) && !s.callers[c].scan.active
    requires s.callers[c].scan.next < |s.insts|
    ensures run <= run' && Exec(cfg, run') == Some(s')
    ensures var inst := s.insts[s.callers[c].scan.next];
            var scan := LookAt(s.callers[c].scan, inst);
            OnlyScanned(s, s', c, s.callers[c].tries, if scan.active then Weigh(scan, inst) else scan)
  {
    hide Exec;
    run', s' := TakeStep(cfg, run, s, LoadStatus(c));
    if s'.callers[c].scan.active {
      run', s' := TakeStep(cfg, run', s', LoadPermits(c));
    }
  }

  lemma ScannedTwice(s: State, s1: State, s2: State, c: nat, tries: nat, a: Scan, b: Scan)
    requires OnlyScanned(s, s1, c, tries, a) && OnlyScanned(s1, s2, c, tries, b)
    ensures OnlyScanned(s, s2, c, tries, b)
  {
  }

  /** The undisturbed scan as a run. */
  lemma {:induction false} QuietScan(cfg: Config, run: seq<Step>, s: State, c: nat, k: nat)
    returns (run': seq<Step>, s': State)
    requires Exec(cfg, run) == Some(s) && Scanning(s, c) && s.callers[c].scan == FIRST_LOOK && k <= |s.insts|
    ensures run <= run' && Exec(cfg, run') == Some(s')
    ensures OnlyScanned(s, s', c, s.callers[c].tries, Scanned(s.insts, k))
  {
    hide Exec;
    if k == 0 {
      run', s' := run, s;
      assert s.callers[c := s.callers[c]] == s.callers;
    } else {
      var s1;
      run', s1 := QuietScan(cfg, run, s, c, k - 1);
      ScannedNext(s.insts, k - 1);
      hide Scanned, LookAt, Weigh;
      run', s' := ScanOne(cfg, run', s1, c);
      ScannedTwice(s, s1, s', c, s.callers[c].tries, Scanned(s.insts, k - 1), Scanned(s.insts, k));
    }
  }

  lemma {:induction false} ScannedNext(insts: seq<Instance>, k: nat)
    requires k < |insts|
    ensures Scanned(insts, k).next == k && !Scanned(insts, k).active
    ensures var scan := LookAt(Scanned(insts, k), insts[k]);
            Scanned(insts, k + 1) == if scan.active then Weigh(scan, insts[k]) else scan
  {
    if k > 0 {
      ScannedNext(insts, k - 1);
    }
  }

  /** With every instance idle and Active the last one is chosen. */
  lemma {:induction false} ScannedIdle(insts: seq<Instance>, pages: nat, k: nat)
    requires k <= |insts| && forall i | 0 <= i < |insts| :: insts[i].status == Active && insts[i].free == pages
    ensures Scanned(insts, k) == Scan(k, false, if k == 0 then None else Some(Best(k - 1, pages)))
  {
    if k > 0 {
      ScannedIdle(insts, pages, k - 1);
    }
  }

  /** With none Active nothing is found. */
  lemma {:induction false} ScannedOut(insts: seq<Instance>, k: nat)
    requires k <= |insts| && forall i | 0 <= i < |insts| :: insts[i].status != Active
    ensures Scanned(insts, k) == Scan(k, false, None)
  {
    if k > 0 {
      ScannedOut(insts, k - 1);
    }
  }

  /** So with every instance out a checkout fails. */
  lemma CheckoutFindsNone(cfg: Config, reason: Reason) returns (run: seq<Step>, s: State)
    requires reason != Count
    ensures Exec(cfg, run) == Some(s) && Enabled(cfg, s, GiveUp(0))
    ensures forall i | 0 <= i < |s.insts| :: s.insts[i].status != Active
  {
    run, s := EveryInstanceCanBeOut(cfg, reason, cfg.size, cfg.size);
    hide Exec;
    run, s := TakeStep(cfg, run, s, Arrive);
    ScannedOut(s.insts, cfg.size);
    run, s := QuietScan(cfg, run, s, 0, cfg.size);
  }
}
