/** Any number of callers running tasks under one scheduler, step by step. */
module SchedulerMachine {
  import opened Arithmetic
  import opened Wrappers
  import opened SchedulerSpec

  datatype Verdict = Finished(result: TaskResult) | GaveUp | Cancelled

  /**
   * Where a call of Do stands: before the critical section of acquire; after it without a permit, holding the
   * channel and the delay it saw; waiting with a timer; waiting without one; running its task; over.
   */
  datatype Phase =
    | Trying
    | Captured(epoch: nat, wait: int)
    | Timing(epoch: nat, wakeAt: int)
    | Parked(epoch: nat)
    | Running(permit: Permit)
    | Over(verdict: Verdict)

  /** `acquires` and `finishes` count the calls made so far; nothing depends on them. */
  datatype Caller = Caller(phase: Phase, attempt: nat, acquires: nat, finishes: nat)

  type Callers = map<nat, Caller>

  /** `reactions` records the generation of each permit whose rate limit changed the schedule. */
  datatype World = World(settings: Settings, schedule: Schedule, clock: int, callers: Callers, reactions: seq<nat>)

  datatype Action =
    | Start(c: nat)
    | Try(c: nat)
    | Wait(c: nat)
    | Wake(c: nat)
    | Cancel(c: nat)
    | End(c: nat, result: TaskResult)
    | Tick(d: nat)

  function Initial(initialConcurrency: int, maxConcurrency: int): World {
    World(InitialSettings(maxConcurrency), InitialSchedule(initialConcurrency, maxConcurrency), 0, map[], [])
  }

  function Goto(w: World, c: nat, phase: Phase): World
    requires c in w.callers
  {
    w.(callers := w.callers[c := w.callers[c].(phase := phase)])
  }

  function DoTry(w: World, c: nat): World
    requires c in w.callers
  {
    var (s, permit) := TryAcquire(w.schedule, w.clock);
    if permit.Some? then
      w.(schedule := s,
         callers := w.callers[c := w.callers[c].(phase := Running(permit.value), acquires := w.callers[c].acquires + 1)])
    else Goto(w, c, Captured(s.epoch, s.blockedUntil - w.clock))
  }

  predicate Closed(w: World, epoch: nat) {
    epoch < w.schedule.epoch
  }

  /** The caller waits and something it waits for has happened. */
  predicate CanWake(w: World, c: nat)
    requires c in w.callers
  {
    match w.callers[c].phase
    case Timing(epoch, wakeAt) => Closed(w, epoch) || wakeAt <= w.clock
    case Parked(epoch) => Closed(w, epoch)
    case _ => false
  }

  /** What Do does with the result of its task. */
  function AfterTask(c: Settings, caller: Caller, result: TaskResult): Caller {
    var finished := caller.(finishes := caller.finishes + 1);
    if !result.Limited? then finished.(phase := Over(Finished(result)))
    else if caller.attempt >= c.maxAttempts then finished.(phase := Over(GaveUp))
    else finished.(phase := Trying, attempt := caller.attempt + 1)
  }

  function DoEnd(w: World, c: nat, permit: Permit, result: TaskResult): World
    requires c in w.callers && w.schedule.inFlight > 0
  {
    var s := Finish(w.settings, w.schedule, permit, result, w.clock);
    w.(schedule := s,
       callers := w.callers[c := AfterTask(w.settings, w.callers[c], result)],
       reactions := if result.Limited? && s != Returned(w.schedule) then w.reactions + [permit.generation]
                    else w.reactions)
  }

  /** One step; an action that does not fit the caller's phase changes nothing. */
  function Next(w: World, a: Action): World {
    match a
    case Start(c) => if c in w.callers then w else w.(callers := w.callers[c := Caller(Trying, 1, 0, 0)])
    case Try(c) => if c in w.callers && w.callers[c].phase.Trying? then DoTry(w, c) else w
    case Wait(c) =>
      if c in w.callers && w.callers[c].phase.Captured? then
        var p := w.callers[c].phase;
        Goto(w, c, if p.wait > 0 then Timing(p.epoch, w.clock + p.wait) else Parked(p.epoch))
      else w
    case Wake(c) => if c in w.callers && CanWake(w, c) then Goto(w, c, Trying) else w
    case Cancel(c) =>
      if c in w.callers && (w.callers[c].phase.Timing? || w.callers[c].phase.Parked?) then Goto(w, c, Over(Cancelled))
      else w
    case End(c, result) =>
      if c in w.callers && w.callers[c].phase.Running? && w.schedule.inFlight > 0 then
        DoEnd(w, c, w.callers[c].phase.permit, result)
      else w
    case Tick(d) => w.(clock := w.clock + d)
  }

  function Run(w: World, actions: seq<Action>): World
    decreases actions
  {
    if actions == [] then w else Run(Next(w, actions[0]), actions[1..])
  }

  // ----- the invariant -----

  function RunningOf(callers: Callers): set<nat> {
    set c | c in callers && callers[c].phase.Running?
  }

  predicate Waits(phase: Phase) {
    phase.Trying? || phase.Captured? || phase.Timing? || phase.Parked?
  }

  /**
   * Why a waiting caller will not sleep for ever: unless its channel was closed, a timer or a permit is out.
   * A running caller with a current permit got it after the last block had ended.
   */
  predicate PhaseOk(s: Schedule, clock: int, phase: Phase) {
    match phase
    case Captured(epoch, wait) =>
      epoch <= s.epoch
      && (epoch == s.epoch ==> if wait > 0 then clock + wait >= s.blockedUntil else s.inFlight >= s.limit)
    case Timing(epoch, wakeAt) => epoch <= s.epoch && (epoch == s.epoch ==> wakeAt >= s.blockedUntil)
    case Parked(epoch) => epoch <= s.epoch && (epoch == s.epoch ==> s.inFlight >= s.limit)
    case Running(permit) =>
      permit.generation <= s.generation && (permit.generation == s.generation ==> s.blockedUntil <= clock)
    case _ => true
  }

  predicate Accounted(c: Settings, caller: Caller) {
    && 1 <= caller.attempt <= c.maxAttempts
    && caller.acquires == caller.finishes + (if caller.phase.Running? then 1 else 0)
    && caller.acquires <= caller.attempt
    && (caller.phase.Running? ==> caller.acquires == caller.attempt)
    && (Waits(caller.phase) ==> caller.acquires == caller.attempt - 1)
    && (caller.phase == Over(GaveUp) ==> caller.acquires == c.maxAttempts)
    && (caller.phase.Over? && caller.phase.verdict.Finished? ==> !caller.phase.verdict.result.Limited?)
  }

  predicate ReactionsInOrder(w: World) {
    |w.reactions| == w.schedule.generation && forall i :: 0 <= i < |w.reactions| ==> w.reactions[i] == i
  }

  ghost predicate Inv(w: World) {
    && InBounds(w.settings, w.schedule)
    && w.schedule.inFlight == |RunningOf(w.callers)|
    && (forall c :: c in w.callers ==>
          Accounted(w.settings, w.callers[c]) && PhaseOk(w.schedule, w.clock, w.callers[c].phase))
    && ReactionsInOrder(w)
  }

  lemma RunningUpdated(callers: Callers, c: nat, caller: Caller)
    ensures caller.phase.Running? ==> RunningOf(callers[c := caller]) == RunningOf(callers) + {c}
    ensures !caller.phase.Running? ==> RunningOf(callers[c := caller]) == RunningOf(callers) - {c}
  {
  }

  lemma TryKeeps(w: World, c: nat)
    requires Inv(w) && c in w.callers && w.callers[c].phase.Trying?
    ensures Inv(DoTry(w, c))
  {
    hide RunningOf;
    AcquireKeeps(w.settings, w.schedule, w.clock);
    RunningUpdated(w.callers, c, DoTry(w, c).callers[c]);
    assert c !in RunningOf(w.callers) by { NotRunning(w.callers, c); }
  }

  lemma NotRunning(callers: Callers, c: nat)
    ensures c in RunningOf(callers) <==> c in callers && callers[c].phase.Running?
  {
  }

  lemma GotoKeeps(w: World, c: nat, phase: Phase)
    requires Inv(w) && c in w.callers && !w.callers[c].phase.Running? && !phase.Running?
    requires PhaseOk(w.schedule, w.clock, phase) && Accounted(w.settings, w.callers[c].(phase := phase))
    ensures Inv(Goto(w, c, phase))
  {
    hide RunningOf;
    RunningUpdated(w.callers, c, w.callers[c].(phase := phase));
    NotRunning(w.callers, c);
  }

  /** The permit a caller returns was counted, so the receive from the semaphore cannot block. */
  lemma RunningIsCounted(w: World, c: nat)
    requires Inv(w) && c in w.callers && w.callers[c].phase.Running?
    ensures w.schedule.inFlight > 0
  {
    NotRunning(w.callers, c);
    assert |RunningOf(w.callers)| != 0;
  }

  lemma EndKeeps(w: World, c: nat, result: TaskResult)
    requires Inv(w) && c in w.callers && w.callers[c].phase.Running?
    ensures Inv(Next(w, End(c, result)))
  {
    hide RunningOf;
    RunningIsCounted(w, c);
    var permit := w.callers[c].phase.permit;
    FinishKeeps(w.settings, w.schedule, permit, result, w.clock);
    StaleFinishOnlyReturns(w.settings, w.schedule, permit, result, w.clock);
    RunningUpdated(w.callers, c, AfterTask(w.settings, w.callers[c], result));
    NotRunning(w.callers, c);
  }

  lemma StartKeeps(w: World, c: nat)
    requires Inv(w) && c !in w.callers
    ensures Inv(Next(w, Start(c)))
  {
    hide RunningOf;
    RunningUpdated(w.callers, c, Caller(Trying, 1, 0, 0));
    NotRunning(w.callers, c);
  }

  lemma StepKeeps(w: World, a: Action)
    requires Inv(w)
    ensures Inv(Next(w, a))
  {
    hide RunningOf, PhaseOk, InBounds, ReactionsInOrder, DoTry, DoEnd;
    match a
    case Start(c) => if c !in w.callers { StartKeeps(w, c); }
    case Try(c) => if c in w.callers && w.callers[c].phase.Trying? { TryKeeps(w, c); }
    case Wait(c) => if c in w.callers && w.callers[c].phase.Captured? { WaitKeeps(w, c); }
    case Wake(c) => if c in w.callers && CanWake(w, c) { ReleaseKeeps(w, c, Trying); }
    case Cancel(c) => if c in w.callers && (w.callers[c].phase.Timing? || w.callers[c].phase.Parked?) {
      ReleaseKeeps(w, c, Over(Cancelled));
    }
    case End(c, result) => if c in w.callers && w.callers[c].phase.Running? { EndKeeps(w, c, result); }
    case Tick(d) => TickKeeps(w, d);
  }

  lemma WaitKeeps(w: World, c: nat)
    requires Inv(w) && c in w.callers && w.callers[c].phase.Captured?
    ensures Inv(Next(w, Wait(c)))
  {
    hide RunningOf;
    var p := w.callers[c].phase;
    GotoKeeps(w, c, if p.wait > 0 then Timing(p.epoch, w.clock + p.wait) else Parked(p.epoch));
  }

  lemma ReleaseKeeps(w: World, c: nat, phase: Phase)
    requires Inv(w) && c in w.callers && (w.callers[c].phase.Timing? || w.callers[c].phase.Parked?)
    requires phase == Trying || phase == Over(Cancelled)
    ensures Inv(Goto(w, c, phase))
  {
    hide RunningOf;
    GotoKeeps(w, c, phase);
  }

  lemma TickKeeps(w: World, d: nat)
    requires Inv(w)
    ensures Inv(Next(w, Tick(d)))
  {
    hide RunningOf;
  }

  lemma {:induction false} RunKeeps(w: World, actions: seq<Action>)
    requires Inv(w)
    ensures Inv(Run(w, actions))
    decreases actions
  {
    hide Inv, Next;
    if actions != [] {
      StepKeeps(w, actions[0]);
      RunKeeps(Next(w, actions[0]), actions[1..]);
    }
  }

  ghost predicate Reachable(w: World) {
    exists initial: int, most: int, actions :: Run(Initial(initial, most), actions) == w
  }

  lemma ReachableInv(w: World)
    requires Reachable(w)
    ensures Inv(w)
  {
    var initial: int, most: int, actions :| Run(Initial(initial, most), actions) == w;
    ScheduleStartsOk(initial, most);
    assert RunningOf(map[]) == {};
    RunKeeps(Initial(initial, most), actions);
  }

  // ----- what holds in every reachable state -----

  /** The semaphore counts the running callers, and the adaptive fields stay in their bounds. */
  lemma BoundsHold(w: World)
    requires Reachable(w)
    ensures w.schedule.inFlight == |RunningOf(w.callers)| <= w.settings.capacity
    ensures 1 <= w.schedule.limit <= w.settings.capacity && 0 <= w.schedule.successes < w.schedule.limit
    ensures 0 <= w.schedule.backoff <= w.settings.maxBackoff
  {
    ReachableInv(w);
  }

  /** A caller that gets a permit leaves no more permits out than the limit, however far it was exceeded before. */
  lemma NoAcquireAboveLimit(w: World, c: nat)
    requires Reachable(w) && c in w.callers && w.callers[c].phase.Trying?
    requires c in Next(w, Try(c)).callers && Next(w, Try(c)).callers[c].phase.Running?
    ensures |RunningOf(Next(w, Try(c)).callers)| <= w.schedule.limit
  {
    ReachableInv(w);
    TryKeeps(w, c);
  }

  /**
   * No lost wake-up: a waiting caller can wake now, or has a timer for the end of the current block, or some
   * caller is running and the end of its task, whatever the result, will wake it.
   */
  lemma NoLostWakeUp(w: World, c: nat)
    requires Reachable(w) && c in w.callers && (w.callers[c].phase.Timing? || w.callers[c].phase.Parked?)
    ensures || CanWake(w, c)
            || (w.callers[c].phase.Timing? && w.callers[c].phase.wakeAt >= w.schedule.blockedUntil)
            || (exists r :: r in w.callers && w.callers[r].phase.Running?)
    ensures forall r, result :: r in w.callers && w.callers[r].phase.Running? ==>
              var w' := Next(w, End(r, result)); c in w'.callers && CanWake(w', c)
  {
    hide InBounds;
    ReachableInv(w);
    if w.callers[c].phase.Parked? && !CanWake(w, c) {
      ParkedMeansRunning(w, c);
    }
    forall r, result | r in w.callers && w.callers[r].phase.Running?
      ensures var w' := Next(w, End(r, result)); c in w'.callers && CanWake(w', c)
    {
      RunningIsCounted(w, r);
    }
  }

  lemma ParkedMeansRunning(w: World, c: nat)
    requires Inv(w) && c in w.callers && w.callers[c].phase.Parked? && !CanWake(w, c)
    ensures exists r :: r in w.callers && w.callers[r].phase.Running?
  {
    assert |RunningOf(w.callers)| >= 1;
    assert RunningOf(w.callers) != {};
    var r :| r in RunningOf(w.callers);
  }

  /**
   * No deadlock: when no task is running, a waiting caller gets a permit by its own steps alone once
   * enough time has passed.
   */
  lemma WaiterGetsThrough(w: World, c: nat)
    requires Reachable(w) && c in w.callers && Waits(w.callers[c].phase)
    requires forall r :: r in w.callers ==> !w.callers[r].phase.Running?
    ensures exists d: nat :: GetsThrough(w, c, d)
  {
    ReachableInv(w);
    assert RunningOf(w.callers) == {};
    var parked := Next(w, Wait(c));
    assert Inv(parked) by { StepKeeps(w, Wait(c)); }
    var phase := parked.callers[c].phase;
    var until := Max(w.schedule.blockedUntil, if phase.Timing? then phase.wakeAt else w.clock);
    var d: nat := Max(0, until - w.clock);
    var ticked := Next(parked, Tick(d));
    var woken := Next(ticked, Wake(c));
    assert woken.callers[c].phase.Trying?;
    assert Next(woken, Try(c)).callers[c].phase.Running?;
    assert Steps(w, c, d) == Next(woken, Try(c));
    assert GetsThrough(w, c, d);
  }

  function Steps(w: World, c: nat, d: nat): World {
    Next(Next(Next(Next(w, Wait(c)), Tick(d)), Wake(c)), Try(c))
  }

  predicate GetsThrough(w: World, c: nat, d: nat) {
    var w' := Steps(w, c, d);
    c in w'.callers && w'.callers[c].phase.Running?
  }

  /** The adaptive fields, which decide who may run. */
  predicate SameSchedule(s: Schedule, t: Schedule) {
    t == s.(inFlight := t.inFlight, epoch := t.epoch)
  }

  lemma BlockedStep(w: World, a: Action)
    requires Inv(w) && w.clock < w.schedule.blockedUntil
    ensures SameSchedule(w.schedule, Next(w, a).schedule) && Next(w, a).schedule.inFlight <= w.schedule.inFlight
    ensures w.clock <= Next(w, a).clock
  {
    hide RunningOf, InBounds;
  }

  /**
   * A pause runs its full length: as long as the clock has not reached the end of the current block, nothing
   * that happens starts a task, moves the end of the block, or changes limit, backoff or generation.
   */
  lemma {:induction false} PausesRunInFull(w: World, actions: seq<Action>)
    requires Inv(w) && Run(w, actions).clock < w.schedule.blockedUntil
    ensures SameSchedule(w.schedule, Run(w, actions).schedule)
    ensures Run(w, actions).schedule.inFlight <= w.schedule.inFlight
    decreases actions
  {
    hide Inv, Next, SameSchedule;
    if actions == [] {
      SameScheduleTwice(w.schedule, w.schedule, w.schedule);
    } else {
      var w1 := Next(w, actions[0]);
      ClockNeverGoesBack(w, actions);
      BlockedStep(w, actions[0]);
      StepKeeps(w, actions[0]);
      SameScheduleTwice(w.schedule, w1.schedule, w1.schedule);
      PausesRunInFull(w1, actions[1..]);
      SameScheduleTwice(w.schedule, w1.schedule, Run(w, actions).schedule);
    }
  }

  lemma SameScheduleTwice(a: Schedule, b: Schedule, c: Schedule)
    ensures SameSchedule(a, a)
    ensures SameSchedule(a, b) ==> a.blockedUntil == b.blockedUntil
    ensures SameSchedule(a, b) && SameSchedule(b, c) ==> SameSchedule(a, c)
  {
  }

  lemma {:induction false} ClockNeverGoesBack(w: World, actions: seq<Action>)
    ensures w.clock <= Run(w, actions).clock
    decreases actions
  {
    if actions != [] {
      ClockNeverGoesBack(Next(w, actions[0]), actions[1..]);
      StepMovesClockOn(w, actions[0]);
    }
  }

  lemma StepMovesClockOn(w: World, a: Action)
    ensures w.clock <= Next(w, a).clock
  {
    hide TryAcquire, Finish;
  }

  /** At most one rate limit per generation changes the schedule, and `generation` counts exactly those. */
  lemma OneReactionPerGeneration(w: World)
    requires Reachable(w)
    ensures |w.reactions| == w.schedule.generation
    ensures forall i, j :: 0 <= i < j < |w.reactions| ==> w.reactions[i] < w.reactions[j] < w.schedule.generation
  {
    ReachableInv(w);
  }

  /**
   * A task that is rate limited ends its call exactly when it was the last allowed; otherwise the call
   * tries again. Any other result ends the call and is what it returns.
   */
  lemma LimitedTasksRetry(w: World, c: nat, result: TaskResult)
    requires Reachable(w) && c in w.callers && w.callers[c].phase.Running?
    ensures c in Next(w, End(c, result)).callers
    ensures var caller, caller' := w.callers[c], Next(w, End(c, result)).callers[c];
            && caller'.acquires == caller.acquires && caller'.finishes == caller.finishes + 1 == caller.acquires
            && (!result.Limited? ==> caller'.phase == Over(Finished(result)))
            && (result.Limited? ==>
                  if caller.acquires == w.settings.maxAttempts then caller'.phase == Over(GaveUp)
                  else caller'.phase == Trying && caller'.attempt == caller.attempt + 1)
  {
    hide RunningOf;
    ReachableInv(w);
    RunningIsCounted(w, c);
  }

  /**
   * A caller that tries while the schedule is free gets a permit of the current generation, and a rate limit that
   * ends its task before any other reaction takes effect: a new generation, half the limit, and a pause.
   */
  lemma NewPermitsReact(w: World, c: nat, retryAfter: Option<int>)
    requires Reachable(w) && c in w.callers && w.callers[c].phase.Trying?
    ensures var w' := Next(w, Try(c));
            w'.callers[c].phase.Running? <==> w.schedule.blockedUntil <= w.clock && w.schedule.inFlight < w.schedule.limit
    ensures var w' := Next(w, Try(c));
            w'.callers[c].phase.Running? ==>
              var s := Next(w', End(c, Limited(retryAfter))).schedule;
              && w'.callers[c].phase.permit.generation == w.schedule.generation
              && s.generation == w.schedule.generation + 1 && s.limit == Max(1, w.schedule.limit / 2)
              && s.inFlight == w.schedule.inFlight && s.blockedUntil >= w.clock + w.settings.initialBackoff
  {
    ReachableInv(w);
  }

  /** The settings of every reachable world are the ones the source fixes; only the capacity is chosen. */
  lemma SettingsAreFixed(w: World)
    requires Reachable(w)
    ensures w.settings.maxAttempts == 5
    ensures w.settings.initialBackoff == 1_000_000_000 && w.settings.maxBackoff == 30_000_000_000
  {
    var initial: int, most: int, actions :| Run(Initial(initial, most), actions) == w;
    RunKeepsSettings(Initial(initial, most), actions);
  }

  lemma {:induction false} RunKeepsSettings(w: World, actions: seq<Action>)
    ensures Run(w, actions).settings == w.settings
    decreases actions
  {
    hide TryAcquire, Finish;
    if actions != [] {
      RunKeepsSettings(Next(w, actions[0]), actions[1..]);
    }
  }

  /** A call of Do runs its task at most `maxAttempts` times and returns each permit it took exactly once. */
  lemma AttemptsAreBounded(w: World, c: nat)
    requires Reachable(w) && c in w.callers
    ensures w.callers[c].acquires <= w.settings.maxAttempts
    ensures w.callers[c].acquires == w.callers[c].finishes + (if w.callers[c].phase.Running? then 1 else 0)
    ensures w.callers[c].phase == Over(GaveUp) ==> w.callers[c].finishes == w.settings.maxAttempts
    ensures w.callers[c].phase.Over? && w.callers[c].phase.verdict.Finished? ==>
              !w.callers[c].phase.verdict.result.Limited?
  {
    ReachableInv(w);
  }
}
