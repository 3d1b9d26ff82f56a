/** How many successes raise the limit, and how far rate limits lower it, whatever else returns in between. */
module SchedulerArithmetic {
  import opened Arithmetic
  import opened SchedulerSpec
  import M = SchedulerMachine

  /** One thing that happens under the mutex: a permit is taken, or one is returned with a result. */
  datatype Event = Taken | ReturnedWith(permit: Permit, result: TaskResult, now: int)

  /** Only the schedule's reaction matters here, so each event is applied without counting permits. */
  function Apply(c: Settings, s: Schedule, e: Event): Schedule {
    match e
    case Taken => s.(inFlight := s.inFlight + 1)
    case ReturnedWith(permit, result, now) => React(c, s, permit, result, now)
  }

  function ApplyAll(c: Settings, s: Schedule, events: seq<Event>): Schedule {
    if events == [] then s else Apply(c, ApplyAll(c, s, events[..|events| - 1]), events[|events| - 1])
  }

  /** A success whose permit is of the given generation. */
  predicate Counts(e: Event, generation: nat) {
    e.ReturnedWith? && e.result.Succeeded? && e.permit.generation == generation
  }

  predicate Reacts(e: Event, generation: nat) {
    e.ReturnedWith? && e.result.Limited? && e.permit.generation == generation
  }

  function CountSuccesses(events: seq<Event>, generation: nat): nat {
    if events == [] then 0
    else CountSuccesses(events[..|events| - 1], generation) + if Counts(events[|events| - 1], generation) then 1 else 0
  }

  /** No event is a rate limit of the given generation; those of older generations may occur. */
  predicate Undisturbed(events: seq<Event>, generation: nat) {
    forall i :: 0 <= i < |events| ==> !Reacts(events[i], generation)
  }

  /** The work a schedule stands for: one unit for each success since limit 1. */
  function Potential(s: Schedule): int {
    s.limit * (s.limit - 1) / 2 + s.successes
  }

  function Triangle(n: int): int {
    n * (n - 1) / 2
  }

  lemma TriangleNext(n: int)
    requires n >= 1
    ensures Triangle(n + 1) == Triangle(n) + n
  {
    assert (n + 1) * n == n * (n - 1) + 2 * n;
  }

  lemma {:induction false} TriangleMonotone(m: int, n: int)
    requires 1 <= m <= n
    ensures Triangle(m) <= Triangle(n)
    decreases n - m
  {
    if m < n {
      TriangleNext(n - 1);
      TriangleMonotone(m, n - 1);
    }
  }

  /** Below capacity each success of the current generation adds exactly one to the potential. */
  lemma SuccessAddsOne(c: Settings, s: Schedule)
    requires InBounds(c, s) && s.limit < c.capacity
    ensures Potential(ApplySuccess(c, s)) == Potential(s) + 1
    ensures InBounds(c, ApplySuccess(c, s)) && s.limit <= ApplySuccess(c, s).limit <= s.limit + 1
  {
    TriangleNext(s.limit);
    assert Potential(s) == Triangle(s.limit) + s.successes;
  }

  /** The adaptive part of the schedule, without the permit count. */
  predicate Bounded(c: Settings, s: Schedule) {
    InBounds(c, s.(inFlight := 0))
  }

  /**
   * However many permits are taken and however many stale results come back in between, the limit below
   * capacity depends only on the number of current successes: the potential grows by exactly that number.
   */
  lemma {:induction false} PotentialCountsSuccesses(c: Settings, s: Schedule, events: seq<Event>)
    requires Bounded(c, s) && Undisturbed(events, s.generation)
    ensures var s' := ApplyAll(c, s, events);
            && Bounded(c, s') && s'.generation == s.generation && s.limit <= s'.limit
            && (s'.limit < c.capacity ==> Potential(s') == Potential(s) + CountSuccesses(events, s.generation))
            && (s'.limit == c.capacity ==> Potential(s) + CountSuccesses(events, s.generation) >= Triangle(c.capacity)
                                           || s.limit == c.capacity)
  {
    hide Potential, Triangle;
    if events != [] {
      var front, last := events[..|events| - 1], events[|events| - 1];
      assert forall i :: 0 <= i < |front| ==> front[i] == events[i];
      PotentialCountsSuccesses(c, s, front);
      var mid := ApplyAll(c, s, front);
      StepCounts(c, mid, last);
      assert last == events[|events| - 1];
    }
  }

  lemma StepCounts(c: Settings, s: Schedule, e: Event)
    requires Bounded(c, s) && !Reacts(e, s.generation)
    ensures var s' := Apply(c, s, e);
            && Bounded(c, s') && s'.generation == s.generation && s.limit <= s'.limit
            && (s.limit < c.capacity ==> Potential(s') == Potential(s) + if Counts(e, s.generation) then 1 else 0)
            && (s'.limit == c.capacity ==> s.limit == c.capacity || Potential(s') == Triangle(c.capacity))
  {
    if s.limit < c.capacity && Counts(e, s.generation) {
      SuccessAddsOne(c, s.(inFlight := 0));
    }
  }

  /**
   * Raising the limit from L to M costs exactly (M(M-1) - L(L-1)) / 2 successes, less those already counted:
   * the limit has reached M exactly when that many current successes have come back.
   */
  lemma ExactCostOfRaising(c: Settings, s: Schedule, events: seq<Event>, most: int)
    requires Bounded(c, s) && Undisturbed(events, s.generation) && s.limit < most <= c.capacity
    ensures ApplyAll(c, s, events).limit >= most
            <==> CountSuccesses(events, s.generation) >= Triangle(most) - Triangle(s.limit) - s.successes
  {
    PotentialCountsSuccesses(c, s, events);
    var s' := ApplyAll(c, s, events);
    assert Potential(s) == Triangle(s.limit) + s.successes && Potential(s') == Triangle(s'.limit) + s'.successes;
    hide ApplyAll, CountSuccesses, Triangle, Potential;
    if s'.limit >= most {
      TriangleMonotone(most, s'.limit);
    } else {
      TriangleNext(s'.limit);
      TriangleMonotone(s'.limit + 1, most);
    }
  }

  // ----- rate limits -----

  function Pow2(n: nat): (p: nat)
    ensures p >= 1
  {
    if n == 0 then 1 else 2 * Pow2(n - 1)
  }

  /** Which of the events lower the limit: each rate limit whose permit is current when it comes back. */
  function CountLimits(events: seq<Event>, generation: nat): nat {
    if events == [] then 0
    else
      var n := CountLimits(events[..|events| - 1], generation);
      n + if Reacts(events[|events| - 1], generation + n) then 1 else 0
  }

  /** No success comes back whose permit is still current, and no server asks for a delay. */
  predicate OnlyPlainLimits(events: seq<Event>, generation: nat) {
    forall i :: 0 <= i < |events| ==>
      && !Counts(events[i], generation + CountLimits(events[..i], generation))
      && (events[i].ReturnedWith? && events[i].result.Limited? ==> events[i].result.retryAfter.None?)
  }

  /** The limit after h halvings, and the backoff after h doublings. */
  function HalvedLimit(limit: int, h: nat): int {
    Max(1, limit / Pow2(h))
  }

  function DoubledBackoff(c: Settings, h: nat): int {
    if h == 0 then 0 else Min(c.initialBackoff * Pow2(h - 1), c.maxBackoff)
  }

  lemma DivDiv(a: nat, p: nat)
    requires p >= 1
    ensures 0 <= a / p && a / p / 2 == a / (2 * p)
  {
    var q, r := a / p, a % p;
    var half, rest := q / 2, q % 2;
    assert p * q == 2 * p * half + p * rest;
    QuotientUnique(2 * p, half, p * rest + r, a / (2 * p), a % (2 * p));
  }

  lemma HalvedNext(limit: int, h: nat)
    requires limit >= 1
    ensures Max(1, HalvedLimit(limit, h) / 2) == HalvedLimit(limit, h + 1)
  {
    DivDiv(limit, Pow2(h));
  }

  lemma TwiceAsLong(b: int, p: nat)
    requires b >= 1 && p >= 1
    ensures b * (2 * p) == 2 * (b * p) && b * p >= b
  {
    AtLeastOnce(b, p);
  }

  lemma DoubledNext(c: Settings, h: nat)
    requires Sound(c)
    ensures Grown(c, DoubledBackoff(c, h)) == DoubledBackoff(c, h + 1)
  {
    if h > 0 {
      TwiceAsLong(c.initialBackoff, Pow2(h - 1));
      assert Pow2(h) == 2 * Pow2(h - 1);
    } else {
      assert c.initialBackoff * Pow2(0) == c.initialBackoff;
    }
  }

  lemma FallNone(c: Settings, limit: int)
    requires limit >= 1
    ensures HalvedLimit(limit, 0) == limit && DoubledBackoff(c, 0) == 0
  {
    assert Pow2(0) == 1;
    assert limit / 1 == limit;
  }

  lemma FallStep(c: Settings, s0: Schedule, s: Schedule, e: Event, h: nat)
    requires Bounded(c, s0) && !Counts(e, s.generation)
    requires e.ReturnedWith? && e.result.Limited? ==> e.result.retryAfter.None?
    requires s.limit == HalvedLimit(s0.limit, h) && s.backoff == DoubledBackoff(c, h)
    ensures var s', h' := Apply(c, s, e), h + if Reacts(e, s.generation) then 1 else 0;
            && s'.generation == s.generation + (h' - h)
            && s'.limit == HalvedLimit(s0.limit, h')
            && s'.backoff == DoubledBackoff(c, h')
  {
    hide HalvedLimit, DoubledBackoff, Grown;
    HalvedNext(s0.limit, h);
    DoubledNext(c, h);
  }

  /**
   * From backoff 0, h rate limits that take effect, with no current success between them, halve the limit
   * h times and double the backoff h - 1 times, within their bounds; stale results do not matter.
   */
  lemma {:induction false} ExactFall(c: Settings, s: Schedule, events: seq<Event>)
    requires Bounded(c, s) && s.backoff == 0 && OnlyPlainLimits(events, s.generation)
    ensures var s', h := ApplyAll(c, s, events), CountLimits(events, s.generation);
            && s'.generation == s.generation + h
            && s'.limit == HalvedLimit(s.limit, h)
            && s'.backoff == DoubledBackoff(c, h)
  {
    hide HalvedLimit, DoubledBackoff, Apply;
    if events != [] {
      var front, last := events[..|events| - 1], events[|events| - 1];
      assert forall i :: 0 <= i < |front| ==> front[i] == events[i] && front[..i] == events[..i];
      ExactFall(c, s, front);
      assert last == events[|events| - 1];
      FallStep(c, s, ApplyAll(c, s, front), last, CountLimits(front, s.generation));
    } else {
      FallNone(c, s.limit);
    }
  }

  // ----- recovery -----

  /** How often a full round of successes was completed: each raises the limit if it can, and shortens the backoff. */
  function CountRounds(c: Settings, s: Schedule, events: seq<Event>): nat {
    if events == [] then 0
    else
      var front, last := events[..|events| - 1], events[|events| - 1];
      var mid := ApplyAll(c, s, front);
      CountRounds(c, s, front) + if Counts(last, mid.generation) && mid.successes + 1 >= mid.limit then 1 else 0
  }

  /** The backoff after r rounds: halved each time until it has sunk to the initial backoff, then dropped. */
  function Faded(initial: int, backoff: int, r: nat): int {
    if r == 0 then backoff
    else if backoff / Pow2(r - 1) > initial then backoff / Pow2(r)
    else 0
  }

  lemma FadedNext(initial: int, backoff: int, r: nat)
    requires initial > 0 && backoff >= 0
    ensures var b := Faded(initial, backoff, r);
            Faded(initial, backoff, r + 1) == if b > initial then b / 2 else 0
  {
    DivDiv(backoff, Pow2(r));
    if r == 0 {
      assert Pow2(0) == 1 && backoff / 1 == backoff;
      assert Pow2(1) == 2;
    } else {
      DivDiv(backoff, Pow2(r - 1));
    }
  }

  /**
   * Without an effective rate limit the backoff depends only on the rounds completed, and below capacity these are
   * the steps by which the limit was raised.
   */
  lemma {:induction false} ExactRecovery(c: Settings, s: Schedule, events: seq<Event>)
    requires Bounded(c, s) && Undisturbed(events, s.generation)
    ensures var s', r := ApplyAll(c, s, events), CountRounds(c, s, events);
            && Bounded(c, s') && s'.generation == s.generation
            && s'.backoff == Faded(c.initialBackoff, s.backoff, r)
            && s'.limit == Min(s.limit + r, c.capacity)
  {
    hide Faded, Bounded;
    if events != [] {
      var front, last := events[..|events| - 1], events[|events| - 1];
      assert forall i :: 0 <= i < |front| ==> front[i] == events[i];
      assert last == events[|events| - 1];
      ExactRecovery(c, s, front);
      RecoveryStep(c, s, ApplyAll(c, s, front), last, CountRounds(c, s, front));
    } else {
      NoRecovery(c, s);
    }
  }

  lemma NoRecovery(c: Settings, s: Schedule)
    requires Bounded(c, s)
    ensures Faded(c.initialBackoff, s.backoff, 0) == s.backoff && s.limit == Min(s.limit, c.capacity)
  {
  }

  lemma RecoveryStep(c: Settings, s0: Schedule, s: Schedule, e: Event, r: nat)
    requires Bounded(c, s0) && Bounded(c, s) && !Reacts(e, s.generation)
    requires s.backoff == Faded(c.initialBackoff, s0.backoff, r) && s.limit == Min(s0.limit + r, c.capacity)
    ensures var s', r' := Apply(c, s, e), r + if Counts(e, s.generation) && s.successes + 1 >= s.limit then 1 else 0;
            && Bounded(c, s') && s'.generation == s.generation
            && s'.backoff == Faded(c.initialBackoff, s0.backoff, r') && s'.limit == Min(s0.limit + r', c.capacity)
  {
    hide Faded;
    FadedNext(c.initialBackoff, s0.backoff, r);
  }

  // ----- runs of the scheduler -----

  /** What a step of the scheduler does to the schedule, as events. */
  function EventsOf(w: M.World, a: M.Action): seq<Event> {
    match a
    case Try(c) =>
      if c in w.callers && w.callers[c].phase.Trying? && Free(w.schedule, w.clock) then [Taken] else []
    case End(c, result) =>
      if c in w.callers && w.callers[c].phase.Running? && w.schedule.inFlight > 0 then
        [ReturnedWith(w.callers[c].phase.permit, result, w.clock)]
      else []
    case _ => []
  }

  function Trace(w: M.World, actions: seq<M.Action>): seq<Event> {
    if actions == [] then []
    else
      var front := actions[..|actions| - 1];
      Trace(w, front) + EventsOf(M.Run(w, front), actions[|actions| - 1])
  }

  /** Two schedules that differ at most in the permits in flight and the signals sent. */
  predicate SameLevels(s: Schedule, t: Schedule) {
    s.(inFlight := 0, epoch := 0) == t.(inFlight := 0, epoch := 0)
  }

  lemma {:induction false} RunLast(w: M.World, actions: seq<M.Action>)
    requires actions != []
    ensures M.Run(w, actions) == M.Next(M.Run(w, actions[..|actions| - 1]), actions[|actions| - 1])
    decreases actions
  {
    hide M.Next;
    if |actions| > 1 {
      RunLast(M.Next(w, actions[0]), actions[1..]);
      assert actions[1..][..|actions| - 2] == actions[..|actions| - 1][1..];
    } else {
      assert actions[1..] == [] && actions[..0] == [];
    }
  }

  lemma StepFollowsEvents(w: M.World, s: Schedule, a: M.Action)
    requires SameLevels(w.schedule, s)
    ensures SameLevels(M.Next(w, a).schedule, ApplyAll(w.settings, s, EventsOf(w, a)))
    ensures M.Next(w, a).settings == w.settings
  {
    var events := EventsOf(w, a);
    if |events| == 1 {
      assert ApplyAll(w.settings, s, events[..0]) == s;
    }
  }

  lemma ApplyTwice(c: Settings, s: Schedule, events: seq<Event>, more: seq<Event>)
    requires |more| <= 1
    ensures ApplyAll(c, s, events + more) == ApplyAll(c, ApplyAll(c, s, events), more)
  {
    if more == [] {
      assert events + more == events;
    } else {
      assert (events + more)[..|events|] == events && more[..0] == [];
    }
  }

  /** The levels of the schedule after any run are those its events lead to, so both exact laws hold of every run. */
  lemma {:induction false} RunsFollowEvents(w: M.World, actions: seq<M.Action>)
    ensures M.Run(w, actions).settings == w.settings
    ensures SameLevels(M.Run(w, actions).schedule, ApplyAll(w.settings, w.schedule, Trace(w, actions)))
  {
    hide M.Next, EventsOf, SameLevels, ApplyAll;
    if actions != [] {
      var front, last := actions[..|actions| - 1], actions[|actions| - 1];
      RunsFollowEvents(w, front);
      RunLast(w, actions);
      var mid := M.Run(w, front);
      StepFollowsEvents(mid, ApplyAll(w.settings, w.schedule, Trace(w, front)), last);
      AtMostOneEvent(mid, last);
      ApplyTwice(w.settings, w.schedule, Trace(w, front), EventsOf(mid, last));
    } else {
      NothingHappens(w);
    }
  }

  lemma AtMostOneEvent(w: M.World, a: M.Action)
    ensures |EventsOf(w, a)| <= 1
  {
  }

  lemma NothingHappens(w: M.World)
    ensures SameLevels(w.schedule, ApplyAll(w.settings, w.schedule, []))
  {
  }

  /** In every run: from a reachable world, the limit has reached M exactly when enough current successes came back. */
  lemma RunsRaiseExactly(w: M.World, actions: seq<M.Action>, most: int)
    requires M.Inv(w) && w.schedule.limit < most <= w.settings.capacity
    requires Undisturbed(Trace(w, actions), w.schedule.generation)
    ensures M.Run(w, actions).schedule.limit >= most
            <==> CountSuccesses(Trace(w, actions), w.schedule.generation)
                 >= Triangle(most) - Triangle(w.schedule.limit) - w.schedule.successes
  {
    hide M.Next, EventsOf, ApplyAll, Trace;
    RunsFollowEvents(w, actions);
    ExactCostOfRaising(w.settings, w.schedule, Trace(w, actions), most);
  }

  /** In every run: rate limits that take effect lower the limit and lengthen the backoff by the same closed forms. */
  lemma RunsFallExactly(w: M.World, actions: seq<M.Action>)
    requires M.Inv(w) && w.schedule.backoff == 0 && OnlyPlainLimits(Trace(w, actions), w.schedule.generation)
    ensures var s', h := M.Run(w, actions).schedule, CountLimits(Trace(w, actions), w.schedule.generation);
            && s'.generation == w.schedule.generation + h
            && s'.limit == HalvedLimit(w.schedule.limit, h)
            && s'.backoff == DoubledBackoff(w.settings, h)
  {
    hide M.Next, EventsOf, ApplyAll, Trace;
    RunsFollowEvents(w, actions);
    ExactFall(w.settings, w.schedule, Trace(w, actions));
  }

  /** In every run without an effective rate limit, limit and backoff recover by the rounds completed. */
  lemma RunsRecoverExactly(w: M.World, actions: seq<M.Action>)
    requires M.Inv(w) && Undisturbed(Trace(w, actions), w.schedule.generation)
    ensures var s', r := M.Run(w, actions).schedule, CountRounds(w.settings, w.schedule, Trace(w, actions));
            && s'.backoff == Faded(w.settings.initialBackoff, w.schedule.backoff, r)
            && s'.limit == Min(w.schedule.limit + r, w.settings.capacity)
  {
    hide M.Next, EventsOf, ApplyAll, Trace, CountRounds, Faded;
    RunsFollowEvents(w, actions);
    ExactRecovery(w.settings, w.schedule, Trace(w, actions));
  }
}
