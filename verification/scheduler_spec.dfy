/** What the critical sections of the concurrency scheduler do to its shared fields. */
module SchedulerSpec {
  import opened Arithmetic
  import opened Wrappers

  /** The schedule: permits in flight, how often waiters were signalled, and the adaptive fields. */
  datatype Schedule = Schedule(
    inFlight: nat, epoch: nat, limit: int, successes: int, generation: nat, blockedUntil: int, backoff: int)

  datatype Settings = Settings(capacity: int, initialBackoff: int, maxBackoff: int, maxAttempts: int)

  datatype Permit = Permit(generation: nat)

  /** How a task ends; a rate limit may come with the delay the server asks for. */
  datatype TaskResult = Succeeded | Broken | Limited(retryAfter: Option<int>)

  const DEFAULT_INITIAL_BACKOFF := 1_000_000_000
  const DEFAULT_MAX_BACKOFF := 30_000_000_000
  const DEFAULT_MAX_ATTEMPTS := 5

  predicate Sound(c: Settings) {
    c.capacity >= 1 && 0 < c.initialBackoff <= c.maxBackoff && c.maxAttempts >= 1
  }

  /** What holds of the schedule whenever the mutex is free. */
  predicate InBounds(c: Settings, s: Schedule) {
    && Sound(c)
    && s.inFlight <= c.capacity
    && 1 <= s.limit <= c.capacity
    && 0 <= s.successes < s.limit
    && 0 <= s.backoff <= c.maxBackoff
  }

  function InitialSettings(maxConcurrency: int): Settings {
    Settings(Max(1, maxConcurrency), DEFAULT_INITIAL_BACKOFF, DEFAULT_MAX_BACKOFF, DEFAULT_MAX_ATTEMPTS)
  }

  function InitialSchedule(initialConcurrency: int, maxConcurrency: int): Schedule {
    Schedule(0, 0, Min(Max(1, initialConcurrency), Max(1, maxConcurrency)), 0, 0, 0, 0)
  }

  predicate Free(s: Schedule, now: int) {
    s.blockedUntil <= now && s.inFlight < s.limit
  }

  /** The critical section of acquire: a permit, or nothing. */
  function TryAcquire(s: Schedule, now: int): (Schedule, Option<Permit>) {
    if Free(s, now) then (s.(inFlight := s.inFlight + 1), Some(Permit(s.generation))) else (s, None)
  }

  /** The backoff after a rate limit, before the delay the server asks for is considered. */
  function Grown(c: Settings, backoff: int): int {
    if backoff < c.initialBackoff then c.initialBackoff else Min(backoff * 2, c.maxBackoff)
  }

  function ApplyRateLimit(c: Settings, s: Schedule, permit: Permit, retryAfter: Option<int>, now: int): Schedule {
    if permit.generation != s.generation then s
    else
      var grown := Grown(c, s.backoff);
      var backoff := if retryAfter.Some? && retryAfter.value > grown then Min(retryAfter.value, c.maxBackoff) else grown;
      s.(generation := s.generation + 1, limit := Max(1, s.limit / 2), successes := 0, backoff := backoff,
         blockedUntil := now + backoff)
  }

  function ApplySuccess(c: Settings, s: Schedule): Schedule {
    if s.successes + 1 < s.limit then s.(successes := s.successes + 1)
    else
      s.(successes := 0,
         limit := if s.limit < c.capacity then s.limit + 1 else s.limit,
         backoff := if s.backoff > c.initialBackoff then s.backoff / 2 else 0)
  }

  /** The part of finish between returning the permit and signalling the waiters. */
  function React(c: Settings, s: Schedule, permit: Permit, result: TaskResult, now: int): Schedule {
    match result
    case Limited(retryAfter) => ApplyRateLimit(c, s, permit, retryAfter, now)
    case Succeeded => if permit.generation == s.generation then ApplySuccess(c, s) else s
    case Broken => s
  }

  /** The critical section of finish. */
  function Finish(c: Settings, s: Schedule, permit: Permit, result: TaskResult, now: int): Schedule
    requires s.inFlight > 0
  {
    var r := React(c, s.(inFlight := s.inFlight - 1), permit, result, now);
    r.(epoch := r.epoch + 1)
  }

  /** What finish does when its permit is out of date, or its task broke without a rate limit. */
  function Returned(s: Schedule): Schedule
    requires s.inFlight > 0
  {
    s.(inFlight := s.inFlight - 1, epoch := s.epoch + 1)
  }

  // ----- what each critical section keeps -----

  lemma ScheduleStartsOk(initialConcurrency: int, maxConcurrency: int)
    ensures InBounds(InitialSettings(maxConcurrency), InitialSchedule(initialConcurrency, maxConcurrency))
  {
  }

  /** An acquire never takes the permits in flight above the limit, so its send cannot block. */
  lemma AcquireKeeps(c: Settings, s: Schedule, now: int)
    requires InBounds(c, s)
    ensures var (s', permit) := TryAcquire(s, now);
            && InBounds(c, s')
            && (permit.Some? ==> s'.inFlight == s.inFlight + 1 <= s.limit <= c.capacity)
  {
  }

  lemma FinishKeeps(c: Settings, s: Schedule, permit: Permit, result: TaskResult, now: int)
    requires InBounds(c, s) && s.inFlight > 0
    ensures InBounds(c, Finish(c, s, permit, result, now))
  {
  }

  /**
   * A finish changes more than the permit count and the broadcast channel exactly when its permit is of the
   * current generation and its task was rate limited, or succeeded where there is still something to recover.
   */
  lemma StaleFinishOnlyReturns(c: Settings, s: Schedule, permit: Permit, result: TaskResult, now: int)
    requires InBounds(c, s) && s.inFlight > 0
    ensures Finish(c, s, permit, result, now) != Returned(s)
            <==> permit.generation == s.generation
                 && (result.Limited? || (result.Succeeded? && (s.limit > 1 || s.limit < c.capacity || s.backoff > 0)))
  {
  }

  /** With or without a delay asked for by the server, a rate limit pauses for a time in one closed form. */
  lemma RateLimitPause(c: Settings, s: Schedule, retryAfter: Option<int>, now: int)
    requires InBounds(c, s)
    ensures var s' := ApplyRateLimit(c, s, Permit(s.generation), retryAfter, now);
            && c.initialBackoff <= s'.backoff <= c.maxBackoff
            && s'.backoff == Min(Max(Grown(c, s.backoff), if retryAfter.Some? then retryAfter.value else 0), c.maxBackoff)
            && s'.blockedUntil == now + s'.backoff
  {
  }
}
