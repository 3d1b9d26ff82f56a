/** The concurrency scheduler; each method is one section under its mutex. */
module Scheduler {
  import opened Arithmetic
  import opened Wrappers
  import opened SchedulerSpec

  class ConcurrencyScheduler {
    const settings: Settings
    /** How many slots of the semaphore channel are taken. */
    var sem: nat
    /** Counts how often the broadcast channel was closed and replaced. */
    var changed: nat
    var limit: int
    var successes: int
    var generation: nat
    var blockedUntil: int
    var backoff: int

    function View(): Schedule
      reads this
    {
      Schedule(sem, changed, limit, successes, generation, blockedUntil, backoff)
    }

    ghost predicate Valid()
      reads this
    {
      InBounds(settings, View())
    }

    constructor (initialConcurrency: int, maxConcurrency: int)
      ensures Valid()
      ensures settings == InitialSettings(maxConcurrency)
      ensures View() == InitialSchedule(initialConcurrency, maxConcurrency)
      ensures settings.capacity == Max(1, maxConcurrency) && settings.maxAttempts == 5
      ensures limit == Max(1, Min(initialConcurrency, settings.capacity))
      ensures sem == 0 && successes == 0 && generation == 0 && backoff == 0
    {
      var most, start := maxConcurrency, initialConcurrency;
      if most < 1 {
        most := 1;
      }
      if start < 1 {
        start := 1;
      }
      if start > most {
        start := most;
      }
      settings := Settings(most, DEFAULT_INITIAL_BACKOFF, DEFAULT_MAX_BACKOFF, DEFAULT_MAX_ATTEMPTS);
      sem, changed, limit, successes, generation, blockedUntil, backoff := 0, 0, start, 0, 0, 0, 0;
    }

    /** One round of acquire: a permit, or the channel to wait for and the time left until the block ends. */
    method TryAcquire(now: int) returns (permit: Option<Permit>, channel: nat, wait: int)
      requires Valid()
      modifies this
      ensures Valid() && (View(), permit) == SchedulerSpec.TryAcquire(old(View()), now)
      ensures permit.Some? ==> sem <= limit && permit.value.generation == generation
      ensures permit.None? ==> channel == changed && wait == blockedUntil - now
      ensures permit.None? && wait <= 0 ==> sem >= limit
    {
      wait := blockedUntil - now;
      channel := changed;
      if wait <= 0 && sem < limit {
        AcquireKeeps(settings, View(), now);
        sem := sem + 1;
        return Some(Permit(generation)), channel, wait;
      }
      return None, channel, wait;
    }

    method Finish(permit: Permit, result: TaskResult, now: int)
      requires Valid() && sem > 0
      modifies this
      ensures Valid() && View() == SchedulerSpec.Finish(settings, old(View()), permit, result, now)
    {
      sem := sem - 1;
      match result {
        case Limited(retryAfter) => ApplyRateLimitLocked(permit, retryAfter, now);
        case Succeeded =>
          if permit.generation == generation {
            ApplySuccessLocked();
          }
        case Broken =>
      }
      SignalLocked();
    }

    method ApplyRateLimitLocked(permit: Permit, retryAfter: Option<int>, now: int)
      requires Valid()
      modifies this
      ensures Valid() && View() == ApplyRateLimit(settings, old(View()), permit, retryAfter, now)
    {
      if permit.generation != generation {
        return;
      }
      generation := generation + 1;
      limit := Max(1, limit / 2);
      successes := 0;
      if backoff < settings.initialBackoff {
        backoff := settings.initialBackoff;
      } else {
        backoff := Min(backoff * 2, settings.maxBackoff);
      }
      if retryAfter.Some? && retryAfter.value > backoff {
        backoff := Min(retryAfter.value, settings.maxBackoff);
      }
      blockedUntil := now + backoff;
    }

    method ApplySuccessLocked()
      requires Valid()
      modifies this
      ensures Valid() && View() == ApplySuccess(settings, old(View()))
    {
      successes := successes + 1;
      if successes < limit {
        return;
      }
      successes := 0;
      if limit < settings.capacity {
        limit := limit + 1;
      }
      if backoff > settings.initialBackoff {
        backoff := backoff / 2;
      } else {
        backoff := 0;
      }
    }

    method SignalLocked()
      requires Valid()
      modifies this
      ensures Valid() && View() == old(View()).(epoch := old(changed) + 1)
    {
      changed := changed + 1;
    }
  }
}
