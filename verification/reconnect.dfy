/** The reconnect manager: bounded attempts with capped, jittered delays. */
module Reconnects {
  import opened Backoff

  const MAX_RECONNECT_ATTEMPTS := 50

  /** The delay with its jitter: `u` between 0 and 1 is the random number. */
  function Jittered(interval: Int64, u: real): real {
    interval as real + u * 2.0 * (interval as real * 0.1) - interval as real * 0.1
  }

  /** How long the manager waits before its next attempt. */
  function Interval(base: Int64, cap: Int64, attempt: nat, u: real): real {
    Jittered(CappedDouble(base, cap, attempt), u)
  }

  /** The random number goes linearly from the lower end of that range to the upper one. */
  lemma JitterIsLinear(interval: Int64, u: real)
    ensures Jittered(interval, u) == 0.9 * interval as real + 0.2 * u * interval as real
  {
    var x := interval as real;
    assert u * 2.0 * (x * 0.1) == 0.2 * u * x;
  }

  lemma JitterIsTenPercent(interval: Int64, u: real)
    requires interval >= 0 && 0.0 <= u <= 1.0
    ensures 0.9 * interval as real <= Jittered(interval, u) <= 1.1 * interval as real
  {
    var j := interval as real * 0.1;
    assert 0.0 <= u * (2.0 * j) <= 2.0 * j;
    assert u * 2.0 * j == u * (2.0 * j);
  }

  /** How a wait ends, and what the dial after it does. */
  datatype Wait = Elapsed | ContextDone | StopRequested

  datatype Round = Round(jitter: real, wait: Wait, dials: bool)

  datatype Result = Reconnected | Cancelled | StoppedEarly | Exhausted | Disabled

  /** A round whose wait elapses and whose dial fails: the loop goes on. */
  predicate Fruitless(r: Round) {
    r.wait.Elapsed? && !r.dials
  }

  /** The saturating delays of the attempts from `first` up to, not including, `end`. */
  function SumOfDelays(base: Int64, cap: Int64, first: nat, end: nat): int
  {
    if end <= first then 0 else SumOfDelays(base, cap, first, end - 1) + SaturatingShift(base, cap, end - 1)
  }

  lemma DelayIsNonNegative(base: Int64, cap: Int64, k: nat)
    requires base >= 0 && cap >= 0
    ensures SaturatingShift(base, cap, k) >= 0
  {
    Pow2Scales(base, k);
  }

  lemma {:induction false} SumOfDelaysMonotone(base: Int64, cap: Int64, first: nat, end: nat, end': nat)
    requires base >= 0 && cap >= 0 && first <= end <= end'
    ensures SumOfDelays(base, cap, first, end) <= SumOfDelays(base, cap, first, end')
  {
    if end < end' {
      SumOfDelaysMonotone(base, cap, first, end, end' - 1);
      DelayIsNonNegative(base, cap, end' - 1);
    }
  }

  /** The attempts left before the loop gives up. */
  function AttemptsLeft(attempt: nat): nat {
    if attempt >= MAX_RECONNECT_ATTEMPTS then 0 else MAX_RECONNECT_ATTEMPTS - attempt
  }

  predicate SaneIntervals(base: Int64, cap: Int64) {
    0 <= base && 0 <= cap <= TWO_62
  }

  lemma SumOfNone(base: Int64, cap: Int64, first: nat)
    ensures SumOfDelays(base, cap, first, first) == 0
  {
  }

  /** One more wait keeps the bound on the time slept. */
  lemma SleepBound(base: Int64, cap: Int64, first: nat, attempt: nat, u: real, slept: real)
    requires SaneIntervals(base, cap) && 0.0 <= u <= 1.0 && first <= attempt
    requires slept <= 1.1 * SumOfDelays(base, cap, first, attempt) as real
    ensures slept + Interval(base, cap, attempt, u)
         <= 1.1 * SumOfDelays(base, cap, first, attempt + 1) as real
  {
    hide Jittered, SaturatingShift, CappedDouble;
    CappedDoubleSaturates(base, cap, attempt);
    DelayIsNonNegative(base, cap, attempt);
    JitterIsTenPercent(CappedDouble(base, cap, attempt), u);
  }

  /** A bound by the delays of fewer attempts is a bound by those of all 50. */
  lemma SleepWithinOutage(base: Int64, cap: Int64, waits: nat, slept: real)
    requires SaneIntervals(base, cap) && waits <= MAX_RECONNECT_ATTEMPTS
    requires slept <= 1.1 * SumOfDelays(base, cap, 0, waits) as real
    ensures slept <= 1.1 * SumOfDelays(base, cap, 0, MAX_RECONNECT_ATTEMPTS) as real
  {
    hide SumOfDelays;
    SumOfDelaysMonotone(base, cap, 0, waits, MAX_RECONNECT_ATTEMPTS);
  }

  class ReconnectManager {
    const baseInterval: Int64
    const maxInterval: Int64
    const autoReconnect: bool
    var attempt: nat

    constructor (baseInterval: Int64, maxInterval: Int64, autoReconnect: bool)
      ensures attempt == 0
      ensures this.baseInterval == baseInterval && this.maxInterval == maxInterval
      ensures this.autoReconnect == autoReconnect
    {
      this.baseInterval := baseInterval;
      this.maxInterval := maxInterval;
      this.autoReconnect := autoReconnect;
      attempt := 0;
    }

    method NextInterval(u: real) returns (interval: real)
      ensures interval == Interval(baseInterval, maxInterval, attempt, u)
    {
      var capped := CappedDoubleLoop(baseInterval, maxInterval, attempt);
      return Jittered(capped, u);
    }

    /** The part of the bound below that is about outages from attempt 0. */
    lemma WholeOutage(end: nat, slept: real)
      ensures SaneIntervals(baseInterval, maxInterval) && end <= MAX_RECONNECT_ATTEMPTS
              && slept <= 1.1 * SumOfDelays(baseInterval, maxInterval, 0, end) as real ==>
                slept <= 1.1 * SumOfDelays(baseInterval, maxInterval, 0, MAX_RECONNECT_ATTEMPTS) as real
    {
      if SaneIntervals(baseInterval, maxInterval) && end <= MAX_RECONNECT_ATTEMPTS
         && slept <= 1.1 * SumOfDelays(baseInterval, maxInterval, 0, end) as real {
        SleepWithinOutage(baseInterval, maxInterval, end, slept);
      }
    }

    /**
      One call. `rounds` tells how each wait ends and whether the dial after it succeeds. The loop dials
      at most as often as it has attempts left, 50 from attempt 0; it gives up exactly when all the rounds
      that leaves are fruitless, and reconnects at the first round that dials, and then the next outage
      starts at attempt 0 again. It sleeps at most 1.1 times the sum of the saturating delays it waits for.
     */
    method Reconnect(rounds: nat -> Round) returns (result: Result, dials: nat, waits: nat, slept: real)
      requires forall k :: 0.0 <= rounds(k).jitter <= 1.0
      modifies this
      ensures result.Disabled? <==> !autoReconnect
      ensures result.Disabled? ==> attempt == old(attempt) && waits == 0
      ensures dials <= waits <= dials + 1 && waits <= AttemptsLeft(old(attempt))
      ensures forall k :: 0 <= k < waits - 1 ==> Fruitless(rounds(k))
      ensures result.Exhausted? <==>
                autoReconnect && forall k :: 0 <= k < AttemptsLeft(old(attempt)) ==> Fruitless(rounds(k))
      ensures result.Exhausted? ==> dials == AttemptsLeft(old(attempt)) && attempt == old(attempt) + dials
      ensures result.Reconnected? ==>
                attempt == 0 && dials == waits > 0 && rounds(waits - 1).wait.Elapsed? && rounds(waits - 1).dials
      ensures result.Cancelled? <==> autoReconnect && waits > 0 && rounds(waits - 1).wait.ContextDone?
      ensures result.StoppedEarly? <==> autoReconnect && waits > 0 && rounds(waits - 1).wait.StopRequested?
      ensures result.Cancelled? || result.StoppedEarly? ==>
                waits == dials + 1 && attempt == old(attempt) + dials && !rounds(waits - 1).wait.Elapsed?
      ensures old(attempt) == 0 ==> waits <= 50 && (result.Exhausted? ==> dials == 50)
      ensures SaneIntervals(baseInterval, maxInterval) ==>
                slept <= 1.1 * SumOfDelays(baseInterval, maxInterval, old(attempt), old(attempt) + waits) as real
      ensures SaneIntervals(baseInterval, maxInterval) && old(attempt) == 0 ==>
                slept <= 1.1 * SumOfDelays(baseInterval, maxInterval, 0, MAX_RECONNECT_ATTEMPTS) as real
    {
      hide Interval, SumOfDelays;
      SumOfNone(baseInterval, maxInterval, attempt);
      dials, waits, slept := 0, 0, 0.0;
      if !autoReconnect {
        WholeOutage(waits, slept);
        return Disabled, dials, waits, slept;
      }
      while attempt < MAX_RECONNECT_ATTEMPTS
        invariant attempt == old(attempt) + dials && dials == waits <= AttemptsLeft(old(attempt))
        invariant forall k :: 0 <= k < waits ==> Fruitless(rounds(k))
        invariant SaneIntervals(baseInterval, maxInterval) ==>
                    slept <= 1.1 * SumOfDelays(baseInterval, maxInterval, old(attempt), attempt) as real
        decreases MAX_RECONNECT_ATTEMPTS - attempt
      {
        var round := rounds(waits);
        var interval := NextInterval(round.jitter);
        if SaneIntervals(baseInterval, maxInterval) {
          SleepBound(baseInterval, maxInterval, old(attempt), attempt, round.jitter, slept);
        }
        waits := waits + 1;
        slept := slept + interval;
        WholeOutage(old(attempt) + waits, slept);
        if round.wait.ContextDone? {
          return Cancelled, dials, waits, slept;
        }
        if round.wait.StopRequested? {
          return StoppedEarly, dials, waits, slept;
        }
        dials := dials + 1;
        if round.dials {
          attempt := 0;
          return Reconnected, dials, waits, slept;
        }
        attempt := attempt + 1;
      }
      WholeOutage(old(attempt) + waits, slept);
      return Exhausted, dials, waits, slept;
    }
  }
}
