/**
  The presence cache: a debounce timer, a generation counter that invalidates stale timer callbacks,
  and a diff against the last activity handed to subscribers. Each function below is one critical
  section of the mutex; the class runs them on fields.
 */
module Presences {
  import opened Wrappers
  import opened Activities

  /**
    The fields guarded by the mutex. A timer is named by the generation it was created for, and the
    stop and done channels by the number of the Start call that made them. `armed` holds the
    runtime's timers that have neither fired nor been stopped.
   */
  datatype State = State(
    cached: Activity,
    hasSource: bool,
    lastNotified: Activity,
    gen: nat,
    timer: Option<nat>,
    armed: set<nat>,
    stopped: bool,
    starts: nat,
    stopCh: Option<nat>,
    done: Option<nat>)

  const INITIAL := State(ZERO, false, ZERO, 0, None, {}, false, 0, None, None)

  function StopTimer(armed: set<nat>, timer: Option<nat>): set<nat> {
    if timer.Some? then armed - {timer.value} else armed
  }

  function Updated(p: State, activity: Activity): State {
    if p.stopped then p
    else p.(cached := activity,
            hasSource := true,
            gen := p.gen + 1,
            armed := StopTimer(p.armed, p.timer) + {p.gen + 1},
            timer := Some(p.gen + 1))
  }

  /** The critical section of flush, and the activity it hands to subscribers, if any. */
  function Flushed(p: State, gen: nat): (State, Option<Activity>) {
    if gen != p.gen || p.stopped then (p, None)
    else if Equals(p.cached, p.lastNotified) then (p.(timer := None), None)
    else (p.(lastNotified := p.cached, timer := None), Some(p.cached))
  }

  function Started(p: State): State {
    p.(starts := p.starts + 1,
       stopCh := Some(p.starts),
       done := Some(p.starts),
       stopped := false,
       hasSource := false,
       lastNotified := ZERO)
  }

  function Stopped(p: State): State {
    p.(stopped := true, stopCh := None)
  }

  /** What the run goroutine does once it is woken. */
  function Cleared(p: State): State {
    p.(armed := StopTimer(p.armed, p.timer), timer := None)
  }

  /** The snapshot's activity; None stands for the source "none". */
  function Snapshot(p: State): Option<Activity> {
    if !p.hasSource then None else Some(p.cached)
  }

  class Presence {
    const interval: int   // nanoseconds

    var cached: Activity
    var hasSource: bool
    var lastNotified: Activity
    var gen: nat
    var timer: Option<nat>
    var armed: set<nat>
    var stopped: bool
    var starts: nat
    var stopCh: Option<nat>
    var done: Option<nat>

    ghost function View(): State
      reads this
    {
      State(cached, hasSource, lastNotified, gen, timer, armed, stopped, starts, stopCh, done)
    }

    constructor (interval: int)
      ensures View() == INITIAL
      ensures this.interval == if interval > 0 then interval else 50_000_000
    {
      this.interval := if interval <= 0 then 50_000_000 else interval;
      cached, hasSource, lastNotified := ZERO, false, ZERO;
      gen, timer, armed := 0, None, {};
      stopped, starts, stopCh, done := false, 0, None, None;
    }

    method Update(activity: Activity)
      modifies this
      ensures View() == Updated(old(View()), activity)
      ensures old(stopped) ==> View() == old(View())
      ensures !old(stopped) ==>
                && cached == activity && hasSource && gen == old(gen) + 1 && timer == Some(gen)
                && armed == (if old(timer).Some? then old(armed) - {old(timer).value} else old(armed)) + {gen}
      ensures lastNotified == old(lastNotified) && stopped == old(stopped)
      ensures starts == old(starts) && stopCh == old(stopCh) && done == old(done)
    {
      if stopped {
        return;
      }
      cached := activity;
      hasSource := true;
      gen := gen + 1;
      if timer.Some? {
        armed := armed - {timer.value};
      }
      armed := armed + {gen};
      timer := Some(gen);
    }

    method Flush(g: nat) returns (update: Option<Activity>)
      modifies this
      ensures (View(), update) == Flushed(old(View()), g)
      ensures update == if g == old(gen) && !old(stopped) && !Equals(old(cached), old(lastNotified))
                        then Some(old(cached)) else None
      ensures lastNotified == if update.Some? then old(cached) else old(lastNotified)
      ensures timer == if g == old(gen) && !old(stopped) then None else old(timer)
      ensures cached == old(cached) && hasSource == old(hasSource) && gen == old(gen) && armed == old(armed)
      ensures stopped == old(stopped) && starts == old(starts) && stopCh == old(stopCh) && done == old(done)
    {
      if g != gen || stopped {
        return None;
      }
      if Equals(cached, lastNotified) {
        timer := None;
        return None;
      }
      update := Some(cached);
      lastNotified := cached;
      timer := None;
    }

    /** Returns the channels handed to the new run goroutine. */
    method Start() returns (cycle: nat)
      modifies this
      ensures View() == Started(old(View()))
      ensures Some(cycle) == stopCh == done && cycle == old(starts) && starts == old(starts) + 1
      ensures !stopped && !hasSource && lastNotified == ZERO
      ensures cached == old(cached) && gen == old(gen) && timer == old(timer) && armed == old(armed)
    {
      stopCh := Some(starts);
      done := Some(starts);
      starts := starts + 1;
      stopped := false;
      hasSource := false;
      lastNotified := ZERO;
      cycle := starts - 1;
    }

    /** The part of Stop under the mutex: the stop channel it closes and the done channel it then waits for. */
    method Stop() returns (closed: Option<nat>, waitFor: Option<nat>)
      modifies this
      ensures View() == Stopped(old(View()))
      ensures closed == old(stopCh) && waitFor == old(done)
      ensures stopped && stopCh == None && done == old(done) && starts == old(starts)
      ensures cached == old(cached) && hasSource == old(hasSource) && lastNotified == old(lastNotified)
      ensures gen == old(gen) && timer == old(timer) && armed == old(armed)
    {
      stopped := true;
      closed := stopCh;
      if stopCh.Some? {
        stopCh := None;
      }
      waitFor := done;
    }

    method ClearTimer()
      modifies this
      ensures View() == Cleared(old(View()))
      ensures timer == None && armed == if old(timer).Some? then old(armed) - {old(timer).value} else old(armed)
      ensures cached == old(cached) && hasSource == old(hasSource) && lastNotified == old(lastNotified)
      ensures gen == old(gen) && stopped == old(stopped)
      ensures starts == old(starts) && stopCh == old(stopCh) && done == old(done)
    {
      if timer.Some? {
        armed := armed - {timer.value};
        timer := None;
      }
    }

    method CurrentSnapshot() returns (r: Option<Activity>)
      ensures r == Snapshot(View())
      ensures r == if hasSource then Some(cached) else None
    {
      if !hasSource {
        return None;
      }
      return Some(cached);
    }
  }
}
