/** Every interleaving of Updates, timer callbacks, Start, Stop and context cancellation. */
module PresenceRuns {
  import opened Wrappers
  import opened Activities
  import opened Presences

  /** The history of what the critical sections did. */
  datatype Event =
    | StartEvent
    | StopEvent
    | Accepted(gen: nat, activity: Activity)
    | Committed(gen: nat, activity: Activity)

  datatype Runner = Waiting | Woken | Exited

  /**
    The presence with everything that runs beside it: the flush callbacks that have fired and not yet
    entered the mutex, the run goroutine of each Start, the cancelled contexts and the closings of
    stop channels (both by Start number), the Stop calls waiting for a done channel, and whether a
    Stop of the latest Start has returned.
   */
  datatype World = World(
    p: State,
    pending: multiset<nat>,
    runners: seq<Runner>,
    cancelled: set<nat>,
    stopCloses: multiset<nat>,
    waiting: multiset<nat>,
    restartable: bool,
    log: seq<Event>)

  const BEGIN := World(INITIAL, multiset{}, [], {}, multiset{}, multiset{}, true, [])

  datatype Step =
    | Update(activity: Activity)
    | Fire(gen: nat)
    | Flush(gen: nat)
    | Start
    | Stop
    | StopReturn(cycle: nat)
    | Cancel(cycle: nat)
    | Wake(cycle: nat)
    | Clear(cycle: nat)

  /** One atomic step; a step that is not possible changes nothing. */
  function Apply(w: World, step: Step): World {
    match step
    case Update(activity) =>
      var p := Updated(w.p, activity);
      if w.p.stopped then w else w.(p := p, log := w.log + [Accepted(p.gen, activity)])
    case Fire(gen) =>
      if gen !in w.p.armed then w
      else w.(p := w.p.(armed := w.p.armed - {gen}), pending := w.pending + multiset{gen})
    case Flush(gen) =>
      if gen !in w.pending then w
      else
        var (p, update) := Flushed(w.p, gen);
        w.(p := p,
           pending := w.pending - multiset{gen},
           log := if update.Some? then w.log + [Committed(gen, update.value)] else w.log)
    case Start =>
      w.(p := Started(w.p), runners := w.runners + [Waiting], restartable := false, log := w.log + [StartEvent])
    case Stop =>
      w.(p := Stopped(w.p),
         stopCloses := if w.p.stopCh.Some? then w.stopCloses + multiset{w.p.stopCh.value} else w.stopCloses,
         waiting := if w.p.done.Some? then w.waiting + multiset{w.p.done.value} else w.waiting,
         restartable := w.restartable || w.p.done.None?,
         log := w.log + [StopEvent])
    case StopReturn(cycle) =>
      if cycle in w.waiting && cycle < |w.runners| && w.runners[cycle].Exited?
      then w.(waiting := w.waiting - multiset{cycle},
              restartable := w.restartable || cycle + 1 == |w.runners|)
      else w
    case Cancel(cycle) =>
      if cycle < |w.runners| then w.(cancelled := w.cancelled + {cycle}) else w
    case Wake(cycle) =>
      if cycle < |w.runners| && w.runners[cycle].Waiting? && (cycle in w.cancelled || cycle in w.stopCloses)
      then w.(runners := w.runners[cycle := Woken])
      else w
    case Clear(cycle) =>
      if cycle < |w.runners| && w.runners[cycle].Woken?
      then w.(p := Cleared(w.p), runners := w.runners[cycle := Exited])
      else w
  }

  function Exec(w: World, steps: seq<Step>): World
    decreases |steps|
  {
    if steps == [] then w else Exec(Apply(w, steps[0]), steps[1..])
  }

  // ---------- What a history tells ----------

  /** The fields that a history determines. */
  datatype Replayed = Replayed(
    stopped: bool,
    sourced: bool,
    gen: nat,
    cached: Activity,
    last: Activity,
    committedGen: nat)

  function Advance(v: Replayed, e: Event): Replayed {
    match e
    case StartEvent => v.(stopped := false, sourced := false, last := ZERO)
    case StopEvent => v.(stopped := true)
    case Accepted(gen, activity) => v.(sourced := true, gen := gen, cached := activity)
    case Committed(gen, activity) => v.(last := activity, committedGen := gen)
  }

  function Replay(log: seq<Event>): Replayed {
    if log == [] then Replayed(false, false, 0, ZERO, ZERO, 0)
    else Advance(Replay(log[..|log| - 1]), log[|log| - 1])
  }

  /** An event that may follow a history. */
  predicate Follows(v: Replayed, e: Event) {
    match e
    case StartEvent => true
    case StopEvent => true
    case Accepted(gen, _) => !v.stopped && gen == v.gen + 1
    case Committed(gen, activity) =>
      && !v.stopped
      && gen == v.gen > v.committedGen
      && activity == v.cached
      && !Equals(activity, v.last)
  }

  predicate GoodLog(log: seq<Event>) {
    forall i :: 0 <= i < |log| ==> Follows(Replay(log[..i]), log[i])
  }

  lemma GoodLogExtends(log: seq<Event>, e: Event)
    requires GoodLog(log) && Follows(Replay(log), e)
    ensures GoodLog(log + [e])
  {
    var longer := log + [e];
    forall i | 0 <= i < |longer| ensures Follows(Replay(longer[..i]), longer[i]) {
      if i < |log| {
        assert longer[..i] == log[..i];
      } else {
        assert longer[..i] == log;
      }
    }
  }

  lemma ReplayExtends(log: seq<Event>, e: Event)
    ensures Replay(log + [e]) == Advance(Replay(log), e)
  {
    assert (log + [e])[..|log|] == log;
  }

  lemma ReplayPrefix(log: seq<Event>, j: nat)
    requires 0 < j <= |log|
    ensures Replay(log[..j]) == Advance(Replay(log[..j - 1]), log[j - 1])
  {
    assert log[..j][..j - 1] == log[..j - 1];
  }

  // ---------- The invariant of every interleaving ----------

  /** The history is sound and determines the fields. */
  ghost predicate LogInv(w: World) {
    var v := Replay(w.log);
    && GoodLog(w.log)
    && v.stopped == w.p.stopped
    && v.sourced == w.p.hasSource
    && v.gen == w.p.gen
    && v.cached == w.p.cached
    && v.last == w.p.lastNotified
  }

  /** Only the latest generation can be armed; every generation fires and is flushed at most once. */
  ghost predicate TimerInv(w: World, committedGen: nat) {
    && committedGen <= w.p.gen
    && (w.p.timer.Some? ==> w.p.timer.value == w.p.gen)
    && (forall g :: g in w.p.armed ==> w.p.timer == Some(g) && g > 0 && g !in w.pending)
    && (forall g :: g in w.pending ==> 0 < g <= w.p.gen)
    && (forall g :: w.pending[g] <= 1)
    && (committedGen == w.p.gen ==> w.p.gen !in w.p.armed && w.p.gen !in w.pending)
  }

  /** Each stop channel is closed at most once. */
  ghost predicate StopInv(w: World) {
    && w.p.starts == |w.runners|
    && (w.p.stopCh.Some? ==> w.p.stopCh.value < w.p.starts && w.p.stopCh.value !in w.stopCloses)
    && (forall c :: w.stopCloses[c] <= 1)
    && (forall c :: c in w.stopCloses ==> c < w.p.starts)
  }

  ghost predicate Inv(w: World) {
    LogInv(w) && TimerInv(w, Replay(w.log).committedGen) && StopInv(w)
  }

  /** The event a step adds to the history, if any. */
  function NewEvent(w: World, step: Step): Option<Event> {
    match step
    case Update(activity) => if w.p.stopped then None else Some(Accepted(w.p.gen + 1, activity))
    case Flush(gen) =>
      if gen in w.pending && Flushed(w.p, gen).1.Some? then Some(Committed(gen, w.p.cached)) else None
    case Start => Some(StartEvent)
    case Stop => Some(StopEvent)
    case _ => None
  }

  lemma StepLogs(w: World, step: Step)
    ensures Apply(w, step).log == match NewEvent(w, step) case None => w.log case Some(e) => w.log + [e]
  {
    hide Equals;
  }

  lemma StepKeepsLog(w: World, step: Step)
    requires Inv(w)
    ensures LogInv(Apply(w, step))
  {
    hide Replay, Equals, GoodLog;
    StepLogs(w, step);
    var e := NewEvent(w, step);
    if e.Some? {
      assert Follows(Replay(w.log), e.value);
      GoodLogExtends(w.log, e.value);
      ReplayExtends(w.log, e.value);
    }
  }

  /** The generation committed last after a step. */
  function CommittedAfter(w: World, step: Step, committedGen: nat): nat {
    if step.Flush? && step.gen in w.pending && Flushed(w.p, step.gen).1.Some? then step.gen else committedGen
  }

  lemma FlushKeepsTimers(w: World, gen: nat, committedGen: nat)
    requires TimerInv(w, committedGen)
    ensures TimerInv(Apply(w, Flush(gen)), CommittedAfter(w, Flush(gen), committedGen))
  {
    hide Equals;
    if gen in w.pending {
      var w' := Apply(w, Flush(gen));
      assert w'.p.gen == w.p.gen && w'.p.armed == w.p.armed;
      assert w'.p.timer == w.p.timer || (w'.p.timer == None && w.p.armed == {});
      assert gen !in w'.pending;
      assert forall g :: w'.pending[g] <= w.pending[g];
    }
  }

  lemma StepKeepsTimers(w: World, step: Step, committedGen: nat)
    requires TimerInv(w, committedGen)
    ensures TimerInv(Apply(w, step), CommittedAfter(w, step, committedGen))
  {
    hide Equals;
    if step.Flush? {
      FlushKeepsTimers(w, step.gen, committedGen);
    }
  }

  lemma StopKeepsStops(w: World)
    requires StopInv(w)
    ensures StopInv(Apply(w, Stop))
  {
    var w' := Apply(w, Stop);
    if w.p.stopCh.Some? {
      assert w'.stopCloses == w.stopCloses[w.p.stopCh.value := 1];
    }
  }

  lemma StartKeepsStops(w: World)
    requires StopInv(w)
    ensures StopInv(Apply(w, Start))
  {
    assert |w.runners| !in w.stopCloses;
  }

  lemma OthersLeaveStops(w: World, step: Step)
    requires !step.Start? && !step.Stop?
    ensures var w' := Apply(w, step);
            && w'.stopCloses == w.stopCloses && w'.p.stopCh == w.p.stopCh
            && w'.p.starts == w.p.starts && |w'.runners| == |w.runners|
  {
    hide Equals;
  }

  lemma StepKeepsStops(w: World, step: Step)
    requires StopInv(w)
    ensures StopInv(Apply(w, step))
  {
    if step.Stop? {
      StopKeepsStops(w);
    } else if step.Start? {
      StartKeepsStops(w);
    } else {
      OthersLeaveStops(w, step);
    }
    hide Apply;
  }

  lemma StepKeepsInv(w: World, step: Step)
    requires Inv(w)
    ensures Inv(Apply(w, step))
  {
    hide Replay, Equals, GoodLog;
    StepKeepsLog(w, step);
    StepKeepsTimers(w, step, Replay(w.log).committedGen);
    StepKeepsStops(w, step);
    StepLogs(w, step);
    if NewEvent(w, step).Some? {
      ReplayExtends(w.log, NewEvent(w, step).value);
    }
  }

  lemma {:induction false} RunKeepsInv(w: World, steps: seq<Step>)
    requires Inv(w)
    ensures Inv(Exec(w, steps))
    decreases |steps|
  {
    if steps != [] {
      StepKeepsInv(w, steps[0]);
      RunKeepsInv(Apply(w, steps[0]), steps[1..]);
    }
  }

  // ---------- Generation safety ----------

  /** `i` is the place of the latest accepted Update before `j`. */
  predicate LatestAccepted(log: seq<Event>, i: nat, j: nat) {
    && i < j <= |log|
    && log[i].Accepted?
    && forall k :: i < k < j ==> !log[k].Accepted?
  }

  predicate NoStartBetween(log: seq<Event>, i: int, j: int) {
    forall k :: 0 <= k < |log| && i < k < j ==> !log[k].StartEvent?
  }

  predicate NoCommitBetween(log: seq<Event>, i: int, j: int) {
    forall k :: 0 <= k < |log| && i < k < j ==> !log[k].Committed?
  }

  lemma NothingReplayed(log: seq<Event>)
    ensures Replay(log[..0]).gen == 0 && !Replay(log[..0]).sourced
  {
  }

  /** The last accepted Update of a history is what its replay has cached. */
  lemma {:induction false} ReplayCached(log: seq<Event>, j: nat) returns (i: nat)
    requires GoodLog(log) && j <= |log| && Replay(log[..j]).gen > 0
    ensures LatestAccepted(log, i, j)
    ensures log[i] == Accepted(Replay(log[..j]).gen, Replay(log[..j]).cached)
  {
    hide Replay, Equals, GoodLog;
    NothingReplayed(log);
    ReplayPrefix(log, j);
    if log[j - 1].Accepted? {
      i := j - 1;
    } else {
      i := ReplayCached(log, j - 1);
    }
  }

  /** After a Stop with no Start since, the presence is stopped. */
  lemma {:induction false} ReplayStopped(log: seq<Event>, i: nat, j: nat)
    requires i < j <= |log| && log[i].StopEvent? && NoStartBetween(log, i, j)
    ensures Replay(log[..j]).stopped
  {
    ReplayPrefix(log, j);
    hide Replay, Equals;
    if i < j - 1 {
      ReplayStopped(log, i, j - 1);
      assert !log[j - 1].StartEvent?;
    }
  }

  /** With no Start and no commit since, the last commit is what the next one is compared with. */
  lemma {:induction false} ReplayLast(log: seq<Event>, i: nat, j: nat)
    requires i < j <= |log| && (log[i].Committed? || log[i].StartEvent?)
    requires NoStartBetween(log, i, j) && NoCommitBetween(log, i, j)
    ensures Replay(log[..j]).last == if log[i].Committed? then log[i].activity else ZERO
  {
    ReplayPrefix(log, j);
    hide Replay, Equals;
    if i < j - 1 {
      ReplayLast(log, i, j - 1);
      assert !log[j - 1].StartEvent? && !log[j - 1].Committed?;
    }
  }

  /** Generations only grow along a history, and commits never fall back. */
  lemma {:induction false} ReplayCommittedGen(log: seq<Event>, i: nat, j: nat)
    requires GoodLog(log) && i < j <= |log| && log[i].Committed?
    ensures log[i].gen <= Replay(log[..j]).committedGen
  {
    ReplayPrefix(log, j);
    hide Replay, Equals;
    if i < j - 1 {
      ReplayCommittedGen(log, i, j - 1);
      assert Follows(Replay(log[..j - 1]), log[j - 1]);
    }
  }

  /** Commits come in strictly increasing generations, so no accepted Update commits twice. */
  ghost predicate CommitsIncrease(log: seq<Event>) {
    forall i, j :: 0 <= i < j < |log| && log[i].Committed? && log[j].Committed? ==> log[i].gen < log[j].gen
  }

  /** Each commit emits the activity of the latest accepted Update. */
  ghost predicate CommitsAreLatest(log: seq<Event>) {
    forall j: nat :: j < |log| && log[j].Committed? ==>
      exists i: nat :: LatestAccepted(log, i, j) && log[i] == Accepted(log[j].gen, log[j].activity)
  }

  /** Two consecutive events, Start or commit, with nothing of either kind between them. */
  predicate Adjacent(log: seq<Event>, i: nat, j: nat) {
    i < j < |log| && NoStartBetween(log, i, j) && NoCommitBetween(log, i, j)
  }

  /** Within a Start cycle no commit equals the one before it, nor the first one the zero activity. */
  ghost predicate CommitsDiffer(log: seq<Event>) {
    forall i: nat, j: nat :: Adjacent(log, i, j) && log[j].Committed? ==>
      && (log[i].Committed? ==> !Equals(log[j].activity, log[i].activity))
      && (log[i].StartEvent? ==> !Equals(log[j].activity, ZERO))
  }

  /** No commit lies between a Stop and the next Start. */
  ghost predicate NoCommitWhileStopped(log: seq<Event>) {
    forall i, j :: 0 <= i < j < |log| && log[i].StopEvent? && log[j].Committed? ==> !NoStartBetween(log, i, j)
  }

  lemma GoodLogIsSafe(log: seq<Event>)
    requires GoodLog(log)
    ensures CommitsIncrease(log) && CommitsAreLatest(log) && CommitsDiffer(log) && NoCommitWhileStopped(log)
  {
    hide Replay, Equals;
    forall i, j | 0 <= i < j < |log| && log[i].Committed? && log[j].Committed?
      ensures log[i].gen < log[j].gen
    {
      ReplayCommittedGen(log, i, j);
      assert Follows(Replay(log[..j]), log[j]);
    }
    forall j: nat | j < |log| && log[j].Committed?
      ensures exists i: nat :: LatestAccepted(log, i, j) && log[i] == Accepted(log[j].gen, log[j].activity)
    {
      assert Follows(Replay(log[..j]), log[j]);
      var i := ReplayCached(log, j);
    }
    forall i: nat, j: nat | Adjacent(log, i, j) && log[j].Committed? && (log[i].Committed? || log[i].StartEvent?)
      ensures !Equals(log[j].activity, if log[i].Committed? then log[i].activity else ZERO)
    {
      assert Follows(Replay(log[..j]), log[j]);
      ReplayLast(log, i, j);
    }
    forall i, j | 0 <= i < j < |log| && log[i].StopEvent? && log[j].Committed?
      ensures !NoStartBetween(log, i, j)
    {
      assert Follows(Replay(log[..j]), log[j]);
      if NoStartBetween(log, i, j) {
        ReplayStopped(log, i, j);
      }
    }
  }

  /** Generation safety, in every interleaving. */
  lemma GenerationSafety(steps: seq<Step>)
    ensures var log := Exec(BEGIN, steps).log;
            CommitsIncrease(log) && CommitsAreLatest(log) && CommitsDiffer(log) && NoCommitWhileStopped(log)
  {
    RunKeepsInv(BEGIN, steps);
    GoodLogIsSafe(Exec(BEGIN, steps).log);
  }

  /** Every stop channel is closed at most once, in every interleaving. */
  lemma StopChannelsCloseOnce(steps: seq<Step>)
    ensures forall c :: Exec(BEGIN, steps).stopCloses[c] <= 1
  {
    RunKeepsInv(BEGIN, steps);
  }

  // ---------- Convergence ----------

  /** Every Start is the first one, or comes after a Stop of the previous Start has returned. */
  predicate Disciplined(w: World, steps: seq<Step>)
    decreases |steps|
  {
    steps == [] || ((steps[0].Start? ==> w.restartable) && Disciplined(Apply(w, steps[0]), steps[1..]))
  }

  /** Not stopped, and the context of the latest Start not cancelled. */
  predicate Live(w: World) {
    !w.p.stopped && |w.runners| - 1 !in w.cancelled
  }

  /** Neither an armed timer nor a pending callback of the current generation. */
  predicate Quiet(w: World) {
    w.p.armed == {} && w.p.gen !in w.pending
  }

  /** A live presence with a source is settled, or will flush its current generation. */
  ghost predicate Settling(w: World) {
    Live(w) && w.p.hasSource ==>
      w.p.gen in w.p.armed || w.p.gen in w.pending || Equals(w.p.cached, w.p.lastNotified)
  }

  /** Only the run goroutine of the latest Start is still there, and it ends only when told to. */
  ghost predicate RunnerInv(w: World) {
    var last := |w.runners| - 1;
    && (forall c :: 0 <= c < last ==> w.runners[c].Exited?)
    && (last >= 0 && !w.runners[last].Waiting? ==> last in w.cancelled || w.p.stopped)
    && (forall c :: c in w.cancelled ==> 0 <= c <= last)
    && (last in w.stopCloses ==> w.p.stopped)
    && w.p.done == (if last < 0 then None else Some(last))
    && (w.p.stopCh.Some? ==> w.p.stopCh.value == last)
    && (forall c :: c in w.waiting ==> c <= last)
    && (last in w.waiting ==> w.p.stopped)
    && (last >= 0 && w.restartable ==> w.p.stopped && w.runners[last].Exited?)
  }

  /** Updates, firings and flushes leave the run goroutines alone. */
  predicate TouchesRunners(step: Step) {
    !step.Update? && !step.Fire? && !step.Flush?
  }

  lemma OtherStepKeepsRunners(w: World, step: Step)
    requires !TouchesRunners(step)
    ensures var w' := Apply(w, step);
            && w' == w.(p := w'.p, pending := w'.pending, log := w'.log)
            && w'.p.done == w.p.done && w'.p.stopCh == w.p.stopCh && w'.p.stopped == w.p.stopped
  {
  }

  lemma StartStopKeepsRunners(w: World, step: Step)
    requires StopInv(w) && RunnerInv(w) && (step.Start? || step.Stop?) && (step.Start? ==> w.restartable)
    ensures RunnerInv(Apply(w, step))
  {
    var w', last := Apply(w, step), |w.runners| - 1;
    if step.Start? {
      assert forall c :: 0 <= c <= last ==> w'.runners[c] == w.runners[c] == Exited;
      assert last + 1 !in w.stopCloses && last + 1 !in w.waiting;
    }
  }

  lemma WakeClearKeepsRunners(w: World, step: Step)
    requires StopInv(w) && RunnerInv(w) && (step.Wake? || step.Clear?)
    ensures RunnerInv(Apply(w, step))
  {
  }

  lemma ReturnCancelKeepsRunners(w: World, step: Step)
    requires StopInv(w) && RunnerInv(w) && (step.StopReturn? || step.Cancel?)
    ensures RunnerInv(Apply(w, step))
  {
  }

  lemma StepKeepsRunners(w: World, step: Step)
    requires StopInv(w) && RunnerInv(w) && (step.Start? ==> w.restartable)
    ensures RunnerInv(Apply(w, step))
  {
    if step.Start? || step.Stop? {
      StartStopKeepsRunners(w, step);
    } else if step.Wake? || step.Clear? {
      WakeClearKeepsRunners(w, step);
    } else if step.StopReturn? || step.Cancel? {
      ReturnCancelKeepsRunners(w, step);
    } else {
      OtherStepKeepsRunners(w, step);
    }
  }

  lemma FlushKeepsSettling(w: World, gen: nat)
    requires Settling(w)
    ensures Settling(Apply(w, Flush(gen)))
  {
    EqualsIsEquivalence(w.p.cached, w.p.cached, w.p.cached);
  }

  /** Older run goroutines are gone, and the latest one leaves its channels only when told to. */
  ghost predicate LatestRuns(w: World) {
    var last := |w.runners| - 1;
    && (forall c :: 0 <= c < last ==> w.runners[c].Exited?)
    && (last >= 0 && !w.runners[last].Waiting? ==> last in w.cancelled || w.p.stopped)
  }

  /** Steps of the run goroutines and of Start and Stop. */
  lemma RunnerStepKeepsSettling(w: World, step: Step)
    requires LatestRuns(w) && Settling(w) && TouchesRunners(step)
    ensures Settling(Apply(w, step))
  {
    hide Equals;
  }

  lemma UpdateFireKeepsSettling(w: World, step: Step)
    requires Settling(w) && (step.Update? || step.Fire?)
    ensures Settling(Apply(w, step))
  {
    hide Equals;
  }

  lemma StepKeepsSettling(w: World, step: Step)
    requires LatestRuns(w) && Settling(w)
    ensures Settling(Apply(w, step))
  {
    hide LatestRuns, Settling, Apply;
    if TouchesRunners(step) {
      RunnerStepKeepsSettling(w, step);
    } else if step.Flush? {
      FlushKeepsSettling(w, step.gen);
    } else {
      UpdateFireKeepsSettling(w, step);
    }
  }

  ghost predicate ConvergenceInv(w: World) {
    Inv(w) && RunnerInv(w) && Settling(w)
  }

  lemma StepKeepsConvergence(w: World, step: Step)
    requires ConvergenceInv(w) && (step.Start? ==> w.restartable)
    ensures ConvergenceInv(Apply(w, step))
  {
    StepKeepsInv(w, step);
    StepKeepsRunners(w, step);
    StepKeepsSettling(w, step);
  }

  lemma {:induction false} RunKeepsConvergence(w: World, steps: seq<Step>)
    requires ConvergenceInv(w) && Disciplined(w, steps)
    ensures ConvergenceInv(Exec(w, steps))
    decreases |steps|
  {
    if steps != [] {
      StepKeepsConvergence(w, steps[0]);
      RunKeepsConvergence(Apply(w, steps[0]), steps[1..]);
    }
  }

  /**
    Convergence: whatever the interleaving, once a live presence with a source is quiet, the snapshot
    equals what subscribers were last told in this Start cycle (the zero activity if nothing was).
   */
  lemma Convergence(steps: seq<Step>)
    requires Disciplined(BEGIN, steps)
    ensures var w := Exec(BEGIN, steps);
            Live(w) && w.p.hasSource && Quiet(w) ==>
              && Snapshot(w.p).Some?
              && Equals(Snapshot(w.p).value, Replay(w.log).last)
  {
    RunKeepsConvergence(BEGIN, steps);
  }

  // ---------- Commits that no Update of the cycle explains ----------

  /** An accepted Update lies between the latest Start before `j` and `j`. */
  ghost predicate SourcedAt(log: seq<Event>, j: nat) {
    exists i: nat :: i < j <= |log| && log[i].Accepted? && NoStartBetween(log, i, j)
  }

  lemma {:induction false} ReplaySourced(log: seq<Event>, j: nat)
    requires j <= |log|
    ensures Replay(log[..j]).sourced <==> SourcedAt(log, j)
  {
    if j > 0 {
      ReplayPrefix(log, j);
      ReplaySourced(log, j - 1);
      if Replay(log[..j]).sourced {
        var i: nat :| i < j && log[i].Accepted? && NoStartBetween(log, i, if log[j - 1].Accepted? then j else j - 1)
                      && (log[j - 1].Accepted? ==> i == j - 1);
        assert NoStartBetween(log, i, j);
      }
      if SourcedAt(log, j) && !log[j - 1].Accepted? {
        var i: nat :| i < j && log[i].Accepted? && NoStartBetween(log, i, j);
        assert NoStartBetween(log, i, j - 1);
      }
    }
  }

  /** The snapshot has an activity exactly when an Update was accepted since the latest Start. */
  lemma SnapshotSource(steps: seq<Step>)
    ensures var w := Exec(BEGIN, steps); Snapshot(w.p).Some? <==> SourcedAt(w.log, |w.log|)
  {
    RunKeepsInv(BEGIN, steps);
    var log := Exec(BEGIN, steps).log;
    assert log[..|log|] == log;
    ReplaySourced(log, |log|);
  }

  lemma {:induction false} SourcedIsAccepted(log: seq<Event>, j: nat)
    requires GoodLog(log) && j <= |log| && Replay(log[..j]).sourced
    ensures Replay(log[..j]).gen > 0
    decreases j
  {
    hide Replay, Equals, GoodLog;
    NothingReplayed(log);
    if j > 0 {
      ReplayPrefix(log, j);
      GoodLogAt(log, j - 1);
      if Replay(log[..j - 1]).sourced {
        SourcedIsAccepted(log, j - 1);
      }
    }
  }

  lemma GoodLogAt(log: seq<Event>, i: nat)
    requires GoodLog(log) && i < |log|
    ensures Follows(Replay(log[..i]), log[i])
  {
  }

  /**
    After any run, whatever is armed or pending, a snapshot with an activity shows the latest accepted
    Update's, told or not.
   */
  lemma SnapshotIsLatest(steps: seq<Step>)
    ensures var w := Exec(BEGIN, steps);
            Snapshot(w.p).Some? ==>
              exists i: nat :: LatestAccepted(w.log, i, |w.log|) && Snapshot(w.p) == Some(w.log[i].activity)
  {
    RunKeepsInv(BEGIN, steps);
    var w := Exec(BEGIN, steps);
    hide Exec, Replay, Equals, GoodLog, TimerInv, StopInv;
    if Snapshot(w.p).Some? {
      assert w.log[..|w.log|] == w.log;
      SourcedIsAccepted(w.log, |w.log|);
      var i := ReplayCached(w.log, |w.log|);
    }
  }

  /** Four steps of a run at a time. */
  lemma ExecFour(w: World, steps: seq<Step>)
    requires |steps| >= 4
    ensures Exec(w, steps)
         == Exec(Apply(Apply(Apply(Apply(w, steps[0]), steps[1]), steps[2]), steps[3]), steps[4..])
  {
    var w1 := Apply(w, steps[0]);
    var w2 := Apply(w1, steps[1]);
    var w3 := Apply(w2, steps[2]);
    var w4 := Apply(w3, steps[3]);
    assert Exec(w1, steps[1..]) == Exec(w2, steps[1..][1..]);
    assert steps[1..][1..] == steps[2..];
    assert Exec(w2, steps[2..]) == Exec(w3, steps[2..][1..]);
    assert steps[2..][1..] == steps[3..];
    assert Exec(w3, steps[3..]) == Exec(w4, steps[3..][1..]);
    assert steps[3..][1..] == steps[4..];
  }

  /** A Stop is called while the callback of the only Update waits for the mutex. */
  lemma StopBeforeCallback(activity: Activity)
    ensures var p := Stopped(Updated(Started(INITIAL), activity).(armed := {}));
            Apply(Apply(Apply(Apply(BEGIN, Start), Update(activity)), Fire(1)), Stop)
            == World(p, multiset{1}, [Waiting], {}, multiset{0}, multiset{0}, false,
                     [StartEvent, Accepted(1, activity), StopEvent])
  {
    var w := Apply(Apply(BEGIN, Start), Update(activity));
    assert w.p.armed == {1};
    var w' := Apply(w, Fire(1));
    assert w'.p.armed == {} && w'.pending == multiset{1};
  }

  /** The run goroutine ends, and Stop returns. */
  lemma StoppedRunnerEnds(w: World)
    requires w.runners == [Waiting] && w.stopCloses == multiset{0} && w.waiting == multiset{0}
    ensures Apply(Apply(Apply(w, Wake(0)), Clear(0)), StopReturn(0))
         == w.(p := Cleared(w.p), runners := [Exited], waiting := multiset{}, restartable := true)
  {
    hide Equals;
    var w1 := Apply(w, Wake(0));
    assert w1 == w.(runners := [Woken]);
    var w2 := Apply(w1, Clear(0));
    assert w2 == w.(p := Cleared(w.p), runners := [Exited]);
  }

  /** The run goroutine ends, Stop returns, the next Start begins its cycle, and the callback commits. */
  lemma CallbackAfterRestart(w: World)
    requires w.runners == [Waiting] && w.stopCloses == multiset{0} && w.waiting == multiset{0}
    requires w.p.gen == 1 && w.pending == multiset{1} && !Equals(w.p.cached, ZERO) && w.cancelled == {}
    ensures var w1 := Apply(Apply(Apply(w, Wake(0)), Clear(0)), StopReturn(0));
            var w2 := Apply(Apply(w1, Start), Flush(1));
            && w1.restartable
            && w2.log == w.log + [StartEvent, Committed(1, w.p.cached)]
            && Live(w2) && Snapshot(w2.p).None?
  {
    hide Equals;
    StoppedRunnerEnds(w);
    var w1 := w.(p := Cleared(w.p), runners := [Exited], waiting := multiset{}, restartable := true);
    var w2 := Apply(w1, Start);
    assert w2.p == Started(Cleared(w.p)) && |w2.runners| == 2 && w2.log == w.log + [StartEvent];
    assert Apply(w2, Flush(1)).log == w.log + [StartEvent] + [Committed(1, w.p.cached)];
  }

  /**
    Start does not advance the generation, so a callback that is blocked on the mutex across a Stop and
    the next Start still commits: subscribers are told of an activity while the snapshot says that
    there is no source. The second Start comes after the Stop has returned.
   */
  lemma StaleCallbackCommits(activity: Activity)
    requires !Equals(activity, ZERO)
    ensures var before := [Start, Update(activity), Fire(1), Stop, Wake(0), Clear(0), StopReturn(0), Start];
            var w := Exec(BEGIN, before + [Flush(1)]);
            && Exec(BEGIN, before[..7]).restartable
            && w.log == [StartEvent, Accepted(1, activity), StopEvent, StartEvent, Committed(1, activity)]
            && Live(w) && Snapshot(w.p).None?
  {
    StopBeforeCallback(activity);
    var w4 := Apply(Apply(Apply(Apply(BEGIN, Start), Update(activity)), Fire(1)), Stop);
    CallbackAfterRestart(w4);
    var before := [Start, Update(activity), Fire(1), Stop, Wake(0), Clear(0), StopReturn(0), Start];
    var all := before + [Flush(1)];
    ExecFour(BEGIN, before[..7]);
    ExecFour(BEGIN, all);
    ExecThree(w4, before[..7][4..]);
    ExecFour(w4, all[4..]);
    assert all[4..][4..] == [Flush(1)];
    assert [Flush(1)][1..] == [];
  }

  lemma ExecThree(w: World, steps: seq<Step>)
    requires |steps| == 3
    ensures Exec(w, steps) == Apply(Apply(Apply(w, steps[0]), steps[1]), steps[2])
  {
    var w1 := Apply(w, steps[0]);
    var w2 := Apply(w1, steps[1]);
    assert Exec(w1, steps[1..]) == Exec(w2, steps[1..][1..]);
    assert steps[1..][1..] == [steps[2]];
    assert [steps[2]][1..] == [];
  }

  /** The run goroutine of the only Start ends because its context is cancelled. */
  lemma CancelEndsRunner()
    ensures Exec(BEGIN, [Start, Cancel(0), Wake(0), Clear(0)])
         == World(Started(INITIAL), multiset{}, [Exited], {0}, multiset{}, multiset{}, false, [StartEvent])
  {
    var steps := [Start, Cancel(0), Wake(0), Clear(0)];
    ExecFour(BEGIN, steps);
    var w1 := Apply(BEGIN, Start);
    var w2 := Apply(w1, Cancel(0));
    assert w2.cancelled == {0};
    var w3 := Apply(w2, Wake(0));
    assert w3.runners == [Woken];
    var w4 := Apply(w3, Clear(0));
    assert w4.runners == [Exited];
  }

  /** Cancelling the context does not stop the presence: an Update after it is told to subscribers. */
  lemma UpdateAfterCancelCommits(activity: Activity)
    requires !Equals(activity, ZERO)
    ensures var cancelled := Exec(BEGIN, [Start, Cancel(0), Wake(0), Clear(0)]);
            Exec(cancelled, [Update(activity), Fire(1), Flush(1)]).log
            == [StartEvent, Accepted(1, activity), Committed(1, activity)]
  {
    hide Equals;
    CancelEndsRunner();
    var w := World(Started(INITIAL), multiset{}, [Exited], {0}, multiset{}, multiset{}, false, [StartEvent]);
    ExecThree(w, [Update(activity), Fire(1), Flush(1)]);
    var w1 := Apply(w, Update(activity));
    assert w1.p.armed == {1} && w1.p.gen == 1;
    var w2 := Apply(w1, Fire(1));
    assert w2.pending == multiset{1};
  }

  /** Two Starts in a row, then an Update. */
  lemma OverlappingStarts(activity: Activity)
    ensures var w := Exec(BEGIN, [Start, Start, Update(activity)]);
            && w.p == Updated(Started(Started(INITIAL)), activity) && w.p.armed == {1}
            && w.runners == [Waiting, Waiting] && w.cancelled == {} && w.pending == multiset{}
            && w.stopCloses == multiset{}
            && w.log == [StartEvent, StartEvent, Accepted(1, activity)]
  {
    ExecThree(BEGIN, [Start, Start, Update(activity)]);
  }

  /** The first run goroutine ends with its own context. */
  lemma OlderRunnerClears(w: World)
    requires w.runners == [Waiting, Waiting] && w.cancelled == {} && w.p.timer == Some(1) && w.p.armed == {1}
    ensures var w' := Exec(w, [Cancel(0), Wake(0), Clear(0)]);
            w' == w.(p := w.p.(armed := {}, timer := None), runners := [Exited, Waiting], cancelled := {0})
  {
    ExecThree(w, [Cancel(0), Wake(0), Clear(0)]);
    var w1 := Apply(w, Cancel(0));
    assert w1 == w.(cancelled := {0});
    var w2 := Apply(w1, Wake(0));
    assert w2 == w1.(runners := [Woken, Waiting]);
  }

  /**
    Without that discipline convergence fails: a second Start while the first one still runs leaves two
    run goroutines, and the older one, ending with its own context, clears the timer of a newer Update.
   */
  lemma OverlappingStartsLoseUpdate(activity: Activity)
    requires !Equals(activity, ZERO)
    ensures var w := Exec(BEGIN, [Start, Start, Update(activity)] + [Cancel(0), Wake(0), Clear(0)]);
            && Live(w) && w.p.hasSource && Quiet(w)
            && Snapshot(w.p) == Some(activity) && !Equals(activity, Replay(w.log).last)
  {
    hide Equals, Exec, Apply;
    OverlappingStarts(activity);
    var w := Exec(BEGIN, [Start, Start, Update(activity)]);
    ExecSplit(BEGIN, [Start, Start, Update(activity)], [Cancel(0), Wake(0), Clear(0)]);
    OlderRunnerClears(w);
    assert w.log[..2] == [StartEvent, StartEvent] && w.log[..2][..1] == [StartEvent];
    assert Replay([StartEvent, StartEvent]).last == ZERO;
  }

  lemma {:induction false} ExecSplit(w: World, a: seq<Step>, b: seq<Step>)
    ensures Exec(w, a + b) == Exec(Exec(w, a), b)
    decreases |a|
  {
    hide Apply;
    if a == [] {
      assert a + b == b;
    } else {
      assert (a + b)[1..] == a[1..] + b;
      ExecSplit(Apply(w, a[0]), a[1..], b);
    }
  }
}
