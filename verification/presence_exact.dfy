/** Exactly when the presence cache can do what its comments rule out. */
module PresenceExact {
  import opened Wrappers
  import opened Activities
  import opened Presences
  import opened PresenceRuns

  predicate NoStart(steps: seq<Step>) {
    forall step :: step in steps ==> !step.Start?
  }

  predicate NoInput(steps: seq<Step>) {
    forall step :: step in steps ==> !step.Start? && !step.Update?
  }

  predicate IsCommit(e: Option<Event>) {
    e.Some? && e.value.Committed?
  }

  /** Some step of the run commits. */
  predicate Commits(w: World, steps: seq<Step>)
    decreases |steps|
  {
    steps != [] && (IsCommit(NewEvent(w, steps[0])) || Commits(Apply(w, steps[0]), steps[1..]))
  }

  /** Some step of the run commits while the snapshot says that there is no source. */
  predicate TellsUnsourced(w: World, steps: seq<Step>)
    decreases |steps|
  {
    && steps != []
    && ((IsCommit(NewEvent(w, steps[0])) && Snapshot(w.p).None?) || TellsUnsourced(Apply(w, steps[0]), steps[1..]))
  }

  /** A callback of the current generation is still to come. */
  predicate CallbackAlive(w: World) {
    w.p.gen in w.p.armed || w.p.gen in w.pending
  }

  /** Fires the timer of the current generation, if it has not fired, and runs its callback. */
  function Firing(w: World): seq<Step> {
    if w.p.gen in w.pending then [Flush(w.p.gen)] else [Fire(w.p.gen), Flush(w.p.gen)]
  }

  lemma FiringCommits(w: World)
    requires CallbackAlive(w) && !w.p.stopped && !Equals(w.p.cached, w.p.lastNotified)
    ensures NoInput(Firing(w)) && Commits(w, Firing(w))
    ensures Snapshot(w.p).None? ==> TellsUnsourced(w, Firing(w))
  {
    hide Equals;
    var gen := w.p.gen;
    if gen !in w.pending {
      var w' := Apply(w, Fire(gen));
      assert w' == w.(p := w.p.(armed := w.p.armed - {gen}), pending := w.pending + multiset{gen});
      assert Firing(w)[1..] == [Flush(gen)];
      assert IsCommit(NewEvent(w', Flush(gen)));
      assert Commits(w', [Flush(gen)]);
    }
  }

  // ---------- What can still be told without another Update ----------

  /** There is something to tell, and a callback that will tell it. */
  predicate CommitDue(w: World) {
    !w.p.stopped && CallbackAlive(w) && !Equals(w.p.cached, w.p.lastNotified)
  }

  lemma NothingDueStep(w: World, step: Step)
    requires !CommitDue(w) && !step.Start? && !step.Update?
    ensures !IsCommit(NewEvent(w, step)) && !CommitDue(Apply(w, step))
  {
    EqualsIsEquivalence(w.p.cached, w.p.cached, w.p.cached);
    hide Equals;
  }

  lemma {:induction false} NothingDueNothingTold(w: World, steps: seq<Step>)
    requires NoInput(steps) && !CommitDue(w)
    ensures !Commits(w, steps)
    decreases |steps|
  {
    hide Apply, NewEvent, CommitDue;
    if steps != [] {
      NothingDueStep(w, steps[0]);
      NothingDueNothingTold(Apply(w, steps[0]), steps[1..]);
    }
  }

  /** Without another Update or Start a commit can follow exactly when one is due. */
  lemma CommitsExactly(w: World)
    ensures (exists steps :: NoInput(steps) && Commits(w, steps)) <==> CommitDue(w)
  {
    hide Commits, NoInput;
    if CommitDue(w) {
      FiringCommits(w);
    } else {
      forall steps | NoInput(steps) ensures !Commits(w, steps) {
        NothingDueNothingTold(w, steps);
      }
    }
  }

  /**
    What the contexts say does not matter: on any state, cancelled or not, an Update can be told exactly
    when the presence is not stopped and the activity differs from what was told last.
   */
  lemma UpdateCommitsExactly(w: World, activity: Activity)
    ensures (exists steps :: NoInput(steps) && Commits(Apply(w, Update(activity)), steps))
       <==> !w.p.stopped && !Equals(activity, w.p.lastNotified)
  {
    hide Equals, Commits, NoInput;
    CommitsExactly(Apply(w, Update(activity)));
  }

  lemma ReachableTimers(before: seq<Step>)
    ensures var w := Exec(BEGIN, before); TimerInv(w, Replay(w.log).committedGen)
  {
    RunKeepsInv(BEGIN, before);
  }

  /** Clearing takes the one armed timer away, and nothing else that matters to a commit. */
  lemma ClearedDue(w: World, cycle: nat)
    requires TimerInv(w, Replay(w.log).committedGen) && cycle < |w.runners| && w.runners[cycle].Woken?
    ensures CommitDue(Apply(w, Clear(cycle))) <==>
            !w.p.stopped && w.p.gen in w.pending && !Equals(w.p.cached, w.p.lastNotified)
  {
    hide Equals, Replay;
    assert w.p.gen !in Apply(w, Clear(cycle)).p.armed;
  }

  /**
    And the end of a run goroutine silences what came before it exactly when no callback of the current
    generation has fired, or it would tell nothing new, or the presence is stopped.
   */
  lemma SilentAfterClearExactly(before: seq<Step>, cycle: nat)
    requires var w := Exec(BEGIN, before); cycle < |w.runners| && w.runners[cycle].Woken?
    ensures var w := Exec(BEGIN, before);
            var possible := exists steps :: NoInput(steps) && Commits(Apply(w, Clear(cycle)), steps);
            possible <==> !w.p.stopped && w.p.gen in w.pending && !Equals(w.p.cached, w.p.lastNotified)
  {
    hide Equals, Commits, NoInput, Exec, TimerInv, CommitDue;
    ReachableTimers(before);
    var w := Exec(BEGIN, before);
    ClearedDue(w, cycle);
    CommitsExactly(Apply(w, Clear(cycle)));
  }

  // ---------- Commits that the cycle does not explain ----------

  /** A Start that finds no callback of the current generation, or one that would tell the zero activity. */
  predicate SafeStart(w: World) {
    !CallbackAlive(w) || Equals(w.p.cached, ZERO)
  }

  /** No commit without a source is possible. */
  predicate Explained(w: World) {
    w.p.hasSource || !CallbackAlive(w) || (Equals(w.p.cached, ZERO) && w.p.lastNotified == ZERO)
  }

  lemma ExplainedFlush(w: World, gen: nat)
    requires Explained(w)
    ensures Explained(Apply(w, Flush(gen)))
    ensures IsCommit(NewEvent(w, Flush(gen))) ==> w.p.hasSource
  {
    hide Equals;
  }

  lemma ExplainedOther(w: World, step: Step)
    requires Explained(w) && (step.Start? ==> SafeStart(w)) && !step.Flush?
    ensures Explained(Apply(w, step)) && !IsCommit(NewEvent(w, step))
  {
    hide Equals, Flushed;
  }

  lemma ExplainedStep(w: World, step: Step)
    requires Explained(w) && (step.Start? ==> SafeStart(w))
    ensures Explained(Apply(w, step))
    ensures IsCommit(NewEvent(w, step)) ==> w.p.hasSource
  {
    hide Explained, SafeStart, Apply, NewEvent;
    if step.Flush? {
      ExplainedFlush(w, step.gen);
    } else {
      ExplainedOther(w, step);
    }
  }

  lemma {:induction false} ExplainedRun(w: World, steps: seq<Step>)
    requires Explained(w) && NoStart(steps)
    ensures !TellsUnsourced(w, steps)
    decreases |steps|
  {
    hide Apply, NewEvent, Explained;
    if steps != [] {
      ExplainedStep(w, steps[0]);
      ExplainedRun(Apply(w, steps[0]), steps[1..]);
    }
  }

  /**
    On any state, subscribers can be told of an activity in the cycle of a Start while the snapshot says
    that there is no source, exactly when that Start finds a callback of the current generation armed or
    pending and a cached activity other than zero.
   */
  lemma StartIsSafeExactly(w: World)
    ensures (exists steps :: NoStart(steps) && TellsUnsourced(Apply(w, Start), steps)) <==> !SafeStart(w)
  {
    var w' := Apply(w, Start);
    hide Equals, TellsUnsourced, NoStart;
    if SafeStart(w) {
      forall steps | NoStart(steps) ensures !TellsUnsourced(w', steps) {
        ExplainedRun(w', steps);
      }
    } else {
      FiringCommits(w');
      NoInputNoStart(Firing(w'));
    }
  }

  lemma NoInputNoStart(steps: seq<Step>)
    requires NoInput(steps)
    ensures NoStart(steps)
  {
  }

  predicate SafeStarts(w: World, steps: seq<Step>)
    decreases |steps|
  {
    steps == [] || ((steps[0].Start? ==> SafeStart(w)) && SafeStarts(Apply(w, steps[0]), steps[1..]))
  }

  /** Every commit comes after an accepted Update of its own Start cycle. */
  ghost predicate CommitsSourced(log: seq<Event>) {
    forall j: nat :: j < |log| && log[j].Committed? ==> SourcedAt(log, j)
  }

  lemma SourcedAtPrefix(log: seq<Event>, e: Event, j: nat)
    requires j <= |log| && SourcedAt(log, j)
    ensures SourcedAt(log + [e], j)
  {
    var i: nat :| i < j && log[i].Accepted? && NoStartBetween(log, i, j);
    assert NoStartBetween(log + [e], i, j);
  }

  lemma StepKeepsSourced(w: World, step: Step)
    requires Inv(w) && CommitsSourced(w.log) && (IsCommit(NewEvent(w, step)) ==> w.p.hasSource)
    ensures CommitsSourced(Apply(w, step).log)
  {
    hide SourcedAt, NewEvent, Replay;
    StepLogs(w, step);
    assert w.log[..|w.log|] == w.log;
    ReplaySourced(w.log, |w.log|);
    var e := NewEvent(w, step);
    if e.Some? {
      forall j: nat | j <= |w.log| && (w.log + [e.value])[j].Committed? ensures SourcedAt(w.log + [e.value], j) {
        SourcedAtPrefix(w.log, e.value, j);
      }
    }
    hide Apply;
  }

  lemma {:induction false} SafeRunKeepsSourced(w: World, steps: seq<Step>)
    requires Inv(w) && Explained(w) && CommitsSourced(w.log) && SafeStarts(w, steps)
    ensures CommitsSourced(Exec(w, steps).log)
    decreases |steps|
  {
    hide Apply, NewEvent, Explained, Inv, CommitsSourced;
    if steps != [] {
      ExplainedStep(w, steps[0]);
      StepKeepsSourced(w, steps[0]);
      StepKeepsInv(w, steps[0]);
      SafeRunKeepsSourced(Apply(w, steps[0]), steps[1..]);
    }
  }

  /** In a run with only such Starts every commit is explained by an Update of its cycle. */
  lemma SafeStartsExplainCommits(steps: seq<Step>)
    requires SafeStarts(BEGIN, steps)
    ensures CommitsSourced(Exec(BEGIN, steps).log)
  {
    SafeRunKeepsSourced(BEGIN, steps);
  }

  // ---------- Overlapping Starts ----------

  /** Every run goroutine started so far has ended. */
  predicate AllExited(w: World) {
    forall c :: 0 <= c < |w.runners| ==> w.runners[c].Exited?
  }

  /** If the presence is live, has a source and is quiet, it has told what it would show. */
  predicate Converged(w: World) {
    Live(w) && w.p.hasSource && Quiet(w) ==> Equals(w.p.cached, w.p.lastNotified)
  }

  /** At most the latest run goroutine is there, and what it listens to is only closed by a Stop. */
  ghost predicate Solo(w: World) {
    var last := |w.runners| - 1;
    && LatestRuns(w)
    && (last in w.stopCloses ==> w.p.stopped)
    && (w.p.stopCh.Some? ==> w.p.stopCh.value == last)
  }

  /** What every reachable state tells about channels and contexts: none is of a Start to come. */
  ghost predicate Numbered(w: World) {
    StopInv(w) && forall c :: c in w.cancelled ==> 0 <= c < |w.runners|
  }

  lemma StepKeepsNumbered(w: World, step: Step)
    requires Numbered(w)
    ensures Numbered(Apply(w, step))
  {
    StepKeepsStops(w, step);
    hide StopInv, Equals;
  }

  lemma SoloStep(w: World, step: Step)
    requires Solo(w) && !step.Start?
    ensures Solo(Apply(w, step))
  {
    hide Equals;
    if !TouchesRunners(step) {
      OtherStepKeepsRunners(w, step);
    }
  }

  lemma SoloStart(w: World)
    requires Numbered(w) && AllExited(w)
    ensures Solo(Apply(w, Start)) && Settling(Apply(w, Start))
  {
    hide Equals;
  }

  lemma {:induction false} SoloRunSettles(w: World, steps: seq<Step>)
    requires Solo(w) && Settling(w) && NoStart(steps)
    ensures Settling(Exec(w, steps))
    decreases |steps|
  {
    hide Apply, Settling, LatestRuns;
    if steps != [] {
      StepKeepsSettling(w, steps[0]);
      SoloStep(w, steps[0]);
      hide Solo;
      SoloRunSettles(Apply(w, steps[0]), steps[1..]);
    }
  }

  lemma SettledIsConverged(w: World)
    requires Settling(w)
    ensures Converged(w)
  {
    hide Equals;
  }

  /** An Update that the end of an older run goroutine takes the timer from. */
  function Overlap(activity: Activity, cycle: nat): seq<Step> {
    [Update(activity), Cancel(cycle), Wake(cycle), Clear(cycle)]
  }

  lemma OlderRunnerWakes(w: World, cycle: nat)
    requires cycle < |w.runners| && !w.runners[cycle].Exited?
    ensures var w' := Apply(Apply(w, Cancel(cycle)), Wake(cycle));
            w' == w.(cancelled := w.cancelled + {cycle}, runners := w.runners[cycle := Woken])
  {
    var w1 := Apply(w, Cancel(cycle));
    assert w1 == w.(cancelled := w.cancelled + {cycle});
    if w.runners[cycle].Woken? {
      assert w.runners[cycle := Woken] == w.runners;
    }
  }

  lemma OlderRunnerTakesTimer(w: World, activity: Activity, cycle: nat)
    requires Numbered(w) && TimerInv(w, Replay(w.log).committedGen) && !Equals(activity, ZERO)
    requires cycle < |w.runners| && !w.runners[cycle].Exited?
    ensures !Converged(Exec(Apply(w, Start), Overlap(activity, cycle)))
  {
    hide Equals, Replay, StopInv;
    var w1 := Apply(w, Start);
    var w2 := Apply(w1, Update(activity));
    assert w2.p.armed == {w2.p.gen} && w2.p.timer == Some(w2.p.gen) && w2.p.gen !in w2.pending;
    OlderRunnerWakes(w2, cycle);
    var w3 := Apply(Apply(w2, Cancel(cycle)), Wake(cycle));
    var w4 := Apply(w3, Clear(cycle));
    assert w4.p.armed == {};
    assert Live(w4) && Quiet(w4);
    ExecFour(w1, Overlap(activity, cycle));
    hide Apply;
    assert Exec(w1, Overlap(activity, cycle)) == Exec(w4, []);
  }

  lemma {:induction false} RunKeepsNumbered(w: World, steps: seq<Step>)
    requires Numbered(w)
    ensures Numbered(Exec(w, steps))
    decreases |steps|
  {
    hide Numbered, Apply;
    if steps != [] {
      StepKeepsNumbered(w, steps[0]);
      RunKeepsNumbered(Apply(w, steps[0]), steps[1..]);
    }
  }

  /**
    After any run, the cycle of a Start converges, whatever happens in it, exactly when every earlier run
    goroutine has ended before that Start.
   */
  lemma StartConvergesExactly(before: seq<Step>)
    ensures var w := Exec(BEGIN, before);
            AllExited(w) <==> forall steps :: NoStart(steps) ==> Converged(Exec(Apply(w, Start), steps))
  {
    RunKeepsInv(BEGIN, before);
    RunKeepsNumbered(BEGIN, before);
    var w := Exec(BEGIN, before);
    hide Converged, NoStart, Exec, Numbered, Apply, LogInv, StopInv, TimerInv;
    if AllExited(w) {
      SoloStart(w);
      forall steps | NoStart(steps) ensures Converged(Exec(Apply(w, Start), steps)) {
        SoloRunSettles(Apply(w, Start), steps);
        SettledIsConverged(Exec(Apply(w, Start), steps));
      }
    } else {
      var cycle: nat :| cycle < |w.runners| && !w.runners[cycle].Exited?;
      var activity := ZERO.(kind := 1);
      NotZero(activity);
      OlderRunnerTakesTimer(w, activity, cycle);
      OverlapHasNoStart(activity, cycle);
    }
  }

  lemma NotZero(activity: Activity)
    requires activity.kind != ZERO.kind
    ensures !Equals(activity, ZERO)
  {
  }

  lemma OverlapHasNoStart(activity: Activity, cycle: nat)
    ensures NoStart(Overlap(activity, cycle))
  {
  }

  /** Every Start comes when no run goroutine is left. */
  predicate Serial(w: World, steps: seq<Step>)
    decreases |steps|
  {
    steps == [] || ((steps[0].Start? ==> AllExited(w)) && Serial(Apply(w, steps[0]), steps[1..]))
  }

  lemma {:induction false} SerialRunSettles(w: World, steps: seq<Step>)
    requires Numbered(w) && Solo(w) && Settling(w) && Serial(w, steps)
    ensures Settling(Exec(w, steps))
    decreases |steps|
  {
    hide Apply, Settling, LatestRuns, Numbered;
    if steps != [] {
      StepKeepsSettling(w, steps[0]);
      StepKeepsNumbered(w, steps[0]);
      if steps[0].Start? {
        SoloStart(w);
      } else {
        SoloStep(w, steps[0]);
      }
      hide Solo;
      SerialRunSettles(Apply(w, steps[0]), steps[1..]);
    }
  }

  /** Runs with only such Starts converge. */
  lemma SerialConvergence(steps: seq<Step>)
    requires Serial(BEGIN, steps)
    ensures Converged(Exec(BEGIN, steps))
  {
    SerialRunSettles(BEGIN, steps);
    SettledIsConverged(Exec(BEGIN, steps));
  }

  lemma {:induction false} DisciplinedRunIsSerial(w: World, steps: seq<Step>)
    requires StopInv(w) && RunnerInv(w) && Disciplined(w, steps)
    ensures Serial(w, steps)
    decreases |steps|
  {
    hide Apply, StopInv;
    if steps != [] {
      StepKeepsStops(w, steps[0]);
      StepKeepsRunners(w, steps[0]);
      DisciplinedRunIsSerial(Apply(w, steps[0]), steps[1..]);
    }
  }

  /** A Start after the returned Stop of the one before, as the comments ask for, is such a Start. */
  lemma DisciplinedIsSerial(steps: seq<Step>)
    requires Disciplined(BEGIN, steps)
    ensures Serial(BEGIN, steps)
  {
    DisciplinedRunIsSerial(BEGIN, steps);
  }

  // ---------- Stop returns ----------

  /** Who waits for a run goroutine has closed its stop channel. */
  ghost predicate WaitInv(w: World) {
    && StopInv(w)
    && (forall c :: c in w.waiting ==> c in w.stopCloses)
    && (w.p.stopCh.Some? ==> w.p.done == w.p.stopCh)
    && (w.p.done.Some? && w.p.stopCh.None? ==> w.p.done.value in w.stopCloses)
  }

  lemma StepKeepsWaits(w: World, step: Step)
    requires WaitInv(w)
    ensures WaitInv(Apply(w, step))
  {
    StepKeepsStops(w, step);
    hide StopInv, Equals;
    if !TouchesRunners(step) {
      OtherStepKeepsRunners(w, step);
    }
  }

  lemma {:induction false} RunKeepsWaits(w: World, steps: seq<Step>)
    requires WaitInv(w)
    ensures WaitInv(Exec(w, steps))
    decreases |steps|
  {
    hide WaitInv, Apply;
    if steps != [] {
      StepKeepsWaits(w, steps[0]);
      RunKeepsWaits(Apply(w, steps[0]), steps[1..]);
    }
  }

  /** A run goroutine whose stop channel is closed ends in at most two steps. */
  lemma ClosedRunnerEnds(w: World, cycle: nat)
    requires cycle in w.stopCloses && cycle < |w.runners|
    ensures var w' := Apply(Apply(w, Wake(cycle)), Clear(cycle));
            w'.waiting == w.waiting && cycle < |w'.runners| && w'.runners[cycle].Exited?
  {
    hide Equals;
    var w1 := Apply(w, Wake(cycle));
    assert w1 == w.(runners := w1.runners) && |w1.runners| == |w.runners| && !w1.runners[cycle].Waiting?;
  }

  lemma WaiterGoesOn(w: World, cycle: nat)
    requires WaitInv(w) && cycle in w.waiting
    ensures Exec(w, [Wake(cycle), Clear(cycle), StopReturn(cycle)]).waiting == w.waiting - multiset{cycle}
  {
    ClosedRunnerEnds(w, cycle);
    var w' := Apply(Apply(w, Wake(cycle)), Clear(cycle));
    assert Apply(w', StopReturn(cycle)).waiting == w.waiting - multiset{cycle};
    hide Apply;
    ExecThree(w, [Wake(cycle), Clear(cycle), StopReturn(cycle)]);
  }

  /**
    A Stop that waits is never stuck, overlapping Starts included: wherever the run goroutine is, at most
    two of its steps let that Stop return.
   */
  lemma StopReturns(steps: seq<Step>, cycle: nat)
    ensures var w := Exec(BEGIN, steps);
            cycle in w.waiting ==>
              Exec(w, [Wake(cycle), Clear(cycle), StopReturn(cycle)]).waiting == w.waiting - multiset{cycle}
  {
    RunKeepsWaits(BEGIN, steps);
    var w := Exec(BEGIN, steps);
    hide Exec, WaitInv;
    if cycle in w.waiting {
      WaiterGoesOn(w, cycle);
    }
  }
}
