/** Within one Start cycle, with timers firing on time: the debounce machine against a batch specification. */
module PresenceTimed {
  import opened Wrappers
  import opened Activities
  import opened PresenceRuns

  datatype Stamped = Stamped(at: int, activity: Activity)

  datatype TimedStep = TimedStep(at: int, step: Step)

  // ---------- The batch specification ----------

  /** Keeps an update exactly when no later one arrives before `interval` has passed. */
  function Kept(updates: seq<Stamped>, interval: int): seq<Stamped> {
    if updates == [] then []
    else if |updates| == 1 || updates[0].at + interval <= updates[1].at
    then [updates[0]] + Kept(updates[1..], interval)
    else Kept(updates[1..], interval)
  }

  /** Drops each one that equals the previously kept one. */
  function Changes(previous: Activity, kept: seq<Stamped>): seq<Stamped>
    decreases |kept|
  {
    if kept == [] then []
    else if Equals(kept[0].activity, previous) then Changes(kept[0].activity, kept[1..])
    else [kept[0]] + Changes(kept[0].activity, kept[1..])
  }

  /** Each one is told `interval` after it arrived. */
  function Delayed(updates: seq<Stamped>, interval: int): seq<Stamped> {
    seq(|updates|, i requires 0 <= i < |updates| => Stamped(updates[i].at + interval, updates[i].activity))
  }

  function Batch(updates: seq<Stamped>, interval: int): seq<Stamped> {
    Delayed(Changes(ZERO, Kept(updates, interval)), interval)
  }

  // ---------- The machine under a punctual timer ----------

  /** The armed timer, if there is one, fires at its deadline and its callback runs at once. */
  function FireSteps(w: World, deadline: int): seq<TimedStep> {
    if w.p.gen in w.p.armed then [TimedStep(deadline, Fire(w.p.gen)), TimedStep(deadline, Flush(w.p.gen))] else []
  }

  function ExecTimed(w: World, steps: seq<TimedStep>): World
    decreases |steps|
  {
    if steps == [] then w else ExecTimed(Apply(w, steps[0].step), steps[1..])
  }

  /** The interleaving of the updates with the timer: a deadline comes before an update of the same instant. */
  function Schedule(w: World, deadline: int, interval: int, updates: seq<Stamped>): seq<TimedStep>
    decreases |updates|
  {
    if updates == [] then FireSteps(w, deadline)
    else
      var u := updates[0];
      var fired := if deadline <= u.at then FireSteps(w, deadline) else [];
      var after := Apply(ExecTimed(w, fired), Update(u.activity));
      fired + ([TimedStep(u.at, Update(u.activity))] + Schedule(after, u.at + interval, interval, updates[1..]))
  }

  /** What a step commits, with the time. */
  function Emitted(w: World, step: TimedStep): seq<Stamped> {
    var log := Apply(w, step.step).log;
    if |log| > |w.log| && log[|log| - 1].Committed? then [Stamped(step.at, log[|log| - 1].activity)] else []
  }

  function Emissions(w: World, steps: seq<TimedStep>): seq<Stamped>
    decreases |steps|
  {
    if steps == [] then [] else Emitted(w, steps[0]) + Emissions(Apply(w, steps[0].step), steps[1..])
  }

  lemma {:induction false} EmissionsConcat(w: World, a: seq<TimedStep>, b: seq<TimedStep>)
    ensures ExecTimed(w, a + b) == ExecTimed(ExecTimed(w, a), b)
    ensures Emissions(w, a + b) == Emissions(w, a) + Emissions(ExecTimed(w, a), b)
    decreases |a|
  {
    if a == [] {
      assert a + b == b;
    } else {
      var w' := Apply(w, a[0].step);
      assert (a + b)[1..] == a[1..] + b;
      EmissionsConcat(w', a[1..], b);
      assert Emissions(w, a + b) == Emitted(w, a[0]) + Emissions(w', a[1..] + b);
    }
  }

  /** A running presence in which no callback is late: either idle, or with its one timer armed. */
  predicate Punctual(w: World) {
    && !w.p.stopped
    && w.pending == multiset{}
    && ((w.p.armed == {} && w.p.timer == None) || (w.p.armed == {w.p.gen} && w.p.timer == Some(w.p.gen)))
  }

  /** The update whose timer is armed, if any. */
  function Held(w: World, deadline: int, interval: int): seq<Stamped> {
    if w.p.armed == {} then [] else [Stamped(deadline - interval, w.p.cached)]
  }

  lemma FiringEmits(w: World, deadline: int)
    requires Punctual(w) && w.p.armed != {}
    ensures var w' := ExecTimed(w, FireSteps(w, deadline));
            && Punctual(w') && w'.p.armed == {}
            && Equals(w.p.cached, w'.p.lastNotified)
            && Emissions(w, FireSteps(w, deadline))
               == if Equals(w.p.cached, w.p.lastNotified) then [] else [Stamped(deadline, w.p.cached)]
  {
    var gen := w.p.gen;
    var w1 := Apply(w, Fire(gen));
    assert w1.pending == multiset{gen} && w1.p.armed == {};
    var w2 := Apply(w1, Flush(gen));
    assert w2.pending == multiset{};
    var steps := FireSteps(w, deadline);
    assert steps[1..][1..] == [];
    EqualsIsEquivalence(w.p.cached, w.p.cached, w.p.cached);
    assert ExecTimed(w, steps) == ExecTimed(w1, steps[1..]) == ExecTimed(w2, []);
    assert Emissions(w, steps) == Emissions(w1, steps[1..]);
  }

  lemma UpdateArms(w: World, u: Stamped)
    requires Punctual(w)
    ensures var w' := Apply(w, Update(u.activity));
            && Punctual(w') && w'.p.armed == {w'.p.gen}
            && w'.p.cached == u.activity && w'.p.lastNotified == w.p.lastNotified
            && Emitted(w, TimedStep(u.at, Update(u.activity))) == []
  {
    assert Apply(w, Update(u.activity)).p.armed == {w.p.gen + 1};
  }

  lemma EmissionsCons(w: World, step: TimedStep, rest: seq<TimedStep>)
    ensures Emissions(w, [step] + rest) == Emitted(w, step) + Emissions(Apply(w, step.step), rest)
  {
    assert ([step] + rest)[1..] == rest;
  }

  lemma DelayedConcat(a: seq<Stamped>, b: seq<Stamped>, interval: int)
    ensures Delayed(a + b, interval) == Delayed(a, interval) + Delayed(b, interval)
  {
  }

  /** Only the equality class of the previous activity matters. */
  lemma ChangesCongruent(p: Activity, q: Activity, kept: seq<Stamped>)
    requires Equals(p, q)
    ensures Changes(p, kept) == Changes(q, kept)
  {
    if kept != [] {
      EqualsIsEquivalence(kept[0].activity, p, q);
      EqualsIsEquivalence(p, q, p);
      EqualsIsEquivalence(kept[0].activity, q, p);
    }
  }

  /** What becomes of a held update when others follow. */
  lemma KeptHeld(held: Stamped, updates: seq<Stamped>, interval: int)
    ensures Kept([held] + updates, interval)
         == if updates == [] || held.at + interval <= updates[0].at
            then [held] + Kept(updates, interval)
            else Kept(updates, interval)
  {
    assert ([held] + updates)[1..] == updates;
  }

  lemma ChangesOfFirst(previous: Activity, first: Stamped, kept: seq<Stamped>)
    ensures Changes(previous, [first] + kept)
         == (if Equals(first.activity, previous) then [] else [first]) + Changes(first.activity, kept)
  {
    assert ([first] + kept)[1..] == kept;
  }

  /** What the firing of a held update tells is the head of what the specification expects. */
  lemma HeldIsFirstChange(first: Stamped, previous: Activity, last: Activity, kept: seq<Stamped>, interval: int)
    requires Equals(first.activity, last)
    ensures (if Equals(first.activity, previous) then [] else [Stamped(first.at + interval, first.activity)])
            + Delayed(Changes(last, kept), interval)
         == Delayed(Changes(previous, [first] + kept), interval)
  {
    ChangesCongruent(first.activity, last, kept);
    ChangesOfFirst(previous, first, kept);
    DelayedConcat([first], Changes(first.activity, kept), interval);
    hide Changes, Equals;
  }

  /** What a firing timer emits is what the batch specification makes of the held update. */
  lemma FiringIsFirstChange(w: World, deadline: int, interval: int, kept: seq<Stamped>)
    requires Punctual(w) && w.p.armed != {}
    ensures var w' := ExecTimed(w, FireSteps(w, deadline));
            && Punctual(w') && w'.p.armed == {}
            && Emissions(w, FireSteps(w, deadline)) + Delayed(Changes(w'.p.lastNotified, kept), interval)
               == Delayed(Changes(w.p.lastNotified, Held(w, deadline, interval) + kept), interval)
  {
    hide Apply, Emissions, ExecTimed, Equals, Changes, Delayed, Punctual;
    FiringEmits(w, deadline);
    var w' := ExecTimed(w, FireSteps(w, deadline));
    HeldIsFirstChange(Stamped(deadline - interval, w.p.cached), w.p.lastNotified, w'.p.lastNotified, kept, interval);
  }

  /** The steps of the timer before an update, if it is due. */
  function Due(w: World, deadline: int, u: Stamped): seq<TimedStep> {
    if deadline <= u.at then FireSteps(w, deadline) else []
  }

  lemma ScheduleCons(w: World, deadline: int, interval: int, updates: seq<Stamped>, w1: World)
    requires updates != [] && w1 == ExecTimed(w, Due(w, deadline, updates[0]))
    ensures var u := updates[0];
            Schedule(w, deadline, interval, updates)
            == Due(w, deadline, u)
               + ([TimedStep(u.at, Update(u.activity))]
                  + Schedule(Apply(w1, Update(u.activity)), u.at + interval, interval, updates[1..]))
  {
    hide Apply, FireSteps, ExecTimed;
  }

  lemma EmissionsAround(w: World, fired: seq<TimedStep>, w1: World, step: TimedStep, rest: seq<TimedStep>)
    requires w1 == ExecTimed(w, fired) && Emitted(w1, step) == []
    ensures Emissions(w, fired + ([step] + rest)) == Emissions(w, fired) + Emissions(Apply(w1, step.step), rest)
  {
    hide Apply, Emissions, Emitted, ExecTimed;
    EmissionsConcat(w, fired, [step] + rest);
    EmissionsCons(w1, step, rest);
    assert [] + Emissions(Apply(w1, step.step), rest) == Emissions(Apply(w1, step.step), rest);
  }

  /** A schedule first lets the timer fire if it is due, then takes the update, then goes on. */
  lemma ScheduleUnfolds(w: World, deadline: int, interval: int, updates: seq<Stamped>, w1: World)
    requires updates != [] && w1 == ExecTimed(w, Due(w, deadline, updates[0])) && Punctual(w1)
    ensures var u := updates[0];
            var w2 := Apply(w1, Update(u.activity));
            Emissions(w, Schedule(w, deadline, interval, updates))
            == Emissions(w, Due(w, deadline, u)) + Emissions(w2, Schedule(w2, u.at + interval, interval, updates[1..]))
  {
    hide Apply, Emissions, Emitted, Due, ExecTimed, Punctual, Schedule;
    var u := updates[0];
    var w2 := Apply(w1, Update(u.activity));
    UpdateArms(w1, u);
    ScheduleCons(w, deadline, interval, updates, w1);
    EmissionsAround(w, Due(w, deadline, u), w1, TimedStep(u.at, Update(u.activity)),
                    Schedule(w2, u.at + interval, interval, updates[1..]));
  }

  /** The specification's view of a state: the held update goes before the ones to come. */
  function Expected(w: World, deadline: int, interval: int, updates: seq<Stamped>): seq<Stamped> {
    Delayed(Changes(w.p.lastNotified, Kept(Held(w, deadline, interval) + updates, interval)), interval)
  }

  lemma ScheduleEnds(w: World, deadline: int, interval: int)
    requires Punctual(w)
    ensures Emissions(w, Schedule(w, deadline, interval, [])) == Expected(w, deadline, interval, [])
  {
    var held := Held(w, deadline, interval);
    assert held + [] == held;
    if w.p.armed != {} {
      KeptHeld(held[0], [], interval);
      FiringIsFirstChange(w, deadline, interval, []);
    }
  }

  /** Firing, if due, and taking an update keep the specification's view. */
  lemma ExpectedUnfolds(w: World, deadline: int, interval: int, updates: seq<Stamped>, w1: World)
    requires Punctual(w) && updates != [] && w1 == ExecTimed(w, Due(w, deadline, updates[0]))
    ensures Punctual(w1)
    ensures Expected(w, deadline, interval, updates)
         == Emissions(w, Due(w, deadline, updates[0]))
            + Delayed(Changes(w1.p.lastNotified, Kept(updates, interval)), interval)
  {
    var held := Held(w, deadline, interval);
    if w.p.armed == {} {
      assert held + updates == updates;
    } else {
      KeptHeld(held[0], updates, interval);
      if deadline <= updates[0].at {
        FiringIsFirstChange(w, deadline, interval, Kept(updates, interval));
      }
    }
  }

  lemma ExpectedAfterUpdate(w: World, interval: int, updates: seq<Stamped>)
    requires Punctual(w) && updates != []
    ensures var w' := Apply(w, Update(updates[0].activity));
            && Punctual(w')
            && Expected(w', updates[0].at + interval, interval, updates[1..])
               == Delayed(Changes(w.p.lastNotified, Kept(updates, interval)), interval)
  {
    UpdateArms(w, updates[0]);
    var w' := Apply(w, Update(updates[0].activity));
    assert Held(w', updates[0].at + interval, interval) + updates[1..] == updates;
  }

  lemma {:induction false} ScheduleEmits(w: World, deadline: int, interval: int, updates: seq<Stamped>)
    requires Punctual(w)
    ensures Emissions(w, Schedule(w, deadline, interval, updates)) == Expected(w, deadline, interval, updates)
    decreases |updates|
  {
    hide Expected, Emissions, Schedule;
    if updates == [] {
      ScheduleEnds(w, deadline, interval);
    } else {
      var u := updates[0];
      var w1 := ExecTimed(w, Due(w, deadline, u));
      ExpectedUnfolds(w, deadline, interval, updates, w1);
      ScheduleUnfolds(w, deadline, interval, updates, w1);
      ExpectedAfterUpdate(w1, interval, updates);
      ScheduleEmits(Apply(w1, Update(u.activity)), u.at + interval, interval, updates[1..]);
    }
  }

  /** No timer is armed and no callback is late. */
  predicate Idle(w: World) {
    w.pending == multiset{} && w.p.armed == {} && w.p.timer == None
  }

  /**
    Timed refinement: from any Start of an idle presence on, with timers firing on their deadlines, the
    machine tells its subscribers exactly what the batch specification keeps of the updates, and when.
   */
  lemma TimedRefinement(w0: World, interval: int, updates: seq<Stamped>)
    requires Idle(w0)
    ensures var w := Apply(w0, Start);
            Emissions(w, Schedule(w, 0, interval, updates)) == Batch(updates, interval)
  {
    var w := Apply(w0, Start);
    assert Punctual(w) && w.p.armed == {} && w.p.lastNotified == ZERO;
    hide Apply, Emissions, Schedule, Delayed, Changes, Kept;
    ScheduleEmits(w, 0, interval, updates);
    assert Held(w, 0, interval) + updates == updates;
  }

  /** Once the run goroutine of a stopped presence has ended, nothing is armed, unless its context was cancelled. */
  ghost predicate StopsTimers(w: World) {
    var last := |w.runners| - 1;
    last >= 0 && w.runners[last].Exited? && w.p.stopped && last !in w.cancelled ==> w.p.armed == {} && w.p.timer == None
  }

  lemma OthersKeepStopsTimers(w: World, step: Step)
    requires LatestRuns(w) && StopsTimers(w) && !step.Clear? && !step.Flush? && !step.Fire?
    ensures StopsTimers(Apply(w, step))
  {
    hide Equals;
  }

  lemma CallbacksKeepStopsTimers(w: World, step: Step)
    requires StopsTimers(w) && (step.Flush? || step.Fire?)
    ensures StopsTimers(Apply(w, step))
  {
    hide Equals;
  }

  lemma LatestOf(w: World)
    requires RunnerInv(w)
    ensures LatestRuns(w)
  {
  }

  lemma StepKeepsStopsTimers(w: World, step: Step)
    requires RunnerInv(w) && TimerInv(w, Replay(w.log).committedGen) && StopsTimers(w)
    ensures StopsTimers(Apply(w, step))
  {
    hide Replay, RunnerInv, LatestRuns, TimerInv, StopsTimers, Apply;
    LatestOf(w);
    if step.Clear? {
      ClearKeepsStopsTimers(w, step.cycle);
    } else if step.Flush? || step.Fire? {
      CallbacksKeepStopsTimers(w, step);
    } else {
      OthersKeepStopsTimers(w, step);
    }
  }

  lemma ClearKeepsStopsTimers(w: World, cycle: nat)
    requires RunnerInv(w) && TimerInv(w, Replay(w.log).committedGen) && StopsTimers(w)
    ensures StopsTimers(Apply(w, Clear(cycle)))
  {
    hide Replay;
    if cycle < |w.runners| && w.runners[cycle].Woken? {
      assert Apply(w, Clear(cycle)).p.armed == {};
    }
  }

  lemma {:induction false} RunKeepsStopsTimers(w: World, steps: seq<Step>)
    requires ConvergenceInv(w) && StopsTimers(w) && Disciplined(w, steps)
    ensures ConvergenceInv(Exec(w, steps)) && StopsTimers(Exec(w, steps))
    decreases |steps|
  {
    hide Apply, StopsTimers;
    if steps != [] {
      StepKeepsStopsTimers(w, steps[0]);
      StepKeepsConvergence(w, steps[0]);
      hide ConvergenceInv;
      RunKeepsStopsTimers(Apply(w, steps[0]), steps[1..]);
    }
  }

  /**
    After a Stop has returned, with no context cancelled before it and no late callback, the presence is
    idle, so the next cycle refines the batch specification.
   */
  lemma ReturnedStopIsIdle(steps: seq<Step>)
    requires Disciplined(BEGIN, steps)
    ensures var w := Exec(BEGIN, steps);
            w.restartable && w.runners != [] && |w.runners| - 1 !in w.cancelled && w.pending == multiset{} ==> Idle(w)
  {
    RunKeepsStopsTimers(BEGIN, steps);
  }

  /** The schedule is one of the interleavings of PresenceRuns, so what holds of those holds of it. */
  lemma {:induction false} TimedIsInterleaving(w: World, steps: seq<TimedStep>)
    ensures ExecTimed(w, steps) == Exec(w, seq(|steps|, i requires 0 <= i < |steps| => steps[i].step))
    decreases |steps|
  {
    var plain := seq(|steps|, i requires 0 <= i < |steps| => steps[i].step);
    if steps != [] {
      var rest := steps[1..];
      assert plain[1..] == seq(|rest|, i requires 0 <= i < |rest| => rest[i].step);
      TimedIsInterleaving(Apply(w, steps[0].step), rest);
    }
  }

  predicate Chronological(steps: seq<TimedStep>, from: int) {
    steps == [] || (from <= steps[0].at && Chronological(steps[1..], steps[0].at))
  }

  predicate Sorted(updates: seq<Stamped>, from: int) {
    updates == [] || (from <= updates[0].at && Sorted(updates[1..], updates[0].at))
  }

  lemma {:induction false} ChronologicalConcat(a: seq<TimedStep>, b: seq<TimedStep>, from: int, mid: int)
    requires Chronological(a, from) && Chronological(b, mid)
    requires if a == [] then from <= mid else a[|a| - 1].at <= mid
    ensures Chronological(a + b, from)
    decreases |a|
  {
    if a == [] {
      assert a + b == b;
    } else {
      assert (a + b)[1..] == a[1..] + b;
      ChronologicalConcat(a[1..], b, a[0].at, mid);
    }
  }

  lemma FireStepsChronological(w: World, from: int, deadline: int)
    requires from <= deadline
    ensures Chronological(FireSteps(w, deadline), from)
    ensures FireSteps(w, deadline) != [] ==> FireSteps(w, deadline)[|FireSteps(w, deadline)| - 1].at == deadline
  {
    var fire := FireSteps(w, deadline);
    if fire != [] {
      assert fire[1..][1..] == [];
      assert Chronological(fire[1..], deadline);
    }
  }

  lemma ChronologicalCons(step: TimedStep, rest: seq<TimedStep>, from: int)
    requires from <= step.at && Chronological(rest, step.at)
    ensures Chronological([step] + rest, from)
  {
    assert ([step] + rest)[1..] == rest;
  }

  /** On updates in order of time, the steps of the schedule are in order of time. */
  lemma {:induction false} ScheduleIsChronological(
    w: World, from: int, deadline: int, interval: int, updates: seq<Stamped>)
    requires interval > 0 && from <= deadline && Sorted(updates, from)
    ensures Chronological(Schedule(w, deadline, interval, updates), from)
    decreases |updates|
  {
    hide Apply, ExecTimed, FireSteps, Chronological;
    FireStepsChronological(w, from, deadline);
    if updates != [] {
      var u := updates[0];
      var fired := if deadline <= u.at then FireSteps(w, deadline) else [];
      var step := TimedStep(u.at, Update(u.activity));
      var after := Apply(ExecTimed(w, fired), step.step);
      var rest := Schedule(after, u.at + interval, interval, updates[1..]);
      ScheduleIsChronological(after, u.at, u.at + interval, interval, updates[1..]);
      ChronologicalCons(step, rest, u.at);
      NothingIsChronological(from);
      ChronologicalConcat(fired, [step] + rest, from, u.at);
    }
  }

  lemma NothingIsChronological(from: int)
    ensures Chronological([], from)
  {
  }

  // ---------- The fixed window of the design ----------

  /**
    The design's coalescer: the first update opens a window of the interval's length, and the latest one
    in it is told when it closes. `open` is when the window of the first of these updates opened.
   */
  function Windowed(open: int, updates: seq<Stamped>, interval: int): seq<Stamped>
    decreases |updates|
  {
    if updates == [] then []
    else if |updates| == 1 then [Stamped(open + interval, updates[0].activity)]
    else if updates[1].at >= open + interval
    then [Stamped(open + interval, updates[0].activity)] + Windowed(updates[1].at, updates[1..], interval)
    else Windowed(open, updates[1..], interval)
  }

  /** Any two updates in a row come at the same instant or at least an interval apart. */
  predicate Spaced(updates: seq<Stamped>, interval: int) {
    forall i :: 0 <= i < |updates| - 1 ==>
      updates[i + 1].at == updates[i].at || updates[i].at + interval <= updates[i + 1].at
  }

  lemma SpacedTail(updates: seq<Stamped>, interval: int)
    requires |updates| > 1
    ensures Spaced(updates, interval) <==>
            && Spaced(updates[1..], interval)
            && (updates[1].at == updates[0].at || updates[0].at + interval <= updates[1].at)
  {
    if Spaced(updates[1..], interval) && (updates[1].at == updates[0].at || updates[0].at + interval <= updates[1].at) {
      forall i | 0 <= i < |updates| - 1
        ensures updates[i + 1].at == updates[i].at || updates[i].at + interval <= updates[i + 1].at
      {
        if i > 0 {
          assert updates[1..][i - 1] == updates[i] && updates[1..][i] == updates[i + 1];
        }
      }
    }
    if Spaced(updates, interval) {
      assert forall i :: 0 <= i < |updates[1..]| ==> updates[1..][i] == updates[i + 1];
    }
  }

  /** When the first of what each of the two tells is told. */
  lemma {:induction false} FirstTold(open: int, updates: seq<Stamped>, interval: int)
    requires interval > 0 && updates != [] && open <= updates[0].at && Sorted(updates, updates[0].at)
    ensures Windowed(open, updates, interval) != [] && Windowed(open, updates, interval)[0].at == open + interval
    ensures Kept(updates, interval) != [] && Kept(updates, interval)[0].at >= updates[0].at
    decreases |updates|
  {
    if |updates| > 1 {
      FirstTold(open, updates[1..], interval);
    }
  }

  lemma {:induction false} WindowsAgreeExactly(open: int, updates: seq<Stamped>, interval: int)
    requires interval > 0 && updates != [] && open <= updates[0].at && Sorted(updates, updates[0].at)
    ensures Windowed(open, updates, interval) == Delayed(Kept(updates, interval), interval) <==>
            open == updates[0].at && Spaced(updates, interval)
    decreases |updates|
  {
    FirstTold(open, updates, interval);
    if open == updates[0].at && |updates| > 1 {
      var rest := updates[1..];
      SpacedTail(updates, interval);
      hide Spaced;
      if updates[1].at >= open + interval {
        WindowsAgreeExactly(updates[1].at, rest, interval);
        DelayedConcat([updates[0]], Kept(rest, interval), interval);
        var first := Stamped(open + interval, updates[0].activity);
        assert Delayed([updates[0]], interval) == [first];
        SameFirst(first, Windowed(updates[1].at, rest, interval), Delayed(Kept(rest, interval), interval));
      } else {
        WindowsAgreeExactly(open, rest, interval);
      }
    }
  }

  lemma SameFirst(first: Stamped, a: seq<Stamped>, b: seq<Stamped>)
    ensures [first] + a == [first] + b <==> a == b
  {
    assert ([first] + a)[1..] == a && ([first] + b)[1..] == b;
  }

  /**
    Before the diff, the debounce keeps the same updates for the same times as the fixed window exactly
    when no two updates in a row are less than an interval, and more than nothing, apart.
   */
  lemma KeptIsWindowExactly(updates: seq<Stamped>, interval: int)
    requires interval > 0 && updates != [] && Sorted(updates, updates[0].at)
    ensures Windowed(updates[0].at, updates, interval) == Delayed(Kept(updates, interval), interval) <==>
            Spaced(updates, interval)
  {
    WindowsAgreeExactly(updates[0].at, updates, interval);
  }

  predicate SameTimes(a: seq<Stamped>, b: seq<Stamped>) {
    |a| == |b| && forall i :: 0 <= i < |a| ==> a[i].at == b[i].at
  }

  /** The diff does not look at times. */
  lemma {:induction false} ChangesDelayed(previous: Activity, kept: seq<Stamped>, interval: int)
    ensures Changes(previous, Delayed(kept, interval)) == Delayed(Changes(previous, kept), interval)
    decreases |kept|
  {
    hide Equals;
    if kept != [] {
      var rest := kept[1..];
      assert Delayed(kept, interval)[1..] == Delayed(rest, interval);
      ChangesDelayed(kept[0].activity, rest, interval);
      DelayedConcat([kept[0]], Changes(kept[0].activity, rest), interval);
      assert Delayed([kept[0]], interval) == [Delayed(kept, interval)[0]];
    }
  }

  /** Activities of ever higher kinds, so that the diff drops none of them. */
  predicate Rising(updates: seq<Stamped>, above: int) {
    && (forall i :: 0 <= i < |updates| ==> updates[i].activity.kind > above)
    && (forall i, j :: 0 <= i < j < |updates| ==> updates[i].activity.kind < updates[j].activity.kind)
  }

  lemma RisingTail(updates: seq<Stamped>, above: int)
    requires updates != [] && Rising(updates, above)
    ensures Rising(updates[1..], updates[0].activity.kind) && Rising(updates[1..], above)
  {
  }

  lemma RisingCons(first: Stamped, rest: seq<Stamped>, above: int)
    requires first.activity.kind > above && Rising(rest, first.activity.kind)
    ensures Rising([first] + rest, above)
  {
  }

  lemma {:induction false} RisingIsKept(previous: Activity, updates: seq<Stamped>)
    requires Rising(updates, previous.kind)
    ensures Changes(previous, updates) == updates
    decreases |updates|
  {
    if updates != [] {
      RisingTail(updates, previous.kind);
      RisingIsKept(updates[0].activity, updates[1..]);
      assert !Equals(updates[0].activity, previous);
    }
  }

  lemma {:induction false} KeptRises(updates: seq<Stamped>, interval: int, above: int)
    requires Rising(updates, above)
    ensures Rising(Kept(updates, interval), above)
    decreases |updates|
  {
    hide Rising;
    if updates != [] {
      RisingTail(updates, above);
      RisingFirst(updates, above);
      KeptRises(updates[1..], interval, updates[0].activity.kind);
      KeptRises(updates[1..], interval, above);
      RisingCons(updates[0], Kept(updates[1..], interval), above);
    } else {
      NothingRises(above);
    }
  }

  lemma RisingFirst(updates: seq<Stamped>, above: int)
    requires updates != [] && Rising(updates, above)
    ensures updates[0].activity.kind > above
  {
  }

  lemma NothingRises(above: int)
    ensures Rising([], above)
  {
  }

  lemma {:induction false} WindowedRises(open: int, updates: seq<Stamped>, interval: int, above: int)
    requires Rising(updates, above)
    ensures Rising(Windowed(open, updates, interval), above)
    decreases |updates|
  {
    hide Rising;
    NothingRises(above);
    if updates != [] {
      RisingTail(updates, above);
      RisingFirst(updates, above);
      var first := Stamped(open + interval, updates[0].activity);
      NothingRises(first.activity.kind);
      RisingCons(first, [], above);
      assert [first] + [] == [first];
      if |updates| > 1 {
        WindowedRises(updates[1].at, updates[1..], interval, first.activity.kind);
        WindowedRises(open, updates[1..], interval, above);
        RisingCons(first, Windowed(updates[1].at, updates[1..], interval), above);
      }
    }
  }

  /** The same times with activities that all differ. */
  function Relabelled(updates: seq<Stamped>): (us: seq<Stamped>)
    ensures SameTimes(us, updates) && Rising(us, ZERO.kind)
  {
    seq(|updates|, i requires 0 <= i < |updates| => Stamped(updates[i].at, ZERO.(kind := ZERO.kind + 1 + i)))
  }

  /** On activities that all differ, equal telling is equal keeping. */
  lemma RisingTellsWhatIsKept(us: seq<Stamped>, interval: int)
    requires us != [] && Rising(us, ZERO.kind)
    ensures Batch(us, interval) == Delayed(Kept(us, interval), interval)
    ensures Changes(ZERO, Windowed(us[0].at, us, interval)) == Windowed(us[0].at, us, interval)
  {
    KeptRises(us, interval, ZERO.kind);
    RisingIsKept(ZERO, Kept(us, interval));
    WindowedRises(us[0].at, us, interval, ZERO.kind);
    RisingIsKept(ZERO, Windowed(us[0].at, us, interval));
  }

  lemma {:induction false} SortedByTimes(us: seq<Stamped>, updates: seq<Stamped>, from: int)
    requires SameTimes(us, updates) && Sorted(updates, from)
    ensures Sorted(us, from)
    decreases |us|
  {
    if us != [] {
      SortedByTimes(us[1..], updates[1..], updates[0].at);
    }
  }

  /**
    What subscribers are told, after the diff: on updates at given times the code's debounce tells the
    same as the design's fixed window, whatever the activities are, if and only if no two of the times in
    a row are less than an interval, and more than nothing, apart.
   */
  lemma DebounceIsWindowExactly(updates: seq<Stamped>, interval: int)
    requires interval > 0 && updates != [] && Sorted(updates, updates[0].at)
    ensures Spaced(updates, interval) <==>
            forall us: seq<Stamped> :: SameTimes(us, updates) ==>
              Batch(us, interval) == Changes(ZERO, Windowed(us[0].at, us, interval))
  {
    hide Kept, Windowed, Changes, Delayed, Sorted, Rising;
    if Spaced(updates, interval) {
      forall us: seq<Stamped> | SameTimes(us, updates)
        ensures Batch(us, interval) == Changes(ZERO, Windowed(us[0].at, us, interval))
      {
        SortedByTimes(us, updates, updates[0].at);
        assert Spaced(us, interval);
        KeptIsWindowExactly(us, interval);
        ChangesDelayed(ZERO, Kept(us, interval), interval);
      }
    } else {
      var us := Relabelled(updates);
      hide Relabelled;
      SortedByTimes(us, updates, updates[0].at);
      assert !Spaced(us, interval);
      RisingTellsWhatIsKept(us, interval);
      KeptIsWindowExactly(us, interval);
    }
  }

  /** A stream whose updates keep coming within the interval is told only once, when it ends. */
  lemma {:induction false} SteadyStreamIsToldOnce(updates: seq<Stamped>, interval: int)
    requires updates != []
    requires forall i :: 0 <= i < |updates| - 1 ==> updates[i + 1].at < updates[i].at + interval
    ensures Kept(updates, interval) == [updates[|updates| - 1]]
    decreases |updates|
  {
    if |updates| > 1 {
      assert forall i :: 0 <= i < |updates[1..]| ==> updates[1..][i] == updates[i + 1];
      SteadyStreamIsToldOnce(updates[1..], interval);
    }
  }
}
