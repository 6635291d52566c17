/** Where the loop of RunWithReconnect gets to: a new session, a recovery, and its return. */
module IpcFlow {
  import opened Wrappers
  import opened IpcSessions
  import opened Reconnects
  import opened IpcRuns
  import opened IpcCheckers
  import opened IpcService

  function Advanced(w: World): World {
    Apply(w, AtSup(SupAction.Advance))
  }

  // ---------- A new session ----------

  lemma DialedSessionIsAnnounced(w: World)
    requires w.sup.pc.Dialing?
    ensures var (w1, session) := (Apply(w, AtSup(Dial(true))), |w.channels|);
            var w' := Advanced(w1);
            && w'.sup.pc.Top? && w'.sup.attempt == 0 && w'.client.state.Connected?
            && w'.client.ipcConn == w'.client.events == Some(session) && |w'.channels| == session + 1
            && w'.runs == w.runs && w'.checkers == w.checkers
  {
    var w1 := Apply(w, AtSup(Dial(true)));
    assert w1.sup.pc.Announcing? && w1.runs == w.runs && w1.checkers == w.checkers;
  }

  lemma ConnectedSessionGetsChecker(w: World)
    requires w.sup.pc.Top? && w.client.state.Connected?
    ensures var w3 := Advanced(Advanced(Advanced(w)));
            && w3.sup.pc.Launching? && w3.sup.hc == Some(|w.checkers|)
            && w3.client == w.client.(healthCheck := w3.sup.hc)
            && |w3.checkers| == |w.checkers| + 1
            && w3.checkers[|w.checkers|] == Checker(w.client.ipcConn, Idle, Manager(true, true, 0, 0, Some(0)))
            && w3.runs == w.runs && w3.channels == w.channels
  {
    var w1 := Advanced(w);
    assert w1.sup.pc.Attaching? && w1.sup.hc == Some(|w.checkers|) && w1.client == w.client;
    assert w1.checkers == w.checkers + [Checker(None, Dormant, UNSTARTED)];
    var w2 := Advanced(w1);
    assert w2.sup == w1.sup.(pc := Starting) && w2.checkers == w1.checkers;
    assert w2.client == w.client.(healthCheck := w1.sup.hc);
  }

  lemma LaunchedSessionRuns(w: World)
    requires w.sup.pc.Launching?
    ensures var w' := Advanced(w);
            && w'.sup == w.sup.(pc := Waiting) && w'.runs == w.runs + [Spawned]
            && w'.client == w.client && w'.checkers == w.checkers && w'.channels == w.channels
  {
  }

  /**
    A Connect that succeeds during an outage: the next round serves the new session, with a fresh events
    channel, a new Run, and a checker of its own that has been started for it and gets its pongs.
   */
  lemma DialedSessionIsServed(w: World)
    requires w.sup.pc.Dialing?
    ensures var session := |w.channels|;
            var w2 := Advanced(Apply(w, AtSup(Dial(true))));
            var w' := Advanced(Advanced(Advanced(Advanced(w2))));
            && w'.sup.pc.Waiting? && w'.sup.attempt == 0
            && w'.client.state.Connected? && w'.client.ipcConn == w'.client.events == Some(session)
            && w'.runs == w.runs + [Spawned]
            && |w'.checkers| == |w.checkers| + 1 && w'.client.healthCheck == w'.sup.hc == Some(|w.checkers|)
            && w'.checkers[|w.checkers|] == Checker(Some(session), Idle, Manager(true, true, 0, 0, Some(0)))
  {
    DialedSessionIsAnnounced(w);
    var w2 := Advanced(Apply(w, AtSup(Dial(true))));
    ConnectedSessionGetsChecker(w2);
    AdvancingKeepsAttempt(w2);
    hide Advanced;
    LaunchedSessionRuns(Advanced(Advanced(Advanced(w2))));
  }

  lemma AdvancingKeepsAttempt(w: World)
    requires w.sup.pc.Top? && w.client.state.Connected?
    ensures Advanced(Advanced(Advanced(w))).sup.attempt == w.sup.attempt
  {
    var w1 := Advanced(w);
    assert w1.sup.pc.Attaching? && w1.sup.attempt == w.sup.attempt;
    var w2 := Advanced(w1);
    assert w2.sup == w1.sup.(pc := Starting);
  }

  /** A Run that has been spawned captures the client's connection and channel. */
  lemma SpawnedRunReads(w: World, r: nat)
    requires r < |w.runs| && w.runs[r].Spawned? && w.client.ipcConn.Some?
    ensures var w' := Apply(Apply(w, AtRun(r, Proceed)), AtRun(r, Proceed));
            |w'.runs| == |w.runs| && w'.runs[r] == Reading(w.client.ipcConn.value, w.client.events)
  {
    hide RoomIn, SendsOnClosed, OnChannel, Ponged;
    var w1 := Apply(w, AtRun(r, Proceed));
    assert w1.runs[r] == HasConn(w.client.ipcConn.value) && w1.client == w.client && |w1.runs| == |w.runs|;
  }

  /** While an attempt waits or dials, the client says so. */
  lemma OutageShowsState(w: World, jitter: real)
    requires w.sup.pc.Trying? && w.sup.attempt < 50 && 0.0 <= jitter <= 1.0
    ensures var w1 := Apply(w, AtSup(StartWait(jitter)));
            var w2 := Advanced(w1);
            && w1.sup.pc.Sleeping? && w1.client.state.Reconnecting?
            && w2.sup.pc.Dialing? && w2.client.state.Connecting?
            && Apply(w2, AtSup(Dial(false))).client.state.Disconnected?
            && Apply(w2, AtSup(Dial(false))).sup.attempt == w.sup.attempt + 1
  {
    hide Interval;
  }

  /** A cancellation seen while the Run is on closes the client's connection, which unblocks the Run's read. */
  lemma CancelClosesConnection(w: World)
    requires w.sup.pc.Waiting? && w.cancelled && w.client.ipcConn.Some?
    ensures var w' := Advanced(Apply(w, AtSup(SeeCancel)));
            && w'.client == w.client.(state := Disconnected)
            && w'.sup.pc == (if w.sup.hc.Some? then StoppingHc else CheckingCtx)
            && w'.runs == w.runs && w'.channels == w.channels && w'.checkers == w.checkers
  {
    hide HcStopping, LastRunFinished;
  }

  // ---------- Ways that take no step of a Run ----------

  predicate OwnSteps(steps: seq<Step>) {
    forall step :: step in steps ==> step.AtSup? || step.AtChecker?
  }

  lemma {:induction false} StepsOfAreOwn(k: nat, actions: seq<CheckerAction>)
    ensures OwnSteps(StepsOf(k, actions))
  {
    if actions != [] {
      StepsOfAreOwn(k, actions[1..]);
    }
  }

  /** What such steps leave alone. */
  predicate Kept(w: World, w': World) {
    w'.cancelled == w.cancelled && w'.sup.cfg == w.sup.cfg
  }

  lemma OwnStepKeeps(w: World, step: Step)
    requires step.AtSup? || step.AtChecker?
    ensures Kept(w, Apply(w, step))
  {
    StepKeepsConfig(w, step);
    if step.AtSup? {
      SupKeepsCancelled(w, step.supAction);
      hide SupStep;
    }
    hide CheckerLocal, ConnClosed;
  }

  lemma SupKeepsCancelled(w: World, action: SupAction)
    ensures SupStep(w, action).cancelled == w.cancelled
  {
    hide Interval;
  }

  lemma {:induction false} OwnRunKeeps(w: World, steps: seq<Step>)
    requires OwnSteps(steps)
    ensures Kept(w, Exec(w, steps))
    decreases |steps|
  {
    hide Apply;
    if steps != [] {
      OwnStepKeeps(w, steps[0]);
      OwnRunKeeps(Apply(w, steps[0]), steps[1..]);
    }
  }

  /** The waiting Stop's way out, and what of the session it leaves. */
  lemma JoiningEnds(w: World) returns (steps: seq<Step>)
    requires CheckersInv(w) && w.sup.pc.Joining?
    ensures OwnSteps(steps) && Exec(w, steps).sup.pc.Detaching? && CheckersInv(Exec(w, steps))
    ensures Kept(w, Exec(w, steps)) && |Exec(w, steps).channels| == |w.channels|
    ensures Exec(w, steps).sup.attempt == w.sup.attempt
  {
    HcIsThere(w);
    var k := w.sup.hc.value;
    var way := WayOut(w.checkers[k].pc);
    steps := StepsOf(k, way);
    JoiningGoesOn(w, k);
    StepsOfAreOwn(k, way);
    OwnRunKeeps(w, steps);
    ExecKeepsCheckers(w, steps);
    hide Exec, CheckersInv, WayOut;
    JoiningKeepsSession(w, k, way);
  }

  lemma {:induction false} JoiningKeepsSession(w: World, k: nat, actions: seq<CheckerAction>)
    requires w.sup.pc.Joining?
    ensures var w' := Exec(w, StepsOf(k, actions)); |w'.channels| == |w.channels| && w'.sup.attempt == w.sup.attempt
    decreases |actions|
  {
    if actions == [] {
      ExecOne(w, AtSup(SupAction.Advance));
    } else {
      ExecTwo(w, AtChecker(k, actions[0]), StepsOf(k, actions[1..]));
      CheckerStepLeaves(w, k, actions[0]);
      hide Exec, Apply;
      JoiningKeepsSession(Apply(w, AtChecker(k, actions[0])), k, actions[1..]);
    }
  }

  lemma CheckerStepLeaves(w: World, k: nat, action: CheckerAction)
    ensures var w' := Apply(w, AtChecker(k, action)); w'.sup == w.sup && w'.channels == w.channels
  {
    hide CheckerLocal;
  }

  // ---------- Cancellation ----------

  /** What a cancelled loop does next, and how far it is from its return. */
  function ReturnStep(s: Supervisor): SupAction {
    match s.pc
    case Waiting => SeeCancel
    case Sleeping => SeeCancel
    case Dialing => Dial(false)
    case Trying => if s.attempt >= 50 then SupAction.Advance else StartWait(0.0)
    case _ => SupAction.Advance
  }

  function Distance(pc: SupPc): nat {
    match pc
    case Announcing => 12
    case Top => 11
    case Attaching => 10
    case Starting => 9
    case Launching => 8
    case Waiting => 7
    case ClosingConn => 6
    case StoppingHc => 5
    case Joining => 4
    case Detaching => 3
    case CheckingCtx => 2
    case Dialing => 3
    case Trying => 2
    case Sleeping => 1
    case Returned => 0
  }

  lemma BeforeDescends(w: World)
    requires IsFresh(w.sup.pc) && !w.sup.pc.Announcing?
    ensures Distance(SupBefore(w).sup.pc) < Distance(w.sup.pc)
  {
  }

  lemma AfterDescends(w: World)
    requires w.cancelled && (w.sup.pc.ClosingConn? || IsAfterRun(w.sup.pc)) && !w.sup.pc.Joining?
    requires w.sup.pc.StoppingHc? ==> w.sup.hc.Some? && w.sup.hc.value < |w.checkers|
    ensures Distance(SupAfter(w).sup.pc) < Distance(w.sup.pc)
  {
  }

  lemma ReturnStepDescends(w: World)
    requires CheckersInv(w) && w.cancelled && !w.sup.pc.Returned? && !w.sup.pc.Joining?
    ensures Distance(Apply(w, AtSup(ReturnStep(w.sup))).sup.pc) < Distance(w.sup.pc)
  {
    hide CheckersInv, CheckerOk, Interval, SupBefore, SupAfter;
    HcIsThere(w);
    if IsFresh(w.sup.pc) && !w.sup.pc.Announcing? {
      BeforeDescends(w);
    }
    if w.sup.pc.ClosingConn? || IsAfterRun(w.sup.pc) {
      AfterDescends(w);
    }
  }

  /**
    A cancelled loop returns wherever it is, by steps of its own and of its checker alone: it waits neither
    for a Run that is stuck in a read nor for a dial to succeed.
   */
  lemma {:induction false} CancelledLoopReturns(w: World) returns (steps: seq<Step>)
    requires CheckersInv(w) && w.cancelled
    ensures OwnSteps(steps) && Exec(w, steps).sup.pc.Returned?
    decreases Distance(w.sup.pc)
  {
    if w.sup.pc.Returned? {
      steps := [];
    } else if w.sup.pc.Joining? {
      var way := JoiningEnds(w);
      hide Exec, CheckersInv, OwnSteps;
      var rest := CancelledLoopReturns(Exec(w, way));
      ExecConcat(w, way, rest);
      OwnConcat(way, rest);
      steps := way + rest;
    } else {
      var step := AtSup(ReturnStep(w.sup));
      ReturnStepDescends(w);
      StepKeepsCheckers(w, step);
      OwnStepKeeps(w, step);
      OwnOne(step);
      hide Exec, Apply, CheckersInv, OwnSteps;
      var rest := CancelledLoopReturns(Apply(w, step));
      ExecConcat(w, [step], rest);
      ExecOne(w, step);
      OwnConcat([step], rest);
      steps := [step] + rest;
    }
  }

  lemma OwnConcat(a: seq<Step>, b: seq<Step>)
    requires OwnSteps(a) && OwnSteps(b)
    ensures OwnSteps(a + b)
  {
  }

  lemma OwnOne(step: Step)
    requires step.AtSup? || step.AtChecker?
    ensures OwnSteps([step])
  {
  }

  /** After any run, a cancellation can be followed by such steps to the loop's return. */
  lemma CancellationReturns(online: bool, cfg: Config, before: seq<Step>)
    ensures var w := Apply(Exec(Begin(online, cfg), before), Cancel);
            exists steps :: OwnSteps(steps) && Exec(w, steps).sup.pc.Returned?
  {
    assert CheckersInv(Begin(online, cfg));
    ExecKeepsCheckers(Begin(online, cfg), before);
    var w := Exec(Begin(online, cfg), before);
    StepKeepsCheckers(w, Cancel);
    assert Apply(w, Cancel).cancelled;
    hide Apply, Exec, Begin, OwnSteps, CheckersInv;
    var steps := CancelledLoopReturns(Apply(w, Cancel));
  }

  // ---------- Recovery ----------

  /** The loop has not entered an outage. */
  predicate NoOutage(pc: SupPc) {
    !IsReconnecting(pc) && !pc.Announcing?
  }

  /** The loop outside outages, without auto-reconnect. */
  predicate StaysOut(w: World, w': World) {
    NoOutage(w'.sup.pc) && !w'.sup.cfg.autoReconnect && |w'.channels| == |w.channels|
  }

  lemma BeforeStaysOut(w: World)
    requires NoOutage(w.sup.pc) && !w.sup.cfg.autoReconnect
    ensures StaysOut(w, SupBefore(w))
  {
  }

  lemma AfterStaysOut(w: World)
    requires NoOutage(w.sup.pc) && !w.sup.cfg.autoReconnect
    ensures StaysOut(w, SupAfter(w))
  {
    hide HcStopping;
    StoppingStaysOut(w);
  }

  lemma StoppingStaysOut(w: World)
    requires NoOutage(w.sup.pc) && !w.sup.cfg.autoReconnect
    ensures StaysOut(w, HcStopping(w))
  {
  }

  lemma SupWithoutReconnect(w: World, action: SupAction)
    requires NoOutage(w.sup.pc) && !w.sup.cfg.autoReconnect
    ensures StaysOut(w, SupStep(w, action))
  {
    hide SupBefore, SupAfter, SupReconnecting, Interval;
    BeforeStaysOut(w);
    AfterStaysOut(w);
  }

  lemma RunLeavesSup(w: World, r: nat, action: RunAction)
    requires r < |w.runs|
    ensures var w' := RunStep(w, r, action); w'.sup == w.sup && |w'.channels| == |w.channels|
  {
    hide RunLocal, OnChannel, Ponged, ClientAfter, RoomIn, SendsOnClosed;
    ChannelsStay(w.channels,
                 RunLocal(w.runs[r], action, w.client, RoomIn(w.channels, Captured(w.runs[r])), w.cancelled).1, r);
  }

  lemma ChannelsStay(channels: seq<Channel>, e: Effect, r: nat)
    ensures |OnChannel(channels, e, r)| == |channels|
  {
  }

  lemma StepWithoutReconnect(w: World, step: Step)
    requires NoOutage(w.sup.pc) && !w.sup.cfg.autoReconnect
    ensures StaysOut(w, Apply(w, step))
  {
    hide SupStep, RunStep, CheckerLocal;
    match step {
      case AtSup(action) => SupWithoutReconnect(w, action);
      case AtRun(r, action) => if r < |w.runs| { RunLeavesSup(w, r, action); }
      case _ =>
    }
  }

  /** Without auto-reconnect no further session is ever dialled. */
  lemma {:induction false} NeverReconnects(w: World, steps: seq<Step>)
    requires NoOutage(w.sup.pc) && !w.sup.cfg.autoReconnect
    ensures |Exec(w, steps).channels| == |w.channels|
    decreases |steps|
  {
    hide Apply;
    if steps != [] {
      StepWithoutReconnect(w, steps[0]);
      NeverReconnects(Apply(w, steps[0]), steps[1..]);
    }
  }

  /** The next step towards a new session. */
  function RecoveryStep(pc: SupPc): SupAction {
    match pc
    case Trying => StartWait(0.0)
    case Dialing => Dial(true)
    case _ => SupAction.Advance
  }

  function ToSession(pc: SupPc): nat {
    match pc
    case Waiting => 8
    case StoppingHc => 7
    case Joining => 6
    case Detaching => 5
    case CheckingCtx => 4
    case Trying => 3
    case Sleeping => 2
    case Dialing => 1
    case _ => 0
  }

  /** On the way from an ended session to the next one, with attempts left. */
  predicate Recovering(w: World) {
    && !w.cancelled && w.sup.cfg.autoReconnect && w.sup.attempt < 50
    && (w.sup.pc.Waiting? ==> LastRunFinished(w))
    && ToSession(w.sup.pc) > 0
  }

  lemma AfterRecovers(w: World)
    requires Recovering(w) && (w.sup.pc.Waiting? || IsAfterRun(w.sup.pc)) && !w.sup.pc.Joining?
    requires w.sup.pc.StoppingHc? ==> w.sup.hc.Some? && w.sup.hc.value < |w.checkers|
    ensures var w' := SupAfter(w);
            Recovering(w') && ToSession(w'.sup.pc) < ToSession(w.sup.pc) && |w'.channels| == |w.channels|
  {
    hide LastRunFinished;
  }

  lemma RecoveryStepDescends(w: World)
    requires CheckersInv(w) && Recovering(w) && !w.sup.pc.Joining?
    ensures var w' := Apply(w, AtSup(RecoveryStep(w.sup.pc)));
            if w.sup.pc.Dialing? then w'.sup.pc.Announcing? && |w'.channels| == |w.channels| + 1
            else Recovering(w') && ToSession(w'.sup.pc) < ToSession(w.sup.pc) && |w'.channels| == |w.channels|
  {
    hide CheckersInv, CheckerOk, Interval, SupBefore, SupAfter, LastRunFinished;
    HcIsThere(w);
    if w.sup.pc.Waiting? || IsAfterRun(w.sup.pc) {
      AfterRecovers(w);
    }
  }

  lemma {:induction false} RecoveryReachesSession(w: World) returns (steps: seq<Step>)
    requires CheckersInv(w) && Recovering(w)
    ensures OwnSteps(steps) && |Exec(w, steps).channels| > |w.channels|
    decreases ToSession(w.sup.pc)
  {
    if w.sup.pc.Joining? {
      var way := JoiningEnds(w);
      assert Recovering(Exec(w, way));
      hide Exec, CheckersInv, OwnSteps, Recovering;
      var rest := RecoveryReachesSession(Exec(w, way));
      ExecConcat(w, way, rest);
      OwnConcat(way, rest);
      steps := way + rest;
    } else {
      var step := AtSup(RecoveryStep(w.sup.pc));
      RecoveryStepDescends(w);
      StepKeepsCheckers(w, step);
      OwnOne(step);
      hide Apply, CheckersInv, OwnSteps, Recovering;
      ExecOne(w, step);
      if w.sup.pc.Dialing? {
        steps := [step];
      } else {
        var rest := RecoveryReachesSession(Apply(w, step));
        ExecConcat(w, [step], rest);
        OwnConcat([step], rest);
        steps := [step] + rest;
      }
      hide Exec;
    }
  }

  /**
    After any run, once the session's Run has ended and the context is not cancelled, the loop can come to
    a further session, by steps of its own, if and only if auto-reconnect is on.
   */
  lemma RecoversExactly(online: bool, cfg: Config, before: seq<Step>)
    requires var w := Exec(Begin(online, cfg), before); w.sup.pc.Waiting? && LastRunFinished(w) && !w.cancelled
    ensures var w := Exec(Begin(online, cfg), before);
            (exists steps :: OwnSteps(steps) && |Exec(w, steps).channels| > |w.channels|) <==> cfg.autoReconnect
  {
    assert CheckersInv(Begin(online, cfg));
    ExecKeepsCheckers(Begin(online, cfg), before);
    OutagesAreBounded(online, cfg, before);
    BeginKeepsOutage(online, cfg);
    ExecKeepsOutage(Begin(online, cfg), before);
    var w := Exec(Begin(online, cfg), before);
    hide Exec, Begin, OwnSteps, CheckersInv, OutageInv;
    if cfg.autoReconnect {
      var steps := RecoveryReachesSession(w);
    } else {
      forall steps | OwnSteps(steps) ensures |Exec(w, steps).channels| <= |w.channels| {
        NeverReconnects(w, steps);
      }
    }
  }
}
