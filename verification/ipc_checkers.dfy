/** Over all runs of RunWithReconnect: what the health checkers reach, and how long an outage lasts. */
module IpcCheckers {
  import opened Wrappers
  import opened IpcSessions
  import opened Reconnects
  import opened IpcRuns

  /** The checker's goroutine is running. */
  predicate Alive(c: Checker) {
    !c.pc.Dormant? && !c.pc.Exited?
  }

  /** The part of the loop between hc.Start and the return of hc.Stop. */
  predicate HasChecker(pc: SupPc) {
    pc.Launching? || pc.Waiting? || pc.ClosingConn? || pc.StoppingHc? || pc.Joining?
  }

  predicate CheckerOk(c: Checker, own: bool, pc: SupPc, ipcConn: Option<nat>) {
    && (c.pc.Dormant? ==> own && (pc.Attaching? || pc.Starting?))
    && (own && (pc.Attaching? || pc.Starting?) ==> c.pc.Dormant?)
    && (Alive(c) ==> own && HasChecker(pc) && c.session == ipcConn)
    && c.manager.doneCloses == (if c.pc.Exited? then 1 else 0)
    && (c.manager.pongs.Some? ==> c.manager.pongs.value <= PONG_BUFFER)
    && c.manager.stopCloses <= 1 && (c.manager.hasStop ==> c.manager.stopCloses == 0)
    && (own && HasChecker(pc) && !pc.Joining? ==> c.manager.hasStop && c.manager.hasDone)
    && (own && pc.Joining? ==> c.manager.stopCloses == 1)
    && (own && pc.Detaching? ==> c.pc.Exited?)
  }

  predicate CallOk(call: Call, checkers: seq<Checker>) {
    && call.checker < |checkers|
    && !checkers[call.checker].pc.Dormant?
    && checkers[call.checker].session == Some(call.conn)
  }

  predicate CheckersInv(w: World) {
    && (forall k :: 0 <= k < |w.checkers| ==>
          CheckerOk(w.checkers[k], w.sup.hc == Some(k), w.sup.pc, w.client.ipcConn))
    && (w.sup.hc.Some? ==> w.sup.hc.value < |w.checkers|)
    && (w.sup.pc.Attaching? || w.sup.pc.Starting? || w.sup.pc.StoppingHc? || w.sup.pc.Joining? ==> w.sup.hc.Some?)
    && (forall i :: 0 <= i < |w.calls| ==> CallOk(w.calls[i], w.checkers))
  }

  /** The moves of the loop that leave the checkers alone, as far as one checker is concerned. */
  predicate Moves(c: Checker, own: bool, pc: SupPc, pc': SupPc) {
    || pc == pc'
    || (pc.Attaching? && pc'.Starting?)
    || (pc.Launching? && pc'.Waiting?)
    || (pc.Waiting? && pc'.ClosingConn?)
    || ((pc.Waiting? || pc.ClosingConn?) && (pc'.StoppingHc? || (pc'.CheckingCtx? && !own)))
    || (pc.Joining? && pc'.Detaching? && (own ==> c.pc.Exited?))
    || (pc.CheckingCtx? && (pc'.Trying? || pc'.Returned?))
  }

  lemma MoveKeepsChecker(c: Checker, own: bool, pc: SupPc, pc': SupPc, conn: Option<nat>)
    requires CheckerOk(c, own, pc, conn) && Moves(c, own, pc, pc')
    ensures CheckerOk(c, own, pc', conn)
  {
  }

  lemma MoveKeepsCheckers(w: World, w': World)
    requires CheckersInv(w)
    requires w'.checkers == w.checkers && w'.calls == w.calls
    requires w'.sup.hc == w.sup.hc && w'.client.ipcConn == w.client.ipcConn
    requires forall k :: 0 <= k < |w.checkers| ==> Moves(w.checkers[k], w.sup.hc == Some(k), w.sup.pc, w'.sup.pc)
    requires w'.sup.pc.Starting? || w'.sup.pc.StoppingHc? ==> w.sup.hc.Some?
    requires w'.sup.pc == w.sup.pc || (!w'.sup.pc.Attaching? && !w'.sup.pc.Joining?)
    ensures CheckersInv(w')
  {
    hide CheckerOk, Moves, CallOk;
    forall k | 0 <= k < |w.checkers|
      ensures CheckerOk(w'.checkers[k], w'.sup.hc == Some(k), w'.sup.pc, w'.client.ipcConn)
    {
      MoveKeepsChecker(w.checkers[k], w.sup.hc == Some(k), w.sup.pc, w'.sup.pc, w.client.ipcConn);
    }
  }

  /** A checker that is neither alive nor about to start is fine wherever the loop goes. */
  lemma RetiredKeeps(c: Checker, own: bool, pc: SupPc, pc': SupPc, conn: Option<nat>, conn': Option<nat>)
    requires CheckerOk(c, own, pc, conn)
    requires !HasChecker(pc) && !pc.Attaching? && !pc.Starting?
    ensures CheckerOk(c, false, pc', conn')
    ensures !HasChecker(pc') && !pc'.Attaching? && !pc'.Starting? && (pc'.Detaching? ==> pc.Detaching?) ==>
              CheckerOk(c, own, pc', conn')
  {
  }

  lemma TopKeepsCheckers(w: World)
    requires CheckersInv(w) && w.sup.pc.Top?
    ensures CheckersInv(SupBefore(w))
  {
    hide CheckerOk, CallOk;
    var w' := SupBefore(w);
    forall k | 0 <= k < |w.checkers|
      ensures CheckerOk(w'.checkers[k], w'.sup.hc == Some(k), w'.sup.pc, w'.client.ipcConn)
    {
      RetiredKeeps(w.checkers[k], w.sup.hc == Some(k), w.sup.pc, w'.sup.pc, w.client.ipcConn, w'.client.ipcConn);
    }
    NewCheckerOk(w.client.ipcConn);
    forall i | 0 <= i < |w.calls| ensures CallOk(w'.calls[i], w'.checkers) {
      CallSurvives(w.calls[i], w.checkers, w'.checkers);
    }
  }

  lemma NewCheckerOk(conn: Option<nat>)
    ensures CheckerOk(Checker(None, Dormant, UNSTARTED), true, Attaching, conn)
  {
  }

  /** Started checkers keep their session, so what they called stays on record. */
  lemma CallSurvives(call: Call, checkers: seq<Checker>, checkers': seq<Checker>)
    requires CallOk(call, checkers) && |checkers| <= |checkers'|
    requires
      forall k :: 0 <= k < |checkers| && !checkers[k].pc.Dormant? ==>
        !checkers'[k].pc.Dormant? && checkers'[k].session == checkers[k].session
    ensures CallOk(call, checkers')
  {
  }

  /** A step that changes the loop's own checker, the k-th, and moves the loop. */
  lemma OwnChangeKeepsCheckers(w: World, w': World, k: nat)
    requires CheckersInv(w) && w.sup.hc == w'.sup.hc == Some(k) && k < |w.checkers| == |w'.checkers|
    requires w'.checkers == w.checkers[k := w'.checkers[k]]
    requires w'.client.ipcConn == w.client.ipcConn && w'.calls == w.calls
    requires CheckerOk(w'.checkers[k], true, w'.sup.pc, w'.client.ipcConn)
    requires !w.checkers[k].pc.Dormant? ==>
               !w'.checkers[k].pc.Dormant? && w'.checkers[k].session == w.checkers[k].session
    ensures CheckersInv(w')
  {
    hide CallOk;
    forall j | 0 <= j < |w.checkers|
      ensures CheckerOk(w'.checkers[j], w'.sup.hc == Some(j), w'.sup.pc, w'.client.ipcConn)
    {
      assert CheckerOk(w.checkers[j], w.sup.hc == Some(j), w.sup.pc, w.client.ipcConn);
    }
    hide CheckerOk;
    forall i | 0 <= i < |w.calls| ensures CallOk(w'.calls[i], w'.checkers) {
      CallSurvives(w.calls[i], w.checkers, w'.checkers);
    }
  }

  lemma SupBeforeKeepsCheckers(w: World)
    requires CheckersInv(w)
    ensures CheckersInv(SupBefore(w))
  {
    var w' := SupBefore(w);
    match w.sup.pc {
      case Top => TopKeepsCheckers(w);
      case Starting =>
        var k := w.sup.hc.value;
        assert CheckerOk(w.checkers[k], true, Starting, w.client.ipcConn);
        OwnChangeKeepsCheckers(w, w', k);
      case _ =>
        hide CheckersInv, CheckerOk, CallOk, MapChecker;
        HcIsThere(w);
        MoveKeepsCheckers(w, w');
    }
  }

  lemma HcIsThere(w: World)
    requires CheckersInv(w)
    ensures w.sup.hc.Some? ==> w.sup.hc.value < |w.checkers|
    ensures w.sup.pc.Attaching? || w.sup.pc.Starting? || w.sup.pc.StoppingHc? || w.sup.pc.Joining? ==> w.sup.hc.Some?
    ensures w.sup.hc.Some? ==> CheckerOk(w.checkers[w.sup.hc.value], true, w.sup.pc, w.client.ipcConn)
  {
    hide CheckerOk, CallOk;
  }

  lemma StoppingKeepsCheckers(w: World)
    requires CheckersInv(w) && w.sup.pc.StoppingHc?
    ensures CheckersInv(HcStopping(w))
  {
    HcIsThere(w);
    hide CheckersInv, CallOk;
    OwnChangeKeepsCheckers(w, HcStopping(w), w.sup.hc.value);
  }

  lemma DetachingKeepsCheckers(w: World)
    requires CheckersInv(w) && w.sup.pc.Detaching?
    ensures CheckersInv(SupAfter(w))
  {
    hide CheckerOk, CallOk;
    var w' := SupAfter(w);
    forall k | 0 <= k < |w.checkers|
      ensures CheckerOk(w'.checkers[k], w'.sup.hc == Some(k), w'.sup.pc, w'.client.ipcConn)
    {
      RetiredKeeps(w.checkers[k], w.sup.hc == Some(k), w.sup.pc, w'.sup.pc, w.client.ipcConn, w'.client.ipcConn);
    }
  }

  /** A checker that closed its done channel has left. */
  lemma JoinedMoves(w: World)
    requires CheckersInv(w) && w.sup.pc.Joining?
    ensures forall k :: 0 <= k < |w.checkers| ==>
              Moves(w.checkers[k], w.sup.hc == Some(k), w.sup.pc, SupAfter(w).sup.pc)
  {
    HcIsThere(w);
    hide CheckersInv, CallOk;
  }

  lemma JoinKeepsCheckers(w: World)
    requires CheckersInv(w) && w.sup.pc.Joining?
    ensures CheckersInv(SupAfter(w))
  {
    hide CheckersInv, CheckerOk, CallOk, Moves, HcStopping;
    HcIsThere(w);
    JoinedMoves(w);
    MoveKeepsCheckers(w, SupAfter(w));
  }

  lemma PlainAfterKeepsCheckers(w: World)
    requires CheckersInv(w) && !w.sup.pc.StoppingHc? && !w.sup.pc.Detaching? && !w.sup.pc.Joining?
    ensures CheckersInv(SupAfter(w))
  {
    hide CheckersInv, CheckerOk, CallOk, HcStopping;
    HcIsThere(w);
    MoveKeepsCheckers(w, SupAfter(w));
  }

  lemma SupAfterKeepsCheckers(w: World)
    requires CheckersInv(w)
    ensures CheckersInv(SupAfter(w))
  {
    hide CheckersInv, HcStopping;
    match w.sup.pc {
      case StoppingHc => StoppingKeepsCheckers(w);
      case Detaching => DetachingKeepsCheckers(w);
      case Joining => JoinKeepsCheckers(w);
      case _ => PlainAfterKeepsCheckers(w);
    }
  }

  /** No checker is alive in the reconnect phase, so a new connection does not meet an old checker. */
  lemma ReconnectingKeepsCheckers(w: World, w': World)
    requires CheckersInv(w) && (IsReconnecting(w.sup.pc) || w.sup.pc.Announcing?)
    requires IsReconnecting(w'.sup.pc) || w'.sup.pc.Announcing? || w'.sup.pc.Returned? || w'.sup.pc.Top?
    requires w'.sup.hc == w.sup.hc && w'.checkers == w.checkers && w'.calls == w.calls
    ensures CheckersInv(w')
  {
    hide CheckerOk, CallOk;
    forall k | 0 <= k < |w.checkers|
      ensures CheckerOk(w'.checkers[k], w'.sup.hc == Some(k), w'.sup.pc, w'.client.ipcConn)
    {
      RetiredKeeps(w.checkers[k], w.sup.hc == Some(k), w.sup.pc, w'.sup.pc, w.client.ipcConn, w'.client.ipcConn);
    }
  }

  lemma SeeCancelKeepsCheckers(w: World)
    requires CheckersInv(w)
    ensures CheckersInv(SupStep(w, SeeCancel))
  {
    hide CheckersInv, CheckerOk, CallOk;
    HcIsThere(w);
    if w.sup.pc.Sleeping? && w.cancelled {
      ReconnectingKeepsCheckers(w, SupStep(w, SeeCancel));
    } else {
      MoveKeepsCheckersOrSame(w, SupStep(w, SeeCancel));
    }
  }

  lemma MoveKeepsCheckersOrSame(w: World, w': World)
    requires CheckersInv(w) && (w' == w || (w.sup.pc.Waiting? && w' == Goto(w, ClosingConn)))
    ensures CheckersInv(w')
  {
    if w' != w {
      hide CheckersInv, CheckerOk, CallOk;
      MoveKeepsCheckers(w, w');
    }
  }

  lemma SupKeepsCheckers(w: World, action: SupAction)
    requires CheckersInv(w)
    ensures CheckersInv(SupStep(w, action))
  {
    hide CheckersInv, SupBefore, SupAfter;
    match action {
      case Advance =>
        SupBeforeKeepsCheckers(w);
        SupAfterKeepsCheckers(w);
        if w.sup.pc.Trying? || w.sup.pc.Sleeping? || w.sup.pc.Announcing? {
          ReconnectingKeepsCheckers(w, SupReconnecting(w));
        }
      case SeeCancel => SeeCancelKeepsCheckers(w);
      case StartWait(jitter) =>
        hide Interval;
        if w.sup.pc.Trying? {
          ReconnectingKeepsCheckers(w, WaitStarted(w, jitter));
        }
      case Dial(succeeds) =>
        if w.sup.pc.Dialing? {
          ReconnectingKeepsCheckers(w, Dialed(w, succeeds));
        }
    }
  }

  /** The pong channel of a manager holds at most one pong, if it did before. */
  predicate PongsFit(m: Manager, m': Manager) {
    (m.pongs.Some? ==> m.pongs.value <= PONG_BUFFER) ==> (m'.pongs.Some? ==> m'.pongs.value <= PONG_BUFFER)
  }

  lemma PongFrame(checkers: seq<Checker>, e: Effect)
    ensures var checkers' := Ponged(checkers, e);
            && |checkers'| == |checkers|
            && (forall k :: 0 <= k < |checkers| ==>
                  checkers'[k].pc == checkers[k].pc && checkers'[k].session == checkers[k].session
                  && checkers'[k].manager == checkers[k].manager.(pongs := checkers'[k].manager.pongs)
                  && PongsFit(checkers[k].manager, checkers'[k].manager))
  {
  }

  /** A Run changes at most whether a pong waits for a checker. */
  lemma RunFrame(w: World, r: nat, action: RunAction)
    requires r < |w.runs|
    ensures var w' := RunStep(w, r, action);
            && w'.sup == w.sup && w'.calls == w.calls && w'.client.ipcConn == w.client.ipcConn
            && |w'.checkers| == |w.checkers|
            && (forall k :: 0 <= k < |w.checkers| ==>
                  w'.checkers[k].pc == w.checkers[k].pc && w'.checkers[k].session == w.checkers[k].session
                  && w'.checkers[k].manager == w.checkers[k].manager.(pongs := w'.checkers[k].manager.pongs)
                  && PongsFit(w.checkers[k].manager, w'.checkers[k].manager))
  {
    hide RunLocal, OnChannel, SendsOnClosed, RoomIn, Ponged;
    PongFrame(w.checkers, RunLocal(w.runs[r], action, w.client, RoomIn(w.channels, Captured(w.runs[r])), w.cancelled).1);
  }

  lemma RunKeepsCheckers(w: World, r: nat, action: RunAction)
    requires CheckersInv(w) && r < |w.runs|
    ensures CheckersInv(RunStep(w, r, action))
  {
    RunFrame(w, r, action);
    hide RunStep, CallOk;
    var w' := RunStep(w, r, action);
    forall k | 0 <= k < |w.checkers|
      ensures CheckerOk(w'.checkers[k], w'.sup.hc == Some(k), w'.sup.pc, w'.client.ipcConn)
    {
      assert CheckerOk(w.checkers[k], w.sup.hc == Some(k), w.sup.pc, w.client.ipcConn);
    }
    hide CheckerOk;
    forall i | 0 <= i < |w.calls| ensures CallOk(w'.calls[i], w'.checkers) {
      CallSurvives(w.calls[i], w.checkers, w'.checkers);
    }
  }

  lemma LocalKeepsChecker(c: Checker, action: CheckerAction, own: bool, pc: SupPc, conn: Option<nat>, cancelled: bool)
    requires CheckerOk(c, own, pc, conn)
    ensures var (c', calls) := CheckerLocal(c, action, conn, cancelled);
            && CheckerOk(c', own, pc, conn)
            && c'.session == c.session
            && (c'.pc.Dormant? <==> c.pc.Dormant?)
            && (calls ==> !c.pc.Dormant? && conn.Some? && c.session == conn)
  {
  }

  lemma CheckerKeepsCheckers(w: World, k: nat, action: CheckerAction)
    requires CheckersInv(w) && k < |w.checkers|
    ensures CheckersInv(CheckerStep(w, k, action))
  {
    hide CheckerLocal, CheckerOk, CallOk;
    LocalKeepsChecker(w.checkers[k], action, w.sup.hc == Some(k), w.sup.pc, w.client.ipcConn, w.cancelled);
    var w' := CheckerStep(w, k, action);
    assert w'.checkers == w.checkers[k := w'.checkers[k]];
    forall i | 0 <= i < |w'.calls| ensures CallOk(w'.calls[i], w'.checkers) {
      if i < |w.calls| {
        CallSurvives(w.calls[i], w.checkers, w'.checkers);
      } else {
        OwnCall(k, w.client.ipcConn.value, w'.checkers);
      }
    }
  }

  lemma OwnCall(k: nat, conn: nat, checkers: seq<Checker>)
    requires k < |checkers| && !checkers[k].pc.Dormant? && checkers[k].session == Some(conn)
    ensures CallOk(Call(k, conn), checkers)
  {
  }

  lemma StepKeepsCheckers(w: World, step: Step)
    requires CheckersInv(w)
    ensures CheckersInv(Apply(w, step))
  {
    hide SupStep, RunStep, CheckerStep, CheckerOk, CallOk;
    match step {
      case AtSup(action) => SupKeepsCheckers(w, action);
      case AtRun(r, action) => if r < |w.runs| { RunKeepsCheckers(w, r, action); }
      case AtChecker(k, action) => if k < |w.checkers| { CheckerKeepsCheckers(w, k, action); }
      case _ =>
    }
  }

  lemma {:induction false} ExecKeepsCheckers(w: World, steps: seq<Step>)
    requires CheckersInv(w)
    ensures CheckersInv(Exec(w, steps))
    decreases |steps|
  {
    hide CheckersInv, Apply;
    if steps != [] {
      StepKeepsCheckers(w, steps[0]);
      ExecKeepsCheckers(Apply(w, steps[0]), steps[1..]);
    }
  }

  /**
    Health-checker isolation, in every interleaving: at most one checker is alive, and only between its
    start and the return of Stop, so none is while the loop reconnects or after it returned; a checker
    only ever reaches the connection of the session it was started in, which is still the client's; and
    stop and done channels are closed at most once, and at most one pong waits.
   */
  lemma CheckersAreIsolated(online: bool, cfg: Config, steps: seq<Step>)
    ensures var w := Exec(Begin(online, cfg), steps);
            && (forall j, k :: 0 <= j < k < |w.checkers| ==> !(Alive(w.checkers[j]) && Alive(w.checkers[k])))
            && (forall k :: 0 <= k < |w.checkers| && Alive(w.checkers[k]) ==>
                              HasChecker(w.sup.pc) && w.checkers[k].session == w.client.ipcConn)
            && (forall i :: 0 <= i < |w.calls| ==>
                              w.calls[i].checker < |w.checkers|
                              && w.checkers[w.calls[i].checker].session == Some(w.calls[i].conn))
            && (forall k :: 0 <= k < |w.checkers| ==>
                              && w.checkers[k].manager.stopCloses <= 1 && w.checkers[k].manager.doneCloses <= 1
                              && (w.checkers[k].manager.pongs.Some? ==>
                                    w.checkers[k].manager.pongs.value <= 1))
  {
    assert CheckersInv(Begin(online, cfg));
    ExecKeepsCheckers(Begin(online, cfg), steps);
    hide Exec, Begin;
    var w := Exec(Begin(online, cfg), steps);
    assert forall i :: 0 <= i < |w.calls| ==> CallOk(w.calls[i], w.checkers);
    assert forall k :: 0 <= k < |w.checkers| ==>
             CheckerOk(w.checkers[k], w.sup.hc == Some(k), w.sup.pc, w.client.ipcConn);
  }

  /** What a checker does from its place to closing done once it was told to stop. */
  function WayOut(pc: CheckerPc): seq<CheckerAction> {
    match pc
    case Idle => [SeeStop, CloseDone]
    case Pinging => [Ping(false), CloseDone]
    case Awaiting => [SeeStop, CloseDone]
    case TimedOut => [CloseConn, CloseDone]
    case Exiting => [CloseDone]
    case _ => []
  }

  function StepsOf(k: nat, actions: seq<CheckerAction>): seq<Step> {
    if actions == [] then [AtSup(SupAction.Advance)] else [AtChecker(k, actions[0])] + StepsOf(k, actions[1..])
  }

  /** A Stop that waits is never stuck: at most two steps of the checker, wherever it is, let it return. */
  lemma StopReturns(online: bool, cfg: Config, steps: seq<Step>)
    ensures var w := Exec(Begin(online, cfg), steps);
            w.sup.pc.Joining? ==>
              && w.sup.hc.Some? && w.sup.hc.value < |w.checkers|
              && Exec(w, StepsOf(w.sup.hc.value, WayOut(w.checkers[w.sup.hc.value].pc))).sup.pc.Detaching?
  {
    assert CheckersInv(Begin(online, cfg));
    ExecKeepsCheckers(Begin(online, cfg), steps);
    var w := Exec(Begin(online, cfg), steps);
    hide Begin, Exec;
    if w.sup.pc.Joining? {
      JoiningGoesOn(w, w.sup.hc.value);
    }
  }

  lemma ExecTwo(w: World, a: Step, rest: seq<Step>)
    ensures Exec(w, [a] + rest) == Exec(Apply(w, a), rest)
  {
    assert ([a] + rest)[1..] == rest;
  }

  /** One step on the way out. */
  lemma JoiningStep(w: World, k: nat)
    requires CheckersInv(w) && w.sup.pc.Joining? && w.sup.hc == Some(k)
    ensures k < |w.checkers|
    ensures
      var c := w.checkers[k];
      if c.pc.Exited? then WayOut(c.pc) == [] && Apply(w, AtSup(SupAction.Advance)).sup.pc.Detaching?
      else
        && WayOut(c.pc) != []
        && var w' := Apply(w, AtChecker(k, WayOut(c.pc)[0]));
           w'.sup == w.sup && k < |w'.checkers| && WayOut(w'.checkers[k].pc) == WayOut(c.pc)[1..]
  {
    HcIsThere(w);
    hide CheckersInv, CallOk;
  }

  lemma JoiningGoesOn(w: World, k: nat)
    requires CheckersInv(w) && w.sup.pc.Joining? && w.sup.hc == Some(k)
    ensures k < |w.checkers|
    ensures Exec(w, StepsOf(k, WayOut(w.checkers[k].pc))).sup.pc.Detaching?
    decreases if k < |w.checkers| then |WayOut(w.checkers[k].pc)| else 0
  {
    hide Apply, CheckersInv, WayOut;
    JoiningStep(w, k);
    var way := WayOut(w.checkers[k].pc);
    if way == [] {
      var advance := AtSup(SupAction.Advance);
      ExecTwo(w, advance, []);
      assert StepsOf(k, way) == [advance] + [];
    } else {
      StepKeepsCheckers(w, AtChecker(k, way[0]));
      JoiningGoesOn(Apply(w, AtChecker(k, way[0])), k);
      ExecTwo(w, AtChecker(k, way[0]), StepsOf(k, way[1..]));
    }
  }

  // ---------- Outages ----------

  /** The waits that the current outage has begun, or all it may begin once it is over. */
  function Waits(s: Supervisor): nat {
    match s.pc
    case Trying => s.attempt
    case Sleeping => s.attempt + 1
    case Dialing => s.attempt + 1
    case Announcing => s.attempt + 1
    case _ => MAX_RECONNECT_ATTEMPTS
  }

  /** What the delays of so many attempts add up to, jitter included. */
  ghost function SleepLimit(cfg: Config, waits: nat): real {
    1.1 * SumOfDelays(cfg.baseInterval, cfg.maxInterval, 0, waits) as real
  }

  predicate CountersInv(s: Supervisor) {
    match s.pc
    case Trying => s.attempt == s.dials <= MAX_RECONNECT_ATTEMPTS
    case Sleeping => s.attempt == s.dials < MAX_RECONNECT_ATTEMPTS
    case Dialing => s.attempt == s.dials < MAX_RECONNECT_ATTEMPTS
    case Announcing => s.attempt + 1 == s.dials <= MAX_RECONNECT_ATTEMPTS
    case Returned => s.attempt <= s.dials <= MAX_RECONNECT_ATTEMPTS
    case _ => s.attempt == 0 && s.dials <= MAX_RECONNECT_ATTEMPTS
  }

  ghost predicate SleepInv(s: Supervisor) {
    SaneIntervals(s.cfg.baseInterval, s.cfg.maxInterval) ==> s.slept <= SleepLimit(s.cfg, Waits(s))
  }

  ghost predicate OutageInv(s: Supervisor) {
    CountersInv(s) && SleepInv(s)
  }

  /** Only the loop moves its own counters. */
  lemma OthersLeaveSup(w: World, step: Step)
    ensures !step.AtSup? ==> Apply(w, step).sup == w.sup
  {
    hide RunLocal, OnChannel, Ponged, CheckerLocal, SupStep;
  }

  lemma BeforeLeavesCounters(w: World)
    ensures var s := SupBefore(w).sup;
            && s == w.sup.(pc := s.pc, hc := s.hc)
            && (s.pc == w.sup.pc || (IsFresh(w.sup.pc) && (IsFresh(s.pc) || s.pc.Waiting?)))
            && (w.sup.pc.Announcing? || s.pc.Announcing? ==> s == w.sup)
  {
  }

  lemma StoppingLeavesCounters(w: World)
    ensures var s := HcStopping(w).sup;
            && s == w.sup.(pc := s.pc)
            && (s.pc == w.sup.pc || IsAfterRun(s.pc))
  {
  }

  lemma AfterLeavesCounters(w: World)
    ensures var s := SupAfter(w).sup;
            || s == w.sup
            || (&& (w.sup.pc.Waiting? || w.sup.pc.ClosingConn? || IsAfterRun(w.sup.pc))
                && s.attempt == w.sup.attempt && s.cfg == w.sup.cfg
                && if s.pc.Trying? then s.dials == 0 && s.slept == 0.0
                   else s.dials == w.sup.dials && s.slept == w.sup.slept && (IsAfterRun(s.pc) || s.pc.Returned?))
  {
    hide HcStopping;
    StoppingLeavesCounters(w);
  }

  /** At the end of an outage the limit of all its attempts holds. */
  lemma SleepEnds(s: Supervisor)
    requires OutageInv(s)
    ensures SaneIntervals(s.cfg.baseInterval, s.cfg.maxInterval) ==>
              s.slept <= SleepLimit(s.cfg, MAX_RECONNECT_ATTEMPTS)
  {
    if SaneIntervals(s.cfg.baseInterval, s.cfg.maxInterval) {
      SleepWithinOutage(s.cfg.baseInterval, s.cfg.maxInterval, Waits(s), s.slept);
    }
  }

  lemma SleepBegins(cfg: Config)
    ensures SleepLimit(cfg, 0) == 0.0
  {
    SumOfNone(cfg.baseInterval, cfg.maxInterval, 0);
  }

  lemma WaitKeepsOutage(w: World, jitter: real)
    requires OutageInv(w.sup)
    ensures OutageInv(WaitStarted(w, jitter).sup)
  {
    hide SumOfDelays, Interval, SaneIntervals;
    var cfg := w.sup.cfg;
    if SaneIntervals(cfg.baseInterval, cfg.maxInterval) && w.sup.pc.Trying? && 0.0 <= jitter <= 1.0 {
      SleepBound(cfg.baseInterval, cfg.maxInterval, 0, w.sup.attempt, jitter, w.sup.slept);
    }
  }

  lemma ReconnectingKeepsOutage(w: World)
    requires OutageInv(w.sup)
    ensures OutageInv(SupReconnecting(w).sup)
  {
    hide SleepLimit, SaneIntervals;
    SleepEnds(w.sup);
  }

  lemma AdvanceKeepsOutage(w: World)
    requires OutageInv(w.sup)
    ensures OutageInv(SupStep(w, SupAction.Advance).sup)
  {
    hide SupBefore, SupAfter, SupReconnecting, SleepLimit, SaneIntervals;
    AfterLeavesCounters(w);
    BeforeLeavesCounters(w);
    ReconnectingKeepsOutage(w);
    SleepBegins(w.sup.cfg);
  }

  lemma SupKeepsOutage(w: World, action: SupAction)
    requires OutageInv(w.sup)
    ensures OutageInv(SupStep(w, action).sup)
  {
    match action {
      case Advance => AdvanceKeepsOutage(w); hide OutageInv, SupStep;
      case StartWait(jitter) => WaitKeepsOutage(w, jitter); hide OutageInv, WaitStarted;
      case SeeCancel => SleepEnds(w.sup); hide SleepLimit, SaneIntervals;
      case Dial(succeeds) => hide SleepLimit, SaneIntervals;
    }
  }

  lemma StepKeepsOutage(w: World, step: Step)
    requires OutageInv(w.sup)
    ensures OutageInv(Apply(w, step).sup)
  {
    hide OutageInv, SupStep, RunStep, CheckerStep;
    OthersLeaveSup(w, step);
    if step.AtSup? {
      SupKeepsOutage(w, step.supAction);
    }
  }

  lemma {:induction false} ExecKeepsOutage(w: World, steps: seq<Step>)
    requires OutageInv(w.sup)
    ensures OutageInv(Exec(w, steps).sup) && Exec(w, steps).sup.cfg == w.sup.cfg
    decreases |steps|
  {
    hide OutageInv, Apply;
    if steps != [] {
      StepKeepsOutage(w, steps[0]);
      StepKeepsConfig(w, steps[0]);
      ExecKeepsOutage(Apply(w, steps[0]), steps[1..]);
    }
  }

  lemma StepKeepsConfig(w: World, step: Step)
    ensures Apply(w, step).sup.cfg == w.sup.cfg
  {
    hide SupBefore, SupAfter, RunStep, CheckerStep, Interval;
    OthersLeaveSup(w, step);
    BeforeLeavesCounters(w);
    AfterLeavesCounters(w);
  }

  lemma BeginKeepsOutage(online: bool, cfg: Config)
    ensures OutageInv(Begin(online, cfg).sup)
  {
    if SaneIntervals(cfg.baseInterval, cfg.maxInterval) {
      SleepBegins(cfg);
      SleepWithinOutage(cfg.baseInterval, cfg.maxInterval, 0, 0.0);
    }
  }

  /**
    Bounded reconnect, in every interleaving: an outage starts at attempt 0, makes at most 50 Connect
    calls and sleeps at most 1.1 times the sum of its saturating delays, however it ends; and outside
    outages the attempt counter is 0, so the next one has all its attempts again.
   */
  lemma OutagesAreBounded(online: bool, cfg: Config, steps: seq<Step>)
    ensures var s := Exec(Begin(online, cfg), steps).sup;
            && s.dials <= 50
            && (s.pc.Dialing? ==> s.attempt == s.dials < 50)
            && (s.pc.Top? || s.pc.Waiting? || s.pc.CheckingCtx? ==> s.attempt == 0)
            && (s.pc.Trying? && s.attempt == 50 ==> s.dials == 50)
    ensures SaneIntervals(cfg.baseInterval, cfg.maxInterval) ==>
              var s := Exec(Begin(online, cfg), steps).sup;
              && s.slept
                 <= 1.1 * SumOfDelays(cfg.baseInterval, cfg.maxInterval, 0, 50) as real
              && (s.pc.Trying? ==>
                    s.slept <= 1.1 * SumOfDelays(cfg.baseInterval, cfg.maxInterval, 0, s.attempt) as real)
  {
    BeginKeepsOutage(online, cfg);
    ExecKeepsOutage(Begin(online, cfg), steps);
    hide Exec, SumOfDelays, SaneIntervals;
    SleepEnds(Exec(Begin(online, cfg), steps).sup);
  }
}
