/** What RunWithReconnect does for a session: how it starts, is checked, ends, and is replaced. */
module IpcService {
  import opened Wrappers
  import opened BoundedQueues
  import opened IpcSessions
  import opened IpcRuns
  import opened IpcCheckers

  lemma {:induction false} ExecConcat(w: World, a: seq<Step>, b: seq<Step>)
    ensures Exec(w, a + b) == Exec(Exec(w, a), b)
    decreases |a|
  {
    hide Apply;
    if a == [] {
      assert a + b == b;
    } else {
      assert (a + b)[1..] == a[1..] + b;
      ExecConcat(Apply(w, a[0]), a[1..], b);
    }
  }

  lemma ExecOne(w: World, step: Step)
    ensures Exec(w, [step]) == Apply(w, step)
  {
    hide Apply;
    assert [step][1..] == [];
  }

  lemma ExecPair(w: World, a: Step, b: Step)
    ensures Exec(w, [a, b]) == Apply(Apply(w, a), b)
  {
    hide Apply;
    ExecTwo(w, a, [b]);
    assert [a] + [b] == [a, b];
    ExecOne(Apply(w, a), b);
  }

  // ---------- Pongs ----------

  /** Whether a pong waits for a checker after a step, given whether one did before. */
  predicate PongWaitsAfter(w: World, step: Step, k: nat, waits: bool) {
    if step == AtSup(SupAction.Advance) && w.sup.pc.Starting? && w.sup.hc == Some(k) then
      false   // a new channel
    else if step == AtChecker(k, Tick) && k < |w.checkers| && w.checkers[k].pc.Idle? then
      false   // an old pong is drained before the ping
    else if step == AtChecker(k, ReceivePong) && k < |w.checkers| && w.checkers[k].pc.Awaiting? then
      false   // it is received, if there is one
    else if step.AtRun? && step.runAction.Proceed? && step.run < |w.runs| && w.runs[step.run].Ponging?
            && w.runs[step.run].hc == k then
      waits || (k < |w.checkers| && w.checkers[k].manager.pongs.Some?)   // a Run has read one
    else
      waits
  }

  /** Whether, after the run, a pong has been read for the checker since its latest ping began. */
  predicate PongWaits(w: World, steps: seq<Step>, k: nat, waits: bool)
    decreases |steps|
  {
    if steps == [] then waits else PongWaits(Apply(w, steps[0]), steps[1..], k, PongWaitsAfter(w, steps[0], k, waits))
  }

  /** The pong channel of a checker agrees with that. */
  predicate PongsAgree(w: World, k: nat, waits: bool) {
    if k < |w.checkers| && w.checkers[k].manager.pongs.Some?
    then w.checkers[k].manager.pongs.value == if waits then 1 else 0
    else !waits
  }

  lemma SupPongs(w: World, action: SupAction, k: nat, waits: bool)
    requires CheckersInv(w) && PongsAgree(w, k, waits)
    ensures PongsAgree(SupStep(w, action), k, PongWaitsAfter(w, AtSup(action), k, waits))
  {
    HcIsThere(w);
    hide CheckersInv, CheckerOk;
    match action {
      case Advance =>
        BeforePongs(w, k, waits);
        AfterPongs(w, k, waits);
        hide SupBefore, SupAfter;
      case _ =>
    }
  }

  lemma BeforePongs(w: World, k: nat, waits: bool)
    requires PongsAgree(w, k, waits) && (w.sup.pc.Starting? ==> w.sup.hc.Some? && w.sup.hc.value < |w.checkers|)
    ensures PongsAgree(SupBefore(w), k, if w.sup.pc.Starting? && w.sup.hc == Some(k) then false else waits)
  {
  }

  lemma AfterPongs(w: World, k: nat, waits: bool)
    requires PongsAgree(w, k, waits)
    ensures PongsAgree(SupAfter(w), k, waits)
  {
  }

  lemma RunPongs(w: World, r: nat, action: RunAction, k: nat, waits: bool)
    requires r < |w.runs| && PongsAgree(w, k, waits)
    ensures PongsAgree(RunStep(w, r, action), k, PongWaitsAfter(w, AtRun(r, action), k, waits))
  {
    var pc := w.runs[r];
    var e := RunLocal(pc, action, w.client, RoomIn(w.channels, Captured(pc)), w.cancelled).1;
    PongsOnlyPass(pc, action, w.client, RoomIn(w.channels, Captured(pc)), w.cancelled);
    hide RunLocal, RoomIn, OnChannel, ClientAfter, SendsOnClosed;
    EffectPongs(w.checkers, e, k, waits);
    hide Ponged;
  }

  /** A Run passes a pong on exactly when it has read one. */
  lemma PongsOnlyPass(pc: RunPc, action: RunAction, client: ClientState, room: bool, cancelled: bool)
    ensures var e := RunLocal(pc, action, client, room, cancelled).1;
            if action.Proceed? && pc.Ponging? then e == Pongs(pc.hc) else !e.Pongs?
  {
  }

  lemma EffectPongs(checkers: seq<Checker>, e: Effect, k: nat, waits: bool)
    requires if k < |checkers| && checkers[k].manager.pongs.Some?
             then checkers[k].manager.pongs.value == (if waits then 1 else 0) else !waits
    ensures var checkers' := Ponged(checkers, e);
            var known := k < |checkers| && checkers[k].manager.pongs.Some?;
            && |checkers'| == |checkers|
            && (k < |checkers| ==> (checkers'[k].manager.pongs.Some? <==> checkers[k].manager.pongs.Some?))
            && (known ==> checkers'[k].manager.pongs.value == if waits || e == Pongs(k) then 1 else 0)
  {
  }

  lemma CheckerPongs(w: World, j: nat, action: CheckerAction, k: nat, waits: bool)
    requires j < |w.checkers| && PongsAgree(w, k, waits)
    ensures PongsAgree(CheckerStep(w, j, action), k, PongWaitsAfter(w, AtChecker(j, action), k, waits))
  {
  }

  lemma StepPongs(w: World, step: Step, k: nat, waits: bool)
    requires CheckersInv(w) && PongsAgree(w, k, waits)
    ensures PongsAgree(Apply(w, step), k, PongWaitsAfter(w, step, k, waits))
  {
    hide SupStep, RunStep, CheckerStep, CheckersInv;
    match step {
      case AtSup(action) => SupPongs(w, action, k, waits);
      case AtRun(r, action) => if r < |w.runs| { RunPongs(w, r, action, k, waits); }
      case AtChecker(j, action) => if j < |w.checkers| { CheckerPongs(w, j, action, k, waits); }
      case _ =>
    }
  }

  lemma {:induction false} RunPongsAgree(w: World, steps: seq<Step>, k: nat, waits: bool)
    requires CheckersInv(w) && PongsAgree(w, k, waits)
    ensures PongsAgree(Exec(w, steps), k, PongWaits(w, steps, k, waits))
    decreases |steps|
  {
    hide CheckersInv, Apply, PongsAgree, PongWaitsAfter;
    if steps != [] {
      StepPongs(w, steps[0], k, waits);
      StepKeepsCheckers(w, steps[0]);
      RunPongsAgree(Apply(w, steps[0]), steps[1..], k, PongWaitsAfter(w, steps[0], k, waits));
    }
  }

  /**
    After any run, a checker that awaits its pong can go back to idle if and only if a Run has read a pong for
    it since it last began to ping.
   */
  lemma PongIsSeenExactly(online: bool, cfg: Config, before: seq<Step>, k: nat)
    requires var w := Exec(Begin(online, cfg), before); k < |w.checkers| && w.checkers[k].pc.Awaiting?
    ensures var w := Exec(Begin(online, cfg), before);
            var w' := Apply(w, AtChecker(k, ReceivePong));
            && |w'.checkers| == |w.checkers|
            && w'.checkers[k].pc == (if PongWaits(Begin(online, cfg), before, k, false) then Idle else Awaiting)
  {
    assert CheckersInv(Begin(online, cfg)) && PongsAgree(Begin(online, cfg), k, false);
    RunPongsAgree(Begin(online, cfg), before, k, false);
    ExecKeepsCheckers(Begin(online, cfg), before);
    hide Begin, Exec, PongWaits, CheckersInv;
  }

  /** A pong frame read in time takes the awaiting checker back to idle, and the Run back to its reads. */
  lemma AnsweredPingGoesOn(w: World, r: nat, k: nat)
    requires r < |w.runs| && w.runs[r].Reading? && w.client.healthCheck == Some(k)
    requires k < |w.checkers| && w.checkers[k].pc.Awaiting? && w.checkers[k].manager.pongs.Some?
    requires w.checkers[k].manager.pongs.value <= 1
    ensures var w2 := Apply(Apply(w, AtRun(r, ReadPong)), AtRun(r, Proceed));
            var w' := Apply(w2, AtChecker(k, ReceivePong));
            && |w'.runs| == |w.runs| && w'.runs[r] == w.runs[r]
            && |w'.checkers| == |w.checkers| && w'.checkers[k].pc.Idle?
            && w'.checkers[k].manager.pongs == Some(0)
  {
    hide RoomIn, SendsOnClosed, OnChannel;
    var (conn, ch) := (w.runs[r].conn, w.runs[r].ch);
    var w1 := Apply(w, AtRun(r, ReadPong));
    assert w1.runs[r] == Ponging(conn, ch, k) && w1.checkers == w.checkers && |w1.runs| == |w.runs|;
    var w2 := Apply(w1, AtRun(r, Proceed));
    assert w2.runs[r] == Reading(conn, ch) && |w2.checkers| == |w.checkers|;
    assert w2.checkers[k] == w.checkers[k].(manager := w2.checkers[k].manager);
    assert w2.checkers[k].manager.pongs == Some(1);
  }

  /** The client shows the loop's own checker once it is attached, and none outside a round. */
  predicate ShowsOwnChecker(w: World) {
    && w.client.healthCheck == (if w.sup.pc.Attaching? then None else w.sup.hc)
    && (w.sup.pc in {Top, CheckingCtx, Trying, Sleeping, Dialing, Announcing, Returned} ==> w.sup.hc == None)
  }

  lemma BeforeShowsOwnChecker(w: World)
    requires ShowsOwnChecker(w)
    ensures ShowsOwnChecker(SupBefore(w))
  {
    hide HcStarted, HcStopped;
  }

  lemma AfterShowsOwnChecker(w: World)
    requires ShowsOwnChecker(w)
    ensures ShowsOwnChecker(SupAfter(w))
  {
    hide HcStarted, HcStopped, LastRunFinished;
  }

  lemma OutageShowsOwnChecker(w: World, action: SupAction)
    requires ShowsOwnChecker(w)
    ensures ShowsOwnChecker(SupReconnecting(w))
    ensures action.StartWait? ==> ShowsOwnChecker(WaitStarted(w, action.jitter))
    ensures action.Dial? ==> ShowsOwnChecker(Dialed(w, action.succeeds))
  {
  }

  lemma SupShowsOwnChecker(w: World, action: SupAction)
    requires ShowsOwnChecker(w)
    ensures ShowsOwnChecker(SupStep(w, action))
  {
    BeforeShowsOwnChecker(w);
    AfterShowsOwnChecker(w);
    OutageShowsOwnChecker(w, action);
    hide SupBefore, SupAfter, SupReconnecting, WaitStarted, Dialed;
  }

  lemma StepShowsOwnChecker(w: World, step: Step)
    requires ShowsOwnChecker(w)
    ensures ShowsOwnChecker(Apply(w, step))
  {
    match step {
      case AtSup(action) => SupShowsOwnChecker(w, action);
      case _ => hide SupStep, RunLocal, CheckerLocal, OnChannel, Ponged, RoomIn, SendsOnClosed;
    }
  }

  lemma {:induction false} ExecShowsOwnChecker(w: World, steps: seq<Step>)
    requires ShowsOwnChecker(w)
    ensures ShowsOwnChecker(Exec(w, steps))
    decreases |steps|
  {
    hide ShowsOwnChecker, Apply;
    if steps != [] {
      StepShowsOwnChecker(w, steps[0]);
      ExecShowsOwnChecker(Apply(w, steps[0]), steps[1..]);
    }
  }

  /**
    In every run, a pong that a Run reads can only go to the checker of the loop's current round, and to none
    while the loop reconnects or after it returned.
   */
  lemma OwnCheckerIsShown(online: bool, cfg: Config, steps: seq<Step>)
    ensures ShowsOwnChecker(Exec(Begin(online, cfg), steps))
  {
    ExecShowsOwnChecker(Begin(online, cfg), steps);
  }

  // ---------- Pings and timeouts ----------

  lemma AliveOwn(w: World, k: nat)
    requires CheckersInv(w) && k < |w.checkers|
    ensures Alive(w.checkers[k]) ==> w.checkers[k].session == w.client.ipcConn
    ensures w.checkers[k].manager.doneCloses == if w.checkers[k].pc.Exited? then 1 else 0
  {
    assert CheckerOk(w.checkers[k], w.sup.hc == Some(k), w.sup.pc, w.client.ipcConn);
  }

  /** A round of an idle checker that is not answered: it pings its session, and then closes that session. */
  lemma UnansweredPingCloses(online: bool, cfg: Config, before: seq<Step>, k: nat)
    requires var w := Exec(Begin(online, cfg), before);
             k < |w.checkers| && w.checkers[k].pc.Idle? && w.checkers[k].session.Some?
    ensures var w := Exec(Begin(online, cfg), before);
            var session := w.checkers[k].session.value;
            var w2 := Apply(Apply(w, AtChecker(k, Tick)), AtChecker(k, Ping(true)));
            var w4 := Apply(Apply(w2, AtChecker(k, TimeOut)), AtChecker(k, CloseConn));
            var w5 := Apply(w4, AtChecker(k, CloseDone));
            && |w2.checkers| == |w4.checkers| == |w5.checkers| == |w.checkers|
            && w2.checkers[k].pc.Awaiting? && w2.calls == w.calls + [Call(k, session)]
            && w4.calls == w.calls + [Call(k, session), Call(k, session)]
            && w4.client.state.Disconnected?
            && w5.checkers[k].pc.Exited? && w5.checkers[k].manager.doneCloses == 1
  {
    assert CheckersInv(Begin(online, cfg));
    ExecKeepsCheckers(Begin(online, cfg), before);
    var w := Exec(Begin(online, cfg), before);
    AliveOwn(w, k);
    hide Begin, Exec, CheckersInv, CheckerOk;
    IdlePings(w, k);
    var w2 := Apply(Apply(w, AtChecker(k, Tick)), AtChecker(k, Ping(true)));
    AwaitingTimesOut(w2, k);
    hide Apply;
    assert [Call(k, w.client.ipcConn.value)] + [Call(k, w.client.ipcConn.value)]
        == [Call(k, w.client.ipcConn.value), Call(k, w.client.ipcConn.value)];
  }

  lemma IdlePings(w: World, k: nat)
    requires k < |w.checkers| && w.checkers[k].pc.Idle? && w.client.ipcConn.Some?
    ensures var w' := Apply(Apply(w, AtChecker(k, Tick)), AtChecker(k, Ping(true)));
            && |w'.checkers| == |w.checkers| && w'.checkers[k].pc.Awaiting? && w'.client == w.client
            && w'.checkers[k].manager.doneCloses == w.checkers[k].manager.doneCloses
            && w'.calls == w.calls + [Call(k, w.client.ipcConn.value)]
  {
  }

  lemma AwaitingTimesOut(w: World, k: nat)
    requires k < |w.checkers| && w.checkers[k].pc.Awaiting? && w.client.ipcConn.Some?
    ensures var w2 := Apply(Apply(w, AtChecker(k, TimeOut)), AtChecker(k, CloseConn));
            var w3 := Apply(w2, AtChecker(k, CloseDone));
            && |w2.checkers| == |w3.checkers| == |w.checkers|
            && w2.calls == w.calls + [Call(k, w.client.ipcConn.value)] && w2.client.state.Disconnected?
            && w3.checkers[k].pc.Exited?
            && w3.checkers[k].manager.doneCloses == w.checkers[k].manager.doneCloses + 1
  {
    var w1 := Apply(w, AtChecker(k, TimeOut));
    assert w1.checkers[k].pc.TimedOut? && w1.client == w.client && w1.calls == w.calls;
  }

  // ---------- The end of a session ----------

  /** A Run that reads, with the channel it owns. */
  lemma ReadingOwns(w: World, r: nat)
    requires SessionInv(w) && r < |w.runs| && w.runs[r].Reading?
    ensures r == |w.runs| - 1 && w.channels != []
    ensures var ch := |w.channels| - 1;
            && w.runs[r] == Reading(ch, Some(ch)) && w.client.events == Some(ch)
            && w.channels[ch].captors == [r] && w.channels[ch].closers == [] && !w.channels[ch].aborted
  {
    hide NoneEnded, Over;
  }

  /** After its terminal event the Run clears the field and closes its channel. */
  lemma RunCleansUp(w: World, r: nat, ch: nat)
    requires r < |w.runs| && w.runs[r] == Clearing(Some(ch)) && ch < |w.channels|
    requires w.client.events == Some(ch)
    ensures var w' := Apply(Apply(w, AtRun(r, Proceed)), AtRun(r, Proceed));
            && |w'.runs| == |w.runs| && w'.runs[r] == Finished(Some(ch)) && w'.client == w.client.(events := None)
            && |w'.channels| == |w.channels|
            && w'.channels[ch] == w.channels[ch].(closers := w.channels[ch].closers + [r])
  {
    hide RoomIn, SendsOnClosed;
    var w1 := Apply(w, AtRun(r, Proceed));
    assert w1.runs[r] == Closing(Some(ch)) && w1.channels == w.channels;
  }

  /** The terminal event carries the error that ended the session. */
  lemma TerminalIsSent(w: World, r: nat, ch: nat, error: int, byOpcode: bool)
    requires r < |w.runs| && w.runs[r] == Reading(ch, Some(ch)) && !w.cancelled
    requires ch < |w.channels| && |w.channels[ch].queue.items| < 64 && w.channels[ch].closers == []
    ensures var w' := Apply(Apply(w, AtRun(r, if byOpcode then ReadOpClose(error) else ReadFails(error))),
                            AtRun(r, EmitTerminal));
            && |w'.runs| == |w.runs| && w'.runs[r] == Clearing(Some(ch))
            && w'.client == w.client.(state := Disconnected)
            && |w'.channels| == |w.channels|
            && w'.channels[ch].queue.log == w.channels[ch].queue.log + [Ended(error)]
            && w'.channels[ch].captors == w.channels[ch].captors && w'.channels[ch].closers == []
  {
    var read := AtRun(r, if byOpcode then ReadOpClose(error) else ReadFails(error));
    var w1 := Apply(w, read);
    assert w1 == w.(runs := w.runs[r := Ending(Some(ch), error)], client := w.client.(state := Disconnected));
    assert w1.channels == w.channels;
  }

  /**
    After any run, a session that ends without a cancellation, by a failed read or by the close opcode, with
    room in its channel: its last event carries the error, Events() returns nothing, the channel is closed by
    its own Run, and the client shows disconnected.
   */
  lemma SessionEndsWithError(
    online: bool, cfg: Config, before: seq<Step>, r: nat, error: int, byOpcode: bool)
    requires var w := Exec(Begin(online, cfg), before);
             && r < |w.runs| && w.runs[r].Reading? && !w.cancelled
             && w.channels != [] && |w.channels[|w.channels| - 1].queue.items| < 64
    ensures var w := Exec(Begin(online, cfg), before);
            var ch := |w.channels| - 1;
            var w2 := Apply(Apply(w, AtRun(r, if byOpcode then ReadOpClose(error) else ReadFails(error))),
                            AtRun(r, EmitTerminal));
            var w' := Apply(Apply(w2, AtRun(r, Proceed)), AtRun(r, Proceed));
            && |w'.runs| == |w.runs| && w'.runs[r].Finished?
            && w'.client.state.Disconnected? && w'.client.events == None
            && |w'.channels| == |w.channels|
            && w'.channels[ch].queue.log == w.channels[ch].queue.log + [Ended(error)]
            && w'.channels[ch].closers == [r]
  {
    BeginKeepsSession(online, cfg);
    ExecKeepsSession(Begin(online, cfg), before);
    var w := Exec(Begin(online, cfg), before);
    ReadingOwns(w, r);
    hide Begin, Exec, SessionInv, Apply;
    var ch := |w.channels| - 1;
    TerminalIsSent(w, r, ch, error, byOpcode);
    var w2 := Apply(Apply(w, AtRun(r, if byOpcode then ReadOpClose(error) else ReadFails(error))),
                    AtRun(r, EmitTerminal));
    RunCleansUp(w2, r, ch);
  }

  lemma CancelledReadSkips(w: World, r: nat, ch: nat, error: int)
    requires r < |w.runs| && w.runs[r] == Reading(ch, Some(ch)) && w.cancelled && ch < |w.channels|
    ensures var w' := Apply(w, AtRun(r, ReadFails(error)));
            && |w'.runs| == |w.runs| && w'.runs[r] == Clearing(Some(ch)) && w'.client == w.client
            && |w'.channels| == |w.channels|
            && w'.channels[ch] == w.channels[ch].(aborted := true)
  {
    hide RoomIn, SendsOnClosed;
  }

  /** After a cancellation a failed read ends the session without an event, and without a change of state. */
  lemma CancelledSessionEndsSilently(online: bool, cfg: Config, before: seq<Step>, r: nat, error: int)
    requires var w := Exec(Begin(online, cfg), before); r < |w.runs| && w.runs[r].Reading? && w.cancelled
    ensures var w := Exec(Begin(online, cfg), before);
            var ch := |w.channels| - 1;
            var w' := Apply(Apply(Apply(w, AtRun(r, ReadFails(error))), AtRun(r, Proceed)), AtRun(r, Proceed));
            && |w'.runs| == |w.runs| && w'.runs[r].Finished?
            && w'.client.state == w.client.state && w'.client.events == None
            && ch >= 0 && |w'.channels| == |w.channels|
            && w'.channels[ch].queue == w.channels[ch].queue && w'.channels[ch].closers == [r]
  {
    BeginKeepsSession(online, cfg);
    ExecKeepsSession(Begin(online, cfg), before);
    var w := Exec(Begin(online, cfg), before);
    ReadingOwns(w, r);
    hide Begin, Exec, SessionInv, Apply;
    var ch := |w.channels| - 1;
    CancelledReadSkips(w, r, ch, error);
    RunCleansUp(Apply(w, AtRun(r, ReadFails(error))), r, ch);
  }

  /** The steps that still separate a Run from its end once its read fails. */
  function RunDistance(pc: RunPc): nat {
    match pc
    case Spawned => 5
    case HasConn(_) => 4
    case Ponging(_, _, _) => 4
    case Reading(_, _) => 3
    case Ending(_, _) => 3
    case Clearing(_) => 2
    case Closing(_) => 1
    case Finished(_) => 0
  }

  function EndingStep(pc: RunPc): RunAction {
    match pc
    case Reading(_, _) => ReadFails(0)
    case Ending(_, _) => AbandonTerminal
    case _ => Proceed
  }

  lemma EndingStepNears(w: World, r: nat)
    requires r < |w.runs| && w.cancelled && !w.runs[r].Finished?
    ensures var w' := Apply(w, AtRun(r, EndingStep(w.runs[r])));
            |w'.runs| == |w.runs| && w'.cancelled && RunDistance(w'.runs[r]) < RunDistance(w.runs[r])
  {
    hide RoomIn, SendsOnClosed, OnChannel, Ponged, ClientAfter;
  }

  /**
    Once the context is cancelled no Run is stuck, not even with its terminal event before a full channel:
    wherever it is, at most five of its own steps, a failed read among them, finish it.
   */
  lemma {:induction false} CancelledRunFinishes(w: World, r: nat) returns (steps: seq<Step>)
    requires r < |w.runs| && w.cancelled
    ensures |steps| <= RunDistance(w.runs[r]) <= 5
    ensures forall k :: 0 <= k < |steps| ==> steps[k].AtRun? && steps[k].run == r
    ensures |Exec(w, steps).runs| == |w.runs| && Exec(w, steps).runs[r].Finished?
    decreases RunDistance(w.runs[r])
  {
    hide Apply;
    if w.runs[r].Finished? {
      steps := [];
    } else {
      var step := AtRun(r, EndingStep(w.runs[r]));
      EndingStepNears(w, r);
      var rest := CancelledRunFinishes(Apply(w, step), r);
      steps := [step] + rest;
      assert steps[1..] == rest;
    }
  }

  // ---------- The subscriber ----------

  function Takes(ch: nat, n: nat): seq<Step> {
    if n == 0 then [] else [Take(ch)] + Takes(ch, n - 1)
  }

  lemma TakeTakesHead(w: World, ch: nat)
    requires ch < |w.channels| && w.channels[ch].queue.items != []
    ensures var (q, w') := (w.channels[ch].queue, Apply(w, Take(ch)));
            && |w'.channels| == |w.channels|
            && w'.channels[ch].queue == Queue(q.items[1..], q.taken + [q.items[0]], q.log)
  {
  }

  /** As many receives as there are events queued get them all, in order, whether the channel is closed or not. */
  lemma {:induction false} TakesDrain(w: World, ch: nat)
    requires ch < |w.channels|
    ensures var q := w.channels[ch].queue;
            var w' := Exec(w, Takes(ch, |q.items|));
            |w'.channels| == |w.channels| && w'.channels[ch].queue == Queue([], q.taken + q.items, q.log)
    decreases |w.channels[ch].queue.items|
  {
    hide Apply;
    var items := w.channels[ch].queue.items;
    if items != [] {
      TakeTakesHead(w, ch);
      TakesDrain(Apply(w, Take(ch)), ch);
      assert Takes(ch, |items|)[1..] == Takes(ch, |items| - 1);
      assert items == [items[0]] + items[1..];
    }
  }

  /** A Close by someone else shows disconnected if there was a connection; it ends no Run by itself. */
  lemma CloseShows(w: World)
    ensures var w' := Apply(w, CloseClient);
            && w' == w.(client := w'.client)
            && w'.client == w.client.(state := if w.client.ipcConn.Some? then Disconnected else w.client.state)
  {
  }
}
