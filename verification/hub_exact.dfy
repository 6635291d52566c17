/** Exactly when closing all clients can make a reply or a registration go wrong. */
module HubExact {
  import opened BoundedQueues
  import opened HubRuns
  import opened HubShutdown

  // ---------- Replies on closed channels ----------

  /** A client whose channel is closed while its read pump runs or is still to start. */
  predicate Exposed(c: Conn) {
    c.client.sendCloses > 0 && (c.reader.Unborn? || c.reader.Reading?)
  }

  /** Nobody can reply on a closed channel. */
  predicate RepliesSafe(w: World) {
    !w.badReply && forall id :: 0 <= id < |w.conns| ==> !Exposed(w.conns[id])
  }

  lemma LocalKeepsSafe(c: Conn, action: Action, selecting: bool, done: bool)
    requires !Exposed(c) && Goroutines(c)
    ensures var (c', e) := Local(c, action, selecting, done); !Exposed(c') && !e.SendsReplyOnClosed?
  {
    hide Offered, Took;
  }

  lemma EffectKeepsSafe(w: World, id: nat, c: Conn, e: Effect)
    requires RepliesSafe(w) && id < |w.conns| && !Exposed(c) && !e.SendsReplyOnClosed?
    ensures RepliesSafe(Effected(SetConn(w, id, c), id, e))
  {
    hide Effected, Exposed;
    EffectedFrame(SetConn(w, id, c), id, e);
  }

  lemma ConnStepKeepsSafe(w: World, id: nat, action: Action)
    requires LifeInv(w) && RepliesSafe(w) && id < |w.conns|
    ensures RepliesSafe(ConnStep(w, id, action))
  {
    hide LifeInv, Local, Effected, Exposed, Goroutines, ConnInv, Channels;
    LifeOf(w, id);
    LocalKeepsSafe(w.conns[id], action, w.loop.Selecting?, w.doneCloses > 0);
    var (c, e) := Local(w.conns[id], action, w.loop.Selecting?, w.doneCloses > 0);
    EffectKeepsSafe(w, id, c, e);
  }

  /** Apart from closeAllClients only the unregister branch closes a channel, and its read pump is gone. */
  lemma HubStepCloses(w: World, action: HubAction, id: nat)
    requires LifeInv(w) && id < |w.conns| && !action.CloseAll? && !action.CloseAllInLoop?
    ensures var w' := HubStep(w, action);
            && |w'.conns| == |w.conns| && w'.badReply == w.badReply
            && w'.conns[id].reader == w.conns[id].reader
            && (w'.conns[id].client.sendCloses == w.conns[id].client.sendCloses || w.conns[id].reader.Gone?)
  {
    assert ConnInv(w, id);
    match action {
      case FinishAdd => AddFrame(w, id); hide LifeInv, ConnInv;
      case FinishRemove => hide LifeInv;
      case Dispatch =>
        if w.mail.inbox != [] {
          DispatchedCloses(w, id);
        }
        hide Dispatched, LifeInv, ConnInv;
      case _ => hide LifeInv, ConnInv;
    }
  }

  lemma DispatchedCloses(w: World, id: nat)
    requires id < |w.conns| && w.mail.inbox != []
    ensures var w' := Dispatched(w);
            && |w'.conns| == |w.conns| && w'.badReply == w.badReply
            && w'.conns[id].reader == w.conns[id].reader
            && w'.conns[id].client.sendCloses == w.conns[id].client.sendCloses
  {
    hide SendsOnClosed, MailDispatched, Head, Offered;
  }

  lemma HubStepKeepsSafe(w: World, action: HubAction)
    requires LifeInv(w) && RepliesSafe(w) && !action.CloseAll? && !action.CloseAllInLoop?
    ensures RepliesSafe(HubStep(w, action))
  {
    hide LifeInv, HubStep;
    var w' := HubStep(w, action);
    HubStepKeepsLength(w, action);
    HubStepKeepsFault(w, action);
    forall id | 0 <= id < |w'.conns| ensures !Exposed(w'.conns[id]) {
      HubStepCloses(w, action, id);
      assert !Exposed(w.conns[id]);
    }
  }

  lemma HubStepKeepsFault(w: World, action: HubAction)
    ensures HubStep(w, action).badReply == w.badReply
  {
    hide SendsOnClosed, MailDispatched, MailPosted, Head, DispatchTo, CloseMembers;
  }

  lemma ArrivalKeepsSafe(w: World)
    requires RepliesSafe(w)
    ensures RepliesSafe(Arrived(w))
  {
  }

  lemma {:induction false} SafeRun(w: World, steps: seq<Step>)
    requires LifeInv(w) && RepliesSafe(w) && NeverClosesAll(steps)
    ensures !Exec(w, steps).badReply
    decreases |steps|
  {
    hide LifeInv, ConnStep, HubStep, Arrived;
    if steps != [] {
      var step := steps[0];
      assert step in steps;
      assert forall s :: s in steps[1..] ==> s in steps;
      StepKeepsLife(w, step);
      match step {
        case Arrive => ArrivalKeepsSafe(w);
        case At(id, action) => if id < |w.conns| { ConnStepKeepsSafe(w, id, action); }
        case AtHub(action) => HubStepKeepsSafe(w, action);
      }
      hide RepliesSafe, Apply;
      SafeRun(Apply(w, step), steps[1..]);
    }
  }

  lemma ExecOne(w: World, step: Step)
    ensures Exec(w, [step]) == Apply(w, step)
  {
    hide Apply;
    assert [step][1..] == [];
  }

  /** An exposed client can send a reply, once its read pump runs. */
  lemma ExposedReplies(w: World, id: nat) returns (steps: seq<Step>)
    requires LifeInv(w) && id < |w.conns| && Exposed(w.conns[id])
    ensures NeverClosesAll(steps) && Exec(w, steps).badReply
  {
    var reply := At(id, SendReply(0));
    assert ConnInv(w, id);
    if w.conns[id].reader.Reading? {
      steps := [reply];
      ExecOne(w, reply);
    } else {
      steps := [At(id, Spawn), reply];
      ExecTwo(w, At(id, Spawn), reply);
      SpawnReads(w, id);
    }
  }

  lemma SpawnReads(w: World, id: nat)
    requires LifeInv(w) && id < |w.conns| && Exposed(w.conns[id]) && w.conns[id].reader.Unborn?
    ensures var w' := Apply(w, At(id, Spawn));
            id < |w'.conns| && w'.conns[id].reader.Reading? && w'.conns[id].client == w.conns[id].client
  {
    assert ConnInv(w, id);
    assert w.conns[id].handler.Spawning?;
  }

  /**
    After any run without such a fault, a reply can come to be sent on a closed channel, with no further
    closeAllClients, if and only if a client's channel is closed while its read pump runs or is still to
    start.
   */
  lemma RepliesFailExactly(clientId: string, maxConn: int, before: seq<Step>)
    requires !Exec(Begin(clientId, maxConn), before).badReply
    ensures var w := Exec(Begin(clientId, maxConn), before);
            (exists steps :: NeverClosesAll(steps) && Exec(w, steps).badReply) <==>
            exists id :: 0 <= id < |w.conns| && Exposed(w.conns[id])
  {
    BeginKeepsLife(clientId, maxConn);
    RunKeepsLife(Begin(clientId, maxConn), before);
    var w := Exec(Begin(clientId, maxConn), before);
    hide Exec, Begin, LifeInv, Exposed, NeverClosesAll;
    if id :| 0 <= id < |w.conns| && Exposed(w.conns[id]) {
      var steps := ExposedReplies(w, id);
    } else {
      forall steps | NeverClosesAll(steps) ensures !Exec(w, steps).badReply {
        SafeRun(w, steps);
      }
    }
  }

  /** What closeAllClients exposes: every client that has joined and whose read pump has not ended. */
  lemma CloseAllExposes(w: World, id: nat)
    requires LifeInv(w) && id < |w.conns|
    ensures var w' := Apply(w, AtHub(CloseAll));
            && |w'.conns| == |w.conns| && w'.badReply == w.badReply
            && (Exposed(w'.conns[id]) <==>
                  w.conns[id].joined && (w.conns[id].reader.Unborn? || w.conns[id].reader.Reading?))
  {
    assert ConnInv(w, id);
    hide CloseMembers, LifeInv, ConnInv;
  }

  /**
    So a Hub.Close can make a reply fail if and only if, when it closes all clients, some client has
    joined whose read pump runs or is still to start.
   */
  lemma CloseAllFailsRepliesExactly(clientId: string, maxConn: int, before: seq<Step>)
    requires !Exec(Begin(clientId, maxConn), before).badReply
    ensures var w := Exec(Begin(clientId, maxConn), before);
            (exists steps :: NeverClosesAll(steps) && Exec(Apply(w, AtHub(CloseAll)), steps).badReply) <==>
            exists id :: 0 <= id < |w.conns| && w.conns[id].joined
                         && (w.conns[id].reader.Unborn? || w.conns[id].reader.Reading?)
  {
    var begin := Begin(clientId, maxConn);
    var w := Exec(begin, before);
    BeginKeepsLife(clientId, maxConn);
    RunKeepsLife(begin, before);
    ExecConcat(begin, before, [AtHub(CloseAll)]);
    ExecOne(w, AtHub(CloseAll));
    var w' := Apply(w, AtHub(CloseAll));
    hide Exec, Begin, LifeInv, Apply, NeverClosesAll;
    HubCloseKeepsConns(w);
    forall id | 0 <= id < |w.conns|
      ensures Exposed(w'.conns[id]) <==>
              w.conns[id].joined && (w.conns[id].reader.Unborn? || w.conns[id].reader.Reading?)
    {
      CloseAllExposes(w, id);
    }
    hide Exposed;
    RepliesFailExactly(clientId, maxConn, before + [AtHub(CloseAll)]);
  }

  lemma HubCloseKeepsConns(w: World)
    ensures var w' := Apply(w, AtHub(CloseAll)); |w'.conns| == |w.conns| && w'.badReply == w.badReply
  {
    hide CloseMembers;
  }

  // ---------- Clients added while the hub closes ----------

  /** The loop has left its select for good. */
  predicate OnWayOut(loop: Loop) {
    loop.ClosingAll? || loop.ClosingDone? || loop.Exited?
  }

  lemma WayOutStep(w: World, step: Step)
    requires OnWayOut(w.loop)
    ensures OnWayOut(Apply(w, step).loop) && Apply(w, step).members <= w.members
  {
    hide CloseMembers, Dispatched, MailPosted, Local, Effected;
    if step.At? && step.id < |w.conns| {
      var (c, e) := Local(w.conns[step.id], step.action, w.loop.Selecting?, w.doneCloses > 0);
      EffectedFrame(SetConn(w, step.id, c), step.id, e);
      EntersNothing(w.conns[step.id], step.action, w.doneCloses > 0);
    }
  }

  /** Once the loop is on its way out, an empty map stays empty. */
  lemma {:induction false} WayOutStaysEmpty(w: World, steps: seq<Step>)
    requires OnWayOut(w.loop) && w.members == {}
    ensures Exec(w, steps).members == {}
    decreases |steps|
  {
    hide Apply, OnWayOut;
    if steps != [] {
      WayOutStep(w, steps[0]);
      WayOutStaysEmpty(Apply(w, steps[0]), steps[1..]);
    }
  }

  /** What the loop finishes before it is back in its select. */
  function Unfinished(loop: Loop): seq<Step> {
    if loop.Adding? then [AtHub(FinishAdd)] else if loop.Removing? then [AtHub(FinishRemove)] else []
  }

  lemma FinishesBranch(w: World, id: nat)
    requires LifeInv(w) && id < |w.conns| && w.conns[id].handler.Registering? && !OnWayOut(w.loop) && w.closers > 0
    ensures var w' := Exec(w, Unfinished(w.loop));
            && w'.loop.Selecting? && w'.closers > 0 && w'.doneCloses == w.doneCloses
            && id < |w'.conns| && w'.conns[id].handler.Registering?
  {
    assert ConnInv(w, id);
    if w.loop.Adding? {
      ExecOne(w, AtHub(FinishAdd));
      AddFrame(w, id);
    } else if w.loop.Removing? {
      ExecOne(w, AtHub(FinishRemove));
      RemoveFrame(w, id);
    }
  }

  /** The loop takes the client, Hub.Close ends, and the loop with it. */
  function Overtaken(id: nat): seq<Step> {
    [At(id, RegisterAccepted)]
    + ([AtHub(FinishAdd), AtHub(CloseDone)] + [AtHub(SeeDone), AtHub(CloseDoneInLoop)])
  }

  lemma OvertakenIsAdded(w: World, id: nat)
    requires id < |w.conns| && w.conns[id].handler.Registering? && w.loop.Selecting?
    requires w.closers > 0 && w.doneCloses <= 1
    ensures var w' := Exec(w, Overtaken(id)); w'.loop.Exited? && id in w'.members
  {
    var w1 := Apply(w, At(id, RegisterAccepted));
    assert w1.loop == Adding(id) && w1.closers > 0 && w1.doneCloses <= 1 && |w1.conns| == |w.conns|;
    AddAndFinish(w1, id);
    hide Apply;
    ExecConcat(w, [At(id, RegisterAccepted)],
               [AtHub(FinishAdd), AtHub(CloseDone)] + [AtHub(SeeDone), AtHub(CloseDoneInLoop)]);
    ExecOne(w, At(id, RegisterAccepted));
    ExecConcat(w1, [AtHub(FinishAdd), AtHub(CloseDone)], [AtHub(SeeDone), AtHub(CloseDoneInLoop)]);
    ExecTwo(w1, AtHub(FinishAdd), AtHub(CloseDone));
    ExecTwo(Apply(Apply(w1, AtHub(FinishAdd)), AtHub(CloseDone)), AtHub(SeeDone), AtHub(CloseDoneInLoop));
  }

  lemma CloseAllKeepsLoop(w: World, id: nat)
    requires LifeInv(w) && id < |w.conns| && w.conns[id].handler.Registering?
    ensures var w' := Apply(w, AtHub(CloseAll));
            && LifeInv(w') && w'.loop == w.loop && w'.members == {} && w'.closers > 0
            && w'.doneCloses == w.doneCloses <= 1
            && id < |w'.conns| && w'.conns[id].handler.Registering?
  {
    StepKeepsLife(w, AtHub(CloseAll));
    DoneAtMostOnce(w);
    hide LifeInv;
  }

  /**
    After any run, a client about to be registered can end up in the map of a finished hub although a
    Hub.Close has emptied that map, and no other one has begun since, if and only if the loop had not left
    its select for good when that Hub.Close emptied it.
   */
  lemma AddedWhileClosingExactly(clientId: string, maxConn: int, before: seq<Step>, id: nat)
    requires var w := Exec(Begin(clientId, maxConn), before); id < |w.conns| && w.conns[id].handler.Registering?
    ensures var w := Exec(Begin(clientId, maxConn), before);
            var possible := exists steps :: AtHub(CloseAll) !in steps
                                            && LeftBehind(Exec(Apply(w, AtHub(CloseAll)), steps), id);
            possible <==> w.loop.Selecting? || w.loop.Adding? || w.loop.Removing?
  {
    BeginKeepsLife(clientId, maxConn);
    RunKeepsLife(Begin(clientId, maxConn), before);
    var w := Exec(Begin(clientId, maxConn), before);
    hide Begin, LifeInv, Apply, Exec;
    CloseAllKeepsLoop(w, id);
    var w' := Apply(w, AtHub(CloseAll));
    if OnWayOut(w.loop) {
      forall steps ensures !LeftBehind(Exec(w', steps), id) {
        WayOutStaysEmpty(w', steps);
      }
    } else {
      FinishesBranch(w', id);
      OvertakenIsAdded(Exec(w', Unfinished(w.loop)), id);
      ExecConcat(w', Unfinished(w.loop), Overtaken(id));
      assert AtHub(CloseAll) !in Unfinished(w.loop) + Overtaken(id);
      assert LeftBehind(Exec(w', Unfinished(w.loop) + Overtaken(id)), id);
    }
  }

  /** The hub's loop is gone and the client is in its map. */
  predicate LeftBehind(w: World, id: nat) {
    w.loop.Exited? && id in w.members
  }
}
