/** What shutting the hub down can leave behind. */
module HubShutdown {
  import opened BoundedQueues
  import opened Hubs
  import opened ConnectionTrackers
  import opened HubRuns
  import opened HubSlots

  // ---------- A registration lost to shutdown ----------

  /** The handler's Register returned because the hub was done, not because the hub took the client. */
  predicate LostRegistration(w: World, id: nat) {
    && id < |w.conns|
    && (w.conns[id].handler.Spawning? || w.conns[id].handler.Returned?)
    && !w.conns[id].joined
    && w.loop != Adding(id)
  }

  lemma LosingRegistration(w: World, id: nat)
    requires LifeInv(w) && id < |w.conns| && w.conns[id].handler.Registering? && w.doneCloses > 0
    ensures LostRegistration(Apply(w, At(id, RegisterLost)), id)
  {
    assert ConnInv(w, id);
  }

  lemma LostStaysLost(w: World, step: Step, id: nat)
    requires LifeInv(w) && LostRegistration(w, id)
    ensures LostRegistration(Apply(w, step), id)
  {
    hide Offered, Took, Removed, Added;
    assert ConnInv(w, id);
    match step {
      case Arrive =>
      case At(other, action) =>
        if other < |w.conns| {
          var (c, e) := Local(w.conns[other], action, w.loop.Selecting?, w.doneCloses > 0);
          EffectedFrame(SetConn(w, other, c), other, e);
        }
      case AtHub(action) =>
        HubStepFrame(w, action, id);
        hide HubStep;
    }
  }

  /** Such a client's Done never closes, so its watcher never releases the slot, whatever happens later. */
  lemma {:induction false} LostRegistrationLeaks(w: World, steps: seq<Step>, id: nat)
    requires LifeInv(w) && LostRegistration(w, id)
    ensures var w' := Exec(w, steps);
            && LostRegistration(w', id)
            && w'.conns[id].client.doneCloses == 0
            && !w'.conns[id].watcher.Released?
    decreases |steps|
  {
    if steps == [] {
      assert ConnInv(w, id);
    } else {
      StepKeepsLife(w, steps[0]);
      LostStaysLost(w, steps[0], id);
      LostRegistrationLeaks(Apply(w, steps[0]), steps[1..], id);
    }
  }

  /** No handler is under way, the loop is not adding a client, and no watcher has a release to make. */
  predicate AtRest(w: World) {
    && !w.loop.Adding?
    && forall id :: 0 <= id < |w.conns| ==>
         var c := w.conns[id];
         && !c.handler.Reserved? && !c.handler.Registering? && !c.handler.Spawning?
         && (c.watcher.Watching? ==> c.client.doneCloses == 0)
  }

  ghost function LostIds(w: World): set<nat> {
    set id: nat | id < |w.conns| && LostRegistration(w, id)
  }

  lemma SlotOwnersAtRest(w: World, id: nat)
    requires LifeInv(w) && AtRest(w) && id < |w.conns|
    ensures OwnsSlot(w.conns[id]) <==> id in w.members + LostIds(w)
    ensures id in w.members ==> id !in LostIds(w)
  {
    assert ConnInv(w, id);
  }

  /**
    Exact accounting, running or finished hub: at rest the count is the number of clients in the map plus
    the number of lost registrations, so it is the map's size if and only if none was lost.
   */
  lemma CountAtRest(clientId: string, maxConn: int, steps: seq<Step>)
    ensures var w := Exec(Begin(clientId, maxConn), steps);
            AtRest(w) ==>
              && w.slots.count == |w.members| + |LostIds(w)|
              && (w.slots.count == |w.members| <==> forall id: nat :: !LostRegistration(w, id))
  {
    BeginKeepsLife(clientId, maxConn);
    RunKeepsSlots(Begin(clientId, maxConn), steps);
    RunKeepsLife(Begin(clientId, maxConn), steps);
    var w := Exec(Begin(clientId, maxConn), steps);
    hide Exec, Begin;
    if AtRest(w) {
      RestingCount(w);
    }
  }

  lemma RestingCount(w: World)
    requires LifeInv(w) && AtRest(w) && SlotInv(w)
    ensures w.slots.count == |w.members| + |LostIds(w)|
    ensures w.slots.count == |w.members| <==> forall id: nat :: !LostRegistration(w, id)
  {
    var lost := LostIds(w);
    forall id | 0 <= id < |w.conns|
      ensures OwnsSlot(w.conns[id]) <==> id in w.members + lost
      ensures id in w.members ==> id !in lost
    {
      SlotOwnersAtRest(w, id);
    }
    hide OwnsSlot, AtRest, ConnInv;
    CountIsCardinality(w.conns, w.members + lost);
    assert w.members !! lost;
    assert |w.members + lost| == |w.members| + |lost|;
    hide LostRegistration;
    if |lost| == 0 {
      assert forall id: nat :: LostRegistration(w, id) ==> id in lost by {
        LostIsListed(w);
      }
    } else {
      var id :| id in lost;
    }
  }

  lemma LostIsListed(w: World)
    ensures forall id: nat :: LostRegistration(w, id) ==> id in LostIds(w)
  {
  }

  // ---------- Runs that get there ----------

  lemma {:induction false} ExecConcat(w: World, a: seq<Step>, b: seq<Step>)
    ensures Exec(w, a + b) == Exec(Exec(w, a), b)
    decreases |a|
  {
    hide Apply;
    if a == [] {
      assert a + b == b;
    } else {
      assert (a + b)[1..] == a[1..] + b;
      ExecConcat(Apply(w, a[0]), a[1..], b);
    }
  }

  lemma ExecTwo(w: World, first: Step, second: Step)
    ensures Exec(w, [first, second]) == Apply(Apply(w, first), second)
  {
    hide Apply;
    assert [first, second][1..] == [second];
    assert Exec(Apply(w, first), [second]) == Exec(Apply(Apply(w, first), second), [second][1..]);
    assert [second][1..] == [];
  }

  const UPGRADED := [Arrive, At(0, UpgradeSucceeds)]

  /** The first connection of a hub, about to be registered. */
  lemma FirstUpgrade(clientId: string, maxConn: int)
    requires maxConn > 0
    ensures var w := Exec(Begin(clientId, maxConn), UPGRADED);
            && w.conns == [REFUSED.(handler := Registering)]
            && w == Begin(clientId, maxConn).(conns := w.conns, slots := w.slots)
  {
    ExecTwo(Begin(clientId, maxConn), Arrive, At(0, UpgradeSucceeds));
    var w1 := Apply(Begin(clientId, maxConn), Arrive);
    assert w1.conns == [REFUSED.(handler := Reserved)];
  }

  lemma HubCloses(w: World)
    requires w.members == {} && w.doneCloses == 0 && w.closers == 0
    ensures Exec(w, [AtHub(CloseAll), AtHub(CloseDone)]) == w.(closedAll := true, doneCloses := 1)
  {
    ExecTwo(w, AtHub(CloseAll), AtHub(CloseDone));
    var w1 := Apply(w, AtHub(CloseAll));
    assert CloseMembers(w.conns, w.members) == w.conns;
    assert w1 == w.(closedAll := true, closers := 1);
  }

  /** A run in which a registration is lost to Hub.Close. */
  lemma ARegistrationIsLost(clientId: string, maxConn: int)
    requires maxConn > 0
    ensures var steps := UPGRADED + [AtHub(CloseAll), AtHub(CloseDone)] + [At(0, RegisterLost)];
            LostRegistration(Exec(Begin(clientId, maxConn), steps), 0)
  {
    var begin := Begin(clientId, maxConn);
    var closing := [AtHub(CloseAll), AtHub(CloseDone)];
    FirstUpgrade(clientId, maxConn);
    var w := Exec(begin, UPGRADED);
    HubCloses(w);
    ExecConcat(begin, UPGRADED, closing);
    ExecConcat(begin, UPGRADED + closing, [At(0, RegisterLost)]);
    RunKeepsLife(begin, UPGRADED + closing);
    var w' := Exec(begin, UPGRADED + closing);
    LosingRegistration(w', 0);
    assert [At(0, RegisterLost)][1..] == [];
    hide Apply;
    assert Exec(w', [At(0, RegisterLost)]) == Exec(Apply(w', At(0, RegisterLost)), []);
  }

  /** A run in which a client is added while Hub.Close is between its halves. */
  lemma AClientIsAddedWhileClosing(clientId: string, maxConn: int)
    requires maxConn > 0
    ensures var w := Exec(Begin(clientId, maxConn), UPGRADED + AddedBetween(0));
            w.loop.Exited? && w.doneCloses == 1 && 0 in w.members && w.conns != [] && w.conns[0].client.doneCloses == 0
  {
    var begin := Begin(clientId, maxConn);
    FirstUpgrade(clientId, maxConn);
    RunKeepsLife(begin, UPGRADED);
    ExecConcat(begin, UPGRADED, AddedBetween(0));
    AddedWhileClosing(Exec(begin, UPGRADED), 0);
  }

  const SERVED := [At(0, RegisterAccepted), AtHub(FinishAdd)]

  lemma FirstServed(w: World)
    requires w.conns == [REFUSED.(handler := Registering)] && w.members == {} && w.loop.Selecting?
    ensures var w' := Exec(w, SERVED);
            w' == w.(conns := [REFUSED.(handler := Handler.Spawning, joined := true)], members := {0})
  {
    ExecTwo(w, At(0, RegisterAccepted), AtHub(FinishAdd));
    var w1 := Apply(w, At(0, RegisterAccepted));
    assert w1 == w.(conns := [REFUSED.(handler := Handler.Spawning)], loop := Adding(0));
  }

  /** A run in which a reply is sent on a channel that Hub.Close has closed. */
  lemma AReplyMeetsAClosedChannel(clientId: string, maxConn: int, payload: int)
    requires maxConn > 0
    ensures var steps := UPGRADED + SERVED + [At(0, Spawn)] + [AtHub(CloseAll), At(0, SendReply(payload))];
            Exec(Begin(clientId, maxConn), steps).badReply
  {
    var begin := Begin(clientId, maxConn);
    var last := [AtHub(CloseAll), At(0, SendReply(payload))];
    FirstUpgrade(clientId, maxConn);
    FirstServed(Exec(begin, UPGRADED));
    ExecConcat(begin, UPGRADED, SERVED);
    var w := Exec(begin, UPGRADED + SERVED);
    ExecConcat(begin, UPGRADED + SERVED, [At(0, Spawn)]);
    assert [At(0, Spawn)][1..] == [];
    var w' := Apply(w, At(0, Spawn));
    assert Exec(w, [At(0, Spawn)]) == Exec(w', []);
    assert 0 in w'.members && w'.conns[0].reader.Reading?;
    RunKeepsLife(begin, UPGRADED + SERVED + [At(0, Spawn)]);
    ExecConcat(begin, UPGRADED + SERVED + [At(0, Spawn)], last);
    ExecTwo(w', AtHub(CloseAll), At(0, SendReply(payload)));
    ReplyAfterCloseAll(w', 0, payload);
  }

  // ---------- A client added while the hub closes ----------

  lemma HubStepMembers(w: World, action: HubAction)
    ensures !action.FinishAdd? ==> HubStep(w, action).members <= w.members
  {
    hide CloseMembers, DispatchTo, SendsOnClosed, MailDispatched, MailPosted, Head, AddFinished;
  }

  /** Only the end of a register branch puts a client in the map. */
  lemma OnlyAddingGrows(w: World, step: Step)
    ensures step != AtHub(FinishAdd) ==> Apply(w, step).members <= w.members
  {
    hide HubStep, Local, Effected, Added;
    if step.AtHub? {
      HubStepMembers(w, step.hubAction);
    } else if step.At? && step.id < |w.conns| {
      var (c, e) := Local(w.conns[step.id], step.action, w.loop.Selecting?, w.doneCloses > 0);
      EffectedFrame(SetConn(w, step.id, c), step.id, e);
    }
  }

  lemma {:induction false} EmptyStaysEmpty(w: World, steps: seq<Step>)
    requires w.members == {} && AtHub(FinishAdd) !in steps
    ensures Exec(w, steps).members == {}
    decreases |steps|
  {
    hide Apply;
    if steps != [] {
      OnlyAddingGrows(w, steps[0]);
      EmptyStaysEmpty(Apply(w, steps[0]), steps[1..]);
    }
  }

  /** After closeAllClients the map stays empty for as long as no register branch ends. */
  lemma ClosedHubIsEmpty(w: World, steps: seq<Step>)
    requires AtHub(FinishAdd) !in steps
    ensures Exec(Apply(w, AtHub(CloseAll)), steps).members == {}
  {
    hide Exec;
    EmptyStaysEmpty(Apply(w, AtHub(CloseAll)), steps);
  }

  /** The rest of a Hub.Close during which the loop takes one more client. */
  function AddedBetween(id: nat): seq<Step> {
    [AtHub(CloseAll), At(id, RegisterAccepted), AtHub(FinishAdd),
     AtHub(CloseDone), AtHub(SeeDone), AtHub(CloseDoneInLoop)]
  }

  lemma ExecSix(w: World, steps: seq<Step>)
    requires |steps| == 6
    ensures Exec(w, steps)
         == Apply(Apply(Apply(Apply(Apply(Apply(w, steps[0]), steps[1]), steps[2]), steps[3]), steps[4]), steps[5])
  {
    hide Apply;
    var w1 := Apply(w, steps[0]);
    var w2 := Apply(w1, steps[1]);
    var w3 := Apply(w2, steps[2]);
    var w4 := Apply(w3, steps[3]);
    var w5 := Apply(w4, steps[4]);
    assert Exec(w, steps) == Exec(w1, steps[1..]);
    assert Exec(w1, steps[1..]) == Exec(w2, steps[1..][1..]);
    assert Exec(w2, steps[2..]) == Exec(w3, steps[2..][1..]);
    assert Exec(w3, steps[3..]) == Exec(w4, steps[3..][1..]);
    assert Exec(w4, steps[4..]) == Exec(w5, steps[4..][1..]);
    assert Exec(w5, steps[5..]) == Exec(Apply(w5, steps[5]), steps[5..][1..]);
    assert steps[5..][1..] == [];
  }

  /** The first half of Hub.Close, and the loop takes the client. */
  lemma AcceptedAfterCloseAll(w: World, id: nat)
    requires LifeInv(w) && id < |w.conns| && w.conns[id].handler.Registering? && w.loop.Selecting?
    ensures var w2 := Apply(Apply(w, AtHub(CloseAll)), At(id, RegisterAccepted));
            && w2.loop == Adding(id) && id < |w2.conns| && w2.conns[id].client == w.conns[id].client
            && w2.closers > 0 && w2.doneCloses <= 1
  {
    assert ConnInv(w, id);
    DoneAtMostOnce(w);
    hide CloseMembers, LifeInv, ConnInv;
    var w1 := Apply(w, AtHub(CloseAll));
    assert w1 == ClosedAll(w).(closers := w.closers + 1);
    assert w1.conns[id] == w.conns[id];
  }

  lemma RegisteringIsOpen(w: World, id: nat)
    requires LifeInv(w) && id < |w.conns| && w.conns[id].handler.Registering?
    ensures w.conns[id].client.doneCloses == 0
  {
    assert ConnInv(w, id);
  }

  /** A register that wins between the two halves of Hub.Close leaves its client in a map nobody serves. */
  lemma AddedWhileClosing(w: World, id: nat)
    requires LifeInv(w) && id < |w.conns| && w.conns[id].handler.Registering? && w.loop.Selecting?
    ensures var w' := Exec(w, AddedBetween(id));
            && w'.loop.Exited? && w'.doneCloses == 1 && id in w'.members
            && id < |w'.conns| && w'.conns[id].client.doneCloses == 0
  {
    hide Apply, Exec, LifeInv;
    ExecSix(w, AddedBetween(id));
    AcceptedAfterCloseAll(w, id);
    RegisteringIsOpen(w, id);
    AddAndFinish(Apply(Apply(w, AtHub(CloseAll)), At(id, RegisterAccepted)), id);
  }

  lemma AddAndFinish(w: World, id: nat)
    requires w.loop == Adding(id) && id < |w.conns| && w.closers > 0 && w.doneCloses <= 1
    ensures var w2 := Apply(Apply(w, AtHub(FinishAdd)), AtHub(CloseDone));
            var w' := Apply(Apply(w2, AtHub(SeeDone)), AtHub(CloseDoneInLoop));
            && w'.loop.Exited? && w'.doneCloses == 1 && id in w'.members
            && id < |w'.conns| && w'.conns[id].client == w.conns[id].client
  {
    var w1 := Apply(w, AtHub(FinishAdd));
    assert w1.loop.Selecting? && w1.closers > 0 && w1.doneCloses <= 1 && id in w1.members
           && w1.conns[id].client == w.conns[id].client;
    var w2 := Apply(w1, AtHub(CloseDone));
    assert w2 == ClosedDone(w1).(closers := w1.closers - 1);
    var w3 := Apply(w2, AtHub(SeeDone));
    assert w3 == w2.(loop := ClosingDone);
  }

  lemma ExitedStepKeepsMember(w: World, step: Step, id: nat)
    requires LifeInv(w) && w.loop.Exited? && id in w.members && step != AtHub(CloseAll)
    ensures Apply(w, step).loop.Exited? && id in Apply(w, step).members
  {
    hide CloseMembers, Dispatched, MailPosted, Added, Removed, LifeInv, Local, Effected;
    if step.At? && step.id < |w.conns| {
      var (c, e) := Local(w.conns[step.id], step.action, w.loop.Selecting?, w.doneCloses > 0);
      EffectedFrame(SetConn(w, step.id, c), step.id, e);
      EntersNothing(w.conns[step.id], step.action, w.doneCloses > 0);
    }
  }

  lemma EntersNothing(c: Conn, action: Action, done: bool)
    ensures var e := Local(c, action, false, done).1; !e.EntersAdd? && !e.EntersRemove?
  {
    hide Offered, Took, Replied;
  }

  /** It stays there, with its channels open, until another Hub.Close. */
  lemma {:induction false} StaysUntilNextClose(w: World, steps: seq<Step>, id: nat)
    requires LifeInv(w) && w.loop.Exited? && id in w.members && AtHub(CloseAll) !in steps
    ensures var w' := Exec(w, steps);
            && id in w'.members && id < |w'.conns|
            && w'.conns[id].client.sendCloses == w'.conns[id].client.doneCloses == 0
    decreases |steps|
  {
    hide Apply;
    if steps == [] {
      assert ConnInv(w, id);
    } else {
      hide LifeInv;
      ExitedStepKeepsMember(w, steps[0], id);
      StepKeepsLife(w, steps[0]);
      StaysUntilNextClose(Apply(w, steps[0]), steps[1..], id);
    }
  }
}
