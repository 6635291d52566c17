/** What the hub does for each connection: subscriptions, replies, writes, departure and shutdown. */
module HubService {
  import opened BoundedQueues
  import opened Hubs
  import opened HubRuns
  import opened HubSlots
  import opened HubDelivery
  import opened HubShutdown

  // ---------- Subscriptions ----------

  function EventsOf(w: World, id: nat): set<string> {
    if id < |w.conns| then w.conns[id].client.events else {}
  }

  /** The names that a step subscribes a client to: its read pump must be running. */
  function NamesIn(w: World, step: Step, id: nat): set<string> {
    if step.At? && step.id == id && step.action.Subscribe? && id < |w.conns| && w.conns[id].reader.Reading?
    then step.action.names else {}
  }

  /** Some step of the run subscribes the client to the name. */
  predicate SubscribesIn(w: World, steps: seq<Step>, id: nat, name: string)
    decreases |steps|
  {
    steps != [] && (name in NamesIn(w, steps[0], id) || SubscribesIn(Apply(w, steps[0]), steps[1..], id, name))
  }

  lemma HubStepEvents(w: World, action: HubAction, id: nat)
    ensures EventsOf(HubStep(w, action), id) == EventsOf(w, id)
  {
    HubStepKeepsLength(w, action);
    if id < |w.conns| {
      match action {
        case FinishAdd => AddFrame(w, id);
        case FinishRemove => RemovedEvents(w, id); hide RemoveFinished;
        case Dispatch =>
          if w.mail.inbox != [] {
            DispatchedEvents(w, id);
          }
          hide Dispatched;
        case _ =>
      }
    }
  }

  lemma RemovedEvents(w: World, id: nat)
    requires id < |w.conns|
    ensures var w' := RemoveFinished(w);
            |w'.conns| == |w.conns| && w'.conns[id].client.events == w.conns[id].client.events
  {
  }

  lemma DispatchedEvents(w: World, id: nat)
    requires id < |w.conns| && w.mail.inbox != []
    ensures var w' := Dispatched(w);
            |w'.conns| == |w.conns| && w'.conns[id].client.events == w.conns[id].client.events
  {
    hide SendsOnClosed, MailDispatched, Head, Offered;
  }

  lemma StepEvents(w: World, step: Step, id: nat)
    ensures EventsOf(Apply(w, step), id) == EventsOf(w, id) + NamesIn(w, step, id)
  {
    match step {
      case Arrive =>
      case At(other, action) =>
        if other < |w.conns| {
          LocalEvents(w.conns[other], action, w.loop.Selecting?, w.doneCloses > 0);
          var (c, e) := Local(w.conns[other], action, w.loop.Selecting?, w.doneCloses > 0);
          EffectedFrame(SetConn(w, other, c), other, e);
          hide Local, Effected;
        }
      case AtHub(action) =>
        HubStepEvents(w, action, id);
        hide HubStep;
    }
  }

  lemma LocalEvents(c: Conn, action: Action, selecting: bool, done: bool)
    ensures Local(c, action, selecting, done).0.client.events
         == c.client.events + if action.Subscribe? && c.reader.Reading? then action.names else {}
  {
    hide Offered, Took;
  }

  lemma {:induction false} EventsAreSubscriptions(w: World, steps: seq<Step>, id: nat, name: string)
    ensures name in EventsOf(Exec(w, steps), id) <==> name in EventsOf(w, id) || SubscribesIn(w, steps, id, name)
    decreases |steps|
  {
    hide Apply, EventsOf, NamesIn;
    if steps != [] {
      StepEvents(w, steps[0], id);
      EventsAreSubscriptions(Apply(w, steps[0]), steps[1..], id, name);
    }
  }

  /**
    After any run, the dispatch of a message enters the log of a client in the map, as its one new entry, if
    and only if the message can be encoded, fewer than 256 are queued, and an earlier message of that client
    subscribed it to the message's type.
   */
  lemma DispatchReachesSubscribers(clientId: string, maxConn: int, before: seq<Step>, id: nat)
    requires var w := Exec(Begin(clientId, maxConn), before);
             w.loop.Selecting? && w.mail.inbox != [] && id < |w.conns| && id in w.members
    ensures var begin := Begin(clientId, maxConn);
            var w := Exec(begin, before);
            var w' := Apply(w, AtHub(HubAction.Dispatch));
            var m := w.mail.inbox[0];
            var sent := if m.kind == "state" && m.clientId == "" then m.(clientId := clientId) else m;
            var reached := m.encodable && |w.conns[id].client.queue.items| < 256
                           && SubscribesIn(begin, before, id, m.kind);
            && |w'.conns| == |w.conns|
            && w'.conns[id].client.queue.log
               == w.conns[id].client.queue.log + (if reached then [Broadcast(|w.mail.dispatched|, sent)] else [])
  {
    var begin := Begin(clientId, maxConn);
    var w := Exec(begin, before);
    EventsAreSubscriptions(begin, before, id, w.mail.inbox[0].kind);
    RunKeepsHubId(begin, before);
    assert EventsOf(begin, id) == {};
    hide Exec, Begin, SubscribesIn, SendsOnClosed;
    HubStepKeepsLength(w, HubAction.Dispatch);
    DispatchLogs(w, id);
  }

  // ---------- Replies ----------

  function RepliesOf(log: seq<Item>): seq<int> {
    if log == [] then []
    else RepliesOf(log[..|log| - 1]) + if log[|log| - 1].Reply? then [log[|log| - 1].payload] else []
  }

  lemma RepliesAppend(log: seq<Item>, item: Item)
    ensures RepliesOf(log + [item]) == RepliesOf(log) + if item.Reply? then [item.payload] else []
  {
    assert (log + [item])[..|log|] == log;
  }

  /** The reply that a step sends: the pump runs, the channel is open, and fewer than 256 messages are queued. */
  function ReplyIn(w: World, step: Step, id: nat): seq<int> {
    if step.At? && step.id == id && step.action.SendReply? && id < |w.conns|
       && w.conns[id].reader.Reading? && w.conns[id].client.sendCloses == 0
       && |w.conns[id].client.queue.items| < 256
    then [step.action.payload] else []
  }

  function RepliesIn(w: World, steps: seq<Step>, id: nat): seq<int>
    decreases |steps|
  {
    if steps == [] then [] else ReplyIn(w, steps[0], id) + RepliesIn(Apply(w, steps[0]), steps[1..], id)
  }

  lemma LocalReplies(c: Conn, action: Action, selecting: bool, done: bool)
    ensures RepliesOf(Local(c, action, selecting, done).0.client.queue.log)
         == RepliesOf(c.client.queue.log)
            + if action.SendReply? && c.reader.Reading? && c.client.sendCloses == 0 && |c.client.queue.items| < 256
              then [action.payload] else []
  {
    if action.SendReply? {
      RepliesAppend(c.client.queue.log, Reply(action.payload));
    }
    hide RepliesOf;
  }

  lemma ConnStepReplies(w: World, other: nat, action: Action, id: nat)
    requires other < |w.conns|
    ensures RepliesOf(LogOf(ConnStep(w, other, action), id))
         == RepliesOf(LogOf(w, id)) + ReplyIn(w, At(other, action), id)
  {
    hide Local, Effected, RepliesOf;
    LocalReplies(w.conns[other], action, w.loop.Selecting?, w.doneCloses > 0);
    var (c, e) := Local(w.conns[other], action, w.loop.Selecting?, w.doneCloses > 0);
    EffectedFrame(SetConn(w, other, c), other, e);
  }

  lemma HubStepReplies(w: World, action: HubAction, id: nat)
    ensures RepliesOf(LogOf(HubStep(w, action), id)) == RepliesOf(LogOf(w, id))
  {
    hide HubStep, RepliesOf, DispatchOf;
    HubStepKeepsLength(w, action);
    if id < |w.conns| {
      if action.Dispatch? {
        DispatchLogs(w, id);
        if Eligible(w, AtHub(action), id) {
          RepliesAppend(LogOf(w, id), Broadcast(|w.mail.dispatched|, DispatchOf(w, AtHub(action)).value));
        }
      } else {
        HubStepFrame(w, action, id);
      }
    }
  }

  lemma StepReplies(w: World, step: Step, id: nat)
    ensures RepliesOf(LogOf(Apply(w, step), id)) == RepliesOf(LogOf(w, id)) + ReplyIn(w, step, id)
  {
    hide HubStep, ConnStep, RepliesOf;
    match step {
      case Arrive =>
      case At(other, action) =>
        if other < |w.conns| {
          ConnStepReplies(w, other, action, id);
        }
      case AtHub(action) => HubStepReplies(w, action, id);
    }
  }

  /** The replies in a client's log are those its read pump sent with room for them, in order. */
  lemma {:induction false} RepliesInOrder(w: World, steps: seq<Step>, id: nat)
    ensures RepliesOf(LogOf(Exec(w, steps), id)) == RepliesOf(LogOf(w, id)) + RepliesIn(w, steps, id)
    decreases |steps|
  {
    hide Apply, RepliesOf, LogOf, ReplyIn;
    if steps != [] {
      StepReplies(w, steps[0], id);
      RepliesInOrder(Apply(w, steps[0]), steps[1..], id);
    }
  }

  // ---------- Writes ----------

  function Writes(id: nat, n: nat): seq<Step> {
    if n == 0 then [] else [At(id, WriteSucceeds)] + Writes(id, n - 1)
  }

  lemma WriteTakesHead(w: World, id: nat)
    requires id < |w.conns| && w.conns[id].writing && !w.conns[id].failed && w.conns[id].client.queue.items != []
    ensures var (q, w') := (w.conns[id].client.queue, Apply(w, At(id, WriteSucceeds)));
            && |w'.conns| == |w.conns| && w'.conns[id].writing && !w'.conns[id].failed
            && w'.conns[id].client.queue.items == q.items[1..]
            && Written(w'.conns[id]) == Written(w.conns[id]) + [q.items[0]]
            && w'.conns[id].client.queue.log == q.log
  {
  }

  /** As many successful writes as there are messages queued write them all, in order. */
  lemma {:induction false} WritesDrain(w: World, id: nat)
    requires id < |w.conns| && w.conns[id].writing && !w.conns[id].failed
    ensures var w' := Exec(w, Writes(id, |w.conns[id].client.queue.items|));
            && id < |w'.conns| && w'.conns[id].client.queue.items == []
            && Written(w'.conns[id]) == Written(w.conns[id]) + w.conns[id].client.queue.items
    decreases |w.conns[id].client.queue.items|
  {
    hide Apply, Written;
    var items := w.conns[id].client.queue.items;
    if items != [] {
      WriteTakesHead(w, id);
      var w' := Apply(w, At(id, WriteSucceeds));
      WritesDrain(w', id);
      assert Writes(id, |items|)[1..] == Writes(id, |items| - 1);
      assert items == [items[0]] + items[1..];
    }
  }

  /** The write pump is gone. */
  predicate WriterGone(c: Conn) {
    c.handler.Returned? && !c.writing
  }

  /** A failed write or ping ends the pump; a failed write has taken its message. */
  lemma WriterEnds(w: World, id: nat)
    requires LifeInv(w) && id < |w.conns| && w.conns[id].writing
    ensures var w' := Apply(w, At(id, WriterStops));
            |w'.conns| == |w.conns| && WriterGone(w'.conns[id]) && Written(w'.conns[id]) == Written(w.conns[id])
    ensures var w' := Apply(w, At(id, WriteFails));
            w.conns[id].client.queue.items != [] ==>
              && |w'.conns| == |w.conns| && WriterGone(w'.conns[id]) && Written(w'.conns[id]) == Written(w.conns[id])
              && FailedWrite(w'.conns[id]) == [w.conns[id].client.queue.items[0]]
  {
    assert ConnInv(w, id);
    hide LifeInv, ConnInv;
  }

  lemma LocalGone(c: Conn, action: Action, selecting: bool, done: bool)
    requires WriterGone(c)
    ensures var c' := Local(c, action, selecting, done).0; WriterGone(c') && Written(c') == Written(c)
  {
  }

  lemma DispatchGone(w: World, id: nat)
    requires id < |w.conns| && WriterGone(w.conns[id]) && w.mail.inbox != []
    ensures var w' := Dispatched(w);
            |w'.conns| == |w.conns| && WriterGone(w'.conns[id]) && Written(w'.conns[id]) == Written(w.conns[id])
  {
    hide SendsOnClosed, MailDispatched, Head;
  }

  lemma HubStepGone(w: World, action: HubAction, id: nat)
    requires id < |w.conns| && WriterGone(w.conns[id])
    ensures var w' := HubStep(w, action);
            |w'.conns| == |w.conns| && WriterGone(w'.conns[id]) && Written(w'.conns[id]) == Written(w.conns[id])
  {
    HubStepFrame(w, action, id);
    if action.Dispatch? {
      if w.mail.inbox != [] {
        DispatchGone(w, id);
      }
      hide Dispatched, Written, WriterGone;
    } else {
      hide HubStep;
    }
  }

  lemma StepGone(w: World, step: Step, id: nat)
    requires id < |w.conns| && WriterGone(w.conns[id])
    ensures var w' := Apply(w, step);
            id < |w'.conns| && WriterGone(w'.conns[id]) && Written(w'.conns[id]) == Written(w.conns[id])
  {
    hide HubStep, Local, Effected, WriterGone, Written;
    match step {
      case Arrive =>
      case At(other, action) =>
        if other < |w.conns| {
          var (c, e) := Local(w.conns[other], action, w.loop.Selecting?, w.doneCloses > 0);
          EffectedFrame(SetConn(w, other, c), other, e);
          if other == id {
            LocalGone(w.conns[id], action, w.loop.Selecting?, w.doneCloses > 0);
          }
        }
      case AtHub(action) => HubStepGone(w, action, id);
    }
  }

  /** After that nothing is ever written to the connection. */
  lemma {:induction false} GoneWritesNothing(w: World, steps: seq<Step>, id: nat)
    requires id < |w.conns| && WriterGone(w.conns[id])
    ensures var w' := Exec(w, steps); id < |w'.conns| && Written(w'.conns[id]) == Written(w.conns[id])
    decreases |steps|
  {
    hide Apply, WriterGone, Written;
    if steps != [] {
      StepGone(w, steps[0], id);
      GoneWritesNothing(Apply(w, steps[0]), steps[1..], id);
    }
  }

  // ---------- Departure ----------

  /** The connection is lost: its read pump ends, the hub lets the client go, and the watcher frees the slot. */
  function Departure(id: nat): seq<Step> {
    [At(id, ReadFails), At(id, UnregisterAccepted)] + [AtHub(FinishRemove), At(id, Release)]
  }

  lemma PumpEnds(w: World, id: nat)
    requires LifeInv(w) && SlotInv(w) && w.loop.Selecting? && id < |w.conns| && w.conns[id].reader.Reading?
    ensures var w2 := Apply(Apply(w, At(id, ReadFails)), At(id, UnregisterAccepted));
            && LifeInv(w2) && SlotInv(w2) && w2.loop == Removing(id) && w2.members == w.members
            && |w2.conns| == |w.conns| && w2.slots == w.slots
            && w2.conns[id].watcher == w.conns[id].watcher && w2.conns[id].client == w.conns[id].client
  {
    var w1 := Apply(w, At(id, ReadFails));
    StepKeepsLife(w, At(id, ReadFails));
    StepKeepsSlots(w, At(id, ReadFails));
    StepKeepsLife(w1, At(id, UnregisterAccepted));
    StepKeepsSlots(w1, At(id, UnregisterAccepted));
    hide LifeInv, SlotInv;
    assert w1.loop.Selecting? && w1.conns[id] == w.conns[id].(reader := Leaving);
  }

  lemma HubLetsGo(w: World, id: nat)
    requires LifeInv(w) && SlotInv(w) && w.loop == Removing(id) && id in w.members && id < |w.conns|
    requires w.conns[id].watcher.Watching?
    ensures var w2 := Apply(Apply(w, AtHub(FinishRemove)), At(id, Release));
            && id !in w2.members && w2.loop.Selecting? && |w2.conns| == |w.conns|
            && w2.conns[id].client.sendCloses == w2.conns[id].client.doneCloses == 1
            && w2.conns[id].watcher.Released?
            && w2.slots.count == w.slots.count - 1
  {
    assert ConnInv(w, id);
    var w1 := Apply(w, AtHub(FinishRemove));
    assert w1.conns[id] == w.conns[id].(client := Closed(w.conns[id].client));
    assert w1.slots == w.slots;
    SomeoneOwnsASlot(w, id);
    hide LifeInv, ConnInv, SlotInv;
  }

  lemma SomeoneOwnsASlot(w: World, id: nat)
    requires LifeInv(w) && SlotInv(w) && id < |w.conns| && w.conns[id].watcher.Watching?
    ensures w.slots.count > 0
  {
    assert ConnInv(w, id);
    CountAtLeastOne(w.conns, id, OwnsSlot);
    hide LifeInv, ConnInv;
  }

  /** After any run, a client whose connection is lost leaves the map, closed once, and its slot is free again. */
  lemma DepartureFreesSlot(clientId: string, maxConn: int, before: seq<Step>, id: nat)
    requires var w := Exec(Begin(clientId, maxConn), before);
             w.loop.Selecting? && id < |w.conns| && id in w.members && w.conns[id].reader.Reading?
    ensures var w := Exec(Begin(clientId, maxConn), before);
            var w' := Exec(w, Departure(id));
            && id !in w'.members && w'.loop.Selecting? && |w'.conns| == |w.conns|
            && w'.conns[id].client.sendCloses == w'.conns[id].client.doneCloses == 1
            && w'.conns[id].watcher.Released?
            && w'.slots.count == w.slots.count - 1
  {
    BeginKeepsLife(clientId, maxConn);
    RunKeepsLife(Begin(clientId, maxConn), before);
    RunKeepsSlots(Begin(clientId, maxConn), before);
    var w := Exec(Begin(clientId, maxConn), before);
    ReadingIsWatched(w, id);
    hide Begin, LifeInv, SlotInv, Exec, Apply;
    PumpEnds(w, id);
    var w2 := Apply(Apply(w, At(id, ReadFails)), At(id, UnregisterAccepted));
    HubLetsGo(w2, id);
    ExecConcat(w, [At(id, ReadFails), At(id, UnregisterAccepted)], [AtHub(FinishRemove), At(id, Release)]);
    ExecTwo(w, At(id, ReadFails), At(id, UnregisterAccepted));
    ExecTwo(w2, AtHub(FinishRemove), At(id, Release));
  }

  lemma ReadingIsWatched(w: World, id: nat)
    requires LifeInv(w) && id < |w.conns| && id in w.members && w.conns[id].reader.Reading?
    ensures w.conns[id].watcher.Watching?
  {
    assert ConnInv(w, id);
  }

  // ---------- Arrival ----------

  /** The way of a request that gets a slot: the upgrade, the hub's map, the goroutines. */
  function Arrival(id: nat): seq<Step> {
    [Arrive, At(id, UpgradeSucceeds)] + [At(id, RegisterAccepted), AtHub(FinishAdd)] + [At(id, Spawn)]
  }

  /** A new connection gets a slot exactly below the limit, and a failed upgrade gives it back. */
  lemma ArrivalReserves(w: World)
    ensures var (id, w1) := (|w.conns|, Apply(w, Arrive));
            && |w1.conns| == id + 1 && w1.conns[..id] == w.conns && w1.members == w.members && w1.loop == w.loop
            && w1.slots.maxConn == w.slots.maxConn
            && (w.slots.count < w.slots.maxConn <==> w1.conns[id].handler.Reserved?)
            && w1.slots.count == w.slots.count + (if w.slots.count < w.slots.maxConn then 1 else 0)
            && (w1.conns[id].handler.Reserved? ==> w1.conns[id] == REFUSED.(handler := Reserved))
    ensures var (id, w2) := (|w.conns|, Apply(Apply(w, Arrive), At(|w.conns|, UpgradeFails)));
            0 <= w.slots.count < w.slots.maxConn ==>
              |w2.conns| == id + 1 && w2.conns[id].handler.Failed? && w2.slots.count == w.slots.count
  {
  }

  /** The hub takes in a client whose upgrade succeeded. */
  lemma UpgradedIsAdded(w: World, id: nat)
    requires w.loop.Selecting? && id < |w.conns| && w.conns[id].handler.Reserved?
    ensures var w1 := Apply(Apply(w, At(id, UpgradeSucceeds)), At(id, RegisterAccepted));
            var w' := Apply(w1, AtHub(FinishAdd));
            && |w'.conns| == |w.conns| && w'.conns[id] == w.conns[id].(handler := Spawning, joined := true)
            && w'.members == w.members + {id} && w'.loop.Selecting? && w'.slots == w.slots
  {
    var w1 := Apply(w, At(id, UpgradeSucceeds));
    assert w1 == w.(conns := w.conns[id := w.conns[id].(handler := Registering)]);
    var w2 := Apply(w1, At(id, RegisterAccepted));
    assert w2 == w1.(conns := w1.conns[id := w1.conns[id].(handler := Spawning)], loop := Adding(id));
    hide Local, Effected;
  }

  /**
    In any state whose loop is selecting and whose slots are not all taken, a request can become a client of
    the map with both pumps and its watcher running, no subscriptions, and a slot that was free.
   */
  lemma ArrivalJoins(w: World)
    requires w.loop.Selecting? && w.slots.count < w.slots.maxConn
    ensures var (id, w') := (|w.conns|, Exec(w, Arrival(|w.conns|)));
            && |w'.conns| == id + 1 && id in w'.members && w'.loop.Selecting?
            && w'.conns[id] == Conn(Returned, Reading, Watching, true, false, true, NEW_CLIENT)
            && w'.slots.count == w.slots.count + 1
  {
    hide Exec, Apply;
    var id := |w.conns|;
    ArrivalReserves(w);
    var w1 := Apply(w, Arrive);
    UpgradedIsAdded(w1, id);
    var w2 := Apply(w1, At(id, UpgradeSucceeds));
    var w4 := Apply(Apply(w2, At(id, RegisterAccepted)), AtHub(FinishAdd));
    SpawnStarts(w4, id);
    ExecConcat(w, [Arrive, At(id, UpgradeSucceeds)] + [At(id, RegisterAccepted), AtHub(FinishAdd)], [At(id, Spawn)]);
    ExecConcat(w, [Arrive, At(id, UpgradeSucceeds)], [At(id, RegisterAccepted), AtHub(FinishAdd)]);
    ExecTwo(w, Arrive, At(id, UpgradeSucceeds));
    ExecTwo(w2, At(id, RegisterAccepted), AtHub(FinishAdd));
    ExecOne(w4, At(id, Spawn));
  }

  lemma ExecOne(w: World, step: Step)
    ensures Exec(w, [step]) == Apply(w, step)
  {
    hide Apply;
    assert Exec(w, [step]) == Exec(Apply(w, step), []);
  }

  lemma SpawnStarts(w: World, id: nat)
    requires id < |w.conns| && w.conns[id].handler.Spawning?
    ensures var w' := Apply(w, At(id, Spawn));
            && |w'.conns| == |w.conns| && w'.members == w.members && w'.loop == w.loop && w'.slots == w.slots
            && w'.conns[id]
               == w.conns[id].(handler := Returned, reader := Reading, watcher := Watching, writing := true)
  {
  }

  /** Once the hub's done channel is closed, a handler that registers goes on without the hub's loop. */
  lemma DoneLetsHandlersGo(w: World, id: nat)
    requires w.doneCloses > 0 && id < |w.conns| && w.conns[id].handler.Registering?
    ensures var w' := Apply(Apply(w, At(id, RegisterLost)), At(id, Spawn));
            |w'.conns| == |w.conns| && w'.conns[id].handler.Returned? && w'.conns[id].reader.Reading?
  {
    var w1 := Apply(w, At(id, RegisterLost));
    assert |w1.conns| == |w.conns| && w1.conns[id] == w.conns[id].(handler := Spawning);
    SpawnStarts(w1, id);
    hide Apply;
  }

  /** And so does a read pump that leaves. */
  lemma DoneLetsReadersGo(w: World, id: nat)
    requires w.doneCloses > 0 && id < |w.conns| && w.conns[id].reader.Reading?
    ensures var w' := Apply(Apply(w, At(id, ReadFails)), At(id, UnregisterLost));
            |w'.conns| == |w.conns| && w'.conns[id].reader.Gone?
  {
    var w1 := Apply(w, At(id, ReadFails));
    assert w1 == w.(conns := w.conns[id := w.conns[id].(reader := Leaving)]);
    hide SlotFreed, Replied, Took;
  }

  // ---------- Shutdown ----------

  /** Both channels of every client that was in the map are closed once, and the map is empty. */
  ghost predicate EveryoneClosed(w: World, w': World) {
    && w'.members == {} && |w'.conns| == |w.conns|
    && forall id: nat :: id in w.members && id < |w.conns| ==>
         w'.conns[id].client.sendCloses == w'.conns[id].client.doneCloses == 1
  }

  lemma ClosedAllClosesEveryone(w: World)
    requires LifeInv(w)
    ensures EveryoneClosed(w, ClosedAll(w))
  {
    forall id: nat | id in w.members && id < |w.conns|
      ensures var c := ClosedAll(w).conns[id].client; c.sendCloses == c.doneCloses == 1
    {
      assert ConnInv(w, id);
    }
  }

  /** After any run, a hub whose context is cancelled closes every client's channels and its own done channel. */
  lemma CancelClosesEveryone(clientId: string, maxConn: int, before: seq<Step>)
    requires Exec(Begin(clientId, maxConn), before).loop.Selecting?
    ensures var w := Exec(Begin(clientId, maxConn), before);
            var w1 := Apply(Apply(w, AtHub(HubAction.Cancel)), AtHub(SeeCancel));
            var w' := Apply(Apply(w1, AtHub(CloseAllInLoop)), AtHub(CloseDoneInLoop));
            EveryoneClosed(w, w') && w'.loop.Exited? && w'.doneCloses == 1
  {
    BeginKeepsLife(clientId, maxConn);
    RunKeepsLife(Begin(clientId, maxConn), before);
    var w := Exec(Begin(clientId, maxConn), before);
    ClosedAllClosesEveryone(w);
    DoneAtMostOnce(w);
    hide Begin, Exec, LifeInv, CloseMembers;
    var w1 := Apply(Apply(w, AtHub(HubAction.Cancel)), AtHub(SeeCancel));
    assert w1 == w.(cancelled := true, loop := ClosingAll);
    var w2 := Apply(w1, AtHub(CloseAllInLoop));
    assert w2 == ClosedAll(w).(cancelled := true, loop := ClosingDone);
  }

  /** And so does Hub.Close, after which the loop ends. */
  lemma HubCloseClosesEveryone(clientId: string, maxConn: int, before: seq<Step>)
    requires var w := Exec(Begin(clientId, maxConn), before); w.loop.Selecting?
    ensures var w := Exec(Begin(clientId, maxConn), before);
            var w2 := Apply(Apply(w, AtHub(CloseAll)), AtHub(CloseDone));
            var w' := Apply(Apply(w2, AtHub(SeeDone)), AtHub(CloseDoneInLoop));
            EveryoneClosed(w, w2) && EveryoneClosed(w, w') && w2.doneCloses == 1 && w'.loop.Exited?
  {
    BeginKeepsLife(clientId, maxConn);
    RunKeepsLife(Begin(clientId, maxConn), before);
    var w := Exec(Begin(clientId, maxConn), before);
    ClosedAllClosesEveryone(w);
    DoneAtMostOnce(w);
    hide Begin, Exec, LifeInv, CloseMembers;
    var w1 := Apply(w, AtHub(CloseAll));
    assert w1 == ClosedAll(w).(closers := w.closers + 1);
    var w2 := Apply(w1, AtHub(CloseDone));
    assert w2 == ClosedAll(w).(doneCloses := 1);
    var w3 := Apply(w2, AtHub(SeeDone));
    assert w3 == w2.(loop := ClosingDone);
  }
}
