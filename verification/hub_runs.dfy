/**
  Every interleaving of the WebSocket handlers, the hub's loop, the pumps and watchers of each client,
  Hub.Close calls and context cancellation. A critical section, a channel rendezvous and the start of
  goroutines are one step each.
 */
module HubRuns {
  import opened BoundedQueues
  import opened Hubs
  import opened ConnectionTrackers

  /**
    Where a handler is: refused a slot; holding a reservation during the upgrade; released after a
    failed upgrade; handing its client to the hub, with the reservation passed on; about to start the
    client's goroutines; returned.
   */
  datatype Handler = Refused | Reserved | Failed | Registering | Spawning | Returned

  /** The read pump: it answers messages, then asks to be unregistered, then is gone. */
  datatype Reader = Unborn | Reading | Leaving | Gone

  /** trackDisconnect: it waits for Done, then releases the slot. */
  datatype Watcher = Unwatched | Watching | Released

  /** `writing` and `failed` tell whether the write pump runs and whether its last write failed. */
  datatype Conn = Conn(
    handler: Handler,
    reader: Reader,
    watcher: Watcher,
    writing: bool,
    failed: bool,
    joined: bool,
    client: ClientState)

  const REFUSED := Conn(Refused, Unborn, Unwatched, false, false, false, NEW_CLIENT)

  /** Where the hub's loop is: waiting in its select, inside a branch, or on its way out. */
  datatype Loop = Selecting | Adding(id: nat) | Removing(id: nat) | ClosingAll | ClosingDone | Exited

  /** The hub's broadcast channel with the history of what was posted to it and dispatched from it. */
  datatype Mail = Mail(clientId: string, inbox: seq<Message>, posted: seq<Message>, dispatched: seq<Message>)

  /** The connection tracker; `floored` tells whether a Remove ever met its floor. */
  datatype Slots = Slots(maxConn: int, count: int, floored: bool)

  /**
    Connections are named by their place in `conns`, which stands for their unique ids. `closers` are
    the Hub.Close calls between their two halves. The two faults record a broadcast and a reply sent
    on a closed channel.
   */
  datatype World = World(
    conns: seq<Conn>,
    members: set<nat>,
    loop: Loop,
    doneCloses: nat,
    closers: nat,
    cancelled: bool,
    closedAll: bool,
    badBroadcast: bool,
    badReply: bool,
    mail: Mail,
    slots: Slots)

  function Begin(clientId: string, maxConn: int): World {
    World([], {}, Selecting, 0, 0, false, false, false, false, Mail(clientId, [], [], []), Slots(maxConn, 0, false))
  }

  /** What can happen at one connection. */
  datatype Action =
    // what becomes of the upgrade, and of handing the client to the hub
    | UpgradeFails | UpgradeSucceeds | RegisterAccepted | RegisterLost | Spawn
    // the read pump
    | Subscribe(names: set<string>) | SendReply(payload: int) | ReadFails | UnregisterAccepted | UnregisterLost
    // the write pump
    | WriteSucceeds | WriteFails | WriterStops
    // trackDisconnect
    | Release

  /** What the hub's loop, Hub.Close and the outside can do. */
  datatype HubAction =
    | FinishAdd | FinishRemove | Dispatch | SeeCancel | CloseAllInLoop | SeeDone | CloseDoneInLoop
    | CloseAll | CloseDone
    | Post(message: Message) | Cancel

  datatype Step = Arrive | At(id: nat, action: Action) | AtHub(hubAction: HubAction)

  function SetConn(w: World, id: nat, c: Conn): World
    requires id < |w.conns|
  {
    w.(conns := w.conns[id := c])
  }

  /** The dispatch of one message to every client of the map. */
  function DispatchTo(conns: seq<Conn>, members: set<nat>, index: nat, m: Message): (r: seq<Conn>)
    ensures |r| == |conns|
    ensures forall i :: 0 <= i < |conns| ==>
              r[i] == if i in members then conns[i].(client := Delivered(conns[i].client, index, m)) else conns[i]
  {
    seq(|conns|, i requires 0 <= i < |conns| =>
      if i in members then conns[i].(client := Delivered(conns[i].client, index, m)) else conns[i])
  }

  function CloseMembers(conns: seq<Conn>, members: set<nat>): (r: seq<Conn>)
    ensures |r| == |conns|
    ensures forall i :: 0 <= i < |conns| ==>
              r[i] == if i in members then conns[i].(client := Closed(conns[i].client)) else conns[i]
  {
    seq(|conns|, i requires 0 <= i < |conns| =>
      if i in members then conns[i].(client := Closed(conns[i].client)) else conns[i])
  }

  /** closeAllClients, from the loop or from Hub.Close. */
  function ClosedAll(w: World): World {
    w.(conns := CloseMembers(w.conns, w.members), members := {}, closedAll := true)
  }

  /** closeDone goes through a sync.Once. */
  function ClosedDone(w: World): World {
    w.(doneCloses := if w.doneCloses == 0 then 1 else w.doneCloses)
  }

  /** A member that is subscribed to the message has its send channel closed. */
  predicate SendsOnClosed(w: World, m: Message) {
    exists i :: 0 <= i < |w.conns| && i in w.members
                && Subscribed(w.conns[i].client, m) && w.conns[i].client.sendCloses > 0
  }

  /** The message at the head of the broadcast channel, as the hub sends it. */
  function Head(m: Mail): Message
    requires m.inbox != []
  {
    Stamped(m.inbox[0], m.clientId)
  }

  /** A message that cannot be encoded is taken from the channel and not dispatched. */
  function MailDispatched(m: Mail): Mail
    requires m.inbox != []
  {
    m.(inbox := m.inbox[1..], dispatched := if Head(m).encodable then m.dispatched + [Head(m)] else m.dispatched)
  }

  function Dispatched(w: World): World
    requires w.mail.inbox != []
  {
    var m := Head(w.mail);
    if !m.encodable then w.(mail := MailDispatched(w.mail))
    else w.(conns := DispatchTo(w.conns, w.members, |w.mail.dispatched|, m),
            mail := MailDispatched(w.mail),
            badBroadcast := w.badBroadcast || SendsOnClosed(w, m))
  }

  function MailPosted(m: Mail, message: Message): Mail {
    if |m.inbox| < BROADCAST_BUFFER then m.(inbox := m.inbox + [message], posted := m.posted + [message]) else m
  }

  function SlotFreed(s: Slots): Slots {
    s.(count := Removed(s.count), floored := s.floored || s.count <= 0)
  }

  /** What a step of one connection does beyond it. */
  datatype Effect = NoEffect | EntersAdd | EntersRemove | FreesSlot | SendsReplyOnClosed

  /**
    A step of the handler, a pump or the watcher of one connection. `selecting` tells whether the
    loop is ready for a rendezvous, and `done` whether the hub's done channel is closed.
   */
  function Local(c: Conn, action: Action, selecting: bool, done: bool): (Conn, Effect) {
    match action
    case UpgradeFails =>
      if c.handler.Reserved? then (c.(handler := Failed), FreesSlot) else (c, NoEffect)
    case UpgradeSucceeds =>
      if c.handler.Reserved? then (c.(handler := Registering), NoEffect) else (c, NoEffect)
    case RegisterAccepted =>
      if c.handler.Registering? && selecting then (c.(handler := Spawning), EntersAdd) else (c, NoEffect)
    case RegisterLost =>
      if c.handler.Registering? && done then (c.(handler := Spawning), NoEffect) else (c, NoEffect)
    case Spawn =>
      if c.handler.Spawning?
      then (c.(handler := Returned, reader := Reading, watcher := Watching, writing := true), NoEffect)
      else (c, NoEffect)
    case Subscribe(names) =>
      if c.reader.Reading? then (c.(client := c.client.(events := c.client.events + names)), NoEffect)
      else (c, NoEffect)
    case SendReply(payload) =>
      if !c.reader.Reading? then (c, NoEffect)
      else if c.client.sendCloses > 0 then (c, SendsReplyOnClosed)
      else (c.(client := Replied(c.client, payload)), NoEffect)
    case ReadFails =>
      if c.reader.Reading? then (c.(reader := Leaving), NoEffect) else (c, NoEffect)
    case UnregisterAccepted =>
      if c.reader.Leaving? && selecting then (c.(reader := Gone), EntersRemove) else (c, NoEffect)
    case UnregisterLost =>
      if c.reader.Leaving? && done then (c.(reader := Gone), NoEffect) else (c, NoEffect)
    case WriteSucceeds =>
      if c.writing && c.client.queue.items != []
      then (c.(client := c.client.(queue := Took(c.client.queue))), NoEffect)
      else (c, NoEffect)
    case WriteFails =>
      if c.writing && c.client.queue.items != []
      then (c.(writing := false, failed := true, client := c.client.(queue := Took(c.client.queue))), NoEffect)
      else (c, NoEffect)
    case WriterStops =>
      // a failed ping, or a closed and drained channel
      (c.(writing := false), NoEffect)
    case Release =>
      if c.watcher.Watching? && c.client.doneCloses > 0 then (c.(watcher := Released), FreesSlot) else (c, NoEffect)
  }

  function Effected(w: World, id: nat, e: Effect): World {
    match e
    case NoEffect => w
    case EntersAdd => w.(loop := Adding(id))
    case EntersRemove => w.(loop := Removing(id))
    case FreesSlot => w.(slots := SlotFreed(w.slots))
    case SendsReplyOnClosed => w.(badReply := true)
  }

  function ConnStep(w: World, id: nat, action: Action): World
    requires id < |w.conns|
  {
    var (c, e) := Local(w.conns[id], action, w.loop.Selecting?, w.doneCloses > 0);
    Effected(SetConn(w, id, c), id, e)
  }

  /** The critical section of the register branch. */
  function AddFinished(w: World): World {
    if !(w.loop.Adding? && w.loop.id < |w.conns|) then w
    else SetConn(w, w.loop.id, w.conns[w.loop.id].(joined := true))
         .(members := w.members + {w.loop.id}, loop := Selecting)
  }

  /** The critical section of the unregister branch. */
  function RemoveFinished(w: World): World {
    if !(w.loop.Removing? && w.loop.id < |w.conns|) then w
    else if w.loop.id !in w.members then w.(loop := Selecting)
    else SetConn(w, w.loop.id, w.conns[w.loop.id].(client := Closed(w.conns[w.loop.id].client)))
         .(members := w.members - {w.loop.id}, loop := Selecting)
  }

  /** A step of the hub's loop, of Hub.Close or of the outside. */
  function HubStep(w: World, action: HubAction): World {
    match action
    case FinishAdd => AddFinished(w)
    case FinishRemove => RemoveFinished(w)
    case Post(message) => w.(mail := MailPosted(w.mail, message))
    case Dispatch =>
      if w.loop.Selecting? && w.mail.inbox != [] then Dispatched(w) else w
    case SeeCancel => if w.loop.Selecting? && w.cancelled then w.(loop := ClosingAll) else w
    case CloseAllInLoop => if w.loop.ClosingAll? then ClosedAll(w).(loop := ClosingDone) else w
    case SeeDone => if w.loop.Selecting? && w.doneCloses > 0 then w.(loop := ClosingDone) else w
    case CloseDoneInLoop => if w.loop.ClosingDone? then ClosedDone(w).(loop := Exited) else w
    case Cancel => w.(cancelled := true)
    case CloseAll => ClosedAll(w).(closers := w.closers + 1)
    case CloseDone => if w.closers == 0 then w else ClosedDone(w).(closers := w.closers - 1)
  }

  /** A new connection asks the tracker for a slot. */
  function Arrived(w: World): World {
    var (count, reserved) := Added(w.slots.count, w.slots.maxConn);
    w.(slots := w.slots.(count := count),
       conns := w.conns + [if reserved then REFUSED.(handler := Reserved) else REFUSED])
  }

  /** One atomic step; a step that is not possible changes nothing. */
  function Apply(w: World, step: Step): World {
    match step
    case Arrive => Arrived(w)
    case At(id, action) => if id < |w.conns| then ConnStep(w, id, action) else w
    case AtHub(action) => HubStep(w, action)
  }

  function Exec(w: World, steps: seq<Step>): World
    decreases |steps|
  {
    if steps == [] then w else Exec(Apply(w, steps[0]), steps[1..])
  }

  // ---------- Close-once lifecycle ----------

  /** What one connection's channels tell, given whether it is in the map. */
  predicate Channels(c: Conn, member: bool) {
    && (member ==> c.joined)
    && c.client.sendCloses == c.client.doneCloses == (if c.joined && !member then 1 else 0)
  }

  /** What one connection's goroutines tell. */
  predicate Goroutines(c: Conn) {
    && (c.joined ==> c.handler.Spawning? || c.handler.Returned?)
    && (c.reader.Unborn? <==> !c.handler.Returned?)
    && (c.watcher.Unwatched? <==> !c.handler.Returned?)
    && (c.watcher.Released? ==> c.client.doneCloses > 0)
    && (c.writing || c.failed ==> c.handler.Returned?)
    && (c.failed ==> !c.writing)
  }

  predicate ConnInv(w: World, id: nat)
    requires id < |w.conns|
  {
    var c := w.conns[id];
    && Channels(c, id in w.members)
    && Goroutines(c)
    // a client is handed to the hub, and not yet in the map, only while the loop is adding it
    && (w.loop == Adding(id) ==> !c.joined && (c.handler.Spawning? || c.handler.Returned?))
    && (w.doneCloses == 0 && (c.handler.Spawning? || c.handler.Returned?) ==> c.joined || w.loop == Adding(id))
    // without closeAllClients only a client whose read pump is gone leaves the map
    && (w.loop == Removing(id) ==> c.reader.Gone?)
    && (!w.closedAll && c.client.sendCloses > 0 ==> c.reader.Gone?)
  }

  predicate LifeInv(w: World) {
    && (forall id :: 0 <= id < |w.conns| ==> ConnInv(w, id))
    && (forall id :: id in w.members ==> id < |w.conns|)
    && (w.loop.Adding? || w.loop.Removing? ==> w.loop.id < |w.conns|)
    && w.doneCloses <= 1
    && !w.badBroadcast
    && (w.badReply ==> w.closedAll)
  }

  /** What a step of one connection keeps of its own lifecycle. */
  predicate KeptLocally(c: Conn, c': Conn, e: Effect, selecting: bool, done: bool, closedAll: bool) {
    && c'.joined == c.joined && c'.client.sendCloses == c.client.sendCloses
    && (c.reader.Gone? ==> c'.reader.Gone?)
    && (e.EntersAdd? ==> selecting && !c.joined && c'.handler.Spawning?)
    && (e.EntersRemove? ==> selecting && c'.reader.Gone?)
    && (e.SendsReplyOnClosed? ==> closedAll)
    && (c'.handler.Spawning? || c'.handler.Returned? ==>
          c.handler.Spawning? || c.handler.Returned? || done || e.EntersAdd?)
    && (c.handler.Spawning? || c.handler.Returned? ==> c'.handler.Spawning? || c'.handler.Returned?)
  }

  lemma LocalKeepsChannels(c: Conn, action: Action, selecting: bool, done: bool, member: bool, closedAll: bool)
    requires Channels(c, member) && Goroutines(c)
    requires !closedAll && c.client.sendCloses > 0 ==> c.reader.Gone?
    ensures var (c', e) := Local(c, action, selecting, done);
            && Channels(c', member) && Goroutines(c')
            && KeptLocally(c, c', e, selecting, done, closedAll)
  {
    hide Offered, Took;
  }

  /** The other connections do not notice a step of one, unless the loop was theirs. */
  lemma OthersKeepLife(w: World, w': World, id: nat, i: nat)
    requires id < |w.conns| == |w'.conns| && i < |w.conns| && i != id
    requires ConnInv(w, i)
    requires w'.conns[i] == w.conns[i] && (i in w'.members <==> i in w.members)
    requires w'.doneCloses == w.doneCloses && w'.closedAll == w.closedAll
    requires w'.loop == w.loop
          || (w.loop.Selecting? && (w'.loop == Adding(id) || w'.loop == Removing(id)))
          || ((w.loop == Adding(id) || w.loop == Removing(id)) && w'.loop.Selecting?)
    ensures ConnInv(w', i)
  {
  }

  /** The facts about the rest of the world that a step of one connection keeps. */
  lemma EffectedFrame(w: World, id: nat, e: Effect)
    ensures var w' := Effected(w, id, e);
            && w'.conns == w.conns && w'.members == w.members && w'.mail == w.mail
            && w'.slots == (if e.FreesSlot? then SlotFreed(w.slots) else w.slots)
            && w'.doneCloses == w.doneCloses && w'.closedAll == w.closedAll && w'.badBroadcast == w.badBroadcast
            && w'.badReply == (w.badReply || e.SendsReplyOnClosed?)
            && w'.loop == if e.EntersAdd? then Adding(id) else if e.EntersRemove? then Removing(id) else w.loop
  {
  }

  /** Nor does the connection itself lose what its step keeps locally. */
  lemma OwnKeepsLife(w: World, w': World, id: nat, e: Effect)
    requires id < |w.conns| == |w'.conns| && ConnInv(w, id)
    requires Channels(w'.conns[id], id in w'.members) && Goroutines(w'.conns[id])
    requires id in w'.members <==> id in w.members
    requires w'.doneCloses == w.doneCloses && w'.closedAll == w.closedAll
    requires w'.loop == if e.EntersAdd? then Adding(id) else if e.EntersRemove? then Removing(id) else w.loop
    requires KeptLocally(w.conns[id], w'.conns[id], e, w.loop.Selecting?, w.doneCloses > 0, w.closedAll)
    ensures ConnInv(w', id)
  {
  }

  /** What the invariant says of one connection, and what of that its own steps need. */
  lemma LifeOf(w: World, id: nat)
    requires LifeInv(w) && id < |w.conns|
    ensures ConnInv(w, id)
    ensures Channels(w.conns[id], id in w.members) && Goroutines(w.conns[id])
    ensures !w.closedAll && w.conns[id].client.sendCloses > 0 ==> w.conns[id].reader.Gone?
  {
    assert ConnInv(w, id);
    hide Channels, Goroutines;
  }

  lemma RepliesOnlyAfterClosing(c: Conn, c': Conn, e: Effect, selecting: bool, done: bool, closedAll: bool)
    requires KeptLocally(c, c', e, selecting, done, closedAll)
    ensures e.SendsReplyOnClosed? ==> closedAll
  {
  }

  lemma EffectKeepsOwn(w: World, id: nat, c: Conn, e: Effect)
    requires id < |w.conns| && ConnInv(w, id)
    requires Channels(c, id in w.members) && Goroutines(c)
    requires KeptLocally(w.conns[id], c, e, w.loop.Selecting?, w.doneCloses > 0, w.closedAll)
    ensures ConnInv(Effected(SetConn(w, id, c), id, e), id)
  {
    hide Effected, Goroutines, Channels, ConnInv, KeptLocally;
    EffectedFrame(SetConn(w, id, c), id, e);
    OwnKeepsLife(w, Effected(SetConn(w, id, c), id, e), id, e);
  }

  lemma ConnStepKeepsOwn(w: World, id: nat, action: Action)
    requires LifeInv(w) && id < |w.conns|
    ensures ConnInv(ConnStep(w, id, action), id)
    ensures Local(w.conns[id], action, w.loop.Selecting?, w.doneCloses > 0).1.SendsReplyOnClosed? ==> w.closedAll
  {
    hide Local, Effected, Goroutines, Channels, ConnInv, LifeInv, KeptLocally;
    LifeOf(w, id);
    LocalKeepsChannels(w.conns[id], action, w.loop.Selecting?, w.doneCloses > 0, id in w.members, w.closedAll);
    var (c, e) := Local(w.conns[id], action, w.loop.Selecting?, w.doneCloses > 0);
    RepliesOnlyAfterClosing(w.conns[id], c, e, w.loop.Selecting?, w.doneCloses > 0, w.closedAll);
    EffectKeepsOwn(w, id, c, e);
  }

  lemma ConnStepKeepsOther(w: World, id: nat, action: Action, i: nat)
    requires LifeInv(w) && id < |w.conns| && i < |w.conns| && i != id
    ensures ConnInv(ConnStep(w, id, action), i)
  {
    hide Local, Effected, Goroutines, Channels, ConnInv, LifeInv;
    LifeOf(w, id);
    LifeOf(w, i);
    LocalKeepsChannels(w.conns[id], action, w.loop.Selecting?, w.doneCloses > 0, id in w.members, w.closedAll);
    var (c, e) := Local(w.conns[id], action, w.loop.Selecting?, w.doneCloses > 0);
    EffectedFrame(SetConn(w, id, c), id, e);
    OthersKeepLife(w, ConnStep(w, id, action), id, i);
  }

  lemma ConnStepKeepsLife(w: World, id: nat, action: Action)
    requires LifeInv(w) && id < |w.conns|
    ensures LifeInv(ConnStep(w, id, action))
  {
    var (c, e) := Local(w.conns[id], action, w.loop.Selecting?, w.doneCloses > 0);
    ConnStepKeepsOwn(w, id, action);
    EffectedFrame(SetConn(w, id, c), id, e);
    hide Local, Effected, ConnInv;
    forall i | 0 <= i < |w.conns| && i != id ensures ConnInv(ConnStep(w, id, action), i) {
      ConnStepKeepsOther(w, id, action, i);
    }
  }

  lemma BranchKeepsLife(w: World, action: HubAction)
    requires LifeInv(w) && (action.FinishAdd? || action.FinishRemove?)
    ensures LifeInv(HubStep(w, action))
  {
    var w' := HubStep(w, action);
    if w' != w {
      var id := w.loop.id;
      assert ConnInv(w, id);
      assert w' == w.(conns := w.conns[id := w'.conns[id]], members := w'.members, loop := Selecting);
      assert ConnInv(w', id);
      assert forall i :: i != id ==> (i in w'.members <==> i in w.members);
      forall i | 0 <= i < |w'.conns| && i != id ensures ConnInv(w', i) {
        OthersKeepLife(w, w', id, i);
      }
    }
  }

  lemma MembersAreOpen(w: World, m: Message)
    requires LifeInv(w)
    ensures !SendsOnClosed(w, m)
  {
    forall i | 0 <= i < |w.conns| && i in w.members ensures w.conns[i].client.sendCloses == 0 {
      assert ConnInv(w, i);
    }
  }

  lemma DispatchKeepsLife(w: World)
    requires LifeInv(w)
    ensures LifeInv(HubStep(w, HubAction.Dispatch))
  {
    hide Offered;
    var w' := HubStep(w, HubAction.Dispatch);
    if w.mail.inbox != [] {
      MembersAreOpen(w, Head(w.mail));
    }
    forall i | 0 <= i < |w'.conns| ensures ConnInv(w', i) {
      assert ConnInv(w, i);
    }
  }

  lemma ClosedAllKeepsLife(w: World)
    requires LifeInv(w)
    ensures LifeInv(ClosedAll(w))
  {
    var w' := ClosedAll(w);
    forall i | 0 <= i < |w'.conns| ensures ConnInv(w', i) {
      assert ConnInv(w, i);
    }
  }

  /** The loop and the done channel may move as long as no client is being added or removed. */
  lemma MovingKeepsLife(w: World, w': World)
    requires LifeInv(w)
    requires w' == w.(loop := w'.loop, doneCloses := w'.doneCloses, closers := w'.closers,
                      cancelled := w'.cancelled, mail := w'.mail)
    requires w.doneCloses <= w'.doneCloses <= 1
    requires w'.loop == w.loop || (!w.loop.Adding? && !w'.loop.Adding? && !w'.loop.Removing?)
    ensures LifeInv(w')
  {
    forall i | 0 <= i < |w'.conns| ensures ConnInv(w', i) {
      assert ConnInv(w, i);
    }
  }

  lemma HubStepKeepsLife(w: World, action: HubAction)
    requires LifeInv(w)
    ensures LifeInv(HubStep(w, action))
  {
    match action {
      case FinishAdd => BranchKeepsLife(w, action);
      case FinishRemove => BranchKeepsLife(w, action);
      case Dispatch => DispatchKeepsLife(w);
      case CloseAll =>
        hide LifeInv, CloseMembers;
        ClosedAllKeepsLife(w);
        MovingKeepsLife(ClosedAll(w), HubStep(w, action));
      case CloseAllInLoop =>
        hide LifeInv, CloseMembers;
        if w.loop.ClosingAll? {
          ClosedAllKeepsLife(w);
          MovingKeepsLife(ClosedAll(w), ClosedAll(w).(loop := ClosingDone));
        }
      case _ =>
        hide LifeInv;
        DoneAtMostOnce(w);
        MovingKeepsLife(w, HubStep(w, action));
    }
  }

  lemma DoneAtMostOnce(w: World)
    requires LifeInv(w)
    ensures w.doneCloses <= 1
  {
  }

  lemma ArrivalKeepsLife(w: World)
    requires LifeInv(w)
    ensures LifeInv(Arrived(w))
  {
    var w' := Arrived(w);
    forall i | 0 <= i < |w'.conns| ensures ConnInv(w', i) {
      if i < |w.conns| {
        assert ConnInv(w, i);
      }
    }
  }

  lemma StepKeepsLife(w: World, step: Step)
    requires LifeInv(w)
    ensures LifeInv(Apply(w, step))
  {
    hide LifeInv, ConnStep, HubStep, Arrived;
    match step {
      case Arrive => ArrivalKeepsLife(w);
      case At(id, action) =>
        if id < |w.conns| {
          ConnStepKeepsLife(w, id, action);
        }
      case AtHub(action) => HubStepKeepsLife(w, action);
    }
  }

  lemma {:induction false} RunKeepsLife(w: World, steps: seq<Step>)
    requires LifeInv(w)
    ensures LifeInv(Exec(w, steps))
    decreases |steps|
  {
    if steps != [] {
      StepKeepsLife(w, steps[0]);
      RunKeepsLife(Apply(w, steps[0]), steps[1..]);
    }
  }

  lemma BeginKeepsLife(clientId: string, maxConn: int)
    ensures LifeInv(Begin(clientId, maxConn))
  {
  }

  /**
    Close once: in every interleaving a client in the map has both channels open, a client that left it
    has both closed exactly once, a client that never entered it has neither closed; the hub's done
    channel is closed at most once; and no broadcast is ever sent on a closed channel.
   */
  lemma CloseOnce(clientId: string, maxConn: int, steps: seq<Step>)
    ensures var w := Exec(Begin(clientId, maxConn), steps);
            && (forall id :: 0 <= id < |w.conns| ==>
                  var c := w.conns[id];
                  && (id in w.members ==> c.joined && c.client.sendCloses == c.client.doneCloses == 0)
                  && (id !in w.members && c.joined ==> c.client.sendCloses == c.client.doneCloses == 1)
                  && (!c.joined ==> c.client.sendCloses == c.client.doneCloses == 0))
            && w.doneCloses <= 1
            && !w.badBroadcast
  {
    BeginKeepsLife(clientId, maxConn);
    RunKeepsLife(Begin(clientId, maxConn), steps);
    var w := Exec(Begin(clientId, maxConn), steps);
    forall id | 0 <= id < |w.conns| ensures Channels(w.conns[id], id in w.members) {
      assert ConnInv(w, id);
    }
  }

  // ---------- Replies ----------

  /** Neither the loop nor a Hub.Close runs closeAllClients. */
  predicate NeverClosesAll(steps: seq<Step>) {
    forall step :: step in steps ==> step != AtHub(CloseAll) && step != AtHub(CloseAllInLoop)
  }

  lemma {:induction false} RunClosesNone(w: World, steps: seq<Step>)
    requires NeverClosesAll(steps) && !w.closedAll
    ensures !Exec(w, steps).closedAll
    decreases |steps|
  {
    if steps != [] {
      assert steps[0] in steps;
      assert forall step :: step in steps[1..] ==> step in steps;
      RunClosesNone(Apply(w, steps[0]), steps[1..]);
    }
  }

  /** In runs without closeAllClients, no reply of a read pump is sent on a closed channel. */
  lemma RepliesAreSafe(clientId: string, maxConn: int, steps: seq<Step>)
    requires NeverClosesAll(steps)
    ensures !Exec(Begin(clientId, maxConn), steps).badReply
  {
    BeginKeepsLife(clientId, maxConn);
    RunKeepsLife(Begin(clientId, maxConn), steps);
    RunClosesNone(Begin(clientId, maxConn), steps);
  }

  /** With it, a reply that comes after the closing of its client's channel is sent on a closed channel. */
  lemma ReplyAfterCloseAll(w: World, id: nat, payload: int)
    requires LifeInv(w) && id in w.members && w.conns[id].reader.Reading?
    ensures Apply(Apply(w, AtHub(CloseAll)), At(id, SendReply(payload))).badReply
  {
    assert ConnInv(w, id);
    var w' := Apply(w, AtHub(CloseAll));
    assert w'.conns[id].client == Closed(w.conns[id].client);
  }

  /** What a step of the hub may change at a connection: whether it joined, and its client. */
  predicate SameGoroutines(c: Conn, c': Conn) {
    c' == c.(joined := c'.joined, client := c'.client)
  }

  lemma AddFrame(w: World, id: nat)
    requires id < |w.conns|
    ensures var w' := AddFinished(w);
            && |w'.conns| == |w.conns| && w'.slots == w.slots
            && SameGoroutines(w.conns[id], w'.conns[id]) && w'.conns[id].client == w.conns[id].client
            && (w'.conns[id].joined == w.conns[id].joined || w.loop == Adding(id))
            && (w'.loop == w.loop || w'.loop.Selecting?)
  {
    var w' := AddFinished(w);
    if w.loop == Adding(id) {
      assert w'.conns[id] == w.conns[id].(joined := true);
    } else {
      assert w'.conns[id] == w.conns[id];
    }
  }

  lemma RemoveFrame(w: World, id: nat)
    requires id < |w.conns|
    ensures var w' := RemoveFinished(w);
            && |w'.conns| == |w.conns| && w'.slots == w.slots
            && SameGoroutines(w.conns[id], w'.conns[id]) && w'.conns[id].client.queue == w.conns[id].client.queue
            && w'.conns[id].joined == w.conns[id].joined
            && (w'.loop == w.loop || w'.loop.Selecting?)
  {
    var w' := RemoveFinished(w);
    if w.loop == Removing(id) && id in w.members {
      assert w'.conns[id] == w.conns[id].(client := Closed(w.conns[id].client));
    } else {
      assert w'.conns[id] == w.conns[id];
    }
  }

  lemma DispatchFrame(w: World, id: nat)
    requires id < |w.conns| && w.mail.inbox != []
    ensures var w' := Dispatched(w);
            && |w'.conns| == |w.conns| && w'.slots == w.slots && w'.loop == w.loop
            && SameGoroutines(w.conns[id], w'.conns[id]) && w'.conns[id].joined == w.conns[id].joined
  {
    hide SendsOnClosed, MailDispatched, Head, Offered;
  }

  lemma ClosedAllFrame(w: World, id: nat)
    requires id < |w.conns|
    ensures var w' := ClosedAll(w);
            && |w'.conns| == |w.conns| && w'.slots == w.slots && w'.loop == w.loop
            && SameGoroutines(w.conns[id], w'.conns[id]) && w'.conns[id].client.queue == w.conns[id].client.queue
            && w'.conns[id].joined == w.conns[id].joined
  {
  }

  /** What the hub's steps leave alone at a connection. */
  lemma HubStepFrame(w: World, action: HubAction, id: nat)
    requires id < |w.conns|
    ensures var w' := HubStep(w, action);
            && |w'.conns| == |w.conns|
            && SameGoroutines(w.conns[id], w'.conns[id])
            && (w'.conns[id].joined == w.conns[id].joined || w.loop == Adding(id))
            && (!action.Dispatch? ==> w'.conns[id].client.queue == w.conns[id].client.queue)
            && (w.loop != Adding(id) ==> w'.loop != Adding(id))
  {
    match action {
      case FinishAdd => AddFrame(w, id); hide AddFinished, SameGoroutines;
      case FinishRemove => RemoveFrame(w, id); hide RemoveFinished, SameGoroutines;
      case Dispatch =>
        if w.mail.inbox != [] {
          DispatchFrame(w, id);
        }
        hide Dispatched;
      case CloseAllInLoop => ClosedAllFrame(w, id); hide ClosedAll;
      case CloseAll => ClosedAllFrame(w, id); hide ClosedAll, SameGoroutines;
      case _ =>
    }
  }

  lemma HubStepKeepsLength(w: World, action: HubAction)
    ensures |HubStep(w, action).conns| == |w.conns| && HubStep(w, action).slots == w.slots
  {
    hide AddFinished, RemoveFinished, Dispatched, ClosedAll;
    LengthsStay(w);
    if w.mail.inbox != [] {
      DispatchLengthStays(w);
    }
  }

  lemma LengthsStay(w: World)
    ensures |AddFinished(w).conns| == |w.conns| && AddFinished(w).slots == w.slots
    ensures |RemoveFinished(w).conns| == |w.conns| && RemoveFinished(w).slots == w.slots
    ensures |ClosedAll(w).conns| == |w.conns| && ClosedAll(w).slots == w.slots
  {
    hide Closed, CloseMembers;
  }

  lemma DispatchLengthStays(w: World)
    requires w.mail.inbox != []
    ensures |Dispatched(w).conns| == |w.conns| && Dispatched(w).slots == w.slots
  {
    hide SendsOnClosed, MailDispatched, Head, Delivered, DispatchTo;
  }
}
