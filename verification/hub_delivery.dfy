/** Ordered fan-out: what each client is sent, against the hub's dispatch log. */
module HubDelivery {
  import opened Wrappers
  import opened BoundedQueues
  import opened Hubs
  import opened HubRuns

  // ---------- The specification, read off the run ----------

  /**
    The message the hub takes from its channel in this step, if it takes one that can be encoded, with the
    hub's id on state messages that carry none.
   */
  function DispatchOf(w: World, step: Step): Option<Message> {
    if step == AtHub(HubAction.Dispatch) && w.loop.Selecting? && w.mail.inbox != [] && w.mail.inbox[0].encodable then
      var m := w.mail.inbox[0];
      Some(if m.kind == "state" && m.clientId == "" then m.(clientId := w.mail.clientId) else m)
    else None
  }

  /** The step dispatches a message to a client that is in the map and subscribed to it. */
  predicate Eligible(w: World, step: Step, id: nat) {
    && DispatchOf(w, step).Some?
    && id < |w.conns| && id in w.members
    && DispatchOf(w, step).value.kind in w.conns[id].client.events
  }

  /** The numbers of the dispatches of a run that the client is eligible for. */
  function EligibleIn(w: World, steps: seq<Step>, id: nat): seq<nat>
    decreases |steps|
  {
    if steps == [] then []
    else (if Eligible(w, steps[0], id) then [|w.mail.dispatched|] else [])
         + EligibleIn(Apply(w, steps[0]), steps[1..], id)
  }

  /** The same, without those that find 256 messages queued. */
  function DeliverableIn(w: World, steps: seq<Step>, id: nat): seq<nat>
    decreases |steps|
  {
    if steps == [] then []
    else (if Eligible(w, steps[0], id) && |w.conns[id].client.queue.items| < 256
          then [|w.mail.dispatched|] else [])
         + DeliverableIn(Apply(w, steps[0]), steps[1..], id)
  }

  /** No eligible dispatch of the run finds the client's queue full. */
  predicate NeverFull(w: World, steps: seq<Step>, id: nat)
    decreases |steps|
  {
    steps != [] ==>
    && (Eligible(w, steps[0], id) ==> |w.conns[id].client.queue.items| != 256)
    && NeverFull(Apply(w, steps[0]), steps[1..], id)
  }

  function BroadcastsOf(log: seq<Item>): seq<nat> {
    if log == [] then []
    else BroadcastsOf(log[..|log| - 1]) + if log[|log| - 1].Broadcast? then [log[|log| - 1].index] else []
  }

  function LogOf(w: World, id: nat): seq<Item> {
    if id < |w.conns| then w.conns[id].client.queue.log else []
  }

  /** What a client's connection was sent: all that its write pump took, but for a write that failed. */
  function Written(c: Conn): seq<Item> {
    var taken := c.client.queue.taken;
    if c.failed && taken != [] then taken[..|taken| - 1] else taken
  }

  function FailedWrite(c: Conn): seq<Item> {
    var taken := c.client.queue.taken;
    if c.failed && taken != [] then [taken[|taken| - 1]] else []
  }

  // ---------- Each step's effect on one log ----------

  lemma BroadcastsAppend(log: seq<Item>, item: Item)
    ensures BroadcastsOf(log + [item])
         == BroadcastsOf(log) + if item.Broadcast? then [item.index] else []
  {
    assert (log + [item])[..|log|] == log;
  }

  lemma LocalLogs(c: Conn, action: Action, selecting: bool, done: bool)
    ensures var log' := Local(c, action, selecting, done).0.client.queue.log;
            BroadcastsOf(log') == BroadcastsOf(c.client.queue.log)
  {
    if action.SendReply? {
      BroadcastsAppend(c.client.queue.log, Reply(action.payload));
    }
    hide BroadcastsOf;
  }

  lemma DispatchLogs(w: World, id: nat)
    requires id < |w.conns|
    ensures var step := AtHub(HubAction.Dispatch);
            Apply(w, step).conns[id].client.queue
            == if Eligible(w, step, id)
               then Offered(w.conns[id].client.queue,
                            Broadcast(|w.mail.dispatched|, DispatchOf(w, step).value), SEND_BUFFER)
               else w.conns[id].client.queue
  {
    hide Offered, SendsOnClosed;
  }

  lemma StepLogs(w: World, step: Step, id: nat)
    requires LifeInv(w)
    ensures BroadcastsOf(LogOf(Apply(w, step), id))
         == BroadcastsOf(LogOf(w, id))
            + if Eligible(w, step, id) && |w.conns[id].client.queue.items| < 256
              then [|w.mail.dispatched|] else []
  {
    match step {
      case Arrive =>
      case At(other, action) =>
        if other < |w.conns| {
          LocalLogs(w.conns[other], action, w.loop.Selecting?, w.doneCloses > 0);
          var (c, e) := Local(w.conns[other], action, w.loop.Selecting?, w.doneCloses > 0);
          EffectedFrame(SetConn(w, other, c), other, e);
          hide Local, BroadcastsOf, LifeInv;
        }
      case AtHub(action) =>
        if id < |w.conns| {
          if action.Dispatch? {
            DispatchLogs(w, id);
            if Eligible(w, step, id) {
              BroadcastsAppend(LogOf(w, id), Broadcast(|w.mail.dispatched|, DispatchOf(w, step).value));
            }
          } else {
            HubStepFrame(w, action, id);
          }
        }
        HubStepKeepsLength(w, action);
        hide HubStep, BroadcastsOf, LifeInv, DispatchOf, Subscribed;
    }
  }

  // ---------- Whole runs ----------

  /** A client's log holds exactly the deliverable broadcasts, in the order of their dispatch. */
  lemma {:induction false} LogIsDeliverable(w: World, steps: seq<Step>, id: nat)
    requires LifeInv(w)
    ensures BroadcastsOf(LogOf(Exec(w, steps), id)) == BroadcastsOf(LogOf(w, id)) + DeliverableIn(w, steps, id)
    decreases |steps|
  {
    hide BroadcastsOf, LifeInv, Apply, Eligible, LogOf;
    if steps != [] {
      StepLogs(w, steps[0], id);
      StepKeepsLife(w, steps[0]);
      LogIsDeliverable(Apply(w, steps[0]), steps[1..], id);
    }
  }

  predicate Increasing(s: seq<nat>, from: nat, to: nat) {
    && (forall i :: 0 <= i < |s| ==> from <= s[i] < to)
    && forall i, j :: 0 <= i < j < |s| ==> s[i] < s[j]
  }

  /** What a step makes of the hub's channel. */
  function MailAfter(w: World, step: Step): Mail {
    if !step.AtHub? then w.mail
    else if step.hubAction.Dispatch? && w.loop.Selecting? && w.mail.inbox != [] then MailDispatched(w.mail)
    else if step.hubAction.Post? then MailPosted(w.mail, step.hubAction.message)
    else w.mail
  }

  lemma HubStepMail(w: World, action: HubAction)
    ensures HubStep(w, action).mail == MailAfter(w, AtHub(action))
  {
    hide DispatchTo, SendsOnClosed, CloseMembers, MailDispatched, MailPosted, Head;
  }

  lemma StepMail(w: World, step: Step)
    ensures Apply(w, step).mail == MailAfter(w, step)
  {
    match step {
      case Arrive =>
      case At(id, action) =>
        if id < |w.conns| {
          var (c, e) := Local(w.conns[id], action, w.loop.Selecting?, w.doneCloses > 0);
          EffectedFrame(SetConn(w, id, c), id, e);
          hide Local, Effected;
        }
      case AtHub(action) =>
        HubStepMail(w, action);
        hide HubStep, MailAfter;
    }
  }

  lemma StepDispatches(w: World, step: Step)
    ensures Apply(w, step).mail.dispatched
         == w.mail.dispatched + if DispatchOf(w, step).Some? then [DispatchOf(w, step).value] else []
  {
    StepMail(w, step);
    hide Apply;
  }

  lemma IncreasingCons(first: seq<nat>, rest: seq<nat>, from: nat, mid: nat, to: nat)
    requires from <= mid <= to
    requires Increasing(rest, mid, to)
    requires first == [] || (first == [from] && from < mid)
    ensures Increasing(first + rest, from, to)
  {
  }

  lemma {:induction false} EligibleIncreases(w: World, steps: seq<Step>, id: nat)
    ensures |w.mail.dispatched| <= |Exec(w, steps).mail.dispatched|
    ensures Increasing(EligibleIn(w, steps, id), |w.mail.dispatched|, |Exec(w, steps).mail.dispatched|)
    ensures Increasing(DeliverableIn(w, steps, id), |w.mail.dispatched|, |Exec(w, steps).mail.dispatched|)
    decreases |steps|
  {
    hide Apply, DispatchOf;
    if steps != [] {
      StepDispatches(w, steps[0]);
      var w' := Apply(w, steps[0]);
      EligibleIncreases(w', steps[1..], id);
      var (from, mid) := (|w.mail.dispatched|, |w'.mail.dispatched|);
      var to := |Exec(w', steps[1..]).mail.dispatched|;
      var first := if Eligible(w, steps[0], id) then [from] else [];
      IncreasingCons(first, EligibleIn(w', steps[1..], id), from, mid, to);
      var firstWithRoom :=
        if Eligible(w, steps[0], id) && |w.conns[id].client.queue.items| < 256 then [from] else [];
      IncreasingCons(firstWithRoom, DeliverableIn(w', steps[1..], id), from, mid, to);
    }
  }

  lemma QueueFits(w: World, id: nat)
    requires QueueInv(w) && id < |w.conns|
    ensures |w.conns[id].client.queue.items| <= SEND_BUFFER
  {
  }

  /** A client whose queue is never full misses nothing. */
  lemma {:induction false} NeverFullIsExact(w: World, steps: seq<Step>, id: nat)
    requires QueueInv(w) && NeverFull(w, steps, id)
    ensures DeliverableIn(w, steps, id) == EligibleIn(w, steps, id)
    decreases |steps|
  {
    hide Apply, DispatchOf, Conserved;
    if steps != [] {
      if id < |w.conns| {
        QueueFits(w, id);
      }
      StepKeepsQueues(w, steps[0]);
      NeverFullIsExact(Apply(w, steps[0]), steps[1..], id);
    }
  }

  // ---------- Queues ----------

  predicate QueueInv(w: World) {
    forall id :: 0 <= id < |w.conns| ==> Conserved(w.conns[id].client.queue, SEND_BUFFER)
  }

  lemma LocalKeepsQueue(c: Conn, action: Action, selecting: bool, done: bool)
    requires Conserved(c.client.queue, SEND_BUFFER)
    ensures Conserved(Local(c, action, selecting, done).0.client.queue, SEND_BUFFER)
  {
    hide Conserved;
  }

  lemma HubStepKeepsQueues(w: World, action: HubAction)
    requires QueueInv(w)
    ensures QueueInv(HubStep(w, action))
  {
    hide Conserved;
  }

  lemma StepKeepsQueues(w: World, step: Step)
    requires QueueInv(w)
    ensures QueueInv(Apply(w, step))
  {
    match step {
      case Arrive =>
      case At(id, action) =>
        if id < |w.conns| {
          LocalKeepsQueue(w.conns[id], action, w.loop.Selecting?, w.doneCloses > 0);
          var (c, e) := Local(w.conns[id], action, w.loop.Selecting?, w.doneCloses > 0);
          EffectedFrame(SetConn(w, id, c), id, e);
          hide Local, Conserved;
        }
      case AtHub(action) => HubStepKeepsQueues(w, action);
    }
  }

  lemma {:induction false} RunKeepsQueues(w: World, steps: seq<Step>)
    requires QueueInv(w)
    ensures QueueInv(Exec(w, steps))
    decreases |steps|
  {
    if steps != [] {
      StepKeepsQueues(w, steps[0]);
      RunKeepsQueues(Apply(w, steps[0]), steps[1..]);
    }
  }

  // ---------- The hub's own channel ----------

  /** What the hub makes of the messages posted to it, in order. */
  function Encoded(posted: seq<Message>, clientId: string): seq<Message> {
    if posted == [] then []
    else
      var last := posted[|posted| - 1];
      var m := if last.kind == "state" && last.clientId == "" then last.(clientId := clientId) else last;
      Encoded(posted[..|posted| - 1], clientId) + if m.encodable then [m] else []
  }

  predicate MailInv(m: Mail) {
    && |m.inbox| <= |m.posted| && |m.inbox| <= BROADCAST_BUFFER
    && m.posted[|m.posted| - |m.inbox|..] == m.inbox
    && m.dispatched == Encoded(m.posted[..|m.posted| - |m.inbox|], m.clientId)
  }

  lemma DispatchKeepsMail(m: Mail)
    requires MailInv(m) && m.inbox != []
    ensures MailInv(MailDispatched(m))
  {
    var k := |m.posted| - |m.inbox|;
    assert m.posted[k] == m.inbox[0];
    assert m.posted[..k + 1][..k] == m.posted[..k];
    assert m.posted[k + 1..] == m.posted[k..][1..];
  }

  lemma PostKeepsMail(m: Mail, message: Message)
    requires MailInv(m)
    ensures MailInv(MailPosted(m, message))
  {
    var k := |m.posted| - |m.inbox|;
    assert (m.posted + [message])[..k] == m.posted[..k];
    assert (m.posted + [message])[k..] == m.posted[k..] + [message];
  }

  lemma StepKeepsMail(w: World, step: Step)
    requires MailInv(w.mail)
    ensures MailInv(Apply(w, step).mail)
  {
    StepMail(w, step);
    if w.mail.inbox != [] {
      DispatchKeepsMail(w.mail);
    }
    if step.AtHub? && step.hubAction.Post? {
      PostKeepsMail(w.mail, step.hubAction.message);
    }
    hide Apply, MailInv, MailDispatched, MailPosted;
  }

  lemma {:induction false} RunKeepsMail(w: World, steps: seq<Step>)
    requires MailInv(w.mail)
    ensures MailInv(Exec(w, steps).mail)
    decreases |steps|
  {
    if steps != [] {
      StepKeepsMail(w, steps[0]);
      RunKeepsMail(Apply(w, steps[0]), steps[1..]);
    }
  }

  // ---------- Main results ----------

  /**
    In every interleaving, what was written to a client, what failed to be written and what is still
    queued make up its log, and at most 256 messages are queued.
   */
  lemma LogIsWrittenAndQueued(clientId: string, maxConn: int, steps: seq<Step>, id: nat)
    ensures var w := Exec(Begin(clientId, maxConn), steps);
            id < |w.conns| ==>
              && Written(w.conns[id]) + FailedWrite(w.conns[id]) + w.conns[id].client.queue.items == LogOf(w, id)
              && |w.conns[id].client.queue.items| <= 256
  {
    RunKeepsQueues(Begin(clientId, maxConn), steps);
  }

  /**
    Ordered delivery, in every interleaving: the broadcasts in a client's log are the dispatches it was
    eligible for and had room for, in order and without repeats, and with no full queue they are all the
    dispatches it was eligible for.
   */
  lemma OrderedDelivery(clientId: string, maxConn: int, steps: seq<Step>, id: nat)
    ensures var begin := Begin(clientId, maxConn);
            var w := Exec(begin, steps);
            && BroadcastsOf(LogOf(w, id)) == DeliverableIn(begin, steps, id)
            && Increasing(BroadcastsOf(LogOf(w, id)), 0, |w.mail.dispatched|)
            && (NeverFull(begin, steps, id) ==> BroadcastsOf(LogOf(w, id)) == EligibleIn(begin, steps, id))
  {
    var begin := Begin(clientId, maxConn);
    BeginKeepsLife(clientId, maxConn);
    assert BroadcastsOf(LogOf(begin, id)) == [];
    assert |begin.mail.dispatched| == 0 && QueueInv(begin);
    hide Exec, Begin, LifeInv, BroadcastsOf, LogOf, DeliverableIn, EligibleIn, NeverFull, Increasing;
    LogIsDeliverable(begin, steps, id);
    EligibleIncreases(begin, steps, id);
    if NeverFull(begin, steps, id) {
      NeverFullIsExact(begin, steps, id);
    }
  }

  /** The messages of a run's posts that find fewer than 256 messages in the hub's channel. */
  function PostsIn(w: World, steps: seq<Step>): seq<Message>
    decreases |steps|
  {
    if steps == [] then []
    else (if steps[0].AtHub? && steps[0].hubAction.Post? && |w.mail.inbox| < 256
          then [steps[0].hubAction.message]
          else [])
         + PostsIn(Apply(w, steps[0]), steps[1..])
  }

  lemma StepPosts(w: World, step: Step)
    ensures Apply(w, step).mail.posted
         == w.mail.posted
            + if step.AtHub? && step.hubAction.Post? && |w.mail.inbox| < 256 then [step.hubAction.message] else []
  {
    StepMail(w, step);
    hide Apply, Head;
  }

  lemma {:induction false} PostsAreQueued(w: World, steps: seq<Step>)
    ensures Exec(w, steps).mail.posted == w.mail.posted + PostsIn(w, steps)
    decreases |steps|
  {
    hide Apply;
    if steps != [] {
      StepPosts(w, steps[0]);
      PostsAreQueued(Apply(w, steps[0]), steps[1..]);
    }
  }

  /**
    The hub's channel takes every post that finds room, in order. The dispatch log is the encodable part of
    what was taken from it, in order and stamped; the rest, at most 256 messages, is still in the channel.
   */
  lemma PostedInOrder(clientId: string, maxConn: int, steps: seq<Step>)
    ensures var begin := Begin(clientId, maxConn);
            var m := Exec(begin, steps).mail;
            && m.posted == PostsIn(begin, steps)
            && |m.inbox| <= |m.posted| && |m.inbox| <= 256
            && m.posted[|m.posted| - |m.inbox|..] == m.inbox
            && m.dispatched == Encoded(m.posted[..|m.posted| - |m.inbox|], clientId)
  {
    var begin := Begin(clientId, maxConn);
    RunKeepsMail(begin, steps);
    PostsAreQueued(begin, steps);
    RunKeepsHubId(begin, steps);
    hide Exec, PostsIn, Encoded;
  }

  lemma {:induction false} RunKeepsHubId(w: World, steps: seq<Step>)
    ensures Exec(w, steps).mail.clientId == w.mail.clientId
    decreases |steps|
  {
    hide Apply;
    if steps != [] {
      StepKeepsHubId(w, steps[0]);
      RunKeepsHubId(Apply(w, steps[0]), steps[1..]);
    }
  }

  lemma StepKeepsHubId(w: World, step: Step)
    ensures Apply(w, step).mail.clientId == w.mail.clientId
  {
    StepMail(w, step);
    hide Apply, Head;
  }

  /** Any two clients see the broadcasts they have in common in the same order. */
  lemma SameOrder(clientId: string, maxConn: int, steps: seq<Step>, a: nat, b: nat, i: nat, j: nat, k: nat, l: nat)
    requires var w := Exec(Begin(clientId, maxConn), steps);
             var (x, y) := (BroadcastsOf(LogOf(w, a)), BroadcastsOf(LogOf(w, b)));
             && i < |x| && j < |x| && k < |y| && l < |y|
             && x[i] == y[k] && x[j] == y[l]
    ensures i < j <==> k < l
  {
    hide Exec, Begin, BroadcastsOf, LogOf, DeliverableIn, EligibleIn, NeverFull;
    OrderedDelivery(clientId, maxConn, steps, a);
    OrderedDelivery(clientId, maxConn, steps, b);
  }

  // ---------- The messages themselves ----------

  /** A broadcast in a log carries the message of the dispatch it is numbered after. */
  predicate Faithful(log: seq<Item>, dispatched: seq<Message>) {
    forall i :: 0 <= i < |log| && log[i].Broadcast? ==>
      log[i].index < |dispatched| && log[i].message == dispatched[log[i].index]
  }

  lemma StepKeepsFaithful(w: World, step: Step, id: nat)
    requires Faithful(LogOf(w, id), w.mail.dispatched)
    ensures Faithful(LogOf(Apply(w, step), id), Apply(w, step).mail.dispatched)
  {
    StepDispatches(w, step);
    match step {
      case Arrive =>
      case At(other, action) =>
        if other < |w.conns| {
          var (c, e) := Local(w.conns[other], action, w.loop.Selecting?, w.doneCloses > 0);
          LocalAddsReplies(w.conns[other], action, w.loop.Selecting?, w.doneCloses > 0);
          EffectedFrame(SetConn(w, other, c), other, e);
          hide Local, DispatchOf;
        }
      case AtHub(action) =>
        HubStepKeepsLength(w, action);
        if id < |w.conns| {
          if action.Dispatch? {
            DispatchLogs(w, id);
          } else {
            HubStepFrame(w, action, id);
          }
        }
        hide HubStep, DispatchOf, Subscribed;
    }
  }

  lemma LocalAddsReplies(c: Conn, action: Action, selecting: bool, done: bool)
    ensures var (log, log') := (c.client.queue.log, Local(c, action, selecting, done).0.client.queue.log);
            log' == log || exists payload :: log' == log + [Reply(payload)]
  {
    if action.SendReply? {
      var log' := Local(c, action, selecting, done).0.client.queue.log;
      assert log' == c.client.queue.log || log' == c.client.queue.log + [Reply(action.payload)];
    }
  }

  lemma {:induction false} RunKeepsFaithful(w: World, steps: seq<Step>, id: nat)
    requires Faithful(LogOf(w, id), w.mail.dispatched)
    ensures Faithful(LogOf(Exec(w, steps), id), Exec(w, steps).mail.dispatched)
    decreases |steps|
  {
    hide Apply, Faithful, LogOf;
    if steps != [] {
      StepKeepsFaithful(w, steps[0], id);
      RunKeepsFaithful(Apply(w, steps[0]), steps[1..], id);
    }
  }

  lemma MessagesAreFaithful(clientId: string, maxConn: int, steps: seq<Step>, id: nat)
    ensures var w := Exec(Begin(clientId, maxConn), steps); Faithful(LogOf(w, id), w.mail.dispatched)
  {
    RunKeepsFaithful(Begin(clientId, maxConn), steps, id);
  }
}
