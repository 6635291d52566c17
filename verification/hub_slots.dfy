/** The connection tracker's count against the connections that own a slot, in every interleaving. */
module HubSlots {
  import opened BoundedQueues
  import opened HubRuns

  /** A handler that reserved a slot and still has to release it itself. */
  predicate HoldsReservation(c: Conn) {
    c.handler.Reserved?
  }

  /** A connection handed off to its watcher, which has not released the slot yet. */
  predicate HandedOff(c: Conn) {
    c.handler.Registering? || c.handler.Spawning? || (c.handler.Returned? && !c.watcher.Released?)
  }

  predicate OwnsSlot(c: Conn) {
    HoldsReservation(c) || HandedOff(c)
  }

  function Count(conns: seq<Conn>, p: Conn -> bool): nat {
    if conns == [] then 0
    else Count(conns[..|conns| - 1], p) + if p(conns[|conns| - 1]) then 1 else 0
  }

  lemma {:induction false} CountUpdate(conns: seq<Conn>, id: nat, c: Conn, p: Conn -> bool)
    requires id < |conns|
    ensures Count(conns[id := c], p) + (if p(conns[id]) then 1 else 0)
         == Count(conns, p) + (if p(c) then 1 else 0)
  {
    var last := |conns| - 1;
    if id == last {
      assert conns[id := c][..last] == conns[..last];
    } else {
      assert conns[id := c][..last] == conns[..last][id := c];
      CountUpdate(conns[..last], id, c, p);
    }
  }

  lemma {:induction false} CountPointwise(a: seq<Conn>, b: seq<Conn>, p: Conn -> bool)
    requires |a| == |b| && forall i :: 0 <= i < |a| ==> p(a[i]) == p(b[i])
    ensures Count(a, p) == Count(b, p)
  {
    if a != [] {
      CountPointwise(a[..|a| - 1], b[..|b| - 1], p);
    }
  }

  lemma CountAppend(conns: seq<Conn>, c: Conn, p: Conn -> bool)
    ensures Count(conns + [c], p) == Count(conns, p) + (if p(c) then 1 else 0)
  {
    assert (conns + [c])[..|conns|] == conns;
  }

  lemma {:induction false} CountSplits(conns: seq<Conn>)
    ensures Count(conns, OwnsSlot) == Count(conns, HoldsReservation) + Count(conns, HandedOff)
  {
    if conns != [] {
      CountSplits(conns[..|conns| - 1]);
    }
  }

  lemma {:induction false} CountAtLeastOne(conns: seq<Conn>, id: nat, p: Conn -> bool)
    requires id < |conns| && p(conns[id])
    ensures Count(conns, p) >= 1
  {
    if id < |conns| - 1 {
      CountAtLeastOne(conns[..|conns| - 1], id, p);
    }
  }

  // ---------- The invariant ----------

  predicate SlotInv(w: World) {
    && w.slots.count == Count(w.conns, OwnsSlot)
    && !w.slots.floored
    && (w.slots.maxConn >= 0 ==> w.slots.count <= w.slots.maxConn)
  }

  lemma LocalKeepsSlot(c: Conn, action: Action, selecting: bool, done: bool)
    requires Goroutines(c)
    ensures var (c', e) := Local(c, action, selecting, done);
            if e.FreesSlot? then OwnsSlot(c) && !OwnsSlot(c') else OwnsSlot(c) == OwnsSlot(c')
  {
    hide Offered, Took;
  }

  lemma ConnStepKeepsSlots(w: World, id: nat, action: Action)
    requires LifeInv(w) && SlotInv(w) && id < |w.conns|
    ensures SlotInv(ConnStep(w, id, action))
  {
    assert ConnInv(w, id);
    LocalKeepsSlot(w.conns[id], action, w.loop.Selecting?, w.doneCloses > 0);
    var (c, e) := Local(w.conns[id], action, w.loop.Selecting?, w.doneCloses > 0);
    EffectedFrame(SetConn(w, id, c), id, e);
    CountUpdate(w.conns, id, c, OwnsSlot);
    if OwnsSlot(w.conns[id]) {
      CountAtLeastOne(w.conns, id, OwnsSlot);
    }
    hide Local, OwnsSlot, LifeInv, ConnInv, Count;
  }

  lemma ArrivalKeepsSlots(w: World)
    requires SlotInv(w)
    ensures SlotInv(Arrived(w))
  {
    CountAppend(w.conns, REFUSED.(handler := Reserved), OwnsSlot);
    CountAppend(w.conns, REFUSED, OwnsSlot);
  }

  lemma HubStepKeepsHandlers(w: World, action: HubAction)
    requires LifeInv(w)
    ensures var w' := HubStep(w, action);
            && |w'.conns| == |w.conns|
            && (forall i :: 0 <= i < |w.conns| ==> OwnsSlot(w'.conns[i]) == OwnsSlot(w.conns[i]))
            && w'.slots == w.slots
  {
    HubStepKeepsLength(w, action);
    hide HubStep;
    forall i | 0 <= i < |w.conns| ensures OwnsSlot(HubStep(w, action).conns[i]) == OwnsSlot(w.conns[i]) {
      HubStepFrame(w, action, i);
    }
  }

  lemma StepKeepsSlots(w: World, step: Step)
    requires LifeInv(w) && SlotInv(w)
    ensures SlotInv(Apply(w, step))
  {
    match step {
      case Arrive => ArrivalKeepsSlots(w);
      case At(id, action) =>
        if id < |w.conns| {
          ConnStepKeepsSlots(w, id, action);
        }
      case AtHub(action) =>
        HubStepKeepsHandlers(w, action);
        CountPointwise(w.conns, HubStep(w, action).conns, OwnsSlot);
    }
  }

  lemma {:induction false} RunKeepsSlots(w: World, steps: seq<Step>)
    requires LifeInv(w) && SlotInv(w)
    ensures SlotInv(Exec(w, steps)) && LifeInv(Exec(w, steps))
    decreases |steps|
  {
    if steps != [] {
      StepKeepsLife(w, steps[0]);
      StepKeepsSlots(w, steps[0]);
      RunKeepsSlots(Apply(w, steps[0]), steps[1..]);
    }
  }

  // ---------- Slot conservation ----------

  /**
    In every interleaving the count is the number of handlers that hold a reservation plus the number
    of handed-off connections that are not released, it stays between 0 and the limit, and Remove never
    meets its floor.
   */
  lemma SlotConservation(clientId: string, maxConn: int, steps: seq<Step>)
    ensures var w := Exec(Begin(clientId, maxConn), steps);
            && w.slots.count == Count(w.conns, HoldsReservation) + Count(w.conns, HandedOff)
            && 0 <= w.slots.count
            && (maxConn >= 0 ==> w.slots.count <= maxConn)
            && !w.slots.floored
  {
    BeginKeepsLife(clientId, maxConn);
    RunKeepsSlots(Begin(clientId, maxConn), steps);
    RunKeepsLimit(Begin(clientId, maxConn), steps);
    CountSplits(Exec(Begin(clientId, maxConn), steps).conns);
  }

  lemma StepKeepsLimit(w: World, step: Step)
    requires LifeInv(w)
    ensures Apply(w, step).slots.maxConn == w.slots.maxConn
  {
    match step {
      case Arrive =>
      case At(id, action) =>
        if id < |w.conns| {
          var (c, e) := Local(w.conns[id], action, w.loop.Selecting?, w.doneCloses > 0);
          EffectedFrame(SetConn(w, id, c), id, e);
          hide Local, LifeInv;
        }
      case AtHub(action) => HubStepKeepsHandlers(w, action);
    }
  }

  lemma {:induction false} RunKeepsLimit(w: World, steps: seq<Step>)
    requires LifeInv(w)
    ensures Exec(w, steps).slots.maxConn == w.slots.maxConn
    decreases |steps|
  {
    if steps != [] {
      StepKeepsLife(w, steps[0]);
      StepKeepsLimit(w, steps[0]);
      hide Apply, LifeInv;
      RunKeepsLimit(Apply(w, steps[0]), steps[1..]);
    }
  }

  /** No handler is under way, the loop waits in its select, and no watcher has a release to make. */
  predicate Quiescent(w: World) {
    && w.loop.Selecting?
    && forall id :: 0 <= id < |w.conns| ==>
         var c := w.conns[id];
         && !c.handler.Reserved? && !c.handler.Registering? && !c.handler.Spawning?
         && (c.watcher.Watching? ==> c.client.doneCloses == 0)
  }

  lemma {:induction false} CountIsCardinality(conns: seq<Conn>, members: set<nat>)
    requires forall id :: id in members ==> id < |conns|
    requires forall id :: 0 <= id < |conns| ==> (id in members <==> OwnsSlot(conns[id]))
    ensures |members| == Count(conns, OwnsSlot)
  {
    if conns == [] {
      assert members == {};
    } else {
      var last := |conns| - 1;
      var rest := members - {last};
      assert forall id :: 0 <= id < last ==> conns[..last][id] == conns[id];
      CountIsCardinality(conns[..last], rest);
      if last in members {
        assert members == rest + {last};
      } else {
        assert members == rest;
      }
    }
  }

  /** At quiescence with the hub still running the count is the number of clients in the map. */
  lemma CountAtQuiescence(clientId: string, maxConn: int, steps: seq<Step>)
    ensures var w := Exec(Begin(clientId, maxConn), steps);
            Quiescent(w) && w.doneCloses == 0 ==> w.slots.count == |w.members|
  {
    BeginKeepsLife(clientId, maxConn);
    RunKeepsSlots(Begin(clientId, maxConn), steps);
    var w := Exec(Begin(clientId, maxConn), steps);
    if Quiescent(w) && w.doneCloses == 0 {
      forall id | 0 <= id < |w.conns| ensures id in w.members <==> OwnsSlot(w.conns[id]) {
        assert ConnInv(w, id);
      }
      CountIsCardinality(w.conns, w.members);
    }
  }
}
