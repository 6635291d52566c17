/** The IPC client and its health checker: fields under their mutexes, event channels and pong channels. */
module IpcSessions {
  import opened Wrappers

  const EVENT_BUFFER: nat := 64

  datatype ConnectionState = Disconnected | Connecting | Connected | Reconnecting

  /** A frame passed on to subscribers, or the error event that ends a session. */
  datatype Event = Forwarded(payload: int) | Ended(reason: int)

  /**
    The client's guarded fields. Connections and the event channels made with them are named by their
    number; health checkers by theirs.
   */
  datatype ClientState = ClientState(
    state: ConnectionState,
    ipcConn: Option<nat>,
    events: Option<nat>,
    healthCheck: Option<nat>)

  const OFFLINE := ClientState(Disconnected, None, None, None)

  /** The critical section of a successful Connect. */
  function Attached(c: ClientState, session: nat): ClientState {
    c.(ipcConn := Some(session), events := Some(session))
  }

  /** The critical section of Run's deferred function, for the channel that Run captured. */
  function Detached(c: ClientState, captured: Option<nat>): ClientState {
    if c.events == captured then c.(events := None) else c
  }

  /** The critical section of Close, and the connection it closes. */
  function ConnClosed(c: ClientState): (ClientState, Option<nat>) {
    if c.ipcConn.None? then (c, None) else (c.(state := Disconnected), c.ipcConn)
  }

  /** The connections numbered from `first` up to, not including, `end`. */
  function Numbered(first: nat, end: nat): (numbers: set<nat>)
    ensures forall n: nat :: n in numbers <==> first <= n < end
  {
    if end <= first then {} else Numbered(first, end - 1) + {end - 1}
  }

  /** How one socket path answers. */
  datatype PathResult = DialFails | HandshakeFails | Ready

  /** What one read of the connection returns; a frame that cannot be parsed is forwarded like the others. */
  datatype Read = Frame(payload: int) | Pong | OpClose(error: int) | ReadFailed(error: int)

  predicate EndsSession(r: Read) {
    r.OpClose? || r.ReadFailed?
  }

  /** The reads before the first that ends the session; if none does, the read after them fails. */
  function SessionLength(received: seq<Read>): (n: nat)
    ensures n <= |received| && (n < |received| ==> EndsSession(received[n]))
    ensures forall i :: 0 <= i < n ==> !EndsSession(received[i])
  {
    if received == [] || EndsSession(received[0]) then 0
    else
      assert forall i :: 0 <= i < SessionLength(received[1..]) ==> received[1..][i] == received[i + 1];
      1 + SessionLength(received[1..])
  }

  /** The frames among the first `n` reads that find room in the channel. */
  function Roomy(received: seq<Read>, room: nat -> bool, n: nat): seq<Event>
    requires n <= |received|
  {
    if n == 0 then []
    else Roomy(received, room, n - 1)
         + if received[n - 1].Frame? && room(n - 1) then [Forwarded(received[n - 1].payload)] else []
  }

  /** The reads among the first `n` that are frames with room. */
  function RoomyPlaces(received: seq<Read>, room: nat -> bool, n: nat): set<nat>
    requires n <= |received|
  {
    set i: nat | 0 <= i < n && received[i].Frame? && room(i)
  }

  /** Those events are as many as such reads. */
  lemma {:induction false} RoomyCount(received: seq<Read>, room: nat -> bool, n: nat)
    requires n <= |received|
    ensures |Roomy(received, room, n)| == |RoomyPlaces(received, room, n)|
  {
    if n == 0 {
      assert RoomyPlaces(received, room, 0) == {};
    } else {
      RoomyCount(received, room, n - 1);
      var before := RoomyPlaces(received, room, n - 1);
      assert RoomyPlaces(received, room, n)
          == if received[n - 1].Frame? && room(n - 1) then before + {n - 1} else before;
    }
  }

  /** Each such read has its event, at the place that the number of such reads before it gives. */
  lemma {:induction false} RoomyIsFiltered(received: seq<Read>, room: nat -> bool, n: nat, i: nat)
    requires i < n <= |received| && received[i].Frame? && room(i)
    ensures var place := |RoomyPlaces(received, room, i)|;
            && |Roomy(received, room, n)| == |RoomyPlaces(received, room, n)| > place
            && Roomy(received, room, n)[place] == Forwarded(received[i].payload)
  {
    RoomyCount(received, room, n);
    hide RoomyPlaces;
    if i == n - 1 {
      RoomyCount(received, room, i);
    } else {
      RoomyIsFiltered(received, room, n - 1, i);
    }
  }

  /** How Run ends. */
  datatype RunResult = NotConnected | Cancelled | SessionEnded(reason: int)

  class Client {
    var state: ConnectionState
    var ipcConn: Option<nat>
    var events: Option<nat>
    var healthCheck: Option<nat>
    var connections: nat    // connections dialled so far, with or without a handshake
    var dropped: set<nat>   // connections closed again because their handshake failed

    ghost function View(): ClientState
      reads this
    {
      ClientState(state, ipcConn, events, healthCheck)
    }

    constructor ()
      ensures View() == OFFLINE && connections == 0 && dropped == {}
    {
      state, ipcConn, events, healthCheck := Disconnected, None, None, None;
      connections, dropped := 0, {};
    }

    /**
      Tries the paths in order. It connects exactly when one is ready, over the first ready one; every
      connection it dialled before that one was closed again.
     */
    method Connect(paths: seq<PathResult>) returns (connected: bool)
      modifies this
      ensures connected <==> Ready in paths
      ensures connected ==>
                && connections > old(connections)
                && View() == Attached(old(View()), connections - 1).(state := Connected)
                && state == Connected && ipcConn == events == Some(connections - 1) && healthCheck == old(healthCheck)
                && dropped == old(dropped) + Numbered(old(connections), connections - 1)
      ensures !connected ==>
                && View() == old(View()).(state := Disconnected)
                && state == Disconnected && ipcConn == old(ipcConn) && events == old(events)
                && dropped == old(dropped) + Numbered(old(connections), connections)
    {
      state := Connecting;
      for i := 0 to |paths|
        invariant Ready !in paths[..i]
        invariant View() == old(View()).(state := Connecting)
        invariant connections >= old(connections)
        invariant dropped == old(dropped) + Numbered(old(connections), connections)
      {
        assert paths[..i + 1] == paths[..i] + [paths[i]];
        if paths[i].DialFails? {
          continue;
        }
        var conn := connections;
        connections := connections + 1;
        if paths[i].HandshakeFails? {
          dropped := dropped + {conn};
          continue;
        }
        ipcConn := Some(conn);
        events := Some(conn);
        state := Connected;
        return true;
      }
      assert paths[..|paths|] == paths;
      state := Disconnected;
      return false;
    }

    /**
      One session. `room` tells whether the captured channel has room after the i-th read, `ctxDone` whether
      the context is cancelled when the session's last read returns, and `abandons` whether the select of the
      terminal event takes the context's branch. What is sent are the frames that found room, in order, then
      one terminal event unless the context cut it off; and the captured channel is cleared before its close.
     */
    method Run(received: seq<Read>, lastError: int, room: nat -> bool, ctxDone: bool, abandons: bool)
      returns (result: RunResult, sent: seq<Event>, closed: seq<Option<nat>>)
      modifies this
      ensures ipcConn == old(ipcConn) && healthCheck == old(healthCheck)
      ensures connections == old(connections) && dropped == old(dropped)
      ensures old(ipcConn).None? <==> result.NotConnected?
      ensures result.NotConnected? ==> View() == old(View()) && sent == [] && closed == []
      ensures !result.NotConnected? ==>
                && closed == [old(events)]
                && events == None
      ensures old(ipcConn).Some? ==>
                var n := SessionLength(received);
                var end := if n < |received| then received[n] else ReadFailed(lastError);
                if end.ReadFailed? && ctxDone then
                  result == Cancelled && sent == Roomy(received, room, n) && state == old(state)
                else
                  && result == SessionEnded(end.error) && state == Disconnected
                  && sent == Roomy(received, room, n) + if abandons then [] else [Ended(end.error)]
    {
      sent, closed := [], [];
      if ipcConn.None? {
        return NotConnected, sent, closed;
      }
      var captured := events;
      var i := 0;
      while i < |received| && !EndsSession(received[i])
        invariant 0 <= i <= SessionLength(received)
        invariant sent == Roomy(received, room, i)
      {
        if received[i].Frame? && room(i) {
          sent := sent + [Forwarded(received[i].payload)];
        }
        i := i + 1;
      }
      var end := if i < |received| then received[i] else ReadFailed(lastError);
      if end.ReadFailed? && ctxDone {
        result := Cancelled;
      } else {
        state := Disconnected;
        if !abandons {
          sent := sent + [Ended(end.error)];
        }
        result := SessionEnded(end.error);
      }
      DetachEvents(captured);
      closed := [captured];
    }

    method DetachEvents(captured: Option<nat>)
      modifies this
      ensures View() == Detached(old(View()), captured)
      ensures events == if old(events) == captured then None else old(events)
      ensures state == old(state) && ipcConn == old(ipcConn) && healthCheck == old(healthCheck)
      ensures connections == old(connections) && dropped == old(dropped)
    {
      if events == captured {
        events := None;
      }
    }

    method Close() returns (closed: Option<nat>)
      modifies this
      ensures (View(), closed) == ConnClosed(old(View()))
      ensures closed == ipcConn == old(ipcConn)
      ensures state == if old(ipcConn).Some? then Disconnected else old(state)
      ensures events == old(events) && healthCheck == old(healthCheck)
      ensures connections == old(connections) && dropped == old(dropped)
    {
      if ipcConn.None? {
        return None;
      }
      state := Disconnected;
      return ipcConn;
    }
  }

  // ---------- The health checker ----------

  /**
    A manager's guarded fields and what became of its channels: whether the stop and done fields still
    hold a channel, how often each was closed, and how many pongs wait in the pong channel, once it is made.
   */
  datatype Manager = Manager(hasStop: bool, hasDone: bool, stopCloses: nat, doneCloses: nat, pongs: Option<nat>)

  const UNSTARTED := Manager(false, false, 0, 0, None)

  const PONG_BUFFER: nat := 1

  function HcStarted(m: Manager): Manager {
    Manager(true, true, 0, 0, Some(0))
  }

  /** The critical section of Stop, and whether the caller then waits for done. */
  function HcStopped(m: Manager): (Manager, bool) {
    (m.(hasStop := false, hasDone := false, stopCloses := m.stopCloses + if m.hasStop then 1 else 0), m.hasDone)
  }

  function HcPong(m: Manager): Manager {
    if m.pongs.Some? && m.pongs.value < PONG_BUFFER then m.(pongs := Some(m.pongs.value + 1)) else m
  }

  /** A receive from the pong channel, if it is made and holds a pong. */
  function HcPongTaken(m: Manager): Manager {
    if m.pongs.Some? && m.pongs.value > 0 then m.(pongs := Some(m.pongs.value - 1)) else m
  }

  class HealthCheckManager {
    const interval: int
    const timeout: int
    var hasStop: bool
    var hasDone: bool
    var stopCloses: nat
    var doneCloses: nat
    var pongs: Option<nat>

    ghost function View(): Manager
      reads this
    {
      Manager(hasStop, hasDone, stopCloses, doneCloses, pongs)
    }

    constructor (interval: int, timeout: int)
      ensures View() == UNSTARTED
      ensures this.interval == if interval == 0 then 30_000_000_000 else interval
      ensures this.timeout == if timeout == 0 then 10_000_000_000 else timeout
    {
      this.interval := if interval == 0 then 30_000_000_000 else interval;
      this.timeout := if timeout == 0 then 10_000_000_000 else timeout;
      hasStop, hasDone, stopCloses, doneCloses, pongs := false, false, 0, 0, None;
    }

    method Start()
      modifies this
      ensures View() == HcStarted(old(View()))
      ensures hasStop && hasDone && stopCloses == doneCloses == 0 && pongs == Some(0)
    {
      hasStop, hasDone := true, true;
      stopCloses, doneCloses := 0, 0;
      pongs := Some(0);
    }

    /** Whatever Stop calls come, each stop channel is closed once, and only the first one waits. */
    method Stop() returns (waits: bool)
      modifies this
      ensures (View(), waits) == HcStopped(old(View()))
      ensures waits == old(hasDone) && !hasStop && !hasDone
      ensures stopCloses == old(stopCloses) + if old(hasStop) then 1 else 0
      ensures doneCloses == old(doneCloses) && pongs == old(pongs)
    {
      if hasStop {
        stopCloses := stopCloses + 1;
        hasStop := false;
      }
      waits := hasDone;
      hasDone := false;
    }

    /** Before Start there is no channel; after it, a pong that finds the channel full is dropped. */
    method HandlePong()
      modifies this
      ensures View() == HcPong(old(View()))
      ensures pongs == if old(pongs) == Some(0) then Some(1) else old(pongs)
      ensures hasStop == old(hasStop) && hasDone == old(hasDone)
      ensures stopCloses == old(stopCloses) && doneCloses == old(doneCloses)
    {
      if pongs.None? {
        return;
      }
      if pongs.value < PONG_BUFFER {
        pongs := Some(pongs.value + 1);
      }
    }
  }
}
