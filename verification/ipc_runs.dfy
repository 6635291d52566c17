/**
  Every interleaving of RunWithReconnect with the Run and health-check goroutines it starts, other
  callers of Close, subscribers and cancellation. A critical section or a channel operation is one step.
 */
module IpcRuns {
  import opened Wrappers
  import opened BoundedQueues
  import opened Backoff
  import opened IpcSessions
  import opened Reconnects

  /** Where the supervisor's loop is, from the state check at its top to the reconnect attempts. */
  datatype SupPc =
    | Top | Attaching | Starting | Launching
    | Waiting | ClosingConn
    | StoppingHc | Joining | Detaching | CheckingCtx
    | Trying | Sleeping | Dialing | Announcing
    | Returned

  datatype Config = Config(autoReconnect: bool, baseInterval: Int64, maxInterval: Int64)

  /**
    `hc` is the loop's health checker. `dials` counts the Connect calls of the current outage, and `slept`
    adds up the timers it has set; a cancellation cuts the last one short.
   */
  datatype Supervisor = Supervisor(pc: SupPc, hc: Option<nat>, cfg: Config, attempt: nat, dials: nat, slept: real)

  /** Where a Run is, with the connection and the events channel it captured. */
  datatype RunPc =
    | Spawned
    | HasConn(conn: nat)
    | Reading(conn: nat, ch: Option<nat>)
    | Ponging(conn: nat, ch: Option<nat>, hc: nat)
    | Ending(ch: Option<nat>, reason: int)
    | Clearing(ch: Option<nat>)
    | Closing(ch: Option<nat>)
    | Finished(ch: Option<nat>)

  datatype CheckerPc = Dormant | Idle | Pinging | Awaiting | TimedOut | Exiting | Exited

  /** `session` is the connection the client had when the checker was started. */
  datatype Checker = Checker(session: Option<nat>, pc: CheckerPc, manager: Manager)

  /** An events channel, the Runs that captured and that closed it, and whether its terminal event was skipped. */
  datatype Channel = Channel(queue: Queue<Event>, captors: seq<nat>, closers: seq<nat>, aborted: bool)

  const OPENED := Channel(EmptyQueue(), [], [], false)

  /** A checker's SendRaw or Close, and the connection it reached. */
  datatype Call = Call(checker: nat, conn: nat)

  /** The faults record a close of a nil channel and a send on a closed one. */
  datatype World = World(
    client: ClientState,
    sup: Supervisor,
    runs: seq<RunPc>,
    checkers: seq<Checker>,
    channels: seq<Channel>,
    calls: seq<Call>,
    cancelled: bool,
    nilClosed: bool,
    badSend: bool)

  /** RunWithReconnect is called on a new client, or on one that a first Connect has attached. */
  function Begin(online: bool, cfg: Config): World {
    World(
      if online then Attached(OFFLINE, 0).(state := Connected) else OFFLINE,
      Supervisor(Top, None, cfg, 0, 0, 0.0),
      [], [],
      if online then [OPENED] else [],
      [], false, false, false)
  }

  /** In a select, `Advance` takes the branch that goes on and `SeeCancel` the one of the context. */
  datatype SupAction = Advance | SeeCancel | StartWait(jitter: real) | Dial(succeeds: bool)

  datatype RunAction =
    | Proceed
    | ReadFrame(payload: int) | ReadPong | ReadFails(error: int) | ReadOpClose(error: int)
    | EmitTerminal | AbandonTerminal

  datatype CheckerAction = Tick | Ping(succeeds: bool) | ReceivePong | TimeOut | CloseConn | SeeStop | CloseDone

  datatype Step =
    | AtSup(supAction: SupAction)
    | AtRun(run: nat, runAction: RunAction)
    | AtChecker(checker: nat, checkerAction: CheckerAction)
    | Cancel
    | CloseClient
    | Take(channel: nat)

  // ---------- The supervisor ----------

  function Goto(w: World, pc: SupPc): World {
    w.(sup := w.sup.(pc := pc))
  }

  function SetState(c: ClientState, state: ConnectionState): ClientState {
    c.(state := state)
  }

  /** The newest session, which is also the newest connection. */
  function Newest(channels: seq<Channel>): Option<nat> {
    if channels == [] then None else Some(|channels| - 1)
  }

  function LastRunFinished(w: World): bool {
    w.runs != [] && w.runs[|w.runs| - 1].Finished?
  }

  /** The health checker of this round, while the loop has one. */
  function MapChecker(w: World, f: Checker -> Checker): World {
    if w.sup.hc.Some? && w.sup.hc.value < |w.checkers|
    then w.(checkers := w.checkers[w.sup.hc.value := f(w.checkers[w.sup.hc.value])])
    else w
  }

  /** The part of the loop from its top to the start of Run. */
  function SupBefore(w: World): World {
    match w.sup.pc
    case Top =>
      if w.client.state.Connected?
      then w.(sup := w.sup.(pc := Attaching, hc := Some(|w.checkers|)),
              checkers := w.checkers + [Checker(None, Dormant, UNSTARTED)])
      else w.(sup := w.sup.(pc := Launching, hc := None))
    case Attaching => Goto(w.(client := w.client.(healthCheck := w.sup.hc)), Starting)
    case Starting =>
      Goto(MapChecker(w, (c: Checker) => Checker(w.client.ipcConn, Idle, HcStarted(c.manager))), Launching)
    case Launching => Goto(w.(runs := w.runs + [Spawned]), Waiting)
    case _ => w
  }

  /** Stop returns at once for a checker whose done field is already nil. */
  function HcStopping(w: World): World {
    if w.sup.hc.Some? && w.sup.hc.value < |w.checkers| then
      var waits := HcStopped(w.checkers[w.sup.hc.value].manager).1;
      Goto(MapChecker(w, (c: Checker) => c.(manager := HcStopped(c.manager).0)), if waits then Joining else Detaching)
    else w
  }

  /** The part from the end of runInterruptible to the decision whether to reconnect. */
  function SupAfter(w: World): World {
    match w.sup.pc
    case Waiting => if LastRunFinished(w) then Goto(w, if w.sup.hc.Some? then StoppingHc else CheckingCtx) else w
    case ClosingConn =>
      Goto(w.(client := ConnClosed(w.client).0), if w.sup.hc.Some? then StoppingHc else CheckingCtx)
    case StoppingHc => HcStopping(w)
    case Joining =>
      if w.sup.hc.Some? && w.sup.hc.value < |w.checkers| && w.checkers[w.sup.hc.value].manager.doneCloses > 0
      then Goto(w, Detaching) else w
    case Detaching => w.(client := w.client.(healthCheck := None), sup := w.sup.(pc := CheckingCtx, hc := None))
    case CheckingCtx =>
      if w.cancelled || !w.sup.cfg.autoReconnect then Goto(w, Returned)
      else w.(sup := w.sup.(pc := Trying, dials := 0, slept := 0.0))
    case _ => w
  }

  /** The attempts of one outage. */
  function SupReconnecting(w: World): World {
    match w.sup.pc
    case Trying =>
      if w.sup.attempt >= MAX_RECONNECT_ATTEMPTS then Goto(w, Returned) else w
    case Sleeping => Goto(w.(client := SetState(w.client, Connecting)), Dialing)
    case Announcing => w.(client := SetState(w.client, Connected), sup := w.sup.(pc := Top, attempt := 0))
    case _ => w
  }

  /** An attempt sets its timer; `jitter` is the random number of NextInterval. */
  function WaitStarted(w: World, jitter: real): World {
    if !(w.sup.pc.Trying? && w.sup.attempt < MAX_RECONNECT_ATTEMPTS && 0.0 <= jitter <= 1.0) then w
    else
      w.(client := SetState(w.client, Reconnecting),
         sup := w.sup.(pc := Sleeping,
                       slept := w.sup.slept
                                + Interval(w.sup.cfg.baseInterval, w.sup.cfg.maxInterval, w.sup.attempt, jitter)))
  }

  /** How Connect ends: no path is ready, or one is and the client gets a new session. */
  function Dialed(w: World, succeeds: bool): World {
    if !w.sup.pc.Dialing? then w
    else if succeeds then
      w.(client := Attached(w.client, |w.channels|),
         channels := w.channels + [OPENED],
         sup := w.sup.(pc := Announcing, dials := w.sup.dials + 1))
    else
      w.(client := SetState(w.client, Disconnected),
         sup := w.sup.(pc := Trying, attempt := w.sup.attempt + 1, dials := w.sup.dials + 1))
  }

  function SupStep(w: World, action: SupAction): World {
    match action
    case Advance =>
      if w.sup.pc in {Top, Attaching, Starting, Launching} then SupBefore(w)
      else if w.sup.pc in {Trying, Sleeping, Announcing} then SupReconnecting(w)
      else SupAfter(w)
    case SeeCancel =>
      if !w.cancelled then w
      else if w.sup.pc.Waiting? then Goto(w, ClosingConn)
      else if w.sup.pc.Sleeping? then Goto(w, Returned)
      else w
    case StartWait(jitter) => WaitStarted(w, jitter)
    case Dial(succeeds) => Dialed(w, succeeds)
  }

  // ---------- Run ----------

  /** What a step of a Run does beyond its own place. */
  datatype Effect =
    | NoEffect
    | Captures(ch: Option<nat>)
    | Emits(ch: Option<nat>, event: Event)
    | Disconnects
    | Aborts(ch: Option<nat>)
    | Clears(ch: Option<nat>)
    | Closes(ch: Option<nat>)
    | Pongs(hc: nat)

  /** `room` tells whether the captured channel has room for an event. */
  function RunLocal(pc: RunPc, action: RunAction, client: ClientState, room: bool, cancelled: bool): (RunPc, Effect) {
    match action
    case Proceed => (
      match pc
      case Spawned => (if client.ipcConn.None? then Finished(None) else HasConn(client.ipcConn.value), NoEffect)
      case HasConn(conn) => (Reading(conn, client.events), Captures(client.events))
      case Ponging(conn, ch, hc) => (Reading(conn, ch), Pongs(hc))
      case Clearing(ch) => (Closing(ch), Clears(ch))
      case Closing(ch) => (Finished(ch), Closes(ch))
      case _ => (pc, NoEffect))
    case ReadFrame(payload) => if pc.Reading? then (pc, Emits(pc.ch, Forwarded(payload))) else (pc, NoEffect)
    case ReadPong =>
      if pc.Reading? && client.healthCheck.Some? then (Ponging(pc.conn, pc.ch, client.healthCheck.value), NoEffect)
      else (pc, NoEffect)
    case ReadFails(error) =>
      if !pc.Reading? then (pc, NoEffect)
      else if cancelled then (Clearing(pc.ch), Aborts(pc.ch))
      else (Ending(pc.ch, error), Disconnects)
    case ReadOpClose(error) => if pc.Reading? then (Ending(pc.ch, error), Disconnects) else (pc, NoEffect)
    case EmitTerminal => if pc.Ending? && room then (Clearing(pc.ch), Emits(pc.ch, Ended(pc.reason))) else (pc, NoEffect)
    case AbandonTerminal => if pc.Ending? && cancelled then (Clearing(pc.ch), Aborts(pc.ch)) else (pc, NoEffect)
  }

  /** The channel a Run captured, once it has. */
  function Captured(pc: RunPc): Option<nat> {
    if pc.Spawned? || pc.HasConn? then None else pc.ch
  }

  predicate RoomIn(channels: seq<Channel>, ch: Option<nat>) {
    ch.Some? && ch.value < |channels| && HasRoom(channels[ch.value].queue, EVENT_BUFFER)
  }

  /** What an effect makes of the channel it concerns. */
  function ChannelAfter(c: Channel, e: Effect, r: nat): Channel {
    match e
    case Captures(_) => c.(captors := c.captors + [r])
    case Emits(_, event) => if c.closers == [] then c.(queue := Offered(c.queue, event, EVENT_BUFFER)) else c
    case Aborts(_) => c.(aborted := true)
    case Closes(_) => c.(closers := c.closers + [r])
    case _ => c
  }

  function OnChannel(channels: seq<Channel>, e: Effect, r: nat): seq<Channel> {
    if (e.Captures? || e.Emits? || e.Aborts? || e.Closes?) && e.ch.Some? && e.ch.value < |channels|
    then channels[e.ch.value := ChannelAfter(channels[e.ch.value], e, r)]
    else channels
  }

  function ClientAfter(c: ClientState, e: Effect): ClientState {
    if e.Disconnects? then SetState(c, Disconnected) else if e.Clears? then Detached(c, e.ch) else c
  }

  function Ponged(checkers: seq<Checker>, e: Effect): seq<Checker> {
    if e.Pongs? && e.hc < |checkers|
    then checkers[e.hc := checkers[e.hc].(manager := HcPong(checkers[e.hc].manager))]
    else checkers
  }

  predicate SendsOnClosed(channels: seq<Channel>, e: Effect) {
    e.Emits? && e.ch.Some? && e.ch.value < |channels| && channels[e.ch.value].closers != []
  }

  function RunStep(w: World, r: nat, action: RunAction): World
    requires r < |w.runs|
  {
    var (pc, e) := RunLocal(w.runs[r], action, w.client, RoomIn(w.channels, Captured(w.runs[r])), w.cancelled);
    w.(runs := w.runs[r := pc],
       client := ClientAfter(w.client, e),
       channels := OnChannel(w.channels, e, r),
       checkers := Ponged(w.checkers, e),
       nilClosed := w.nilClosed || e == Closes(None),
       badSend := w.badSend || SendsOnClosed(w.channels, e))
  }

  // ---------- The health checker ----------

  /** Where a checker goes; `conn` is the client's connection, which Ping and CloseConn reach. */
  function CheckerLocal(c: Checker, action: CheckerAction, conn: Option<nat>, cancelled: bool): (Checker, bool) {
    match action
    case Tick => (if c.pc.Idle? then c.(pc := Pinging, manager := HcPongTaken(c.manager)) else c, false)
    case Ping(succeeds) =>
      if !c.pc.Pinging? then (c, false)
      else (c.(pc := if conn.Some? && succeeds then Awaiting else Exiting), conn.Some?)
    case ReceivePong =>
      (if c.pc.Awaiting? && c.manager.pongs.Some? && c.manager.pongs.value > 0
       then c.(pc := Idle, manager := HcPongTaken(c.manager)) else c, false)
    case TimeOut => (if c.pc.Awaiting? then c.(pc := TimedOut) else c, false)
    case CloseConn => if c.pc.TimedOut? then (c.(pc := Exiting), conn.Some?) else (c, false)
    case SeeStop =>
      (if (c.pc.Idle? || c.pc.Awaiting?) && (cancelled || c.manager.stopCloses > 0) then c.(pc := Exiting) else c, false)
    case CloseDone =>
      (if c.pc.Exiting?
       then c.(pc := Exited, manager := c.manager.(doneCloses := c.manager.doneCloses + 1)) else c, false)
  }

  function CheckerStep(w: World, k: nat, action: CheckerAction): World
    requires k < |w.checkers|
  {
    var (c, calls) := CheckerLocal(w.checkers[k], action, w.client.ipcConn, w.cancelled);
    w.(checkers := w.checkers[k := c],
       calls := if calls && w.client.ipcConn.Some? then w.calls + [Call(k, w.client.ipcConn.value)] else w.calls,
       client := if calls && action.CloseConn? then ConnClosed(w.client).0 else w.client)
  }

  // ---------- Runs ----------

  function Taken(w: World, ch: nat): World {
    if ch < |w.channels|
    then w.(channels := w.channels[ch := w.channels[ch].(queue := Took(w.channels[ch].queue))])
    else w
  }

  /** One atomic step; a step that is not possible changes nothing. */
  function Apply(w: World, step: Step): World {
    match step
    case AtSup(action) => SupStep(w, action)
    case AtRun(r, action) => if r < |w.runs| then RunStep(w, r, action) else w
    case AtChecker(k, action) => if k < |w.checkers| then CheckerStep(w, k, action) else w
    case Cancel => w.(cancelled := true)
    case CloseClient => w.(client := ConnClosed(w.client).0)
    case Take(ch) => Taken(w, ch)
  }

  function Exec(w: World, steps: seq<Step>): World
    decreases |steps|
  {
    if steps == [] then w else Exec(Apply(w, steps[0]), steps[1..])
  }

  // ---------- The session channel protocol ----------

  /** From a successful dial to the start of Run nobody has captured the newest channel. */
  predicate IsFresh(pc: SupPc) {
    pc.Announcing? || pc.Top? || pc.Attaching? || pc.Starting? || pc.Launching?
  }

  predicate IsReconnecting(pc: SupPc) {
    pc.Trying? || pc.Sleeping? || pc.Dialing?
  }

  predicate IsAfterRun(pc: SupPc) {
    pc.StoppingHc? || pc.Joining? || pc.Detaching? || pc.CheckingCtx?
  }

  predicate NoneEnded(log: seq<Event>) {
    forall i :: 0 <= i < |log| ==> log[i].Forwarded?
  }

  /** Exactly one terminal event, and it is the last. */
  predicate EndedOnce(log: seq<Event>) {
    |log| > 0 && log[|log| - 1].Ended? && NoneEnded(log[..|log| - 1])
  }

  /** How a session's log ends: with its terminal event, unless that was skipped after a cancellation. */
  predicate TerminalOk(c: Channel, cancelled: bool) {
    if c.aborted then cancelled && NoneEnded(c.queue.log) else EndedOnce(c.queue.log)
  }

  predicate Untouched(c: Channel, captors: seq<nat>) {
    c.captors == captors && c.closers == [] && !c.aborted && NoneEnded(c.queue.log)
  }

  predicate Over(c: Channel, cancelled: bool) {
    |c.captors| == 1 && c.closers == c.captors && TerminalOk(c, cancelled)
  }

  /** What the place of the newest Run, the r-th, tells about the newest channel. */
  predicate Owns(pc: RunPc, r: nat, channels: seq<Channel>, events: Option<nat>, cancelled: bool) {
    match pc
    case Spawned => events == Newest(channels) && (events.Some? ==> Untouched(channels[events.value], []))
    case HasConn(conn) => events == Newest(channels) == Some(conn) && Untouched(channels[conn], [])
    case Reading(conn, ch) => events == Newest(channels) == ch == Some(conn) && Untouched(channels[conn], [r])
    case Ponging(conn, ch, _) => events == Newest(channels) == ch == Some(conn) && Untouched(channels[conn], [r])
    case Ending(ch, _) => events == Newest(channels) == ch && ch.Some? && Untouched(channels[ch.value], [r])
    case Clearing(ch) =>
      && events == Newest(channels) == ch && ch.Some?
      && channels[ch.value].captors == [r] && channels[ch.value].closers == []
      && TerminalOk(channels[ch.value], cancelled)
    case Closing(ch) =>
      && events == None && Newest(channels) == ch && ch.Some?
      && channels[ch.value].captors == [r] && channels[ch.value].closers == []
      && TerminalOk(channels[ch.value], cancelled)
    case Finished(ch) =>
      && events == None && Newest(channels) == ch
      && (ch.Some? ==> channels[ch.value].captors == [r] && Over(channels[ch.value], cancelled))
  }

  /** Every Run but the newest has finished, and every channel but the newest is over. */
  predicate OlderDone(runs: seq<RunPc>, channels: seq<Channel>, cancelled: bool) {
    && (forall r :: 0 <= r < |runs| - 1 ==> runs[r].Finished?)
    && (forall ch :: 0 <= ch < |channels| - 1 ==> Over(channels[ch], cancelled))
  }

  predicate NewestInv(w: World) {
    if IsFresh(w.sup.pc) then
      && (w.runs != [] ==> w.runs[|w.runs| - 1].Finished?)
      && w.client.events == Newest(w.channels)
      && (w.client.events.Some? ==> Untouched(w.channels[w.client.events.value], []))
    else
      && w.runs != []
      && Owns(w.runs[|w.runs| - 1], |w.runs| - 1, w.channels, w.client.events, w.cancelled)
      && (IsReconnecting(w.sup.pc) ==> w.runs[|w.runs| - 1].Finished?)
      && (IsAfterRun(w.sup.pc) ==> w.runs[|w.runs| - 1].Finished? || w.cancelled)
      && (w.sup.pc.ClosingConn? ==> w.cancelled)
  }

  predicate SessionInv(w: World) {
    && w.client.ipcConn == Newest(w.channels)
    && OlderDone(w.runs, w.channels, w.cancelled)
    && NewestInv(w)
    && !w.nilClosed && !w.badSend
  }

  /** Steps that leave runs and channels alone, and of the client only touch its state and health check. */
  predicate SameSession(w: World, w': World) {
    && w'.runs == w.runs && w'.channels == w.channels && w'.cancelled == w.cancelled
    && w'.client.ipcConn == w.client.ipcConn && w'.client.events == w.client.events
    && w'.nilClosed == w.nilClosed && w'.badSend == w.badSend
  }

  lemma SameSessionKeeps(w: World, w': World)
    requires SessionInv(w) && SameSession(w, w')
    requires w'.sup.pc == w.sup.pc
          || (IsFresh(w.sup.pc) && IsFresh(w'.sup.pc))
          || (w.sup.pc.Waiting? && LastRunFinished(w) && IsAfterRun(w'.sup.pc))
          || (w.sup.pc.Waiting? && w.cancelled && w'.sup.pc.ClosingConn?)
          || (w.sup.pc.ClosingConn? && IsAfterRun(w'.sup.pc))
          || (IsAfterRun(w.sup.pc) && (IsAfterRun(w'.sup.pc) || w'.sup.pc.Returned?))
          || (w.sup.pc.CheckingCtx? && !w.cancelled && IsReconnecting(w'.sup.pc))
          || (IsReconnecting(w.sup.pc) && (IsReconnecting(w'.sup.pc) || w'.sup.pc.Returned?))
    ensures SessionInv(w')
  {
    hide OlderDone, Owns, Untouched;
  }

  lemma LaunchKeepsSession(w: World)
    requires SessionInv(w) && w.sup.pc.Launching?
    ensures SessionInv(SupBefore(w))
  {
    hide Untouched, Over;
  }

  lemma SupBeforeKeepsSession(w: World)
    requires SessionInv(w)
    ensures SessionInv(SupBefore(w))
  {
    if w.sup.pc.Launching? {
      LaunchKeepsSession(w);
    } else {
      assert SameSession(w, SupBefore(w));
      hide SessionInv;
      SameSessionKeeps(w, SupBefore(w));
    }
  }

  lemma SupAfterKeepsSession(w: World)
    requires SessionInv(w)
    ensures SessionInv(SupAfter(w))
  {
    assert SameSession(w, SupAfter(w));
    hide SessionInv;
    SameSessionKeeps(w, SupAfter(w));
  }

  lemma SupReconnectingKeepsSession(w: World)
    requires SessionInv(w)
    ensures SessionInv(SupReconnecting(w))
  {
    assert SameSession(w, SupReconnecting(w));
    hide SessionInv;
    SameSessionKeeps(w, SupReconnecting(w));
  }

  lemma DialedKeepsSession(w: World, succeeds: bool)
    requires SessionInv(w)
    ensures SessionInv(Dialed(w, succeeds))
  {
    if w.sup.pc.Dialing? && succeeds {
      var w' := Dialed(w, succeeds);
      assert w'.channels[..|w.channels|] == w.channels;
      assert forall ch :: 0 <= ch < |w.channels| ==> Over(w.channels[ch], w.cancelled);
      hide Over;
      assert OlderDone(w'.runs, w'.channels, w'.cancelled);
      assert NewestInv(w');
    } else {
      assert SameSession(w, Dialed(w, succeeds));
      hide SessionInv;
      SameSessionKeeps(w, Dialed(w, succeeds));
    }
  }

  lemma SupKeepsSession(w: World, action: SupAction)
    requires SessionInv(w)
    ensures SessionInv(SupStep(w, action))
  {
    hide SessionInv, SupBefore, SupAfter, SupReconnecting, Dialed, Interval;
    SupBeforeKeepsSession(w);
    SupAfterKeepsSession(w);
    SupReconnectingKeepsSession(w);
    match action {
      case Dial(succeeds) => DialedKeepsSession(w, succeeds);
      case StartWait(jitter) => SameSessionKeeps(w, SupStep(w, action));
      case SeeCancel => SameSessionKeeps(w, SupStep(w, action));
      case Advance =>
    }
  }

  lemma NoneEndedStep(log: seq<Event>, event: Event)
    requires NoneEnded(log)
    ensures event.Forwarded? ==> NoneEnded(log + [event])
    ensures event.Ended? ==> EndedOnce(log + [event])
  {
    assert (log + [event])[..|log|] == log;
  }

  /** A finished Run does nothing. */
  lemma FinishedStays(pc: RunPc, action: RunAction, client: ClientState, room: bool, cancelled: bool)
    requires pc.Finished?
    ensures RunLocal(pc, action, client, room, cancelled) == (pc, NoEffect)
  {
  }

  /** The newest Run keeps owning the newest channel, which is the only one it touches. */
  lemma OwnerKeeps(pc: RunPc, action: RunAction, r: nat, client: ClientState, channels: seq<Channel>, cancelled: bool)
    requires client.ipcConn == Newest(channels)
    requires Owns(pc, r, channels, client.events, cancelled)
    ensures
      var (pc', e) := RunLocal(pc, action, client, RoomIn(channels, Captured(pc)), cancelled);
      && Owns(pc', r, OnChannel(channels, e, r), ClientAfter(client, e).events, cancelled)
      && e != Closes(None) && !SendsOnClosed(channels, e)
      && (e.Captures? || e.Emits? || e.Aborts? || e.Closes? ==> e.ch == Newest(channels))
  {
    hide NoneEnded, EndedOnce;
    var (pc', e) := RunLocal(pc, action, client, RoomIn(channels, Captured(pc)), cancelled);
    if e.Emits? && e.ch.Some? {
      NoneEndedStep(channels[e.ch.value].queue.log, e.event);
    }
  }

  lemma RunKeepsSession(w: World, r: nat, action: RunAction)
    requires SessionInv(w) && r < |w.runs|
    ensures SessionInv(RunStep(w, r, action))
  {
    var w' := RunStep(w, r, action);
    var last := |w.runs| - 1;
    var (pc, e) := RunLocal(w.runs[r], action, w.client, RoomIn(w.channels, Captured(w.runs[r])), w.cancelled);
    if w.runs[r].Finished? {
      FinishedStays(w.runs[r], action, w.client, RoomIn(w.channels, Captured(w.runs[r])), w.cancelled);
      hide RunLocal, SessionInv;
      assert w'.runs == w.runs;
      SameSessionKeeps(w, w');
    } else {
      assert r == last;
      OwnerKeeps(w.runs[r], action, r, w.client, w.channels, w.cancelled);
      hide RunLocal, Owns, Untouched, Over, ChannelAfter, SendsOnClosed;
      assert OlderDone(w'.runs, w'.channels, w'.cancelled);
      assert NewestInv(w');
    }
  }

  lemma CheckerKeepsSession(w: World, k: nat, action: CheckerAction)
    requires SessionInv(w) && k < |w.checkers|
    ensures SessionInv(CheckerStep(w, k, action))
  {
    hide SessionInv, CheckerLocal;
    SameSessionKeeps(w, CheckerStep(w, k, action));
  }

  lemma CancelKeepsSession(w: World)
    requires SessionInv(w)
    ensures SessionInv(Apply(w, Cancel))
  {
    hide NoneEnded, EndedOnce;
  }

  /** Channels that differ only in what was received from them tell the same. */
  predicate SameButTaken(a: seq<Channel>, b: seq<Channel>) {
    |a| == |b| && forall i :: 0 <= i < |a| ==> a[i] == b[i].(queue := a[i].queue) && a[i].queue.log == b[i].queue.log
  }

  lemma TakenIsSame(w: World, ch: nat)
    ensures var w' := Taken(w, ch); w' == w.(channels := w'.channels) && SameButTaken(w'.channels, w.channels)
  {
  }

  lemma TakenOwns(pc: RunPc, r: nat, a: seq<Channel>, b: seq<Channel>, events: Option<nat>, cancelled: bool)
    requires SameButTaken(a, b) && Owns(pc, r, b, events, cancelled)
    ensures Owns(pc, r, a, events, cancelled)
  {
    hide NoneEnded, EndedOnce;
  }

  lemma TakenOlderDone(runs: seq<RunPc>, a: seq<Channel>, b: seq<Channel>, cancelled: bool)
    requires SameButTaken(a, b) && OlderDone(runs, b, cancelled)
    ensures OlderDone(runs, a, cancelled)
  {
    hide NoneEnded, EndedOnce;
  }

  lemma TakeKeepsSession(w: World, ch: nat)
    requires SessionInv(w)
    ensures SessionInv(Taken(w, ch))
  {
    TakenIsSame(w, ch);
    var w' := Taken(w, ch);
    TakenOlderDone(w.runs, w'.channels, w.channels, w.cancelled);
    if w.runs != [] && !IsFresh(w.sup.pc) {
      TakenOwns(w.runs[|w.runs| - 1], |w.runs| - 1, w'.channels, w.channels, w.client.events, w.cancelled);
    }
    hide Taken, OlderDone, Owns, NoneEnded, EndedOnce;
  }

  lemma StepKeepsSession(w: World, step: Step)
    requires SessionInv(w)
    ensures SessionInv(Apply(w, step))
  {
    hide SessionInv, SupStep, RunStep, CheckerStep, Taken;
    match step {
      case AtSup(action) => SupKeepsSession(w, action);
      case AtRun(r, action) => if r < |w.runs| { RunKeepsSession(w, r, action); }
      case AtChecker(k, action) => if k < |w.checkers| { CheckerKeepsSession(w, k, action); }
      case Cancel => CancelKeepsSession(w);
      case CloseClient => SameSessionKeeps(w, Apply(w, step));
      case Take(ch) => TakeKeepsSession(w, ch);
    }
  }

  lemma {:induction false} ExecKeepsSession(w: World, steps: seq<Step>)
    requires SessionInv(w)
    ensures SessionInv(Exec(w, steps))
    decreases |steps|
  {
    hide SessionInv, Apply;
    if steps != [] {
      StepKeepsSession(w, steps[0]);
      ExecKeepsSession(Apply(w, steps[0]), steps[1..]);
    }
  }

  lemma BeginKeepsSession(online: bool, cfg: Config)
    ensures SessionInv(Begin(online, cfg))
  {
  }

  /**
    The session channel protocol, in every interleaving: a nil channel is never closed and nothing is
    sent on a closed one; each events channel is captured and closed at most once, by the same Run; a
    session that ended has exactly one terminal event, as the last one sent, unless the context was
    cancelled; Events() never returns a closed channel; and two Runs never read at the same time.
   */
  lemma SessionProtocol(online: bool, cfg: Config, steps: seq<Step>)
    ensures var w := Exec(Begin(online, cfg), steps);
            && !w.nilClosed && !w.badSend
            && (forall ch :: 0 <= ch < |w.channels| ==>
                  var c := w.channels[ch];
                  && |c.captors| <= 1 && c.closers <= c.captors
                  && (c.closers == [] && !c.aborted && c.captors == [] ==> NoneEnded(c.queue.log))
                  && (c.closers != [] ==>
                        if c.aborted then w.cancelled && NoneEnded(c.queue.log) else EndedOnce(c.queue.log)))
            && (w.client.events.Some? ==>
                  w.client.events.value < |w.channels| && w.channels[w.client.events.value].closers == [])
            && (forall r :: 0 <= r < |w.runs| - 1 ==> w.runs[r].Finished?)
  {
    BeginKeepsSession(online, cfg);
    ExecKeepsSession(Begin(online, cfg), steps);
    hide Exec, Begin, NoneEnded, EndedOnce;
    var w := Exec(Begin(online, cfg), steps);
    forall ch | 0 <= ch < |w.channels| ensures SoundChannel(w.channels[ch], w.cancelled) {
      ChannelIsSound(w, ch);
    }
  }

  predicate SoundChannel(c: Channel, cancelled: bool) {
    && |c.captors| <= 1 && c.closers <= c.captors
    && (c.closers == [] && !c.aborted && c.captors == [] ==> NoneEnded(c.queue.log))
    && (c.closers != [] ==> TerminalOk(c, cancelled))
  }

  lemma ChannelIsSound(w: World, ch: nat)
    requires SessionInv(w) && ch < |w.channels|
    ensures SoundChannel(w.channels[ch], w.cancelled)
  {
    hide NoneEnded, EndedOnce;
    if ch < |w.channels| - 1 {
      assert Over(w.channels[ch], w.cancelled);
    }
  }
}
