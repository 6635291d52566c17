/**
  The terminal client: its model, whose Update returns the commands to run, and every interleaving of
  those commands, their result messages, the read pumps of its connections and the user's keys.
 */
module TerminalClient {
  import opened Backoff
  import opened Wrappers

  const RECONNECT_BASE: Int64 := 1_000_000_000
  const RECONNECT_LIMIT: Int64 := 30_000_000_000
  const MESSAGE_BUFFER: nat := 16

  datatype Status = Connecting | Connected | Reconnecting

  /** What a read pump delivers; `ticks` tells whether the snapshot carries timestamps. */
  datatype Event = Snapshot(ticks: bool) | OtherMessage | ParseError | ConnectionLost

  /** An event and the connection it came from. */
  datatype Delivery = Delivery(session: nat, event: Event)

  datatype Msg =
    | WindowSizeMsg | OtherKeyMsg | QuitKeyMsg
    | ConnectedMsg | ConnectFailedMsg | ReconnectMsg | WsEventMsg(delivery: Delivery) | TickMsg

  datatype Cmd = DialCmd | ReadCmd | ReconnectCmd(delay: Int64) | TickCmd | QuitCmd

  /** The fields that decide what the client does next; `closes` counts the closes of its done channel. */
  datatype Model = Model(ws: Status, backoff: Int64, ticking: bool, quitting: bool, closes: nat)

  const INITIAL := Model(Connecting, 0, false, false, 0)

  function ScheduleReconnect(m: Model): (Model, seq<Cmd>) {
    var backoff := NextBackoff(m.backoff, RECONNECT_BASE, RECONNECT_LIMIT);
    (m.(ws := Reconnecting, backoff := backoff), [ReconnectCmd(backoff)])
  }

  function HandleWsEvent(m: Model, event: Event): (Model, seq<Cmd>) {
    match event
    case ConnectionLost => ScheduleReconnect(m)
    case ParseError => (m, [ReadCmd])
    case _ =>
      var m' := if event.Snapshot? then m.(ticking := event.ticks) else m;
      (m', [ReadCmd] + if m'.ticking then [TickCmd] else [])
  }

  function Update(m: Model, msg: Msg): (Model, seq<Cmd>) {
    match msg
    case WindowSizeMsg => (m, [])
    case OtherKeyMsg => (m, [])
    case QuitKeyMsg => (m.(quitting := true, closes := m.closes + 1), [QuitCmd])
    case ConnectedMsg => (m.(ws := Connected, backoff := 0), [ReadCmd])
    case ConnectFailedMsg => ScheduleReconnect(m)
    case ReconnectMsg => (m, [DialCmd])
    case WsEventMsg(delivery) => HandleWsEvent(m, delivery.event)
    case TickMsg => (m, if m.ticking then [TickCmd] else [])
  }

  // ---------- Runs ----------

  /** A command that runs, or the message it ended with and that Update has not seen yet. */
  datatype Task = Running(cmd: Cmd) | Produced(msg: Msg)

  /**
    `pumps` tells of each connection dialled whether its read pump still runs, and `out` is the channel
    they share.
   */
  datatype World = World(model: Model, tasks: seq<Task>, pumps: seq<bool>, out: seq<Delivery>)

  const BEGIN := World(INITIAL, [Running(DialCmd)], [], [])

  datatype Step =
    | DialEnds(task: nat, succeeds: bool)
    | Deliver(pump: nat, event: Event)
    | ReadTakes(task: nat)
    | ReadGivesUp(task: nat)
    | TimerFires(task: nat)
    | Handle(task: nat)
    | UserMsg(msg: Msg)

  function Replaced(tasks: seq<Task>, i: nat, with: seq<Task>): seq<Task>
    requires i < |tasks|
  {
    tasks[..i] + with + tasks[i + 1..]
  }

  function Started(cmds: seq<Cmd>): seq<Task> {
    if cmds == [] then [] else [Running(cmds[0])] + Started(cmds[1..])
  }

  function Handled(w: World, i: nat, msg: Msg): World
    requires i < |w.tasks|
  {
    var (m, cmds) := Update(w.model, msg);
    w.(model := m, tasks := Replaced(w.tasks, i, Started(cmds)))
  }

  function Apply(w: World, step: Step): World {
    match step
    case DialEnds(i, succeeds) =>
      if !(i < |w.tasks| && w.tasks[i] == Running(DialCmd)) then w
      else if succeeds then
        w.(tasks := Replaced(w.tasks, i, [Produced(ConnectedMsg)]), pumps := w.pumps + [true])
      else w.(tasks := Replaced(w.tasks, i, [Produced(ConnectFailedMsg)]))
    case Deliver(p, event) =>
      if !(p < |w.pumps| && w.pumps[p] && |w.out| < MESSAGE_BUFFER) then w
      else w.(out := w.out + [Delivery(p, event)], pumps := w.pumps[p := !event.ConnectionLost?])
    case ReadTakes(i) =>
      if !(i < |w.tasks| && w.tasks[i] == Running(ReadCmd) && w.out != []) then w
      else w.(tasks := Replaced(w.tasks, i, [Produced(WsEventMsg(w.out[0]))]), out := w.out[1..])
    case ReadGivesUp(i) =>
      if !(i < |w.tasks| && w.tasks[i] == Running(ReadCmd) && w.model.quitting) then w
      else w.(tasks := Replaced(w.tasks, i, []))
    case TimerFires(i) =>
      if !(i < |w.tasks| && w.tasks[i].Running?) then w
      else if w.tasks[i].cmd.ReconnectCmd? then w.(tasks := Replaced(w.tasks, i, [Produced(ReconnectMsg)]))
      else if w.tasks[i].cmd.TickCmd? then w.(tasks := Replaced(w.tasks, i, [Produced(TickMsg)]))
      else w
    case Handle(i) => if i < |w.tasks| && w.tasks[i].Produced? then Handled(w, i, w.tasks[i].msg) else w
    case UserMsg(msg) =>
      if !(msg.WindowSizeMsg? || msg.OtherKeyMsg? || msg.QuitKeyMsg?) then w
      else
        var (m, cmds) := Update(w.model, msg);
        w.(model := m, tasks := w.tasks + Started(cmds))
  }

  function Exec(w: World, steps: seq<Step>): World
    decreases |steps|
  {
    if steps == [] then w else Exec(Apply(w, steps[0]), steps[1..])
  }

  // ---------- The single driver ----------

  /** The tasks that carry the connection on: a dial, a read, a reconnect timer, or what one ended with. */
  predicate IsDriver(t: Task) {
    match t
    case Running(cmd) => cmd.DialCmd? || cmd.ReadCmd? || cmd.ReconnectCmd?
    case Produced(msg) => msg.ConnectedMsg? || msg.ConnectFailedMsg? || msg.ReconnectMsg? || msg.WsEventMsg?
  }

  function IfDriver(t: Task): seq<Task> {
    if IsDriver(t) then [t] else []
  }

  function Drivers(tasks: seq<Task>): seq<Task> {
    if tasks == [] then [] else IfDriver(tasks[0]) + Drivers(tasks[1..])
  }

  lemma {:induction false} DriversConcat(a: seq<Task>, b: seq<Task>)
    ensures Drivers(a + b) == Drivers(a) + Drivers(b)
  {
    hide IfDriver;
    if a == [] {
      assert a + b == b;
    } else {
      assert (a + b)[0] == a[0] && (a + b)[1..] == a[1..] + b;
      DriversConcat(a[1..], b);
      assert Drivers(a + b) == IfDriver(a[0]) + Drivers(a[1..] + b);
      assert IfDriver(a[0]) + (Drivers(a[1..]) + Drivers(b)) == (IfDriver(a[0]) + Drivers(a[1..])) + Drivers(b);
    }
  }

  lemma DriversAround(left: seq<Task>, mid: seq<Task>, right: seq<Task>)
    ensures Drivers(left + mid + right) == Drivers(left) + Drivers(mid) + Drivers(right)
  {
    hide Drivers;
    DriversConcat(left + mid, right);
    DriversConcat(left, mid);
  }

  lemma DriversReplaced(tasks: seq<Task>, i: nat, with: seq<Task>)
    requires i < |tasks| && |Drivers(tasks)| == 1
    ensures IsDriver(tasks[i]) ==> Drivers(tasks) == [tasks[i]] && Drivers(Replaced(tasks, i, with)) == Drivers(with)
    ensures !IsDriver(tasks[i]) && Drivers(with) == [] ==> Drivers(Replaced(tasks, i, with)) == Drivers(tasks)
  {
    hide IsDriver;
    var (left, right) := (tasks[..i], tasks[i + 1..]);
    assert tasks == left + [tasks[i]] + right;
    DriversAround(left, [tasks[i]], right);
    DriversAround(left, with, right);
    assert Drivers([tasks[i]]) == IfDriver(tasks[i]) + Drivers([]);
  }

  /** No connection's pump runs and nothing is left to read. */
  predicate Quiet(pumps: seq<bool>, out: seq<Delivery>) {
    (forall p :: 0 <= p < |pumps| ==> !pumps[p]) && out == []
  }

  /** Everything left to read comes from the newest connection, and its loss, if it is there, is the last. */
  predicate Live(pumps: seq<bool>, out: seq<Delivery>) {
    && |pumps| > 0
    && (forall p :: 0 <= p < |pumps| - 1 ==> !pumps[p])
    && (forall i :: 0 <= i < |out| ==> out[i].session == |pumps| - 1)
    && (forall i :: 0 <= i < |out| - 1 ==> !out[i].event.ConnectionLost?)
    && (pumps[|pumps| - 1] <==> out == [] || !out[|out| - 1].event.ConnectionLost?)
  }

  /** What the driver tells about the status, the connections and the delay. */
  predicate DriverOk(d: Task, w: World) {
    && (match d
        case Running(DialCmd) => !w.model.ws.Connected? && Quiet(w.pumps, w.out)
        case Running(ReadCmd) => w.model.ws.Connected? && Live(w.pumps, w.out)
        case Running(ReconnectCmd(delay)) =>
          && w.model.ws.Reconnecting? && Quiet(w.pumps, w.out)
          && delay == w.model.backoff
        case Produced(ConnectedMsg) => !w.model.ws.Connected? && Live(w.pumps, w.out)
        case Produced(ConnectFailedMsg) => !w.model.ws.Connected? && Quiet(w.pumps, w.out)
        case Produced(ReconnectMsg) => w.model.ws.Reconnecting? && Quiet(w.pumps, w.out)
        case Produced(WsEventMsg(delivery)) =>
          && w.model.ws.Connected?
          && |w.pumps| > 0 && delivery.session == |w.pumps| - 1
          && if delivery.event.ConnectionLost? then Quiet(w.pumps, w.out) else Live(w.pumps, w.out)
        case _ => false)
  }

  predicate Inv(w: World) {
    !w.model.quitting ==>
      && |Drivers(w.tasks)| == 1
      && DriverOk(Drivers(w.tasks)[0], w)
  }

  lemma StartedDrivers(cmds: seq<Cmd>)
    requires |cmds| <= 2
    ensures |cmds| == 0 ==> Started(cmds) == []
    ensures |cmds| == 1 ==> Started(cmds) == [Running(cmds[0])]
    ensures |cmds| == 2 ==> Started(cmds) == [Running(cmds[0]), Running(cmds[1])]
  {
    if |cmds| > 0 {
      assert Started(cmds[1..]) == if |cmds| == 1 then [] else [Running(cmds[1])] + Started(cmds[1..][1..]);
    }
  }

  /** The commands of a handled driver hold exactly one driver, and those of another message none. */
  lemma UpdateDrives(m: Model, msg: Msg)
    requires !msg.QuitKeyMsg?
    ensures var (m', cmds) := Update(m, msg);
            var drivers := Drivers(Started(cmds));
            && m'.quitting == m.quitting
            && if !IsDriver(Produced(msg)) then drivers == [] && m' == m
               else
                 && |drivers| == 1
                 && drivers[0] == match msg
                                  case ConnectedMsg => Running(ReadCmd)
                                  case ReconnectMsg => Running(DialCmd)
                                  case ConnectFailedMsg => Running(ReconnectCmd(m'.backoff))
                                  case _ =>
                                    if msg.delivery.event.ConnectionLost? then Running(ReconnectCmd(m'.backoff))
                                    else Running(ReadCmd)
  {
    var (m', cmds) := Update(m, msg);
    StartedDrivers(cmds);
    var tasks := Started(cmds);
    if |cmds| == 1 {
      assert Drivers(tasks) == Drivers([Running(cmds[0])]);
    } else if |cmds| == 2 {
      assert tasks[1..] == [Running(TickCmd)] && Drivers([Running(TickCmd)]) == [];
    }
  }

  lemma HandleKeeps(w: World, i: nat)
    requires Inv(w) && i < |w.tasks| && w.tasks[i].Produced? && !w.tasks[i].msg.QuitKeyMsg?
    ensures Inv(Handled(w, i, w.tasks[i].msg))
  {
    var msg := w.tasks[i].msg;
    var (m', cmds) := Update(w.model, msg);
    UpdateDrives(w.model, msg);
    if !w.model.quitting {
      DriversReplaced(w.tasks, i, Started(cmds));
      HandledDriver(w, i, msg);
    }
    hide Update, DriverOk, Replaced, Started, Drivers;
  }

  /** The driver that follows fits the model it comes with. */
  lemma HandledDriver(w: World, i: nat, msg: Msg)
    requires i < |w.tasks| && !msg.QuitKeyMsg?
    requires IsDriver(Produced(msg)) ==> DriverOk(Produced(msg), w)
    ensures var w' := Handled(w, i, msg);
            && (forall d :: !IsDriver(Produced(msg)) && DriverOk(d, w) ==> DriverOk(d, w'))
            && (IsDriver(Produced(msg)) ==>
                  DriverOk(match msg
                           case ConnectedMsg => Running(ReadCmd)
                           case ReconnectMsg => Running(DialCmd)
                           case ConnectFailedMsg => Running(ReconnectCmd(w'.model.backoff))
                           case _ =>
                             if msg.delivery.event.ConnectionLost? then Running(ReconnectCmd(w'.model.backoff))
                             else Running(ReadCmd), w'))
  {
    hide NextBackoff, Replaced, Started, Live, Quiet;
  }

  lemma DeliverKeeps(w: World, p: nat, event: Event)
    requires Inv(w)
    ensures Inv(Apply(w, Deliver(p, event)))
  {
    var w' := Apply(w, Deliver(p, event));
    if w' != w && !w.model.quitting {
      assert Live(w.pumps, w.out) && p == |w.pumps| - 1;
      assert w'.out[..|w.out|] == w.out;
      assert Live(w'.pumps, w'.out);
    }
    hide Drivers;
  }

  lemma ReadTakesNext(pumps: seq<bool>, out: seq<Delivery>)
    requires Live(pumps, out) && out != []
    ensures out[0].session == |pumps| - 1
    ensures if out[0].event.ConnectionLost? then Quiet(pumps, out[1..]) else Live(pumps, out[1..])
  {
    assert forall j :: 0 <= j < |out[1..]| ==> out[1..][j] == out[j + 1];
  }

  /** A task that carries the connection on is replaced by what it ended with. */
  lemma DriverEnds(w: World, i: nat, result: Task, pumps: seq<bool>, out: seq<Delivery>)
    requires Inv(w) && i < |w.tasks| && IsDriver(w.tasks[i]) && IsDriver(result)
    requires DriverOk(w.tasks[i], w) ==>
               DriverOk(result, w.(tasks := Replaced(w.tasks, i, [result]), pumps := pumps, out := out))
    ensures Inv(w.(tasks := Replaced(w.tasks, i, [result]), pumps := pumps, out := out))
  {
    hide Replaced, DriverOk, IsDriver;
    assert Drivers([result]) == IfDriver(result) + Drivers([]);
    if !w.model.quitting {
      DriversReplaced(w.tasks, i, [result]);
    }
    hide Drivers;
  }

  lemma ReadTakesKeeps(w: World, i: nat)
    requires Inv(w)
    ensures Inv(Apply(w, ReadTakes(i)))
  {
    hide Inv, Replaced, Live, Quiet;
    if i < |w.tasks| && w.tasks[i] == Running(ReadCmd) && w.out != [] {
      if Live(w.pumps, w.out) {
        ReadTakesNext(w.pumps, w.out);
      }
      DriverEnds(w, i, Produced(WsEventMsg(w.out[0])), w.pumps, w.out[1..]);
    }
  }

  lemma DialMakesLive(pumps: seq<bool>, out: seq<Delivery>)
    requires Quiet(pumps, out)
    ensures Live(pumps + [true], out)
  {
  }

  lemma DialEndsKeeps(w: World, i: nat, succeeds: bool)
    requires Inv(w)
    ensures Inv(Apply(w, DialEnds(i, succeeds)))
  {
    hide Inv, Replaced, Live, Quiet;
    if i < |w.tasks| && w.tasks[i] == Running(DialCmd) {
      if Quiet(w.pumps, w.out) {
        DialMakesLive(w.pumps, w.out);
      }
      if succeeds {
        DriverEnds(w, i, Produced(ConnectedMsg), w.pumps + [true], w.out);
      } else {
        DriverEnds(w, i, Produced(ConnectFailedMsg), w.pumps, w.out);
      }
    }
  }

  lemma TickFiresKeeps(w: World, i: nat)
    requires Inv(w) && i < |w.tasks| && w.tasks[i] == Running(TickCmd)
    ensures Inv(w.(tasks := Replaced(w.tasks, i, [Produced(TickMsg)])))
  {
    hide Replaced, Live, Quiet;
    assert Drivers([Produced(TickMsg)]) == [];
    if !w.model.quitting {
      DriversReplaced(w.tasks, i, [Produced(TickMsg)]);
      SameDriverOk(Drivers(w.tasks)[0], w, Replaced(w.tasks, i, [Produced(TickMsg)]));
    }
    hide Drivers, DriverOk;
  }

  lemma SameDriverOk(d: Task, w: World, tasks: seq<Task>)
    ensures DriverOk(d, w.(tasks := tasks)) <==> DriverOk(d, w)
  {
  }

  lemma TimerFiresKeeps(w: World, i: nat)
    requires Inv(w)
    ensures Inv(Apply(w, TimerFires(i)))
  {
    hide Inv, Replaced, Live, Quiet;
    if i < |w.tasks| && w.tasks[i].Running? {
      if w.tasks[i].cmd.ReconnectCmd? {
        DriverEnds(w, i, Produced(ReconnectMsg), w.pumps, w.out);
      } else if w.tasks[i].cmd.TickCmd? {
        TickFiresKeeps(w, i);
      }
    }
  }

  lemma UserMsgKeeps(w: World, msg: Msg)
    requires Inv(w)
    ensures Inv(Apply(w, UserMsg(msg)))
  {
    if msg.WindowSizeMsg? || msg.OtherKeyMsg? {
      assert w.tasks + Started([]) == w.tasks;
    }
    hide Drivers, DriverOk;
  }

  /** Keys reach Update directly; no command ends with one. */
  predicate NoQuitProduced(w: World) {
    forall i :: 0 <= i < |w.tasks| && w.tasks[i].Produced? ==> !w.tasks[i].msg.QuitKeyMsg?
  }

  lemma {:induction false} StartedRuns(cmds: seq<Cmd>)
    ensures forall i :: 0 <= i < |Started(cmds)| ==> Started(cmds)[i].Running?
  {
    if cmds != [] {
      StartedRuns(cmds[1..]);
    }
  }

  lemma StepKeepsNoQuit(w: World, step: Step)
    requires NoQuitProduced(w)
    ensures NoQuitProduced(Apply(w, step))
  {
    if step.Handle? && step.task < |w.tasks| && w.tasks[step.task].Produced? {
      StartedRuns(Update(w.model, w.tasks[step.task].msg).1);
    }
    if step.UserMsg? {
      StartedRuns(Update(w.model, step.msg).1);
    }
    hide Update, Started;
  }

  lemma StepKeeps(w: World, step: Step)
    requires Inv(w) && NoQuitProduced(w)
    ensures Inv(Apply(w, step))
  {
    match step {
      case DialEnds(i, succeeds) => DialEndsKeeps(w, i, succeeds); hide Inv, Apply;
      case Deliver(p, event) => DeliverKeeps(w, p, event); hide Inv, Apply;
      case ReadTakes(i) => ReadTakesKeeps(w, i); hide Inv, Apply;
      case TimerFires(i) => TimerFiresKeeps(w, i); hide Inv, Apply;
      case UserMsg(msg) => UserMsgKeeps(w, msg); hide Inv, Apply;
      case Handle(i) =>
        hide Inv, Handled;
        if i < |w.tasks| && w.tasks[i].Produced? {
          HandleKeeps(w, i);
        }
      case ReadGivesUp(i) => hide DriverOk, Drivers;
    }
  }

  lemma {:induction false} ExecKeeps(w: World, steps: seq<Step>)
    requires Inv(w) && NoQuitProduced(w)
    ensures Inv(Exec(w, steps))
    decreases |steps|
  {
    hide Inv, Apply, NoQuitProduced;
    if steps != [] {
      StepKeeps(w, steps[0]);
      StepKeepsNoQuit(w, steps[0]);
      ExecKeeps(Apply(w, steps[0]), steps[1..]);
    }
  }

  lemma BeginKeeps()
    ensures Inv(BEGIN) && NoQuitProduced(BEGIN)
  {
    assert Drivers(BEGIN.tasks) == [Running(DialCmd)];
  }

  /**
    Single driver, in every interleaving before quit: exactly one of a dial, a read and a reconnect
    timer is pending, counting each result with its command, so the client neither stalls nor runs two
    sessions. It shows connected exactly while a read is pending.
   */
  lemma SingleDriver(steps: seq<Step>)
    ensures var w := Exec(BEGIN, steps);
            !w.model.quitting ==>
              && |Drivers(w.tasks)| == 1
              && (w.model.ws.Connected? <==>
                    Drivers(w.tasks)[0] == Running(ReadCmd)
                    || (Drivers(w.tasks)[0].Produced? && Drivers(w.tasks)[0].msg.WsEventMsg?))
  {
    BeginKeeps();
    ExecKeeps(BEGIN, steps);
    hide Exec, Drivers, Quiet, Live;
  }

  /**
    At most one connection's pump runs, none while the client dials or waits, and an event that reaches
    Update comes from the newest connection.
   */
  lemma OneSession(steps: seq<Step>)
    ensures var w := Exec(BEGIN, steps);
            !w.model.quitting ==>
              && (forall p :: 0 <= p < |w.pumps| - 1 ==> !w.pumps[p])
              && (forall i :: 0 <= i < |w.out| ==> w.out[i].session == |w.pumps| - 1)
              && |Drivers(w.tasks)| == 1
              && var d := Drivers(w.tasks)[0];
                 && (d == Running(DialCmd) || (d.Running? && d.cmd.ReconnectCmd?) ==> Quiet(w.pumps, w.out))
                 && (d.Produced? && d.msg.WsEventMsg? ==> d.msg.delivery.session == |w.pumps| - 1)
  {
    BeginKeeps();
    ExecKeeps(BEGIN, steps);
    hide Exec, Drivers;
  }

  // ---------- The delays ----------

  /** The message that a step lets Update handle. */
  function HandledBy(w: World, step: Step): Option<Msg> {
    if step.Handle? && step.task < |w.tasks| && w.tasks[step.task].Produced? then Some(w.tasks[step.task].msg)
    else None
  }

  function FailuresAfter(w: World, step: Step, n: nat): nat {
    match HandledBy(w, step)
    case Some(ConnectedMsg) => 0
    case Some(ConnectFailedMsg) => n + 1
    case Some(WsEventMsg(delivery)) => if delivery.event.ConnectionLost? then n + 1 else n
    case _ => n
  }

  /** The failed dials and lost connections that a run handles after its last connectedMsg, `n` before it. */
  function Failures(w: World, steps: seq<Step>, n: nat): nat
    decreases |steps|
  {
    if steps == [] then n else Failures(Apply(w, steps[0]), steps[1..], FailuresAfter(w, steps[0], n))
  }

  /** The delay is the one that so many failures make, and a client that reconnects has failed. */
  predicate BackoffOk(m: Model, n: nat) {
    m.backoff == NextBackoffSteps(n, RECONNECT_BASE, RECONNECT_LIMIT) && (m.ws.Reconnecting? ==> n > 0)
  }

  lemma StepKeepsBackoff(w: World, step: Step, n: nat)
    requires BackoffOk(w.model, n)
    ensures BackoffOk(Apply(w, step).model, FailuresAfter(w, step, n))
  {
    hide NextBackoff, Replaced, Started;
  }

  lemma {:induction false} ExecKeepsBackoff(w: World, steps: seq<Step>, n: nat)
    requires BackoffOk(w.model, n)
    ensures BackoffOk(Exec(w, steps).model, Failures(w, steps, n))
    decreases |steps|
  {
    hide BackoffOk, Apply, FailuresAfter;
    if steps != [] {
      StepKeepsBackoff(w, steps[0], n);
      ExecKeepsBackoff(Apply(w, steps[0]), steps[1..], FailuresAfter(w, steps[0], n));
    }
  }

  /** In every run, each delay the client waits is one second, doubled by the failures before it, 30 at most. */
  lemma DelaysAreCapped(steps: seq<Step>)
    ensures var w := Exec(BEGIN, steps);
            var failures := Failures(BEGIN, steps, 0);
            !w.model.quitting && |Drivers(w.tasks)| == 1 && Drivers(w.tasks)[0].Running?
            && Drivers(w.tasks)[0].cmd.ReconnectCmd? ==>
              failures > 0
              && Drivers(w.tasks)[0].cmd.delay == Min(1_000_000_000 * Pow2(failures - 1), 30_000_000_000)
  {
    BeginKeeps();
    ExecKeeps(BEGIN, steps);
    ExecKeepsBackoff(BEGIN, steps, 0);
    hide Exec, Drivers, NextBackoffSteps, CappedDouble, ConsumerSteps, DashboardSteps;
    var failures := Failures(BEGIN, steps, 0);
    if failures > 0 {
      DelaysAgree(RECONNECT_BASE, RECONNECT_LIMIT, failures - 1);
    }
  }
}
