/** What the terminal client's runs bring about: events shown in order, recovery, ticks and quitting. */
module TerminalFlow {
  import opened Backoff
  import opened TerminalClient

  // ---------- Events ----------

  /** The event a step's pump puts into the channel: a running pump does, unless 16 are waiting. */
  function PutBy(w: World, step: Step): seq<Delivery> {
    if step.Deliver? && step.pump < |w.pumps| && w.pumps[step.pump] && |w.out| < 16
    then [Delivery(step.pump, step.event)]
    else []
  }

  function Put(w: World, steps: seq<Step>): seq<Delivery>
    decreases |steps|
  {
    if steps == [] then [] else PutBy(w, steps[0]) + Put(Apply(w, steps[0]), steps[1..])
  }

  function EventOf(t: Task): seq<Delivery> {
    if t.Produced? && t.msg.WsEventMsg? then [t.msg.delivery] else []
  }

  /** The event that a step lets Update see. */
  function ShownBy(w: World, step: Step): seq<Delivery> {
    match HandledBy(w, step)
    case Some(msg) => EventOf(Produced(msg))
    case None => []
  }

  function Shown(w: World, steps: seq<Step>): seq<Delivery>
    decreases |steps|
  {
    if steps == [] then [] else ShownBy(w, steps[0]) + Shown(Apply(w, steps[0]), steps[1..])
  }

  /** The events that were put into the channel and that Update has not seen. */
  function Waiting(w: World): seq<Delivery>
    requires |Drivers(w.tasks)| == 1
  {
    EventOf(Drivers(w.tasks)[0]) + w.out
  }

  /** After a driver has ended, what it ended with is the driver. */
  lemma NextDriver(tasks: seq<Task>, i: nat, result: Task)
    requires i < |tasks| && |Drivers(tasks)| == 1 && IsDriver(tasks[i]) && IsDriver(result)
    ensures Drivers(tasks) == [tasks[i]] && Drivers(Replaced(tasks, i, [result])) == [result]
  {
    hide IsDriver, Replaced;
    DriversReplaced(tasks, i, [result]);
    assert Drivers([result]) == IfDriver(result) + Drivers([]);
  }

  /** A tick that ends, or starts none, leaves the driver as it is. */
  lemma SameDriver(tasks: seq<Task>, i: nat, with: seq<Task>)
    requires i < |tasks| && |Drivers(tasks)| == 1 && !IsDriver(tasks[i]) && Drivers(with) == []
    ensures Drivers(Replaced(tasks, i, with)) == Drivers(tasks)
  {
    DriversReplaced(tasks, i, with);
  }

  /** One step of the account: what waits, with what is put, is what is shown, with what then waits. */
  predicate Accounts(w: World, step: Step) {
    var w' := Apply(w, step);
    && |Drivers(w.tasks)| == 1 && |Drivers(w'.tasks)| == 1
    && Waiting(w) + PutBy(w, step) == ShownBy(w, step) + Waiting(w')
  }

  lemma HandleAccounts(w: World, i: nat)
    requires Inv(w) && NoQuitProduced(w) && !w.model.quitting
    ensures Accounts(w, Handle(i))
  {
    if i < |w.tasks| && w.tasks[i].Produced? {
      var msg := w.tasks[i].msg;
      var (_, cmds) := Update(w.model, msg);
      UpdateDrives(w.model, msg);
      DriversReplaced(w.tasks, i, Started(cmds));
      assert EventOf(w.tasks[i]) != [] ==> IsDriver(w.tasks[i]);
    }
    hide Update, Drivers, DriverOk, Started, Replaced;
  }

  lemma EndAccounts(w: World, i: nat, result: Task, step: Step)
    requires |Drivers(w.tasks)| == 1
    requires i < |w.tasks| && w.tasks[i].Running? && IsDriver(w.tasks[i]) && IsDriver(result)
    requires Apply(w, step).tasks == Replaced(w.tasks, i, [result])
    requires PutBy(w, step) == ShownBy(w, step) == []
    requires EventOf(result) + Apply(w, step).out == w.out
    ensures Accounts(w, step)
  {
    NextDriver(w.tasks, i, result);
    hide Apply, Drivers, Replaced, IsDriver, PutBy, ShownBy;
  }

  lemma TimerAccounts(w: World, i: nat)
    requires |Drivers(w.tasks)| == 1
    ensures Accounts(w, TimerFires(i))
  {
    var step := TimerFires(i);
    if i < |w.tasks| && w.tasks[i].Running? && w.tasks[i].cmd.ReconnectCmd? {
      EndAccounts(w, i, Produced(ReconnectMsg), step);
    } else if i < |w.tasks| && w.tasks[i] == Running(TickCmd) {
      assert Drivers([Produced(TickMsg)]) == [];
      SameDriver(w.tasks, i, [Produced(TickMsg)]);
    }
    hide Drivers, Replaced;
  }

  lemma DialAccounts(w: World, i: nat, succeeds: bool)
    requires |Drivers(w.tasks)| == 1
    ensures Accounts(w, DialEnds(i, succeeds))
  {
    hide Drivers, Replaced;
    if i < |w.tasks| && w.tasks[i] == Running(DialCmd) {
      EndAccounts(w, i, Produced(if succeeds then ConnectedMsg else ConnectFailedMsg), DialEnds(i, succeeds));
    }
  }

  lemma ReadAccounts(w: World, i: nat)
    requires |Drivers(w.tasks)| == 1
    ensures Accounts(w, ReadTakes(i))
  {
    hide Drivers, Replaced;
    if i < |w.tasks| && w.tasks[i] == Running(ReadCmd) && w.out != [] {
      assert w.out == [w.out[0]] + w.out[1..];
      EndAccounts(w, i, Produced(WsEventMsg(w.out[0])), ReadTakes(i));
    }
  }

  lemma KeyAccounts(w: World, msg: Msg)
    requires |Drivers(w.tasks)| == 1 && !Apply(w, UserMsg(msg)).model.quitting
    ensures Accounts(w, UserMsg(msg))
  {
    if msg.WindowSizeMsg? || msg.OtherKeyMsg? {
      assert w.tasks + Started([]) == w.tasks;
    }
    hide Drivers;
  }

  lemma OtherAccounts(w: World, step: Step)
    requires |Drivers(w.tasks)| == 1 && !w.model.quitting
    requires step.Deliver? || step.ReadGivesUp?
    ensures Accounts(w, step)
  {
    hide Drivers, Replaced;
  }

  lemma StepAccounts(w: World, step: Step)
    requires Inv(w) && NoQuitProduced(w) && !w.model.quitting && !Apply(w, step).model.quitting
    ensures Accounts(w, step)
  {
    hide Accounts, Apply, DriverOk, Drivers;
    match step {
      case DialEnds(i, succeeds) => DialAccounts(w, i, succeeds);
      case ReadTakes(i) => ReadAccounts(w, i);
      case TimerFires(i) => TimerAccounts(w, i);
      case Handle(i) => HandleAccounts(w, i);
      case UserMsg(msg) => KeyAccounts(w, msg);
      case _ => OtherAccounts(w, step);
    }
  }

  /** Quitting is for good. */
  lemma QuitStays(w: World, step: Step)
    ensures w.model.quitting ==> Apply(w, step).model.quitting
  {
    hide Replaced, Started, NextBackoff;
  }

  lemma {:induction false} ExecQuitStays(w: World, steps: seq<Step>)
    ensures w.model.quitting ==> Exec(w, steps).model.quitting
    decreases |steps|
  {
    hide Apply;
    if steps != [] {
      QuitStays(w, steps[0]);
      ExecQuitStays(Apply(w, steps[0]), steps[1..]);
    }
  }

  lemma {:induction false} ExecAccounts(w: World, steps: seq<Step>)
    requires Inv(w) && NoQuitProduced(w) && !Exec(w, steps).model.quitting
    ensures |Drivers(w.tasks)| == 1 && |Drivers(Exec(w, steps).tasks)| == 1
    ensures Waiting(w) + Put(w, steps) == Shown(w, steps) + Waiting(Exec(w, steps))
    decreases |steps|
  {
    ExecQuitStays(w, steps);
    hide Apply, PutBy, ShownBy, Waiting, NoQuitProduced, DriverOk, Drivers;
    if steps != [] {
      var w' := Apply(w, steps[0]);
      ExecQuitStays(w', steps[1..]);
      StepAccounts(w, steps[0]);
      StepKeeps(w, steps[0]);
      StepKeepsNoQuit(w, steps[0]);
      ExecAccounts(w', steps[1..]);
      calc {
        Waiting(w) + Put(w, steps);
        Waiting(w) + PutBy(w, steps[0]) + Put(w', steps[1..]);
        ShownBy(w, steps[0]) + (Waiting(w') + Put(w', steps[1..]));
        ShownBy(w, steps[0]) + Shown(w', steps[1..]) + Waiting(Exec(w', steps[1..]));
      }
    }
  }

  lemma {:induction false} ExecOutFits(w: World, steps: seq<Step>)
    requires |w.out| <= 16
    ensures |Exec(w, steps).out| <= 16
    decreases |steps|
  {
    if steps != [] {
      assert |Apply(w, steps[0]).out| <= 16 by {
        hide Replaced, Update, Started;
      }
      hide Apply;
      ExecOutFits(Apply(w, steps[0]), steps[1..]);
    }
  }

  /**
    In every run before quit, what Update has seen of the connections, then what the pending read holds,
    then what is in the channel, is what the pumps put there: each event once and in order. At most 16
    are in the channel.
   */
  lemma EventsInOrder(steps: seq<Step>)
    ensures var w := Exec(BEGIN, steps);
            !w.model.quitting ==>
              && |w.out| <= 16
              && |Drivers(w.tasks)| == 1
              && Put(BEGIN, steps) == Shown(BEGIN, steps) + EventOf(Drivers(w.tasks)[0]) + w.out
  {
    BeginKeeps();
    assert Drivers(BEGIN.tasks) == [Running(DialCmd)];
    hide Inv, NoQuitProduced, Drivers, IsDriver;
    ExecOutFits(BEGIN, steps);
    if !Exec(BEGIN, steps).model.quitting {
      ExecAccounts(BEGIN, steps);
      assert Waiting(BEGIN) == [];
      assert Waiting(BEGIN) + Put(BEGIN, steps) == Put(BEGIN, steps);
      hide Put, Shown, Exec, EventOf;
    }
  }

  // ---------- Recovery ----------

  /** Steps of the client itself and of the server's answer to a dial: no key and no event. */
  predicate OwnStep(step: Step) {
    step.Handle? || step.TimerFires? || (step.DialEnds? && step.succeeds)
  }

  lemma {:induction false} TheDriver(tasks: seq<Task>) returns (i: nat)
    requires |Drivers(tasks)| > 0
    ensures i < |tasks| && IsDriver(tasks[i])
  {
    hide IsDriver;
    if IfDriver(tasks[0]) != [] {
      i := 0;
    } else {
      i := TheDriver(tasks[1..]);
      i := i + 1;
    }
  }

  /** The steps that still separate a driver from a read on an open connection. */
  function Distance(d: Task): nat {
    match d
    case Running(ReadCmd) => 0
    case Produced(ConnectedMsg) => 1
    case Running(DialCmd) => 2
    case Produced(ReconnectMsg) => 3
    case Running(ReconnectCmd(_)) => 4
    case Produced(WsEventMsg(delivery)) => if delivery.event.ConnectionLost? then 5 else 1
    case _ => 5
  }

  /** The step that ends a driver or handles what it ended with, a dial succeeding. */
  function NextStep(d: Task, i: nat): Step {
    if d.Produced? then Handle(i) else if d.cmd.DialCmd? then DialEnds(i, true) else TimerFires(i)
  }

  lemma HandlingNears(w: World, i: nat)
    requires Inv(w) && NoQuitProduced(w) && !w.model.quitting
    requires i < |w.tasks| && w.tasks[i].Produced? && IsDriver(w.tasks[i])
    ensures var w' := Apply(w, Handle(i));
            && !w'.model.quitting && |Drivers(w'.tasks)| == 1
            && Distance(Drivers(w'.tasks)[0]) < Distance(w.tasks[i])
  {
    var msg := w.tasks[i].msg;
    var (_, cmds) := Update(w.model, msg);
    UpdateDrives(w.model, msg);
    DriversReplaced(w.tasks, i, Started(cmds));
    hide Update, Drivers, DriverOk, Started, Replaced;
  }

  lemma EndingNears(w: World, i: nat)
    requires |Drivers(w.tasks)| == 1 && !w.model.quitting
    requires i < |w.tasks| && w.tasks[i].Running? && IsDriver(w.tasks[i]) && !w.tasks[i].cmd.ReadCmd?
    ensures var w' := Apply(w, NextStep(w.tasks[i], i));
            && !w'.model.quitting && |Drivers(w'.tasks)| == 1
            && Distance(Drivers(w'.tasks)[0]) < Distance(w.tasks[i])
  {
    var result := Produced(if w.tasks[i].cmd.DialCmd? then ConnectedMsg else ReconnectMsg);
    assert Apply(w, NextStep(w.tasks[i], i)).tasks == Replaced(w.tasks, i, [result]) by {
      hide Replaced;
    }
    NextDriver(w.tasks, i, result);
    hide Drivers, Replaced;
  }

  lemma {:induction false} Recovers(w: World) returns (more: seq<Step>)
    requires Inv(w) && NoQuitProduced(w) && !w.model.quitting
    ensures |Drivers(w.tasks)| == 1 && |more| <= Distance(Drivers(w.tasks)[0])
    ensures forall k :: 0 <= k < |more| ==> OwnStep(more[k])
    ensures !Exec(w, more).model.quitting && Drivers(Exec(w, more).tasks) == [Running(ReadCmd)]
    decreases Distance(Drivers(w.tasks)[0])
  {
    hide NoQuitProduced, DriverOk, Drivers;
    var i := TheDriver(w.tasks);
    var d := w.tasks[i];
    assert Drivers(w.tasks) == [d] by {
      DriversReplaced(w.tasks, i, []);
    }
    if d == Running(ReadCmd) {
      more := [];
    } else {
      var step := NextStep(d, i);
      if d.Produced? {
        HandlingNears(w, i);
      } else {
        EndingNears(w, i);
      }
      StepKeeps(w, step);
      StepKeepsNoQuit(w, step);
      var rest := Recovers(Apply(w, step));
      more := [step] + rest;
      assert more[1..] == rest;
      hide Apply, IsDriver, Replaced;
    }
  }

  lemma {:induction false} ExecConcat(w: World, a: seq<Step>, b: seq<Step>)
    ensures Exec(w, a + b) == Exec(Exec(w, a), b)
    decreases |a|
  {
    hide Apply;
    if a == [] {
      assert a + b == b;
    } else {
      assert (a + b)[0] == a[0] && (a + b)[1..] == a[1..] + b;
      ExecConcat(Apply(w, a[0]), a[1..], b);
    }
  }

  /**
    However a run before quit has gone, at most five steps of the client, with one dial that succeeds,
    bring it to a read on an open connection.
   */
  lemma AlwaysRecovers(steps: seq<Step>) returns (more: seq<Step>)
    requires !Exec(BEGIN, steps).model.quitting
    ensures |more| <= 5 && forall k :: 0 <= k < |more| ==> OwnStep(more[k])
    ensures var w := Exec(BEGIN, steps + more);
            w.model.ws.Connected? && !w.model.quitting && Drivers(w.tasks) == [Running(ReadCmd)]
  {
    hide Drivers, Apply, Exec;
    BeginKeeps();
    ExecKeeps(BEGIN, steps);
    assert NoQuitProduced(Exec(BEGIN, steps)) by {
      ExecKeepsNoQuit(BEGIN, steps);
    }
    more := Recovers(Exec(BEGIN, steps));
    ExecConcat(BEGIN, steps, more);
    ExecKeeps(BEGIN, steps + more);
  }

  lemma {:induction false} ExecKeepsNoQuit(w: World, steps: seq<Step>)
    requires NoQuitProduced(w)
    ensures NoQuitProduced(Exec(w, steps))
    decreases |steps|
  {
    hide NoQuitProduced, Apply;
    if steps != [] {
      StepKeepsNoQuit(w, steps[0]);
      ExecKeepsNoQuit(Apply(w, steps[0]), steps[1..]);
    }
  }

  // ---------- Ticks ----------

  /** Whether the last snapshot that a run shows carries timestamps; `ticks` if it shows none. */
  function LastTicks(shown: seq<Delivery>, ticks: bool): bool
    decreases |shown|
  {
    if shown == [] then ticks
    else
      var last := shown[|shown| - 1].event;
      if last.Snapshot? then last.ticks else LastTicks(shown[..|shown| - 1], ticks)
  }

  lemma {:induction false} LastTicksConcat(a: seq<Delivery>, b: seq<Delivery>, ticks: bool)
    ensures LastTicks(a + b, ticks) == LastTicks(b, LastTicks(a, ticks))
    decreases |b|
  {
    if b == [] {
      assert a + b == a;
    } else {
      assert (a + b)[..|a + b| - 1] == a + b[..|b| - 1];
      LastTicksConcat(a, b[..|b| - 1], ticks);
    }
  }

  lemma LastTicksOne(shown: seq<Delivery>, ticks: bool)
    ensures shown == [] ==> LastTicks(shown, ticks) == ticks
    ensures |shown| == 1 ==>
              LastTicks(shown, ticks) == if shown[0].event.Snapshot? then shown[0].event.ticks else ticks
  {
    if |shown| == 1 {
      assert shown[..0] == [];
    }
  }

  lemma StepTicks(w: World, step: Step)
    ensures Apply(w, step).model.ticking == LastTicks(ShownBy(w, step), w.model.ticking)
  {
    LastTicksOne(ShownBy(w, step), w.model.ticking);
    hide Replaced, Started, NextBackoff, LastTicks;
  }

  lemma {:induction false} ExecTicks(w: World, steps: seq<Step>)
    ensures Exec(w, steps).model.ticking == LastTicks(Shown(w, steps), w.model.ticking)
    decreases |steps|
  {
    hide Apply, ShownBy;
    if steps != [] {
      var w' := Apply(w, steps[0]);
      StepTicks(w, steps[0]);
      ExecTicks(w', steps[1..]);
      LastTicksConcat(ShownBy(w, steps[0]), Shown(w', steps[1..]), w.model.ticking);
    }
  }

  /** The messages after which another tick can start: a tick, and an event that carries a server message. */
  predicate CanTick(msg: Msg) {
    || msg.TickMsg?
    || (msg.WsEventMsg? && (msg.delivery.event.Snapshot? || msg.delivery.event.OtherMessage?))
  }

  lemma UpdateTicks(m: Model, msg: Msg)
    ensures TickCmd in Update(m, msg).1 <==> CanTick(msg) && LastTicks(EventOf(Produced(msg)), m.ticking)
  {
    LastTicksOne(EventOf(Produced(msg)), m.ticking);
    hide LastTicks, NextBackoff;
  }

  /**
    In every run, a message that Update handles starts another tick if and only if it is a tick or carries a
    server message, and the last snapshot shown, this message included, has timestamps.
   */
  lemma TicksFollowSnapshots(steps: seq<Step>, i: nat)
    requires i < |Exec(BEGIN, steps).tasks| && Exec(BEGIN, steps).tasks[i].Produced?
    ensures var w := Exec(BEGIN, steps);
            var shown := Shown(BEGIN, steps) + EventOf(w.tasks[i]);
            TickCmd in Update(w.model, w.tasks[i].msg).1 <==> CanTick(w.tasks[i].msg) && LastTicks(shown, false)
  {
    hide Exec, Shown, LastTicks, Update;
    var w := Exec(BEGIN, steps);
    ExecTicks(BEGIN, steps);
    LastTicksConcat(Shown(BEGIN, steps), EventOf(w.tasks[i]), false);
    UpdateTicks(w.model, w.tasks[i].msg);
  }

  lemma ReplacedTwice(tasks: seq<Task>, i: nat, t: Task)
    requires i < |tasks|
    ensures |Replaced(tasks, i, [t])| == |tasks| && Replaced(tasks, i, [t])[i] == t
    ensures Replaced(Replaced(tasks, i, [t]), i, [tasks[i]]) == tasks
    ensures Replaced(Replaced(tasks, i, [t]), i, []) == tasks[..i] + tasks[i + 1..]
  {
    assert Replaced(tasks, i, [t]) == tasks[i := t];
    assert tasks[..i] + [tasks[i]] + tasks[i + 1..] == tasks;
    assert tasks[..i] + [] + tasks[i + 1..] == tasks[..i] + tasks[i + 1..];
  }

  /** A tick that fires starts the next one in its place while the snapshot has timestamps, and is gone otherwise. */
  lemma TicksGoOn(w: World, i: nat)
    requires i < |w.tasks| && w.tasks[i] == Running(TickCmd)
    ensures Apply(Apply(w, TimerFires(i)), Handle(i))
         == if w.model.ticking then w else w.(tasks := w.tasks[..i] + w.tasks[i + 1..])
  {
    ReplacedTwice(w.tasks, i, Produced(TickMsg));
    StartedDrivers(if w.model.ticking then [TickCmd] else []);
    hide Replaced, Started, ScheduleReconnect, HandleWsEvent;
  }

  // ---------- Quitting ----------

  const QUIT_KEY := UserMsg(QuitKeyMsg)

  function QuitsIn(tasks: seq<Task>): nat {
    multiset(tasks)[Running(QuitCmd)]
  }

  lemma {:induction false} QuitsStarted(cmds: seq<Cmd>)
    ensures QuitsIn(Started(cmds)) == multiset(cmds)[QuitCmd]
  {
    if cmds != [] {
      QuitsStarted(cmds[1..]);
      assert cmds == [cmds[0]] + cmds[1..];
    }
  }

  /** No task but the quit command of a key ends or starts one. */
  lemma QuitsReplaced(tasks: seq<Task>, i: nat, with: seq<Task>)
    requires i < |tasks| && tasks[i] != Running(QuitCmd) && QuitsIn(with) == 0
    ensures QuitsIn(Replaced(tasks, i, with)) == QuitsIn(tasks)
  {
    assert tasks == tasks[..i] + [tasks[i]] + tasks[i + 1..];
  }

  lemma UpdateQuits(m: Model, msg: Msg)
    ensures var (m', cmds) := Update(m, msg);
            && m'.closes == m.closes + (if msg.QuitKeyMsg? then 1 else 0)
            && m'.quitting == (m.quitting || msg.QuitKeyMsg?)
            && multiset(cmds)[QuitCmd] == if msg.QuitKeyMsg? then 1 else 0
  {
    hide NextBackoff;
  }

  lemma KeyQuits(w: World, msg: Msg)
    ensures var w' := Apply(w, UserMsg(msg));
            var keys := if msg.QuitKeyMsg? then 1 else 0;
            && w'.model.closes == w.model.closes + keys
            && w'.model.quitting == (w.model.quitting || msg.QuitKeyMsg?)
            && QuitsIn(w'.tasks) == QuitsIn(w.tasks) + keys
  {
    UpdateQuits(w.model, msg);
    QuitsStarted(Update(w.model, msg).1);
    hide Update, Started;
  }

  /** Steps other than keys leave all of this as it is. */
  predicate SameQuits(w: World, step: Step) {
    var w' := Apply(w, step);
    && w'.model.closes == w.model.closes
    && w'.model.quitting == w.model.quitting
    && QuitsIn(w'.tasks) == QuitsIn(w.tasks)
  }

  lemma HandleQuits(w: World, i: nat)
    requires NoQuitProduced(w)
    ensures SameQuits(w, Handle(i))
  {
    if i < |w.tasks| && w.tasks[i].Produced? {
      var (_, cmds) := Update(w.model, w.tasks[i].msg);
      UpdateQuits(w.model, w.tasks[i].msg);
      QuitsStarted(cmds);
      QuitsReplaced(w.tasks, i, Started(cmds));
    }
    hide Update, Started, Replaced, QuitsIn;
  }

  /** A task that is not a quit command ends with a message or with none. */
  lemma EndQuits(tasks: seq<Task>, i: nat, msg: Msg)
    requires i < |tasks| && tasks[i] != Running(QuitCmd)
    ensures QuitsIn(Replaced(tasks, i, [Produced(msg)])) == QuitsIn(Replaced(tasks, i, [])) == QuitsIn(tasks)
  {
    QuitsReplaced(tasks, i, []);
    QuitsReplaced(tasks, i, [Produced(msg)]);
  }

  lemma OtherQuits(w: World, step: Step)
    requires !step.UserMsg? && !step.Handle?
    ensures SameQuits(w, step)
  {
    hide Replaced, QuitsIn;
    if !step.Deliver? && step.task < |w.tasks| && w.tasks[step.task] != Running(QuitCmd) {
      var msg := if step.DialEnds? then (if step.succeeds then ConnectedMsg else ConnectFailedMsg)
                 else if step.ReadTakes? && w.out != [] then WsEventMsg(w.out[0])
                 else if w.tasks[step.task] == Running(TickCmd) then TickMsg
                 else ReconnectMsg;
      EndQuits(w.tasks, step.task, msg);
    }
  }

  lemma StepQuits(w: World, step: Step)
    requires NoQuitProduced(w)
    ensures var w' := Apply(w, step);
            var keys := if step == QUIT_KEY then 1 else 0;
            && w'.model.closes == w.model.closes + keys
            && w'.model.quitting == (w.model.quitting || step == QUIT_KEY)
            && QuitsIn(w'.tasks) == QuitsIn(w.tasks) + keys
  {
    match step {
      case UserMsg(msg) => KeyQuits(w, msg);
      case Handle(i) => HandleQuits(w, i);
      case _ => OtherQuits(w, step);
    }
    hide Apply, QuitsIn;
  }

  lemma {:induction false} ExecQuits(w: World, steps: seq<Step>)
    requires NoQuitProduced(w)
    ensures var w' := Exec(w, steps);
            var keys := multiset(steps)[QUIT_KEY];
            && w'.model.closes == w.model.closes + keys
            && w'.model.quitting == (w.model.quitting || keys > 0)
            && QuitsIn(w'.tasks) == QuitsIn(w.tasks) + keys
    decreases |steps|
  {
    hide NoQuitProduced, Apply, QuitsIn;
    if steps != [] {
      assert steps == [steps[0]] + steps[1..];
      StepQuits(w, steps[0]);
      StepKeepsNoQuit(w, steps[0]);
      ExecQuits(Apply(w, steps[0]), steps[1..]);
    }
  }

  /**
    A run quits if and only if a quit key is pressed in it, each press asks the runtime to quit once and
    closes the done channel once, so a second press before the program ends closes a closed channel.
   */
  lemma QuitsExactly(steps: seq<Step>)
    ensures var w := Exec(BEGIN, steps);
            var presses := multiset(steps)[UserMsg(QuitKeyMsg)];
            && (w.model.quitting <==> presses > 0)
            && multiset(w.tasks)[Running(QuitCmd)] == presses
            && w.model.closes == presses
  {
    ExecQuits(BEGIN, steps);
    hide Exec;
  }

  /** After quit the pending reads end without an event: at most as many steps as there are tasks leave none. */
  lemma {:induction false} ReadsEndAfterQuit(w: World) returns (steps: seq<Step>)
    requires w.model.quitting
    ensures |steps| <= |w.tasks| && forall k :: 0 <= k < |steps| ==> steps[k].ReadGivesUp?
    ensures Running(ReadCmd) !in Exec(w, steps).tasks && Exec(w, steps).out == w.out
    decreases |w.tasks|
  {
    if Running(ReadCmd) in w.tasks {
      var i :| 0 <= i < |w.tasks| && w.tasks[i] == Running(ReadCmd);
      var w' := Apply(w, ReadGivesUp(i));
      assert w' == w.(tasks := w.tasks[..i] + [] + w.tasks[i + 1..]);
      hide Apply;
      var rest := ReadsEndAfterQuit(w');
      steps := [ReadGivesUp(i)] + rest;
      assert steps[1..] == rest;
    } else {
      steps := [];
    }
  }
}
