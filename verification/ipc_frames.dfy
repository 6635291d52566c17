/** Over all runs of RunWithReconnect: which frames reach an events channel, and in which order. */
module IpcFrames {
  import opened Wrappers
  import opened BoundedQueues
  import opened IpcSessions
  import opened IpcRuns

  /** The payloads of the non-terminal events of a log. */
  function Payloads(log: seq<Event>): seq<int> {
    if log == [] then []
    else Payloads(log[..|log| - 1]) + if log[|log| - 1].Forwarded? then [log[|log| - 1].payload] else []
  }

  function LogOf(w: World, ch: nat): seq<Event> {
    if ch < |w.channels| then w.channels[ch].queue.log else []
  }

  /** The frame that a step reads from the connection of the session with channel `ch`. */
  function FrameFor(w: World, step: Step, ch: nat): Option<int> {
    if step.AtRun? && step.run < |w.runs| && step.runAction.ReadFrame?
       && w.runs[step.run].Reading? && w.runs[step.run].ch == Some(ch)
    then Some(step.runAction.payload)
    else None
  }

  function AsSeq(o: Option<int>): seq<int> {
    if o.Some? then [o.value] else []
  }

  /** The frames a session reads. */
  function ReadIn(w: World, steps: seq<Step>, ch: nat): seq<int>
    decreases |steps|
  {
    if steps == [] then []
    else AsSeq(FrameFor(w, steps[0], ch)) + ReadIn(Apply(w, steps[0]), steps[1..], ch)
  }

  predicate Fits(w: World, ch: nat) {
    ch < |w.channels| && |w.channels[ch].queue.items| < 64
  }

  /** Those among them that found fewer than 64 events queued. */
  function RoomyIn(w: World, steps: seq<Step>, ch: nat): seq<int>
    decreases |steps|
  {
    if steps == [] then []
    else
      (if Fits(w, ch) then AsSeq(FrameFor(w, steps[0], ch)) else []) + RoomyIn(Apply(w, steps[0]), steps[1..], ch)
  }

  /** The channel is never full when a frame for it is read. */
  predicate NeverFull(w: World, steps: seq<Step>, ch: nat)
    decreases |steps|
  {
    steps != [] ==>
      && (FrameFor(w, steps[0], ch).Some? ==> Fits(w, ch))
      && NeverFull(Apply(w, steps[0]), steps[1..], ch)
  }

  predicate Subsequence(a: seq<int>, b: seq<int>) {
    a == [] || (b != [] && ((a[0] == b[0] && Subsequence(a[1..], b[1..])) || Subsequence(a, b[1..])))
  }

  lemma PayloadsAppend(log: seq<Event>, event: Event)
    ensures Payloads(log + [event]) == Payloads(log) + if event.Forwarded? then [event.payload] else []
  {
    assert (log + [event])[..|log|] == log;
  }

  /** What one Run's step makes of a log. */
  lemma EffectOnLog(channels: seq<Channel>, e: Effect, r: nat, ch: nat)
    requires ch < |channels| && !SendsOnClosed(channels, e)
    ensures |OnChannel(channels, e, r)| == |channels|
    ensures Payloads(OnChannel(channels, e, r)[ch].queue.log)
         == Payloads(channels[ch].queue.log)
            + if e.Emits? && e.ch == Some(ch) && e.event.Forwarded? && RoomIn(channels, Some(ch))
              then [e.event.payload] else []
  {
    if e.Emits? && e.ch == Some(ch) {
      PayloadsAppend(channels[ch].queue.log, e.event);
    }
    hide Payloads;
  }

  /** A Run emits a non-terminal event exactly when it reads a frame. */
  lemma EmitsWhatItReads(w: World, r: nat, action: RunAction)
    requires r < |w.runs|
    ensures
      var pc := w.runs[r];
      var (_, e) := RunLocal(pc, action, w.client, RoomIn(w.channels, Captured(pc)), w.cancelled);
      if action.ReadFrame? && pc.Reading? then e == Emits(pc.ch, Forwarded(action.payload))
      else e.Emits? ==> e.event.Ended?
  {
    hide RoomIn;
  }

  lemma RunOnLog(w: World, r: nat, action: RunAction, ch: nat)
    requires SessionInv(w) && r < |w.runs|
    ensures var step := AtRun(r, action);
            Payloads(LogOf(RunStep(w, r, action), ch))
            == Payloads(LogOf(w, ch)) + if Fits(w, ch) then AsSeq(FrameFor(w, step, ch)) else []
  {
    RoomIsFit(w, ch);
    RunKeepsSession(w, r, action);
    hide SessionInv, Payloads, SendsOnClosed, RunLocal, OnChannel, Ponged, ClientAfter, RoomIn, Fits;
    EmitsWhatItReads(w, r, action);
    NoFaults(w);
    NoFaults(RunStep(w, r, action));
    var (_, e) := RunLocal(w.runs[r], action, w.client, RoomIn(w.channels, Captured(w.runs[r])), w.cancelled);
    if ch < |w.channels| {
      EffectOnLog(w.channels, e, r, ch);
    }
  }

  lemma RoomIsFit(w: World, ch: nat)
    ensures RoomIn(w.channels, Some(ch)) <==> Fits(w, ch)
  {
  }

  lemma NoFaults(w: World)
    requires SessionInv(w)
    ensures !w.nilClosed && !w.badSend
  {
    hide OlderDone, NewestInv;
  }

  lemma SupOnLog(w: World, action: SupAction, ch: nat)
    ensures LogOf(SupStep(w, action), ch) == LogOf(w, ch)
  {
    SupOnChannels(w, action);
    hide SupStep;
  }

  lemma StepOnLog(w: World, step: Step, ch: nat)
    requires SessionInv(w)
    ensures Payloads(LogOf(Apply(w, step), ch))
         == Payloads(LogOf(w, ch)) + if Fits(w, ch) then AsSeq(FrameFor(w, step, ch)) else []
  {
    hide SessionInv, SupStep, RunStep, CheckerLocal, Payloads, Fits;
    match step {
      case AtSup(action) => SupOnLog(w, action, ch);
      case AtRun(r, action) => if r < |w.runs| { RunOnLog(w, r, action, ch); }
      case _ =>
    }
  }

  lemma {:induction false} LogIsRoomy(w: World, steps: seq<Step>, ch: nat)
    requires SessionInv(w)
    ensures Payloads(LogOf(Exec(w, steps), ch)) == Payloads(LogOf(w, ch)) + RoomyIn(w, steps, ch)
    decreases |steps|
  {
    hide SessionInv, Apply, Payloads, LogOf, Fits, FrameFor;
    if steps != [] {
      StepOnLog(w, steps[0], ch);
      StepKeepsSession(w, steps[0]);
      LogIsRoomy(Apply(w, steps[0]), steps[1..], ch);
    }
  }

  lemma SubsequenceCons(x: seq<int>, a: seq<int>, b: seq<int>)
    requires |x| <= 1 && Subsequence(a, b)
    ensures Subsequence(x + a, x + b) && Subsequence(a, x + b)
  {
    if |x| == 1 {
      assert (x + a)[1..] == a && (x + b)[1..] == b;
    } else {
      assert x + a == a && x + b == b;
    }
  }

  lemma {:induction false} RoomyIsSubsequence(w: World, steps: seq<Step>, ch: nat)
    ensures Subsequence(RoomyIn(w, steps, ch), ReadIn(w, steps, ch))
    ensures NeverFull(w, steps, ch) ==> RoomyIn(w, steps, ch) == ReadIn(w, steps, ch)
    decreases |steps|
  {
    hide Apply, FrameFor, Fits, Subsequence;
    if steps != [] {
      var (a, b) := (RoomyIn(Apply(w, steps[0]), steps[1..], ch), ReadIn(Apply(w, steps[0]), steps[1..], ch));
      RoomyIsSubsequence(Apply(w, steps[0]), steps[1..], ch);
      SubsequenceCons(AsSeq(FrameFor(w, steps[0], ch)), a, b);
      assert [] + a == a;
    } else {
      EmptyIsSubsequence([]);
    }
  }

  lemma EmptyIsSubsequence(b: seq<int>)
    ensures Subsequence([], b)
  {
  }

  predicate QueuesInv(w: World) {
    forall ch :: 0 <= ch < |w.channels| ==> Conserved(w.channels[ch].queue, EVENT_BUFFER)
  }

  lemma SupKeepsQueues(w: World, action: SupAction)
    requires QueuesInv(w)
    ensures QueuesInv(SupStep(w, action))
  {
    SupOnChannels(w, action);
    hide SupStep;
  }

  /** The loop does nothing to channels but make them. */
  lemma SupOnChannels(w: World, action: SupAction)
    ensures SupStep(w, action).channels == w.channels || SupStep(w, action).channels == w.channels + [OPENED]
  {
  }

  lemma EffectKeepsQueues(channels: seq<Channel>, e: Effect, r: nat)
    requires forall ch :: 0 <= ch < |channels| ==> Conserved(channels[ch].queue, EVENT_BUFFER)
    ensures var channels' := OnChannel(channels, e, r);
            forall ch :: 0 <= ch < |channels'| ==> Conserved(channels'[ch].queue, EVENT_BUFFER)
  {
    hide Conserved;
  }

  lemma RunKeepsQueues(w: World, r: nat, action: RunAction)
    requires QueuesInv(w) && r < |w.runs|
    ensures QueuesInv(RunStep(w, r, action))
  {
    hide RunLocal, OnChannel, Ponged, SendsOnClosed, ClientAfter, Conserved, RoomIn;
    EffectKeepsQueues(w.channels,
                      RunLocal(w.runs[r], action, w.client, RoomIn(w.channels, Captured(w.runs[r])), w.cancelled).1, r);
  }

  lemma StepKeepsQueues(w: World, step: Step)
    requires QueuesInv(w)
    ensures QueuesInv(Apply(w, step))
  {
    hide SupStep, RunStep, CheckerLocal, Conserved;
    match step {
      case AtSup(action) => SupKeepsQueues(w, action);
      case AtRun(r, action) => if r < |w.runs| { RunKeepsQueues(w, r, action); }
      case _ =>
    }
  }

  lemma {:induction false} ExecKeepsQueues(w: World, steps: seq<Step>)
    requires QueuesInv(w)
    ensures QueuesInv(Exec(w, steps))
    decreases |steps|
  {
    hide QueuesInv, Apply;
    if steps != [] {
      StepKeepsQueues(w, steps[0]);
      ExecKeepsQueues(Apply(w, steps[0]), steps[1..]);
    }
  }

  /**
    In every interleaving, what was received from an events channel and what is queued are all it
    accepted; its non-terminal events are the frames its session read, in order, except exactly those
    that met 64 queued events.
   */
  lemma FramesInOrder(online: bool, cfg: Config, steps: seq<Step>, ch: nat)
    ensures var begin := Begin(online, cfg);
            var w := Exec(begin, steps);
            && Payloads(LogOf(w, ch)) == RoomyIn(begin, steps, ch)
            && Subsequence(Payloads(LogOf(w, ch)), ReadIn(begin, steps, ch))
            && (NeverFull(begin, steps, ch) ==> Payloads(LogOf(w, ch)) == ReadIn(begin, steps, ch))
            && (ch < |w.channels| ==>
                  var q := w.channels[ch].queue; q.taken + q.items == q.log && |q.items| <= 64)
  {
    var begin := Begin(online, cfg);
    BeginKeepsSession(online, cfg);
    assert Payloads(LogOf(begin, ch)) == [];
    assert QueuesInv(begin);
    hide Begin, Exec, Payloads, LogOf, RoomyIn, ReadIn, NeverFull, Subsequence, SessionInv;
    LogIsRoomy(begin, steps, ch);
    RoomyIsSubsequence(begin, steps, ch);
    ExecKeepsQueues(begin, steps);
  }
}
