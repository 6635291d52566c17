# Verified model of the discord-proxy-rpc cores

discord-proxy-rpc reads Discord's local IPC socket and publishes rich presence on the LAN. Most of it is
plumbing; this project models the parts whose correctness depends on whole runs and proves what they keep.

Check it with `dafny verify dfyconfig.toml` (Dafny 4.11).

## How the model is built

- A mutex critical section, a channel operation and the start of a goroutine are one atomic step each. An
  `Apply` function gives the step, and a step that is not possible changes nothing, so the theorems about
  `Exec` range over every sequence of steps, that is over every interleaving.
- A class beside each machine runs the same critical sections on fields; its methods are proved to change the
  fields as the step functions say.
- A buffered channel is a `Queue` that remembers what it accepted and what was received from it. How often a
  channel is closed is counted, and a send on a closed channel or a close of a nil one sets a fault flag.
- `select` is a choice of the next step. Clock readings, socket results, jitter and map orders are inputs.

| files | what they model |
|---|---|
| `activity.dfy`, `parser.dfy` | activity equality, deep copy, parsing into canonical form |
| `presence.dfy`, `presence_runs.dfy`, `presence_exact.dfy`, `presence_timed.dfy` | the debounced, diffed presence cache |
| `ratelimit.dfy`, `ratelimit_runs.dfy`, `ratelimit_exact.dfy` | the per-IP limiter with eviction, the connection tracker |
| `queue.dfy`, `hub.dfy`, `ws.dfy`, `hub_runs.dfy`, `hub_slots.dfy`, `hub_delivery.dfy`, `hub_shutdown.dfy`, `hub_exact.dfy`, `hub_service.dfy` | the WebSocket hub, its clients and their connection slots |
| `backoff.dfy`, `reconnect.dfy` | the four capped backoff loops and the reconnect manager |
| `ipc.dfy`, `ipc_runs.dfy`, `ipc_checkers.dfy`, `ipc_frames.dfy`, `ipc_service.dfy`, `ipc_flow.dfy` | the IPC client under RunWithReconnect |
| `utf8.dfy`, `base64url.dfy`, `token.dfy` | the token's way from the browser to the server |
| `tui.dfy`, `tui_flow.dfy` | the terminal client's connection state machine |

## Where the code does less than it says

- The coalescer is a debounce: each Update restarts the timer (internal/state/presence.go:97-100), while the
  implementation document describes a fixed window that emits at its end. For updates at given times the two tell
  subscribers the same, whatever the activities are, if and only if no two updates in a row are less than an
  interval, and more than nothing, apart (`PresenceTimed.DebounceIsWindowExactly`); a stream that never pauses is
  told only when it ends (`PresenceTimed.SteadyStreamIsToldOnce`).
- Cancelling the context clears the timer but does not stop the presence. Whatever the contexts say, an Update can
  be told if and only if the presence is not stopped and the activity differs from the one told last
  (`PresenceExact.UpdateCommitsExactly`; a run: `PresenceRuns.UpdateAfterCancelCommits`). What the end of the run
  goroutine silences without another Update is `PresenceExact.SilentAfterClearExactly`.
- Start does not advance the generation. Subscribers can hear of an activity while the snapshot's source is "none"
  if and only if a Start finds a callback of the current generation armed or pending and a cached activity other
  than zero (`PresenceExact.StartIsSafeExactly`; a run: `PresenceRuns.StaleCallbackCommits`). With no such Start
  every commit follows an Update of its own cycle (`PresenceExact.SafeStartsExplainCommits`).
- A second Start without a Stop leaves two run goroutines; when the older one's context ends it clears the timer
  of a newer Update, which is then never told. The cycle of a Start converges, whatever happens in it, if and only
  if every earlier run goroutine has ended before it (`PresenceExact.StartConvergesExactly`; a run that does not:
  `PresenceRuns.OverlappingStartsLoseUpdate`).
- A reply of a read pump can be sent on a closed channel. When closeAllClients runs, some reply can come to fail if
  and only if a client has joined whose read pump runs or is still to start
  (`HubExact.CloseAllFailsRepliesExactly`; a run: `HubShutdown.AReplyMeetsAClosedChannel`). In general a reply can
  fail later if and only if a channel is closed under such a pump (`HubExact.RepliesFailExactly`), which never
  happens without closeAllClients (`HubRuns.RepliesAreSafe`).
- A Register that loses to the hub's done channel leaves the client's Done open for good, so its slot is never
  released (`HubShutdown.LostRegistrationLeaks`; a run: `HubShutdown.ARegistrationIsLost`). At rest the tracker's
  count is the map's size if and only if no registration was lost (`HubShutdown.CountAtRest`).
- After Hub.Close the map need not be empty: a client about to be registered can end up in the map of a finished
  hub if and only if the loop had not left its select for good when Hub.Close emptied the map
  (`HubExact.AddedWhileClosingExactly`; a run: `HubShutdown.AClientIsAddedWhileClosing`). It then stays there
  (`HubShutdown.StaysUntilNextClose`).
- The limiter is documented as allowing `rate` requests per window, but its count does not decay while accepted calls
  keep coming. A client that never makes more calls than that in any window is never refused if and only if the
  rate is one at most or the window is an instant (`RateLimitExact.DocumentedRateExactly`). Which calls are refused
  is `RateLimitExact.AnswersFollowRule`.
- cappedDouble can overflow: it is the saturating shift for all non-negative values if and only if the cap is at
  most 2^62 (`Backoff.CappedDoubleExactly`). The other two Go loops need a maximum strictly below 2^62
  (`Backoff.DelaysAgreeExactly`).
- utf8Bytes encodes the two halves of a surrogate pair one by one, so its output is UTF-8 if and only if the
  string has no surrogates (`Utf8.Utf8Exactly`). It is injective all the same (`Utf8.Utf8BytesInjective`).
- IsEmpty is finer than equality with the zero activity: all-zero nested values behind non-nil pointers are Equal
  to it but not empty. `Activities.IsEmptyIsEqualToZero` says exactly when the two differ; on parsed activities
  they do not.
- The terminal client closes its done channel on every quit key, so a second press that is handled before the
  program ends closes a closed channel (`TerminalFlow.QuitsExactly`).
- Only the first health-checker Stop waits for the goroutine; a second one returns at once
  (`IpcSessions.HealthCheckManager.Stop`).

## Model

| member | source | states |
|---|---|---|
| Activities.EqualsIsNormalEquality | pkg/types/activity.go:111-175 | Equals holds exactly when the normal forms (nil nested values as all-zero, nil buttons as none) coincide |
| Activities.EqualsIsEquivalence | pkg/types/activity.go:111-133 | Equals is reflexive, symmetric and transitive |
| Activities.CanonicalEquality | pkg/types/activity.go:111-175 | on activities that store nothing empty Equals is structural, and every class has exactly one such member |
| Activities.IsEmptyIsEqualToZero | pkg/types/activity.go:76-84 | exactly when IsEmpty and Equals-to-zero differ; never on canonical activities |
| Activities.ActivityRef.Clone | pkg/types/activity.go:86-109 | the copy has the same value and all its memory is fresh |
| Activities.ActivityRef.EqualTo | pkg/types/activity.go:111-175 | the comparison of two records in memory decides equality of their normal forms |
| Parser.ParseActivity | internal/ipc/parser.go:22-55 | filling the destination field by field, with the first fault in source order, yields the parser function below |
| Parser.ParseButtons | internal/ipc/parser.go:125-144 | the loop copies all buttons or reports the first fault with its index |
| Parser.ParsedIsCanonical | internal/ipc/parser.go:22-55 | a parsed activity is canonical, Equal to its source, and parses to itself |
| Parser.ParsingDecidesEquality | internal/ipc/parser.go:22-123 | two sources that parse are Equal exactly when they parse to the same record |
| Parser.ParsesExactlyWhenValid | internal/ipc/parser.go:78-144 | an activity parses if and only if its type is known and it has at most two complete buttons |
| Parser.FaultsExactly | internal/ipc/parser.go:22-144 | which error an activity that does not parse gets, with the order in which faults are looked for |
| Presences.Presence.Update | internal/state/presence.go:84-101 | a stopped presence ignores it; otherwise new generation, old timer stopped, one new timer for the new generation |
| Presences.Presence.Flush | internal/state/presence.go:162-182 | commits exactly for the current generation of a running presence whose activity changed |
| Presences.Presence.Start | internal/state/presence.go:56-67 | new channels, no source, zero last notification; generation and timer stay |
| Presences.Presence.Stop | internal/state/presence.go:69-82 | stopped, the stop channel closed at most once, and which done channel is waited for |
| Presences.Presence.ClearTimer | internal/state/presence.go:191-201 | the run goroutine's last act stops the timer and nothing else |
| Presences.Presence.CurrentSnapshot | internal/state/presence.go:113-121 | the cached activity, or none without a source |
| PresenceRuns.GenerationSafety | internal/state/presence.go:56-101 | in every interleaving each accepted Update commits at most once, a commit emits the latest accepted activity, consecutive commits of a Start cycle are never Equal, and none happens between Stop and Start |
| PresenceRuns.GoodLogIsSafe | internal/state/presence.go:162-182 | those four properties follow from what each critical section checks before it commits |
| PresenceRuns.StopChannelsCloseOnce | internal/state/presence.go:69-82 | in every interleaving each stop channel is closed at most once |
| PresenceRuns.Convergence | internal/state/presence.go:84-121 | with Starts only after a returned Stop, a live presence with a source and nothing pending has a snapshot Equal to the last commit of its cycle |
| PresenceRuns.OverlappingStartsLoseUpdate | internal/state/presence.go:56-67 | with a second Start while the first one runs convergence fails: a run in which a live, quiet presence never tells its latest Update |
| PresenceRuns.SnapshotSource | internal/state/presence.go:113-121 | the snapshot has an activity exactly when an Update was accepted since the latest Start |
| PresenceRuns.SnapshotIsLatest | internal/state/presence.go:113-121 | in every interleaving an activity that the snapshot has is the latest accepted one, whatever is armed or pending |
| PresenceRuns.StaleCallbackCommits | internal/state/presence.go:56-67 | a run in which a callback blocked across Stop and Start commits while the snapshot says there is no source |
| PresenceRuns.UpdateAfterCancelCommits | internal/state/presence.go:188-202 | a run in which an Update after the context's cancellation is committed |
| PresenceExact.CommitsExactly | internal/state/presence.go:162-182 | on any state a commit can follow without another Update or Start if and only if a callback of the current generation is alive, the presence runs, and the activity differs from the one told last |
| PresenceExact.UpdateCommitsExactly | internal/state/presence.go:84-101 | on any state, cancelled or not, an Update can be told if and only if the presence is not stopped and the activity differs from the one told last |
| PresenceExact.SilentAfterClearExactly | internal/state/presence.go:188-202 | after any run, what the end of a run goroutine leaves to be told without another Update, and exactly when |
| PresenceExact.StartIsSafeExactly | internal/state/presence.go:56-67 | on any state, a Start's cycle can commit while the snapshot has no source if and only if a callback of the current generation is alive at the Start and the cached activity is not zero |
| PresenceExact.SafeStartsExplainCommits | internal/state/presence.go:56-67 | in runs with no such Start every commit follows an accepted Update of its own cycle |
| PresenceExact.StartConvergesExactly | internal/state/presence.go:56-67 | after any run, everything that can happen in a Start's cycle converges if and only if all earlier run goroutines had ended |
| PresenceExact.SerialConvergence | internal/state/presence.go:56-121 | runs with only such Starts converge |
| PresenceExact.DisciplinedIsSerial | internal/state/presence.go:69-82 | Starts after a returned Stop are such Starts |
| PresenceExact.StopReturns | internal/state/presence.go:69-82 | a Stop that waits is never stuck, overlapping Starts included: at most two steps of the run goroutine let it return |
| PresenceTimed.TimedRefinement | internal/state/presence.go:56-182 | from any Start of an idle presence on, with punctual timers, the emissions, with their times, equal the batch specification: keep an update when none follows within the interval, then drop repeats |
| PresenceTimed.ReturnedStopIsIdle | internal/state/presence.go:69-82 | after a Stop that has returned, with no context cancelled before it and no late callback, the presence is idle |
| PresenceTimed.DebounceIsWindowExactly | internal/state/presence.go:97-100 | after the diff, the debounce tells the same as a fixed window for all activities at given times if and only if any two times in a row are equal or an interval apart |
| PresenceTimed.KeptIsWindowExactly | internal/state/presence.go:97-100 | before the diff, the two keep the same updates for the same times under that same condition |
| PresenceTimed.SteadyStreamIsToldOnce | internal/state/presence.go:97-100 | of updates that keep coming within the interval only the last is kept |
| PresenceTimed.TimedIsInterleaving | internal/state/presence.go:97-100 | the punctual schedule is one of the interleavings that the other theorems range over |
| PresenceTimed.ScheduleIsChronological | internal/state/presence.go:97-100 | on updates in order of time the schedule's steps are in order of time |
| RateLimits.RateLimiter.Allow | internal/server/ratelimit.go:54-72 | the answer, the visitor's new entry and the rejection count, with the two clock readings |
| RateLimits.RateLimiter.EvictExpired | internal/server/ratelimit.go:96-104 | in whatever order the map is ranged over, exactly the expired entries go |
| RateLimitRuns.EvictionTransparency | internal/server/ratelimit.go:54-104 | on every trace with a monotone clock, evictions change no answer and no rejection count |
| RateLimitRuns.IpsAreIndependent | internal/server/ratelimit.go:54-104 | the answers for an IP are those of a limiter that sees only that IP's calls |
| RateLimitRuns.SlidingWindow | internal/server/ratelimit.go:54-72 | every closed interval as long as the window holds at most max(1, rate) accepted requests of an IP |
| RateLimitRuns.SlidingWindowIsTight | internal/server/ratelimit.go:54-72 | a burst reaches that bound exactly |
| RateLimitExact.AnswersFollowRule | internal/server/ratelimit.go:54-104 | on every trace, with evictions and other callers, a call is refused if and only if it comes within the window of its IP's last accepted call and the run of accepted calls with no gap longer than the window already holds max(1, rate) |
| RateLimitExact.RejectionsAreCounted | internal/server/ratelimit.go:54-79 | over every trace the rejection count is the number of refused calls |
| RateLimitExact.DocumentedRateExactly | internal/server/ratelimit.go:27-72 | a client with at most rate calls in every window is never refused if and only if the rate is one at most or the window is an instant |
| RateLimitRuns.LongInterval | internal/server/ratelimit.go:54-72 | an interval of length L holds at most max(1, rate) * (L / window + 1) |
| ConnectionTrackers.ConnectionTracker.TryAdd | internal/server/ratelimit.go:121-129 | reserves exactly below the limit |
| ConnectionTrackers.ConnectionTracker.Remove | internal/server/ratelimit.go:131-137 | frees one slot, never below zero |
| WebSockets.ServeHTTP | internal/server/ws.go:48-100 | whatever becomes of the upgrade, the slot stays taken exactly when the connection is handed off; without a tracker nobody is turned away |
| Hubs.Hub.Add | internal/server/hub.go:69-73 | the client is in the map under its id |
| Hubs.Hub.Remove | internal/server/hub.go:74-82 | a client still in the map leaves it and has both channels closed; another one is left alone |
| Hubs.Hub.Dispatch | internal/server/hub.go:83-105 | a client of the map gets the message, with the hub's client id put into a state message that has none, if and only if it can be encoded, the message's kind is among the client's events and fewer than 256 messages are queued; nothing else changes |
| Hubs.Hub.CloseAllClients | internal/server/hub.go:149-158 | the map is empty, and each client that was in it has both channels and its connection closed |
| Hubs.Client.SendMessage | internal/server/hub.go:278-284 | a reply is queued behind the others unless 256 messages are |
| HubRuns.CloseOnce | internal/server/hub.go:59-158 | in every interleaving of handlers, pumps, Hub.Close calls and cancellation: members have open channels, clients that left have both closed exactly once, and no broadcast is sent on a closed channel |
| HubRuns.RepliesAreSafe | internal/server/hub.go:172-249 | in runs without closeAllClients no reply is sent on a closed channel |
| HubDelivery.LogIsWrittenAndQueued | internal/server/hub.go:251-284 | written messages, a failed write and the queue together are all a client was sent, in order; at most 256 are queued |
| HubDelivery.OrderedDelivery | internal/server/hub.go:83-105 | a client's broadcasts are, in order and without repeats, the dispatches at which it was in the map with the message's kind among its events and fewer than 256 messages queued; with no full queue, all whose kind was among its events |
| HubDelivery.SameOrder | internal/server/hub.go:83-105 | two clients see the broadcasts they share in the same order |
| HubDelivery.MessagesAreFaithful | internal/server/hub.go:83-105 | a client's n-th broadcast carries the message of that dispatch |
| HubDelivery.PostedInOrder | internal/server/hub.go:124-130 | the dispatch log is the encodable part of what was posted while fewer than 256 messages waited, stamped and in order, and the rest is still queued |
| HubService.DispatchReachesSubscribers | internal/server/hub.go:83-105 | after any run a dispatch enters the log of a client in the map if and only if the message can be encoded, fewer than 256 messages are queued and an earlier message of that client, read by its running pump, subscribed it to the kind |
| HubService.ArrivalJoins | internal/server/ws.go:65-100 | with a free slot and a selecting loop a request can become a client of the map with both pumps and its watcher running, no subscriptions, and one slot more taken |
| HubService.ArrivalReserves | internal/server/ws.go:65-88 | a request gets a slot exactly below the limit, and a failed upgrade gives it back |
| HubService.RepliesInOrder | internal/server/hub.go:172-284 | over any run the replies sent to a client are those its read pump made while the channel was open and fewer than 256 messages were queued, in order |
| HubService.WritesDrain | internal/server/hub.go:251-276 | as many successful writes as there are queued messages put them all on the connection, in order |
| HubService.WriterEnds | internal/server/hub.go:257-273 | a failed ping ends the write pump, and a failed write does so with its message taken |
| HubService.GoneWritesNothing | internal/server/hub.go:251-276 | after that nothing more is ever written, whatever happens |
| HubService.DepartureFreesSlot | internal/server/ws.go:116-121 | after any run, a lost connection leads out of the map, each channel closed once, to a count that is one lower |
| HubService.DoneLetsHandlersGo | internal/server/hub.go:110-115 | once done is closed a handler that registers goes on without the hub's loop |
| HubService.DoneLetsReadersGo | internal/server/hub.go:117-122 | and a read pump that leaves ends without it |
| HubService.CancelClosesEveryone | internal/server/hub.go:59-68 | after any run, a cancelled hub closes both channels of every client once, empties the map and closes done |
| HubService.HubCloseClosesEveryone | internal/server/hub.go:138-158 | and so does Hub.Close, after which the loop ends |
| HubSlots.SlotConservation | internal/server/ws.go:65-121 | in every interleaving the count is handlers with a reservation plus handed-off connections not yet released, it stays within the limit, and Remove never meets its floor |
| HubSlots.CountAtQuiescence | internal/server/ws.go:90-121 | at quiescence with the hub running the count is the number of clients in the map |
| HubShutdown.LostRegistrationLeaks | internal/server/hub.go:110-115 | whatever happens later such a client's Done stays open and its slot taken |
| HubShutdown.CountAtRest | internal/server/ws.go:90-121 | in every run, hub running or finished, at rest the count is the map's size plus the lost registrations, so it is the map's size if and only if none was lost |
| HubShutdown.ARegistrationIsLost | internal/server/hub.go:110-141 | a run from the start in which a registration is lost |
| HubShutdown.AReplyMeetsAClosedChannel | internal/server/hub.go:149-284 | a run from the start in which a reply meets a closed channel |
| HubShutdown.AClientIsAddedWhileClosing | internal/server/hub.go:138-141 | a run from the start in which a client is left in the map of a finished hub |
| HubExact.RepliesFailExactly | internal/server/hub.go:172-284 | after any run a reply can come to be sent on a closed channel, with no further closeAllClients, if and only if a client's channel is closed while its read pump runs or is still to start |
| HubExact.CloseAllFailsRepliesExactly | internal/server/hub.go:149-284 | after any run closeAllClients can make a reply fail if and only if a client has joined whose read pump runs or is still to start |
| HubExact.AddedWhileClosingExactly | internal/server/hub.go:59-147 | after any run a client about to be registered can end up in the map of a finished hub after Hub.Close has emptied it if and only if the loop is in its select or in a branch of it |
| HubExact.WayOutStaysEmpty | internal/server/hub.go:59-68 | once the loop is on its way out, an empty map stays empty |
| HubShutdown.StaysUntilNextClose | internal/server/hub.go:138-158 | that client stays, with open channels, until another Hub.Close |
| Backoff.CappedDoubleLoop | internal/ipc/reconnect.go:56-64 | the loop with 64-bit wrap-around; for a non-negative value and a cap up to 2^62 it is min(value * 2^times, cap) |
| Backoff.CappedDoubleSaturates | internal/ipc/reconnect.go:53-64 | the same with every intermediate inside 64 bits |
| Backoff.CappedDoubleExactly | internal/ipc/reconnect.go:53-64 | it never overflows and saturates for every non-negative value if and only if the cap is at most 2^62 |
| Backoff.DelaysAgree | internal/tui/model.go:241-250 | the n-th delays of the terminal client, the example consumer, the dashboard and cappedDouble agree |
| Backoff.DelaysAgreeExactly | internal/tui/model.go:241-250 | the two Go loops agree with the saturating shift for every positive base up to the maximum if and only if that is below 2^62 |
| Backoff.FailuresBefore | examples/consumer/main.go:50-72 | the sessions counted are exactly those in a row, up to this one, that received nothing since the last that did or since the start |
| Backoff.RunConsumer | examples/consumer/main.go:50-72 | each delay is one second doubled once per fruitless session since the last reset, capped at 30 seconds |
| Backoff.Dashboard.ScheduleReconnect | web/app.js:186-192 | the timer's delay is the capped doubling by the timers that ran since the last open |
| Backoff.Dashboard.TimerFires | web/app.js:188-190 | a timer that runs doubles the next delay up to the cap |
| Backoff.Dashboard.OnOpen | web/app.js:156 | an open connection starts the delays over |
| Reconnects.JitterIsTenPercent | internal/ipc/reconnect.go:47-50 | a delay is within ten percent of its capped interval |
| Reconnects.JitterIsLinear | internal/ipc/reconnect.go:47-50 | the delay is 0.9 plus 0.2 times the random number of the interval |
| Reconnects.ReconnectManager.NextInterval | internal/ipc/reconnect.go:42-51 | the capped interval of the current attempt with its jitter |
| Reconnects.ReconnectManager.Reconnect | internal/ipc/reconnect.go:72-130 | at most as many dials as attempts are left (50 from attempt 0), giving up exactly when all the rounds they allow are fruitless, cancelled exactly by a wait that the context ends and stopped early exactly by one that a stop request ends; total sleep at most 1.1 times the sum of the saturating delays it waits for, and of all 50 in an outage from attempt 0 |
| IpcSessions.Client.Connect | internal/ipc/client.go:119-156 | connects exactly when a path is ready, over the first ready one, with a fresh events channel, and closes every connection it dialled before |
| IpcSessions.Client.Run | internal/ipc/client.go:160-215 | one session: what is sent are the frames that found room, in order, then exactly one terminal event unless the context cut it off; the captured channel is closed once, after the events field is cleared; the state changes only when the session ends on its own |
| IpcSessions.RoomyIsFiltered | internal/ipc/client.go:180-215 | what a session sends before its terminal event is as many events as reads that are frames with room, each at the place of its read among them |
| IpcSessions.Client.DetachEvents | internal/ipc/client.go:171-178 | clears the events field only while it holds the captured channel |
| IpcSessions.Client.Close | internal/ipc/client.go:236-244 | closes the current connection, if there is one, and shows disconnected |
| IpcSessions.HealthCheckManager.Stop | internal/ipc/healthcheck.go:54-67 | closes the stop channel at most once; only the first call waits |
| IpcSessions.HealthCheckManager.HandlePong | internal/ipc/healthcheck.go:76-88 | an empty pong channel holds one pong afterwards; before Start, and when a pong waits, nothing changes |
| IpcRuns.SessionProtocol | internal/ipc/client.go:160-215 | over all runs of RunWithReconnect: each events channel is captured and closed at most once, by one Run; nil is never closed and nothing sent on a closed channel; a session that ended has exactly one terminal event, its last, unless cancelled; Events() never returns a closed channel; Runs do not overlap |
| IpcRuns.OwnerKeeps | internal/ipc/client.go:160-215 | each step of the newest Run keeps its hold on the newest channel and touches no other |
| IpcFrames.FramesInOrder | internal/ipc/client.go:180-215 | a session's non-terminal events are the frames it read, in order, except exactly those that met 64 queued events; what was received and what is queued are all of them |
| IpcService.SessionEndsWithError | internal/ipc/client.go:180-195 | after any run, a session that ends on its own with room in its channel: the last event carries the error, the client shows disconnected, Events() returns nothing, and its Run closes the channel |
| IpcService.CancelledSessionEndsSilently | internal/ipc/client.go:181-185 | after any run, a read that fails after a cancellation ends the session with no event and no change of state, and the channel is closed all the same |
| IpcService.CancelledRunFinishes | internal/ipc/client.go:160-215 | once the context is cancelled at most five steps of a Run, a failed read among them, finish it, wherever it is, even with its terminal event before a full channel |
| IpcService.TakesDrain | internal/ipc/client.go:110-114 | as many receives as there are events queued get them all, in order |
| IpcService.CloseShows | internal/ipc/client.go:236-244 | a Close by another goroutine shows disconnected if there is a connection and changes nothing else |
| IpcCheckers.CheckersAreIsolated | internal/ipc/healthcheck.go:95-160 | over all runs at most one checker is alive, none while the loop reconnects or after it returned; a checker reaches only the connection of the session it was started in; stop and done channels are closed at most once, and at most one pong waits |
| IpcService.PongIsSeenExactly | internal/ipc/healthcheck.go:76-153 | after any run, a checker that awaits its pong can go back to idle if and only if a Run has passed it a pong since it last began to ping |
| IpcService.OwnCheckerIsShown | internal/ipc/reconnect.go:157-171 | in every run the client's health checker is the one of the loop's current round, once attached, and there is none while the loop reconnects or after it returned |
| IpcService.AnsweredPingGoesOn | internal/ipc/client.go:196-202 | a pong frame that is read takes the awaiting checker back to idle and the Run back to its reads |
| IpcService.UnansweredPingCloses | internal/ipc/healthcheck.go:106-160 | after any run, an idle checker whose ping is not answered pings its own session, closes that session's connection and ends, its done channel closed once |
| IpcCheckers.StopReturns | internal/ipc/healthcheck.go:54-67 | a Stop that waits is never stuck: wherever the checker is, at most two of its steps let Stop return |
| IpcCheckers.OutagesAreBounded | internal/ipc/reconnect.go:154-187 | over all runs an outage starts at attempt 0, makes at most 50 Connect calls and sleeps at most 1.1 times the sum of its saturating delays |
| IpcFlow.OutageShowsState | internal/ipc/reconnect.go:92-124 | an attempt shows reconnecting while it waits, connecting while it dials, and disconnected with one more attempt counted when the dial fails |
| IpcFlow.DialedSessionIsServed | internal/ipc/reconnect.go:115-165 | a successful dial starts the attempts over and leads to a new Run, a fresh events channel and a started checker of the new session that gets its pongs |
| IpcFlow.RecoversExactly | internal/ipc/reconnect.go:167-186 | after any run, once the session's Run has ended uncancelled, the loop can come to a further session if and only if auto-reconnect is on |
| IpcFlow.CancellationReturns | internal/ipc/reconnect.go:154-203 | after any run, a cancelled loop returns by steps of its own and of its checker alone: it waits for no read and no successful dial |
| IpcFlow.CancelClosesConnection | internal/ipc/reconnect.go:189-203 | a cancellation seen while the Run is on closes the client's connection and goes on to stop the checker, if there is one |
| Utf8.EncodeUnit | web/app.js:75-81 | the shifts and masks of one pass are the table's encoding of the code unit |
| Utf8.EncodeUtf8 | web/app.js:71-84 | each code unit is encoded by the table of section 3 of RFC 3629 as though it were a code point |
| Utf8.Rfc3629 | web/app.js:71-84 | the bytes stand in the table's relation to the code point: marker bits, payload bits, shortest form |
| Utf8.EncodingIsUnique | web/app.js:71-84 | that relation determines the bytes |
| Utf8.Utf8Exactly | web/app.js:71-84 | the encoder yields the UTF-8 of a text if and only if its code units have no surrogates |
| Utf8.PairsCostTwoBytes | web/app.js:71-84 | each surrogate pair makes the output two bytes longer than UTF-8 |
| Utf8.NoSurrogatesIsText | web/app.js:71-84 | every string without surrogates is a text, and its bytes are that text's UTF-8 |
| Utf8.Utf8BytesInjective | web/app.js:71-84 | distinct sequences of code units, surrogates included, have distinct bytes |
| Utf8.SectionSevenExamples | web/app.js:71-84 | the table's bytes for five characters of the examples in section 7 of RFC 3629 are the ones it gives |
| Base64Url.Encode | web/app.js:51-69 | the loop with its early exits yields the encoding by 24-bit groups of section 5 of RFC 4648 without padding |
| Base64Url.EncodedAt | web/app.js:11-69 | the i-th character of the encoding is the one that the 64-character table, written out, has for bits 6i to 6i+5 of the bytes |
| Base64Url.BitsAreSextets | web/app.js:60-65 | the encoder's shifts and masks are the four sextets of the 24-bit group |
| Base64Url.RoundTrip | web/app.js:51-69 | decoding undoes encoding on every byte sequence, the length is (4n + 2) / 3, and all characters are in the alphabet |
| Base64Url.DecodesExactly | internal/server/auth.go:71-75 | a string decodes if and only if its characters are in the table and its length is not one more than a multiple of four |
| Base64Url.DecodedReadsBack | internal/server/auth.go:71-75 | encoding what was decoded gives the string back, up to stray bits of the last character |
| Tokens.BuildSubprotocols | web/app.js:46-49 | no token, no subprotocol; otherwise the prefix with the encoded token |
| Tokens.SubprotocolInjective | web/app.js:46-49 | distinct tokens give distinct subprotocols |
| Tokens.ExtractSubprotocolToken | internal/server/auth.go:59-79 | the loop returns the token of the first trimmed entry with the prefix, or none |
| Tokens.FirstPrefixedDecides | internal/server/auth.go:65-76 | the first entry that starts with the prefix decides, whatever follows; if its rest does not decode there is no token |
| Tokens.SpaceIsListed | internal/server/auth.go:66 | the white space trimmed from an entry, code point by code point |
| Tokens.JoinConcat | internal/server/auth.go:65 | a header is its entries in order with the separator between them |
| Tokens.TokenRoundTrip | internal/server/auth.go:59-79 | in any comma-separated list, with any white space around it, the browser's value gives the server exactly the token's bytes when no earlier entry has the prefix; without surrogates those are its UTF-8 |
| Tokens.NoPrefixNoToken | internal/server/auth.go:65-78 | a list without a prefixed entry carries no token |
| Tokens.CookieRoundTrip | internal/server/auth.go:102-125 | the cookie value carries any token, with any white space around it, and uses only alphabet characters; a value that does not decode carries none |
| TerminalClient.SingleDriver | internal/tui/model.go:95-167 | in every run before quit exactly one of dial, read and reconnect timer is pending, results counted with their commands; it shows connected exactly while that is a read |
| TerminalClient.OneSession | internal/tui/model.go:209-239 | before quit at most the newest connection's pump runs, none while the client dials or waits, and no event of an older connection reaches Update |
| TerminalClient.DelaysAreCapped | internal/tui/model.go:162-167 | in every run each reconnect delay is one second, doubled once per earlier failure handled since the last connection, capped at 30 seconds |
| TerminalClient.UpdateDrives | internal/tui/model.go:95-160 | handling a driver's message starts exactly one driver, and which; other messages start none |
| TerminalFlow.EventsInOrder | internal/tui/client.go:88-110 | in every run before quit, what Update has seen, what the pending read holds and what is in the channel make up what the pumps delivered: each event once, in order, at most 16 waiting |
| TerminalFlow.AlwaysRecovers | internal/tui/model.go:95-167 | however a run before quit has gone, at most five steps of the client and one dial that succeeds bring it to a read on an open connection |
| TerminalFlow.TicksFollowSnapshots | internal/tui/model.go:124-160 | in every run a message that Update handles starts another tick if and only if it is a tick or carries a server message, and the last snapshot shown, this message included, has timestamps |
| TerminalFlow.TicksGoOn | internal/tui/model.go:235-239 | a tick that fires starts the next one in its place while the snapshot has timestamps, and is gone otherwise |
| TerminalFlow.QuitsExactly | internal/tui/model.go:134-142 | a run quits if and only if a quit key is pressed; each press asks to quit once and closes the done channel once more |
| TerminalFlow.ReadsEndAfterQuit | internal/tui/model.go:218-227 | after quit all pending reads end without an event |

## Left out

- Sockets, gorilla/websocket, gopresence, bubbletea's runtime and rendering, mDNS, configuration, HTTP routing and the dashboard's DOM code: only the events they deliver are inputs.
- JSON and message codecs: payloads are opaque values; `encodable` tells whether a broadcast can be marshalled.
- Subscriber callbacks of the presence: they run in goroutines of their own, so the order proved is that of commits, not of callbacks.
- Auth precedence, route gating, constant-time comparison and cookie attributes: each is settled by one branch.
- The terminal client's tick chains and error texts: each timestamped message starts another chain, so no single chain is claimed; after quit only what QuitsExactly and ReadsEndAfterQuit state is claimed.
- Presences.Presence.Update: does not model the wrap of the 64-bit generation after 2^64 Updates.
- RateLimits.RateLimiter.Allow: keeps visitors as values where the source keeps pointers; only the map holds them, so no aliasing is lost.
- Reconnects.JitterIsTenPercent: models the floating-point jitter over the reals, without rounding or the truncation to nanoseconds.
- Base64Url.RoundTrip: the decoder drops stray bits as Go's does, and does not skip carriage returns and newlines.
- Tokens.ExtractSubprotocolToken: header strings are sequences of characters, where Go's are bytes; a header that is not valid UTF-8 is not modelled.
- IpcRuns.SessionProtocol: a dial is one step that succeeds or fails, since the paths of one Connect call are the subject of IpcSessions.Client.Connect; Connect calls by others while RunWithReconnect runs are not modelled.
- IpcCheckers.OutagesAreBounded: `slept` adds up the timers as they are set; a cancellation cuts the last one short.
- The loops of Hub.Run, the pumps, the health checker and RunWithReconnect have no method of their own: their steps interleave with others, so they are state machines over the critical sections that the classes do have.
- HubRuns.CloseOnce: client ids are the places of connections in the order of arrival, so they are unique by construction, as the source's UUIDs are taken to be.
- HubDelivery.OrderedDelivery: a dispatch to all clients is one step; in the source a client can subscribe, reply or write while the loop is at another client, which each client on its own cannot tell from the step coming earlier or later.
- The pings of the write pump, read deadlines and the client id of the proxy: they only decide when a step happens.
