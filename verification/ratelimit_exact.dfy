/** Exactly which calls the rate limiter refuses. */
module RateLimitExact {
  import opened Wrappers
  import opened RateLimits
  import opened RateLimitRuns

  // ---------- The rule ----------

  /** Accepted calls up to the last one with no gap between them that is longer than the window. */
  function Streak(accepted: seq<Op>, window: int): nat
    requires forall op :: op in accepted ==> op.Allow?
  {
    if |accepted| <= 1 then |accepted|
    else
      var n := |accepted| - 1;
      if accepted[n].checked - accepted[n - 1].stamped > window then 1 else 1 + Streak(accepted[..n], window)
  }

  /** The call comes within the window of the last accepted one, and the streak is used up. */
  predicate Refused(accepted: seq<Op>, call: Op, rate: int, window: int)
    requires call.Allow? && forall op :: op in accepted ==> op.Allow?
  {
    && accepted != []
    && call.checked - accepted[|accepted| - 1].stamped <= window
    && Streak(accepted, window) >= Max(1, rate)
  }

  /** The calls that the rule accepts. */
  function Granted(calls: seq<Op>, rate: int, window: int): (accepted: seq<Op>)
    requires forall op :: op in calls ==> op.Allow?
    ensures forall op :: op in accepted ==> op in calls
    ensures accepted != [] <==> calls != []
  {
    if calls == [] then []
    else
      var last := calls[|calls| - 1];
      var accepted := Granted(calls[..|calls| - 1], rate, window);
      if Refused(accepted, last, rate, window) then accepted else accepted + [last]
  }

  /** The answers that the rule gives. */
  function Ruled(calls: seq<Op>, rate: int, window: int): seq<Answer>
    requires forall op :: op in calls ==> op.Allow?
  {
    if calls == [] then []
    else
      var n := |calls| - 1;
      Ruled(calls[..n], rate, window)
      + [Answer(calls[n].ip, calls[n].stamped, !Refused(Granted(calls[..n], rate, window), calls[n], rate, window))]
  }

  // ---------- The limiter follows it ----------

  lemma {:induction false} ExecAppend(l: Limiter, ops: seq<Op>, op: Op, rate: int, window: int)
    ensures var (l', answers) := Exec(l, ops, rate, window);
            var (l'', last) := Apply(l', op, rate, window);
            Exec(l, ops + [op], rate, window) == (l'', answers + last)
    decreases |ops|
  {
    hide Apply;
    if ops == [] {
      assert ops + [op] == [op] && [op][1..] == [];
      assert Apply(l, op, rate, window).1 + [] == Apply(l, op, rate, window).1;
      assert [] + Apply(l, op, rate, window).1 == Apply(l, op, rate, window).1;
    } else {
      assert (ops + [op])[1..] == ops[1..] + [op];
      var (l', now) := Apply(l, ops[0], rate, window);
      ExecAppend(l', ops[1..], op, rate, window);
      var (end, later) := Exec(l', ops[1..], rate, window);
      assert (now + later) + Apply(end, op, rate, window).1 == now + (later + Apply(end, op, rate, window).1);
    }
  }

  /** The entry that the rule leaves for the IP. */
  function Entry(accepted: seq<Op>, window: int): Option<Visitor>
    requires forall op :: op in accepted ==> op.Allow?
  {
    if accepted == [] then None else Some(Visitor(Streak(accepted, window), accepted[|accepted| - 1].stamped))
  }

  lemma StreakIsPositive(accepted: seq<Op>, window: int)
    requires accepted != [] && forall op :: op in accepted ==> op.Allow?
    ensures Streak(accepted, window) >= 1
  {
  }

  lemma AdmitFollowsRule(accepted: seq<Op>, call: Op, rate: int, window: int)
    requires call.Allow? && forall op :: op in accepted ==> op.Allow?
    ensures var (v, ok) := Admit(Entry(accepted, window), call.checked, call.stamped, rate, window);
            && ok == !Refused(accepted, call, rate, window)
            && Some(v) == Entry(if ok then accepted + [call] else accepted, window)
  {
    assert (accepted + [call])[..|accepted|] == accepted;
    if accepted != [] {
      StreakIsPositive(accepted, window);
    }
  }

  lemma {:induction false} OwnCallsFollowRule(calls: seq<Op>, ip: string, rate: int, window: int)
    requires OnlyCallsOf(calls, ip)
    ensures Exec(NO_VISITORS, calls, rate, window).1 == Ruled(calls, rate, window)
    ensures Lookup(Exec(NO_VISITORS, calls, rate, window).0, ip) == Entry(Granted(calls, rate, window), window)
    decreases |calls|
  {
    if calls != [] {
      var n := |calls| - 1;
      var (before, call) := (calls[..n], calls[n]);
      assert calls == before + [call] && call in calls;
      assert forall op :: op in before ==> op in calls;
      OwnCallsFollowRule(before, ip, rate, window);
      ExecAppend(NO_VISITORS, before, call, rate, window);
      AdmitFollowsRule(Granted(before, rate, window), call, rate, window);
      hide Exec, Admit, Refused, Entry, OnlyCallsOf;
    }
  }

  /**
    On every trace with a monotone clock, whatever is evicted and whoever else calls, the answers for an
    IP are those of the rule: a call is refused if and only if it comes within the window of the last
    accepted one and the run of accepted calls with no gap longer than the window already holds
    max(1, rate).
   */
  lemma AnswersFollowRule(ops: seq<Op>, now: int, ip: string, rate: int, window: int)
    requires Monotone(ops, now)
    ensures OnlyCallsOf(OwnOps(ops, ip), ip)
    ensures OwnAnswers(Exec(NO_VISITORS, ops, rate, window).1, ip) == Ruled(OwnOps(ops, ip), rate, window)
  {
    IpsAreIndependent(ops, now, ip, rate, window);
    OwnOpsMonotone(ops, ip, now, now);
    OwnCallsFollowRule(OwnOps(ops, ip), ip, rate, window);
  }

  /** The answers that were no. */
  function Refusals(answers: seq<Answer>): nat {
    if answers == [] then 0 else (if answers[0].ok then 0 else 1) + Refusals(answers[1..])
  }

  /** The rejection counter counts the refusals, on every trace. */
  lemma {:induction false} RejectionsAreCounted(l: Limiter, ops: seq<Op>, rate: int, window: int)
    ensures var (l', answers) := Exec(l, ops, rate, window); l'.rejected == l.rejected + Refusals(answers)
    decreases |ops|
  {
    if ops != [] {
      var (l', now) := Apply(l, ops[0], rate, window);
      RejectionsAreCounted(l', ops[1..], rate, window);
      var later := Exec(l', ops[1..], rate, window).1;
      if now != [] {
        assert (now + later)[1..] == later;
      } else {
        assert now + later == later;
      }
    }
  }

  // ---------- The documented rate ----------

  /** Calls at the given times, each with one reading of the clock. */
  function CallsAt(ip: string, times: seq<int>): (calls: seq<Op>)
    ensures |calls| == |times| && forall i :: 0 <= i < |times| ==> calls[i] == Allow(ip, times[i], times[i])
    ensures OnlyCallsOf(calls, ip)
  {
    seq(|times|, i requires 0 <= i < |times| => Allow(ip, times[i], times[i]))
  }

  predicate InOrder(times: seq<int>) {
    forall i, j :: 0 <= i < j < |times| ==> times[i] <= times[j]
  }

  /** No closed interval of the window's length holds more than `rate` of the times. */
  ghost predicate WithinRate(times: seq<int>, rate: int, window: int) {
    forall i, j :: 0 <= i <= j < |times| && times[j] - times[i] <= window ==> j - i + 1 <= Max(0, rate)
  }

  predicate AllOk(answers: seq<Answer>) {
    forall i :: 0 <= i < |answers| ==> answers[i].ok
  }

  lemma CallsAtPrefix(ip: string, times: seq<int>, n: nat)
    requires n <= |times|
    ensures CallsAt(ip, times)[..n] == CallsAt(ip, times[..n])
  {
  }

  /** The streak of calls at these times, if all of them are accepted. */
  function Run(times: seq<int>, window: int): nat {
    if |times| <= 1 then |times|
    else
      var n := |times| - 1;
      if times[n] - times[n - 1] > window then 1 else 1 + Run(times[..n], window)
  }

  /** The rule accepts every call. */
  predicate AllGranted(times: seq<int>, rate: int, window: int) {
    times == [] ||
    var n := |times| - 1;
    && AllGranted(times[..n], rate, window)
    && (n == 0 || times[n] - times[n - 1] > window || Run(times[..n], window) < Max(1, rate))
  }

  lemma {:induction false} RunIsStreak(ip: string, times: seq<int>, window: int)
    ensures Streak(CallsAt(ip, times), window) == Run(times, window)
    decreases |times|
  {
    if |times| > 1 {
      CallsAtPrefix(ip, times, |times| - 1);
      RunIsStreak(ip, times[..|times| - 1], window);
    }
  }

  lemma RefusedByTimes(ip: string, times: seq<int>, rate: int, window: int)
    requires times != []
    ensures var n := |times| - 1;
            Refused(CallsAt(ip, times)[..n], CallsAt(ip, times)[n], rate, window) <==>
            n > 0 && times[n] - times[n - 1] <= window && Run(times[..n], window) >= Max(1, rate)
  {
    var n := |times| - 1;
    CallsAtPrefix(ip, times, n);
    RunIsStreak(ip, times[..n], window);
    hide Streak, Run;
  }

  lemma AllOkAppend(answers: seq<Answer>, last: Answer)
    ensures AllOk(answers + [last]) <==> AllOk(answers) && last.ok
  {
    var all := answers + [last];
    assert all[|answers|] == last && forall i :: 0 <= i < |answers| ==> all[i] == answers[i];
  }

  /** The limiter answers yes throughout exactly when the rule accepts every call. */
  lemma {:induction false} GrantedIsAnswered(ip: string, times: seq<int>, rate: int, window: int)
    ensures AllOk(Ruled(CallsAt(ip, times), rate, window)) <==> AllGranted(times, rate, window)
    ensures AllGranted(times, rate, window) ==> Granted(CallsAt(ip, times), rate, window) == CallsAt(ip, times)
    decreases |times|
  {
    if times != [] {
      var n := |times| - 1;
      var calls := CallsAt(ip, times);
      CallsAtPrefix(ip, times, n);
      GrantedIsAnswered(ip, times[..n], rate, window);
      RefusedByTimes(ip, times, rate, window);
      assert calls == calls[..n] + [calls[n]];
      hide Refused, Run, AllOk;
      AllOkAppend(Ruled(calls[..n], rate, window),
                  Answer(ip, times[n], !Refused(Granted(calls[..n], rate, window), calls[n], rate, window)));
    }
  }

  /** With a window of an instant, a run lasts no longer than that. */
  lemma {:induction false} InstantRun(times: seq<int>)
    requires times != []
    ensures var k := Run(times, 0); 1 <= k <= |times| && times[|times| - 1] - times[|times| - k] <= 0
    decreases |times|
  {
    if |times| > 1 {
      InstantRun(times[..|times| - 1]);
    }
  }

  lemma WithinRatePrefix(times: seq<int>, n: nat, rate: int, window: int)
    requires n <= |times| && WithinRate(times, rate, window)
    ensures WithinRate(times[..n], rate, window)
  {
    var prefix := times[..n];
    forall i, j | 0 <= i <= j < n && prefix[j] - prefix[i] <= window ensures j - i + 1 <= Max(0, rate) {
      assert times[j] - times[i] <= window;
    }
  }

  /** A client within its rate is granted every call, if the rate is one at most or the window is an instant. */
  lemma {:induction false} WithinRateIsGranted(times: seq<int>, rate: int, window: int)
    requires window >= 0 && (rate <= 1 || window == 0) && WithinRate(times, rate, window)
    ensures AllGranted(times, rate, window)
    decreases |times|
  {
    if times != [] {
      var n := |times| - 1;
      WithinRatePrefix(times, n, rate, window);
      WithinRateIsGranted(times[..n], rate, window);
      if n > 0 {
        NextIsGranted(times, rate, window);
      }
      hide WithinRate, Run;
    }
  }

  lemma NextIsGranted(times: seq<int>, rate: int, window: int)
    requires window >= 0 && (rate <= 1 || window == 0) && WithinRate(times, rate, window) && |times| > 1
    ensures var n := |times| - 1; times[n] - times[n - 1] > window || Run(times[..n], window) < Max(1, rate)
  {
    var n := |times| - 1;
    assert times[n] - times[n - 1] <= window ==> 2 <= Max(0, rate);
    InstantRun(times[..n]);
    hide Run;
    var k := Run(times[..n], 0);
    assert times[n] - times[n - k] <= window ==> k + 1 <= Max(0, rate);
  }

  /** Calls a window apart from one another. */
  function Steady(n: nat, window: int): (times: seq<int>)
    ensures |times| == n && forall i :: 0 < i < n ==> times[i] - times[i - 1] == window
  {
    if n == 0 then [] else if n == 1 then [0]
    else Steady(n - 1, window) + [Steady(n - 1, window)[n - 2] + window]
  }

  lemma {:induction false} SteadyRises(n: nat, window: int, i: nat, j: nat)
    requires window >= 1 && i <= j < n
    ensures Steady(n, window)[i] <= Steady(n, window)[j]
    decreases j - i
  {
    hide Steady;
    if i < j {
      SteadyRises(n, window, i, j - 1);
    }
  }

  lemma SteadyStaysWithinRate(rate: int, window: int)
    requires rate >= 2 && window >= 1
    ensures InOrder(Steady(rate + 1, window)) && WithinRate(Steady(rate + 1, window), rate, window)
  {
    hide Steady;
    var times := Steady(rate + 1, window);
    forall i, j | 0 <= i <= j < |times|
      ensures times[i] <= times[j] && (times[j] - times[i] <= window ==> j - i + 1 <= rate)
    {
      SteadyRises(rate + 1, window, i, j);
      if i + 2 <= j {
        SteadyRises(rate + 1, window, i + 2, j);
        assert times[i + 2] - times[i + 1] == window && times[i + 1] - times[i] == window;
      }
    }
  }

  lemma {:induction false} SteadyRuns(n: nat, window: int)
    ensures Run(Steady(n, window), window) == n
  {
    if n > 0 {
      assert Steady(n, window)[..n - 1] == Steady(n - 1, window);
      SteadyRuns(n - 1, window);
    }
  }

  lemma SteadyIsRefused(rate: int, window: int)
    requires rate >= 2 && window >= 1
    ensures !AllGranted(Steady(rate + 1, window), rate, window)
  {
    var times := Steady(rate + 1, window);
    assert times[..rate] == Steady(rate, window);
    SteadyRuns(rate, window);
    hide Run, Steady;
  }

  /**
    The limiter is documented as allowing `rate` requests per window, but its count does not decay while
    accepted calls keep coming. So a client that never makes more than `rate` calls in any window is never
    refused if and only if the rate is one at most or the window is an instant.
   */
  lemma DocumentedRateExactly(ip: string, rate: int, window: int)
    requires window >= 0
    ensures (forall times :: InOrder(times) && WithinRate(times, rate, window) ==>
               AllOk(Exec(NO_VISITORS, CallsAt(ip, times), rate, window).1))
       <==> rate <= 1 || window == 0
  {
    hide Exec, InOrder, WithinRate, AllOk, Ruled, AllGranted, Steady;
    if rate <= 1 || window == 0 {
      forall times | InOrder(times) && WithinRate(times, rate, window)
        ensures AllOk(Exec(NO_VISITORS, CallsAt(ip, times), rate, window).1)
      {
        OwnCallsFollowRule(CallsAt(ip, times), ip, rate, window);
        WithinRateIsGranted(times, rate, window);
        GrantedIsAnswered(ip, times, rate, window);
      }
    } else {
      var times := Steady(rate + 1, window);
      SteadyStaysWithinRate(rate, window);
      SteadyIsRefused(rate, window);
      OwnCallsFollowRule(CallsAt(ip, times), ip, rate, window);
      GrantedIsAnswered(ip, times, rate, window);
    }
  }
}
