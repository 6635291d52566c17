/** Whole traces of the rate limiter: evictions are invisible, and every window is bounded. */
module RateLimitRuns {
  import opened Wrappers
  import opened RateLimits

  /** A call with its clock readings. An eviction makes one reading for each entry, the last one not after `until`. */
  datatype Op =
    | Allow(ip: string, checked: int, stamped: int)
    | Evict(readings: map<string, int>, until: int)

  datatype Answer = Answer(ip: string, at: int, ok: bool)

  /** No clock reading of the trace is before an earlier one. */
  predicate Monotone(ops: seq<Op>, now: int) {
    ops == [] ||
    match ops[0]
    case Allow(_, checked, stamped) => now <= checked <= stamped && Monotone(ops[1..], stamped)
    case Evict(readings, until) =>
      && now <= until
      && (forall ip :: ip in readings ==> now <= readings[ip] <= until)
      && Monotone(ops[1..], until)
  }

  function Apply(l: Limiter, op: Op, rate: int, window: int): (Limiter, seq<Answer>) {
    match op
    case Allow(ip, checked, stamped) =>
      var (l', ok) := Allowed(l, ip, checked, stamped, rate, window);
      (l', [Answer(ip, stamped, ok)])
    case Evict(readings, _) => (Evicted(l, readings, window), [])
  }

  /** The final state of a trace and the answers it gave. */
  function Exec(l: Limiter, ops: seq<Op>, rate: int, window: int): (Limiter, seq<Answer>)
    decreases |ops|
  {
    if ops == [] then (l, [])
    else
      var (l', now) := Apply(l, ops[0], rate, window);
      var (l'', later) := Exec(l', ops[1..], rate, window);
      (l'', now + later)
  }

  function WithoutEvictions(ops: seq<Op>): seq<Op> {
    if ops == [] then []
    else (if ops[0].Evict? then [] else [ops[0]]) + WithoutEvictions(ops[1..])
  }

  // ---------- Evictions are invisible ----------

  /** `full` is `l` with some entries that the clock has already left behind. */
  predicate Represents(l: Limiter, full: Limiter, now: int, window: int) {
    && l.rejected == full.rejected
    && (forall ip :: ip in l.visitors ==> ip in full.visitors && full.visitors[ip] == l.visitors[ip])
    && (forall ip :: ip in full.visitors && ip !in l.visitors ==> Expired(full.visitors[ip], now, window))
  }

  lemma AllowKeepsRepresents(
    l: Limiter, full: Limiter, ip: string, checked: int, stamped: int, now: int, rate: int, window: int)
    requires Represents(l, full, now, window) && now <= checked <= stamped
    ensures var (l', ok) := Allowed(l, ip, checked, stamped, rate, window);
            var (full', ok') := Allowed(full, ip, checked, stamped, rate, window);
            ok == ok' && Represents(l', full', stamped, window)
  {
  }

  lemma EvictKeepsRepresents(
    l: Limiter, full: Limiter, readings: map<string, int>, until: int, now: int, window: int)
    requires Represents(l, full, now, window) && now <= until
    requires forall ip :: ip in readings ==> readings[ip] <= until
    ensures Represents(Evicted(l, readings, window), full, until, window)
  {
  }

  lemma {:induction false} EvictionsAreInvisible(
    l: Limiter, full: Limiter, ops: seq<Op>, now: int, rate: int, window: int)
    requires Represents(l, full, now, window) && Monotone(ops, now)
    ensures Exec(l, ops, rate, window).1 == Exec(full, WithoutEvictions(ops), rate, window).1
    ensures Exec(l, ops, rate, window).0.rejected == Exec(full, WithoutEvictions(ops), rate, window).0.rejected
    decreases |ops|
  {
    if ops != [] {
      var rest := ops[1..];
      var l' := Apply(l, ops[0], rate, window).0;
      match ops[0] {
        case Allow(ip, checked, stamped) =>
          var full' := Apply(full, ops[0], rate, window).0;
          AllowKeepsRepresents(l, full, ip, checked, stamped, now, rate, window);
          EvictionsAreInvisible(l', full', rest, stamped, rate, window);
          assert WithoutEvictions(ops)[1..] == WithoutEvictions(rest);
        case Evict(readings, until) =>
          EvictKeepsRepresents(l, full, readings, until, now, window);
          EvictionsAreInvisible(l', full, rest, until, rate, window);
          assert WithoutEvictions(ops) == WithoutEvictions(rest);
      }
    }
  }

  /** Eviction transparency: the answers and the rejection count are those of a map that never evicts. */
  lemma EvictionTransparency(ops: seq<Op>, now: int, rate: int, window: int)
    requires Monotone(ops, now)
    ensures var evicting := Exec(NO_VISITORS, ops, rate, window);
            var keeping := Exec(NO_VISITORS, WithoutEvictions(ops), rate, window);
            evicting.1 == keeping.1 && evicting.0.rejected == keeping.0.rejected
  {
    EvictionsAreInvisible(NO_VISITORS, NO_VISITORS, ops, now, rate, window);
  }

  // ---------- Each IP is on its own ----------

  function OwnOps(ops: seq<Op>, ip: string): seq<Op> {
    if ops == [] then []
    else (if ops[0].Allow? && ops[0].ip == ip then [ops[0]] else []) + OwnOps(ops[1..], ip)
  }

  function OwnAnswers(answers: seq<Answer>, ip: string): seq<Answer> {
    if answers == [] then []
    else (if answers[0].ip == ip then [answers[0]] else []) + OwnAnswers(answers[1..], ip)
  }

  lemma {:induction false} OwnAnswersConcat(a: seq<Answer>, b: seq<Answer>, ip: string)
    ensures OwnAnswers(a + b, ip) == OwnAnswers(a, ip) + OwnAnswers(b, ip)
  {
    if a == [] {
      assert a + b == b;
    } else {
      assert (a + b)[1..] == a[1..] + b;
      OwnAnswersConcat(a[1..], b, ip);
      var first := if a[0].ip == ip then [a[0]] else [];
      assert OwnAnswers(a, ip) == first + OwnAnswers(a[1..], ip);
      assert OwnAnswers(a + b, ip) == first + OwnAnswers(a[1..] + b, ip);
      hide OwnAnswers;
    }
  }

  lemma {:induction false} OnlyOwnCallsMatter(
    l: Limiter, own: Limiter, ops: seq<Op>, ip: string, rate: int, window: int)
    requires Lookup(l, ip) == Lookup(own, ip)
    ensures OwnAnswers(Exec(l, WithoutEvictions(ops), rate, window).1, ip)
         == Exec(own, OwnOps(ops, ip), rate, window).1
    decreases |ops|
  {
    if ops != [] {
      var rest := ops[1..];
      if ops[0].Evict? {
        assert WithoutEvictions(ops) == WithoutEvictions(rest);
        assert OwnOps(ops, ip) == OwnOps(rest, ip);
        OnlyOwnCallsMatter(l, own, rest, ip, rate, window);
      } else {
        assert WithoutEvictions(ops)[1..] == WithoutEvictions(rest);
        var (l', now) := Apply(l, ops[0], rate, window);
        var later := Exec(l', WithoutEvictions(rest), rate, window).1;
        OwnAnswersConcat(now, later, ip);
        assert now[1..] == [];
        if ops[0].ip == ip {
          assert OwnOps(ops, ip)[1..] == OwnOps(rest, ip);
          OnlyOwnCallsMatter(l', Apply(own, ops[0], rate, window).0, rest, ip, rate, window);
        } else {
          assert OwnOps(ops, ip) == OwnOps(rest, ip);
          OnlyOwnCallsMatter(l', own, rest, ip, rate, window);
        }
      }
    }
  }

  /** The answers for one IP depend only on that IP's own calls. */
  lemma IpsAreIndependent(ops: seq<Op>, now: int, ip: string, rate: int, window: int)
    requires Monotone(ops, now)
    ensures OwnAnswers(Exec(NO_VISITORS, ops, rate, window).1, ip)
         == Exec(NO_VISITORS, OwnOps(ops, ip), rate, window).1
  {
    EvictionTransparency(ops, now, rate, window);
    OnlyOwnCallsMatter(NO_VISITORS, NO_VISITORS, ops, ip, rate, window);
  }

  // ---------- The sliding window ----------

  /** Requests of one IP accepted in the closed interval from `from` to `to`. */
  function Accepted(answers: seq<Answer>, ip: string, from: int, to: int): nat {
    if answers == [] then 0
    else
      (if answers[0].ip == ip && answers[0].ok && from <= answers[0].at <= to then 1 else 0)
      + Accepted(answers[1..], ip, from, to)
  }

  lemma {:induction false} AcceptedOwn(answers: seq<Answer>, ip: string, from: int, to: int)
    ensures Accepted(OwnAnswers(answers, ip), ip, from, to) == Accepted(answers, ip, from, to)
  {
    if answers != [] {
      AcceptedOwn(answers[1..], ip, from, to);
      if answers[0].ip == ip {
        assert OwnAnswers(answers, ip)[1..] == OwnAnswers(answers[1..], ip);
      } else {
        assert OwnAnswers(answers, ip) == OwnAnswers(answers[1..], ip);
      }
    }
  }

  function Max(a: int, b: int): int {
    if a >= b then a else b
  }

  predicate OnlyCallsOf(ops: seq<Op>, ip: string) {
    forall op :: op in ops ==> op.Allow? && op.ip == ip
  }

  lemma {:induction false} OwnOpsMonotone(ops: seq<Op>, ip: string, now: int, later: int)
    requires Monotone(ops, later) && now <= later
    ensures OnlyCallsOf(OwnOps(ops, ip), ip) && Monotone(OwnOps(ops, ip), now)
    decreases |ops|
  {
    if ops != [] {
      var rest := ops[1..];
      var next := if ops[0].Allow? then ops[0].stamped else ops[0].until;
      if ops[0].Allow? && ops[0].ip == ip {
        assert OwnOps(ops, ip)[1..] == OwnOps(rest, ip);
        OwnOpsMonotone(rest, ip, next, next);
      } else {
        assert OwnOps(ops, ip) == OwnOps(rest, ip);
        OwnOpsMonotone(rest, ip, now, next);
      }
    }
  }

  /** A trace step at the front of an execution. */
  lemma ExecFirst(l: Limiter, ops: seq<Op>, ip: string, from: int, to: int, rate: int, window: int)
    requires ops != [] && OnlyCallsOf(ops, ip)
    ensures OnlyCallsOf(ops[1..], ip)
    ensures var (l', ok) := Allowed(l, ip, ops[0].checked, ops[0].stamped, rate, window);
            Accepted(Exec(l, ops, rate, window).1, ip, from, to)
            == (if ok && from <= ops[0].stamped <= to then 1 else 0)
               + Accepted(Exec(l', ops[1..], rate, window).1, ip, from, to)
  {
    assert ops[0] in ops;
    var (l', now) := Apply(l, ops[0], rate, window);
    var later := Exec(l', ops[1..], rate, window).1;
    assert (now + later)[1..] == later;
  }

  /** Nothing is accepted in an interval that the clock has left. */
  lemma {:induction false} NoneBefore(
    l: Limiter, ops: seq<Op>, now: int, ip: string, from: int, to: int, rate: int, window: int)
    requires OnlyCallsOf(ops, ip) && Monotone(ops, now) && to < now
    ensures Accepted(Exec(l, ops, rate, window).1, ip, from, to) == 0
    decreases |ops|
  {
    if ops != [] {
      assert ops[0] in ops;
      ExecFirst(l, ops, ip, from, to, rate, window);
      var l' := Allowed(l, ip, ops[0].checked, ops[0].stamped, rate, window).0;
      NoneBefore(l', ops[1..], ops[0].stamped, ip, from, to, rate, window);
    }
  }

  /** What an entry still allows in the window that begins at `from`. */
  function Allowance(v: Option<Visitor>, from: int, rate: int): int {
    if v.Some? && v.value.lastSeen >= from then Max(0, rate - v.value.count) else Max(1, rate)
  }

  /** One call keeps the allowance: what it accepts inside the window it takes away, or the window is over. */
  lemma AdmitSpendsAllowance(
    v: Option<Visitor>, now: int, checked: int, stamped: int, from: int, rate: int, window: int)
    requires window >= 0 && now <= checked <= stamped
    requires v.Some? ==> v.value.count >= 1 && v.value.lastSeen <= now
    ensures var (v', ok) := Admit(v, checked, stamped, rate, window);
            && v'.count >= 1 && v'.lastSeen <= stamped
            && (stamped <= from + window ==>
                  (if ok && from <= stamped then 1 else 0) + Allowance(Some(v'), from, rate) <= Allowance(v, from, rate))
            && Allowance(v, from, rate) >= 0
            && (!ok ==> v == Some(v'))
  {
  }

  lemma {:induction false} WindowBound(
    l: Limiter, ops: seq<Op>, now: int, ip: string, from: int, rate: int, window: int)
    requires window >= 0 && OnlyCallsOf(ops, ip) && Monotone(ops, now)
    requires ip in l.visitors ==> l.visitors[ip].count >= 1 && l.visitors[ip].lastSeen <= now
    ensures Accepted(Exec(l, ops, rate, window).1, ip, from, from + window) <= Allowance(Lookup(l, ip), from, rate)
    decreases |ops|
  {
    if ops != [] {
      assert ops[0] in ops;
      var (checked, stamped) := (ops[0].checked, ops[0].stamped);
      ExecFirst(l, ops, ip, from, from + window, rate, window);
      AdmitSpendsAllowance(Lookup(l, ip), now, checked, stamped, from, rate, window);
      var l' := Allowed(l, ip, checked, stamped, rate, window).0;
      if stamped > from + window {
        NoneBefore(l', ops[1..], stamped, ip, from, from + window, rate, window);
      } else {
        WindowBound(l', ops[1..], stamped, ip, from, rate, window);
      }
    }
  }

  /** Every closed interval of the window's length holds at most max(1, rate) accepted requests of an IP. */
  lemma SlidingWindow(ops: seq<Op>, now: int, ip: string, from: int, rate: int, window: int)
    requires window >= 0 && Monotone(ops, now)
    ensures Accepted(Exec(NO_VISITORS, ops, rate, window).1, ip, from, from + window) <= Max(1, rate)
  {
    IpsAreIndependent(ops, now, ip, rate, window);
    AcceptedOwn(Exec(NO_VISITORS, ops, rate, window).1, ip, from, from + window);
    OwnOpsMonotone(ops, ip, now, now);
    WindowBound(NO_VISITORS, OwnOps(ops, ip), now, ip, from, rate, window);
  }

  /** `n` requests of one IP at one instant. */
  function Burst(ip: string, at: int, n: nat): seq<Op> {
    if n == 0 then [] else [Allow(ip, at, at)] + Burst(ip, at, n - 1)
  }

  lemma {:induction false} BurstAccepted(l: Limiter, ip: string, at: int, n: nat, rate: int, window: int)
    requires window >= 0
    requires ip in l.visitors ==> l.visitors[ip].lastSeen == at && l.visitors[ip].count >= 1
    requires n >= Allowance(Lookup(l, ip), at, rate)
    ensures Monotone(Burst(ip, at, n), at) && OnlyCallsOf(Burst(ip, at, n), ip)
    ensures Accepted(Exec(l, Burst(ip, at, n), rate, window).1, ip, at, at + window)
         == Allowance(Lookup(l, ip), at, rate)
    decreases n
  {
    var ops := Burst(ip, at, n);
    if n > 0 {
      assert ops[1..] == Burst(ip, at, n - 1);
      var l' := Allowed(l, ip, at, at, rate, window).0;
      BurstAccepted(l', ip, at, n - 1, rate, window);
      ExecFirst(l, ops, ip, at, at + window, rate, window);
    }
  }

  /** The bound is attained: a burst of enough requests has exactly max(1, rate) of them accepted. */
  lemma SlidingWindowIsTight(ip: string, at: int, n: nat, rate: int, window: int)
    requires window >= 0 && n >= Max(1, rate)
    ensures Monotone(Burst(ip, at, n), at)
    ensures Accepted(Exec(NO_VISITORS, Burst(ip, at, n), rate, window).1, ip, at, at + window) == Max(1, rate)
  {
    BurstAccepted(NO_VISITORS, ip, at, n, rate, window);
  }

  lemma {:induction false} AcceptedSplits(answers: seq<Answer>, ip: string, from: int, mid: int, to: int)
    ensures Accepted(answers, ip, from, to) <= Accepted(answers, ip, from, mid) + Accepted(answers, ip, mid, to)
  {
    if answers != [] {
      AcceptedSplits(answers[1..], ip, from, mid, to);
    }
  }

  lemma {:induction false} AcceptedMonotone(answers: seq<Answer>, ip: string, from: int, to: int, to': int)
    requires to <= to'
    ensures Accepted(answers, ip, from, to) <= Accepted(answers, ip, from, to')
  {
    if answers != [] {
      AcceptedMonotone(answers[1..], ip, from, to, to');
    }
  }

  /** Any closed interval of a longer length is covered by length / window + 1 windows. */
  lemma {:induction false} LongInterval(
    ops: seq<Op>, now: int, ip: string, from: int, length: nat, rate: int, window: int)
    requires window > 0 && Monotone(ops, now)
    ensures Accepted(Exec(NO_VISITORS, ops, rate, window).1, ip, from, from + length)
         <= Max(1, rate) * (length / window + 1)
    decreases length
  {
    var answers := Exec(NO_VISITORS, ops, rate, window).1;
    SlidingWindow(ops, now, ip, from, rate, window);
    if length < window {
      AcceptedMonotone(answers, ip, from, from + length, from + window);
      assert length / window == 0;
    } else {
      AcceptedSplits(answers, ip, from, from + window, from + length);
      LongInterval(ops, now, ip, from + window, length - window, rate, window);
      QuotientSteps(length, window);
      var q := (length - window) / window;
      assert Max(1, rate) * (q + 1) + Max(1, rate) == Max(1, rate) * (q + 2);
    }
  }

  lemma MultipleAtLeast(k: int, window: int)
    requires k != 0 && window > 0
    ensures k * window >= window || k * window <= -window
  {
    if k >= 1 {
      assert (k - 1) * window >= 0;
    } else {
      assert (-k - 1) * window >= 0;
    }
  }

  lemma QuotientSteps(length: int, window: int)
    requires 0 < window <= length
    ensures length / window == (length - window) / window + 1
  {
    var k, r := length / window, length % window;
    var k', r' := (length - window) / window, (length - window) % window;
    var d := k - k' - 1;
    assert d * window == k * window - k' * window - window;
    assert length == k * window + r;
    assert length - window == k' * window + r';
    assert d * window == r' - r;
    if d != 0 {
      MultipleAtLeast(d, window);
    }
  }
}
