/** The capped exponential delays of the four reconnect loops, in Go's 64-bit durations. */
module Backoff {
  import opened Wrappers

  const MAX_INT64 := 0x7fff_ffff_ffff_ffff
  const TWO_62 := 0x4000_0000_0000_0000

  type Int64 = x: int | -MAX_INT64 - 1 <= x <= MAX_INT64

  /** Two's complement wrap-around. */
  function Wrap64(x: int): Int64 {
    (x + MAX_INT64 + 1) % 0x1_0000_0000_0000_0000 - MAX_INT64 - 1
  }

  function Min(a: int, b: int): int {
    if a <= b then a else b
  }

  function Pow2(n: nat): (p: nat)
    ensures p >= 1
  {
    if n == 0 then 1 else 2 * Pow2(n - 1)
  }

  lemma {:induction false} Pow2Doubles(n: nat)
    requires n > 0
    ensures forall x: int :: x * Pow2(n) == (2 * x) * Pow2(n - 1)
  {
    forall x: int ensures x * Pow2(n) == (2 * x) * Pow2(n - 1) {
      assert x * (2 * Pow2(n - 1)) == (2 * x) * Pow2(n - 1);
    }
  }

  lemma Pow2Scales(x: int, n: nat)
    requires x >= 0
    ensures x * Pow2(n) >= x
  {
    assert x * (Pow2(n) - 1) >= 0;
  }

  /** The saturating value the source documents. */
  function SaturatingShift(value: Int64, cap: Int64, times: int): int {
    Min(value * Pow2(if times < 0 then 0 else times), cap)
  }

  // ---------- cappedDouble ----------

  /** The doubling loop with 64-bit wrap-around. */
  function CappedDouble(value: Int64, cap: Int64, times: int): Int64
    decreases if times < 0 then 0 else times
  {
    if times > 0 && value < cap then CappedDouble(Wrap64(value * 2), cap, times - 1)
    else if value > cap then cap
    else value
  }

  /** Every doubling the loop makes stays inside a 64-bit duration. */
  predicate DoublesInRange(value: Int64, cap: Int64, times: int)
    decreases if times < 0 then 0 else times
  {
    times > 0 && value < cap ==> value * 2 <= MAX_INT64 && DoublesInRange(Wrap64(value * 2), cap, times - 1)
  }

  method CappedDoubleLoop(value: Int64, cap: Int64, times: int) returns (r: Int64)
    ensures r == CappedDouble(value, cap, times)
    ensures 0 <= value && cap <= TWO_62 ==> r == SaturatingShift(value, cap, times)
  {
    var v: Int64 := value;
    var i := 0;
    while i < times && v < cap
      invariant -MAX_INT64 - 1 <= v <= MAX_INT64
      invariant 0 <= i && (times < 0 || i <= times)
      invariant CappedDouble(v, cap, times - i) == CappedDouble(value, cap, times)
      decreases times - i
    {
      v := Wrap64(v * 2);
      i := i + 1;
    }
    if 0 <= value && cap <= TWO_62 {
      CappedDoubleSaturates(value, cap, times);
    }
    return if v > cap then cap else v;
  }

  lemma {:induction false} CappedDoubleSaturates(value: Int64, cap: Int64, times: int)
    requires 0 <= value && cap <= TWO_62
    ensures CappedDouble(value, cap, times) == SaturatingShift(value, cap, times)
    ensures DoublesInRange(value, cap, times)
    decreases if times < 0 then 0 else times
  {
    if times > 0 {
      if value < cap {
        assert Wrap64(value * 2) == value * 2;
        CappedDoubleSaturates(value * 2, cap, times - 1);
        Pow2Doubles(times);
        assert value * Pow2(times) == (2 * value) * Pow2(times - 1);
      } else {
        Pow2Scales(value, times);
      }
    } else {
      assert Pow2(0) == 1;
    }
  }

  /**
    The source says the result can never overflow. That holds for every starting value exactly when
    the cap is at most 2^62, and so does the documented saturating result.
   */
  lemma CappedDoubleExactly(cap: Int64)
    ensures cap <= TWO_62 <==>
            forall value: Int64, times: int | 0 <= value :: DoublesInRange(value, cap, times)
    ensures cap <= TWO_62 <==>
            forall value: Int64, times: int | 0 <= value ::
              CappedDouble(value, cap, times) == SaturatingShift(value, cap, times)
  {
    if cap <= TWO_62 {
      forall value: Int64, times: int | 0 <= value
        ensures DoublesInRange(value, cap, times)
        ensures CappedDouble(value, cap, times) == SaturatingShift(value, cap, times)
      {
        CappedDoubleSaturates(value, cap, times);
      }
    } else {
      var value: Int64 := TWO_62;
      assert !DoublesInRange(value, cap, 1);
      assert Pow2(1) == 2 * Pow2(0) == 2;
      assert CappedDouble(value, cap, 1) == CappedDouble(Wrap64(value * 2), cap, 0) == -MAX_INT64 - 1;
      assert CappedDouble(value, cap, 1) != SaturatingShift(value, cap, 1);
    }
  }

  // ---------- The other three loops ----------

  /** One step of the terminal client's delay; zero means that no delay has been used yet. */
  function NextBackoff(current: Int64, base: Int64, max: Int64): Int64 {
    if current <= 0 then base
    else if Wrap64(current * 2) > max then max
    else Wrap64(current * 2)
  }

  function NextBackoffSteps(n: nat, base: Int64, max: Int64): Int64 {
    if n == 0 then 0 else NextBackoff(NextBackoffSteps(n - 1, base, max), base, max)
  }

  /** What the example consumer makes of its delay after sleeping. */
  function ConsumerNext(backoff: Int64, max: Int64): Int64 {
    if Wrap64(backoff * 2) > max then max else Wrap64(backoff * 2)
  }

  function ConsumerSteps(n: nat, base: Int64, max: Int64): Int64 {
    if n == 0 then base else ConsumerNext(ConsumerSteps(n - 1, base, max), max)
  }

  /** The dashboard's delay in milliseconds: JavaScript numbers do not wrap. */
  function DashboardSteps(n: nat, base: int, max: int): int {
    if n == 0 then base else Min(DashboardSteps(n - 1, base, max) * 2, max)
  }

  /** Saturating at a cap commutes with doubling. */
  lemma ShiftSteps(base: Int64, max: Int64, n: nat)
    requires 0 < base <= max
    ensures SaturatingShift(base, max, n + 1) == Min(SaturatingShift(base, max, n) * 2, max)
    ensures SaturatingShift(base, max, 0) == base
    ensures 0 < SaturatingShift(base, max, n) <= max
  {
    assert base * Pow2(n + 1) == base * Pow2(n) * 2;
    Pow2Scales(base, n);
  }

  /** The same step on the loop's own result. */
  lemma CappedDoubleStep(base: Int64, max: Int64, n: nat)
    requires 0 < base <= max <= TWO_62
    ensures CappedDouble(base, max, n + 1) == Min(CappedDouble(base, max, n) * 2, max)
    ensures CappedDouble(base, max, 0) == base
    ensures 0 < CappedDouble(base, max, n) <= max
  {
    ShiftSteps(base, max, n);
    CappedDoubleSaturates(base, max, n);
    CappedDoubleSaturates(base, max, n + 1);
  }

  /** In range, a wrapped doubling is a doubling. */
  lemma DoublingFits(x: Int64)
    requires 0 <= x < TWO_62
    ensures Wrap64(x * 2) == x * 2
  {
  }

  lemma {:induction false} TerminalClientAgrees(base: Int64, max: Int64, n: nat)
    requires 0 < base <= max < TWO_62
    ensures NextBackoffSteps(n + 1, base, max) == CappedDouble(base, max, n)
  {
    if n == 0 {
      assert NextBackoffSteps(0, base, max) == 0;
    } else {
      var before := NextBackoffSteps(n, base, max);
      assert NextBackoffSteps(n + 1, base, max) == NextBackoff(before, base, max);
      TerminalClientAgrees(base, max, n - 1);
      CappedDoubleStep(base, max, n - 1);
      DoublingFits(before);
    }
  }

  lemma {:induction false} ConsumerAgrees(base: Int64, max: Int64, n: nat)
    requires 0 < base <= max < TWO_62
    ensures ConsumerSteps(n, base, max) == CappedDouble(base, max, n)
  {
    if n > 0 {
      var before := ConsumerSteps(n - 1, base, max);
      ConsumerAgrees(base, max, n - 1);
      CappedDoubleStep(base, max, n - 1);
      DoublingFits(before);
    }
  }

  lemma {:induction false} DashboardAgrees(base: Int64, max: Int64, n: nat)
    requires 0 < base <= max < TWO_62
    ensures DashboardSteps(n, base, max) == CappedDouble(base, max, n)
  {
    if n > 0 {
      DashboardAgrees(base, max, n - 1);
      CappedDoubleStep(base, max, n - 1);
    }
  }

  /** The n-th delays of all four loops agree. */
  lemma DelaysAgree(base: Int64, max: Int64, n: nat)
    requires 0 < base <= max < TWO_62
    ensures NextBackoffSteps(n + 1, base, max)
         == ConsumerSteps(n, base, max)
         == DashboardSteps(n, base, max)
         == CappedDouble(base, max, n)
         == SaturatingShift(base, max, n)
  {
    TerminalClientAgrees(base, max, n);
    ConsumerAgrees(base, max, n);
    DashboardAgrees(base, max, n);
    CappedDoubleSaturates(base, max, n);
  }

  /**
    The agreement for every positive base up to `max` needs `max` strictly below 2^62: with 2^62 the
    terminal client and the consumer double once past the 64-bit range, where cappedDouble stops.
   */
  lemma DelaysAgreeExactly(max: Int64)
    requires 0 < max
    ensures max < TWO_62 <==>
            forall base: Int64, n: nat | 0 < base <= max ::
              NextBackoffSteps(n + 1, base, max) == SaturatingShift(base, max, n)
    ensures max < TWO_62 <==>
            forall base: Int64, n: nat | 0 < base <= max ::
              ConsumerSteps(n, base, max) == SaturatingShift(base, max, n)
  {
    if max < TWO_62 {
      forall base: Int64, n: nat | 0 < base <= max
        ensures NextBackoffSteps(n + 1, base, max) == SaturatingShift(base, max, n)
        ensures ConsumerSteps(n, base, max) == SaturatingShift(base, max, n)
      {
        DelaysAgree(base, max, n);
        CappedDoubleSaturates(base, max, n);
      }
    } else {
      var base: Int64 := TWO_62;
      assert NextBackoffSteps(0, base, max) == 0;
      assert NextBackoffSteps(1, base, max) == base;
      assert NextBackoffSteps(1 + 1, base, max) == -MAX_INT64 - 1;
      assert ConsumerSteps(0, base, max) == base;
      assert ConsumerSteps(1, base, max) == -MAX_INT64 - 1;
      ShiftSteps(base, max, 1);
    }
  }

  // ---------- The consumer's loop ----------

  const RECONNECT_MIN: Int64 := 1_000_000_000
  const RECONNECT_MAX: Int64 := 30_000_000_000

  /** Sessions in a row, up to and including the i-th, that received nothing since the last one that did. */
  function FailuresBefore(received: seq<bool>, i: nat): (n: nat)
    requires i < |received|
    ensures n <= i && (n == i || received[i - n])
    ensures forall j :: i - n < j <= i ==> !received[j]
  {
    if received[i] || i == 0 then 0 else 1 + FailuresBefore(received, i - 1)
  }

  lemma ConsumerAdvances(n: nat)
    ensures ConsumerSteps(0, RECONNECT_MIN, RECONNECT_MAX) == RECONNECT_MIN
    ensures ConsumerNext(ConsumerSteps(n, RECONNECT_MIN, RECONNECT_MAX), RECONNECT_MAX)
         == ConsumerSteps(n + 1, RECONNECT_MIN, RECONNECT_MAX)
    ensures ConsumerSteps(n, RECONNECT_MIN, RECONNECT_MAX) == Min(1_000_000_000 * Pow2(n), 30_000_000_000)
  {
    hide ConsumerNext;
    DelaysAgree(RECONNECT_MIN, RECONNECT_MAX, n);
  }

  /**
    The endless consume loop over the sessions `received` tells of, one flag each: the delay slept
    after a session is one second, doubled once per fruitless session since the last reset, 30 at most.
   */
  method RunConsumer(received: seq<bool>) returns (delays: seq<Int64>)
    ensures |delays| == |received|
    ensures forall i :: 0 <= i < |received| ==>
              delays[i] == Min(1_000_000_000 * Pow2(FailuresBefore(received, i)), 30_000_000_000)
  {
    hide ConsumerSteps, ConsumerNext, Min, Pow2;
    var backoff := RECONNECT_MIN;
    delays := [];
    for i := 0 to |received|
      invariant |delays| == i
      invariant i == 0 ==> backoff == RECONNECT_MIN
      invariant i > 0 ==> backoff == ConsumerSteps(FailuresBefore(received, i - 1) + 1, RECONNECT_MIN, RECONNECT_MAX)
      invariant forall j :: 0 <= j < i ==>
                  delays[j] == Min(1_000_000_000 * Pow2(FailuresBefore(received, j)), 30_000_000_000)
    {
      if received[i] {
        backoff := RECONNECT_MIN;
      }
      ConsumerAdvances(FailuresBefore(received, i));
      delays := delays + [backoff];
      backoff := ConsumerNext(backoff, RECONNECT_MAX);
    }
  }

  // ---------- The dashboard's timer ----------

  const WS_RECONNECT_BASE := 1000
  const WS_RECONNECT_MAX := 30000

  /** The dashboard's reconnect state: its next delay and the delay of the timer that is set. */
  class Dashboard {
    var reconnectDelay: int
    var timer: Option<int>
    ghost var fired: nat    // timers that ran since the last reset

    ghost predicate Valid()
      reads this
    {
      reconnectDelay == CappedDouble(WS_RECONNECT_BASE, WS_RECONNECT_MAX, fired)
    }

    constructor ()
      ensures Valid() && fired == 0 && timer == None
    {
      reconnectDelay := WS_RECONNECT_BASE;
      timer := None;
      fired := 0;
    }

    /** Replaces a timer that is set; the delay is the saturating shift by the timers that ran. */
    method ScheduleReconnect()
      requires Valid()
      modifies this
      ensures Valid() && fired == old(fired)
      ensures timer == Some(CappedDouble(WS_RECONNECT_BASE, WS_RECONNECT_MAX, fired))
      ensures timer == Some(Min(1000 * Pow2(fired), 30000))
    {
      CappedDoubleSaturates(WS_RECONNECT_BASE, WS_RECONNECT_MAX, fired);
      hide CappedDouble;
      timer := Some(reconnectDelay);
    }

    method TimerFires()
      requires Valid() && timer.Some?
      modifies this
      ensures Valid() && fired == old(fired) + 1 && timer == None
    {
      reconnectDelay := Min(reconnectDelay * 2, WS_RECONNECT_MAX);
      timer := None;
      CappedDoubleStep(WS_RECONNECT_BASE, WS_RECONNECT_MAX, fired);
      fired := fired + 1;
    }

    method OnOpen()
      requires Valid()
      modifies this
      ensures Valid() && fired == 0 && timer == old(timer)
    {
      reconnectDelay := WS_RECONNECT_BASE;
      fired := 0;
    }
  }
}
