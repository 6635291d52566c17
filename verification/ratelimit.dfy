/** The per-IP rate limiter: a map of visitors, from which a background task evicts expired entries. */
module RateLimits {
  import opened Wrappers

  datatype Visitor = Visitor(count: int, lastSeen: int)

  datatype Limiter = Limiter(visitors: map<string, Visitor>, rejected: nat)

  const NO_VISITORS := Limiter(map[], 0)

  function Lookup(l: Limiter, ip: string): Option<Visitor> {
    if ip in l.visitors then Some(l.visitors[ip]) else None
  }

  predicate Expired(v: Visitor, now: int, window: int) {
    now - v.lastSeen > window
  }

  /**
    The decision on one visitor and the entry it leaves behind. The clock is read twice: at `checked`
    for the age of the entry, then at `stamped` for its new timestamp.
   */
  function Admit(v: Option<Visitor>, checked: int, stamped: int, rate: int, window: int): (Visitor, bool) {
    if v.None? || Expired(v.value, checked, window) then (Visitor(1, stamped), true)
    else if v.value.count >= rate then (v.value, false)
    else (Visitor(v.value.count + 1, stamped), true)
  }

  function Allowed(l: Limiter, ip: string, checked: int, stamped: int, rate: int, window: int): (Limiter, bool) {
    var (v, ok) := Admit(Lookup(l, ip), checked, stamped, rate, window);
    (Limiter(l.visitors[ip := v], if ok then l.rejected else l.rejected + 1), ok)
  }

  /** Drops the entries that are expired at the clock reading made for them. */
  function Evicted(l: Limiter, readings: map<string, int>, window: int): Limiter {
    l.(visitors := map ip | ip in l.visitors && !(ip in readings && Expired(l.visitors[ip], readings[ip], window))
                   :: l.visitors[ip])
  }

  class RateLimiter {
    const rate: int
    const window: int
    var visitors: map<string, Visitor>
    var rejected: nat

    ghost function View(): Limiter
      reads this
    {
      Limiter(visitors, rejected)
    }

    constructor (rate: int, window: int)
      ensures View() == NO_VISITORS && this.rate == rate && this.window == window
    {
      this.rate := rate;
      this.window := window;
      visitors := map[];
      rejected := 0;
    }

    method Allow(ip: string, checked: int, stamped: int) returns (ok: bool)
      modifies this
      ensures (View(), ok) == Allowed(old(View()), ip, checked, stamped, rate, window)
      ensures var renewed := ip !in old(visitors) || checked - old(visitors)[ip].lastSeen > window;
              && (ok <==> renewed || old(visitors)[ip].count < rate)
              && visitors == (if !ok then old(visitors)
                              else if renewed then old(visitors)[ip := Visitor(1, stamped)]
                              else old(visitors)[ip := Visitor(old(visitors)[ip].count + 1, stamped)])
      ensures rejected == if ok then old(rejected) else old(rejected) + 1
    {
      if ip !in visitors || checked - visitors[ip].lastSeen > window {
        visitors := visitors[ip := Visitor(1, stamped)];
        return true;
      }
      var v := visitors[ip];
      if v.count >= rate {
        rejected := rejected + 1;
        assert visitors == visitors[ip := v];
        return false;
      }
      visitors := visitors[ip := Visitor(v.count + 1, stamped)];
      return true;
    }

    /** Ranges over the entries in any order; `readings` holds what the clock says at each of them. */
    method EvictExpired(readings: map<string, int>)
      requires visitors.Keys <= readings.Keys
      modifies this
      ensures View() == Evicted(old(View()), readings, window)
      ensures forall ip :: ip in visitors <==>
                ip in old(visitors) && readings[ip] - old(visitors)[ip].lastSeen <= window
      ensures forall ip :: ip in visitors ==> visitors[ip] == old(visitors)[ip]
      ensures rejected == old(rejected)
    {
      ghost var before := View();
      var todo := visitors.Keys;
      while todo != {}
        invariant todo <= visitors.Keys <= before.visitors.Keys
        invariant rejected == before.rejected
        invariant forall ip :: ip in visitors ==> visitors[ip] == before.visitors[ip]
        invariant forall ip :: ip in before.visitors && ip !in todo ==>
                    (ip in visitors <==> !Expired(before.visitors[ip], readings[ip], window))
        decreases todo
      {
        var ip :| ip in todo;
        if readings[ip] - visitors[ip].lastSeen > window {
          visitors := visitors - {ip};
        }
        todo := todo - {ip};
      }
      assert visitors == Evicted(before, readings, window).visitors;
    }
  }
}

/** The cap on WebSocket connections. */
module ConnectionTrackers {

  /** The count after TryAdd, and whether a slot was reserved. */
  function Added(count: int, maxConn: int): (int, bool) {
    if count >= maxConn then (count, false) else (count + 1, true)
  }

  /** The count after Remove, which has a floor. */
  function Removed(count: int): int {
    if count > 0 then count - 1 else count
  }

  class ConnectionTracker {
    const maxConn: int
    var count: int

    constructor (maxConn: int)
      ensures count == 0 && this.maxConn == maxConn
    {
      this.maxConn := maxConn;
      count := 0;
    }

    method TryAdd() returns (reserved: bool)
      modifies this
      ensures (count, reserved) == Added(old(count), maxConn)
      ensures reserved <==> old(count) < maxConn
      ensures count == old(count) + if reserved then 1 else 0
    {
      if count >= maxConn {
        return false;
      }
      count := count + 1;
      return true;
    }

    method Remove()
      modifies this
      ensures count == Removed(old(count))
      ensures count == if old(count) > 0 then old(count) - 1 else old(count)
    {
      if count > 0 {
        count := count - 1;
      }
    }
  }
}
