/** The WebSocket handler's reservation: taken before the upgrade and released unless it is handed off. */
module WebSockets {
  import opened ConnectionTrackers

  /** What happens to a request after authorisation: the upgrade fails, panics or gives a connection. */
  datatype Upgrade = UpgradeFailed | UpgradePanicked | Upgraded

  datatype Outcome = Unauthorized | TooManyConnections | UpgradeError | InternalError | HandedOff

  function CountOf(tracker: ConnectionTracker?): int
    reads tracker
  {
    if tracker == null then 0 else tracker.count
  }

  /**
    The handler up to the hand-off, with its deferred release. The slot stays taken exactly when the
    connection is handed to its watcher; otherwise the count is what it was. A handler without a tracker
    turns nobody away.
   */
  method ServeHTTP(tracker: ConnectionTracker?, authorized: bool, upgrade: Upgrade) returns (outcome: Outcome)
    requires CountOf(tracker) >= 0
    modifies if tracker == null then {} else {tracker}
    ensures outcome.Unauthorized? <==> !authorized
    ensures outcome.TooManyConnections? <==>
              authorized && tracker != null && old(CountOf(tracker)) >= tracker.maxConn
    ensures outcome.HandedOff? <==> authorized && !outcome.TooManyConnections? && upgrade.Upgraded?
    ensures tracker != null ==>
              CountOf(tracker) == old(CountOf(tracker)) + if outcome.HandedOff? then 1 else 0
  {
    if !authorized {
      return Unauthorized;
    }
    var reserved := false;
    if tracker != null {
      var ok := tracker.TryAdd();
      if !ok {
        return TooManyConnections;
      }
      reserved := true;
    }
    match upgrade {
      case UpgradeFailed => outcome := UpgradeError;
      case UpgradePanicked => outcome := InternalError;
      case Upgraded =>
        reserved := false;
        outcome := HandedOff;
    }
    if reserved {
      tracker.Remove();
    }
  }
}
