/** Which wake-ups of the scheduler get to the retry queue, and which leave it waiting. */
module ManagerWakeUps {
  import opened SlotPool
  import opened ManagerModel
  import opened ManagerInvariant
  import opened ManagerCallbacks
  import opened ManagerScheduling
  import opened ManagerLoops

  /**
   * What the flags of earlier wake-ups, the spot where the last one stopped, the cache and the limit leave of the
   * round robin: whether it comes to the retry queue.
   */
  predicate Reaches(s: Manager, net: seq<ConnectOutcome>) {
    match s.current
    case FailedSpot => true
    case DisconnectedSpot => !(s.empties.discovered && s.empties.failed)
    case DiscoveredSpot =>
      if DiscoveredScheduler(s, net).found then Inc(s.statistics.inboundInflight) < MAX_INBOUND_INFLIGHT
      else !s.empties.failed
  }

  // What each turn does to the queue.

  lemma TryDiscoveredQueue(s: Manager, o: ConnectOutcome)
    requires s.cache != [] && s.pool.available != [] && HasSlot(s, NextSlot(s.pool))
    ensures TryDiscovered(s, o).retryQueue == s.retryQueue
  {
    var i := NextSlot(s.pool);
    if s.cache[|s.cache| - 1].endpoint !in s.peers {
      EnrolledOpens(s, o);
      InitiateConnectInflight(Enrolled(s), i, o);
      DeleteInflight(InitiateConnect(Enrolled(s), i, o), i);
      EnrolledQueue(s);
      hide InitiateConnect, DeletePeer, Enrolled, Opens, DiscoveredOpens, SameScheduler;
    }
  }

  lemma EnrolledQueue(s: Manager)
    requires s.cache != [] && s.pool.available != [] && HasSlot(s, NextSlot(s.pool))
    ensures Enrolled(s).retryQueue == s.retryQueue
  {
  }

  lemma {:induction false} DrainCacheQueue(s: Manager, net: seq<ConnectOutcome>)
    ensures DrainCache(s, net).manager.retryQueue == s.retryQueue
    decreases |s.cache|
  {
    if s.cache != [] && s.pool.available != [] && HasSlot(s, NextSlot(s.pool)) {
      TryDiscoveredQueue(s, NextOutcome(net));
      TryDiscoveredInflight(s, NextOutcome(net));
      var t := TryDiscovered(s, NextOutcome(net));
      if !DiscoveredOpens(s, NextOutcome(net)) {
        DrainCacheQueue(t, AfterDiscovered(s, net));
      }
      hide TryDiscovered, DiscoveredOpens, AfterDiscovered;
    }
  }

  lemma {:induction false} FailedSchedulerShrinks(s: Manager, net: seq<ConnectOutcome>)
    ensures |FailedScheduler(s, net).manager.retryQueue| <= |s.retryQueue|
    ensures s.retryQueue != [] ==> |FailedScheduler(s, net).manager.retryQueue| < |s.retryQueue|
    decreases |s.retryQueue|
  {
    if s.retryQueue != [] {
      TryFailedInflight(s, NextOutcome(net));
      var t := TryFailed(s, NextOutcome(net));
      if !FrontPasses(s) {
        FailedSchedulerShrinks(t, net);
      } else if !Opens(s, s.retryQueue[0].slot, NextOutcome(net)) {
        FailedSchedulerShrinks(t, Rest(net));
      }
      hide TryFailed;
    }
  }

  /** A turn moves on one spot, marks its source unless it found something, and touches the queue only at the last. */
  lemma TurnForm(s: Manager, net: seq<ConnectOutcome>)
    ensures var t := Turn(s, net).manager;
            match s.current
            case DiscoveredSpot =>
              var found := DiscoveredScheduler(s, net).found;
              && t.retryQueue == s.retryQueue && t.current == DisconnectedSpot
              && t.empties == s.empties.(discovered := !found)
              && t.statistics.inboundInflight ==
                 if found then Inc(s.statistics.inboundInflight) else s.statistics.inboundInflight
            case DisconnectedSpot =>
              && t.retryQueue == s.retryQueue && t.current == FailedSpot
              && t.empties == s.empties.(disconnected := true)
              && t.statistics.inboundInflight == s.statistics.inboundInflight
            case FailedSpot =>
              |t.retryQueue| <= |s.retryQueue| && (s.retryQueue != [] ==> |t.retryQueue| < |s.retryQueue|)
  {
    DrainCacheInflight(s, net);
    DrainCacheQueue(s, net);
    FailedInflight(s, net);
    FailedSchedulerShrinks(s, net);
    hide DrainCache, FailedScheduler;
  }

  lemma RoundOnce(s: Manager, net: seq<ConnectOutcome>)
    ensures RoundRobin(s, net) ==
      if s.statistics.inboundInflight >= MAX_INBOUND_INFLIGHT then s
      else if AllEmpty(Turn(s, net).manager.empties) then Turn(s, net).manager
      else RoundRobin(Turn(s, net).manager, Turn(s, net).net)
  {
    hide Turn;
  }

  /** No wake-up ever queues a retry. */
  lemma {:induction false} RoundRobinShrinks(s: Manager, net: seq<ConnectOutcome>)
    ensures |RoundRobin(s, net).retryQueue| <= |s.retryQueue|
    decreases Budget(s), Unmarked(s.empties), Distance(s.current, s.empties)
  {
    RoundOnce(s, net);
    TurnForm(s, net);
    if s.statistics.inboundInflight < MAX_INBOUND_INFLIGHT {
      TurnProgress(s, net);
      hide Turn, RoundRobin, DiscoveredScheduler;
      var r := Turn(s, net);
      if !AllEmpty(r.manager.empties) {
        RoundRobinShrinks(r.manager, r.net);
      }
    }
  }

  // From each spot.

  lemma FromFailed(s: Manager, net: seq<ConnectOutcome>)
    requires s.statistics.inboundInflight < MAX_INBOUND_INFLIGHT && s.retryQueue != [] && s.current == FailedSpot
    ensures |RoundRobin(s, net).retryQueue| < |s.retryQueue|
  {
    hide Turn, RoundRobin, DiscoveredScheduler;
    RoundOnce(s, net);
    TurnForm(s, net);
    RoundRobinShrinks(Turn(s, net).manager, Turn(s, net).net);
  }

  lemma FromDisconnected(s: Manager, net: seq<ConnectOutcome>)
    requires s.statistics.inboundInflight < MAX_INBOUND_INFLIGHT && s.retryQueue != [] && s.current == DisconnectedSpot
    ensures if s.empties.discovered && s.empties.failed then RoundRobin(s, net).retryQueue == s.retryQueue
            else |RoundRobin(s, net).retryQueue| < |s.retryQueue|
  {
    hide Turn, RoundRobin, DiscoveredScheduler;
    RoundOnce(s, net);
    TurnForm(s, net);
    if !(s.empties.discovered && s.empties.failed) {
      FromFailed(Turn(s, net).manager, Turn(s, net).net);
    }
  }

  lemma FromDiscovered(s: Manager, net: seq<ConnectOutcome>)
    requires s.statistics.inboundInflight < MAX_INBOUND_INFLIGHT && s.retryQueue != [] && s.current == DiscoveredSpot
    ensures if Reaches(s, net) then |RoundRobin(s, net).retryQueue| < |s.retryQueue|
            else RoundRobin(s, net).retryQueue == s.retryQueue
  {
    hide Turn, RoundRobin, DiscoveredScheduler;
    RoundOnce(s, net);
    TurnForm(s, net);
    var r := Turn(s, net);
    if r.manager.statistics.inboundInflight >= MAX_INBOUND_INFLIGHT {
      RoundOnce(r.manager, r.net);
    } else if !AllEmpty(r.manager.empties) {
      FromDisconnected(r.manager, r.net);
    }
  }

  /**
   * The exact condition for a wake-up below the limit to serve the waiting retries. Where it fails, the whole
   * queue is left as it was.
   */
  lemma WakeUpServesRetries(s: Manager, net: seq<ConnectOutcome>)
    requires s.statistics.inboundInflight < MAX_INBOUND_INFLIGHT && s.retryQueue != []
    ensures |RoundRobin(s, net).retryQueue| < |s.retryQueue| <==> Reaches(s, net)
    ensures !Reaches(s, net) ==> RoundRobin(s, net).retryQueue == s.retryQueue
  {
    hide RoundRobin, DiscoveredScheduler;
    match s.current
    case FailedSpot => FromFailed(s, net);
    case DisconnectedSpot => FromDisconnected(s, net);
    case DiscoveredSpot => FromDiscovered(s, net);
  }

  // With room to spare.

  /** No source is marked empty that is not. */
  ghost predicate Honest(s: Manager) {
    (s.empties.discovered ==> s.cache == []) && (s.empties.failed ==> s.retryQueue == [])
  }

  /** Room for as many attempts as the limit allows. */
  ghost predicate Roomy(s: Manager) { |s.pool.available| > Budget(s) }

  lemma DiscoveredTurn(s: Manager, net: seq<ConnectOutcome>)
    requires Steady(s) && Honest(s) && Roomy(s) && s.statistics.inboundInflight < MAX_INBOUND_INFLIGHT
    requires s.current == DiscoveredSpot
    ensures Honest(Turn(s, net).manager) && Roomy(Turn(s, net).manager)
  {
    hide Steady, DrainCache, Candidates, AllRefused, Answer, After;
    var n := DiscoveredSchedulerExactly(s, net);
    DrainCacheInflight(s, net);
  }

  lemma FailedTurn(s: Manager, net: seq<ConnectOutcome>)
    requires Steady(s) && Honest(s) && Roomy(s) && s.statistics.inboundInflight < MAX_INBOUND_INFLIGHT
    requires s.current == FailedSpot
    ensures Honest(Turn(s, net).manager) && Roomy(Turn(s, net).manager)
  {
    hide Steady, FailedScheduler, Passing, AllRefused, Answer, After;
    var m, n := FailedExactly(s, net);
    FailedInflight(s, net);
  }

  /**
   * A wake-up that starts with honest marks and enough free slots stops for nothing less than the limit of attempts,
   * or with the cache and the retry queue empty.
   */
  lemma {:induction false} WakeUpExhausts(s: Manager, net: seq<ConnectOutcome>)
    requires Steady(s) && Honest(s) && Roomy(s)
    ensures var t := RoundRobin(s, net);
            t.statistics.inboundInflight >= 35 || (t.cache == [] && t.retryQueue == [])
    decreases Budget(s), Unmarked(s.empties), Distance(s.current, s.empties)
  {
    hide Turn, Steady, Honest, Roomy;
    RoundOnce(s, net);
    if s.statistics.inboundInflight < MAX_INBOUND_INFLIGHT {
      var r := Turn(s, net);
      TurnKeeps(s, net);
      match s.current {
        case DiscoveredSpot => DiscoveredTurn(s, net);
        case DisconnectedSpot => DisconnectedTurn(s, net);
        case FailedSpot => FailedTurn(s, net);
      }
      if AllEmpty(r.manager.empties) {
        HonestEnd(r.manager);
      } else {
        TurnProgress(s, net);
        WakeUpExhausts(r.manager, r.net);
      }
    }
  }

  lemma DisconnectedTurn(s: Manager, net: seq<ConnectOutcome>)
    requires Honest(s) && Roomy(s) && s.current == DisconnectedSpot
    ensures Honest(Turn(s, net).manager) && Roomy(Turn(s, net).manager)
  {
  }

  lemma HonestEnd(s: Manager)
    requires Honest(s) && AllEmpty(s.empties)
    ensures s.cache == [] && s.retryQueue == []
  {
  }
}
