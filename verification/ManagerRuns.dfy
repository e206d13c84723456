/** Whole runs of the peer connection manager: any callbacks, in any order, with any answers of the kernel. */
module ManagerRuns {
  import opened Common
  import opened SlotPool
  import opened ManagerModel
  import opened ManagerInvariant
  import opened ManagerCallbacks
  import opened ManagerScheduling
  import opened ManagerAccepting
  import opened ManagerBounds
  import opened ManagerDescriptors
  import Handshake

  /** One invocation of a callback by the event loop. */
  datatype Event =
    | ContactsDiscovered(contacts: seq<Contact>)
    | SchedulerWoken(net: seq<ConnectOutcome>)
    | ServerReadable(incoming: seq<AcceptOutcome>)
    | TimerExpired(slot: nat)
    | SocketReady(slot: nat, broken: bool, writable: bool, readable: bool, io: Io)
    | DisconnectNotified

  /** A timer callback needs a running timer, a socket callback a started watcher; a crashed manager does nothing. */
  ghost predicate Enabled(s: Manager, e: Event) {
    && !s.crashed && Sized(s)
    && match e
       case TimerExpired(i) => i < POOL_SIZE && HasSlot(s, i) && PeerAt(s, i).timer.Some?
       case SocketReady(i, broken, writable, readable, _) =>
         i < POOL_SIZE && HasSlot(s, i) && Fires(PeerAt(s, i), broken, writable, readable)
       case _ => true
  }

  function Step(s: Manager, e: Event): Manager
    requires Enabled(s, e)
  {
    match e
    case ContactsDiscovered(contacts) => Drain(s, contacts)
    case SchedulerWoken(net) => Schedule(s, net)
    case ServerReadable(incoming) => ServerCallback(s, incoming)
    case TimerExpired(i) => TimerCallback(s, i)
    case SocketReady(i, broken, writable, readable, io) => SocketCallback(s, i, broken, writable, readable, io)
    case DisconnectNotified => Notify(s)
  }

  // Which accepted connections a run may see.

  /** Every connection one server callback accepts meets no registered endpoint, or one in flight. */
  predicate AllMeetInFlight(s: Manager, incoming: seq<AcceptOutcome>)
    decreases |incoming|
  {
    incoming == [] || MetQuota(s) || s.statistics.outboundInflight >= MAX_OUTBOUND_INFLIGHT ||
    (MeetsInFlight(s, incoming[0]) &&
     (MorePending(s, incoming[0]) ==> AllMeetInFlight(AcceptOne(s, incoming[0]), incoming[1..])))
  }

  predicate AllMissConnected(s: Manager, incoming: seq<AcceptOutcome>)
    decreases |incoming|
  {
    incoming == [] || MetQuota(s) || s.statistics.outboundInflight >= MAX_OUTBOUND_INFLIGHT ||
    (MissesConnected(s, incoming[0]) &&
     (MorePending(s, incoming[0]) ==> AllMissConnected(AcceptOne(s, incoming[0]), incoming[1..])))
  }

  predicate Covered(s: Manager, e: Event) {
    e.ServerReadable? ==> AllMeetInFlight(s, e.incoming)
  }

  predicate Safe(s: Manager, e: Event) {
    e.ServerReadable? ==> AllMissConnected(s, e.incoming)
  }

  // Runs. A covered run is also a safe one.

  ghost predicate Run(s: Manager, events: seq<Event>, covered: bool)
    decreases |events|
  {
    events == [] ||
    (Enabled(s, events[0]) && (if covered then Covered(s, events[0]) else Safe(s, events[0])) &&
     Run(Step(s, events[0]), events[1..], covered))
  }

  ghost function Exec(s: Manager, events: seq<Event>, covered: bool): Manager
    requires Run(s, events, covered)
    decreases |events|
  {
    if events == [] then s else Exec(Step(s, events[0]), events[1..], covered)
  }

  /** The counters, their limits and the descriptors. */
  ghost predicate Exact(s: Manager) { Counted(s) && Bounded(s) && Owned(s) }

  lemma InitialExact(handshake: seq<byte>, infoHash: seq<byte>)
    requires |handshake| == Handshake.LENGTH && |infoHash| == 20
    ensures Steady(Initial(handshake, infoHash)) && Exact(Initial(handshake, infoHash))
  {
    InitialIntact(handshake, infoHash);
    var s := Initial(handshake, infoHash);
    assert s.pool.slots == seq(POOL_SIZE, _ => Slot(BLANK, 0));
    CountBlank(POOL_SIZE, Live);
    CountBlank(POOL_SIZE, Inbound);
    CountBlank(POOL_SIZE, Outbound);
    CountBlank(POOL_SIZE, Waiting);
    CountBlank(POOL_SIZE, Retrying);
  }

  // Server callbacks.

  lemma AcceptStepExact(s: Manager, o: AcceptOutcome)
    requires Steady(s) && Exact(s) && MeetsInFlight(s, o) && s.statistics.outboundInflight < MAX_OUTBOUND_INFLIGHT
    ensures MissesConnected(s, o) && Exact(AcceptOne(s, o))
  {
    hide Steady, AcceptOne, Counted, Bounded, Owned;
    AcceptStep(s, o);
    AcceptStepCounts(s, o);
    AcceptBound(s, o);
    AcceptOwned(s, o);
  }

  lemma SteadySize(s: Manager)
    requires Steady(s)
    ensures |s.pool.slots| == POOL_SIZE && !s.crashed && Sized(s)
  {
  }

  lemma {:induction false} ServerCallbackKeeps(s: Manager, incoming: seq<AcceptOutcome>)
    requires Steady(s) && AllMissConnected(s, incoming)
    ensures Steady(ServerCallback(s, incoming))
    decreases |incoming|
  {
    hide Steady, AcceptOne, MissesConnected;
    if incoming != [] && !MetQuota(s) && s.statistics.outboundInflight < MAX_OUTBOUND_INFLIGHT {
      AcceptStep(s, incoming[0]);
      if MorePending(s, incoming[0]) { ServerCallbackKeeps(AcceptOne(s, incoming[0]), incoming[1..]); }
    }
  }

  lemma {:induction false} ServerCallbackExact(s: Manager, incoming: seq<AcceptOutcome>)
    requires Steady(s) && Exact(s) && AllMeetInFlight(s, incoming)
    ensures AllMissConnected(s, incoming) && Exact(ServerCallback(s, incoming))
    decreases |incoming|
  {
    hide Steady, Exact, AcceptOne, MissesConnected, MeetsInFlight;
    if incoming != [] && !MetQuota(s) && s.statistics.outboundInflight < MAX_OUTBOUND_INFLIGHT {
      AcceptStepExact(s, incoming[0]);
      AcceptStep(s, incoming[0]);
      if MorePending(s, incoming[0]) { ServerCallbackExact(AcceptOne(s, incoming[0]), incoming[1..]); }
    }
  }

  // One step.

  lemma NotifyKeeps(s: Manager)
    ensures Steady(s) ==> Steady(Notify(s))
    ensures Counted(s) ==> Counted(Notify(s))
    ensures Owned(s) ==> Owned(Notify(s))
  {
    assert CoreOf(Notify(s)) == CoreOf(s) && Sockets(Notify(s)) == Sockets(s);
    hide Intact;
  }

  lemma StepKeeps(s: Manager, e: Event)
    requires Steady(s) && Enabled(s, e) && Safe(s, e)
    ensures Steady(Step(s, e))
  {
    hide Steady, Drain, Schedule, ServerCallback, TimerCallback, SocketCallback;
    match e
    case ContactsDiscovered(contacts) => DrainKeeps(s, contacts);
    case SchedulerWoken(net) => ScheduleKeeps(s, net);
    case ServerReadable(incoming) => ServerCallbackKeeps(s, incoming);
    case TimerExpired(i) => TimerKeeps(s, i);
    case SocketReady(i, broken, writable, readable, io) => SocketKeeps(s, i, broken, writable, readable, io);
    case DisconnectNotified => NotifyKeeps(s);
  }

  lemma DrainExact(s: Manager, contacts: seq<Contact>)
    requires Steady(s) && Exact(s)
    ensures Exact(Drain(s, contacts))
  {
    hide Steady, Counted, Bounded, Owned, Drain, Winds, Holds;
    DrainKeeps(s, contacts);
    SteadySize(Drain(s, contacts));
    DrainWinds(s, contacts);
    WindsStaysBounded(s, Drain(s, contacts), false);
    DrainHolds(s, contacts);
    HoldsKeepsOwned(s, Drain(s, contacts));
  }

  lemma ScheduleExact(s: Manager, net: seq<ConnectOutcome>)
    requires Steady(s) && Exact(s)
    ensures Exact(Schedule(s, net))
  {
    ScheduleKeeps(s, net);
    ScheduleOwned(s, net);
    assert Bounded(s.(notified := false));
    RoundRobinBound(s.(notified := false), net);
    hide Steady, Counted, Bounded, Owned, RoundRobin;
  }

  lemma TimerExact(s: Manager, i: nat)
    requires Steady(s) && Exact(s) && i < POOL_SIZE && HasSlot(s, i) && PeerAt(s, i).timer.Some?
    ensures Exact(TimerCallback(s, i))
  {
    hide Steady, Counted, Bounded, Owned, TimerCallback, Winds, HoldsOrCloses;
    var t := TimerCallback(s, i);
    TimerKeeps(s, i);
    SteadySize(t);
    TimerWinds(s, i);
    WindsStaysBounded(s, t, false);
    TimerCloses(s, i);
    HoldsOrClosesKeepsOwned(s, t, i);
  }

  lemma SocketExact(s: Manager, i: nat, broken: bool, writable: bool, readable: bool, io: Io)
    requires Steady(s) && Exact(s) && i < POOL_SIZE && HasSlot(s, i) && Fires(PeerAt(s, i), broken, writable, readable)
    requires Sized(s)
    ensures Exact(SocketCallback(s, i, broken, writable, readable, io))
  {
    hide Steady, Counted, Bounded, Owned, SocketCallback, Winds, HoldsOrCloses, Shape;
    var t := SocketCallback(s, i, broken, writable, readable, io);
    SocketKeeps(s, i, broken, writable, readable, io);
    SteadySize(s);
    SteadySize(t);
    ShapeAt(s, i);
    SocketWinds(s, i, broken, writable, readable, io);
    WindsStaysBounded(s, t, !Winds(s, t, false));
    SocketCloses(s, i, broken, writable, readable, io);
    HoldsOrClosesKeepsOwned(s, t, i);
  }

  lemma NotifyExact(s: Manager)
    requires Exact(s)
    ensures Exact(Notify(s))
  {
    NotifyKeeps(s);
    hide Counted, Owned;
  }

  lemma StepExact(s: Manager, e: Event)
    requires Steady(s) && Exact(s) && Enabled(s, e) && Covered(s, e)
    ensures Safe(s, e) && Exact(Step(s, e))
  {
    hide Steady, Exact, Drain, Schedule, ServerCallback, TimerCallback, SocketCallback;
    match e
    case ContactsDiscovered(contacts) => DrainExact(s, contacts);
    case SchedulerWoken(net) => ScheduleExact(s, net);
    case ServerReadable(incoming) => ServerCallbackExact(s, incoming);
    case TimerExpired(i) => TimerExact(s, i);
    case SocketReady(i, broken, writable, readable, io) => SocketExact(s, i, broken, writable, readable, io);
    case DisconnectNotified => NotifyExact(s);
  }

  // Every reachable state.

  lemma {:induction false} SafeRunKeeps(s: Manager, events: seq<Event>)
    requires Steady(s) && Run(s, events, false)
    ensures Steady(Exec(s, events, false))
    decreases |events|
  {
    hide Steady, Step, Safe, Enabled;
    if events != [] {
      StepKeeps(s, events[0]);
      SafeRunKeeps(Step(s, events[0]), events[1..]);
    }
  }

  lemma {:induction false} CoveredRunKeeps(s: Manager, events: seq<Event>)
    requires Steady(s) && Exact(s) && Run(s, events, true)
    ensures Steady(Exec(s, events, true)) && Exact(Exec(s, events, true))
    decreases |events|
  {
    hide Steady, Exact, Step, Safe, Covered, Enabled;
    if events != [] {
      StepExact(s, events[0]);
      StepKeeps(s, events[0]);
      CoveredRunKeeps(Step(s, events[0]), events[1..]);
    }
  }
}
