/** Runs from the start that end where the manager fails its peers: inputs, not only conditions. */
module ManagerWitnesses {
  import opened Common
  import opened SlotPool
  import opened ManagerModel
  import opened ManagerInvariant
  import opened ManagerCallbacks
  import opened ManagerAccepting
  import opened ManagerBounds
  import opened ManagerDescriptors
  import opened ManagerRuns
  import opened ManagerWakeUps
  import Handshake
  import OverwritableCache

  /** The slot that is taken first. */
  const FIRST: nat := 199

  const MARKED := Empties(true, true, true)

  const TICKET := Ticket(FIRST, 0)

  // One event at a time.

  lemma {:induction false} RunExtends(s: Manager, events: seq<Event>, e: Event)
    requires Run(s, events, true) && Enabled(Exec(s, events, true), e) && Covered(Exec(s, events, true), e)
    ensures Run(s, events + [e], true)
    ensures Exec(s, events + [e], true) == Step(Exec(s, events, true), e)
    decreases |events|
  {
    hide Enabled, Covered, Step;
    var all := events + [e];
    if events == [] {
      assert all[1..] == [];
    } else {
      assert all[0] == events[0] && all[1..] == events[1..] + [e];
      RunExtends(Step(s, events[0]), events[1..], e);
    }
  }

  /** A covered run that ends in `s`. */
  ghost predicate Leads(start: Manager, events: seq<Event>, s: Manager) {
    Run(start, events, true) && Exec(start, events, true) == s
  }

  lemma Continue(start: Manager, events: seq<Event>, s: Manager, e: Event)
    requires Leads(start, events, s) && Enabled(s, e) && Covered(s, e)
    ensures Leads(start, events + [e], Step(s, e))
  {
    hide Run, Exec, Enabled, Covered, Step;
    RunExtends(start, events, e);
  }

  // A manager with one tracker peer, in the first slot.

  function Waits(c: Contact, failures: nat): Peer {
    BLANK.(store := Some(c.endpoint), contact := c, state := Failed, source := Tracker, failures := failures,
           timer := Some(RETRY_TIMEOUT * failures))
  }

  function Queues(c: Contact, failures: nat): Peer {
    BLANK.(store := Some(c.endpoint), contact := c, state := Transport, source := Tracker, failures := failures)
  }

  function Tries(c: Contact, failures: nat, descriptor: nat): Peer {
    Arm(Queues(c, failures), Writing).(socket := Some(descriptor))
  }

  /** Nothing but the peer `p` in the first slot; the cache is empty. */
  ghost predicate Lone(s: Manager, p: Peer, queue: seq<Ticket>, inflight: nat) {
    && Sized(s) && !s.crashed
    && s.pool.slots == NewPool(POOL_SIZE, BLANK).slots[FIRST := Slot(p, 0)] && s.pool.available != []
    && s.peers == map[p.contact.endpoint := FIRST] && s.cache == [] && s.retryQueue == queue
    && s.statistics.inboundInflight == inflight && s.statistics.outboundInflight == 0 && s.statistics.connected == 0
  }

  lemma LonePeer(s: Manager, p: Peer, queue: seq<Ticket>, inflight: nat)
    requires Lone(s, p, queue, inflight)
    ensures |s.pool.slots| == POOL_SIZE && PeerAt(s, FIRST) == p && GenerationAt(s, FIRST) == 0
    ensures forall i :: 0 <= i < POOL_SIZE && i != FIRST ==> PeerAt(s, i) == BLANK
  {
  }

  // Timers.

  lemma TimerFails(s: Manager, c: Contact, failures: nat, descriptor: nat, queue: seq<Ticket>)
    requires Lone(s, Tries(c, failures, descriptor), queue, 1) && failures + 1 < MAX_RETRIES
    ensures Enabled(s, TimerExpired(FIRST))
    ensures var t := Step(s, TimerExpired(FIRST));
            Lone(t, Waits(c, failures + 1), queue, 0) && t.current == s.current && t.empties == s.empties
  {
    var t := TimerCallback(s, FIRST);
    assert t.pool.slots == s.pool.slots[FIRST := Slot(Waits(c, failures + 1), 0)];
  }

  lemma TimerQueues(s: Manager, c: Contact, failures: nat)
    requires Lone(s, Waits(c, failures), [], 0)
    ensures Enabled(s, TimerExpired(FIRST))
    ensures var t := Step(s, TimerExpired(FIRST));
            Lone(t, Queues(c, failures), [TICKET], 0) && t.current == s.current && t.empties == s.empties
  {
    var t := TimerCallback(s, FIRST);
    assert t.pool.slots == s.pool.slots[FIRST := Slot(Queues(c, failures), 0)];
  }

  // Wake-ups.

  /** A turn that finds its source empty. */
  lemma EmptyTurn(s: Manager, net: seq<ConnectOutcome>)
    requires s.current == DiscoveredSpot ==> s.cache == []
    requires s.current == FailedSpot ==> s.retryQueue == []
    ensures Turn(s, net) == Scheduled(
      match s.current
      case DiscoveredSpot => s.(empties := s.empties.(discovered := true), current := DisconnectedSpot)
      case DisconnectedSpot => s.(empties := s.empties.(disconnected := true), current := FailedSpot)
      case FailedSpot => s.(empties := s.empties.(failed := true), current := DiscoveredSpot), net, false)
  {
  }

  /** With every flag left set, a wake-up ends at its first empty source. */
  lemma WakeStops(s: Manager, net: seq<ConnectOutcome>)
    requires s.statistics.inboundInflight < MAX_INBOUND_INFLIGHT && s.empties == MARKED
    requires s.current == DisconnectedSpot || (s.current == DiscoveredSpot && s.cache == [])
    ensures Schedule(s, net) == s.(notified := false,
      current := if s.current == DiscoveredSpot then DisconnectedSpot else FailedSpot)
  {
    hide Turn, RoundRobin;
    RoundOnce(s.(notified := false), net);
    EmptyTurn(s.(notified := false), net);
  }

  /** After a source found something, a whole round over empty sources, and back to that source. */
  lemma QuietRound(s: Manager, net: seq<ConnectOutcome>)
    requires s.statistics.inboundInflight < MAX_INBOUND_INFLIGHT && s.cache == [] && s.retryQueue == []
    requires s.current == DisconnectedSpot || s.current == DiscoveredSpot
    requires if s.current == DisconnectedSpot then !s.empties.discovered else !s.empties.failed
    ensures RoundRobin(s, net) == s.(empties := MARKED)
  {
    hide Turn, RoundRobin;
    RoundOnce(s, net);
    EmptyTurn(s, net);
    var s1 := Turn(s, net).manager;
    RoundOnce(s1, net);
    EmptyTurn(s1, net);
    var s2 := Turn(s1, net).manager;
    RoundOnce(s2, net);
    EmptyTurn(s2, net);
  }

  /** The queued retry is served. */
  lemma WakeRetries(s: Manager, c: Contact, failures: nat)
    requires Lone(s, Queues(c, failures), [TICKET], 0) && s.current == FailedSpot && s.empties == MARKED
    ensures var t := Schedule(s, [InProgress]);
            && Lone(t, Tries(c, failures, s.nextDescriptor), [], 1)
            && t.current == DiscoveredSpot && t.empties == MARKED
  {
    var u := s.(notified := false);
    RetryTurn(u, c, failures);
    hide Turn, RoundRobin, Lone;
    RoundOnce(u, [InProgress]);
    var r := Turn(u, [InProgress]);
    LoneQueues(r.manager, Tries(c, failures, s.nextDescriptor), [], 1);
    QuietRound(r.manager, r.net);
    LoneIgnoresFlags(r.manager, RoundRobin(r.manager, r.net), Tries(c, failures, s.nextDescriptor), [], 1);
  }

  lemma LoneQueues(s: Manager, p: Peer, queue: seq<Ticket>, inflight: nat)
    requires Lone(s, p, queue, inflight)
    ensures s.cache == [] && s.retryQueue == queue && s.statistics.inboundInflight == inflight
  {
  }

  lemma LoneIgnoresFlags(s: Manager, t: Manager, p: Peer, queue: seq<Ticket>, inflight: nat)
    requires Lone(s, p, queue, inflight)
    requires t == s.(empties := t.empties, current := t.current, notified := t.notified)
    ensures Lone(t, p, queue, inflight)
  {
  }

  lemma RetryTurn(s: Manager, c: Contact, failures: nat)
    requires Lone(s, Queues(c, failures), [TICKET], 0) && s.current == FailedSpot && s.empties == MARKED
    ensures var r := Turn(s, [InProgress]);
            && r.net == [] && Lone(r.manager, Tries(c, failures, s.nextDescriptor), [], 1)
            && r.manager.current == DiscoveredSpot && r.manager.empties == MARKED.(failed := false)
  {
    var t := TryFailed(s, InProgress);
    assert t.pool.slots == s.pool.slots[FIRST := Slot(Tries(c, failures, s.nextDescriptor), 0)];
    assert FailedScheduler(s, [InProgress]) == Scheduled(t, [], true);
  }

  // The first contact.

  /** A peer whose `connect` succeeded at once. */
  function Hurried(c: Contact, descriptor: nat): Peer {
    Tries(c, 0, descriptor).(state := Handshaking, atOnce := true)
  }

  function FirstPeer(c: Contact, o: ConnectOutcome): Peer {
    if o.Connects? then Hurried(c, 0) else Tries(c, 0, 0)
  }

  /** The start, once one contact was discovered. */
  function Discovered(handshake: seq<byte>, infoHash: seq<byte>, c: Contact): Manager {
    Drain(Initial(handshake, infoHash), [c])
  }

  lemma DiscoveredForm(handshake: seq<byte>, infoHash: seq<byte>, c: Contact)
    ensures Discovered(handshake, infoHash, c)
         == Initial(handshake, infoHash).(cache := [c], notified := true, statistics := Statistics(0, 0, 0, 0, 0, 1))
  {
    var s := Initial(handshake, infoHash).(cache := [c], statistics := Statistics(0, 0, 0, 0, 0, 1));
    assert OverwritableCache.Pushed([], c, CACHE_SIZE) == [c];
    assert Drain(s, []) == s.(notified := true);
    assert [c][1..] == [];
  }

  lemma FirstTurn(s: Manager, handshake: seq<byte>, infoHash: seq<byte>, c: Contact, o: ConnectOutcome)
    requires |handshake| == Handshake.LENGTH && |infoHash| == 20 && (o == InProgress || o == Connects)
    requires s == Initial(handshake, infoHash).(cache := [c], statistics := Statistics(0, 0, 0, 0, 0, 1))
    ensures var r := Turn(s, [o]);
            && r.net == [] && Lone(r.manager, FirstPeer(c, o), [], 1)
            && r.manager.current == DisconnectedSpot && r.manager.empties == Empties(false, false, false)
  {
    assert NextSlot(s.pool) == FIRST;
    var t := TryDiscovered(s, o);
    assert t.pool.slots == s.pool.slots[FIRST := Slot(FirstPeer(c, o), 0)];
    assert DrainCache(s, [o]) == Scheduled(t, [], true);
  }

  lemma FirstWake(handshake: seq<byte>, infoHash: seq<byte>, c: Contact, o: ConnectOutcome)
    requires |handshake| == Handshake.LENGTH && |infoHash| == 20 && (o == InProgress || o == Connects)
    ensures var t := Schedule(Discovered(handshake, infoHash, c), [o]);
            Lone(t, FirstPeer(c, o), [], 1) && t.current == DisconnectedSpot && t.empties == MARKED
  {
    DiscoveredForm(handshake, infoHash, c);
    hide Turn, RoundRobin, Lone, Discovered, FirstPeer;
    var s := Discovered(handshake, infoHash, c).(notified := false);
    FirstTurn(s, handshake, infoHash, c, o);
    RoundOnce(s, [o]);
    var r := Turn(s, [o]);
    LoneQueues(r.manager, FirstPeer(c, o), [], 1);
    QuietRound(r.manager, r.net);
    LoneIgnoresFlags(r.manager, RoundRobin(r.manager, r.net), FirstPeer(c, o), [], 1);
  }

  /** A covered run to the first attempt under way. */
  lemma FirstAttempt(handshake: seq<byte>, infoHash: seq<byte>, c: Contact, o: ConnectOutcome)
    returns (events: seq<Event>, s: Manager)
    requires |handshake| == Handshake.LENGTH && |infoHash| == 20 && (o == InProgress || o == Connects)
    ensures Leads(Initial(handshake, infoHash), events, s)
    ensures Lone(s, FirstPeer(c, o), [], 1) && s.current == DisconnectedSpot && s.empties == MARKED
  {
    var start := Initial(handshake, infoHash);
    events := [ContactsDiscovered([c]), SchedulerWoken([o])];
    Continue(start, [], start, events[0]);
    DiscoveredForm(handshake, infoHash, c);
    FirstWake(handshake, infoHash, c, o);
    hide Lone, FirstPeer, Schedule, Drain;
    s := Schedule(Discovered(handshake, infoHash, c), [o]);
    assert [] + [events[0]] == [events[0]] && [events[0]] + [events[1]] == events;
    Continue(start, [events[0]], Discovered(handshake, infoHash, c), events[1]);
  }

  // A retry that is never served.

  /**
   * One contact that times out twice. Its retry is queued, the wake-up that this asked for is over, and nothing is
   * left that would ask for another.
   */
  lemma RetryLeftWaiting(handshake: seq<byte>, infoHash: seq<byte>, c: Contact) returns (events: seq<Event>)
    requires |handshake| == Handshake.LENGTH && |infoHash| == 20
    ensures Run(Initial(handshake, infoHash), events, true)
    ensures var s := Exec(Initial(handshake, infoHash), events, true);
            && s.retryQueue == [TICKET] && |s.pool.slots| == POOL_SIZE
            && GenerationAt(s, FIRST) == 0 && PeerAt(s, FIRST) == Queues(c, 2)
            && s.statistics.inboundInflight == 0 && s.cache == [] && !s.notified
            && (forall i :: 0 <= i < POOL_SIZE ==> PeerAt(s, i).timer == None && PeerAt(s, i).interest == Stopped)
            && (forall e :: Enabled(s, e) ==> !e.TimerExpired? && !e.SocketReady?)
  {
    var start := Initial(handshake, infoHash);
    var s;
    hide Lone, Schedule, TimerCallback;
    events, s := FirstAttempt(handshake, infoHash, c, InProgress);
    events, s := FailAndQueue(start, events, s, c, 0, 0);
    WakeRetries(s, c, 1);
    LoneSized(s, Queues(c, 1), [TICKET], 0);
    Continue(start, events, s, SchedulerWoken([InProgress]));
    events := events + [SchedulerWoken([InProgress])];
    var descriptor := s.nextDescriptor;
    s := Schedule(s, [InProgress]);
    events, s := FailAndQueue(start, events, s, c, 1, descriptor);
    events, s := Stop(start, events, s, Queues(c, 2), [TICKET]);
    LonePeer(s, Queues(c, 2), [TICKET], 0);
    LoneQueues(s, Queues(c, 2), [TICKET], 0);
  }

  lemma LoneSized(s: Manager, p: Peer, queue: seq<Ticket>, inflight: nat)
    requires Lone(s, p, queue, inflight)
    ensures !s.crashed && Sized(s) && s.statistics.inboundInflight == inflight
  {
  }

  /** A wake-up that ends at once. */
  lemma Stop(start: Manager, events: seq<Event>, s: Manager, p: Peer, queue: seq<Ticket>)
    returns (events': seq<Event>, t: Manager)
    requires Leads(start, events, s) && Lone(s, p, queue, 0) && s.empties == MARKED && s.current != FailedSpot
    ensures Leads(start, events', t) && Lone(t, p, queue, 0) && t.empties == MARKED && !t.notified
    ensures t.current == if s.current == DiscoveredSpot then DisconnectedSpot else FailedSpot
  {
    LoneSized(s, p, queue, 0);
    LoneQueues(s, p, queue, 0);
    WakeStops(s, []);
    t := Schedule(s, []);
    LoneIgnoresFlags(s, t, p, queue, 0);
    hide Schedule, Lone;
    Continue(start, events, s, SchedulerWoken([]));
    events' := events + [SchedulerWoken([])];
  }

  /** An attempt times out, a wake-up ends at once, and the delay passes. */
  lemma FailAndQueue(start: Manager, events: seq<Event>, s: Manager, c: Contact, failures: nat, descriptor: nat)
    returns (events': seq<Event>, t: Manager)
    requires Leads(start, events, s) && Lone(s, Tries(c, failures, descriptor), [], 1) && failures + 1 < MAX_RETRIES
    requires s.empties == MARKED && s.current != FailedSpot
    ensures Leads(start, events', t) && Lone(t, Queues(c, failures + 1), [TICKET], 0) && t.empties == MARKED
    ensures t.current == if s.current == DiscoveredSpot then DisconnectedSpot else FailedSpot
  {
    hide Lone, TimerCallback;
    TimerFails(s, c, failures, descriptor, []);
    Continue(start, events, s, TimerExpired(FIRST));
    events', t := Stop(start, events + [TimerExpired(FIRST)], Step(s, TimerExpired(FIRST)), Waits(c, failures + 1), []);
    TimerQueues(t, c, failures + 1);
    Continue(start, events', t, TimerExpired(FIRST));
    events', t := events' + [TimerExpired(FIRST)], Step(t, TimerExpired(FIRST));
  }

  // Peers that connect.

  /** The whole of the other side's handshake arrives, and the socket takes the whole of ours. */
  function WholeIo(infoHash: seq<byte>, id: seq<byte>): Io
    requires |infoHash| == 20 && |id| == 20
  {
    Io(0, Sent(Handshake.LENGTH), Arrived(Handshake.Compute(infoHash, id)))
  }

  function Hears(infoHash: seq<byte>, id: seq<byte>): Event
    requires |infoHash| == 20 && |id| == 20
  {
    SocketReady(FIRST, false, false, true, WholeIo(infoHash, id))
  }

  /** The peer dispatched, as far as registry, pool and counters care. */
  ghost predicate Joined(s: Manager, t: Manager, i: nat)
    requires HasSlot(s, i)
  {
    && t.peers == s.peers && t.pool.available == s.pool.available && |t.pool.slots| == |s.pool.slots|
    && t.statistics.connected == Inc(s.statistics.connected)
    && t.statistics.outboundInflight ==
       (if PeerAt(s, i).source == TcpServer then Dec(s.statistics.outboundInflight) else s.statistics.outboundInflight)
    && var p, q := PeerAt(s, i), PeerAt(t, i);
    && q.state == Connected && q.source == p.source && q.atOnce == p.atOnce && q.cursor == p.cursor && q.send == p.send
  }

  lemma DispatchJoins(s: Manager, i: nat)
    requires HasSlot(s, i)
    ensures Joined(s, Dispatch(s, i), i)
  {
  }

  lemma WholeIsValid(p: Peer, infoHash: seq<byte>, id: seq<byte>)
    requires |infoHash| == 20 && |id| == 20 && p.recv == []
    ensures var o := WholeIo(infoHash, id).recv;
            && p.recv + Taken(p.recv, o) == Handshake.Compute(infoHash, id) && !RecvBroken(p.recv, o)
            && Handshake.Decoded(p.recv + Taken(p.recv, o), infoHash, p.contact.peerId)
            == Handshake.DecodeResult(true, true, Some(id))
  {
    Handshake.ComputedIsValid(infoHash, id);
    hide Handshake.Compute;
    var m := Handshake.Compute(infoHash, id);
    assert m[..Handshake.LENGTH] == m && [] + m == m;
  }

  /** An accepted peer is answered and dispatched, a tracker's peer only dispatched. */
  lemma HearsForm(s: Manager, id: seq<byte>)
    requires HasSlot(s, FIRST) && !s.crashed && Sized(s) && !MetQuota(s) && |id| == 20
    requires Shape(PeerAt(s, FIRST)) && InFlight(PeerAt(s, FIRST))
    requires PeerAt(s, FIRST).state == Handshaking && PeerAt(s, FIRST).interest == Reading
    requires PeerAt(s, FIRST).recv == []
    ensures var p := PeerAt(s, FIRST); var io := WholeIo(s.infoHash, id);
            var h := WithPeer(s, FIRST, Heard(p, s.infoHash, io.recv));
            SocketCallback(s, FIRST, false, false, true, io) ==
              if p.source == Tracker then Dispatch(h, FIRST) else Respond(h, FIRST, io.send)
  {
    hide Shape, SocketCallback, ReceiveHandshake, Heard, Dispatch, Respond, HardDelete, HandleFailure,
         TransportInitiation, WithPeer, WholeIo;
    var io := WholeIo(s.infoHash, id);
    SocketForm(s, FIRST, false, false, true, io);
    ReceiveHandshakeForm(s, FIRST, io);
    WholeIsValid(PeerAt(s, FIRST), s.infoHash, id);
  }

  // An accept that crashes.

  lemma GuestArrives(handshake: seq<byte>, infoHash: seq<byte>, from: Endpoint)
    requires |handshake| == Handshake.LENGTH && |infoHash| == 20
    ensures var s := Initial(handshake, infoHash); var t := AcceptOne(s, Accepted(from));
            && Covered(s, ServerReadable([Accepted(from)])) && ServerCallback(s, [Accepted(from)]) == t
            && t.pool.slots == s.pool.slots[FIRST := Slot(Guest(from, 0), 0)] && t.pool.available != []
            && t.peers == map[from := FIRST] && !t.crashed && Sized(t) && t.infoHash == infoHash
            && t.statistics == Statistics(0, 0, 1, 0, 0, 0)
  {
    var s := Initial(handshake, infoHash);
    AcceptNewForm(s, from);
    hide AcceptOne, Guest;
    var t := AcceptOne(s, Accepted(from));
    assert [Accepted(from)][1..] == [];
    assert ServerCallback(t, []) == t && AllMeetInFlight(t, []);
    assert |CoreOf(t).pool.available| == POOL_SIZE - 1;
    assert CoreOf(t).peers == map[from := FIRST];
  }

  /** The answer to a guest's handshake, sent whole. */
  lemma GuestJoins(s: Manager, from: Endpoint, id: seq<byte>)
    requires HasSlot(s, FIRST) && PeerAt(s, FIRST) == Guest(from, 0) && !s.crashed && Sized(s) && !MetQuota(s)
    requires |id| == 20
    ensures var t := SocketCallback(s, FIRST, false, false, true, WholeIo(s.infoHash, id));
            && t.peers == s.peers && t.pool.available == s.pool.available && |t.pool.slots| == |s.pool.slots|
            && t.statistics.connected == Inc(s.statistics.connected)
            && t.statistics.outboundInflight == Dec(s.statistics.outboundInflight)
            && PeerAt(t, FIRST).state == Connected && PeerAt(t, FIRST).source == TcpServer
  {
    GuestShape(from, 0);
    HearsForm(s, id);
    var io := WholeIo(s.infoHash, id);
    var h := WithPeer(s, FIRST, Heard(PeerAt(s, FIRST), s.infoHash, io.recv));
    hide Dispatch, SocketCallback, HandleFailure, Respond;
    RespondForm(h, FIRST, io.send);
    var g := WithPeer(h, FIRST, Greeted(PeerAt(h, FIRST), s.handshake, io.send));
    assert AfterSend(s.handshake, io.send) == [];
    DispatchJoins(g, FIRST);
  }

  /**
   * An endpoint connects, finishes its handshake and connects again: the second accept fails teardown's assertion.
   */
  lemma ReconnectCrashes(handshake: seq<byte>, infoHash: seq<byte>, from: Endpoint, id: seq<byte>)
    returns (events: seq<Event>)
    requires |handshake| == Handshake.LENGTH && |infoHash| == 20 && |id| == 20
    ensures events == [ServerReadable([Accepted(from)]), Hears(infoHash, id)]
    ensures Run(Initial(handshake, infoHash), events, true)
    ensures var s := Exec(Initial(handshake, infoHash), events, true); var e := ServerReadable([Accepted(from)]);
            Enabled(s, e) && RegisteredAs(s, from) == Live && Step(s, e).crashed
  {
    var start, e := Initial(handshake, infoHash), ServerReadable([Accepted(from)]);
    events := [e, Hears(infoHash, id)];
    assert [] + [e] == [e] && [e] + [Hears(infoHash, id)] == events;
    hide Steady, Exact, SocketCallback, Guest, AcceptOne, ServerCallback, Run, Exec;
    GuestArrives(handshake, infoHash, from);
    Continue(start, [], start, e);
    var s1 := AcceptOne(start, Accepted(from));
    GuestFires(from);
    GuestJoins(s1, from, id);
    Continue(start, [e], s1, Hears(infoHash, id));
    InitialExact(handshake, infoHash);
    CoveredRunKeeps(start, events);
    AgainCrashes(Step(s1, Hears(infoHash, id)), from);
  }

  lemma AgainCrashes(s: Manager, from: Endpoint)
    requires Steady(s) && s.pool.available != [] && from in s.peers && RegisteredAs(s, from) == Live
    requires !MetQuota(s) && s.statistics.outboundInflight < MAX_OUTBOUND_INFLIGHT
    ensures Enabled(s, ServerReadable([Accepted(from)])) && Step(s, ServerReadable([Accepted(from)])).crashed
  {
    SteadySize(s);
    hide Steady, AcceptOne, ServerCallback;
    AcceptConnectedCrashes(s, from);
    OneAccept(s, from);
  }

  lemma GuestFires(from: Endpoint)
    ensures Fires(Guest(from, 0), false, false, true)
  {
  }

  lemma OneAccept(s: Manager, from: Endpoint)
    requires !MetQuota(s) && s.statistics.outboundInflight < MAX_OUTBOUND_INFLIGHT
    ensures ServerCallback(s, [Accepted(from)]) == AcceptOne(s, Accepted(from))
  {
    hide AcceptOne;
    assert [Accepted(from)][1..] == [];
  }

  // Accepts that miscount.

  /** What an accept from `from` does after the run: no assertion fails, and a counter goes below zero. */
  ghost predicate Underflows(s: Manager, from: Endpoint) {
    var e := ServerReadable([Accepted(from)]);
    Enabled(s, e) && Safe(s, e) &&
    var t := Step(s, e);
    !t.crashed && !Counted(t) && !Bounded(t) && t.statistics.inboundInflight == COUNTER_MAX
  }

  lemma IdleUnderflows(start: Manager, events: seq<Event>, s: Manager, p: Peer, queue: seq<Ticket>)
    requires Steady(start) && Exact(start) && Leads(start, events, s) && Lone(s, p, queue, 0)
    requires CategoryOf(p) == Waiting || CategoryOf(p) == Retrying
    ensures RegisteredAs(s, p.contact.endpoint) == CategoryOf(p) && Underflows(s, p.contact.endpoint)
  {
    var from := p.contact.endpoint;
    var e := ServerReadable([Accepted(from)]);
    hide Steady, Run, Exec, Counted, Owned, AcceptOne, CategoryOf;
    CoveredRunKeeps(start, events);
    LonePeer(s, p, queue, 0);
    OneAccept(s, from);
    AcceptIdleMiscounts(s, from);
    AcceptIdleBound(s, from);
    assert [Accepted(from)][1..] == [];
    assert AllMissConnected(AcceptOne(s, Accepted(from)), []);
    StepKeeps(s, e);
    SteadySize(Step(s, e));
  }

  /** The tracker's contact connects to us while its own retry delay runs. */
  lemma ConnectsWhileDelayed(handshake: seq<byte>, infoHash: seq<byte>, c: Contact) returns (events: seq<Event>)
    requires |handshake| == Handshake.LENGTH && |infoHash| == 20
    ensures Run(Initial(handshake, infoHash), events, true)
    ensures var s := Exec(Initial(handshake, infoHash), events, true);
            RegisteredAs(s, c.endpoint) == Waiting && Underflows(s, c.endpoint)
  {
    hide Lone, Steady, Exact, TimerCallback, Underflows, RegisteredAs, Initial, Enabled, Run, Exec;
    var start := Initial(handshake, infoHash);
    InitialExact(handshake, infoHash);
    var s;
    events, s := FirstAttempt(handshake, infoHash, c, InProgress);
    TimerFails(s, c, 0, 0, []);
    Continue(start, events, s, TimerExpired(FIRST));
    events := events + [TimerExpired(FIRST)];
    IdleUnderflows(start, events, Step(s, TimerExpired(FIRST)), Waits(c, 1), []);
  }

  /** It connects to us while its retry is queued. */
  lemma ConnectsWhileQueued(handshake: seq<byte>, infoHash: seq<byte>, c: Contact) returns (events: seq<Event>)
    requires |handshake| == Handshake.LENGTH && |infoHash| == 20
    ensures Run(Initial(handshake, infoHash), events, true)
    ensures var s := Exec(Initial(handshake, infoHash), events, true);
            RegisteredAs(s, c.endpoint) == Retrying && Underflows(s, c.endpoint)
  {
    hide Lone, Steady, Exact, TimerCallback, Underflows, RegisteredAs, Initial, Enabled, Run, Exec;
    var start := Initial(handshake, infoHash);
    InitialExact(handshake, infoHash);
    var s;
    events, s := FirstAttempt(handshake, infoHash, c, InProgress);
    events, s := FailAndQueue(start, events, s, c, 0, 0);
    IdleUnderflows(start, events, s, Queues(c, 1), [TICKET]);
  }

  // A handshake that is never sent.

  const WRITABLE := SocketReady(FIRST, false, true, false, Io(0, Sent(0), RecvAgain))

  lemma HurriedReads(s: Manager, c: Contact)
    requires Lone(s, Hurried(c, 0), [], 1)
    ensures Enabled(s, WRITABLE) && Lone(Step(s, WRITABLE), Hurried(c, 0).(interest := Reading), [], 1)
  {
    SocketForm(s, FIRST, false, true, false, WRITABLE.io);
    var t, p := FinishSend(s, FIRST, Sent(0)), Hurried(c, 0);
    assert p.taken + Swallowed(p.send, Sent(0)) == p.taken;
    assert t.pool.slots == s.pool.slots[FIRST := Slot(Hurried(c, 0).(interest := Reading), 0)];
  }

  lemma HurriedJoins(s: Manager, c: Contact, id: seq<byte>)
    requires Lone(s, Hurried(c, 0).(interest := Reading), [], 1) && |id| == 20
    ensures Enabled(s, Hears(s.infoHash, id))
    ensures var t := Step(s, Hears(s.infoHash, id));
            && HasSlot(t, FIRST) && PeerAt(t, FIRST).state == Connected && PeerAt(t, FIRST).source == Tracker
            && PeerAt(t, FIRST).atOnce && PeerAt(t, FIRST).cursor == 0
  {
    HearsForm(s, id);
    var io := WholeIo(s.infoHash, id);
    var h := WithPeer(s, FIRST, Heard(PeerAt(s, FIRST), s.infoHash, io.recv));
    hide Dispatch, SocketCallback, HandleFailure, Respond;
    DispatchJoins(h, FIRST);
  }

  /** A `connect` that succeeds at once ends in a dispatched peer that was sent nothing at all. */
  lemma DispatchedUngreeted(handshake: seq<byte>, infoHash: seq<byte>, c: Contact, id: seq<byte>)
    returns (events: seq<Event>)
    requires |handshake| == Handshake.LENGTH && |infoHash| == 20 && |id| == 20
    ensures Run(Initial(handshake, infoHash), events, true)
    ensures var s := Exec(Initial(handshake, infoHash), events, true);
            && HasSlot(s, FIRST) && PeerAt(s, FIRST).state == Connected && PeerAt(s, FIRST).source == Tracker
            && PeerAt(s, FIRST).atOnce && PeerAt(s, FIRST).cursor == 0
  {
    var start := Initial(handshake, infoHash);
    var s;
    hide Lone, Step;
    events, s := FirstAttempt(handshake, infoHash, c, Connects);
    HurriedReads(s, c);
    Continue(start, events, s, WRITABLE);
    events, s := events + [WRITABLE], Step(s, WRITABLE);
    LoneSized(s, Hurried(c, 0).(interest := Reading), [], 1);
    HurriedJoins(s, c, id);
    Continue(start, events, s, Hears(s.infoHash, id));
    events := events + [Hears(s.infoHash, id)];
  }
}
