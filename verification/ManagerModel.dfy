/**
 * What each callback of the peer connection manager does to the manager's state. System call results
 * are arguments. A failed assertion sets `crashed`. `log` only remembers what happened.
 */
module ManagerModel {
  import opened Common
  import opened SlotPool
  import Handshake
  import OverwritableCache

  const POOL_SIZE: nat := 200
  const CACHE_SIZE: nat := 200
  const HEALTHY_PEERS: nat := 50
  const MAX_INBOUND_INFLIGHT: nat := 35
  const MAX_OUTBOUND_INFLIGHT: nat := 15
  const MAX_RETRIES: nat := 3
  const CONNECT_TIMEOUT: nat := 10
  const RETRY_TIMEOUT: nat := 15
  const CONNECTS_CAPACITY: nat := 50

  /** An unsigned counter of 64 bits wraps around. */
  const COUNTER_MAX: nat := 0xFFFF_FFFF_FFFF_FFFF

  function Inc(n: nat): nat { if n == COUNTER_MAX then 0 else n + 1 }

  function Dec(n: nat): nat { if n == 0 then COUNTER_MAX else n - 1 }

  // Peers.

  datatype Endpoint = Endpoint(addr: seq<byte>, port: nat, isV6: bool)

  /** The peer id of a contact takes no part in its identity. */
  datatype Contact = Contact(endpoint: Endpoint, peerId: Option<seq<byte>>)

  datatype State = NoState | Transport | Handshaking | Connected | Disconnected | Failed

  datatype Source = NoSource | Tracker | TcpServer

  /** The socket watcher: stopped, or started for one direction. */
  datatype Interest = Stopped | Reading | Writing

  /**
   * `recv` and `send` are the contents of the two handshake rings; `timer` is the running timer's delay.
   * The last three fields only remember, and no callback reads them: whether the last `connect` succeeded at
   * once, and what the socket has taken from us and brought us of the handshakes since it was opened.
   */
  datatype Peer = Peer(
    socket: Option<nat>, store: Option<Endpoint>, recv: seq<byte>, send: seq<byte>,
    interest: Interest, timer: Option<nat>, contact: Contact,
    state: State, source: Source, cursor: nat, failures: nat,
    atOnce: bool, taken: seq<byte>, heard: seq<byte>)

  const NO_CONTACT := Contact(Endpoint([], 0, false), None)

  const BLANK := Peer(None, None, [], [], Stopped, None, NO_CONTACT, NoState, NoSource, 0, 0, false, [], [])

  // The manager.

  datatype Statistics = Statistics(
    connected: nat, inboundInflight: nat, outboundInflight: nat, failed: nat, inRetry: nat, inCache: nat)

  datatype Spot = DiscoveredSpot | DisconnectedSpot | FailedSpot

  datatype Empties = Empties(discovered: bool, disconnected: bool, failed: bool)

  datatype Ticket = Ticket(slot: nat, generation: nat)

  datatype ConnectUpdate = ConnectUpdate(slot: nat, socket: Option<nat>, generation: nat)

  datatype Happening =
    | Attempted(slot: nat, generation: nat)
    | Queued(slot: nat, generation: nat, contact: Endpoint)
    | Popped(slot: nat, generation: nat, passed: bool)
    | Released(slot: nat, generation: nat)

  /** Descriptors are numbered in the order the kernel hands them out; `open` holds those not yet closed. */
  datatype Manager = Manager(
    handshake: seq<byte>, infoHash: seq<byte>,
    pool: Pool<Peer>, peers: map<Endpoint, nat>, retryQueue: seq<Ticket>, cache: seq<Contact>,
    statistics: Statistics, current: Spot, empties: Empties, notified: bool,
    connects: seq<ConnectUpdate>, nextDescriptor: nat, open: set<nat>,
    log: seq<Happening>, crashed: bool)

  function Initial(handshake: seq<byte>, infoHash: seq<byte>): Manager {
    Manager(handshake, infoHash, NewPool(POOL_SIZE, BLANK), map[], [], [],
            Statistics(0, 0, 0, 0, 0, 0), DiscoveredSpot, Empties(false, false, false), false,
            [], 0, {}, [], false)
  }

  // Answers of the kernel.

  datatype ConnectOutcome = OpenFails | ConnectFails | InProgress | Connects

  datatype AcceptOutcome = WouldBlock | Interrupted | Aborted | AcceptFails | Accepted(from: Endpoint)

  datatype SendOutcome = Sent(bytes: nat) | SendAgain | SendFails

  datatype RecvOutcome = Arrived(data: seq<byte>) | RecvAgain | RecvFails

  /** What the system calls of one socket callback answer. */
  datatype Io = Io(socketError: int, send: SendOutcome, recv: RecvOutcome)

  // Elementary changes.

  predicate HasSlot(s: Manager, i: nat) { i < |s.pool.slots| }

  function PeerAt(s: Manager, i: nat): Peer
    requires HasSlot(s, i)
  {
    s.pool.slots[i].value
  }

  function GenerationAt(s: Manager, i: nat): nat
    requires HasSlot(s, i)
  {
    s.pool.slots[i].generation
  }

  function WithPeer(s: Manager, i: nat, p: Peer): Manager
    requires HasSlot(s, i)
  {
    s.(pool := SetValue(s.pool, i, p))
  }

  function Assert(s: Manager, holds: bool): Manager {
    s.(crashed := s.crashed || !holds)
  }

  function Log(s: Manager, h: Happening): Manager { s.(log := s.log + [h]) }

  function Notify(s: Manager): Manager { s.(notified := true) }

  function MetQuota(s: Manager): bool { s.statistics.connected >= HEALTHY_PEERS }

  /** The peer's watchers all stopped. */
  function StopWatchers(p: Peer): Peer { p.(interest := Stopped, timer := None) }

  function CloseSocket(s: Manager, i: nat): Manager
    requires HasSlot(s, i)
  {
    var p := PeerAt(s, i);
    var t := if p.socket.Some? then s.(open := s.open - {p.socket.value}) else s;
    WithPeer(t, i, p.(socket := None))
  }

  /** One attempt less in flight; a tracker peer's end also wakes the scheduler. */
  function Resolve(s: Manager, source: Source): Manager {
    if source == TcpServer then
      s.(statistics := s.statistics.(outboundInflight := Dec(s.statistics.outboundInflight)))
    else
      Notify(s.(statistics := s.statistics.(inboundInflight := Dec(s.statistics.inboundInflight))))
  }

  function ReleaseSlot(s: Manager, i: nat): Manager
    requires HasSlot(s, i)
  {
    var t := Assert(s, i in s.pool.occupied);
    Log(t.(pool := AfterRelease(t.pool, i)), Released(i, GenerationAt(s, i)))
  }

  /** Everything but the descriptor goes back to its blank state. */
  function Teardown(s: Manager, i: nat): Manager
    requires HasSlot(s, i)
  {
    var p := PeerAt(s, i);
    WithPeer(Assert(s, p.socket == None), i, BLANK.(socket := p.socket))
  }

  function DeletePeer(s: Manager, i: nat): Manager
    requires HasSlot(s, i)
  {
    var t := s.(peers := s.peers - {PeerAt(s, i).contact.endpoint});
    ReleaseSlot(Teardown(t, i), i)
  }

  function HardDelete(s: Manager, i: nat): Manager
    requires HasSlot(s, i)
  {
    var t := CloseSocket(s, i);
    DeletePeer(Resolve(t, PeerAt(s, i).source), i)
  }

  // Failure, timers, dispatch.

  /** The peer waits for its next attempt, the longer the more have failed. */
  function Delayed(s: Manager, i: nat): Manager
    requires HasSlot(s, i)
  {
    var p := PeerAt(s, i);
    var q := StopWatchers(p).(cursor := 0, recv := [], send := [], timer := Some(RETRY_TIMEOUT * p.failures));
    WithPeer(s, i, q).(statistics := s.statistics.(failed := Inc(s.statistics.failed)))
  }

  function HandleFailure(s: Manager, i: nat): Manager
    requires HasSlot(s, i)
  {
    var p := PeerAt(s, i);
    var s1 := WithPeer(s, i, p.(state := Failed, failures := p.failures + 1));
    var s2 := Assert(CloseSocket(s1, i), p.source != NoSource);
    var s3 := Resolve(s2, p.source);
    if p.failures + 1 >= MAX_RETRIES || p.source == TcpServer then DeletePeer(s3, i) else Delayed(s3, i)
  }

  /** A failed peer whose delay has passed waits in the retry queue, under its present generation. */
  function QueueRetry(s: Manager, i: nat): Manager
    requires HasSlot(s, i)
  {
    var p := PeerAt(s, i);
    var s1 := WithPeer(s, i, StopWatchers(p).(state := Transport));
    var s2 := Log(s1.(retryQueue := s1.retryQueue + [Ticket(i, GenerationAt(s, i))]),
                  Queued(i, GenerationAt(s, i), p.contact.endpoint));
    Notify(s2.(statistics := s2.statistics.(failed := Dec(s2.statistics.failed), inRetry := Inc(s2.statistics.inRetry))))
  }

  /** The timer is one-shot: it is no longer running when its callback runs. */
  function TimerCallback(s: Manager, i: nat): Manager
    requires HasSlot(s, i)
  {
    var p := PeerAt(s, i);
    var s1 := Assert(WithPeer(s, i, p.(timer := None)), p.state != Connected);
    if p.state == Failed then QueueRetry(s1, i) else HandleFailure(s1, i)
  }

  function Dispatch(s: Manager, i: nat): Manager
    requires HasSlot(s, i)
  {
    var p := PeerAt(s, i);
    var s1 := WithPeer(s, i, StopWatchers(p.(state := Connected)));
    var s2 := s1.(connects := s1.connects + [ConnectUpdate(i, p.socket, GenerationAt(s, i))],
                  statistics := s1.statistics.(connected := Inc(s1.statistics.connected)));
    Resolve(s2, p.source)
  }

  // Socket events.

  /** The send ring after the kernel took what it took. */
  function AfterSend(queue: seq<byte>, o: SendOutcome): seq<byte> {
    if o.Sent? then queue[Min(o.bytes, |queue|)..] else queue
  }

  /** The bytes the kernel took from a send ring. */
  function Swallowed(queue: seq<byte>, o: SendOutcome): seq<byte> {
    if o.Sent? then queue[..Min(o.bytes, |queue|)] else []
  }

  function Sending(p: Peer, o: SendOutcome): Peer {
    p.(send := AfterSend(p.send, o), taken := p.taken + Swallowed(p.send, o))
  }

  /** The handshake encoder, applied to a send ring of 68 cells. */
  function EncodeHandshake(p: Peer, handshake: seq<byte>): Peer
    requires |handshake| == Handshake.LENGTH
  {
    var n := Handshake.EncodeCount(p.cursor, if |p.send| <= Handshake.LENGTH then Handshake.LENGTH - |p.send| else 0);
    if p.cursor >= Handshake.LENGTH then p
    else p.(send := p.send + handshake[p.cursor..p.cursor + n], cursor := p.cursor + n)
  }

  /** The encoder reported the message as complete. */
  predicate EncodeCompleted(p: Peer) { p.cursor >= Handshake.LENGTH }

  function SendMessages(s: Manager, i: nat, o: SendOutcome): Manager
    requires HasSlot(s, i)
  {
    WithPeer(s, i, Sending(PeerAt(s, i), o))
  }

  function Watch(s: Manager, i: nat, interest: Interest): Manager
    requires HasSlot(s, i)
  {
    WithPeer(s, i, PeerAt(s, i).(interest := interest))
  }

  /** A connected socket: the handshake is encoded and as much as possible sent at once. */
  function TransportInitiation(s: Manager, i: nat, writable: bool, io: Io): Manager
    requires HasSlot(s, i) && |s.handshake| == Handshake.LENGTH
  {
    if !writable then s
    else if io.socketError != 0 then HandleFailure(s, i)
    else
      var p := PeerAt(s, i).(state := Handshaking);
      var q := EncodeHandshake(p.(cursor := 0), s.handshake);
      var s1 := Assert(Assert(WithPeer(s, i, q), p.send == []), EncodeCompleted(q));
      var s2 := SendMessages(s1, i, io.send);
      if io.send.SendFails? then HandleFailure(s2, i)
      else Watch(s2, i, if PeerAt(s2, i).send == [] then Reading else Writing)
  }

  function FinishSend(s: Manager, i: nat, o: SendOutcome): Manager
    requires HasSlot(s, i)
  {
    var t := SendMessages(s, i, o);
    if o.SendFails? then HandleFailure(t, i)
    else if PeerAt(t, i).send != [] then t
    else if PeerAt(t, i).source == Tracker then Watch(t, i, Reading)
    else if PeerAt(t, i).source == TcpServer then Dispatch(t, i)
    else t
  }

  /** Bytes the receive ring takes: no more than it has room for. */
  function Taken(queue: seq<byte>, o: RecvOutcome): seq<byte> {
    if o.Arrived? && |queue| <= Handshake.LENGTH then o.data[..Min(|o.data|, Handshake.LENGTH - |queue|)] else []
  }

  /** All that has come, up to the length of a handshake: a receive call asks for no more. */
  function Listened(heard: seq<byte>, o: RecvOutcome): seq<byte> {
    if o.Arrived? then (heard + o.data)[..Min(|heard + o.data|, Handshake.LENGTH)] else heard
  }

  /** `recv` failed: an error, or the zero bytes of a shutdown. */
  predicate RecvBroken(queue: seq<byte>, o: RecvOutcome) {
    o.RecvFails? || (o.Arrived? && Taken(queue, o) == [])
  }

  function Respond(s: Manager, i: nat, o: SendOutcome): Manager
    requires HasSlot(s, i) && |s.handshake| == Handshake.LENGTH
  {
    var p := PeerAt(s, i);
    var q := EncodeHandshake(p.(cursor := 0), s.handshake);
    var s1 := Assert(Assert(WithPeer(s, i, q), p.send == []), EncodeCompleted(q));
    var s2 := SendMessages(s1, i, o);
    if o.SendFails? then HandleFailure(s2, i)
    else if PeerAt(s2, i).send != [] then Watch(s2, i, Writing)
    else Dispatch(s2, i)
  }

  function ReceiveHandshake(s: Manager, i: nat, io: Io): Manager
    requires HasSlot(s, i) && |s.handshake| == Handshake.LENGTH
  {
    var p := PeerAt(s, i);
    var queue := p.recv + Taken(p.recv, io.recv);
    var s1 := WithPeer(s, i, p.(recv := queue, heard := Listened(p.heard, io.recv)));
    if RecvBroken(p.recv, io.recv) then HandleFailure(s1, i)
    else if |queue| > Handshake.LENGTH then s1
    else
      var d := Handshake.Decoded(queue, s.infoHash, p.contact.peerId);
      var s2 := WithPeer(s1, i, PeerAt(s1, i).(
        recv := if d.complete then [] else queue, contact := p.contact.(peerId := d.peerId)));
      if !d.complete then s2
      else if !d.valid then HardDelete(s2, i)
      else if p.source == Tracker then Dispatch(s2, i)
      else if p.source == TcpServer then Respond(s2, i, io.send)
      else s2
  }

  function HandshakeEvent(s: Manager, i: nat, writable: bool, readable: bool, io: Io): Manager
    requires HasSlot(s, i) && |s.handshake| == Handshake.LENGTH
  {
    if writable then FinishSend(s, i, io.send)
    else if readable then ReceiveHandshake(s, i, io)
    else s
  }

  /** `broken` is the loop's error event. */
  function SocketCallback(s: Manager, i: nat, broken: bool, writable: bool, readable: bool, io: Io): Manager
    requires HasSlot(s, i) && |s.handshake| == Handshake.LENGTH
  {
    var p := PeerAt(s, i);
    var s1 := Assert(Assert(s, p.state != Connected), p.source != NoSource);
    if MetQuota(s1) then HardDelete(s1, i)
    else if broken then HandleFailure(s1, i)
    else match p.state
      case Transport => TransportInitiation(s1, i, writable, io)
      case Disconnected => TransportInitiation(s1, i, writable, io)
      case Failed => TransportInitiation(s1, i, writable, io)
      case Handshaking => HandshakeEvent(s1, i, writable, readable, io)
      case _ => HardDelete(s1, i)
  }

  // Discovery and scheduling.

  function Drain(s: Manager, contacts: seq<Contact>): Manager
    decreases |contacts|
  {
    if contacts == [] then
      if MetQuota(s) || s.pool.available == [] then s else Notify(s)
    else
      var t := s.(cache := OverwritableCache.Pushed(s.cache, contacts[0], CACHE_SIZE),
                  statistics := s.statistics.(
                    inCache := if s.statistics.inCache < CACHE_SIZE then s.statistics.inCache + 1 else s.statistics.inCache));
      Drain(t, contacts[1..])
  }

  /** The next answer to a connection attempt; an exhausted list means no descriptor could be had. */
  function NextOutcome(net: seq<ConnectOutcome>): ConnectOutcome {
    if net == [] then OpenFails else net[0]
  }

  function Rest(net: seq<ConnectOutcome>): seq<ConnectOutcome> {
    if net == [] then [] else net[1..]
  }

  function Arm(p: Peer, interest: Interest): Peer { p.(interest := interest, timer := Some(CONNECT_TIMEOUT)) }

  /** True when a connection attempt is under way afterwards. */
  predicate Opens(s: Manager, i: nat, o: ConnectOutcome)
    requires HasSlot(s, i)
  {
    PeerAt(s, i).socket == None && PeerAt(s, i).store.Some? && (o.InProgress? || o.Connects?)
  }

  function OpenSocket(s: Manager, i: nat): Manager
    requires HasSlot(s, i)
  {
    var fd := s.nextDescriptor;
    WithPeer(s.(nextDescriptor := fd + 1, open := s.open + {fd}), i, PeerAt(s, i).(socket := Some(fd)))
  }

  function Connect(s: Manager, i: nat, o: ConnectOutcome): Manager
    requires HasSlot(s, i)
  {
    var p := PeerAt(s, i);
    var s1 := Assert(s, p.source == Tracker);
    if p.socket.Some? || p.store == None || o.OpenFails? then s1
    else
      var s2 := OpenSocket(s1, i);
      if o.ConnectFails? then CloseSocket(s2, i)
      else
        var q := Arm(PeerAt(s2, i), Writing).(atOnce := o.Connects?, taken := [], heard := []);
        WithPeer(s2, i, if o.Connects? then q.(state := Handshaking) else q)
  }

  function InitiateConnect(s: Manager, i: nat, o: ConnectOutcome): Manager
    requires HasSlot(s, i)
  {
    var s1 := Log(Assert(s, PeerAt(s, i).source == Tracker), Attempted(i, GenerationAt(s, i)));
    var s2 := Connect(s1, i, o);
    if Opens(s, i, o) then s2.(statistics := s2.statistics.(inboundInflight := Inc(s2.statistics.inboundInflight)))
    else s2
  }

  function Initialized(p: Peer, contact: Contact, source: Source, state: State): Peer {
    var q := p.(contact := contact, source := source, state := state);
    if source == Tracker then q.(store := Some(contact.endpoint)) else q
  }

  datatype Scheduled = Scheduled(manager: Manager, net: seq<ConnectOutcome>, found: bool)

  /** A slot taken for the freshest contact, and the contact out of the cache. */
  function WithSlotTaken(s: Manager): Manager
    requires s.cache != [] && s.pool.available != []
  {
    s.(cache := s.cache[..|s.cache| - 1], statistics := s.statistics.(inCache := Dec(s.statistics.inCache)),
       pool := AfterAcquire(s.pool))
  }

  /** The freshest contact registered and written into the slot taken for it. */
  function Enrolled(s: Manager): Manager
    requires s.cache != [] && s.pool.available != [] && HasSlot(s, NextSlot(s.pool))
  {
    var contact, i := s.cache[|s.cache| - 1], NextSlot(s.pool);
    var t := WithSlotTaken(s);
    WithPeer(t.(peers := t.peers[contact.endpoint := i]), i, Initialized(PeerAt(t, i), contact, Tracker, Transport))
  }

  /** One contact from the fresh end of the cache. */
  function TryDiscovered(s: Manager, o: ConnectOutcome): Manager
    requires s.cache != [] && s.pool.available != [] && HasSlot(s, NextSlot(s.pool))
  {
    var i := NextSlot(s.pool);
    if s.cache[|s.cache| - 1].endpoint in s.peers then ReleaseSlot(WithSlotTaken(s), i)
    else
      var t := InitiateConnect(Enrolled(s), i, o);
      if Opens(Enrolled(s), i, o) then t else DeletePeer(t, i)
  }

  predicate DiscoveredOpens(s: Manager, o: ConnectOutcome)
    requires s.cache != [] && s.pool.available != [] && HasSlot(s, NextSlot(s.pool))
  {
    && s.cache[|s.cache| - 1].endpoint !in s.peers
    && PeerAt(s, NextSlot(s.pool)).socket == None && (o.InProgress? || o.Connects?)
  }

  /** A connect outcome is used up only by a contact that is not registered yet. */
  function AfterDiscovered(s: Manager, net: seq<ConnectOutcome>): seq<ConnectOutcome>
    requires s.cache != []
  {
    if s.cache[|s.cache| - 1].endpoint in s.peers then net else Rest(net)
  }

  function DrainCache(s: Manager, net: seq<ConnectOutcome>): Scheduled
    decreases |s.cache|
  {
    if s.cache == [] then Scheduled(s, net, false)
    else if s.pool.available == [] || !HasSlot(s, NextSlot(s.pool)) then
      Scheduled(Assert(s, false), net, false)
    else
      var t := TryDiscovered(s, NextOutcome(net));
      if DiscoveredOpens(s, NextOutcome(net)) then Scheduled(t, AfterDiscovered(s, net), true)
      else DrainCache(t, AfterDiscovered(s, net))
  }

  function DiscoveredScheduler(s: Manager, net: seq<ConnectOutcome>): Scheduled {
    if s.pool.available == [] then Scheduled(s, net, false) else DrainCache(s, net)
  }

  /** A queued retry that still belongs to its slot's occupant is connected, or else deleted. */
  function TryFailed(s: Manager, o: ConnectOutcome): Manager
    requires s.retryQueue != []
  {
    var t := s.retryQueue[0];
    var s1 := s.(retryQueue := s.retryQueue[1..], statistics := s.statistics.(inRetry := Dec(s.statistics.inRetry)));
    if !HasSlot(s, t.slot) then Assert(s1, false)
    else
      var passed := GenerationAt(s1, t.slot) == t.generation;
      var s2 := Log(s1, Popped(t.slot, t.generation, passed));
      if !passed then s2
      else
        var s3 := InitiateConnect(s2, t.slot, o);
        if Opens(s2, t.slot, o) then s3 else DeletePeer(s3, t.slot)
  }

  /** The front ticket passes the generation check. */
  predicate FrontPasses(s: Manager)
    requires s.retryQueue != []
  {
    HasSlot(s, s.retryQueue[0].slot) && GenerationAt(s, s.retryQueue[0].slot) == s.retryQueue[0].generation
  }

  function FailedScheduler(s: Manager, net: seq<ConnectOutcome>): Scheduled
    decreases |s.retryQueue|
  {
    if s.retryQueue == [] then Scheduled(s, net, false)
    else
      var t := TryFailed(s, NextOutcome(net));
      if !FrontPasses(s) then FailedScheduler(t, net)
      else if Opens(s, s.retryQueue[0].slot, NextOutcome(net)) then Scheduled(t, Rest(net), true)
      else FailedScheduler(t, Rest(net))
  }

  /** One turn of the round robin. No disconnect update ever arrives. */
  function Turn(s: Manager, net: seq<ConnectOutcome>): Scheduled {
    match s.current
    case DiscoveredSpot =>
      var r := DiscoveredScheduler(s, net);
      r.(manager := r.manager.(empties := r.manager.empties.(discovered := !r.found), current := DisconnectedSpot))
    case DisconnectedSpot =>
      Scheduled(s.(empties := s.empties.(disconnected := true), current := FailedSpot), net, false)
    case FailedSpot =>
      var r := FailedScheduler(s, net);
      r.(manager := r.manager.(empties := r.manager.empties.(failed := !r.found), current := DiscoveredSpot))
  }

  function AllEmpty(e: Empties): bool { e.discovered && e.disconnected && e.failed }

  // The loop ends: a find uses up the budget, a miss marks a source or moves on to one not yet marked.

  function Budget(s: Manager): nat {
    if s.statistics.inboundInflight < MAX_INBOUND_INFLIGHT then MAX_INBOUND_INFLIGHT - s.statistics.inboundInflight else 0
  }

  function Unmarked(e: Empties): nat {
    (if e.discovered then 0 else 1) + (if e.disconnected then 0 else 1) + (if e.failed then 0 else 1)
  }

  /** Turns until a source that is not marked empty comes up. */
  function Distance(current: Spot, e: Empties): nat {
    match current
    case DiscoveredSpot => if !e.discovered then 0 else if !e.disconnected then 1 else if !e.failed then 2 else 3
    case DisconnectedSpot => if !e.disconnected then 0 else if !e.failed then 1 else if !e.discovered then 2 else 3
    case FailedSpot => if !e.failed then 0 else if !e.discovered then 1 else if !e.disconnected then 2 else 3
  }

  predicate SameScheduler(s: Manager, t: Manager, found: bool) {
    && t.empties == s.empties && t.current == s.current
    && t.statistics.outboundInflight == s.statistics.outboundInflight
    && t.statistics.connected == s.statistics.connected && t.connects == s.connects
    && t.statistics.inboundInflight == if found then Inc(s.statistics.inboundInflight) else s.statistics.inboundInflight
  }

  lemma InitiateConnectInflight(s: Manager, i: nat, o: ConnectOutcome)
    requires HasSlot(s, i)
    ensures SameScheduler(s, InitiateConnect(s, i, o), Opens(s, i, o))
    ensures |InitiateConnect(s, i, o).pool.slots| == |s.pool.slots|
    ensures InitiateConnect(s, i, o).cache == s.cache && InitiateConnect(s, i, o).retryQueue == s.retryQueue
  {
  }

  lemma DeleteInflight(s: Manager, i: nat)
    requires HasSlot(s, i)
    ensures SameScheduler(s, DeletePeer(s, i), false)
    ensures DeletePeer(s, i).cache == s.cache && DeletePeer(s, i).retryQueue == s.retryQueue
  {
  }

  lemma EnrolledOpens(s: Manager, o: ConnectOutcome)
    requires s.cache != [] && s.pool.available != [] && HasSlot(s, NextSlot(s.pool))
    requires s.cache[|s.cache| - 1].endpoint !in s.peers
    ensures HasSlot(Enrolled(s), NextSlot(s.pool)) && SameScheduler(s, Enrolled(s), false)
    ensures |Enrolled(s).cache| == |s.cache| - 1
    ensures Opens(Enrolled(s), NextSlot(s.pool), o) == DiscoveredOpens(s, o)
  {
  }

  lemma TryDiscoveredInflight(s: Manager, o: ConnectOutcome)
    requires s.cache != [] && s.pool.available != [] && HasSlot(s, NextSlot(s.pool))
    ensures SameScheduler(s, TryDiscovered(s, o), DiscoveredOpens(s, o))
    ensures |TryDiscovered(s, o).cache| == |s.cache| - 1
  {
    var i := NextSlot(s.pool);
    if s.cache[|s.cache| - 1].endpoint !in s.peers {
      EnrolledOpens(s, o);
      InitiateConnectInflight(Enrolled(s), i, o);
      DeleteInflight(InitiateConnect(Enrolled(s), i, o), i);
      hide InitiateConnect, DeletePeer, Enrolled, Opens, DiscoveredOpens;
    }
  }

  lemma {:induction false} DrainCacheInflight(s: Manager, net: seq<ConnectOutcome>)
    ensures SameScheduler(s, DrainCache(s, net).manager, DrainCache(s, net).found)
    decreases |s.cache|
  {
    if s.cache != [] && s.pool.available != [] && HasSlot(s, NextSlot(s.pool)) {
      TryDiscoveredInflight(s, NextOutcome(net));
      var t := TryDiscovered(s, NextOutcome(net));
      if !DiscoveredOpens(s, NextOutcome(net)) {
        DrainCacheInflight(t, AfterDiscovered(s, net));
      }
      hide TryDiscovered, DiscoveredOpens, AfterDiscovered;
    }
  }

  lemma TryFailedInflight(s: Manager, o: ConnectOutcome)
    requires s.retryQueue != []
    ensures SameScheduler(s, TryFailed(s, o), FrontPasses(s) && Opens(s, s.retryQueue[0].slot, o))
    ensures |TryFailed(s, o).retryQueue| == |s.retryQueue| - 1
  {
    var t := s.retryQueue[0];
    if HasSlot(s, t.slot) {
      var s1 := s.(retryQueue := s.retryQueue[1..], statistics := s.statistics.(inRetry := Dec(s.statistics.inRetry)));
      var s2 := Log(s1, Popped(t.slot, t.generation, GenerationAt(s1, t.slot) == t.generation));
      InitiateConnectInflight(s2, t.slot, o);
      DeleteInflight(InitiateConnect(s2, t.slot, o), t.slot);
      assert Opens(s2, t.slot, o) == Opens(s, t.slot, o);
      hide InitiateConnect, DeletePeer, Opens;
    }
  }

  lemma {:induction false} FailedInflight(s: Manager, net: seq<ConnectOutcome>)
    ensures SameScheduler(s, FailedScheduler(s, net).manager, FailedScheduler(s, net).found)
    decreases |s.retryQueue|
  {
    if s.retryQueue != [] {
      TryFailedInflight(s, NextOutcome(net));
      var t := TryFailed(s, NextOutcome(net));
      if !FrontPasses(s) {
        FailedInflight(t, net);
      } else if !Opens(s, s.retryQueue[0].slot, NextOutcome(net)) {
        FailedInflight(t, Rest(net));
      }
      hide TryFailed;
    }
  }

  lemma TurnProgress(s: Manager, net: seq<ConnectOutcome>)
    requires s.statistics.inboundInflight < MAX_INBOUND_INFLIGHT
    ensures var r := Turn(s, net);
            !AllEmpty(r.manager.empties) ==>
              || Budget(r.manager) < Budget(s)
              || (Budget(r.manager) == Budget(s) && Unmarked(r.manager.empties) < Unmarked(s.empties))
              || (Budget(r.manager) == Budget(s) && Unmarked(r.manager.empties) == Unmarked(s.empties)
                  && Distance(r.manager.current, r.manager.empties) < Distance(s.current, s.empties))
  {
    DrainCacheInflight(s, net);
    FailedInflight(s, net);
    hide DrainCache, FailedScheduler;
  }

  function RoundRobin(s: Manager, net: seq<ConnectOutcome>): Manager
    decreases Budget(s), Unmarked(s.empties), Distance(s.current, s.empties)
  {
    if s.statistics.inboundInflight >= MAX_INBOUND_INFLIGHT then s
    else
      var r := Turn(s, net);
      if AllEmpty(r.manager.empties) then r.manager
      else
        TurnProgress(s, net);
        RoundRobin(r.manager, r.net)
  }

  /** The scheduler's callback consumes the pending notifications. */
  function Schedule(s: Manager, net: seq<ConnectOutcome>): Manager {
    RoundRobin(s.(notified := false), net)
  }

  // Accepting.

  function AcceptOne(s: Manager, o: AcceptOutcome): Manager {
    if !o.Accepted? then s
    else
      var fd := s.nextDescriptor;
      var s1 := s.(nextDescriptor := fd + 1);
      if s.pool.available == [] then s1
      else if !HasSlot(s, NextSlot(s.pool)) then Assert(s1, false)
      else
        var s2 := s1.(open := s1.open + {fd},
                      statistics := s1.statistics.(outboundInflight := Inc(s1.statistics.outboundInflight)));
        var i := NextSlot(s2.pool);
        var s3 := s2.(pool := AfterAcquire(s2.pool));
        Seated(Mapped(s3, o.from, i), i, o.from, fd)
  }

  /** The endpoint mapped to slot `i`, its old peer removed if it had one. */
  function Mapped(s: Manager, from: Endpoint, i: nat): (t: Manager)
    ensures |t.pool.slots| == |s.pool.slots|
  {
    if from in s.peers then ReplaceRegistered(s, s.peers[from], from, i) else s.(peers := s.peers[from := i])
  }

  /** The accepted socket in its slot, waiting for the other side's handshake. */
  function Seated(s: Manager, i: nat, from: Endpoint, fd: nat): Manager
    requires HasSlot(s, i)
  {
    var p := Initialized(PeerAt(s, i), Contact(from, None), TcpServer, Handshaking);
    WithPeer(s, i, Arm(p.(socket := Some(fd), store := Some(from)), Reading))
  }

  /** The accepted endpoint is registered: its old peer makes way for slot `i`. */
  function ReplaceRegistered(s: Manager, old_: nat, from: Endpoint, i: nat): (t: Manager)
    ensures |t.pool.slots| == |s.pool.slots|
  {
    if !HasSlot(s, old_) then Assert(s, false)
    else
      var p := PeerAt(s, old_);
      var s1 := if p.state == Connected then s else Resolve(CloseSocket(s, old_), p.source);
      var s2 := DeletePeer(s1, old_);
      s2.(peers := s2.peers[from := i])
  }

  /** `accept_peer_connection` reports whether more connections may be waiting. */
  predicate MorePending(s: Manager, o: AcceptOutcome) {
    match o
    case WouldBlock => false
    case Interrupted => true
    case Aborted => true
    case AcceptFails => false
    case Accepted(_) => s.pool.available != []
  }

  function ServerCallback(s: Manager, incoming: seq<AcceptOutcome>): Manager
    decreases |incoming|
  {
    if incoming == [] || MetQuota(s) || s.statistics.outboundInflight >= MAX_OUTBOUND_INFLIGHT then s
    else
      var t := AcceptOne(s, incoming[0]);
      if MorePending(s, incoming[0]) then ServerCallback(t, incoming[1..]) else t
  }
}
