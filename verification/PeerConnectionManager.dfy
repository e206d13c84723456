/**
 * The manager as it works: fields updated in place, callbacks as methods, the round robin and the accept
 * loop as loops. Every method is proved to do exactly what its function in ManagerModel says.
 */
module PeerConnectionManager {
  import opened Common
  import opened SlotPool
  import opened ManagerModel
  import Handshake
  import OverwritableCache

  class ConnectionStatistics {
    var connected: nat
    var inboundInflight: nat
    var outboundInflight: nat
    var failed: nat
    var inRetry: nat
    var inCache: nat

    constructor ()
      ensures View() == Statistics(0, 0, 0, 0, 0, 0)
    {
      connected, inboundInflight, outboundInflight, failed, inRetry, inCache := 0, 0, 0, 0, 0, 0;
    }

    function View(): Statistics
      reads this
    {
      Statistics(connected, inboundInflight, outboundInflight, failed, inRetry, inCache)
    }

    predicate HasMetConnectionQuota()
      reads this
    {
      connected >= HEALTHY_PEERS
    }

    method IncrementInCache()
      modifies this`inCache
      ensures inCache == if old(inCache) < CACHE_SIZE then old(inCache) + 1 else old(inCache)
    {
      if inCache < CACHE_SIZE {
        inCache := inCache + 1;
      }
    }
  }

  class ConnectionManager {
    const handshake: seq<byte>
    const infoHash: seq<byte>
    const pool: SlotRecyclingPool<Peer>
    const cache: OverwritableCache.Cache<Contact>
    const statistics: ConnectionStatistics
    var peers: map<Endpoint, nat>
    var retryQueue: seq<Ticket>
    var current: Spot
    var empties: Empties
    var notified: bool
    var connects: seq<ConnectUpdate>
    // The kernel's descriptor table.
    var nextDescriptor: nat
    var open: set<nat>
    // What happened so far, and whether an assertion failed.
    ghost var log: seq<Happening>
    ghost var crashed: bool

    ghost predicate Valid()
      reads this, cache
    {
      && |handshake| == Handshake.LENGTH && |infoHash| == 20
      && cache.Valid() && cache.capacity == CACHE_SIZE
      && pool.slots.Length == POOL_SIZE
    }

    ghost function View(): Manager
      requires Valid()
      reads this, pool, pool.slots, cache, cache.cells, statistics
    {
      Manager(handshake, infoHash, pool.View(), peers, retryQueue, cache.Entries(), statistics.View(),
              current, empties, notified, connects, nextDescriptor, open, log, crashed)
    }

    constructor (handshake: seq<byte>, infoHash: seq<byte>)
      requires |handshake| == Handshake.LENGTH && |infoHash| == 20
      ensures Valid() && View() == Initial(handshake, infoHash)
      ensures fresh(pool) && fresh(pool.slots) && fresh(cache) && fresh(cache.cells) && fresh(statistics)
    {
      this.handshake, this.infoHash := handshake, infoHash;
      pool := new SlotRecyclingPool(POOL_SIZE, BLANK);
      cache := new OverwritableCache.Cache(CACHE_SIZE);
      statistics := new ConnectionStatistics();
      peers, retryQueue, connects := map[], [], [];
      current, empties, notified := DiscoveredSpot, Empties(false, false, false), false;
      nextDescriptor, open := 0, {};
      log, crashed := [], false;
    }

    ghost method Check(holds: bool)
      modifies this`crashed
      ensures crashed == (old(crashed) || !holds)
    {
      crashed := crashed || !holds;
    }

    /** A write to the peer in slot `i`. */
    method SetPeer(i: nat, p: Peer)
      requires Valid() && i < POOL_SIZE
      modifies pool.slots
      ensures Valid() && View() == WithPeer(old(View()), i, p)
    {
      pool.Store(i, p);
    }

    method ClosePeerSocket(i: nat)
      requires Valid() && i < POOL_SIZE
      modifies this, pool.slots
      ensures Valid() && View() == CloseSocket(old(View()), i)
    {
      var p := pool.slots[i].value;
      if p.socket.Some? {
        open := open - {p.socket.value};
      }
      SetPeer(i, p.(socket := None));
    }

    method ResolveInFlight(source: Source)
      requires Valid()
      modifies this, statistics
      ensures Valid() && View() == Resolve(old(View()), source)
    {
      if source == TcpServer {
        statistics.outboundInflight := Dec(statistics.outboundInflight);
      } else {
        statistics.inboundInflight := Dec(statistics.inboundInflight);
        notified := true;
      }
    }

    method TeardownConnection(i: nat)
      requires Valid() && i < POOL_SIZE
      modifies this, pool.slots
      ensures Valid() && View() == Teardown(old(View()), i)
    {
      var p := pool.slots[i].value;
      Check(p.socket == None);
      SetPeer(i, BLANK.(socket := p.socket));
    }

    method ReleasePoolSlot(i: nat)
      requires Valid() && i < POOL_SIZE
      modifies this, pool, pool.slots
      ensures Valid() && View() == ReleaseSlot(old(View()), i)
    {
      Check(i in pool.occupied);
      log := log + [Released(i, pool.slots[i].generation)];
      pool.Release(i);
    }

    method DeletePeerConnection(i: nat)
      requires Valid() && i < POOL_SIZE
      modifies this, pool, pool.slots
      ensures Valid() && View() == DeletePeer(old(View()), i)
    {
      peers := peers - {pool.slots[i].value.contact.endpoint};
      TeardownConnection(i);
      ReleasePoolSlot(i);
    }

    method HardDeletePeerConnection(i: nat)
      requires Valid() && i < POOL_SIZE
      modifies this, pool, pool.slots, statistics
      ensures Valid() && View() == HardDelete(old(View()), i)
    {
      var source := pool.slots[i].value.source;
      ClosePeerSocket(i);
      ResolveInFlight(source);
      DeletePeerConnection(i);
    }

    method DelayRetry(i: nat)
      requires Valid() && i < POOL_SIZE
      modifies this, pool.slots, statistics
      ensures Valid() && View() == Delayed(old(View()), i)
    {
      var p := pool.slots[i].value;
      SetPeer(i, StopWatchers(p).(cursor := 0, recv := [], send := [], timer := Some(RETRY_TIMEOUT * p.failures)));
      statistics.failed := Inc(statistics.failed);
    }

    method HandlePeerFailure(i: nat)
      requires Valid() && i < POOL_SIZE
      modifies this, pool, pool.slots, statistics
      ensures Valid() && View() == HandleFailure(old(View()), i)
    {
      hide DeletePeer, CloseSocket, Resolve, WithPeer, Delayed;
      var p := pool.slots[i].value;
      SetPeer(i, p.(state := Failed, failures := p.failures + 1));
      ClosePeerSocket(i);
      Check(p.source != NoSource);
      ResolveInFlight(p.source);
      if p.failures + 1 >= MAX_RETRIES || p.source == TcpServer {
        DeletePeerConnection(i);
        return;
      }
      DelayRetry(i);
    }

    method QueueFailedPeer(i: nat)
      requires Valid() && i < POOL_SIZE
      modifies this, pool.slots, statistics
      ensures Valid() && View() == QueueRetry(old(View()), i)
    {
      var p := pool.slots[i].value;
      SetPeer(i, StopWatchers(p).(state := Transport));
      retryQueue := retryQueue + [Ticket(i, pool.slots[i].generation)];
      log := log + [Queued(i, pool.slots[i].generation, p.contact.endpoint)];
      statistics.failed := Dec(statistics.failed);
      statistics.inRetry := Inc(statistics.inRetry);
      notified := true;
    }

    method PeerTimerCallback(i: nat)
      requires Valid() && i < POOL_SIZE
      modifies this, pool, pool.slots, statistics
      ensures Valid() && View() == TimerCallback(old(View()), i)
    {
      hide HandleFailure, QueueRetry;
      var p := pool.slots[i].value;
      SetPeer(i, p.(timer := None));
      Check(p.state != Connected);
      if p.state == Failed {
        QueueFailedPeer(i);
        return;
      }
      HandlePeerFailure(i);
    }

    method DispatchConnection(i: nat)
      requires Valid() && i < POOL_SIZE
      modifies this, pool.slots, statistics
      ensures Valid() && View() == Dispatch(old(View()), i)
    {
      var p := pool.slots[i].value;
      SetPeer(i, StopWatchers(p.(state := Connected)));
      connects := connects + [ConnectUpdate(i, p.socket, pool.slots[i].generation)];
      statistics.connected := Inc(statistics.connected);
      ResolveInFlight(p.source);
    }

    method SendPeerMessages(i: nat, o: SendOutcome) returns (transportOk: bool, exhausted: bool)
      requires Valid() && i < POOL_SIZE
      modifies pool.slots
      ensures Valid() && View() == SendMessages(old(View()), i, o)
      ensures transportOk <==> !o.SendFails?
      ensures exhausted <==> PeerAt(View(), i).send == []
    {
      var p := pool.slots[i].value;
      var send := AfterSend(p.send, o);
      SetPeer(i, p.(send := send, taken := p.taken + Swallowed(p.send, o)));
      return !o.SendFails?, send == [];
    }

    method ModifyPeerSocket(i: nat, interest: Interest)
      requires Valid() && i < POOL_SIZE
      modifies pool.slots
      ensures Valid() && View() == Watch(old(View()), i, interest)
    {
      SetPeer(i, pool.slots[i].value.(interest := interest));
    }

    method HandleTransportInitiation(i: nat, writable: bool, io: Io)
      requires Valid() && i < POOL_SIZE
      modifies this, pool, pool.slots, statistics
      ensures Valid() && View() == TransportInitiation(old(View()), i, writable, io)
    {
      hide HandleFailure, EncodeHandshake, Watch;
      if !writable {
        return;
      }
      if io.socketError != 0 {
        HandlePeerFailure(i);
        return;
      }
      var p := pool.slots[i].value.(state := Handshaking);
      Check(p.send == []);
      var q := EncodeHandshake(p.(cursor := 0), handshake);
      SetPeer(i, q);
      Check(EncodeCompleted(q));
      var transportOk, exhausted := SendPeerMessages(i, io.send);
      if transportOk {
        ModifyPeerSocket(i, if exhausted then Reading else Writing);
      } else {
        HandlePeerFailure(i);
      }
    }

    method FinishHandshakeSend(i: nat, o: SendOutcome)
      requires Valid() && i < POOL_SIZE
      modifies this, pool, pool.slots, statistics
      ensures Valid() && View() == FinishSend(old(View()), i, o)
    {
      hide HandleFailure, Dispatch, Watch;
      var transportOk, exhausted := SendPeerMessages(i, o);
      if !transportOk {
        HandlePeerFailure(i);
        return;
      }
      if exhausted {
        var source := pool.slots[i].value.source;
        if source == Tracker {
          ModifyPeerSocket(i, Reading);
        } else if source == TcpServer {
          DispatchConnection(i);
        }
      }
    }

    method RespondWithHandshake(i: nat, o: SendOutcome)
      requires Valid() && i < POOL_SIZE
      modifies this, pool, pool.slots, statistics
      ensures Valid() && View() == Respond(old(View()), i, o)
    {
      hide HandleFailure, Dispatch, Watch, EncodeHandshake;
      var p := pool.slots[i].value;
      Check(p.send == []);
      var q := EncodeHandshake(p.(cursor := 0), handshake);
      SetPeer(i, q);
      Check(EncodeCompleted(q));
      var transportOk, exhausted := SendPeerMessages(i, o);
      if !transportOk {
        HandlePeerFailure(i);
      } else if !exhausted {
        ModifyPeerSocket(i, Writing);
      } else {
        DispatchConnection(i);
      }
    }

    method ReceivePeerHandshake(i: nat, io: Io)
      requires Valid() && i < POOL_SIZE
      modifies this, pool, pool.slots, statistics
      ensures Valid() && View() == ReceiveHandshake(old(View()), i, io)
    {
      hide HandleFailure, HardDelete, Dispatch, Respond, Handshake.Decoded, Taken, Listened;
      var p := pool.slots[i].value;
      var queue := p.recv + Taken(p.recv, io.recv);
      SetPeer(i, p.(recv := queue, heard := Listened(p.heard, io.recv)));
      if RecvBroken(p.recv, io.recv) {
        HandlePeerFailure(i);
        return;
      }
      if |queue| > Handshake.LENGTH {
        return;
      }
      var d := Handshake.Decoded(queue, infoHash, p.contact.peerId);
      SetPeer(i, pool.slots[i].value.(recv := if d.complete then [] else queue,
                                      contact := p.contact.(peerId := d.peerId)));
      if !d.complete {
        return;
      }
      if !d.valid {
        HardDeletePeerConnection(i);
        return;
      }
      if p.source == Tracker {
        DispatchConnection(i);
      } else if p.source == TcpServer {
        RespondWithHandshake(i, io.send);
      }
    }

    method PeerSocketCallback(i: nat, broken: bool, writable: bool, readable: bool, io: Io)
      requires Valid() && i < POOL_SIZE
      modifies this, pool, pool.slots, statistics
      ensures Valid() && View() == SocketCallback(old(View()), i, broken, writable, readable, io)
    {
      hide HandleFailure, HardDelete, TransportInitiation, FinishSend, ReceiveHandshake;
      var p := pool.slots[i].value;
      Check(p.state != Connected);
      Check(p.source != NoSource);
      if statistics.HasMetConnectionQuota() {
        HardDeletePeerConnection(i);
        return;
      }
      if broken {
        HandlePeerFailure(i);
        return;
      }
      match p.state {
        case Transport => HandleTransportInitiation(i, writable, io);
        case Disconnected => HandleTransportInitiation(i, writable, io);
        case Failed => HandleTransportInitiation(i, writable, io);
        case Handshaking =>
          if writable {
            FinishHandshakeSend(i, io.send);
          } else if readable {
            ReceivePeerHandshake(i, io);
          }
        case _ => HardDeletePeerConnection(i);
      }
    }

    // Discovery and scheduling.

    method DrainDiscovered(contacts: seq<Contact>)
      requires Valid()
      modifies this, cache, cache.cells, statistics
      ensures Valid() && View() == Drain(old(View()), contacts)
    {
      var k := 0;
      while k < |contacts|
        invariant 0 <= k <= |contacts| && Valid()
        invariant Drain(View(), contacts[k..]) == Drain(old(View()), contacts)
        invariant pool.View() == old(pool.View())
      {
        assert contacts[k..][0] == contacts[k] && contacts[k..][1..] == contacts[k + 1..];
        cache.Push(contacts[k]);
        statistics.IncrementInCache();
        k := k + 1;
      }
      if statistics.HasMetConnectionQuota() || pool.Available() == 0 {
        return;
      }
      notified := true;
    }

    method ConnectPeer(i: nat, o: ConnectOutcome) returns (ok: bool)
      requires Valid() && i < POOL_SIZE
      modifies this, pool.slots
      ensures Valid() && View() == Connect(old(View()), i, o)
      ensures ok == Opens(old(View()), i, o)
    {
      hide CloseSocket, WithPeer, Arm, OpenSocket;
      var p := pool.slots[i].value;
      Check(p.source == Tracker);
      if p.socket.Some? || p.store == None || o.OpenFails? {
        return false;
      }
      OpenPeerSocket(i);
      if o.ConnectFails? {
        ClosePeerSocket(i);
        return false;
      }
      var q := Arm(pool.slots[i].value, Writing).(atOnce := o.Connects?, taken := [], heard := []);
      SetPeer(i, if o.Connects? then q.(state := Handshaking) else q);
      return true;
    }

    /** The kernel hands out the next descriptor. */
    method OpenPeerSocket(i: nat)
      requires Valid() && i < POOL_SIZE
      modifies this, pool.slots
      ensures Valid() && View() == OpenSocket(old(View()), i)
    {
      hide WithPeer;
      var fd := nextDescriptor;
      nextDescriptor, open := fd + 1, open + {fd};
      SetPeer(i, pool.slots[i].value.(socket := Some(fd)));
    }

    method InitiatePeerConnect(i: nat, o: ConnectOutcome) returns (ok: bool)
      requires Valid() && i < POOL_SIZE
      modifies this, pool.slots, statistics
      ensures Valid() && View() == InitiateConnect(old(View()), i, o)
      ensures ok == Opens(old(View()), i, o)
    {
      hide Connect;
      Check(pool.slots[i].value.source == Tracker);
      log := log + [Attempted(i, pool.slots[i].generation)];
      ok := ConnectPeer(i, o);
      if ok {
        statistics.inboundInflight := Inc(statistics.inboundInflight);
      }
    }

    /** One turn of the discovery loop: the freshest contact gets a slot, unless it has one. */
    method TryContact(contact: Contact, o: ConnectOutcome, ghost before: Manager) returns (used: bool, ok: bool)
      requires Valid() && pool.available != [] && NextSlot(pool.View()) < POOL_SIZE
      requires before.cache != [] && contact == before.cache[|before.cache| - 1]
      requires View() == before.(cache := before.cache[..|before.cache| - 1],
                                 statistics := before.statistics.(inCache := Dec(before.statistics.inCache)))
      modifies this, pool, pool.slots, statistics
      ensures Valid() && View() == TryDiscovered(before, o)
      ensures used <==> contact.endpoint !in before.peers
      ensures ok <==> DiscoveredOpens(before, o)
    {
      hide InitiateConnect, DeletePeer, ReleaseSlot;
      var acquired := pool.Acquire();
      var i := acquired.value;
      assert View() == WithSlotTaken(before);
      if contact.endpoint in peers {
        ReleasePoolSlot(i);
        return false, false;
      }
      peers := peers[contact.endpoint := i];
      SetPeer(i, Initialized(pool.slots[i].value, contact, Tracker, Transport));
      assert View() == Enrolled(before);
      EnrolledOpens(before, o);
      hide Enrolled, DiscoveredOpens, Opens;
      ok := InitiatePeerConnect(i, o);
      if !ok {
        DeletePeerConnection(i);
      }
      used := true;
    }

    method DiscoveredPeerScheduler(net: seq<ConnectOutcome>) returns (found: bool, rest: seq<ConnectOutcome>)
      requires Valid()
      modifies this, pool, pool.slots, cache, statistics
      ensures Valid() && Scheduled(View(), rest, found) == DiscoveredScheduler(old(View()), net)
    {
      hide TryDiscovered, DiscoveredOpens;
      rest := net;
      if pool.Available() == 0 {
        return false, rest;
      }
      while !cache.IsEmpty()
        invariant Valid()
        invariant DrainCache(View(), rest) == DrainCache(old(View()), net)
        decreases cache.size
      {
        ghost var before := View();
        if pool.available == [] || NextSlot(pool.View()) >= POOL_SIZE {
          Check(false);
          return false, rest;
        }
        var contact := cache.FreshPop();
        assert before.cache == cache.Entries() + [contact.value];
        statistics.inCache := Dec(statistics.inCache);
        assert View() == before.(cache := before.cache[..|before.cache| - 1],
                                 statistics := before.statistics.(inCache := Dec(before.statistics.inCache)));
        var used, ok := TryContact(contact.value, NextOutcome(rest), before);
        if used {
          rest := Rest(rest);
        }
        if ok {
          return true, rest;
        }
      }
      return false, rest;
    }

    /** The front of the retry queue: connected again if its slot's occupant is still the same. */
    method RetryFront(o: ConnectOutcome) returns (passed: bool, ok: bool)
      requires Valid() && retryQueue != []
      modifies this, pool, pool.slots, statistics
      ensures Valid() && View() == TryFailed(old(View()), o)
      ensures passed <==> FrontPasses(old(View()))
      ensures ok <==> passed && Opens(old(View()), old(retryQueue[0].slot), o)
    {
      hide InitiateConnect, DeletePeer;
      var failedPeer := retryQueue[0];
      retryQueue := retryQueue[1..];
      statistics.inRetry := Dec(statistics.inRetry);
      if failedPeer.slot >= POOL_SIZE {
        Check(false);
        return false, false;
      }
      passed := pool.slots[failedPeer.slot].generation == failedPeer.generation;
      log := log + [Popped(failedPeer.slot, failedPeer.generation, passed)];
      if !passed {
        return false, false;
      }
      ok := InitiatePeerConnect(failedPeer.slot, o);
      if !ok {
        DeletePeerConnection(failedPeer.slot);
      }
    }

    method FailedPeerScheduler(net: seq<ConnectOutcome>) returns (found: bool, rest: seq<ConnectOutcome>)
      requires Valid()
      modifies this, pool, pool.slots, statistics
      ensures Valid() && Scheduled(View(), rest, found) == FailedScheduler(old(View()), net)
    {
      hide TryFailed, FrontPasses, Opens;
      rest := net;
      while retryQueue != []
        invariant Valid()
        invariant FailedScheduler(View(), rest) == FailedScheduler(old(View()), net)
        decreases |retryQueue|
      {
        ghost var before := View();
        TryFailedInflight(before, NextOutcome(rest));
        var passed, ok := RetryFront(NextOutcome(rest));
        assert retryQueue == View().retryQueue;
        if passed {
          rest := Rest(rest);
        }
        if ok {
          return true, rest;
        }
      }
      return false, rest;
    }

    /** One branch of the round robin. */
    method TakeTurn(net: seq<ConnectOutcome>) returns (rest: seq<ConnectOutcome>)
      requires Valid()
      modifies this, pool, pool.slots, cache, statistics
      ensures Valid() && View() == Turn(old(View()), net).manager && rest == Turn(old(View()), net).net
    {
      hide DiscoveredScheduler, FailedScheduler;
      rest := net;
      var found;
      match current {
        case DiscoveredSpot =>
          found, rest := DiscoveredPeerScheduler(net);
          empties := empties.(discovered := !found);
          current := DisconnectedSpot;
        case DisconnectedSpot =>
          empties := empties.(disconnected := true);
          current := FailedSpot;
        case FailedSpot =>
          found, rest := FailedPeerScheduler(net);
          empties := empties.(failed := !found);
          current := DiscoveredSpot;
      }
    }

    method RoundRobinScheduler(net: seq<ConnectOutcome>)
      requires Valid()
      modifies this, pool, pool.slots, cache, statistics
      ensures Valid() && View() == Schedule(old(View()), net)
    {
      hide Turn;
      notified := false;
      ghost var start := View();
      var rest := net;
      while statistics.inboundInflight < MAX_INBOUND_INFLIGHT
        invariant Valid()
        invariant RoundRobin(View(), rest) == RoundRobin(start, net)
        decreases Budget(View()), Unmarked(View().empties), Distance(View().current, View().empties)
      {
        TurnProgress(View(), rest);
        rest := TakeTurn(rest);
        if AllEmpty(empties) {
          break;
        }
      }
    }

    // Accepting.

    method ReplaceOldPeer(mapped: nat, from: Endpoint, acquired: nat)
      requires Valid()
      modifies this, pool, pool.slots, statistics
      ensures Valid() && View() == ReplaceRegistered(old(View()), mapped, from, acquired)
    {
      hide CloseSocket, Resolve, DeletePeer;
      if mapped >= POOL_SIZE {
        Check(false);
        return;
      }
      var oldPeer := pool.slots[mapped].value;
      if oldPeer.state != Connected {
        ClosePeerSocket(mapped);
        ResolveInFlight(oldPeer.source);
      }
      DeletePeerConnection(mapped);
      peers := peers[from := acquired];
    }

    method MapEndpoint(from: Endpoint, i: nat)
      requires Valid() && i < POOL_SIZE
      modifies this, pool, pool.slots, statistics
      ensures Valid() && View() == Mapped(old(View()), from, i)
    {
      hide ReplaceRegistered;
      if from in peers {
        ReplaceOldPeer(peers[from], from, i);
      } else {
        peers := peers[from := i];
      }
    }

    method SeatPeer(i: nat, from: Endpoint, fd: nat)
      requires Valid() && i < POOL_SIZE
      modifies pool.slots
      ensures Valid() && View() == Seated(old(View()), i, from, fd)
    {
      var p := Initialized(pool.slots[i].value, Contact(from, None), TcpServer, Handshaking);
      SetPeer(i, Arm(p.(socket := Some(fd), store := Some(from)), Reading));
    }

    /** The part of accepting that follows once a slot is known to be free. */
    method AdmitConnection(from: Endpoint)
      requires Valid() && pool.available != []
      modifies this, pool, pool.slots, statistics
      ensures Valid() && View() == AcceptOne(old(View()), Accepted(from))
    {
      hide Mapped, Seated, AfterAcquire;
      var fd := nextDescriptor;
      nextDescriptor := fd + 1;
      if NextSlot(pool.View()) >= POOL_SIZE {
        Check(false);
        return;
      }
      open := open + {fd};
      statistics.outboundInflight := Inc(statistics.outboundInflight);
      var slot := pool.Acquire();
      MapEndpoint(from, slot.value);
      SeatPeer(slot.value, from, fd);
    }

    method AcceptPeerConnection(o: AcceptOutcome) returns (pending: bool)
      requires Valid()
      modifies this, pool, pool.slots, statistics
      ensures Valid() && View() == AcceptOne(old(View()), o)
      ensures pending == MorePending(old(View()), o)
    {
      if !o.Accepted? {
        return o.Interrupted? || o.Aborted?;
      }
      if pool.Available() == 0 {
        nextDescriptor := nextDescriptor + 1;
        return false;
      }
      hide AcceptOne;
      AdmitConnection(o.from);
      return true;
    }

    method ServerSocketCallback(incoming: seq<AcceptOutcome>)
      requires Valid()
      modifies this, pool, pool.slots, statistics
      ensures Valid() && View() == ServerCallback(old(View()), incoming)
    {
      hide AcceptOne;
      var k, pending := 0, true;
      while k < |incoming| && !statistics.HasMetConnectionQuota()
            && statistics.outboundInflight < MAX_OUTBOUND_INFLIGHT && pending
        invariant 0 <= k <= |incoming| && Valid()
        invariant (if pending then ServerCallback(View(), incoming[k..]) else View()) == ServerCallback(old(View()), incoming)
      {
        assert incoming[k..][0] == incoming[k] && incoming[k..][1..] == incoming[k + 1..];
        pending := AcceptPeerConnection(incoming[k]);
        k := k + 1;
      }
    }
  }
}
