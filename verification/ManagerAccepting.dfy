/** Accepting a connection, also from an endpoint that is registered already. */
module ManagerAccepting {
  import opened Common
  import opened SlotPool
  import opened ManagerModel
  import opened ManagerInvariant
  import opened ManagerCallbacks
  import opened ManagerScheduling

  /** The category of the peer registered under an endpoint. */
  function RegisteredAs(s: Manager, from: Endpoint): Category {
    if from in s.peers && HasSlot(s, s.peers[from]) then CategoryOf(PeerAt(s, s.peers[from])) else Vacant
  }

  /** The peer an accepted connection gets. */
  function Guest(from: Endpoint, descriptor: nat): Peer {
    BLANK.(socket := Some(descriptor), store := Some(from), interest := Reading, timer := Some(CONNECT_TIMEOUT),
           contact := Contact(from, None), state := Handshaking, source := TcpServer)
  }

  lemma GuestShape(from: Endpoint, descriptor: nat)
    ensures var g := Guest(from, descriptor);
            Shape(g) && CategoryOf(g) == Outbound && AttemptsOf(g) == 0 && g.contact.endpoint == from
  {
  }

  // The structural part.

  /** A slot in any use but CONNECTED can be vacated at once; a ticket it has becomes stale. */
  lemma VacateDirectly(c: Core, holes: set<nat>, j: nat)
    requires Intact(c, holes) && j in c.pool.occupied && j !in holes
    requires CategoryOf(At(c, j)) != Live
    ensures Intact(Vacated(c, j), holes)
  {
    var d := Vacated(c, j);
    assert SlotOk(c, j);
    VacatedLogOk(c, j);
    VacatedPool(c, j);
    VacatedQueuesDirectly(c, holes, j);
    forall k | 0 <= k < POOL_SIZE && k !in holes ensures SlotOk(d, k) {
      VacatedSlotOk(c, j, k);
    }
    hide SlotOk, LogOk, PeersOk, TicketsOk, ConnectsOk;
  }

  lemma VacatedQueuesDirectly(c: Core, holes: set<nat>, j: nat)
    requires TicketsOk(c, holes) && ConnectsOk(c, holes)
    requires j < |c.pool.slots| && CategoryOf(At(c, j)) != Live
    ensures TicketsOk(Vacated(c, j), holes) && ConnectsOk(Vacated(c, j), holes)
  {
  }

  lemma VacatedKeepsFresh(c: Core, i: nat, j: nat)
    requires i < |c.pool.slots| && j < |c.pool.slots| && i != j && Fresh(c, i)
    ensures Fresh(Vacated(c, j), i)
  {
    LogAppended(c.log, Released(j, Gen(c, j)), i, Gen(c, i));
  }

  /** A fresh slot is registered for the guest. */
  lemma GuestKeeps(c: Core, i: nat, g: Peer)
    requires i < POOL_SIZE && Intact(c, {i}) && Fresh(c, i) && g.contact.endpoint !in c.peers
    requires Shape(g) && CategoryOf(g) == Outbound && AttemptsOf(g) == 0
    ensures Intact(Enlisted(c, i, g), {})
  {
    FreshAttempts(c, i);
    HoleIsOccupied(c, i);
    hide Intact, Fresh, Shape;
    EnlistKeeps(c, i, g);
    assert SlotOk(Enlisted(c, i, g), i);
    CloseHole(Enlisted(c, i, g), i);
  }

  // What accept_peer_connection does, in these terms.

  lemma AcceptNewForm(s: Manager, from: Endpoint)
    requires s.pool.available != [] && HasSlot(s, NextSlot(s.pool)) && PeerAt(s, NextSlot(s.pool)) == BLANK
    requires from !in s.peers
    ensures var t := AcceptOne(s, Accepted(from)); var i := NextSlot(s.pool);
            && CoreOf(t) == Enlisted(Acquired(CoreOf(s)), i, Guest(from, s.nextDescriptor))
            && t.crashed == s.crashed && t.handshake == s.handshake && t.infoHash == s.infoHash
            && t.cache == s.cache
            && t.pool.slots == s.pool.slots[i := Slot(Guest(from, s.nextDescriptor), GenerationAt(s, i))]
            && t.statistics == s.statistics.(outboundInflight := Inc(s.statistics.outboundInflight))
  {
  }

  /** The state in which the old peer of a registered endpoint is torn down. */
  function BeforeReplacing(s: Manager, from: Endpoint): Manager
    requires s.pool.available != []
  {
    s.(nextDescriptor := s.nextDescriptor + 1, open := s.open + {s.nextDescriptor},
       statistics := s.statistics.(outboundInflight := Inc(s.statistics.outboundInflight)),
       pool := AfterAcquire(s.pool))
  }

  lemma VacatedIgnoresPeer(c: Core, p: Peer, j: nat)
    requires j < |c.pool.slots| && p.contact == At(c, j).contact
    ensures Vacated(Put(c, j, p), j) == Vacated(c, j)
  {
    assert Vacated(Put(c, j, p), j).pool.slots == Vacated(c, j).pool.slots;
  }

  lemma ReplaceForm(s: Manager, j: nat, from: Endpoint, i: nat)
    requires HasSlot(s, j) && PeerAt(s, j).state != Connected && j in s.pool.occupied
    requires PeerAt(s, j).contact.endpoint == from
    ensures var t := ReplaceRegistered(s, j, from, i);
            && CoreOf(t) == Vacated(CoreOf(s), j).(peers := s.peers[from := i])
            && t.crashed == s.crashed && t.handshake == s.handshake && t.infoHash == s.infoHash && t.cache == s.cache
            && t.statistics == Resolve(s, PeerAt(s, j).source).statistics
  {
    hide DeletePeer;
    var p := PeerAt(s, j);
    var s1 := Resolve(CloseSocket(s, j), p.source);
    assert CoreOf(s1) == Put(CoreOf(s), j, p.(socket := None));
    DeleteCore(s1, j);
    hide Vacated;
    VacatedIgnoresPeer(CoreOf(s), p.(socket := None), j);
    VacatedPeers(CoreOf(s), j);
    assert (s.peers - {from})[from := i] == s.peers[from := i];
  }

  lemma VacatedPeers(c: Core, j: nat)
    requires j < |c.pool.slots|
    ensures Vacated(c, j).peers == c.peers - {At(c, j).contact.endpoint}
  {
  }

  lemma AcceptOldForm(s: Manager, from: Endpoint)
    requires s.pool.available != [] && HasSlot(s, NextSlot(s.pool)) && PeerAt(s, NextSlot(s.pool)) == BLANK
    requires from in s.peers
    ensures var j, i := s.peers[from], NextSlot(s.pool);
            var r := ReplaceRegistered(BeforeReplacing(s, from), j, from, i);
            && HasSlot(r, i)
            && (PeerAt(r, i) == BLANK ==> AcceptOne(s, Accepted(from)) == WithPeer(r, i, Guest(from, s.nextDescriptor)))
            && AcceptOne(s, Accepted(from)).crashed == r.crashed
  {
    hide ReplaceRegistered;
  }

  lemma RegisteredSlot(s: Manager, from: Endpoint)
    requires Steady(s) && from in s.peers
    ensures var j := s.peers[from];
            && HasSlot(s, j) && j < POOL_SIZE && j in s.pool.occupied && PeerAt(s, j).contact.endpoint == from
            && RegisteredAs(s, from) == CategoryOf(PeerAt(s, j)) != Vacant && Shape(PeerAt(s, j))
            && !s.crashed && Sized(s) && |s.pool.slots| == POOL_SIZE
  {
    assert SlotOk(CoreOf(s), s.peers[from]);
  }

  lemma NotConnected(s: Manager, from: Endpoint)
    requires Steady(s) && s.pool.available != [] && from in s.peers && RegisteredAs(s, from) != Live
    ensures HasSlot(s, s.peers[from]) && PeerAt(s, s.peers[from]).state != Connected
    ensures s.peers[from] != NextSlot(s.pool)
  {
    FreeSlot(s);
    RegisteredSlot(s, from);
  }

  lemma EnlistedGuest(r: Manager, d: Core, from: Endpoint, i: nat, g: Peer)
    requires i < |d.pool.slots| && CoreOf(r) == d.(peers := r.peers) && r.peers[from := i] == r.peers
    requires r.peers == d.peers[from := i] && g.contact.endpoint == from
    ensures CoreOf(WithPeer(r, i, g)) == Enlisted(d, i, g)
  {
  }

  lemma ReplacedCore(s: Manager, from: Endpoint, i: nat, j: nat)
    requires s.pool.available != [] && i == NextSlot(s.pool) && HasSlot(s, i) && HasSlot(s, j) && i != j
    requires PeerAt(s, i) == BLANK && PeerAt(s, j).state != Connected && j in s.pool.occupied
    requires PeerAt(s, j).contact.endpoint == from
    ensures var r := ReplaceRegistered(BeforeReplacing(s, from), j, from, i);
            var d := Vacated(Acquired(CoreOf(s)), j);
            && CoreOf(r) == d.(peers := r.peers) && r.peers == d.peers[from := i]
            && HasSlot(r, i) && PeerAt(r, i) == BLANK
            && r.crashed == s.crashed && r.handshake == s.handshake && r.infoHash == s.infoHash && r.cache == s.cache
            && r.statistics == Resolve(BeforeReplacing(s, from), PeerAt(s, j).source).statistics
  {
    var b := BeforeReplacing(s, from);
    assert CoreOf(b) == Acquired(CoreOf(s)) && PeerAt(b, j) == PeerAt(s, j);
    ReplaceForm(b, j, from, i);
    hide ReplaceRegistered;
    var d := Vacated(CoreOf(b), j);
    assert d.peers[from := i] == s.peers[from := i];
    assert d.pool.slots[i].value == BLANK;
  }

  /** `AcceptOldForm` with the replacement spelled out. */
  lemma AcceptOldCore(s: Manager, from: Endpoint)
    requires Steady(s) && s.pool.available != [] && from in s.peers && RegisteredAs(s, from) != Live
    ensures var t := AcceptOne(s, Accepted(from)); var i, j := NextSlot(s.pool), s.peers[from];
            && HasSlot(s, i) && HasSlot(s, j) && i != j && j in s.pool.occupied
            && PeerAt(s, i) == BLANK && |s.pool.slots| == POOL_SIZE
            && CoreOf(t) == Enlisted(Vacated(Acquired(CoreOf(s)), j), i, Guest(from, s.nextDescriptor))
            && !t.crashed && t.handshake == s.handshake && t.infoHash == s.infoHash && t.cache == s.cache
            && t.statistics == Resolve(BeforeReplacing(s, from), PeerAt(s, j).source).statistics
  {
    hide Steady, Sized, Shape, AcceptOne, ReplaceRegistered, BeforeReplacing, Guest;
    FreeSlot(s);
    RegisteredSlot(s, from);
    NotConnected(s, from);
    var i, j := NextSlot(s.pool), s.peers[from];
    ReplacedCore(s, from, i, j);
    AcceptOldForm(s, from);
    GuestShape(from, s.nextDescriptor);
    var r := ReplaceRegistered(BeforeReplacing(s, from), j, from, i);
    EnlistedGuest(r, Vacated(Acquired(CoreOf(s)), j), from, i, Guest(from, s.nextDescriptor));
  }

  lemma AcceptOldSlots(s: Manager, from: Endpoint)
    requires Steady(s) && s.pool.available != [] && from in s.peers && RegisteredAs(s, from) != Live
    ensures var t := AcceptOne(s, Accepted(from)); var i, j := NextSlot(s.pool), s.peers[from];
            && i < POOL_SIZE && j < POOL_SIZE && i != j && |s.pool.slots| == POOL_SIZE && PeerAt(s, i) == BLANK
            && t.pool.slots == s.pool.slots[j := Slot(BLANK, GenerationAt(s, j) + 1)]
                                           [i := Slot(Guest(from, s.nextDescriptor), GenerationAt(s, i))]
            && t.retryQueue == s.retryQueue && t.cache == s.cache
            && t.statistics == Resolve(BeforeReplacing(s, from), PeerAt(s, j).source).statistics
  {
    hide Steady, AcceptOne, Guest, BeforeReplacing, Resolve;
    AcceptOldCore(s, from);
  }

  lemma AcceptNewKeeps(s: Manager, from: Endpoint)
    requires Steady(s) && s.pool.available != [] && from !in s.peers
    ensures Steady(AcceptOne(s, Accepted(from)))
  {
    FreeSlot(s);
    AcceptNewForm(s, from);
    AcquireKeeps(CoreOf(s));
    GuestShape(from, s.nextDescriptor);
    hide Intact, Fresh, Shape, AcceptOne, Guest;
    GuestKeeps(Acquired(CoreOf(s)), NextSlot(s.pool), Guest(from, s.nextDescriptor));
  }

  lemma AcceptOldKeeps(s: Manager, from: Endpoint)
    requires Steady(s) && s.pool.available != [] && from in s.peers && RegisteredAs(s, from) != Live
    ensures Steady(AcceptOne(s, Accepted(from)))
  {
    AcceptOldCore(s, from);
    var c, i, j := CoreOf(s), NextSlot(s.pool), s.peers[from];
    AcquireKeeps(c);
    GuestShape(from, s.nextDescriptor);
    RegisteredSlot(s, from);
    hide Intact, Fresh, Shape, AcceptOne, Guest;
    VacateDirectly(Acquired(c), {i}, j);
    VacatedKeepsFresh(Acquired(c), i, j);
    GuestKeeps(Vacated(Acquired(c), j), i, Guest(from, s.nextDescriptor));
  }

  // Crashes and counters.

  /** A registered peer that is connected still owns its socket, and tearing it down asserts. */
  lemma AcceptConnectedCrashes(s: Manager, from: Endpoint)
    requires Steady(s) && s.pool.available != [] && from in s.peers && RegisteredAs(s, from) == Live
    ensures AcceptOne(s, Accepted(from)).crashed
  {
    hide Steady, AcceptOne, Shape, DeletePeer;
    FreeSlot(s);
    LiveHasSocket(s, from);
    AcceptOldForm(s, from);
    var b, j := BeforeReplacing(s, from), s.peers[from];
    assert PeerAt(b, j) == PeerAt(s, j);
    TeardownCrashes(b, j);
  }

  lemma LiveHasSocket(s: Manager, from: Endpoint)
    requires Steady(s) && from in s.peers && RegisteredAs(s, from) == Live
    ensures var j := s.peers[from];
            HasSlot(s, j) && PeerAt(s, j).socket.Some? && PeerAt(s, j).state == Connected
  {
    RegisteredSlot(s, from);
  }

  lemma TeardownCrashes(s: Manager, j: nat)
    requires HasSlot(s, j) && PeerAt(s, j).socket.Some?
    ensures DeletePeer(s, j).crashed
  {
  }

  lemma AcceptNewCounts(s: Manager, from: Endpoint)
    requires Steady(s) && Counted(s) && s.pool.available != [] && from !in s.peers
    ensures Counted(AcceptOne(s, Accepted(from)))
  {
    FreeSlot(s);
    AcceptNewForm(s, from);
    LiveTickets(s);
    GuestShape(from, s.nextDescriptor);
    hide Steady, AcceptOne, Guest, Shape;
    var i := NextSlot(s.pool);
    CountedAfter(s, AcceptOne(s, Accepted(from)), i, Slot(Guest(from, s.nextDescriptor), GenerationAt(s, i)));
  }

  /** The counters once an in-flight peer has made way: its own count goes down, the guest's goes up. */
  lemma ReplacedStatistics(s: Manager, source: Source, category: Category)
    requires Counted(s) && |s.pool.slots| == POOL_SIZE
    requires category == if source == TcpServer then Outbound else Inbound
    requires Count(s.pool.slots, category) > 0
    ensures Resolve(s.(statistics := s.statistics.(outboundInflight := Inc(s.statistics.outboundInflight))), source).statistics
         == Moved(Moved(s.statistics, category, Vacant), Vacant, Outbound)
  {
    CountBound(s.pool.slots, Outbound);
  }

  lemma ResolveStatistics(s: Manager, from: Endpoint, source: Source)
    requires s.pool.available != []
    ensures Resolve(BeforeReplacing(s, from), source).statistics ==
      Resolve(s.(statistics := s.statistics.(outboundInflight := Inc(s.statistics.outboundInflight))), source).statistics
  {
  }

  lemma CountPositive(slots: seq<Slot<Peer>>, i: nat)
    requires i < |slots| && CategoryOf(slots[i].value) != Vacant
    ensures Count(slots, CategoryOf(slots[i].value)) > 0
  {
    CountUpdate(slots, i, Slot(BLANK, 0), CategoryOf(slots[i].value));
  }

  lemma AcceptInFlightCounts(s: Manager, from: Endpoint)
    requires Steady(s) && Counted(s) && s.pool.available != [] && from in s.peers
    requires RegisteredAs(s, from) == Inbound || RegisteredAs(s, from) == Outbound
    ensures Counted(AcceptOne(s, Accepted(from)))
  {
    hide Steady, AcceptOne, Guest, Shape;
    var i, j := NextSlot(s.pool), s.peers[from];
    AcceptOldSlots(s, from);
    RegisteredSlot(s, from);
    LiveTickets(s);
    GuestShape(from, s.nextDescriptor);
    CountPositive(s.pool.slots, j);
    ReplacedStatistics(s, PeerAt(s, j).source, CategoryOf(PeerAt(s, j)));
    ResolveStatistics(s, from, PeerAt(s, j).source);
    hide CategoryOf, Counted, Moved, Resolve, BeforeReplacing;
    BothMovesCounted(s, AcceptOne(s, Accepted(from)), i, j,
                     Slot(BLANK, GenerationAt(s, j) + 1), Slot(Guest(from, s.nextDescriptor), GenerationAt(s, i)));
  }

  /** Slot `j` is vacated and slot `i` becomes outbound. */
  lemma BothMovesCounted(s: Manager, t: Manager, i: nat, j: nat, x: Slot<Peer>, y: Slot<Peer>)
    requires Counted(s) && i < POOL_SIZE == |s.pool.slots| && j < POOL_SIZE && i != j
    requires CategoryOf(x.value) == Vacant && CategoryOf(y.value) == Outbound && CategoryOf(PeerAt(s, i)) == Vacant
    requires InFlight(PeerAt(s, j))
    requires t.pool.slots == s.pool.slots[j := x][i := y] && t.retryQueue == s.retryQueue && t.cache == s.cache
    requires t.statistics == Moved(Moved(s.statistics, CategoryOf(PeerAt(s, j)), Vacant), Vacant, Outbound)
    requires forall k :: k in s.retryQueue ==> HasSlot(s, k.slot) && CategoryOf(PeerAt(s, k.slot)) == Retrying
    ensures Counted(t)
  {
    var u := s.(pool := s.pool.(slots := s.pool.slots[j := x]),
                statistics := Moved(s.statistics, CategoryOf(PeerAt(s, j)), Vacant));
    CountedAfter(s, u, j, x);
    CountedAfter(u, t, i, y);
  }

  lemma IdleIsTracker(s: Manager, from: Endpoint)
    requires Steady(s) && from in s.peers
    requires RegisteredAs(s, from) == Waiting || RegisteredAs(s, from) == Retrying
    ensures HasSlot(s, s.peers[from]) && PeerAt(s, s.peers[from]).source == Tracker
  {
    RegisteredSlot(s, from);
  }

  lemma IdleResolves(s: Manager, from: Endpoint)
    requires s.pool.available != []
    ensures Resolve(BeforeReplacing(s, from), Tracker).statistics ==
      s.statistics.(inboundInflight := Dec(s.statistics.inboundInflight),
                    outboundInflight := Inc(s.statistics.outboundInflight))
  {
  }

  /** An old peer that was not in flight is counted as resolved a second time. */
  lemma AcceptIdleMiscounts(s: Manager, from: Endpoint)
    requires Steady(s) && Counted(s) && s.pool.available != [] && from in s.peers
    requires RegisteredAs(s, from) == Waiting || RegisteredAs(s, from) == Retrying
    ensures !Counted(AcceptOne(s, Accepted(from)))
  {
    hide Steady, AcceptOne, Guest, Shape, Resolve, BeforeReplacing;
    var i, j := NextSlot(s.pool), s.peers[from];
    AcceptOldSlots(s, from);
    RegisteredSlot(s, from);
    GuestShape(from, s.nextDescriptor);
    IdleIsTracker(s, from);
    IdleResolves(s, from);
    var x, y := Slot(BLANK, GenerationAt(s, j) + 1), Slot(Guest(from, s.nextDescriptor), GenerationAt(s, i));
    var t := AcceptOne(s, Accepted(from));
    assert t.statistics.inboundInflight == Dec(s.statistics.inboundInflight);
    CountUpdate(s.pool.slots, j, x, Inbound);
    CountUpdate(s.pool.slots[j := x], i, y, Inbound);
  }

  /**
   * Accepting is safe and exact in these cases and no others: it trips an assertion exactly when the
   * endpoint is registered to a connected peer, and otherwise leaves every counter right exactly when
   * the endpoint is new or its old peer's attempt is in flight.
   */
  lemma AcceptExactly(s: Manager, from: Endpoint)
    requires Steady(s) && Counted(s) && s.pool.available != []
    ensures var t := AcceptOne(s, Accepted(from)); var old_ := RegisteredAs(s, from);
            && (t.crashed <==> old_ == Live)
            && (!t.crashed ==> Steady(t))
            && (!t.crashed && Counted(t) <==> from !in s.peers || old_ == Inbound || old_ == Outbound)
  {
    if from !in s.peers {
      AcceptNewKeeps(s, from);
      AcceptNewCounts(s, from);
    } else {
      RegisteredSlot(s, from);
      var old_ := RegisteredAs(s, from);
      if old_ == Live {
        AcceptConnectedCrashes(s, from);
      } else {
        AcceptOldKeeps(s, from);
        if old_ == Inbound || old_ == Outbound { AcceptInFlightCounts(s, from); } else { AcceptIdleMiscounts(s, from); }
      }
    }
    hide Intact, Counted, AcceptOne;
  }

  // Any accept outcome.

  /** One accepted connection meets no registered endpoint, or one whose attempt is in flight. */
  predicate MeetsInFlight(s: Manager, o: AcceptOutcome) {
    o.Accepted? && s.pool.available != [] && o.from in s.peers ==>
      RegisteredAs(s, o.from) == Inbound || RegisteredAs(s, o.from) == Outbound
  }

  /** One accepted connection does not meet a connected peer. */
  predicate MissesConnected(s: Manager, o: AcceptOutcome) {
    o.Accepted? && s.pool.available != [] ==> RegisteredAs(s, o.from) != Live
  }

  lemma AcceptNothing(s: Manager, o: AcceptOutcome)
    requires !o.Accepted? || s.pool.available == []
    ensures Steady(s) ==> Steady(AcceptOne(s, o))
    ensures Counted(s) ==> Counted(AcceptOne(s, o))
  {
    assert CoreOf(AcceptOne(s, o)) == CoreOf(s);
    hide Intact;
  }

  lemma AcceptStep(s: Manager, o: AcceptOutcome)
    requires Steady(s) && MissesConnected(s, o)
    ensures Steady(AcceptOne(s, o))
  {
    hide Steady, AcceptOne;
    if o.Accepted? && s.pool.available != [] {
      if o.from in s.peers { AcceptOldKeeps(s, o.from); } else { AcceptNewKeeps(s, o.from); }
    } else {
      AcceptNothing(s, o);
    }
  }

  lemma AcceptStepCounts(s: Manager, o: AcceptOutcome)
    requires Steady(s) && Counted(s) && MeetsInFlight(s, o)
    ensures MissesConnected(s, o) && Counted(AcceptOne(s, o))
  {
    hide Steady, AcceptOne, Counted;
    if o.Accepted? && s.pool.available != [] {
      if o.from in s.peers { AcceptInFlightCounts(s, o.from); } else { AcceptNewCounts(s, o.from); }
    } else {
      AcceptNothing(s, o);
    }
  }
}
