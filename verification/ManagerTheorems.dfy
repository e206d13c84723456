/** What holds in every state a run can reach, in the manager's own terms. */
module ManagerTheorems {
  import opened Common
  import opened SlotPool
  import opened ManagerModel
  import opened ManagerInvariant
  import opened ManagerCallbacks
  import opened ManagerDescriptors
  import opened ManagerHandshakes
  import opened ManagerRuns
  import Handshake

  /** Slots with an armed socket watcher. */
  ghost function InFlightFrom(s: Manager, source: Source): set<nat> {
    set i: nat | i in s.pool.occupied && HasSlot(s, i) && PeerAt(s, i).interest != Stopped && PeerAt(s, i).source == source
  }

  ghost function InState(s: Manager, state: State): set<nat> {
    set i: nat | i in s.pool.occupied && HasSlot(s, i) && PeerAt(s, i).state == state
  }

  ghost function Slots(slots: seq<Slot<Peer>>, category: Category): set<nat> {
    Below(slots, category, |slots|)
  }

  ghost function Below(slots: seq<Slot<Peer>>, category: Category, n: nat): set<nat>
    requires n <= |slots|
  {
    set i: nat | i < n && CategoryOf(slots[i].value) == category
  }

  lemma BelowGrows(slots: seq<Slot<Peer>>, category: Category, n: nat)
    requires n < |slots|
    ensures |Below(slots, category, n + 1)| == |Below(slots, category, n)| + One(slots[n].value, category)
  {
    hide CategoryOf;
    var rest := Below(slots, category, n);
    if CategoryOf(slots[n].value) == category {
      assert Below(slots, category, n + 1) == rest + {n} && n !in rest;
    } else {
      assert Below(slots, category, n + 1) == rest;
    }
  }

  lemma {:induction false} CountBelow(slots: seq<Slot<Peer>>, category: Category, n: nat)
    requires n <= |slots|
    ensures Count(slots[..n], category) == |Below(slots, category, n)|
  {
    if n == 0 {
      assert Below(slots, category, 0) == {};
    } else {
      CountBelow(slots, category, n - 1);
      BelowGrows(slots, category, n - 1);
      hide CategoryOf, Below;
      assert slots[..n][..n - 1] == slots[..n - 1];
    }
  }

  lemma CountIsCardinality(slots: seq<Slot<Peer>>, category: Category)
    ensures Count(slots, category) == |Slots(slots, category)|
  {
    CountBelow(slots, category, |slots|);
    assert slots[..|slots|] == slots;
  }

  lemma SlotFacts(s: Manager, i: nat)
    requires Steady(s) && i < POOL_SIZE
    ensures HasSlot(s, i) && Shape(PeerAt(s, i))
    ensures i in s.pool.occupied <==> CategoryOf(PeerAt(s, i)) != Vacant
    ensures i in s.pool.occupied ==>
      PeerAt(s, i).contact.endpoint in s.peers && s.peers[PeerAt(s, i).contact.endpoint] == i
    ensures CategoryOf(PeerAt(s, i)) == Retrying ==> Ticket(i, GenerationAt(s, i)) in s.retryQueue
  {
    assert SlotOk(CoreOf(s), i);
  }

  lemma CategoriesAreStates(s: Manager)
    requires Steady(s)
    ensures InFlightFrom(s, Tracker) == Slots(s.pool.slots, Inbound)
    ensures InFlightFrom(s, TcpServer) == Slots(s.pool.slots, Outbound)
    ensures InState(s, Connected) == Slots(s.pool.slots, Live)
    ensures InState(s, Failed) == Slots(s.pool.slots, Waiting)
  {
    SteadySize(s);
    forall i: nat | i < POOL_SIZE
      ensures i in InFlightFrom(s, Tracker) <==> i in Slots(s.pool.slots, Inbound)
      ensures i in InFlightFrom(s, TcpServer) <==> i in Slots(s.pool.slots, Outbound)
      ensures i in InState(s, Connected) <==> i in Slots(s.pool.slots, Live)
      ensures i in InState(s, Failed) <==> i in Slots(s.pool.slots, Waiting)
    {
      SlotFacts(s, i);
    }
    hide Steady;
  }

  /** The counters say what they are named after, never underflow, and stay within their limits. */
  lemma CountersAreExact(handshake: seq<byte>, infoHash: seq<byte>, events: seq<Event>)
    requires |handshake| == Handshake.LENGTH && |infoHash| == 20
    requires Run(Initial(handshake, infoHash), events, true)
    ensures var s := Exec(Initial(handshake, infoHash), events, true);
            && s.statistics.inboundInflight == |InFlightFrom(s, Tracker)| <= 35
            && s.statistics.outboundInflight == |InFlightFrom(s, TcpServer)| <= 15
            && s.statistics.connected == |InState(s, Connected)| <= 50
            && s.statistics.failed == |InState(s, Failed)|
            && s.statistics.inRetry == |s.retryQueue|
            && s.statistics.inCache == |s.cache| <= 200
  {
    hide Steady;
    InitialExact(handshake, infoHash);
    CoveredRunKeeps(Initial(handshake, infoHash), events);
    var s := Exec(Initial(handshake, infoHash), events, true);
    CategoriesAreStates(s);
    CountIsCardinality(s.pool.slots, Inbound);
    CountIsCardinality(s.pool.slots, Outbound);
    CountIsCardinality(s.pool.slots, Live);
    CountIsCardinality(s.pool.slots, Waiting);
    hide Run, Exec, Owned;
  }

  /** Registered contacts and occupied slots correspond one to one, and the free slots are blank. */
  lemma RegistryIsBijection(handshake: seq<byte>, infoHash: seq<byte>, events: seq<Event>)
    requires |handshake| == Handshake.LENGTH && |infoHash| == 20
    requires Run(Initial(handshake, infoHash), events, false)
    ensures var s := Exec(Initial(handshake, infoHash), events, false);
            && |s.pool.slots| == POOL_SIZE
            && (forall k :: k in s.peers ==>
                HasSlot(s, s.peers[k]) && s.peers[k] in s.pool.occupied && PeerAt(s, s.peers[k]).contact.endpoint == k)
            && (forall i :: i in s.pool.occupied ==>
                && HasSlot(s, i) && PeerAt(s, i).contact.endpoint in s.peers
                && s.peers[PeerAt(s, i).contact.endpoint] == i)
            && Distinct(s.pool.available)
            && (forall i :: 0 <= i < POOL_SIZE ==> (i in s.pool.available <==> i !in s.pool.occupied))
            && (forall i :: i in s.pool.available ==> HasSlot(s, i) && PeerAt(s, i) == BLANK)
  {
    hide Steady, Run, Exec;
    InitialExact(handshake, infoHash);
    SafeRunKeeps(Initial(handshake, infoHash), events);
    RegistryOf(Exec(Initial(handshake, infoHash), events, false));
  }

  lemma RegistryOf(s: Manager)
    requires Steady(s)
    ensures |s.pool.slots| == POOL_SIZE
    ensures forall k :: k in s.peers ==>
      HasSlot(s, s.peers[k]) && s.peers[k] in s.pool.occupied && PeerAt(s, s.peers[k]).contact.endpoint == k
    ensures forall i :: i in s.pool.occupied ==>
      && HasSlot(s, i) && PeerAt(s, i).contact.endpoint in s.peers
      && s.peers[PeerAt(s, i).contact.endpoint] == i
    ensures Distinct(s.pool.available)
    ensures forall i :: 0 <= i < POOL_SIZE ==> (i in s.pool.available <==> i !in s.pool.occupied)
    ensures forall i :: i in s.pool.available ==> HasSlot(s, i) && PeerAt(s, i) == BLANK
  {
    forall i | 0 <= i < POOL_SIZE
      ensures i in s.pool.occupied ==>
        && HasSlot(s, i) && PeerAt(s, i).contact.endpoint in s.peers && s.peers[PeerAt(s, i).contact.endpoint] == i
      ensures i !in s.pool.occupied ==> HasSlot(s, i) && PeerAt(s, i) == BLANK
    {
      SlotFacts(s, i);
    }
    hide SlotOk;
  }

  /**
   * No assertion fails: after any run and any further step that accepts no connected peer's endpoint.
   * Connected peers have no watcher that could call back, and no other occupied slot is ever stranded
   * without a running timer or a place in the retry queue.
   */
  lemma NoAssertionFails(handshake: seq<byte>, infoHash: seq<byte>, events: seq<Event>)
    requires |handshake| == Handshake.LENGTH && |infoHash| == 20
    requires Run(Initial(handshake, infoHash), events, false)
    ensures var s := Exec(Initial(handshake, infoHash), events, false);
            && !s.crashed && |s.pool.slots| == POOL_SIZE
            && (forall e :: Enabled(s, e) && Safe(s, e) ==> !Step(s, e).crashed)
            && (forall i :: 0 <= i < POOL_SIZE && PeerAt(s, i).state == Connected ==>
                PeerAt(s, i).interest == Stopped && PeerAt(s, i).timer == None)
            && (forall i :: 0 <= i < POOL_SIZE && i in s.pool.occupied && PeerAt(s, i).state != Connected ==>
                PeerAt(s, i).timer.Some? || Ticket(i, GenerationAt(s, i)) in s.retryQueue)
  {
    hide Steady, Run, Exec, Step, Enabled, Safe;
    InitialExact(handshake, infoHash);
    SafeRunKeeps(Initial(handshake, infoHash), events);
    var s := Exec(Initial(handshake, infoHash), events, false);
    SteadySize(s);
    forall e | Enabled(s, e) && Safe(s, e) ensures !Step(s, e).crashed {
      StepKeeps(s, e);
      SteadySize(Step(s, e));
    }
    forall i | 0 <= i < POOL_SIZE
      ensures PeerAt(s, i).state == Connected ==> PeerAt(s, i).interest == Stopped && PeerAt(s, i).timer == None
      ensures i in s.pool.occupied && PeerAt(s, i).state != Connected ==>
        PeerAt(s, i).timer.Some? || Ticket(i, GenerationAt(s, i)) in s.retryQueue
    {
      SlotFacts(s, i);
    }
  }

  /**
   * Retry tickets across generations. A popped ticket passes the generation check exactly when its
   * occupancy had not ended. The queuing of every ticket is on record. A ticket of the present
   * occupancy is the only one, and its slot still holds the tracker contact it was queued for, and no
   * other, with a closed socket. No occupancy tries to connect more than three times.
   */
  lemma RetriesAreSafe(handshake: seq<byte>, infoHash: seq<byte>, events: seq<Event>)
    requires |handshake| == Handshake.LENGTH && |infoHash| == 20
    requires Run(Initial(handshake, infoHash), events, false)
    ensures var s := Exec(Initial(handshake, infoHash), events, false);
            && (forall j :: 0 <= j < |s.log| && s.log[j].Popped? ==>
                (s.log[j].passed <==> Released(s.log[j].slot, s.log[j].generation) !in s.log[..j]))
            && Distinct(s.retryQueue)
            && (forall t :: t in s.retryQueue ==> HasSlot(s, t.slot) && OnRecord(s.log, t))
            && (forall t :: t in s.retryQueue && t.generation == GenerationAt(s, t.slot) ==>
                && PeerAt(s, t.slot).socket == None && PeerAt(s, t.slot).source == Tracker
                && PeerAt(s, t.slot).state == Transport
                && (forall e :: Queued(t.slot, t.generation, e) in s.log <==> PeerAt(s, t.slot).contact.endpoint == e))
            && (forall i: nat, g: nat :: multiset(s.log)[Attempted(i, g)] <= 3)
  {
    hide Steady, Run, Exec;
    InitialExact(handshake, infoHash);
    SafeRunKeeps(Initial(handshake, infoHash), events);
    TicketsOf(Exec(Initial(handshake, infoHash), events, false));
  }

  lemma TicketsOf(s: Manager)
    requires Steady(s)
    ensures PopsOk(s.log) && Distinct(s.retryQueue)
    ensures forall t :: t in s.retryQueue ==> HasSlot(s, t.slot) && OnRecord(s.log, t)
    ensures forall t :: t in s.retryQueue && t.generation == GenerationAt(s, t.slot) ==>
      && PeerAt(s, t.slot).socket == None && PeerAt(s, t.slot).source == Tracker && PeerAt(s, t.slot).state == Transport
      && (forall e :: Queued(t.slot, t.generation, e) in s.log <==> PeerAt(s, t.slot).contact.endpoint == e)
    ensures forall i: nat, g: nat :: multiset(s.log)[Attempted(i, g)] <= 3
  {
    forall i: nat, g: nat ensures multiset(s.log)[Attempted(i, g)] <= 3 {
      assert Attempts(s.log, i, g) <= MAX_RETRIES;
    }
    forall t | t in s.retryQueue && t.generation == GenerationAt(s, t.slot)
      ensures PeerAt(s, t.slot).socket == None && PeerAt(s, t.slot).source == Tracker && PeerAt(s, t.slot).state == Transport
    {
      SlotFacts(s, t.slot);
    }
  }

  /** In a covered run no ticket is stale. */
  lemma NoTicketIsStale(handshake: seq<byte>, infoHash: seq<byte>, events: seq<Event>)
    requires |handshake| == Handshake.LENGTH && |infoHash| == 20
    requires Run(Initial(handshake, infoHash), events, true)
    ensures var s := Exec(Initial(handshake, infoHash), events, true);
            forall t :: t in s.retryQueue ==> HasSlot(s, t.slot) && t.generation == GenerationAt(s, t.slot)
  {
    hide Steady, Run, Exec;
    InitialExact(handshake, infoHash);
    CoveredRunKeeps(Initial(handshake, infoHash), events);
  }

  /**
   * Every dispatched peer gets one update with its own socket and generation, and there are never more
   * than the 50 the dispatch queue has room for, so the ignored result of the push is always success.
   */
  lemma DispatchesAreDelivered(handshake: seq<byte>, infoHash: seq<byte>, events: seq<Event>)
    requires |handshake| == Handshake.LENGTH && |infoHash| == 20
    requires Run(Initial(handshake, infoHash), events, true)
    ensures var s := Exec(Initial(handshake, infoHash), events, true);
            && |s.connects| == s.statistics.connected <= CONNECTS_CAPACITY
            && (forall u :: u in s.connects ==>
                && HasSlot(s, u.slot) && PeerAt(s, u.slot).state == Connected && u.generation == GenerationAt(s, u.slot)
                && u.socket == PeerAt(s, u.slot).socket && u.socket.Some?)
            && (forall j, k :: 0 <= j < k < |s.connects| ==> s.connects[j].slot != s.connects[k].slot)
  {
    hide Steady, Run, Exec, Counted, Owned;
    InitialExact(handshake, infoHash);
    CoveredRunKeeps(Initial(handshake, infoHash), events);
    ConnectsOf(Exec(Initial(handshake, infoHash), events, true));
  }

  lemma ConnectsOf(s: Manager)
    requires Steady(s)
    ensures forall u :: u in s.connects ==>
      && HasSlot(s, u.slot) && PeerAt(s, u.slot).state == Connected && u.generation == GenerationAt(s, u.slot)
      && u.socket == PeerAt(s, u.slot).socket && u.socket.Some?
    ensures forall j, k :: 0 <= j < k < |s.connects| ==> s.connects[j].slot != s.connects[k].slot
  {
    forall u | u in s.connects
      ensures HasSlot(s, u.slot) && u.generation == GenerationAt(s, u.slot) && u.socket == PeerAt(s, u.slot).socket
      ensures PeerAt(s, u.slot).state == Connected && u.socket.Some?
    {
      assert u in CoreOf(s).connects;
      SlotFacts(s, u.slot);
    }
  }

  /** The open descriptors are the sockets of the in-flight and connected slots, each held once. */
  lemma NoDescriptorLeaks(handshake: seq<byte>, infoHash: seq<byte>, events: seq<Event>)
    requires |handshake| == Handshake.LENGTH && |infoHash| == 20
    requires Run(Initial(handshake, infoHash), events, true)
    ensures var s := Exec(Initial(handshake, infoHash), events, true);
            && |s.pool.slots| == POOL_SIZE
            && (forall fd :: fd in s.open <==> exists i :: 0 <= i < POOL_SIZE && PeerAt(s, i).socket == Some(fd))
            && (forall i, j :: 0 <= i < j < POOL_SIZE && PeerAt(s, i).socket.Some? ==>
                PeerAt(s, i).socket != PeerAt(s, j).socket)
            && (forall i :: 0 <= i < POOL_SIZE ==>
                (PeerAt(s, i).socket.Some? <==> PeerAt(s, i).interest != Stopped || PeerAt(s, i).state == Connected))
  {
    hide Steady, Run, Exec, Counted;
    InitialExact(handshake, infoHash);
    CoveredRunKeeps(Initial(handshake, infoHash), events);
    var s := Exec(Initial(handshake, infoHash), events, true);
    SteadySize(s);
    forall i | 0 <= i < POOL_SIZE
      ensures PeerAt(s, i).socket.Some? <==> PeerAt(s, i).interest != Stopped || PeerAt(s, i).state == Connected
    {
      SlotFacts(s, i);
    }
    SocketsOf(s);
    hide Owned;
  }

  lemma SocketsOf(s: Manager)
    requires Owned(s) && |s.pool.slots| == POOL_SIZE
    ensures forall fd :: fd in s.open <==> exists i :: 0 <= i < POOL_SIZE && PeerAt(s, i).socket == Some(fd)
    ensures forall i, j :: 0 <= i < j < POOL_SIZE && PeerAt(s, i).socket.Some? ==>
      PeerAt(s, i).socket != PeerAt(s, j).socket
  {
    var k := Sockets(s);
    forall fd ensures fd in s.open <==> exists i :: 0 <= i < POOL_SIZE && PeerAt(s, i).socket == Some(fd) {
      if fd in s.open {
        var i :| 0 <= i < |k| && k[i] == Some(fd);
        assert PeerAt(s, i).socket == Some(fd);
      }
      if i :| 0 <= i < POOL_SIZE && PeerAt(s, i).socket == Some(fd) {
        assert k[i] == Some(fd);
      }
    }
    forall i, j | 0 <= i < j < POOL_SIZE && PeerAt(s, i).socket.Some?
      ensures PeerAt(s, i).socket != PeerAt(s, j).socket
    {
      assert k[i] != k[j];
    }
  }

  /**
   * What a connected peer was sent, by the record of what its socket took. It is the whole handshake, except for a
   * peer whose `connect` succeeded at once: to that one nothing was ever encoded.
   */
  lemma HandshakesAreSent(handshake: seq<byte>, infoHash: seq<byte>, events: seq<Event>)
    requires |handshake| == Handshake.LENGTH && |infoHash| == 20
    requires Run(Initial(handshake, infoHash), events, false)
    ensures var s := Exec(Initial(handshake, infoHash), events, false);
            && |s.pool.slots| == POOL_SIZE
            && forall i :: 0 <= i < POOL_SIZE && PeerAt(s, i).state == Connected ==>
              var p := PeerAt(s, i);
              && p.send == []
              && (p.taken == handshake <==> p.source == TcpServer || !p.atOnce)
              && (p.taken == [] <==> p.source == Tracker && p.atOnce)
  {
    hide Steady, Run, Exec, Talks;
    InitialExact(handshake, infoHash);
    InitialTalks(handshake, infoHash);
    SafeRunKeeps(Initial(handshake, infoHash), events);
    RunTalks(Initial(handshake, infoHash), events);
    var s := Exec(Initial(handshake, infoHash), events, false);
    SteadySize(s);
    forall i | 0 <= i < POOL_SIZE && PeerAt(s, i).state == Connected
      ensures PeerAt(s, i).send == []
      ensures PeerAt(s, i).taken == if PeerAt(s, i).source == Tracker && PeerAt(s, i).atOnce then [] else handshake
      ensures PeerAt(s, i).source == Tracker || PeerAt(s, i).source == TcpServer
    {
      ConnectedTalks(s, i);
    }
  }

  lemma ConnectedTalks(s: Manager, i: nat)
    requires Steady(s) && Talks(s) && i < POOL_SIZE && HasSlot(s, i) && PeerAt(s, i).state == Connected
    ensures var p := PeerAt(s, i);
            && p.send == [] && (p.source == Tracker || p.source == TcpServer)
            && p.taken == (if p.source == Tracker && p.atOnce then [] else s.handshake)
            && Met(p, s.infoHash)
  {
    SlotFacts(s, i);
    assert Spoken(PeerAt(s, i), s.handshake, s.infoHash);
    hide Steady, Talks, Met;
    var p := PeerAt(s, i);
    assert p.taken == p.taken + p.send;
    assert s.handshake[..68] == s.handshake;
  }

  /**
   * What a connected peer said, by the record of what its socket brought: a whole handshake with our protocol's
   * length byte and our info hash, and the peer is known by the id in it.
   */
  lemma HandshakesAreHeard(handshake: seq<byte>, infoHash: seq<byte>, events: seq<Event>)
    requires |handshake| == Handshake.LENGTH && |infoHash| == 20
    requires Run(Initial(handshake, infoHash), events, false)
    ensures var s := Exec(Initial(handshake, infoHash), events, false);
            && |s.pool.slots| == POOL_SIZE
            && forall i :: 0 <= i < POOL_SIZE && PeerAt(s, i).state == Connected ==>
              var p := PeerAt(s, i);
              && |p.heard| == 68 && p.heard[0] == 19 && p.heard[28..48] == infoHash
              && p.contact.peerId == Some(p.heard[48..68])
  {
    hide Steady, Run, Exec, Talks;
    InitialExact(handshake, infoHash);
    InitialTalks(handshake, infoHash);
    SafeRunKeeps(Initial(handshake, infoHash), events);
    RunTalks(Initial(handshake, infoHash), events);
    var s := Exec(Initial(handshake, infoHash), events, false);
    SteadySize(s);
    forall i | 0 <= i < POOL_SIZE && PeerAt(s, i).state == Connected
      ensures Met(PeerAt(s, i), infoHash)
    {
      ConnectedTalks(s, i);
    }
  }

  /** A peer that is waiting for the rest of a handshake has in its ring all that has come since it was opened. */
  lemma NothingHeardIsLost(handshake: seq<byte>, infoHash: seq<byte>, events: seq<Event>)
    requires |handshake| == Handshake.LENGTH && |infoHash| == 20
    requires Run(Initial(handshake, infoHash), events, false)
    ensures var s := Exec(Initial(handshake, infoHash), events, false);
            && |s.pool.slots| == POOL_SIZE
            && forall i :: 0 <= i < POOL_SIZE && PeerAt(s, i).interest == Reading ==>
              PeerAt(s, i).heard == PeerAt(s, i).recv && |PeerAt(s, i).recv| < 68
  {
    hide Steady, Run, Exec, Talks;
    InitialExact(handshake, infoHash);
    InitialTalks(handshake, infoHash);
    SafeRunKeeps(Initial(handshake, infoHash), events);
    RunTalks(Initial(handshake, infoHash), events);
    var s := Exec(Initial(handshake, infoHash), events, false);
    SteadySize(s);
    forall i | 0 <= i < POOL_SIZE && PeerAt(s, i).interest == Reading
      ensures PeerAt(s, i).heard == PeerAt(s, i).recv && |PeerAt(s, i).recv| < 68
    {
      ReadingHears(s, i);
    }
  }

  lemma ReadingHears(s: Manager, i: nat)
    requires Steady(s) && Talks(s) && i < POOL_SIZE && HasSlot(s, i) && PeerAt(s, i).interest == Reading
    ensures PeerAt(s, i).heard == PeerAt(s, i).recv && |PeerAt(s, i).recv| < 68
  {
    SlotFacts(s, i);
    assert Spoken(PeerAt(s, i), s.handshake, s.infoHash);
    hide Steady, Talks;
  }
}
