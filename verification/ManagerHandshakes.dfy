/** What has gone over a peer's socket: the handshake sent, and the handshake heard. */
module ManagerHandshakes {
  import opened Common
  import opened SlotPool
  import opened ManagerModel
  import opened ManagerInvariant
  import opened ManagerCallbacks
  import opened ManagerScheduling
  import opened ManagerAccepting
  import opened ManagerOutcomes
  import opened ManagerLoops
  import opened ManagerServing
  import opened ManagerRuns
  import Handshake

  /** What the socket took and what still waits are together the encoded part of the handshake. */
  predicate Told(p: Peer, handshake: seq<byte>) {
    |handshake| == 68 && p.cursor <= 68 && p.taken + p.send == handshake[..p.cursor]
  }

  /** What was heard is a whole handshake for our torrent, and the peer goes by the id that came with it. */
  predicate Met(p: Peer, infoHash: seq<byte>) {
    && |p.heard| == 68 && p.heard[0] == 19 && p.heard[28..48] == infoHash
    && p.contact.peerId == Some(p.heard[48..68])
  }

  predicate Spoken(p: Peer, handshake: seq<byte>, infoHash: seq<byte>) {
    match CategoryOf(p)
    case Inbound => Told(p, handshake) && p.heard == p.recv
    case Outbound =>
      && Told(p, handshake)
      && (p.interest == Reading ==> p.cursor == 0 && p.heard == p.recv)
      && (p.interest == Writing ==> Met(p, infoHash))
    case Live => Told(p, handshake) && Met(p, infoHash)
    case _ => true
  }

  ghost predicate Talks(s: Manager) {
    forall i: nat :: i < |s.pool.slots| ==> Spoken(PeerAt(s, i), s.handshake, s.infoHash)
  }

  /** Our handshake and torrent are still the same, too. */
  ghost predicate StillTalks(s: Manager, t: Manager) {
    Talks(t) && t.handshake == s.handshake && t.infoHash == s.infoHash
  }

  /** Only slot `i` has a new occupant or a changed one. */
  lemma OneSlotTalks(s: Manager, t: Manager, i: nat, x: Slot<Peer>)
    requires Talks(s) && HasSlot(s, i) && t.pool.slots == s.pool.slots[i := x]
    requires t.handshake == s.handshake && t.infoHash == s.infoHash && Spoken(x.value, s.handshake, s.infoHash)
    ensures StillTalks(s, t)
  {
    forall j: nat | j < |t.pool.slots| ensures Spoken(PeerAt(t, j), t.handshake, t.infoHash) {
      assert HasSlot(s, j);
      assert Spoken(PeerAt(s, j), s.handshake, s.infoHash);
    }
    hide Spoken;
  }

  lemma SameSlotsTalk(s: Manager, t: Manager)
    requires Talks(s) && t.pool.slots == s.pool.slots && t.handshake == s.handshake && t.infoHash == s.infoHash
    ensures StillTalks(s, t)
  {
    forall j: nat | j < |t.pool.slots| ensures Spoken(PeerAt(t, j), t.handshake, t.infoHash) {
      assert HasSlot(s, j);
      assert Spoken(PeerAt(s, j), s.handshake, s.infoHash);
    }
    hide Spoken;
  }

  lemma BlankSpoken(handshake: seq<byte>, infoHash: seq<byte>)
    ensures Spoken(BLANK, handshake, infoHash)
  {
  }

  // The ends of an event.

  lemma RetiredTalks(s: Manager, t: Manager, i: nat)
    requires Talks(s) && HasSlot(s, i) && Retired(s, t, i)
    ensures StillTalks(s, t)
  {
    BlankSpoken(s.handshake, s.infoHash);
    OneSlotTalks(s, t, i, t.pool.slots[i]);
  }

  lemma PostponedTalks(s: Manager, t: Manager, i: nat)
    requires Talks(s) && HasSlot(s, i) && Postponed(s, t, i) && PeerAt(s, i).source == Tracker
    ensures StillTalks(s, t)
  {
    assert CategoryOf(PeerAt(t, i)) == CategoryOf(Plain(PeerAt(t, i))) == Waiting;
    hide Talks;
    OneSlotTalks(s, t, i, t.pool.slots[i]);
  }

  lemma FailsTalks(s: Manager, t: Manager, i: nat)
    requires Talks(s) && HasSlot(s, i) && Fails(s, t, i)
    ensures StillTalks(s, t)
  {
    hide Retired, Postponed, Talks;
    if PeerAt(s, i).source == Tracker && PeerAt(s, i).failures < 2 {
      PostponedTalks(s, t, i);
    } else {
      RetiredTalks(s, t, i);
    }
  }

  lemma JoinsTalks(s: Manager, t: Manager, i: nat, q: Peer)
    requires Talks(s) && HasSlot(s, i) && Joins(s, t, i, q) && q.source != NoSource
    requires Told(q, s.handshake) && Met(q, s.infoHash)
    ensures StillTalks(s, t)
  {
    hide Talks;
    OneSlotTalks(s, t, i, t.pool.slots[i]);
  }

  lemma GoesOnTalks(s: Manager, t: Manager, i: nat, q: Peer)
    requires Talks(s) && HasSlot(s, i) && GoesOn(s, t, i, q) && Spoken(q, s.handshake, s.infoHash)
    ensures StillTalks(s, t)
  {
    hide Talks, Spoken;
    OneSlotTalks(s, t, i, t.pool.slots[i]);
  }

  // Sending.

  lemma TakingTells(q: Peer, handshake: seq<byte>, o: SendOutcome)
    requires Told(q, handshake)
    ensures Told(AfterTaking(q, o), handshake)
  {
    var r := AfterTaking(q, o);
    assert r.taken + r.send == q.taken + (q.send[..BytesTaken(q.send, o)] + q.send[BytesTaken(q.send, o)..]);
  }

  /** `q` is in the middle of a handshake that it has begun to send. */
  predicate Saying(q: Peer, handshake: seq<byte>, infoHash: seq<byte>) {
    && Told(q, handshake) && q.state == Handshaking
    && (q.source == Tracker ==> q.heard == q.recv)
    && (q.source == TcpServer ==> q.cursor == 68 && Met(q, infoHash))
    && (q.source == Tracker || q.source == TcpServer)
  }

  lemma SendingTalks(s: Manager, t: Manager, i: nat, q: Peer, o: SendOutcome)
    requires Talks(s) && HasSlot(s, i) && AfterSending(s, t, i, q, o) && Saying(q, s.handshake, s.infoHash)
    ensures StillTalks(s, t)
  {
    TakingTells(q, s.handshake, o);
    hide Talks, Fails, GoesOn, Joins;
    var r := AfterTaking(q, o);
    if o.SendFails? {
      FailsTalks(s, t, i);
    } else if r.send != [] {
      assert Spoken(r.(interest := Writing), s.handshake, s.infoHash);
      GoesOnTalks(s, t, i, r.(interest := Writing));
    } else if q.source == Tracker {
      assert Spoken(r.(interest := Reading), s.handshake, s.infoHash);
      GoesOnTalks(s, t, i, r.(interest := Reading));
    } else {
      JoinsTalks(s, t, i, r);
    }
  }

  lemma GreetingSays(p: Peer, handshake: seq<byte>, infoHash: seq<byte>)
    requires Shape(p) && InFlight(p) && Spoken(p, handshake, infoHash) && p.source == Tracker && p.state == Transport
    ensures Saying(Greeting(p, handshake), handshake, infoHash)
  {
    assert p.taken == p.taken + p.send == [];
    assert handshake[..68] == handshake;
  }

  lemma WritingSays(p: Peer, handshake: seq<byte>, infoHash: seq<byte>)
    requires Shape(p) && InFlight(p) && Spoken(p, handshake, infoHash)
    requires p.interest == Writing && p.state == Handshaking
    ensures Saying(p, handshake, infoHash)
  {
  }

  // Receiving.

  lemma HoldingSpoken(p: Peer, handshake: seq<byte>, infoHash: seq<byte>, o: RecvOutcome)
    requires Shape(p) && InFlight(p) && Spoken(p, handshake, infoHash) && p.interest == Reading && !o.RecvFails?
    ensures var m := if o.Arrived? then UpTo68(p.recv + o.data) else p.recv;
            Spoken(Holding(p, m, o), handshake, infoHash)
  {
  }

  lemma IntroducedKnows(p: Peer, handshake: seq<byte>, infoHash: seq<byte>, data: seq<byte>)
    requires Shape(p) && InFlight(p) && Spoken(p, handshake, infoHash) && p.interest == Reading
    requires var m := UpTo68(p.recv + data); |m| == 68 && m[0] == 19 && m[28..48] == infoHash
    ensures var q := Introduced(p, UpTo68(p.recv + data), Arrived(data));
            && Met(q, infoHash)
            && (p.source == Tracker ==> Told(q, handshake))
            && (p.source == TcpServer ==> Saying(Greeting(q, handshake), handshake, infoHash))
  {
    if p.source == TcpServer {
      assert p.taken == p.taken + p.send == [];
      assert handshake[..68] == handshake;
    }
  }

  lemma ReadingTalks(s: Manager, t: Manager, i: nat, io: Io)
    requires Talks(s) && HasSlot(s, i) && AfterReading(s, t, i, io)
    requires Shape(PeerAt(s, i)) && InFlight(PeerAt(s, i)) && PeerAt(s, i).interest == Reading
    ensures StillTalks(s, t)
  {
    var p := PeerAt(s, i);
    InUseForms(p);
    assert Spoken(p, s.handshake, s.infoHash);
    hide Talks, Fails, GoesOn, Joins, Retired, AfterSending, Shape, Spoken, CategoryOf, Saying, Met, Told, Holding,
         Introduced, Greeting;
    if io.recv.RecvFails? || io.recv == Arrived([]) {
      FailsTalks(s, t, i);
    } else {
      HoldingSpoken(p, s.handshake, s.infoHash, io.recv);
      if io.recv.RecvAgain? {
        GoesOnTalks(s, t, i, Holding(p, p.recv, io.recv));
      } else {
        var m := UpTo68(p.recv + io.recv.data);
        if |m| < 68 {
          GoesOnTalks(s, t, i, Holding(p, m, io.recv));
        } else if m[0] != 19 || m[28..48] != s.infoHash {
          RetiredTalks(s, t, i);
        } else {
          IntroducedKnows(p, s.handshake, s.infoHash, io.recv.data);
          var q := Introduced(p, m, io.recv);
          IntroducedSource(p, m, io.recv);
          if p.source == Tracker {
            JoinsTalks(s, t, i, q);
          } else {
            SendingTalks(s, t, i, Greeting(q, s.handshake), io.send);
          }
        }
      }
    }
  }

  lemma IntroducedSource(p: Peer, m: seq<byte>, o: RecvOutcome)
    requires |m| == 68
    ensures Introduced(p, m, o).source == p.source
  {
  }

  // Every step.

  lemma SocketTalks(s: Manager, i: nat, broken: bool, writable: bool, readable: bool, io: Io)
    requires Steady(s) && Talks(s) && i < POOL_SIZE && HasSlot(s, i) && Fires(PeerAt(s, i), broken, writable, readable)
    ensures |s.handshake| == 68 && StillTalks(s, SocketCallback(s, i, broken, writable, readable, io))
  {
    InUse(s, i);
    var p := PeerAt(s, i);
    assert Spoken(p, s.handshake, s.infoHash);
    hide Steady, Talks, Fails, Retired, AfterSending, AfterReading, Shape, Spoken, SocketCallback, Saying, Greeting,
         Usual;
    SocketOutcome(s, i, broken, writable, readable, io);
    var t := SocketCallback(s, i, broken, writable, readable, io);
    if s.statistics.connected >= 50 {
      RetiredTalks(s, t, i);
    } else if broken {
      FailsTalks(s, t, i);
    } else if writable && p.state == Transport {
      InUseForms(p);
      if io.socketError != 0 {
        FailsTalks(s, t, i);
      } else {
        GreetingSays(p, s.handshake, s.infoHash);
        SendingTalks(s, t, i, Greeting(p, s.handshake), io.send);
      }
    } else if writable {
      WritingSays(p, s.handshake, s.infoHash);
      SendingTalks(s, t, i, p, io.send);
    } else if readable {
      ReadingTalks(s, t, i, io);
    }
  }

  lemma TimerTalks(s: Manager, i: nat)
    requires Steady(s) && Talks(s) && i < POOL_SIZE && HasSlot(s, i) && PeerAt(s, i).timer.Some?
    ensures StillTalks(s, TimerCallback(s, i))
  {
    hide Fails, Talks, TimerCallback;
    TimerOutcome(s, i);
    ShapeAt(s, i);
    var p, t := PeerAt(s, i), TimerCallback(s, i);
    hide Steady, Shape;
    if CategoryOf(p) == Waiting {
      OneSlotTalks(s, t, i, Slot(p.(state := Transport, timer := None), GenerationAt(s, i)));
    } else {
      FailsTalks(s, t, i);
    }
  }

  // Scheduling.

  lemma AttemptSpoken(p: Peer, descriptor: nat, o: ConnectOutcome, handshake: seq<byte>, infoHash: seq<byte>)
    requires ReadyPeer(p) && |handshake| == 68
    ensures Spoken(Attempt(p, descriptor, o), handshake, infoHash)
  {
  }

  lemma ContactTalks(s: Manager, o: ConnectOutcome)
    requires Steady(s) && Talks(s) && s.cache != [] && s.pool.available != []
    ensures HasSlot(s, NextSlot(s.pool)) && StillTalks(s, TryDiscovered(s, o))
  {
    hide Steady, Talks, TryDiscovered, Spoken, Attempt, ReadyPeer, DiscoveredOpens;
    FreeSlot(s);
    SlotIsFree(s);
    SteadySize(s);
    ContactOutcome(s, o);
    var i, t := NextSlot(s.pool), TryDiscovered(s, o);
    BlankSpoken(s.handshake, s.infoHash);
    var c := s.cache[|s.cache| - 1];
    NewIsReady(c);
    AttemptSpoken(NewContact(c), s.nextDescriptor, o, s.handshake, s.infoHash);
    OneSlotTalks(s, t, i, t.pool.slots[i]);
  }

  lemma {:induction false} DrainCacheTalks(s: Manager, net: seq<ConnectOutcome>)
    requires Steady(s) && Talks(s) && s.pool.available != []
    ensures StillTalks(s, DrainCache(s, net).manager)
    decreases |s.cache|
  {
    if s.cache != [] {
      var o := NextOutcome(net);
      ContactTalks(s, o);
      TryDiscoveredKeeps(s, o);
      TryDiscoveredAvailable(s, o);
      TryDiscoveredInflight(s, o);
      hide Steady, Talks, TryDiscovered, DiscoveredOpens, AfterDiscovered;
      if !DiscoveredOpens(s, o) {
        DrainCacheTalks(TryDiscovered(s, o), AfterDiscovered(s, net));
      }
    }
  }

  lemma RetryTalks(s: Manager, o: ConnectOutcome)
    requires Steady(s) && Talks(s) && s.retryQueue != []
    ensures StillTalks(s, TryFailed(s, o))
  {
    hide Steady, Talks, TryFailed, Spoken, Attempt, ReadyPeer, FrontPasses, Opens;
    SteadySize(s);
    RetryOutcome(s, o);
    var i, t := s.retryQueue[0].slot, TryFailed(s, o);
    BlankSpoken(s.handshake, s.infoHash);
    if !Passes(s, s.retryQueue[0]) {
      SameSlotsTalk(s, t);
    } else {
      FrontIsReady(s);
      AttemptSpoken(PeerAt(s, i), s.nextDescriptor, o, s.handshake, s.infoHash);
      OneSlotTalks(s, t, i, t.pool.slots[i]);
    }
  }

  lemma {:induction false} FailedSchedulerTalks(s: Manager, net: seq<ConnectOutcome>)
    requires Steady(s) && Talks(s)
    ensures StillTalks(s, FailedScheduler(s, net).manager)
    decreases |s.retryQueue|
  {
    hide Steady, Talks, TryFailed, FailedScheduler, Passes, Begins;
    FailedOnce(s, net);
    if s.retryQueue != [] {
      var o := NextOutcome(net);
      RetryTalks(s, o);
      TryFailedKeeps(s, o);
      QueueShrinks(s, o);
      if !(Passes(s, s.retryQueue[0]) && Begins(o)) {
        FailedSchedulerTalks(TryFailed(s, o), if Passes(s, s.retryQueue[0]) then Rest(net) else net);
      }
    }
  }

  lemma TurnTalks(s: Manager, net: seq<ConnectOutcome>)
    requires Steady(s) && Talks(s)
    ensures StillTalks(s, Turn(s, net).manager)
  {
    hide Steady, Talks, DrainCache, FailedScheduler;
    match s.current
    case DiscoveredSpot =>
      if s.pool.available != [] { DrainCacheTalks(s, net); }
      SameSlotsTalk(DiscoveredScheduler(s, net).manager, Turn(s, net).manager);
    case DisconnectedSpot =>
      SameSlotsTalk(s, Turn(s, net).manager);
    case FailedSpot =>
      FailedSchedulerTalks(s, net);
      SameSlotsTalk(FailedScheduler(s, net).manager, Turn(s, net).manager);
  }

  lemma {:induction false} RoundRobinTalks(s: Manager, net: seq<ConnectOutcome>)
    requires Steady(s) && Talks(s)
    ensures StillTalks(s, RoundRobin(s, net))
    decreases Budget(s), Unmarked(s.empties), Distance(s.current, s.empties)
  {
    hide Steady, Talks, Turn;
    if s.statistics.inboundInflight < MAX_INBOUND_INFLIGHT {
      TurnKeeps(s, net);
      TurnTalks(s, net);
      var r := Turn(s, net);
      if !AllEmpty(r.manager.empties) {
        TurnProgress(s, net);
        RoundRobinTalks(r.manager, r.net);
      }
    }
  }

  lemma ScheduleTalks(s: Manager, net: seq<ConnectOutcome>)
    requires Steady(s) && Talks(s)
    ensures StillTalks(s, Schedule(s, net))
  {
    hide Steady, Talks, RoundRobin;
    SchedulerFieldsKeep(s, s.(notified := false));
    SameSlotsTalk(s, s.(notified := false));
    RoundRobinTalks(s.(notified := false), net);
  }

  // Accepting.

  lemma GuestSpoken(from: Endpoint, descriptor: nat, handshake: seq<byte>, infoHash: seq<byte>)
    requires |handshake| == 68
    ensures Spoken(Guest(from, descriptor), handshake, infoHash)
  {
  }

  lemma AcceptTalks(s: Manager, o: AcceptOutcome)
    requires Steady(s) && Talks(s) && MissesConnected(s, o)
    ensures StillTalks(s, AcceptOne(s, o))
  {
    hide Steady, Talks, AcceptOne, Guest, Spoken, CategoryOf;
    var t := AcceptOne(s, o);
    if !o.Accepted? || s.pool.available == [] {
      NothingAccepted(s, o);
      SameSlotsTalk(s, t);
    } else {
      FreeSlot(s);
      SteadySize(s);
      GuestSpoken(o.from, s.nextDescriptor, s.handshake, s.infoHash);
      BlankSpoken(s.handshake, s.infoHash);
      var i := NextSlot(s.pool);
      var y := Slot(Guest(o.from, s.nextDescriptor), GenerationAt(s, i));
      if o.from !in s.peers {
        AcceptNewForm(s, o.from);
        OneSlotTalks(s, t, i, y);
      } else {
        AcceptOldCore(s, o.from);
        AcceptOldSlots(s, o.from);
        var j := s.peers[o.from];
        var u := s.(pool := s.pool.(slots := s.pool.slots[j := Slot(BLANK, GenerationAt(s, j) + 1)]));
        OneSlotTalks(s, u, j, Slot(BLANK, GenerationAt(s, j) + 1));
        OneSlotTalks(u, t, i, y);
      }
    }
  }

  lemma NothingAccepted(s: Manager, o: AcceptOutcome)
    requires !o.Accepted? || s.pool.available == []
    ensures AcceptOne(s, o) == s.(nextDescriptor := AcceptOne(s, o).nextDescriptor)
  {
  }

  lemma {:induction false} ServerTalks(s: Manager, incoming: seq<AcceptOutcome>)
    requires Steady(s) && Talks(s) && AllMissConnected(s, incoming)
    ensures StillTalks(s, ServerCallback(s, incoming))
    decreases |incoming|
  {
    hide Steady, Talks, AcceptOne, MissesConnected;
    if incoming != [] && !MetQuota(s) && s.statistics.outboundInflight < MAX_OUTBOUND_INFLIGHT {
      AcceptStep(s, incoming[0]);
      AcceptTalks(s, incoming[0]);
      if MorePending(s, incoming[0]) { ServerTalks(AcceptOne(s, incoming[0]), incoming[1..]); }
    }
  }

  // Runs.

  lemma StepTalks(s: Manager, e: Event)
    requires Steady(s) && Talks(s) && Enabled(s, e) && Safe(s, e)
    ensures StillTalks(s, Step(s, e))
  {
    hide Steady, Talks, Drain, Schedule, ServerCallback, TimerCallback, SocketCallback;
    match e
    case ContactsDiscovered(contacts) =>
      DrainOutcome(s, contacts);
      SameSlotsTalk(s, Drain(s, contacts));
    case SchedulerWoken(net) => ScheduleTalks(s, net);
    case ServerReadable(incoming) => ServerTalks(s, incoming);
    case TimerExpired(i) => TimerTalks(s, i);
    case SocketReady(i, broken, writable, readable, io) => SocketTalks(s, i, broken, writable, readable, io);
    case DisconnectNotified => SameSlotsTalk(s, Notify(s));
  }

  lemma InitialTalks(handshake: seq<byte>, infoHash: seq<byte>)
    ensures Talks(Initial(handshake, infoHash))
  {
  }

  /** After any safe run, every peer's history fits what it has said and heard. */
  lemma {:induction false} RunTalks(s: Manager, events: seq<Event>)
    requires Steady(s) && Talks(s) && Run(s, events, false)
    ensures StillTalks(s, Exec(s, events, false))
    decreases |events|
  {
    hide Steady, Talks, Step, Safe, Enabled;
    if events != [] {
      StepKeeps(s, events[0]);
      StepTalks(s, events[0]);
      RunTalks(Step(s, events[0]), events[1..]);
    }
  }
}
