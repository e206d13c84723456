/** How far the in-flight and connected counters can go. */
module ManagerBounds {
  import opened Common
  import opened ManagerModel
  import opened ManagerInvariant
  import opened ManagerCallbacks
  import opened ManagerScheduling
  import opened ManagerAccepting
  import Handshake
  import OverwritableCache

  /** The limits, and the dispatch queue that never has to drop an update. */
  ghost predicate Bounded(s: Manager) {
    && s.statistics.inboundInflight <= MAX_INBOUND_INFLIGHT
    && s.statistics.outboundInflight <= MAX_OUTBOUND_INFLIGHT
    && s.statistics.connected <= HEALTHY_PEERS
    && |s.connects| == s.statistics.connected
  }

  predicate DownOrSame(m: nat, n: nat) { m == n || m == Dec(n) }

  /** No attempt was begun, and a peer was dispatched only if `dispatched`. */
  predicate Winds(s: Manager, t: Manager, dispatched: bool) {
    && DownOrSame(t.statistics.inboundInflight, s.statistics.inboundInflight)
    && DownOrSame(t.statistics.outboundInflight, s.statistics.outboundInflight)
    && t.statistics.connected == (if dispatched then Inc(s.statistics.connected) else s.statistics.connected)
    && |t.connects| == |s.connects| + if dispatched then 1 else 0
  }

  lemma WindsStaysBounded(s: Manager, t: Manager, dispatched: bool)
    requires Bounded(s) && Winds(s, t, dispatched) && (dispatched ==> !MetQuota(s))
    requires Counted(t) && |t.pool.slots| == POOL_SIZE
    ensures Bounded(t)
  {
    CountBound(t.pool.slots, Inbound);
    CountBound(t.pool.slots, Outbound);
  }

  lemma DeleteWinds(s: Manager, i: nat)
    requires HasSlot(s, i)
    ensures DeletePeer(s, i).statistics == s.statistics && DeletePeer(s, i).connects == s.connects
  {
  }

  lemma HandleFailureWinds(s: Manager, i: nat)
    requires HasSlot(s, i)
    ensures Winds(s, HandleFailure(s, i), false)
  {
    var p := PeerAt(s, i);
    if p.failures + 1 >= MAX_RETRIES || p.source == TcpServer {
      assert HandleFailure(s, i) == DeletePeer(FailedAndClosed(s, i), i);
      hide DeletePeer, HandleFailure;
      DeleteWinds(FailedAndClosed(s, i), i);
    }
  }

  lemma HardDeleteWinds(s: Manager, i: nat)
    requires HasSlot(s, i)
    ensures Winds(s, HardDelete(s, i), false)
  {
    hide DeletePeer;
    DeleteWinds(Resolve(CloseSocket(s, i), PeerAt(s, i).source), i);
  }

  lemma DispatchWinds(s: Manager, i: nat)
    requires HasSlot(s, i)
    ensures Winds(s, Dispatch(s, i), true)
  {
  }

  lemma TimerWinds(s: Manager, i: nat)
    requires HasSlot(s, i)
    ensures Winds(s, TimerCallback(s, i), false)
  {
    var s1 := Assert(WithPeer(s, i, PeerAt(s, i).(timer := None)), PeerAt(s, i).state != Connected);
    HandleFailureWinds(s1, i);
    hide HandleFailure;
  }

  /** Winds, with or without a dispatch. */
  predicate WindsOnce(s: Manager, t: Manager) { Winds(s, t, false) || Winds(s, t, true) }

  lemma TransportInitiationWinds(s: Manager, i: nat, writable: bool, io: Io)
    requires HasSlot(s, i) && Sized(s) && !s.crashed && PeerAt(s, i).send == []
    ensures Winds(s, TransportInitiation(s, i, writable, io), false)
  {
    hide HandleFailure;
    HandleFailureWinds(s, i);
    if writable && io.socketError == 0 {
      TransportInitiationForm(s, i, io);
      HandleFailureWinds(WithPeer(s, i, Greeted(PeerAt(s, i), s.handshake, io.send)), i);
      hide TransportInitiation, Greeted;
    }
  }

  lemma FinishSendWinds(s: Manager, i: nat, o: SendOutcome)
    requires HasSlot(s, i)
    ensures WindsOnce(s, FinishSend(s, i, o))
  {
    hide HandleFailure, Dispatch;
    HandleFailureWinds(SendMessages(s, i, o), i);
    DispatchWinds(SendMessages(s, i, o), i);
  }

  lemma RespondWinds(s: Manager, i: nat, o: SendOutcome)
    requires HasSlot(s, i) && Sized(s) && !s.crashed && PeerAt(s, i).send == [] && PeerAt(s, i).state == Handshaking
    ensures WindsOnce(s, Respond(s, i, o))
  {
    hide HandleFailure, Dispatch, Respond, Greeted;
    RespondForm(s, i, o);
    var g := WithPeer(s, i, Greeted(PeerAt(s, i), s.handshake, o));
    HandleFailureWinds(g, i);
    DispatchWinds(g, i);
  }

  lemma ReadingSendsNothing(p: Peer)
    requires Shape(p) && InFlight(p) && p.interest == Reading && p.state == Handshaking
    ensures p.send == [] && |p.recv| < Handshake.LENGTH
  {
  }

  lemma ReceiveHandshakeWinds(s: Manager, i: nat, io: Io)
    requires HasSlot(s, i) && Sized(s) && !s.crashed && Shape(PeerAt(s, i)) && InFlight(PeerAt(s, i))
    requires PeerAt(s, i).state == Handshaking && PeerAt(s, i).interest == Reading
    ensures WindsOnce(s, ReceiveHandshake(s, i, io))
  {
    hide HandleFailure, HardDelete, Dispatch, Respond, ReceiveHandshake, Shape, Taken, RecvBroken, Handshake.Decoded;
    var p := PeerAt(s, i);
    ReadingSendsNothing(p);
    ReceiveHandshakeForm(s, i, io);
    var h := WithPeer(s, i, Heard(p, s.infoHash, io.recv));
    HandleFailureWinds(WithPeer(s, i, p.(recv := p.recv + Taken(p.recv, io.recv), heard := Listened(p.heard, io.recv))), i);
    HardDeleteWinds(h, i);
    DispatchWinds(h, i);
    if p.source == TcpServer { RespondWinds(h, i, io.send); }
  }

  lemma SocketWinds(s: Manager, i: nat, broken: bool, writable: bool, readable: bool, io: Io)
    requires HasSlot(s, i) && Sized(s) && !s.crashed && Shape(PeerAt(s, i))
    requires Fires(PeerAt(s, i), broken, writable, readable)
    ensures var t := SocketCallback(s, i, broken, writable, readable, io);
            Winds(s, t, false) || (Winds(s, t, true) && !MetQuota(s))
  {
    SocketForm(s, i, broken, writable, readable, io);
    var p := PeerAt(s, i);
    assert p.state == Transport ==> p.send == [];
    hide SocketCallback, HandleFailure, HardDelete, TransportInitiation, FinishSend, ReceiveHandshake, Shape;
    HardDeleteWinds(s, i);
    HandleFailureWinds(s, i);
    if !MetQuota(s) && !broken {
      if p.state == Transport {
        TransportInitiationWinds(s, i, writable, io);
      } else if writable {
        FinishSendWinds(s, i, io.send);
      } else if readable {
        ReceiveHandshakeWinds(s, i, io);
      }
    }
  }

  lemma {:induction false} DrainWinds(s: Manager, contacts: seq<Contact>)
    ensures Winds(s, Drain(s, contacts), false)
    decreases |contacts|
  {
    if contacts != [] {
      var t := s.(cache := OverwritableCache.Pushed(s.cache, contacts[0], CACHE_SIZE),
                  statistics := s.statistics.(
                    inCache := if s.statistics.inCache < CACHE_SIZE then s.statistics.inCache + 1 else s.statistics.inCache));
      DrainWinds(t, contacts[1..]);
    }
  }

  /** The round robin stops at the limit of attempts in flight. */
  lemma {:induction false} RoundRobinBound(s: Manager, net: seq<ConnectOutcome>)
    requires Bounded(s)
    ensures Bounded(RoundRobin(s, net))
    decreases Budget(s), Unmarked(s.empties), Distance(s.current, s.empties)
  {
    if s.statistics.inboundInflight < MAX_INBOUND_INFLIGHT {
      DrainCacheInflight(s, net);
      FailedInflight(s, net);
      hide DrainCache, FailedScheduler;
      var r := Turn(s, net);
      if !AllEmpty(r.manager.empties) {
        TurnProgress(s, net);
        hide Turn;
        RoundRobinBound(r.manager, r.net);
      }
    }
  }

  /** What accepting does to the counters that have a limit. */
  predicate Admits(s: Manager, t: Manager) {
    && DownOrSame(t.statistics.inboundInflight, s.statistics.inboundInflight)
    && DownOrSame(t.statistics.outboundInflight, Inc(s.statistics.outboundInflight))
    && t.statistics.connected == s.statistics.connected && t.connects == s.connects
  }

  lemma AcceptNewAdmits(s: Manager, from: Endpoint)
    requires Steady(s) && s.pool.available != [] && from !in s.peers
    ensures Admits(s, AcceptOne(s, Accepted(from)))
  {
    hide Steady, AcceptOne;
    FreeSlot(s);
    AcceptNewForm(s, from);
    var t := AcceptOne(s, Accepted(from));
    assert CoreOf(t).connects == s.connects;
  }

  lemma AcceptOldAdmits(s: Manager, from: Endpoint)
    requires Steady(s) && s.pool.available != [] && from in s.peers && RegisteredAs(s, from) != Live
    ensures Admits(s, AcceptOne(s, Accepted(from)))
  {
    hide Steady, AcceptOne, Guest;
    AcceptOldCore(s, from);
    var t := AcceptOne(s, Accepted(from));
    assert CoreOf(t).connects == s.connects;
  }

  /** Below the limit, an accept that meets a new endpoint or an attempt in flight keeps every limit. */
  lemma AcceptBound(s: Manager, o: AcceptOutcome)
    requires Steady(s) && Counted(s) && Bounded(s) && s.statistics.outboundInflight < MAX_OUTBOUND_INFLIGHT
    requires MeetsInFlight(s, o)
    ensures Bounded(AcceptOne(s, o))
  {
    hide Steady, Counted, AcceptOne;
    AcceptStepCounts(s, o);
    AcceptStep(s, o);
    CountsBounded(AcceptOne(s, o));
    if o.Accepted? && s.pool.available != [] {
      if o.from in s.peers { AcceptOldAdmits(s, o.from); } else { AcceptNewAdmits(s, o.from); }
    } else {
      NothingAdmitted(s, o);
    }
  }

  lemma NothingAdmitted(s: Manager, o: AcceptOutcome)
    requires !o.Accepted? || s.pool.available == []
    ensures AcceptOne(s, o).statistics == s.statistics && AcceptOne(s, o).connects == s.connects
  {
  }

  lemma CountsBounded(s: Manager)
    requires Steady(s) && Counted(s)
    ensures s.statistics.inboundInflight <= POOL_SIZE && s.statistics.outboundInflight <= POOL_SIZE
  {
    CountBound(s.pool.slots, Inbound);
    CountBound(s.pool.slots, Outbound);
  }

  /** One that replaces a FAILED or queued peer keeps them exactly when some attempt is in flight to be miscounted. */
  lemma AcceptIdleBound(s: Manager, from: Endpoint)
    requires Steady(s) && Bounded(s) && s.statistics.outboundInflight < MAX_OUTBOUND_INFLIGHT
    requires s.pool.available != [] && from in s.peers
    requires RegisteredAs(s, from) == Waiting || RegisteredAs(s, from) == Retrying
    ensures var t := AcceptOne(s, Accepted(from));
            && t.statistics.inboundInflight == Dec(s.statistics.inboundInflight)
            && (Bounded(t) <==> s.statistics.inboundInflight > 0)
  {
    hide Steady, AcceptOne, Resolve, BeforeReplacing;
    AcceptOldAdmits(s, from);
    AcceptOldSlots(s, from);
    IdleIsTracker(s, from);
    IdleResolves(s, from);
  }
}
