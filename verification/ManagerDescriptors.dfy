/** No descriptor leaks and none is shared: each open one is the socket of exactly one slot. */
module ManagerDescriptors {
  import opened Common
  import opened SlotPool
  import opened ManagerModel
  import opened ManagerInvariant
  import opened ManagerCallbacks
  import opened ManagerScheduling
  import opened ManagerAccepting
  import OverwritableCache

  function Sockets(s: Manager): (k: seq<Option<nat>>)
    ensures |k| == |s.pool.slots| && forall i :: 0 <= i < |k| ==> k[i] == s.pool.slots[i].value.socket
  {
    seq(|s.pool.slots|, i requires 0 <= i < |s.pool.slots| => s.pool.slots[i].value.socket)
  }

  ghost predicate Owned(s: Manager) {
    var k := Sockets(s);
    && (forall fd :: fd in s.open ==> fd < s.nextDescriptor && Some(fd) in k)
    && (forall i :: 0 <= i < |k| && k[i].Some? ==> k[i].value in s.open)
    && (forall i, j :: 0 <= i < j < |k| && k[i].Some? ==> k[i] != k[j])
  }

  // The three things a step can do to the descriptors.

  ghost predicate Holds(s: Manager, t: Manager) {
    Sockets(t) == Sockets(s) && t.open == s.open && t.nextDescriptor >= s.nextDescriptor
  }

  ghost predicate Closes(s: Manager, t: Manager, i: nat) {
    && i < |s.pool.slots| && Sockets(s)[i].Some?
    && Sockets(t) == Sockets(s)[i := None] && t.open == s.open - {Sockets(s)[i].value}
    && t.nextDescriptor == s.nextDescriptor
  }

  ghost predicate Gains(s: Manager, t: Manager, i: nat) {
    && i < |s.pool.slots| && Sockets(s)[i] == None
    && Sockets(t) == Sockets(s)[i := Some(s.nextDescriptor)] && t.open == s.open + {s.nextDescriptor}
    && t.nextDescriptor == s.nextDescriptor + 1
  }

  lemma HoldsKeepsOwned(s: Manager, t: Manager)
    requires Owned(s) && Holds(s, t)
    ensures Owned(t)
  {
  }

  lemma ClosesKeepsOwned(s: Manager, t: Manager, i: nat)
    requires Owned(s) && Closes(s, t, i)
    ensures Owned(t)
  {
    var k := Sockets(s);
    forall fd | fd in t.open ensures Some(fd) in Sockets(t) {
      var j :| 0 <= j < |k| && k[j] == Some(fd);
      assert Sockets(t)[j] == Some(fd);
    }
  }

  lemma GainsKeepsOwned(s: Manager, t: Manager, i: nat)
    requires Owned(s) && Gains(s, t, i)
    ensures Owned(t)
  {
    var k := Sockets(s);
    assert Sockets(t)[i] == Some(s.nextDescriptor);
    forall fd | fd in t.open ensures Some(fd) in Sockets(t) {
      if fd != s.nextDescriptor {
        var j :| 0 <= j < |k| && k[j] == Some(fd);
        assert Sockets(t)[j] == Some(fd);
      }
    }
  }

  ghost predicate HoldsOrCloses(s: Manager, t: Manager, i: nat) { Holds(s, t) || Closes(s, t, i) }

  lemma HoldsOrClosesKeepsOwned(s: Manager, t: Manager, i: nat)
    requires Owned(s) && HoldsOrCloses(s, t, i)
    ensures Owned(t)
  {
    hide Owned, Holds, Closes;
    if Holds(s, t) { HoldsKeepsOwned(s, t); } else { ClosesKeepsOwned(s, t, i); }
  }

  // Callbacks on one peer.

  lemma WithPeerSockets(s: Manager, i: nat, p: Peer)
    requires HasSlot(s, i)
    ensures Sockets(WithPeer(s, i, p)) == Sockets(s)[i := p.socket]
  {
  }

  lemma DeleteHolds(s: Manager, i: nat)
    requires HasSlot(s, i)
    ensures Sockets(DeletePeer(s, i)) == Sockets(s)
    ensures DeletePeer(s, i).open == s.open && DeletePeer(s, i).nextDescriptor == s.nextDescriptor
  {
  }

  lemma HandleFailureCloses(s: Manager, i: nat)
    requires HasSlot(s, i)
    ensures HoldsOrCloses(s, HandleFailure(s, i), i)
  {
    var p := PeerAt(s, i);
    var f := FailedAndClosed(s, i);
    assert Sockets(f) == Sockets(s)[i := None];
    if p.failures + 1 >= MAX_RETRIES || p.source == TcpServer {
      assert HandleFailure(s, i) == DeletePeer(f, i);
      hide DeletePeer, HandleFailure;
      DeleteHolds(f, i);
    } else {
      assert Sockets(HandleFailure(s, i)) == Sockets(f);
    }
  }

  lemma HardDeleteCloses(s: Manager, i: nat)
    requires HasSlot(s, i)
    ensures HoldsOrCloses(s, HardDelete(s, i), i)
  {
    var t := Resolve(CloseSocket(s, i), PeerAt(s, i).source);
    assert Sockets(t) == Sockets(s)[i := None];
    hide DeletePeer;
    DeleteHolds(t, i);
  }

  lemma DispatchHolds(s: Manager, i: nat)
    requires HasSlot(s, i)
    ensures Holds(s, Dispatch(s, i))
  {
    assert Sockets(Dispatch(s, i)) == Sockets(s)[i := PeerAt(s, i).socket];
  }

  lemma RewriteHolds(s: Manager, p: Peer, i: nat)
    requires HasSlot(s, i) && p.socket == PeerAt(s, i).socket
    ensures Holds(s, WithPeer(s, i, p))
  {
    assert Sockets(WithPeer(s, i, p)) == Sockets(s);
  }

  lemma TimerCloses(s: Manager, i: nat)
    requires HasSlot(s, i)
    ensures HoldsOrCloses(s, TimerCallback(s, i), i)
  {
    var p := PeerAt(s, i);
    var s1 := Assert(WithPeer(s, i, p.(timer := None)), p.state != Connected);
    assert Sockets(s1) == Sockets(s);
    if p.state == Failed {
      assert Sockets(TimerCallback(s, i)) == Sockets(s);
    } else {
      hide HandleFailure;
      HandleFailureCloses(s1, i);
    }
  }

  lemma RewriteThenFails(s: Manager, p: Peer, i: nat)
    requires HasSlot(s, i) && p.socket == PeerAt(s, i).socket
    ensures HoldsOrCloses(s, HandleFailure(WithPeer(s, i, p), i), i)
  {
    hide HandleFailure;
    RewriteHolds(s, p, i);
    HandleFailureCloses(WithPeer(s, i, p), i);
  }

  lemma RewriteThenDispatches(s: Manager, p: Peer, i: nat)
    requires HasSlot(s, i) && p.socket == PeerAt(s, i).socket
    ensures Holds(s, Dispatch(WithPeer(s, i, p), i))
  {
    hide Dispatch;
    RewriteHolds(s, p, i);
    DispatchHolds(WithPeer(s, i, p), i);
  }

  lemma TransportInitiationCloses(s: Manager, i: nat, writable: bool, io: Io)
    requires HasSlot(s, i) && Sized(s) && !s.crashed && PeerAt(s, i).send == []
    ensures HoldsOrCloses(s, TransportInitiation(s, i, writable, io), i)
  {
    hide HandleFailure, HoldsOrCloses;
    if !writable {
      SelfHolds(s, i);
    } else if io.socketError != 0 {
      HandleFailureCloses(s, i);
    } else {
      TransportInitiationForm(s, i, io);
      var g := Greeted(PeerAt(s, i), s.handshake, io.send);
      RewriteThenFails(s, g, i);
      var interest := if AfterSend(s.handshake, io.send) == [] then Reading else Writing;
      WatchIsWithPeer(s, i, g, interest);
      RewriteHoldsToo(s, g.(interest := interest), i);
      hide TransportInitiation, Greeted;
    }
  }

  lemma SelfHolds(s: Manager, i: nat)
    ensures HoldsOrCloses(s, s, i)
  {
  }

  lemma RewriteHoldsToo(s: Manager, p: Peer, i: nat)
    requires HasSlot(s, i) && p.socket == PeerAt(s, i).socket
    ensures HoldsOrCloses(s, WithPeer(s, i, p), i)
    ensures HoldsOrCloses(s, Dispatch(WithPeer(s, i, p), i), i)
  {
    hide Dispatch, WithPeer;
    RewriteHolds(s, p, i);
    RewriteThenDispatches(s, p, i);
  }

  lemma FinishSendCloses(s: Manager, i: nat, o: SendOutcome)
    requires HasSlot(s, i)
    ensures HoldsOrCloses(s, FinishSend(s, i, o), i)
  {
    hide HandleFailure, Dispatch, HoldsOrCloses, Sending;
    var q := Sending(PeerAt(s, i), o);
    SendingSocket(PeerAt(s, i), o);
    assert SendMessages(s, i, o) == WithPeer(s, i, q);
    WatchIsWithPeer(s, i, q, Reading);
    RewriteThenFails(s, q, i);
    RewriteHoldsToo(s, q, i);
    RewriteHoldsToo(s, q.(interest := Reading), i);
  }

  lemma SendingSocket(p: Peer, o: SendOutcome)
    ensures Sending(p, o).socket == p.socket
  {
  }

  lemma GreetedSocket(p: Peer, handshake: seq<byte>, o: SendOutcome)
    ensures Greeted(p, handshake, o).socket == p.socket
  {
  }

  lemma RespondCloses(s: Manager, p: Peer, i: nat, o: SendOutcome)
    requires HasSlot(s, i) && Sized(s) && !s.crashed && p.socket == PeerAt(s, i).socket
    requires p.send == [] && p.state == Handshaking
    ensures HoldsOrCloses(s, Respond(WithPeer(s, i, p), i, o), i)
  {
    hide HandleFailure, Dispatch, Respond, HoldsOrCloses, Greeted, AfterSend;
    var u := WithPeer(s, i, p);
    RespondForm(u, i, o);
    GreetedSocket(p, s.handshake, o);
    var g := Greeted(p, s.handshake, o);
    assert WithPeer(u, i, g) == WithPeer(s, i, g);
    RewriteThenFails(s, g, i);
    WatchIsWithPeer(s, i, g, Writing);
    RewriteHoldsToo(s, g, i);
    RewriteHoldsToo(s, g.(interest := Writing), i);
  }

  lemma ReceiveHandshakeCloses(s: Manager, i: nat, io: Io)
    requires HasSlot(s, i) && Sized(s) && !s.crashed && Shape(PeerAt(s, i)) && InFlight(PeerAt(s, i))
    requires PeerAt(s, i).state == Handshaking && PeerAt(s, i).interest == Reading
    ensures HoldsOrCloses(s, ReceiveHandshake(s, i, io), i)
  {
    ReceiveHandshakeForm(s, i, io);
    var p := PeerAt(s, i);
    var h := Heard(p, s.infoHash, io.recv);
    assert p.source == TcpServer ==> p.send == [];
    assert p.source == Tracker || p.source == TcpServer;
    hide HandleFailure, HardDelete, Dispatch, Respond, ReceiveHandshake, Shape, HoldsOrCloses;
    RewriteThenFails(s, p.(recv := p.recv + Taken(p.recv, io.recv), heard := Listened(p.heard, io.recv)), i);
    RewriteHoldsToo(s, h, i);
    RewriteThenDeletes(s, h, i);
    if p.source == TcpServer { RespondCloses(s, h, i, io.send); }
  }

  lemma RewriteThenDeletes(s: Manager, p: Peer, i: nat)
    requires HasSlot(s, i) && p.socket == PeerAt(s, i).socket
    ensures HoldsOrCloses(s, HardDelete(WithPeer(s, i, p), i), i)
  {
    hide HardDelete;
    RewriteHolds(s, p, i);
    HardDeleteCloses(WithPeer(s, i, p), i);
  }

  lemma SocketCloses(s: Manager, i: nat, broken: bool, writable: bool, readable: bool, io: Io)
    requires HasSlot(s, i) && Sized(s) && !s.crashed && Shape(PeerAt(s, i))
    requires Fires(PeerAt(s, i), broken, writable, readable)
    ensures HoldsOrCloses(s, SocketCallback(s, i, broken, writable, readable, io), i)
  {
    SocketForm(s, i, broken, writable, readable, io);
    var p := PeerAt(s, i);
    assert p.state == Transport ==> p.send == [];
    hide SocketCallback, HandleFailure, HardDelete, TransportInitiation, FinishSend, ReceiveHandshake, Shape, HoldsOrCloses;
    HardDeleteCloses(s, i);
    HandleFailureCloses(s, i);
    if !MetQuota(s) && !broken {
      if p.state == Transport {
        TransportInitiationCloses(s, i, writable, io);
      } else if writable {
        FinishSendCloses(s, i, io.send);
      } else if readable {
        ReceiveHandshakeCloses(s, i, io);
      } else {
        SelfHolds(s, i);
      }
    }
  }

  // Scheduling.

  lemma {:induction false} DrainHolds(s: Manager, contacts: seq<Contact>)
    ensures Holds(s, Drain(s, contacts))
    decreases |contacts|
  {
    if contacts != [] {
      var t := s.(cache := OverwritableCache.Pushed(s.cache, contacts[0], CACHE_SIZE),
                  statistics := s.statistics.(
                    inCache := if s.statistics.inCache < CACHE_SIZE then s.statistics.inCache + 1 else s.statistics.inCache));
      assert Sockets(t) == Sockets(s);
      DrainHolds(t, contacts[1..]);
    }
  }

  lemma ConnectOrDeleteOwned(s: Manager, i: nat, o: ConnectOutcome)
    requires HasSlot(s, i) && PeerAt(s, i).socket == None && s.nextDescriptor !in s.open
    ensures var t := ConnectOrDelete(s, i, o); Holds(s, t) || Gains(s, t, i)
  {
    var t := InitiateConnect(s, i, o);
    if Opens(s, i, o) {
      assert Sockets(t) == Sockets(s)[i := Some(s.nextDescriptor)];
    } else {
      assert Sockets(t) == Sockets(s);
      assert t.open == s.open;
      hide DeletePeer, InitiateConnect;
      DeleteHolds(t, i);
    }
  }

  lemma KeptOwned(s: Manager, t: Manager, i: nat)
    requires Owned(s) && (Holds(s, t) || Gains(s, t, i))
    ensures Owned(t)
  {
    hide Owned, Holds, Gains;
    if Holds(s, t) { HoldsKeepsOwned(s, t); } else { GainsKeepsOwned(s, t, i); }
  }

  lemma NextIsUnused(s: Manager)
    requires Owned(s)
    ensures s.nextDescriptor !in s.open
  {
  }

  lemma TryDiscoveredOwned(s: Manager, o: ConnectOutcome)
    requires Owned(s) && s.cache != [] && s.pool.available != [] && HasSlot(s, NextSlot(s.pool))
    requires PeerAt(s, NextSlot(s.pool)) == BLANK
    ensures Owned(TryDiscovered(s, o))
  {
    hide Owned;
    var i := NextSlot(s.pool);
    if s.cache[|s.cache| - 1].endpoint in s.peers {
      assert Sockets(TryDiscovered(s, o)) == Sockets(s);
      HoldsKeepsOwned(s, TryDiscovered(s, o));
    } else {
      var e := Enrolled(s);
      assert Sockets(e) == Sockets(s);
      HoldsKeepsOwned(s, e);
      NextIsUnused(e);
      assert TryDiscovered(s, o) == ConnectOrDelete(e, i, o);
      hide TryDiscovered, Enrolled, ConnectOrDelete, Gains, Holds;
      ConnectOrDeleteOwned(e, i, o);
      KeptOwned(e, ConnectOrDelete(e, i, o), i);
    }
  }

  lemma {:induction false} DrainCacheOwned(s: Manager, net: seq<ConnectOutcome>)
    requires Steady(s) && Owned(s) && s.pool.available != []
    ensures Owned(DrainCache(s, net).manager)
    decreases |s.cache|
  {
    hide Steady, Owned, TryDiscovered, DiscoveredOpens, AfterDiscovered;
    if s.cache != [] {
      var o := NextOutcome(net);
      FreeSlot(s);
      TryDiscoveredKeeps(s, o);
      TryDiscoveredAvailable(s, o);
      TryDiscoveredInflight(s, o);
      TryDiscoveredOwned(s, o);
      if !DiscoveredOpens(s, o) {
        DrainCacheOwned(TryDiscovered(s, o), AfterDiscovered(s, net));
      }
    }
  }

  lemma TryFailedOwned(s: Manager, o: ConnectOutcome)
    requires Steady(s) && Owned(s) && s.retryQueue != []
    ensures Owned(TryFailed(s, o))
  {
    hide Steady, Owned, Ready;
    PoppedFrontKeeps(s);
    TryFailedForm(s, o);
    var u, i := PoppedFront(s), s.retryQueue[0].slot;
    assert Sockets(u) == Sockets(s);
    HoldsKeepsOwned(s, u);
    hide TryFailed, PoppedFront, ConnectOrDelete, Gains, Holds;
    if FrontPasses(s) {
      ReadyBasics(u, i);
      NextIsUnused(u);
      ConnectOrDeleteOwned(u, i, o);
      KeptOwned(u, ConnectOrDelete(u, i, o), i);
    }
  }

  lemma {:induction false} FailedSchedulerOwned(s: Manager, net: seq<ConnectOutcome>)
    requires Steady(s) && Owned(s)
    ensures Owned(FailedScheduler(s, net).manager)
    decreases |s.retryQueue|
  {
    hide Steady, Owned, TryFailed;
    if s.retryQueue != [] {
      var o := NextOutcome(net);
      TryFailedKeeps(s, o);
      TryFailedInflight(s, o);
      TryFailedOwned(s, o);
      if !FrontPasses(s) {
        FailedSchedulerOwned(TryFailed(s, o), net);
      } else if !Opens(s, s.retryQueue[0].slot, o) {
        FailedSchedulerOwned(TryFailed(s, o), Rest(net));
      }
    }
  }

  lemma {:induction false} RoundRobinOwned(s: Manager, net: seq<ConnectOutcome>)
    requires Steady(s) && Owned(s)
    ensures Owned(RoundRobin(s, net))
    decreases Budget(s), Unmarked(s.empties), Distance(s.current, s.empties)
  {
    hide Steady, Owned, DrainCache, FailedScheduler;
    if s.statistics.inboundInflight < MAX_INBOUND_INFLIGHT {
      if s.current == DiscoveredSpot && s.pool.available != [] { DrainCacheOwned(s, net); }
      FailedSchedulerOwned(s, net);
      TurnOwned(s, net);
      TurnKeeps(s, net);
      hide Turn;
      var r := Turn(s, net);
      if !AllEmpty(r.manager.empties) {
        TurnProgress(s, net);
        RoundRobinOwned(r.manager, r.net);
      }
    }
  }

  lemma TurnOwned(s: Manager, net: seq<ConnectOutcome>)
    requires Owned(s) && Owned(FailedScheduler(s, net).manager)
    requires s.current == DiscoveredSpot && s.pool.available != [] ==> Owned(DrainCache(s, net).manager)
    ensures Owned(Turn(s, net).manager)
  {
    hide Owned, DrainCache, FailedScheduler;
    match s.current
    case DiscoveredSpot => FieldsOwned(DiscoveredScheduler(s, net).manager, Turn(s, net).manager);
    case DisconnectedSpot => FieldsOwned(s, Turn(s, net).manager);
    case FailedSpot => FieldsOwned(FailedScheduler(s, net).manager, Turn(s, net).manager);
  }

  lemma FieldsOwned(s: Manager, t: Manager)
    requires Owned(s) && t == s.(empties := t.empties, current := t.current, notified := t.notified)
    ensures Owned(t)
  {
    assert Sockets(t) == Sockets(s);
  }

  lemma ScheduleOwned(s: Manager, net: seq<ConnectOutcome>)
    requires Steady(s) && Owned(s)
    ensures Owned(Schedule(s, net))
  {
    hide Steady, Owned, RoundRobin;
    SchedulerFieldsKeep(s, s.(notified := false));
    FieldsOwned(s, s.(notified := false));
    RoundRobinOwned(s.(notified := false), net);
  }

  // Accepting.

  lemma AcceptOwned(s: Manager, o: AcceptOutcome)
    requires Steady(s) && Owned(s)
    requires o.Accepted? && s.pool.available != [] ==> RegisteredAs(s, o.from) != Live
    ensures Owned(AcceptOne(s, o))
  {
    hide Steady, Owned;
    if o.Accepted? && s.pool.available != [] {
      FreeSlot(s);
      if o.from in s.peers {
        AcceptOldOwned(s, o.from);
      } else {
        var t := AcceptOne(s, o);
        assert Sockets(t) == Sockets(s)[NextSlot(s.pool) := Some(s.nextDescriptor)];
        GainsKeepsOwned(s, t, NextSlot(s.pool));
      }
    } else {
      assert Sockets(AcceptOne(s, o)) == Sockets(s);
      HoldsKeepsOwned(s, AcceptOne(s, o));
    }
  }

  lemma ReplaceSockets(s: Manager, j: nat, from: Endpoint, i: nat)
    requires HasSlot(s, j) && PeerAt(s, j).state != Connected
    ensures var r := ReplaceRegistered(s, j, from, i);
            && Sockets(r) == Sockets(s)[j := None] && r.nextDescriptor == s.nextDescriptor
            && r.open == if PeerAt(s, j).socket.Some? then s.open - {PeerAt(s, j).socket.value} else s.open
  {
    var s1 := Resolve(CloseSocket(s, j), PeerAt(s, j).source);
    assert Sockets(s1) == Sockets(s)[j := None];
    hide DeletePeer;
    DeleteHolds(s1, j);
    assert Sockets(ReplaceRegistered(s, j, from, i)) == Sockets(DeletePeer(s1, j));
  }

  lemma AcceptOldSockets(s: Manager, from: Endpoint)
    requires Steady(s) && s.pool.available != [] && from in s.peers && RegisteredAs(s, from) != Live
    ensures var t := AcceptOne(s, Accepted(from)); var i, j := NextSlot(s.pool), s.peers[from];
            && HasSlot(s, i) && HasSlot(s, j) && i != j && PeerAt(s, i).socket == None
            && Sockets(t) == Sockets(s)[j := None][i := Some(s.nextDescriptor)]
            && t.nextDescriptor == s.nextDescriptor + 1
            && t.open == (s.open + {s.nextDescriptor})
                         - (if PeerAt(s, j).socket.Some? then {PeerAt(s, j).socket.value} else {})
  {
    hide Steady, AcceptOne, ReplaceRegistered, Guest;
    FreeSlot(s);
    NotConnected(s, from);
    RegisteredSlot(s, from);
    AcceptOldForm(s, from);
    var b, i, j := BeforeReplacing(s, from), NextSlot(s.pool), s.peers[from];
    ReplacedCore(s, from, i, j);
    assert PeerAt(b, j) == PeerAt(s, j);
    ReplaceSockets(b, j, from, i);
    assert Sockets(b) == Sockets(s);
    var r := ReplaceRegistered(b, j, from, i);
    GuestSocket(from, s.nextDescriptor);
    WithPeerSockets(r, i, Guest(from, s.nextDescriptor));
  }

  lemma GuestSocket(from: Endpoint, descriptor: nat)
    ensures Guest(from, descriptor).socket == Some(descriptor)
  {
  }

  lemma AcceptOldOwned(s: Manager, from: Endpoint)
    requires Steady(s) && Owned(s) && s.pool.available != [] && from in s.peers && RegisteredAs(s, from) != Live
    ensures Owned(AcceptOne(s, Accepted(from)))
  {
    hide Steady, AcceptOne, Owned;
    var t, i, j := AcceptOne(s, Accepted(from)), NextSlot(s.pool), s.peers[from];
    AcceptOldSockets(s, from);
    NextIsUnused(s);
    if PeerAt(s, j).socket.Some? {
      var u := CloseSocket(s, j);
      assert Closes(s, u, j);
      ClosesKeepsOwned(s, u, j);
      OldSocketIsOpen(s, j);
      assert Gains(u, t, i);
      GainsKeepsOwned(u, t, i);
    } else {
      assert Sockets(s)[j := None] == Sockets(s);
      GainsKeepsOwned(s, t, i);
    }
  }

  lemma OldSocketIsOpen(s: Manager, j: nat)
    requires Owned(s) && HasSlot(s, j) && PeerAt(s, j).socket.Some?
    ensures PeerAt(s, j).socket.value in s.open && PeerAt(s, j).socket.value != s.nextDescriptor
  {
    assert Sockets(s)[j].Some?;
  }
}
