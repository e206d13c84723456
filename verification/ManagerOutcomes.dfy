/** What each event leaves behind, case by case, in terms of the state before and the kernel's answers. */
module ManagerOutcomes {
  import opened Common
  import opened SlotPool
  import opened ManagerModel
  import opened ManagerInvariant
  import opened ManagerCallbacks
  import Handshake
  import OverwritableCache

  // The four ends of an event on one peer.

  /** One attempt less in flight. */
  function Resolution(t: Statistics, source: Source): Statistics {
    if source == TcpServer then t.(outboundInflight := Dec(t.outboundInflight))
    else t.(inboundInflight := Dec(t.inboundInflight))
  }

  /** The peer is gone: socket closed, contact free, slot blank and next to be taken, under a new generation. */
  ghost predicate Retired(s: Manager, t: Manager, i: nat)
    requires HasSlot(s, i)
  {
    var p := PeerAt(s, i);
    p.socket.Some? &&
    t == s.(pool := Pool(s.pool.slots[i := Slot(BLANK, GenerationAt(s, i) + 1)],
                         s.pool.available + [i], s.pool.occupied - {i}),
            peers := s.peers - {p.contact.endpoint}, open := s.open - {p.socket.value},
            statistics := Resolution(s.statistics, p.source), notified := s.notified || p.source == Tracker,
            log := t.log)
  }

  /** Histories aside: they are about the socket that is open. */
  function Plain(p: Peer): Peer { p.(taken := [], heard := []) }

  /** The peer waits: socket closed, nothing buffered, a delay that grows with its failures. */
  ghost predicate Postponed(s: Manager, t: Manager, i: nat)
    requires HasSlot(s, i)
  {
    var p := PeerAt(s, i);
    p.socket.Some? && HasSlot(t, i) &&
    t == s.(pool := s.pool.(slots := s.pool.slots[i := t.pool.slots[i]]), open := s.open - {p.socket.value},
            statistics := Resolution(s.statistics, p.source).(failed := Inc(s.statistics.failed)), notified := true) &&
    GenerationAt(t, i) == GenerationAt(s, i) &&
    Plain(PeerAt(t, i)) == Plain(p.(state := Failed, failures := p.failures + 1, socket := None, interest := Stopped,
                                    timer := Some(15 * (p.failures + 1)), cursor := 0, recv := [], send := []))
  }

  /** A tracker's contact gets three attempts, an accepted peer one. */
  ghost predicate Fails(s: Manager, t: Manager, i: nat)
    requires HasSlot(s, i)
  {
    if PeerAt(s, i).source == Tracker && PeerAt(s, i).failures < 2 then Postponed(s, t, i) else Retired(s, t, i)
  }

  /** The peer is connected and handed over, as `q` became. */
  ghost predicate Joins(s: Manager, t: Manager, i: nat, q: Peer)
    requires HasSlot(s, i)
  {
    t == s.(pool := s.pool.(slots := s.pool.slots[i :=
              Slot(q.(state := Connected, interest := Stopped, timer := None), GenerationAt(s, i))]),
            connects := s.connects + [ConnectUpdate(i, q.socket, GenerationAt(s, i))],
            statistics := Resolution(s.statistics, q.source).(connected := Inc(s.statistics.connected)),
            notified := s.notified || q.source == Tracker)
  }

  /** Only the peer changed, to `q`. */
  ghost predicate GoesOn(s: Manager, t: Manager, i: nat, q: Peer)
    requires HasSlot(s, i)
  {
    t == s.(pool := s.pool.(slots := s.pool.slots[i := Slot(q, GenerationAt(s, i))]))
  }

  /** The peer `g` in the middle of an event that began with the peer `p`. */
  predicate Underway(p: Peer, g: Peer) {
    && g.source == p.source && g.socket == p.socket && g.failures == p.failures
    && g.contact.endpoint == p.contact.endpoint
    && (p.source == Tracker ==>
        Plain(g) == Plain(p.(state := g.state, cursor := g.cursor, recv := g.recv, send := g.send,
                             interest := g.interest, timer := g.timer)))
  }

  ghost predicate Usual(p: Peer) {
    p.socket.Some? && (p.source == Tracker || p.source == TcpServer) && p.failures < 3
  }

  lemma FailureRetires(s: Manager, i: nat, g: Peer)
    requires HasSlot(s, i) && Usual(PeerAt(s, i)) && Underway(PeerAt(s, i), g) && !s.crashed && i in s.pool.occupied
    requires PeerAt(s, i).source == TcpServer || PeerAt(s, i).failures == 2
    ensures Retired(s, HandleFailure(WithPeer(s, i, g), i), i)
  {
    var t := HandleFailure(WithPeer(s, i, g), i);
    assert t.pool.slots == s.pool.slots[i := Slot(BLANK, GenerationAt(s, i) + 1)];
    assert t.peers == s.peers - {PeerAt(s, i).contact.endpoint};
    assert t.open == s.open - {PeerAt(s, i).socket.value};
  }

  lemma FailurePostpones(s: Manager, i: nat, g: Peer)
    requires HasSlot(s, i) && Usual(PeerAt(s, i)) && Underway(PeerAt(s, i), g) && !s.crashed
    requires PeerAt(s, i).source == Tracker && PeerAt(s, i).failures < 2
    ensures Postponed(s, HandleFailure(WithPeer(s, i, g), i), i)
  {
    var t := HandleFailure(WithPeer(s, i, g), i);
    assert t.pool.slots == s.pool.slots[i := t.pool.slots[i]];
  }

  lemma FailureEnds(s: Manager, i: nat, g: Peer)
    requires HasSlot(s, i) && Usual(PeerAt(s, i)) && Underway(PeerAt(s, i), g) && !s.crashed && i in s.pool.occupied
    ensures Fails(s, HandleFailure(WithPeer(s, i, g), i), i)
  {
    hide HandleFailure, Postponed, Retired;
    if PeerAt(s, i).source == Tracker && PeerAt(s, i).failures < 2 {
      FailurePostpones(s, i, g);
    } else {
      FailureRetires(s, i, g);
    }
  }

  lemma HardDeleteEnds(s: Manager, i: nat, g: Peer)
    requires HasSlot(s, i) && Usual(PeerAt(s, i)) && !s.crashed && i in s.pool.occupied
    requires g.source == PeerAt(s, i).source && g.socket == PeerAt(s, i).socket
    requires g.contact.endpoint == PeerAt(s, i).contact.endpoint
    ensures Retired(s, HardDelete(WithPeer(s, i, g), i), i)
  {
    var t := HardDelete(WithPeer(s, i, g), i);
    assert t.pool.slots == s.pool.slots[i := Slot(BLANK, GenerationAt(s, i) + 1)];
    assert t.peers == s.peers - {PeerAt(s, i).contact.endpoint};
  }

  lemma DispatchEnds(s: Manager, i: nat, g: Peer)
    requires HasSlot(s, i) && (g.source == Tracker || g.source == TcpServer)
    ensures Joins(s, Dispatch(WithPeer(s, i, g), i), i, g)
  {
    var t := Dispatch(WithPeer(s, i, g), i);
    assert t.pool.slots == s.pool.slots[i := t.pool.slots[i]];
  }

  lemma WithPeerGoesOn(s: Manager, i: nat, q: Peer)
    requires HasSlot(s, i)
    ensures GoesOn(s, WithPeer(s, i, q), i, q)
  {
  }

  lemma SamePeer(s: Manager, i: nat)
    requires HasSlot(s, i)
    ensures WithPeer(s, i, PeerAt(s, i)) == s
  {
  }

  lemma InUse(s: Manager, i: nat)
    requires Steady(s) && i < POOL_SIZE && InFlight(PeerAt(s, i))
    ensures HasSlot(s, i) && Usual(PeerAt(s, i)) && i in s.pool.occupied && !s.crashed && Sized(s)
    ensures Shape(PeerAt(s, i))
    ensures PeerAt(s, i).state == Transport || PeerAt(s, i).state == Handshaking
  {
    TakeOut(s, i);
    WorkingBasics(s, i);
  }

  // Timers.

  /** A waiting peer is queued for its retry and the scheduler is woken; any other timer is a failure. */
  lemma TimerOutcome(s: Manager, i: nat)
    requires Steady(s) && i < POOL_SIZE && PeerAt(s, i).timer.Some?
    ensures HasSlot(s, i)
    ensures var t := TimerCallback(s, i); var p := PeerAt(s, i);
            if CategoryOf(p) == Waiting then
              t == s.(pool := s.pool.(slots := s.pool.slots[i :=
                        Slot(p.(state := Transport, timer := None), GenerationAt(s, i))]),
                      retryQueue := s.retryQueue + [Ticket(i, GenerationAt(s, i))],
                      statistics := s.statistics.(failed := Dec(s.statistics.failed), inRetry := Inc(s.statistics.inRetry)),
                      notified := true, log := t.log)
            else Fails(s, t, i)
  {
    ShapeAt(s, i);
    var p := PeerAt(s, i);
    if CategoryOf(p) == Waiting {
      QueueOutcome(s, i);
    } else {
      assert InFlight(p);
      InUse(s, i);
      hide HandleFailure, Fails, Steady;
      FailureEnds(s, i, p.(timer := None));
    }
  }

  lemma QueueOutcome(s: Manager, i: nat)
    requires HasSlot(s, i) && CategoryOf(PeerAt(s, i)) == Waiting && PeerAt(s, i).state == Failed && !s.crashed
    ensures var t := TimerCallback(s, i); var p := PeerAt(s, i);
            t == s.(pool := s.pool.(slots := s.pool.slots[i :=
                      Slot(p.(state := Transport, timer := None), GenerationAt(s, i))]),
                    retryQueue := s.retryQueue + [Ticket(i, GenerationAt(s, i))],
                    statistics := s.statistics.(failed := Dec(s.statistics.failed), inRetry := Inc(s.statistics.inRetry)),
                    notified := true, log := t.log)
  {
    var t := TimerCallback(s, i);
    assert t.pool.slots == s.pool.slots[i := t.pool.slots[i]];
  }

  // Sending.

  /** A send call takes bytes off the front and none are lost. */
  lemma SendKeepsTheRest(queue: seq<byte>, o: SendOutcome)
    ensures Swallowed(queue, o) + AfterSend(queue, o) == queue
    ensures o.Sent? ==> |Swallowed(queue, o)| == Min(o.bytes, |queue|)
    ensures !o.Sent? ==> AfterSend(queue, o) == queue
  {
  }

  /** How many bytes of a queue the kernel's answer means. */
  function BytesTaken(queue: seq<byte>, o: SendOutcome): nat {
    if o.Sent? then Min(o.bytes, |queue|) else 0
  }

  /** The peer with its first `BytesTaken` queued bytes taken. */
  function AfterTaking(p: Peer, o: SendOutcome): Peer {
    p.(taken := p.taken + p.send[..BytesTaken(p.send, o)], send := p.send[BytesTaken(p.send, o)..])
  }

  lemma SendingIs(p: Peer, o: SendOutcome)
    ensures Sending(p, o) == AfterTaking(p, o)
  {
    SendKeepsTheRest(p.send, o);
  }

  /** What becomes of a peer after a send call on what it has queued: fails, goes on, or is through with it. */
  ghost predicate AfterSending(s: Manager, t: Manager, i: nat, q: Peer, o: SendOutcome)
    requires HasSlot(s, i)
  {
    var r := AfterTaking(q, o);
    if o.SendFails? then Fails(s, t, i)
    else if r.send != [] then GoesOn(s, t, i, r.(interest := Writing))
    else if q.source == Tracker then GoesOn(s, t, i, r.(interest := Reading))
    else Joins(s, t, i, r)
  }

  /** The handshake, encoded whole into the empty send ring. */
  function Greeting(p: Peer, handshake: seq<byte>): Peer {
    p.(state := Handshaking, cursor := 68, send := handshake)
  }

  lemma GreetedIs(p: Peer, handshake: seq<byte>, o: SendOutcome)
    ensures Greeted(p, handshake, o) == AfterTaking(Greeting(p, handshake), o)
    ensures AfterSend(handshake, o) == AfterTaking(Greeting(p, handshake), o).send
  {
    SendingIs(Greeting(p, handshake), o);
  }

  /** The socket of a tracker's contact got connected, or reports why not. */
  lemma InitiationOutcome(s: Manager, i: nat, io: Io)
    requires HasSlot(s, i) && Usual(PeerAt(s, i)) && i in s.pool.occupied && !s.crashed && Sized(s)
    requires PeerAt(s, i).source == Tracker && PeerAt(s, i).send == []
    ensures var t := TransportInitiation(s, i, true, io);
            if io.socketError != 0 then Fails(s, t, i)
            else AfterSending(s, t, i, Greeting(PeerAt(s, i), s.handshake), io.send)
  {
    hide Fails, HandleFailure, Swallowed, AfterSend, AfterTaking, Watch, Greeted;
    var p := PeerAt(s, i);
    if io.socketError != 0 {
      SamePeer(s, i);
      FailureEnds(s, i, p);
    } else {
      TransportInitiationForm(s, i, io);
      GreetedIs(p, s.handshake, io.send);
      var g := Greeted(p, s.handshake, io.send);
      GreetedIsUnderway(p, s.handshake, io.send);
      WatchIsWithPeer(s, i, g, Reading);
      WatchIsWithPeer(s, i, g, Writing);
      if io.send.SendFails? { FailureEnds(s, i, g); }
    }
  }

  lemma GreetedIsUnderway(p: Peer, handshake: seq<byte>, o: SendOutcome)
    ensures Underway(p, Greeted(p, handshake, o)) && Greeted(p, handshake, o).source == p.source
  {
  }

  lemma SendingIsUnderway(p: Peer, o: SendOutcome)
    ensures Underway(p, Sending(p, o)) && Sending(p, o).source == p.source
  {
  }

  /** More of the handshake was sent. */
  lemma FinishOutcome(s: Manager, i: nat, o: SendOutcome)
    requires HasSlot(s, i) && Usual(PeerAt(s, i)) && i in s.pool.occupied && !s.crashed
    requires PeerAt(s, i).interest == Writing
    ensures AfterSending(s, FinishSend(s, i, o), i, PeerAt(s, i), o)
  {
    hide Fails, HandleFailure, Dispatch, Watch, AfterTaking, Sending;
    var p := PeerAt(s, i);
    SendingIs(p, o);
    SendingIsUnderway(p, o);
    var q := Sending(p, o);
    assert SendMessages(s, i, o) == WithPeer(s, i, q) && PeerAt(WithPeer(s, i, q), i) == q;
    if o.SendFails? {
      FailureEnds(s, i, q);
    } else if q.send != [] {
      StillWriting(p, o);
    } else if p.source == Tracker {
      WatchIsWithPeer(s, i, q, Reading);
    } else {
      DispatchEnds(s, i, q);
    }
  }

  lemma StillWriting(p: Peer, o: SendOutcome)
    requires p.interest == Writing
    ensures AfterTaking(p, o) == AfterTaking(p, o).(interest := Writing)
  {
  }

  /** The answer to an accepted peer's handshake; `h` is the peer once that was read. */
  lemma RespondOutcome(s: Manager, i: nat, h: Peer, o: SendOutcome)
    requires HasSlot(s, i) && Usual(PeerAt(s, i)) && i in s.pool.occupied && !s.crashed && Sized(s)
    requires PeerAt(s, i).source == TcpServer && Underway(PeerAt(s, i), h) && h.send == [] && h.state == Handshaking
    ensures AfterSending(s, Respond(WithPeer(s, i, h), i, o), i, Greeting(h, s.handshake), o)
  {
    hide Fails, HandleFailure, Dispatch, Watch, AfterTaking, Greeted, AfterSend, Respond;
    var s1 := WithPeer(s, i, h);
    RespondForm(s1, i, o);
    GreetedIs(h, s.handshake, o);
    GreetedIsUnderway(h, s.handshake, o);
    var g := Greeted(h, s.handshake, o);
    assert WithPeer(s1, i, g) == WithPeer(s, i, g);
    WatchIsWithPeer(s, i, g, Writing);
    if o.SendFails? {
      FailureEnds(s, i, g);
    } else if g.send == [] {
      DispatchEnds(s, i, g);
    }
  }

  // Receiving.

  /** The first 68 of some bytes. */
  function UpTo68(bytes: seq<byte>): seq<byte> { bytes[..Min(|bytes|, 68)] }

  /** The ring gets what it has room for, wherever the arrivals are cut. */
  lemma TakenIsThePrefix(queue: seq<byte>, data: seq<byte>)
    requires |queue| <= 68
    ensures queue + Taken(queue, Arrived(data)) == UpTo68(queue + data)
  {
  }

  lemma BrokenExactly(queue: seq<byte>, o: RecvOutcome)
    requires |queue| < 68
    ensures RecvBroken(queue, o) <==> o.RecvFails? || o == Arrived([])
  {
  }

  /** The peer once all of `m` is in its ring. */
  function Holding(p: Peer, m: seq<byte>, o: RecvOutcome): Peer {
    p.(recv := m, heard := Listened(p.heard, o))
  }

  /** The peer once a valid handshake `m` was read. */
  function Introduced(p: Peer, m: seq<byte>, o: RecvOutcome): Peer
    requires |m| == 68
  {
    p.(recv := [], heard := Listened(p.heard, o), contact := p.contact.(peerId := Some(m[48..68])))
  }

  /** What becomes of a peer that reads: it fails, waits for more, is refused, joins, or gets its answer. */
  ghost predicate AfterReading(s: Manager, t: Manager, i: nat, io: Io)
    requires HasSlot(s, i)
  {
    var p := PeerAt(s, i);
    if io.recv.RecvFails? || io.recv == Arrived([]) then Fails(s, t, i)
    else if io.recv.RecvAgain? then GoesOn(s, t, i, Holding(p, p.recv, io.recv))
    else
      var m := UpTo68(p.recv + io.recv.data);
      if |m| < 68 then GoesOn(s, t, i, Holding(p, m, io.recv))
      else if m[0] != 19 || m[28..48] != s.infoHash then Retired(s, t, i)
      else if p.source == Tracker then Joins(s, t, i, Introduced(p, m, io.recv))
      else AfterSending(s, t, i, Greeting(Introduced(p, m, io.recv), s.handshake), io.send)
  }

  lemma HeardIs(p: Peer, infoHash: seq<byte>, o: RecvOutcome)
    requires |p.recv| < 68 && |infoHash| == 20
    ensures var m := p.recv + Taken(p.recv, o); var h := Heard(p, infoHash, o);
            var d := Handshake.Decoded(m, infoHash, p.contact.peerId);
            && |m| <= 68
            && (!d.complete <==> |m| < 68)
            && (|m| < 68 ==> h == Holding(p, m, o))
            && (|m| == 68 ==> (d.valid <==> m[0] == 19 && m[28..48] == infoHash))
            && (|m| == 68 && d.valid ==> h == Introduced(p, m, o))
            && h.source == p.source && h.socket == p.socket && h.contact.endpoint == p.contact.endpoint
            && h.send == p.send && h.state == p.state
  {
  }

  lemma HeldIsUnderway(p: Peer, o: RecvOutcome, m: seq<byte>)
    ensures Underway(p, Holding(p, m, o))
    ensures p.source == TcpServer && |m| == 68 ==> Underway(p, Introduced(p, m, o))
  {
  }

  lemma ReceiveOutcome(s: Manager, i: nat, io: Io)
    requires HasSlot(s, i) && Usual(PeerAt(s, i)) && i in s.pool.occupied && !s.crashed && Sized(s)
    requires |PeerAt(s, i).recv| < 68 && PeerAt(s, i).send == [] && PeerAt(s, i).state == Handshaking
    ensures AfterReading(s, ReceiveHandshake(s, i, io), i, io)
  {
    hide Fails, Retired, HandleFailure, HardDelete, Dispatch, Respond, ReceiveHandshake, Heard, Handshake.Decoded, Taken,
         RecvBroken, Listened, AfterSending, Underway;
    var p := PeerAt(s, i);
    ReceiveHandshakeForm(s, i, io);
    BrokenExactly(p.recv, io.recv);
    HeardIs(p, s.infoHash, io.recv);
    var m := p.recv + Taken(p.recv, io.recv);
    HeldIsUnderway(p, io.recv, m);
    var h := Heard(p, s.infoHash, io.recv);
    if io.recv.RecvFails? || io.recv == Arrived([]) {
      FailureEnds(s, i, Holding(p, m, io.recv));
    } else {
      if io.recv.Arrived? { TakenIsThePrefix(p.recv, io.recv.data); } else { TakenNothing(p.recv); }
      if |m| == 68 {
        if !(m[0] == 19 && m[28..48] == s.infoHash) {
          HardDeleteEnds(s, i, h);
        } else if p.source == Tracker {
          DispatchEnds(s, i, h);
        } else {
          RespondOutcome(s, i, h, io.send);
        }
      }
    }
  }

  lemma TakenNothing(queue: seq<byte>)
    ensures queue + Taken(queue, RecvAgain) == queue
  {
  }

  // Splitting what arrives.

  function ReadEvent(s: Manager, i: nat, data: seq<byte>, answer: SendOutcome): Manager
    requires HasSlot(s, i) && |s.handshake| == Handshake.LENGTH
  {
    SocketCallback(s, i, false, false, true, Io(0, answer, Arrived(data)))
  }

  /** One readable event after the other, each with its arrival. */
  function ReadEvents(s: Manager, i: nat, arrivals: seq<seq<byte>>, answer: SendOutcome): Manager
    requires HasSlot(s, i) && |s.handshake| == Handshake.LENGTH
    decreases |arrivals|
  {
    if arrivals == [] then s
    else
      var t := ReadEvent(s, i, arrivals[0], answer);
      if HasSlot(t, i) && |t.handshake| == Handshake.LENGTH then ReadEvents(t, i, arrivals[1..], answer) else t
  }

  function Joined(arrivals: seq<seq<byte>>): seq<byte> {
    if arrivals == [] then [] else arrivals[0] + Joined(arrivals[1..])
  }

  /** A peer that is waiting for the rest of a handshake. */
  ghost predicate Listening(s: Manager, i: nat) {
    && HasSlot(s, i) && !s.crashed && Sized(s) && !MetQuota(s)
    && var p := PeerAt(s, i);
    && Shape(p) && InFlight(p) && p.state == Handshaking && p.interest == Reading
  }

  lemma ReadForm(s: Manager, i: nat, data: seq<byte>, answer: SendOutcome)
    requires Listening(s, i)
    ensures ReadEvent(s, i, data, answer) == ReceiveHandshake(s, i, Io(0, answer, Arrived(data)))
  {
    hide Shape, ReceiveHandshake, SocketCallback, HandleFailure, HardDelete, TransportInitiation;
    SocketForm(s, i, false, false, true, Io(0, answer, Arrived(data)));
  }

  /** An arrival that leaves the handshake short. */
  lemma ShortArrival(s: Manager, i: nat, data: seq<byte>, answer: SendOutcome)
    requires Listening(s, i) && data != [] && |PeerAt(s, i).recv + data| < 68
    ensures var p := PeerAt(s, i); var q := Holding(p, p.recv + data, Arrived(data));
            ReadEvent(s, i, data, answer) == WithPeer(s, i, q) && Listening(WithPeer(s, i, q), i)
  {
    hide ReceiveHandshake, Heard, Handshake.Decoded, Taken, RecvBroken, Listened, HandleFailure, HardDelete, Dispatch,
         Respond;
    var p, o := PeerAt(s, i), Arrived(data);
    ReadForm(s, i, data, answer);
    HeardWorks(p, s.infoHash, o);
    ReceiveHandshakeForm(s, i, Io(0, answer, o));
    TakenIsThePrefix(p.recv, data);
    BrokenExactly(p.recv, o);
    HeardIs(p, s.infoHash, o);
    assert UpTo68(p.recv + data) == p.recv + data;
  }

  lemma ListenedTwice(heard: seq<byte>, a: seq<byte>, b: seq<byte>)
    requires |heard + a| <= 68
    ensures Listened(Listened(heard, Arrived(a)), Arrived(b)) == Listened(heard, Arrived(a + b))
  {
    assert heard + (a + b) == heard + a + b;
  }

  /** The peer after two arrivals is the peer after both at once. */
  lemma HeardTwice(p: Peer, infoHash: seq<byte>, a: seq<byte>, b: seq<byte>)
    requires |p.recv + a| < 68 && p.heard == p.recv
    ensures var q := Holding(p, p.recv + a, Arrived(a));
            && q.recv + Taken(q.recv, Arrived(b)) == p.recv + Taken(p.recv, Arrived(a + b))
            && Heard(q, infoHash, Arrived(b)) == Heard(p, infoHash, Arrived(a + b))
  {
    hide Taken, Listened, Handshake.Decoded;
    var q := Holding(p, p.recv + a, Arrived(a));
    ListenedTwice(p.heard, a, b);
    TakenIsThePrefix(p.recv, a + b);
    TakenIsThePrefix(q.recv, b);
    assert p.recv + a + b == p.recv + (a + b);
  }

  /** Cutting an arrival in two changes nothing. */
  lemma ArrivalInTwo(s: Manager, i: nat, a: seq<byte>, b: seq<byte>, answer: SendOutcome)
    requires Listening(s, i) && a != [] && b != [] && |PeerAt(s, i).recv + a| < 68
    requires PeerAt(s, i).heard == PeerAt(s, i).recv
    ensures var t := ReadEvent(s, i, a, answer);
            && HasSlot(t, i) && |t.handshake| == Handshake.LENGTH
            && ReadEvent(t, i, b, answer) == ReadEvent(s, i, a + b, answer)
  {
    hide ReceiveHandshake, Heard, Handshake.Decoded, Taken, RecvBroken, Listened, HandleFailure, HardDelete, Dispatch,
         Respond, ReadEvent, Shape;
    var p := PeerAt(s, i);
    var q := Holding(p, p.recv + a, Arrived(a));
    var t := WithPeer(s, i, q);
    ShortArrival(s, i, a, answer);
    ReadForm(t, i, b, answer);
    ReadForm(s, i, a + b, answer);
    ListeningForm(s, i);
    ListeningForm(t, i);
    ReceiveHandshakeForm(t, i, Io(0, answer, Arrived(b)));
    ReceiveHandshakeForm(s, i, Io(0, answer, Arrived(a + b)));
    BrokenExactly(q.recv, Arrived(b));
    BrokenExactly(p.recv, Arrived(a + b));
    HeardTwice(p, s.infoHash, a, b);
    assert WithPeer(t, i, Heard(q, s.infoHash, Arrived(b))) == WithPeer(s, i, Heard(q, s.infoHash, Arrived(b)));
  }

  lemma ListeningForm(s: Manager, i: nat)
    requires Listening(s, i)
    ensures |PeerAt(s, i).recv| < 68 && PeerAt(s, i).source != NoSource
  {
  }

  /** However a handshake is cut into arrivals, the peer ends as if it had come at once. */
  lemma {:induction false} AnySplit(s: Manager, i: nat, arrivals: seq<seq<byte>>, answer: SendOutcome)
    requires Listening(s, i) && PeerAt(s, i).heard == PeerAt(s, i).recv
    requires arrivals != [] && forall k :: 0 <= k < |arrivals| ==> arrivals[k] != []
    requires |PeerAt(s, i).recv + Joined(arrivals[..|arrivals| - 1])| < 68
    ensures ReadEvents(s, i, arrivals, answer) == ReadEvent(s, i, Joined(arrivals), answer)
    decreases |arrivals|
  {
    hide ReadEvent, Listening, Listened;
    var a, rest := arrivals[0], arrivals[1..];
    ListeningSlot(s, i);
    if rest == [] {
      assert Joined(arrivals) == a + [] == a;
      OneArrival(s, i, a, answer);
    } else {
      assert arrivals[..|arrivals| - 1] == [a] + rest[..|rest| - 1];
      assert ([a] + rest[..|rest| - 1])[1..] == rest[..|rest| - 1];
      assert |PeerAt(s, i).recv + a| < 68;
      ShortArrival(s, i, a, answer);
      ShortKeeps(s, i, a);
      var t := ReadEvent(s, i, a, answer);
      AnySplit(t, i, rest, answer);
      JoinedIsNotEmpty(rest);
      ArrivalInTwo(s, i, a, Joined(rest), answer);
    }
  }

  lemma ListeningSlot(s: Manager, i: nat)
    requires Listening(s, i)
    ensures HasSlot(s, i) && |s.handshake| == Handshake.LENGTH
  {
  }

  lemma ShortKeeps(s: Manager, i: nat, a: seq<byte>)
    requires HasSlot(s, i) && |PeerAt(s, i).recv + a| < 68 && PeerAt(s, i).heard == PeerAt(s, i).recv
    ensures var p := PeerAt(s, i); var t := WithPeer(s, i, Holding(p, p.recv + a, Arrived(a)));
            HasSlot(t, i) && PeerAt(t, i).heard == PeerAt(t, i).recv == p.recv + a && t.handshake == s.handshake
  {
  }

  lemma JoinedIsNotEmpty(arrivals: seq<seq<byte>>)
    requires arrivals != [] && arrivals[0] != []
    ensures Joined(arrivals) != []
  {
  }

  lemma OneArrival(s: Manager, i: nat, a: seq<byte>, answer: SendOutcome)
    requires HasSlot(s, i) && |s.handshake| == Handshake.LENGTH
    ensures ReadEvents(s, i, [a], answer) == ReadEvent(s, i, a, answer)
  {
    hide ReadEvent;
    assert [a][1..] == [];
  }

  // The socket callback.

  /** Every event on every peer in flight: what it leaves, whatever the kernel answers. */
  lemma SocketOutcome(s: Manager, i: nat, broken: bool, writable: bool, readable: bool, io: Io)
    requires Steady(s) && i < POOL_SIZE && Fires(PeerAt(s, i), broken, writable, readable)
    ensures HasSlot(s, i)
    ensures var t := SocketCallback(s, i, broken, writable, readable, io); var p := PeerAt(s, i);
            if s.statistics.connected >= 50 then Retired(s, t, i)
            else if broken then Fails(s, t, i)
            else if writable && p.state == Transport then
              if io.socketError != 0 then Fails(s, t, i)
              else AfterSending(s, t, i, Greeting(p, s.handshake), io.send)
            else if writable then AfterSending(s, t, i, p, io.send)
            else if readable then AfterReading(s, t, i, io)
            else t == s
  {
    InUse(s, i);
    hide Steady, Fails, Retired, AfterSending, AfterReading, HandleFailure, HardDelete, TransportInitiation, FinishSend,
         ReceiveHandshake, SocketCallback, Usual;
    SocketForm(s, i, broken, writable, readable, io);
    SamePeer(s, i);
    var p := PeerAt(s, i);
    InUseForms(p);
    if s.statistics.connected >= 50 {
      HardDeleteEnds(s, i, p);
    } else if broken {
      FailureEnds(s, i, p);
    } else if writable && p.state == Transport {
      InitiationOutcome(s, i, io);
    } else if writable {
      FinishOutcome(s, i, io.send);
    } else if readable {
      ReceiveOutcome(s, i, io);
    } else if p.state == Transport {
      NothingInitiated(s, i, io);
    }
  }

  lemma InUseForms(p: Peer)
    requires Shape(p) && InFlight(p)
    ensures Underway(p, p) && (p.source == Tracker || p.source == TcpServer)
    ensures p.state == Transport ==> p.source == Tracker && p.send == [] && p.interest == Writing
    ensures p.interest == Reading ==> p.send == []
    ensures |p.recv| < 68
  {
  }

  lemma NothingInitiated(s: Manager, i: nat, io: Io)
    requires HasSlot(s, i) && Sized(s)
    ensures TransportInitiation(s, i, false, io) == s
  {
  }
}
