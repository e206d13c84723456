/** Every callback on one peer keeps the invariant, and no assertion in it fails. */
module ManagerCallbacks {
  import opened Common
  import opened SlotPool
  import opened ManagerModel
  import opened ManagerInvariant
  import Handshake

  ghost predicate Sized(s: Manager) {
    |s.handshake| == Handshake.LENGTH && |s.infoHash| == 20
  }

  /** Between callbacks, in runs where the counters may have gone astray. */
  ghost predicate Steady(s: Manager) {
    !s.crashed && Sized(s) && Intact(CoreOf(s), {})
  }

  /** In the middle of a callback on the in-flight peer of slot `i`. */
  ghost predicate Working(s: Manager, i: nat) {
    && !s.crashed && Sized(s) && i < POOL_SIZE && Intact(CoreOf(s), {i}) && Registered(CoreOf(s), i)
    && var p := PeerAt(s, i);
    && InFlight(p) && Tried(p) && p.socket.Some? && (p.source == Tracker || p.source == TcpServer)
    && Attempts(s.log, i, GenerationAt(s, i)) == AttemptsOf(p)
  }

  lemma TakeOut(s: Manager, i: nat)
    requires Steady(s) && i < POOL_SIZE && InFlight(PeerAt(s, i))
    ensures Working(s, i) && Shape(PeerAt(s, i))
  {
    var c := CoreOf(s);
    assert SlotOk(c, i);
    assert Ticket(i, Gen(c, i)) !in c.retryQueue;
    OpenHole(c, i);
  }

  /** A change to buffers, cursor, peer id, timer, direction or from one in-flight state to the other. */
  predicate SameWork(p: Peer, q: Peer) {
    && q.contact.endpoint == p.contact.endpoint && q.source == p.source && q.failures == p.failures
    && q.store == p.store && q.socket == p.socket && InFlight(q)
  }

  lemma Work(s: Manager, i: nat, q: Peer)
    requires Working(s, i) && SameWork(PeerAt(s, i), q)
    ensures Working(WithPeer(s, i, q), i)
    ensures Counted(s) ==> Counted(WithPeer(s, i, q))
  {
    PutKeeps(CoreOf(s), {i}, i, q);
    if Counted(s) { MovedIsCounted(s, WithPeer(s, i, q), i, s.pool.slots[i].(value := q)); }
  }

  lemma PutBack(s: Manager, i: nat)
    requires Working(s, i) && Shape(PeerAt(s, i))
    ensures Steady(s)
  {
    assert SlotOk(CoreOf(s), i);
    CloseHole(CoreOf(s), i);
  }

  lemma DeleteCore(s: Manager, i: nat)
    requires i < |s.pool.slots| && PeerAt(s, i).socket == None && i in s.pool.occupied
    ensures var t := DeletePeer(s, i);
            && CoreOf(t) == Vacated(CoreOf(s), i) && t.crashed == s.crashed
            && t.pool.slots == s.pool.slots[i := Slot(BLANK, GenerationAt(s, i) + 1)]
            && t.statistics == s.statistics && t.cache == s.cache
            && t.handshake == s.handshake && t.infoHash == s.infoHash
  {
  }

  /** Deleting a peer whose socket is closed: the slot is blank again, under the next generation. */
  lemma DeleteKeeps(s: Manager, i: nat)
    requires !s.crashed && Sized(s) && i < POOL_SIZE && Intact(CoreOf(s), {i}) && Registered(CoreOf(s), i)
    requires PeerAt(s, i).socket == None
    ensures Steady(DeletePeer(s, i))
  {
    DeleteCore(s, i);
    VacateKeeps(CoreOf(s), {i}, {}, i);
  }

  lemma WorkingBasics(s: Manager, i: nat)
    requires Working(s, i)
    ensures |s.pool.slots| == POOL_SIZE && i in s.pool.occupied
    ensures !s.crashed && Sized(s) && i < POOL_SIZE && HasSlot(s, i)
    ensures InFlight(PeerAt(s, i)) && Tried(PeerAt(s, i)) && PeerAt(s, i).socket.Some?
    ensures PeerAt(s, i).source == if CategoryOf(PeerAt(s, i)) == Inbound then Tracker else TcpServer
  {
  }

  /** `t` is the state in which the peer of slot `i` has a closed socket and its attempt is resolved. */
  ghost predicate Resolved(s: Manager, t: Manager, i: nat)
    requires HasSlot(s, i)
  {
    && |t.pool.slots| == |s.pool.slots| && PeerAt(t, i).socket == None
    && CoreOf(t) == Put(CoreOf(s), i, PeerAt(t, i))
    && t.statistics == Resolve(s, PeerAt(s, i).source).statistics
    && !t.crashed && Sized(t) && t.cache == s.cache
    && PeerAt(t, i).contact.endpoint == PeerAt(s, i).contact.endpoint
  }

  lemma ResolveDeleteKeeps(s: Manager, t: Manager, i: nat)
    requires Working(s, i) && Resolved(s, t, i)
    ensures Steady(DeletePeer(t, i))
  {
    WorkingBasics(s, i);
    hide Intact;
    PutKeeps(CoreOf(s), {i}, i, PeerAt(t, i));
    DeleteKeeps(t, i);
  }

  lemma ResolveDeleteCounts(s: Manager, t: Manager, i: nat)
    requires Working(s, i) && Resolved(s, t, i) && Counted(s)
    ensures Counted(DeletePeer(t, i))
  {
    WorkingBasics(s, i);
    hide Intact;
    DeleteCore(t, i);
    MovedIsCounted(s, DeletePeer(t, i), i, Slot(BLANK, GenerationAt(s, i) + 1));
  }

  lemma HardDeleteKeeps(s: Manager, i: nat)
    requires Working(s, i)
    ensures Steady(HardDelete(s, i))
    ensures Counted(s) ==> Counted(HardDelete(s, i))
  {
    var t := Resolve(CloseSocket(s, i), PeerAt(s, i).source);
    hide Intact;
    assert Resolved(s, t, i);
    ResolveDeleteKeeps(s, t, i);
    if Counted(s) { ResolveDeleteCounts(s, t, i); }
  }

  /** The peer taken out is put back under another use that has had as many attempts. */
  ghost predicate Settled(s: Manager, t: Manager, i: nat)
    requires HasSlot(s, i)
  {
    && |t.pool.slots| == |s.pool.slots| && CoreOf(t) == Put(CoreOf(s), i, PeerAt(t, i))
    && !t.crashed && Sized(t) && t.cache == s.cache
    && var p, q := PeerAt(s, i), PeerAt(t, i);
    && q.contact.endpoint == p.contact.endpoint
    && Shape(q) && AttemptsOf(q) == AttemptsOf(p)
    && (InFlight(q) || CategoryOf(q) == Waiting)
    && t.statistics == Moved(s.statistics, CategoryOf(p), CategoryOf(q))
  }

  lemma SettleKeeps(s: Manager, t: Manager, i: nat)
    requires Working(s, i) && Settled(s, t, i)
    ensures Steady(t) && (Counted(s) ==> Counted(t))
  {
    WorkingBasics(s, i);
    hide Intact;
    PutKeeps(CoreOf(s), {i}, i, PeerAt(t, i));
    assert SlotOk(CoreOf(t), i);
    CloseHole(CoreOf(t), i);
    if Counted(s) { MovedIsCounted(s, t, i, t.pool.slots[i]); }
  }

  /** The state in which a failing peer is torn down. */
  function FailedAndClosed(s: Manager, i: nat): Manager
    requires HasSlot(s, i)
  {
    var p := PeerAt(s, i);
    var s1 := WithPeer(s, i, p.(state := Failed, failures := p.failures + 1));
    Resolve(Assert(CloseSocket(s1, i), p.source != NoSource), p.source)
  }

  lemma FailedAndClosedIsResolved(s: Manager, i: nat)
    requires HasSlot(s, i) && !s.crashed && Sized(s) && PeerAt(s, i).source != NoSource
    ensures Resolved(s, FailedAndClosed(s, i), i)
    ensures var p := PeerAt(s, i);
            p.failures + 1 >= MAX_RETRIES || p.source == TcpServer ==>
              HandleFailure(s, i) == DeletePeer(FailedAndClosed(s, i), i)
  {
    var t := FailedAndClosed(s, i);
    assert t.pool.slots == s.pool.slots[i := t.pool.slots[i]];
  }

  lemma RetriedIsSettled(s: Manager, i: nat)
    requires HasSlot(s, i) && !s.crashed && Sized(s) && CategoryOf(PeerAt(s, i)) == Inbound && Tried(PeerAt(s, i))
    requires PeerAt(s, i).failures + 1 < MAX_RETRIES && PeerAt(s, i).source == Tracker
    ensures Settled(s, HandleFailure(s, i), i)
  {
    var t := HandleFailure(s, i);
    assert t.pool.slots == s.pool.slots[i := t.pool.slots[i]];
  }

  lemma HandleFailureKeeps(s: Manager, i: nat)
    requires Working(s, i)
    ensures Steady(HandleFailure(s, i))
    ensures Counted(s) ==> Counted(HandleFailure(s, i))
  {
    WorkingBasics(s, i);
    hide Intact, HandleFailure, FailedAndClosed, Resolved, Settled, DeletePeer;
    var p := PeerAt(s, i);
    if p.failures + 1 >= MAX_RETRIES || p.source == TcpServer {
      var t := FailedAndClosed(s, i);
      FailedAndClosedIsResolved(s, i);
      ResolveDeleteKeeps(s, t, i);
      if Counted(s) { ResolveDeleteCounts(s, t, i); }
    } else {
      RetriedIsSettled(s, i);
      SettleKeeps(s, HandleFailure(s, i), i);
    }
  }

  lemma DispatchForm(s: Manager, i: nat)
    requires HasSlot(s, i) && !s.crashed && InFlight(PeerAt(s, i)) && Tried(PeerAt(s, i)) && PeerAt(s, i).socket.Some?
    requires PeerAt(s, i).source == if CategoryOf(PeerAt(s, i)) == Inbound then Tracker else TcpServer
    requires Through(PeerAt(s, i))
    ensures var t := Dispatch(s, i); var p := PeerAt(s, i); var q := StopWatchers(p.(state := Connected));
            && CoreOf(t) == Dispatched(Put(CoreOf(s), i, q), i)
            && !t.crashed && t.handshake == s.handshake && t.infoHash == s.infoHash && t.cache == s.cache
            && t.pool.slots == s.pool.slots[i := s.pool.slots[i].(value := q)]
            && Shape(q) && CategoryOf(q) == Live && AttemptsOf(q) == AttemptsOf(p)
            && t.statistics == Moved(s.statistics, CategoryOf(p), Live)
  {
  }

  lemma DispatchKeeps(s: Manager, i: nat)
    requires Working(s, i) && Through(PeerAt(s, i))
    ensures Steady(Dispatch(s, i))
    ensures Counted(s) ==> Counted(Dispatch(s, i))
  {
    WorkingBasics(s, i);
    DispatchForm(s, i);
    hide Intact, Dispatch, Shape, Tried, Counted;
    var p := PeerAt(s, i);
    var q := StopWatchers(p.(state := Connected));
    PutKeeps(CoreOf(s), {i}, i, q);
    DispatchKeepsCore(Put(CoreOf(s), i, q), i);
    if Counted(s) { MovedIsCounted(s, Dispatch(s, i), i, s.pool.slots[i].(value := q)); }
  }

  // Timers.

  lemma RetryTimerForm(s: Manager, i: nat)
    requires HasSlot(s, i) && !s.crashed && Shape(PeerAt(s, i)) && CategoryOf(PeerAt(s, i)) == Waiting
    ensures var t := TimerCallback(s, i); var p := PeerAt(s, i); var q := StopWatchers(p).(state := Transport);
            && CoreOf(t) == Requeued(Put(CoreOf(s), i, q), i)
            && !t.crashed && t.handshake == s.handshake && t.infoHash == s.infoHash
            && Shape(q) && CategoryOf(q) == Retrying && AttemptsOf(q) == AttemptsOf(p) && q.contact == p.contact
  {
    var p := PeerAt(s, i);
    var q := StopWatchers(p).(state := Transport);
    hide HandleFailure;
    assert WithPeer(WithPeer(s, i, p.(timer := None)), i, q) == WithPeer(s, i, q);
  }

  lemma TakeOutWaiting(s: Manager, i: nat)
    requires Steady(s) && i < POOL_SIZE && CategoryOf(PeerAt(s, i)) == Waiting
    ensures Intact(CoreOf(s), {i}) && Registered(CoreOf(s), i) && Shape(PeerAt(s, i))
    ensures Attempts(s.log, i, GenerationAt(s, i)) == AttemptsOf(PeerAt(s, i))
  {
    var c := CoreOf(s);
    assert SlotOk(c, i);
    assert Ticket(i, Gen(c, i)) !in c.retryQueue;
    OpenHole(c, i);
  }

  /** The retry delay of a failed peer has passed. */
  lemma RetryTimerKeeps(s: Manager, i: nat)
    requires Steady(s) && i < POOL_SIZE && CategoryOf(PeerAt(s, i)) == Waiting
    ensures Steady(TimerCallback(s, i))
  {
    TakeOutWaiting(s, i);
    RetryTimerForm(s, i);
    hide Intact, TimerCallback, Shape;
    var c := CoreOf(s);
    var q := StopWatchers(PeerAt(s, i)).(state := Transport);
    PutKeeps(c, {i}, i, q);
    RequeueKeeps(Put(c, i, q), i);
  }

  lemma RetryTimerCounts(s: Manager, i: nat)
    requires Counted(s) && i < POOL_SIZE == |s.pool.slots| && CategoryOf(PeerAt(s, i)) == Waiting
    requires PeerAt(s, i).state == Failed && PeerAt(s, i).source != NoSource
    ensures Counted(TimerCallback(s, i))
  {
    var t := TimerCallback(s, i);
    assert t.pool.slots == s.pool.slots[i := t.pool.slots[i]];
    CountMoves(s.pool.slots, i, t.pool.slots[i]);
    CountBound(s.pool.slots, Retrying);
  }

  lemma ShapeAt(s: Manager, i: nat)
    requires Steady(s) && i < POOL_SIZE
    ensures Shape(PeerAt(s, i)) && |s.pool.slots| == POOL_SIZE
  {
    assert SlotOk(CoreOf(s), i);
  }

  /** A timer only runs on a peer in flight or waiting to be retried. */
  lemma TimerKeeps(s: Manager, i: nat)
    requires Steady(s) && i < POOL_SIZE && PeerAt(s, i).timer.Some?
    ensures Steady(TimerCallback(s, i))
    ensures Counted(s) ==> Counted(TimerCallback(s, i))
  {
    ShapeAt(s, i);
    hide Intact;
    var p := PeerAt(s, i);
    if CategoryOf(p) == Waiting {
      RetryTimerKeeps(s, i);
      if Counted(s) { RetryTimerCounts(s, i); }
    } else {
      TakeOut(s, i);
      var q := p.(timer := None);
      Work(s, i, q);
      hide HandleFailure;
      assert TimerCallback(s, i) == HandleFailure(WithPeer(s, i, q), i);
      HandleFailureKeeps(WithPeer(s, i, q), i);
    }
  }

  // Socket events.

  /** Encoding into the empty send ring from a reset cursor completes at once. */
  lemma EncodesAtOnce(p: Peer, handshake: seq<byte>)
    requires |handshake| == Handshake.LENGTH && p.send == []
    ensures var q := EncodeHandshake(p.(cursor := 0), handshake);
            EncodeCompleted(q) && q == p.(cursor := Handshake.LENGTH, send := handshake)
  {
    assert handshake[0..Handshake.LENGTH] == handshake;
  }

  /** The peer once its handshake is encoded and sent as far as the socket took it. */
  function Greeted(p: Peer, handshake: seq<byte>, o: SendOutcome): Peer {
    Sending(p.(state := Handshaking, cursor := Handshake.LENGTH, send := handshake), o)
  }

  lemma TransportInitiationForm(s: Manager, i: nat, io: Io)
    requires HasSlot(s, i) && Sized(s) && !s.crashed && io.socketError == 0 && PeerAt(s, i).send == []
    ensures var g := WithPeer(s, i, Greeted(PeerAt(s, i), s.handshake, io.send));
            TransportInitiation(s, i, true, io) ==
              if io.send.SendFails? then HandleFailure(g, i)
              else Watch(g, i, if AfterSend(s.handshake, io.send) == [] then Reading else Writing)
  {
    var p := PeerAt(s, i).(state := Handshaking);
    EncodesAtOnce(p, s.handshake);
    var q := EncodeHandshake(p.(cursor := 0), s.handshake);
    hide HandleFailure, EncodeHandshake;
    assert WithPeer(WithPeer(s, i, q), i, Greeted(PeerAt(s, i), s.handshake, io.send)) ==
           WithPeer(s, i, Greeted(PeerAt(s, i), s.handshake, io.send));
  }

  lemma WatchIsWithPeer(s: Manager, i: nat, p: Peer, interest: Interest)
    requires HasSlot(s, i)
    ensures Watch(WithPeer(s, i, p), i, interest) == WithPeer(s, i, p.(interest := interest))
  {
    assert s.pool.slots[i := s.pool.slots[i].(value := p)][i := s.pool.slots[i].(value := p.(interest := interest))]
        == s.pool.slots[i := s.pool.slots[i].(value := p.(interest := interest))];
  }

  /** Putting the peer back with other buffers, direction or handshake progress. */
  lemma ResumeKeeps(s: Manager, i: nat, q: Peer)
    requires Working(s, i) && SameWork(PeerAt(s, i), q) && Shape(q)
    ensures Steady(WithPeer(s, i, q))
    ensures Counted(s) ==> Counted(WithPeer(s, i, q))
  {
    Work(s, i, q);
    PutBack(WithPeer(s, i, q), i);
  }

  /** A greeted peer is still the same work, and has the shape of its direction. */
  lemma GreetedWorks(p: Peer, handshake: seq<byte>, o: SendOutcome)
    requires Shape(p) && InFlight(p) && p.send == [] && |handshake| == Handshake.LENGTH
    requires p.state == Transport || CategoryOf(p) == Outbound
    ensures var g := Greeted(p, handshake, o);
            && SameWork(p, g)
            && SameWork(p, g.(interest := Reading)) && SameWork(p, g.(interest := Writing))
            && Shape(g.(interest := Writing))
            && (g.send == [] ==> Through(g))
            && (g.send == [] && p.state == Transport ==> Shape(g.(interest := Reading)))
  {
  }

  lemma TransportInitiationKeeps(s: Manager, i: nat, writable: bool, io: Io)
    requires Working(s, i) && Shape(PeerAt(s, i)) && PeerAt(s, i).state == Transport
    ensures Steady(TransportInitiation(s, i, writable, io))
    ensures Counted(s) ==> Counted(TransportInitiation(s, i, writable, io))
  {
    WorkingBasics(s, i);
    hide Working, Steady, Counted, HandleFailure;
    if !writable {
      PutBack(s, i);
    } else if io.socketError != 0 {
      HandleFailureKeeps(s, i);
    } else {
      GreetingKeeps(s, i, io);
    }
  }

  lemma GreetingKeeps(s: Manager, i: nat, io: Io)
    requires Working(s, i) && Shape(PeerAt(s, i)) && PeerAt(s, i).state == Transport && io.socketError == 0
    ensures Steady(TransportInitiation(s, i, true, io))
    ensures Counted(s) ==> Counted(TransportInitiation(s, i, true, io))
  {
    WorkingBasics(s, i);
    TransportInitiationForm(s, i, io);
    var p := PeerAt(s, i);
    GreetedWorks(p, s.handshake, io.send);
    var g := Greeted(p, s.handshake, io.send);
    var interest := if AfterSend(s.handshake, io.send) == [] then Reading else Writing;
    assert g.send == AfterSend(s.handshake, io.send);
    WatchIsWithPeer(s, i, g, interest);
    hide Working, Steady, Counted, HandleFailure, TransportInitiation, Shape, SameWork, Greeted, WithPeer, Watch, AfterSend;
    if io.send.SendFails? {
      Work(s, i, g);
      HandleFailureKeeps(WithPeer(s, i, g), i);
    } else {
      ResumeKeeps(s, i, g.(interest := interest));
    }
  }

  /** The peer after more of its handshake was sent, and what it may be used as then. */
  lemma SentWorks(p: Peer, o: SendOutcome)
    requires Shape(p) && InFlight(p) && p.interest == Writing && p.state == Handshaking
    ensures var q := Sending(p, o);
            && SameWork(p, q) && q.source == p.source
            && (q.send != [] ==> Shape(q))
            && (q.send == [] && p.source == Tracker ==>
                Shape(q.(interest := Reading)) && SameWork(p, q.(interest := Reading)))
            && (q.send == [] && p.source == TcpServer ==> Through(q))
  {
  }

  lemma FinishSendKeeps(s: Manager, i: nat, o: SendOutcome)
    requires Working(s, i) && Shape(PeerAt(s, i)) && PeerAt(s, i).interest == Writing && PeerAt(s, i).state == Handshaking
    ensures Steady(FinishSend(s, i, o))
    ensures Counted(s) ==> Counted(FinishSend(s, i, o))
  {
    var p := PeerAt(s, i);
    var q := Sending(p, o);
    WorkingBasics(s, i);
    SentWorks(p, o);
    hide Working, Steady, Counted, HandleFailure, Dispatch, Shape, SameWork, Through, Tried, AfterSend;
    Work(s, i, q);
    var t := WithPeer(s, i, q);
    assert SendMessages(s, i, o) == t;
    if o.SendFails? {
      HandleFailureKeeps(t, i);
    } else if q.send != [] {
      ResumeKeeps(s, i, q);
    } else if q.source == Tracker {
      WatchIsWithPeer(s, i, q, Reading);
      ResumeKeeps(s, i, q.(interest := Reading));
    } else {
      DispatchKeeps(t, i);
    }
  }

  lemma RespondForm(s: Manager, i: nat, o: SendOutcome)
    requires HasSlot(s, i) && Sized(s) && !s.crashed
    requires PeerAt(s, i).send == [] && PeerAt(s, i).state == Handshaking
    ensures var g := WithPeer(s, i, Greeted(PeerAt(s, i), s.handshake, o));
            Respond(s, i, o) ==
              if o.SendFails? then HandleFailure(g, i)
              else if AfterSend(s.handshake, o) != [] then Watch(g, i, Writing)
              else Dispatch(g, i)
  {
    var p := PeerAt(s, i);
    EncodesAtOnce(p, s.handshake);
    var q := EncodeHandshake(p.(cursor := 0), s.handshake);
    hide HandleFailure, Dispatch, EncodeHandshake;
    assert WithPeer(WithPeer(s, i, q), i, Greeted(p, s.handshake, o)) == WithPeer(s, i, Greeted(p, s.handshake, o));
  }

  lemma RespondKeeps(s: Manager, i: nat, o: SendOutcome)
    requires Working(s, i) && Shape(PeerAt(s, i)) && CategoryOf(PeerAt(s, i)) == Outbound
    requires PeerAt(s, i).interest == Reading
    ensures Steady(Respond(s, i, o))
    ensures Counted(s) ==> Counted(Respond(s, i, o))
  {
    WorkingBasics(s, i);
    RespondForm(s, i, o);
    var p := PeerAt(s, i);
    GreetedWorks(p, s.handshake, o);
    var g := Greeted(p, s.handshake, o);
    assert g.send == AfterSend(s.handshake, o);
    WatchIsWithPeer(s, i, g, Writing);
    hide Working, Steady, Counted, HandleFailure, Dispatch, Respond, Shape, SameWork, Greeted, WithPeer, Watch, AfterSend;
    Work(s, i, g);
    if o.SendFails? {
      HandleFailureKeeps(WithPeer(s, i, g), i);
    } else if AfterSend(s.handshake, o) != [] {
      ResumeKeeps(s, i, g.(interest := Writing));
    } else {
      DispatchKeeps(WithPeer(s, i, g), i);
    }
  }

  /** The peer after `recv` and the decoder. */
  function Heard(p: Peer, infoHash: seq<byte>, o: RecvOutcome): Peer
    requires |p.recv| < Handshake.LENGTH
  {
    var queue := p.recv + Taken(p.recv, o);
    var d := Handshake.Decoded(queue, infoHash, p.contact.peerId);
    p.(recv := if d.complete then [] else queue, contact := p.contact.(peerId := d.peerId),
       heard := Listened(p.heard, o))
  }

  lemma ReceiveHandshakeForm(s: Manager, i: nat, io: Io)
    requires HasSlot(s, i) && Sized(s) && |PeerAt(s, i).recv| < Handshake.LENGTH
    requires PeerAt(s, i).source != NoSource
    ensures var p := PeerAt(s, i);
            var queue := p.recv + Taken(p.recv, io.recv);
            var d := Handshake.Decoded(queue, s.infoHash, p.contact.peerId);
            var h := WithPeer(s, i, Heard(p, s.infoHash, io.recv));
            ReceiveHandshake(s, i, io) ==
              if RecvBroken(p.recv, io.recv) then HandleFailure(WithPeer(s, i, p.(recv := queue, heard := Listened(p.heard, io.recv))), i)
              else if !d.complete then h
              else if !d.valid then HardDelete(h, i)
              else if p.source == Tracker then Dispatch(h, i)
              else Respond(h, i, io.send)
  {
    var p := PeerAt(s, i);
    var queue := p.recv + Taken(p.recv, io.recv);
    hide HandleFailure, HardDelete, Dispatch, Respond;
    assert WithPeer(WithPeer(s, i, p.(recv := queue, heard := Listened(p.heard, io.recv))), i, Heard(p, s.infoHash, io.recv))
        == WithPeer(s, i, Heard(p, s.infoHash, io.recv));
  }

  lemma HeardWorks(p: Peer, infoHash: seq<byte>, o: RecvOutcome)
    requires Shape(p) && InFlight(p) && p.state == Handshaking && p.interest == Reading && |infoHash| == 20
    ensures var queue := p.recv + Taken(p.recv, o);
            && |queue| <= Handshake.LENGTH
            && SameWork(p, p.(recv := queue, heard := Listened(p.heard, o)))
            && SameWork(p, Heard(p, infoHash, o)) && Shape(Heard(p, infoHash, o))
            && CategoryOf(Heard(p, infoHash, o)) == CategoryOf(p) && Heard(p, infoHash, o).interest == Reading
            && (p.source == Tracker ==> Through(Heard(p, infoHash, o)))
  {
  }

  lemma ReceiveHandshakeKeeps(s: Manager, i: nat, io: Io)
    requires Working(s, i) && Shape(PeerAt(s, i))
    requires PeerAt(s, i).state == Handshaking && PeerAt(s, i).interest == Reading
    ensures Steady(ReceiveHandshake(s, i, io))
    ensures Counted(s) ==> Counted(ReceiveHandshake(s, i, io))
  {
    var p := PeerAt(s, i);
    ReceiveHandshakeForm(s, i, io);
    WorkingBasics(s, i);
    HeardWorks(p, s.infoHash, io.recv);
    var queue := p.recv + Taken(p.recv, io.recv);
    var h := Heard(p, s.infoHash, io.recv);
    var d := Handshake.Decoded(queue, s.infoHash, p.contact.peerId);
    hide Working, Steady, Counted, HandleFailure, HardDelete, Dispatch, Respond, ReceiveHandshake, Heard, Shape, SameWork,
         WithPeer, RecvBroken, Taken, Tried, Handshake.Decoded;
    Work(s, i, h);
    var t := WithPeer(s, i, h);
    if RecvBroken(p.recv, io.recv) {
      Work(s, i, p.(recv := queue, heard := Listened(p.heard, io.recv)));
      HandleFailureKeeps(WithPeer(s, i, p.(recv := queue, heard := Listened(p.heard, io.recv))), i);
    } else if !d.complete {
      ResumeKeeps(s, i, h);
    } else if !d.valid {
      HardDeleteKeeps(t, i);
    } else if p.source == Tracker {
      DispatchKeeps(t, i);
    } else {
      RespondKeeps(t, i, io.send);
    }
  }

  /** A started socket watcher fires, for its own direction or with an error. */
  ghost predicate Fires(p: Peer, broken: bool, writable: bool, readable: bool) {
    && InFlight(p)
    && (broken || ((writable ==> p.interest == Writing) && (readable ==> p.interest == Reading)))
  }

  lemma HandshakeEventKeeps(s: Manager, i: nat, writable: bool, readable: bool, io: Io)
    requires Working(s, i) && Shape(PeerAt(s, i)) && PeerAt(s, i).state == Handshaking
    requires (writable ==> PeerAt(s, i).interest == Writing) && (readable ==> PeerAt(s, i).interest == Reading)
    ensures Steady(HandshakeEvent(s, i, writable, readable, io))
    ensures Counted(s) ==> Counted(HandshakeEvent(s, i, writable, readable, io))
  {
    WorkingBasics(s, i);
    hide Working, Steady, Counted, Shape, FinishSend, ReceiveHandshake;
    if writable {
      FinishSendKeeps(s, i, io.send);
    } else if readable {
      ReceiveHandshakeKeeps(s, i, io);
    } else {
      PutBack(s, i);
    }
  }

  lemma SocketForm(s: Manager, i: nat, broken: bool, writable: bool, readable: bool, io: Io)
    requires HasSlot(s, i) && Sized(s) && !s.crashed && InFlight(PeerAt(s, i)) && Shape(PeerAt(s, i))
    ensures PeerAt(s, i).state == Transport || PeerAt(s, i).state == Handshaking
    ensures SocketCallback(s, i, broken, writable, readable, io) ==
      if MetQuota(s) then HardDelete(s, i)
      else if broken then HandleFailure(s, i)
      else if PeerAt(s, i).state == Transport then TransportInitiation(s, i, writable, io)
      else HandshakeEvent(s, i, writable, readable, io)
  {
    hide HardDelete, HandleFailure, TransportInitiation, HandshakeEvent;
    assert Assert(Assert(s, true), true) == s;
  }

  lemma SocketKeeps(s: Manager, i: nat, broken: bool, writable: bool, readable: bool, io: Io)
    requires Steady(s) && i < POOL_SIZE && Fires(PeerAt(s, i), broken, writable, readable)
    ensures Steady(SocketCallback(s, i, broken, writable, readable, io))
    ensures Counted(s) ==> Counted(SocketCallback(s, i, broken, writable, readable, io))
  {
    TakeOut(s, i);
    WorkingBasics(s, i);
    SocketForm(s, i, broken, writable, readable, io);
    hide Working, Steady, Counted, Shape, HandleFailure, HardDelete, HandshakeEvent, TransportInitiation, SocketCallback,
         Intact, InFlight, Tried, MetQuota, WithPeer;
    if MetQuota(s) {
      HardDeleteKeeps(s, i);
    } else if broken {
      HandleFailureKeeps(s, i);
    } else if PeerAt(s, i).state == Transport {
      TransportInitiationKeeps(s, i, writable, io);
    } else {
      HandshakeEventKeeps(s, i, writable, readable, io);
    }
  }
}
