/** Draining, scheduling and accepting keep the invariant, and no assertion in them fails. */
module ManagerScheduling {
  import opened Common
  import opened SlotPool
  import opened ManagerModel
  import opened ManagerInvariant
  import opened ManagerCallbacks
  import OverwritableCache

  lemma {:induction false} DrainKeeps(s: Manager, contacts: seq<Contact>)
    requires Steady(s)
    ensures Steady(Drain(s, contacts))
    ensures Counted(s) ==> Counted(Drain(s, contacts))
    decreases |contacts|
  {
    if contacts != [] {
      var t := s.(cache := OverwritableCache.Pushed(s.cache, contacts[0], CACHE_SIZE),
                  statistics := s.statistics.(
                    inCache := if s.statistics.inCache < CACHE_SIZE then s.statistics.inCache + 1 else s.statistics.inCache));
      assert CoreOf(t) == CoreOf(s);
      hide Intact;
      DrainKeeps(t, contacts[1..]);
    } else {
      assert CoreOf(Drain(s, contacts)) == CoreOf(s);
      hide Intact;
    }
  }

  // Connecting.

  /** The peer of slot `i` is taken out, registered, and has neither a socket nor an attempt under way. */
  ghost predicate Ready(s: Manager, i: nat) {
    && !s.crashed && Sized(s) && i < POOL_SIZE && Intact(CoreOf(s), {i}) && Registered(CoreOf(s), i)
    && ReadyPeer(PeerAt(s, i))
    && Attempts(s.log, i, GenerationAt(s, i)) == PeerAt(s, i).failures
  }

  predicate ReadyPeer(p: Peer) {
    && p.source == Tracker && p.state == Transport && p.store == Some(p.contact.endpoint) && p.socket == None
    && p.interest == Stopped && p.timer == None && p.recv == [] && p.send == [] && p.failures < MAX_RETRIES
    && p.cursor == 0
  }

  /** A peer whose connection attempt has begun. */
  function Begun(p: Peer, descriptor: nat, o: ConnectOutcome): Peer {
    p.(socket := Some(descriptor), interest := Writing, timer := Some(CONNECT_TIMEOUT),
       state := if o.Connects? then Handshaking else p.state, atOnce := o.Connects?, taken := [], heard := [])
  }

  lemma InitiateConnectForm(s: Manager, i: nat, o: ConnectOutcome)
    requires HasSlot(s, i) && !s.crashed && ReadyPeer(PeerAt(s, i))
    ensures var t := InitiateConnect(s, i, o);
            var c := Logged(CoreOf(s), Attempted(i, GenerationAt(s, i)));
            && !t.crashed && t.handshake == s.handshake && t.infoHash == s.infoHash && t.cache == s.cache
            && HasSlot(t, i) && PeerAt(t, i).contact == PeerAt(s, i).contact
            && (Opens(s, i, o) ==>
                && CoreOf(t) == Put(c, i, Begun(PeerAt(s, i), s.nextDescriptor, o))
                && t.statistics == s.statistics.(inboundInflight := Inc(s.statistics.inboundInflight)))
            && (!Opens(s, i, o) ==> CoreOf(t) == c && t.statistics == s.statistics)
  {
    var t := InitiateConnect(s, i, o);
    assert t.pool.slots == s.pool.slots[i := t.pool.slots[i]];
  }

  /** The attempt begins, or its peer is deleted. */
  function ConnectOrDelete(s: Manager, i: nat, o: ConnectOutcome): Manager
    requires HasSlot(s, i)
  {
    var t := InitiateConnect(s, i, o);
    if Opens(s, i, o) then t else DeletePeer(t, i)
  }

  lemma BegunShape(p: Peer, descriptor: nat, o: ConnectOutcome)
    requires ReadyPeer(p)
    ensures var q := Begun(p, descriptor, o);
            && Shape(q) && CategoryOf(q) == Inbound && AttemptsOf(q) == p.failures + 1
            && q.contact == p.contact
  {
  }

  lemma ReadyBasics(s: Manager, i: nat)
    requires Ready(s, i)
    ensures HasSlot(s, i) && i < POOL_SIZE && i in s.pool.occupied && !s.crashed && Sized(s) && ReadyPeer(PeerAt(s, i))
  {
    assert i in {i};
  }

  /** The attempt is on record. */
  function Recorded(s: Manager, i: nat): Core
    requires HasSlot(s, i)
  {
    Logged(CoreOf(s), Attempted(i, GenerationAt(s, i)))
  }

  lemma ReadyAttempts(s: Manager, i: nat)
    requires Ready(s, i)
    ensures HasSlot(s, i) && Intact(Recorded(s, i), {i}) && Registered(Recorded(s, i), i)
    ensures Attempts(Recorded(s, i).log, i, Gen(Recorded(s, i), i)) == PeerAt(s, i).failures + 1
  {
    AttemptKeeps(CoreOf(s), i);
  }

  lemma BeginKeeps(c: Core, i: nat, q: Peer)
    requires i < POOL_SIZE && Intact(c, {i}) && Registered(c, i)
    requires q.contact.endpoint == At(c, i).contact.endpoint && Shape(q) && CategoryOf(q) == Inbound
    requires Attempts(c.log, i, Gen(c, i)) == AttemptsOf(q)
    ensures Intact(Put(c, i, q), {})
  {
    hide Intact, Shape;
    HoleIsOccupied(c, i);
    PutKeeps(c, {i}, i, q);
    assert SlotOk(Put(c, i, q), i);
    CloseHole(Put(c, i, q), i);
  }

  lemma HoleIsOccupied(c: Core, i: nat)
    requires Intact(c, {i})
    ensures i in c.pool.occupied && |c.pool.slots| == POOL_SIZE
  {
    assert i in {i};
  }

  lemma ReadyConnects(s: Manager, i: nat, o: ConnectOutcome)
    requires Ready(s, i)
    ensures Steady(ConnectOrDelete(s, i, o))
  {
    ReadyBasics(s, i);
    InitiateConnectForm(s, i, o);
    ReadyAttempts(s, i);
    var p := PeerAt(s, i);
    BegunShape(p, s.nextDescriptor, o);
    hide Intact, Ready, InitiateConnect, DeletePeer, Shape, Begun, ReadyPeer;
    if Opens(s, i, o) {
      BeginKeeps(Recorded(s, i), i, Begun(p, s.nextDescriptor, o));
    } else {
      DeleteKeeps(InitiateConnect(s, i, o), i);
    }
  }

  /** The slot a connection attempt leaves: begun, or blank under the next generation. */
  function SlotAfterConnect(s: Manager, i: nat, o: ConnectOutcome): Slot<Peer>
    requires HasSlot(s, i)
  {
    if Opens(s, i, o) then Slot(Begun(PeerAt(s, i), s.nextDescriptor, o), GenerationAt(s, i))
    else Slot(BLANK, GenerationAt(s, i) + 1)
  }

  lemma ConnectOrDeleteForm(s: Manager, i: nat, o: ConnectOutcome)
    requires HasSlot(s, i) && !s.crashed && ReadyPeer(PeerAt(s, i)) && i in s.pool.occupied
    ensures var t := ConnectOrDelete(s, i, o);
            && t.pool.slots == s.pool.slots[i := SlotAfterConnect(s, i, o)]
            && t.retryQueue == s.retryQueue && t.cache == s.cache
            && t.statistics == if Opens(s, i, o)
                               then s.statistics.(inboundInflight := Inc(s.statistics.inboundInflight))
                               else s.statistics
  {
    InitiateConnectForm(s, i, o);
    var t := InitiateConnect(s, i, o);
    hide InitiateConnect;
    if !Opens(s, i, o) { DeleteCore(t, i); }
  }

  /** Exactness after one slot has changed category and the cache and the queue have shrunk. */
  lemma CountedAfter(s: Manager, t: Manager, i: nat, x: Slot<Peer>)
    requires Counted(s) && i < POOL_SIZE == |s.pool.slots| && t.pool.slots == s.pool.slots[i := x]
    requires |t.cache| <= CACHE_SIZE
    requires t.statistics == Moved(s.statistics, CategoryOf(PeerAt(s, i)), CategoryOf(x.value)).(inCache := |t.cache|)
    requires t.statistics.inRetry == |t.retryQueue|
    requires forall k :: k in t.retryQueue ==> k in s.retryQueue && k.slot != i
    ensures Counted(t)
  {
    CountMoves(s.pool.slots, i, x);
  }

  // Discovered contacts.

  lemma EnrolledCore(s: Manager)
    requires s.cache != [] && s.pool.available != [] && HasSlot(s, NextSlot(s.pool))
    requires PeerAt(s, NextSlot(s.pool)) == BLANK
    ensures var i := NextSlot(s.pool);
            var p := Initialized(BLANK, s.cache[|s.cache| - 1], Tracker, Transport);
            && CoreOf(Enrolled(s)) == Enlisted(Acquired(CoreOf(s)), i, p)
            && PeerAt(Enrolled(s), i) == p && ReadyPeer(p) && p.failures == 0
            && p.contact == s.cache[|s.cache| - 1]
            && Enrolled(s).crashed == s.crashed && (Sized(s) ==> Sized(Enrolled(s)))
            && GenerationAt(Enrolled(s), i) == GenerationAt(s, i) && Enrolled(s).log == s.log
  {
  }

  lemma EnrolledIsReady(s: Manager)
    requires Steady(s) && s.cache != [] && s.pool.available != []
    requires s.cache[|s.cache| - 1].endpoint !in s.peers
    ensures HasSlot(s, NextSlot(s.pool)) && Ready(Enrolled(s), NextSlot(s.pool))
  {
    var c, i := CoreOf(s), NextSlot(s.pool);
    AcquireKeeps(c);
    EnrolledCore(s);
    var p := Initialized(BLANK, s.cache[|s.cache| - 1], Tracker, Transport);
    hide Intact, Enrolled, Initialized, Fresh, ReadyPeer;
    FreshAttempts(Acquired(c), i);
    EnlistKeeps(Acquired(c), i, p);
  }

  lemma FreshAttempts(c: Core, i: nat)
    requires i < |c.pool.slots| && Fresh(c, i)
    ensures Attempts(c.log, i, Gen(c, i)) == 0
  {
  }

  /** A contact that is already registered gives its slot straight back. */
  lemma DuplicateKeeps(s: Manager)
    requires Steady(s) && s.cache != [] && s.pool.available != []
    requires s.cache[|s.cache| - 1].endpoint in s.peers
    ensures HasSlot(s, NextSlot(s.pool)) && Steady(ReleaseSlot(WithSlotTaken(s), NextSlot(s.pool)))
  {
    var c, i := CoreOf(s), NextSlot(s.pool);
    AcquireKeeps(c);
    var d := Acquired(c);
    var t := ReleaseSlot(WithSlotTaken(s), i);
    BlankReleaseKeeps(d, i);
    assert CoreOf(t) == BlankReleased(d, i);
  }

  function BlankReleased(c: Core, i: nat): Core
    requires i < |c.pool.slots|
  {
    c.(pool := AfterRelease(c.pool, i), log := c.log + [Released(i, Gen(c, i))])
  }

  lemma BlankReleasedSlotOk(c: Core, i: nat, j: nat)
    requires i < |c.pool.slots| && j < |c.pool.slots| && LogOk(c) && Fresh(c, i)
    requires j != i ==> SlotOk(c, j)
    ensures SlotOk(BlankReleased(c, i), j)
  {
    LogAppended(c.log, Released(i, Gen(c, i)), j, Gen(BlankReleased(c, i), j));
  }

  lemma BlankReleasedRest(c: Core, i: nat)
    requires i < |c.pool.slots| && SlotPool.Valid(c.pool) && i in c.pool.occupied && LogOk(c) && Fresh(c, i)
    requires PeersOk(c) && TicketsOk(c, {i}) && ConnectsOk(c, {i})
    ensures var d := BlankReleased(c, i);
            SlotPool.Valid(d.pool) && LogOk(d) && PeersOk(d) && TicketsOk(d, {}) && ConnectsOk(d, {})
  {
    VacatedLogOk(c, i);
    ReleaseKeepsValid(c.pool, i);
    BlankReleasedQueues(c, i);
    hide TicketsOk, ConnectsOk, PopsOk;
  }

  lemma BlankReleasedQueues(c: Core, i: nat)
    requires i < |c.pool.slots| && TicketsOk(c, {i}) && ConnectsOk(c, {i})
    ensures TicketsOk(BlankReleased(c, i), {}) && ConnectsOk(BlankReleased(c, i), {})
  {
  }

  lemma BlankReleaseKeeps(c: Core, i: nat)
    requires i < POOL_SIZE && Intact(c, {i}) && Fresh(c, i)
    ensures Intact(BlankReleased(c, i), {})
  {
    var d := BlankReleased(c, i);
    assert i in {i};
    BlankReleasedRest(c, i);
    forall j | 0 <= j < POOL_SIZE ensures SlotOk(d, j) {
      BlankReleasedSlotOk(c, i, j);
    }
    hide SlotOk, LogOk, PeersOk, TicketsOk, ConnectsOk;
  }

  /** Acquisition cannot fail, and whatever the kernel answers the invariant is kept. */
  lemma TryDiscoveredKeeps(s: Manager, o: ConnectOutcome)
    requires Steady(s) && s.cache != [] && s.pool.available != []
    ensures HasSlot(s, NextSlot(s.pool)) && Steady(TryDiscovered(s, o))
  {
    if s.cache[|s.cache| - 1].endpoint in s.peers {
      DuplicateKeeps(s);
    } else {
      EnrolledIsReady(s);
      hide Intact, Ready;
      ReadyConnects(Enrolled(s), NextSlot(s.pool), o);
    }
  }

  lemma DeleteFrees(s: Manager, i: nat)
    requires HasSlot(s, i)
    ensures DeletePeer(s, i).pool.available == s.pool.available + [i]
  {
  }

  /** After a contact was tried, a slot is free for the next one unless an attempt was begun. */
  lemma TryDiscoveredAvailable(s: Manager, o: ConnectOutcome)
    requires s.cache != [] && s.pool.available != [] && HasSlot(s, NextSlot(s.pool))
    ensures !DiscoveredOpens(s, o) ==> TryDiscovered(s, o).pool.available != []
  {
    if s.cache[|s.cache| - 1].endpoint !in s.peers {
      EnrolledOpens(s, o);
      InitiateConnectInflight(Enrolled(s), NextSlot(s.pool), o);
      DeleteFrees(InitiateConnect(Enrolled(s), NextSlot(s.pool), o), NextSlot(s.pool));
      hide InitiateConnect, Enrolled, DeletePeer, Opens, DiscoveredOpens, SameScheduler;
    }
  }

  /** `t` is `s` with the freshest contact gone and its slot `i` now `x`, as far as the counters care. */
  ghost predicate ContactPlaced(s: Manager, t: Manager, i: nat, x: Slot<Peer>)
    requires s.cache != [] && i < |s.pool.slots|
  {
    && t.pool.slots == s.pool.slots[i := x]
    && t.cache == s.cache[..|s.cache| - 1] && t.retryQueue == s.retryQueue
    && (CategoryOf(x.value) == Inbound || CategoryOf(x.value) == Vacant)
    && t.statistics == Moved(s.statistics, Vacant, CategoryOf(x.value)).(inCache := Dec(s.statistics.inCache))
  }

  lemma DuplicatePlaced(s: Manager)
    requires s.cache != [] && s.pool.available != [] && HasSlot(s, NextSlot(s.pool))
    requires PeerAt(s, NextSlot(s.pool)) == BLANK
    ensures var i := NextSlot(s.pool);
            ContactPlaced(s, ReleaseSlot(WithSlotTaken(s), i), i, Slot(BLANK, GenerationAt(s, i) + 1))
  {
  }

  lemma EnrolledForm(s: Manager, x: Slot<Peer>)
    requires s.cache != [] && s.pool.available != [] && HasSlot(s, NextSlot(s.pool))
    ensures var e, i := Enrolled(s), NextSlot(s.pool);
            && HasSlot(e, i) && e.cache == s.cache[..|s.cache| - 1] && e.retryQueue == s.retryQueue
            && e.statistics == s.statistics.(inCache := Dec(s.statistics.inCache))
            && e.pool.slots[i := x] == s.pool.slots[i := x]
  {
  }

  lemma EnrolledPlaced(s: Manager, o: ConnectOutcome)
    requires s.cache != [] && s.pool.available != [] && HasSlot(s, NextSlot(s.pool))
    requires Ready(Enrolled(s), NextSlot(s.pool))
    ensures var i := NextSlot(s.pool); var e := Enrolled(s);
            HasSlot(e, i) && ContactPlaced(s, ConnectOrDelete(e, i, o), i, SlotAfterConnect(e, i, o))
  {
    var e, i := Enrolled(s), NextSlot(s.pool);
    ReadyBasics(e, i);
    var x := SlotAfterConnect(e, i, o);
    EnrolledForm(s, x);
    ConnectOrDeleteForm(e, i, o);
    BegunShape(PeerAt(e, i), e.nextDescriptor, o);
    hide Ready, Enrolled, ConnectOrDelete, Begun, Opens;
  }

  lemma FreeSlot(s: Manager)
    requires Steady(s) && s.pool.available != []
    ensures NextSlot(s.pool) < POOL_SIZE == |s.pool.slots| && PeerAt(s, NextSlot(s.pool)) == BLANK
  {
    AcquireKeeps(CoreOf(s));
  }

  /** The slot the freshest contact ends up in. */
  lemma TryDiscoveredPlaced(s: Manager, o: ConnectOutcome) returns (x: Slot<Peer>)
    requires Steady(s) && s.cache != [] && s.pool.available != []
    ensures HasSlot(s, NextSlot(s.pool)) && |s.pool.slots| == POOL_SIZE
    ensures CategoryOf(PeerAt(s, NextSlot(s.pool))) == Vacant
    ensures ContactPlaced(s, TryDiscovered(s, o), NextSlot(s.pool), x)
  {
    var i := NextSlot(s.pool);
    FreeSlot(s);
    if s.cache[|s.cache| - 1].endpoint in s.peers {
      x := Slot(BLANK, GenerationAt(s, i) + 1);
      hide Intact, ContactPlaced;
      DuplicatePlaced(s);
    } else {
      EnrolledIsReady(s);
      hide Intact, Ready, ContactPlaced, InitiateConnect, DeletePeer, Enrolled;
      EnrolledPlaced(s, o);
      x := SlotAfterConnect(Enrolled(s), i, o);
    }
  }

  lemma TryDiscoveredCounts(s: Manager, o: ConnectOutcome)
    requires Steady(s) && Counted(s) && s.cache != [] && s.pool.available != []
    ensures HasSlot(s, NextSlot(s.pool)) && Counted(TryDiscovered(s, o))
  {
    var i := NextSlot(s.pool);
    var x := TryDiscoveredPlaced(s, o);
    var t := TryDiscovered(s, o);
    LiveTickets(s);
    CountBound(s.pool.slots, Inbound);
    hide Steady, TryDiscovered;
    CountedAfter(s, t, i, x);
  }

  /** In a counted state every queued ticket names a slot that is waiting for its retry. */
  lemma LiveTickets(s: Manager)
    requires Steady(s) && Counted(s)
    ensures forall k :: k in s.retryQueue ==> HasSlot(s, k.slot) && CategoryOf(PeerAt(s, k.slot)) == Retrying
    ensures Distinct(s.retryQueue)
    ensures forall j, k :: 0 <= j < k < |s.retryQueue| ==> s.retryQueue[j].slot != s.retryQueue[k].slot
  {
    forall k | k in s.retryQueue ensures HasSlot(s, k.slot) && CategoryOf(PeerAt(s, k.slot)) == Retrying {
      assert TicketsOk(CoreOf(s), {});
    }
    forall j, k | 0 <= j < k < |s.retryQueue| ensures s.retryQueue[j].slot != s.retryQueue[k].slot {
      assert s.retryQueue[j] in s.retryQueue && s.retryQueue[k] in s.retryQueue;
    }
  }

  lemma {:induction false} DrainCacheKeeps(s: Manager, net: seq<ConnectOutcome>)
    requires Steady(s) && s.pool.available != []
    ensures Steady(DrainCache(s, net).manager)
    ensures Counted(s) ==> Counted(DrainCache(s, net).manager)
    decreases |s.cache|
  {
    if s.cache != [] {
      var o := NextOutcome(net);
      TryDiscoveredKeeps(s, o);
      TryDiscoveredAvailable(s, o);
      TryDiscoveredInflight(s, o);
      if Counted(s) { TryDiscoveredCounts(s, o); }
      hide Steady, Counted, TryDiscovered, DiscoveredOpens, AfterDiscovered;
      if !DiscoveredOpens(s, o) {
        DrainCacheKeeps(TryDiscovered(s, o), AfterDiscovered(s, net));
      }
    }
  }

  // Retries.

  /** The front ticket off the queue, with the outcome of its generation check on record. */
  function PoppedFront(s: Manager): Manager
    requires s.retryQueue != [] && HasSlot(s, s.retryQueue[0].slot)
  {
    var t := s.retryQueue[0];
    Log(s.(retryQueue := s.retryQueue[1..], statistics := s.statistics.(inRetry := Dec(s.statistics.inRetry))),
        Popped(t.slot, t.generation, GenerationAt(s, t.slot) == t.generation))
  }

  lemma TryFailedForm(s: Manager, o: ConnectOutcome)
    requires s.retryQueue != [] && HasSlot(s, s.retryQueue[0].slot)
    ensures TryFailed(s, o) ==
      if FrontPasses(s) then ConnectOrDelete(PoppedFront(s), s.retryQueue[0].slot, o) else PoppedFront(s)
    ensures Opens(PoppedFront(s), s.retryQueue[0].slot, o) == Opens(s, s.retryQueue[0].slot, o)
  {
    hide InitiateConnect, DeletePeer;
  }

  lemma PoppedFrontKeeps(s: Manager)
    requires Steady(s) && s.retryQueue != []
    ensures HasSlot(s, s.retryQueue[0].slot)
    ensures if FrontPasses(s) then Ready(PoppedFront(s), s.retryQueue[0].slot) else Steady(PoppedFront(s))
    ensures FrontPasses(s) ==> CategoryOf(PeerAt(s, s.retryQueue[0].slot)) == Retrying
  {
    UnqueueKeeps(CoreOf(s));
    hide Intact;
    assert CoreOf(PoppedFront(s)) == Unqueued(CoreOf(s));
  }

  lemma TryFailedKeeps(s: Manager, o: ConnectOutcome)
    requires Steady(s) && s.retryQueue != []
    ensures Steady(TryFailed(s, o))
  {
    PoppedFrontKeeps(s);
    TryFailedForm(s, o);
    hide Steady, Ready, TryFailed, PoppedFront, ConnectOrDelete;
    if FrontPasses(s) { ReadyConnects(PoppedFront(s), s.retryQueue[0].slot, o); }
  }

  lemma PoppedFrontForm(s: Manager)
    requires s.retryQueue != [] && HasSlot(s, s.retryQueue[0].slot)
    ensures var u := PoppedFront(s);
            && u.pool == s.pool && u.retryQueue == s.retryQueue[1..] && u.cache == s.cache
            && u.statistics == s.statistics.(inRetry := Dec(s.statistics.inRetry))
  {
  }

  /** In a counted state the front ticket passes, and no other ticket names its slot. */
  lemma FrontIsLive(s: Manager)
    requires Steady(s) && Counted(s) && s.retryQueue != []
    ensures HasSlot(s, s.retryQueue[0].slot) && FrontPasses(s) && |s.pool.slots| == POOL_SIZE
    ensures CategoryOf(PeerAt(s, s.retryQueue[0].slot)) == Retrying
    ensures forall k :: k in s.retryQueue[1..] ==> k in s.retryQueue && k.slot != s.retryQueue[0].slot
  {
    LiveTickets(s);
    assert s.retryQueue[0] in s.retryQueue;
    forall k | k in s.retryQueue[1..] ensures k in s.retryQueue && k.slot != s.retryQueue[0].slot {
      var n :| 0 <= n < |s.retryQueue[1..]| && s.retryQueue[1..][n] == k;
      assert s.retryQueue[n + 1] == k;
    }
  }

  lemma RetriedStatistics(s: Manager, from: Statistics, x: Slot<Peer>)
    requires Counted(s) && |s.pool.slots| == POOL_SIZE
    requires CategoryOf(x.value) == Inbound || CategoryOf(x.value) == Vacant
    requires from == s.statistics.(inRetry := Dec(s.statistics.inRetry))
    ensures Moved(s.statistics, Retrying, CategoryOf(x.value)).(inCache := |s.cache|) ==
      if CategoryOf(x.value) == Inbound then from.(inboundInflight := Inc(from.inboundInflight)) else from
  {
  }

  lemma TryFailedCounts(s: Manager, o: ConnectOutcome)
    requires Steady(s) && Counted(s) && s.retryQueue != []
    ensures Counted(TryFailed(s, o))
  {
    var i := s.retryQueue[0].slot;
    FrontIsLive(s);
    PoppedFrontKeeps(s);
    TryFailedForm(s, o);
    PoppedFrontForm(s);
    var u := PoppedFront(s);
    ReadyBasics(u, i);
    hide Steady, Ready, TryFailed, PoppedFront, ConnectOrDelete, Intact;
    var x := SlotAfterConnect(u, i, o);
    BegunShape(PeerAt(u, i), u.nextDescriptor, o);
    ConnectOrDeleteForm(u, i, o);
    hide Begun, Opens;
    RetriedStatistics(s, u.statistics, x);
    CountedAfter(s, TryFailed(s, o), i, x);
  }

  lemma {:induction false} FailedSchedulerKeeps(s: Manager, net: seq<ConnectOutcome>)
    requires Steady(s)
    ensures Steady(FailedScheduler(s, net).manager)
    ensures Counted(s) ==> Counted(FailedScheduler(s, net).manager)
    decreases |s.retryQueue|
  {
    if s.retryQueue != [] {
      var o := NextOutcome(net);
      TryFailedKeeps(s, o);
      TryFailedInflight(s, o);
      if Counted(s) { TryFailedCounts(s, o); }
      hide Steady, Counted, TryFailed;
      if !FrontPasses(s) {
        FailedSchedulerKeeps(TryFailed(s, o), net);
      } else if !Opens(s, s.retryQueue[0].slot, o) {
        FailedSchedulerKeeps(TryFailed(s, o), Rest(net));
      }
    }
  }

  // The round robin.

  lemma SchedulerFieldsKeep(s: Manager, t: Manager)
    requires Steady(s) && t == s.(empties := t.empties, current := t.current, notified := t.notified)
    ensures Steady(t) && (Counted(s) ==> Counted(t))
  {
    assert CoreOf(t) == CoreOf(s);
    hide Intact;
  }

  lemma TurnKeeps(s: Manager, net: seq<ConnectOutcome>)
    requires Steady(s)
    ensures Steady(Turn(s, net).manager)
    ensures Counted(s) ==> Counted(Turn(s, net).manager)
  {
    match s.current
    case DiscoveredSpot =>
      if s.pool.available != [] { DrainCacheKeeps(s, net); }
      hide Steady, Counted, DrainCache;
      SchedulerFieldsKeep(DiscoveredScheduler(s, net).manager, Turn(s, net).manager);
    case DisconnectedSpot =>
      SchedulerFieldsKeep(s, Turn(s, net).manager);
    case FailedSpot =>
      FailedSchedulerKeeps(s, net);
      hide Steady, Counted, FailedScheduler;
      SchedulerFieldsKeep(FailedScheduler(s, net).manager, Turn(s, net).manager);
  }

  lemma {:induction false} RoundRobinKeeps(s: Manager, net: seq<ConnectOutcome>)
    requires Steady(s)
    ensures Steady(RoundRobin(s, net))
    ensures Counted(s) ==> Counted(RoundRobin(s, net))
    decreases Budget(s), Unmarked(s.empties), Distance(s.current, s.empties)
  {
    if s.statistics.inboundInflight < MAX_INBOUND_INFLIGHT {
      TurnKeeps(s, net);
      hide Steady, Counted, Turn;
      var r := Turn(s, net);
      if !AllEmpty(r.manager.empties) {
        TurnProgress(s, net);
        RoundRobinKeeps(r.manager, r.net);
      }
    }
  }

  lemma ScheduleKeeps(s: Manager, net: seq<ConnectOutcome>)
    requires Steady(s)
    ensures Steady(Schedule(s, net))
    ensures Counted(s) ==> Counted(Schedule(s, net))
  {
    SchedulerFieldsKeep(s, s.(notified := false));
    hide Steady, Counted, RoundRobin;
    RoundRobinKeeps(s.(notified := false), net);
  }
}
