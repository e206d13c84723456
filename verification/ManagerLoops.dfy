/** How far the scheduler's and the server's loops go, and what they have done when they end. */
module ManagerLoops {
  import opened Common
  import opened SlotPool
  import opened ManagerModel
  import opened ManagerInvariant
  import opened ManagerCallbacks
  import opened ManagerScheduling

  /** The kernel lets the attempt begin. */
  predicate Begins(o: ConnectOutcome) { o == InProgress || o == Connects }

  // One contact.

  /** The peer of an attempt that has begun. */
  function Attempt(p: Peer, descriptor: nat, o: ConnectOutcome): Peer {
    p.(socket := Some(descriptor), interest := Writing, timer := Some(10),
       state := if o == Connects then Handshaking else Transport, atOnce := o == Connects, taken := [], heard := [])
  }

  function NewContact(c: Contact): Peer {
    BLANK.(contact := c, store := Some(c.endpoint), state := Transport, source := Tracker)
  }

  /** A descriptor that was handed out and closed again is not open. */
  predicate Unheld(s: Manager, t: Manager) {
    t.open == s.open || t.open == s.open - {s.nextDescriptor}
  }

  /** The freshest contact is out of the cache, and nothing else has come of it but a new generation of a free slot. */
  ghost predicate Dropped(s: Manager, t: Manager)
    requires s.cache != [] && s.pool.available != [] && HasSlot(s, NextSlot(s.pool))
  {
    var i := NextSlot(s.pool);
    t == s.(cache := s.cache[..|s.cache| - 1], statistics := s.statistics.(inCache := Dec(s.statistics.inCache)),
            pool := s.pool.(slots := s.pool.slots[i := Slot(BLANK, GenerationAt(s, i) + 1)]),
            nextDescriptor := t.nextDescriptor, open := t.open, log := t.log) &&
    Unheld(s, t)
  }

  /** An attempt at the freshest contact has begun, in the slot that was next. */
  ghost predicate Started(s: Manager, t: Manager, o: ConnectOutcome)
    requires s.cache != [] && s.pool.available != [] && HasSlot(s, NextSlot(s.pool))
  {
    var c, i := s.cache[|s.cache| - 1], NextSlot(s.pool);
    t == s.(cache := s.cache[..|s.cache| - 1],
            statistics := s.statistics.(inCache := Dec(s.statistics.inCache),
                                        inboundInflight := Inc(s.statistics.inboundInflight)),
            pool := Pool(s.pool.slots[i := Slot(Attempt(NewContact(c), s.nextDescriptor, o), GenerationAt(s, i))],
                         s.pool.available[..|s.pool.available| - 1], s.pool.occupied + {i}),
            peers := s.peers[c.endpoint := i], open := s.open + {s.nextDescriptor},
            nextDescriptor := s.nextDescriptor + 1, log := t.log)
  }

  lemma DuplicateIsDropped(s: Manager, o: ConnectOutcome)
    requires s.cache != [] && s.pool.available != [] && HasSlot(s, NextSlot(s.pool)) && !s.crashed
    requires PeerAt(s, NextSlot(s.pool)) == BLANK && NextSlot(s.pool) !in s.pool.occupied
    requires s.cache[|s.cache| - 1].endpoint in s.peers
    ensures Dropped(s, TryDiscovered(s, o))
  {
    var t, i := TryDiscovered(s, o), NextSlot(s.pool);
    assert t.pool.available == s.pool.available;
    assert t.pool.occupied == s.pool.occupied;
  }

  lemma EnrolledIs(s: Manager)
    requires s.cache != [] && s.pool.available != [] && HasSlot(s, NextSlot(s.pool))
    requires PeerAt(s, NextSlot(s.pool)) == BLANK
    ensures var c, i := s.cache[|s.cache| - 1], NextSlot(s.pool);
            Enrolled(s) == s.(cache := s.cache[..|s.cache| - 1],
              statistics := s.statistics.(inCache := Dec(s.statistics.inCache)),
              pool := Pool(s.pool.slots[i := Slot(NewContact(c), GenerationAt(s, i))],
                           s.pool.available[..|s.pool.available| - 1], s.pool.occupied + {i}),
              peers := s.peers[c.endpoint := i])
  {
  }

  /** A connect on a peer without a socket: it begins, or leaves at most a used descriptor number. */
  lemma InitiateConnectIs(s: Manager, i: nat, o: ConnectOutcome)
    requires HasSlot(s, i) && ReadyPeer(PeerAt(s, i)) && !s.crashed
    ensures var t := InitiateConnect(s, i, o);
            && Opens(s, i, o) == Begins(o)
            && (Begins(o) ==> t == s.(
                pool := s.pool.(slots := s.pool.slots[i :=
                  Slot(Attempt(PeerAt(s, i), s.nextDescriptor, o), GenerationAt(s, i))]),
                statistics := s.statistics.(inboundInflight := Inc(s.statistics.inboundInflight)),
                open := s.open + {s.nextDescriptor}, nextDescriptor := s.nextDescriptor + 1, log := t.log))
            && (!Begins(o) ==>
                t == s.(nextDescriptor := t.nextDescriptor, open := t.open, log := t.log) && Unheld(s, t))
  {
    var t := InitiateConnect(s, i, o);
    assert t.pool.slots == s.pool.slots[i := t.pool.slots[i]];
  }

  lemma DeleteIs(s: Manager, i: nat)
    requires HasSlot(s, i) && PeerAt(s, i).socket == None && i in s.pool.occupied && !s.crashed
    ensures var t := DeletePeer(s, i);
            t == s.(pool := Pool(s.pool.slots[i := Slot(BLANK, GenerationAt(s, i) + 1)], s.pool.available + [i],
                                 s.pool.occupied - {i}),
                    peers := s.peers - {PeerAt(s, i).contact.endpoint}, log := t.log)
  {
  }

  lemma NewIsReady(c: Contact)
    ensures ReadyPeer(NewContact(c))
  {
  }

  lemma ContactOutcome(s: Manager, o: ConnectOutcome)
    requires s.cache != [] && s.pool.available != [] && HasSlot(s, NextSlot(s.pool)) && !s.crashed
    requires PeerAt(s, NextSlot(s.pool)) == BLANK && NextSlot(s.pool) !in s.pool.occupied
    ensures if s.cache[|s.cache| - 1].endpoint in s.peers || !Begins(o) then Dropped(s, TryDiscovered(s, o))
            else Started(s, TryDiscovered(s, o), o)
    ensures DiscoveredOpens(s, o) <==> s.cache[|s.cache| - 1].endpoint !in s.peers && Begins(o)
  {
    var c, i := s.cache[|s.cache| - 1], NextSlot(s.pool);
    if c.endpoint in s.peers {
      hide InitiateConnect, DeletePeer;
      DuplicateIsDropped(s, o);
    } else {
      hide InitiateConnect, DeletePeer, Enrolled, ReadyPeer, Attempt, NewContact, Opens;
      NewIsReady(c);
      EnrolledIs(s);
      var e := Enrolled(s);
      InitiateConnectIs(e, i, o);
      if !Begins(o) {
        RefusedIsDropped(s, e, InitiateConnect(e, i, o), c, i);
      }
    }
  }

  lemma RefusedIsDropped(s: Manager, e: Manager, u: Manager, c: Contact, i: nat)
    requires s.pool.available != [] && i == NextSlot(s.pool) && HasSlot(s, i) && i !in s.pool.occupied && !s.crashed
    requires c.endpoint !in s.peers && s.cache != []
    requires e == s.(cache := s.cache[..|s.cache| - 1],
              statistics := s.statistics.(inCache := Dec(s.statistics.inCache)),
              pool := Pool(s.pool.slots[i := Slot(NewContact(c), GenerationAt(s, i))],
                           s.pool.available[..|s.pool.available| - 1], s.pool.occupied + {i}),
              peers := s.peers[c.endpoint := i])
    requires u == e.(nextDescriptor := u.nextDescriptor, open := u.open, log := u.log) && Unheld(e, u)
    ensures Dropped(s, DeletePeer(u, i))
  {
    DeleteIs(u, i);
    var t := DeletePeer(u, i);
    hide DeletePeer;
    assert t.peers == s.peers;
    assert t.pool.available == s.pool.available;
    assert t.pool.occupied == s.pool.occupied;
    assert t.pool.slots == s.pool.slots[i := Slot(BLANK, GenerationAt(s, i) + 1)];
  }

  // The discovery loop.

  /** The contacts of a cache that are not registered, freshest first: those a `connect` is tried for. */
  function Candidates(cache: seq<Contact>, peers: map<Endpoint, nat>): (r: seq<Contact>)
    ensures |r| <= |cache|
  {
    if cache == [] then []
    else
      var c := cache[|cache| - 1];
      (if c.endpoint in peers then [] else [c]) + Candidates(cache[..|cache| - 1], peers)
  }

  /** The kernel's answer to attempt `k`; past the end no descriptor is to be had. */
  function Answer(net: seq<ConnectOutcome>, k: nat): ConnectOutcome {
    if k < |net| then net[k] else OpenFails
  }

  /** The first `n` attempts are refused. */
  ghost predicate AllRefused(net: seq<ConnectOutcome>, n: nat) {
    forall k :: 0 <= k < n ==> !Begins(Answer(net, k))
  }

  function After(net: seq<ConnectOutcome>, n: nat): seq<ConnectOutcome> { net[Min(n, |net|)..] }

  /** The state is as `s` but for the cache, free slots' generations, the log and used descriptor numbers. */
  ghost predicate OnlyDropped(s: Manager, t: Manager) {
    && t.peers == s.peers && t.retryQueue == s.retryQueue && t.connects == s.connects
    && t.pool.available == s.pool.available && t.pool.occupied == s.pool.occupied
    && |t.pool.slots| == |s.pool.slots|
    && (forall i :: 0 <= i < |s.pool.slots| ==> PeerAt(t, i) == PeerAt(s, i))
    && t.statistics.inboundInflight == s.statistics.inboundInflight
  }

  /** The discovery loop over `cache`, at `n` contacts kept. */
  ghost predicate FoundAt(s: Manager, net: seq<ConnectOutcome>, r: Scheduled, n: nat)
    requires n < |s.cache|
  {
    var c, tried := s.cache[n], |Candidates(s.cache[n + 1..], s.peers)|;
    && c.endpoint !in s.peers && AllRefused(net, tried) && Begins(Answer(net, tried)) && r.net == After(net, tried + 1)
    && r.manager.cache == s.cache[..n]
    && s.pool.available != []
    && r.manager.peers == s.peers[c.endpoint := NextSlot(s.pool)]
    && r.manager.pool.available == s.pool.available[..|s.pool.available| - 1]
    && r.manager.retryQueue == s.retryQueue
    && r.manager.statistics.inboundInflight == Inc(s.statistics.inboundInflight)
    && HasSlot(r.manager, NextSlot(s.pool))
    && var p := PeerAt(r.manager, NextSlot(s.pool));
    p.contact == c && p.source == Tracker && p.socket.Some? && p.interest == Writing && p.timer == Some(10)
  }

  /** The discovery loop has gone through the whole cache in vain. */
  ghost predicate ExhaustedAt(s: Manager, net: seq<ConnectOutcome>, r: Scheduled) {
    var tried := |Candidates(s.cache, s.peers)|;
    r.manager.cache == [] && OnlyDropped(s, r.manager) && AllRefused(net, tried) && r.net == After(net, tried)
  }

  lemma DroppedKeeps(s: Manager, t: Manager)
    requires s.cache != [] && s.pool.available != [] && HasSlot(s, NextSlot(s.pool)) && Dropped(s, t)
    requires PeerAt(s, NextSlot(s.pool)) == BLANK
    ensures OnlyDropped(s, t) && t.cache == s.cache[..|s.cache| - 1]
  {
  }

  lemma CandidatesSplit(cache: seq<Contact>, n: nat, peers: map<Endpoint, nat>)
    requires n < |cache| - 1
    ensures |Candidates(cache[n + 1..], peers)| ==
      |Candidates(cache[..|cache| - 1][n + 1..], peers)| + if cache[|cache| - 1].endpoint in peers then 0 else 1
  {
    var part := cache[n + 1..];
    assert part[..|part| - 1] == cache[..|cache| - 1][n + 1..];
    assert part[|part| - 1] == cache[|cache| - 1];
  }

  lemma RefusedFirst(net: seq<ConnectOutcome>, n: nat)
    requires !Begins(NextOutcome(net))
    ensures AllRefused(Rest(net), n) <==> AllRefused(net, n + 1)
    ensures Answer(Rest(net), n) == Answer(net, n + 1)
    ensures After(Rest(net), n) == After(net, n + 1)
  {
    if AllRefused(Rest(net), n) {
      forall k | 0 <= k < n + 1 ensures !Begins(Answer(net, k)) {
        if k > 0 { assert Answer(net, k) == Answer(Rest(net), k - 1); }
      }
    }
    if AllRefused(net, n + 1) {
      forall k | 0 <= k < n ensures !Begins(Answer(Rest(net), k)) {
        assert Answer(net, k + 1) == Answer(Rest(net), k);
      }
    }
  }

  /**
   * The loop stops at the first contact that is not registered and that the kernel lets be tried, with the older
   * ones still in the cache; if there is none, it goes through the whole cache.
   */
  lemma {:induction false} DiscoveredExactly(s: Manager, net: seq<ConnectOutcome>)
    returns (n: nat)
    requires Steady(s) && s.pool.available != []
    ensures var r := DrainCache(s, net);
            && (r.found ==> n < |s.cache| && FoundAt(s, net, r, n))
            && (!r.found ==> ExhaustedAt(s, net, r))
    decreases |s.cache|
  {
    hide *;
    n := 0;
    DiscoveredOnce(s, net);
    if s.cache == [] {
      NothingToDrain(s, net);
    } else {
      var o, c := NextOutcome(net), s.cache[|s.cache| - 1];
      FreeSlot(s);
      SlotIsFree(s);
      TryDiscoveredKeeps(s, o);
      if c.endpoint !in s.peers && Begins(o) {
        n := |s.cache| - 1;
        FoundFirst(s, net);
      } else {
        var t := TryDiscovered(s, o);
        ContactDropped(s, o);
        StillAvailable(s, t);
        n := DiscoveredExactly(t, AfterDiscovered(s, net));
        DroppedThen(s, net, t, DrainCache(s, net), n);
      }
    }
  }

  lemma DiscoveredOnce(s: Manager, net: seq<ConnectOutcome>)
    requires Steady(s) && s.pool.available != []
    ensures s.cache != [] ==> HasSlot(s, NextSlot(s.pool))
    ensures DrainCache(s, net) ==
      if s.cache == [] then Scheduled(s, net, false)
      else
        var t := TryDiscovered(s, NextOutcome(net));
        if s.cache[|s.cache| - 1].endpoint !in s.peers && Begins(NextOutcome(net))
        then Scheduled(t, AfterDiscovered(s, net), true)
        else DrainCache(t, AfterDiscovered(s, net))
  {
    FreeSlot(s);
    SlotIsFree(s);
    if s.cache != [] { ContactOutcome(s, NextOutcome(net)); }
    hide Steady, TryDiscovered, DiscoveredOpens, Dropped, Started;
  }

  lemma NothingToDrain(s: Manager, net: seq<ConnectOutcome>)
    requires s.cache == []
    ensures ExhaustedAt(s, net, Scheduled(s, net, false))
  {
    assert After(net, 0) == net;
  }

  lemma ContactDropped(s: Manager, o: ConnectOutcome)
    requires Steady(s) && s.cache != [] && s.pool.available != []
    requires s.cache[|s.cache| - 1].endpoint !in s.peers ==> !Begins(o)
    ensures HasSlot(s, NextSlot(s.pool))
    ensures OnlyDropped(s, TryDiscovered(s, o)) && TryDiscovered(s, o).cache == s.cache[..|s.cache| - 1]
  {
    hide Steady, TryDiscovered, DiscoveredOpens, Dropped, Started, OnlyDropped;
    FreeSlot(s);
    SlotIsFree(s);
    ContactOutcome(s, o);
    DroppedKeeps(s, TryDiscovered(s, o));
  }

  lemma SlotIsFree(s: Manager)
    requires Steady(s) && s.pool.available != []
    ensures NextSlot(s.pool) !in s.pool.occupied && !s.crashed
  {
    AcquireKeeps(CoreOf(s));
  }

  lemma StillAvailable(s: Manager, t: Manager)
    requires OnlyDropped(s, t) && s.pool.available != []
    ensures t.pool.available != []
  {
  }

  lemma FoundFirst(s: Manager, net: seq<ConnectOutcome>)
    requires s.cache != [] && s.pool.available != [] && HasSlot(s, NextSlot(s.pool)) && !s.crashed
    requires PeerAt(s, NextSlot(s.pool)) == BLANK && NextSlot(s.pool) !in s.pool.occupied
    requires s.cache[|s.cache| - 1].endpoint !in s.peers && Begins(NextOutcome(net))
    ensures FoundAt(s, net, DrainCache(s, net), |s.cache| - 1)
    ensures DrainCache(s, net).found
  {
    var o := NextOutcome(net);
    ContactOutcome(s, o);
    assert s.cache[|s.cache|..] == [];
    hide TryDiscovered, DiscoveredOpens;
  }

  /** One contact dropped, and the rest of the loop. */
  lemma DroppedThen(s: Manager, net: seq<ConnectOutcome>, t: Manager, r: Scheduled, n: nat)
    requires s.cache != [] && t.cache == s.cache[..|s.cache| - 1] && OnlyDropped(s, t) && s.pool.available != []
    requires s.cache[|s.cache| - 1].endpoint !in s.peers ==> !Begins(NextOutcome(net))
    requires r.found ==> n < |t.cache| && FoundAt(t, AfterDiscovered(s, net), r, n)
    requires !r.found ==> ExhaustedAt(t, AfterDiscovered(s, net), r)
    ensures r.found ==> n < |s.cache| && FoundAt(s, net, r, n)
    ensures !r.found ==> ExhaustedAt(s, net, r)
  {
    hide FoundAt, ExhaustedAt, OnlyDropped;
    if r.found {
      DroppedThenFound(s, net, t, r, n);
    } else {
      DroppedThenExhausted(s, net, t, r);
    }
  }

  lemma RestOfAnswers(s: Manager, net: seq<ConnectOutcome>, n: nat)
    requires s.cache != [] && (s.cache[|s.cache| - 1].endpoint !in s.peers ==> !Begins(NextOutcome(net)))
    ensures var more := if s.cache[|s.cache| - 1].endpoint in s.peers then n else n + 1;
            && (AllRefused(AfterDiscovered(s, net), n) <==> AllRefused(net, more))
            && Answer(AfterDiscovered(s, net), n) == Answer(net, more)
            && After(AfterDiscovered(s, net), n) == After(net, more)
  {
    if s.cache[|s.cache| - 1].endpoint !in s.peers { RefusedFirst(net, n); }
  }

  lemma DroppedThenExhausted(s: Manager, net: seq<ConnectOutcome>, t: Manager, r: Scheduled)
    requires s.cache != [] && t.cache == s.cache[..|s.cache| - 1] && OnlyDropped(s, t)
    requires s.cache[|s.cache| - 1].endpoint !in s.peers ==> !Begins(NextOutcome(net))
    requires ExhaustedAt(t, AfterDiscovered(s, net), r)
    ensures ExhaustedAt(s, net, r)
  {
    RestOfAnswers(s, net, |Candidates(t.cache, t.peers)|);
    hide AllRefused, Answer, After, AfterDiscovered, NextOutcome;
    assert OnlyDropped(s, r.manager);
  }

  /** As many attempts come before contact `n` with the freshest contact's outcome used up, or skipped. */
  lemma TriedAlike(s: Manager, net: seq<ConnectOutcome>, n: nat)
    requires s.cache != [] && n < |s.cache| - 1
    requires s.cache[|s.cache| - 1].endpoint !in s.peers ==> !Begins(NextOutcome(net))
    ensures var short := s.cache[..|s.cache| - 1]; var rest := AfterDiscovered(s, net);
            var tried, more := |Candidates(short[n + 1..], s.peers)|, |Candidates(s.cache[n + 1..], s.peers)|;
            && (AllRefused(rest, tried) <==> AllRefused(net, more))
            && Answer(rest, tried) == Answer(net, more) && After(rest, tried + 1) == After(net, more + 1)
  {
    var tried := |Candidates(s.cache[..|s.cache| - 1][n + 1..], s.peers)|;
    CandidatesSplit(s.cache, n, s.peers);
    RestOfAnswers(s, net, tried);
    RestOfAnswers(s, net, tried + 1);
    hide Candidates, AllRefused, Answer, After, AfterDiscovered, NextOutcome;
  }

  lemma DroppedThenFound(s: Manager, net: seq<ConnectOutcome>, t: Manager, r: Scheduled, n: nat)
    requires s.cache != [] && t.cache == s.cache[..|s.cache| - 1] && OnlyDropped(s, t) && s.pool.available != []
    requires s.cache[|s.cache| - 1].endpoint !in s.peers ==> !Begins(NextOutcome(net))
    requires n < |t.cache| && FoundAt(t, AfterDiscovered(s, net), r, n)
    ensures FoundAt(s, net, r, n)
  {
    hide Candidates, AllRefused, Answer, After, AfterDiscovered, NextOutcome, Begins;
    TriedAlike(s, net, n);
    assert t.cache[..n] == s.cache[..n];
    assert NextSlot(t.pool) == NextSlot(s.pool);
  }

  /** With no slot to spare the source counts as empty; otherwise the loop above decides. */
  lemma DiscoveredSchedulerExactly(s: Manager, net: seq<ConnectOutcome>) returns (n: nat)
    requires Steady(s)
    ensures var r := DiscoveredScheduler(s, net);
            if s.pool.available == [] then r == Scheduled(s, net, false)
            else
              && (r.found ==> n < |s.cache| && FoundAt(s, net, r, n))
              && (!r.found ==> ExhaustedAt(s, net, r))
  {
    hide Steady, DrainCache, FoundAt, ExhaustedAt;
    n := 0;
    if s.pool.available != [] { n := DiscoveredExactly(s, net); }
  }

  // One retry.

  /** The ticket still belongs to its slot's occupant. */
  predicate Passes(s: Manager, t: Ticket) { HasSlot(s, t.slot) && GenerationAt(s, t.slot) == t.generation }

  /** A stale ticket is thrown away. */
  ghost predicate Discarded(s: Manager, t: Manager)
    requires s.retryQueue != []
  {
    t == s.(retryQueue := s.retryQueue[1..], statistics := s.statistics.(inRetry := Dec(s.statistics.inRetry)),
            log := t.log)
  }

  /** A retry the kernel refused: the contact is given up. */
  ghost predicate GivenUp(s: Manager, t: Manager)
    requires s.retryQueue != [] && HasSlot(s, s.retryQueue[0].slot)
  {
    var i := s.retryQueue[0].slot;
    t == s.(retryQueue := s.retryQueue[1..], statistics := s.statistics.(inRetry := Dec(s.statistics.inRetry)),
            pool := Pool(s.pool.slots[i := Slot(BLANK, GenerationAt(s, i) + 1)], s.pool.available + [i],
                         s.pool.occupied - {i}),
            peers := s.peers - {PeerAt(s, i).contact.endpoint},
            nextDescriptor := t.nextDescriptor, open := t.open, log := t.log) &&
    Unheld(s, t)
  }

  /** The retry has begun, in the slot the contact has had all along. */
  ghost predicate Retried(s: Manager, t: Manager, o: ConnectOutcome)
    requires s.retryQueue != [] && HasSlot(s, s.retryQueue[0].slot)
  {
    var i := s.retryQueue[0].slot;
    t == s.(retryQueue := s.retryQueue[1..],
            statistics := s.statistics.(inRetry := Dec(s.statistics.inRetry),
                                        inboundInflight := Inc(s.statistics.inboundInflight)),
            pool := s.pool.(slots := s.pool.slots[i :=
              Slot(Attempt(PeerAt(s, i), s.nextDescriptor, o), GenerationAt(s, i))]),
            open := s.open + {s.nextDescriptor}, nextDescriptor := s.nextDescriptor + 1, log := t.log)
  }

  lemma FrontIsReady(s: Manager)
    requires Steady(s) && s.retryQueue != [] && Passes(s, s.retryQueue[0])
    ensures ReadyPeer(PeerAt(s, s.retryQueue[0].slot)) && s.retryQueue[0].slot in s.pool.occupied
  {
    UnqueueKeeps(CoreOf(s));
    assert SlotOk(CoreOf(s), s.retryQueue[0].slot);
  }

  lemma PoppedFrontIs(s: Manager)
    requires s.retryQueue != [] && HasSlot(s, s.retryQueue[0].slot)
    ensures PoppedFront(s) == s.(retryQueue := s.retryQueue[1..],
              statistics := s.statistics.(inRetry := Dec(s.statistics.inRetry)), log := PoppedFront(s).log)
  {
  }

  lemma RefusedIsGivenUp(s: Manager, u: Manager, i: nat)
    requires s.retryQueue != [] && i == s.retryQueue[0].slot && HasSlot(s, i) && i in s.pool.occupied && !s.crashed
    requires PeerAt(s, i).socket == None
    requires u == s.(retryQueue := s.retryQueue[1..], statistics := s.statistics.(inRetry := Dec(s.statistics.inRetry)),
                     nextDescriptor := u.nextDescriptor, open := u.open, log := u.log) && Unheld(s, u)
    ensures GivenUp(s, DeletePeer(u, i))
  {
    DeleteIs(u, i);
    hide DeletePeer;
  }

  lemma RetryForm(s: Manager, o: ConnectOutcome)
    requires Steady(s) && s.retryQueue != []
    ensures HasSlot(s, s.retryQueue[0].slot) && !s.crashed
    ensures FrontPasses(s) <==> Passes(s, s.retryQueue[0])
    ensures FrontPasses(s) ==>
      ReadyPeer(PeerAt(s, s.retryQueue[0].slot)) && s.retryQueue[0].slot in s.pool.occupied
    ensures TryFailed(s, o) ==
      if FrontPasses(s) then ConnectOrDelete(PoppedFront(s), s.retryQueue[0].slot, o) else PoppedFront(s)
  {
    PoppedFrontKeeps(s);
    TryFailedForm(s, o);
    if FrontPasses(s) { FrontIsReady(s); }
    hide Intact, Ready, PoppedFront, TryFailed, ConnectOrDelete, ReadyPeer;
  }

  lemma RetryOutcome(s: Manager, o: ConnectOutcome)
    requires Steady(s) && s.retryQueue != []
    ensures HasSlot(s, s.retryQueue[0].slot)
    ensures if !Passes(s, s.retryQueue[0]) then Discarded(s, TryFailed(s, o))
            else if Begins(o) then Retried(s, TryFailed(s, o), o)
            else GivenUp(s, TryFailed(s, o))
    ensures FrontPasses(s) <==> Passes(s, s.retryQueue[0])
    ensures FrontPasses(s) ==> (Opens(s, s.retryQueue[0].slot, o) <==> Begins(o))
  {
    hide Steady, Ready, PoppedFront, TryFailed, ConnectOrDelete, InitiateConnect, Retried, GivenUp, ReadyPeer;
    RetryForm(s, o);
    PoppedFrontIs(s);
    if FrontPasses(s) { ConnectOrDeleteIs(s, PoppedFront(s), s.retryQueue[0].slot, o); }
  }

  lemma ConnectOrDeleteIs(s: Manager, u: Manager, i: nat, o: ConnectOutcome)
    requires s.retryQueue != [] && i == s.retryQueue[0].slot && HasSlot(s, i) && i in s.pool.occupied && !s.crashed
    requires ReadyPeer(PeerAt(s, i))
    requires u == s.(retryQueue := s.retryQueue[1..], statistics := s.statistics.(inRetry := Dec(s.statistics.inRetry)),
                     log := u.log)
    ensures Opens(s, i, o) <==> Begins(o)
    ensures if Begins(o) then Retried(s, ConnectOrDelete(u, i, o), o) else GivenUp(s, ConnectOrDelete(u, i, o))
  {
    hide InitiateConnect, DeletePeer, Attempt, GivenUp;
    InitiateConnectIs(u, i, o);
    if !Begins(o) { RefusedIsGivenUp(s, InitiateConnect(u, i, o), i); }
  }

  // The retry loop.

  /** How many of some tickets pass: a `connect` is tried for each of those. */
  function Passing(s: Manager, queue: seq<Ticket>): nat {
    if queue == [] then 0 else (if Passes(s, queue[0]) then 1 else 0) + Passing(s, queue[1..])
  }

  /** The occupant of slot `i` has its ticket among `done`. */
  predicate Served(s: Manager, i: nat, done: seq<Ticket>) { HasSlot(s, i) && Ticket(i, GenerationAt(s, i)) in done }

  /** The contacts with a ticket among `done` are given up, and no others. */
  ghost predicate OnlyGivenUp(s: Manager, t: Manager, done: seq<Ticket>) {
    && |t.pool.slots| == |s.pool.slots|
    && (forall i: nat :: i < |s.pool.slots| ==>
        t.pool.slots[i] == if Served(s, i, done) then Slot(BLANK, GenerationAt(s, i) + 1) else s.pool.slots[i])
    && (forall e :: e in t.peers <==> e in s.peers && !Served(s, s.peers[e], done))
    && (forall e :: e in t.peers ==> t.peers[e] == s.peers[e])
    && t.cache == s.cache && t.connects == s.connects && |t.pool.available| >= |s.pool.available|
    && t.statistics.inboundInflight == s.statistics.inboundInflight
  }

  /** The loop has come to `m`, through `n` tickets: those that pass were all refused by the kernel. */
  ghost predicate WentThrough(s: Manager, net: seq<ConnectOutcome>, m: Manager, n: nat) {
    && n <= |s.retryQueue| && m.retryQueue == s.retryQueue[n..] && OnlyGivenUp(s, m, s.retryQueue[..n])
    && AllRefused(net, Passing(s, s.retryQueue[..n]))
  }

  /** What the retry loop relies on: tickets of the present or the past, each once, and a registry that fits. */
  ghost predicate Queueing(s: Manager) {
    && (forall t :: t in s.retryQueue ==> HasSlot(s, t.slot) && t.generation <= GenerationAt(s, t.slot))
    && Distinct(s.retryQueue)
    && (forall e :: e in s.peers ==> HasSlot(s, s.peers[e]) && PeerAt(s, s.peers[e]).contact.endpoint == e)
  }

  lemma SteadyQueueing(s: Manager)
    requires Steady(s)
    ensures Queueing(s)
  {
  }

  /** The front ticket is off the queue: it was stale, or it passed and the kernel refused. */
  ghost predicate OneGone(s: Manager, t: Manager)
    requires s.retryQueue != [] && HasSlot(s, s.retryQueue[0].slot)
  {
    var i := s.retryQueue[0].slot;
    && t.retryQueue == s.retryQueue[1..] && t.cache == s.cache && t.connects == s.connects
    && |t.pool.available| >= |s.pool.available|
    && t.statistics.inboundInflight == s.statistics.inboundInflight
    && (if Passes(s, s.retryQueue[0]) then
          && t.pool.slots == s.pool.slots[i := Slot(BLANK, GenerationAt(s, i) + 1)]
          && t.peers == s.peers - {PeerAt(s, i).contact.endpoint}
          && PeerAt(s, i).contact.endpoint in s.peers && s.peers[PeerAt(s, i).contact.endpoint] == i
        else t.pool.slots == s.pool.slots && t.peers == s.peers)
  }

  lemma OutcomeIsOneGone(s: Manager, o: ConnectOutcome)
    requires Steady(s) && s.retryQueue != []
    requires Passes(s, s.retryQueue[0]) ==> !Begins(o)
    ensures HasSlot(s, s.retryQueue[0].slot) && OneGone(s, TryFailed(s, o))
  {
    RetryOutcome(s, o);
    if Passes(s, s.retryQueue[0]) {
      FrontIsReady(s);
      assert SlotOk(CoreOf(s), s.retryQueue[0].slot);
    }
    hide TryFailed, Steady;
  }

  lemma PassesStill(s: Manager, t: Manager, k: Ticket)
    requires s.retryQueue != [] && Queueing(s) && OneGone(s, t) && k in s.retryQueue[1..]
    ensures Passes(t, k) == Passes(s, k)
  {
    var j :| 0 <= j < |s.retryQueue[1..]| && s.retryQueue[1..][j] == k;
    assert s.retryQueue[j + 1] == k;
    assert s.retryQueue[0] != s.retryQueue[j + 1];
  }

  lemma {:induction false} PassingStill(s: Manager, t: Manager, part: seq<Ticket>)
    requires s.retryQueue != [] && Queueing(s) && OneGone(s, t)
    requires forall k :: k in part ==> k in s.retryQueue[1..]
    ensures Passing(t, part) == Passing(s, part)
  {
    hide Queueing, OneGone, Passes;
    if part != [] {
      PassesStill(s, t, part[0]);
      PassingStill(s, t, part[1..]);
    }
  }

  lemma GivenUpSlot(s: Manager, t: Manager, m: Manager, n: nat, i: nat)
    requires s.retryQueue != [] && Queueing(s) && OneGone(s, t) && n <= |t.retryQueue| && i < |s.pool.slots|
    requires OnlyGivenUp(t, m, t.retryQueue[..n])
    ensures m.pool.slots[i] ==
      if Served(s, i, s.retryQueue[..n + 1]) then Slot(BLANK, GenerationAt(s, i) + 1) else s.pool.slots[i]
    ensures Served(s, i, s.retryQueue[..n + 1]) <==>
      Served(t, i, t.retryQueue[..n]) || (Passes(s, s.retryQueue[0]) && i == s.retryQueue[0].slot)
  {
    var k := Ticket(i, GenerationAt(s, i));
    assert s.retryQueue[..n + 1] == [s.retryQueue[0]] + t.retryQueue[..n];
    assert k in s.retryQueue[..n + 1] <==> k == s.retryQueue[0] || k in t.retryQueue[..n];
    if Passes(s, s.retryQueue[0]) && i == s.retryQueue[0].slot {
      NotYetIssued(s, Ticket(i, GenerationAt(s, i) + 1), n);
    }
  }

  lemma NotYetIssued(s: Manager, k: Ticket, n: nat)
    requires s.retryQueue != [] && Queueing(s) && HasSlot(s, k.slot) && k.generation > GenerationAt(s, k.slot)
    requires n < |s.retryQueue|
    ensures k !in s.retryQueue[1..][..n]
  {
    forall j | 0 <= j < n ensures s.retryQueue[1..][..n][j] in s.retryQueue {
      assert s.retryQueue[1..][..n][j] == s.retryQueue[j + 1];
    }
  }

  lemma GivenUpFurther(s: Manager, t: Manager, m: Manager, n: nat)
    requires s.retryQueue != [] && Queueing(s) && OneGone(s, t) && n <= |t.retryQueue|
    requires OnlyGivenUp(t, m, t.retryQueue[..n])
    ensures OnlyGivenUp(s, m, s.retryQueue[..n + 1])
  {
    hide Served, Passes;
    forall i: nat | i < |s.pool.slots|
      ensures m.pool.slots[i] ==
        if Served(s, i, s.retryQueue[..n + 1]) then Slot(BLANK, GenerationAt(s, i) + 1) else s.pool.slots[i]
      ensures Served(s, i, s.retryQueue[..n + 1]) <==>
        Served(t, i, t.retryQueue[..n]) || (Passes(s, s.retryQueue[0]) && i == s.retryQueue[0].slot)
    {
      GivenUpSlot(s, t, m, n, i);
    }
  }

  lemma WentFurther(s: Manager, net: seq<ConnectOutcome>, t: Manager, left: seq<ConnectOutcome>, m: Manager, n: nat)
    requires s.retryQueue != [] && Queueing(s) && OneGone(s, t)
    requires if Passes(s, s.retryQueue[0]) then !Begins(NextOutcome(net)) && left == Rest(net) else left == net
    requires WentThrough(t, left, m, n)
    ensures WentThrough(s, net, m, n + 1)
    ensures Answer(left, Passing(t, t.retryQueue[..n])) == Answer(net, Passing(s, s.retryQueue[..n + 1]))
    ensures After(left, Passing(t, t.retryQueue[..n])) == After(net, Passing(s, s.retryQueue[..n + 1]))
    ensures After(left, Passing(t, t.retryQueue[..n]) + 1) == After(net, Passing(s, s.retryQueue[..n + 1]) + 1)
  {
    hide OnlyGivenUp, Queueing, AllRefused, Answer, After, Rest, Begins, Passes, NextOutcome;
    var part := t.retryQueue[..n];
    GoneFront(s, t);
    PassingStill(s, t, part);
    assert s.retryQueue[..n + 1][1..] == part;
    GivenUpFurther(s, t, m, n);
    if Passes(s, s.retryQueue[0]) { RefusedFirst(net, Passing(s, part)); RefusedFirst(net, Passing(s, part) + 1); }
    hide OneGone;
    assert m.retryQueue == s.retryQueue[n + 1..];
  }

  lemma GoneFront(s: Manager, t: Manager)
    requires s.retryQueue != [] && Queueing(s) && OneGone(s, t)
    ensures t.retryQueue == s.retryQueue[1..]
  {
  }

  /**
   * The loop stops at the first ticket that passes and whose attempt the kernel lets begin, with the later ones still
   * queued; if there is none, it empties the queue. Every contact refused on the way is given up.
   */
  lemma {:induction false} FailedExactly(s: Manager, net: seq<ConnectOutcome>) returns (m: Manager, n: nat)
    requires Steady(s)
    ensures WentThrough(s, net, m, n)
    ensures var r := FailedScheduler(s, net); var tried := Passing(s, s.retryQueue[..n]);
            if r.found then
              && n < |s.retryQueue| && HasSlot(m, s.retryQueue[n].slot) && Passes(m, s.retryQueue[n])
              && Begins(Answer(net, tried)) && Retried(m, r.manager, Answer(net, tried))
              && r.net == After(net, tried + 1)
            else n == |s.retryQueue| && r.manager == m && r.net == After(net, tried)
    decreases |s.retryQueue|
  {
    hide *;
    m, n := s, 0;
    NowhereYet(s, net);
    FailedOnce(s, net);
    if s.retryQueue != [] {
      var o := NextOutcome(net);
      RetryOutcome(s, o);
      TryFailedKeeps(s, o);
      QueueShrinks(s, o);
      if !(Passes(s, s.retryQueue[0]) && Begins(o)) {
        SteadyQueueing(s);
        OutcomeIsOneGone(s, o);
        var t, left := TryFailed(s, o), if Passes(s, s.retryQueue[0]) then Rest(net) else net;
        m, n := FailedExactly(t, left);
        WentFurther(s, net, t, left, m, n);
        n := n + 1;
      }
    }
  }

  lemma QueueShrinks(s: Manager, o: ConnectOutcome)
    requires Steady(s) && s.retryQueue != []
    ensures TryFailed(s, o).retryQueue == s.retryQueue[1..]
  {
    RetryOutcome(s, o);
    hide TryFailed;
  }

  lemma FailedOnce(s: Manager, net: seq<ConnectOutcome>)
    requires Steady(s)
    ensures FailedScheduler(s, net) ==
      if s.retryQueue == [] then Scheduled(s, net, false)
      else
        var t := TryFailed(s, NextOutcome(net));
        if !Passes(s, s.retryQueue[0]) then FailedScheduler(t, net)
        else if Begins(NextOutcome(net)) then Scheduled(t, Rest(net), true)
        else FailedScheduler(t, Rest(net))
  {
    if s.retryQueue != [] { RetryOutcome(s, NextOutcome(net)); }
    hide TryFailed, Steady, FrontPasses, Opens, Discarded, Retried, GivenUp;
  }

  lemma NowhereYet(s: Manager, net: seq<ConnectOutcome>)
    ensures WentThrough(s, net, s, 0)
    ensures Passing(s, s.retryQueue[..0]) == 0 && Answer(net, 0) == NextOutcome(net) && After(net, 1) == Rest(net)
    ensures After(net, 0) == net
  {
  }
}
