/** What each accept leaves behind, how far the accept loop goes, and what one wake-up takes in. */
module ManagerServing {
  import opened Common
  import opened SlotPool
  import opened ManagerModel
  import opened ManagerInvariant
  import opened ManagerCallbacks
  import opened ManagerScheduling
  import opened ManagerAccepting
  import opened ManagerOutcomes
  import opened ManagerLoops
  import OverwritableCache

  // One accept.

  /** A new endpoint: registered, in the next slot, waiting for the other side's handshake. */
  ghost predicate Welcomed(s: Manager, t: Manager, from: Endpoint)
    requires s.pool.available != [] && HasSlot(s, NextSlot(s.pool))
  {
    var i := NextSlot(s.pool);
    t == s.(pool := Pool(s.pool.slots[i := Slot(Guest(from, s.nextDescriptor), GenerationAt(s, i))],
                         s.pool.available[..|s.pool.available| - 1], s.pool.occupied + {i}),
            peers := s.peers[from := i], open := s.open + {s.nextDescriptor}, nextDescriptor := s.nextDescriptor + 1,
            statistics := s.statistics.(outboundInflight := Inc(s.statistics.outboundInflight)))
  }

  function Held(p: Peer): set<nat> { if p.socket.Some? then {p.socket.value} else {} }

  /** The state in which the old peer of slot `j` has made way for slot `i`. */
  ghost predicate MadeWay(b: Manager, r: Manager, j: nat, from: Endpoint, i: nat)
    requires HasSlot(b, j)
  {
    var p := PeerAt(b, j);
    r == b.(pool := Pool(b.pool.slots[j := Slot(BLANK, GenerationAt(b, j) + 1)], b.pool.available + [j],
                         b.pool.occupied - {j}),
            peers := b.peers[from := i], open := b.open - Held(p), statistics := Resolution(b.statistics, p.source),
            notified := b.notified || p.source != TcpServer, log := r.log)
  }

  /** A registered endpoint: its old peer makes way, counted as resolved, and the new one is as above. */
  ghost predicate Replaced(s: Manager, t: Manager, from: Endpoint)
    requires s.pool.available != [] && from in s.peers && HasSlot(s, s.peers[from]) && HasSlot(s, NextSlot(s.pool))
  {
    var i, j := NextSlot(s.pool), s.peers[from];
    var p := PeerAt(s, j);
    t == s.(pool := Pool(s.pool.slots[j := Slot(BLANK, GenerationAt(s, j) + 1)]
                                     [i := Slot(Guest(from, s.nextDescriptor), GenerationAt(s, i))],
                         s.pool.available[..|s.pool.available| - 1] + [j], s.pool.occupied + {i} - {j}),
            peers := s.peers[from := i], open := s.open + {s.nextDescriptor} - Held(p),
            nextDescriptor := s.nextDescriptor + 1,
            statistics := Resolution(s.statistics.(outboundInflight := Inc(s.statistics.outboundInflight)), p.source),
            notified := s.notified || p.source != TcpServer, log := t.log)
  }

  lemma MakesWay(b: Manager, j: nat, from: Endpoint, i: nat)
    requires HasSlot(b, j) && PeerAt(b, j).state != Connected && j in b.pool.occupied && !b.crashed
    requires PeerAt(b, j).contact.endpoint == from
    ensures MadeWay(b, ReplaceRegistered(b, j, from, i), j, from, i)
  {
    var p := PeerAt(b, j);
    var s1 := Resolve(CloseSocket(b, j), p.source);
    var x := Slot(BLANK, GenerationAt(b, j) + 1);
    assert s1.pool.slots[j := x] == b.pool.slots[j := x];
    DeleteIs(s1, j);
    hide DeletePeer;
    assert (b.peers - {from})[from := i] == b.peers[from := i];
  }

  lemma IsReplaced(s: Manager, from: Endpoint)
    requires Steady(s) && s.pool.available != [] && from in s.peers && RegisteredAs(s, from) != Live
    ensures HasSlot(s, NextSlot(s.pool)) && HasSlot(s, s.peers[from])
    ensures Replaced(s, AcceptOne(s, Accepted(from)), from)
  {
    hide Steady, AcceptOne, ReplaceRegistered, Guest, Resolution, RegisteredAs;
    FreeSlot(s);
    RegisteredSlot(s, from);
    NotConnected(s, from);
    AcceptOldForm(s, from);
    var i, j, b := NextSlot(s.pool), s.peers[from], BeforeReplacing(s, from);
    MakesWay(b, j, from, i);
    assert PeerAt(b, i) == BLANK;
  }

  lemma IsWelcomed(s: Manager, from: Endpoint)
    requires s.pool.available != [] && HasSlot(s, NextSlot(s.pool)) && PeerAt(s, NextSlot(s.pool)) == BLANK
    requires from !in s.peers
    ensures Welcomed(s, AcceptOne(s, Accepted(from)), from)
  {
    assert !(from in s.peers);
    hide ReplaceRegistered;
  }

  /** Every answer of `accept`, whoever it is from. */
  lemma AcceptOutcomes(s: Manager, o: AcceptOutcome)
    requires Steady(s)
    ensures var t := AcceptOne(s, o);
            if !o.Accepted? then t == s
            else if s.pool.available == [] then t == s.(nextDescriptor := s.nextDescriptor + 1)
            else
              && HasSlot(s, NextSlot(s.pool))
              && (if o.from !in s.peers then Welcomed(s, t, o.from)
                  else
                    && HasSlot(s, s.peers[o.from])
                    && (if PeerAt(s, s.peers[o.from]).state == Connected then t.crashed else Replaced(s, t, o.from)))
  {
    hide Steady, AcceptOne, Guest, Replaced, Welcomed;
    if !o.Accepted? || s.pool.available == [] {
      NoGuest(s, o);
    } else {
      FreeSlot(s);
      if o.from !in s.peers {
        IsWelcomed(s, o.from);
      } else {
        RegisteredSlot(s, o.from);
        ConnectedIsLive(s, o.from);
        if RegisteredAs(s, o.from) == Live { AcceptConnectedCrashes(s, o.from); } else { IsReplaced(s, o.from); }
      }
    }
  }

  lemma ConnectedIsLive(s: Manager, from: Endpoint)
    requires Steady(s) && from in s.peers
    ensures HasSlot(s, s.peers[from])
    ensures RegisteredAs(s, from) == Live <==> PeerAt(s, s.peers[from]).state == Connected
  {
    RegisteredSlot(s, from);
  }

  lemma NoGuest(s: Manager, o: AcceptOutcome)
    requires !o.Accepted? || s.pool.available == []
    ensures AcceptOne(s, o) == if o.Accepted? then s.(nextDescriptor := s.nextDescriptor + 1) else s
  {
  }

  // Where the loop ends.

  /** Each outcome in its turn. */
  function AcceptAll(s: Manager, outcomes: seq<AcceptOutcome>): Manager
    decreases |outcomes|
  {
    if outcomes == [] then s else AcceptAll(AcceptOne(s, outcomes[0]), outcomes[1..])
  }

  /** No further connection is asked for after `k` answers, and this is why. */
  predicate EndsAt(s: Manager, incoming: seq<AcceptOutcome>, k: nat)
    requires k <= |incoming|
  {
    var t := AcceptAll(s, incoming[..k]);
    || k == |incoming| || t.statistics.connected >= 50 || t.statistics.outboundInflight >= 15
    || (k > 0 && (incoming[k - 1] == WouldBlock || incoming[k - 1] == AcceptFails))
    || (k > 0 && incoming[k - 1].Accepted? && AcceptAll(s, incoming[..k - 1]).pool.available == [])
  }

  lemma OneMore(s: Manager, incoming: seq<AcceptOutcome>, k: nat)
    requires incoming != [] && k <= |incoming| - 1
    ensures EndsAt(s, incoming, k + 1) <==>
      EndsAt(AcceptOne(s, incoming[0]), incoming[1..], k) || (k == 0 && !MorePending(s, incoming[0]))
    ensures AcceptAll(s, incoming[..k + 1]) == AcceptAll(AcceptOne(s, incoming[0]), incoming[1..][..k])
  {
    hide AcceptOne;
    assert incoming[..k + 1][1..] == incoming[1..][..k];
    if k > 0 { assert incoming[..k][1..] == incoming[1..][..k - 1]; }
  }

  lemma ServeOnce(s: Manager, incoming: seq<AcceptOutcome>)
    ensures ServerCallback(s, incoming) ==
      if EndsAt(s, incoming, 0) then s
      else if MorePending(s, incoming[0]) then ServerCallback(AcceptOne(s, incoming[0]), incoming[1..])
      else AcceptOne(s, incoming[0])
  {
    hide AcceptOne;
  }

  /** The loop handles answers one after the other up to the first reason to end, and none after it. */
  lemma {:induction false} EndsExactly(s: Manager, incoming: seq<AcceptOutcome>) returns (k: nat)
    ensures k <= |incoming| && ServerCallback(s, incoming) == AcceptAll(s, incoming[..k])
    ensures EndsAt(s, incoming, k) && forall j :: 0 <= j < k ==> !EndsAt(s, incoming, j)
    decreases |incoming|
  {
    hide AcceptOne, ServerCallback, EndsAt, MorePending;
    ServeOnce(s, incoming);
    k := 0;
    if !EndsAt(s, incoming, 0) {
      AtLeastOne(s, incoming);
      var t, rest := AcceptOne(s, incoming[0]), incoming[1..];
      OneMore(s, incoming, 0);
      if MorePending(s, incoming[0]) {
        k := EndsExactly(t, rest);
        OneMore(s, incoming, k);
        forall j | 0 <= j < k + 1 ensures !EndsAt(s, incoming, j) {
          if j > 0 { OneMore(s, incoming, j - 1); }
        }
      }
      k := k + 1;
    }
  }

  lemma AtLeastOne(s: Manager, incoming: seq<AcceptOutcome>)
    requires !EndsAt(s, incoming, 0)
    ensures incoming != []
  {
  }

  // Interruptions.

  /** The answers but for interrupted and aborted calls. */
  function Uninterrupted(incoming: seq<AcceptOutcome>): seq<AcceptOutcome> {
    if incoming == [] then []
    else
      (if incoming[0] == Interrupted || incoming[0] == Aborted then [] else [incoming[0]]) + Uninterrupted(incoming[1..])
  }

  lemma {:induction false} InterruptionsChangeNothing(s: Manager, incoming: seq<AcceptOutcome>)
    ensures ServerCallback(s, incoming) == ServerCallback(s, Uninterrupted(incoming))
    decreases |incoming|
  {
    if incoming != [] {
      var o, rest := incoming[0], incoming[1..];
      if o == Interrupted || o == Aborted {
        assert AcceptOne(s, o) == s && Uninterrupted(incoming) == Uninterrupted(rest);
        hide AcceptOne;
        InterruptionsChangeNothing(s, rest);
        if MetQuota(s) || s.statistics.outboundInflight >= 15 { QuotaEnds(s, Uninterrupted(rest)); }
      } else {
        hide AcceptOne;
        InterruptionsChangeNothing(AcceptOne(s, o), rest);
        assert Uninterrupted(incoming)[1..] == Uninterrupted(rest);
      }
    }
  }

  lemma QuotaEnds(s: Manager, incoming: seq<AcceptOutcome>)
    requires MetQuota(s) || s.statistics.outboundInflight >= 15
    ensures ServerCallback(s, incoming) == s
  {
  }

  // What is taken in.

  /** The peer of an accepted connection waits for the other side's handshake. */
  predicate IsGuest(p: Peer, from: Endpoint, descriptor: nat) {
    p == BLANK.(socket := Some(descriptor), store := Some(from), interest := Reading, timer := Some(10),
                contact := Contact(from, None), state := Handshaking, source := TcpServer)
  }

  function Connections(froms: seq<Endpoint>): seq<AcceptOutcome> {
    seq(|froms|, k requires 0 <= k < |froms| => Accepted(froms[k]))
  }

  /** Who was registered still is, unchanged, and each of `froms` got a free slot and a descriptor of its own. */
  ghost predicate AllIn(s: Manager, t: Manager, froms: seq<Endpoint>) {
    && |froms| <= |s.pool.available|
    && (forall e :: e in s.peers ==>
        && e in t.peers && t.peers[e] == s.peers[e]
        && HasSlot(s, s.peers[e]) && HasSlot(t, s.peers[e]) && t.pool.slots[s.peers[e]] == s.pool.slots[s.peers[e]])
    && (forall e :: e in t.peers ==> e in s.peers || e in froms)
    && (forall k :: 0 <= k < |froms| ==>
        && froms[k] in t.peers && t.peers[froms[k]] == s.pool.available[|s.pool.available| - 1 - k]
        && HasSlot(t, t.peers[froms[k]])
        && IsGuest(PeerAt(t, t.peers[froms[k]]), froms[k], s.nextDescriptor + k))
    && t.statistics == s.statistics.(outboundInflight := s.statistics.outboundInflight + |froms|)
    && t.nextDescriptor == s.nextDescriptor + |froms|
    && t.pool.available == s.pool.available[..|s.pool.available| - |froms|]
    && t.retryQueue == s.retryQueue && t.cache == s.cache && t.connects == s.connects
  }

  /** New endpoints, and no more of them than the quota, the limit and the free slots allow. */
  ghost predicate RoomFor(s: Manager, froms: seq<Endpoint>) {
    && Distinct(froms) && (forall k :: 0 <= k < |froms| ==> froms[k] !in s.peers)
    && s.statistics.connected < 50 && s.statistics.outboundInflight + |froms| <= 15
    && |froms| <= |s.pool.available|
  }

  lemma RegisteredElsewhere(s: Manager)
    requires Steady(s)
    ensures forall e :: e in s.peers ==>
      HasSlot(s, s.peers[e]) && (s.pool.available != [] ==> s.peers[e] != NextSlot(s.pool))
  {
    if s.pool.available != [] { AcquireKeeps(CoreOf(s)); }
  }

  /** One connection from an endpoint that is not registered. */
  lemma OneIn(s: Manager, from: Endpoint)
    requires Steady(s) && s.pool.available != [] && from !in s.peers && s.statistics.outboundInflight < 15
    ensures AllIn(s, AcceptOne(s, Accepted(from)), [from])
  {
    hide Steady, AcceptOne, Guest;
    FreeSlot(s);
    RegisteredElsewhere(s);
    IsWelcomed(s, from);
    GuestIs(from, s.nextDescriptor);
  }

  lemma GuestIs(from: Endpoint, descriptor: nat)
    ensures IsGuest(Guest(from, descriptor), from, descriptor)
  {
  }

  lemma InThenIn(s: Manager, t: Manager, u: Manager, from: Endpoint, rest: seq<Endpoint>)
    requires AllIn(s, t, [from]) && AllIn(t, u, rest)
    ensures AllIn(s, u, [from] + rest)
  {
    var froms := [from] + rest;
    hide IsGuest;
    assert froms[0] == from;
    forall k | 0 <= k < |froms|
      ensures froms[k] in u.peers && u.peers[froms[k]] == s.pool.available[|s.pool.available| - 1 - k]
      ensures HasSlot(u, u.peers[froms[k]]) && IsGuest(PeerAt(u, u.peers[froms[k]]), froms[k], s.nextDescriptor + k)
    {
      if k == 0 {
        assert [from][0] == from;
      } else {
        assert froms[k] == rest[k - 1];
      }
    }
  }

  /**
   * One wake-up takes in every new connection that the limits leave room for: each endpoint is registered, in a free
   * slot with a descriptor of its own, and nobody else is touched.
   */
  lemma {:induction false} AllAreAccepted(s: Manager, froms: seq<Endpoint>)
    requires Steady(s) && RoomFor(s, froms)
    ensures AllIn(s, ServerCallback(s, Connections(froms)), froms)
    decreases |froms|
  {
    hide *;
    if froms == [] {
      NobodyIn(s);
    } else {
      var t := AcceptOne(s, Accepted(froms[0]));
      ServeFirst(s, froms);
      OneIn(s, froms[0]);
      OneInKeeps(s, t, froms);
      AcceptNewKeeps(s, froms[0]);
      AllAreAccepted(t, froms[1..]);
      InThenIn(s, t, ServerCallback(t, Connections(froms[1..])), froms[0], froms[1..]);
      assert [froms[0]] + froms[1..] == froms;
    }
  }

  lemma NobodyIn(s: Manager)
    requires Steady(s)
    ensures AllIn(s, ServerCallback(s, Connections([])), [])
  {
    RegisteredElsewhere(s);
  }

  lemma ServeFirst(s: Manager, froms: seq<Endpoint>)
    requires RoomFor(s, froms) && froms != []
    ensures froms[0] !in s.peers && s.statistics.outboundInflight < 15 && s.pool.available != []
    ensures ServerCallback(s, Connections(froms)) ==
      ServerCallback(AcceptOne(s, Accepted(froms[0])), Connections(froms[1..]))
  {
    hide AcceptOne;
    assert Connections(froms)[1..] == Connections(froms[1..]);
  }

  lemma OneInKeeps(s: Manager, t: Manager, froms: seq<Endpoint>)
    requires froms != [] && RoomFor(s, froms) && AllIn(s, t, [froms[0]])
    ensures RoomFor(t, froms[1..])
  {
  }

  /** The same whatever calls were interrupted or aborted between. */
  lemma AllAreAcceptedAnyway(s: Manager, incoming: seq<AcceptOutcome>, froms: seq<Endpoint>)
    requires Steady(s) && RoomFor(s, froms)
    requires Uninterrupted(incoming) == Connections(froms)
    ensures AllIn(s, ServerCallback(s, incoming), froms)
  {
    hide *;
    InterruptionsChangeNothing(s, incoming);
    AllAreAccepted(s, froms);
  }

  // Discovery.

  /** Every contact is pushed, the counter stops at the cache's 200, and the scheduler is woken if it could use one. */
  lemma {:induction false} DrainOutcome(s: Manager, contacts: seq<Contact>)
    ensures Drain(s, contacts) ==
      s.(cache := OverwritableCache.PushedAll(s.cache, contacts, 200),
         statistics := s.statistics.(inCache := if s.statistics.inCache >= 200 then s.statistics.inCache
                                                else Min(s.statistics.inCache + |contacts|, 200)),
         notified := s.notified || (s.statistics.connected < 50 && s.pool.available != []))
    decreases |contacts|
  {
    if contacts != [] {
      var t := s.(cache := OverwritableCache.Pushed(s.cache, contacts[0], CACHE_SIZE),
                  statistics := s.statistics.(
                    inCache := if s.statistics.inCache < CACHE_SIZE then s.statistics.inCache + 1 else s.statistics.inCache));
      DrainOutcome(t, contacts[1..]);
    }
  }
}
