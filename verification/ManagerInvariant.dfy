/** What every callback keeps: the registry, the pool, the retry tickets, the attempts and the counters. */
module ManagerInvariant {
  import opened Common
  import opened SlotPool
  import opened ManagerModel
  import Handshake

  /** The part of the manager that the structural invariant is about. */
  datatype Core = Core(
    pool: Pool<Peer>, peers: map<Endpoint, nat>, retryQueue: seq<Ticket>,
    connects: seq<ConnectUpdate>, log: seq<Happening>)

  function CoreOf(s: Manager): Core {
    Core(s.pool, s.peers, s.retryQueue, s.connects, s.log)
  }

  // What a slot can be used for.

  datatype Category = Vacant | Inbound | Outbound | Waiting | Retrying | Live

  /** In flight means occupied with an armed socket watcher: Inbound or Outbound. */
  function CategoryOf(p: Peer): Category {
    if p.source == NoSource then Vacant
    else if p.state == Connected then Live
    else if p.interest != Stopped then if p.source == TcpServer then Outbound else Inbound
    else if p.state == Failed then Waiting
    else Retrying
  }

  predicate InFlight(p: Peer) { CategoryOf(p) == Inbound || CategoryOf(p) == Outbound }

  /** Failures so far, and where a tracker peer's attempts go. */
  predicate Tried(p: Peer) {
    && p.failures < MAX_RETRIES
    && (p.source == TcpServer ==> p.failures == 0)
    && (p.source == Tracker ==> p.store == Some(p.contact.endpoint))
  }

  /** The send ring is empty and has had all of the handshake, or none if the connection was there at once. */
  predicate Through(p: Peer) {
    p.send == [] && p.cursor == if p.source == Tracker && p.atOnce then 0 else Handshake.LENGTH
  }

  /** How far the handshake has been encoded. */
  predicate Greets(p: Peer) {
    match CategoryOf(p)
    case Vacant => true
    case Inbound =>
      && (p.state == Transport ==> !p.atOnce && p.cursor == 0)
      && (p.state == Handshaking ==> p.cursor == if p.atOnce then 0 else Handshake.LENGTH)
      && (p.atOnce || p.interest == Reading ==> p.send == [])
    case Outbound => p.interest == Writing ==> p.cursor == Handshake.LENGTH
    case Waiting => p.cursor == 0
    case Retrying => p.cursor == 0
    case Live => Through(p)
  }

  predicate Shape(p: Peer) {
    Tried(p) && Greets(p) &&
    match CategoryOf(p)
    case Vacant => p == BLANK
    case Inbound =>
      && p.source == Tracker && p.socket.Some? && p.timer == Some(CONNECT_TIMEOUT) && |p.recv| < Handshake.LENGTH
      && (p.state == Handshaking || (p.state == Transport && p.interest == Writing && p.send == [] && p.recv == []))
    case Outbound =>
      && p.state == Handshaking && p.socket.Some? && p.timer == Some(CONNECT_TIMEOUT) && |p.recv| < Handshake.LENGTH
      && (p.interest == Reading ==> p.send == [])
    case Waiting =>
      && p.source == Tracker && p.socket == None && 1 <= p.failures && p.timer == Some(RETRY_TIMEOUT * p.failures)
      && p.recv == [] && p.send == []
    case Retrying =>
      && p.source == Tracker && p.state == Transport && p.socket == None && 1 <= p.failures && p.timer == None
      && p.recv == [] && p.send == []
    case Live =>
      p.socket.Some? && p.interest == Stopped && p.timer == None
  }

  /** How often the occupant of a slot has tried to connect. */
  function AttemptsOf(p: Peer): nat {
    match CategoryOf(p)
    case Vacant => 0
    case Outbound => 0
    case Inbound => p.failures + 1
    case Waiting => p.failures
    case Retrying => p.failures
    case Live => if p.source == Tracker then p.failures + 1 else 0
  }

  // The structural invariant. Slots in `holes` are occupied but taken out for work.

  function At(c: Core, i: nat): Peer
    requires i < |c.pool.slots|
  {
    c.pool.slots[i].value
  }

  function Gen(c: Core, i: nat): nat
    requires i < |c.pool.slots|
  {
    c.pool.slots[i].generation
  }

  ghost predicate Registered(c: Core, i: nat)
    requires i < |c.pool.slots|
  {
    At(c, i).contact.endpoint in c.peers && c.peers[At(c, i).contact.endpoint] == i
  }

  ghost function Attempts(log: seq<Happening>, i: nat, g: nat): nat {
    multiset(log)[Attempted(i, g)]
  }

  ghost predicate SlotOk(c: Core, i: nat)
    requires i < |c.pool.slots|
  {
    var p := At(c, i);
    && Shape(p)
    && (i in c.pool.occupied <==> CategoryOf(p) != Vacant)
    && (i in c.pool.occupied ==> Registered(c, i))
    && (CategoryOf(p) == Retrying ==> Ticket(i, Gen(c, i)) in c.retryQueue)
    && (CategoryOf(p) == Live ==> ConnectUpdate(i, p.socket, Gen(c, i)) in c.connects)
    && Attempts(c.log, i, Gen(c, i)) == AttemptsOf(p)
  }

  ghost predicate PeersOk(c: Core) {
    forall k :: k in c.peers ==>
      c.peers[k] < |c.pool.slots| && c.peers[k] in c.pool.occupied && At(c, c.peers[k]).contact.endpoint == k
  }

  /** The ticket's queuing is on record. */
  ghost predicate OnRecord(log: seq<Happening>, t: Ticket) {
    exists e :: Queued(t.slot, t.generation, e) in log
  }

  ghost predicate TicketsOk(c: Core, holes: set<nat>) {
    && (forall t :: t in c.retryQueue ==> OnRecord(c.log, t))
    && (forall t :: t in c.retryQueue ==>
        && t.slot < |c.pool.slots| && t.generation <= Gen(c, t.slot)
        && (t.generation == Gen(c, t.slot) ==> t.slot !in holes && CategoryOf(At(c, t.slot)) == Retrying))
    && Distinct(c.retryQueue)
  }

  ghost predicate ConnectsOk(c: Core, holes: set<nat>) {
    && (forall u :: u in c.connects ==>
        && u.slot < |c.pool.slots| && u.slot !in holes && u.generation == Gen(c, u.slot)
        && CategoryOf(At(c, u.slot)) == Live && u.socket == At(c, u.slot).socket)
    && (forall j, k :: 0 <= j < k < |c.connects| ==> c.connects[j].slot != c.connects[k].slot)
  }

  /** A popped ticket passes exactly when its occupancy had not ended. */
  ghost predicate PopsOk(log: seq<Happening>) {
    forall j :: 0 <= j < |log| && log[j].Popped? ==>
      (log[j].passed <==> Released(log[j].slot, log[j].generation) !in log[..j])
  }

  ghost predicate LogOk(c: Core) {
    && (forall i: nat, g: nat :: i < |c.pool.slots| ==> (Released(i, g) in c.log <==> g < Gen(c, i)))
    && (forall i: nat, g: nat :: Attempts(c.log, i, g) <= MAX_RETRIES)
    && (forall i: nat, g: nat :: i < |c.pool.slots| && g > Gen(c, i) ==> Attempts(c.log, i, g) == 0)
    && (forall i: nat, g: nat, e :: Queued(i, g, e) in c.log ==>
        && i < |c.pool.slots| && g <= Gen(c, i)
        && (g == Gen(c, i) ==> i in c.pool.occupied && At(c, i).contact.endpoint == e))
    && PopsOk(c.log)
  }

  ghost predicate Intact(c: Core, holes: set<nat>) {
    && |c.pool.slots| == POOL_SIZE && SlotPool.Valid(c.pool)
    && PeersOk(c) && TicketsOk(c, holes) && ConnectsOk(c, holes) && LogOk(c)
    && (forall i :: 0 <= i < POOL_SIZE && i !in holes ==> SlotOk(c, i))
    && holes <= c.pool.occupied
  }

  lemma InitialIntact(handshake: seq<byte>, infoHash: seq<byte>)
    ensures Intact(CoreOf(Initial(handshake, infoHash)), {})
  {
    var c := CoreOf(Initial(handshake, infoHash));
    forall i | 0 <= i < POOL_SIZE ensures i in c.pool.available {
      assert c.pool.available[i] == i;
    }
  }

  /** A slot that is not connected and has no live ticket can be taken out. */
  lemma OpenHole(c: Core, i: nat)
    requires Intact(c, {}) && i in c.pool.occupied
    requires CategoryOf(At(c, i)) != Live
    requires Ticket(i, Gen(c, i)) !in c.retryQueue
    ensures Intact(c, {i}) && Registered(c, i)
  {
    assert SlotOk(c, i);
  }

  lemma CloseHole(c: Core, i: nat)
    requires i < POOL_SIZE && Intact(c, {i}) && SlotOk(c, i)
    ensures Intact(c, {})
  {
  }

  function Put(c: Core, i: nat, p: Peer): Core
    requires i < |c.pool.slots|
  {
    c.(pool := SetValue(c.pool, i, p))
  }

  /** A slot taken out may be written freely, as long as its contact stays. */
  lemma PutKeeps(c: Core, holes: set<nat>, i: nat, p: Peer)
    requires Intact(c, holes) && i in holes
    requires p.contact.endpoint == At(c, i).contact.endpoint
    ensures Intact(Put(c, i, p), holes) && (Registered(c, i) ==> Registered(Put(c, i, p), i))
  {
    var d := Put(c, i, p);
    forall j | 0 <= j < POOL_SIZE && j !in holes ensures SlotOk(d, j) {
      assert SlotOk(c, j);
    }
    assert SlotPool.Valid(d.pool);
  }

  lemma LogAppended(log: seq<Happening>, h: Happening, i: nat, g: nat)
    ensures Attempts(log + [h], i, g) == Attempts(log, i, g) + if h == Attempted(i, g) then 1 else 0
  {
  }

  lemma PopsAppended(log: seq<Happening>, h: Happening)
    requires PopsOk(log)
    requires h.Popped? ==> (h.passed <==> Released(h.slot, h.generation) !in log)
    ensures PopsOk(log + [h])
  {
    var l := log + [h];
    forall j | 0 <= j < |l| && l[j].Popped?
      ensures l[j].passed <==> Released(l[j].slot, l[j].generation) !in l[..j]
    {
      assert l[..j] == log[..j];
      assert log[..|log|] == log;
    }
  }

  /** What deleting the peer of slot `i` leaves behind. */
  function Vacated(c: Core, i: nat): Core
    requires i < |c.pool.slots|
  {
    c.(pool := AfterRelease(SetValue(c.pool, i, BLANK), i),
       peers := c.peers - {At(c, i).contact.endpoint},
       log := c.log + [Released(i, Gen(c, i))])
  }

  lemma VacatedLogOk(c: Core, i: nat)
    requires LogOk(c) && i < |c.pool.slots|
    ensures LogOk(Vacated(c, i))
  {
    var d := Vacated(c, i);
    PopsAppended(c.log, Released(i, Gen(c, i)));
    forall j: nat, g: nat ensures Attempts(d.log, j, g) == Attempts(c.log, j, g) {
      LogAppended(c.log, Released(i, Gen(c, i)), j, g);
    }
    hide PopsOk, Attempts;
  }

  lemma VacatedSlotOk(c: Core, i: nat, j: nat)
    requires i < |c.pool.slots| && j < |c.pool.slots|
    requires i in c.pool.occupied && LogOk(c)
    requires Registered(c, i) || (forall k :: k in c.peers ==> c.peers[k] != i && k != At(c, i).contact.endpoint)
    requires j != i ==> SlotOk(c, j)
    ensures SlotOk(Vacated(c, i), j)
  {
    LogAppended(c.log, Released(i, Gen(c, i)), j, Gen(Vacated(c, i), j));
  }

  lemma VacatedQueues(c: Core, holes: set<nat>, rest: set<nat>, i: nat)
    requires TicketsOk(c, holes) && ConnectsOk(c, holes)
    requires i < |c.pool.slots| && i in holes && rest == holes - {i}
    ensures TicketsOk(Vacated(c, i), rest) && ConnectsOk(Vacated(c, i), rest)
  {
  }

  lemma VacatedPool(c: Core, i: nat)
    requires i < |c.pool.slots| && SlotPool.Valid(c.pool) && i in c.pool.occupied && PeersOk(c)
    requires Registered(c, i) || (forall k :: k in c.peers ==> c.peers[k] != i && k != At(c, i).contact.endpoint)
    ensures SlotPool.Valid(Vacated(c, i).pool) && PeersOk(Vacated(c, i))
  {
    var blanked := SetValue(c.pool, i, BLANK);
    assert SlotPool.Valid(blanked);
    ReleaseKeepsValid(blanked, i);
  }

  lemma VacateKeeps(c: Core, holes: set<nat>, rest: set<nat>, i: nat)
    requires Intact(c, holes) && i in holes && rest == holes - {i}
    requires Registered(c, i) || (forall k :: k in c.peers ==> c.peers[k] != i && k != At(c, i).contact.endpoint)
    ensures Intact(Vacated(c, i), rest)
  {
    var d := Vacated(c, i);
    VacatedLogOk(c, i);
    VacatedPool(c, i);
    VacatedQueues(c, holes, rest, i);
    forall j | 0 <= j < POOL_SIZE && j !in rest ensures SlotOk(d, j) {
      VacatedSlotOk(c, i, j);
    }
    hide SlotOk, LogOk, PeersOk, TicketsOk, ConnectsOk;
  }

  /** Nothing has happened to the occupant of slot `i` yet. */
  ghost predicate Fresh(c: Core, i: nat)
    requires i < |c.pool.slots|
  {
    && At(c, i) == BLANK
    && Attempts(c.log, i, Gen(c, i)) == 0
    && (forall k :: k in c.peers ==> c.peers[k] != i)
    && (forall e :: Queued(i, Gen(c, i), e) !in c.log)
  }

  function Acquired(c: Core): Core
    requires c.pool.available != []
  {
    c.(pool := AfterAcquire(c.pool))
  }

  lemma AcquireKeeps(c: Core)
    requires Intact(c, {}) && c.pool.available != []
    ensures NextSlot(c.pool) < POOL_SIZE && NextSlot(c.pool) !in c.pool.occupied
    ensures Intact(Acquired(c), {NextSlot(c.pool)}) && Fresh(Acquired(c), NextSlot(c.pool))
  {
    var i, d := NextSlot(c.pool), Acquired(c);
    AcquireKeepsValid(c.pool);
    assert SlotOk(c, i);
    forall j | 0 <= j < POOL_SIZE && j != i ensures SlotOk(d, j) {
      assert SlotOk(c, j);
    }
  }

  function Enlisted(c: Core, i: nat, p: Peer): Core
    requires i < |c.pool.slots|
  {
    Put(c, i, p).(peers := c.peers[p.contact.endpoint := i])
  }

  /** A fresh slot is registered under an endpoint that is not in use. */
  lemma EnlistKeeps(c: Core, i: nat, p: Peer)
    requires i < POOL_SIZE && Intact(c, {i}) && Fresh(c, i) && p.contact.endpoint !in c.peers
    ensures Intact(Enlisted(c, i, p), {i}) && Registered(Enlisted(c, i, p), i)
  {
    var d := Enlisted(c, i, p);
    assert SlotPool.Valid(d.pool);
    forall j | 0 <= j < POOL_SIZE && j != i ensures SlotOk(d, j) {
      assert SlotOk(c, j);
    }
    forall t | t in d.retryQueue && t.generation == Gen(d, t.slot) ensures t.slot != i {
      assert t in c.retryQueue;
    }
  }

  function Logged(c: Core, h: Happening): Core { c.(log := c.log + [h]) }

  /** One more attempt by the occupant of a slot taken out. */
  lemma AttemptKeeps(c: Core, i: nat)
    requires i < POOL_SIZE && Intact(c, {i})
    requires Attempts(c.log, i, Gen(c, i)) < MAX_RETRIES
    ensures var d := Logged(c, Attempted(i, Gen(c, i)));
            Intact(d, {i}) && Attempts(d.log, i, Gen(d, i)) == Attempts(c.log, i, Gen(c, i)) + 1
  {
    var h := Attempted(i, Gen(c, i));
    var d := Logged(c, h);
    PopsAppended(c.log, h);
    forall j: nat, g: nat ensures Attempts(d.log, j, g) == Attempts(c.log, j, g) + if h == Attempted(j, g) then 1 else 0 {
      LogAppended(c.log, h, j, g);
    }
    forall j | 0 <= j < POOL_SIZE && j != i ensures SlotOk(d, j) {
      assert SlotOk(c, j);
    }
  }

  /** The timer's end of a failed peer: its ticket is queued and its slot put back. */
  function Requeued(c: Core, i: nat): Core
    requires i < |c.pool.slots|
  {
    c.(retryQueue := c.retryQueue + [Ticket(i, Gen(c, i))],
       log := c.log + [Queued(i, Gen(c, i), At(c, i).contact.endpoint)])
  }

  lemma RequeueKeeps(c: Core, i: nat)
    requires i < POOL_SIZE && Intact(c, {i}) && Registered(c, i)
    requires Shape(At(c, i)) && CategoryOf(At(c, i)) == Retrying
    requires Attempts(c.log, i, Gen(c, i)) == AttemptsOf(At(c, i))
    ensures Intact(Requeued(c, i), {})
  {
    var d := Requeued(c, i);
    var h := Queued(i, Gen(c, i), At(c, i).contact.endpoint);
    PopsAppended(c.log, h);
    forall j: nat, g: nat ensures Attempts(d.log, j, g) == Attempts(c.log, j, g) {
      LogAppended(c.log, h, j, g);
    }
    forall j | 0 <= j < POOL_SIZE ensures SlotOk(d, j) {
      if j != i { assert SlotOk(c, j); }
      assert d.retryQueue[|c.retryQueue|] == Ticket(i, Gen(c, i));
    }
  }

  function Unqueued(c: Core): Core
    requires c.retryQueue != [] && c.retryQueue[0].slot < |c.pool.slots|
  {
    var t := c.retryQueue[0];
    c.(retryQueue := c.retryQueue[1..],
       log := c.log + [Popped(t.slot, t.generation, Gen(c, t.slot) == t.generation)])
  }

  lemma UnqueueKeepsLog(c: Core)
    requires c.retryQueue != [] && c.retryQueue[0].slot < |c.pool.slots|
    requires LogOk(c) && c.retryQueue[0].generation <= Gen(c, c.retryQueue[0].slot)
    ensures LogOk(Unqueued(c))
    ensures forall j: nat, g: nat :: Attempts(Unqueued(c).log, j, g) == Attempts(c.log, j, g)
  {
    var t, d := c.retryQueue[0], Unqueued(c);
    var h := Popped(t.slot, t.generation, Gen(c, t.slot) == t.generation);
    PopsAppended(c.log, h);
    forall j: nat, g: nat ensures Attempts(d.log, j, g) == Attempts(c.log, j, g) {
      LogAppended(c.log, h, j, g);
    }
  }

  /** Popping a ticket takes its slot out if the ticket is live, and changes no slot if it is stale. */
  lemma UnqueueKeeps(c: Core)
    requires Intact(c, {}) && c.retryQueue != []
    ensures c.retryQueue[0].slot < POOL_SIZE
    ensures var t := c.retryQueue[0];
            if Gen(c, t.slot) != t.generation then Intact(Unqueued(c), {})
            else
              && Intact(Unqueued(c), {t.slot}) && Registered(Unqueued(c), t.slot)
              && CategoryOf(At(c, t.slot)) == Retrying && Shape(At(c, t.slot))
              && Attempts(Unqueued(c).log, t.slot, t.generation) == AttemptsOf(At(c, t.slot))
  {
    var t, d := c.retryQueue[0], Unqueued(c);
    UnqueueKeepsLog(c);
    assert t in c.retryQueue;
    assert SlotOk(c, t.slot);
    forall j | 0 <= j < POOL_SIZE && (Gen(c, t.slot) == t.generation ==> j != t.slot) ensures SlotOk(d, j) {
      assert SlotOk(c, j);
      if Ticket(j, Gen(c, j)) in c.retryQueue {
        var k :| 0 <= k < |c.retryQueue| && c.retryQueue[k] == Ticket(j, Gen(c, j));
        if k > 0 { assert d.retryQueue[k - 1] == Ticket(j, Gen(c, j)); }
      }
    }
    forall u | u in d.retryQueue ensures u in c.retryQueue && u != t {
      var k :| 0 <= k < |d.retryQueue| && d.retryQueue[k] == u;
      assert c.retryQueue[k + 1] == u;
    }
  }

  function Dispatched(c: Core, i: nat): Core
    requires i < |c.pool.slots|
  {
    c.(connects := c.connects + [ConnectUpdate(i, At(c, i).socket, Gen(c, i))])
  }

  lemma DispatchKeepsCore(c: Core, i: nat)
    requires i < POOL_SIZE && Intact(c, {i}) && Registered(c, i)
    requires Shape(At(c, i)) && CategoryOf(At(c, i)) == Live
    requires Attempts(c.log, i, Gen(c, i)) == AttemptsOf(At(c, i))
    ensures Intact(Dispatched(c, i), {})
  {
    var d := Dispatched(c, i);
    forall j | 0 <= j < POOL_SIZE ensures SlotOk(d, j) {
      if j != i { assert SlotOk(c, j); }
      assert d.connects[|c.connects|] == ConnectUpdate(i, At(c, i).socket, Gen(c, i));
    }
  }

  // Counting.

  function Count(slots: seq<Slot<Peer>>, category: Category): nat {
    if slots == [] then 0
    else Count(slots[..|slots| - 1], category)
         + if CategoryOf(slots[|slots| - 1].value) == category then 1 else 0
  }

  function One(p: Peer, category: Category): nat {
    if CategoryOf(p) == category then 1 else 0
  }

  lemma {:induction false} CountUpdate(slots: seq<Slot<Peer>>, i: nat, x: Slot<Peer>, category: Category)
    requires i < |slots|
    ensures Count(slots[i := x], category) ==
            Count(slots, category) - One(slots[i].value, category) + One(x.value, category)
  {
    var n := |slots| - 1;
    if i == n {
      assert slots[i := x][..n] == slots[..n];
    } else {
      assert slots[i := x][..n] == slots[..n][i := x];
      CountUpdate(slots[..n], i, x, category);
    }
  }

  lemma {:induction false} CountBound(slots: seq<Slot<Peer>>, category: Category)
    ensures Count(slots, category) <= |slots|
  {
    if slots != [] { CountBound(slots[..|slots| - 1], category); }
  }

  lemma {:induction false} CountBlank(n: nat, category: Category)
    requires category != Vacant
    ensures Count(seq(n, _ => Slot(BLANK, 0)), category) == 0
  {
    if n > 0 {
      var slots := seq(n, _ => Slot(BLANK, 0));
      assert slots[..n - 1] == seq(n - 1, _ => Slot(BLANK, 0));
      CountBlank(n - 1, category);
    }
  }

  /** What the counters should say. */
  function Tally(slots: seq<Slot<Peer>>, cached: nat): Statistics {
    Statistics(Count(slots, Live), Count(slots, Inbound), Count(slots, Outbound), Count(slots, Waiting),
               Count(slots, Retrying), cached)
  }

  /** Every counter is exact, and every queued ticket still belongs to its slot's occupant. */
  ghost predicate Counted(s: Manager) {
    && s.statistics == Tally(s.pool.slots, |s.cache|)
    && s.statistics.inRetry == |s.retryQueue| && |s.cache| <= CACHE_SIZE
    && (forall t :: t in s.retryQueue ==> HasSlot(s, t.slot) && t.generation == GenerationAt(s, t.slot))
  }

  /** The counters after the slot of a peer of category `from` has become one of category `to`. */
  function Moved(t: Statistics, from: Category, to: Category): Statistics {
    Statistics(
      Shift(t.connected, from == Live, to == Live), Shift(t.inboundInflight, from == Inbound, to == Inbound),
      Shift(t.outboundInflight, from == Outbound, to == Outbound), Shift(t.failed, from == Waiting, to == Waiting),
      Shift(t.inRetry, from == Retrying, to == Retrying), t.inCache)
  }

  function Shift(n: nat, leaves: bool, enters: bool): nat {
    if leaves && !enters then Dec(n) else if enters && !leaves then Inc(n) else n
  }

  lemma MovedIsCounted(s: Manager, s': Manager, i: nat, x: Slot<Peer>)
    requires Counted(s) && Intact(CoreOf(s), {i})
    requires s'.pool.slots == s.pool.slots[i := x]
    requires s'.retryQueue == s.retryQueue && s'.cache == s.cache
    requires s'.statistics == Moved(s.statistics, CategoryOf(PeerAt(s, i)), CategoryOf(x.value))
    requires CategoryOf(PeerAt(s, i)) != Retrying && CategoryOf(x.value) != Retrying
    ensures Counted(s')
  {
    NoTickets(s, i);
    hide Intact;
    CountMoves(s.pool.slots, i, x);
  }

  lemma NoTickets(s: Manager, i: nat)
    requires Counted(s) && Intact(CoreOf(s), {i})
    ensures i < POOL_SIZE == |s.pool.slots|
    ensures forall t :: t in s.retryQueue ==> t.slot != i
  {
    assert i in {i};
  }

  lemma CountMoves(slots: seq<Slot<Peer>>, i: nat, x: Slot<Peer>)
    requires |slots| == POOL_SIZE && i < POOL_SIZE
    ensures forall n: nat ::
      Tally(slots[i := x], n) == Moved(Tally(slots, n), CategoryOf(slots[i].value), CategoryOf(x.value))
  {
    CountMove(slots, i, x, Live);
    CountMove(slots, i, x, Inbound);
    CountMove(slots, i, x, Outbound);
    CountMove(slots, i, x, Waiting);
    CountMove(slots, i, x, Retrying);
  }

  lemma CountMove(slots: seq<Slot<Peer>>, i: nat, x: Slot<Peer>, category: Category)
    requires |slots| == POOL_SIZE && i < POOL_SIZE
    ensures Count(slots[i := x], category) ==
      Shift(Count(slots, category), CategoryOf(slots[i].value) == category, CategoryOf(x.value) == category)
  {
    CountUpdate(slots, i, x, category);
    CountBound(slots, category);
  }
}
