/**
 * The single-producer single-consumer queue. Every shared load, slot access and shared store is one step,
 * and the two threads take their steps in any order.
 */
module SpscQueue {
  import opened Common
  import BitWords

  /** Where the producer stands inside `push`; `w` and `next` are its local indices. */
  datatype Producer<T> =
    | ProducerIdle
    | LoadingRead(value: T, w: nat, next: nat)
    | StoringSlot(value: T, w: nat, next: nat)
    | Publishing(value: T, next: nat)

  /** Where the consumer stands inside `pop`. */
  datatype Consumer<T> =
    | ConsumerIdle
    | LoadingWrite(r: nat)
    | LoadingSlot(r: nat)
    | Retiring(value: T, r: nat)

  /** The queue object, the two threads, and what they have pushed and popped so far. */
  datatype System<T> = System(
    slots: seq<T>, readIndex: nat, cachedRead: nat, writeIndex: nat, cachedWrite: nat,
    producer: Producer<T>, consumer: Consumer<T>,
    pushed: seq<T>, popped: seq<T>)

  /** A step of either thread. `junk` is whatever a move leaves behind in the slot. */
  datatype Action<T> =
    | BeginPush(value: T) | LoadRead | StoreSlot | PublishWrite
    | BeginPop | LoadWrite | LoadSlot(junk: T) | PublishRead

  function Next(index: nat, cells: nat): nat {
    if index + 1 == cells then 0 else index + 1
  }

  function Initial<T>(size: nat, blank: T): System<T> {
    System(seq(size + 1, _ => blank), 0, 0, 0, 0, ProducerIdle, ConsumerIdle, [], [])
  }

  predicate Enabled<T>(s: System<T>, a: Action<T>) {
    match a
    case BeginPush(_) => s.producer.ProducerIdle?
    case LoadRead => s.producer.LoadingRead?
    case StoreSlot => s.producer.StoringSlot? && s.producer.w < |s.slots|
    case PublishWrite => s.producer.Publishing?
    case BeginPop => s.consumer.ConsumerIdle?
    case LoadWrite => s.consumer.LoadingWrite?
    case LoadSlot(_) => s.consumer.LoadingSlot? && s.consumer.r < |s.slots|
    case PublishRead => s.consumer.Retiring?
  }

  function Step<T>(s: System<T>, a: Action<T>): System<T>
    requires Enabled(s, a)
  {
    match a
    case BeginPush(value) =>
      var w := s.writeIndex;
      var next := Next(w, |s.slots|);
      if next == s.cachedRead then s.(producer := LoadingRead(value, w, next))
      else s.(producer := StoringSlot(value, w, next))
    case LoadRead =>
      var p := s.producer;
      if p.next == s.readIndex then s.(cachedRead := s.readIndex, producer := ProducerIdle)
      else s.(cachedRead := s.readIndex, producer := StoringSlot(p.value, p.w, p.next))
    case StoreSlot =>
      var p := s.producer;
      s.(slots := s.slots[p.w := p.value], producer := Publishing(p.value, p.next))
    case PublishWrite =>
      s.(writeIndex := s.producer.next, producer := ProducerIdle, pushed := s.pushed + [s.producer.value])
    case BeginPop =>
      var r := s.readIndex;
      if r == s.cachedWrite then s.(consumer := LoadingWrite(r)) else s.(consumer := LoadingSlot(r))
    case LoadWrite =>
      var c := s.consumer;
      if c.r == s.writeIndex then s.(cachedWrite := s.writeIndex, consumer := ConsumerIdle)
      else s.(cachedWrite := s.writeIndex, consumer := LoadingSlot(c.r))
    case LoadSlot(junk) =>
      var c := s.consumer;
      s.(slots := s.slots[c.r := junk], consumer := Retiring(s.slots[c.r], c.r))
    case PublishRead =>
      var c := s.consumer;
      s.(readIndex := Next(c.r, |s.slots|), consumer := ConsumerIdle, popped := s.popped + [c.value])
  }

  /** The load at which a push finds no room, or a pop nothing to take. */
  predicate FailsAt<T>(s: System<T>, a: Action<T>) {
    || (a.LoadRead? && s.producer.LoadingRead? && s.producer.next == s.readIndex)
    || (a.LoadWrite? && s.consumer.LoadingWrite? && s.consumer.r == s.writeIndex)
  }

  // The invariant. Indices are counts of completed operations, modulo the number of cells.

  ghost predicate Indexed<T>(s: System<T>) {
    && |s.slots| >= 2
    && s.writeIndex == |s.pushed| % |s.slots|
    && s.readIndex == |s.popped| % |s.slots|
    && |s.popped| <= |s.pushed| < |s.popped| + |s.slots|
  }

  /** Pushes that have a cell, and pops that have a value, counting the one under way. */
  ghost function Reserved<T>(s: System<T>): nat {
    if s.producer.StoringSlot? || s.producer.Publishing? then |s.pushed| + 1 else |s.pushed|
  }

  ghost function Claimed<T>(s: System<T>): nat {
    if s.consumer.LoadingSlot? || s.consumer.Retiring? then |s.popped| + 1 else |s.popped|
  }

  /** A cached index is the counterpart's index as it was at the earlier count `k`. */
  ghost predicate ReadWas<T>(s: System<T>, k: nat)
    requires Indexed(s)
  {
    k <= |s.popped| && Reserved(s) < k + |s.slots| && s.cachedRead == k % |s.slots|
  }

  ghost predicate WriteWas<T>(s: System<T>, k: nat)
    requires Indexed(s)
  {
    Claimed(s) <= k <= |s.pushed| && s.cachedWrite == k % |s.slots|
  }

  ghost predicate Cached<T>(s: System<T>)
    requires Indexed(s)
  {
    (exists k: nat :: ReadWas(s, k)) && (exists k: nat :: WriteWas(s, k))
  }

  ghost predicate Produces<T>(s: System<T>)
    requires Indexed(s)
  {
    match s.producer
    case ProducerIdle => true
    case LoadingRead(_, w, next) => w == s.writeIndex && next == Next(w, |s.slots|)
    case StoringSlot(_, w, next) =>
      w == s.writeIndex && next == Next(w, |s.slots|) && |s.pushed| + 1 < |s.popped| + |s.slots|
    case Publishing(value, next) =>
      && next == Next(s.writeIndex, |s.slots|) && |s.pushed| + 1 < |s.popped| + |s.slots|
      && s.slots[s.writeIndex] == value
  }

  ghost predicate Consumes<T>(s: System<T>)
    requires Indexed(s)
  {
    match s.consumer
    case ConsumerIdle => true
    case LoadingWrite(r) => r == s.readIndex
    case LoadingSlot(r) => r == s.readIndex && |s.popped| < |s.pushed|
    case Retiring(value, r) => r == s.readIndex && |s.popped| < |s.pushed| && value == s.pushed[|s.popped|]
  }

  /** How many values have been taken out of their slots. */
  ghost function Taken<T>(s: System<T>): nat {
    if s.consumer.Retiring? then |s.popped| + 1 else |s.popped|
  }

  ghost predicate Inv<T>(s: System<T>) {
    && Indexed(s) && Cached(s) && Produces(s) && Consumes(s)
    && s.popped <= s.pushed
    && forall k :: Taken(s) <= k < |s.pushed| ==> s.slots[k % |s.slots|] == s.pushed[k]
  }

  lemma NextIsSuccessor(k: nat, m: nat)
    requires m >= 2
    ensures Next(k % m, m) == (k + 1) % m
  {
    var q := k / m;
    assert k == q * m + k % m;
    if k % m + 1 == m {
      assert k + 1 == (q + 1) * m;
      UniqueModulo(k + 1, m, q + 1, 0);
    } else {
      UniqueModulo(k + 1, m, q, k % m + 1);
    }
  }

  lemma UniqueModulo(x: nat, m: nat, q: nat, r: nat)
    requires r < m && x == q * m + r
    ensures x % m == r
  {
    BitWords.UniqueRemainder(x, m, q, r);
  }

  /** Two counts less than one round apart stand at different cells. */
  lemma CellsDiffer(j: nat, k: nat, m: nat)
    requires 0 < m && j < k < j + m
    ensures j % m != k % m
  {
    if j % m == k % m {
      var p, q := j / m, k / m;
      assert j == p * m + j % m && k == q * m + k % m;
      BitWords.Distribute(q, p, m);
      if q > p { BitWords.AtLeast(q - p, m); } else if q < p { BitWords.AtLeast(p - q, m); BitWords.Distribute(p, q, m); }
      assert false;
    }
  }

  lemma Around(k: nat, m: nat)
    requires 0 < m
    ensures (k + m) % m == k % m
  {
    UniqueModulo(k + m, m, k / m + 1, k % m);
  }

  lemma InitialInv<T>(size: nat, blank: T)
    requires size >= 1
    ensures Inv(Initial(size, blank))
  {
    var s := Initial(size, blank);
    assert ReadWas(s, 0) && WriteWas(s, 0);
  }

  lemma BeginPushKeeps<T>(s: System<T>, value: T)
    requires Inv(s) && s.producer.ProducerIdle?
    ensures Inv(Step(s, BeginPush(value)))
  {
    var t := Step(s, BeginPush(value));
    var m := |s.slots|;
    NextIsSuccessor(|s.pushed|, m);
    var j: nat, k: nat :| ReadWas(s, j) && WriteWas(s, k);
    if |s.pushed| + 1 == j + m {
      Around(j, m);
    }
    assert ReadWas(t, j) && WriteWas(t, k);
  }

  lemma LoadReadKeeps<T>(s: System<T>)
    requires Inv(s) && s.producer.LoadingRead?
    ensures Inv(Step(s, LoadRead))
    ensures FailsAt(s, LoadRead) <==> |s.pushed| - |s.popped| == |s.slots| - 1
  {
    var t := Step(s, LoadRead);
    var m := |s.slots|;
    NextIsSuccessor(|s.pushed|, m);
    if |s.pushed| + 1 == |s.popped| + m {
      Around(|s.popped|, m);
    } else {
      CellsDiffer(|s.popped|, |s.pushed| + 1, m);
    }
    var k: nat :| WriteWas(s, k);
    assert ReadWas(t, |s.popped|) && WriteWas(t, k);
  }

  lemma StoreSlotKeeps<T>(s: System<T>)
    requires Inv(s) && s.producer.StoringSlot?
    ensures Enabled(s, StoreSlot) && Inv(Step(s, StoreSlot))
  {
    var t := Step(s, StoreSlot);
    var j: nat, k: nat :| ReadWas(s, j) && WriteWas(s, k);
    assert ReadWas(t, j) && WriteWas(t, k);
    forall i | Taken(t) <= i < |t.pushed| ensures t.slots[i % |t.slots|] == t.pushed[i] {
      CellsDiffer(i, |s.pushed|, |s.slots|);
    }
  }

  lemma PublishWriteKeeps<T>(s: System<T>)
    requires Inv(s) && s.producer.Publishing?
    ensures Inv(Step(s, PublishWrite))
  {
    var t := Step(s, PublishWrite);
    NextIsSuccessor(|s.pushed|, |s.slots|);
    var j: nat, k: nat :| ReadWas(s, j) && WriteWas(s, k);
    assert ReadWas(t, j) && WriteWas(t, k);
  }

  lemma BeginPopKeeps<T>(s: System<T>)
    requires Inv(s) && s.consumer.ConsumerIdle?
    ensures Inv(Step(s, BeginPop))
  {
    var t := Step(s, BeginPop);
    var j: nat, k: nat :| ReadWas(s, j) && WriteWas(s, k);
    assert ReadWas(t, j) && WriteWas(t, k);
  }

  lemma LoadWriteKeeps<T>(s: System<T>)
    requires Inv(s) && s.consumer.LoadingWrite?
    ensures Inv(Step(s, LoadWrite))
    ensures FailsAt(s, LoadWrite) <==> |s.pushed| == |s.popped|
  {
    var t := Step(s, LoadWrite);
    if |s.popped| < |s.pushed| {
      CellsDiffer(|s.popped|, |s.pushed|, |s.slots|);
    }
    var j: nat :| ReadWas(s, j);
    assert ReadWas(t, j) && WriteWas(t, |s.pushed|);
  }

  lemma LoadSlotKeeps<T>(s: System<T>, junk: T)
    requires Inv(s) && s.consumer.LoadingSlot?
    ensures Enabled(s, LoadSlot(junk)) && Inv(Step(s, LoadSlot(junk)))
  {
    var t := Step(s, LoadSlot(junk));
    var j: nat, k: nat :| ReadWas(s, j) && WriteWas(s, k);
    assert ReadWas(t, j) && WriteWas(t, k);
    forall i | Taken(t) <= i < |t.pushed| ensures t.slots[i % |t.slots|] == t.pushed[i] {
      CellsDiffer(|s.popped|, i, |s.slots|);
    }
    if s.producer.Publishing? {
      CellsDiffer(|s.popped|, |s.pushed|, |s.slots|);
    }
  }

  lemma PublishReadKeeps<T>(s: System<T>)
    requires Inv(s) && s.consumer.Retiring?
    ensures Inv(Step(s, PublishRead))
  {
    var t := Step(s, PublishRead);
    NextIsSuccessor(|s.popped|, |s.slots|);
    var j: nat, k: nat :| ReadWas(s, j) && WriteWas(s, k);
    assert ReadWas(t, j) && WriteWas(t, k);
  }

  lemma StepKeeps<T>(s: System<T>, a: Action<T>)
    requires Inv(s) && Enabled(s, a)
    ensures Inv(Step(s, a)) && |Step(s, a).slots| == |s.slots|
    ensures FailsAt(s, a) && a.LoadRead? ==> |s.pushed| - |s.popped| == |s.slots| - 1
    ensures FailsAt(s, a) && a.LoadWrite? ==> |s.pushed| == |s.popped|
  {
    match a
    case BeginPush(value) => BeginPushKeeps(s, value);
    case LoadRead => LoadReadKeeps(s);
    case StoreSlot => StoreSlotKeeps(s);
    case PublishWrite => PublishWriteKeeps(s);
    case BeginPop => BeginPopKeeps(s);
    case LoadWrite => LoadWriteKeeps(s);
    case LoadSlot(junk) => LoadSlotKeeps(s, junk);
    case PublishRead => PublishReadKeeps(s);
  }

  // Whole runs.

  ghost predicate Possible<T>(s: System<T>, actions: seq<Action<T>>)
    decreases |actions|
  {
    actions == [] || (Enabled(s, actions[0]) && Possible(Step(s, actions[0]), actions[1..]))
  }

  function Exec<T>(s: System<T>, actions: seq<Action<T>>): System<T>
    requires Possible(s, actions)
    decreases |actions|
  {
    if actions == [] then s else Exec(Step(s, actions[0]), actions[1..])
  }

  lemma {:induction false} ExecKeeps<T>(s: System<T>, actions: seq<Action<T>>)
    requires Inv(s) && Possible(s, actions)
    ensures Inv(Exec(s, actions)) && |Exec(s, actions).slots| == |s.slots|
    decreases |actions|
  {
    if actions != [] {
      StepKeeps(s, actions[0]);
      ExecKeeps(Step(s, actions[0]), actions[1..]);
    }
  }

  /**
   * Under every interleaving: the popped values are a prefix of the pushed ones, at most `size` are
   * pending, the threads are never about to touch the same slot, a thread that is about to touch one
   * is never stuck, and a push or pop fails exactly when the queue was full or empty at its index load.
   */
  lemma EveryInterleaving<T>(size: nat, blank: T, actions: seq<Action<T>>)
    requires size >= 1 && Possible(Initial(size, blank), actions)
    ensures var s := Exec(Initial(size, blank), actions);
            && s.popped <= s.pushed
            && |s.pushed| - |s.popped| <= size
            && (s.producer.StoringSlot? && s.consumer.LoadingSlot? ==> s.producer.w != s.consumer.r)
            && (s.producer.StoringSlot? ==> Enabled(s, StoreSlot))
            && (forall junk :: s.consumer.LoadingSlot? ==> Enabled(s, LoadSlot(junk)))
            && (s.producer.LoadingRead? ==> (FailsAt(s, LoadRead) <==> |s.pushed| - |s.popped| == size))
            && (s.consumer.LoadingWrite? ==> (FailsAt(s, LoadWrite) <==> s.pushed == s.popped))
  {
    InitialInv(size, blank);
    ExecKeeps(Initial(size, blank), actions);
    var s := Exec(Initial(size, blank), actions);
    if s.producer.StoringSlot? && s.consumer.LoadingSlot? {
      CellsDiffer(|s.popped|, |s.pushed|, |s.slots|);
    }
    if s.producer.LoadingRead? { LoadReadKeeps(s); }
    if s.consumer.LoadingWrite? { LoadWriteKeeps(s); }
  }

  // The queue object. `push` and `pop` run without the other thread here; the steps above are theirs.

  function PushAlone<T>(s: System<T>, value: T): System<T>
    requires Inv(s) && s.producer.ProducerIdle?
  {
    var s1 := Step(s, BeginPush(value));
    StepKeeps(s, BeginPush(value));
    var s2 := if s1.producer.LoadingRead? then (StepKeeps(s1, LoadRead); Step(s1, LoadRead)) else s1;
    if s2.producer.ProducerIdle? then s2
    else (StepKeeps(s2, StoreSlot); Step(Step(s2, StoreSlot), PublishWrite))
  }

  function PopAlone<T>(s: System<T>, junk: T): System<T>
    requires Inv(s) && s.consumer.ConsumerIdle?
  {
    var s1 := Step(s, BeginPop);
    StepKeeps(s, BeginPop);
    var s2 := if s1.consumer.LoadingWrite? then (StepKeeps(s1, LoadWrite); Step(s1, LoadWrite)) else s1;
    if s2.consumer.ConsumerIdle? then s2
    else (StepKeeps(s2, LoadSlot(junk)); Step(Step(s2, LoadSlot(junk)), PublishRead))
  }

  /** A push that runs alone appends its value unless the queue is full, stale cache or not. */
  lemma PushAloneEffect<T>(s: System<T>, value: T)
    requires Inv(s) && s.producer.ProducerIdle?
    ensures var t := PushAlone(s, value);
            && Inv(t) && t.producer.ProducerIdle? && t.popped == s.popped && t.consumer == s.consumer
            && t.pushed == if |s.pushed| - |s.popped| < |s.slots| - 1 then s.pushed + [value] else s.pushed
  {
    var s1 := Step(s, BeginPush(value));
    BeginPushKeeps(s, value);
    var s2 := s1;
    if s1.producer.LoadingRead? { LoadReadKeeps(s1); s2 := Step(s1, LoadRead); }
    if !s2.producer.ProducerIdle? {
      StoreSlotKeeps(s2);
      PublishWriteKeeps(Step(s2, StoreSlot));
    }
  }

  lemma PopAloneEffect<T>(s: System<T>, junk: T)
    requires Inv(s) && s.consumer.ConsumerIdle?
    ensures var t := PopAlone(s, junk);
            && Inv(t) && t.consumer.ConsumerIdle? && t.pushed == s.pushed && t.producer == s.producer
            && t.popped == s.pushed[..Min(|s.popped| + 1, |s.pushed|)]
  {
    var s1 := Step(s, BeginPop);
    BeginPopKeeps(s);
    var s2 := s1;
    if s1.consumer.LoadingWrite? { LoadWriteKeeps(s1); s2 := Step(s1, LoadWrite); }
    if !s2.consumer.ConsumerIdle? {
      LoadSlotKeeps(s2, junk);
      PublishReadKeeps(Step(s2, LoadSlot(junk)));
    }
  }

  class Queue<T(0)> {
    const queue: array<T>
    var readIndex: nat
    var cachedReadIndex: nat
    var writeIndex: nat
    var cachedWriteIndex: nat
    ghost var pushed: seq<T>
    ghost var popped: seq<T>

    ghost function View(): System<T>
      reads this, queue
    {
      System(queue[..], readIndex, cachedReadIndex, writeIndex, cachedWriteIndex,
             ProducerIdle, ConsumerIdle, pushed, popped)
    }

    constructor (size: nat, blank: T)
      requires size >= 1
      ensures View() == Initial(size, blank) && Inv(View()) && fresh(queue)
    {
      queue := new T[size + 1](_ => blank);
      readIndex, cachedReadIndex, writeIndex, cachedWriteIndex := 0, 0, 0, 0;
      pushed, popped := [], [];
      new;
      assert queue[..] == Initial(size, blank).slots;
      InitialInv(size, blank);
    }

    method Push(value: T) returns (ok: bool)
      requires Inv(View())
      modifies this, queue
      ensures Inv(View()) && View() == PushAlone(old(View()), value)
      ensures ok <==> |old(pushed)| - |old(popped)| < queue.Length - 1
      ensures ok ==> pushed == old(pushed) + [value]
      ensures !ok ==> pushed == old(pushed)
    {
      PushAloneEffect(View(), value);
      var write := writeIndex;
      var nextWrite := write + 1;
      if nextWrite == queue.Length { nextWrite := 0; }
      if nextWrite == cachedReadIndex {
        cachedReadIndex := readIndex;
        if nextWrite == cachedReadIndex { return false; }
      }
      queue[write] := value;
      writeIndex := nextWrite;
      pushed := pushed + [value];
      return true;
    }

    /** `junk` is what moving the value out leaves in its slot. */
    method Pop(junk: T) returns (value: Option<T>)
      requires Inv(View())
      modifies this, queue
      ensures Inv(View()) && View() == PopAlone(old(View()), junk)
      ensures value == None <==> |old(pushed)| == |old(popped)|
      ensures value.Some? ==> value.value == pushed[|old(popped)|] && popped == old(popped) + [value.value]
    {
      PopAloneEffect(View(), junk);
      var read := readIndex;
      if read == cachedWriteIndex {
        cachedWriteIndex := writeIndex;
        if read == cachedWriteIndex { return None; }
      }
      value := Some(queue[read]);
      queue[read] := junk;
      var nextRead := read + 1;
      if nextRead == queue.Length { nextRead := 0; }
      readIndex := nextRead;
      popped := popped + [value.value];
    }
  }
}
