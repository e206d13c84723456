/** The zero-copy byte ring. Memory is handed out as at most two vectors over the cells. */
module IoRingBuffer {
  import opened Common
  import opened BitWords

  /** `len` cells from offset `base`. A null vector has base 0 and length 0. */
  datatype IoVec = IoVec(base: nat, len: nat)

  /** `vectors` always has two entries; only the first `count` are passed to the kernel. */
  datatype Prepared = Prepared(count: nat, vectors: seq<IoVec>)

  const NOTHING := Prepared(0, [IoVec(0, 0), IoVec(0, 0)])

  datatype Ring = Ring(cells: seq<byte>, read: nat, write: nat, readable: nat)

  ghost predicate Valid(r: Ring) {
    && r.read < |r.cells| && r.write < |r.cells| && r.readable <= |r.cells|
    && r.write == Wrap(r.read + r.readable, |r.cells|)
  }

  /** The queue the ring stands for. */
  function Contents(r: Ring): seq<byte>
    requires Valid(r)
  {
    Window(r.cells, r.read, r.readable)
  }

  function Room(r: Ring): nat
    requires Valid(r)
  {
    |r.cells| - r.readable
  }

  function Mask(index: nat, n: nat): nat
    requires 0 < n
  {
    if PopCount(n) == 1 then And(index, n - 1) else index % n
  }

  lemma MaskWraps(index: nat, n: nat)
    requires index < 2 * n
    ensures Mask(index, n) == Wrap(index, n)
  {
    if PopCount(n) == 1 { SingleBitMask(index, n); }
    WrapIsModulo(index, n);
  }

  function PrepareRead(r: Ring): Prepared
    requires Valid(r)
  {
    if r.readable == 0 then NOTHING
    else if r.read < r.write || (r.readable == |r.cells| && r.read == 0) then
      Prepared(1, [IoVec(r.read, r.readable), IoVec(0, 0)])
    else
      Prepared(2, [IoVec(r.read, |r.cells| - r.read), IoVec(0, r.write)])
  }

  function PrepareWrite(r: Ring): Prepared
    requires Valid(r)
  {
    if r.readable == |r.cells| then NOTHING
    else if r.write < r.read || (r.readable == 0 && r.write == 0) then
      Prepared(1, [IoVec(r.write, Room(r)), IoVec(0, 0)])
    else
      Prepared(2, [IoVec(r.write, |r.cells| - r.write), IoVec(0, r.read)])
  }

  function ReadCommitted(r: Ring, bytes: nat): Ring
    requires Valid(r) && bytes <= r.readable
  {
    if bytes == 0 then r
    else r.(read := Mask(r.read + bytes, |r.cells|), readable := r.readable - bytes)
  }

  function WriteCommitted(r: Ring, bytes: nat): Ring
    requires Valid(r) && bytes <= Room(r)
  {
    if bytes == 0 then r
    else r.(write := Mask(r.write + bytes, |r.cells|), readable := r.readable + bytes)
  }

  /** `data` copied to the cells from `base` on. */
  function Overwrite(cells: seq<byte>, base: nat, data: seq<byte>): (r: seq<byte>)
    requires base + |data| <= |cells|
    ensures |r| == |cells|
  {
    cells[..base] + data + cells[base + |data|..]
  }

  /** The kernel fills the vectors in order. */
  function Scatter(cells: seq<byte>, p: Prepared, data: seq<byte>): (r: seq<byte>)
    requires InBounds(p, |cells|) && |data| <= Bytes(p)
    ensures |r| == |cells|
  {
    var n := Min(|data|, p.vectors[0].len);
    Overwrite(Overwrite(cells, p.vectors[0].base, data[..n]), p.vectors[1].base, data[n..])
  }

  /** The kernel reads the vectors in order. */
  function Gather(cells: seq<byte>, p: Prepared): seq<byte>
    requires InBounds(p, |cells|)
  {
    cells[p.vectors[0].base..][..p.vectors[0].len] + cells[p.vectors[1].base..][..p.vectors[1].len]
  }

  predicate InBounds(p: Prepared, n: nat) {
    && |p.vectors| == 2
    && p.vectors[0].base + p.vectors[0].len <= n
    && p.vectors[1].base + p.vectors[1].len <= n
  }

  function Bytes(p: Prepared): nat
    requires |p.vectors| == 2
  {
    p.vectors[0].len + p.vectors[1].len
  }

  ghost function Run(v: IoVec): (run: seq<nat>)
    ensures |run| == v.len && forall k :: 0 <= k < v.len ==> run[k] == v.base + k
  {
    seq(v.len, k requires 0 <= k => v.base + k)
  }

  /** The cells a preparation names, in the order the kernel visits them. */
  ghost function Cells(p: Prepared): seq<nat>
    requires |p.vectors| == 2
  {
    Run(p.vectors[0]) + Run(p.vectors[1])
  }

  /** The cells of a window, in order. */
  ghost function Around(from: nat, count: nat, n: nat): (around: seq<nat>)
    requires from < n && count <= n
    ensures |around| == count && forall k :: 0 <= k < count ==> around[k] == Wrap(from + k, n)
  {
    seq<nat>(count, k requires 0 <= k < count => Wrap(from + k, n))
  }

  // The ring is a bounded byte queue.

  lemma ReadVectorsAreContents(r: Ring)
    requires Valid(r)
    ensures var p := PrepareRead(r);
            && InBounds(p, |r.cells|) && Bytes(p) == r.readable
            && Cells(p) == Around(r.read, r.readable, |r.cells|)
            && Gather(r.cells, p) == Contents(r)
  {
    var p := PrepareRead(r);
    assert Cells(p) == Around(r.read, r.readable, |r.cells|);
    assert Gather(r.cells, p) == Contents(r);
  }

  /** The write vectors are exactly the free cells, in queue order and apart from the live ones. */
  lemma WriteVectorsAreFreeCells(r: Ring)
    requires Valid(r)
    ensures var p := PrepareWrite(r); var n := |r.cells|;
            && InBounds(p, n) && Bytes(p) == Room(r)
            && Cells(p) == Around(r.write, Room(r), n)
            && Distinct(Around(r.read, r.readable, n) + Cells(p))
            && (forall i :: 0 <= i < n ==> i in Around(r.read, r.readable, n) + Cells(p))
  {
    var p := PrepareWrite(r);
    var n := |r.cells|;
    assert Cells(p) == Around(r.write, Room(r), n);
    var all := Around(r.read, r.readable, n) + Cells(p);
    assert all == Around(r.read, n, n);
    forall i | 0 <= i < n ensures i in all {
      var k := if i >= r.read then i - r.read else i + n - r.read;
      assert all[k] == i;
    }
  }

  lemma ReadCommittedTakes(r: Ring, bytes: nat)
    requires Valid(r) && bytes <= r.readable
    ensures Valid(ReadCommitted(r, bytes))
    ensures Contents(ReadCommitted(r, bytes)) == Contents(r)[bytes..]
  {
    if r.read + bytes < 2 * |r.cells| { MaskWraps(r.read + bytes, |r.cells|); }
  }

  lemma WriteCommittedKeeps(r: Ring, bytes: nat)
    requires Valid(r) && bytes <= Room(r)
    ensures var s := WriteCommitted(r, bytes);
            && Valid(s) && s.readable == r.readable + bytes && s.read == r.read && s.cells == r.cells
            && s.write == Wrap(r.write + bytes, |r.cells|)
  {
    if r.write + bytes < 2 * |r.cells| { MaskWraps(r.write + bytes, |r.cells|); }
  }

  lemma ScatterAt(r: Ring, data: seq<byte>, k: nat)
    requires Valid(r) && |data| <= Room(r) && k < |r.cells|
    ensures WriteInBounds(r)
    ensures Scatter(r.cells, PrepareWrite(r), data)[Wrap(r.write + k, |r.cells|)] ==
            if k < |data| then data[k] else r.cells[Wrap(r.write + k, |r.cells|)]
  {
    WriteVectorsAreFreeCells(r);
  }

  ghost predicate WriteInBounds(r: Ring)
    requires Valid(r)
  {
    InBounds(PrepareWrite(r), |r.cells|) && Bytes(PrepareWrite(r)) == Room(r)
  }

  /** Filling the write vectors with `data` and committing that much appends it to the queue. */
  function Received(r: Ring, data: seq<byte>): (s: Ring)
    requires Valid(r) && |data| <= Room(r)
    ensures Valid(s) && |s.cells| == |r.cells|
    ensures Contents(s) == Contents(r) + data
  {
    WriteVectorsAreFreeCells(r);
    var filled := r.(cells := Scatter(r.cells, PrepareWrite(r), data));
    WriteCommittedKeeps(filled, |data|);
    ScatterKeepsQueue(r, data);
    WriteCommitted(filled, |data|)
  }

  lemma ScatterKeepsQueue(r: Ring, data: seq<byte>)
    requires Valid(r) && |data| <= Room(r)
    ensures WriteInBounds(r)
    ensures Window(Scatter(r.cells, PrepareWrite(r), data), r.read, r.readable + |data|) == Contents(r) + data
  {
    ScatterAt(r, data, 0);
    hide Scatter, PrepareWrite, InBounds, Bytes;
    var n := |r.cells|;
    var cells := Scatter(r.cells, PrepareWrite(r), data);
    forall k | 0 <= k < r.readable + |data|
      ensures cells[Wrap(r.read + k, n)] == (Contents(r) + data)[k]
    {
      var j := if k < r.readable then n - r.readable + k else k - r.readable;
      ScatterAt(r, data, j);
    }
  }

  /** A copy into the first write vector alone is the same as filling the vectors in order. */
  lemma FirstVectorFill(r: Ring, data: seq<byte>)
    requires Valid(r) && |data| <= PrepareWrite(r).vectors[0].len
    ensures r.readable < |r.cells| ==> PrepareWrite(r).vectors[0].base == r.write
    ensures |data| <= Room(r) && WriteInBounds(r) && (data != [] ==> r.write + |data| <= |r.cells|)
    ensures data != [] ==>
      Received(r, data) == WriteCommitted(r.(cells := Overwrite(r.cells, r.write, data)), |data|)
  {
    WriteVectorsAreFreeCells(r);
    var p := PrepareWrite(r);
    assert data[..|data|] == data && data[|data|..] == [];
    var cells := Overwrite(r.cells, p.vectors[0].base, data);
    assert Overwrite(cells, p.vectors[1].base, []) == cells;
  }

  /** `s` is `r` with `data` queued behind what it held. */
  ghost predicate Appended(r: Ring, s: Ring, data: seq<byte>) {
    && Valid(r) && Valid(s) && |s.cells| == |r.cells|
    && s.read == r.read && s.readable == r.readable + |data|
    && Contents(s) == Contents(r) + data
  }

  lemma WriteVectorsFit(r: Ring)
    requires Valid(r)
    ensures var p := PrepareWrite(r);
            && InBounds(p, |r.cells|) && Bytes(p) == Room(r) && p.count <= 2
            && (p.count == 0 <==> Room(r) == 0)
            && (p.count == 1 ==> p.vectors[0].len == Room(r))
            && (p.count > 0 ==> p.vectors[0].len > 0 && p.vectors[0].base == r.write)
  {
  }

  /** Once the first write vector is full, the second one is the first of the next preparation. */
  lemma SecondVectorIsNext(r: Ring, s: Ring, data: seq<byte>)
    requires Appended(r, s, data)
    requires PrepareWrite(r).count == 2 && |data| == PrepareWrite(r).vectors[0].len
    ensures PrepareWrite(r).vectors[1].len > 0 ==>
      PrepareWrite(s) == Prepared(1, [PrepareWrite(r).vectors[1], IoVec(0, 0)])
    ensures Room(s) == PrepareWrite(r).vectors[1].len
  {
  }

  // Any schedule of partial fills and drains.

  datatype Transfer = Fill(data: seq<byte>) | Drain(bytes: nat)

  ghost predicate Fits(r: Ring, t: Transfer)
    requires Valid(r)
  {
    match t
    case Fill(data) => |data| <= Room(r)
    case Drain(bytes) => bytes <= r.readable
  }

  function Apply(r: Ring, t: Transfer): (s: Ring)
    requires Valid(r) && Fits(r, t)
    ensures Valid(s)
  {
    match t
    case Fill(data) => Received(r, data)
    case Drain(bytes) => ReadCommittedTakes(r, bytes); ReadCommitted(r, bytes)
  }

  ghost predicate AllFit(r: Ring, ts: seq<Transfer>)
    requires Valid(r)
    decreases |ts|
  {
    ts == [] || (Fits(r, ts[0]) && AllFit(Apply(r, ts[0]), ts[1..]))
  }

  function ApplyAll(r: Ring, ts: seq<Transfer>): (s: Ring)
    requires Valid(r) && AllFit(r, ts)
    ensures Valid(s)
    decreases |ts|
  {
    if ts == [] then r else ApplyAll(Apply(r, ts[0]), ts[1..])
  }

  /** The bytes a fill brings in. */
  function In(t: Transfer): seq<byte> {
    if t.Fill? then t.data else []
  }

  /** The bytes a drain finds behind the read vectors. */
  function Out(r: Ring, t: Transfer): seq<byte>
    requires Valid(r) && Fits(r, t)
  {
    ReadVectorsAreContents(r);
    if t.Drain? then Gather(r.cells, PrepareRead(r))[..t.bytes] else []
  }

  function AllIn(ts: seq<Transfer>): seq<byte> {
    if ts == [] then [] else In(ts[0]) + AllIn(ts[1..])
  }

  function AllOut(r: Ring, ts: seq<Transfer>): seq<byte>
    requires Valid(r) && AllFit(r, ts)
    decreases |ts|
  {
    if ts == [] then [] else Out(r, ts[0]) + AllOut(Apply(r, ts[0]), ts[1..])
  }

  lemma TransferIsFifo(r: Ring, t: Transfer)
    requires Valid(r) && Fits(r, t)
    ensures Contents(r) + In(t) == Out(r, t) + Contents(Apply(r, t))
  {
    match t
    case Fill(data) =>
      assert [] + Contents(Received(r, data)) == Contents(r) + data;
    case Drain(bytes) =>
      ReadVectorsAreContents(r);
      ReadCommittedTakes(r, bytes);
      assert Contents(r) + [] == Contents(r)[..bytes] + Contents(r)[bytes..];
  }

  /** First in, first out: nothing is lost, invented or reordered, whatever the capacity. */
  lemma {:induction false} TransfersAreFifo(r: Ring, ts: seq<Transfer>)
    requires Valid(r) && AllFit(r, ts)
    ensures Contents(r) + AllIn(ts) == AllOut(r, ts) + Contents(ApplyAll(r, ts))
    decreases |ts|
  {
    if ts == [] {
      assert Contents(r) + [] == [] + Contents(r);
    } else {
      var next, rest := Apply(r, ts[0]), ts[1..];
      TransferIsFifo(r, ts[0]);
      TransfersAreFifo(next, rest);
      Rebracket(Contents(r), In(ts[0]), AllIn(rest));
      Rebracket(Out(r, ts[0]), Contents(next), AllIn(rest));
      Rebracket(Out(r, ts[0]), AllOut(next, rest), Contents(ApplyAll(next, rest)));
    }
  }

  lemma Rebracket(a: seq<byte>, b: seq<byte>, c: seq<byte>)
    ensures a + (b + c) == (a + b) + c
  {
  }

  class Buffer {
    const buffer: array<byte>
    var read: nat
    var write: nat
    var readable: nat

    function View(): Ring
      reads this, buffer
    {
      Ring(buffer[..], read, write, readable)
    }

    constructor (capacity: nat)
      requires 0 < capacity
      ensures Valid(View()) && Contents(View()) == [] && buffer.Length == capacity
      ensures fresh(buffer)
    {
      buffer := new byte[capacity](_ => 0);
      read, write, readable := 0, 0, 0;
    }

    predicate Empty() reads this { readable == 0 }

    predicate Full() reads this { readable == buffer.Length }

    function ReadAvailable(): nat reads this { readable }

    function WriteAvailable(): nat
      requires readable <= buffer.Length
      reads this
    {
      buffer.Length - readable
    }

    /** A store of `data` through an address inside the ring. */
    method CopyTo(base: nat, data: seq<byte>)
      requires base + |data| <= buffer.Length
      modifies buffer
      ensures View() == old(View()).(cells := Overwrite(old(buffer[..]), base, data))
    {
      forall k | 0 <= k < |data| {
        buffer[base + k] := data[k];
      }
      assert buffer[..] == Overwrite(old(buffer[..]), base, data);
    }

    method CommitRead(bytes: nat)
      requires Valid(View()) && bytes <= ReadAvailable()
      modifies this
      ensures Valid(View()) && View() == ReadCommitted(old(View()), bytes)
    {
      ReadCommittedTakes(View(), bytes);
      if bytes == 0 { return; }
      read := Mask(read + bytes, buffer.Length);
      readable := readable - bytes;
    }

    method CommitWrite(bytes: nat)
      requires Valid(View()) && bytes <= WriteAvailable()
      modifies this
      ensures Valid(View()) && View() == WriteCommitted(old(View()), bytes)
    {
      WriteCommittedKeeps(View(), bytes);
      if bytes == 0 { return; }
      write := Mask(write + bytes, buffer.Length);
      readable := readable + bytes;
    }

    method Reset()
      modifies this
      ensures View() == Ring(buffer[..], 0, 0, 0)
    {
      read, write, readable := 0, 0, 0;
    }
  }
}
