/** The non-blocking socket: who owns the descriptor, and how sends and receives commit to the rings. */
module Transport {
  import opened Common
  import opened IoRingBuffer

  // Linux error numbers and address families.
  const EINTR := 4
  const EBADF := 9
  const EAGAIN := 11
  const EINVAL := 22
  const EAFNOSUPPORT := 97
  const EINPROGRESS := 115
  const AF_INET := 2
  const AF_INET6 := 10

  const NO_SOCKET := -1
  const NO_ERROR := -1
  const PEER_SHUTDOWN := -100

  /** What one system call answered: a count of bytes, bytes, a descriptor, or an error number. */
  datatype Call<+T> = Done(value: T) | Failed(errno: int)

  predicate Interrupted<T>(call: Call<T>) {
    call.Failed? && call.errno == EINTR
  }

  predicate Settles<T>(calls: seq<Call<T>>) {
    calls != [] && (!Interrupted(calls[0]) || Settles(calls[1..]))
  }

  /** The first call that was not interrupted. */
  function Settled<T>(calls: seq<Call<T>>): Call<T>
    requires Settles(calls)
  {
    if !Interrupted(calls[0]) then calls[0] else Settled(calls[1..])
  }

  /** The loop around every system call: again while it was interrupted. */
  method Repeat<T>(calls: seq<Call<T>>) returns (call: Call<T>)
    requires Settles(calls)
    ensures call == Settled<T>(calls) && !Interrupted(call)
  {
    var i := 0;
    while Interrupted(calls[i])
      invariant 0 <= i < |calls| && Settles(calls[i..]) && Settled(calls[i..]) == Settled(calls)
      decreases |calls| - i
    {
      assert calls[i..][1..] == calls[i + 1..];
      i := i + 1;
    }
    return calls[i];
  }

  datatype Transact = Transact(transportOk: bool, flag: bool, bytes: nat)

  datatype ConnectReturn = InProgress | ConnectFailed | Connected

  class NonblockTcp {
    var socket: int
    var perrno: int

    constructor ()
      ensures socket == NO_SOCKET && perrno == NO_ERROR
    {
      socket, perrno := NO_SOCKET, NO_ERROR;
    }

    /** A descriptor is taken only when none is held; a failure leaves only its error number behind. */
    method OpenSocket(domain: int, calls: seq<Call<nat>>) returns (ok: bool)
      requires Settles<nat>(calls)
      modifies this
      ensures ok <==> old(socket) == NO_SOCKET && (domain == AF_INET || domain == AF_INET6) && Settled<nat>(calls).Done?
      ensures socket == if ok then Settled<nat>(calls).value else old(socket)
      ensures perrno == if ok then old(perrno)
                        else if old(socket) != NO_SOCKET then EINVAL
                        else if domain != AF_INET && domain != AF_INET6 then EAFNOSUPPORT
                        else Settled<nat>(calls).errno
    {
      if socket != NO_SOCKET {
        perrno := EINVAL;
        return false;
      }
      if domain != AF_INET && domain != AF_INET6 {
        perrno := EAFNOSUPPORT;
        return false;
      }
      var call := Repeat(calls);
      if call.Failed? {
        perrno := call.errno;
        return false;
      }
      socket := call.value;
      return true;
    }

    method Connect(family: int, calls: seq<Call<()>>) returns (r: ConnectReturn)
      requires Settles<()>(calls)
      modifies this`perrno
      ensures r == Connected <==>
        socket != NO_SOCKET && (family == AF_INET || family == AF_INET6) && Settled<()>(calls).Done?
      ensures r == InProgress <==>
        socket != NO_SOCKET && (family == AF_INET || family == AF_INET6) && Settled<()>(calls) == Failed(EINPROGRESS)
      ensures perrno == if socket == NO_SOCKET then EBADF
                        else if family != AF_INET && family != AF_INET6 then EAFNOSUPPORT
                        else if r == Connected then NO_ERROR
                        else Settled<()>(calls).errno
    {
      if socket == NO_SOCKET {
        perrno := EBADF;
        return ConnectFailed;
      }
      if family != AF_INET && family != AF_INET6 {
        perrno := EAFNOSUPPORT;
        return ConnectFailed;
      }
      var call := Repeat(calls);
      match call
      case Done(_) =>
        perrno := NO_ERROR;
        return Connected;
      case Failed(errno) =>
        perrno := errno;
        return if errno == EINPROGRESS then InProgress else ConnectFailed;
    }

    method CloseSocket()
      modifies this
      ensures socket == NO_SOCKET && perrno == NO_ERROR
    {
      if socket != NO_SOCKET {
        socket := NO_SOCKET;
      }
      perrno := NO_ERROR;
    }

    method Send(ring: Buffer, calls: seq<Call<nat>>) returns (r: Transact)
      requires Valid(ring.View()) && Settles<nat>(calls)
      requires Settled<nat>(calls).Done? ==> Settled<nat>(calls).value <= Bytes(PrepareRead(ring.View()))
      modifies this`perrno, ring
      ensures Valid(ring.View())
      ensures match Settled<nat>(calls)
              case Done(n) =>
                && n <= |Contents(old(ring.View()))|
                && Contents(ring.View()) == Contents(old(ring.View()))[n..]
                && r == Transact(true, Contents(ring.View()) == [], n) && perrno == NO_ERROR
              case Failed(errno) =>
                && ring.View() == old(ring.View())
                && r == Transact(errno == EAGAIN, Contents(ring.View()) == [], 0) && perrno == errno
    {
      ReadVectorsAreContents(ring.View());
      var call := Repeat(calls);
      match call
      case Failed(errno) =>
        perrno := errno;
        return Transact(errno == EAGAIN, ring.Empty(), 0);
      case Done(n) =>
        perrno := NO_ERROR;
        ReadCommittedTakes(ring.View(), n);
        ring.CommitRead(n);
        return Transact(true, ring.Empty(), n);
    }

    method Recv(ring: Buffer, calls: seq<Call<seq<byte>>>) returns (r: Transact)
      requires Valid(ring.View()) && Settles<seq<byte>>(calls)
      requires Settled<seq<byte>>(calls).Done? ==> |Settled<seq<byte>>(calls).value| <= Bytes(PrepareWrite(ring.View()))
      modifies this`perrno, ring, ring.buffer
      ensures Valid(ring.View())
      ensures match Settled<seq<byte>>(calls)
              case Done(data) =>
                && Appended(old(ring.View()), ring.View(), data)
                && r == Transact(data != [], Room(ring.View()) == 0, |data|)
                && perrno == if data == [] then PEER_SHUTDOWN else NO_ERROR
              case Failed(errno) =>
                && ring.View() == old(ring.View())
                && r == Transact(errno == EAGAIN, Room(ring.View()) == 0, 0) && perrno == errno
    {
      var prepare := PrepareWrite(ring.View());
      WriteVectorsFit(ring.View());
      var call := Repeat(calls);
      match call
      case Failed(errno) =>
        perrno := errno;
        return Transact(errno == EAGAIN, ring.Full(), 0);
      case Done(data) =>
        if data == [] {
          perrno := PEER_SHUTDOWN;
          return Transact(false, ring.Full(), 0);
        }
        perrno := NO_ERROR;
        KernelFills(ring, prepare, data);
        return Transact(true, ring.Full(), |data|);
    }
  }

  /** The kernel copies `data` into the vectors, and the ring commits as much. */
  method KernelFills(ring: Buffer, prepare: Prepared, data: seq<byte>)
    requires Valid(ring.View()) && prepare == PrepareWrite(ring.View())
    requires |data| <= Bytes(prepare)
    modifies ring, ring.buffer
    ensures Appended(old(ring.View()), ring.View(), data)
  {
    WriteVectorsFit(ring.View());
    ghost var r := ring.View();
    var n := Min(|data|, prepare.vectors[0].len);
    ring.CopyTo(prepare.vectors[0].base, data[..n]);
    ring.CopyTo(prepare.vectors[1].base, data[n..]);
    assert ring.View() == r.(cells := Scatter(r.cells, prepare, data));
    WriteCommittedKeeps(ring.View(), |data|);
    ring.CommitWrite(|data|);
    assert ring.View() == Received(r, data);
  }
}
