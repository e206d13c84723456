/**
 * One handshake from the encoder's ring over the wire to the decoder's ring, in any order of resumed
 * encoder calls, partial sends and partial receives.
 */
module HandshakeTransfer {
  import opened Common
  import opened IoRingBuffer
  import opened Handshake

  datatype Link = Link(message: seq<byte>, cursor: nat, sender: Ring, wire: seq<byte>, receiver: Ring)

  ghost predicate Start(l: Link) {
    && |l.message| == LENGTH && l.cursor == 0 && l.wire == []
    && Valid(l.sender) && Contents(l.sender) == []
    && Valid(l.receiver) && Contents(l.receiver) == [] && |l.receiver.cells| == LENGTH
  }

  // The three moves, as the encoder, `send` and `recv` promise them.

  ghost predicate EncoderMoves(l: Link, l': Link, n: nat)
    requires Valid(l.sender)
  {
    && l.cursor <= |l.message| == LENGTH && n == EncodeCount(l.cursor, Room(l.sender))
    && l.cursor + n <= LENGTH
    && Appended(l.sender, l'.sender, l.message[l.cursor..l.cursor + n])
    && l' == l.(cursor := l.cursor + n, sender := l'.sender)
  }

  ghost predicate SocketSends(l: Link, l': Link, n: nat)
    requires Valid(l.sender)
  {
    && n <= l.sender.readable && Valid(l'.sender) && |l'.sender.cells| == |l.sender.cells|
    && Contents(l'.sender) == Contents(l.sender)[n..]
    && l' == l.(sender := l'.sender, wire := l.wire + Contents(l.sender)[..n])
  }

  ghost predicate SocketReceives(l: Link, l': Link, n: nat)
    requires Valid(l.receiver)
  {
    && n <= |l.wire| && n <= Room(l.receiver)
    && Appended(l.receiver, l'.receiver, l.wire[..n])
    && l' == l.(wire := l.wire[n..], receiver := l'.receiver)
  }

  ghost predicate Step(l: Link, l': Link, n: nat) {
    && Valid(l.sender) && Valid(l.receiver)
    && (EncoderMoves(l, l', n) || SocketSends(l, l', n) || SocketReceives(l, l', n))
  }

  /** The links of a run and the bytes each step moved. */
  ghost predicate Run(links: seq<Link>, moved: seq<nat>) {
    && |links| == |moved| + 1 && Start(links[0])
    && forall i :: 0 <= i < |moved| ==> Step(links[i], links[i + 1], moved[i])
  }

  /** Every byte of the message already encoded is in exactly one place, in order. */
  ghost predicate Conserved(l: Link) {
    && |l.message| == LENGTH && l.cursor <= LENGTH
    && Valid(l.sender) && Valid(l.receiver) && |l.receiver.cells| == LENGTH
    && Contents(l.receiver) + l.wire + Contents(l.sender) == l.message[..l.cursor]
  }

  lemma StepConserves(l: Link, l': Link, n: nat)
    requires Conserved(l) && Step(l, l', n)
    ensures Conserved(l') && l'.message == l.message && |l'.sender.cells| == |l.sender.cells|
  {
    if EncoderMoves(l, l', n) {
      var data := l.message[l.cursor..l.cursor + n];
      Regroup(Contents(l.receiver) + l.wire, Contents(l.sender), data);
      assert l.message[..l.cursor] + data == l.message[..l.cursor + n];
    } else if SocketSends(l, l', n) {
      var q := Contents(l.sender);
      assert q == q[..n] + q[n..];
      Regroup(Contents(l.receiver) + l.wire, q[..n], q[n..]);
      Regroup(Contents(l.receiver), l.wire, q[..n]);
    } else {
      assert l.wire == l.wire[..n] + l.wire[n..];
      Regroup(Contents(l.receiver), l.wire[..n], l.wire[n..]);
    }
  }

  lemma Regroup(a: seq<byte>, b: seq<byte>, c: seq<byte>)
    ensures a + (b + c) == (a + b) + c
  {
  }

  /** What still has to be moved; each byte is encoded, sent and received once. */
  ghost function Work(l: Link): nat
    requires Conserved(l)
  {
    3 * (LENGTH - l.cursor) + 2 * l.sender.readable + |l.wire|
  }

  lemma StepWorks(l: Link, l': Link, n: nat)
    requires Conserved(l) && Step(l, l', n)
    ensures Conserved(l') && Work(l') == Work(l) - n
  {
    StepConserves(l, l', n);
    if SocketSends(l, l', n) {
      assert |Contents(l'.sender)| == |Contents(l.sender)| - n;
    }
  }

  lemma ConservedLengths(l: Link)
    requires Conserved(l)
    ensures l.receiver.readable + |l.wire| + l.sender.readable == l.cursor
  {
    assert |Contents(l.receiver) + l.wire + Contents(l.sender)| == l.cursor;
  }

  ghost function Sum(ns: seq<nat>): nat {
    if ns == [] then 0 else Sum(ns[..|ns| - 1]) + ns[|ns| - 1]
  }

  /** In every reachable state the bytes are conserved and the work left is what the steps have not yet done. */
  lemma {:induction false} RunConserves(links: seq<Link>, moved: seq<nat>)
    requires Run(links, moved)
    ensures var last := links[|moved|];
            && Conserved(last) && last.message == links[0].message
            && Work(last) + Sum(moved) == 3 * LENGTH
    decreases |moved|
  {
    if moved == [] {
      assert Contents(links[0].receiver) + links[0].wire + Contents(links[0].sender) == links[0].message[..0];
    } else {
      var n := |moved| - 1;
      RunConserves(links[..|moved|], moved[..n]);
      StepConserves(links[n], links[n + 1], moved[n]);
      StepWorks(links[n], links[n + 1], moved[n]);
    }
  }

  /** While work is left, some move transfers at least one byte: nothing deadlocks, whatever the capacity. */
  lemma SomeStepMoves(l: Link) returns (l': Link, n: nat)
    requires Conserved(l) && Work(l) > 0
    ensures Step(l, l', n) && n > 0
  {
    ConservedLengths(l);
    if l.wire != [] {
      n := 1;
      l' := l.(wire := l.wire[1..], receiver := Received(l.receiver, l.wire[..1]));
      AppendedByReceived(l.receiver, l.wire[..1]);
      assert SocketReceives(l, l', n);
    } else if l.sender.readable > 0 {
      n := 1;
      ReadCommittedTakes(l.sender, 1);
      l' := l.(sender := ReadCommitted(l.sender, 1), wire := l.wire + Contents(l.sender)[..1]);
      assert SocketSends(l, l', n);
    } else {
      n := EncodeCount(l.cursor, Room(l.sender));
      var data := l.message[l.cursor..l.cursor + n];
      l' := l.(cursor := l.cursor + n, sender := Received(l.sender, data));
      AppendedByReceived(l.sender, data);
      assert EncoderMoves(l, l', n);
    }
  }

  lemma AppendedByReceived(r: Ring, data: seq<byte>)
    requires Valid(r) && |data| <= Room(r)
    ensures Appended(r, Received(r, data), data)
  {
    assert |Contents(Received(r, data))| == |Contents(r)| + |data|;
    WriteVectorsAreFreeCells(r);
    WriteCommittedKeeps(r.(cells := Scatter(r.cells, PrepareWrite(r), data)), |data|);
  }

  /**
   * The end-to-end result. A run moves at most 204 bytes in all, never stops short of that (SomeStepMoves),
   * and once it has moved them the receiver holds the sender's message and decodes the sender's identity.
   */
  lemma HandshakeArrives(links: seq<Link>, moved: seq<nat>, infoHash: seq<byte>, clientId: seq<byte>,
                         peerId: Option<seq<byte>>)
    requires Run(links, moved) && |infoHash| == 20 && |clientId| == 20
    requires links[0].message == Compute(infoHash, clientId)
    ensures Sum(moved) <= 3 * LENGTH
    ensures var last := links[|moved|];
            Valid(last.receiver) && |Contents(last.receiver)| <= LENGTH
            && (Sum(moved) == 3 * LENGTH <==> Contents(last.receiver) == links[0].message)
            && (Sum(moved) == 3 * LENGTH <==> Decoded(Contents(last.receiver), infoHash, peerId).complete)
            && (Sum(moved) == 3 * LENGTH ==>
                Decoded(Contents(last.receiver), infoHash, peerId) == DecodeResult(true, true, Some(clientId)))
  {
    RunConserves(links, moved);
    var last := links[|moved|];
    ConservedLengths(last);
    ComputedIsValid(infoHash, clientId);
    if Work(last) == 0 {
      assert Contents(last.receiver) + last.wire + Contents(last.sender) == Contents(last.receiver);
    }
  }
}
