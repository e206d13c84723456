/** The 68-byte handshake: its layout, the resumable encoder and the decoder that reads across the wrap point. */
module Handshake {
  import opened Common
  import opened IoRingBuffer

  const LENGTH: nat := 68

  // Where each field ends.
  const PSTRLEN: nat := 1
  const PSTR: nat := 20
  const RESERVED: nat := 28
  const INFO_HASH: nat := 48
  const PEER_ID: nat := 68

  const PROTOCOL_LENGTH: byte := 19

  /** "BitTorrent protocol" in ASCII. */
  const PROTOCOL: seq<byte> := [66, 105, 116, 84, 111, 114, 114, 101, 110, 116, 32, 112, 114, 111, 116, 111, 99, 111, 108]

  const RESERVED_BYTES: seq<byte> := [0, 0, 0, 0, 0, 0, 0, 0]

  function Compute(infoHash: seq<byte>, clientId: seq<byte>): (message: seq<byte>)
    requires |infoHash| == 20 && |clientId| == 20
    ensures |message| == LENGTH
  {
    [PROTOCOL_LENGTH] + PROTOCOL + RESERVED_BYTES + infoHash + clientId
  }

  /** The message field by field, at the offsets of the peer protocol (BEP 3, "peer protocol"). */
  lemma ComputedFields(infoHash: seq<byte>, clientId: seq<byte>)
    requires |infoHash| == 20 && |clientId| == 20
    ensures var m := Compute(infoHash, clientId);
            && |m| == 68 && m[0] == 19
            && m[1..20] == [66, 105, 116, 84, 111, 114, 114, 101, 110, 116, 32, 112, 114, 111, 116, 111, 99, 111, 108]
            && m[20..28] == [0, 0, 0, 0, 0, 0, 0, 0]
            && m[28..48] == infoHash && m[48..68] == clientId
  {
    var front := [PROTOCOL_LENGTH] + PROTOCOL;
    var m := Compute(infoHash, clientId);
    assert m == front + RESERVED_BYTES + infoHash + clientId;
    assert m[1..20] == PROTOCOL;
    assert m[20..28] == RESERVED_BYTES;
    assert m[28..48] == infoHash;
    assert m[48..68] == clientId;
  }

  /** What the decoder checks: the length byte and the info hash, and nothing in between. */
  predicate IsValid(message: seq<byte>, infoHash: seq<byte>)
    requires |message| == LENGTH
  {
    message[0] == PROTOCOL_LENGTH && message[RESERVED..INFO_HASH] == infoHash
  }

  function PeerIdOf(message: seq<byte>): seq<byte>
    requires |message| == LENGTH
  {
    message[INFO_HASH..PEER_ID]
  }

  /** How much one call of the encoder can move into a ring with `room` free cells. */
  function EncodeCount(cursor: nat, room: nat): nat {
    if cursor >= LENGTH then 0 else Min(LENGTH - cursor, room)
  }

  lemma ComputedIsValid(infoHash: seq<byte>, clientId: seq<byte>)
    requires |infoHash| == 20 && |clientId| == 20
    ensures IsValid(Compute(infoHash, clientId), infoHash)
    ensures PeerIdOf(Compute(infoHash, clientId)) == clientId
  {
    assert Compute(infoHash, clientId)[RESERVED..INFO_HASH] == infoHash;
  }

  class FrameCursor {
    var cursor: nat

    constructor ()
      ensures cursor == 0
    {
      cursor := 0;
    }

    method Reset()
      modifies this
      ensures cursor == 0
    {
      cursor := 0;
    }
  }

  /** The `memcpy` into the first write vector and the commit that follows it. */
  method CopyAndCommit(ring: Buffer, base: nat, data: seq<byte>)
    requires Valid(ring.View()) && data != []
    requires |data| <= PrepareWrite(ring.View()).vectors[0].len
    requires base == PrepareWrite(ring.View()).vectors[0].base
    modifies ring, ring.buffer
    ensures Appended(old(ring.View()), ring.View(), data)
  {
    FirstVectorFill(ring.View(), data);
    assert |Contents(Received(ring.View(), data))| == |Contents(ring.View())| + |data|;
    ring.CopyTo(base, data);
    ring.CommitWrite(|data|);
  }

  /** Before vector `i` of `prepare` is used: the ones before it are full and hold the bytes `moved`. */
  ghost predicate Filling(before: Ring, r: Ring, prepare: Prepared, i: nat, moved: seq<byte>) {
    && Appended(before, r, moved) && prepare == PrepareWrite(before)
    && (i == 0 ==> r == before)
    && (i == 1 && prepare.count == 2 ==>
        && Room(r) == prepare.vectors[1].len
        && (prepare.vectors[1].len > 0 ==> PrepareWrite(r) == Prepared(1, [prepare.vectors[1], IoVec(0, 0)])))
    && (i == prepare.count ==> Room(r) == 0)
  }

  lemma FillingFits(before: Ring, r: Ring, prepare: Prepared, i: nat, moved: seq<byte>)
    requires Filling(before, r, prepare, i, moved) && i < prepare.count
    ensures prepare.vectors[i].len <= Room(r)
    ensures prepare.count == 1 || i == 1 ==> prepare.vectors[i].len == Room(r)
    ensures prepare.vectors[i].len > 0 ==> prepare.vectors[i] == PrepareWrite(r).vectors[0]
    ensures Room(r) == Room(before) - |moved|
  {
    WriteVectorsFit(r);
    WriteVectorsFit(before);
  }

  lemma FillingStep(before: Ring, r: Ring, s: Ring, prepare: Prepared, i: nat, moved: seq<byte>, data: seq<byte>)
    requires Filling(before, r, prepare, i, moved) && i < prepare.count && prepare.vectors[i].len > 0
    requires Appended(r, s, data) && |data| <= prepare.vectors[i].len
    ensures Appended(before, s, moved + data)
    ensures |data| == prepare.vectors[i].len ==> Filling(before, s, prepare, i + 1, moved + data)
  {
    assert (Contents(before) + moved) + data == Contents(before) + (moved + data);
    FillingFits(before, r, prepare, i, moved);
    WriteVectorsFit(before);
    if i == 0 && prepare.count == 2 && |data| == prepare.vectors[0].len {
      SecondVectorIsNext(r, s, data);
    }
  }

  /** One pass of the encoder's loop. */
  method FillVector(handshake: seq<byte>, ring: Buffer, path: IoVec, cursor: nat) returns (length: nat)
    requires |handshake| == LENGTH && cursor < LENGTH
    requires Valid(ring.View()) && path.len > 0 && path == PrepareWrite(ring.View()).vectors[0]
    modifies ring, ring.buffer
    ensures length == Min(LENGTH - cursor, path.len)
    ensures Appended(old(ring.View()), ring.View(), handshake[cursor..cursor + length])
  {
    length := Min(LENGTH - cursor, path.len);
    CopyAndCommit(ring, path.base, handshake[cursor..cursor + length]);
  }

  lemma SlicesJoin(s: seq<byte>, a: nat, b: nat, c: nat)
    requires a <= b <= c <= |s|
    ensures s[a..b] + s[b..c] == s[a..c]
  {
  }

  /** The encoder's loop over the prepared vectors. */
  method FillVectors(handshake: seq<byte>, ring: Buffer, prepare: Prepared, start: nat) returns (encodeCursor: nat)
    requires |handshake| == LENGTH && start < LENGTH
    requires Valid(ring.View()) && prepare == PrepareWrite(ring.View())
    modifies ring, ring.buffer
    ensures encodeCursor == start + EncodeCount(start, Room(old(ring.View())))
    ensures Appended(old(ring.View()), ring.View(), handshake[start..encodeCursor])
  {
    encodeCursor := start;
    ghost var before, r, moved := ring.View(), ring.View(), [];
    WriteVectorsFit(before);
    var i := 0;
    while i < prepare.count
      invariant 0 <= i <= prepare.count
      invariant start <= encodeCursor < LENGTH
      invariant ring.View() == r && moved == handshake[start..encodeCursor]
      invariant Filling(before, r, prepare, i, moved)
    {
      var path := prepare.vectors[i];
      FillingFits(before, r, prepare, i, moved);
      if path.len == 0 {
        break;
      }
      var length := FillVector(handshake, ring, path, encodeCursor);
      FillingStep(before, r, ring.View(), prepare, i, moved, handshake[encodeCursor..encodeCursor + length]);
      SlicesJoin(handshake, start, encodeCursor, encodeCursor + length);
      r, moved := ring.View(), moved + handshake[encodeCursor..encodeCursor + length];
      encodeCursor := encodeCursor + length;

      if encodeCursor == LENGTH {
        break;
      }
      i := i + 1;
    }
  }

  /** Resumes at the frame cursor and moves as much of the message as the ring has room for. */
  method Encode(handshake: seq<byte>, ring: Buffer, frame: FrameCursor) returns (complete: bool)
    requires |handshake| == LENGTH
    requires Valid(ring.View())
    modifies ring, ring.buffer, frame
    ensures frame.cursor == old(frame.cursor) + EncodeCount(old(frame.cursor), Room(old(ring.View())))
    ensures old(frame.cursor) > LENGTH ==> ring.View() == old(ring.View())
    ensures old(frame.cursor) <= LENGTH ==>
      Appended(old(ring.View()), ring.View(), handshake[old(frame.cursor)..frame.cursor])
    ensures complete <==> frame.cursor >= LENGTH
  {
    if frame.cursor >= LENGTH {
      return true;
    }

    var prepare := PrepareWrite(ring.View());
    WriteVectorsFit(ring.View());
    if prepare.count == 0 {
      return false;
    }

    var encodeCursor := FillVectors(handshake, ring, prepare, frame.cursor);
    frame.cursor := encodeCursor;
    return encodeCursor == LENGTH;
  }

  datatype DecodeResult = DecodeResult(complete: bool, valid: bool, peerId: Option<seq<byte>>)

  /** Takes `size` bytes off the front of the second vector. */
  method WraparoundSteal(prepare: Prepared, size: nat, memory: seq<byte>) returns (rest: Prepared, stolen: seq<byte>)
    requires InBounds(prepare, |memory|) && size <= prepare.vectors[1].len
    ensures InBounds(rest, |memory|) && rest.count == prepare.count
    ensures rest.vectors[0] == prepare.vectors[0]
    ensures rest.vectors[1].len == prepare.vectors[1].len - size
    ensures stolen + Slice(rest.vectors[1], memory) == Slice(prepare.vectors[1], memory) && |stolen| == size
  {
    var vector := prepare.vectors[1];
    stolen := memory[vector.base..vector.base + size];
    rest := prepare.(vectors := prepare.vectors[1 := IoVec(vector.base + size, vector.len - size)]);
  }

  function Slice(v: IoVec, memory: seq<byte>): (slice: seq<byte>)
    requires v.base + v.len <= |memory|
    ensures |slice| == v.len
  {
    memory[v.base..v.base + v.len]
  }

  /**
   * Reads a field of `size` bytes off the view, stealing from the second vector what the view lacks.
   * `crossed` says that the view was too short. The ghost `tail` is what of the second vector lies
   * behind the view.
   */
  method TakeField(prepare: Prepared, view: seq<byte>, size: nat, memory: seq<byte>, ghost tail: seq<byte>)
    returns (after: Prepared, rest: seq<byte>, field: seq<byte>, crossed: bool, ghost tail': seq<byte>)
    requires InBounds(prepare, |memory|) && size <= |view| + |tail|
    requires |view| < size ==> tail == Slice(prepare.vectors[1], memory)
    ensures InBounds(after, |memory|) && after.count == prepare.count
    ensures |field| == size && view + tail == field + (rest + tail')
    ensures crossed <==> |view| < size
    ensures crossed ==> rest + tail' == Slice(after.vectors[1], memory)
    ensures !crossed ==> after == prepare && tail' == tail
  {
    if |view| < size {
      var remaining;
      after, remaining := WraparoundSteal(prepare, size - |view|, memory);
      rest, field, crossed, tail' := [], view + remaining, true, Slice(after.vectors[1], memory);
      assert rest + tail' == tail';
    } else {
      after, rest, field, crossed, tail' := prepare, view[size..], view[..size], false, tail;
    }
  }

  /** Reading `field` moves it from the unread part of the message to the part already read. */
  lemma FieldRead(m: seq<byte>, done: seq<byte>, unread: seq<byte>, field: seq<byte>, rest: seq<byte>)
    requires m == done + unread && unread == field + rest
    ensures m == (done + field) + rest
    ensures m[|done|..|done| + |field|] == field
  {
  }

  /** The outcome depends on the queue contents alone, not on where the ring wraps. */
  function Decoded(queue: seq<byte>, infoHash: seq<byte>, peerId: Option<seq<byte>>): DecodeResult
    requires |queue| <= LENGTH
  {
    if |queue| < LENGTH then DecodeResult(false, false, peerId)
    else if IsValid(queue, infoHash) then DecodeResult(true, true, Some(PeerIdOf(queue)))
    else DecodeResult(true, false, peerId)
  }

  lemma DecodedCases(m: seq<byte>, infoHash: seq<byte>, peerId: Option<seq<byte>>)
    requires |m| == LENGTH
    ensures m[0] != PROTOCOL_LENGTH || m[RESERVED..INFO_HASH] != infoHash ==>
      Decoded(m, infoHash, peerId) == DecodeResult(true, false, peerId)
    ensures m[0] == PROTOCOL_LENGTH && m[RESERVED..INFO_HASH] == infoHash ==>
      Decoded(m, infoHash, peerId) == DecodeResult(true, true, Some(m[INFO_HASH..PEER_ID]))
  {
  }

  /** The decoder's loop over the prepared vectors, which hold the whole message `m`. */
  method ReadFields(vectors: Prepared, memory: seq<byte>, infoHash: seq<byte>, peerId: Option<seq<byte>>, ghost m: seq<byte>)
    returns (valid: bool, peer: Option<seq<byte>>)
    requires InBounds(vectors, |memory|) && |infoHash| == 20
    requires |m| == LENGTH && m == Slice(vectors.vectors[0], memory) + Slice(vectors.vectors[1], memory)
    requires 0 < vectors.vectors[0].len && (vectors.count == 2 || (vectors.count == 1 && vectors.vectors[0].len == LENGTH))
    ensures DecodeResult(true, valid, peer) == Decoded(m, infoHash, peerId)
  {
    valid, peer := false, peerId;
    var prepare := vectors;
    hide Slice, Decoded, IsValid, PeerIdOf;
    var index, range := 0, PSTRLEN;
    ghost var done := [];
    while index < prepare.count
      invariant InBounds(prepare, |memory|) && 0 <= index < 2 && prepare.count == vectors.count
      invariant index == 0 ==> prepare == vectors && done == [] && range == PSTRLEN && !valid
      invariant index == 1 ==> prepare.count == 2 && valid && m[0] == PROTOCOL_LENGTH
      invariant index == 1 ==> |done| == (if range == RESERVED then PSTR else if range == INFO_HASH then RESERVED else INFO_HASH)
      invariant index == 1 ==> (range == RESERVED || range == INFO_HASH || range == PEER_ID) && m == done + Slice(prepare.vectors[1], memory)
      invariant index == 1 && range == PEER_ID ==> m[RESERVED..INFO_HASH] == infoHash
      invariant peer == peerId
      decreases prepare.count - index
    {
      var view := Slice(prepare.vectors[index], memory);
      ghost var tail := if index == 0 then Slice(prepare.vectors[1], memory) else [];
      ghost var unread := view + tail;
      assert m == done + unread;
      var crossed, field := false, [];

      if range == PSTRLEN {
        if |view| < 1 { index := index + 1; continue; }
        assert view[0] == m[0];
        valid := view[0] == 0x13;
        FieldRead(m, done, unread, [view[0]], view[1..] + tail);
        done, unread := done + [view[0]], view[1..] + tail;
        view := view[1..];
        DecodedCases(m, infoHash, peerId);
        if !valid { break; }
        range := PSTR;
      }

      if range == PSTR {
        prepare, view, field, crossed, tail := TakeField(prepare, view, 19, memory, tail);
        FieldRead(m, done, unread, field, view + tail);
        done, unread := done + field, view + tail;
        valid := true;
        range := RESERVED;
        if crossed { index := index + 1; continue; }
      }

      if range == RESERVED {
        prepare, view, field, crossed, tail := TakeField(prepare, view, 8, memory, tail);
        FieldRead(m, done, unread, field, view + tail);
        done, unread := done + field, view + tail;
        valid := true;
        range := INFO_HASH;
        if crossed { index := index + 1; continue; }
      }

      if range == INFO_HASH {
        prepare, view, field, crossed, tail := TakeField(prepare, view, 20, memory, tail);
        FieldRead(m, done, unread, field, view + tail);
        done, unread := done + field, view + tail;
        valid := infoHash == field;
        DecodedCases(m, infoHash, peerId);
        if !valid { break; }
        range := PEER_ID;
        if crossed { index := index + 1; continue; }
      }

      if range == PEER_ID {
        prepare, view, field, crossed, tail := TakeField(prepare, view, 20, memory, tail);
        FieldRead(m, done, unread, field, view + tail);
        peer := Some(field);
        DecodedCases(m, infoHash, peerId);
        break;
      }
      index := index + 1;
    }
  }

  method Decode(ring: Buffer, infoHash: seq<byte>, peerId: Option<seq<byte>>) returns (r: DecodeResult)
    requires Valid(ring.View()) && ring.buffer.Length == LENGTH
    requires |infoHash| == 20
    modifies ring
    ensures Valid(ring.View()) && ring.View().cells == old(ring.View().cells)
    ensures r == Decoded(Contents(old(ring.View())), infoHash, peerId)
    ensures Contents(ring.View()) == if r.complete then [] else Contents(old(ring.View()))
  {
    var prepare := PrepareRead(ring.View());
    ReadVectorsAreContents(ring.View());

    if Bytes(prepare) < LENGTH {
      return DecodeResult(false, false, peerId);
    }
    assert prepare.count == 2 || prepare.count == 1;

    var memory := ring.buffer[..];
    var valid, peer := ReadFields(prepare, memory, infoHash, peerId, Contents(ring.View()));

    ReadCommittedTakes(ring.View(), LENGTH);
    ring.CommitRead(LENGTH);
    return DecodeResult(true, valid, peer);
  }
}
