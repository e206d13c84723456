/** The streaming SHA-1 of the client: bytes go into a block buffer that is hashed whenever it is full. */
module Sha1 {
  import opened BitWords
  import opened SecureHash

  function LeftRotate(value: bv32, count: nat): bv32
    requires 0 < count < 32
  {
    (value << count) ^ (value >> (32 - count))
  }

  /** The two halves of a rotation share no bit, so joining them by exclusive or is the same. */
  lemma LeftRotateIsRotl(x: bv32)
    ensures LeftRotate(x, 1) == Rotl(x, 1)
    ensures LeftRotate(x, 5) == Rotl(x, 5)
    ensures LeftRotate(x, 30) == Rotl(x, 30)
  {
  }

  /** `f` and `k` of the round loop. */
  function Mix(i: nat, b: bv32, c: bv32, d: bv32): bv32 {
    if i < 20 then (b & c) | (!b & d)
    else if i < 40 then b ^ c ^ d
    else if i < 60 then (b & c) | (b & d) | (c & d)
    else b ^ c ^ d
  }

  lemma ChooseByOr(x: bv32, y: bv32, z: bv32)
    ensures (x & y) | (!x & z) == Ch(x, y, z)
  {
  }

  lemma MajorityByOr(x: bv32, y: bv32, z: bv32)
    ensures (x & y) | (x & z) | (y & z) == Maj(x, y, z)
  {
  }

  lemma MixIsF(i: nat, b: bv32, c: bv32, d: bv32)
    ensures Mix(i, b, c, d) == F(i, b, c, d)
  {
    hide Ch, Maj;
    ChooseByOr(b, c, d);
    MajorityByOr(b, c, d);
  }

  function Packed(b0: bv8, b1: bv8, b2: bv8, b3: bv8): bv32 {
    ((((b0 as bv32) << 24) | ((b1 as bv32) << 16)) | ((b2 as bv32) << 8)) | (b3 as bv32)
  }

  lemma PackedIsWord(b0: bv8, b1: bv8, b2: bv8, b3: bv8)
    ensures Packed(b0, b1, b2, b3) == Word(b0, b1, b2, b3)
  {
  }

  function Octet(w: bv32, shift: nat): bv8
    requires shift <= 24
  {
    ((w >> shift) & 0xFF) as bv8
  }

  /** The four bytes of a digest word, taken apart, make the word again. */
  lemma OctetsMakeTheWord(w: bv32)
    ensures Word(Octet(w, 24), Octet(w, 16), Octet(w, 8), Octet(w, 0)) == w
  {
  }

  function FourOctets(w: bv32): seq<bv8> {
    [Octet(w, 24), Octet(w, 16), Octet(w, 8), Octet(w, 0)]
  }

  /** One turn of the round loop, as written, is one turn of the standard. */
  lemma RoundIsTurn(i: nat, s: Digest, w: bv32)
    ensures Digest(Total(LeftRotate(s.a, 5), Mix(i, s.b, s.c, s.d), s.e, K(i), w), s.a, LeftRotate(s.b, 30), s.c, s.d)
         == Turn(i, s, w)
  {
    hide LeftRotate, Rotl, Mix, F, K, Total;
    LeftRotateIsRotl(s.a);
    LeftRotateIsRotl(s.b);
    MixIsF(i, s.b, s.c, s.d);
  }

  // Padding.

  /** What `getDigest` appends to a message of `n` bytes. */
  function Tail(n: nat): seq<bv8> {
    [0x80] + Zeros(WholeZeros(n)) + Zeros(4) + BigEndian(8 * n, 4)
  }

  lemma ZerosAdd(a: nat, b: nat)
    ensures Zeros(a) + Zeros(b) == Zeros(a + b)
  {
  }

  lemma OnlyZeros(n: nat, k: nat)
    requires k < 64 && (n + 1 + k) % 64 == 56
    ensures k == WholeZeros(n)
  {
    var q, r := n / 64, n % 64;
    if r + 1 + k < 64 {
      UniqueRemainder(n + 1 + k, 64, q, r + 1 + k);
    } else {
      UniqueRemainder(n + 1 + k, 64, q + 1, r + 1 + k - 64);
    }
  }

  function Pow256(n: nat): (p: nat)
    ensures p > 0
  {
    if n == 0 then 1 else 256 * Pow256(n - 1)
  }

  lemma {:induction false} HighAndLow(x: nat, n: nat, m: nat)
    ensures BigEndian(x, n + m) == BigEndian(Shifted(x, m), n) + BigEndian(x, m)
    decreases m
  {
    if m > 0 {
      HighAndLow(x / 256, n, m - 1);
    } else {
      assert BigEndian(x, 0) == [];
    }
  }

  /** A number without its `m` lowest bytes. */
  function Shifted(x: nat, m: nat): nat {
    if m == 0 then x else Shifted(x / 256, m - 1)
  }

  lemma {:induction false} NoBytesIsZero(x: nat, n: nat)
    requires x < Pow256(n)
    ensures BigEndian(x, n) == Zeros(n) <==> x == 0
    decreases n
  {
    if n > 0 {
      NoBytesIsZero(x / 256, n - 1);
      ZerosAdd(n - 1, 1);
      var front, last := BigEndian(x / 256, n - 1), LowByte(x);
      assert BigEndian(x, n) == front + [last];
      assert Zeros(n) == Zeros(n - 1) + [0];
      assert (front + [last])[..n - 1] == front && (front + [last])[n - 1] == last;
      assert (Zeros(n - 1) + [0])[..n - 1] == Zeros(n - 1) && (Zeros(n - 1) + [0 as bv8])[n - 1] == 0;
    }
  }

  /** Up to 64 bits, the appended length is the standard's exactly when the message is shorter than 2 to the 32 bits. */
  lemma TailIsPadding(message: seq<bv8>)
    requires 8 * |message| < 0x1_0000_0000_0000_0000
    ensures message + Tail(|message|) == Padded(message) <==> 8 * |message| < 0x1_0000_0000
  {
    var bits := 8 * |message|;
    ZeroBitsFillBytes(|message|);
    LengthBytes(bits);
    var front := message + [0x80] + Zeros(WholeZeros(|message|));
    var coded, standard := Zeros(4) + BigEndian(bits, 4), BigEndian(bits, 8);
    assert message + Tail(|message|) == front + coded;
    assert Padded(message) == front + standard;
    SameEnd(front, coded, standard);
  }

  lemma SameEnd(front: seq<bv8>, a: seq<bv8>, b: seq<bv8>)
    ensures front + a == front + b <==> a == b
  {
    assert (front + a)[|front|..] == a;
    assert (front + b)[|front|..] == b;
  }

  lemma LengthBytes(bits: nat)
    requires bits < 0x1_0000_0000_0000_0000
    ensures Zeros(4) + BigEndian(bits, 4) == BigEndian(bits, 8) <==> bits < 0x1_0000_0000
  {
    hide BigEndian, Shifted;
    HighAndLow(bits, 4, 4);
    ShiftedByFour(bits);
    assert Pow256(4) == 0x1_0000_0000;
    NoBytesIsZero(bits / 0x1_0000_0000, 4);
    SameStart(BigEndian(bits, 4), Zeros(4), BigEndian(bits / 0x1_0000_0000, 4));
  }

  lemma ShiftedByFour(x: nat)
    ensures Shifted(x, 4) == x / 0x1_0000_0000
  {
    var b1, b2, b3 := x / 256, x / 256 / 256, x / 256 / 256 / 256;
    assert Shifted(x, 4) == Shifted(b1, 3) == Shifted(b2, 2) == Shifted(b3, 1) == Shifted(b3 / 256, 0);
  }

  lemma SameStart(back: seq<bv8>, a: seq<bv8>, b: seq<bv8>)
    requires |a| == |b|
    ensures a + back == b + back <==> a == b
  {
    assert (a + back)[..|a|] == a;
    assert (b + back)[..|a|] == b;
  }

  lemma LengthOctets(x: nat)
    ensures BigEndian(x, 4) == [LowByte(x / 0x100_0000), LowByte(x / 0x1_0000), LowByte(x / 0x100), LowByte(x)]
  {
    hide LowByte;
    var b1, b2, b3 := x / 0x100, x / 0x1_0000, x / 0x100_0000;
    assert b1 / 256 == b2 && b2 / 256 == b3;
    assert BigEndian(b3 / 256, 0) == [];
    assert BigEndian(b3, 1) == [LowByte(b3)];
    assert BigEndian(b2, 2) == [LowByte(b3), LowByte(b2)];
    assert BigEndian(b1, 3) == [LowByte(b3), LowByte(b2), LowByte(b1)];
  }

  // Streaming.

  /** The next byte completes a block, or waits for more. */
  lemma BlockEnds(fed: seq<bv8>)
    requires |fed| > 0 && |fed| % 64 == 0
    ensures (|fed| - 64) % 64 == 0
    ensures HashBlocks(fed) == Compress(HashBlocks(fed[..|fed| - 64]), fed[|fed| - 64..])
  {
  }

  lemma NextIndex(n: nat)
    ensures (n + 1) % 64 == if n % 64 == 63 then 0 else n % 64 + 1
  {
  }

  lemma OneMoreByte(fed: seq<bv8>, octet: bv8, blocks: nat)
    requires blocks <= |fed|
    ensures (fed + [octet])[..blocks] == fed[..blocks]
    ensures (fed + [octet])[blocks..] == fed[blocks..] + [octet]
  {
  }

  lemma NothingHashed()
    ensures HashBlocks([]) == INITIAL
  {
  }

  /** The words the code computes are the next words of the schedule. */
  lemma EarlyWord(block: seq<bv8>, w: seq<bv32>)
    requires |block| == 64 && |w| < 16
    ensures var i := |w|;
            NextWord(block, w) == Packed(block[i * 4 + 0], block[i * 4 + 1], block[i * 4 + 2], block[i * 4 + 3])
  {
    hide Word, Packed;
    var i := |w|;
    PackedIsWord(block[i * 4], block[i * 4 + 1], block[i * 4 + 2], block[i * 4 + 3]);
  }

  lemma LateWord(block: seq<bv8>, w: seq<bv32>)
    requires |block| == 64 && 16 <= |w| < 80
    ensures var i := |w|;
            NextWord(block, w) == LeftRotate(Mixed(w[i - 3], w[i - 8], w[i - 14], w[i - 16]), 1)
  {
    hide LeftRotate, Rotl, Mixed;
    var i := |w|;
    LeftRotateIsRotl(Mixed(w[i - 3], w[i - 8], w[i - 14], w[i - 16]));
  }

  class SHA1 {
    const digest: array<bv32>
    const block: array<bv8>
    var blockByteIndex: nat
    var byteCount: nat
    ghost var fed: seq<bv8>

    /** The digest words are the hash of the whole blocks fed so far, the buffer holds the bytes after them. */
    ghost predicate Valid()
      reads this, digest, block
    {
      && digest.Length == 5 && block.Length == 64
      && byteCount == |fed|
      && blockByteIndex == |fed| % 64
      && block[..blockByteIndex] == fed[|fed| - blockByteIndex..]
      && Value() == HashBlocks(fed[..|fed| - blockByteIndex])
    }

    function Value(): Digest
      requires digest.Length == 5
      reads digest
    {
      Digest(digest[0], digest[1], digest[2], digest[3], digest[4])
    }

    constructor ()
      ensures Valid() && fresh(digest) && fresh(block) && fed == []
    {
      digest := new bv32[5](_ => 0);
      block := new bv8[64](_ => 0);
      new;
      Reset();
    }

    method Reset()
      requires digest.Length == 5 && block.Length == 64
      modifies this, digest
      ensures Valid() && fed == []
    {
      digest[0], digest[1], digest[2], digest[3], digest[4] :=
        0x6745_2301, 0xEFCD_AB89, 0x98BA_DCFE, 0x1032_5476, 0xC3D2_E1F0;
      blockByteIndex, byteCount := 0, 0;
      fed := [];
      hide HashBlocks;
      NothingHashed();
      assert fed[..0] == [];
    }

    method ProcessByte(octet: bv8)
      requires Valid()
      modifies this, digest, block
      ensures Valid() && fed == old(fed) + [octet]
      ensures blockByteIndex == if old(blockByteIndex) == 63 then 0 else old(blockByteIndex) + 1
    {
      hide HashBlocks, Compress;
      ghost var before, index := fed, blockByteIndex;
      block[blockByteIndex] := octet;
      blockByteIndex := blockByteIndex + 1;
      byteCount := byteCount + 1;
      fed := fed + [octet];
      NextIndex(|before|);
      OneMoreByte(before, octet, |before| - index);
      assert block[..index + 1] == old(block[..index]) + [octet];
      if blockByteIndex == 64 {
        assert block[..] == block[..64];
        BlockEnds(fed);
        blockByteIndex := 0;
        ProcessBlock();
        assert fed[..|fed|] == fed;
      }
    }

    /** `processBytes`, and the two-pointer `processBlock` behind it. */
    method ProcessBytes(data: seq<bv8>)
      requires Valid()
      modifies this, digest, block
      ensures Valid() && fed == old(fed) + data
    {
      hide Valid;
      for i := 0 to |data|
        invariant Valid() && fed == old(fed) + data[..i]
      {
        ProcessByte(data[i]);
      }
    }

    /** The full block goes into the digest words. */
    method ProcessBlock()
      requires digest.Length == 5 && block.Length == 64
      modifies digest
      ensures Value() == Compress(old(Value()), block[..])
    {
      hide Schedule, Turns, Sum;
      ghost var h, full := Value(), block[..];
      var w := ExpandBlock();
      var a, b, c, d, e := RunRounds(w);
      AddToDigest(a, b, c, d, e);
      assert block[..] == full;
    }

    method AddToDigest(a: bv32, b: bv32, c: bv32, d: bv32, e: bv32)
      requires digest.Length == 5
      modifies digest
      ensures Value() == Sum(old(Value()), Digest(a, b, c, d, e))
    {
      hide Add;
      digest[0] := Add(digest[0], a);
      digest[1] := Add(digest[1], b);
      digest[2] := Add(digest[2], c);
      digest[3] := Add(digest[3], d);
      digest[4] := Add(digest[4], e);
    }

    /** The eighty rounds of `processBlock`. */
    method RunRounds(w: array<bv32>) returns (a: bv32, b: bv32, c: bv32, d: bv32, e: bv32)
      requires digest.Length == 5 && w.Length == 80
      ensures Digest(a, b, c, d, e) == Turns(w[..], 80, Value())
    {
      hide Turns, Turn, LeftRotate, Mix, K, Total;
      a, b, c, d, e := digest[0], digest[1], digest[2], digest[3], digest[4];
      TurnsStart(w[..], Value());
      for i := 0 to 80
        invariant Digest(a, b, c, d, e) == Turns(w[..], i, Value())
      {
        var f, k := Mix(i, b, c, d), K(i);
        RoundIsTurn(i, Digest(a, b, c, d, e), w[i]);
        TurnsStep(w[..], i, Value());
        var temp := Total(LeftRotate(a, 5), f, e, k, w[i]);
        e := d;
        d := c;
        c := LeftRotate(b, 30);
        b := a;
        a := temp;
      }
    }

    /** The eighty words made of the block. */
    method ExpandBlock() returns (w: array<bv32>)
      requires block.Length == 64
      ensures fresh(w) && w.Length == 80 && w[..] == Schedule(block[..], 80)
    {
      hide LeftRotate, Packed, Schedule, NextWord, Mixed;
      w := new bv32[80](_ => 0);
      ScheduleStart(block[..]);
      for i := 0 to 16
        invariant w[..i] == Schedule(block[..], i)
      {
        ghost var before := w[..i];
        EarlyWord(block[..], before);
        w[i] := Packed(block[i * 4 + 0], block[i * 4 + 1], block[i * 4 + 2], block[i * 4 + 3]);
        ScheduleStep(block[..], i);
        assert w[..i + 1] == before + [w[i]];
      }
      for i := 16 to 80
        invariant w[..i] == Schedule(block[..], i)
      {
        ghost var before := w[..i];
        LateWord(block[..], before);
        w[i] := LeftRotate(Mixed(w[i - 3], w[i - 8], w[i - 14], w[i - 16]), 1);
        ScheduleStep(block[..], i);
        assert w[..i + 1] == before + [w[i]];
      }
      assert w[..80] == w[..];
    }

    /** Pads the message, and gives the digest words of it all. */
    method GetDigest() returns (r: Digest)
      requires Valid()
      modifies this, digest, block
      ensures Valid() && fed == old(fed) + Tail(|old(fed)|)
      ensures |fed| % 64 == 0 && r == HashBlocks(fed)
    {
      hide HashBlocks, Zeros, BigEndian, WholeZeros;
      var bitCount := byteCount * 8;
      ghost var message := fed;
      CountIsLength();
      hide Valid;
      ProcessByte(0x80);
      PadWithZeros(message);
      AppendLength(bitCount);
      FourZeros();
      Joined(message, [0x80], Zeros(WholeZeros(|message|)), Zeros(4), BigEndian(8 * |message|, 4));
      NothingBuffered();
      r := Value();
    }

    /** The last eight calls of `getDigest`. */
    method AppendLength(bitCount: nat)
      requires Valid() && blockByteIndex == 56
      modifies this, digest, block
      ensures Valid() && fed == old(fed) + [0, 0, 0, 0] + BigEndian(bitCount, 4) && blockByteIndex == 0
    {
      hide Valid, BigEndian, LowByte;
      ghost var filled := fed;
      ProcessByte(0);
      ProcessByte(0);
      ProcessByte(0);
      ProcessByte(0);
      OneByOne(filled, 0, 0, 0, 0);
      ghost var zeroed := fed;
      ProcessByte(LowByte(bitCount / 0x100_0000));
      ProcessByte(LowByte(bitCount / 0x1_0000));
      ProcessByte(LowByte(bitCount / 0x100));
      ProcessByte(LowByte(bitCount));
      LengthOctets(bitCount);
      OneByOne(zeroed, LowByte(bitCount / 0x100_0000), LowByte(bitCount / 0x1_0000), LowByte(bitCount / 0x100),
               LowByte(bitCount));
    }

    /** The digest as twenty bytes. */
    method GetDigestBytes() returns (bytes: seq<bv8>)
      requires Valid()
      modifies this, digest, block
      ensures Valid() && fed == old(fed) + Tail(|old(fed)|) && |fed| % 64 == 0
      ensures |bytes| == 20 && FromBytes(bytes) == HashBlocks(fed)
    {
      hide Valid, HashBlocks, Tail, Octet, Word;
      var d := GetDigest();
      bytes := FourOctets(d.a) + FourOctets(d.b) + FourOctets(d.c) + FourOctets(d.d) + FourOctets(d.e);
      OctetsMakeTheWord(d.a);
      OctetsMakeTheWord(d.b);
      OctetsMakeTheWord(d.c);
      OctetsMakeTheWord(d.d);
      OctetsMakeTheWord(d.e);
    }

    lemma CountIsLength()
      requires Valid()
      ensures byteCount == |fed| && digest.Length == 5
    {
    }

    lemma NothingBuffered()
      requires Valid() && blockByteIndex == 0
      ensures digest.Length == 5 && |fed| % 64 == 0 && Value() == HashBlocks(fed)
    {
      assert fed[..|fed|] == fed;
    }

    /** The loops of `getDigest` that fill the block up to its last eight bytes. */
    method PadWithZeros(ghost message: seq<bv8>)
      requires Valid() && fed == message + [0x80]
      modifies this, digest, block
      ensures Valid() && fed == message + [0x80] + Zeros(WholeZeros(|message|))
      ensures blockByteIndex == 56
    {
      IndexIsLength();
      hide Valid, Zeros, WholeZeros;
      ghost var start, first := fed, blockByteIndex;
      ghost var zeros: nat := if first > 56 then 120 - first else 56 - first;
      if blockByteIndex > 56 {
        FinishBlock();
        ZerosTo56();
        ZerosAfter(start, 64 - first, 56);
      } else {
        ZerosTo56();
      }
      IndexIsLength();
      ZerosLength(start, zeros);
      OnlyZeros(|message|, zeros);
    }

    /** `while (m_blockByteIndex != 0)`. */
    method FinishBlock()
      requires Valid() && 56 < blockByteIndex < 64
      modifies this, digest, block
      ensures Valid() && blockByteIndex == 0 && fed == old(fed) + Zeros(64 - old(blockByteIndex))
    {
      hide Valid, Zeros;
      ghost var start, first, zeros: nat := fed, blockByteIndex, 0;
      NoZeros(start);
      while blockByteIndex != 0
        invariant Valid() && fed == start + Zeros(zeros)
        invariant zeros <= 64 - first
        invariant blockByteIndex == if zeros == 64 - first then 0 else first + zeros
        decreases 64 - first - zeros
      {
        ProcessByte(0);
        OneZeroMore(start, zeros);
        zeros := zeros + 1;
      }
    }

    /** `while (m_blockByteIndex < 56)`. */
    method ZerosTo56()
      requires Valid() && blockByteIndex <= 56
      modifies this, digest, block
      ensures Valid() && blockByteIndex == 56 && fed == old(fed) + Zeros(56 - old(blockByteIndex))
    {
      hide Valid, Zeros;
      ghost var start, first, zeros: nat := fed, blockByteIndex, 0;
      NoZeros(start);
      while blockByteIndex < 56
        invariant Valid() && fed == start + Zeros(zeros)
        invariant blockByteIndex <= 56 && blockByteIndex == first + zeros
      {
        ProcessByte(0);
        OneZeroMore(start, zeros);
        zeros := zeros + 1;
      }
    }

    lemma IndexIsLength()
      requires Valid()
      ensures blockByteIndex == |fed| % 64 && blockByteIndex < 64
    {
    }
  }

  lemma NoZeros(s: seq<bv8>)
    ensures s + Zeros(0) == s
  {
  }

  lemma ZerosAfter(s: seq<bv8>, m: nat, n: nat)
    ensures s + Zeros(m) + Zeros(n) == s + Zeros(m + n)
  {
  }

  lemma OneZeroMore(s: seq<bv8>, n: nat)
    ensures s + Zeros(n) + [0] == s + Zeros(n + 1)
  {
  }

  lemma ZerosLength(s: seq<bv8>, n: nat)
    ensures |s + Zeros(n)| == |s| + n
  {
  }

  lemma Joined(a: seq<bv8>, b: seq<bv8>, c: seq<bv8>, d: seq<bv8>, e: seq<bv8>)
    ensures a + (b + c + d + e) == a + b + c + d + e
  {
  }

  lemma FourZeros()
    ensures Zeros(4) == [0, 0, 0, 0]
  {
  }

  lemma OneByOne(s: seq<bv8>, a: bv8, b: bv8, c: bv8, d: bv8)
    ensures s + [a] + [b] + [c] + [d] == s + [a, b, c, d]
  {
  }

  lemma TurnsStart(w: seq<bv32>, h: Digest)
    ensures Turns(w, 0, h) == h
  {
  }

  lemma TurnsStep(w: seq<bv32>, i: nat, h: Digest)
    requires i < |w|
    ensures Turns(w, i + 1, h) == Turn(i, Turns(w, i, h), w[i])
  {
  }

  lemma ScheduleStart(block: seq<bv8>)
    requires |block| == 64
    ensures Schedule(block, 0) == []
  {
  }

  lemma ScheduleStep(block: seq<bv8>, t: nat)
    requires |block| == 64 && t < 80
    ensures Schedule(block, t + 1) == Schedule(block, t) + [NextWord(block, Schedule(block, t))]
  {
    hide NextWord;
  }

  function Concat(chunks: seq<seq<bv8>>): seq<bv8> {
    if chunks == [] then [] else Concat(chunks[..|chunks| - 1]) + chunks[|chunks| - 1]
  }

  /**
   * A message fed in any chunks: the digest is that of the message with its tail, which for messages shorter than
   * 2 to the 32 bits is the digest of the standard.
   */
  method HashInChunks(chunks: seq<seq<bv8>>) returns (r: Digest)
    ensures var message := Concat(chunks);
            |message + Tail(|message|)| % 64 == 0 && r == HashBlocks(message + Tail(|message|))
    ensures 8 * |Concat(chunks)| < 0x1_0000_0000 ==> r == Hash(Concat(chunks))
  {
    hide HashBlocks, Tail, Padded;
    var sha := new SHA1();
    ghost var message := Concat(chunks);
    assert chunks[..0] == [];
    for i := 0 to |chunks|
      invariant sha.Valid() && fresh(sha) && fresh(sha.digest) && fresh(sha.block)
      invariant sha.fed == Concat(chunks[..i])
    {
      hide SHA1.Valid;
      sha.ProcessBytes(chunks[i]);
      assert chunks[..i + 1][..i] == chunks[..i];
    }
    assert chunks[..|chunks|] == chunks;
    r := sha.GetDigest();
    if 8 * |message| < 0x1_0000_0000 {
      TailIsPadding(message);
    }
  }
}
