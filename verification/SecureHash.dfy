/** SHA-1 on whole bytes as FIPS 180-4 defines it. */
module SecureHash {
  import opened BitWords

  datatype Digest = Digest(a: bv32, b: bv32, c: bv32, d: bv32, e: bv32)

  /** Section 3.2: rotation to the left. */
  function Rotl(x: bv32, n: nat): bv32
    requires 0 < n < 32
  {
    (x << n) | (x >> (32 - n))
  }

  // Section 4.1.1.

  function Ch(x: bv32, y: bv32, z: bv32): bv32 { (x & y) ^ (!x & z) }

  function Parity(x: bv32, y: bv32, z: bv32): bv32 { x ^ y ^ z }

  function Maj(x: bv32, y: bv32, z: bv32): bv32 { (x & y) ^ (x & z) ^ (y & z) }

  function F(t: nat, x: bv32, y: bv32, z: bv32): bv32 {
    if t < 20 then Ch(x, y, z) else if 40 <= t < 60 then Maj(x, y, z) else Parity(x, y, z)
  }

  /** Section 4.2.1. */
  function K(t: nat): bv32 {
    if t < 20 then 0x5A82_7999 else if t < 40 then 0x6ED9_EBA1 else if t < 60 then 0x8F1B_BCDC else 0xCA62_C1D6
  }

  /** Section 5.3.1. */
  const INITIAL := Digest(0x6745_2301, 0xEFCD_AB89, 0x98BA_DCFE, 0x1032_5476, 0xC3D2_E1F0)

  /** Section 3.1: four bytes as a word, the most significant first. */
  function Word(b0: bv8, b1: bv8, b2: bv8, b3: bv8): bv32 {
    (((b0 as bv32) * 256 + b1 as bv32) * 256 + b2 as bv32) * 256 + b3 as bv32
  }

  function Mixed(w3: bv32, w8: bv32, w14: bv32, w16: bv32): bv32 {
    w3 ^ w8 ^ w14 ^ w16
  }

  /** Section 6.1.2, step 1: word `|w|` of the message schedule, after the words `w`. */
  function NextWord(block: seq<bv8>, w: seq<bv32>): bv32
    requires |block| == 64 && |w| < 80
  {
    var t := |w|;
    if t < 16 then Word(block[4 * t], block[4 * t + 1], block[4 * t + 2], block[4 * t + 3])
    else Rotl(Mixed(w[t - 3], w[t - 8], w[t - 14], w[t - 16]), 1)
  }

  /** The first `n` words of the schedule. */
  function Schedule(block: seq<bv8>, n: nat): (w: seq<bv32>)
    requires |block| == 64 && n <= 80
    ensures |w| == n
  {
    if n == 0 then [] else Schedule(block, n - 1) + [NextWord(block, Schedule(block, n - 1))]
  }

  /** The new word of a turn: its five terms added modulo 2 to the 32. */
  function Total(rotated: bv32, f: bv32, e: bv32, k: bv32, w: bv32): bv32 {
    rotated + f + e + k + w
  }

  /** One turn of step 3. */
  function Turn(t: nat, s: Digest, w: bv32): Digest {
    Digest(Total(Rotl(s.a, 5), F(t, s.b, s.c, s.d), s.e, K(t), w), s.a, Rotl(s.b, 30), s.c, s.d)
  }

  function Turns(w: seq<bv32>, n: nat, s: Digest): Digest
    requires n <= |w|
  {
    if n == 0 then s else Turn(n - 1, Turns(w, n - 1, s), w[n - 1])
  }

  /** Section 3.2: addition modulo 2 to the 32. */
  function Add(x: bv32, y: bv32): bv32 { x + y }

  function Sum(h: Digest, s: Digest): Digest {
    Digest(Add(h.a, s.a), Add(h.b, s.b), Add(h.c, s.c), Add(h.d, s.d), Add(h.e, s.e))
  }

  /** Steps 1 to 4 for one block. */
  function Compress(h: Digest, block: seq<bv8>): Digest
    requires |block| == 64
  {
    Sum(h, Turns(Schedule(block, 80), 80, h))
  }

  /** Section 6.1.2 over the blocks of a padded message. */
  function HashBlocks(padded: seq<bv8>): Digest
    requires |padded| % 64 == 0
  {
    if padded == [] then INITIAL
    else Compress(HashBlocks(padded[..|padded| - 64]), padded[|padded| - 64..])
  }

  // Section 5.1.1.

  /** `zeros` bits after the one bit leave the last block 64 bits short. */
  predicate Fills(bits: nat, zeros: nat) {
    (bits + 1 + zeros) % 512 == 448
  }

  /** How many zero bits follow the one bit, for a message of `bits` bits: the least number that fills. */
  function ZeroBits(bits: nat): (zeros: nat)
    ensures Fills(bits, zeros)
    ensures forall j :: 0 <= j < zeros ==> !Fills(bits, j)
  {
    if bits % 512 <= 447 then 447 - bits % 512 else 959 - bits % 512
  }

  function Zeros(n: nat): (z: seq<bv8>)
    ensures |z| == n
  {
    seq(n, _ => 0)
  }

  function LowByte(x: nat): bv8 {
    (x % 256) as bv8
  }

  /** The low `n` bytes of a number, the most significant first. */
  function BigEndian(x: nat, n: nat): (bytes: seq<bv8>)
    ensures |bytes| == n
  {
    if n == 0 then [] else BigEndian(x / 256, n - 1) + [LowByte(x)]
  }

  /**
   * A message of whole bytes, padded: the one bit and the seven zeros after it are a byte, the other zeros are
   * whole bytes, and the length in bits is a 64-bit number.
   */
  function Padded(message: seq<bv8>): (padded: seq<bv8>)
    ensures |padded| % 64 == 0
  {
    var bits := 8 * |message|;
    var zeros := ZeroBits(bits);
    ZeroBitsFillBytes(|message|);
    WholeBlocks(|message| + 1 + (zeros - 7) / 8);
    message + [0x80] + Zeros((zeros - 7) / 8) + BigEndian(bits, 8)
  }

  /** The zero bytes after the first byte of the padding. */
  function WholeZeros(bytes: nat): nat {
    if bytes % 64 <= 55 then 55 - bytes % 64 else 119 - bytes % 64
  }

  lemma ZeroBitsForm(bytes: nat)
    ensures ZeroBits(8 * bytes) == 7 + 8 * WholeZeros(bytes)
  {
    var q, r := bytes / 64, bytes % 64;
    UniqueRemainder(8 * bytes, 512, q, 8 * r);
  }

  lemma WholeZerosFill(bytes: nat)
    ensures (bytes + 1 + WholeZeros(bytes)) % 64 == 56
  {
    var q, r := bytes / 64, bytes % 64;
    UniqueRemainder(bytes + 1 + WholeZeros(bytes), 64, if r <= 55 then q else q + 1, 56);
  }

  lemma ZeroBitsFillBytes(bytes: nat)
    ensures ZeroBits(8 * bytes) >= 7
    ensures (ZeroBits(8 * bytes) - 7) / 8 == WholeZeros(bytes)
    ensures (bytes + 1 + WholeZeros(bytes)) % 64 == 56
  {
    hide ZeroBits, WholeZeros;
    ZeroBitsForm(bytes);
    WholeZerosFill(bytes);
  }

  lemma WholeBlocks(n: nat)
    requires n % 64 == 56
    ensures (n + 8) % 64 == 0
  {
  }

  /** Twenty bytes as the five words of a digest. */
  function FromBytes(bytes: seq<bv8>): Digest
    requires |bytes| == 20
  {
    Digest(Word(bytes[0], bytes[1], bytes[2], bytes[3]), Word(bytes[4], bytes[5], bytes[6], bytes[7]),
           Word(bytes[8], bytes[9], bytes[10], bytes[11]), Word(bytes[12], bytes[13], bytes[14], bytes[15]),
           Word(bytes[16], bytes[17], bytes[18], bytes[19]))
  }

  /** The SHA-1 digest of a message. */
  function Hash(message: seq<bv8>): Digest {
    HashBlocks(Padded(message))
  }
}
