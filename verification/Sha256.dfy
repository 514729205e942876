/**
 * SHA-256 as the streaming code computes it, against the definition of FIPS 180-4:
 * pad the whole message (section 5.1.1), then fold the compression function over its
 * 512-bit blocks (section 6.2.2).
 */
module SecureHash {

  type Bytes = seq<bv8>
  type Words = seq<bv32>

  const BLOCK := 64
  const TWO_64 := 0x1_0000_0000_0000_0000

  // ---- Functions and constants of section 4 ----

  function Rotr(x: bv32, n: bv6): bv32
    requires 0 < n < 32
  {
    (x >> n) | (x << (32 - n))
  }

  function Ch(x: bv32, y: bv32, z: bv32): bv32 { (x & y) ^ (!x & z) }

  function Maj(x: bv32, y: bv32, z: bv32): bv32 { (x & y) ^ (x & z) ^ (y & z) }

  function BigSigma0(x: bv32): bv32 { Rotr(x, 2) ^ Rotr(x, 13) ^ Rotr(x, 22) }

  function BigSigma1(x: bv32): bv32 { Rotr(x, 6) ^ Rotr(x, 11) ^ Rotr(x, 25) }

  function SmallSigma0(x: bv32): bv32 { Rotr(x, 7) ^ Rotr(x, 18) ^ (x >> 3) }

  function SmallSigma1(x: bv32): bv32 { Rotr(x, 17) ^ Rotr(x, 19) ^ (x >> 10) }

  const K: Words := [
    0x428a2f98, 0x71374491, 0xb5c0fbcf, 0xe9b5dba5, 0x3956c25b, 0x59f111f1, 0x923f82a4, 0xab1c5ed5,
    0xd807aa98, 0x12835b01, 0x243185be, 0x550c7dc3, 0x72be5d74, 0x80deb1fe, 0x9bdc06a7, 0xc19bf174,
    0xe49b69c1, 0xefbe4786, 0x0fc19dc6, 0x240ca1cc, 0x2de92c6f, 0x4a7484aa, 0x5cb0a9dc, 0x76f988da,
    0x983e5152, 0xa831c66d, 0xb00327c8, 0xbf597fc7, 0xc6e00bf3, 0xd5a79147, 0x06ca6351, 0x14292967,
    0x27b70a85, 0x2e1b2138, 0x4d2c6dfc, 0x53380d13, 0x650a7354, 0x766a0abb, 0x81c2c92e, 0x92722c85,
    0xa2bfe8a1, 0xa81a664b, 0xc24b8b70, 0xc76c51a3, 0xd192e819, 0xd6990624, 0xf40e3585, 0x106aa070,
    0x19a4c116, 0x1e376c08, 0x2748774c, 0x34b0bcb5, 0x391c0cb3, 0x4ed8aa4a, 0x5b9cca4f, 0x682e6ff3,
    0x748f82ee, 0x78a5636f, 0x84c87814, 0x8cc70208, 0x90befffa, 0xa4506ceb, 0xbef9a3f7, 0xc67178f2]

  const H0: Words := [
    0x6a09e667, 0xbb67ae85, 0x3c6ef372, 0xa54ff53a, 0x510e527f, 0x9b05688c, 0x1f83d9ab, 0x5be0cd19]

  // ---- The hash computation of section 6.2.2 ----

  function Word(b: Bytes, i: nat): bv32
    requires 4 * i + 4 <= |b|
  {
    Word4(b[4 * i], b[4 * i + 1], b[4 * i + 2], b[4 * i + 3])
  }

  function Word4(b0: bv8, b1: bv8, b2: bv8, b3: bv8): bv32
  {
    ((b0 as bv32) << 24) | ((b1 as bv32) << 16) | ((b2 as bv32) << 8) | (b3 as bv32)
  }

  /** The message schedule. */
  function Schedule(block: Bytes, t: nat): bv32
    requires |block| == BLOCK && t < 64
  {
    if t < 16 then Word(block, t)
    else NextWord(Schedule(block, t - 16), Schedule(block, t - 15), Schedule(block, t - 7), Schedule(block, t - 2))
  }

  function NextWord(w16: bv32, w15: bv32, w7: bv32, w2: bv32): bv32
  {
    w16 + SmallSigma0(w15) + w7 + SmallSigma1(w2)
  }

  datatype Vars = Vars(a: bv32, b: bv32, c: bv32, d: bv32, e: bv32, f: bv32, g: bv32, h: bv32)

  function Round(v: Vars, k: bv32, w: bv32): Vars
  {
    var t1 := v.h + BigSigma1(v.e) + Ch(v.e, v.f, v.g) + k + w;
    var t2 := BigSigma0(v.a) + Maj(v.a, v.b, v.c);
    Vars(t1 + t2, v.a, v.b, v.c, v.d + t1, v.e, v.f, v.g)
  }

  function Rounds(v: Vars, block: Bytes, t: nat): Vars
    requires |block| == BLOCK && t <= 64
  {
    if t == 0 then v else Round(Rounds(v, block, t - 1), K[t - 1], Schedule(block, t - 1))
  }

  function ToVars(h: Words): Vars
    requires |h| == 8
  {
    Vars(h[0], h[1], h[2], h[3], h[4], h[5], h[6], h[7])
  }

  function Compress(h: Words, block: Bytes): (r: Words)
    requires |h| == 8 && |block| == BLOCK
    ensures |r| == 8
  {
    AddBack(Rounds(ToVars(h), block, 64), h)
  }

  function Add(x: bv32, y: bv32): bv32 { x + y }

  function AddBack(v: Vars, h: Words): (r: Words)
    requires |h| == 8
    ensures |r| == 8
  {
    [Add(h[0], v.a), Add(h[1], v.b), Add(h[2], v.c), Add(h[3], v.d),
     Add(h[4], v.e), Add(h[5], v.f), Add(h[6], v.g), Add(h[7], v.h)]
  }

  /** What one block does to the hash value. */
  function Core(h: Words, block: Bytes): Words
  {
    if |h| == 8 && |block| == BLOCK then Compress(h, block) else h
  }

  function Fold(step: (Words, Bytes) -> Words, h: Words, blocks: Bytes): Words
    requires |blocks| % BLOCK == 0
    decreases |blocks|
  {
    if blocks == [] then h
    else step(Fold(step, h, blocks[..|blocks| - BLOCK]), blocks[|blocks| - BLOCK..])
  }

  // ---- Padding, section 5.1.1 ----

  function Zeros(n: nat): (s: Bytes)
    ensures |s| == n
  {
    seq(n, _ => 0)
  }

  function Pow2_8(n: nat): (p: nat)
    ensures p > 0
  {
    if n == 0 then 1 else 256 * Pow2_8(n - 1)
  }

  /** The `i`-th of the eight big-endian bytes of a 64-bit number. */
  function LengthByte(bits: nat, i: nat): bv8
    requires i < 8
  {
    (bits / Pow2_8(7 - i) % 256) as bv8
  }

  function Length64(bits: nat): (s: Bytes)
    ensures |s| == 8
  {
    seq(8, i requires 0 <= i < 8 => LengthByte(bits, i))
  }

  function Gap(message: Bytes): nat { (55 - |message|) % BLOCK }

  /** A one bit, then the fewest zero bits that leave room for the length in the last block. */
  function Pad(message: Bytes): (r: Bytes)
    ensures |r| % BLOCK == 0
  {
    message + [0x80] + Zeros(Gap(message)) + Length64(8 * |message|)
  }

  function ByteOf(w: bv32, k: nat): bv8
    requires k < 4
  {
    if k == 0 then ((w >> 24) & 0xFF) as bv8
    else if k == 1 then ((w >> 16) & 0xFF) as bv8
    else if k == 2 then ((w >> 8) & 0xFF) as bv8
    else (w & 0xFF) as bv8
  }

  function OutByte(h: Words, i: nat): bv8
    requires |h| == 8 && i < 32
  {
    ByteOf(h[i / 4], i % 4)
  }

  function Digest(h: Words): (r: Bytes)
    requires |h| == 8
    ensures |r| == 32
  {
    seq(32, i requires 0 <= i < 32 => OutByte(h, i))
  }

  lemma {:induction false} FoldLength(blocks: Bytes)
    requires |blocks| % BLOCK == 0
    ensures |Fold(Core, H0, blocks)| == 8
    decreases |blocks|
  {
    if blocks != [] {
      FoldLength(blocks[..|blocks| - BLOCK]);
    }
  }

  function Sha256(message: Bytes): (r: Bytes)
    ensures |r| == 32
  {
    FoldLength(Pad(message));
    Digest(Fold(Core, H0, Pad(message)))
  }
}
