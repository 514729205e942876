/** The streaming context: a 64-byte buffer, the running hash and the bit count. */
module Sha256Stream {
  import opened SecureHash

  lemma FoldSnoc(step: (Words, Bytes) -> Words, h: Words, done: Bytes, block: Bytes)
    requires |done| % BLOCK == 0 && |block| == BLOCK
    ensures Fold(step, h, done + block) == step(Fold(step, h, done), block)
  {
    assert (done + block)[..|done|] == done && (done + block)[|done|..] == block;
  }

  /** `step` is the SHA-256 compression function. */
  ghost predicate IsCore(step: (Words, Bytes) -> Words)
  {
    forall h, block {:trigger Core(h, block)} :: step(h, block) == Core(h, block)
  }

  lemma {:induction false} FoldCore(step: (Words, Bytes) -> Words, blocks: Bytes)
    requires IsCore(step) && |blocks| % BLOCK == 0
    ensures Fold(step, H0, blocks) == Fold(Core, H0, blocks)
    decreases |blocks|
  {
    if blocks != [] {
      var done, block := blocks[..|blocks| - BLOCK], blocks[|blocks| - BLOCK..];
      FoldCore(step, done);
      assert step(Fold(step, H0, done), block) == Core(Fold(step, H0, done), block);
    }
  }

  /** Zero padding stops at the first count that leaves eight bytes in the last block. */
  lemma PaddingIsLeast(n: nat, z: nat)
    requires z <= (55 - n) % BLOCK
    ensures (n + 1 + z) % BLOCK == 56 <==> z == (55 - n) % BLOCK
  {
    var q, r := n / BLOCK, n % BLOCK;
    if r <= 55 {
      assert (55 - n) % BLOCK == 55 - r by { assert 55 - n == 64 * (-q) + (55 - r); }
      assert (n + 1 + z) % BLOCK == r + 1 + z by { assert n + 1 + z == 64 * q + (r + 1 + z); }
    } else {
      assert (55 - n) % BLOCK == 119 - r by { assert 55 - n == 64 * (-q - 1) + (119 - r); }
      if r + 1 + z < 64 {
        assert (n + 1 + z) % BLOCK == r + 1 + z by { assert n + 1 + z == 64 * q + (r + 1 + z); }
      } else {
        assert (n + 1 + z) % BLOCK == r + 1 + z - 64 by { assert n + 1 + z == 64 * (q + 1) + (r + 1 + z - 64); }
      }
    }
  }

  /** Eight bytes hold the bit count modulo 2^64, so the wrap of the counter does not show. */
  lemma LengthWraps(bits: nat, i: nat)
    requires i < 8
    ensures LengthByte(bits % TWO_64, i) == LengthByte(bits, i)
  {
    Powers();
    DigitWraps(bits, TWO_64, Pow2_8(7 - i), Pow2_8(i));
  }

  lemma DigitWraps(bits: nat, m: nat, p: nat, c: nat)
    requires m > 0 && p > 0 && 256 * c * p == m
    ensures bits % m / p % 256 == bits / p % 256
  {
    var q, low := bits / m, bits % m;
    Regroup(p, c, q);
    assert bits == low + p * (256 * (c * q));
    DivShift(low, p, 256 * (c * q));
    ModShift(low / p, c * q);
  }

  lemma Regroup(p: nat, c: nat, q: nat)
    ensures 256 * c * p * q == p * (256 * (c * q))
  {
  }

  lemma DivShift(a: nat, p: nat, k: nat)
    requires p > 0
    ensures (a + p * k) / p == a / p + k
  {
    var n, d := a + p * k, (a + p * k) / p - a / p - k;
    Divided(n, p);
    Divided(a, p);
    Distribute(p, n / p, a / p, k);
    NoMultiple(p, d, a % p - n % p);
  }

  lemma Divided(n: nat, p: nat)
    requires p > 0
    ensures n == p * (n / p) + n % p && 0 <= n % p < p
  {
  }

  lemma Distribute(p: nat, x: int, y: int, z: int)
    ensures p * (x - y - z) == p * x - p * y - p * z
  {
  }

  lemma NoMultiple(p: int, d: int, x: int)
    requires p > 0 && p * d == x && -p < x < p
    ensures d == 0
  {
    if d >= 1 { AtLeast(p, d); }
    if d <= -1 { AtLeast(p, -d); }
  }

  lemma AtLeast(p: int, d: int)
    requires d >= 1 && p >= 0
    ensures p * d >= p && p * -d <= -p
  {
    assert p * (d - 1) >= 0;
  }

  lemma ModShift(a: nat, k: nat)
    ensures (a + 256 * k) % 256 == a % 256
  {
  }

  lemma CountWraps(a: nat, b: nat)
    ensures (a % TWO_64 + b) % TWO_64 == (a + b) % TWO_64
  {
  }

  lemma Powers()
    ensures Pow2_8(0) == 1 && Pow2_8(1) == 0x100 && Pow2_8(2) == 0x1_0000 && Pow2_8(3) == 0x100_0000
    ensures Pow2_8(4) == 0x1_0000_0000 && Pow2_8(5) == 0x100_0000_0000
    ensures Pow2_8(6) == 0x1_0000_0000_0000 && Pow2_8(7) == 0x100_0000_0000_0000
  {
    assert Pow2_8(2) == 0x1_0000 && Pow2_8(4) == 0x1_0000_0000 && Pow2_8(6) == 0x1_0000_0000_0000;
  }

  ghost predicate Scheduled(w: Words, block: Bytes)
    requires |block| == BLOCK && |w| <= 64
  {
    forall t :: 0 <= t < |w| ==> w[t] == Schedule(block, t)
  }

  lemma ScheduleNext(w: Words, block: Bytes)
    requires |block| == BLOCK && 16 <= |w| < 64 && Scheduled(w, block)
    ensures Scheduled(w + [NextWord(w[|w| - 16], w[|w| - 15], w[|w| - 7], w[|w| - 2])], block)
  {
    ScheduleAt(block, |w|);
  }

  lemma ScheduleAt(block: Bytes, t: nat)
    requires |block| == BLOCK && 16 <= t < 64
    ensures Schedule(block, t)
            == NextWord(Schedule(block, t - 16), Schedule(block, t - 15), Schedule(block, t - 7),
                Schedule(block, t - 2))
  {
  }

  /** The first two loops of the compression: sixteen words from the block, then the schedule. */
  method Expand(buf: array<bv8>) returns (w: Words)
    requires buf.Length == BLOCK
    ensures |w| == 64 && Scheduled(w, buf[..])
  {
    w := [];
    ghost var block := buf[..];
    for i := 0 to 16
      invariant |w| == i && Scheduled(w, block)
    {
      w := w + [Word4(buf[4 * i], buf[4 * i + 1], buf[4 * i + 2], buf[4 * i + 3])];
    }
    for i := 16 to 64
      invariant |w| == i && Scheduled(w, block)
    {
      ScheduleNext(w, block);
      w := w + [NextWord(w[i - 16], w[i - 15], w[i - 7], w[i - 2])];
    }
  }

  /** The eight length bytes, taken from the counter. */
  method LengthBytes(total: nat, ghost bits: nat) returns (tail: Bytes)
    requires total == bits % TWO_64
    ensures tail == Length64(bits)
  {
    tail := [];
    for i := 0 to 8
      invariant |tail| == i && forall k :: 0 <= k < i ==> tail[k] == LengthByte(bits, k)
    {
      LengthWraps(bits, i);
      tail := tail + [LengthByte(total, i)];
    }
  }

  /** The sixty-four rounds. */
  method Mix(start: Vars, w: Words, ghost block: Bytes) returns (v: Vars)
    requires |block| == BLOCK && |w| == 64 && Scheduled(w, block)
    ensures v == Rounds(start, block, 64)
  {
    v := start;
    for i := 0 to 64
      invariant v == Rounds(start, block, i)
    {
      v := Round(v, K[i], w[i]);
    }
  }

  class Sha256Ctx {
    const h: array<bv32>
    const buf: array<bv8>
    var lenBits: nat
    var buflen: nat
    ghost const step: (Words, Bytes) -> Words
    ghost var done: Bytes
    ghost var message: Bytes

    /** What was fed so far is the folded blocks plus what waits in the buffer. */
    ghost predicate Buffered()
      reads this, h, buf
    {
      && h.Length == 8 && buf.Length == BLOCK && IsCore(step)
      && buflen < BLOCK && |done| % BLOCK == 0
      && message == done + buf[..buflen]
      && h[..] == Fold(step, H0, done)
    }

    ghost predicate Valid()
      reads this, h, buf
    {
      Buffered() && lenBits == 8 * |message| % TWO_64
    }

    constructor ()
      ensures Valid() && fresh(h) && fresh(buf) && message == []
    {
      h := new bv32[8](i requires 0 <= i < 8 => H0[i]);
      buf := new bv8[64](_ => 0);
      lenBits, buflen, step, done, message := 0, 0, Core, [], [];
      new;
      assert h[..] == H0;
    }

    method CompressBlock()
      requires h.Length == 8 && buf.Length == BLOCK && IsCore(step)
      modifies h
      ensures h[..] == step(old(h[..]), buf[..])
    {
      var w := Expand(buf);
      var start := Vars(h[0], h[1], h[2], h[3], h[4], h[5], h[6], h[7]);
      var v := Mix(start, w, buf[..]);
      AddInto(v);
      assert h[..] == Core(old(h[..]), buf[..]);
    }

    method AddInto(v: Vars)
      requires h.Length == 8
      modifies h
      ensures h[..] == AddBack(v, old(h[..]))
    {
      var sum := AddBack(v, h[..]);
      forall i | 0 <= i < 8 {
        h[i] := sum[i];
      }
    }

    method Update(data: Bytes)
      requires Valid()
      modifies this, h, buf
      ensures Valid() && message == old(message) + data
    {
      var count := (lenBits + 8 * |data|) % TWO_64;
      CountWraps(8 * |message|, 8 * |data|);
      lenBits := count;
      Feed(data);
      assert |message| == |old(message)| + |data|;
    }

    method Feed(data: Bytes)
      requires Buffered()
      modifies this`buflen, this`done, this`message, h, buf
      ensures Buffered() && message == old(message) + data
    {
      var pos := 0;
      while pos < |data|
        invariant 0 <= pos <= |data| && Buffered()
        invariant message == old(message) + data[..pos]
      {
        var take := if BLOCK - buflen < |data| - pos then BLOCK - buflen else |data| - pos;
        assert data[..pos + take] == data[..pos] + data[pos..pos + take];
        Absorb(data[pos..pos + take]);
        pos := pos + take;
      }
      assert data[..pos] == data;
    }

    /** Copies what fits into the buffer and folds the block if that filled it. */
    method Absorb(part: Bytes)
      requires Buffered() && buflen + |part| <= BLOCK
      modifies this`buflen, this`done, this`message, h, buf
      ensures Buffered() && message == old(message) + part
    {
      Copy(part);
      buflen := buflen + |part|;
      message := message + part;
      assert message == done + buf[..buflen];
      if buflen == BLOCK { FoldBlock(); }
    }

    /** The full buffer joins the folded blocks. */
    method FoldBlock()
      requires h.Length == 8 && buf.Length == BLOCK == buflen && IsCore(step) && |done| % BLOCK == 0
      requires message == done + buf[..buflen] && h[..] == Fold(step, H0, done)
      modifies this`buflen, this`done, h
      ensures Buffered()
    {
      assert buf[..] == buf[..buflen];
      CompressBlock();
      FoldSnoc(step, H0, done, buf[..]);
      done := message;
      buflen := 0;
    }

    method Copy(part: Bytes)
      requires buf.Length == BLOCK && buflen + |part| <= BLOCK
      modifies buf
      ensures buf[..buflen + |part|] == old(buf[..buflen]) + part
    {
      forall i | 0 <= i < |part| {
        buf[buflen + i] := part[i];
      }
    }

    /** The length of what waits in the buffer is the fed length modulo the block size. */
    lemma Waiting()
      requires Buffered()
      ensures buflen == |message| % BLOCK
    {
      assert |message| == |done| + buflen;
    }

    /** One bit, then `z` zero bytes, were fed after `start`. */
    ghost predicate Padded(start: Bytes, z: nat)
      reads this, h, buf
    {
      Valid() && message == start + [0x80] + Zeros(z) && z <= Gap(start)
    }

    lemma PadDone(start: Bytes, z: nat)
      requires Padded(start, z)
      ensures buflen == 56 <==> z == Gap(start)
    {
      Waiting();
      PaddingIsLeast(|start|, z);
    }

    /** The padding bytes, fed through `Update` as any other data. */
    method PadOut()
      requires Valid()
      modifies this, h, buf
      ensures Valid() && message == old(message) + [0x80] + Zeros(Gap(old(message)))
    {
      ghost var start, z := message, 0;
      Update([0x80]);
      assert message == start + [0x80] + Zeros(0);
      PadDone(start, z);
      while buflen != 56
        invariant Padded(start, z) && (buflen == 56 <==> z == Gap(start))
        decreases Gap(start) - z
      {
        PadByte(start, z);
        z := z + 1;
        PadDone(start, z);
      }
    }

    method PadByte(ghost start: Bytes, ghost z: nat)
      requires Padded(start, z) && z < Gap(start)
      modifies this, h, buf
      ensures Padded(start, z + 1)
    {
      Update([0]);
      assert Zeros(z + 1) == Zeros(z) + [0];
      assert message == start + [0x80] + Zeros(z + 1);
    }

    method Final(out: array<bv8>)
      requires Valid() && out.Length == 32 && out != buf
      modifies this, h, buf, out
      ensures out[..] == Sha256(old(message))
    {
      ghost var start := message;
      var total := lenBits;
      PadOut();
      var tail := LengthBytes(total, 8 * |start|);
      Update(tail);
      assert message == Pad(start);
      Whole();
      WriteOut(out);
    }

    /** With an empty buffer the running hash is the fold of everything fed. */
    lemma Whole()
      requires Buffered() && |message| % BLOCK == 0
      ensures h[..] == Fold(Core, H0, message)
    {
      Waiting();
      assert message == done;
      FoldCore(step, done);
    }

    method WriteOut(out: array<bv8>)
      requires h.Length == 8 && out.Length == 32
      modifies out
      ensures out[..] == Digest(h[..])
    {
      ghost var words := h[..];
      for i := 0 to 8
        invariant h[..] == words && forall k :: 0 <= k < 4 * i ==> out[k] == OutByte(words, k)
      {
        WordBytes(words, i);
        WriteWord(out, i, h[i]);
      }
    }

    method WriteWord(out: array<bv8>, i: nat, w: bv32)
      requires i < 8 && out.Length == 32
      modifies out
      ensures out[4 * i] == ByteOf(w, 0) && out[4 * i + 1] == ByteOf(w, 1)
      ensures out[4 * i + 2] == ByteOf(w, 2) && out[4 * i + 3] == ByteOf(w, 3)
      ensures forall k :: 0 <= k < 4 * i ==> out[k] == old(out[k])
    {
      out[4 * i] := ByteOf(w, 0);
      out[4 * i + 1] := ByteOf(w, 1);
      out[4 * i + 2] := ByteOf(w, 2);
      out[4 * i + 3] := ByteOf(w, 3);
    }
  }

  lemma WordBytes(words: Words, i: nat)
    requires |words| == 8 && i < 8
    ensures OutByte(words, 4 * i) == ByteOf(words[i], 0) && OutByte(words, 4 * i + 1) == ByteOf(words[i], 1)
    ensures OutByte(words, 4 * i + 2) == ByteOf(words[i], 2) && OutByte(words, 4 * i + 3) == ByteOf(words[i], 3)
  {
  }

  function Concat(chunks: seq<Bytes>): Bytes
  {
    if chunks == [] then [] else Concat(chunks[..|chunks| - 1]) + chunks[|chunks| - 1]
  }

  /** However a message is cut into chunks, the digest is that of the whole. */
  method HashChunks(chunks: seq<Bytes>) returns (digest: Bytes)
    ensures digest == Sha256(Concat(chunks))
  {
    var ctx := new Sha256Ctx();
    for i := 0 to |chunks|
      invariant ctx.Valid() && fresh(ctx) && fresh(ctx.h) && fresh(ctx.buf) && ctx.message == Concat(chunks[..i])
    {
      ctx.Update(chunks[i]);
      assert chunks[..i + 1][..i] == chunks[..i];
    }
    assert chunks[..|chunks|] == chunks;
    var out := new bv8[32];
    ctx.Final(out);
    digest := out[..];
  }
}
