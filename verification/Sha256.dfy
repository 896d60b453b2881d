/**
  The buffered streaming context of src/nostril/sha256.c (`add`, `sha256_init`, `sha256_update`,
  `sha256_done`), proved to give the FIPS 180-4 digest however the message is cut into updates.
 */
module Sha256 {
  import opened Bits
  import opened Fips180
  import opened Memory
  import opened Sequences
  import opened Sha256Block

  // ---------- The streaming context ----------

  /** How many bytes of a message of `n` bytes are in whole blocks. */
  function Whole(n: nat): (w: nat)
    ensures w <= n && w % 64 == 0 && n - w == n % 64
  {
    n - n % 64
  }

  /** The state and the buffered bytes that stand for `m`: whole blocks hashed, the tail kept. */
  ghost predicate Holds(state: Regs, tail: seq<bv8>, m: seq<bv8>) {
    && state == HashBlocks(H0, m[..Whole(|m|)])
    && tail == m[Whole(|m|)..]
  }

  lemma TailLength(n: nat, k: nat)
    requires n % 64 + k < 64
    ensures (n + k) % 64 == n % 64 + k
  {}

  lemma HoldsMore(state: Regs, tail: seq<bv8>, m: seq<bv8>, more: seq<bv8>)
    requires Holds(state, tail, m) && |tail| + |more| < 64
    ensures Holds(state, tail + more, m + more)
  {
    hide HashBlocks;
    var n := |m| - |tail|;
    TailLength(|m|, |more|);
    assert Whole(|m + more|) == n;
    assert (m + more)[..n] == m[..n];
    assert (m + more)[n..] == m[n..] + more;
  }

  lemma HashLast(h: Regs, blocks: seq<bv8>, n: nat)
    requires |blocks| == n + 64 && n % 64 == 0
    ensures HashBlocks(h, blocks) == Compress(HashBlocks(h, blocks[..n]), blocks[n..])
  {
    hide Compress;
  }

  lemma HoldsBlock(state: Regs, tail: seq<bv8>, m: seq<bv8>, more: seq<bv8>)
    requires Holds(state, tail, m) && |tail| + |more| == 64
    ensures Holds(Compress(state, tail + more), [], m + more)
  {
    hide HashBlocks, Compress;
    var n := |m| - |tail|;
    var all := m + more;
    HashLast(H0, all, n);
    assert Whole(|all|) == |all|;
    assert all[..|all|] == all;
    assert all[..n] == m[..n];
    assert all[n..] == tail + more;
  }

  lemma HoldsAll(state: Regs, tail: seq<bv8>, m: seq<bv8>)
    requires Holds(state, tail, m) && |m| % 64 == 0
    ensures state == HashBlocks(H0, m)
  {
    hide HashBlocks;
    assert Whole(|m|) == |m|;
    assert m[..|m|] == m;
  }

  // The 64 bytes of padding that `sha256_done` takes a prefix of.
  const PAD: seq<bv8> := [0x80] + Zeros(63)

  /** How many of them it takes: up to 8 short of the next block. */
  function PadLength(bytes: nat): (n: nat)
    ensures n == 1 + ZeroCount(bytes) <= 64
  {
    PadArithmetic(bytes);
    1 + (128 - 8 - bytes % 64 - 1) % 64
  }

  lemma PadArithmetic(bytes: nat)
    ensures (128 - 8 - bytes % 64 - 1) % 64 == ZeroCount(bytes)
  {
    var q, r := bytes / 64, bytes % 64;
    assert 55 - bytes == 55 - r + 64 * (-q);
    if r <= 55 {
      assert (55 - bytes) % 64 == 55 - r;
    } else {
      assert (55 - bytes) % 64 == 119 - r;
    }
  }

  lemma PadBytes(k: nat)
    requires k < 64
    ensures PAD[..1 + k] == [0x80] + Zeros(k)
  {}

  lemma PadUnfolded(msg: seq<bv8>, k: nat)
    requires |msg| < MESSAGE_BYTES_LIMIT && k == ZeroCount(|msg|)
    ensures Pad(msg) == msg + [0x80] + Zeros(k) + BigEndian(8, 8 * |msg|)
  {
    hide BigEndian, Zeros, ZeroCount, ReachesLengthField;
  }

  /** What `sha256_done` takes from its constant block. */
  function PadStart(bytes: nat): (p: seq<bv8>)
    ensures p == [0x80] + Zeros(ZeroCount(bytes))
  {
    PadBytes(ZeroCount(bytes));
    PAD[..PadLength(bytes)]
  }

  lemma PadForm(msg: seq<bv8>)
    requires |msg| < MESSAGE_BYTES_LIMIT
    ensures msg + PadStart(|msg|) + BigEndian(8, 8 * |msg|) == Pad(msg)
  {
    hide BigEndian, Zeros, ZeroCount, PadStart, Pad;
    var k := ZeroCount(|msg|);
    PadUnfolded(msg, k);
    Assoc(msg, [0x80], Zeros(k));
  }

  class Context {
    const s: array<bv32>
    const buf: array<bv8>
    var bytes: nat
    // Everything hashed so far.
    ghost var msg: seq<bv8>

    ghost predicate Valid()
      reads this, s, buf
    {
      && s.Length == 8 && buf.Length == 64
      && bytes == |msg|
      && Holds(ToRegs(s[..]), buf[..|msg| % 64], msg)
    }

    /** sha256_init */
    constructor ()
      ensures Valid() && msg == []
      ensures fresh(s) && fresh(buf)
    {
      s := new bv32[8] [0x6a09e667, 0xbb67ae85, 0x3c6ef372, 0xa54ff53a, 0x510e527f, 0x9b05688c, 0x1f83d9ab, 0x5be0cd19];
      buf := new bv8[64](_ => 0);
      bytes := 0;
      msg := [];
    }

    /** The last step of `add`: what does not complete a block stays in the buffer. */
    method Keep(part: seq<bv8>)
      requires Valid() && |msg| % 64 + |part| < 64 && |msg| + |part| < SIZE_LIMIT
      modifies this, buf
      ensures Valid() && msg == old(msg) + part
    {
      hide Holds, ToRegs, Splice;
      var bufsize := bytes % 64;
      HoldsMore(ToRegs(s[..]), buf[..bufsize], msg, part);
      SplicePrefix(buf[..], bufsize, part);
      TailLength(|msg|, |part|);
      Copy(buf, bufsize, part);
      bytes := bytes + |part|;
      msg := msg + part;
    }

    /** The first step of `add`: fill the buffer and process it. */
    method Complete(part: seq<bv8>)
      requires Valid() && |msg| % 64 + |part| == 64 && |msg| + |part| < SIZE_LIMIT
      modifies this, s, buf
      ensures Valid() && msg == old(msg) + part && |msg| % 64 == 0
    {
      hide Holds, Compress, ToRegs, Splice;
      var bufsize := bytes % 64;
      HoldsBlock(ToRegs(s[..]), buf[..bufsize], msg, part);
      SpliceEnd(buf[..], bufsize, part);
      Copy(buf, bufsize, part);
      Transform(s, buf[..]);
      bytes := bytes + |part|;
      msg := msg + part;
      assert buf[..0] == [];
    }

    /** The loop body of `add`: a whole chunk, straight from the source or through the buffer. */
    method Chunk(chunk: seq<bv8>)
      requires Valid() && |msg| % 64 == 0 && |chunk| == 64 && |msg| + 64 < SIZE_LIMIT
      modifies this, s, buf
      ensures Valid() && msg == old(msg) + chunk && |msg| % 64 == 0
    {
      hide Holds, Compress, ToRegs;
      assert buf[..0] == [];
      HoldsBlock(ToRegs(s[..]), [], msg, chunk);
      assert [] + chunk == chunk;
      // The branch is taken on the alignment of the source pointer, which the model leaves open.
      if * {
        Transform(s, chunk);
      } else {
        Copy(buf, 0, chunk);
        assert buf[..] == chunk;
        Transform(s, buf[..]);
      }
      bytes := bytes + 64;
      msg := msg + chunk;
      assert buf[..0] == [];
    }

    method Add(data: seq<bv8>)
      requires Valid() && |msg| + |data| < SIZE_LIMIT
      modifies this, s, buf
      ensures Valid() && msg == old(msg) + data
    {
      hide Holds, ToRegs;
      ghost var before := msg;
      var p := 0;
      var bufsize := bytes % 64;

      if bufsize + |data| >= 64 {
        p := 64 - bufsize;
        Complete(data[..p]);
        bufsize := 0;
      }

      while |data| - p >= 64
        invariant Valid() && p <= |data|
        invariant msg == before + data[..p]
        invariant bufsize == |msg| % 64 && (bufsize > 0 ==> bufsize + |data| - p < 64)
      {
        TakeMore(before, data, p, p + 64);
        Chunk(data[p..p + 64]);
        p := p + 64;
      }

      MoveAcross(before, data, p);
      if p < |data| {
        Keep(data[p..]);
      }
    }

    /** sha256_update */
    method Update(data: seq<bv8>)
      requires Valid() && |msg| + |data| < SIZE_LIMIT && bytes != SIZE_LIMIT - 1
      modifies this, s, buf
      ensures Valid() && msg == old(msg) + data
    {
      Add(data);
    }

    /** sha256_done: the context is not valid afterwards. */
    method Done() returns (digest: seq<bv8>)
      requires Valid() && |msg| < MESSAGE_BYTES_LIMIT
      modifies this, s, buf
      ensures digest == Digest(old(msg))
    {
      hide Holds, Pad, BigEndian, WordBytes;
      var sizedesc := BigEndian(8, 8 * bytes);
      var padLen := PadLength(bytes);
      PadForm(msg);
      assert PAD[..padLen] == PadStart(bytes);
      Add(PAD[..padLen]);
      Add(sizedesc);
      HoldsAll(ToRegs(s[..]), buf[..|msg| % 64], msg);
      digest := WordBytes(s[0]) + WordBytes(s[1]) + WordBytes(s[2]) + WordBytes(s[3])
      + WordBytes(s[4]) + WordBytes(s[5]) + WordBytes(s[6]) + WordBytes(s[7]);
      bytes := SIZE_LIMIT - 1;
    }
  }

  lemma {:induction false} FlattenGrows(chunks: seq<seq<bv8>>, i: nat)
    requires i <= |chunks|
    ensures |Flatten(chunks[..i])| <= |Flatten(chunks)|
    decreases |chunks| - i
  {
    if i == |chunks| {
      assert chunks[..i] == chunks;
    } else {
      FlattenNext(chunks, i);
      FlattenGrows(chunks, i + 1);
    }
  }

  /** The documented use of the API: one update per piece, in order. Every cut gives the same digest. */
  method HashAll(chunks: seq<seq<bv8>>) returns (digest: seq<bv8>)
    requires |Flatten(chunks)| < MESSAGE_BYTES_LIMIT
    ensures digest == Digest(Flatten(chunks))
  {
    hide Holds, Digest, ToRegs;
    var ctx := new Context();
    for i := 0 to |chunks|
      invariant ctx.Valid() && ctx.msg == Flatten(chunks[..i])
      invariant fresh(ctx) && fresh(ctx.s) && fresh(ctx.buf)
    {
      FlattenNext(chunks, i);
      FlattenGrows(chunks, i + 1);
      ctx.Update(chunks[i]);
    }
    assert chunks[..|chunks|] == chunks;
    digest := ctx.Done();
  }

  /** sha256 */
  method Sha256(data: seq<bv8>) returns (digest: seq<bv8>)
    requires |data| < MESSAGE_BYTES_LIMIT
    ensures digest == Digest(data)
  {
    hide Holds, Digest, ToRegs;
    var ctx := new Context();
    ctx.Update(data);
    assert [] + data == data;
    digest := ctx.Done();
  }
}
