/** OCB2 over a 16-byte block cipher: the sealing and opening loops, their recursive
    specification, and the proof that each undoes the other. The cipher itself is any
    pair of inverse functions on blocks. */
module Ocb2 {
  import opened Bytes

  type octet = bv8

  const BLOCK: nat := 16

  type Block = b: seq<octet> | |b| == BLOCK witness seq(BLOCK, _ => 0)

  /** One keyed block cipher. */
  datatype BlockCipher = BlockCipher(enc: Block -> Block, dec: Block -> Block) {
    ghost predicate Decrypts() {
      forall b: Block :: dec(enc(b)) == b
    }

    ghost predicate Encrypts() {
      forall b: Block :: enc(dec(b)) == b
    }
  }

  function Zeros(n: nat): (s: seq<octet>)
    ensures |s| == n && forall i :: 0 <= i < n ==> s[i] == 0
  {
    seq(n, _ => 0)
  }

  // ----- block arithmetic -----

  function XorBlock(a: Block, b: Block): Block {
    seq(BLOCK, i requires 0 <= i < BLOCK => a[i] ^ b[i])
  }

  lemma XorBlockUndo(a: Block, b: Block)
    ensures XorBlock(XorBlock(a, b), b) == a
    ensures XorBlock(b, XorBlock(b, a)) == a
  {
    forall i | 0 <= i < BLOCK
      ensures (a[i] ^ b[i]) ^ b[i] == a[i] == b[i] ^ (b[i] ^ a[i])
    {
    }
  }

  function TopBit(b: octet): octet {
    b >> 7
  }

  function ShiftByte(b: octet, bit: octet): octet {
    (b << 1) | bit
  }

  /** The bit shifted into byte `i` from the byte to its right. */
  function ShiftIn(bs: seq<octet>, i: nat): octet {
    if i + 1 < |bs| then TopBit(bs[i + 1]) else 0
  }

  /** A whole byte string moved left by one bit; the top bit falls off. */
  function ShiftLeft(bs: seq<octet>): (r: seq<octet>)
    ensures |r| == |bs|
  {
    seq(|bs|, i requires 0 <= i < |bs| => ShiftByte(bs[i], ShiftIn(bs, i)))
  }

  const REDUCTION: octet := 0x87

  /** The block with its last byte combined with the reduction constant. */
  function Reduce(b: Block): Block {
    b[BLOCK - 1 := b[BLOCK - 1] ^ REDUCTION]
  }

  /** Doubling in GF(2^128): shift left, then reduce if a bit fell off. */
  function Double(b: Block): Block {
    if TopBit(b[0]) == 1 then Reduce(ShiftLeft(b)) else ShiftLeft(b)
  }

  /** Tripling: the block combined with its double. */
  function Triple(b: Block): Block {
    XorBlock(b, Double(b))
  }

  method Times2(block: Block) returns (out: Block)
    ensures out == Double(block)
  {
    var carry := TopBit(block[0]);
    var o: seq<octet> := [];
    for i := 0 to BLOCK
      invariant |o| == i
      invariant forall k :: 0 <= k < i ==> o[k] == ShiftLeft(block)[k]
    {
      var next := if i + 1 < BLOCK then TopBit(block[i + 1]) else 0;
      o := o + [ShiftByte(block[i], next)];
    }
    assert o == ShiftLeft(block);
    if carry == 1 {
      o := o[BLOCK - 1 := o[BLOCK - 1] ^ REDUCTION];
    }
    out := o;
  }

  /** The number a byte string spells, most significant byte first. */
  function OctetsValue(bs: seq<octet>): nat {
    if bs == [] then 0 else OctetsValue(bs[..|bs| - 1]) * 256 + bs[|bs| - 1] as int
  }

  lemma {:induction false} OctetsBound(bs: seq<octet>)
    ensures OctetsValue(bs) < Pow(256, |bs|)
  {
    if bs != [] {
      OctetsBound(bs[..|bs| - 1]);
    }
  }

  lemma OctetsSnoc(bs: seq<octet>, last: octet)
    ensures OctetsValue(bs + [last]) == OctetsValue(bs) * 256 + last as int
  {
    assert (bs + [last])[..|bs|] == bs;
  }

  /** Shifting one byte left doubles it, and the bit that falls off is its top bit. */
  lemma ShiftByteDoubles(b: octet, bit: octet)
    requires bit <= 1
    ensures ShiftByte(b, bit) as int + 256 * TopBit(b) as int == 2 * b as int + bit as int
    ensures ShiftByte(b, bit) as int == ShiftByte(b, 0) as int + bit as int
    ensures TopBit(b) <= 1
  {
    if b < 128 {
      assert TopBit(b) == 0;
      assert ShiftByte(b, bit) == b + b + bit;
    } else {
      assert TopBit(b) == 1;
      assert ShiftByte(b, bit) == (b - 128) + (b - 128) + bit;
    }
  }

  /** Only the byte before `last` sees the bit that moves out of it. */
  lemma ShiftLeftSnoc(front: seq<octet>, last: octet)
    requires front != []
    ensures OctetsValue(ShiftLeft(front + [last]))
         == (OctetsValue(ShiftLeft(front)) + TopBit(last) as int) * 256 + ShiftByte(last, 0) as int
  {
    var n := |front|;
    var f, s := ShiftLeft(front), ShiftLeft(front + [last]);
    var top, x, moved := f[..n - 1], f[n - 1], ShiftByte(front[n - 1], TopBit(last));
    assert f == top + [x];
    assert s == (top + [moved]) + [ShiftByte(last, 0)];
    ShiftByteDoubles(last, 0);
    ShiftByteDoubles(front[n - 1], TopBit(last));
    OctetsSnoc(top, x);
    OctetsSnoc(top, moved);
    OctetsSnoc(top + [moved], ShiftByte(last, 0));
  }

  /** Shifting the bytes doubles the number and drops the top bit. */
  lemma {:induction false} ShiftLeftDoubles(bs: seq<octet>)
    requires bs != []
    ensures OctetsValue(ShiftLeft(bs)) + DroppedBit(bs) == 2 * OctetsValue(bs)
  {
    var n := |bs|;
    var front, last := bs[..n - 1], bs[n - 1];
    assert bs == front + [last];
    if n == 1 {
      ShiftByteDoubles(last, 0);
      assert ShiftLeft(bs) == [] + [ShiftByte(last, 0)];
      OctetsSnoc([], ShiftByte(last, 0));
      OctetsSnoc([], last);
      assert Pow(256, 1) == 256;
    } else {
      ShiftLeftDoubles(front);
      ShiftLeftDoublesSnoc(front, last);
    }
  }

  lemma ShiftLeftDoublesSnoc(front: seq<octet>, last: octet)
    requires front != [] && OctetsValue(ShiftLeft(front)) + DroppedBit(front) == 2 * OctetsValue(front)
    ensures OctetsValue(ShiftLeft(front + [last])) + DroppedBit(front + [last]) == 2 * OctetsValue(front + [last])
  {
    OctetsSnoc(front, last);
    ShiftByteDoubles(last, 0);
    ShiftLeftSnoc(front, last);
    DroppedBitSnoc(front, last);
  }

  lemma DroppedBitSnoc(front: seq<octet>, last: octet)
    requires front != []
    ensures DroppedBit(front + [last]) == 256 * DroppedBit(front)
  {
    assert (front + [last])[0] == front[0];
  }

  /** What the bit that falls off was worth. */
  function DroppedBit(bs: seq<octet>): nat
    requires bs != []
  {
    if TopBit(bs[0]) == 0 then 0 else Pow(256, |bs|)
  }

  const TWO_TO_128: nat := 0x1_0000_0000_0000_0000_0000_0000_0000_0000

  lemma BlockModulus()
    ensures Pow(256, BLOCK) == TWO_TO_128
  {
    assert Pow(256, 4) == 0x1_0000_0000;
    assert Pow(256, 8) == 0x1_0000_0000_0000_0000;
    assert Pow(256, 12) == 0x1_0000_0000_0000_0000_0000_0000;
  }

  /** `Double` is the subkey doubling of section 2.3 of RFC 4493. Read as a 128-bit number L,
      the result is L << 1 when the top bit of L is clear; otherwise it is L << 1 (less the bit
      that fell off) combined with the constant 0x87. */
  lemma DoubleIsRfc4493(b: Block)
    ensures 2 * OctetsValue(b) < TWO_TO_128 ==> OctetsValue(Double(b)) == 2 * OctetsValue(b)
    ensures 2 * OctetsValue(b) >= TWO_TO_128 ==>
              exists shifted: Block :: OctetsValue(shifted) == 2 * OctetsValue(b) - TWO_TO_128 &&
                  Double(b) == shifted[15 := shifted[15] ^ 0x87]
  {
    BlockModulus();
    ShiftLeftDoubles(b);
    OctetsBound(ShiftLeft(b));
    ShiftByteDoubles(b[0], 0);
  }

  lemma ShiftByteInjective(a: octet, b: octet, p: octet, q: octet)
    requires p <= 1 && q <= 1 && ShiftByte(a, p) == ShiftByte(b, q) && TopBit(a) == TopBit(b)
    ensures a == b && p == q
  {
  }

  /** From left to right, equal shifted strings with equal top bits are equal byte by byte. */
  lemma {:induction false} ShiftLeftInjective(a: Block, b: Block, n: nat)
    requires n < BLOCK && ShiftLeft(a) == ShiftLeft(b) && TopBit(a[0]) == TopBit(b[0])
    ensures a[..n + 1] == b[..n + 1] && ShiftIn(a, n) == ShiftIn(b, n)
  {
    if n != 0 {
      ShiftLeftInjective(a, b, n - 1);
    }
    var p, q := ShiftIn(a, n), ShiftIn(b, n);
    assert ShiftLeft(a)[n] == ShiftByte(a[n], p) && ShiftLeft(b)[n] == ShiftByte(b[n], q);
    assert p <= 1 && q <= 1 && TopBit(a[n]) == TopBit(b[n]);
    ShiftByteInjective(a[n], b[n], p, q);
    assert a[..n + 1] == a[..n] + [a[n]] && b[..n + 1] == b[..n] + [b[n]];
  }

  /** Doubling loses nothing: two blocks with the same double are the same block. */
  lemma DoubleInjective(a: Block, b: Block)
    requires Double(a) == Double(b)
    ensures a == b
  {
    var x, y := ShiftLeft(a)[BLOCK - 1], ShiftLeft(b)[BLOCK - 1];
    // A reduced double is odd and an unreduced one even, so both went the same way.
    assert x & 1 == 0 && y & 1 == 0;
    assert x != y ^ REDUCTION && y != x ^ REDUCTION;
    assert Double(a)[BLOCK - 1] == Double(b)[BLOCK - 1];
    assert TopBit(a[0]) == 1 <==> TopBit(b[0]) == 1;
    assert x == y;
    assert ShiftLeft(a) == ShiftLeft(b) by {
      forall i | 0 <= i < BLOCK ensures ShiftLeft(a)[i] == ShiftLeft(b)[i] {
        assert Double(a)[i] == Double(b)[i];
      }
    }
    ShiftByteDoubles(a[0], 0);
    ShiftByteDoubles(b[0], 0);
    ShiftLeftInjective(a, b, BLOCK - 1);
  }

  // ----- the mode of operation -----

  /** The block that carries the bit length of the final chunk: a big-endian u64 in
      the right half. A chunk has at most 16 bytes, so only the last byte is used. */
  function LengthBlock(len: nat): Block
    requires len <= BLOCK
  {
    Zeros(BLOCK - 1) + [(len * 8) as octet]
  }

  /** The 16 bytes at `off`. */
  function Chunk(s: seq<octet>, off: nat): Block
    requires off + BLOCK <= |s|
  {
    s[off..off + BLOCK]
  }

  /** A final chunk completed with the bytes of `fill` after it. */
  function Complete(s: seq<octet>, fill: Block): Block
    requires |s| <= BLOCK
  {
    s + fill[|s|..]
  }

  /** Ciphertext and tag of `plain`, given the running offset and checksum. */
  function Seal(c: BlockCipher, delta: Block, checksum: Block, plain: seq<octet>): (r: (seq<octet>, Block))
    ensures |r.0| == |plain|
    decreases |plain|
  {
    var d := Double(delta);
    if |plain| > BLOCK then
      var chunk := Chunk(plain, 0);
      var rest := Seal(c, d, XorBlock(checksum, chunk), plain[BLOCK..]);
      (XorBlock(d, c.enc(XorBlock(d, chunk))) + rest.0, rest.1)
    else
      var pad := c.enc(XorBlock(LengthBlock(|plain|), d));
      var last := Complete(plain, pad);
      (XorBlock(pad, last)[..|plain|], c.enc(XorBlock(Triple(d), XorBlock(checksum, last))))
  }

  /** Plaintext and tag of `cipher`, given the running offset and checksum. */
  function Open(c: BlockCipher, delta: Block, checksum: Block, cipher: seq<octet>): (r: (seq<octet>, Block))
    ensures |r.0| == |cipher|
    decreases |cipher|
  {
    var d := Double(delta);
    if |cipher| > BLOCK then
      var chunk := Chunk(cipher, 0);
      var p := XorBlock(d, c.dec(XorBlock(d, chunk)));
      var rest := Open(c, d, XorBlock(checksum, p), cipher[BLOCK..]);
      (p + rest.0, rest.1)
    else
      var pad := c.enc(XorBlock(LengthBlock(|cipher|), d));
      var last := XorBlock(pad, Complete(cipher, Zeros(BLOCK)));
      (last[..|cipher|], c.enc(XorBlock(Triple(d), XorBlock(checksum, last))))
  }

  function SealUnder(c: BlockCipher, nonce: Block, plain: seq<octet>): (seq<octet>, Block) {
    Seal(c, c.enc(nonce), Zeros(BLOCK), plain)
  }

  function OpenUnder(c: BlockCipher, nonce: Block, cipher: seq<octet>): (seq<octet>, Block) {
    Open(c, c.enc(nonce), Zeros(BLOCK), cipher)
  }

  /** A sealed final chunk, padded with zeros and combined with the pad, is the padded plaintext. */
  lemma LastChunkOpens(pad: Block, plain: seq<octet>)
    requires |plain| <= BLOCK
    ensures var last := Complete(plain, pad);
            XorBlock(pad, Complete(XorBlock(pad, last)[..|plain|], Zeros(BLOCK))) == last
  {
    var last := Complete(plain, pad);
    XorBlockUndo(last, pad);
    var z := Complete(XorBlock(pad, last)[..|plain|], Zeros(BLOCK));
    forall i | 0 <= i < BLOCK
      ensures XorBlock(pad, z)[i] == last[i]
    {
      if i < |plain| {
        assert XorBlock(pad, XorBlock(pad, last))[i] == last[i];
      }
    }
  }

  /** Opening undoes sealing for every length, and both sides compute the same tag. */
  lemma {:induction false} OpenUndoesSeal(c: BlockCipher, delta: Block, checksum: Block, plain: seq<octet>)
    requires c.Decrypts()
    ensures Open(c, delta, checksum, Seal(c, delta, checksum, plain).0) == (plain, Seal(c, delta, checksum, plain).1)
    decreases |plain|
  {
    var d := Double(delta);
    var sealed := Seal(c, delta, checksum, plain).0;
    if |plain| > BLOCK {
      var chunk := Chunk(plain, 0);
      var enc := c.enc(XorBlock(d, chunk));
      assert sealed[..BLOCK] == XorBlock(d, enc);
      assert sealed[BLOCK..] == Seal(c, d, XorBlock(checksum, chunk), plain[BLOCK..]).0;
      XorBlockUndo(enc, d);
      XorBlockUndo(chunk, d);
      OpenUndoesSeal(c, d, XorBlock(checksum, chunk), plain[BLOCK..]);
      assert plain == chunk + plain[BLOCK..];
    } else {
      LastChunkOpens(c.enc(XorBlock(LengthBlock(|plain|), d)), plain);
    }
  }

  /** Sealing undoes opening, so every byte string is the ciphertext of exactly one plaintext. */
  lemma {:induction false} SealUndoesOpen(c: BlockCipher, delta: Block, checksum: Block, cipher: seq<octet>)
    requires c.Encrypts()
    ensures Seal(c, delta, checksum, Open(c, delta, checksum, cipher).0) == (cipher, Open(c, delta, checksum, cipher).1)
    decreases |cipher|
  {
    var d := Double(delta);
    var plain := Open(c, delta, checksum, cipher).0;
    if |cipher| > BLOCK {
      var chunk := Chunk(cipher, 0);
      var dec := c.dec(XorBlock(d, chunk));
      var p := XorBlock(d, dec);
      assert plain[..BLOCK] == p;
      assert plain[BLOCK..] == Open(c, d, XorBlock(checksum, p), cipher[BLOCK..]).0;
      XorBlockUndo(dec, d);
      XorBlockUndo(chunk, d);
      SealUndoesOpen(c, d, XorBlock(checksum, p), cipher[BLOCK..]);
      assert cipher == chunk + cipher[BLOCK..];
    } else {
      var n := |cipher|;
      var pad := c.enc(XorBlock(LengthBlock(n), d));
      var z := Complete(cipher, Zeros(BLOCK));
      var last := XorBlock(pad, z);
      assert plain + pad[n..] == last;
      XorBlockUndo(z, pad);
    }
  }

  /** The offset used for the chunk at `off`: the encrypted nonce doubled off / 16 + 1 times. */
  function OffsetAt(delta: Block, off: nat): Block
    decreases off
  {
    if off < BLOCK then Double(delta) else OffsetAt(Double(delta), off - BLOCK)
  }

  /** One turn of the sealing recursion, seen from position `off` of the whole plaintext. */
  lemma SealStep(c: BlockCipher, delta: Block, checksum: Block, s: seq<octet>, off: nat)
    requires off + BLOCK < |s|
    ensures var d, chunk := Double(delta), Chunk(s, off);
            var rest := Seal(c, d, XorBlock(checksum, chunk), s[off + BLOCK..]);
            Seal(c, delta, checksum, s[off..]) == (XorBlock(d, c.enc(XorBlock(d, chunk))) + rest.0, rest.1)
  {
    assert Chunk(s[off..], 0) == Chunk(s, off) && s[off..][BLOCK..] == s[off + BLOCK..];
  }

  /** One turn of the opening recursion, seen from position `off` of the whole ciphertext. */
  lemma OpenStep(c: BlockCipher, delta: Block, checksum: Block, s: seq<octet>, off: nat)
    requires off + BLOCK < |s|
    ensures var d, chunk := Double(delta), Chunk(s, off);
            var p := XorBlock(d, c.dec(XorBlock(d, chunk)));
            var rest := Open(c, d, XorBlock(checksum, p), s[off + BLOCK..]);
            Open(c, delta, checksum, s[off..]) == (p + rest.0, rest.1)
  {
    assert Chunk(s[off..], 0) == Chunk(s, off) && s[off..][BLOCK..] == s[off + BLOCK..];
  }

  lemma ChunkBeyond(first: Block, rest: seq<octet>, off: nat)
    requires off + BLOCK <= |rest|
    ensures Chunk(first + rest, off + BLOCK) == Chunk(rest, off)
  {
  }

  /** Every full chunk but the last is enciphered on its own between two copies of its offset. */
  lemma {:induction false} SealedChunk(c: BlockCipher, delta: Block, checksum: Block, plain: seq<octet>, off: nat)
    requires off % BLOCK == 0 && off + BLOCK < |plain|
    ensures var o := OffsetAt(delta, off);
            Chunk(Seal(c, delta, checksum, plain).0, off) == XorBlock(o, c.enc(XorBlock(o, Chunk(plain, off))))
    decreases off
  {
    hide Double, XorBlock, Triple;
    var d, chunk, tail := Double(delta), Chunk(plain, 0), plain[BLOCK..];
    var sum := XorBlock(checksum, chunk);
    var first, rest := XorBlock(d, c.enc(XorBlock(d, chunk))), Seal(c, d, sum, tail).0;
    assert Seal(c, delta, checksum, plain).0 == first + rest;
    if off == 0 {
      assert Chunk(first + rest, 0) == first;
    } else {
      SealedChunk(c, d, sum, tail, off - BLOCK);
      ChunkBeyond(first, rest, off - BLOCK);
      assert plain == chunk + tail;
      ChunkBeyond(chunk, tail, off - BLOCK);
    }
  }

  // ----- the last chunk and the tag, byte by byte -----

  /** A block doubled `n` times. */
  function Doubled(b: Block, n: nat): Block {
    if n == 0 then b else Double(Doubled(b, n - 1))
  }

  lemma {:induction false} DoubledFirst(b: Block, n: nat)
    ensures Doubled(Double(b), n) == Doubled(b, n + 1)
  {
    if n != 0 {
      DoubledFirst(b, n - 1);
    }
  }

  /** How many chunks come before the last of `len` bytes. */
  function ChunksBefore(len: nat): (m: nat)
    ensures BLOCK * m <= len <= BLOCK * m + BLOCK && (m > 0 ==> len > BLOCK * m)
  {
    if len <= BLOCK then 0 else 1 + ChunksBefore(len - BLOCK)
  }

  /** All bytes at place `k` of the first `m` chunks of `s`, combined. */
  function Column(s: seq<octet>, m: nat, k: nat): octet
    requires BLOCK * m <= |s| && k < BLOCK
  {
    if m == 0 then 0 else Column(s, m - 1, k) ^ s[BLOCK * (m - 1) + k]
  }

  lemma {:induction false} ColumnFirst(s: seq<octet>, m: nat, k: nat)
    requires 0 < m && BLOCK * m <= |s| && k < BLOCK
    ensures Column(s, m, k) == s[k] ^ Column(s[BLOCK..], m - 1, k)
  {
    if m == 1 {
      assert Column(s, 0, k) == 0 && Column(s[BLOCK..], 0, k) == 0;
      XorZero(s[k]);
    } else {
      ColumnFirst(s, m - 1, k);
      var x, y := Column(s[BLOCK..], m - 2, k), s[BLOCK * (m - 1) + k];
      assert s[BLOCK..][BLOCK * (m - 2) + k] == y;
      XorAssociates(s[k], x, y);
    }
  }

  lemma XorZero(a: octet)
    ensures a ^ 0 == a && 0 ^ a == a
  {
  }

  lemma XorAssociates(a: octet, b: octet, c: octet)
    ensures (a ^ b) ^ c == a ^ (b ^ c)
  {
  }

  /** The length block spells the number of bits of the last chunk, most significant byte first. */
  lemma LengthIsBigEndian(len: nat)
    requires len <= BLOCK
    ensures OctetsValue(LengthBlock(len)) == 8 * len
  {
    hide OctetsValue;
    var front := Zeros(BLOCK - 1);
    ZerosValue(front);
    OctetsSnoc(front, (len * 8) as octet);
    SmallOctet(len);
  }

  lemma SmallOctet(len: nat)
    requires len <= BLOCK
    ensures ((len * 8) as octet) as int == 8 * len
  {
    match len {
      case 0 => assert (0 as octet) as int == 0;
      case 1 => assert (8 as octet) as int == 8;
      case 2 => assert (16 as octet) as int == 16;
      case 3 => assert (24 as octet) as int == 24;
      case 4 => assert (32 as octet) as int == 32;
      case 5 => assert (40 as octet) as int == 40;
      case 6 => assert (48 as octet) as int == 48;
      case 7 => assert (56 as octet) as int == 56;
      case 8 => assert (64 as octet) as int == 64;
      case 9 => assert (72 as octet) as int == 72;
      case 10 => assert (80 as octet) as int == 80;
      case 11 => assert (88 as octet) as int == 88;
      case 12 => assert (96 as octet) as int == 96;
      case 13 => assert (104 as octet) as int == 104;
      case 14 => assert (112 as octet) as int == 112;
      case 15 => assert (120 as octet) as int == 120;
      case 16 => assert (128 as octet) as int == 128;
    }
  }

  lemma {:induction false} ZerosValue(s: seq<octet>)
    requires forall i :: 0 <= i < |s| ==> s[i] == 0
    ensures OctetsValue(s) == 0
  {
    if s != [] {
      ZerosValue(s[..|s| - 1]);
    }
  }

  /** The pad of a last chunk of `len` bytes under offset `o`: the enciphered bit length combined with it. */
  function PadOf(c: BlockCipher, o: Block, len: nat): Block
    requires len <= BLOCK
  {
    c.enc(XorBlock(LengthBlock(len), o))
  }

  /** Byte `k` of the last chunk, or of its pad behind it. */
  function Padded(plain: seq<octet>, m: nat, pad: Block, k: nat): octet
    requires BLOCK * m <= |plain| && k < BLOCK
  {
    if BLOCK * m + k < |plain| then plain[BLOCK * m + k] else pad[k]
  }

  /** Byte `k` of what is enciphered into the tag: of the last offset `o`, its double, and every chunk,
      the last one padded. */
  function TagByte(o: Block, checksum: Block, plain: seq<octet>, m: nat, pad: Block, k: nat): octet
    requires BLOCK * m <= |plain| && k < BLOCK
  {
    o[k] ^ Double(o)[k] ^ (checksum[k] ^ Column(plain, m, k) ^ Padded(plain, m, pad, k))
  }

  function TagInput(c: BlockCipher, delta: Block, checksum: Block, plain: seq<octet>): Block {
    var m := ChunksBefore(|plain|);
    var o := Doubled(delta, m + 1);
    var pad := PadOf(c, o, |plain| - BLOCK * m);
    seq(BLOCK, k requires 0 <= k < BLOCK => TagByte(o, checksum, plain, m, pad, k))
  }

  lemma {:induction false} TagInputShifts(c: BlockCipher, delta: Block, checksum: Block, plain: seq<octet>)
    requires |plain| > BLOCK
    ensures TagInput(c, delta, checksum, plain) ==
              TagInput(c, Double(delta), XorBlock(checksum, Chunk(plain, 0)), plain[BLOCK..])
  {
    hide Double, PadOf, Column;
    var m, tail, sum := ChunksBefore(|plain|), plain[BLOCK..], XorBlock(checksum, Chunk(plain, 0));
    assert ChunksBefore(|tail|) == m - 1;
    DoubledFirst(delta, m);
    var o := Doubled(delta, m + 1);
    var pad := PadOf(c, o, |plain| - BLOCK * m);
    var a, b := TagInput(c, delta, checksum, plain), TagInput(c, Double(delta), sum, tail);
    forall k | 0 <= k < BLOCK ensures a[k] == b[k] {
      ColumnFirst(plain, m, k);
      assert sum[k] == checksum[k] ^ plain[k];
      XorAssociates(checksum[k], plain[k], Column(tail, m - 1, k));
      assert Padded(plain, m, pad, k) == Padded(tail, m - 1, pad, k);
    }
  }

  /** The tag is the enciphered combination of the last offset, its double, and the XOR of all chunks
      with the last one completed by its pad. */
  lemma {:induction false} SealedTag(c: BlockCipher, delta: Block, checksum: Block, plain: seq<octet>)
    ensures Seal(c, delta, checksum, plain).1 == c.enc(TagInput(c, delta, checksum, plain))
    decreases |plain|
  {
    hide Double, TagInput, XorBlock;
    if |plain| > BLOCK {
      SealedTag(c, Double(delta), XorBlock(checksum, Chunk(plain, 0)), plain[BLOCK..]);
      TagInputShifts(c, delta, checksum, plain);
    } else {
      LastTagInput(c, delta, checksum, plain);
    }
  }

  lemma LastTagInput(c: BlockCipher, delta: Block, checksum: Block, plain: seq<octet>)
    requires |plain| <= BLOCK
    ensures var d := Double(delta); var last := Complete(plain, PadOf(c, d, |plain|));
            TagInput(c, delta, checksum, plain) == XorBlock(Triple(d), XorBlock(checksum, last))
  {
    hide Double, PadOf, XorBlock, Triple;
    var d := Double(delta);
    assert Doubled(delta, 0) == delta && Doubled(delta, 1) == d;
    var pad := PadOf(c, d, |plain|);
    var last := Complete(plain, pad);
    var a, b := TagInput(c, delta, checksum, plain), XorBlock(Triple(d), XorBlock(checksum, last));
    assert ChunksBefore(|plain|) == 0;
    forall k | 0 <= k < BLOCK ensures a[k] == b[k] {
      assert Column(plain, 0, k) == 0 && Padded(plain, 0, pad, k) == last[k];
      assert a[k] == TagByte(d, checksum, plain, 0, pad, k);
      XorZero(checksum[k]);
      LastByte(d, checksum, last, k);
    }
  }

  lemma LastByte(d: Block, checksum: Block, last: Block, k: nat)
    requires k < BLOCK
    ensures XorBlock(Triple(d), XorBlock(checksum, last))[k] == d[k] ^ Double(d)[k] ^ (checksum[k] ^ last[k])
  {
    hide Double;
  }

  /** The last chunk is combined with its pad, byte by byte. */
  lemma {:induction false} SealedTail(c: BlockCipher, delta: Block, checksum: Block, plain: seq<octet>, k: nat)
    requires BLOCK * ChunksBefore(|plain|) + k < |plain|
    ensures var m := ChunksBefore(|plain|); var o := Doubled(delta, m + 1); var at := BLOCK * m + k;
            k < BLOCK && Seal(c, delta, checksum, plain).0[at] == plain[at] ^ PadOf(c, o, |plain| - BLOCK * m)[k]
    decreases |plain|
  {
    hide Double, PadOf, XorBlock, Triple;
    var m := ChunksBefore(|plain|);
    if |plain| > BLOCK {
      var d, chunk, tail := Double(delta), Chunk(plain, 0), plain[BLOCK..];
      var sum := XorBlock(checksum, chunk);
      assert ChunksBefore(|tail|) == m - 1;
      SealedTail(c, d, sum, tail, k);
      DoubledFirst(delta, m);
      var first, rest := XorBlock(d, c.enc(XorBlock(d, chunk))), Seal(c, d, sum, tail).0;
      assert Seal(c, delta, checksum, plain).0 == first + rest;
    } else {
      assert Doubled(delta, 0) == delta && Doubled(delta, 1) == Double(delta);
      SealedLastByte(c, delta, checksum, plain, k);
    }
  }

  lemma SealedLastByte(c: BlockCipher, delta: Block, checksum: Block, plain: seq<octet>, k: nat)
    requires k < |plain| <= BLOCK
    ensures Seal(c, delta, checksum, plain).0[k] == plain[k] ^ PadOf(c, Double(delta), |plain|)[k]
  {
    hide Double, Triple, LengthBlock;
    XorCommutes(plain[k], PadOf(c, Double(delta), |plain|)[k]);
  }

  lemma XorCommutes(a: octet, b: octet)
    ensures a ^ b == b ^ a
  {
  }

  /** The tag computed when opening is that of the plaintext it opens to. */
  lemma OpenedTag(c: BlockCipher, nonce: Block, cipher: seq<octet>)
    ensures c.Encrypts() ==>
              var (plain, tag) := OpenUnder(c, nonce, cipher);
              tag == c.enc(TagInput(c, c.enc(nonce), Zeros(BLOCK), plain))
  {
    hide Seal, Open, TagInput;
    if c.Encrypts() {
      SealUndoesOpen(c, c.enc(nonce), Zeros(BLOCK), cipher);
      SealedTag(c, c.enc(nonce), Zeros(BLOCK), OpenUnder(c, nonce, cipher).0);
    }
  }

  // ----- the loops -----

  /** The final, possibly partial, chunk of the sealing loop. */
  method SealLast(c: BlockCipher, delta: Block, checksum: Block, tail: seq<octet>)
      returns (sealed: seq<octet>, tag: Block)
    requires |tail| <= BLOCK
    ensures (sealed, tag) == Seal(c, delta, checksum, tail)
  {
    var d := Times2(delta);
    var pad := c.enc(XorBlock(LengthBlock(|tail|), d));
    var last := Complete(tail, pad);
    sealed := XorBlock(pad, last)[..|tail|];
    tag := c.enc(XorBlock(Triple(d), XorBlock(checksum, last)));
  }

  /** The sealing loop over the plaintext. */
  method OcbEncrypt(c: BlockCipher, plain: seq<octet>, nonce: Block) returns (encrypted: seq<octet>, tag: Block)
    ensures (encrypted, tag) == SealUnder(c, nonce, plain)
    ensures tag == c.enc(TagInput(c, c.enc(nonce), Zeros(BLOCK), plain))
  {
    hide Double, XorBlock, Triple, TagInput, Seal;
    encrypted := [];
    var delta := c.enc(nonce);
    var checksum: Block := Zeros(BLOCK);
    var off, len := 0, |plain|;
    ghost var whole := SealUnder(c, nonce, plain);
    while len > BLOCK
      invariant 0 <= len && off + len == |plain|
      invariant whole.0 == encrypted + Seal(c, delta, checksum, plain[off..]).0
      invariant whole.1 == Seal(c, delta, checksum, plain[off..]).1
    {
      var chunk := Chunk(plain, off);
      SealStep(c, delta, checksum, plain, off);
      delta := Times2(delta);
      var tmp := c.enc(XorBlock(delta, chunk));
      encrypted := encrypted + XorBlock(delta, tmp);
      checksum := XorBlock(checksum, chunk);
      off := off + BLOCK;
      len := len - BLOCK;
    }
    var last;
    last, tag := SealLast(c, delta, checksum, plain[off..]);
    encrypted := encrypted + last;
    SealedTag(c, c.enc(nonce), Zeros(BLOCK), plain);
  }

  /** The final, possibly partial, chunk of the opening loop. */
  method OpenLast(c: BlockCipher, delta: Block, checksum: Block, tail: seq<octet>)
      returns (plain: seq<octet>, tag: Block)
    requires |tail| <= BLOCK
    ensures (plain, tag) == Open(c, delta, checksum, tail)
  {
    var d := Times2(delta);
    var pad := c.enc(XorBlock(LengthBlock(|tail|), d));
    var last := pad;
    for i := 0 to |tail|
      invariant |last| == BLOCK
      invariant forall k :: 0 <= k < i ==> last[k] == pad[k] ^ tail[k]
      invariant forall k :: i <= k < BLOCK ==> last[k] == pad[k]
    {
      last := last[i := last[i] ^ tail[i]];
    }
    assert last == XorBlock(pad, Complete(tail, Zeros(BLOCK)));
    plain := last[..|tail|];
    tag := c.enc(XorBlock(Triple(d), XorBlock(checksum, last)));
  }

  /** The opening loop over the ciphertext. */
  method OcbDecrypt(c: BlockCipher, encrypted: seq<octet>, nonce: Block) returns (plain: seq<octet>, tag: Block)
    ensures (plain, tag) == OpenUnder(c, nonce, encrypted)
    ensures c.Encrypts() ==> tag == c.enc(TagInput(c, c.enc(nonce), Zeros(BLOCK), plain))
  {
    hide Double, XorBlock, Triple, TagInput, Open;
    plain := [];
    var delta := c.enc(nonce);
    var checksum: Block := Zeros(BLOCK);
    var off, len := 0, |encrypted|;
    ghost var whole := OpenUnder(c, nonce, encrypted);
    while len > BLOCK
      invariant 0 <= len && off + len == |encrypted|
      invariant whole.0 == plain + Open(c, delta, checksum, encrypted[off..]).0
      invariant whole.1 == Open(c, delta, checksum, encrypted[off..]).1
    {
      var chunk := Chunk(encrypted, off);
      OpenStep(c, delta, checksum, encrypted, off);
      delta := Times2(delta);
      var p := XorBlock(delta, c.dec(XorBlock(delta, chunk)));
      plain := plain + p;
      checksum := XorBlock(checksum, p);
      off := off + BLOCK;
      len := len - BLOCK;
    }
    var last;
    last, tag := OpenLast(c, delta, checksum, encrypted[off..]);
    plain := plain + last;
    OpenedTag(c, nonce, encrypted);
  }

  // ----- the mode as seen by its users -----

  /** A way to seal and open messages under a nonce, each also giving a tag. */
  datatype Mode = Mode(seal: (Block, seq<octet>) -> (seq<octet>, Block),
                       unseal: (Block, seq<octet>) -> (seq<octet>, Block)) {
    ghost predicate Inverse() {
      forall nonce: Block, plain: seq<octet> ::
        unseal(nonce, seal(nonce, plain).0) == (plain, seal(nonce, plain).1)
    }

    /** Every ciphertext is that of what it opens to. */
    ghost predicate Onto() {
      forall nonce: Block, cipher: seq<octet> ::
        seal(nonce, unseal(nonce, cipher).0) == (cipher, unseal(nonce, cipher).1)
    }
  }

  function Ocb(c: BlockCipher): Mode {
    Mode((nonce: Block, plain: seq<octet>) => SealUnder(c, nonce, plain),
         (nonce: Block, cipher: seq<octet>) => OpenUnder(c, nonce, cipher))
  }

  lemma OcbInverse(c: BlockCipher)
    requires c.Decrypts()
    ensures Ocb(c).Inverse()
  {
    var m := Ocb(c);
    forall nonce: Block, plain: seq<octet>
      ensures m.unseal(nonce, m.seal(nonce, plain).0) == (plain, m.seal(nonce, plain).1)
    {
      OpenUndoesSeal(c, c.enc(nonce), Zeros(BLOCK), plain);
    }
  }

  lemma OcbOnto(c: BlockCipher)
    requires c.Encrypts()
    ensures Ocb(c).Onto()
  {
    var m := Ocb(c);
    forall nonce: Block, cipher: seq<octet>
      ensures m.seal(nonce, m.unseal(nonce, cipher).0) == (cipher, m.unseal(nonce, cipher).1)
    {
      SealUndoesOpen(c, c.enc(nonce), Zeros(BLOCK), cipher);
    }
  }
}
