/** Scrypt.swift: scrypt over flat byte buffers. The functions are the block-sequence definitions
    of RFC 7914; the Salsa20/8 core and HMAC-SHA256 are abstract. */
module Scrypt {
  import opened FileSystem
  import opened Crypto

  type Block = b: Bytes | |b| == 64 witness seq(64, _ => 0)
  type Blocks = seq<Block>

  // ---------- RFC 7914, section 4: scryptBlockMix ----------

  function XorBlock(a: Block, b: Block): Block {
    XorBytes(a, b)
  }

  /** X after the first `i` blocks. */
  function MixX(salsa: Block -> Block, b: Blocks, i: nat): Block
    requires i <= |b| && b != []
  {
    if i == 0 then b[|b| - 1] else salsa(XorBlock(MixX(salsa, b, i - 1), b[i - 1]))
  }

  /** Where the k-th output block comes from: first the even results, then the odd ones. */
  function SourceIndex(k: nat, r: nat): nat
    requires k < 2 * r
    ensures SourceIndex(k, r) < 2 * r
  {
    if k < r then 2 * k else 2 * (k - r) + 1
  }

  /** 2r blocks from 2r blocks. */
  function BlockMix(salsa: Block -> Block, b: Blocks, r: nat): (out: Blocks)
    requires r > 0 && |b| == 2 * r
    ensures |out| == 2 * r
  {
    seq(2 * r, k requires 0 <= k < 2 * r => MixX(salsa, b, SourceIndex(k, r) + 1))
  }

  // ---------- section 5: scryptROMix ----------

  /** V_i, the i-fold mixing. */
  function Mixed(salsa: Block -> Block, b: Blocks, r: nat, i: nat): (out: Blocks)
    requires r > 0 && |b| == 2 * r
    ensures |out| == 2 * r
  {
    if i == 0 then b else BlockMix(salsa, Mixed(salsa, b, r, i - 1), r)
  }

  function XorBlocks(a: Blocks, b: Blocks): (out: Blocks)
    requires |a| == |b|
    ensures |out| == |a|
  {
    seq(|a|, i requires 0 <= i < |a| => XorBlock(a[i], b[i]))
  }

  function LittleEndian(b: Bytes): nat {
    if b == [] then 0 else b[0] as int + 256 * LittleEndian(b[1..])
  }

  /** The last block as a little-endian number. */
  function Integerify(b: Blocks): nat
    requires b != []
  {
    LittleEndian(b[|b| - 1])
  }

  /** The same, cut to its low 64 bits. */
  function Integerify64(b: Blocks): nat
    requires b != []
  {
    LittleEndian(b[|b| - 1][..8])
  }

  /** X after `k` steps of the second loop. */
  function Walked(salsa: Block -> Block, b: Blocks, r: nat, n: nat, k: nat, low: bool): (out: Blocks)
    requires r > 0 && |b| == 2 * r && n > 0
    ensures |out| == 2 * r
  {
    if k == 0 then Mixed(salsa, b, r, n)
    else
      var x := Walked(salsa, b, r, n, k - 1, low);
      var j := (if low then Integerify64(x) else Integerify(x)) % n;
      BlockMix(salsa, XorBlocks(x, Mixed(salsa, b, r, j)), r)
  }

  /** scryptROMix; `low` tells whether only the low 64 bits of a block choose the row. */
  function RoMixBlocks(salsa: Block -> Block, b: Blocks, r: nat, n: nat, low: bool): (out: Blocks)
    requires r > 0 && |b| == 2 * r
    ensures |out| == 2 * r
  {
    if n == 0 then b else Walked(salsa, b, r, n, n, low)
  }

  // ---------- low 64 bits are enough exactly when N divides 2^64 ----------

  lemma {:induction false} LittleEndianSplits(a: Bytes, b: Bytes)
    ensures LittleEndian(a + b) == LittleEndian(a) + Power256(|a|) * LittleEndian(b)
    decreases |a|
  {
    if a == [] {
      assert a + b == b;
    } else {
      LittleEndianSplits(a[1..], b);
      assert (a + b)[1..] == a[1..] + b && (a + b)[0] == a[0];
      Regroup(Power256(|a| - 1), LittleEndian(b));
    }
  }

  lemma Regroup(p: nat, x: nat)
    ensures 256 * (p * x) == 256 * p * x
  {
  }

  /** Quotient and remainder are unique. */
  lemma RemainderIs(x: nat, n: nat, q: nat, m: nat)
    requires n > 0 && x == n * q + m && m < n
    ensures x % n == m
  {
    var q', m' := x / n, x % n;
    assert x == n * q' + m';
    if q < q' {
      Apart(n, q, q');
    } else if q' < q {
      Apart(n, q', q);
    }
  }

  lemma Apart(n: nat, a: nat, b: nat)
    requires a < b
    ensures n * a + n <= n * b
  {
    assert n * (a + 1) == n * a + n;
    var d := b - (a + 1);
    assert n * b == n * (a + 1) + n * d;
  }

  lemma MultipleFallsAway(x: nat, m: nat, y: nat, n: nat)
    requires n > 0 && m % n == 0
    ensures (x + m * y) % n == x % n
  {
    var q, p := m / n, x / n;
    assert m == n * q && x == n * p + x % n;
    assert n * q * y == n * (q * y);
    assert n * p + n * (q * y) == n * (p + q * y);
    RemainderIs(x + m * y, n, p + q * y, x % n);
  }

  lemma SixtyFourBits()
    ensures Power256(8) == INDEX_END
  {
    assert Power256(4) == 0x1_0000_0000;
  }

  lemma LowBitsSuffice(b: Blocks, n: nat)
    requires b != [] && n > 0 && INDEX_END % n == 0
    ensures Integerify64(b) % n == Integerify(b) % n
  {
    var last := b[|b| - 1];
    LittleEndianSplits(last[..8], last[8..]);
    assert last == last[..8] + last[8..];
    SixtyFourBits();
    MultipleFallsAway(LittleEndian(last[..8]), INDEX_END, LittleEndian(last[8..]), n);
  }

  lemma {:induction false} ZerosAreZero(k: nat)
    ensures LittleEndian(seq(k, _ => 0)) == 0
    decreases k
  {
    if k > 0 {
      ZerosAreZero(k - 1);
      assert seq(k, _ => 0)[1..] == seq(k - 1, _ => 0);
    }
  }

  /** A block for which the low bits do not suffice when N does not divide 2^64. */
  lemma LowBitsMiss(n: nat) returns (b: Blocks)
    requires n > 0 && INDEX_END % n != 0
    ensures b != [] && Integerify64(b) % n != Integerify(b) % n
  {
    var low, high: Bytes := seq(8, _ => 0), [1] + seq(55, _ => 0);
    var last: Block := low + high;
    b := [last];
    ZerosAreZero(8);
    ZerosAreZero(55);
    assert high[1..] == seq(55, _ => 0) && last[..8] == low && last[8..] == high;
    LittleEndianSplits(low, high);
    SixtyFourBits();
    assert LittleEndian(high) == 1;
  }

  /** Taking the low 64 bits gives the full Integerify modulo N for every input if and only if N
      divides 2^64, as every power of two the code can be given does. */
  lemma LowBitsSufficeIff(n: nat)
    requires n > 0
    ensures (forall b: Blocks {:trigger Integerify64(b)} :: b != [] ==> Integerify64(b) % n == Integerify(b) % n) <==>
              INDEX_END % n == 0
  {
    if INDEX_END % n == 0 {
      forall b: Blocks | b != []
        ensures Integerify64(b) % n == Integerify(b) % n
      {
        LowBitsSuffice(b, n);
      }
    } else {
      var b := LowBitsMiss(n);
      assert Integerify64(b) % n != Integerify(b) % n;
    }
  }

  lemma {:induction false} Power2Product(a: nat, b: nat)
    ensures Power2(a + b) == Power2(a) * Power2(b) && Power2(a) > 0
    decreases a
  {
    if a > 0 {
      Power2Product(a - 1, b);
      var x, y := Power2(a - 1), Power2(b);
      assert 2 * (x * y) == 2 * x * y;
    }
  }

  lemma PowersOfTwoDivide(k: nat)
    requires k <= 64
    ensures Power2(k) > 0 && INDEX_END % Power2(k) == 0
  {
    Power2Product(k, 64 - k);
    SixtyFourBits();
    PowersAgree(8);
    hide Power2, Power256;
    RemainderIs(INDEX_END, Power2(k), Power2(64 - k), 0);
  }

  lemma {:induction false} WalksAgree(salsa: Block -> Block, b: Blocks, r: nat, n: nat, k: nat)
    requires r > 0 && |b| == 2 * r && n > 0 && INDEX_END % n == 0
    ensures Walked(salsa, b, r, n, k, true) == Walked(salsa, b, r, n, k, false)
    decreases k
  {
    hide Integerify, Integerify64, BlockMix, XorBlocks, Mixed;
    if k > 0 {
      WalksAgree(salsa, b, r, n, k - 1);
      LowBitsSuffice(Walked(salsa, b, r, n, k - 1, false), n);
    }
  }

  // ---------- flat buffers ----------

  /** The 2r blocks of a flat buffer of 128r bytes. */
  function Split(b: Bytes, r: nat): (blocks: Blocks)
    requires |b| == 128 * r
    ensures |blocks| == 2 * r
  {
    seq(2 * r, i requires 0 <= i < 2 * r => BlockAt(b, i))
  }

  function BlockAt(b: Bytes, i: nat): Block
    requires 64 * i + 64 <= |b|
  {
    b[64 * i..64 * i + 64]
  }

  function Splice(s: Bytes, off: nat, piece: Bytes): (r: Bytes)
    requires off + |piece| <= |s|
    ensures |r| == |s|
  {
    s[..off] + piece + s[off + |piece|..]
  }

  lemma SplicedBlock(s: Bytes, d: nat, piece: Block, k: nat)
    requires 64 * d + 64 <= |s| && 64 * k + 64 <= |s|
    ensures BlockAt(Splice(s, 64 * d, piece), k) == if k == d then piece else BlockAt(s, k)
  {
    var t := Splice(s, 64 * d, piece);
    forall i | 0 <= i < 64
      ensures t[64 * k + i] == if k == d then piece[i] else s[64 * k + i]
    {
    }
  }

  /** The byte-copying loops. */
  method CopyBytes(dst: array<Byte>, dOff: nat, src: array<Byte>, sOff: nat, len: nat)
    requires dst != src && dOff + len <= dst.Length && sOff + len <= src.Length
    modifies dst
    ensures dst[..] == Splice(old(dst[..]), dOff, src[sOff..sOff + len])
  {
    var k := 0;
    while k < len
      invariant k <= len
      invariant forall i :: 0 <= i < dst.Length ==>
                  dst[i] == if dOff <= i < dOff + k then src[sOff + i - dOff] else old(dst[..])[i]
    {
      dst[dOff + k] := src[sOff + k];
      k := k + 1;
    }
  }

  /** The byte-combining loops. */
  method XorInto(x: array<Byte>, b: array<Byte>, off: nat)
    requires x != b && off + x.Length <= b.Length
    modifies x
    ensures x[..] == XorBytes(old(x[..]), b[off..off + x.Length])
  {
    var k := 0;
    while k < x.Length
      invariant k <= x.Length
      invariant forall i :: 0 <= i < x.Length ==>
                  x[i] == if i < k then XorByte(old(x[..])[i], b[off + i]) else old(x[..])[i]
    {
      x[k] := XorByte(x[k], b[off + k]);
      k := k + 1;
    }
  }

  method SalsaInPlace(salsa: Block -> Block, x: array<Byte>)
    requires x.Length == 64
    modifies x
    ensures x[..] == salsa(old(x[..]))
  {
    var y := salsa(x[..]);
    var k := 0;
    while k < 64
      invariant k <= 64
      invariant forall i :: 0 <= i < k ==> x[i] == y[i]
    {
      x[k] := y[k];
      k := k + 1;
    }
  }

  function DestIndex(i: nat, r: nat): nat {
    if i % 2 == 0 then i / 2 else r + i / 2
  }

  /** Every output block is written exactly once. */
  lemma DestIsSourceInverse(r: nat, i: nat, k: nat)
    requires i < 2 * r && k < 2 * r
    ensures DestIndex(i, r) < 2 * r
    ensures DestIndex(i, r) == k <==> SourceIndex(k, r) == i
  {
  }

  lemma SpliceWhole(s: Bytes, piece: Bytes)
    requires |piece| == |s|
    ensures Splice(s, 0, piece) == piece
  {
  }

  lemma SplitAt(b: Bytes, r: nat, i: nat)
    requires |b| == 128 * r && i < 2 * r
    ensures Split(b, r)[i] == b[64 * i..64 * i + 64]
  {
  }

  lemma MixStep(salsa: Block -> Block, b: Blocks, i: nat)
    requires i < |b|
    ensures MixX(salsa, b, 0) == b[|b| - 1]
    ensures MixX(salsa, b, i + 1) == salsa(XorBlock(MixX(salsa, b, i), b[i]))
  {
  }

  /** The output blocks whose turn has come are in place. */
  ghost predicate Placed(salsa: Block -> Block, out: Bytes, blocks: Blocks, r: nat, i: nat)
    requires |out| == 128 * r && |blocks| == 2 * r && r > 0
  {
    forall k :: 0 <= k < 2 * r && SourceIndex(k, r) < i ==>
        BlockAt(out, k) == MixX(salsa, blocks, SourceIndex(k, r) + 1)
  }

  lemma NonePlaced(salsa: Block -> Block, out: Bytes, blocks: Blocks, r: nat)
    requires |out| == 128 * r && |blocks| == 2 * r && r > 0
    ensures Placed(salsa, out, blocks, r, 0)
  {
  }

  lemma PlacedOneMore(salsa: Block -> Block, out: Bytes, blocks: Blocks, r: nat, i: nat)
    requires |out| == 128 * r && |blocks| == 2 * r && r > 0 && i < 2 * r && Placed(salsa, out, blocks, r, i)
    ensures DestIndex(i, r) < 2 * r
    ensures Placed(salsa, Splice(out, 64 * DestIndex(i, r), MixX(salsa, blocks, i + 1)), blocks, r, i + 1)
  {
    hide MixX, BlockAt, Splice;
    DestIsSourceInverse(r, i, 0);
    forall k | 0 <= k < 2 * r && SourceIndex(k, r) < i + 1
      ensures BlockAt(Splice(out, 64 * DestIndex(i, r), MixX(salsa, blocks, i + 1)), k) == MixX(salsa, blocks,
                SourceIndex(k, r) + 1)
    {
      DestIsSourceInverse(r, i, k);
      SplicedBlock(out, DestIndex(i, r), MixX(salsa, blocks, i + 1), k);
    }
  }

  lemma AllPlaced(salsa: Block -> Block, out: Bytes, blocks: Blocks, r: nat)
    requires |out| == 128 * r && |blocks| == 2 * r && r > 0 && Placed(salsa, out, blocks, r, 2 * r)
    ensures Split(out, r) == BlockMix(salsa, blocks, r)
  {
    hide MixX, BlockAt;
  }

  /** blockMixInto. */
  method BlockMixInto(salsa: Block -> Block, out: array<Byte>, b: array<Byte>, r: nat)
    requires r > 0 && out != b && out.Length == 128 * r && b.Length == 128 * r
    modifies out
    ensures Split(out[..], r) == BlockMix(salsa, Split(b[..], r), r)
  {
    hide Splice, BlockAt, Split, MixX, BlockMix, SourceIndex, Placed, DestIndex, XorBytes;
    var x := new Byte[64](_ => 0);
    var lastOff := (2 * r - 1) * 64;
    ghost var blocks := Split(b[..], r);
    SplitAt(b[..], r, 2 * r - 1);
    SpliceWhole(x[..], b[lastOff..lastOff + 64]);
    CopyBytes(x, 0, b, lastOff, 64);
    MixStep(salsa, blocks, 0);
    NonePlaced(salsa, out[..], blocks, r);
    var i := 0;
    while i < 2 * r
      invariant i <= 2 * r
      invariant x[..] == MixX(salsa, blocks, i)
      invariant Placed(salsa, out[..], blocks, r, i)
    {
      MixOne(salsa, out, b, x, r, i, blocks);
      i := i + 1;
    }
    AllPlaced(salsa, out[..], blocks, r);
  }

  /** The loop body of blockMixInto. */
  method MixOne(salsa: Block -> Block, out: array<Byte>, b: array<Byte>, x: array<Byte>, r: nat, i: nat,
                ghost blocks: Blocks)
    requires r > 0 && out != b && x != out && x != b && x.Length == 64 && out.Length == 128 * r && b.Length == 128 * r
    requires i < 2 * r
    requires blocks == Split(b[..], r) && x[..] == MixX(salsa, blocks, i) && Placed(salsa, out[..], blocks, r, i)
    modifies out, x
    ensures x[..] == MixX(salsa, blocks, i + 1) && Placed(salsa, out[..], blocks, r, i + 1)
  {
    hide Splice, BlockAt, Split, MixX, BlockMix, SourceIndex, Placed, DestIndex, XorBytes;
    var off := i * 64;
    SplitAt(b[..], r, i);
    MixStep(salsa, blocks, i);
    XorInto(x, b, off);
    SalsaInPlace(salsa, x);
    var destOff := (if i % 2 == 0 then i / 2 else r + i / 2) * 64;
    DestOffset(i, r);
    PlacedOneMore(salsa, out[..], blocks, r, i);
    assert x[0..64] == x[..];
    CopyBytes(out, destOff, x, 0, 64);
  }

  lemma DestOffset(i: nat, r: nat)
    ensures (if i % 2 == 0 then i / 2 else r + i / 2) * 64 == 64 * DestIndex(i, r)
  {
  }

  // ---------- roMix ----------

  lemma SplitXor(a: Bytes, b: Bytes, r: nat)
    requires |a| == |b| == 128 * r
    ensures Split(XorBytes(a, b), r) == XorBlocks(Split(a, r), Split(b, r))
  {
    hide XorByte;
    forall i | 0 <= i < 2 * r
      ensures BlockAt(XorBytes(a, b), i) == XorBlock(BlockAt(a, i), BlockAt(b, i))
    {
    }
  }

  /** Where row `m` of V starts. */
  function Start(m: nat, len: nat): nat {
    m * len
  }

  lemma StartsApart(m: nat, n: nat, len: nat)
    requires m < n
    ensures Start(m, len) + len <= Start(n, len) && Start(m + 1, len) == Start(m, len) + len
  {
    Apart(len, m, n);
    Apart(len, m, m + 1);
    MulComm(len, m, n);
  }

  lemma MulComm(len: nat, m: nat, n: nat)
    ensures Start(m, len) == len * m && Start(n, len) == len * n && Start(m + 1, len) == len * m + len
  {
    assert (m + 1) * len == m * len + len;
  }

  function Row(v: Bytes, m: nat, len: nat): (row: Bytes)
    requires Start(m, len) + len <= |v|
    ensures |row| == len
  {
    v[Start(m, len)..Start(m, len) + len]
  }

  lemma SplicedRow(v: Bytes, i: nat, piece: Bytes, m: nat, n: nat)
    requires |v| == Start(n, |piece|) && i < n && m < n
    ensures Start(i, |piece|) + |piece| <= |v| && Start(m, |piece|) + |piece| <= |v|
    ensures Row(Splice(v, Start(i, |piece|), piece), m, |piece|) == if m == i then piece else Row(v, m, |piece|)
  {
    hide Start;
    var len := |piece|;
    StartsApart(i, n, len);
    StartsApart(m, n, len);
    if m < i { StartsApart(m, i, len); }
    if i < m { StartsApart(i, m, len); }
    var t := Splice(v, Start(i, len), piece);
    forall k | 0 <= k < len
      ensures t[Start(m, len) + k] == if m == i then piece[k] else v[Start(m, len) + k]
    {
    }
  }

  /** The first `i` rows of V are the successive mixings. */
  ghost predicate RowsAre(salsa: Block -> Block, v: Bytes, b: Blocks, r: nat, n: nat, i: nat)
    requires r > 0 && |b| == 2 * r
  {
    forall m {:trigger Mixed(salsa, b, r, m)} :: 0 <= m < i ==>
      Start(m, 128 * r) + 128 * r <= |v| && Split(Row(v, m, 128 * r), r) == Mixed(salsa, b, r, m)
  }

  lemma OneMoreRow(salsa: Block -> Block, v: Bytes, b: Blocks, r: nat, n: nat, i: nat, x: Bytes)
    requires r > 0 && |b| == 2 * r && |v| == Start(n, 128 * r) && i < n && RowsAre(salsa, v, b, r, n, i)
    requires |x| == 128 * r && Split(x, r) == Mixed(salsa, b, r, i)
    ensures Start(i, 128 * r) + 128 * r <= |v| && RowsAre(salsa, Splice(v, Start(i, 128 * r), x), b, r, n, i + 1)
  {
    hide Split, Mixed, Splice, Row, Start;
    StartsApart(i, n, 128 * r);
    forall m {:trigger Mixed(salsa, b, r, m)} | 0 <= m < i + 1
      ensures Start(m, 128 * r) + 128 * r <= |v|
      ensures Split(Row(Splice(v, Start(i, 128 * r), x), m, 128 * r), r) == Mixed(salsa, b, r, m)
    {
      SplicedRow(v, i, x, m, n);
    }
  }

  /** The low 64 bits of the last block, byte by byte. */
  method LowWord(x: array<Byte>, off: nat) returns (j: nat)
    requires off + 8 <= x.Length
    ensures j == LittleEndian(x[off..off + 8])
  {
    hide Power256, LittleEndian;
    j := 0;
    var k, shift := 0, 1;
    NoBytes();
    assert x[off..off] == [];
    while k < 8
      invariant k <= 8 && shift == Power256(k)
      invariant j == LittleEndian(x[off..off + k])
    {
      OneMoreByte(x[off..off + k], x[off + k]);
      assert x[off..off + k] + [x[off + k]] == x[off..off + k + 1];
      j := j + shift * x[off + k] as int;
      shift := 256 * shift;
      k := k + 1;
    }
  }

  lemma NoBytes()
    ensures LittleEndian([]) == 0 && Power256(0) == 1
  {
  }

  lemma OneMoreByte(a: Bytes, b: Byte)
    ensures LittleEndian(a + [b]) == LittleEndian(a) + Power256(|a|) * b as int
    ensures Power256(|a| + 1) == 256 * Power256(|a|)
  {
    LittleEndianSplits(a, [b]);
    assert [b][1..] == [];
    assert LittleEndian([b]) == b as int;
  }

  /** roMix. It takes the low 64 bits of the last block for Integerify; for a cost that divides
      2^64 the result is that of the definition. */
  method RoMix(salsa: Block -> Block, b: array<Byte>, n: nat, r: nat)
    requires r > 0 && b.Length == 128 * r
    modifies b
    ensures Split(b[..], r) == RoMixBlocks(salsa, Split(old(b[..]), r), r, n, true)
    ensures n == 0 || INDEX_END % n == 0 ==> Split(b[..], r) == RoMixBlocks(salsa, Split(old(b[..]), r), r, n, false)
  {
    hide Splice, BlockAt, Split, BlockMix, RowsAre, Mixed, Walked, Start;
    var blockLen := 128 * r;
    ghost var blocks := Split(b[..], r);
    var v := new Byte[Start(n, blockLen)](_ => 0);
    var x := Copy(b);
    var tmp := new Byte[blockLen](_ => 0);
    MixedStarts(salsa, blocks, r, v[..], n);
    var i := 0;
    while i < n
      invariant i <= n && fresh(x) && fresh(tmp) && x != tmp && x != v && tmp != v && x != b && tmp != b
      invariant x.Length == blockLen && tmp.Length == blockLen && b[..] == old(b[..])
      invariant Split(x[..], r) == Mixed(salsa, blocks, r, i) && RowsAre(salsa, v[..], blocks, r, n, i)
    {
      var vOff := Start(i, blockLen);
      OneMoreRow(salsa, v[..], blocks, r, n, i, x[..]);
      assert x[0..blockLen] == x[..];
      CopyBytes(v, vOff, x, 0, blockLen);
      BlockMixInto(salsa, tmp, x, r);
      MixedStep(salsa, blocks, r, i);
      x, tmp := tmp, x;
      i := i + 1;
    }
    x := Walk(salsa, x, tmp, v, n, r, blocks);
    SpliceWhole(b[..], x[..]);
    assert x[0..blockLen] == x[..];
    CopyBytes(b, 0, x, 0, blockLen);
    if n > 0 && INDEX_END % n == 0 { WalksAgree(salsa, blocks, r, n, n); }
  }

  method Copy(b: array<Byte>) returns (x: array<Byte>)
    ensures fresh(x) && x.Length == b.Length && x[..] == b[..]
  {
    x := new Byte[b.Length](k requires 0 <= k < b.Length reads b => b[k]);
  }

  /** The second loop of roMix. */
  method Walk(salsa: Block -> Block, x0: array<Byte>, tmp0: array<Byte>, v: array<Byte>, n: nat, r: nat,
              ghost blocks: Blocks)
      returns (x: array<Byte>)
    requires r > 0 && x0.Length == 128 * r && tmp0.Length == 128 * r && v.Length == Start(n, 128 * r)
    requires |blocks| == 2 * r
    requires x0 != tmp0 && x0 != v && tmp0 != v
    requires Split(x0[..], r) == Mixed(salsa, blocks, r, n) && RowsAre(salsa, v[..], blocks, r, n, n)
    modifies x0, tmp0
    ensures x in {x0, tmp0}
    ensures n > 0 ==> Split(x[..], r) == Walked(salsa, blocks, r, n, n, true)
    ensures n == 0 ==> Split(x[..], r) == Mixed(salsa, blocks, r, 0)
  {
    hide Splice, BlockAt, Split, BlockMix, RowsAre, Mixed, Walked, Start;
    x := x0;
    var tmp := tmp0;
    if n > 0 { WalkedStarts(salsa, blocks, r, n); }
    var i := 0;
    while i < n
      invariant i <= n && ((x == x0 && tmp == tmp0) || (x == tmp0 && tmp == x0))
      invariant v[..] == old(v[..])
      invariant n > 0 ==> Split(x[..], r) == Walked(salsa, blocks, r, n, i, true)
      invariant n == 0 ==> x == x0 && x[..] == old(x0[..])
    {
      Step(salsa, x, tmp, v, n, r, blocks, i);
      x, tmp := tmp, x;
      i := i + 1;
    }
  }

  /** One step of the second loop: its result is left in `tmp`. */
  method Step(salsa: Block -> Block, x: array<Byte>, tmp: array<Byte>, v: array<Byte>, n: nat, r: nat,
              ghost blocks: Blocks, ghost i: nat)
    requires r > 0 && n > 0 && x.Length == 128 * r && tmp.Length == 128 * r && v.Length == Start(n, 128 * r)
    requires |blocks| == 2 * r
    requires x != tmp && x != v && tmp != v
    requires Split(x[..], r) == Walked(salsa, blocks, r, n, i, true) && RowsAre(salsa, v[..], blocks, r, n, n)
    modifies x, tmp
    ensures Split(tmp[..], r) == Walked(salsa, blocks, r, n, i + 1, true)
  {
    hide Splice, BlockAt, Split, BlockMix, Mixed, Walked, LittleEndian, Start, XorBytes, XorBlocks, Row;
    var blockLen := 128 * r;
    var off := (2 * r - 1) * 64;
    var j := LowWord(x, off);
    SplitAt(x[..], r, 2 * r - 1);
    assert x[off..off + 64][..8] == x[off..off + 8];
    assert j == Integerify64(Split(x[..], r));
    ghost var before := x[..];
    var vOff := Start(j % n, blockLen);
    RowAt(salsa, v[..], blocks, r, n, j % n);
    XorInto(x, v, vOff);
    SplitXor(before, v[vOff..vOff + blockLen], r);
    BlockMixInto(salsa, tmp, x, r);
    WalkedStep(salsa, blocks, r, n, i);
  }

  lemma RowAt(salsa: Block -> Block, v: Bytes, b: Blocks, r: nat, n: nat, m: nat)
    requires r > 0 && |b| == 2 * r && m < n && RowsAre(salsa, v, b, r, n, n)
    ensures var s := Start(m, 128 * r); s + 128 * r <= |v| && Split(v[s..s + 128 * r], r) == Mixed(salsa, b, r, m)
  {
    var _ := Mixed(salsa, b, r, m);
  }

  lemma MixedStarts(salsa: Block -> Block, b: Blocks, r: nat, v: Bytes, n: nat)
    requires r > 0 && |b| == 2 * r
    ensures Mixed(salsa, b, r, 0) == b && RowsAre(salsa, v, b, r, n, 0)
  {
  }

  lemma MixedStep(salsa: Block -> Block, b: Blocks, r: nat, i: nat)
    requires r > 0 && |b| == 2 * r
    ensures Mixed(salsa, b, r, i + 1) == BlockMix(salsa, Mixed(salsa, b, r, i), r)
  {
  }

  lemma WalkedStarts(salsa: Block -> Block, b: Blocks, r: nat, n: nat)
    requires r > 0 && |b| == 2 * r && n > 0
    ensures Walked(salsa, b, r, n, 0, true) == Mixed(salsa, b, r, n)
  {
  }

  lemma WalkedStep(salsa: Block -> Block, b: Blocks, r: nat, n: nat, k: nat)
    requires r > 0 && |b| == 2 * r && n > 0
    ensures var x := Walked(salsa, b, r, n, k, true);
            Walked(salsa, b, r, n, k + 1, true) == BlockMix(salsa,
                                                            XorBlocks(x, Mixed(salsa, b, r, Integerify64(x) % n)), r)
  {
  }

  // ---------- section 6: scrypt, with PBKDF2 of RFC 8018, section 5.2, for one iteration ----------

  const HASH_SIZE := 32

  ghost predicate SoundHmac(hmac: (Bytes, Bytes) -> Bytes) {
    forall k, m {:trigger hmac(k, m)} :: |hmac(k, m)| == HASH_SIZE
  }

  /** T_1 to T_count. */
  function HashBlocks(hmac: (Bytes, Bytes) -> Bytes, password: Bytes, salt: Bytes, count: nat): Bytes {
    if count == 0 then []
    else HashBlocks(hmac, password, salt, count - 1) + hmac(password, salt + BigEndian(count, 4))
  }

  lemma {:induction false} HashBlocksLength(hmac: (Bytes, Bytes) -> Bytes, password: Bytes, salt: Bytes, count: nat)
    requires SoundHmac(hmac)
    ensures |HashBlocks(hmac, password, salt, count)| == HASH_SIZE * count
    decreases count
  {
    if count > 0 { HashBlocksLength(hmac, password, salt, count - 1); }
  }

  function Pbkdf2(hmac: (Bytes, Bytes) -> Bytes, password: Bytes, salt: Bytes, dkLen: nat): (key: Bytes)
    requires SoundHmac(hmac)
    ensures |key| == dkLen
  {
    HashBlocksLength(hmac, password, salt, (dkLen + HASH_SIZE - 1) / HASH_SIZE);
    HashBlocks(hmac, password, salt, (dkLen + HASH_SIZE - 1) / HASH_SIZE)[..dkLen]
  }

  /** The block counter is 32 bits wide and traps when it overflows. */
  const LONGEST_KEY := 0xFFFF_FFFE * HASH_SIZE

  /** pbkdf2C1. */
  method Pbkdf2C1(hmac: (Bytes, Bytes) -> Bytes, password: Bytes, salt: Bytes, dkLen: nat) returns (key: Bytes)
    requires SoundHmac(hmac) && dkLen <= LONGEST_KEY
    ensures key == Pbkdf2(hmac, password, salt, dkLen)
  {
    hide HashBlocks, BigEndian;
    var out: Bytes := [];
    var i := 1;
    NoHashBlocks(hmac, password, salt);
    while |out| < dkLen
      invariant 1 <= i <= 0xFFFF_FFFF && out == HashBlocks(hmac, password, salt, i - 1)
      invariant |out| == HASH_SIZE * (i - 1) && (i > 1 ==> HASH_SIZE * (i - 2) < dkLen)
      decreases dkLen - |out|
    {
      OneHashBlock(hmac, password, salt, i);
      var msg := salt + BigEndian(i, 4);
      out := out + hmac(password, msg);
      i := i + 1;
    }
    assert (dkLen + HASH_SIZE - 1) / HASH_SIZE == i - 1;
    key := out[0..dkLen];
  }

  lemma NoHashBlocks(hmac: (Bytes, Bytes) -> Bytes, password: Bytes, salt: Bytes)
    ensures HashBlocks(hmac, password, salt, 0) == []
  {
  }

  lemma OneHashBlock(hmac: (Bytes, Bytes) -> Bytes, password: Bytes, salt: Bytes, i: nat)
    requires i > 0
    ensures HashBlocks(hmac, password, salt, i) == HashBlocks(hmac, password, salt, i - 1) + hmac(password,
              salt + BigEndian(i, 4))
  {
  }

  /** The buffer with the given blocks. */
  function Flatten(blocks: Blocks): (b: Bytes)
    ensures |b| == 64 * |blocks|
  {
    if blocks == [] then [] else Flatten(blocks[..|blocks| - 1]) + blocks[|blocks| - 1]
  }

  lemma {:induction false} FlattenIs(blocks: Blocks, b: Bytes)
    requires |b| == 64 * |blocks| && forall i :: 0 <= i < |blocks| ==> blocks[i] == b[64 * i..64 * i + 64]
    ensures Flatten(blocks) == b
    decreases |blocks|
  {
    if blocks != [] {
      var k := |blocks| - 1;
      var front := b[..64 * k];
      forall i | 0 <= i < k
        ensures blocks[..k][i] == front[64 * i..64 * i + 64]
      {
        SliceOfFront(b, 64 * i, 64 * i + 64, 64 * k);
      }
      FlattenIs(blocks[..k], front);
      SplitsAt(b, 64 * k);
      assert blocks[k] == b[64 * k..64 * k + 64];
    }
  }

  lemma SplitsAt(b: Bytes, k: nat)
    requires k <= |b|
    ensures b == b[..k] + b[k..|b|]
  {
  }

  lemma SliceOfFront(b: Bytes, i: nat, j: nat, k: nat)
    requires i <= j <= k <= |b|
    ensures b[..k][i..j] == b[i..j]
  {
  }

  lemma FlattenSplit(b: Bytes, r: nat)
    requires |b| == 128 * r
    ensures Flatten(Split(b, r)) == b
  {
    FlattenIs(Split(b, r), b);
  }

  /** B_0 to B_{p-1}, each replaced by its scryptROMix. */
  function MixPieces(salsa: Block -> Block, b: Bytes, n: nat, r: nat, p: nat, low: bool): (m: Bytes)
    requires r > 0 && |b| == Start(p, 128 * r)
    ensures |m| == |b|
  {
    if p == 0 then []
    else
      StartsApart(p - 1, p, 128 * r);
      var cut := Start(p - 1, 128 * r);
      MixPieces(salsa, b[..cut], n, r, p - 1, low) + Flatten(RoMixBlocks(salsa, Split(b[cut..], r), r, n, low))
  }

  function ScryptKey(hmac: (Bytes, Bytes) -> Bytes, salsa: Block -> Block, password: Bytes, salt: Bytes, n: nat, r: nat,
                     p: nat, dkLen: nat, low: bool): Bytes
    requires SoundHmac(hmac) && r > 0
  {
    Pbkdf2(hmac, password, MixPieces(salsa, Pbkdf2(hmac, password, salt, Start(p, 128 * r)), n, r, p, low), dkLen)
  }

  lemma OneMorePiece(salsa: Block -> Block, b: Bytes, n: nat, r: nat, i: nat, low: bool)
    requires r > 0 && |b| == Start(i + 1, 128 * r)
    ensures Start(i, 128 * r) + 128 * r == |b|
    ensures MixPieces(salsa, b, n, r, i + 1, low) ==
              MixPieces(salsa, b[..Start(i, 128 * r)], n, r, i, low)
              + Flatten(RoMixBlocks(salsa, Split(b[Start(i, 128 * r)..], r), r, n, low))
  {
    StartsApart(i, i + 1, 128 * r);
    hide Start, RoMixBlocks, Split, Flatten;
  }

  lemma {:induction false} PiecesAgree(salsa: Block -> Block, b: Bytes, n: nat, r: nat, p: nat)
    requires r > 0 && |b| == Start(p, 128 * r) && (n == 0 || INDEX_END % n == 0)
    ensures MixPieces(salsa, b, n, r, p, true) == MixPieces(salsa, b, n, r, p, false)
    decreases p
  {
    hide Start, Split, Flatten;
    if p > 0 {
      StartsApart(p - 1, p, 128 * r);
      var cut := Start(p - 1, 128 * r);
      PiecesAgree(salsa, b[..cut], n, r, p - 1);
      if n > 0 { WalksAgree(salsa, Split(b[cut..], r), r, n, n); }
    }
  }

  /** derive: every part of the first PBKDF2's output is mixed in its place. For a cost that
      divides 2^64 the key is the one of the definition. */
  method Derive(hmac: (Bytes, Bytes) -> Bytes, salsa: Block -> Block, password: Bytes, salt: Bytes, n: nat, r: nat,
                p: nat, dkLen: nat)
      returns (key: Bytes)
    requires SoundHmac(hmac) && r > 0 && Start(p, 128 * r) <= LONGEST_KEY && dkLen <= LONGEST_KEY
    ensures key == ScryptKey(hmac, salsa, password, salt, n, r, p, dkLen, true)
    ensures n == 0 || INDEX_END % n == 0 ==> key == ScryptKey(hmac, salsa, password, salt, n, r, p, dkLen, false)
  {
    hide MixPieces, RoMixBlocks, Split, Flatten, Pbkdf2, Start;
    var mfLen := 128 * r;
    var b := Pbkdf2C1(hmac, password, salt, Start(p, mfLen));
    ghost var b0 := b;
    NoPieces(salsa, n, r);
    assert b0[..0] == [] && [] + b0 == b0 && b0[0..] == b0;
    var i := 0;
    while i < p
      invariant i <= p && Start(i, mfLen) <= |b0| == Start(p, mfLen)
      invariant b == MixPieces(salsa, b0[..Start(i, mfLen)], n, r, i, true) + b0[Start(i, mfLen)..]
    {
      b := MixPiece(salsa, b, n, r, p, i, b0);
      i := i + 1;
    }
    assert b0[..|b0|] == b0 && b0[|b0|..] == []
        && MixPieces(salsa, b0, n, r, p, true) + [] == MixPieces(salsa, b0, n, r, p, true);
    if n == 0 || INDEX_END % n == 0 { PiecesAgree(salsa, b0, n, r, p); }
    key := Pbkdf2C1(hmac, password, b, dkLen);
  }

  lemma NoPieces(salsa: Block -> Block, n: nat, r: nat)
    requires r > 0
    ensures Start(0, 128 * r) == 0 && MixPieces(salsa, [], n, r, 0, true) == []
  {
  }

  /** The loop body of derive: the i-th part is cut out, mixed and put back. */
  method MixPiece(salsa: Block -> Block, b: Bytes, n: nat, r: nat, p: nat, i: nat, ghost b0: Bytes) returns (out: Bytes)
    requires r > 0 && i < p && |b0| == Start(p, 128 * r)
    requires Start(i, 128 * r) <= |b0|
    requires b == MixPieces(salsa, b0[..Start(i, 128 * r)], n, r, i, true) + b0[Start(i, 128 * r)..]
    ensures Start(i + 1, 128 * r) <= |b0|
    ensures out == MixPieces(salsa, b0[..Start(i + 1, 128 * r)], n, r, i + 1, true) + b0[Start(i + 1, 128 * r)..]
  {
    hide MixPieces, RoMixBlocks, Split, Flatten, Start;
    var mfLen := 128 * r;
    StartsApart(i, p, mfLen);
    var from, to := Start(i, mfLen), Start(i + 1, mfLen);
    ghost var done := MixPieces(salsa, b0[..from], n, r, i, true);
    var block := new Byte[mfLen](k requires 0 <= k < mfLen => b[from + k]);
    assert block[..] == b[from..to] == b0[from..to];
    RoMix(salsa, block, n, r);
    FlattenSplit(block[..], r);
    OneMorePiece(salsa, b0[..to], n, r, i, true);
    assert b0[..to][..from] == b0[..from] && b0[..to][from..] == b0[from..to];
    out := b[..from] + block[..] + b[to..];
    assert b[..from] == done && b[to..] == b0[to..];
  }
}
