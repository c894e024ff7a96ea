/** keywrap.go: AES Key Wrap. The code runs the indexed double loop of RFC 3394; the functions
    here are the shifting-register form of its sections 2.2.1 and 2.2.2. */
module KeyWrap {
  import opened FileSystem
  import opened Crypto

  /** A block cipher on 16 bytes under a key, and its inverse. */
  datatype Cipher = Cipher(encrypt: (Bytes, Bytes) -> Bytes, decrypt: (Bytes, Bytes) -> Bytes)

  ghost predicate SoundCipher(c: Cipher) {
    && (forall k, b {:trigger c.encrypt(k, b)} :: |b| == 16 ==>
        |c.encrypt(k, b)| == 16 && c.decrypt(k, c.encrypt(k, b)) == b)
    && (forall k, b {:trigger c.decrypt(k, b)} :: |b| == 16 ==>
        |c.decrypt(k, b)| == 16 && c.encrypt(k, c.decrypt(k, b)) == b)
  }

  const DEFAULT_IV: Bytes := [0xA6, 0xA6, 0xA6, 0xA6, 0xA6, 0xA6, 0xA6, 0xA6]

  // ---------- eight bytes and a counter ----------

  /** The 64-bit number in `a`, combined with the low 64 bits of `t`. */
  function XorCounter(a: Bytes, t: nat): (r: Bytes)
    requires |a| == 8
    ensures |r| == 8
  {
    BigEndian(XorBits(FromBigEndian(a), t, 64), 8)
  }

  lemma XorCounterTwice(a: Bytes, t: nat)
    requires |a| == 8
    ensures XorCounter(XorCounter(a, t), t) == a
  {
    var x := FromBigEndian(a);
    NumberFits(a);
    PowersAgree(8);
    XorFits(x, t, 64);
    XorTwice(x, t, 64);
    BigEndianRoundTrip(XorBits(x, t, 64), 8);
    NumberRoundTrip(a);
    hide BigEndian, FromBigEndian, XorBits, Power2, Power256;
  }

  // ---------- the shifting registers ----------

  /** A and R[1..n]. */
  datatype Registers = Registers(a: Bytes, r: seq<Bytes>)

  ghost predicate RegistersOk(s: Registers) {
    |s.a| == 8 && |s.r| > 0 && forall i :: 0 <= i < |s.r| ==> |s.r[i]| == 8
  }

  function Forward(c: Cipher, k: Bytes, s: Registers, t: nat): (s': Registers)
    requires SoundCipher(c) && RegistersOk(s)
    ensures RegistersOk(s') && |s'.r| == |s.r|
  {
    var b := c.encrypt(k, s.a + s.r[0]);
    Registers(XorCounter(b[..8], t), s.r[1..] + [b[8..]])
  }

  function Backward(c: Cipher, k: Bytes, s: Registers, t: nat): (s': Registers)
    requires SoundCipher(c) && RegistersOk(s)
    ensures RegistersOk(s') && |s'.r| == |s.r|
  {
    var n := |s.r|;
    var b := c.decrypt(k, XorCounter(s.a, t) + s.r[n - 1]);
    Registers(b[..8], [b[8..]] + s.r[..n - 1])
  }

  function RunForward(c: Cipher, k: Bytes, s: Registers, t: nat): (s': Registers)
    requires SoundCipher(c) && RegistersOk(s)
    ensures RegistersOk(s') && |s'.r| == |s.r|
  {
    if t == 0 then s else Forward(c, k, RunForward(c, k, s, t - 1), t)
  }

  function RunBackward(c: Cipher, k: Bytes, s: Registers, t: nat): (s': Registers)
    requires SoundCipher(c) && RegistersOk(s)
    ensures RegistersOk(s') && |s'.r| == |s.r|
    decreases t
  {
    if t == 0 then s else RunBackward(c, k, Backward(c, k, s, t), t - 1)
  }

  lemma BackwardUndoesForward(c: Cipher, k: Bytes, s: Registers, t: nat)
    requires SoundCipher(c) && RegistersOk(s)
    ensures Backward(c, k, Forward(c, k, s, t), t) == s
  {
    hide XorCounter;
    var b := c.encrypt(k, s.a + s.r[0]);
    var f := Forward(c, k, s, t);
    XorCounterTwice(b[..8], t);
    assert b[..8] + b[8..] == b && f.r[|f.r| - 1] == b[8..];
    assert (s.a + s.r[0])[..8] == s.a && (s.a + s.r[0])[8..] == s.r[0];
    assert [s.r[0]] + f.r[..|f.r| - 1] == s.r;
  }

  lemma ForwardUndoesBackward(c: Cipher, k: Bytes, s: Registers, t: nat)
    requires SoundCipher(c) && RegistersOk(s)
    ensures Forward(c, k, Backward(c, k, s, t), t) == s
  {
    hide XorCounter;
    var n := |s.r|;
    var x := XorCounter(s.a, t) + s.r[n - 1];
    var b := c.decrypt(k, x);
    var p := Backward(c, k, s, t);
    XorCounterTwice(s.a, t);
    assert b[..8] + b[8..] == b && p.a + p.r[0] == b;
    assert x[..8] == XorCounter(s.a, t) && x[8..] == s.r[n - 1];
    assert p.r[1..] + [s.r[n - 1]] == s.r;
  }

  lemma {:induction false} RunBackwardUndoes(c: Cipher, k: Bytes, s: Registers, t: nat)
    requires SoundCipher(c) && RegistersOk(s)
    ensures RunBackward(c, k, RunForward(c, k, s, t), t) == s
    decreases t
  {
    if t > 0 {
      BackwardUndoesForward(c, k, RunForward(c, k, s, t - 1), t);
      RunBackwardUndoes(c, k, s, t - 1);
      hide Forward, Backward;
    }
  }

  lemma {:induction false} RunForwardUndoes(c: Cipher, k: Bytes, s: Registers, t: nat)
    requires SoundCipher(c) && RegistersOk(s)
    ensures RunForward(c, k, RunBackward(c, k, s, t), t) == s
    decreases t
  {
    hide Forward, Backward, SoundCipher, RegistersOk;
    if t > 0 {
      RunForwardUndoes(c, k, Backward(c, k, s, t), t - 1);
      ForwardUndoesBackward(c, k, s, t);
    }
  }

  // ---------- wrap and unwrap on bytes ----------

  function Blocks(b: Bytes): (r: seq<Bytes>)
    requires |b| % 8 == 0
    ensures |r| == |b| / 8 && forall i :: 0 <= i < |r| ==> |r[i]| == 8
  {
    seq(|b| / 8, i requires 0 <= i < |b| / 8 => b[8 * i..8 * i + 8])
  }

  function Joined(r: seq<Bytes>): Bytes {
    if r == [] then [] else r[0] + Joined(r[1..])
  }

  /** Section 2.2.1. */
  function Wrap(c: Cipher, k: Bytes, plain: Bytes): Bytes
    requires SoundCipher(c) && |plain| % 8 == 0
  {
    if plain == [] then DEFAULT_IV
    else
      var s := RunForward(c, k, Registers(DEFAULT_IV, Blocks(plain)), 6 * (|plain| / 8));
      s.a + Joined(s.r)
  }

  /** Section 2.2.2. */
  function Unwrap(c: Cipher, k: Bytes, wrapped: Bytes): Option<Bytes>
    requires SoundCipher(c) && |wrapped| % 8 == 0 && |wrapped| >= 16
  {
    var s := RunBackward(c, k, Registers(wrapped[..8], Blocks(wrapped[8..])), 6 * (|wrapped| / 8 - 1));
    if s.a == DEFAULT_IV then Some(Joined(s.r)) else None
  }

  lemma {:induction false} JoinedLength(r: seq<Bytes>)
    requires forall i :: 0 <= i < |r| ==> |r[i]| == 8
    ensures |Joined(r)| == 8 * |r|
    decreases |r|
  {
    if r != [] { JoinedLength(r[1..]); }
  }

  lemma {:induction false} BlockOfJoined(r: seq<Bytes>, i: nat)
    requires forall j :: 0 <= j < |r| ==> |r[j]| == 8
    requires i < |r|
    ensures |Joined(r)| == 8 * |r| && Joined(r)[8 * i..8 * i + 8] == r[i]
    decreases |r|
  {
    JoinedLength(r);
    if i > 0 {
      BlockOfJoined(r[1..], i - 1);
      JoinedLength(r[1..]);
      assert Joined(r)[8 * i..8 * i + 8] == Joined(r[1..])[8 * (i - 1)..8 * (i - 1) + 8];
    }
  }

  lemma BlocksOfJoined(r: seq<Bytes>)
    requires forall i :: 0 <= i < |r| ==> |r[i]| == 8
    ensures |Joined(r)| == 8 * |r| && Blocks(Joined(r)) == r
  {
    JoinedLength(r);
    forall i | 0 <= i < |r|
      ensures Joined(r)[8 * i..8 * i + 8] == r[i]
    {
      BlockOfJoined(r, i);
    }
  }

  lemma {:induction false} JoinedOfBlocks(b: Bytes)
    requires |b| % 8 == 0
    ensures Joined(Blocks(b)) == b
    decreases |b|
  {
    if b != [] {
      JoinedOfBlocks(b[8..]);
      assert Blocks(b)[1..] == Blocks(b[8..]) by {
        forall i | 0 <= i < |b[8..]| / 8
          ensures Blocks(b)[1..][i] == Blocks(b[8..])[i]
        {
          assert b[8..][8 * i..8 * i + 8] == b[8 * (i + 1)..8 * (i + 1) + 8];
        }
      }
      assert b == b[..8] + b[8..];
    }
  }

  /** Unwrapping a wrapped key gives the key, for every key of at least one block. */
  lemma UnwrapUndoesWrap(c: Cipher, k: Bytes, plain: Bytes)
    requires SoundCipher(c) && |plain| % 8 == 0 && plain != []
    ensures |Wrap(c, k, plain)| == |plain| + 8 && Unwrap(c, k, Wrap(c, k, plain)) == Some(plain)
  {
    hide RunForward, RunBackward, Joined, Blocks;
    var n := |plain| / 8;
    var s0 := Registers(DEFAULT_IV, Blocks(plain));
    var s := RunForward(c, k, s0, 6 * n);
    BlocksOfJoined(s.r);
    assert (s.a + Joined(s.r))[..8] == s.a && (s.a + Joined(s.r))[8..] == Joined(s.r);
    RunBackwardUndoes(c, k, s0, 6 * n);
    JoinedOfBlocks(plain);
  }

  /** What unwraps successfully is exactly what its content wraps to. */
  lemma WrapUndoesUnwrap(c: Cipher, k: Bytes, wrapped: Bytes)
    requires SoundCipher(c) && |wrapped| % 8 == 0 && |wrapped| >= 16 && Unwrap(c, k, wrapped).Some?
    ensures var plain := Unwrap(c, k, wrapped).value;
            |plain| % 8 == 0 && plain != [] && Wrap(c, k, plain) == wrapped
  {
    hide RunForward, RunBackward, Joined, Blocks;
    var n := |wrapped| / 8 - 1;
    var s := Registers(wrapped[..8], Blocks(wrapped[8..]));
    var s0 := RunBackward(c, k, s, 6 * n);
    BlocksOfJoined(s0.r);
    RunForwardUndoes(c, k, s, 6 * n);
    JoinedOfBlocks(wrapped[8..]);
    assert wrapped == wrapped[..8] + wrapped[8..];
  }

  // ---------- the indexed loops ----------

  /** The registers as the indexed form has them after `m` steps of a round. */
  function Rotated(r: seq<Bytes>, m: nat): seq<Bytes>
    requires m <= |r|
  {
    r[m..] + r[..m]
  }

  lemma ForwardIndexed(c: Cipher, k: Bytes, a: Bytes, r: seq<Bytes>, m: nat, t: nat)
    requires SoundCipher(c) && m < |r| && RegistersOk(Registers(a, r)) && RegistersOk(Registers(a, Rotated(r, m)))
    ensures var b := c.encrypt(k, a + r[m]);
            |b| == 16 && Forward(c, k, Registers(a, Rotated(r, m)), t) == Registers(XorCounter(b[..8], t),
                  Rotated(r[m := b[8..]], m + 1))
  {
    hide XorCounter;
    var b := c.encrypt(k, a + r[m]);
    assert Rotated(r, m)[0] == r[m];
    assert Rotated(r, m)[1..] + [b[8..]] == Rotated(r[m := b[8..]], m + 1);
  }

  lemma BackwardIndexed(c: Cipher, k: Bytes, a: Bytes, r: seq<Bytes>, m: nat, t: nat)
    requires SoundCipher(c) && 0 < m <= |r| && RegistersOk(Registers(a, r)) && RegistersOk(Registers(a, Rotated(r, m)))
    ensures var b := c.decrypt(k, XorCounter(a, t) + r[m - 1]);
            |b| == 16 && Backward(c, k, Registers(a, Rotated(r, m)), t) == Registers(b[..8],
                  Rotated(r[m - 1 := b[8..]], m - 1))
  {
    hide XorCounter;
    var b := c.decrypt(k, XorCounter(a, t) + r[m - 1]);
    var n := |r|;
    assert Rotated(r, m)[n - 1] == r[m - 1];
    assert [b[8..]] + Rotated(r, m)[..n - 1] == Rotated(r[m - 1 := b[8..]], m - 1);
  }

  lemma FullRotation(r: seq<Bytes>)
    ensures Rotated(r, |r|) == r && Rotated(r, 0) == r
  {
  }

  lemma RotatedOk(a: Bytes, r: seq<Bytes>, m: nat)
    requires |a| == 8 && |r| > 0 && m <= |r| && forall i :: 0 <= i < |r| ==> |r[i]| == 8
    ensures RegistersOk(Registers(a, r)) && RegistersOk(Registers(a, Rotated(r, m)))
  {
  }

  ghost predicate EightEach(r: seq<Bytes>) {
    forall i :: 0 <= i < |r| ==> |r[i]| == 8
  }

  /** aesKWWrap computes the shifting-register form with registers that stay in place. */
  method AesKwWrap(c: Cipher, kek: Bytes, plaintext: Bytes) returns (out: Option<Bytes>)
    requires SoundCipher(c)
    ensures out == if |plaintext| % 8 != 0 then None else Some(Wrap(c, kek, plaintext))
  {
    if |plaintext| % 8 != 0 { return None; }
    hide SoundCipher, XorCounter, RunForward, Blocks, Joined;
    var n := |plaintext| / 8;
    // regs[0] is A.
    var regs := new Bytes[n + 1](_ => DEFAULT_IV);
    var blocks := Blocks(plaintext);
    var i := 1;
    while i <= n
      invariant 1 <= i <= n + 1
      invariant regs[0] == DEFAULT_IV && regs[1..i] == blocks[..i - 1]
    {
      regs[i] := blocks[i - 1];
      i := i + 1;
    }
    assert regs[1..] == blocks;
    if n > 0 { Rounds(c, kek, regs, blocks); }
    out := Some(Concatenated(regs));
    NothingJoined();
    if n == 0 { assert plaintext == [] && regs[1..] == [] && DEFAULT_IV + [] == DEFAULT_IV; }
  }

  lemma NothingJoined()
    ensures Joined([]) == []
  {
  }

  function Concatenated(regs: array<Bytes>): Bytes
    requires regs.Length > 0
    reads regs
  {
    regs[0] + Joined(regs[1..])
  }

  /** The six rounds, in place. */
  method Rounds(c: Cipher, kek: Bytes, regs: array<Bytes>, ghost blocks: seq<Bytes>)
    requires SoundCipher(c) && regs.Length == |blocks| + 1 && |blocks| > 0 && EightEach(blocks)
    requires regs[0] == DEFAULT_IV && regs[1..] == blocks
    modifies regs
    ensures RegistersOk(Registers(DEFAULT_IV, blocks))
    ensures Registers(regs[0], regs[1..]) == RunForward(c, kek, Registers(DEFAULT_IV, blocks), 6 * |blocks|)
  {
    hide SoundCipher, RunForward;
    var n := regs.Length - 1;
    ghost var s0 := Registers(DEFAULT_IV, blocks);
    RotatedOk(DEFAULT_IV, blocks, 0);
    NoSteps(c, kek, s0);
    var j := 0;
    while j < 6
      invariant 0 <= j <= 6
      invariant Registers(regs[0], regs[1..]) == RunForward(c, kek, s0, n * j)
    {
      OneRound(c, kek, regs, n * j, s0);
      assert n * j + n == n * (j + 1);
      j := j + 1;
    }
  }

  /** One round: a step for every register, `base` steps having been made before. */
  method OneRound(c: Cipher, kek: Bytes, regs: array<Bytes>, base: nat, ghost s0: Registers)
    requires SoundCipher(c) && RegistersOk(s0) && regs.Length == |s0.r| + 1
    requires Registers(regs[0], regs[1..]) == RunForward(c, kek, s0, base)
    modifies regs
    ensures Registers(regs[0], regs[1..]) == RunForward(c, kek, s0, base + |s0.r|)
  {
    hide SoundCipher, XorCounter, RunForward, Forward, Rotated, EightEach, RegistersOk;
    var n := regs.Length - 1;
    FullRotation(regs[1..]);
    EachIsEight(Registers(regs[0], regs[1..]));
    var i := 1;
    while i <= n
      invariant 1 <= i <= n + 1
      invariant |regs[0]| == 8 && EightEach(regs[1..])
      invariant Registers(regs[0], Rotated(regs[1..], i - 1)) == RunForward(c, kek, s0, base + i - 1)
    {
      ghost var r := regs[1..];
      InPlaceOk(regs[0], r, i - 1);
      var t := base + i;
      ForwardIndexed(c, kek, regs[0], r, i - 1, t);
      OneStep(c, kek, s0, t);
      var buf := regs[0] + regs[i];
      buf := c.encrypt(kek, buf);
      regs[0] := XorCounter(buf[..8], t);
      regs[i] := buf[8..];
      assert regs[1..] == r[i - 1 := buf[8..]];
      StillEight(r, i - 1, buf[8..]);
      i := i + 1;
    }
    FullRotation(regs[1..]);
  }

  lemma EachIsEight(s: Registers)
    requires RegistersOk(s)
    ensures |s.a| == 8 && EightEach(s.r)
  {
  }

  lemma InPlaceOk(a: Bytes, r: seq<Bytes>, m: nat)
    requires |a| == 8 && |r| > 0 && m <= |r| && EightEach(r)
    ensures RegistersOk(Registers(a, r)) && RegistersOk(Registers(a, Rotated(r, m)))
    ensures forall i :: 0 <= i < |r| ==> |r[i]| == 8
  {
  }

  lemma StillEight(r: seq<Bytes>, m: nat, b: Bytes)
    requires EightEach(r) && m < |r| && |b| == 8
    ensures EightEach(r[m := b])
  {
  }

  lemma NoSteps(c: Cipher, k: Bytes, s: Registers)
    requires SoundCipher(c) && RegistersOk(s)
    ensures RunForward(c, k, s, 0) == s
  {
  }

  lemma OneStep(c: Cipher, k: Bytes, s: Registers, t: nat)
    requires SoundCipher(c) && RegistersOk(s) && t > 0
    ensures RunForward(c, k, s, t) == Forward(c, k, RunForward(c, k, s, t - 1), t)
  {
  }

  /** aesKWUnwrap. */
  method AesKwUnwrap(c: Cipher, kek: Bytes, wrapped: Bytes) returns (out: Option<Bytes>)
    requires SoundCipher(c)
    ensures out == if |wrapped| % 8 != 0 || |wrapped| < 16 then None else Unwrap(c, kek, wrapped)
  {
    if |wrapped| % 8 != 0 || |wrapped| < 16 { return None; }
    hide SoundCipher, XorCounter, RunBackward, Blocks, Joined;
    var n := |wrapped| / 8 - 1;
    var first := wrapped[..8];
    var regs := new Bytes[n + 1](_ => first);
    var blocks := Blocks(wrapped[8..]);
    var i := 1;
    while i <= n
      invariant 1 <= i <= n + 1
      invariant regs[0] == first && regs[1..i] == blocks[..i - 1]
    {
      regs[i] := blocks[i - 1];
      i := i + 1;
    }
    assert regs[1..] == blocks;
    RoundsBack(c, kek, regs, first, blocks);
    if regs[0] != DEFAULT_IV { return None; }
    out := Some(Joined(regs[1..]));
  }

  method RoundsBack(c: Cipher, kek: Bytes, regs: array<Bytes>, ghost first: Bytes, ghost blocks: seq<Bytes>)
    requires SoundCipher(c) && regs.Length == |blocks| + 1 && |blocks| > 0 && EightEach(blocks) && |first| == 8
    requires regs[0] == first && regs[1..] == blocks
    modifies regs
    ensures RegistersOk(Registers(first, blocks))
    ensures Registers(regs[0], regs[1..]) == RunBackward(c, kek, Registers(first, blocks), 6 * |blocks|)
  {
    hide SoundCipher, RunBackward;
    var n := regs.Length - 1;
    RotatedOk(first, blocks, 0);
    ghost var result := RunBackward(c, kek, Registers(first, blocks), 6 * n);
    var j := 5;
    while j >= 0
      invariant -1 <= j <= 5
      invariant RegistersOk(Registers(regs[0], regs[1..]))
      invariant RunBackward(c, kek, Registers(regs[0], regs[1..]), n * (j + 1)) == result
    {
      assert n * j + n == n * (j + 1);
      OneRoundBack(c, kek, regs, n * j, result);
      j := j - 1;
    }
    NoStepsBack(c, kek, Registers(regs[0], regs[1..]));
  }

  method OneRoundBack(c: Cipher, kek: Bytes, regs: array<Bytes>, base: nat, ghost result: Registers)
    requires SoundCipher(c) && regs.Length > 1 && RegistersOk(Registers(regs[0], regs[1..]))
    requires RunBackward(c, kek, Registers(regs[0], regs[1..]), base + regs.Length - 1) == result
    modifies regs
    ensures RegistersOk(Registers(regs[0], regs[1..]))
    ensures RunBackward(c, kek, Registers(regs[0], regs[1..]), base) == result
  {
    hide SoundCipher, XorCounter, RunBackward, Backward, Rotated, EightEach, RegistersOk;
    var n := regs.Length - 1;
    FullRotation(regs[1..]);
    EachIsEight(Registers(regs[0], regs[1..]));
    var i := n;
    while i >= 1
      invariant 0 <= i <= n
      invariant |regs[0]| == 8 && EightEach(regs[1..]) && RegistersOk(Registers(regs[0], Rotated(regs[1..], i)))
      invariant RunBackward(c, kek, Registers(regs[0], Rotated(regs[1..], i)), base + i) == result
    {
      ghost var r := regs[1..];
      InPlaceOk(regs[0], r, i);
      var t := base + i;
      BackwardIndexed(c, kek, regs[0], r, i, t);
      OneStepBack(c, kek, Registers(regs[0], Rotated(r, i)), t);
      var buf := XorCounter(regs[0], t) + regs[i];
      buf := c.decrypt(kek, buf);
      regs[0] := buf[..8];
      regs[i] := buf[8..];
      assert regs[1..] == r[i - 1 := buf[8..]];
      StillEight(r, i - 1, buf[8..]);
      InPlaceOk(regs[0], regs[1..], i - 1);
      i := i - 1;
    }
    FullRotation(regs[1..]);
  }

  lemma NoStepsBack(c: Cipher, k: Bytes, s: Registers)
    requires SoundCipher(c) && RegistersOk(s)
    ensures RunBackward(c, k, s, 0) == s
  {
  }

  lemma OneStepBack(c: Cipher, k: Bytes, s: Registers, t: nat)
    requires SoundCipher(c) && RegistersOk(s) && t > 0
    ensures RunBackward(c, k, s, t) == RunBackward(c, k, Backward(c, k, s, t), t - 1)
  {
  }
}
