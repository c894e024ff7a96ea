/** AES-SIV as name.go computes it, byte by byte: doubling, S2V over CMAC and the comparison of
    tags, against section 2 of RFC 5297. */
module Siv {
  import opened FileSystem
  import opened Crypto

  const BLOCK := 16

  // ---------- doubling ----------

  /** Multiplication by x modulo x^128 + x^7 + x^2 + x + 1, the first bit of a block being the
      highest coefficient (section 2.3 of RFC 5297). */
  function Double(b: Bytes): (d: Bytes)
    requires |b| == BLOCK
    ensures |d| == BLOCK
  {
    var x := FromBigEndian(b);
    if 2 * x < Power2(128) then BigEndian(2 * x, BLOCK)
    else BigEndian(XorBits(2 * x - Power2(128), 0x87, 128), BLOCK)
  }

  lemma {:induction false} FirstDigit(c: Byte, s: Bytes)
    ensures FromBigEndian([c] + s) == c * Power256(|s|) + FromBigEndian(s)
    decreases |s|
  {
    if s == [] {
      assert [c] + s == [c] && FromBigEndian([]) == 0;
    } else {
      var front := s[..|s| - 1];
      FirstDigit(c, front);
      assert ([c] + s)[..|s|] == [c] + front;
      TimesOneMore(c, Power256(|s| - 1));
    }
  }

  lemma TimesOneMore(c: nat, p: nat)
    ensures c * (256 * p) == 256 * (c * p)
  {
  }

  /** An exclusive or that only reaches the low bits leaves the high ones alone. */
  lemma {:induction false} XorLow(l: nat, h: nat, k: nat, m: nat, n: nat)
    requires l < Power2(m) && k < Power2(m)
    ensures XorBits(l + Power2(m) * h, k, m + n) == XorBits(l, k, m) + Power2(m) * XorBits(h, 0, n)
    decreases m
  {
    hide XorBits, Power2;
    PowerStep(m);
    if m == 0 {
      NoBits(l, k);
    } else {
      var p := Power2(m - 1);
      XorLow(l / 2, h, k / 2, m - 1, n);
      Halved(l, p, h, k);
      XorStep(l + Power2(m) * h, k, m + n);
      XorStep(l, k, m);
      TwiceProduct(p, XorBits(h, 0, n));
    }
  }

  lemma PowerStep(m: nat)
    ensures Power2(m) == if m == 0 then 1 else 2 * Power2(m - 1)
  {
  }

  lemma NoBits(l: nat, k: nat)
    ensures XorBits(l, k, 0) == 0
  {
  }

  lemma Halved(l: nat, p: nat, h: nat, k: nat)
    ensures (l + 2 * p * h) / 2 == l / 2 + p * h
    ensures (l + 2 * p * h + k) % 2 == (l + k) % 2
  {
    var q := p * h;
    assert 2 * p * h == 2 * q;
  }

  lemma TwiceProduct(p: nat, x: nat)
    ensures 2 * (p * x) == 2 * p * x
  {
  }

  lemma {:induction false} XorNothing(a: nat, n: nat)
    requires a < Power2(n)
    ensures XorBits(a, 0, n) == a
    decreases n
  {
    if n > 0 { XorNothing(a / 2, n - 1); }
  }

  /** Changing the last byte of a block changes the low eight bits of its number. */
  lemma LastByteXor(s: Bytes, m: Byte)
    requires |s| == BLOCK
    ensures FromBigEndian(s[BLOCK - 1 := XorByte(s[BLOCK - 1], m)]) == XorBits(FromBigEndian(s), m, 128)
  {
    hide Power2, Power256, XorBits;
    var front, l := s[..BLOCK - 1], s[BLOCK - 1];
    var h := FromBigEndian(front);
    var t := s[BLOCK - 1 := XorByte(l, m)];
    assert t[..BLOCK - 1] == front && s[..BLOCK - 1] == front;
    EightBits();
    NumberFits(front);
    PowersAgree(BLOCK - 1);
    XorLow(l, h, m, 8, 120);
    XorNothing(h, 120);
  }

  lemma EightBits()
    ensures Power2(8) == 256
  {
  }

  /** The low bit that comes in from the next byte, and the one that goes out. */
  lemma OneByteDoubled(c: Byte, carry: nat, rest: nat, rest': nat, p: nat)
    requires carry <= 1 && rest' + carry * p == 2 * rest
    ensures c * 2 % 256 + carry < 256
    ensures (c * 2 % 256 + carry) * p + rest' + (c / 128) * (256 * p) == 2 * (c * p + rest)
  {
    assert c * 2 == c * 2 % 256 + 256 * (c / 128);
    Spread(c * 2 % 256, carry, p);
    Spread(c * 2 % 256, 256 * (c / 128), p);
    assert (c * 2) * p == (c * 2 % 256) * p + (256 * (c / 128)) * p;
    assert (256 * (c / 128)) * p == (c / 128) * (256 * p);
    assert (c * 2) * p == 2 * (c * p);
  }

  lemma Spread(a: nat, b: nat, p: nat)
    ensures (a + b) * p == a * p + b * p
  {
  }

  /** dbl16. */
  method Dbl16(b: Bytes) returns (r: Bytes)
    requires |b| == BLOCK
    ensures r == Double(b)
  {
    hide Double, Power256, Power2, XorBits, FromBigEndian;
    var out := new Byte[BLOCK](_ => 0);
    var carry: Byte := 0;
    var i := BLOCK - 1;
    NoDigits();
    assert out[BLOCK..] == [] && b[BLOCK..] == [];
    while i >= 0
      invariant -1 <= i < BLOCK && carry <= 1
      invariant FromBigEndian(out[i + 1..]) + carry * Power256(BLOCK - 1 - i) == 2 * FromBigEndian(b[i + 1..])
    {
      var newCarry: Byte := b[i] / 128;
      OneByteDoubled(b[i], carry, FromBigEndian(b[i + 1..]), FromBigEndian(out[i + 1..]), Power256(BLOCK - 1 - i));
      ghost var tail := out[i + 1..];
      out[i] := b[i] * 2 % 256 + carry;
      assert out[i + 1..] == tail && out[i..] == [out[i]] + tail;
      assert b[i..] == [b[i]] + b[i + 1..];
      FirstDigit(out[i], tail);
      FirstDigit(b[i], b[i + 1..]);
      NextPower(BLOCK - 1 - i);
      carry := newCarry;
      i := i - 1;
    }
    assert out[0..] == out[..] && b[0..] == b;
    ghost var doubled := out[..];
    if carry != 0 {
      LastByteXor(doubled, 0x87);
      out[BLOCK - 1] := XorByte(out[BLOCK - 1], 0x87);
      assert out[..] == doubled[BLOCK - 1 := XorByte(doubled[BLOCK - 1], 0x87)];
    }
    r := out[..];
    DoubledIs(b, doubled, carry, r);
  }

  lemma NoDigits()
    ensures FromBigEndian([]) == 0
  {
  }

  lemma NextPower(n: nat)
    ensures Power256(n + 1) == 256 * Power256(n)
  {
  }

  lemma DoubledIs(b: Bytes, doubled: Bytes, carry: nat, r: Bytes)
    requires |b| == |doubled| == |r| == BLOCK && carry <= 1
    requires FromBigEndian(doubled) + carry * Power256(BLOCK) == 2 * FromBigEndian(b)
    requires FromBigEndian(r) == if carry == 0 then FromBigEndian(doubled)
               else XorBits(FromBigEndian(doubled), 0x87, 128)
    ensures r == Double(b)
  {
    hide Power256, Power2, XorBits, FromBigEndian, BigEndian;
    PowersAgree(BLOCK);
    NumberFits(doubled);
    NumberRoundTrip(r);
  }

  // ---------- exclusive or and comparison ----------

  /** xor16. */
  method Xor16(a: Bytes, b: Bytes) returns (r: Bytes)
    requires |a| == |b| == BLOCK
    ensures r == XorBytes(a, b)
  {
    hide XorByte;
    var out := new Byte[BLOCK](_ => 0);
    var i := 0;
    while i < BLOCK
      invariant i <= BLOCK
      invariant out[..i] == XorBytes(a, b)[..i]
    {
      out[i] := XorByte(a[i], b[i]);
      i := i + 1;
    }
    r := out[..];
  }

  function OrBits(a: nat, b: nat, n: nat): nat {
    if n == 0 then 0 else (if a % 2 == 0 && b % 2 == 0 then 0 else 1) + 2 * OrBits(a / 2, b / 2, n - 1)
  }

  lemma {:induction false} OrFits(a: nat, b: nat, n: nat)
    ensures OrBits(a, b, n) < Power2(n)
    decreases n
  {
    if n > 0 { OrFits(a / 2, b / 2, n - 1); }
  }

  lemma OrStep(a: nat, b: nat, n: nat)
    requires n > 0
    ensures OrBits(a, b, n) == (if a % 2 == 0 && b % 2 == 0 then 0 else 1) + 2 * OrBits(a / 2, b / 2, n - 1)
  {
  }

  lemma {:induction false} OrIsNothing(a: nat, b: nat, n: nat)
    requires a < Power2(n) && b < Power2(n)
    ensures OrBits(a, b, n) == 0 <==> a == 0 && b == 0
    decreases n
  {
    hide OrBits, Power2;
    PowerStep(n);
    if n == 0 {
      assert OrBits(a, b, 0) == 0 by { NoOrBits(a, b); }
    } else {
      OrIsNothing(a / 2, b / 2, n - 1);
      OrStep(a, b, n);
    }
  }

  lemma NoOrBits(a: nat, b: nat)
    ensures OrBits(a, b, 0) == 0
  {
  }

  lemma {:induction false} XorIsNothing(a: nat, b: nat, n: nat)
    requires a < Power2(n) && b < Power2(n)
    ensures XorBits(a, b, n) == 0 <==> a == b
    decreases n
  {
    hide XorBits, Power2;
    PowerStep(n);
    if n == 0 {
      NoBits(a, b);
    } else {
      XorIsNothing(a / 2, b / 2, n - 1);
      XorStep(a, b, n);
      SameHalves(a, b);
    }
  }

  lemma SameHalves(a: nat, b: nat)
    ensures a == b <==> a / 2 == b / 2 && (a + b) % 2 == 0
  {
    var q := a / 2;
    if q == b / 2 {
      assert a == 2 * q + a % 2 && b == 2 * q + b % 2;
      assert a + b == 2 * (2 * q) + (a % 2 + b % 2);
    }
  }

  function OrByte(a: Byte, b: Byte): Byte {
    OrFits(a, b, 8);
    assert Power2(8) == 256;
    OrBits(a, b, 8)
  }

  lemma BitsTell(v: Byte, a: Byte, b: Byte)
    ensures OrByte(v, XorByte(a, b)) == 0 <==> v == 0 && a == b
  {
    assert Power2(8) == 256;
    XorIsNothing(a, b, 8);
    OrIsNothing(v, XorByte(a, b), 8);
    hide XorBits, OrBits, Power2;
  }

  /** subtleEqual: all bytes are looked at, and the answer is equality. */
  method SubtleEqual(a: Bytes, b: Bytes) returns (same: bool)
    ensures same <==> a == b
  {
    hide XorByte, OrByte;
    if |a| != |b| { return false; }
    var v: Byte := 0;
    var i := 0;
    while i < |a|
      invariant i <= |a|
      invariant v == 0 <==> a[..i] == b[..i]
    {
      BitsTell(v, a[i], b[i]);
      assert a[..i + 1] == a[..i] + [a[i]] && b[..i + 1] == b[..i] + [b[i]];
      v := OrByte(v, XorByte(a[i], b[i]));
      i := i + 1;
    }
    same := v == 0;
  }

  // ---------- S2V ----------

  type Cmac = (Bytes, Bytes) -> Bytes

  ghost predicate SoundCmac(cmac: Cmac) {
    forall k, m {:trigger cmac(k, m)} :: |cmac(k, m)| == BLOCK
  }

  /** D after the strings before the last: doubled and combined with the CMAC of each. */
  ghost function Chained(cmac: Cmac, key: Bytes, strings: seq<Bytes>): (d: Bytes)
    requires SoundCmac(cmac)
    ensures |d| == BLOCK
  {
    if strings == [] then cmac(key, Zeros(BLOCK))
    else XorBytes(Double(Chained(cmac, key, strings[..|strings| - 1])), cmac(key, strings[|strings| - 1]))
  }

  function Zeros(n: nat): (z: Bytes)
    ensures |z| == n
  {
    seq(n, _ => 0)
  }

  /** S2V of a non-empty list of strings (section 2.4 of RFC 5297). */
  ghost function S2V(cmac: Cmac, key: Bytes, strings: seq<Bytes>): Bytes
    requires SoundCmac(cmac) && strings != []
  {
    var last := strings[|strings| - 1];
    var d := Chained(cmac, key, strings[..|strings| - 1]);
    if |last| >= BLOCK
    then cmac(key, last[..|last| - BLOCK] + XorBytes(last[|last| - BLOCK..], d))
    else cmac(key, XorBytes(last + [0x80] + Zeros(BLOCK - 1 - |last|), Double(d)))
  }

  /** Absent associated data is left out, empty associated data is a string like any other. */
  function Strings(aad: Option<Bytes>, plain: Bytes): seq<Bytes> {
    match aad case None => [plain] case Some(a) => [a, plain]
  }

  /** s2vCMAC. */
  method S2vCmac(cmac: Cmac, key: Bytes, aad: Option<Bytes>, plain: Bytes) returns (tag: Bytes)
    requires SoundCmac(cmac)
    ensures tag == S2V(cmac, key, Strings(aad, plain))
  {
    hide Double, XorByte;
    var d := cmac(key, Zeros(BLOCK));
    ChainStarts(cmac, key);
    if aad.Some? {
      ChainGrows(cmac, key, [], aad.value);
      var mac := cmac(key, aad.value);
      d := Dbl16(d);
      d := Xor16(d, mac);
    }
    assert Strings(aad, plain)[..|Strings(aad, plain)| - 1] == if aad.Some? then [] + [aad.value] else [];
    assert d == Chained(cmac, key, Strings(aad, plain)[..|Strings(aad, plain)| - 1]);
    if |plain| >= BLOCK {
      var padded := XorEnd(plain, d);
      tag := cmac(key, padded);
    } else {
      var padded := Pad(plain);
      d := Dbl16(d);
      var mixed := Xor16(padded, d);
      tag := cmac(key, mixed);
    }
  }

  lemma ChainStarts(cmac: Cmac, key: Bytes)
    requires SoundCmac(cmac)
    ensures Chained(cmac, key, []) == cmac(key, Zeros(BLOCK))
  {
  }

  lemma ChainGrows(cmac: Cmac, key: Bytes, strings: seq<Bytes>, s: Bytes)
    requires SoundCmac(cmac)
    ensures Chained(cmac, key, strings + [s]) == XorBytes(Double(Chained(cmac, key, strings)), cmac(key, s))
  {
    assert (strings + [s])[..|strings|] == strings;
  }

  /** A short last string, filled up to a block. */
  method Pad(plain: Bytes) returns (r: Bytes)
    requires |plain| < BLOCK
    ensures r == plain + [0x80] + Zeros(BLOCK - 1 - |plain|)
  {
    var padded := new Byte[BLOCK](_ => 0);
    var i := 0;
    while i < |plain|
      invariant i <= |plain|
      invariant padded[..i] == plain[..i] && forall j :: i <= j < BLOCK ==> padded[j] == 0
    {
      padded[i] := plain[i];
      i := i + 1;
    }
    padded[|plain|] := 0x80;
    r := padded[..];
  }

  /** The loop that combines D with the last sixteen bytes. */
  method XorEnd(plain: Bytes, d: Bytes) returns (r: Bytes)
    requires |plain| >= BLOCK && |d| == BLOCK
    ensures r == plain[..|plain| - BLOCK] + XorBytes(plain[|plain| - BLOCK..], d)
  {
    hide XorByte;
    var padded := new Byte[|plain|](j requires 0 <= j < |plain| => plain[j]);
    var off := |plain| - BLOCK;
    var i := 0;
    while i < BLOCK
      invariant i <= BLOCK
      invariant forall j :: 0 <= j < off ==> padded[j] == plain[j]
      invariant forall j :: off <= j < off + i ==> padded[j] == XorByte(plain[j], d[j - off])
      invariant forall j :: off + i <= j < |plain| ==> padded[j] == plain[j]
    {
      padded[off + i] := XorByte(padded[off + i], d[i]);
      i := i + 1;
    }
    r := padded[..];
    assert r == plain[..off] + XorBytes(plain[off..], d);
  }

  // ---------- the cipher ----------

  /** The library's S2V is the one built on this CMAC. */
  ghost predicate BuiltOn(l: Library, cmac: Cmac) {
    && SoundCmac(cmac)
    && forall k, a, p {:trigger l.s2v(k, a, p)} :: l.s2v(k, a, p) == S2V(cmac, k, Strings(a, p))
  }

  /** sivEncrypt. */
  method SivSeal(v: Vault, cmac: Cmac, plain: Bytes, aad: Option<Bytes>) returns (ct: Bytes)
    requires SoundSiv(v.lib) && BuiltOn(v.lib, cmac)
    ensures ct == SivEncrypt(v, plain, aad)
  {
    hide S2V;
    var tag := S2vCmac(cmac, v.macKey, aad, plain);
    assert tag == v.lib.s2v(v.macKey, aad, plain);
    var iv := tag;
    iv := iv[8 := iv[8] % 128];
    iv := iv[12 := iv[12] % 128];
    ct := tag + XorBytes(plain, v.lib.ctr(v.encKey, iv, |plain|));
  }

  /** sivDecrypt. */
  method SivOpen(v: Vault, cmac: Cmac, ct: Bytes, aad: Option<Bytes>) returns (plain: Option<Bytes>)
    requires SoundSiv(v.lib) && BuiltOn(v.lib, cmac)
    ensures plain == SivDecrypt(v, ct, aad)
  {
    hide S2V;
    if |ct| < 16 { return None; }
    var tag, enc := ct[..16], ct[16..];
    var iv := tag;
    iv := iv[8 := iv[8] % 128];
    iv := iv[12 := iv[12] % 128];
    var pt := XorBytes(enc, v.lib.ctr(v.encKey, iv, |enc|));
    var computed := S2vCmac(cmac, v.macKey, aad, pt);
    assert computed == v.lib.s2v(v.macKey, aad, pt);
    var ok := SubtleEqual(computed, tag);
    plain := if ok then Some(pt) else None;
  }
}
