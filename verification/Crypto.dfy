/** The cryptographic primitives of the vault as abstract functions, the laws assumed of them,
    and AES-SIV (RFC 5297) built on top. */
module Crypto {
  import opened FileSystem

  /** `s2v` is S2V over CMAC, `ctr` the AES-CTR key stream, `dirHash` and `nameHash` SHA-1 in
      base32 and in base64, `seal` and `open` AES-GCM with the tag appended, `bytes` and `text`
      Go's conversions between strings and bytes. */
  datatype Library = Library(
    s2v: (Bytes, Option<Bytes>, Bytes) -> Bytes,
    ctr: (Bytes, Bytes, nat) -> Bytes,
    dirHash: Bytes -> string,
    nameHash: Bytes -> string,
    seal: (Bytes, Bytes, Bytes, Bytes) -> Bytes,
    open: (Bytes, Bytes, Bytes, Bytes) -> Option<Bytes>,
    bytes: string -> Bytes,
    text: Bytes -> string)

  datatype Vault = Vault(encKey: Bytes, macKey: Bytes, lib: Library)

  const TAG_SIZE := 16

  ghost predicate SoundText(l: Library) {
    forall s {:trigger l.bytes(s)} :: l.text(l.bytes(s)) == s
  }

  ghost predicate SoundSiv(l: Library) {
    && (forall k, a, p {:trigger l.s2v(k, a, p)} :: |l.s2v(k, a, p)| == TAG_SIZE)
    && (forall k, iv, n {:trigger l.ctr(k, iv, n)} :: |l.ctr(k, iv, n)| == n)
  }

  /** The digests never confuse two inputs; a directory digest has at least three characters. */
  ghost predicate SoundHashes(l: Library) {
    && (forall a, b {:trigger l.dirHash(a), l.dirHash(b)} :: l.dirHash(a) == l.dirHash(b) ==> a == b)
    && (forall a, b {:trigger l.nameHash(a), l.nameHash(b)} :: l.nameHash(a) == l.nameHash(b) ==> a == b)
    && (forall a {:trigger l.dirHash(a)} :: |l.dirHash(a)| > 2)
  }

  /** The last `n` base-256 digits of a number, big end first. */
  function BigEndian(i: nat, n: nat): (b: Bytes)
    ensures |b| == n
  {
    if n == 0 then [] else BigEndian(i / 256, n - 1) + [i % 256]
  }

  function FromBigEndian(b: Bytes): nat {
    if b == [] then 0 else FromBigEndian(b[..|b| - 1]) * 256 + b[|b| - 1] as int
  }

  function Power256(n: nat): nat {
    if n == 0 then 1 else 256 * Power256(n - 1)
  }

  lemma {:induction false} BigEndianRoundTrip(i: nat, n: nat)
    requires i < Power256(n)
    ensures FromBigEndian(BigEndian(i, n)) == i
    decreases n
  {
    if n > 0 {
      BigEndianRoundTrip(i / 256, n - 1);
      assert BigEndian(i, n)[..n - 1] == BigEndian(i / 256, n - 1);
    }
  }

  lemma {:induction false} NumberFits(b: Bytes)
    ensures FromBigEndian(b) < Power256(|b|)
    decreases |b|
  {
    if b != [] {
      NumberFits(b[..|b| - 1]);
    }
  }

  lemma {:induction false} NumberRoundTrip(b: Bytes)
    ensures BigEndian(FromBigEndian(b), |b|) == b
    decreases |b|
  {
    if b != [] {
      NumberRoundTrip(b[..|b| - 1]);
      assert b == b[..|b| - 1] + [b[|b| - 1]];
    }
  }

  /** binary.BigEndian.PutUint64. */
  function BE64(i: nat): (b: Bytes)
    ensures |b| == 8
  {
    BigEndian(i, 8)
  }

  const INDEX_END := 0x1_0000_0000_0000_0000

  /** What is opened was sealed, and what was sealed opens; under one header nonce a sealed chunk
      fits one index only. */
  ghost predicate SoundSeal(l: Library) {
    && (forall k, n, p, a {:trigger l.seal(k, n, p, a)} ::
          |l.seal(k, n, p, a)| == |p| + TAG_SIZE && l.open(k, n, l.seal(k, n, p, a), a) == Some(p))
    && (forall k, n, c, a {:trigger l.open(k, n, c, a)} :: l.open(k, n, c, a).Some? ==>
        l.seal(k, n, l.open(k, n, c, a).value, a) == c)
    && (forall k, n, p, q, h, i, j {:trigger l.seal(k, n, p, BE64(i) + h), l.seal(k, n, q, BE64(j) + h)} ::
          0 <= i < INDEX_END && 0 <= j < INDEX_END && l.seal(k, n, p, BE64(i) + h) == l.seal(k, n, q, BE64(j) + h) ==>
              i == j)
  }

  ghost predicate Sound(v: Vault) {
    SoundText(v.lib) && SoundSiv(v.lib) && SoundHashes(v.lib) && SoundSeal(v.lib)
  }

  // ---------- exclusive or ----------

  function XorBits(a: nat, b: nat, n: nat): nat {
    if n == 0 then 0 else (a + b) % 2 + 2 * XorBits(a / 2, b / 2, n - 1)
  }

  function Power2(n: nat): nat {
    if n == 0 then 1 else 2 * Power2(n - 1)
  }

  lemma {:induction false} XorFits(a: nat, b: nat, n: nat)
    ensures XorBits(a, b, n) < Power2(n)
    decreases n
  {
    if n > 0 { XorFits(a / 2, b / 2, n - 1); }
  }

  lemma {:induction false} XorTwice(a: nat, b: nat, n: nat)
    requires a < Power2(n)
    ensures XorBits(XorBits(a, b, n), b, n) == a
    decreases n
  {
    if n > 0 {
      XorTwice(a / 2, b / 2, n - 1);
      var r := XorBits(a / 2, b / 2, n - 1);
      var x := XorBits(a, b, n);
      BitBack(a, b, r);
      XorStep(a, b, n);
      XorStep(x, b, n);
      hide XorBits;
    }
  }

  lemma XorStep(a: nat, b: nat, n: nat)
    requires n > 0
    ensures XorBits(a, b, n) == (a + b) % 2 + 2 * XorBits(a / 2, b / 2, n - 1)
  {
  }

  lemma BitBack(a: nat, b: nat, r: nat)
    ensures var x := (a + b) % 2 + 2 * r; x / 2 == r && (x + b) % 2 + 2 * (a / 2) == a
  {
  }

  lemma {:induction false} PowersAgree(n: nat)
    ensures Power256(n) == Power2(8 * n)
    decreases n
  {
    if n > 0 {
      PowersAgree(n - 1);
      EightMore(8 * (n - 1));
    }
  }

  lemma EightMore(m: nat)
    ensures Power2(m + 8) == 256 * Power2(m)
  {
    TwoMore(m);
    TwoMore(m + 2);
    TwoMore(m + 4);
    TwoMore(m + 6);
  }

  lemma TwoMore(m: nat)
    ensures Power2(m + 2) == 4 * Power2(m)
  {
    assert Power2(m + 2) == 2 * Power2(m + 1);
  }

  function XorByte(a: Byte, b: Byte): Byte {
    XorFits(a, b, 8);
    assert Power2(8) == 256;
    XorBits(a, b, 8)
  }

  /** cipher.Stream.XORKeyStream. */
  function XorBytes(data: Bytes, stream: Bytes): (r: Bytes)
    requires |stream| == |data|
    ensures |r| == |data|
  {
    seq(|data|, i requires 0 <= i < |data| => XorByte(data[i], stream[i]))
  }

  lemma XorBytesTwice(data: Bytes, stream: Bytes)
    requires |stream| == |data|
    ensures XorBytes(XorBytes(data, stream), stream) == data
  {
    forall i | 0 <= i < |data|
      ensures XorByte(XorByte(data[i], stream[i]), stream[i]) == data[i]
    {
      assert Power2(8) == 256;
      XorTwice(data[i], stream[i], 8);
    }
  }

  // ---------- AES-SIV ----------

  /** The tag with the two top bits of its last two words cleared. */
  function Iv(tag: Bytes): Bytes
    requires |tag| == TAG_SIZE
  {
    tag[8 := tag[8] % 128][12 := tag[12] % 128]
  }

  /** sivEncrypt. */
  function SivEncrypt(v: Vault, plain: Bytes, aad: Option<Bytes>): Bytes
    requires SoundSiv(v.lib)
  {
    var tag := v.lib.s2v(v.macKey, aad, plain);
    tag + XorBytes(plain, v.lib.ctr(v.encKey, Iv(tag), |plain|))
  }

  /** sivDecrypt. */
  function SivDecrypt(v: Vault, ct: Bytes, aad: Option<Bytes>): Option<Bytes>
    requires SoundSiv(v.lib)
  {
    if |ct| < TAG_SIZE then None
    else
      var tag, enc := ct[..TAG_SIZE], ct[TAG_SIZE..];
      var plain := XorBytes(enc, v.lib.ctr(v.encKey, Iv(tag), |enc|));
      if v.lib.s2v(v.macKey, aad, plain) == tag then Some(plain) else None
  }

  lemma SivRoundTrip(v: Vault, plain: Bytes, aad: Option<Bytes>)
    requires SoundSiv(v.lib)
    ensures SivDecrypt(v, SivEncrypt(v, plain, aad), aad) == Some(plain)
    ensures |SivEncrypt(v, plain, aad)| == TAG_SIZE + |plain|
  {
    var tag := v.lib.s2v(v.macKey, aad, plain);
    var ct := SivEncrypt(v, plain, aad);
    assert ct[..TAG_SIZE] == tag && ct[TAG_SIZE..] == XorBytes(plain, v.lib.ctr(v.encKey, Iv(tag), |plain|));
    XorBytesTwice(plain, v.lib.ctr(v.encKey, Iv(tag), |plain|));
  }

  /** Only what the same keys and the same associated data encrypted is accepted. */
  lemma SivAcceptsOnlyItsOwn(v: Vault, ct: Bytes, aad: Option<Bytes>)
    requires SoundSiv(v.lib) && SivDecrypt(v, ct, aad).Some?
    ensures ct == SivEncrypt(v, SivDecrypt(v, ct, aad).value, aad)
  {
    var tag, enc := ct[..TAG_SIZE], ct[TAG_SIZE..];
    XorBytesTwice(enc, v.lib.ctr(v.encKey, Iv(tag), |enc|));
    assert ct == tag + enc;
  }

  // ---------- the laws are consistent ----------

  function Spell(s: string): Bytes {
    if s == "" then [] else var c := s[0] as int; [c / 65536, c / 256 % 256, c % 256] + Spell(s[1..])
  }

  function Unspell(b: Bytes): string {
    if |b| < 3 then ""
    else
      var c := b[0] as int * 65536 + b[1] as int * 256 + b[2] as int;
      [if 0 <= c < 0xD800 || 0xE000 <= c < 0x11_0000 then c as char else '?'] + Unspell(b[3..])
  }

  lemma ThreeDigits(c: nat)
    ensures c / 65536 * 65536 + c / 256 % 256 * 256 + c % 256 == c
  {
    assert c / 65536 == c / 256 / 256;
  }

  lemma {:induction false} SpellRoundTrip(s: string)
    ensures Unspell(Spell(s)) == s
    decreases |s|
  {
    if s != "" {
      SpellRoundTrip(s[1..]);
      var c := s[0] as int;
      ThreeDigits(c);
      assert Spell(s)[3..] == Spell(s[1..]);
      assert s == [s[0]] + s[1..];
    }
  }

  function Letters(b: Bytes): string {
    if b == [] then "abc" else [b[0] as char] + Letters(b[1..])
  }

  lemma {:induction false} LettersDiffer(a: Bytes, b: Bytes)
    requires Letters(a) == Letters(b)
    ensures a == b
    decreases |a|
  {
    LettersLength(a);
    LettersLength(b);
    if a != [] {
      assert Letters(a)[1..] == Letters(a[1..]) && Letters(b)[1..] == Letters(b[1..]);
      LettersDiffer(a[1..], b[1..]);
      assert Letters(a)[0] == a[0] as char && Letters(b)[0] == b[0] as char;
      assert a == [a[0]] + a[1..] && b == [b[0]] + b[1..];
    }
  }

  lemma {:induction false} LettersLength(b: Bytes)
    ensures |Letters(b)| == |b| + 3
    decreases |b|
  {
    if b != [] { LettersLength(b[1..]); }
  }

  const ZEROS: Bytes := [0, 0, 0, 0, 0, 0, 0, 0]

  function ToyTag(a: Bytes): (t: Bytes)
    ensures |t| == TAG_SIZE
  {
    (if |a| < 8 then ZEROS else a[..8]) + ZEROS
  }

  function ToyOpen(c: Bytes, a: Bytes): Option<Bytes> {
    if |c| >= TAG_SIZE && c[|c| - TAG_SIZE..] == ToyTag(a) then Some(c[..|c| - TAG_SIZE]) else None
  }

  function Toy(): Library {
    Library((k, a, p) => ZEROS + ZEROS, (k, iv, n: nat) => seq(n, i => 0), Letters, Letters,
            (k, n, p, a) => p + ToyTag(a), (k, n, c, a) => ToyOpen(c, a), Spell, Unspell)
  }

  lemma BE64Differ(i: nat, j: nat)
    requires i < INDEX_END && j < INDEX_END && BE64(i) == BE64(j)
    ensures i == j
  {
    assert Power256(8) == INDEX_END by {
      assert Power256(4) == 0x1_0000_0000;
    }
    BigEndianRoundTrip(i, 8);
    BigEndianRoundTrip(j, 8);
  }

  /** There are functions with all these properties, so nothing is proved from a contradiction. */
  lemma LawsAreConsistent(encKey: Bytes, macKey: Bytes)
    ensures Sound(Vault(encKey, macKey, Toy()))
  {
    var l := Toy();
    forall s ensures l.text(l.bytes(s)) == s { SpellRoundTrip(s); }
    forall a, b | l.dirHash(a) == l.dirHash(b) ensures a == b { LettersDiffer(a, b); }
    forall a ensures |l.dirHash(a)| > 2 { LettersLength(a); }
    ToySeals();
  }

  lemma ToySeals()
    ensures SoundSeal(Toy())
  {
    var l := Toy();
    forall k, n, p, a {:trigger l.seal(k, n, p, a)}
      ensures |l.seal(k, n, p, a)| == |p| + TAG_SIZE && l.open(k, n, l.seal(k, n, p, a), a) == Some(p)
    {
      var c := p + ToyTag(a);
      assert c[|c| - TAG_SIZE..] == ToyTag(a) && c[..|c| - TAG_SIZE] == p;
    }
    forall k, n, c, a {:trigger l.open(k, n, c, a)} | l.open(k, n, c, a).Some?
      ensures l.seal(k, n, l.open(k, n, c, a).value, a) == c
    {
      assert c == c[..|c| - TAG_SIZE] + c[|c| - TAG_SIZE..];
    }
    forall k, n, p, q, h, i, j {:trigger l.seal(k, n, p, BE64(i) + h), l.seal(k, n, q, BE64(j) + h)}
      | 0 <= i < INDEX_END && 0 <= j < INDEX_END && l.seal(k, n, p, BE64(i) + h) == l.seal(k, n, q, BE64(j) + h)
      ensures i == j
    {
      ToyTagsDiffer(p, q, h, i, j);
    }
  }

  lemma ToyTagsDiffer(p: Bytes, q: Bytes, h: Bytes, i: nat, j: nat)
    requires i < INDEX_END && j < INDEX_END && p + ToyTag(BE64(i) + h) == q + ToyTag(BE64(j) + h)
    ensures i == j
  {
    var s, t := ToyTag(BE64(i) + h), ToyTag(BE64(j) + h);
    assert (p + s)[|p|..] == s && (q + t)[|q|..] == t;
    assert (BE64(i) + h)[..8] == BE64(i) && (BE64(j) + h)[..8] == BE64(j);
    assert s[..8] == BE64(i) && t[..8] == BE64(j);
    BE64Differ(i, j);
  }
}
