/** Base64 with the URL-safe alphabet (section 5 of RFC 4648), as Go's encoding/base64 reads and
    writes it, with and without padding. */
module Base64 {
  import opened FileSystem

  function Digit(v: int): (c: char)
    requires 0 <= v < 64
    ensures c != '='
  {
    if v < 26 then (v + 65) as char
    else if v < 52 then (v - 26 + 97) as char
    else if v < 62 then (v - 52 + 48) as char
    else if v == 62 then '-' else '_'
  }

  function Value(c: char): (v: Option<int>)
    ensures v.Some? ==> 0 <= v.value < 64
  {
    var n := c as int;
    if 65 <= n < 91 then Some(n - 65)
    else if 97 <= n < 123 then Some(n - 97 + 26)
    else if 48 <= n < 58 then Some(n - 48 + 52)
    else if c == '-' then Some(62)
    else if c == '_' then Some(63)
    else None
  }

  lemma DigitHasValue(v: int)
    requires 0 <= v < 64
    ensures Value(Digit(v)) == Some(v)
  {
  }

  /** The four digits of three bytes. */
  function Group(a: Byte, b: Byte, c: Byte): (s: string)
    ensures |s| == 4
  {
    [Digit(a / 4), Digit(a % 4 * 16 + b / 16), Digit(b % 16 * 4 + c / 64), Digit(c % 64)]
  }

  /** RawURLEncoding.EncodeToString. */
  function RawEncode(b: Bytes): string {
    if b == [] then ""
    else if |b| == 1 then Group(b[0], 0, 0)[..2]
    else if |b| == 2 then Group(b[0], b[1], 0)[..3]
    else Group(b[0], b[1], b[2]) + RawEncode(b[3..])
  }

  function Padding(n: nat): string {
    if n % 3 == 1 then "==" else if n % 3 == 2 then "=" else ""
  }

  /** URLEncoding.EncodeToString. */
  function Encode(b: Bytes): string {
    RawEncode(b) + Padding(|b|)
  }

  function FirstByte(x: int, y: int): Byte
    requires 0 <= x < 64 && 0 <= y < 64
  {
    x * 4 + y / 16
  }

  function SecondByte(y: int, z: int): Byte
    requires 0 <= y < 64 && 0 <= z < 64
  {
    y % 16 * 16 + z / 4
  }

  function ThirdByte(z: int, w: int): Byte
    requires 0 <= z < 64 && 0 <= w < 64
  {
    z % 4 * 64 + w
  }

  /** RawURLEncoding.DecodeString; the unused bits of the last digit are not looked at. */
  function RawDecode(s: string): Option<Bytes> {
    if s == "" then Some([])
    else if |s| == 1 then None
    else
      match (Value(s[0]), Value(s[1]))
      case (Some(x), Some(y)) =>
        if |s| == 2 then Some([FirstByte(x, y)])
        else
          (match Value(s[2])
           case None => None
           case Some(z) =>
             if |s| == 3 then Some([FirstByte(x, y), SecondByte(y, z)])
             else
               match Value(s[3])
               case None => None
               case Some(w) =>
                 match RawDecode(s[4..])
                 case None => None
                 case Some(rest) => Some([FirstByte(x, y), SecondByte(y, z), ThirdByte(z, w)] + rest))
      case _ => None
  }

  /** URLEncoding.DecodeString: whole groups of four, the last one padded if short. */
  function Decode(s: string): Option<Bytes> {
    if |s| % 4 != 0 then None
    else if |s| >= 4 && s[|s| - 2..] == "==" then RawDecode(s[..|s| - 2])
    else if |s| >= 4 && s[|s| - 1..] == "=" then RawDecode(s[..|s| - 1])
    else RawDecode(s)
  }

  /** decodeBase64URLFlex. */
  function DecodeFlex(s: string): Option<Bytes> {
    match Decode(s)
    case Some(b) => Some(b)
    case None => RawDecode(s)
  }

  lemma GroupGivesBytes(a: Byte, b: Byte, c: Byte)
    ensures var g := Group(a, b, c);
            && Value(g[0]).Some? && Value(g[1]).Some? && Value(g[2]).Some? && Value(g[3]).Some?
            && FirstByte(Value(g[0]).value, Value(g[1]).value) == a
            && SecondByte(Value(g[1]).value, Value(g[2]).value) == b
            && ThirdByte(Value(g[2]).value, Value(g[3]).value) == c
  {
    DigitHasValue(a / 4);
    DigitHasValue(a % 4 * 16 + b / 16);
    DigitHasValue(b % 16 * 4 + c / 64);
    DigitHasValue(c % 64);
    hide Digit, Value;
  }

  lemma {:induction false} RawLength(b: Bytes)
    ensures |RawEncode(b)| == |b| / 3 * 4 + (if |b| % 3 == 0 then 0 else |b| % 3 + 1)
    ensures '=' !in RawEncode(b)
    decreases |b|
  {
    if |b| >= 3 {
      RawLength(b[3..]);
    }
    hide Digit;
  }

  lemma {:induction false} RawRoundTrip(b: Bytes)
    ensures RawDecode(RawEncode(b)) == Some(b)
    decreases |b|
  {
    hide Digit, Value, Group, FirstByte, SecondByte, ThirdByte;
    if |b| == 1 {
      GroupGivesBytes(b[0], 0, 0);
      assert b == [b[0]];
    } else if |b| == 2 {
      GroupGivesBytes(b[0], b[1], 0);
      assert b == [b[0], b[1]];
    } else if |b| > 2 {
      GroupGivesBytes(b[0], b[1], b[2]);
      RawRoundTrip(b[3..]);
      var g := Group(b[0], b[1], b[2]);
      assert (g + RawEncode(b[3..]))[4..] == RawEncode(b[3..]);
      assert b == [b[0], b[1], b[2]] + b[3..];
    }
  }

  lemma EncodeLength(b: Bytes)
    ensures |Encode(b)| == (|b| + 2) / 3 * 4
  {
    hide RawEncode;
    RawLength(b);
    WholeGroups(|b|);
  }

  lemma RoundTrip(b: Bytes)
    ensures Decode(Encode(b)) == Some(b)
  {
    hide RawEncode, RawDecode, Decode;
    RawRoundTrip(b);
    RawLength(b);
    WholeGroups(|b|);
    PaddingIsCut(RawEncode(b), Padding(|b|));
  }

  lemma WholeGroups(n: nat)
    ensures (n / 3 * 4 + (if n % 3 == 0 then 0 else n % 3 + 1) + |Padding(n)|) % 4 == 0
    ensures n / 3 * 4 + (if n % 3 == 0 then 0 else n % 3 + 1) + |Padding(n)| == (n + 2) / 3 * 4
  {
  }

  lemma {:induction false} PaddingIsCut(raw: string, pad: string)
    requires '=' !in raw && pad in {"", "=", "=="} && (|raw| + |pad|) % 4 == 0
    ensures Decode(raw + pad) == RawDecode(raw)
  {
    hide RawDecode;
    if pad == "" {
      NoPadding(raw);
      assert raw + pad == raw;
    } else {
      SomePadding(raw, pad);
    }
  }

  lemma {:induction false} SomePadding(raw: string, pad: string)
    requires '=' !in raw && pad in {"=", "=="} && (|raw| + |pad|) % 4 == 0
    ensures Decode(raw + pad) == RawDecode(raw)
  {
    hide RawDecode;
    var s := raw + pad;
    assert s[..|s| - |pad|] == raw && s[|s| - |pad|..] == pad;
    if pad == "=" {
      assert s[|s| - 2..][0] == raw[|raw| - 1] && raw[|raw| - 1] in raw;
    }
  }

  /** Both spellings of the encoded bytes are read back. */
  lemma {:induction false} FlexRoundTrip(b: Bytes)
    ensures DecodeFlex(Encode(b)) == Some(b)
    ensures DecodeFlex(RawEncode(b)) == Some(b)
  {
    RoundTrip(b);
    RawRoundTrip(b);
    RawLength(b);
    hide RawEncode, RawDecode;
    if |b| % 3 == 0 {
      assert Encode(b) == RawEncode(b);
    } else {
      assert Decode(RawEncode(b)) == None;
    }
  }

  lemma NoPadding(s: string)
    requires '=' !in s
    ensures |s| >= 4 ==> s[|s| - 2..] != "==" && s[|s| - 1..] != "="
  {
    if |s| >= 4 {
      assert s[|s| - 1] in s;
      assert s[|s| - 2..][1] == s[|s| - 1] && s[|s| - 1..][0] == s[|s| - 1];
    }
  }
}
