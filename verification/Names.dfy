/** name.go: how the vault spells file names and where it stores a directory. */
module Names {
  import opened FileSystem
  import opened Base64
  import opened Crypto

  const SHORTENING_THRESHOLD := 220

  /** Suffixes and names that mean something in a storage directory. */
  const C9R := ".c9r"
  const C9S := ".c9s"
  const DIR_ID_FILE := "dirid.c9r"

  predicate HasSuffix(s: string, suffix: string) {
    |suffix| <= |s| && s[|s| - |suffix|..] == suffix
  }

  function EncryptName(v: Vault, name: string, parentID: string): string
    requires SoundSiv(v.lib)
  {
    Encode(SivEncrypt(v, v.lib.bytes(name), Some(v.lib.bytes(parentID)))) + C9R
  }

  function DecryptName(v: Vault, encName: string, parentID: string): Option<string>
    requires SoundSiv(v.lib)
  {
    if !HasSuffix(encName, C9R) then None
    else
      match DecodeFlex(encName[..|encName| - |C9R|])
      case None => None
      case Some(ct) =>
        match SivDecrypt(v, ct, Some(v.lib.bytes(parentID)))
        case None => None
        case Some(plain) => Some(v.lib.text(plain))
  }

  function ShortenedName(v: Vault, encName: string): string {
    v.lib.nameHash(v.lib.bytes(encName)) + C9S
  }

  /** The name of the entry in the storage directory. */
  function EntryName(v: Vault, encName: string): string {
    if |encName| > SHORTENING_THRESHOLD then ShortenedName(v, encName) else encName
  }

  /** DirIdHash, as a path below the vault's folder. */
  function DirIdHash(v: Vault, dirID: string): (p: Path)
    requires SoundSiv(v.lib) && SoundHashes(v.lib)
    ensures |p| == 3 && p[0] == "d"
  {
    var h := v.lib.dirHash(SivEncrypt(v, v.lib.bytes(dirID), None));
    ["d", h[..2], h[2..]]
  }

  /** A name survives, in the spelling the vault writes and in the one without padding. */
  lemma NameRoundTrip(v: Vault, name: string, parentID: string)
    requires Sound(v)
    ensures DecryptName(v, EncryptName(v, name, parentID), parentID) == Some(name)
    ensures DecryptName(v, RawEncode(SivEncrypt(v, v.lib.bytes(name), Some(v.lib.bytes(parentID)))) + C9R,
                        parentID) == Some(name)
  {
    hide SivEncrypt, SivDecrypt, Encode, RawEncode, DecodeFlex;
    var plain, aad := v.lib.bytes(name), Some(v.lib.bytes(parentID));
    var ct := SivEncrypt(v, plain, aad);
    SivRoundTrip(v, plain, aad);
    FlexRoundTrip(ct);
    SuffixIsCut(Encode(ct), C9R);
    SuffixIsCut(RawEncode(ct), C9R);
  }

  lemma SuffixIsCut(s: string, suffix: string)
    ensures HasSuffix(s + suffix, suffix) && (s + suffix)[..|s + suffix| - |suffix|] == s
  {
  }

  /** A name is shortened exactly when it has more than 146 bytes. */
  lemma WhenShortened(v: Vault, name: string, parentID: string)
    requires Sound(v)
    ensures |EncryptName(v, name, parentID)| == (|v.lib.bytes(name)| + 18) / 3 * 4 + 4
    ensures |EncryptName(v, name, parentID)| > SHORTENING_THRESHOLD <==> |v.lib.bytes(name)| > 146
  {
    hide SivEncrypt, Encode;
    SivRoundTrip(v, v.lib.bytes(name), Some(v.lib.bytes(parentID)));
    EncodeLength(SivEncrypt(v, v.lib.bytes(name), Some(v.lib.bytes(parentID))));
  }

  lemma EndsDiffer(s: string, a: string, b: string)
    requires HasSuffix(s, a) && |a| == |b| && a != b
    ensures !HasSuffix(s, b)
  {
  }

  /** No two names of a directory share an entry, and none is taken for the directory's own
      id file. */
  lemma EntriesDiffer(v: Vault, a: string, b: string, parentID: string)
    requires Sound(v)
    ensures var x, y := EncryptName(v, a, parentID), EncryptName(v, b, parentID);
            EntryName(v, x) == EntryName(v, y) ==> a == b
  {
    hide EncryptName, DecryptName;
    var x, y := EncryptName(v, a, parentID), EncryptName(v, b, parentID);
    NameRoundTrip(v, a, parentID);
    NameRoundTrip(v, b, parentID);
    EntryShape(v, a, parentID);
    EntryShape(v, b, parentID);
    if EntryName(v, x) == EntryName(v, y) && |x| > SHORTENING_THRESHOLD && |y| > SHORTENING_THRESHOLD {
      ShortenedDiffer(v, x, y);
    }
  }

  lemma ShortenedDiffer(v: Vault, x: string, y: string)
    requires Sound(v) && ShortenedName(v, x) == ShortenedName(v, y)
    ensures x == y
  {
    SuffixIsCut(v.lib.nameHash(v.lib.bytes(x)), C9S);
    SuffixIsCut(v.lib.nameHash(v.lib.bytes(y)), C9S);
    assert v.lib.text(v.lib.bytes(x)) == x && v.lib.text(v.lib.bytes(y)) == y;
  }

  lemma EntryShape(v: Vault, name: string, parentID: string)
    requires Sound(v)
    ensures var enc := EncryptName(v, name, parentID);
            && EntryName(v, enc) != DIR_ID_FILE
            && (if |enc| > SHORTENING_THRESHOLD then HasSuffix(EntryName(v, enc), C9S)
                && !HasSuffix(EntryName(v, enc), C9R)
                else EntryName(v, enc) == enc && HasSuffix(enc, C9R) && !HasSuffix(enc, C9S))
  {
    WhenShortened(v, name, parentID);
    hide SivEncrypt, Encode;
    var enc := EncryptName(v, name, parentID);
    SuffixIsCut(Encode(SivEncrypt(v, v.lib.bytes(name), Some(v.lib.bytes(parentID)))), C9R);
    SuffixIsCut(v.lib.nameHash(v.lib.bytes(enc)), C9S);
    EndsDiffer(enc, C9R, C9S);
    EndsDiffer(ShortenedName(v, enc), C9S, C9R);
    assert HasSuffix(DIR_ID_FILE, C9R);
  }

  /** Different directory ids have different storage directories, none inside another. */
  lemma StoresDiffer(v: Vault, a: string, b: string)
    requires Sound(v) && a != b
    ensures !Within(DirIdHash(v, a), DirIdHash(v, b))
  {
    hide SivEncrypt;
    var x, y := SivEncrypt(v, v.lib.bytes(a), None), SivEncrypt(v, v.lib.bytes(b), None);
    SivRoundTrip(v, v.lib.bytes(a), None);
    SivRoundTrip(v, v.lib.bytes(b), None);
    assert v.lib.text(v.lib.bytes(a)) == a && v.lib.text(v.lib.bytes(b)) == b;
    assert x != y;
    var g, h := v.lib.dirHash(x), v.lib.dirHash(y);
    assert g != h;
    assert g == g[..2] + g[2..] && h == h[..2] + h[2..];
    assert DirIdHash(v, b)[..3] == DirIdHash(v, b);
    assert DirIdHash(v, a)[1] == g[..2] && DirIdHash(v, b)[1] == h[..2];
    assert DirIdHash(v, a)[2] == g[2..] && DirIdHash(v, b)[2] == h[2..];
  }
}
