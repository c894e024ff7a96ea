/** content.go and VaultContent.swift: encrypted file contents. A header with the file's own key
    is followed by frames of at most 32768 bytes, each sealed under its index. */
module Content {
  import opened FileSystem
  import opened Crypto

  const CHUNK_SIZE := 32768
  const NONCE_SIZE := 12
  const HEADER_SIZE := 68
  const FRAME_SIZE := NONCE_SIZE + CHUNK_SIZE + TAG_SIZE
  const MARKER: Bytes := [0xFF, 0xFF, 0xFF, 0xFF, 0xFF, 0xFF, 0xFF, 0xFF]

  /** The random bytes one encryption draws: header nonce, content key, a nonce per chunk. */
  datatype Random = Random(headerNonce: Bytes, contentKey: Bytes, nonce: nat -> Bytes)

  ghost predicate RandomOk(r: Random) {
    && |r.headerNonce| == NONCE_SIZE && |r.contentKey| == 32
    && forall i {:trigger r.nonce(i)} :: |r.nonce(i)| == NONCE_SIZE
  }

  function Least(a: nat, b: nat): nat {
    if a < b then a else b
  }

  // ---------- the format ----------

  function Header(v: Vault, r: Random): Bytes {
    r.headerNonce + v.lib.seal(v.encKey, r.headerNonce, MARKER + r.contentKey, [])
  }

  /** Index and header nonce; the index is a 64-bit counter. */
  function Aad(i: nat, headerNonce: Bytes): Bytes {
    BE64(i % INDEX_END) + headerNonce
  }

  function Frame(l: Library, r: Random, chunk: Bytes, i: nat): Bytes {
    r.nonce(i) + l.seal(r.contentKey, r.nonce(i), chunk, Aad(i, r.headerNonce))
  }

  function Frames(l: Library, r: Random, plain: Bytes, i: nat): Bytes
    decreases |plain|
  {
    if plain == [] then []
    else
      var n := Least(CHUNK_SIZE, |plain|);
      Frame(l, r, plain[..n], i) + Frames(l, r, plain[n..], i + 1)
  }

  function Ciphertext(v: Vault, r: Random, plain: Bytes): Bytes {
    Header(v, r) + Frames(v.lib, r, plain, 0)
  }

  function OpenFrame(l: Library, key: Bytes, headerNonce: Bytes, frame: Bytes, i: nat): Option<Bytes> {
    if |frame| < NONCE_SIZE + TAG_SIZE then None
    else l.open(key, frame[..NONCE_SIZE], frame[NONCE_SIZE..], Aad(i, headerNonce))
  }

  function Joined(a: Bytes, b: Option<Bytes>): Option<Bytes> {
    match b case None => None case Some(rest) => Some(a + rest)
  }

  function OpenFrames(l: Library, key: Bytes, headerNonce: Bytes, data: Bytes, i: nat): Option<Bytes>
    decreases |data|
  {
    if data == [] then Some([])
    else
      var n := Least(FRAME_SIZE, |data|);
      match OpenFrame(l, key, headerNonce, data[..n], i)
      case None => None
      case Some(chunk) => Joined(chunk, OpenFrames(l, key, headerNonce, data[n..], i + 1))
  }

  /** The content key in the header. */
  function OpenHeader(v: Vault, header: Bytes): Option<Bytes>
    requires |header| == HEADER_SIZE
  {
    match v.lib.open(v.encKey, header[..NONCE_SIZE], header[NONCE_SIZE..], [])
    case None => None
    case Some(payload) => if |payload| != 40 then None else Some(payload[8..40])
  }

  function Plaintext(v: Vault, data: Bytes): Option<Bytes> {
    if |data| < HEADER_SIZE then None
    else
      match OpenHeader(v, data[..HEADER_SIZE])
      case None => None
      case Some(key) => OpenFrames(v.lib, key, data[..NONCE_SIZE], data[HEADER_SIZE..], 0)
  }

  // ---------- round trip ----------

  lemma FrameOpens(l: Library, r: Random, chunk: Bytes, i: nat)
    requires SoundSeal(l) && RandomOk(r)
    ensures |Frame(l, r, chunk, i)| == NONCE_SIZE + |chunk| + TAG_SIZE
    ensures OpenFrame(l, r.contentKey, r.headerNonce, Frame(l, r, chunk, i), i) == Some(chunk)
  {
    hide Aad;
    var f := Frame(l, r, chunk, i);
    assert f[..NONCE_SIZE] == r.nonce(i);
    assert f[NONCE_SIZE..] == l.seal(r.contentKey, r.nonce(i), chunk, Aad(i, r.headerNonce));
  }

  lemma {:induction false} FramesOpen(l: Library, r: Random, plain: Bytes, i: nat)
    requires SoundSeal(l) && RandomOk(r)
    ensures OpenFrames(l, r.contentKey, r.headerNonce, Frames(l, r, plain, i), i) == Some(plain)
    decreases |plain|
  {
    hide Frame, OpenFrame;
    if plain != [] {
      var n := Least(CHUNK_SIZE, |plain|);
      var f, rest := Frame(l, r, plain[..n], i), Frames(l, r, plain[n..], i + 1);
      FrameOpens(l, r, plain[..n], i);
      FramesOpen(l, r, plain[n..], i + 1);
      assert plain[n..] == [] ==> rest == [];
      var m := Least(FRAME_SIZE, |f + rest|);
      assert (f + rest)[..m] == f && (f + rest)[m..] == rest;
      assert plain == plain[..n] + plain[n..];
    }
  }

  lemma HeaderOpens(v: Vault, r: Random)
    requires SoundSeal(v.lib) && RandomOk(r)
    ensures |Header(v, r)| == HEADER_SIZE && Header(v, r)[..NONCE_SIZE] == r.headerNonce
    ensures OpenHeader(v, Header(v, r)) == Some(r.contentKey)
  {
    var h := Header(v, r);
    assert h[..NONCE_SIZE] == r.headerNonce;
    assert h[NONCE_SIZE..] == v.lib.seal(v.encKey, r.headerNonce, MARKER + r.contentKey, []);
    assert (MARKER + r.contentKey)[8..40] == r.contentKey;
  }

  /** Contents of every length survive, the empty one and whole multiples of the chunk included. */
  lemma ContentRoundTrip(v: Vault, r: Random, plain: Bytes)
    requires SoundSeal(v.lib) && RandomOk(r)
    ensures Plaintext(v, Ciphertext(v, r, plain)) == Some(plain)
  {
    hide Header, OpenHeader, Frames, OpenFrames;
    HeaderOpens(v, r);
    FramesOpen(v.lib, r, plain, 0);
    var h, fs := Header(v, r), Frames(v.lib, r, plain, 0);
    assert (h + fs)[..HEADER_SIZE] == h && (h + fs)[HEADER_SIZE..] == fs;
    assert (h + fs)[..NONCE_SIZE] == h[..NONCE_SIZE];
  }

  function ChunkCount(size: nat): nat {
    (size + CHUNK_SIZE - 1) / CHUNK_SIZE
  }

  lemma {:induction false} FramesLength(l: Library, r: Random, plain: Bytes, i: nat)
    requires SoundSeal(l) && RandomOk(r)
    ensures |Frames(l, r, plain, i)| == |plain| + 28 * ChunkCount(|plain|)
    decreases |plain|
  {
    if plain != [] {
      var n := Least(CHUNK_SIZE, |plain|);
      FrameOpens(l, r, plain[..n], i);
      FramesLength(l, r, plain[n..], i + 1);
      hide Frame;
    }
  }

  lemma CiphertextLength(v: Vault, r: Random, plain: Bytes)
    requires SoundSeal(v.lib) && RandomOk(r)
    ensures |Ciphertext(v, r, plain)| == HEADER_SIZE + |plain| + 28 * ChunkCount(|plain|)
  {
    HeaderOpens(v, r);
    FramesLength(v.lib, r, plain, 0);
  }

  // ---------- frames keep their order ----------

  /** The frames of the given chunks, picked by `picks` in any order and number. */
  function Picked(l: Library, r: Random, chunks: seq<Bytes>, picks: seq<nat>): Bytes
    requires forall j :: 0 <= j < |picks| ==> picks[j] < |chunks|
  {
    if picks == [] then []
    else
      Frame(l, r, chunks[picks[0]], picks[0]) + Picked(l, r, chunks, picks[1..])
  }

  /** Frames of a file put together in any other order, or with one of them repeated or left out
      before another, are refused. The file's last chunk may be short; its frame may come last
      in place of any other, and is then refused as well. */
  lemma {:induction false} OnlyTheOriginalOrderOpens(l: Library, r: Random, chunks: seq<Bytes>, picks: seq<nat>, i: nat)
    requires SoundSeal(l) && RandomOk(r) && |chunks| <= INDEX_END && i + |picks| <= INDEX_END
    requires forall k :: 0 <= k < |chunks| ==> 0 < |chunks[k]| <= CHUNK_SIZE
    requires forall j :: 0 <= j < |picks| ==> picks[j] < |chunks|
    requires forall j :: 0 <= j < |picks| - 1 ==> |chunks[picks[j]]| == CHUNK_SIZE
    requires OpenFrames(l, r.contentKey, r.headerNonce, Picked(l, r, chunks, picks), i).Some?
    ensures forall j :: 0 <= j < |picks| ==> picks[j] == i + j
    decreases |picks|
  {
    hide Frame, OpenFrame, OpenFrames, SoundSeal, RandomOk;
    if picks != [] {
      var k := picks[0];
      var f, rest := Frame(l, r, chunks[k], k), Picked(l, r, chunks, picks[1..]);
      FrameOpens(l, r, chunks[k], k);
      assert |picks| > 1 ==> |chunks[picks[0]]| == CHUNK_SIZE;
      NextOpened(l, r.contentKey, r.headerNonce, f + rest, f, rest, i);
      OpensAtItsIndexOnly(l, r, chunks[k], k, i);
      OnlyTheOriginalOrderOpens(l, r, chunks, picks[1..], i + 1);
    }
  }

  lemma OpensAtItsIndexOnly(l: Library, r: Random, chunk: Bytes, k: nat, i: nat)
    requires SoundSeal(l) && RandomOk(r) && k < INDEX_END && i < INDEX_END
    requires OpenFrame(l, r.contentKey, r.headerNonce, Frame(l, r, chunk, k), i).Some?
    ensures k == i
  {
    hide BE64;
    var f := Frame(l, r, chunk, k);
    assert f[..NONCE_SIZE] == r.nonce(k);
    assert f[NONCE_SIZE..] == l.seal(r.contentKey, r.nonce(k), chunk, Aad(k, r.headerNonce));
  }

  // ---------- content.go: streams ----------

  datatype ReadResult = Full | Eof | UnexpectedEof | Failed

  class Reader {
    const data: Bytes
    /** A reader over memory never fails, one over a file may. */
    const inMemory: bool
    var pos: nat

    constructor (data: Bytes, inMemory: bool)
      ensures this.data == data && this.inMemory == inMemory && pos == 0
    {
      this.data, this.inMemory, pos := data, inMemory, 0;
    }

    ghost predicate Valid()
      reads this
    {
      pos <= |data|
    }

    ghost function Rest(): Bytes
      requires Valid()
      reads this
    {
      data[pos..]
    }

    /** io.ReadFull into a buffer of `n` bytes. */
    method ReadFull(n: nat) returns (chunk: Bytes, err: ReadResult)
      requires Valid() && n > 0
      modifies this
      ensures Valid()
      ensures err == Full ==> |chunk| == n && chunk + Rest() == old(Rest())
      ensures err == UnexpectedEof ==> 0 < |chunk| < n && chunk == old(Rest()) && Rest() == []
      ensures err == Eof ==> chunk == [] && old(Rest()) == [] && Rest() == []
      ensures err == Failed ==> !inMemory
    {
      var failed: bool := *;
      if failed && !inMemory { return [], Failed; }
      if pos == |data| { return [], Eof; }
      if pos + n <= |data| {
        chunk, err := data[pos..pos + n], Full;
        assert chunk + data[pos + n..] == data[pos..];
        pos := pos + n;
      } else {
        chunk, err := data[pos..], UnexpectedEof;
        pos := |data|;
      }
    }
  }

  class Writer {
    var data: Bytes

    constructor ()
      ensures data == []
    {
      data := [];
    }

    method Write(b: Bytes)
      modifies this
      ensures data == old(data) + b
    {
      data := data + b;
    }
  }

  /** EncryptContent: what is read is written in the format, whatever its length. */
  method EncryptContent(v: Vault, dst: Writer, src: Reader, r: Random) returns (ok: bool)
    requires SoundSeal(v.lib) && RandomOk(r) && src.Valid()
    modifies dst, src
    ensures src.Valid() && old(dst.data) <= dst.data
    ensures ok ==> dst.data == old(dst.data) + Ciphertext(v, r, old(src.Rest())) && src.Rest() == []
    ensures src.inMemory ==> ok
  {
    hide Frames, SoundSeal, RandomOk, BE64;
    var headerCT := v.lib.seal(v.encKey, r.headerNonce, MARKER + r.contentKey, []);
    dst.Write(r.headerNonce);
    dst.Write(headerCT);
    ghost var all := src.Rest();
    ghost var start := old(dst.data) + Header(v, r);
    var idx := 0;
    while true
      invariant src.Valid() && old(dst.data) <= dst.data
      invariant dst.data + Frames(v.lib, r, src.Rest(), idx) == start + Frames(v.lib, r, all, 0)
      decreases |src.Rest()|
    {
      ghost var rest := src.Rest();
      var chunk, err := src.ReadFull(CHUNK_SIZE);
      if err == Eof {
        NoFrames(v.lib, r, idx);
        break;
      }
      if err != Full && err != UnexpectedEof { return false; }
      var nonce := r.nonce(idx);
      var aad := BE64(idx % INDEX_END) + r.headerNonce;
      var ct := v.lib.seal(r.contentKey, nonce, chunk, aad);
      ghost var before := dst.data;
      dst.Write(nonce);
      dst.Write(ct);
      NextFrame(v.lib, r, rest, chunk, src.Rest(), idx);
      assert dst.data == before + Frame(v.lib, r, chunk, idx);
      idx := idx + 1;
      if err == UnexpectedEof {
        NoFrames(v.lib, r, idx);
        break;
      }
    }
    assert start + Frames(v.lib, r, all, 0) == old(dst.data) + Ciphertext(v, r, all);
    ok := true;
  }

  lemma NoFrames(l: Library, r: Random, i: nat)
    ensures Frames(l, r, [], i) == []
  {
  }

  lemma NextFrame(l: Library, r: Random, plain: Bytes, chunk: Bytes, rest: Bytes, i: nat)
    requires plain == chunk + rest && chunk != [] && (|chunk| == CHUNK_SIZE || (rest == [] && |chunk| < CHUNK_SIZE))
    ensures Frames(l, r, plain, i) == Frame(l, r, chunk, i) + Frames(l, r, rest, i + 1)
  {
    var n := Least(CHUNK_SIZE, |plain|);
    assert plain[..n] == chunk && plain[n..] == rest;
  }

  /** DecryptContent succeeds exactly on contents in the format, and then writes what they hold. */
  method DecryptContent(v: Vault, dst: Writer, src: Reader) returns (ok: bool)
    requires src.Valid()
    modifies dst, src
    ensures src.Valid() && old(dst.data) <= dst.data
    ensures ok ==>
              && Plaintext(v, old(src.Rest())).Some?
              && dst.data == old(dst.data) + Plaintext(v, old(src.Rest())).value
    ensures !ok && src.inMemory ==> Plaintext(v, old(src.Rest())) == None
  {
    hide OpenFrames, OpenFrame, BE64;
    ghost var data := src.Rest();
    var header, err := src.ReadFull(HEADER_SIZE);
    if err != Full { return false; }
    assert data[..HEADER_SIZE] == header && data[HEADER_SIZE..] == src.Rest();
    assert data[..NONCE_SIZE] == header[..NONCE_SIZE];
    var headerNonce := header[..NONCE_SIZE];
    var payload := v.lib.open(v.encKey, headerNonce, header[NONCE_SIZE..], []);
    if payload == None { return false; }
    if |payload.value| != 40 { return false; }
    var key := payload.value[8..40];
    ghost var all := src.Rest();
    assert Plaintext(v, data) == OpenFrames(v.lib, key, headerNonce, all, 0);
    ghost var done: Bytes := [];
    JoinedNothing(done, OpenFrames(v.lib, key, headerNonce, all, 0));
    var idx := 0;
    while true
      invariant src.Valid() && dst.data == old(dst.data) + done
      invariant OpenFrames(v.lib, key, headerNonce, all, 0) ==
                Joined(done, OpenFrames(v.lib, key, headerNonce, src.Rest(), idx))
      decreases |src.Rest()|
    {
      ghost var rest := src.Rest();
      var frame;
      frame, err := src.ReadFull(FRAME_SIZE);
      if err == Eof {
        NothingToOpen(v.lib, key, headerNonce, idx);
        break;
      }
      if err != Full && err != UnexpectedEof { return false; }
      NextOpened(v.lib, key, headerNonce, rest, frame, src.Rest(), idx);
      var chunk := if |frame| < NONCE_SIZE + TAG_SIZE then None
                   else v.lib.open(key, frame[..NONCE_SIZE], frame[NONCE_SIZE..], BE64(idx % INDEX_END) + headerNonce);
      assert chunk == OpenFrame(v.lib, key, headerNonce, frame, idx) by {
        OpenFrameIs(v.lib, key, headerNonce, frame, idx);
      }
      if chunk == None { return false; }
      dst.Write(chunk.value);
      JoinedTwice(done, chunk.value, OpenFrames(v.lib, key, headerNonce, src.Rest(), idx + 1));
      done := done + chunk.value;
      idx := idx + 1;
      if err == UnexpectedEof {
        NothingToOpen(v.lib, key, headerNonce, idx);
        break;
      }
    }
    JoinedNothing(done, None);
    ok := true;
  }

  lemma OpenFrameIs(l: Library, key: Bytes, headerNonce: Bytes, frame: Bytes, i: nat)
    ensures OpenFrame(l, key, headerNonce, frame, i) ==
              if |frame| < NONCE_SIZE + TAG_SIZE then None
              else l.open(key, frame[..NONCE_SIZE], frame[NONCE_SIZE..], BE64(i % INDEX_END) + headerNonce)
  {
  }

  lemma NothingToOpen(l: Library, key: Bytes, headerNonce: Bytes, i: nat)
    ensures OpenFrames(l, key, headerNonce, [], i) == Some([])
  {
  }

  lemma NextOpened(l: Library, key: Bytes, headerNonce: Bytes, data: Bytes, frame: Bytes, rest: Bytes, i: nat)
    requires data == frame + rest && frame != [] && (|frame| == FRAME_SIZE || (rest == [] && |frame| < FRAME_SIZE))
    ensures OpenFrames(l, key, headerNonce, data, i) ==
              match OpenFrame(l, key, headerNonce, frame, i)
              case None => None
              case Some(chunk) => Joined(chunk, OpenFrames(l, key, headerNonce, rest, i + 1))
  {
    var n := Least(FRAME_SIZE, |data|);
    assert data[..n] == frame && data[n..] == rest;
  }

  lemma JoinedNothing(a: Bytes, b: Option<Bytes>)
    ensures Joined([], b) == b
    ensures Joined(a, Some([])) == Some(a)
  {
    if b.Some? { assert [] + b.value == b.value; }
    assert a + [] == a;
  }

  lemma JoinedTwice(a: Bytes, b: Bytes, c: Option<Bytes>)
    ensures Joined(a, Joined(b, c)) == Joined(a + b, c)
  {
    if c.Some? { assert a + (b + c.value) == a + b + c.value; }
  }

  // ---------- VaultContent.swift: the same format in memory ----------

  /** encryptContent: for the same random bytes it produces what the streaming form writes. */
  method EncryptInMemory(v: Vault, plaintext: Bytes, r: Random) returns (out: Bytes)
    ensures out == Ciphertext(v, r, plaintext)
  {
    hide Frames, BE64;
    out := r.headerNonce + v.lib.seal(v.encKey, r.headerNonce, MARKER + r.contentKey, []);
    var idx, offset := 0, 0;
    assert plaintext[0..] == plaintext;
    while offset < |plaintext|
      invariant offset <= |plaintext|
      invariant out + Frames(v.lib, r, plaintext[offset..], idx) == Ciphertext(v, r, plaintext)
    {
      var end := Least(offset + CHUNK_SIZE, |plaintext|);
      var chunk := plaintext[offset..end];
      assert plaintext[offset..] == chunk + plaintext[end..];
      NextFrame(v.lib, r, plaintext[offset..], chunk, plaintext[end..], idx);
      var aad := BE64(idx % INDEX_END) + r.headerNonce;
      var box := r.nonce(idx) + v.lib.seal(r.contentKey, r.nonce(idx), chunk, aad);
      assert box == Frame(v.lib, r, chunk, idx);
      assert out + (box + Frames(v.lib, r, plaintext[end..], idx + 1)) == out + box + Frames(v.lib, r, plaintext[end..],
            idx + 1);
      out := out + box;
      idx, offset := idx + 1, end;
    }
    NoFrames(v.lib, r, idx);
    assert plaintext[offset..] == [] && out + [] == out;
  }

  /** decryptContent accepts the same contents as the streaming form and returns the same bytes. */
  method DecryptInMemory(v: Vault, data: Bytes) returns (out: Option<Bytes>)
    ensures out == Plaintext(v, data)
  {
    hide OpenFrames, BE64;
    if |data| < HEADER_SIZE { return None; }
    var header := data[0..HEADER_SIZE];
    assert header == data[..HEADER_SIZE] && header[..NONCE_SIZE] == data[..NONCE_SIZE];
    var payload := v.lib.open(v.encKey, header[..NONCE_SIZE], header[NONCE_SIZE..], []);
    if payload == None { return None; }
    if |payload.value| != 40 { return None; }
    var key, headerNonce := payload.value[8..40], header[0..12];
    assert headerNonce == data[..NONCE_SIZE];
    var done: Bytes := [];
    JoinedNothing(done, OpenFrames(v.lib, key, headerNonce, data[HEADER_SIZE..], 0));
    var idx, offset := 0, HEADER_SIZE;
    while offset < |data|
      invariant HEADER_SIZE <= offset <= |data|
      invariant Plaintext(v, data) == Joined(done, OpenFrames(v.lib, key, headerNonce, data[offset..], idx))
    {
      var end := Least(offset + FRAME_SIZE, |data|);
      var frame := data[offset..end];
      assert data[offset..] == frame + data[end..];
      NextOpened(v.lib, key, headerNonce, data[offset..], frame, data[end..], idx);
      if |frame| < NONCE_SIZE + TAG_SIZE { return None; }
      var chunk := v.lib.open(key, frame[..NONCE_SIZE], frame[NONCE_SIZE..], BE64(idx % INDEX_END) + headerNonce);
      if chunk == None { return None; }
      JoinedTwice(done, chunk.value, OpenFrames(v.lib, key, headerNonce, data[end..], idx + 1));
      done := done + chunk.value;
      idx, offset := idx + 1, end;
    }
    NothingToOpen(v.lib, key, headerNonce, idx);
    assert data[offset..] == [];
    JoinedNothing(done, None);
    out := Some(done);
  }
}
