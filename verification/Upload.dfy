/** upload.go: sending one file in chunks, with resume and retries. */
module Upload {
  import opened FileSystem

  const CHUNK_SIZE := 0x80_0000
  const MAX_ATTEMPTS := 3

  function ChunkCount(file: Bytes): nat {
    (|file| + CHUNK_SIZE - 1) / CHUNK_SIZE
  }

  function Least(a: int, b: int): int {
    if a < b then a else b
  }

  function ChunkOf(file: Bytes, k: nat): Bytes
    requires k < ChunkCount(file)
  {
    file[k * CHUNK_SIZE..Least(k * CHUNK_SIZE + CHUNK_SIZE, |file|)]
  }

  function Assembled(chunks: seq<Bytes>): Bytes {
    if chunks == [] then [] else Assembled(chunks[..|chunks| - 1]) + chunks[|chunks| - 1]
  }

  /** What the server has is the beginning of the file, chunk by chunk. */
  ghost predicate PartOf(chunks: seq<Bytes>, file: Bytes) {
    |chunks| <= ChunkCount(file) && forall k :: 0 <= k < |chunks| ==> chunks[k] == ChunkOf(file, k)
  }

  lemma {:induction false} PartIsPrefix(chunks: seq<Bytes>, file: Bytes)
    requires PartOf(chunks, file)
    ensures Assembled(chunks) == file[..Least(|chunks| * CHUNK_SIZE, |file|)]
    decreases |chunks|
  {
    if chunks != [] {
      PartIsPrefix(chunks[..|chunks| - 1], file);
      var k := |chunks| - 1;
      assert chunks[k] == ChunkOf(file, k);
      assert file[..Least(k * CHUNK_SIZE + CHUNK_SIZE, |file|)] == file[..k * CHUNK_SIZE] + ChunkOf(file, k);
    }
  }

  lemma AllPartsAreTheFile(chunks: seq<Bytes>, file: Bytes)
    requires PartOf(chunks, file) && |chunks| * CHUNK_SIZE >= |file|
    ensures Assembled(chunks) == file
  {
    PartIsPrefix(chunks, file);
    assert file[..|file|] == file;
  }

  // ---------- the requests of one upload ----------

  /** A request with what came back of its answer: the next chunk's number, or that it went well. */
  datatype Request =
    | Init(next: Option<nat>)
    | Status(next: Option<nat>)
    | Chunk(n: nat, next: Option<nat>)
    | Abort
    | Complete(ok: bool)

  /** What the server has last said that it wants next. */
  ghost function Said(trace: seq<Request>): Option<nat> {
    if trace == [] then None
    else
      var before, last := trace[..|trace| - 1], trace[|trace| - 1];
      if (last.Init? || last.Status? || last.Chunk?) && last.next.Some? then last.next else Said(before)
  }

  /** How many chunks in a row have failed. */
  ghost function Failures(trace: seq<Request>): nat {
    if trace == [] then 0
    else
      var before, last := trace[..|trace| - 1], trace[|trace| - 1];
      match last
      case Chunk(_, next) => if next.None? then Failures(before) + 1 else 0
      case _ => Failures(before)
  }

  /** The last request was one after which a chunk may be sent. */
  ghost predicate IsReady(trace: seq<Request>) {
    trace != [] && var last := trace[|trace| - 1]; last.Status? || (last.Chunk? && last.next.Some?)
  }

  ghost predicate HasFailed(trace: seq<Request>) {
    trace != [] && var last := trace[|trace| - 1]; last.Chunk? && last.next.None?
  }

  /** The order of an upload: the server is asked where to resume from, and again after a failed
      chunk; every chunk sent is the one it has last said it wants; the third failure in a row
      aborts the upload, and nothing is completed before the server wants nothing more. */
  ghost predicate Proper(trace: seq<Request>, size: nat) {
    trace == [] ||
    (Proper(trace[..|trace| - 1], size) && MayFollow(trace[..|trace| - 1], trace[|trace| - 1], size))
  }

  ghost predicate MayFollow(before: seq<Request>, r: Request, size: nat) {
    match r
    case Init(_) => before == []
    case Status(_) =>
      || (|before| == 1 && before[0].Init? && before[0].next.Some?)
      || (HasFailed(before) && Failures(before) < MAX_ATTEMPTS)
    case Chunk(n, _) => IsReady(before) && Said(before) == Some(n) && n * CHUNK_SIZE < size
    case Abort => HasFailed(before) && Failures(before) == MAX_ATTEMPTS
    case Complete(_) => IsReady(before) && Said(before).Some? && Said(before).value * CHUNK_SIZE >= size
  }

  lemma OneMoreRequest(trace: seq<Request>, r: Request, size: nat)
    requires Proper(trace, size) && MayFollow(trace, r, size)
    ensures Proper(trace + [r], size)
    ensures Said(trace + [r]) ==
              if (r.Init? || r.Status? || r.Chunk?) && r.next.Some? then r.next else Said(trace)
    ensures Failures(trace + [r]) ==
              if !r.Chunk? then Failures(trace) else if r.next.Some? then 0 else Failures(trace) + 1
  {
    assert (trace + [r])[..|trace|] == trace && (trace + [r])[|trace|] == r;
  }

  /** The server's session: it stores chunk n idempotently, in order. Requests and replies get
      lost at any time. */
  class Server {
    /** A calm line loses nothing. */
    const calm: bool
    var chunks: seq<Bytes>
    var file: Option<Bytes>
    /** Every chunk that was sent: its number, and how many the server had. */
    ghost var sent: seq<(nat, nat)>
    /** Every request that was made. */
    ghost var log: seq<Request>

    constructor (chunks: seq<Bytes>, calm: bool)
      ensures this.chunks == chunks && this.calm == calm && file == None && sent == [] && log == []
    {
      this.calm, this.chunks, file, sent, log := calm, chunks, None, [], [];
    }

    method Lost() returns (b: bool)
      ensures calm ==> !b
    {
      b := *;
      b := b && !calm;
    }

    method UploadInit() returns (ok: bool, next: nat)
      modifies this`log
      ensures log == old(log) + [Init(if ok then Some(next) else None)]
      ensures ok ==> next == |chunks|
      ensures calm ==> ok
    {
      var lost := Lost();
      ok := !lost;
      next := |chunks|;
      log := log + [Init(if ok then Some(next) else None)];
    }

    method UploadStatus() returns (ok: bool, next: nat)
      modifies this`log
      ensures log == old(log) + [Status(if ok then Some(next) else None)]
      ensures ok ==> next == |chunks|
      ensures calm ==> ok
    {
      var lost := Lost();
      ok := !lost;
      next := |chunks|;
      log := log + [Status(if ok then Some(next) else None)];
    }

    method UploadChunk(n: nat, data: Bytes) returns (ok: bool, next: nat)
      modifies this
      ensures file == old(file) && sent == old(sent) + [(n, |old(chunks)|)]
      ensures log == old(log) + [Chunk(n, if ok then Some(next) else None)]
      ensures chunks == old(chunks) || (n <= |old(chunks)| && chunks == Stored(old(chunks), n, data))
      ensures ok ==> n <= |old(chunks)| && chunks == Stored(old(chunks), n, data) && next == |chunks|
      ensures calm && n <= |old(chunks)| ==> ok
    {
      ghost var had := |chunks|;
      sent := sent + [(n, had)];
      next := 0;
      ok := false;
      var requestLost := Lost();
      if requestLost || n > |chunks| {
        log := log + [Chunk(n, None)];
        return;
      }
      chunks := Stored(chunks, n, data);
      var replyLost := Lost();
      ok := !replyLost;
      next := |chunks|;
      log := log + [Chunk(n, if ok then Some(next) else None)];
    }

    method UploadComplete() returns (ok: bool)
      modifies this
      ensures chunks == old(chunks) && sent == old(sent) && log == old(log) + [Complete(ok)]
      ensures ok ==> file == Some(Assembled(chunks))
      ensures file == old(file) || file == Some(Assembled(chunks))
      ensures calm ==> ok
    {
      ok := false;
      var requestLost := Lost();
      if !requestLost {
        file := Some(Assembled(chunks));
        var replyLost := Lost();
        ok := !replyLost;
      }
      log := log + [Complete(ok)];
    }

    method UploadAbort()
      modifies this
      ensures file == old(file) && sent == old(sent) && (chunks == old(chunks) || chunks == [])
      ensures log == old(log) + [Abort]
    {
      log := log + [Abort];
      var lost := Lost();
      if !lost { chunks := []; }
    }
  }

  function Stored(chunks: seq<Bytes>, n: nat, data: Bytes): seq<Bytes>
    requires n <= |chunks|
  {
    if n < |chunks| then chunks[n := data] else chunks + [data]
  }

  lemma StoredIsPart(chunks: seq<Bytes>, file: Bytes, n: nat)
    requires PartOf(chunks, file) && n <= |chunks| && n < ChunkCount(file)
    ensures PartOf(Stored(chunks, n, ChunkOf(file, n)), file)
    ensures |Stored(chunks, n, ChunkOf(file, n))| > n && |Stored(chunks, n, ChunkOf(file, n))| >= |chunks|
  {
  }

  lemma NextChunk(file: Bytes, n: nat)
    requires n * CHUNK_SIZE < |file|
    ensures n < ChunkCount(file)
    ensures ChunkOf(file, n) == file[n * CHUNK_SIZE..Least(n * CHUNK_SIZE + CHUNK_SIZE, |file|)]
    ensures PartOf([], file)
  {
  }

  class Uploader {
    const api: Server

    constructor (api: Server)
      ensures this.api == api
    {
      this.api := api;
    }

    /** Upload. Success means the server has assembled exactly the file, resumed or not and
        whatever was lost on the way; on a calm line it succeeds. No chunk is sent beyond the
        server's next one, and no more than two failures in a row are put up with, so the loop
        ends. `trace` are the requests made; they are in the order Proper describes, and the
        upload ends with the last of them. */
    method Upload(file: Bytes) returns (ok: bool, ghost trace: seq<Request>)
      requires PartOf(api.chunks, file)
      modifies api
      ensures ok ==> api.file == Some(file)
      ensures api.file == old(api.file) || api.file == Some(file)
      ensures NoneBeyond(old(api.sent), api.sent)
      ensures PartOf(api.chunks, file)
      ensures api.log == old(api.log) + trace && Proper(trace, |file|) && trace != []
      ensures var last := trace[|trace| - 1];
              if ok then last == Complete(true) else last in {Init(None), Abort, Complete(false)}
      ensures api.calm ==> ok
    {
      trace := [];
      assert Proper(trace, |file|) && Failures(trace) == 0;
      hide PartOf, Stored, ChunkOf, ChunkCount, Proper, Said, Failures, NoneBeyond;
      NoneSent(api.sent);
      var next;
      ok, next := api.UploadInit();
      ghost var r := Init(if ok then Some(next) else None);
      OneMoreRequest(trace, r, |file|);
      trace := trace + [r];
      if !ok { return; }
      // The server is authoritative about where to resume from.
      var fine, st := api.UploadStatus();
      r := Status(if fine then Some(st) else None);
      OneMoreRequest(trace, r, |file|);
      trace := trace + [r];
      if fine { next := st; }
      var attempts := 0;
      while next * CHUNK_SIZE < |file|
        invariant PartOf(api.chunks, file) && next <= |api.chunks| && 0 <= attempts < MAX_ATTEMPTS
        invariant api.file == old(api.file) && NoneBeyond(old(api.sent), api.sent)
        invariant api.log == old(api.log) + trace && Proper(trace, |file|) && IsReady(trace)
        invariant Said(trace) == Some(next) && Failures(trace) == attempts
        decreases ChunkCount(file) - next, MAX_ATTEMPTS - attempts
      {
        ghost var sent, more := api.sent, [];
        ok, next, attempts, more := SendChunk(file, next, attempts, trace);
        BeyondOn(old(api.sent), sent, api.sent);
        assert old(api.log) + trace + more == old(api.log) + (trace + more);
        trace := trace + more;
        if !ok { return; }
      }
      AllPartsAreTheFile(api.chunks, file);
      ok := api.UploadComplete();
      OneMoreRequest(trace, Complete(ok), |file|);
      trace := trace + [Complete(ok)];
    }

    /** One turn of the loop: the next chunk, and after a failure the question where to go on, or
        the end of the upload. */
    method SendChunk(file: Bytes, next: nat, attempts: nat, ghost trace: seq<Request>)
        returns (ok: bool, next': nat, attempts': nat, ghost more: seq<Request>)
      requires PartOf(api.chunks, file) && next <= |api.chunks| && attempts < MAX_ATTEMPTS
      requires next * CHUNK_SIZE < |file| && Proper(trace, |file|) && IsReady(trace)
      requires Said(trace) == Some(next) && Failures(trace) == attempts
      modifies api
      ensures PartOf(api.chunks, file) && api.file == old(api.file) && NoneBeyond(old(api.sent), api.sent)
      ensures api.log == old(api.log) + more && more != [] && Proper(trace + more, |file|)
      ensures !ok ==> more[|more| - 1] == Abort && !api.calm
      ensures ok ==>
                && next' <= |api.chunks| && attempts' < MAX_ATTEMPTS && IsReady(trace + more)
                && Said(trace + more) == Some(next') && Failures(trace + more) == attempts'
                && (next' > next || (next' == next && attempts' > attempts)) && next < ChunkCount(file)
    {
      hide PartOf, Stored, ChunkOf, ChunkCount, Proper, Said, Failures;
      next', attempts' := next, attempts;
      var start := next * CHUNK_SIZE;
      var end := Least(start + CHUNK_SIZE, |file|);
      NextChunk(file, next);
      StoredIsPart(api.chunks, file, next);
      var fine, n := api.UploadChunk(next, file[start..end]);
      ghost var r := Chunk(next, if fine then Some(n) else None);
      OneMoreRequest(trace, r, |file|);
      more := [r];
      if !fine {
        attempts' := attempts + 1;
        if attempts' >= MAX_ATTEMPTS {
          api.UploadAbort();
          OneMoreRequest(trace + [r], Abort, |file|);
          more := [r, Abort];
          assert trace + more == trace + [r] + [Abort];
          return false, next', attempts', more;
        }
        var st;
        fine, st := api.UploadStatus();
        ghost var q := Status(if fine then Some(st) else None);
        OneMoreRequest(trace + [r], q, |file|);
        more := [r, q];
        assert trace + more == trace + [r] + [q];
        if fine { next' := st; }
      } else {
        attempts' := 0;
        next' := n;
      }
      ok := true;
    }
  }

  /** No chunk was sent beyond the server's next one. */
  ghost predicate NoneBeyond(sent: seq<(nat, nat)>, sent': seq<(nat, nat)>) {
    sent <= sent' && forall i :: |sent| <= i < |sent'| ==> sent'[i].0 <= sent'[i].1
  }

  lemma NoneSent(sent: seq<(nat, nat)>)
    ensures NoneBeyond(sent, sent)
  {
  }

  lemma BeyondOn(a: seq<(nat, nat)>, b: seq<(nat, nat)>, c: seq<(nat, nat)>)
    requires NoneBeyond(a, b) && NoneBeyond(b, c)
    ensures NoneBeyond(a, c)
  {
  }
}
