/** push.go: PushLocal, which sends the local changes to the server one by one and enters the
    server's answers into the index. */
module PushLocal {
  import opened FileSystem
  import opened SyncTypes
  import opened Feed
  import opened LocalChanges
  import opened Push
  import opened PushState
  import opened PushRun
  import opened Chronicle
  import opened Detect
  import Server = Remote
  import E = Engine

  /** index.Node: a row with its key. */
  datatype Known = Known(id: NodeID, row: Row)

  function BaseName(p: Path): string {
    if p == [] then "." else Base(p)
  }

  // ---------- what is followed ----------

  ghost predicate Tracks(hash: Bytes -> string, disk: Tree, track: Option<Track>, s: Feed.Server, index: Index) {
    track.Some? ==> OnTrack(hash, disk, track.value, s, index)
  }

  ghost predicate TracksNext(track: Option<Track>, c: LocalChange, nodes: map<Path, Known>) {
    track.Some? ==>
        && track.value.k < |track.value.cs| && track.value.cs[track.value.k] == c
        && NodesOk(track.value, nodes)
  }

  /** The snapshot of the index, looked up by path. */
  ghost predicate NodesOk(t: Track, nodes: map<Path, Known>) {
    && (forall p {:trigger nodes[p]} :: p in nodes ==>
          p in t.known && nodes[p].row == t.known[p] && p in t.st.server.meta && nodes[p].id == t.st.server.meta[p].id)
    && (forall p {:trigger p in nodes} {:trigger p in t.known} :: p in t.known ==> p in nodes)
  }

  /** The server went through some further states, and none of them lost anything. */
  ghost predicate AllKeep(track: Option<Track>, before: seq<Feed.Server>, now: seq<Feed.Server>) {
    && before <= now
    && (track.Some? ==> forall i :: |before| <= i < |now| ==> Keeps(track.value.st, now[i], track.value.cs))
  }

  ghost predicate SamePush(t: Track, t': Track) {
    t'.st == t.st && t'.cs == t.cs && t'.known == t.known && t'.k == t.k + 1
  }

  ghost predicate MovesOn(hash: Bytes -> string, disk: Tree, track: Option<Track>, track': Option<Track>,
                          s: Feed.Server, index: Index) {
    track.Some? ==> track'.Some? && SamePush(track.value, track'.value) && OnTrack(hash, disk, track'.value, s, index)
  }

  /** What was added to the server's log are the entries of the change sent. */
  ghost predicate Logged(track: Option<Track>, track': Option<Track>, log: seq<Change>, log': seq<Change>) {
    track.Some? ==> track'.Some? && log <= log' && track'.value.told == track.value.told + [log'[|log|..]]
  }

  /** A copy the server has stored is a conflict of the track, and there are no others. */
  ghost predicate Noted(track: Option<Track>, track': Option<Track>, copies: seq<Server.KeptCopy>,
                        copies': seq<Server.KeptCopy>) {
    && copies <= copies' && |copies'| <= |copies| + 1
    && (track.Some? ==>
          && track'.Some?
          && track'.value.conflicts ==
               if copies' == copies then track.value.conflicts
               else track.value.conflicts[copies'[|copies|].of := copies'[|copies|].at])
  }

  lemma ConflictNoted(track: Option<Track>, track': Option<Track>, copies: seq<Server.KeptCopy>, copy: Server.KeptCopy)
    requires track.Some? ==> track'.Some? && track'.value.conflicts == track.value.conflicts[copy.of := copy.at]
    ensures Noted(track, track', copies, copies + [copy])
  {
  }

  /** The conflicts are those of the copies stored in between. */
  ghost predicate KeptNow(conflicts: map<Path, Path>, copies: seq<Server.KeptCopy>, copies': seq<Server.KeptCopy>) {
    copies <= copies' && conflicts == Server.ConflictsIn(copies'[|copies|..])
  }

  lemma NoneKept(copies: seq<Server.KeptCopy>)
    ensures KeptNow(map[], copies, copies)
  {
  }

  lemma KeptSome(conflicts: map<Path, Path>, copies: seq<Server.KeptCopy>, copies': seq<Server.KeptCopy>)
    requires KeptNow(conflicts, copies, copies')
    ensures copies <= copies' && (conflicts != map[] ==> copies' != copies)
  {
  }

  lemma KeptOn(track: Option<Track>, track': Option<Track>, conflicts: map<Path, Path>, first: seq<Server.KeptCopy>,
               copies: seq<Server.KeptCopy>, copies': seq<Server.KeptCopy>)
    requires KeptNow(conflicts, first, copies) && Noted(track, track', copies, copies')
    requires track.Some? ==> track.value.conflicts == conflicts
    ensures first <= copies' && KeptNow(Server.ConflictsIn(copies'[|first|..]), first, copies')
    ensures track.Some? ==> track'.Some? && track'.value.conflicts == Server.ConflictsIn(copies'[|first|..])
  {
    if copies' != copies {
      assert copies'[|first|..] == copies[|first|..] + [copies'[|copies|]];
      Server.OneConflictMore(copies[|first|..], copies'[|copies|]);
    }
  }

  lemma NoRequest(track: Option<Track>, trace: seq<Feed.Server>)
    ensures AllKeep(track, trace, trace)
  {
  }

  lemma OneRequest(hash: Bytes -> string, disk: Tree, track: Option<Track>, track': Option<Track>,
                   trace: seq<Feed.Server>, s: Feed.Server, index: Index)
    requires MovesOn(hash, disk, track, track', s, index)
    ensures AllKeep(track, trace, trace + [s])
  {
    if track.Some? { OnTrackKeeps(hash, disk, track'.value, s, index); }
  }

  lemma MoreRequests(track: Option<Track>, track': Option<Track>, a: seq<Feed.Server>, b: seq<Feed.Server>,
                     c: seq<Feed.Server>)
    requires AllKeep(track, a, b) && AllKeep(track', b, c)
    requires track.Some? ==> track'.Some? && track'.value.st == track.value.st && track'.value.cs == track.value.cs
    ensures AllKeep(track, a, c)
  {
    hide Keeps;
  }

  // ---------- when a push gets through ----------

  /** The index has the server's version of every file. */
  ghost predicate UpToDate(st: Start) {
    forall p {:trigger Outdated(st, p)} :: !Outdated(st, p)
  }

  ghost function Touched(cs: seq<LocalChange>, k: nat): set<Path>
    requires k <= |cs|
  {
    if k == 0 then {} else Touched(cs, k - 1) + Touches(cs[k - 1])
  }

  /** A file that changes folder and name goes through the new folder under its old name.
      That path is free if it is neither taken on the server at that time. */
  ghost predicate WayIsFree(st: Start, cs: seq<LocalChange>, k: nat)
    requires k < |cs|
  {
    Halfway(cs[k]).Some? ==> Halfway(cs[k]).value !in Mix(st.server.tree, st.local, Touched(cs, k))
  }

  ghost predicate FreeUpTo(st: Start, cs: seq<LocalChange>, k: nat)
    requires k <= |cs|
  {
    forall j :: 0 <= j < k ==> WayIsFree(st, cs, j)
  }

  ghost predicate AllWaysFree(st: Start, cs: seq<LocalChange>) {
    forall k :: 0 <= k < |cs| ==> WayIsFree(st, cs, k)
  }

  ghost function Halfway(c: LocalChange): Option<Path> {
    if c.op == MoveOp && c.oldRelPath != [] && Above(c.relPath) != Above(c.oldRelPath)
    then Some(Above(c.relPath) + [Base(c.oldRelPath)]) else None
  }

  ghost predicate HalfFree(c: LocalChange, s: Feed.Server) {
    Halfway(c).Some? ==> Halfway(c).value !in s.tree
  }

  /** Nothing has come between client and server so far. */
  ghost predicate Undisputed(track: Option<Track>) {
    track.Some? && UpToDate(track.value.st) && track.value.conflicts == map[]
  }

  ghost predicate NextIsFree(track: Option<Track>) {
    track.Some? && track.value.k < |track.value.cs| && WayIsFree(track.value.st, track.value.cs, track.value.k)
  }

  lemma {:induction false} TouchedIs(cs: seq<LocalChange>, k: nat, p: Path)
    requires k <= |cs|
    ensures p in Touched(cs, k) <==> exists j :: 0 <= j < k && p in Touches(cs[j])
    decreases k
  {
    if k > 0 {
      TouchedIs(cs, k - 1, p);
    }
  }

  lemma DoneIsTouched(cs: seq<LocalChange>, k: nat, done: set<Path>)
    requires k <= |cs| && Sent(cs, k, done, map[])
    ensures done == Touched(cs, k)
  {
    hide Touches;
    forall p
      ensures p in done <==> p in Touched(cs, k)
    {
      TouchedIs(cs, k, p);
    }
  }

  lemma NoCopies(st: Start, copies: map<Path, Bytes>)
    requires CopiesMatch(st, copies, map[])
    ensures copies == map[]
  {
    assert forall q :: q !in copies;
  }

  lemma WayIs(hash: Bytes -> string, disk: Tree, t: Track, s: Feed.Server, index: Index)
    requires OnTrack(hash, disk, t, s, index) && t.k < |t.cs| && t.conflicts == map[]
    ensures t.copies == map[]
    ensures WayIsFree(t.st, t.cs, t.k) <==> HalfFree(t.cs[t.k], s)
  {
    hide Setting, Waiting, SameNodes, Fits, Delivered, Sent, CopiesMatch, ServerOk;
    NoCopies(t.st, t.copies);
    DoneIsTouched(t.cs, t.k, t.done);
  }

  /** So far no conflict, and every move's way was free. */
  ghost predicate Smooth(start: Option<Start>, cs: seq<LocalChange>, i: nat, conflicts: map<Path, Path>)
    requires i <= |cs|
  {
    start.Some? && UpToDate(start.value) ==>
      conflicts == map[] && forall k :: 0 <= k < i ==> WayIsFree(start.value, cs, k)
  }

  lemma SmoothStarts(start: Option<Start>, cs: seq<LocalChange>)
    ensures Smooth(start, cs, 0, map[])
  {
  }

  lemma SmoothGoesOn(start: Option<Start>, track: Option<Track>, track': Option<Track>, cs: seq<LocalChange>, i: nat,
                     conflicts: map<Path, Path>)
    requires i < |cs| && (track.Some? <==> start.Some?) && (track.Some? ==> track'.Some?)
    requires track.Some? ==> track.value.st == start.value && track.value.cs == cs && track.value.k == i
    requires track.Some? ==> Smooth(start, cs, i, track.value.conflicts)
    requires Undisputed(track) ==> track'.value.conflicts == map[] && NextIsFree(track)
    requires track.Some? ==> conflicts == track'.value.conflicts
    ensures Smooth(start, cs, i + 1, conflicts)
  {
    hide WayIsFree, UpToDate;
  }

  lemma SmoothEnds(start: Option<Start>, cs: seq<LocalChange>, conflicts: map<Path, Path>)
    requires Smooth(start, cs, |cs|, conflicts)
    ensures start.Some? && UpToDate(start.value) ==> conflicts == map[] && AllWaysFree(start.value, cs)
  {
    hide WayIsFree, UpToDate;
  }

  /** A push stopped here was disturbed, or the way was not free. */
  lemma SmoothStops(start: Option<Start>, track: Option<Track>, cs: seq<LocalChange>, i: nat)
    requires i < |cs| && (track.Some? <==> start.Some?)
    requires track.Some? ==> track.value.st == start.value && track.value.cs == cs && track.value.k == i
    requires track.Some? ==> Smooth(start, cs, i, track.value.conflicts)
    requires !(Undisputed(track) && NextIsFree(track))
    ensures !(start.Some? && UpToDate(start.value) && AllWaysFree(start.value, cs))
  {
    hide WayIsFree, UpToDate;
  }

  /** MoveNode is possible when the halfway path is free. */
  lemma FirstHalfIsPossible(t: Track, s: Feed.Server, n: Known)
    requires ServerOk(s) && t.k < |t.cs| && MoveDue(t, s, n) && HalfFree(t.cs[t.k], s)
    requires Above(t.cs[t.k].relPath) != Above(t.cs[t.k].oldRelPath)
    requires t.cs[t.k].op == MoveOp
    ensures var c := t.cs[t.k]; Server.CanMove(s, c.oldRelPath, Above(c.relPath) + [Base(c.oldRelPath)])
  {
    var c := t.cs[t.k];
    var o, d := c.oldRelPath, Above(c.relPath);
    ParentOfChild(d, Base(o));
    if Within(o, d + [Base(o)]) {
      WithinParent(o, d + [Base(o)]);
      NothingBelowFile(s.tree, o, d);
    }
  }

  /** RenameNode is possible when the new path is. */
  lemma SecondHalfIsPossible(hash: Bytes -> string, disk: Tree, t: Track, s: Feed.Server, index: Index, n: Known,
                             s1: Feed.Server, at: Path)
    requires OnTrack(hash, disk, t, s, index) && t.k < |t.cs| && t.cs[t.k].op == MoveOp && t.copies == map[]
    requires ServerOk(s) && ServerOk(s1) && MoveDue(t, s, n) && HalfMoved(t.cs[t.k], s, s1, at)
    requires BaseName(t.cs[t.k].relPath) != BaseName(t.cs[t.k].oldRelPath)
    ensures at in s1.meta && at != [] && s1.meta[at].id == n.id
    ensures Server.CanMove(s1, at, Parent(at) + [BaseName(t.cs[t.k].relPath)])
  {
    hide Pushing, Sent, Delivered, Chronicled, Entered, CopiesMatch;
    var p := t.cs[t.k].relPath;
    TrackFacts(hash, disk, t, s, index);
    MoveFacts(hash, t.st, disk, t.known, t.cs, t.k);
    NextIsUndone(t.cs, t.k, t.done, t.conflicts);
    NewPathIsFree(hash, disk, t, s, index, p);
    hide Setting, OnTrack;
    AtHalf(t, s, n, s1, at);
    NameIsPossible(t, s, n, s1, at);
  }

  lemma NameIsPossible(t: Track, s: Feed.Server, n: Known, s1: Feed.Server, at: Path)
    requires ServerOk(s) && ServerOk(s1) && t.k < |t.cs| && MoveDue(t, s, n) && HalfMoved(t.cs[t.k], s, s1, at)
    requires at in s1.meta && at in s1.tree && s1.tree[at] != Folder
    requires BaseName(t.cs[t.k].relPath) != BaseName(t.cs[t.k].oldRelPath)
    requires t.cs[t.k].relPath !in s.tree && !Ignored(t.cs[t.k].relPath)
    ensures at != [] && Server.CanMove(s1, at, Parent(at) + [BaseName(t.cs[t.k].relPath)])
  {
    var o, p := t.cs[t.k].oldRelPath, t.cs[t.k].relPath;
    RejoinParent(p);
    ParentOfChild(Above(p), Base(o));
    assert Parent(at) == Parent(p) && Base(at) == Base(o);
    assert Parent(p) in s1.tree && s1.tree[Parent(p)] == Folder;
    if Within(at, p) {
      WithinParent(at, p);
      NothingBelowFile(s1.tree, at, Parent(p));
    }
  }

  // ---------- the requests ----------

  /** A new folder: EnsureDir and its row. Only a conflict copy of the same name, stored
      earlier in this push, can make the server refuse. */
  method SendFolder(e: E.Engine, remote: Server.Remote, c: LocalChange, nodes: map<Path, Known>,
                    ghost track: Option<Track>)
      returns (ok: bool, ghost track': Option<Track>)
    requires remote.hash == e.hash
    requires ServerOk(remote.srv) && Tracks(e.hash, e.disk, track, remote.srv, e.index) && TracksNext(track, c, nodes)
    requires c.op == CreateOp && c.isDir
    modifies e`index, remote`srv, remote`trace, remote`log, remote`refused
    ensures ServerOk(remote.srv)
    ensures track.Some? && !ok ==> e.index == old(e.index)
    ensures ok ==> MovesOn(e.hash, e.disk, track, track', remote.srv, e.index)
    ensures ok ==> Logged(track, track', old(remote.log), remote.log)
    ensures AllKeep(track, old(remote.trace), remote.trace)
    ensures remote.refused != old(remote.refused) ==> !ok && (track.Some? ==> track.value.copies != map[])
    ensures ok && track.Some? ==> track'.value.conflicts == track.value.conflicts
    ensures e.calm && remote.calm && !ok ==> remote.refused != old(remote.refused)
  {
    hide ServerOk, OpOk, After, BlockOf, OnTrack, AllKeep, Keeps, FreeSlot;
    NoRequest(track, remote.trace);
    track' := None;
    ghost var before, log := remote.srv, remote.log;
    var id, version;
    ok, id, version := remote.EnsureDir(c.relPath);
    ghost var seg := if log <= remote.log then remote.log[|log|..] else [];
    if !ok {
      if track.Some? && remote.refused != old(remote.refused) {
        FolderIsRefused(e.hash, e.disk, track.value, before, e.index);
      }
      return;
    }
    var row := Row(c.relPath, true, version, "", 0);
    if track.Some? {
      FolderSent(e.hash, e.disk, track.value, before, e.index, remote.srv, id, version, seg);
      track' := Some(Settled(track.value, seg));
    }
    OneRequest(e.hash, e.disk, track, track', old(remote.trace), remote.srv, e.index[id := row]);
    var stop := E.Stopped(e.calm);
    if stop { return false, track'; }
    e.index := e.index[id := row];
  }

  lemma FolderIsRefused(hash: Bytes -> string, disk: Tree, t: Track, s: Feed.Server, index: Index)
    requires OnTrack(hash, disk, t, s, index) && t.k < |t.cs| && t.cs[t.k].op == CreateOp && t.cs[t.k].isDir
    requires !FreeSlot(s.tree, t.cs[t.k].relPath) || Ignored(t.cs[t.k].relPath)
    ensures t.copies != map[]
  {
    hide Setting, Pushing, Sent, Delivered, Chronicled, Entered, CopiesMatch;
    var p := t.cs[t.k].relPath;
    CreateFacts(hash, t.st, disk, t.known, t.cs, t.k);
    NextIsThere(hash, disk, t, s, index);
    if p in s.tree {
      NewPathIsFree(hash, disk, t, s, index, p);
    }
  }

  /** The folder of a created or updated path is on the server, and the path undone. */
  lemma NextIsThere(hash: Bytes -> string, disk: Tree, t: Track, s: Feed.Server, index: Index)
    requires OnTrack(hash, disk, t, s, index) && t.k < |t.cs| && t.cs[t.k].op in {CreateOp, UpdateOp}
    ensures var p := t.cs[t.k].relPath;
            p != [] && Parent(p) in s.tree && s.tree[Parent(p)] == Folder && p !in t.done && !Ignored(p)
  {
    hide Pushing, Sent, Delivered, Chronicled, Entered, CopiesMatch;
    TrackFacts(hash, disk, t, s, index);
    ChangedIsLocal(hash, disk, t);
    NextIsUndone(t.cs, t.k, t.done, t.conflicts);
    FolderIsUp(hash, t.st, disk, t.known, t.cs, t.k, t.done, t.conflicts, s, index, t.copies,
               Parent(t.cs[t.k].relPath));
  }

  lemma FileIsNotRefused(hash: Bytes -> string, disk: Tree, t: Track, s: Feed.Server, index: Index)
    requires OnTrack(hash, disk, t, s, index) && t.k < |t.cs| && t.cs[t.k].op in {CreateOp, UpdateOp}
    requires !t.cs[t.k].isDir
    ensures var p := t.cs[t.k].relPath;
            !Ignored(p) && (FreeSlot(s.tree, p) || (p in s.meta && s.tree[p] != Folder))
  {
    hide Setting, Pushing, Sent, Delivered, Chronicled, Entered, CopiesMatch;
    var p := t.cs[t.k].relPath;
    NextIsThere(hash, disk, t, s, index);
    TrackFacts(hash, disk, t, s, index);
    if t.cs[t.k].op == CreateOp {
      CreateFacts(hash, t.st, disk, t.known, t.cs, t.k);
      NewPathIsFree(hash, disk, t, s, index, p);
    } else {
      UpdateFacts(hash, t.st, disk, t.known, t.cs, t.k);
      KeptFileIsFile(hash, disk, t, p);
      OldPathIsThere(hash, disk, t, s, index, p);
    }
  }

  lemma KeptFileIsFile(hash: Bytes -> string, disk: Tree, t: Track, p: Path)
    requires Setting(hash, t.st, disk, t.known, t.cs) && p in t.st.local && p in t.st.server.tree
    requires t.st.local[p] != Folder
    ensures t.st.server.tree[p] != Folder
  {
    var _ := t.st.local[p];
  }

  /** A new or changed file: PushFile under the known version. When the server keeps its own
      file and stores a conflict copy the index stays as it is. */
  method SendFile(e: E.Engine, remote: Server.Remote, c: LocalChange, nodes: map<Path, Known>,
                  ghost track: Option<Track>)
      returns (ok: bool, ghost track': Option<Track>)
    requires SoundHash(e.hash)
    requires remote.hash == e.hash
    requires ServerOk(remote.srv) && Tracks(e.hash, e.disk, track, remote.srv, e.index) && TracksNext(track, c, nodes)
    requires c.op in {CreateOp, UpdateOp} && !c.isDir
    modifies e`index, remote
    ensures ServerOk(remote.srv)
    ensures track.Some? && !ok ==> e.index == old(e.index)
    ensures ok ==> MovesOn(e.hash, e.disk, track, track', remote.srv, e.index)
    ensures ok ==> Logged(track, track', old(remote.log), remote.log)
    ensures AllKeep(track, old(remote.trace), remote.trace)
    ensures ok && Undisputed(track) ==> track'.value.conflicts == map[]
    ensures ok ==> Noted(track, track', old(remote.copies), remote.copies)
    ensures !ok ==> remote.copies == old(remote.copies)
    ensures track.Some? ==> remote.refused == old(remote.refused)
    ensures e.calm && remote.calm && track.Some? ==> ok
  {
    hide ServerOk, OpOk, After, BlockOf, OnTrack, AllKeep, Keeps, FreeSlot, SoundHash, Noted;
    if track.Some? { ContentIsThere(e.hash, e.disk, track.value, remote.srv, e.index); }
    NoRequest(track, remote.trace);
    track' := None;
    ghost var before, log := remote.srv, remote.log;
    if c.relPath !in e.disk || e.disk[c.relPath] == Folder { return false, track'; }
    var data := e.disk[c.relPath].data;
    var base := if c.relPath in nodes then Some(nodes[c.relPath].row.version) else None;
    var id, version, conflicted;
    ghost var copy;
    ok, id, version, conflicted, copy := remote.PushFile(c.relPath, base, data);
    if track.Some? { FileIsNotRefused(e.hash, e.disk, track.value, before, e.index); }
    if !ok { return; }
    ghost var seg := remote.log[|log|..];
    if conflicted {
      if track.Some? {
        if Undisputed(track) { UndisputedIsUpdated(e.hash, e.disk, track.value, before, e.index, base); }
        NextIsThere(e.hash, e.disk, track.value, before, e.index);
        CreatedIsNotRoot(before, Create(copy, Regular(data), id, version));
        CopySent(e.hash, e.disk, track.value, before, e.index, remote.srv, base, copy, data, id, version, seg);
        track' := Some(Copied(track.value, copy, data, seg));
      }
      OneRequest(e.hash, e.disk, track, track', old(remote.trace), remote.srv, e.index);
      ConflictNoted(track, track', old(remote.copies), Server.KeptCopy(c.relPath, copy));
      return;
    }
    // The server answers with the content's hash or with none.
    var answered: bool := *;
    var h := if answered then e.hash(data) else "";
    if h == "" { h := c.hash; }
    var row := Row(c.relPath, false, version, h, c.size);
    if track.Some? {
      HashIsLocal(e.hash, e.disk, track.value, before, e.index, data);
      FileSent(e.hash, e.disk, track.value, before, e.index, remote.srv, base, data, id, version, row, seg);
      track' := Some(Settled(track.value, seg));
    }
    OneRequest(e.hash, e.disk, track, track', old(remote.trace), remote.srv, e.index[id := row]);
    NothingNoted(track, track', remote.copies);
    var stop := E.Stopped(e.calm);
    if stop { return false, track'; }
    e.index := e.index[id := row];
  }

  lemma ContentIsThere(hash: Bytes -> string, disk: Tree, t: Track, s: Feed.Server, index: Index)
    requires OnTrack(hash, disk, t, s, index) && t.k < |t.cs| && t.cs[t.k].op in {CreateOp, UpdateOp}
    requires !t.cs[t.k].isDir
    ensures t.cs[t.k].relPath in disk && disk[t.cs[t.k].relPath] != Folder
  {
    hide Pushing, Sent, Delivered, Chronicled, Entered, CopiesMatch;
    if t.cs[t.k].op == CreateOp { CreateFacts(hash, t.st, disk, t.known, t.cs, t.k); }
    else { UpdateFacts(hash, t.st, disk, t.known, t.cs, t.k); }
  }

  /** Under an up-to-date index the server does not keep its own file. */
  lemma UndisputedIsUpdated(hash: Bytes -> string, disk: Tree, t: Track, s: Feed.Server, index: Index,
                            base: Option<int>)
    requires OnTrack(hash, disk, t, s, index) && t.k < |t.cs| && t.cs[t.k].op in {CreateOp, UpdateOp}
    requires Undisputed(Some(t))
    requires var p := t.cs[t.k].relPath; base == if p in t.known then Some(t.known[p].version) else None
    ensures var p := t.cs[t.k].relPath; p in s.meta && p in s.tree ==> base == Some(s.meta[p].version)
  {
    hide Setting, Pushing, Sent, Delivered, Chronicled, Entered, CopiesMatch;
    var p := t.cs[t.k].relPath;
    WayIs(hash, disk, t, s, index);
    if p in s.meta && p in s.tree && base != Some(s.meta[p].version) {
      ConflictIsOutdated(hash, disk, t, s, index, base);
    }
  }

  lemma CreatedIsNotRoot(s: Feed.Server, op: Op)
    requires ServerOk(s) && OpOk(s, op) && op.Create?
    ensures op.path != []
  {
  }

  lemma HashIsLocal(hash: Bytes -> string, disk: Tree, t: Track, s: Feed.Server, index: Index, data: Bytes)
    requires OnTrack(hash, disk, t, s, index) && t.k < |t.cs|
    requires t.cs[t.k].op in {CreateOp, UpdateOp} && !t.cs[t.k].isDir
    requires t.cs[t.k].relPath in disk && disk[t.cs[t.k].relPath] == Regular(data)
    ensures t.cs[t.k].hash == hash(data) && t.cs[t.k].size == |data|
  {
    ChangedIsLocal(hash, disk, t);
    if t.cs[t.k].op == CreateOp { CreateFacts(hash, t.st, disk, t.known, t.cs, t.k); }
    else { UpdateFacts(hash, t.st, disk, t.known, t.cs, t.k); }
  }

  /** GetByPath. */
  method GetByPath(index: Index, p: Path) returns (id: Option<NodeID>)
    ensures id.Some? ==> id.value in index && index[id.value].path == p
    ensures id.None? ==> forall i :: i in index ==> index[i].path != p
  {
    if i :| i in index && index[i].path == p {
      id := Some(i);
    } else {
      id := None;
    }
  }

  /** The server id of a move's target folder; none stands for the root. A folder the index does
      not know is made, and its row entered. */
  method ParentOf(e: E.Engine, remote: Server.Remote, newParent: Path, ghost track: Option<Track>)
      returns (ok: bool, parentID: Option<NodeID>)
    requires remote.hash == e.hash
    requires ServerOk(remote.srv) && Tracks(e.hash, e.disk, track, remote.srv, e.index)
    requires track.Some? ==> newParent in remote.srv.tree && remote.srv.tree[newParent] == Folder
    requires track.Some? ==> newParent !in track.value.copies
    modifies e`index, remote`srv, remote`trace, remote`log, remote`refused
    ensures ServerOk(remote.srv)
    ensures track.Some? ==> remote.srv == old(remote.srv) && e.index == old(e.index) && remote.log == old(remote.log)
    ensures ok ==> if newParent == [] then parentID.None?
                   else parentID.Some? && parentID.value in e.index && e.index[parentID.value].path == newParent
    ensures if ok && newParent != [] && forall i :: i in old(e.index) ==> old(e.index)[i].path != newParent
            then && newParent in remote.srv.meta && remote.srv.meta[newParent].id == parentID.value
                 && e.index == old(e.index)[parentID.value := Row(newParent, true, remote.srv.meta[newParent].version,
                                                                  "", 0)]
            else e.index == old(e.index)
    ensures AllKeep(track, old(remote.trace), remote.trace)
    ensures track.Some? ==> ok && remote.refused == old(remote.refused)
    ensures track.Some? && ok ==> if newParent == [] then parentID.None?
                                  else && parentID.Some? && newParent in remote.srv.meta
                                       && remote.srv.meta[newParent].id == parentID.value
  {
    hide OpOk, After, OnTrack, Keeps, FreeSlot;
    parentID := None;
    if newParent == [] { return true, None; }
    parentID := GetByPath(e.index, newParent);
    if track.Some? { FolderIsIndexed(e.hash, e.disk, track.value, remote.srv, e.index, newParent); }
    if parentID.Some? { return true, parentID; }
    var id, version;
    ok, id, version := remote.EnsureDir(newParent);
    if !ok { return; }
    var stop := E.Stopped(e.calm);
    if stop { return false, parentID; }
    e.index := e.index[id := Row(newParent, true, version, "", 0)];
    parentID := Some(id);
  }

  lemma FolderIsIndexed(hash: Bytes -> string, disk: Tree, t: Track, s: Feed.Server, index: Index, d: Path)
    requires OnTrack(hash, disk, t, s, index) && d in s.tree && d != [] && d !in t.copies
    ensures d in s.meta && s.meta[d].id in index && index[s.meta[d].id].path == d
    ensures forall id :: id in index && index[id].path == d ==> id == s.meta[d].id
  {
    hide Setting, Sent, Delivered, Chronicled, Entered, CopiesMatch, Mix, TreeIs, CopiesOk, Waiting, SameNodes;
    forall id | id in index && index[id].path == d
      ensures id == s.meta[d].id
    {
      var _ := index[id];
    }
  }

  /** A moved file: MoveNode when the folder changes, RenameNode when the name changes. In
      between the file is at its new folder under its old name. */
  method SendMove(e: E.Engine, remote: Server.Remote, c: LocalChange, nodes: map<Path, Known>,
                  ghost track: Option<Track>)
      returns (ok: bool, ghost track': Option<Track>)
    requires remote.hash == e.hash
    requires ServerOk(remote.srv) && Tracks(e.hash, e.disk, track, remote.srv, e.index) && TracksNext(track, c, nodes)
    requires c.op == MoveOp
    modifies e`index, remote`srv, remote`trace, remote`log, remote`refused
    ensures ServerOk(remote.srv)
    ensures track.Some? && !ok ==> e.index == old(e.index)
    ensures ok ==> MovesOn(e.hash, e.disk, track, track', remote.srv, e.index)
    ensures ok ==> Logged(track, track', old(remote.log), remote.log)
    ensures AllKeep(track, old(remote.trace), remote.trace)
    ensures track.Some? ==> remote.refused == old(remote.refused)
    ensures ok && track.Some? ==> track'.value.conflicts == track.value.conflicts
    ensures ok && Undisputed(track) ==> NextIsFree(track)
    ensures e.calm && remote.calm && Undisputed(track) && NextIsFree(track) ==> ok
    ensures e.calm && remote.calm && Undisputed(track) && !ok ==>
              remote.srv == old(remote.srv) && remote.log == old(remote.log)
  {
    hide ServerOk, OpOk, After, BlockOf, OnTrack, AllKeep, Keeps, Carried, WayIsFree, HalfFree, MoveDue, UpToDate,
         HalfMoved, FirstTold, SecondTold, MoveTold, MovesOn, Logged, Undisputed, NextIsFree;
    NoRequest(track, remote.trace);
    track' := None;
    if Undisputed(track) { UndisputedIs(e.hash, e.disk, track, remote.srv, e.index, c, nodes); }
    if track.Some? { MoveIsNext(e.hash, e.disk, track.value, remote.srv, e.index, c, nodes); }
    if c.oldRelPath !in nodes { return false, track'; }
    var n := nodes[c.oldRelPath];
    ghost var before, known, log := remote.srv, e.index, remote.log;
    ghost var at;
    ok, at := MoveIntoFolder(e, remote, c, n, track);
    if !ok { return; }
    ghost var half, between, log1 := remote.trace, remote.srv, remote.log;
    if track.Some? { HalfWasFree(c, before, remote.srv, at); }
    ok := GiveName(e, remote, c, n, track, before, known, at);
    if !ok { return; }
    var row := Row(c.relPath, false, n.row.version, n.row.hash, n.row.size);
    if track.Some? {
      MoveIsSent(e.hash, e.disk, track.value, n, before, known, between, remote.srv, at, log, log1, remote.log);
      track' := Some(Settled(track.value, remote.log[|log|..]));
    } else {
      Unfollowed(e.hash, e.disk, remote.srv, e.index[n.id := row], log, remote.log);
    }
    LastHalf(e.hash, e.disk, track, track', old(remote.trace), half, remote.trace, remote.srv, e.index[n.id := row]);
    var stop := E.Stopped(e.calm);
    if stop { return false, track'; }
    e.index := e.index[n.id := row];
    ok := true;
  }

  lemma Unfollowed(hash: Bytes -> string, disk: Tree, s: Feed.Server, index: Index, log: seq<Change>, log': seq<Change>)
    ensures MovesOn(hash, disk, None, None, s, index) && Logged(None, None, log, log')
  {
  }

  lemma MoveIsNext(hash: Bytes -> string, disk: Tree, t: Track, s: Feed.Server, index: Index, c: LocalChange,
                   nodes: map<Path, Known>)
    requires OnTrack(hash, disk, t, s, index) && TracksNext(Some(t), c, nodes) && c.op == MoveOp
    ensures c.oldRelPath in nodes && MoveDue(t, s, nodes[c.oldRelPath])
    ensures Undisputed(Some(t)) ==> t.copies == map[] && (NextIsFree(Some(t)) <==> HalfFree(c, s))
  {
    hide OnTrack, WayIsFree, HalfFree, UpToDate;
    SourceIsKnown(hash, disk, t, s, index, nodes);
    MoveIsDue(hash, disk, t, s, index, nodes[c.oldRelPath], nodes);
    if Undisputed(Some(t)) { WayIs(hash, disk, t, s, index); }
  }

  lemma MoveIsSent(hash: Bytes -> string, disk: Tree, t: Track, n: Known, s: Feed.Server, index: Index,
                   s1: Feed.Server, s2: Feed.Server, at: Path, log: seq<Change>, log1: seq<Change>, log2: seq<Change>)
    requires OnTrack(hash, disk, t, s, index) && t.k < |t.cs| && t.cs[t.k].op == MoveOp && MoveDue(t, s, n)
    requires HalfMoved(t.cs[t.k], s, s1, at) && log <= log1 <= log2
    requires FirstTold(hash, t.cs[t.k], n, s, s1, at, log1[|log|..])
    requires SecondTold(hash, t.cs[t.k], n, s, s1, s2, log2[|log1|..])
    requires ServerOk(s2) && Carried(s, s2, t.cs[t.k].oldRelPath, t.cs[t.k].relPath)
    ensures var t' := Settled(t, log2[|log|..]);
            && MovesOn(hash, disk, Some(t), Some(t'), s2,
                       index[n.id := Row(t.cs[t.k].relPath, false, n.row.version, n.row.hash, n.row.size)])
            && Logged(Some(t), Some(t'), log, log2) && t'.conflicts == t.conflicts
  {
    hide OnTrack, HalfMoved, FirstTold, SecondTold, MoveTold, ServerOk, Carried;
    DueNode(t, s, n);
    BothTold(hash, t, n, s, s1, s2, at, log1[|log|..], log2[|log1|..]);
    assert log2[|log|..] == log1[|log|..] + log2[|log1|..];
    MoveSent(hash, disk, t, s, index, s2, Row(t.cs[t.k].relPath, false, n.row.version, n.row.hash, n.row.size),
             log2[|log|..]);
  }

  /** Second half of a move: the node gets its new name in the folder it is in. */
  method GiveName(e: E.Engine, remote: Server.Remote, c: LocalChange, n: Known, ghost track: Option<Track>,
                  ghost before: Feed.Server, ghost known: Index, ghost at: Path)
      returns (ok: bool)
    requires ServerOk(remote.srv) && ServerOk(before) && remote.hash == e.hash
    requires track.Some? ==> track.value.k < |track.value.cs| && track.value.cs[track.value.k] == c && c.op == MoveOp
    requires track.Some? ==> OnTrack(e.hash, e.disk, track.value, before, known)
    requires track.Some? ==> MoveDue(track.value, before, n) && HalfMoved(c, before, remote.srv, at)
    modifies remote`srv, remote`trace, remote`log
    ensures ServerOk(remote.srv)
    ensures ok && track.Some? ==> Carried(before, remote.srv, c.oldRelPath, c.relPath)
    ensures ok && track.Some? ==> old(remote.log) <= remote.log
    ensures ok && track.Some? ==>
              SecondTold(e.hash, c, n, before, old(remote.srv), remote.srv, remote.log[|old(remote.log)|..])
    ensures remote.trace == old(remote.trace) || remote.trace == old(remote.trace) + [remote.srv]
    ensures !ok ==> remote.trace == old(remote.trace)
    ensures remote.calm && track.Some? && track.value.copies == map[] ==> ok
  {
    hide ServerOk, OpOk, After, OnTrack, Carried, MoveDue, HalfMoved, BlockOf, Shows;
    ghost var between := remote.srv;
    ok := true;
    if BaseName(c.relPath) != BaseName(c.oldRelPath) {
      if track.Some? && track.value.copies == map[] {
        SecondHalfIsPossible(e.hash, e.disk, track.value, before, known, n, between, at);
      }
      ghost var op;
      ok, op := remote.RenameNode(n.id, BaseName(c.relPath));
      if !ok { return; }
      if track.Some? { SecondHalf(e.hash, track.value, before, n, between, at, op); }
    } else if track.Some? {
      NoSecondHalf(track.value, before, n, between, at);
    }
  }

  lemma DueNode(t: Track, s: Feed.Server, n: Known)
    requires t.k < |t.cs| && MoveDue(t, s, n)
    ensures var o := t.cs[t.k].oldRelPath; o in t.known && n.row == t.known[o] && o in s.meta && s.meta[o].id == n.id
  {
  }

  lemma SourceIsKnown(hash: Bytes -> string, disk: Tree, t: Track, s: Feed.Server, index: Index,
                      nodes: map<Path, Known>)
    requires OnTrack(hash, disk, t, s, index) && t.k < |t.cs| && t.cs[t.k].op == MoveOp && NodesOk(t, nodes)
    ensures t.cs[t.k].oldRelPath in nodes
  {
    hide Pushing, Sent, Delivered, Chronicled, Entered, CopiesMatch, Setting;
    MoveFacts(hash, t.st, disk, t.known, t.cs, t.k);
  }

  lemma HalfWasFree(c: LocalChange, s: Feed.Server, s1: Feed.Server, at: Path)
    requires HalfMoved(c, s, s1, at)
    ensures HalfFree(c, s)
  {
  }

  /** First half of a move: the node keeps its name and goes to the folder of the new path. */
  method MoveIntoFolder(e: E.Engine, remote: Server.Remote, c: LocalChange, n: Known, ghost track: Option<Track>)
      returns (ok: bool, ghost at: Path)
    requires remote.hash == e.hash
    requires ServerOk(remote.srv) && Tracks(e.hash, e.disk, track, remote.srv, e.index)
    requires track.Some? ==> track.value.k < |track.value.cs| && track.value.cs[track.value.k] == c
    requires track.Some? ==> c.op == MoveOp && MoveDue(track.value, remote.srv, n)
    modifies e`index, remote`srv, remote`trace, remote`log, remote`refused
    ensures ServerOk(remote.srv)
    ensures AllKeep(track, old(remote.trace), remote.trace)
    ensures track.Some? ==> remote.refused == old(remote.refused)
    ensures track.Some? && !ok ==>
              remote.srv == old(remote.srv) && remote.log == old(remote.log) && e.index == old(e.index)
    ensures track.Some? && ok ==> e.index == old(e.index) && HalfMoved(c, old(remote.srv), remote.srv, at)
    ensures track.Some? && ok ==> old(remote.log) <= remote.log
    ensures track.Some? && ok ==>
              FirstTold(e.hash, c, n, old(remote.srv), remote.srv, at, remote.log[|old(remote.log)|..])
    ensures e.calm && remote.calm && track.Some? && HalfFree(c, old(remote.srv)) ==> ok
  {
    hide ServerOk, OpOk, After, BlockOf, OnTrack, AllKeep, Keeps, Carried, HalfFree, BlockOf, Shows;
    NoRequest(track, remote.trace);
    var newParent, oldParent := Above(c.relPath), Above(c.oldRelPath);
    at := c.oldRelPath;
    if newParent == oldParent { return true, at; }
    ghost var before, known := remote.srv, e.index;
    var parentID;
    ok, parentID := ParentOf(e, remote, newParent, track);
    if !ok { return; }
    ghost var mid := remote.trace;
    ghost var op, parent;
    if track.Some? && HalfFree(c, remote.srv) { FirstHalfIsPossible(track.value, remote.srv, n); }
    ok, op, parent := remote.MoveNode(n.id, parentID);
    if !ok { return; }
    at := op.to;
    if track.Some? {
      FirstHalf(e.hash, e.disk, track.value, before, known, n, op, parent);
    }
    HalfKeeps(track, old(remote.trace), mid, remote.srv);
  }

  ghost predicate MoveDue(t: Track, s: Feed.Server, n: Known)
    requires t.k < |t.cs|
  {
    var o, p := t.cs[t.k].oldRelPath, t.cs[t.k].relPath;
    && o != [] && p != [] && o != p && o in t.known && n.row == t.known[o]
    && o in s.meta && s.meta[o].id == n.id && o in s.tree && s.tree[o] != Folder && o !in t.st.local
    && Parent(p) in s.tree && s.tree[Parent(p)] == Folder && Parent(p) !in t.copies
  }

  ghost predicate HalfMoved(c: LocalChange, s: Feed.Server, s1: Feed.Server, at: Path) {
    && c.relPath != [] && c.oldRelPath != []
    && if Above(c.relPath) == Above(c.oldRelPath) then at == c.oldRelPath && s1 == s
       else Carried(s, s1, c.oldRelPath, at) && at == Above(c.relPath) + [Base(c.oldRelPath)]
  }

  /** The entry of MoveNode, if it was called, shows the file in passing. */
  ghost predicate FirstTold(hash: Bytes -> string, c: LocalChange, n: Known, s: Feed.Server, s1: Feed.Server, at: Path,
                            seg: seq<Change>)
  {
    if Above(c.relPath) == Above(c.oldRelPath) then seg == []
    else
      && |seg| == 1 && Shows(hash, s1, seg[0], at) && at != [] && !Ignored(at)
      && seg[0].nodeID == n.id && !seg[0].isDir
      && c.oldRelPath in s.tree && s.tree[c.oldRelPath].Regular? && seg[0].hash == hash(s.tree[c.oldRelPath].data)
  }

  /** The entry of RenameNode, if it was called, shows it at its new path. */
  ghost predicate SecondTold(hash: Bytes -> string, c: LocalChange, n: Known, s: Feed.Server, s1: Feed.Server,
                             s2: Feed.Server, seg: seq<Change>)
  {
    if BaseName(c.relPath) == BaseName(c.oldRelPath) then seg == [] && s2 == s1
    else
      && |seg| == 1 && Shows(hash, s2, seg[0], c.relPath) && seg[0].nodeID == n.id && !seg[0].isDir
      && c.oldRelPath in s.tree && s.tree[c.oldRelPath].Regular? && seg[0].hash == hash(s.tree[c.oldRelPath].data)
  }

  lemma BothTold(hash: Bytes -> string, t: Track, n: Known, s: Feed.Server, s1: Feed.Server, s2: Feed.Server, at: Path,
                 seg1: seq<Change>, seg2: seq<Change>)
    requires t.k < |t.cs| && t.cs[t.k].op == MoveOp && MoveDue(t, s, n) && HalfMoved(t.cs[t.k], s, s1, at)
    requires FirstTold(hash, t.cs[t.k], n, s, s1, at, seg1) && SecondTold(hash, t.cs[t.k], n, s, s1, s2, seg2)
    ensures MoveTold(hash, s, s2, t.cs[t.k], seg1 + seg2)
  {
    hide Describes;
    var c := t.cs[t.k];
    RejoinParent(c.relPath);
    RejoinParent(c.oldRelPath);
    if seg1 == [] {
      assert Detour(c) == None && seg1 + seg2 == seg2;
    } else if seg2 == [] {
      assert Detour(c) == None && seg1 + seg2 == seg1 && at == c.relPath;
    } else {
      assert Detour(c) == Some(at) && seg1 + seg2 == [seg1[0], seg2[0]];
    }
  }

  lemma HalfKeeps(track: Option<Track>, a: seq<Feed.Server>, b: seq<Feed.Server>, s: Feed.Server)
    requires AllKeep(track, a, b) && (track.Some? ==> Keeps(track.value.st, s, track.value.cs))
    ensures AllKeep(track, a, b + [s])
  {
    hide Keeps;
  }

  lemma LastHalf(hash: Bytes -> string, disk: Tree, track: Option<Track>, track': Option<Track>,
                 a: seq<Feed.Server>, b: seq<Feed.Server>, c: seq<Feed.Server>, s: Feed.Server, index: Index)
    requires AllKeep(track, a, b) && (c == b || c == b + [s]) && MovesOn(hash, disk, track, track', s, index)
    ensures AllKeep(track, a, c)
  {
    if track.Some? { OnTrackKeeps(hash, disk, track'.value, s, index); }
    HalfKeeps(track, a, b, s);
  }

  /** What a move finds: the file is at its old path, and the target folder is on the server. */
  lemma MoveIsDue(hash: Bytes -> string, disk: Tree, t: Track, s: Feed.Server, index: Index, n: Known,
                  nodes: map<Path, Known>)
    requires OnTrack(hash, disk, t, s, index) && t.k < |t.cs| && t.cs[t.k].op == MoveOp && NodesOk(t, nodes)
    requires t.cs[t.k].oldRelPath in nodes && nodes[t.cs[t.k].oldRelPath] == n
    ensures MoveDue(t, s, n)
  {
    hide Setting, Pushing, Sent, Delivered, Chronicled, Entered, CopiesMatch;
    var c := t.cs[t.k];
    TrackFacts(hash, disk, t, s, index);
    MoveFacts(hash, t.st, disk, t.known, t.cs, t.k);
    NextIsUndone(t.cs, t.k, t.done, t.conflicts);
    OldPathIsThere(hash, disk, t, s, index, c.oldRelPath);
    LocalParent(hash, disk, t, c.relPath);
    FolderIsUp(hash, t.st, disk, t.known, t.cs, t.k, t.done, t.conflicts, s, index, t.copies, Parent(c.relPath));
  }

  lemma LocalParent(hash: Bytes -> string, disk: Tree, t: Track, p: Path)
    requires Setting(hash, t.st, disk, t.known, t.cs) && p in t.st.local && p != []
    ensures Parent(p) in t.st.local && t.st.local[Parent(p)] == Folder
  {
  }

  lemma OneNodeOnly(s: Feed.Server, p: Path, q: Path)
    requires ServerOk(s) && p in s.meta && q in s.meta && s.meta[p].id == s.meta[q].id
    ensures p == q
  {
  }

  /** After MoveNode the same file is in the new folder under its old name. */
  lemma FirstHalf(hash: Bytes -> string, disk: Tree, t: Track, s: Feed.Server, index: Index, n: Known, op: Op,
                  parent: Path)
    requires OnTrack(hash, disk, t, s, index) && ServerOk(s) && t.k < |t.cs| && MoveDue(t, s, n)
    requires op.Move? && OpOk(s, op) && op.from in s.meta && s.meta[op.from].id == n.id
    requires op.from != [] && op.to == parent + [Base(op.from)]
    requires var d := Above(t.cs[t.k].relPath);
             if d == [] then parent == [] else parent in s.meta && d in s.meta && s.meta[parent].id == s.meta[d].id
    requires Above(t.cs[t.k].relPath) != Above(t.cs[t.k].oldRelPath)
    ensures HalfMoved(t.cs[t.k], s, After(s, op), op.to)
    ensures FirstTold(hash, t.cs[t.k], n, s, After(s, op), op.to, BlockOf(hash, s, op))
    ensures Keeps(t.st, After(s, op), t.cs)
  {
    hide OnTrack, Keeps, Carried, ServerOk, OpOk, After, BlockOf, Shows;
    var o := t.cs[t.k].oldRelPath;
    OneNodeOnly(s, op.from, o);
    if Above(t.cs[t.k].relPath) != [] { OneNodeOnly(s, parent, Above(t.cs[t.k].relPath)); }
    MoveCarries(s, op);
    FileMoveShows(hash, s, op);
    AfterIsOk(s, op);
    OnTrackKeeps(hash, disk, t, s, index);
    KeepsMidway(t.st, s, After(s, op), t.cs, o, op.to);
  }

  /** After RenameNode it is at its new path. */
  lemma SecondHalf(hash: Bytes -> string, t: Track, s: Feed.Server, n: Known, s1: Feed.Server, at: Path, op: Op)
    requires ServerOk(s) && ServerOk(s1) && t.k < |t.cs| && MoveDue(t, s, n) && HalfMoved(t.cs[t.k], s, s1, at)
    requires op.Move? && OpOk(s1, op) && op.from in s1.meta && s1.meta[op.from].id == n.id
    requires op.from != [] && op.to == Parent(op.from) + [BaseName(t.cs[t.k].relPath)]
    requires BaseName(t.cs[t.k].relPath) != BaseName(t.cs[t.k].oldRelPath)
    ensures Carried(s, After(s1, op), t.cs[t.k].oldRelPath, t.cs[t.k].relPath)
    ensures SecondTold(hash, t.cs[t.k], n, s, s1, After(s1, op), BlockOf(hash, s1, op))
  {
    var o, p := t.cs[t.k].oldRelPath, t.cs[t.k].relPath;
    AtHalf(t, s, n, s1, at);
    FileMoveShows(hash, s1, op);
    hide ServerOk, Carried, OpOk, After, BlockOf, Shows;
    OneNodeOnly(s1, op.from, at);
    RejoinParent(p);
    MoveCarries(s1, op);
    if Above(p) != Above(o) {
      ParentOfChild(Above(p), Base(o));
      CarriedOn(s, s1, After(s1, op), o, at, p);
    }
  }

  lemma AtHalf(t: Track, s: Feed.Server, n: Known, s1: Feed.Server, at: Path)
    requires ServerOk(s) && ServerOk(s1) && t.k < |t.cs| && MoveDue(t, s, n) && HalfMoved(t.cs[t.k], s, s1, at)
    ensures at in s1.meta && s1.meta[at].id == n.id && at in s1.tree && s1.tree[at] != Folder
    ensures t.cs[t.k].oldRelPath in s.tree && s1.tree[at] == s.tree[t.cs[t.k].oldRelPath]
  {
  }

  /** When the name stays the same the first half was the whole move. */
  lemma NoSecondHalf(t: Track, s: Feed.Server, n: Known, s1: Feed.Server, at: Path)
    requires t.k < |t.cs| && MoveDue(t, s, n) && HalfMoved(t.cs[t.k], s, s1, at)
    requires BaseName(t.cs[t.k].relPath) == BaseName(t.cs[t.k].oldRelPath)
    ensures Carried(s, s1, t.cs[t.k].oldRelPath, t.cs[t.k].relPath)
  {
    RejoinParent(t.cs[t.k].relPath);
    RejoinParent(t.cs[t.k].oldRelPath);
  }

  /** A path gone locally: DeleteRemote, then its row. */
  method SendDelete(e: E.Engine, remote: Server.Remote, c: LocalChange, nodes: map<Path, Known>,
                    ghost track: Option<Track>)
      returns (ok: bool, ghost track': Option<Track>)
    requires remote.hash == e.hash
    requires ServerOk(remote.srv) && Tracks(e.hash, e.disk, track, remote.srv, e.index) && TracksNext(track, c, nodes)
    requires c.op == DeleteOp
    modifies e`index, remote`srv, remote`trace, remote`log, remote`refused
    ensures ServerOk(remote.srv)
    ensures track.Some? && !ok ==> e.index == old(e.index)
    ensures ok ==> MovesOn(e.hash, e.disk, track, track', remote.srv, e.index)
    ensures ok ==> Logged(track, track', old(remote.log), remote.log)
    ensures AllKeep(track, old(remote.trace), remote.trace)
    ensures track.Some? ==> remote.refused == old(remote.refused)
    ensures ok && track.Some? ==> track'.value.conflicts == track.value.conflicts
    ensures e.calm && remote.calm && track.Some? ==> ok
  {
    hide ServerOk, OpOk, After, BlockOf, OnTrack, AllKeep, Keeps;
    NoRequest(track, remote.trace);
    track' := None;
    ghost var before := remote.srv;
    ghost var op;
    if track.Some? { DeleteIsDue(e.hash, e.disk, track.value, before, e.index, nodes); }
    ok, op := remote.DeleteRemote(c.relPath);
    if !ok { return; }
    if track.Some? {
      DeleteSent(e.hash, e.disk, track.value, before, e.index, op);
      track' := Some(Settled(track.value, BlockOf(e.hash, before, op)));
    }
    ghost var next := if c.relPath in nodes then e.index - {nodes[c.relPath].id} else e.index;
    OneRequest(e.hash, e.disk, track, track', old(remote.trace), remote.srv, next);
    var stop := E.Stopped(e.calm);
    if stop { return false, track'; }
    if c.relPath in nodes {
      e.index := e.index - {nodes[c.relPath].id};
    }
  }

  lemma DeleteIsDue(hash: Bytes -> string, disk: Tree, t: Track, s: Feed.Server, index: Index, nodes: map<Path, Known>)
    requires OnTrack(hash, disk, t, s, index) && t.k < |t.cs| && t.cs[t.k].op == DeleteOp && NodesOk(t, nodes)
    ensures var p := t.cs[t.k].relPath;
            p in s.meta && p in nodes && p in t.st.server.meta && nodes[p].id == t.st.server.meta[p].id
  {
    hide Setting, Pushing, Sent, Delivered, Chronicled, Entered, CopiesMatch;
    TrackFacts(hash, disk, t, s, index);
    DeleteFacts(hash, t.st, disk, t.known, t.cs, t.k);
    NextIsUndone(t.cs, t.k, t.done, t.conflicts);
    OldPathIsThere(hash, disk, t, s, index, t.cs[t.k].relPath);
  }

  // ---------- the whole push ----------

  /** knownNodes: the index as the push found it, by path. */
  method KnownNodes(index: Index) returns (nodes: map<Path, Known>)
    ensures forall p {:trigger nodes[p]} :: p in nodes ==>
              nodes[p].id in index && index[nodes[p].id] == nodes[p].row && nodes[p].row.path == p
    ensures forall id {:trigger index[id]} :: id in index ==> index[id].path in nodes
  {
    nodes := map[];
    var rest := index.Keys;
    while rest != {}
      invariant rest <= index.Keys
      invariant forall p {:trigger nodes[p]} :: p in nodes ==>
                  nodes[p].id in index && index[nodes[p].id] == nodes[p].row && nodes[p].row.path == p
      invariant forall id {:trigger index[id]} :: id in index && id !in rest ==> index[id].path in nodes
      decreases |rest|
    {
      var id :| id in rest;
      nodes := nodes[index[id].path := Known(id, index[id])];
      rest := rest - {id};
    }
  }

  lemma NodesAreKnown(hash: Bytes -> string, st: Start, known: map<Path, Row>, cs: seq<LocalChange>,
                      nodes: map<Path, Known>)
    requires StartOk(hash, st) && KeyedByPath(st.rows, known)
    requires forall p {:trigger nodes[p]} :: p in nodes ==>
               nodes[p].id in st.rows && st.rows[nodes[p].id] == nodes[p].row && nodes[p].row.path == p
    requires forall id {:trigger st.rows[id]} :: id in st.rows ==> st.rows[id].path in nodes
    ensures NodesOk(Track(st, known, cs, 0, {}, map[], map[], []), nodes)
  {
    forall p | p in nodes
      ensures p in known && nodes[p].row == known[p] && p in st.server.meta && nodes[p].id == st.server.meta[p].id
    {
      var _ := st.rows[nodes[p].id];
    }
    forall p | p in known
      ensures p in nodes
    {
      var id :| id in st.rows && st.rows[id].path == p;
      var _ := st.rows[id];
    }
  }

  lemma NodesStayKnown(t: Track, t': Track, nodes: map<Path, Known>)
    requires NodesOk(t, nodes) && SamePush(t, t')
    ensures NodesOk(t', nodes)
  {
  }

  lemma StartIsUnique(hash: Bytes -> string, st: Start)
    requires StartOk(hash, st)
    ensures UniquePaths(st.rows) && ServerOk(st.server)
  {
  }

  lemma TrackStarts(hash: Bytes -> string, st: Start, disk: Tree, known: map<Path, Row>, report: seq<LocalChange>,
                    cs: seq<LocalChange>)
    requires SoundHash(hash) && StartOk(hash, st) && Closed(disk) && st.local == Visible(disk)
    requires KeyedByPath(st.rows, known) && Reports(report, hash, disk, known)
    requires (multiset(cs) == multiset(report) || multiset(cs) == multiset(Paired(report))) && Ordered(cs)
    ensures OnTrack(hash, disk, Track(st, known, cs, 0, {}, map[], map[], []), st.server, st.rows)
  {
    hide StartOk, KeyedByPath, Reports, IsPlan, Ordered, Visible, Pushing, Closed, SoundHash, Sent, CopiesMatch,
         Chronicled, Entered, Delivered;
    NothingSent(hash, st, cs);
    KnownFromIndex(hash, st, known);
    ReportIsPlan(report, hash, disk, known);
    PairedIsPlan(report, hash, disk, known);
    SortedIsPlan(if multiset(cs) == multiset(report) then report else Paired(report), cs, hash, disk, known);
    PushingStarts(hash, st);
    assert OnTrack(hash, disk, Track(st, known, cs, 0, {}, map[], map[], []), st.server, st.rows) by {
      assert Setting(hash, st, disk, known, cs) by { StartIsUnique(hash, st); }
    }
  }

  lemma NothingSent(hash: Bytes -> string, st: Start, cs: seq<LocalChange>)
    ensures Sent(cs, 0, {}, map[]) && CopiesMatch(st, map[], map[]) && Delivered(st, st.server, {}, cs)
    ensures Chronicled(hash, st, st.server, map[], cs, []) && Entered(hash, st, st.server, st.rows, map[], cs, 0)
  {
  }

  lemma TrackEnds(hash: Bytes -> string, disk: Tree, t: Track, s: Feed.Server, index: Index)
    requires OnTrack(hash, disk, t, s, index) && t.k == |t.cs|
    ensures Finished(hash, t.st, s, index, t.conflicts)
    ensures |t.told| == |t.cs| && Chronicled(hash, t.st, s, t.conflicts, t.cs, t.told)
    ensures Accounted(hash, t.st, s, index, t.conflicts, t.cs) && Apart(t.cs)
    ensures Entered(hash, t.st, s, index, t.conflicts, t.cs, |t.cs|)
  {
    hide Chronicled, Entered, Accounted;
    PushAccounts(hash, t.st, disk, t.known, t.cs, s, index, t.done, t.copies, t.conflicts);
    PushEnds(hash, t.st, disk, t.known, t.cs, s, index, t.done, t.copies, t.conflicts);
  }

  /** A copy stored on the server belongs to a conflict that will be reported. */
  lemma CopiesMeanConflicts(hash: Bytes -> string, disk: Tree, t: Track, s: Feed.Server, index: Index)
    requires OnTrack(hash, disk, t, s, index) && t.copies != map[]
    ensures t.conflicts != map[]
  {
    var q :| q in t.copies;
    var p :| p in t.conflicts && t.conflicts[p] == q;
  }

  method Send(e: E.Engine, remote: Server.Remote, c: LocalChange, nodes: map<Path, Known>, ghost track: Option<Track>)
      returns (ok: bool, ghost track': Option<Track>)
    requires SoundHash(e.hash)
    requires remote.hash == e.hash
    requires ServerOk(remote.srv) && Tracks(e.hash, e.disk, track, remote.srv, e.index) && TracksNext(track, c, nodes)
    modifies e`index, remote
    ensures ServerOk(remote.srv)
    ensures track.Some? && !ok ==> e.index == old(e.index)
    ensures ok ==> MovesOn(e.hash, e.disk, track, track', remote.srv, e.index)
    ensures ok ==> Logged(track, track', old(remote.log), remote.log)
    ensures AllKeep(track, old(remote.trace), remote.trace)
    ensures track.Some? && remote.refused != old(remote.refused) ==> !ok && track.value.copies != map[]
    ensures ok ==> Noted(track, track', old(remote.copies), remote.copies)
    ensures !ok ==> remote.copies == old(remote.copies)
    ensures ok && Undisputed(track) ==> track'.value.conflicts == map[] && NextIsFree(track)
    ensures e.calm && remote.calm && Undisputed(track) && NextIsFree(track) ==> ok
    ensures e.calm && remote.calm && Undisputed(track) && !ok ==>
              remote.srv == old(remote.srv) && remote.log == old(remote.log)
  {
    hide ServerOk, OnTrack, AllKeep, Keeps, SoundHash, UpToDate, WayIsFree, TracksNext, Noted, Logged, Undisputed,
         NextIsFree, MovesOn, Tracks;
    if Undisputed(track) { UndisputedIs(e.hash, e.disk, track, remote.srv, e.index, c, nodes); }
    match c.op
    case CreateOp =>
      if c.isDir {
        ok, track' := SendFolder(e, remote, c, nodes, track);
        if ok { MovedUnnoted(e.hash, e.disk, track, track', remote.srv, e.index, remote.copies); }
      } else {
        ok, track' := SendFile(e, remote, c, nodes, track);
      }
    case UpdateOp =>
      UpdateIsFile(e.hash, e.disk, track, remote.srv, e.index, c, nodes);
      ok, track' := SendFile(e, remote, c.(isDir := false), nodes, track);
    case MoveOp =>
      ok, track' := SendMove(e, remote, c, nodes, track);
      if ok { MovedUnnoted(e.hash, e.disk, track, track', remote.srv, e.index, remote.copies); }
    case DeleteOp =>
      ok, track' := SendDelete(e, remote, c, nodes, track);
      if ok { MovedUnnoted(e.hash, e.disk, track, track', remote.srv, e.index, remote.copies); }
  }

  lemma MovedUnnoted(hash: Bytes -> string, disk: Tree, track: Option<Track>, track': Option<Track>, s: Feed.Server,
                     index: Index, copies: seq<Server.KeptCopy>)
    requires MovesOn(hash, disk, track, track', s, index)
    requires track.Some? && track'.Some? ==> track'.value.conflicts == track.value.conflicts
    ensures Noted(track, track', copies, copies)
  {
    hide OnTrack;
  }

  lemma UndisputedIs(hash: Bytes -> string, disk: Tree, track: Option<Track>, s: Feed.Server, index: Index,
                     c: LocalChange, nodes: map<Path, Known>)
    requires Tracks(hash, disk, track, s, index) && TracksNext(track, c, nodes) && Undisputed(track)
    ensures track.Some? && track.value.conflicts == map[] && track.value.copies == map[]
    ensures c.op != MoveOp ==> NextIsFree(track)
  {
    WayIs(hash, disk, track.value, s, index);
    OnlyMovesHaveWays(track, c, nodes);
  }

  lemma NothingNoted(track: Option<Track>, track': Option<Track>, copies: seq<Server.KeptCopy>)
    requires track.Some? ==> track'.Some? && track'.value.conflicts == track.value.conflicts
    ensures Noted(track, track', copies, copies)
  {
  }

  lemma OnlyMovesHaveWays(track: Option<Track>, c: LocalChange, nodes: map<Path, Known>)
    requires track.Some? && TracksNext(track, c, nodes)
    ensures c.op != MoveOp ==> NextIsFree(track)
  {
  }

  lemma UpdateIsFile(hash: Bytes -> string, disk: Tree, track: Option<Track>, s: Feed.Server, index: Index,
                     c: LocalChange, nodes: map<Path, Known>)
    requires Tracks(hash, disk, track, s, index) && TracksNext(track, c, nodes) && c.op == UpdateOp
    ensures TracksNext(track, c.(isDir := false), nodes)
  {
    if track.Some? {
      var t := track.value;
      UpdateFacts(hash, t.st, disk, t.known, t.cs, t.k);
      assert c.(isDir := false) == c;
    }
  }

  /** A push stops at the first move whose way is not free, with everything before it sent: the
      server has the local tree on the paths dealt with and its own on the others. */
  ghost predicate StopsAt(hash: Bytes -> string, st: Start, cs: seq<LocalChange>, told: seq<seq<Change>>,
                          s: Feed.Server, log: seq<Change>, log': seq<Change>)
  {
    && |told| < |cs| && !WayIsFree(st, cs, |told|) && FreeUpTo(st, cs, |told|)
    && s.tree == Mix(st.server.tree, st.local, Touched(cs, |told|))
    && log' == log + Flat(told) && Chronicled(hash, st, s, map[], cs, told)
  }

  lemma SmoothIs(start: Option<Start>, track: Option<Track>, cs: seq<LocalChange>, i: nat)
    requires i < |cs| && start.Some? && track.Some? && UpToDate(start.value)
    requires track.value.st == start.value && track.value.cs == cs && track.value.k == i
    requires Smooth(start, cs, i, track.value.conflicts)
    ensures Undisputed(track) && FreeUpTo(start.value, cs, i)
  {
    hide WayIsFree, UpToDate;
  }

  lemma StopsHere(hash: Bytes -> string, disk: Tree, t: Track, s: Feed.Server, index: Index, log: seq<Change>,
                  log': seq<Change>)
    requires OnTrack(hash, disk, t, s, index) && t.k < |t.cs| && Undisputed(Some(t)) && !NextIsFree(Some(t))
    requires FreeUpTo(t.st, t.cs, t.k) && log' == log + Flat(t.told)
    ensures StopsAt(hash, t.st, t.cs, t.told, s, log, log')
  {
    hide Setting, Waiting, SameNodes, Fits, Delivered, Sent, CopiesMatch, ServerOk, WayIsFree, Chronicled, Entered,
         Mix, Touched, UpToDate;
    NoCopies(t.st, t.copies);
    DoneIsTouched(t.cs, t.k, t.done);
  }

  /** The state of the push before its i-th change. */
  ghost predicate Sending(hash: Bytes -> string, disk: Tree, start: Option<Start>, cs: seq<LocalChange>,
                          nodes: map<Path, Known>, i: nat, track: Option<Track>, s: Feed.Server, index: Index,
                          conflicts: map<Path, Path>, log: seq<Change>, log': seq<Change>)
    requires i <= |cs|
  {
    && ServerOk(s) && (start.Some? <==> track.Some?) && Smooth(start, cs, i, conflicts)
    && (track.Some? ==>
          && track.value.st == start.value && track.value.cs == cs && track.value.k == i
          && track.value.conflicts == conflicts && NodesOk(track.value, nodes)
          && OnTrack(hash, disk, track.value, s, index) && log' == log + Flat(track.value.told))
  }

  lemma SendingNext(hash: Bytes -> string, disk: Tree, start: Option<Start>, cs: seq<LocalChange>,
                    nodes: map<Path, Known>, i: nat, track: Option<Track>, s: Feed.Server, index: Index,
                    conflicts: map<Path, Path>, log: seq<Change>, log': seq<Change>)
    requires i < |cs| && Sending(hash, disk, start, cs, nodes, i, track, s, index, conflicts, log, log')
    ensures ServerOk(s) && Tracks(hash, disk, track, s, index) && TracksNext(track, cs[i], nodes)
    ensures (start.Some? <==> track.Some?) && (track.Some? ==> track.value.conflicts == conflicts)
    ensures track.Some? && track.value.copies != map[] ==> conflicts != map[]
    ensures start.Some? && UpToDate(start.value) ==> Undisputed(track)
  {
    if track.Some? && track.value.copies != map[] { CopiesMeanConflicts(hash, disk, track.value, s, index); }
    hide OnTrack, UpToDate, WayIsFree;
    if start.Some? && UpToDate(start.value) { SmoothIs(start, track, cs, i); }
  }

  lemma SendingOn(hash: Bytes -> string, disk: Tree, start: Option<Start>, cs: seq<LocalChange>,
                  nodes: map<Path, Known>, i: nat, track: Option<Track>, track': Option<Track>, s: Feed.Server,
                  index: Index, s': Feed.Server, index': Index, conflicts: map<Path, Path>,
                  conflicts': map<Path, Path>, log: seq<Change>, mid: seq<Change>, log': seq<Change>)
    requires i < |cs| && Sending(hash, disk, start, cs, nodes, i, track, s, index, conflicts, log, mid)
    requires ServerOk(s') && MovesOn(hash, disk, track, track', s', index') && Logged(track, track', mid, log')
    requires Undisputed(track) ==> track'.value.conflicts == map[] && NextIsFree(track)
    requires track.Some? ==> conflicts' == track'.value.conflicts
    ensures Sending(hash, disk, start, cs, nodes, i + 1, if track.Some? then track' else track, s', index', conflicts',
                    log, log')
  {
    hide ServerOk, OnTrack, Undisputed, NextIsFree, Smooth, NodesOk;
    SmoothGoesOn(start, track, track', cs, i, conflicts');
    if track.Some? {
      NodesStayKnown(track.value, track'.value, nodes);
      FlatGrows(track.value.told, log'[|mid|..]);
    }
  }

  /** A push stopped here was disturbed, or the way was not free. */
  lemma SendingStops(hash: Bytes -> string, disk: Tree, start: Option<Start>, cs: seq<LocalChange>,
                     nodes: map<Path, Known>, i: nat, track: Option<Track>, s: Feed.Server, index: Index,
                     conflicts: map<Path, Path>, log: seq<Change>, log': seq<Change>)
    requires i < |cs| && Sending(hash, disk, start, cs, nodes, i, track, s, index, conflicts, log, log')
    requires !(Undisputed(track) && NextIsFree(track))
    ensures !(start.Some? && UpToDate(start.value) && AllWaysFree(start.value, cs))
    ensures start.Some? && UpToDate(start.value) ==>
              track.Some? && StopsAt(hash, start.value, cs, track.value.told, s, log, log')
  {
    hide OnTrack, Smooth, ServerOk, NodesOk, StopsAt, UpToDate, AllWaysFree, Undisputed, NextIsFree, FreeUpTo;
    SmoothStops(start, track, cs, i);
    if start.Some? && UpToDate(start.value) {
      SmoothIs(start, track, cs, i);
      StopsHere(hash, disk, track.value, s, index, log, log');
    }
  }

  /** The index is that of some moment between two changes, with those before it entered. */
  ghost predicate LeftAt(hash: Bytes -> string, disk: Tree, st: Start, cs: seq<LocalChange>, conflicts: map<Path, Path>,
                         told: seq<seq<Change>>, index: Index)
  {
    exists t: Track, s ::
      OnTrack(hash, disk, t, s, index) && t.st == st && t.cs == cs && t.conflicts == conflicts && t.told == told
  }

  lemma SendingLeft(hash: Bytes -> string, disk: Tree, start: Option<Start>, cs: seq<LocalChange>,
                    nodes: map<Path, Known>, i: nat, track: Option<Track>, s: Feed.Server, index: Index,
                    conflicts: map<Path, Path>, log: seq<Change>, log': seq<Change>)
    requires i < |cs| && Sending(hash, disk, start, cs, nodes, i, track, s, index, conflicts, log, log') && track.Some?
    ensures start.Some? && LeftAt(hash, disk, start.value, cs, conflicts, track.value.told, index)
  {
    hide OnTrack, Smooth, ServerOk, NodesOk;
  }

  lemma SendingEnds(hash: Bytes -> string, disk: Tree, start: Option<Start>, cs: seq<LocalChange>,
                    nodes: map<Path, Known>, track: Option<Track>, s: Feed.Server, index: Index,
                    conflicts: map<Path, Path>, log: seq<Change>, log': seq<Change>)
    requires Sending(hash, disk, start, cs, nodes, |cs|, track, s, index, conflicts, log, log')
    ensures ServerOk(s) && Smooth(start, cs, |cs|, conflicts)
    ensures start.Some? ==>
              && track.Some? && Finished(hash, start.value, s, index, conflicts)
              && WholeStory(hash, start.value, s, index, conflicts, cs, track.value.told, log, log')
  {
    hide OnTrack, Smooth, ServerOk, NodesOk, Finished, Chronicled, Entered, Accounted, Apart;
    if track.Some? { TrackEnds(hash, disk, track.value, s, index); }
  }

  lemma SendingStarts(hash: Bytes -> string, disk: Tree, start: Option<Start>, cs: seq<LocalChange>,
                      nodes: map<Path, Known>, first: Option<Track>, s: Feed.Server, index: Index, log: seq<Change>)
    requires ServerOk(s) && (start.Some? <==> first.Some?) && Tracks(hash, disk, first, s, index)
    requires first.Some? ==>
               && first.value.st == start.value && first.value.cs == cs && first.value.k == 0
               && NodesOk(first.value, nodes) && first.value.conflicts == map[] && first.value.told == []
    ensures Sending(hash, disk, start, cs, nodes, 0, first, s, index, map[], log, log)
  {
    hide OnTrack, ServerOk, NodesOk, Smooth;
    SmoothStarts(start, cs);
  }

  lemma MovedSame(hash: Bytes -> string, disk: Tree, track: Option<Track>, track': Option<Track>, s: Feed.Server,
                  index: Index)
    requires MovesOn(hash, disk, track, track', s, index)
    ensures track.Some? ==> track'.Some? && track'.value.st == track.value.st && track'.value.cs == track.value.cs
  {
    hide OnTrack;
  }

  /** The loop of PushLocal: the sorted changes, one after the other. */
  method SendAll(e: E.Engine, remote: Server.Remote, changes: seq<LocalChange>, nodes: map<Path, Known>,
                 ghost start: Option<Start>, ghost first: Option<Track>)
      returns (ok: bool, ghost conflicts: map<Path, Path>, ghost told: seq<seq<Change>>)
    requires SoundHash(e.hash) && ServerOk(remote.srv) && remote.hash == e.hash
    requires start.Some? <==> first.Some?
    requires first.Some? ==> first.value.st == start.value && first.value.cs == changes && first.value.k == 0
    requires first.Some? ==> NodesOk(first.value, nodes) && first.value.conflicts == map[] && first.value.told == []
    requires Tracks(e.hash, e.disk, first, remote.srv, e.index)
    modifies e`index, remote
    ensures ServerOk(remote.srv)
    ensures start.Some? && ok ==> Finished(e.hash, start.value, remote.srv, e.index, conflicts)
    ensures start.Some? && ok ==>
              WholeStory(e.hash, start.value, remote.srv, e.index, conflicts, changes, told, old(remote.log),
                         remote.log)
    ensures start.Some? && !ok ==> LeftAt(e.hash, e.disk, start.value, changes, conflicts, told, e.index)
    ensures AllKeep(first, old(remote.trace), remote.trace)
    ensures KeptNow(conflicts, old(remote.copies), remote.copies)
    ensures start.Some? && remote.refused != old(remote.refused) ==> remote.copies != old(remote.copies)
    ensures ok ==> Smooth(start, changes, |changes|, conflicts)
    ensures start.Some? && UpToDate(start.value) && e.calm && remote.calm && AllWaysFree(start.value, changes) ==> ok
    ensures start.Some? && UpToDate(start.value) && e.calm && remote.calm && !ok ==>
              StopsAt(e.hash, start.value, changes, told, remote.srv, old(remote.log), remote.log)
  {
    hide UpToDate, AllWaysFree, NextIsFree, Undisputed, Smooth, ServerOk, OnTrack, Keeps, SoundHash, Finished, Sending,
         NodesOk, WholeStory, Server.ConflictsIn, Noted, KeptNow, StopsAt, AllKeep, MovesOn, Tracks, TracksNext, Logged,
         LeftAt;
    conflicts, told := map[], [];
    ghost var track := first;
    NoRequest(track, remote.trace);
    SendingStarts(e.hash, e.disk, start, changes, nodes, first, remote.srv, e.index, remote.log);
    NoneKept(remote.copies);
    var i: nat := 0;
    while i < |changes|
      invariant i <= |changes|
      invariant Sending(e.hash, e.disk, start, changes, nodes, i, track, remote.srv, e.index, conflicts,
                        old(remote.log),
                        remote.log)
      invariant first.Some? ==> track.Some? && track.value.st == first.value.st && track.value.cs == first.value.cs
      invariant AllKeep(first, old(remote.trace), remote.trace)
      invariant KeptNow(conflicts, old(remote.copies), remote.copies)
      invariant start.Some? ==> remote.refused == old(remote.refused)
    {
      ghost var s, index, before, log, copies := remote.srv, e.index, remote.trace, remote.log, remote.copies;
      SendingNext(e.hash, e.disk, start, changes, nodes, i, track, s, index, conflicts, old(remote.log), log);
      ghost var track';
      ok, track' := Send(e, remote, changes[i], nodes, track);
      MoreRequests(first, track, old(remote.trace), before, remote.trace);
      if !ok {
        KeptSome(conflicts, old(remote.copies), remote.copies);
        if e.calm && remote.calm {
          SendingStops(e.hash, e.disk, start, changes, nodes, i, track, s, index, conflicts, old(remote.log), log);
        }
        if track.Some? {
          told := track.value.told;
          SendingLeft(e.hash, e.disk, start, changes, nodes, i, track, s, index, conflicts, old(remote.log), log);
        }
        return;
      }
      KeptOn(track, track', conflicts, old(remote.copies), copies, remote.copies);
      ghost var next := Server.ConflictsIn(remote.copies[|old(remote.copies)|..]);
      SendingOn(e.hash, e.disk, start, changes, nodes, i, track, track', s, index, remote.srv, e.index, conflicts, next,
                old(remote.log), log, remote.log);
      MovedSame(e.hash, e.disk, track, track', remote.srv, e.index);
      conflicts := next;
      if track.Some? { track := track'; }
      i := i + 1;
    }
    ok := true;
    SendingEnds(e.hash, e.disk, start, changes, nodes, track, remote.srv, e.index, conflicts, old(remote.log),
                remote.log);
    if track.Some? { told := track.value.told; }
  }

  /** The feed has gained exactly the entries of the plan's changes, one change after the other,
      every node that is not as before is in them, and the index has the rows of all of them. */
  ghost predicate WholeStory(hash: Bytes -> string, st: Start, s: Feed.Server, index: Index, conflicts: map<Path, Path>,
                             cs: seq<LocalChange>, told: seq<seq<Change>>, log: seq<Change>, log': seq<Change>)
  {
    && |told| == |cs| && Chronicled(hash, st, s, conflicts, cs, told) && log' == log + Flat(told) && Apart(cs)
    && Accounted(hash, st, s, index, conflicts, cs) && Entered(hash, st, s, index, conflicts, cs, |cs|)
  }

  /** The j-th change is a move under which the server has counted the node's version up. */
  ghost predicate MoveCounted(st: Start, s: Feed.Server, cs: seq<LocalChange>, j: nat, p: Path)
    requires j < |cs|
  {
    && cs[j].op == MoveOp && cs[j].relPath == p && p in s.meta && cs[j].oldRelPath in st.server.meta
    && s.meta[p].version != st.server.meta[cs[j].oldRelPath].version
  }

  /** After a push without conflicts from an up-to-date start the index has the server's version of
      every node again, apart from moved files of which the server has counted the version up.
      Such a file, edited again before a pull gets through, goes up under an old version. */
  lemma OnlyMovedAreOutdated(hash: Bytes -> string, st: Start, s: Feed.Server, index: Index, cs: seq<LocalChange>,
                             told: seq<seq<Change>>, log: seq<Change>, log': seq<Change>, p: Path)
    requires StartOk(hash, st) && UpToDate(st) && WholeStory(hash, st, s, index, map[], cs, told, log, log')
    ensures Outdated(Start(s, st.local, index, {}), p) <==> exists j: nat :: j < |cs| && MoveCounted(st, s, cs, j, p)
  {
    hide StartOk, Chronicled, Apart, UpToDate, Outdated;
    if p in s.meta && (AsBefore(st, s, index, p) || IsTarget(map[], cs, 0, p)) {
      OneIsOutdated(hash, st, s, index, cs, p);
    }
    if j: nat :| j < |cs| && MoveCounted(st, s, cs, j, p) {
      assert EnteredAt(hash, st, s, index, cs[j]);
      MovedIsOutdated(hash, st, s, index, cs, j, p);
    }
    if p !in s.meta { NoNode(Start(s, st.local, index, {}), p); }
  }

  lemma NoNode(st: Start, p: Path)
    requires p !in st.server.meta
    ensures !Outdated(st, p)
  {
  }

  lemma MovedIsOutdated(hash: Bytes -> string, st: Start, s: Feed.Server, index: Index, cs: seq<LocalChange>, j: nat,
                        p: Path)
    requires UpToDate(st) && j < |cs| && MoveCounted(st, s, cs, j, p) && EnteredAt(hash, st, s, index, cs[j])
    ensures Outdated(Start(s, st.local, index, {}), p)
  {
    assert !Outdated(st, cs[j].oldRelPath);
  }

  lemma OneIsOutdated(hash: Bytes -> string, st: Start, s: Feed.Server, index: Index, cs: seq<LocalChange>, p: Path)
    requires UpToDate(st) && Entered(hash, st, s, index, map[], cs, |cs|)
    requires p in s.meta && (AsBefore(st, s, index, p) || IsTarget(map[], cs, 0, p))
    ensures Outdated(Start(s, st.local, index, {}), p) ==> exists j: nat :: j < |cs| && MoveCounted(st, s, cs, j, p)
  {
    assert !Outdated(st, p);
    if !AsBefore(st, s, index, p) {
      var j: nat :| j < |cs| && cs[j].op != DeleteOp && Target(map[], cs[j]) == p;
      assert EnteredAt(hash, st, s, index, cs[j]);
      if cs[j].op == MoveOp { assert !Outdated(st, cs[j].oldRelPath); }
      assert cs[j].op == MoveOp && Outdated(Start(s, st.local, index, {}), p) ==> MoveCounted(st, s, cs, j, p);
    }
  }

  /** What is sent: the changes a scan of the folder reports, paired into moves unless the server
      cannot move, in their order. */
  ghost predicate Plans(hash: Bytes -> string, disk: Tree, index: Index, canMove: bool, plan: seq<LocalChange>) {
    exists report, known :: KeyedByPath(index, known) && Reports(report, hash, disk, known)
        && Sorts(report, canMove, plan)
  }

  ghost predicate Sorts(report: seq<LocalChange>, canMove: bool, plan: seq<LocalChange>) {
    var changes := if canMove then Paired(report) else report;
    Ordered(plan) && multiset(plan) == multiset(changes) && SameAlike(plan, changes)
  }

  /** PushLocal. Followed from a state in which the index fits the server apart from files
      somebody else has changed since (`stale`):
      - `plan` is what a scan of the folder comes to, unless the push did nothing at all;
      - a push without errors ends with server and index as module PushRun's Finished says;
      - the feed has then gained the entries module Chronicle describes, change by change, and the
        index the rows of all nodes sent, under the versions the server answered;
      - a push that fails leaves the index as it was after one of the changes;
      - after every request, whether or not a later one fails, no file the local tree still
        has is missing from the server;
      - the conflicts are the copies the server has stored, and unless it has stored one it
        refuses no create, update or delete;
      - under an up-to-date index there are no conflicts, and a push that nothing disturbs gets
        through if and only if every file that changes folder and name finds the path it goes
        through free; otherwise it stops at the first one that does not, with everything before
        it sent. */
  method PushLocal(e: E.Engine, remote: Server.Remote, canMove: bool, ghost start: Option<Start>)
      returns (ok: bool, ghost plan: seq<LocalChange>, ghost conflicts: map<Path, Path>, ghost told: seq<seq<Change>>)
    requires SoundHash(e.hash) && ServerOk(remote.srv) && Closed(e.disk) && remote.hash == e.hash
    requires start.Some? ==> StartOk(e.hash, start.value)
    requires start.Some? ==> start.value.(stale := {}) == Start(remote.srv, Visible(e.disk), e.index, {})
    modifies e`index, remote
    ensures ServerOk(remote.srv)
    ensures start.Some? && (ok || e.calm || remote.trace != old(remote.trace)) ==>
              Plans(e.hash, e.disk, old(e.index), canMove, plan)
    ensures start.Some? && ok ==> Finished(e.hash, start.value, remote.srv, e.index, conflicts)
    ensures start.Some? && ok ==>
              WholeStory(e.hash, start.value, remote.srv, e.index, conflicts, plan, told, old(remote.log), remote.log)
    ensures start.Some? && !ok ==>
              e.index == old(e.index) || LeftAt(e.hash, e.disk, start.value, plan, conflicts, told, e.index)
    ensures old(remote.trace) <= remote.trace
    ensures start.Some? ==>
              forall i :: |old(remote.trace)| <= i < |remote.trace| ==> Keeps(start.value, remote.trace[i], plan)
    ensures KeptNow(conflicts, old(remote.copies), remote.copies)
    ensures start.Some? && remote.refused != old(remote.refused) ==> remote.copies != old(remote.copies)
    ensures start.Some? && UpToDate(start.value) && ok ==> conflicts == map[] && AllWaysFree(start.value, plan)
    ensures start.Some? && UpToDate(start.value) && e.calm && remote.calm && AllWaysFree(start.value, plan) ==> ok
    ensures start.Some? && UpToDate(start.value) && e.calm && remote.calm && !ok ==>
              StopsAt(e.hash, start.value, plan, told, remote.srv, old(remote.log), remote.log)
  {
    hide UpToDate, AllWaysFree, NextIsFree, Undisputed, Smooth, ServerOk, OnTrack, Keeps, SoundHash, StartOk,
         Visible, Closed, Finished, NodesOk, Reports, Ordered, KeyedByPath, WholeStory, Sorts, SameAlike, StopsAt,
         LeftAt;
    plan, conflicts, told := [], map[], [];
    if start.Some? { StartIsUnique(e.hash, start.value); }
    var found;
    ghost var known;
    ok, found, known := DetectLocal(e.hash, e.disk, e.index, e.calm);
    if !ok { return; }
    var changes := found;
    if canMove { changes := PairLocalMoves(found); }
    ghost var unsorted := changes;
    changes := SortChanges(changes);
    plan := changes;
    assert Sorts(found, canMove, plan) by { SortedIs(found, canMove, unsorted, plan); }
    var nodes := KnownNodes(e.index);
    ghost var track: Option<Track> := None;
    if start.Some? {
      track := Some(Track(start.value, known, changes, 0, {}, map[], map[], []));
      TrackStarts(e.hash, start.value, e.disk, known, found, changes);
      NodesAreKnown(e.hash, start.value, known, changes, nodes);
    }
    ok, conflicts, told := SendAll(e, remote, changes, nodes, start, track);
    if ok { SmoothEnds(start, changes, conflicts); }
  }

  lemma SortedIs(report: seq<LocalChange>, canMove: bool, changes: seq<LocalChange>, plan: seq<LocalChange>)
    requires changes == if canMove then Paired(report) else report
    requires Ordered(plan) && multiset(plan) == multiset(changes) && SameAlike(plan, changes)
    ensures Sorts(report, canMove, plan)
  {
  }
}
