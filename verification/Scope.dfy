/** ResetForScope, sweepOrphans and SyncOnce: rebuilding the mirror when the server's sync
    scope has changed, and the order of a pass. */
module Scope {
  import opened FileSystem
  import opened SyncTypes
  import opened Feed
  import opened Replay
  import opened LooseReplay
  import opened PushState
  import opened PushRun
  import opened Foreign
  import opened CatchUp
  import opened SyncPass
  import L = LocalChanges
  import P = PushLocal
  import R = Remote
  import E = Engine

  /** An indexed path, a folder above one, or the root. */
  ghost predicate Kept(index: Index, p: Path) {
    p == [] || exists id :: id in index && Within(p, index[id].path)
  }

  function PathLength(p: Path): nat {
    if p == [] then 0 else |p[0]| + 1 + PathLength(p[1..])
  }

  lemma LongestPath(x: set<Path>) returns (q: Path)
    requires x != {}
    ensures q in x && forall p :: p in x ==> PathLength(p) <= PathLength(q)
    decreases |x|
  {
    q :| q in x;
    if x != {q} {
      var r := LongestPath(x - {q});
      if PathLength(r) > PathLength(q) { q := r; }
    }
  }

  /** The keep set of sweepOrphans. */
  method KeepSet(index: Index) returns (keep: set<Path>)
    ensures forall p {:trigger p in keep} :: p in keep <==> Kept(index, p)
  {
    keep := {[]};
    var rest := index.Keys;
    while rest != {}
      invariant rest <= index.Keys && [] in keep
      invariant forall p {:trigger p in keep} :: p in keep ==> Kept(index, p)
      invariant forall id, p {:trigger Within(p, index[id].path)} ::
                  id in index && id !in rest && Within(p, index[id].path) ==> p in keep
      decreases |rest|
    {
      var id :| id in rest;
      rest := rest - {id};
      var p := index[id].path;
      while p != []
        invariant Within(p, index[id].path) && [] in keep
        invariant forall q {:trigger q in keep} :: q in keep ==> Kept(index, q)
        invariant forall q {:trigger Within(q, index[id].path)} :: Within(q, index[id].path) && |q| > |p| ==> q in keep
        invariant forall i, q {:trigger Within(q, index[i].path)} ::
                    i in index && i !in rest && i != id && Within(q, index[i].path) ==> q in keep
        decreases |p|
      {
        keep := keep + {p};
        WithinParent(Parent(p), p);
        WithinTransitive(Parent(p), p, index[id].path);
        p := Parent(p);
      }
    }
  }

  predicate TmpNamed(p: Path) {
    p != [] && IsTmp(Base(p))
  }

  /** The walk of sweepOrphans, in whatever order. */
  method Orphans(disk: Tree, keep: set<Path>) returns (orphans: set<Path>)
    ensures forall p {:trigger p in orphans} :: p in orphans <==> p in disk && p != [] && p !in keep && !TmpNamed(p)
  {
    orphans := {};
    var rest := disk.Keys;
    while rest != {}
      invariant rest <= disk.Keys
      invariant forall p {:trigger p in orphans} ::
                  p in orphans <==> p in disk && p !in rest && p != [] && p !in keep && !TmpNamed(p)
      decreases |rest|
    {
      var p :| p in rest;
      rest := rest - {p};
      if p != [] && !IsTmp(Base(p)) && p !in keep { orphans := orphans + {p}; }
    }
  }

  /** sweepOrphans. Nothing is added or changed, and no indexed path and no folder above one
      is removed, even when a removal fails half-way; after a complete sweep nothing else is
      left except entries with a temporary name. */
  method SweepOrphans(e: E.Engine) returns (ok: bool)
    requires Closed(e.disk)
    modifies e`disk
    ensures Closed(e.disk)
    ensures forall p {:trigger p in e.disk} :: p in e.disk ==> p in old(e.disk) && e.disk[p] == old(e.disk)[p]
    ensures forall p {:trigger Kept(e.index, p)} :: p in old(e.disk) && Kept(e.index, p) ==> p in e.disk
    ensures ok ==> forall p {:trigger p in e.disk} :: p in e.disk ==> Kept(e.index, p) || TmpNamed(p)
    ensures e.calm ==> ok
  {
    hide Kept, Closed, TmpNamed;
    var keep := KeepSet(e.index);
    var orphans := Orphans(e.disk, keep);
    RootIsKept(e.index);
    var todo := orphans;
    while todo != {}
      invariant todo <= orphans && Closed(e.disk)
      invariant forall p {:trigger p in e.disk} :: p in e.disk ==> p in old(e.disk) && e.disk[p] == old(e.disk)[p]
      invariant forall p {:trigger p in keep} {:trigger Kept(e.index, p)} :: p in old(e.disk) && p in keep ==>
                  p in e.disk
      invariant forall p {:trigger p in e.disk} :: p in e.disk && p in orphans ==> p in todo
      decreases |todo|
    {
      // Longest paths first.
      ghost var longest := LongestPath(todo);
      var p :| p in todo && forall q :: q in todo ==> PathLength(q) <= PathLength(p);
      KeptIsUpwardClosed(e.index, p);
      var failed := E.Stopped(e.calm);
      if failed {
        var spared: set<Path> := *;
        RemoveSomeKeepsClosed(e.disk, p, spared);
        e.disk := RemoveSome(e.disk, p, spared);
        return false;
      }
      RemoveKeepsClosed(e.disk, p);
      e.disk := RemoveAll(e.disk, p);
      todo := todo - {p};
    }
    ok := true;
  }

  lemma RootIsKept(index: Index)
    ensures Kept(index, [])
  {
  }

  lemma KeptIsUpwardClosed(index: Index, p: Path)
    requires !Kept(index, p)
    ensures p != [] && forall q {:trigger Kept(index, q)} :: Kept(index, q) ==> !Within(p, q)
  {
    forall q | Kept(index, q)
      ensures !Within(p, q)
    {
      if Within(p, q) && q != [] {
        var id :| id in index && Within(q, index[id].path);
        WithinTransitive(p, q, index[id].path);
      }
    }
  }

  // ---------- ResetForScope ----------

  const EMPTY_SERVER := Server(map[[] := Folder], map[])

  /** The feed, read from its beginning, is that of a history from the empty server. */
  ghost predicate FullFeed(hash: Bytes -> string, feed: seq<Change>, hist: seq<Op>) {
    HistoryOk(EMPTY_SERVER, hist) && Numbers(feed, Entries(hash, EMPTY_SERVER, hist))
  }

  ghost function AtEnd(hist: seq<Op>): Server {
    if HistoryOk(EMPTY_SERVER, hist) then Final(EMPTY_SERVER, hist) else EMPTY_SERVER
  }

  /** The folder holds the server's tree and, apart from entries with a temporary name, nothing
      else; the index holds exactly the server's nodes. */
  ghost predicate ExactMirror(hash: Bytes -> string, disk: Tree, index: Index, s: Server) {
    && ServerOk(s) && Covers(disk, s.tree) && Indexes(hash, index, s)
    && forall p {:trigger p in disk} :: p in disk ==> p in s.tree || TmpNamed(p)
  }

  lemma FreshStart(hash: Bytes -> string, disk: Tree, feed: seq<Change>, hist: seq<Op>)
    requires Closed(disk) && FullFeed(hash, feed, hist)
    ensures E.OnTheWay(hash, disk, map[], 0, feed, Over(EMPTY_SERVER, hist, map[]), 0)
  {
    CoversStart(disk, EMPTY_SERVER, hist);
    ScriptShape(hash, EMPTY_SERVER, hist, map[]);
  }

  lemma PulledAll(hash: Bytes -> string, disk: Tree, index: Index, cursor: int, feed: seq<Change>, hist: seq<Op>)
    requires SoundHash(hash) && FullFeed(hash, feed, hist)
    requires E.OnTheWay(hash, disk, index, cursor, feed, Over(EMPTY_SERVER, hist, map[]), |feed|)
    ensures ServerOk(AtEnd(hist)) && Covers(disk, AtEnd(hist).tree) && Indexes(hash, index, AtEnd(hist))
  {
    ScriptEnds(hash, EMPTY_SERVER, hist, map[]);
    CoversEnd(hash, disk, EMPTY_SERVER, hist);
  }

  lemma SweptIsExact(hash: Bytes -> string, before: Tree, disk: Tree, index: Index, s: Server)
    requires ServerOk(s) && Covers(before, s.tree) && Indexes(hash, index, s) && Closed(disk)
    requires forall p {:trigger p in disk} :: p in disk ==> p in before && disk[p] == before[p]
    requires forall p {:trigger Kept(index, p)} :: p in before && Kept(index, p) ==> p in disk
    requires forall p {:trigger p in disk} :: p in disk ==> Kept(index, p) || TmpNamed(p)
    ensures ExactMirror(hash, disk, index, s)
  {
    forall p | p in s.tree
      ensures p in disk && disk[p] == s.tree[p]
    {
      assert Kept(index, p) by {
        if p != [] { assert Within(p, index[s.meta[p].id].path); }
      }
    }
    forall p | p in disk && !TmpNamed(p)
      ensures p in s.tree
    {
      if p != [] {
        var id :| id in index && Within(p, index[id].path);
        AncestorsAreFolders(s.tree, p, index[id].path);
      }
    }
  }

  /** The full feed, followed from nothing. */
  ghost function FromNothing(hash: Bytes -> string, hist: seq<Op>): Mode
    requires HistoryOk(EMPTY_SERVER, hist)
  {
    Exact(PlanOf(hash, EMPTY_SERVER, hist, map[]))
  }

  lemma CleanStart(hash: Bytes -> string, disk: Tree, cursor: int, feed: seq<Change>, hist: seq<Op>)
    requires SoundHash(hash) && FullFeed(hash, feed, hist) && Mirrors(disk, EMPTY_SERVER.tree)
    requires cursor == 0 || AppliedUpTo(feed, 0, cursor)
    ensures E.OnTheWay(hash, disk, map[], cursor, feed, FromNothing(hash, hist), 0)
    ensures E.ReachedAt(disk, map[], FromNothing(hash, hist), 0)
  {
    HistoryLeads(hash, feed, EMPTY_SERVER, hist, map[]);
  }

  lemma PulledFromNothing(hash: Bytes -> string, disk: Tree, index: Index, cursor: int, feed: seq<Change>,
                          hist: seq<Op>)
    requires SoundHash(hash) && FullFeed(hash, feed, hist)
    requires E.OnTheWay(hash, disk, index, cursor, feed, FromNothing(hash, hist), |feed|)
    ensures ServerOk(AtEnd(hist)) && Covers(disk, AtEnd(hist).tree) && Indexes(hash, index, AtEnd(hist))
  {
    E.FollowingEnds(hash, disk, index, cursor, feed, EMPTY_SERVER, hist, map[]);
    MirrorCovers(disk, AtEnd(hist));
  }

  lemma MirrorCovers(disk: Tree, s: Server)
    requires ServerOk(s) && Mirrors(disk, s.tree)
    ensures Covers(disk, s.tree)
  {
  }

  /** ResetForScope. The new epoch is stored only when the folder has become an exact mirror of
      what the server has in scope; a reset that fails anywhere leaves the old epoch. Into an
      empty folder, a reset that nothing disturbs succeeds if and only if every entry of the
      feed that brings content brings what its node holds now (Engine.CurrentIffNotSuperseded
      says which entries these are). */
  method ResetForScope(e: E.Engine, src: E.Source, epoch: int, ghost hist: seq<Op>) returns (ok: bool)
    requires SoundHash(e.hash) && Closed(e.disk) && FullFeed(e.hash, src.feed, hist)
    modifies e, src`downloads
    ensures Closed(e.disk)
    ensures ok ==> e.epoch == epoch && ExactMirror(e.hash, e.disk, e.index, AtEnd(hist))
    ensures ok ==> AppliedUpTo(src.feed, |src.feed|, e.cursor)
    ensures !ok ==> e.epoch == old(e.epoch)
    ensures e.calm && src.calm && Mirrors(old(e.disk), EMPTY_SERVER.tree) ==>
              (ok <==> E.AllCurrent(e.hash, src, FromNothing(e.hash, hist), 0, |src.feed|))
  {
    ghost var clean := Mirrors(e.disk, EMPTY_SERVER.tree);
    hide Closed, FullFeed, Covers, Indexes, ServerOk, SoundHash, ExactMirror, Kept, TmpNamed, E.Following, E.OnTheWay,
         Mirrors, FromNothing, E.AllCurrent, E.ReachedAt, E.StuckAt, E.OnlyContent, AppliedUpTo;
    var stop := E.Stopped(e.calm);
    if stop { return false; }
    e.index, e.cursor := map[], 0;
    stop := E.Stopped(e.calm);
    if stop { return false; }
    ghost var mode := if clean then FromNothing(e.hash, hist) else Over(EMPTY_SERVER, hist, map[]);
    if clean {
      CleanStart(e.hash, e.disk, 0, src.feed, hist);
    } else {
      FreshStart(e.hash, e.disk, src.feed, hist);
    }
    ok := e.PullOnce(src, mode, 0);
    if !ok { return; }
    E.WhereItIs(e.hash, e.disk, e.index, e.cursor, src.feed, mode, |src.feed|);
    if clean {
      PulledFromNothing(e.hash, e.disk, e.index, e.cursor, src.feed, hist);
    } else {
      PulledAll(e.hash, e.disk, e.index, e.cursor, src.feed, hist);
    }
    ghost var pulled := e.disk;
    ok := SweepOrphans(e);
    if !ok { return; }
    SweptIsExact(e.hash, pulled, e.disk, e.index, AtEnd(hist));
    stop := E.Stopped(e.calm);
    if stop { return false; }
    e.epoch := epoch;
  }

  // ---------- SyncOnce ----------

  /** What a pass did that another scope must not see. */
  datatype Event =
    | PushBegun(stored: int, announced: int)
    | EpochStored(epoch: int, disk: Tree, index: Index, server: Server)

  /** No push into another scope, and no epoch stored over a folder that is not its mirror. */
  ghost predicate EventOk(hash: Bytes -> string, e: Event) {
    match e
    case PushBegun(stored, announced) => stored == announced
    case EpochStored(_, disk, index, server) => ExactMirror(hash, disk, index, server)
  }

  ghost predicate PlainFolders(disk: Tree) {
    forall p {:trigger disk[p]} :: p in disk && Ignored(p) ==> disk[p] != Folder
  }

  lemma VisibleIsMirrored(disk: Tree)
    requires Closed(disk) && PlainFolders(disk)
    ensures Mirrors(disk, L.Visible(disk))
  {
  }

  /** No path is a file in one tree and a folder in the other. */
  ghost predicate KindsKept(t: Tree, local: Tree) {
    forall p {:trigger local[p]} :: p in t && p in local ==> (t[p] == Folder <==> local[p] == Folder)
  }

  /** These files are still in the folder, and the server's version of them is another one. */
  ghost predicate NewVersions(s0: Server, s: Server, local: Tree, paths: set<Path>) {
    forall p {:trigger p in paths} :: p in paths ==>
      p in local && (p in s0.meta && p in s.meta ==> s.meta[p].version != s0.meta[p].version)
  }

  /** A client that was in step, whose folder has since been edited in any way short of
      turning a file into a folder or back, and whose server has since had any updates of files
      that are still in the folder, is in a state a pass is followed from. */
  lemma EditedIsStart(hash: Bytes -> string, disk0: Tree, index: Index, s0: Server, ups: seq<Op>, disk: Tree)
    requires InStep(hash, disk0, index, s0) && HistoryOk(s0, ups) && OnlyUpdates(ups)
    requires NewVersions(s0, Final(s0, ups), L.Visible(disk), WrittenPaths(ups))
    requires Closed(disk) && PlainFolders(disk) && KindsKept(s0.tree, L.Visible(disk))
    ensures FromUpdates(hash, s0, ups, Start(Final(s0, ups), L.Visible(disk), index, WrittenPaths(ups)))
  {
    hide ServerOk, Closed, Mirrors, Indexes, Fits, PlainFolders, HistoryOk, Final, OnlyUpdates, WrittenPaths, Written,
         OldNodes, KindsKept, L.Visible, Outdated;
    var s, stale := Final(s0, ups), WrittenPaths(ups);
    VisibleIsClosed(disk);
    UpdatesKeepNodes(s0, ups);
    forall p | p !in stale && p in s0.tree
      ensures s.tree[p] == s0.tree[p]
    {
      FetchedElsewhere(s0.tree, s0.tree, ups, p);
    }
    IndexStillFits(hash, index, s0, s, stale);
    KindsStay(s0, s, stale, L.Visible(disk));
    forall p | p in stale
      ensures L.Visible(disk)[p] != Folder && Outdated(Start(s, L.Visible(disk), index, stale), p)
    {
      WrittenIsOutdated(hash, index, s0, s, L.Visible(disk), stale, p);
    }
  }

  lemma WrittenIsOutdated(hash: Bytes -> string, index: Index, s0: Server, s: Server, local: Tree, stale: set<Path>,
                          p: Path)
    requires ServerOk(s0) && Indexes(hash, index, s0) && OldNodes(s0, s, stale) && p in stale
    requires s.meta.Keys == s0.meta.Keys
    requires NewVersions(s0, s, local, stale) && KindsKept(s.tree, local)
    ensures p in local && local[p] != Folder && Outdated(Start(s, local, index, stale), p)
  {
    SameNodeThen(s0, s, stale, p);
    RowOfNode(hash, index, s0, p);
    assert s0.tree[p] != Folder;
  }

  lemma KindsStay(s0: Server, s: Server, stale: set<Path>, local: Tree)
    requires OldNodes(s0, s, stale) && s.tree.Keys == s0.tree.Keys && KindsKept(s0.tree, local)
    ensures KindsKept(s.tree, local)
    ensures forall p {:trigger local[p]} :: p in s.tree && p in local ==> (s.tree[p] == Folder <==> local[p] == Folder)
  {
    forall p | p in s.tree && p in local
      ensures s.tree[p] == Folder <==> local[p] == Folder
    {
      var _ := s0.tree[p];
    }
  }

  /** A client in step has the server's version of every file. */
  lemma InStepIsUpToDate(hash: Bytes -> string, disk: Tree, index: Index, s: Server, local: Tree)
    requires InStep(hash, disk, index, s)
    ensures P.UpToDate(Start(s, local, index, {}))
  {
    forall p
      ensures !Outdated(Start(s, local, index, {}), p)
    {
      if p in s.meta { RowOfNode(hash, index, s, p); }
    }
  }

  lemma VisibleIsClosed(disk: Tree)
    requires Closed(disk) && PlainFolders(disk)
    ensures Closed(L.Visible(disk)) && NoneIgnored(L.Visible(disk))
  {
    forall p {:trigger Parent(p)} | p in L.Visible(disk) && p != []
      ensures Parent(p) in L.Visible(disk) && L.Visible(disk)[Parent(p)] == Folder
    {
      assert disk[Parent(p)] == Folder;
    }
  }

  lemma RowOfNode(hash: Bytes -> string, index: Index, s: Server, p: Path)
    requires ServerOk(s) && Indexes(hash, index, s) && p in s.meta
    ensures s.meta[p].id in index && index[s.meta[p].id] == RowAt(hash, p, s.tree[p], s.meta[p])
  {
  }

  lemma IndexStillFits(hash: Bytes -> string, index: Index, s0: Server, s: Server, stale: set<Path>)
    requires ServerOk(s0) && Indexes(hash, index, s0) && ServerOk(s) && OldNodes(s0, s, stale)
    requires s.meta.Keys == s0.meta.Keys && s.tree.Keys == s0.tree.Keys
    requires forall p {:trigger s.tree[p]} :: p !in stale && p in s0.tree ==> s.tree[p] == s0.tree[p]
    ensures Fits(hash, index, s, {}, stale)
  {
    forall p | p in s.meta
      ensures s.meta[p].id == s0.meta[p].id && (s.tree[p] == Folder <==> s0.tree[p] == Folder)
    {
      var _ := s0.tree[p];
    }
  }

  class Syncer {
    const eng: E.Engine
    const client: R.Remote
    ghost var log: seq<Event>

    constructor (eng: E.Engine, client: R.Remote)
      ensures this.eng == eng && this.client == client && log == []
    {
      this.eng, this.client, log := eng, client, [];
    }

    /** SyncOnce. `epoch` is what the server announces, `src` the feed the pull will see.
        - Every event of the pass is in order, so over any sequence of passes, failed ones
          included, nothing was pushed under a differing epoch and no epoch stored early.
        - A pass that finds a new epoch sends the server no request that changes it. It returns ok
          only if the folder has become an exact mirror and the epoch is stored; into an empty
          folder, if nothing disturbs it, exactly if every entry is current.
        - Followed from a state whose index fits the server (see PushLocal), what is pushed is
          `plan`, the changes a scan of the folder comes to; no request loses a file the folder
          still has, and unless the server has stored a conflict copy it refuses nothing.
        - A pass that returns ok has pushed everything, and so has one that fails later, if the
          index was up to date, nothing disturbs the push, and the files that change folder and
          name find the path they go through free; if one does not, the pass fails there, with
          everything before it sent. If the feed tells of what others have written since
          the last pull and of the requests of this push, the pass ends as PassEnds says: the
          index is the server's, every conflict has both sides on the server, and the folder is
          the server's tree exactly when no move has mixed files up and everything others have
          written has arrived.
        - If the pull was given what the server's files hold, the folder has the server's bytes
          at the path of a conflict exactly when their hash is not the one last synchronised.
        - A pass under an up-to-date index that nothing disturbs at all returns ok, under the
          same proviso. */
    method SyncOnce(epoch: int, src: E.Source, ghost hist: seq<Op>, ghost start: Option<Start>, ghost s0: Server,
                    ghost ups: seq<Op>)
        returns (ok: bool, ghost plan: seq<L.LocalChange>, ghost pushed: Index, ghost conflicts: map<Path, Path>,
                 ghost told: seq<seq<Change>>)
      requires SoundHash(eng.hash) && Closed(eng.disk) && ServerOk(client.srv) && Rising(src.feed)
      requires client.hash == eng.hash
      requires epoch != eng.epoch ==> FullFeed(eng.hash, src.feed, hist)
      requires start.Some? ==>
                 && FromUpdates(eng.hash, s0, ups, start.value) && PlainFolders(eng.disk)
                 && AppliedUpTo(src.feed, 0, eng.cursor)
      requires start.Some? ==> start.value.(stale := {}) == Start(client.srv, L.Visible(eng.disk), eng.index, {})
      modifies this, eng, client, src`downloads
      ensures Closed(eng.disk) && ServerOk(client.srv)
      ensures old(log) <= log && forall i :: |old(log)| <= i < |log| ==> EventOk(eng.hash, log[i])
      ensures epoch != old(eng.epoch) ==> client.srv == old(client.srv) && client.trace == old(client.trace)
      ensures epoch != old(eng.epoch) ==>
                if ok then
                  && eng.epoch == epoch && ExactMirror(eng.hash, eng.disk, eng.index, AtEnd(hist))
                  && log == old(log) + [EpochStored(epoch, eng.disk, eng.index, AtEnd(hist))]
                else eng.epoch == old(eng.epoch) && log == old(log)
      ensures (epoch != old(eng.epoch) && eng.calm && src.calm && Mirrors(old(eng.disk), EMPTY_SERVER.tree)) ==>
                (ok <==> E.AllCurrent(eng.hash, src, FromNothing(eng.hash, hist), 0, |src.feed|))
      ensures epoch == old(eng.epoch) ==> eng.epoch == epoch && (ok ==> log == old(log) + [PushBegun(epoch, epoch)])
      ensures ok ==> AppliedUpTo(src.feed, |src.feed|, eng.cursor)
      ensures old(client.trace) <= client.trace && P.KeptNow(conflicts, old(client.copies), client.copies)
      ensures (epoch == old(eng.epoch) && start.Some? && (ok || eng.calm || client.trace != old(client.trace))) ==>
                P.Plans(eng.hash, old(eng.disk), old(eng.index), true, plan)
      ensures epoch == old(eng.epoch) && start.Some? ==>
                forall i :: |old(client.trace)| <= i < |client.trace| ==> Keeps(start.value, client.trace[i], plan)
      ensures (epoch == old(eng.epoch) && start.Some? && client.refused != old(client.refused)) ==>
                client.copies != old(client.copies)
      ensures (epoch == old(eng.epoch) && start.Some?
               && (ok || (P.UpToDate(start.value) && eng.calm && client.calm && P.AllWaysFree(start.value, plan)))) ==>
                && Finished(eng.hash, start.value, client.srv, pushed, conflicts)
                && P.WholeStory(eng.hash, start.value, client.srv, pushed, conflicts, plan, told, old(client.log),
                                client.log)
      ensures (epoch == old(eng.epoch) && start.Some? && P.UpToDate(start.value) && eng.calm && client.calm
               && !P.AllWaysFree(start.value, plan)) ==>
                !ok && P.StopsAt(eng.hash, start.value, plan, told, client.srv, old(client.log), client.log)
      ensures (ok && epoch == old(eng.epoch) && start.Some?
               && FeedTells(eng.hash, s0, ups, old(client.log), client.log, src.feed)) ==>
                PassEnds(eng.hash, s0, ups, start.value, plan, conflicts, client.srv, eng.disk, eng.index)
      ensures (ok && epoch == old(eng.epoch) && start.Some?
               && FeedTells(eng.hash, s0, ups, old(client.log), client.log, src.feed)
               && src.calm && E.HandsOut(src, client.srv)) ==>
                ConflictsEnd(eng.hash, start.value, conflicts, client.srv, eng.disk)
      ensures (epoch == old(eng.epoch) && start.Some? && P.UpToDate(start.value) && eng.calm && client.calm && src.calm
               && P.AllWaysFree(start.value, plan)
               && FeedTells(eng.hash, s0, ups, old(client.log), client.log, src.feed)
               && E.HandsOut(src, client.srv)) ==>
                ok && conflicts == map[]
                    && (InStep(eng.hash, eng.disk, eng.index, client.srv) <==> Straight(start.value.local, plan))
    {
      hide P.UpToDate, P.AllWaysFree, E.HandsOut, Closed, FullFeed, ServerOk, SoundHash, ExactMirror, StartOk,
           PlainFolders, Rising, Finished, InStep, PassEnds, L.Visible, E.Following, E.OnTheWay, AppliedUpTo,
           PushRun.Keeps, Straight, Arrived, ConflictsEnd, FeedTells, FromUpdates, OnlyUpdates, P.WholeStory,
           PullMode, E.ReachedAt, E.AllCurrent, E.StuckAt, E.OnlyContent, Pushed, P.Plans,
           P.StopsAt, Mirrors, FromNothing;
      plan, pushed, conflicts, told := [], map[], map[], [];
      var down := E.Stopped(eng.calm);
      if down { return false, plan, pushed, conflicts, told; }
      if epoch != eng.epoch {
        ok := ResetForScope(eng, src, epoch, hist);
        if ok { log := log + [EpochStored(epoch, eng.disk, eng.index, AtEnd(hist))]; }
        return;
      }
      log := log + [PushBegun(eng.epoch, epoch)];
      if start.Some? { FromUpdatesIs(eng.hash, s0, ups, start.value); }
      ok, plan, conflicts, told := P.PushLocal(eng, client, true, start);
      pushed := eng.index;
      if !ok { return; }
      ghost var mode, from := Free, 0;
      if start.Some? && FeedTells(eng.hash, s0, ups, old(client.log), client.log, src.feed) {
        mode := PullMode(eng.hash, s0, ups, start.value, pushed, told);
        PassStarts(eng.hash, s0, ups, start.value, client.srv, pushed, conflicts, plan, told, old(client.log),
                   client.log,
                   eng.disk, eng.cursor, src);
      } else {
        from := E.SomewhereInFeed(src.feed, eng.cursor, |src.feed|);
        FreeStart(eng.hash, eng.disk, eng.index, eng.cursor, src.feed, from);
      }
      ok := eng.PullOnce(src, mode, from);
      if ok { E.WhereItIs(eng.hash, eng.disk, eng.index, eng.cursor, src.feed, mode, |src.feed|); }
      if ok && mode.Exact? {
        PassDone(eng.hash, s0, ups, start.value, client.srv, pushed, conflicts, plan, told, old(client.log), client.log,
                 eng.disk, eng.index, eng.cursor, src);
      }
    }
  }

  /** The feed has, from the client's cursor on, what others have written and then the requests of
      the push, in order. */
  ghost predicate FeedTells(hash: Bytes -> string, s0: Server, ups: seq<Op>, log: seq<Change>, log': seq<Change>,
                            feed: seq<Change>) {
    HistoryOk(s0, ups) && log <= log' && Numbers(feed, Entries(hash, s0, ups) + log'[|log|..])
  }

  /** At the path of a conflict the folder has the server's bytes exactly if their hash is not the
      one the index knew. */
  ghost predicate ConflictsEnd(hash: Bytes -> string, st: Start, conflicts: map<Path, Path>, s: Server, disk: Tree) {
    forall p {:trigger p in conflicts} :: p in conflicts && p in st.server.meta ==>
      && p in s.tree && s.tree[p].Regular? && p in disk && st.server.meta[p].id in st.rows
      && (disk[p] == s.tree[p] <==> st.rows[st.server.meta[p].id].hash != hash(s.tree[p].data))
  }

  lemma FromUpdatesIs(hash: Bytes -> string, s0: Server, ups: seq<Op>, st: Start)
    requires FromUpdates(hash, s0, ups, st)
    ensures StartOk(hash, st) && OnlyUpdates(ups) && HistoryOk(s0, ups)
  {
  }

  lemma StoryIs(hash: Bytes -> string, s0: Server, ups: seq<Op>, st: Start, s: Server, index: Index,
                conflicts: map<Path, Path>, cs: seq<L.LocalChange>, told: seq<seq<Change>>, log: seq<Change>,
                log': seq<Change>, feed: seq<Change>)
    requires SoundHash(hash) && FromUpdates(hash, s0, ups, st) && Finished(hash, st, s, index, conflicts)
    requires P.WholeStory(hash, st, s, index, conflicts, cs, told, log, log')
    requires FeedTells(hash, s0, ups, log, log', feed)
    ensures Pushed(hash, st, s, index, conflicts, cs, told)
    ensures HistoryOk(s0, ups) && Numbers(feed, News(hash, s0, ups, told))
    ensures Chronicle.Chronicled(hash, st, s, conflicts, cs, told)
  {
    hide StartOk, Finished, SoundHash, Chronicle.Chronicled, HistoryOk, Numbers, Entries, OnlyUpdates;
    assert log'[|log|..] == Chronicle.Flat(told);
  }

  /** After the push the client follows the feed, and if nobody else has written anything every
      entry can be passed. */
  lemma PassStarts(hash: Bytes -> string, s0: Server, ups: seq<Op>, st: Start, s: Server, index: Index,
                   conflicts: map<Path, Path>, cs: seq<L.LocalChange>, told: seq<seq<Change>>, log: seq<Change>,
                   log': seq<Change>, disk: Tree, cursor: int, src: E.Source)
    requires SoundHash(hash) && FromUpdates(hash, s0, ups, st) && Finished(hash, st, s, index, conflicts)
    requires P.WholeStory(hash, st, s, index, conflicts, cs, told, log, log')
    requires FeedTells(hash, s0, ups, log, log', src.feed)
    requires Closed(disk) && PlainFolders(disk) && st.local == L.Visible(disk) && AppliedUpTo(src.feed, 0, cursor)
    ensures HistoryOk(s0, ups)
    ensures var mode := PullMode(hash, s0, ups, st, index, told);
            && mode.Exact? && E.OnTheWay(hash, disk, index, cursor, src.feed, mode, 0)
            && E.ReachedAt(disk, index, mode, 0)
            && (P.UpToDate(st) && E.HandsOut(src, s) ==> E.AllCurrent(hash, src, mode, 0, |src.feed|))
  {
    hide StartOk, Finished, SoundHash, Chronicle.Chronicled, HistoryOk, Numbers, PlainFolders, Closed, FromUpdates,
         Pushed, E.OnTheWay, E.ReachedAt, E.HandsOut, E.AllCurrent, P.UpToDate, P.WholeStory, FeedTells;
    StoryIs(hash, s0, ups, st, s, index, conflicts, cs, told, log, log', src.feed);
    VisibleIsMirrored(disk);
    PullStarts(hash, s0, ups, st, s, index, conflicts, cs, told, disk, cursor, src.feed);
    if P.UpToDate(st) && E.HandsOut(src, s) {
      UpToDateIsAlone(hash, s0, ups, st);
      NothingSuperseded(hash, src, s0, st, s, index, conflicts, cs, told);
    }
  }

  lemma UpToDateIsAlone(hash: Bytes -> string, s0: Server, ups: seq<Op>, st: Start)
    requires FromUpdates(hash, s0, ups, st) && P.UpToDate(st)
    ensures ups == [] && st.stale == {}
  {
    assert st.stale == {};
  }

  lemma PassDone(hash: Bytes -> string, s0: Server, ups: seq<Op>, st: Start, s: Server, pushed: Index,
                 conflicts: map<Path, Path>, cs: seq<L.LocalChange>, told: seq<seq<Change>>, log: seq<Change>,
                 log': seq<Change>, disk: Tree, index: Index, cursor: int, src: E.Source)
    requires SoundHash(hash) && FromUpdates(hash, s0, ups, st) && Finished(hash, st, s, pushed, conflicts)
    requires P.WholeStory(hash, st, s, pushed, conflicts, cs, told, log, log')
    requires FeedTells(hash, s0, ups, log, log', src.feed)
    requires HistoryOk(s0, ups)
    requires E.OnTheWay(hash, disk, index, cursor, src.feed, PullMode(hash, s0, ups, st, pushed, told), |src.feed|)
    ensures OnlyUpdates(ups) && PassEnds(hash, s0, ups, st, cs, conflicts, s, disk, index)
    ensures (E.HandsOut(src, s)
             && E.AllCurrent(hash, src, PullMode(hash, s0, ups, st, pushed, told), 0, |src.feed|)) ==>
              ConflictsEnd(hash, st, conflicts, s, disk)
    ensures P.UpToDate(st) ==> (InStep(hash, disk, index, s) <==> Straight(st.local, cs))
  {
    hide StartOk, Finished, SoundHash, Chronicle.Chronicled, HistoryOk, Numbers, FromUpdates, Pushed, OnlyUpdates,
         InStep, E.OnTheWay, E.HandsOut, E.AllCurrent, P.UpToDate, P.WholeStory, FeedTells, Straight, SurvivesAt,
         ServerOk, Indexes;
    FromUpdatesIs(hash, s0, ups, st);
    StoryIs(hash, s0, ups, st, s, pushed, conflicts, cs, told, log, log', src.feed);
    PullEnds(hash, s0, ups, st, s, pushed, conflicts, cs, told, disk, index, cursor, src.feed);
    if E.HandsOut(src, s) && E.AllCurrent(hash, src, PullMode(hash, s0, ups, st, pushed, told), 0, |src.feed|) {
      forall p | p in conflicts && p in st.server.meta
        ensures p in s.tree && s.tree[p].Regular? && p in disk && st.server.meta[p].id in st.rows
        ensures disk[p] == s.tree[p] <==> st.rows[st.server.meta[p].id].hash != hash(s.tree[p].data)
      {
        assert SurvivesAt(s0, ups, st, s, disk, conflicts, p);
        SurvivorIsThere(s0, ups, st, s, disk, conflicts, p);
        CalmConflictEnds(hash, src, s0, ups, st, s, pushed, conflicts, cs, told, disk, p);
      }
    }
    if P.UpToDate(st) { UpToDateIsAlone(hash, s0, ups, st); }
  }

  lemma SurvivorIsThere(s0: Server, ups: seq<Op>, st: Start, s: Server, disk: Tree, conflicts: map<Path, Path>, p: Path)
    requires p in conflicts && OnlyUpdates(ups) && SurvivesAt(s0, ups, st, s, disk, conflicts, p)
    ensures p in s.tree && p in disk
  {
  }

  lemma FreeStart(hash: Bytes -> string, disk: Tree, index: Index, cursor: int, feed: seq<Change>, from: nat)
    requires Closed(disk) && Rising(feed) && AppliedUpTo(feed, from, cursor)
    ensures E.OnTheWay(hash, disk, index, cursor, feed, Free, from)
  {
  }
}
