/** What applying one feed entry does to the local folder, and why a client that applies
    entries, with stops and restarts anywhere, arrives where the feed leads. */
module Replay {
  import opened FileSystem
  import opened SyncTypes
  import opened Feed

  // ---------- the effect of one entry ----------

  /** Directory entry, first part: rename the folder known under another path. The rename may
      fail, for instance because the target exists; that is ignored. */
  function DirBrought(disk: Tree, index: Index, c: Change): Option<Tree> {
    if Relocates(index, c) && index[c.nodeID].path in disk && disk[index[c.nodeID].path] == Folder then
      match MkdirAll(disk, Above(c.relPath))
      case None => None
      case Some(d) =>
        (match Rename(d, index[c.nodeID].path, c.relPath)
         case None => Some(d)
         case Some(e) => Some(e))
    else Some(disk)
  }

  /** File entry, first part: rename whatever is at the known path. A failure is an error. */
  function FileBrought(disk: Tree, index: Index, c: Change): Option<Tree> {
    if Relocates(index, c) && index[c.nodeID].path in disk then
      match MkdirAll(disk, Above(c.relPath))
      case None => None
      case Some(d) => Rename(d, index[c.nodeID].path, c.relPath)
    else Some(disk)
  }

  /** The known hash is the entry's hash and something is at the target. */
  predicate InPlace(disk: Tree, index: Index, c: Change) {
    c.nodeID in index && c.hash != "" && index[c.nodeID].hash == c.hash && c.relPath in disk
  }

  /** The folder after a successful apply of `c`, `body` being what a download returned. */
  function ApplyDisk(disk: Tree, index: Index, c: Change, body: Bytes): Option<Tree> {
    if c.deleted then (if c.relPath == [] then None else Some(RemoveAll(disk, c.relPath)))
    else if c.isDir then
      match DirBrought(disk, index, c)
      case None => None
      case Some(d) => MkdirAll(d, c.relPath)
    else
      match FileBrought(disk, index, c)
      case None => None
      case Some(d) =>
        if InPlace(d, index, c) then Some(d)
        else if c.relPath == [] then None
        else match MkdirAll(d, Parent(c.relPath))
          case None => None
          case Some(e) =>
            if c.relPath in e && e[c.relPath] == Folder then None
            else Some(e[c.relPath := Regular(body)])
  }

  /** The downloaded content, if it was needed, has the hash of the entry. */
  ghost predicate BodyMatches(hash: Bytes -> string, disk: Tree, index: Index, c: Change, body: Bytes) {
    c.deleted || c.isDir || c.hash == "" || hash(body) == c.hash ||
    (FileBrought(disk, index, c).Some? && InPlace(FileBrought(disk, index, c).value, index, c))
  }

  function ApplyIndex(index: Index, c: Change): Index {
    if c.deleted then index - {c.nodeID} else index[c.nodeID := RowOf(c)]
  }

  // ---------- exact mirrors ----------

  /** The mirror has reached `g` exactly, temporary files aside. */
  ghost predicate Reached(disk: Tree, index: Index, g: Goal) {
    Mirrors(disk, g.tree) && index == g.rows
  }

  /** A delete got part of the way through os.RemoveAll. */
  ghost predicate PartlyRemoved(disk: Tree, tree: Tree, p: Path) {
    && Closed(disk)
    && (forall q {:trigger q in disk} {:trigger q in tree} ::
          !Ignored(q) ==> (q in disk ==> q in tree) && (q in tree && !Within(p, q) ==> q in disk))
    && (forall q {:trigger disk[q]} {:trigger tree[q]} :: q in disk && !Ignored(q) ==> disk[q] == tree[q])
    && (forall q {:trigger disk[q]} :: q in disk && Ignored(q) ==> disk[q] != Folder)
  }

  /** Everything that can be found when the engine stopped at some point while applying `c`:
      untouched, with the tree already (or, for a delete, partly) changed, or fully applied. */
  ghost predicate Between(disk: Tree, index: Index, g: Goal, c: Change, g': Goal) {
    || (index == g.rows && (Mirrors(disk, g.tree) || Mirrors(disk, g'.tree)))
    || (index == g.rows && c.deleted && PartlyRemoved(disk, g.tree, c.relPath))
    || Reached(disk, index, g')
  }

  /** Once an entry has taken effect the path the node used to have is vacant. */
  lemma OldPathIsGone(hash: Bytes -> string, g: Goal, c: Change, data: Bytes, g': Goal)
    requires Settles(hash, g, c, data, g') && !c.deleted && Relocates(g.rows, c)
    ensures g.rows[c.nodeID].path !in g'.tree
  {
    var o, n := g.rows[c.nodeID].path, c.relPath;
    if o in g.tree && Within(n, o) {
      AncestorsAreFolders(g.tree, n, o);
    }
  }

  lemma DirArrives(hash: Bytes -> string, g: Goal, c: Change, data: Bytes, g': Goal, disk: Tree)
    requires Settles(hash, g, c, data, g') && !c.deleted && c.isDir
    requires Mirrors(disk, g'.tree)
               || (Mirrors(disk, g.tree) && !(Relocates(g.rows, c) && g.rows[c.nodeID].path in g.tree))
    ensures MkdirAll(disk, c.relPath).Some? && Mirrors(MkdirAll(disk, c.relPath).value, g'.tree)
  {
    var n := c.relPath;
    if Relocates(g.rows, c) && g.rows[c.nodeID].path in g.tree {
      var o := g.rows[c.nodeID].path;
      assert n in g'.tree && g'.tree[n] == g.tree[o] by {
        assert o + n[|n|..] == o;
      }
    }
    if Mirrors(disk, g'.tree) {
      assert disk[n] == g'.tree[n];
    } else {
      PutMirrors(disk, g.tree, n, Folder);
      if n !in disk {
        assert disk[Parent(n)] == g.tree[Parent(n)];
      }
    }
  }

  /** What a directory entry finds on the way: while the folder is still at its old path the
      rename goes through and completes the tree; in any case MkdirAll completes it. */
  lemma DirIsTracked(hash: Bytes -> string, g: Goal, c: Change, data: Bytes, g': Goal, disk: Tree, index: Index)
    requires Settles(hash, g, c, data, g') && !c.deleted && c.isDir && Between(disk, index, g, c, g')
    ensures MkdirAll(disk, Above(c.relPath)) == Some(disk)
    ensures Mirrors(disk, g'.tree) || (Mirrors(disk, g.tree) && index == g.rows)
    ensures index == g.rows || (index == g'.rows && Mirrors(disk, g'.tree))
    ensures index[c.nodeID := RowOf(c)] == g'.rows
    ensures forall d :: Mirrors(d, g'.tree) ==> MkdirAll(d, c.relPath) == Some(d)
    ensures if Relocates(index, c) && index[c.nodeID].path in disk && disk[index[c.nodeID].path] == Folder then
              && index == g.rows
              && Rename(disk, index[c.nodeID].path, c.relPath).Some?
              && Mirrors(Rename(disk, index[c.nodeID].path, c.relPath).value, g'.tree)
            else
              && MkdirAll(disk, c.relPath).Some?
              && Mirrors(MkdirAll(disk, c.relPath).value, g'.tree)
  {
    if Relocates(g.rows, c) { OldPathIsGone(hash, g, c, data, g'); }
    assert Settles(hash, g, c, data, g');
    if Relocates(index, c) && index[c.nodeID].path in disk && disk[index[c.nodeID].path] == Folder {
      assert !Ignored(index[c.nodeID].path);
      MoveMirrors(disk, g.tree, index[c.nodeID].path, c.relPath);
    } else {
      DirArrives(hash, g, c, data, g', disk);
    }
    ParentIsThere(hash, g, c, data, g', disk);
    forall d | Mirrors(d, g'.tree)
      ensures MkdirAll(d, c.relPath) == Some(d)
    {
      FolderIsThere(hash, g, c, data, g');
      assert d[c.relPath] == g'.tree[c.relPath];
    }
  }

  lemma FolderIsThere(hash: Bytes -> string, g: Goal, c: Change, data: Bytes, g': Goal)
    requires Settles(hash, g, c, data, g') && !c.deleted && c.isDir
    ensures c.relPath in g'.tree && g'.tree[c.relPath] == Folder
  {
    var n := c.relPath;
    if Relocates(g.rows, c) && g.rows[c.nodeID].path in g.tree {
      assert g.rows[c.nodeID].path + n[|n|..] == g.rows[c.nodeID].path;
    }
  }

  lemma ParentIsThere(hash: Bytes -> string, g: Goal, c: Change, data: Bytes, g': Goal, disk: Tree)
    requires Settles(hash, g, c, data, g') && !c.deleted
    requires Mirrors(disk, g.tree) || Mirrors(disk, g'.tree)
    ensures Parent(c.relPath) in disk && disk[Parent(c.relPath)] == Folder && !Ignored(Parent(c.relPath))
    ensures MkdirAll(disk, Parent(c.relPath)) == Some(disk)
  {
    var n := c.relPath;
    if c.isDir { FolderIsThere(hash, g, c, data, g'); } else { TargetInPlace(hash, g, c, data, g'); }
    assert Parent(n) in g'.tree && g'.tree[Parent(n)] == Folder;
    assert Parent(n) in g.tree && g.tree[Parent(n)] == Folder;
    if Mirrors(disk, g.tree) { assert disk[Parent(n)] == g.tree[Parent(n)]; }
    else { assert disk[Parent(n)] == g'.tree[Parent(n)]; }
  }

  lemma TargetInPlace(hash: Bytes -> string, g: Goal, c: Change, data: Bytes, g': Goal)
    requires Settles(hash, g, c, data, g') && !c.deleted && !c.isDir
    ensures c.relPath in g'.tree && g'.tree[c.relPath].Regular?
    ensures Parent(c.relPath) in g'.tree && g'.tree[Parent(c.relPath)] == Folder
  {
    var n := c.relPath;
    if Relocates(g.rows, c) && g.rows[c.nodeID].path in g.tree {
      var o := g.rows[c.nodeID].path;
      assert o + n[|n|..] == o;
    }
  }

  /** State of a file entry once the old copy, if any, has been moved to the new path: the
      tree is final, or only the content at the target is outstanding. */
  ghost predicate InPosition(disk: Tree, index: Index, g: Goal, c: Change, data: Bytes, g': Goal) {
    var n := c.relPath;
    || (Mirrors(disk, g'.tree) && index in {g.rows, g'.rows})
    || (&& index == g.rows && Mirrors(disk, g.tree)
        && g'.tree == g.tree[n := Regular(data)]
        && n != [] && Parent(n) in g.tree && g.tree[Parent(n)] == Folder
        && !(Relocates(g.rows, c) && g.rows[c.nodeID].path in g.tree)
        && (n in g.tree ==> g.tree[n] != Folder)
        && !SeemsThere(g, c))
  }

  lemma FileIsTracked(hash: Bytes -> string, g: Goal, c: Change, data: Bytes, g': Goal, disk: Tree, index: Index)
    requires SoundHash(hash) && Settles(hash, g, c, data, g') && !c.deleted && !c.isDir
    requires Between(disk, index, g, c, g')
    ensures c.relPath != [] && MkdirAll(disk, Above(c.relPath)) == Some(disk)
    ensures if Relocates(index, c) && index[c.nodeID].path in disk then
              && index == g.rows
              && Rename(disk, index[c.nodeID].path, c.relPath).Some?
              && Mirrors(Rename(disk, index[c.nodeID].path, c.relPath).value, g'.tree)
            else
              InPosition(disk, index, g, c, data, g')
  {
    ParentIsThere(hash, g, c, data, g', disk);
    if Relocates(g.rows, c) { OldPathIsGone(hash, g, c, data, g'); }
    if Relocates(index, c) && index[c.nodeID].path in disk {
      assert !Ignored(index[c.nodeID].path);
      MoveMirrors(disk, g.tree, index[c.nodeID].path, c.relPath);
    }
  }

  lemma AlreadyInPlace(hash: Bytes -> string, g: Goal, c: Change, data: Bytes, g': Goal, disk: Tree, index: Index)
    requires Settles(hash, g, c, data, g') && !c.deleted && !c.isDir
    requires InPosition(disk, index, g, c, data, g') && InPlace(disk, index, c)
    ensures Mirrors(disk, g'.tree)
    ensures index[c.nodeID := RowOf(c)] == g'.rows
  {
  }

  lemma FetchIsTracked(hash: Bytes -> string, g: Goal, c: Change, data: Bytes, g': Goal, disk: Tree, index: Index)
    requires Settles(hash, g, c, data, g') && SoundHash(hash) && !c.deleted && !c.isDir
    requires InPosition(disk, index, g, c, data, g') && !InPlace(disk, index, c)
    ensures c.relPath != [] && MkdirAll(disk, Parent(c.relPath)) == Some(disk)
    ensures index[c.nodeID := RowOf(c)] == g'.rows
    ensures BringsContent(g, c) && c.hash == hash(data) && g'.tree == g.tree[c.relPath := Regular(data)]
  {
    ParentIsThere(hash, g, c, data, g', disk);
    TargetInPlace(hash, g, c, data, g');
  }

  /** Before an entry that brings content nothing of the node is anywhere else, nor in place. */
  lemma NothingToBring(hash: Bytes -> string, g: Goal, c: Change, data: Bytes, g': Goal, disk: Tree, index: Index)
    requires Settles(hash, g, c, data, g') && Reached(disk, index, g) && BringsContent(g, c)
    ensures !(Relocates(index, c) && index[c.nodeID].path in disk) && !InPlace(disk, index, c)
  {
    assert c.nodeID in g.rows ==> !Ignored(g.rows[c.nodeID].path);
  }

  lemma TmpArrives(disk: Tree, dir: Path, suffix: string, data: Bytes)
    requires Closed(disk) && dir in disk && disk[dir] == Folder && dir + [".kf-tmp-" + suffix] !in disk
    ensures var tmp := dir + [".kf-tmp-" + suffix];
            Ignored(tmp) && Parent(tmp) == dir && Closed(disk[tmp := Regular(data)])
  {
    ParentOfChild(dir, ".kf-tmp-" + suffix);
    PutKeepsClosed(disk, dir + [".kf-tmp-" + suffix], Regular(data));
  }

  /** os.CreateTemp finds an unused name. */
  lemma FreshTmp(disk: Tree, dir: Path)
    ensures exists suffix: string :: dir + [".kf-tmp-" + suffix] !in disk
  {
    var n := LongestBase(disk.Keys);
    var suffix := seq(n, _ => 'x');
    ParentOfChild(dir, ".kf-tmp-" + suffix);
    assert dir + [".kf-tmp-" + suffix] !in disk;
  }

  lemma TmpLeaves(disk: Tree, tmp: Path, data: Bytes)
    requires Closed(disk) && tmp !in disk && Closed(disk[tmp := Regular(data)])
    ensures RemoveAll(disk[tmp := Regular(data)], tmp) == disk
  {
    RemoveFileIs(disk[tmp := Regular(data)], tmp);
  }

  lemma TmpIsTracked(hash: Bytes -> string, g: Goal, c: Change, data: Bytes, g': Goal, disk: Tree, index: Index,
                     tmp: Path, received: Bytes)
    requires Settles(hash, g, c, data, g') && InPosition(disk, index, g, c, data, g')
    requires Ignored(tmp) && tmp !in disk && Parent(tmp) in disk && disk[Parent(tmp)] == Folder
    ensures InPosition(disk[tmp := Regular(received)], index, g, c, data, g')
    ensures Between(disk[tmp := Regular(received)], index, g, c, g')
    ensures Reached(disk, index, g) ==> Reached(disk[tmp := Regular(received)], index, g)
  {
    if Mirrors(disk, g.tree) { AddTmpMirrors(disk, g.tree, tmp, received); }
    if Mirrors(disk, g'.tree) { AddTmpMirrors(disk, g'.tree, tmp, received); }
  }

  lemma PublishIsTracked(hash: Bytes -> string, g: Goal, c: Change, data: Bytes, g': Goal, disk: Tree, index: Index,
                         tmp: Path, received: Bytes)
    requires SoundHash(hash) && Settles(hash, g, c, data, g') && !c.deleted && !c.isDir
    requires InPosition(disk, index, g, c, data, g') && (c.hash == "" || hash(received) == c.hash)
    requires c.hash == hash(data) && g'.tree == g.tree[c.relPath := Regular(data)]
    ensures Mirrors(disk[c.relPath := Regular(received)], g'.tree)
  {
    TargetInPlace(hash, g, c, data, g');
    ParentIsThere(hash, g, c, data, g', disk);
    assert received == data;
    if Mirrors(disk, g'.tree) {
      PutMirrors(disk, g'.tree, c.relPath, Regular(data));
      assert g'.tree[c.relPath := Regular(data)] == g'.tree;
    } else {
      PutMirrors(disk, g.tree, c.relPath, Regular(data));
    }
  }

  lemma PublishSucceeds(hash: Bytes -> string, g: Goal, c: Change, data: Bytes, g': Goal, disk: Tree, index: Index,
                        tmp: Path, received: Bytes)
    requires Settles(hash, g, c, data, g') && !c.deleted && !c.isDir && InPosition(disk, index, g, c, data, g')
    requires tmp !in disk && tmp != []
    ensures Rename(disk[tmp := Regular(received)], tmp, c.relPath).Some?
  {
    TargetInPlace(hash, g, c, data, g');
    ParentIsThere(hash, g, c, data, g', disk);
    if c.relPath in disk {
      assert disk[c.relPath] != Folder;
    }
  }

  lemma DeleteFinishes(hash: Bytes -> string, g: Goal, c: Change, data: Bytes, g': Goal, disk: Tree, index: Index)
    requires Settles(hash, g, c, data, g') && c.deleted && Between(disk, index, g, c, g')
    ensures Mirrors(RemoveAll(disk, c.relPath), g'.tree)
  {
    RemoveKeepsClosed(disk, c.relPath);
  }

  lemma DeleteStops(hash: Bytes -> string, g: Goal, c: Change, data: Bytes, g': Goal, disk: Tree, index: Index,
                    spared: set<Path>)
    requires Settles(hash, g, c, data, g') && c.deleted && Between(disk, index, g, c, g')
    ensures Between(RemoveSome(disk, c.relPath, spared), index, g, c, g')
  {
    var d := RemoveSome(disk, c.relPath, spared);
    RemoveSomeKeepsClosed(disk, c.relPath, spared);
    if Mirrors(disk, g'.tree) {
      assert Mirrors(d, g'.tree);
    } else {
      assert PartlyRemoved(d, g.tree, c.relPath);
    }
  }

  // ---------- following a feed ----------

  /** The goals a mirror passes through and the contents the entries stand for. */
  datatype Plan = Plan(script: seq<Goal>, bodies: seq<Bytes>)

  ghost predicate Rising(feed: seq<Change>) {
    && (forall i :: 0 <= i < |feed| ==> feed[i].seqNo > 0)
    && (forall i, j :: 0 <= i < j < |feed| ==> feed[i].seqNo < feed[j].seqNo)
  }

  ghost predicate Leads(hash: Bytes -> string, feed: seq<Change>, plan: Plan) {
    && |plan.script| == |feed| + 1 && |plan.bodies| == |feed| && Rising(feed)
    && forall i {:trigger plan.bodies[i]} :: 0 <= i < |feed| ==>
         Settles(hash, plan.script[i], feed[i], plan.bodies[i], plan.script[i + 1])
  }

  /** How a pull is followed: exactly, from a mirror that was in step; loosely, from a folder
      that may hold anything besides the tree; or not at all. */
  datatype Mode = Exact(plan: Plan) | Over(start: Server, hist: seq<Op>, rows: Index) | Free

  lemma CursorMovesOn(feed: seq<Change>, i: nat, cursor: int)
    requires Rising(feed) && i < |feed| && AppliedUpTo(feed, i, cursor)
    ensures AppliedUpTo(feed, i + 1, feed[i].seqNo)
  {
  }

  /** The plan a history of the server gives to a client that mirrored its start. */
  ghost function PlanOf(hash: Bytes -> string, s: Server, hist: seq<Op>, rows: Index): Plan
    requires HistoryOk(s, hist)
  {
    Plan(Script(hash, s, hist, rows), Bodies(s, hist))
  }

  /** The feed of any history of the server leads a client from its start to its end. */
  lemma {:induction false} HistoryLeads(hash: Bytes -> string, feed: seq<Change>, s: Server, hist: seq<Op>, rows: Index)
    requires SoundHash(hash) && HistoryOk(s, hist) && Indexes(hash, rows, s)
    requires Numbers(feed, Entries(hash, s, hist))
    ensures var plan := PlanOf(hash, s, hist, rows);
            && Leads(hash, feed, plan)
            && plan.script[0] == Goal(s.tree, rows)
            && ServerOk(Final(s, hist))
            && plan.script[|feed|].tree == Final(s, hist).tree
            && Indexes(hash, plan.script[|feed|].rows, Final(s, hist))
  {
    var plan := PlanOf(hash, s, hist, rows);
    ScriptShape(hash, s, hist, rows);
    ScriptEnds(hash, s, hist, rows);
    forall i | 0 <= i < |feed|
      ensures Settles(hash, plan.script[i], feed[i], plan.bodies[i], plan.script[i + 1])
    {
      ScriptSettles(hash, s, hist, rows, i);
      SeqNoIsIrrelevant(hash, plan.script[i], Entries(hash, s, hist)[i], feed[i].seqNo, plan.bodies[i],
                        plan.script[i + 1]);
    }
  }

  lemma SeqNoIsIrrelevant(hash: Bytes -> string, g: Goal, c: Change, sn: int, data: Bytes, g': Goal)
    requires Settles(hash, g, c, data, g')
    ensures Settles(hash, g, c.(seqNo := sn), data, g')
    ensures BringsContent(g, c.(seqNo := sn)) <==> BringsContent(g, c)
  {
  }

  /** Of a history's entries only those of creates and updates bring content: moving a
      folder, however many entries it takes, downloads nothing. */
  lemma OnlyCreatesAndUpdatesBringContent(hash: Bytes -> string, feed: seq<Change>, s: Server, hist: seq<Op>,
                                          rows: Index, i: nat)
    requires SoundHash(hash) && HistoryOk(s, hist) && Indexes(hash, rows, s)
    requires Numbers(feed, Entries(hash, s, hist)) && i < |feed|
    ensures i < |PlanOf(hash, s, hist, rows).script| && i < |Causes(hist)|
    ensures BringsContent(PlanOf(hash, s, hist, rows).script[i], feed[i]) ==>
              Causes(hist)[i].Create? || Causes(hist)[i].Update?
  {
    ScriptSettles(hash, s, hist, rows, i);
    SeqNoIsIrrelevant(hash, PlanOf(hash, s, hist, rows).script[i], Entries(hash, s, hist)[i], feed[i].seqNo,
                      Bodies(s, hist)[i], Script(hash, s, hist, rows)[i + 1]);
  }
}
