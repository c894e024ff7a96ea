/** What a push leaves in the server's change feed: for every change of the plan the entries its
    requests have caused, and what these say about the server at the end of the push. */
module Chronicle {
  import opened FileSystem
  import opened SyncTypes
  import opened Feed
  import opened LocalChanges
  import opened Push
  import opened PushState

  /** The entry tells of a node of the server as it is, or of one that is no longer there. */
  ghost predicate Describes(hash: Bytes -> string, s: Server, c: Change) {
    && c.relPath != [] && !Ignored(c.relPath)
    && if c.deleted then c.relPath !in s.tree && forall q {:trigger s.meta[q]} :: q in s.meta ==>
        s.meta[q].id != c.nodeID
       else c.relPath in s.meta && c.relPath in s.tree && c.nodeID == s.meta[c.relPath].id
            && RowOf(c) == RowAt(hash, c.relPath, s.tree[c.relPath], s.meta[c.relPath])
  }

  ghost predicate Shows(hash: Bytes -> string, s: Server, c: Change, p: Path) {
    !c.deleted && c.relPath == p && Describes(hash, s, c)
  }

  /** Where a file passes through that changes both folder and name. */
  function Detour(c: LocalChange): Option<Path> {
    if c.op == MoveOp && c.relPath != [] && c.oldRelPath != []
       && Parent(c.relPath) != Parent(c.oldRelPath) && Base(c.relPath) != Base(c.oldRelPath)
    then Some(Parent(c.relPath) + [Base(c.oldRelPath)]) else None
  }

  /** The path a change that is no delete ends up under on the server. */
  function Target(conflicts: map<Path, Path>, c: LocalChange): Path {
    if c.relPath in conflicts then conflicts[c.relPath] else c.relPath
  }

  /** `a` shows the node of `b` in passing, at the path `h`. */
  ghost predicate Passes(a: Change, b: Change, h: Path) {
    && h != [] && !Ignored(h) && a.relPath == h && !a.deleted && !a.isDir && !b.isDir
    && a.nodeID == b.nodeID && a.hash == b.hash
  }

  /** A local file at this path is one a later move puts there. */
  ghost predicate LaterTarget(st: Start, cs: seq<LocalChange>, j: nat, h: Path) {
    h in st.local ==> exists i :: j < i < |cs| && cs[i].op == MoveOp && cs[i].relPath == h
  }

  /** What the entries of the j-th change of the plan say. */
  ghost predicate Tells(hash: Bytes -> string, st: Start, s: Server, conflicts: map<Path, Path>,
                        cs: seq<LocalChange>, j: nat, seg: seq<Change>)
    requires j < |cs|
  {
    var p := cs[j].relPath;
    match cs[j].op
    case DeleteOp => |seg| == 1 && seg[0].deleted && Describes(hash, s, seg[0])
    case MoveOp =>
      && p in st.local && st.local[p].Regular? && p !in st.stale && p !in conflicts && p !in conflicts.Values
      && (match Detour(cs[j])
          case None => |seg| == 1 && Shows(hash, s, seg[0], p)
          case Some(h) =>
            && |seg| == 2 && Passes(seg[0], seg[1], h) && Shows(hash, s, seg[1], p)
            && h !in conflicts.Values && LaterTarget(st, cs, j, h))
    case _ =>
      && p in st.local && |seg| == 1 && Shows(hash, s, seg[0], Target(conflicts, cs[j]))
      && (p in conflicts || (p !in st.stale && p !in conflicts.Values))
  }

  ghost predicate Injective(conflicts: map<Path, Path>) {
    forall p, q :: p in conflicts && q in conflicts && conflicts[p] == conflicts[q] ==> p == q
  }

  ghost predicate Chronicled(hash: Bytes -> string, st: Start, s: Server, conflicts: map<Path, Path>,
                             cs: seq<LocalChange>, told: seq<seq<Change>>) {
    && |told| <= |cs| && Injective(conflicts)
    && forall j :: 0 <= j < |told| ==> Tells(hash, st, s, conflicts, cs, j, told[j])
  }

  /** The entries in the order of the feed. */
  ghost function Flat(told: seq<seq<Change>>): seq<Change> {
    if told == [] then [] else Flat(told[..|told| - 1]) + told[|told| - 1]
  }

  lemma FlatGrows(told: seq<seq<Change>>, seg: seq<Change>)
    ensures Flat(told + [seg]) == Flat(told) + seg
  {
    assert (told + [seg])[..|told|] == told;
  }

  // ---------- the entries of one request ----------

  lemma CreateShows(hash: Bytes -> string, s: Server, op: Op)
    requires ServerOk(s) && OpOk(s, op) && (op.Create? || op.Update?)
    ensures |BlockOf(hash, s, op)| == 1 && Shows(hash, After(s, op), BlockOf(hash, s, op)[0], op.path)
  {
  }

  lemma FileMoveShows(hash: Bytes -> string, s: Server, op: Op)
    requires ServerOk(s) && OpOk(s, op) && op.Move? && s.tree[op.from].Regular?
    ensures |BlockOf(hash, s, op)| == 1 && Shows(hash, After(s, op), BlockOf(hash, s, op)[0], op.to)
    ensures var e := BlockOf(hash, s, op)[0];
            e.nodeID == s.meta[op.from].id && e.hash == hash(s.tree[op.from].data) && !e.isDir && !Ignored(op.to)
                && op.to != []
  {
    LeafIsAlone(s.tree, op.order, op.from);
    MovedAlong(s, op, op.from);
    assert MovePath(op.from, op.from, op.to) == op.to;
  }

  lemma LeafIsAlone(t: Tree, order: seq<Path>, p: Path)
    requires Lists(order, t, p) && Closed(t)
    requires p in t && (t[p] != Folder || forall q {:trigger Within(p, q)} :: q in t && Within(p, q) ==> q == p)
    ensures order == [p]
  {
    if |order| > 1 {
      assert order[1] in order;
      if t[p] != Folder { NothingBelowFile(t, p, order[1]); }
    }
  }

  lemma DeleteShows(hash: Bytes -> string, s: Server, op: Op)
    requires ServerOk(s) && OpOk(s, op) && op.Delete?
    requires forall q {:trigger Within(op.path, q)} :: q in s.tree && Within(op.path, q) ==> q == op.path
    ensures |BlockOf(hash, s, op)| == 1
    ensures BlockOf(hash, s, op)[0].deleted && Describes(hash, After(s, op), BlockOf(hash, s, op)[0])
  {
    LeafIsAlone(s.tree, op.order, op.path);
  }

  // ---------- later requests leave it true ----------

  /** Outside `gone` the nodes of the server are as before. */
  ghost predicate Unmoved(s: Server, s': Server, gone: set<Path>) {
    forall p {:trigger s.meta[p]} :: p in s.meta && p !in gone && p in s.tree ==>
      p in s'.meta && p in s'.tree && s'.meta[p] == s.meta[p] && s'.tree[p] == s.tree[p]
  }

  /** Nothing is new on the server. */
  ghost predicate NothingNew(s: Server, s': Server) {
    && (forall p {:trigger p in s'.tree} :: p in s'.tree ==> p in s.tree)
    && (forall p {:trigger s'.meta[p]} :: p in s'.meta ==> p in s.meta && s'.meta[p] == s.meta[p])
  }

  lemma StillShows(hash: Bytes -> string, s: Server, s': Server, gone: set<Path>, c: Change, p: Path)
    requires Shows(hash, s, c, p) && Unmoved(s, s', gone) && p !in gone
    ensures Shows(hash, s', c, p)
  {
  }

  /** What the k-th change may do without making an earlier entry untrue. */
  ghost predicate Allows(st: Start, s: Server, s': Server, conflicts: map<Path, Path>, conflicts': map<Path, Path>,
                         cs: seq<LocalChange>, k: nat, gone: set<Path>)
    requires k < |cs|
  {
    && Unmoved(s, s', gone)
    && (forall p {:trigger p in gone} :: p in gone ==> p in Touches(cs[k]) && p !in conflicts.Values)
    && (cs[k].op == DeleteOp ==> NothingNew(s, s'))
    && (conflicts' == conflicts
        || (&& cs[k].op in {CreateOp, UpdateOp} && cs[k].relPath !in conflicts && cs[k].relPath in conflicts'
            && conflicts' == conflicts[cs[k].relPath := conflicts'[cs[k].relPath]]
            && conflicts'[cs[k].relPath] !in s.tree && conflicts'[cs[k].relPath] !in conflicts.Values))
  }

  lemma StillTells(hash: Bytes -> string, st: Start, s: Server, s': Server, conflicts: map<Path, Path>,
                   conflicts': map<Path, Path>, cs: seq<LocalChange>, j: nat, k: nat, gone: set<Path>, seg: seq<Change>)
    requires Apart(cs) && Ordered(cs) && j < k < |cs|
    requires Allows(st, s, s', conflicts, conflicts', cs, k, gone)
    requires Tells(hash, st, s, conflicts, cs, j, seg)
    ensures Tells(hash, st, s', conflicts', cs, j, seg)
  {
    var p := cs[j].relPath;
    assert p in Touches(cs[j]) && Touches(cs[j]) !! Touches(cs[k]);
    assert cs[k].relPath in Touches(cs[k]);
    assert !Before(cs[k], cs[j]);
    assert p in conflicts' <==> p in conflicts;
    hide Describes, Passes, LaterTarget, Before, Unmoved;
    match cs[j].op
    case DeleteOp =>
      StillGone(hash, s, s', seg[0]);
    case MoveOp =>
      assert conflicts' == conflicts;
      StillShows(hash, s, s', gone, seg[|seg| - 1], p);
    case _ =>
      StillShows(hash, s, s', gone, seg[0], seg[0].relPath);
  }

  lemma StillGone(hash: Bytes -> string, s: Server, s': Server, c: Change)
    requires c.deleted && Describes(hash, s, c) && NothingNew(s, s')
    ensures Describes(hash, s', c)
  {
  }

  lemma StillChronicled(hash: Bytes -> string, st: Start, s: Server, s': Server, conflicts: map<Path, Path>,
                        conflicts': map<Path, Path>, cs: seq<LocalChange>, told: seq<seq<Change>>, gone: set<Path>,
                        seg: seq<Change>)
    requires Apart(cs) && Ordered(cs) && |told| < |cs|
    requires Allows(st, s, s', conflicts, conflicts', cs, |told|, gone)
    requires Chronicled(hash, st, s, conflicts, cs, told)
    requires Tells(hash, st, s', conflicts', cs, |told|, seg)
    ensures Chronicled(hash, st, s', conflicts', cs, told + [seg])
  {
    hide Tells, Apart, Ordered;
    forall j | 0 <= j < |told|
      ensures Tells(hash, st, s', conflicts', cs, j, told[j])
    {
      StillTells(hash, st, s, s', conflicts, conflicts', cs, j, |told|, gone, told[j]);
    }
    hide Unmoved, NothingNew;
  }
}
