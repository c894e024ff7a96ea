/** The server's side of the change feed: which entries a server operation puts into the
    feed, and what a client must look like after every one of them. */
module Feed {
  import opened FileSystem
  import opened SyncTypes

  /** What the mirror has to look like after a prefix of the feed. */
  datatype Goal = Goal(tree: Tree, rows: Index)

  ghost predicate WellFormed(g: Goal) {
    && Closed(g.tree) && NoneIgnored(g.tree)
    && RealPaths(g.rows)
  }

  ghost predicate RealPaths(rows: Index) {
    forall id {:trigger rows[id]} :: id in rows ==> !Ignored(rows[id].path)
  }

  /** The entry gives a known node another path. */
  predicate Relocates(rows: Index, c: Change) {
    c.nodeID in rows && rows[c.nodeID].path != c.relPath
  }

  predicate FreeSlot(t: Tree, n: Path) {
    n != [] && n !in t && Parent(n) in t && t[Parent(n)] == Folder
  }

  function RowOf(c: Change): Row {
    if c.isDir then Row(c.relPath, true, c.version, "", 0)
    else Row(c.relPath, false, c.version, c.hash, c.size)
  }

  /** `c` is an entry a consistent server may send to a client that has reached `g`, and `g'`
      is where it takes the client; `data` is the content the entry's hash stands for. */
  ghost predicate Settles(hash: Bytes -> string, g: Goal, c: Change, data: Bytes, g': Goal)
  {
    var n := c.relPath;
    && WellFormed(g) && WellFormed(g')
    && n != [] && !Ignored(n)
    && g'.rows == (if c.deleted then g.rows - {c.nodeID} else g.rows[c.nodeID := RowOf(c)])
    && if c.deleted then g'.tree == RemoveAll(g.tree, n)
       else if Relocates(g.rows, c) && g.rows[c.nodeID].path in g.tree then
         var o := g.rows[c.nodeID].path;
         && o != [] && !Within(o, n)
         && g'.tree == Moved(g.tree, o, n)
         && (if c.isDir then FreeSlot(g.tree, n) && g.tree[o] == Folder
             else FreeForFile(g.tree, n) && g.tree[o] != Folder && c.hash != "" && c.hash == g.rows[c.nodeID].hash)
       else if c.isDir then
         && (FreeSlot(g.tree, n) || (n in g.tree && g.tree[n] == Folder))
         && g'.tree == g.tree[n := Folder]
       else
         && FreeForFile(g.tree, n) && c.hash != ""
         && if SeemsThere(g, c) then g'.tree == g.tree
            else c.hash == hash(data) && g'.tree == g.tree[n := Regular(data)]
  }

  predicate FreeForFile(t: Tree, n: Path) {
    FreeSlot(t, n) || (n != [] && n in t && t[n] != Folder)
  }

  /** There is a file at the entry's path and the known hash is the entry's: whatever the file
      holds, the client takes it for the content. */
  predicate SeemsThere(g: Goal, c: Change) {
    c.relPath in g.tree && c.nodeID in g.rows && g.rows[c.nodeID].hash == c.hash
  }

  /** The entry brings content the client does not have, neither at its path nor at the
      path it knows the node under. */
  predicate BringsContent(g: Goal, c: Change) {
    && !c.deleted && !c.isDir
    && !(&& c.nodeID in g.rows && g.rows[c.nodeID].hash == c.hash
         && (c.relPath in g.tree || g.rows[c.nodeID].path in g.tree))
  }

  // ---------- the server ----------

  datatype Meta = Meta(id: NodeID, version: int)

  /** The server's tree and the identity and version of every node in it. */
  datatype Server = Server(tree: Tree, meta: map<Path, Meta>)

  ghost predicate ServerOk(s: Server) {
    && Closed(s.tree) && NoneIgnored(s.tree)
    && s.meta.Keys == s.tree.Keys - {[]}
    && forall p, q :: p in s.meta && q in s.meta && s.meta[p].id == s.meta[q].id ==> p == q
  }

  function RowAt(hash: Bytes -> string, p: Path, node: Node, m: Meta): Row {
    match node
    case Folder => Row(p, true, m.version, "", 0)
    case Regular(data) => Row(p, false, m.version, hash(data), |data|)
  }

  /** The index holds exactly the server's nodes, under their paths, versions and hashes. */
  ghost predicate Indexes(hash: Bytes -> string, rows: Index, s: Server)
    requires ServerOk(s)
  {
    && (forall p {:trigger s.meta[p]} :: p in s.meta ==>
          s.meta[p].id in rows && rows[s.meta[p].id] == RowAt(hash, p, s.tree[p], s.meta[p]))
    && (forall id {:trigger rows[id]} :: id in rows ==>
          rows[id].path in s.meta && s.meta[rows[id].path].id == id)
  }

  /** One operation of the server. A move or delete of a folder names every live descendant;
      `order` is the order of its feed entries, the folder itself first. */
  datatype Op =
    | Create(path: Path, node: Node, id: NodeID, version: int)
    | Update(path: Path, data: Bytes, version: int)
    | Move(from: Path, to: Path, order: seq<Path>, versions: map<Path, int>)
    | Delete(path: Path, order: seq<Path>, version: int)

  /** `order` lists the subtree at `p`, without repetition and parents before children. */
  ghost predicate Lists(order: seq<Path>, t: Tree, p: Path) {
    && order != [] && order[0] == p
    && (forall q {:trigger q in order} :: q in order <==> q in t && Within(p, q))
    && (forall i, j :: 0 <= i < j < |order| ==> order[i] != order[j] && !Within(order[j], order[i]))
  }

  ghost predicate OpOk(s: Server, op: Op) {
    match op
    case Create(p, node, id, _) =>
      FreeSlot(s.tree, p) && !Ignored(p) && forall q :: q in s.meta ==> s.meta[q].id != id
    case Update(p, _, _) =>
      p in s.tree && s.tree[p] != Folder
    case Move(from, to, order, versions) =>
      && from in s.tree && from != [] && FreeSlot(s.tree, to) && !Ignored(to) && !Within(from, to)
      && Lists(order, s.tree, from)
      && forall q {:trigger q in versions} :: q in order ==> q in versions
    case Delete(p, order, _) =>
      p in s.tree && p != [] && Lists(order, s.tree, p)
  }

  function Back(r: Path, from: Path, to: Path): Path
    requires Within(to, r)
  {
    from + r[|to|..]
  }

  ghost function After(s: Server, op: Op): Server
    requires ServerOk(s) && OpOk(s, op)
  {
    match op
    case Create(p, node, id, v) => Server(s.tree[p := node], s.meta[p := Meta(id, v)])
    case Update(p, data, v) => Server(s.tree[p := Regular(data)], s.meta[p := Meta(s.meta[p].id, v)])
    case Move(from, to, _, versions) =>
      var t := Moved(s.tree, from, to);
      Server(t, map r | r in t && r != [] ::
        if Within(to, r)
        then Meta(s.meta[Back(r, from, to)].id, versions[Back(r, from, to)])
        else s.meta[r])
    case Delete(p, _, _) =>
      Server(RemoveAll(s.tree, p), map q | q in s.meta && !Within(p, q) :: s.meta[q])
  }

  /** The feed entries of an operation, still without sequence numbers. */
  ghost function Entry(hash: Bytes -> string, s: Server, op: Op, k: nat): Change
    requires ServerOk(s) && OpOk(s, op) && k < EntryCount(op)
  {
    match op
    case Create(p, node, id, v) =>
      var row := RowAt(hash, p, node, Meta(id, v));
      Change(0, id, p, row.isDir, v, row.hash, row.size, false)
    case Update(p, data, v) =>
      Change(0, s.meta[p].id, p, false, v, hash(data), |data|, false)
    case Move(from, to, order, versions) =>
      var q := order[k];
      assert q in order;
      var row := RowAt(hash, q, s.tree[q], s.meta[q]);
      Change(0, s.meta[q].id, MovePath(q, from, to), row.isDir, versions[q], row.hash, row.size, false)
    case Delete(p, order, v) =>
      var q := order[k];
      assert q in order;
      Change(0, s.meta[q].id, q, s.tree[q] == Folder, v, "", 0, true)
  }

  function EntryCount(op: Op): nat {
    match op
    case Create(_, _, _, _) => 1
    case Update(_, _, _) => 1
    case Move(_, _, order, _) => |order|
    case Delete(_, order, _) => |order|
  }

  ghost function Body(s: Server, op: Op, k: nat): Bytes
    requires ServerOk(s) && OpOk(s, op) && k < EntryCount(op)
  {
    match op
    case Create(_, node, _, _) => if node.Regular? then node.data else []
    case Update(_, data, _) => data
    case Move(_, _, order, _) =>
      assert order[k] in order;
      (match s.tree[order[k]] case Folder => [] case Regular(data) => data)
    case Delete(_, _, _) => []
  }

  /** The index after the first `k` entries of an operation. */
  ghost function RowsAfter(hash: Bytes -> string, s: Server, op: Op, rows: Index, k: nat): Index
    requires ServerOk(s) && OpOk(s, op) && k <= EntryCount(op)
  {
    if k == 0 then rows
    else
      var e := Entry(hash, s, op, k - 1);
      var before := RowsAfter(hash, s, op, rows, k - 1);
      if e.deleted then before - {e.nodeID} else before[e.nodeID := RowOf(e)]
  }

  /** The first entry of an operation changes the whole tree, the others only the index. */
  ghost function GoalAt(hash: Bytes -> string, s: Server, op: Op, rows: Index, k: nat): Goal
    requires ServerOk(s) && OpOk(s, op) && k <= EntryCount(op)
  {
    Goal(if k == 0 then s.tree else After(s, op).tree, RowsAfter(hash, s, op, rows, k))
  }

  // ---------- operations keep the server consistent ----------

  lemma AfterIsOk(s: Server, op: Op)
    requires ServerOk(s) && OpOk(s, op)
    ensures ServerOk(After(s, op))
  {
    var u := After(s, op);
    match op
    case Create(p, node, id, v) =>
      PutKeepsClosed(s.tree, p, node);
    case Update(p, data, v) =>
      PutKeepsClosed(s.tree, p, Regular(data));
    case Delete(p, _, _) =>
      RemoveKeepsClosed(s.tree, p);
    case Move(from, to, order, versions) =>
      MoveKeepsClosed(s.tree, from, to);
      forall r | r in u.tree
        ensures !Ignored(r)
      {
        if Within(to, r) && r != to {
          assert |r| > |to|;
          assert Base(Back(r, from, to)) == Base(r);
        }
      }
      forall p, q | p in u.meta && q in u.meta && u.meta[p].id == u.meta[q].id
        ensures p == q
      {
        MoveIsInjective(s, op, p, q);
      }
  }

  lemma MoveIsInjective(s: Server, op: Op, p: Path, q: Path)
    requires ServerOk(s) && OpOk(s, op) && op.Move?
    requires p in After(s, op).meta && q in After(s, op).meta
    requires After(s, op).meta[p].id == After(s, op).meta[q].id
    ensures p == q
  {
    var from, to := op.from, op.to;
    if Within(to, p) && Within(to, q) {
      assert to + p[|to|..] == p && to + q[|to|..] == q;
      assert Back(p, from, to)[|from|..] == p[|to|..];
      assert Back(q, from, to)[|from|..] == q[|to|..];
    } else if Within(to, p) {
      assert Within(from, Back(p, from, to));
    }
  }

  // ---------- replaying one operation ----------

  ghost predicate Concerns(s: Server, op: Op, j: nat, id: NodeID)
    requires ServerOk(s) && OpOk(s, op) && j < EntryCount(op)
  {
    match op
    case Create(_, _, new', _) => new' == id
    case Update(p, _, _) => s.meta[p].id == id
    case Move(_, _, order, _) => assert order[j] in order; s.meta[order[j]].id == id
    case Delete(_, order, _) => assert order[j] in order; s.meta[order[j]].id == id
  }

  lemma {:induction false} RowUntouched(hash: Bytes -> string, s: Server, op: Op, rows: Index, id: NodeID, k: nat)
    requires ServerOk(s) && OpOk(s, op) && k <= EntryCount(op)
    requires forall j | 0 <= j < k :: !Concerns(s, op, j, id)
    ensures var now := RowsAfter(hash, s, op, rows, k);
            (id in now <==> id in rows) && (id in now ==> now[id] == rows[id])
    decreases k
  {
    if k > 0 {
      assert !Concerns(s, op, k - 1, id);
      RowUntouched(hash, s, op, rows, id, k - 1);
    }
  }

  lemma {:induction false} RowSettled(hash: Bytes -> string, s: Server, op: Op, rows: Index, j: nat, k: nat)
    requires ServerOk(s) && OpOk(s, op) && j < k <= EntryCount(op)
    ensures var e := Entry(hash, s, op, j);
            var now := RowsAfter(hash, s, op, rows, k);
            if op.Delete? then e.nodeID !in now else e.nodeID in now && now[e.nodeID] == RowOf(e)
    decreases k
  {
    hide ServerOk, OpOk, Entry, EntryCount, RowOf;
    OnlyDeletesDelete(hash, s, op, k - 1);
    if j < k - 1 {
      RowSettled(hash, s, op, rows, j, k - 1);
      DifferentNodes(hash, s, op, j, k - 1);
    }
  }

  lemma OnlyDeletesDelete(hash: Bytes -> string, s: Server, op: Op, i: nat)
    requires ServerOk(s) && OpOk(s, op) && i < EntryCount(op)
    ensures op.Delete? <==> Entry(hash, s, op, i).deleted
  {
  }

  lemma DifferentNodes(hash: Bytes -> string, s: Server, op: Op, i: nat, j: nat)
    requires ServerOk(s) && OpOk(s, op) && i < j < EntryCount(op)
    ensures Entry(hash, s, op, i).nodeID != Entry(hash, s, op, j).nodeID
  {
    assert op.order[i] in op.order && op.order[j] in op.order;
    assert op.order[i] != op.order[j];
  }

  lemma {:induction false} RowPathsAreReal(hash: Bytes -> string, s: Server, op: Op, rows: Index, k: nat)
    requires ServerOk(s) && OpOk(s, op) && k <= EntryCount(op)
    requires RealPaths(rows)
    ensures RealPaths(RowsAfter(hash, s, op, rows, k))
    decreases k
  {
    if k > 0 {
      RowPathsAreReal(hash, s, op, rows, k - 1);
      EntryPathIsReal(hash, s, op, k - 1);
    }
  }

  lemma EntryPathIsReal(hash: Bytes -> string, s: Server, op: Op, k: nat)
    requires ServerOk(s) && OpOk(s, op) && k < EntryCount(op)
    ensures var n := Entry(hash, s, op, k).relPath; n != [] && !Ignored(n)
  {
    match op
    case Move(from, to, order, _) =>
      var q := order[k];
      assert q in order;
      var r := MovePath(q, from, to);
      if q != from {
        assert |q| > |from|;
        assert Base(r) == Base(q);
      } else {
        assert r == to;
      }
    case Delete(p, order, _) =>
      assert order[k] in order;
    case _ =>
  }

  /** A path moved along with its folder is where the moved tree has it, and nowhere else. */
  lemma MovedAlong(s: Server, op: Op, q: Path)
    requires ServerOk(s) && OpOk(s, op) && op.Move? && q in op.order
    ensures var t := After(s, op).tree; var r := MovePath(q, op.from, op.to);
            && r in t && t[r] == s.tree[q] && q !in t && r != q && r != []
            && After(s, op).meta[r] == Meta(s.meta[q].id, op.versions[q])
  {
    var r := MovePath(q, op.from, op.to);
    assert Back(r, op.from, op.to) == q;
    if Within(op.to, q) {
      NothingBelowAbsent(s.tree, op.to, q);
    }
  }

  lemma GoalsAreWellFormed(hash: Bytes -> string, s: Server, op: Op, rows: Index, k: nat)
    requires ServerOk(s) && OpOk(s, op) && Indexes(hash, rows, s) && k <= EntryCount(op)
    ensures WellFormed(GoalAt(hash, s, op, rows, k))
  {
    AfterIsOk(s, op);
    RowPathsAreReal(hash, s, op, rows, k);
  }

  lemma CreateSettles(hash: Bytes -> string, s: Server, op: Op, rows: Index)
    requires SoundHash(hash) && ServerOk(s) && OpOk(s, op) && Indexes(hash, rows, s)
    requires op.Create? || op.Update?
    ensures Settles(hash, GoalAt(hash, s, op, rows, 0), Entry(hash, s, op, 0), Body(s, op, 0),
                    GoalAt(hash, s, op, rows, 1))
  {
    GoalsAreWellFormed(hash, s, op, rows, 0);
    GoalsAreWellFormed(hash, s, op, rows, 1);
    assert RowsAfter(hash, s, op, rows, 0) == rows;
    if op.Update? {
      assert rows[s.meta[op.path].id].path == op.path;
    }
  }

  lemma MovedRow(hash: Bytes -> string, s: Server, op: Op, rows: Index, k: nat)
    requires ServerOk(s) && OpOk(s, op) && Indexes(hash, rows, s)
    requires op.Move? && k < EntryCount(op)
    ensures var e := Entry(hash, s, op, k);
            && op.order[k] in op.order
            && e.nodeID in RowsAfter(hash, s, op, rows, k)
            && RowsAfter(hash, s, op, rows, k)[e.nodeID] ==
                 RowAt(hash, op.order[k], s.tree[op.order[k]], s.meta[op.order[k]])
  {
    var q := op.order[k];
    assert q in op.order;
    forall j | 0 <= j < k
      ensures !Concerns(s, op, j, s.meta[q].id)
    {
      assert op.order[j] in op.order && op.order[j] != q;
    }
    RowUntouched(hash, s, op, rows, s.meta[q].id, k);
  }

  lemma MoveRootSettles(hash: Bytes -> string, s: Server, op: Op, rows: Index)
    requires SoundHash(hash) && ServerOk(s) && OpOk(s, op) && Indexes(hash, rows, s) && op.Move?
    ensures Settles(hash, GoalAt(hash, s, op, rows, 0), Entry(hash, s, op, 0), Body(s, op, 0),
                    GoalAt(hash, s, op, rows, 1))
    ensures !BringsContent(GoalAt(hash, s, op, rows, 0), Entry(hash, s, op, 0))
  {
    GoalsAreWellFormed(hash, s, op, rows, 0);
    GoalsAreWellFormed(hash, s, op, rows, 1);
    MovedRow(hash, s, op, rows, 0);
    assert RowsAfter(hash, s, op, rows, 0) == rows;
    assert MovePath(op.from, op.from, op.to) == op.to;
    hide WellFormed, ServerOk, Indexes;
  }

  lemma MoveDescendantSettles(hash: Bytes -> string, s: Server, op: Op, rows: Index, k: nat)
    requires SoundHash(hash) && ServerOk(s) && OpOk(s, op) && Indexes(hash, rows, s)
    requires op.Move? && 0 < k < EntryCount(op)
    ensures Settles(hash, GoalAt(hash, s, op, rows, k), Entry(hash, s, op, k), Body(s, op, k),
                    GoalAt(hash, s, op, rows, k + 1))
    ensures !BringsContent(GoalAt(hash, s, op, rows, k), Entry(hash, s, op, k))
  {
    hide WellFormed, ServerOk, Indexes, Lists, After;
    GoalsAreWellFormed(hash, s, op, rows, k);
    GoalsAreWellFormed(hash, s, op, rows, k + 1);
    EntryPathIsReal(hash, s, op, k);
    MovedRow(hash, s, op, rows, k);
    MovedAlong(s, op, op.order[k]);
    var t, n := After(s, op).tree, MovePath(op.order[k], op.from, op.to);
    assert t[n := t[n]] == t;
  }

  lemma MoveSettles(hash: Bytes -> string, s: Server, op: Op, rows: Index, k: nat)
    requires SoundHash(hash) && ServerOk(s) && OpOk(s, op) && Indexes(hash, rows, s)
    requires op.Move? && k < EntryCount(op)
    ensures Settles(hash, GoalAt(hash, s, op, rows, k), Entry(hash, s, op, k), Body(s, op, k),
                    GoalAt(hash, s, op, rows, k + 1))
    ensures !BringsContent(GoalAt(hash, s, op, rows, k), Entry(hash, s, op, k))
  {
    if k == 0 {
      MoveRootSettles(hash, s, op, rows);
    } else {
      MoveDescendantSettles(hash, s, op, rows, k);
    }
  }

  lemma DeleteSettles(hash: Bytes -> string, s: Server, op: Op, rows: Index, k: nat)
    requires SoundHash(hash) && ServerOk(s) && OpOk(s, op) && Indexes(hash, rows, s)
    requires op.Delete? && k < EntryCount(op)
    ensures Settles(hash, GoalAt(hash, s, op, rows, k), Entry(hash, s, op, k), Body(s, op, k),
                    GoalAt(hash, s, op, rows, k + 1))
  {
    GoalsAreWellFormed(hash, s, op, rows, k);
    GoalsAreWellFormed(hash, s, op, rows, k + 1);
    EntryPathIsReal(hash, s, op, k);
    assert op.order[k] in op.order;
    if k > 0 {
      DeletedAlong(s, op, op.order[k]);
    }
  }

  /** Every entry of an operation is one the client can follow from the state the entries
      before it lead to, and only a create or an update brings content. */
  lemma BlockSettles(hash: Bytes -> string, s: Server, op: Op, rows: Index, k: nat)
    requires SoundHash(hash) && ServerOk(s) && OpOk(s, op) && Indexes(hash, rows, s)
    requires k < EntryCount(op)
    ensures Settles(hash, GoalAt(hash, s, op, rows, k), Entry(hash, s, op, k), Body(s, op, k),
                    GoalAt(hash, s, op, rows, k + 1))
    ensures BringsContent(GoalAt(hash, s, op, rows, k), Entry(hash, s, op, k)) ==> op.Create? || op.Update?
  {
    match op
    case Move(_, _, _, _) => MoveSettles(hash, s, op, rows, k);
    case Delete(_, _, _) => DeleteSettles(hash, s, op, rows, k);
    case _ => CreateSettles(hash, s, op, rows);
  }

  lemma DeletedAlong(s: Server, op: Op, q: Path)
    requires ServerOk(s) && OpOk(s, op) && op.Delete? && q in op.order
    ensures var t := After(s, op).tree; RemoveAll(t, q) == t
  {
    var t := After(s, op).tree;
    forall r | r in t
      ensures !Within(q, r)
    {
      if Within(q, r) { WithinTransitive(op.path, q, r); }
    }
  }

  /** The rows after all entries of an operation index the server after it. */
  lemma BlockEnds(hash: Bytes -> string, s: Server, op: Op, rows: Index)
    requires SoundHash(hash) && ServerOk(s) && OpOk(s, op) && Indexes(hash, rows, s)
    ensures ServerOk(After(s, op))
    ensures Indexes(hash, RowsAfter(hash, s, op, rows, EntryCount(op)), After(s, op))
  {
    AfterIsOk(s, op);
    var u := After(s, op);
    var n := EntryCount(op);
    var now := RowsAfter(hash, s, op, rows, n);
    forall r | r in u.meta
      ensures u.meta[r].id in now && now[u.meta[r].id] == RowAt(hash, r, u.tree[r], u.meta[r])
    {
      NodeIsIndexed(hash, s, op, rows, r);
    }
    forall id | id in now
      ensures now[id].path in u.meta && u.meta[now[id].path].id == id
    {
      RowIsNode(hash, s, op, rows, id);
    }
  }

  lemma NodeIsIndexed(hash: Bytes -> string, s: Server, op: Op, rows: Index, r: Path)
    requires SoundHash(hash) && ServerOk(s) && OpOk(s, op) && Indexes(hash, rows, s)
    requires ServerOk(After(s, op)) && r in After(s, op).meta
    ensures var u := After(s, op); var now := RowsAfter(hash, s, op, rows, EntryCount(op));
            u.meta[r].id in now && now[u.meta[r].id] == RowAt(hash, r, u.tree[r], u.meta[r])
  {
    match op
    case Move(_, _, _, _) => MovedNodeIsIndexed(hash, s, op, rows, r);
    case Delete(_, _, _) =>
      forall j: nat | j < EntryCount(op)
        ensures !Concerns(s, op, j, s.meta[r].id)
      {
        assert op.order[j] in op.order;
      }
      RowUntouched(hash, s, op, rows, s.meta[r].id, EntryCount(op));
    case _ =>
      if r == op.path {
        RowSettled(hash, s, op, rows, 0, 1);
      } else {
        RowUntouched(hash, s, op, rows, s.meta[r].id, 1);
      }
  }

  lemma MovedNodeIsIndexed(hash: Bytes -> string, s: Server, op: Op, rows: Index, r: Path)
    requires SoundHash(hash) && ServerOk(s) && OpOk(s, op) && Indexes(hash, rows, s)
    requires ServerOk(After(s, op)) && r in After(s, op).meta && op.Move?
    ensures var u := After(s, op); var now := RowsAfter(hash, s, op, rows, EntryCount(op));
            u.meta[r].id in now && now[u.meta[r].id] == RowAt(hash, r, u.tree[r], u.meta[r])
  {
    var u, n := After(s, op), EntryCount(op);
    if Within(op.to, r) {
      var q := Back(r, op.from, op.to);
      assert q in op.order;
      var j :| 0 <= j < n && op.order[j] == q;
      RowSettled(hash, s, op, rows, j, n);
      assert MovePath(q, op.from, op.to) == r;
    } else {
      forall j: nat | j < n
        ensures !Concerns(s, op, j, s.meta[r].id)
      {
        assert op.order[j] in op.order;
      }
      RowUntouched(hash, s, op, rows, s.meta[r].id, n);
    }
  }

  lemma RowIsNode(hash: Bytes -> string, s: Server, op: Op, rows: Index, id: NodeID)
    requires SoundHash(hash) && ServerOk(s) && OpOk(s, op) && Indexes(hash, rows, s)
    requires ServerOk(After(s, op)) && id in RowsAfter(hash, s, op, rows, EntryCount(op))
    ensures var u := After(s, op); var now := RowsAfter(hash, s, op, rows, EntryCount(op));
            now[id].path in u.meta && u.meta[now[id].path].id == id
  {
    var n := EntryCount(op);
    if j: nat :| j < n && Concerns(s, op, j, id) {
      RowSettled(hash, s, op, rows, j, n);
      if op.Move? {
        assert op.order[j] in op.order;
        MovedAlong(s, op, op.order[j]);
      }
    } else {
      RowUntouched(hash, s, op, rows, id, n);
      UntouchedStays(hash, s, op, rows, id);
    }
  }

  lemma UntouchedStays(hash: Bytes -> string, s: Server, op: Op, rows: Index, id: NodeID)
    requires ServerOk(s) && OpOk(s, op) && Indexes(hash, rows, s) && id in rows
    requires forall j: nat | j < EntryCount(op) :: !Concerns(s, op, j, id)
    ensures var u := After(s, op); rows[id].path in u.meta && u.meta[rows[id].path].id == id
  {
    var p := rows[id].path;
    assert p in s.meta && s.meta[p].id == id;
    if op.Move? || op.Delete? {
      if p in op.order {
        var j :| 0 <= j < EntryCount(op) && op.order[j] == p;
        assert Concerns(s, op, j, id);
      }
      assert !Within(if op.Move? then op.from else op.path, p);
      if op.Move? && Within(op.to, p) {
        NothingBelowAbsent(s.tree, op.to, p);
      }
    } else {
      assert !Concerns(s, op, 0, id);
    }
  }

  // ---------- histories ----------

  ghost predicate HistoryOk(s: Server, hist: seq<Op>)
    decreases |hist|
  {
    ServerOk(s) && (hist == [] || (OpOk(s, hist[0]) && HistoryOk(After(s, hist[0]), hist[1..])))
  }

  ghost function Final(s: Server, hist: seq<Op>): Server
    requires HistoryOk(s, hist)
    decreases |hist|
  {
    if hist == [] then s else Final(After(s, hist[0]), hist[1..])
  }

  ghost function BlockOf(hash: Bytes -> string, s: Server, op: Op): seq<Change>
    requires ServerOk(s) && OpOk(s, op)
  {
    seq(EntryCount(op), k requires 0 <= k < EntryCount(op) => Entry(hash, s, op, k))
  }

  ghost function Entries(hash: Bytes -> string, s: Server, hist: seq<Op>): seq<Change>
    requires HistoryOk(s, hist)
    decreases |hist|
  {
    if hist == [] then [] else BlockOf(hash, s, hist[0]) + Entries(hash, After(s, hist[0]), hist[1..])
  }

  /** For every entry of the history, the operation it comes from. */
  ghost function Causes(hist: seq<Op>): seq<Op> {
    if hist == [] then [] else seq(EntryCount(hist[0]), _ => hist[0]) + Causes(hist[1..])
  }

  ghost function Bodies(s: Server, hist: seq<Op>): seq<Bytes>
    requires HistoryOk(s, hist)
    decreases |hist|
  {
    if hist == [] then []
    else
      BodiesOf(s, hist[0]) + Bodies(After(s, hist[0]), hist[1..])
  }

  ghost function GoalsOf(hash: Bytes -> string, s: Server, op: Op, rows: Index): seq<Goal>
    requires ServerOk(s) && OpOk(s, op)
  {
    seq(EntryCount(op), k requires 0 <= k < EntryCount(op) => GoalAt(hash, s, op, rows, k))
  }

  ghost function BodiesOf(s: Server, op: Op): seq<Bytes>
    requires ServerOk(s) && OpOk(s, op)
  {
    seq(EntryCount(op), k requires 0 <= k < EntryCount(op) => Body(s, op, k))
  }

  /** The goals a client that starts from `s` and `rows` passes through. */
  ghost function Script(hash: Bytes -> string, s: Server, hist: seq<Op>, rows: Index): seq<Goal>
    requires HistoryOk(s, hist)
    decreases |hist|
  {
    if hist == [] then [Goal(s.tree, rows)]
    else
      var op := hist[0];
      GoalsOf(hash, s, op, rows) + Script(hash, After(s, op), hist[1..], RowsAfter(hash, s, op, rows, EntryCount(op)))
  }

  lemma {:induction false} ScriptShape(hash: Bytes -> string, s: Server, hist: seq<Op>, rows: Index)
    requires HistoryOk(s, hist)
    ensures |Entries(hash, s, hist)| == |Causes(hist)| == |Bodies(s, hist)|
    ensures |Script(hash, s, hist, rows)| == |Entries(hash, s, hist)| + 1
    ensures Script(hash, s, hist, rows)[0] == Goal(s.tree, rows)
    decreases |hist|
  {
    if hist != [] {
      var op := hist[0];
      ScriptShape(hash, After(s, op), hist[1..], RowsAfter(hash, s, op, rows, EntryCount(op)));
    }
  }

  lemma {:induction false} ScriptSettles(hash: Bytes -> string, s: Server, hist: seq<Op>, rows: Index, i: nat)
    requires SoundHash(hash) && HistoryOk(s, hist) && Indexes(hash, rows, s)
    requires i < |Entries(hash, s, hist)|
    ensures |Entries(hash, s, hist)| == |Causes(hist)| == |Bodies(s, hist)|
    ensures |Script(hash, s, hist, rows)| == |Entries(hash, s, hist)| + 1
    ensures Settles(hash, Script(hash, s, hist, rows)[i], Entries(hash, s, hist)[i], Bodies(s, hist)[i],
                    Script(hash, s, hist, rows)[i + 1])
    ensures BringsContent(Script(hash, s, hist, rows)[i], Entries(hash, s, hist)[i]) ==>
              Causes(hist)[i].Create? || Causes(hist)[i].Update?
    decreases |hist|
  {
    ScriptShape(hash, s, hist, rows);
    var op, n := hist[0], EntryCount(hist[0]);
    var rows' := RowsAfter(hash, s, op, rows, n);
    ScriptShape(hash, After(s, op), hist[1..], rows');
    if i < n {
      InFirstBlock(hash, s, hist, rows, i);
      BlockSettles(hash, s, op, rows, i);
    } else {
      InLaterBlock(hash, s, hist, rows, i);
      BlockEnds(hash, s, op, rows);
      ScriptSettles(hash, After(s, op), hist[1..], rows', i - n);
    }
  }

  lemma InFirstBlock(hash: Bytes -> string, s: Server, hist: seq<Op>, rows: Index, i: nat)
    requires HistoryOk(s, hist) && hist != [] && i < EntryCount(hist[0])
    ensures |Entries(hash, s, hist)| == |Causes(hist)| == |Bodies(s, hist)| > i
    ensures |Script(hash, s, hist, rows)| == |Entries(hash, s, hist)| + 1
    ensures Entries(hash, s, hist)[i] == Entry(hash, s, hist[0], i)
    ensures Causes(hist)[i] == hist[0]
    ensures Bodies(s, hist)[i] == Body(s, hist[0], i)
    ensures Script(hash, s, hist, rows)[i] == GoalAt(hash, s, hist[0], rows, i)
    ensures Script(hash, s, hist, rows)[i + 1] == GoalAt(hash, s, hist[0], rows, i + 1)
  {
    hide ServerOk, OpOk, After, RowsAfter, Entry, GoalAt, Body;
    ScriptShape(hash, s, hist, rows);
    FirstGoals(hash, s, hist, rows, i);
    FirstGoals(hash, s, hist, rows, i + 1);
    FirstEntries(hash, s, hist, i);
    ScriptShape(hash, After(s, hist[0]), hist[1..], RowsAfter(hash, s, hist[0], rows, EntryCount(hist[0])));
  }

  lemma FirstEntries(hash: Bytes -> string, s: Server, hist: seq<Op>, i: nat)
    requires HistoryOk(s, hist) && hist != [] && i < EntryCount(hist[0])
    ensures |Entries(hash, s, hist)| > i && Entries(hash, s, hist)[i] == Entry(hash, s, hist[0], i)
  {
    assert BlockOf(hash, s, hist[0])[i] == Entry(hash, s, hist[0], i);
  }

  lemma FirstGoals(hash: Bytes -> string, s: Server, hist: seq<Op>, rows: Index, i: nat)
    requires HistoryOk(s, hist) && hist != [] && i <= EntryCount(hist[0])
    ensures |Script(hash, s, hist, rows)| > i
    ensures Script(hash, s, hist, rows)[i] == GoalAt(hash, s, hist[0], rows, i)
  {
    hide ServerOk, OpOk, After, RowsAfter, Entry, Body, EntryCount, GoalsOf, Entries;
    var op, n := hist[0], EntryCount(hist[0]);
    SomeEntries(s, op);
    assert |GoalsOf(hash, s, op, rows)| == n by { GoalsOfCount(hash, s, op, rows); }
    var rest := Script(hash, After(s, op), hist[1..], RowsAfter(hash, s, op, rows, n));
    ScriptShape(hash, After(s, op), hist[1..], RowsAfter(hash, s, op, rows, n));
    if i < n {
      GoalsOfAt(hash, s, op, rows, i);
    } else {
      assert Script(hash, s, hist, rows)[i] == rest[0];
    }
  }

  lemma SomeEntries(s: Server, op: Op)
    requires OpOk(s, op)
    ensures EntryCount(op) > 0
  {
  }

  lemma GoalsOfCount(hash: Bytes -> string, s: Server, op: Op, rows: Index)
    requires ServerOk(s) && OpOk(s, op)
    ensures |GoalsOf(hash, s, op, rows)| == EntryCount(op)
  {
  }

  lemma GoalsOfAt(hash: Bytes -> string, s: Server, op: Op, rows: Index, i: nat)
    requires ServerOk(s) && OpOk(s, op) && i < EntryCount(op)
    ensures GoalsOf(hash, s, op, rows)[i] == GoalAt(hash, s, op, rows, i)
  {
  }

  lemma InLaterBlock(hash: Bytes -> string, s: Server, hist: seq<Op>, rows: Index, i: nat)
    requires HistoryOk(s, hist) && hist != [] && EntryCount(hist[0]) <= i < |Entries(hash, s, hist)|
    ensures |Entries(hash, s, hist)| == |Causes(hist)| == |Bodies(s, hist)|
    ensures |Script(hash, s, hist, rows)| == |Entries(hash, s, hist)| + 1
    ensures var n := EntryCount(hist[0]);
            var rows' := RowsAfter(hash, s, hist[0], rows, n);
            var s', hist' := After(s, hist[0]), hist[1..];
            && |Entries(hash, s', hist')| == |Causes(hist')| == |Bodies(s', hist')| > i - n
            && |Script(hash, s', hist', rows')| == |Entries(hash, s', hist')| + 1
            && Entries(hash, s, hist)[i] == Entries(hash, s', hist')[i - n]
            && Causes(hist)[i] == Causes(hist')[i - n]
            && Bodies(s, hist)[i] == Bodies(s', hist')[i - n]
            && Script(hash, s, hist, rows)[i] == Script(hash, s', hist', rows')[i - n]
            && Script(hash, s, hist, rows)[i + 1] == Script(hash, s', hist', rows')[i + 1 - n]
  {
    ScriptShape(hash, s, hist, rows);
    ScriptShape(hash, After(s, hist[0]), hist[1..], RowsAfter(hash, s, hist[0], rows, EntryCount(hist[0])));
  }

  lemma {:induction false} ScriptEnds(hash: Bytes -> string, s: Server, hist: seq<Op>, rows: Index)
    requires SoundHash(hash) && HistoryOk(s, hist) && Indexes(hash, rows, s)
    ensures |Script(hash, s, hist, rows)| == |Entries(hash, s, hist)| + 1
    ensures ServerOk(Final(s, hist))
    ensures var last := Script(hash, s, hist, rows)[|Entries(hash, s, hist)|];
            last.tree == Final(s, hist).tree && Indexes(hash, last.rows, Final(s, hist))
    decreases |hist|
  {
    ScriptShape(hash, s, hist, rows);
    if hist != [] {
      var op := hist[0];
      BlockEnds(hash, s, op, rows);
      ScriptShape(hash, After(s, op), hist[1..], RowsAfter(hash, s, op, rows, EntryCount(op)));
      ScriptEnds(hash, After(s, op), hist[1..], RowsAfter(hash, s, op, rows, EntryCount(op)));
    }
  }

  lemma {:induction false} FinalGrows(s: Server, hist: seq<Op>, more: seq<Op>)
    requires HistoryOk(s, hist + more)
    ensures HistoryOk(s, hist) && HistoryOk(Final(s, hist), more)
    ensures Final(s, hist + more) == Final(Final(s, hist), more)
    decreases |hist|
  {
    hide ServerOk, OpOk, After;
    if hist == [] {
      assert hist + more == more;
    } else {
      assert (hist + more)[0] == hist[0] && (hist + more)[1..] == hist[1..] + more;
      FinalGrows(After(s, hist[0]), hist[1..], more);
    }
  }

  /** When the history goes on, entries, contents and goals only gain at the end. */
  lemma {:induction false} EntriesGrow(hash: Bytes -> string, s: Server, hist: seq<Op>, more: seq<Op>)
    requires HistoryOk(s, hist + more)
    ensures HistoryOk(s, hist) && HistoryOk(Final(s, hist), more)
    ensures Entries(hash, s, hist + more) == Entries(hash, s, hist) + Entries(hash, Final(s, hist), more)
    decreases |hist|
  {
    hide ServerOk, OpOk, After, BlockOf;
    FinalGrows(s, hist, more);
    if hist == [] {
      assert hist + more == more;
    } else {
      assert (hist + more)[0] == hist[0] && (hist + more)[1..] == hist[1..] + more;
      EntriesGrow(hash, After(s, hist[0]), hist[1..], more);
    }
  }

  lemma {:induction false} ScriptGrows(hash: Bytes -> string, s: Server, hist: seq<Op>, more: seq<Op>, rows: Index)
    requires HistoryOk(s, hist + more)
    ensures HistoryOk(s, hist) && Script(hash, s, hist, rows) <= Script(hash, s, hist + more, rows)
    decreases |hist|
  {
    hide ServerOk, OpOk, After, RowsAfter, EntryCount, GoalsOf;
    FinalGrows(s, hist, more);
    if hist == [] {
      assert hist + more == more;
      ScriptShape(hash, s, more, rows);
    } else {
      var op, s' := hist[0], After(s, hist[0]);
      var rows' := RowsAfter(hash, s, op, rows, EntryCount(op));
      assert (hist + more)[0] == op && (hist + more)[1..] == hist[1..] + more;
      ScriptGrows(hash, s', hist[1..], more, rows');
      PrefixAfter(GoalsOf(hash, s, op, rows), Script(hash, s', hist[1..], rows'),
                  Script(hash, s', hist[1..] + more, rows'));
    }
  }

  lemma PrefixAfter<T>(a: seq<T>, b: seq<T>, c: seq<T>)
    requires b <= c
    ensures a + b <= a + c
  {
    assert (a + c)[..|a + b|] == a + b;
  }

  // ---------- numbered feeds ----------

  /** The feed carries the entries in order, under rising positive sequence numbers. */
  ghost predicate Numbers(feed: seq<Change>, entries: seq<Change>) {
    && |feed| == |entries|
    && (forall i :: 0 <= i < |feed| ==> feed[i] == entries[i].(seqNo := feed[i].seqNo) && feed[i].seqNo > 0)
    && (forall i, j :: 0 <= i < j < |feed| ==> feed[i].seqNo < feed[j].seqNo)
  }

  /** A client with this cursor has applied exactly the first `i` entries. */
  ghost predicate AppliedUpTo(feed: seq<Change>, i: nat, cursor: int) {
    && i <= |feed|
    && (forall k :: 0 <= k < i ==> feed[k].seqNo <= cursor)
    && (forall k :: i <= k < |feed| ==> feed[k].seqNo > cursor)
  }

  /** The client mirrors the server: same tree, same nodes, nothing outstanding. */
  ghost predicate InStep(hash: Bytes -> string, disk: Tree, index: Index, s: Server) {
    ServerOk(s) && Mirrors(disk, s.tree) && Indexes(hash, index, s)
  }
}
