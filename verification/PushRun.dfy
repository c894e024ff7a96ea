/** A whole push: what is known before each change of the plan, what no request on the way may
    lose, and what server and index look like at the end. */
module PushRun {
  import opened FileSystem
  import opened SyncTypes
  import opened Feed
  import opened LocalChanges
  import opened Push
  import opened PushState
  import opened Chronicle

  /** The first `k` changes have been sent; those in `conflicts` the server stored as copies. */
  ghost predicate Sent(cs: seq<LocalChange>, k: nat, done: set<Path>, conflicts: map<Path, Path>)
    requires k <= |cs|
  {
    && (forall j {:trigger cs[j]} :: 0 <= j < k ==> cs[j].relPath in conflicts || Touches(cs[j]) <= done)
    && (forall p {:trigger p in done} :: p in done ==> exists j :: 0 <= j < k && p in Touches(cs[j]))
    && (forall p {:trigger p in conflicts} :: p in conflicts ==> p !in done)
    && (forall p {:trigger p in conflicts} :: p in conflicts ==>
          exists j :: 0 <= j < k && cs[j].relPath == p && !cs[j].isDir && cs[j].op in {CreateOp, UpdateOp})
  }

  ghost predicate Setting(hash: Bytes -> string, st: Start, disk: Tree, known: map<Path, Row>, cs: seq<LocalChange>) {
    && SoundHash(hash) && StartOk(hash, st) && Closed(disk)
    && st.local == Visible(disk)
    && known.Keys == st.server.meta.Keys
    && (forall p {:trigger known[p]} :: p in known ==> known[p] == st.rows[st.server.meta[p].id])
    && IsPlan(cs, hash, disk, known) && Ordered(cs)
  }

  lemma SettingStarts(hash: Bytes -> string, st: Start, disk: Tree, known: map<Path, Row>, cs: seq<LocalChange>)
    requires Setting(hash, st, disk, known, cs)
    ensures StartOk(hash, st) && ServerOk(st.server)
  {
  }

  lemma KnownFromIndex(hash: Bytes -> string, st: Start, known: map<Path, Row>)
    requires StartOk(hash, st) && KeyedByPath(st.rows, known)
    ensures known.Keys == st.server.meta.Keys
    ensures forall p {:trigger known[p]} :: p in known ==> known[p] == st.rows[st.server.meta[p].id]
    ensures UniquePaths(st.rows)
  {
    forall p
      ensures p in known <==> p in st.server.meta
      ensures p in known ==> known[p] == st.rows[st.server.meta[p].id]
    {
      if p in known {
        var id :| id in st.rows && st.rows[id].path == p;
        assert st.server.meta[st.rows[id].path].id == id;
      }
      if p in st.server.meta {
        var id := st.server.meta[p].id;
        assert st.rows[id].path == p;
        var _ := st.rows[id];
      }
    }
  }

  /** The paths of the next change have not been dealt with. */
  lemma NextIsUndone(cs: seq<LocalChange>, k: nat, done: set<Path>, conflicts: map<Path, Path>)
    requires Apart(cs) && k < |cs| && Sent(cs, k, done, conflicts)
    ensures Touches(cs[k]) !! done
  {
  }

  lemma SentOneMore(cs: seq<LocalChange>, k: nat, done: set<Path>, conflicts: map<Path, Path>)
    requires Apart(cs) && k < |cs| && Sent(cs, k, done, conflicts)
    ensures Sent(cs, k + 1, done + Touches(cs[k]), conflicts)
  {
    forall p | p in done + Touches(cs[k])
      ensures exists j :: 0 <= j < k + 1 && p in Touches(cs[j])
    {
      if p in done {
        var j :| 0 <= j < k && p in Touches(cs[j]);
        assert j < k + 1;
      }
    }
    forall p | p in conflicts
      ensures p !in Touches(cs[k])
      ensures exists j :: 0 <= j < k + 1 && cs[j].relPath == p && !cs[j].isDir && cs[j].op in {CreateOp, UpdateOp}
    {
      var j :| 0 <= j < k && cs[j].relPath == p && !cs[j].isDir && cs[j].op in {CreateOp, UpdateOp};
      assert j < k + 1;
    }
  }

  lemma SentAsCopy(cs: seq<LocalChange>, k: nat, done: set<Path>, conflicts: map<Path, Path>, copy: Path)
    requires Apart(cs) && k < |cs| && Sent(cs, k, done, conflicts) && !cs[k].isDir && cs[k].op in {CreateOp, UpdateOp}
    ensures Sent(cs, k + 1, done, conflicts[cs[k].relPath := copy])
  {
    NextIsUndone(cs, k, done, conflicts);
    forall p | p in done
      ensures exists j :: 0 <= j < k + 1 && p in Touches(cs[j])
    {
      var j :| 0 <= j < k && p in Touches(cs[j]);
      assert j < k + 1;
    }
    var conflicts' := conflicts[cs[k].relPath := copy];
    forall p | p in conflicts'
      ensures exists j :: 0 <= j < k + 1 && cs[j].relPath == p && !cs[j].isDir && cs[j].op in {CreateOp, UpdateOp}
    {
      if p != cs[k].relPath {
        var j :| 0 <= j < k && cs[j].relPath == p && !cs[j].isDir && cs[j].op in {CreateOp, UpdateOp};
        assert j < k + 1;
      } else {
        assert cs[k].relPath == p;
      }
    }
  }

  // ---------- what each change finds ----------

  lemma DeleteFacts(hash: Bytes -> string, st: Start, disk: Tree, known: map<Path, Row>, cs: seq<LocalChange>, k: nat)
    requires Setting(hash, st, disk, known, cs) && k < |cs| && cs[k].op == DeleteOp
    ensures var p := cs[k].relPath; p != [] && p in known && p in st.server.meta && p !in st.local && p !in st.stale
  {
    assert cs[k] in cs && Justified(cs[k], hash, disk, known);
  }

  /** Whatever lies below a path gone locally is itself gone locally and not dealt with yet. */
  lemma BelowGoneIsGone(st: Start, s: Server, done: set<Path>, copies: map<Path, Bytes>, p: Path, q: Path)
    requires Closed(st.local) && p !in st.local && Within(p, q) && q != p && q in s.tree
    requires TreeIs(s.tree, Mix(st.server.tree, st.local, done), copies)
    requires CopiesOk(copies, Mix(st.server.tree, st.local, done), st.local)
    ensures q in st.server.tree && q !in done && q !in st.local && q !in copies
  {
    WithinParent(p, q);
    NothingBelowAbsent(st.local, p, q);
    if q in copies { NothingBelowAbsent(st.local, p, Parent(q)); }
  }

  /** Deletes come last and bottom-up: when one is due nothing is left below its path. */
  lemma NothingIsLeftBelow(hash: Bytes -> string, st: Start, disk: Tree, known: map<Path, Row>, cs: seq<LocalChange>,
                           k: nat, done: set<Path>, conflicts: map<Path, Path>, s: Server, index: Index,
                           copies: map<Path, Bytes>, q: Path)
    requires Setting(hash, st, disk, known, cs) && k < |cs| && Sent(cs, k, done, conflicts)
    requires Pushing(hash, st, s, index, done, copies) && cs[k].op == DeleteOp
    requires q in s.tree && Within(cs[k].relPath, q)
    ensures q == cs[k].relPath
  {
    var p := cs[k].relPath;
    DeleteFacts(hash, st, disk, known, cs, k);
    if q != p {
      BelowGoneIsGone(st, s, done, copies, p, q);
      assert q in known;
      hide Sent, Pushing, StartOk, ServerOk, Ordered, Closed, Apart;
      assert DiffAt(hash, disk, known, q).Some?;
      var c :| c in cs && q in Touches(c);
      var j :| 0 <= j < |cs| && cs[j] == c;
      GoneComesFirst(hash, disk, known, cs, j, k, q, conflicts, done);
    }
  }

  lemma GoneComesFirst(hash: Bytes -> string, disk: Tree, known: map<Path, Row>, cs: seq<LocalChange>,
                       j: nat, k: nat, q: Path, conflicts: map<Path, Path>, done: set<Path>)
    requires IsPlan(cs, hash, disk, known) && Ordered(cs) && j < |cs| && k < |cs|
    requires Sent(cs, k, done, conflicts)
    requires cs[k].relPath != []
    requires cs[k].op == DeleteOp && q in Touches(cs[j]) && Within(cs[k].relPath, q) && q != cs[k].relPath
    requires q !in Visible(disk)
    ensures q in done
  {
    assert cs[j] in cs;
    GoneIsNotCreated(hash, disk, known, cs[j], q);
    hide Justified, DiffAt, IsPlan, Visible;
    assert |q| > |cs[k].relPath|;
    assert Before(cs[j], cs[k]);
    assert j < k;
    NotAConflict(cs, k, done, conflicts, j);
  }

  lemma GoneIsNotCreated(hash: Bytes -> string, disk: Tree, known: map<Path, Row>, c: LocalChange, q: Path)
    requires Justified(c, hash, disk, known) && q in Touches(c) && q !in Visible(disk)
    ensures c.op == DeleteOp || c.op == MoveOp
    ensures c.op == DeleteOp ==> q == c.relPath
  {
  }

  /** Only files created or updated end up as conflict copies. */
  lemma NotAConflict(cs: seq<LocalChange>, k: nat, done: set<Path>, conflicts: map<Path, Path>, j: nat)
    requires Apart(cs) && j < k <= |cs| && Sent(cs, k, done, conflicts)
    requires cs[j].isDir || cs[j].op in {DeleteOp, MoveOp}
    ensures cs[j].relPath !in conflicts && Touches(cs[j]) <= done
  {
    if cs[j].relPath in conflicts {
      var i :| 0 <= i < k && cs[i].relPath == cs[j].relPath && !cs[i].isDir && cs[i].op in {CreateOp, UpdateOp};
      OneTouch(cs, i, j, cs[j].relPath);
    }
  }

  lemma OneTouch(cs: seq<LocalChange>, i: nat, j: nat, p: Path)
    requires Apart(cs) && i < |cs| && j < |cs| && p in Touches(cs[i]) && p in Touches(cs[j])
    ensures i == j
  {
  }

  lemma CreateFacts(hash: Bytes -> string, st: Start, disk: Tree, known: map<Path, Row>, cs: seq<LocalChange>, k: nat)
    requires Setting(hash, st, disk, known, cs) && k < |cs| && cs[k].op == CreateOp
    ensures var c := cs[k];
            && c.relPath != [] && c.relPath in st.local && c.relPath !in st.server.tree && c.relPath !in known
            && !Ignored(c.relPath) && c.relPath !in st.stale
            && (c.isDir <==> st.local[c.relPath] == Folder)
            && (!c.isDir ==> c.hash == hash(st.local[c.relPath].data) && c.size == |st.local[c.relPath].data|)
  {
    assert cs[k] in cs && Justified(cs[k], hash, disk, known);
  }

  lemma UpdateFacts(hash: Bytes -> string, st: Start, disk: Tree, known: map<Path, Row>, cs: seq<LocalChange>, k: nat)
    requires Setting(hash, st, disk, known, cs) && k < |cs| && cs[k].op == UpdateOp
    ensures var c := cs[k];
            && !c.isDir && c.relPath in st.local && c.relPath in st.server.meta && c.relPath in known && c.relPath != []
            && st.local[c.relPath].Regular? && c.hash == hash(st.local[c.relPath].data)
            && c.size == |st.local[c.relPath].data|
  {
    assert cs[k] in cs && Justified(cs[k], hash, disk, known);
  }

  lemma MoveFacts(hash: Bytes -> string, st: Start, disk: Tree, known: map<Path, Row>, cs: seq<LocalChange>, k: nat)
    requires Setting(hash, st, disk, known, cs) && k < |cs| && cs[k].op == MoveOp
    ensures var o, n := cs[k].oldRelPath, cs[k].relPath;
            && o != [] && o in known && o in st.server.meta && o !in st.local && o !in st.stale
            && n != [] && n in st.local && n !in st.server.tree && n !in st.stale && o != n && !Ignored(n)
            && st.local[n].Regular? && st.server.tree[o] == st.local[n]
            && known[o].hash == hash(st.local[n].data) && !known[o].isDir
  {
    var c := cs[k];
    var o, n := c.oldRelPath, c.relPath;
    assert c in cs && Justified(c, hash, disk, known);
    var size :| DiffAt(hash, disk, known, o) == Some(LocalChange(DeleteOp, o, [], false, c.hash, size));
    assert o in known && known[o] == st.rows[st.server.meta[o].id];
    assert o !in st.stale;
  }

  /** Creates go first and top-down: when a change below a local folder is due, the server has
      the folder. */
  lemma FolderIsUp(hash: Bytes -> string, st: Start, disk: Tree, known: map<Path, Row>, cs: seq<LocalChange>,
                   k: nat, done: set<Path>, conflicts: map<Path, Path>, s: Server, index: Index,
                   copies: map<Path, Bytes>, d: Path)
    requires Setting(hash, st, disk, known, cs) && k < |cs| && Sent(cs, k, done, conflicts)
    requires Pushing(hash, st, s, index, done, copies)
    requires cs[k].op != DeleteOp && cs[k].relPath != [] && Parent(cs[k].relPath) == d
    requires d in st.local && st.local[d] == Folder
    ensures d in s.tree && s.tree[d] == Folder && d !in copies
  {
    if d in st.server.tree {
      assert st.server.tree[d] == Folder by { assert st.local[d] == Folder; }
    } else {
      NewFolderIsDone(hash, disk, known, cs, k, done, conflicts, d);
    }
    InMix(st, s, done, copies, d);
  }

  lemma NewFolderIsDone(hash: Bytes -> string, disk: Tree, known: map<Path, Row>, cs: seq<LocalChange>,
                        k: nat, done: set<Path>, conflicts: map<Path, Path>, d: Path)
    requires IsPlan(cs, hash, disk, known) && Ordered(cs) && k < |cs| && Sent(cs, k, done, conflicts)
    requires cs[k].op != DeleteOp && cs[k].relPath != [] && Parent(cs[k].relPath) == d
    requires d in Visible(disk) && disk[d] == Folder && d !in known && d != []
    ensures d in done
  {
    hide Sent, Ordered, Apart, Justified, Before, Touches;
    assert DiffAt(hash, disk, known, d).Some?;
    var c :| c in cs && d in Touches(c);
    var j :| 0 <= j < |cs| && cs[j] == c;
    FolderIsCreated(hash, disk, known, c, d);
    FolderComesFirst(cs, j, k, d);
    NotAConflict(cs, k, done, conflicts, j);
    TouchesItsPath(c);
  }

  lemma TouchesItsPath(c: LocalChange)
    ensures c.relPath in Touches(c)
  {
  }

  lemma FolderComesFirst(cs: seq<LocalChange>, j: nat, k: nat, d: Path)
    requires Ordered(cs) && j < |cs| && k < |cs| && d != []
    requires cs[j].op == CreateOp && cs[j].relPath == d
    requires cs[k].op != DeleteOp && cs[k].relPath != [] && Parent(cs[k].relPath) == d
    ensures j < k
  {
    assert Before(cs[j], cs[k]);
  }

  lemma FolderIsCreated(hash: Bytes -> string, disk: Tree, known: map<Path, Row>, c: LocalChange, d: Path)
    requires Justified(c, hash, disk, known) && d in Touches(c)
    requires d in Visible(disk) && disk[d] == Folder && d !in known && d != []
    ensures c.op == CreateOp && c.isDir && c.relPath == d
  {
  }

  lemma InMix(st: Start, s: Server, done: set<Path>, copies: map<Path, Bytes>, p: Path)
    requires TreeIs(s.tree, Mix(st.server.tree, st.local, done), copies)
    requires CopiesOk(copies, Mix(st.server.tree, st.local, done), st.local)
    requires if p in done then p in st.local else p in st.server.tree
    ensures p in s.tree && p !in copies
    ensures s.tree[p] == if p in done then st.local[p] else st.server.tree[p]
  {
    assert p in Mix(st.server.tree, st.local, done);
  }

  // ---------- nothing is lost on the way ----------

  /** A move of the plan that has been sent has put the same node at the new path. */
  ghost predicate Delivered(st: Start, s: Server, done: set<Path>, cs: seq<LocalChange>) {
    forall c {:trigger c in cs} ::
        c in cs && c.op == MoveOp && c.oldRelPath in done && c.oldRelPath in st.server.meta ==>
      c.relPath in s.meta && s.meta[c.relPath].id == st.server.meta[c.oldRelPath].id
  }

  /** No file the local tree still has is missing from the server: one kept in place is there,
      the same node, with its old or its new content; one moved is there under some path, the
      same node with the same content. */
  ghost predicate Keeps(st: Start, s: Server, cs: seq<LocalChange>) {
    && (forall p {:trigger st.server.meta[p]} :: p in st.server.meta && p in st.local && st.local[p] != Folder ==>
          && p in s.meta && p in s.tree && p in st.server.tree && s.meta[p].id == st.server.meta[p].id
          && s.tree[p] in {st.server.tree[p], st.local[p]})
    && (forall c {:trigger c in cs} :: c in cs && c.op == MoveOp ==>
          c.oldRelPath in st.server.meta && c.relPath in st.local
              && SomewhereIs(s, st.server.meta[c.oldRelPath].id, st.local[c.relPath]))
  }

  ghost predicate SomewhereIs(s: Server, id: NodeID, node: Node) {
    exists q :: q in s.meta && q in s.tree && s.meta[q].id == id && s.tree[q] == node
  }

  lemma KeepsNow(hash: Bytes -> string, st: Start, disk: Tree, known: map<Path, Row>, cs: seq<LocalChange>,
                 s: Server, index: Index, done: set<Path>, copies: map<Path, Bytes>)
    requires Setting(hash, st, disk, known, cs) && Pushing(hash, st, s, index, done, copies)
    requires Delivered(st, s, done, cs)
    requires forall c :: c in cs && c.op == MoveOp && c.oldRelPath in done ==> c.relPath in done
    ensures Keeps(st, s, cs)
  {
    forall p | p in st.server.meta && p in st.local && st.local[p] != Folder
      ensures p in s.meta && p in s.tree && s.meta[p].id == st.server.meta[p].id
      ensures s.tree[p] in {st.server.tree[p], st.local[p]}
    {
      InMix(st, s, done, copies, p);
    }
    forall c | c in cs && c.op == MoveOp
      ensures c.oldRelPath in st.server.meta && c.relPath in st.local
      ensures SomewhereIs(s, st.server.meta[c.oldRelPath].id, st.local[c.relPath])
    {
      var k :| 0 <= k < |cs| && cs[k] == c;
      MoveFacts(hash, st, disk, known, cs, k);
      var q := if c.oldRelPath in done then c.relPath else c.oldRelPath;
      InMix(st, s, done, copies, q);
      assert q in s.meta && s.meta[q].id == st.server.meta[c.oldRelPath].id && s.tree[q] == st.local[c.relPath];
    }
  }

  /** Between the two requests of a move the file is on its way, but still there. */
  lemma KeepsMidway(st: Start, s: Server, s1: Server, cs: seq<LocalChange>, o: Path, t: Path)
    requires ServerOk(s) && ServerOk(s1) && Keeps(st, s, cs) && Carried(s, s1, o, t) && o !in st.local
    ensures Keeps(st, s1, cs)
  {
    forall p | p in st.server.meta && p in st.local && st.local[p] != Folder
      ensures p in s1.meta && p in s1.tree && p in st.server.tree && s1.meta[p].id == st.server.meta[p].id
      ensures s1.tree[p] in {st.server.tree[p], st.local[p]}
    {
      assert p in s.tree && p != o && p != t;
    }
    forall c | c in cs && c.op == MoveOp
      ensures SomewhereIs(s1, st.server.meta[c.oldRelPath].id, st.local[c.relPath])
    {
      var id, node := st.server.meta[c.oldRelPath].id, st.local[c.relPath];
      assert SomewhereIs(s, id, node);
      var q :| q in s.meta && q in s.tree && s.meta[q].id == id && s.tree[q] == node;
      var q' := if q == o then t else q;
      assert q' in s1.meta && q' in s1.tree && s1.meta[q'].id == id && s1.tree[q'] == node;
    }
  }

  lemma MovedPathsGoTogether(cs: seq<LocalChange>, k: nat, done: set<Path>, conflicts: map<Path, Path>)
    requires Apart(cs) && k <= |cs| && Sent(cs, k, done, conflicts)
    ensures forall c :: c in cs && c.op == MoveOp && c.oldRelPath in done ==> c.relPath in done
  {
    forall c | c in cs && c.op == MoveOp && c.oldRelPath in done
      ensures c.relPath in done
    {
      var i :| 0 <= i < |cs| && cs[i] == c;
      var j :| 0 <= j < k && c.oldRelPath in Touches(cs[j]);
      OneTouch(cs, i, j, c.oldRelPath);
      NotAConflict(cs, k, done, conflicts, j);
    }
  }

  lemma DeliveredStays(st: Start, s: Server, s': Server, done: set<Path>, done': set<Path>, cs: seq<LocalChange>)
    requires Delivered(st, s, done, cs)
    requires forall p {:trigger s'.meta[p]} {:trigger s.meta[p]} :: p in s.meta && p in st.local ==>
               p in s'.meta && s'.meta[p].id == s.meta[p].id
    requires forall c {:trigger c in cs} :: c in cs && c.op == MoveOp ==>
               c.relPath in st.local && (c.oldRelPath in done' ==> c.oldRelPath in done)
    ensures Delivered(st, s', done', cs)
  {
  }

  /** Sending a change that is not a move settles no move's old path. */
  lemma OnlyMovesSettleMoves(hash: Bytes -> string, st: Start, disk: Tree, known: map<Path, Row>, cs: seq<LocalChange>,
                             k: nat)
    requires Setting(hash, st, disk, known, cs) && k < |cs|
    ensures forall c {:trigger c in cs} :: c in cs && c.op == MoveOp ==>
              c.relPath in st.local && c.oldRelPath !in st.local
    ensures forall c {:trigger c in cs} :: c in cs && c.op == MoveOp && c != cs[k] ==> c.oldRelPath !in Touches(cs[k])
  {
    forall c | c in cs && c.op == MoveOp
      ensures c.relPath in st.local && c.oldRelPath !in st.local
      ensures c != cs[k] ==> c.oldRelPath !in Touches(cs[k])
    {
      var i :| 0 <= i < |cs| && cs[i] == c;
      MoveFacts(hash, st, disk, known, cs, i);
      if c.oldRelPath in Touches(cs[k]) { OneTouch(cs, i, k, c.oldRelPath); }
    }
  }

  // ---------- the end ----------

  /** The conflict copies are exactly those of the conflicting files, with the local bytes. */
  ghost predicate CopiesMatch(st: Start, copies: map<Path, Bytes>, conflicts: map<Path, Path>) {
    && (forall p {:trigger p in conflicts} :: p in conflicts ==>
          && p in st.local && conflicts[p] in copies && st.local[p] == Regular(copies[conflicts[p]])
          && (Outdated(st, p) || p in copies))
    && (forall q {:trigger q in copies} :: q in copies ==> exists p :: p in conflicts && conflicts[p] == q)
  }

  /** Server and index have at this path what they had when the push began. */
  ghost predicate AsBefore(st: Start, s: Server, index: Index, p: Path) {
    && p in s.meta && p in st.server.meta && s.meta[p] == st.server.meta[p]
    && p in s.tree && p in st.server.tree && s.tree[p] == st.server.tree[p]
    && s.meta[p].id in index && s.meta[p].id in st.rows && index[s.meta[p].id] == st.rows[s.meta[p].id]
  }

  /** The local file has the content the index says it had. */
  ghost predicate Unedited(hash: Bytes -> string, st: Start, p: Path) {
    && p in st.local && st.local[p].Regular? && p in st.server.meta && st.server.meta[p].id in st.rows
    && st.rows[st.server.meta[p].id].hash == hash(st.local[p].data)
  }

  /** Where a push without errors leaves a path: on the server as it is locally, or gone from
      both. But a file in conflict and a file changed by somebody else keep the server's bytes,
      version and row, and the local bytes of a file in conflict are in its copy. */
  ghost predicate EndsAt(hash: Bytes -> string, st: Start, s: Server, index: Index, conflicts: map<Path, Path>,
                         p: Path) {
    && (p in st.local && p !in conflicts && p !in st.stale ==> p in s.tree && s.tree[p] == st.local[p])
    && (p in s.tree ==> p in st.local || p in conflicts.Values)
    && (p in conflicts ==>
        && p in st.local && st.local[p] != Folder && conflicts[p] in s.tree
        && s.tree[conflicts[p]] == st.local[p])
    && (p in conflicts ==> p in s.tree && s.tree[p] != Folder && (Outdated(st, p) || p in conflicts.Values))
    && (p in conflicts.Values ==> p in s.tree && s.tree[p] != Folder)
    && (p in st.server.meta && (p in conflicts || p in st.stale) ==> AsBefore(st, s, index, p) && Outdated(st, p))
    && (p in st.stale && p !in conflicts ==> Unedited(hash, st, p))
  }

  ghost predicate Finished(hash: Bytes -> string, st: Start, s: Server, index: Index, conflicts: map<Path, Path>) {
    && ServerOk(s) && Fits(hash, index, s, conflicts.Values, st.stale)
    && (forall p {:trigger EndsAt(hash, st, s, index, conflicts, p)} :: EndsAt(hash, st, s, index, conflicts, p))
  }

  lemma PushEnds(hash: Bytes -> string, st: Start, disk: Tree, known: map<Path, Row>, cs: seq<LocalChange>,
                 s: Server, index: Index, done: set<Path>, copies: map<Path, Bytes>, conflicts: map<Path, Path>)
    requires Setting(hash, st, disk, known, cs) && Pushing(hash, st, s, index, done, copies)
    requires Sent(cs, |cs|, done, conflicts) && CopiesMatch(st, copies, conflicts)
    ensures Finished(hash, st, s, index, conflicts)
  {
    hide Setting, Pushing, Sent, CopiesMatch, EndsAt, ServerOk, Fits;
    PushingHas(hash, st, s, index, done, copies);
    CopiesAreConflicts(st, copies, conflicts);
    forall p {:trigger EndsAt(hash, st, s, index, conflicts, p)}
      ensures EndsAt(hash, st, s, index, conflicts, p)
    {
      PathEnds(hash, st, disk, known, cs, s, index, done, copies, conflicts, p);
    }
  }

  /** Every node of the server is as the push found it, or one change of the plan is about it;
      and a file that was there before is in conflict only if it was edited. */
  ghost predicate Accounted(hash: Bytes -> string, st: Start, s: Server, index: Index, conflicts: map<Path, Path>,
                            cs: seq<LocalChange>)
  {
    && (forall p {:trigger s.meta[p]} :: p in s.meta ==> AsBefore(st, s, index, p) || IsTarget(conflicts, cs, 0, p))
    && (forall p {:trigger p in conflicts} :: p in conflicts ==>
          IsConflict(cs, 0, p) && (p in st.server.meta ==> !Unedited(hash, st, p)))
  }

  ghost predicate IsConflict(cs: seq<LocalChange>, j: nat, p: Path) {
    exists i :: j <= i < |cs| && cs[i].op in {CreateOp, UpdateOp} && cs[i].relPath == p
  }

  /** From the j-th on, one of the changes ends up under `p`. */
  ghost predicate IsTarget(conflicts: map<Path, Path>, cs: seq<LocalChange>, j: nat, p: Path) {
    exists i :: j <= i < |cs| && cs[i].op != DeleteOp && Target(conflicts, cs[i]) == p
  }

  lemma PushAccounts(hash: Bytes -> string, st: Start, disk: Tree, known: map<Path, Row>, cs: seq<LocalChange>,
                     s: Server, index: Index, done: set<Path>, copies: map<Path, Bytes>, conflicts: map<Path, Path>)
    requires Setting(hash, st, disk, known, cs) && Pushing(hash, st, s, index, done, copies)
    requires Sent(cs, |cs|, done, conflicts) && CopiesMatch(st, copies, conflicts)
    ensures Accounted(hash, st, s, index, conflicts, cs)
  {
    hide Setting, Pushing, Sent, CopiesMatch, AsBefore, IsTarget, IsConflict, Unedited, ServerOk;
    PushingHas(hash, st, s, index, done, copies);
    forall p | p in s.meta
      ensures AsBefore(st, s, index, p) || IsTarget(conflicts, cs, 0, p)
    {
      NodeIsAccounted(hash, st, disk, known, cs, s, index, done, copies, conflicts, p);
    }
    forall p | p in conflicts
      ensures IsConflict(cs, 0, p) && (p in st.server.meta ==> !Unedited(hash, st, p))
    {
      ConflictIsEdited(hash, st, disk, known, cs, done, conflicts, p);
    }
  }

  lemma ConflictIsEdited(hash: Bytes -> string, st: Start, disk: Tree, known: map<Path, Row>, cs: seq<LocalChange>,
                         done: set<Path>, conflicts: map<Path, Path>, p: Path)
    requires Setting(hash, st, disk, known, cs) && Sent(cs, |cs|, done, conflicts)
    requires p in conflicts
    ensures IsConflict(cs, 0, p) && (p in st.server.meta ==> !Unedited(hash, st, p))
  {
    hide StartOk, Ordered, Closed;
    var j :| 0 <= j < |cs| && cs[j].relPath == p && !cs[j].isDir && cs[j].op in {CreateOp, UpdateOp};
    assert cs[j] in cs && Justified(cs[j], hash, disk, known);
  }

  lemma NodeIsAccounted(hash: Bytes -> string, st: Start, disk: Tree, known: map<Path, Row>, cs: seq<LocalChange>,
                        s: Server, index: Index, done: set<Path>, copies: map<Path, Bytes>, conflicts: map<Path, Path>,
                        p: Path)
    requires Setting(hash, st, disk, known, cs) && Pushing(hash, st, s, index, done, copies)
    requires Sent(cs, |cs|, done, conflicts) && CopiesMatch(st, copies, conflicts) && p in s.meta
    ensures AsBefore(st, s, index, p) || IsTarget(conflicts, cs, 0, p)
  {
    hide Setting, Pushing, CopiesMatch, StartOk, Fits, AsBefore, Mix, Touches, Apart;
    SettingStarts(hash, st, disk, known, cs);
    PushingHas(hash, st, s, index, done, copies);
    NodesAreEntries(s);
    if p in copies {
      CopyHasOwner(st, copies, conflicts, p);
      var owner :| owner in conflicts && conflicts[owner] == p;
      var j :| 0 <= j < |cs| && cs[j].relPath == owner && !cs[j].isDir && cs[j].op in {CreateOp, UpdateOp};
      assert cs[j].op != DeleteOp && Target(conflicts, cs[j]) == p;
    } else if p in done {
      LocalOrGone(st, s, done, copies, p);
      var j :| 0 <= j < |cs| && p in Touches(cs[j]);
      TouchedLocalIsTarget(hash, st, disk, known, cs, j, p);
      assert p !in conflicts;
      assert cs[j].op != DeleteOp && Target(conflicts, cs[j]) == p;
    } else {
      LocalOrGone(st, s, done, copies, p);
      NodesAreEntries(st.server);
      assert p != [];
      UntouchedStays(hash, st, s, index, done, copies, p);
    }
  }

  lemma CopyHasOwner(st: Start, copies: map<Path, Bytes>, conflicts: map<Path, Path>, q: Path)
    requires CopiesMatch(st, copies, conflicts) && q in copies
    ensures exists p :: p in conflicts && conflicts[p] == q
  {
  }

  lemma LocalOrGone(st: Start, s: Server, done: set<Path>, copies: map<Path, Bytes>, p: Path)
    requires TreeIs(s.tree, Mix(st.server.tree, st.local, done), copies) && p in s.tree && p !in copies
    ensures if p in done then p in st.local else p in st.server.tree
  {
  }

  lemma TouchedLocalIsTarget(hash: Bytes -> string, st: Start, disk: Tree, known: map<Path, Row>, cs: seq<LocalChange>,
                             j: nat, p: Path)
    requires Setting(hash, st, disk, known, cs) && j < |cs| && p in Touches(cs[j]) && p in st.local
    ensures cs[j].op != DeleteOp && cs[j].relPath == p
  {
    if cs[j].op == DeleteOp { DeleteFacts(hash, st, disk, known, cs, j); }
    if cs[j].op == MoveOp { MoveFacts(hash, st, disk, known, cs, j); }
  }

  lemma PathEnds(hash: Bytes -> string, st: Start, disk: Tree, known: map<Path, Row>, cs: seq<LocalChange>, s: Server,
                 index: Index, done: set<Path>, copies: map<Path, Bytes>, conflicts: map<Path, Path>, p: Path)
    requires Setting(hash, st, disk, known, cs) && Pushing(hash, st, s, index, done, copies)
    requires Sent(cs, |cs|, done, conflicts) && CopiesMatch(st, copies, conflicts)
    ensures EndsAt(hash, st, s, index, conflicts, p)
  {
    hide Setting, Pushing, Sent, CopiesMatch, StartOk, ServerOk, Fits, AsBefore, Outdated, Unedited, Mix, TreeIs;
    SettingStarts(hash, st, disk, known, cs);
    PushingHas(hash, st, s, index, done, copies);
    CopiesAreConflicts(st, copies, conflicts);
    CopyIsUp(s, Mix(st.server.tree, st.local, done), copies, p);
    if p in st.local && p !in conflicts && p !in st.stale {
      LocalIsUp(hash, st, disk, known, cs, s, index, done, copies, conflicts, p);
    }
    if p !in st.local && p !in copies {
      GoneIsGone(hash, st, disk, known, cs, s, index, done, copies, conflicts, p);
    }
    if p in conflicts {
      ConflictEnds(hash, st, disk, known, cs, s, index, done, copies, conflicts, p);
    }
    if p in st.server.meta && (p in conflicts || p in st.stale) {
      if p in conflicts { ConflictIsUndone(cs, |cs|, done, conflicts, p); }
      OldOnesAreOutdated(hash, st, s, index, done, copies, conflicts, p);
      UntouchedStays(hash, st, s, index, done, copies, p);
    }
    if p in st.stale && p !in conflicts {
      UnsentIsUnedited(hash, st, disk, known, cs, s, index, done, copies, conflicts, p);
    }
  }

  lemma ConflictIsUndone(cs: seq<LocalChange>, k: nat, done: set<Path>, conflicts: map<Path, Path>, p: Path)
    requires k <= |cs| && Sent(cs, k, done, conflicts) && p in conflicts
    ensures p !in done
  {
  }

  lemma ConflictEnds(hash: Bytes -> string, st: Start, disk: Tree, known: map<Path, Row>, cs: seq<LocalChange>,
                     s: Server, index: Index, done: set<Path>, copies: map<Path, Bytes>, conflicts: map<Path, Path>,
                     p: Path)
    requires Setting(hash, st, disk, known, cs) && Pushing(hash, st, s, index, done, copies)
    requires Sent(cs, |cs|, done, conflicts) && CopiesMatch(st, copies, conflicts) && p in conflicts
    ensures p in st.local && st.local[p] != Folder && conflicts[p] in s.tree && s.tree[conflicts[p]] == st.local[p]
    ensures p in s.tree && s.tree[p] != Folder && (Outdated(st, p) || p in copies)
  {
    CopyIsUp(s, Mix(st.server.tree, st.local, done), copies, conflicts[p]);
    if p !in copies {
      InMix(st, s, done, copies, p);
      var _ := st.local[p];
    }
  }

  lemma UnsentIsUnedited(hash: Bytes -> string, st: Start, disk: Tree, known: map<Path, Row>, cs: seq<LocalChange>,
                         s: Server, index: Index, done: set<Path>, copies: map<Path, Bytes>, conflicts: map<Path, Path>,
                         p: Path)
    requires Setting(hash, st, disk, known, cs) && Pushing(hash, st, s, index, done, copies)
    requires Sent(cs, |cs|, done, conflicts) && p in st.stale && p !in conflicts
    ensures Unedited(hash, st, p)
  {
    if DiffAt(hash, disk, known, p).Some? {
      var c :| c in cs && p in Touches(c);
      TouchedIsDone(cs, done, conflicts, c, p);
    }
    assert p in known && known[p] == st.rows[st.server.meta[p].id];
  }

  lemma OldOnesAreOutdated(hash: Bytes -> string, st: Start, s: Server, index: Index, done: set<Path>,
                           copies: map<Path, Bytes>, conflicts: map<Path, Path>, p: Path)
    requires StartOk(hash, st) && Pushing(hash, st, s, index, done, copies) && CopiesMatch(st, copies, conflicts)
    requires p in st.server.meta && p !in done && (p in conflicts || p in st.stale)
    ensures Outdated(st, p)
  {
    if p in conflicts && p !in st.stale { InMix(st, s, done, copies, p); }
  }

  lemma UntouchedStays(hash: Bytes -> string, st: Start, s: Server, index: Index, done: set<Path>,
                       copies: map<Path, Bytes>, p: Path)
    requires StartOk(hash, st) && Pushing(hash, st, s, index, done, copies) && p in st.server.meta && p !in done
    ensures AsBefore(st, s, index, p)
  {
    InMix(st, s, done, copies, p);
  }

  lemma PushingHas(hash: Bytes -> string, st: Start, s: Server, index: Index, done: set<Path>, copies: map<Path, Bytes>)
    requires Pushing(hash, st, s, index, done, copies)
    ensures ServerOk(s) && done !! st.stale && Fits(hash, index, s, copies.Keys, st.stale)
    ensures TreeIs(s.tree, Mix(st.server.tree, st.local, done), copies)
  {
  }

  lemma CopiesAreConflicts(st: Start, copies: map<Path, Bytes>, conflicts: map<Path, Path>)
    requires CopiesMatch(st, copies, conflicts)
    ensures copies.Keys == conflicts.Values
    ensures forall p {:trigger p in conflicts} :: p in conflicts ==>
              p in st.local && conflicts[p] in copies && st.local[p] == Regular(copies[conflicts[p]])
  {
  }

  lemma CopyIsUp(s: Server, mix: Tree, copies: map<Path, Bytes>, q: Path)
    requires TreeIs(s.tree, mix, copies)
    ensures q in copies ==> q in s.tree && s.tree[q] == Regular(copies[q])
  {
  }

  lemma TouchedIsDone(cs: seq<LocalChange>, done: set<Path>, conflicts: map<Path, Path>, c: LocalChange, p: Path)
    requires Apart(cs) && Sent(cs, |cs|, done, conflicts) && c in cs && p in Touches(c)
    requires p !in conflicts || c.op in {MoveOp, DeleteOp}
    requires c.op == MoveOp || c.relPath == p
    ensures p in done
  {
    var j :| 0 <= j < |cs| && cs[j] == c;
    if c.op in {MoveOp, DeleteOp} {
      NotAConflict(cs, |cs|, done, conflicts, j);
    }
  }

  lemma LocalIsUp(hash: Bytes -> string, st: Start, disk: Tree, known: map<Path, Row>, cs: seq<LocalChange>, s: Server,
                  index: Index, done: set<Path>, copies: map<Path, Bytes>, conflicts: map<Path, Path>, p: Path)
    requires Setting(hash, st, disk, known, cs) && Pushing(hash, st, s, index, done, copies)
    requires Sent(cs, |cs|, done, conflicts)
    requires p in st.local && p !in conflicts && p !in st.stale
    ensures p in s.tree && s.tree[p] == st.local[p]
  {
    if DiffAt(hash, disk, known, p).Some? {
      var c :| c in cs && p in Touches(c);
      TouchedIsDone(cs, done, conflicts, c, p);
    } else {
      UnreportedIsSame(hash, st, disk, known, cs, p);
    }
    InMix(st, s, done, copies, p);
  }

  lemma UnreportedIsSame(hash: Bytes -> string, st: Start, disk: Tree, known: map<Path, Row>, cs: seq<LocalChange>,
                         p: Path)
    requires Setting(hash, st, disk, known, cs)
    requires p in st.local && p !in st.stale && DiffAt(hash, disk, known, p) == None
    ensures p in st.server.tree && st.server.tree[p] == st.local[p]
  {
    if p != [] {
      assert p in known && known[p] == st.rows[st.server.meta[p].id];
      assert st.server.tree[p] == Folder <==> st.local[p] == Folder;
    }
  }

  lemma GoneIsGone(hash: Bytes -> string, st: Start, disk: Tree, known: map<Path, Row>, cs: seq<LocalChange>, s: Server,
                   index: Index, done: set<Path>, copies: map<Path, Bytes>, conflicts: map<Path, Path>, p: Path)
    requires Setting(hash, st, disk, known, cs) && Pushing(hash, st, s, index, done, copies)
    requires Sent(cs, |cs|, done, conflicts)
    requires p !in st.local && p !in copies
    ensures p !in s.tree
  {
    if p in s.tree {
      assert p in Mix(st.server.tree, st.local, done);
      assert p != [] && p in known;
      assert DiffAt(hash, disk, known, p).Some?;
      var c :| c in cs && p in Touches(c);
      GoneIsNotCreated(hash, disk, known, c, p);
      TouchedIsDone(cs, done, conflicts, c, p);
    }
  }

  lemma IndexAgrees(hash: Bytes -> string, s: Server, index: Index, disk: Tree, known: map<Path, Row>)
    requires ServerOk(s) && Fits(hash, index, s, {}, {}) && KeyedByPath(index, known) && s.tree == Visible(disk)
    ensures Agree(hash, disk, known)
  {
    forall p
      ensures p in known <==> p in s.tree && p != []
      ensures p in known && s.tree[p].Regular? ==> known[p].hash == hash(s.tree[p].data)
    {
      if p in known {
        var id :| id in index && index[id].path == p;
        assert s.meta[index[id].path].id == id;
      }
      if p in s.meta {
        assert index[s.meta[p].id].path == p;
        var _ := index[s.meta[p].id];
      }
    }
  }

  /** Without conflicts and without changes by others the push leaves the server's tree equal
      to the local tree, and a scan straight after it finds nothing. */
  lemma QuietPushAgrees(hash: Bytes -> string, st: Start, s: Server, index: Index, disk: Tree, known: map<Path, Row>)
    requires StartOk(hash, st) && Finished(hash, st, s, index, map[]) && st.stale == {}
    requires st.local == Visible(disk) && KeyedByPath(index, known)
    ensures s.tree == st.local
    ensures Agree(hash, disk, known)
    ensures forall changes :: Reports(changes, hash, disk, known) ==> changes == []
  {
    forall p
      ensures p in s.tree <==> p in st.local
      ensures p in s.tree ==> s.tree[p] == st.local[p]
    {
      assert EndsAt(hash, st, s, index, map[], p);
    }
    IndexAgrees(hash, s, index, disk, known);
    forall changes | Reports(changes, hash, disk, known)
      ensures changes == []
    {
      EmptyReportMeansAgreement(hash, disk, known, changes);
    }
  }

  // ---------- what the index has of the changes sent ----------

  /** The row of a created or updated path is that of the server's node, version included. That of
      a moved file is its old row under the new path: the server may have counted the version up. */
  ghost predicate EnteredAt(hash: Bytes -> string, st: Start, s: Server, index: Index, c: LocalChange) {
    var p := c.relPath;
    match c.op
    case DeleteOp => true
    case MoveOp =>
      && c.oldRelPath in st.server.meta && p in s.meta && p in s.tree
      && s.meta[p].id == st.server.meta[c.oldRelPath].id && s.meta[p].id in st.rows && s.meta[p].id in index
      && index[s.meta[p].id] == st.rows[s.meta[p].id].(path := p)
    case _ =>
      && p in s.meta && p in s.tree && s.meta[p].id in index
      && index[s.meta[p].id] == RowAt(hash, p, s.tree[p], s.meta[p])
  }

  ghost predicate Entered(hash: Bytes -> string, st: Start, s: Server, index: Index, conflicts: map<Path, Path>,
                          cs: seq<LocalChange>, k: nat)
    requires k <= |cs|
  {
    forall j {:trigger EnteredAt(hash, st, s, index, cs[j])} :: 0 <= j < k && cs[j].relPath !in conflicts ==>
        EnteredAt(hash, st, s, index, cs[j])
  }

  /** A request that leaves a path alone and an entry under another node's id. */
  lemma EnteredStays(hash: Bytes -> string, st: Start, s: Server, s': Server, index: Index, index': Index, x: NodeID,
                     gone: set<Path>, c: LocalChange)
    requires EnteredAt(hash, st, s, index, c) && Unmoved(s, s', gone) && c.relPath !in gone
    requires index' == index || (index' - {x} == index - {x} && (c.relPath in s.meta ==> s.meta[c.relPath].id != x))
    ensures EnteredAt(hash, st, s', index', c)
  {
    var p := c.relPath;
    if c.op != DeleteOp && index' != index {
      assert s.meta[p].id in index - {x} && (index - {x})[s.meta[p].id] == index[s.meta[p].id];
      assert s.meta[p].id in index' && index'[s.meta[p].id] == (index' - {x})[s.meta[p].id];
    }
  }

  /** The id belongs to a node of the change's own, or to none so far. */
  ghost predicate OwnID(s: Server, c: LocalChange, x: NodeID) {
    forall p {:trigger s.meta[p]} :: p in s.meta && s.meta[p].id == x ==> p in Touches(c)
  }

  lemma EnteredOn(hash: Bytes -> string, st: Start, s: Server, s': Server, index: Index, index': Index, x: NodeID,
                  gone: set<Path>, conflicts: map<Path, Path>, conflicts': map<Path, Path>, cs: seq<LocalChange>,
                  k: nat)
    requires k < |cs| && Apart(cs) && Entered(hash, st, s, index, conflicts, cs, k)
    requires Unmoved(s, s', gone) && gone <= Touches(cs[k])
    requires index' == index || (index' - {x} == index - {x} && OwnID(s, cs[k], x))
    requires forall p {:trigger p in conflicts} :: p in conflicts ==> p in conflicts'
    requires cs[k].relPath in conflicts' || EnteredAt(hash, st, s', index', cs[k])
    ensures Entered(hash, st, s', index', conflicts', cs, k + 1)
  {
    hide EnteredAt, Unmoved, Touches;
    forall j {:trigger EnteredAt(hash, st, s', index', cs[j])} | 0 <= j < k && cs[j].relPath !in conflicts'
      ensures EnteredAt(hash, st, s', index', cs[j])
    {
      TouchesItsPath(cs[j]);
      assert Touches(cs[j]) !! Touches(cs[k]);
      assert EnteredAt(hash, st, s, index, cs[j]);
      EnteredStays(hash, st, s, s', index, index', x, gone, cs[j]);
    }
  }

  // ---------- one change after the other ----------

  /** Everything that is followed through a push: the plan, how far it is, what has been
      settled, stored as a copy, and reported as a conflict, and the feed's entries about it. */
  datatype Track = Track(st: Start, known: map<Path, Row>, cs: seq<LocalChange>, k: nat, done: set<Path>,
                         copies: map<Path, Bytes>, conflicts: map<Path, Path>, told: seq<seq<Change>>)

  ghost predicate OnTrack(hash: Bytes -> string, disk: Tree, t: Track, s: Server, index: Index) {
    && Setting(hash, t.st, disk, t.known, t.cs) && t.k <= |t.cs|
    && Sent(t.cs, t.k, t.done, t.conflicts)
    && Pushing(hash, t.st, s, index, t.done, t.copies)
    && CopiesMatch(t.st, t.copies, t.conflicts)
    && Delivered(t.st, s, t.done, t.cs)
    && |t.told| == t.k && Chronicled(hash, t.st, s, t.conflicts, t.cs, t.told)
    && Entered(hash, t.st, s, index, t.conflicts, t.cs, t.k)
  }

  function Settled(t: Track, seg: seq<Change>): Track
    requires t.k < |t.cs|
  {
    t.(k := t.k + 1, done := t.done + Touches(t.cs[t.k]), told := t.told + [seg])
  }

  function Copied(t: Track, copy: Path, data: Bytes, seg: seq<Change>): Track
    requires t.k < |t.cs|
  {
    t.(k := t.k + 1, copies := t.copies[copy := data], conflicts := t.conflicts[t.cs[t.k].relPath := copy],
       told := t.told + [seg])
  }

  lemma OnTrackKeeps(hash: Bytes -> string, disk: Tree, t: Track, s: Server, index: Index)
    requires OnTrack(hash, disk, t, s, index)
    ensures Keeps(t.st, s, t.cs)
  {
    MovedPathsGoTogether(t.cs, t.k, t.done, t.conflicts);
    KeepsNow(hash, t.st, disk, t.known, t.cs, s, index, t.done, t.copies);
  }

  lemma TrackFacts(hash: Bytes -> string, disk: Tree, t: Track, s: Server, index: Index)
    requires OnTrack(hash, disk, t, s, index)
    ensures ServerOk(t.st.server) && ServerOk(s) && Apart(t.cs)
  {
  }

  /** At a path that is new and not yet sent the server has at most a conflict copy. */
  lemma NewPathIsFree(hash: Bytes -> string, disk: Tree, t: Track, s: Server, index: Index, p: Path)
    requires OnTrack(hash, disk, t, s, index) && p !in t.st.server.tree && p !in t.done
    ensures p in s.tree ==> s.tree[p] != Folder && p in t.copies
  {
    assert p !in Mix(t.st.server.tree, t.st.local, t.done);
  }

  /** At a path the server had and that is not dealt with it has what it had. */
  lemma OldPathIsThere(hash: Bytes -> string, disk: Tree, t: Track, s: Server, index: Index, p: Path)
    requires OnTrack(hash, disk, t, s, index) && p in t.st.server.meta && p !in t.done
    ensures p in s.tree && p in s.meta && s.meta[p] == t.st.server.meta[p] && p !in t.copies
    ensures p in t.st.server.tree && s.tree[p] == t.st.server.tree[p]
    ensures s.meta[p].id in index && s.meta[p].id in t.st.rows && index[s.meta[p].id] == t.st.rows[s.meta[p].id]
  {
    InMix(t.st, s, t.done, t.copies, p);
  }

  lemma CreateKeepsNodes(s: Server, op: Op)
    requires ServerOk(s) && OpOk(s, op) && (op.Create? || op.Update?)
    ensures forall p {:trigger After(s, op).meta[p]} {:trigger s.meta[p]} :: p in s.meta ==>
              p in After(s, op).meta && After(s, op).meta[p].id == s.meta[p].id
  {
  }

  lemma StillDelivered(hash: Bytes -> string, disk: Tree, t: Track, s: Server, index: Index, s': Server,
                       done': set<Path>)
    requires OnTrack(hash, disk, t, s, index) && t.k < |t.cs| && t.cs[t.k].op != MoveOp
    requires done' <= t.done + Touches(t.cs[t.k])
    requires forall p {:trigger s'.meta[p]} {:trigger s.meta[p]} :: p in s.meta && p in t.st.local ==>
               p in s'.meta && s'.meta[p].id == s.meta[p].id
    ensures Delivered(t.st, s', done', t.cs)
  {
    OnlyMovesSettleMoves(hash, t.st, disk, t.known, t.cs, t.k);
    hide Setting, Pushing, Sent, CopiesMatch, Chronicled, Entered;
    DeliveredStays(t.st, s, s', t.done, done', t.cs);
  }

  /** The entries of the change sent join those told so far. */
  lemma ToldOn(hash: Bytes -> string, disk: Tree, t: Track, s: Server, index: Index, s': Server,
               conflicts': map<Path, Path>, gone: set<Path>, seg: seq<Change>)
    requires OnTrack(hash, disk, t, s, index) && t.k < |t.cs|
    requires Allows(t.st, s, s', t.conflicts, conflicts', t.cs, t.k, gone)
    requires Tells(hash, t.st, s', conflicts', t.cs, t.k, seg)
    ensures Chronicled(hash, t.st, s', conflicts', t.cs, t.told + [seg])
  {
    hide Pushing, Sent, Delivered, CopiesMatch, Chronicled, Entered, StartOk, Allows, Tells;
    StillChronicled(hash, t.st, s, s', t.conflicts, conflicts', t.cs, t.told, gone, seg);
  }

  lemma CopiesAreThere(hash: Bytes -> string, disk: Tree, t: Track, s: Server, index: Index)
    requires OnTrack(hash, disk, t, s, index)
    ensures t.copies.Keys == t.conflicts.Values
    ensures forall q {:trigger q in t.conflicts.Values} :: q in t.conflicts.Values ==> q in s.tree
  {
    hide Setting, Sent, Delivered, Chronicled, Entered, Waiting, SameNodes, Fits, CopiesOk;
    CopiesAreConflicts(t.st, t.copies, t.conflicts);
  }

  lemma CreateTold(hash: Bytes -> string, disk: Tree, t: Track, s: Server, index: Index, op: Op)
    requires OnTrack(hash, disk, t, s, index) && t.k < |t.cs| && t.cs[t.k].op == CreateOp
    requires ServerOk(s) && op.Create? && OpOk(s, op) && op.path == t.cs[t.k].relPath
    ensures Chronicled(hash, t.st, After(s, op), t.conflicts, t.cs, t.told + [BlockOf(hash, s, op)])
  {
    hide Setting, Pushing, Sent, Delivered, CopiesMatch, Chronicled, Entered, ServerOk, OpOk, After, BlockOf, Shows,
         Unmoved;
    TrackFacts(hash, disk, t, s, index);
    CreateFacts(hash, t.st, disk, t.known, t.cs, t.k);
    FirstConflict(t.cs, t.k, t.done, t.conflicts);
    CopiesAreThere(hash, disk, t, s, index);
    CreateShows(hash, s, op);
    CreateLeaves(s, op);
    ToldOn(hash, disk, t, s, index, After(s, op), t.conflicts, {}, BlockOf(hash, s, op));
  }

  /** The path a change takes its node from is no copy's, and no conflict has been stored for it. */
  lemma OldIsNoCopy(hash: Bytes -> string, disk: Tree, t: Track, s: Server, index: Index, p: Path)
    requires OnTrack(hash, disk, t, s, index) && t.k < |t.cs| && p in Touches(t.cs[t.k]) && p in t.st.server.meta
    ensures p !in t.conflicts.Values && t.cs[t.k].relPath !in t.conflicts
  {
    hide Setting, Pushing, Sent, Delivered, CopiesMatch, Chronicled, Entered, ServerOk, Touches;
    TrackFacts(hash, disk, t, s, index);
    NextIsUndone(t.cs, t.k, t.done, t.conflicts);
    FirstConflict(t.cs, t.k, t.done, t.conflicts);
    OldPathIsThere(hash, disk, t, s, index, p);
    CopiesAreThere(hash, disk, t, s, index);
  }

  lemma AllowsLeaving(st: Start, s: Server, s': Server, conflicts: map<Path, Path>, cs: seq<LocalChange>, k: nat,
                      p: Path)
    requires k < |cs| && p in Touches(cs[k]) && p !in conflicts.Values && Unmoved(s, s', {p})
    requires cs[k].op == DeleteOp ==> NothingNew(s, s')
    ensures Allows(st, s, s', conflicts, conflicts, cs, k, {p})
  {
    hide Unmoved, NothingNew, Touches;
  }

  lemma UpdateTold(hash: Bytes -> string, disk: Tree, t: Track, s: Server, index: Index, op: Op)
    requires OnTrack(hash, disk, t, s, index) && t.k < |t.cs| && t.cs[t.k].op == UpdateOp
    requires ServerOk(s) && op.Update? && OpOk(s, op) && op.path == t.cs[t.k].relPath && op.path !in t.st.stale
    ensures Chronicled(hash, t.st, After(s, op), t.conflicts, t.cs, t.told + [BlockOf(hash, s, op)])
  {
    hide OnTrack, Allows, ServerOk, OpOk, After, BlockOf, Shows, Unmoved, Chronicled, Entered, Touches;
    TouchesItsPath(t.cs[t.k]);
    NextUpdate(hash, disk, t, s, index);
    OldIsNoCopy(hash, disk, t, s, index, op.path);
    CreateShows(hash, s, op);
    CreateLeaves(s, op);
    AllowsLeaving(t.st, s, After(s, op), t.conflicts, t.cs, t.k, op.path);
    ToldOn(hash, disk, t, s, index, After(s, op), t.conflicts, {op.path}, BlockOf(hash, s, op));
  }

  lemma NextUpdate(hash: Bytes -> string, disk: Tree, t: Track, s: Server, index: Index)
    requires OnTrack(hash, disk, t, s, index) && t.k < |t.cs| && t.cs[t.k].op == UpdateOp
    ensures t.cs[t.k].relPath in t.st.local && t.cs[t.k].relPath in t.st.server.meta
  {
    hide Setting, Pushing, Sent, Delivered, CopiesMatch, Chronicled, Entered;
    UpdateFacts(hash, t.st, disk, t.known, t.cs, t.k);
  }

  lemma NextDelete(hash: Bytes -> string, disk: Tree, t: Track, s: Server, index: Index)
    requires OnTrack(hash, disk, t, s, index) && t.k < |t.cs| && t.cs[t.k].op == DeleteOp
    ensures t.cs[t.k].relPath in t.st.server.meta
  {
    hide Setting, Pushing, Sent, Delivered, CopiesMatch, Chronicled, Entered;
    DeleteFacts(hash, t.st, disk, t.known, t.cs, t.k);
  }

  lemma NextMove(hash: Bytes -> string, disk: Tree, t: Track, s: Server, index: Index)
    requires OnTrack(hash, disk, t, s, index) && t.k < |t.cs| && t.cs[t.k].op == MoveOp
    ensures var o, n := t.cs[t.k].oldRelPath, t.cs[t.k].relPath;
            && o in t.st.server.meta && n in t.st.local && t.st.local[n].Regular? && n !in t.st.stale
            && o in Touches(t.cs[t.k])
  {
    hide Setting, Pushing, Sent, Delivered, CopiesMatch, Chronicled, Entered;
    MoveFacts(hash, t.st, disk, t.known, t.cs, t.k);
  }

  lemma CopyTold(hash: Bytes -> string, disk: Tree, t: Track, s: Server, index: Index, op: Op)
    requires OnTrack(hash, disk, t, s, index) && t.k < |t.cs| && t.cs[t.k].op in {CreateOp, UpdateOp}
    requires ServerOk(s) && op.Create? && OpOk(s, op)
    ensures var p := t.cs[t.k].relPath;
            Chronicled(hash, t.st, After(s, op), t.conflicts[p := op.path], t.cs, t.told + [BlockOf(hash, s, op)])
  {
    hide OnTrack, ServerOk, OpOk, After, BlockOf, Shows, Unmoved, Chronicled, Entered, Injective;
    var p := t.cs[t.k].relPath;
    NextIsNew(hash, disk, t, s, index);
    CopiesAreThere(hash, disk, t, s, index);
    CreateShows(hash, s, op);
    CreateLeaves(s, op);
    StillInjective(t.conflicts, p, op.path);
    ToldOn(hash, disk, t, s, index, After(s, op), t.conflicts[p := op.path], {}, BlockOf(hash, s, op));
  }

  lemma NextIsNew(hash: Bytes -> string, disk: Tree, t: Track, s: Server, index: Index)
    requires OnTrack(hash, disk, t, s, index) && t.k < |t.cs| && t.cs[t.k].op in {CreateOp, UpdateOp}
    ensures t.cs[t.k].relPath in t.st.local && t.cs[t.k].relPath !in t.conflicts
  {
    hide Setting, Pushing, Sent, Delivered, CopiesMatch, Chronicled, Entered, ServerOk;
    TrackFacts(hash, disk, t, s, index);
    ChangedIsLocal(hash, disk, t);
    FirstConflict(t.cs, t.k, t.done, t.conflicts);
  }

  /** What the requests of a move put into the feed. */
  ghost predicate MoveTold(hash: Bytes -> string, s: Server, s': Server, c: LocalChange, seg: seq<Change>) {
    match Detour(c)
    case None => |seg| == 1 && Shows(hash, s', seg[0], c.relPath)
    case Some(h) => |seg| == 2 && Passes(seg[0], seg[1], h) && Shows(hash, s', seg[1], c.relPath) && h !in s.tree
  }

  lemma MoveIsTold(hash: Bytes -> string, disk: Tree, t: Track, s: Server, index: Index, s': Server, seg: seq<Change>)
    requires OnTrack(hash, disk, t, s, index) && t.k < |t.cs| && t.cs[t.k].op == MoveOp
    requires ServerOk(s) && ServerOk(s') && Carried(s, s', t.cs[t.k].oldRelPath, t.cs[t.k].relPath)
    requires MoveTold(hash, s, s', t.cs[t.k], seg)
    ensures Chronicled(hash, t.st, s', t.conflicts, t.cs, t.told + [seg])
  {
    var o, n := t.cs[t.k].oldRelPath, t.cs[t.k].relPath;
    hide OnTrack, Allows, ServerOk, Shows, Passes, Unmoved, LaterTarget, Carried, Detour, Chronicled, Entered, Touches,
         MoveTold, Tells;
    NextMove(hash, disk, t, s, index);
    OldIsNoCopy(hash, disk, t, s, index, o);
    CopiesAreThere(hash, disk, t, s, index);
    CarriedLeaves(s, s', o, n);
    AllowsLeaving(t.st, s, s', t.conflicts, t.cs, t.k, o);
    if Detour(t.cs[t.k]).Some? {
      WayWasFree(hash, s, s', t.cs[t.k], seg);
      WayIsLater(hash, disk, t, s, index, Detour(t.cs[t.k]).value);
    }
    MoveTells(hash, t.st, s, s', t.conflicts, t.cs, t.k, seg);
    ToldOn(hash, disk, t, s, index, s', t.conflicts, {o}, seg);
  }

  lemma WayWasFree(hash: Bytes -> string, s: Server, s': Server, c: LocalChange, seg: seq<Change>)
    requires MoveTold(hash, s, s', c, seg) && Detour(c).Some?
    ensures Detour(c).value !in s.tree
  {
  }

  /** A local file at a path that is free on the server, when moves are due, is the target of a
      move still to come. */
  lemma WayIsLater(hash: Bytes -> string, disk: Tree, t: Track, s: Server, index: Index, h: Path)
    requires OnTrack(hash, disk, t, s, index) && t.k < |t.cs| && t.cs[t.k].op == MoveOp
    requires Detour(t.cs[t.k]) == Some(h) && h !in s.tree
    ensures LaterTarget(t.st, t.cs, t.k, h)
  {
    if h in t.st.local {
      hide Setting, Pushing, Sent, Delivered, CopiesMatch, Chronicled, Entered, ServerOk, Touches;
      FreeIsUndone(hash, disk, t, s, index, h);
      var i := ChangeOf(hash, disk, t, h);
      CopiesAreThere(hash, disk, t, s, index);
      assert i >= t.k by {
        if i < t.k {
          SentIsSettled(t.cs, t.k, t.done, t.conflicts, i, h);
          ConflictIsCopy(hash, disk, t, s, index, h);
        }
      }
      LaterIsMove(hash, disk, t, i);
      NotItsOwnWay(t.cs[t.k]);
    }
  }

  /** A local path free on the server is one the server never had and the push has not reached. */
  lemma FreeIsUndone(hash: Bytes -> string, disk: Tree, t: Track, s: Server, index: Index, h: Path)
    requires OnTrack(hash, disk, t, s, index) && h in t.st.local && h !in s.tree
    ensures h !in t.done && h !in t.st.server.tree
  {
    hide Setting, Sent, Delivered, CopiesMatch, Chronicled, Entered, Waiting, SameNodes, Fits, ServerOk;
    if h in t.done || h in t.st.server.tree { InMix(t.st, s, t.done, t.copies, h); }
  }

  lemma ChangeOf(hash: Bytes -> string, disk: Tree, t: Track, h: Path) returns (i: nat)
    requires Setting(hash, t.st, disk, t.known, t.cs) && h in t.st.local && h !in t.st.server.tree
    ensures i < |t.cs| && t.cs[i].relPath == h && t.cs[i].op in {CreateOp, MoveOp}
  {
    assert h != [] && h !in t.known;
    assert DiffAt(hash, disk, t.known, h).Some?;
    var c :| c in t.cs && h in Touches(c);
    i :| 0 <= i < |t.cs| && t.cs[i] == c;
    LocalIsNotGone(hash, disk, t, c, h);
  }

  lemma SentIsSettled(cs: seq<LocalChange>, k: nat, done: set<Path>, conflicts: map<Path, Path>, i: nat, h: Path)
    requires i < k <= |cs| && Sent(cs, k, done, conflicts) && cs[i].relPath == h && h !in done
    ensures h in conflicts
  {
    assert cs[i].relPath in Touches(cs[i]);
  }

  lemma NotItsOwnWay(c: LocalChange)
    requires Detour(c).Some?
    ensures Detour(c).value != c.relPath
  {
    RejoinParent(c.relPath);
    assert Base(Parent(c.relPath) + [Base(c.oldRelPath)]) == Base(c.oldRelPath);
  }

  lemma ConflictIsCopy(hash: Bytes -> string, disk: Tree, t: Track, s: Server, index: Index, h: Path)
    requires OnTrack(hash, disk, t, s, index) && h in t.conflicts && h !in t.st.server.tree
    ensures h in t.copies
  {
    hide Pushing, Sent, Delivered, Chronicled, Entered, Setting;
    TrackFacts(hash, disk, t, s, index);
    NodesAreEntries(t.st.server);
  }

  lemma CreateLeaves(s: Server, op: Op)
    requires ServerOk(s) && OpOk(s, op) && (op.Create? || op.Update?)
    ensures op.Create? ==> Unmoved(s, After(s, op), {}) && op.path !in s.tree
    ensures Unmoved(s, After(s, op), {op.path})
  {
  }

  lemma MoveTells(hash: Bytes -> string, st: Start, s: Server, s': Server, conflicts: map<Path, Path>,
                  cs: seq<LocalChange>, k: nat, seg: seq<Change>)
    requires k < |cs| && cs[k].op == MoveOp && MoveTold(hash, s, s', cs[k], seg)
    requires forall q {:trigger q in conflicts.Values} :: q in conflicts.Values ==> q in s.tree
    requires var p := cs[k].relPath;
               && p in st.local && st.local[p].Regular? && p !in st.stale && p !in conflicts
               && p !in s.tree
    requires Detour(cs[k]).Some? ==> LaterTarget(st, cs, k, Detour(cs[k]).value)
    ensures Tells(hash, st, s', conflicts, cs, k, seg)
  {
    hide Shows, Passes, LaterTarget, Detour;
  }

  lemma CarriedLeaves(s: Server, s': Server, o: Path, n: Path)
    requires ServerOk(s) && Carried(s, s', o, n)
    ensures Unmoved(s, s', {o}) && n !in s.tree
  {
  }

  lemma CutLeaves(s: Server, op: Op)
    requires ServerOk(s) && OpOk(s, op) && op.Delete?
    requires forall q {:trigger Within(op.path, q)} :: q in s.tree && Within(op.path, q) ==> q == op.path
    ensures Unmoved(s, After(s, op), {op.path}) && NothingNew(s, After(s, op))
  {
    DeleteCuts(s, op);
    hide After, OpOk, ServerOk;
  }

  lemma LocalIsNotGone(hash: Bytes -> string, disk: Tree, t: Track, c: LocalChange, h: Path)
    requires Setting(hash, t.st, disk, t.known, t.cs) && c in t.cs && h in Touches(c) && h in t.st.local
    requires h !in t.known
    ensures c.relPath == h && c.op in {CreateOp, MoveOp}
  {
    assert Justified(c, hash, disk, t.known);
  }

  lemma LaterIsMove(hash: Bytes -> string, disk: Tree, t: Track, i: nat)
    requires Setting(hash, t.st, disk, t.known, t.cs) && t.k <= i < |t.cs| && t.cs[t.k].op == MoveOp
    requires t.cs[i].op in {CreateOp, MoveOp}
    ensures t.cs[i].op == MoveOp
  {
    if i > t.k { assert !Before(t.cs[i], t.cs[t.k]); }
  }

  lemma StillInjective(conflicts: map<Path, Path>, p: Path, q: Path)
    requires q !in conflicts.Values
    ensures Injective(conflicts) ==> Injective(conflicts[p := q])
  {
    forall a | a in conflicts ensures conflicts[a] != q { assert conflicts[a] in conflicts.Values; }
  }

  lemma DeleteIsTold(hash: Bytes -> string, disk: Tree, t: Track, s: Server, index: Index, op: Op)
    requires OnTrack(hash, disk, t, s, index) && t.k < |t.cs| && t.cs[t.k].op == DeleteOp
    requires ServerOk(s) && OpOk(s, op) && op.Delete? && op.path == t.cs[t.k].relPath
    requires forall q {:trigger Within(op.path, q)} :: q in s.tree && Within(op.path, q) ==> q == op.path
    ensures Chronicled(hash, t.st, After(s, op), t.conflicts, t.cs, t.told + [BlockOf(hash, s, op)])
  {
    hide OnTrack, Allows, ServerOk, OpOk, After, BlockOf, Describes, Unmoved, NothingNew, Chronicled, Entered, Touches;
    TouchesItsPath(t.cs[t.k]);
    NextDelete(hash, disk, t, s, index);
    OldIsNoCopy(hash, disk, t, s, index, op.path);
    DeleteShows(hash, s, op);
    CutLeaves(s, op);
    AllowsLeaving(t.st, s, After(s, op), t.conflicts, t.cs, t.k, op.path);
    ToldOn(hash, disk, t, s, index, After(s, op), t.conflicts, {op.path}, BlockOf(hash, s, op));
  }

  lemma NewIsEntered(hash: Bytes -> string, st: Start, s: Server, index: Index, conflicts: map<Path, Path>,
                     cs: seq<LocalChange>, k: nat, op: Op, id: NodeID, row: Row)
    requires k < |cs| && cs[k].op in {CreateOp, UpdateOp} && Apart(cs) && Entered(hash, st, s, index, conflicts, cs, k)
    requires ServerOk(s) && OpOk(s, op) && (op.Create? || op.Update?) && op.path == cs[k].relPath && op.path != []
    requires op.Create? ==> id == op.id && row == RowAt(hash, op.path, op.node, Meta(id, op.version))
    requires op.Update? ==> op.path in s.meta && id == s.meta[op.path].id
    requires op.Update? ==> row == RowAt(hash, op.path, Regular(op.data), Meta(id, op.version))
    ensures Entered(hash, st, After(s, op), index[id := row], conflicts, cs, k + 1)
  {
    hide Entered, Unmoved, Apart;
    CreateLeaves(s, op);
    TouchesItsPath(cs[k]);
    EnteredOn(hash, st, s, After(s, op), index, index[id := row], id, {op.path}, conflicts, conflicts, cs, k);
  }

  lemma EnteredSoFar(hash: Bytes -> string, disk: Tree, t: Track, s: Server, index: Index)
    requires OnTrack(hash, disk, t, s, index)
    ensures t.k <= |t.cs| && Entered(hash, t.st, s, index, t.conflicts, t.cs, t.k)
  {
  }

  lemma CopyIsNotEntered(hash: Bytes -> string, disk: Tree, t: Track, s: Server, index: Index, op: Op)
    requires OnTrack(hash, disk, t, s, index) && t.k < |t.cs| && ServerOk(s) && op.Create? && OpOk(s, op)
    ensures Entered(hash, t.st, After(s, op), index, t.conflicts[t.cs[t.k].relPath := op.path], t.cs, t.k + 1)
  {
    hide Setting, Pushing, Sent, Delivered, CopiesMatch, Chronicled, Entered, Unmoved;
    TrackFacts(hash, disk, t, s, index);
    CreateLeaves(s, op);
    EnteredSoFar(hash, disk, t, s, index);
    hide OnTrack;
    EnteredOn(hash, t.st, s, After(s, op), index, index, "", {}, t.conflicts, t.conflicts[t.cs[t.k].relPath := op.path],
              t.cs, t.k);
  }

  lemma MoveIsEntered(hash: Bytes -> string, disk: Tree, t: Track, s: Server, index: Index, s': Server, row: Row)
    requires OnTrack(hash, disk, t, s, index) && t.k < |t.cs| && t.cs[t.k].op == MoveOp
    requires ServerOk(s) && ServerOk(s') && Carried(s, s', t.cs[t.k].oldRelPath, t.cs[t.k].relPath)
    requires var o, p := t.cs[t.k].oldRelPath, t.cs[t.k].relPath;
             && o in t.st.server.meta && s.meta[o] == t.st.server.meta[o] && s.meta[o].id in t.st.rows
             && row == t.st.rows[s.meta[o].id].(path := p)
    ensures Entered(hash, t.st, s', index[s.meta[t.cs[t.k].oldRelPath].id := row], t.conflicts, t.cs, t.k + 1)
  {
    hide Setting, Pushing, Sent, Delivered, CopiesMatch, Chronicled, Entered, Unmoved;
    var o := t.cs[t.k].oldRelPath;
    TrackFacts(hash, disk, t, s, index);
    EnteredSoFar(hash, disk, t, s, index);
    CarriedLeaves(s, s', o, t.cs[t.k].relPath);
    hide OnTrack;
    EnteredOn(hash, t.st, s, s', index, index[s.meta[o].id := row], s.meta[o].id, {o}, t.conflicts, t.conflicts, t.cs,
              t.k);
  }

  lemma CutIsEntered(hash: Bytes -> string, disk: Tree, t: Track, s: Server, index: Index, op: Op)
    requires OnTrack(hash, disk, t, s, index) && t.k < |t.cs| && t.cs[t.k].op == DeleteOp
    requires ServerOk(s) && OpOk(s, op) && op.Delete? && op.path == t.cs[t.k].relPath && op.path in s.meta
    requires forall q {:trigger Within(op.path, q)} :: q in s.tree && Within(op.path, q) ==> q == op.path
    ensures Entered(hash, t.st, After(s, op), index - {s.meta[op.path].id}, t.conflicts, t.cs, t.k + 1)
  {
    hide Setting, Pushing, Sent, Delivered, CopiesMatch, Chronicled, Entered, Unmoved;
    TrackFacts(hash, disk, t, s, index);
    EnteredSoFar(hash, disk, t, s, index);
    TouchesItsPath(t.cs[t.k]);
    CutLeaves(s, op);
    hide OnTrack, After;
    var id := s.meta[op.path].id;
    assert (index - {id}) - {id} == index - {id};
    EnteredOn(hash, t.st, s, After(s, op), index, index - {id}, id, {op.path}, t.conflicts, t.conflicts, t.cs, t.k);
  }

  lemma FolderSent(hash: Bytes -> string, disk: Tree, t: Track, s: Server, index: Index, s': Server,
                   id: NodeID, version: int, seg: seq<Change>)
    requires OnTrack(hash, disk, t, s, index) && t.k < |t.cs| && t.cs[t.k].op == CreateOp && t.cs[t.k].isDir
    requires var p := t.cs[t.k].relPath;
      || (p in s.meta && p in s.tree && s.tree[p] == Folder && s' == s)
      || (ServerOk(s) && OpOk(s, Create(p, Folder, id, version)) && s' == After(s, Create(p, Folder, id, version))
          && seg == BlockOf(hash, s, Create(p, Folder, id, version)))
    ensures OnTrack(hash, disk, Settled(t, seg), s', index[id := Row(t.cs[t.k].relPath, true, version, "", 0)])
  {
    hide Setting, Pushing, Sent, Delivered, CopiesMatch, Chronicled, Entered, ServerOk, OpOk, After;
    var p := t.cs[t.k].relPath;
    TrackFacts(hash, disk, t, s, index);
    CreateFacts(hash, t.st, disk, t.known, t.cs, t.k);
    NextIsUndone(t.cs, t.k, t.done, t.conflicts);
    SentOneMore(t.cs, t.k, t.done, t.conflicts);
    NewPathIsFree(hash, disk, t, s, index, p);
    Created(hash, t.st, s, index, t.done, t.copies, p, id, version, Row(p, true, version, "", 0));
    CreateKeepsNodes(s, Create(p, Folder, id, version));
    CreateTold(hash, disk, t, s, index, Create(p, Folder, id, version));
    assert Touches(t.cs[t.k]) == {p};
    StillDelivered(hash, disk, t, s, index, s', t.done + {p});
    NewIsEntered(hash, t.st, s, index, t.conflicts, t.cs, t.k, Create(p, Folder, id, version), id,
                 Row(p, true, version, "", 0));
  }

  lemma FileSent(hash: Bytes -> string, disk: Tree, t: Track, s: Server, index: Index, s': Server,
                 base: Option<int>, data: Bytes, id: NodeID, version: int, row: Row, seg: seq<Change>)
    requires OnTrack(hash, disk, t, s, index) && t.k < |t.cs|
    requires t.cs[t.k].op in {CreateOp, UpdateOp} && !t.cs[t.k].isDir
    requires var p := t.cs[t.k].relPath; base == if p in t.known then Some(t.known[p].version) else None
    requires var p := t.cs[t.k].relPath; p in disk && disk[p] == Regular(data)
    requires row == Row(t.cs[t.k].relPath, false, version, hash(data), |data|)
    requires var p := t.cs[t.k].relPath;
      || (&& p in s.meta && p in s.tree && s.tree[p] != Folder && base == Some(s.meta[p].version)
          && ServerOk(s) && OpOk(s, Update(p, data, version)) && s' == After(s, Update(p, data, version))
          && id == s.meta[p].id
          && seg == BlockOf(hash, s, Update(p, data, version)))
      || (ServerOk(s) && OpOk(s, Create(p, Regular(data), id, version))
          && s' == After(s, Create(p, Regular(data), id, version))
          && seg == BlockOf(hash, s, Create(p, Regular(data), id, version)))
    ensures OnTrack(hash, disk, Settled(t, seg), s', index[id := row])
  {
    hide Setting, Pushing, Sent, Delivered, CopiesMatch, Chronicled, Entered, ServerOk, After;
    var p := t.cs[t.k].relPath;
    TrackFacts(hash, disk, t, s, index);
    NextIsUndone(t.cs, t.k, t.done, t.conflicts);
    SentOneMore(t.cs, t.k, t.done, t.conflicts);
    ChangedIsLocal(hash, disk, t);
    assert Touches(t.cs[t.k]) == {p};
    if t.cs[t.k].op == CreateOp {
      CreateFacts(hash, t.st, disk, t.known, t.cs, t.k);
      Created(hash, t.st, s, index, t.done, t.copies, p, id, version, row);
      CreateKeepsNodes(s, Create(p, Regular(data), id, version));
      CreateTold(hash, disk, t, s, index, Create(p, Regular(data), id, version));
      NewIsEntered(hash, t.st, s, index, t.conflicts, t.cs, t.k, Create(p, Regular(data), id, version), id, row);
    } else {
      UpdateFacts(hash, t.st, disk, t.known, t.cs, t.k);
      OldPathIsThere(hash, disk, t, s, index, p);
      UpdateIsNotStale(hash, disk, t, s, index, base);
      Updated(hash, t.st, s, index, t.done, t.copies, p, data, version, row);
      CreateKeepsNodes(s, Update(p, data, version));
      UpdateTold(hash, disk, t, s, index, Update(p, data, version));
      NewIsEntered(hash, t.st, s, index, t.conflicts, t.cs, t.k, Update(p, data, version), id, row);
    }
    StillDelivered(hash, disk, t, s, index, s', t.done + {p});
  }

  /** A file somebody else changed has another version than the one the update names. */
  lemma UpdateIsNotStale(hash: Bytes -> string, disk: Tree, t: Track, s: Server, index: Index, base: Option<int>)
    requires OnTrack(hash, disk, t, s, index) && t.k < |t.cs| && t.cs[t.k].op == UpdateOp
    requires t.cs[t.k].relPath in t.known && base == Some(t.known[t.cs[t.k].relPath].version)
    requires t.cs[t.k].relPath in s.meta && base == Some(s.meta[t.cs[t.k].relPath].version)
    ensures t.cs[t.k].relPath !in t.st.stale
  {
    var p := t.cs[t.k].relPath;
    hide Setting, Pushing, Sent, Delivered, CopiesMatch, Chronicled, Entered, ServerOk;
    TrackFacts(hash, disk, t, s, index);
    NextIsUndone(t.cs, t.k, t.done, t.conflicts);
    UpdateFacts(hash, t.st, disk, t.known, t.cs, t.k);
    OldPathIsThere(hash, disk, t, s, index, p);
    KnownRow(hash, t.st, disk, t.known, t.cs, p);
  }

  lemma KnownRow(hash: Bytes -> string, st: Start, disk: Tree, known: map<Path, Row>, cs: seq<LocalChange>, p: Path)
    requires Setting(hash, st, disk, known, cs) && p in known
    ensures p in st.server.meta && st.server.meta[p].id in st.rows && known[p] == st.rows[st.server.meta[p].id]
    ensures p in st.stale ==> known[p].version != st.server.meta[p].version
  {
  }

  lemma CopySent(hash: Bytes -> string, disk: Tree, t: Track, s: Server, index: Index, s': Server,
                 base: Option<int>, copy: Path, data: Bytes, id: NodeID, version: int, seg: seq<Change>)
    requires OnTrack(hash, disk, t, s, index) && t.k < |t.cs|
    requires t.cs[t.k].op in {CreateOp, UpdateOp} && !t.cs[t.k].isDir
    requires var p := t.cs[t.k].relPath; p in disk && disk[p] == Regular(data)
    requires var p := t.cs[t.k].relPath; base == if p in t.known then Some(t.known[p].version) else None
    requires var p := t.cs[t.k].relPath; p in s.meta && p in s.tree && base != Some(s.meta[p].version)
    requires copy != [] && t.cs[t.k].relPath != [] && Parent(copy) == Parent(t.cs[t.k].relPath)
    requires ServerOk(s) && OpOk(s, Create(copy, Regular(data), id, version))
    requires s' == After(s, Create(copy, Regular(data), id, version))
    requires seg == BlockOf(hash, s, Create(copy, Regular(data), id, version))
    ensures OnTrack(hash, disk, Copied(t, copy, data, seg), s', index)
  {
    hide Setting, Pushing, Sent, Delivered, CopiesMatch, Chronicled, Entered, ServerOk, OpOk, After;
    var p := t.cs[t.k].relPath;
    TrackFacts(hash, disk, t, s, index);
    SentAsCopy(t.cs, t.k, t.done, t.conflicts, copy);
    ChangedIsLocal(hash, disk, t);
    Conflicted(hash, t.st, s, index, t.done, t.copies, copy, data, id, version);
    CreateKeepsNodes(s, Create(copy, Regular(data), id, version));
    StillDelivered(hash, disk, t, s, index, s', t.done);
    FirstConflict(t.cs, t.k, t.done, t.conflicts);
    ConflictIsOutdated(hash, disk, t, s, index, base);
    CopiesStillMatch(t, copy, data, seg);
    CopyTold(hash, disk, t, s, index, Create(copy, Regular(data), id, version));
    CopyIsNotEntered(hash, disk, t, s, index, Create(copy, Regular(data), id, version));
  }

  /** The server keeps its own file only at a path whose known version is out of date, or that
      a conflict copy has taken. */
  lemma ConflictIsOutdated(hash: Bytes -> string, disk: Tree, t: Track, s: Server, index: Index, base: Option<int>)
    requires OnTrack(hash, disk, t, s, index) && t.k < |t.cs| && t.cs[t.k].op in {CreateOp, UpdateOp}
    requires var p := t.cs[t.k].relPath; base == if p in t.known then Some(t.known[p].version) else None
    requires var p := t.cs[t.k].relPath; p in s.meta && p in s.tree && base != Some(s.meta[p].version)
    ensures var p := t.cs[t.k].relPath; Outdated(t.st, p) || p in t.copies
  {
    hide Setting, Pushing, Sent, Delivered, CopiesMatch, Chronicled, Entered, ServerOk;
    var p := t.cs[t.k].relPath;
    TrackFacts(hash, disk, t, s, index);
    NextIsUndone(t.cs, t.k, t.done, t.conflicts);
    if t.cs[t.k].op == CreateOp {
      CreateFacts(hash, t.st, disk, t.known, t.cs, t.k);
      NewPathIsFree(hash, disk, t, s, index, p);
    } else {
      UpdateFacts(hash, t.st, disk, t.known, t.cs, t.k);
      OldPathIsThere(hash, disk, t, s, index, p);
      KnownRow(hash, t.st, disk, t.known, t.cs, p);
    }
  }

  lemma FirstConflict(cs: seq<LocalChange>, k: nat, done: set<Path>, conflicts: map<Path, Path>)
    requires Apart(cs) && k < |cs| && Sent(cs, k, done, conflicts)
    ensures cs[k].relPath !in conflicts
  {
    if cs[k].relPath in conflicts {
      var i :| 0 <= i < k && cs[i].relPath == cs[k].relPath && !cs[i].isDir && cs[i].op in {CreateOp, UpdateOp};
      OneTouch(cs, i, k, cs[k].relPath);
    }
  }

  lemma ChangedIsLocal(hash: Bytes -> string, disk: Tree, t: Track)
    requires Setting(hash, t.st, disk, t.known, t.cs) && t.k < |t.cs|
    requires t.cs[t.k].op in {CreateOp, UpdateOp}
    ensures var p := t.cs[t.k].relPath;
              && p != [] && p in t.st.local && t.st.local[p] == disk[p]
              && Parent(p) in t.st.local
  {
    if t.cs[t.k].op == CreateOp { CreateFacts(hash, t.st, disk, t.known, t.cs, t.k); }
    else { UpdateFacts(hash, t.st, disk, t.known, t.cs, t.k); }
  }

  lemma CopiesStillMatch(t: Track, copy: Path, data: Bytes, seg: seq<Change>)
    requires t.k < |t.cs| && CopiesMatch(t.st, t.copies, t.conflicts) && copy !in t.copies
    requires var p := t.cs[t.k].relPath; p in t.st.local && t.st.local[p] == Regular(data) && p !in t.conflicts
    requires var p := t.cs[t.k].relPath; Outdated(t.st, p) || p in t.copies
    ensures CopiesMatch(t.st, Copied(t, copy, data, seg).copies, Copied(t, copy, data, seg).conflicts)
  {
    var copies', conflicts' := Copied(t, copy, data, seg).copies, Copied(t, copy, data, seg).conflicts;
    forall q | q in copies'
      ensures exists p :: p in conflicts' && conflicts'[p] == q
    {
      if q == copy {
        assert conflicts'[t.cs[t.k].relPath] == q;
      } else {
        var p :| p in t.conflicts && t.conflicts[p] == q;
        assert p in conflicts' && conflicts'[p] == q;
      }
    }
  }

  lemma MoveSent(hash: Bytes -> string, disk: Tree, t: Track, s: Server, index: Index, s': Server, row: Row,
                 seg: seq<Change>)
    requires OnTrack(hash, disk, t, s, index) && t.k < |t.cs| && t.cs[t.k].op == MoveOp
    requires ServerOk(s') && Carried(s, s', t.cs[t.k].oldRelPath, t.cs[t.k].relPath)
    requires t.cs[t.k].oldRelPath in t.known
    requires var old' := t.known[t.cs[t.k].oldRelPath];
             row == Row(t.cs[t.k].relPath, false, old'.version, old'.hash, old'.size)
    requires MoveTold(hash, s, s', t.cs[t.k], seg)
    ensures OnTrack(hash, disk, Settled(t, seg), s', index[s.meta[t.cs[t.k].oldRelPath].id := row])
  {
    hide Setting, Pushing, Sent, Delivered, CopiesMatch, Chronicled, Entered, ServerOk;
    var c := t.cs[t.k];
    var o, n := c.oldRelPath, c.relPath;
    TrackFacts(hash, disk, t, s, index);
    MoveFacts(hash, t.st, disk, t.known, t.cs, t.k);
    NextIsUndone(t.cs, t.k, t.done, t.conflicts);
    SentOneMore(t.cs, t.k, t.done, t.conflicts);
    OldPathIsThere(hash, disk, t, s, index, o);
    KnownRow(hash, t.st, disk, t.known, t.cs, o);
    assert Touches(c) == {o, n};
    MovedTo(hash, t.st, s, s', index, t.done, t.copies, o, n, row);
    MoveDelivered(hash, disk, t, s, index, s');
    MoveIsTold(hash, disk, t, s, index, s', seg);
    MoveIsEntered(hash, disk, t, s, index, s', row);
  }

  lemma MoveDelivered(hash: Bytes -> string, disk: Tree, t: Track, s: Server, index: Index, s': Server)
    requires OnTrack(hash, disk, t, s, index) && t.k < |t.cs| && t.cs[t.k].op == MoveOp
    requires ServerOk(s') && Carried(s, s', t.cs[t.k].oldRelPath, t.cs[t.k].relPath)
    ensures Delivered(t.st, s', t.done + {t.cs[t.k].oldRelPath, t.cs[t.k].relPath}, t.cs)
  {
    hide Setting, Pushing, Sent, CopiesMatch, Chronicled, Entered, Delivered, Carried, ServerOk;
    var c := t.cs[t.k];
    TrackFacts(hash, disk, t, s, index);
    MoveFacts(hash, t.st, disk, t.known, t.cs, t.k);
    NextIsUndone(t.cs, t.k, t.done, t.conflicts);
    OnlyMovesSettleMoves(hash, t.st, disk, t.known, t.cs, t.k);
    OldPathIsThere(hash, disk, t, s, index, c.oldRelPath);
    DeliveredByMove(t.st, s, s', t.done, t.cs, c);
  }

  lemma DeliveredByMove(st: Start, s: Server, s': Server, done: set<Path>, cs: seq<LocalChange>, c: LocalChange)
    requires ServerOk(s) && Delivered(st, s, done, cs) && c in cs && c.op == MoveOp
    requires Carried(s, s', c.oldRelPath, c.relPath) && c.oldRelPath !in st.local
    requires c.oldRelPath in st.server.meta && s.meta[c.oldRelPath].id == st.server.meta[c.oldRelPath].id
    requires forall d {:trigger d in cs} :: d in cs && d.op == MoveOp ==> d.relPath in st.local
    requires forall d {:trigger d in cs} :: d in cs && d.op == MoveOp && d != c ==> d.oldRelPath !in Touches(c)
    ensures Delivered(st, s', done + {c.oldRelPath, c.relPath}, cs)
  {
  }

  lemma DeleteSent(hash: Bytes -> string, disk: Tree, t: Track, s: Server, index: Index, op: Op)
    requires OnTrack(hash, disk, t, s, index) && t.k < |t.cs| && t.cs[t.k].op == DeleteOp
    requires ServerOk(s) && OpOk(s, op) && op.Delete? && op.path == t.cs[t.k].relPath
    ensures op.path in s.meta && op.path in t.st.server.meta && s.meta[op.path].id == t.st.server.meta[op.path].id
    ensures OnTrack(hash, disk, Settled(t, BlockOf(hash, s, op)), After(s, op), index - {s.meta[op.path].id})
  {
    hide Setting, Pushing, Sent, Delivered, CopiesMatch, Chronicled, Entered, ServerOk, OpOk, After;
    var p := op.path;
    TrackFacts(hash, disk, t, s, index);
    DeleteFacts(hash, t.st, disk, t.known, t.cs, t.k);
    NextIsUndone(t.cs, t.k, t.done, t.conflicts);
    SentOneMore(t.cs, t.k, t.done, t.conflicts);
    assert Touches(t.cs[t.k]) == {p};
    OldPathIsThere(hash, disk, t, s, index, p);
    forall q {:trigger Within(p, q)} | q in s.tree && Within(p, q)
      ensures q == p
    {
      NothingIsLeftBelow(hash, t.st, disk, t.known, t.cs, t.k, t.done, t.conflicts, s, index, t.copies, q);
    }
    Deleted(hash, t.st, s, index, t.done, t.copies, op);
    DeleteCuts(s, op);
    StillDelivered(hash, disk, t, s, index, After(s, op), t.done + {p});
    DeleteIsTold(hash, disk, t, s, index, op);
    CutIsEntered(hash, disk, t, s, index, op);
  }
}
