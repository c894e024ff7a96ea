/** Server and index while the local changes are being sent: at every moment the server holds
    the local tree where a change has been sent and its own tree everywhere else. */
module PushState {
  import opened FileSystem
  import opened SyncTypes
  import opened Feed
  import opened LocalChanges
  import opened Push

  /** The index knows exactly the server's nodes apart from `copies`, under their paths and
      kinds and, apart from files in `stale`, under their content hashes. */
  ghost predicate Fits(hash: Bytes -> string, index: Index, s: Server, copies: set<Path>, stale: set<Path>) {
    && s.meta.Keys <= s.tree.Keys
    && (forall p {:trigger s.meta[p]} :: p in s.meta && p !in copies ==>
          && s.meta[p].id in index
          && index[s.meta[p].id].path == p
          && index[s.meta[p].id].isDir == (s.tree[p] == Folder)
          && (s.tree[p].Regular? && p !in stale ==> index[s.meta[p].id].hash == hash(s.tree[p].data)))
    && (forall id {:trigger index[id]} :: id in index ==>
          index[id].path in s.meta && s.meta[index[id].path].id == id && index[id].path !in copies)
  }

  /** A push starts from: the server's state, the local tree, the index, and the files somebody
      else has changed on the server since, whose known version is out of date. */
  datatype Start = Start(server: Server, local: Tree, rows: Index, stale: set<Path>)

  /** The version the index has for a file is not the server's. */
  ghost predicate Outdated(st: Start, p: Path) {
    && p in st.server.meta && st.server.meta[p].id in st.rows
    && st.rows[st.server.meta[p].id].version != st.server.meta[p].version
  }

  ghost predicate StartOk(hash: Bytes -> string, st: Start) {
    && ServerOk(st.server) && Closed(st.local) && NoneIgnored(st.local)
    && Fits(hash, st.rows, st.server, {}, st.stale)
    && (forall p {:trigger st.local[p]} :: p in st.server.tree && p in st.local ==>
          (st.server.tree[p] == Folder <==> st.local[p] == Folder))
    && (forall p {:trigger p in st.stale} :: p in st.stale ==>
          p in st.local && st.local[p] != Folder && Outdated(st, p))
  }

  /** The local tree on `done`, the server's tree elsewhere. */
  function Mix(base: Tree, local: Tree, done: set<Path>): Tree {
    map p | p in base.Keys + local.Keys && (if p in done then p in local else p in base) ::
      if p in done then local[p] else base[p]
  }

  /** The server's tree is the mixture, with the conflict copies stored so far beside it. */
  ghost predicate TreeIs(tree: Tree, mix: Tree, copies: map<Path, Bytes>) {
    && (forall p {:trigger p in tree} {:trigger p in mix} {:trigger p in copies} :: p in tree <==>
        p in mix || p in copies)
    && (forall p {:trigger tree[p]} :: p in tree ==> tree[p] == if p in copies then Regular(copies[p]) else mix[p])
  }

  ghost predicate CopiesOk(copies: map<Path, Bytes>, mix: Tree, local: Tree) {
    forall q {:trigger q in copies} :: q in copies ==> q !in mix && q != [] && Parent(q) in local
  }

  /** Nodes not dealt with yet are as the push found them, on the server and in the index. */
  ghost predicate Waiting(st: Start, s: Server, index: Index, done: set<Path>) {
    forall p {:trigger st.server.meta[p]} {:trigger s.meta[p]} :: p in st.server.meta && p !in done ==>
      && p in s.meta && s.meta[p] == st.server.meta[p]
      && s.meta[p].id in index && s.meta[p].id in st.rows && index[s.meta[p].id] == st.rows[s.meta[p].id]
  }

  /** A file kept in place is still the same node. */
  ghost predicate SameNodes(st: Start, s: Server) {
    forall p {:trigger st.server.meta[p]} {:trigger s.meta[p]} :: p in st.server.meta && p in st.local ==>
      p in s.meta && s.meta[p].id == st.server.meta[p].id
  }

  ghost predicate Pushing(hash: Bytes -> string, st: Start, s: Server, index: Index, done: set<Path>,
                          copies: map<Path, Bytes>) {
    && ServerOk(s) && [] !in done && done !! st.stale
    && TreeIs(s.tree, Mix(st.server.tree, st.local, done), copies)
    && CopiesOk(copies, Mix(st.server.tree, st.local, done), st.local)
    && Waiting(st, s, index, done)
    && SameNodes(st, s)
    && Fits(hash, index, s, copies.Keys, st.stale)
  }

  lemma NodesAreEntries(s: Server)
    requires ServerOk(s)
    ensures s.meta.Keys == s.tree.Keys - {[]}
  {
  }

  lemma PushingStarts(hash: Bytes -> string, st: Start)
    requires StartOk(hash, st)
    ensures Pushing(hash, st, st.server, st.rows, {}, map[])
  {
  }

  /** Dealing with one path changes the mixture there and nowhere else. */
  lemma MixAt(base: Tree, local: Tree, done: set<Path>, p: Path)
    ensures forall q {:trigger q in Mix(base, local, done + {p})} :: q != p ==>
              (q in Mix(base, local, done + {p}) <==> q in Mix(base, local, done))
    ensures forall q {:trigger Mix(base, local, done + {p})[q]} :: q != p && q in Mix(base, local, done + {p}) ==>
              Mix(base, local, done + {p})[q] == Mix(base, local, done)[q]
    ensures p in Mix(base, local, done + {p}) <==> p in local
    ensures p in local ==> Mix(base, local, done + {p})[p] == local[p]
  {
  }

  lemma PutTreeIs(tree: Tree, mix: Tree, mix': Tree, copies: map<Path, Bytes>, local: Tree, p: Path)
    requires TreeIs(tree, mix, copies) && CopiesOk(copies, mix, local) && p !in copies && p in mix'
    requires forall q {:trigger q in mix'} :: q != p ==> (q in mix' <==> q in mix)
    requires forall q {:trigger mix'[q]} :: q != p && q in mix' ==> mix'[q] == mix[q]
    ensures TreeIs(tree[p := mix'[p]], mix', copies) && CopiesOk(copies, mix', local)
  {
  }

  lemma CutTreeIs(tree: Tree, mix: Tree, mix': Tree, copies: map<Path, Bytes>, local: Tree, p: Path)
    requires TreeIs(tree, mix, copies) && CopiesOk(copies, mix, local) && p !in copies && p !in mix'
    requires forall q {:trigger q in mix'} :: q != p ==> (q in mix' <==> q in mix)
    requires forall q {:trigger mix'[q]} :: q != p && q in mix' ==> mix'[q] == mix[q]
    ensures TreeIs(tree - {p}, mix', copies) && CopiesOk(copies, mix', local)
  {
  }

  lemma CopyTreeIs(tree: Tree, mix: Tree, copies: map<Path, Bytes>, local: Tree, q: Path, data: Bytes)
    requires TreeIs(tree, mix, copies) && CopiesOk(copies, mix, local) && q !in tree && q != [] && Parent(q) in local
    ensures q !in copies
    ensures TreeIs(tree[q := Regular(data)], mix, copies[q := data]) && CopiesOk(copies[q := data], mix, local)
  {
  }

  lemma FitsCreate(hash: Bytes -> string, index: Index, s: Server, copies: set<Path>, stale: set<Path>,
                   p: Path, node: Node, id: NodeID, version: int, row: Row)
    requires ServerOk(s) && Fits(hash, index, s, copies, stale) && p !in copies
    requires OpOk(s, Create(p, node, id, version))
    requires row.path == p && row.isDir == (node == Folder) && (node.Regular? ==> row.hash == hash(node.data))
    ensures Fits(hash, index[id := row], After(s, Create(p, node, id, version)), copies, stale)
  {
  }

  lemma FitsUpdate(hash: Bytes -> string, index: Index, s: Server, copies: set<Path>, stale: set<Path>,
                   p: Path, data: Bytes, version: int, row: Row)
    requires ServerOk(s) && Fits(hash, index, s, copies, stale) && p !in copies && p != []
    requires OpOk(s, Update(p, data, version))
    requires row.path == p && !row.isDir && row.hash == hash(data)
    ensures p in s.meta && Fits(hash, index[s.meta[p].id := row], After(s, Update(p, data, version)), copies, stale)
  {
  }

  lemma FitsCopy(hash: Bytes -> string, index: Index, s: Server, copies: set<Path>, stale: set<Path>,
                 q: Path, data: Bytes, id: NodeID, version: int)
    requires ServerOk(s) && Fits(hash, index, s, copies, stale)
    requires OpOk(s, Create(q, Regular(data), id, version))
    ensures Fits(hash, index, After(s, Create(q, Regular(data), id, version)), copies + {q}, stale)
  {
  }

  lemma WaitingAfterCreate(st: Start, s: Server, index: Index, done: set<Path>, done': set<Path>, op: Op, row: Row,
                           put: bool)
    requires ServerOk(s) && ServerOk(st.server) && OpOk(s, op) && op.Create?
    requires Waiting(st, s, index, done) && SameNodes(st, s) && done <= done'
    ensures Waiting(st, After(s, op), if put then index[op.id := row] else index, done')
    ensures SameNodes(st, After(s, op))
  {
  }

  lemma WaitingAfterUpdate(st: Start, s: Server, index: Index, done: set<Path>, op: Op, row: Row)
    requires ServerOk(s) && ServerOk(st.server) && OpOk(s, op) && op.Update? && op.path in s.meta
    requires Waiting(st, s, index, done) && SameNodes(st, s)
    ensures Waiting(st, After(s, op), index[s.meta[op.path].id := row], done + {op.path})
    ensures SameNodes(st, After(s, op))
  {
  }

  /** A folder or file the server did not have is created. */
  lemma Created(hash: Bytes -> string, st: Start, s: Server, index: Index, done: set<Path>, copies: map<Path, Bytes>,
                p: Path, id: NodeID, version: int, row: Row)
    requires Pushing(hash, st, s, index, done, copies)
    requires p in st.local && p !in st.server.tree && p !in done && p !in st.stale
    requires OpOk(s, Create(p, st.local[p], id, version))
    requires row.path == p && row.isDir == (st.local[p] == Folder)
    requires st.local[p].Regular? ==> row.hash == hash(st.local[p].data)
    requires ServerOk(st.server)
    ensures Pushing(hash, st, After(s, Create(p, st.local[p], id, version)), index[id := row], done + {p}, copies)
  {
    AfterIsOk(s, Create(p, st.local[p], id, version));
    MixAt(st.server.tree, st.local, done, p);
    PutTreeIs(s.tree, Mix(st.server.tree, st.local, done), Mix(st.server.tree, st.local, done + {p}), copies, st.local,
              p);
    FitsCreate(hash, index, s, copies.Keys, st.stale, p, st.local[p], id, version, row);
    WaitingAfterCreate(st, s, index, done, done + {p}, Create(p, st.local[p], id, version), row, true);
    assert After(s, Create(p, st.local[p], id, version)).tree == s.tree[p := st.local[p]];
    hide Mix, TreeIs, CopiesOk, Fits, Waiting, SameNodes, ServerOk, OpOk, After;
  }

  /** A file the server had is replaced under its known version. */
  lemma Updated(hash: Bytes -> string, st: Start, s: Server, index: Index, done: set<Path>, copies: map<Path, Bytes>,
                p: Path, data: Bytes, version: int, row: Row)
    requires Pushing(hash, st, s, index, done, copies)
    requires p in st.local && st.local[p] == Regular(data) && p in st.server.meta && p !in done && p !in st.stale
    requires ServerOk(st.server) && p !in copies
    requires OpOk(s, Update(p, data, version))
    requires row.path == p && !row.isDir && row.hash == hash(data)
    ensures p in s.meta
    ensures Pushing(hash, st, After(s, Update(p, data, version)), index[s.meta[p].id := row], done + {p}, copies)
  {
    hide TreeIs, Mix, CopiesOk, Fits, Waiting, SameNodes, ServerOk, OpOk;
    AfterIsOk(s, Update(p, data, version));
    MixAt(st.server.tree, st.local, done, p);
    PutTreeIs(s.tree, Mix(st.server.tree, st.local, done), Mix(st.server.tree, st.local, done + {p}), copies, st.local,
              p);
    FitsUpdate(hash, index, s, copies.Keys, st.stale, p, data, version, row);
    WaitingAfterUpdate(st, s, index, done, Update(p, data, version), row);
    assert After(s, Update(p, data, version)).tree == s.tree[p := Regular(data)];
  }

  /** The server refused to replace a file and stored the bytes beside it. */
  lemma Conflicted(hash: Bytes -> string, st: Start, s: Server, index: Index, done: set<Path>, copies: map<Path, Bytes>,
                   q: Path, data: Bytes, id: NodeID, version: int)
    requires Pushing(hash, st, s, index, done, copies)
    requires OpOk(s, Create(q, Regular(data), id, version)) && Parent(q) in st.local && ServerOk(st.server)
    ensures q !in copies
    ensures Pushing(hash, st, After(s, Create(q, Regular(data), id, version)), index, done, copies[q := data])
  {
    AfterIsOk(s, Create(q, Regular(data), id, version));
    FitsCopy(hash, index, s, copies.Keys, st.stale, q, data, id, version);
    WaitingAfterCreate(st, s, index, done, done, Create(q, Regular(data), id, version), Row([], false, 0, "", 0),
                       false);
    assert copies[q := data].Keys == copies.Keys + {q};
    CopyTreeIs(s.tree, Mix(st.server.tree, st.local, done), copies, st.local, q, data);
    assert After(s, Create(q, Regular(data), id, version)).tree == s.tree[q := Regular(data)];
    hide Mix, TreeIs, CopiesOk, Fits, Waiting, SameNodes, ServerOk, OpOk, After;
  }

  // ---------- moves and deletes ----------

  /** The file at `o` is now at `n`, the same node with the same content; nothing else changed. */
  ghost predicate Carried(s: Server, s': Server, o: Path, n: Path) {
    && o in s.meta && o in s.tree && s.tree[o] != Folder && n !in s.tree
    && s'.tree == (s.tree - {o})[n := s.tree[o]]
    && n in s'.meta && s'.meta == (s.meta - {o})[n := s'.meta[n]]
    && s'.meta[n].id == s.meta[o].id
  }

  lemma MoveCarries(s: Server, op: Op)
    requires ServerOk(s) && OpOk(s, op) && op.Move? && s.tree[op.from] != Folder
    ensures Carried(s, After(s, op), op.from, op.to)
  {
    var o, n := op.from, op.to;
    var u := After(s, op);
    forall r
      ensures r in u.tree <==> r in (s.tree - {o})[n := s.tree[o]]
      ensures r in u.tree ==> u.tree[r] == (s.tree - {o})[n := s.tree[o]][r]
      ensures r in u.tree && r != [] && r != n ==> u.meta[r] == s.meta[r]
    {
      MovedFileAt(s, op, r);
    }
    MovedFileAt(s, op, n);
    assert o in op.order && Back(n, o, n) == o;
    hide OpOk;
    assert u.tree == (s.tree - {o})[n := s.tree[o]];
    assert u.meta == (s.meta - {o})[n := u.meta[n]];
  }

  lemma MovedFileAt(s: Server, op: Op, r: Path)
    requires ServerOk(s) && OpOk(s, op) && op.Move? && s.tree[op.from] != Folder
    ensures r in After(s, op).tree <==> r == op.to || (r in s.tree && r != op.from)
    ensures r in After(s, op).tree ==> After(s, op).tree[r] == if r == op.to then s.tree[op.from] else s.tree[r]
    ensures r in After(s, op).tree && r != [] && r != op.to ==> After(s, op).meta[r] == s.meta[r]
  {
    var o, n := op.from, op.to;
    if Within(n, r) {
      var q := Back(r, o, n);
      if q in s.tree {
        NothingBelowFile(s.tree, o, q);
        assert r == n;
      }
      NothingBelowAbsent(s.tree, n, r);
      if r == n { assert q == o; }
    } else if r in s.tree && Within(o, r) {
      NothingBelowFile(s.tree, o, r);
    }
  }

  lemma CarriedOn(s: Server, s1: Server, s2: Server, o: Path, t: Path, n: Path)
    requires ServerOk(s) && Carried(s, s1, o, t) && Carried(s1, s2, t, n) && o != n
    ensures Carried(s, s2, o, n)
  {
    PutThenCut(s.tree - {o}, t, s.tree[o]);
    PutThenCut(s.meta - {o}, t, s1.meta[t]);
    hide ServerOk;
  }

  lemma PutThenCut<V>(m: map<Path, V>, t: Path, x: V)
    requires t !in m
    ensures m[t := x] - {t} == m
  {
  }

  lemma FitsCarried(hash: Bytes -> string, index: Index, s: Server, s': Server, copies: set<Path>, stale: set<Path>,
                    o: Path, n: Path, row: Row)
    requires ServerOk(s) && ServerOk(s') && Fits(hash, index, s, copies, stale) && Carried(s, s', o, n)
    requires o !in copies && n !in copies && o !in stale && n !in stale && o != n
    requires row.path == n && !row.isDir && row.hash == index[s.meta[o].id].hash
    ensures Fits(hash, index[s.meta[o].id := row], s', copies, stale)
  {
  }

  lemma WaitingAfterCarry(st: Start, s: Server, s': Server, index: Index, done: set<Path>, o: Path, n: Path, row: Row)
    requires ServerOk(s) && ServerOk(s') && ServerOk(st.server) && Carried(s, s', o, n) && o != n
    requires o !in st.local && n !in st.server.meta
    requires Waiting(st, s, index, done) && SameNodes(st, s)
    ensures Waiting(st, s', index[s.meta[o].id := row], done + {o, n})
    ensures SameNodes(st, s')
  {
    forall p | p in st.server.meta && p !in done + {o, n}
      ensures p in s'.meta && s'.meta[p] == st.server.meta[p] && s'.meta[p].id != s.meta[o].id
    {
      assert s.meta[p] == st.server.meta[p];
    }
  }

  /** A file moved locally is moved on the server. */
  lemma MovedTo(hash: Bytes -> string, st: Start, s: Server, s': Server, index: Index, done: set<Path>,
                copies: map<Path, Bytes>, o: Path, n: Path, row: Row)
    requires ServerOk(st.server) && ServerOk(s') && Pushing(hash, st, s, index, done, copies) && Carried(s, s', o, n)
    requires o in st.server.tree && o !in st.local && o !in done && o !in copies && o !in st.stale
    requires n in st.local && n !in st.server.tree && n !in st.stale && n != []
    requires st.server.tree[o] == st.local[n]
    requires row.path == n && !row.isDir && row.hash == index[s.meta[o].id].hash
    ensures Pushing(hash, st, s', index[s.meta[o].id := row], done + {o, n}, copies)
  {
    hide CopiesOk, Fits, Waiting, SameNodes, ServerOk;
    NodesAreEntries(st.server);
    NodesAreEntries(s);
    var mix, mix1, mix2 := Mix(st.server.tree, st.local, done), Mix(st.server.tree, st.local, done + {o}),
                           Mix(st.server.tree, st.local, done + {o, n});
    assert done + {o, n} == done + {o} + {n};
    assert n !in copies && o !in copies;
    assert o in mix && s.tree[o] == st.local[n];
    MixAt(st.server.tree, st.local, done, o);
    MixAt(st.server.tree, st.local, done + {o}, n);
    CutTreeIs(s.tree, mix, mix1, copies, st.local, o);
    PutTreeIs(s.tree - {o}, mix1, mix2, copies, st.local, n);
    assert s'.tree == (s.tree - {o})[n := mix2[n]];
    FitsCarried(hash, index, s, s', copies.Keys, st.stale, o, n, row);
    WaitingAfterCarry(st, s, s', index, done, o, n, row);
  }

  lemma DeleteCuts(s: Server, op: Op)
    requires ServerOk(s) && OpOk(s, op) && op.Delete?
    requires forall q {:trigger Within(op.path, q)} :: q in s.tree && Within(op.path, q) ==> q == op.path
    ensures After(s, op).tree == s.tree - {op.path} && After(s, op).meta == s.meta - {op.path}
  {
  }

  lemma FitsCut(hash: Bytes -> string, index: Index, s: Server, s': Server, copies: set<Path>, stale: set<Path>,
                p: Path)
    requires ServerOk(s) && ServerOk(s') && Fits(hash, index, s, copies, stale)
    requires p in s.meta && p !in copies && s'.tree == s.tree - {p} && s'.meta == s.meta - {p}
    ensures Fits(hash, index - {s.meta[p].id}, s', copies, stale)
  {
  }

  lemma WaitingAfterCut(st: Start, s: Server, s': Server, index: Index, done: set<Path>, p: Path)
    requires ServerOk(s) && ServerOk(s') && ServerOk(st.server) && p in s.meta && p !in st.local
    requires s'.tree == s.tree - {p} && s'.meta == s.meta - {p}
    requires Waiting(st, s, index, done) && SameNodes(st, s)
    ensures Waiting(st, s', index - {s.meta[p].id}, done + {p})
    ensures SameNodes(st, s')
  {
    forall q | q in st.server.meta && q !in done + {p}
      ensures q in s'.meta && s'.meta[q] == st.server.meta[q] && s'.meta[q].id != s.meta[p].id
    {
      assert s.meta[q] == st.server.meta[q];
    }
  }

  /** A path gone locally, with nothing left below it, is deleted on the server. */
  lemma Deleted(hash: Bytes -> string, st: Start, s: Server, index: Index, done: set<Path>, copies: map<Path, Bytes>,
                op: Op)
    requires ServerOk(st.server) && Pushing(hash, st, s, index, done, copies)
    requires OpOk(s, op) && op.Delete? && op.path in s.meta
    requires op.path in st.server.tree && op.path !in st.local && op.path !in done && op.path !in copies
    requires op.path !in st.stale
    requires forall q {:trigger Within(op.path, q)} :: q in s.tree && Within(op.path, q) ==> q == op.path
    ensures Pushing(hash, st, After(s, op), index - {s.meta[op.path].id}, done + {op.path}, copies)
  {
    var p := op.path;
    AfterIsOk(s, op);
    DeleteCuts(s, op);
    MixAt(st.server.tree, st.local, done, p);
    CutTreeIs(s.tree, Mix(st.server.tree, st.local, done), Mix(st.server.tree, st.local, done + {p}), copies, st.local,
              p);
    FitsCut(hash, index, s, After(s, op), copies.Keys, st.stale, p);
    WaitingAfterCut(st, s, After(s, op), index, done, p);
    hide Mix, TreeIs, CopiesOk, Fits, Waiting, SameNodes, ServerOk, OpOk, After;
  }
}
