/** What other clients have written since the last pull, as this client learns of it: the feed
    first tells of their updates, old contents included, and only then of the client's own push. */
module Foreign {
  import opened FileSystem
  import opened SyncTypes
  import opened Feed
  import opened PushState
  import opened PushRun
  import opened Chronicle
  import opened Forecast

  ghost predicate OnlyUpdates(ups: seq<Op>) {
    forall j :: 0 <= j < |ups| ==> ups[j].Update?
  }

  ghost function WrittenPaths(ups: seq<Op>): set<Path>
    requires OnlyUpdates(ups)
  {
    set j | 0 <= j < |ups| :: ups[j].path
  }

  /** The tree after the updates. */
  ghost function Written(t: Tree, ups: seq<Op>): Tree
    requires OnlyUpdates(ups)
  {
    if ups == [] then t
    else Written(t, ups[..|ups| - 1])[ups[|ups| - 1].path := Regular(ups[|ups| - 1].data)]
  }

  /** What a client makes of them: it takes the bytes of an update unless they are those the
      server's file had before, which it believes to have. */
  ghost function Fetched(local: Tree, t: Tree, ups: seq<Op>): Tree
    requires OnlyUpdates(ups)
  {
    if ups == [] then local
    else
      var front, op := ups[..|ups| - 1], ups[|ups| - 1];
      if op.path in Written(t, front) && Written(t, front)[op.path] == Regular(op.data) then Fetched(local, t, front)
      else Fetched(local, t, front)[op.path := Regular(op.data)]
  }

  /** Some update wrote other bytes than the file had to begin with. */
  ghost predicate Rewritten(t: Tree, ups: seq<Op>, p: Path)
    requires OnlyUpdates(ups)
  {
    exists j :: 0 <= j < |ups| && ups[j].path == p && !(p in t && t[p] == Regular(ups[j].data))
  }

  /** A rewritten file becomes the server's; one that is not stays what it is locally. */
  lemma {:induction false} FetchedAt(local: Tree, t: Tree, ups: seq<Op>, p: Path)
    requires OnlyUpdates(ups) && p in local && p in t
    ensures p in Fetched(local, t, ups) && p in Written(t, ups)
    ensures Fetched(local, t, ups)[p] == if Rewritten(t, ups, p) then Written(t, ups)[p] else local[p]
    ensures !Rewritten(t, ups, p) ==> Written(t, ups)[p] == t[p]
  {
    if ups != [] {
      var front, op := ups[..|ups| - 1], ups[|ups| - 1];
      FetchedAt(local, t, front, p);
      assert Rewritten(t, ups, p) <==> Rewritten(t, front, p) || (op.path == p && t[p] != Regular(op.data)) by {
        if Rewritten(t, front, p) {
          var j :| 0 <= j < |front| && front[j].path == p && !(p in t && t[p] == Regular(front[j].data));
          assert ups[j] == front[j];
        }
        if op.path == p && t[p] != Regular(op.data) { assert ups[|ups| - 1].path == p; }
        if Rewritten(t, ups, p) {
          var j :| 0 <= j < |ups| && ups[j].path == p && !(p in t && t[p] == Regular(ups[j].data));
          if j < |front| { assert front[j] == ups[j]; }
        }
      }
      hide Rewritten;
    }
  }

  lemma {:induction false} FetchedElsewhere(local: Tree, t: Tree, ups: seq<Op>, p: Path)
    requires OnlyUpdates(ups) && p !in WrittenPaths(ups)
    ensures p in Fetched(local, t, ups) <==> p in local
    ensures p in local ==> Fetched(local, t, ups)[p] == local[p]
    ensures p in Written(t, ups) <==> p in t
    ensures p in t ==> Written(t, ups)[p] == t[p]
  {
    if ups != [] {
      var front, op := ups[..|ups| - 1], ups[|ups| - 1];
      assert op.path in WrittenPaths(ups);
      assert WrittenPaths(front) <= WrittenPaths(ups);
      FetchedElsewhere(local, t, front, p);
    }
  }

  /** The state a push is followed from: the client was in step with `s0`, and since then other
      clients have made the updates `ups`, of files that are still there locally. */
  ghost predicate FromUpdates(hash: Bytes -> string, s0: Server, ups: seq<Op>, st: Start) {
    && StartOk(hash, st) && HistoryOk(s0, ups) && OnlyUpdates(ups) && Final(s0, ups) == st.server
    && ServerOk(s0) && Indexes(hash, st.rows, s0) && st.stale == WrittenPaths(ups)
  }

  /** A file is the same node through all updates, and only its version and content change. */
  lemma {:induction false} UpdatesKeepNodes(s0: Server, ups: seq<Op>)
    requires HistoryOk(s0, ups) && OnlyUpdates(ups)
    ensures ServerOk(Final(s0, ups)) && Final(s0, ups).tree == Written(s0.tree, ups)
    ensures Final(s0, ups).meta.Keys == s0.meta.Keys
    ensures Final(s0, ups).tree.Keys == s0.tree.Keys
    ensures OldNodes(s0, Final(s0, ups), WrittenPaths(ups))
    decreases |ups|
  {
    hide ServerOk, OpOk, After, Final, WrittenPaths, OldNodes;
    if ups == [] {
      NoneUpdated(s0);
    } else {
      hide HistoryOk;
      var front, op := ups[..|ups| - 1], ups[|ups| - 1];
      LastUpdate(s0, ups);
      UpdatesKeepNodes(s0, front);
      UpdatedGrows(ups);
      OneUpdate(Final(s0, front), op);
      OneUpdateKeeps(s0, Final(s0, front), Final(s0, ups), WrittenPaths(front), op);
    }
  }

  /** The same nodes, except for version and content of the files in `updated`. */
  ghost predicate OldNodes(s0: Server, s: Server, updated: set<Path>) {
    && (forall p {:trigger s.meta[p]} :: p in s0.meta && p in s.meta ==>
          s.meta[p].id == s0.meta[p].id && (p !in updated ==> s.meta[p] == s0.meta[p]))
    && (forall p {:trigger p in updated} :: p in updated ==> p in s0.meta && p in s0.tree && s0.tree[p] != Folder)
    && (forall p {:trigger s0.tree[p]} :: p in s0.tree ==>
        p in s.tree && (s.tree[p] == Folder <==> s0.tree[p] == Folder))
  }

  lemma NoneUpdated(s0: Server)
    requires HistoryOk(s0, [])
    ensures Final(s0, []) == s0 && ServerOk(s0) && OldNodes(s0, s0, WrittenPaths([]))
  {
  }

  lemma OneUpdateKeeps(s0: Server, s: Server, u: Server, updated: set<Path>, op: Op)
    requires op.Update? && op.path in s.meta && op.path in s.tree && s.tree[op.path] != Folder
    requires u.meta.Keys == s.meta.Keys == s0.meta.Keys
    requires u.tree == s.tree[op.path := Regular(op.data)]
    requires u.meta == s.meta[op.path := Meta(s.meta[op.path].id, op.version)]
    requires OldNodes(s0, s, updated) && s.tree.Keys == s0.tree.Keys
    ensures OldNodes(s0, u, updated + {op.path})
  {
    assert op.path in s0.tree && (s.tree[op.path] == Folder <==> s0.tree[op.path] == Folder);
  }

  lemma UpdatedGrows(ups: seq<Op>)
    requires OnlyUpdates(ups) && ups != []
    ensures WrittenPaths(ups) == WrittenPaths(ups[..|ups| - 1]) + {ups[|ups| - 1].path}
  {
    var front := ups[..|ups| - 1];
    forall p
      ensures p in WrittenPaths(ups) <==> p in WrittenPaths(front) || p == ups[|ups| - 1].path
    {
      if p in WrittenPaths(front) {
        var j :| 0 <= j < |front| && front[j].path == p;
        assert ups[j].path == p;
      }
      if p in WrittenPaths(ups) {
        var j :| 0 <= j < |ups| && ups[j].path == p;
        if j < |front| { assert front[j].path == p; }
      }
    }
  }

  lemma LastUpdate(s0: Server, ups: seq<Op>)
    requires HistoryOk(s0, ups) && ups != []
    ensures var front, op := ups[..|ups| - 1], ups[|ups| - 1];
            && HistoryOk(s0, front) && ServerOk(Final(s0, front)) && OpOk(Final(s0, front), op)
            && Final(s0, ups) == After(Final(s0, front), op)
  {
    var front, op := ups[..|ups| - 1], ups[|ups| - 1];
    assert ups == front + [op];
    FinalGrows(s0, front, [op]);
    assert [op][1..] == [];
  }

  lemma OneUpdate(s: Server, op: Op)
    requires ServerOk(s) && OpOk(s, op) && op.Update?
    ensures var u := After(s, op);
            && ServerOk(u) && u.tree == s.tree[op.path := Regular(op.data)] && u.meta.Keys == s.meta.Keys
            && op.path in s.meta && op.path in s.tree && s.tree[op.path] != Folder
            && u.meta == s.meta[op.path := Meta(s.meta[op.path].id, op.version)]
  {
    AfterIsOk(s, op);
  }

  // ---------- the entries of the updates ----------

  lemma {:induction false} OneEntryEach(hash: Bytes -> string, s0: Server, ups: seq<Op>)
    requires HistoryOk(s0, ups) && OnlyUpdates(ups) && ups != []
    ensures var front, op := ups[..|ups| - 1], ups[|ups| - 1];
            && HistoryOk(s0, front) && ServerOk(Final(s0, front)) && OpOk(Final(s0, front), op)
            && Entries(hash, s0, ups) == Entries(hash, s0, front) + [Entry(hash, Final(s0, front), op, 0)]
  {
    var front, op := ups[..|ups| - 1], ups[|ups| - 1];
    LastUpdate(s0, ups);
    assert ups == front + [op];
    EntriesGrow(hash, s0, front, [op]);
    assert [op][1..] == [];
    var u := Final(s0, front);
    assert BlockOf(hash, u, op) == [Entry(hash, u, op, 0)];
    assert Entries(hash, u, [op]) == BlockOf(hash, u, op);
  }

  /** Where the client is when the updates up to `u` have been told: its files are `t`. */
  ghost predicate Taken(hash: Bytes -> string, u: Server, t: Tree, st: Start, s: Server, index: Index,
                        copies: set<Path>, g: Goal) {
    && ServerOk(s) && ServerOk(u) && g.tree == t && Frames(s, t) && Fits(hash, g.rows, s, copies, st.stale)
    && (forall p {:trigger p in st.stale} :: p in st.stale ==>
        p in t && IsStale(u, s, copies, p) && RowIs(hash, u, g.rows, p))
    && (forall p {:trigger s.meta[p]} :: p in s.meta && p !in st.stale ==> SameRow(g.rows, index, s.meta[p].id))
  }

  /** The same file before, after and throughout the push. */
  ghost predicate IsStale(u: Server, s: Server, copies: set<Path>, p: Path) {
    && p in u.meta && p in u.tree && u.tree[p] != Folder && p in s.meta && p in s.tree && s.tree[p] != Folder
    && u.meta[p].id == s.meta[p].id && p !in copies
  }

  ghost predicate SameRow(rows: Index, index: Index, id: NodeID) {
    (id in rows <==> id in index) && (id in rows ==> rows[id] == index[id])
  }

  /** The pushed state, as far as the files others have written are concerned. */
  ghost predicate StaleUntouched(hash: Bytes -> string, s0: Server, st: Start, s: Server, index: Index,
                                 copies: set<Path>) {
    && ServerOk(s0) && ServerOk(s) && Frames(s, st.local) && Fits(hash, index, s, copies, st.stale)
    && forall p {:trigger p in st.stale} :: p in st.stale ==>
        IsStale(s0, s, copies, p) && RowIs(hash, s0, index, p) && p in st.local
  }

  lemma {:induction false} UpdatesFollowed(hash: Bytes -> string, s0: Server, all: seq<Op>, ups: seq<Op>, st: Start,
                                           s: Server, index: Index, copies: set<Path>)
    requires SoundHash(hash) && StaleUntouched(hash, s0, st, s, index, copies)
    requires HistoryOk(s0, ups) && OnlyUpdates(ups) && OnlyUpdates(all) && st.stale == WrittenPaths(all) && ups <= all
    ensures var news := Entries(hash, s0, ups);
            && Steps(hash, Goal(st.local, index), news) && |news| == |ups|
            && Taken(hash, Final(s0, ups), Fetched(st.local, s0.tree, ups), st, s, index, copies,
                     Led(hash, Goal(st.local, index), news))
    decreases |ups|
  {
    hide StepOk, Next, Taken, Entry, ServerOk, OpOk, After, SoundHash, Written;
    var g0 := Goal(st.local, index);
    if ups == [] {
      NothingTaken(hash, s0, st, s, index, copies);
    } else {
      hide StaleUntouched, HistoryOk, Final, Entries, WrittenPaths;
      var front, op := ups[..|ups| - 1], ups[|ups| - 1];
      LastUpdate(s0, ups);
      var u, t := Final(s0, front), Fetched(st.local, s0.tree, front);
      OneEntryEach(hash, s0, ups);
      UpdatesKeepNodes(s0, front);
      UpdatesFollowed(hash, s0, all, front, st, s, index, copies);
      UpdatedIs(all, |ups| - 1);
      var g := Led(hash, g0, Entries(hash, s0, front));
      OneUpdateMore(hash, u, op, t, st, s, index, copies, g);
      OneMore(hash, g0, Entries(hash, s0, front), Entry(hash, u, op, 0));
    }
  }

  lemma UpdatedIs(ups: seq<Op>, j: nat)
    requires OnlyUpdates(ups) && j < |ups|
    ensures ups[j].path in WrittenPaths(ups)
  {
  }

  lemma NothingTaken(hash: Bytes -> string, s0: Server, st: Start, s: Server, index: Index, copies: set<Path>)
    requires StaleUntouched(hash, s0, st, s, index, copies)
    ensures Taken(hash, s0, st.local, st, s, index, copies, Goal(st.local, index))
  {
  }

  lemma OneUpdateMore(hash: Bytes -> string, u: Server, op: Op, t: Tree, st: Start, s: Server, index: Index,
                      copies: set<Path>, g: Goal)
    requires SoundHash(hash) && Taken(hash, u, t, st, s, index, copies, g) && op.Update? && op.path in st.stale
    requires OpOk(u, op)
    ensures var c := Entry(hash, u, op, 0);
            var t' := if op.path in u.tree && u.tree[op.path] == Regular(op.data) then t
                else t[op.path := Regular(op.data)];
            StepOk(hash, g, c) && Taken(hash, After(u, op), t', st, s, index, copies, Next(hash, g, c))
  {
    var p := op.path;
    var c := Entry(hash, u, op, 0);
    EntryOfUpdate(hash, u, op);
    UpdateFinds(hash, u, op, t, st, s, index, copies, g);
    hide ServerOk, OpOk, After, Frames, Fits, StepOk, NextTree, SameRow, Taken, RowIs, RowOf, SoundHash, Entry;
    UpdateStep(hash, s, g, copies, st.stale, c, p, op.data);
    TakenMore(hash, u, op, t, st, s, index, copies, g, Next(hash, g, c));
  }

  lemma UpdateFinds(hash: Bytes -> string, u: Server, op: Op, t: Tree, st: Start, s: Server, index: Index,
                    copies: set<Path>, g: Goal)
    requires SoundHash(hash) && Taken(hash, u, t, st, s, index, copies, g) && op.Update? && op.path in st.stale
    ensures var p := op.path;
            && IsStale(u, s, copies, p) && p in t && g.tree == t && s.meta[p].id in g.rows
            && ServerOk(s) && ServerOk(u) && Frames(s, t) && Fits(hash, g.rows, s, copies, st.stale)
            && (g.rows[s.meta[p].id].hash == hash(op.data) <==> u.tree[p] == Regular(op.data))
  {
    hide ServerOk, Frames, Fits;
    assert RowIs(hash, u, g.rows, op.path);
  }

  lemma TakenMore(hash: Bytes -> string, u: Server, op: Op, t: Tree, st: Start, s: Server, index: Index,
                  copies: set<Path>, g: Goal, g': Goal)
    requires Taken(hash, u, t, st, s, index, copies, g) && op.Update? && op.path in st.stale && OpOk(u, op)
    requires Frames(s, g'.tree) && Fits(hash, g'.rows, s, copies, st.stale)
    requires var c := Entry(hash, u, op, 0); g'.rows == g.rows[c.nodeID := RowOf(c)]
    requires g'.tree == g.tree || g'.tree == g.tree[op.path := Regular(op.data)]
    ensures Taken(hash, After(u, op), g'.tree, st, s, index, copies, g')
  {
    var c := Entry(hash, u, op, 0);
    hide ServerOk, OpOk, After, Frames, Fits, SameRow, RowIs, Entry, IsStale, RowOf;
    EntryOfUpdate(hash, u, op);
    AfterIsOk(u, op);
    StaleStays(u, op, s, copies, op.path);
    OthersStay(hash, u, After(u, op), s, g.rows, index, st.stale, op, c);
    forall p | p in st.stale
      ensures p in g'.tree && IsStale(After(u, op), s, copies, p)
    {
      StaleStays(u, op, s, copies, p);
    }
  }

  lemma StaleStays(u: Server, op: Op, s: Server, copies: set<Path>, p: Path)
    requires ServerOk(u) && OpOk(u, op) && op.Update? && IsStale(u, s, copies, p)
    ensures IsStale(After(u, op), s, copies, p) && p in u.meta && p in s.meta && u.meta[p].id == s.meta[p].id
  {
    OneUpdate(u, op);
  }

  lemma EntryOfUpdate(hash: Bytes -> string, s: Server, op: Op)
    requires ServerOk(s) && OpOk(s, op) && op.Update?
    ensures op.path in s.meta && var c := Entry(hash, s, op, 0);
            c.relPath == op.path && c.nodeID == s.meta[op.path].id && !c.deleted && !c.isDir && c.hash == hash(op.data)
  {
  }

  /** The update's row is the new server's; no other row changes. */
  lemma OthersStay(hash: Bytes -> string, u: Server, u': Server, s: Server, rows: Index, index: Index, stale: set<Path>,
                   op: Op, c: Change)
    requires ServerOk(u) && ServerOk(s) && OpOk(u, op) && op.Update? && u' == After(u, op) && ServerOk(u')
    requires c == Entry(hash, u, op, 0) && op.path in s.meta && op.path in stale && c.nodeID == s.meta[op.path].id
    requires forall p {:trigger p in stale} :: p in stale ==> p in u.meta && RowIs(hash, u, rows, p)
    requires forall p {:trigger s.meta[p]} :: p in s.meta && p !in stale ==> SameRow(rows, index, s.meta[p].id)
    ensures forall p {:trigger p in stale} :: p in stale ==>
              p in u'.meta && RowIs(hash, u', rows[c.nodeID := RowOf(c)], p)
    ensures forall p {:trigger s.meta[p]} :: p in s.meta && p !in stale ==>
              SameRow(rows[c.nodeID := RowOf(c)], index, s.meta[p].id)
  {
    OneUpdate(u, op);
  }
}
