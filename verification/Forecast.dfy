/** Where the entries of a feed take a client, one after the other, and the steps the pull after a
    push is made of: an entry that shows a node where it is now, one that shows it in passing, one
    for a node that is gone, and one for an older content of a file somebody else has written. */
module Forecast {
  import opened FileSystem
  import opened SyncTypes
  import opened Feed
  import opened Replay
  import opened PushState
  import opened Chronicle

  /** The bytes the entry's hash stands for. */
  ghost function BytesOf(hash: Bytes -> string, c: Change): Bytes {
    if b: Bytes :| hash(b) == c.hash then b else []
  }

  ghost function NextTree(hash: Bytes -> string, g: Goal, c: Change): Tree {
    if c.deleted then RemoveAll(g.tree, c.relPath)
    else if Relocates(g.rows, c) && g.rows[c.nodeID].path in g.tree then Moved(g.tree, g.rows[c.nodeID].path, c.relPath)
    else if c.isDir then g.tree[c.relPath := Folder]
    else if SeemsThere(g, c) then g.tree
    else g.tree[c.relPath := Regular(BytesOf(hash, c))]
  }

  ghost function Next(hash: Bytes -> string, g: Goal, c: Change): Goal {
    Goal(NextTree(hash, g, c), ApplyIndex(g.rows, c))
  }

  ghost function Led(hash: Bytes -> string, g: Goal, entries: seq<Change>): Goal {
    if entries == [] then g else Next(hash, Led(hash, g, entries[..|entries| - 1]), entries[|entries| - 1])
  }

  ghost predicate StepOk(hash: Bytes -> string, g: Goal, c: Change) {
    Settles(hash, g, c, BytesOf(hash, c), Next(hash, g, c))
  }

  /** Every entry is one the client can follow from where those before it lead. */
  ghost predicate Steps(hash: Bytes -> string, g: Goal, entries: seq<Change>) {
    forall i {:trigger entries[i]} :: 0 <= i < |entries| ==> StepOk(hash, Led(hash, g, entries[..i]), entries[i])
  }

  lemma OneMore(hash: Bytes -> string, g: Goal, entries: seq<Change>, c: Change)
    requires Steps(hash, g, entries) && StepOk(hash, Led(hash, g, entries), c)
    ensures Steps(hash, g, entries + [c])
    ensures Led(hash, g, entries + [c]) == Next(hash, Led(hash, g, entries), c)
  {
    hide StepOk, Next;
    var longer := entries + [c];
    assert longer[..|entries|] == entries;
    forall i {:trigger longer[i]} | 0 <= i < |longer|
      ensures StepOk(hash, Led(hash, g, longer[..i]), longer[i])
    {
      assert longer[..i] == entries[..i];
    }
  }

  lemma {:induction false} LedOn(hash: Bytes -> string, g: Goal, a: seq<Change>, b: seq<Change>)
    ensures Led(hash, g, a + b) == Led(hash, Led(hash, g, a), b)
    decreases |b|
  {
    hide Next;
    if b == [] {
      assert a + b == a;
    } else {
      LedOn(hash, g, a, b[..|b| - 1]);
      assert (a + b)[..|a + b| - 1] == a + b[..|b| - 1];
    }
  }

  lemma StepsOn(hash: Bytes -> string, g: Goal, a: seq<Change>, b: seq<Change>)
    requires Steps(hash, g, a) && Steps(hash, Led(hash, g, a), b)
    ensures Steps(hash, g, a + b)
  {
    hide StepOk, Led;
    forall i {:trigger (a + b)[i]} | 0 <= i < |a + b|
      ensures StepOk(hash, Led(hash, g, (a + b)[..i]), (a + b)[i])
    {
      if i < |a| {
        assert (a + b)[..i] == a[..i];
        assert (a + b)[i] == a[i];
      } else {
        LedOn(hash, g, a, b[..i - |a|]);
        assert (a + b)[..i] == a + b[..i - |a|];
        assert (a + b)[i] == b[i - |a|];
      }
    }
  }

  ghost function PlanFor(hash: Bytes -> string, g: Goal, entries: seq<Change>): Plan {
    Plan(seq(|entries| + 1, i requires 0 <= i <= |entries| => Led(hash, g, entries[..i])),
         seq(|entries|, i requires 0 <= i < |entries| => BytesOf(hash, entries[i])))
  }

  lemma PlanLeads(hash: Bytes -> string, g: Goal, entries: seq<Change>, feed: seq<Change>)
    requires Steps(hash, g, entries) && Numbers(feed, entries)
    ensures var plan := PlanFor(hash, g, entries);
            && Leads(hash, feed, plan) && plan.script[0] == g && plan.script[|feed|] == Led(hash, g, entries)
  {
    hide Settles, BytesOf, Steps, Led;
    var plan := PlanFor(hash, g, entries);
    assert entries[..0] == [] && entries[..|entries|] == entries;
    NothingLed(hash, g);
    forall i {:trigger plan.bodies[i]} | 0 <= i < |feed|
      ensures Settles(hash, plan.script[i], feed[i], plan.bodies[i], plan.script[i + 1])
    {
      StepIs(hash, g, entries, i);
      SeqNoIsIrrelevant(hash, plan.script[i], entries[i], feed[i].seqNo, plan.bodies[i], plan.script[i + 1]);
    }
  }

  lemma NothingLed(hash: Bytes -> string, g: Goal)
    ensures Led(hash, g, []) == g
  {
  }

  lemma StepIs(hash: Bytes -> string, g: Goal, entries: seq<Change>, i: nat)
    requires Steps(hash, g, entries) && i < |entries|
    ensures Settles(hash, Led(hash, g, entries[..i]), entries[i], BytesOf(hash, entries[i]),
                    Led(hash, g, entries[..i + 1]))
  {
    hide Settles, BytesOf, NextTree;
    assert StepOk(hash, Led(hash, g, entries[..i]), entries[i]);
    assert entries[..i + 1][..i] == entries[..i];
  }

  // ---------- what holds between the steps ----------

  /** Kinds and folders are the server's; files may be missing or hold something else. */
  ghost predicate Frames(s: Server, t: Tree) {
    && (forall p {:trigger p in t} :: p in t ==> p in s.tree && (s.tree[p] == Folder <==> t[p] == Folder))
    && (forall p {:trigger s.tree[p]} :: p in s.tree && s.tree[p] == Folder ==> p in t)
  }

  ghost predicate RowIs(hash: Bytes -> string, s: Server, rows: Index, p: Path)
    requires ServerOk(s) && p in s.meta
  {
    s.meta[p].id in rows && rows[s.meta[p].id] == RowAt(hash, p, s.tree[p], s.meta[p])
  }

  lemma FramedIsClosed(s: Server, t: Tree)
    requires ServerOk(s) && Frames(s, t)
    ensures Closed(t) && NoneIgnored(t)
  {
    forall p {:trigger Parent(p)} | p in t && p != []
      ensures Parent(p) in t && t[Parent(p)] == Folder
    {
      assert p in s.tree && Parent(p) in s.tree && s.tree[Parent(p)] == Folder;
    }
    assert s.tree[[]] == Folder;
  }

  lemma FramedIsWellFormed(hash: Bytes -> string, s: Server, g: Goal, copies: set<Path>, stale: set<Path>)
    requires ServerOk(s) && Frames(s, g.tree) && Fits(hash, g.rows, s, copies, stale)
    ensures WellFormed(g)
  {
    FramedIsClosed(s, g.tree);
    forall id {:trigger g.rows[id]} | id in g.rows
      ensures !Ignored(g.rows[id].path)
    {
      assert g.rows[id].path in s.tree;
    }
  }

  /** The row of a node told of. */
  lemma RowFits(hash: Bytes -> string, s: Server, rows: Index, copies: set<Path>, stale: set<Path>, p: Path, row: Row)
    requires ServerOk(s) && Fits(hash, rows, s, copies, stale) && p in s.meta
    requires row.path == p && row.isDir == (s.tree[p] == Folder)
    requires s.tree[p].Regular? && p !in stale ==> row.hash == hash(s.tree[p].data)
    ensures Fits(hash, rows[s.meta[p].id := row], s, copies - {p}, stale)
  {
    var rows' := rows[s.meta[p].id := row];
    forall q {:trigger s.meta[q]} | q in s.meta && q !in copies - {p}
      ensures s.meta[q].id in rows' && rows'[s.meta[q].id].path == q
    {
    }
  }

  lemma BytesAre(hash: Bytes -> string, c: Change, data: Bytes)
    requires SoundHash(hash) && c.hash == hash(data)
    ensures BytesOf(hash, c) == data
  {
  }

  lemma PutFrames(s: Server, t: Tree, p: Path, node: Node)
    requires ServerOk(s) && Frames(s, t) && p in s.meta && (s.tree[p] == Folder <==> node == Folder)
    ensures Frames(s, t[p := node])
    ensures Parent(p) in t && t[Parent(p)] == Folder
    ensures FreeSlot(t, p) || (p in t && (t[p] == Folder <==> node == Folder))
  {
    assert s.tree[Parent(p)] == Folder;
  }

  // ---------- a node shown where it is ----------

  /** The client takes the content if it does not know the node or has lost the file. */
  lemma ShowStep(hash: Bytes -> string, s: Server, g: Goal, untold: set<Path>, c: Change, p: Path)
    requires SoundHash(hash) && ServerOk(s) && Frames(s, g.tree) && Fits(hash, g.rows, s, untold, {})
    requires Shows(hash, s, c, p)
    ensures var g' := Next(hash, g, c);
            && StepOk(hash, g, c) && Frames(s, g'.tree) && Fits(hash, g'.rows, s, untold - {p}, {})
            && g'.rows == g.rows[c.nodeID := RowOf(c)]
            && g'.tree == if s.tree[p] == Folder || (p in g.tree && p !in untold) then g.tree
                else g.tree[p := s.tree[p]]
  {
    var g' := Next(hash, g, c);
    ShownRow(hash, s, g.rows, untold, c, p);
    RowFits(hash, s, g.rows, untold, {}, p, RowOf(c));
    if s.tree[p].Regular? { BytesAre(hash, c, s.tree[p].data); }
    PutFrames(s, g.tree, p, s.tree[p]);
    FramedIsWellFormed(hash, s, g, untold, {});
    assert s.tree[p] == Folder ==> p in g.tree && g.tree[p] == Folder && g.tree[p := Folder] == g.tree;
    hide Fits, ServerOk, Frames, WellFormed;
    FramedIsWellFormed(hash, s, g', untold - {p}, {});
  }

  lemma ShownRow(hash: Bytes -> string, s: Server, rows: Index, untold: set<Path>, c: Change, p: Path)
    requires SoundHash(hash) && ServerOk(s) && Fits(hash, rows, s, untold, {}) && Shows(hash, s, c, p)
    ensures p in s.meta && c.nodeID == s.meta[p].id && c.isDir == (s.tree[p] == Folder) && !Relocates(rows, c)
    ensures RowOf(c).path == p && RowOf(c).isDir == (s.tree[p] == Folder)
    ensures s.tree[p].Regular? ==> c.hash == hash(s.tree[p].data) && c.hash == RowOf(c).hash && c.hash != ""
    ensures c.nodeID in rows <==> p !in untold
    ensures s.tree[p].Regular? && p !in untold ==> rows[c.nodeID].hash == c.hash
  {
    if c.nodeID in rows {
      assert s.meta[rows[c.nodeID].path].id == c.nodeID;
    }
  }

  // ---------- a node that is gone ----------

  lemma GoneStep(hash: Bytes -> string, s: Server, g: Goal, untold: set<Path>, c: Change)
    requires ServerOk(s) && Frames(s, g.tree) && Fits(hash, g.rows, s, untold, {})
    requires c.deleted && Describes(hash, s, c)
    ensures StepOk(hash, g, c) && Next(hash, g, c) == g
  {
    FramedIsWellFormed(hash, s, g, untold, {});
    forall q | q in g.tree
      ensures !Within(c.relPath, q)
    {
      assert q in s.tree;
      if Within(c.relPath, q) { NothingBelowAbsent(s.tree, c.relPath, q); }
    }
    assert RemoveAll(g.tree, c.relPath) == g.tree;
    assert c.nodeID !in g.rows;
    assert g.rows - {c.nodeID} == g.rows;
  }

  // ---------- a file shown in passing ----------

  /** A file that is there is moved aside and back, over whatever is at `h`; one that is missing
      is taken to be the one at `h`, if there is one, and is downloaded otherwise. */
  function Bounced(t: Tree, p: Path, h: Path, node: Node): Tree {
    if p in t then t - {h}
    else if h in t then (t - {h})[p := t[h]]
    else t[p := node]
  }

  /** A file moved among files of a closed tree. */
  lemma FileMovedIs(t: Tree, o: Path, n: Path)
    requires Closed(t) && o in t && t[o] != Folder && o != n
    requires n in t || FreeSlot(t, n)
    requires n in t ==> t[n] != Folder
    ensures Moved(t, o, n) == (t - {o})[n := t[o]] && !Within(o, n)
  {
    var m, w := Moved(t, o, n), (t - {o})[n := t[o]];
    assert !Within(o, n) by {
      if Within(o, n) {
        if n in t { NothingBelowFile(t, o, n); }
        else { WithinParent(o, n); NothingBelowFile(t, o, Parent(n)); }
      }
    }
    forall r
      ensures r in m <==> r in w
      ensures r in m ==> m[r] == w[r]
    {
      if Within(n, r) {
        var q := o + r[|n|..];
        if q in t { NothingBelowFile(t, o, q); assert r == n; }
        if r == n { assert q == o; }
        if r in t { if n in t { NothingBelowFile(t, n, r); } else { NothingBelowAbsent(t, n, r); } }
      } else if r in t && Within(o, r) {
        NothingBelowFile(t, o, r);
      }
    }
  }

  ghost predicate IsWay(s: Server, p: Path, h: Path) {
    && p != [] && p in s.meta && p in s.tree && s.tree[p].Regular? && h != [] && h != p && !Ignored(h)
    && Parent(h) == Parent(p) && (h in s.tree ==> s.tree[h] != Folder)
  }

  /** Half-way through. */
  function Aside(t: Tree, p: Path, h: Path, node: Node): Tree {
    if p in t then (t - {p})[h := t[p]]
    else if h in t then t
    else t[h := node]
  }

  lemma AsideIs(s: Server, t: Tree, p: Path, h: Path, node: Node)
    requires ServerOk(s) && Frames(s, t) && IsWay(s, p, h) && node.Regular?
    ensures Closed(t) && FreeForFile(t, h) && (p in t ==> t[p] != Folder)
    ensures var u := Aside(t, p, h, node);
            Closed(u) && NoneIgnored(u) && h in u && u[h] != Folder && FreeSlot(u, p)
  {
    FramedIsClosed(s, t);
    PutFrames(s, t, p, node);
    assert h in t ==> t[h] != Folder;
    assert Parent(p) != h && Parent(p) != p;
    hide ServerOk, Frames;
    if p in t { CutKeepsClosed(t, p); }
    if p in t {
      PutKeepsClosed(t - {p}, h, t[p]);
    } else if h !in t {
      PutKeepsClosed(t, h, node);
    }
  }

  lemma BouncedIs(t: Tree, p: Path, h: Path, node: Node)
    requires p != h
    ensures var u := Aside(t, p, h, node); h in u && Bounced(t, p, h, node) == (u - {h})[p := u[h]]
  {
  }

  lemma BouncedFrames(s: Server, t: Tree, p: Path, h: Path, node: Node)
    requires ServerOk(s) && Frames(s, t) && IsWay(s, p, h) && node.Regular?
    ensures Frames(s, Bounced(t, p, h, node))
  {
    PutFrames(s, t, p, node);
    hide ServerOk;
  }

  lemma CutKeepsClosed(t: Tree, p: Path)
    requires Closed(t) && p in t && t[p] != Folder
    ensures Closed(t - {p})
  {
    RemoveFileIs(t, p);
    RemoveKeepsClosed(t, p);
  }

  lemma PassesAside(hash: Bytes -> string, g: Goal, a: Change, p: Path, h: Path, node: Node)
    requires WellFormed(g) && node.Regular? && BytesOf(hash, a) == node.data && a.hash == hash(node.data)
    requires a.hash != ""
    requires a.nodeID in g.rows && g.rows[a.nodeID].path == p && g.rows[a.nodeID].hash == a.hash && p != [] && h != p
    requires a.relPath == h && !a.deleted && !a.isDir && h != [] && !Ignored(h)
    requires FreeForFile(g.tree, h) && (p in g.tree ==> g.tree[p] != Folder)
    requires Closed(Aside(g.tree, p, h, node)) && NoneIgnored(Aside(g.tree, p, h, node))
    ensures StepOk(hash, g, a) && Next(hash, g, a) == Goal(Aside(g.tree, p, h, node), g.rows[a.nodeID := RowOf(a)])
    ensures WellFormed(Next(hash, g, a))
  {
    if p in g.tree { FileMovedIs(g.tree, p, h); }
    hide Closed, NoneIgnored, FreeForFile;
  }

  lemma PassesBack(hash: Bytes -> string, g: Goal, b: Change, p: Path, h: Path)
    requires WellFormed(g) && b.nodeID in g.rows && g.rows[b.nodeID].path == h && g.rows[b.nodeID].hash == b.hash
    requires b.relPath == p && !b.deleted && !b.isDir && p != [] && h != [] && h != p && !Ignored(p) && b.hash != ""
    requires h in g.tree && g.tree[h] != Folder && FreeSlot(g.tree, p)
    requires WellFormed(Goal((g.tree - {h})[p := g.tree[h]], g.rows[b.nodeID := RowOf(b)]))
    ensures StepOk(hash, g, b) && Next(hash, g, b) == Goal((g.tree - {h})[p := g.tree[h]], g.rows[b.nodeID := RowOf(b)])
  {
    FileMovedIs(g.tree, h, p);
    hide Closed, NoneIgnored;
  }

  lemma BounceStep(hash: Bytes -> string, s: Server, g: Goal, untold: set<Path>, a: Change, b: Change, p: Path, h: Path)
    requires SoundHash(hash) && ServerOk(s) && Frames(s, g.tree) && Fits(hash, g.rows, s, untold, {})
    requires Shows(hash, s, b, p) && Passes(a, b, h) && IsWay(s, p, h) && p !in untold
    ensures var g1 := Next(hash, g, a); var g2 := Next(hash, g1, b);
            && StepOk(hash, g, a) && StepOk(hash, g1, b) && Frames(s, g2.tree) && Fits(hash, g2.rows, s, untold, {})
            && g2.rows == g.rows[b.nodeID := RowOf(b)]
            && g2.tree == Bounced(g.tree, p, h, s.tree[p])
  {
    var x := s.tree[p];
    ShownRow(hash, s, g.rows, untold, b, p);
    KnownAt(hash, s, g.rows, untold, p);
    BytesAre(hash, a, x.data);
    FramedIsWellFormed(hash, s, g, untold, {});
    RowFits(hash, s, g.rows, untold, {}, p, RowOf(b));
    assert untold - {p} == untold;
    AsideIs(s, g.tree, p, h, x);
    BouncedIs(g.tree, p, h, x);
    BouncedFrames(s, g.tree, p, h, x);
    hide Fits, ServerOk, Frames, Bounced, Aside, SoundHash, Closed, NoneIgnored, StepOk, NextTree, FreeForFile,
         FreeSlot, BytesOf, WellFormed, Describes;
    PassesAside(hash, g, a, p, h, x);
    var g1 := Next(hash, g, a);
    assert g1.rows[b.nodeID := RowOf(b)] == g.rows[b.nodeID := RowOf(b)];
    FramedIsWellFormed(hash, s, Goal(Bounced(g.tree, p, h, x), g.rows[b.nodeID := RowOf(b)]), untold, {});
    PassesBack(hash, g1, b, p, h);
  }

  lemma KnownAt(hash: Bytes -> string, s: Server, rows: Index, untold: set<Path>, p: Path)
    requires Fits(hash, rows, s, untold, {}) && p in s.meta && p !in untold
    ensures s.meta[p].id in rows && rows[s.meta[p].id].path == p
  {
  }

  // ---------- an older content ----------

  /** Somebody else's update: downloaded exactly if its hash is not the one the client knows. */
  lemma UpdateStep(hash: Bytes -> string, s: Server, g: Goal, copies: set<Path>, stale: set<Path>, c: Change, p: Path,
                   data: Bytes)
    requires SoundHash(hash) && ServerOk(s) && Frames(s, g.tree) && Fits(hash, g.rows, s, copies, stale)
    requires p in stale && p in s.meta && p in s.tree && s.tree[p] != Folder && p in g.tree && p !in copies
    requires c.relPath == p && c.nodeID == s.meta[p].id && !c.deleted && !c.isDir && c.hash == hash(data)
    ensures var g' := Next(hash, g, c);
            && StepOk(hash, g, c) && Frames(s, g'.tree) && Fits(hash, g'.rows, s, copies, stale)
            && g'.rows == g.rows[c.nodeID := RowOf(c)] && c.nodeID in g.rows
            && g'.tree == if g.rows[c.nodeID].hash == c.hash then g.tree else g.tree[p := Regular(data)]
  {
    var g' := Next(hash, g, c);
    BytesAre(hash, c, data);
    assert g.rows[c.nodeID].path == p;
    RowFits(hash, s, g.rows, copies, stale, p, RowOf(c));
    assert copies - {p} == copies;
    PutFrames(s, g.tree, p, Regular(data));
    FramedIsWellFormed(hash, s, g, copies, stale);
    hide Fits, ServerOk, Frames, WellFormed;
    FramedIsWellFormed(hash, s, g', copies, stale);
  }
}
