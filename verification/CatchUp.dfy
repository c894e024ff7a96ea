/** The pull after a push. The feed tells the client about the updates of others and then about
    its own requests, a file in passing included; where that takes folder and index, and exactly
    when the folder ends up as the server's tree. */
module CatchUp {
  import opened FileSystem
  import opened SyncTypes
  import opened Feed
  import opened Replay
  import opened LocalChanges
  import opened Push
  import opened PushState
  import opened PushRun
  import opened Chronicle
  import opened Forecast
  import opened Foreign
  import E = Engine

  // ---------- what the client makes of its own changes ----------

  /** The effect of the entries of one change on the folder. */
  ghost function Pulled(t: Tree, local: Tree, conflicts: map<Path, Path>, c: LocalChange): Tree {
    if c.op == DeleteOp || c.relPath !in local then t
    else if c.relPath in conflicts then t[conflicts[c.relPath] := local[c.relPath]]
    else match Detour(c)
      case None => if c.relPath in t then t else t[c.relPath := local[c.relPath]]
      case Some(h) => Bounced(t, c.relPath, h, local[c.relPath])
  }

  ghost function Replayed(base: Tree, local: Tree, conflicts: map<Path, Path>, cs: seq<LocalChange>, k: nat): Tree
    requires k <= |cs|
  {
    if k == 0 then base else Pulled(Replayed(base, local, conflicts, cs, k - 1), local, conflicts, cs[k - 1])
  }

  /** The conflict copies the client has not been told of before the k-th change. */
  ghost function Untold(conflicts: map<Path, Path>, cs: seq<LocalChange>, k: nat): set<Path> {
    set j | k <= j < |cs| && cs[j].op in {CreateOp, UpdateOp} && cs[j].relPath in conflicts :: conflicts[cs[j].relPath]
  }

  /** What is known before the entries of the k-th change. */
  ghost predicate Ready(hash: Bytes -> string, s: Server, conflicts: map<Path, Path>, cs: seq<LocalChange>, k: nat,
                        g: Goal) {
    && ServerOk(s) && Frames(s, g.tree) && Fits(hash, g.rows, s, Untold(conflicts, cs, k), {})
    && (forall p {:trigger s.meta[p]} :: p in s.meta ==> RowIs(hash, s, g.rows, p) || IsTarget(conflicts, cs, k, p))
    && (forall p {:trigger p in s.tree} :: p in s.tree ==> p in g.tree || IsTarget(conflicts, cs, k, p))
  }

  /** Everything the push has left behind. */
  ghost predicate Pushed(hash: Bytes -> string, st: Start, s: Server, index: Index, conflicts: map<Path, Path>,
                         cs: seq<LocalChange>, told: seq<seq<Change>>)
  {
    && SoundHash(hash) && StartOk(hash, st) && Finished(hash, st, s, index, conflicts)
    && |told| == |cs| && Chronicled(hash, st, s, conflicts, cs, told) && Apart(cs)
    && Accounted(hash, st, s, index, conflicts, cs)
  }

  lemma NextTarget(conflicts: map<Path, Path>, cs: seq<LocalChange>, k: nat, p: Path)
    requires k < |cs|
    ensures IsTarget(conflicts, cs, k, p) <==>
              IsTarget(conflicts, cs, k + 1, p) || (cs[k].op != DeleteOp && Target(conflicts, cs[k]) == p)
  {
    hide Target;
    if cs[k].op != DeleteOp && Target(conflicts, cs[k]) == p { assert k <= k < |cs|; }
  }

  lemma NextUntold(conflicts: map<Path, Path>, cs: seq<LocalChange>, k: nat)
    requires k < |cs| && Apart(cs) && Injective(conflicts)
    ensures var more := cs[k].op in {CreateOp, UpdateOp} && cs[k].relPath in conflicts;
            && Untold(conflicts, cs, k) == (if more then Untold(conflicts, cs, k + 1) + {conflicts[cs[k].relPath]}
                                            else Untold(conflicts, cs, k + 1))
            && (more ==> conflicts[cs[k].relPath] !in Untold(conflicts, cs, k + 1))
    ensures Untold(conflicts, cs, k) <= conflicts.Values
  {
    var more := cs[k].op in {CreateOp, UpdateOp} && cs[k].relPath in conflicts;
    assert more ==> conflicts[cs[k].relPath] !in Untold(conflicts, cs, k + 1);
    hide Apart, Injective;
    forall q
      ensures q in Untold(conflicts, cs, k) <==>
                q in Untold(conflicts, cs, k + 1) || (more && q == conflicts[cs[k].relPath])
    {
    }
  }

  /** What the push's end says of one path. */
  lemma EndIs(hash: Bytes -> string, st: Start, s: Server, index: Index, conflicts: map<Path, Path>, p: Path)
    requires Finished(hash, st, s, index, conflicts)
    ensures EndsAt(hash, st, s, index, conflicts, p) && ServerOk(s) && Fits(hash, index, s, conflicts.Values, st.stale)
  {
  }

  lemma ToldIs(hash: Bytes -> string, st: Start, s: Server, conflicts: map<Path, Path>, cs: seq<LocalChange>,
               told: seq<seq<Change>>, k: nat)
    requires Chronicled(hash, st, s, conflicts, cs, told) && k < |told|
    ensures k < |cs| && Tells(hash, st, s, conflicts, cs, k, told[k]) && Injective(conflicts)
  {
  }

  /** A path a move goes through is no folder, no copy and no file others have written. */
  lemma WayIsOpen(hash: Bytes -> string, st: Start, s: Server, index: Index, conflicts: map<Path, Path>,
                  cs: seq<LocalChange>, told: seq<seq<Change>>, k: nat, h: Path)
    requires Pushed(hash, st, s, index, conflicts, cs, told) && k < |cs| && Detour(cs[k]) == Some(h)
    ensures h in s.tree ==> s.tree[h] != Folder
    ensures h !in conflicts.Values && h !in st.stale
    ensures h in s.tree ==> IsTarget(conflicts, cs, k + 1, h)
    ensures var p := cs[k].relPath; h != p && h != [] && p != [] && Parent(h) == Parent(p)
  {
    hide StartOk, EndsAt, Chronicled, Accounted, Apart, SoundHash, Fits, ServerOk;
    ToldIs(hash, st, s, conflicts, cs, told, k);
    EndIs(hash, st, s, index, conflicts, h);
    NotItsOwnWay(cs[k]);
    ParentOfChild(Parent(cs[k].relPath), Base(cs[k].oldRelPath));
    if h in s.tree || h in st.stale {
      StaleIsLocal(hash, st);
      assert h in st.local by { InTree(hash, st, s, index, conflicts, h); }
      var i :| k < i < |cs| && cs[i].op == MoveOp && cs[i].relPath == h;
      ToldIs(hash, st, s, conflicts, cs, told, i);
      assert cs[i].op != DeleteOp && Target(conflicts, cs[i]) == h;
      LocalIsTree(hash, st, s, index, conflicts, h);
    }
  }

  lemma StaleIsLocal(hash: Bytes -> string, st: Start)
    requires StartOk(hash, st)
    ensures forall p {:trigger p in st.stale} :: p in st.stale ==> p in st.local && st.local[p] != Folder
  {
  }

  lemma InTree(hash: Bytes -> string, st: Start, s: Server, index: Index, conflicts: map<Path, Path>, p: Path)
    requires EndsAt(hash, st, s, index, conflicts, p)
    ensures p in s.tree && p !in conflicts.Values ==> p in st.local
  {
  }

  lemma LocalIsTree(hash: Bytes -> string, st: Start, s: Server, index: Index, conflicts: map<Path, Path>, p: Path)
    requires EndsAt(hash, st, s, index, conflicts, p) && p in st.local && p !in conflicts && p !in st.stale
    ensures p in s.tree && s.tree[p] == st.local[p]
  {
  }

  lemma CopyIsTree(hash: Bytes -> string, st: Start, s: Server, index: Index, conflicts: map<Path, Path>, p: Path)
    requires EndsAt(hash, st, s, index, conflicts, p) && p in conflicts
    ensures p in st.local && st.local[p] != Folder && conflicts[p] in s.tree && s.tree[conflicts[p]] == st.local[p]
  {
  }

  /** The entries of one change. */
  lemma ChangeFollowed(hash: Bytes -> string, st: Start, s: Server, index: Index, conflicts: map<Path, Path>,
                       cs: seq<LocalChange>, told: seq<seq<Change>>, k: nat, g: Goal)
    requires Pushed(hash, st, s, index, conflicts, cs, told) && k < |cs| && Ready(hash, s, conflicts, cs, k, g)
    ensures Steps(hash, g, told[k]) && Ready(hash, s, conflicts, cs, k + 1, Led(hash, g, told[k]))
    ensures Led(hash, g, told[k]).tree == Pulled(g.tree, st.local, conflicts, cs[k])
  {
    hide StartOk, EndsAt, Chronicled, Accounted, SoundHash, Fits, ServerOk, Finished;
    hide StepOk, Next, Frames, IsTarget, Untold, Describes;
    ToldIs(hash, st, s, conflicts, cs, told, k);
    NextUntold(conflicts, cs, k);
    hide Apart, Injective;
    var seg := told[k];
    if cs[k].op == DeleteOp {
      GoneStep(hash, s, g, Untold(conflicts, cs, k), seg[0]);
      OneStep(hash, g, seg[0]);
      assert seg == [seg[0]];
      StillReady(hash, s, conflicts, cs, k, g, g, None);
    } else if Detour(cs[k]).Some? {
      MoveFollowed(hash, st, s, index, conflicts, cs, told, k, g, Detour(cs[k]).value);
    } else {
      ShowFollowed(hash, st, s, index, conflicts, cs, told, k, g);
    }
  }

  lemma OneStep(hash: Bytes -> string, g: Goal, c: Change)
    requires StepOk(hash, g, c)
    ensures Steps(hash, g, [c]) && Led(hash, g, [c]) == Next(hash, g, c)
  {
    hide StepOk, Next;
    assert [] + [c] == [c];
    OneMore(hash, g, [], c);
  }

  lemma TwoSteps(hash: Bytes -> string, g: Goal, a: Change, b: Change)
    requires StepOk(hash, g, a) && StepOk(hash, Next(hash, g, a), b)
    ensures Steps(hash, g, [a, b]) && Led(hash, g, [a, b]) == Next(hash, Next(hash, g, a), b)
  {
    hide StepOk, Next;
    OneStep(hash, g, a);
    assert [a] + [b] == [a, b];
    OneMore(hash, g, [a], b);
  }

  /** One row more is the server's, and the file it is about is there. */
  lemma StillReady(hash: Bytes -> string, s: Server, conflicts: map<Path, Path>, cs: seq<LocalChange>, k: nat,
                   g: Goal, g': Goal, way: Option<Path>)
    requires k < |cs| && Ready(hash, s, conflicts, cs, k, g)
    requires Frames(s, g'.tree) && Fits(hash, g'.rows, s, Untold(conflicts, cs, k + 1), {})
    requires cs[k].op == DeleteOp ==> g' == g
    requires cs[k].op != DeleteOp ==>
               var p := Target(conflicts, cs[k]);
               && p in s.meta && p in s.tree && p in g'.tree
               && g'.rows == g.rows[s.meta[p].id := RowAt(hash, p, s.tree[p], s.meta[p])]
               && forall q {:trigger q in g'.tree} :: q in g.tree && way != Some(q) ==> q in g'.tree
    requires way.Some? && way.value in s.tree ==> IsTarget(conflicts, cs, k + 1, way.value)
    ensures Ready(hash, s, conflicts, cs, k + 1, g')
  {
    hide IsTarget, Target, Untold, Frames, Fits;
    forall p | p in s.meta
      ensures RowIs(hash, s, g'.rows, p) || IsTarget(conflicts, cs, k + 1, p)
    {
      NextTarget(conflicts, cs, k, p);
    }
    forall p | p in s.tree
      ensures p in g'.tree || IsTarget(conflicts, cs, k + 1, p)
    {
      NextTarget(conflicts, cs, k, p);
    }
  }

  lemma ShowFollowed(hash: Bytes -> string, st: Start, s: Server, index: Index, conflicts: map<Path, Path>,
                     cs: seq<LocalChange>, told: seq<seq<Change>>, k: nat, g: Goal)
    requires Pushed(hash, st, s, index, conflicts, cs, told) && k < |cs| && Ready(hash, s, conflicts, cs, k, g)
    requires cs[k].op != DeleteOp && Detour(cs[k]) == None
    ensures Steps(hash, g, told[k]) && Ready(hash, s, conflicts, cs, k + 1, Led(hash, g, told[k]))
    ensures Led(hash, g, told[k]).tree == Pulled(g.tree, st.local, conflicts, cs[k])
  {
    hide StartOk, EndsAt, Chronicled, Accounted, SoundHash, Fits, ServerOk, Finished;
    hide StepOk, Next, Frames, IsTarget, Untold, Describes;
    ToldIs(hash, st, s, conflicts, cs, told, k);
    NextUntold(conflicts, cs, k);
    hide Apart, Injective;
    var c, p, owner := told[k][0], Target(conflicts, cs[k]), cs[k].relPath;
    var untold := Untold(conflicts, cs, k);
    assert told[k] == [c];
    ShowStep(hash, s, g, untold, c, p);
    OneStep(hash, g, c);
    ShownPath(hash, s, c, p);
    EndIs(hash, st, s, index, conflicts, owner);
    if owner in conflicts {
      CopyIsTree(hash, st, s, index, conflicts, owner);
      assert cs[k].op in {CreateOp, UpdateOp};
      assert untold - {p} == Untold(conflicts, cs, k + 1);
    } else {
      LocalIsTree(hash, st, s, index, conflicts, owner);
      assert p !in conflicts.Values && p !in untold && untold - {p} == Untold(conflicts, cs, k + 1);
      FolderIsFramed(s, g.tree, p);
    }
    StillReady(hash, s, conflicts, cs, k, g, Next(hash, g, c), None);
  }

  lemma FolderIsFramed(s: Server, t: Tree, p: Path)
    requires Frames(s, t) && p in s.tree
    ensures s.tree[p] == Folder ==> p in t && t[p] == Folder
  {
  }

  lemma ShownPath(hash: Bytes -> string, s: Server, c: Change, p: Path)
    requires Shows(hash, s, c, p)
    ensures p in s.meta && p in s.tree && c.nodeID == s.meta[p].id && RowOf(c) == RowAt(hash, p, s.tree[p], s.meta[p])
  {
  }

  /** What the two entries of a move by way of `h` find. */
  lemma MoveFinds(hash: Bytes -> string, st: Start, s: Server, index: Index, conflicts: map<Path, Path>,
                  cs: seq<LocalChange>, told: seq<seq<Change>>, k: nat, h: Path)
    requires Pushed(hash, st, s, index, conflicts, cs, told) && k < |cs| && Detour(cs[k]) == Some(h)
    ensures var p := cs[k].relPath;
            && IsWay(s, p, h) && p !in conflicts.Values && p !in conflicts && Target(conflicts, cs[k]) == p
            && cs[k].op == MoveOp
            && |told[k]| == 2 && Shows(hash, s, told[k][1], p) && Passes(told[k][0], told[k][1], h)
            && p in st.local && s.tree[p] == st.local[p] && Injective(conflicts)
            && (h in s.tree ==> IsTarget(conflicts, cs, k + 1, h))
  {
    WayIsOpen(hash, st, s, index, conflicts, cs, told, k, h);
    hide StartOk, EndsAt, Chronicled, Accounted, SoundHash, Fits, ServerOk, Finished, IsTarget, Describes, Apart,
         Injective;
    ToldIs(hash, st, s, conflicts, cs, told, k);
    ShownPath(hash, s, told[k][1], cs[k].relPath);
    EndIs(hash, st, s, index, conflicts, cs[k].relPath);
    LocalIsTree(hash, st, s, index, conflicts, cs[k].relPath);
  }

  lemma MoveFollowed(hash: Bytes -> string, st: Start, s: Server, index: Index, conflicts: map<Path, Path>,
                     cs: seq<LocalChange>, told: seq<seq<Change>>, k: nat, g: Goal, h: Path)
    requires Pushed(hash, st, s, index, conflicts, cs, told) && k < |cs| && Ready(hash, s, conflicts, cs, k, g)
    requires Detour(cs[k]) == Some(h)
    ensures Steps(hash, g, told[k]) && Ready(hash, s, conflicts, cs, k + 1, Led(hash, g, told[k]))
    ensures Led(hash, g, told[k]).tree == Pulled(g.tree, st.local, conflicts, cs[k])
  {
    hide StartOk, EndsAt, Chronicled, Accounted, SoundHash, Finished, Ready, Injective, IsWay, Shows, Passes,
         IsTarget, Untold, Detour, Bounced, Steps, Led;
    MoveFinds(hash, st, s, index, conflicts, cs, told, k, h);
    NextUntold(conflicts, cs, k);
    hide Apart, Target;
    assert told[k] == [told[k][0], told[k][1]];
    WayFollowed(hash, s, conflicts, cs, k, g, told[k][0], told[k][1], h);
  }

  lemma WayFollowed(hash: Bytes -> string, s: Server, conflicts: map<Path, Path>, cs: seq<LocalChange>, k: nat, g: Goal,
                    a: Change, b: Change, h: Path)
    requires SoundHash(hash) && k < |cs| && Ready(hash, s, conflicts, cs, k, g)
    requires cs[k].op == MoveOp && Target(conflicts, cs[k]) == cs[k].relPath && IsWay(s, cs[k].relPath, h)
    requires cs[k].relPath !in Untold(conflicts, cs, k) && Untold(conflicts, cs, k + 1) == Untold(conflicts, cs, k)
    requires Shows(hash, s, b, cs[k].relPath) && Passes(a, b, h)
    requires h in s.tree ==> IsTarget(conflicts, cs, k + 1, h)
    ensures Steps(hash, g, [a, b]) && Ready(hash, s, conflicts, cs, k + 1, Led(hash, g, [a, b]))
    ensures Led(hash, g, [a, b]).tree == Bounced(g.tree, cs[k].relPath, h, s.tree[cs[k].relPath])
  {
    hide SoundHash, ServerOk, Frames, Fits, StepOk, Next, IsTarget, Target, Untold, Bounced, Steps, Led;
    var p := cs[k].relPath;
    ShownPath(hash, s, b, p);
    BounceStep(hash, s, g, Untold(conflicts, cs, k), a, b, p, h);
    BouncedKeeps(g.tree, p, h, s.tree[p]);
    TwoSteps(hash, g, a, b);
    StillReady(hash, s, conflicts, cs, k, g, Next(hash, Next(hash, g, a), b), Some(h));
  }

  lemma BouncedKeeps(t: Tree, p: Path, h: Path, node: Node)
    requires p != h
    ensures p in Bounced(t, p, h, node)
    ensures forall q {:trigger q in Bounced(t, p, h, node)} :: q in t && q != h ==> q in Bounced(t, p, h, node)
  {
  }

  /** The client's own changes, one after the other. */
  lemma {:induction false} StoryFollowed(hash: Bytes -> string, st: Start, s: Server, index: Index,
                                         conflicts: map<Path, Path>, cs: seq<LocalChange>, told: seq<seq<Change>>,
                                         k: nat, g: Goal)
    requires Pushed(hash, st, s, index, conflicts, cs, told) && k <= |cs| && Ready(hash, s, conflicts, cs, 0, g)
    ensures Steps(hash, g, Flat(told[..k])) && Ready(hash, s, conflicts, cs, k, Led(hash, g, Flat(told[..k])))
    ensures Led(hash, g, Flat(told[..k])).tree == Replayed(g.tree, st.local, conflicts, cs, k)
    decreases k
  {
    hide StartOk, Finished, Chronicled, Accounted, Apart, Ready, StepOk, Next, Pulled;
    if k > 0 {
      StoryFollowed(hash, st, s, index, conflicts, cs, told, k - 1, g);
      var before := Flat(told[..k - 1]);
      assert told[..k] == told[..k - 1] + [told[k - 1]];
      FlatGrows(told[..k - 1], told[k - 1]);
      ChangeFollowed(hash, st, s, index, conflicts, cs, told, k - 1, Led(hash, g, before));
      LedOn(hash, g, before, told[k - 1]);
      StepsOn(hash, g, before, told[k - 1]);
    }
  }

  // ---------- from the pushed state to the server ----------

  lemma SameKinds(hash: Bytes -> string, st: Start, p: Path)
    requires StartOk(hash, st)
    ensures p in st.local && p in st.server.tree ==> (st.server.tree[p] == Folder <==> st.local[p] == Folder)
    ensures p in st.stale ==> p in st.local && st.local[p] != Folder && p in st.server.meta
  {
    if p in st.local { var _ := st.local[p]; }
  }

  lemma LocalIsFramed(hash: Bytes -> string, st: Start, s: Server, index: Index, conflicts: map<Path, Path>)
    requires StartOk(hash, st) && Finished(hash, st, s, index, conflicts)
    ensures Frames(s, st.local)
  {
    hide StartOk, EndsAt, ServerOk, Fits;
    forall p
      ensures p in st.local ==> p in s.tree && (s.tree[p] == Folder <==> st.local[p] == Folder)
      ensures p in s.tree && s.tree[p] == Folder ==> p in st.local
    {
      EndIs(hash, st, s, index, conflicts, p);
      SameKinds(hash, st, p);
      PathIsFramed(hash, st, s, index, conflicts, p);
    }
  }

  lemma PathIsFramed(hash: Bytes -> string, st: Start, s: Server, index: Index, conflicts: map<Path, Path>, p: Path)
    requires EndsAt(hash, st, s, index, conflicts, p)
    requires p in st.local && p in st.server.tree ==> (st.server.tree[p] == Folder <==> st.local[p] == Folder)
    requires p in st.stale ==> p in st.local && st.local[p] != Folder && p in st.server.meta
    ensures p in st.local ==> p in s.tree && (s.tree[p] == Folder <==> st.local[p] == Folder)
    ensures p in s.tree && s.tree[p] == Folder ==> p in st.local
  {
  }

  lemma StaleIsUntouched(hash: Bytes -> string, s0: Server, ups: seq<Op>, st: Start, s: Server, index: Index,
                         conflicts: map<Path, Path>)
    requires FromUpdates(hash, s0, ups, st) && Finished(hash, st, s, index, conflicts)
    ensures StaleUntouched(hash, s0, st, s, index, conflicts.Values)
  {
    hide StartOk, EndsAt, ServerOk, Fits, HistoryOk, Final, Indexes, OldNodes, WrittenPaths, OnlyUpdates;
    LocalIsFramed(hash, st, s, index, conflicts);
    UpdatesKeepNodes(s0, ups);
    forall p | p in st.stale
      ensures IsStale(s0, s, conflicts.Values, p) && RowIs(hash, s0, index, p) && p in st.local
    {
      EndIs(hash, st, s, index, conflicts, p);
      SameKinds(hash, st, p);
      FileIsUntouched(hash, s0, st, s, index, conflicts, p);
    }
  }

  lemma FileIsUntouched(hash: Bytes -> string, s0: Server, st: Start, s: Server, index: Index,
                        conflicts: map<Path, Path>, p: Path)
    requires EndsAt(hash, st, s, index, conflicts, p) && p in st.stale && p in st.server.meta
    requires Fits(hash, index, s, conflicts.Values, st.stale)
    requires ServerOk(s0) && Indexes(hash, st.rows, s0) && OldNodes(s0, st.server, st.stale)
    requires s0.meta.Keys == st.server.meta.Keys
    ensures IsStale(s0, s, conflicts.Values, p) && RowIs(hash, s0, index, p)
  {
    assert s0.tree[p] != Folder && st.server.meta[p].id == s0.meta[p].id;
    assert index[s.meta[p].id].path == p;
  }

  /** After the updates only the push's own changes are still to be told. */
  lemma StoryStarts(hash: Bytes -> string, s0: Server, ups: seq<Op>, st: Start, s: Server, index: Index,
                    conflicts: map<Path, Path>, cs: seq<LocalChange>, told: seq<seq<Change>>, g: Goal)
    requires FromUpdates(hash, s0, ups, st) && Pushed(hash, st, s, index, conflicts, cs, told)
    requires Taken(hash, st.server, Fetched(st.local, s0.tree, ups), st, s, index, conflicts.Values, g)
    ensures Ready(hash, s, conflicts, cs, 0, g)
  {
    hide StartOk, EndsAt, Chronicled, SoundHash, HistoryOk, Final, Indexes, OldNodes, WrittenPaths, OnlyUpdates,
         Apart, IsTarget, IsConflict, Untold, Fetched, Fits, ServerOk, SameRow, IsStale, AsBefore, Unedited, RowIs,
         Frames;
    UntoldAtFirst(hash, st, s, index, conflicts, cs);
    forall p | p in st.stale
      ensures AsBefore(st, s, index, p)
    {
      StaleIsAsBefore(hash, st, s, index, conflicts, p);
    }
    FitsByNow(hash, st, s, index, conflicts.Values, g.rows);
    UpdatesKeepNodes(s0, ups);
    forall p | p in s.meta
      ensures RowIs(hash, s, g.rows, p) || IsTarget(conflicts, cs, 0, p)
    {
      if p !in st.stale { FetchedElsewhere(st.local, s0.tree, ups, p); }
      RowByNow(hash, s0, st, s, index, conflicts, cs, g, p);
    }
    forall p | p in s.tree
      ensures p in g.tree || IsTarget(conflicts, cs, 0, p)
    {
      EndIs(hash, st, s, index, conflicts, p);
      InTree(hash, st, s, index, conflicts, p);
      if p in st.local { FetchedKeeps(st.local, s0.tree, ups, p); }
      else { CopyIsTarget(hash, st, s, index, conflicts, cs, p); }
    }
  }

  lemma {:induction false} FetchedKeeps(local: Tree, t: Tree, ups: seq<Op>, p: Path)
    requires OnlyUpdates(ups) && p in local
    ensures p in Fetched(local, t, ups)
  {
    if ups != [] { FetchedKeeps(local, t, ups[..|ups| - 1], p); }
  }

  lemma CopyIsTarget(hash: Bytes -> string, st: Start, s: Server, index: Index, conflicts: map<Path, Path>,
                     cs: seq<LocalChange>, q: Path)
    requires Accounted(hash, st, s, index, conflicts, cs) && q in conflicts.Values
    ensures IsTarget(conflicts, cs, 0, q)
  {
    var p :| p in conflicts && conflicts[p] == q;
    assert IsConflict(cs, 0, p);
    var i :| 0 <= i < |cs| && cs[i].op in {CreateOp, UpdateOp} && cs[i].relPath == p;
    assert cs[i].op != DeleteOp && Target(conflicts, cs[i]) == q;
  }

  lemma UntoldAtFirst(hash: Bytes -> string, st: Start, s: Server, index: Index, conflicts: map<Path, Path>,
                      cs: seq<LocalChange>)
    requires Accounted(hash, st, s, index, conflicts, cs)
    ensures Untold(conflicts, cs, 0) == conflicts.Values
  {
    forall q
      ensures q in Untold(conflicts, cs, 0) <==> q in conflicts.Values
    {
      if q in conflicts.Values {
        var p :| p in conflicts && conflicts[p] == q;
        assert IsConflict(cs, 0, p);
        var i :| 0 <= i < |cs| && cs[i].op in {CreateOp, UpdateOp} && cs[i].relPath == p;
        assert conflicts[cs[i].relPath] == q;
      }
    }
  }

  lemma StaleIsAsBefore(hash: Bytes -> string, st: Start, s: Server, index: Index, conflicts: map<Path, Path>, p: Path)
    requires StartOk(hash, st) && Finished(hash, st, s, index, conflicts) && p in st.stale
    ensures AsBefore(st, s, index, p)
  {
    hide StartOk, EndsAt, ServerOk, Fits, AsBefore;
    EndIs(hash, st, s, index, conflicts, p);
    SameKinds(hash, st, p);
    EndsAsBefore(hash, st, s, index, conflicts, p);
  }

  lemma EndsAsBefore(hash: Bytes -> string, st: Start, s: Server, index: Index, conflicts: map<Path, Path>, p: Path)
    requires EndsAt(hash, st, s, index, conflicts, p) && p in st.server.meta && (p in st.stale || p in conflicts)
    ensures AsBefore(st, s, index, p) && Outdated(st, p)
  {
  }

  lemma FitsByNow(hash: Bytes -> string, st: Start, s: Server, index: Index, copies: set<Path>, rows: Index)
    requires ServerOk(s) && ServerOk(st.server) && Fits(hash, rows, s, copies, st.stale)
    requires forall p {:trigger p in st.stale} :: p in st.stale ==>
               IsStale(st.server, s, copies, p) && RowIs(hash, st.server, rows, p)
    requires forall p {:trigger p in st.stale} :: p in st.stale ==> AsBefore(st, s, index, p)
    ensures Fits(hash, rows, s, copies, {})
  {
    forall p {:trigger s.meta[p]} | p in s.meta && p !in copies && s.tree[p].Regular?
      ensures rows[s.meta[p].id].hash == hash(s.tree[p].data)
    {
      if p in st.stale { assert RowIs(hash, st.server, rows, p); }
    }
  }

  lemma RowByNow(hash: Bytes -> string, s0: Server, st: Start, s: Server, index: Index, conflicts: map<Path, Path>,
                 cs: seq<LocalChange>, g: Goal, p: Path)
    requires ServerOk(s0) && ServerOk(s) && ServerOk(st.server) && Indexes(hash, st.rows, s0) && p in s.meta
    requires OldNodes(s0, st.server, st.stale) && s0.meta.Keys == st.server.meta.Keys
    requires Accounted(hash, st, s, index, conflicts, cs)
    requires p in st.stale ==> RowIs(hash, st.server, g.rows, p) && AsBefore(st, s, index, p)
    requires p !in st.stale ==> SameRow(g.rows, index, s.meta[p].id)
    requires p !in st.stale && p in s0.tree && p in st.server.tree ==> s0.tree[p] == st.server.tree[p]
    ensures RowIs(hash, s, g.rows, p) || IsTarget(conflicts, cs, 0, p)
  {
    assert AsBefore(st, s, index, p) || IsTarget(conflicts, cs, 0, p);
    if AsBefore(st, s, index, p) && p !in st.stale {
      assert st.server.meta[p] == s0.meta[p];
    }
  }

  /** The folder as the pull leaves it. */
  ghost function PulledTree(s0: Server, ups: seq<Op>, st: Start, conflicts: map<Path, Path>, cs: seq<LocalChange>): Tree
    requires OnlyUpdates(ups)
  {
    Replayed(Fetched(st.local, s0.tree, ups), st.local, conflicts, cs, |cs|)
  }

  /** The feed since the last pull: what others have written, then the push's own requests. */
  ghost function News(hash: Bytes -> string, s0: Server, ups: seq<Op>, told: seq<seq<Change>>): seq<Change>
    requires HistoryOk(s0, ups)
  {
    Entries(hash, s0, ups) + Flat(told)
  }

  /** Every entry of that feed can be followed, and at its end the index is the server's. */
  lemma NewsFollowed(hash: Bytes -> string, s0: Server, ups: seq<Op>, st: Start, s: Server, index: Index,
                     conflicts: map<Path, Path>, cs: seq<LocalChange>, told: seq<seq<Change>>)
    requires FromUpdates(hash, s0, ups, st) && Pushed(hash, st, s, index, conflicts, cs, told)
    ensures Steps(hash, Goal(st.local, index), News(hash, s0, ups, told))
    ensures var g := Led(hash, Goal(st.local, index), News(hash, s0, ups, told));
            && g.tree == PulledTree(s0, ups, st, conflicts, cs) && Ready(hash, s, conflicts, cs, |cs|, g)
            && Indexes(hash, g.rows, s)
  {
    hide StartOk, Finished, Chronicled, Accounted, Apart, Ready, StepOk, Next, SoundHash, Indexes, Final, Taken,
         StaleUntouched;
    var g0, first := Goal(st.local, index), Entries(hash, s0, ups);
    StaleIsUntouched(hash, s0, ups, st, s, index, conflicts);
    UpdatesFollowed(hash, s0, ups, ups, st, s, index, conflicts.Values);
    hide HistoryOk, Entries, Steps, Led, OnlyUpdates;
    var g1 := Led(hash, g0, first);
    StoryStarts(hash, s0, ups, st, s, index, conflicts, cs, told, g1);
    TakenTree(hash, s0, ups, st, s, index, conflicts, g1);
    assert told[..|cs|] == told;
    StoryFollowed(hash, st, s, index, conflicts, cs, told, |cs|, g1);
    LedOn(hash, g0, first, Flat(told));
    StepsOn(hash, g0, first, Flat(told));
    AllTold(hash, s, conflicts, cs, Led(hash, g1, Flat(told)));
  }

  lemma TakenTree(hash: Bytes -> string, s0: Server, ups: seq<Op>, st: Start, s: Server, index: Index,
                  conflicts: map<Path, Path>, g: Goal)
    requires OnlyUpdates(ups)
    requires Taken(hash, st.server, Fetched(st.local, s0.tree, ups), st, s, index, conflicts.Values, g)
    ensures g.tree == Fetched(st.local, s0.tree, ups)
  {
  }

  lemma AllTold(hash: Bytes -> string, s: Server, conflicts: map<Path, Path>, cs: seq<LocalChange>, g: Goal)
    requires Ready(hash, s, conflicts, cs, |cs|, g)
    ensures ServerOk(s) && Indexes(hash, g.rows, s)
  {
    forall p | p in s.meta
      ensures RowIs(hash, s, g.rows, p)
    {
    }
    hide RowIs, ServerOk;
    assert forall p {:trigger s.meta[p]} :: p in s.meta ==> RowIs(hash, s, g.rows, p);
    RowsIndex(hash, s, g.rows, Untold(conflicts, cs, |cs|));
  }

  lemma RowsIndex(hash: Bytes -> string, s: Server, rows: Index, untold: set<Path>)
    requires ServerOk(s) && Fits(hash, rows, s, untold, {})
    requires forall p {:trigger s.meta[p]} :: p in s.meta ==> RowIs(hash, s, rows, p)
    ensures Indexes(hash, rows, s)
  {
  }

  // ---------- when the folder is the server's tree ----------

  /** One of the first k changes takes its file through this path. */
  ghost predicate HasPassed(cs: seq<LocalChange>, k: nat, h: Path)
    requires k <= |cs|
  {
    exists i :: 0 <= i < k && Detour(cs[i]) == Some(h)
  }

  /** The path of the j-th change has been emptied by a file in passing, and the path its file
      passes through has not, and holds something else. */
  ghost predicate Displaces(local: Tree, cs: seq<LocalChange>, j: nat)
    requires j < |cs|
  {
    && Detour(cs[j]).Some? && cs[j].relPath in local && Detour(cs[j]).value in local
    && local[Detour(cs[j]).value] != local[cs[j].relPath]
    && HasPassed(cs, j, cs[j].relPath) && !HasPassed(cs, j, Detour(cs[j]).value)
  }

  /** No change displaces a file. The caller can tell before the push. */
  ghost predicate Straight(local: Tree, cs: seq<LocalChange>) {
    forall j :: 0 <= j < |cs| ==> !Displaces(local, cs, j)
  }

  /** What a push that goes through has as its plan: changes of different paths, their files
      there, and a local file on the way of a move is one that a later move has put there. */
  ghost predicate Passable(local: Tree, cs: seq<LocalChange>) {
    && (forall i, j :: 0 <= i < j < |cs| ==> cs[i].relPath != cs[j].relPath)
    && (forall j :: 0 <= j < |cs| && cs[j].op != DeleteOp ==> cs[j].relPath in local)
    && (forall j :: 0 <= j < |cs| && Detour(cs[j]).Some? ==> ComesLater(local, cs, j, Detour(cs[j]).value))
  }

  ghost predicate ComesLater(local: Tree, cs: seq<LocalChange>, j: nat, h: Path) {
    h in local ==> exists i :: j < i < |cs| && cs[i].op == MoveOp && cs[i].relPath == h
  }

  /** What the folder has at a path when the first k changes have been replayed. */
  ghost function MixedTo(local: Tree, cs: seq<LocalChange>, k: nat, p: Path): Node
    requires k <= |cs| && p in local
  {
    if k == 0 then local[p]
    else if cs[k - 1].relPath == p && Displaces(local, cs, k - 1) then local[Detour(cs[k - 1]).value]
    else MixedTo(local, cs, k - 1, p)
  }

  ghost predicate IsPut(cs: seq<LocalChange>, k: nat, p: Path)
    requires k <= |cs|
  {
    exists i :: 0 <= i < k && cs[i].op != DeleteOp && cs[i].relPath == p
  }

  /** A path is empty from the time something has passed through it until its own change. */
  ghost predicate MixedAt(local: Tree, cs: seq<LocalChange>, k: nat, t: Tree, p: Path)
    requires k <= |cs|
  {
    && (p in t ==> p in local && t[p] == MixedTo(local, cs, k, p))
    && (p in local ==> (p in t <==> !HasPassed(cs, k, p) || IsPut(cs, k, p)))
  }

  lemma {:induction false} NotPutIsUnmixed(local: Tree, cs: seq<LocalChange>, k: nat, p: Path)
    requires k <= |cs| && p in local && !IsPut(cs, k, p)
    ensures MixedTo(local, cs, k, p) == local[p]
    decreases k
  {
    if k > 0 {
      var before := k - 1;
      assert !IsPut(cs, before, p);
      NotPutIsUnmixed(local, cs, before, p);
    }
  }

  lemma NextWay(cs: seq<LocalChange>, k: nat, p: Path)
    requires k < |cs|
    ensures HasPassed(cs, k + 1, p) <==> HasPassed(cs, k, p) || Detour(cs[k]) == Some(p)
    ensures IsPut(cs, k + 1, p) <==> IsPut(cs, k, p) || (cs[k].op != DeleteOp && cs[k].relPath == p)
  {
    hide Detour;
    if HasPassed(cs, k, p) { var i :| 0 <= i < k && Detour(cs[i]) == Some(p); }
    if IsPut(cs, k, p) { var i :| 0 <= i < k && cs[i].op != DeleteOp && cs[i].relPath == p; }
  }

  lemma NotYetPut(local: Tree, cs: seq<LocalChange>, k: nat)
    requires Passable(local, cs) && k < |cs|
    ensures !IsPut(cs, k, cs[k].relPath)
    ensures Detour(cs[k]).Some? && Detour(cs[k]).value in local ==> !IsPut(cs, k + 1, Detour(cs[k]).value)
  {
    hide Detour;
    if Detour(cs[k]).Some? && Detour(cs[k]).value in local {
      assert ComesLater(local, cs, k, Detour(cs[k]).value);
    }
  }

  lemma MixedOnAt(local: Tree, cs: seq<LocalChange>, k: nat, t: Tree, p: Path)
    requires Passable(local, cs) && k < |cs|
    requires MixedAt(local, cs, k, t, p) && MixedAt(local, cs, k, t, cs[k].relPath)
    requires Detour(cs[k]).Some? ==> MixedAt(local, cs, k, t, Detour(cs[k]).value)
    ensures MixedAt(local, cs, k + 1, Pulled(t, local, map[], cs[k]), p)
  {
    var c := cs[k];
    assert c.op != DeleteOp ==> c.relPath in local;
    NotYetPut(local, cs, k);
    NextWay(cs, k, p);
    if Detour(c).Some? {
      NotItsOwnWay(c);
      NextWay(cs, k, Detour(c).value);
      if Detour(c).value in local && !IsPut(cs, k, Detour(c).value) { NotPutIsUnmixed(local, cs, k, Detour(c).value); }
      assert c.op == MoveOp;
    }
    if c.relPath in local { NotPutIsUnmixed(local, cs, k, c.relPath); }
    hide Detour, HasPassed, IsPut, Passable;
  }

  lemma NothingMixedYet(local: Tree, cs: seq<LocalChange>, p: Path)
    ensures MixedAt(local, cs, 0, local, p)
  {
  }

  /** So that is what replaying the changes in the local tree alone leaves at every path. */
  lemma {:induction false} ReplayMixes(local: Tree, cs: seq<LocalChange>, k: nat, p: Path)
    requires Passable(local, cs) && k <= |cs|
    ensures MixedAt(local, cs, k, Replayed(local, local, map[], cs, k), p)
    decreases k
  {
    hide MixedAt, Passable, Detour, Pulled;
    if k == 0 {
      NothingMixedYet(local, cs, p);
    } else {
      ReplayMixes(local, cs, k - 1, p);
      ReplayMixes(local, cs, k - 1, cs[k - 1].relPath);
      if Detour(cs[k - 1]).Some? { ReplayMixes(local, cs, k - 1, Detour(cs[k - 1]).value); }
      MixedOnAt(local, cs, k - 1, Replayed(local, local, map[], cs, k - 1), p);
    }
  }

  lemma {:induction false} OnlyMixedByOwn(local: Tree, cs: seq<LocalChange>, k: nat, j: nat)
    requires Passable(local, cs) && j < k <= |cs| && Displaces(local, cs, j)
    ensures MixedTo(local, cs, k, cs[j].relPath) == local[Detour(cs[j]).value]
    decreases k
  {
    if j < k - 1 {
      OnlyMixedByOwn(local, cs, k - 1, j);
      hide Displaces, Detour;
    }
  }

  lemma {:induction false} UnmixedIfStraight(local: Tree, cs: seq<LocalChange>, k: nat, p: Path)
    requires Straight(local, cs) && k <= |cs| && p in local
    ensures MixedTo(local, cs, k, p) == local[p]
    decreases k
  {
    if k > 0 { UnmixedIfStraight(local, cs, k - 1, p); }
  }

  /** Replaying the changes of a push that goes through leaves every file where it was; a file
      displaced has the bytes of the file its own one passed by, and nothing has changed if and
      only if no change displaces a file. */
  lemma StraightIff(local: Tree, cs: seq<LocalChange>)
    requires Passable(local, cs)
    ensures var end := Replayed(local, local, map[], cs, |cs|);
            && end.Keys == local.Keys
            && (forall j {:trigger Displaces(local, cs, j)} :: 0 <= j < |cs| && Displaces(local, cs, j) ==>
                  end[cs[j].relPath] == local[Detour(cs[j]).value])
            && (end == local <==> Straight(local, cs))
  {
    hide Displaces, Detour, HasPassed, IsPut, Replayed, Passable, MixedTo;
    var n := |cs|;
    var end := Replayed(local, local, map[], cs, n);
    forall p
      ensures p in end <==> p in local
      ensures p in local ==> end[p] == MixedTo(local, cs, n, p)
    {
      ReplayMixes(local, cs, n, p);
      if p in local && HasPassed(cs, n, p) { WayIsPut(local, cs, p); }
    }
    forall j {:trigger Displaces(local, cs, j)} | 0 <= j < n && Displaces(local, cs, j)
      ensures cs[j].relPath in local && Detour(cs[j]).Some? && Detour(cs[j]).value in local
      ensures end[cs[j].relPath] == local[Detour(cs[j]).value] != local[cs[j].relPath]
    {
      OnlyMixedByOwn(local, cs, n, j);
      DisplacedDiffers(local, cs, j);
    }
    if Straight(local, cs) {
      forall p | p in local
        ensures end[p] == local[p]
      {
        UnmixedIfStraight(local, cs, n, p);
      }
    }
  }

  lemma DisplacedDiffers(local: Tree, cs: seq<LocalChange>, j: nat)
    requires j < |cs| && Displaces(local, cs, j)
    ensures cs[j].relPath in local && Detour(cs[j]).Some? && Detour(cs[j]).value in local
    ensures local[Detour(cs[j]).value] != local[cs[j].relPath]
  {
  }

  lemma WayIsPut(local: Tree, cs: seq<LocalChange>, h: Path)
    requires Passable(local, cs) && HasPassed(cs, |cs|, h) && h in local
    ensures IsPut(cs, |cs|, h)
  {
    hide Detour;
    var i :| 0 <= i < |cs| && Detour(cs[i]) == Some(h);
    assert ComesLater(local, cs, i, h);
    var j :| i < j < |cs| && cs[j].op == MoveOp && cs[j].relPath == h;
  }

  lemma PlanIsPassable(hash: Bytes -> string, st: Start, s: Server, index: Index, conflicts: map<Path, Path>,
                       cs: seq<LocalChange>, told: seq<seq<Change>>)
    requires Pushed(hash, st, s, index, conflicts, cs, told)
    ensures Passable(st.local, cs)
  {
    hide StartOk, Finished, Accounted, SoundHash, Describes, Chronicled;
    forall j | 0 <= j < |cs|
      ensures cs[j].op != DeleteOp ==> cs[j].relPath in st.local
      ensures Detour(cs[j]).Some? ==> ComesLater(st.local, cs, j, Detour(cs[j]).value)
    {
      ToldIs(hash, st, s, conflicts, cs, told, j);
    }
    forall i, j | 0 <= i < j < |cs|
      ensures cs[i].relPath != cs[j].relPath
    {
      assert cs[i].relPath in Touches(cs[i]) && cs[j].relPath in Touches(cs[j]);
    }
  }

  /** The replayed tree `t` of the pull beside the one of the local tree alone, at one path. */
  ghost predicate AlongAt(st: Start, s: Server, conflicts: map<Path, Path>, cs: seq<LocalChange>, k: nat, base: Tree,
                          t: Tree, alone: Tree, p: Path)
  {
    && (p !in st.stale && p !in conflicts.Values ==> (p in t <==> p in alone) && (p in t ==> t[p] == alone[p]))
    && (p in st.stale && p in base ==> p in t && t[p] == base[p])
    && (p in st.local && (p in st.stale || p in conflicts.Values) ==> p in alone && alone[p] == st.local[p])
    && (p in alone ==> p in st.local)
    && (p in conflicts.Values ==> (p in t && p in s.tree && t[p] == s.tree[p]) || IsTarget(conflicts, cs, k, p))
  }

  ghost predicate Along(st: Start, s: Server, conflicts: map<Path, Path>, cs: seq<LocalChange>, k: nat, base: Tree,
                        t: Tree, alone: Tree) {
    forall p {:trigger AlongAt(st, s, conflicts, cs, k, base, t, alone, p)} ::
        AlongAt(st, s, conflicts, cs, k, base, t, alone, p)
  }

  /** What one change is, as far as that comparison goes. */
  ghost predicate Ordinary(st: Start, s: Server, conflicts: map<Path, Path>, c: LocalChange) {
    c.op != DeleteOp ==>
      && c.relPath in st.local
      && (if c.relPath in conflicts then
            && (c.relPath in st.stale || c.relPath in conflicts.Values) && Detour(c) == None
            && conflicts[c.relPath] !in st.stale && conflicts[c.relPath] in s.tree
            && s.tree[conflicts[c.relPath]] == st.local[c.relPath]
          else
            && c.relPath !in st.stale && c.relPath !in conflicts.Values
            && (Detour(c).Some? ==>
                var h := Detour(c).value;
                h != c.relPath && h !in st.stale && h !in conflicts.Values))
  }

  lemma AlongOn(st: Start, s: Server, conflicts: map<Path, Path>, cs: seq<LocalChange>, k: nat, base: Tree, t: Tree,
                alone: Tree)
    requires k < |cs| && Along(st, s, conflicts, cs, k, base, t, alone) && Ordinary(st, s, conflicts, cs[k])
    ensures Along(st, s, conflicts, cs, k + 1, base, Pulled(t, st.local, conflicts, cs[k]),
                  Pulled(alone, st.local, map[], cs[k]))
  {
    var t', alone' := Pulled(t, st.local, conflicts, cs[k]), Pulled(alone, st.local, map[], cs[k]);
    hide IsTarget, Detour, Pulled, AlongAt, Ordinary;
    var p, next := cs[k].relPath, k + 1;
    assert AlongAt(st, s, conflicts, cs, k, base, t, alone, p);
    assert Detour(cs[k]).Some? ==> AlongAt(st, s, conflicts, cs, k, base, t, alone, Detour(cs[k]).value);
    forall q
      ensures AlongAt(st, s, conflicts, cs, next, base, t', alone', q)
    {
      assert AlongAt(st, s, conflicts, cs, k, base, t, alone, q);
      NextTarget(conflicts, cs, k, q);
      AlongOnAt(st, s, conflicts, cs, k, base, t, alone, q);
    }
  }

  lemma AlongOnAt(st: Start, s: Server, conflicts: map<Path, Path>, cs: seq<LocalChange>, k: nat, base: Tree, t: Tree,
                  alone: Tree, q: Path)
    requires k < |cs| && AlongAt(st, s, conflicts, cs, k, base, t, alone, q) && Ordinary(st, s, conflicts, cs[k])
    requires AlongAt(st, s, conflicts, cs, k, base, t, alone, cs[k].relPath)
    requires Detour(cs[k]).Some? ==> AlongAt(st, s, conflicts, cs, k, base, t, alone, Detour(cs[k]).value)
    requires IsTarget(conflicts, cs, k, q) <==>
               IsTarget(conflicts, cs, k + 1, q) || (cs[k].op != DeleteOp && Target(conflicts, cs[k]) == q)
    ensures AlongAt(st, s, conflicts, cs, k + 1, base, Pulled(t, st.local, conflicts, cs[k]),
                    Pulled(alone, st.local, map[], cs[k]), q)
  {
    hide IsTarget, Detour;
  }

  lemma ChangeIsOrdinary(hash: Bytes -> string, s0: Server, ups: seq<Op>, st: Start, s: Server, index: Index,
                         conflicts: map<Path, Path>, cs: seq<LocalChange>, told: seq<seq<Change>>, k: nat)
    requires FromUpdates(hash, s0, ups, st) && Pushed(hash, st, s, index, conflicts, cs, told) && k < |cs|
    ensures Ordinary(st, s, conflicts, cs[k])
  {
    hide StartOk, EndsAt, Chronicled, Accounted, SoundHash, Finished, HistoryOk, Final, Indexes, Fits, Describes,
         Apart, ServerOk;
    var p := cs[k].relPath;
    ToldIs(hash, st, s, conflicts, cs, told, k);
    if Detour(cs[k]).Some? {
      WayIsOpen(hash, st, s, index, conflicts, cs, told, k, Detour(cs[k]).value);
    }
    if p in conflicts {
      EndIs(hash, st, s, index, conflicts, p);
      CopyIsTree(hash, st, s, index, conflicts, p);
      ConflictIsOff(hash, s0, ups, st, s, index, conflicts, p);
      CopyIsNotStale(hash, s0, ups, st, s, index, conflicts, conflicts[p]);
    }
  }

  lemma CopyIsNotStale(hash: Bytes -> string, s0: Server, ups: seq<Op>, st: Start, s: Server, index: Index,
                       conflicts: map<Path, Path>, q: Path)
    requires FromUpdates(hash, s0, ups, st) && Finished(hash, st, s, index, conflicts) && q in conflicts.Values
    ensures q !in st.stale
  {
    hide StartOk, EndsAt, ServerOk, Fits, HistoryOk, Final, Indexes, OnlyUpdates, WrittenPaths;
    StaleIsUntouched(hash, s0, ups, st, s, index, conflicts);
  }

  /** A conflict is about a file others have written, or about a path a copy has taken. */
  lemma ConflictIsOff(hash: Bytes -> string, s0: Server, ups: seq<Op>, st: Start, s: Server, index: Index,
                      conflicts: map<Path, Path>, p: Path)
    requires FromUpdates(hash, s0, ups, st) && Finished(hash, st, s, index, conflicts) && p in conflicts
    ensures p in st.server.meta ==> p in st.stale
    ensures p !in st.server.meta ==> p in conflicts.Values
  {
    hide StartOk, EndsAt, ServerOk, Fits, HistoryOk, Final, WrittenPaths, OnlyUpdates, OldNodes, Outdated, Indexes;
    EndIs(hash, st, s, index, conflicts, p);
    UpdatesKeepNodes(s0, ups);
    if p in st.server.meta {
      EndsAsBefore(hash, st, s, index, conflicts, p);
      OutdatedIsStale(hash, s0, st, p);
    } else {
      NewConflictIsCopy(hash, st, s, index, conflicts, p);
    }
  }

  lemma OutdatedIsStale(hash: Bytes -> string, s0: Server, st: Start, p: Path)
    requires ServerOk(s0) && Indexes(hash, st.rows, s0) && OldNodes(s0, st.server, st.stale)
    requires s0.meta.Keys == st.server.meta.Keys
    requires Outdated(st, p)
    ensures p in st.stale
  {
    assert st.server.meta[p].id == s0.meta[p].id;
  }

  lemma NewConflictIsCopy(hash: Bytes -> string, st: Start, s: Server, index: Index, conflicts: map<Path, Path>,
                          p: Path)
    requires EndsAt(hash, st, s, index, conflicts, p) && p in conflicts && p !in st.server.meta
    ensures p in conflicts.Values
  {
  }

  lemma {:induction false} ReplayedAlong(hash: Bytes -> string, s0: Server, ups: seq<Op>, st: Start, s: Server,
                                         index: Index, conflicts: map<Path, Path>, cs: seq<LocalChange>,
                                         told: seq<seq<Change>>, k: nat)
    requires FromUpdates(hash, s0, ups, st) && Pushed(hash, st, s, index, conflicts, cs, told) && k <= |cs|
    ensures var base := Fetched(st.local, s0.tree, ups);
            Along(st, s, conflicts, cs, k, base, Replayed(base, st.local, conflicts, cs, k),
                  Replayed(st.local, st.local, map[], cs, k))
    decreases k
  {
    hide StartOk, Finished, Chronicled, Apart, SoundHash, Indexes, Final, HistoryOk, OnlyUpdates, IsTarget, Fetched,
         Pulled, ServerOk, IsConflict, AsBefore;
    var base := Fetched(st.local, s0.tree, ups);
    if k == 0 {
      forall p
        ensures AlongAt(st, s, conflicts, cs, 0, base, base, st.local, p)
      {
        if p !in st.stale { FetchedElsewhere(st.local, s0.tree, ups, p); }
        if p in conflicts.Values { CopyIsTarget(hash, st, s, index, conflicts, cs, p); }
      }
    } else {
      hide Along, Ordinary, Accounted;
      ReplayedAlong(hash, s0, ups, st, s, index, conflicts, cs, told, k - 1);
      ChangeIsOrdinary(hash, s0, ups, st, s, index, conflicts, cs, told, k - 1);
      AlongOn(st, s, conflicts, cs, k - 1, base, Replayed(base, st.local, conflicts, cs, k - 1),
              Replayed(st.local, st.local, map[], cs, k - 1));
    }
  }

  /** Each file others have written was written with bytes other than those last synchronised, or
      happens to be the same locally. */
  ghost predicate Arrived(s0: Server, ups: seq<Op>, st: Start, s: Server)
    requires OnlyUpdates(ups)
  {
    forall p {:trigger p in st.stale} :: p in st.stale ==>
      Rewritten(s0.tree, ups, p) || (p in st.local && p in s.tree && st.local[p] == s.tree[p])
  }

  lemma StaleEnds(hash: Bytes -> string, s0: Server, ups: seq<Op>, st: Start, s: Server, index: Index,
                  conflicts: map<Path, Path>, p: Path)
    requires FromUpdates(hash, s0, ups, st) && Finished(hash, st, s, index, conflicts) && p in st.stale
    ensures var base := Fetched(st.local, s0.tree, ups);
            && p in st.local && p in s0.tree && p in st.server.tree && p in s.tree && s.tree[p] == st.server.tree[p]
            && p in base
            && (base[p] == s.tree[p] <==> Rewritten(s0.tree, ups, p) || st.local[p] == s.tree[p])
            && (!Rewritten(s0.tree, ups, p) ==> base[p] == st.local[p] && s.tree[p] == s0.tree[p])
            && p in Written(s0.tree, ups) && s.tree[p] == Written(s0.tree, ups)[p] && AsBeforeID(s0, st, p)
  {
    hide StartOk, EndsAt, ServerOk, Fits, HistoryOk, Final, WrittenPaths, OnlyUpdates, OldNodes, Indexes, Fetched,
         Rewritten, RowIs;
    UpdatesKeepNodes(s0, ups);
    SameNodeThen(s0, st.server, st.stale, p);
    StaleIsUntouched(hash, s0, ups, st, s, index, conflicts);
    StaleIsAsBefore(hash, st, s, index, conflicts, p);
    FetchedAt(st.local, s0.tree, ups, p);
  }

  lemma SameNodeThen(s0: Server, s: Server, written: set<Path>, p: Path)
    requires OldNodes(s0, s, written) && p in written && s.meta.Keys == s0.meta.Keys
    ensures p in s0.meta && p in s.meta && s0.meta[p].id == s.meta[p].id
  {
  }

  /** What the pull leaves at the path of a conflict: the server's file, if others have written
      other bytes than those last synchronised, and otherwise the local edit. */
  lemma ConflictEndsUp(hash: Bytes -> string, s0: Server, ups: seq<Op>, st: Start, s: Server, index: Index,
                       conflicts: map<Path, Path>, cs: seq<LocalChange>, told: seq<seq<Change>>, p: Path)
    requires FromUpdates(hash, s0, ups, st) && Pushed(hash, st, s, index, conflicts, cs, told) && p in conflicts
    ensures var t := PulledTree(s0, ups, st, conflicts, cs);
            && p in t && p in s.tree && (t[p] == s.tree[p] <==> (p in st.server.meta ==> Rewritten(s0.tree, ups, p)))
            && conflicts[p] in t && conflicts[p] in s.tree && p in st.local
            && t[conflicts[p]] == s.tree[conflicts[p]] == st.local[p]
  {
    hide StartOk, EndsAt, ServerOk, Fits, HistoryOk, Final, OnlyUpdates, Indexes, Fetched, Rewritten, Replayed,
         Chronicled, AsBefore, Finished, Apart, SoundHash, AlongAt, Unedited, WrittenPaths;
    var n, base := |cs|, Fetched(st.local, s0.tree, ups);
    var t, alone := PulledTree(s0, ups, st, conflicts, cs), Replayed(st.local, st.local, map[], cs, n);
    ReplayedAlong(hash, s0, ups, st, s, index, conflicts, cs, told, n);
    EndIs(hash, st, s, index, conflicts, p);
    CopyIsTree(hash, st, s, index, conflicts, p);
    assert AlongAt(st, s, conflicts, cs, n, base, t, alone, p)
        && AlongAt(st, s, conflicts, cs, n, base, t, alone, conflicts[p]);
    ConflictIsOff(hash, s0, ups, st, s, index, conflicts, p);
    NothingDue(st, s, conflicts, cs, base, t, alone, p);
    NothingDue(st, s, conflicts, cs, base, t, alone, conflicts[p]);
    if p in st.server.meta {
      StaleEnds(hash, s0, ups, st, s, index, conflicts, p);
      ConflictWasEdited(hash, s0, st, s, index, conflicts, cs, p);
    }
  }

  lemma NothingDue(st: Start, s: Server, conflicts: map<Path, Path>, cs: seq<LocalChange>, base: Tree, t: Tree,
                   alone: Tree, p: Path)
    requires AlongAt(st, s, conflicts, cs, |cs|, base, t, alone, p)
    ensures p in conflicts.Values ==> p in t && p in s.tree && t[p] == s.tree[p]
    ensures p in st.stale && p in base ==> p in t && t[p] == base[p]
  {
  }

  /** A file in conflict is not the one last synchronised. */
  lemma ConflictWasEdited(hash: Bytes -> string, s0: Server, st: Start, s: Server, index: Index,
                          conflicts: map<Path, Path>, cs: seq<LocalChange>, p: Path)
    requires ServerOk(s0) && Indexes(hash, st.rows, s0) && StartOk(hash, st)
    requires Accounted(hash, st, s, index, conflicts, cs)
    requires p in conflicts && p in st.server.meta && p in st.local && st.local[p] != Folder && p in s0.tree
    requires AsBeforeID(s0, st, p)
    ensures st.local[p] != s0.tree[p]
  {
    hide StartOk, AsBefore, IsTarget;
    assert !Unedited(hash, st, p);
    RowAtStart(hash, s0, st, p);
  }

  ghost predicate AsBeforeID(s0: Server, st: Start, p: Path) {
    p in s0.meta && p in st.server.meta && s0.meta[p].id == st.server.meta[p].id
  }

  lemma RowAtStart(hash: Bytes -> string, s0: Server, st: Start, p: Path)
    requires ServerOk(s0) && Indexes(hash, st.rows, s0) && AsBeforeID(s0, st, p)
    ensures st.server.meta[p].id in st.rows && p in s0.tree
    ensures st.rows[st.server.meta[p].id] == RowAt(hash, p, s0.tree[p], s0.meta[p])
  {
  }

  /** The folder ends up as the server's tree if and only if no move has mixed files up and every
      file others have written has arrived. */
  lemma PulledIff(hash: Bytes -> string, s0: Server, ups: seq<Op>, st: Start, s: Server, index: Index,
                  conflicts: map<Path, Path>, cs: seq<LocalChange>, told: seq<seq<Change>>, g: Goal)
    requires FromUpdates(hash, s0, ups, st) && Pushed(hash, st, s, index, conflicts, cs, told)
    requires g.tree == PulledTree(s0, ups, st, conflicts, cs) && Ready(hash, s, conflicts, cs, |cs|, g)
    ensures g.tree == s.tree <==> Straight(st.local, cs) && Arrived(s0, ups, st, s)
  {
    hide StartOk, EndsAt, Fits, HistoryOk, Final, OnlyUpdates, Indexes, Fetched, Rewritten, Replayed, Chronicled, RowIs,
         Finished, Apart, SoundHash, AlongAt, WrittenPaths, Accounted, Straight, Displaces, Passable;
    var n, base := |cs|, Fetched(st.local, s0.tree, ups);
    var t, alone := g.tree, Replayed(st.local, st.local, map[], cs, n);
    ReplayedAlong(hash, s0, ups, st, s, index, conflicts, cs, told, n);
    SameKeys(hash, s, conflicts, cs, g);
    hide Ready, ServerOk;
    forall p
      ensures PathEndsUp(s0, ups, st, s, t, alone, p)
    {
      assert AlongAt(st, s, conflicts, cs, n, base, t, alone, p);
      PathIff(hash, s0, ups, st, s, index, conflicts, cs, t, alone, p);
    }
    IffEverywhere(s0, ups, st, s, t, alone);
    PlanIsPassable(hash, st, s, index, conflicts, cs, told);
    StraightIff(st.local, cs);
  }

  lemma SameKeys(hash: Bytes -> string, s: Server, conflicts: map<Path, Path>, cs: seq<LocalChange>, g: Goal)
    requires Ready(hash, s, conflicts, cs, |cs|, g)
    ensures g.tree.Keys == s.tree.Keys
  {
    hide RowIs, Fits, ServerOk;
  }

  /** One path of the two trees: either both conditions hold for it and it is the server's, or one
      fails and it is not. */
  ghost predicate PathEndsUp(s0: Server, ups: seq<Op>, st: Start, s: Server, t: Tree, alone: Tree, p: Path)
    requires OnlyUpdates(ups)
  {
    && (p in alone ==> p in st.local)
    && (p in st.stale ==>
          && p in t && p in s.tree && p in st.local && p in alone && alone[p] == st.local[p]
          && (t[p] == s.tree[p] <==> Rewritten(s0.tree, ups, p) || st.local[p] == s.tree[p]))
    && (p !in st.stale && p in st.local ==>
          && p in s.tree && p in t && (t[p] == s.tree[p] <==> p in alone && alone[p] == st.local[p]))
    && (p !in st.stale && p !in st.local && p in s.tree ==> p in t && t[p] == s.tree[p])
  }

  lemma PathIff(hash: Bytes -> string, s0: Server, ups: seq<Op>, st: Start, s: Server, index: Index,
                conflicts: map<Path, Path>, cs: seq<LocalChange>, t: Tree, alone: Tree, p: Path)
    requires FromUpdates(hash, s0, ups, st) && Finished(hash, st, s, index, conflicts) && t.Keys == s.tree.Keys
    requires AlongAt(st, s, conflicts, cs, |cs|, Fetched(st.local, s0.tree, ups), t, alone, p)
    ensures PathEndsUp(s0, ups, st, s, t, alone, p)
  {
    hide StartOk, EndsAt, Fits, HistoryOk, Final, OnlyUpdates, Indexes, Fetched, Rewritten, WrittenPaths, ServerOk,
         Finished;
    EndIs(hash, st, s, index, conflicts, p);
    InTree(hash, st, s, index, conflicts, p);
    if p in st.stale { StaleEnds(hash, s0, ups, st, s, index, conflicts, p); }
    if p in conflicts { ConflictIsOff(hash, s0, ups, st, s, index, conflicts, p); }
    if p in st.local && p !in conflicts && p !in st.stale { LocalIsTree(hash, st, s, index, conflicts, p); }
    LocalIsThere(hash, st, s, index, conflicts, p);
    assert !IsTarget(conflicts, cs, |cs|, p);
  }

  lemma LocalIsThere(hash: Bytes -> string, st: Start, s: Server, index: Index, conflicts: map<Path, Path>, p: Path)
    requires EndsAt(hash, st, s, index, conflicts, p)
    ensures p in st.local && p !in st.stale ==> p in s.tree
  {
  }

  lemma IffEverywhere(s0: Server, ups: seq<Op>, st: Start, s: Server, t: Tree, alone: Tree)
    requires OnlyUpdates(ups) && t.Keys == s.tree.Keys
    requires forall p {:trigger PathEndsUp(s0, ups, st, s, t, alone, p)} :: PathEndsUp(s0, ups, st, s, t, alone, p)
    ensures t == s.tree <==> alone == st.local && Arrived(s0, ups, st, s)
  {
    hide Rewritten;
    if t == s.tree {
      forall p
        ensures p in alone <==> p in st.local
        ensures p in alone ==> alone[p] == st.local[p]
        ensures p in st.stale ==>
                  Rewritten(s0.tree, ups, p) || (p in st.local && p in s.tree && st.local[p] == s.tree[p])
      {
        assert PathEndsUp(s0, ups, st, s, t, alone, p);
      }
    }
    if alone == st.local && Arrived(s0, ups, st, s) {
      forall p | p in t
        ensures t[p] == s.tree[p]
      {
        assert PathEndsUp(s0, ups, st, s, t, alone, p);
      }
    }
  }
}
