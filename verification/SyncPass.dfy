/** What a whole pass comes to: where a push and the pull after it leave folder, index, server and
    the files in conflict, and when the pull gets through. */
module SyncPass {
  import opened FileSystem
  import opened SyncTypes
  import opened Feed
  import opened Replay
  import opened LocalChanges
  import opened Push
  import opened PushState
  import opened PushRun
  import opened Chronicle
  import opened Forecast
  import opened Foreign
  import opened CatchUp
  import E = Engine

  /** The mode in which the pull after the push is followed. */
  ghost function PullMode(hash: Bytes -> string, s0: Server, ups: seq<Op>, st: Start, index: Index,
                          told: seq<seq<Change>>): Mode
    requires HistoryOk(s0, ups)
  {
    Exact(PlanFor(hash, Goal(st.local, index), News(hash, s0, ups, told)))
  }

  /** After the push the client can follow the feed. */
  lemma PullStarts(hash: Bytes -> string, s0: Server, ups: seq<Op>, st: Start, s: Server, index: Index,
                   conflicts: map<Path, Path>, cs: seq<LocalChange>, told: seq<seq<Change>>, disk: Tree, cursor: int,
                   feed: seq<Change>)
    requires FromUpdates(hash, s0, ups, st) && Pushed(hash, st, s, index, conflicts, cs, told)
    requires Mirrors(disk, st.local) && AppliedUpTo(feed, 0, cursor) && Numbers(feed, News(hash, s0, ups, told))
    ensures E.OnTheWay(hash, disk, index, cursor, feed, PullMode(hash, s0, ups, st, index, told), 0)
    ensures E.ReachedAt(disk, index, PullMode(hash, s0, ups, st, index, told), 0)
  {
    hide StartOk, Finished, Chronicled, Accounted, Apart, SoundHash, Indexes, Final, OnlyUpdates, Mirrors, Steps, Led,
         Ready, HistoryOk, News, Leads, Numbers;
    NewsFollowed(hash, s0, ups, st, s, index, conflicts, cs, told);
    PlanLeads(hash, Goal(st.local, index), News(hash, s0, ups, told), feed);
    hide PlanFor, PulledTree;
    PlanStarts(hash, disk, index, cursor, feed, PlanFor(hash, Goal(st.local, index), News(hash, s0, ups, told)));
  }

  lemma PlanStarts(hash: Bytes -> string, disk: Tree, index: Index, cursor: int, feed: seq<Change>, plan: Plan)
    requires Leads(hash, feed, plan) && Reached(disk, index, plan.script[0]) && AppliedUpTo(feed, 0, cursor)
    ensures E.OnTheWay(hash, disk, index, cursor, feed, Exact(plan), 0) && E.ReachedAt(disk, index, Exact(plan), 0)
  {
    hide Settles, PartlyRemoved;
    assert Closed(disk);
  }

  /** At the path of a conflict the server keeps the other side's bytes, and the local ones are in
      the copy, on both sides. The folder has the server's bytes there if and only if these were
      ever written over what was last synchronised. */
  ghost predicate SurvivesAt(s0: Server, ups: seq<Op>, st: Start, s: Server, disk: Tree, conflicts: map<Path, Path>,
                             p: Path)
    requires p in conflicts && OnlyUpdates(ups)
  {
    && p in s.tree && p in disk && p in st.local
    && (p in st.server.meta ==> p in st.server.tree && s.tree[p] == st.server.tree[p])
    && conflicts[p] in s.tree && conflicts[p] in disk && s.tree[conflicts[p]] == disk[conflicts[p]] == st.local[p]
    && (disk[p] == s.tree[p] <==> (p in st.server.meta ==> Rewritten(s0.tree, ups, p)))
  }

  /** Where a pass that returns ok ends. */
  ghost predicate PassEnds(hash: Bytes -> string, s0: Server, ups: seq<Op>, st: Start, cs: seq<LocalChange>,
                           conflicts: map<Path, Path>, s: Server, disk: Tree, index: Index)
    requires OnlyUpdates(ups)
  {
    && ServerOk(s) && Indexes(hash, index, s) && Mirrors(disk, PulledTree(s0, ups, st, conflicts, cs))
    && (InStep(hash, disk, index, s) <==> Straight(st.local, cs) && Arrived(s0, ups, st, s))
    && forall p {:trigger SurvivesAt(s0, ups, st, s, disk, conflicts, p)} :: p in conflicts ==>
         SurvivesAt(s0, ups, st, s, disk, conflicts, p)
  }

  lemma PullEnds(hash: Bytes -> string, s0: Server, ups: seq<Op>, st: Start, s: Server, pushed: Index,
                 conflicts: map<Path, Path>, cs: seq<LocalChange>, told: seq<seq<Change>>, disk: Tree, index: Index,
                 cursor: int, feed: seq<Change>)
    requires FromUpdates(hash, s0, ups, st) && Pushed(hash, st, s, pushed, conflicts, cs, told)
    requires Numbers(feed, News(hash, s0, ups, told))
    requires E.OnTheWay(hash, disk, index, cursor, feed, PullMode(hash, s0, ups, st, pushed, told), |feed|)
    ensures PassEnds(hash, s0, ups, st, cs, conflicts, s, disk, index)
  {
    hide StartOk, Finished, Chronicled, Accounted, Apart, SoundHash, Indexes, Final, OnlyUpdates, Mirrors, Steps, Led,
         Ready, HistoryOk, News, Leads, Numbers, Straight, Arrived, PulledTree, SurvivesAt;
    var g0, news := Goal(st.local, pushed), News(hash, s0, ups, told);
    NewsFollowed(hash, s0, ups, st, s, pushed, conflicts, cs, told);
    var g := Led(hash, g0, news);
    PlanLeads(hash, g0, news, feed);
    PulledIff(hash, s0, ups, st, s, pushed, conflicts, cs, told, g);
    ReadyIs(hash, s, conflicts, cs, g);
    assert Reached(disk, index, g);
    MirrorsOne(disk, g.tree, s.tree);
    forall p | p in conflicts
      ensures SurvivesAt(s0, ups, st, s, disk, conflicts, p)
    {
      ConflictSurvives(hash, s0, ups, st, s, pushed, conflicts, cs, told, disk, g, p);
    }
  }

  lemma ReadyIs(hash: Bytes -> string, s: Server, conflicts: map<Path, Path>, cs: seq<LocalChange>, g: Goal)
    requires Ready(hash, s, conflicts, cs, |cs|, g)
    ensures ServerOk(s) && NoneIgnored(g.tree) && NoneIgnored(s.tree)
  {
    FramedIsClosed(s, g.tree);
  }

  /** A folder mirrors one tree only. */
  lemma MirrorsOne(disk: Tree, t: Tree, u: Tree)
    requires Mirrors(disk, t) && NoneIgnored(t) && NoneIgnored(u)
    ensures Mirrors(disk, u) <==> t == u
    ensures forall p {:trigger p in t} :: p in t ==> p in disk && disk[p] == t[p]
  {
    if Mirrors(disk, u) {
      forall p
        ensures p in t <==> p in u
        ensures p in t ==> t[p] == u[p]
      {
        if p in t { assert p in disk && disk[p] == t[p]; }
        if p in u { assert p in disk && disk[p] == u[p]; }
      }
    }
  }

  lemma ConflictSurvives(hash: Bytes -> string, s0: Server, ups: seq<Op>, st: Start, s: Server, index: Index,
                         conflicts: map<Path, Path>, cs: seq<LocalChange>, told: seq<seq<Change>>, disk: Tree, g: Goal,
                         p: Path)
    requires FromUpdates(hash, s0, ups, st) && Pushed(hash, st, s, index, conflicts, cs, told) && p in conflicts
    requires g.tree == PulledTree(s0, ups, st, conflicts, cs)
    requires forall q {:trigger q in g.tree} :: q in g.tree ==> q in disk && disk[q] == g.tree[q]
    ensures SurvivesAt(s0, ups, st, s, disk, conflicts, p)
  {
    hide StartOk, EndsAt, Chronicled, Accounted, Apart, SoundHash, Indexes, Final, OnlyUpdates, HistoryOk, PulledTree,
         Finished, ServerOk, Fits, Rewritten;
    ConflictEndsUp(hash, s0, ups, st, s, index, conflicts, cs, told, p);
    EndIs(hash, st, s, index, conflicts, p);
    if p in st.server.meta { EndsAsBefore(hash, st, s, index, conflicts, p); }
  }

  // ---------- when the pull gets through ----------

  /** The entries of the client's own changes are about what the server has now. */
  lemma {:induction false} OwnIsCurrent(hash: Bytes -> string, src: E.Source, st: Start, s: Server,
                                        conflicts: map<Path, Path>, cs: seq<LocalChange>, told: seq<seq<Change>>,
                                        k: nat, c: Change)
    requires Chronicled(hash, st, s, conflicts, cs, told) && k <= |told| && E.HandsOut(src, s)
    requires c in Flat(told[..k]) && !c.deleted && !c.isDir
    ensures E.ContentMatches(hash, src, c)
    decreases k
  {
    hide E.HandsOut, E.ContentMatches, Chronicled, Tells;
    if k > 0 {
      assert told[..k] == told[..k - 1] + [told[k - 1]];
      FlatGrows(told[..k - 1], told[k - 1]);
      if c in Flat(told[..k - 1]) {
        OwnIsCurrent(hash, src, st, s, conflicts, cs, told, k - 1, c);
      } else {
        ToldIs(hash, st, s, conflicts, cs, told, k - 1);
        ToldIsCurrent(hash, src, st, s, conflicts, cs, k - 1, told[k - 1], c);
      }
    }
  }

  lemma ToldIsCurrent(hash: Bytes -> string, src: E.Source, st: Start, s: Server, conflicts: map<Path, Path>,
                      cs: seq<LocalChange>, j: nat, seg: seq<Change>, c: Change)
    requires j < |cs| && Tells(hash, st, s, conflicts, cs, j, seg) && E.HandsOut(src, s)
    requires c in seg && !c.deleted && !c.isDir
    ensures E.ContentMatches(hash, src, c)
  {
    hide E.HandsOut, E.ContentMatches, Describes, LaterTarget;
    var last := seg[|seg| - 1];
    assert c.nodeID == last.nodeID && c.hash == last.hash && !last.deleted && (last.isDir ==> c == last);
    ShownIsHeld(hash, src, s, last, last.relPath, c);
  }

  lemma ShownIsHeld(hash: Bytes -> string, src: E.Source, s: Server, b: Change, p: Path, c: Change)
    requires E.HandsOut(src, s) && Shows(hash, s, b, p) && c.nodeID == b.nodeID && c.hash == b.hash
    requires b.isDir ==> c == b && c.isDir
    requires !c.isDir
    ensures E.ContentMatches(hash, src, c)
  {
    assert s.tree[p].Regular?;
    assert E.Holds(s, c.nodeID, s.tree[p].data);
  }

  /** If nobody else has written anything, nothing in the feed is superseded. */
  lemma NothingSuperseded(hash: Bytes -> string, src: E.Source, s0: Server, st: Start, s: Server, index: Index,
                          conflicts: map<Path, Path>, cs: seq<LocalChange>, told: seq<seq<Change>>)
    requires HistoryOk(s0, []) && Chronicled(hash, st, s, conflicts, cs, told) && E.HandsOut(src, s)
    requires Numbers(src.feed, News(hash, s0, [], told))
    ensures E.AllCurrent(hash, src, PullMode(hash, s0, [], st, index, told), 0, |src.feed|)
  {
    var mode, news := PullMode(hash, s0, [], st, index, told), News(hash, s0, [], told);
    assert news == Flat(told) && told[..|told|] == told;
    hide Chronicled, E.HandsOut, E.ContentMatches, HistoryOk, Led, Flat;
    forall k | 0 <= k < |src.feed|
      ensures E.Current(hash, src, mode, k)
    {
      if !news[k].deleted && !news[k].isDir {
        OwnIsCurrent(hash, src, st, s, conflicts, cs, told, |told|, news[k]);
        SameButNumber(hash, src, news[k], src.feed[k]);
      }
    }
  }

  lemma SameButNumber(hash: Bytes -> string, src: E.Source, a: Change, b: Change)
    requires b == a.(seqNo := b.seqNo) && E.ContentMatches(hash, src, a)
    ensures E.ContentMatches(hash, src, b)
  {
  }

  /** If the pull gets through a feed whose server hands out what it has, then nothing has been
      written over a file and then back again. */
  lemma {:induction false} NotWrittenBack(hash: Bytes -> string, src: E.Source, s0: Server, all: seq<Op>, ups: seq<Op>,
                                          st: Start, s: Server, index: Index, conflicts: map<Path, Path>,
                                          told: seq<seq<Change>>, p: Path)
    requires SoundHash(hash) && HistoryOk(s0, all) && OnlyUpdates(all) && OnlyUpdates(ups) && ups <= all
    requires st.stale == WrittenPaths(all)
    requires StaleUntouched(hash, s0, st, s, index, conflicts.Values) && p in st.stale && s.tree[p] == s0.tree[p]
    requires E.HandsOut(src, s) && Numbers(src.feed, News(hash, s0, all, told))
    requires E.AllCurrent(hash, src, PullMode(hash, s0, all, st, index, told), 0, |src.feed|)
    ensures !Rewritten(s0.tree, ups, p)
    decreases |ups|
  {
    if ups != [] {
      hide HistoryOk, StaleUntouched, E.HandsOut, E.AllCurrent, Numbers, SoundHash, WrittenPaths, Rewritten;
      var front, op := ups[..|ups| - 1], ups[|ups| - 1];
      NotWrittenBack(hash, src, s0, all, front, st, s, index, conflicts, told, p);
      if op.path == p {
        NotBackNow(hash, src, s0, all, ups, st, s, index, conflicts, told, p);
      }
      NoMoreRewritten(s0.tree, ups, p);
    }
  }

  lemma NoMoreRewritten(t: Tree, ups: seq<Op>, p: Path)
    requires OnlyUpdates(ups) && ups != [] && !Rewritten(t, ups[..|ups| - 1], p)
    requires ups[|ups| - 1].path == p ==> p in t && t[p] == Regular(ups[|ups| - 1].data)
    ensures !Rewritten(t, ups, p)
  {
    var front := ups[..|ups| - 1];
    forall j | 0 <= j < |ups| && ups[j].path == p
      ensures p in t && t[p] == Regular(ups[j].data)
    {
      if j < |front| { assert front[j] == ups[j]; }
    }
  }

  lemma HeldIsTree(hash: Bytes -> string, src: E.Source, s: Server, p: Path, c: Change, data: Bytes)
    requires SoundHash(hash) && ServerOk(s) && E.HandsOut(src, s) && E.ContentMatches(hash, src, c)
    requires p in s.meta && c.nodeID == s.meta[p].id && c.hash == hash(data)
    ensures s.tree[p] == Regular(data)
  {
    assert E.Holds(s, c.nodeID, src.contents[c.nodeID]);
  }

  /** The entry of the last of some updates, and what the feed has before it. */
  lemma UpdateInNews(hash: Bytes -> string, s0: Server, all: seq<Op>, ups: seq<Op>, told: seq<seq<Change>>)
    requires HistoryOk(s0, all) && OnlyUpdates(ups) && ups <= all && ups != []
    ensures var front, op, news := ups[..|ups| - 1], ups[|ups| - 1], News(hash, s0, all, told);
            && HistoryOk(s0, front) && ServerOk(Final(s0, front)) && OpOk(Final(s0, front), op)
            && |Entries(hash, s0, front)| < |news| && news[..|Entries(hash, s0, front)|] == Entries(hash, s0, front)
            && news[|Entries(hash, s0, front)|] == Entry(hash, Final(s0, front), op, 0)
  {
    hide HistoryOk, Final, Entries, Entry, ServerOk, OpOk;
    var more := all[|ups|..];
    assert all == ups + more;
    FinalGrows(s0, ups, more);
    EntriesGrow(hash, s0, ups, more);
    OneEntryEach(hash, s0, ups);
    var first, c := Entries(hash, s0, ups[..|ups| - 1]), Entry(hash, Final(s0, ups[..|ups| - 1]), ups[|ups| - 1], 0);
    assert News(hash, s0, all, told) == first + ([c] + (Entries(hash, Final(s0, ups), more) + Flat(told)));
  }

  lemma NotBackNow(hash: Bytes -> string, src: E.Source, s0: Server, all: seq<Op>, ups: seq<Op>, st: Start, s: Server,
                   index: Index, conflicts: map<Path, Path>, told: seq<seq<Change>>, p: Path)
    requires SoundHash(hash) && HistoryOk(s0, all) && OnlyUpdates(all) && OnlyUpdates(ups) && ups <= all
    requires st.stale == WrittenPaths(all)
    requires StaleUntouched(hash, s0, st, s, index, conflicts.Values) && p in st.stale && p in s.tree && p in s0.tree
    requires s.tree[p] == s0.tree[p]
    requires E.HandsOut(src, s) && Numbers(src.feed, News(hash, s0, all, told)) && p in st.local
    requires E.AllCurrent(hash, src, PullMode(hash, s0, all, st, index, told), 0, |src.feed|)
    requires ups != [] && ups[|ups| - 1].path == p && !Rewritten(s0.tree, ups[..|ups| - 1], p)
    ensures s0.tree[p] == Regular(ups[|ups| - 1].data)
  {
    hide HistoryOk, E.HandsOut, SoundHash, WrittenPaths, Rewritten, Final, Entries, Entry, News, ServerOk, OpOk, Led,
         Steps, Taken, Written, Fetched, E.ContentMatches, StaleUntouched;
    var front, op := ups[..|ups| - 1], ups[|ups| - 1];
    UpdateInNews(hash, s0, all, ups, told);
    var news, first, g0 := News(hash, s0, all, told), Entries(hash, s0, front), Goal(st.local, index);
    UpdatesFollowed(hash, s0, all, front, st, s, index, conflicts.Values);
    UpdatesKeepNodes(s0, front);
    FetchedAt(st.local, s0.tree, front, p);
    var u, g := Final(s0, front), Led(hash, g0, first);
    UpdateFinds(hash, u, op, Fetched(st.local, s0.tree, front), st, s, index, conflicts.Values, g);
    EntryOfUpdate(hash, u, op);
    var k := |first|;
    assert E.Current(hash, src, PullMode(hash, s0, all, st, index, told), k);
    if u.tree[p] != Regular(op.data) {
      assert BringsContent(g, src.feed[k]);
      HeldIsTree(hash, src, s, p, src.feed[k], op.data);
    }
  }

  /** So, if what the pull downloads is what the server has, the folder has the server's bytes at
      the path of a conflict exactly if their hash is not the one the index knew. */
  lemma CalmConflictEnds(hash: Bytes -> string, src: E.Source, s0: Server, ups: seq<Op>, st: Start, s: Server,
                         index: Index, conflicts: map<Path, Path>, cs: seq<LocalChange>, told: seq<seq<Change>>,
                         disk: Tree, p: Path)
    requires FromUpdates(hash, s0, ups, st) && Pushed(hash, st, s, index, conflicts, cs, told)
    requires E.HandsOut(src, s) && Numbers(src.feed, News(hash, s0, ups, told))
    requires E.AllCurrent(hash, src, PullMode(hash, s0, ups, st, index, told), 0, |src.feed|)
    requires p in conflicts && p in st.server.meta && SurvivesAt(s0, ups, st, s, disk, conflicts, p)
    ensures st.server.meta[p].id in st.rows && s.tree[p].Regular?
    ensures disk[p] == s.tree[p] <==> st.rows[st.server.meta[p].id].hash != hash(s.tree[p].data)
  {
    hide StartOk, Chronicled, Accounted, Apart, Indexes, Final, HistoryOk, E.HandsOut, E.AllCurrent, Numbers, Fetched,
         Written, Finished, SoundHash, Rewritten, News, WrittenPaths, EndsAt;
    ConflictIsOff(hash, s0, ups, st, s, index, conflicts, p);
    StaleEnds(hash, s0, ups, st, s, index, conflicts, p);
    StaleIsUntouched(hash, s0, ups, st, s, index, conflicts);
    RowAtStart(hash, s0, st, p);
    FetchedAt(st.local, s0.tree, ups, p);
    if s.tree[p] == s0.tree[p] {
      NotWrittenBack(hash, src, s0, ups, ups, st, s, index, conflicts, told, p);
    }
    FilesThere(hash, s0, st, s, index, conflicts.Values, p);
    DifferentBytes(hash, s0.tree[p], s.tree[p]);
  }

  lemma FilesThere(hash: Bytes -> string, s0: Server, st: Start, s: Server, index: Index, copies: set<Path>, p: Path)
    requires StaleUntouched(hash, s0, st, s, index, copies) && p in st.stale
    ensures p in s0.tree && s0.tree[p].Regular? && p in s.tree && s.tree[p].Regular?
  {
  }

  lemma DifferentBytes(hash: Bytes -> string, a: Node, b: Node)
    requires SoundHash(hash) && a.Regular? && b.Regular?
    ensures a != b <==> hash(a.data) != hash(b.data)
  {
  }
}
