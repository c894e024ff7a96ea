/** The synchroniser's engine: applying the server's feed to the local folder. */
module Engine {
  import opened FileSystem
  import opened SyncTypes
  import opened Feed
  import opened Replay
  import opened LooseReplay

  const PAGE_LIMIT := 500

  /** The process can be stopped, or the call can fail, after any effect; but not in a run
      that is calm. */
  method Stopped(calm: bool) returns (b: bool)
    ensures calm ==> !b
  {
    var down: bool := *;
    b := down && !calm;
  }

  /** Source over a server whose feed is `feed` and whose files hold `contents` while the pull
      lasts. If it is not calm, calls can fail and downloads bring anything. */
  class Source {
    const feed: seq<Change>
    const contents: map<NodeID, Bytes>
    const calm: bool
    /** The nodes Download was called for. */
    ghost var downloads: seq<NodeID>

    constructor (feed: seq<Change>, contents: map<NodeID, Bytes>, calm: bool)
      ensures this.feed == feed && this.contents == contents && this.calm == calm
      ensures downloads == []
    {
      this.feed, this.contents, this.calm := feed, contents, calm;
      downloads := [];
    }

    /** Download hands out what the node holds now, whatever it held when the entry was made. */
    method Download(nodeID: NodeID) returns (ok: bool, data: Bytes)
      modifies this`downloads
      ensures downloads == old(downloads) + [nodeID]
      ensures calm ==> (ok <==> nodeID in contents)
      ensures calm && ok ==> data == contents[nodeID]
    {
      downloads := downloads + [nodeID];
      ok, data := *, *;
      if calm {
        ok := nodeID in contents;
        if ok { data := contents[nodeID]; }
      }
    }

    /** Changes: the entries after `since`, cut into pages wherever the server likes. */
    method Changes(since: int, limit: nat, ghost at: nat)
        returns (ok: bool, changes: seq<Change>, cursor: int, hasMore: bool)
      requires AppliedUpTo(feed, at, since) && limit > 0
      ensures ok ==>
        && at + |changes| <= |feed| && changes == feed[at..at + |changes|]
        && |changes| <= limit
        && cursor == (if changes == [] then since else changes[|changes| - 1].seqNo)
        && (hasMore <==> at + |changes| < |feed|)
        && (hasMore ==> changes != [])
      ensures calm ==> ok
    {
      var from := 0;
      while from < |feed| && feed[from].seqNo <= since
        invariant from <= at
      {
        from := from + 1;
      }
      changes, cursor, hasMore := [], since, false;
      var down := Stopped(calm);
      ok := !down;
      if ok && from < |feed| {
        var n: int := *;
        if n < 1 || n > limit || from + n > |feed| { n := 1; }
        changes := feed[from..from + n];
        cursor, hasMore := changes[n - 1].seqNo, from + n < |feed|;
      }
    }
  }

  /** `i` entries are behind the mirror, and the next one may have been begun. */
  ghost predicate OnTheWay(hash: Bytes -> string, disk: Tree, index: Index, cursor: int,
                           feed: seq<Change>, mode: Mode, i: nat)
  {
    && Closed(disk) && AppliedUpTo(feed, i, cursor) && Rising(feed)
    && match mode
       case Exact(plan) =>
         && Leads(hash, feed, plan)
         && (if i == |feed| then Reached(disk, index, plan.script[i])
             else Between(disk, index, plan.script[i], feed[i], plan.script[i + 1]))
       case Over(s, hist, rows) =>
         && HistoryOk(s, hist) && Indexes(hash, rows, s)
         && Numbers(feed, Entries(hash, s, hist))
         && i < |Script(hash, s, hist, rows)|
         && index == Script(hash, s, hist, rows)[i].rows
         && CoversAlong(disk, s, hist, i)
       case Free => true
  }

  ghost predicate Following(hash: Bytes -> string, disk: Tree, index: Index, cursor: int,
                            feed: seq<Change>, mode: Mode)
  {
    exists i: nat :: OnTheWay(hash, disk, index, cursor, feed, mode, i)
  }

  ghost function Progress(hash: Bytes -> string, disk: Tree, index: Index, cursor: int,
                          feed: seq<Change>, mode: Mode): (i: nat)
    requires Following(hash, disk, index, cursor, feed, mode)
    ensures OnTheWay(hash, disk, index, cursor, feed, mode, i)
  {
    var i: nat :| OnTheWay(hash, disk, index, cursor, feed, mode, i);
    i
  }

  lemma WhereItIs(hash: Bytes -> string, disk: Tree, index: Index, cursor: int,
                  feed: seq<Change>, mode: Mode, i: nat)
    requires OnTheWay(hash, disk, index, cursor, feed, mode, i)
    ensures Closed(disk) && AppliedUpTo(feed, i, cursor) && Rising(feed)
    ensures Following(hash, disk, index, cursor, feed, mode)
  {
  }

  /** A client in step with a server follows every history that starts there. */
  lemma FollowingStarts(hash: Bytes -> string, disk: Tree, index: Index, cursor: int,
                        feed: seq<Change>, s: Server, hist: seq<Op>)
    requires SoundHash(hash) && InStep(hash, disk, index, s) && HistoryOk(s, hist)
    requires Numbers(feed, Entries(hash, s, hist)) && AppliedUpTo(feed, 0, cursor)
    ensures Following(hash, disk, index, cursor, feed, Exact(PlanOf(hash, s, hist, index)))
  {
    HistoryLeads(hash, feed, s, hist, index);
    assert OnTheWay(hash, disk, index, cursor, feed, Exact(PlanOf(hash, s, hist, index)), 0);
  }

  /** A client that has followed a whole history is in step with the server at its end. */
  lemma FollowingEnds(hash: Bytes -> string, disk: Tree, index: Index, cursor: int,
                      feed: seq<Change>, s: Server, hist: seq<Op>, rows: Index)
    requires SoundHash(hash) && HistoryOk(s, hist) && Indexes(hash, rows, s)
    requires Numbers(feed, Entries(hash, s, hist))
    requires OnTheWay(hash, disk, index, cursor, feed, Exact(PlanOf(hash, s, hist, rows)), |feed|)
    ensures InStep(hash, disk, index, Final(s, hist))
  {
    HistoryLeads(hash, feed, s, hist, rows);
  }

  /** A client stopped anywhere along a feed is still following it when the server has gone on
      and the feed has grown. */
  lemma FollowingExtends(hash: Bytes -> string, disk: Tree, index: Index, cursor: int, feed: seq<Change>,
                         grown: seq<Change>, s: Server, hist: seq<Op>, more: seq<Op>, rows: Index)
    requires SoundHash(hash) && HistoryOk(s, hist) && HistoryOk(s, hist + more) && Indexes(hash, rows, s)
    requires Following(hash, disk, index, cursor, feed, Exact(PlanOf(hash, s, hist, rows)))
    requires feed <= grown && Numbers(grown, Entries(hash, s, hist + more))
    requires forall k :: |feed| <= k < |grown| ==> grown[k].seqNo > cursor
    ensures Following(hash, disk, index, cursor, grown, Exact(PlanOf(hash, s, hist + more, rows)))
  {
    HistoryLeads(hash, grown, s, hist + more, rows);
    ScriptGrows(hash, s, hist, more, rows);
    hide HistoryOk, Entries, Numbers, Indexes, SoundHash;
    PlanExtends(hash, disk, index, cursor, feed, grown, PlanOf(hash, s, hist, rows),
                PlanOf(hash, s, hist + more, rows));
  }

  lemma PlanExtends(hash: Bytes -> string, disk: Tree, index: Index, cursor: int, feed: seq<Change>,
                    grown: seq<Change>, plan: Plan, plan': Plan)
    requires Following(hash, disk, index, cursor, feed, Exact(plan))
    requires feed <= grown && plan.script <= plan'.script && Leads(hash, grown, plan')
    requires forall k :: |feed| <= k < |grown| ==> grown[k].seqNo > cursor
    ensures Following(hash, disk, index, cursor, grown, Exact(plan'))
  {
    hide Settles, Mirrors, PartlyRemoved, Closed;
    var i := Progress(hash, disk, index, cursor, feed, Exact(plan));
    assert i < |plan'.script| && plan.script[i] == plan'.script[i];
    assert OnTheWay(hash, disk, index, cursor, grown, Exact(plan'), i);
  }

  /** Every cursor stands somewhere in the feed. */
  lemma {:induction false} SomewhereInFeed(feed: seq<Change>, cursor: int, n: nat) returns (i: nat)
    requires Rising(feed) && n <= |feed| && forall k :: n <= k < |feed| ==> feed[k].seqNo > cursor
    ensures AppliedUpTo(feed, i, cursor)
    decreases n
  {
    if n == 0 || feed[n - 1].seqNo <= cursor {
      i := n;
    } else {
      i := SomewhereInFeed(feed, cursor, n - 1);
    }
  }

  // ---------- what was downloaded ----------

  ghost predicate ContentEntry(feed: seq<Change>, plan: Plan, id: NodeID) {
    exists i :: 0 <= i < |feed| && i < |plan.script| && feed[i].nodeID == id && BringsContent(plan.script[i], feed[i])
  }

  /** The downloads in between were of nodes that some entry brings content for. */
  ghost predicate OnlyContent(feed: seq<Change>, mode: Mode, before: seq<NodeID>, now: seq<NodeID>) {
    && before <= now
    && (mode.Exact? ==> forall id :: id in now[|before|..] ==> ContentEntry(feed, mode.plan, id))
  }

  lemma MoreContent(feed: seq<Change>, mode: Mode, first: seq<NodeID>, before: seq<NodeID>, now: seq<NodeID>)
    requires OnlyContent(feed, mode, first, before) && OnlyContent(feed, mode, before, now)
    ensures OnlyContent(feed, mode, first, now)
  {
    assert now[|first|..] == before[|first|..] + now[|before|..];
  }

  lemma NothingFetched(feed: seq<Change>, mode: Mode, now: seq<NodeID>)
    ensures OnlyContent(feed, mode, now, now)
  {
  }

  // ---------- the engine ----------

  /** For an entry tracked exactly: where it starts from, what it brings, where it leads. */
  datatype Step = Untracked | Tracked(from: Goal, data: Bytes, to: Goal)

  ghost predicate StepOk(hash: Bytes -> string, disk: Tree, index: Index, c: Change, step: Step) {
    step.Tracked? ==>
      Settles(hash, step.from, c, step.data, step.to) && Between(disk, index, step.from, c, step.to)
  }

  /** What the node of the entry holds now has the entry's hash. */
  ghost predicate ContentMatches(hash: Bytes -> string, src: Source, c: Change) {
    c.nodeID in src.contents && hash(src.contents[c.nodeID]) == c.hash
  }

  /** What a download for the entry brings, if nothing disturbs it, and whether that is accepted. */
  ghost function Handed(src: Source, c: Change): Bytes {
    if c.nodeID in src.contents then src.contents[c.nodeID] else []
  }

  ghost predicate Accepted(hash: Bytes -> string, src: Source, c: Change) {
    c.nodeID in src.contents && (c.hash == "" || hash(src.contents[c.nodeID]) == c.hash)
  }

  /** A file can be put at the entry's path. */
  ghost predicate HasRoom(disk: Tree, c: Change) {
    && c.relPath != []
    && MkdirAll(disk, Parent(c.relPath)).Some?
    && !(c.relPath in disk && disk[c.relPath] == Folder)
  }

  /** Nothing in the folder is in the way of the entry, and a download it needs is accepted. */
  ghost predicate Applies(hash: Bytes -> string, src: Source, disk: Tree, index: Index, c: Change) {
    if c.deleted then c.relPath != []
    else if c.isDir then ApplyDisk(disk, index, c, []).Some?
    else FileApplies(hash, src, disk, index, c)
  }

  /** Nothing in the folder is in the way of a file's entry, and a download it needs is accepted. */
  ghost predicate FileApplies(hash: Bytes -> string, src: Source, disk: Tree, index: Index, c: Change) {
    && FileBrought(disk, index, c).Some?
    && var e := FileBrought(disk, index, c).value;
       InPlace(e, index, c) || (Accepted(hash, src, c) && HasRoom(e, c))
  }

  /** Entry `k` brings no content, or that of its node as it is now. */
  ghost predicate Current(hash: Bytes -> string, src: Source, mode: Mode, k: nat) {
    && mode.Exact? && k < |mode.plan.script| && k < |src.feed|
    && (BringsContent(mode.plan.script[k], src.feed[k]) ==> ContentMatches(hash, src, src.feed[k]))
  }

  ghost predicate AllCurrent(hash: Bytes -> string, src: Source, mode: Mode, from: nat, to: nat) {
    mode.Exact? && forall k :: from <= k < to ==> Current(hash, src, mode, k)
  }

  ghost predicate ReachedAt(disk: Tree, index: Index, mode: Mode, k: nat) {
    mode.Exact? && k < |mode.plan.script| && Reached(disk, index, mode.plan.script[k])
  }

  /** The client has not begun entry `k`, and what its node holds now is not what it is about. */
  ghost predicate StuckAt(hash: Bytes -> string, disk: Tree, index: Index, cursor: int, src: Source, mode: Mode,
                          k: nat) {
    && OnTheWay(hash, disk, index, cursor, src.feed, mode, k) && ReachedAt(disk, index, mode, k)
    && k < |src.feed| && !Current(hash, src, mode, k)
  }

  /** The same for one step. */
  ghost predicate Unmatched(hash: Bytes -> string, src: Source, c: Change, step: Step) {
    step.Tracked? && BringsContent(step.from, c) && !ContentMatches(hash, src, c)
  }

  ghost predicate AtStart(disk: Tree, index: Index, step: Step) {
    step.Tracked? && Reached(disk, index, step.from)
  }

  ghost function StepOf(feed: seq<Change>, mode: Mode, i: nat): Step {
    if mode.Exact? && i + 1 < |mode.plan.script| && i < |mode.plan.bodies|
    then Tracked(mode.plan.script[i], mode.plan.bodies[i], mode.plan.script[i + 1])
    else Untracked
  }

  lemma EntryIsTracked(hash: Bytes -> string, disk: Tree, index: Index, cursor: int,
                       feed: seq<Change>, mode: Mode, i: nat)
    requires OnTheWay(hash, disk, index, cursor, feed, mode, i) && i < |feed|
    ensures Closed(disk) && StepOk(hash, disk, index, feed[i], StepOf(feed, mode, i))
    ensures mode.Exact? <==> StepOf(feed, mode, i).Tracked?
  {
    if mode.Exact? {
      var _ := mode.plan.bodies[i];
    }
  }

  /** An entry of the feed is current exactly when its step is matched. */
  lemma CurrentStep(hash: Bytes -> string, disk: Tree, index: Index, cursor: int, src: Source, mode: Mode, i: nat)
    requires OnTheWay(hash, disk, index, cursor, src.feed, mode, i) && i < |src.feed|
    ensures mode.Exact? ==>
              (Current(hash, src, mode, i) <==> !Unmatched(hash, src, src.feed[i], StepOf(src.feed, mode, i)))
    ensures ReachedAt(disk, index, mode, i) ==> AtStart(disk, index, StepOf(src.feed, mode, i)) && mode.Exact?
  {
    if mode.Exact? { var _ := mode.plan.bodies[i]; }
  }

  lemma StillStuck(hash: Bytes -> string, disk: Tree, index: Index, cursor: int, src: Source, mode: Mode, i: nat)
    requires mode.Exact? ==> OnTheWay(hash, disk, index, cursor, src.feed, mode, i)
    requires i < |src.feed|
    ensures mode.Exact? && AtStart(disk, index, StepOf(src.feed, mode, i)) && !Current(hash, src, mode, i) ==>
              StuckAt(hash, disk, index, cursor, src, mode, i)
  {
    hide OnTheWay, Current;
  }

  lemma StuckIs(hash: Bytes -> string, disk: Tree, index: Index, cursor: int, src: Source, mode: Mode, i: nat)
    requires StuckAt(hash, disk, index, cursor, src, mode, i)
    ensures ReachedAt(disk, index, mode, i) && mode.Exact? && i < |src.feed| && !Current(hash, src, mode, i)
  {
  }

  lemma ReachedIsExact(disk: Tree, index: Index, mode: Mode, i: nat)
    requires ReachedAt(disk, index, mode, i)
    ensures mode.Exact?
  {
  }

  lemma EntryReached(hash: Bytes -> string, d: Tree, x: Index, cursor: int, feed: seq<Change>, mode: Mode, i: nat,
                     disk: Tree, index: Index)
    requires OnTheWay(hash, d, x, cursor, feed, mode, i) && i < |feed|
    requires StepOf(feed, mode, i).Tracked? ==> Reached(disk, index, StepOf(feed, mode, i).to)
    ensures mode.Exact? ==> ReachedAt(disk, index, mode, i + 1)
  {
    if mode.Exact? { var _ := mode.plan.bodies[i]; }
  }

  lemma EntryStopped(hash: Bytes -> string, d: Tree, x: Index, disk: Tree, index: Index, cursor: int,
                     feed: seq<Change>, mode: Mode, i: nat)
    requires OnTheWay(hash, d, x, cursor, feed, mode, i) && i < |feed|
    requires Closed(disk) && StepOk(hash, disk, index, feed[i], StepOf(feed, mode, i))
    ensures mode.Exact? ==> OnTheWay(hash, disk, index, cursor, feed, mode, i)
  {
  }

  lemma EntryDone(hash: Bytes -> string, d: Tree, x: Index, disk: Tree, index: Index, cursor: int,
                  feed: seq<Change>, mode: Mode, i: nat, body: Bytes)
    requires SoundHash(hash) && OnTheWay(hash, d, x, cursor, feed, mode, i) && i < |feed|
    requires Closed(disk) && BodyMatches(hash, d, x, feed[i], body)
    requires ApplyDisk(d, x, feed[i], body) == Some(disk) && index == ApplyIndex(x, feed[i])
    requires var step := StepOf(feed, mode, i); step.Tracked? ==> Reached(disk, index, step.to)
    ensures OnTheWay(hash, disk, index, feed[i].seqNo, feed, mode, i + 1)
  {
    CursorMovesOn(feed, i, cursor);
    match mode
    case Exact(plan) =>
    case Over(s, hist, rows) =>
      OverDone(hash, d, x, disk, index, feed, s, hist, rows, i, body);
    case Free =>
  }

  lemma OverDone(hash: Bytes -> string, d: Tree, x: Index, disk: Tree, index: Index,
                 feed: seq<Change>, s: Server, hist: seq<Op>, rows: Index, i: nat, body: Bytes)
    requires SoundHash(hash) && HistoryOk(s, hist) && Indexes(hash, rows, s)
    requires Numbers(feed, Entries(hash, s, hist)) && i < |feed| && i < |Script(hash, s, hist, rows)|
    requires x == Script(hash, s, hist, rows)[i].rows && CoversAlong(d, s, hist, i)
    requires BodyMatches(hash, d, x, feed[i], body)
    requires ApplyDisk(d, x, feed[i], body) == Some(disk) && index == ApplyIndex(x, feed[i])
    ensures i + 1 < |Script(hash, s, hist, rows)|
    ensures index == Script(hash, s, hist, rows)[i + 1].rows
    ensures CoversAlong(disk, s, hist, i + 1)
  {
    ScriptSettles(hash, s, hist, rows, i);
    var c := Entries(hash, s, hist)[i];
    assert feed[i] == c.(seqNo := feed[i].seqNo);
    CoversStep(hash, s, hist, rows, i, feed[i].seqNo, d, body);
  }

  lemma ContentIsTracked(hash: Bytes -> string, feed: seq<Change>, mode: Mode, i: nat, before: seq<NodeID>,
                         now: seq<NodeID>)
    requires i < |feed|
    requires now == before || now == before + [feed[i].nodeID]
    requires StepOf(feed, mode, i).Tracked? && now != before ==> BringsContent(StepOf(feed, mode, i).from, feed[i])
    requires mode.Exact? ==> StepOf(feed, mode, i).Tracked?
    ensures OnlyContent(feed, mode, before, now)
  {
    if now != before && mode.Exact? {
      assert now[|before|..] == [feed[i].nodeID];
      assert ContentEntry(feed, mode.plan, feed[i].nodeID);
    }
  }

  // ---------- superseded entries ----------

  ghost predicate Holds(s: Server, id: NodeID, data: Bytes) {
    exists p :: p in s.meta && p in s.tree && s.meta[p].id == id && s.tree[p] == Regular(data)
  }

  /** The source hands out exactly what the server's files hold. */
  ghost predicate HandsOut(src: Source, s: Server) {
    forall id, data {:trigger Holds(s, id, data)} :: Holds(s, id, data) <==>
        id in src.contents && src.contents[id] == data
  }

  /** An entry of a history can be passed if and only if the server, at the end of the history,
      still has the node with the bytes the entry was made for. */
  lemma CurrentIffNotSuperseded(hash: Bytes -> string, src: Source, s: Server, hist: seq<Op>, rows: Index, i: nat)
    requires SoundHash(hash) && HistoryOk(s, hist) && Indexes(hash, rows, s)
    requires Numbers(src.feed, Entries(hash, s, hist)) && HandsOut(src, Final(s, hist)) && i < |src.feed|
    ensures i < |PlanOf(hash, s, hist, rows).script| && i < |Bodies(s, hist)|
    ensures Current(hash, src, Exact(PlanOf(hash, s, hist, rows)), i) <==>
              (BringsContent(PlanOf(hash, s, hist, rows).script[i], src.feed[i]) ==>
                 Holds(Final(s, hist), src.feed[i].nodeID, Bodies(s, hist)[i]))
  {
    var plan := PlanOf(hash, s, hist, rows);
    HistoryLeads(hash, src.feed, s, hist, rows);
    var _ := plan.bodies[i];
    var id := src.feed[i].nodeID;
    assert Holds(Final(s, hist), id, plan.bodies[i]) <==> id in src.contents && src.contents[id] == plan.bodies[i];
    hide HistoryOk, Entries, Indexes, Numbers, Final, Holds, HandsOut, Script, Bodies;
    if BringsContent(plan.script[i], src.feed[i]) {
      assert src.feed[i].hash == hash(plan.bodies[i]);
    }
  }

  /** For instance a file created and then updated while the client was away: the first of the
      two entries cannot be passed. */
  lemma RewrittenIsStuck(hash: Bytes -> string, src: Source, s: Server, rows: Index, p: Path, a: Bytes, b: Bytes,
                         id: NodeID, v: int, w: int)
    requires SoundHash(hash) && ServerOk(s) && Indexes(hash, rows, s) && a != b
    requires OpOk(s, Create(p, Regular(a), id, v))
    requires var hist := [Create(p, Regular(a), id, v), Update(p, b, w)];
             HistoryOk(s, hist) && Numbers(src.feed, Entries(hash, s, hist)) && HandsOut(src, Final(s, hist))
    ensures var hist := [Create(p, Regular(a), id, v), Update(p, b, w)];
            !Current(hash, src, Exact(PlanOf(hash, s, hist, rows)), 0)
  {
    var hist := [Create(p, Regular(a), id, v), Update(p, b, w)];
    var end := Final(s, hist);
    RewrittenEnd(s, p, a, b, id, v, w);
    ScriptShape(hash, s, hist, rows);
    InFirstBlock(hash, s, hist, rows, 0);
    CurrentIffNotSuperseded(hash, src, s, hist, rows, 0);
    hide HistoryOk, Numbers, HandsOut, Final, Script, Entries, Bodies, Holds;
    assert BringsContent(Goal(s.tree, rows), src.feed[0]);
  }

  lemma RewrittenEnd(s: Server, p: Path, a: Bytes, b: Bytes, id: NodeID, v: int, w: int)
    requires ServerOk(s) && OpOk(s, Create(p, Regular(a), id, v)) && a != b
    requires HistoryOk(s, [Create(p, Regular(a), id, v), Update(p, b, w)])
    ensures !Holds(Final(s, [Create(p, Regular(a), id, v), Update(p, b, w)]), id, a)
  {
    var one, two := Create(p, Regular(a), id, v), Update(p, b, w);
    var s1 := After(s, one);
    assert [one, two][1..] == [two] && [two][1..] == [];
    assert Final(s, [one, two]) == Final(s1, [two]) == After(s1, two);
  }

  /** And so is that of a file created and deleted while the client was away. */
  lemma DeletedIsStuck(hash: Bytes -> string, src: Source, s: Server, rows: Index, op: Op, gone: Op)
    requires SoundHash(hash) && ServerOk(s) && Indexes(hash, rows, s)
    requires op.Create? && op.node.Regular? && OpOk(s, op) && gone.Delete? && gone.path == op.path
    requires HistoryOk(s, [op, gone]) && Numbers(src.feed, Entries(hash, s, [op, gone]))
    requires HandsOut(src, Final(s, [op, gone]))
    ensures |src.feed| > 0 && !Current(hash, src, Exact(PlanOf(hash, s, [op, gone], rows)), 0)
  {
    var hist := [op, gone];
    DeletedEnd(s, op, gone);
    ScriptShape(hash, s, hist, rows);
    InFirstBlock(hash, s, hist, rows, 0);
    CurrentIffNotSuperseded(hash, src, s, hist, rows, 0);
    hide HistoryOk, Numbers, HandsOut, Final, Script, Entries, Bodies, Holds;
    assert BringsContent(Goal(s.tree, rows), src.feed[0]);
  }

  lemma DeletedEnd(s: Server, op: Op, gone: Op)
    requires ServerOk(s) && op.Create? && op.node.Regular? && OpOk(s, op) && gone.Delete? && gone.path == op.path
    requires HistoryOk(s, [op, gone])
    ensures forall data :: !Holds(Final(s, [op, gone]), op.id, data)
  {
    assert [op, gone][1..] == [gone] && [gone][1..] == [];
    assert Final(s, [op, gone]) == Final(After(s, op), [gone]) == After(After(s, op), gone);
    assert Within(op.path, op.path);
  }

  class Engine {
    const hash: Bytes -> string
    /** Nothing stops this run and no call of the operating system fails without a reason in
        the tree it is made on. */
    const calm: bool
    var disk: Tree
    var index: Index
    var cursor: int
    /** The scope epoch of the last completed reset. */
    var epoch: int

    constructor (hash: Bytes -> string, calm: bool, disk: Tree, index: Index, cursor: int, epoch: int)
      ensures this.hash == hash && this.calm == calm && this.disk == disk && this.index == index
      ensures this.cursor == cursor && this.epoch == epoch
    {
      this.hash, this.calm, this.disk, this.index, this.cursor, this.epoch := hash, calm, disk, index, cursor, epoch;
    }

    /** PullOnce; `from` is where the client is.
        - Tracked exactly, a pull that is stopped, at any effect of any entry, is still following
          the feed, so the next pull continues from there; one that returns ok has applied all
          of it, wherever the pages were cut and whatever stops came before.
        - Only entries that bring content are downloaded.
        - Over a folder with other contents a pull that returns ok has put the whole tree in place.
        - A pull that nothing disturbs returns ok if, and begun between two entries only if, every
          entry still to come that brings content brings what its node holds now. If not, the
          pull ends before such an entry, and so does every later one, disturbed or not, for as
          long as the node holds something else. */
    method PullOnce(src: Source, ghost mode: Mode, ghost from: nat) returns (ok: bool)
      requires SoundHash(hash)
      requires OnTheWay(hash, disk, index, cursor, src.feed, mode, from)
      modifies this`disk, this`index, this`cursor, src`downloads
      ensures Closed(disk)
      ensures mode.Exact? ==> Following(hash, disk, index, cursor, src.feed, mode)
      ensures ok ==> OnTheWay(hash, disk, index, cursor, src.feed, mode, |src.feed|)
      ensures ok ==> cursor == old(cursor) || (src.feed != [] && cursor == src.feed[|src.feed| - 1].seqNo)
      ensures OnlyContent(src.feed, mode, old(src.downloads), src.downloads)
      ensures calm && src.calm && AllCurrent(hash, src, mode, from, |src.feed|) ==> ok
      ensures src.calm && ok && old(ReachedAt(disk, index, mode, from)) ==>
                AllCurrent(hash, src, mode, from, |src.feed|)
      ensures (calm && src.calm && !ok && old(ReachedAt(disk, index, mode, from))) ==>
                exists k :: from <= k && StuckAt(hash, disk, index, cursor, src, mode, k)
      ensures src.calm && old(StuckAt(hash, disk, index, cursor, src, mode, from)) ==>
                !ok && StuckAt(hash, disk, index, cursor, src, mode, from)
    {
      hide OnTheWay, Following, AppliedUpTo, OnlyContent, Closed, Rising, Current, ReachedAt, StuckAt;
      NothingFetched(src.feed, mode, src.downloads);
      ghost var i := from;
      WhereItIs(hash, disk, index, cursor, src.feed, mode, i);
      if ReachedAt(disk, index, mode, from) { ReachedIsExact(disk, index, mode, from); }
      if StuckAt(hash, disk, index, cursor, src, mode, from) { StuckIs(hash, disk, index, cursor, src, mode, from); }
      var since := cursor;
      while true
        invariant OnTheWay(hash, disk, index, cursor, src.feed, mode, i)
        invariant AppliedUpTo(src.feed, i, since) && from <= i <= |src.feed|
        invariant cursor == since && (cursor == old(cursor) || (i > 0 && cursor == src.feed[i - 1].seqNo))
        invariant OnlyContent(src.feed, mode, old(src.downloads), src.downloads)
        invariant old(ReachedAt(disk, index, mode, from)) ==> ReachedAt(disk, index, mode, i)
        invariant src.calm && old(ReachedAt(disk, index, mode, from)) ==> AllCurrent(hash, src, mode, from, i)
        invariant i == from ==> disk == old(disk) && index == old(index) && cursor == old(cursor)
        decreases |src.feed| - i
      {
        WhereItIs(hash, disk, index, cursor, src.feed, mode, i);
        var fine, changes, next, hasMore := src.Changes(since, PAGE_LIMIT, i);
        if !fine { return false; }
        ghost var before := src.downloads;
        var applied := ApplyPage(changes, src, mode, i);
        MoreContent(src.feed, mode, old(src.downloads), before, src.downloads);
        if !applied { return false; }
        assert changes != [] ==> changes[|changes| - 1] == src.feed[i + |changes| - 1];
        i := i + |changes|;
        since := next;
        WhereItIs(hash, disk, index, cursor, src.feed, mode, i);
        if !hasMore { return true; }
      }
    }

    /** PullOnce's inner loop over one page. */
    method ApplyPage(changes: seq<Change>, src: Source, ghost mode: Mode, ghost start: nat) returns (ok: bool)
      requires SoundHash(hash)
      requires OnTheWay(hash, disk, index, cursor, src.feed, mode, start)
      requires start + |changes| <= |src.feed| && changes == src.feed[start..start + |changes|]
      modifies this`disk, this`index, this`cursor, src`downloads
      ensures Closed(disk)
      ensures ok ==> OnTheWay(hash, disk, index, cursor, src.feed, mode, start + |changes|)
      ensures ok ==> cursor == if changes == [] then old(cursor) else changes[|changes| - 1].seqNo
      ensures changes == [] ==> ok && disk == old(disk) && index == old(index)
      ensures mode.Exact? ==> Following(hash, disk, index, cursor, src.feed, mode)
      ensures OnlyContent(src.feed, mode, old(src.downloads), src.downloads)
      ensures calm && src.calm && AllCurrent(hash, src, mode, start, start + |changes|) ==> ok
      ensures ok && old(ReachedAt(disk, index, mode, start)) ==> ReachedAt(disk, index, mode, start + |changes|)
      ensures src.calm && ok && old(ReachedAt(disk, index, mode, start)) ==>
                AllCurrent(hash, src, mode, start, start + |changes|)
      ensures (calm && src.calm && !ok && old(ReachedAt(disk, index, mode, start))) ==>
                exists k :: start <= k && StuckAt(hash, disk, index, cursor, src, mode, k)
      ensures src.calm && changes != [] && old(StuckAt(hash, disk, index, cursor, src, mode, start)) ==>
                !ok && StuckAt(hash, disk, index, cursor, src, mode, start)
    {
      hide OnTheWay, Following, OnlyContent, Closed, Current, ReachedAt, StuckAt;
      NothingFetched(src.feed, mode, src.downloads);
      WhereItIs(hash, disk, index, cursor, src.feed, mode, start);
      if ReachedAt(disk, index, mode, start) { ReachedIsExact(disk, index, mode, start); }
      if StuckAt(hash, disk, index, cursor, src, mode, start) { StuckIs(hash, disk, index, cursor, src, mode, start); }
      var k := 0;
      while k < |changes|
        invariant k <= |changes|
        invariant OnTheWay(hash, disk, index, cursor, src.feed, mode, start + k)
        invariant cursor == if k == 0 then old(cursor) else changes[k - 1].seqNo
        invariant OnlyContent(src.feed, mode, old(src.downloads), src.downloads)
        invariant old(ReachedAt(disk, index, mode, start)) ==> ReachedAt(disk, index, mode, start + k)
        invariant src.calm && old(ReachedAt(disk, index, mode, start)) ==> AllCurrent(hash, src, mode, start, start + k)
        invariant k == 0 ==> disk == old(disk) && index == old(index)
        invariant src.calm && old(StuckAt(hash, disk, index, cursor, src, mode, start)) ==> k == 0
      {
        ghost var before := src.downloads;
        ok := Advance(changes[k], src, mode, start + k);
        MoreContent(src.feed, mode, old(src.downloads), before, src.downloads);
        if !ok {
          if mode.Exact? {
            WhereItIs(hash, disk, index, cursor, src.feed, mode, start + k);
          }
          return;
        }
        k := k + 1;
      }
      WhereItIs(hash, disk, index, cursor, src.feed, mode, start + k);
      ok := true;
    }

    /** One entry of the feed: apply it, then move the cursor past it. */
    method Advance(c: Change, src: Source, ghost mode: Mode, ghost i: nat) returns (ok: bool)
      requires SoundHash(hash)
      requires OnTheWay(hash, disk, index, cursor, src.feed, mode, i)
      requires i < |src.feed| && c == src.feed[i]
      modifies this`disk, this`index, this`cursor, src`downloads
      ensures Closed(disk)
      ensures ok ==> OnTheWay(hash, disk, index, cursor, src.feed, mode, i + 1) && cursor == c.seqNo
      ensures !ok && mode.Exact? ==> OnTheWay(hash, disk, index, cursor, src.feed, mode, i)
      ensures OnlyContent(src.feed, mode, old(src.downloads), src.downloads)
      ensures calm && src.calm && Current(hash, src, mode, i) ==> ok
      ensures ok && mode.Exact? ==> ReachedAt(disk, index, mode, i + 1)
      ensures src.calm && old(ReachedAt(disk, index, mode, i)) && !Current(hash, src, mode, i) ==>
                !ok && StuckAt(hash, disk, index, cursor, src, mode, i)
    {
      ghost var d, x := disk, index;
      ghost var step := StepOf(src.feed, mode, i);
      EntryIsTracked(hash, disk, index, cursor, src.feed, mode, i);
      CurrentStep(hash, disk, index, cursor, src, mode, i);
      hide OnTheWay, StepOf, StepOk, Closed, Current, ReachedAt, AtStart, Unmatched, StuckAt;
      ghost var body: Bytes;
      ok, body := Apply(c, src, step);
      ContentIsTracked(hash, src.feed, mode, i, old(src.downloads), src.downloads);
      if !ok {
        EntryStopped(hash, d, x, disk, index, cursor, src.feed, mode, i);
        StillStuck(hash, disk, index, cursor, src, mode, i);
        return;
      }
      EntryReached(hash, d, x, cursor, src.feed, mode, i, disk, index);
      var stop := Stopped(calm);
      if stop {
        EntryStopped(hash, d, x, disk, index, cursor, src.feed, mode, i);
        return false;
      }
      EntryDone(hash, d, x, disk, index, cursor, src.feed, mode, i, body);
      cursor := c.seqNo;
    }

    /** apply. When it returns ok the folder and the index have the entry's effect; tracked
        exactly, whatever state an earlier stop left, they are where the entry leads, and a
        run that stops leaves a state the next one can start from. */
    method Apply(c: Change, src: Source, ghost step: Step) returns (ok: bool, ghost body: Bytes)
      requires SoundHash(hash) && Closed(disk) && StepOk(hash, disk, index, c, step)
      modifies this`disk, this`index, src`downloads
      ensures Closed(disk) && StepOk(hash, disk, index, c, step)
      ensures ok ==> index == ApplyIndex(old(index), c) && ApplyDisk(old(disk), old(index), c, body) == Some(disk)
      ensures ok ==> BodyMatches(hash, old(disk), old(index), c, body)
      ensures ok && step.Tracked? ==> Reached(disk, index, step.to)
      ensures src.downloads == old(src.downloads) || src.downloads == old(src.downloads) + [c.nodeID]
      ensures src.downloads != old(src.downloads) && step.Tracked? ==> BringsContent(step.from, c)
      ensures calm && src.calm ==> (ok <==> Applies(hash, src, old(disk), old(index), c))
      ensures calm && src.calm && step.Tracked? && !Unmatched(hash, src, c, step) ==> ok
      ensures src.calm && old(AtStart(disk, index, step)) && Unmatched(hash, src, c, step) ==>
                !ok && AtStart(disk, index, step)
    {
      body := [];
      if c.deleted {
        if c.relPath == [] { return false, body; }
        ok := ApplyDelete(c, step);
      } else if c.isDir {
        ok := ApplyDir(c, step);
      } else {
        ok, body := ApplyFile(c, src, step);
      }
    }

    method ApplyDelete(c: Change, ghost step: Step) returns (ok: bool)
      requires SoundHash(hash) && Closed(disk) && StepOk(hash, disk, index, c, step)
      requires c.deleted && c.relPath != []
      modifies this`disk, this`index
      ensures Closed(disk) && StepOk(hash, disk, index, c, step)
      ensures ok ==> disk == RemoveAll(old(disk), c.relPath) && index == ApplyIndex(old(index), c)
      ensures ok && step.Tracked? ==> Reached(disk, index, step.to)
      ensures calm ==> ok
    {
      var halfway := Stopped(calm);
      if halfway {
        var spared: set<Path> := *;
        RemoveSomeKeepsClosed(disk, c.relPath, spared);
        if step.Tracked? {
          DeleteStops(hash, step.from, c, step.data, step.to, disk, index, spared);
        }
        disk := RemoveSome(disk, c.relPath, spared);
        return false;
      }
      RemoveKeepsClosed(disk, c.relPath);
      if step.Tracked? {
        DeleteFinishes(hash, step.from, c, step.data, step.to, disk, index);
      }
      hide Mirrors, PartlyRemoved, Closed;
      disk := RemoveAll(disk, c.relPath);
      var stop := Stopped(calm);
      if stop { return false; }
      index := index - {c.nodeID};
      ok := true;
    }

    method ApplyDir(c: Change, ghost step: Step) returns (ok: bool)
      requires SoundHash(hash) && Closed(disk) && StepOk(hash, disk, index, c, step)
      requires !c.deleted && c.isDir
      modifies this`disk, this`index
      ensures Closed(disk) && StepOk(hash, disk, index, c, step)
      ensures ok ==> ApplyDisk(old(disk), old(index), c, []) == Some(disk) && index == ApplyIndex(old(index), c)
      ensures ok && step.Tracked? ==> Reached(disk, index, step.to)
      ensures calm && step.Tracked? ==> ok
      ensures calm ==> (ok <==> ApplyDisk(old(disk), old(index), c, []).Some?)
    {
      hide Closed, Mirrors, Settles;
      var abs := c.relPath;
      if step.Tracked? { DirIsTracked(hash, step.from, c, step.data, step.to, disk, index); }
      if Relocates(index, c) && index[c.nodeID].path in disk && disk[index[c.nodeID].path] == Folder {
        var old' := index[c.nodeID].path;
        match MkdirAll(disk, Above(abs)) {
          case None => return false;
          case Some(d) =>
            MkdirAllKeepsClosed(disk, Above(abs));
            disk := d;
        }
        var stop := Stopped(calm);
        if stop { return false; }
        // A failing rename is ignored: the target may exist after a manual move.
        match Rename(disk, old', abs) {
          case None =>
          case Some(d) =>
            RenameKeepsClosed(disk, old', abs);
            disk := d;
        }
        stop := Stopped(calm);
        if stop { return false; }
      }
      match MkdirAll(disk, abs) {
        case None => return false;
        case Some(d) =>
          MkdirAllKeepsClosed(disk, abs);
          disk := d;
      }
      var stop := Stopped(calm);
      if stop { return false; }
      index := index[c.nodeID := Row(c.relPath, true, c.version, "", 0)];
      ok := true;
    }

    method ApplyFile(c: Change, src: Source, ghost step: Step) returns (ok: bool, ghost body: Bytes)
      requires SoundHash(hash) && Closed(disk) && StepOk(hash, disk, index, c, step)
      requires !c.deleted && !c.isDir
      modifies this`disk, this`index, src`downloads
      ensures Closed(disk) && StepOk(hash, disk, index, c, step)
      ensures ok ==> index == ApplyIndex(old(index), c) && ApplyDisk(old(disk), old(index), c, body) == Some(disk)
      ensures ok ==> BodyMatches(hash, old(disk), old(index), c, body)
      ensures ok && step.Tracked? ==> Reached(disk, index, step.to)
      ensures src.downloads == old(src.downloads) || src.downloads == old(src.downloads) + [c.nodeID]
      ensures src.downloads != old(src.downloads) && step.Tracked? ==> BringsContent(step.from, c)
      ensures calm && src.calm ==> (ok <==> FileApplies(hash, src, old(disk), old(index), c))
      ensures calm && src.calm && step.Tracked? && !Unmatched(hash, src, c, step) ==> ok
      ensures src.calm && old(AtStart(disk, index, step)) && Unmatched(hash, src, c, step) ==>
                !ok && AtStart(disk, index, step)
    {
      hide Closed, Mirrors, Settles;
      body := [];
      ok := BringOldCopy(c, step);
      if !ok { return; }
      if InPlace(disk, index, c) {
        if step.Tracked? {
          AlreadyInPlace(hash, step.from, c, step.data, step.to, disk, index);
        }
        index := index[c.nodeID := Row(c.relPath, false, c.version, c.hash, c.size)];
        return true, body;
      }
      ok, body := FetchContent(c, src, step);
    }

    /** First part of apply for a file: move the copy known under another path. */
    method BringOldCopy(c: Change, ghost step: Step) returns (ok: bool)
      requires SoundHash(hash) && Closed(disk) && StepOk(hash, disk, index, c, step)
      requires !c.deleted && !c.isDir
      modifies this`disk
      ensures Closed(disk) && StepOk(hash, disk, index, c, step)
      ensures ok ==> FileBrought(old(disk), index, c) == Some(disk)
      ensures ok && step.Tracked? ==> InPosition(disk, index, step.from, c, step.data, step.to)
      ensures old(AtStart(disk, index, step)) && BringsContent(step.from, c) ==>
                disk == old(disk) && !InPlace(disk, index, c)
      ensures calm && step.Tracked? ==> ok
      ensures calm ==> (ok <==> FileBrought(old(disk), index, c).Some?)
    {
      hide Closed, Mirrors, Settles;
      var abs := c.relPath;
      if AtStart(disk, index, step) && BringsContent(step.from, c) {
        NothingToBring(hash, step.from, c, step.data, step.to, disk, index);
      }
      if step.Tracked? { FileIsTracked(hash, step.from, c, step.data, step.to, disk, index); }
      if Relocates(index, c) && index[c.nodeID].path in disk {
        var old' := index[c.nodeID].path;
        match MkdirAll(disk, Above(abs)) {
          case None => return false;
          case Some(d) =>
            MkdirAllKeepsClosed(disk, Above(abs));
            disk := d;
        }
        var stop := Stopped(calm);
        if stop { return false; }
        match Rename(disk, old', abs) {
          case None => return false;
          case Some(d) =>
            RenameKeepsClosed(disk, old', abs);
            disk := d;
        }
        stop := Stopped(calm);
        return !stop;
      }
      ok := true;
    }

    /** Last part of apply for a file: download beside the target, check the hash, publish. */
    method FetchContent(c: Change, src: Source, ghost step: Step) returns (ok: bool, ghost body: Bytes)
      requires SoundHash(hash) && Closed(disk) && StepOk(hash, disk, index, c, step)
      requires !c.deleted && !c.isDir && !InPlace(disk, index, c)
      requires step.Tracked? ==> InPosition(disk, index, step.from, c, step.data, step.to)
      modifies this`disk, this`index, src`downloads
      ensures Closed(disk) && StepOk(hash, disk, index, c, step)
      ensures ok ==> c.relPath != [] && index == ApplyIndex(old(index), c)
      ensures ok ==> match MkdirAll(old(disk), Parent(c.relPath))
                     case None => false
                     case Some(e) =>
                       && (c.relPath in e ==> e[c.relPath] != Folder)
                       && disk == e[c.relPath := Regular(body)]
      ensures ok ==> c.hash == "" || hash(body) == c.hash
      ensures ok && step.Tracked? ==> Reached(disk, index, step.to)
      ensures src.downloads == old(src.downloads) || src.downloads == old(src.downloads) + [c.nodeID]
      ensures src.downloads != old(src.downloads) && step.Tracked? ==> BringsContent(step.from, c)
      ensures calm && src.calm ==> (ok <==> Accepted(hash, src, c) && HasRoom(old(disk), c))
      ensures calm && src.calm && step.Tracked? && !Unmatched(hash, src, c, step) ==> ok
      ensures src.calm && old(AtStart(disk, index, step)) && Unmatched(hash, src, c, step) ==>
                !ok && AtStart(disk, index, step)
    {
      hide Closed, Mirrors, Settles;
      body := [];
      var abs := c.relPath;
      if step.Tracked? { FetchIsTracked(hash, step.from, c, step.data, step.to, disk, index); }
      if abs == [] { return false, body; }
      match MkdirAll(disk, Parent(abs)) {
        case None => return false, body;
        case Some(d) =>
          MkdirAllKeepsClosed(disk, Parent(abs));
          disk := d;
      }
      var stop := Stopped(calm);
      if stop { return false, body; }
      ghost var before := disk;
      var complete, tmp, received := DownloadBeside(c, src, step);
      body := received;
      if !complete { return false, body; }
      ok := Publish(c, tmp, received, step, before);
    }

    /** The finished download replaces whatever file is at the target; then its row is entered. */
    method Publish(c: Change, tmp: Path, received: Bytes, ghost step: Step, ghost before: Tree) returns (ok: bool)
      requires SoundHash(hash) && Closed(disk) && Closed(before) && StepOk(hash, before, index, c, step)
      requires !c.deleted && !c.isDir && c.relPath != [] && (c.hash == "" || hash(received) == c.hash)
      requires Parent(c.relPath) in before && before[Parent(c.relPath)] == Folder
      requires tmp !in before && tmp != [] && disk == before[tmp := Regular(received)]
      requires StepOk(hash, disk, index, c, step)
      requires step.Tracked? ==> InPosition(before, index, step.from, c, step.data, step.to)
      requires step.Tracked? ==> index[c.nodeID := RowOf(c)] == step.to.rows
      requires step.Tracked? ==>
                 c.hash == hash(step.data) && step.to.tree == step.from.tree[c.relPath := Regular(step.data)]
      modifies this`disk, this`index
      ensures Closed(disk) && StepOk(hash, disk, index, c, step)
      ensures ok ==> index == ApplyIndex(old(index), c)
      ensures ok ==>
                && disk == before[c.relPath := Regular(received)]
                && (c.relPath in before ==> before[c.relPath] != Folder)
      ensures ok && step.Tracked? ==> Reached(disk, index, step.to)
      ensures calm && step.Tracked? ==> ok
      ensures calm ==> (ok <==> !(c.relPath in before && before[c.relPath] == Folder))
      ensures calm && !ok ==> disk == before && index == old(index)
    {
      hide Closed, Mirrors, Settles;
      var abs := c.relPath;
      if step.Tracked? { PublishSucceeds(hash, step.from, c, step.data, step.to, before, index, tmp, received); }
      match Rename(disk, tmp, abs) {
        case None =>
          TmpLeaves(before, tmp, received);
          disk := RemoveAll(disk, tmp);
          return false;
        case Some(d) =>
          RenameKeepsClosed(disk, tmp, abs);
          PublishIs(disk, tmp, abs, received);
          if step.Tracked? { PublishIsTracked(hash, step.from, c, step.data, step.to, before, index, tmp, received); }
          disk := d;
      }
      assert disk == before[abs := Regular(received)];
      var stop := Stopped(calm);
      if stop { return false; }
      index := index[c.nodeID := Row(c.relPath, false, c.version, c.hash, c.size)];
      ok := true;
    }

    /** os.CreateTemp next to the target, Download into it, and the hash check. */
    method DownloadBeside(c: Change, src: Source, ghost step: Step) returns (ok: bool, tmp: Path, received: Bytes)
      requires SoundHash(hash) && Closed(disk) && StepOk(hash, disk, index, c, step)
      requires !c.deleted && !c.isDir && c.relPath != []
      requires Parent(c.relPath) in disk && disk[Parent(c.relPath)] == Folder
      requires step.Tracked? ==> BringsContent(step.from, c) && c.hash == hash(step.data)
      requires step.Tracked? ==> InPosition(disk, index, step.from, c, step.data, step.to)
      modifies this`disk, src`downloads
      ensures Closed(disk) && StepOk(hash, disk, index, c, step)
      ensures ok ==> tmp !in old(disk) && tmp != [] && disk == old(disk)[tmp := Regular(received)]
      ensures ok ==> c.hash == "" || hash(received) == c.hash
      ensures src.downloads == old(src.downloads) || src.downloads == old(src.downloads) + [c.nodeID]
      ensures calm && src.calm && step.Tracked? && !Unmatched(hash, src, c, step) ==> ok
      ensures src.calm && c.hash != "" && !ContentMatches(hash, src, c) ==> !ok
      ensures calm && src.calm ==> (ok <==> Accepted(hash, src, c)) && (ok ==> received == Handed(src, c))
      ensures calm && !ok ==> disk == old(disk)
      ensures !ok && old(AtStart(disk, index, step)) ==> AtStart(disk, index, step)
    {
      hide Closed, Mirrors, Settles, InPosition;
      FreshTmp(disk, Parent(c.relPath));
      var suffix: string :| Parent(c.relPath) + [".kf-tmp-" + suffix] !in disk;
      tmp := Parent(c.relPath) + [".kf-tmp-" + suffix];
      var fine;
      fine, received := src.Download(c.nodeID);
      TmpArrives(disk, Parent(c.relPath), suffix, received);
      if step.Tracked? { TmpIsTracked(hash, step.from, c, step.data, step.to, disk, index, tmp, received); }
      disk := disk[tmp := Regular(received)];
      var stop := Stopped(calm);
      if stop { return false, tmp, received; }
      if !fine || (c.hash != "" && hash(received) != c.hash) {
        TmpLeaves(old(disk), tmp, received);
        disk := RemoveAll(disk, tmp);
        return false, tmp, received;
      }
      ok := true;
    }
  }
}
