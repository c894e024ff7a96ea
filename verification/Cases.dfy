/** Inputs on which the synchroniser does less than one might expect. For each of them the exact
    condition is proved elsewhere for all inputs; here it is shown not to hold. */
module Cases {
  import opened FileSystem
  import opened SyncTypes
  import opened Feed
  import opened LocalChanges
  import opened Push
  import opened PushState
  import opened PushRun
  import opened Chronicle
  import opened Forecast
  import opened Foreign
  import opened CatchUp
  import opened SyncPass
  import P = PushLocal
  import E = Engine
  import Replay

  // ---------- pairing in a report whose contents are all different ----------

  /** `j` is the only delete of the content that `i` is the only create of. */
  ghost predicate OnlyPair(cs: seq<LocalChange>, i: nat, j: nat) {
    && i < |cs| && j < |cs| && IsCreate(cs[i], cs[i].hash) && IsDelete(cs[j], cs[i].hash)
    && (forall k {:trigger IsCreate(cs[k], cs[i].hash)} :: 0 <= k < |cs| && IsCreate(cs[k], cs[i].hash) ==> k == i)
    && (forall k {:trigger IsDelete(cs[k], cs[i].hash)} :: 0 <= k < |cs| && IsDelete(cs[k], cs[i].hash) ==> k == j)
  }

  lemma {:induction false} OnlyDelete(cs: seq<LocalChange>, h: string, j: nat, k: nat)
    requires j < |cs| && IsDelete(cs[j], h) && k <= |cs|
    requires forall m {:trigger IsDelete(cs[m], h)} :: 0 <= m < |cs| && IsDelete(cs[m], h) ==> m == j
    ensures Deletes(cs, h, k) == if j < k then [j] else []
    decreases k
  {
    if k > 0 { OnlyDelete(cs, h, j, k - 1); }
  }

  lemma {:induction false} NoCreateBefore(cs: seq<LocalChange>, h: string, i: nat, k: nat)
    requires k <= i < |cs|
    requires forall m {:trigger IsCreate(cs[m], h)} :: 0 <= m < |cs| && IsCreate(cs[m], h) ==> m == i
    ensures Creates(cs, h, k) == 0
    decreases k
  {
    if k > 0 { NoCreateBefore(cs, h, i, k - 1); }
  }

  lemma OnlyPairIsPaired(cs: seq<LocalChange>, i: nat, j: nat)
    requires OnlyPair(cs, i, j)
    ensures SourceOf(cs, i) == Some(j) && Consumed(cs, j) && !Consumed(cs, i)
    ensures PairedAt(cs, i) == LocalChange(MoveOp, cs[i].relPath, cs[j].relPath, false, cs[i].hash, cs[i].size)
  {
    OnlyDelete(cs, cs[i].hash, j, |cs|);
    NoCreateBefore(cs, cs[i].hash, i, i);
    assert !Consumed(cs, i);
  }

  lemma OneMovePaired(cs: seq<LocalChange>, i: nat, j: nat)
    requires |cs| == 2 && OnlyPair(cs, i, j)
    ensures Paired(cs) == [LocalChange(MoveOp, cs[i].relPath, cs[j].relPath, false, cs[i].hash, cs[i].size)]
  {
    OnlyPairIsPaired(cs, i, j);
    hide Consumed, PairedAt;
    assert i != j;
    assert Paired(cs) == PairedUpTo(cs, 2);
    assert PairedUpTo(cs, 1) == if Consumed(cs, 0) then [] else [PairedAt(cs, 0)];
  }

  lemma ThreeMovesPaired(cs: seq<LocalChange>)
    requires |cs| == 6 && OnlyPair(cs, 0, 3) && OnlyPair(cs, 1, 4) && OnlyPair(cs, 2, 5)
    ensures Paired(cs) == [PairedAt(cs, 0), PairedAt(cs, 1), PairedAt(cs, 2)]
    ensures forall i: nat :: i < 3 ==>
              PairedAt(cs, i) == LocalChange(MoveOp, cs[i].relPath, cs[i + 3].relPath, false, cs[i].hash, cs[i].size)
  {
    OnlyPairIsPaired(cs, 0, 3);
    OnlyPairIsPaired(cs, 1, 4);
    OnlyPairIsPaired(cs, 2, 5);
    hide Consumed, PairedAt, OnlyPair;
    assert PairedUpTo(cs, 0) == [];
    assert PairedUpTo(cs, 1) == [PairedAt(cs, 0)];
    assert PairedUpTo(cs, 2) == [PairedAt(cs, 0), PairedAt(cs, 1)];
    assert PairedUpTo(cs, 3) == [PairedAt(cs, 0), PairedAt(cs, 1), PairedAt(cs, 2)];
    assert PairedUpTo(cs, 4) == PairedUpTo(cs, 3);
    assert PairedUpTo(cs, 5) == PairedUpTo(cs, 4);
    assert PairedUpTo(cs, 6) == PairedUpTo(cs, 5);
  }

  // ---------- a way that is taken ----------

  /** `x` has been moved to `b/y`, and goes through `b/x`, which is another file. */
  ghost function Crossing(hash: Bytes -> string): Start {
    var t: Tree := map[[] := Folder, ["b"] := Folder, ["x"] := Regular([1]), ["b", "x"] := Regular([2])];
    var s := Server(t, map[["b"] := Meta("1", 0), ["x"] := Meta("2", 0), ["b", "x"] := Meta("3", 0)]);
    var local: Tree := map[[] := Folder, ["b"] := Folder, ["b", "y"] := Regular([1]), ["b", "x"] := Regular([2])];
    var rows := map["1" := Row(["b"], true, 0, "", 0), "2" := Row(["x"], false, 0, hash([1]), 1),
                    "3" := Row(["b", "x"], false, 0, hash([2]), 1)];
    Start(s, local, rows, {})
  }

  /** Whatever the order of the scan, the plan is this one move; its way is not free, so no push
      from here returns ok. */
  lemma AWayCanBeTaken(hash: Bytes -> string, disk: Tree, plan: seq<LocalChange>)
    requires SoundHash(hash) && Closed(disk) && Visible(disk) == Crossing(hash).local
    requires P.Plans(hash, disk, Crossing(hash).rows, true, plan)
    ensures StartOk(hash, Crossing(hash)) && P.UpToDate(Crossing(hash))
    ensures plan == [LocalChange(MoveOp, ["b", "y"], ["x"], false, hash([1]), 1)]
    ensures !P.AllWaysFree(Crossing(hash), plan)
  {
    hide Visible, Reports, KeyedByPath, Crossing, StartOk, P.UpToDate, P.AllWaysFree, P.WayIsFree, P.Sorts;
    var c := LocalChange(MoveOp, ["b", "y"], ["x"], false, hash([1]), 1);
    var report, known :| KeyedByPath(Crossing(hash).rows, known) && Reports(report, hash, disk, known)
        && P.Sorts(report, true, plan);
    CrossingIsPaired(hash, disk, known, report);
    OneIsSorted(report, c, plan);
    CrossingIsBlocked(hash, c);
    CrossingIsStart(hash);
    NotAllFree(Crossing(hash), [c], 0);
  }

  lemma OneIsSorted(report: seq<LocalChange>, c: LocalChange, plan: seq<LocalChange>)
    requires P.Sorts(report, true, plan) && Paired(report) == [c]
    ensures plan == [c]
  {
    hide Paired, Ordered, SameAlike;
    assert multiset(plan) == multiset([c]);
    assert |plan| == |multiset(plan)| == 1;
    assert plan[0] in multiset(plan);
  }

  lemma CrossingDiffs(hash: Bytes -> string, disk: Tree, known: map<Path, Row>, p: Path)
    requires Visible(disk) == Crossing(hash).local && KeyedByPath(Crossing(hash).rows, known)
    ensures DiffAt(hash, disk, known, p) ==
              if p == ["b", "y"] then Some(LocalChange(CreateOp, p, [], false, hash([1]), 1))
              else if p == ["x"] then Some(LocalChange(DeleteOp, p, [], false, hash([1]), 1))
              else None
  {
    CrossingKnown(hash, known, p);
    assert p in Visible(disk) ==> Visible(disk)[p] == disk[p];
    hide KeyedByPath, Visible;
  }

  lemma CrossingKnown(hash: Bytes -> string, known: map<Path, Row>, p: Path)
    requires KeyedByPath(Crossing(hash).rows, known)
    ensures p in known <==> p == ["b"] || p == ["x"] || p == ["b", "x"]
    ensures p in known && p != ["b"] ==> known[p] == Row(p, false, 0, hash(if p == ["x"] then [1] else [2]), 1)
  {
    var rows := Crossing(hash).rows;
    assert rows["1"].path in known && rows["2"].path in known && rows["3"].path in known;
    if p in known {
      var id :| id in rows && rows[id].path == p;
      assert id == "1" || id == "2" || id == "3";
    }
  }

  lemma CrossingIsPaired(hash: Bytes -> string, disk: Tree, known: map<Path, Row>, report: seq<LocalChange>)
    requires SoundHash(hash) && Visible(disk) == Crossing(hash).local && KeyedByPath(Crossing(hash).rows, known)
    requires Reports(report, hash, disk, known)
    ensures Paired(report) == [LocalChange(MoveOp, ["b", "y"], ["x"], false, hash([1]), 1)]
  {
    var c, d := LocalChange(CreateOp, ["b", "y"], [], false, hash([1]), 1), LocalChange(DeleteOp, ["x"], [], false,
          hash([1]), 1);
    CrossingDiffs(hash, disk, known, ["b", "y"]);
    CrossingDiffs(hash, disk, known, ["x"]);
    hide Visible, KeyedByPath, Crossing;
    assert DiffAt(hash, disk, known, ["b", "y"]).Some? && DiffAt(hash, disk, known, ["x"]).Some?;
    forall k | 0 <= k < |report|
      ensures report[k].relPath == ["b", "y"] || report[k].relPath == ["x"]
    {
      CrossingDiffs(hash, disk, known, report[k].relPath);
    }
    hide DiffAt;
    var i, j := OnlyTwo(report, ["b", "y"], ["x"]);
    assert report[i] == c && report[j] == d;
    hide Reports;
    OneMovePaired(report, i, j);
  }

  lemma OnlyTwo(cs: seq<LocalChange>, a: Path, b: Path) returns (i: nat, j: nat)
    requires a != b && forall k, m :: 0 <= k < m < |cs| ==> cs[k].relPath != cs[m].relPath
    requires forall k :: 0 <= k < |cs| ==> cs[k].relPath == a || cs[k].relPath == b
    requires (exists k :: 0 <= k < |cs| && cs[k].relPath == a) && exists k :: 0 <= k < |cs| && cs[k].relPath == b
    ensures |cs| == 2 && i < 2 && j < 2 && cs[i].relPath == a && cs[j].relPath == b
  {
    i :| i < |cs| && cs[i].relPath == a;
    j :| j < |cs| && cs[j].relPath == b;
    if |cs| > 2 { TwoAlike(cs, a, b); }
  }

  lemma TwoAlike(cs: seq<LocalChange>, a: Path, b: Path)
    requires |cs| > 2 && forall k :: 0 <= k < |cs| ==> cs[k].relPath == a || cs[k].relPath == b
    ensures cs[0].relPath == cs[1].relPath || cs[0].relPath == cs[2].relPath || cs[1].relPath == cs[2].relPath
  {
  }

  lemma NotAllFree(st: Start, cs: seq<LocalChange>, k: nat)
    requires k < |cs| && !P.WayIsFree(st, cs, k)
    ensures !P.AllWaysFree(st, cs)
  {
  }

  lemma CrossingIsBlocked(hash: Bytes -> string, c: LocalChange)
    requires c.op == MoveOp && c.relPath == ["b", "y"] && c.oldRelPath == ["x"]
    ensures !P.WayIsFree(Crossing(hash), [c], 0)
  {
    assert Above(["b", "y"]) == ["b"] && Above(["x"]) == [];
    assert ["b"] + [Base(["x"])] == ["b", "x"];
  }

  lemma CrossingIsStart(hash: Bytes -> string)
    ensures StartOk(hash, Crossing(hash)) && P.UpToDate(Crossing(hash))
  {
    CrossingServer(hash);
    CrossingLocal(hash);
    CrossingFits(hash);
    hide ServerOk, Closed, NoneIgnored, Fits;
  }

  lemma CrossingServer(hash: Bytes -> string)
    ensures ServerOk(Crossing(hash).server)
  {
    CrossingTree(hash);
    hide Closed, NoneIgnored;
  }

  lemma CrossingTree(hash: Bytes -> string)
    ensures Closed(Crossing(hash).server.tree) && NoneIgnored(Crossing(hash).server.tree)
  {
    CrossingPaths();
  }

  lemma CrossingLocal(hash: Bytes -> string)
    ensures Closed(Crossing(hash).local) && NoneIgnored(Crossing(hash).local)
  {
    CrossingPaths();
  }

  lemma CrossingFits(hash: Bytes -> string)
    ensures var st := Crossing(hash); Fits(hash, st.rows, st.server, {}, {})
  {
  }

  lemma CrossingPaths()
    ensures Parent(["b"]) == [] && Parent(["x"]) == [] && Parent(["b", "x"]) == ["b"] && Parent(["b", "y"]) == ["b"]
    ensures !Ignored([]) && !Ignored(["b"]) && !Ignored(["x"]) && !Ignored(["b", "x"]) && !Ignored(["b", "y"])
  {
    assert Base(["b"])[0] == 'b' && Base(["x"])[0] == 'x' && Base(["b", "x"])[0] == 'x' && Base(["b", "y"])[0] == 'y';
  }

  // ---------- files mixed up ----------

  const TANGLE_TREE: Tree :=
    map[[] := Folder, ["b"] := Folder, ["n1"] := Regular([1]), ["n2"] := Regular([2]), ["n3"] := Regular([3])]
  const TANGLE_META := map[["b"] := Meta("0", 0), ["n1"] := Meta("1", 0), ["n2"] := Meta("2", 0),
                           ["n3"] := Meta("3", 0)]
  const TANGLE_LOCAL: Tree :=
    map[[] := Folder, ["b"] := Folder, ["b", "m"] := Regular([1]), ["b", "n1"] := Regular([2]),
        ["b", "n2"] := Regular([3])]

  function TangleRows(hash: Bytes -> string): Index {
    map["0" := Row(["b"], true, 0, "", 0), "1" := Row(["n1"], false, 0, hash([1]), 1),
        "2" := Row(["n2"], false, 0, hash([2]), 1), "3" := Row(["n3"], false, 0, hash([3]), 1)]
  }

  /** `n1`, `n2` and `n3` have been moved into `b`, as `m`, `n1` and `n2`. */
  ghost function Tangle(hash: Bytes -> string): Start {
    Start(Server(TANGLE_TREE, TANGLE_META), TANGLE_LOCAL, TangleRows(hash), {})
  }

  function New(hash: Bytes -> string, p: Path, data: Bytes): LocalChange {
    LocalChange(CreateOp, p, [], false, hash(data), |data|)
  }

  function Gone(hash: Bytes -> string, p: Path, data: Bytes): LocalChange {
    LocalChange(DeleteOp, p, [], false, hash(data), |data|)
  }

  function Brought(hash: Bytes -> string, o: Path, p: Path, data: Bytes): LocalChange {
    LocalChange(MoveOp, p, o, false, hash(data), |data|)
  }

  /** What a scan in the order of the names reports. */
  function TangleReport(hash: Bytes -> string): seq<LocalChange> {
    [New(hash, ["b", "m"], [1]), New(hash, ["b", "n1"], [2]), New(hash, ["b", "n2"], [3]),
     Gone(hash, ["n1"], [1]), Gone(hash, ["n2"], [2]), Gone(hash, ["n3"], [3])]
  }

  function TanglePlan(hash: Bytes -> string): seq<LocalChange> {
    [Brought(hash, ["n1"], ["b", "m"], [1]), Brought(hash, ["n2"], ["b", "n1"], [2]),
     Brought(hash, ["n3"], ["b", "n2"], [3])]
  }

  /** A client in step, nobody else writing anything, every way free, and a plan that a scan in
      the order of the names leads to. */
  lemma FilesCanBeMixedUp(hash: Bytes -> string)
    requires SoundHash(hash)
    ensures FromUpdates(hash, Tangle(hash).server, [], Tangle(hash)) && P.UpToDate(Tangle(hash))
    ensures P.Plans(hash, Tangle(hash).local, Tangle(hash).rows, true, TanglePlan(hash))
    ensures P.AllWaysFree(Tangle(hash), TanglePlan(hash))
    ensures !Straight(Tangle(hash).local, TanglePlan(hash))
  {
    hide *;
    TangleIsStart(hash);
    TangleIsPlanned(hash);
    TangleIsFree(hash);
    TangleIsMixed(hash);
    NotStraight(Tangle(hash).local, TanglePlan(hash), 1);
  }

  /** So a pass from there with this plan goes through, and yet `b/n1` ends up with the bytes of
      `b/n2`, while the index says otherwise and the server has what the user had. */
  lemma MixedUpAfterPass(hash: Bytes -> string, s: Server, pushed: Index, disk: Tree, index: Index)
    requires SoundHash(hash) && Finished(hash, Tangle(hash), s, pushed, map[])
    requires PassEnds(hash, Tangle(hash).server, [], Tangle(hash), TanglePlan(hash), map[], s, disk, index)
    ensures !InStep(hash, disk, index, s)
    ensures var n1: Path, n2: Path := ["b", "n1"], ["b", "n2"];
            && n1 in disk && n1 in s.meta && n1 in s.tree && s.meta[n1].id in index
            && disk[n1] == Regular([3]) && s.tree[n1] == Regular([2]) == Tangle(hash).local[n1]
            && index[s.meta[n1].id].hash == hash([2]) != hash(disk[n1].data)
  {
    var n1: Path := ["b", "n1"];
    TanglePaths();
    TangleHolds(n1);
    MixedUpFolder(hash);
    hide PulledTree, TANGLE_LOCAL, TanglePlan, EndsAt, Displaces, Passable, Straight, ServerOk, Closed, Replayed,
         SurvivesAt, Arrived;
    var end := PulledTree(Tangle(hash).server, [], Tangle(hash), map[], TanglePlan(hash));
    assert EndsAt(hash, Tangle(hash), s, pushed, map[], n1);
    hide Finished;
    LocalIsTree(hash, Tangle(hash), s, pushed, map[], n1);
    assert Mirrors(disk, end) && !Ignored(n1);
    MetaOfFile(s, n1);
    assert hash([2]) != hash([3]);
  }

  /** What the pull makes of the folder. */
  lemma MixedUpFolder(hash: Bytes -> string)
    ensures !Straight(Tangle(hash).local, TanglePlan(hash))
    ensures var end := PulledTree(Tangle(hash).server, [], Tangle(hash), map[], TanglePlan(hash));
            ["b", "n1"] in end && end[["b", "n1"]] == Regular([3])
  {
    hide *;
    var local, cs := TANGLE_LOCAL, TanglePlan(hash);
    TangleHolds(["b", "n1"]);
    TangleHolds(["b", "n2"]);
    TangleIsMixed(hash);
    TangleIsPassable(hash);
    StraightIff(local, cs);
    TanglePulled(hash);
    assert Tangle(hash).local == local by { TangleLocal(hash); }
    NotStraight(local, cs, 1);
  }

  lemma TangleLocal(hash: Bytes -> string)
    ensures Tangle(hash).local == TANGLE_LOCAL
  {
  }

  lemma TanglePulled(hash: Bytes -> string)
    ensures PulledTree(Tangle(hash).server, [], Tangle(hash), map[], TanglePlan(hash))
            == Replayed(TANGLE_LOCAL, TANGLE_LOCAL, map[], TanglePlan(hash), |TanglePlan(hash)|)
  {
    hide Replayed, TanglePlan;
  }

  lemma MetaOfFile(s: Server, p: Path)
    requires ServerOk(s) && p in s.tree && p != []
    ensures p in s.meta
  {
  }

  lemma NotStraight(local: Tree, cs: seq<LocalChange>, j: nat)
    requires j < |cs| && Displaces(local, cs, j)
    ensures !Straight(local, cs)
  {
  }

  lemma TanglePaths()
    ensures forall name {:trigger [name]} :: Parent([name]) == [] && Base([name]) == name
    ensures forall name {:trigger ["b", name]} :: Parent(["b", name]) == ["b"] && Base(["b", name]) == name
    ensures !Ignored([]) && !Skipped("b") && !Skipped("m") && !Skipped("n1") && !Skipped("n2") && !Skipped("n3")
  {
    assert "b"[0] == 'b' && "m"[0] == 'm' && "n1"[0] == 'n' && "n2"[0] == 'n' && "n3"[0] == 'n';
  }

  /** What the server has at a path. */
  lemma TangleServes(p: Path)
    ensures p in TANGLE_TREE <==> p == [] || p == ["b"] || p == ["n1"] || p == ["n2"] || p == ["n3"]
    ensures p in TANGLE_META <==> p in TANGLE_TREE && p != []
    ensures p == [] || p == ["b"] ==> TANGLE_TREE[p] == Folder
    ensures p in TANGLE_META && p != ["b"] ==>
              TANGLE_TREE[p] == Regular(if p == ["n1"] then [1] else if p == ["n2"] then [2] else [3])
    ensures p in TANGLE_META ==>
              TANGLE_META[p] == Meta(if p == ["b"] then "0" else if p == ["n1"] then "1" else if p == ["n2"] then "2"
                                     else "3", 0)
    ensures p in TANGLE_META ==> Parent(p) == [] && !Ignored(p)
  {
    TanglePaths();
  }

  lemma TangleServer(hash: Bytes -> string)
    ensures ServerOk(Tangle(hash).server)
  {
    hide TANGLE_TREE, TANGLE_META;
    forall p
      ensures p in TANGLE_META <==> p in TANGLE_TREE && p != []
      ensures p in TANGLE_META ==> Parent(p) == [] && !Ignored(p)
    {
      TangleServes(p);
    }
    TanglePaths();
    TangleServes([]);
    forall p, q | p in TANGLE_META && q in TANGLE_META && TANGLE_META[p].id == TANGLE_META[q].id
      ensures p == q
    {
      TangleServes(p);
      TangleServes(q);
    }
  }

  lemma TangleIndex(hash: Bytes -> string)
    requires ServerOk(Tangle(hash).server)
    ensures Indexes(hash, TangleRows(hash), Tangle(hash).server)
  {
    hide ServerOk, TANGLE_TREE, TANGLE_META;
    var s, rows := Tangle(hash).server, TangleRows(hash);
    forall p {:trigger s.meta[p]} | p in s.meta
      ensures p in s.tree && s.meta[p].id in rows && rows[s.meta[p].id] == RowAt(hash, p, s.tree[p], s.meta[p])
    {
      TangleServes(p);
    }
    forall id {:trigger rows[id]} | id in rows
      ensures rows[id].path in s.meta && s.meta[rows[id].path].id == id
    {
      assert id == "0" || id == "1" || id == "2" || id == "3";
      TangleServes(rows[id].path);
    }
  }

  lemma TangleFits(hash: Bytes -> string)
    requires ServerOk(Tangle(hash).server) && Indexes(hash, TangleRows(hash), Tangle(hash).server)
    ensures var st := Tangle(hash); Fits(hash, st.rows, st.server, {}, {})
  {
    hide TANGLE_TREE, TANGLE_META, TANGLE_LOCAL, TangleRows;
  }

  lemma TangleFolder(hash: Bytes -> string)
    ensures Closed(TANGLE_LOCAL) && NoneIgnored(TANGLE_LOCAL)
  {
    hide TANGLE_LOCAL;
    forall p
      ensures p in TANGLE_LOCAL && p != [] ==> Parent(p) == [] || Parent(p) == ["b"]
      ensures p in TANGLE_LOCAL ==> !Ignored(p)
    {
      TangleHolds(p);
    }
    TangleHolds([]);
    TangleHolds(["b"]);
  }

  lemma TangleKinds(hash: Bytes -> string)
    ensures var st := Tangle(hash);
            && st.stale == {} && HistoryOk(st.server, []) == ServerOk(st.server)
            && forall p {:trigger st.local[p]} :: p in st.server.tree && p in st.local ==>
                 (st.server.tree[p] == Folder <==> st.local[p] == Folder)
  {
  }

  lemma TangleIsStart(hash: Bytes -> string)
    ensures FromUpdates(hash, Tangle(hash).server, [], Tangle(hash)) && P.UpToDate(Tangle(hash))
  {
    TangleServer(hash);
    TangleFolder(hash);
    TangleIndex(hash);
    TangleFits(hash);
    TangleKinds(hash);
    hide ServerOk, Closed, NoneIgnored, Fits, TANGLE_TREE, TANGLE_META, TANGLE_LOCAL, TangleRows, Indexes;
    TangleIsUpToDate(hash);
  }

  lemma TangleIsUpToDate(hash: Bytes -> string)
    requires ServerOk(Tangle(hash).server) && Indexes(hash, Tangle(hash).rows, Tangle(hash).server)
    ensures P.UpToDate(Tangle(hash))
  {
    hide ServerOk, Tangle;
    forall p
      ensures !Outdated(Tangle(hash), p)
    {
      if p in Tangle(hash).server.meta { var _ := Tangle(hash).server.meta[p]; }
    }
  }

  lemma TangleKnown(hash: Bytes -> string, known: map<Path, Row>, p: Path)
    requires KeyedByPath(Tangle(hash).rows, known)
    ensures p in known <==> p == ["b"] || p == ["n1"] || p == ["n2"] || p == ["n3"]
    ensures p in known && p != ["b"] ==>
              known[p] == Row(p, false, 0, hash(if p == ["n1"] then [1] else if p == ["n2"] then [2] else [3]), 1)
  {
    var rows := TangleRows(hash);
    RowsOfTangle(hash);
    hide TangleRows;
    assert rows["0"].path in known && rows["1"].path in known && rows["2"].path in known && rows["3"].path in known;
    if p in known {
      var id :| id in rows && rows[id].path == p;
      assert id == "0" || id == "1" || id == "2" || id == "3";
    }
  }

  lemma RowsOfTangle(hash: Bytes -> string)
    ensures var rows := TangleRows(hash);
            && (forall id {:trigger id in rows} :: id in rows <==> id == "0" || id == "1" || id == "2" || id == "3")
            && rows["0"] == Row(["b"], true, 0, "", 0) && rows["1"] == Row(["n1"], false, 0, hash([1]), 1)
            && rows["2"] == Row(["n2"], false, 0, hash([2]), 1) && rows["3"] == Row(["n3"], false, 0, hash([3]), 1)
  {
  }

  /** The paths of the folder, and what they hold. */
  lemma TangleHolds(p: Path)
    ensures var t := TANGLE_LOCAL;
            && (p in t <==> p == [] || p == ["b"] || p == ["b", "m"] || p == ["b", "n1"] || p == ["b", "n2"])
            && (p in t && p != [] && p != ["b"] ==>
                  t[p] == Regular(if p == ["b", "m"] then [1] else if p == ["b", "n1"] then [2] else [3]))
            && (p == [] || p == ["b"] ==> t[p] == Folder) && (p in t ==> !Ignored(p))
            && (p in t && p != [] ==> Parent(p) == (if p == ["b"] then [] else ["b"]))
  {
    TanglePaths();
  }

  lemma TangleDiffs(hash: Bytes -> string, known: map<Path, Row>, p: Path)
    requires KeyedByPath(Tangle(hash).rows, known)
    ensures DiffAt(hash, Tangle(hash).local, known, p) ==
              if p == ["b", "m"] then Some(New(hash, p, [1]))
              else if p == ["b", "n1"] then Some(New(hash, p, [2]))
              else if p == ["b", "n2"] then Some(New(hash, p, [3]))
              else if p == ["n1"] then Some(Gone(hash, p, [1]))
              else if p == ["n2"] then Some(Gone(hash, p, [2]))
              else if p == ["n3"] then Some(Gone(hash, p, [3]))
              else None
  {
    hide KeyedByPath, TANGLE_LOCAL, TangleRows;
    TangleHolds(p);
    TangleKnown(hash, known, p);
  }

  lemma TangleIsReported(hash: Bytes -> string, known: map<Path, Row>)
    requires KeyedByPath(Tangle(hash).rows, known)
    ensures Reports(TangleReport(hash), hash, Tangle(hash).local, known)
  {
    hide DiffAt, Tangle, KeyedByPath;
    var report := TangleReport(hash);
    forall i | 0 <= i < |report|
      ensures DiffAt(hash, Tangle(hash).local, known, report[i].relPath) == Some(report[i])
    {
      TangleDiffs(hash, known, report[i].relPath);
    }
    forall p | DiffAt(hash, Tangle(hash).local, known, p).Some?
      ensures exists i :: 0 <= i < |report| && report[i].relPath == p
    {
      TangleDiffs(hash, known, p);
      assert report[0].relPath == p || report[1].relPath == p || report[2].relPath == p
             || report[3].relPath == p || report[4].relPath == p || report[5].relPath == p;
    }
  }

  lemma TangleIsPaired(hash: Bytes -> string)
    requires SoundHash(hash)
    ensures Paired(TangleReport(hash)) == TanglePlan(hash) && Ordered(TanglePlan(hash))
  {
    var cs := TangleReport(hash);
    assert hash([1]) != hash([2]) && hash([2]) != hash([3]) && hash([1]) != hash([3]);
    assert hash([1]) != "" && hash([2]) != "" && hash([3]) != "";
    hide SoundHash;
    assert OnlyPair(cs, 0, 3) && OnlyPair(cs, 1, 4) && OnlyPair(cs, 2, 5);
    ThreeMovesPaired(cs);
    var a, b, c := PairedAt(cs, 0), PairedAt(cs, 1), PairedAt(cs, 2);
    assert [a, b, c] == TanglePlan(hash);
  }

  /** The index by path. */
  function TangleByPath(hash: Bytes -> string): map<Path, Row> {
    var rows := TangleRows(hash);
    map[["b"] := rows["0"], ["n1"] := rows["1"], ["n2"] := rows["2"], ["n3"] := rows["3"]]
  }

  lemma TangleIsKeyed(hash: Bytes -> string)
    ensures KeyedByPath(TangleRows(hash), TangleByPath(hash))
  {
    var rows, known := TangleRows(hash), TangleByPath(hash);
    RowsOfTangle(hash);
    hide TangleRows;
    forall id | id in rows
      ensures rows[id].path in known && known[rows[id].path] == rows[id]
    {
      assert id == "0" || id == "1" || id == "2" || id == "3";
    }
    forall p | p in known
      ensures exists id :: id in rows && rows[id].path == p
    {
      assert rows["0"].path == p || rows["1"].path == p || rows["2"].path == p || rows["3"].path == p;
    }
  }

  lemma TangleIsPlanned(hash: Bytes -> string)
    requires SoundHash(hash)
    ensures P.Plans(hash, Tangle(hash).local, Tangle(hash).rows, true, TanglePlan(hash))
  {
    TangleIsKeyed(hash);
    TangleIsPaired(hash);
    TangleIsReported(hash, TangleByPath(hash));
    hide KeyedByPath, Reports, Ordered, Paired, SoundHash, TangleRows, TangleByPath, TanglePlan, TangleReport,
         TANGLE_LOCAL;
    P.SortedIs(TangleReport(hash), true, TanglePlan(hash), TanglePlan(hash));
  }

  lemma TangleIsFree(hash: Bytes -> string)
    ensures P.AllWaysFree(Tangle(hash), TanglePlan(hash))
  {
    TanglePaths();
    var st, cs := Tangle(hash), TanglePlan(hash);
    forall k | 0 <= k < |cs|
      ensures P.WayIsFree(st, cs, k)
    {
      TangleWay(hash, k);
      P.TouchedIs(cs, k, P.Halfway(cs[k]).value);
    }
  }

  lemma TangleWay(hash: Bytes -> string, k: nat)
    requires k < 3
    ensures P.Halfway(TanglePlan(hash)[k]) == Some(["b", if k == 0 then "n1" else if k == 1 then "n2" else "n3"])
  {
    var c := TanglePlan(hash)[k];
    assert Above(c.relPath) == ["b"] && Above(c.oldRelPath) == [];
    assert ["b"] + [Base(c.oldRelPath)] == ["b", Base(c.oldRelPath)];
  }

  lemma TangleDetour(hash: Bytes -> string, k: nat)
    requires k < 3
    ensures Detour(TanglePlan(hash)[k]) == Some(["b", if k == 0 then "n1" else if k == 1 then "n2" else "n3"])
  {
    var c := TanglePlan(hash)[k];
    assert Parent(c.relPath) == ["b"] && Parent(c.oldRelPath) == [];
    assert ["b"] + [Base(c.oldRelPath)] == ["b", Base(c.oldRelPath)];
  }

  /** The first move empties `b/n1`; the second finds it empty and `b/n2` on its way. */
  lemma TangleIsMixed(hash: Bytes -> string)
    ensures |TanglePlan(hash)| == 3 && Displaces(Tangle(hash).local, TanglePlan(hash), 1)
    ensures Detour(TanglePlan(hash)[1]) == Some(["b", "n2"]) && TanglePlan(hash)[1].relPath == ["b", "n1"]
  {
    var cs := TanglePlan(hash);
    TangleHolds(["b", "n1"]);
    TangleHolds(["b", "n2"]);
    TangleDetour(hash, 0);
    TangleDetour(hash, 1);
    hide Detour, TANGLE_LOCAL;
    assert HasPassed(cs, 1, ["b", "n1"]);
    assert !HasPassed(cs, 1, ["b", "n2"]);
  }

  lemma TangleIsPassable(hash: Bytes -> string)
    ensures Passable(TANGLE_LOCAL, TanglePlan(hash))
  {
    var cs := TanglePlan(hash);
    TangleHolds(["b", "m"]);
    TangleHolds(["b", "n1"]);
    TangleHolds(["b", "n2"]);
    TangleHolds(["b", "n3"]);
    forall j | 0 <= j < |cs|
      ensures ComesLater(TANGLE_LOCAL, cs, j, Detour(cs[j]).value) && Detour(cs[j]).Some?
    {
      TangleDetour(hash, j);
      assert j == 0 ==> cs[1].relPath == ["b", "n1"];
      assert j == 1 ==> cs[2].relPath == ["b", "n2"];
    }
    hide Detour, TANGLE_LOCAL;
  }

  // ---------- the same bytes written again ----------

  const SERVED := Server(map[[] := Folder, ["x"] := Regular([1])], map[["x"] := Meta("1", 0)])

  /** Somebody else has written the same bytes again: a new version, the same content. */
  const REWRITE := [Update(["x"], [1], 1)]

  /** Meanwhile the file has been edited locally. */
  ghost function Edited(hash: Bytes -> string): Start {
    Start(Server(SERVED.tree, map[["x"] := Meta("1", 1)]), map[[] := Folder, ["x"] := Regular([2])],
          map["1" := Row(["x"], false, 0, hash([1]), 1)], {["x"]})
  }

  /** Every push from here that gets through ends in a conflict, and after the pull the folder
      still has the local edit where the server has the other side's bytes. */
  lemma ConflictCanStay(hash: Bytes -> string)
    requires SoundHash(hash)
    ensures FromUpdates(hash, SERVED, REWRITE, Edited(hash))
    ensures !Rewritten(SERVED.tree, REWRITE, ["x"]) && !Arrived(SERVED, REWRITE, Edited(hash), Edited(hash).server)
    ensures forall s, index, conflicts :: Finished(hash, Edited(hash), s, index, conflicts) ==> ["x"] in conflicts
  {
    EditedIsFromUpdates(hash);
    hide FromUpdates, StartOk, Fits, ServerOk;
    assert ["x"] in Edited(hash).stale;
    assert Edited(hash).local[["x"]] != Edited(hash).server.tree[["x"]];
    forall s, index, conflicts | Finished(hash, Edited(hash), s, index, conflicts)
      ensures ["x"] in conflicts
    {
      assert EndsAt(hash, Edited(hash), s, index, conflicts, ["x"]);
    }
  }

  lemma EditedIsFromUpdates(hash: Bytes -> string)
    ensures FromUpdates(hash, SERVED, REWRITE, Edited(hash))
  {
    EditedTrees(hash);
    var op := REWRITE[0];
    assert REWRITE[1..] == [];
    assert After(SERVED, op) == Edited(hash).server;
    assert WrittenPaths(REWRITE) == {["x"]} by { assert REWRITE[0].path == ["x"]; }
    hide Closed, NoneIgnored;
  }

  lemma EditedTrees(hash: Bytes -> string)
    ensures Closed(SERVED.tree) && NoneIgnored(SERVED.tree) && Closed(Edited(hash).local)
    ensures NoneIgnored(Edited(hash).local)
  {
    assert Parent(["x"]) == [] && Base(["x"])[0] == 'x';
  }

  // ---------- a file deleted here and rewritten there ----------

  /** The index after the last pull, which had `x`. */
  function KnownX(hash: Bytes -> string): Index {
    map["1" := Row(["x"], false, 0, hash([1]), 1)]
  }

  /** If `x` has been deleted since, a push plans to delete it, whatever others have done to it. */
  lemma ForeignUpdateIsDeleted(hash: Bytes -> string, disk: Tree, plan: seq<LocalChange>)
    requires SoundHash(hash) && Visible(disk) == map[[] := Folder] && P.Plans(hash, disk, KnownX(hash), true, plan)
    ensures plan == [Gone(hash, ["x"], [1])]
  {
    hide Visible, Reports, KeyedByPath, P.Sorts, SoundHash, KnownX, Paired;
    var c := Gone(hash, ["x"], [1]);
    var report, known :| KeyedByPath(KnownX(hash), known) && Reports(report, hash, disk, known)
        && P.Sorts(report, true, plan);
    ReportIsGone(hash, disk, known, report);
    GoneIsPaired(c);
    OneIsSorted(report, c, plan);
  }

  lemma ReportIsGone(hash: Bytes -> string, disk: Tree, known: map<Path, Row>, report: seq<LocalChange>)
    requires Visible(disk) == map[[] := Folder] && KeyedByPath(KnownX(hash), known)
    requires Reports(report, hash, disk, known)
    ensures report == [Gone(hash, ["x"], [1])]
  {
    OnlyXDiffers(hash, disk, known, ["x"]);
    assert DiffAt(hash, disk, known, ["x"]).Some?;
    forall k | 0 <= k < |report|
      ensures report[k] == Gone(hash, ["x"], [1])
    {
      OnlyXDiffers(hash, disk, known, report[k].relPath);
    }
    hide DiffAt, KeyedByPath, Visible;
    assert |report| > 1 ==> report[0].relPath == report[1].relPath;
  }

  lemma OnlyXDiffers(hash: Bytes -> string, disk: Tree, known: map<Path, Row>, p: Path)
    requires Visible(disk) == map[[] := Folder] && KeyedByPath(KnownX(hash), known)
    ensures DiffAt(hash, disk, known, p) == if p == ["x"] then Some(Gone(hash, p, [1])) else None
  {
    var rows := KnownX(hash);
    assert rows["1"].path in known;
    if p in known {
      var id :| id in rows && rows[id].path == p;
      assert id == "1";
    }
    hide Visible, KeyedByPath;
    assert p in Visible(disk) <==> p == [];
  }

  lemma GoneIsPaired(c: LocalChange)
    requires c.op == DeleteOp && !c.isDir
    ensures Paired([c]) == [c]
  {
    assert !Consumed([c], 0);
    assert PairedUpTo([c], 0) == [] && PairedUpTo([c], 1) == [PairedAt([c], 0)];
  }

  /** The request carries no version, so the server carries it out and the other side's bytes are
      gone, whatever file it is. Even if the client is in step after that, the feed has an entry
      for these bytes that nothing can satisfy: the client, whose index has no row for the file
      any more, stands before it, and (Engine.PullOnce) no pull gets past it. */
  lemma ForeignUpdateIsLost(hash: Bytes -> string, s: Server, p: Path, data: Bytes, version: int, op: Op, src: E.Source,
                            disk: Tree, index: Index, cursor: int)
    requires SoundHash(hash) && op.Delete? && op.path == p && HistoryOk(s, [Update(p, data, version), op])
    requires Numbers(src.feed, Entries(hash, s, [Update(p, data, version), op])) && AppliedUpTo(src.feed, 0, cursor)
    requires E.HandsOut(src, Final(s, [Update(p, data, version), op]))
    requires InStep(hash, disk, index, Final(s, [Update(p, data, version), op]))
    ensures p in s.meta
    ensures var end := Final(s, [Update(p, data, version), op]);
            var hist := [Create(p, Regular(data), s.meta[p].id, version), op];
            && p !in end.tree && (forall d :: !E.Holds(end, s.meta[p].id, d))
            && HistoryOk(end, hist)
            && E.StuckAt(hash, disk, index, cursor, src, Replay.Exact(Replay.PlanOf(hash, end, hist, index)), 0)
  {
    var end := Final(s, [Update(p, data, version), op]);
    SameStory(hash, s, p, data, version, op);
    var made := Create(p, Regular(data), s.meta[p].id, version);
    E.DeletedEnd(end, made, op);
    hide Entries, Numbers, AppliedUpTo, Mirrors, SoundHash, E.HandsOut, Final, OpOk, HistoryOk, ServerOk, Indexes,
         E.Holds, E.Current;
    E.DeletedIsStuck(hash, src, end, index, made, op);
    StandsAtStart(hash, disk, index, cursor, src.feed, end, [made, op]);
  }

  lemma StandsAtStart(hash: Bytes -> string, disk: Tree, index: Index, cursor: int, feed: seq<Change>, s: Server,
                      hist: seq<Op>)
    requires SoundHash(hash) && InStep(hash, disk, index, s) && HistoryOk(s, hist)
    requires Numbers(feed, Entries(hash, s, hist)) && AppliedUpTo(feed, 0, cursor)
    ensures E.OnTheWay(hash, disk, index, cursor, feed, Replay.Exact(Replay.PlanOf(hash, s, hist, index)), 0)
    ensures E.ReachedAt(disk, index, Replay.Exact(Replay.PlanOf(hash, s, hist, index)), 0)
  {
    Replay.HistoryLeads(hash, feed, s, hist, index);
  }

  /** The feed is the same as if the file had been created with these bytes. */
  lemma SameStory(hash: Bytes -> string, s: Server, p: Path, data: Bytes, version: int, op: Op)
    requires op.Delete? && op.path == p && HistoryOk(s, [Update(p, data, version), op])
    ensures p in s.meta
    ensures var one, made := Update(p, data, version), Create(p, Regular(data), s.meta[p].id, version);
            var end := Final(s, [one, op]);
            && p !in end.tree && ServerOk(end) && OpOk(end, made) && HistoryOk(end, [made, op])
            && Final(end, [made, op]) == end && Entries(hash, end, [made, op]) == Entries(hash, s, [one, op])
  {
    var one := Update(p, data, version);
    var s1 := After(s, one);
    assert [one, op][1..] == [op] && [op][1..] == [];
    assert HistoryOk(s1, [op]) && Final(s, [one, op]) == Final(s1, [op]) == After(s1, op);
    MadeAgain(hash, s, s1, one, op);
    hide ServerOk, OpOk, After, BlockOf;
    var made := Create(p, Regular(data), s.meta[p].id, version);
    assert [made, op][1..] == [op];
  }

  lemma MadeAgain(hash: Bytes -> string, s: Server, s1: Server, one: Op, op: Op)
    requires ServerOk(s) && one.Update? && OpOk(s, one) && s1 == After(s, one) && ServerOk(s1)
    requires op.Delete? && op.path == one.path && OpOk(s1, op)
    ensures one.path in s.meta
    ensures var made := Create(one.path, Regular(one.data), s.meta[one.path].id, one.version);
            var end := After(s1, op);
            && one.path !in end.tree && ServerOk(end) && OpOk(end, made) && After(end, made) == s1
            && BlockOf(hash, end, made) == BlockOf(hash, s, one)
  {
    var p, end := one.path, After(s1, op);
    AfterIsOk(s1, op);
    OnlyFileGone(s1, p);
    RejoinParent(p);
    var made := Create(p, Regular(one.data), s.meta[p].id, one.version);
    assert OpOk(end, made);
    assert After(end, made).tree == s1.tree;
    assert After(end, made).meta == s1.meta;
  }

  lemma OnlyFileGone(s: Server, p: Path)
    requires ServerOk(s) && p in s.tree && p != [] && s.tree[p] != Folder
    ensures RemoveAll(s.tree, p) == s.tree - {p}
    ensures (forall q {:trigger Within(p, q)} :: q in s.meta && Within(p, q) ==> q == p)
    ensures Parent(p) in s.tree && s.tree[Parent(p)] == Folder && Parent(p) != p && !Within(p, Parent(p))
  {
    RemoveFileIs(s.tree, p);
    forall q | q in s.meta && Within(p, q)
      ensures q == p
    {
      if q != p { NothingBelowFile(s.tree, p, q); }
    }
  }
}
