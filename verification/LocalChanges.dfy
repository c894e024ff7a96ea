/** detect.go and pairLocalMoves: what counts as a local change, and turning a delete and a
    create of the same content into a move. */
module LocalChanges {
  import opened FileSystem
  import opened SyncTypes

  datatype ChangeOp = CreateOp | UpdateOp | DeleteOp | MoveOp

  datatype LocalChange = LocalChange(op: ChangeOp, relPath: Path, oldRelPath: Path, isDir: bool, hash: string,
                                     size: nat)

  /** The part of the folder that takes part in synchronisation. */
  function Visible(disk: Tree): Tree {
    map p | p in disk && (p == [] || !Skipped(Base(p))) :: disk[p]
  }

  /** The change the scan reports for one path, given the indexed rows by path. */
  function DiffAt(hash: Bytes -> string, disk: Tree, known: map<Path, Row>, p: Path): Option<LocalChange> {
    if p in Visible(disk) && p != [] then
      match disk[p]
      case Folder =>
        if p in known then None else Some(LocalChange(CreateOp, p, [], true, "", 0))
      case Regular(data) =>
        if p !in known then Some(LocalChange(CreateOp, p, [], false, hash(data), |data|))
        else if known[p].hash != hash(data) then Some(LocalChange(UpdateOp, p, [], false, hash(data), |data|))
        else None
    else if p in known then Some(LocalChange(DeleteOp, p, [], known[p].isDir, known[p].hash, known[p].size))
    else None
  }

  ghost predicate UniquePaths(index: Index) {
    forall a, b :: a in index && b in index && index[a].path == index[b].path ==> a == b
  }

  /** `known` is the index keyed by path. */
  ghost predicate KeyedByPath(index: Index, known: map<Path, Row>) {
    && (forall id {:trigger index[id]} :: id in index ==> index[id].path in known && known[index[id].path] == index[id])
    && (forall p {:trigger p in known} :: p in known ==> exists id :: id in index && index[id].path == p)
  }

  /** The scan's report: every differing path once, with the change for it. */
  ghost predicate Reports(changes: seq<LocalChange>, hash: Bytes -> string, disk: Tree, known: map<Path, Row>) {
    && (forall i :: 0 <= i < |changes| ==> DiffAt(hash, disk, known, changes[i].relPath) == Some(changes[i]))
    && (forall i, j :: 0 <= i < j < |changes| ==> changes[i].relPath != changes[j].relPath)
    && (forall p {:trigger DiffAt(hash, disk, known, p)} :: DiffAt(hash, disk, known, p).Some? ==>
          exists i :: 0 <= i < |changes| && changes[i].relPath == p)
  }

  /** Folder and index agree: the same paths, and for every file the same hash. */
  ghost predicate Agree(hash: Bytes -> string, disk: Tree, known: map<Path, Row>) {
    && (forall p {:trigger p in known} :: p in known <==> p in Visible(disk) && p != [])
    && (forall p {:trigger known[p]} :: p in known && disk[p].Regular? ==> known[p].hash == hash(disk[p].data))
  }

  /** An empty report means exactly that folder and index agree. */
  lemma EmptyReportMeansAgreement(hash: Bytes -> string, disk: Tree, known: map<Path, Row>, changes: seq<LocalChange>)
    requires Reports(changes, hash, disk, known)
    ensures changes == [] <==> Agree(hash, disk, known)
  {
    if changes == [] {
      forall p
        ensures p in known <==> p in Visible(disk) && p != []
        ensures p in known && disk[p].Regular? ==> known[p].hash == hash(disk[p].data)
      {
        assert DiffAt(hash, disk, known, p) == None;
      }
    } else {
      assert DiffAt(hash, disk, known, changes[0].relPath).Some?;
    }
  }

  ghost predicate KindsAgree(disk: Tree, known: map<Path, Row>) {
    forall p {:trigger known[p]} :: p in known && p in disk ==> (known[p].isDir <==> disk[p] == Folder)
  }

  /** The index has no hash for a folder. */
  ghost predicate FoldersHaveNoHash(known: map<Path, Row>) {
    forall p {:trigger known[p]} :: p in known && known[p].isDir ==> known[p].hash == ""
  }

  /** The scan compares kinds in one direction only: after an empty report folder and index agree
      in paths, kinds and hashes if and only if no path of a file row is a folder on disk. */
  lemma EmptyReportMeansKindsIff(hash: Bytes -> string, disk: Tree, known: map<Path, Row>)
    requires SoundHash(hash) && Closed(disk) && FoldersHaveNoHash(known)
    requires Reports([], hash, disk, known)
    ensures Agree(hash, disk, known) && KindsAgree(disk, known) <==>
              forall p {:trigger known[p]} :: p in known && !known[p].isDir ==> p !in disk || disk[p] != Folder
  {
    EmptyReportMeansAgreement(hash, disk, known, []);
    forall p | p in known && p in disk && known[p].isDir
      ensures disk[p] == Folder
    {
      assert p in Visible(disk);
    }
  }

  /** A known file that has become a folder of the same name is the input that shows it. */
  lemma KindSwapIsNotReported(hash: Bytes -> string, name: string, row: Row)
    requires !Skipped(name) && !row.isDir
    ensures var disk, known := map[[] := Folder, [name] := Folder], map[[name] := row];
            Closed(disk) && Reports([], hash, disk, known) && !KindsAgree(disk, known)
  {
    var disk: Tree, known := map[[] := Folder, [name] := Folder], map[[name] := row];
    var p: Path := [name];
    assert Parent(p) == [] && Base(p) == name;
    forall q
      ensures DiffAt(hash, disk, known, q) == None
    {
      assert q in disk ==> q == [] || q == p;
    }
    assert known[p] == row && p in disk;
  }

  // ---------- pairing ----------

  predicate IsDelete(c: LocalChange, h: string) {
    c.op == DeleteOp && !c.isDir && c.hash == h && h != ""
  }

  predicate IsCreate(c: LocalChange, h: string) {
    c.op == CreateOp && !c.isDir && c.hash == h && h != ""
  }

  /** Positions below `k` of the file deletes with hash `h`, in order. */
  ghost function Deletes(cs: seq<LocalChange>, h: string, k: nat): seq<nat>
    requires k <= |cs|
  {
    if k == 0 then []
    else if IsDelete(cs[k - 1], h) then Deletes(cs, h, k - 1) + [k - 1]
    else Deletes(cs, h, k - 1)
  }

  ghost function Creates(cs: seq<LocalChange>, h: string, k: nat): nat
    requires k <= |cs|
  {
    if k == 0 then 0 else Creates(cs, h, k - 1) + (if IsCreate(cs[k - 1], h) then 1 else 0)
  }

  /** First come, first served: the r-th create of a content takes the r-th delete of it. */
  ghost function SourceOf(cs: seq<LocalChange>, i: nat): (r: Option<nat>)
    requires i < |cs|
    ensures r.Some? ==> r.value < |cs| && IsDelete(cs[r.value], cs[i].hash) && IsCreate(cs[i], cs[i].hash)
  {
    var h := cs[i].hash;
    DeletesArePositions(cs, h, |cs|);
    if IsCreate(cs[i], h) && Creates(cs, h, i) < |Deletes(cs, h, |cs|)|
    then Some(Deletes(cs, h, |cs|)[Creates(cs, h, i)])
    else None
  }

  ghost predicate ConsumedBefore(cs: seq<LocalChange>, j: nat, k: nat)
    requires k <= |cs|
  {
    exists i: nat :: i < k && SourceOf(cs, i) == Some(j)
  }

  ghost predicate Consumed(cs: seq<LocalChange>, j: nat) {
    ConsumedBefore(cs, j, |cs|)
  }

  lemma {:induction false} DeletesArePositions(cs: seq<LocalChange>, h: string, k: nat)
    requires k <= |cs|
    ensures forall r :: 0 <= r < |Deletes(cs, h, k)| ==>
              Deletes(cs, h, k)[r] < k && IsDelete(cs[Deletes(cs, h, k)[r]], h)
    ensures forall r, q :: 0 <= r < q < |Deletes(cs, h, k)| ==> Deletes(cs, h, k)[r] < Deletes(cs, h, k)[q]
    decreases k
  {
    if k > 0 { DeletesArePositions(cs, h, k - 1); }
  }

  lemma {:induction false} CreatesGrow(cs: seq<LocalChange>, h: string, i: nat, k: nat)
    requires i <= k <= |cs|
    ensures Creates(cs, h, i) <= Creates(cs, h, k)
    decreases k
  {
    if i < k { CreatesGrow(cs, h, i, k - 1); }
  }

  /** A delete is used at most once. */
  lemma SourcesDiffer(cs: seq<LocalChange>, i: nat, k: nat)
    requires i < k < |cs| && SourceOf(cs, i).Some? && SourceOf(cs, k).Some?
    ensures SourceOf(cs, i) != SourceOf(cs, k)
  {
    if cs[i].hash == cs[k].hash {
      CreatesGrow(cs, cs[i].hash, i + 1, k);
      DeletesArePositions(cs, cs[i].hash, |cs|);
    }
  }

  ghost function PairedAt(cs: seq<LocalChange>, i: nat): LocalChange
    requires i < |cs|
  {
    match SourceOf(cs, i)
    case Some(j) => LocalChange(MoveOp, cs[i].relPath, cs[j].relPath, false, cs[i].hash, cs[i].size)
    case None => cs[i]
  }

  /** The rewritten list: consumed deletes dropped, matched creates turned into moves. */
  ghost function PairedUpTo(cs: seq<LocalChange>, k: nat): seq<LocalChange>
    requires k <= |cs|
  {
    if k == 0 then []
    else if Consumed(cs, k - 1) then PairedUpTo(cs, k - 1)
    else PairedUpTo(cs, k - 1) + [PairedAt(cs, k - 1)]
  }

  ghost function Paired(cs: seq<LocalChange>): seq<LocalChange> {
    PairedUpTo(cs, |cs|)
  }

  function Queue(m: map<string, seq<nat>>, h: string): seq<nat> {
    if h in m then m[h] else []
  }

  function Least(a: nat, b: nat): nat { if a < b then a else b }

  /** pairLocalMoves. */
  method PairLocalMoves(changes: seq<LocalChange>) returns (out: seq<LocalChange>)
    ensures out == Paired(changes)
  {
    hide SourceOf, Unclaimed, Creates, ConsumedBefore;
    var deletesByHash: map<string, seq<nat>> := map[];
    var i := 0;
    while i < |changes|
      invariant i <= |changes|
      invariant forall h :: Queue(deletesByHash, h) == Deletes(changes, h, i)
    {
      var c := changes[i];
      if c.op == DeleteOp && !c.isDir && c.hash != "" {
        deletesByHash := deletesByHash[c.hash := Queue(deletesByHash, c.hash) + [i]];
      }
      i := i + 1;
    }
    var movedFrom, consumed := MatchCreates(changes, deletesByHash);
    out := [];
    i := 0;
    while i < |changes|
      invariant i <= |changes|
      invariant out == PairedUpTo(changes, i)
    {
      if i !in consumed {
        if i in movedFrom {
          out := out + [LocalChange(MoveOp, changes[i].relPath, changes[movedFrom[i]].relPath, false,
                                    changes[i].hash, changes[i].size)];
        } else {
          out := out + [changes[i]];
        }
      }
      i := i + 1;
    }
  }

  /** The second loop of pairLocalMoves: every create takes the front of its hash's queue. */
  method MatchCreates(changes: seq<LocalChange>, queues: map<string, seq<nat>>)
      returns (movedFrom: map<nat, nat>, consumed: set<nat>)
    requires forall h :: Queue(queues, h) == Deletes(changes, h, |changes|)
    ensures MatchedBelow(movedFrom, changes, |changes|) && TakenBelow(consumed, changes, |changes|)
  {
    var deletesByHash := queues;
    movedFrom, consumed := map[], {};
    NoneServed(queues, changes);
    hide SourceOf, QueuesServed, MatchedBelow, TakenBelow;
    var i := 0;
    while i < |changes|
      invariant i <= |changes|
      invariant QueuesServed(deletesByHash, changes, i)
      invariant MatchedBelow(movedFrom, changes, i)
      invariant TakenBelow(consumed, changes, i)
    {
      var c := changes[i];
      SourceIsFront(changes, i, deletesByHash);
      NextServed(deletesByHash, changes, i);
      NextMatched(movedFrom, changes, i);
      NextTaken(consumed, changes, i);
      if c.op == CreateOp && !c.isDir && c.hash != "" {
        var q := Queue(deletesByHash, c.hash);
        if |q| > 0 {
          movedFrom := movedFrom[i := q[0]];
          consumed := consumed + {q[0]};
          deletesByHash := deletesByHash[c.hash := q[1..]];
        }
      }
      i := i + 1;
    }
  }

  ghost predicate QueuesServed(queues: map<string, seq<nat>>, cs: seq<LocalChange>, i: nat)
    requires i <= |cs|
  {
    forall h :: Queue(queues, h) == Unclaimed(cs, h, i)
  }

  ghost predicate MatchedBelow(movedFrom: map<nat, nat>, cs: seq<LocalChange>, i: nat)
    requires i <= |cs|
  {
    && (forall k: nat {:trigger k in movedFrom} :: k in movedFrom <==> k < i && SourceOf(cs, k).Some?)
    && (forall k {:trigger movedFrom[k]} :: k in movedFrom ==> movedFrom[k] == SourceOf(cs, k).value)
  }

  ghost predicate TakenBelow(consumed: set<nat>, cs: seq<LocalChange>, i: nat)
    requires i <= |cs|
  {
    forall j: nat {:trigger j in consumed} :: j in consumed <==> ConsumedBefore(cs, j, i)
  }

  lemma NextServed(queues: map<string, seq<nat>>, cs: seq<LocalChange>, i: nat)
    requires i < |cs| && QueuesServed(queues, cs, i)
    ensures var c := cs[i]; var q := Queue(queues, c.hash);
            if IsCreate(c, c.hash) && |q| > 0 then QueuesServed(queues[c.hash := q[1..]], cs, i + 1)
            else QueuesServed(queues, cs, i + 1)
  {
    var c := cs[i];
    var q := Queue(queues, c.hash);
    var next := if IsCreate(c, c.hash) && |q| > 0 then queues[c.hash := q[1..]] else queues;
    forall h
      ensures Queue(next, h) == Unclaimed(cs, h, i + 1)
    {
      UnclaimedAfter(cs, h, i);
      assert Queue(queues, h) == Unclaimed(cs, h, i);
    }
  }

  lemma {:induction false} NoneServed(queues: map<string, seq<nat>>, cs: seq<LocalChange>)
    requires forall h :: Queue(queues, h) == Deletes(cs, h, |cs|)
    ensures QueuesServed(queues, cs, 0) && MatchedBelow(map[], cs, 0) && TakenBelow({}, cs, 0)
  {
    forall h
      ensures Queue(queues, h) == Unclaimed(cs, h, 0)
    {
      assert Unclaimed(cs, h, 0) == Deletes(cs, h, |cs|);
    }
  }

  lemma NextMatched(movedFrom: map<nat, nat>, cs: seq<LocalChange>, i: nat)
    requires i < |cs| && MatchedBelow(movedFrom, cs, i)
    ensures match SourceOf(cs, i)
            case Some(j) => MatchedBelow(movedFrom[i := j], cs, i + 1)
            case None => MatchedBelow(movedFrom, cs, i + 1)
  {
  }

  lemma NextTaken(consumed: set<nat>, cs: seq<LocalChange>, i: nat)
    requires i < |cs| && TakenBelow(consumed, cs, i)
    ensures match SourceOf(cs, i)
            case Some(j) => TakenBelow(consumed + {j}, cs, i + 1)
            case None => TakenBelow(consumed, cs, i + 1)
  {
    OneMoreConsumed(cs, i);
  }

  /** The deletes of a content still unclaimed when the creates below `i` have been served. */
  ghost function Unclaimed(cs: seq<LocalChange>, h: string, i: nat): seq<nat>
    requires i <= |cs|
  {
    Deletes(cs, h, |cs|)[Least(|Deletes(cs, h, |cs|)|, Creates(cs, h, i))..]
  }

  ghost function NextUnclaimed(q: seq<nat>, c: LocalChange, h: string): seq<nat> {
    if IsCreate(c, h) && |q| > 0 then q[1..] else q
  }

  lemma UnclaimedAfter(cs: seq<LocalChange>, h: string, i: nat)
    requires i < |cs|
    ensures Unclaimed(cs, h, i + 1) == NextUnclaimed(Unclaimed(cs, h, i), cs[i], h)
  {
  }

  lemma SourceIsFront(cs: seq<LocalChange>, i: nat, queues: map<string, seq<nat>>)
    requires i < |cs| && QueuesServed(queues, cs, i)
    ensures var q := Queue(queues, cs[i].hash);
            SourceOf(cs, i) == if IsCreate(cs[i], cs[i].hash) && |q| > 0 then Some(q[0]) else None
  {
    assert Queue(queues, cs[i].hash) == Unclaimed(cs, cs[i].hash, i);
  }

  lemma OneMoreConsumed(cs: seq<LocalChange>, i: nat)
    requires i < |cs|
    ensures forall j: nat :: ConsumedBefore(cs, j, i + 1) <==> ConsumedBefore(cs, j, i) || SourceOf(cs, i) == Some(j)
  {
    forall j: nat
      ensures ConsumedBefore(cs, j, i + 1) <==> ConsumedBefore(cs, j, i) || SourceOf(cs, i) == Some(j)
    {
      if ConsumedBefore(cs, j, i) {
        var k: nat :| k < i && SourceOf(cs, k) == Some(j);
        assert k < i + 1;
      }
    }
  }

  // ---------- what the pairing achieves ----------

  ghost function Moves(cs: seq<LocalChange>, h: string): nat {
    if cs == [] then 0
    else Moves(cs[..|cs| - 1], h) + (if cs[|cs| - 1].op == MoveOp && cs[|cs| - 1].hash == h then 1 else 0)
  }

  /** The matching is a maximum one: for every content as many moves as possible. */
  lemma MatchingIsMaximum(cs: seq<LocalChange>, h: string)
    requires h != "" && forall c :: c in cs ==> c.op != MoveOp
    ensures Moves(Paired(cs), h) == Least(Creates(cs, h, |cs|), |Deletes(cs, h, |cs|)|)
  {
    MovesSoFar(cs, h, |cs|);
  }

  lemma {:induction false} MovesSoFar(cs: seq<LocalChange>, h: string, k: nat)
    requires h != "" && k <= |cs| && forall c :: c in cs ==> c.op != MoveOp
    ensures Moves(PairedUpTo(cs, k), h) == Least(Creates(cs, h, k), |Deletes(cs, h, |cs|)|)
    decreases k
  {
    hide *;
    if k > 0 {
      MovesSoFar(cs, h, k - 1);
      assert cs[k - 1] in cs;
      OneMoreMove(cs, h, k);
    } else {
      NoMoves(cs, h);
    }
  }

  lemma NoMoves(cs: seq<LocalChange>, h: string)
    ensures Moves(PairedUpTo(cs, 0), h) == 0 == Least(Creates(cs, h, 0), |Deletes(cs, h, |cs|)|)
  {
    hide Deletes;
  }

  lemma OneMoreMove(cs: seq<LocalChange>, h: string, k: nat)
    requires h != "" && 0 < k <= |cs| && cs[k - 1].op != MoveOp
    requires Moves(PairedUpTo(cs, k - 1), h) == Least(Creates(cs, h, k - 1), |Deletes(cs, h, |cs|)|)
    ensures Moves(PairedUpTo(cs, k), h) == Least(Creates(cs, h, k), |Deletes(cs, h, |cs|)|)
  {
    hide SourceOf, Consumed, PairedAt, Deletes;
    if Consumed(cs, k - 1) {
      ConsumedIsDelete(cs, k - 1);
    } else {
      MovesAfter(PairedUpTo(cs, k - 1), PairedAt(cs, k - 1), h);
      PairedIsMoveIff(cs, k - 1, h);
    }
  }

  lemma MovesAfter(p: seq<LocalChange>, c: LocalChange, h: string)
    ensures Moves(p + [c], h) == Moves(p, h) + (if c.op == MoveOp && c.hash == h then 1 else 0)
  {
    assert (p + [c])[..|p|] == p;
  }

  lemma ConsumedIsDelete(cs: seq<LocalChange>, j: nat)
    requires j < |cs| && Consumed(cs, j)
    ensures cs[j].op == DeleteOp
  {
    var i: nat :| i < |cs| && SourceOf(cs, i) == Some(j);
  }

  lemma PairedIsMoveIff(cs: seq<LocalChange>, i: nat, h: string)
    requires i < |cs| && cs[i].op != MoveOp && h != ""
    ensures PairedAt(cs, i).op == MoveOp && PairedAt(cs, i).hash == h <==>
              IsCreate(cs[i], h) && Creates(cs, h, i) < |Deletes(cs, h, |cs|)|
  {
  }

  function Touches(c: LocalChange): set<Path> {
    if c.op == MoveOp then {c.relPath, c.oldRelPath} else {c.relPath}
  }

  ghost predicate Apart(cs: seq<LocalChange>) {
    forall i, j :: 0 <= i < j < |cs| ==> Touches(cs[i]) !! Touches(cs[j])
  }

  lemma PairedApart(cs: seq<LocalChange>, i: nat, k: nat)
    requires i < k < |cs| && !Consumed(cs, i) && !Consumed(cs, k)
    requires forall c :: c in cs ==> c.op != MoveOp
    requires forall i, j :: 0 <= i < j < |cs| ==> cs[i].relPath != cs[j].relPath
    ensures Touches(PairedAt(cs, i)) !! Touches(PairedAt(cs, k))
  {
    assert cs[i] in cs && cs[k] in cs;
    if SourceOf(cs, i).Some? && SourceOf(cs, k).Some? { SourcesDiffer(cs, i, k); }
    assert SourceOf(cs, i) != Some(k) && SourceOf(cs, k) != Some(i);
    assert SourceOf(cs, i) != Some(i) && SourceOf(cs, k) != Some(k);
  }

  lemma {:induction false} PairedMembers(cs: seq<LocalChange>, k: nat)
    requires k <= |cs|
    ensures forall c {:trigger c in PairedUpTo(cs, k)} :: c in PairedUpTo(cs, k) ==>
              exists i: nat :: i < k && !Consumed(cs, i) && c == PairedAt(cs, i)
    ensures forall i: nat :: i < k && !Consumed(cs, i) ==> PairedAt(cs, i) in PairedUpTo(cs, k)
    decreases k
  {
    hide SourceOf, Consumed, PairedAt;
    if k > 0 {
      PairedMembers(cs, k - 1);
    }
  }

  lemma {:induction false} PairedIsApart(cs: seq<LocalChange>, k: nat)
    requires k <= |cs| && forall c :: c in cs ==> c.op != MoveOp
    requires forall i, j :: 0 <= i < j < |cs| ==> cs[i].relPath != cs[j].relPath
    ensures Apart(PairedUpTo(cs, k))
    decreases k
  {
    hide SourceOf, Consumed, PairedAt;
    if k > 0 {
      PairedIsApart(cs, k - 1);
      if !Consumed(cs, k - 1) {
        var p, last := PairedUpTo(cs, k - 1), PairedAt(cs, k - 1);
        forall c | c in p
          ensures Touches(c) !! Touches(last)
        {
          PairedMembers(cs, k - 1);
          var i: nat :| i < k - 1 && !Consumed(cs, i) && c == PairedAt(cs, i);
          PairedApart(cs, i, k - 1);
        }
        ApartGrows(p, last);
      }
    }
  }

  lemma ApartGrows(p: seq<LocalChange>, last: LocalChange)
    requires Apart(p) && forall c :: c in p ==> Touches(c) !! Touches(last)
    ensures Apart(p + [last])
  {
    var q := p + [last];
    forall a, b | 0 <= a < b < |q|
      ensures Touches(q[a]) !! Touches(q[b])
    {
      if b == |p| { assert q[a] in p; }
    }
  }

  // ---------- executing a list of changes on a map from paths to content hashes ----------

  ghost function Perform(m: map<Path, string>, c: LocalChange): map<Path, string> {
    match c.op
    case CreateOp => m[c.relPath := c.hash]
    case UpdateOp => m[c.relPath := c.hash]
    case DeleteOp => m - {c.relPath}
    case MoveOp => if c.oldRelPath in m then (m - {c.oldRelPath})[c.relPath := m[c.oldRelPath]] else m
  }

  ghost function PerformAll(m: map<Path, string>, cs: seq<LocalChange>): map<Path, string> {
    if cs == [] then m else Perform(PerformAll(m, cs[..|cs| - 1]), cs[|cs| - 1])
  }

  ghost function At(m: map<Path, string>, p: Path): Option<string> {
    if p in m then Some(m[p]) else None
  }

  lemma {:induction false} UntouchedPathStays(m: map<Path, string>, cs: seq<LocalChange>, p: Path)
    requires forall c :: c in cs ==> p !in Touches(c)
    ensures At(PerformAll(m, cs), p) == At(m, p)
    decreases |cs|
  {
    if cs != [] {
      var front := cs[..|cs| - 1];
      assert forall c :: c in front ==> c in cs;
      assert cs[|cs| - 1] in cs;
      UntouchedPathStays(m, front, p);
    }
  }

  /** In a list of changes that stay apart each path is decided by the one that touches it. */
  lemma {:induction false} OneDecides(m: map<Path, string>, cs: seq<LocalChange>, k: nat, p: Path)
    requires Apart(cs) && k < |cs| && p in Touches(cs[k])
    ensures At(PerformAll(m, cs), p) == At(Perform(m, cs[k]), p)
    decreases |cs|
  {
    var front, last := cs[..|cs| - 1], cs[|cs| - 1];
    assert cs == front + [last];
    if k < |front| {
      OneDecides(m, front, k, p);
      assert Touches(cs[k]) !! Touches(last);
    } else {
      forall q, c | q in Touches(last) && c in front
        ensures q !in Touches(c)
      {
        var i :| 0 <= i < |front| && front[i] == c;
        assert Touches(cs[i]) !! Touches(last);
      }
      UntouchedPathStays(m, front, last.relPath);
      if last.op == MoveOp { UntouchedPathStays(m, front, last.oldRelPath); }
    }
  }

  /** What the scan reports: plain changes of different paths, each file delete of a file that
      is there with the hash the change carries. */
  ghost predicate PlainChanges(m: map<Path, string>, cs: seq<LocalChange>) {
    && (forall c :: c in cs ==> c.op != MoveOp)
    && (forall i, j :: 0 <= i < j < |cs| ==> cs[i].relPath != cs[j].relPath)
    && (forall c :: c in cs && c.op == DeleteOp && !c.isDir ==> At(m, c.relPath) == Some(c.hash))
  }

  /** The rewritten list does to the paths and contents exactly what the original did. */
  lemma PairingPreservesTheEffect(m: map<Path, string>, cs: seq<LocalChange>)
    requires PlainChanges(m, cs)
    ensures PerformAll(m, Paired(cs)) == PerformAll(m, cs)
  {
    var a, b := PerformAll(m, Paired(cs)), PerformAll(m, cs);
    forall p
      ensures At(a, p) == At(b, p)
    {
      SameAt(m, cs, p);
    }
    assert forall p :: p in a <==> At(a, p).Some?;
    assert forall p :: p in b <==> At(b, p).Some?;
    assert forall p :: p in a ==> At(a, p) == Some(a[p]);
    assert forall p :: p in b ==> At(b, p) == Some(b[p]);
  }

  lemma SameAt(m: map<Path, string>, cs: seq<LocalChange>, p: Path)
    requires PlainChanges(m, cs)
    ensures At(PerformAll(m, Paired(cs)), p) == At(PerformAll(m, cs), p)
  {
    PlainIsApart(cs);
    if i: nat :| i < |cs| && cs[i].relPath == p {
      assert cs[i] in cs;
      OneDecides(m, cs, i, p);
      SameWhereTouched(m, cs, i);
    } else {
      forall c | c in Paired(cs)
        ensures p !in Touches(c)
      {
        PairedMembers(cs, |cs|);
        var i: nat :| i < |cs| && c == PairedAt(cs, i);
        assert cs[i] in cs;
      }
      UntouchedPathStays(m, Paired(cs), p);
      UntouchedPathStays(m, cs, p);
    }
  }

  lemma SameWhereTouched(m: map<Path, string>, cs: seq<LocalChange>, i: nat)
    requires PlainChanges(m, cs) && i < |cs|
    ensures At(PerformAll(m, Paired(cs)), cs[i].relPath) == At(Perform(m, cs[i]), cs[i].relPath)
  {
    hide PerformAll, PairedUpTo;
    assert cs[i] in cs;
    if Consumed(cs, i) {
      var k: nat :| k < |cs| && SourceOf(cs, k) == Some(i);
      assert cs[k] in cs && !Consumed(cs, k);
      SurvivorDecides(m, cs, k, cs[i].relPath);
      assert At(m, cs[i].relPath) == Some(cs[i].hash);
    } else {
      SurvivorDecides(m, cs, i, cs[i].relPath);
      if SourceOf(cs, i).Some? {
        var d := cs[SourceOf(cs, i).value];
        assert d in cs && At(m, d.relPath) == Some(d.hash);
      }
    }
  }

  lemma PlainIsApart(cs: seq<LocalChange>)
    requires forall c :: c in cs ==> c.op != MoveOp
    requires forall i, j :: 0 <= i < j < |cs| ==> cs[i].relPath != cs[j].relPath
    ensures Apart(cs)
  {
    forall i, j | 0 <= i < j < |cs|
      ensures Touches(cs[i]) !! Touches(cs[j])
    {
      assert cs[i] in cs && cs[j] in cs;
    }
  }

  lemma SurvivorDecides(m: map<Path, string>, cs: seq<LocalChange>, i: nat, p: Path)
    requires PlainChanges(m, cs) && i < |cs| && !Consumed(cs, i) && p in Touches(PairedAt(cs, i))
    ensures At(PerformAll(m, Paired(cs)), p) == At(Perform(m, PairedAt(cs, i)), p)
  {
    hide SourceOf, PerformAll;
    PairedMembers(cs, |cs|);
    PairedIsApart(cs, |cs|);
    var k :| 0 <= k < |Paired(cs)| && Paired(cs)[k] == PairedAt(cs, i);
    OneDecides(m, Paired(cs), k, p);
  }
}
