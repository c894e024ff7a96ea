/** Replaying the whole feed over a folder that already holds arbitrary other entries, as a
    scope change does: every successful pull still puts the server's tree in place. */
module LooseReplay {
  import opened FileSystem
  import opened SyncTypes
  import opened Feed
  import opened Replay

  /** The disk holds the tree, and possibly more. */
  ghost predicate Covers(disk: Tree, tree: Tree) {
    && Closed(disk)
    && forall p {:trigger p in tree} {:trigger p in disk} :: p in tree ==> p in disk && disk[p] == tree[p]
  }

  ghost predicate Has(disk: Tree, p: Path, node: Node) {
    p in disk && disk[p] == node
  }

  /** A node of a moved folder whose own entry is still to come: at its old path, or already
      taken along to the new one. */
  ghost predicate Waits(disk: Tree, tree: Tree, q: Path, n: Path)
    requires q in tree
  {
    Has(disk, q, tree[q]) || (q !in disk && Has(disk, n, tree[q]))
  }

  ghost predicate MoveUnderWay(disk: Tree, s: Server, op: Op, k: nat)
    requires ServerOk(s) && OpOk(s, op) && op.Move?
  {
    && Closed(disk)
    && (forall p {:trigger p in s.tree} :: p in s.tree && !Within(op.from, p) ==> Has(disk, p, s.tree[p]))
    && (forall j {:trigger op.order[j]} :: 0 <= j < |op.order| ==>
          && op.order[j] in s.tree
          && if j < k then Has(disk, MovePath(op.order[j], op.from, op.to), s.tree[op.order[j]])
             else Waits(disk, s.tree, op.order[j], MovePath(op.order[j], op.from, op.to)))
  }

  /** The disk after `k` entries of one operation. */
  ghost predicate BlockCovers(disk: Tree, s: Server, op: Op, k: nat)
    requires ServerOk(s) && OpOk(s, op)
  {
    if op.Move? then MoveUnderWay(disk, s, op, k)
    else Covers(disk, if k == 0 then s.tree else After(s, op).tree)
  }

  lemma MoveCovers(disk: Tree, s: Server, op: Op)
    requires ServerOk(s) && OpOk(s, op) && op.Move?
    ensures Covers(disk, s.tree) ==> BlockCovers(disk, s, op, 0)
    ensures BlockCovers(disk, s, op, |op.order|) ==> Covers(disk, After(s, op).tree)
  {
    if Covers(disk, s.tree) {
      forall j | 0 <= j < |op.order|
        ensures op.order[j] in s.tree
        ensures Waits(disk, s.tree, op.order[j], MovePath(op.order[j], op.from, op.to))
      {
        assert op.order[j] in op.order;
      }
    }
    if BlockCovers(disk, s, op, |op.order|) {
      var t := After(s, op).tree;
      forall r | r in t
        ensures r in disk && disk[r] == t[r]
      {
        if Within(op.to, r) {
          var q := Back(r, op.from, op.to);
          assert q in op.order;
          var j :| 0 <= j < |op.order| && op.order[j] == q;
          assert MovePath(q, op.from, op.to) == r;
          assert Has(disk, MovePath(op.order[j], op.from, op.to), s.tree[q]);
        } else {
          assert r in s.tree && !Within(op.from, r);
        }
      }
    }
  }

  /** Two different nodes of a moved folder keep different paths, and neither comes to lie
      under the other's new path unless it lay under its old one. */
  lemma MovePathIsFaithful(p: Path, q: Path, from: Path, to: Path)
    requires Within(from, p) && Within(from, q)
    ensures Within(MovePath(p, from, to), MovePath(q, from, to)) <==> Within(p, q)
  {
    var a, b := p[|from|..], q[|from|..];
    assert p == from + a && q == from + b;
    assert |p| <= |q| ==> (q[..|p|] == from + b[..|a|] && (to + b)[..|to + a|] == to + b[..|a|]);
    if Within(p, q) {
      assert from + a == from + b[..|a|];
      assert (from + a)[|from|..] == (from + b[..|a|])[|from|..];
    }
    if |p| <= |q| && (to + b)[..|to + a|] == to + a {
      assert (to + a)[|to|..] == (to + b[..|a|])[|to|..];
    }
  }

  /** Moving nodes about inside old and new place of the folder leaves the rest alone. */
  lemma OldAndNewPlaceAreApart(s: Server, op: Op, q: Path)
    requires ServerOk(s) && OpOk(s, op) && op.Move? && q in op.order
    ensures var n := MovePath(q, op.from, op.to);
            && n != [] && !Within(op.from, n) && Within(op.to, n) && n !in s.tree && !Within(q, n)
            && !Within(op.to, q)
            && (forall p {:trigger Within(n, p)} :: p in s.tree ==> !Within(n, p))
            && (forall p {:trigger Within(q, p)} :: !Within(op.from, p) ==> !Within(q, p))
  {
    var n := MovePath(q, op.from, op.to);
    assert n[..|op.to|] == op.to;
    forall p | p in s.tree
      ensures !Within(n, p)
    {
      if Within(n, p) {
        WithinTransitive(op.to, n, p);
        NothingBelowAbsent(s.tree, op.to, p);
      }
    }
    forall p | !Within(op.from, p)
      ensures !Within(q, p)
    {
      if Within(q, p) { WithinTransitive(op.from, q, p); }
    }
    if Within(op.from, n) && |op.from| > |op.to| {
      assert op.from[..|op.to|] == n[..|op.from|][..|op.to|] == n[..|op.to|];
      NothingBelowAbsent(s.tree, op.to, op.from);
    }
    if Within(op.to, q) { NothingBelowAbsent(s.tree, op.to, q); }
  }

  /** The parent of a moved node has arrived before it, or is outside the moved folder. */
  lemma NewParentIsThere(disk: Tree, s: Server, op: Op, k: nat)
    requires ServerOk(s) && OpOk(s, op) && op.Move? && k < |op.order|
    requires MoveUnderWay(disk, s, op, k)
    ensures var n := MovePath(op.order[k], op.from, op.to);
            n != [] && Has(disk, Parent(n), Folder)
  {
    var q := op.order[k];
    assert q in op.order;
    OldAndNewPlaceAreApart(s, op, q);
    var n := MovePath(q, op.from, op.to);
    if q == op.from {
      assert n == op.to;
      assert !Within(op.from, Parent(op.to)) by {
        if Within(op.from, Parent(op.to)) { WithinParent(op.from, op.to); }
      }
    } else {
      WithinParent(op.from, q);
      var p := Parent(q);
      assert p in op.order;
      var j :| 0 <= j < |op.order| && op.order[j] == p;
      WithinParent(p, q);
      assert j < k;
      assert |q| > |op.from|;
      assert MovePath(p, op.from, op.to) == Parent(n);
      assert Has(disk, MovePath(op.order[j], op.from, op.to), s.tree[p]);
    }
  }

  /** One rename of a move, or none when the entry had been taken along. */
  lemma RenameKeepsMove(disk: Tree, s: Server, op: Op, k: nat, d: Tree)
    requires ServerOk(s) && OpOk(s, op) && op.Move? && k < |op.order|
    requires MoveUnderWay(disk, s, op, k)
    requires op.order[k] in disk && Rename(disk, op.order[k], MovePath(op.order[k], op.from, op.to)) == Some(d)
    ensures MoveUnderWay(d, s, op, k + 1)
  {
    var q := op.order[k];
    assert q in op.order;
    var n := MovePath(q, op.from, op.to);
    OldAndNewPlaceAreApart(s, op, q);
    RenameKeepsClosed(disk, q, n);
    assert d == Moved(disk, q, n);
    assert n in disk ==> !HasChild(disk, n) by {
      if n in disk && disk[n] != Folder && HasChild(disk, n) {
        var x :| x in disk && x != n && Within(n, x);
        NothingBelowFile(disk, n, x);
      }
    }
    forall p | p in s.tree && !Within(op.from, p)
      ensures Has(d, p, s.tree[p])
    {
      assert Has(disk, p, s.tree[p]) && !Within(n, p) && !Within(q, p);
    }
    forall j | 0 <= j < |op.order|
      ensures op.order[j] in s.tree
      ensures var m := MovePath(op.order[j], op.from, op.to);
              if j < k + 1 then Has(d, m, s.tree[op.order[j]])
              else Waits(d, s.tree, op.order[j], m)
    {
      RenameMovesNode(disk, s, op, k, d, j);
    }
  }

  lemma RenameMovesNode(disk: Tree, s: Server, op: Op, k: nat, d: Tree, j: nat)
    requires ServerOk(s) && OpOk(s, op) && op.Move? && k < |op.order| && j < |op.order|
    requires MoveUnderWay(disk, s, op, k)
    requires op.order[k] in disk
    requires var q, n := op.order[k], MovePath(op.order[k], op.from, op.to);
             d == Moved(disk, q, n) && (n in disk ==> !HasChild(disk, n)) && Closed(d)
    ensures op.order[j] in s.tree
    ensures var m := MovePath(op.order[j], op.from, op.to);
            if j < k + 1 then Has(d, m, s.tree[op.order[j]])
            else Waits(d, s.tree, op.order[j], m)
  {
    var q, p := op.order[k], op.order[j];
    assert q in op.order && p in op.order;
    var n, m := MovePath(q, op.from, op.to), MovePath(p, op.from, op.to);
    OldAndNewPlaceAreApart(s, op, q);
    OldAndNewPlaceAreApart(s, op, p);
    MovePathIsFaithful(q, p, op.from, op.to);
    assert !Within(n, p) by {
      if Within(n, p) { WithinTransitive(op.to, n, p); }
    }
    assert j < k ==> !Within(q, p);
    hide ServerOk, OpOk, Lists, Closed;
    if Within(q, p) {
      assert p == q + p[|q|..];
      NodeGoesAlong(disk, s.tree, q, n, p, m, d);
    } else {
      assert !Within(q, m) by {
        if Within(q, m) { WithinTransitive(op.from, q, m); }
      }
    }
  }

  /** A node inside the renamed folder was still at its old path: below an empty or absent
      target nothing can have arrived. */
  lemma NodeGoesAlong(disk: Tree, tree: Tree, q: Path, n: Path, p: Path, m: Path, d: Tree)
    requires Closed(disk) && q in disk && d == Moved(disk, q, n) && (n in disk ==> !HasChild(disk, n))
    requires Within(q, p) && !Within(n, p) && Within(n, m) && p == q + p[|q|..] && m[|n|..] == p[|q|..]
    requires p in tree && Waits(disk, tree, p, m)
    ensures Has(d, m, tree[p]) && p !in d
  {
    assert q + m[|n|..] == p;
    if m == n {
      assert q + [] == q;
    } else if m in disk {
      AncestorsAreFolders(disk, n, m);
    }
  }

  /** The entry of a folder that was not renamed, because it had come along or because the
      rename failed: MkdirAll makes sure of the new folder. */
  lemma MkdirKeepsMove(disk: Tree, s: Server, op: Op, k: nat)
    requires ServerOk(s) && OpOk(s, op) && op.Move? && k < |op.order|
    requires MoveUnderWay(disk, s, op, k) && op.order[k] in s.tree && s.tree[op.order[k]] == Folder
    requires MkdirAll(disk, MovePath(op.order[k], op.from, op.to)).Some?
    ensures MoveUnderWay(MkdirAll(disk, MovePath(op.order[k], op.from, op.to)).value, s, op, k + 1)
  {
    var q := op.order[k];
    assert q in op.order;
    var n := MovePath(q, op.from, op.to);
    OldAndNewPlaceAreApart(s, op, q);
    NewParentIsThere(disk, s, op, k);
    var d := MkdirAll(disk, n).value;
    MkdirAllKeepsClosed(disk, n);
    assert d == disk[n := Folder];
    forall j | 0 <= j < |op.order|
      ensures op.order[j] in s.tree
      ensures var m := MovePath(op.order[j], op.from, op.to);
              if j < k + 1 then Has(d, m, s.tree[op.order[j]])
              else Waits(d, s.tree, op.order[j], m)
    {
      var p := op.order[j];
      assert p in op.order;
      OldAndNewPlaceAreApart(s, op, p);
    }
  }

  /** The known row of the node whose entry is next is still the old one. */
  lemma MoveStep(hash: Bytes -> string, s: Server, op: Op, rows: Index, k: nat, sn: int,
                 disk: Tree, body: Bytes)
    requires SoundHash(hash) && ServerOk(s) && OpOk(s, op) && Indexes(hash, rows, s)
    requires op.Move? && k < EntryCount(op) && MoveUnderWay(disk, s, op, k)
    requires ApplyDisk(disk, RowsAfter(hash, s, op, rows, k), Entry(hash, s, op, k).(seqNo := sn), body).Some?
    ensures MoveUnderWay(
              ApplyDisk(disk, RowsAfter(hash, s, op, rows, k), Entry(hash, s, op, k).(seqNo := sn), body).value,
              s, op, k + 1)
  {
    var q := op.order[k];
    assert q in op.order;
    var n := MovePath(q, op.from, op.to);
    var c := Entry(hash, s, op, k).(seqNo := sn);
    var known := RowsAfter(hash, s, op, rows, k);
    MovedRow(hash, s, op, rows, k);
    OldAndNewPlaceAreApart(s, op, q);
    NewParentIsThere(disk, s, op, k);
    assert Relocates(known, c) && known[c.nodeID].path == q && Above(c.relPath) == Parent(n);
    assert Waits(disk, s.tree, q, n);
    hide RowsAfter, ServerOk, OpOk, Indexes, MoveUnderWay;
    if q in disk {
      var moved := Rename(disk, q, n);
      if moved.Some? {
        RenameKeepsMove(disk, s, op, k, moved.value);
        RenamedIsThere(disk, q, n, moved.value);
      } else {
        assert c.isDir;
        MkdirKeepsMove(disk, s, op, k);
      }
    } else if c.isDir {
      MkdirKeepsMove(disk, s, op, k);
    } else {
      TakenAlong(disk, s, op, k);
    }
  }

  lemma RenamedIsThere(disk: Tree, q: Path, n: Path, d: Tree)
    requires q in disk && Rename(disk, q, n) == Some(d)
    ensures n in d && d[n] == disk[q]
  {
    if q != n {
      assert q + n[|n|..] == q;
    }
  }

  lemma TakenAlong(disk: Tree, s: Server, op: Op, k: nat)
    requires ServerOk(s) && OpOk(s, op) && op.Move? && k < |op.order|
    requires MoveUnderWay(disk, s, op, k) && op.order[k] !in disk
    ensures MoveUnderWay(disk, s, op, k + 1)
  {
    assert Waits(disk, s.tree, op.order[k], MovePath(op.order[k], op.from, op.to));
  }

  lemma PutCovers(disk: Tree, tree: Tree, p: Path, node: Node, d: Tree)
    requires Covers(disk, tree) && Closed(d)
    requires Has(d, p, node) && forall q :: q in disk && q != p ==> q in d && d[q] == disk[q]
    ensures Covers(d, tree[p := node])
  {
  }

  lemma ContentStep(hash: Bytes -> string, s: Server, op: Op, rows: Index, sn: int, disk: Tree, body: Bytes)
    requires SoundHash(hash) && ServerOk(s) && OpOk(s, op) && Indexes(hash, rows, s)
    requires (op.Create? || op.Update?) && Covers(disk, s.tree)
    requires ApplyDisk(disk, rows, Entry(hash, s, op, 0).(seqNo := sn), body).Some?
    requires BodyMatches(hash, disk, rows, Entry(hash, s, op, 0).(seqNo := sn), body)
    ensures Covers(ApplyDisk(disk, rows, Entry(hash, s, op, 0).(seqNo := sn), body).value, After(s, op).tree)
  {
    var p := op.path;
    var c := Entry(hash, s, op, 0).(seqNo := sn);
    var d := ApplyDisk(disk, rows, c, body).value;
    assert !Relocates(rows, c);
    if c.isDir {
      MkdirAllKeepsClosed(disk, p);
      PutCovers(disk, s.tree, p, Folder, d);
    } else {
      var data := if op.Create? then op.node.data else op.data;
      if InPlace(disk, rows, c) {
        assert op.Update?;
        PutCovers(disk, s.tree, p, Regular(data), d);
      } else {
        assert body == data;
        AncestorsOf(s.tree, p, op);
        PutKeepsClosed(disk, p, Regular(body));
        PutCovers(disk, s.tree, p, Regular(data), d);
      }
    }
  }

  lemma AncestorsOf(t: Tree, p: Path, op: Op)
    requires Closed(t) && p != [] && (p in t || FreeSlot(t, p))
    ensures Parent(p) in t && t[Parent(p)] == Folder
  {
  }

  lemma DeleteStep(hash: Bytes -> string, s: Server, op: Op, k: nat, sn: int, disk: Tree, known: Index, body: Bytes)
    requires ServerOk(s) && OpOk(s, op) && op.Delete? && k < EntryCount(op)
    requires BlockCovers(disk, s, op, k)
    requires ApplyDisk(disk, known, Entry(hash, s, op, k).(seqNo := sn), body).Some?
    ensures BlockCovers(ApplyDisk(disk, known, Entry(hash, s, op, k).(seqNo := sn), body).value, s, op, k + 1)
  {
    var q := op.order[k];
    assert q in op.order;
    RemoveKeepsClosed(disk, q);
    var t := After(s, op).tree;
    forall p | p in t
      ensures !Within(q, p)
    {
      if Within(q, p) { WithinTransitive(op.path, q, p); }
    }
  }

  lemma BlockStep(hash: Bytes -> string, s: Server, op: Op, rows: Index, k: nat, sn: int, disk: Tree, body: Bytes)
    requires SoundHash(hash) && ServerOk(s) && OpOk(s, op) && Indexes(hash, rows, s)
    requires k < EntryCount(op) && BlockCovers(disk, s, op, k)
    requires ApplyDisk(disk, RowsAfter(hash, s, op, rows, k), Entry(hash, s, op, k).(seqNo := sn), body).Some?
    requires BodyMatches(hash, disk, RowsAfter(hash, s, op, rows, k), Entry(hash, s, op, k).(seqNo := sn), body)
    ensures BlockCovers(ApplyDisk(disk, RowsAfter(hash, s, op, rows, k), Entry(hash, s, op, k).(seqNo := sn),
                                  body).value,
                        s, op, k + 1)
  {
    match op
    case Move(_, _, _, _) => MoveStep(hash, s, op, rows, k, sn, disk, body);
    case Delete(_, _, _) => DeleteStep(hash, s, op, k, sn, disk, RowsAfter(hash, s, op, rows, k), body);
    case _ => ContentStep(hash, s, op, rows, sn, disk, body);
  }

  // ---------- whole histories ----------

  /** The disk after `i` entries of a history. */
  ghost predicate CoversAlong(disk: Tree, s: Server, hist: seq<Op>, i: nat)
    requires HistoryOk(s, hist)
    decreases |hist|
  {
    if hist == [] then Covers(disk, s.tree)
    else if i < EntryCount(hist[0]) then BlockCovers(disk, s, hist[0], i)
    else CoversAlong(disk, After(s, hist[0]), hist[1..], i - EntryCount(hist[0]))
  }

  lemma {:induction false} CoversStart(disk: Tree, s: Server, hist: seq<Op>)
    requires HistoryOk(s, hist) && Covers(disk, s.tree)
    ensures CoversAlong(disk, s, hist, 0)
    decreases |hist|
  {
    if hist != [] && hist[0].Move? {
      MoveCovers(disk, s, hist[0]);
    }
  }

  lemma {:induction false} CoversStep(hash: Bytes -> string, s: Server, hist: seq<Op>, rows: Index, i: nat,
                                      sn: int, disk: Tree, body: Bytes)
    requires SoundHash(hash) && HistoryOk(s, hist) && Indexes(hash, rows, s)
    requires i < |Entries(hash, s, hist)| < |Script(hash, s, hist, rows)|
    requires CoversAlong(disk, s, hist, i)
    requires var known, c := Script(hash, s, hist, rows)[i].rows, Entries(hash, s, hist)[i].(seqNo := sn);
             ApplyDisk(disk, known, c, body).Some? && BodyMatches(hash, disk, known, c, body)
    ensures var known, c := Script(hash, s, hist, rows)[i].rows, Entries(hash, s, hist)[i].(seqNo := sn);
            CoversAlong(ApplyDisk(disk, known, c, body).value, s, hist, i + 1)
    decreases |hist|
  {
    hide ServerOk, OpOk, After, Indexes, BlockCovers, Covers, ApplyDisk, BodyMatches, Entry;
    var op, n := hist[0], EntryCount(hist[0]);
    if i < n {
      InFirstBlock(hash, s, hist, rows, i);
      BlockStep(hash, s, op, rows, i, sn, disk, body);
      if i + 1 == n {
        var d := ApplyDisk(disk, RowsAfter(hash, s, op, rows, i), Entry(hash, s, op, i).(seqNo := sn), body).value;
        BlockIsCovered(d, s, op);
        CoversStart(d, After(s, op), hist[1..]);
      }
    } else {
      InLaterBlock(hash, s, hist, rows, i);
      BlockEnds(hash, s, op, rows);
      CoversStep(hash, After(s, op), hist[1..], RowsAfter(hash, s, op, rows, n), i - n, sn, disk, body);
    }
  }

  lemma BlockIsCovered(disk: Tree, s: Server, op: Op)
    requires ServerOk(s) && OpOk(s, op) && BlockCovers(disk, s, op, EntryCount(op))
    ensures Covers(disk, After(s, op).tree)
  {
    if op.Move? {
      MoveCovers(disk, s, op);
    }
  }

  lemma {:induction false} CoversEnd(hash: Bytes -> string, disk: Tree, s: Server, hist: seq<Op>)
    requires HistoryOk(s, hist) && CoversAlong(disk, s, hist, |Entries(hash, s, hist)|)
    ensures Covers(disk, Final(s, hist).tree)
    decreases |hist|
  {
    if hist != [] {
      CoversEnd(hash, disk, After(s, hist[0]), hist[1..]);
    }
  }
}
