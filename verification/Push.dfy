/** Replaying the local changes onto the server: the order they are sent in, and the state of
    server and index after every one of them. */
module Push {
  import opened FileSystem
  import opened SyncTypes
  import opened Feed
  import opened LocalChanges

  // ---------- the order ----------

  function Rank(op: ChangeOp): nat {
    match op case DeleteOp => 2 case MoveOp => 1 case _ => 0
  }

  /** strings.Count(rel, "/"). */
  function Depth(p: Path): nat {
    if p == [] then 0 else |p| - 1
  }

  /** Creates and updates first, then moves, deletes last; the former top-down, deletes
      bottom-up. */
  predicate Before(a: LocalChange, b: LocalChange) {
    if Rank(a.op) != Rank(b.op) then Rank(a.op) < Rank(b.op)
    else if Rank(a.op) == 2 then Depth(a.relPath) > Depth(b.relPath)
    else Depth(a.relPath) < Depth(b.relPath)
  }

  ghost predicate Ordered(cs: seq<LocalChange>) {
    forall i, j :: 0 <= i < j < |cs| ==> !Before(cs[j], cs[i])
  }

  /** The changes of one kind and depth, in order. */
  ghost function Alike(cs: seq<LocalChange>, rank: nat, depth: nat): seq<LocalChange> {
    if cs == [] then []
    else Alike(cs[..|cs| - 1], rank, depth) + (if IsLike(cs[|cs| - 1], rank, depth) then [cs[|cs| - 1]] else [])
  }

  predicate IsLike(c: LocalChange, rank: nat, depth: nat) {
    Rank(c.op) == rank && Depth(c.relPath) == depth
  }

  ghost predicate SameAlike(a: seq<LocalChange>, b: seq<LocalChange>) {
    forall rank, depth :: Alike(a, rank, depth) == Alike(b, rank, depth)
  }

  lemma {:induction false} AlikeSplits(a: seq<LocalChange>, b: seq<LocalChange>, rank: nat, depth: nat)
    ensures Alike(a + b, rank, depth) == Alike(a, rank, depth) + Alike(b, rank, depth)
    decreases |b|
  {
    if b == [] {
      assert a + b == a;
    } else {
      var front := b[..|b| - 1];
      AlikeSplits(a, front, rank, depth);
      assert (a + b)[..|a + b| - 1] == a + front;
    }
  }

  lemma {:induction false} NoneAlike(cs: seq<LocalChange>, rank: nat, depth: nat)
    requires forall j :: 0 <= j < |cs| ==> !IsLike(cs[j], rank, depth)
    ensures Alike(cs, rank, depth) == []
    decreases |cs|
  {
    if cs != [] { NoneAlike(cs[..|cs| - 1], rank, depth); }
  }

  /** An element put before others that all belong after it is, among its like, the last. */
  lemma InsertedLast(front: seq<LocalChange>, c: LocalChange, back: seq<LocalChange>)
    requires forall j :: 0 <= j < |back| ==> Before(c, back[j])
    ensures SameAlike(front + [c] + back, front + back + [c])
  {
    hide Alike, IsLike, Before;
    forall rank, depth
      ensures Alike(front + [c] + back, rank, depth) == Alike(front + back + [c], rank, depth)
    {
      AlikeSplits(front + [c], back, rank, depth);
      AlikeSplits(front, [c], rank, depth);
      AlikeSplits(front + back, [c], rank, depth);
      AlikeSplits(front, back, rank, depth);
      if IsLike(c, rank, depth) {
        forall j | 0 <= j < |back|
          ensures !IsLike(back[j], rank, depth)
        {
          LaterIsUnlike(c, back[j], rank, depth);
        }
        NoneAlike(back, rank, depth);
      } else {
        NoneAlike([c], rank, depth);
      }
    }
  }

  lemma LaterIsUnlike(c: LocalChange, d: LocalChange, rank: nat, depth: nat)
    requires Before(c, d) && IsLike(c, rank, depth)
    ensures !IsLike(d, rank, depth)
  {
  }

  lemma AppendAlike(a: seq<LocalChange>, b: seq<LocalChange>, c: LocalChange)
    requires SameAlike(a, b)
    ensures SameAlike(a + [c], b + [c])
  {
    forall rank, depth
      ensures Alike(a + [c], rank, depth) == Alike(b + [c], rank, depth)
    {
      AlikeSplits(a, [c], rank, depth);
      AlikeSplits(b, [c], rank, depth);
    }
  }

  /** sort.SliceStable with the comparison above: ordered, the same changes, and those that
      compare equal in the order they came in. */
  method SortChanges(changes: seq<LocalChange>) returns (out: seq<LocalChange>)
    ensures multiset(out) == multiset(changes) && Ordered(out)
    ensures SameAlike(out, changes)
  {
    hide Ordered, Alike;
    out := [];
    assert Ordered(out) by { NoneIsOrdered(); }
    var i := 0;
    while i < |changes|
      invariant i <= |changes|
      invariant multiset(out) == multiset(changes[..i]) && Ordered(out)
      invariant SameAlike(out, changes[..i])
    {
      assert changes[..i + 1] == changes[..i] + [changes[i]];
      AppendAlike(out, changes[..i], changes[i]);
      out := Insert(out, changes[i]);
      i := i + 1;
    }
    assert changes[..i] == changes;
  }

  lemma NoneIsOrdered()
    ensures Ordered([])
  {
  }

  method Insert(out: seq<LocalChange>, c: LocalChange) returns (r: seq<LocalChange>)
    requires Ordered(out)
    ensures multiset(r) == multiset(out) + multiset{c} && Ordered(r)
    ensures SameAlike(r, out + [c])
  {
    hide Ordered, Before, Alike;
    var k: nat := |out|;
    while k > 0 && Before(c, out[k - 1])
      invariant k <= |out|
      invariant forall j :: k <= j < |out| ==> Before(c, out[j])
    {
      k := k - 1;
    }
    InsertKeepsOrder(out, c, k);
    InsertedLast(out[..k], c, out[k..]);
    assert out == out[..k] + out[k..];
    r := out[..k] + [c] + out[k..];
  }

  lemma InsertKeepsOrder(out: seq<LocalChange>, c: LocalChange, k: nat)
    requires Ordered(out) && k <= |out|
    requires k > 0 ==> !Before(c, out[k - 1])
    requires forall j :: k <= j < |out| ==> Before(c, out[j])
    ensures Ordered(out[..k] + [c] + out[k..])
  {
    var s := out[..k] + [c] + out[k..];
    forall i, j | 0 <= i < j < |s|
      ensures !Before(s[j], s[i])
    {
      if j < k {
      } else if j == k {
        assert i < k - 1 ==> !Before(out[k - 1], out[i]);
      } else if i < k {
        assert s[j] == out[j - 1];
      } else if i == k {
        assert s[j] == out[j - 1];
      } else {
        assert s[j] == out[j - 1] && s[i] == out[i - 1];
      }
    }
  }

  // ---------- plans ----------

  /** A change of the list is one the scan reported, or a move made of two it reported. */
  ghost predicate Justified(c: LocalChange, hash: Bytes -> string, disk: Tree, known: map<Path, Row>) {
    if c.op == MoveOp then
      && !c.isDir && c.hash != ""
      && DiffAt(hash, disk, known, c.relPath) == Some(LocalChange(CreateOp, c.relPath, [], false, c.hash, c.size))
      && (exists size :: DiffAt(hash, disk, known,
                                c.oldRelPath) == Some(LocalChange(DeleteOp, c.oldRelPath, [], false, c.hash, size)))
    else DiffAt(hash, disk, known, c.relPath) == Some(c)
  }

  /** The list accounts for every difference between folder and index, exactly once. */
  ghost predicate IsPlan(cs: seq<LocalChange>, hash: Bytes -> string, disk: Tree, known: map<Path, Row>) {
    && Apart(cs)
    && (forall c {:trigger c in cs} :: c in cs ==> Justified(c, hash, disk, known))
    && (forall p {:trigger DiffAt(hash, disk, known, p)} :: DiffAt(hash, disk, known, p).Some? ==>
          exists c :: c in cs && p in Touches(c))
  }

  lemma ReportIsPlan(cs: seq<LocalChange>, hash: Bytes -> string, disk: Tree, known: map<Path, Row>)
    requires Reports(cs, hash, disk, known)
    ensures IsPlan(cs, hash, disk, known)
  {
    forall c | c in cs
      ensures c.op != MoveOp && Justified(c, hash, disk, known)
    {
      var i :| 0 <= i < |cs| && cs[i] == c;
    }
    PlainIsApart(cs);
    forall p | DiffAt(hash, disk, known, p).Some?
      ensures exists c :: c in cs && p in Touches(c)
    {
      var i :| 0 <= i < |cs| && cs[i].relPath == p;
      assert cs[i] in cs && p in Touches(cs[i]);
    }
  }

  lemma PairedIsPlan(cs: seq<LocalChange>, hash: Bytes -> string, disk: Tree, known: map<Path, Row>)
    requires Reports(cs, hash, disk, known)
    ensures IsPlan(Paired(cs), hash, disk, known)
  {
    ReportIsPlan(cs, hash, disk, known);
    forall c | c in cs
      ensures c.op != MoveOp
    {
      assert Justified(c, hash, disk, known);
      var i :| 0 <= i < |cs| && cs[i] == c;
    }
    PairedIsApart(cs, |cs|);
    PairedMembers(cs, |cs|);
    forall c | c in Paired(cs)
      ensures Justified(c, hash, disk, known)
    {
      var i: nat :| i < |cs| && !Consumed(cs, i) && c == PairedAt(cs, i);
      PairIsJustified(cs, hash, disk, known, i);
    }
    forall p | DiffAt(hash, disk, known, p).Some?
      ensures exists c :: c in Paired(cs) && p in Touches(c)
    {
      var i: nat :| i < |cs| && cs[i].relPath == p;
      StillTouched(cs, i);
    }
  }

  lemma PairIsJustified(cs: seq<LocalChange>, hash: Bytes -> string, disk: Tree, known: map<Path, Row>, i: nat)
    requires Reports(cs, hash, disk, known) && i < |cs|
    ensures Justified(PairedAt(cs, i), hash, disk, known)
  {
    assert DiffAt(hash, disk, known, cs[i].relPath) == Some(cs[i]);
    if SourceOf(cs, i).Some? {
      var d := cs[SourceOf(cs, i).value];
      assert DiffAt(hash, disk, known, d.relPath) == Some(d);
      assert d == LocalChange(DeleteOp, d.relPath, [], false, d.hash, d.size);
    }
  }

  lemma StillTouched(cs: seq<LocalChange>, i: nat)
    requires i < |cs|
    ensures exists c :: c in Paired(cs) && cs[i].relPath in Touches(c)
  {
    PairedMembers(cs, |cs|);
    if Consumed(cs, i) {
      var k: nat :| k < |cs| && SourceOf(cs, k) == Some(i);
      assert !Consumed(cs, k);
      assert PairedAt(cs, k) in Paired(cs) && cs[i].relPath in Touches(PairedAt(cs, k));
    } else {
      assert PairedAt(cs, i) in Paired(cs) && cs[i].relPath in Touches(PairedAt(cs, i));
    }
  }

  lemma {:induction false} ApartMeansOnce(cs: seq<LocalChange>, c: LocalChange)
    requires Apart(cs)
    ensures multiset(cs)[c] <= 1
  {
    if cs != [] {
      var front, last := cs[..|cs| - 1], cs[|cs| - 1];
      assert cs == front + [last];
      ApartMeansOnce(front, c);
    }
  }

  lemma SortedIsApart(cs: seq<LocalChange>, out: seq<LocalChange>)
    requires Apart(cs) && multiset(out) == multiset(cs)
    ensures Apart(out)
  {
    forall i, j | 0 <= i < j < |out|
      ensures Touches(out[i]) !! Touches(out[j])
    {
      if out[i] == out[j] {
        assert out == out[..i] + [out[i]] + out[i + 1..j] + [out[j]] + out[j + 1..];
        ApartMeansOnce(cs, out[i]);
      } else {
        DifferentOnesAreApart(cs, out[i], out[j]) by {
          assert out[i] in multiset(out) && out[j] in multiset(out);
        }
      }
    }
  }

  lemma DifferentOnesAreApart(cs: seq<LocalChange>, c: LocalChange, d: LocalChange)
    requires Apart(cs) && c in cs && d in cs && c != d
    ensures Touches(c) !! Touches(d)
  {
    var a :| 0 <= a < |cs| && cs[a] == c;
    var b :| 0 <= b < |cs| && cs[b] == d;
    if a < b { assert Touches(cs[a]) !! Touches(cs[b]); } else { assert Touches(cs[b]) !! Touches(cs[a]); }
  }

  /** Sorting does not change what the list accounts for. */
  lemma SortedIsPlan(cs: seq<LocalChange>, out: seq<LocalChange>, hash: Bytes -> string, disk: Tree,
                     known: map<Path, Row>)
    requires IsPlan(cs, hash, disk, known) && multiset(out) == multiset(cs)
    ensures IsPlan(out, hash, disk, known)
  {
    SortedIsApart(cs, out);
    forall c
      ensures c in cs <==> c in out
    {
      assert c in cs <==> c in multiset(cs);
      assert c in out <==> c in multiset(out);
    }
    hide Apart, Justified, Touches, DiffAt;
  }
}
