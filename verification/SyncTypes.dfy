/** Vocabulary of the synchroniser: index rows, feed entries, temporary names and what it
    means for the folder on disk to mirror a tree. */
module SyncTypes {
  import opened FileSystem

  type NodeID = string

  /** index.Node without its key. */
  datatype Row = Row(path: Path, isDir: bool, version: int, hash: string, size: nat)

  type Index = map<NodeID, Row>

  /** engine.Change. The engine reads every field but Op, which only names the cause. */
  datatype Change = Change(seqNo: int, nodeID: NodeID, relPath: Path, isDir: bool,
                           version: int, hash: string, size: nat, deleted: bool)

  /** A content hash that never confuses two contents and is never the empty string,
      which the engine reads as "no hash". */
  ghost predicate SoundHash(hash: Bytes -> string) {
    && (forall a, b :: hash(a) == hash(b) ==> a == b)
    && (forall a :: hash(a) != "")
  }

  predicate IsTmp(name: string) {
    ".kf-tmp-" <= name
  }

  predicate IsOSJunk(name: string) {
    name == ".DS_Store" || "._" <= name
  }

  /** Names the scan passes over. */
  predicate Skipped(name: string) {
    IsTmp(name) || IsOSJunk(name)
  }

  predicate Ignored(p: Path) {
    p != [] && Skipped(Base(p))
  }

  ghost predicate NoneIgnored(t: Tree) {
    forall p {:trigger p in t} :: p in t ==> !Ignored(p)
  }

  /** The disk is the tree, give or take temporary and system files. */
  ghost predicate Mirrors(disk: Tree, tree: Tree) {
    && Closed(disk)
    && (forall p {:trigger p in disk} {:trigger p in tree} :: !Ignored(p) ==> (p in disk <==> p in tree))
    && (forall p {:trigger disk[p]} {:trigger tree[p]} :: p in disk && !Ignored(p) ==> disk[p] == tree[p])
    && (forall p {:trigger disk[p]} :: p in disk && Ignored(p) ==> disk[p] != Folder)
  }

  lemma PutMirrors(disk: Tree, tree: Tree, p: Path, node: Node)
    requires Mirrors(disk, tree) && p != [] && !Ignored(p)
    requires Parent(p) in tree && tree[Parent(p)] == Folder && !Ignored(Parent(p))
    requires p in tree ==> tree[p].Folder? == node.Folder?
    ensures Mirrors(disk[p := node], tree[p := node])
  {
    PutKeepsClosed(disk, p, node);
  }

  lemma FileHoldsNothing(disk: Tree, n: Path)
    requires Closed(disk) && n in disk && disk[n] != Folder
    ensures !HasChild(disk, n)
  {
    if HasChild(disk, n) {
      var q :| q in disk && q != n && Within(n, q);
      NothingBelowFile(disk, n, q);
    }
  }

  lemma MoveMirrors(disk: Tree, tree: Tree, o: Path, n: Path)
    requires Mirrors(disk, tree) && Closed(tree)
    requires o in tree && o != [] && n != [] && !Ignored(o) && !Ignored(n)
    requires Parent(n) in tree && tree[Parent(n)] == Folder && !Ignored(Parent(n))
    requires (n !in tree || (tree[n] != Folder && tree[o] != Folder)) && !Within(o, n)
    ensures Mirrors(Moved(disk, o, n), Moved(tree, o, n))
    ensures Rename(disk, o, n) == Some(Moved(disk, o, n))
  {
    if n in tree { FileHoldsNothing(disk, n); }
    MoveKeepsClosed(disk, o, n);
    var d, t := Moved(disk, o, n), Moved(tree, o, n);
    forall r | r in d || r in t
      ensures Ignored(r) && r in d ==> d[r] != Folder
      ensures !Ignored(r) ==> r in d && r in t && d[r] == t[r]
    {
      if Within(n, r) {
        var q := o + r[|n|..];
        if r != n {
          assert |r| > |n|;
          assert Base(q) == Base(r);
        } else {
          assert q == o;
        }
        assert q in disk || q in tree;
        if q in disk { var _ := disk[q]; }
        if q in tree { var _ := tree[q]; }
      } else {
        if r in disk { var _ := disk[r]; }
        if r in tree { var _ := tree[r]; }
      }
    }
  }

  lemma AddTmpMirrors(disk: Tree, tree: Tree, tmp: Path, data: Bytes)
    requires Mirrors(disk, tree) && Ignored(tmp) && tmp !in disk
    requires Parent(tmp) in disk && disk[Parent(tmp)] == Folder
    ensures Mirrors(disk[tmp := Regular(data)], tree)
  {
    PutKeepsClosed(disk, tmp, Regular(data));
  }
}
