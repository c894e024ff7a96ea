/** The part of a file system the client relies on: a finite tree of folders and regular
    files addressed by slash-separated relative paths, and the calls of Go's `os` package
    that the synchroniser and the vault make on it. The calls are pure functions from the
    tree before to the tree after; `None` is an error return that left the tree alone. */
module FileSystem {
  type Byte = x: int | 0 <= x < 256
  type Bytes = seq<Byte>

  /** A relative path, one string per component; the root is the empty sequence. */
  type Path = seq<string>

  datatype Option<+T> = None | Some(value: T)

  datatype Node = Folder | Regular(data: Bytes)

  type Tree = map<Path, Node>

  predicate Within(dir: Path, p: Path) {
    |dir| <= |p| && p[..|dir|] == dir
  }

  function Parent(p: Path): Path
    requires p != []
  {
    p[..|p| - 1]
  }

  /** filepath.Dir, which stops at the root. */
  function Above(p: Path): Path {
    if p == [] then [] else Parent(p)
  }

  function Base(p: Path): string
    requires p != []
  {
    p[|p| - 1]
  }

  /** Every entry except the root sits in a folder of the tree. */
  ghost predicate Closed(t: Tree) {
    && [] in t && t[[]] == Folder
    && forall p {:trigger Parent(p)} :: p in t && p != [] ==> Parent(p) in t && t[Parent(p)] == Folder
  }

  // ---------- os calls ----------

  /** os.MkdirAll: an existing folder is a success, a file in the way an error. */
  function MkdirAll(t: Tree, p: Path): Option<Tree>
    decreases |p|
  {
    if p in t then (if t[p] == Folder then Some(t) else None)
    else if p == [] then Some(t[p := Folder])
    else match MkdirAll(t, Parent(p))
      case None => None
      case Some(u) => Some(u[p := Folder])
  }

  /** os.RemoveAll: removes the entry and everything below it; an absent path is no error. */
  function RemoveAll(t: Tree, p: Path): Tree {
    map q | q in t && !Within(p, q) :: t[q]
  }

  /** What an interrupted os.RemoveAll(p) can leave behind: entries of `spared` all of whose
      ancestors from `p` down are spared too, since children are removed before their folder. */
  function RemoveSome(t: Tree, p: Path, spared: set<Path>): Tree {
    map q | q in t && (!Within(p, q) || forall k | |p| <= k <= |q| :: q[..k] in spared) :: t[q]
  }

  /** The path an entry at `q` has after the subtree at `o` became the subtree at `n`. */
  function MovePath(q: Path, o: Path, n: Path): Path {
    if Within(o, q) then n + q[|o|..] else q
  }

  /** The tree after the subtree at `o` replaced whatever was at `n`. */
  function Moved(t: Tree, o: Path, n: Path): (m: Tree)
    ensures forall r {:trigger r in m} :: r in m <==>
                  if Within(n, r) then o + r[|n|..] in t else !Within(o, r) && r in t
    ensures forall r {:trigger m[r]} :: r in m ==>
                  m[r] == if Within(n, r) then t[o + r[|n|..]] else t[r]
  {
    var kept := set q | q in t && !Within(o, q) && !Within(n, q);
    var came := set q | q in t && Within(o, q) :: n + q[|o|..];
    assert forall r {:trigger r in came} :: r in came <==> Within(n, r) && o + r[|n|..] in t by {
      forall r
        ensures r in came <==> Within(n, r) && o + r[|n|..] in t
      {
        if r in came {
          var q :| q in t && Within(o, q) && r == n + q[|o|..];
          assert o + r[|n|..] == q;
        }
        if Within(n, r) && o + r[|n|..] in t {
          var q := o + r[|n|..];
          assert Within(o, q) && n + q[|o|..] == r;
        }
      }
    }
    map r | r in kept + came :: if Within(n, r) then t[o + r[|n|..]] else t[r]
  }

  predicate HasChild(t: Tree, p: Path) {
    exists q :: q in t && q != p && Within(p, q)
  }

  /** os.Rename with the rules of rename(2): the new parent must be a folder, a folder may
      replace an empty folder only and never moves below itself, a file may replace a file. */
  function Rename(t: Tree, o: Path, n: Path): Option<Tree> {
    if o !in t || o == [] || n == [] then None
    else if Parent(n) !in t || t[Parent(n)] != Folder then None
    else if o == n then Some(t)
    else if t[o] == Folder then
      if Within(o, n) || (n in t && (t[n] != Folder || HasChild(t, n))) then None
      else Some(Moved(t, o, n))
    else if n in t && t[n] == Folder then None
    else Some(Moved(t, o, n))
  }

  /** os.WriteFile / os.Create followed by a complete write. */
  function WriteFile(t: Tree, p: Path, data: Bytes): Option<Tree> {
    if p == [] || Parent(p) !in t || t[Parent(p)] != Folder then None
    else if p in t && t[p] == Folder then None
    else Some(t[p := Regular(data)])
  }

  /** os.ReadDir: the names directly below a folder. */
  function ReadDir(t: Tree, p: Path): set<string> {
    set q | q in t && q != [] && Parent(q) == p :: Base(q)
  }

  // ---------- paths ----------

  lemma WithinTransitive(a: Path, b: Path, c: Path)
    requires Within(a, b) && Within(b, c)
    ensures Within(a, c)
  {
    assert c[..|a|] == c[..|b|][..|a|];
  }

  lemma WithinParent(a: Path, p: Path)
    requires p != []
    ensures Within(Parent(p), p)
    ensures a != p ==> (Within(a, p) <==> Within(a, Parent(p)))
  {
    if |a| < |p| {
      assert p[..|a|] == Parent(p)[..|a|];
    }
    if Within(a, p) && |a| == |p| {
      assert p[..|a|] == p;
    }
  }

  lemma ParentOfChild(p: Path, name: string)
    ensures Parent(p + [name]) == p && Base(p + [name]) == name
    ensures Within(p, p + [name]) && p + [name] != p
  {
    assert (p + [name])[..|p|] == p;
  }

  lemma RejoinParent(p: Path)
    requires p != []
    ensures Parent(p) + [Base(p)] == p
  {
  }

  lemma ReadDirIs(t: Tree, p: Path, name: string)
    ensures name in ReadDir(t, p) <==> p + [name] in t
  {
    ParentOfChild(p, name);
    if name in ReadDir(t, p) {
      var q :| q in t && q != [] && Parent(q) == p && Base(q) == name;
      RejoinParent(q);
    }
  }

  /** Some length no name of these paths reaches. */
  lemma LongestBase(x: set<Path>) returns (n: nat)
    ensures forall p {:trigger p in x} :: p in x && p != [] ==> |Base(p)| < n
    decreases |x|
  {
    if x == {} { return 0; }
    var p :| p in x;
    var rest := x - {p};
    n := LongestBase(rest);
    if p != [] && |Base(p)| >= n { n := |Base(p)| + 1; }
    assert forall q :: q in x ==> q == p || q in rest;
  }

  // ---------- closed trees ----------

  /** In a closed tree every path above an entry is a folder of the tree. */
  lemma {:induction false} AncestorsAreFolders(t: Tree, dir: Path, p: Path)
    requires Closed(t) && p in t && Within(dir, p)
    ensures dir in t && (dir != p ==> t[dir] == Folder)
    decreases |p|
  {
    if dir != p {
      WithinParent(dir, p);
      AncestorsAreFolders(t, dir, Parent(p));
    }
  }

  lemma NothingBelowAbsent(t: Tree, dir: Path, p: Path)
    requires Closed(t) && dir !in t && Within(dir, p)
    ensures p !in t
  {
    if p in t {
      AncestorsAreFolders(t, dir, p);
    }
  }

  lemma NothingBelowFile(t: Tree, file: Path, p: Path)
    requires Closed(t) && p in t && Within(file, p)
    requires file in t && t[file] != Folder
    ensures p == file
  {
    AncestorsAreFolders(t, file, p);
  }

  lemma PutKeepsClosed(t: Tree, p: Path, node: Node)
    requires Closed(t) && p != [] && Parent(p) in t && t[Parent(p)] == Folder
    requires p in t ==> t[p].Folder? == node.Folder?
    ensures Closed(t[p := node])
  {
    var u := t[p := node];
    forall q {:trigger Parent(q)} | q in u && q != []
      ensures Parent(q) in u && u[Parent(q)] == Folder
    {
      if q != p && Parent(q) == p {
        assert q in t;
        assert p in t && t[p] == Folder;
      }
    }
  }

  lemma RemoveKeepsClosed(t: Tree, p: Path)
    requires Closed(t) && p != []
    ensures Closed(RemoveAll(t, p))
  {
    var u := RemoveAll(t, p);
    forall q {:trigger Parent(q)} | q in u && q != []
      ensures Parent(q) in u && u[Parent(q)] == Folder
    {
      WithinParent(p, q);
    }
  }

  lemma RemoveSomeKeepsClosed(t: Tree, p: Path, spared: set<Path>)
    requires Closed(t) && p != []
    ensures Closed(RemoveSome(t, p, spared))
  {
    var u := RemoveSome(t, p, spared);
    forall q {:trigger Parent(q)} | q in u && q != []
      ensures Parent(q) in u && u[Parent(q)] == Folder
    {
      WithinParent(p, q);
      if Within(p, Parent(q)) {
        forall k | |p| <= k <= |Parent(q)|
          ensures Parent(q)[..k] in spared
        {
          assert Parent(q)[..k] == q[..k];
        }
      }
    }
  }

  lemma ParentOfTail(o: Path, r: Path, k: nat)
    requires k < |r|
    ensures Parent(o + r[k..]) == o + Parent(r)[k..]
  {
    var x := r[k..];
    assert o + x == o + x[..|x| - 1] + [x[|x| - 1]];
    assert x[..|x| - 1] == r[..|r| - 1][k..];
  }

  lemma MoveKeepsClosed(t: Tree, o: Path, n: Path)
    requires Closed(t) && o in t && o != [] && n != []
    requires Parent(n) in t && t[Parent(n)] == Folder && !Within(o, n)
    requires n in t ==> !HasChild(t, n)
    ensures Closed(Moved(t, o, n))
  {
    var m := Moved(t, o, n);
    assert !Within(n, o) by {
      if Within(n, o) {
        AncestorsAreFolders(t, n, o);
      }
    }
    forall r {:trigger Parent(r)} | r in m && r != []
      ensures Parent(r) in m && m[Parent(r)] == Folder
    {
      WithinParent(n, r);
      WithinParent(o, r);
      if Within(n, r) && r != n {
        var q := o + r[|n|..];
        assert |r| > |n|;
        ParentOfTail(o, r, |n|);
      } else if r == n {
        assert !Within(n, Parent(n));
        WithinParent(o, n);
      } else {
        assert r in t;
        if Within(o, Parent(r)) {
          WithinTransitive(o, Parent(r), r);
        }
      }
    }
    assert !Within(n, []) && !Within(o, []);
  }

  lemma RenameKeepsClosed(t: Tree, o: Path, n: Path)
    requires Closed(t) && Rename(t, o, n).Some?
    ensures Closed(Rename(t, o, n).value)
  {
    if o != n {
      if t[o] != Folder {
        if Within(o, n) {
          AncestorsAreFolders(t, o, Parent(n)) by { WithinParent(o, n); }
        }
        if n in t && HasChild(t, n) {
          var q :| q in t && q != n && Within(n, q);
          AncestorsAreFolders(t, n, q);
        }
      }
      MoveKeepsClosed(t, o, n);
    }
  }

  lemma {:induction false} MkdirAllKeepsClosed(t: Tree, p: Path)
    requires Closed(t) && MkdirAll(t, p).Some?
    ensures var u := MkdirAll(t, p).value;
            && Closed(u) && p in u && u[p] == Folder
            && (forall q {:trigger q in u} :: q in u ==> q in t || (Within(q, p) && u[q] == Folder))
            && (forall q {:trigger q in t} :: q in t ==> q in u && u[q] == t[q])
    decreases |p|
  {
    if p !in t {
      MkdirAllKeepsClosed(t, Parent(p));
      var v := MkdirAll(t, Parent(p)).value;
      assert p !in v by {
        if p in v { WithinParent(p, p); }
      }
      PutKeepsClosed(v, p, Folder);
      var u := v[p := Folder];
      forall q | q in u
        ensures q in t || (Within(q, p) && u[q] == Folder)
      {
        if q != p && q !in t { WithinParent(p, p); WithinTransitive(q, Parent(p), p); }
      }
    }
  }

  /** Renaming a new file over another file, or into a free place, just puts it there. */
  lemma PublishIs(t: Tree, tmp: Path, p: Path, data: Bytes)
    requires Closed(t) && tmp in t && t[tmp] == Regular(data)
    requires Rename(t, tmp, p).Some?
    ensures Rename(t, tmp, p) == Some((t - {tmp})[p := Regular(data)])
  {
    var want := (t - {tmp})[p := Regular(data)];
    if tmp == p {
      assert want == t;
      return;
    }
    var m := Moved(t, tmp, p);
    forall r
      ensures r in m <==> r in want
      ensures r in m ==> m[r] == want[r]
    {
      if Within(p, r) {
        var q := tmp + r[|p|..];
        if q in t {
          NothingBelowFile(t, tmp, q);
          assert r == p;
        }
        if p in t {
          if r in t { NothingBelowFile(t, p, r); }
        } else {
          NothingBelowAbsent(t, p, r);
        }
        if r == p {
          assert q == tmp;
        }
      } else if r in t && Within(tmp, r) {
        NothingBelowFile(t, tmp, r);
      }
    }
    assert m == want;
  }

  lemma RemoveFileIs(t: Tree, p: Path)
    requires Closed(t) && p in t && t[p] != Folder
    ensures RemoveAll(t, p) == t - {p}
  {
    forall q | q in t && Within(p, q)
      ensures q == p
    {
      NothingBelowFile(t, p, q);
    }
  }
}
