/** The vault's folder as its source and sink, and the steps that write one entry. */
module VaultIO {
  import opened FileSystem
  import opened Crypto
  import opened Names
  import opened Content
  import opened VaultStore

  /** Random directory ids: none is ever drawn twice. */
  class Uuids {
    var issued: set<string>

    constructor (issued: set<string>)
      ensures this.issued == issued
    {
      this.issued := issued;
    }

    method New() returns (id: string)
      modifies this
      ensures id !in old(issued) && issued == old(issued) + {id}
    {
      id := *;
      if id in issued { id := Unused(issued); }
      issued := issued + {id};
    }

    static method Unused(ids: set<string>) returns (id: string)
      ensures id !in ids
    {
      var rest := ids;
      id := "";
      while rest != {}
        invariant rest <= ids
        invariant forall x :: x in ids && x !in rest ==> |x| < |id|
        decreases |rest|
      {
        var x :| x in rest;
        if |x| >= |id| { id := x + "0"; }
        rest := rest - {x};
      }
    }
  }

  method DrawRandom() returns (r: Random)
    ensures RandomOk(r)
  {
    var headerNonce: Bytes, contentKey: Bytes, f: nat -> Bytes := *, *, *;
    var zeros12, zeros32 := seq(12, _ => 0), seq(32, _ => 0);
    r := Random(if |headerNonce| == 12 then headerNonce else zeros12,
                if |contentKey| == 32 then contentKey else zeros32,
                i => if |f(i)| == 12 then f(i) else zeros12);
  }

  /** EncryptContent over a reader in memory. */
  method EncryptBytes(v: Vault, plain: Bytes) returns (ct: Bytes)
    requires Sound(v)
    ensures Plaintext(v, ct) == Some(plain)
  {
    hide Plaintext, Ciphertext;
    var r := DrawRandom();
    var dst := new Writer();
    var src := new Reader(plain, true);
    assert src.Rest() == plain;
    var ok := EncryptContent(v, dst, src, r);
    ContentRoundTrip(v, r, plain);
    assert [] + Ciphertext(v, r, plain) == Ciphertext(v, r, plain);
    ct := dst.data;
  }

  class Store {
    /** Calls on a reliable store fail only for reasons that lie in the tree. */
    const reliable: bool
    var tree: Tree

    constructor (tree: Tree, reliable: bool)
      ensures this.tree == tree && this.reliable == reliable
    {
      this.tree, this.reliable := tree, reliable;
    }

    method Fails() returns (b: bool)
      ensures reliable ==> !b
    {
      b := *;
      b := b && !reliable;
    }

    method MakeDir(p: Path) returns (ok: bool)
      requires Closed(tree)
      modifies this
      ensures Closed(tree)
      ensures ok ==> MkdirAll(old(tree), p) == Some(tree)
      ensures !ok ==> tree == old(tree) && (reliable ==> MkdirAll(old(tree), p) == None)
    {
      var down := Fails();
      if down { return false; }
      match MkdirAll(tree, p) {
        case None => return false;
        case Some(t) =>
          MkdirAllKeepsClosed(tree, p);
          tree := t;
      }
      ok := true;
    }

    /** Creates the folder above if need be; a failed write may leave a part of the data. */
    method WriteFile(p: Path, data: Bytes) returns (ok: bool)
      requires Closed(tree) && p != []
      modifies this
      ensures Closed(tree)
      ensures ok ==> FileAt(tree, p, data)
      ensures FolderAt(old(tree), Parent(p)) ==> SameExcept(old(tree), tree, p)
      ensures FolderAt(old(tree), Parent(p)) && !FolderAt(old(tree), p) && reliable ==> ok
      ensures FolderAt(old(tree), p) ==> !ok && tree == old(tree)
      ensures FolderAt(old(tree), Parent(p)) && !FolderAt(old(tree), p) ==>
                forall q {:trigger q in tree} :: q in tree && Within(p, q) ==> q == p
    {
      ghost var before := tree;
      if FolderAt(before, p) { AncestorsAreFolders(before, Parent(p), p) by { WithinParent(p, p); } }
      ok := MakeDir(Parent(p));
      if !ok {
        assert FolderAt(before, Parent(p)) && !FolderAt(before, p) ==> !reliable;
        NothingBelowPut(before, p);
        return;
      }
      if FolderAt(before, Parent(p)) { assert MkdirAll(before, Parent(p)) == Some(before); }
      NothingBelowPut(before, p);
      if FileSystem.WriteFile(tree, p, data) == None { return false; }
      MkdirAllMakes(before, Parent(p));
      assert p in tree ==> tree[p] != Folder;
      var down := Fails();
      if down {
        var part: Bytes := *;
        PutKeepsClosed(tree, p, Regular(part));
        tree := tree[p := Regular(part)];
        return false;
      }
      PutKeepsClosed(tree, p, Regular(data));
      tree := tree[p := Regular(data)];
    }

    method ReadFile(p: Path) returns (data: Option<Bytes>)
      ensures data.Some? ==> FileAt(tree, p, data.value)
      ensures reliable && p in tree && tree[p].Regular? ==> data == Some(tree[p].data)
    {
      var down := Fails();
      if down || p !in tree || tree[p] == Folder { return None; }
      data := Some(tree[p].data);
    }

    method ListDir(p: Path) returns (names: Option<set<string>>)
      ensures names.Some? ==> FolderAt(tree, p) && names.value == ReadDir(tree, p)
      ensures reliable && FolderAt(tree, p) ==> names.Some?
    {
      var down := Fails();
      if down || p !in tree || tree[p] != Folder { return None; }
      names := Some(ReadDir(tree, p));
    }

    /** os.RemoveAll, which may stop half-way. */
    method Remove(p: Path) returns (ok: bool)
      requires Closed(tree) && p != []
      modifies this
      ensures Closed(tree) && SameExcept(old(tree), tree, p)
      ensures ok ==> tree == RemoveAll(old(tree), p)
      ensures reliable ==> ok
    {
      var down := Fails();
      if down {
        var spared: set<Path> := *;
        RemoveSomeKeepsClosed(tree, p, spared);
        tree := RemoveSome(tree, p, spared);
        return false;
      }
      RemoveKeepsClosed(tree, p);
      tree := RemoveAll(tree, p);
      ok := true;
    }
  }

  lemma NothingBelowPut(t: Tree, p: Path)
    requires Closed(t)
    ensures !FolderAt(t, p) ==> forall q {:trigger q in t} :: q in t && Within(p, q) ==> q == p
  {
    if !FolderAt(t, p) {
      forall q | q in t && Within(p, q)
        ensures q == p
      {
        AncestorsAreFolders(t, p, q);
      }
    }
  }

  lemma MkdirAllMakes(t: Tree, p: Path)
    requires Closed(t) && MkdirAll(t, p).Some?
    ensures FolderAt(MkdirAll(t, p).value, p)
  {
    MkdirAllKeepsClosed(t, p);
  }
}
