/** Any sequence of the lazy operations on one vault, seen as a plain tree being edited. */
module LazySession {
  import opened FileSystem
  import opened Crypto
  import opened Names
  import opened VaultStore
  import opened VaultIO
  import opened VaultEntries
  import opened EncryptTree
  import opened DecryptTree
  import opened Lazy

  class Session {
    const v: Vault
    const io: Store
    const uuids: Uuids
    /** The plain tree the vault stands for, and the directory ids of its folders. */
    ghost var plain: Tree
    ghost var ids: Ids

    ghost predicate Valid()
      reads this, io, uuids
    {
      && Sound(v) && Represents(v, io.tree, plain, ids)
      && OnlyIssued(v, io.tree, uuids.issued) && ids.Values <= uuids.issued && OnlyFoldersAbove(io.tree)
    }

    constructor (v: Vault, io: Store, uuids: Uuids, ghost plain: Tree, ghost ids: Ids)
      requires Sound(v) && Represents(v, io.tree, plain, ids)
      requires OnlyIssued(v, io.tree, uuids.issued) && ids.Values <= uuids.issued && OnlyFoldersAbove(io.tree)
      ensures Valid() && this.v == v && this.io == io && this.uuids == uuids && this.plain == plain && this.ids == ids
    {
      this.v, this.io, this.uuids, this.plain, this.ids := v, io, uuids, plain, ids;
    }

    /** WriteFile puts the file into the plain tree, unless the name is a folder's. On a reliable
        store a refused call leaves everything in order, so that any sequence of calls can go on;
        the same holds for the other operations. */
    method Write(parentID: string, name: string, data: Bytes, ghost p: Path) returns (ok: bool)
      requires Valid() && p in ids && ids[p] == parentID
      modifies this`plain, io
      ensures ok ==> Valid()
      ensures ok ==> plain == if FolderAt(old(plain), p + [name]) then old(plain)
                else old(plain)[p + [name] := Regular(data)]
      ensures io.reliable && !FolderAt(old(plain), p + [name]) ==> ok
      ensures io.reliable && !ok ==> Valid() && plain == old(plain)
    {
      hide Represents, OnlyIssued, OnlyFoldersAbove, Sound, OthersSame, SameExcept, DirIdHash, EncryptName;
      ghost var t := io.tree;
      ok := Lazy.WriteFile(v, io, parentID, name, data, plain, ids, p);
      KeptInOrder(v, t, io.tree, parentID, name, ids, uuids.issued);
      if ok && !FolderAt(plain, p + [name]) { plain := plain[p + [name] := Regular(data)]; }
    }

    /** MakeDir puts an empty folder in the place of whatever had the name; the new folder's id is
        one that no folder has or had. */
    method MakeDir(parentID: string, name: string, ghost p: Path) returns (ok: bool, subID: string)
      requires Valid() && p in ids && ids[p] == parentID
      modifies this`plain, this`ids, io, uuids
      ensures ok ==> Valid() && p + [name] in ids && ids[p + [name]] == subID && subID !in old(ids).Values
      ensures ok ==> plain == Replaced(old(plain), p + [name])
      ensures io.reliable && !BlockedByFile(v, old(plain), p, name, parentID) ==> ok
      ensures io.reliable && !ok ==> Valid() && plain == old(plain) && ids == old(ids)
    {
      hide Represents, OnlyIssued, OnlyFoldersAbove, Sound, OthersSame, DirIdHash, EncryptName, Replaced,
           BlockedByFile;
      ok, subID := Lazy.MakeDir(v, io, uuids, parentID, name, plain, ids, p);
      if ok {
        FewerIssued(ids, p + [name], subID, uuids.issued);
        plain := Replaced(plain, p + [name]);
        ids := WithoutBelow(ids, p + [name])[p + [name] := subID];
      }
    }

    /** Remove takes the name and all below it out of the plain tree. */
    method Remove(parentID: string, name: string, ghost p: Path) returns (ok: bool)
      requires Valid() && p in ids && ids[p] == parentID
      modifies this`plain, this`ids, io
      ensures ok ==> Valid() && plain == RemoveAll(old(plain), p + [name]) && ids == WithoutBelow(old(ids), p + [name])
      ensures io.reliable ==> ok
    {
      hide Represents, OnlyIssued, OnlyFoldersAbove, Sound, OthersSame, SameExcept, DirIdHash, EncryptName;
      ghost var t := io.tree;
      ok := Lazy.Remove(v, io, parentID, name, plain, ids, p);
      KeptInOrder(v, t, io.tree, parentID, name, ids, uuids.issued);
      if ok {
        StillIssued(ids, p + [name], uuids.issued);
        plain, ids := RemoveAll(plain, p + [name]), WithoutBelow(ids, p + [name]);
      }
    }

    /** ListDir names exactly the children of the plain folder. */
    method List(dirID: string, ghost p: Path) returns (ok: bool, out: seq<VEntry>)
      requires Valid() && p in ids && ids[p] == dirID
      ensures ok ==> ListsExactly(v, io.tree, plain, ids, p, out)
      ensures io.reliable ==> ok
    {
      ghost var from;
      ok, out, from := Lazy.ListDir(v, io, dirID, Some(Rep(plain, ids)), p);
    }

    /** ReadFile of a listed file gives the bytes the plain tree has there. */
    method Read(entry: VEntry, ghost p: Path) returns (data: Option<Bytes>)
      requires Valid() && entry.VFile? && ListsChild(v, io.tree, plain, ids, p, entry)
      ensures data.Some? ==> plain[p + [entry.name]] == Regular(data.value)
      ensures io.reliable ==> data.Some?
    {
      data := Lazy.ReadFile(v, io, entry.storagePath);
      assert Encrypts(v, io.tree, entry.storagePath, plain[p + [entry.name]].data);
    }
  }

  /** Writing to one entry disturbs neither the folders above the storage nor unused ids. */
  lemma KeptInOrder(v: Vault, t: Tree, u: Tree, dirID: string, name: string, ids: Ids, issued: set<string>)
    requires Sound(v) && OnlyIssued(v, t, issued) && OnlyFoldersAbove(t) && dirID in ids.Values && ids.Values <= issued
    requires OthersSame(v, t, u, {dirID}) && SameExcept(t, u, DirIdHash(v, dirID) + [EntryOf(v, dirID, name)])
    ensures OnlyIssued(v, u, issued) && OnlyFoldersAbove(u)
  {
    StillOnlyIssued(v, t, u, issued, {dirID});
    EntryIsDeep(v, t, u, dirID, EntryOf(v, dirID, name));
  }

  lemma StillIssued(ids: Ids, q: Path, issued: set<string>)
    requires ids.Values <= issued
    ensures WithoutBelow(ids, q).Values <= issued
  {
    forall id | id in WithoutBelow(ids, q).Values
      ensures id in issued
    {
      var r :| r in WithoutBelow(ids, q) && WithoutBelow(ids, q)[r] == id;
      assert ids[r] in ids.Values;
    }
  }

  lemma FewerIssued(ids: Ids, q: Path, subID: string, issued: set<string>)
    requires ids.Values <= issued && subID in issued
    ensures WithoutBelow(ids, q)[q := subID].Values <= issued
  {
    StillIssued(ids, q, issued);
    var m := WithoutBelow(ids, q)[q := subID];
    forall id | id in m.Values
      ensures id in issued
    {
      var r :| r in m && m[r] == id;
      if r != q { assert WithoutBelow(ids, q)[r] in WithoutBelow(ids, q).Values; }
    }
  }
}
