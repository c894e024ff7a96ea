/** vaultmgr.go: one vault being opened into a plaintext folder and closed again. */
module VaultManager {
  import opened FileSystem
  import opened Crypto
  import opened Names
  import opened VaultStore
  import opened VaultIO
  import opened EncryptTree
  import opened DecryptTree

  datatype Outcome = Done | Locked | NotOpen | Failed

  /** The folder is absent, or a proper tree. */
  ghost predicate FolderOk(t: Tree) {
    t == map[] || Closed(t)
  }

  class Manager {
    /** The vault's folder, and the plaintext folder; the latter's root is the folder itself. */
    const io: Store
    const files: Store
    const uuids: Uuids
    var unlocked: Option<Vault>

    constructor (io: Store, files: Store, uuids: Uuids)
      ensures this.io == io && this.files == files && this.uuids == uuids && unlocked == None
    {
      this.io, this.files, this.uuids, unlocked := io, files, uuids, None;
    }

    ghost predicate Valid()
      reads this, io, files, uuids
    {
      && io != files && Closed(io.tree) && FolderOk(files.tree) && "" in uuids.issued
      && (unlocked.Some? ==> Sound(unlocked.value))
    }

    /** openUnlocked: what the vault represents is unpacked into the plaintext folder, over what an
        earlier opening has left there, and the keys are kept only once that is done. Whatever the
        vault, it is opened only if no entry reached is broken and every content is authentic, and
        nothing else gets into the plaintext (so a vault with one damaged content is never opened,
        DecryptTree.DamagedIsNotIntact). A vault that represents a tree goes through exactly when
        no file meets a folder. `limit` is the depth the plaintext's file
        system can hold. */
    method OpenUnlocked(v: Vault, limit: nat, ghost rep: Option<Rep>) returns (outcome: Outcome)
      requires Valid() && Sound(v)
      requires rep.Some? ==> Represents(v, io.tree, rep.value.plain, rep.value.ids)
      modifies this, files
      ensures Valid()
      ensures outcome == Done ==> unlocked == Some(v) && [] in files.tree
      ensures outcome != Done ==> unlocked == old(unlocked)
      ensures outcome == Done ==>
                if ["d"] in io.tree then Unpacked(v, io.tree, [], "", limit, WithRoot(old(files.tree)), files.tree)
                else files.tree == WithRoot(old(files.tree))
      ensures rep.Some? && outcome == Done ==> Over(old(files.tree), rep.value.plain, files.tree, [])
      ensures rep.Some? && outcome == Done && old(files.tree).Keys <= {[]} ==> files.tree == rep.value.plain
      ensures rep.Some? && Shallow(rep.value.plain, [], limit) && io.reliable && files.reliable ==>
                (outcome == Done <==> NoClash(old(files.tree), rep.value.plain, []))
      ensures rep.Some? && old(files.tree).Keys <= {[]} ==> NoClash(old(files.tree), rep.value.plain, [])
    {
      hide SoundText, SoundSiv, SoundHashes, SoundSeal, Shallow, Over, NoClash, Represents, Unpacked;
      if rep.Some? { RepIsRooted(v, io.tree, files.tree, rep.value); }
      var down := files.Fails();
      if down { return Failed; }
      if [] !in files.tree {
        files.tree := map[[] := Folder];
      }
      if ["d"] !in io.tree {
        // Nothing to decrypt yet.
        if rep.Some? { WithoutStorage(v, io.tree, rep.value); }
        unlocked := Some(v);
        return Done;
      }
      ghost var base := files.tree;
      var ok := DecryptTree.DecryptTree(v, io, files, limit, rep);
      if rep.Some? { RootMakesNoDifference(old(files.tree), base, rep.value.plain, files.tree); }
      if !ok { return Failed; }
      unlocked := Some(v);
      outcome := Done;
    }

    /** Close. Wherever it stops, either the plaintext is whole or the vault represents all of
        it and the plaintext has a part of it; as long as the plaintext is whole the keys are kept,
        so that Close can be tried again; nothing outside `d` is touched in the vault. */
    method Close() returns (outcome: Outcome, ghost ids: Ids)
      requires Valid()
      modifies this, io, files, uuids
      ensures Valid()
      ensures unlocked == if outcome == Done then None else old(unlocked)
      ensures old(unlocked).None? ==> outcome == Locked
      ensures outcome == Locked || outcome == NotOpen ==> files.tree == old(files.tree) && io.tree == old(io.tree)
      ensures old(unlocked).Some? ==>
                files.tree == old(files.tree) || Represents(old(unlocked).value, io.tree, old(files.tree), ids)
      ensures old(unlocked).Some? && outcome == Failed ==> WipedTo(old(files.tree), files.tree)
      ensures old(unlocked).Some? ==> (outcome == NotOpen <==> [] !in old(files.tree))
      ensures old(unlocked).Some? && outcome == Done ==>
                files.tree == map[] && Represents(old(unlocked).value, io.tree, old(files.tree), ids)
      ensures SameExcept(old(io.tree), io.tree, ["d"])
      ensures old(unlocked).Some? && [] in old(files.tree) && io.reliable && files.reliable ==> outcome == Done
    {
      hide SoundText, SoundSiv, SoundHashes, SoundSeal, Represents, WipedTo;
      ids := map[];
      NothingWiped(files.tree);
      if unlocked == None { return Locked, ids; }
      var v := unlocked.value;
      if [] !in files.tree { return NotOpen, ids; }
      ghost var t0 := io.tree;
      var ok := io.Remove(["d"]);
      if !ok { return Failed, ids; }
      assert Within(["d"], ["d"]);
      ghost var t1 := io.tree;
      ok, ids := EncryptTree.EncryptTree(v, io, uuids, files.tree);
      SameExceptChain(t0, t1, io.tree, ["d"]);
      if !ok { return Failed, ids; }
      // Only now the plaintext goes, and that too may stop half-way.
      var down := files.Fails();
      if down {
        var spared: set<Path> := *;
        PartlyWiped(files.tree, spared);
        files.tree := RemoveSome(files.tree, [], spared);
        return Failed, ids;
      }
      files.tree := map[];
      unlocked := None;
      outcome := Done;
    }

    /** Close, in a state that a Close whose wipe stopped half-way has left: the vault represents
        all that was there, and the plaintext folder has a part of it. What the first attempt has
        encrypted is replaced by that part; so all that was there is still there if and only if
        the wipe had removed nothing. If the wipe got as far as the folder itself nothing happens. */
    method CloseAgain(ghost whole: Tree, ghost ids0: Ids) returns (outcome: Outcome, ghost ids: Ids)
      requires Valid() && unlocked.Some? && WipedTo(whole, files.tree)
      requires Represents(unlocked.value, io.tree, whole, ids0)
      modifies this, io, files, uuids
      ensures Valid()
      ensures outcome == NotOpen <==> [] !in old(files.tree)
      ensures outcome == NotOpen ==> unlocked == old(unlocked) && Represents(old(unlocked).value, io.tree, whole, ids0)
      ensures outcome == Done ==>
                files.tree == map[] && unlocked == None
                    && Represents(old(unlocked).value, io.tree, old(files.tree), ids)
      ensures outcome == Done ==> (KeptIn(old(unlocked).value, io.tree, whole) <==> old(files.tree) == whole)
      ensures [] in old(files.tree) && io.reliable && files.reliable ==> outcome == Done
    {
      hide SoundText, SoundSiv, SoundHashes, SoundSeal, Represents, KeptIn, WipedTo;
      ghost var v, left := unlocked.value, files.tree;
      outcome, ids := Close();
      if outcome == Done { KeptIff(v, io.tree, left, ids, whole); }
    }

    /** Closing and opening again gives back what was there. */
    method CloseAndReopen(limit: nat) returns (outcome: Outcome)
      requires Valid() && unlocked.Some? && [] in files.tree
      modifies this, io, files, uuids
      ensures Valid()
      ensures outcome == Done ==> files.tree == old(files.tree) && unlocked == old(unlocked)
      ensures Shallow(old(files.tree), [], limit) && io.reliable && files.reliable ==> outcome == Done
    {
      hide SoundText, SoundSiv, SoundHashes, SoundSeal, Shallow, Represents;
      var v := unlocked.value;
      ghost var plain := files.tree;
      ghost var ids;
      outcome, ids := Close();
      if outcome != Done { return; }
      outcome := OpenUnlocked(v, limit, Some(Rep(plain, ids)));
    }
  }

  /** What removing a folder can leave of it when it stops half-way. */
  ghost predicate WipedTo(t: Tree, left: Tree) {
    exists spared :: left == RemoveSome(t, [], spared)
  }

  lemma NothingWiped(t: Tree)
    ensures WipedTo(t, t)
  {
    var spared := set p, k | p in t && 0 <= k <= |p| :: p[..k];
    assert RemoveSome(t, [], spared) == t;
  }

  function WithRoot(t: Tree): Tree {
    if [] in t then t else map[[] := Folder]
  }

  /** The vault represents this tree. */
  ghost predicate KeptIn(v: Vault, store: Tree, plain: Tree)
    requires Sound(v)
  {
    exists ids :: Represents(v, store, plain, ids)
  }

  lemma KeptIff(v: Vault, store: Tree, left: Tree, ids: Ids, plain: Tree)
    requires Sound(v) && Represents(v, store, left, ids)
    ensures KeptIn(v, store, plain) <==> left == plain
  {
    hide Represents, SoundText, SoundSiv, SoundHashes, SoundSeal;
    if KeptIn(v, store, plain) {
      var ids' :| Represents(v, store, plain, ids');
      RepresentsOne(v, store, left, ids, plain, ids');
    }
  }

  lemma PartlyWiped(t: Tree, spared: set<Path>)
    requires Closed(t)
    ensures FolderOk(RemoveSome(t, [], spared)) && WipedTo(t, RemoveSome(t, [], spared))
  {
    var u := RemoveSome(t, [], spared);
    if [] in spared {
      forall q {:trigger Parent(q)} | q in u && q != []
        ensures Parent(q) in u && u[Parent(q)] == Folder
      {
        forall k | 0 <= k <= |Parent(q)|
          ensures Parent(q)[..k] in spared
        {
          assert Parent(q)[..k] == q[..k];
        }
      }
      var root: Path := [];
      assert forall k | 0 <= k <= |root| :: root[..k] in spared;
    } else {
      forall q: Path
        ensures q !in u
      {
        assert q[..0] == [] && q[..0] !in spared;
      }
      assert u == map[];
    }
  }

  lemma RepIsRooted(v: Vault, store: Tree, files: Tree, rep: Rep)
    requires Sound(v) && Represents(v, store, rep.plain, rep.ids) && FolderOk(files)
    ensures [] in rep.plain && rep.plain[[]] == Folder && ([] in files ==> files[[]] == Folder)
    ensures files.Keys <= {[]} ==> NoClash(files, rep.plain, [])
  {
  }

  /** Whether the root of the output was there or has just been made. */
  lemma RootMakesNoDifference(t: Tree, base: Tree, plain: Tree, out: Tree)
    requires FolderOk(t) && [] in plain && plain[[]] == Folder && base == if [] in t then t else map[[] := Folder]
    ensures Over(base, plain, out, []) ==> Over(t, plain, out, [])
    ensures NoClash(t, plain, []) <==> NoClash(base, plain, [])
  {
  }

  /** A vault that represents a tree has a `d` folder. */
  lemma WithoutStorage(v: Vault, store: Tree, rep: Rep)
    requires Sound(v) && Represents(v, store, rep.plain, rep.ids)
    ensures ["d"] in store
  {
    var s := DirIdHash(v, rep.ids[[]]);
    assert FolderAt(store, s) && Within(["d"], s);
    AncestorsAreFolders(store, ["d"], s);
  }
}
