/** lazy.go: working in the flattened store entry by entry, without unpacking it. */
module Lazy {
  import opened FileSystem
  import opened Crypto
  import opened Names
  import opened Content
  import opened VaultStore
  import opened VaultIO
  import opened VaultEntries
  import opened EncryptTree
  import opened DecryptTree

  /** VEntry. */
  datatype VEntry = VFolder(name: string, dirID: string) | VFile(name: string, storagePath: Path)

  // ---------- folders whose children have not changed ----------

  ghost predicate SameChildren(a: Tree, b: Tree, p: Path) {
    forall name {:trigger p + [name]} :: (p + [name] in a <==> p + [name] in b)
        && (p + [name] in a ==> a[p + [name]] == b[p + [name]])
  }

  lemma DirUnderNewPlain(v: Vault, t: Tree, u: Tree, plain: Tree, plain': Tree, ids: Ids, ids': Ids, p: Path,
                         dirID: string)
    requires Sound(v) && DirStored(v, t, plain, ids, p, dirID) && SameWithin(t, u, DirIdHash(v, dirID))
    requires SameChildren(plain, plain', p)
    requires forall q {:trigger q in ids} :: q in ids && q != [] && Parent(q) == p ==> q in ids' && ids'[q] == ids[q]
    ensures DirStored(v, u, plain', ids', p, dirID)
  {
    hide SoundText, SoundSiv, SoundHashes, SoundSeal, DirIdHash, EncryptName, EntryOf, EntryHolds, SameWithin;
    DirFrame(v, t, u, plain, ids, ids', p, dirID);
    var s := DirIdHash(v, dirID);
    forall entry {:trigger s + [entry]} | s + [entry] in u
      ensures entry == DIR_ID_FILE || StandsForChild(v, plain', p, dirID, entry)
    {
      if entry != DIR_ID_FILE {
        var name :| p + [name] in plain && entry == EntryOf(v, dirID, name);
        assert p + [name] in plain';
      }
    }
    forall name {:trigger p + [name]} | p + [name] in plain'
      ensures ChildStored(v, u, plain', ids', p, dirID, name)
    {
      assert ChildStored(v, u, plain, ids', p, dirID, name);
    }
  }

  /** Folders other than `p` and those that are gone or new stay stored. */
  lemma OtherDirs(v: Vault, t: Tree, u: Tree, plain: Tree, plain': Tree, ids: Ids, ids': Ids, p: Path,
                  touched: set<string>)
    requires Sound(v) && Represents(v, t, plain, ids) && OthersSame(v, t, u, touched)
    requires forall r {:trigger r in ids'} :: r in ids' && r in ids && r != p ==>
               ids'[r] == ids[r] && ids[r] !in touched && SameChildren(plain, plain', r)
    requires forall r, q {:trigger r in ids', q in ids} ::
               r in ids' && r in ids && r != p && q in ids && q != [] && Parent(q) == r ==>
               q in ids' && ids'[q] == ids[q]
    ensures forall r {:trigger ids'[r]} :: r in ids' && r in ids && r != p ==> DirStored(v, u, plain', ids', r, ids'[r])
  {
    hide SoundText, SoundSiv, SoundHashes, SoundSeal, DirIdHash, DirStored, SameChildren, IdsOk;
    forall r | r in ids' && r in ids && r != p
      ensures DirStored(v, u, plain', ids', r, ids'[r])
    {
      DirUnderNewPlain(v, t, u, plain, plain', ids, ids', r, ids[r]);
    }
  }

  /** A stored folder, seen as one being filled. */
  lemma StoredIsFilled(v: Vault, t: Tree, plain: Tree, ids: Ids, p: Path, dirID: string)
    requires Sound(v) && DirStored(v, t, plain, ids, p, dirID)
    ensures Filled(v, t, plain, ids, p, dirID, ReadDir(plain, p), ReadDir(plain, p))
  {
    hide SoundText, SoundSiv, SoundHashes, SoundSeal, DirIdHash, ChildStored, EntryOf, ReadDir;
    var names := ReadDir(plain, p);
    forall name
      ensures name in names <==> p + [name] in plain
    {
      ReadDirIs(plain, p, name);
    }
    forall entry | StandsForChild(v, plain, p, dirID, entry)
      ensures EntryIn(v, dirID, entry, names)
    {
      var name :| p + [name] in plain && entry == EntryOf(v, dirID, name);
      assert name in names;
    }
  }

  lemma FewerDone(v: Vault, t: Tree, plain: Tree, ids: Ids, p: Path, dirID: string, listed: set<string>,
                  done: set<string>, fewer: set<string>)
    requires Sound(v) && Filled(v, t, plain, ids, p, dirID, listed, done) && fewer <= done
    ensures Filled(v, t, plain, ids, p, dirID, listed, fewer)
  {
  }

  lemma FilledUnderNewPlain(v: Vault, t: Tree, plain: Tree, plain': Tree, ids: Ids, p: Path, dirID: string,
                            listed: set<string>, done: set<string>)
    requires Sound(v) && Filled(v, t, plain, ids, p, dirID, listed, done)
    requires forall name {:trigger name in done} :: name in done ==>
               p + [name] in plain' && plain'[p + [name]] == plain[p + [name]]
    ensures Filled(v, t, plain', ids, p, dirID, listed, done)
  {
    hide SoundText, SoundSiv, SoundHashes, SoundSeal, DirIdHash, EntryOf, EntryHolds, EntryIn;
  }

  // ---------- WriteFile ----------

  /** One entry written as a file: the plain tree has the file, and nothing else changes. */
  lemma FileIsWritten(v: Vault, t: Tree, u: Tree, plain: Tree, ids: Ids, p: Path, name: string, data: Bytes)
    requires Sound(v) && Represents(v, t, plain, ids) && p in ids && Closed(u)
    requires p + [name] in plain ==> plain[p + [name]] != Folder
    requires var e := DirIdHash(v, ids[p]) + [EntryOf(v, ids[p], name)];
             SameExcept(t, u, e) && EntryHolds(v, u, e, EncryptName(v, name, ids[p]), Regular(data), "")
    ensures Represents(v, u, plain[p + [name] := Regular(data)], ids)
  {
    hide SoundText, SoundSiv, SoundHashes, SoundSeal, DirIdHash, EncryptName, EntryOf, EntryHolds, DirStored,
         Filled, ReadDir, SameExcept;
    var q, plain' := p + [name], plain[p + [name] := Regular(data)];
    var names, dirID := ReadDir(plain, p), ids[p];
    ParentOfChild(p, name);
    PutKeepsClosed(plain, q, Regular(data));
    EntryTouchesOne(v, t, u, dirID, EntryOf(v, dirID, name));
    forall r {:trigger r in ids} | r in ids && r != p
      ensures SameChildren(plain, plain', r)
    {
      OtherFolder(plain, Regular(data), p, name, r);
    }
    OtherDirs(v, t, u, plain, plain', ids, ids, p, {dirID});
    StoredIsFilled(v, t, plain, ids, p, dirID);
    FewerDone(v, t, plain, ids, p, dirID, names, names, names - {name});
    EntryAdded(v, t, u, plain, ids, p, dirID, names, names - {name}, name);
    forall n {:trigger n in names - {name}} | n in names - {name}
      ensures p + [n] in plain && p + [n] in plain' && plain'[p + [n]] == plain[p + [n]]
    {
      OtherChild(plain, p, name, n);
    }
    FilledUnderNewPlain(v, u, plain, plain', ids, p, dirID, names + {name}, names - {name});
    FileIsChild(v, u, plain', ids, p, dirID, name);
    OneMoreDone(v, u, plain', ids, p, dirID, names + {name}, names - {name}, name);
    assert names - {name} + {name} == names + {name};
    forall n {:trigger p + [n]} | p + [n] in plain'
      ensures n in names + {name}
    {
      ChildName(plain, p, name, n);
    }
    AllDoneIsStored(v, u, plain', ids, p, dirID, names + {name});
  }

  lemma OtherFolder(plain: Tree, node: Node, p: Path, name: string, r: Path)
    requires r != p
    ensures SameChildren(plain, plain[p + [name] := node], r)
  {
    forall n {:trigger r + [n]}
      ensures r + [n] != p + [name]
    {
      ParentOfChild(p, name);
      ParentOfChild(r, n);
    }
  }

  lemma OtherChild(plain: Tree, p: Path, name: string, n: string)
    requires n != name && n in ReadDir(plain, p)
    ensures p + [n] != p + [name] && p + [n] in plain
  {
    ReadDirIs(plain, p, n);
    assert (p + [n])[|p|] == n && (p + [name])[|p|] == name;
  }

  lemma ChildName(plain: Tree, p: Path, name: string, n: string)
    ensures p + [n] in plain ==> n in ReadDir(plain, p)
    ensures p + [n] == p + [name] ==> n == name
  {
    ReadDirIs(plain, p, n);
    assert (p + [n])[|p|] == n && (p + [name])[|p|] == name;
  }

  /** What a name's entry is before something is written there. */
  lemma SpotOf(v: Vault, t: Tree, plain: Tree, ids: Ids, p: Path, name: string)
    requires Sound(v) && Represents(v, t, plain, ids) && p in ids
    ensures FolderAt(t, DirIdHash(v, ids[p]))
    ensures var e, enc := DirIdHash(v, ids[p]) + [EntryOf(v, ids[p], name)], EncryptName(v, name, ids[p]);
            if p + [name] !in plain then e !in t
            else if plain[p + [name]] == Folder then p + [name] in ids
                && EntryHolds(v, t, e, enc, Folder, ids[p + [name]])
            else EntryHolds(v, t, e, enc, plain[p + [name]], IdOf(ids, p + [name]))
  {
    hide SoundText, SoundSiv, SoundHashes, SoundSeal, DirIdHash, EncryptName, EntryOf, EntryHolds, Filled, ReadDir;
    StoredIsFilled(v, t, plain, ids, p, ids[p]);
    ReadDirIs(plain, p, name);
    if p + [name] in plain {
      assert ChildStored(v, t, plain, ids, p, ids[p], name);
    } else {
      NewEntryIsFree(v, t, plain, ids, p, ids[p], ReadDir(plain, p), ReadDir(plain, p), name);
    }
  }

  lemma FileSpotIsFree(v: Vault, t: Tree, plain: Tree, ids: Ids, p: Path, name: string)
    requires Sound(v) && Represents(v, t, plain, ids) && p in ids
    ensures FolderAt(t, DirIdHash(v, ids[p]))
    ensures var e, enc := DirIdHash(v, ids[p]) + [EntryOf(v, ids[p], name)], EncryptName(v, name, ids[p]);
            && (if FolderAt(plain, p + [name]) then TakenByFolder(v, t, e, enc) else FreeForFile(v, t, e, enc))
            && (p + [name] !in plain ==> e !in t)
  {
    SpotOf(v, t, plain, ids, p, name);
    hide SoundText, SoundSiv, SoundHashes, SoundSeal, DirIdHash, EncryptName, EntryOf, EntryHolds, Represents;
  }

  /** A folder's entry that still stands for it changes nothing, whatever else is in it now. */
  lemma FolderStays(v: Vault, t: Tree, u: Tree, plain: Tree, ids: Ids, p: Path, name: string)
    requires Sound(v) && Represents(v, t, plain, ids) && p in ids && Closed(u) && FolderAt(plain, p + [name])
    requires var e := DirIdHash(v, ids[p]) + [EntryOf(v, ids[p], name)];
             SameExcept(t, u, e) && StillHolds(v, t, u, e, EncryptName(v, name, ids[p]))
    ensures Represents(v, u, plain, ids)
  {
    hide SoundText, SoundSiv, SoundHashes, SoundSeal, DirIdHash, EncryptName, EntryOf, EntryHolds, DirStored,
         Filled, ReadDir, SameExcept;
    var names, dirID := ReadDir(plain, p), ids[p];
    SpotOf(v, t, plain, ids, p, name);
    EntryTouchesOne(v, t, u, dirID, EntryOf(v, dirID, name));
    OtherDirs(v, t, u, plain, plain, ids, ids, p, {dirID});
    StoredIsFilled(v, t, plain, ids, p, dirID);
    FewerDone(v, t, plain, ids, p, dirID, names, names, names - {name});
    EntryAdded(v, t, u, plain, ids, p, dirID, names, names - {name}, name);
    FolderIsChild(v, u, u, plain, ids, p, dirID, name, ids[p + [name]]);
    OneMoreDone(v, u, plain, ids, p, dirID, names + {name}, names - {name}, name);
    assert names - {name} + {name} == names + {name};
    forall n {:trigger p + [n]} | p + [n] in plain
      ensures n in names + {name}
    {
      ChildName(plain, p, name, n);
    }
    AllDoneIsStored(v, u, plain, ids, p, dirID, names + {name});
  }

  /** A write under this name goes through although there is a folder: the name is long, and no
      folder is where the contents go. */
  ghost predicate OverwritesFolder(v: Vault, t: Tree, parentID: string, name: string)
    requires Sound(v)
  {
    && |EncryptName(v, name, parentID)| > SHORTENING_THRESHOLD
    && !FolderAt(t, DirIdHash(v, parentID) + [EntryOf(v, parentID, name)] + [CONTENTS_FILE])
  }

  /** WriteFile: the file has the given bytes, whether it is new or there was one of that name.
      Over a folder it fails if the name is short; if it is long, a store that works reports
      success unless there is a folder where the contents go, but the vault still has the folder
      and not the file. */
  method WriteFile(v: Vault, io: Store, parentID: string, name: string, plaintext: Bytes,
                   ghost plain: Tree, ghost ids: Ids, ghost p: Path) returns (ok: bool)
    requires Sound(v) && Represents(v, io.tree, plain, ids) && p in ids && ids[p] == parentID
    modifies io
    ensures ok && !FolderAt(plain, p + [name]) ==> Represents(v, io.tree, plain[p + [name] := Regular(plaintext)], ids)
    ensures ok && FolderAt(plain, p + [name]) ==> Represents(v, io.tree, plain, ids)
    ensures FolderAt(plain, p + [name]) && |EncryptName(v, name, parentID)| <= SHORTENING_THRESHOLD ==>
              !ok && io.tree == old(io.tree)
    ensures Closed(io.tree) && OthersSame(v, old(io.tree), io.tree, {parentID})
    ensures SameExcept(old(io.tree), io.tree, DirIdHash(v, parentID) + [EntryOf(v, parentID, name)])
    ensures io.reliable && !FolderAt(plain, p + [name]) ==> ok
    ensures io.reliable && FolderAt(plain, p + [name]) ==> (ok <==> OverwritesFolder(v, old(io.tree), parentID, name))
    ensures io.reliable && !ok ==> Represents(v, io.tree, plain, ids)
  {
    hide SoundText, SoundSiv, SoundHashes, SoundSeal, DirIdHash, EncryptName, EntryName, EntryHolds, DirStored,
         FreeForFile, TakenByFolder, StillHolds, IdsOk;
    FileSpotIsFree(v, io.tree, plain, ids, p, name);
    ghost var t := io.tree;
    ok := StoreFile(v, io, DirIdHash(v, parentID), EncryptName(v, name, parentID), plaintext);
    EntryTouchesOne(v, t, io.tree, parentID, EntryOf(v, parentID, name));
    if ok || io.reliable {
      if FolderAt(plain, p + [name]) {
        FolderStays(v, t, io.tree, plain, ids, p, name);
      } else {
        FileIsWritten(v, t, io.tree, plain, ids, p, name, plaintext);
      }
    }
  }

  // ---------- MakeDir ----------

  /** A wrapper and an empty storage directory under a new id: the plain tree has one more
      empty folder. */
  lemma FolderIsMade(v: Vault, t: Tree, u: Tree, w: Tree, plain: Tree, ids: Ids, p: Path, name: string, subID: string)
    requires Sound(v) && Represents(v, t, plain, ids) && p in ids && Closed(w) && p + [name] !in plain
    requires subID !in ids.Values
    requires var e := DirIdHash(v, ids[p]) + [EntryOf(v, ids[p], name)];
             SameExcept(t, u, e) && EntryHolds(v, u, e, EncryptName(v, name, ids[p]), Folder, subID)
    requires OthersSame(v, u, w, {subID}) && EmptyStorage(v, w, subID)
    ensures Represents(v, w, plain[p + [name] := Folder], ids[p + [name] := subID])
  {
    hide SoundText, SoundSiv, SoundHashes, SoundSeal, DirIdHash, EncryptName, EntryOf, EntryHolds, DirStored,
         Filled, ReadDir, SameExcept, EmptyStorage, OthersSame;
    var q, plain', ids' := p + [name], plain[p + [name] := Folder], ids[p + [name] := subID];
    var dirID := ids[p];
    ParentOfChild(p, name);
    PutKeepsClosed(plain, q, Folder);
    assert dirID in ids.Values;
    EntryTouchesOne(v, t, u, dirID, EntryOf(v, dirID, name));
    OthersSameTwice(v, t, u, w, {dirID}, {subID});
    forall r {:trigger r in ids'} | r in ids' && r in ids && r != p
      ensures SameChildren(plain, plain', r) && ids'[r] == ids[r] && ids[r] !in {dirID} + {subID}
    {
      OtherFolder(plain, Folder, p, name, r);
      assert ids[r] in ids.Values;
    }
    OtherDirs(v, t, w, plain, plain', ids, ids', p, {dirID} + {subID});
    ParentGains(v, t, u, w, plain, ids, p, name, subID);
    NewIsStored(v, w, plain, ids', p, name, subID);
  }

  lemma ParentGains(v: Vault, t: Tree, u: Tree, w: Tree, plain: Tree, ids: Ids, p: Path, name: string, subID: string)
    requires Sound(v) && Represents(v, t, plain, ids) && p in ids && p + [name] !in plain && subID != ids[p]
    requires var e := DirIdHash(v, ids[p]) + [EntryOf(v, ids[p], name)];
             SameExcept(t, u, e) && EntryHolds(v, u, e, EncryptName(v, name, ids[p]), Folder, subID)
    requires OthersSame(v, u, w, {subID})
    ensures DirStored(v, w, plain[p + [name] := Folder], ids[p + [name] := subID], p, ids[p])
  {
    hide SoundText, SoundSiv, SoundHashes, SoundSeal, DirIdHash, EncryptName, EntryOf, EntryHolds, Filled,
         ReadDir, SameExcept, IdsOk, DirStored;
    var plain', ids', dirID := plain[p + [name] := Folder], ids[p + [name] := subID], ids[p];
    var names := ReadDir(plain, p);
    assert p + [name] !in ids by { FoldersOnly(plain, ids) by { RepIds(v, t, plain, ids); } }
    StoredIsFilled(v, t, plain, ids, p, dirID);
    ReadDirIs(plain, p, name);
    EntryAdded(v, t, u, plain, ids, p, dirID, names, names, name);
    FilledStays(v, u, w, plain, ids, ids', p, dirID, names + {name}, names);
    forall n {:trigger n in names} | n in names
      ensures p + [n] in plain && p + [n] in plain' && plain'[p + [n]] == plain[p + [n]]
    {
      OtherChild(plain, p, name, n);
    }
    FilledUnderNewPlain(v, w, plain, plain', ids', p, dirID, names + {name}, names);
    FolderIsChild(v, u, w, plain', ids', p, dirID, name, subID);
    OneMoreDone(v, w, plain', ids', p, dirID, names + {name}, names, name);
    forall n {:trigger p + [n]} | p + [n] in plain'
      ensures n in names + {name}
    {
      ChildName(plain, p, name, n);
    }
    AllDoneIsStored(v, w, plain', ids', p, dirID, names + {name});
  }

  lemma RepIds(v: Vault, t: Tree, plain: Tree, ids: Ids)
    requires Sound(v) && Represents(v, t, plain, ids)
    ensures IdsOk(plain, ids)
  {
  }

  lemma FoldersOnly(plain: Tree, ids: Ids)
    requires IdsOk(plain, ids)
    ensures forall r {:trigger r in ids} :: r in ids ==> r in plain && plain[r] == Folder
  {
  }

  lemma NewIsStored(v: Vault, w: Tree, plain: Tree, ids': Ids, p: Path, name: string, subID: string)
    requires Sound(v) && EmptyStorage(v, w, subID) && Closed(plain) && p + [name] !in plain
    ensures DirStored(v, w, plain[p + [name] := Folder], ids', p + [name], subID)
  {
    hide SoundText, SoundSiv, SoundHashes, SoundSeal, DirIdHash, EncryptName, EntryOf, EntryHolds, Filled,
         DirStored, EmptyStorage;
    var q, plain' := p + [name], plain[p + [name] := Folder];
    NothingFilled(v, w, plain', ids', q, subID);
    forall n {:trigger q + [n]}
      ensures q + [n] !in plain'
    {
      ParentOfChild(q, n);
      NothingBelowAbsent(plain, q, q + [n]);
    }
    AllDoneIsStored(v, w, plain', ids', q, subID, {});
  }

  // ---------- Remove ----------

  function WithoutBelow(ids: Ids, q: Path): Ids {
    map r | r in ids && !Within(q, r) :: ids[r]
  }

  /** An entry removed, and possibly before that the storage of folders at or below it: the
      plain tree loses the child with all below it. Storage left behind is unreachable. */
  lemma EntryIsRemoved(v: Vault, t: Tree, w: Tree, u: Tree, plain: Tree, ids: Ids, p: Path, name: string,
                       gone: set<string>)
    requires Sound(v) && Represents(v, t, plain, ids) && p in ids && Closed(u)
    requires OthersSame(v, t, w, gone) && forall r {:trigger ids[r]} :: r in ids && ids[r] in gone ==>
               Within(p + [name], r)
    requires var e := DirIdHash(v, ids[p]) + [EntryOf(v, ids[p], name)]; SameExcept(w, u, e) && e !in u
    ensures Represents(v, u, RemoveAll(plain, p + [name]), WithoutBelow(ids, p + [name]))
  {
    hide SoundText, SoundSiv, SoundHashes, SoundSeal, DirIdHash, EncryptName, EntryOf, EntryHolds, DirStored,
         Filled, ReadDir, SameExcept, OthersSame;
    var q, dirID := p + [name], ids[p];
    var plain', ids' := RemoveAll(plain, q), WithoutBelow(ids, q);
    ParentOfChild(p, name);
    RemoveKeepsClosed(plain, q);
    EntryTouchesOne(v, w, u, dirID, EntryOf(v, dirID, name));
    OthersSameTwice(v, t, w, u, gone, {dirID});
    forall r {:trigger r in ids'} | r in ids' && r in ids && r != p
      ensures SameChildren(plain, plain', r) && ids[r] !in gone + {dirID}
    {
      FolderBeside(plain, p, name, r);
    }
    forall r, c {:trigger r in ids', c in ids} | r in ids' && r in ids && r != p && c in ids && c != []
        && Parent(c) == r
      ensures c in ids'
    {
      WithinParent(q, c);
    }
    OtherDirs(v, t, u, plain, plain', ids, ids', p, gone + {dirID});
    ParentLoses(v, t, w, u, plain, ids, p, name, gone);
    IdsBelowGone(plain, ids, q);
  }

  lemma IdsBelowGone(plain: Tree, ids: Ids, q: Path)
    requires IdsOk(plain, ids) && q != [] && [] in ids
    ensures IdsOk(RemoveAll(plain, q), WithoutBelow(ids, q)) && [] in WithoutBelow(ids, q)
  {
  }

  lemma FolderBeside(plain: Tree, p: Path, name: string, r: Path)
    requires r != p && !Within(p + [name], r)
    ensures SameChildren(plain, RemoveAll(plain, p + [name]), r)
  {
    forall n {:trigger r + [n]}
      ensures !Within(p + [name], r + [n])
    {
      ParentOfChild(p, name);
      ParentOfChild(r, n);
      WithinParent(p + [name], r + [n]);
    }
  }

  lemma ParentLoses(v: Vault, t: Tree, w: Tree, u: Tree, plain: Tree, ids: Ids, p: Path, name: string,
                    gone: set<string>)
    requires Sound(v) && Represents(v, t, plain, ids) && p in ids && OthersSame(v, t, w, gone) && ids[p] !in gone
    requires var e := DirIdHash(v, ids[p]) + [EntryOf(v, ids[p], name)]; SameExcept(w, u, e) && e !in u
    ensures DirStored(v, u, RemoveAll(plain, p + [name]), WithoutBelow(ids, p + [name]), p, ids[p])
  {
    hide SoundText, SoundSiv, SoundHashes, SoundSeal, DirIdHash, EncryptName, EntryOf, EntryHolds, DirStored,
         Filled, ReadDir, SameExcept, IdsOk;
    var q, dirID := p + [name], ids[p];
    var plain', ids' := RemoveAll(plain, q), WithoutBelow(ids, q);
    var names := ReadDir(plain, p);
    StoredIsFilled(v, t, plain, ids, p, dirID);
    FilledStays(v, t, w, plain, ids, ids, p, dirID, names, names);
    FewerDone(v, w, plain, ids, p, dirID, names, names, names - {name});
    EntryAdded(v, w, u, plain, ids, p, dirID, names, names - {name}, name);
    EntryDropped(v, u, plain, ids, p, dirID, names + {name}, names - {name}, name);
    assert names + {name} - {name} == names - {name};
    forall n {:trigger p + [n]}
      ensures n != name ==> !Within(q, p + [n])
      ensures p + [n] in plain' ==> n in names - {name}
      ensures n in names - {name} ==> p + [n] in plain && p + [n] in plain' && plain'[p + [n]] == plain[p + [n]]
    {
      ParentOfChild(p, name);
      ParentOfChild(p, n);
      ReadDirIs(plain, p, n);
      assert (p + [n])[|p|] == n && q[|p|] == name;
      assert Within(q, p + [n]) ==> (p + [n])[..|q|] == p + [n];
    }
    FilledUnderNewPlain(v, u, plain, plain', ids, p, dirID, names - {name}, names - {name});
    FewerIds(v, u, plain', ids, ids', p, dirID, names - {name});
    AllDoneIsStored(v, u, plain', ids', p, dirID, names - {name});
  }

  lemma EntryDropped(v: Vault, u: Tree, plain: Tree, ids: Ids, p: Path, dirID: string, listed: set<string>,
                     done: set<string>, name: string)
    requires Sound(v) && Filled(v, u, plain, ids, p, dirID, listed, done)
    requires DirIdHash(v, dirID) + [EntryOf(v, dirID, name)] !in u
    ensures Filled(v, u, plain, ids, p, dirID, listed - {name}, done)
  {
    hide SoundText, SoundSiv, SoundHashes, SoundSeal, DirIdHash, EncryptName, EntryOf, EntryHolds, ChildStored;
    var s := DirIdHash(v, dirID);
    forall entry {:trigger s + [entry]} | s + [entry] in u && entry != DIR_ID_FILE
      ensures EntryIn(v, dirID, entry, listed - {name})
    {
      var n :| n in listed && entry == EntryOf(v, dirID, n);
      assert n != name;
    }
  }

  lemma FewerIds(v: Vault, u: Tree, plain: Tree, ids: Ids, ids': Ids, p: Path, dirID: string, names: set<string>)
    requires Sound(v) && Filled(v, u, plain, ids, p, dirID, names, names)
    requires forall n {:trigger n in names} :: n in names && p + [n] in ids ==>
               p + [n] in ids' && ids'[p + [n]] == ids[p + [n]]
    ensures Filled(v, u, plain, ids', p, dirID, names, names)
  {
    hide SoundText, SoundSiv, SoundHashes, SoundSeal, DirIdHash, EncryptName, EntryOf, EntryHolds, EntryIn,
         ChildStored;
    forall n | n in names
      ensures ChildStored(v, u, plain, ids', p, dirID, n)
    {
      assert ChildStored(v, u, plain, ids, p, dirID, n);
      ChildFrame(v, u, u, plain, ids, ids', p, dirID, n);
    }
  }

  /** Remove. A name that is not there is no error. */
  method Remove(v: Vault, io: Store, parentID: string, name: string,
                ghost plain: Tree, ghost ids: Ids, ghost p: Path) returns (ok: bool)
    requires Sound(v) && Represents(v, io.tree, plain, ids) && p in ids && ids[p] == parentID
    modifies io
    ensures ok ==> Represents(v, io.tree, RemoveAll(plain, p + [name]), WithoutBelow(ids, p + [name]))
    ensures Closed(io.tree) && OthersSame(v, old(io.tree), io.tree, {parentID})
    ensures SameExcept(old(io.tree), io.tree, DirIdHash(v, parentID) + [EntryOf(v, parentID, name)])
    ensures io.reliable ==> ok
  {
    hide SoundText, SoundSiv, SoundHashes, SoundSeal, DirIdHash, EncryptName, EntryHolds, DirStored, IdsOk;
    var encName := EncryptName(v, name, parentID);
    var entry := encName;
    if |encName| > SHORTENING_THRESHOLD { entry := ShortenedName(v, encName); }
    ghost var t := io.tree;
    ok := io.Remove(DirIdHash(v, parentID) + [entry]);
    EntryTouchesOne(v, t, io.tree, parentID, entry);
    assert Within(DirIdHash(v, parentID) + [entry], DirIdHash(v, parentID) + [entry]);
    if ok { EntryIsRemoved(v, t, t, io.tree, plain, ids, p, name, {}); }
  }

  // ---------- MakeDir over whatever is there ----------

  /** The wrapper of a new folder put in the place of whatever the name stood for. */
  lemma FolderReplaces(v: Vault, t: Tree, u: Tree, w: Tree, plain: Tree, ids: Ids, p: Path, name: string, subID: string)
    requires Sound(v) && Represents(v, t, plain, ids) && p in ids && Closed(w) && subID !in ids.Values
    requires var e := DirIdHash(v, ids[p]) + [EntryOf(v, ids[p], name)];
             SameExcept(t, u, e) && EntryHolds(v, u, e, EncryptName(v, name, ids[p]), Folder, subID)
    requires OthersSame(v, u, w, {subID}) && EmptyStorage(v, w, subID)
    ensures Represents(v, w, Replaced(plain, p + [name]), WithoutBelow(ids, p + [name])[p + [name] := subID])
  {
    hide SoundText, SoundSiv, SoundHashes, SoundSeal, DirIdHash, EncryptName, EntryOf, EntryHolds, DirStored,
         EmptyStorage, OthersSame, IdsOk;
    var q, e := p + [name], DirIdHash(v, ids[p]) + [EntryOf(v, ids[p], name)];
    var plain1, ids1, t1 := RemoveAll(plain, q), WithoutBelow(ids, q), RemoveAll(t, e);
    ParentOfChild(p, name);
    RemoveKeepsClosed(t, e);
    assert Within(e, e) && Within(q, q) && !Within(q, p);
    NothingTouched(v, t);
    EntryIsRemoved(v, t, t, t1, plain, ids, p, name, {});
    assert SameExcept(t1, u, e);
    forall id | id in ids1.Values
      ensures id in ids.Values
    {
      var r :| r in ids1 && ids1[r] == id;
      assert r in ids && ids[r] == id;
    }
    FolderIsMade(v, t1, u, w, plain1, ids1, p, name, subID);
  }

  lemma NothingTouched(v: Vault, t: Tree)
    requires Sound(v)
    ensures OthersSame(v, t, t, {})
  {
  }

  /** The tree with an empty folder in the place of whatever was there. */
  function Replaced(plain: Tree, q: Path): Tree {
    RemoveAll(plain, q)[q := Folder]
  }

  /** Under an unused name nothing is lost. */
  lemma UnusedIsAdded(plain: Tree, ids: Ids, q: Path)
    requires Closed(plain) && IdsOk(plain, ids) && q !in plain
    ensures Replaced(plain, q) == plain[q := Folder] && WithoutBelow(ids, q) == ids
  {
    forall r | r in plain
      ensures !Within(q, r)
    {
      if Within(q, r) { NothingBelowAbsent(plain, q, r); }
    }
    assert RemoveAll(plain, q) == plain;
  }

  /** MakeDir. Under an unused name the plain tree gains an empty folder. Over an existing folder,
      or over a file with a long name, the new folder takes its place, and what was there is
      gone from the tree; over a file with a short name the call fails and changes nothing. */
  method MakeDir(v: Vault, io: Store, uuids: Uuids, parentID: string, name: string,
                 ghost plain: Tree, ghost ids: Ids, ghost p: Path) returns (ok: bool, subID: string)
    requires Sound(v) && Represents(v, io.tree, plain, ids) && p in ids && ids[p] == parentID
    requires OnlyIssued(v, io.tree, uuids.issued) && ids.Values <= uuids.issued
    modifies io, uuids
    ensures ok ==> subID !in ids.Values && subID in uuids.issued
    ensures ok ==> Represents(v, io.tree, Replaced(plain, p + [name]),
                              WithoutBelow(ids, p + [name])[p + [name] := subID])
    ensures BlockedByFile(v, plain, p, name, parentID) ==> !ok && io.tree == old(io.tree)
    ensures Closed(io.tree) && OthersSame(v, old(io.tree), io.tree, {parentID, subID})
    ensures old(uuids.issued) <= uuids.issued && OnlyIssued(v, io.tree, uuids.issued)
    ensures io.reliable && OnlyFoldersAbove(old(io.tree)) && !BlockedByFile(v, plain, p, name, parentID) ==> ok
    ensures OnlyFoldersAbove(old(io.tree)) ==> OnlyFoldersAbove(io.tree)
  {
    hide SoundText, SoundSiv, SoundHashes, SoundSeal, DirIdHash, EncryptName, EntryName, EntryHolds, DirStored,
         IdsOk, SameExcept, SameDeep, EmptyStorage, OnlyFoldersAbove, FreeForFolder, BlockedByFile, Replaced;
    FolderSpot(v, io.tree, plain, ids, p, name);
    ghost var t, issued := io.tree, uuids.issued;
    subID := uuids.New();
    ok := StoreFolder(v, io, DirIdHash(v, parentID), EncryptName(v, name, parentID), subID);
    ghost var u := io.tree;
    assert parentID in ids.Values;
    EntryTouchesOne(v, t, u, parentID, EntryOf(v, parentID, name));
    EntryIsDeep(v, t, u, parentID, EntryOf(v, parentID, name));
    StillOnlyIssued(v, t, u, issued, {parentID});
    assert OnlyIssued(v, u, issued + {subID}) && OthersSame(v, t, u, {parentID, subID});
    if !ok { return; }
    ok := MakeStorage(v, io, subID);
    DeepTouchesOne(v, u, io.tree, subID);
    StillOnlyIssued(v, u, io.tree, issued + {subID}, {subID});
    OthersSameTwice(v, t, u, io.tree, {parentID}, {subID});
    assert {parentID} + {subID} == {parentID, subID};
    if ok { FolderReplaces(v, t, u, io.tree, plain, ids, p, name, subID); }
  }

  /** A file is in the way of a folder of the same name if its name is short. */
  ghost predicate BlockedByFile(v: Vault, plain: Tree, p: Path, name: string, parentID: string)
    requires Sound(v)
  {
    p + [name] in plain && plain[p + [name]] != Folder && |EncryptName(v, name, parentID)| <= SHORTENING_THRESHOLD
  }

  lemma FolderSpot(v: Vault, t: Tree, plain: Tree, ids: Ids, p: Path, name: string)
    requires Sound(v) && Represents(v, t, plain, ids) && p in ids
    ensures FolderAt(t, DirIdHash(v, ids[p]))
    ensures var e, enc := DirIdHash(v, ids[p]) + [EntryOf(v, ids[p], name)], EncryptName(v, name, ids[p]);
            if BlockedByFile(v, plain, p, name, ids[p]) then FileInWay(t, e) else FreeForFolder(v, t, e, enc)
  {
    SpotOf(v, t, plain, ids, p, name);
    hide SoundText, SoundSiv, SoundHashes, SoundSeal, DirIdHash, EncryptName, EntryOf, Represents, Plaintext;
  }

  // ---------- ListDir and ReadFile ----------

  /** The listed entry is the child of that name: a folder with its id, or a file whose contents
      are at the given storage path. */
  ghost predicate ListsChild(v: Vault, t: Tree, plain: Tree, ids: Ids, p: Path, e: VEntry) {
    && p + [e.name] in plain
    && match e
       case VFolder(name, dirID) => plain[p + [name]] == Folder && p + [name] in ids && dirID == ids[p + [name]]
       case VFile(name, path) => plain[p + [name]].Regular? && Encrypts(v, t, path, plain[p + [name]].data)
  }

  /** The listing names children only, none of them twice. */
  ghost predicate ListsOnly(v: Vault, t: Tree, plain: Tree, ids: Ids, p: Path, out: seq<VEntry>) {
    && (forall i :: 0 <= i < |out| ==> ListsChild(v, t, plain, ids, p, out[i]))
    && (forall i, j :: 0 <= i < j < |out| ==> out[i].name != out[j].name)
  }

  /** The listing names every child exactly once, and nothing else. */
  ghost predicate ListsExactly(v: Vault, t: Tree, plain: Tree, ids: Ids, p: Path, out: seq<VEntry>) {
    && ListsOnly(v, t, plain, ids, p, out)
    && (forall name {:trigger p + [name]} :: p + [name] in plain ==> exists i :: 0 <= i < |out| && out[i].name == name)
  }

  /** The entries in `done` have been listed; all of them, if `complete`. */
  ghost predicate ListsSoFar(v: Vault, t: Tree, plain: Tree, ids: Ids, p: Path, dirID: string, out: seq<VEntry>,
                             done: set<string>, complete: bool)
    requires Sound(v)
  {
    && ListsOnly(v, t, plain, ids, p, out)
    && (forall i :: 0 <= i < |out| ==> EntryOf(v, dirID, out[i].name) in done)
    && (complete ==> forall name {:trigger p + [name]} :: p + [name] in plain && EntryOf(v, dirID, name) in done ==>
          exists i :: 0 <= i < |out| && out[i].name == name)
  }

  lemma OneMoreListed(v: Vault, t: Tree, plain: Tree, ids: Ids, p: Path, dirID: string, out: seq<VEntry>,
                      done: set<string>, complete: bool, e: VEntry)
    requires Sound(v) && ListsSoFar(v, t, plain, ids, p, dirID, out, done, complete)
    requires ListsChild(v, t, plain, ids, p, e)
    requires EntryOf(v, dirID, e.name) !in done
    ensures ListsSoFar(v, t, plain, ids, p, dirID, out + [e], done + {EntryOf(v, dirID, e.name)}, complete)
  {
    hide SoundText, SoundSiv, SoundHashes, SoundSeal, EncryptName, EntryName, ListsChild;
    var longer, more := out + [e], done + {EntryOf(v, dirID, e.name)};
    if complete {
      forall name {:trigger p + [name]} | p + [name] in plain && EntryOf(v, dirID, name) in more
        ensures exists i :: 0 <= i < |longer| && longer[i].name == name
      {
        EntriesDiffer(v, name, e.name, dirID);
        if name == e.name {
          assert longer[|out|].name == name;
        } else {
          var i :| 0 <= i < |out| && out[i].name == name;
          assert longer[i].name == name;
        }
      }
    }
  }

  lemma IdFileListed(v: Vault, t: Tree, plain: Tree, ids: Ids, p: Path, dirID: string, out: seq<VEntry>,
                     done: set<string>, complete: bool)
    requires Sound(v) && ListsSoFar(v, t, plain, ids, p, dirID, out, done, complete)
    ensures ListsSoFar(v, t, plain, ids, p, dirID, out, done + {DIR_ID_FILE}, complete)
  {
    hide SoundText, SoundSiv, SoundHashes, SoundSeal, EncryptName, EntryName, ListsOnly;
    forall name: string
      ensures EntryOf(v, dirID, name) != DIR_ID_FILE
    {
      EntryShape(v, name, dirID);
    }
  }

  lemma AllListed(v: Vault, t: Tree, plain: Tree, ids: Ids, p: Path, dirID: string, out: seq<VEntry>, done: set<string>,
                  complete: bool)
    requires Sound(v) && ListsSoFar(v, t, plain, ids, p, dirID, out, done, complete)
    requires DirStored(v, t, plain, ids, p, dirID) && done == ReadDir(t, DirIdHash(v, dirID))
    ensures ListsOnly(v, t, plain, ids, p, out)
    ensures complete ==> ListsExactly(v, t, plain, ids, p, out)
  {
    hide SoundText, SoundSiv, SoundHashes, SoundSeal, DirIdHash, EncryptName, EntryName, ListsOnly, Classify, ReadDir;
    forall name {:trigger p + [name]} | p + [name] in plain
      ensures EntryOf(v, dirID, name) in done
    {
      ChildIsFound(v, t, plain, ids, p, dirID, name);
      ReadDirIs(t, DirIdHash(v, dirID), EntryOf(v, dirID, name));
    }
  }

  // ---------- listing any directory ----------

  /** What is listed for an entry of a storage directory. */
  ghost predicate ViewOf(v: Vault, t: Tree, dirID: string, entry: string, e: VEntry)
    requires Sound(v)
  {
    match Classify(v, t, DirIdHash(v, dirID), entry, dirID)
    case Skip => false
    case Broken => false
    case FileFound(name, path) => e == VFile(name, path)
    case FolderFound(name, idPath) =>
      idPath in t && t[idPath].Regular? && e == VFolder(name, v.lib.text(t[idPath].data))
  }

  ghost predicate IsSkipped(v: Vault, t: Tree, dirID: string, entry: string)
    requires Sound(v)
  {
    Classify(v, t, DirIdHash(v, dirID), entry, dirID) == Skip
  }

  /** `out` lists the entries `from`, in that order, which are those of `seen` that are not passed
      over, each once. */
  ghost predicate Scans(v: Vault, t: Tree, dirID: string, out: seq<VEntry>, from: seq<string>, seen: set<string>)
    requires Sound(v)
  {
    && |from| == |out|
    && (forall i, j :: 0 <= i < j < |from| ==> from[i] != from[j])
    && (forall i :: 0 <= i < |from| ==> from[i] in seen && ViewOf(v, t, dirID, from[i], out[i]))
    && (forall entry {:trigger entry in seen} :: entry in seen ==> IsSkipped(v, t, dirID, entry) || entry in from)
  }

  /** No entry is broken, and every folder's id can be read. */
  ghost predicate Listable(v: Vault, t: Tree, dirID: string)
    requires Sound(v)
  {
    && FolderAt(t, DirIdHash(v, dirID))
    && forall entry {:trigger IsSkipped(v, t, dirID, entry)} :: entry in ReadDir(t, DirIdHash(v, dirID)) ==>
         IsSkipped(v, t, dirID, entry) || exists e :: ViewOf(v, t, dirID, entry, e)
  }

  lemma OneMoreScanned(v: Vault, t: Tree, dirID: string, out: seq<VEntry>, from: seq<string>, seen: set<string>,
                       entry: string, e: VEntry)
    requires Sound(v) && Scans(v, t, dirID, out, from, seen) && entry !in seen && ViewOf(v, t, dirID, entry, e)
    ensures Scans(v, t, dirID, out + [e], from + [entry], seen + {entry})
  {
    hide SoundText, SoundSiv, SoundHashes, SoundSeal, ViewOf, IsSkipped;
  }

  lemma OneMoreSkipped(v: Vault, t: Tree, dirID: string, out: seq<VEntry>, from: seq<string>, seen: set<string>,
                       entry: string)
    requires Sound(v) && Scans(v, t, dirID, out, from, seen) && IsSkipped(v, t, dirID, entry)
    ensures Scans(v, t, dirID, out, from, seen + {entry})
  {
    hide SoundText, SoundSiv, SoundHashes, SoundSeal, ViewOf, IsSkipped;
  }

  lemma ScannedIsListable(v: Vault, t: Tree, dirID: string, out: seq<VEntry>, from: seq<string>)
    requires Sound(v) && FolderAt(t, DirIdHash(v, dirID))
    requires Scans(v, t, dirID, out, from, ReadDir(t, DirIdHash(v, dirID)))
    ensures Listable(v, t, dirID)
  {
    hide SoundText, SoundSiv, SoundHashes, SoundSeal, ViewOf, IsSkipped, DirIdHash, ReadDir;
    forall entry | entry in ReadDir(t, DirIdHash(v, dirID)) && !IsSkipped(v, t, dirID, entry)
      ensures exists e :: ViewOf(v, t, dirID, entry, e)
    {
      var i :| 0 <= i < |from| && from[i] == entry;
      assert ViewOf(v, t, dirID, entry, out[i]);
    }
  }

  /** An entry that cannot be listed. */
  lemma NotListable(v: Vault, t: Tree, dirID: string, entry: string)
    requires Sound(v) && entry in ReadDir(t, DirIdHash(v, dirID)) && !IsSkipped(v, t, dirID, entry)
    requires forall e :: !ViewOf(v, t, dirID, entry, e)
    ensures !Listable(v, t, dirID)
  {
    hide SoundText, SoundSiv, SoundHashes, SoundSeal, ViewOf, IsSkipped, DirIdHash, ReadDir;
  }

  /** What lies behind an entry, with the reads it takes; a shortened entry is listed to see
      which of its files it has. */
  method Look(v: Vault, src: Store, s: Path, entry: string, dirID: string) returns (ok: bool, found: Found)
    requires Sound(v)
    ensures ok ==> found == Classify(v, src.tree, s, entry, dirID)
    ensures src.reliable && Classify(v, src.tree, s, entry, dirID) != Broken ==> ok
  {
    hide SoundText, SoundHashes, SoundSeal, DecryptName, HasSuffix;
    found := Broken;
    var e := s + [entry];
    if entry == DIR_ID_FILE { return true, Skip; }
    if HasSuffix(entry, C9S) && e in src.tree && src.tree[e] == Folder {
      var full := src.ReadFile(e + [NAME_FILE]);
      if full == None { return false, found; }
      var name := DecryptName(v, v.lib.text(full.value), dirID);
      if name == None { return true, found; }
      var sub := src.ListDir(e);
      if sub == None { return false, found; }
      ReadDirIs(src.tree, e, DIR_FILE);
      ReadDirIs(src.tree, e, CONTENTS_FILE);
      var hasDir, hasContents := DIR_FILE in sub.value, CONTENTS_FILE in sub.value;
      if hasDir { return true, FolderFound(name.value, e + [DIR_FILE]); }
      if hasContents { return true, FileFound(name.value, e + [CONTENTS_FILE]); }
      return true, found;
    }
    if !HasSuffix(entry, C9R) { return true, Skip; }
    var name := DecryptName(v, entry, dirID);
    if name == None { return true, found; }
    if e in src.tree && src.tree[e] == Folder { return true, FolderFound(name.value, e + [DIR_FILE]); }
    return true, FileFound(name.value, e);
  }

  /** ListDir: of any directory everything that is not passed over, each once, and nothing else; on a
      store that works it succeeds exactly when no entry is broken. Of a directory in step with a
      plain folder that is exactly the folder's entries. */
  method ListDir(v: Vault, src: Store, dirID: string, ghost rep: Option<Rep>, ghost p: Path)
      returns (ok: bool, out: seq<VEntry>, ghost from: seq<string>)
    requires Sound(v)
    requires rep.Some? ==>
               && Represents(v, src.tree, rep.value.plain, rep.value.ids) && p in rep.value.ids
               && rep.value.ids[p] == dirID
    ensures ok ==> Scans(v, src.tree, dirID, out, from, ReadDir(src.tree, DirIdHash(v, dirID)))
    ensures ok ==> Listable(v, src.tree, dirID)
    ensures src.reliable && Listable(v, src.tree, dirID) ==> ok
    ensures rep.Some? && ok ==> ListsExactly(v, src.tree, rep.value.plain, rep.value.ids, p, out)
    ensures rep.Some? && src.reliable ==> ok
  {
    hide SoundText, SoundSiv, SoundHashes, SoundSeal, DirIdHash, EncryptName, EntryName, DirStored, Represents, ReadDir,
         ListsChild, ListsOnly, ListsSoFar, ListsExactly, Classify, Scans, Listable;
    out, from := [], [];
    NothingScanned(v, src.tree, dirID);
    var s := DirIdHash(v, dirID);
    if rep.Some? {
      RepHasDir(v, src.tree, rep.value, p);
      assert ListsSoFar(v, src.tree, rep.value.plain, rep.value.ids, p, dirID, [], {}, true) by {
        NothingListed(v, src.tree, rep.value, p, dirID);
      }
    }
    var names := src.ListDir(s);
    if names == None {
      if Listable(v, src.tree, dirID) { ListableIsThere(v, src.tree, dirID); }
      return false, out, from;
    }
    var rest := names.value;
    ghost var done: set<string> := {};
    while rest != {}
      invariant done !! rest && done + rest == names.value
      invariant rep.Some? ==> ListsSoFar(v, src.tree, rep.value.plain, rep.value.ids, p, dirID, out, done, true)
      invariant Scans(v, src.tree, dirID, out, from, done)
      decreases |rest|
    {
      var entry :| entry in rest;
      rest := rest - {entry};
      if rep.Some? { EntryIsKnown(v, src.tree, rep.value, p, dirID, entry); }
      var found;
      ok, found := Look(v, src, s, entry, dirID);
      if !ok {
        if src.reliable { BrokenIsNotListable(v, src.tree, dirID, entry); }
        return;
      }
      FoundView(v, src.tree, dirID, entry, found);
      match found {
        case Skip =>
          OneMoreSkipped(v, src.tree, dirID, out, from, done, entry);
          if rep.Some? { IdFileListed(v, src.tree, rep.value.plain, rep.value.ids, p, dirID, out, done, true); }
        case Broken =>
          BrokenIsNotListable(v, src.tree, dirID, entry);
          return false, out, from;
        case FolderFound(name, idPath) =>
          var id := src.ReadFile(idPath);
          if id == None {
            if src.reliable { NoIdIsNotListable(v, src.tree, dirID, entry); }
            return false, out, from;
          }
          var e := VFolder(name, v.lib.text(id.value));
          if rep.Some? {
            TextRoundTrip(v, IdOf(rep.value.ids, p + [name]));
            FoundIsChild(v, src.tree, rep.value, p, e);
            OneMoreListed(v, src.tree, rep.value.plain, rep.value.ids, p, dirID, out, done, true, e);
          }
          OneMoreScanned(v, src.tree, dirID, out, from, done, entry, e);
          out, from := out + [e], from + [entry];
        case FileFound(name, path) =>
          var e := VFile(name, path);
          if rep.Some? {
            FoundIsChild(v, src.tree, rep.value, p, e);
            OneMoreListed(v, src.tree, rep.value.plain, rep.value.ids, p, dirID, out, done, true, e);
          }
          OneMoreScanned(v, src.tree, dirID, out, from, done, entry, e);
          out, from := out + [e], from + [entry];
      }
      done := done + {entry};
    }
    assert done == names.value;
    ScannedIsListable(v, src.tree, dirID, out, from);
    if rep.Some? { AllListed(v, src.tree, rep.value.plain, rep.value.ids, p, dirID, out, done, true); }
    ok := true;
  }

  lemma ListableIsThere(v: Vault, t: Tree, dirID: string)
    requires Sound(v) && Listable(v, t, dirID)
    ensures FolderAt(t, DirIdHash(v, dirID))
  {
  }

  lemma NothingScanned(v: Vault, t: Tree, dirID: string)
    requires Sound(v)
    ensures Scans(v, t, dirID, [], [], {})
  {
  }

  /** What is listed for what has been found. */
  lemma FoundView(v: Vault, t: Tree, dirID: string, entry: string, found: Found)
    requires Sound(v) && found == Classify(v, t, DirIdHash(v, dirID), entry, dirID)
    ensures found == Skip <==> IsSkipped(v, t, dirID, entry)
    ensures found.FileFound? ==> ViewOf(v, t, dirID, entry, VFile(found.name, found.path))
    ensures found.FolderFound? && found.idPath in t && t[found.idPath].Regular? ==>
              ViewOf(v, t, dirID, entry, VFolder(found.name, v.lib.text(t[found.idPath].data)))
  {
    hide SoundText, SoundSiv, SoundHashes, SoundSeal, Classify, DirIdHash;
  }

  lemma BrokenIsNotListable(v: Vault, t: Tree, dirID: string, entry: string)
    requires Sound(v) && entry in ReadDir(t, DirIdHash(v, dirID))
    requires Classify(v, t, DirIdHash(v, dirID), entry, dirID) == Broken
    ensures !Listable(v, t, dirID)
  {
    hide SoundText, SoundSiv, SoundHashes, SoundSeal, Classify, DirIdHash, ReadDir, Listable;
    NotListable(v, t, dirID, entry);
  }

  lemma NoIdIsNotListable(v: Vault, t: Tree, dirID: string, entry: string)
    requires Sound(v) && entry in ReadDir(t, DirIdHash(v, dirID))
    requires var found := Classify(v, t, DirIdHash(v, dirID), entry, dirID);
             found.FolderFound? && !(found.idPath in t && t[found.idPath].Regular?)
    ensures !Listable(v, t, dirID)
  {
    hide SoundText, SoundSiv, SoundHashes, SoundSeal, Classify, DirIdHash, ReadDir, Listable;
    NotListable(v, t, dirID, entry);
  }

  lemma NothingListed(v: Vault, t: Tree, rep: Rep, p: Path, dirID: string)
    requires Sound(v)
    ensures forall complete :: ListsSoFar(v, t, rep.plain, rep.ids, p, dirID, [], {}, complete)
  {
  }

  lemma FoundIsChild(v: Vault, t: Tree, rep: Rep, p: Path, e: VEntry)
    requires p + [e.name] in rep.plain
    requires match e
             case VFolder(name, id) => rep.plain[p + [name]] == Folder && p + [name] in rep.ids
                 && id == rep.ids[p + [name]]
             case VFile(name, path) =>
               && rep.plain[p + [name]].Regular?
               && Encrypts(v, t, path, rep.plain[p + [name]].data)
    ensures ListsChild(v, t, rep.plain, rep.ids, p, e)
  {
  }

  /** An entry of the store is the id file or stands for a child. */
  lemma EntryIsKnown(v: Vault, store: Tree, rep: Rep, p: Path, dirID: string, entry: string)
    requires Sound(v) && DirStored(v, store, rep.plain, rep.ids, p, dirID)
    requires entry in ReadDir(store, DirIdHash(v, dirID))
    ensures match Classify(v, store, DirIdHash(v, dirID), entry, dirID)
            case Skip => entry == DIR_ID_FILE
            case Broken => false
            case FolderFound(name, idPath) =>
              && entry == EntryOf(v, dirID, name) && p + [name] in rep.plain && rep.plain[p + [name]] == Folder
              && p + [name] in rep.ids && FileAt(store, idPath, v.lib.bytes(rep.ids[p + [name]]))
            case FileFound(name, path) =>
              && entry == EntryOf(v, dirID, name) && p + [name] in rep.plain && rep.plain[p + [name]].Regular?
              && Encrypts(v, store, path, rep.plain[p + [name]].data)
  {
    hide SoundText, SoundSiv, SoundHashes, SoundSeal, DirIdHash, EntryName, EncryptName, DecryptName,
         HasSuffix, ChildStored, Plaintext;
    var s := DirIdHash(v, dirID);
    ReadDirIs(store, s, entry);
    if entry != DIR_ID_FILE {
      var n :| p + [n] in rep.plain && entry == EntryOf(v, dirID, n);
      assert ChildStored(v, store, rep.plain, rep.ids, p, dirID, n);
      ChildIsFound(v, store, rep.plain, rep.ids, p, dirID, n);
      hide Classify;
    }
  }

  /** ReadFile: the bytes last written to a listed file. */
  method ReadFile(v: Vault, src: Store, storagePath: Path) returns (data: Option<Bytes>)
    requires Sound(v)
    ensures data.Some? ==> Encrypts(v, src.tree, storagePath, data.value)
    ensures forall plain {:trigger Encrypts(v, src.tree, storagePath, plain)} ::
              src.reliable && Encrypts(v, src.tree, storagePath, plain) ==> data == Some(plain)
  {
    hide SoundText, SoundSiv, SoundHashes, SoundSeal, Plaintext;
    var enc := src.ReadFile(storagePath);
    if enc == None { return None; }
    var out := new Writer();
    var reader := new Reader(enc.value, true);
    assert reader.Rest() == enc.value;
    var ok := DecryptContent(v, out, reader);
    if !ok { return None; }
    assert [] + Plaintext(v, enc.value).value == Plaintext(v, enc.value).value;
    data := Some(out.data);
  }
}
