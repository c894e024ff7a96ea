/** Writing one entry of a storage directory: a file, a folder, or a new storage directory. */
module VaultEntries {
  import opened FileSystem
  import opened Crypto
  import opened Names
  import opened Content
  import opened VaultStore
  import opened VaultIO

  /** What may be at an entry's path when a file is written there: nothing, or an earlier file
      of the same name. */
  ghost predicate FreeForFile(v: Vault, t: Tree, e: Path, enc: string) {
    e !in t || exists data, id :: EntryHolds(v, t, e, enc, Regular(data), id)
  }

  /** A folder of that name. */
  ghost predicate TakenByFolder(v: Vault, t: Tree, e: Path, enc: string) {
    exists id :: EntryHolds(v, t, e, enc, Folder, id)
  }

  ghost predicate StillHolds(v: Vault, t: Tree, u: Tree, e: Path, enc: string) {
    forall id :: EntryHolds(v, t, e, enc, Folder, id) ==> EntryHolds(v, u, e, enc, Folder, id)
  }

  lemma SameExceptTwice(t: Tree, u: Tree, w: Tree, e: Path, p: Path)
    requires SameExcept(t, u, e) && SameExcept(u, w, p) && Within(e, p)
    ensures SameExcept(t, w, e)
  {
    forall q | !Within(e, q)
      ensures !Within(p, q)
    {
      if Within(p, q) { WithinTransitive(e, p, q); }
    }
  }

  /** A new folder below an existing one adds that entry and nothing else. */
  lemma MkdirBelow(t: Tree, e: Path)
    requires Closed(t) && e != [] && FolderAt(t, Parent(e)) && (e !in t || FolderAt(t, e))
    ensures MkdirAll(t, e) == Some(if e in t then t else t[e := Folder])
    ensures SameExcept(t, MkdirAll(t, e).value, e) && FolderAt(MkdirAll(t, e).value, e)
  {
  }

  /** The file branch of encryptDir, WriteFile and addFile. Over a folder's entry it fails if the
      name is short; if it is long it adds the contents and succeeds, unless there is a folder
      where the contents go, but the entry stays the folder's. */
  method StoreFile(v: Vault, io: Store, s: Path, enc: string, plain: Bytes) returns (ok: bool)
    requires Sound(v) && Closed(io.tree) && FolderAt(io.tree, s)
    requires var e := s + [EntryName(v, enc)]; FreeForFile(v, io.tree, e, enc) || TakenByFolder(v, io.tree, e, enc)
    modifies io
    ensures Closed(io.tree) && SameExcept(old(io.tree), io.tree, s + [EntryName(v, enc)])
    ensures var e := s + [EntryName(v, enc)];
            && (ok && FreeForFile(v, old(io.tree), e, enc) ==> EntryHolds(v, io.tree, e, enc, Regular(plain), ""))
            && (io.reliable && FreeForFile(v, old(io.tree), e, enc) ==> ok)
            && (io.reliable && |enc| > SHORTENING_THRESHOLD ==> (ok <==> !FolderAt(old(io.tree), e + [CONTENTS_FILE])))
            && (ok || io.reliable ==> StillHolds(v, old(io.tree), io.tree, e, enc))
            && (TakenByFolder(v, old(io.tree), e, enc) && |enc| <= SHORTENING_THRESHOLD ==>
                !ok && io.tree == old(io.tree))
  {
    hide Plaintext, Sound, Closed;
    var e := s + [EntryName(v, enc)];
    ParentOfChild(s, EntryName(v, enc));
    var ct := EncryptBytes(v, plain);
    if |enc| > SHORTENING_THRESHOLD {
      ok := StoreLongFile(v, io, e, enc, ct, plain);
    } else {
      ok := io.WriteFile(e, ct);
    }
  }

  method StoreLongFile(v: Vault, io: Store, e: Path, enc: string, ct: Bytes, ghost plain: Bytes) returns (ok: bool)
    requires Closed(io.tree) && e != [] && FolderAt(io.tree, Parent(e)) && Plaintext(v, ct) == Some(plain)
    requires |enc| > SHORTENING_THRESHOLD && (FreeForFile(v, io.tree, e, enc) || TakenByFolder(v, io.tree, e, enc))
    modifies io
    ensures Closed(io.tree) && SameExcept(old(io.tree), io.tree, e)
    ensures ok && FreeForFile(v, old(io.tree), e, enc) ==> EntryHolds(v, io.tree, e, enc, Regular(plain), "")
    ensures io.reliable && FreeForFile(v, old(io.tree), e, enc) ==> ok
    ensures io.reliable ==> (ok <==> !FolderAt(old(io.tree), e + [CONTENTS_FILE]))
    ensures ok || io.reliable ==> StillHolds(v, old(io.tree), io.tree, e, enc)
  {
    hide Plaintext, Closed, FreeForFile, TakenByFolder, StillHolds, SameExcept;
    ghost var t0 := io.tree;
    ParentOfChild(e, NAME_FILE);
    ParentOfChild(e, CONTENTS_FILE);
    LongEntry(v, t0, e, enc);
    MkdirBelow(t0, e);
    NothingChanged(t0, e);
    ok := io.MakeDir(e);
    if !ok { return; }
    ghost var t1 := io.tree;
    ok := io.WriteFile(e + [NAME_FILE], v.lib.bytes(enc));
    ghost var t2 := io.tree;
    OtherEntryStays(t0, t1, t2, e);
    SameExceptTwice(t0, t1, t2, e, e + [NAME_FILE]);
    if !ok { return; }
    ok := io.WriteFile(e + [CONTENTS_FILE], ct);
    SameExceptTwice(t0, t2, io.tree, e, e + [CONTENTS_FILE]);
    FolderStillHolds(v, t0, t1, t2, io.tree, e, enc);
    if ok { LongFileHolds(v, t0, t1, t2, io.tree, e, enc, ct, plain); }
  }

  lemma NothingChanged(t: Tree, e: Path)
    ensures SameExcept(t, t, e)
  {
  }

  /** The name file leaves alone what is where the contents go. */
  lemma OtherEntryStays(t0: Tree, t1: Tree, t2: Tree, e: Path)
    requires (t1 == t0 || t1 == t0[e := Folder]) && FolderAt(t1, e) && SameExcept(t1, t2, e + [NAME_FILE])
    ensures FolderAt(t2, e) && (FolderAt(t2, e + [CONTENTS_FILE]) <==> FolderAt(t0, e + [CONTENTS_FILE]))
  {
    ParentOfChild(e, NAME_FILE);
    ParentOfChild(e, CONTENTS_FILE);
    assert !Within(e + [NAME_FILE], e + [CONTENTS_FILE]) by { assert NAME_FILE != CONTENTS_FILE; }
  }

  /** What is known about a long name's entry before a file is written to it. */
  lemma LongEntry(v: Vault, t: Tree, e: Path, enc: string)
    requires Closed(t) && |enc| > SHORTENING_THRESHOLD && (FreeForFile(v, t, e, enc) || TakenByFolder(v, t, e, enc))
    ensures (e !in t || FolderAt(t, e)) && !FolderAt(t, e + [NAME_FILE])
    ensures FreeForFile(v, t, e, enc) ==> !FolderAt(t, e + [CONTENTS_FILE]) && e + [DIR_FILE] !in t
  {
    if e !in t { NothingInside(t, e); }
  }

  lemma NothingInside(t: Tree, e: Path)
    requires Closed(t) && e !in t
    ensures forall name: string {:trigger e + [name]} :: e + [name] !in t
  {
    forall name: string
      ensures e + [name] !in t
    {
      ParentOfChild(e, name);
      NothingBelowAbsent(t, e, e + [name]);
    }
  }

  lemma LongFileHolds(v: Vault, t0: Tree, t1: Tree, t2: Tree, t3: Tree, e: Path, enc: string, ct: Bytes, plain: Bytes)
    requires |enc| > SHORTENING_THRESHOLD && Plaintext(v, ct) == Some(plain)
    requires Closed(t0) && FolderAt(t1, e) && (t1 == t0 || t1 == t0[e := Folder])
    requires SameExcept(t1, t2, e + [NAME_FILE]) && SameExcept(t2, t3, e + [CONTENTS_FILE])
    requires FileAt(t2, e + [NAME_FILE], v.lib.bytes(enc)) && FileAt(t3, e + [CONTENTS_FILE], ct)
    ensures FreeForFile(v, t0, e, enc) ==> EntryHolds(v, t3, e, enc, Regular(plain), "")
  {
    ParentOfChild(e, NAME_FILE);
    ParentOfChild(e, DIR_FILE);
    ParentOfChild(e, CONTENTS_FILE);
    if e !in t0 { NothingInside(t0, e); }
  }

  lemma FolderStillHolds(v: Vault, t0: Tree, t1: Tree, t2: Tree, t3: Tree, e: Path, enc: string)
    requires |enc| > SHORTENING_THRESHOLD
    requires FolderAt(t1, e) && (t1 == t0 || t1 == t0[e := Folder])
    requires SameExcept(t1, t2, e + [NAME_FILE]) && SameExcept(t2, t3, e + [CONTENTS_FILE])
    requires FileAt(t2, e + [NAME_FILE], v.lib.bytes(enc))
    ensures StillHolds(v, t0, t3, e, enc)
  {
    ParentOfChild(e, NAME_FILE);
    ParentOfChild(e, DIR_FILE);
    ParentOfChild(e, CONTENTS_FILE);
  }

  /** A folder's wrapper can be put over an entry that is a directory itself. */
  ghost predicate FreeForFolder(v: Vault, t: Tree, e: Path, enc: string) {
    || e !in t
    || TakenByFolder(v, t, e, enc)
    || (|enc| > SHORTENING_THRESHOLD && FreeForFile(v, t, e, enc))
  }

  /** The wrapper of a subfolder: the folder branch of encryptDir, MakeDir, createFolder and
      renameEntry, up to the storage directory. Whatever the entry was, it is the folder's now;
      only over a file with a short name it fails. */
  method StoreFolder(v: Vault, io: Store, s: Path, enc: string, id: string) returns (ok: bool)
    requires Closed(io.tree) && FolderAt(io.tree, s)
    modifies io
    ensures Closed(io.tree) && SameExcept(old(io.tree), io.tree, s + [EntryName(v, enc)])
    ensures ok ==> EntryHolds(v, io.tree, s + [EntryName(v, enc)], enc, Folder, id)
    ensures io.reliable && FreeForFolder(v, old(io.tree), s + [EntryName(v, enc)], enc) ==> ok
    ensures FileInWay(old(io.tree), s + [EntryName(v, enc)]) ==> !ok && io.tree == old(io.tree)
  {
    hide Closed, FreeForFolder;
    var e := s + [EntryName(v, enc)];
    ParentOfChild(s, EntryName(v, enc));
    ParentOfChild(e, NAME_FILE);
    ParentOfChild(e, DIR_FILE);
    ghost var t0 := io.tree;
    if FreeForFolder(v, t0, e, enc) { WrapperSpot(v, t0, e, enc); }
    if e !in t0 || FolderAt(t0, e) { MkdirBelow(t0, e); }
    ok := io.MakeDir(e);
    if !ok { return; }
    MkdirOverFile(t0, e);
    ghost var t1 := io.tree;
    if |enc| > SHORTENING_THRESHOLD {
      ok := io.WriteFile(e + [NAME_FILE], v.lib.bytes(enc));
      SameExceptTwice(t0, t1, io.tree, e, e + [NAME_FILE]);
      if !ok { return; }
    }
    ghost var t2 := io.tree;
    ok := io.WriteFile(e + [DIR_FILE], v.lib.bytes(id));
    SameExceptTwice(t0, t2, io.tree, e, e + [DIR_FILE]);
  }

  predicate FileInWay(t: Tree, e: Path) {
    e in t && t[e] != Folder
  }

  lemma MkdirOverFile(t: Tree, e: Path)
    ensures FileInWay(t, e) ==> MkdirAll(t, e) == None
  {
  }

  lemma WrapperSpot(v: Vault, t: Tree, e: Path, enc: string)
    requires Closed(t) && FreeForFolder(v, t, e, enc)
    ensures e !in t || FolderAt(t, e)
    ensures !FolderAt(t, e + [DIR_FILE]) && (|enc| > SHORTENING_THRESHOLD ==> !FolderAt(t, e + [NAME_FILE]))
  {
    if e !in t { NothingInside(t, e); }
  }

  /** Apart from the folders `d` and `d/XX` above it only the storage directory itself changes. */
  ghost predicate SameDeep(t: Tree, u: Tree, s: Path) {
    forall q {:trigger q in t} {:trigger q in u} :: |q| >= 3 && !Within(s, q) ==>
        (q in t <==> q in u) && (q in t ==> t[q] == u[q])
  }

  /** A new storage directory with its id file and nothing else. */
  ghost predicate EmptyStorage(v: Vault, t: Tree, dirID: string)
    requires Sound(v)
  {
    var s := DirIdHash(v, dirID);
    && FolderAt(t, s) && IdStored(v, t, dirID)
    && forall entry {:trigger s + [entry]} :: s + [entry] in t ==> entry == DIR_ID_FILE
  }

  /** os.MkdirAll of a storage directory and its dirid.c9r. */
  method MakeStorage(v: Vault, io: Store, dirID: string) returns (ok: bool)
    requires Sound(v) && Closed(io.tree) && DirIdHash(v, dirID) !in io.tree
    modifies io
    ensures Closed(io.tree) && SameDeep(old(io.tree), io.tree, DirIdHash(v, dirID))
    ensures ok ==> EmptyStorage(v, io.tree, dirID)
    ensures io.reliable && OnlyFoldersAbove(old(io.tree)) ==> ok
    ensures OnlyFoldersAbove(old(io.tree)) ==> OnlyFoldersAbove(io.tree)
    ensures SameExcept(old(io.tree), io.tree, ["d"])
  {
    hide SoundText, SoundSiv, SoundHashes, SoundSeal, Closed, Plaintext, DirIdHash;
    var s := DirIdHash(v, dirID);
    ghost var t0 := io.tree;
    ParentOfChild(s, DIR_ID_FILE);
    NothingInside(t0, s);
    StorageIsMade(t0, s);
    ok := io.MakeDir(s);
    if !ok { return; }
    var ct := EncryptBytes(v, v.lib.bytes(dirID));
    ghost var t1 := io.tree;
    ok := io.WriteFile(s + [DIR_ID_FILE], ct);
    IdFileIsAll(t1, io.tree, s);
    assert Within(["d"], s + [DIR_ID_FILE]);
    SameExceptTwice(t0, t1, io.tree, ["d"], s + [DIR_ID_FILE]);
  }

  /** `d` and the folders directly in it are folders. */
  ghost predicate OnlyFoldersAbove(t: Tree) {
    forall q {:trigger t[q]} :: q in t && |q| < 3 && Within(["d"], q) ==> t[q] == Folder
  }

  lemma StorageIsMade(t: Tree, s: Path)
    requires Closed(t) && |s| == 3 && s[0] == "d" && s !in t
    ensures OnlyFoldersAbove(t) ==> MkdirAll(t, s).Some?
    ensures MkdirAll(t, s).Some? ==>
      var u := MkdirAll(t, s).value;
      && FolderAt(u, s) && SameDeep(t, u, s)
      && (OnlyFoldersAbove(t) ==> OnlyFoldersAbove(u)) && SameExcept(t, u, ["d"])
      && forall entry: string {:trigger s + [entry]} :: s + [entry] !in u
  {
    if MkdirAll(t, s).Some? {
      MkdirAllKeepsClosed(t, s);
      NothingInside(t, s);
      forall q | !Within(["d"], q) && Within(q, s)
        ensures q == []
      {
      }
    } else {
      var k := FileInTheWay(t, s);
      assert s[..3] == s;
      assert Within(["d"], s[..k]);
    }
  }

  /** Making a folder fails only over a file at or above it. */
  lemma {:induction false} FileInTheWay(t: Tree, p: Path) returns (k: nat)
    requires Closed(t) && MkdirAll(t, p).None?
    ensures 0 < k <= |p| && p[..k] in t && t[p[..k]] != Folder
    decreases |p|
  {
    if p in t {
      k := |p|;
      assert p[..k] == p;
    } else {
      k := FileInTheWay(t, Parent(p));
      assert Parent(p)[..k] == p[..k];
    }
  }

  lemma IdFileIsAll(t: Tree, u: Tree, s: Path)
    requires |s| == 3 && FolderAt(t, s) && SameExcept(t, u, s + [DIR_ID_FILE])
    requires forall entry: string {:trigger s + [entry]} :: s + [entry] !in t
    ensures SameDeep(t, u, s) && FolderAt(u, s)
    ensures forall entry: string {:trigger s + [entry]} :: s + [entry] in u ==> entry == DIR_ID_FILE
    ensures OnlyFoldersAbove(t) ==> OnlyFoldersAbove(u)
  {
    ParentOfChild(s, DIR_ID_FILE);
    forall entry: string {:trigger s + [entry]} | s + [entry] in u
      ensures entry == DIR_ID_FILE
    {
      ParentOfChild(s, entry);
    }
    forall q | !Within(s, q)
      ensures !Within(s + [DIR_ID_FILE], q)
    {
      if Within(s + [DIR_ID_FILE], q) { WithinTransitive(s, s + [DIR_ID_FILE], q); }
    }
  }
}
