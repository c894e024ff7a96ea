/** What a flattened vault holds: when the storage directories below `d` represent a plain tree,
    and the steps with which single entries are written. */
module VaultStore {
  import opened FileSystem
  import opened Crypto
  import opened Names
  import opened Content

  /** The directory id of every folder of the plain tree. */
  type Ids = map<Path, string>

  const NAME_FILE := "name.c9s"
  const DIR_FILE := "dir.c9r"
  const CONTENTS_FILE := "contents.c9r"

  function EntryOf(v: Vault, dirID: string, name: string): string
    requires Sound(v)
  {
    EntryName(v, EncryptName(v, name, dirID))
  }

  ghost predicate FolderAt(t: Tree, p: Path) {
    p in t && t[p] == Folder
  }

  ghost predicate FileAt(t: Tree, p: Path, data: Bytes) {
    p in t && t[p] == Regular(data)
  }

  /** The file at `p` is there and decrypts to `plain`. */
  ghost predicate Encrypts(v: Vault, t: Tree, p: Path, plain: Bytes) {
    p in t && t[p].Regular? && Plaintext(v, t[p].data) == Some(plain)
  }

  /** The entry at `e` stands for a node whose encrypted name is `enc`; a folder's id is `id`. */
  ghost predicate EntryHolds(v: Vault, t: Tree, e: Path, enc: string, node: Node, id: string) {
    if |enc| > SHORTENING_THRESHOLD then
      && FolderAt(t, e) && FileAt(t, e + [NAME_FILE], v.lib.bytes(enc))
      && (match node
          case Folder => FileAt(t, e + [DIR_FILE], v.lib.bytes(id))
          case Regular(data) => e + [DIR_FILE] !in t && Encrypts(v, t, e + [CONTENTS_FILE], data))
    else
      match node
      case Folder => FolderAt(t, e) && FileAt(t, e + [DIR_FILE], v.lib.bytes(id))
      case Regular(data) => Encrypts(v, t, e, data)
  }

  function IdOf(ids: Ids, p: Path): string {
    if p in ids then ids[p] else ""
  }

  /** The child `name` of the folder with id `dirID` at `p` has its entry. */
  ghost predicate ChildStored(v: Vault, store: Tree, plain: Tree, ids: Ids, p: Path, dirID: string, name: string)
    requires Sound(v) && p + [name] in plain
  {
    && (plain[p + [name]] == Folder ==> p + [name] in ids)
    && EntryHolds(v, store, DirIdHash(v, dirID) + [EntryOf(v, dirID, name)], EncryptName(v, name, dirID),
                  plain[p + [name]], IdOf(ids, p + [name]))
  }

  ghost predicate StandsForChild(v: Vault, plain: Tree, p: Path, dirID: string, entry: string)
    requires Sound(v)
  {
    exists name :: p + [name] in plain && entry == EntryOf(v, dirID, name)
  }

  /** The id file of a storage directory holds that directory's own id, encrypted. */
  ghost predicate IdStored(v: Vault, t: Tree, dirID: string)
    requires Sound(v)
  {
    Encrypts(v, t, DirIdHash(v, dirID) + [DIR_ID_FILE], v.lib.bytes(dirID))
  }

  /** The storage directory `dirID` holds its id file and exactly the entries of the children of
      the folder at `p`. */
  ghost predicate DirStored(v: Vault, store: Tree, plain: Tree, ids: Ids, p: Path, dirID: string)
    requires Sound(v)
  {
    var s := DirIdHash(v, dirID);
    && FolderAt(store, s)
    && IdStored(v, store, dirID)
    && (forall entry {:trigger s + [entry]} :: s + [entry] in store ==>
          entry == DIR_ID_FILE || StandsForChild(v, plain, p, dirID, entry))
    && (forall name {:trigger p + [name]} :: p + [name] in plain ==> ChildStored(v, store, plain, ids, p, dirID, name))
  }

  ghost predicate IdsOk(plain: Tree, ids: Ids) {
    && (forall p {:trigger p in ids} :: p in ids <==> p in plain && plain[p] == Folder)
    && (forall p, q {:trigger ids[p], ids[q]} :: p in ids && q in ids && ids[p] == ids[q] ==> p == q)
  }

  /** The store represents the plain tree, folder by folder, under pairwise different ids. */
  ghost predicate Represents(v: Vault, store: Tree, plain: Tree, ids: Ids)
    requires Sound(v)
  {
    && Closed(store) && Closed(plain) && IdsOk(plain, ids) && ids[[]] == ""
    && forall p {:trigger ids[p]} :: p in ids ==> DirStored(v, store, plain, ids, p, ids[p])
  }

  // ---------- what does not touch an entry leaves it standing ----------

  ghost predicate SameWithin(t: Tree, u: Tree, top: Path) {
    forall q {:trigger q in t} {:trigger q in u} :: Within(top, q) ==> (q in t <==> q in u) && (q in t ==> t[q] == u[q])
  }

  ghost predicate SameExcept(t: Tree, u: Tree, top: Path) {
    forall q {:trigger q in t} {:trigger q in u} :: !Within(top, q) ==>
        (q in t <==> q in u) && (q in t ==> t[q] == u[q])
  }

  lemma SameBelow(t: Tree, u: Tree, top: Path, p: Path)
    requires SameWithin(t, u, top) && Within(top, p)
    ensures SameWithin(t, u, p)
  {
    forall q | Within(p, q)
      ensures Within(top, q)
    {
      WithinTransitive(top, p, q);
    }
  }

  lemma SameBeside(t: Tree, u: Tree, top: Path, p: Path)
    requires SameExcept(t, u, top) && |top| == |p| && top != p
    ensures SameWithin(t, u, p)
  {
  }

  lemma EntryFrame(v: Vault, t: Tree, u: Tree, e: Path, enc: string, node: Node, id: string)
    requires SameWithin(t, u, e) && EntryHolds(v, t, e, enc, node, id)
    ensures EntryHolds(v, u, e, enc, node, id)
  {
    hide Plaintext;
    ParentOfChild(e, NAME_FILE);
    ParentOfChild(e, DIR_FILE);
    ParentOfChild(e, CONTENTS_FILE);
    assert Within(e, e);
  }

  lemma ChildFrame(v: Vault, t: Tree, u: Tree, plain: Tree, ids: Ids, ids': Ids, p: Path, dirID: string, name: string)
    requires Sound(v) && p + [name] in plain && ChildStored(v, t, plain, ids, p, dirID, name)
    requires SameWithin(t, u, DirIdHash(v, dirID) + [EntryOf(v, dirID, name)])
    requires p + [name] in ids ==> p + [name] in ids' && ids'[p + [name]] == ids[p + [name]]
    ensures ChildStored(v, u, plain, ids', p, dirID, name)
  {
    hide SoundText, SoundSiv, SoundHashes, SoundSeal, EntryHolds, EntryOf, DirIdHash, EncryptName, SameWithin;
    if plain[p + [name]] == Folder {
      EntryFrame(v, t, u, DirIdHash(v, dirID) + [EntryOf(v, dirID, name)], EncryptName(v, name, dirID),
                 plain[p + [name]], IdOf(ids, p + [name]));
    } else {
      FileEntryFrame(v, t, u, DirIdHash(v, dirID) + [EntryOf(v, dirID, name)], EncryptName(v, name, dirID),
                     plain[p + [name]], IdOf(ids, p + [name]), IdOf(ids', p + [name]));
    }
  }

  lemma FileEntryFrame(v: Vault, t: Tree, u: Tree, e: Path, enc: string, node: Node, id: string, id': string)
    requires SameWithin(t, u, e) && EntryHolds(v, t, e, enc, node, id) && node != Folder
    ensures EntryHolds(v, u, e, enc, node, id')
  {
    EntryFrame(v, t, u, e, enc, node, id);
  }

  lemma IdFrame(v: Vault, t: Tree, u: Tree, dirID: string)
    requires Sound(v) && IdStored(v, t, dirID) && SameWithin(t, u, DirIdHash(v, dirID))
    ensures IdStored(v, u, dirID)
  {
    hide SoundText, SoundSiv, SoundHashes, SoundSeal, DirIdHash, Plaintext;
    ParentOfChild(DirIdHash(v, dirID), DIR_ID_FILE);
  }

  /** Writing an entry leaves the id file of its directory alone. */
  lemma IdBesideEntry(v: Vault, t: Tree, u: Tree, dirID: string, name: string)
    requires Sound(v) && IdStored(v, t, dirID) && SameExcept(t, u, DirIdHash(v, dirID) + [EntryOf(v, dirID, name)])
    ensures IdStored(v, u, dirID)
  {
    EntryShape(v, name, dirID);
    hide SoundText, SoundSiv, SoundHashes, SoundSeal, DirIdHash, EncryptName, EntryName, Plaintext;
    var s := DirIdHash(v, dirID);
    var e := s + [EntryOf(v, dirID, name)];
    assert (s + [DIR_ID_FILE])[|s|] == DIR_ID_FILE && e[|s|] == EntryOf(v, dirID, name);
    assert Within(e, s + [DIR_ID_FILE]) ==> e == s + [DIR_ID_FILE];
  }

  /** The id of every represented folder can be read back from its own storage directory, and no
      two folders' id files hold the same. */
  lemma IdIsReadBack(v: Vault, store: Tree, plain: Tree, ids: Ids, p: Path)
    requires Sound(v) && Represents(v, store, plain, ids) && p in ids
    ensures var f := DirIdHash(v, ids[p]) + [DIR_ID_FILE];
            && f in store && store[f].Regular? && Plaintext(v, store[f].data).Some?
            && v.lib.text(Plaintext(v, store[f].data).value) == ids[p]
            && forall q :: q in ids && Encrypts(v, store, DirIdHash(v, ids[q]) + [DIR_ID_FILE], v.lib.bytes(ids[p])) ==>
                q == p
  {
    var f := DirIdHash(v, ids[p]) + [DIR_ID_FILE];
    assert DirStored(v, store, plain, ids, p, ids[p]) && v.lib.text(v.lib.bytes(ids[p])) == ids[p];
    hide Plaintext, SoundSiv, SoundHashes, SoundSeal, ChildStored, StandsForChild;
    forall q | q in ids && Encrypts(v, store, DirIdHash(v, ids[q]) + [DIR_ID_FILE], v.lib.bytes(ids[p]))
      ensures q == p
    {
      assert DirStored(v, store, plain, ids, q, ids[q]);
      assert v.lib.text(v.lib.bytes(ids[q])) == ids[q];
    }
  }

  /** A storage directory nobody touched still stands for its folder. */
  lemma DirFrame(v: Vault, t: Tree, u: Tree, plain: Tree, ids: Ids, ids': Ids, p: Path, dirID: string)
    requires Sound(v) && DirStored(v, t, plain, ids, p, dirID) && SameWithin(t, u, DirIdHash(v, dirID))
    requires forall q {:trigger q in ids} :: q in ids && q != [] && Parent(q) == p ==> q in ids' && ids'[q] == ids[q]
    ensures DirStored(v, u, plain, ids', p, dirID)
  {
    hide SoundText, SoundSiv, SoundHashes, SoundSeal, EntryHolds, EntryOf, DirIdHash, EncryptName, ChildStored,
         StandsForChild;
    var s := DirIdHash(v, dirID);
    assert Within(s, s);
    IdFrame(v, t, u, dirID);
    forall entry {:trigger s + [entry]} | s + [entry] in u
      ensures entry == DIR_ID_FILE || StandsForChild(v, plain, p, dirID, entry)
    {
      ParentOfChild(s, entry);
    }
    forall name {:trigger p + [name]} | p + [name] in plain
      ensures ChildStored(v, u, plain, ids', p, dirID, name)
    {
      ParentOfChild(p, name);
      ParentOfChild(s, EntryOf(v, dirID, name));
      SameBelow(t, u, s, s + [EntryOf(v, dirID, name)]);
      ChildFrame(v, t, u, plain, ids, ids', p, dirID, name);
    }
  }
}
