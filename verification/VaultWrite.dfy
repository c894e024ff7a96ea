/** VaultTree.swift and VaultWrite.swift: listing, adding, deleting and renaming entries. */
module VaultWrite {
  import opened FileSystem
  import opened Crypto
  import opened Names
  import opened Content
  import opened VaultStore
  import opened VaultIO
  import opened VaultEntries
  import opened EncryptTree
  import opened DecryptTree
  import opened Lazy

  /** VaultEntry: what is listed, and the path of its entry in storage. */
  datatype Entry = Entry(view: VEntry, encPath: Path)

  function Views(out: seq<Entry>): (views: seq<VEntry>)
    ensures |views| == |out| && forall i :: 0 <= i < |out| ==> views[i] == out[i].view
  {
    seq(|out|, i requires 0 <= i < |out| => out[i].view)
  }

  ghost predicate PathsOk(v: Vault, dirID: string, out: seq<Entry>)
    requires Sound(v)
  {
    forall i :: 0 <= i < |out| ==> out[i].encPath == DirIdHash(v, dirID) + [EntryOf(v, dirID, out[i].view.name)]
  }

  ghost predicate EntriesSoFar(v: Vault, t: Tree, rep: Rep, p: Path, dirID: string, out: seq<Entry>, done: set<string>,
                               complete: bool)
    requires Sound(v)
  {
    ListsSoFar(v, t, rep.plain, rep.ids, p, dirID, Views(out), done, complete) && PathsOk(v, dirID, out)
  }

  lemma EntriesStart(v: Vault, t: Tree, rep: Rep, p: Path, dirID: string, complete: bool)
    requires Sound(v)
    ensures EntriesSoFar(v, t, rep, p, dirID, [], {}, complete)
  {
    NothingListed(v, t, rep, p, dirID);
    assert Views([]) == [];
  }

  lemma OneMoreEntry(v: Vault, t: Tree, rep: Rep, p: Path, dirID: string, out: seq<Entry>, done: set<string>,
                     complete: bool, e: Entry)
    requires Sound(v) && EntriesSoFar(v, t, rep, p, dirID, out, done, complete)
    requires ListsChild(v, t, rep.plain, rep.ids, p, e.view) && EntryOf(v, dirID, e.view.name) !in done
    requires e.encPath == DirIdHash(v, dirID) + [EntryOf(v, dirID, e.view.name)]
    ensures EntriesSoFar(v, t, rep, p, dirID, out + [e], done + {EntryOf(v, dirID, e.view.name)}, complete)
  {
    hide SoundText, SoundSiv, SoundHashes, SoundSeal, DirIdHash, EntryOf, ListsSoFar, ListsChild;
    OneMoreListed(v, t, rep.plain, rep.ids, p, dirID, Views(out), done, complete, e.view);
    assert Views(out + [e]) == Views(out) + [e.view];
  }

  /** An entry whose files could not be listed is passed over. */
  lemma EntryMissed(v: Vault, t: Tree, rep: Rep, p: Path, dirID: string, out: seq<Entry>, done: set<string>,
                    entry: string)
    requires Sound(v) && EntriesSoFar(v, t, rep, p, dirID, out, done, false)
    ensures EntriesSoFar(v, t, rep, p, dirID, out, done + {entry}, false)
  {
    hide SoundText, SoundSiv, SoundHashes, SoundSeal, DirIdHash, EntryOf, ListsOnly;
  }

  lemma IdFileEntry(v: Vault, t: Tree, rep: Rep, p: Path, dirID: string, out: seq<Entry>, done: set<string>,
                    complete: bool)
    requires Sound(v) && EntriesSoFar(v, t, rep, p, dirID, out, done, complete)
    ensures EntriesSoFar(v, t, rep, p, dirID, out, done + {DIR_ID_FILE}, complete)
  {
    IdFileListed(v, t, rep.plain, rep.ids, p, dirID, Views(out), done, complete);
  }

  // ---------- listing any directory ----------

  /** A shortened entry whose name can be read but that has neither file. */
  ghost predicate WithoutFiles(v: Vault, t: Tree, dirID: string, entry: string)
    requires Sound(v)
  {
    var e := DirIdHash(v, dirID) + [entry];
    && entry != DIR_ID_FILE && HasSuffix(entry, C9S) && FolderAt(t, e)
    && e + [NAME_FILE] in t && t[e + [NAME_FILE]].Regular?
    && DecryptName(v, v.lib.text(t[e + [NAME_FILE]].data), dirID).Some?
    && e + [DIR_FILE] !in t && e + [CONTENTS_FILE] !in t
  }

  /** What is passed over without an error: entries that are no names, and shortened ones that have
      neither file or whose files could not be listed. */
  ghost predicate PassedOver(v: Vault, t: Tree, dirID: string, entry: string, reliable: bool)
    requires Sound(v)
  {
    || IsSkipped(v, t, dirID, entry) || WithoutFiles(v, t, dirID, entry)
    || (!reliable && HasSuffix(entry, C9S) && FolderAt(t, DirIdHash(v, dirID) + [entry]))
  }

  /** `out` lists the entries `from`, in that order, with their paths; all others of `seen` have
      been passed over. */
  ghost predicate ListsEach(v: Vault, t: Tree, dirID: string, out: seq<Entry>, from: seq<string>, seen: set<string>,
                            reliable: bool)
    requires Sound(v)
  {
    && |from| == |out|
    && (forall i, j :: 0 <= i < j < |from| ==> from[i] != from[j])
    && (forall i :: 0 <= i < |from| ==>
          from[i] in seen && ViewOf(v, t, dirID, from[i], out[i].view)
              && out[i].encPath == DirIdHash(v, dirID) + [from[i]])
    && (forall entry {:trigger entry in seen} :: entry in seen ==>
          PassedOver(v, t, dirID, entry, reliable) || entry in from)
  }

  /** Every entry can be listed or is passed over. */
  ghost predicate Readable(v: Vault, t: Tree, dirID: string)
    requires Sound(v)
  {
    && FolderAt(t, DirIdHash(v, dirID))
    && forall entry {:trigger PassedOver(v, t, dirID, entry, true)} :: entry in ReadDir(t, DirIdHash(v, dirID)) ==>
         PassedOver(v, t, dirID, entry, true) || exists e :: ViewOf(v, t, dirID, entry, e)
  }

  lemma NothingYet(v: Vault, t: Tree, dirID: string, reliable: bool)
    requires Sound(v)
    ensures ListsEach(v, t, dirID, [], [], {}, reliable)
    ensures Readable(v, t, dirID) ==> FolderAt(t, DirIdHash(v, dirID))
  {
  }

  lemma OneListed(v: Vault, t: Tree, dirID: string, out: seq<Entry>, from: seq<string>, seen: set<string>,
                  reliable: bool, entry: string, e: Entry)
    requires Sound(v) && ListsEach(v, t, dirID, out, from, seen, reliable) && entry !in seen
    requires ViewOf(v, t, dirID, entry, e.view) && e.encPath == DirIdHash(v, dirID) + [entry]
    ensures ListsEach(v, t, dirID, out + [e], from + [entry], seen + {entry}, reliable)
  {
    hide SoundText, SoundSiv, SoundHashes, SoundSeal, ViewOf, PassedOver, DirIdHash;
  }

  lemma OnePassedOver(v: Vault, t: Tree, dirID: string, out: seq<Entry>, from: seq<string>, seen: set<string>,
                      reliable: bool, entry: string)
    requires Sound(v) && ListsEach(v, t, dirID, out, from, seen, reliable) && PassedOver(v, t, dirID, entry, reliable)
    ensures ListsEach(v, t, dirID, out, from, seen + {entry}, reliable)
  {
    hide SoundText, SoundSiv, SoundHashes, SoundSeal, ViewOf, PassedOver, DirIdHash;
  }

  lemma EachIsReadable(v: Vault, t: Tree, dirID: string, out: seq<Entry>, from: seq<string>)
    requires Sound(v) && FolderAt(t, DirIdHash(v, dirID))
    requires ListsEach(v, t, dirID, out, from, ReadDir(t, DirIdHash(v, dirID)), true)
    ensures Readable(v, t, dirID)
  {
    hide SoundText, SoundSiv, SoundHashes, SoundSeal, ViewOf, PassedOver, DirIdHash, ReadDir;
    forall entry | entry in ReadDir(t, DirIdHash(v, dirID)) && !PassedOver(v, t, dirID, entry, true)
      ensures exists e :: ViewOf(v, t, dirID, entry, e)
    {
      var i :| 0 <= i < |from| && from[i] == entry;
      assert ViewOf(v, t, dirID, entry, out[i].view);
    }
  }

  lemma NotReadable(v: Vault, t: Tree, dirID: string, entry: string)
    requires Sound(v) && entry in ReadDir(t, DirIdHash(v, dirID)) && !PassedOver(v, t, dirID, entry, true)
    requires forall e :: !ViewOf(v, t, dirID, entry, e)
    ensures !Readable(v, t, dirID)
  {
    hide SoundText, SoundSiv, SoundHashes, SoundSeal, ViewOf, PassedOver, DirIdHash, ReadDir;
  }

  lemma BrokenIsNotReadable(v: Vault, t: Tree, dirID: string, entry: string)
    requires Sound(v) && entry in ReadDir(t, DirIdHash(v, dirID)) && !WithoutFiles(v, t, dirID, entry)
    requires match Classify(v, t, DirIdHash(v, dirID), entry, dirID)
             case Skip => false
             case Broken => true
             case FileFound(_, _) => false
             case FolderFound(_, idPath) => !(idPath in t && t[idPath].Regular?)
    ensures !Readable(v, t, dirID)
  {
    hide SoundText, SoundSiv, SoundHashes, SoundSeal, Classify, DirIdHash, ReadDir, Readable, WithoutFiles;
    NotReadable(v, t, dirID, entry);
  }

  lemma FilesMakeIt(v: Vault, t: Tree, dirID: string, entry: string)
    requires Sound(v) && Classify(v, t, DirIdHash(v, dirID), entry, dirID).FolderFound?
    ensures !WithoutFiles(v, t, dirID, entry)
  {
    hide SoundText, SoundSiv, SoundHashes, SoundSeal, DecryptName, HasSuffix, DirIdHash;
  }

  /** One step of listEntries: what it makes of an entry. A shortened entry whose files cannot be
      listed, or that has neither file, is passed over without an error. */
  method Inspect(v: Vault, source: Store, s: Path, entry: string, dirID: string) returns (ok: bool, found: Found)
    requires Sound(v) && s == DirIdHash(v, dirID)
    ensures ok && found != Skip ==> found == Classify(v, source.tree, s, entry, dirID)
    ensures ok && found == Skip ==> PassedOver(v, source.tree, dirID, entry, source.reliable)
    ensures source.reliable ==>
              (ok <==>
                 Classify(v, source.tree, s, entry, dirID) != Broken || WithoutFiles(v, source.tree, dirID, entry))
    ensures found != Broken || !ok
  {
    hide SoundText, SoundHashes, SoundSeal, DecryptName, HasSuffix;
    found := Broken;
    var e := s + [entry];
    if entry == DIR_ID_FILE { return true, Skip; }
    if HasSuffix(entry, C9S) && e in source.tree && source.tree[e] == Folder {
      var full := source.ReadFile(e + [NAME_FILE]);
      if full == None { return false, found; }
      var plain := DecryptName(v, v.lib.text(full.value), dirID);
      if plain == None { return false, found; }
      var listed := source.ListDir(e);
      var children := if listed.Some? then listed.value else {};
      ReadDirIs(source.tree, e, DIR_FILE);
      ReadDirIs(source.tree, e, CONTENTS_FILE);
      if DIR_FILE in children { return true, FolderFound(plain.value, e + [DIR_FILE]); }
      if CONTENTS_FILE in children && DIR_FILE !in children {
        return true, FileFound(plain.value, e + [CONTENTS_FILE]);
      }
      return true, Skip;
    }
    if !HasSuffix(entry, C9R) { return true, Skip; }
    var plain := DecryptName(v, entry, dirID);
    if plain == None { return false, found; }
    if e in source.tree && source.tree[e] == Folder { return true, FolderFound(plain.value, e + [DIR_FILE]); }
    return true, FileFound(plain.value, e);
  }

  /** listEntries: of any directory every entry is listed, once and with its path, or passed over; on
      a source that fails nowhere it succeeds exactly when each can be. Of a directory in step with
      a plain folder only children are listed, and all of them if the source fails nowhere. */
  method ListEntries(v: Vault, source: Store, dirID: string, ghost rep: Option<Rep>, ghost p: Path)
      returns (ok: bool, out: seq<Entry>, ghost from: seq<string>)
    requires Sound(v)
    requires rep.Some? ==> DirStored(v, source.tree, rep.value.plain, rep.value.ids, p, dirID)
    ensures ok ==> ListsEach(v, source.tree, dirID, out, from, ReadDir(source.tree, DirIdHash(v, dirID)),
                             source.reliable)
    ensures source.reliable ==> (ok <==> Readable(v, source.tree, dirID))
    ensures rep.Some? && ok ==>
              && ListsOnly(v, source.tree, rep.value.plain, rep.value.ids, p, Views(out))
              && PathsOk(v, dirID, out)
    ensures rep.Some? && source.reliable ==>
              ok && ListsExactly(v, source.tree, rep.value.plain, rep.value.ids, p, Views(out))
  {
    hide SoundText, SoundSiv, SoundHashes, SoundSeal, DirIdHash, EncryptName, EntryName, DirStored, ReadDir,
         ListsChild, ListsOnly, ListsExactly, EntriesSoFar, Classify, ListsEach, Readable, PassedOver, ViewOf, PathsOk,
         EntryOf;
    out, from := [], [];
    NothingYet(v, source.tree, dirID, source.reliable);
    var storage := DirIdHash(v, dirID);
    var complete := source.reliable;
    if rep.Some? {
      StorageIsThere(v, source.tree, rep.value, p, dirID);
      EntriesStart(v, source.tree, rep.value, p, dirID, complete);
    }
    var names := source.ListDir(storage);
    if names == None { return false, out, from; }
    var rest := names.value;
    ghost var done: set<string> := {};
    while rest != {}
      invariant done !! rest && done + rest == names.value
      invariant rep.Some? ==> EntriesSoFar(v, source.tree, rep.value, p, dirID, out, done, complete)
      invariant ListsEach(v, source.tree, dirID, out, from, done, source.reliable)
      decreases |rest|
    {
      var entry :| entry in rest;
      rest := rest - {entry};
      var e;
      ok, e := ListEntry(v, source, storage, entry, dirID, rep, p);
      if !ok { return; }
      match e {
        case None =>
          OnePassedOver(v, source.tree, dirID, out, from, done, source.reliable, entry);
          if rep.Some? {
            if complete { IdFileEntry(v, source.tree, rep.value, p, dirID, out, done, complete); }
            else { EntryMissed(v, source.tree, rep.value, p, dirID, out, done, entry); }
          }
        case Some(listed) =>
          OneListed(v, source.tree, dirID, out, from, done, source.reliable, entry, listed);
          if rep.Some? { OneMoreEntry(v, source.tree, rep.value, p, dirID, out, done, complete, listed); }
          out, from := out + [listed], from + [entry];
      }
      done := done + {entry};
    }
    assert done == names.value;
    if source.reliable { EachIsReadable(v, source.tree, dirID, out, from); }
    if rep.Some? { AllEntries(v, source.tree, rep.value, p, dirID, out, done, complete); }
    ok := true;
  }

  /** What the loop of listEntries makes of one entry. */
  method ListEntry(v: Vault, source: Store, storage: Path, entry: string, dirID: string, ghost rep: Option<Rep>,
                   ghost p: Path)
      returns (ok: bool, e: Option<Entry>)
    requires Sound(v) && storage == DirIdHash(v, dirID) && entry in ReadDir(source.tree, storage)
    requires rep.Some? ==> DirStored(v, source.tree, rep.value.plain, rep.value.ids, p, dirID)
    ensures ok && e.Some? ==> ViewOf(v, source.tree, dirID, entry, e.value.view) && e.value.encPath == storage + [entry]
    ensures ok && e.None? ==> PassedOver(v, source.tree, dirID, entry, source.reliable)
    ensures !ok && source.reliable ==> !Readable(v, source.tree, dirID)
    ensures rep.Some? && ok && e.Some? ==>
              && ListsChild(v, source.tree, rep.value.plain, rep.value.ids, p, e.value.view)
              && entry == EntryOf(v, dirID, e.value.view.name)
    ensures rep.Some? && source.reliable ==> ok && (e.None? ==> entry == DIR_ID_FILE)
  {
    hide SoundText, SoundSiv, SoundHashes, SoundSeal, DirIdHash, EncryptName, EntryName, EntryOf, DirStored, ReadDir,
         ListsChild, Classify, Readable, PassedOver, WithoutFiles, IsSkipped, ViewOf, HasSuffix;
    e := None;
    if rep.Some? {
      EntryIsKnown(v, source.tree, rep.value, p, dirID, entry);
      KnownIsNotPassedOver(v, source.tree, dirID, entry);
    }
    var found;
    ok, found := Inspect(v, source, storage, entry, dirID);
    if !ok {
      if source.reliable { BrokenIsNotReadable(v, source.tree, dirID, entry); }
      return;
    }
    FoundView(v, source.tree, dirID, entry, Classify(v, source.tree, storage, entry, dirID));
    match found {
      case Skip =>
      case FolderFound(name, idPath) =>
        var id := source.ReadFile(idPath);
        if id == None {
          FilesMakeIt(v, source.tree, dirID, entry);
          if source.reliable { BrokenIsNotReadable(v, source.tree, dirID, entry); }
          return false, e;
        }
        e := Some(Entry(VFolder(name, v.lib.text(id.value)), storage + [entry]));
        if rep.Some? {
          TextRoundTrip(v, IdOf(rep.value.ids, p + [name]));
          FoundIsChild(v, source.tree, rep.value, p, e.value.view);
        }
      case FileFound(name, path) =>
        e := Some(Entry(VFile(name, path), storage + [entry]));
        if rep.Some? { FoundIsChild(v, source.tree, rep.value, p, e.value.view); }
    }
  }

  /** What has its files is listed on a source that fails nowhere. */
  lemma KnownIsNotPassedOver(v: Vault, t: Tree, dirID: string, entry: string)
    requires Sound(v)
    ensures var found := Classify(v, t, DirIdHash(v, dirID), entry, dirID);
            found != Skip && found != Broken ==> !PassedOver(v, t, dirID, entry, true)
  {
    hide SoundText, SoundSiv, SoundHashes, SoundSeal, DecryptName, HasSuffix, DirIdHash;
  }

  lemma StorageIsThere(v: Vault, t: Tree, rep: Rep, p: Path, dirID: string)
    requires Sound(v) && DirStored(v, t, rep.plain, rep.ids, p, dirID)
    ensures FolderAt(t, DirIdHash(v, dirID))
  {
  }

  lemma AllEntries(v: Vault, t: Tree, rep: Rep, p: Path, dirID: string, out: seq<Entry>, done: set<string>,
                   complete: bool)
    requires Sound(v) && EntriesSoFar(v, t, rep, p, dirID, out, done, complete)
    requires DirStored(v, t, rep.plain, rep.ids, p, dirID) && done == ReadDir(t, DirIdHash(v, dirID))
    ensures ListsOnly(v, t, rep.plain, rep.ids, p, Views(out)) && PathsOk(v, dirID, out)
    ensures complete ==> ListsExactly(v, t, rep.plain, rep.ids, p, Views(out))
  {
    AllListed(v, t, rep.plain, rep.ids, p, dirID, Views(out), done, complete);
  }

  // ---------- deleteEntry ----------

  ghost predicate SubtreeIntact(v: Vault, t: Tree, rep: Rep, p: Path)
    requires Sound(v)
  {
    forall r {:trigger rep.ids[r]} :: r in rep.ids && Within(p, r) ==>
        DirStored(v, t, rep.plain, rep.ids, r, rep.ids[r])
  }

  function IdsAt(ids: Ids, p: Path): set<string> {
    set r | r in ids && Within(p, r) :: ids[r]
  }

  /** No storage is left of the folders at and below `p`. */
  ghost predicate StorageGone(v: Vault, t: Tree, ids: Ids, p: Path)
    requires Sound(v)
  {
    forall r {:trigger ids[r]} :: r in ids && Within(p, r) ==> DirIdHash(v, ids[r]) !in t
  }

  lemma IntactBeside(v: Vault, t: Tree, u: Tree, rep: Rep, p: Path, ids: set<string>)
    requires Sound(v) && SubtreeIntact(v, t, rep, p) && OthersSame(v, t, u, ids)
    requires forall r {:trigger rep.ids[r]} :: r in rep.ids && Within(p, r) ==> rep.ids[r] !in ids
    ensures SubtreeIntact(v, u, rep, p)
  {
    hide SoundText, SoundSiv, SoundHashes, SoundSeal, DirIdHash, DirStored;
    forall r | r in rep.ids && Within(p, r)
      ensures DirStored(v, u, rep.plain, rep.ids, r, rep.ids[r])
    {
      DirFrame(v, t, u, rep.plain, rep.ids, rep.ids, r, rep.ids[r]);
    }
  }

  lemma GoneStays(v: Vault, t: Tree, u: Tree, ids: Ids, p: Path, others: set<string>)
    requires Sound(v) && StorageGone(v, t, ids, p) && OthersSame(v, t, u, others)
    requires forall r {:trigger ids[r]} :: r in ids && Within(p, r) ==> ids[r] !in others
    ensures StorageGone(v, u, ids, p)
  {
    hide SoundText, SoundSiv, SoundHashes, SoundSeal, DirIdHash;
    forall r | r in ids && Within(p, r)
      ensures DirIdHash(v, ids[r]) !in u
    {
      assert Within(DirIdHash(v, ids[r]), DirIdHash(v, ids[r]));
    }
  }

  /** Sibling folders have no ids in common. */
  lemma SiblingsApart(rep: Rep, p: Path, a: string, b: string)
    requires IdsOk(rep.plain, rep.ids) && a != b
    ensures forall r {:trigger rep.ids[r]} :: r in rep.ids && Within(p + [a], r) ==>
              rep.ids[r] !in IdsAt(rep.ids, p + [b])
  {
    forall r, q | r in rep.ids && Within(p + [a], r) && q in rep.ids && Within(p + [b], q)
      ensures rep.ids[r] != rep.ids[q]
    {
      assert r[..|p| + 1] == p + [a] && q[..|p| + 1] == p + [b];
      assert r[..|p| + 1][|p|] == a && q[..|p| + 1][|p|] == b;
      assert r != q;
    }
  }

  /** The folders below the children `names` are gone, those below the others still there. */
  ghost predicate HalfGone(v: Vault, t: Tree, rep: Rep, p: Path, names: set<string>, reliable: bool)
    requires Sound(v)
  {
    && (forall n {:trigger p + [n]} :: n !in names ==> SubtreeIntact(v, t, rep, p + [n]))
    && (reliable ==> forall n {:trigger p + [n]} :: n in names ==> StorageGone(v, t, rep.ids, p + [n]))
  }

  lemma ChildGone(v: Vault, t: Tree, u: Tree, rep: Rep, p: Path, names: set<string>, name: string, reliable: bool)
    requires Sound(v) && IdsOk(rep.plain, rep.ids) && HalfGone(v, t, rep, p, names, reliable) && name !in names
    requires OthersSame(v, t, u, IdsAt(rep.ids, p + [name])) && (reliable ==> StorageGone(v, u, rep.ids, p + [name]))
    ensures HalfGone(v, u, rep, p, names + {name}, reliable)
  {
    hide SoundText, SoundSiv, SoundHashes, SoundSeal, DirIdHash, DirStored, SubtreeIntact, StorageGone,
         OthersSame, IdsOk;
    forall n {:trigger p + [n]} | n !in names + {name}
      ensures SubtreeIntact(v, u, rep, p + [n])
    {
      SiblingsApart(rep, p, n, name);
      IntactBeside(v, t, u, rep, p + [n], IdsAt(rep.ids, p + [name]));
    }
    if reliable {
      forall n {:trigger p + [n]} | n in names + {name}
        ensures StorageGone(v, u, rep.ids, p + [n])
      {
        if n != name {
          SiblingsApart(rep, p, n, name);
          GoneStays(v, t, u, rep.ids, p + [n], IdsAt(rep.ids, p + [name]));
        }
      }
    }
  }

  lemma NoneGoneYet(v: Vault, t: Tree, rep: Rep, p: Path, reliable: bool)
    requires Sound(v) && SubtreeIntact(v, t, rep, p)
    ensures HalfGone(v, t, rep, p, {}, reliable)
  {
    forall n: string, r | Within(p + [n], r)
      ensures Within(p, r)
    {
      ParentOfChild(p, n);
      WithinTransitive(p, p + [n], r);
    }
  }

  /** When every subfolder is gone and the folder's own storage too, nothing is left. */
  lemma AllGone(v: Vault, t: Tree, u: Tree, rep: Rep, p: Path, names: set<string>)
    requires Sound(v) && IdsOk(rep.plain, rep.ids) && Closed(rep.plain) && p in rep.ids
    requires HalfGone(v, t, rep, p, names, true) && OthersSame(v, t, u, {rep.ids[p]}) && DirIdHash(v, rep.ids[p]) !in u
    requires forall n {:trigger p + [n]} :: p + [n] in rep.ids ==> n in names
    ensures StorageGone(v, u, rep.ids, p)
  {
    hide SoundText, SoundSiv, SoundHashes, SoundSeal, DirIdHash, SubtreeIntact;
    forall r | r in rep.ids && Within(p, r)
      ensures DirIdHash(v, rep.ids[r]) !in u
    {
      if r != p {
        var n := r[|p|];
        assert r[..|p| + 1] == p + [n];
        AncestorsAreFolders(rep.plain, p + [n], r);
        assert p + [n] in rep.ids && StorageGone(v, t, rep.ids, p + [n]) && Within(p + [n], r);
        assert rep.ids[r] != rep.ids[p];
        assert Within(DirIdHash(v, rep.ids[r]), DirIdHash(v, rep.ids[r]));
      }
    }
  }

  lemma IdsOfChild(ids: Ids, p: Path, name: string)
    requires p in ids
    ensures IdsAt(ids, p + [name]) <= IdsAt(ids, p) && ids[p] in IdsAt(ids, p)
  {
    assert Within(p, p);
    forall r | Within(p + [name], r)
      ensures Within(p, r)
    {
      ParentOfChild(p, name);
      WithinTransitive(p, p + [name], r);
    }
  }

  /** deleteSubtreeStorage: on a source without failures the storage of every folder at and
      below `p` goes; in any case no other storage is touched. */
  method DeleteSubtreeStorage(v: Vault, io: Store, dirID: string, ghost rep: Rep, ghost p: Path) returns (ok: bool)
    requires Sound(v) && Closed(io.tree) && Closed(rep.plain) && IdsOk(rep.plain, rep.ids)
    requires p in rep.ids && rep.ids[p] == dirID && SubtreeIntact(v, io.tree, rep, p)
    modifies io
    ensures Closed(io.tree) && OthersSame(v, old(io.tree), io.tree, IdsAt(rep.ids, p))
    ensures SameExcept(old(io.tree), io.tree, ["d"])
    ensures io.reliable ==> ok && StorageGone(v, io.tree, rep.ids, p)
    decreases |Below(rep.plain, p)|
  {
    hide ListsEach, Readable, SoundText, SoundSiv, SoundHashes, SoundSeal, DirIdHash, EntryName, EncryptName,
         DirStored, ListsChild, ListsOnly, ListsExactly, SubtreeIntact, StorageGone, HalfGone, OthersSame, SameExcept,
         Closed, IdsOk, Below, IdsAt;
    ghost var t0 := io.tree;
    IntactHere(v, t0, rep, p);
    var out;
    ghost var from;
    ok, out, from := ListEntries(v, io, dirID, Some(rep), p);
    UntouchedYet(v, t0, IdsAt(rep.ids, p));
    if !ok { return; }
    NoneGoneYet(v, t0, rep, p, io.reliable);
    ghost var names: set<string> := {};
    var i := 0;
    while i < |out|
      invariant i <= |out| && Closed(io.tree)
      invariant OthersSame(v, t0, io.tree, IdsAt(rep.ids, p)) && SameExcept(t0, io.tree, ["d"])
      invariant HalfGone(v, io.tree, rep, p, names, io.reliable)
      invariant forall n :: n in names ==> exists k :: 0 <= k < i && out[k].view.name == n
      invariant forall k :: 0 <= k < i && out[k].view.VFolder? ==> out[k].view.name in names
    {
      if out[i].view.VFolder? {
        var name, sub := out[i].view.name, out[i].view.dirID;
        ghost var t := io.tree;
        ListedFolder(v, t0, rep, p, Views(out), i, names);
        HalfGoneHas(v, t, rep, p, names, name, io.reliable);
        ChildHasLessBelow(rep.plain, p, name);
        ok := DeleteSubtreeStorage(v, io, sub, rep, p + [name]);
        IdsOfChild(rep.ids, p, name);
        WiderSame(v, t0, t, io.tree, IdsAt(rep.ids, p + [name]), IdsAt(rep.ids, p));
        if !ok { return; }
        ChildGone(v, t, io.tree, rep, p, names, name, io.reliable);
        names := names + {name};
      }
      i := i + 1;
    }
    ghost var t := io.tree;
    // The removal's failure is not reported.
    var removed := io.Remove(DirIdHash(v, dirID));
    OwnStorageRemoved(v, t, io.tree, dirID);
    IdsOfChild(rep.ids, p, "");
    WiderSame(v, t0, t, io.tree, {dirID}, IdsAt(rep.ids, p));
    if io.reliable {
      AllFoldersListed(v, t0, rep, p, Views(out), names);
      AllGone(v, t, io.tree, rep, p, names);
    }
    ok := true;
  }

  lemma IntactHere(v: Vault, t: Tree, rep: Rep, p: Path)
    requires Sound(v) && SubtreeIntact(v, t, rep, p) && p in rep.ids
    ensures DirStored(v, t, rep.plain, rep.ids, p, rep.ids[p])
  {
    assert Within(p, p);
  }

  lemma UntouchedYet(v: Vault, t: Tree, ids: set<string>)
    requires Sound(v)
    ensures OthersSame(v, t, t, ids) && SameExcept(t, t, ["d"])
  {
  }

  lemma HalfGoneHas(v: Vault, t: Tree, rep: Rep, p: Path, names: set<string>, name: string, reliable: bool)
    requires Sound(v) && HalfGone(v, t, rep, p, names, reliable) && name !in names
    ensures SubtreeIntact(v, t, rep, p + [name])
  {
  }

  lemma ListedFolder(v: Vault, t: Tree, rep: Rep, p: Path, views: seq<VEntry>, i: nat, names: set<string>)
    requires ListsOnly(v, t, rep.plain, rep.ids, p, views) && i < |views| && views[i].VFolder?
    requires IdsOk(rep.plain, rep.ids) && p in rep.ids
    requires forall n :: n in names ==> exists k :: 0 <= k < i && views[k].name == n
    ensures var c := p + [views[i].name];
            c in rep.ids && rep.ids[c] == views[i].dirID && c in rep.plain && p in rep.plain && views[i].name !in names
  {
    assert ListsChild(v, t, rep.plain, rep.ids, p, views[i]);
  }

  lemma AllFoldersListed(v: Vault, t: Tree, rep: Rep, p: Path, views: seq<VEntry>, names: set<string>)
    requires ListsExactly(v, t, rep.plain, rep.ids, p, views) && IdsOk(rep.plain, rep.ids)
    requires forall k :: 0 <= k < |views| && views[k].VFolder? ==> views[k].name in names
    ensures forall n {:trigger p + [n]} :: p + [n] in rep.ids ==> n in names
  {
    forall n {:trigger p + [n]} | p + [n] in rep.ids
      ensures n in names
    {
      assert p + [n] in rep.plain;
      var k :| 0 <= k < |views| && views[k].name == n;
      assert ListsChild(v, t, rep.plain, rep.ids, p, views[k]);
    }
  }

  lemma WiderSame(v: Vault, t0: Tree, t: Tree, u: Tree, a: set<string>, b: set<string>)
    requires Sound(v) && OthersSame(v, t0, t, b) && OthersSame(v, t, u, a) && a <= b
    requires SameExcept(t0, t, ["d"]) && SameExcept(t, u, ["d"])
    ensures OthersSame(v, t0, u, b) && SameExcept(t0, u, ["d"])
  {
    hide SoundText, SoundSiv, SoundHashes, SoundSeal, DirIdHash, OthersSame;
    OthersSameTwice(v, t0, t, u, b, a);
    assert b + a == b;
  }

  lemma OwnStorageRemoved(v: Vault, t: Tree, u: Tree, dirID: string)
    requires Sound(v) && SameExcept(t, u, DirIdHash(v, dirID))
    ensures OthersSame(v, t, u, {dirID}) && SameExcept(t, u, ["d"])
  {
    hide SoundText, SoundSiv, SoundHashes, SoundSeal;
    var s := DirIdHash(v, dirID);
    assert SameDeep(t, u, s);
    DeepTouchesOne(v, t, u, dirID);
    assert Within(["d"], s);
    forall q | !Within(["d"], q)
      ensures !Within(s, q)
    {
      if Within(s, q) { WithinTransitive(["d"], s, q); }
    }
  }

  /** deleteEntry: the plain tree loses the entry with all below it, no storage is left of the
      folders that go, and no other directory's listing changes. */
  method DeleteEntry(v: Vault, io: Store, entry: Entry, parentID: string, ghost rep: Rep, ghost p: Path)
      returns (ok: bool)
    requires Sound(v) && Represents(v, io.tree, rep.plain, rep.ids) && p in rep.ids && rep.ids[p] == parentID
    requires ListsChild(v, io.tree, rep.plain, rep.ids, p, entry.view)
    requires entry.encPath == DirIdHash(v, parentID) + [EntryOf(v, parentID, entry.view.name)]
    modifies io
    ensures Closed(io.tree)
    ensures OthersSame(v, old(io.tree), io.tree, {parentID} + IdsAt(rep.ids, p + [entry.view.name]))
    ensures ok ==> Represents(v, io.tree, RemoveAll(rep.plain, p + [entry.view.name]),
                              WithoutBelow(rep.ids, p + [entry.view.name]))
    ensures io.reliable ==> ok && StorageGone(v, io.tree, rep.ids, p + [entry.view.name])
  {
    hide SoundText, SoundSiv, SoundHashes, SoundSeal, DirIdHash, EntryName, EncryptName, DirStored,
         SubtreeIntact, StorageGone, OthersSame, SameExcept, IdsOk;
    ghost var t, q := io.tree, p + [entry.view.name];
    ghost var gone := IdsAt(rep.ids, q);
    UntouchedYet(v, t, gone);
    RepIds(v, t, rep.plain, rep.ids);
    if entry.view.VFolder? {
      WholeIsIntact(v, t, rep, q);
      ok := DeleteSubtreeStorage(v, io, entry.view.dirID, rep, q);
      MoreSame(v, t, io.tree, gone, {parentID} + gone);
      if !ok { return; }
    } else {
      FilesHaveNoStorage(v, t, rep, q);
    }
    ghost var w := io.tree;
    ok := io.Remove(entry.encPath);
    EntryTouchesOne(v, w, io.tree, parentID, EntryOf(v, parentID, entry.view.name));
    OthersSameTwice(v, t, w, io.tree, gone, {parentID});
    assert gone + {parentID} == {parentID} + gone;
    assert Within(entry.encPath, entry.encPath);
    if ok {
      IdsAreBelow(rep, q);
      EntryIsRemoved(v, t, w, io.tree, rep.plain, rep.ids, p, entry.view.name, gone);
    }
    if io.reliable {
      ParentIsBeside(rep, p, entry.view.name);
      GoneStays(v, w, io.tree, rep.ids, q, {parentID});
    }
  }

  lemma MoreSame(v: Vault, t: Tree, u: Tree, a: set<string>, b: set<string>)
    requires Sound(v) && OthersSame(v, t, u, a) && a <= b
    ensures OthersSame(v, t, u, b)
  {
  }

  lemma WholeIsIntact(v: Vault, t: Tree, rep: Rep, q: Path)
    requires Sound(v) && Represents(v, t, rep.plain, rep.ids)
    ensures SubtreeIntact(v, t, rep, q)
  {
  }

  lemma FilesHaveNoStorage(v: Vault, t: Tree, rep: Rep, q: Path)
    requires Sound(v) && Represents(v, t, rep.plain, rep.ids) && q in rep.plain && rep.plain[q] != Folder
    ensures IdsAt(rep.ids, q) == {} && StorageGone(v, t, rep.ids, q)
  {
    forall r | r in rep.ids && Within(q, r)
      ensures false
    {
      NothingBelowFile(rep.plain, q, r);
    }
  }

  lemma IdsAreBelow(rep: Rep, q: Path)
    requires IdsOk(rep.plain, rep.ids)
    ensures forall r {:trigger rep.ids[r]} :: r in rep.ids && rep.ids[r] in IdsAt(rep.ids, q) ==> Within(q, r)
  {
  }

  lemma ParentIsBeside(rep: Rep, p: Path, name: string)
    requires IdsOk(rep.plain, rep.ids) && p in rep.ids
    ensures forall r {:trigger rep.ids[r]} :: r in rep.ids && Within(p + [name], r) ==> rep.ids[r] !in {rep.ids[p]}
  {
  }

  // ---------- renameEntry ----------

  function OldPath(r: Path, q: Path, q': Path): Path {
    if Within(q', r) then q + r[|q'|..] else r
  }

  /** The ids after the subtree at `q` became the one at `q'`. */
  function RenamedIds(plain: Tree, ids: Ids, q: Path, q': Path): Ids {
    var moved := Moved(plain, q, q');
    map r | r in moved && moved[r] == Folder :: IdOf(ids, OldPath(r, q, q'))
  }

  /** A storage directory does not care where its folder is. */
  lemma DirTransplanted(v: Vault, t: Tree, u: Tree, plain: Tree, plain': Tree, ids: Ids, ids': Ids, p: Path, p': Path,
                        dirID: string)
    requires Sound(v) && DirStored(v, t, plain, ids, p, dirID) && SameWithin(t, u, DirIdHash(v, dirID))
    requires forall n {:trigger p' + [n]} {:trigger p + [n]} ::
               && (p' + [n] in plain' <==> p + [n] in plain)
               && (p + [n] in plain ==> plain'[p' + [n]] == plain[p + [n]])
               && (p + [n] in plain && plain[p + [n]] == Folder && p + [n] in ids ==>
                   p' + [n] in ids' && ids'[p' + [n]] == ids[p + [n]])
    ensures DirStored(v, u, plain', ids', p', dirID)
  {
    hide SoundText, SoundSiv, SoundHashes, SoundSeal, DirIdHash, EncryptName, EntryOf, EntryHolds;
    var s := DirIdHash(v, dirID);
    assert Within(s, s);
    IdFrame(v, t, u, dirID);
    forall entry {:trigger s + [entry]} | s + [entry] in u
      ensures entry == DIR_ID_FILE || StandsForChild(v, plain', p', dirID, entry)
    {
      ParentOfChild(s, entry);
      if entry != DIR_ID_FILE {
        var n :| p + [n] in plain && entry == EntryOf(v, dirID, n);
        assert p' + [n] in plain';
      }
    }
    forall n {:trigger p' + [n]} | p' + [n] in plain'
      ensures ChildStored(v, u, plain', ids', p', dirID, n)
    {
      assert ChildStored(v, t, plain, ids, p, dirID, n);
      ParentOfChild(s, EntryOf(v, dirID, n));
      SameBelow(t, u, s, s + [EntryOf(v, dirID, n)]);
      ChildTransplanted(v, t, u, plain, plain', ids, ids', p, p', dirID, n);
    }
  }

  lemma ChildTransplanted(v: Vault, t: Tree, u: Tree, plain: Tree, plain': Tree, ids: Ids, ids': Ids, p: Path, p': Path,
                          dirID: string, n: string)
    requires Sound(v) && p + [n] in plain && ChildStored(v, t, plain, ids, p, dirID, n)
    requires SameWithin(t, u, DirIdHash(v, dirID) + [EntryOf(v, dirID, n)])
    requires p' + [n] in plain' && plain'[p' + [n]] == plain[p + [n]]
    requires plain[p + [n]] == Folder && p + [n] in ids ==> p' + [n] in ids' && ids'[p' + [n]] == ids[p + [n]]
    ensures ChildStored(v, u, plain', ids', p', dirID, n)
  {
    hide SoundText, SoundSiv, SoundHashes, SoundSeal, DirIdHash, EncryptName, EntryOf, EntryHolds;
    var e, enc, node := DirIdHash(v, dirID) + [EntryOf(v, dirID, n)], EncryptName(v, n, dirID), plain[p + [n]];
    if node == Folder {
      EntryFrame(v, t, u, e, enc, node, IdOf(ids, p + [n]));
    } else {
      FileEntryFrame(v, t, u, e, enc, node, IdOf(ids, p + [n]), IdOf(ids', p' + [n]));
    }
  }

  /** The children of a folder before and after: those of the moved subtree are the same under
      another path, those of other folders are untouched, apart from the parent itself. */
  lemma ChildrenAfterMove(plain: Tree, q: Path, q': Path, r: Path, n: string)
    requires Closed(plain) && q in plain && q != [] && q' != [] && q' !in plain && !Within(q, q')
    requires Parent(q) == Parent(q') && r in Moved(plain, q, q') && r != Parent(q)
    ensures var o := OldPath(r, q, q');
            && o in plain && o != Parent(q)
            && OldPath(r + [n], q, q') == o + [n]
            && (r + [n] in Moved(plain, q, q') <==> o + [n] in plain)
            && (o + [n] in plain ==> Moved(plain, q, q')[r + [n]] == plain[o + [n]])
  {
    ParentOfChild(r, n);
    WithinParent(q', r + [n]);
    WithinParent(q, r + [n]);
    if Within(q', r) {
      var o := q + r[|q'|..];
      assert (r + [n])[|q'|..] == r[|q'|..] + [n];
      assert q + (r[|q'|..] + [n]) == o + [n];
      assert |o| >= |q| > |Parent(q)|;
    } else {
      assert r + [n] != q' && r + [n] != q;
    }
  }

  lemma MovedIdsOk(plain: Tree, ids: Ids, q: Path, q': Path)
    requires Closed(plain) && IdsOk(plain, ids) && q in plain && q != [] && q' != [] && q' !in plain && !Within(q, q')
    ensures IdsOk(Moved(plain, q, q'), RenamedIds(plain, ids, q, q'))
    ensures forall r {:trigger r in RenamedIds(plain, ids, q, q')} :: r in RenamedIds(plain, ids, q, q') ==>
              OldPath(r, q, q') in ids && RenamedIds(plain, ids, q, q')[r] == ids[OldPath(r, q, q')]
  {
    var moved, ids' := Moved(plain, q, q'), RenamedIds(plain, ids, q, q');
    forall r | r in ids'
      ensures OldPath(r, q, q') in ids
    {
      assert OldPath(r, q, q') in plain && plain[OldPath(r, q, q')] == moved[r];
    }
    forall a, b {:trigger ids'[a], ids'[b]} | a in ids' && b in ids' && ids'[a] == ids'[b]
      ensures a == b
    {
      OldPathsDiffer(plain, q, q', a, b);
    }
  }

  lemma OldPathsDiffer(plain: Tree, q: Path, q': Path, a: Path, b: Path)
    requires a in Moved(plain, q, q') && b in Moved(plain, q, q') && OldPath(a, q, q') == OldPath(b, q, q')
    ensures a == b
  {
    if Within(q', a) && Within(q', b) {
      assert (q + a[|q'|..])[|q|..] == a[|q'|..] && (q + b[|q'|..])[|q|..] == b[|q'|..];
      assert a == q' + a[|q'|..] && b == q' + b[|q'|..];
    } else if Within(q', a) {
      assert Within(q, q + a[|q'|..]);
    } else if Within(q', b) {
      assert Within(q, q + b[|q'|..]);
    }
  }

  /** The entry `e` of one child has been joined by the entry of a new name holding the same
      node, and then removed: the child, with all below it, has the new name. */
  lemma EntryIsRenamed(v: Vault, t: Tree, w: Tree, u: Tree, plain: Tree, ids: Ids, p: Path, name: string,
                       newName: string)
    requires Sound(v) && Represents(v, t, plain, ids) && p in ids && Closed(u)
    requires p + [name] in plain && p + [newName] !in plain
    requires var s := DirIdHash(v, ids[p]);
             && SameExcept(t, w, s + [EntryOf(v, ids[p], newName)])
             && EntryHolds(v, w, s + [EntryOf(v, ids[p], newName)], EncryptName(v, newName, ids[p]), plain[p + [name]],
                           IdOf(ids, p + [name]))
             && SameExcept(w, u, s + [EntryOf(v, ids[p], name)]) && s + [EntryOf(v, ids[p], name)] !in u
    ensures Represents(v, u, Moved(plain, p + [name], p + [newName]), RenamedIds(plain, ids, p + [name], p + [newName]))
  {
    hide SoundText, SoundSiv, SoundHashes, SoundSeal, DirIdHash, EncryptName, EntryOf, EntryHolds, DirStored,
         SameExcept, OthersSame, RenamedIds;
    var q, q', dirID := p + [name], p + [newName], ids[p];
    var plain', ids' := Moved(plain, q, q'), RenamedIds(plain, ids, q, q');
    ParentOfChild(p, name);
    ParentOfChild(p, newName);
    SiblingIsApart(p, name, newName);
    NothingBelowNew(plain, q');
    MoveKeepsClosed(plain, q, q');
    MovedIdsOk(plain, ids, q, q');
    EntryTouchesOne(v, t, w, dirID, EntryOf(v, dirID, newName));
    EntryTouchesOne(v, w, u, dirID, EntryOf(v, dirID, name));
    OthersSameTwice(v, t, w, u, {dirID}, {dirID});
    forall r | r in ids'
      ensures DirStored(v, u, plain', ids', r, ids'[r])
    {
      if r == p {
        OldPathOfParent(p, q, q');
        ParentRenames(v, t, w, u, plain, ids, p, name, newName);
      } else {
        FolderRenames(v, t, u, plain, ids, p, q, q', r);
      }
    }
    RootStays(plain, ids, q, q');
  }

  lemma SiblingIsApart(p: Path, a: string, b: string)
    requires a != b
    ensures !Within(p + [a], p + [b]) && p + [a] != p + [b]
  {
    assert (p + [a])[|p|] == a && (p + [b])[|p|] == b;
    assert (p + [b])[..|p + [a]|] == p + [b];
  }

  lemma NothingBelowNew(plain: Tree, q: Path)
    requires Closed(plain) && q !in plain
    ensures !HasChild(plain, q)
  {
    forall r | r in plain
      ensures !Within(q, r)
    {
      if Within(q, r) { NothingBelowAbsent(plain, q, r); }
    }
  }

  lemma OldPathOfParent(p: Path, q: Path, q': Path)
    requires q != [] && q' != [] && Parent(q) == p && Parent(q') == p
    ensures OldPath(p, q, q') == p && !Within(q, p) && !Within(q', p)
  {
  }

  lemma RootStays(plain: Tree, ids: Ids, q: Path, q': Path)
    requires Closed(plain) && IdsOk(plain, ids) && q != [] && q' != [] && ids[[]] == ""
    ensures [] in RenamedIds(plain, ids, q, q') && RenamedIds(plain, ids, q, q')[[]] == ""
  {
    assert [] in Moved(plain, q, q') && Moved(plain, q, q')[[]] == Folder;
  }

  /** Any other folder, whether it moved along or not. */
  lemma FolderRenames(v: Vault, t: Tree, u: Tree, plain: Tree, ids: Ids, p: Path, q: Path, q': Path, r: Path)
    requires Sound(v) && Represents(v, t, plain, ids) && p in ids && OthersSame(v, t, u, {ids[p]} + {ids[p]})
    requires q in plain && q != [] && q' != [] && q' !in plain && !Within(q, q') && Parent(q) == p && Parent(q') == p
    requires r in RenamedIds(plain, ids, q, q') && r != p
    ensures DirStored(v, u, Moved(plain, q, q'), RenamedIds(plain, ids, q, q'), r, RenamedIds(plain, ids, q, q')[r])
  {
    hide SoundText, SoundSiv, SoundHashes, SoundSeal, DirIdHash, DirStored, RenamedIds;
    var plain', ids', o := Moved(plain, q, q'), RenamedIds(plain, ids, q, q'), OldPath(r, q, q');
    MovedIdsOk(plain, ids, q, q');
    assert r in plain';
    ChildrenAfterMove(plain, q, q', r, "");
    assert ids[o] != ids[p];
    forall n {:trigger r + [n]} {:trigger o + [n]}
      ensures r + [n] in plain' <==> o + [n] in plain
      ensures o + [n] in plain ==> plain'[r + [n]] == plain[o + [n]]
      ensures o + [n] in plain && plain[o + [n]] == Folder && o + [n] in ids ==>
                r + [n] in ids' && ids'[r + [n]] == ids[o + [n]]
    {
      ChildrenAfterMove(plain, q, q', r, n);
    }
    DirTransplanted(v, t, u, plain, plain', ids, ids', o, r, ids[o]);
  }

  /** The parent's own storage: one entry more, then one less. */
  lemma ParentRenames(v: Vault, t: Tree, w: Tree, u: Tree, plain: Tree, ids: Ids, p: Path, name: string,
                      newName: string)
    requires Sound(v) && Represents(v, t, plain, ids) && p in ids
    requires p + [name] in plain && p + [newName] !in plain
    requires var s := DirIdHash(v, ids[p]);
             && SameExcept(t, w, s + [EntryOf(v, ids[p], newName)])
             && EntryHolds(v, w, s + [EntryOf(v, ids[p], newName)], EncryptName(v, newName, ids[p]), plain[p + [name]],
                           IdOf(ids, p + [name]))
             && SameExcept(w, u, s + [EntryOf(v, ids[p], name)]) && s + [EntryOf(v, ids[p], name)] !in u
    ensures DirStored(v, u, Moved(plain, p + [name], p + [newName]), RenamedIds(plain, ids, p + [name], p + [newName]),
                      p, ids[p])
  {
    hide SoundText, SoundSiv, SoundHashes, SoundSeal, DirIdHash, EncryptName, EntryOf, EntryHolds, DirStored,
         SameExcept, Filled, RenamedIds, ReadDir, IdsOk;
    var q, q', dirID := p + [name], p + [newName], ids[p];
    var plain', ids' := Moved(plain, q, q'), RenamedIds(plain, ids, q, q');
    var names := ReadDir(plain, p);
    SiblingIsApart(p, name, newName);
    ReadDirIs(plain, p, newName);
    StoredIsFilled(v, t, plain, ids, p, dirID);
    EntryAdded(v, t, w, plain, ids, p, dirID, names, names, newName);
    FewerDone(v, w, plain, ids, p, dirID, names + {newName}, names, names - {name});
    EntryAdded(v, w, u, plain, ids, p, dirID, names + {newName}, names - {name}, name);
    EntryDropped(v, u, plain, ids, p, dirID, names + {newName} + {name}, names - {name}, name);
    var left := names - {name};
    assert names + {newName} + {name} - {name} == left + {newName};
    forall n
      ensures n in left ==> p + [n] in plain && p + [n] in plain' && plain'[p + [n]] == plain[p + [n]]
      ensures n in left && plain[p + [n]] == Folder && p + [n] in ids ==>
                p + [n] in ids' && ids'[p + [n]] == ids[p + [n]]
      ensures p + [n] in plain' ==> n in left + {newName}
    {
      SiblingAfterMove(plain, ids, p, name, newName, n) by { RepIds(v, t, plain, ids); }
    }
    RenamedChild(plain, ids, p, name, newName) by { RepIds(v, t, plain, ids); }
    FilledElsewhere(v, u, plain, plain', ids, ids', p, dirID, left + {newName}, left);
    OtherEntrySame(v, w, u, dirID, name, newName);
    EntryFrame(v, w, u, DirIdHash(v, dirID) + [EntryOf(v, dirID, newName)], EncryptName(v, newName, dirID), plain[q],
               IdOf(ids, q));
    RenamedIsStored(v, u, plain', ids', p, dirID, newName, plain[q], IdOf(ids, q));
    OneMoreDone(v, u, plain', ids', p, dirID, left + {newName}, left, newName);
    AllDoneIsStored(v, u, plain', ids', p, dirID, left + {newName});
  }

  lemma SiblingAfterMove(plain: Tree, ids: Ids, p: Path, name: string, newName: string, n: string)
    requires Closed(plain) && IdsOk(plain, ids) && p + [name] in plain && p + [newName] !in plain
    ensures var plain', ids' := Moved(plain, p + [name], p + [newName]), RenamedIds(plain, ids, p + [name],
              p + [newName]);
            var left := ReadDir(plain, p) - {name};
            && (n in left ==> p + [n] in plain && p + [n] in plain' && plain'[p + [n]] == plain[p + [n]])
            && (n in left && plain[p + [n]] == Folder && p + [n] in ids ==>
                p + [n] in ids' && ids'[p + [n]] == ids[p + [n]])
            && (p + [n] in plain' ==> n in left + {newName})
  {
    ReadDirIs(plain, p, n);
    if n != name { SiblingIsApart(p, name, n); }
    if n != newName { SiblingIsApart(p, newName, n); }
    if name != newName { SiblingIsApart(p, newName, name); }
    hide ReadDir;
  }

  lemma RenamedChild(plain: Tree, ids: Ids, p: Path, name: string, newName: string)
    requires Closed(plain) && IdsOk(plain, ids) && p + [name] in plain && p + [newName] !in plain
    ensures var q, q' := p + [name], p + [newName];
            && q' in Moved(plain, q, q') && Moved(plain, q, q')[q'] == plain[q]
            && IdOf(RenamedIds(plain, ids, q, q'), q') == IdOf(ids, q)
            && (plain[q] == Folder ==> q' in RenamedIds(plain, ids, q, q'))
  {
    var q, q' := p + [name], p + [newName];
    assert q + q'[|q'|..] == q;
  }

  lemma FilledElsewhere(v: Vault, u: Tree, plain: Tree, plain': Tree, ids: Ids, ids': Ids, p: Path, dirID: string,
                        listed: set<string>, done: set<string>)
    requires Sound(v) && Filled(v, u, plain, ids, p, dirID, listed, done)
    requires forall n :: n in done ==> p + [n] in plain && p + [n] in plain' && plain'[p + [n]] == plain[p + [n]]
    requires forall n :: n in done && plain[p + [n]] == Folder && p + [n] in ids ==>
               p + [n] in ids' && ids'[p + [n]] == ids[p + [n]]
    ensures Filled(v, u, plain', ids', p, dirID, listed, done)
  {
    hide SoundText, SoundSiv, SoundHashes, SoundSeal, DirIdHash, EncryptName, EntryOf, EntryHolds, EntryIn,
         ChildStored;
    forall n | n in done
      ensures p + [n] in plain' && ChildStored(v, u, plain', ids', p, dirID, n)
    {
      assert ChildStored(v, u, plain, ids, p, dirID, n);
      ChildTransplanted(v, u, u, plain, plain', ids, ids', p, p, dirID, n);
    }
  }

  lemma RenamedIsStored(v: Vault, u: Tree, plain': Tree, ids': Ids, p: Path, dirID: string, newName: string, node: Node,
                        id: string)
    requires Sound(v) && p + [newName] in plain' && plain'[p + [newName]] == node && IdOf(ids', p + [newName]) == id
    requires node == Folder ==> p + [newName] in ids'
    requires EntryHolds(v, u, DirIdHash(v, dirID) + [EntryOf(v, dirID, newName)], EncryptName(v, newName, dirID), node,
                        id)
    ensures ChildStored(v, u, plain', ids', p, dirID, newName)
  {
  }

  /** The child is reachable: its entry stands under its old or under its new name, and the
      storage of everything below it is as it was. */
  ghost predicate Reachable(v: Vault, t0: Tree, t: Tree, rep: Rep, p: Path, name: string, newName: string)
    requires Sound(v) && p in rep.ids && p + [name] in rep.plain
  {
    var s, node, id := DirIdHash(v, rep.ids[p]), rep.plain[p + [name]], IdOf(rep.ids, p + [name]);
    && OthersSame(v, t0, t, {rep.ids[p]})
    && (|| EntryHolds(v, t, s + [EntryOf(v, rep.ids[p], name)], EncryptName(v, name, rep.ids[p]), node, id)
        || EntryHolds(v, t, s + [EntryOf(v, rep.ids[p], newName)], EncryptName(v, newName, rep.ids[p]), node, id))
  }

  /** What renaming does to the plain tree: whatever had the new name makes way. */
  function Renamed(plain: Tree, q: Path, q': Path): Tree {
    Moved(RemoveAll(plain, q'), q, q')
  }

  function IdsRenamed(plain: Tree, ids: Ids, q: Path, q': Path): Ids {
    RenamedIds(RemoveAll(plain, q'), WithoutBelow(ids, q'), q, q')
  }

  /** Under an unused name nothing has to make way. */
  lemma RenamedToUnused(plain: Tree, ids: Ids, q: Path, q': Path)
    requires Closed(plain) && IdsOk(plain, ids) && q' !in plain
    ensures Renamed(plain, q, q') == Moved(plain, q, q')
    ensures IdsRenamed(plain, ids, q, q') == RenamedIds(plain, ids, q, q')
  {
    UnusedIsAdded(plain, ids, q');
    forall r | r in plain
      ensures !Within(q', r)
    {
      if Within(q', r) { NothingBelowAbsent(plain, q', r); }
    }
    assert RemoveAll(plain, q') == plain;
  }

  /** A file renamed to the name of a folder. */
  predicate FileOntoFolder(plain: Tree, q: Path, q': Path) {
    q in plain && plain[q] != Folder && q' in plain && plain[q'] == Folder
  }

  /** A folder renamed to the name of a file, or a file to that of a folder, the name being short. */
  ghost predicate RenameBlocked(v: Vault, plain: Tree, p: Path, name: string, newName: string, parentID: string)
    requires Sound(v)
  {
    && p + [name] in plain && p + [newName] in plain
    && (plain[p + [name]] == Folder) != (plain[p + [newName]] == Folder)
    && |EncryptName(v, newName, parentID)| <= SHORTENING_THRESHOLD
  }

  /** renameEntry to another name of the same folder. When it is through, the plain tree is the one
      with the subtree moved, every folder in it under the id it had, and with what had the new
      name gone; and wherever it stops, the entry is reachable under at least one of the names.
      There is one exception: a file renamed to the name of a folder is lost if the name is
      long, which on a source that fails nowhere happens whenever no folder is where the contents
      go. If it is short the call fails and changes nothing, as it does for a folder renamed to
      the short name of a file. */
  method RenameEntry(v: Vault, io: Store, entry: Entry, newName: string, parentID: string, ghost rep: Rep,
                     ghost p: Path) returns (ok: bool)
    requires Sound(v) && Represents(v, io.tree, rep.plain, rep.ids) && p in rep.ids && rep.ids[p] == parentID
    requires ListsChild(v, io.tree, rep.plain, rep.ids, p, entry.view)
    requires entry.encPath == DirIdHash(v, parentID) + [EntryOf(v, parentID, entry.view.name)]
    modifies io
    ensures Closed(io.tree)
    ensures newName == "" || newName == entry.view.name ==> ok && io.tree == old(io.tree)
    ensures var q, q' := p + [entry.view.name], p + [newName];
            newName != "" && newName != entry.view.name ==>
              if FileOntoFolder(rep.plain, q, q')
              then ok ==> Represents(v, io.tree, RemoveAll(rep.plain, q), WithoutBelow(rep.ids, q))
              else && Reachable(v, old(io.tree), io.tree, rep, p, entry.view.name, newName)
                   && (ok ==> Represents(v, io.tree, Renamed(rep.plain, q, q'), IdsRenamed(rep.plain, rep.ids, q, q')))
    ensures RenameBlocked(v, rep.plain, p, entry.view.name, newName, parentID) ==>
              newName == "" || (!ok && io.tree == old(io.tree))
    ensures (io.reliable && !FileOntoFolder(rep.plain, p + [entry.view.name], p + [newName])
             && !RenameBlocked(v, rep.plain, p, entry.view.name, newName, parentID)) ==> ok
    ensures (io.reliable && newName != "" && FileOntoFolder(rep.plain, p + [entry.view.name], p + [newName])) ==>
              (ok <==> OverwritesFolder(v, old(io.tree), parentID, newName))
  {
    hide SoundText, SoundSiv, SoundHashes, SoundSeal, DirIdHash, EntryName, EncryptName, EntryHolds, DirStored,
         OthersSame, SameExcept, IdsOk, FreeForFile, TakenByFolder, FreeForFolder, StillHolds, Renamed, IdsRenamed;
    ghost var t := io.tree;
    var name := entry.view.name;
    OldEntryHolds(v, t, rep, p, name);
    if newName == "" || newName == name { return true; }
    var storage := DirIdHash(v, parentID);
    var newEnc := EncryptName(v, newName, parentID);
    FileSpotIsFree(v, t, rep.plain, rep.ids, p, newName);
    FolderSpot(v, t, rep.plain, rep.ids, p, newName);
    match entry.view {
      case VFolder(_, subDirID) =>
        ok := StoreFolder(v, io, storage, newEnc, subDirID);
        OldEntryStays(v, t, io.tree, rep, p, name, newName);
        if !ok { return; }
      case VFile(_, contentPath) =>
        var data := ReadFile(v, io, contentPath);
        assert Encrypts(v, t, contentPath, rep.plain[p + [name]].data);
        if data == None { return false; }
        SameBytes(v, t, contentPath, data.value, rep.plain[p + [name]].data);
        ok := StoreFile(v, io, storage, newEnc, data.value);
        OldEntryStays(v, t, io.tree, rep, p, name, newName);
        FileHasNoId(v, t, rep, p, name);
        if !ok { return; }
    }
    ghost var w := io.tree;
    ok := io.Remove(entry.encPath);
    assert Within(entry.encPath, entry.encPath);
    if FileOntoFolder(rep.plain, p + [name], p + [newName]) {
      if ok { FileIsLost(v, t, w, io.tree, rep.plain, rep.ids, p, name, newName); }
    } else {
      NewEntryStays(v, t, w, io.tree, rep, p, name, newName);
      if ok { EntryReplaces(v, t, w, io.tree, rep.plain, rep.ids, p, name, newName); }
    }
  }

  /** Whatever had the new name makes way for the renamed entry. */
  lemma EntryReplaces(v: Vault, t: Tree, w: Tree, u: Tree, plain: Tree, ids: Ids, p: Path, name: string,
                      newName: string)
    requires Sound(v) && Represents(v, t, plain, ids) && p in ids && Closed(u)
    requires p + [name] in plain && name != newName
    requires var s := DirIdHash(v, ids[p]);
             && SameExcept(t, w, s + [EntryOf(v, ids[p], newName)])
             && EntryHolds(v, w, s + [EntryOf(v, ids[p], newName)], EncryptName(v, newName, ids[p]), plain[p + [name]],
                           IdOf(ids, p + [name]))
             && SameExcept(w, u, s + [EntryOf(v, ids[p], name)]) && s + [EntryOf(v, ids[p], name)] !in u
    ensures Represents(v, u, Renamed(plain, p + [name], p + [newName]),
                       IdsRenamed(plain, ids, p + [name], p + [newName]))
  {
    hide SoundText, SoundSiv, SoundHashes, SoundSeal, DirIdHash, EncryptName, EntryOf, EntryHolds, DirStored,
         OthersSame, IdsOk;
    var q, q', e := p + [name], p + [newName], DirIdHash(v, ids[p]) + [EntryOf(v, ids[p], newName)];
    var plain1, ids1, t1 := RemoveAll(plain, q'), WithoutBelow(ids, q'), RemoveAll(t, e);
    SiblingIsApart(p, newName, name);
    ParentOfChild(p, newName);
    RemoveKeepsClosed(t, e);
    assert Within(e, e) && Within(q', q') && !Within(q', p);
    NothingTouched(v, t);
    EntryIsRemoved(v, t, t, t1, plain, ids, p, newName, {});
    assert SameExcept(t1, w, e);
    EntryIsRenamed(v, t1, w, u, plain1, ids1, p, name, newName);
  }

  /** The contents were put beside the folder's id, and then the file's own entry was removed. */
  lemma FileIsLost(v: Vault, t: Tree, w: Tree, u: Tree, plain: Tree, ids: Ids, p: Path, name: string, newName: string)
    requires Sound(v) && Represents(v, t, plain, ids) && p in ids && Closed(w) && Closed(u)
    requires FolderAt(plain, p + [newName])
    requires var s := DirIdHash(v, ids[p]);
             && SameExcept(t, w, s + [EntryOf(v, ids[p], newName)])
             && StillHolds(v, t, w, s + [EntryOf(v, ids[p], newName)], EncryptName(v, newName, ids[p]))
             && SameExcept(w, u, s + [EntryOf(v, ids[p], name)]) && s + [EntryOf(v, ids[p], name)] !in u
    ensures Represents(v, u, RemoveAll(plain, p + [name]), WithoutBelow(ids, p + [name]))
  {
    hide SoundText, SoundSiv, SoundHashes, SoundSeal, DirIdHash, EncryptName, EntryOf, EntryHolds, DirStored,
         OthersSame, SameExcept, IdsOk, StillHolds;
    FolderStays(v, t, w, plain, ids, p, newName);
    NothingTouched(v, w);
    EntryIsRemoved(v, w, w, u, plain, ids, p, name, {});
  }

  lemma OldEntryHolds(v: Vault, t: Tree, rep: Rep, p: Path, name: string)
    requires Sound(v) && Represents(v, t, rep.plain, rep.ids) && p in rep.ids && p + [name] in rep.plain
    ensures Reachable(v, t, t, rep, p, name, name)
    ensures forall newName :: Reachable(v, t, t, rep, p, name, newName)
  {
    hide SoundText, SoundSiv, SoundHashes, SoundSeal, DirIdHash, EntryName, EncryptName, EntryHolds;
    assert ChildStored(v, t, rep.plain, rep.ids, p, rep.ids[p], name);
  }

  lemma OldEntryStays(v: Vault, t: Tree, w: Tree, rep: Rep, p: Path, name: string, newName: string)
    requires Sound(v) && Represents(v, t, rep.plain, rep.ids) && p in rep.ids && p + [name] in rep.plain
    requires name != newName
    requires SameExcept(t, w, DirIdHash(v, rep.ids[p]) + [EntryOf(v, rep.ids[p], newName)])
    ensures Reachable(v, t, w, rep, p, name, newName)
  {
    hide SoundText, SoundSiv, SoundHashes, SoundSeal, DirIdHash, EntryName, EncryptName, EntryHolds,
         OthersSame, SameExcept;
    assert ChildStored(v, t, rep.plain, rep.ids, p, rep.ids[p], name);
    OtherEntrySame(v, t, w, rep.ids[p], newName, name);
    EntryFrame(v, t, w, DirIdHash(v, rep.ids[p]) + [EntryOf(v, rep.ids[p], name)], EncryptName(v, name, rep.ids[p]),
               rep.plain[p + [name]], IdOf(rep.ids, p + [name]));
    EntryTouchesOne(v, t, w, rep.ids[p], EntryOf(v, rep.ids[p], newName));
  }

  lemma NewEntryStays(v: Vault, t: Tree, w: Tree, u: Tree, rep: Rep, p: Path, name: string, newName: string)
    requires Sound(v) && p in rep.ids && p + [name] in rep.plain && name != newName
    requires SameExcept(t, w, DirIdHash(v, rep.ids[p]) + [EntryOf(v, rep.ids[p], newName)])
    requires SameExcept(w, u, DirIdHash(v, rep.ids[p]) + [EntryOf(v, rep.ids[p], name)])
    requires EntryHolds(v, w, DirIdHash(v, rep.ids[p]) + [EntryOf(v, rep.ids[p], newName)],
                        EncryptName(v, newName, rep.ids[p]),
                        rep.plain[p + [name]], IdOf(rep.ids, p + [name]))
    ensures Reachable(v, t, u, rep, p, name, newName)
  {
    hide SoundText, SoundSiv, SoundHashes, SoundSeal, DirIdHash, EntryName, EncryptName, EntryHolds,
         OthersSame, SameExcept;
    OtherEntrySame(v, w, u, rep.ids[p], name, newName);
    EntryFrame(v, w, u, DirIdHash(v, rep.ids[p]) + [EntryOf(v, rep.ids[p], newName)],
               EncryptName(v, newName, rep.ids[p]),
               rep.plain[p + [name]], IdOf(rep.ids, p + [name]));
    EntryTouchesOne(v, t, w, rep.ids[p], EntryOf(v, rep.ids[p], newName));
    EntryTouchesOne(v, w, u, rep.ids[p], EntryOf(v, rep.ids[p], name));
    OthersSameTwice(v, t, w, u, {rep.ids[p]}, {rep.ids[p]});
    assert {rep.ids[p]} + {rep.ids[p]} == {rep.ids[p]};
  }

  lemma SameBytes(v: Vault, t: Tree, path: Path, a: Bytes, b: Bytes)
    requires Encrypts(v, t, path, a) && Encrypts(v, t, path, b)
    ensures a == b
  {
  }

  lemma FileHasNoId(v: Vault, t: Tree, rep: Rep, p: Path, name: string)
    requires Sound(v) && Represents(v, t, rep.plain, rep.ids) && p + [name] in rep.plain
    requires rep.plain[p + [name]] != Folder
    ensures IdOf(rep.ids, p + [name]) == ""
  {
  }
}
