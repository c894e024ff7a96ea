/** encrypt.go: flattening a plain tree into hashed storage directories. */
module EncryptTree {
  import opened FileSystem
  import opened Crypto
  import opened Names
  import opened Content
  import opened VaultStore
  import opened VaultIO
  import opened VaultEntries

  // ---------- what stays while storage directories are written ----------

  /** Only storage directories of the given ids have changed. */
  ghost predicate OthersSame(v: Vault, t: Tree, u: Tree, ids: set<string>)
    requires Sound(v)
  {
    forall id {:trigger DirIdHash(v, id)} :: id !in ids ==> SameWithin(t, u, DirIdHash(v, id))
  }

  /** No storage directory exists for an id not yet drawn. */
  ghost predicate OnlyIssued(v: Vault, t: Tree, issued: set<string>)
    requires Sound(v)
  {
    forall id {:trigger DirIdHash(v, id)} :: id !in issued ==> DirIdHash(v, id) !in t
  }

  lemma OthersSameTwice(v: Vault, t: Tree, u: Tree, w: Tree, a: set<string>, b: set<string>)
    requires Sound(v) && OthersSame(v, t, u, a) && OthersSame(v, u, w, b)
    ensures OthersSame(v, t, w, a + b)
  {
    hide SoundText, SoundSiv, SoundHashes, SoundSeal, DirIdHash;
  }

  lemma StillOnlyIssued(v: Vault, t: Tree, u: Tree, issued: set<string>, ids: set<string>)
    requires Sound(v) && OnlyIssued(v, t, issued) && OthersSame(v, t, u, ids) && ids <= issued
    ensures OnlyIssued(v, u, issued)
  {
    hide SoundText, SoundSiv, SoundHashes, SoundSeal, DirIdHash;
    forall id {:trigger DirIdHash(v, id)} | id !in issued
      ensures DirIdHash(v, id) !in u
    {
      assert Within(DirIdHash(v, id), DirIdHash(v, id));
    }
  }

  /** Writing inside one storage directory leaves the others alone. */
  lemma EntryTouchesOne(v: Vault, t: Tree, u: Tree, dirID: string, entry: string)
    requires Sound(v) && SameExcept(t, u, DirIdHash(v, dirID) + [entry])
    ensures OthersSame(v, t, u, {dirID})
  {
    hide SoundText, SoundSiv, SoundHashes, SoundSeal;
    var s := DirIdHash(v, dirID);
    ParentOfChild(s, entry);
    forall id {:trigger DirIdHash(v, id)} | id != dirID
      ensures SameWithin(t, u, DirIdHash(v, id))
    {
      StoresDiffer(v, dirID, id);
      forall q | Within(DirIdHash(v, id), q)
        ensures !Within(s + [entry], q)
      {
        TwoOfOneLength(s, DirIdHash(v, id), s + [entry], q);
      }
    }
  }

  lemma TwoOfOneLength(a: Path, b: Path, top: Path, q: Path)
    requires |a| == |b| && Within(a, top) && Within(b, q) && !Within(a, b)
    ensures !Within(top, q)
  {
    if Within(top, q) {
      WithinTransitive(a, top, q);
    }
  }

  lemma DeepTouchesOne(v: Vault, t: Tree, u: Tree, dirID: string)
    requires Sound(v) && SameDeep(t, u, DirIdHash(v, dirID))
    ensures OthersSame(v, t, u, {dirID})
  {
    hide SoundText, SoundSiv, SoundHashes, SoundSeal;
    forall id {:trigger DirIdHash(v, id)} | id != dirID
      ensures SameWithin(t, u, DirIdHash(v, id))
    {
      StoresDiffer(v, dirID, id);
      forall q | Within(DirIdHash(v, id), q)
        ensures |q| >= 3 && !Within(DirIdHash(v, dirID), q)
      {
        TwoOfOneLength(DirIdHash(v, dirID), DirIdHash(v, id), DirIdHash(v, dirID), q);
      }
    }
  }

  // ---------- one storage directory being filled ----------

  /** Only the names of `listed` have entries, and the children `done` are completely stored. */
  ghost predicate Filled(v: Vault, t: Tree, plain: Tree, ids: Ids, p: Path, dirID: string, listed: set<string>,
                         done: set<string>)
    requires Sound(v)
  {
    var s := DirIdHash(v, dirID);
    && FolderAt(t, s)
    && IdStored(v, t, dirID)
    && (forall entry {:trigger s + [entry]} :: s + [entry] in t ==>
        entry == DIR_ID_FILE || EntryIn(v, dirID, entry, listed))
    && (forall name {:trigger name in done} :: name in done ==>
          p + [name] in plain && ChildStored(v, t, plain, ids, p, dirID, name))
  }

  ghost predicate EntryIn(v: Vault, dirID: string, entry: string, names: set<string>)
    requires Sound(v)
  {
    exists name :: name in names && entry == EntryOf(v, dirID, name)
  }

  lemma NothingFilled(v: Vault, t: Tree, plain: Tree, ids: Ids, p: Path, dirID: string)
    requires Sound(v) && EmptyStorage(v, t, dirID)
    ensures Filled(v, t, plain, ids, p, dirID, {}, {})
  {
    hide SoundText, SoundSiv, SoundHashes, SoundSeal, DirIdHash;
  }

  /** A new name's entry is free. */
  lemma NewEntryIsFree(v: Vault, t: Tree, plain: Tree, ids: Ids, p: Path, dirID: string, listed: set<string>,
                       done: set<string>, name: string)
    requires Sound(v) && Filled(v, t, plain, ids, p, dirID, listed, done) && name !in listed
    ensures DirIdHash(v, dirID) + [EntryOf(v, dirID, name)] !in t
  {
    var s := DirIdHash(v, dirID);
    EntryShape(v, name, dirID);
    hide SoundText, SoundSiv, SoundHashes, SoundSeal, DirIdHash, EncryptName, EntryName;
    if s + [EntryOf(v, dirID, name)] in t {
      var other :| other in listed && EntryOf(v, dirID, name) == EntryOf(v, dirID, other);
      EntriesDiffer(v, name, other, dirID);
    }
  }

  /** Writing the entry of a new name keeps the rest of the directory. */
  lemma EntryAdded(v: Vault, t: Tree, u: Tree, plain: Tree, ids: Ids, p: Path, dirID: string,
                   listed: set<string>, done: set<string>, name: string)
    requires Sound(v) && Filled(v, t, plain, ids, p, dirID, listed, done) && name !in done
    requires SameExcept(t, u, DirIdHash(v, dirID) + [EntryOf(v, dirID, name)])
    ensures Filled(v, u, plain, ids, p, dirID, listed + {name}, done)
  {
    EntryShape(v, name, dirID);
    hide SoundText, SoundSiv, SoundHashes, SoundSeal, DirIdHash, EncryptName, EntryName, ChildStored;
    var s := DirIdHash(v, dirID);
    var e := s + [EntryOf(v, dirID, name)];
    ParentOfChild(s, EntryOf(v, dirID, name));
    IdBesideEntry(v, t, u, dirID, name);
    forall entry {:trigger s + [entry]} | s + [entry] in u
      ensures entry == DIR_ID_FILE || EntryIn(v, dirID, entry, listed + {name})
    {
      if Within(e, s + [entry]) {
        assert (s + [entry])[|s|] == entry && e[|s|] == EntryOf(v, dirID, name);
        assert (s + [entry])[..|e|] == s + [entry];
        assert EntryIn(v, dirID, entry, listed + {name});
      } else if EntryIn(v, dirID, entry, listed) {
        var other :| other in listed && entry == EntryOf(v, dirID, other);
        assert other in listed + {name};
      }
    }
    forall other | other in done
      ensures ChildStored(v, u, plain, ids, p, dirID, other)
    {
      OtherEntrySame(v, t, u, dirID, name, other);
      ChildFrame(v, t, u, plain, ids, ids, p, dirID, other);
    }
  }

  lemma OtherEntrySame(v: Vault, t: Tree, u: Tree, dirID: string, name: string, other: string)
    requires Sound(v) && name != other && SameExcept(t, u, DirIdHash(v, dirID) + [EntryOf(v, dirID, name)])
    ensures SameWithin(t, u, DirIdHash(v, dirID) + [EntryOf(v, dirID, other)])
  {
    EntriesDiffer(v, name, other, dirID);
    hide SoundText, SoundSiv, SoundHashes, SoundSeal, DirIdHash, EncryptName, EntryName;
    var s := DirIdHash(v, dirID);
    var a, b := s + [EntryOf(v, dirID, name)], s + [EntryOf(v, dirID, other)];
    assert a[|s|] != b[|s|];
    SameBeside(t, u, a, b);
  }

  /** Filling other storage directories keeps this one, also under more ids. */
  lemma FilledStays(v: Vault, t: Tree, u: Tree, plain: Tree, ids: Ids, ids': Ids, p: Path, dirID: string,
                    listed: set<string>, done: set<string>)
    requires Sound(v) && Filled(v, t, plain, ids, p, dirID, listed, done) && SameWithin(t, u, DirIdHash(v, dirID))
    requires forall q {:trigger q in ids} :: q in ids ==> q in ids' && ids'[q] == ids[q]
    ensures Filled(v, u, plain, ids', p, dirID, listed, done)
  {
    hide SoundText, SoundSiv, SoundHashes, SoundSeal, DirIdHash, EncryptName, EntryName, ChildStored, EntryOf,
         EntryIn;
    var s := DirIdHash(v, dirID);
    assert Within(s, s);
    IdFrame(v, t, u, dirID);
    forall entry {:trigger s + [entry]} | s + [entry] in u
      ensures entry == DIR_ID_FILE || EntryIn(v, dirID, entry, listed)
    {
      ParentOfChild(s, entry);
    }
    forall name | name in done
      ensures ChildStored(v, u, plain, ids', p, dirID, name)
    {
      ParentOfChild(s, EntryOf(v, dirID, name));
      SameBelow(t, u, s, s + [EntryOf(v, dirID, name)]);
      ChildFrame(v, t, u, plain, ids, ids', p, dirID, name);
    }
  }

  lemma OneMoreDone(v: Vault, t: Tree, plain: Tree, ids: Ids, p: Path, dirID: string, listed: set<string>,
                    done: set<string>, name: string)
    requires Sound(v) && Filled(v, t, plain, ids, p, dirID, listed, done)
    requires p + [name] in plain && ChildStored(v, t, plain, ids, p, dirID, name)
    ensures Filled(v, t, plain, ids, p, dirID, listed, done + {name})
  {
    hide SoundText, SoundSiv, SoundHashes, SoundSeal, DirIdHash, EncryptName, EntryName, ChildStored, EntryOf,
         EntryIn;
  }

  lemma AllDoneIsStored(v: Vault, t: Tree, plain: Tree, ids: Ids, p: Path, dirID: string, done: set<string>)
    requires Sound(v) && Filled(v, t, plain, ids, p, dirID, done, done)
    requires forall name {:trigger p + [name]} :: p + [name] in plain ==> name in done
    ensures DirStored(v, t, plain, ids, p, dirID)
  {
    hide SoundText, SoundSiv, SoundHashes, SoundSeal, DirIdHash, EncryptName, EntryName, ChildStored, EntryOf;
    forall entry | EntryIn(v, dirID, entry, done)
      ensures StandsForChild(v, plain, p, dirID, entry)
    {
      var name :| name in done && entry == EntryOf(v, dirID, name);
      assert p + [name] in plain;
    }
  }

  // ---------- the folders below ----------

  /** The ids drawn for the folders at and below `p`, as far as the children `done` go. */
  ghost predicate MadeFor(plain: Tree, p: Path, dirID: string, made: Ids, done: set<string>, drawn: set<string>) {
    && p in made && made[p] == dirID
    && (forall q {:trigger q in made} :: q in made ==> FolderAt(plain, q) && (q == p || UnderOneOf(p, done, q)))
    && (forall q {:trigger q in made} :: FolderAt(plain, q) && UnderOneOf(p, done, q) ==> q in made)
    && (forall q {:trigger made[q]} :: q in made && q != p ==> made[q] in drawn)
    && (forall q, r {:trigger made[q], made[r]} :: q in made && r in made && made[q] == made[r] ==> q == r)
  }

  ghost predicate UnderOneOf(p: Path, names: set<string>, q: Path) {
    |q| > |p| && Within(p, q) && q[|p|] in names
  }

  ghost predicate BelowStored(v: Vault, t: Tree, plain: Tree, made: Ids, p: Path)
    requires Sound(v)
  {
    forall q {:trigger made[q]} :: q in made && q != p ==> DirStored(v, t, plain, made, q, made[q])
  }

  lemma BelowStays(v: Vault, t: Tree, u: Tree, plain: Tree, made: Ids, made': Ids, p: Path, ids: set<string>)
    requires Sound(v) && BelowStored(v, t, plain, made, p) && OthersSame(v, t, u, ids)
    requires forall q {:trigger made[q]} :: q in made && q != p ==> made[q] !in ids
    requires forall q {:trigger q in made} :: q in made ==> q in made' && made'[q] == made[q]
    ensures forall q {:trigger made[q]} :: q in made && q != p ==> DirStored(v, u, plain, made', q, made[q])
  {
    hide SoundText, SoundSiv, SoundHashes, SoundSeal, DirIdHash, DirStored;
    forall q | q in made && q != p
      ensures DirStored(v, u, plain, made', q, made[q])
    {
      DirFrame(v, t, u, plain, made, made', q, made[q]);
    }
  }

  lemma WiderIds(v: Vault, t: Tree, plain: Tree, made: Ids, made': Ids)
    requires Sound(v) && forall q {:trigger made[q]} :: q in made ==> DirStored(v, t, plain, made, q, made[q])
    requires forall q {:trigger q in made} :: q in made ==> q in made' && made'[q] == made[q]
    ensures forall q {:trigger made[q]} :: q in made ==> DirStored(v, t, plain, made', q, made[q])
  {
    hide SoundText, SoundSiv, SoundHashes, SoundSeal, DirIdHash, DirStored;
    forall q | q in made
      ensures DirStored(v, t, plain, made', q, made[q])
    {
      DirFrame(v, t, t, plain, made, made', q, made[q]);
    }
  }

  function Below(plain: Tree, p: Path): set<Path> {
    set q | q in plain && Within(p, q)
  }

  lemma ChildHasLessBelow(plain: Tree, p: Path, name: string)
    requires p in plain && p + [name] in plain
    ensures |Below(plain, p + [name])| < |Below(plain, p)|
  {
    ParentOfChild(p, name);
    forall q | q in Below(plain, p + [name])
      ensures q in Below(plain, p) && q != p
    {
      WithinTransitive(p, p + [name], q);
    }
    assert p in Below(plain, p);
    Smaller(Below(plain, p + [name]), Below(plain, p), p);
  }

  lemma Smaller(a: set<Path>, b: set<Path>, x: Path)
    requires a <= b && x in b && x !in a
    ensures |a| < |b|
  {
    SubsetSize(a, b - {x});
  }

  lemma SubsetSize(a: set<Path>, b: set<Path>)
    requires a <= b
    ensures |a| <= |b|
    decreases |a|
  {
    if a != {} {
      var x :| x in a;
      SubsetSize(a - {x}, b - {x});
    }
  }

  lemma FileMade(plain: Tree, p: Path, dirID: string, made: Ids, done: set<string>, drawn: set<string>, name: string)
    requires Closed(plain) && MadeFor(plain, p, dirID, made, done, drawn)
    requires p + [name] in plain && plain[p + [name]] != Folder
    ensures MadeFor(plain, p, dirID, made, done + {name}, drawn)
  {
    forall q | FolderAt(plain, q) && UnderOneOf(p, {name}, q)
      ensures false
    {
      assert q[..|p| + 1] == p + [name];
      NothingBelowFile(plain, p + [name], q);
    }
    forall q | FolderAt(plain, q) && UnderOneOf(p, done + {name}, q)
      ensures UnderOneOf(p, done, q)
    {
    }
  }

  lemma FolderMade(plain: Tree, p: Path, dirID: string, made: Ids, done: set<string>, drawn: set<string>, name: string,
                   subID: string, sub: Ids, subNames: set<string>, subDrawn: set<string>)
    requires MadeFor(plain, p, dirID, made, done, drawn) && name !in done
    requires MadeFor(plain, p + [name], subID, sub, subNames, subDrawn)
    requires forall n {:trigger p + [name] + [n]} :: p + [name] + [n] in plain ==> n in subNames
    requires Closed(plain)
    requires subID !in drawn && subID != dirID && subDrawn !! drawn + {subID, dirID} && dirID !in drawn
    ensures MadeFor(plain, p, dirID, made + sub, done + {name}, drawn + {subID} + subDrawn)
    ensures made.Keys !! sub.Keys
  {
    var m := made + sub;
    var c := p + [name];
    forall q | q in sub
      ensures Within(c, q) && UnderOneOf(p, {name}, q) && q !in made && (sub[q] == subID || sub[q] in subDrawn)
    {
      assert Within(c, q);
      assert q[|p|] == c[|p|] == name by { assert q[..|c|] == c; }
      ParentOfChild(p, name);
      WithinTransitive(p, c, q);
    }
    forall q | FolderAt(plain, q) && UnderOneOf(p, done + {name}, q)
      ensures q in m
    {
      if q[|p|] == name {
        assert q[..|p| + 1] == c;
        if q != c {
          ChildOfPrefix(plain, c, q);
          assert UnderOneOf(c, subNames, q);
        }
        assert q in sub;
      } else {
        assert UnderOneOf(p, done, q);
      }
    }
    forall q | q in m && q != p
      ensures m[q] in drawn + {subID} + subDrawn
      ensures UnderOneOf(p, done + {name}, q)
    {
      if q !in sub { assert made[q] in drawn; }
    }
    forall q, r {:trigger m[q], m[r]} | q in m && r in m && m[q] == m[r]
      ensures q == r
    {
    }
  }

  lemma ChildOfPrefix(plain: Tree, c: Path, q: Path)
    requires Closed(plain) && q in plain && Within(c, q) && q != c
    ensures c + [q[|c|]] in plain
  {
    assert q[..|c| + 1] == c + [q[|c|]];
    AncestorsAreFolders(plain, q[..|c| + 1], q);
  }

  // ---------- encryptDir ----------

  /** The folder at `p` and everything below it is stored, under the ids of `made`. */
  ghost predicate SubtreeStored(v: Vault, t: Tree, plain: Tree, made: Ids, p: Path, dirID: string, drawn: set<string>)
    requires Sound(v)
  {
    && MadeFor(plain, p, dirID, made, ReadDir(plain, p), drawn)
    && forall q {:trigger made[q]} :: q in made ==> DirStored(v, t, plain, made, q, made[q])
  }

  /** Half-way through a folder: the children `done` are stored with all below them. */
  ghost predicate HalfStored(v: Vault, t: Tree, plain: Tree, made: Ids, p: Path, dirID: string, done: set<string>,
                             drawn: set<string>)
    requires Sound(v)
  {
    && MadeFor(plain, p, dirID, made, done, drawn) && dirID !in drawn
    && Filled(v, t, plain, made, p, dirID, done, done)
    && BelowStored(v, t, plain, made, p)
  }

  lemma HalfStoredStarts(v: Vault, t: Tree, plain: Tree, p: Path, dirID: string)
    requires Sound(v) && EmptyStorage(v, t, dirID) && FolderAt(plain, p)
    ensures HalfStored(v, t, plain, map[p := dirID], p, dirID, {}, {})
  {
    hide SoundText, SoundSiv, SoundHashes, SoundSeal, DirIdHash, EmptyStorage, Filled;
    NothingFilled(v, t, plain, map[p := dirID], p, dirID);
  }

  lemma HalfStoredEnds(v: Vault, t: Tree, plain: Tree, made: Ids, p: Path, dirID: string, done: set<string>,
                       drawn: set<string>)
    requires Sound(v) && HalfStored(v, t, plain, made, p, dirID, done, drawn) && done == ReadDir(plain, p)
    ensures SubtreeStored(v, t, plain, made, p, dirID, drawn)
  {
    hide SoundText, SoundSiv, SoundHashes, SoundSeal, DirIdHash, DirStored, Filled, MadeFor, ReadDir;
    forall name {:trigger p + [name]} | p + [name] in plain
      ensures name in done
    {
      ReadDirIs(plain, p, name);
    }
    AllDoneIsStored(v, t, plain, made, p, dirID, done);
    forall q | q in made
      ensures DirStored(v, t, plain, made, q, made[q])
    {
      if q == p { assert made[q] == dirID by { MadeStart(plain, p, dirID, made, done, drawn); } }
    }
  }

  lemma MadeStart(plain: Tree, p: Path, dirID: string, made: Ids, done: set<string>, drawn: set<string>)
    requires MadeFor(plain, p, dirID, made, done, drawn)
    ensures p in made && made[p] == dirID
    ensures forall q {:trigger made[q]} :: q in made && q != p ==> made[q] in drawn
  {
  }

  lemma FileDone(v: Vault, t: Tree, u: Tree, plain: Tree, made: Ids, p: Path, dirID: string, done: set<string>,
                 drawn: set<string>, name: string)
    requires Sound(v) && Closed(plain) && HalfStored(v, t, plain, made, p, dirID, done, drawn) && name !in done
    requires p + [name] in plain && plain[p + [name]] != Folder
    requires SameExcept(t, u, DirIdHash(v, dirID) + [EntryOf(v, dirID, name)])
    requires EntryHolds(v, u, DirIdHash(v, dirID) + [EntryOf(v, dirID, name)], EncryptName(v, name, dirID),
                        plain[p + [name]], "")
    ensures HalfStored(v, u, plain, made, p, dirID, done + {name}, drawn)
  {
    hide SoundText, SoundSiv, SoundHashes, SoundSeal, DirIdHash, EncryptName, EntryName, EntryOf, Filled,
         MadeFor, DirStored, EntryHolds;
    MadeStart(plain, p, dirID, made, done, drawn);
    FileMade(plain, p, dirID, made, done, drawn, name);
    EntryAdded(v, t, u, plain, made, p, dirID, done, done, name);
    FileIsChild(v, u, plain, made, p, dirID, name);
    OneMoreDone(v, u, plain, made, p, dirID, done + {name}, done, name);
    EntryTouchesOne(v, t, u, dirID, EntryOf(v, dirID, name));
    BelowStays(v, t, u, plain, made, made, p, {dirID});
  }

  lemma FileIsChild(v: Vault, t: Tree, plain: Tree, ids: Ids, p: Path, dirID: string, name: string)
    requires Sound(v) && p + [name] in plain && plain[p + [name]] != Folder
    requires EntryHolds(v, t, DirIdHash(v, dirID) + [EntryOf(v, dirID, name)], EncryptName(v, name, dirID),
                        plain[p + [name]], "")
    ensures ChildStored(v, t, plain, ids, p, dirID, name)
  {
    hide SoundText, SoundSiv, SoundHashes, SoundSeal, DirIdHash, EncryptName, EntryName, EntryOf;
    FileEntryFrame(v, t, t, DirIdHash(v, dirID) + [EntryOf(v, dirID, name)], EncryptName(v, name, dirID),
                   plain[p + [name]], "", IdOf(ids, p + [name]));
  }

  /** A subfolder is done once its wrapper `e` and its whole subtree are stored. */
  lemma {:induction false} FolderDone(v: Vault, t: Tree, u: Tree, w: Tree, plain: Tree, made: Ids, p: Path,
                                      dirID: string, done: set<string>, drawn: set<string>, name: string, subID: string,
                                      sub: Ids, subDrawn: set<string>)
    requires Sound(v) && Closed(plain) && HalfStored(v, t, plain, made, p, dirID, done, drawn) && name !in done
    requires FolderAt(plain, p + [name])
    requires SameExcept(t, u, DirIdHash(v, dirID) + [EntryOf(v, dirID, name)])
    requires EntryHolds(v, u, DirIdHash(v, dirID) + [EntryOf(v, dirID, name)], EncryptName(v, name, dirID), Folder,
                        subID)
    requires OthersSame(v, u, w, {subID} + subDrawn) && SubtreeStored(v, w, plain, sub, p + [name], subID, subDrawn)
    requires subID !in drawn && subID != dirID && subDrawn !! drawn + {subID, dirID}
    ensures HalfStored(v, w, plain, made + sub, p, dirID, done + {name}, drawn + {subID} + subDrawn)
  {
    hide SoundText, SoundSiv, SoundHashes, SoundSeal, DirIdHash, EncryptName, EntryName, EntryOf, Filled,
         MadeFor, DirStored, EntryHolds;
    var c, all := p + [name], made + sub;
    MadeStart(plain, p, dirID, made, done, drawn);
    MadeStart(plain, c, subID, sub, ReadDir(plain, c), subDrawn);
    forall n {:trigger c + [n]} | c + [n] in plain ensures n in ReadDir(plain, c) { ReadDirIs(plain, c, n); }
    FolderMade(plain, p, dirID, made, done, drawn, name, subID, sub, ReadDir(plain, c), subDrawn);
    EntryAdded(v, t, u, plain, made, p, dirID, done, done, name);
    assert SameWithin(u, w, DirIdHash(v, dirID));
    FilledStays(v, u, w, plain, made, all, p, dirID, done + {name}, done);
    FolderIsChild(v, u, w, plain, all, p, dirID, name, subID);
    OneMoreDone(v, w, plain, all, p, dirID, done + {name}, done, name);
    EntryTouchesOne(v, t, u, dirID, EntryOf(v, dirID, name));
    OthersSameTwice(v, t, u, w, {dirID}, {subID} + subDrawn);
    BelowStays(v, t, w, plain, made, all, p, {dirID} + ({subID} + subDrawn));
    WiderIds(v, w, plain, sub, all);
  }

  lemma FolderIsChild(v: Vault, t: Tree, u: Tree, plain: Tree, ids: Ids, p: Path, dirID: string, name: string,
                      id: string)
    requires Sound(v) && FolderAt(plain, p + [name]) && p + [name] in ids && ids[p + [name]] == id
    requires SameWithin(t, u, DirIdHash(v, dirID))
    requires EntryHolds(v, t, DirIdHash(v, dirID) + [EntryOf(v, dirID, name)], EncryptName(v, name, dirID), Folder, id)
    ensures ChildStored(v, u, plain, ids, p, dirID, name)
  {
    hide SoundText, SoundSiv, SoundHashes, SoundSeal, DirIdHash, EncryptName, EntryName, EntryOf, EntryHolds;
    var s := DirIdHash(v, dirID);
    ParentOfChild(s, EntryOf(v, dirID, name));
    SameBelow(t, u, s, s + [EntryOf(v, dirID, name)]);
    EntryFrame(v, t, u, s + [EntryOf(v, dirID, name)], EncryptName(v, name, dirID), Folder, id);
  }

  /** Since `t0` only storage directories of `dirID` and of ids drawn since have changed. */
  ghost predicate OnlyOwn(v: Vault, t0: Tree, t: Tree, dirID: string, issued0: set<string>, issued: set<string>)
    requires Sound(v)
  {
    && Closed(t) && issued0 <= issued && dirID in issued0 && OnlyIssued(v, t, issued)
    && OthersSame(v, t0, t, {dirID} + (issued - issued0))
    && (OnlyFoldersAbove(t0) ==> OnlyFoldersAbove(t))
    && SameExcept(t0, t, ["d"])
  }

  /** encryptDir. Whatever the folder contains, its storage directory and those of all folders
      below are written, each under an id of its own, and no other storage directory changes. */
  method EncryptDir(v: Vault, io: Store, uuids: Uuids, plain: Tree, dirPath: Path, dirID: string)
      returns (ok: bool, ghost made: Ids)
    requires Sound(v) && Closed(io.tree) && Closed(plain) && FolderAt(plain, dirPath)
    requires DirIdHash(v, dirID) !in io.tree && dirID in uuids.issued && OnlyIssued(v, io.tree, uuids.issued)
    modifies io, uuids
    ensures OnlyOwn(v, old(io.tree), io.tree, dirID, old(uuids.issued), uuids.issued)
    ensures ok ==> SubtreeStored(v, io.tree, plain, made, dirPath, dirID, uuids.issued - old(uuids.issued))
    ensures io.reliable && OnlyFoldersAbove(old(io.tree)) ==> ok
    decreases |Below(plain, dirPath)|, 1
  {
    hide SoundText, SoundSiv, SoundHashes, SoundSeal, DirIdHash, EncryptName, EntryName, EntryHolds,
         HalfStored, SubtreeStored, OnlyOwn, SameExcept, SameDeep, EmptyStorage, ReadDir, Below, Closed;
    made := map[dirPath := dirID];
    ghost var t0, issued0 := io.tree, uuids.issued;
    ok := MakeStorage(v, io, dirID);
    StorageMade(v, t0, io.tree, dirID, issued0);
    if !ok { return; }
    HalfStoredStarts(v, io.tree, plain, dirPath, dirID);
    NoneDrawn(issued0);
    var rest := ReadDir(plain, dirPath);
    ghost var done: set<string> := {};
    while rest != {}
      invariant OnlyOwn(v, t0, io.tree, dirID, issued0, uuids.issued)
      invariant done !! rest && done + rest == ReadDir(plain, dirPath)
      invariant HalfStored(v, io.tree, plain, made, dirPath, dirID, done, uuids.issued - issued0)
      decreases |rest|
    {
      var name :| name in rest;
      rest := rest - {name};
      ReadDirIs(plain, dirPath, name);
      ghost var t := io.tree;
      match plain[dirPath + [name]] {
        case Folder =>
          ok, made := EncryptSubfolder(v, io, uuids, plain, dirPath, dirID, name, made, done, t0, issued0);
          if !ok { return; }
        case Regular(data) =>
          HalfStoredIsFree(v, t, plain, made, dirPath, dirID, done, uuids.issued - issued0, name);
          OwnIsClosed(v, t0, t, dirID, issued0, uuids.issued);
          ok := StoreFile(v, io, DirIdHash(v, dirID), EncryptName(v, name, dirID), data);
          EntryWritten(v, t0, t, io.tree, dirID, name, issued0, uuids.issued, uuids.issued);
          if !ok { return; }
          FileDone(v, t, io.tree, plain, made, dirPath, dirID, done, uuids.issued - issued0, name);
      }
      done := done + {name};
    }
    HalfStoredEnds(v, io.tree, plain, made, dirPath, dirID, done, uuids.issued - issued0);
    ok := true;
  }

  /** The folder branch of encryptDir's loop: a new id, the wrapper, then the folder itself. */
  method EncryptSubfolder(v: Vault, io: Store, uuids: Uuids, plain: Tree, dirPath: Path, dirID: string, name: string,
                          ghost made: Ids, ghost done: set<string>, ghost t0: Tree, ghost issued0: set<string>)
      returns (ok: bool, ghost made': Ids)
    requires Sound(v) && Closed(plain) && FolderAt(plain, dirPath) && FolderAt(plain, dirPath + [name]) && name !in done
    requires OnlyOwn(v, t0, io.tree, dirID, issued0, uuids.issued)
    requires HalfStored(v, io.tree, plain, made, dirPath, dirID, done, uuids.issued - issued0)
    modifies io, uuids
    ensures OnlyOwn(v, t0, io.tree, dirID, issued0, uuids.issued)
    ensures ok ==> HalfStored(v, io.tree, plain, made', dirPath, dirID, done + {name}, uuids.issued - issued0)
    ensures io.reliable && OnlyFoldersAbove(t0) ==> ok
    decreases |Below(plain, dirPath)|, 0
  {
    hide SoundText, SoundSiv, SoundHashes, SoundSeal, DirIdHash, EncryptName, EntryName, EntryHolds,
         HalfStored, SubtreeStored, SameExcept, SameDeep, EmptyStorage, ReadDir, Below, Closed, OthersSame, OnlyIssued;
    made' := made;
    ghost var t, issued := io.tree, uuids.issued;
    HalfStoredIsFree(v, t, plain, made, dirPath, dirID, done, issued - issued0, name);
    var subID := uuids.New();
    ok := StoreFolder(v, io, DirIdHash(v, dirID), EncryptName(v, name, dirID), subID);
    ghost var u := io.tree;
    EntryWritten(v, t0, t, u, dirID, name, issued0, issued, uuids.issued);
    if !ok { return; }
    ChildHasLessBelow(plain, dirPath, name);
    EntryWritten(v, t0, t, u, dirID, name, issued0, issued, issued);
    UnissuedIsFree(v, u, issued, subID);
    ghost var sub;
    ok, sub := EncryptDir(v, io, uuids, plain, dirPath + [name], subID);
    SubtreeWritten(v, t0, u, io.tree, dirID, subID, issued0, issued, uuids.issued);
    if !ok { return; }
    FolderDone(v, t, u, io.tree, plain, made, dirPath, dirID, done, issued - issued0, name, subID, sub,
               uuids.issued - (issued + {subID}));
    assert issued - issued0 + {subID} + (uuids.issued - (issued + {subID})) == uuids.issued - issued0;
    made' := made + sub;
  }

  lemma NoneDrawn(issued: set<string>)
    ensures issued - issued == {}
  {
  }

  lemma OwnIsClosed(v: Vault, t0: Tree, t: Tree, dirID: string, issued0: set<string>, issued: set<string>)
    requires Sound(v) && OnlyOwn(v, t0, t, dirID, issued0, issued)
    ensures Closed(t) && dirID in issued && issued0 <= issued && (OnlyFoldersAbove(t0) ==> OnlyFoldersAbove(t))
  {
  }

  lemma StorageMade(v: Vault, t0: Tree, t: Tree, dirID: string, issued: set<string>)
    requires Sound(v) && Closed(t) && SameDeep(t0, t, DirIdHash(v, dirID)) && dirID in issued
    requires OnlyIssued(v, t0, issued)
    requires (OnlyFoldersAbove(t0) ==> OnlyFoldersAbove(t)) && SameExcept(t0, t, ["d"])
    ensures OnlyOwn(v, t0, t, dirID, issued, issued)
  {
    hide SoundText, SoundSiv, SoundHashes, SoundSeal, OnlyIssued, OthersSame, OnlyFoldersAbove, Closed,
         DirIdHash, SameDeep;
    DeepTouchesOne(v, t0, t, dirID);
    StillOnlyIssued(v, t0, t, issued, {dirID});
    assert {dirID} + (issued - issued) == {dirID};
  }

  lemma HalfStoredIsFree(v: Vault, t: Tree, plain: Tree, made: Ids, p: Path, dirID: string, done: set<string>,
                         drawn: set<string>, name: string)
    requires Sound(v) && HalfStored(v, t, plain, made, p, dirID, done, drawn) && name !in done
    ensures FolderAt(t, DirIdHash(v, dirID)) && DirIdHash(v, dirID) + [EntryOf(v, dirID, name)] !in t
  {
    hide SoundText, SoundSiv, SoundHashes, SoundSeal, DirIdHash, EncryptName, EntryName, EntryHolds, MadeFor,
         BelowStored;
    NewEntryIsFree(v, t, plain, made, p, dirID, done, done, name);
  }

  lemma UnissuedIsFree(v: Vault, t: Tree, issued: set<string>, id: string)
    requires Sound(v) && OnlyIssued(v, t, issued) && id !in issued
    ensures DirIdHash(v, id) !in t && OnlyIssued(v, t, issued + {id})
  {
  }

  lemma EntryWritten(v: Vault, t0: Tree, t: Tree, u: Tree, dirID: string, name: string,
                     issued0: set<string>, issued: set<string>, issued': set<string>)
    requires Sound(v) && OnlyOwn(v, t0, t, dirID, issued0, issued) && issued <= issued' && Closed(u)
    requires SameExcept(t, u, DirIdHash(v, dirID) + [EntryOf(v, dirID, name)])
    ensures OnlyOwn(v, t0, u, dirID, issued0, issued')
  {
    hide SoundText, SoundSiv, SoundHashes, SoundSeal, EncryptName, EntryName;
    EntryTouchesOne(v, t, u, dirID, EntryOf(v, dirID, name));
    StillOnlyIssued(v, t, u, issued, {dirID});
    OthersSameTwice(v, t0, t, u, {dirID} + (issued - issued0), {dirID});
    EntryIsDeep(v, t, u, dirID, EntryOf(v, dirID, name));
    SameExceptChain(t0, t, u, ["d"]);
    hide DirIdHash, OnlyFoldersAbove, SameExcept, Closed;
  }

  lemma EntryIsDeep(v: Vault, t: Tree, u: Tree, dirID: string, entry: string)
    requires Sound(v) && SameExcept(t, u, DirIdHash(v, dirID) + [entry])
    ensures OnlyFoldersAbove(t) ==> OnlyFoldersAbove(u)
    ensures SameExcept(t, u, ["d"])
  {
    var s := DirIdHash(v, dirID);
    assert Within(["d"], s + [entry]);
    forall q | !Within(["d"], q)
      ensures !Within(s + [entry], q)
    {
      if Within(s + [entry], q) { WithinTransitive(["d"], s + [entry], q); }
    }
  }

  lemma SameExceptChain(t: Tree, u: Tree, w: Tree, top: Path)
    requires SameExcept(t, u, top) && SameExcept(u, w, top)
    ensures SameExcept(t, w, top)
  {
  }

  lemma SubtreeWritten(v: Vault, t0: Tree, u: Tree, w: Tree, dirID: string, subID: string,
                       issued0: set<string>, issued: set<string>, issued': set<string>)
    requires Sound(v) && OnlyOwn(v, t0, u, dirID, issued0, issued) && subID !in issued
    requires OnlyOwn(v, u, w, subID, issued + {subID}, issued')
    ensures OnlyOwn(v, t0, w, dirID, issued0, issued')
    ensures OthersSame(v, u, w, {subID} + (issued' - (issued + {subID})))
  {
    hide SoundText, SoundSiv, SoundHashes, SoundSeal, DirIdHash, OthersSame, Closed, OnlyIssued,
         OnlyFoldersAbove, SameExcept;
    OthersSameTwice(v, t0, u, w, {dirID} + (issued - issued0), {subID} + (issued' - (issued + {subID})));
    SameExceptChain(t0, u, w, ["d"]);
    assert {dirID} + (issued - issued0) + ({subID} + (issued' - (issued + {subID}))) == {dirID} + (issued' - issued0);
  }

  // ---------- EncryptTree ----------

  lemma EmptyVault(v: Vault, t: Tree, issued: set<string>)
    requires Sound(v) && Closed(t) && ["d"] !in t
    ensures OnlyIssued(v, t, issued) && OnlyFoldersAbove(t)
    ensures forall id {:trigger DirIdHash(v, id)} :: DirIdHash(v, id) !in t
  {
    forall q | Within(["d"], q)
      ensures q !in t
    {
      NothingBelowAbsent(t, ["d"], q);
    }
    forall id {:trigger DirIdHash(v, id)}
      ensures DirIdHash(v, id) !in t
    {
      assert Within(["d"], DirIdHash(v, id));
    }
  }

  lemma WholeTreeStored(v: Vault, t: Tree, plain: Tree, made: Ids, drawn: set<string>)
    requires Sound(v) && Closed(t) && Closed(plain) && SubtreeStored(v, t, plain, made, [], "", drawn)
    ensures Represents(v, t, plain, made)
  {
    hide SoundText, SoundSiv, SoundHashes, SoundSeal, DirIdHash, DirStored;
    forall q | FolderAt(plain, q)
      ensures q in made
    {
      if q != [] {
        ChildOfPrefix(plain, [], q);
        ReadDirIs(plain, [], q[0]);
        assert UnderOneOf([], ReadDir(plain, []), q);
      }
    }
  }

  /** EncryptTree into a vault without a `d` folder: the vault represents the plain tree, folder
      by folder, whatever the tree and its names; files outside `d` are not touched. */
  method EncryptTree(v: Vault, io: Store, uuids: Uuids, plain: Tree) returns (ok: bool, ghost ids: Ids)
    requires Sound(v) && Closed(io.tree) && Closed(plain)
    requires ["d"] !in io.tree && "" in uuids.issued
    modifies io, uuids
    ensures Closed(io.tree) && SameExcept(old(io.tree), io.tree, ["d"])
    ensures old(uuids.issued) <= uuids.issued && OnlyIssued(v, io.tree, uuids.issued)
    ensures ok ==> Represents(v, io.tree, plain, ids)
    ensures io.reliable ==> ok
  {
    hide SoundText, SoundSiv, SoundHashes, SoundSeal, DirIdHash, SubtreeStored, Represents, OthersSame, Closed,
         OnlyFoldersAbove;
    EmptyVault(v, io.tree, uuids.issued);
    ghost var t0, issued0 := io.tree, uuids.issued;
    RootIsFolder(plain);
    ok, ids := EncryptDir(v, io, uuids, plain, [], "");
    if ok { WholeTreeStored(v, io.tree, plain, ids, uuids.issued - issued0); }
  }

  lemma RootIsFolder(t: Tree)
    requires Closed(t)
    ensures FolderAt(t, [])
  {
  }
}
