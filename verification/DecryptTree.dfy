/** decrypt.go: rebuilding the plain tree by following directory ids. */
module DecryptTree {
  import opened FileSystem
  import opened Crypto
  import opened Names
  import opened Content
  import opened VaultStore
  import opened VaultIO

  /** What the store is known to represent. */
  datatype Rep = Rep(plain: Tree, ids: Ids)

  /** What a listed name leads to, as decryptDir finds out. */
  datatype Found = Skip | Broken | FileFound(name: string, path: Path) | FolderFound(name: string, idPath: Path)

  /** decryptDir's decision about one entry of the storage directory `s`. */
  function Classify(v: Vault, t: Tree, s: Path, entry: string, dirID: string): Found
    requires Sound(v)
  {
    var e := s + [entry];
    if entry == DIR_ID_FILE then Skip
    else if HasSuffix(entry, C9S) && e in t && t[e] == Folder then
      if !(e + [NAME_FILE] in t && t[e + [NAME_FILE]].Regular?) then Broken
      else
        (match DecryptName(v, v.lib.text(t[e + [NAME_FILE]].data), dirID)
         case None => Broken
         case Some(name) =>
           if e + [DIR_FILE] in t then FolderFound(name, e + [DIR_FILE])
           else if e + [CONTENTS_FILE] in t then FileFound(name, e + [CONTENTS_FILE])
           else Broken)
    else if !HasSuffix(entry, C9R) then Skip
    else
      match DecryptName(v, entry, dirID)
      case None => Broken
      case Some(name) =>
        if e in t && t[e] == Folder then FolderFound(name, e + [DIR_FILE]) else FileFound(name, e)
  }

  /** The entry of a child is recognised for what it is. */
  lemma ChildIsFound(v: Vault, t: Tree, plain: Tree, ids: Ids, p: Path, dirID: string, name: string)
    requires Sound(v) && p + [name] in plain && ChildStored(v, t, plain, ids, p, dirID, name)
    ensures var found := Classify(v, t, DirIdHash(v, dirID), EntryOf(v, dirID, name), dirID);
            match plain[p + [name]]
            case Folder => found.FolderFound? && found.name == name && p + [name] in ids
                           && FileAt(t, found.idPath, v.lib.bytes(ids[p + [name]]))
            case Regular(data) => found.FileFound? && found.name == name && Encrypts(v, t, found.path, data)
    ensures DirIdHash(v, dirID) + [EntryOf(v, dirID, name)] in t
  {
    NameRoundTrip(v, name, dirID);
    EntryShape(v, name, dirID);
    TextRoundTrip(v, EncryptName(v, name, dirID));
    hide SoundText, SoundSiv, SoundHashes, SoundSeal, DirIdHash, EncryptName, DecryptName, EntryName,
         Plaintext, HasSuffix;
  }

  lemma TextRoundTrip(v: Vault, s: string)
    requires Sound(v)
    ensures v.lib.text(v.lib.bytes(s)) == s
  {
  }

  /** A child one tree has under a directory id the other has too. */
  lemma SameChild(v: Vault, store: Tree, plain: Tree, ids: Ids, plain': Tree, ids': Ids, p: Path, name: string)
    requires Sound(v) && p in ids && p in ids' && ids'[p] == ids[p] && p + [name] in plain
    requires DirStored(v, store, plain, ids, p, ids[p]) && DirStored(v, store, plain', ids', p, ids[p])
    ensures p + [name] in plain' && plain'[p + [name]] == plain[p + [name]]
    ensures plain[p + [name]] == Folder ==>
              p + [name] in ids && p + [name] in ids' && ids'[p + [name]] == ids[p + [name]]
  {
    hide SoundText, SoundSiv, SoundHashes, SoundSeal, DirIdHash, EncryptName, EntryName, EntryOf, Classify,
         ChildStored, Plaintext;
    var d, q := ids[p], p + [name];
    assert ChildStored(v, store, plain, ids, p, d, name);
    ChildIsFound(v, store, plain, ids, p, d, name);
    EntryIsNoIdFile(v, d, name);
    var other :| p + [other] in plain' && EntryOf(v, d, name) == EntryOf(v, d, other);
    if other != name { EntriesAreApart(v, d, other, name); }
    assert ChildStored(v, store, plain', ids', p, d, name);
    ChildIsFound(v, store, plain', ids', p, d, name);
    if plain[q] == Folder {
      TextRoundTrip(v, ids[q]);
      TextRoundTrip(v, ids'[q]);
    }
  }

  lemma EntryIsNoIdFile(v: Vault, dirID: string, name: string)
    requires Sound(v)
    ensures EntryOf(v, dirID, name) != DIR_ID_FILE
  {
    hide SoundText, SoundSiv, SoundHashes, SoundSeal, EncryptName, EntryName;
    EntryShape(v, name, dirID);
  }

  lemma EntriesAreApart(v: Vault, dirID: string, a: string, b: string)
    requires Sound(v) && a != b
    ensures EntryOf(v, dirID, a) != EntryOf(v, dirID, b)
  {
    hide SoundText, SoundSiv, SoundHashes, SoundSeal, EncryptName, EntryName;
    EntriesDiffer(v, a, b, dirID);
  }

  lemma {:induction false} SameNode(v: Vault, store: Tree, plain: Tree, ids: Ids, plain': Tree, ids': Ids, q: Path)
    requires Sound(v) && Represents(v, store, plain, ids) && Represents(v, store, plain', ids') && q in plain
    ensures q in plain' && plain'[q] == plain[q]
    ensures plain[q] == Folder ==> q in ids && q in ids' && ids'[q] == ids[q]
    decreases |q|
  {
    hide SoundText, SoundSiv, SoundHashes, SoundSeal, DirStored;
    if q != [] {
      var p := Parent(q);
      SameNode(v, store, plain, ids, plain', ids', p);
      RejoinParent(q);
      SameChild(v, store, plain, ids, plain', ids', p, Base(q));
    }
  }

  /** A store represents at most one tree, under one assignment of ids. */
  lemma RepresentsOne(v: Vault, store: Tree, plain: Tree, ids: Ids, plain': Tree, ids': Ids)
    requires Sound(v) && Represents(v, store, plain, ids) && Represents(v, store, plain', ids')
    ensures plain == plain' && ids == ids'
  {
    hide SoundText, SoundSiv, SoundHashes, SoundSeal, DirStored, Closed;
    forall q
      ensures q in plain <==> q in plain'
      ensures q in plain ==> plain[q] == plain'[q]
      ensures q in plain && plain[q] == Folder ==> q in ids && q in ids' && ids[q] == ids'[q]
    {
      if q in plain { SameNode(v, store, plain, ids, plain', ids', q); }
      if q in plain' { SameNode(v, store, plain', ids', plain, ids, q); }
    }
  }

  /** The plain node at this path has been put into the output, in the place of nothing or of a
      node of its kind. */
  ghost predicate PutAt(base: Tree, plain: Tree, out: Tree, q: Path) {
    && q in plain && q in out && out[q] == plain[q]
    && (q in base ==> (base[q] == Folder <==> plain[q] == Folder))
  }

  ghost predicate LeftAt(base: Tree, out: Tree, q: Path) {
    (q in out <==> q in base) && (q in out ==> out[q] == base[q])
  }

  /** Below `top` the output is what was there before, with the plain tree put over it. */
  ghost predicate Over(base: Tree, plain: Tree, out: Tree, top: Path) {
    forall q {:trigger q in out} {:trigger q in plain} {:trigger q in base} :: Within(top, q) ==>
      if q in plain then PutAt(base, plain, out, q) else LeftAt(base, out, q)
  }

  /** No path below `top` is a file in one tree and a folder in the other. */
  ghost predicate NoClash(base: Tree, plain: Tree, top: Path) {
    forall q {:trigger q in plain} {:trigger q in base} :: Within(top, q) && q in plain && q in base ==>
      (base[q] == Folder <==> plain[q] == Folder)
  }

  lemma OverIsNoClash(base: Tree, plain: Tree, out: Tree, top: Path)
    requires Over(base, plain, out, top)
    ensures NoClash(base, plain, top)
  {
  }

  /** Over an empty folder the plain tree is all there is. */
  lemma OverNothing(base: Tree, plain: Tree, out: Tree)
    requires base.Keys <= {[]} && [] in plain && plain[[]] == Folder && ([] in base ==> base[[]] == Folder)
    ensures NoClash(base, plain, []) && (Over(base, plain, out, []) ==> out == plain)
  {
    if Over(base, plain, out, []) {
      forall q
        ensures q in out <==> q in plain
        ensures q in out ==> out[q] == plain[q]
      {
        assert Within([], q);
      }
    }
  }

  /** The output below `p` holds the plain nodes of the entries in `done`, over what was there. */
  ghost predicate OutSoFar(v: Vault, base: Tree, out: Tree, plain: Tree, p: Path, dirID: string, done: set<string>)
    requires Sound(v)
  {
    forall q {:trigger q in out} {:trigger q in plain} {:trigger q in base} :: Within(p, q) ==>
      if q in plain && (q == p || EntryOf(v, dirID, q[|p|]) in done) then PutAt(base, plain, out, q)
          else LeftAt(base, out, q)
  }

  lemma OneMoreOut(v: Vault, base: Tree, t: Tree, u: Tree, plain: Tree, p: Path, dirID: string, done: set<string>,
                   name: string)
    requires Sound(v) && OutSoFar(v, base, t, plain, p, dirID, done) && EntryOf(v, dirID, name) !in done
    requires SameExcept(t, u, p + [name]) && Over(t, plain, u, p + [name])
    ensures OutSoFar(v, base, u, plain, p, dirID, done + {EntryOf(v, dirID, name)})
  {
    hide SoundText, SoundSiv, SoundHashes, SoundSeal, EncryptName, EntryName;
    var c := p + [name];
    forall q | Within(p, q)
      ensures if q in plain && (q == p || EntryOf(v, dirID, q[|p|]) in done + {EntryOf(v, dirID, name)})
              then PutAt(base, plain, u, q) else LeftAt(base, u, q)
    {
      if Within(c, q) {
        assert q[|p|] == c[|p|] by { assert q[..|c|] == c; }
        assert LeftAt(base, t, q);
      } else if q != p {
        assert q[|p|] != name by { assert q[..|p| + 1] == p + [q[|p|]]; }
        EntriesDiffer(v, q[|p|], name, dirID);
      } else {
        assert !Within(c, p);
      }
    }
  }

  lemma SkippedOut(v: Vault, base: Tree, t: Tree, plain: Tree, p: Path, dirID: string, done: set<string>)
    requires Sound(v) && OutSoFar(v, base, t, plain, p, dirID, done)
    ensures OutSoFar(v, base, t, plain, p, dirID, done + {DIR_ID_FILE})
  {
    hide SoundText, SoundSiv, SoundHashes, SoundSeal, EncryptName, EntryName;
    forall name: string
      ensures EntryOf(v, dirID, name) != DIR_ID_FILE
    {
      EntryShape(v, name, dirID);
    }
  }

  lemma AllOut(v: Vault, store: Tree, base: Tree, out: Tree, plain: Tree, ids: Ids, p: Path, dirID: string,
               done: set<string>)
    requires Sound(v) && OutSoFar(v, base, out, plain, p, dirID, done) && Closed(plain)
    requires DirStored(v, store, plain, ids, p, dirID) && done == ReadDir(store, DirIdHash(v, dirID))
    ensures Over(base, plain, out, p)
  {
    hide SoundText, SoundSiv, SoundHashes, SoundSeal, DirIdHash, EncryptName, EntryName, Classify;
    var s := DirIdHash(v, dirID);
    forall q | Within(p, q) && q in plain && q != p
      ensures EntryOf(v, dirID, q[|p|]) in done
    {
      assert q[..|p| + 1] == p + [q[|p|]];
      AncestorsAreFolders(plain, p + [q[|p|]], q);
      ChildIsFound(v, store, plain, ids, p, dirID, q[|p|]);
      ReadDirIs(store, s, EntryOf(v, dirID, q[|p|]));
    }
  }

  /** Below a child not dealt with yet the output is as it was. */
  lemma NothingDoneYet(v: Vault, base: Tree, t: Tree, plain: Tree, p: Path, dirID: string, done: set<string>,
                       name: string)
    requires Sound(v) && OutSoFar(v, base, t, plain, p, dirID, done) && EntryOf(v, dirID, name) !in done
    ensures SameWithin(base, t, p + [name])
    ensures NoClash(base, plain, p) ==> NoClash(t, plain, p + [name])
  {
    hide SoundText, SoundSiv, SoundHashes, SoundSeal, EncryptName, EntryName, EntryOf;
    var c := p + [name];
    forall q | Within(c, q)
      ensures LeftAt(base, t, q) && Within(p, q)
    {
      assert q[|p|] == c[|p|] by { assert q[..|c|] == c; }
      WithinTransitive(p, c, q) by { ParentOfChild(p, name); }
    }
  }

  // ---------- any vault: nothing unauthentic gets through ----------

  /** The content at this path is in the format: all its frames are authentic. */
  ghost predicate InFormat(v: Vault, t: Tree, path: Path) {
    path in t && t[path].Regular? && Plaintext(v, t[path].data).Some?
  }

  /** In the directory with this id and in all that are reached from it no entry is broken and
      every content is in the format. `limit` bounds the depth. */
  ghost predicate Intact(v: Vault, t: Tree, dirID: string, depth: nat, limit: nat)
    requires Sound(v)
    decreases if depth > limit then 0 else limit + 1 - depth, 1
  {
    && depth <= limit && FolderAt(t, DirIdHash(v, dirID))
    && forall entry {:trigger EntryIntact(v, t, dirID, entry, depth, limit)} ::
         entry in ReadDir(t, DirIdHash(v, dirID)) ==> EntryIntact(v, t, dirID, entry, depth, limit)
  }

  ghost predicate EntryIntact(v: Vault, t: Tree, dirID: string, entry: string, depth: nat, limit: nat)
    requires Sound(v) && depth <= limit
    decreases limit + 1 - depth, 0
  {
    match Classify(v, t, DirIdHash(v, dirID), entry, dirID)
    case Skip => true
    case Broken => false
    case FileFound(_, path) => InFormat(v, t, path)
    case FolderFound(_, idPath) =>
      idPath in t && t[idPath].Regular? && Intact(v, t, v.lib.text(t[idPath].data), depth + 1, limit)
  }

  /** Unpacking this directory to `p`, some content reached has these bytes for the path `q`. */
  ghost predicate Gives(v: Vault, t: Tree, p: Path, dirID: string, q: Path, data: Bytes)
    requires Sound(v)
    decreases if |p| < |q| then |q| - |p| else 0, 1
  {
    |p| < |q| && exists entry :: entry in ReadDir(t, DirIdHash(v, dirID)) && EntryGives(v, t, p, dirID, entry, q, data)
  }

  ghost predicate EntryGives(v: Vault, t: Tree, p: Path, dirID: string, entry: string, q: Path, data: Bytes)
    requires Sound(v) && |p| < |q|
    decreases |q| - |p|, 0
  {
    match Classify(v, t, DirIdHash(v, dirID), entry, dirID)
    case Skip => false
    case Broken => false
    case FileFound(name, path) => q == p + [name] && Encrypts(v, t, path, data)
    case FolderFound(name, idPath) =>
      && idPath in t && t[idPath].Regular? && |p| + 1 < |q|
      && Gives(v, t, p + [name], v.lib.text(t[idPath].data), q, data)
  }

  /** The output has at `q` the bytes of such a content. */
  ghost predicate Held(v: Vault, t: Tree, p: Path, dirID: string, out: Tree, q: Path)
    requires Sound(v)
  {
    q in out && out[q].Regular? && Gives(v, t, p, dirID, q, out[q].data)
  }

  /** Nothing has gone from the output, and nothing has come to it but folders and such files. */
  ghost predicate Brought(v: Vault, t: Tree, p: Path, dirID: string, out: Tree, out': Tree)
    requires Sound(v)
  {
    forall q {:trigger q in out} {:trigger q in out'} ::
      && (q in out ==> q in out' && (out'[q] == out[q] || (out[q] != Folder && Held(v, t, p, dirID, out', q))))
      && (q in out' && q !in out ==> out'[q] == Folder || Held(v, t, p, dirID, out', q))
  }

  /** For every content the entries of `done` lead to, its output path holds such bytes. */
  ghost predicate DoneHeld(v: Vault, t: Tree, p: Path, dirID: string, out: Tree, done: set<string>)
    requires Sound(v)
  {
    forall entry, q, data {:trigger EntryGives(v, t, p, dirID, entry, q, data)} ::
      entry in done && |p| < |q| && EntryGives(v, t, p, dirID, entry, q, data) ==> Held(v, t, p, dirID, out, q)
  }

  ghost predicate AllHeld(v: Vault, t: Tree, p: Path, dirID: string, out: Tree)
    requires Sound(v)
  {
    forall q, data {:trigger Gives(v, t, p, dirID, q, data)} ::
      Gives(v, t, p, dirID, q, data) ==> Held(v, t, p, dirID, out, q)
  }

  /** All of that: what unpacking a directory with ok means, whatever the vault. */
  ghost predicate Unpacked(v: Vault, t: Tree, p: Path, dirID: string, limit: nat, out: Tree, out': Tree)
    requires Sound(v)
  {
    Intact(v, t, dirID, |p|, limit) && Brought(v, t, p, dirID, out, out') && AllHeld(v, t, p, dirID, out')
  }

  /** The state of the loop over the entries of one directory. */
  ghost predicate UnpackedSoFar(v: Vault, t: Tree, p: Path, dirID: string, limit: nat, out: Tree, out': Tree,
                                done: set<string>)
    requires Sound(v) && |p| <= limit
  {
    && FolderAt(out', p) && Brought(v, t, p, dirID, out, out') && DoneHeld(v, t, p, dirID, out', done)
    && forall entry {:trigger EntryIntact(v, t, dirID, entry, |p|, limit)} ::
         entry in done ==> EntryIntact(v, t, dirID, entry, |p|, limit)
  }

  /** What one entry adds. */
  ghost predicate EntryUnpacked(v: Vault, t: Tree, p: Path, dirID: string, limit: nat, out: Tree, out': Tree,
                                entry: string)
    requires Sound(v) && |p| <= limit
  {
    && Brought(v, t, p, dirID, out, out') && DoneHeld(v, t, p, dirID, out', {entry})
    && EntryIntact(v, t, dirID, entry, |p|, limit)
  }

  lemma BroughtOn(v: Vault, t: Tree, p: Path, dirID: string, a: Tree, b: Tree, c: Tree)
    requires Sound(v) && Brought(v, t, p, dirID, a, b) && Brought(v, t, p, dirID, b, c)
    ensures Brought(v, t, p, dirID, a, c)
  {
    hide SoundText, SoundSiv, SoundHashes, SoundSeal, Gives;
  }

  lemma StillHeld(v: Vault, t: Tree, p: Path, dirID: string, a: Tree, b: Tree, done: set<string>)
    requires Sound(v) && Brought(v, t, p, dirID, a, b) && DoneHeld(v, t, p, dirID, a, done)
    ensures DoneHeld(v, t, p, dirID, b, done)
  {
    hide SoundText, SoundSiv, SoundHashes, SoundSeal, Gives, EntryGives;
  }

  lemma UnpackingStarts(v: Vault, t: Tree, p: Path, dirID: string, limit: nat, out: Tree, out': Tree)
    requires Sound(v) && |p| <= limit && Closed(out) && MkdirAll(out, p) == Some(out')
    ensures UnpackedSoFar(v, t, p, dirID, limit, out, out', {})
  {
    hide SoundText, SoundSiv, SoundHashes, SoundSeal, Gives, EntryGives;
    MkdirAllKeepsClosed(out, p);
  }

  lemma UnpackingGoesOn(v: Vault, t: Tree, p: Path, dirID: string, limit: nat, a: Tree, b: Tree, c: Tree,
                        done: set<string>, entry: string)
    requires Sound(v) && |p| <= limit && UnpackedSoFar(v, t, p, dirID, limit, a, b, done)
    requires EntryUnpacked(v, t, p, dirID, limit, b, c, entry)
    ensures UnpackedSoFar(v, t, p, dirID, limit, a, c, done + {entry})
  {
    BroughtOn(v, t, p, dirID, a, b, c);
    StillHeld(v, t, p, dirID, b, c, done);
    hide SoundText, SoundSiv, SoundHashes, SoundSeal, Gives, EntryGives, Held, EntryIntact;
  }

  lemma PlaceIsThere(v: Vault, t: Tree, p: Path, dirID: string, limit: nat, out: Tree, out': Tree, done: set<string>)
    requires Sound(v) && |p| <= limit && UnpackedSoFar(v, t, p, dirID, limit, out, out', done)
    ensures FolderAt(out', p)
  {
  }

  lemma AllIntact(v: Vault, t: Tree, dirID: string, depth: nat, limit: nat)
    requires Sound(v) && depth <= limit && FolderAt(t, DirIdHash(v, dirID))
    requires forall entry {:trigger EntryIntact(v, t, dirID, entry, depth, limit)} ::
               entry in ReadDir(t, DirIdHash(v, dirID)) ==> EntryIntact(v, t, dirID, entry, depth, limit)
    ensures Intact(v, t, dirID, depth, limit)
  {
    hide SoundText, SoundSiv, SoundHashes, SoundSeal, DirIdHash, ReadDir, Classify;
  }

  lemma UnpackingEnds(v: Vault, t: Tree, p: Path, dirID: string, limit: nat, out: Tree, out': Tree)
    requires Sound(v) && |p| <= limit && FolderAt(t, DirIdHash(v, dirID))
    requires UnpackedSoFar(v, t, p, dirID, limit, out, out', ReadDir(t, DirIdHash(v, dirID)))
    ensures Unpacked(v, t, p, dirID, limit, out, out')
  {
    hide SoundText, SoundSiv, SoundHashes, SoundSeal, EntryGives, Held, EntryIntact, Brought, DirIdHash;
    AllIntact(v, t, dirID, |p|, limit);
    forall q, data | Gives(v, t, p, dirID, q, data)
      ensures Held(v, t, p, dirID, out', q)
    {
      var entry :| entry in ReadDir(t, DirIdHash(v, dirID)) && EntryGives(v, t, p, dirID, entry, q, data);
    }
  }

  /** The id file, and names without one of the two suffixes. */
  lemma SkippedIsUnpacked(v: Vault, t: Tree, p: Path, dirID: string, limit: nat, out: Tree, entry: string)
    requires Sound(v) && |p| <= limit && Classify(v, t, DirIdHash(v, dirID), entry, dirID) == Skip
    ensures EntryUnpacked(v, t, p, dirID, limit, out, out, entry)
  {
    hide SoundText, SoundSiv, SoundHashes, SoundSeal, Gives, Classify, DirIdHash;
  }

  lemma FileIsUnpacked(v: Vault, t: Tree, p: Path, dirID: string, limit: nat, out: Tree, out': Tree, entry: string,
                       name: string, path: Path)
    requires Sound(v) && |p| <= limit && entry in ReadDir(t, DirIdHash(v, dirID)) && Closed(out)
    requires Classify(v, t, DirIdHash(v, dirID), entry, dirID) == FileFound(name, path)
    requires InFormat(v, t, path) && FileAt(out', p + [name], Plaintext(v, t[path].data).value)
    requires SameExcept(out, out', p + [name]) && !FolderAt(out, p + [name])
    requires forall q :: q in out' && Within(p + [name], q) ==> q == p + [name]
    ensures EntryUnpacked(v, t, p, dirID, limit, out, out', entry)
  {
    hide SoundText, SoundSiv, SoundHashes, SoundSeal, Classify, DirIdHash, Plaintext, ReadDir;
    var c, data := p + [name], Plaintext(v, t[path].data).value;
    assert EntryGives(v, t, p, dirID, entry, c, data);
    assert Gives(v, t, p, dirID, c, data);
    forall q
      ensures q in out ==> q in out' && (out'[q] == out[q] || (out[q] != Folder && Held(v, t, p, dirID, out', q)))
      ensures q in out' && q !in out ==> out'[q] == Folder || Held(v, t, p, dirID, out', q)
    {
      if Within(c, q) && q != c && q in out { AncestorsAreFolders(out, c, q); }
      assert q == c ==> Held(v, t, p, dirID, out', q);
    }
    hide Gives;
  }

  lemma FolderIsUnpacked(v: Vault, t: Tree, p: Path, dirID: string, limit: nat, out: Tree, out': Tree, entry: string,
                         name: string, idPath: Path)
    requires Sound(v) && |p| <= limit && entry in ReadDir(t, DirIdHash(v, dirID))
    requires Classify(v, t, DirIdHash(v, dirID), entry, dirID) == FolderFound(name, idPath)
    requires idPath in t && t[idPath].Regular?
    requires Unpacked(v, t, p + [name], v.lib.text(t[idPath].data), limit, out, out')
    ensures EntryUnpacked(v, t, p, dirID, limit, out, out', entry)
  {
    hide SoundText, SoundSiv, SoundHashes, SoundSeal, Classify, DirIdHash, ReadDir;
    var c, id := p + [name], v.lib.text(t[idPath].data);
    forall q, data | Gives(v, t, c, id, q, data)
      ensures |p| < |q| && Gives(v, t, p, dirID, q, data)
    {
      assert EntryGives(v, t, p, dirID, entry, q, data);
    }
    hide Intact;
    forall q, data | |p| < |q| && EntryGives(v, t, p, dirID, entry, q, data)
      ensures Held(v, t, p, dirID, out', q)
    {
      assert Gives(v, t, c, id, q, data);
      assert Held(v, t, c, id, out', q);
    }
    hide Gives, EntryGives;
  }

  /** The folder above is there. */
  ghost predicate HasPlace(t: Tree, p: Path) {
    p == [] || FolderAt(t, Parent(p))
  }

  ghost predicate RepOk(v: Vault, store: Tree, out: Tree, rep: Option<Rep>, outDir: Path, dirID: string)
    requires Sound(v)
  {
    rep.Some? ==>
      && Represents(v, store, rep.value.plain, rep.value.ids)
      && outDir in rep.value.ids && rep.value.ids[outDir] == dirID && HasPlace(out, outDir)
  }

  ghost predicate Shallow(plain: Tree, p: Path, limit: nat) {
    forall q {:trigger q in plain} :: q in plain && Within(p, q) ==> |q| <= limit
  }

  /** decryptFile. It succeeds only for a content in the format, and then the output file has what
      that holds; a file that cannot be decrypted may be left incomplete. */
  method DecryptFile(v: Vault, io: Store, out: Store, inPath: Path, outPath: Path, ghost plain: Option<Bytes>)
      returns (ok: bool)
    requires Sound(v) && Closed(out.tree) && outPath != [] && io != out
    requires plain.Some? ==> Encrypts(v, io.tree, inPath, plain.value) && FolderAt(out.tree, Parent(outPath))
    modifies out
    ensures Closed(out.tree)
    ensures plain.Some? ==> SameExcept(old(out.tree), out.tree, outPath)
    ensures plain.Some? && ok ==>
              FileAt(out.tree, outPath, plain.value) && !FolderAt(old(out.tree), outPath)
              && forall q :: q in out.tree && Within(outPath, q) ==> q == outPath
    ensures plain.Some? && !FolderAt(old(out.tree), outPath) && io.reliable && out.reliable ==> ok
    ensures ok ==> InFormat(v, io.tree, inPath) && FileAt(out.tree, outPath, Plaintext(v, io.tree[inPath].data).value)
    ensures FolderAt(old(out.tree), Parent(outPath)) ==> SameExcept(old(out.tree), out.tree, outPath)
    ensures FolderAt(old(out.tree), Parent(outPath)) && ok ==>
              && !FolderAt(old(out.tree), outPath)
              && forall q :: q in out.tree && Within(outPath, q) ==> q == outPath
  {
    hide SoundText, SoundSiv, SoundHashes, SoundSeal, Plaintext, Closed;
    var data := io.ReadFile(inPath);
    if data == None { return false; }
    var dst := new Writer();
    var src := new Reader(data.value, true);
    assert src.Rest() == data.value;
    var fine := DecryptContent(v, dst, src);
    ok := out.WriteFile(outPath, dst.data);
    assert plain.Some? ==> dst.data == [] + plain.value == plain.value;
    assert fine ==> dst.data == [] + Plaintext(v, data.value).value == Plaintext(v, data.value).value;
    ok := ok && fine;
  }

  /** decryptDir. `limit` is how deep a path the file system of the output can hold; it is what
      stops the recursion on a vault whose directory ids run in circles. From a store that
      represents a plain tree it puts that tree over what the output has, which goes through
      exactly when no file meets a folder, provided the tree is not too deep. */
  method DecryptDir(v: Vault, io: Store, out: Store, outDir: Path, dirID: string, limit: nat, ghost rep: Option<Rep>)
      returns (ok: bool)
    requires Sound(v) && Closed(out.tree) && io != out
    requires RepOk(v, io.tree, out.tree, rep, outDir, dirID)
    modifies out
    ensures Closed(out.tree)
    ensures rep.Some? ==> SameExcept(old(out.tree), out.tree, outDir)
    ensures rep.Some? && ok ==> Over(old(out.tree), rep.value.plain, out.tree, outDir)
    ensures ok ==> Unpacked(v, io.tree, outDir, dirID, limit, old(out.tree), out.tree)
    ensures (rep.Some? && Shallow(rep.value.plain, outDir, limit) && io.reliable && out.reliable
             && NoClash(old(out.tree), rep.value.plain, outDir)) ==> ok
    decreases if |outDir| > limit then 0 else limit + 1 - |outDir|, 1
  {
    hide SoundText, SoundSiv, SoundHashes, SoundSeal, DirIdHash, EntryName, EncryptName, DecryptName, Classify,
         Closed, DirStored, Represents, OutSoFar, Shallow, HasPlace, ReadDir, SameExcept, SameWithin, RepOk, Over,
         NoClash, Unpacked, UnpackedSoFar, EntryUnpacked;
    if |outDir| > limit {
      if rep.Some? { TooDeep(v, io.tree, out.tree, rep.value, outDir, dirID, limit); }
      return false;
    }
    ghost var t0 := out.tree;
    ok := out.MakeDir(outDir);
    if rep.Some? { DirIsMade(v, io.tree, t0, out.tree, rep.value, outDir, dirID); }
    if !ok { return; }
    UnpackingStarts(v, io.tree, outDir, dirID, limit, t0, out.tree);
    var s := DirIdHash(v, dirID);
    var names := io.ListDir(s);
    if names == None { return false; }
    var rest := names.value;
    ghost var done: set<string> := {};
    while rest != {}
      invariant Closed(out.tree) && done !! rest && done + rest == names.value
      invariant UnpackedSoFar(v, io.tree, outDir, dirID, limit, t0, out.tree, done)
      invariant rep.Some? ==>
                  && OutSoFar(v, t0, out.tree, rep.value.plain, outDir, dirID, done)
                  && SameExcept(t0, out.tree, outDir)
      decreases |rest|
    {
      var entry :| entry in rest;
      rest := rest - {entry};
      ghost var t := out.tree;
      ghost var name;
      PlaceIsThere(v, io.tree, outDir, dirID, limit, t0, t, done);
      ok, name := DecryptEntry(v, io, out, s, entry, outDir, dirID, limit, rep, t0, done);
      if rep.Some? { EntryOut(v, t0, t, out.tree, rep.value.plain, outDir, dirID, done, entry, name, ok); }
      if !ok { return; }
      UnpackingGoesOn(v, io.tree, outDir, dirID, limit, t0, t, out.tree, done, entry);
      done := done + {entry};
    }
    assert done == names.value;
    UnpackingEnds(v, io.tree, outDir, dirID, limit, t0, out.tree);
    if rep.Some? {
      AllOut(v, io.tree, t0, out.tree, rep.value.plain, rep.value.ids, outDir, dirID, done);
    }
    ok := true;
  }

  /** One entry of decryptDir's loop. */
  method DecryptEntry(v: Vault, io: Store, out: Store, s: Path, entry: string, outDir: Path, dirID: string, limit: nat,
                      ghost rep: Option<Rep>, ghost base: Tree, ghost done: set<string>)
      returns (ok: bool, ghost name: Option<string>)
    requires Sound(v) && Closed(out.tree) && io != out && s == DirIdHash(v, dirID) && |outDir| <= limit
    requires entry in ReadDir(io.tree, s) && FolderAt(out.tree, outDir)
    requires rep.Some? ==> Represents(v, io.tree, rep.value.plain, rep.value.ids) && outDir in rep.value.ids
    requires rep.Some? ==> rep.value.ids[outDir] == dirID && entry !in done
    requires rep.Some? ==> OutSoFar(v, base, out.tree, rep.value.plain, outDir, dirID, done)
    modifies out
    ensures Closed(out.tree)
    ensures rep.Some? ==> if name.None? then out.tree == old(out.tree) && (ok ==> entry == DIR_ID_FILE)
                          else && entry == EntryOf(v, dirID, name.value)
                               && SameExcept(old(out.tree), out.tree, outDir + [name.value])
    ensures rep.Some? && ok && name.Some? ==> Over(old(out.tree), rep.value.plain, out.tree, outDir + [name.value])
    ensures ok ==> EntryUnpacked(v, io.tree, outDir, dirID, limit, old(out.tree), out.tree, entry)
    ensures (rep.Some? && Shallow(rep.value.plain, outDir, limit) && io.reliable && out.reliable
             && NoClash(base, rep.value.plain, outDir)) ==> ok
    decreases if |outDir| > limit then 0 else limit + 1 - |outDir|, 0
  {
    hide SoundText, SoundSiv, SoundHashes, SoundSeal, DirIdHash, EntryName, EncryptName, DecryptName, Closed,
         DirStored, Represents, OutSoFar, Shallow, HasPlace, ReadDir, SameExcept, SameWithin, Over, NoClash,
         HasSuffix, Unpacked, EntryUnpacked, InFormat, Plaintext;
    ok, name := true, None;
    if rep.Some? { name := EntryIsChild(v, io.tree, base, out.tree, rep.value, outDir, dirID, entry, done, limit); }
    var found: Found := Skip;
    var e := s + [entry];
    if entry == DIR_ID_FILE {
    } else if HasSuffix(entry, C9S) && e in io.tree && io.tree[e] == Folder {
      var full := io.ReadFile(e + [NAME_FILE]);
      if full == None { return false, name; }
      found := Broken;
      var long := DecryptName(v, v.lib.text(full.value), dirID);
      if long.Some? && e + [DIR_FILE] in io.tree {
        found := FolderFound(long.value, e + [DIR_FILE]);
      } else if long.Some? && e + [CONTENTS_FILE] in io.tree {
        found := FileFound(long.value, e + [CONTENTS_FILE]);
      }
    } else if HasSuffix(entry, C9R) {
      var short := DecryptName(v, entry, dirID);
      found := if short == None then Broken
               else if e in io.tree && io.tree[e] == Folder then FolderFound(short.value, e + [DIR_FILE])
               else FileFound(short.value, e);
    }
    assert found == Classify(v, io.tree, s, entry, dirID);
    hide Classify;
    ghost var t := out.tree;
    match found
    case Skip => SkippedIsUnpacked(v, io.tree, outDir, dirID, limit, t, entry);
    case Broken => ok := false;
    case FileFound(plainName, path) =>
      ghost var plain := if rep.Some? then Some(ContentOf(rep.value.plain, outDir + [plainName])) else None;
      ParentOfChild(outDir, plainName);
      if rep.Some? { FileMeetsNoFolder(t, rep.value.plain, outDir + [plainName]); }
      ok := DecryptFile(v, io, out, path, outDir + [plainName], plain);
      if ok { FileIsUnpacked(v, io.tree, outDir, dirID, limit, t, out.tree, entry, plainName, path); }
      if rep.Some? && ok {
        PlainIsClosed(v, io.tree, rep.value);
        FileIsOut(t, rep.value.plain, out.tree, outDir + [plainName]);
      }
    case FolderFound(plainName, idPath) =>
      var id := io.ReadFile(idPath);
      if id == None { return false, name; }
      if rep.Some? { TextRoundTrip(v, IdOf(rep.value.ids, outDir + [plainName])); }
      ok := DecryptDir(v, io, out, outDir + [plainName], v.lib.text(id.value), limit, rep);
      if ok { FolderIsUnpacked(v, io.tree, outDir, dirID, limit, t, out.tree, entry, plainName, idPath); }
  }

  function ContentOf(t: Tree, p: Path): Bytes {
    if p in t && t[p].Regular? then t[p].data else []
  }

  lemma DirIsMade(v: Vault, store: Tree, t0: Tree, t: Tree, rep: Rep, p: Path, dirID: string)
    requires Sound(v) && Closed(t0) && RepOk(v, store, t0, Some(rep), p, dirID)
    ensures Represents(v, store, rep.plain, rep.ids) && p in rep.ids && rep.ids[p] == dirID
    ensures DirStored(v, store, rep.plain, rep.ids, p, dirID) && Closed(rep.plain)
    ensures FolderAt(store, DirIdHash(v, dirID))
    ensures SameExcept(t0, t0, p)
    ensures NoClash(t0, rep.plain, p) ==> MkdirAll(t0, p).Some?
    ensures MkdirAll(t0, p) == Some(t) ==> SameExcept(t0, t, p) && OutSoFar(v, t0, t, rep.plain, p, dirID, {})
  {
    hide SoundText, SoundSiv, SoundHashes, SoundSeal, Represents, HasPlace, Closed, DirIdHash, DirStored, OutSoFar;
    PlaceIsMade(t0, p);
    RepHasDir(v, store, rep, p);
    assert Within(p, p);
    if MkdirAll(t0, p) == Some(t) { OutStarts(v, t0, t, rep.plain, p, dirID); }
  }

  lemma TooDeep(v: Vault, store: Tree, t: Tree, rep: Rep, p: Path, dirID: string, limit: nat)
    requires Sound(v) && RepOk(v, store, t, Some(rep), p, dirID) && |p| > limit
    ensures SameExcept(t, t, p) && !Shallow(rep.plain, p, limit)
  {
    assert p in rep.plain && Within(p, p);
  }

  lemma RepHasDir(v: Vault, store: Tree, rep: Rep, p: Path)
    requires Sound(v) && Represents(v, store, rep.plain, rep.ids) && p in rep.ids
    ensures DirStored(v, store, rep.plain, rep.ids, p, rep.ids[p]) && FolderAt(rep.plain, p) && Closed(rep.plain)
    ensures FolderAt(store, DirIdHash(v, rep.ids[p]))
  {
  }

  lemma PlainIsClosed(v: Vault, store: Tree, rep: Rep)
    requires Sound(v) && Represents(v, store, rep.plain, rep.ids)
    ensures Closed(rep.plain)
  {
  }

  lemma {:induction false} PlaceIsMade(t: Tree, p: Path)
    requires Closed(t) && HasPlace(t, p)
    ensures MkdirAll(t, p) == if p in t && t[p] != Folder then None else Some(t[p := Folder])
    ensures SameExcept(t, t[p := Folder], p) && SameExcept(t, t, p)
  {
    assert Within(p, p);
    assert p == [] ==> p in t;
    hide Closed;
    if p in t {
      if t[p] == Folder { assert t[p := Folder] == t; }
    } else {
      assert MkdirAll(t, Parent(p)) == Some(t);
    }
  }

  lemma OutStarts(v: Vault, t0: Tree, t: Tree, plain: Tree, p: Path, dirID: string)
    requires Sound(v) && t == t0[p := Folder] && (p in t0 ==> t0[p] == Folder) && FolderAt(plain, p)
    ensures OutSoFar(v, t0, t, plain, p, dirID, {})
  {
    hide SoundText, SoundSiv, SoundHashes, SoundSeal, EncryptName, EntryName, EntryOf;
    var none: set<string> := {};
    forall q | Within(p, q)
      ensures if q in plain && (q == p || EntryOf(v, dirID, q[|p|]) in none) then PutAt(t0, plain, t, q)
                else LeftAt(t0, t, q)
    {
    }
  }

  lemma EntryOut(v: Vault, t0: Tree, t: Tree, u: Tree, plain: Tree, p: Path, dirID: string, done: set<string>,
                 entry: string, name: Option<string>, ok: bool)
    requires Sound(v) && OutSoFar(v, t0, t, plain, p, dirID, done) && SameExcept(t0, t, p) && entry !in done
    requires if name.None? then u == t && (ok ==> entry == DIR_ID_FILE)
             else entry == EntryOf(v, dirID, name.value) && SameExcept(t, u, p + [name.value])
    requires ok && name.Some? ==> Over(t, plain, u, p + [name.value])
    ensures SameExcept(t0, u, p) && (ok ==> OutSoFar(v, t0, u, plain, p, dirID, done + {entry}))
  {
    hide SoundText, SoundSiv, SoundHashes, SoundSeal, EncryptName, EntryName, OutSoFar, Over;
    if name.None? {
      SkippedOut(v, t0, t, plain, p, dirID, done);
    } else {
      ParentOfChild(p, name.value);
      forall q | !Within(p, q)
        ensures !Within(p + [name.value], q)
      {
        if Within(p + [name.value], q) { WithinTransitive(p, p + [name.value], q); }
      }
      if ok { OneMoreOut(v, t0, t, u, plain, p, dirID, done, name.value); }
    }
  }

  /** An entry of the store is the id file or stands for a child, below which the output is still
      as it was. */
  lemma EntryIsChild(v: Vault, store: Tree, base: Tree, out: Tree, rep: Rep, p: Path, dirID: string, entry: string,
                     done: set<string>, limit: nat)
      returns (name: Option<string>)
    requires Sound(v) && Represents(v, store, rep.plain, rep.ids) && p in rep.ids && rep.ids[p] == dirID
    requires entry in ReadDir(store, DirIdHash(v, dirID)) && entry !in done
    requires OutSoFar(v, base, out, rep.plain, p, dirID, done)
    ensures FolderAt(out, p) && (name.Some? ==> SameExcept(out, out, p + [name.value]))
    ensures name.None? ==> entry == DIR_ID_FILE && Classify(v, store, DirIdHash(v, dirID), entry, dirID) == Skip
    ensures name.Some? ==>
      && entry == EntryOf(v, dirID, name.value) && p + [name.value] in rep.plain
      && HasPlace(out, p + [name.value]) && (NoClash(base, rep.plain, p) ==> NoClash(out, rep.plain, p + [name.value]))
      && var found := Classify(v, store, DirIdHash(v, dirID), entry, dirID);
         match rep.plain[p + [name.value]]
         case Folder => found.FolderFound? && found.name == name.value && p + [name.value] in rep.ids
                        && FileAt(store, found.idPath, v.lib.bytes(rep.ids[p + [name.value]]))
                        && (Shallow(rep.plain, p, limit) ==> Shallow(rep.plain, p + [name.value], limit))
         case Regular(data) => found.FileFound? && found.name == name.value && Encrypts(v, store, found.path, data)
  {
    hide SoundText, SoundSiv, SoundHashes, SoundSeal, DirIdHash, EntryName, EncryptName, DecryptName,
         HasSuffix, ChildStored, OutSoFar, Plaintext, NoClash;
    var s := DirIdHash(v, dirID);
    ReadDirIs(store, s, entry);
    RepHasDir(v, store, rep, p);
    FolderIsOut(v, base, out, rep.plain, p, dirID, done);
    if entry == DIR_ID_FILE { return None; }
    var n :| p + [n] in rep.plain && entry == EntryOf(v, dirID, n);
    name := Some(n);
    assert ChildStored(v, store, rep.plain, rep.ids, p, dirID, n);
    ChildIsFound(v, store, rep.plain, rep.ids, p, dirID, n);
    NothingDoneYet(v, base, out, rep.plain, p, dirID, done, n);
    ParentOfChild(p, n);
    forall q | Within(p + [n], q) ensures Within(p, q) { WithinTransitive(p, p + [n], q); }
    hide Classify;
  }

  lemma FolderIsOut(v: Vault, base: Tree, out: Tree, plain: Tree, p: Path, dirID: string, done: set<string>)
    requires Sound(v) && OutSoFar(v, base, out, plain, p, dirID, done) && FolderAt(plain, p)
    ensures FolderAt(out, p)
  {
    assert Within(p, p);
  }

  lemma FileMeetsNoFolder(t: Tree, plain: Tree, p: Path)
    requires p in plain && plain[p].Regular?
    ensures NoClash(t, plain, p) ==> !FolderAt(t, p)
  {
    assert Within(p, p);
  }

  lemma FileIsOut(t: Tree, plain: Tree, out: Tree, p: Path)
    requires Closed(t) && Closed(plain) && p in plain && plain[p].Regular? && FileAt(out, p, plain[p].data)
    requires !FolderAt(t, p)
    requires forall q :: q in out && Within(p, q) ==> q == p
    ensures Over(t, plain, out, p)
  {
    forall q | Within(p, q) && q != p
      ensures q !in plain && q !in t && q !in out
    {
      if q in plain { NothingBelowFile(plain, p, q); }
      if q in t { AncestorsAreFolders(t, p, q); }
    }
  }

  // ---------- DecryptTree ----------

  /** DecryptTree puts the tree over what the output folder holds, and goes through exactly when
      no file meets a folder. */
  method DecryptTree(v: Vault, io: Store, out: Store, limit: nat, ghost rep: Option<Rep>) returns (ok: bool)
    requires Sound(v) && Closed(out.tree) && io != out
    requires rep.Some? ==> Represents(v, io.tree, rep.value.plain, rep.value.ids)
    modifies out
    ensures Closed(out.tree)
    ensures ok ==> Unpacked(v, io.tree, [], "", limit, old(out.tree), out.tree)
    ensures rep.Some? && ok ==> Over(old(out.tree), rep.value.plain, out.tree, [])
    ensures rep.Some? && ok && old(out.tree).Keys == {[]} ==> out.tree == rep.value.plain
    ensures rep.Some? && Shallow(rep.value.plain, [], limit) && io.reliable && out.reliable ==>
              (ok <==> NoClash(old(out.tree), rep.value.plain, []))
  {
    if rep.Some? { RootHasPlace(v, io.tree, out.tree, rep.value); }
    hide SoundText, SoundSiv, SoundHashes, SoundSeal, Represents, Closed, Shallow, Over, NoClash, Unpacked;
    ghost var t := out.tree;
    ok := DecryptDir(v, io, out, [], "", limit, rep);
    if rep.Some? && ok { OverIsNoClash(t, rep.value.plain, out.tree, []); }
    if rep.Some? && t.Keys == {[]} { OverNothing(t, rep.value.plain, out.tree); }
  }

  lemma RootHasPlace(v: Vault, store: Tree, out: Tree, rep: Rep)
    requires Sound(v) && Represents(v, store, rep.plain, rep.ids) && Closed(out)
    ensures RepOk(v, store, out, Some(rep), [], "") && [] in rep.plain && rep.plain[[]] == Folder && [] in out
    ensures out[[]] == Folder
  {
  }

  // ---------- a damaged vault ----------

  /** Other bytes in a content change nothing about what any entry is taken for. */
  lemma ContentIsNoName(v: Vault, t: Tree, f: Path, x: Bytes, s: Path, entry: string, dirID: string)
    requires Sound(v) && f in t && t[f].Regular? && f != s + [entry] + [NAME_FILE]
    ensures Classify(v, t[f := Regular(x)], s, entry, dirID) == Classify(v, t, s, entry, dirID)
    ensures ReadDir(t[f := Regular(x)], s) == ReadDir(t, s)
  {
    hide SoundText, SoundSiv, SoundHashes, SoundSeal, DecryptName, HasSuffix;
  }

  /** Where the content of a represented file is, as its entry is recognised. */
  ghost function ContentPath(v: Vault, t: Tree, dirID: string, name: string): Path
    requires Sound(v)
  {
    var found := Classify(v, t, DirIdHash(v, dirID), EntryOf(v, dirID, name), dirID);
    if found.FileFound? then found.path else []
  }

  lemma ContentIsThere(v: Vault, t: Tree, plain: Tree, ids: Ids, p: Path, name: string)
    requires Sound(v) && Represents(v, t, plain, ids) && p in ids && p + [name] in plain && plain[p + [name]].Regular?
    ensures var f := ContentPath(v, t, ids[p], name);
            && f in t && t[f].Regular? && EntryOf(v, ids[p], name) in ReadDir(t, DirIdHash(v, ids[p]))
            && Classify(v, t, DirIdHash(v, ids[p]), EntryOf(v, ids[p], name), ids[p]) == FileFound(name, f)
            && forall s: Path, entry: string {:trigger s + [entry]} :: |s| == 3 ==>
                 f != s + [entry] + [NAME_FILE] && f != s + [entry] + [DIR_FILE]
  {
    var d := ids[p];
    var s, entry := DirIdHash(v, d), EntryOf(v, d, name);
    RepHasDir(v, t, Rep(plain, ids), p);
    assert ChildStored(v, t, plain, ids, p, d, name);
    ChildIsFound(v, t, plain, ids, p, d, name);
    ReadDirIs(t, s, entry);
    hide SoundText, SoundSiv, SoundHashes, SoundSeal, DirIdHash, EncryptName, EntryName, EntryOf, DecryptName,
         HasSuffix, Plaintext, Represents, DirStored, ChildStored;
    var f := ContentPath(v, t, d, name);
    assert f == s + [entry] || f == s + [entry] + [CONTENTS_FILE];
    forall s2: Path, entry2: string {:trigger s2 + [entry2]} | |s2| == 3
      ensures f != s2 + [entry2] + [NAME_FILE] && f != s2 + [entry2] + [DIR_FILE]
    {
      LastDiffers(s, entry, s2, entry2);
    }
  }

  lemma LastDiffers(s: Path, entry: string, s2: Path, entry2: string)
    requires |s| == 3 && |s2| == 3
    ensures s + [entry] != s2 + [entry2] + [NAME_FILE] && s + [entry] != s2 + [entry2] + [DIR_FILE]
    ensures s + [entry] + [CONTENTS_FILE] != s2 + [entry2] + [NAME_FILE]
    ensures s + [entry] + [CONTENTS_FILE] != s2 + [entry2] + [DIR_FILE]
  {
    assert (s + [entry] + [CONTENTS_FILE])[4] == CONTENTS_FILE;
    assert (s2 + [entry2] + [NAME_FILE])[4] == NAME_FILE && (s2 + [entry2] + [DIR_FILE])[4] == DIR_FILE;
    assert CONTENTS_FILE[0] == 'c' && NAME_FILE[0] == 'n' && DIR_FILE[0] == 'd';
  }

  /** An intact vault is intact in every folder, also with other bytes in one content. */
  lemma {:induction false} IntactReaches(v: Vault, t: Tree, plain: Tree, ids: Ids, f: Path, x: Bytes, q: Path,
                                         limit: nat)
    requires Sound(v) && Represents(v, t, plain, ids) && q in ids && f in t && t[f].Regular?
    requires forall s: Path, entry: string {:trigger s + [entry]} :: |s| == 3 ==>
               f != s + [entry] + [NAME_FILE] && f != s + [entry] + [DIR_FILE]
    requires Intact(v, t[f := Regular(x)], "", 0, limit)
    ensures Intact(v, t[f := Regular(x)], ids[q], |q|, limit)
    decreases |q|
  {
    if q == [] {
      RootId(v, t, plain, ids);
    } else {
      FolderHasParent(v, t, plain, ids, q);
      IntactReaches(v, t, plain, ids, f, x, Parent(q), limit);
      IntactBelow(v, t, plain, ids, f, x, Parent(q), Base(q), limit) by { RejoinParent(q); }
      RejoinParent(q);
    }
  }

  lemma RootId(v: Vault, t: Tree, plain: Tree, ids: Ids)
    requires Sound(v) && Represents(v, t, plain, ids)
    ensures [] in ids && ids[[]] == ""
  {
  }

  lemma FolderHasParent(v: Vault, t: Tree, plain: Tree, ids: Ids, q: Path)
    requires Sound(v) && Represents(v, t, plain, ids) && q in ids && q != []
    ensures Parent(q) in ids && q in plain && plain[q] == Folder
  {
  }

  lemma IntactBelow(v: Vault, t: Tree, plain: Tree, ids: Ids, f: Path, x: Bytes, p: Path, name: string, limit: nat)
    requires Sound(v) && Represents(v, t, plain, ids) && p in ids && p + [name] in ids && f in t && t[f].Regular?
    requires p + [name] in plain && plain[p + [name]] == Folder
    requires forall s: Path, entry: string {:trigger s + [entry]} :: |s| == 3 ==>
               f != s + [entry] + [NAME_FILE] && f != s + [entry] + [DIR_FILE]
    requires Intact(v, t[f := Regular(x)], ids[p], |p|, limit)
    ensures Intact(v, t[f := Regular(x)], ids[p + [name]], |p| + 1, limit)
  {
    var d, u := ids[p], t[f := Regular(x)];
    var s, entry := DirIdHash(v, d), EntryOf(v, d, name);
    RepHasDir(v, t, Rep(plain, ids), p);
    assert ChildStored(v, t, plain, ids, p, d, name);
    ChildIsFound(v, t, plain, ids, p, d, name);
    ReadDirIs(t, s, entry);
    TextRoundTrip(v, ids[p + [name]]);
    ContentIsNoName(v, t, f, x, s, entry, d);
    FoundIdPath(v, t, s, entry, d);
    hide SoundText, SoundSiv, SoundHashes, SoundSeal, DirIdHash, EncryptName, EntryName, EntryOf, Plaintext, Represents,
         DirStored, ChildStored, Classify, ReadDir;
    assert EntryIntact(v, u, d, entry, |p|, limit);
  }

  lemma FoundIdPath(v: Vault, t: Tree, s: Path, entry: string, dirID: string)
    requires Sound(v)
    ensures var found := Classify(v, t, s, entry, dirID);
            found.FolderFound? ==> found.idPath == s + [entry] + [DIR_FILE]
  {
    hide SoundText, SoundSiv, SoundHashes, SoundSeal, DecryptName, HasSuffix;
  }

  /** A vault that represents a tree, but for one content that is not in the format any more, is not
      intact; so no attempt to unpack it goes through. */
  lemma DamagedIsNotIntact(v: Vault, t: Tree, plain: Tree, ids: Ids, p: Path, name: string, x: Bytes, limit: nat)
    requires Sound(v) && Represents(v, t, plain, ids) && p in ids && p + [name] in plain && plain[p + [name]].Regular?
    requires Plaintext(v, x) == None
    ensures var f := ContentPath(v, t, ids[p], name);
            f in t && t[f].Regular? && !Intact(v, t[f := Regular(x)], "", 0, limit)
  {
    ContentIsThere(v, t, plain, ids, p, name);
    var d := ids[p];
    var s, entry, f := DirIdHash(v, d), EntryOf(v, d, name), ContentPath(v, t, ids[p], name);
    hide SoundText, SoundSiv, SoundHashes, SoundSeal, DirIdHash, EncryptName, EntryName, EntryOf, Plaintext, Represents,
         DirStored, ChildStored, Classify, ReadDir, ContentPath;
    if Intact(v, t[f := Regular(x)], "", 0, limit) {
      IntactReaches(v, t, plain, ids, f, x, p, limit);
      ContentIsNoName(v, t, f, x, s, entry, d);
      IntactEntry(v, t[f := Regular(x)], d, entry, |p|, limit);
    }
  }

  lemma IntactEntry(v: Vault, t: Tree, dirID: string, entry: string, depth: nat, limit: nat)
    requires Sound(v) && Intact(v, t, dirID, depth, limit) && entry in ReadDir(t, DirIdHash(v, dirID))
    ensures depth <= limit && EntryIntact(v, t, dirID, entry, depth, limit)
  {
  }
}
