/** controller.go: the desktop client's on-demand content cache. */
module ContentCache {
  import opened FileSystem
  import opened SyncTypes

  const INT64_MAX := 0x7FFF_FFFF_FFFF_FFFF
  const PAGE_LIMIT := 500

  /** A row of the local-copy table. */
  datatype Copy = Copy(pinned: bool, version: int, path: Path)

  type Copies = map<NodeID, Copy>

  /** One answer to a request for changes. */
  datatype Page = Page(since: int, changes: seq<Change>, next: int, hasMore: bool)

  /** There is more, and the cursor has risen. */
  predicate GoesOn(page: Page) {
    page.hasMore && page.next > page.since
  }

  /** The server's contents: every version of every node, and which one is current. It can move
      on between any two calls, and a download can break off. */
  class ContentServer {
    const bytesOf: (NodeID, int) -> Bytes
    /** A calm server answers every request. */
    const calm: bool
    var current: map<NodeID, int>
    /** The answers it has given to requests for changes. */
    ghost var handed: seq<Page>

    constructor (bytesOf: (NodeID, int) -> Bytes, calm: bool, current: map<NodeID, int>)
      ensures this.bytesOf == bytesOf && this.calm == calm && this.current == current && handed == []
    {
      this.bytesOf, this.calm, this.current := bytesOf, calm, current;
      handed := [];
    }

    /** Whatever the server likes to answer, within 64 bits. */
    method Changes(since: int, limit: nat) returns (ok: bool, changes: seq<Change>, next: int, hasMore: bool)
      modifies this`handed
      ensures next <= INT64_MAX
      ensures handed == if ok then old(handed) + [Page(since, changes, next, hasMore)] else old(handed)
      ensures calm ==> ok
    {
      ok, changes, next, hasMore := *, *, *, *;
      if calm { ok := true; }
      if next > INT64_MAX { next := INT64_MAX; }
      if ok { handed := handed + [Page(since, changes, next, hasMore)]; }
    }

    method Download(id: NodeID) returns (ok: bool, data: Bytes)
      modifies this`current
      ensures MovedOn(old(current), current)
      ensures ok ==> id in current && data == bytesOf(id, current[id])
      ensures calm && id in old(current) ==> ok
    {
      var newer: int := *;
      if id in current && newer > current[id] { current := current[id := newer]; }
      ok, data := *, *;
      if calm { ok := true; }
      if id !in current { ok := false; }
      if ok { data := bytesOf(id, current[id]); }
    }
  }

  ghost predicate MovedOn(a: map<NodeID, int>, b: map<NodeID, int>) {
    forall id {:trigger a[id]} {:trigger b[id]} :: id in a ==> id in b && a[id] <= b[id]
  }

  /** The bytes are those of the node in the given version or a later one. */
  ghost predicate AsNew(bytesOf: (NodeID, int) -> Bytes, id: NodeID, version: int, data: Bytes) {
    exists w :: w >= version && data == bytesOf(id, w)
  }

  /** A copy is under its node's path, and unless it is stale its file holds the node's bytes at
      least as new as the recorded version. */
  ghost predicate CopyOk(bytesOf: (NodeID, int) -> Bytes, files: Tree, index: Index, id: NodeID, copy: Copy) {
    && id in index && copy.path == index[id].path && copy.path != []
    && copy.path in files && files[copy.path].Regular?
    && (copy.version >= index[id].version ==> AsNew(bytesOf, id, copy.version, files[copy.path].data))
  }

  ghost predicate OnePathEach(index: Index) {
    forall a, b {:trigger index[a], index[b]} :: a in index && b in index && index[a].path == index[b].path ==> a == b
  }

  ghost predicate CacheOk(bytesOf: (NodeID, int) -> Bytes, current: map<NodeID, int>, files: Tree, index: Index,
                          local: Copies) {
    && Closed(files) && OnePathEach(index)
    && (forall id {:trigger index[id]} :: id in index ==> id in current && index[id].version <= current[id])
    && (forall id {:trigger local[id]} :: id in local ==> CopyOk(bytesOf, files, index, id, local[id]))
  }

  /** An entry of an orderly feed: no other node has its path, versions do not go back and are
      not ahead of the server. */
  ghost predicate Orderly(current: map<NodeID, int>, index: Index, c: Change) {
    c.deleted ||
    (&& c.relPath != []
     && (forall id {:trigger index[id]} :: id in index && id != c.nodeID ==> index[id].path != c.relPath)
     && c.nodeID in current && c.version <= current[c.nodeID]
     && (c.nodeID in index ==> index[c.nodeID].version <= c.version))
  }

  /** os.Remove: a file or an empty folder. */
  function RemoveOne(t: Tree, p: Path): Option<Tree> {
    if p !in t || (t[p] == Folder && HasChild(t, p)) then None else Some(t - {p})
  }

  // ---------- what the feed does to the cache ----------

  datatype Cache = Cache(files: Tree, index: Index, local: Copies)

  /** The copy's file goes, then its record; if the file cannot go, neither does. */
  function Removed(s: Cache, id: NodeID): Cache {
    var p := LocalPathOf(s.local, id);
    var gone := if p == [] || p !in s.files then Some(s.files) else RemoveOne(s.files, p);
    match gone
    case None => s
    case Some(t) => s.(files := t, local := s.local - {id})
  }

  /** The copy follows its node to the new path, or goes if it cannot. */
  function Reconciled(s: Cache, id: NodeID, newPath: Path): Cache {
    var o := LocalPathOf(s.local, id);
    if o == [] || o == newPath then s
    else
      match MkdirAll(s.files, Above(newPath))
      case None => Removed(s, id)
      case Some(t) =>
        match Rename(t, o, newPath)
        case None => Removed(s.(files := t), id)
        case Some(u) =>
          if id in s.local then s.(files := u, local := s.local[id := s.local[id].(path := newPath)])
          else s
  }

  /** The cache after one entry, and after a sequence of them. */
  function CacheAfter(s: Cache, c: Change): Cache {
    if c.deleted then
      var gone := Removed(s, c.nodeID);
      gone.(index := s.index - {c.nodeID})
    else
      var moved := if c.nodeID in s.index && s.index[c.nodeID].path != c.relPath then Reconciled(s, c.nodeID, c.relPath)
          else s;
      moved.(index := s.index[c.nodeID := Row(c.relPath, c.isDir, c.version, c.hash, c.size)])
  }

  function CacheAfterAll(s: Cache, changes: seq<Change>): Cache {
    if changes == [] then s else CacheAfter(CacheAfterAll(s, changes[..|changes| - 1]), changes[|changes| - 1])
  }

  lemma OneMoreApplied(s: Cache, changes: seq<Change>, c: Change)
    ensures CacheAfterAll(s, changes + [c]) == CacheAfter(CacheAfterAll(s, changes), c)
  {
    assert (changes + [c])[..|changes|] == changes;
  }

  /** Every entry is orderly when its turn comes. */
  ghost predicate AllOrderly(current: map<NodeID, int>, s: Cache, changes: seq<Change>) {
    forall k :: 0 <= k < |changes| ==> Orderly(current, CacheAfterAll(s, changes[..k]).index, changes[k])
  }

  lemma OneMoreOrderly(current: map<NodeID, int>, s: Cache, changes: seq<Change>, c: Change)
    ensures AllOrderly(current, s, changes + [c]) <==>
              AllOrderly(current, s, changes) && Orderly(current, CacheAfterAll(s, changes).index, c)
  {
    hide Orderly, CacheAfterAll;
    var longer := changes + [c];
    assert longer[..|changes|] == changes;
    assert forall k :: 0 <= k < |changes| ==> longer[..k] == changes[..k] && longer[k] == changes[k];
  }

  lemma {:induction false} ManyMoreApplied(current: map<NodeID, int>, s: Cache, a: seq<Change>, b: seq<Change>)
    ensures CacheAfterAll(s, a + b) == CacheAfterAll(CacheAfterAll(s, a), b)
    ensures AllOrderly(current, s, a + b) <==> AllOrderly(current, s, a) && AllOrderly(current, CacheAfterAll(s, a), b)
    decreases |b|
  {
    hide AllOrderly, Orderly, CacheAfter;
    if b == [] {
      assert a + b == a;
      assert AllOrderly(current, CacheAfterAll(s, a), []) by { NothingIsOrderly(current, CacheAfterAll(s, a)); }
    } else {
      var front, c := b[..|b| - 1], b[|b| - 1];
      assert b == front + [c] && a + b == (a + front) + [c];
      ManyMoreApplied(current, s, a, front);
      OneMoreApplied(s, a + front, c);
      OneMoreApplied(CacheAfterAll(s, a), front, c);
      OneMoreOrderly(current, s, a + front, c);
      OneMoreOrderly(current, CacheAfterAll(s, a), front, c);
    }
  }

  lemma NothingIsOrderly(current: map<NodeID, int>, s: Cache)
    ensures AllOrderly(current, s, [])
  {
  }

  /** The entries of some pages. */
  function EntriesOf(pages: seq<Page>): seq<Change> {
    if pages == [] then [] else EntriesOf(pages[..|pages| - 1]) + pages[|pages| - 1].changes
  }

  /** Where they have left the cursor. */
  function CursorAfter(since: int, pages: seq<Page>): int {
    if pages == [] then since
    else
      var last := pages[|pages| - 1];
      if last.next > last.since then last.next else last.since
  }

  predicate AllGoOn(pages: seq<Page>) {
    forall k :: 0 <= k < |pages| ==> GoesOn(pages[k])
  }

  /** Each page was asked for where the one before it had left the cursor, and only after one
      that goes on. */
  ghost predicate Chained(since: int, pages: seq<Page>) {
    pages == [] ||
    (var earlier := pages[..|pages| - 1];
     Chained(since, earlier) && AllGoOn(earlier) && pages[|pages| - 1].since == CursorAfter(since, earlier))
  }

  lemma OnePageMore(since: int, pages: seq<Page>, page: Page)
    requires Chained(since, pages) && AllGoOn(pages) && page.since == CursorAfter(since, pages)
    ensures Chained(since, pages + [page]) && EntriesOf(pages + [page]) == EntriesOf(pages) + page.changes
    ensures CursorAfter(since, pages + [page]) == if page.next > page.since then page.next else page.since
    ensures AllGoOn(pages + [page]) <==> GoesOn(page)
  {
    assert (pages + [page])[..|pages|] == pages;
    assert (pages + [page])[|pages|] == page;
  }

  /** What some pages have made of cache and cursor. */
  ghost predicate Taken(bytesOf: (NodeID, int) -> Bytes, current: map<NodeID, int>, start: Cache, since: int,
                        pages: seq<Page>, now: Cache, cursor: int)
  {
    && Chained(since, pages) && cursor == CursorAfter(since, pages) && now == CacheAfterAll(start, EntriesOf(pages))
    && (Right(bytesOf, current, start) && AllOrderly(current, start, EntriesOf(pages)) ==> Right(bytesOf, current, now))
  }

  ghost predicate Right(bytesOf: (NodeID, int) -> Bytes, current: map<NodeID, int>, s: Cache) {
    CacheOk(bytesOf, current, s.files, s.index, s.local)
  }

  lemma NothingTaken(bytesOf: (NodeID, int) -> Bytes, current: map<NodeID, int>, start: Cache, since: int)
    ensures Taken(bytesOf, current, start, since, [], start, since) && AllGoOn([]) && EntriesOf([]) == []
  {
    hide Right;
  }

  lemma TakenIs(bytesOf: (NodeID, int) -> Bytes, current: map<NodeID, int>, start: Cache, since: int,
                pages: seq<Page>, now: Cache, cursor: int)
    requires Taken(bytesOf, current, start, since, pages, now, cursor)
    ensures Chained(since, pages) && cursor == CursorAfter(since, pages)
    ensures now == CacheAfterAll(start, EntriesOf(pages))
    ensures Right(bytesOf, current, start) && AllOrderly(current, start, EntriesOf(pages)) ==>
              Right(bytesOf, current, now) && BytesKept(start, now)
    ensures forall id {:trigger TakenIn(start, now, EntriesOf(pages), id)} :: TakenIn(start, now, EntriesOf(pages), id)
  {
    hide Right, AllOrderly, TakenIn, BytesKept;
    if Right(bytesOf, current, start) && AllOrderly(current, start, EntriesOf(pages)) {
      RefreshKeepsBytes(bytesOf, current, start, EntriesOf(pages));
    }
    forall id
      ensures TakenIn(start, now, EntriesOf(pages), id)
    {
      LastEntryDecides(start, EntriesOf(pages), id);
    }
  }

  lemma PageTaken(bytesOf: (NodeID, int) -> Bytes, current: map<NodeID, int>, start: Cache, since: int,
                  pages: seq<Page>, before: Cache, page: Page, now: Cache, cursor: int)
    requires Taken(bytesOf, current, start, since, pages, before, page.since) && AllGoOn(pages)
    requires now == CacheAfterAll(before, page.changes) && cursor == if page.next > page.since then page.next
               else page.since
    requires Right(bytesOf, current, before) && AllOrderly(current, before, page.changes) ==>
               Right(bytesOf, current, now)
    ensures Taken(bytesOf, current, start, since, pages + [page], now, cursor)
    ensures (AllGoOn(pages + [page]) <==> GoesOn(page)) && EntriesOf(pages + [page]) == EntriesOf(pages) + page.changes
  {
    hide Right, AllOrderly, CacheAfterAll, Chained, CursorAfter, EntriesOf, AllGoOn;
    OnePageMore(since, pages, page);
    ManyMoreApplied(current, start, EntriesOf(pages), page.changes);
  }

  /** The last of some entries that is about a node. */
  function LastOf(changes: seq<Change>, id: NodeID): Option<Change> {
    if changes == [] then None
    else if changes[|changes| - 1].nodeID == id then Some(changes[|changes| - 1])
    else LastOf(changes[..|changes| - 1], id)
  }

  lemma {:induction false} LastOfIs(changes: seq<Change>, id: NodeID)
    ensures match LastOf(changes, id)
            case None => forall c :: c in changes ==> c.nodeID != id
            case Some(c) =>
              exists k :: 0 <= k < |changes| && changes[k] == c && c.nodeID == id
                          && forall m :: k < m < |changes| ==> changes[m].nodeID != id
    decreases |changes|
  {
    if changes != [] {
      var front := changes[..|changes| - 1];
      LastOfIs(front, id);
      if LastOf(changes, id).Some? && changes[|changes| - 1].nodeID != id {
        var k :| 0 <= k < |front| && front[k] == LastOf(changes, id).value && front[k].nodeID == id
                 && forall m :: k < m < |front| ==> front[m].nodeID != id;
        assert changes[k] == LastOf(changes, id).value;
      }
    }
  }

  /** What some entries come to for one node: its row is that of the last entry about it, and no
      copy is made or has its version or its pin changed, so one older than that entry is stale. */
  ghost predicate TakenIn(s: Cache, s': Cache, changes: seq<Change>, id: NodeID) {
    && (id in s'.local ==> id in s.local && s'.local[id].(path := s.local[id].path) == s.local[id])
    && match LastOf(changes, id)
       case None =>
         && (id in s'.index <==> id in s.index) && (id in s.index ==> s'.index[id] == s.index[id])
         && (id in s'.local <==> id in s.local) && (id in s.local ==> s'.local[id] == s.local[id])
       case Some(c) =>
         if c.deleted then id !in s'.index
         else
           && id in s'.index && s'.index[id] == Row(c.relPath, c.isDir, c.version, c.hash, c.size)
           && (Fresh(s'.index, s'.local, id) <==> id in s'.local && s.local[id].version >= c.version)
  }

  lemma {:induction false} LastEntryDecides(s: Cache, changes: seq<Change>, id: NodeID)
    ensures TakenIn(s, CacheAfterAll(s, changes), changes, id)
    decreases |changes|
  {
    if changes != [] {
      var front, c := changes[..|changes| - 1], changes[|changes| - 1];
      LastEntryDecides(s, front, id);
      OneEntryDecides(CacheAfterAll(s, front), c, id);
      hide CacheAfter;
    }
  }

  lemma OneEntryDecides(s: Cache, c: Change, id: NodeID)
    ensures var s' := CacheAfter(s, c);
            && (id in s'.local ==> id in s.local && s'.local[id].(path := s.local[id].path) == s.local[id])
            && (c.nodeID != id ==>
                  && (id in s'.index <==> id in s.index) && (id in s.index ==> s'.index[id] == s.index[id])
                  && (id in s'.local <==> id in s.local) && (id in s.local ==> s'.local[id] == s.local[id]))
            && (c.nodeID == id ==>
                  if c.deleted then id !in s'.index
                  else id in s'.index && s'.index[id] == Row(c.relPath, c.isDir, c.version, c.hash, c.size))
  {
    hide RemoveOne, Rename, MkdirAll;
  }

  /** What the entries say about a node is that it is still where it was. */
  ghost predicate StaysPut(index: Index, changes: seq<Change>, id: NodeID)
    requires id in index
  {
    forall c :: c in changes && c.nodeID == id ==> !c.deleted && c.relPath == index[id].path
  }

  /** A node that is neither deleted nor moved keeps its copy, however stale it becomes. */
  lemma {:induction false} StayingKeepsCopy(s: Cache, changes: seq<Change>, id: NodeID)
    requires id in s.index && StaysPut(s.index, changes, id)
    ensures var after := CacheAfterAll(s, changes);
            && id in after.index && after.index[id].path == s.index[id].path
            && (id in after.local <==> id in s.local) && (id in s.local ==> after.local[id] == s.local[id])
    decreases |changes|
  {
    if changes != [] {
      StayingKeepsCopy(s, changes[..|changes| - 1], id);
      EntryOfOther(CacheAfterAll(s, changes[..|changes| - 1]), changes[|changes| - 1], id);
    }
  }

  lemma EntryOfOther(s: Cache, c: Change, id: NodeID)
    requires id in s.index && (c.nodeID == id ==> !c.deleted && c.relPath == s.index[id].path)
    ensures var after := CacheAfter(s, c);
            && id in after.index && after.index[id].path == s.index[id].path
            && (id in after.local <==> id in s.local) && (id in s.local ==> after.local[id] == s.local[id])
  {
    hide RemoveOne;
  }

  /** Every copy there is has the bytes it had, wherever it is now. */
  ghost predicate BytesKept(s: Cache, s': Cache) {
    forall id {:trigger s'.local[id]} :: id in s'.local ==>
      && id in s.local && s.local[id].path in s.files && s'.local[id].path in s'.files
      && s'.files[s'.local[id].path] == s.files[s.local[id].path]
  }

  lemma {:induction false} RefreshKeepsBytes(bytesOf: (NodeID, int) -> Bytes, current: map<NodeID, int>, s: Cache,
                                             changes: seq<Change>)
    requires Right(bytesOf, current, s) && AllOrderly(current, s, changes)
    ensures Right(bytesOf, current, CacheAfterAll(s, changes)) && BytesKept(s, CacheAfterAll(s, changes))
    decreases |changes|
  {
    hide Orderly, CacheAfter;
    if changes == [] {
      CopiesHaveFiles(bytesOf, current, s);
      hide Right;
    } else {
      hide Right, AllOrderly;
      var front, c := changes[..|changes| - 1], changes[|changes| - 1];
      assert changes == front + [c];
      OneMoreOrderly(current, s, front, c);
      RefreshKeepsBytes(bytesOf, current, s, front);
      EntryKeepsRight(bytesOf, current, CacheAfterAll(s, front), c);
      EntryKeepsBytes(bytesOf, current, CacheAfterAll(s, front), c);
    }
  }

  lemma CopiesHaveFiles(bytesOf: (NodeID, int) -> Bytes, current: map<NodeID, int>, s: Cache)
    requires Right(bytesOf, current, s)
    ensures Closed(s.files) && BytesKept(s, s)
  {
    forall id | id in s.local
      ensures s.local[id].path in s.files
    {
      CopyHasFile(bytesOf, current, s.files, s.index, s.local, id);
    }
  }

  lemma EntryKeepsRight(bytesOf: (NodeID, int) -> Bytes, current: map<NodeID, int>, s: Cache, c: Change)
    requires Right(bytesOf, current, s) && Orderly(current, s.index, c)
    ensures Right(bytesOf, current, CacheAfter(s, c))
  {
    hide CacheOk, Orderly, Rename, MkdirAll, RemoveOne;
    var id := c.nodeID;
    if c.deleted {
      RemovalIsRight(bytesOf, current, s, id);
      var t := Removed(s, id);
      ForgottenNode(bytesOf, current, t.files, t.index, t.local, id);
    } else if id in s.index && s.index[id].path != c.relPath {
      MoveIsRight(bytesOf, current, s, c);
    } else {
      RowRefreshed(bytesOf, current, s.files, s.index, s.local, c);
    }
  }

  lemma RemovalIsRight(bytesOf: (NodeID, int) -> Bytes, current: map<NodeID, int>, s: Cache, id: NodeID)
    requires Right(bytesOf, current, s)
    ensures Right(bytesOf, current, Removed(s, id)) && id !in Removed(s, id).local && Removed(s, id).index == s.index
    ensures BytesKept(s, Removed(s, id))
  {
    CopiesHaveFiles(bytesOf, current, s);
    if id in s.local {
      CopyHasFile(bytesOf, current, s.files, s.index, s.local, id);
      RemovedCopy(bytesOf, current, s.files, s.index, s.local, id);
      OtherPaths(bytesOf, current, s.files, s.index, s.local, id, s.local[id].path) by { OwnPathOnly(s.index, id); }
      hide CacheOk, RemoveOne;
    } else {
      assert s.local - {id} == s.local;
    }
  }

  lemma MoveIsRight(bytesOf: (NodeID, int) -> Bytes, current: map<NodeID, int>, s: Cache, c: Change)
    requires Right(bytesOf, current, s) && Orderly(current, s.index, c) && !c.deleted && c.nodeID in s.index
    ensures var t := Reconciled(s, c.nodeID, c.relPath);
            && t.index == s.index && BytesKept(s, t)
            && Right(bytesOf, current,
                     t.(index := s.index[c.nodeID := Row(c.relPath, c.isDir, c.version, c.hash, c.size)]))
  {
    hide CacheOk, Orderly, Rename, RemoveOne, MkdirAll, Removed;
    var id, n := c.nodeID, c.relPath;
    var o := LocalPathOf(s.local, id);
    CopiesHaveFiles(bytesOf, current, s);
    if o == [] {
      RootIsNoCopy(bytesOf, current, s.files, s.index, s.local);
      WithoutCopy(bytesOf, current, s.files, s.index, s.local, c);
    } else if o == n {
      AlreadyThere(bytesOf, current, s.files, s.index, s.local, c);
    } else if MkdirAll(s.files, Above(n)) == None {
      GoneIsRight(bytesOf, current, s, c);
    } else {
      var t := s.(files := MkdirAll(s.files, Above(n)).value);
      MkdirKeepsCopies(bytesOf, current, s.files, s.index, s.local, Above(n));
      MkdirKeepsBytes(s, Above(n));
      if Rename(t.files, o, n) == None {
        GoneIsRight(bytesOf, current, t, c);
      } else {
        CopyFollows(bytesOf, current, t.files, t.index, t.local, c);
        FollowingKeepsBytes(bytesOf, current, t, c);
      }
    }
  }

  lemma MkdirKeepsBytes(s: Cache, p: Path)
    requires Closed(s.files) && MkdirAll(s.files, p).Some? && BytesKept(s, s)
    ensures BytesKept(s, s.(files := MkdirAll(s.files, p).value))
  {
    MkdirAllKeepsClosed(s.files, p);
  }

  lemma GoneIsRight(bytesOf: (NodeID, int) -> Bytes, current: map<NodeID, int>, s: Cache, c: Change)
    requires Right(bytesOf, current, s) && Orderly(current, s.index, c) && !c.deleted && c.nodeID in s.index
    ensures var t := Removed(s, c.nodeID);
            && t.index == s.index && BytesKept(s, t)
            && Right(bytesOf, current,
                     t.(index := s.index[c.nodeID := Row(c.relPath, c.isDir, c.version, c.hash, c.size)]))
  {
    hide CacheOk, Orderly, Removed;
    RemovalIsRight(bytesOf, current, s, c.nodeID);
    var t := Removed(s, c.nodeID);
    WithoutCopy(bytesOf, current, t.files, t.index, t.local, c);
  }

  lemma FollowingKeepsBytes(bytesOf: (NodeID, int) -> Bytes, current: map<NodeID, int>, s: Cache, c: Change)
    requires Right(bytesOf, current, s) && Orderly(current, s.index, c) && !c.deleted && c.nodeID in s.local
    requires c.nodeID in s.index && s.local[c.nodeID].path != c.relPath
    requires Rename(s.files, s.local[c.nodeID].path, c.relPath).Some?
    ensures BytesKept(s, s.(files := Rename(s.files, s.local[c.nodeID].path, c.relPath).value,
                            local := s.local[c.nodeID := s.local[c.nodeID].(path := c.relPath)]))
  {
    var id, o, n := c.nodeID, s.local[c.nodeID].path, c.relPath;
    CopyHasFile(bytesOf, current, s.files, s.index, s.local, id);
    PublishIs(s.files, o, n, s.files[o].data);
    OtherPaths(bytesOf, current, s.files, s.index, s.local, id, n);
    OtherPaths(bytesOf, current, s.files, s.index, s.local, id, o) by { OwnPathOnly(s.index, id); }
    hide CacheOk, Rename;
  }

  lemma EntryKeepsBytes(bytesOf: (NodeID, int) -> Bytes, current: map<NodeID, int>, s: Cache, c: Change)
    requires Right(bytesOf, current, s) && Orderly(current, s.index, c)
    ensures BytesKept(s, CacheAfter(s, c))
  {
    CopiesHaveFiles(bytesOf, current, s);
    hide CacheOk, Orderly, Removed, Reconciled;
    if c.deleted {
      RemovalIsRight(bytesOf, current, s, c.nodeID);
    } else if c.nodeID in s.index && s.index[c.nodeID].path != c.relPath {
      MoveIsRight(bytesOf, current, s, c);
    }
  }

  /** The folder for a file made, then os.Rename. */
  function Relocated(t: Tree, o: Path, n: Path): Option<Tree> {
    match MkdirAll(t, Above(n))
    case None => None
    case Some(u) => Rename(u, o, n)
  }

  /** The folder for a file can be made and the file written. */
  predicate CanWrite(t: Tree, p: Path) {
    match MkdirAll(t, Above(p))
    case None => false
    case Some(u) => FileSystem.WriteFile(u, p, []).Some?
  }

  /** index.LocalPathOf; the empty path if there is no record. */
  function LocalPathOf(local: Copies, id: NodeID): Path {
    if id in local then local[id].path else []
  }

  predicate Fresh(index: Index, local: Copies, id: NodeID) {
    id in index && id in local && local[id].version >= index[id].version
  }

  // ---------- what the operations do to the other copies ----------

  /** Every copy but that of `id` has its file untouched. */
  ghost predicate OthersKept(files: Tree, files': Tree, local: Copies, id: NodeID) {
    forall other {:trigger local[other]} :: other in local && other != id ==>
      local[other].path in files && local[other].path in files' && files'[local[other].path] == files[local[other].path]
  }

  lemma StillRight(bytesOf: (NodeID, int) -> Bytes, current: map<NodeID, int>, current': map<NodeID, int>,
                   files: Tree, files': Tree, index: Index, index': Index, local: Copies, local': Copies, id: NodeID)
    requires CacheOk(bytesOf, current, files, index, local) && MovedOn(current, current')
    requires Closed(files') && OnePathEach(index') && OthersKept(files, files', local, id)
    requires index' - {id} == index - {id} && local' - {id} == local - {id}
    requires id in index' ==> id in current' && index'[id].version <= current'[id]
    requires id in local' ==> CopyOk(bytesOf, files', index', id, local'[id])
    ensures CacheOk(bytesOf, current', files', index', local')
  {
    hide AsNew, Closed, OnePathEach;
    forall other | other in local' && other != id
      ensures CopyOk(bytesOf, files', index', other, local'[other])
    {
      assert other in local' - {id} && (local' - {id})[other] == local'[other];
      assert other in local && (local - {id})[other] == local[other];
      assert CopyOk(bytesOf, files, index, other, local[other]);
      assert other in index - {id} && (index - {id})[other] == index[other];
      assert other in index' && (index' - {id})[other] == index'[other];
    }
    forall other | other in index' && other != id
      ensures other in current' && index'[other].version <= current'[other]
    {
      assert other in index' - {id} && (index' - {id})[other] == index'[other];
      assert other in index - {id} && (index - {id})[other] == index[other];
      assert other in current && other in current' && index[other].version <= current[other] <= current'[other];
    }
  }

  lemma OtherPaths(bytesOf: (NodeID, int) -> Bytes, current: map<NodeID, int>, files: Tree, index: Index, local: Copies,
                   id: NodeID, p: Path)
    requires CacheOk(bytesOf, current, files, index, local)
    requires forall other {:trigger index[other]} :: other in index && other != id ==> index[other].path != p
    ensures forall other {:trigger local[other]} :: other in local && other != id ==>
              local[other].path != p && local[other].path in files
  {
    forall other | other in local && other != id
      ensures local[other].path != p && local[other].path in files
    {
      assert CopyOk(bytesOf, files, index, other, local[other]);
      var _ := index[other];
    }
  }

  lemma RemovedCopy(bytesOf: (NodeID, int) -> Bytes, current: map<NodeID, int>, files: Tree, index: Index,
                    local: Copies, id: NodeID)
    requires CacheOk(bytesOf, current, files, index, local) && id in local
    ensures var p := local[id].path;
              && RemoveOne(files, p) == Some(files - {p})
              && CacheOk(bytesOf, current, files - {p}, index, local - {id})
  {
    var p := local[id].path;
    assert CopyOk(bytesOf, files, index, id, local[id]);
    RemoveKeepsClosed(files, p);
    RemoveFileIs(files, p);
    OtherPaths(bytesOf, current, files, index, local, id, p) by { OwnPathOnly(index, id); }
    hide Closed, AsNew;
    StillRight(bytesOf, current, current, files, files - {p}, index, index, local, local - {id}, id);
  }

  lemma OwnPathOnly(index: Index, id: NodeID)
    requires OnePathEach(index) && id in index
    ensures forall other {:trigger index[other]} :: other in index && other != id ==>
              index[other].path != index[id].path
  {
  }

  lemma MkdirKeepsCopies(bytesOf: (NodeID, int) -> Bytes, current: map<NodeID, int>, files: Tree, index: Index,
                         local: Copies, p: Path)
    requires CacheOk(bytesOf, current, files, index, local) && MkdirAll(files, p).Some?
    ensures CacheOk(bytesOf, current, MkdirAll(files, p).value, index, local)
    ensures p in MkdirAll(files, p).value && MkdirAll(files, p).value[p] == Folder
  {
    MkdirAllKeepsClosed(files, p);
    forall id | id in local
      ensures CopyOk(bytesOf, MkdirAll(files, p).value, index, id, local[id])
    {
      assert CopyOk(bytesOf, files, index, id, local[id]);
    }
    hide AsNew, Closed;
  }

  /** A file written at a node's own path leaves every other copy alone. */
  lemma OwnFileWritten(bytesOf: (NodeID, int) -> Bytes, current: map<NodeID, int>, files: Tree, index: Index,
                       local: Copies, id: NodeID, data: Bytes)
    requires CacheOk(bytesOf, current, files, index, local) && id in index
    requires FileSystem.WriteFile(files, index[id].path, data).Some?
    ensures var u := files[index[id].path := Regular(data)];
            Closed(u) && OthersKept(files, u, local, id) && index[id].path != []
                && FileSystem.WriteFile(files, index[id].path, data) == Some(u)
  {
    PutKeepsClosed(files, index[id].path, Regular(data));
    OtherPaths(bytesOf, current, files, index, local, id, index[id].path) by { OwnPathOnly(index, id); }
  }

  class Controller {
    const srv: ContentServer
    var files: Tree
    var index: Index
    var local: Copies
    var cursor: int

    constructor (srv: ContentServer, files: Tree, index: Index, local: Copies, cursor: int)
      ensures this.srv == srv && this.files == files && this.index == index && this.local == local
      ensures this.cursor == cursor
    {
      this.srv, this.files, this.index, this.local, this.cursor := srv, files, index, local, cursor;
    }

    ghost predicate Valid()
      reads this, srv
    {
      CacheOk(srv.bytesOf, srv.current, files, index, local)
    }

    ghost function Now(): Cache
      reads this
    {
      Cache(files, index, local)
    }

    /** Refresh ends against any server, since the cursor rises with every further page and has
        64 bits. It asks for page after page until one does not go on, and the cache becomes what
        the entries of all of them, in order, make of it: a node's row is that of the last entry
        about it, and a copy older than that entry is stale. Nothing is downloaded. If every entry
        was orderly when its turn came, a right cache stays right, and every copy that is left has
        the bytes it had. */
    method Refresh() returns (ok: bool, applied: nat, ghost pages: seq<Page>)
      modifies this, srv`handed
      ensures srv.handed == old(srv.handed) + pages && Chained(old(cursor), pages)
      ensures cursor == CursorAfter(old(cursor), pages)
      ensures ok <==> !AllGoOn(pages)
      ensures Now() == CacheAfterAll(old(Now()), EntriesOf(pages)) && applied == |EntriesOf(pages)|
      ensures forall id {:trigger TakenIn(old(Now()), Now(), EntriesOf(pages), id)} ::
                TakenIn(old(Now()), Now(), EntriesOf(pages), id)
      ensures old(Valid()) && AllOrderly(srv.current, old(Now()), EntriesOf(pages)) ==>
                Valid() && BytesKept(old(Now()), Now())
      ensures srv.calm ==> ok
    {
      hide CacheOk, AllOrderly, Taken, AllGoOn, EntriesOf, TakenIn, BytesKept;
      applied, pages := 0, [];
      ghost var start := Now();
      NothingTaken(srv.bytesOf, srv.current, start, cursor);
      var since := cursor;
      while true
        invariant srv.handed == old(srv.handed) + pages && AllGoOn(pages)
        invariant cursor == since && applied == |EntriesOf(pages)|
        invariant Taken(srv.bytesOf, srv.current, start, old(cursor), pages, Now(), cursor)
        decreases INT64_MAX - since
      {
        var changes, next, hasMore;
        ok, changes, next, hasMore := srv.Changes(since, PAGE_LIMIT);
        if !ok {
          TakenIs(srv.bytesOf, srv.current, start, old(cursor), pages, Now(), cursor);
          return;
        }
        ghost var page, before, earlier := Page(since, changes, next, hasMore), Now(), pages;
        ApplyEntries(changes);
        applied := applied + |changes|;
        var advanced := next > since;
        if advanced {
          since := next;
          cursor := next;
        }
        pages := pages + [page];
        PageTaken(srv.bytesOf, srv.current, start, old(cursor), earlier, before, page, Now(), cursor);
        if !hasMore || !advanced {
          TakenIs(srv.bytesOf, srv.current, start, old(cursor), pages, Now(), cursor);
          return;
        }
      }
    }

    /** The inner loop of Refresh. */
    method ApplyEntries(changes: seq<Change>)
      modifies this`files, this`index, this`local
      ensures Now() == CacheAfterAll(old(Now()), changes)
      ensures old(Valid()) && AllOrderly(srv.current, old(Now()), changes) ==> Valid()
    {
      hide CacheOk, Orderly, AllOrderly, CacheAfter;
      var k := 0;
      while k < |changes|
        invariant k <= |changes|
        invariant Now() == CacheAfterAll(old(Now()), changes[..k])
        invariant old(Valid()) && AllOrderly(srv.current, old(Now()), changes[..k]) ==> Valid()
      {
        assert changes[..k + 1] == changes[..k] + [changes[k]];
        OneMoreApplied(old(Now()), changes[..k], changes[k]);
        OneMoreOrderly(srv.current, old(Now()), changes[..k], changes[k]);
        ApplyChange(changes[k]);
        k := k + 1;
      }
      assert changes[..k] == changes;
    }

    /** The loop body of Refresh. */
    method ApplyChange(c: Change)
      modifies this`files, this`index, this`local
      ensures Now() == CacheAfter(old(Now()), c)
      ensures old(Valid()) && Orderly(srv.current, old(index), c) ==> Valid()
      ensures local - {c.nodeID} == old(local) - {c.nodeID}
    {
      hide CacheOk, Removed, Reconciled;
      ghost var fine := Valid() && Orderly(srv.current, index, c);
      if c.deleted {
        var _ := RemoveLocal(c.nodeID);
        if fine { ForgottenNode(srv.bytesOf, srv.current, files, index, local, c.nodeID); }
        index := index - {c.nodeID};
      } else {
        ghost var before := files;
        if c.nodeID in index && index[c.nodeID].path != c.relPath {
          ReconcileLocalRelPath(c);
        } else if fine {
          RowRefreshed(srv.bytesOf, srv.current, files, index, local, c);
        }
        index := index[c.nodeID := Row(c.relPath, c.isDir, c.version, c.hash, c.size)];
      }
    }

    /** RemoveLocal deletes the copy's file and then its record. */
    method RemoveLocal(id: NodeID) returns (ok: bool)
      modifies this`files, this`local
      ensures old(Valid()) ==> Valid() && ok
      ensures Now() == Removed(old(Now()), id)
      ensures ok ==> local == old(local) - {id}
      ensures ok ==> files == if LocalPathOf(old(local), id) == [] then old(files)
                else old(files) - {LocalPathOf(old(local), id)}
      ensures !ok ==> local == old(local) && files == old(files)
      ensures !ok ==> id in local && RemoveOne(files, local[id].path) == None
    {
      var p := LocalPathOf(local, id);
      if id in local && Valid() { CopyHasFile(srv.bytesOf, srv.current, files, index, local, id); }
      if p != [] {
        if Valid() { RemovedCopy(srv.bytesOf, srv.current, files, index, local, id); }
        if p in files {
          match RemoveOne(files, p) {
            case None => return false;
            case Some(t) => files := t;
          }
        }
      }
      assert id !in local ==> local - {id} == local;
      assert p !in old(files) ==> old(files) - {p} == old(files);
      local := local - {id};
      ok := true;
    }

    /** reconcileLocalRelPath: the copy follows its node to the new path, or goes. Afterwards the
        index may be given the new row. */
    method ReconcileLocalRelPath(c: Change)
      modifies this`files, this`local
      ensures old(Valid()) && Orderly(srv.current, index, c) && !c.deleted && c.nodeID in index ==>
                CacheOk(srv.bytesOf, srv.current, files,
                        index[c.nodeID := Row(c.relPath, c.isDir, c.version, c.hash, c.size)], local)
      ensures local - {c.nodeID} == old(local) - {c.nodeID}
      ensures Now() == Reconciled(old(Now()), c.nodeID, c.relPath)
      ensures LocalPathOf(old(local), c.nodeID) in {[], c.relPath} ==> local == old(local) && files == old(files)
      ensures (LocalPathOf(old(local), c.nodeID) !in {[], c.relPath}
               && Relocated(old(files), old(local)[c.nodeID].path, c.relPath).Some?) ==>
                files == Relocated(old(files), old(local)[c.nodeID].path, c.relPath).value
                && local == old(local)[c.nodeID := old(local)[c.nodeID].(path := c.relPath)]
    {
      hide CacheOk;
      ghost var fine := Valid() && Orderly(srv.current, index, c) && !c.deleted && c.nodeID in index;
      var oldPath, newPath := LocalPathOf(local, c.nodeID), c.relPath;
      if oldPath == [] {
        if fine && c.nodeID in local { RootIsNoCopy(srv.bytesOf, srv.current, files, index, local); }
        if fine { WithoutCopy(srv.bytesOf, srv.current, files, index, local, c); }
        return;
      }
      if oldPath == newPath {
        if fine { AlreadyThere(srv.bytesOf, srv.current, files, index, local, c); }
        return;
      }
      ghost var t0 := files;
      match MkdirAll(files, Above(newPath)) {
        case None =>
          var _ := RemoveLocal(c.nodeID);
          if fine { WithoutCopy(srv.bytesOf, srv.current, files, index, local, c); }
          return;
        case Some(t) =>
          if fine { MkdirKeepsCopies(srv.bytesOf, srv.current, files, index, local, Above(newPath)); }
          files := t;
      }
      match Rename(files, oldPath, newPath) {
        case None =>
          var _ := RemoveLocal(c.nodeID);
          if fine { WithoutCopy(srv.bytesOf, srv.current, files, index, local, c); }
        case Some(t) =>
          if fine { CopyFollows(srv.bytesOf, srv.current, files, index, local, c); }
          files := t;
          local := local[c.nodeID := local[c.nodeID].(path := newPath)];
      }
    }

    /** fetch: the record is written only after a complete download. A download that breaks off
        leaves an incomplete file, but then any record there is was already stale. */
    method Fetch(id: NodeID, pinned: bool) returns (path: Option<Path>)
      modifies this`files, this`local, srv
      ensures id !in index ==> path == None
      ensures old(Valid()) && (id in old(local) && id in index ==> old(local)[id].version < index[id].version) ==>
                Valid()
      ensures path.Some? ==> id in local && id in index && path == Some(index[id].path) == Some(local[id].path)
                             && local[id] == Copy(pinned, index[id].version, index[id].path)
      ensures local - {id} == old(local) - {id}
      ensures srv.calm && id in index && id in old(srv.current) && CanWrite(old(files), index[id].path) ==> path.Some?
    {
      hide CacheOk;
      ghost var fine := Valid() && (id in local && id in index ==> local[id].version < index[id].version);
      if id !in index { return None; }
      var n := index[id];
      var dest := n.path;
      match MkdirAll(files, Above(dest)) {
        case None => return None;
        case Some(t) =>
          if fine { MkdirKeepsCopies(srv.bytesOf, srv.current, files, index, local, Above(dest)); }
          files := t;
      }
      ghost var t1, current0 := files, srv.current;
      match FileSystem.WriteFile(files, dest, []) {
        case None => return None;
        case Some(_) =>
      }
      if fine { OwnFileWritten(srv.bytesOf, srv.current, files, index, local, id, []); }
      var ok, data := srv.Download(id);
      if fine {
        SameWrite(files, dest, data);
        OwnFileWritten(srv.bytesOf, current0, files, index, local, id, data);
      }
      files := files[dest := Regular(data)];
      if !ok {
        if fine { BrokenOff(srv.bytesOf, current0, srv.current, t1, index, local, id, data); }
        return None;
      }
      if fine { Downloaded(srv.bytesOf, current0, srv.current, t1, index, local, id, pinned, data); }
      local := local[id := Copy(pinned, n.version, dest)];
      path := Some(dest);
    }

    /** Open returns the path of a copy that is not stale, downloading it first if need be; a
        stale copy that was pinned is not pinned afterwards. */
    method Open(id: NodeID) returns (path: Option<Path>)
      modifies this`files, this`local, srv
      ensures old(Valid()) ==> Valid()
      ensures path.Some? ==>
                && id in local && id in index && local[id].version >= index[id].version
                && path == Some(local[id].path)
      ensures Fresh(index, old(local), id) ==>
                && path == Some(old(local)[id].path) && local == old(local)
                && files == old(files)
      ensures path.Some? && !Fresh(index, old(local), id) ==>
                local[id] == Copy(false, index[id].version, index[id].path)
      ensures local - {id} == old(local) - {id}
      ensures srv.calm && id in index && id in old(srv.current) && CanWrite(old(files), index[id].path) ==> path.Some?
    {
      hide CacheOk;
      if id !in index { return None; }
      if id in local && !(local[id].version < index[id].version) {
        return Some(local[id].path);
      }
      path := Fetch(id, false);
    }

    /** Unpin. The record it writes always looks fresh; when that is right, UnpinIsRightIff says. */
    method Unpin(id: NodeID) returns (ok: bool)
      modifies this`local
      ensures ok <==> id in index
      ensures local == if id in index then Unpinned(index, old(local), id) else old(local)
      ensures old(Valid()) && Fresh(index, old(local), id) ==> Valid()
    {
      if id !in index { return false; }
      if Valid() && Fresh(index, local, id) { FreshIsUnpinned(srv.bytesOf, srv.current, files, index, local, id); }
      hide CacheOk;
      local := local[id := Copy(false, index[id].version, LocalPathOf(local, id))];
      ok := true;
    }

    /** Pin marks a fresh copy as pinned without downloading it again. */
    method Pin(id: NodeID) returns (path: Option<Path>)
      modifies this`files, this`local, srv
      ensures old(Valid()) ==> Valid()
      ensures path.Some? ==>
                && id in local && id in index && local[id].pinned && local[id].version == index[id].version
                && path == Some(local[id].path)
      ensures Fresh(index, old(local), id) ==> path == Some(old(local)[id].path) && files == old(files)
      ensures local - {id} == old(local) - {id}
      ensures srv.calm && id in index && id in old(srv.current) && CanWrite(old(files), index[id].path) ==> path.Some?
    {
      hide CacheOk;
      if id !in index { return None; }
      if id in local && !(local[id].version < index[id].version) {
        if Valid() { StillAsNew(srv.bytesOf, srv.current, files, index, local, id); }
        path := Some(local[id].path);
        local := local[id := Copy(true, index[id].version, local[id].path)];
        return;
      }
      path := Fetch(id, true);
    }
  }

  // ---------- steps ----------

  lemma ForgottenNode(bytesOf: (NodeID, int) -> Bytes, current: map<NodeID, int>, files: Tree, index: Index,
                      local: Copies, id: NodeID)
    requires CacheOk(bytesOf, current, files, index, local) && id !in local
    ensures CacheOk(bytesOf, current, files, index - {id}, local)
  {
    hide Closed, AsNew;
    forall other | other in local
      ensures CopyOk(bytesOf, files, index - {id}, other, local[other])
    {
      assert CopyOk(bytesOf, files, index, other, local[other]);
    }
  }

  lemma NewRowIsUnique(current: map<NodeID, int>, index: Index, c: Change)
    requires OnePathEach(index) && Orderly(current, index, c) && !c.deleted
    ensures OnePathEach(index[c.nodeID := Row(c.relPath, c.isDir, c.version, c.hash, c.size)])
  {
  }

  lemma RowRefreshed(bytesOf: (NodeID, int) -> Bytes, current: map<NodeID, int>, files: Tree, index: Index,
                     local: Copies, c: Change)
    requires CacheOk(bytesOf, current, files, index, local) && Orderly(current, index, c) && !c.deleted
    requires c.nodeID in index ==> index[c.nodeID].path == c.relPath
    ensures CacheOk(bytesOf, current, files, index[c.nodeID := Row(c.relPath, c.isDir, c.version, c.hash, c.size)],
                    local)
  {
    var index' := index[c.nodeID := Row(c.relPath, c.isDir, c.version, c.hash, c.size)];
    NewRowIsUnique(current, index, c);
    hide Closed, AsNew, OnePathEach;
    forall id | id in local
      ensures CopyOk(bytesOf, files, index', id, local[id])
    {
      assert CopyOk(bytesOf, files, index, id, local[id]);
    }
  }

  lemma WithoutCopy(bytesOf: (NodeID, int) -> Bytes, current: map<NodeID, int>, files: Tree, index: Index,
                    local: Copies, c: Change)
    requires CacheOk(bytesOf, current, files, index, local) && Orderly(current, index, c) && !c.deleted
    requires c.nodeID !in local
    ensures CacheOk(bytesOf, current, files, index[c.nodeID := Row(c.relPath, c.isDir, c.version, c.hash, c.size)],
                    local)
  {
    var index' := index[c.nodeID := Row(c.relPath, c.isDir, c.version, c.hash, c.size)];
    NewRowIsUnique(current, index, c);
    hide Closed, AsNew, OnePathEach;
    forall id | id in local
      ensures CopyOk(bytesOf, files, index', id, local[id])
    {
      assert CopyOk(bytesOf, files, index, id, local[id]);
    }
  }

  lemma AlreadyThere(bytesOf: (NodeID, int) -> Bytes, current: map<NodeID, int>, files: Tree, index: Index,
                     local: Copies, c: Change)
    requires CacheOk(bytesOf, current, files, index, local) && Orderly(current, index, c) && !c.deleted
    requires c.nodeID in index && c.nodeID in local && local[c.nodeID].path == c.relPath
    ensures CacheOk(bytesOf, current, files, index[c.nodeID := Row(c.relPath, c.isDir, c.version, c.hash, c.size)],
                    local)
  {
    assert CopyOk(bytesOf, files, index, c.nodeID, local[c.nodeID]);
    RowRefreshed(bytesOf, current, files, index, local, c);
  }

  lemma CopyFollows(bytesOf: (NodeID, int) -> Bytes, current: map<NodeID, int>, files: Tree, index: Index,
                    local: Copies, c: Change)
    requires CacheOk(bytesOf, current, files, index, local) && Orderly(current, index, c) && !c.deleted
    requires c.nodeID in index && c.nodeID in local && local[c.nodeID].path != c.relPath
    requires Rename(files, local[c.nodeID].path, c.relPath).Some?
    ensures var index' := index[c.nodeID := Row(c.relPath, c.isDir, c.version, c.hash, c.size)];
            var local' := local[c.nodeID := local[c.nodeID].(path := c.relPath)];
            CacheOk(bytesOf, current, Rename(files, local[c.nodeID].path, c.relPath).value, index', local')
  {
    var id, o, n := c.nodeID, local[c.nodeID].path, c.relPath;
    var index' := index[id := Row(n, c.isDir, c.version, c.hash, c.size)];
    var local' := local[id := local[id].(path := n)];
    assert CopyOk(bytesOf, files, index, id, local[id]);
    PublishIs(files, o, n, files[o].data);
    RenameKeepsClosed(files, o, n);
    NewRowIsUnique(current, index, c);
    OtherPaths(bytesOf, current, files, index, local, id, n);
    OtherPaths(bytesOf, current, files, index, local, id, o) by { OwnPathOnly(index, id); }
    var t := Rename(files, o, n).value;
    assert t == (files - {o})[n := files[o]];
    assert index' - {id} == index - {id} && local' - {id} == local - {id};
    hide Closed, OnePathEach, Rename;
    StillRight(bytesOf, current, current, files, t, index, index', local, local', id);
  }

  lemma SameWrite(t: Tree, p: Path, data: Bytes)
    requires FileSystem.WriteFile(t, p, []).Some?
    ensures FileSystem.WriteFile(t, p, data) == Some(t[p := Regular(data)])
  {
  }

  lemma BrokenOff(bytesOf: (NodeID, int) -> Bytes, current: map<NodeID, int>, current': map<NodeID, int>, files: Tree,
                  index: Index, local: Copies, id: NodeID, data: Bytes)
    requires CacheOk(bytesOf, current, files, index, local) && MovedOn(current, current') && id in index
    requires id in local ==> local[id].version < index[id].version
    requires FileSystem.WriteFile(files, index[id].path, data).Some?
    ensures CacheOk(bytesOf, current', files[index[id].path := Regular(data)], index, local)
  {
    OwnFileWritten(bytesOf, current, files, index, local, id, data);
    hide Closed, AsNew, OnePathEach;
    assert id in local ==> CopyOk(bytesOf, files, index, id, local[id]);
    var _ := current[id];
    StillRight(bytesOf, current, current', files, files[index[id].path := Regular(data)], index, index, local, local,
               id);
  }

  lemma Downloaded(bytesOf: (NodeID, int) -> Bytes, current: map<NodeID, int>, current': map<NodeID, int>, files: Tree,
                   index: Index, local: Copies, id: NodeID, pinned: bool, data: Bytes)
    requires CacheOk(bytesOf, current, files, index, local) && MovedOn(current, current') && id in index
    requires id in current' && data == bytesOf(id, current'[id])
    requires FileSystem.WriteFile(files, index[id].path, data).Some?
    ensures CacheOk(bytesOf, current', files[index[id].path := Regular(data)], index,
                    local[id := Copy(pinned, index[id].version, index[id].path)])
  {
    OwnFileWritten(bytesOf, current, files, index, local, id, data);
    var local' := local[id := Copy(pinned, index[id].version, index[id].path)];
    var _ := index[id];
    var _ := current[id];
    assert AsNew(bytesOf, id, index[id].version, data);
    assert local' - {id} == local - {id};
    hide Closed, AsNew, OnePathEach;
    StillRight(bytesOf, current, current', files, files[index[id].path := Regular(data)], index, index, local, local',
               id);
  }

  lemma StillAsNew(bytesOf: (NodeID, int) -> Bytes, current: map<NodeID, int>, files: Tree, index: Index, local: Copies,
                   id: NodeID)
    requires CacheOk(bytesOf, current, files, index, local) && id in local && id in index
    requires local[id].version >= index[id].version
    ensures CacheOk(bytesOf, current, files, index, local[id := Copy(true, index[id].version, local[id].path)])
  {
    var local' := local[id := Copy(true, index[id].version, local[id].path)];
    assert CopyOk(bytesOf, files, index, id, local[id]);
    var w :| w >= local[id].version && files[local[id].path].data == bytesOf(id, w);
    assert AsNew(bytesOf, id, index[id].version, files[local[id].path].data);
    assert local' - {id} == local - {id};
    forall other {:trigger local[other]} | other in local && other != id
      ensures local[other].path in files
    {
      assert CopyOk(bytesOf, files, index, other, local[other]);
    }
    hide Closed, AsNew, OnePathEach;
    StillRight(bytesOf, current, current, files, files, index, index, local, local', id);
  }

  // ---------- why no other indexed node may have the path ----------

  /** As Orderly, but only other nodes that have a copy must not have the path. */
  ghost predicate ClearOfCopies(current: map<NodeID, int>, s: Cache, c: Change) {
    && !c.deleted && c.relPath != []
    && (forall id {:trigger s.local[id]} :: id in s.local && id != c.nodeID ==> s.local[id].path != c.relPath)
    && c.nodeID in current && c.version <= current[c.nodeID]
    && (c.nodeID in s.index ==> s.index[c.nodeID].version <= c.version)
  }

  function SharedBytes(a: NodeID): (NodeID, int) -> Bytes {
    (n, w) => if n == a then [1] else [2]
  }

  /** `a` is at `f` and has no copy, `b` is at `g` and has one. */
  function Unshared(a: NodeID, b: NodeID): Cache {
    Cache(map[[] := Folder, ["g"] := Regular([2])],
          map[a := Row(["f"], false, 1, "", 1), b := Row(["g"], false, 1, "", 1)],
          map[b := Copy(true, 1, ["g"])])
  }

  /** What a download of `id` makes of the cache. */
  function Downloads(s: Cache, id: NodeID, data: Bytes): Cache
    requires id in s.index
  {
    s.(files := s.files[s.index[id].path := Regular(data)],
       local := s.local[id := Copy(false, s.index[id].version, s.index[id].path)])
  }

  /** An entry that moves `b` to `f` is clear of copies, and the copy follows. Then `a` is
      downloaded, and the copy of `b`, which still looks fresh, has its bytes. */
  lemma SharedPathMixesCopies(a: NodeID, b: NodeID)
    requires a != b
    ensures var s, c, current := Unshared(a, b), Change(1, b, ["f"], false, 1, "", 1, false), map[a := 1, b := 1];
            var after := CacheAfter(s, c);
            && Right(SharedBytes(a), current, s) && ClearOfCopies(current, s, c) && a in after.index
            && b in after.local && CopyOk(SharedBytes(a), after.files, after.index, b, after.local[b])
            && var end := Downloads(after, a, SharedBytes(a)(a, 1));
               Fresh(end.index, end.local, b) && !CopyOk(SharedBytes(a), end.files, end.index, b, end.local[b])
  {
    SharedAfter(a, b);
    UnsharedIsRight(a, b);
    hide CacheAfter, Right, ClearOfCopies, Unshared;
    assert SharedBytes(a)(b, 1) == [2];
    assert AsNew(SharedBytes(a), b, 1, [2]);
  }

  lemma UnsharedIsRight(a: NodeID, b: NodeID)
    requires a != b
    ensures var s, c, current := Unshared(a, b), Change(1, b, ["f"], false, 1, "", 1, false), map[a := 1, b := 1];
            Right(SharedBytes(a), current, s) && ClearOfCopies(current, s, c)
  {
    var g: Path := ["g"];
    assert Parent(g) == [];
    assert SharedBytes(a)(b, 1) == [2];
    assert AsNew(SharedBytes(a), b, 1, [2]);
  }

  lemma SharedAfter(a: NodeID, b: NodeID)
    requires a != b
    ensures CacheAfter(Unshared(a, b), Change(1, b, ["f"], false, 1, "", 1, false)) ==
              Cache(map[[] := Folder, ["f"] := Regular([2])],
                    map[a := Row(["f"], false, 1, "", 1), b := Row(["f"], false, 1, "", 1)],
                    map[b := Copy(true, 1, ["f"])])
  {
    var s := Unshared(a, b);
    var f: Path, g: Path := ["f"], ["g"];
    assert Parent(g) == [] && Parent(f) == [] && Above(f) == [];
    assert Closed(s.files) && MkdirAll(s.files, []) == Some(s.files);
    PublishIs(s.files, g, f, [2]);
    assert (s.files - {g})[f := Regular([2])] == map[[] := Folder, f := Regular([2])];
    assert Rename(s.files, g, f) == Some(map[[] := Folder, f := Regular([2])]);
  }

  // ---------- Unpin ----------

  /** Unpin records the current version without a download, and an empty path if there was no
      record. */
  function Unpinned(index: Index, local: Copies, id: NodeID): Copies
    requires id in index
  {
    local[id := Copy(false, index[id].version, LocalPathOf(local, id))]
  }

  /** Whatever the server's contents are, unpinning keeps the cache right if and only if there is
      a copy and it is not stale. */
  lemma UnpinIsRightIff(bytesOf: (NodeID, int) -> Bytes, current: map<NodeID, int>, files: Tree, index: Index,
                        local: Copies, id: NodeID)
    requires CacheOk(bytesOf, current, files, index, local) && id in index
    ensures (forall b {:trigger CacheOk(b, current, files, index, local)} ::
             CacheOk(b, current, files, index, local) ==>
              CacheOk(b, current, files, index, Unpinned(index, local, id))) <==> Fresh(index, local, id)
  {
    hide CacheOk;
    if Fresh(index, local, id) {
      forall b | CacheOk(b, current, files, index, local)
        ensures CacheOk(b, current, files, index, Unpinned(index, local, id))
      {
        FreshIsUnpinned(b, current, files, index, local, id);
      }
    } else if id !in local {
      UnpinWithoutCopy(bytesOf, current, files, index, local, id);
    } else {
      var b := Rewritten(bytesOf, id, index[id].version, ContentAt(files, local[id].path) + [0]);
      StillOkRewritten(bytesOf, current, files, index, local, id, ContentAt(files, local[id].path) + [0]);
      UnpinOverOldBytes(b, current, files, index, local, id);
    }
  }

  function ContentAt(files: Tree, p: Path): Bytes {
    if p in files && files[p].Regular? then files[p].data else []
  }

  lemma FreshIsUnpinned(bytesOf: (NodeID, int) -> Bytes, current: map<NodeID, int>, files: Tree, index: Index,
                        local: Copies, id: NodeID)
    requires CacheOk(bytesOf, current, files, index, local) && Fresh(index, local, id)
    ensures CacheOk(bytesOf, current, files, index, Unpinned(index, local, id))
  {
    var local' := Unpinned(index, local, id);
    CopyHasFile(bytesOf, current, files, index, local, id);
    assert local' - {id} == local - {id};
    OthersStay(bytesOf, current, files, index, local, id);
    var w :| w >= local[id].version && files[local[id].path].data == bytesOf(id, w);
    assert AsNew(bytesOf, id, index[id].version, files[local[id].path].data);
    hide Closed, AsNew, OnePathEach;
    StillRight(bytesOf, current, current, files, files, index, index, local, local', id);
  }

  lemma CopyHasFile(bytesOf: (NodeID, int) -> Bytes, current: map<NodeID, int>, files: Tree, index: Index,
                    local: Copies, id: NodeID)
    requires CacheOk(bytesOf, current, files, index, local) && id in local
    ensures CopyOk(bytesOf, files, index, id, local[id])
  {
  }

  lemma RootIsNoCopy(bytesOf: (NodeID, int) -> Bytes, current: map<NodeID, int>, files: Tree, index: Index,
                     local: Copies)
    requires CacheOk(bytesOf, current, files, index, local)
    ensures forall id {:trigger local[id]} :: id in local ==> local[id].path != []
  {
  }

  lemma OthersStay(bytesOf: (NodeID, int) -> Bytes, current: map<NodeID, int>, files: Tree, index: Index, local: Copies,
                   id: NodeID)
    requires CacheOk(bytesOf, current, files, index, local)
    ensures OthersKept(files, files, local, id)
  {
    forall other {:trigger local[other]} | other in local && other != id
      ensures local[other].path in files
    {
      assert CopyOk(bytesOf, files, index, other, local[other]);
    }
  }

  /** A node that was never downloaded gets a record that looks fresh and has an empty path, which
      Open and Pin then return. */
  lemma UnpinWithoutCopy(bytesOf: (NodeID, int) -> Bytes, current: map<NodeID, int>, files: Tree, index: Index,
                         local: Copies, id: NodeID)
    requires CacheOk(bytesOf, current, files, index, local) && id in index && id !in local
    ensures var after := Unpinned(index, local, id);
            Fresh(index, after, id) && after[id].path == [] && !CacheOk(bytesOf, current, files, index, after)
  {
  }

  /** A stale copy whose bytes are old looks fresh afterwards. */
  lemma UnpinOverOldBytes(bytesOf: (NodeID, int) -> Bytes, current: map<NodeID, int>, files: Tree, index: Index,
                          local: Copies, id: NodeID)
    requires CacheOk(bytesOf, current, files, index, local) && id in index && id in local
    requires forall w :: w >= index[id].version ==> bytesOf(id, w) != ContentAt(files, local[id].path)
    ensures var after := Unpinned(index, local, id);
            Fresh(index, after, id) && !CacheOk(bytesOf, current, files, index, after)
  {
    var after := Unpinned(index, local, id);
    if CacheOk(bytesOf, current, files, index, after) {
      CopyHasFile(bytesOf, current, files, index, after, id);
    }
  }

  /** The contents with other bytes for a node from some version on. */
  function Rewritten(bytesOf: (NodeID, int) -> Bytes, id: NodeID, from: int, data: Bytes): (NodeID, int) -> Bytes {
    (n, w) => if n == id && w >= from then data else bytesOf(n, w)
  }

  lemma StillOkRewritten(bytesOf: (NodeID, int) -> Bytes, current: map<NodeID, int>, files: Tree, index: Index,
                         local: Copies, id: NodeID, data: Bytes)
    requires CacheOk(bytesOf, current, files, index, local) && id in index && id in local && !Fresh(index, local, id)
    ensures CacheOk(Rewritten(bytesOf, id, index[id].version, data), current, files, index, local)
  {
    var b := Rewritten(bytesOf, id, index[id].version, data);
    forall other {:trigger local[other]} | other in local
      ensures CopyOk(b, files, index, other, local[other])
    {
      CopyHasFile(bytesOf, current, files, index, local, other);
      if other != id && local[other].version >= index[other].version {
        var w :| w >= local[other].version && files[local[other].path].data == bytesOf(other, w);
        assert files[local[other].path].data == b(other, w);
      }
    }
  }

  /** Such a state: version 1 cached, version 2 on the server. */
  lemma StaleCopyExists(id: NodeID)
    ensures var bytesOf: (NodeID, int) -> Bytes := (n, w) => if w < 2 then [1] else [2];
            var files: Tree := map[[] := Folder, ["f"] := Regular([1])];
            var index := map[id := Row(["f"], false, 2, "", 1)];
            var local := map[id := Copy(true, 1, ["f"])];
            && CacheOk(bytesOf, map[id := 2], files, index, local)
            && !CacheOk(bytesOf, map[id := 2], files, index, Unpinned(index, local, id))
  {
    var bytesOf: (NodeID, int) -> Bytes := (n, w) => if w < 2 then [1] else [2];
    var files: Tree := map[[] := Folder, ["f"] := Regular([1])];
    var index := map[id := Row(["f"], false, 2, "", 1)];
    var local := map[id := Copy(true, 1, ["f"])];
    assert Parent(["f"]) == [];
    assert bytesOf(id, 1) == [1];
    assert AsNew(bytesOf, id, 1, [1]);
    assert CacheOk(bytesOf, map[id := 2], files, index, local);
    UnpinOverOldBytes(bytesOf, map[id := 2], files, index, local, id);
  }
}
