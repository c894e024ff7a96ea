/** The server as the push side sees it: engine.Sink and engine.MoveSink. Every request either
    fails and changes nothing or performs one operation of module Feed. */
module Remote {
  import opened FileSystem
  import opened SyncTypes
  import opened Feed

  // ---------- every subtree can be listed parents first ----------

  lemma LongestOf(x: set<Path>) returns (q: Path)
    requires x != {}
    ensures q in x && forall p :: p in x ==> |p| <= |q|
    decreases |x|
  {
    q :| q in x;
    if x != {q} {
      var r := LongestOf(x - {q});
      if |r| > |q| { q := r; }
    }
  }

  lemma ListSet(x: set<Path>) returns (order: seq<Path>)
    ensures forall q :: q in order <==> q in x
    ensures forall i, j :: 0 <= i < j < |order| ==> order[i] != order[j] && !Within(order[j], order[i])
    decreases |x|
  {
    if x == {} { return []; }
    var q := LongestOf(x);
    var rest := ListSet(x - {q});
    order := rest + [q];
    forall i, j | 0 <= i < j < |order|
      ensures order[i] != order[j] && !Within(order[j], order[i])
    {
      if j == |rest| {
        assert rest[i] in x - {q};
      }
    }
  }

  lemma Listing(t: Tree, p: Path) returns (order: seq<Path>)
    requires p in t
    ensures Lists(order, t, p)
  {
    var x := set q | q in t && Within(p, q);
    assert p in x;
    order := ListSet(x);
    assert p in order;
    var j :| 0 <= j < |order| && order[j] == p;
    assert order[0] in x;
  }

  /** There is always another name in a folder. */
  lemma FreshName(t: Tree, dir: Path)
    ensures exists name :: dir + [name] !in t && !Ignored(dir + [name])
  {
    var n := LongestBase(t.Keys);
    var name := seq(n + 1, _ => 'x');
    ParentOfChild(dir, name);
    assert name[0] == 'x';
    assert dir + [name] !in t && !Ignored(dir + [name]);
  }

  lemma LongestID(x: set<NodeID>) returns (n: nat)
    ensures forall id :: id in x ==> |id| < n
    decreases |x|
  {
    if x == {} { return 0; }
    var id :| id in x;
    var rest := x - {id};
    n := LongestID(rest);
    if |id| >= n { n := |id| + 1; }
    assert forall i :: i in x ==> i == id || i in rest;
  }

  /** And always another node id. */
  lemma FreshID(meta: map<Path, Meta>)
    ensures exists id :: UnusedID(meta, id)
  {
    var ids := set p | p in meta :: meta[p].id;
    var n := LongestID(ids);
    var id := seq(n, _ => 'x');
    assert UnusedID(meta, id);
  }

  predicate UnusedID(meta: map<Path, Meta>, id: NodeID) {
    forall q :: q in meta ==> meta[q].id != id
  }

  /** The subtree at `from` can go to `to`. */
  predicate CanMove(s: Server, from: Path, to: Path) {
    from in s.tree && from != [] && FreeSlot(s.tree, to) && !Ignored(to) && !Within(from, to)
  }

  /** One operation has changed the server and put its block into the feed. */
  ghost predicate Performed(hash: Bytes -> string, s: Server, s': Server, log: seq<Change>, log': seq<Change>, op: Op) {
    ServerOk(s) && OpOk(s, op) && s' == After(s, op) && log' == log + BlockOf(hash, s, op)
  }

  /** The folder with that id; no id stands for the root. */
  predicate IsFolderID(s: Server, parentID: Option<NodeID>, at: Path) {
    match parentID
    case None => at == []
    case Some(id) => at in s.meta && s.meta[at].id == id
  }

  /** A file the server has kept, and where it has stored the bytes sent for it. */
  datatype KeptCopy = KeptCopy(of: Path, at: Path)

  /** The conflicts that some stored copies stand for. */
  ghost function ConflictsIn(copies: seq<KeptCopy>): map<Path, Path> {
    if copies == [] then map[]
    else ConflictsIn(copies[..|copies| - 1])[copies[|copies| - 1].of := copies[|copies| - 1].at]
  }

  lemma OneConflictMore(copies: seq<KeptCopy>, copy: KeptCopy)
    ensures ConflictsIn(copies + [copy]) == ConflictsIn(copies)[copy.of := copy.at]
  {
    assert (copies + [copy])[..|copies|] == copies;
  }

  class Remote {
    const hash: Bytes -> string
    /** No request is lost, and none is refused that the server's state allows. */
    const calm: bool
    var srv: Server
    /** The server after every request that went through. */
    ghost var trace: seq<Server>
    /** The entries these requests have put into the change feed, still without numbers. */
    ghost var log: seq<Change>
    /** Paths for which it has refused to create, update or delete. That is a failure for which
        the reason lies in its state, and not in the network. */
    ghost var refused: seq<Path>
    /** The conflict copies it has stored. */
    ghost var copies: seq<KeptCopy>

    constructor (hash: Bytes -> string, calm: bool, srv: Server)
      ensures this.hash == hash && this.calm == calm && this.srv == srv && trace == [] && log == []
      ensures refused == [] && copies == []
    {
      this.hash, this.calm, this.srv := hash, calm, srv;
      trace, log, refused, copies := [], [], [], [];
    }

    /** EnsureDir is idempotent. */
    method EnsureDir(path: Path) returns (ok: bool, id: NodeID, version: int)
      requires ServerOk(srv)
      modifies this`srv, this`trace, this`log, this`refused
      ensures ServerOk(srv)
      ensures !ok ==> srv == old(srv) && trace == old(trace) && log == old(log)
      ensures ok ==> trace == old(trace) + [srv]
      ensures ok ==> path in srv.meta && srv.meta[path] == Meta(id, version)
      ensures ok ==>
        || (path in old(srv).meta && old(srv).tree[path] == Folder && srv == old(srv) && id == srv.meta[path].id
            && log == old(log))
        || Performed(hash, old(srv), srv, old(log), log, Create(path, Folder, id, version))
      ensures refused == old(refused) || refused == old(refused) + [path]
      ensures refused != old(refused) ==> !ok && (!FreeSlot(srv.tree, path) || Ignored(path))
      ensures calm && !ok ==> refused != old(refused)
    {
      ok, id, version := false, "", 0;
      var down: bool := *;
      if down && !calm { return; }
      if path in srv.meta && srv.tree[path] == Folder {
        id, version := srv.meta[path].id, srv.meta[path].version;
        trace := trace + [srv];
        return true, id, version;
      }
      if !(path != [] && path !in srv.tree && Parent(path) in srv.tree && srv.tree[Parent(path)] == Folder
           && !Ignored(path)) {
        refused := refused + [path];
        return false, id, version;
      }
      FreshID(srv.meta);
      id :| UnusedID(srv.meta, id);
      version := *;
      AfterIsOk(srv, Create(path, Folder, id, version));
      log := log + BlockOf(hash, srv, Create(path, Folder, id, version));
      srv := Server(srv.tree[path := Folder], srv.meta[path := Meta(id, version)]);
      trace := trace + [srv];
      ok := true;
    }

    /** PushFile: a matching base version updates, a free name creates, anything else keeps the
        server's file and stores the bytes as a conflict copy beside it. */
    method PushFile(path: Path, base: Option<int>, data: Bytes)
        returns (ok: bool, id: NodeID, version: int, conflicted: bool, ghost copy: Path)
      requires ServerOk(srv)
      modifies this
      ensures ServerOk(srv)
      ensures !ok ==> srv == old(srv) && trace == old(trace) && log == old(log)
      ensures ok ==> trace == old(trace) + [srv]
      ensures ok && !conflicted ==>
        || (&& path in old(srv).meta && path in old(srv).tree && old(srv).tree[path] != Folder
            && base == Some(old(srv).meta[path].version)
            && Performed(hash, old(srv), srv, old(log), log, Update(path, data, version))
            && id == old(srv).meta[path].id)
        || Performed(hash, old(srv), srv, old(log), log, Create(path, Regular(data), id, version))
      ensures ok && conflicted ==>
        && path in old(srv).meta && path in old(srv).tree && base != Some(old(srv).meta[path].version)
        && Performed(hash, old(srv), srv, old(log), log, Create(copy, Regular(data), id, version))
        && Parent(copy) == Parent(path)
      ensures copies == if ok && conflicted then old(copies) + [KeptCopy(path, copy)] else old(copies)
      ensures refused == old(refused) || refused == old(refused) + [path]
      ensures refused != old(refused) ==>
        !ok && (Ignored(path) || (!FreeSlot(srv.tree, path) && !(path in srv.meta && srv.tree[path] != Folder)))
      ensures calm && !ok ==> refused != old(refused)
    {
      ok, id, version, conflicted, copy := false, "", 0, false, path;
      var down: bool := *;
      if down && !calm { return; }
      var target := path;
      version := *;
      if path in srv.meta && srv.tree[path] != Folder {
        if base == Some(srv.meta[path].version) {
          AfterIsOk(srv, Update(path, data, version));
          log := log + BlockOf(hash, srv, Update(path, data, version));
          id := srv.meta[path].id;
          srv := Server(srv.tree[path := Regular(data)], srv.meta[path := Meta(id, version)]);
          trace := trace + [srv];
          ok := true;
          return;
        }
        FreshName(srv.tree, Parent(path));
        var name: string :| Parent(path) + [name] !in srv.tree && !Ignored(Parent(path) + [name]);
        target := Parent(path) + [name];
        ParentOfChild(Parent(path), name);
        conflicted, copy := true, target;
      } else if !(path != [] && path !in srv.tree && Parent(path) in srv.tree && srv.tree[Parent(path)] == Folder
          && !Ignored(path)) {
        refused := refused + [path];
        return;
      }
      FreshID(srv.meta);
      id :| UnusedID(srv.meta, id);
      assert Parent(target) == Parent(path) && Parent(path) in srv.tree && srv.tree[Parent(path)] == Folder;
      AfterIsOk(srv, Create(target, Regular(data), id, version));
      log := log + BlockOf(hash, srv, Create(target, Regular(data), id, version));
      srv := Server(srv.tree[target := Regular(data)], srv.meta[target := Meta(id, version)]);
      trace := trace + [srv];
      if conflicted { copies := copies + [KeptCopy(path, copy)]; }
      ok := true;
    }

    /** The node with the given id goes to another path, if that is free. */
    method Relocate(id: NodeID, from: Path, to: Path) returns (ok: bool, ghost op: Op)
      requires ServerOk(srv) && from in srv.meta && srv.meta[from].id == id
      modifies this`srv, this`trace, this`log
      ensures ServerOk(srv)
      ensures !ok ==> srv == old(srv) && trace == old(trace) && log == old(log)
      ensures ok ==> trace == old(trace) + [srv] && op.Move? && op.from == from && op.to == to
      ensures ok ==> Performed(hash, old(srv), srv, old(log), log, op)
      ensures CanMove(old(srv), from, to) ==> ok
    {
      op := Delete(from, [], 0);
      ok := false;
      if to == [] || to in srv.tree || Ignored(to) || Within(from, to) { return; }
      if Parent(to) !in srv.tree || srv.tree[Parent(to)] != Folder { return; }
      var bumped: map<Path, int> := *;
      var versions := map q | q in srv.tree && Within(from, q) :: if q in bumped then bumped[q] else 0;
      ghost var order := Listing(srv.tree, from);
      op := Move(from, to, order, versions);
      AfterIsOk(srv, op);
      log := log + BlockOf(hash, srv, op);
      var t := Moved(srv.tree, from, to);
      srv := Server(t, map r | r in t && r != [] ::
        if Within(to, r)
        then Meta(srv.meta[Back(r, from, to)].id, versions[Back(r, from, to)])
        else srv.meta[r]);
      trace := trace + [srv];
      ok := true;
    }

    /** MoveNode keeps the name and changes the folder; no parent id means the root. */
    method MoveNode(id: NodeID, parentID: Option<NodeID>) returns (ok: bool, ghost op: Op, ghost newParent: Path)
      requires ServerOk(srv)
      modifies this`srv, this`trace, this`log
      ensures ServerOk(srv)
      ensures !ok ==> srv == old(srv) && trace == old(trace) && log == old(log)
      ensures ok ==> trace == old(trace) + [srv] && op.Move? && Performed(hash, old(srv), srv, old(log), log, op)
      ensures ok ==>
                && op.from in old(srv).meta && op.from != [] && old(srv).meta[op.from].id == id
                && op.to == newParent + [Base(op.from)]
      ensures ok ==> match parentID
                     case None => newParent == []
                     case Some(at) => newParent in old(srv).meta && old(srv).meta[newParent].id == at
      ensures forall from, at {:trigger CanMove(old(srv), from, at + [Base(from)])} ::
                (calm && from in old(srv).meta && from != [] && old(srv).meta[from].id == id
                 && IsFolderID(old(srv), parentID, at) && CanMove(old(srv), from, at + [Base(from)])) ==> ok
    {
      op, newParent := Delete([], [], 0), [];
      ok := false;
      var down: bool := *;
      if down && !calm { return; }
      if from :| from in srv.meta && srv.meta[from].id == id {
        if parentID == None {
          ok, op := Relocate(id, from, [Base(from)]);
          assert [Base(from)] == [] + [Base(from)];
        } else if at :| at in srv.meta && srv.meta[at].id == parentID.value {
          newParent := at;
          ok, op := Relocate(id, from, at + [Base(from)]);
        }
      }
    }

    /** RenameNode keeps the folder and changes the name. */
    method RenameNode(id: NodeID, newName: string) returns (ok: bool, ghost op: Op)
      requires ServerOk(srv)
      modifies this`srv, this`trace, this`log
      ensures ServerOk(srv)
      ensures !ok ==> srv == old(srv) && trace == old(trace) && log == old(log)
      ensures ok ==> trace == old(trace) + [srv] && op.Move? && Performed(hash, old(srv), srv, old(log), log, op)
      ensures ok ==>
                && op.from in old(srv).meta && op.from != [] && old(srv).meta[op.from].id == id
                && op.to == Parent(op.from) + [newName]
      ensures forall from {:trigger CanMove(old(srv), from, Parent(from) + [newName])} ::
                (calm && from in old(srv).meta && from != [] && old(srv).meta[from].id == id
                 && CanMove(old(srv), from, Parent(from) + [newName])) ==> ok
    {
      op := Delete([], [], 0);
      ok := false;
      var down: bool := *;
      if down && !calm { return; }
      if from :| from in srv.meta && srv.meta[from].id == id {
        ok, op := Relocate(id, from, Parent(from) + [newName]);
      }
    }

    /** DeleteRemote removes the node and everything below it. */
    method DeleteRemote(path: Path) returns (ok: bool, ghost op: Op)
      requires ServerOk(srv)
      modifies this`srv, this`trace, this`log, this`refused
      ensures ServerOk(srv)
      ensures !ok ==> srv == old(srv) && trace == old(trace) && log == old(log)
      ensures ok ==> trace == old(trace) + [srv] && op.Delete? && op.path == path
      ensures ok ==> Performed(hash, old(srv), srv, old(log), log, op)
      ensures refused == old(refused) || refused == old(refused) + [path]
      ensures refused != old(refused) ==> !ok && path !in srv.meta
      ensures calm && !ok ==> refused != old(refused)
    {
      op := Delete([], [], 0);
      ok := false;
      var down: bool := *;
      if down && !calm { return; }
      if path !in srv.meta {
        refused := refused + [path];
        return false, op;
      }
      ghost var order := Listing(srv.tree, path);
      op := Delete(path, order, 0);
      AfterIsOk(srv, op);
      log := log + BlockOf(hash, srv, op);
      srv := Server(RemoveAll(srv.tree, path), map q | q in srv.meta && !Within(path, q) :: srv.meta[q]);
      trace := trace + [srv];
      ok := true;
    }
  }
}
