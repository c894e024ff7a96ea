/** detect.go: scanning the folder and comparing it with the index. */
module Detect {
  import opened FileSystem
  import opened SyncTypes
  import opened LocalChanges

  /** The report is complete and exact as far as the paths of `scope` are concerned. */
  ghost predicate ReportsOn(changes: seq<LocalChange>, hash: Bytes -> string, disk: Tree, known: map<Path, Row>,
                            scope: set<Path>) {
    && (forall i :: 0 <= i < |changes| ==>
          changes[i].relPath in scope && DiffAt(hash, disk, known, changes[i].relPath) == Some(changes[i]))
    && (forall i, j :: 0 <= i < j < |changes| ==> changes[i].relPath != changes[j].relPath)
    && (forall p {:trigger DiffAt(hash, disk, known, p)} :: p in scope && DiffAt(hash, disk, known, p).Some? ==>
          exists i :: 0 <= i < |changes| && changes[i].relPath == p)
  }

  lemma OnePathMore(changes: seq<LocalChange>, hash: Bytes -> string, disk: Tree, known: map<Path, Row>,
                    scope: set<Path>, p: Path)
    requires ReportsOn(changes, hash, disk, known, scope) && p !in scope
    ensures match DiffAt(hash, disk, known, p)
            case None => ReportsOn(changes, hash, disk, known, scope + {p})
            case Some(c) => ReportsOn(changes + [c], hash, disk, known, scope + {p})
  {
    hide DiffAt;
    if DiffAt(hash, disk, known, p).Some? {
      var c := DiffAt(hash, disk, known, p).value;
      DiffHasItsPath(hash, disk, known, p);
      var longer := changes + [c];
      forall q | q in scope + {p} && DiffAt(hash, disk, known, q).Some?
        ensures exists i :: 0 <= i < |longer| && longer[i].relPath == q
      {
        if q == p {
          assert longer[|changes|].relPath == q;
        } else {
          var i :| 0 <= i < |changes| && changes[i].relPath == q;
          assert longer[i].relPath == q;
        }
      }
    }
  }

  lemma DiffHasItsPath(hash: Bytes -> string, disk: Tree, known: map<Path, Row>, p: Path)
    requires DiffAt(hash, disk, known, p).Some?
    ensures DiffAt(hash, disk, known, p).value.relPath == p
  {
  }

  /** Where the report covers every visible and every known path it is the whole report. */
  lemma ReportIsComplete(changes: seq<LocalChange>, hash: Bytes -> string, disk: Tree, known: map<Path, Row>,
                         scope: set<Path>)
    requires ReportsOn(changes, hash, disk, known, scope)
    requires forall p {:trigger p in scope} :: (p in Visible(disk) && p != []) || p in known ==> p in scope
    ensures Reports(changes, hash, disk, known)
  {
    forall p | DiffAt(hash, disk, known, p).Some?
      ensures exists i :: 0 <= i < |changes| && changes[i].relPath == p
    {
      assert p in scope;
    }
  }

  /** The first loop of DetectLocal: the index by path. */
  method KeyByPath(index: Index) returns (byPath: map<Path, Row>)
    ensures UniquePaths(index) ==> KeyedByPath(index, byPath)
  {
    byPath := map[];
    var rest := index.Keys;
    while rest != {}
      invariant rest <= index.Keys
      invariant UniquePaths(index) ==>
        forall id {:trigger index[id]} :: id in index && id !in rest ==>
            index[id].path in byPath && byPath[index[id].path] == index[id]
      invariant forall p {:trigger p in byPath} :: p in byPath ==> exists id :: id in index && index[id].path == p
      decreases |rest|
    {
      var id :| id in rest;
      byPath := byPath[index[id].path := index[id]];
      rest := rest - {id};
    }
  }

  /** The walk over the folder, in whatever order. It can fail on an unreadable entry. */
  method Walk(hash: Bytes -> string, disk: Tree, byPath: map<Path, Row>, calm: bool)
      returns (ok: bool, seen: set<Path>, out: seq<LocalChange>)
    ensures calm ==> ok
    ensures ok ==> ReportsOn(out, hash, disk, byPath, seen)
    ensures ok ==> forall p {:trigger p in seen} :: p in seen <==> p in Visible(disk) && p != []
  {
    hide ReportsOn;
    seen, out := {}, [];
    NothingReportedYet(hash, disk, byPath);
    var rest := disk.Keys;
    while rest != {}
      invariant rest <= disk.Keys
      invariant ReportsOn(out, hash, disk, byPath, seen)
      invariant forall p {:trigger p in seen} :: p in seen <==> p in Visible(disk) && p != [] && p !in rest
      decreases |rest|
    {
      var p :| p in rest;
      rest := rest - {p};
      if p != [] && !IsTmp(Base(p)) && !IsOSJunk(Base(p)) {
        OnePathMore(out, hash, disk, byPath, seen, p);
        seen := seen + {p};
        match disk[p] {
          case Folder =>
            if p !in byPath {
              out := out + [LocalChange(CreateOp, p, [], true, "", 0)];
            }
          case Regular(data) =>
            var unreadable: bool := *;
            if unreadable && !calm { return false, seen, out; }
            var h := hash(data);
            if p !in byPath {
              out := out + [LocalChange(CreateOp, p, [], false, h, |data|)];
            } else if byPath[p].hash != h {
              out := out + [LocalChange(UpdateOp, p, [], false, h, |data|)];
            }
        }
      }
    }
    ok := true;
  }

  lemma NothingReportedYet(hash: Bytes -> string, disk: Tree, known: map<Path, Row>)
    ensures ReportsOn([], hash, disk, known, {})
  {
  }

  /** DetectLocal. When no two rows share a path the result is the exact report: every
      differing path once, with the change that describes it, and no other. */
  method DetectLocal(hash: Bytes -> string, disk: Tree, index: Index, calm: bool)
      returns (ok: bool, out: seq<LocalChange>, ghost known: map<Path, Row>)
    ensures calm ==> ok
    ensures ok && UniquePaths(index) ==> KeyedByPath(index, known) && Reports(out, hash, disk, known)
  {
    hide ReportsOn, Reports;
    var byPath := KeyByPath(index);
    known := byPath;
    var seen;
    ok, seen, out := Walk(hash, disk, byPath, calm);
    if !ok { return; }
    ghost var scope := seen;
    var rest := index.Keys;
    while rest != {}
      invariant rest <= index.Keys
      invariant seen <= scope
      invariant UniquePaths(index) ==> ReportsOn(out, hash, disk, known, scope)
      invariant forall id {:trigger id in rest} :: id in index && id !in rest ==> index[id].path in scope
      invariant UniquePaths(index) ==> forall id {:trigger id in rest} :: id in rest && index[id].path in scope ==>
                  index[id].path in seen
      decreases |rest|
    {
      var id :| id in rest;
      rest := rest - {id};
      var n := index[id];
      if n.path !in seen {
        if UniquePaths(index) {
          assert n.path !in scope;
          OnePathMore(out, hash, disk, known, scope, n.path);
          assert known[n.path] == n;
        }
        scope := scope + {n.path};
        out := out + [LocalChange(DeleteOp, n.path, [], n.isDir, n.hash, n.size)];
      }
    }
    if UniquePaths(index) {
      ReportIsComplete(out, hash, disk, known, scope) by {
        forall p | p in known
          ensures p in scope
        {
          var id :| id in index && index[id].path == p;
          assert id !in rest;
        }
      }
    }
  }
}
