/**
 The incremental journal (src/libltfs/inc_journal.c): a log of the tree edits since the last index,
 compressed as it is written. Lookup of a key finds the newest entry, so the log is kept newest first.
 */
module Journal {
  import opened Paths

  /** enum journal_reason */
  datatype Reason = Create | Modify | DeleteFile | DeleteDir

  datatype Entry = Entry(reason: Reason, path: Path, uid: nat) {
    predicate IsDelete() { reason.DeleteFile? || reason.DeleteDir? }
  }

  /** vol->journal and vol->created_dirs */
  datatype Log = Log(entries: seq<Entry>, created: seq<Path>)

  predicate Above(created: seq<Path>, p: Path) { exists c :: c in created && Under(p, c) }

  /** `_find_jentry`: position of the newest entry of a path and uid, or the length of the log. */
  function Find(es: seq<Entry>, p: Path, u: nat): (i: nat)
    ensures i <= |es| && (i < |es| ==> es[i].path == p && es[i].uid == u)
    ensures forall j :: 0 <= j < i ==> es[j].path != p || es[j].uid != u
  {
    if es == [] then 0
    else if es[0].path == p && es[0].uid == u then 0
    else
      var r := Find(es[1..], p, u);
      assert forall j :: 1 <= j < r + 1 ==> es[j] == es[1..][j - 1];
      r + 1
  }

  function Created(log: Log, p: Path, u: nat, isdir: bool): Log
    requires p != []
  {
    if Above(log.created, Parent(p)) then log
    else Log([Entry(Create, p, u)] + log.entries, if isdir then log.created + [p] else log.created)
  }

  function Modified(log: Log, p: Path, u: nat): Log {
    if Find(log.entries, p, u) < |log.entries| || Above(log.created, p) then log
    else log.(entries := [Entry(Modify, p, u)] + log.entries)
  }

  function FileRemoved(log: Log, p: Path, u: nat): Log {
    var es, i := log.entries, Find(log.entries, p, u);
    if i < |es| && es[i].reason.Create? then log.(entries := es[..i] + es[i + 1..])
    else if i < |es| && es[i].reason.Modify? then log.(entries := es[i := es[i].(reason := DeleteFile)])
    else if Above(log.created, p) then log
    else log.(entries := [Entry(DeleteFile, p, u)] + es)
  }

  /** The first loop of `incj_rmdir`: created directories at or under p are dropped; an ancestor of p
      stops it. */
  datatype Swept = Swept(created: seq<Path>, self: bool, stop: bool)

  function Sweep(created: seq<Path>, p: Path): Swept {
    if created == [] then Swept([], false, false)
    else if Under(created[0], p) then
      var r := Sweep(created[1..], p);
      r.(self := r.self || created[0] == p)
    else if Under(p, created[0]) then Swept(created, false, true)
    else
      var r := Sweep(created[1..], p);
      r.(created := [created[0]] + r.created)
  }

  /** The second loop keeps an entry that is not at or under p, and the deletion of another object that
      had this very path before. */
  predicate Kept(e: Entry, p: Path, u: nat) {
    !(Under(e.path, p)) || (e.uid != u && e.path == p && e.IsDelete())
  }

  function Purge(es: seq<Entry>, p: Path, u: nat): seq<Entry> {
    if es == [] then [] else (if Kept(es[0], p, u) then [es[0]] else []) + Purge(es[1..], p, u)
  }

  function DirRemoved(log: Log, p: Path, u: nat): Log {
    var s := Sweep(log.created, p);
    if s.stop then log.(created := s.created)
    else
      var es := Purge(log.entries, p, u);
      Log(if s.self then es else [Entry(DeleteDir, p, u)] + es, s.created)
  }

  // ----- the same in place

  method SweepCreated(created: seq<Path>, p: Path) returns (s: Swept)
    ensures s == Sweep(created, p)
  {
    var kept, self := [], false;
    assert created[0..] == created;
    for i := 0 to |created|
      invariant var r := Sweep(created[i..], p); Sweep(created, p) == Swept(kept + r.created, self || r.self, r.stop)
    {
      assert created[i..][1..] == created[i + 1..];
      if Under(created[i], p) {
        self := self || created[i] == p;
      } else if Under(p, created[i]) {
        return Swept(kept + created[i..], self, true);
      } else {
        kept := kept + [created[i]];
      }
    }
    s := Swept(kept, self, false);
  }

  method PurgeEntries(es: seq<Entry>, p: Path, u: nat) returns (r: seq<Entry>)
    ensures r == Purge(es, p, u)
  {
    r := [];
    assert es[0..] == es;
    for k := 0 to |es|
      invariant r + Purge(es[k..], p, u) == Purge(es, p, u)
    {
      assert es[k..][1..] == es[k + 1..];
      if Kept(es[k], p, u) { r := r + [es[k]]; }
    }
  }

  class Volume {
    var journal: seq<Entry>
    var createdDirs: seq<Path>

    function State(): Log reads this { Log(journal, createdDirs) }

    method FindAbove(p: Path) returns (found: bool)
      ensures found == Above(createdDirs, p)
    {
      for i := 0 to |createdDirs|
        invariant forall j :: 0 <= j < i ==> !(createdDirs[j] <= p)
      {
        if Under(p, createdDirs[i]) {
          assert createdDirs[i] in createdDirs;
          return true;
        }
      }
      return false;
    }

    /** `incj_create` */
    method IncjCreate(ppath: Path, name: string, uid: nat, isdir: bool)
      modifies this
      ensures State() == Created(old(State()), ppath + [name], uid, isdir)
    {
      assert Parent(ppath + [name]) == ppath;
      var skip := FindAbove(ppath);
      if skip { return; }
      journal := [Entry(Create, ppath + [name], uid)] + journal;
      if isdir { createdDirs := createdDirs + [ppath + [name]]; }
    }

    /** `incj_modify` */
    method IncjModify(path: Path, uid: nat)
      modifies this
      ensures State() == Modified(old(State()), path, uid)
    {
      if Find(journal, path, uid) < |journal| { return; }
      var skip := FindAbove(path);
      if skip { return; }
      journal := [Entry(Modify, path, uid)] + journal;
    }

    /** `incj_rmfile` */
    method IncjRmfile(path: Path, uid: nat)
      modifies this
      ensures State() == FileRemoved(old(State()), path, uid)
    {
      var i := Find(journal, path, uid);
      if i < |journal| {
        if journal[i].reason.Create? {
          journal := journal[..i] + journal[i + 1..];
          return;
        } else if journal[i].reason.Modify? {
          journal := journal[i := journal[i].(reason := DeleteFile)];
          return;
        }
      }
      var skip := FindAbove(path);
      if skip { return; }
      journal := [Entry(DeleteFile, path, uid)] + journal;
    }

    /** `incj_rmdir` */
    method IncjRmdir(path: Path, uid: nat)
      modifies this
      ensures State() == DirRemoved(old(State()), path, uid)
    {
      var s := SweepCreated(createdDirs, path);
      createdDirs := s.created;
      if s.stop { return; }
      journal := PurgeEntries(journal, path, uid);
      if s.self { return; }
      journal := [Entry(DeleteDir, path, uid)] + journal;
    }

    /** `incj_clear` */
    method IncjClear()
      modifies this
      ensures State() == Log([], [])
    {
      journal, createdDirs := [], [];
    }
  }
}
