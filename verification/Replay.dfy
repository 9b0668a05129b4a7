/**
 Reading an incremental index back: its entries, in the order `_by_path` puts them in, applied to the
 tree of the index before it. A created directory brings its whole current subtree; the root directory
 is always written. Module IndexChain adds the dirty flags that decide about attributes.
 */
module Replay {
  import opened Paths
  import opened Journal
  import opened Session

  datatype Found = Missing | There(n: Node)

  function Lookup(t: Tree, x: Path): Found { if x in t then There(t[x]) else Missing }

  /** Replacing the subtree at p by that of t. */
  function Replace(t: Tree, r: Tree, p: Path): Tree {
    map x | x in r.Keys + t.Keys && (if Under(x, p) then x in t else x in r) :: if Under(x, p) then t[x] else r[x]
  }

  function Apply(t: Tree, r: Tree, e: Entry): Tree {
    if e.IsDelete() then Prune(r, e.path)
    else if e.path !in t then r
    else if e.reason.Create? && t[e.path].isdir then Replace(t, r, e.path)
    else r[e.path := t[e.path]]
  }

  function Applied(t: Tree, r: Tree, es: seq<Entry>): Tree {
    if es == [] then r else Apply(t, Applied(t, r, es[..|es| - 1]), es[|es| - 1])
  }

  /** The tree a reader of the incremental index arrives at. */
  function Result(s: State, es: seq<Entry>): Tree
    requires [] in s.t
  {
    Applied(s.t, s.t0, es)[[] := s.t[[]]]
  }

  /** `_by_path` */
  function ByPath(a: Entry, b: Entry): int {
    if Less(Str(a.path), Str(b.path)) then -1
    else if Less(Str(b.path), Str(a.path)) then 1
    else if a.IsDelete() != b.IsDelete() then if a.IsDelete() then -1 else 1
    else if a.uid > b.uid then 1 else -1
  }

  /** The journal, sorted. */
  ghost predicate SortOf(es: seq<Entry>, log: Log) {
    && (forall e :: e in es <==> e in log.entries)
    && (forall i, j :: 0 <= i < j < |es| ==> ByPath(es[i], es[j]) <= 0)
  }

  predicate Affects(t: Tree, e: Entry, x: Path) {
    if e.IsDelete() then Under(x, e.path)
    else e.path in t && if e.reason.Create? && t[e.path].isdir then Under(x, e.path) else x == e.path
  }

  lemma ApplyAt(t: Tree, r: Tree, e: Entry, x: Path)
    ensures Lookup(Apply(t, r, e), x) ==
            if !Affects(t, e, x) then Lookup(r, x) else if e.IsDelete() then Missing else Lookup(t, x)
  {
    hide Under;
  }

  /** The last entry that affects a path decides. */
  lemma {:induction false} AppliedAt(t: Tree, r: Tree, es: seq<Entry>, x: Path) returns (k: int)
    ensures -1 <= k < |es| && forall j :: k < j < |es| ==> !Affects(t, es[j], x)
    ensures k >= 0 ==> Affects(t, es[k], x)
    ensures Lookup(Applied(t, r, es), x) ==
            if k < 0 then Lookup(r, x) else if es[k].IsDelete() then Missing else Lookup(t, x)
    decreases |es|
  {
    hide Affects, Apply, Lookup;
    if es == [] {
      k := -1;
    } else {
      var pre, e := es[..|es| - 1], es[|es| - 1];
      ApplyAt(t, Applied(t, r, pre), e, x);
      if Affects(t, e, x) {
        k := |es| - 1;
      } else {
        k := AppliedAt(t, r, pre, x);
      }
    }
  }

  /** A deletion comes before whatever is created or modified at or below its path. */
  lemma DeleteFirst(d: Entry, e: Entry)
    requires d.IsDelete() && !e.IsDelete() && Under(e.path, d.path)
    ensures ByPath(e, d) > 0
  {
    if e.path == d.path { LessIrreflexive(Str(e.path)); } else { ParentFirst(d.path, e.path); }
  }

  /** If no entry affects x, it is as it was. */
  lemma NoEntry(s: State, es: seq<Entry>, x: Path)
    requires Inv(s) && SortOf(es, s.log) && x != [] && forall j :: 0 <= j < |es| ==> !Affects(s.t, es[j], x)
    ensures Lookup(s.t0, x) == Lookup(s.t, x)
  {
    forall e | e in s.log.entries ensures !Affects(s.t, e, x) {
      var j :| 0 <= j < |es| && es[j] == e;
    }
    NotCovered(s, x);
    hide LogOk, Covered, Killed, Under, SortOf;
  }

  lemma NotCovered(s: State, x: Path)
    requires Inv(s) && forall e :: e in s.log.entries ==> !Affects(s.t, e, x)
    ensures !Covered(s.log, x) && !Killed(s.log.entries, x)
  {
    hide Newest, Unchanged, Noted, Original, Replaced, Alone, Under, Anchored;
    UnderSelf(x);
  }

  /** An entry that covers x comes after every deletion that reaches x. */
  lemma Coverer(s: State, d: Entry, x: Path) returns (e: Entry)
    requires Inv(s) && x in s.t && x != [] && d in s.log.entries && d.IsDelete() && Under(x, d.path)
    ensures e in s.log.entries && !e.IsDelete() && Affects(s.t, e, x) && Under(e.path, d.path)
  {
    KilledCovered(s, d, x);
    hide Newest, Unchanged, Noted, Original, Replaced, Under, Anchored;
    if HasAt(s.log.entries, x) {
      e :| e in s.log.entries && !e.IsDelete() && e.path == x;
    } else {
      var c :| c in s.log.created && Under(x, c);
      e :| e in s.log.entries && e.reason.Create? && e.path == c;
      Comparable(c, d.path, x);
      UnderSelf(c);
    }
  }

  lemma KilledCovered(s: State, d: Entry, x: Path)
    requires Inv(s) && x in s.t && x != [] && d in s.log.entries && d.IsDelete() && Under(x, d.path)
    ensures Covered(s.log, x)
  {
    hide LogOk, Covered, Under;
    assert Killed(s.log.entries, x);
  }

  lemma ReplayAt(s: State, es: seq<Entry>, x: Path)
    requires Inv(s) && SortOf(es, s.log) && x != []
    ensures Lookup(Applied(s.t, s.t0, es), x) == Lookup(s.t, x)
  {
    hide Inv, Affects, Under;
    var k := AppliedAt(s.t, s.t0, es, x);
    if k < 0 {
      NoEntry(s, es, x);
    } else if es[k].IsDelete() && x in s.t {
      LastIsNoDelete(s, es, k, x);
    }
  }

  lemma LastIsNoDelete(s: State, es: seq<Entry>, k: nat, x: Path)
    requires Inv(s) && SortOf(es, s.log) && x != [] && x in s.t && k < |es| && Affects(s.t, es[k], x)
    requires forall j :: k < j < |es| ==> !Affects(s.t, es[j], x)
    ensures !es[k].IsDelete()
  {
    if es[k].IsDelete() {
      var e := Coverer(s, es[k], x);
      hide Inv, Affects, Under;
      var m :| 0 <= m < |es| && es[m] == e;
      DeleteFirst(es[k], e);
    }
  }

  ghost predicate Faithful(s: State, es: seq<Entry>) { [] in s.t && Result(s, es) == s.t }

  /** Whatever the session did, the incremental index leads from the old tree to the new one. */
  lemma ReplayIsCurrent(s: State, es: seq<Entry>)
    requires Inv(s) && SortOf(es, s.log)
    ensures Faithful(s, es)
  {
    var r := Applied(s.t, s.t0, es);
    forall x | x != [] ensures Lookup(r, x) == Lookup(s.t, x) { ReplayAt(s, es, x); }
    hide Applied, LogOk, Unchanged, Noted;
    forall x ensures Lookup(r[[] := s.t[[]]], x) == Lookup(s.t, x) { }
    assert forall x :: x in r[[] := s.t[[]]] <==> x in s.t by {
      forall x ensures x in r[[] := s.t[[]]] <==> x in s.t { assert Lookup(r[[] := s.t[[]]], x) == Lookup(s.t, x); }
    }
    assert forall x :: x in s.t ==> r[[] := s.t[[]]][x] == s.t[x] by {
      forall x | x in s.t ensures r[[] := s.t[[]]][x] == s.t[x] {
        assert Lookup(r[[] := s.t[[]]], x) == Lookup(s.t, x);
      }
    }
  }

  // ----- exactly when removing a directory keeps the journal faithful

  /** No deletion above a created directory reaches it. */
  lemma CreatedNotKilled(s: State, p: Path, d: Entry)
    requires Inv(s) && p in s.log.created && d in s.log.entries && d.IsDelete() && Under(p, d.path)
    ensures d.path == p
  {
    CreatedAntichain(s);
    CreatedIn(s, p);
    if d.path != p {
      var q := d.path;
      AncestorIsDir(s.t, q, p);
      UnderSelf(q);
      DeleteNotRoot(s, d);
      var e := Coverer(s, d, q);
      CovererIsCreated(s, d, e, q);
      hide Inv, Affects, Under;
      UnderTrans(p, q, e.path);
      UnderBoth(p, q);
    }
  }

  lemma CreatedIn(s: State, p: Path)
    requires Inv(s) && p in s.log.created
    ensures TreeOk(s.t) && p in s.t && s.t[p].isdir
  {
    hide Newest;
  }

  lemma DeleteNotRoot(s: State, d: Entry)
    requires Inv(s) && d in s.log.entries
    ensures d.path != []
  {
    hide Newest;
  }

  /** What covers a directory that was deleted is the CREATE entry of a directory at or above it. */
  lemma CovererIsCreated(s: State, d: Entry, e: Entry, q: Path)
    requires Inv(s) && d in s.log.entries && d.IsDelete() && d.path == q && q in s.t && s.t[q].isdir
    requires e in s.log.entries && !e.IsDelete() && Affects(s.t, e, q)
    ensures e.path in s.log.created && Under(q, e.path)
  {
    hide Newest, Unchanged, Noted, Replaced, Alone, Under, Anchored;
    UnderSelf(q);
    assert !e.reason.Modify?;
  }

  /** After the removal of a directory that had returned, nothing speaks of it any more. */
  lemma ReturnedIsLost(s: State, p: Path, e: Entry)
    requires Inv(s) && p in s.t && p != [] && Returned(s, p) && e in Removed(s, p).entries
    ensures !Affects(Detach(s, p).t, e, p)
  {
    CreatedAntichain(s);
    SweepIs(s.log.created, p);
    var u := s.t[p].uid;
    PurgeMembers(s.log.entries, p, u);
    DeletesOriginal(s);
    UnderSelf(p);
    SelfNotAbove(s.log.created, p);
    hide Inv, Under, Newest, Antichain;
    assert e in s.log.entries && Kept(e, p, u);
    if e.IsDelete() {
      if Under(p, e.path) { CreatedNotKilled(s, p, e); }
    } else if e.reason.Create? && e.path in s.t && s.t[e.path].isdir && Under(p, e.path) {
      CreatedThere(s, e);
      UnderBoth(p, e.path);
    }
  }

  lemma SelfNotAbove(created: seq<Path>, p: Path)
    requires Antichain(created) && p in created
    ensures !StrictlyAbove(created, p) && forall c :: c in created && Under(p, c) ==> c == p
  {
    hide Under;
  }

  lemma CreatedThere(s: State, e: Entry)
    requires Inv(s) && e in s.log.entries && e.reason.Create? && e.path in s.t && s.t[e.path].isdir
    ensures e.path in s.log.created
  {
    hide Newest, Under;
  }

  /** The directory that returned to its place comes back in the replay although it is gone. */
  lemma ReturnedResurfaces(s: State, p: Path, es: seq<Entry>)
    requires Inv(s) && p in s.t && p != [] && Returned(s, p) && SortOf(es, Detach(s, p).log)
    ensures p in Applied(Detach(s, p).t, s.t0, es) && p !in Detach(s, p).t
  {
    hide Inv, Affects, Removed;
    var t1 := Detach(s, p).t;
    forall j | 0 <= j < |es| ensures !Affects(t1, es[j], p) {
      assert es[j] in es;
      ReturnedIsLost(s, p, es[j]);
    }
    var k := AppliedAt(t1, s.t0, es, p);
    UnderSelf(p);
  }

  /** Removing an object keeps the journal faithful exactly if it is not a directory that has left its
      place of the last index in this session and returned to it. */
  lemma DetachExact(s: State, p: Path, es: seq<Entry>)
    requires Inv(s) && p in s.t && p != [] && SortOf(es, Detach(s, p).log)
    ensures Faithful(Detach(s, p), es) <==> !Returned(s, p)
  {
    hide Inv, Applied, Removed;
    if Returned(s, p) {
      ReturnedResurfaces(s, p, es);
    } else {
      DetachInv(s, p);
      ReplayIsCurrent(Detach(s, p), es);
    }
  }

  /** A directory is renamed, renamed back and removed: the incremental index is empty, and the directory
      stays. */
  lemma RenamedBackAndRemoved()
    ensures var a, b, root, dir := ["a"], ["b"], Node(0, true, 0), Node(1, true, 0);
            var t := map[[] := root, a := dir];
            var s1 := Detach(State(t, t, Log([], []), {}), a);
            var s2 := Attach(s1, b, map[[] := root, b := dir]);
            var s3 := Detach(s2, b);
            var s4 := Attach(s3, a, t);
            var s5 := Detach(s4, a);
            s5.log.entries == [] && a !in s5.t && a in Result(s5, [])
  {
    var a, b, root, dir := ["a"], ["b"], Node(0, true, 0), Node(1, true, 0);
    var t, t2 := map[[] := root, a := dir], map[[] := root, b := dir];
    assert !Under(a, b) && !Under(b, a) && Under(a, a) && Under(b, b) by { assert a[0] != b[0]; }
    assert Parent(a) == Parent(b) == [];
    var c, d, e := Entry(Create, b, 1), Entry(DeleteDir, a, 1), Entry(Create, a, 1);
    PurgeTwo(c, d, b, 1);
    PurgeTwo(e, d, a, 1);
    SweepOne(b);
    SweepOne(a);
    hide Under;
    var s1 := Detach(State(t, t, Log([], []), {}), a);
    assert s1.log == Log([d], []);
    hide Purge, Sweep;
    var s2 := Attach(s1, b, t2);
    assert s2.log == Log([c, d], [b]);
    var s3 := Detach(s2, b);
    assert s3.log == Log([d], []);
    var s4 := Attach(s3, a, t);
    assert s4.log == Log([e, d], [a]);
    var s5 := Detach(s4, a);
    assert s5.log == Log([], []);
  }

  lemma PurgeTwo(x: Entry, y: Entry, p: Path, u: nat)
    ensures Purge([x, y], p, u) == (if Kept(x, p, u) then [x] else []) + (if Kept(y, p, u) then [y] else [])
  {
    hide Kept;
    assert [x, y][1..] == [y] && [y][1..] == [];
    assert Purge([y], p, u) == (if Kept(y, p, u) then [y] else []) + [];
  }

  lemma SweepOne(p: Path)
    ensures Sweep([p], p) == Swept([], true, false)
  {
    assert [p][1..] == [];
  }
}
