/**
 The directory tree and the journal together, from one index to the next: every edit of
 src/libltfs/ltfs_fsops.c as the steps it takes, and the invariant that ties the journal to the two
 trees.
 */
module Session {
  import opened Paths
  import opened Journal

  /** A dentry: its uid, whether it is a directory, and a number that stands for everything else it
      records (times, attributes, extents). */
  datatype Node = Node(uid: nat, isdir: bool, ver: nat)

  type Tree = map<Path, Node>

  predicate TreeOk(t: Tree) {
    && [] in t && t[[]].isdir
    && (forall p :: p in t && p != [] ==> Parent(p) in t && t[Parent(p)].isdir)
    && (forall p, q :: p in t && q in t && t[p].uid == t[q].uid ==> p == q)
  }

  /** The tree without p and everything below it. */
  function Prune(t: Tree, p: Path): Tree { map x | x in t && !(Under(x, p)) :: t[x] }

  /** t1 is t with some subtree hung in at p. */
  ghost predicate Grafted(t: Tree, p: Path, t1: Tree) {
    && TreeOk(t1) && p != [] && p !in t && p in t1 && (forall x :: x in t ==> x in t1 && t1[x] == t[x])
    && (forall x :: x in t1 && !(Under(x, p)) ==> x in t)
  }

  /** The tree of the last index, the tree now, the journal, and the dentries whose dirty flag is set. */
  datatype State = State(t0: Tree, t: Tree, log: Log, dirty: set<nat>)

  // ----- what the journal says about a path

  ghost predicate HasAt(es: seq<Entry>, x: Path) { exists e :: e in es && !e.IsDelete() && e.path == x }

  ghost predicate Covered(log: Log, x: Path) { Above(log.created, x) || HasAt(log.entries, x) }

  ghost predicate Killed(es: seq<Entry>, x: Path) { exists e :: e in es && e.IsDelete() && Under(x, e.path) }

  ghost predicate IsCreated(es: seq<Entry>, c: Path) { exists e :: e in es && e.reason.Create? && e.path == c }

  // ----- the invariant

  /** Created and modified objects are in the tree, where the journal says. */
  ghost predicate Live(t: Tree, es: seq<Entry>) {
    forall e :: e in es && !e.IsDelete() ==> e.path in t && t[e.path].uid == e.uid
  }

  ghost predicate Anchored(t: Tree, es: seq<Entry>) {
    forall e :: e in es ==> e.path != [] && Parent(e.path) in t && t[Parent(e.path)].isdir
  }

  /** created_dirs is the list of the directories with a CREATE entry. */
  ghost predicate CreatedIs(t: Tree, log: Log) {
    forall c :: c in log.created <==> c in t && t[c].isdir && IsCreated(log.entries, c)
  }

  /** No entry lies strictly below a created directory. */
  ghost predicate Alone(log: Log) {
    forall e, c :: e in log.entries && c in log.created && Under(e.path, c) ==> c == e.path
  }

  /** Only the newest entry of a path and uid can be anything but a deletion. */
  ghost predicate Newest(es: seq<Entry>) {
    es != [] ==>
      (forall f :: f in es[1..] && f.path == es[0].path && f.uid == es[0].uid ==> f.IsDelete()) && Newest(es[1..])
  }

  /** Deletions and modifications are about objects of the last index. */
  ghost predicate Original(t0: Tree, es: seq<Entry>) {
    && (forall e :: e in es && !e.reason.Create? ==> e.path in t0 && t0[e.path].uid == e.uid)
    && (forall e, f :: e in es && f in es && e.reason.Modify? && f.IsDelete() ==> e.path != f.path)
  }

  /** A path that was in the last index is created again only after a deletion. */
  ghost predicate Replaced(t0: Tree, es: seq<Entry>) {
    forall e :: e in es && e.reason.Create? && e.path in t0 ==> Killed(es, e.path)
  }

  /** What the journal does not mention is as it was in the last index. */
  ghost predicate Unchanged(t0: Tree, t: Tree, log: Log) {
    && (forall x :: x in t && x != [] && !Covered(log, x) ==> !Killed(log.entries, x) && x in t0 && t0[x] == t[x])
    && (forall x :: x in t0 && x != [] && x !in t ==> Covered(log, x) || Killed(log.entries, x))
  }

  ghost predicate Noted(t: Tree, log: Log, dirty: set<nat>) {
    forall x :: x in t && x != [] && t[x].uid in dirty ==> Covered(log, x)
  }

  ghost predicate LogOk(t0: Tree, t: Tree, log: Log) {
    && Live(t, log.entries) && Anchored(t, log.entries) && CreatedIs(t, log) && Alone(log) && Newest(log.entries)
    && Original(t0, log.entries) && Replaced(t0, log.entries)
  }

  ghost predicate Inv(s: State) {
    && TreeOk(s.t0) && TreeOk(s.t) && LogOk(s.t0, s.t, s.log)
    && Unchanged(s.t0, s.t, s.log) && Noted(s.t, s.log, s.dirty)
  }

  lemma StartInv(t: Tree)
    requires TreeOk(t)
    ensures Inv(State(t, t, Log([], []), {}))
  {
  }

  // ----- trees

  lemma {:induction false} AncestorIsDir(t: Tree, p: Path, x: Path)
    requires TreeOk(t) && x in t && Under(x, p) && p != x
    ensures p in t && t[p].isdir
    decreases |x|
  {
    if p != Parent(x) { AncestorIsDir(t, p, Parent(x)); }
  }

  lemma AncestorIn(t: Tree, p: Path, x: Path)
    requires TreeOk(t) && x in t && Under(x, p)
    ensures p in t
  {
    if p != x { AncestorIsDir(t, p, x); }
  }

  lemma PruneOk(t: Tree, p: Path)
    requires TreeOk(t) && p != []
    ensures TreeOk(Prune(t, p))
  {
    var u := Prune(t, p);
    forall x | x in u && x != [] ensures Parent(x) in u && u[Parent(x)].isdir {
      UnderParent(x, p);
    }
  }

  // ----- detaching a subtree

  /** What the journal functions for removal have in common: u at p is gone. */
  ghost predicate Forgets(s: State, p: Path, log: Log)
    requires p in s.t
  {
    var es, es1, u := s.log.entries, log.entries, s.t[p].uid;
    && (forall e :: e in es1 && e !in es ==> e.IsDelete() && e.path == p && e.uid == u && p in s.t0 && s.t0[p].uid == u)
    && (forall e :: e in es && !(Under(e.path, p)) ==> e in es1)
    && (forall e :: e in es1 && Under(e.path, p) ==> e.path == p && e.IsDelete())
    && (forall c :: c in log.created <==> c in s.log.created && !(Under(c, p)))
    && ((exists e :: e in es1 && e !in es) ==> forall c :: c in log.created ==> !(Under(p, c)))
    && (p in s.t0 ==> Above(log.created, p) || Killed(es1, p))
    && Newest(es1)
  }

  lemma KilledStays(s: State, p: Path, log: Log, x: Path)
    requires p in s.t && Forgets(s, p, log) && !(Under(x, p))
    ensures Killed(log.entries, x) <==> Killed(s.log.entries, x)
  {
    hide Newest;
    if Killed(s.log.entries, x) {
      var e :| e in s.log.entries && e.IsDelete() && Under(x, e.path);
      assert e in log.entries;
    }
    if Killed(log.entries, x) {
      var e :| e in log.entries && e.IsDelete() && Under(x, e.path);
      assert e in s.log.entries;
    }
  }

  lemma CoveredStays(s: State, p: Path, log: Log, x: Path)
    requires p in s.t && Forgets(s, p, log) && !(Under(x, p))
    ensures Covered(log, x) <==> Covered(s.log, x)
  {
    hide Newest;
    if Above(s.log.created, x) {
      var c :| c in s.log.created && Under(x, c);
      assert c in log.created;
    } else if HasAt(s.log.entries, x) {
      var e :| e in s.log.entries && !e.IsDelete() && e.path == x;
      assert e in log.entries;
    }
    if HasAt(log.entries, x) {
      var e :| e in log.entries && !e.IsDelete() && e.path == x;
      assert e in s.log.entries;
    }
  }

  lemma DetachAnchored(s: State, p: Path, log: Log)
    requires Inv(s) && p in s.t && p != [] && Forgets(s, p, log)
    ensures Live(Prune(s.t, p), log.entries) && Anchored(Prune(s.t, p), log.entries) && Alone(log)
  {
    hide Newest;
    forall e | e in log.entries
      ensures e.path != [] && Parent(e.path) in Prune(s.t, p) && Prune(s.t, p)[Parent(e.path)].isdir
    {
      UnderParent(e.path, p);
    }
    forall e, c | e in log.entries && c in log.created && Under(e.path, c) ensures c == e.path { }
  }

  lemma DetachCreated(s: State, p: Path, log: Log)
    requires Inv(s) && p in s.t && p != [] && Forgets(s, p, log)
    ensures CreatedIs(Prune(s.t, p), log)
  {
    hide Newest;
    forall c ensures c in log.created <==> c in Prune(s.t, p) && Prune(s.t, p)[c].isdir && IsCreated(log.entries, c) {
      if !(Under(c, p)) {
        if IsCreated(s.log.entries, c) {
          var e :| e in s.log.entries && e.reason.Create? && e.path == c;
          assert e in log.entries;
        }
        if IsCreated(log.entries, c) {
          var e :| e in log.entries && e.reason.Create? && e.path == c;
          assert e in s.log.entries;
        }
      }
    }
  }

  lemma DetachOriginal(s: State, p: Path, log: Log)
    requires Inv(s) && p in s.t && p != [] && Forgets(s, p, log)
    ensures Original(s.t0, log.entries) && Replaced(s.t0, log.entries)
  {
    hide Newest;
    forall e | e in log.entries && e.reason.Create? && e.path in s.t0 ensures Killed(log.entries, e.path) {
      KilledStays(s, p, log, e.path);
    }
  }

  lemma DetachUnchanged(s: State, p: Path, log: Log)
    requires Inv(s) && p in s.t && p != [] && Forgets(s, p, log)
    ensures Unchanged(s.t0, Prune(s.t, p), log) && Noted(Prune(s.t, p), log, s.dirty)
  {
    var t1 := Prune(s.t, p);
    forall x | x in t1 && x != []
      ensures !Covered(log, x) ==> !Killed(log.entries, x) && x in s.t0 && s.t0[x] == t1[x]
      ensures t1[x].uid in s.dirty ==> Covered(log, x)
    {
      CoveredStays(s, p, log, x);
      KilledStays(s, p, log, x);
    }
    forall x | x in s.t0 && x != [] && x !in t1 ensures Covered(log, x) || Killed(log.entries, x) {
      if Under(x, p) {
        AncestorIn(s.t0, p, x);
        Deeper(log, p, x);
      } else {
        CoveredStays(s, p, log, x);
        KilledStays(s, p, log, x);
      }
    }
  }

  lemma Deeper(log: Log, p: Path, x: Path)
    requires Under(x, p)
    ensures Above(log.created, p) ==> Above(log.created, x)
    ensures Killed(log.entries, p) ==> Killed(log.entries, x)
  {
    if Above(log.created, p) {
      var c :| c in log.created && Under(p, c);
      UnderTrans(x, p, c);
    }
    if Killed(log.entries, p) {
      var e :| e in log.entries && e.IsDelete() && Under(p, e.path);
      UnderTrans(x, p, e.path);
    }
  }

  lemma DetachKeeps(s: State, p: Path, log: Log)
    requires Inv(s) && p in s.t && p != [] && Forgets(s, p, log)
    ensures Inv(s.(t := Prune(s.t, p), log := log))
  {
    PruneOk(s.t, p);
    DetachAnchored(s, p, log);
    DetachCreated(s, p, log);
    DetachOriginal(s, p, log);
    DetachUnchanged(s, p, log);
    hide Live, Anchored, CreatedIs, Alone, Original, Replaced, Unchanged, Noted;
  }

  // ----- `incj_rmfile`

  lemma {:induction false} NewestOnly(es: seq<Entry>, p: Path, u: nat, k: nat)
    requires Newest(es) && k < |es| && es[k].path == p && es[k].uid == u && !es[k].IsDelete()
    ensures Find(es, p, u) == k
    ensures forall m :: k < m < |es| && es[m].path == p && es[m].uid == u ==> es[m].IsDelete()
  {
    if k > 0 {
      NewestOnly(es[1..], p, u, k - 1);
      assert es[k] in es[1..];
    } else {
      forall m | 0 < m < |es| && es[m].path == p && es[m].uid == u ensures es[m].IsDelete() { assert es[m] in es[1..]; }
    }
  }

  lemma {:induction false} NewestRemove(es: seq<Entry>, k: nat)
    requires Newest(es) && k < |es|
    ensures Newest(es[..k] + es[k + 1..])
  {
    if k == 0 {
      assert es[..0] + es[1..] == es[1..];
    } else {
      NewestRemove(es[1..], k - 1);
      var r := es[..k] + es[k + 1..];
      assert r[1..] == es[1..][..k - 1] + es[1..][k..];
      forall f | f in r[1..] && f.path == r[0].path && f.uid == r[0].uid ensures f.IsDelete() { assert f in es[1..]; }
    }
  }

  lemma {:induction false} NewestDelete(es: seq<Entry>, k: nat, d: Entry)
    requires Newest(es) && k < |es| && d.IsDelete() && d.path == es[k].path && d.uid == es[k].uid
    ensures Newest(es[k := d])
  {
    var r := es[k := d];
    if k == 0 {
      assert r[1..] == es[1..];
    } else {
      NewestDelete(es[1..], k - 1, d);
      assert r[1..] == es[1..][k - 1 := d];
      forall f | f in r[1..] && f.path == r[0].path && f.uid == r[0].uid ensures f.IsDelete() {
        if f != d { assert f in es[1..]; }
      }
    }
  }

  lemma NewestAdd(es: seq<Entry>, e: Entry)
    requires Newest(es) && forall f :: f in es && f.path == e.path && f.uid == e.uid ==> f.IsDelete()
    ensures Newest([e] + es)
  {
    assert ([e] + es)[1..] == es;
  }

  /** Nothing can lie below a file, so every entry at or below its path is at its path. */
  lemma FileHasNoneBelow(s: State, p: Path)
    requires Inv(s) && p in s.t && !s.t[p].isdir
    ensures forall e :: e in s.log.entries && Under(e.path, p) ==> e.path == p
    ensures forall c :: c in s.log.created ==> !(Under(c, p))
  {
    hide Newest;
    forall e | e in s.log.entries && Under(e.path, p) ensures e.path == p {
      if e.path != p {
        UnderParent(e.path, p);
        if p != Parent(e.path) { AncestorIsDir(s.t, p, Parent(e.path)); }
      }
    }
    forall c | c in s.log.created ensures !(Under(c, p)) {
      if Under(c, p) {
        if p != c { AncestorIsDir(s.t, p, c); }
      }
    }
  }

  /** An object the journal does not mention as created was where it is in the last index. */
  lemma WasThere(s: State, p: Path)
    requires Inv(s) && p in s.t && p != [] && !Above(s.log.created, p)
    requires forall e :: e in s.log.entries && e.path == p ==> !e.reason.Create?
    ensures p in s.t0 && s.t0[p].uid == s.t[p].uid
  {
    hide Newest;
    if HasAt(s.log.entries, p) {
      var e :| e in s.log.entries && !e.IsDelete() && e.path == p;
      assert e.reason.Modify?;
    }
  }

  lemma RmfileForgets(s: State, p: Path)
    requires Inv(s) && p in s.t && p != [] && !s.t[p].isdir
    ensures Forgets(s, p, FileRemoved(s.log, p, s.t[p].uid))
  {
    var es, u := s.log.entries, s.t[p].uid;
    var i := Find(es, p, u);
    FileHasNoneBelow(s, p);
    if i < |es| && es[i].reason.Create? {
      RmfileCreated(s, p, i);
    } else if i < |es| && es[i].reason.Modify? {
      RmfileModified(s, p, i);
    } else {
      OnlyDeletesAt(s, p);
      RmfileOther(s, p);
    }
  }

  lemma InvFacts(s: State, p: Path)
    requires Inv(s) && p in s.t
    ensures Newest(s.log.entries)
    ensures forall e :: e in s.log.entries && e.path == p && !e.IsDelete() ==> e.uid == s.t[p].uid
    ensures p in s.t0 && IsCreated(s.log.entries, p) ==> Killed(s.log.entries, p)
    ensures forall e :: e in s.log.entries && e.path == p && e.reason.Modify? ==> p in s.t0 && s.t0[p].uid == e.uid
  {
    hide Newest;
  }

  lemma RemovedMembers(es: seq<Entry>, i: nat)
    requires i < |es|
    ensures var r := es[..i] + es[i + 1..];
            (forall e :: e in r ==> exists m :: 0 <= m < |es| && m != i && es[m] == e) &&
            forall e :: e in es && e != es[i] ==> e in r
  {
    var r := es[..i] + es[i + 1..];
    forall e | e in r ensures exists m :: 0 <= m < |es| && m != i && es[m] == e {
      var k :| 0 <= k < |r| && r[k] == e;
      assert es[if k < i then k else k + 1] == e;
    }
    forall e | e in es && e != es[i] ensures e in r {
      var k :| 0 <= k < |es| && es[k] == e;
      assert k < i ==> r[k] == e;
      assert k > i ==> r[k - 1] == e;
    }
  }

  lemma CreateRemoved(es: seq<Entry>, i: nat)
    requires Newest(es) && i < |es| && es[i].reason.Create?
    requires forall e :: e in es && e.path == es[i].path && !e.IsDelete() ==> e.uid == es[i].uid
    ensures var r := es[..i] + es[i + 1..];
            && (forall e :: e in r ==> e in es && (e.path == es[i].path ==> e.IsDelete()))
            && (forall e :: e in es && (e.path != es[i].path || e.IsDelete()) ==> e in r)
  {
    hide Newest;
    NewestOnly(es, es[i].path, es[i].uid, i);
    RemovedMembers(es, i);
    var r := es[..i] + es[i + 1..];
    forall e | e in r ensures e in es && (e.path == es[i].path ==> e.IsDelete()) {
      var m :| 0 <= m < |es| && m != i && es[m] == e;
    }
  }

  lemma RmfileCreated(s: State, p: Path, i: nat)
    requires Inv(s) && p in s.t && p != [] && !s.t[p].isdir
    requires i < |s.log.entries| && s.log.entries[i].path == p && s.log.entries[i].uid == s.t[p].uid &&
             s.log.entries[i].reason.Create?
    requires forall e :: e in s.log.entries && Under(e.path, p) ==> e.path == p
    requires forall c :: c in s.log.created ==> !Under(c, p)
    ensures var es := s.log.entries; Forgets(s, p, s.log.(entries := es[..i] + es[i + 1..]))
  {
    hide Newest, Inv, Under;
    var es := s.log.entries;
    var es1 := es[..i] + es[i + 1..];
    InvFacts(s, p);
    UnderSelf(p);
    NewestRemove(es, i);
    CreateRemoved(es, i);
    if p in s.t0 {
      assert es[i] in es;
      var d :| d in es && d.IsDelete() && Under(p, d.path);
      assert d in es1;
    }
  }

  lemma SetMembers(es: seq<Entry>, i: nat, d: Entry)
    requires i < |es|
    ensures var r := es[i := d];
            && (forall e :: e in r ==> e == d || exists m :: 0 <= m < |es| && m != i && es[m] == e)
            && (forall e :: e in es && e != es[i] ==> e in r) && d in r
  {
    var r := es[i := d];
    assert r[i] == d;
    forall e | e in es && e != es[i] ensures e in r {
      var k :| 0 <= k < |es| && es[k] == e;
      assert r[k] == e;
    }
  }

  lemma RmfileModified(s: State, p: Path, i: nat)
    requires Inv(s) && p in s.t && p != [] && !s.t[p].isdir
    requires i < |s.log.entries| && s.log.entries[i].path == p && s.log.entries[i].uid == s.t[p].uid &&
             s.log.entries[i].reason.Modify?
    requires forall e :: e in s.log.entries && Under(e.path, p) ==> e.path == p
    requires forall c :: c in s.log.created ==> !(Under(c, p))
    ensures var es := s.log.entries; Forgets(s, p, s.log.(entries := es[i := es[i].(reason := DeleteFile)]))
  {
    hide Newest, Inv, Under;
    var es := s.log.entries;
    var d := es[i].(reason := DeleteFile);
    InvFacts(s, p);
    UnderSelf(p);
    NewestDelete(es, i, d);
    NewestOnly(es, p, s.t[p].uid, i);
    SetMembers(es, i, d);
    CreatedAt(s, es[i]);
    assert es[i] in es;
  }

  lemma CreatedAt(s: State, e: Entry)
    requires Inv(s) && e in s.log.entries
    ensures forall c :: c in s.log.created && Under(e.path, c) ==> c == e.path
  {
    hide Newest;
  }

  lemma OnlyDeletesAt(s: State, p: Path)
    requires Inv(s) && p in s.t
    requires var i := Find(s.log.entries, p, s.t[p].uid); i < |s.log.entries| ==> s.log.entries[i].IsDelete()
    ensures forall e :: e in s.log.entries && e.path == p ==> e.IsDelete()
  {
    hide Newest, Inv, Killed, IsCreated;
    InvFacts(s, p);
    var es := s.log.entries;
    forall k | 0 <= k < |es| && es[k].path == p ensures es[k].IsDelete() {
      if !es[k].IsDelete() {
        assert es[k] in es;
        NewestOnly(es, p, s.t[p].uid, k);
      }
    }
  }

  lemma RmfileOther(s: State, p: Path)
    requires Inv(s) && p in s.t && p != [] && !s.t[p].isdir
    requires forall e :: e in s.log.entries && e.path == p ==> e.IsDelete()
    requires forall e :: e in s.log.entries && Under(e.path, p) ==> e.path == p
    requires forall c :: c in s.log.created ==> !Under(c, p)
    ensures Forgets(s, p, if Above(s.log.created, p) then s.log
            else s.log.(entries := [Entry(DeleteFile, p, s.t[p].uid)] + s.log.entries))
  {
    hide Newest, Inv, Under;
    var es, d := s.log.entries, Entry(DeleteFile, p, s.t[p].uid);
    InvFacts(s, p);
    UnderSelf(p);
    if !Above(s.log.created, p) {
      NewestAdd(es, d);
      WasThere(s, p);
      var es1 := [d] + es;
      assert d in es1 && forall e :: e in es1 ==> e == d || e in es;
    }
  }

  // ----- `incj_rmdir`

  /** No created directory lies below another. */
  ghost predicate Antichain(created: seq<Path>) {
    forall c, d :: c in created && d in created && Under(d, c) ==> c == d
  }

  lemma CreatedAntichain(s: State)
    requires Inv(s)
    ensures Antichain(s.log.created)
  {
    hide Newest, Under;
    forall c, d | c in s.log.created && d in s.log.created && Under(d, c) ensures c == d {
      var e :| e in s.log.entries && e.reason.Create? && e.path == d;
      assert Under(e.path, c);
    }
  }

  /** Above p itself there is a created directory. */
  ghost predicate StrictlyAbove(created: seq<Path>, p: Path) { exists c :: c in created && Under(p, c) && c != p }

  lemma {:induction false} SweepIs(created: seq<Path>, p: Path)
    requires Antichain(created)
    ensures var r := Sweep(created, p);
            && (r.stop <==> StrictlyAbove(created, p))
            && (r.stop ==> r.created == created && forall c :: c in created ==> !Under(c, p))
            && (!r.stop ==> (r.self <==> p in created) && forall c :: c in r.created <==> c in created && !Under(c, p))
  {
    if created != [] {
      SweepIs(created[1..], p);
      var h, r := created[0], Sweep(created[1..], p);
      forall c | c in created ensures c == h || c in created[1..] { }
      if Under(h, p) {
        SweepStart(created, p);
      } else if Under(p, h) {
        forall c | c in created ensures !Under(c, p) {
          if Under(c, p) { UnderTrans(c, p, h); UnderSelf(h); }
        }
      } else {
        assert StrictlyAbove(created, p) <==> StrictlyAbove(created[1..], p);
        if r.stop { assert [h] + r.created == created; }
      }
    }
  }

  lemma SweepStart(created: seq<Path>, p: Path)
    requires Antichain(created) && created != [] && Under(created[0], p)
    ensures !StrictlyAbove(created, p)
  {
    forall c | c in created && Under(p, c) ensures c == p {
      UnderTrans(created[0], p, c);
      assert created[0] in created;
      UnderBoth(p, c);
    }
  }

  lemma {:induction false} PurgeMembers(es: seq<Entry>, p: Path, u: nat)
    ensures forall e :: e in Purge(es, p, u) <==> e in es && Kept(e, p, u)
  {
    hide Kept;
    if es != [] { PurgeMembers(es[1..], p, u); }
  }

  lemma {:induction false} PurgeNewest(es: seq<Entry>, p: Path, u: nat)
    requires Newest(es)
    ensures Newest(Purge(es, p, u))
  {
    hide Kept;
    if es != [] {
      PurgeNewest(es[1..], p, u);
      PurgeMembers(es[1..], p, u);
      var r := Purge(es[1..], p, u);
      if Kept(es[0], p, u) { assert ([es[0]] + r)[1..] == r; } else { assert Purge(es, p, u) == r; }
    }
  }

  /** The directory at p was there in the last index, has left, and is back: its CREATE entry hides the
      deletion that has to be written if it goes away for good. */
  predicate Returned(s: State, p: Path)
    requires p in s.t
  {
    s.t[p].isdir && p in s.log.created && p in s.t0 && s.t0[p].uid == s.t[p].uid
  }

  /** Nothing is recorded at or below a path that lies below a created directory. */
  lemma NothingBelow(s: State, p: Path)
    requires Inv(s) && StrictlyAbove(s.log.created, p)
    ensures forall e :: e in s.log.entries ==> !Under(e.path, p)
    ensures forall c :: c in s.log.created ==> !Under(c, p)
  {
    CreatedAntichain(s);
    hide Newest, Inv, Under;
    var c :| c in s.log.created && Under(p, c) && c != p;
    forall e | e in s.log.entries ensures !Under(e.path, p) {
      CreatedAt(s, e);
      if Under(e.path, p) {
        UnderTrans(e.path, p, c);
        UnderBoth(p, c);
      }
    }
    forall d | d in s.log.created ensures !Under(d, p) {
      if Under(d, p) {
        UnderTrans(d, p, c);
        UnderBoth(p, c);
      }
    }
  }

  /** An ancestor was created: nothing is recorded. */
  lemma RmdirBelow(s: State, p: Path)
    requires Inv(s) && p in s.t && p != [] && StrictlyAbove(s.log.created, p)
    ensures Forgets(s, p, s.log)
  {
    hide Newest, Inv, Under;
    InvFacts(s, p);
    NothingBelow(s, p);
  }

  /** The directory itself was created: its entries go, and the deletion of whatever had its name before
      stays, unless that was the directory itself. */
  lemma RmdirCreated(s: State, p: Path, cr: seq<Path>)
    requires Inv(s) && p in s.t && p != [] && s.t[p].isdir && p in s.log.created && !Returned(s, p)
    requires forall c :: c in cr <==> c in s.log.created && !Under(c, p)
    ensures Forgets(s, p, Log(Purge(s.log.entries, p, s.t[p].uid), cr))
  {
    hide Newest, Inv, Under, Purge;
    var es, u := s.log.entries, s.t[p].uid;
    InvFacts(s, p);
    CreatedNow(s, p);
    DeletesOriginal(s);
    PurgeMembers(es, p, u);
    PurgeNewest(es, p, u);
    if p in s.t0 {
      var d :| d in es && d.IsDelete() && Under(p, d.path);
      if Under(d.path, p) { UnderBoth(d.path, p); }
      assert d in Purge(es, p, u);
    }
  }

  lemma CreatedNow(s: State, p: Path)
    requires Inv(s) && p in s.log.created
    ensures IsCreated(s.log.entries, p)
  {
    hide Newest;
  }

  lemma DeletesOriginal(s: State)
    requires Inv(s)
    ensures forall e :: e in s.log.entries && e.IsDelete() ==> e.path in s.t0 && s.t0[e.path].uid == e.uid
  {
    hide Newest;
  }

  /** An old directory: one deletion replaces everything recorded at or below it. */
  lemma RmdirOld(s: State, p: Path, cr: seq<Path>)
    requires Inv(s) && p in s.t && p != [] && s.t[p].isdir && !Above(s.log.created, p)
    requires forall c :: c in cr <==> c in s.log.created && !Under(c, p)
    ensures Forgets(s, p, Log([Entry(DeleteDir, p, s.t[p].uid)] + Purge(s.log.entries, p, s.t[p].uid), cr))
  {
    hide Newest, Inv, Under, Purge;
    var es, u := s.log.entries, s.t[p].uid;
    InvFacts(s, p);
    NotCreated(s, p);
    WasThere(s, p);
    UnderSelf(p);
    PurgeMembers(es, p, u);
    PurgeNewest(es, p, u);
    var d := Entry(DeleteDir, p, u);
    NewestAdd(Purge(es, p, u), d);
    var es1 := [d] + Purge(es, p, u);
    assert d in es1 && forall e :: e in es1 ==> e == d || e in Purge(es, p, u);
  }

  lemma NotCreated(s: State, p: Path)
    requires Inv(s) && p in s.t && s.t[p].isdir && !Above(s.log.created, p)
    ensures forall e :: e in s.log.entries && e.path == p ==> !e.reason.Create?
  {
    hide Newest;
    UnderSelf(p);
    assert p !in s.log.created;
  }

  lemma NoneAbove(created: seq<Path>, p: Path)
    requires !StrictlyAbove(created, p) && p !in created
    ensures !Above(created, p)
  {
  }

  lemma RmdirForgets(s: State, p: Path)
    requires Inv(s) && p in s.t && p != [] && s.t[p].isdir && !Returned(s, p)
    ensures Forgets(s, p, DirRemoved(s.log, p, s.t[p].uid))
  {
    CreatedAntichain(s);
    hide Inv, Forgets;
    SweepIs(s.log.created, p);
    if StrictlyAbove(s.log.created, p) {
      RmdirBelow(s, p);
      assert s.log.(created := s.log.created) == s.log;
    } else if p in s.log.created {
      RmdirCreated(s, p, Sweep(s.log.created, p).created);
    } else {
      NoneAbove(s.log.created, p);
      RmdirOld(s, p, Sweep(s.log.created, p).created);
    }
  }

  /** The journal call for an object that leaves path p, in unlink and twice in rename. */
  function Removed(s: State, p: Path): Log
    requires p in s.t
  {
    if s.t[p].isdir then DirRemoved(s.log, p, s.t[p].uid) else FileRemoved(s.log, p, s.t[p].uid)
  }

  function Detach(s: State, p: Path): State
    requires p in s.t
  {
    s.(t := Prune(s.t, p), log := Removed(s, p))
  }

  lemma DetachInv(s: State, p: Path)
    requires Inv(s) && p in s.t && p != [] && !Returned(s, p)
    ensures Inv(Detach(s, p))
  {
    hide Inv, Forgets;
    if s.t[p].isdir { RmdirForgets(s, p); } else { RmfileForgets(s, p); }
    DetachKeeps(s, p, Removed(s, p));
  }

  // ----- `incj_create`

  /** A subtree appears at p: a new object, or one that is renamed to this path. */
  function Attach(s: State, p: Path, t1: Tree): State
    requires p != [] && p in t1
  {
    s.(t := t1, log := Created(s.log, p, t1[p].uid, t1[p].isdir), dirty := s.dirty + {t1[p].uid})
  }

  /** New nodes are p and what lies below it; if p is a file, only p. */
  lemma NewNodes(t: Tree, p: Path, t1: Tree, x: Path)
    requires Grafted(t, p, t1) && x in t1 && x !in t
    ensures Under(x, p) && (!t1[p].isdir ==> x == p)
  {
    if x != p && Under(x, p) { AncestorIsDir(t1, p, x); }
  }

  /** No entry lies below a path that is not in the tree, and only deletions lie at it. */
  lemma NoneAtMissing(s: State, p: Path)
    requires Inv(s) && p !in s.t && p != []
    ensures forall e :: e in s.log.entries && Under(e.path, p) ==> e.path == p && e.IsDelete()
    ensures forall c :: c in s.log.created ==> !Under(c, p)
  {
    hide Newest, Unchanged, Noted, Original, Replaced, Alone;
    forall e | e in s.log.entries && Under(e.path, p) ensures e.path == p && e.IsDelete() {
      if e.path != p {
        UnderParent(e.path, p);
        AncestorIn(s.t, p, Parent(e.path));
      }
    }
    forall c | c in s.log.created ensures !Under(c, p) {
      if Under(c, p) { AncestorIn(s.t, p, c); }
    }
  }

  lemma NewBelow(s: State, p: Path, t1: Tree, x: Path)
    requires Grafted(s.t, p, t1) && x in t1 && x !in s.t && Above(s.log.created, Parent(p))
    ensures Covered(s.log, x)
  {
    NewNodes(s.t, p, t1, x);
    hide Under, Grafted;
    UnderSelf(Parent(p));
    UnderParent(p, Parent(p));
    UnderTrans(x, p, Parent(p));
    Deeper(s.log, Parent(p), x);
  }

  lemma AttachBelow(s: State, p: Path, t1: Tree)
    requires Inv(s) && Grafted(s.t, p, t1) && Above(s.log.created, Parent(p))
    ensures Inv(Attach(s, p, t1))
  {
    hide LogOk, Covered, Killed, Under;
    AttachBelowLog(s, p, t1);
    forall x | x in t1 && x !in s.t ensures Covered(s.log, x) { NewBelow(s, p, t1, x); }
    forall x | x in t1 && x != [] && t1[x].uid in s.dirty + {t1[p].uid} ensures Covered(s.log, x) { }
  }

  lemma AttachBelowLog(s: State, p: Path, t1: Tree)
    requires Inv(s) && Grafted(s.t, p, t1)
    ensures LogOk(s.t0, t1, s.log)
  {
    hide Newest, Unchanged, Noted, Original, Replaced, Alone, Under;
    forall c | c in t1 && t1[c].isdir && IsCreated(s.log.entries, c) ensures c in s.log.created {
      var e :| e in s.log.entries && e.reason.Create? && e.path == c;
    }
  }

  /** Why a path of the last index that is created again has been deleted before. */
  lemma MissingKilled(s: State, p: Path)
    requires Inv(s) && p !in s.t && p != [] && p in s.t0 && !Above(s.log.created, Parent(p))
    ensures Killed(s.log.entries, p)
  {
    NoneAtMissing(s, p);
    UnderSelf(p);
    hide Newest, LogOk;
    if Above(s.log.created, p) {
      var c :| c in s.log.created && Under(p, c);
      UnderParent(p, c);
    }
  }

  lemma AttachAlone(s: State, p: Path, t1: Tree)
    requires Inv(s) && Grafted(s.t, p, t1) && !Above(s.log.created, Parent(p))
    ensures Alone(Created(s.log, p, t1[p].uid, t1[p].isdir))
  {
    NoneAtMissing(s, p);
    hide Newest, Unchanged, Noted, Original, Replaced, Under;
    var log := Created(s.log, p, t1[p].uid, t1[p].isdir);
    forall e, c | e in log.entries && c in log.created && Under(e.path, c) ensures c == e.path {
      if c != p && e !in s.log.entries { UnderParent(p, c); }
    }
  }

  lemma AttachCreated(s: State, p: Path, t1: Tree)
    requires Inv(s) && Grafted(s.t, p, t1) && !Above(s.log.created, Parent(p))
    ensures CreatedIs(t1, Created(s.log, p, t1[p].uid, t1[p].isdir))
  {
    hide Newest, Unchanged, Noted, Original, Replaced, Alone, Under, Above, IsCreated, Anchored;
    var n := Entry(Create, p, t1[p].uid);
    var log := Created(s.log, p, t1[p].uid, t1[p].isdir);
    forall c ensures c in log.created <==> c in t1 && t1[c].isdir && IsCreated(log.entries, c) {
      CreatedMore(s.log.entries, n, c);
      CreatedLive(s.t, s.log.entries, c);
    }
  }

  lemma CreatedMore(es: seq<Entry>, n: Entry, c: Path)
    requires n.reason.Create?
    ensures IsCreated([n] + es, c) <==> c == n.path || IsCreated(es, c)
  {
    var r := [n] + es;
    assert n in r && forall e :: e in r <==> e == n || e in es;
  }

  lemma CreatedLive(t: Tree, es: seq<Entry>, c: Path)
    requires Live(t, es)
    ensures IsCreated(es, c) ==> c in t
  {
  }

  lemma AttachEntries(s: State, p: Path, t1: Tree)
    requires Inv(s) && Grafted(s.t, p, t1) && !Above(s.log.created, Parent(p))
    ensures var es := Created(s.log, p, t1[p].uid, t1[p].isdir).entries;
            Live(t1, es) && Anchored(t1, es) && Newest(es) && Original(s.t0, es)
  {
    hide Newest, Unchanged, Noted, Replaced, Alone, Under, CreatedIs;
    NoneAtMissing(s, p);
    UnderSelf(p);
    NewestAdd(s.log.entries, Entry(Create, p, t1[p].uid));
  }

  lemma KilledSame(es: seq<Entry>, e: Entry, x: Path)
    requires !e.IsDelete()
    ensures Killed([e] + es, x) <==> Killed(es, x)
  {
    hide Under;
    if Killed(es, x) {
      var d :| d in es && d.IsDelete() && Under(x, d.path);
      assert d in [e] + es;
    }
  }

  lemma CoveredGrows(log: Log, e: Entry, cr: seq<Path>, x: Path)
    requires (forall c :: c in log.created ==> c in cr) && Covered(log, x)
    ensures Covered(Log([e] + log.entries, cr), x)
  {
    hide Under;
    if Above(log.created, x) {
      var c :| c in log.created && Under(x, c);
      assert c in cr;
    } else {
      var f :| f in log.entries && !f.IsDelete() && f.path == x;
      assert f in [e] + log.entries;
    }
  }

  lemma AttachUnchanged(s: State, p: Path, t1: Tree)
    requires Inv(s) && Grafted(s.t, p, t1) && !Above(s.log.created, Parent(p))
    ensures var log := Created(s.log, p, t1[p].uid, t1[p].isdir);
            Unchanged(s.t0, t1, log) && Noted(t1, log, s.dirty + {t1[p].uid})
  {
    hide LogOk, Above, Under, HasAt, Killed;
    var n := Entry(Create, p, t1[p].uid);
    var log := Created(s.log, p, t1[p].uid, t1[p].isdir);
    forall x ensures (x in t1 && x !in s.t) || Covered(s.log, x) ==> Covered(log, x) {
      if Covered(s.log, x) {
        CoveredGrows(s.log, n, log.created, x);
      } else if x in t1 && x !in s.t {
        NewCovered(s, p, t1, x);
      }
    }
    forall x ensures Killed(log.entries, x) <==> Killed(s.log.entries, x) { KilledSame(s.log.entries, n, x); }
    hide Covered;
    forall x | x in t1 && x != [] && t1[x].uid in s.dirty + {t1[p].uid} ensures Covered(log, x) { }
  }

  lemma NewCovered(s: State, p: Path, t1: Tree, x: Path)
    requires Grafted(s.t, p, t1) && x in t1 && x !in s.t && !Above(s.log.created, Parent(p))
    ensures Covered(Created(s.log, p, t1[p].uid, t1[p].isdir), x)
  {
    NewNodes(s.t, p, t1, x);
    hide Under, Grafted;
    var log := Created(s.log, p, t1[p].uid, t1[p].isdir);
    if t1[p].isdir {
      assert log.created == s.log.created + [p] && p in log.created;
    } else {
      assert log.entries[0] in log.entries;
    }
  }

  lemma AttachReplaced(s: State, p: Path, t1: Tree)
    requires Inv(s) && Grafted(s.t, p, t1) && !Above(s.log.created, Parent(p))
    ensures Replaced(s.t0, Created(s.log, p, t1[p].uid, t1[p].isdir).entries)
  {
    if p in s.t0 { MissingKilled(s, p); }
    hide Newest, Unchanged, Noted, Alone, Under, Above, Killed, Live, Anchored, CreatedIs, Original;
    var n := Entry(Create, p, t1[p].uid);
    var es := Created(s.log, p, t1[p].uid, t1[p].isdir).entries;
    forall e | e in es && e.reason.Create? && e.path in s.t0 ensures Killed(es, e.path) {
      KilledSame(s.log.entries, n, e.path);
    }
  }

  lemma AttachInv(s: State, p: Path, t1: Tree)
    requires Inv(s) && Grafted(s.t, p, t1)
    ensures Inv(Attach(s, p, t1))
  {
    if Above(s.log.created, Parent(p)) {
      AttachBelow(s, p, t1);
    } else {
      AttachEntries(s, p, t1);
      AttachAlone(s, p, t1);
      AttachCreated(s, p, t1);
      AttachReplaced(s, p, t1);
      AttachUnchanged(s, p, t1);
      hide Live, Anchored, CreatedIs, Alone, Newest, Original, Replaced, Unchanged, Noted, Created;
    }
  }

  // ----- `incj_modify`, as `ltfs_set_dentry_dirty` calls it

  function Touch(s: State, p: Path, ver: nat): State
    requires p in s.t
  {
    var u := s.t[p].uid;
    s.(t := s.t[p := s.t[p].(ver := ver)],
       log := if u in s.dirty || p == [] then s.log else Modified(s.log, p, u),
       dirty := s.dirty + {u})
  }

  lemma TouchTree(t: Tree, p: Path, ver: nat)
    requires TreeOk(t) && p in t
    ensures TreeOk(t[p := t[p].(ver := ver)])
  {
  }

  lemma TouchLog(t0: Tree, t: Tree, log: Log, p: Path, ver: nat)
    requires LogOk(t0, t, log) && p in t
    ensures LogOk(t0, t[p := t[p].(ver := ver)], log)
  {
    hide Newest, Original, Replaced, Alone, Under, IsCreated;
  }

  /** If nothing is recorded for a change of the object at p, the journal covers it already. */
  lemma AlreadyCovered(s: State, p: Path)
    requires Inv(s) && p in s.t && p != []
    requires s.t[p].uid in s.dirty || Find(s.log.entries, p, s.t[p].uid) < |s.log.entries| || Above(s.log.created, p)
    ensures Covered(s.log, p)
  {
    hide LogOk;
    var es, i := s.log.entries, Find(s.log.entries, p, s.t[p].uid);
    if i < |es| {
      assert es[i] in es;
      UnderSelf(p);
      assert es[i].IsDelete() ==> Killed(es, p);
      assert !es[i].IsDelete() ==> HasAt(es, p);
    }
  }

  lemma FindNone(es: seq<Entry>, p: Path, u: nat)
    requires Find(es, p, u) == |es|
    ensures forall e :: e in es && e.path == p ==> e.uid != u
  {
  }

  lemma TouchEntries(s: State, p: Path)
    requires Inv(s) && p in s.t && p != [] && Find(s.log.entries, p, s.t[p].uid) == |s.log.entries| &&
             !Above(s.log.created, p)
    ensures var es := [Entry(Modify, p, s.t[p].uid)] + s.log.entries; Live(s.t, es) && Anchored(s.t, es) && Newest(es)
    ensures Alone(s.log.(entries := [Entry(Modify, p, s.t[p].uid)] + s.log.entries))
  {
    hide Newest, Unchanged, Noted, Under, Killed, IsCreated, Original, Replaced, CreatedIs;
    FindNone(s.log.entries, p, s.t[p].uid);
    NewestAdd(s.log.entries, Entry(Modify, p, s.t[p].uid));
  }

  lemma TouchOriginal(s: State, p: Path)
    requires Inv(s) && p in s.t && p != [] && Find(s.log.entries, p, s.t[p].uid) == |s.log.entries| &&
             !Above(s.log.created, p)
    ensures Original(s.t0, [Entry(Modify, p, s.t[p].uid)] + s.log.entries)
  {
    hide Newest, Unchanged, Noted, Under, Killed, IsCreated, Replaced, CreatedIs, Alone, Anchored;
    InvFacts(s, p);
    FindNone(s.log.entries, p, s.t[p].uid);
    WasThere(s, p);
  }

  lemma TouchRecords(s: State, p: Path)
    requires Inv(s) && p in s.t && p != [] && Find(s.log.entries, p, s.t[p].uid) == |s.log.entries| &&
             !Above(s.log.created, p)
    ensures LogOk(s.t0, s.t, s.log.(entries := [Entry(Modify, p, s.t[p].uid)] + s.log.entries))
  {
    TouchEntries(s, p);
    TouchOriginal(s, p);
    hide Newest, Unchanged, Noted, Under, Killed, IsCreated, Live, Anchored, Alone, Original, TreeOk;
    var es, n := s.log.entries, Entry(Modify, p, s.t[p].uid);
    forall c ensures IsCreated([n] + es, c) <==> IsCreated(es, c) { CreatedSame(es, n, c); }
    forall x ensures Killed([n] + es, x) <==> Killed(es, x) { KilledSame(es, n, x); }
  }

  lemma CreatedSame(es: seq<Entry>, n: Entry, c: Path)
    requires !n.reason.Create?
    ensures IsCreated([n] + es, c) <==> IsCreated(es, c)
  {
    var r := [n] + es;
    assert forall e :: e in r <==> e == n || e in es;
  }

  lemma TouchUnchanged(s: State, p: Path, ver: nat, log: Log)
    requires Inv(s) && p in s.t
    requires p != [] ==> Covered(log, p)
    requires forall x :: Covered(s.log, x) ==> Covered(log, x)
    requires forall x :: Killed(log.entries, x) <==> Killed(s.log.entries, x)
    ensures var t1 := s.t[p := s.t[p].(ver := ver)];
            Unchanged(s.t0, t1, log) && Noted(t1, log, s.dirty + {s.t[p].uid})
  {
    hide LogOk, Covered, Killed;
  }

  lemma TouchInv(s: State, p: Path, ver: nat)
    requires Inv(s) && p in s.t
    ensures Inv(Touch(s, p, ver))
  {
    hide LogOk, Unchanged, Noted, TreeOk, Killed, Covered, Above;
    var t1, n := s.t[p := s.t[p].(ver := ver)], Entry(Modify, p, s.t[p].uid);
    TouchTree(s.t, p, ver);
    if s.t[p].uid in s.dirty || p == [] || Find(s.log.entries, p, s.t[p].uid) < |s.log.entries| ||
      Above(s.log.created, p) {
      if p != [] { AlreadyCovered(s, p); }
      TouchUnchanged(s, p, ver, s.log);
      TouchLog(s.t0, s.t, s.log, p, ver);
    } else {
      var log := s.log.(entries := [n] + s.log.entries);
      TouchRecords(s, p);
      TouchLog(s.t0, s.t, log, p, ver);
      CoveredNow(s.log, n);
      forall x ensures Killed(log.entries, x) <==> Killed(s.log.entries, x) { KilledSame(s.log.entries, n, x); }
      forall x ensures Covered(s.log, x) ==> Covered(log, x) {
        if Covered(s.log, x) { CoveredGrows(s.log, n, s.log.created, x); }
      }
      TouchUnchanged(s, p, ver, log);
    }
  }

  lemma CoveredNow(log: Log, n: Entry)
    requires !n.IsDelete()
    ensures Covered(log.(entries := [n] + log.entries), n.path)
  {
    assert n in [n] + log.entries;
  }
}
