/**
 Reading a volume back: the last full index, and then the incremental indexes behind it one after the other. The
 journal of modules Journal to TreeEdits is what the writer of module IndexWriter turns into indexes, whatever
 fails in between.

 A directory that is modified, and the root, are written with their attributes only if the dirty flag of the dentry
 is set, and the XML writer clears the flag as soon as the text is made, before it is known to be on tape.
 */
module IndexChain {
  import opened Paths
  import opened Journal
  import opened Session
  import opened Replay
  import T = TreeEdits
  import W = IndexWriter
  import H = IndexHistory

  /** The text of an index: the whole tree, or the sorted journal with the tree and the dirty flags it was made of. */
  datatype Text = Whole(t: Tree) | Changes(t: Tree, es: seq<Entry>, flags: set<nat>)

  /** A directory that is written without its attributes. */
  predicate Bare(t: Tree, flags: set<nat>, e: Entry) {
    e.reason.Modify? && e.path in t && t[e.path].isdir && e.uid !in flags
  }

  /** The entries that say something. */
  function Shown(t: Tree, flags: set<nat>, es: seq<Entry>): seq<Entry> {
    if es == [] then []
    else Shown(t, flags, es[..|es| - 1]) + if Bare(t, flags, es[|es| - 1]) then [] else [es[|es| - 1]]
  }

  /** What a reader makes of the tree r when it reads an index on top. */
  function Read(r: Tree, x: Text): Tree {
    match x
    case Whole(t) => t
    case Changes(t, es, flags) =>
      var a := Applied(t, r, Shown(t, flags, es));
      if [] in t && t[[]].uid in flags then a[[] := t[[]]] else a
  }

  /** The last full index, and the incremental ones behind it in turn; base is what was on tape before. */
  function Restored(base: Tree, h: seq<W.Rec>, text: seq<Text>): Tree
    requires |text| == |h|
  {
    if h == [] then base
    else
      var k := |h| - 1;
      if h[k].kind == W.Full then Read(map[], text[k]) else Read(Restored(base, h[..k], text[..k]), text[k])
  }

  // ----- exactly when an incremental index can be read back

  lemma ShownLast(t: Tree, r: Tree, flags: set<nat>, es: seq<Entry>)
    requires es != []
    ensures var pre, e := es[..|es| - 1], es[|es| - 1];
            var a := Applied(t, r, Shown(t, flags, pre));
            Applied(t, r, Shown(t, flags, es)) == if Bare(t, flags, e) then a else Apply(t, a, e)
  {
    var pre, e := es[..|es| - 1], es[|es| - 1];
    var a := Shown(t, flags, pre);
    if Bare(t, flags, e) {
      assert Shown(t, flags, es) == a;
    } else {
      assert Shown(t, flags, es) == a + [e];
      assert (a + [e])[..|a|] == a;
    }
  }

  /** Entries that do not concern x can be left out. */
  lemma {:induction false} ShownAt(t: Tree, r: Tree, flags: set<nat>, es: seq<Entry>, x: Path)
    requires forall e :: e in es && Bare(t, flags, e) ==> e.path != x
    ensures Lookup(Applied(t, r, Shown(t, flags, es)), x) == Lookup(Applied(t, r, es), x)
    decreases |es|
  {
    if es != [] {
      var pre, e := es[..|es| - 1], es[|es| - 1];
      ShownAt(t, r, flags, pre, x);
      ShownLast(t, r, flags, es);
      hide Shown, Apply, Lookup;
      ApplyAt(t, Applied(t, r, pre), e, x);
      if !Bare(t, flags, e) { ApplyAt(t, Applied(t, r, Shown(t, flags, pre)), e, x); }
    }
  }

  /** If only bare entries concern x, it stays as it was. */
  lemma {:induction false} NothingShown(t: Tree, r: Tree, flags: set<nat>, es: seq<Entry>, x: Path)
    requires forall e :: e in es && Affects(t, e, x) ==> Bare(t, flags, e)
    ensures Lookup(Applied(t, r, Shown(t, flags, es)), x) == Lookup(r, x)
    decreases |es|
  {
    if es != [] {
      var pre, e := es[..|es| - 1], es[|es| - 1];
      NothingShown(t, r, flags, pre, x);
      ShownLast(t, r, flags, es);
      hide Shown, Apply, Lookup;
      if !Bare(t, flags, e) { ApplyAt(t, Applied(t, r, Shown(t, flags, pre)), e, x); }
    }
  }

  /** There is one entry of a path and uid that is no deletion. */
  lemma {:induction false} OneAlive(es: seq<Entry>, e: Entry, f: Entry)
    requires Newest(es) && e in es && f in es && !e.IsDelete() && !f.IsDelete() && e.path == f.path && e.uid == f.uid
    ensures e == f
  {
    if e != es[0] && f != es[0] { OneAlive(es[1..], e, f); }
  }

  /** A directory that was deleted and is there again was created, or lies in one that was. */
  lemma RemadeIsCreated(s: State, d: Entry, g: Entry)
    requires Inv(s) && d in s.log.entries && d.IsDelete() && d.path in s.t && s.t[d.path].isdir
    requires g in s.log.entries && !g.IsDelete() && Affects(s.t, g, d.path)
    ensures g.path in s.log.created && Under(d.path, g.path)
  {
    hide Newest, Unchanged, Noted, Anchored;
    UnderSelf(d.path);
    assert g.reason.Create?;
    assert IsCreated(s.log.entries, g.path);
  }

  /** No deletion reaches an object that is modified. */
  lemma ModifiedNotKilled(s: State, e: Entry, d: Entry)
    requires Inv(s) && e in s.log.entries && e.reason.Modify? && d in s.log.entries && d.IsDelete()
    ensures !Under(e.path, d.path)
  {
    if Under(e.path, d.path) {
      assert e.path in s.t && d.path != e.path;
      AncestorIsDir(s.t, d.path, e.path);
      UnderSelf(d.path);
      DeleteNotRoot(s, d);
      var g := Coverer(s, d, d.path);
      RemadeIsCreated(s, d, g);
      UnderTrans(e.path, d.path, g.path);
      assert false;
    }
  }

  /** Whatever concerns a modified directory is its own entry. */
  lemma OnlyItself(s: State, e: Entry, f: Entry)
    requires Inv(s) && e in s.log.entries && e.reason.Modify? && s.t[e.path].isdir
    requires f in s.log.entries && Affects(s.t, f, e.path)
    ensures f == e
  {
    if f.IsDelete() {
      ModifiedNotKilled(s, e, f);
    } else {
      SamePath(s, e, f);
      OneAlive(s.log.entries, e, f);
    }
  }

  lemma SamePath(s: State, e: Entry, f: Entry)
    requires Inv(s) && e in s.log.entries && e.reason.Modify? && s.t[e.path].isdir
    requires f in s.log.entries && !f.IsDelete() && Affects(s.t, f, e.path)
    ensures f.path == e.path && f.uid == e.uid
  {
    hide Newest, Unchanged, Noted, Anchored, Original, Replaced;
    if f.reason.Create? && s.t[f.path].isdir {
      assert IsCreated(s.log.entries, f.path);
      assert f.path in s.log.created;
    }
  }

  ghost predicate BareAt(s: State, x: Path) { exists e :: e in s.log.entries && Bare(s.t, s.dirty, e) && e.path == x }

  /** What is read at a path below the root. */
  lemma ReadAt(s: State, es: seq<Entry>, x: Path)
    requires Inv(s) && SortOf(es, s.log) && x != []
    ensures Lookup(Applied(s.t, s.t0, Shown(s.t, s.dirty, es)), x) == Lookup(if BareAt(s, x) then s.t0 else s.t, x)
  {
    hide Inv, Shown, Applied, Affects;
    if BareAt(s, x) {
      var e :| e in s.log.entries && Bare(s.t, s.dirty, e) && e.path == x;
      forall f | f in es && Affects(s.t, f, x) ensures Bare(s.t, s.dirty, f) { OnlyItself(s, e, f); }
      NothingShown(s.t, s.t0, s.dirty, es, x);
    } else {
      ShownAt(s.t, s.t0, s.dirty, es, x);
      ReplayAt(s, es, x);
    }
  }

  /** No entry is about the root. */
  lemma RootRead(s: State, es: seq<Entry>)
    requires Inv(s) && SortOf(es, s.log)
    ensures Lookup(Applied(s.t, s.t0, Shown(s.t, s.dirty, es)), []) == Lookup(s.t0, [])
  {
    hide Newest, Unchanged, Noted, Original, Replaced, Alone, CreatedIs, Live;
    forall f | f in es ensures !Affects(s.t, f, []) { assert f in s.log.entries; }
    hide Inv, Shown, Applied, Affects;
    NothingShown(s.t, s.t0, s.dirty, es, []);
  }

  /** Directories and the root that are written without their attributes have none to tell. */
  ghost predicate Told(s: State)
    requires [] in s.t && [] in s.t0
  {
    && (forall e :: e in s.log.entries && Bare(s.t, s.dirty, e) ==> Lookup(s.t0, e.path) == Lookup(s.t, e.path))
    && (s.t[[]].uid in s.dirty || s.t0[[]] == s.t[[]])
  }

  lemma Rooted(s: State)
    requires Inv(s)
    ensures [] in s.t && [] in s.t0
  {
  }

  /** An incremental index, read on the tree of the index before it, gives the current tree exactly if nothing is left
      out for lack of a flag. */
  lemma ReadExact(s: State, es: seq<Entry>)
    requires Inv(s) && SortOf(es, s.log)
    ensures [] in s.t && [] in s.t0 && (Read(s.t0, Changes(s.t, es, s.dirty)) == s.t <==> Told(s))
  {
    Rooted(s);
    RootRead(s, es);
    var a := Applied(s.t, s.t0, Shown(s.t, s.dirty, es));
    var r := Read(s.t0, Changes(s.t, es, s.dirty));
    forall x | x != [] ensures Lookup(r, x) == Lookup(if BareAt(s, x) then s.t0 else s.t, x) { ReadAt(s, es, x); }
    assert Lookup(r, []) == Lookup(if s.t[[]].uid in s.dirty then s.t else s.t0, []);
    T.SameTree(r, s.t);
    BareNotRoot(s);
    hide Inv, Read, Bare;
    if Told(s) {
      forall x ensures Lookup(r, x) == Lookup(s.t, x) { }
    } else if s.t[[]].uid in s.dirty || s.t0[[]] == s.t[[]] {
      var e :| e in s.log.entries && Bare(s.t, s.dirty, e) && Lookup(s.t0, e.path) != Lookup(s.t, e.path);
      assert BareAt(s, e.path);
      assert Lookup(r, e.path) != Lookup(s.t, e.path);
    } else {
      assert Lookup(r, []) != Lookup(s.t, []);
    }
  }

  lemma BareNotRoot(s: State)
    requires Inv(s)
    ensures forall e :: e in s.log.entries ==> e.path != []
  {
    hide Newest, Unchanged, Noted, Original, Replaced, Alone, CreatedIs, Live;
  }

  // ----- edits set the flags that their entries need

  ghost predicate Flagged(s: State) {
    && [] in s.t && [] in s.t0 && (s.t[[]] == s.t0[[]] || s.t[[]].uid in s.dirty)
    && forall e :: e in s.log.entries && e.reason.Modify? ==> e.uid in s.dirty
  }

  lemma FlaggedTold(s: State)
    requires Flagged(s)
    ensures Told(s)
  {
  }

  /** A removal adds no modification. */
  lemma RemovedModifies(s: State, p: Path, e: Entry)
    requires p in s.t && e in Removed(s, p).entries && e.reason.Modify?
    ensures e in s.log.entries
  {
    if s.t[p].isdir { PurgeMembers(s.log.entries, p, s.t[p].uid); }
  }

  lemma DetachFlagged(s: State, p: Path)
    requires Flagged(s) && p in s.t && p != []
    ensures Flagged(Detach(s, p))
  {
    hide Removed;
    forall e | e in Removed(s, p).entries && e.reason.Modify? ensures e.uid in s.dirty { RemovedModifies(s, p, e); }
  }

  lemma AttachFlagged(s: State, p: Path, t1: Tree)
    requires Flagged(s) && Grafted(s.t, p, t1)
    ensures Flagged(Attach(s, p, t1))
  {
  }

  lemma TouchFlagged(s: State, p: Path, ver: nat)
    requires Flagged(s)
    ensures Flagged(T.TouchIf(s, p, ver))
  {
  }

  lemma RenamedFlagged(s: State, e: T.Edit)
    requires Inv(s) && Flagged(s) && e.Rename? && e.from in s.t && T.CanMove(s.t, e.from, e.to)
    ensures Flagged(T.Renamed(s, e))
  {
    T.MoveGrafts(s.t, e.from, e.to);
    T.MoveRoot(s.t, e.from, e.to);
    var t1 := T.Move(s.t, e.from, e.to);
    T.GraftTouched(Prune(s.t, e.from), e.to, t1, e.ver);
    hide Inv, Flagged, Grafted, T.CanMove, T.Move, Attach;
    DetachFlagged(s, e.from);
    AttachFlagged(Detach(s, e.from), e.to, t1[e.to := t1[e.to].(ver := e.ver)]);
  }

  lemma PerformFlagged(s: State, e: T.Edit)
    requires Inv(s) && Flagged(s) && T.Allowed(s, e) && T.NoReturn(s, e)
    ensures Flagged(T.Perform(s, e))
  {
    match e
    case Make(dir, name, node, v) =>
      var p := dir + [name];
      T.MakeGrafts(s, e);
      hide Inv, Flagged;
      AttachFlagged(s, p, s.t[p := node]);
      TouchFlagged(Attach(s, p, s.t[p := node]), dir, v);
    case Unlink(p, v) =>
      hide Inv, Flagged;
      DetachFlagged(s, p);
      TouchFlagged(Detach(s, p), Parent(p), v);
    case Rename(from, to, _, fv, tv) =>
      hide Inv, Flagged, T.CanMove;
      T.ClearedCanMove(s, e);
      if T.Replaces(s, e) {
        DetachInv(s, to);
        DetachFlagged(s, to);
      }
      RenamedFlagged(T.Cleared(s, e), e);
      var r := T.TouchIf(T.Renamed(T.Cleared(s, e), e), Parent(from), fv);
      TouchFlagged(T.Renamed(T.Cleared(s, e), e), Parent(from), fv);
      TouchFlagged(r, Parent(to), tv);
    case Change(p, v) =>
      hide Inv, Flagged;
      TouchFlagged(s, p, v);
  }

  // ----- runs of edits and index writes

  /** The session, the volume, the indexes written so far, and their texts. */
  datatype Store = Store(s: State, v: W.Vol, h: seq<W.Rec>, text: seq<Text>)

  /** An edit of the tree; or anything that happens to the index, with the order of its entries and the dentries
      whose flags are cleared by a text that does not reach the tape. */
  datatype Step = Edits(edit: T.Edit) | Happens(event: H.Event, es: seq<Entry>, wrote: set<nat>)

  /** The text of an index is made, and does not reach the tape. */
  predicate Spoils(e: H.Event) {
    || (e.Write? && (e.dev.inner.fault == W.XmlFails || e.dev.outer.fault == W.XmlFails))
    || (e.Sync? && (e.dev.outer.fault == W.XmlFails || e.dev2.outer.fault == W.XmlFails))
  }

  ghost predicate Can(c: W.Config, z: Store, a: Step) {
    match a
    case Edits(e) => Inv(z.s) && T.Allowed(z.s, e) && T.NoReturn(z.s, e)
    case Happens(e, es, wrote) =>
      H.Possible(c, e) && !e.Change? && SortOf(es, z.s.log) && (wrote != {} ==> Spoils(e))
  }

  function Begin(t: Tree): State { State(t, t, Log([], []), {}) }

  function TextOf(s: State, es: seq<Entry>, r: W.Rec): Text {
    if r.kind == W.Full then Whole(s.t) else Changes(s.t, es, s.dirty)
  }

  function Texts(s: State, es: seq<Entry>, written: seq<W.Rec>): seq<Text> {
    seq(|written|, i requires 0 <= i < |written| => TextOf(s, es, written[i]))
  }

  function Marked(v: W.Vol, n: nat): W.Vol { v.(st := v.st.(dirty := true, incDirty := true, journal := n)) }

  /** The session after something happened to the index. */
  function Settled(c: W.Config, z: Store, e: H.Event, wrote: set<nat>): State {
    if H.Happen(c, z.v, e).written != [] then Begin(z.s.t)
    else z.s.(dirty := z.s.dirty - wrote, log := if H.Loses(c, z.v, e) then Log([], []) else z.s.log)
  }

  ghost function Next(c: W.Config, z: Store, a: Step): Store
    requires Can(c, z, a)
  {
    match a
    case Edits(e) =>
      var s := T.Perform(z.s, e);
      z.(s := s, v := Marked(z.v, |s.log.entries|))
    case Happens(e, es, wrote) =>
      var o := H.Happen(c, z.v, e);
      Store(Settled(c, z, e, wrote), o.v, z.h + o.written, z.text + Texts(z.s, es, o.written))
  }

  /** The chain leads to the tree of the last index, and the journal from there to the current one. */
  ghost predicate Holds(c: W.Config, base: Tree, z: Store) {
    && H.Good(c, z.v, z.h) && |z.text| == |z.h| && z.v.st.journal == |z.s.log.entries|
    && Inv(z.s) && Restored(base, z.h, z.text) == z.s.t0
  }

  predicate WritesChanges(c: W.Config, v: W.Vol, e: H.Event) {
    var w := H.Happen(c, v, e).written; w != [] && w[|w| - 1].kind != W.Full
  }

  /** No journal is lost, and what an incremental index leaves out has not changed. */
  ghost predicate Clean(c: W.Config, z: Store, a: Step) {
    a.Happens? ==>
      && (H.Loses(c, z.v, a.event) ==> z.s.log.entries == [])
      && (WritesChanges(c, z.v, a.event) ==> [] in z.s.t && [] in z.s.t0 && Told(z.s))
  }

  /** An incremental index is the only one of its call. */
  lemma AloneIfChanges(c: W.Config, v: W.Vol, e: H.Event)
    requires W.ConfigOk(c) && H.Possible(c, e) && WritesChanges(c, v, e)
    ensures |H.Happen(c, v, e).written| == 1
  {
  }

  lemma RestoredMore(base: Tree, h: seq<W.Rec>, text: seq<Text>, w: seq<W.Rec>, x: seq<Text>)
    requires |text| == |h| && |x| == |w| && w != [] && (w[|w| - 1].kind != W.Full ==> |w| == 1)
    ensures var r := if w[|w| - 1].kind == W.Full then map[] else Restored(base, h, text);
            Restored(base, h + w, text + x) == Read(r, x[|w| - 1])
  {
    if |w| == 1 { assert (h + w)[..|h|] == h && (text + x)[..|h|] == text; }
  }

  lemma ForgetInv(s: State, wrote: set<nat>)
    requires Inv(s)
    ensures Inv(s.(dirty := s.dirty - wrote))
    ensures s.log.entries == [] ==> s.log == Log([], [])
  {
    hide Newest, Killed;
    if s.log.created != [] { assert s.log.created[0] in s.log.created; }
  }

  lemma EditHolds(c: W.Config, base: Tree, z: Store, a: Step)
    requires Holds(c, base, z) && a.Edits? && Can(c, z, a)
    ensures Holds(c, base, Next(c, z, a))
  {
    hide Inv, T.Perform, T.Allowed, T.NoReturn, Restored;
    T.PerformInv(z.s, a.edit);
    T.PerformKeepsOld(z.s, a.edit);
  }

  lemma EventHolds(c: W.Config, base: Tree, z: Store, a: Step)
    requires Holds(c, base, z) && a.Happens? && Can(c, z, a) && Clean(c, z, a)
    ensures Holds(c, base, Next(c, z, a))
  {
    hide Inv, Restored, H.Happen, H.Loses, H.Good, Read, SortOf, Told;
    H.HappenKeeps(c, z.v, z.h, a.event);
    GoodConfig(c, z.v, z.h);
    H.HappenJournal(c, z.v, a.event);
    var w, x := H.Happen(c, z.v, a.event).written, Texts(z.s, a.es, H.Happen(c, z.v, a.event).written);
    if w == [] {
      ForgetInv(z.s, a.wrote);
      assert z.h + w == z.h && z.text + x == z.text;
    } else {
      BeginInv(z.s);
      if WritesChanges(c, z.v, a.event) {
        AloneIfChanges(c, z.v, a.event);
        ReadExact(z.s, a.es);
      } else {
        ReadWhole(z.s.t);
      }
      RestoredMore(base, z.h, z.text, w, x);
    }
  }

  /** Without a loss, what happens to the index keeps the chain exactly if an incremental index is not written while it
      would leave out something that has changed. */
  lemma EventExact(c: W.Config, base: Tree, z: Store, a: Step)
    requires Holds(c, base, z) && a.Happens? && Can(c, z, a) && (H.Loses(c, z.v, a.event) ==> z.s.log.entries == [])
    ensures Holds(c, base, Next(c, z, a)) <==> Clean(c, z, a)
  {
    if Clean(c, z, a) {
      EventHolds(c, base, z, a);
    } else {
      hide Inv, Restored, H.Happen, H.Loses, H.Good, Read, SortOf, Told;
      GoodConfig(c, z.v, z.h);
      Rooted(z.s);
      AloneIfChanges(c, z.v, a.event);
      ReadExact(z.s, a.es);
      var w := H.Happen(c, z.v, a.event).written;
      RestoredMore(base, z.h, z.text, w, Texts(z.s, a.es, w));
    }
  }

  lemma ReadWhole(t: Tree)
    ensures Read(map[], Whole(t)) == t
  {
  }

  lemma GoodConfig(c: W.Config, v: W.Vol, h: seq<W.Rec>)
    requires H.Good(c, v, h)
    ensures W.ConfigOk(c)
  {
  }

  lemma BeginInv(s: State)
    requires Inv(s)
    ensures Inv(Begin(s.t))
  {
    StartInv(s.t);
  }

  ghost predicate Steps(c: W.Config, z: Store, steps: seq<Step>)
    decreases |steps|
  {
    steps == [] || (Can(c, z, steps[0]) && Steps(c, Next(c, z, steps[0]), steps[1..]))
  }

  ghost function End(c: W.Config, z: Store, steps: seq<Step>): Store
    requires Steps(c, z, steps)
    decreases |steps|
  {
    if steps == [] then z else End(c, Next(c, z, steps[0]), steps[1..])
  }

  ghost predicate AllClean(c: W.Config, z: Store, steps: seq<Step>)
    requires Steps(c, z, steps)
    decreases |steps|
  {
    steps == [] || (Clean(c, z, steps[0]) && AllClean(c, Next(c, z, steps[0]), steps[1..]))
  }

  /** The tree after the edits of a run, without journal and indexes. */
  function Current(t: Tree, steps: seq<Step>): Tree
    decreases |steps|
  {
    if steps == [] then t else Current(if steps[0].Edits? then T.Edited(t, steps[0].edit) else t, steps[1..])
  }

  lemma NextTree(c: W.Config, z: Store, a: Step)
    requires Can(c, z, a)
    ensures Next(c, z, a).s.t == if a.Edits? then T.Edited(z.s.t, a.edit) else z.s.t
  {
    if a.Edits? { T.PerformTree(z.s, a.edit); }
    hide Inv, T.Perform, T.Edited, T.Allowed, T.NoReturn, H.Happen, H.Loses;
  }

  lemma {:induction false} ChainHolds(c: W.Config, base: Tree, z: Store, steps: seq<Step>)
    requires Holds(c, base, z) && Steps(c, z, steps) && AllClean(c, z, steps)
    ensures Holds(c, base, End(c, z, steps)) && End(c, z, steps).s.t == Current(z.s.t, steps)
    decreases |steps|
  {
    hide Holds, Clean, Can, Next, T.Edited;
    if steps != [] {
      NextTree(c, z, steps[0]);
      if steps[0].Edits? { EditHolds(c, base, z, steps[0]); } else { EventHolds(c, base, z, steps[0]); }
      ChainHolds(c, base, Next(c, z, steps[0]), steps[1..]);
    }
  }

  /** A text that does not reach the tape clears a flag that the journal relies on. */
  ghost predicate Strips(c: W.Config, z: Store, a: Step) {
    && a.Happens? && H.Happen(c, z.v, a.event).written == []
    && (([] in z.s.t && z.s.t[[]].uid in a.wrote) ||
        exists e :: e in z.s.log.entries && e.reason.Modify? && e.uid in a.wrote)
  }

  /** No step loses a journal that is not empty, and none clears a flag that the journal relies on. */
  ghost predicate AllCalm(c: W.Config, z: Store, steps: seq<Step>)
    requires Steps(c, z, steps)
    decreases |steps|
  {
    steps == [] ||
    (&& (steps[0].Happens? && H.Loses(c, z.v, steps[0].event) ==> z.s.log.entries == [])
     && !Strips(c, z, steps[0]) && AllCalm(c, Next(c, z, steps[0]), steps[1..]))
  }

  lemma CalmFlagged(c: W.Config, base: Tree, z: Store, a: Step)
    requires Holds(c, base, z) && Flagged(z.s) && Can(c, z, a) && !Strips(c, z, a)
    requires a.Happens? && H.Loses(c, z.v, a.event) ==> z.s.log.entries == []
    ensures Clean(c, z, a) && Flagged(Next(c, z, a).s)
  {
    FlaggedTold(z.s);
    if a.Edits? {
      hide Inv, Flagged, T.Perform;
      PerformFlagged(z.s, a.edit);
    } else {
      hide Inv, H.Happen, H.Loses, Restored, H.Good;
    }
  }

  lemma {:induction false} CalmIsClean(c: W.Config, base: Tree, z: Store, steps: seq<Step>)
    requires Holds(c, base, z) && Flagged(z.s) && Steps(c, z, steps) && AllCalm(c, z, steps)
    ensures AllClean(c, z, steps) && Flagged(End(c, z, steps).s)
    decreases |steps|
  {
    hide Holds, Clean, Can, Next, Strips, Flagged;
    if steps != [] {
      CalmFlagged(c, base, z, steps[0]);
      if steps[0].Edits? { EditHolds(c, base, z, steps[0]); } else { EventHolds(c, base, z, steps[0]); }
      CalmIsClean(c, base, Next(c, z, steps[0]), steps[1..]);
    }
  }

  /** A volume whose last index holds the tree t, with nothing in the journal. */
  lemma Starts(c: W.Config, v: W.Vol, t: Tree)
    requires TreeOk(t) && H.Fresh(c, v) && v.st.journal == 0
    ensures var z := Store(Begin(t), v, [], []); Holds(c, t, z) && Flagged(z.s)
  {
    StartInv(t);
    H.RunKeeps(c, v, []);
  }

  /** After any run of edits, syncs and index writes, successful or not: the last full index, the incremental indexes
      behind it in turn, and then the journal give the current tree, if no event lost a journal that was not empty
      or cleared a flag that the journal relies on. */
  lemma ChainReads(c: W.Config, v: W.Vol, t: Tree, steps: seq<Step>, es: seq<Entry>)
    requires TreeOk(t) && H.Fresh(c, v) && v.st.journal == 0
    requires var z := Store(Begin(t), v, [], []); Steps(c, z, steps) && AllCalm(c, z, steps)
    requires SortOf(es, End(c, Store(Begin(t), v, [], []), steps).s.log)
    ensures var z := End(c, Store(Begin(t), v, [], []), steps);
            && |z.text| == |z.h| && Restored(t, z.h, z.text) == z.s.t0 && z.s.t == Current(t, steps)
            && Read(Restored(t, z.h, z.text), Changes(z.s.t, es, z.s.dirty)) == Current(t, steps)
            && (forall n: nat :: n >= |H.Tail(z.h)| ==>
                  H.Walk(H.OnTape(H.Tail(z.h)), z.v.p.selfInc, n) == H.Newest(H.Tail(z.h)))
  {
    var z0 := Store(Begin(t), v, [], []);
    Starts(c, v, t);
    CalmIsClean(c, t, z0, steps);
    ChainHolds(c, t, z0, steps);
    var z := End(c, z0, steps);
    hide Steps, AllCalm, AllClean, End, Inv, Read, Restored, Current;
    ReadExact(z.s, es);
    FlaggedTold(z.s);
    forall n: nat | n >= |H.Tail(z.h)|
      ensures H.Walk(H.OnTape(H.Tail(z.h)), z.v.p.selfInc, n) == H.Newest(H.Tail(z.h))
    {
      TailWalk(c, z.v, z.h, n);
    }
  }

  /** While the tree is not the one of the last index, the volume is marked dirty. */
  ghost predicate Owes(z: Store) { z.s.t != z.s.t0 ==> z.v.st.dirty && z.v.st.incDirty }

  lemma NextOwes(c: W.Config, base: Tree, z: Store, a: Step)
    requires Holds(c, base, z) && Owes(z) && Can(c, z, a)
    ensures Owes(Next(c, z, a))
  {
    hide Inv, T.Perform, T.Allowed, T.NoReturn, Restored, SortOf;
    if a.Happens? {
      GoodConfig(c, z.v, z.h);
      if H.Happen(c, z.v, a.event).written == [] { KeepsMarks(c, z.v, a.event); }
      hide H.Happen, H.Loses, H.Good;
    }
  }

  lemma KeepsMarks(c: W.Config, v: W.Vol, e: H.Event)
    requires W.ConfigOk(c) && H.Possible(c, e) && !e.Change? && H.Happen(c, v, e).written == []
    ensures var st := H.Happen(c, v, e).v.st; st.dirty == v.st.dirty && st.incDirty == v.st.incDirty
  {
    match e
    case Write(part, k, writePerm, dev) => H.WriteJournal(c, v, part, k, writePerm, dev);
    case Sync(k, dev, writePerm, dev2) => H.SyncJournal(c, v, k, dev, writePerm, dev2);
    case Data(_, _) =>
  }

  lemma {:induction false} EndOwes(c: W.Config, base: Tree, z: Store, steps: seq<Step>)
    requires Holds(c, base, z) && Owes(z) && Steps(c, z, steps) && AllClean(c, z, steps)
    ensures Owes(End(c, z, steps))
    decreases |steps|
  {
    hide Holds, Clean, Can, Next, Owes;
    if steps != [] {
      NextOwes(c, base, z, steps[0]);
      if steps[0].Edits? { EditHolds(c, base, z, steps[0]); } else { EventHolds(c, base, z, steps[0]); }
      EndOwes(c, base, Next(c, z, steps[0]), steps[1..]);
    }
  }

  /** A sync of any kind, without a fault. */
  predicate GoodSync(a: Step) { a.Happens? && a.event.Sync? && a.event.dev.outer.fault == W.NoFault && a.wrote == {} }

  lemma SyncHolds(c: W.Config, base: Tree, z: Store, a: Step)
    requires Holds(c, base, z) && Flagged(z.s) && Owes(z) && GoodSync(a) && Can(c, z, a)
    ensures var y := Next(c, z, a); |y.text| == |y.h| && Restored(base, y.h, y.text) == z.s.t == y.s.t
  {
    var e := a.event;
    GoodConfig(c, z.v, z.h);
    FlaggedTold(z.s);
    assert !H.Loses(c, z.v, e);
    H.CleanSyncIdles(c, z.v, e.k, e.dev, e.writePerm, e.dev2);
    hide Inv, Flagged, Told, SortOf, H.Good, Restored, H.Happen, H.Loses;
    assert Clean(c, z, a) by { hide *; CalmFlagged(c, base, z, a); }
    EventHolds(c, base, z, a);
  }

  /** After any such run, a sync without a fault, whatever kind of index is asked for, leaves the tape so that reading
      it back gives the current tree. */
  lemma SyncSaves(c: W.Config, v: W.Vol, t: Tree, steps: seq<Step>, a: Step)
    requires TreeOk(t) && H.Fresh(c, v) && v.st.journal == 0
    requires var z := Store(Begin(t), v, [], []); Steps(c, z, steps) && AllCalm(c, z, steps)
    requires GoodSync(a) && Can(c, End(c, Store(Begin(t), v, [], []), steps), a)
    ensures var y := Next(c, End(c, Store(Begin(t), v, [], []), steps), a);
            && |y.text| == |y.h| && Restored(t, y.h, y.text) == Current(t, steps)
  {
    var z := Store(Begin(t), v, [], []);
    Starts(c, v, t);
    CalmIsClean(c, t, z, steps);
    ChainHolds(c, t, z, steps);
    EndOwes(c, t, z, steps);
    hide Holds, Steps, AllCalm, AllClean, End, Can, Next, Flagged, GoodSync, Owes, Restored, Current;
    SyncHolds(c, t, End(c, z, steps), a);
  }

  /** Following back pointers finds exactly those incremental indexes. */
  lemma TailWalk(c: W.Config, v: W.Vol, h: seq<W.Rec>, n: nat)
    requires H.Good(c, v, h) && n >= |H.Tail(h)|
    ensures H.Walk(H.OnTape(H.Tail(h)), v.p.selfInc, n) == H.Newest(H.Tail(h))
  {
    var f := H.Tail(h);
    H.WalkFrom(f, v.p.selfInc, v.dpPos, |f|, n);
    assert f[..|f|] == f;
  }

  lemma TailEnd(base: Tree, h: seq<W.Rec>, text: seq<Text>)
    requires |text| == |h| && h != []
    ensures var n := |h| - 1;
            if h[n].kind == W.Full then H.Tail(h) == [] && Restored(base, h, text) == Read(map[], text[n])
            else H.Tail(h) == H.Tail(h[..n]) + [h[n]]
  {
    hide Read;
  }

  /** Tail(h) are the last indexes of h, and the one before them, if there is one, is a full one. */
  lemma {:induction false} TailIs(base: Tree, h: seq<W.Rec>, text: seq<Text>)
    requires |text| == |h|
    ensures var k := |h| - |H.Tail(h)|;
            && 0 <= k && H.Tail(h) == h[k..] && (forall i :: k <= i < |h| ==> h[i].kind != W.Full)
            && (0 < k ==> h[k - 1].kind == W.Full && Restored(base, h[..k], text[..k]) == Read(map[], text[k - 1]))
    decreases |h|
  {
    if h != [] {
      hide *;
      var n, k := |h| - 1, |h| - |H.Tail(h)|;
      TailEnd(base, h, text);
      if h[n].kind == W.Full {
        assert h[..|h|] == h && text[..|h|] == text;
      } else {
        TailIs(base, h[..n], text[..n]);
        assert h[..n][..k] == h[..k] && text[..n][..k] == text[..k];
        assert h[k..] == h[..n][k..] + [h[n]];
        forall i | k <= i < |h| ensures h[i].kind != W.Full { assert i < n ==> h[i] == h[..n][i]; }
      }
    }
  }

  // ----- a run in which a change is lost although the journal is complete

  function Setup(): W.Config { W.Config(1, 2, false, true, 5) }

  function Blank(): W.Vol {
    W.Vol(W.Pointers(W.NIL, W.NIL, W.NIL, W.NIL), 1, 4,
          W.Status(false, false, false, false, false, 5, 0, false))
  }

  function Old(): Tree { map[[] := Node(0, true, 0), ["a"] := Node(1, true, 0)] }

  function New(): Tree { map[[] := Node(0, true, 0), ["a"] := Node(1, true, 1)] }

  function Changing(): Entry { Entry(Modify, ["a"], 1) }

  function Fine(): W.Device { W.Device(W.Io(W.NoFault, 4, 0), false, W.Io(W.NoFault, 4, 0)) }

  function Late(): W.Device { W.Device(W.Io(W.XmlFails, 4, 0), false, W.Io(W.XmlFails, 4, 0)) }

  /** The directory is modified; a full index fails on tape after its text was made; the next sync is incremental. */
  function Lossy(): seq<Step> {
    [Edits(T.Change(["a"], 1)), Happens(H.Sync(W.Full, Late(), false, Late()), [Changing()], {1}),
     Happens(H.Sync(W.Auto, Fine(), false, Fine()), [Changing()], {})]
  }

  lemma OldOk()
    ensures TreeOk(Old()) && Inv(Begin(Old()))
  {
    assert Parent(["a"]) == [];
    StartInv(Old());
  }

  /** After the edit. */
  function Changed(dirty: set<nat>): State { State(Old(), New(), Log([Changing()], []), dirty) }

  lemma ChangeStep()
    ensures var z, a := Store(Begin(Old()), Blank(), [], []), Lossy()[0];
            Can(Setup(), z, a) && Next(Setup(), z, a) == Store(Changed({1}), Marked(Blank(), 1), [], [])
  {
    OldOk();
    hide Inv, TreeOk;
    assert Old()[["a"] := Node(1, true, 1)] == New();
    var none: set<nat> := {};
    assert none + {1} == {1};
    assert Find([], ["a"], 1) == 0;
    assert Modified(Log([], []), ["a"], 1) == Log([Changing()], []);
    assert Touch(Begin(Old()), ["a"], 1) == Changed({1});
  }

  lemma FailStep()
    ensures var z, a := Store(Changed({1}), Marked(Blank(), 1), [], []), Lossy()[1];
            && Can(Setup(), z, a) && !H.Loses(Setup(), z.v, a.event)
            && var g := Next(Setup(), z, a);
               g.s == Changed({}) && g.h == [] && g.text == [] && g.v == Marked(Blank(), 1)
  {
    var z, a := Store(Changed({1}), Marked(Blank(), 1), [], []), Lossy()[1];
    var o := H.Happen(Setup(), z.v, a.event);
    assert o == W.Outcome(z.v, [], false);
    assert {1} - {1} == {};
  }

  lemma WriteStep()
    ensures var z, a := Store(Changed({}), Marked(Blank(), 1), [], []), Lossy()[2];
            && Can(Setup(), z, a) && !H.Loses(Setup(), z.v, a.event)
            && var g := Next(Setup(), z, a);
               && g.s == Begin(New()) && |g.h| == 1 && g.h[0].kind == W.Incremental
               && g.text == [Changes(New(), [Changing()], {})]
  {
    var z, a := Store(Changed({}), Marked(Blank(), 1), [], []), Lossy()[2];
    var o := H.Happen(Setup(), z.v, a.event);
    assert W.Resolve(Setup(), z.v, W.Auto) == W.Incremental;
    assert |o.written| == 1 && o.written[0].kind == W.Incremental;
    assert Texts(z.s, a.es, o.written) == [Changes(New(), [Changing()], {})];
  }

  /** The text of that index leaves the directory as it was. */
  lemma OldRead()
    ensures Read(Old(), Changes(New(), [Changing()], {})) == Old()
  {
    assert [Changing()][..0] == [];
    assert Shown(New(), {}, [Changing()]) == [];
  }

  lemma StepsNone(c: W.Config, z: Store)
    ensures Steps(c, z, []) && End(c, z, []) == z
  {
  }

  lemma StepsMore(c: W.Config, z: Store, a: Step, rest: seq<Step>)
    requires Can(c, z, a) && Steps(c, Next(c, z, a), rest)
    ensures Steps(c, z, [a] + rest) && End(c, z, [a] + rest) == End(c, Next(c, z, a), rest)
  {
    hide Can, Next;
    assert ([a] + rest)[1..] == rest;
  }

  /** No event loses the journal, and the journal holds the change when the incremental index is written; but the failed
      index has cleared the directory's flag, so its new attributes are not written, and reading the volume back
      gives the old ones. */
  lemma FlagsForgotten()
    ensures var z := Store(Begin(Old()), Blank(), [], []);
            && Steps(Setup(), z, Lossy())
            && var g := End(Setup(), z, Lossy());
               && |g.text| == |g.h| == 1 && g.s.t == New() && g.s.log.entries == []
               && Restored(Old(), g.h, g.text) == Old() != New()
  {
    ChangeStep();
    FailStep();
    WriteStep();
    OldRead();
    hide Can, Next, Read, Steps, End;
    var z := Store(Begin(Old()), Blank(), [], []);
    var l := Lossy();
    var z1 := Next(Setup(), z, l[0]);
    var z2 := Next(Setup(), z1, l[1]);
    var z3 := Next(Setup(), z2, l[2]);
    assert [l[2]] + [] == [l[2]] && [l[1]] + [l[2]] == [l[1], l[2]] && [l[0]] + [l[1], l[2]] == l;
    StepsNone(Setup(), z3);
    StepsMore(Setup(), z2, l[2], []);
    StepsMore(Setup(), z1, l[1], [l[2]]);
    StepsMore(Setup(), z, l[0], [l[1], l[2]]);
    assert z3.h[..0] == [] && z3.text[..0] == [];
    assert Old()[["a"]] != New()[["a"]];
  }
}
