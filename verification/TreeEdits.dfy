/**
 The edits of src/libltfs/ltfs_fsops.c in the order they drive the journal, and what holds after any
 session of them.
 */
module TreeEdits {
  import opened Paths
  import opened Journal
  import opened Session
  import opened Replay

  // ----- moving a subtree

  /** The path of y after its ancestor from has become to. */
  function Rebase(y: Path, from: Path, to: Path): Path
    requires Under(y, from)
  {
    to + y[|from|..]
  }

  lemma RebaseBack(y: Path, from: Path, to: Path)
    requires Under(y, from)
    ensures Under(Rebase(y, from, to), to) && Rebase(Rebase(y, from, to), to, from) == y
    ensures y == from <==> Rebase(y, from, to) == to
  {
    var x := Rebase(y, from, to);
    assert x[|to|..] == y[|from|..];
    assert y == from + y[|from|..];
  }

  lemma RebaseParent(y: Path, from: Path, to: Path)
    requires Under(y, from) && y != from
    ensures Under(Parent(y), from) && Rebase(y, from, to) != [] &&
            Parent(Rebase(y, from, to)) == Rebase(Parent(y), from, to)
  {
    assert Parent(y)[|from|..] == y[|from|..][..|y| - |from| - 1];
  }

  /** Where an object at x in the new tree came from. */
  function Source(x: Path, from: Path, to: Path): Path {
    if Under(x, to) then Rebase(x, to, from) else x
  }

  /** The tree with the subtree at from moved to the free path to. */
  ghost function Move(t: Tree, from: Path, to: Path): Tree {
    var keys := Prune(t, from).Keys + (set y | y in t && Under(y, from) :: Rebase(y, from, to));
    map x | x in keys && Source(x, from, to) in t :: t[Source(x, from, to)]
  }

  /** to is free once from has gone, and its parent is a directory that stays. */
  predicate CanMove(t: Tree, from: Path, to: Path) {
    && TreeOk(t) && from in t && from != [] && to != [] && to !in Prune(t, from)
    && Parent(to) in Prune(t, from) && t[Parent(to)].isdir
  }

  lemma MoveAt(t: Tree, from: Path, to: Path, x: Path)
    requires CanMove(t, from, to)
    ensures x in Move(t, from, to) <==> if Under(x, to) then Rebase(x, to, from) in t else x in t && !Under(x, from)
    ensures x in Move(t, from, to) ==> Move(t, from, to)[x] == t[Source(x, from, to)]
  {
    hide TreeOk;
    forall y | y in t && Under(y, from) ensures Under(Rebase(y, from, to), to) { RebaseBack(y, from, to); }
    if Under(x, to) {
      RebaseBack(x, to, from);
      FreeBelow(t, from, to, x);
    }
  }

  lemma FreeBelow(t: Tree, from: Path, to: Path, x: Path)
    requires CanMove(t, from, to) && Under(x, to)
    ensures x !in Prune(t, from)
  {
    if x in Prune(t, from) {
      PruneOk(t, from);
      AncestorIn(Prune(t, from), to, x);
    }
  }

  lemma MoveParents(t: Tree, from: Path, to: Path, x: Path)
    requires CanMove(t, from, to) && x in Move(t, from, to) && x != []
    ensures Parent(x) in Move(t, from, to) && Move(t, from, to)[Parent(x)].isdir
  {
    hide Move, Under;
    MoveAt(t, from, to, x);
    MoveAt(t, from, to, Parent(x));
    UnderParent(x, to);
    UnderParent(x, from);
    if Under(x, to) {
      if x == to {
        UnderSelf(to);
      } else {
        RebaseParent(x, to, from);
        RebaseBack(x, to, from);
      }
    }
  }

  lemma MoveInjective(t: Tree, from: Path, to: Path, x: Path, y: Path)
    requires CanMove(t, from, to) && x in Move(t, from, to) && y in Move(t, from, to)
    requires Move(t, from, to)[x].uid == Move(t, from, to)[y].uid
    ensures x == y
  {
    hide Move, Under;
    MoveAt(t, from, to, x);
    MoveAt(t, from, to, y);
    assert Source(x, from, to) == Source(y, from, to);
    if Under(x, to) { RebaseBack(x, to, from); }
    if Under(y, to) { RebaseBack(y, to, from); }
  }

  lemma MoveRoot(t: Tree, from: Path, to: Path)
    requires CanMove(t, from, to)
    ensures var m := Move(t, from, to); [] in m && m[[]] == t[[]] && to in m && m[to] == t[from]
  {
    MoveAt(t, from, to, []);
    MoveAt(t, from, to, to);
    UnderSelf(to);
    RebaseBack(to, to, from);
  }

  lemma MoveGrafts(t: Tree, from: Path, to: Path)
    requires CanMove(t, from, to)
    ensures Grafted(Prune(t, from), to, Move(t, from, to))
  {
    var m := Move(t, from, to);
    MoveRoot(t, from, to);
    hide Move, Under, CanMove;
    forall x | x in m && x != [] ensures Parent(x) in m && m[Parent(x)].isdir { MoveParents(t, from, to, x); }
    forall x, y | x in m && y in m && m[x].uid == m[y].uid ensures x == y { MoveInjective(t, from, to, x, y); }
    forall x | x in Prune(t, from) ensures x in m && m[x] == Prune(t, from)[x] {
      MoveAt(t, from, to, x);
      if Under(x, to) { FreeBelow(t, from, to, x); }
    }
    forall x | x in m && !Under(x, to) ensures x in Prune(t, from) { MoveAt(t, from, to, x); }
  }

  // ----- the edits

  datatype Edit =
    | Make(dir: Path, name: string, node: Node, dirVer: nat)
    | Unlink(p: Path, dirVer: nat)
    | Rename(from: Path, to: Path, ver: nat, fromVer: nat, toVer: nat)
    | Change(p: Path, ver: nat)

  predicate Childless(t: Tree, p: Path) { forall x :: x in t && Under(x, p) ==> x == p }

  /** An object that is replaced by a rename is unlinked first. */
  predicate Replaces(s: State, e: Edit)
    requires e.Rename?
  {
    e.to in s.t && e.to != e.from
  }

  /** What the operation checks before it changes anything. */
  predicate Allowed(s: State, e: Edit) {
    match e
    case Make(dir, name, node, _) =>
      dir in s.t && s.t[dir].isdir && dir + [name] !in s.t && forall x :: x in s.t ==> s.t[x].uid != node.uid
    case Unlink(p, _) => p in s.t && p != [] && Childless(s.t, p)
    case Rename(from, to, _, _, _) =>
      && from in s.t && from != [] && to != [] && Parent(to) in s.t && s.t[Parent(to)].isdir
      && !Under(Parent(to), from) && (to in s.t && to != from ==> Childless(s.t, to))
    case Change(p, _) => p in s.t
  }

  /** The object a rename replaces has been removed. */
  function Cleared(s: State, e: Edit): State
    requires e.Rename?
  {
    if Replaces(s, e) then Detach(s, e.to) else s
  }

  /** No directory that had returned to its old place is removed or moved. */
  predicate NoReturn(s: State, e: Edit)
    requires Allowed(s, e)
  {
    match e
    case Unlink(p, _) => !Returned(s, p)
    case Rename(from, to, _, _, _) =>
      (Replaces(s, e) ==> !Returned(s, to)) && (from in Cleared(s, e).t ==> !Returned(Cleared(s, e), from))
    case _ => true
  }

  ghost function Renamed(s: State, e: Edit): State
    requires e.Rename? && e.from in s.t && CanMove(s.t, e.from, e.to)
  {
    MoveRoot(s.t, e.from, e.to);
    var t1 := Move(s.t, e.from, e.to);
    Attach(Detach(s, e.from), e.to, t1[e.to := t1[e.to].(ver := e.ver)])
  }

  lemma GraftTouched(t: Tree, p: Path, t1: Tree, ver: nat)
    requires Grafted(t, p, t1)
    ensures Grafted(t, p, t1[p := t1[p].(ver := ver)])
  {
  }

  lemma RenamedInv(s: State, e: Edit)
    requires Inv(s) && e.Rename? && e.from in s.t && CanMove(s.t, e.from, e.to) && !Returned(s, e.from)
    ensures Inv(Renamed(s, e))
  {
    DetachInv(s, e.from);
    MoveGrafts(s.t, e.from, e.to);
    hide Inv, Grafted, CanMove, Move;
    MoveRoot(s.t, e.from, e.to);
    GraftTouched(Prune(s.t, e.from), e.to, Move(s.t, e.from, e.to), e.ver);
    var t1 := Move(s.t, e.from, e.to);
    AttachInv(Detach(s, e.from), e.to, t1[e.to := t1[e.to].(ver := e.ver)]);
  }

  /** The tree that remains after the target has been cleared still has room for the move. */
  lemma ClearedCanMove(s: State, e: Edit)
    requires Inv(s) && e.Rename? && Allowed(s, e)
    ensures e.from in Cleared(s, e).t && CanMove(Cleared(s, e).t, e.from, e.to)
  {
    hide LogOk, Unchanged, Noted, Removed;
    var t := Cleared(s, e).t;
    UnderSelf(Parent(e.to));
    UnderParent(e.to, e.to);
    UnderSelf(e.to);
    if Replaces(s, e) {
      PruneOk(s.t, e.to);
      assert !Under(e.from, e.to);
    }
    UnderSelf(e.from);
  }

  /** Parents are marked dirty after the journal has been told about the object itself. */
  ghost function TouchIf(s: State, p: Path, ver: nat): State { if p in s.t then Touch(s, p, ver) else s }

  ghost function Perform(s: State, e: Edit): State
    requires Inv(s) && Allowed(s, e)
  {
    match e
    case Make(dir, name, node, v) =>
      var p := dir + [name];
      TouchIf(Attach(s, p, s.t[p := node]), dir, v)
    case Unlink(p, v) => TouchIf(Detach(s, p), Parent(p), v)
    case Rename(from, to, _, fv, tv) =>
      ClearedCanMove(s, e);
      var r := TouchIf(Renamed(Cleared(s, e), e), Parent(from), fv);
      if Parent(to) != Parent(from) then TouchIf(r, Parent(to), tv) else r
    case Change(p, v) => Touch(s, p, v)
  }

  lemma TouchIfInv(s: State, p: Path, ver: nat)
    requires Inv(s)
    ensures Inv(TouchIf(s, p, ver))
  {
    hide Inv;
    if p in s.t { TouchInv(s, p, ver); }
  }

  lemma MakeGrafts(s: State, e: Edit)
    requires Inv(s) && e.Make? && Allowed(s, e)
    ensures var p := e.dir + [e.name]; Grafted(s.t, p, s.t[p := e.node])
  {
    hide LogOk, Unchanged, Noted;
    var p := e.dir + [e.name];
    assert Parent(p) == e.dir;
    forall x | x in s.t && x != [] ensures Parent(x) != p { }
    UnderSelf(p);
  }

  /** Every edit keeps the invariant, as long as no directory that had returned is removed or moved. */
  lemma PerformInv(s: State, e: Edit)
    requires Inv(s) && Allowed(s, e) && NoReturn(s, e)
    ensures Inv(Perform(s, e))
  {
    match e
    case Make(dir, name, node, v) =>
      var p := dir + [name];
      MakeGrafts(s, e);
      AttachInv(s, p, s.t[p := node]);
      hide Inv;
      TouchIfInv(Attach(s, p, s.t[p := node]), dir, v);
    case Unlink(p, v) =>
      hide Inv;
      DetachInv(s, p);
      TouchIfInv(Detach(s, p), Parent(p), v);
    case Rename(from, to, _, fv, tv) =>
      hide Inv, CanMove;
      ClearedCanMove(s, e);
      if Replaces(s, e) { DetachInv(s, to); }
      RenamedInv(Cleared(s, e), e);
      var r := TouchIf(Renamed(Cleared(s, e), e), Parent(from), fv);
      TouchIfInv(Renamed(Cleared(s, e), e), Parent(from), fv);
      TouchIfInv(r, Parent(to), tv);
    case Change(p, v) => TouchInv(s, p, v);
  }

  // ----- what an edit makes of the tree

  /** The object at x with new times. */
  function Aged(t: Tree, x: Path, ver: nat): Found { if x in t then There(t[x].(ver := ver)) else Missing }

  /** The object at x after an edit of the tree t. */
  function EditedAt(t: Tree, e: Edit, x: Path): Found {
    match e
    case Make(dir, name, node, v) =>
      if x == dir + [name] then There(node) else if x == dir then Aged(t, x, v) else Lookup(t, x)
    case Unlink(p, v) =>
      if Under(x, p) then Missing else if x == Parent(p) then Aged(t, x, v) else Lookup(t, x)
    case Rename(from, to, ver, fv, tv) =>
      if x == to then Aged(t, from, ver)
      else if Under(x, to) then Lookup(t, Rebase(x, to, from))
      else if Under(x, from) then Missing
      else if x == Parent(from) then Aged(t, x, fv)
      else if x == Parent(to) then Aged(t, x, tv)
      else Lookup(t, x)
    case Change(p, v) => if x == p then Aged(t, x, v) else Lookup(t, x)
  }

  lemma MakeAt(s: State, e: Edit, x: Path)
    requires Inv(s) && e.Make? && Allowed(s, e)
    ensures Lookup(Perform(s, e).t, x) == EditedAt(s.t, e, x)
  {
    hide Inv, Created;
  }

  lemma UnlinkAt(s: State, e: Edit, x: Path)
    requires Inv(s) && e.Unlink? && Allowed(s, e)
    ensures Lookup(Perform(s, e).t, x) == EditedAt(s.t, e, x)
  {
    hide LogOk, Unchanged, Session.Noted, Removed;
    UnderParent(e.p, e.p);
  }

  lemma ChangeAt(s: State, e: Edit, x: Path)
    requires Inv(s) && e.Change? && Allowed(s, e)
    ensures Lookup(Perform(s, e).t, x) == EditedAt(s.t, e, x)
  {
    hide Inv;
  }

  /** Neither parent moves, and no path outside the two subtrees does. */
  lemma RenameApart(s: State, e: Edit)
    requires Inv(s) && e.Rename? && Allowed(s, e)
    ensures !Under(Parent(e.from), e.from) && !Under(Parent(e.from), e.to) && !Under(Parent(e.to), e.to)
    ensures Parent(e.from) in s.t && Parent(e.to) in s.t && (Under(e.from, e.to) ==> e.from == e.to)
  {
    hide LogOk, Unchanged, Session.Noted;
    if Under(Parent(e.from), e.to) { AncestorIn(s.t, e.to, Parent(e.from)); }
    if Under(e.from, e.to) { AncestorIn(s.t, e.to, e.from); }
  }

  lemma RenamedAt(s: State, e: Edit, x: Path)
    requires e.Rename? && e.from in s.t && CanMove(s.t, e.from, e.to)
    ensures Lookup(Renamed(s, e).t, x) == MovedAt(s.t, e, x)
  {
    hide Removed, Created, Move, CanMove;
    MoveRoot(s.t, e.from, e.to);
    MoveAt(s.t, e.from, e.to, x);
  }

  lemma ClearedAt(s: State, e: Edit, y: Path)
    requires Inv(s) && e.Rename? && Allowed(s, e) && (Under(y, e.from) || !Under(y, e.to))
    ensures Lookup(Cleared(s, e).t, y) == Lookup(s.t, y)
  {
    RenameApart(s, e);
    hide Inv, Removed;
    if Under(y, e.from) && Under(y, e.to) {
      Comparable(e.from, e.to, y);
      UnderParent(e.to, e.from);
    }
  }

  /** The object at x once the subtree has moved, before the parents get new times. */
  function MovedAt(t: Tree, e: Edit, x: Path): Found
    requires e.Rename?
  {
    if x == e.to then Aged(t, e.from, e.ver)
    else if Under(x, e.to) then Lookup(t, Rebase(x, e.to, e.from))
    else if Under(x, e.from) then Missing
    else Lookup(t, x)
  }

  lemma MovesTo(s: State, e: Edit, x: Path)
    requires Inv(s) && e.Rename? && Allowed(s, e)
    ensures e.from in Cleared(s, e).t && CanMove(Cleared(s, e).t, e.from, e.to)
    ensures Lookup(Renamed(Cleared(s, e), e).t, x) == MovedAt(s.t, e, x)
  {
    hide Inv, CanMove, Renamed, Cleared, Allowed, Rebase;
    ClearedCanMove(s, e);
    UnderSelf(e.from);
    RenamedAt(Cleared(s, e), e, x);
    ClearedAt(s, e, e.from);
    if Under(x, e.to) {
      RebaseBack(x, e.to, e.from);
      ClearedAt(s, e, Rebase(x, e.to, e.from));
    } else {
      ClearedAt(s, e, x);
    }
  }

  lemma TouchIfAt(s: State, p: Path, ver: nat, x: Path)
    ensures Lookup(TouchIf(s, p, ver).t, x) == if x == p then Aged(s.t, x, ver) else Lookup(s.t, x)
  {
  }

  lemma AgedIs(t: Tree, x: Path, ver: nat)
    ensures Aged(t, x, ver) == if Lookup(t, x).There? then There(Lookup(t, x).n.(ver := ver)) else Missing
  {
  }

  lemma PerformRename(s: State, e: Edit)
    requires Inv(s) && e.Rename? && Allowed(s, e)
    ensures e.from in Cleared(s, e).t && CanMove(Cleared(s, e).t, e.from, e.to)
    ensures var r := TouchIf(Renamed(Cleared(s, e), e), Parent(e.from), e.fromVer);
            Perform(s, e) == if Parent(e.to) != Parent(e.from) then TouchIf(r, Parent(e.to), e.toVer) else r
  {
    hide Inv, CanMove, Cleared, Renamed, TouchIf, Allowed;
    ClearedCanMove(s, e);
  }

  lemma RenameAt(s: State, e: Edit, x: Path)
    requires Inv(s) && e.Rename? && Allowed(s, e)
    ensures Lookup(Perform(s, e).t, x) == EditedAt(s.t, e, x)
  {
    RenameApart(s, e);
    PerformRename(s, e);
    hide Inv, CanMove, Renamed, Cleared, Rebase, Lookup, Aged, TouchIf, Under, Parent, Perform;
    MovesTo(s, e, x);
    var r := Renamed(Cleared(s, e), e);
    var r1 := TouchIf(r, Parent(e.from), e.fromVer);
    TouchIfAt(r, Parent(e.from), e.fromVer, x);
    TouchIfAt(r1, Parent(e.to), e.toVer, x);
    AgedIs(r.t, x, e.fromVer);
    AgedIs(r1.t, x, e.toVer);
    AgedIs(s.t, x, e.fromVer);
    AgedIs(s.t, x, e.toVer);
  }

  /** Path by path: what an edit makes of the tree, whatever it does to the journal. */
  lemma PerformAt(s: State, e: Edit, x: Path)
    requires Inv(s) && Allowed(s, e)
    ensures Lookup(Perform(s, e).t, x) == EditedAt(s.t, e, x)
  {
    hide Inv, Perform, EditedAt;
    match e
    case Make(_, _, _, _) => MakeAt(s, e, x);
    case Unlink(_, _) => UnlinkAt(s, e, x);
    case Rename(_, _, _, _, _) => RenameAt(s, e, x);
    case Change(_, _) => ChangeAt(s, e, x);
  }

  // ----- the whole tree

  /** Where there can be objects after an edit. */
  function Reach(t: Tree, e: Edit): set<Path> {
    t.Keys + (match e
              case Make(dir, name, _, _) => {dir + [name]}
              case Rename(from, to, _, _, _) => set y | y in t && Under(y, from) :: Rebase(y, from, to)
              case _ => {})
  }

  /** The tree after an edit, without a journal. */
  function Edited(t: Tree, e: Edit): Tree {
    map x | x in Reach(t, e) && EditedAt(t, e, x).There? :: EditedAt(t, e, x).n
  }

  lemma EditedIs(t: Tree, e: Edit, x: Path)
    ensures Lookup(Edited(t, e), x) == EditedAt(t, e, x)
  {
    if e.Rename? && Under(x, e.to) {
      RebaseBack(x, e.to, e.from);
      UnderSelf(e.to);
      RebaseBack(e.from, e.from, e.to);
    }
  }

  lemma SameTree(a: Tree, b: Tree)
    ensures a == b <==> forall x :: Lookup(a, x) == Lookup(b, x)
  {
    if forall x :: Lookup(a, x) == Lookup(b, x) {
      assert forall x :: x in a <==> x in b by {
        forall x ensures x in a <==> x in b { assert Lookup(a, x) == Lookup(b, x); }
      }
      assert forall x :: x in a ==> a[x] == b[x] by {
        forall x | x in a ensures a[x] == b[x] { assert Lookup(a, x) == Lookup(b, x); }
      }
    }
  }

  /** Journal or not, an edit makes the same tree. */
  lemma PerformTree(s: State, e: Edit)
    requires Inv(s) && Allowed(s, e)
    ensures Perform(s, e).t == Edited(s.t, e)
  {
    hide Inv, Allowed, Perform, Edited, EditedAt;
    forall x ensures Lookup(Perform(s, e).t, x) == Lookup(Edited(s.t, e), x) {
      PerformAt(s, e, x);
      EditedIs(s.t, e, x);
    }
    SameTree(Perform(s, e).t, Edited(s.t, e));
  }

  // ----- the flags an edit sets

  /** The objects that get new times, or are new. */
  function Touched(t: Tree, e: Edit): set<nat>
    requires e.Make? ==> e.dir in t
    requires e.Unlink? ==> e.p != [] && Parent(e.p) in t
    requires e.Rename? ==> e.from in t && e.from != [] && e.to != [] && Parent(e.from) in t && Parent(e.to) in t
    requires e.Change? ==> e.p in t
  {
    match e
    case Make(dir, _, node, _) => {node.uid, t[dir].uid}
    case Unlink(p, _) => {t[Parent(p)].uid}
    case Rename(from, to, _, _, _) => {t[from].uid, t[Parent(from)].uid, t[Parent(to)].uid}
    case Change(p, _) => {t[p].uid}
  }

  lemma ParentsThere(s: State, e: Edit)
    requires Inv(s) && Allowed(s, e)
    ensures (e.Unlink? ==> Parent(e.p) in s.t) && (e.Rename? ==> Parent(e.from) in s.t && Parent(e.to) in s.t)
  {
    hide LogOk, Unchanged, Session.Noted;
  }

  /** Exactly the flags of those objects are set. */
  lemma PerformDirty(s: State, e: Edit)
    requires Inv(s) && Allowed(s, e)
    ensures (e.Unlink? ==> Parent(e.p) in s.t) && (e.Rename? ==> Parent(e.from) in s.t && Parent(e.to) in s.t)
    ensures Perform(s, e).dirty == s.dirty + Touched(s.t, e)
  {
    ParentsThere(s, e);
    match e
    case Make(_, _, _, _) => hide Inv;
    case Unlink(p, _) => UnlinkDirty(s, e);
    case Rename(_, _, _, _, _) => RenameDirty(s, e);
    case Change(_, _) => hide Inv;
  }

  lemma UnlinkDirty(s: State, e: Edit)
    requires Inv(s) && e.Unlink? && Allowed(s, e) && Parent(e.p) in s.t
    ensures Perform(s, e).dirty == s.dirty + Touched(s.t, e)
  {
    hide Inv, Removed;
    UnderParent(e.p, e.p);
  }

  /** The parents are not touched by the move itself. */
  lemma ParentsStay(s: State, e: Edit)
    requires Inv(s) && e.Rename? && Allowed(s, e)
    ensures e.from in Cleared(s, e).t && CanMove(Cleared(s, e).t, e.from, e.to)
    ensures var r := Renamed(Cleared(s, e), e);
            forall p :: p in {Parent(e.from), Parent(e.to)} ==> p in s.t && p in r.t && r.t[p].uid == s.t[p].uid
  {
    RenameApart(s, e);
    UnderSelf(e.to);
    hide Inv, CanMove, Cleared, Renamed, Under, Parent, Rebase;
    MovesTo(s, e, Parent(e.from));
    MovesTo(s, e, Parent(e.to));
  }

  lemma TouchBoth(s: State, p: Path, v: nat, q: Path, w: nat)
    requires p in s.t && q in s.t
    ensures var r := TouchIf(s, p, v);
            (if q != p then TouchIf(r, q, w) else r).dirty == s.dirty + {s.t[p].uid, s.t[q].uid}
  {
    hide Modified;
  }

  lemma RenameDirty(s: State, e: Edit)
    requires Inv(s) && e.Rename? && Allowed(s, e) && Parent(e.from) in s.t && Parent(e.to) in s.t
    ensures Perform(s, e).dirty == s.dirty + Touched(s.t, e)
  {
    hide Inv, CanMove, Cleared, Renamed, Parent, TouchIf, Perform;
    PerformRename(s, e);
    RenamedFlags(s, e);
    ParentsStay(s, e);
    TouchBoth(Renamed(Cleared(s, e), e), Parent(e.from), e.fromVer, Parent(e.to), e.toVer);
  }

  lemma RenamedFlags(s: State, e: Edit)
    requires Inv(s) && e.Rename? && Allowed(s, e)
    requires e.from in Cleared(s, e).t && CanMove(Cleared(s, e).t, e.from, e.to)
    ensures Renamed(Cleared(s, e), e).dirty == s.dirty + {s.t[e.from].uid}
  {
    UnderSelf(e.from);
    ClearedAt(s, e, e.from);
    MoveRoot(Cleared(s, e).t, e.from, e.to);
    hide Inv, CanMove, Move, Removed, Created, Allowed;
  }

  /** An object that gets new times, or is new, is in the journal unless it is the root. */
  lemma PerformNoted(s: State, e: Edit, x: Path)
    requires Inv(s) && Allowed(s, e) && NoReturn(s, e)
    requires x != [] && x in Perform(s, e).t && Perform(s, e).t[x].uid in Perform(s, e).dirty
    ensures Covered(Perform(s, e).log, x)
  {
    PerformInv(s, e);
    hide LogOk, Unchanged, Perform, Allowed, NoReturn;
  }

  // ----- sessions

  ghost predicate Legal(s: State, edits: seq<Edit>)
    decreases |edits|
  {
    edits == [] || (Inv(s) && Allowed(s, edits[0]) && NoReturn(s, edits[0]) && Legal(Perform(s, edits[0]), edits[1..]))
  }

  ghost function After(s: State, edits: seq<Edit>): State
    requires Legal(s, edits)
    decreases |edits|
  {
    if edits == [] then s else After(Perform(s, edits[0]), edits[1..])
  }

  /** The tree after a row of edits, without a journal. */
  function EditedAll(t: Tree, edits: seq<Edit>): Tree
    decreases |edits|
  {
    if edits == [] then t else EditedAll(Edited(t, edits[0]), edits[1..])
  }

  lemma {:induction false} LegalInv(s: State, edits: seq<Edit>)
    requires Inv(s) && Legal(s, edits)
    ensures Inv(After(s, edits)) && After(s, edits).t0 == s.t0 && After(s, edits).t == EditedAll(s.t, edits)
    decreases |edits|
  {
    if edits != [] {
      PerformInv(s, edits[0]);
      PerformKeepsOld(s, edits[0]);
      PerformTree(s, edits[0]);
      hide Inv, Perform, Allowed, NoReturn, Edited;
      LegalInv(Perform(s, edits[0]), edits[1..]);
    }
  }

  lemma PerformKeepsOld(s: State, e: Edit)
    requires Inv(s) && Allowed(s, e)
    ensures Perform(s, e).t0 == s.t0
  {
    hide Inv, Removed, Created, CanMove, Move;
    if e.Rename? { ClearedCanMove(s, e); }
  }

  /** From one index to the next: whatever is created, modified, unlinked and renamed, the incremental
      index, read back on the old tree, gives the tree that the edits make of it. */
  lemma SessionReplays(t: Tree, edits: seq<Edit>, es: seq<Entry>)
    requires TreeOk(t) && Legal(State(t, t, Log([], []), {}), edits)
    requires SortOf(es, After(State(t, t, Log([], []), {}), edits).log)
    ensures var s := After(State(t, t, Log([], []), {}), edits);
            s.t0 == t && s.t == EditedAll(t, edits) && Faithful(s, es)
  {
    var s := State(t, t, Log([], []), {});
    StartInv(t);
    LegalInv(s, edits);
    hide Inv, Legal, After, EditedAll;
    ReplayIsCurrent(After(s, edits), es);
  }

  /** created_dirs in every state of a session: no created directory lies below another, each has a live
      CREATE entry of its own, and no entry lies strictly below one. */
  lemma SessionCreatedDirs(t: Tree, edits: seq<Edit>)
    requires TreeOk(t) && Legal(State(t, t, Log([], []), {}), edits)
    ensures var s := After(State(t, t, Log([], []), {}), edits);
            && Antichain(s.log.created)
            && (forall c :: c in s.log.created ==>
                  c in s.t && s.t[c].isdir && Entry(Create, c, s.t[c].uid) in s.log.entries)
            && (forall c, e :: c in s.log.created && e in s.log.entries && Under(e.path, c) ==> e.path == c)
  {
    var s0 := State(t, t, Log([], []), {});
    StartInv(t);
    LegalInv(s0, edits);
    hide Inv, Legal, After, EditedAll;
    CreatedDirsOf(After(s0, edits));
  }

  lemma CreatedDirsOf(s: State)
    requires Inv(s)
    ensures Antichain(s.log.created)
    ensures forall c :: c in s.log.created ==> c in s.t && s.t[c].isdir && Entry(Create, c, s.t[c].uid) in s.log.entries
    ensures forall c, e :: c in s.log.created && e in s.log.entries && Under(e.path, c) ==> e.path == c
  {
    CreatedAntichain(s);
    hide Newest, Unchanged, Noted, Under, Antichain, Original, Replaced, Anchored;
    forall c | c in s.log.created ensures c in s.t && s.t[c].isdir && Entry(Create, c, s.t[c].uid) in s.log.entries {
      var e :| e in s.log.entries && e.reason.Create? && e.path == c;
      assert e == Entry(Create, c, s.t[c].uid);
    }
  }
}
