/** `unified_write` as a whole: it ends, and what it has written is what the caller asked for. */
module WriteTheorem {
  import opened Bytes
  import opened Requests
  import opened Cells
  import opened WriteProofs

  lemma OverlapKeeps(cs: nat, m: Walk, did: bool, start: nat)
    requires Ready(cs, m) && m.i < |m.l| && m.o <= m.l[m.i].End() && Facing(cs, m, start)
    ensures NextKeeps(cs, m, Overlap(cs, m, did), start)
  {
    hide Inv, Advance, WellFormed;
    var q := m.l[m.i];
    if m.buf == [] {
      SettleKeeps(cs, m, did, start);
    } else if m.o < q.offset {
      RetryKeeps(cs, m, start);
    } else if !q.ip && (m.o < q.End() || |q.data| < cs) {
      UpdateKeeps(cs, m, start);
      assert Overlap(cs, m, did) == Settle(Updated(cs, m), true);
    } else if q.ip && m.o < q.End() {
      VisitIpKeeps(cs, m, did, start);
    } else {
      SettleKeeps(cs, m, did, start);
    }
  }

  lemma UpdateKeeps(cs: nat, m: Walk, start: nat)
    requires Facing(cs, m, start) && m.buf != [] && m.l[m.i].offset <= m.o && !m.l[m.i].ip
    ensures NextKeeps(cs, m, Settle(Updated(cs, m), true), start)
  {
    UpdateCells(cs, m, start);
    UpdateInv(cs, m, start);
    hide Inv, Updated;
  }

  lemma RetryKeeps(cs: nat, m: Walk, start: nat)
    requires Facing(cs, m, start)
    ensures NextKeeps(cs, m, Retry(m), start)
  {
    AdvanceSame(m, m);
  }

  lemma NextTrans(cs: nat, u: Walk, w: Walk, n: Next, start: nat)
    requires Advance(u, w) && NextKeeps(cs, w, n, start)
    ensures NextKeeps(cs, u, n, start)
  {
    match n
    case Leave(out) => AdvanceTrans(u, w, out.w);
    case Continue(c) => AdvanceTrans(u, w, c);
    case Retry(c) => AdvanceTrans(u, w, c);
  }

  /** Every visit of the loop body keeps the invariant and only moves the write forward. */
  lemma VisitKeeps(cs: nat, w: Walk, start: nat)
    requires Inv(cs, w, start) && w.i < |w.l| && w.o <= w.l[w.i].End()
    ensures NextKeeps(cs, w, Visit(cs, w), start)
  {
    var ins := InsertRun(cs, w, w.l[w.i].offset);
    InsertRunKeeps(cs, w, w.l[w.i].offset, start);
    if ins.exit != Pressure {
      var (m, ret) := MergePrev(cs, ins.w);
      if ins.w.prev {
        MergeKeeps(cs, ins.w, start);
        AdvanceTrans(w, ins.w, m);
      }
      if ret != 2 {
        OverlapKeeps(cs, m, ret != 0, start);
        NextTrans(cs, w, m, Overlap(cs, m, ret != 0), start);
      }
    }
  }

  /** How a traversal ends. */
  ghost predicate PassKeeps(cs: nat, w: Walk, r: Outcome, start: nat) {
    Advance(w, r.w) && (if r.exit == EndOfList then Inv(cs, r.w, start) && r.w.i == |r.w.l| else WellFormed(r.w.l, cs))
  }

  lemma {:induction false} TraversePass(cs: nat, w: Walk, start: nat)
    requires Ready(cs, w) && Inv(cs, w, start)
    ensures PassKeeps(cs, w, Pass(cs, w), start)
    decreases |w.l| - w.i, |w.buf|, 2
  {
    hide Inv, WellFormed;
    if w.i == |w.l| {
      AdvanceSame(w, w);
    } else if w.o > w.l[w.i].End() {
      SkipKeeps(cs, w, start);
      hide Skip;
      TraversePass(cs, Skip(cs, w), start);
      AdvanceTrans(w, Skip(cs, w), Pass(cs, w).w);
    } else {
      TraverseResume(cs, w, start);
    }
  }

  lemma {:induction false} TraverseResume(cs: nat, w: Walk, start: nat)
    requires Ready(cs, w) && Inv(cs, w, start) && w.i < |w.l| && w.o <= w.l[w.i].End()
    ensures PassKeeps(cs, w, Resume(cs, w), start)
    decreases |w.l| - w.i, |w.buf|, if w.o < w.l[w.i].offset then 0 else 1
  {
    hide Inv, WellFormed, Visit;
    VisitKeeps(cs, w, start);
    match Visit(cs, w)
    case Leave(out) =>
    case Continue(c) =>
      TraversePass(cs, c, start);
      AdvanceTrans(w, c, Pass(cs, c).w);
    case Retry(c) =>
      TraverseResume(cs, c, start);
      AdvanceTrans(w, c, Resume(cs, c).w);
  }

  /** A request that lies before the cursor is skipped, or removed when prev_req covers it. */
  lemma SkipKeeps(cs: nat, w: Walk, start: nat)
    requires Inv(cs, w, start) && w.i < |w.l| && w.o > w.l[w.i].End()
    ensures Inv(cs, Skip(cs, w), start) && Advance(w, Skip(cs, w))
  {
    if w.prev {
      MergeKeeps(cs, w, start);
      assert Merge(cs, w.l, w.i).ret == 2;
    } else {
      AdvanceSame(w, w.(i := w.i + 1));
    }
  }

  // ----- appending

  lemma {:induction false} AppendRunKeeps(cs: nat, u: Walk, w: Walk, limit: nat)
    requires Ready(cs, w) && w.i == |w.l| && Ordered(w.l) && LastEnd(w.l) <= w.o && limit == w.o + |w.buf|
    requires Advance(u, w)
    ensures var r := InsertRun(cs, w, limit); Ordered(r.w.l) && Advance(u, r.w)
    decreases |w.buf|
  {
    if w.buf != [] && CanAlloc(w) {
      assert InsertSpot(cs, w);
      InsertOneCells(cs, w);
      hide Inserted;
      var v := Inserted(cs, w);
      assert Ordered(v.l);
      AdvanceTrans(u, w, v);
      hide Ordered, Advance;
      AppendRunKeeps(cs, u, v, limit);
    }
  }

  lemma FillLastCells(cs: nat, w: Walk)
    requires 0 < cs && WellFormed(w.l, cs) && LastEnd(w.l) <= w.o
    ensures Advance(w, FillLast(cs, w))
  {
    hide Update, Ordered, Fits, CellAt;
    var v := FillLast(cs, w);
    if v.o == w.o && v.l == w.l {
      AdvanceSame(w, v);
    } else {
      var n := v.o - w.o;
      forall x: nat ensures WroteAt(w.l, w.o, w.buf, v.l, n, x) { FillLastAt(cs, w, x); }
    }
  }

  lemma FillLastAt(cs: nat, w: Walk, x: nat)
    requires w.l != [] && WellFormed(w.l, cs) && w.o == LastEnd(w.l) && !w.l[|w.l| - 1].ip
    ensures var last := |w.l| - 1;
            var n := Min(Room(cs, w.l[last], w.o), |w.buf|);
            WroteAt(w.l, w.o, w.buf, Update(cs, w.l, last, w.o, w.buf), n, x)
  {
    var last := |w.l| - 1;
    CellUpdate(cs, w.l, last, w.o, w.buf, x);
    CellCutAt(w.l, last, x);
    hide Update;
    if w.o <= x { LastHole(w.l, x); }
  }

  lemma LastHole(l: seq<Req>, x: nat)
    requires l != [] && Ordered(l) && l[|l| - 1].offset <= x
    ensures CellAt(l[..|l| - 1], x) == Hole
  {
    var pre := l[..|l| - 1];
    forall j | 0 <= j < |pre| ensures !pre[j].Covers(x) { assert l[j].End() <= l[|l| - 1].offset; }
    CellHole(pre, x);
  }

  lemma FillLastOrdered(cs: nat, w: Walk)
    requires 0 < cs && WellFormed(w.l, cs) && LastEnd(w.l) <= w.o
    ensures var v := FillLast(cs, w); Ordered(v.l) && LastEnd(v.l) <= v.o
  {
  }

  lemma AppendKeeps(cs: nat, w: Walk)
    requires 0 < cs && WellFormed(w.l, cs) && LastEnd(w.l) <= w.o
    ensures var r := Append(cs, w); WellFormed(r.w.l, cs) && Advance(w, r.w)
  {
    hide FillLast, Advance, InsertRun, Ordered;
    FillLastCells(cs, w);
    FillLastOrdered(cs, w);
    var v := FillLast(cs, w);
    AppendRunKeeps(cs, w, v, v.o + |v.buf|);
  }

  // ----- what stays when two replica requests clash at the write offset

  /** Requests before request i stay as they are, except that prev_req may grow at its end. */
  predicate Prefix(w: Walk, v: Walk) {
    && w.i <= |w.l| && w.i <= v.i <= |v.l|
    && (forall j :: 0 <= j < w.i - 1 ==> v.l[j] == w.l[j])
    && (0 < w.i ==> v.l[w.i - 1].offset == w.l[w.i - 1].offset && w.l[w.i - 1].data <= v.l[w.i - 1].data)
  }

  /** prev_req holds new bytes, and it is full and ends at the cursor while more are to come. */
  predicate Dirty(cs: nat, w: Walk) {
    && Ready(cs, w) && w.prev && w.o <= w.l[w.i - 1].End()
    && (w.buf != [] ==> !w.l[w.i - 1].ip && w.l[w.i - 1].End() == w.o && |w.l[w.i - 1].data| == cs)
  }

  lemma {:induction false} DirtyInsertRun(cs: nat, w: Walk, limit: nat)
    requires Dirty(cs, w)
    ensures var r := InsertRun(cs, w, limit); Dirty(cs, r.w) && Prefix(w, r.w)
    decreases |w.buf|
  {
    hide Inserted, Dirty, Prefix;
    if !(w.buf == [] || w.o >= limit) && CanAlloc(w) {
      DirtyInserted(cs, w);
      var v := Inserted(cs, w);
      DirtyInsertRun(cs, v, limit);
      PrefixTrans(w, v, InsertRun(cs, v, limit).w);
    } else {
      DirtySame(cs, w);
    }
  }

  lemma DirtySame(cs: nat, w: Walk)
    requires Dirty(cs, w)
    ensures 0 < cs && Fits(w.l, cs) && w.i <= |w.l| && Prefix(w, w)
    ensures !CanAlloc(w) ==> Dirty(cs, w.(spare := true)) && Prefix(w, w.(spare := true))
  {
  }

  lemma DirtyInserted(cs: nat, w: Walk)
    requires Dirty(cs, w) && w.buf != [] && CanAlloc(w)
    ensures Fits(w.l, cs) && w.i <= |w.l|
    ensures var v := Inserted(cs, w); Dirty(cs, v) && Prefix(w, v)
  {
  }

  lemma DirtyMerge(cs: nat, w: Walk)
    requires Dirty(cs, w) && w.i < |w.l|
    ensures var (m, ret) := MergePrev(cs, w);
            && Dirty(cs, m) && Prefix(w, m) && m.i == w.i
            && (ret != 2 ==> m.o <= m.l[m.i].End() && (m.buf != [] ==> m.o <= m.l[m.i].offset))
            && (w.o > w.l[w.i].End() ==> ret == 2)
  {
  }

  lemma DirtySkip(cs: nat, w: Walk)
    requires Dirty(cs, w) && w.i < |w.l| && w.o > w.l[w.i].End()
    ensures Dirty(cs, Skip(cs, w)) && Prefix(w, Skip(cs, w))
  {
    DirtyMerge(cs, w);
    hide MergePrev;
  }

  ghost predicate NextDirty(cs: nat, w: Walk, n: Next) {
    match n
    case Leave(out) => Prefix(w, out.w)
    case Continue(c) => Dirty(cs, c) && Prefix(w, c)
    case Retry(c) => Dirty(cs, c) && Prefix(w, c)
  }

  lemma DirtyOverlap(cs: nat, m: Walk, did: bool)
    requires Dirty(cs, m) && m.i < |m.l| && m.o <= m.l[m.i].End() && (m.buf != [] ==> m.o <= m.l[m.i].offset)
    ensures NextDirty(cs, m, Overlap(cs, m, did))
  {
  }

  lemma PrefixTrans(u: Walk, v: Walk, w: Walk)
    requires Prefix(u, v) && Prefix(v, w)
    ensures Prefix(u, w)
  {
  }

  lemma NextDirtyTrans(cs: nat, u: Walk, w: Walk, n: Next)
    requires Prefix(u, w) && NextDirty(cs, w, n)
    ensures NextDirty(cs, u, n)
  {
  }

  lemma DirtyVisit(cs: nat, w: Walk)
    requires Dirty(cs, w) && w.i < |w.l|
    ensures NextDirty(cs, w, Visit(cs, w))
  {
    DirtyInsertRun(cs, w, w.l[w.i].offset);
    var ins := InsertRun(cs, w, w.l[w.i].offset);
    if ins.exit != Pressure {
      DirtyMerge(cs, ins.w);
      hide InsertRun, MergePrev, Overlap;
      var (m, ret) := MergePrev(cs, ins.w);
      PrefixTrans(w, ins.w, m);
      if ret != 2 {
        DirtyOverlap(cs, m, ret != 0);
        NextDirtyTrans(cs, w, m, Overlap(cs, m, ret != 0));
      }
    }
  }

  /** Once new bytes are in prev_req, a traversal that ends with bytes left ends at the last request. */
  lemma {:induction false} DirtyPass(cs: nat, w: Walk)
    requires Dirty(cs, w)
    ensures var r := Pass(cs, w); Prefix(w, r.w) && (r.exit == EndOfList && r.w.buf != [] ==> LastEnd(r.w.l) == r.w.o)
    decreases |w.l| - w.i, |w.buf|, 2
  {
    if w.i < |w.l| {
      if w.o > w.l[w.i].End() {
        DirtySkip(cs, w);
        hide Skip, Prefix;
        DirtyPass(cs, Skip(cs, w));
        PrefixTrans(w, Skip(cs, w), Pass(cs, w).w);
      } else {
        DirtyResume(cs, w);
      }
    }
  }

  lemma {:induction false} DirtyResume(cs: nat, w: Walk)
    requires Dirty(cs, w) && w.i < |w.l|
    ensures var r := Resume(cs, w); Prefix(w, r.w) && (r.exit == EndOfList && r.w.buf != [] ==> LastEnd(r.w.l) == r.w.o)
    decreases |w.l| - w.i, |w.buf|, if w.o < w.l[w.i].offset then 0 else 1
  {
    DirtyVisit(cs, w);
    hide Visit, Prefix;
    match Visit(cs, w)
    case Leave(out) =>
    case Continue(c) =>
      DirtyPass(cs, c);
      PrefixTrans(w, c, Pass(cs, c).w);
    case Retry(c) =>
      DirtyResume(cs, c);
      PrefixTrans(w, c, Resume(cs, c).w);
  }

  /** Just before the new bytes go in between the swollen replica k and the request behind it. */
  predicate Wedge(cs: nat, m: Walk, k: nat, o: nat) {
    && Ready(cs, m) && m.i == k + 1 < |m.l| && m.buf != [] && m.o == o
    && m.l[k].offset < o < m.l[k].End() && o < m.l[m.i].offset
  }

  lemma WedgeOverlaps(cs: nat, m: Walk, k: nat, o: nat)
    requires Wedge(cs, m, k, o)
    ensures var r := Resume(cs, m);
            && (CanAlloc(m) ==> k + 1 < |r.w.l| && r.w.l[..k + 1] == m.l[..k + 1] && r.w.l[k + 1].offset == o)
            && (!CanAlloc(m) ==> r == Outcome(m.(spare := true), Pressure))
            && (r.exit == EndOfList && r.w.buf != [] ==> LastEnd(r.w.l) == r.w.o)
  {
    if !CanAlloc(m) {
      assert Visit(cs, m) == Leave(Outcome(m.(spare := true), Pressure));
    } else {
      WedgeInserts(cs, m, k, o);
      WedgeFirst(cs, m, k, o);
      hide Inserted, Fits, Resume, Wedge, Prefix;
      var v := Inserted(cs, m);
      DirtyResume(cs, v);
      PrefixSlice(v, Resume(cs, v).w, k);
    }
  }

  /** All requests before the last of the first w.i are still there, and that one starts where it did. */
  lemma PrefixSlice(w: Walk, v: Walk, k: nat)
    requires Prefix(w, v) && k + 2 <= w.i
    ensures k + 1 < |v.l| && v.l[..k + 1] == w.l[..k + 1] && v.l[k + 1].offset == w.l[k + 1].offset
  {
  }

  lemma WedgeFirst(cs: nat, m: Walk, k: nat, o: nat)
    requires Wedge(cs, m, k, o) && CanAlloc(m)
    ensures var v := Inserted(cs, m);
            Dirty(cs, v) && v.i == k + 2 <= |v.l| && v.l[..k + 1] == m.l[..k + 1] && v.l[k + 1].offset == o
  {
  }

  lemma WedgeInserts(cs: nat, m: Walk, k: nat, o: nat)
    requires Wedge(cs, m, k, o) && CanAlloc(m)
    ensures var v := Inserted(cs, m); Ready(cs, v) && v.i < |v.l| && Resume(cs, m) == Resume(cs, v)
  {
    var v := Inserted(cs, m);
    assert InsertRun(cs, m, m.l[m.i].offset) == InsertRun(cs, v, v.l[v.i].offset);
    assert Visit(cs, m) == Visit(cs, v);
    hide InsertRun, Visit, Inserted, Fits;
  }

  lemma {:induction false} SkipTo(cs: nat, w: Walk, k: nat)
    requires Ready(cs, w) && !w.prev && w.i <= k < |w.l|
    requires forall j :: w.i <= j < k ==> w.l[j].End() < w.o
    ensures Pass(cs, w) == Pass(cs, w.(i := k))
    decreases k - w.i
  {
    hide Pass, Resume, Skip, Fits;
    if w.i < k {
      SkipOne(cs, w);
      SkipTo(cs, w.(i := w.i + 1), k);
    }
  }

  lemma SkipOne(cs: nat, w: Walk)
    requires Ready(cs, w) && !w.prev && w.i < |w.l| && w.l[w.i].End() < w.o
    ensures Pass(cs, w) == Pass(cs, w.(i := w.i + 1))
  {
    hide Resume, Fits;
    assert Skip(cs, w) == w.(i := w.i + 1);
  }

  lemma SwallowOrdered(cs: nat, l: seq<Req>, i: nat)
    requires 0 < i < |l| && WellFormed(l, cs) && Merge(cs, l, i).ret == 2
    ensures Ordered(Merge(cs, l, i).l)
  {
    var d, m := Taker(cs, l[i - 1], l[i]), Merge(cs, l, i).l;
    assert d.End() <= l[i].End();
    assert m == l[..i - 1] + [d] + l[i + 1..];
    hide Taker, Moved, Merge;
    assert m[i - 1] == d;
    assert forall j :: i <= j < |m| ==> m[j] == l[j + 1];
    OrderedJoin(m, i);
  }

  lemma MergeOrdered(cs: nat, l: seq<Req>, i: nat)
    requires 0 < i < |l| && WellFormed(l, cs)
    ensures Ordered(Merge(cs, l, i).l)
  {
    var m := Merge(cs, l, i);
    if m.ret == 2 {
      SwallowOrdered(cs, l, i);
    } else if m.ret == 1 {
      hide Taker, Moved;
      OrderedJoin(m.l, i);
    }
  }

  /** There is a block for the first new bytes: the writer has one, the pool has one, or merging the replicas k and
      k + 1 frees one. */
  predicate Fed(cs: nat, w: Walk, k: nat)
    requires k + 1 < |w.l|
  {
    CanAlloc(w) || |w.l[k].data| + |w.l[k + 1].data| <= cs
  }

  /** A write that starts exactly where two replica requests clash leaves overlapping requests, unless it stops for
      lack of a block right after they are merged. */
  lemma ClashPass(cs: nat, w: Walk, k: nat)
    requires 0 < cs && WellFormed(w.l, cs) && w.i == 0 && !w.prev && w.buf != [] && Clash(cs, w.l, k, w.o)
    ensures var r := Pass(cs, w);
            && (Fed(cs, w, k) ==> k + 1 < |r.w.l| && r.w.l[k + 1].offset == w.o && Stale(w.l, r.w.l, k, w.o))
            && (!Fed(cs, w, k) ==>
                  r.exit == Pressure && r.w.o == w.o && r.w.buf == w.buf && r.w.l == Merge(cs, w.l, k + 1).l)
            && (r.exit == EndOfList && r.w.buf != [] ==> LastEnd(r.w.l) == r.w.o)
  {
    ClashFrees(cs, w, k);
    SkipTo(cs, w, k);
    ClashMeet(cs, w.(i := k));
    var b := w.(i := k + 1, prev := true);
    ClashMerge(cs, b);
    var m := MergePrev(cs, b).0;
    WedgeOverlaps(cs, m, k, w.o);
    CellMerge(cs, b.l, b.i, w.o);
    hide Pass, Resume, MergePrev;
    if CanAlloc(m) { StaleFrom(w.l, m.l, Resume(cs, m).w.l, k, w.o); }
  }

  lemma ClashFrees(cs: nat, w: Walk, k: nat)
    requires 0 < cs && WellFormed(w.l, cs) && Clash(cs, w.l, k, w.o)
    ensures var m := MergePrev(cs, w.(i := k + 1, prev := true)).0;
            m.l == Merge(cs, w.l, k + 1).l && (CanAlloc(m) <==> Fed(cs, w, k))
  {
    var dest, src := w.l[k], w.l[k + 1];
    assert |Moved(cs, dest, src)| == Min(cs - |dest.data|, |src.data|);
    hide Moved;
  }

  lemma StaleFrom(l0: seq<Req>, m: seq<Req>, l1: seq<Req>, k: nat, o: nat)
    requires k < |m| && k < |l1| && m[..k + 1] == l1[..k + 1] && m[k].offset < o < m[k].End()
    requires CellAt(m, o) == CellAt(l0, o)
    ensures Stale(l0, l1, k, o)
  {
    CellCutAt(m, k, o);
    CellCut(m, k + 1, k + 1, o);
    assert m[..k + 1] == m[..k] + [m[k]];
    CellConcat(m[..k], [m[k]], o);
    assert l1[k] == m[..k + 1][k];
  }

  /** Replica k covers offset o, and the list up to it decides what is read there: the old byte. */
  predicate Stale(l0: seq<Req>, l1: seq<Req>, k: nat, o: nat) {
    && k < |l1| && l1[k].offset < o < l1[k].End()
    && CellAt(l0, o).Held? && CellAt(l1[..k + 1], o) == CellAt(l0, o)
  }

  /** The cursor touches the end of replica i: it becomes prev_req. */
  lemma ClashMeet(cs: nat, a: Walk)
    requires Ready(cs, a) && !a.prev && a.buf != [] && a.i < |a.l| && a.l[a.i].ip && a.l[a.i].End() == a.o
    ensures Pass(cs, a) == Pass(cs, a.(i := a.i + 1, prev := true))
  {
    assert Visit(cs, a) == Continue(a.(i := a.i + 1, prev := true));
    hide Visit;
  }

  lemma ClashWedge(cs: nat, b: Walk)
    requires Ready(cs, b) && Ordered(b.l) && b.prev && b.buf != [] && Clash(cs, b.l, b.i - 1, b.o)
    ensures Wedge(cs, MergePrev(cs, b).0, b.i - 1, b.o)
  {
    var dest, src := b.l[b.i - 1], b.l[b.i];
    assert |Moved(cs, dest, src)| == Min(cs - |dest.data|, |src.data|);
    hide Moved;
    var m := MergePrev(cs, b).0;
    assert b.i < |m.l|;
  }

  lemma ClashVisit(cs: nat, b: Walk)
    requires Ready(cs, b) && Ordered(b.l) && b.prev && b.buf != [] && Clash(cs, b.l, b.i - 1, b.o)
    ensures var (m, ret) := MergePrev(cs, b); Visit(cs, b) == if ret == 2 then Continue(m) else Retry(m)
  {
    ClashWedge(cs, b);
    hide MergePrev, Ordered;
    assert InsertRun(cs, b, b.l[b.i].offset) == Outcome(b, EndOfList);
    hide InsertRun;
  }

  lemma PassIsResume(cs: nat, w: Walk)
    requires Ready(cs, w) && w.i < |w.l| && w.o <= w.l[w.i].End()
    ensures Pass(cs, w) == Resume(cs, w)
  {
    hide Visit;
  }

  /** The next replica is merged into it, ahead of the cursor. */
  lemma ClashMerge(cs: nat, b: Walk)
    requires Ready(cs, b) && Ordered(b.l) && b.prev && b.buf != [] && Clash(cs, b.l, b.i - 1, b.o)
    ensures var m := MergePrev(cs, b).0; Wedge(cs, m, b.i - 1, b.o) && Pass(cs, b) == Resume(cs, m)
  {
    ClashWedge(cs, b);
    ClashVisit(cs, b);
    hide Visit, MergePrev, Ordered, Pass;
    PassIsResume(cs, b);
    PassIsResume(cs, MergePrev(cs, b).0);
  }

  // ----- the whole of unified_write

  /** A traversal that ends with bytes left has reached the end of the list, or made it shorter. */
  lemma RoundEnds(cs: nat, w: Walk)
    requires 0 < cs && WellFormed(w.l, cs) && w.buf != []
    ensures var r := Pass(cs, w.(i := 0, prev := false));
            r.exit == EndOfList && r.w.buf != [] ==> LastEnd(r.w.l) <= r.w.o || (Ordered(r.w.l) && |r.w.l| < |w.l|)
  {
    var v := w.(i := 0, prev := false);
    if NoClash(cs, w.l, w.o) {
      TraversePass(cs, v, |w.l|);
    } else {
      var k :| 0 <= k < |w.l| && Clash(cs, w.l, k, w.o);
      ClashPass(cs, v, k);
    }
  }

  /** `unified_write` from label do_append, until everything is in the list or the pool has no
      block left: the jump back to do_append always finds less to do. */
  function Write(cs: nat, w: Walk): (r: Outcome)
    requires 0 < cs && Fits(w.l, cs) && w.buf != [] && (LastEnd(w.l) <= w.o || Ordered(w.l))
    ensures Fits(r.w.l, cs) && (r.exit == Pressure || r.w.buf == [])
    decreases if LastEnd(w.l) <= w.o then 0 else 1 + |w.l|
  {
    if LastEnd(w.l) <= w.o then Append(cs, w) else
    var r := Pass(cs, w.(i := 0, prev := false));
    if r.exit == EndOfList && r.w.buf != [] then
      RoundEnds(cs, w);
      Write(cs, r.w)
    else r
  }

  lemma PulledNoClash(cs: nat, w: Walk)
    requires Ready(cs, w) && 0 < w.i && Pulled(w)
    ensures NoClash(cs, w.l, w.o)
  {
  }

  /** Without a clash the list stays sorted and disjoint, and it holds exactly the old bytes with the
      consumed part of buf on top. */
  lemma {:induction false} WriteKeeps(cs: nat, w: Walk)
    requires 0 < cs && WellFormed(w.l, cs) && w.buf != [] && NoClash(cs, w.l, w.o)
    ensures var r := Write(cs, w); WellFormed(r.w.l, cs) && Advance(w, r.w)
    decreases if LastEnd(w.l) <= w.o then 0 else 1 + |w.l|
  {
    if LastEnd(w.l) <= w.o {
      AppendKeeps(cs, w);
    } else {
      var v := w.(i := 0, prev := false);
      var r := Pass(cs, v);
      TraversePass(cs, v, |w.l|);
      assert Advance(w, r.w);
      if r.exit == EndOfList {
        EndOrdered(cs, r.w, |w.l|);
        hide Inv, Pass;
        if r.w.buf != [] {
          RoundEnds(cs, w);
          WriteKeeps(cs, r.w);
          AdvanceTrans(w, r.w, Write(cs, r.w).w);
        }
      }
    }
  }

  lemma EndOrdered(cs: nat, w: Walk, start: nat)
    requires Inv(cs, w, start) && w.i == |w.l|
    ensures WellFormed(w.l, cs)
    ensures w.buf != [] ==> NoClash(cs, w.l, w.o) && (LastEnd(w.l) <= w.o || |w.l| < start)
  {
    if w.buf != [] && w.prev {
      if Pulled(w) { PulledNoClash(cs, w); }
    }
  }

  lemma {:induction false} RunPrefix(cs: nat, w: Walk, limit: nat)
    requires Ready(cs, w)
    ensures Prefix(w, InsertRun(cs, w, limit).w)
    decreases |w.buf|
  {
    if !(w.buf == [] || w.o >= limit) && CanAlloc(w) {
      hide Inserted;
      RunPrefix(cs, Inserted(cs, w), limit);
    }
  }

  lemma FillPrefix(cs: nat, w: Walk)
    requires 0 < cs && Fits(w.l, cs)
    ensures Prefix(w.(i := |w.l|), FillLast(cs, w))
  {
  }

  /** Appending leaves all requests in place. */
  lemma AppendPrefix(cs: nat, w: Walk, k: nat)
    requires 0 < cs && Fits(w.l, cs) && k + 1 < |w.l|
    ensures var r := Append(cs, w);
            k + 1 < |r.w.l| && r.w.l[..k + 1] == w.l[..k + 1] && r.w.l[k + 1].offset == w.l[k + 1].offset
  {
    FillPrefix(cs, w);
    hide InsertRun, FillLast, Fits, Prefix;
    var v := FillLast(cs, w);
    var r := InsertRun(cs, v, v.o + |v.buf|);
    assert Append(cs, w) == r;
    hide Append;
    RunPrefix(cs, v, v.o + |v.buf|);
    PrefixTrans(w.(i := |w.l|), v, r.w);
    PrefixSlice(w.(i := |w.l|), r.w, k);
  }

  lemma WriteStale(cs: nat, w: Walk, k: nat)
    requires 0 < cs && WellFormed(w.l, cs) && w.buf != [] && Clash(cs, w.l, k, w.o)
    ensures var r := Write(cs, w);
            && (Fed(cs, w, k) ==> k + 1 < |r.w.l| && r.w.l[k + 1].offset == w.o && Stale(w.l, r.w.l, k, w.o))
            && (!Fed(cs, w, k) ==>
                  r.exit == Pressure && r.w.o == w.o && r.w.buf == w.buf && r.w.l == Merge(cs, w.l, k + 1).l)
  {
    assert w.l[k + 1].End() <= LastEnd(w.l);
    var v := w.(i := 0, prev := false);
    ClashPass(cs, v, k);
    var p := Pass(cs, v);
    hide Pass;
    if p.exit == EndOfList && p.w.buf != [] {
      assert Write(cs, w) == Append(cs, p.w);
      AppendPrefix(cs, p.w, k);
      hide Append;
      assert Append(cs, p.w).w.l[k] == p.w.l[..k + 1][k];
    }
  }

  /** With a clash and a block to write to, the write still ends or waits for more blocks, but the list overlaps, and a
      read at the first byte written still finds the old byte. */
  lemma WriteClashes(cs: nat, w: Walk, k: nat)
    requires 0 < cs && WellFormed(w.l, cs) && w.buf != [] && Clash(cs, w.l, k, w.o) && Fed(cs, w, k)
    ensures var r := Write(cs, w);
            !Ordered(r.w.l) && CellAt(w.l, w.o).Held? && CellAt(r.w.l, w.o) == CellAt(w.l, w.o)
  {
    WriteStale(cs, w, k);
    var r := Write(cs, w);
    CellCut(r.w.l, k + 1, k + 1, w.o);
  }

  /** With a clash and no block, the replicas are merged, nothing is written and nothing has changed. */
  lemma WriteStarves(cs: nat, w: Walk, k: nat)
    requires 0 < cs && WellFormed(w.l, cs) && w.buf != [] && Clash(cs, w.l, k, w.o) && !Fed(cs, w, k)
    ensures var r := Write(cs, w); r.exit == Pressure && WellFormed(r.w.l, cs) && Advance(w, r.w) && r.w.o == w.o
  {
    WriteStale(cs, w, k);
    MergeOrdered(cs, w.l, k + 1);
    hide Write;
    var r := Write(cs, w);
    forall x: nat ensures CellAt(r.w.l, x) == CellAt(w.l, x) { CellMerge(cs, w.l, k + 1, x); }
    AdvanceSame(w, r.w);
  }

  /** Two replicas clash where the write starts, and there is a block for its first bytes. */
  predicate Harms(cs: nat, w: Walk, k: nat) { Clash(cs, w.l, k, w.o) && Fed(cs, w, k) }

  predicate Safe(cs: nat, w: Walk) { forall k :: 0 <= k < |w.l| ==> !Harms(cs, w, k) }

  /** A write that is safe keeps the list sorted and disjoint, and what of the buffer went in is a prefix that stands
      where it belongs. */
  lemma SafeKeeps(cs: nat, w: Walk)
    requires 0 < cs && WellFormed(w.l, cs) && w.buf != [] && Safe(cs, w)
    ensures var r := Write(cs, w); WellFormed(r.w.l, cs) && Advance(w, r.w)
  {
    if NoClash(cs, w.l, w.o) {
      WriteKeeps(cs, w);
    } else {
      var k :| 0 <= k < |w.l| && Clash(cs, w.l, k, w.o);
      assert !Harms(cs, w, k);
      WriteStarves(cs, w, k);
    }
  }

  /** `unified_write`, for every supply of blocks, does what a write of a prefix to a flat file does, exactly when no
      two replica requests clash at the offset it starts at, or there is no block for its first bytes. */
  lemma WriteExact(cs: nat, w: Walk)
    requires 0 < cs && WellFormed(w.l, cs) && w.buf != []
    ensures var r := Write(cs, w); WellFormed(r.w.l, cs) && Advance(w, r.w) <==> Safe(cs, w)
    ensures var r := Write(cs, w); r.exit != Pressure ==> (Safe(cs, w) <==> NoClash(cs, w.l, w.o)) && r.w.buf == []
  {
    if Safe(cs, w) {
      SafeKeeps(cs, w);
      if !NoClash(cs, w.l, w.o) {
        var k :| 0 <= k < |w.l| && Clash(cs, w.l, k, w.o);
        assert !Harms(cs, w, k);
        WriteStarves(cs, w, k);
      }
    } else {
      var k :| 0 <= k < |w.l| && Harms(cs, w, k);
      WriteClashes(cs, w, k);
    }
  }

  // ----- what a write leaves over, safe or not

  /** The cursor has moved on and the buffer has become shorter by as much. */
  predicate Spent(w: Walk, v: Walk) { w.o <= v.o <= w.o + |w.buf| && v.buf == w.buf[v.o - w.o..] }

  lemma SpentTrans(u: Walk, v: Walk, w: Walk)
    requires Spent(u, v) && Spent(v, w)
    ensures Spent(u, w)
  {
  }

  lemma SpentSame(w: Walk)
    ensures Spent(w, w) && Spent(w, w.(spare := true))
  {
  }

  lemma SpentInserted(cs: nat, w: Walk)
    requires Ready(cs, w) && w.buf != [] && CanAlloc(w)
    ensures Ready(cs, Inserted(cs, w)) && Spent(w, Inserted(cs, w))
  {
    hide Inserted;
  }

  lemma {:induction false} SpentRun(cs: nat, w: Walk, limit: nat)
    requires Ready(cs, w)
    ensures Spent(w, InsertRun(cs, w, limit).w)
    decreases |w.buf|
  {
    hide Inserted, Spent;
    SpentSame(w);
    if !(w.buf == [] || w.o >= limit) && CanAlloc(w) {
      var v := Inserted(cs, w);
      SpentInserted(cs, w);
      SpentRun(cs, v, limit);
      SpentTrans(w, v, InsertRun(cs, v, limit).w);
    }
  }

  predicate NextSpent(w: Walk, n: Next) {
    match n
    case Leave(out) => Spent(w, out.w)
    case Continue(c) => Spent(w, c)
    case Retry(c) => Spent(w, c)
  }

  lemma SpentOverlap(cs: nat, m: Walk, did: bool)
    requires Ready(cs, m) && m.i < |m.l|
    ensures NextSpent(m, Overlap(cs, m, did))
  {
  }

  lemma SpentVisit(cs: nat, w: Walk)
    requires Ready(cs, w) && w.i < |w.l|
    ensures NextSpent(w, Visit(cs, w))
  {
    SpentRun(cs, w, w.l[w.i].offset);
    hide InsertRun, Overlap;
    var ins := InsertRun(cs, w, w.l[w.i].offset);
    if ins.exit != Pressure {
      var (m, ret) := MergePrev(cs, ins.w);
      hide MergePrev;
      assert Spent(w, m);
      if ret != 2 {
        SpentOverlap(cs, m, ret != 0);
        match Overlap(cs, m, ret != 0)
        case Leave(out) => SpentTrans(w, m, out.w);
        case Continue(c) => SpentTrans(w, m, c);
        case Retry(c) => SpentTrans(w, m, c);
      }
    }
  }

  lemma {:induction false} SpentPass(cs: nat, w: Walk)
    requires Ready(cs, w)
    ensures Spent(w, Pass(cs, w).w)
    decreases |w.l| - w.i, |w.buf|, 2
  {
    hide Skip, Resume;
    if w.i < |w.l| {
      if w.o > w.l[w.i].End() {
        SpentSkip(cs, w);
        SpentPass(cs, Skip(cs, w));
      } else {
        SpentResume(cs, w);
      }
    }
  }

  lemma SpentSkip(cs: nat, w: Walk)
    requires Ready(cs, w) && w.i < |w.l|
    ensures Skip(cs, w).o == w.o && Skip(cs, w).buf == w.buf
  {
  }

  lemma {:induction false} SpentResume(cs: nat, w: Walk)
    requires Ready(cs, w) && w.i < |w.l|
    ensures Spent(w, Resume(cs, w).w)
    decreases |w.l| - w.i, |w.buf|, if w.o < w.l[w.i].offset then 0 else 1
  {
    SpentVisit(cs, w);
    hide Visit, Pass, Spent;
    match Visit(cs, w)
    case Leave(out) =>
    case Continue(c) =>
      SpentPass(cs, c);
      SpentTrans(w, c, Pass(cs, c).w);
    case Retry(c) =>
      SpentResume(cs, c);
      SpentTrans(w, c, Resume(cs, c).w);
  }

  lemma SpentFill(cs: nat, w: Walk)
    requires 0 < cs && Fits(w.l, cs)
    ensures Ready(cs, FillLast(cs, w)) && Spent(w, FillLast(cs, w))
  {
  }

  lemma SpentAppend(cs: nat, w: Walk)
    requires 0 < cs && Fits(w.l, cs)
    ensures Spent(w, Append(cs, w).w)
  {
    hide FillLast, InsertRun, Spent, Fits;
    SpentFill(cs, w);
    var v := FillLast(cs, w);
    SpentRun(cs, v, v.o + |v.buf|);
    SpentTrans(w, v, InsertRun(cs, v, v.o + |v.buf|).w);
  }

  /** What is left of the buffer is what was not consumed, whatever became of the list. */
  lemma {:induction false} WriteSpends(cs: nat, w: Walk)
    requires 0 < cs && Fits(w.l, cs) && w.buf != [] && (LastEnd(w.l) <= w.o || Ordered(w.l))
    ensures Spent(w, Write(cs, w).w)
    decreases if LastEnd(w.l) <= w.o then 0 else 1 + |w.l|
  {
    if LastEnd(w.l) <= w.o {
      SpentAppend(cs, w);
    } else {
      var v := w.(i := 0, prev := false);
      SpentPass(cs, v);
      var r := Pass(cs, v);
      hide Pass, Append;
      if r.exit == EndOfList && r.w.buf != [] {
        RoundEnds(cs, w);
        WriteSpends(cs, r.w);
        SpentTrans(w, r.w, Write(cs, r.w).w);
      }
    }
  }
}
