/**
 The traversal of `unified_write`: what every visit of the loop body keeps, and what one whole
 traversal has done to the bytes held in the list.
 */
module WriteProofs {
  import opened Bytes
  import opened Requests
  import opened Cells

  /** What a write of buf at o has done so far to the cell at x, when n bytes are consumed: consumed
      bytes are held as dirty bytes, bytes still to come may have lost a replica, the rest is as before. */
  predicate WroteAt(l0: seq<Req>, o: nat, buf: seq<byte>, l1: seq<Req>, n: nat, x: nat)
    requires n <= |buf|
  {
    if o <= x < o + n then CellAt(l1, x) == Held(buf[x - o], false)
    else if o + n <= x < o + |buf| then
      CellAt(l1, x) == CellAt(l0, x) || (CellAt(l0, x).Held? && CellAt(l0, x).ip && CellAt(l1, x) == Hole)
    else CellAt(l1, x) == CellAt(l0, x)
  }

  ghost predicate Wrote(l0: seq<Req>, o: nat, buf: seq<byte>, l1: seq<Req>, n: nat)
    requires n <= |buf|
  {
    forall x: nat :: WroteAt(l0, o, buf, l1, n, x)
  }

  /** v is a later state of the write w. */
  ghost predicate Advance(w: Walk, v: Walk) {
    && w.o <= v.o <= w.o + |w.buf|
    && v.buf == w.buf[v.o - w.o..]
    && Wrote(w.l, w.o, w.buf, v.l, v.o - w.o)
  }

  lemma AdvanceTrans(u: Walk, v: Walk, w: Walk)
    requires Advance(u, v) && Advance(v, w)
    ensures Advance(u, w)
  {
    assert w.buf == u.buf[w.o - u.o..];
    var n := w.o - u.o;
    forall x: nat ensures WroteAt(u.l, u.o, u.buf, w.l, n, x) {
      assert WroteAt(u.l, u.o, u.buf, v.l, v.o - u.o, x);
      assert WroteAt(v.l, v.o, v.buf, w.l, w.o - v.o, x);
    }
  }

  lemma AdvanceSame(w: Walk, v: Walk)
    requires v.o == w.o && v.buf == w.buf
    requires forall x: nat :: CellAt(v.l, x) == CellAt(w.l, x)
    ensures Advance(w, v)
  {
    forall x: nat ensures WroteAt(w.l, w.o, w.buf, v.l, 0, x) {
      assert CellAt(v.l, x) == CellAt(w.l, x);
    }
  }

  /** Two adjacent replica requests meet exactly at o, the first has room, and the second is not
      swallowed whole as the last of the list: merging them would pull old bytes ahead of the write. */
  predicate Clash(cs: nat, l: seq<Req>, k: nat, o: nat) {
    && k + 1 < |l| && l[k].ip && l[k + 1].ip
    && l[k].End() == o == l[k + 1].offset
    && |l[k].data| < cs
    && !(k + 2 == |l| && |l[k].data| + |l[k + 1].data| <= cs)
  }

  predicate NoClash(cs: nat, l: seq<Req>, o: nat) { forall k :: 0 <= k < |l| ==> !Clash(cs, l, k, o) }

  /** prev_req ends where the new bytes go on, and nothing can be merged into it. */
  predicate AtCursor(cs: nat, w: Walk)
    requires 0 < w.i <= |w.l|
  {
    w.l[w.i - 1].End() == w.o && (w.l[w.i - 1].ip || |w.l[w.i - 1].data| == cs)
  }

  /** prev_req is a replica that swallowed the last request of the list. */
  predicate Pulled(w: Walk)
    requires 0 < w.i <= |w.l|
  {
    w.i == |w.l| && w.l[w.i - 1].ip && Ordered(w.l) && w.l[w.i - 1].offset < w.o < w.l[w.i - 1].End()
  }

  /** The loop invariant of the traversal; start is the length of the list when it began. */
  predicate Inv(cs: nat, w: Walk, start: nat) {
    && Ready(cs, w)
    && OrderedOn(w.l, 0, w.i) && OrderedOn(w.l, w.i, |w.l|)
    && (!w.prev ==>
        && Ordered(w.l) && (forall j :: 0 <= j < w.i ==> w.l[j].End() < w.o)
        && NoClash(cs, w.l, w.o) && |w.l| <= start && w.buf != [])
    && (w.prev ==> var p := w.l[w.i - 1];
        && w.o <= p.End()
        && (w.i < |w.l| ==> p.offset < w.l[w.i].offset)
        && (p.ip ==> Ordered(w.l))
        && (w.buf != [] ==> AtCursor(cs, w) || (Pulled(w) && |w.l| < start))
        && (w.buf != [] && p.ip ==>
            && !Clash(cs, w.l, w.i - 1, w.o)
            && (|w.l| <= start || (w.i < |w.l| && w.o < w.l[w.i].offset))))
  }

  lemma OrderedJoin(l: seq<Req>, i: nat)
    requires i <= |l| && OrderedOn(l, 0, i) && OrderedOn(l, i, |l|)
    requires 0 < i < |l| ==> l[i - 1].End() <= l[i].offset
    ensures Ordered(l)
  {
    forall a, b | 0 <= a < b < |l| ensures l[a].End() <= l[b].offset {
      if a < i <= b {
        assert a < i - 1 ==> l[a].End() <= l[i - 1].offset;
        assert i < b ==> l[i].End() <= l[b].offset;
      }
    }
  }

  // ----- inserting new requests

  /** The state in which a new request may go in before request i. */
  predicate InsertSpot(cs: nat, w: Walk) {
    && Ready(cs, w) && w.buf != [] && Ordered(w.l)
    && (forall j :: 0 <= j < w.i ==> w.l[j].End() <= w.o)
    && (w.i < |w.l| ==> w.o < w.l[w.i].offset)
  }

  lemma InsertOneInv(cs: nat, w: Walk, start: nat)
    requires InsertSpot(cs, w) && CanAlloc(w)
    ensures Inv(cs, Inserted(cs, w), start)
  {
    var c := Chunk(cs, w.o, w.buf);
    var v := Inserted(cs, w);
    hide Inserted;
  }

  lemma InsertOneCells(cs: nat, w: Walk)
    requires InsertSpot(cs, w) && CanAlloc(w)
    ensures Advance(w, Inserted(cs, w)) && Inserted(cs, w).o > w.o
  {
    var c := Chunk(cs, w.o, w.buf);
    var v := Inserted(cs, w);
    var n := v.o - w.o;
    forall x: nat ensures WroteAt(w.l, w.o, w.buf, v.l, n, x) {
      CellInsert(w.l, w.i, c, x);
      CellCut(w.l, w.i, w.i, x);
      if w.o <= x < v.o { CellHole(w.l[..w.i], x); }
    }
  }

  lemma InvSpot(cs: nat, w: Walk, start: nat)
    requires Inv(cs, w, start) && w.i < |w.l| && w.buf != [] && w.o < w.l[w.i].offset
    ensures InsertSpot(cs, w)
  {
    if w.prev {
      OrderedJoin(w.l, w.i);
      assert forall j :: 0 <= j < w.i - 1 ==> w.l[j].End() <= w.l[w.i - 1].offset;
    }
  }

  lemma {:induction false} InsertRunKeeps(cs: nat, w: Walk, limit: nat, start: nat)
    requires Inv(cs, w, start) && w.i < |w.l| && limit == w.l[w.i].offset
    ensures var r := InsertRun(cs, w, limit);
            && Inv(cs, r.w, start) && Advance(w, r.w)
            && (r.exit == Pressure ==> Ordered(r.w.l))
            && r.w.i < |r.w.l| && r.w.l[r.w.i] == w.l[w.i]
    decreases |w.buf|
  {
    hide Advance, CellAt;
    if w.buf == [] || w.o >= limit {
      AdvanceSame(w, w);
    } else {
      InvSpot(cs, w, start);
      if CanAlloc(w) {
        var v := Inserted(cs, w);
        InsertOneInv(cs, w, start);
        InsertOneCells(cs, w);
        assert v.l[v.i] == w.l[w.i];
        InsertRunKeeps(cs, v, limit, start);
        AdvanceTrans(w, v, InsertRun(cs, v, limit).w);
      } else {
        AdvanceSame(w, w.(spare := true));
      }
    }
  }

  // ----- merging request i into prev_req

  /** With bytes still to be written, nothing moves into prev_req except in the harmless corner. */
  lemma MovedNothing(cs: nat, w: Walk, start: nat)
    requires Inv(cs, w, start) && w.i < |w.l| && w.prev && w.buf != [] && w.l[w.i].offset <= w.l[w.i - 1].End()
    ensures var dest, src := w.l[w.i - 1], w.l[w.i];
            && dest.End() == w.o
            && (dest.ip ==> src.offset == w.o)
            && (Moved(cs, dest, src) != [] ==>
                dest.ip && src.ip && |Moved(cs, dest, src)| == |src.data| && w.i + 1 == |w.l| && |w.l| <= start)
            && (Moved(cs, dest, src) == [] ==> dest.ip || |dest.data| == cs)
  {
    var dest, src := w.l[w.i - 1], w.l[w.i];
    if dest.ip && |dest.data| < cs && src.ip {
      assert !Clash(cs, w.l, w.i - 1, w.o);
    }
  }

  lemma MergeTrimmed(cs: nat, w: Walk, start: nat)
    requires Inv(cs, w, start) && w.i < |w.l| && w.prev && w.l[w.i].offset <= w.l[w.i - 1].End()
    requires 0 < Cut(cs, w.l[w.i - 1], w.l[w.i]) < |w.l[w.i].data|
    ensures var l1 := Merge(cs, w.l, w.i).l;
            Inv(cs, w.(l := l1), start) && Ordered(l1) && w.o <= l1[w.i].End()
  {
    hide Moved, Taker, CellAt;
    if w.buf != [] { MovedNothing(cs, w, start); }
    var l1 := Merge(cs, w.l, w.i).l;
    assert OrderedOn(l1, 0, w.i) && OrderedOn(l1, w.i, |l1|);
    OrderedJoin(l1, w.i);
  }

  lemma MergeSwallowed(cs: nat, w: Walk, start: nat)
    requires Inv(cs, w, start) && w.i < |w.l| && w.prev && w.l[w.i].offset <= w.l[w.i - 1].End()
    requires |w.l[w.i].data| <= Cut(cs, w.l[w.i - 1], w.l[w.i])
    ensures Inv(cs, w.(l := Merge(cs, w.l, w.i).l), start)
  {
    hide Moved, Taker, CellAt;
    if w.buf != [] { MovedNothing(cs, w, start); }
    var l2 := Merge(cs, w.l, w.i).l;
    assert forall j :: w.i <= j < |l2| ==> l2[j] == w.l[j + 1];
    if w.l[w.i - 1].ip {
      assert w.l[w.i - 1].End() <= w.l[w.i].offset;
      assert l2[w.i - 1].End() == Max(w.l[w.i - 1].End(), w.l[w.i].End());
      OrderedJoin(l2, w.i);
    }
  }

  lemma MergeCells(cs: nat, w: Walk)
    requires Ready(cs, w) && w.i < |w.l| && w.prev && w.l[w.i - 1].offset <= w.l[w.i].offset
    ensures Advance(w, MergePrev(cs, w).0)
  {
    var m := MergePrev(cs, w).0;
    forall x: nat ensures CellAt(m.l, x) == CellAt(w.l, x) { CellMerge(cs, w.l, w.i, x); }
    AdvanceSame(w, m);
  }

  lemma MergeApart(cs: nat, w: Walk, start: nat)
    requires Inv(cs, w, start) && w.i < |w.l| && w.prev && w.l[w.i - 1].End() <= w.l[w.i].offset
    ensures Ordered(w.l) && w.o <= w.l[w.i].End()
  {
    OrderedJoin(w.l, w.i);
  }

  lemma MergeInv(cs: nat, w: Walk, start: nat)
    requires Ready(cs, w) && Inv(cs, w, start) && w.i < |w.l| && w.prev
    ensures var m := Merge(cs, w.l, w.i);
            && Inv(cs, w.(l := m.l), start)
            && (m.ret != 2 ==> Ordered(m.l) && w.o <= m.l[w.i].End())
  {
    hide Inv, Ordered;
    if w.l[w.i].offset > w.l[w.i - 1].End() {
      MergeApart(cs, w, start);
    } else if Cut(cs, w.l[w.i - 1], w.l[w.i]) == 0 {
      MergeApart(cs, w, start);
    } else if Cut(cs, w.l[w.i - 1], w.l[w.i]) < |w.l[w.i].data| {
      MergeTrimmed(cs, w, start);
    } else {
      MergeSwallowed(cs, w, start);
    }
  }

  lemma MergeKeeps(cs: nat, w: Walk, start: nat)
    requires Inv(cs, w, start) && w.i < |w.l| && w.prev
    ensures var (m, ret) := MergePrev(cs, w);
            && Inv(cs, m, start) && Advance(w, m) && m.i == w.i
            && (ret != 2 ==> Ordered(m.l) && m.o <= m.l[m.i].End())
  {
    MergeCells(cs, w);
    MergeInv(cs, w, start);
    hide Inv;
    InvSpare(cs, w.(l := Merge(cs, w.l, w.i).l), MergePrev(cs, w).0, start);
  }

  lemma InvSpare(cs: nat, w: Walk, v: Walk, start: nat)
    requires Inv(cs, w, start) && v == w.(spare := v.spare, grants := v.grants)
    ensures Inv(cs, v, start)
  {
  }

  // ----- the overlap between the new bytes and request i

  /** What holds after the merge, when request i is about to be looked at. */
  predicate Facing(cs: nat, m: Walk, start: nat) {
    Inv(cs, m, start) && m.i < |m.l| && Ordered(m.l) && m.o <= m.l[m.i].End()
  }

  /** The end of a visit keeps the invariant of the traversal. */
  ghost predicate NextKeeps(cs: nat, w: Walk, n: Next, start: nat) {
    match n
    case Leave(out) => Advance(w, out.w) && WellFormed(out.w.l, cs)
    case Continue(c) => Advance(w, c) && Inv(cs, c, start)
    case Retry(c) => Advance(w, c) && Inv(cs, c, start) && c.i < |c.l| && c.o <= c.l[c.i].End()
  }

  lemma Before(cs: nat, m: Walk, start: nat, x: nat)
    requires Facing(cs, m, start) && m.l[m.i].offset <= m.o && m.o <= x && m.buf != []
    ensures CellAt(m.l[..m.i], x) == Hole
    ensures m.prev ==> m.o == m.l[m.i].offset
  {
    forall j | 0 <= j < m.i ensures !m.l[..m.i][j].Covers(x) { assert m.l[j].End() <= m.l[m.i].offset; }
    CellHole(m.l[..m.i], x);
  }

  lemma After(l: seq<Req>, i: nat, x: nat)
    requires i < |l| && Ordered(l) && x < l[i].End()
    ensures CellAt(l[i + 1..], x) == Hole
  {
    var rest := l[i + 1..];
    forall j | 0 <= j < |rest| ensures !rest[j].Covers(x) { assert l[i].End() <= l[i + 1 + j].offset; }
    CellHole(rest, x);
  }

  lemma SettleKeeps(cs: nat, m: Walk, did: bool, start: nat)
    requires Facing(cs, m, start)
    requires m.buf != [] ==> m.l[m.i].offset <= m.o == m.l[m.i].End() && (m.l[m.i].ip || |m.l[m.i].data| == cs)
    ensures NextKeeps(cs, m, Settle(m, did), start)
  {
    var p := m.(prev := true, i := m.i + 1);
    AdvanceSame(m, p);
  }

  function Updated(cs: nat, m: Walk): Walk
    requires Ready(cs, m) && m.i < |m.l| && m.l[m.i].offset <= m.o <= m.l[m.i].End()
  {
    var n := Min(Room(cs, m.l[m.i], m.o), |m.buf|);
    m.(l := Update(cs, m.l, m.i, m.o, m.buf), o := m.o + n, buf := m.buf[n..])
  }

  lemma UpdateCells(cs: nat, m: Walk, start: nat)
    requires Facing(cs, m, start) && m.buf != [] && m.l[m.i].offset <= m.o && !m.l[m.i].ip
    ensures Advance(m, Updated(cs, m))
  {
    var v := Updated(cs, m);
    var n := v.o - m.o;
    forall x: nat ensures WroteAt(m.l, m.o, m.buf, v.l, n, x) {
      CellUpdate(cs, m.l, m.i, m.o, m.buf, x);
      CellCutAt(m.l, m.i, x);
      if m.o <= x { Before(cs, m, start, x); }
    }
  }

  lemma UpdateInv(cs: nat, m: Walk, start: nat)
    requires Facing(cs, m, start) && m.buf != [] && m.l[m.i].offset <= m.o && !m.l[m.i].ip
    ensures Inv(cs, Updated(cs, m).(prev := true, i := m.i + 1), start)
  {
    var v := Updated(cs, m).(prev := true, i := m.i + 1);
    assert v.l[m.i] == Grown(m.l[m.i], m.o, m.buf[..v.o - m.o]);
    hide Grown;
  }

  predicate Dropped(m: Walk, l: seq<Req>, x: nat) {
    CellAt(l, x) == CellAt(m.l, x) ||
    (m.o <= x < m.o + |m.buf| && CellAt(m.l, x).Held? && CellAt(m.l, x).ip && CellAt(l, x) == Hole)
  }

  /** Dropping the replicas that lie under the bytes still to be written. */
  lemma DropAdvance(m: Walk, v: Walk)
    requires v.o == m.o && v.buf == m.buf
    requires forall x: nat :: Dropped(m, v.l, x)
    ensures Advance(m, v)
  {
    forall x: nat ensures WroteAt(m.l, m.o, m.buf, v.l, 0, x) {
      assert Dropped(m, v.l, x);
    }
  }

  /** A replica request under the cursor. */
  predicate OnIp(cs: nat, m: Walk, start: nat) {
    Facing(cs, m, start) && m.buf != [] && m.l[m.i].ip && m.l[m.i].offset <= m.o < m.l[m.i].End()
  }

  lemma IpRemoveCells(cs: nat, m: Walk, start: nat)
    requires OnIp(cs, m, start) && m.o == m.l[m.i].offset && |m.buf| >= |m.l[m.i].data|
    ensures Advance(m, m.(l := Removed(m.l, m.i), spare := true))
  {
    hide CellAt, Inv, Advance;
    var v := m.(l := Removed(m.l, m.i), spare := true);
    forall x: nat ensures Dropped(m, v.l, x) {
      CellRemove(m.l, m.i, x);
      CellCutAt(m.l, m.i, x);
      if m.l[m.i].Covers(x) { Before(cs, m, start, x); After(m.l, m.i, x); }
    }
    DropAdvance(m, v);
  }

  lemma IpRemoveFirst(cs: nat, m: Walk, start: nat)
    requires OnIp(cs, m, start) && m.o == m.l[m.i].offset && !m.prev
    ensures Inv(cs, m.(l := Removed(m.l, m.i), spare := true), start)
  {
    var l1 := Removed(m.l, m.i);
    hide Removed;
    assert forall j :: m.i <= j < |l1| ==> l1[j].offset > m.o;
  }

  lemma IpRemoveNext(cs: nat, m: Walk, start: nat)
    requires OnIp(cs, m, start) && m.o == m.l[m.i].offset && m.prev
    ensures Inv(cs, m.(l := Removed(m.l, m.i), spare := true), start)
  {
    var l1 := Removed(m.l, m.i);
    hide Removed;
    assert Ordered(l1);
    assert m.i < |l1| ==> l1[m.i].offset > m.o;
  }

  lemma IpFrontCells(cs: nat, m: Walk, start: nat)
    requires OnIp(cs, m, start) && m.o == m.l[m.i].offset && |m.buf| < |m.l[m.i].data|
    ensures var q := m.l[m.i];
            Advance(m, m.(l := m.l[m.i := Req(q.offset + |m.buf|, q.data[|m.buf|..], true)]))
  {
    hide CellAt, Inv, Advance;
    var q := m.l[m.i];
    var r := Req(q.offset + |m.buf|, q.data[|m.buf|..], true);
    var v := m.(l := m.l[m.i := r]);
    forall x: nat ensures Dropped(m, v.l, x) {
      CellSet(m.l, m.i, r, x);
      CellCutAt(m.l, m.i, x);
      if q.Covers(x) { Before(cs, m, start, x); After(m.l, m.i, x); }
    }
    DropAdvance(m, v);
  }

  lemma FrontOrdered(l: seq<Req>, i: nat, n: nat)
    requires Ordered(l) && i < |l| && n < |l[i].data|
    ensures Ordered(l[i := Req(l[i].offset + n, l[i].data[n..], true)])
  {
  }

  lemma IpFrontInv(cs: nat, m: Walk, start: nat)
    requires OnIp(cs, m, start) && m.o == m.l[m.i].offset && |m.buf| < |m.l[m.i].data|
    ensures var q := m.l[m.i];
            Inv(cs, m.(l := m.l[m.i := Req(q.offset + |m.buf|, q.data[|m.buf|..], true)]), start)
  {
    var q := m.l[m.i];
    var l1 := m.l[m.i := Req(q.offset + |m.buf|, q.data[|m.buf|..], true)];
    FrontOrdered(m.l, m.i, |m.buf|);
    assert forall j :: m.i <= j < |l1| ==> l1[j].offset > m.o;
  }

  lemma IpBackCells(cs: nat, m: Walk, start: nat)
    requires OnIp(cs, m, start) && m.l[m.i].offset < m.o && m.o + |m.buf| >= m.l[m.i].End()
    ensures Advance(m, m.(l := m.l[m.i := Head(m)]))
  {
    hide CellAt, Inv, Advance;
    var q := m.l[m.i];
    var r := Head(m);
    var v := m.(l := m.l[m.i := r]);
    forall x: nat ensures Dropped(m, v.l, x) {
      CellSet(m.l, m.i, r, x);
      CellCutAt(m.l, m.i, x);
      if q.Covers(x) && m.o <= x { Before(cs, m, start, x); After(m.l, m.i, x); }
    }
    DropAdvance(m, v);
  }

  /** A way to establish the invariant: the list is in order and prev_req ends at the cursor. */
  lemma InvHere(cs: nat, v: Walk, start: nat)
    requires Ready(cs, v) && v.prev && Ordered(v.l) && v.l[v.i - 1].End() == v.o && v.l[v.i - 1].ip
    requires v.i < |v.l| ==> v.o < v.l[v.i].offset
    requires |v.l| <= start || v.i < |v.l|
    ensures Inv(cs, v, start)
  {
  }

  lemma IpBackInv(cs: nat, m: Walk, start: nat)
    requires OnIp(cs, m, start) && m.l[m.i].offset < m.o
    ensures Inv(cs, m.(l := m.l[m.i := Head(m)], prev := true, i := m.i + 1), start)
  {
    Before(cs, m, start, m.o);
    var v := m.(l := m.l[m.i := Head(m)], prev := true, i := m.i + 1);
    assert |v.l| <= start;
    hide Inv;
    assert Ordered(v.l);
    InvHere(cs, v, start);
  }

  lemma IpSplitCells(cs: nat, m: Walk, start: nat)
    requires OnIp(cs, m, start) && m.l[m.i].offset < m.o && m.o + |m.buf| < m.l[m.i].End()
    ensures Advance(m, Parted(cs, m))
  {
    var v := Parted(cs, m);
    hide Dropped;
    forall x: nat ensures Dropped(m, v.l, x) { IpSplitAt(cs, m, start, x); }
    hide Parted;
    DropAdvance(m, v);
  }

  lemma IpSplitAt(cs: nat, m: Walk, start: nat, x: nat)
    requires OnIp(cs, m, start) && m.l[m.i].offset < m.o && m.o + |m.buf| < m.l[m.i].End()
    ensures Dropped(m, Parted(cs, m).l, x)
  {
    hide CellAt, SplitInTwo, Inv;
    CellSplitInTwo(m.l, m.i, Head(m), Tail(m), x);
    CellCutAt(m.l, m.i, x);
    if m.l[m.i].Covers(x) && m.o <= x { Before(cs, m, start, x); After(m.l, m.i, x); }
  }

  lemma IpSplitInv(cs: nat, m: Walk, start: nat)
    requires OnIp(cs, m, start) && m.l[m.i].offset < m.o && m.o + |m.buf| < m.l[m.i].End()
    ensures Inv(cs, Parted(cs, m), start)
  {
    var v := Parted(cs, m);
    hide SplitInTwo, Inv, Parted;
    assert Ordered(v.l);
    InvHere(cs, v, start);
  }

  lemma LeaveKeeps(cs: nat, m: Walk, start: nat)
    requires Facing(cs, m, start)
    ensures NextKeeps(cs, m, Leave(Outcome(m.(spare := true), Pressure)), start)
  {
    AdvanceSame(m, m.(spare := true));
  }

  lemma IpBackKeeps(cs: nat, m: Walk, did: bool, start: nat)
    requires OnIp(cs, m, start) && m.l[m.i].offset < m.o && m.o + |m.buf| >= m.l[m.i].End()
    ensures NextKeeps(cs, m, Settle(m.(l := m.l[m.i := Head(m)]), did), start)
  {
    IpBackCells(cs, m, start);
    IpBackInv(cs, m, start);
    hide Inv;
  }

  lemma VisitIpKeeps(cs: nat, m: Walk, did: bool, start: nat)
    requires Ready(cs, m) && m.i < |m.l| && m.buf != [] && m.l[m.i].ip && m.l[m.i].offset <= m.o < m.l[m.i].End()
    requires OnIp(cs, m, start)
    ensures NextKeeps(cs, m, VisitIp(cs, m, did), start)
  {
    hide Inv, Advance, WellFormed;
    var q := m.l[m.i];
    if m.o == q.offset && |m.buf| >= |q.data| {
      IpRemoveCells(cs, m, start);
      if m.prev { IpRemoveNext(cs, m, start); } else { IpRemoveFirst(cs, m, start); }
    } else if m.o == q.offset {
      IpFrontCells(cs, m, start); IpFrontInv(cs, m, start);
    } else if m.o + |m.buf| >= q.End() {
      IpBackKeeps(cs, m, did, start);
    } else if !CanAlloc(m) {
      LeaveKeeps(cs, m, start);
    } else {
      IpSplitCells(cs, m, start); IpSplitInv(cs, m, start);
      hide Parted;
    }
  }
}
