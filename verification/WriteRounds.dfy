/**
 When `unified_write` jumps back to do_append with bytes left, does it take the append branch? Exactly if
 the traversal has not swallowed the last request of the list into a replica before it.
 */
module WriteRounds {
  import opened Bytes
  import opened Requests
  import opened Cells
  import opened WriteProofs
  import opened WriteTheorem

  /** Replicas k and k + 1 meet at o, and the first has room: bytes of the second would be pulled into it. */
  predicate Meets(cs: nat, l: seq<Req>, k: nat, o: nat) {
    && k + 1 < |l| && l[k].ip && l[k + 1].ip && l[k].End() == o == l[k + 1].offset && |l[k].data| < cs
  }

  /** The second of them is the last request, and both together fit one block. */
  predicate Swallows(cs: nat, l: seq<Req>, o: nat) {
    |l| >= 2 && Meets(cs, l, |l| - 2, o) && |l[|l| - 2].data| + |l[|l| - 1].data| <= cs
  }

  predicate NoMeeting(cs: nat, l: seq<Req>, o: nat) { forall k :: 0 <= k < |l| ==> !Meets(cs, l, k, o) }

  /** No new byte is in the list yet. Either the traversal is still looking for the place, or it has just put
      a replica that ends at the cursor behind it; and nothing will be pulled into that. */
  predicate Quiet(cs: nat, w: Walk) {
    && Ready(cs, w) && w.buf != [] && Ordered(w.l) && NoMeeting(cs, w.l, w.o)
    && (!w.prev ==> forall j :: 0 <= j < w.i ==> w.l[j].End() < w.o)
    && (w.prev ==> w.l[w.i - 1].ip && w.l[w.i - 1].End() == w.o)
  }

  /** What a traversal has come to: still quiet, or new bytes are in the list. */
  predicate Going(cs: nat, w: Walk) { Dirty(cs, w) || Quiet(cs, w) }

  /** Request i, with o in front of it: the new bytes go in first. */
  lemma QuietInserts(cs: nat, w: Walk)
    requires Quiet(cs, w) && w.i < |w.l| && w.o < w.l[w.i].offset && CanAlloc(w)
    ensures var v := Inserted(cs, w); Dirty(cs, v) && v.i < |v.l| && Resume(cs, w) == Resume(cs, v)
  {
    var v := Inserted(cs, w);
    assert InsertRun(cs, w, w.l[w.i].offset) == InsertRun(cs, v, v.l[v.i].offset);
    assert Visit(cs, w) == Visit(cs, v);
    hide InsertRun, Visit, Inserted, Fits;
  }

  /** With o inside or at the end of request i, nothing is inserted and nothing merged. */
  lemma QuietVisit(cs: nat, w: Walk)
    requires Quiet(cs, w) && w.i < |w.l| && w.l[w.i].offset <= w.o <= w.l[w.i].End()
    ensures Visit(cs, w) == Overlap(cs, w, false)
  {
    hide InsertRun, MergePrev, Overlap, NoMeeting, Ordered;
    QuietRun(cs, w, w.l[w.i].offset);
    QuietMerge(cs, w);
  }

  lemma QuietRun(cs: nat, w: Walk, limit: nat)
    requires Ready(cs, w) && limit <= w.o
    ensures InsertRun(cs, w, limit) == Outcome(w, EndOfList)
  {
  }

  lemma QuietMerge(cs: nat, w: Walk)
    requires Quiet(cs, w) && w.i < |w.l| && w.l[w.i].offset <= w.o <= w.l[w.i].End()
    ensures MergePrev(cs, w) == (w, 0)
  {
    if w.prev {
      var dest, src := w.l[w.i - 1], w.l[w.i];
      assert dest.End() <= src.offset;
      assert !Meets(cs, w.l, w.i - 1, w.o);
      assert Moved(cs, dest, src) == [];
    }
  }

  predicate NextGoing(cs: nat, n: Next) {
    match n
    case Leave(out) => out.exit != EndOfList
    case Continue(c) => Going(cs, c)
    case Retry(c) => Quiet(cs, c) && c.i < |c.l| && c.o < c.l[c.i].offset
  }

  /** The new bytes go into a dirty request, or it is full and ends at the cursor. */
  lemma QuietDirty(cs: nat, m: Walk)
    requires Quiet(cs, m) && m.i < |m.l| && !m.l[m.i].ip && m.l[m.i].offset <= m.o <= m.l[m.i].End()
    ensures NextGoing(cs, Overlap(cs, m, false))
  {
  }

  lemma NoMeetingAfter(cs: nat, l: seq<Req>, i: nat, o: nat)
    requires Ordered(l) && i <= |l| && (i < |l| ==> o < l[i].offset)
    requires forall j :: 0 <= j < i - 1 ==> l[j].End() < o
    ensures NoMeeting(cs, l, o)
  {
  }

  lemma QuietRemove(cs: nat, m: Walk)
    requires Quiet(cs, m) && m.i < |m.l| && m.l[m.i].offset == m.o
    ensures Quiet(cs, m.(l := Removed(m.l, m.i), spare := true))
  {
    var l := Removed(m.l, m.i);
    Behind(cs, m);
    hide Removed;
    assert Ordered(l);
    NoMeetingAfter(cs, l, m.i, m.o);
  }

  lemma QuietFront(cs: nat, m: Walk)
    requires Quiet(cs, m) && m.i < |m.l| && m.l[m.i].offset == m.o && |m.buf| < |m.l[m.i].data|
    ensures var q := m.l[m.i]; Quiet(cs, m.(l := m.l[m.i := Req(q.offset + |m.buf|, q.data[|m.buf|..], true)]))
  {
    var q := m.l[m.i];
    Behind(cs, m);
    FrontOrdered(m.l, m.i, |m.buf|);
    NoMeetingAfter(cs, m.l[m.i := Req(q.offset + |m.buf|, q.data[|m.buf|..], true)], m.i, m.o);
  }

  lemma QuietBack(cs: nat, m: Walk)
    requires Quiet(cs, m) && m.i < |m.l| && m.l[m.i].ip && m.l[m.i].offset < m.o < m.l[m.i].End()
    ensures Quiet(cs, m.(l := m.l[m.i := Head(m)], prev := true, i := m.i + 1))
  {
    var l := m.l[m.i := Head(m)];
    Behind(cs, m);
    assert Ordered(l);
    NoMeetingAfter(cs, l, m.i + 1, m.o);
  }

  lemma QuietSplit(cs: nat, m: Walk)
    requires Quiet(cs, m) && m.i < |m.l| && m.l[m.i].ip && m.l[m.i].offset < m.o && m.o + |m.buf| < m.l[m.i].End()
    ensures var v := Parted(cs, m); Quiet(cs, v) && v.i < |v.l| && v.o < v.l[v.i].offset
  {
    Behind(cs, m);
    var v := Parted(cs, m);
    hide Parted, SplitInTwo;
    assert Ordered(v.l);
    NoMeetingAfter(cs, v.l, m.i + 1, m.o);
  }

  /** A replica under the new bytes is removed or cut: what follows starts behind the cursor. */
  lemma QuietIp(cs: nat, m: Walk)
    requires Quiet(cs, m) && m.i < |m.l| && m.l[m.i].ip && m.l[m.i].offset <= m.o < m.l[m.i].End()
    ensures NextGoing(cs, VisitIp(cs, m, false))
  {
    var q := m.l[m.i];
    if m.o == q.offset && |m.buf| >= |q.data| {
      QuietRemove(cs, m);
    } else if m.o == q.offset {
      QuietFront(cs, m);
    } else if m.o + |m.buf| >= q.End() {
      QuietBack(cs, m);
    } else if CanAlloc(m) {
      QuietSplit(cs, m);
    }
    hide NoMeeting, Ordered, Dirty, Removed, Parted;
  }

  /** Everything before the request the new bytes start in ends before them, except prev_req. */
  lemma Behind(cs: nat, m: Walk)
    requires Quiet(cs, m) && m.i < |m.l| && m.l[m.i].offset <= m.o
    ensures forall j :: 0 <= j < m.i - 1 ==> m.l[j].End() < m.o
    ensures m.l[m.i].offset < m.o && m.i > 0 ==> m.l[m.i - 1].End() < m.o
  {
    forall j | 0 <= j < m.i - 1 ensures m.l[j].End() < m.o { assert m.l[j].End() <= m.l[m.i - 1].offset; }
  }

  /** A request that ends at the cursor becomes prev_req. */
  lemma QuietEnd(cs: nat, m: Walk)
    requires Quiet(cs, m) && m.i < |m.l| && m.l[m.i].ip && m.l[m.i].End() == m.o
    ensures NextGoing(cs, Overlap(cs, m, false))
  {
  }

  lemma QuietNext(cs: nat, w: Walk)
    requires Quiet(cs, w) && w.i < |w.l| && w.l[w.i].offset <= w.o <= w.l[w.i].End()
    ensures NextGoing(cs, Visit(cs, w))
  {
    QuietVisit(cs, w);
    if !w.l[w.i].ip {
      QuietDirty(cs, w);
    } else if w.l[w.i].End() == w.o {
      QuietEnd(cs, w);
    } else {
      QuietIp(cs, w);
      hide VisitIp, Visit;
      assert Overlap(cs, w, false) == VisitIp(cs, w, false);
    }
  }

  lemma QuietSkip(cs: nat, w: Walk)
    requires Quiet(cs, w) && w.i < |w.l| && w.o > w.l[w.i].End()
    ensures Quiet(cs, Skip(cs, w))
  {
  }

  /** Where nothing can be pulled ahead of the cursor, a traversal that ends with bytes left has passed the last
      request. */
  lemma {:induction false} GoingPass(cs: nat, w: Walk)
    requires Going(cs, w)
    ensures var r := Pass(cs, w); r.exit == EndOfList && r.w.buf != [] ==> LastEnd(r.w.l) <= r.w.o
    decreases |w.l| - w.i, |w.buf|, 2
  {
    if Dirty(cs, w) {
      DirtyPass(cs, w);
    } else if w.i < |w.l| {
      if w.o > w.l[w.i].End() {
        QuietSkip(cs, w);
        hide Skip, Quiet, Dirty;
        GoingPass(cs, Skip(cs, w));
      } else {
        QuietResume(cs, w);
      }
    }
  }

  lemma {:induction false} QuietResume(cs: nat, w: Walk)
    requires Quiet(cs, w) && w.i < |w.l| && w.o <= w.l[w.i].End()
    ensures var r := Resume(cs, w); r.exit == EndOfList && r.w.buf != [] ==> LastEnd(r.w.l) <= r.w.o
    decreases |w.l| - w.i, |w.buf|, if w.o < w.l[w.i].offset then 0 else 1
  {
    if w.o < w.l[w.i].offset {
      if CanAlloc(w) {
        QuietInserts(cs, w);
        DirtyResume(cs, Inserted(cs, w));
      }
    } else {
      QuietNext(cs, w);
      hide Visit, Quiet, Dirty;
      match Visit(cs, w)
      case Leave(out) =>
      case Continue(c) => GoingPass(cs, c);
      case Retry(c) => QuietResume(cs, c);
    }
  }

  /** The last request is swallowed by the replica before it: the traversal ends with nothing written, and the
      list reaches past the cursor. */
  lemma SwallowedRound(cs: nat, w: Walk)
    requires 0 < cs && WellFormed(w.l, cs) && w.buf != [] && w.i == 0 && !w.prev && Swallows(cs, w.l, w.o)
    ensures var r := Pass(cs, w); r.exit == EndOfList && r.w.buf == w.buf && r.w.o == w.o < LastEnd(r.w.l)
  {
    var k := |w.l| - 2;
    SkipTo(cs, w, k);
    ClashMeet(cs, w.(i := k));
    var b := w.(i := k + 1, prev := true);
    SwallowVisit(cs, b);
    PassIsResume(cs, b);
    hide Visit;
  }

  lemma SwallowVisit(cs: nat, b: Walk)
    requires Ready(cs, b) && b.buf != [] && b.prev && b.i + 1 == |b.l| && Swallows(cs, b.l, b.o)
    ensures Visit(cs, b).Continue?
    ensures var c := Visit(cs, b).w; c.i == |c.l| && c.buf == b.buf && c.o == b.o < LastEnd(c.l)
  {
    var dest, src := b.l[b.i - 1], b.l[b.i];
    assert InsertRun(cs, b, src.offset) == Outcome(b, EndOfList);
    assert |Moved(cs, dest, src)| == |src.data|;
    hide InsertRun, Moved;
  }

  /** When the traversal ends with bytes left, the jump back takes the append branch, exactly if the last two
      requests are not replicas that meet at the write offset and fit one block together. */
  lemma RoundExact(cs: nat, w: Walk)
    requires 0 < cs && WellFormed(w.l, cs) && w.buf != []
    ensures var r := Pass(cs, w.(i := 0, prev := false));
            r.exit == EndOfList && r.w.buf != [] ==> (LastEnd(r.w.l) <= r.w.o <==> !Swallows(cs, w.l, w.o))
  {
    var v := w.(i := 0, prev := false);
    if Swallows(cs, w.l, w.o) {
      SwallowedRound(cs, v);
    } else if NoMeeting(cs, w.l, w.o) {
      GoingPass(cs, v);
    } else {
      var k :| 0 <= k < |w.l| && Meets(cs, w.l, k, w.o);
      ClashPass(cs, v, k);
    }
  }

  // ----- two writes

  /** Six bytes that wait to be copied to the index partition, in blocks of four. */
  function TwoCopies(): seq<Req> { [Req(0, [0, 0, 0, 0], true), Req(4, [0, 0], true)] }

  /** The list after writing two bytes at offset 0. */
  function Trimmed(): seq<Req> { [Req(0, [9, 9], false), Req(2, [0, 0], true), Req(4, [0, 0], true)] }

  lemma TrimVisit()
    ensures Visit(4, Walk(TwoCopies(), 0, false, 0, [9, 9], false, 1)) ==
            Retry(Walk([Trimmed()[1], Trimmed()[2]], 0, false, 0, [9, 9], false, 1))
  {
    var w := Walk(TwoCopies(), 0, false, 0, [9, 9], false, 1);
    assert TwoCopies()[0].data[2..] == [0, 0];
    assert TwoCopies()[0 := Req(2, [0, 0], true)] == [Trimmed()[1], Trimmed()[2]];
  }

  lemma TrimInsert()
    ensures Visit(4, Walk([Trimmed()[1], Trimmed()[2]], 0, false, 0, [9, 9], false, 1)) ==
            Leave(Outcome(Walk(Trimmed(), 2, true, 2, [], false, 0), Finished))
  {
    var m := Walk([Trimmed()[1], Trimmed()[2]], 0, false, 0, [9, 9], false, 1);
    assert Chunk(4, 0, [9, 9]).data == [9, 9];
    assert Inserted(4, m).l == Trimmed() && Inserted(4, m).buf == [];
    assert InsertRun(4, m, 2) == Outcome(Walk(Trimmed(), 1, true, 2, [], false, 0), EndOfList);
  }

  lemma TrimWrite()
    ensures Write(4, Walk(TwoCopies(), 0, false, 0, [9, 9], false, 1)) ==
            Outcome(Walk(Trimmed(), 2, true, 2, [], false, 0), Finished)
  {
    TrimVisit();
    TrimInsert();
    hide Visit;
  }

  /** A write of two bytes trims a replica, so that two of them meet and fit one block; a write of three bytes at that
      place then goes through the whole list, merges them and writes nothing. */
  lemma RoundInVain()
    ensures WellFormed(TwoCopies(), 4) && WellFormed(Trimmed(), 4)
    ensures NoClash(4, TwoCopies(), 0) && NoClash(4, Trimmed(), 4)
    ensures Write(4, Walk(TwoCopies(), 0, false, 0, [9, 9], false, 1)).w.l == Trimmed()
    ensures var r := Pass(4, Walk(Trimmed(), 0, false, 4, [7, 7, 7], false, 1));
            r.exit == EndOfList && r.w.buf == [7, 7, 7] && r.w.o == 4 < LastEnd(r.w.l)
  {
    TrimWrite();
    hide Write, Pass;
    SwallowedRound(4, Walk(Trimmed(), 0, false, 4, [7, 7, 7], false, 1));
  }
}
