/** Two mounts at whose end a file goes back to older bytes. Blocks hold four bytes; partition 0 is the index
    partition. */
module CopyExamples {
  import opened Bytes
  import opened Requests
  import opened WriteProofs
  import WriteTheorem
  import opened Interleave
  import opened InterleaveProofs
  import opened Extents
  import opened IndexCopies
  import A = AltExtents
  import R = RawTape

  function Plain(raw: seq<byte>, reqs: seq<Req>, size: nat): File {
    File(raw, reqs, [], size, true, IosFree, IoFree, map[], [])
  }

  // ----- one write, its way to the data partition and its copy

  lemma WriteAlone(raw: seq<byte>, off: nat, data: seq<byte>)
    requires 0 < |data| <= 4
    ensures var a, f := Write(off, data, false, 1), Plain(raw, [], |raw|);
            && Enabled(4, f, a) && Consumed(4, f, a) == |data|
            && Do(4, f, a) == Plain(raw, [Req(off, data, false)], Max(|raw|, off + |data|))
  {
    var a, f := Write(off, data, false, 1), Plain(raw, [], |raw|);
    var w := Start(f, a);
    assert data[..|data|] == data;
    assert Chunk(4, off, data) == Req(off, data, false);
    assert Inserted(4, w).l == [Req(off, data, false)];
    assert Inserted(4, w).buf == [];
  }

  lemma FlushAlone(raw: seq<byte>, size: nat, off: nat, data: seq<byte>)
    requires 0 < |data| <= 4
    ensures var f := Plain(raw, [Req(off, data, false)], size);
            && WellFormed(f.reqs, 4) && Enabled(4, f, Flush({off}))
            && Do(4, f, Flush({off})) == Plain(FlatWrite(raw, off, data), [Req(off, data, true)], size)
  {
    var l, l1, raw1 := [Req(off, data, false)], [Req(off, data, true)], FlatWrite(raw, off, data);
    assert l[0 := l[0].(ip := true)] == l1;
    assert FlushOne(4, l, 0, raw, true, {off}) == (l1, 1, raw1);
    assert FlushFrom(4, l1, 1, raw1, true, {off}) == (l1, raw1);
  }

  lemma QueueAlone(raw: seq<byte>, size: nat, off: nat, data: seq<byte>)
    requires 0 < |data| <= 4
    ensures var f := Plain(raw, [Req(off, data, true)], size);
            && WellFormed(f.reqs, 4) && Enabled(4, f, IndexQueue)
            && Do(4, f, IndexQueue) == Plain(raw, [], size)
  {
    var l := [Req(off, data, true)];
    assert DropIp(l[1..]) == [];
  }

  lemma OneMore(f: File, es: seq<Event>, c: Copies, t: Partition)
    requires es != [] && es[0].others == [] && WellFormed(f.reqs, 4) && Enabled(4, f, es[0].a)
    requires Runs(4, Do(4, f, es[0].a), Actions(es[1..]))
    ensures Runs(4, f, Actions(es))
    ensures var g := Do(4, f, es[0].a);
            var (c1, t1) := NextCopies(4, 0, 4, f, es[0].a, es[0].room, c, t);
            && Run(4, f, Actions(es)) == Run(4, g, Actions(es[1..]))
            && CopiesRun(4, 0, 4, f, es, c, t) == CopiesRun(4, 0, 4, g, es[1..], c1, t1)
  {
    hide Do, NextCopies, Enabled;
    ActionsNext(es);
    var (c1, t1) := NextCopies(4, 0, 4, f, es[0].a, es[0].room, c, t);
    assert t1 + es[0].others == t1;
  }

  /** Write, flush, and work through the index queue. */
  function Round(off: nat, data: seq<byte>, room: nat): seq<Event> {
    [Event(Write(off, data, false, 1), 0, []), Event(Flush({off}), 0, []), Event(IndexQueue, room, [])]
  }

  /** The offsets whose copies may be out of date, once a write of the given range is in the list. */
  function Rest(missed: set<nat>, off: nat, n: nat): set<nat> {
    missed - Range(off, off + n) + Range(off + n, off + n)
  }

  lemma RoundEnds(raw: seq<byte>, off: nat, data: seq<byte>, room: nat, es: seq<Event>, c: Copies, t: Partition)
    requires 0 < |data| <= 4
    requires var raw1 := FlatWrite(raw, off, data); Runs(4, Plain(raw1, [], |raw1|), Actions(es))
    ensures var raw1 := FlatWrite(raw, off, data);
            var f, g, l := Plain(raw, [], |raw|), Plain(raw1, [], |raw1|), [Req(off, data, true)];
            var (c1, t1) := Spill(4, 0, l, room, c.(missed := Rest(c.missed, off, |data|)), t);
            && Runs(4, f, Actions(Round(off, data, room) + es))
            && Run(4, f, Actions(Round(off, data, room) + es)) == Run(4, g, Actions(es))
            && CopiesRun(4, 0, 4, f, Round(off, data, room) + es, c, t) == CopiesRun(4, 0, 4, g, es, c1, t1)
  {
    hide Spill, Do, Enabled, Consumed;
    var raw1 := FlatWrite(raw, off, data);
    var e0 := Round(off, data, room) + es;
    var e1, e2 := e0[1..], e0[2..];
    assert e1[1..] == e2 && e2[1..] == es;
    WriteAlone(raw, off, data);
    FlushAlone(raw, |raw1|, off, data);
    QueueAlone(raw1, |raw1|, off, data);
    var f0, f2 := Plain(raw, [], |raw|), Plain(raw1, [Req(off, data, true)], |raw1|);
    var f1 := Do(4, f0, e0[0].a);
    var c1 := c.(missed := Rest(c.missed, off, |data|));
    OneMore(f2, e2, c1, t);
    OneMore(f1, e1, c1, t);
    OneMore(f0, e0, c, t);
  }

  lemma OneBlock(data: seq<byte>)
    requires 0 < |data| <= 4
    ensures R.Blocks(4, data) == [data]
  {
    assert data[..|data|] == data && data[|data|..] == [];
  }

  function Without(missed: set<nat>, off: nat, n: nat): set<nat> { missed - Range(off, off + n) }

  lemma NoneMissed(off: nat, n: nat)
    ensures Without(Rest({}, off, n), off, n) == {}
  {
    var none: set<nat> := {};
    assert none - Range(off, off + n) == none && Range(off + n, off + n) == {};
  }

  /** A copy for which there is room. */
  lemma CopyAlone(off: nat, data: seq<byte>, alt: seq<Extent>, t: Partition)
    requires 0 < |data| <= 4
    ensures Spill(4, 0, [Req(off, data, true)], 1, Copies(alt, Rest({}, off, |data|)), t) ==
            (Copies(A.Updated(4, alt, Extent(0, |t|, 0, |data|, off), false), {}), t + [data])
  {
    hide *;
    OneBlock(data);
    NoneMissed(off, |data|);
    SpillAlone(off, data, alt, Rest({}, off, |data|), t);
  }

  lemma SpillAlone(off: nat, data: seq<byte>, alt: seq<Extent>, missed: set<nat>, t: Partition)
    ensures Spill(4, 0, [Req(off, data, true)], 1, Copies(alt, missed), t) ==
            (Copies(A.Updated(4, alt, Extent(0, |t|, 0, |data|, off), false), Without(missed, off, |data|)),
             t + R.Blocks(4, data))
  {
    hide A.Updated, R.Blocks, Range;
    var r := Req(off, data, true);
    assert [r][0] == r && [r][1..] == [];
  }

  // ----- the index partition is full

  function Copied(): Extent { Extent(0, 0, 0, 2, 0) }

  /** A copy for which there is none. */
  lemma MissTwo(b: byte, t: Partition)
    ensures Spill(4, 0, [Req(0, [b, b], true)], 0, Copies([Copied()], Rest({}, 0, 2)), t) ==
            (Copies([Copied()], {0, 1}), t)
  {
    assert Rest({}, 0, 2) + Range(0, 2) == {0, 1};
    var l := [Req(0, [b, b], true)];
    assert l[0].End() == 2;
    assert l[1..] == [];
  }

  function NoRoom(): seq<Event> { Round(0, [5, 5], 1) + (Round(0, [6, 6], 0) + []) }

  /** Two bytes are written, reach the data partition and are copied. They are overwritten, reach the data
      partition again, and then the index partition is full. No error is reported, the file reads as it should;
      but when the list is saved at the end of the mount, the old bytes are back. */
  lemma OldBytesReturn(tape: R.Tape, d: Dentry, r: Dentry)
    requires 0 in tape
    requires var f := Opened([], true);
             && Runs(4, f, Actions(NoRoom())) && tape[0] == CopiesRun(4, 0, 4, f, NoRoom(), Copies([], {}), []).1
             && R.Contents(4, tape, d) == Run(4, f, Actions(NoRoom())).raw
             && A.Saved(4, d, CopiesRun(4, 0, 4, f, NoRoom(), Copies([], {}), []).0.alt, r)
    ensures var g := Run(4, Opened([], true), Actions(NoRoom()));
            Content(g) == [6, 6] && Idle(g) && R.Contents(4, tape, r) == [5, 5]
  {
    Mount();
    hide Round, CopiesRun, Run, Runs;
    var g := Run(4, Opened([], true), Actions(NoRoom()));
    assert forall x: nat :: ByteAt(g, x) == At([6, 6], x);
    OldCopies(tape, d, r);
  }

  lemma Mount()
    ensures var f := Opened([], true);
            && Runs(4, f, Actions(NoRoom())) && Run(4, f, Actions(NoRoom())) == Plain([6, 6], [], 2)
            && CopiesRun(4, 0, 4, f, NoRoom(), Copies([], {}), []) == (Copies([Copied()], {0, 1}), [[5, 5]])
  {
    hide Round, Spill, Rest;
    assert FlatWrite([], 0, [5, 5]) == [5, 5] && FlatWrite([5, 5], 0, [6, 6]) == [6, 6];
    RoundEnds([5, 5], 0, [6, 6], 0, [], Copies([Copied()], {}), [[5, 5]]);
    RoundEnds([], 0, [5, 5], 1, Round(0, [6, 6], 0) + [], Copies([], {}), []);
    CopyAlone(0, [5, 5], [], []);
    var none: Partition := [];
    assert none + [[5, 5]] == [[5, 5]];
    assert A.Updated(4, [], Copied(), false) == [Copied()];
    MissTwo(6, [[5, 5]]);
  }

  lemma OldCopies(tape: R.Tape, d: Dentry, r: Dentry)
    requires 0 in tape && tape[0] == [[5, 5]] && R.Contents(4, tape, d) == [6, 6] && A.Saved(4, d, [Copied()], r)
    ensures R.Contents(4, tape, r) == [5, 5]
  {
    assert A.Reach(d.size, [Copied()][..0]) == d.size;
    assert |R.Contents(4, tape, d)| == d.size;
    assert r.size == 2;
    forall x | 0 <= x < 2 ensures R.Contents(4, tape, r)[x] == 5 {
      assert A.SavedAt(4, d, [Copied()], r, x);
      WhereSmall(Copied(), x);
      assert A.Override(4, [Copied()], x) == Where(4, Copied(), x);
    }
  }

  // ----- no memory for a split

  function Whole(): Extent { Extent(0, 0, 0, 3, 0) }

  function Patch(): Extent { Extent(0, 1, 0, 1, 1) }

  function Patched(): seq<Event> { Round(0, [1, 1, 1], 1) + (Round(1, [9], 1) + []) }

  /** The tape after that, with the same blocks on both partitions, and the file's own extents. */
  function Blocks(): Partition { [[1, 1, 1], [9]] }

  function Cartridge(): R.Tape { map[0 := Blocks(), 1 := Blocks()] }

  function Own(): Dentry { Dentry([Extent(1, 0, 0, 1, 0), Extent(1, 1, 0, 1, 1), Extent(1, 0, 2, 1, 2)], 3, 3) }

  lemma PatchKept()
    ensures A.Updated(4, [Whole()], Patch(), false) == [Whole(), Patch()]
  {
    assert [Whole()][0] == Whole() && [Whole()][1..] == [];
    assert A.Updated(4, [], Patch(), false) == [Patch()];
    assert A.Piece(4, Whole(), Patch()) == [Whole()];
    assert !A.Joins(4, Whole(), Patch());
  }

  lemma PatchMount()
    ensures var f := Opened([], true);
            && Runs(4, f, Actions(Patched())) && Run(4, f, Actions(Patched())) == Plain([1, 9, 1], [], 3)
            && CopiesRun(4, 0, 4, f, Patched(), Copies([], {}), []) == (Copies([Whole(), Patch()], {}), Blocks())
  {
    hide Round, Spill, Rest, A.Updated;
    assert FlatWrite([], 0, [1, 1, 1]) == [1, 1, 1] && FlatWrite([1, 1, 1], 1, [9]) == [1, 9, 1];
    RoundEnds([1, 1, 1], 1, [9], 1, [], Copies([Whole()], {}), [[1, 1, 1]]);
    RoundEnds([], 0, [1, 1, 1], 1, Round(1, [9], 1) + [], Copies([], {}), []);
    var none: Partition := [];
    assert none + [[1, 1, 1]] == [[1, 1, 1]] && [[1, 1, 1]] + [[9]] == Blocks();
    CopyAlone(0, [1, 1, 1], [], []);
    FirstUpdated(Whole());
    CopyAlone(1, [9], [Whole()], [[1, 1, 1]]);
    PatchKept();
  }

  lemma FirstUpdated(e: Extent)
    ensures A.Updated(4, [], e, false) == [e]
  {
  }

  /** Both extents are tried; there is memory for the first, and none to split it for the second. */
  lemma PatchPushed()
    ensures A.Pushed(4, Own().extents, [Whole(), Patch()], [A.Tried(true), A.Tried(false)]) ==
            ([Whole()], [true, false])
  {
    hide *;
    var m, l, push := Own().extents, [Whole(), Patch()], [A.Tried(true), A.Tried(false)];
    OwnReplaced();
    FirstTaken(m);
    SecondSkipped();
    A.PushedNone(4, m, l, push);
    A.PushedNext(4, m, l, push, 0);
    A.PushedNext(4, m, l, push, 1);
    var none: seq<bool> := [];
    assert none + [true] == [true] && [true] + [false] == [true, false];
    assert l[..2] == l && push[..2] == push;
  }

  lemma FirstTaken(m: seq<Extent>)
    ensures A.Takes(m, Whole(), A.Tried(true))
  {
    hide Splits;
  }

  lemma SecondSkipped()
    ensures !A.Takes([Whole()], Patch(), A.Tried(false))
  {
    SplitsWhole();
    hide Splits;
  }

  lemma OwnReplaced()
    ensures Spliced(4, Own().extents, Whole()) == [Whole()]
  {
    hide Spliced;
    AllReplaced(Own().extents, Whole());
  }

  lemma SplitsWhole()
    ensures Splits([Whole()], Patch())
  {
    assert [Whole()][0] == Whole();
  }

  /** An extent that covers all entries replaces them. */
  lemma {:induction false} AllReplaced(l: seq<Extent>, ext: Extent)
    requires forall i :: 0 <= i < |l| ==> ext.fileoffset <= l[i].fileoffset < ext.End() && l[i].End() <= ext.End()
    ensures Spliced(4, l, ext) == [ext]
    decreases |l|
  {
    if l != [] { AllReplaced(l[..|l| - 1], ext); }
  }

  lemma WhereSmall(e: Extent, x: nat)
    requires e.fileoffset <= x && e.byteoffset + (x - e.fileoffset) < 4
    ensures Where(4, e, x) == Phys(e.part, e.block, e.byteoffset + (x - e.fileoffset))
  {
    var m := e.byteoffset + (x - e.fileoffset);
    DivUnique(m, 4, 0, m);
  }

  lemma MapThree(a: Extent, b: Extent, c: Extent, x: nat)
    ensures MapAt(4, [a, b, c], x) ==
            if a.Covers(x) then Where(4, a, x) else if b.Covers(x) then Where(4, b, x)
            else if c.Covers(x) then Where(4, c, x) else Unmapped
  {
    hide Where;
    assert [a, b, c][1..] == [b, c] && [b, c][1..] == [c];
    MapOne(4, c, x);
  }

  /** What the tape holds where the file's own extents point to, and where the first copy points to. */
  lemma Views()
    ensures R.Contents(4, Cartridge(), Own()) == [1, 9, 1]
    ensures R.Contents(4, Cartridge(), Dentry([Whole()], 3, 3)) == [1, 1, 1]
  {
    hide R.ViewAt, MapAt, Where;
    forall x: nat | x < 3
      ensures R.ViewAt(4, Cartridge(), Own(), x) == if x == 1 then 9 else 1
      ensures R.ViewAt(4, Cartridge(), Dentry([Whole()], 3, 3), x) == 1
    {
      EntryView(x);
      WholeView(x);
    }
    var s, u := R.Contents(4, Cartridge(), Own()), R.Contents(4, Cartridge(), Dentry([Whole()], 3, 3));
    assert |s| == 3 && s[0] == 1 && s[1] == 9 && s[2] == 1;
    assert |u| == 3 && u[0] == 1 && u[1] == 1 && u[2] == 1;
  }

  lemma ViewOf(t: R.Tape, d: Dentry, x: nat, p: Phys, b: byte)
    requires MapAt(4, d.extents, x) == p && R.OnTape(t, p) && t[p.part][p.block][p.byte] == b
    ensures R.ViewAt(4, t, d, x) == b
  {
    hide MapAt;
  }

  lemma OnBlocks(part: nat)
    requires part < 2
    ensures forall k: nat :: k < 3 ==> R.OnTape(Cartridge(), Phys(part, 0, k)) && Cartridge()[part][0][k] == 1
    ensures R.OnTape(Cartridge(), Phys(part, 1, 0)) && Cartridge()[part][1][0] == 9
  {
    var b := Blocks();
    assert |b| == 2 && b[0] == [1, 1, 1] && b[1] == [9];
    hide Blocks;
  }

  lemma OwnWhere(x: nat)
    requires x < 3
    ensures MapAt(4, Own().extents, x) == Phys(1, if x == 1 then 1 else 0, if x == 1 then 0 else x)
  {
    var a, b, c := Extent(1, 0, 0, 1, 0), Extent(1, 1, 0, 1, 1), Extent(1, 0, 2, 1, 2);
    assert Own().extents == [a, b, c];
    hide MapAt, Where, Own;
    MapThree(a, b, c, x);
    WhereSmall(if x == 0 then a else if x == 1 then b else c, x);
  }

  lemma EntryView(x: nat)
    requires x < 3
    ensures R.ViewAt(4, Cartridge(), Own(), x) == if x == 1 then 9 else 1
  {
    hide *;
    OwnWhere(x);
    OnBlocks(1);
    var p := Phys(1, if x == 1 then 1 else 0, if x == 1 then 0 else x);
    ViewOf(Cartridge(), Own(), x, p, if x == 1 then 9 else 1);
  }

  lemma WholeWhere(x: nat)
    requires x < 3
    ensures MapAt(4, [Whole()], x) == Phys(0, 0, x)
  {
    hide MapAt, Where;
    MapOne(4, Whole(), x);
    WhereSmall(Whole(), x);
  }

  lemma WholeView(x: nat)
    requires x < 3
    ensures R.ViewAt(4, Cartridge(), Dentry([Whole()], 3, 3), x) == 1
  {
    hide *;
    WholeWhere(x);
    OnBlocks(0);
    ViewOf(Cartridge(), Dentry([Whole()], 3, 3), x, Phys(0, 0, x), 1);
  }

  /** Three bytes are written and copied, then the middle one is overwritten and copied. The file reads as it should,
      and both copies together are the file. But the newer copy lies inside the older one; if there is no memory to
      split that, it is dropped, and the file reads as before the second write. */
  lemma SkippedEntry()
    ensures Runs(4, Opened([], true), Actions(Patched()))
    ensures var f := Opened([], true);
            var g, alt, push := Run(4, f, Actions(Patched())), [Whole(), Patch()], [A.Tried(true), A.Tried(false)];
            && Idle(g) && Content(g) == [1, 9, 1] == R.Contents(4, Cartridge(), Own())
            && CopiesRun(4, 0, 4, f, Patched(), Copies([], {}), []) == (Copies(alt, {}), Cartridge()[0])
            && var (l, took) := A.Pushed(4, Own().extents, alt, push);
               took == [true, false] && R.Contents(4, Cartridge(), Dentry(l, 3, 3)) == [1, 1, 1]
  {
    PatchMount();
    PatchPushed();
    Views();
    hide Round, CopiesRun, Run, Runs, A.Pushed, R.Contents;
    var g := Run(4, Opened([], true), Actions(Patched()));
    assert forall x: nat :: ByteAt(g, x) == At([1, 9, 1], x);
  }
}
