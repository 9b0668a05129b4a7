/**
 The copies of a file on the index partition: its alt_extentlist, together with the request list, the file on
 the data partition and the blocks of the index partition. At the end of a mount the extents of the list
 replace those on the data partition; the theorems say when that leaves the file as it is.
 */
module IndexCopies {
  import opened Bytes
  import opened Requests
  import opened Cells
  import opened WriteProofs
  import WriteTheorem
  import opened Interleave
  import opened InterleaveProofs
  import opened ListEdits
  import opened Extents
  import A = AltExtents
  import R = RawTape

  /** The blocks of the index partition. */
  type Partition = seq<seq<byte>>

  /** alt is alt_extentlist. missed, for the statement only, are the offsets at which a copy may be out of date:
      a write that waits for a cache block has yet to write them, or the index partition had no room for them. */
  datatype Copies = Copies(alt: seq<Extent>, missed: set<nat>)

  predicate There(t: Partition, p: Phys) { p.Phys? && p.block < |t| && p.byte < |t[p.block]| }

  function Range(a: nat, b: nat): (s: set<nat>)
    ensures forall x: nat :: x in s <==> a <= x < b
    decreases b - a
  {
    if b <= a then {} else {a} + Range(a + 1, b)
  }

  /** The copy of the byte at x, if there is one, is on the partition; it is what the data partition holds,
      unless something newer is in the list or the copy was missed. */
  predicate Fine(bs: nat, t: Partition, f: File, c: Copies, x: nat)
    requires 0 < bs
  {
    var p := A.Override(bs, c.alt, x);
    p.Phys? ==>
      && There(t, p) && x < f.size && x < |f.raw|
      && (CellAt(f.reqs, x).Held? || x in c.missed || f.raw[x] == t[p.block][p.byte])
  }

  /** Every byte of an entry is on the partition, also where a later entry hides it. */
  ghost predicate EntryBacked(bs: nat, t: Partition, e: Extent)
    requires 0 < bs
  {
    forall x: nat :: e.Covers(x) ==> There(t, Where(bs, e, x))
  }

  ghost predicate Backed(bs: nat, t: Partition, l: seq<Extent>)
    requires 0 < bs
  {
    forall e :: e in l ==> EntryBacked(bs, t, e)
  }

  lemma BackedGrows(bs: nat, t: Partition, t1: Partition, l: seq<Extent>)
    requires 0 < bs && Backed(bs, t, l) && t <= t1
    ensures Backed(bs, t1, l)
  {
    forall e | e in l ensures EntryBacked(bs, t1, e) { assert EntryBacked(bs, t, e); }
  }

  lemma PieceBacked(bs: nat, t: Partition, e: Extent, n: Extent, r: Extent)
    requires 0 < bs && EntryBacked(bs, t, e) && EntryBacked(bs, t, n) && e.part == n.part && r in A.Piece(bs, e, n)
    ensures EntryBacked(bs, t, r)
  {
    forall x: nat | r.Covers(x) ensures There(t, Where(bs, r, x)) {
      if A.Joins(bs, e, n) && n.fileoffset <= x {
        ContinuesWhere(bs, e, n, x);
        assert n.Covers(x);
      } else {
        if r != e && n.fileoffset <= e.fileoffset { TrimmedWhere(bs, e, n.End() - e.fileoffset, x); }
        assert e.Covers(x);
      }
    }
  }

  lemma UpdatedBacked(bs: nat, t: Partition, l: seq<Extent>, n: Extent)
    requires 0 < bs && Backed(bs, t, l) && EntryBacked(bs, t, n) && forall e :: e in l ==> e.part == n.part
    ensures Backed(bs, t, A.Updated(bs, l, n, false))
  {
    hide EntryBacked, A.Piece, A.Updated;
    A.UpdatedMembers(bs, l, n, false);
    forall r | r in A.Updated(bs, l, n, false) ensures EntryBacked(bs, t, r) {
      if r != n {
        var e :| e in l && r in A.Piece(bs, e, n);
        PieceBacked(bs, t, e, n, r);
      }
    }
  }

  lemma CutBacked(bs: nat, t: Partition, l: seq<Extent>, len: nat)
    requires 0 < bs && Backed(bs, t, l)
    ensures Backed(bs, t, A.Cut(l, len))
  {
    A.CutMembers(l, len);
    forall r | r in A.Cut(l, len) ensures EntryBacked(bs, t, r) {
      var e :| e in l && e.fileoffset < len && r == e.(bytecount := Min(e.bytecount, len - e.fileoffset));
      assert EntryBacked(bs, t, e);
      forall x: nat | r.Covers(x) ensures There(t, Where(bs, r, x)) { assert e.Covers(x); }
    }
  }

  /** A file that does not go to the index partition has no copies there, and neither has one whose requests are
      on their way to the data partition. */
  ghost predicate Joint(bs: nat, ip: nat, t: Partition, f: File, c: Copies) {
    && 0 < bs && A.AltOk(bs, ip, |t| * bs, c.alt) && Backed(bs, t, c.alt)
    && (!f.writeIp || f.flight != [] ==> c.alt == [])
    && forall x: nat :: Fine(bs, t, f, c, x)
  }

  // ----- one turn of the loop of `_unified_process_index_queue`

  /** The blocks of a replica go to the end of the partition, and its extent into the list. */
  function Copy(bs: nat, ip: nat, r: Req, c: Copies, t: Partition): (Copies, Partition)
    requires 0 < bs
  {
    (Copies(A.Updated(bs, c.alt, Extent(ip, |t|, 0, |r.data|, r.offset), false), c.missed - Range(r.offset, r.End())),
     t + R.Blocks(bs, r.data))
  }

  lemma {:induction false} BlocksRoom(bs: nat, buf: seq<byte>)
    requires 0 < bs
    ensures |buf| <= |R.Blocks(bs, buf)| * bs
    decreases |buf|
  {
    if buf != [] {
      var n := Min(bs, |buf|);
      BlocksRoom(bs, buf[n..]);
      assert (1 + |R.Blocks(bs, buf[n..])|) * bs == bs + |R.Blocks(bs, buf[n..])| * bs;
    }
  }

  lemma CopyFresh(bs: nat, ip: nat, r: Req, t: Partition)
    requires 0 < bs && r.data != []
    ensures var t1 := t + R.Blocks(bs, r.data);
            A.Fresh(bs, ip, |t| * bs, |t1| * bs, Extent(ip, |t|, 0, |r.data|, r.offset))
  {
    BlocksRoom(bs, r.data);
    var b := |R.Blocks(bs, r.data)|;
    assert (|t| + b) * bs == |t| * bs + b * bs;
  }

  /** The copy of a byte of r is that byte. */
  lemma CopyWhere(bs: nat, ip: nat, r: Req, t: Partition, x: nat)
    requires 0 < bs && r.Covers(x)
    ensures var p := Where(bs, Extent(ip, |t|, 0, |r.data|, r.offset), x);
            var t1 := t + R.Blocks(bs, r.data);
            There(t1, p) && t1[p.block][p.byte] == r.data[x - r.offset]
  {
    var m := x - r.offset;
    R.BlocksAt(bs, r.data, m / bs, m % bs, m);
  }

  /** What becomes of the copy of x: it is now a byte of r, or it is where it was. */
  lemma CopyAt(bs: nat, ip: nat, r: Req, c: Copies, t: Partition, x: nat)
    requires 0 < bs && r.data != [] && A.AltOk(bs, ip, |t| * bs, c.alt)
    ensures var (c1, t1) := Copy(bs, ip, r, c, t);
            var p := A.Override(bs, c1.alt, x);
            if r.Covers(x) then There(t1, p) && t1[p.block][p.byte] == r.data[x - r.offset]
            else p == A.Override(bs, c.alt, x)
  {
    hide A.AltOk;
    var n := Extent(ip, |t|, 0, |r.data|, r.offset);
    var t1 := t + R.Blocks(bs, r.data);
    CopyFresh(bs, ip, r, t);
    if r.Covers(x) {
      A.UpdatedNew(bs, ip, |t| * bs, |t1| * bs, c.alt, n, x);
      CopyWhere(bs, ip, r, t, x);
    } else {
      AltParts(bs, ip, |t| * bs, c.alt);
      A.UpdatedOther(bs, ip, c.alt, n, false, x);
    }
  }

  lemma AltParts(bs: nat, ip: nat, top: nat, l: seq<Extent>)
    requires A.AltOk(bs, ip, top, l)
    ensures forall e :: e in l ==> e.part == ip && 0 < e.bytecount
  {
  }

  lemma CopyBacked(bs: nat, ip: nat, r: Req, c: Copies, t: Partition)
    requires 0 < bs && A.AltOk(bs, ip, |t| * bs, c.alt) && Backed(bs, t, c.alt)
    ensures var (c1, t1) := Copy(bs, ip, r, c, t); Backed(bs, t1, c1.alt)
  {
    AltParts(bs, ip, |t| * bs, c.alt);
    hide A.AltOk, Backed, A.Updated;
    var n, t1 := Extent(ip, |t|, 0, |r.data|, r.offset), t + R.Blocks(bs, r.data);
    BackedGrows(bs, t, t1, c.alt);
    forall x: nat | n.Covers(x) ensures There(t1, Where(bs, n, x)) { CopyWhere(bs, ip, r, t, x); }
    UpdatedBacked(bs, t1, c.alt, n);
  }

  lemma CopyOk(bs: nat, ip: nat, r: Req, c: Copies, t: Partition)
    requires 0 < bs && r.data != [] && A.AltOk(bs, ip, |t| * bs, c.alt)
    ensures var (c1, t1) := Copy(bs, ip, r, c, t); t <= t1 && A.AltOk(bs, ip, |t1| * bs, c1.alt)
  {
    hide A.AltOk;
    CopyFresh(bs, ip, r, t);
    var t1 := t + R.Blocks(bs, r.data);
    A.UpdatedOk(bs, ip, |t| * bs, |t1| * bs, c.alt, Extent(ip, |t|, 0, |r.data|, r.offset), false);
  }

  // ----- the whole loop

  /** The first room replicas of a list are copied; then the partition is full, and the others are given up. */
  function Spill(bs: nat, ip: nat, l: seq<Req>, room: nat, c: Copies, t: Partition): (Copies, Partition)
    requires 0 < bs
  {
    if l == [] then (c, t)
    else if !l[0].ip then Spill(bs, ip, l[1..], room, c, t)
    else if room == 0 then
      Spill(bs, ip, l[1..], 0, c.(missed := c.missed + Range(l[0].offset, l[0].End())), t)
    else
      var (c1, t1) := Copy(bs, ip, l[0], c, t);
      Spill(bs, ip, l[1..], room - 1, c1, t1)
  }

  /** The copy of x after the loop: the replica byte at x, or where it was; if a replica of x was given up, then
      the loss is noted. */
  predicate SpilledAt(bs: nat, l: seq<Req>, c: Copies, t: Partition, c1: Copies, t1: Partition, x: nat)
    requires 0 < bs
  {
    var cell, p := CellAt(l, x), A.Override(bs, c1.alt, x);
    if cell.Held? && cell.ip then
      (x in c1.missed && p == A.Override(bs, c.alt, x)) || (There(t1, p) && t1[p.block][p.byte] == cell.b)
    else p == A.Override(bs, c.alt, x) && (x in c.missed ==> x in c1.missed)
  }

  lemma {:induction false} SpillGrows(bs: nat, ip: nat, cs: nat, l: seq<Req>, room: nat, c: Copies, t: Partition)
    requires 0 < bs && Fits(l, cs) && A.AltOk(bs, ip, |t| * bs, c.alt)
    ensures var (c1, t1) := Spill(bs, ip, l, room, c, t); t <= t1 && A.AltOk(bs, ip, |t1| * bs, c1.alt)
  {
    hide A.AltOk, Copy;
    if l != [] {
      if !l[0].ip {
        SpillGrows(bs, ip, cs, l[1..], room, c, t);
      } else if room == 0 {
        SpillGrows(bs, ip, cs, l[1..], 0, c.(missed := c.missed + Range(l[0].offset, l[0].End())), t);
      } else {
        CopyOk(bs, ip, l[0], c, t);
        var (c1, t1) := Copy(bs, ip, l[0], c, t);
        SpillGrows(bs, ip, cs, l[1..], room - 1, c1, t1);
      }
    }
  }

  lemma {:induction false} SpillBacked(bs: nat, ip: nat, cs: nat, l: seq<Req>, room: nat, c: Copies, t: Partition)
    requires 0 < bs && Fits(l, cs) && A.AltOk(bs, ip, |t| * bs, c.alt) && Backed(bs, t, c.alt)
    ensures var (c1, t1) := Spill(bs, ip, l, room, c, t); Backed(bs, t1, c1.alt)
  {
    hide A.AltOk, Copy, Backed;
    if l != [] {
      if !l[0].ip {
        SpillBacked(bs, ip, cs, l[1..], room, c, t);
      } else if room == 0 {
        SpillBacked(bs, ip, cs, l[1..], 0, c.(missed := c.missed + Range(l[0].offset, l[0].End())), t);
      } else {
        CopyOk(bs, ip, l[0], c, t);
        CopyBacked(bs, ip, l[0], c, t);
        var (c1, t1) := Copy(bs, ip, l[0], c, t);
        SpillBacked(bs, ip, cs, l[1..], room - 1, c1, t1);
      }
    }
  }

  lemma {:induction false} SpillAt(bs: nat, ip: nat, cs: nat, l: seq<Req>, room: nat, c: Copies, t: Partition, x: nat)
    requires 0 < bs && WellFormed(l, cs) && A.AltOk(bs, ip, |t| * bs, c.alt)
    ensures var (c1, t1) := Spill(bs, ip, l, room, c, t); SpilledAt(bs, l, c, t, c1, t1, x)
  {
    hide A.AltOk, A.Override;
    if l != [] {
      OnlyHere(l, 0, x);
      assert l[0 + 1..] == l[1..];
      if !l[0].ip {
        SpillAt(bs, ip, cs, l[1..], room, c, t, x);
      } else if room == 0 {
        var c0 := c.(missed := c.missed + Range(l[0].offset, l[0].End()));
        SpillAt(bs, ip, cs, l[1..], 0, c0, t, x);
      } else {
        CopyOk(bs, ip, l[0], c, t);
        CopyAt(bs, ip, l[0], c, t, x);
        var (c1, t1) := Copy(bs, ip, l[0], c, t);
        SpillAt(bs, ip, cs, l[1..], room - 1, c1, t1, x);
        SpillGrows(bs, ip, cs, l[1..], room - 1, c1, t1);
      }
    }
  }

  // ----- every action

  /** alt_extentlist after an action on the file. room is the number of replicas the index partition has room
      for. */
  function NextCopies(bs: nat, ip: nat, cs: nat, f: File, a: Action, room: nat, c: Copies, t: Partition)
    : (Copies, Partition)
    requires 0 < bs && 0 < cs && WellFormed(f.reqs, cs) && Enabled(cs, f, a)
  {
    match a
    case Write(off, buf, _, _) =>
      var n := Consumed(cs, f, a);
      (c.(missed := c.missed - Range(off, off + n) + Range(off + n, off + |buf|)), t)
    case TruncateBegin(len) =>
      if len < f.size then (Copies(A.Cut(c.alt, len), set x | x in c.missed && x < len), t) else (c, t)
    case UnsetIp => (Copies([], {}), t)
    case IndexQueue => Spill(bs, ip, f.reqs, room, c, t)
    case _ => (c, t)
  }

  lemma NoneOk(bs: nat, ip: nat, top: nat)
    ensures A.AltOk(bs, ip, top, [])
  {
  }

  /** Without copies there is nothing to say. */
  lemma JointNone(bs: nat, ip: nat, t: Partition, f: File, c: Copies)
    requires 0 < bs && c.alt == []
    ensures Joint(bs, ip, t, f, c)
  {
  }

  lemma JointWrite(bs: nat, ip: nat, cs: nat, t: Partition, f: File, c: Copies, a: Action)
    requires Shape(cs, f) && Joint(bs, ip, t, f, c) && a.Write? && Enabled(cs, f, a) && Smooth(cs, f, a)
    ensures Joint(bs, ip, t, Do(cs, f, a), NextCopies(bs, ip, cs, f, a, 0, c, t).0)
  {
    hide A.AltOk, A.Override, WriteTheorem.Write, Fine, Replica, Consumed, Backed;
    WriteHolds(cs, f, a, 0);
    var g, c1 := Do(cs, f, a), NextCopies(bs, ip, cs, f, a, 0, c, t).0;
    forall x: nat ensures Fine(bs, t, g, c1, x) {
      WriteHolds(cs, f, a, x);
      FineWrite(bs, t, f, c, g, c1, x);
    }
  }

  /** What a write has yet to write is all that may have dropped out of the list. */
  lemma WriteHolds(cs: nat, f: File, a: Action, x: nat)
    requires Shape(cs, f) && a.Write? && Enabled(cs, f, a) && Smooth(cs, f, a)
    ensures var g, n := Do(cs, f, a), Consumed(cs, f, a);
            && n <= |a.buf| && g.raw == f.raw && f.size <= g.size
            && (CellAt(f.reqs, x).Held? && !(a.off + n <= x < a.off + |a.buf|) ==> CellAt(g.reqs, x).Held?)
            && (a.off <= x < a.off + n ==> CellAt(g.reqs, x).Held?)
  {
    var w := Start(f, a);
    WriteTheorem.SafeKeeps(cs, w);
    hide WriteTheorem.Write, WriteTheorem.Safe;
    var r := WriteTheorem.Write(cs, w);
    assert WroteAt(w.l, w.o, w.buf, r.w.l, r.w.o - w.o, x);
  }

  lemma FineWrite(bs: nat, t: Partition, f: File, c: Copies, g: File, c1: Copies, x: nat)
    requires 0 < bs && Fine(bs, t, f, c, x) && c1.alt == c.alt && g.raw == f.raw && f.size <= g.size
    requires CellAt(f.reqs, x).Held? || x in c.missed ==> CellAt(g.reqs, x).Held? || x in c1.missed
    ensures Fine(bs, t, g, c1, x)
  {
  }

  lemma JointTruncate(bs: nat, ip: nat, cs: nat, t: Partition, f: File, c: Copies, a: Action)
    requires Shape(cs, f) && Joint(bs, ip, t, f, c) && a.TruncateBegin? && Enabled(cs, f, a)
    ensures Joint(bs, ip, t, Do(cs, f, a), NextCopies(bs, ip, cs, f, a, 0, c, t).0)
  {
    hide A.AltOk, A.Override, TrimTo;
    var g, c1 := Do(cs, f, a), NextCopies(bs, ip, cs, f, a, 0, c, t).0;
    if a.len < f.size {
      A.CutOk(bs, ip, |t| * bs, c.alt, a.len);
      CutBacked(bs, t, c.alt, a.len);
    }
    forall x: nat ensures Fine(bs, t, g, c1, x) {
      assert Fine(bs, t, f, c, x);
      TrimToCells(f.reqs, a.len, x);
      if a.len < f.size { A.CutOverride(bs, c.alt, a.len, x); }
    }
    assert c.alt == [] ==> A.Cut(c.alt, a.len) == [];
  }

  lemma JointQueue(bs: nat, ip: nat, cs: nat, t: Partition, f: File, c: Copies, room: nat)
    requires Shape(cs, f) && Sized(f) && Joint(bs, ip, t, f, c) && Enabled(cs, f, IndexQueue)
    ensures var (c1, t1) := NextCopies(bs, ip, cs, f, IndexQueue, room, c, t);
            t <= t1 && Joint(bs, ip, t1, Do(cs, f, IndexQueue), c1)
  {
    hide A.AltOk, A.Override, Spill;
    var g := Do(cs, f, IndexQueue);
    var (c1, t1) := Spill(bs, ip, f.reqs, room, c, t);
    SpillGrows(bs, ip, cs, f.reqs, room, c, t);
    SpillBacked(bs, ip, cs, f.reqs, room, c, t);
    forall x: nat ensures Fine(bs, t1, g, c1, x) {
      assert Fine(bs, t, f, c, x);
      SpillAt(bs, ip, cs, f.reqs, room, c, t, x);
      DropIpCells(f.reqs, x);
    }
    if !f.writeIp { SpillDirty(bs, ip, f.reqs, room, c, t); }
  }

  lemma {:induction false} SpillDirty(bs: nat, ip: nat, l: seq<Req>, room: nat, c: Copies, t: Partition)
    requires 0 < bs && AllDirty(l)
    ensures Spill(bs, ip, l, room, c, t) == (c, t)
  {
    if l != [] { SpillDirty(bs, ip, l[1..], room, c, t); }
  }

  /** When the index partition is full, file_size is recomputed from the file on tape and the requests that are
      left; it does not change. */
  lemma SizeRecomputed(cs: nat, f: File)
    requires Good(cs, f) && Enabled(cs, f, IndexQueue)
    ensures f.size == Max(|f.raw|, LastEnd(DropIp(f.reqs)))
  {
    SmoothKeeps(cs, f, IndexQueue);
    ListEndsFile(cs, Do(cs, f, IndexQueue));
  }

  // ----- flushing a file that goes to the index partition

  /** No offset drops out of the list. */
  lemma FlushOneHolds(cs: nat, l: seq<Req>, i: nat, raw: seq<byte>, pick: set<nat>, x: nat)
    requires WellFormed(l, cs) && i < |l|
    ensures CellAt(FlushOne(cs, l, i, raw, true, pick).0, x).Held? == CellAt(l, x).Held?
  {
    if l[i].ip {
      MergeAtHolds(cs, l, i, x);
    } else if l[i].offset in pick {
      var m := l[i := l[i].(ip := true)];
      CellSet(l, i, l[i].(ip := true), x);
      CellCutAt(l, i, x);
      assert WellFormed(m, cs);
      MergeAtHolds(cs, m, i, x);
    }
  }

  lemma MergeAtHolds(cs: nat, l: seq<Req>, i: nat, x: nat)
    requires WellFormed(l, cs) && i < |l|
    ensures CellAt(MergeAt(cs, l, i).0, x) == CellAt(l, x)
  {
    if 0 < i {
      assert l[i - 1].End() <= l[i].offset;
      CellMerge(cs, l, i, x);
    }
  }

  lemma {:induction false} FlushHolds(cs: nat, l: seq<Req>, i: nat, raw: seq<byte>, pick: set<nat>, x: nat)
    requires WellFormed(l, cs) && i <= |l| && Replica(l, raw)
    ensures CellAt(FlushFrom(cs, l, i, raw, true, pick).0, x).Held? == CellAt(l, x).Held?
    decreases |l| - i
  {
    if i < |l| {
      var (l1, i1, raw1) := FlushOne(cs, l, i, raw, true, pick);
      FlushOneSettles(cs, l, i, raw, true, pick);
      FlushOneHolds(cs, l, i, raw, pick, x);
      hide FlushOne;
      FlushHolds(cs, l1, i1, raw1, pick, x);
    }
  }

  lemma JointFlush(bs: nat, ip: nat, cs: nat, t: Partition, f: File, c: Copies, a: Action)
    requires Shape(cs, f) && Joint(bs, ip, t, f, c) && a.Flush? && Enabled(cs, f, a) && f.writeIp
    ensures Joint(bs, ip, t, Do(cs, f, a), c)
  {
    hide A.AltOk, A.Override, FlushFrom;
    var g := Do(cs, f, a);
    FlushSettles(cs, f.reqs, 0, f.raw, true, a.pick);
    forall x: nat ensures Fine(bs, t, g, c, x) {
      assert Fine(bs, t, f, c, x);
      assert SettledAt(f.reqs, f.raw, g.reqs, g.raw, x);
      FlushHolds(cs, f.reqs, 0, f.raw, a.pick, x);
    }
  }

  /** What stays the same in the other actions, for a file that has copies. */
  lemma JointSame(bs: nat, ip: nat, t: Partition, f: File, g: File, c: Copies)
    requires Joint(bs, ip, t, f, c) && g.reqs == f.reqs && g.size == f.size && g.writeIp == f.writeIp &&
             g.flight == f.flight
    requires g.raw == f.raw || g.raw == Resize(f.raw, f.size)
    ensures Joint(bs, ip, t, g, c)
  {
    hide A.AltOk, A.Override;
    forall x: nat ensures Fine(bs, t, g, c, x) { assert Fine(bs, t, f, c, x); }
  }

  lemma JointIdle(bs: nat, ip: nat, t: Partition, f: File, c: Copies)
    requires Joint(bs, ip, t, f, c)
    ensures 0 < bs && (!f.writeIp || f.flight != [] ==> c.alt == [])
  {
  }

  /** Every action that keeps the file what a flat file would be keeps the copies in step with it. */
  lemma JointKeeps(bs: nat, ip: nat, cs: nat, t: Partition, f: File, c: Copies, a: Action, room: nat)
    requires Good(cs, f) && Joint(bs, ip, t, f, c) && Enabled(cs, f, a)
    ensures var (c1, t1) := NextCopies(bs, ip, cs, f, a, room, c, t);
            t <= t1 && (Smooth(cs, f, a) ==> Joint(bs, ip, t1, Do(cs, f, a), c1))
  {
    hide Joint, Reading, Replica, Below, Tight, WriteTheorem.Write, FlushFrom, Spill;
    JointIdle(bs, ip, t, f, c);
    var g := Do(cs, f, a);
    match a
    case Write(_, _, _, _) => if Smooth(cs, f, a) { JointWrite(bs, ip, cs, t, f, c, a); }
    case TruncateBegin(_) => JointTruncate(bs, ip, cs, t, f, c, a);
    case IndexQueue => JointQueue(bs, ip, cs, t, f, c, room);
    case Flush(_) => if f.writeIp { JointFlush(bs, ip, cs, t, f, c, a); } else { JointNone(bs, ip, t, g, c); }
    case UnsetIp => JointNone(bs, ip, t, g, Copies([], {}));
    case Take(_) => JointNone(bs, ip, t, g, c);
    case WriteOne => JointNone(bs, ip, t, g, c);
    case SetIp => if f.writeIp { JointSame(bs, ip, t, f, g, c); } else { JointNone(bs, ip, t, g, c); }
    case _ => JointSame(bs, ip, t, f, g, c);
  }

  /** Blocks appended by others change nothing. */
  lemma JointGrows(bs: nat, ip: nat, t: Partition, t1: Partition, f: File, c: Copies)
    requires Joint(bs, ip, t, f, c) && t <= t1
    ensures Joint(bs, ip, t1, f, c)
  {
    GrowsOk(bs, ip, t, t1, c.alt);
    BackedGrows(bs, t, t1, c.alt);
    hide A.AltOk, A.Override;
    forall x: nat ensures Fine(bs, t1, f, c, x) { assert Fine(bs, t, f, c, x); }
  }

  lemma GrowsOk(bs: nat, ip: nat, t: Partition, t1: Partition, l: seq<Extent>)
    requires A.AltOk(bs, ip, |t| * bs, l) && t <= t1
    ensures A.AltOk(bs, ip, |t1| * bs, l)
  {
    Wider(|t|, |t1|, bs);
    TopGrows(bs, ip, |t| * bs, |t1| * bs, l);
  }

  lemma Wider(a: nat, b: nat, bs: nat)
    requires a <= b
    ensures a * bs <= b * bs
  {
    assert b * bs == a * bs + (b - a) * bs;
  }

  lemma TopGrows(bs: nat, ip: nat, top: nat, top1: nat, l: seq<Extent>)
    requires A.AltOk(bs, ip, top, l) && top <= top1
    ensures A.AltOk(bs, ip, top1, l)
  {
    hide A.TapeEnd;
  }

  // ----- every run

  /** An action, the replicas the index partition had room for, and what others appended to it afterwards. */
  datatype Event = Event(a: Action, room: nat, others: Partition)

  function Actions(es: seq<Event>): seq<Action> { seq(|es|, i requires 0 <= i < |es| => es[i].a) }

  lemma ActionsNext(es: seq<Event>)
    requires es != []
    ensures Actions(es)[0] == es[0].a && Actions(es)[1..] == Actions(es[1..])
  {
  }

  ghost function CopiesRun(bs: nat, ip: nat, cs: nat, f: File, es: seq<Event>, c: Copies, t: Partition)
    : (Copies, Partition)
    requires 0 < bs && Runs(cs, f, Actions(es))
    decreases |es|
  {
    if es == [] then (c, t)
    else
      ActionsNext(es);
      var (c1, t1) := NextCopies(bs, ip, cs, f, es[0].a, es[0].room, c, t);
      CopiesRun(bs, ip, cs, Do(cs, f, es[0].a), es[1..], c1, t1 + es[0].others)
  }

  /** After any interleaving, every copy that was not missed is what the file on the data partition holds, or
      something newer is still in the list. */
  lemma {:induction false} JointRun(bs: nat, ip: nat, cs: nat, f: File, es: seq<Event>, c: Copies, t: Partition)
    requires Good(cs, f) && Joint(bs, ip, t, f, c) && Runs(cs, f, Actions(es))
    ensures var (c1, t1) := CopiesRun(bs, ip, cs, f, es, c, t);
            var g := Run(cs, f, Actions(es));
            t <= t1 && (AllSmooth(cs, f, Actions(es)) ==> Good(cs, g) && Joint(bs, ip, t1, g, c1))
    decreases |es|
  {
    hide Good, NextCopies, Do, A.AltOk, Fine, Smooth, WellFormed;
    if es != [] {
      ActionsNext(es);
      var g := Do(cs, f, es[0].a);
      var (c1, t1) := NextCopies(bs, ip, cs, f, es[0].a, es[0].room, c, t);
      var t2 := t1 + es[0].others;
      ActionKeeps(cs, f, es[0].a);
      JointKeeps(bs, ip, cs, t, f, c, es[0].a, es[0].room);
      assert t <= t2;
      if Smooth(cs, f, es[0].a) {
        JointGrows(bs, ip, t1, t2, g, c1);
        JointRun(bs, ip, cs, g, es[1..], c1, t2);
      } else {
        assert Actions(es[1..]) == [] && es[1..] == [];
      }
    }
  }

  // ----- the end of the mount

  lemma {:induction false} OverrideEntry(bs: nat, l: seq<Extent>, x: nat) returns (e: Extent)
    requires 0 < bs && A.Override(bs, l, x).Phys?
    ensures e in l && e.Covers(x) && A.Override(bs, l, x) == Where(bs, e, x)
  {
    if A.Override(bs, l[1..], x).Phys? { e := OverrideEntry(bs, l[1..], x); } else { e := l[0]; }
  }

  lemma {:induction false} CoveredIsMapped(bs: nat, l: seq<Extent>, e: Extent, x: nat)
    requires 0 < bs && e in l && e.Covers(x)
    ensures A.Override(bs, l, x).Phys?
  {
    if e != l[0] { CoveredIsMapped(bs, l[1..], e, x); }
  }

  lemma {:induction false} ReachSame(n: nat, l: seq<Extent>)
    requires forall e :: e in l ==> e.End() <= n
    ensures A.Reach(n, l) == n
    decreases |l|
  {
    if l != [] { ReachSame(n, l[..|l| - 1]); }
  }

  /** The copy of x is what the flat file s holds there. */
  predicate Agrees(bs: nat, t: Partition, s: seq<byte>, l: seq<Extent>, x: nat)
    requires 0 < bs
  {
    var p := A.Override(bs, l, x);
    p.Phys? ==> There(t, p) && x < |s| && s[x] == t[p.block][p.byte]
  }

  /** All entries are on the index partition and within the file. */
  ghost predicate Inside(bs: nat, ip: nat, t: Partition, n: nat, l: seq<Extent>)
    requires 0 < bs
  {
    && (forall e :: e in l ==> e.part == ip && 0 < e.bytecount)
    && forall x: nat :: InsideAt(bs, t, n, l, x)
  }

  predicate InsideAt(bs: nat, t: Partition, n: nat, l: seq<Extent>, x: nat)
    requires 0 < bs
  {
    var p := A.Override(bs, l, x); p.Phys? ==> There(t, p) && x < n
  }

  lemma SavedView(bs: nat, ip: nat, tape: R.Tape, d: Dentry, l: seq<Extent>, r: Dentry, x: nat)
    requires 0 < bs && ip in tape && A.Saved(bs, d, l, r) && Inside(bs, ip, tape[ip], d.size, l) && x < d.size
    ensures R.ViewAt(bs, tape, r, x) == R.ViewAt(bs, tape, d, x) <==>
            Agrees(bs, tape[ip], R.Contents(bs, tape, d), l, x)
  {
    assert A.SavedAt(bs, d, l, r, x) && InsideAt(bs, tape[ip], d.size, l, x);
    if A.Override(bs, l, x).Phys? {
      var e := OverrideEntry(bs, l, x);
    }
  }

  /** Whatever part of a list libltfs takes, the file keeps its length, and keeps its bytes exactly if every copy
      that now counts is what the file held there. */
  lemma SavedExact(bs: nat, ip: nat, tape: R.Tape, d: Dentry, l: seq<Extent>, r: Dentry)
    requires 0 < bs && ip in tape && A.Saved(bs, d, l, r) && Inside(bs, ip, tape[ip], d.size, l)
    ensures r.size == d.size
    ensures R.Contents(bs, tape, r) == R.Contents(bs, tape, d)
       <==> forall x: nat :: Agrees(bs, tape[ip], R.Contents(bs, tape, d), l, x)
  {
    forall e | e in l ensures e.End() <= d.size {
      CoveredIsMapped(bs, l, e, e.End() - 1);
      assert InsideAt(bs, tape[ip], d.size, l, e.End() - 1);
    }
    ReachSame(d.size, l);
    var s, u := R.Contents(bs, tape, d), R.Contents(bs, tape, r);
    forall x: nat ensures Agrees(bs, tape[ip], s, l, x) <==> d.size <= x || u[x] == s[x] {
      assert InsideAt(bs, tape[ip], d.size, l, x);
      if x < d.size { SavedView(bs, ip, tape, d, l, r, x); }
    }
    hide Agrees, A.Saved, Inside;
    if u != s {
      var x :| 0 <= x < d.size && u[x] != s[x];
      assert !Agrees(bs, tape[ip], s, l, x);
    }
  }

  /** Any part of a file's list is on the index partition and within the file. */
  lemma JointInside(bs: nat, ip: nat, t: Partition, f: File, c: Copies, l: seq<Extent>)
    requires Joint(bs, ip, t, f, c) && forall e :: e in l ==> e in c.alt
    ensures Inside(bs, ip, t, |f.raw|, l)
  {
    AltParts(bs, ip, |t| * bs, c.alt);
    hide A.AltOk, A.Override, There;
    forall x: nat ensures InsideAt(bs, t, |f.raw|, l, x) {
      if A.Override(bs, l, x).Phys? {
        var e := OverrideEntry(bs, l, x);
        assert EntryBacked(bs, t, e);
        CoveredIsMapped(bs, c.alt, e, x);
        assert Fine(bs, t, f, c, x);
      }
    }
  }

  lemma {:induction false} KeptMembers(l: seq<Extent>, took: seq<bool>)
    requires |took| <= |l|
    ensures forall e :: e in A.Kept(l, took) ==> e in l
    decreases |took|
  {
    if took != [] { KeptMembers(l, took[..|took| - 1]); }
  }

  /** Offsets at which a copy may differ from the data partition: it was missed, something newer is still in the list,
      or an extent that was dropped covers it. */
  predicate Doubtful(f: File, c: Copies, took: seq<bool>, x: nat)
    requires |took| == |c.alt|
  {
    x in c.missed || CellAt(f.reqs, x).Held? || exists i :: 0 <= i < |took| && !took[i] && c.alt[i].Covers(x)
  }

  /** Everywhere else the copies that libltfs takes are the file. */
  lemma UndoubtedAgrees(bs: nat, ip: nat, t: Partition, f: File, c: Copies, took: seq<bool>, x: nat)
    requires Joint(bs, ip, t, f, c) && |took| == |c.alt| && !Doubtful(f, c, took, x)
    ensures Agrees(bs, t, f.raw, A.Kept(c.alt, took), x)
  {
    hide A.AltOk, A.Override, A.Kept;
    A.KeptOverride(bs, c.alt, took, x);
    assert c.alt[..|took|] == c.alt;
    assert Fine(bs, t, f, c, x);
  }

  /** `_unified_free_dentry_priv`, whatever libltfs takes and whatever is left in the list: the file keeps its length,
      and keeps the bytes of the data partition exactly if the copies taken agree at the doubtful offsets. */
  lemma PartSaveExact(bs: nat, ip: nat, tape: R.Tape, f: File, c: Copies, d: Dentry, took: seq<bool>, r: Dentry)
    requires ip in tape && Joint(bs, ip, tape[ip], f, c) && |took| == |c.alt|
    requires R.Contents(bs, tape, d) == f.raw && A.Saved(bs, d, A.Kept(c.alt, took), r)
    ensures r.size == d.size
    ensures R.Contents(bs, tape, r) == f.raw <==>
            forall x: nat :: Doubtful(f, c, took, x) ==> Agrees(bs, tape[ip], f.raw, A.Kept(c.alt, took), x)
  {
    KeptMembers(c.alt, took);
    JointInside(bs, ip, tape[ip], f, c, A.Kept(c.alt, took));
    assert |R.Contents(bs, tape, d)| == d.size;
    hide Joint, Inside, A.Saved, A.Kept, Agrees, Doubtful;
    SavedExact(bs, ip, tape, d, A.Kept(c.alt, took), r);
    forall x: nat | !Doubtful(f, c, took, x) ensures Agrees(bs, tape[ip], f.raw, A.Kept(c.alt, took), x) {
      UndoubtedAgrees(bs, ip, tape[ip], f, c, took, x);
    }
  }

  predicate Apart(a: Extent, b: Extent) { a.End() <= b.fileoffset || b.End() <= a.fileoffset }

  /** No extent that was dropped overlaps one that was taken. */
  predicate SkipsAlone(l: seq<Extent>, took: seq<bool>)
    requires |took| == |l|
  {
    forall i, j :: 0 <= i < |took| && 0 <= j < |took| && !took[i] && took[j] ==> Apart(l[i], l[j])
  }

  /** Dropping extents that overlap no other does no harm: the bytes come from the data partition then. */
  lemma LoneSkips(bs: nat, ip: nat, tape: R.Tape, f: File, c: Copies, d: Dentry, took: seq<bool>, r: Dentry)
    requires ip in tape && Joint(bs, ip, tape[ip], f, c) && |took| == |c.alt| && SkipsAlone(c.alt, took)
    requires R.Contents(bs, tape, d) == f.raw && A.Saved(bs, d, A.Kept(c.alt, took), r)
    ensures R.Contents(bs, tape, r) == f.raw <==>
            forall x: nat :: x in c.missed || CellAt(f.reqs, x).Held? ==>
                               Agrees(bs, tape[ip], f.raw, A.Kept(c.alt, took), x)
  {
    JointIdle(bs, ip, tape[ip], f, c);
    PartSaveExact(bs, ip, tape, f, c, d, took, r);
    hide Joint, A.Saved, A.Kept, A.Override;
    forall x: nat | exists i :: 0 <= i < |took| && !took[i] && c.alt[i].Covers(x)
      ensures Agrees(bs, tape[ip], f.raw, A.Kept(c.alt, took), x)
    {
      var i :| 0 <= i < |took| && !took[i] && c.alt[i].Covers(x);
      forall j | 0 <= j < |took| && took[j] ensures !c.alt[j].Covers(x) { assert Apart(c.alt[i], c.alt[j]); }
      A.KeptNothing(bs, c.alt, took, x);
    }
  }

  /** Nothing in the list and nothing on its way: the file is what is on the data partition. */
  predicate Idle(f: File) { f.reqs == [] && f.flight == [] && !f.ios.IosTruncate? }

  lemma IdleIsRaw(cs: nat, f: File)
    requires Good(cs, f) && Idle(f)
    ensures f.size == |f.raw| && Content(f) == f.raw
  {
    assert forall x: nat :: ByteAt(f, x) == At(f.raw, x);
  }

  /** `_unified_free_dentry_priv`: replacing the extents by those on the index partition leaves an idle file as it
      is exactly if every copy that was missed happens to agree; in particular if none was. */
  lemma SaveExact(bs: nat, ip: nat, cs: nat, tape: R.Tape, f: File, c: Copies, d: Dentry, r: Dentry)
    requires Good(cs, f) && Idle(f) && ip in tape && Joint(bs, ip, tape[ip], f, c)
    requires R.Contents(bs, tape, d) == f.raw && A.Saved(bs, d, c.alt, r)
    ensures r.size == d.size
    ensures R.Contents(bs, tape, r) == Content(f) <==>
            forall x :: x in c.missed ==> Agrees(bs, tape[ip], f.raw, c.alt, x)
  {
    IdleIsRaw(cs, f);
    JointInside(bs, ip, tape[ip], f, c, c.alt);
    SavedExact(bs, ip, tape, d, c.alt, r);
    hide A.AltOk, A.Override, A.Saved, Good;
    forall x: nat ensures x !in c.missed ==> Agrees(bs, tape[ip], f.raw, c.alt, x) {
      assert Fine(bs, tape[ip], f, c, x);
    }
  }

  /** A run that ends with an empty list had no other writes than smooth ones. */
  lemma {:induction false} IdleIsSmooth(cs: nat, f: File, acts: seq<Action>)
    requires Good(cs, f) && Runs(cs, f, acts) && Run(cs, f, acts).reqs == []
    ensures AllSmooth(cs, f, acts)
    decreases |acts|
  {
    if acts != [] {
      ActionKeeps(cs, f, acts[0]);
      hide Good, Do, Smooth;
      if Smooth(cs, f, acts[0]) { IdleIsSmooth(cs, Do(cs, f, acts[0]), acts[1..]); }
    }
  }

  /** From a file just opened, through any interleaving of writes, truncations, flushes, background work and
      changes of placement, to the end of the mount. */
  lemma CopiesAreTheFile(bs: nat, ip: nat, cs: nat, raw: seq<byte>, writeIp: bool, es: seq<Event>, t: Partition,
                         tape: R.Tape, d: Dentry, r: Dentry)
    requires 0 < bs && 0 < cs
    requires var f := Opened(raw, writeIp);
             && Runs(cs, f, Actions(es)) && Idle(Run(cs, f, Actions(es)))
             && ip in tape && tape[ip] == CopiesRun(bs, ip, cs, f, es, Copies([], {}), t).1
             && R.Contents(bs, tape, d) == Run(cs, f, Actions(es)).raw
             && A.Saved(bs, d, CopiesRun(bs, ip, cs, f, es, Copies([], {}), t).0.alt, r)
    ensures var f := Opened(raw, writeIp);
            var c := CopiesRun(bs, ip, cs, f, es, Copies([], {}), t).0;
            var s := FlatRun(cs, f, Actions(es), raw);
            R.Contents(bs, tape, r) == s <==> forall x :: x in c.missed ==> Agrees(bs, tape[ip], s, c.alt, x)
  {
    var f, none := Opened(raw, writeIp), Copies([], {});
    FreshIsGood(cs, raw, writeIp);
    JointNone(bs, ip, t, f, none);
    hide Good, Joint, A.Saved, Agrees;
    RunIsFlat(cs, f, Actions(es));
    IdleIsSmooth(cs, f, Actions(es));
    JointRun(bs, ip, cs, f, es, none, t);
    var g, c := Run(cs, f, Actions(es)), CopiesRun(bs, ip, cs, f, es, none, t).0;
    SaveExact(bs, ip, cs, tape, g, c, d, r);
    IdleIsRaw(cs, g);
  }

  function Opened(raw: seq<byte>, writeIp: bool): File {
    File(raw, [], [], |raw|, writeIp, IosFree, IoFree, map[], [])
  }
}
