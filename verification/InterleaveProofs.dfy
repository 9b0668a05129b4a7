/** Every action of every thread keeps the file what a flat file would be. */
module InterleaveProofs {
  import opened Bytes
  import opened Requests
  import opened Cells
  import opened WriteProofs
  import opened WriteTheorem
  import opened Interleave
  import opened ListEdits

  /** g is f after an action whose effect on the file is e. */
  ghost predicate Keeps(cs: nat, f: File, g: File, e: Edit) {
    Shape(cs, g) && Sized(g) && Content(g) == Apply(Content(f), e)
  }

  lemma SameContent(f: File, g: File)
    requires g.size == f.size && forall x: nat :: ByteAt(g, x) == ByteAt(f, x)
    ensures Content(g) == Content(f)
  {
    forall x | 0 <= x < f.size ensures Content(g)[x] == Content(f)[x] { assert ByteAt(g, x) == ByteAt(f, x); }
  }

  // ----- write

  lemma WriteBytes(cs: nat, f: File, a: Action, x: nat)
    requires Shape(cs, f) && a.Write? && Enabled(cs, f, a) && Smooth(cs, f, a)
    ensures var g, n := Do(cs, f, a), Consumed(cs, f, a);
            && n <= |a.buf|
            && WellFormed(g.reqs, cs)
            && ByteAt(g, x) == (if a.off <= x < a.off + n then a.buf[x - a.off] else ByteAt(f, x))
            && (a.off <= x < a.off + n ==> CellAt(g.reqs, x).Held?)
            && (CellAt(g.reqs, x).Held? && CellAt(g.reqs, x).ip ==> CellAt(g.reqs, x) == CellAt(f.reqs, x))
            && (CellAt(f.reqs, x).Held? && !CellAt(g.reqs, x).Held? ==> x < |f.raw|)
            && (CellAt(g.reqs, x).Held? ==> CellAt(f.reqs, x).Held? || a.off <= x < a.off + n)
  {
    var w := Start(f, a);
    SafeKeeps(cs, w);
    hide WriteTheorem.Write, Safe;
    var r := WriteTheorem.Write(cs, w);
    assert WroteAt(w.l, w.o, w.buf, r.w.l, r.w.o - w.o, x);
    if f.flight != [] { DirtyHolds(f.reqs, x); }
  }

  lemma WriteShape(cs: nat, f: File, a: Action)
    requires Shape(cs, f) && a.Write? && Enabled(cs, f, a) && Smooth(cs, f, a)
    ensures Shape(cs, Do(cs, f, a))
  {
    var g := Do(cs, f, a);
    forall x: nat ensures CellAt(g.reqs, x).Held? && CellAt(g.reqs, x).ip ==> CellAt(g.reqs, x) == CellAt(f.reqs, x) {
      WriteBytes(cs, f, a, x);
    }
    WriteBytes(cs, f, a, 0);
    if f.flight != [] || !f.writeIp {
      forall x: nat ensures CellAt(g.reqs, x).Held? ==> !CellAt(g.reqs, x).ip { DirtyHolds(f.reqs, x); }
      DirtyIf(g.reqs, cs);
    }
  }

  lemma WriteSized(cs: nat, f: File, a: Action)
    requires Shape(cs, f) && Sized(f) && a.Write? && Enabled(cs, f, a) && Smooth(cs, f, a)
    ensures Sized(Do(cs, f, a))
  {
    var g, n := Do(cs, f, a), Consumed(cs, f, a);
    forall x: nat | CellAt(g.reqs, x).Held? ensures x < g.size { WriteBytes(cs, f, a, x); }
    if g.size > 0 { WriteBytes(cs, f, a, g.size - 1); }
  }

  /** What of the buffer was taken stands where it belongs; the rest of the file is as before. */
  lemma WrittenBytes(cs: nat, f: File, a: Action)
    requires Shape(cs, f) && Sized(f) && a.Write? && Enabled(cs, f, a) && Smooth(cs, f, a)
    ensures var g, n := Do(cs, f, a), Consumed(cs, f, a);
            && n <= |a.buf|
            && (forall x: nat ::
                  ByteAt(g, x) == if a.off <= x < a.off + n then a.buf[..n][x - a.off] else ByteAt(f, x))
            && (forall x: nat :: f.size <= x ==> ByteAt(f, x) == 0)
  {
    hide Sized, ByteAt, Consumed, Do;
    var g, n := Do(cs, f, a), Consumed(cs, f, a);
    WriteBytes(cs, f, a, 0);
    forall x: nat ensures ByteAt(g, x) == if a.off <= x < a.off + n then a.buf[..n][x - a.off] else ByteAt(f, x) {
      WriteBytes(cs, f, a, x);
    }
    forall x: nat | f.size <= x ensures ByteAt(f, x) == 0 { PastEnd(cs, f, x); }
  }

  lemma WriteActs(cs: nat, f: File, a: Action)
    requires Shape(cs, f) && Sized(f) && a.Write? && Enabled(cs, f, a) && Smooth(cs, f, a)
    ensures Keeps(cs, f, Do(cs, f, a), Effect(cs, f, a))
  {
    hide Sized, ByteAt, Consumed, Content;
    WriteShape(cs, f, a);
    WriteSized(cs, f, a);
    WrittenBytes(cs, f, a);
    var g, n := Do(cs, f, a), Consumed(cs, f, a);
    if n > 0 { OverwriteContent(f, g, a.off, a.buf[..n]); } else { SameContent(f, g); }
  }

  lemma OverwriteContent(f: File, g: File, off: nat, bytes: seq<byte>)
    requires g.size == Max(f.size, off + |bytes|)
    requires forall x: nat :: ByteAt(g, x) == if off <= x < off + |bytes| then bytes[x - off] else ByteAt(f, x)
    requires forall x: nat :: f.size <= x ==> ByteAt(f, x) == 0
    ensures Content(g) == FlatWrite(Content(f), off, bytes)
  {
    hide ByteAt;
    var t := FlatWrite(Content(f), off, bytes);
    forall x | 0 <= x < g.size ensures Content(g)[x] == t[x] {
      assert ByteAt(g, x) == if off <= x < off + |bytes| then bytes[x - off] else ByteAt(f, x);
    }
  }

  /** Nothing but zeros lies past the end of the file. */
  lemma PastEnd(cs: nat, f: File, x: nat)
    requires Shape(cs, f) && Sized(f) && !f.ios.IosTruncate? && f.size <= x
    ensures ByteAt(f, x) == 0
  {
  }

  // ----- background writer

  lemma TakeActs(cs: nat, f: File, a: Action)
    requires Shape(cs, f) && Sized(f) && a.Take? && Enabled(cs, f, a)
    ensures Keeps(cs, f, Do(cs, f, a), NoEdit)
  {
    var g := Do(cs, f, a);
    TakenShape(f.reqs, a.pick, cs);
    forall x: nat
      ensures ByteAt(g, x) == ByteAt(f, x) && Or(CellAt(g.reqs, x), CellAt(g.flight, x)) == CellAt(f.reqs, x) &&
              (CellAt(g.reqs, x).Held? ==> !CellAt(g.reqs, x).ip)
    {
      TakenCells(f.reqs, a.pick, x);
      DirtyHolds(g.reqs, x);
    }
    SameContent(f, g);
  }

  lemma WriteOneCells(f: File, cs: nat, x: nat)
    requires Shape(cs, f) && f.flight != []
    ensures CellAt(f.flight[1..], x) == if f.flight[0].Covers(x) then Hole else CellAt(f.flight, x)
    ensures f.flight[0].Covers(x) ==> CellAt(f.flight, x) == Held(f.flight[0].data[x - f.flight[0].offset], false)
  {
    OnlyHere(f.flight, 0, x);
  }

  lemma WriteOneSame(cs: nat, f: File)
    requires Shape(cs, f) && Enabled(cs, f, WriteOne)
    ensures Content(Do(cs, f, WriteOne)) == Content(f)
  {
    var g := Do(cs, f, WriteOne);
    forall x: nat ensures ByteAt(g, x) == ByteAt(f, x) { WriteOneCells(f, cs, x); }
    SameContent(f, g);
  }

  lemma WriteOneShape(cs: nat, f: File)
    requires Shape(cs, f) && Enabled(cs, f, WriteOne)
    ensures Shape(cs, Do(cs, f, WriteOne))
  {
    forall x: nat ensures CellAt(f.reqs, x).Held? ==> !CellAt(f.reqs, x).ip { DirtyHolds(f.reqs, x); }
  }

  lemma WriteOneSized(cs: nat, f: File)
    requires Shape(cs, f) && Sized(f) && Enabled(cs, f, WriteOne)
    ensures Sized(Do(cs, f, WriteOne))
  {
    forall x: nat ensures CellAt(f.flight[1..], x).Held? ==> CellAt(f.flight, x).Held? { WriteOneCells(f, cs, x); }
    if !f.ios.IosTruncate? {
      WriteOneCells(f, cs, f.flight[0].End() - 1);
      if f.size > 0 { WriteOneCells(f, cs, f.size - 1); }
    }
  }

  lemma WriteOneActs(cs: nat, f: File)
    requires Shape(cs, f) && Sized(f) && Enabled(cs, f, WriteOne)
    ensures Keeps(cs, f, Do(cs, f, WriteOne), NoEdit)
  {
    WriteOneSame(cs, f);
    WriteOneShape(cs, f);
    WriteOneSized(cs, f);
  }

  // ----- flush

  lemma FlushSame(cs: nat, f: File, a: Action)
    requires Shape(cs, f) && a.Flush? && Enabled(cs, f, a)
    ensures var g := Do(cs, f, a); Content(g) == Content(f) && Shape(cs, g) && Settled(cs, f.reqs, f.raw, g.reqs, g.raw)
  {
    var g := Do(cs, f, a);
    FlushSettles(cs, f.reqs, 0, f.raw, f.writeIp, a.pick);
    hide FlushFrom;
    forall x: nat ensures ByteAt(g, x) == ByteAt(f, x) { assert SettledAt(f.reqs, f.raw, g.reqs, g.raw, x); }
    SameContent(f, g);
  }

  lemma FlushActs(cs: nat, f: File, a: Action)
    requires Shape(cs, f) && Sized(f) && a.Flush? && Enabled(cs, f, a)
    ensures Keeps(cs, f, Do(cs, f, a), NoEdit)
  {
    FlushSame(cs, f, a);
    var g := Do(cs, f, a);
    hide FlushFrom;
    forall x: nat ensures CellAt(g.reqs, x).Held? ==> CellAt(f.reqs, x).Held? {
      assert SettledAt(f.reqs, f.raw, g.reqs, g.raw, x);
    }
    if f.size > 0 { assert SettledAt(f.reqs, f.raw, g.reqs, g.raw, f.size - 1); }
    assert |g.raw| <= f.size;
    hide Shape, Settled, Content;
  }

  // ----- truncate

  lemma TruncateBeginActs(cs: nat, f: File, a: Action)
    requires Shape(cs, f) && Sized(f) && a.TruncateBegin? && Enabled(cs, f, a)
    ensures Keeps(cs, f, Do(cs, f, a), SetLength(a.len))
  {
    var g := Do(cs, f, a);
    TrimToKeeps(f.reqs, a.len, cs);
    forall x: nat ensures CellAt(g.reqs, x) == if x < a.len then CellAt(f.reqs, x) else Hole {
      TrimToCells(f.reqs, a.len, x);
    }
    hide TrimTo;
    forall x | 0 <= x < a.len ensures Content(g)[x] == Resize(Content(f), a.len)[x] {
      assert ByteAt(g, x) == ByteAt(f, x);
      if f.size <= x { PastEnd(cs, f, x); }
    }
  }

  lemma TruncateEndActs(cs: nat, f: File)
    requires Shape(cs, f) && Sized(f) && Enabled(cs, f, TruncateEnd)
    ensures Keeps(cs, f, Do(cs, f, TruncateEnd), NoEdit)
  {
    var g := Do(cs, f, TruncateEnd);
    forall x | 0 <= x < f.size ensures Content(g)[x] == Content(f)[x] { assert ByteAt(g, x) == ByteAt(f, x); }
  }

  // ----- index partition

  lemma DropActs(cs: nat, f: File, g: File)
    requires Shape(cs, f) && Sized(f)
    requires g == f.(reqs := DropIp(f.reqs), writeIp := g.writeIp)
    ensures Keeps(cs, f, g, NoEdit)
  {
    DropIpShape(f.reqs, cs);
    forall x: nat
      ensures ByteAt(g, x) == ByteAt(f, x) &&
              (CellAt(g.reqs, x).Held? ==> CellAt(f.reqs, x).Held? && !CellAt(g.reqs, x).ip) &&
              (CellAt(f.reqs, x).Held? ==> CellAt(g.reqs, x).Held? || x < |g.raw|)
    {
      DropIpCells(f.reqs, x);
      if f.flight != [] { DirtyHolds(f.reqs, x); }
    }
    SameContent(f, g);
  }

  // ----- reads

  lemma ListEndsFile(cs: nat, f: File)
    requires Shape(cs, f) && Sized(f) && !f.ios.IosTruncate? && f.flight == []
    ensures f.size == Max(|f.raw|, LastEnd(f.reqs)) && Below(f.reqs, LastEnd(f.reqs))
  {
    HeldBelow(f.reqs, cs);
  }

  lemma PlanLength(f: File, p: Pending)
    requires f.size == Max(|f.raw|, LastEnd(f.reqs)) && p.plan == PlanFor(f.reqs, p.off, p.count)
    ensures |Result(p, f.raw)| == |FlatRead(Content(f), p.off, p.count)|
    ensures |p.plan| < |Result(p, f.raw)| ==> LastEnd(f.reqs) <= p.off + |p.plan|
  {
    hide ByteAt, CellAt;
  }

  /** With nothing in flight, the plan of a read and the tape together give the file's bytes. */
  lemma PlanIsContent(cs: nat, f: File, p: Pending)
    requires Shape(cs, f) && Sized(f) && !f.ios.IosTruncate? && f.flight == [] &&
             p.plan == PlanFor(f.reqs, p.off, p.count)
    ensures Result(p, f.raw) == FlatRead(Content(f), p.off, p.count)
  {
    hide Shape, Sized;
    ListEndsFile(cs, f);
    PlanLength(f, p);
    var got, want := Result(p, f.raw), FlatRead(Content(f), p.off, p.count);
    forall i | 0 <= i < |got| ensures got[i] == want[i] {
      assert want[i] == ByteAt(f, p.off + i);
      if |p.plan| <= i { assert CellAt(f.reqs, p.off + i) == Hole; }
    }
  }

  /** A read whose bytes are all in the list needs no tape. */
  lemma CachedIsContent(cs: nat, f: File, p: Pending)
    requires Shape(cs, f) && Sized(f) && p.plan == PlanFor(f.reqs, p.off, p.count) && AllCached(p)
    ensures Result(p, []) == FlatRead(Content(f), p.off, p.count)
  {
    var got, want := Result(p, []), FlatRead(Content(f), p.off, p.count);
    if p.count > 0 { assert CellAt(f.reqs, p.off + (p.count - 1)) == p.plan[p.count - 1]; }
    assert |got| == |want|;
    forall i | 0 <= i < |got| ensures got[i] == want[i] {
      assert CellAt(f.reqs, p.off + i) == p.plan[i];
      assert want[i] == ByteAt(f, p.off + i);
    }
  }

  /** Pending reads stay on course as long as nobody else moves what they depend on. */
  lemma ReadersKeep(f: File, g: File)
    requires Reading(f) && g.readers == f.readers && g.replies == f.replies
    requires g.ios == f.ios || (!f.ios.IosRead? && !g.ios.IosRead?)
    requires g.io == f.io || (!f.io.IoRead? && !g.io.IoRead?)
    requires f.ios.IosRead? ==> g.reqs == f.reqs && Content(g) == Content(f)
    requires f.io.IoRead? ==> g.raw == f.raw
    ensures Reading(g)
  {
    forall id | id in g.readers ensures ReadOk(g, id) { assert ReadOk(f, id); }
  }

  lemma ScanShape(cs: nat, f: File, a: Action)
    requires Good(cs, f) && a.ReadScan? && Enabled(cs, f, a)
    ensures var g := Do(cs, f, a); Shape(cs, g) && Sized(g) && Content(g) == Content(f)
  {
    hide Content;
    var g := Do(cs, f, a);
    assert g.size == f.size && g.raw == f.raw && g.reqs == f.reqs && g.flight == f.flight;
    SameContent(f, g);
  }

  lemma ReplyReading(f: File, reply: Reply)
    requires Reading(f) && reply.got == reply.snap
    ensures Reading(f.(replies := f.replies + [reply]))
  {
    var g := f.(replies := f.replies + [reply]);
    SameContent(f, g);
    hide Content, PlanFor;
    forall id | id in g.readers ensures ReadOk(g, id) { assert ReadOk(f, id); }
  }

  lemma QueueReading(f: File, id: nat, p: Pending)
    requires Reading(f) && f.ios == IosFree && id !in f.readers
    requires p.plan == PlanFor(f.reqs, p.off, p.count) && p.snap == FlatRead(Content(f), p.off, p.count)
    ensures Reading(f.(readers := f.readers[id := p], ios := IosRead(id)))
  {
    var g := f.(readers := f.readers[id := p], ios := IosRead(id));
    SameContent(f, g);
    hide Content, PlanFor;
    forall i | i in g.readers ensures ReadOk(g, i) { assert i != id ==> ReadOk(f, i); }
  }

  lemma ScanReading(cs: nat, f: File, a: Action)
    requires Good(cs, f) && a.ReadScan? && Enabled(cs, f, a)
    ensures Reading(Do(cs, f, a))
  {
    hide Content, PlanFor, Reading, ReadOk;
    var p := Pending(a.off, a.count, PlanFor(f.reqs, a.off, a.count), FlatRead(Content(f), a.off, a.count));
    if AllCached(p) {
      CachedIsContent(cs, f, p);
      ReplyReading(f, Reply(Result(p, []), p.snap));
    } else {
      QueueReading(f, a.id, p);
    }
  }

  lemma ScanKeeps(cs: nat, f: File, a: Action)
    requires Good(cs, f) && a.ReadScan? && Enabled(cs, f, a)
    ensures Good(cs, Do(cs, f, a)) && Content(Do(cs, f, a)) == Content(f)
  {
    ScanShape(cs, f, a);
    ScanReading(cs, f, a);
  }

  lemma LockReading(f: File, id: nat)
    requires Reading(f) && f.ios == IosRead(id) && f.io == IoFree && id in f.readers
    requires var p := f.readers[id]; |p.plan| <= p.count && p.snap == Result(p, f.raw)
    ensures Reading(f.(ios := IosFree, io := IoRead(id)))
  {
    hide Content, PlanFor, Result;
    var g := f.(ios := IosFree, io := IoRead(id));
    forall i | i in g.readers ensures ReadOk(g, i) { assert ReadOk(f, i); }
  }

  lemma LockSnap(cs: nat, f: File, id: nat)
    requires Good(cs, f) && f.ios == IosRead(id) && f.flight == []
    ensures id in f.readers && var p := f.readers[id]; |p.plan| <= p.count && p.snap == Result(p, f.raw)
  {
    assert ReadOk(f, id);
    hide Content, ReadOk, Result;
    PlanIsContent(cs, f, f.readers[id]);
  }

  lemma LockKeeps(cs: nat, f: File, a: Action)
    requires Good(cs, f) && a.ReadLock? && Enabled(cs, f, a)
    ensures Good(cs, Do(cs, f, a)) && Content(Do(cs, f, a)) == Content(f)
  {
    SameContent(f, Do(cs, f, a));
    LockSnap(cs, f, a.id);
    hide Content, ReadOk;
    LockReading(f, a.id);
  }

  lemma TapeKeeps(cs: nat, f: File, a: Action)
    requires Good(cs, f) && a.ReadTape? && Enabled(cs, f, a)
    ensures Good(cs, Do(cs, f, a)) && Content(Do(cs, f, a)) == Content(f)
  {
    var g := Do(cs, f, a);
    SameContent(f, g);
    assert ReadOk(f, a.id);
    forall id | id in g.readers ensures ReadOk(g, id) { assert ReadOk(f, id); }
  }

  // ----- the theorems

  lemma EditKeeps(cs: nat, f: File, a: Action)
    requires Shape(cs, f) && Sized(f) && Enabled(cs, f, a) && Smooth(cs, f, a)
    requires !a.ReadScan? && !a.ReadLock? && !a.ReadTape?
    ensures Keeps(cs, f, Do(cs, f, a), Effect(cs, f, a))
  {
    match a
    case Write(_, _, _, _) => WriteActs(cs, f, a);
    case Take(_) => TakeActs(cs, f, a);
    case WriteOne => WriteOneActs(cs, f);
    case WriterDone => SameContent(f, Do(cs, f, a));
    case Flush(_) => FlushActs(cs, f, a);
    case TruncateBegin(_) => TruncateBeginActs(cs, f, a);
    case TruncateEnd => TruncateEndActs(cs, f);
    case SetIp => SameContent(f, Do(cs, f, a));
    case UnsetIp => DropActs(cs, f, Do(cs, f, a));
    case IndexQueue => DropActs(cs, f, Do(cs, f, a));
  }

  lemma SmoothKeeps(cs: nat, f: File, a: Action)
    requires Good(cs, f) && Enabled(cs, f, a) && Smooth(cs, f, a)
    ensures Good(cs, Do(cs, f, a)) && Content(Do(cs, f, a)) == Apply(Content(f), Effect(cs, f, a))
  {
    if a.ReadScan? { ScanKeeps(cs, f, a); }
    else if a.ReadLock? { LockKeeps(cs, f, a); }
    else if a.ReadTape? { TapeKeeps(cs, f, a); }
    else {
      EditKeeps(cs, f, a);
      hide Shape, Sized, Effect, Smooth;
      ReadersKeep(f, Do(cs, f, a));
    }
  }

  /** A write that is not smooth leaves a list that overlaps, and its first byte is not read back. */
  lemma RoughBreaks(cs: nat, f: File, a: Action)
    requires Good(cs, f) && Enabled(cs, f, a) && !Smooth(cs, f, a)
    ensures var g := Do(cs, f, a); !WellFormed(g.reqs, cs) && ByteAt(g, a.off) == ByteAt(f, a.off)
  {
    var w := Start(f, a);
    var k :| 0 <= k < |w.l| && Harms(cs, w, k);
    hide WriteTheorem.Write;
    WriteClashes(cs, w, k);
  }

  /** Every action of every thread keeps the invariant, and changes what the file holds exactly as a write or a
      truncation of a flat file does, if and only if it is smooth; background work and reads change nothing. */
  lemma ActionKeeps(cs: nat, f: File, a: Action)
    requires Good(cs, f) && Enabled(cs, f, a)
    ensures Good(cs, Do(cs, f, a)) && Content(Do(cs, f, a)) == Apply(Content(f), Effect(cs, f, a)) <==> Smooth(cs, f, a)
    ensures !Smooth(cs, f, a) ==> !WellFormed(Do(cs, f, a).reqs, cs)
  {
    if Smooth(cs, f, a) { SmoothKeeps(cs, f, a); } else { RoughBreaks(cs, f, a); }
  }

  ghost predicate Runs(cs: nat, f: File, acts: seq<Action>)
    decreases |acts|
  {
    acts == [] ||
    (0 < cs && WellFormed(f.reqs, cs) && Enabled(cs, f, acts[0]) && Runs(cs, Do(cs, f, acts[0]), acts[1..]))
  }

  ghost function Run(cs: nat, f: File, acts: seq<Action>): File
    requires Runs(cs, f, acts)
    decreases |acts|
  {
    if acts == [] then f else Run(cs, Do(cs, f, acts[0]), acts[1..])
  }

  /** The writes and truncations of a run, applied to a flat file in the order they took effect. */
  ghost function FlatRun(cs: nat, f: File, acts: seq<Action>, s: seq<byte>): seq<byte>
    requires Runs(cs, f, acts)
    decreases |acts|
  {
    if acts == [] then s else FlatRun(cs, Do(cs, f, acts[0]), acts[1..], Apply(s, Effect(cs, f, acts[0])))
  }

  ghost predicate AllSmooth(cs: nat, f: File, acts: seq<Action>)
    requires Runs(cs, f, acts)
    decreases |acts|
  {
    acts == [] || (Smooth(cs, f, acts[0]) && AllSmooth(cs, Do(cs, f, acts[0]), acts[1..]))
  }

  /** The file holds what a flat file would hold, and every finished read returned what the file held when it scanned
      the request list. */
  ghost predicate Flat(cs: nat, f: File, acts: seq<Action>)
    requires Runs(cs, f, acts)
  {
    var g := Run(cs, f, acts);
    && Good(cs, g) && Content(g) == FlatRun(cs, f, acts, Content(f))
    && forall i :: 0 <= i < |g.replies| ==> g.replies[i].got == g.replies[i].snap
  }

  /** After any interleaving the file is what a flat file would be, if and only if every write was smooth. A write that
      is not ends the run: nothing is said about the overlapping list it leaves. */
  lemma {:induction false} RunIsFlat(cs: nat, f: File, acts: seq<Action>)
    requires Good(cs, f) && Runs(cs, f, acts)
    ensures Flat(cs, f, acts) <==> AllSmooth(cs, f, acts)
    ensures Good(cs, Run(cs, f, acts)) <==> AllSmooth(cs, f, acts)
    decreases |acts|
  {
    if acts != [] {
      ActionKeeps(cs, f, acts[0]);
      var g := Do(cs, f, acts[0]);
      if Smooth(cs, f, acts[0]) {
        hide Shape, Sized, Effect, Do, Smooth;
        RunIsFlat(cs, g, acts[1..]);
      } else {
        assert acts[1..] == [];
        assert Run(cs, f, acts) == g;
      }
    }
  }

  /** A file nobody has written to yet. */
  lemma FreshIsGood(cs: nat, raw: seq<byte>, writeIp: bool)
    requires 0 < cs
    ensures var f := File(raw, [], [], |raw|, writeIp, IosFree, IoFree, map[], []); Good(cs, f) && Content(f) == raw
  {
    var f := File(raw, [], [], |raw|, writeIp, IosFree, IoFree, map[], []);
    forall x | 0 <= x < |raw| ensures Content(f)[x] == raw[x] { assert ByteAt(f, x) == raw[x]; }
  }

  /** A write that does not run into cache pressure takes effect as a whole. */
  lemma WholeWrite(cs: nat, f: File, a: Action)
    requires Good(cs, f) && Enabled(cs, f, a) && a.Write?
    requires WriteTheorem.Write(cs, Start(f, a)).exit != Pressure
    ensures Effect(cs, f, a) == Overwrite(a.off, a.buf)
  {
    WriteSpends(cs, Start(f, a));
    hide WriteTheorem.Write;
  }
}
