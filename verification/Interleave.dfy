/**
 One file under the unified scheduler, and every way its threads can interleave.

 Application threads hold the dentry's iosched_lock while they touch the request list; whoever
 touches the file on tape holds io_lock. The background writer takes requests into a private list
 and writes them after it has dropped iosched_lock; a reader takes io_lock before it drops
 iosched_lock and reads the tape afterwards; truncation keeps iosched_lock and waits for io_lock in
 the middle. Every action below is one stretch of code between two such points.

 `raw` is the file as libltfs has it; module RawFile shows that its extent list behaves like this
 flat file.
 */
module Interleave {
  import opened Bytes
  import opened Requests
  import opened Cells
  import opened WriteProofs
  import opened WriteTheorem

  datatype IosLock = IosFree | IosTruncate(len: nat) | IosRead(id: nat)

  datatype IoLock = IoFree | IoWriter | IoRead(id: nat)

  /** A read in progress: what the scan of the request list found, and (for the statement only) what
      the file held at that moment. */
  datatype Pending = Pending(off: nat, count: nat, plan: seq<Cell>, snap: seq<byte>)

  /** A finished read: what it returned and what the file held when it scanned the list. */
  datatype Reply = Reply(got: seq<byte>, snap: seq<byte>)

  datatype File = File(raw: seq<byte>, reqs: seq<Req>, flight: seq<Req>, size: nat, writeIp: bool,
                       ios: IosLock, io: IoLock, readers: map<nat, Pending>, replies: seq<Reply>)

  /** What a user sees at offset x: the request list over the writer's private list over the tape. */
  function ByteAt(f: File, x: nat): byte {
    var c := Or(CellAt(f.reqs, x), CellAt(f.flight, x));
    if c.Held? then c.b else At(f.raw, x)
  }

  function Content(f: File): (s: seq<byte>)
    ensures |s| == f.size
    ensures forall x :: 0 <= x < f.size ==> s[x] == ByteAt(f, x)
  {
    seq(f.size, x requires 0 <= x < f.size => ByteAt(f, x))
  }

  predicate AllDirty(l: seq<Req>) { forall i :: 0 <= i < |l| ==> !l[i].ip }

  // ----- list edits of the other operations

  /** The requests that pass a test, in order. */
  function Keep(l: seq<Req>, test: Req -> bool): seq<Req> {
    if l == [] then [] else (if test(l[0]) then [l[0]] else []) + Keep(l[1..], test)
  }

  /** `_unified_unset_write_ip`: drop all replica requests. */
  function DropIp(l: seq<Req>): seq<Req> { Keep(l, (r: Req) => !r.ip) }

  /** The requests the background writer takes (those whose offset is in pick), and those it leaves. */
  function Taken(l: seq<Req>, pick: set<nat>): seq<Req> { Keep(l, (r: Req) => r.offset in pick) }

  function Left(l: seq<Req>, pick: set<nat>): seq<Req> { Keep(l, (r: Req) => r.offset !in pick) }

  /** The reverse scan of `unified_truncate`. */
  function TrimTo(l: seq<Req>, len: nat): seq<Req> {
    if l == [] then []
    else
      var last := l[|l| - 1];
      if last.offset >= len then TrimTo(l[..|l| - 1], len)
      else if last.End() > len then l[..|l| - 1] + [last.(data := last.data[..len - last.offset])]
      else l
  }

  // ----- invariant

  ghost predicate Replica(l: seq<Req>, raw: seq<byte>) {
    forall x: nat :: CellAt(l, x).Held? && CellAt(l, x).ip ==> x < |raw| && raw[x] == CellAt(l, x).b
  }

  ghost predicate Below(l: seq<Req>, n: nat) { forall x: nat :: CellAt(l, x).Held? ==> x < n }

  ghost predicate Tight(f: File) {
    f.size == |f.raw| || (f.size > 0 && Or(CellAt(f.reqs, f.size - 1), CellAt(f.flight, f.size - 1)).Held?)
  }

  /** The replies a pending read will give if it reads the tape in its present state. */
  function Result(p: Pending, raw: seq<byte>): seq<byte>
    requires |p.plan| <= p.count
  {
    seq(|p.plan|, i requires 0 <= i < |p.plan| => if p.plan[i].Held? then p.plan[i].b else At(raw, p.off + i))
    + FlatRead(raw, p.off + |p.plan|, p.count - |p.plan|)
  }

  function PlanFor(l: seq<Req>, off: nat, count: nat): (plan: seq<Cell>)
    ensures |plan| <= count
  {
    var n := if LastEnd(l) > off then Min(count, LastEnd(l) - off) else 0;
    seq(n, i requires 0 <= i < n => CellAt(l, off + i))
  }

  /** The request list alone answers the read. */
  predicate AllCached(p: Pending) { |p.plan| == p.count && forall i :: 0 <= i < p.count ==> p.plan[i].Held? }

  /** A pending read is on course: holding iosched_lock its plan matches the list, holding io_lock the
      tape completes it to what the file held at the scan. */
  ghost predicate ReadOk(f: File, id: nat)
    requires id in f.readers
  {
    var p := f.readers[id];
    if f.ios == IosRead(id) then
      p.plan == PlanFor(f.reqs, p.off, p.count) && p.snap == FlatRead(Content(f), p.off, p.count)
    else f.io == IoRead(id) && |p.plan| <= p.count && p.snap == Result(p, f.raw)
  }

  /** The lists are sorted and disjoint; the writer's list is empty unless it holds io_lock; replicas
      hold what is on the tape, and there are none while requests are in flight or the file does not
      go to the index partition. */
  ghost predicate Shape(cs: nat, f: File) {
    && 0 < cs && WellFormed(f.reqs, cs) && WellFormed(f.flight, cs) && AllDirty(f.flight)
    && (f.flight != [] ==> f.io == IoWriter)
    && (f.flight != [] || !f.writeIp ==> AllDirty(f.reqs))
    && Replica(f.reqs, f.raw)
  }

  /** file_size is the end of the last byte on tape, in flight or in the list. */
  ghost predicate Sized(f: File) {
    && Below(f.reqs, f.size)
    && (if f.ios.IosTruncate? then f.size == f.ios.len
        else |f.raw| <= f.size && Below(f.flight, f.size) && Tight(f))
  }

  ghost predicate Reading(f: File) {
    && (f.ios.IosRead? ==> f.ios.id in f.readers)
    && (f.io.IoRead? ==> f.io.id in f.readers)
    && (forall id :: id in f.readers ==> ReadOk(f, id))
    && (forall i :: 0 <= i < |f.replies| ==> f.replies[i].got == f.replies[i].snap)
  }

  ghost predicate Good(cs: nat, f: File) { Shape(cs, f) && Sized(f) && Reading(f) }

  // ----- flushing

  /** `_unified_flush_unlocked` and the inline part of `_unified_process_data_queue`, from request i
      on: replicas are merged into their predecessor; a dirty request that is picked is written to
      the tape and then becomes a replica, or is removed if the file does not go to the index partition. */
  function FlushFrom(cs: nat, l: seq<Req>, i: nat, raw: seq<byte>, writeIp: bool, pick: set<nat>): (seq<Req>, seq<byte>)
    requires i <= |l| && Fits(l, cs)
    decreases |l| - i
  {
    if i == |l| then (l, raw)
    else
      var (l1, i1, raw1) := FlushOne(cs, l, i, raw, writeIp, pick);
      FlushFrom(cs, l1, i1, raw1, writeIp, pick)
  }

  function MergeAt(cs: nat, l: seq<Req>, i: nat): (r: (seq<Req>, nat))
    requires i < |l| && Fits(l, cs)
    ensures Fits(r.0, cs) && r.1 <= |r.0| && |r.0| - r.1 == |l| - i - 1
  {
    if i == 0 then (l, 1) else
    var m := Merge(cs, l, i);
    (m.l, if m.ret == 2 then i else i + 1)
  }

  function FlushOne(cs: nat, l: seq<Req>, i: nat, raw: seq<byte>, writeIp: bool, pick: set<nat>)
    : (r: (seq<Req>, nat, seq<byte>))
    requires i < |l| && Fits(l, cs)
    ensures Fits(r.0, cs) && r.1 <= |r.0| && |r.0| - r.1 == |l| - i - 1
  {
    if l[i].ip then
      var (l1, i1) := MergeAt(cs, l, i);
      (l1, i1, raw)
    else if l[i].offset !in pick then (l, i + 1, raw)
    else
      var raw1 := FlatWrite(raw, l[i].offset, l[i].data);
      if writeIp then
        var (l1, i1) := MergeAt(cs, l[i := l[i].(ip := true)], i);
        (l1, i1, raw1)
      else (Removed(l, i), i, raw1)
  }

  // ----- actions

  datatype Action =
    | Write(off: nat, buf: seq<byte>, spare: bool, grants: nat)
    | Take(pick: set<nat>)
    | WriteOne
    | WriterDone
    | Flush(pick: set<nat>)
    | TruncateBegin(len: nat)
    | TruncateEnd
    | SetIp
    | UnsetIp
    | IndexQueue
    | ReadScan(id: nat, off: nat, count: nat)
    | ReadLock(id: nat)
    | ReadTape(id: nat)

  function Start(f: File, a: Action): Walk
    requires a.Write?
  {
    Walk(f.reqs, 0, false, a.off, a.buf, a.spare, a.grants)
  }

  predicate Enabled(cs: nat, f: File, a: Action) {
    match a
    case Write(off, buf, _, _) => f.ios == IosFree && buf != []
    case Take(_) => f.ios == IosFree && f.io == IoFree && !f.writeIp
    case WriteOne => f.io == IoWriter && f.flight != []
    case WriterDone => f.io == IoWriter && f.flight == []
    case Flush(_) => f.ios == IosFree && f.io == IoFree
    case TruncateBegin(_) => f.ios == IosFree
    case TruncateEnd => f.ios.IosTruncate? && f.io == IoFree
    case SetIp => !f.ios.IosRead?
    case UnsetIp => !f.ios.IosRead?
    case IndexQueue => f.ios == IosFree && f.io == IoFree
    case ReadScan(id, _, _) => f.ios == IosFree && id !in f.readers
    case ReadLock(id) => f.ios == IosRead(id) && f.io == IoFree
    case ReadTape(id) => f.io == IoRead(id) && f.ios != IosRead(id)
  }

  /** A write that does not pull old bytes ahead of its own; every other action. */
  predicate Smooth(cs: nat, f: File, a: Action) { a.Write? ==> Safe(cs, Start(f, a)) }

  /** The bytes of a write that went into the list before the pool ran out of blocks. */
  function Consumed(cs: nat, f: File, a: Action): nat
    requires 0 < cs && WellFormed(f.reqs, cs) && Enabled(cs, f, a) && a.Write?
  {
    var r := WriteTheorem.Write(cs, Start(f, a));
    if r.w.o >= a.off then r.w.o - a.off else 0
  }

  function Do(cs: nat, f: File, a: Action): File
    requires 0 < cs && WellFormed(f.reqs, cs) && Enabled(cs, f, a)
  {
    match a
    case Write(off, buf, _, _) =>
      var n := Consumed(cs, f, a);
      f.(reqs := WriteTheorem.Write(cs, Start(f, a)).w.l, size := if n > 0 then Max(f.size, off + n) else f.size)
    case Take(pick) => f.(reqs := Left(f.reqs, pick), flight := Taken(f.reqs, pick), io := IoWriter)
    case WriteOne => f.(raw := FlatWrite(f.raw, f.flight[0].offset, f.flight[0].data), flight := f.flight[1..])
    case WriterDone => f.(io := IoFree)
    case Flush(pick) =>
      var (l, raw) := FlushFrom(cs, f.reqs, 0, f.raw, f.writeIp, pick);
      f.(reqs := l, raw := raw)
    case TruncateBegin(len) => f.(reqs := TrimTo(f.reqs, len), size := len, ios := IosTruncate(len))
    case TruncateEnd => f.(raw := Resize(f.raw, f.ios.len), ios := IosFree)
    case SetIp => f.(writeIp := true)
    case UnsetIp => f.(writeIp := false, reqs := DropIp(f.reqs))
    case IndexQueue => f.(reqs := DropIp(f.reqs))
    case ReadScan(id, off, count) =>
      var p := Pending(off, count, PlanFor(f.reqs, off, count), FlatRead(Content(f), off, count));
      if AllCached(p) then f.(replies := f.replies + [Reply(Result(p, []), p.snap)])
      else f.(readers := f.readers[id := p], ios := IosRead(id))
    case ReadLock(id) => f.(ios := IosFree, io := IoRead(id))
    case ReadTape(id) =>
      if id in f.readers && |f.readers[id].plan| <= f.readers[id].count then
        f.(io := IoFree, readers := f.readers - {id},
           replies := f.replies + [Reply(Result(f.readers[id], f.raw), f.readers[id].snap)])
      else f
  }

  // ----- the same actions on a flat file

  datatype Edit = NoEdit | Overwrite(off: nat, bytes: seq<byte>) | SetLength(len: nat)

  function Effect(cs: nat, f: File, a: Action): Edit
    requires 0 < cs && WellFormed(f.reqs, cs) && Enabled(cs, f, a)
  {
    match a
    case Write(off, buf, _, _) => Overwrite(off, buf[..Min(Consumed(cs, f, a), |buf|)])
    case TruncateBegin(len) => SetLength(len)
    case _ => NoEdit
  }

  function Apply(s: seq<byte>, e: Edit): seq<byte> {
    match e
    case NoEdit => s
    case Overwrite(off, bytes) => if bytes == [] then s else FlatWrite(s, off, bytes)
    case SetLength(len) => Resize(s, len)
  }
}
