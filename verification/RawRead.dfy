/** `ltfs_fsraw_read`: positioning, the one-block cache, holes and the sparse end of a file. */
module RawRead {
  import opened Bytes
  import opened Extents
  import opened RawTape

  datatype Pos = Pos(part: nat, block: nat)

  /** vol->last_pos, vol->last_block and vol->last_size. */
  datatype Last = NoBlock | LastBlock(pos: Pos, data: seq<byte>)

  datatype Device = Device(tape: Tape, head: Pos, last: Last)

  predicate HasBlock(t: Tape, p: Pos) { p.part in t && p.block < |t[p.part]| }

  /** The cached block is what is on tape at its position. */
  predicate CacheOk(v: Device) {
    v.last.LastBlock? ==> HasBlock(v.tape, v.last.pos) && v.last.data == v.tape[v.last.pos.part][v.last.pos.block]
  }

  /** The head stands just behind the wanted block, and that is the cached one. */
  predicate Reuse(v: Device, cur: Pos, seek: Pos) {
    v.last.LastBlock? && v.last.pos == seek && cur == Pos(seek.part, seek.block + 1)
  }

  /** The file offset at which the k-th block of an extent starts; before the extent itself for the
      first block of an extent that starts in the middle of a block. */
  function First(bs: nat, e: Extent, k: nat): int { e.fileoffset - e.byteoffset + k * bs }

  lemma FirstNext(bs: nat, e: Extent, k: nat)
    ensures First(bs, e, k + 1) == First(bs, e, k) + bs
  {
    assert (k + 1) * bs == k * bs + bs;
  }

  /** Which byte of which block: x lies in the k-th block of the extent. */
  lemma WhereInBlock(bs: nat, e: Extent, k: nat, x: nat)
    requires 0 < bs && e.fileoffset <= x && First(bs, e, k) <= x < First(bs, e, k) + bs
    ensures Where(bs, e, x) == Phys(e.part, e.block + k, x - First(bs, e, k))
  {
    DivUnique(e.byteoffset + (x - e.fileoffset), bs, k, x - First(bs, e, k));
  }

  /** The block of the extent that holds offset next. */
  function BlockOf(bs: nat, e: Extent, next: nat): (k: nat)
    requires 0 < bs && e.fileoffset <= next
    ensures First(bs, e, k) <= next < First(bs, e, k) + bs
  {
    var m := next - e.fileoffset + e.byteoffset;
    assert m == (m / bs) * bs + m % bs;
    m / bs
  }

  function BlockAt(t: Tape, p: Pos): seq<byte>
    requires HasBlock(t, p)
  {
    t[p.part][p.block]
  }

  function Behind(p: Pos): Pos { Pos(p.part, p.block + 1) }

  /** Two blocks agree as far as both go. */
  predicate Agree(a: seq<byte>, b: seq<byte>) { forall i :: 0 <= i < |a| && i < |b| ==> a[i] == b[i] }

  /** tape_read puts a block into vol->last_block before its length is known. If it is too short, last_pos and
      last_size are not updated: the start of the old block is gone, under the old position. */
  function Overwritten(last: Last, blk: seq<byte>): Last {
    match last
    case NoBlock => NoBlock
    case LastBlock(pos, data) => LastBlock(pos, if |blk| >= |data| then blk[..|data|] else blk + data[|blk|..])
  }

  /** Reading one block: from the cache, or from tape, and then the head stands on it. */
  function Fetched(v: Device, cur: Pos, seek: Pos, want: nat): (Device, bool) {
    if Reuse(v, cur, seek) then (v, want <= |v.last.data|)
    else if !HasBlock(v.tape, seek) then (v, false)
    else
      var blk := BlockAt(v.tape, seek);
      if |blk| < want then (v.(head := Behind(seek), last := Overwritten(v.last, blk)), false)
      else (v.(head := Behind(seek), last := LastBlock(seek, blk)), true)
  }

  method FetchBlock(v: Device, cur: Pos, seek: Pos, want: nat) returns (w: Device, cur1: Pos, ok: bool)
    requires v.head == if Reuse(v, cur, seek) then cur else seek
    ensures (w, ok) == Fetched(v, cur, seek, want)
    ensures cur1 == if ok && !Reuse(v, cur, seek) then Behind(cur) else cur
  {
    if v.last.LastBlock? && v.last.pos == seek && cur == Behind(seek) {
      ok := want <= |v.last.data|;
      return v, cur, ok;
    }
    w, ok := TapeRead(v);
    if !ok { return w, cur, false; }
    var blk := BlockAt(v.tape, v.head);
    if |blk| < want { return w, cur, false; }
    w := w.(last := LastBlock(seek, blk));
    cur1 := Behind(cur);
  }

  /** The block under the head goes into vol->last_block; behind the last block there is nothing to read. */
  method TapeRead(v: Device) returns (w: Device, ok: bool)
    ensures ok == HasBlock(v.tape, v.head)
    ensures ok ==> w == v.(head := Behind(v.head), last := Overwritten(v.last, BlockAt(v.tape, v.head)))
    ensures !ok ==> w == v
  {
    ok := HasBlock(v.tape, v.head);
    w := v;
    if ok { w := v.(head := Behind(v.head), last := Overwritten(v.last, BlockAt(v.tape, v.head))); }
  }

  /** The block is too short for what is wanted, and another block was cached. */
  predicate Poisons(v: Device, cur: Pos, seek: Pos) {
    !Reuse(v, cur, seek) && HasBlock(v.tape, seek) && v.last.LastBlock? && !Agree(BlockAt(v.tape, seek), v.last.data)
  }

  /** With a good cache, a fetch succeeds exactly if the block is on tape and long enough, and then the bytes in
      hand are that block. The cache stays good exactly if the fetch succeeds, or nothing was read, or nothing
      was cached that differs from what was read. */
  lemma FetchExact(v: Device, cur: Pos, seek: Pos, want: nat)
    requires CacheOk(v) && v.head == if Reuse(v, cur, seek) then cur else seek
    ensures var (w, ok) := Fetched(v, cur, seek, want);
            && w.tape == v.tape
            && (ok <==> HasBlock(v.tape, seek) && want <= |BlockAt(v.tape, seek)|)
            && (ok ==> w.last == LastBlock(seek, BlockAt(v.tape, seek)) && w.head == Behind(seek))
            && (CacheOk(w) <==> ok || !Poisons(v, cur, seek))
  {
    if !Reuse(v, cur, seek) && HasBlock(v.tape, seek) && v.last.LastBlock? {
      OverwrittenSame(v.last, BlockAt(v.tape, seek));
    }
  }

  lemma OverwrittenSame(last: Last, blk: seq<byte>)
    requires last.LastBlock?
    ensures Overwritten(last, blk) == last <==> Agree(blk, last.data)
  {
    var was, now := last.data, Overwritten(last, blk).data;
    assert |now| == |was|;
    if Agree(blk, was) {
      assert forall i :: 0 <= i < |was| ==> now[i] == was[i];
      assert now == was;
    } else {
      var i :| 0 <= i < |blk| && i < |was| && blk[i] != was[i];
      assert now[i] == blk[i];
    }
  }

  /** Once that has happened, the next read that finds the head just behind the old block takes the foreign bytes
      for it, and reports success. */
  lemma PoisonedHit(v: Device, cur: Pos, seek: Pos, want: nat, want1: nat)
    requires CacheOk(v) && v.head == seek && Poisons(v, cur, seek) && |BlockAt(v.tape, seek)| < want
    requires want1 <= |v.last.data|
    ensures var w := Fetched(v, cur, seek, want).0.(head := Behind(v.last.pos));
            var (x, ok) := Fetched(w, w.head, v.last.pos, want1);
            ok && x.last.LastBlock? && x.last.pos == v.last.pos && x.last.data != BlockAt(v.tape, v.last.pos)
  {
    OverwrittenSame(v.last, BlockAt(v.tape, seek));
  }

  /** The first block of a read: the head is moved unless it is there or the cached block can be reused. curpos is where
      the head was before. */
  function Access(v: Device, seek: Pos, want: nat): (Device, bool) {
    var u := if v.head != seek && !Reuse(v, v.head, seek) then v.(head := seek) else v;
    Fetched(u, v.head, seek, want)
  }

  /** Four reads from a tape with a short and a longer block: the longer one; the short one, of which more is wanted
      than it has; a block that is not there; and the longer one again, which is now wrong. */
  lemma PoisonedRun()
    ensures var v := Device(map[0 := [[1], [7, 8]]], Pos(0, 0), NoBlock);
            var (v1, ok1) := Access(v, Pos(0, 1), 2);
            var (v2, ok2) := Access(v1, Pos(0, 0), 2);
            var (v3, ok3) := Access(v2, Pos(0, 2), 1);
            var (v4, ok4) := Access(v3, Pos(0, 1), 2);
            && CacheOk(v) && CacheOk(v1) && !CacheOk(v2)
            && ok1 && v1.last == LastBlock(Pos(0, 1), [7, 8]) && !ok2 && !ok3
            && ok4 && v4.last == LastBlock(Pos(0, 1), [1, 8])
  {
    var v := Device(map[0 := [[1], [7, 8]]], Pos(0, 0), NoBlock);
    var v1 := Access(v, Pos(0, 1), 2).0;
    assert v1 == v.(head := Pos(0, 2), last := LastBlock(Pos(0, 1), [7, 8]));
    assert Overwritten(v1.last, [1]) == LastBlock(Pos(0, 1), [1, 8]);
    var v2 := Access(v1, Pos(0, 0), 2).0;
    assert v2 == v.(head := Pos(0, 1), last := LastBlock(Pos(0, 1), [1, 8]));
    assert Access(v2, Pos(0, 2), 1) == (v2.(head := Pos(0, 2)), false);
    assert [1, 8][0] != [7, 8][0];
  }

  ghost predicate GotAt(bs: nat, t: Tape, e: Extent, x: nat, b: byte)
    requires 0 < bs && e.fileoffset <= x
  {
    var p := Where(bs, e, x); OnTape(t, p) && b == t[p.part][p.block][p.byte]
  }

  /** The bytes read so far are those the extent points to. */
  ghost predicate Got(bs: nat, t: Tape, e: Extent, start: nat, out: seq<byte>)
    requires 0 < bs && e.fileoffset <= start
  {
    forall k: nat :: k < |out| ==> GotAt(bs, t, e, start + k, out[k])
  }

  ghost predicate ExtentBacked(bs: nat, t: Tape, e: Extent)
    requires 0 < bs
  {
    forall x: nat :: e.Covers(x) ==> OnTape(t, Where(bs, e, x))
  }

  lemma GotMore(bs: nat, t: Tape, e: Extent, start: nat, out: seq<byte>, k: nat, stop: nat)
    requires 0 < bs && e.fileoffset <= start && Got(bs, t, e, start, out)
    requires First(bs, e, k) <= start + |out| <= stop <= First(bs, e, k) + bs
    requires HasBlock(t, Pos(e.part, e.block + k)) && stop - First(bs, e, k) <= |t[e.part][e.block + k]|
    ensures var first := First(bs, e, k);
            Got(bs, t, e, start, out + t[e.part][e.block + k][start + |out| - first..stop - first])
  {
    hide First;
    var first := First(bs, e, k);
    var more := out + t[e.part][e.block + k][start + |out| - first..stop - first];
    forall j: nat | j < |more| ensures GotAt(bs, t, e, start + j, more[j]) {
      if j < |out| {
        assert more[j] == out[j] && GotAt(bs, t, e, start + j, out[j]);
      } else {
        WhereInBlock(bs, e, k, start + j);
      }
    }
  }

  lemma BlockThere(bs: nat, t: Tape, e: Extent, k: nat, next: nat, last: nat)
    requires 0 < bs && ExtentBacked(bs, t, e) && e.fileoffset <= next < last <= e.End()
    requires First(bs, e, k) <= next && last <= First(bs, e, k) + bs
    ensures HasBlock(t, Pos(e.part, e.block + k)) && last - First(bs, e, k) <= |t[e.part][e.block + k]|
  {
    hide First;
    WhereInBlock(bs, e, k, last - 1);
    assert e.Covers(last - 1);
  }

  /** One turn of the inner loop. */
  method ReadBlock(bs: nat, v: Device, cur: Pos, e: Extent, k: nat, start: nat, out: seq<byte>, lastOff: nat)
    returns (w: Device, cur1: Pos, more: seq<byte>, ok: bool)
    requires 0 < bs && CacheOk(v)
    requires v.head == if Reuse(v, cur, Pos(e.part, e.block + k)) then cur else Pos(e.part, e.block + k)
    requires e.fileoffset <= start && start + |out| < e.End() && start + |out| < lastOff &&
             Got(bs, v.tape, e, start, out)
    requires First(bs, e, k) <= start + |out| < First(bs, e, k) + bs
    ensures (ok ==> CacheOk(w)) && w.tape == v.tape
    ensures ExtentBacked(bs, v.tape, e) ==> ok
    ensures ok ==> w.head == Pos(e.part, e.block + k + 1) && w.last.LastBlock? && w.last.pos == Pos(e.part, e.block + k)
    ensures ok ==> start + |more| == Min(Min(First(bs, e, k) + bs, e.End()), lastOff) && Got(bs, v.tape, e, start, more)
  {
    hide First, Got, ExtentBacked, CacheOk;
    var first, next := First(bs, e, k), start + |out|;
    var last := first + bs;
    if e.End() < last { last := e.End(); }
    if ExtentBacked(bs, v.tape, e) { BlockThere(bs, v.tape, e, k, next, last); }
    FetchExact(v, cur, Pos(e.part, e.block + k), last - first);
    w, cur1, ok := FetchBlock(v, cur, Pos(e.part, e.block + k), last - first);
    more := out;
    if ok {
      var stop := Min(last, lastOff);
      GotMore(bs, v.tape, e, start, out, k, stop);
      more := out + w.last.data[next - first..stop - first];
    }
  }

  /** The inner loop: blocks of one extent until its end or a full buffer. */
  method ReadExtent(bs: nat, v: Device, e: Extent, start: nat, lastOff: nat)
    returns (w: Device, out: seq<byte>, ok: bool)
    requires 0 < bs && CacheOk(v) && e.fileoffset <= start < e.End() && start <= lastOff
    ensures (ok ==> CacheOk(w)) && w.tape == v.tape
    ensures ok ==> |out| == Min(e.End(), lastOff) - start && Got(bs, v.tape, e, start, out)
    ensures ExtentBacked(bs, v.tape, e) ==> ok
  {
    GotNone(bs, v.tape, e, start);
    hide First, Got, ExtentBacked, CacheOk, BlockOf;
    var cur := v.head;
    var k: nat := BlockOf(bs, e, start);
    w := v;
    if cur != Pos(e.part, e.block + k) && !Reuse(v, cur, Pos(e.part, e.block + k)) {
      w := Seek(v, Pos(e.part, e.block + k));
    }
    out := [];
    while e.End() > start + |out| && start + |out| < lastOff
      invariant CacheOk(w) && w.tape == v.tape && start + |out| <= Min(e.End(), lastOff)
      invariant Got(bs, v.tape, e, start, out)
      invariant e.End() > start + |out| && start + |out| < lastOff ==>
                  First(bs, e, k) <= start + |out| < First(bs, e, k) + bs &&
                  w.head == if Reuse(w, cur, Pos(e.part, e.block + k)) then cur else Pos(e.part, e.block + k)
      decreases lastOff - |out|
    {
      FirstNext(bs, e, k);
      w, cur, out, ok := ReadBlock(bs, w, cur, e, k, start, out, lastOff);
      if !ok { return; }
      k := k + 1;
    }
    ok := true;
  }

  method Seek(v: Device, p: Pos) returns (w: Device)
    requires CacheOk(v)
    ensures w == v.(head := p) && CacheOk(w)
  {
    w := v.(head := p);
  }

  lemma GotNone(bs: nat, t: Tape, e: Extent, start: nat)
    requires 0 < bs && e.fileoffset <= start
    ensures Got(bs, t, e, start, [])
  {
  }

  // ----- the whole read

  /** The buffer so far holds the file from off on. */
  ghost predicate Reads(bs: nat, t: Tape, d: Dentry, off: nat, out: seq<byte>)
    requires 0 < bs
  {
    forall k: nat :: k < |out| ==> out[k] == ViewAt(bs, t, d, off + k)
  }

  /** Nothing is mapped between two entries, before the first or behind the last. */
  lemma GapIsZero(bs: nat, t: Tape, d: Dentry, off: nat, out: seq<byte>, i: nat, n: nat)
    requires 0 < bs && Ok(d) && Reads(bs, t, d, off, out) && i <= |d.extents|
    requires 0 < i ==> d.extents[i - 1].End() <= off + |out|
    requires i < |d.extents| ==> off + |out| + n <= d.extents[i].fileoffset
    ensures Reads(bs, t, d, off, out + Zeros(n))
  {
    var more := out + Zeros(n);
    forall k: nat | k < |more| ensures more[k] == ViewAt(bs, t, d, off + k) {
      if |out| <= k {
        forall j | 0 <= j < |d.extents| ensures !d.extents[j].Covers(off + k) {
          assert j < i - 1 ==> d.extents[j].End() <= d.extents[i - 1].fileoffset;
          assert i < j ==> d.extents[i].End() <= d.extents[j].fileoffset;
        }
        MapNone(bs, d.extents, off + k);
      } else {
        assert more[k] == out[k];
      }
    }
  }

  lemma ExtentIsRead(bs: nat, t: Tape, d: Dentry, off: nat, out: seq<byte>, i: nat, piece: seq<byte>)
    requires 0 < bs && Ok(d) && Reads(bs, t, d, off, out) && i < |d.extents|
    requires d.extents[i].fileoffset <= off + |out| && off + |out| + |piece| <= d.extents[i].End()
    requires Got(bs, t, d.extents[i], off + |out|, piece)
    ensures Reads(bs, t, d, off, out + piece)
  {
    var more, e := out + piece, d.extents[i];
    forall k: nat | k < |more| ensures more[k] == ViewAt(bs, t, d, off + k) {
      if |out| <= k {
        var j: nat := k - |out|;
        assert GotAt(bs, t, e, off + |out| + j, piece[j]);
        MapSome(bs, d.extents, i, off + k);
      } else {
        assert more[k] == out[k];
      }
    }
  }

  lemma BackedExtent(bs: nat, t: Tape, d: Dentry, i: nat)
    requires 0 < bs && Ok(d) && Backed(bs, t, d.extents) && i < |d.extents|
    ensures ExtentBacked(bs, t, d.extents[i])
  {
    forall x: nat | d.extents[i].Covers(x) ensures OnTape(t, Where(bs, d.extents[i], x)) {
      MapSome(bs, d.extents, i, x);
      assert MapAt(bs, d.extents, x).Phys?;
    }
  }

  lemma ReadIsFlat(bs: nat, t: Tape, d: Dentry, off: nat, count: nat, out: seq<byte>)
    requires 0 < bs && Reads(bs, t, d, off, out)
    requires |out| == if off < d.size then Min(off + count, d.size) - off else 0
    ensures out == FlatRead(Contents(bs, t, d), off, count)
  {
    var f := FlatRead(Contents(bs, t, d), off, count);
    forall k | 0 <= k < |out| ensures out[k] == f[k] { assert out[k] == ViewAt(bs, t, d, off + k); }
  }

  /** One turn of the outer loop: a hole in front of extent i is filled with zeros, then the extent is
      read. */
  method ReadThrough(bs: nat, v: Device, d: Dentry, off: nat, lastOff: nat, i: nat, out: seq<byte>)
    returns (w: Device, more: seq<byte>, ok: bool)
    requires 0 < bs && CacheOk(v) && Ok(d) && i < |d.extents| && off + |out| < lastOff && Reads(bs, v.tape, d, off, out)
    requires 0 < i ==> d.extents[i - 1].End() <= off + |out|
    ensures (ok ==> CacheOk(w)) && w.tape == v.tape
    ensures ok ==> |out| <= |more| && off + |more| == Max(off + |out|, Min(d.extents[i].End(), lastOff))
    ensures ok ==> Reads(bs, v.tape, d, off, more)
    ensures Backed(bs, v.tape, d.extents) ==> ok
  {
    hide CacheOk, Reads, Ok, Backed;
    var e := d.extents[i];
    w, more := v, out;
    if off + |out| < e.fileoffset {
      if e.fileoffset > lastOff {
        GapIsZero(bs, v.tape, d, off, out, i, lastOff - off - |out|);
        more := out + Zeros(lastOff - off - |out|);
        return w, more, true;
      }
      GapIsZero(bs, v.tape, d, off, out, i, e.fileoffset - off - |out|);
      more := out + Zeros(e.fileoffset - off - |out|);
    }
    if e.End() > off + |more| {
      if Backed(bs, v.tape, d.extents) { BackedExtent(bs, v.tape, d, i); }
      hide Got, ExtentBacked;
      var piece;
      w, piece, ok := ReadExtent(bs, v, e, off + |more|, lastOff);
      if ok {
        ExtentIsRead(bs, v.tape, d, off, more, i, piece);
        more := more + piece;
      }
    } else {
      ok := true;
    }
  }

  /** `ltfs_fsraw_read`: whatever it returns is what the flat file holds there, and it succeeds if every
      mapped byte is on tape. */
  method Read(bs: nat, v: Device, d: Dentry, off: nat, count: nat) returns (w: Device, out: seq<byte>, ok: bool)
    requires 0 < bs && CacheOk(v) && Ok(d)
    ensures (ok ==> CacheOk(w)) && w.tape == v.tape
    ensures ok ==> out == FlatRead(Contents(bs, v.tape, d), off, count)
    ensures Backed(bs, v.tape, d.extents) ==> ok
  {
    hide CacheOk, Backed, Sorted;
    w, out, ok := v, [], true;
    var l, lastOff := d.extents, off + count;
    var i := 0;
    while i < |l| && |out| < count
      invariant 0 <= i <= |l| && CacheOk(w) && w.tape == v.tape && |out| <= count && Reads(bs, v.tape, d, off, out)
      invariant |out| < count && 0 < i ==> l[i - 1].End() <= off + |out|
      invariant out == [] || off + |out| <= d.size
      decreases |l| - i
    {
      w, out, ok := ReadThrough(bs, w, d, off, lastOff, i, out);
      if !ok { return; }
      i := i + 1;
    }
    if |out| < count && off + |out| < d.size {
      var n := Min(lastOff, d.size) - off - |out|;
      GapIsZero(bs, v.tape, d, off, out, i, n);
      out := out + Zeros(n);
    }
    ReadIsFlat(bs, v.tape, d, off, count, out);
    ok := true;
  }
}
