/**
 The tape below the extent lists: blocks are only ever appended, `_ltfs_fsraw_write_data_unlocked`
 cuts a buffer into blocks, and `ltfs_fsraw_read` puts a file together again with the help of a
 one-block cache.
 */
module RawTape {
  import opened Bytes
  import opened Extents

  /** The blocks of each partition. */
  type Tape = map<nat, seq<seq<byte>>>

  predicate OnTape(t: Tape, p: Phys) {
    p.Phys? && p.part in t && p.block < |t[p.part]| && p.byte < |t[p.part][p.block]|
  }

  /** A byte of the file: what the tape holds where the extent list points to, zero in a hole. */
  function ViewAt(bs: nat, t: Tape, d: Dentry, x: nat): byte
    requires 0 < bs
  {
    var p := MapAt(bs, d.extents, x);
    if OnTape(t, p) then t[p.part][p.block][p.byte] else 0
  }

  function Contents(bs: nat, t: Tape, d: Dentry): (s: seq<byte>)
    requires 0 < bs
    ensures |s| == d.size && forall x :: 0 <= x < d.size ==> s[x] == ViewAt(bs, t, d, x)
  {
    seq(d.size, x requires 0 <= x < d.size => ViewAt(bs, t, d, x))
  }

  /** Every mapped byte is on tape. */
  ghost predicate Backed(bs: nat, t: Tape, l: seq<Extent>)
    requires 0 < bs
  {
    forall x: nat :: MapAt(bs, l, x).Phys? ==> OnTape(t, MapAt(bs, l, x))
  }

  /** Blocks have only been appended. */
  ghost predicate Extends(t: Tape, u: Tape) { forall p :: p in t ==> p in u && t[p] <= u[p] }

  /** Appending blocks changes no file. */
  lemma ExtendsKeeps(bs: nat, t: Tape, u: Tape, d: Dentry)
    requires 0 < bs && Extends(t, u) && Backed(bs, t, d.extents)
    ensures Backed(bs, u, d.extents) && Contents(bs, u, d) == Contents(bs, t, d)
  {
    forall x: nat
      ensures MapAt(bs, d.extents, x).Phys? ==> OnTape(u, MapAt(bs, d.extents, x))
      ensures ViewAt(bs, u, d, x) == ViewAt(bs, t, d, x)
    {
      var p := MapAt(bs, d.extents, x);
      if p.Phys? { assert OnTape(t, p) && t[p.part] <= u[p.part]; }
    }
  }

  // ----- writing blocks

  /** A buffer cut into blocks, the last of which may be short. */
  function Blocks(bs: nat, buf: seq<byte>): seq<seq<byte>>
    requires 0 < bs
  {
    if buf == [] then [] else var n := Min(bs, |buf|); [buf[..n]] + Blocks(bs, buf[n..])
  }

  /** Byte k of the buffer is byte k % bs of block k / bs. */
  lemma {:induction false} BlocksAt(bs: nat, buf: seq<byte>, q: nat, r: nat, k: nat)
    requires r < bs && k == q * bs + r < |buf|
    ensures var b := Blocks(bs, buf); q < |b| && r < |b[q]| && b[q][r] == buf[k]
    decreases q
  {
    if q > 0 {
      AtLeast(q, bs);
      assert (q - 1) * bs == q * bs - bs;
      BlocksAt(bs, buf[bs..], q - 1, r, k - bs);
    }
  }

  function Times<T>(s: seq<T>, n: nat): seq<T> { if n == 0 then [] else s + Times(s, n - 1) }

  lemma {:induction false} BlocksConcat(bs: nat, a: seq<byte>, b: seq<byte>)
    requires 0 < bs && |a| % bs == 0
    ensures Blocks(bs, a + b) == Blocks(bs, a) + Blocks(bs, b)
    decreases |a|
  {
    if a == [] {
      assert a + b == b;
    } else {
      if |a| < bs { DivUnique(|a|, bs, 0, |a|); }
      DivAdd(bs, 1, |a| - bs);
      assert (a + b)[..bs] == a[..bs] && (a + b)[bs..] == a[bs..] + b;
      BlocksConcat(bs, a[bs..], b);
    }
  }

  /** Writing a buffer of whole blocks several times is writing the repeated buffer. */
  lemma {:induction false} BlocksTimes(bs: nat, buf: seq<byte>, n: nat)
    requires 0 < bs && |buf| % bs == 0
    ensures Blocks(bs, Times(buf, n)) == Times(Blocks(bs, buf), n)
    decreases n
  {
    if n > 0 {
      BlocksConcat(bs, buf, Times(buf, n - 1));
      BlocksTimes(bs, buf, n - 1);
    }
  }

  lemma {:induction false} TimesMore<T>(s: seq<T>, n: nat)
    ensures Times(s, n + 1) == Times(s, n) + s
    decreases n
  {
    if n > 0 {
      TimesMore(s, n - 1);
      assert s + (Times(s, n - 1) + s) == (s + Times(s, n - 1)) + s;
    }
  }

  datatype Error = BadPartition | BadArg | NoMemory | SmallBlock | ReadFailed

  datatype Written = Written(tape: Tape, start: nat) | WriteFailed(error: Error)

  /** One pass over the buffer, block by block. */
  method WriteBlocks(bs: nat, blocks: seq<seq<byte>>, buf: seq<byte>) returns (r: seq<seq<byte>>)
    requires 0 < bs
    ensures r == blocks + Blocks(bs, buf)
  {
    r := blocks;
    var n := 0;
    assert buf[0..] == buf;
    while n < |buf|
      invariant 0 <= n <= |buf| && r + Blocks(bs, buf[n..]) == blocks + Blocks(bs, buf)
    {
      var w := if |buf| - n > bs then bs else |buf| - n;
      assert buf[n..][..w] == buf[n..n + w] && buf[n..][w..] == buf[n + w..];
      assert r + ([buf[n..n + w]] + Blocks(bs, buf[n + w..])) == r + [buf[n..n + w]] + Blocks(bs, buf[n + w..]);
      r := r + [buf[n..n + w]];
      n := n + w;
    }
  }

  /** `_ltfs_fsraw_write_data_unlocked` */
  method WriteData(bs: nat, t: Tape, dp: nat, ip: nat, part: nat, buf: seq<byte>, repetitions: nat) returns (r: Written)
    requires 0 < bs && dp in t && ip in t
    ensures r == if part != dp && part != ip then WriteFailed(BadPartition)
                 else if buf == [] || repetitions == 0 then Written(t, 0)
                 else if repetitions > 1 && |buf| % bs != 0 then WriteFailed(BadArg)
                 else Written(t[part := t[part] + Blocks(bs, Times(buf, repetitions))], |t[part]|)
  {
    if part != dp && part != ip { return WriteFailed(BadPartition); }
    if buf == [] || repetitions == 0 { return Written(t, 0); }
    if repetitions > 1 && |buf| % bs != 0 { return WriteFailed(BadArg); }
    var start := |t[part]|;
    var blocks := t[part];
    assert blocks + [] == blocks;
    for rep := 0 to repetitions
      invariant blocks == t[part] + Times(Blocks(bs, buf), rep)
    {
      TimesMore(Blocks(bs, buf), rep);
      assert t[part] + (Times(Blocks(bs, buf), rep) + Blocks(bs, buf)) ==
             (t[part] + Times(Blocks(bs, buf), rep)) + Blocks(bs, buf);
      blocks := WriteBlocks(bs, blocks, buf);
    }
    if repetitions == 1 {
      assert Times(buf, 1) == buf + [] == buf;
      assert Times(Blocks(bs, buf), 1) == Blocks(bs, buf) + [] == Blocks(bs, buf);
    } else {
      BlocksTimes(bs, buf, repetitions);
    }
    r := Written(t[part := blocks], start);
  }

  // ----- `ltfs_fsraw_write`

  lemma NewBytes(bs: nat, t: Tape, u: Tape, part: nat, off: nat, buf: seq<byte>, x: nat)
    requires 0 < bs && part in t && u == t[part := t[part] + Blocks(bs, buf)] && off <= x < off + |buf|
    ensures var p := Where(bs, Extent(part, |t[part]|, 0, |buf|, off), x);
            OnTape(u, p) && u[p.part][p.block][p.byte] == buf[x - off]
  {
    hide Blocks;
    var b, q, r := Blocks(bs, buf), (x - off) / bs, (x - off) % bs;
    BlocksAt(bs, buf, q, r, x - off);
    Appended(t[part], b, q);
    assert Where(bs, Extent(part, |t[part]|, 0, |buf|, off), x) == Phys(part, |t[part]| + q, r);
  }

  lemma Appended(was: seq<seq<byte>>, b: seq<seq<byte>>, q: nat)
    requires q < |b|
    ensures (was + b)[|was| + q] == b[q]
  {
  }

  /** The tape has the bytes of buf where the extent says. */
  ghost predicate Carries(bs: nat, u: Tape, ext: Extent, buf: seq<byte>)
    requires 0 < bs && ext.bytecount == |buf|
  {
    forall x: nat :: ext.Covers(x) ==>
      var p := Where(bs, ext, x); OnTape(u, p) && u[p.part][p.block][p.byte] == buf[x - ext.fileoffset]
  }

  lemma AppendCarries(bs: nat, t: Tape, u: Tape, part: nat, off: nat, buf: seq<byte>)
    requires 0 < bs && part in t && u == t[part := t[part] + Blocks(bs, buf)]
    ensures Carries(bs, u, Extent(part, |t[part]|, 0, |buf|, off), buf)
  {
    var ext := Extent(part, |t[part]|, 0, |buf|, off);
    forall x: nat | ext.Covers(x)
      ensures var p := Where(bs, ext, x); OnTape(u, p) && u[p.part][p.block][p.byte] == buf[x - off]
    {
      NewBytes(bs, t, u, part, off, buf, x);
    }
  }

  lemma CarriesNone(bs: nat, u: Tape, ext: Extent)
    requires 0 < bs && ext.bytecount == 0
    ensures Carries(bs, u, ext, [])
  {
  }

  lemma AddedContents(bs: nat, t: Tape, u: Tape, d: Dentry, ext: Extent, buf: seq<byte>, r: Dentry)
    requires 0 < bs && Backed(bs, t, d.extents) && Extends(t, u) && Ok(d) && Added(bs, d, ext, r) &&
             ext.bytecount == |buf|
    requires Carries(bs, u, ext, buf)
    ensures Backed(bs, u, r.extents) && Contents(bs, u, r) == FlatWrite(Contents(bs, t, d), ext.fileoffset, buf)
  {
    ExtendsKeeps(bs, t, u, d);
    var f, g := FlatWrite(Contents(bs, t, d), ext.fileoffset, buf), Contents(bs, u, r);
    forall x: nat
      ensures MapAt(bs, r.extents, x).Phys? ==> OnTape(u, MapAt(bs, r.extents, x))
      ensures x < r.size ==> g[x] == f[x]
    {
      assert MapAt(bs, r.extents, x) == if ext.Covers(x) then Where(bs, ext, x) else MapAt(bs, d.extents, x);
      if x < d.size { assert Contents(bs, u, d)[x] == Contents(bs, t, d)[x]; } else { PastEnd(bs, d, x); }
    }
  }

  lemma PastEnd(bs: nat, d: Dentry, x: nat)
    requires 0 < bs && Ok(d) && d.size <= x
    ensures MapAt(bs, d.extents, x) == Unmapped
  {
    forall i | 0 <= i < |d.extents| ensures !d.extents[i].Covers(x) { assert d.extents[i].End() <= d.size; }
    MapNone(bs, d.extents, x);
  }

  /** Where the bytes of a file are after n bytes were written at off: the new ones on the partition asked for, behind
      all blocks that were there; all others where they were. */
  ghost predicate Laid(bs: nat, t: Tape, l: seq<Extent>, part: nat, off: nat, n: nat, r: seq<Extent>)
    requires 0 < bs && part in t
  {
    forall x: nat :: LaidAt(bs, t, l, part, off, n, r, x)
  }

  predicate LaidAt(bs: nat, t: Tape, l: seq<Extent>, part: nat, off: nat, n: nat, r: seq<Extent>, x: nat)
    requires 0 < bs && part in t
  {
    var p := MapAt(bs, r, x);
    if off <= x < off + n then p.Phys? && p.part == part && p.block >= |t[part]| else p == MapAt(bs, l, x)
  }

  lemma AddedLaid(bs: nat, t: Tape, d: Dentry, ext: Extent, r: Dentry)
    requires 0 < bs && ext.part in t && Added(bs, d, ext, r) && (0 < ext.bytecount ==> ext.block == |t[ext.part]|)
    ensures Laid(bs, t, d.extents, ext.part, ext.fileoffset, ext.bytecount, r.extents)
  {
    forall x: nat ensures LaidAt(bs, t, d.extents, ext.part, ext.fileoffset, ext.bytecount, r.extents, x) {
      assert MapAt(bs, r.extents, x) == if ext.Covers(x) then Where(bs, ext, x) else MapAt(bs, d.extents, x);
    }
  }

  lemma AddedOk(bs: nat, d: Dentry, ext: Extent, r: Dentry)
    requires 0 < bs && Added(bs, d, ext, r) && (ext.bytecount == 0 ==> ext.block == 0)
    ensures Ok(r) && (NonEmpty(d.extents) ==> (NonEmpty(r.extents) <==> 0 < ext.bytecount))
  {
  }

  datatype Outcome = Done(tape: Tape, d: Dentry) | Failed(tape: Tape, error: Error)

  lemma NoBlocks(bs: nat, t: Tape, part: nat)
    requires 0 < bs && part in t
    ensures t[part := t[part] + Blocks(bs, [])] == t
  {
    assert t[part] + [] == t[part];
  }

  /** `ltfs_fsraw_write`: the data goes to the end of the partition, then the extent list is told. */
  method Write(bs: nat, t: Tape, dp: nat, ip: nat, d: Dentry, part: nat, off: nat, buf: seq<byte>, canSplit: bool)
    returns (r: Outcome)
    requires 0 < bs && dp in t && ip in t && Ok(d) && Backed(bs, t, d.extents)
    ensures Extends(t, r.tape) && r.tape.Keys == t.Keys
    ensures r.tape == if part == dp || part == ip then t[part := t[part] + Blocks(bs, buf)] else t
    ensures r.Failed? <==> (part != dp && part != ip) ||
                           (!canSplit && exists i ::
                              0 <= i < |d.extents| && d.extents[i].fileoffset < off && off + |buf| < d.extents[i].End())
    ensures r.Done? ==> part in t && Laid(bs, t, d.extents, part, off, |buf|, r.d.extents)
    ensures r.Done? ==> Ok(r.d) && Backed(bs, r.tape, r.d.extents)
    ensures r.Done? ==> Contents(bs, r.tape, r.d) == FlatWrite(Contents(bs, t, d), off, buf)
    ensures r.Done? && NonEmpty(d.extents) ==> (NonEmpty(r.d.extents) <==> buf != [])
  {
    hide Blocks, Backed, Ok, Added, NonEmpty, Where, OnTape, Laid, Carries, Contents, FlatWrite;
    var w := WriteData(bs, t, dp, ip, part, buf, 1);
    if w.WriteFailed? { return Failed(t, w.error); }
    assert Times(buf, 1) == buf + [] == buf;
    NoBlocks(bs, t, part);
    var ext := Extent(part, w.start, 0, |buf|, off);
    if buf == [] { CarriesNone(bs, w.tape, ext); } else { AppendCarries(bs, t, w.tape, part, off, buf); }
    var n, ok := AddExtent(bs, d, ext, canSplit);
    if ok {
      AddedOk(bs, d, ext, n);
      AddedLaid(bs, t, d, ext, n);
      AddedContents(bs, t, w.tape, d, ext, buf, n);
      r := Done(w.tape, n);
    } else {
      r := Failed(w.tape, NoMemory);
    }
  }

  lemma TruncatedContents(bs: nat, t: Tape, d: Dentry, len: nat, r: Dentry)
    requires 0 < bs && Ok(d) && Backed(bs, t, d.extents) && Truncated(bs, d, len, r)
    ensures Backed(bs, t, r.extents) && Contents(bs, t, r) == Resize(Contents(bs, t, d), len)
  {
    var f, g := Resize(Contents(bs, t, d), len), Contents(bs, t, r);
    forall x: nat
      ensures MapAt(bs, r.extents, x).Phys? ==> OnTape(t, MapAt(bs, r.extents, x))
      ensures x < len ==> g[x] == f[x]
    {
      assert MapAt(bs, r.extents, x) == if x < len then MapAt(bs, d.extents, x) else Unmapped;
      if d.size <= x { PastEnd(bs, d, x); }
    }
  }
}
