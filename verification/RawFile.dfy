/** The raw layer as a whole: files as extent lists over one append-only tape behave like flat files. */
module RawFile {
  import opened Bytes
  import opened Extents
  import opened RawTape
  import opened RawRead

  datatype Op =
    | CreateFile(d: nat)
    | WriteFile(d: nat, part: nat, off: nat, buf: seq<byte>)
    | TruncateFile(d: nat, len: nat)
    | ReadFile(d: nat, off: nat, count: nat)
    | AppendOther(part: nat, blocks: seq<seq<byte>>)

  datatype Reply = Fine | Bytes(got: seq<byte>) | Refused

  /** The same operation on flat files. */
  function Spec(dp: nat, ip: nat, f: map<nat, seq<byte>>, op: Op): (map<nat, seq<byte>>, Reply) {
    match op
    case CreateFile(d) => if d in f then (f, Refused) else (f[d := []], Fine)
    case WriteFile(d, part, off, buf) =>
      if d in f && (part == dp || part == ip) then (f[d := FlatWrite(f[d], off, buf)], Fine) else (f, Refused)
    case TruncateFile(d, len) => if d in f then (f[d := Resize(f[d], len)], Fine) else (f, Refused)
    case ReadFile(d, off, count) => if d in f then (f, Bytes(FlatRead(f[d], off, count))) else (f, Refused)
    case AppendOther(part, _) => (f, if part == dp || part == ip then Fine else Refused)
  }

  function SpecRun(dp: nat, ip: nat, f: map<nat, seq<byte>>, ops: seq<Op>): (map<nat, seq<byte>>, seq<Reply>) {
    if ops == [] then (f, [])
    else
      var (g, r) := SpecRun(dp, ip, f, ops[..|ops| - 1]);
      var (h, q) := Spec(dp, ip, g, ops[|ops| - 1]);
      (h, r + [q])
  }

  lemma SpecNext(dp: nat, ip: nat, f: map<nat, seq<byte>>, ops: seq<Op>, i: nat)
    requires i < |ops|
    ensures var (g, r) := SpecRun(dp, ip, f, ops[..i]);
            var (h, q) := Spec(dp, ip, g, ops[i]);
            SpecRun(dp, ip, f, ops[..i + 1]) == (h, r + [q])
  {
    hide Spec;
    assert ops[..i + 1][..i] == ops[..i];
  }

  ghost predicate AllOk(bs: nat, v: Device, files: map<nat, Dentry>) {
    0 < bs && CacheOk(v) && forall d :: d in files ==> Ok(files[d]) && Backed(bs, v.tape, files[d].extents)
  }

  /** What the user sees. */
  ghost function Flat(bs: nat, t: Tape, files: map<nat, Dentry>): map<nat, seq<byte>>
    requires 0 < bs
  {
    map d | d in files :: Contents(bs, t, files[d])
  }

  /** The tape has grown and file d is new or edited; all other files are as before. */
  lemma Stored(bs: nat, v: Device, t: Tape, files: map<nat, Dentry>, d: nat, n: Dentry)
    requires AllOk(bs, v, files) && Extends(v.tape, t) && Ok(n) && Backed(bs, t, n.extents)
    ensures AllOk(bs, v.(tape := t), files[d := n])
    ensures Flat(bs, t, files[d := n]) == Flat(bs, v.tape, files)[d := Contents(bs, t, n)]
  {
    hide Ok, Backed, Contents;
    var g := files[d := n];
    forall e | e in g
      ensures Ok(g[e]) && Backed(bs, t, g[e].extents)
      ensures e != d ==> Contents(bs, t, g[e]) == Contents(bs, v.tape, files[e])
    {
      if e != d { ExtendsKeeps(bs, v.tape, t, files[e]); }
    }
    if v.last.LastBlock? { assert v.tape[v.last.pos.part] <= t[v.last.pos.part]; }
    assert Flat(bs, t, g) == Flat(bs, v.tape, files)[d := Contents(bs, t, n)];
  }

  lemma Grown(bs: nat, v: Device, t: Tape, files: map<nat, Dentry>)
    requires AllOk(bs, v, files) && Extends(v.tape, t)
    ensures AllOk(bs, v.(tape := t), files) && Flat(bs, t, files) == Flat(bs, v.tape, files)
  {
    hide Ok, Backed, Contents;
    forall e | e in files
      ensures Backed(bs, t, files[e].extents) && Contents(bs, t, files[e]) == Contents(bs, v.tape, files[e])
    {
      ExtendsKeeps(bs, v.tape, t, files[e]);
    }
    if v.last.LastBlock? { assert v.tape[v.last.pos.part] <= t[v.last.pos.part]; }
  }

  lemma HeadMoved(bs: nat, v: Device, p: Pos, files: map<nat, Dentry>)
    requires AllOk(bs, v, files)
    ensures AllOk(bs, v.(head := p), files)
  {
  }

  /** No file has an entry of no bytes. */
  ghost predicate Proper(files: map<nat, Dentry>) { forall d :: d in files ==> NonEmpty(files[d].extents) }

  /** Where byte x of file d is. */
  function Place(bs: nat, files: map<nat, Dentry>, d: nat, x: nat): Phys
    requires 0 < bs
  {
    if d in files then MapAt(bs, files[d].extents, x) else Unmapped
  }

  /** The operation writes byte x of file d, to one of the partitions. */
  predicate Puts(parts: set<nat>, op: Op, d: nat, x: nat) {
    op.WriteFile? && op.d == d && op.part in parts && op.off <= x < op.off + |op.buf|
  }

  /** Operation i was the last one to do so, and wrote to partition q. */
  ghost predicate LastPut(parts: set<nat>, ops: seq<Op>, d: nat, x: nat, q: nat, i: int) {
    && 0 <= i < |ops| && Puts(parts, ops[i], d, x) && ops[i].part == q
    && forall k :: i < k < |ops| ==> !Puts(parts, ops[k], d, x)
  }

  /** A byte that is mapped is where it was, if no operation wrote it, or else on the partition to which the last one
      did. */
  ghost predicate CameFrom(bs: nat, parts: set<nat>, was: map<nat, Dentry>, ops: seq<Op>, files: map<nat, Dentry>,
                           d: nat, x: nat)
    requires 0 < bs
  {
    var p := Place(bs, files, d, x);
    p.Phys? ==>
      || (p == Place(bs, was, d, x) && forall i :: 0 <= i < |ops| ==> !Puts(parts, ops[i], d, x))
      || exists i :: LastPut(parts, ops, d, x, p.part, i)
  }

  ghost predicate Traced(bs: nat, parts: set<nat>, was: map<nat, Dentry>, ops: seq<Op>, files: map<nat, Dentry>)
    requires 0 < bs
  {
    forall d: nat, x: nat :: CameFrom(bs, parts, was, ops, files, d, x)
  }

  /** The operation writes to no file that is there. */
  predicate Idle(parts: set<nat>, op: Op, files: map<nat, Dentry>) {
    op.WriteFile? && op.d in files ==> op.part !in parts
  }

  lemma TracedSame(bs: nat, parts: set<nat>, files: map<nat, Dentry>, op: Op)
    requires 0 < bs && Idle(parts, op, files)
    ensures Traced(bs, parts, files, [op], files)
  {
  }

  lemma TracedNone(bs: nat, parts: set<nat>, files: map<nat, Dentry>)
    requires 0 < bs
    ensures Traced(bs, parts, files, [], files)
  {
  }

  lemma TracedWrite(bs: nat, parts: set<nat>, t: Tape, was: map<nat, Dentry>, op: Op, n: Dentry)
    requires 0 < bs && op.WriteFile? && op.d in was && op.part in t && op.part in parts
    requires Laid(bs, t, was[op.d].extents, op.part, op.off, |op.buf|, n.extents)
    ensures Traced(bs, parts, was, [op], was[op.d := n])
  {
    var files := was[op.d := n];
    forall d: nat, x: nat ensures CameFrom(bs, parts, was, [op], files, d, x) {
      if d == op.d {
        assert LaidAt(bs, t, was[d].extents, op.part, op.off, |op.buf|, n.extents, x);
        if Puts(parts, op, d, x) { assert LastPut(parts, [op], d, x, op.part, 0); }
      }
    }
  }

  lemma TracedCut(bs: nat, parts: set<nat>, was: map<nat, Dentry>, d: nat, len: nat, n: Dentry, op: Op)
    requires 0 < bs && d in was && Truncated(bs, was[d], len, n) && !op.WriteFile?
    ensures Traced(bs, parts, was, [op], was[d := n])
  {
    var files := was[d := n];
    forall e: nat, x: nat ensures CameFrom(bs, parts, was, [op], files, e, x) {
      if e == d {
        assert MapAt(bs, n.extents, x) == if x < len then MapAt(bs, was[d].extents, x) else Unmapped;
      }
    }
  }

  lemma TracedMore(bs: nat, parts: set<nat>, was: map<nat, Dentry>, ops: seq<Op>, mid: map<nat, Dentry>, op: Op,
                   files: map<nat, Dentry>)
    requires 0 < bs && Traced(bs, parts, was, ops, mid) && Traced(bs, parts, mid, [op], files)
    ensures Traced(bs, parts, was, ops + [op], files)
  {
    forall d: nat, x: nat ensures CameFrom(bs, parts, was, ops + [op], files, d, x) {
      assert CameFrom(bs, parts, was, ops, mid, d, x) && CameFrom(bs, parts, mid, [op], files, d, x);
      CameMore(bs, parts, was, ops, mid, op, files, d, x);
    }
  }

  lemma CameMore(bs: nat, parts: set<nat>, was: map<nat, Dentry>, ops: seq<Op>, mid: map<nat, Dentry>, op: Op,
                 files: map<nat, Dentry>, d: nat, x: nat)
    requires 0 < bs && CameFrom(bs, parts, was, ops, mid, d, x) && CameFrom(bs, parts, mid, [op], files, d, x)
    ensures CameFrom(bs, parts, was, ops + [op], files, d, x)
  {
    hide Place;
    var p, all := Place(bs, files, d, x), ops + [op];
    if p.Phys? {
      assert [op][0] == op && all[|ops|] == op;
      if Puts(parts, op, d, x) {
        assert LastPut(parts, all, d, x, p.part, |ops|);
      } else if i :| LastPut(parts, ops, d, x, p.part, i) {
        assert LastPut(parts, all, d, x, p.part, i);
      }
    }
  }

  lemma TracedNew(bs: nat, parts: set<nat>, was: map<nat, Dentry>, d: nat, op: Op)
    requires 0 < bs && d !in was && !op.WriteFile?
    ensures Traced(bs, parts, was, [op], was[d := Dentry([], 0, 0)])
  {
  }

  /** The operation appends to partition q. */
  predicate Appends(op: Op, q: nat) { (op.WriteFile? || op.AppendOther?) && op.part == q }

  predicate EmptyWrite(op: Op) { op.WriteFile? && op.buf == [] }

  predicate NoEmptyWrites(ops: seq<Op>) { forall i :: 0 <= i < |ops| ==> !EmptyWrite(ops[i]) }

  lemma NoEmptyNext(ops: seq<Op>, i: nat)
    requires i < |ops|
    ensures NoEmptyWrites(ops[..i + 1]) ==> NoEmptyWrites(ops[..i]) && !EmptyWrite(ops[i])
  {
    if NoEmptyWrites(ops[..i + 1]) {
      assert ops[..i + 1][i] == ops[i];
      forall k | 0 <= k < i ensures !EmptyWrite(ops[..i][k]) { assert ops[..i + 1][k] == ops[k]; }
    }
  }

  class Volume {
    const blocksize: nat
    const dp: nat
    const ip: nat
    var device: Device
    var files: map<nat, Dentry>

    ghost predicate Valid() reads this {
      AllOk(blocksize, device, files) && dp in device.tape && ip in device.tape
    }

    ghost function View(): map<nat, seq<byte>>
      requires Valid()
      reads this
    {
      Flat(blocksize, device.tape, files)
    }

    constructor (bs: nat, dp: nat, ip: nat)
      requires 0 < bs
      ensures Valid() && View() == map[] && Proper(files) && this.dp == dp && this.ip == ip
    {
      this.blocksize, this.dp, this.ip := bs, dp, ip;
      device := Device(map[dp := [], ip := []], Pos(dp, 0), NoBlock);
      files := map[];
    }

    method Write(d: nat, part: nat, off: nat, buf: seq<byte>, canSplit: bool) returns (reply: Reply)
      requires Valid() && d in files
      modifies this
      ensures Valid() && d in old(View())
      ensures reply == Fine ==>
                (part == dp || part == ip) && View() == old(View())[d := FlatWrite(old(View())[d], off, buf)]
      ensures reply != Fine ==> reply == Refused && View() == old(View()) && files == old(files)
      ensures canSplit ==> (reply == Fine <==> part == dp || part == ip)
      ensures Proper(old(files)) ==> (Proper(files) <==> buf != [] || reply == Refused)
      ensures device.tape == if part == dp || part == ip then
                               old(device.tape)[part := old(device.tape)[part] + Blocks(blocksize, buf)]
                             else old(device.tape)
      ensures reply == Fine ==>
                && part in old(device.tape) && d in files && files == old(files)[d := files[d]]
                && Laid(blocksize, old(device.tape), old(files)[d].extents, part, off, |buf|, files[d].extents)
    {
      hide Ok, Backed, Contents, CacheOk, Extends, NonEmpty, Laid, Blocks;
      var w := RawTape.Write(blocksize, device.tape, dp, ip, files[d], part, off, buf, canSplit);
      var head := if (part == dp || part == ip) && buf != [] then Pos(part, |w.tape[part]|) else device.head;
      if w.Failed? {
        Grown(blocksize, device, w.tape, files);
        HeadMoved(blocksize, device.(tape := w.tape), head, files);
        device := device.(tape := w.tape, head := head);
        return Refused;
      }
      Stored(blocksize, device, w.tape, files, d, w.d);
      HeadMoved(blocksize, device.(tape := w.tape), head, files[d := w.d]);
      device := device.(tape := w.tape, head := head);
      assert files[d := w.d][d] == w.d && d in files[d := w.d];
      files := files[d := w.d];
      reply := Fine;
    }

    method Truncate(d: nat, len: nat)
      requires Valid() && d in files
      modifies this
      ensures Valid() && d in old(View()) && View() == old(View())[d := Resize(old(View())[d], len)]
      ensures (Proper(old(files)) ==> Proper(files)) && device == old(device)
      ensures d in files && files == old(files)[d := files[d]] && Truncated(blocksize, old(files)[d], len, files[d])
    {
      var r := Extents.Truncate(blocksize, files[d], len);
      TruncatedContents(blocksize, device.tape, files[d], len, r);
      hide Ok, Backed, Contents, CacheOk;
      Stored(blocksize, device, device.tape, files, d, r);
      assert device.(tape := device.tape) == device;
      files := files[d := r];
    }

    method Read(d: nat, off: nat, count: nat) returns (got: seq<byte>)
      requires Valid() && d in files
      modifies this
      ensures Valid() && View() == old(View()) && d in View() && got == FlatRead(View()[d], off, count)
      ensures files == old(files) && device.tape == old(device.tape)
    {
      hide Ok, Backed, Contents, CacheOk;
      var ok;
      device, got, ok := RawRead.Read(blocksize, device, files[d], off, count);
    }
  
    method Create(d: nat)
      requires Valid() && d !in files
      modifies this
      ensures Valid() && View() == old(View())[d := []] && (Proper(old(files)) ==> Proper(files))
      ensures files == old(files)[d := Dentry([], 0, 0)] && device == old(device)
    {
      Stored(blocksize, device, device.tape, files, d, Dentry([], 0, 0));
      assert device.(tape := device.tape) == device;
      files := files[d := Dentry([], 0, 0)];
    }

    /** Blocks written by somebody else: an index, or the data of a file of another layer. */
    method Append(part: nat, blocks: seq<seq<byte>>)
      requires Valid() && (part == dp || part == ip)
      modifies this
      ensures Valid() && View() == old(View()) && files == old(files)
      ensures device.tape == old(device.tape)[part := old(device.tape)[part] + blocks]
    {
      var t := device.tape[part := device.tape[part] + blocks];
      Grown(blocksize, device, t, files);
      HeadMoved(blocksize, device.(tape := t), Pos(part, |t[part]|), files);
      device := device.(tape := t, head := Pos(part, |t[part]|));
    }

    method Execute(op: Op) returns (reply: Reply)
      requires Valid()
      modifies this
      ensures Valid() && (View(), reply) == Spec(dp, ip, old(View()), op)
      ensures Proper(old(files)) ==> (Proper(files) <==> !EmptyWrite(op) || reply == Refused)
      ensures Traced(blocksize, {dp, ip}, old(files), [op], files)
      ensures forall q :: q in old(device.tape) && !Appends(op, q) ==>
                q in device.tape && device.tape[q] == old(device.tape)[q]
    {
      if Idle({dp, ip}, op, files) { TracedSame(blocksize, {dp, ip}, files, op); }
      hide AllOk, Contents, Proper, Traced, Laid, Truncated;
      ghost var was, t := files, device.tape;
      match op
      case CreateFile(d) =>
        if d in files { return Refused; }
        Create(d);
        TracedNew(blocksize, {dp, ip}, was, d, op);
        reply := Fine;
      case WriteFile(d, part, off, buf) =>
        if d !in files { return Refused; }
        reply := Write(d, part, off, buf, true);
        if reply == Fine { TracedWrite(blocksize, {dp, ip}, t, was, op, files[d]); }
      case TruncateFile(d, len) =>
        if d !in files { return Refused; }
        Truncate(d, len);
        TracedCut(blocksize, {dp, ip}, was, d, len, files[d], op);
        reply := Fine;
      case ReadFile(d, off, count) =>
        if d !in files { return Refused; }
        var got := Read(d, off, count);
        reply := Bytes(got);
      case AppendOther(part, blocks) =>
        if part != dp && part != ip { return Refused; }
        Append(part, blocks);
        reply := Fine;
    }

    /** Any run of operations on any number of files answers as flat files would; without empty writes, no list
        ever has an empty entry; and every byte is on the partition to which it was last written. */
    method Run(ops: seq<Op>) returns (replies: seq<Reply>)
      requires Valid()
      modifies this
      ensures Valid() && (View(), replies) == SpecRun(dp, ip, old(View()), ops)
      ensures Proper(old(files)) && NoEmptyWrites(ops) ==> Proper(files)
      ensures Traced(blocksize, {dp, ip}, old(files), ops, files)
    {
      TracedNone(blocksize, {dp, ip}, files);
      assert SpecRun(dp, ip, View(), ops[..0]) == (View(), []);
      hide AllOk, Spec, SpecRun, Proper, Traced, EmptyWrite, NoEmptyWrites;
      replies := [];
      for i := 0 to |ops|
        invariant Valid() && (View(), replies) == SpecRun(dp, ip, old(View()), ops[..i])
        invariant Proper(old(files)) && NoEmptyWrites(ops[..i]) ==> Proper(files)
        invariant Traced(blocksize, {dp, ip}, old(files), ops[..i], files)
      {
        ghost var mid := files;
        SpecNext(dp, ip, old(View()), ops, i);
        NoEmptyNext(ops, i);
        var r := Execute(ops[i]);
        replies := replies + [r];
        assert ops[..i] + [ops[i]] == ops[..i + 1];
        TracedMore(blocksize, {dp, ip}, old(files), ops[..i], mid, ops[i], files);
      }
      assert ops[..|ops|] == ops;
    }
  }
}
