/** `unified_read`: the scan of the request list with iosched_lock held, and the tape reads after the
    lock has been handed over. */
module UnifiedRead {
  import opened Bytes
  import opened Requests
  import opened Cells
  import opened ListEdits
  import opened Interleave

  /** struct read_request, its buffer given as a position in the caller's buffer. */
  datatype ReadRequest = ReadRequest(at: nat, offset: nat, count: nat)

  predicate In(r: ReadRequest, x: nat) { r.at <= x < r.at + r.count }

  predicate Hit(q: seq<ReadRequest>, x: nat) { exists k :: 0 <= k < |q| && In(q[k], x) }

  /** The queued reads are in order and lie within the first n bytes of the buffer. */
  predicate Queued(q: seq<ReadRequest>, off: nat, n: nat) {
    && (forall k :: 0 <= k < |q| ==> q[k].offset == off + q[k].at && q[k].at + q[k].count <= n)
    && (forall i, k :: 0 <= i < k < |q| ==> q[i].at + q[i].count <= q[k].at)
  }

  /** The first n bytes are accounted for: cached bytes are in the buffer, all others are queued. */
  ghost predicate Planned(l: seq<Req>, off: nat, buf: seq<byte>, q: seq<ReadRequest>, n: nat) {
    && n <= |buf| && Queued(q, off, n)
    && forall x: nat :: x < n ==> var c := CellAt(l, off + x); (c.Held? <==> !Hit(q, x)) && (c.Held? ==> buf[x] == c.b)
  }

  lemma HitSnoc(q: seq<ReadRequest>, r: ReadRequest, x: nat)
    ensures Hit(q + [r], x) <==> Hit(q, x) || In(r, x)
  {
    var p := q + [r];
    if Hit(q, x) {
      var k :| 0 <= k < |q| && In(q[k], x);
      assert p[k] == q[k];
    }
    assert p[|q|] == r;
  }

  /** Queueing a read of the hole in front of request i. */
  lemma QueueHole(l: seq<Req>, i: nat, off: nat, buf: seq<byte>, q: seq<ReadRequest>, n: nat, m: nat)
    requires Ordered(l) && i < |l| && Planned(l, off, buf, q, n) && n <= m <= |buf|
    requires off + m <= l[i].offset && forall j :: 0 <= j < i ==> l[j].End() <= off + n
    ensures Planned(l, off, buf, q + [ReadRequest(n, off + n, m - n)], m)
  {
    var r := ReadRequest(n, off + n, m - n);
    forall x: nat | x < m
      ensures var c := CellAt(l, off + x); (c.Held? <==> !Hit(q + [r], x)) && (c.Held? ==> buf[x] == c.b)
    {
      HitSnoc(q, r, x);
      if n <= x {
        forall j | 0 <= j < |l| ensures !l[j].Covers(off + x) { assert i < j ==> l[i].End() <= l[j].offset; }
        CellHole(l, off + x);
      }
    }
  }

  /** Copying the bytes of request i. */
  lemma CopyCached(l: seq<Req>, i: nat, off: nat, buf: seq<byte>, q: seq<ReadRequest>, n: nat, m: nat)
    requires Ordered(l) && i < |l| && Planned(l, off, buf, q, n) && n <= m <= |buf|
    requires l[i].offset <= off + n && off + m <= l[i].End()
    ensures var at := off + n - l[i].offset;
            Planned(l, off, buf[..n] + l[i].data[at..at + m - n] + buf[m..], q, m)
  {
    var at := off + n - l[i].offset;
    var b := buf[..n] + l[i].data[at..at + m - n] + buf[m..];
    forall x: nat | x < m
      ensures var c := CellAt(l, off + x); (c.Held? <==> !Hit(q, x)) && (c.Held? ==> b[x] == c.b)
    {
      if x < n {
        assert b[x] == buf[x];
      } else {
        assert l[i].Covers(off + x);
        OnlyHere(l, i, off + x);
        CellCutAt(l, i, off + x);
        assert b[x] == l[i].data[off + x - l[i].offset];
      }
    }
  }

  lemma PlannedNone(l: seq<Req>, off: nat, buf: seq<byte>)
    ensures Planned(l, off, buf, [], 0)
  {
  }

  lemma InOrder(l: seq<Req>, i: nat, k: nat)
    requires Ordered(l) && i <= k < |l|
    ensures i < k ==> l[i].End() <= l[k].offset
    ensures l[i].End() <= l[k].End()
  {
  }

  lemma PlanReaches(l: seq<Req>, off: nat, count: nat)
    ensures |PlanFor(l, off, count)| == if LastEnd(l) > off then Min(count, LastEnd(l) - off) else 0
  {
  }

  /** The scan: cached bytes are copied, holes in front of cached bytes are queued. What lies past the
      last request is left for later. */
  method Scan(l: seq<Req>, off: nat, buf: seq<byte>) returns (b: seq<byte>, q: seq<ReadRequest>, n: nat)
    requires Ordered(l)
    ensures |b| == |buf| && n == |PlanFor(l, off, |buf|)| && Planned(l, off, b, q, n)
    ensures forall k :: 0 <= k < |q| ==> 0 < q[k].count
  {
    hide Ordered, Planned, PlanFor;
    b, q, n := buf, [], 0;
    PlannedNone(l, off, b);
    PlanReaches(l, off, |buf|);
    if buf == [] { return; }
    for i := 0 to |l|
      invariant n < |buf| && forall k :: 0 <= k < |q| ==> 0 < q[k].count
      invariant |b| == |buf| && n <= |b| && Planned(l, off, b, q, n)
      invariant forall j :: 0 <= j < i ==> l[j].End() <= off + n
      invariant n == if i > 0 && l[i - 1].End() > off then l[i - 1].End() - off else 0
    {
      if i > 0 { InOrder(l, i - 1, i); }
      if off + n < l[i].offset {
        var m := n + Min(l[i].offset - off - n, |buf| - n);
        QueueHole(l, i, off, b, q, n, m);
        q, n := q + [ReadRequest(n, off + n, m - n)], m;
        if n == |buf| {
          InOrder(l, i, |l| - 1);
          return;
        }
      }
      if off + n < l[i].End() {
        var m := n + Min(l[i].End() - off - n, |buf| - n);
        var at := off + n - l[i].offset;
        CopyCached(l, i, off, b, q, n, m);
        b, n := b[..n] + l[i].data[at..at + m - n] + b[m..], m;
        if n == |buf| {
          InOrder(l, i, |l| - 1);
          return;
        }
      }
    }
  }

  /** The buffer with every queued position filled from the tape, zero past its end. */
  function Filled(q: seq<ReadRequest>, buf: seq<byte>, raw: seq<byte>, off: nat): seq<byte> {
    seq(|buf|, x requires 0 <= x < |buf| => if Hit(q, x) then At(raw, off + x) else buf[x])
  }

  /** One queued read: past the end of the tape file the rest is zero. */
  method ReadOne(r: ReadRequest, buf: seq<byte>, raw: seq<byte>, pastEof: bool) returns (b: seq<byte>, eof: bool)
    requires r.at + r.count <= |buf| && (pastEof ==> |raw| <= r.offset)
    ensures |b| == |buf| && forall x :: 0 <= x < |buf| ==>
            b[x] == if In(r, x) then At(raw, r.offset + x - r.at) else buf[x]
    ensures eof <==> pastEof || (r.count > 0 && |raw| < r.offset + r.count)
  {
    var got := [];
    eof := pastEof;
    if !pastEof {
      got := FlatRead(raw, r.offset, r.count);
      eof := |got| < r.count;
    }
    b := buf[..r.at] + got + Zeros(r.count - |got|) + buf[r.at + r.count..];
  }

  method Issue(q: seq<ReadRequest>, buf: seq<byte>, raw: seq<byte>, off: nat, ghost n: nat) returns (b: seq<byte>)
    requires Queued(q, off, n) && n <= |buf|
    ensures b == Filled(q, buf, raw, off)
  {
    b := buf;
    var pastEof := false;
    for k := 0 to |q|
      invariant |b| == |buf| && (pastEof ==> k > 0 && |raw| <= q[k - 1].offset + q[k - 1].count)
      invariant forall x :: 0 <= x < |buf| ==> b[x] == if Hit(q[..k], x) then At(raw, off + x) else buf[x]
    {
      ghost var was := b;
      b, pastEof := ReadOne(q[k], b, raw, pastEof);
      forall x | 0 <= x < |buf| ensures b[x] == if Hit(q[..k + 1], x) then At(raw, off + x) else buf[x] {
        assert q[..k + 1] == q[..k] + [q[k]];
        HitSnoc(q[..k], q[k], x);
      }
    }
    assert q[..|q|] == q;
  }

  /** What the scan left in the buffer and in the queue says what the plan says. */
  predicate Matches(p: Pending, b: seq<byte>, q: seq<ReadRequest>, n: nat) {
    && |b| == p.count && n == |p.plan| <= p.count && Queued(q, p.off, n)
    && forall x: nat :: x < n ==> (p.plan[x].Held? <==> !Hit(q, x)) && (p.plan[x].Held? ==> b[x] == p.plan[x].b)
  }

  lemma PlannedMatches(l: seq<Req>, off: nat, b: seq<byte>, q: seq<ReadRequest>, n: nat, p: Pending)
    requires Planned(l, off, b, q, n) && p.off == off && p.count == |b| && p.plan == PlanFor(l, off, |b|) &&
             n == |p.plan|
    ensures Matches(p, b, q, n)
  {
    forall x: nat | x < n ensures (p.plan[x].Held? <==> !Hit(q, x)) && (p.plan[x].Held? ==> b[x] == p.plan[x].b) {
      assert p.plan[x] == CellAt(l, off + x);
    }
  }

  /** Nothing was queued and the buffer is full: the request list alone answers the read. */
  lemma NothingQueued(p: Pending, b: seq<byte>, q: seq<ReadRequest>, n: nat)
    requires Matches(p, b, q, n) && forall k :: 0 <= k < |q| ==> 0 < q[k].count
    ensures q == [] && n == |b| <==> AllCached(p)
    ensures AllCached(p) ==> b == Result(p, [])
  {
    if q != [] {
      assert In(q[0], q[0].at);
      assert Hit(q, q[0].at);
    }
  }

  /** The reads of the tape, with io_lock held: first what was queued, then what lies past the list. */
  method Complete(ghost p: Pending, off: nat, b: seq<byte>, q: seq<ReadRequest>, n: nat, raw: seq<byte>)
    returns (got: seq<byte>)
    requires Matches(p, b, q, n) && p.off == off
    ensures got == Result(p, raw)
  {
    var c := Issue(q, b, raw, off, n);
    got := c[..n];
    if n < |b| {
      got := got + FlatRead(raw, off + n, |b| - n);
    }
    assert c[..n] == seq(n, x requires 0 <= x < n => if p.plan[x].Held? then p.plan[x].b else At(raw, p.off + x));
  }

  /** `unified_read` on a file with a request list l; raw is the file on tape once io_lock is held. */
  method Read(l: seq<Req>, off: nat, buf: seq<byte>, raw: seq<byte>) returns (got: seq<byte>)
    requires Ordered(l)
    ensures got == Result(Pending(off, |buf|, PlanFor(l, off, |buf|), []), raw)
  {
    var b, q, n := Scan(l, off, buf);
    ghost var p := Pending(off, |buf|, PlanFor(l, off, |buf|), []);
    PlannedMatches(l, off, b, q, n, p);
    got := Complete(p, off, b, q, n, raw);
  }
}
