/**
 The list of outstanding write requests of one file (`struct dentry_priv`), as a value, and what
 `unified_write` does to it.

 Every function here follows one piece of src/iosched/unified.c, on sequences instead of linked
 lists; module Scheduler proves that the imperative code computes exactly these functions. Cache
 blocks come from a shared pool: `grants` is the number of blocks the pool will still hand out
 before it reports pressure, `spare` says whether the writer holds a block of its own.
 */
module Requests {
  import opened Bytes

  /** `struct write_request`: count is the length of data, and ip says that the bytes are already
      on the data partition and wait to be copied to the index partition (REQUEST_IP). The two
      states of dirty requests, REQUEST_PARTIAL and REQUEST_DP, make no difference here. */
  datatype Req = Req(offset: nat, data: seq<byte>, ip: bool) {
    function End(): nat { offset + |data| }
    predicate Covers(x: nat) { offset <= x < End() }
  }

  /** What the list holds for one file offset: nothing, or a byte and whether it is only a replica. */
  datatype Cell = Hole | Held(b: byte, ip: bool)

  function CellOf(r: Req, x: nat): Cell {
    if r.Covers(x) then Held(r.data[x - r.offset], r.ip) else Hole
  }

  /** The first request that covers x wins, as in the scan of `unified_read`. */
  function CellAt(l: seq<Req>, x: nat): Cell {
    if l == [] then Hole
    else if l[0].Covers(x) then CellOf(l[0], x)
    else CellAt(l[1..], x)
  }

  predicate Fits(l: seq<Req>, cs: nat) { forall i :: 0 <= i < |l| ==> 0 < |l[i].data| <= cs }

  /** Requests a up to b are sorted and disjoint. */
  predicate OrderedOn(l: seq<Req>, a: int, b: int)
    requires 0 <= a <= b <= |l|
  {
    forall i, j :: a <= i < j < b ==> l[i].End() <= l[j].offset
  }

  predicate Ordered(l: seq<Req>) { OrderedOn(l, 0, |l|) }

  /** Sorted, disjoint, and every request holds between one byte and one cache block. */
  predicate WellFormed(l: seq<Req>, cs: nat) { Fits(l, cs) && Ordered(l) }

  function LastEnd(l: seq<Req>): nat { if l == [] then 0 else l[|l| - 1].End() }

  // ----- `_unified_update_request`

  function Room(cs: nat, r: Req, o: nat): nat
    requires r.offset <= o <= r.End() && |r.data| <= cs
  {
    r.offset + cs - o
  }

  function Grown(r: Req, o: nat, buf: seq<byte>): (g: Req)
    requires r.offset <= o <= r.End()
    ensures g.offset == r.offset && g.ip == r.ip
    ensures g.End() == Max(r.End(), o + |buf|)
  {
    var k := o - r.offset;
    r.(data := r.data[..k] + buf + r.data[Min(k + |buf|, |r.data|)..])
  }

  /** Copy as much of buf as the cache block of request k can take at file offset o. */
  function Update(cs: nat, l: seq<Req>, k: nat, o: nat, buf: seq<byte>): seq<Req>
    requires k < |l| && l[k].offset <= o <= l[k].End() && |l[k].data| <= cs
  {
    l[k := Grown(l[k], o, buf[..Min(Room(cs, l[k], o), |buf|)])]
  }

  // ----- `_unified_merge_requests`

  /** ret: 2 when the source was freed, 1 when it was trimmed, 0 when nothing changed. */
  datatype Merged = Merged(l: seq<Req>, ret: int)

  /** The bytes of src that go into dest's block: only between requests for the same partition. */
  function Moved(cs: nat, dest: Req, src: Req): (b: seq<byte>)
    requires src.offset <= dest.End() && |dest.data| <= cs
    ensures |dest.data| + |b| <= cs
    ensures b != [] ==> dest.End() + |b| <= src.End()
    ensures b != [] ==> dest.ip == src.ip && b == src.data[dest.End() - src.offset..][..|b|]
  {
    var skip := dest.End() - src.offset;
    if dest.ip != src.ip then []
    else if |dest.data| < cs && |src.data| > skip then
      src.data[skip..][..Min(Room(cs, dest, dest.End()), |src.data| - skip)]
    else []
  }

  /** How far into src the merge reaches. */
  function Cut(cs: nat, dest: Req, src: Req): nat
    requires src.offset <= dest.End() && |dest.data| <= cs
  {
    dest.End() - src.offset + |Moved(cs, dest, src)|
  }

  /** dest after the merge. */
  function Taker(cs: nat, dest: Req, src: Req): (d: Req)
    requires src.offset <= dest.End() && 0 < |dest.data| <= cs
    ensures d.offset == dest.offset && d.ip == dest.ip
    ensures d.End() == src.offset + Cut(cs, dest, src)
    ensures 0 < |d.data| <= cs
    ensures Moved(cs, dest, src) == [] ==> d == dest
  {
    Grown(dest, dest.End(), Moved(cs, dest, src))
  }

  /** Merge request i into its predecessor; overlapping bytes come from the predecessor. */
  function Merge(cs: nat, l: seq<Req>, i: nat): (m: Merged)
    requires 0 < i < |l| && Fits(l, cs)
    ensures Fits(m.l, cs)
    ensures m.ret == 2 ==> |m.l| == |l| - 1
    ensures m.ret != 2 ==> |m.l| == |l|
    ensures 0 <= m.ret <= 2
  {
    var dest, src := l[i - 1], l[i];
    if src.offset > dest.End() then Merged(l, 0) else
    var d, cut := Taker(cs, dest, src), Cut(cs, dest, src);
    if cut == 0 then Merged(l, 0)
    else if cut < |src.data| then
      Merged(l[i - 1 := d][i := Req(src.offset + cut, src.data[cut..], src.ip)], 1)
    else Merged(l[..i - 1] + [d] + l[i + 1..], 2)
  }

  // ----- `unified_write`

  /** The state of the traversal: position i, whether prev_req is set (it is then request i - 1),
      and the bytes still to be written at file offset o. */
  datatype Walk = Walk(l: seq<Req>, i: nat, prev: bool, o: nat, buf: seq<byte>, spare: bool, grants: nat)

  datatype Exit = Finished | EndOfList | Pressure

  datatype Outcome = Outcome(w: Walk, exit: Exit)

  predicate CanAlloc(w: Walk) { w.spare || w.grants > 0 }

  /** Taking a cache block uses up the spare first. */
  function Allocated(w: Walk): Walk {
    if w.spare then w.(spare := false) else if w.grants > 0 then w.(grants := w.grants - 1) else w
  }

  function Chunk(cs: nat, o: nat, buf: seq<byte>): Req {
    var n := Min(cs, |buf|);
    Req(o, buf[..n], false)
  }

  /** `_unified_insert_new_request`: one new request before request i. */
  function Inserted(cs: nat, w: Walk): (v: Walk)
    requires 0 < cs && w.i <= |w.l| && Fits(w.l, cs) && w.buf != [] && CanAlloc(w)
    ensures Fits(v.l, cs) && |v.l| == |w.l| + 1 && v.i == w.i + 1 && v.prev && v.l[w.i] == Chunk(cs, w.o, w.buf)
    ensures forall j :: 0 <= j < w.i ==> v.l[j] == w.l[j]
    ensures forall j :: w.i < j < |v.l| ==> v.l[j] == w.l[j - 1]
    ensures v.o == w.o + Min(cs, |w.buf|) && v.buf == w.buf[Min(cs, |w.buf|)..]
  {
    var c := Chunk(cs, w.o, w.buf);
    Allocated(w).(l := w.l[..w.i] + [c] + w.l[w.i..], i := w.i + 1, prev := true,
                  o := w.o + |c.data|, buf := w.buf[|c.data|..])
  }

  /** `while (size > 0 && offset < limit)`: insert new requests before request i. */
  function InsertRun(cs: nat, w: Walk, limit: nat): (r: Outcome)
    requires 0 < cs && w.i <= |w.l| && Fits(w.l, cs)
    ensures Fits(r.w.l, cs)
    ensures r.w.i <= |r.w.l| && |r.w.l| - r.w.i == |w.l| - w.i && w.i <= r.w.i
    ensures r.exit == Pressure || r.exit == EndOfList
    ensures r.exit == EndOfList ==> r.w.buf == [] || r.w.o >= limit
    ensures |r.w.buf| <= |w.buf| && r.w.o + |r.w.buf| == w.o + |w.buf|
    ensures r.exit == EndOfList && w.buf != [] && w.o < limit ==> |r.w.buf| < |w.buf|
    ensures w.buf == [] || w.o >= limit ==> r == Outcome(w, EndOfList)
    ensures r.w.l[r.w.i..] == w.l[w.i..]
    ensures r.w.prev || r.w == w.(spare := r.w.spare)
    ensures w.prev && r.w.prev && r.w.i == 0 ==> w.i == 0
    ensures !w.prev && r.w.prev ==> 0 < r.w.i
    decreases |w.buf|
  {
    if w.buf == [] || w.o >= limit then Outcome(w, EndOfList)
    else if !CanAlloc(w) then Outcome(w.(spare := true), Pressure)
    else
      InsertRun(cs, Inserted(cs, w), limit)
  }

  /** Merge request i into prev_req, if prev_req is set; a freed block becomes the spare. */
  function MergePrev(cs: nat, w: Walk): (r: (Walk, int))
    requires w.i < |w.l| && Fits(w.l, cs) && (w.prev ==> 0 < w.i)
    ensures 0 <= r.1 <= 2 && Fits(r.0.l, cs) && r.0 == w.(l := r.0.l, spare := r.0.spare)
    ensures |r.0.l| == if r.1 == 2 then |w.l| - 1 else |w.l|
  {
    if w.prev then
      var m := Merge(cs, w.l, w.i);
      (w.(l := m.l, spare := w.spare || m.ret == 2), m.ret)
    else (w, 0)
  }

  predicate Ready(cs: nat, w: Walk) { 0 < cs && w.i <= |w.l| && Fits(w.l, cs) && (w.prev ==> 0 < w.i) }

  /** How one visit of the loop body ends: leave, go to the next request, or jump back to
      do_insert_before. */
  datatype Next = Leave(out: Outcome) | Continue(w: Walk) | Retry(w: Walk)

  /** The bottom of the loop: request i becomes prev_req. */
  function Settle(w: Walk, did: bool): Next {
    var p := w.(prev := true, i := w.i + 1);
    if w.buf == [] && !did then Leave(Outcome(p, Finished)) else Continue(p)
  }

  function SplitInTwo(l: seq<Req>, i: nat, head: Req, tail: Req): (r: seq<Req>)
    requires i < |l|
    ensures |r| == |l| + 1 && r[i] == head && r[i + 1] == tail
    ensures forall j :: 0 <= j < i ==> r[j] == l[j]
    ensures forall j :: i + 1 < j < |r| ==> r[j] == l[j - 1]
  {
    l[..i] + [head, tail] + l[i + 1..]
  }

  function Removed(l: seq<Req>, i: nat): (r: seq<Req>)
    requires i < |l|
    ensures |r| == |l| - 1
    ensures forall j :: 0 <= j < i ==> r[j] == l[j]
    ensures forall j :: i <= j < |r| ==> r[j] == l[j + 1]
  {
    l[..i] + l[i + 1..]
  }

  /** The two pieces a replica request is split into around the new bytes. */
  function Head(m: Walk): Req
    requires m.i < |m.l| && m.l[m.i].offset <= m.o <= m.l[m.i].End()
  {
    m.l[m.i].(data := m.l[m.i].data[..m.o - m.l[m.i].offset])
  }

  function Tail(m: Walk): Req
    requires m.i < |m.l| && m.l[m.i].offset <= m.o && m.o + |m.buf| <= m.l[m.i].End()
  {
    var cut := m.o - m.l[m.i].offset + |m.buf|;
    Req(m.l[m.i].offset + cut, m.l[m.i].data[cut..], true)
  }

  /** Cut the replica around the new bytes; the insertion that follows makes prev_req the new request
      before the tail. */
  function Parted(cs: nat, m: Walk): (v: Walk)
    requires Ready(cs, m) && m.i < |m.l| && m.buf != []
    requires m.l[m.i].offset < m.o && m.o + |m.buf| < m.l[m.i].End()
    ensures Ready(cs, v) && v.l == SplitInTwo(m.l, m.i, Head(m), Tail(m)) && v.i == m.i + 1 && v.prev
    ensures v.o == m.o && v.buf == m.buf
  {
    Allocated(m).(l := SplitInTwo(m.l, m.i, Head(m), Tail(m)), i := m.i + 1, prev := true)
  }

  /** An IP request under the new bytes is removed, cut at either end, or split. */
  function VisitIp(cs: nat, m: Walk, did: bool): (n: Next)
    requires Ready(cs, m) && m.i < |m.l| && m.buf != []
    requires m.l[m.i].ip && m.l[m.i].offset <= m.o < m.l[m.i].End()
    ensures NextReady(cs, m, n)
    ensures n.Retry? ==> n.w.buf == m.buf && n.w.o < n.w.l[n.w.i].offset
  {
    var q := m.l[m.i];
    if m.o == q.offset && |m.buf| >= |q.data| then
      Continue(m.(l := Removed(m.l, m.i), spare := true))
    else if m.o == q.offset then
      Retry(m.(l := m.l[m.i := Req(q.offset + |m.buf|, q.data[|m.buf|..], true)]))
    else if m.o + |m.buf| >= q.End() then
      Settle(m.(l := m.l[m.i := Head(m)]), did)
    else if !CanAlloc(m) then Leave(Outcome(m.(spare := true), Pressure))
    else Retry(Parted(cs, m))
  }

  /** Resolve the overlap between the new bytes and request i. */
  function Overlap(cs: nat, m: Walk, did: bool): (n: Next)
    requires Ready(cs, m) && m.i < |m.l|
    ensures NextReady(cs, m, n)
    ensures n.Retry? ==> m.buf != [] && n.w.buf == m.buf && n.w.o < n.w.l[n.w.i].offset
  {
    var q := m.l[m.i];
    if m.buf == [] then Settle(m, did)
    else if m.o < q.offset then Retry(m)
    else if !q.ip && (m.o < q.End() || (m.o == q.End() && |q.data| < cs)) then
      var n := Min(Room(cs, q, m.o), |m.buf|);
      Settle(m.(l := Update(cs, m.l, m.i, m.o, m.buf), o := m.o + n, buf := m.buf[n..]), true)
    else if q.ip && m.o < q.End() then VisitIp(cs, m, did)
    else Settle(m, did)
  }

  predicate NextReady(cs: nat, w: Walk, n: Next) {
    match n
    case Leave(out) => Ready(cs, out.w) && (out.exit == Pressure || (out.exit == Finished && out.w.buf == []))
    case Continue(c) => Ready(cs, c) && |c.l| - c.i < |w.l| - w.i
    case Retry(c) => Ready(cs, c) && c.i < |c.l| && |c.l| - c.i == |w.l| - w.i
  }

  /** One visit of the loop body, from label do_insert_before. */
  function Visit(cs: nat, w: Walk): (n: Next)
    requires Ready(cs, w) && w.i < |w.l|
    ensures NextReady(cs, w, n)
    ensures n.Retry? ==>
              |n.w.buf| < |w.buf| ||
              (|n.w.buf| == |w.buf| && w.l[w.i].offset <= w.o && n.w.o < n.w.l[n.w.i].offset)
  {
    var ins := InsertRun(cs, w, w.l[w.i].offset);
    if ins.exit == Pressure then Leave(ins) else
    var (m, ret) := MergePrev(cs, ins.w);
    if ret == 2 then Continue(m) else Overlap(cs, m, ret != 0)
  }

  /** The new bytes start behind request i: go on to the next one, after removing request i if it
      lies under the bytes already written to prev_req. */
  function Skip(cs: nat, w: Walk): (v: Walk)
    requires Ready(cs, w) && w.i < |w.l|
    ensures Ready(cs, v) && |v.l| - v.i == |w.l| - w.i - 1 && v.buf == w.buf
  {
    var (m, ret) := MergePrev(cs, w);
    if ret == 2 then m else m.(i := m.i + 1)
  }

  /** The rest of the traversal, from request i on. */
  function Pass(cs: nat, w: Walk): (r: Outcome)
    requires Ready(cs, w)
    ensures Ready(cs, r.w)
    ensures r.exit == EndOfList ==> r.w.i == |r.w.l|
    ensures r.exit == Finished ==> r.w.buf == []
    decreases |w.l| - w.i, |w.buf|, 2
  {
    if w.i == |w.l| then Outcome(w, EndOfList)
    else if w.o > w.l[w.i].End() then
      Pass(cs, Skip(cs, w))
    else Resume(cs, w)
  }

  /** The traversal from label do_insert_before of request i on. */
  function Resume(cs: nat, w: Walk): (r: Outcome)
    requires Ready(cs, w) && w.i < |w.l|
    ensures Ready(cs, r.w)
    ensures r.exit == EndOfList ==> r.w.i == |r.w.l|
    ensures r.exit == Finished ==> r.w.buf == []
    decreases |w.l| - w.i, |w.buf|, if w.o < w.l[w.i].offset then 0 else 1
  {
    match Visit(cs, w)
    case Leave(out) => out
    case Continue(c) => Pass(cs, c)
    case Retry(c) => Resume(cs, c)
  }

  /** Put what fits into the last request, if the new bytes continue it. */
  function FillLast(cs: nat, w: Walk): (v: Walk)
    requires 0 < cs && Fits(w.l, cs)
    ensures Fits(v.l, cs) && v.i == |v.l| && !v.prev && |v.l| == |w.l|
  {
    var last := |w.l| - 1;
    if w.l != [] && |w.l[last].data| < cs && w.o == LastEnd(w.l) && !w.l[last].ip then
      var n := Min(Room(cs, w.l[last], w.o), |w.buf|);
      w.(l := Update(cs, w.l, last, w.o, w.buf), o := w.o + n, buf := w.buf[n..], i := |w.l|, prev := false)
    else w.(i := |w.l|, prev := false)
  }

  /** Writing at or past the end of the list, without a traversal. */
  function Append(cs: nat, w: Walk): (r: Outcome)
    requires 0 < cs && Fits(w.l, cs)
    ensures Fits(r.w.l, cs)
    ensures r.exit == Pressure || (r.exit == EndOfList && r.w.buf == [])
  {
    var v := FillLast(cs, w);
    InsertRun(cs, v, v.o + |v.buf|)
  }
}
