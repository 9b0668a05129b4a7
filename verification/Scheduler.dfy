/**
 The request-list operations of src/iosched/unified.c in their own form: lists edited step by step
 while the queue counters are kept up to date.

 A file's list is worked on in a local variable while its iosched_lock is held and put back at the
 end; the counters are shared and change as they do in the original. Each method is proved equal to
 the function of module Requests or Interleave that module WriteTheorem or InterleaveProofs reasons
 about, and each keeps every counter exact.
 */
module Scheduler {
  import opened Bytes
  import opened Requests
  import opened Ledger
  import opened WriteProofs
  import WriteTheorem

  datatype WriteRequest = WriteRequest(offset: nat, data: seq<byte>, state: State) {
    function End(): nat { offset + |data| }
  }

  function Abs(r: WriteRequest): Req { Req(r.offset, r.data, r.state.Ip?) }

  function AbsAll(l: seq<WriteRequest>): (a: seq<Req>)
    ensures |a| == |l| && forall i :: 0 <= i < |l| ==> a[i] == Abs(l[i])
  {
    seq(|l|, i requires 0 <= i < |l| => Abs(l[i]))
  }

  /** How many requests are in state s. */
  function Count(l: seq<WriteRequest>, s: State): nat {
    if l == [] then 0 else (if l[0].state == s then 1 else 0) + Count(l[1..], s)
  }

  lemma {:induction false} CountConcat(a: seq<WriteRequest>, b: seq<WriteRequest>, s: State)
    ensures Count(a + b, s) == Count(a, s) + Count(b, s)
  {
    if a == [] {
      assert a + b == b;
    } else {
      assert (a + b)[1..] == a[1..] + b;
      CountConcat(a[1..], b, s);
    }
  }

  lemma CountCut(l: seq<WriteRequest>, k: nat, s: State)
    requires k < |l|
    ensures Count(l, s) == Count(l[..k], s) + Bit(s == l[k].state) + Count(l[k + 1..], s)
  {
    assert l == l[..k] + ([l[k]] + l[k + 1..]);
    CountConcat(l[..k], [l[k]] + l[k + 1..], s);
    CountConcat([l[k]], l[k + 1..], s);
  }

  /** The counters of file d are the numbers of its requests in each state, except that those of the
      states in zero have been set to zero ahead of a flush. */
  predicate Tallied(b: Books, d: nat, l: seq<WriteRequest>, zero: set<State>) {
    forall s: State :: b.Of(s).Count(d) == if s in zero then 0 else Count(l, s)
  }

  lemma CountSet(l: seq<WriteRequest>, k: nat, r: WriteRequest)
    requires k < |l|
    ensures forall s: State :: Count(l[k := r], s) + Bit(s == l[k].state) == Count(l, s) + Bit(s == r.state)
  {
    forall s: State ensures Count(l[k := r], s) + Bit(s == l[k].state) == Count(l, s) + Bit(s == r.state) {
      CountCut(l, k, s);
      CountCut(l[k := r], k, s);
      assert l[k := r][..k] == l[..k] && l[k := r][k + 1..] == l[k + 1..];
    }
  }

  lemma CountInsert(l: seq<WriteRequest>, k: nat, r: WriteRequest)
    requires k <= |l|
    ensures forall s: State :: Count(l[..k] + [r] + l[k..], s) == Count(l, s) + Bit(s == r.state)
  {
    forall s: State ensures Count(l[..k] + [r] + l[k..], s) == Count(l, s) + Bit(s == r.state) {
      CountConcat(l[..k] + [r], l[k..], s);
      CountConcat(l[..k], [r], s);
      assert l == l[..k] + l[k..];
      CountConcat(l[..k], l[k..], s);
    }
  }

  lemma CountRemove(l: seq<WriteRequest>, k: nat)
    requires k < |l|
    ensures forall s: State :: Count(l[..k] + l[k + 1..], s) + Bit(s == l[k].state) == Count(l, s)
  {
    forall s: State ensures Count(l[..k] + l[k + 1..], s) + Bit(s == l[k].state) == Count(l, s) {
      CountCut(l, k, s);
      CountConcat(l[..k], l[k + 1..], s);
    }
  }

  /** Work on the list of file d: its requests, and the scheduler's books as they stand. */
  datatype Job = Job(d: nat, writeIp: bool, cs: nat, b: Books, l: seq<WriteRequest>, zero: set<State>)

  /** The books are exact, and d's counters match its list. */
  ghost predicate Booked(j: Job, hidden: set<nat>) {
    0 < j.cs && (j.d in hidden <==> j.writeIp) && Exact(j.b, hidden) && Tallied(j.b, j.d, j.l, j.zero)
  }

  /** Only a request that does not fill its block may wait for more bytes: a dirty one that does is in the queue of
      the data partition. */
  predicate Waits(cs: nat, w: WriteRequest) { w.state == Partial ==> |w.data| < cs }

  predicate Sealed(cs: nat, l: seq<WriteRequest>) { forall i :: 0 <= i < |l| ==> Waits(cs, l[i]) }

  ghost predicate Sound(j: Job, hidden: set<nat>) { Booked(j, hidden) && Sealed(j.cs, j.l) }

  lemma SealedSet(cs: nat, l: seq<WriteRequest>, k: nat, w: WriteRequest)
    requires Sealed(cs, l) && k < |l| && Waits(cs, w)
    ensures Sealed(cs, l[k := w])
  {
  }

  lemma SealedInsert(cs: nat, l: seq<WriteRequest>, k: nat, w: WriteRequest)
    requires Sealed(cs, l) && k <= |l| && Waits(cs, w)
    ensures Sealed(cs, l[..k] + [w] + l[k..])
  {
  }

  lemma SealedRemove(cs: nat, l: seq<WriteRequest>, k: nat)
    requires Sealed(cs, l) && k < |l|
    ensures Sealed(cs, l[..k] + l[k + 1..])
  {
  }

  /** k is a later stage of the same work: no other file's counters have moved. */
  ghost predicate Later(j: Job, k: Job) {
    k.d == j.d && k.writeIp == j.writeIp && k.cs == j.cs && k.zero == j.zero && OnlyFor(j.b, k.b, j.d)
  }

  lemma LaterTrans(i: Job, j: Job, k: Job)
    requires Later(i, j) && Later(j, k)
    ensures Later(i, k)
  {
    OnlyForTrans(i.b, j.b, k.b, i.d);
  }

  lemma BookedSet(j: Job, hidden: set<nat>, k: nat, r: WriteRequest)
    requires Booked(j, hidden) && k < |j.l| && r.state == j.l[k].state
    ensures Booked(j.(l := j.l[k := r]), hidden)
    ensures AbsAll(j.l[k := r]) == AbsAll(j.l)[k := Abs(r)]
  {
    CountSet(j.l, k, r);
  }

  lemma SoundSet(j: Job, hidden: set<nat>, k: nat, r: WriteRequest)
    requires Sound(j, hidden) && k < |j.l| && r.state == j.l[k].state && Waits(j.cs, r)
    ensures Sound(j.(l := j.l[k := r]), hidden)
    ensures AbsAll(j.l[k := r]) == AbsAll(j.l)[k := Abs(r)]
  {
    BookedSet(j, hidden, k, r);
    hide Booked;
    SealedSet(j.cs, j.l, k, r);
  }

  /** Changing the state of request k: leave one queue, enter another. */
  method ChangeState(j: Job, ghost hidden: set<nat>, k: nat, s: State) returns (r: Job)
    requires Booked(j, hidden) && k < |j.l| && j.l[k].state !in j.zero && s !in j.zero
    ensures Booked(r, hidden) && Later(j, r) && r.l == j.l[k := j.l[k].(state := s)]
  {
    var u := j.l[k := j.l[k].(state := s)];
    CountSet(j.l, k, u[k]);
    CountCut(j.l, k, j.l[k].state);
    hide Exact, OnlyFor, Enroll, Withdraw, Count;
    RestateOk(j.b, j.d, hidden, j.l[k].state, s);
    var b := Withdraw(j.b, false, j.l[k].state, j.d, j.writeIp);
    b := Enroll(b, s, j.d, j.writeIp);
    r := j.(l := u, b := b);
  }

  /** A new request goes into the list and onto the books. */
  method AddRequest(j: Job, ghost hidden: set<nat>, k: nat, w: WriteRequest) returns (r: Job)
    requires Sound(j, hidden) && k <= |j.l| && w.state !in j.zero && Waits(j.cs, w)
    ensures Sound(r, hidden) && Later(j, r) && r.l == j.l[..k] + [w] + j.l[k..]
  {
    SealedInsert(j.cs, j.l, k, w);
    hide Sealed;
    CountInsert(j.l, k, w);
    hide Exact, OnlyFor, Enroll, Count;
    EnrollOk(j.b, w.state, j.d, hidden);
    var b := Enroll(j.b, w.state, j.d, j.writeIp);
    r := j.(l := j.l[..k] + [w] + j.l[k..], b := b);
  }

  /** Request k leaves the list and the books. */
  method RemoveRequest(j: Job, ghost hidden: set<nat>, k: nat) returns (r: Job)
    requires Sound(j, hidden) && k < |j.l|
    ensures Sound(r, hidden) && Later(j, r) && r.l == j.l[..k] + j.l[k + 1..]
  {
    SealedRemove(j.cs, j.l, k);
    hide Sealed;
    CountRemove(j.l, k);
    CountCut(j.l, k, j.l[k].state);
    hide Exact, OnlyFor, Withdraw, Count;
    WithdrawOk(j.b, false, j.l[k].state, j.d, hidden);
    var b := Withdraw(j.b, false, j.l[k].state, j.d, j.writeIp);
    r := j.(l := j.l[..k] + j.l[k + 1..], b := b);
  }

  /** The loop over w_req in `_unified_update_request`: every partial request up to offset o becomes
      ready for writing. */
  method PromotePartials(j: Job, ghost hidden: set<nat>, o: nat) returns (r: Job)
    requires Booked(j, hidden) && j.zero == {}
    ensures Booked(r, hidden) && Later(j, r) && |r.l| == |j.l| && AbsAll(r.l) == AbsAll(j.l)
    ensures forall m :: 0 <= m < |j.l| ==>
              r.l[m] == if j.l[m].state == Partial && j.l[m].offset <= o then j.l[m].(state := Dp) else j.l[m]
  {
    hide Exact, Tallied;
    r := j;
    for i := 0 to |j.l|
      invariant |r.l| == |j.l| && Booked(r, hidden) && Later(j, r)
      invariant forall m :: 0 <= m < |j.l| ==>
                  r.l[m] == if m < i && j.l[m].state == Partial && j.l[m].offset <= o then j.l[m].(state := Dp)
                            else j.l[m]
    {
      if r.l[i].state == Partial && r.l[i].offset <= o {
        var q := ChangeState(r, hidden, i, Dp);
        LaterTrans(j, r, q);
        r := q;
      }
    }
    assert AbsAll(r.l) == AbsAll(j.l);
  }

  /** `_unified_update_request`: copy bytes into request k at file offset o. */
  method UpdateRequest(j: Job, ghost hidden: set<nat>, k: nat, o: nat, buf: seq<byte>) returns (r: Job, n: nat)
    requires Sound(j, hidden) && k < |j.l| && j.l[k].offset <= o <= j.l[k].End() && |j.l[k].data| <= j.cs
    requires j.zero == {} || j.l[k].state != Partial
    ensures Sound(r, hidden) && Later(j, r)
    ensures AbsAll(r.l) == Update(j.cs, AbsAll(j.l), k, o, buf) && n == Min(Room(j.cs, Abs(j.l[k]), o), |buf|)
    ensures |r.l| == |j.l|
    ensures forall m :: 0 <= m < |j.l| && m != k ==> r.l[m] == j.l[m].(state := r.l[m].state)
    ensures forall m :: 0 <= m < |j.l| ==>
              r.l[m].state == if j.l[k].state == Partial && |r.l[k].data| == j.cs && j.l[m].state == Partial &&
                                 j.l[m].offset <= o then Dp else j.l[m].state
    ensures j.l[k].state != Partial ==> r.l == j.l[k := r.l[k]]
  {
    hide Exact, Tallied, Booked;
    var w := j.l[k];
    if buf == [] {
      assert Grown(Abs(w), o, []) == Abs(w);
      assert AbsAll(j.l)[k := Abs(w)] == AbsAll(j.l);
      return j, 0;
    }
    var at := o - w.offset;
    n := Min(w.offset + j.cs - o, |buf|);
    var g := w.(data := w.data[..at] + buf[..n] + w.data[Min(at + n, |w.data|)..]);
    BookedSet(j, hidden, k, g);
    r := j.(l := j.l[k := g]);
    if w.state == Partial && |g.data| == j.cs {
      var q := PromotePartials(r, hidden, o);
      LaterTrans(j, r, q);
      r := q;
    }
  }

  // ----- `unified_write`

  /** The local variables of `unified_write`. */
  datatype Cursor = Cursor(j: Job, i: nat, prev: bool, o: nat, buf: seq<byte>, spare: bool, grants: nat)

  function WalkOf(c: Cursor): Walk { Walk(AbsAll(c.j.l), c.i, c.prev, c.o, c.buf, c.spare, c.grants) }

  lemma AbsInsert(l: seq<WriteRequest>, k: nat, r: WriteRequest)
    requires k <= |l|
    ensures AbsAll(l[..k] + [r] + l[k..]) == AbsAll(l)[..k] + [Abs(r)] + AbsAll(l)[k..]
  {
  }

  lemma AbsRemove(l: seq<WriteRequest>, k: nat)
    requires k < |l|
    ensures AbsAll(l[..k] + l[k + 1..]) == Removed(AbsAll(l), k)
  {
  }

  lemma AbsSet(l: seq<WriteRequest>, k: nat, r: WriteRequest)
    requires k < |l|
    ensures AbsAll(l[k := r]) == AbsAll(l)[k := Abs(r)]
  {
  }

  /** The first half of `_unified_merge_requests`: bytes of request i move into request i - 1. */
  method AbsorbNext(j: Job, ghost hidden: set<nat>, i: nat) returns (r: Job, n: nat)
    requires Sound(j, hidden) && 0 < i < |j.l| && Fits(AbsAll(j.l), j.cs) && j.l[i].offset <= j.l[i - 1].End()
    requires j.zero == {} || j.l[i].state == Ip
    ensures Sound(r, hidden) && Later(j, r) && r.zero == j.zero && r.cs == j.cs
    ensures var dest, src := Abs(j.l[i - 1]), Abs(j.l[i]);
            n == |Moved(j.cs, dest, src)| && AbsAll(r.l) == AbsAll(j.l)[i - 1 := Taker(j.cs, dest, src)]
    ensures j.l[i].state == Ip ==>
              |r.l| == |j.l| && r.l[i - 1].state == j.l[i - 1].state && r.l == j.l[i - 1 := r.l[i - 1]]
    ensures j.l[i].state == Ip && j.l[i - 1].state != Ip ==> r.l == j.l
  {
    hide Exact, Tallied;
    var dest, src := j.l[i - 1], j.l[i];
    assert 0 < |AbsAll(j.l)[i - 1].data| <= j.cs;
    var skip := dest.End() - src.offset;
    if !(dest.state != src.state && (dest.state == Ip || src.state == Ip)) && |dest.data| < j.cs && |src.data| > skip {
      r, n := UpdateRequest(j, hidden, i - 1, dest.End(), src.data[skip..]);
    } else {
      r, n := j, 0;
      assert AbsAll(j.l)[i - 1 := Abs(dest)] == AbsAll(j.l);
    }
  }

  /** Request i loses its first bytes; a request that was ready for writing is partial again. */
  method CutSource(j: Job, ghost hidden: set<nat>, i: nat, cut: nat) returns (r: Job)
    requires Sound(j, hidden) && i < |j.l| && (j.zero == {} || j.l[i].state == Ip)
    requires 0 < cut < |j.l[i].data| <= j.cs
    ensures Sound(r, hidden) && Later(j, r)
    ensures |r.l| == |j.l| && r.l == j.l[i := r.l[i]]
    ensures r.l[i].state == if j.l[i].state == Dp then Partial else j.l[i].state
    ensures AbsAll(r.l) == AbsAll(j.l)[i := Req(j.l[i].offset + cut, j.l[i].data[cut..], j.l[i].state.Ip?)]
  {
    hide Exact, Tallied, Booked;
    var w := j.l[i];
    var rest := WriteRequest(w.offset + cut, w.data[cut..], w.state);
    SoundSet(j, hidden, i, rest);
    r := j.(l := j.l[i := rest]);
    if rest.state == Dp {
      AbsSet(r.l, i, rest.(state := Partial));
      var m := ChangeState(r, hidden, i, Partial);
      LaterTrans(j, r, m);
      r := m;
    }
  }

  /** What is left of request i after its first cut bytes are gone. */
  function Shortened(a: seq<Req>, i: nat, cut: nat): seq<Req>
    requires i < |a|
  {
    if cut == 0 then a
    else if cut < |a[i].data| then a[i := Req(a[i].offset + cut, a[i].data[cut..], a[i].ip)]
    else Removed(a, i)
  }

  lemma MergeInSteps(cs: nat, a: seq<Req>, i: nat)
    requires 0 < i < |a| && Fits(a, cs) && a[i].offset <= a[i - 1].End()
    ensures var d, cut := Taker(cs, a[i - 1], a[i]), Cut(cs, a[i - 1], a[i]);
            Merge(cs, a, i) == Merged(Shortened(a[i - 1 := d], i, cut),
                                      if cut == 0 then 0 else if cut < |a[i].data| then 1 else 2)
  {
    var d, cut := Taker(cs, a[i - 1], a[i]), Cut(cs, a[i - 1], a[i]);
    assert Removed(a[i - 1 := d], i) == a[..i - 1] + [d] + a[i + 1..];
    if cut == 0 { assert a[i - 1 := d] == a; }
  }

  /** Merging replica i changes no state, no dirty request and no request behind it. */
  predicate ReplicaMerged(l: seq<WriteRequest>, r: seq<WriteRequest>, i: nat, ret: int)
    requires i < |l|
  {
    && |r| == (if ret == 2 then |l| - 1 else |l|)
    && (forall m :: 0 <= m < i ==> r[m].state == l[m].state && (l[m].state != Ip ==> r[m] == l[m]))
    && (ret == 2 ==> forall m :: i <= m < |r| ==> r[m] == l[m + 1])
    && (ret != 2 ==> r[i].state == Ip && forall m :: i < m < |r| ==> r[m] == l[m])
  }

  lemma ReplicaUntouched(l: seq<WriteRequest>, i: nat)
    requires i < |l|
    ensures l[i].state == Ip ==> ReplicaMerged(l, l, i, 0)
  {
  }

  lemma ReplicaChain(l: seq<WriteRequest>, m: seq<WriteRequest>, r: seq<WriteRequest>, i: nat, ret: int)
    requires 0 < i < |l| == |m| && m[i - 1].state == l[i - 1].state && m == l[i - 1 := m[i - 1]]
    requires (l[i - 1].state != Ip ==> m == l) && ReplicaMerged(m, r, i, ret)
    ensures ReplicaMerged(l, r, i, ret)
  {
  }

  /** The second half of `_unified_merge_requests`: request i is trimmed or removed. */
  method TrimSource(j: Job, ghost hidden: set<nat>, i: nat, cut: nat) returns (r: Job, ret: int)
    requires Sound(j, hidden) && i < |j.l| && (j.zero == {} || j.l[i].state == Ip) && |j.l[i].data| <= j.cs
    ensures Sound(r, hidden) && Later(j, r) && AbsAll(r.l) == Shortened(AbsAll(j.l), i, cut)
    ensures ret == if cut == 0 then 0 else if cut < |j.l[i].data| then 1 else 2
    ensures j.l[i].state == Ip ==> ReplicaMerged(j.l, r.l, i, ret)
  {
    assert AbsAll(j.l)[i] == Abs(j.l[i]);
    if cut == 0 {
      r, ret := j, 0;
    } else if cut < |j.l[i].data| {
      r := CutSource(j, hidden, i, cut);
      ret := 1;
    } else {
      AbsRemove(j.l, i);
      r := RemoveRequest(j, hidden, i);
      ret := 2;
    }
  }

  /** `_unified_merge_requests` of request i into request i - 1, with a spare block to fill. */
  method MergeRequests(c: Cursor, ghost hidden: set<nat>) returns (r: Cursor, ret: int)
    requires Sound(c.j, hidden) && Ready(c.j.cs, WalkOf(c)) && c.prev && c.i < |c.j.l|
    requires c.j.zero == {} || c.j.l[c.i].state == Ip
    ensures Sound(r.j, hidden) && Later(c.j, r.j) && (WalkOf(r), ret) == MergePrev(c.j.cs, WalkOf(c))
    ensures c.j.l[c.i].state == Ip ==> ReplicaMerged(c.j.l, r.j.l, c.i, ret)
  {
    hide Sound, Later, Taker, Shortened, Moved, ReplicaMerged;
    ghost var a := AbsAll(c.j.l);
    var dest, src := c.j.l[c.i - 1], c.j.l[c.i];
    assert a[c.i - 1] == Abs(dest) && a[c.i] == Abs(src) && |a[c.i].data| <= c.j.cs;
    if src.offset > dest.End() {
      LaterSelf(c.j);
      ReplicaUntouched(c.j.l, c.i);
      return c, 0;
    }
    var j, n := AbsorbNext(c.j, hidden, c.i);
    MergeInSteps(c.j.cs, a, c.i);
    hide Merge, Fits;
    assert AbsAll(j.l)[c.i] == a[c.i] == Abs(j.l[c.i]);
    var k;
    k, ret := TrimSource(j, hidden, c.i, dest.End() - src.offset + n);
    LaterTrans(c.j, j, k);
    if src.state == Ip { ReplicaChain(c.j.l, j.l, k.l, c.i, ret); }
    r := c.(j := k, spare := c.spare || ret == 2);
  }

  lemma LaterSelf(j: Job)
    ensures Later(j, j)
  {
  }

  /** `_unified_insert_new_request` before request i; without a spare block and with an exhausted pool it
      gives up (after waiting for a block, which it then holds). */
  method InsertNewRequest(c: Cursor, ghost hidden: set<nat>) returns (r: Cursor, ok: bool)
    requires Sound(c.j, hidden) && Ready(c.j.cs, WalkOf(c)) && c.buf != [] && c.j.zero == {}
    ensures Sound(r.j, hidden) && Later(c.j, r.j) && ok == CanAlloc(WalkOf(c))
    ensures ok ==> WalkOf(r) == Inserted(c.j.cs, WalkOf(c))
    ensures ok ==> |r.j.l| == |c.j.l| + 1 && r.j.l[..c.i] == c.j.l[..c.i] && r.j.l[c.i + 1..] == c.j.l[c.i..]
    ensures ok ==> r.j.l[c.i].state != Ip && (|r.j.l[c.i].data| < c.j.cs ==> r.j.l[c.i].state == Partial)
    ensures !ok ==> r == c.(spare := true)
  {
    hide Exact, Tallied, Fits;
    if !c.spare && c.grants == 0 {
      return c.(spare := true), false;
    }
    var n := Min(c.j.cs, |c.buf|);
    var w := WriteRequest(c.o, c.buf[..n], if n == c.j.cs then Dp else Partial);
    AbsInsert(c.j.l, c.i, w);
    var j := AddRequest(c.j, hidden, c.i, w);
    r := c.(j := j, i := c.i + 1, prev := true, o := c.o + n, buf := c.buf[n..],
            spare := false, grants := if c.spare then c.grants else c.grants - 1);
    ok := true;
  }

  /** `while (size > 0 && offset < limit)` around the insertion. */
  method InsertBefore(c: Cursor, ghost hidden: set<nat>, limit: nat) returns (r: Cursor, ok: bool)
    requires Sound(c.j, hidden) && c.j.zero == {} && Ready(c.j.cs, WalkOf(c))
    ensures Sound(r.j, hidden) && Later(c.j, r.j)
    ensures Outcome(WalkOf(r), if ok then EndOfList else Pressure) == InsertRun(c.j.cs, WalkOf(c), limit)
  {
    hide Exact, Tallied, Inserted;
    r, ok := c, true;
    while r.buf != [] && r.o < limit
      invariant Sound(r.j, hidden) && Later(c.j, r.j) && Ready(c.j.cs, WalkOf(r))
      invariant InsertRun(c.j.cs, WalkOf(r), limit) == InsertRun(c.j.cs, WalkOf(c), limit)
      decreases |r.buf|
    {
      var q, done := InsertNewRequest(r, hidden);
      LaterTrans(c.j, r.j, q.j);
      r := q;
      if !done {
        ok := false;
        return;
      }
    }
  }

  /** How a visit of the loop body ended. */
  datatype Verdict = Done | Full | Onward | Again

  function NextOf(v: Verdict, c: Cursor): Next {
    match v
    case Done => Requests.Leave(Outcome(WalkOf(c), Finished))
    case Full => Requests.Leave(Outcome(WalkOf(c), Pressure))
    case Onward => Continue(WalkOf(c))
    case Again => Retry(WalkOf(c))
  }

  /** The bottom of the loop. */
  method Bottom(c: Cursor, did: bool) returns (r: Cursor, v: Verdict)
    ensures NextOf(v, r) == Settle(WalkOf(c), did) && r.j == c.j
  {
    r := c.(prev := true, i := c.i + 1);
    v := if c.buf == [] && !did then Done else Onward;
  }

  /** A replica request under the new bytes is removed, cut at either end or split. */
  method ResolveIp(c: Cursor, ghost hidden: set<nat>, did: bool) returns (r: Cursor, v: Verdict)
    requires Sound(c.j, hidden) && c.j.zero == {} && Ready(c.j.cs, WalkOf(c)) && c.i < |c.j.l| && c.buf != []
    requires c.j.l[c.i].state == Ip && c.j.l[c.i].offset <= c.o < c.j.l[c.i].End()
    ensures Sound(r.j, hidden) && Later(c.j, r.j)
    ensures NextOf(v, r) == VisitIp(c.j.cs, WalkOf(c), did)
  {
    LaterSelf(c.j);
    hide Exact, Tallied, Fits, SplitInTwo, Removed, OnlyFor;
    var q, size := c.j.l[c.i], |c.buf|;
    assert AbsAll(c.j.l)[c.i] == Abs(q);
    if c.o == q.offset {
      r, v := DropFront(c, hidden, did);
    } else if c.o + size >= q.End() {
      var w := q.(data := q.data[..c.o - q.offset]);
      SoundSet(c.j, hidden, c.i, w);
      r, v := Bottom(c.(j := c.j.(l := c.j.l[c.i := w])), did);
    } else if !c.spare && c.grants == 0 {
      r, v := c.(spare := true), Full;
    } else {
      var j := SplitIp(c.j, hidden, c.i, c.o - q.offset, size);
      r := c.(j := j, i := c.i + 1, prev := true, spare := false, grants := if c.spare then c.grants else c.grants - 1);
      v := Again;
    }
  }

  /** The new bytes start where the replica does: it goes, or loses its front. */
  method DropFront(c: Cursor, ghost hidden: set<nat>, did: bool) returns (r: Cursor, v: Verdict)
    requires Sound(c.j, hidden) && c.j.zero == {} && Ready(c.j.cs, WalkOf(c)) && c.i < |c.j.l| && c.buf != []
    requires c.j.l[c.i].state == Ip && c.j.l[c.i].offset == c.o < c.j.l[c.i].End()
    ensures Sound(r.j, hidden) && Later(c.j, r.j)
    ensures NextOf(v, r) == VisitIp(c.j.cs, WalkOf(c), did)
  {
    LaterSelf(c.j);
    hide Exact, Tallied, Fits, SplitInTwo, Removed, OnlyFor, Settle;
    var q, size := c.j.l[c.i], |c.buf|;
    assert AbsAll(c.j.l)[c.i] == Abs(q);
    if size >= |q.data| {
      AbsRemove(c.j.l, c.i);
      var j := RemoveRequest(c.j, hidden, c.i);
      r, v := c.(j := j, spare := true), Onward;
    } else {
      var w := WriteRequest(q.offset + size, q.data[size..], Ip);
      SoundSet(c.j, hidden, c.i, w);
      r, v := c.(j := c.j.(l := c.j.l[c.i := w])), Again;
    }
  }

  /** The tail of a replica becomes a request of its own, the part under the new bytes is dropped. */
  method SplitIp(j: Job, ghost hidden: set<nat>, i: nat, at: nat, size: nat) returns (r: Job)
    requires Sound(j, hidden) && j.zero == {} && i < |j.l| && j.l[i].state == Ip && 0 < at && at + size < |j.l[i].data|
    ensures Sound(r, hidden) && Later(j, r)
    ensures var q := j.l[i];
            AbsAll(r.l) == SplitInTwo(AbsAll(j.l), i, Req(q.offset, q.data[..at], true),
                                      Req(q.offset + (at + size), q.data[at + size..], true))
  {
    hide Exact, Tallied;
    var q := j.l[i];
    var tail := WriteRequest(q.offset + (at + size), q.data[at + size..], Ip);
    var head := q.(data := q.data[..at]);
    var k := AddRequest(j, hidden, i + 1, tail);
    SoundSet(k, hidden, i, head);
    r := k.(l := k.l[i := head]);
    assert AbsAll(r.l) == SplitInTwo(AbsAll(j.l), i, Abs(head), Abs(tail));
  }

  /** Resolve the overlap between the new bytes and request i. */
  method ResolveOverlap(c: Cursor, ghost hidden: set<nat>, did: bool) returns (r: Cursor, v: Verdict)
    requires Sound(c.j, hidden) && c.j.zero == {} && Ready(c.j.cs, WalkOf(c)) && c.i < |c.j.l|
    ensures Sound(r.j, hidden) && Later(c.j, r.j)
    ensures NextOf(v, r) == Overlap(c.j.cs, WalkOf(c), did)
  {
    hide Exact, Tallied, VisitIp, Settle, Update;
    var q := c.j.l[c.i];
    assert AbsAll(c.j.l)[c.i] == Abs(q);
    if c.buf == [] {
      r, v := Bottom(c, did);
    } else if c.o < q.offset {
      r, v := c, Again;
    } else if q.state != Ip && (c.o < q.End() || (c.o == q.End() && |q.data| < c.j.cs)) {
      var j, n := UpdateRequest(c.j, hidden, c.i, c.o, c.buf);
      r, v := Bottom(c.(j := j, o := c.o + n, buf := c.buf[n..]), true);
    } else if q.state == Ip && c.o < q.End() {
      r, v := ResolveIp(c, hidden, did);
    } else {
      r, v := Bottom(c, did);
    }
  }

  /** One visit of the loop body, from label do_insert_before. */
  method VisitRequest(c: Cursor, ghost hidden: set<nat>) returns (r: Cursor, v: Verdict)
    requires Sound(c.j, hidden) && c.j.zero == {} && Ready(c.j.cs, WalkOf(c)) && c.i < |c.j.l|
    ensures Sound(r.j, hidden) && Later(c.j, r.j)
    ensures NextOf(v, r) == Visit(c.j.cs, WalkOf(c))
  {
    hide Exact, Tallied, InsertRun, MergePrev, Overlap;
    assert AbsAll(c.j.l)[c.i].offset == c.j.l[c.i].offset;
    var a, ok := InsertBefore(c, hidden, c.j.l[c.i].offset);
    if !ok {
      return a, Full;
    }
    var m, ret := a, 0;
    if a.prev {
      m, ret := MergeRequests(a, hidden);
      LaterTrans(c.j, a.j, m.j);
    } else {
      MergeNothing(a.j.cs, WalkOf(a));
    }
    if ret == 2 {
      return m, Onward;
    }
    r, v := ResolveOverlap(m, hidden, ret != 0);
    LaterTrans(c.j, m.j, r.j);
  }

  lemma MergeNothing(cs: nat, w: Walk)
    requires Ready(cs, w) && w.i < |w.l| && !w.prev
    ensures MergePrev(cs, w) == (w, 0)
  {
  }

  /** The traversal of the request list. */
  method Traverse(c: Cursor, ghost hidden: set<nat>) returns (r: Cursor, exit: Exit)
    requires Sound(c.j, hidden) && c.j.zero == {} && Ready(c.j.cs, WalkOf(c))
    ensures Sound(r.j, hidden) && Later(c.j, r.j)
    ensures Outcome(WalkOf(r), exit) == Pass(c.j.cs, WalkOf(c))
  {
    hide Exact, Tallied, Visit, MergePrev, Fits;
    ghost var cs := c.j.cs;
    r := c;
    while r.i < |r.j.l|
      invariant Sound(r.j, hidden) && Later(c.j, r.j) && Ready(cs, WalkOf(r))
      invariant Pass(cs, WalkOf(r)) == Pass(cs, WalkOf(c))
      decreases |r.j.l| - r.i
    {
      assert AbsAll(r.j.l)[r.i].End() == r.j.l[r.i].End();
      if r.o > r.j.l[r.i].End() {
        var m, ret := r, 0;
        if r.prev {
          m, ret := MergeRequests(r, hidden);
          LaterTrans(c.j, r.j, m.j);
        } else {
          MergeNothing(cs, WalkOf(r));
        }
        r := if ret == 2 then m else m.(i := m.i + 1);
      } else {
        ghost var rank := |r.j.l| - r.i;
        var again := true;
        while again
          invariant Sound(r.j, hidden) && Later(c.j, r.j) && Ready(cs, WalkOf(r))
          invariant again ==> r.i < |r.j.l| && |r.j.l| - r.i == rank && Resume(cs, WalkOf(r)) == Pass(cs, WalkOf(c))
          invariant !again ==> |r.j.l| - r.i < rank && Pass(cs, WalkOf(r)) == Pass(cs, WalkOf(c))
          decreases again, |r.buf|, if r.i < |r.j.l| && r.o < r.j.l[r.i].offset then 0 else 1
        {
          var q, v := VisitRequest(r, hidden);
          LaterTrans(c.j, r.j, q.j);
          assert AbsAll(r.j.l)[r.i].offset == r.j.l[r.i].offset;
          r := q;
          if v == Done {
            return r, Finished;
          } else if v == Full {
            return r, Pressure;
          }
          again := v == Again;
        }
      }
    }
    exit := EndOfList;
  }

  /** Put what fits into the last request, if the new bytes continue it. */
  method FillLastRequest(c: Cursor, ghost hidden: set<nat>) returns (r: Cursor)
    requires Sound(c.j, hidden) && c.j.zero == {} && Fits(AbsAll(c.j.l), c.j.cs)
    ensures Sound(r.j, hidden) && Later(c.j, r.j)
    ensures WalkOf(r) == FillLast(c.j.cs, WalkOf(c))
  {
    hide Exact, Tallied, Update;
    r := c.(i := |c.j.l|, prev := false);
    var last := |c.j.l| - 1;
    if |c.j.l| > 0 {
      assert AbsAll(c.j.l)[last] == Abs(c.j.l[last]);
      if |c.j.l[last].data| < c.j.cs && c.o == c.j.l[last].End() && c.j.l[last].state != Ip {
        var j, n := UpdateRequest(c.j, hidden, last, c.o, c.buf);
        assert |AbsAll(j.l)| == |j.l|;
        r := r.(j := j, o := c.o + n, buf := c.buf[n..]);
      }
    }
  }

  /** Writing at or past the end of the list. */
  method AppendRequests(c: Cursor, ghost hidden: set<nat>) returns (r: Cursor, exit: Exit)
    requires Sound(c.j, hidden) && c.j.zero == {} && Fits(AbsAll(c.j.l), c.j.cs)
    ensures Sound(r.j, hidden) && Later(c.j, r.j)
    ensures Outcome(WalkOf(r), exit) == Append(c.j.cs, WalkOf(c))
  {
    hide Exact, Tallied, InsertRun, FillLast, OnlyFor;
    var a := FillLastRequest(c, hidden);
    var q, ok := InsertBefore(a, hidden, a.o + |a.buf|);
    LaterTrans(c.j, a.j, q.j);
    return q, if ok then EndOfList else Pressure;
  }

  /** `unified_write` from label do_append, for one stretch with iosched_lock held. */
  method WriteRequests(c: Cursor, ghost hidden: set<nat>) returns (r: Cursor, exit: Exit)
    requires Sound(c.j, hidden) && c.j.zero == {} && WellFormed(AbsAll(c.j.l), c.j.cs) && c.buf != []
    ensures Sound(r.j, hidden) && Later(c.j, r.j)
    ensures Outcome(WalkOf(r), exit) == WriteTheorem.Write(c.j.cs, WalkOf(c))
  {
    hide Exact, Tallied, Pass, Append;
    ghost var cs := c.j.cs;
    r := c;
    while true
      invariant Sound(r.j, hidden) && Later(c.j, r.j) && Fits(AbsAll(r.j.l), cs) && r.buf != []
      invariant LastEnd(AbsAll(r.j.l)) <= r.o || Ordered(AbsAll(r.j.l))
      invariant WriteTheorem.Write(cs, WalkOf(r)) == WriteTheorem.Write(cs, WalkOf(c))
      decreases if LastEnd(AbsAll(r.j.l)) <= r.o then 0 else 1 + |r.j.l|
    {
      var end := if |r.j.l| == 0 then 0 else r.j.l[|r.j.l| - 1].End();
      assert end == LastEnd(AbsAll(r.j.l));
      if end <= r.o {
        var q, e := AppendRequests(r, hidden);
        LaterTrans(c.j, r.j, q.j);
        return q, e;
      }
      WriteTheorem.RoundEnds(cs, WalkOf(r));
      var start := r.(i := 0, prev := false);
      var q, e := Traverse(start, hidden);
      LaterTrans(c.j, r.j, q.j);
      if !(e == EndOfList && q.buf != []) {
        return q, e;
      }
      r := q;
    }
  }
}
