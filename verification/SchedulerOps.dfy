/** Truncating, flushing and re-targeting a file's request list, step by step. */
module SchedulerOps {
  import opened Bytes
  import opened Requests
  import opened Ledger
  import opened Scheduler
  import Interleave

  /** One turn of the loop: a request behind the length goes, one across it is cut. */
  method TruncateRequest(r: Job, ghost hidden: set<nat>, i: nat, len: nat) returns (q: Job)
    requires Sound(r, hidden) && Ordered(AbsAll(r.l)) && i == |r.l| - 1 && (len < r.l[i].End() || len <= r.l[i].offset)
    ensures Sound(q, hidden) && Later(r, q) && Ordered(AbsAll(q.l))
    ensures Interleave.TrimTo(AbsAll(q.l), len) == Interleave.TrimTo(AbsAll(r.l), len)
    ensures i <= |q.l| && (i < |q.l| ==> Trimmed(q.l, i, len)) && SameStates(r.l, q.l)
  {
    hide Exact, Tallied, Fits;
    var w := r.l[i];
    assert AbsAll(r.l)[i] == Abs(w);
    if w.offset >= len {
      AbsRemove(r.l, i);
      assert Removed(AbsAll(r.l), i) == AbsAll(r.l)[..|r.l| - 1];
      q := RemoveRequest(r, hidden, i);
    } else {
      var g := w.(data := w.data[..len - w.offset]);
      SoundSet(r, hidden, i, g);
      assert AbsAll(r.l)[i := Abs(g)] == AbsAll(r.l)[..i] + [Abs(g)];
      q := r.(l := r.l[i := g]);
    }
  }

  /** A request in front of one that ends at the length needs no cut. */
  lemma TrimmedFront(l: seq<WriteRequest>, i: nat, len: nat)
    requires i + 1 < |l| && Ordered(AbsAll(l)) && Trimmed(l, i + 1, len)
    ensures l[i].offset < len && l[i].End() <= len
  {
    assert AbsAll(l)[i] == Abs(l[i]) && AbsAll(l)[i + 1] == Abs(l[i + 1]);
  }

  /** The request part of `unified_truncate`: the list is cut from its end. */
  method TruncateRequests(j: Job, ghost hidden: set<nat>, len: nat) returns (r: Job)
    requires Sound(j, hidden) && j.zero == {} && WellFormed(AbsAll(j.l), j.cs)
    ensures Sound(r, hidden) && Later(j, r)
    ensures AbsAll(r.l) == Interleave.TrimTo(AbsAll(j.l), len) && SameStates(j.l, r.l)
  {
    hide Exact, Tallied, Fits, Interleave.TrimTo, Ordered, Sound, Later;
    r := j;
    LaterSelf(j);
    var i := |j.l|;
    while 0 < i
      invariant 0 <= i <= |r.l| && Sound(r, hidden) && Later(j, r) && Ordered(AbsAll(r.l))
      invariant Interleave.TrimTo(AbsAll(r.l), len) == Interleave.TrimTo(AbsAll(j.l), len)
      invariant (i < |r.l| ==> Trimmed(r.l, i, len)) && SameStates(j.l, r.l)
    {
      i := i - 1;
      if i + 1 < |r.l| { TrimmedFront(r.l, i, len); }
      if r.l[i].offset < len && r.l[i].End() <= len { break; }
      var q := TruncateRequest(r, hidden, i, len);
      LaterTrans(j, r, q);
      r := q;
    }
    TrimDone(r.l, i, len);
  }

  /** r is no longer than l, and what is left is in the same state. */
  predicate SameStates(l: seq<WriteRequest>, r: seq<WriteRequest>) {
    |r| <= |l| && forall m :: 0 <= m < |r| ==> r[m].state == l[m].state
  }

  /** The last request ends exactly at the new length. */
  predicate Trimmed(l: seq<WriteRequest>, i: nat, len: nat)
    requires i < |l|
  {
    i == |l| - 1 && l[i].offset < len && l[i].End() == len
  }

  lemma TrimDone(l: seq<WriteRequest>, i: nat, len: nat)
    requires i <= |l| && (|l| == 0 || l[|l| - 1].End() <= len) && (|l| > 0 ==> l[|l| - 1].offset < len)
    ensures Interleave.TrimTo(AbsAll(l), len) == AbsAll(l)
  {
    if |l| > 0 { assert AbsAll(l)[|l| - 1] == Abs(l[|l| - 1]); }
  }

  // ----- flushing

  /** The states whose requests a flush sends to tape: all dirty ones, or only the full blocks. */
  predicate Picks(all: bool, s: State) { s == Dp || (all && s == Partial) }

  function PickSet(all: bool): set<State> { if all then {Dp, Partial} else {Dp} }

  function Offsets(l: seq<WriteRequest>, all: bool): set<nat> {
    set i | 0 <= i < |l| && Picks(all, l[i].state) :: l[i].offset
  }

  /** From position i on the requests to be written are those whose offset is in pick. */
  predicate Ahead(l: seq<WriteRequest>, i: nat, all: bool, pick: set<nat>) {
    forall m :: i <= m < |l| ==> l[m].state == Ip || (Picks(all, l[m].state) <==> l[m].offset in pick)
  }

  predicate Behind(l: seq<WriteRequest>, i: nat, all: bool) {
    forall m :: 0 <= m < i <= |l| ==> !Picks(all, l[m].state)
  }

  lemma Apart(a: seq<Req>, i: nat, k: nat)
    requires i < k < |a| && Ordered(a) && |a[i].data| > 0
    ensures a[i].offset != a[k].offset
  {
  }

  lemma AheadAtStart(l: seq<WriteRequest>, all: bool, cs: nat)
    requires WellFormed(AbsAll(l), cs)
    ensures Ahead(l, 0, all, Offsets(l, all))
  {
    ghost var a := AbsAll(l);
    forall m | 0 <= m < |l| ensures l[m].state == Ip || (Picks(all, l[m].state) <==> l[m].offset in Offsets(l, all)) {
      forall k | 0 <= k < |l| && k != m ensures l[k].offset != l[m].offset {
        assert a[k] == Abs(l[k]) && a[m] == Abs(l[m]);
        if k < m { Apart(a, k, m); } else { Apart(a, m, k); }
      }
    }
  }

  /** The remaining requests of l after one visit of position i are those of r from next on. */
  predicate Shifted(l: seq<WriteRequest>, i: nat, r: seq<WriteRequest>, next: nat) {
    && i < |l| && next <= |r| && |r| - next == |l| - i - 1
    && (forall m :: next <= m < |r| ==> r[m] == l[m - next + i + 1])
    && (forall m :: 0 <= m < next ==> r[m].state == Ip || (m < i && r[m] == l[m]))
    && (forall m :: 0 <= m < i && l[m].state != Ip ==> m < next && r[m] == l[m])
  }

  lemma ShiftedKeeps(l: seq<WriteRequest>, i: nat, r: seq<WriteRequest>, next: nat, all: bool, pick: set<nat>)
    requires Shifted(l, i, r, next) && Ahead(l, i, all, pick) && Behind(l, i, all)
    ensures Ahead(r, next, all, pick) && Behind(r, next, all)
  {
  }

  /** What a step of a flush does to the dirty requests: none is new or changed, and if only full blocks are written,
      none that waits for more bytes goes. */
  predicate Sifted(l: seq<WriteRequest>, r: seq<WriteRequest>, writeIp: bool, all: bool) {
    && (forall w :: w in r && w.state != Ip ==> w in l)
    && (!all ==> forall w :: w in l && w.state == Partial ==> w in r)
    && (!writeIp && NoReplica(l) ==> NoReplica(r))
  }

  lemma ShiftedSifts(l: seq<WriteRequest>, i: nat, r: seq<WriteRequest>, next: nat, writeIp: bool, all: bool)
    requires Shifted(l, i, r, next) && l[i].state == Ip
    ensures Sifted(l, r, writeIp, all)
  {
    forall w | w in r && w.state != Ip ensures w in l {
      var m :| 0 <= m < |r| && r[m] == w;
      assert m >= next ==> w == l[m - next + i + 1];
    }
    forall w | w in l && w.state == Partial ensures w in r {
      var m :| 0 <= m < |l| && l[m] == w;
      if i < m { assert r[m - i - 1 + next] == w; } else { assert r[m] == w; }
    }
    assert l[i] in l && !NoReplica(l);
  }

  lemma SiftedTrans(l: seq<WriteRequest>, m: seq<WriteRequest>, r: seq<WriteRequest>, writeIp: bool, all: bool)
    requires Sifted(l, m, writeIp, all) && Sifted(m, r, writeIp, all)
    ensures Sifted(l, r, writeIp, all)
  {
  }

  lemma RemoveSifts(l: seq<WriteRequest>, i: nat, writeIp: bool, all: bool)
    requires i < |l| && (all || l[i].state == Dp)
    ensures Sifted(l, l[..i] + l[i + 1..], writeIp, all)
  {
    var r := l[..i] + l[i + 1..];
    forall w | w in l && w.state == Partial && w != l[i] ensures w in r {
      var m :| 0 <= m < |l| && l[m] == w;
      assert r[if m < i then m else m - 1] == w;
    }
  }

  lemma ReplicaSifts(l: seq<WriteRequest>, i: nat, all: bool)
    requires i < |l| && (all || l[i].state == Dp)
    ensures Sifted(l, l[i := l[i].(state := Ip)], true, all)
  {
    var r := l[i := l[i].(state := Ip)];
    forall w | w in l && w.state == Partial && w != l[i] ensures w in r {
      var m :| 0 <= m < |l| && l[m] == w;
      assert r[m] == w;
    }
  }

  /** `_unified_merge_requests` of replica i into whatever is before it. */
  method MergeReplica(j: Job, ghost hidden: set<nat>, i: nat) returns (r: Job, next: nat)
    requires Sound(j, hidden) && Fits(AbsAll(j.l), j.cs) && i < |j.l| && j.l[i].state == Ip
    ensures Sound(r, hidden) && Later(j, r) && Shifted(j.l, i, r.l, next)
    ensures (AbsAll(r.l), next) == Interleave.MergeAt(j.cs, AbsAll(j.l), i)
  {
    hide Exact, Tallied, Fits, Merge;
    if i == 0 {
      return j, 1;
    }
    var c, ret := MergeRequests(Cursor(j, i, true, 0, [], false, 0), hidden);
    r, next := c.j, if ret == 2 then i else i + 1;
  }

  /** The picked request i is on tape and from now on a replica. */
  method MakeReplica(j: Job, ghost hidden: set<nat>, i: nat) returns (r: Job)
    requires Sound(j, hidden) && i < |j.l| && j.l[i].state in j.zero && Ip !in j.zero
    ensures Sound(r, hidden) && Later(j, r) && r.l == j.l[i := j.l[i].(state := Ip)]
  {
    CountSet(j.l, i, j.l[i].(state := Ip));
    hide Exact, OnlyFor, Enroll, Count;
    EnrollOk(j.b, Ip, j.d, hidden);
    r := j.(l := j.l[i := j.l[i].(state := Ip)], b := Enroll(j.b, Ip, j.d, j.writeIp));
  }

  /** The picked request i is on tape and leaves the list; its counter was taken down beforehand. */
  method DropWritten(j: Job, ghost hidden: set<nat>, i: nat) returns (r: Job)
    requires Sound(j, hidden) && i < |j.l| && j.l[i].state in j.zero
    ensures Sound(r, hidden) && r == j.(l := j.l[..i] + j.l[i + 1..])
  {
    CountRemove(j.l, i);
    hide Exact, OnlyFor, Count;
    r := j.(l := j.l[..i] + j.l[i + 1..]);
  }

  /** One visit of the loop of `_unified_flush_unlocked` or `_unified_process_data_queue`. */
  method FlushRequest(j: Job, ghost hidden: set<nat>, i: nat, raw: seq<byte>, all: bool, ghost pick: set<nat>)
    returns (r: Job, next: nat, tape: seq<byte>)
    requires Sound(j, hidden) && Fits(AbsAll(j.l), j.cs) && i < |j.l| && j.zero == PickSet(all) &&
             Ahead(j.l, i, all, pick)
    ensures Sound(r, hidden) && Later(j, r)
    ensures (AbsAll(r.l), next, tape) == Interleave.FlushOne(j.cs, AbsAll(j.l), i, raw, j.writeIp, pick)
    ensures Behind(j.l, i, all) ==> Ahead(r.l, next, all, pick) && Behind(r.l, next, all)
    ensures Sifted(j.l, r.l, j.writeIp, all)
  {
    hide Exact, Tallied, Booked, Sealed, Interleave.MergeAt, OnlyFor, Sifted;
    var w := j.l[i];
    assert AbsAll(j.l)[i] == Abs(w);
    if w.state == Ip {
      r, next := MergeReplica(j, hidden, i);
      tape := raw;
      ShiftedSifts(j.l, i, r.l, next, j.writeIp, all);
      if Behind(j.l, i, all) { ShiftedKeeps(j.l, i, r.l, next, all, pick); }
    } else if Picks(all, w.state) {
      tape := FlatWrite(raw, w.offset, w.data);
      if j.writeIp {
        var m := MakeReplica(j, hidden, i);
        AbsSet(j.l, i, w.(state := Ip));
        r, next := MergeReplica(m, hidden, i);
        LaterTrans(j, m, r);
        ReplicaSifts(j.l, i, all);
        ShiftedSifts(m.l, i, r.l, next, j.writeIp, all);
        SiftedTrans(j.l, m.l, r.l, j.writeIp, all);
        if Behind(j.l, i, all) { ShiftedKeeps(m.l, i, r.l, next, all, pick); }
      } else {
        LaterSelf(j);
        r := DropWritten(j, hidden, i);
        RemoveSifts(j.l, i, j.writeIp, all);
        AbsRemove(j.l, i);
        next := i;
      }
    } else {
      LaterSelf(j);
      SiftedSelf(j.l, j.writeIp, all);
      r, next, tape := j, i + 1, raw;
    }
  }

  lemma SiftedSelf(l: seq<WriteRequest>, writeIp: bool, all: bool)
    ensures Sifted(l, l, writeIp, all)
  {
  }

  /** All counters of the picked states are taken down at once, before any request is looked at. */
  method ZeroCounters(j: Job, ghost hidden: set<nat>, all: bool) returns (r: Job)
    requires Sound(j, hidden) && j.zero == {}
    ensures Sound(r, hidden) && r == j.(b := r.b, zero := PickSet(all)) && OnlyFor(j.b, r.b, j.d)
  {
    hide Exact, OnlyFor, Withdraw, Count;
    WithdrawOk(j.b, true, Dp, j.d, hidden);
    r := j.(b := Withdraw(j.b, true, Dp, j.d, j.writeIp), zero := {Dp});
    if all {
      WithdrawOk(r.b, true, Partial, j.d, hidden);
      var b := Withdraw(r.b, true, Partial, j.d, j.writeIp);
      OnlyForTrans(j.b, r.b, b, j.d);
      r := r.(b := b, zero := {Dp, Partial});
    }
  }

  lemma {:induction false} NoneCounted(l: seq<WriteRequest>, s: State)
    requires forall m :: 0 <= m < |l| ==> l[m].state != s
    ensures Count(l, s) == 0
  {
    if l != [] { NoneCounted(l[1..], s); }
  }

  /** No request in a picked state is left, so the zeroed counters are right again. */
  lemma Restored(j: Job, hidden: set<nat>, all: bool)
    requires Sound(j, hidden) && j.zero == PickSet(all) && Behind(j.l, |j.l|, all)
    ensures Sound(j.(zero := {}), hidden)
  {
    hide Exact, Count;
    forall s: State ensures j.b.Of(s).Count(j.d) == Count(j.l, s) {
      if Picks(all, s) { NoneCounted(j.l, s); }
    }
  }

  /** What a flush leaves: replicas, and the requests that wait for more bytes if only full blocks were to be written;
      no replicas if the file does not go to the index partition. */
  ghost predicate Flushed(l: seq<WriteRequest>, r: seq<WriteRequest>, writeIp: bool, all: bool) {
    && (all ==> forall w :: w in r ==> w.state == Ip)
    && (!all ==> forall w :: w in r && w.state != Ip ==> w.state == Partial)
    && (!all ==> forall w: WriteRequest :: w.state == Partial ==> (w in r <==> w in l))
    && (!writeIp && NoReplica(l) ==> forall w :: w in r ==> w.state != Ip)
  }

  lemma SiftedFlushed(l: seq<WriteRequest>, r: seq<WriteRequest>, writeIp: bool, all: bool)
    requires Sifted(l, r, writeIp, all) && Behind(r, |r|, all)
    ensures Flushed(l, r, writeIp, all)
  {
    forall w | w in r ensures !Picks(all, w.state) && (NoReplica(r) ==> w.state != Ip) {
      var m :| 0 <= m < |r| && r[m] == w;
    }
  }

  /** `_unified_flush_unlocked` (all set), and `_unified_process_data_queue` on a file bound for the
      index partition: the picked requests go to tape and become replicas or leave the list. */
  method FlushRequests(j: Job, ghost hidden: set<nat>, raw: seq<byte>, all: bool) returns (r: Job, tape: seq<byte>)
    requires Sound(j, hidden) && j.zero == {} && WellFormed(AbsAll(j.l), j.cs)
    ensures Sound(r, hidden) && Later(j, r)
    ensures (AbsAll(r.l), tape) == Interleave.FlushFrom(j.cs, AbsAll(j.l), 0, raw, j.writeIp, Offsets(j.l, all))
    ensures Flushed(j.l, r.l, j.writeIp, all)
  {
    hide Exact, Tallied, Booked, Sealed, Interleave.FlushOne, Offsets, Fits, Sifted, Flushed;
    SiftedSelf(j.l, j.writeIp, all);
    ghost var pick := Offsets(j.l, all);
    AheadAtStart(j.l, all, j.cs);
    var start := ZeroCounters(j, hidden, all);
    r, tape := start, raw;
    var i := 0;
    LaterSelf(start);
    while i < |r.l|
      invariant 0 <= i <= |r.l| && Sound(r, hidden) && Later(start, r) && Fits(AbsAll(r.l), j.cs)
      invariant Ahead(r.l, i, all, pick) && Behind(r.l, i, all) && Sifted(j.l, r.l, j.writeIp, all)
      invariant Interleave.FlushFrom(j.cs, AbsAll(r.l), i, tape, j.writeIp, pick)
             == Interleave.FlushFrom(j.cs, AbsAll(j.l), 0, raw, j.writeIp, pick)
      decreases |r.l| - i
    {
      ghost var before := r;
      r, i, tape := FlushRequest(r, hidden, i, tape, all, pick);
      LaterTrans(start, before, r);
      SiftedTrans(j.l, before.l, r.l, j.writeIp, all);
    }
    SiftedFlushed(j.l, r.l, j.writeIp, all);
    Restored(r, hidden, all);
    OnlyForTrans(j.b, start.b, r.b, j.d);
    r := r.(zero := {});
  }

  // ----- the other list operations

  lemma DropNext(kept: seq<WriteRequest>, l: seq<WriteRequest>, k: nat)
    requires k < |l|
    ensures var all := kept + l[k..]; all[|kept|] == l[k] && all[..|kept|] + all[|kept| + 1..] == kept + l[k + 1..]
    ensures kept + l[k..] == (kept + [l[k]]) + l[k + 1..]
  {
  }

  /** `_unified_unset_write_ip` and the end of `_unified_process_index_queue`: all replicas leave the list
      and the index-partition queue. */
  method DropReplicas(j: Job, ghost hidden: set<nat>) returns (r: Job)
    requires Sound(j, hidden) && j.zero == {}
    ensures Sound(r, hidden) && Later(j, r)
    ensures AbsAll(r.l) == Interleave.DropIp(AbsAll(j.l))
    ensures forall w :: w in r.l <==> w in j.l && w.state != Ip
  {
    hide Sound, Later, Dropped, OnlyFor, AbsAll, Interleave.DropIp;
    r := ZeroReplicas(j, hidden);
    ghost var start := r;
    var kept := [];
    DroppedNone(j.l);
    for k := 0 to |j.l|
      invariant Sound(r, hidden) && r == start.(l := kept + j.l[k..]) && Dropped(j.l, k, kept)
    {
      DroppedNext(j.l, k, kept);
      DropNext(kept, j.l, k);
      if j.l[k].state == Ip {
        r := DropWritten(r, hidden, |kept|);
      } else {
        kept := kept + [j.l[k]];
      }
    }
    assert r.l == kept;
    DroppedAll(j.l, kept);
    NoReplicaLeft(r, hidden);
    SameBooks(j, start, r.(zero := {}));
    r := r.(zero := {});
  }

  /** kept are the requests among the first k that are no replicas. */
  ghost predicate Dropped(l: seq<WriteRequest>, k: nat, kept: seq<WriteRequest>)
    requires k <= |l|
  {
    && AbsAll(kept) == Interleave.DropIp(AbsAll(l)[..k]) && NoReplica(kept)
    && forall w :: w in kept <==> w in l[..k] && w.state != Ip
  }

  lemma DroppedNone(l: seq<WriteRequest>)
    ensures Dropped(l, 0, [])
  {
    assert AbsAll(l)[..0] == [];
  }

  lemma DroppedNext(l: seq<WriteRequest>, k: nat, kept: seq<WriteRequest>)
    requires k < |l| && Dropped(l, k, kept)
    ensures if l[k].state == Ip then Dropped(l, k + 1, kept) else Dropped(l, k + 1, kept + [l[k]])
  {
    KeepSnoc(AbsAll(l), (w: Req) => !w.ip, k);
    AbsSnoc(kept, l[k]);
    assert l[..k + 1] == l[..k] + [l[k]];
  }

  lemma DroppedAll(l: seq<WriteRequest>, kept: seq<WriteRequest>)
    requires Dropped(l, |l|, kept)
    ensures AbsAll(kept) == Interleave.DropIp(AbsAll(l)) && NoReplica(kept)
    ensures forall w :: w in kept <==> w in l && w.state != Ip
  {
    assert AbsAll(l)[..|l|] == AbsAll(l) && l[..|l|] == l;
  }

  /** The file leaves the queue of the index partition before any request is looked at. */
  method ZeroReplicas(j: Job, ghost hidden: set<nat>) returns (r: Job)
    requires Sound(j, hidden) && j.zero == {}
    ensures Sound(r, hidden) && r == j.(b := r.b, zero := {Ip}) && OnlyFor(j.b, r.b, j.d)
  {
    hide Exact, OnlyFor, Withdraw, Count;
    WithdrawOk(j.b, true, Ip, j.d, hidden);
    r := j.(b := Withdraw(j.b, true, Ip, j.d, j.writeIp), zero := {Ip});
  }

  lemma NoReplicaLeft(j: Job, hidden: set<nat>)
    requires Sound(j, hidden) && j.zero == {Ip} && NoReplica(j.l)
    ensures Sound(j.(zero := {}), hidden)
  {
    hide Exact, Count;
    NoneCounted(j.l, Ip);
  }

  lemma SameBooks(j: Job, start: Job, r: Job)
    requires OnlyFor(j.b, start.b, j.d) && r == j.(b := start.b, l := r.l)
    ensures Later(j, r)
  {
  }

  lemma AbsSnoc(l: seq<WriteRequest>, w: WriteRequest)
    ensures AbsAll(l + [w]) == AbsAll(l) + [Abs(w)]
  {
  }

  predicate NoReplica(l: seq<WriteRequest>) { forall m :: 0 <= m < |l| ==> l[m].state != Ip }

  lemma {:induction false} KeepSnoc(l: seq<Req>, test: Req -> bool, k: nat)
    requires k < |l|
    ensures Interleave.Keep(l[..k + 1], test) == Interleave.Keep(l[..k], test) + (if test(l[k]) then [l[k]] else [])
    decreases k
  {
    if k == 0 {
      assert l[..1] == [l[0]];
    } else {
      KeepSnoc(l[1..], test, k - 1);
      assert l[..k + 1][1..] == l[1..][..k] && l[..k][1..] == l[1..][..k - 1];
    }
  }

  /** The first k requests have been sorted into those kept and those taken. */
  ghost predicate Sorted(l: seq<WriteRequest>, k: nat, kept: seq<WriteRequest>, flight: seq<WriteRequest>, all: bool,
                         pick: set<nat>)
    requires k <= |l|
  {
    && AbsAll(kept) == Interleave.Left(AbsAll(l)[..k], pick) && AbsAll(flight) == Interleave.Taken(AbsAll(l)[..k], pick)
    && Behind(kept, |kept|, all)
    && (forall w :: w in kept <==> w in l[..k] && !Picks(all, w.state))
    && (forall w :: w in flight <==> w in l[..k] && Picks(all, w.state))
    && (all && NoReplica(l) ==> kept == [] && flight == l[..k])
  }

  lemma SortNext(l: seq<WriteRequest>, k: nat, kept: seq<WriteRequest>, flight: seq<WriteRequest>, all: bool,
                 pick: set<nat>)
    requires k < |l| && Sorted(l, k, kept, flight, all, pick) && (Picks(all, l[k].state) <==> l[k].offset in pick)
    ensures if Picks(all, l[k].state) then Sorted(l, k + 1, kept, flight + [l[k]], all, pick)
            else Sorted(l, k + 1, kept + [l[k]], flight, all, pick)
  {
    KeepSnoc(AbsAll(l), (w: Req) => w.offset in pick, k);
    KeepSnoc(AbsAll(l), (w: Req) => w.offset !in pick, k);
    hide Interleave.Keep;
    AbsSnoc(flight, l[k]);
    AbsSnoc(kept, l[k]);
    assert AbsAll(l)[k] == Abs(l[k]);
    assert l[..k + 1] == l[..k] + [l[k]];
  }

  lemma SortedNone(l: seq<WriteRequest>, all: bool, pick: set<nat>)
    ensures Sorted(l, 0, [], [], all, pick)
  {
    assert AbsAll(l)[..0] == [];
  }

  lemma PickedAt(l: seq<WriteRequest>, k: nat, all: bool, pick: set<nat>)
    requires Ahead(l, 0, all, pick) && NoReplica(l) && k < |l|
    ensures Picks(all, l[k].state) <==> l[k].offset in pick
    ensures Picks(all, l[k].state) ==> l[k].state in PickSet(all)
  {
  }

  /** `_unified_process_data_queue` on a file that stays on the data partition: the picked requests move
      to the writer's private list. */
  method TakeRequests(j: Job, ghost hidden: set<nat>, all: bool) returns (r: Job, flight: seq<WriteRequest>)
    requires Sound(j, hidden) && j.zero == {} && WellFormed(AbsAll(j.l), j.cs)
    requires !j.writeIp && Interleave.AllDirty(AbsAll(j.l))
    ensures Sound(r, hidden) && Later(j, r)
    ensures AbsAll(r.l) == Interleave.Left(AbsAll(j.l), Offsets(j.l, all))
    ensures AbsAll(flight) == Interleave.Taken(AbsAll(j.l), Offsets(j.l, all))
    ensures if all then r.l == [] && flight == j.l
            else (forall w :: w in r.l <==> w in j.l && w.state == Partial) &&
                 (forall w :: w in flight <==> w in j.l && w.state == Dp)
  {
    hide Sound, Sorted, Exact, OnlyFor, Offsets, Ahead, Behind, Picks, PickSet, NoReplica, AbsAll, WellFormed,
         Interleave.Left, Interleave.Taken, Interleave.AllDirty;
    NoneIp(j.l);
    ghost var pick := Offsets(j.l, all);
    AheadAtStart(j.l, all, j.cs);
    r := ZeroCounters(j, hidden, all);
    ghost var start := r;
    flight := [];
    var kept := [];
    SortedNone(j.l, all, pick);
    for k := 0 to |j.l|
      invariant Sound(r, hidden) && r == start.(l := kept + j.l[k..]) && Sorted(j.l, k, kept, flight, all, pick)
    {
      PickedAt(j.l, k, all, pick);
      SortNext(j.l, k, kept, flight, all, pick);
      DropNext(kept, j.l, k);
      if Picks(all, j.l[k].state) {
        flight := flight + [j.l[k]];
        r := DropWritten(r, hidden, |kept|);
      } else {
        kept := kept + [j.l[k]];
      }
    }
    SortDone(j.l, r.l, kept, flight, all, pick);
    Restored(r, hidden, all);
    r := r.(zero := {});
  }

  lemma SortDone(l: seq<WriteRequest>, r: seq<WriteRequest>, kept: seq<WriteRequest>, flight: seq<WriteRequest>,
                 all: bool, pick: set<nat>)
    requires Sorted(l, |l|, kept, flight, all, pick) && r == kept + l[|l|..]
    ensures AbsAll(r) == Interleave.Left(AbsAll(l), pick) && AbsAll(flight) == Interleave.Taken(AbsAll(l), pick) &&
            Behind(r, |r|, all)
    ensures NoReplica(l) ==>
              if all then r == [] && flight == l
              else (forall w :: w in r <==> w in l && w.state == Partial) &&
                   (forall w :: w in flight <==> w in l && w.state == Dp)
  {
    assert r == kept && AbsAll(l)[..|l|] == AbsAll(l) && l[..|l|] == l;
    if NoReplica(l) {
      forall w | w in l ensures w.state != Ip { var m :| 0 <= m < |l| && l[m] == w; }
    }
  }

  lemma NoneIp(l: seq<WriteRequest>)
    requires Interleave.AllDirty(AbsAll(l))
    ensures NoReplica(l)
  {
    forall m | 0 <= m < |l| ensures l[m].state != Ip { assert !AbsAll(l)[m].ip; }
  }
}
