/**
 The scheduler's book-keeping (`struct unified_data`, `_unified_update_queue_membership`): three
 queues of files, how many requests of each file are in each state, and the running totals the
 background writer bases its decisions on.
 */
module Ledger {

  /** One queue: the files in it, its length, the per-file request counters and the request total. */
  datatype Queue = Queue(members: seq<nat>, length: nat, counts: map<nat, nat>, total: nat) {
    function Count(d: nat): nat { if d in counts then counts[d] else 0 }
  }

  const EMPTY: Queue := Queue([], 0, map[], 0)

  predicate NoDup(s: seq<nat>) { forall i, j :: 0 <= i < j < |s| ==> s[i] != s[j] }

  /** Requests of the listed files, leaving out the hidden ones. */
  function Sum(q: Queue, s: seq<nat>, hidden: set<nat>): nat {
    if s == [] then 0 else (if s[0] in hidden then 0 else q.Count(s[0])) + Sum(q, s[1..], hidden)
  }

  /** A file is in the queue exactly if its counter is positive, the length is the number of files,
      and the total is the sum of the counters of the files that are not hidden. */
  ghost predicate QueueOk(q: Queue, hidden: set<nat>) {
    && NoDup(q.members) && q.length == |q.members|
    && (forall d: nat :: d in q.members <==> q.Count(d) > 0)
    && q.total == Sum(q, q.members, hidden)
  }

  function Without(s: seq<nat>, d: nat): (r: seq<nat>)
    ensures forall x :: x in r <==> x in s && x != d
    ensures NoDup(s) ==> NoDup(r)
    ensures d !in s ==> r == s
    ensures NoDup(s) && d in s ==> |r| == |s| - 1
  {
    if s == [] then [] else
    if s[0] == d then
      var r := Without(s[1..], d);
      assert NoDup(s) ==> d !in s[1..];
      r
    else
      var r := Without(s[1..], d);
      assert NoDup(s) ==> s[0] !in s[1..];
      [s[0]] + r
  }

  lemma {:induction false} SumSame(q: Queue, p: Queue, s: seq<nat>, hidden: set<nat>, hidden': set<nat>)
    requires forall d :: d in s ==> q.Count(d) == p.Count(d) && (d in hidden <==> d in hidden')
    ensures Sum(q, s, hidden) == Sum(p, s, hidden')
  {
    if s != [] { SumSame(q, p, s[1..], hidden, hidden'); }
  }

  /** Taking one file out of the list takes exactly its requests out of the sum. */
  lemma {:induction false} SumWithout(q: Queue, s: seq<nat>, hidden: set<nat>, d: nat)
    requires NoDup(s) && d in s
    ensures Sum(q, s, hidden) == Sum(q, Without(s, d), hidden) + (if d in hidden then 0 else q.Count(d))
  {
    if s[0] == d {
      assert d !in s[1..];
    } else {
      SumWithout(q, s[1..], hidden, d);
      var r := Without(s[1..], d);
      assert Without(s, d) == [s[0]] + r && ([s[0]] + r)[1..] == r;
    }
  }

  lemma {:induction false} SumAppend(q: Queue, s: seq<nat>, hidden: set<nat>, d: nat)
    ensures Sum(q, s + [d], hidden) == Sum(q, s, hidden) + (if d in hidden then 0 else q.Count(d))
  {
    if s == [] {
      assert s + [d] == [d];
    } else {
      assert (s + [d])[1..] == s[1..] + [d];
      SumAppend(q, s[1..], hidden, d);
    }
  }

  /** The counter of d is set to n in a queue it belongs to; what that does to the sum. */
  lemma SumSet(q: Queue, p: Queue, s: seq<nat>, hidden: set<nat>, d: nat)
    requires NoDup(s) && d in s && forall x :: x != d ==> q.Count(x) == p.Count(x)
    ensures Sum(q, s, hidden) + (if d in hidden then 0 else p.Count(d)) ==
            Sum(p, s, hidden) + (if d in hidden then 0 else q.Count(d))
  {
    SumWithout(q, s, hidden, d);
    SumWithout(p, s, hidden, d);
    SumSame(q, p, Without(s, d), hidden, hidden);
  }

  // ----- the three ways a queue changes

  function Added(q: Queue, d: nat, secret: bool): Queue {
    Queue(if q.Count(d) == 0 then q.members + [d] else q.members,
          if q.Count(d) == 0 then q.length + 1 else q.length,
          q.counts[d := q.Count(d) + 1],
          if secret then q.total else q.total + 1)
  }

  lemma AddedOk(q: Queue, d: nat, hidden: set<nat>)
    requires QueueOk(q, hidden)
    ensures QueueOk(Added(q, d, d in hidden), hidden)
  {
    var p := Added(q, d, d in hidden);
    if q.Count(d) == 0 {
      assert d !in q.members;
      SumAppend(p, q.members, hidden, d);
      SumSame(q, p, q.members, hidden, hidden);
    } else {
      SumSet(q, p, q.members, hidden, d);
    }
  }

  /** The total never goes below what is taken from it. */
  lemma TotalCovers(q: Queue, d: nat, hidden: set<nat>)
    requires QueueOk(q, hidden)
    ensures d !in hidden ==> q.Count(d) <= q.total
    ensures q.Count(d) > 0 ==> q.length > 0
  {
    if d in q.members { SumWithout(q, q.members, hidden, d); }
  }

  /** Taking n of d's requests off the books; the caller holds at least n. */
  function Dropped(q: Queue, d: nat, n: nat, secret: bool): Queue
    requires n <= q.Count(d) && (!secret ==> n <= q.total) && (0 < n == q.Count(d) ==> 0 < q.length)
  {
    if n == 0 then q
    else Queue(if n == q.Count(d) then Without(q.members, d) else q.members,
               if n == q.Count(d) then q.length - 1 else q.length,
               q.counts[d := q.Count(d) - n],
               if secret then q.total else q.total - n)
  }

  lemma DroppedOk(q: Queue, d: nat, n: nat, hidden: set<nat>)
    requires QueueOk(q, hidden) && n <= q.Count(d)
    ensures (d !in hidden ==> n <= q.total) && (0 < n == q.Count(d) ==> 0 < q.length)
    ensures QueueOk(Dropped(q, d, n, d in hidden), hidden)
  {
    TotalCovers(q, d, hidden);
    var p := Dropped(q, d, n, d in hidden);
    if n > 0 {
      assert d in q.members;
      if n == q.Count(d) {
        SumWithout(q, q.members, hidden, d);
        SumSame(q, p, p.members, hidden, hidden);
      } else {
        SumSet(q, p, q.members, hidden, d);
      }
    }
  }

  /** Hiding or showing a file's requests moves exactly its counter in or out of the total. */
  lemma HideOk(q: Queue, d: nat, hidden: set<nat>)
    requires QueueOk(q, hidden) && d !in hidden
    ensures q.Count(d) <= q.total
    ensures QueueOk(q.(total := q.total - q.Count(d)), hidden + {d})
  {
    TotalCovers(q, d, hidden);
    var p := q.(total := q.total - q.Count(d));
    HideSum(q, q.members, hidden, d);
    SumSame(q, p, q.members, hidden + {d}, hidden + {d});
  }

  lemma ShowOk(q: Queue, d: nat, hidden: set<nat>)
    requires QueueOk(q, hidden) && d in hidden
    ensures QueueOk(q.(total := q.total + q.Count(d)), hidden - {d})
  {
    var p := q.(total := q.total + q.Count(d));
    HideSum(q, q.members, hidden - {d}, d);
    assert (hidden - {d}) + {d} == hidden;
    SumSame(q, p, q.members, hidden - {d}, hidden - {d});
  }

  lemma HideSum(q: Queue, s: seq<nat>, hidden: set<nat>, d: nat)
    requires NoDup(s) && d !in hidden && (d !in s ==> q.Count(d) == 0)
    ensures Sum(q, s, hidden) == Sum(q, s, hidden + {d}) + q.Count(d)
  {
    if d in s {
      SumWithout(q, s, hidden, d);
      SumWithout(q, s, hidden + {d}, d);
      SumSame(q, q, Without(s, d), hidden, hidden + {d});
    } else {
      SumSame(q, q, s, hidden, hidden + {d});
    }
  }

  // ----- the three queues together

  /** enum request_state */
  datatype State = Partial | Dp | Ip

  /** The working set, the data-partition queue and the index-partition queue. */
  datatype Books = Books(ws: Queue, dp: Queue, ip: Queue) {
    function Of(s: State): Queue {
      match s
      case Partial => ws
      case Dp => dp
      case Ip => ip
    }
  }

  /** Queue membership, queue lengths and request totals are exact; the DP requests of the hidden files
      (those bound for the index partition as well) do not count towards the DP total. */
  ghost predicate Exact(b: Books, hidden: set<nat>) {
    QueueOk(b.ws, {}) && QueueOk(b.dp, hidden) && QueueOk(b.ip, {})
  }

  /** Only file d's counters differ. */
  ghost predicate OnlyFor(b: Books, c: Books, d: nat) {
    forall s: State, e: nat :: e != d ==> b.Of(s).Count(e) == c.Of(s).Count(e)
  }

  function With(b: Books, s: State, q: Queue): Books {
    match s
    case Partial => b.(ws := q)
    case Dp => b.(dp := q)
    case Ip => b.(ip := q)
  }

  ghost function HiddenFrom(s: State, hidden: set<nat>): set<nat> { if s == Dp then hidden else {} }

  function Bit(x: bool): nat { if x then 1 else 0 }

  /** `_unified_update_queue_membership` with add set: one more request of file d in state s. */
  function Enroll(b: Books, s: State, d: nat, writeIp: bool): Books {
    With(b, s, Added(b.Of(s), d, s == Dp && writeIp))
  }

  lemma EnrollOk(b: Books, s: State, d: nat, hidden: set<nat>)
    requires Exact(b, hidden)
    ensures var c := Enroll(b, s, d, d in hidden);
            && Exact(c, hidden) && OnlyFor(b, c, d)
            && forall t: State :: c.Of(t).Count(d) == b.Of(t).Count(d) + Bit(t == s)
  {
    hide QueueOk;
    AddedOk(b.Of(s), d, HiddenFrom(s, hidden));
  }

  /** How many of d's requests a withdrawal takes off the books. */
  function Share(b: Books, all: bool, s: State, d: nat): nat {
    if all || b.Of(s).Count(d) == 0 then b.Of(s).Count(d) else 1
  }

  /** The same with add unset: one request less, or none left if all is set. */
  function Withdraw(b: Books, all: bool, s: State, d: nat, writeIp: bool): Books
    requires var n, q := Share(b, all, s, d), b.Of(s);
             (!(s == Dp && writeIp) ==> n <= q.total) && (0 < n == q.Count(d) ==> 0 < q.length)
  {
    With(b, s, Dropped(b.Of(s), d, Share(b, all, s, d), s == Dp && writeIp))
  }

  /** No counter underflows, and the books stay exact. */
  lemma WithdrawOk(b: Books, all: bool, s: State, d: nat, hidden: set<nat>)
    requires Exact(b, hidden)
    ensures var n, q := Share(b, all, s, d), b.Of(s);
            (!(s == Dp && d in hidden) ==> n <= q.total) && (0 < n == q.Count(d) ==> 0 < q.length)
    ensures var c := Withdraw(b, all, s, d, d in hidden);
            && Exact(c, hidden) && OnlyFor(b, c, d)
            && forall t: State ::
                 c.Of(t).Count(d) == if t == s then b.Of(t).Count(d) - Share(b, all, s, d) else b.Of(t).Count(d)
  {
    hide QueueOk;
    DroppedOk(b.Of(s), d, Share(b, all, s, d), HiddenFrom(s, hidden));
  }

  lemma OnlyForTrans(a: Books, b: Books, c: Books, d: nat)
    requires OnlyFor(a, b, d) && OnlyFor(b, c, d)
    ensures OnlyFor(a, c, d)
  {
    forall s: State, e: nat | e != d ensures a.Of(s).Count(e) == c.Of(s).Count(e) {
      assert a.Of(s).Count(e) == b.Of(s).Count(e) == c.Of(s).Count(e);
    }
  }

  /** One request of d moves from one queue to another. */
  lemma RestateOk(b: Books, d: nat, hidden: set<nat>, from: State, to: State)
    requires Exact(b, hidden) && b.Of(from).Count(d) > 0
    ensures var n, q := Share(b, false, from, d), b.Of(from);
            (!(from == Dp && d in hidden) ==> n <= q.total) && (0 < n == q.Count(d) ==> 0 < q.length)
    ensures var c := Enroll(Withdraw(b, false, from, d, d in hidden), to, d, d in hidden);
            && Exact(c, hidden) && OnlyFor(b, c, d)
            && forall t: State :: c.Of(t).Count(d) + Bit(t == from) == b.Of(t).Count(d) + Bit(t == to)
  {
    hide Exact, OnlyFor;
    WithdrawOk(b, false, from, d, hidden);
    var m := Withdraw(b, false, from, d, d in hidden);
    EnrollOk(m, to, d, hidden);
    OnlyForTrans(b, m, Enroll(m, to, d, d in hidden), d);
  }
}
