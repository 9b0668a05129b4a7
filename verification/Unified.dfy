/**
 The scheduler as a whole (`struct unified_data`): all files with their request lists, and the shared
 queues and counters. Every operation is one step of module Interleave on the file it works on, leaves
 every other file alone, and keeps all counters exact.
 */
module Unified {
  import opened Bytes
  import opened Requests
  import opened Ledger
  import opened Scheduler
  import opened SchedulerOps
  import opened WriteProofs
  import WriteTheorem
  import Interleave
  import InterleaveProofs
  import opened Cells
  import ListEdits
  import opened UnifiedRead
  import opened IndexCopies
  import AltExtents
  import Extents
  import RawTape

  /** struct dentry_priv, with the file on tape and the locks and readers of its dentry. */
  datatype Priv = Priv(requests: seq<WriteRequest>, flight: seq<WriteRequest>, raw: seq<byte>, size: nat, writeIp: bool,
                       ios: Interleave.IosLock, io: Interleave.IoLock,
                       readers: map<nat, Interleave.Pending>, replies: seq<Interleave.Reply>)

  function View(p: Priv): Interleave.File {
    Interleave.File(p.raw, AbsAll(p.requests), AbsAll(p.flight), p.size, p.writeIp, p.ios, p.io, p.readers, p.replies)
  }

  /** The files whose DP requests do not count towards dp_request_count. */
  ghost function Hidden(files: map<nat, Priv>): set<nat> { set d | d in files && files[d].writeIp }

  ghost predicate FileOk(cs: nat, files: map<nat, Priv>, b: Books, d: nat) {
    if d in files then
      Interleave.Good(cs, View(files[d])) && Tallied(b, d, files[d].requests, {}) && Sealed(cs, files[d].requests)
    else forall s: State :: b.Of(s).Count(d) == 0
  }

  /** Every file is in a good state, each of its counters is its number of requests in that state, no request waits for
      more bytes in a full block, and queue membership, queue lengths and totals are exact. */
  ghost predicate Ok(cs: nat, files: map<nat, Priv>, b: Books) {
    0 < cs && Exact(b, Hidden(files)) && forall d: nat :: FileOk(cs, files, b, d)
  }

  function JobOf(cs: nat, files: map<nat, Priv>, b: Books, d: nat): Job
    requires d in files
  {
    Job(d, files[d].writeIp, cs, b, files[d].requests, {})
  }

  lemma JobSound(cs: nat, files: map<nat, Priv>, b: Books, d: nat)
    requires Ok(cs, files, b) && d in files
    ensures 0 < cs && Sound(JobOf(cs, files, b, d), Hidden(files)) && WellFormed(AbsAll(files[d].requests), cs)
    ensures Interleave.Good(cs, View(files[d]))
  {
    hide Exact, Tallied;
    assert FileOk(cs, files, b, d);
  }

  /** The same, but of file d only the counters are known to be right. */
  ghost predicate OkBut(cs: nat, files: map<nat, Priv>, b: Books, d: nat) {
    && 0 < cs && Exact(b, Hidden(files)) && d in files && Tallied(b, d, files[d].requests, {})
    && Sealed(cs, files[d].requests)
    && forall e: nat :: e != d ==> FileOk(cs, files, b, e)
  }

  lemma OkParts(cs: nat, files: map<nat, Priv>, b: Books, d: nat)
    requires d in files
    ensures Ok(cs, files, b) <==> OkBut(cs, files, b, d) && Interleave.Good(cs, View(files[d]))
  {
    hide Exact, Interleave.Good, Tallied, Sealed;
    if OkBut(cs, files, b, d) && Interleave.Good(cs, View(files[d])) {
      forall e: nat ensures FileOk(cs, files, b, e) { }
    }
    if Ok(cs, files, b) { assert FileOk(cs, files, b, d); }
  }

  /** Putting the edited list back. */
  lemma StoreBut(cs: nat, files: map<nat, Priv>, b: Books, d: nat, r: Job, p: Priv)
    requires Ok(cs, files, b) && d in files && Sound(r, Hidden(files)) && Later(JobOf(cs, files, b, d), r)
    requires p.requests == r.l && p.writeIp == files[d].writeIp
    ensures OkBut(cs, files[d := p], r.b, d)
  {
    hide Exact, Interleave.Good;
    var g := files[d := p];
    assert Hidden(g) == Hidden(files);
    forall e: nat | e != d ensures FileOk(cs, g, r.b, e) {
      assert FileOk(cs, files, b, e);
      CountersStay(b, r.b, d, e);
    }
  }

  lemma CountersStay(b: Books, c: Books, d: nat, e: nat)
    requires OnlyFor(b, c, d) && e != d
    ensures forall s: State :: b.Of(s).Count(e) == c.Of(s).Count(e)
  {
  }

  lemma SameCounters(b: Books, c: Books)
    requires b.ws == c.ws && b.ip == c.ip && b.dp.counts == c.dp.counts
    ensures forall s: State, d: nat :: b.Of(s).Count(d) == c.Of(s).Count(d)
  {
  }

  /** dp_request_count after write_ip of file d has been switched. */
  function Switch(b: Books, d: nat, writeIp: bool): Books
    requires writeIp ==> b.dp.Count(d) <= b.dp.total
  {
    b.(dp := b.dp.(total := if writeIp then b.dp.total - b.dp.Count(d) else b.dp.total + b.dp.Count(d)))
  }

  /** write_ip of file d is switched: its DP requests move into or out of hiding. */
  lemma SwitchOk(cs: nat, files: map<nat, Priv>, b: Books, d: nat, r: Job, p: Priv)
    requires Ok(cs, files, b) && d in files && Sound(r, Hidden(files)) && Later(JobOf(cs, files, b, d), r)
    requires p.requests == r.l && p.writeIp != files[d].writeIp && Interleave.Good(cs, View(p))
    ensures p.writeIp ==> r.b.dp.Count(d) <= r.b.dp.total
    ensures Ok(cs, files[d := p], Switch(r.b, d, p.writeIp))
  {
    hide Interleave.Good, QueueOk;
    var g := files[d := p];
    if p.writeIp {
      HideOk(r.b.dp, d, Hidden(files));
      assert Hidden(g) == Hidden(files) + {d};
    } else {
      ShowOk(r.b.dp, d, Hidden(files));
      assert Hidden(g) == Hidden(files) - {d};
    }
    var c := Switch(r.b, d, p.writeIp);
    SameCounters(r.b, c);
    forall e: nat ensures FileOk(cs, g, c, e) {
      assert FileOk(cs, files, b, e);
      if e != d { CountersStay(b, r.b, d, e); }
    }
  }

  predicate Step(cs: nat, f: Interleave.File, a: Interleave.Action, g: Interleave.File) {
    0 < cs && WellFormed(f.reqs, cs) && Interleave.Enabled(cs, f, a) && g == Interleave.Do(cs, f, a)
  }

  /** The bytes of a write that did not get into the list. */
  predicate LeftOver(cs: nat, f: Interleave.File, a: Interleave.Action, rest: seq<byte>) {
    && 0 < cs && WellFormed(f.reqs, cs) && Interleave.Enabled(cs, f, a) && a.Write?
    && var n := Interleave.Consumed(cs, f, a); n <= |a.buf| && rest == a.buf[n..]
  }

  /** What a write or a truncation makes of the file. */
  lemma StepContent(cs: nat, f: Interleave.File, a: Interleave.Action, g: Interleave.File)
    requires Interleave.Good(cs, f) && Step(cs, f, a, g) && Interleave.Smooth(cs, f, a)
    ensures Interleave.Content(g) == Interleave.Apply(Interleave.Content(f), Interleave.Effect(cs, f, a))
  {
    InterleaveProofs.ActionKeeps(cs, f, a);
  }

  lemma WriteContent(cs: nat, f: Interleave.File, a: Interleave.Action, g: Interleave.File, rest: seq<byte>)
    requires Interleave.Good(cs, f) && Step(cs, f, a, g) && Interleave.Smooth(cs, f, a) && LeftOver(cs, f, a, rest)
    ensures |rest| <= |a.buf| && rest == a.buf[|a.buf| - |rest|..]
    ensures var got := a.buf[..|a.buf| - |rest|];
            Interleave.Content(g) ==
            if got == [] then Interleave.Content(f) else FlatWrite(Interleave.Content(f), a.off, got)
  {
    StepContent(cs, f, a, g);
    hide Interleave.Good, Interleave.Smooth, Interleave.Content, Interleave.Consumed, Interleave.Do, WellFormed;
  }

  /** Exactly one step of the state machine, on file d alone. */
  predicate Stepped(cs: nat, files: map<nat, Priv>, g: map<nat, Priv>, d: nat, a: Interleave.Action) {
    d in files && d in g && g == files[d := g[d]] && Step(cs, View(files[d]), a, View(g[d]))
  }

  lemma StepGood(cs: nat, f: Interleave.File, a: Interleave.Action, g: Interleave.File)
    requires Interleave.Good(cs, f) && Step(cs, f, a, g)
    ensures Interleave.Good(cs, g) <==> Interleave.Smooth(cs, f, a)
  {
    InterleaveProofs.ActionKeeps(cs, f, a);
  }

  /** The methods of the list operations, put together with the books of all files. */
  lemma Stored(cs: nat, files: map<nat, Priv>, b: Books, d: nat, a: Interleave.Action, r: Job, p: Priv)
    requires Ok(cs, files, b) && d in files && Sound(r, Hidden(files)) && Later(JobOf(cs, files, b, d), r)
    requires p.requests == r.l && p.writeIp == files[d].writeIp && Step(cs, View(files[d]), a, View(p))
    ensures OkBut(cs, files[d := p], r.b, d) && Stepped(cs, files, files[d := p], d, a)
    ensures Ok(cs, files[d := p], r.b) <==> Interleave.Smooth(cs, View(files[d]), a)
  {
    hide Ok, OkBut, Step, Sound, Later, View, Interleave.Smooth;
    JobSound(cs, files, b, d);
    StepGood(cs, View(files[d]), a, View(p));
    StoreBut(cs, files, b, d, r, p);
    OkParts(cs, files[d := p], r.b, d);
  }

  lemma StoredRest(cs: nat, files: map<nat, Priv>, b: Books, d: nat, a: Interleave.Action, p: Priv)
    requires !a.Write?
    requires Ok(cs, files, b) && d in files && p.requests == files[d].requests && p.writeIp == files[d].writeIp
    requires Interleave.Enabled(cs, View(files[d]), a)
    requires 0 < cs && WellFormed(View(files[d]).reqs, cs) ==> View(p) == Interleave.Do(cs, View(files[d]), a)
    ensures Ok(cs, files[d := p], b) && Stepped(cs, files, files[d := p], d, a)
  {
    LaterSelf(JobOf(cs, files, b, d));
    hide Ok, Sound, Later, View, WellFormed, Interleave.Do;
    JobSound(cs, files, b, d);
    Stored(cs, files, b, d, a, JobOf(cs, files, b, d), p);
  }

  lemma {:induction false} Counted(l: seq<WriteRequest>, i: nat)
    requires i < |l|
    ensures Count(l, l[i].state) > 0
  {
    if i > 0 { Counted(l[1..], i - 1); }
  }

  /** A dirty request that fills its block waits for the background writer: its file is in the queue of the data
      partition. */
  lemma FullBlockQueued(cs: nat, files: map<nat, Priv>, b: Books, d: nat, i: nat)
    requires Ok(cs, files, b) && d in files && i < |files[d].requests|
    requires var w := files[d].requests[i]; w.state != Ip && |w.data| == cs
    ensures files[d].requests[i].state == Dp && d in b.dp.members
  {
    assert FileOk(cs, files, b, d);
    assert Waits(cs, files[d].requests[i]);
    Counted(files[d].requests, i);
    assert b.Of(Dp).Count(d) > 0;
  }

  /** A file that has just been opened is in no queue. A file with the same hidden status comes or goes
      without moving a total, because its counters are zero. */
  lemma IdleHidden(b: Books, hidden: set<nat>, d: nat)
    requires Exact(b, hidden) && b.dp.Count(d) == 0
    ensures Exact(b, hidden + {d}) && Exact(b, hidden - {d})
  {
    if d in hidden {
      assert hidden + {d} == hidden;
      ShowOk(b.dp, d, hidden);
    } else {
      assert hidden - {d} == hidden;
      HideOk(b.dp, d, hidden);
    }
    assert b.dp.(total := b.dp.total) == b.dp;
  }

  /** A file nobody has written to yet. */
  function Fresh(raw: seq<byte>, writeIp: bool): Priv {
    Priv([], [], raw, |raw|, writeIp, Interleave.IosFree, Interleave.IoFree, map[], [])
  }

  lemma OpenOk(cs: nat, files: map<nat, Priv>, b: Books, d: nat, p: Priv)
    requires Ok(cs, files, b) && d !in files
    requires p == Fresh(p.raw, p.writeIp)
    ensures Ok(cs, files[d := p], b) && Interleave.Content(View(p)) == p.raw
  {
    InterleaveProofs.FreshIsGood(cs, p.raw, p.writeIp);
    assert FileOk(cs, files, b, d);
    hide Interleave.Good, Exact, Interleave.Content;
    var g := files[d := p];
    assert b.Of(Dp).Count(d) == 0;
    IdleHidden(b, Hidden(files), d);
    assert Hidden(g) == if p.writeIp then Hidden(files) + {d} else Hidden(files);
    forall e: nat ensures FileOk(cs, g, b, e) { assert FileOk(cs, files, b, e); }
  }

  lemma FreeOk(cs: nat, files: map<nat, Priv>, b: Books, d: nat)
    requires Ok(cs, files, b) && d in files && files[d].requests == []
    ensures Ok(cs, files - {d}, b)
  {
    hide Interleave.Good, Exact;
    assert FileOk(cs, files, b, d);
    var g := files - {d};
    assert b.Of(Dp).Count(d) == 0;
    IdleHidden(b, Hidden(files), d);
    assert Hidden(g) == Hidden(files) - {d};
    forall e: nat ensures FileOk(cs, g, b, e) { assert FileOk(cs, files, b, e); }
  }

  lemma Switched(cs: nat, files: map<nat, Priv>, b: Books, d: nat, a: Interleave.Action, r: Job, p: Priv)
    requires Ok(cs, files, b) && d in files && Sound(r, Hidden(files)) && Later(JobOf(cs, files, b, d), r)
    requires p.requests == r.l && p.writeIp != files[d].writeIp && Step(cs, View(files[d]), a, View(p))
    requires !a.Write?
    ensures p.writeIp ==> r.b.dp.Count(d) <= r.b.dp.total
    ensures Ok(cs, files[d := p], Switch(r.b, d, p.writeIp)) && Stepped(cs, files, files[d := p], d, a)
  {
    hide Ok, Step, Sound, Later, View;
    JobSound(cs, files, b, d);
    StepGood(cs, View(files[d]), a, View(p));
    SwitchOk(cs, files, b, d, r, p);
  }

  lemma WriteStep(cs: nat, q: Priv, a: Interleave.Action, c: Cursor, exit: Exit, p: Priv)
    requires Interleave.Good(cs, View(q)) && a.Write? && Interleave.Enabled(cs, View(q), a)
    requires Outcome(WalkOf(c), exit) == WriteTheorem.Write(cs, Interleave.Start(View(q), a))
    requires var n := if c.o >= a.off then c.o - a.off else 0;
             p == q.(requests := c.j.l, size := if n > 0 then Max(q.size, a.off + n) else q.size)
    ensures Step(cs, View(q), a, View(p))
    ensures var n := if c.o >= a.off then c.o - a.off else 0; n == Interleave.Consumed(cs, View(q), a) <= |a.buf|
  {
    WriteTheorem.WriteSpends(cs, Interleave.Start(View(q), a));
    hide WriteTheorem.Write, WellFormed;
  }

  method WriteFile(cs: nat, files: map<nat, Priv>, b: Books, d: nat, a: Interleave.Action)
    returns (p: Priv, b1: Books, rest: seq<byte>)
    requires Ok(cs, files, b) && d in files && Interleave.Enabled(cs, View(files[d]), a) && a.Write?
    ensures OkBut(cs, files[d := p], b1, d) && Stepped(cs, files, files[d := p], d, a)
    ensures Ok(cs, files[d := p], b1) <==> Interleave.Smooth(cs, View(files[d]), a)
    ensures LeftOver(cs, View(files[d]), a, rest)
    ensures |rest| <= |a.buf| && rest == a.buf[|a.buf| - |rest|..]
    ensures Interleave.Smooth(cs, View(files[d]), a) ==>
              var was, got := Interleave.Content(View(files[d])), a.buf[..|a.buf| - |rest|];
              Interleave.Content(View(p)) == if got == [] then was else FlatWrite(was, a.off, got)
  {
    hide Ok, OkBut, Sound, Later, Interleave.Good, WriteTheorem.Write, WellFormed, Interleave.Do, Interleave.Consumed;
    hide Interleave.Smooth;
    JobSound(cs, files, b, d);
    var start := Cursor(JobOf(cs, files, b, d), 0, false, a.off, a.buf, a.spare, a.grants);
    var c, exit := WriteRequests(start, Hidden(files));
    var n := if c.o >= a.off then c.o - a.off else 0;
    p := files[d].(requests := c.j.l, size := if n > 0 then Max(files[d].size, a.off + n) else files[d].size);
    WriteStep(cs, files[d], a, c, exit, p);
    Stored(cs, files, b, d, a, c.j, p);
    b1 := c.j.b;
    rest := a.buf[n..];
    hide Step, LeftOver, View, Interleave.Content;
    if Interleave.Smooth(cs, View(files[d]), a) { WriteContent(cs, View(files[d]), a, View(p), rest); }
  }

  method TruncateFile(cs: nat, files: map<nat, Priv>, b: Books, d: nat, len: nat) returns (p: Priv, b1: Books)
    requires Ok(cs, files, b) && d in files && Interleave.Enabled(cs, View(files[d]), Interleave.TruncateBegin(len))
    ensures Ok(cs, files[d := p], b1) && Stepped(cs, files, files[d := p], d, Interleave.TruncateBegin(len))
    ensures Interleave.Content(View(p)) == Resize(Interleave.Content(View(files[d])), len)
  {
    hide Ok, Sound, Later, Interleave.Good, WellFormed, Interleave.TrimTo, Interleave.Content;
    JobSound(cs, files, b, d);
    var r := TruncateRequests(JobOf(cs, files, b, d), Hidden(files), len);
    p := files[d].(requests := r.l, size := len, ios := Interleave.IosTruncate(len));
    Stored(cs, files, b, d, Interleave.TruncateBegin(len), r, p);
    StepContent(cs, View(files[d]), Interleave.TruncateBegin(len), View(p));
    b1 := r.b;
  }

  // ----- what a flush puts on tape

  /** The bytes of a request are in the file on the data partition. */
  predicate OnRaw(raw: seq<byte>, w: WriteRequest) { w.End() <= |raw| && raw[w.offset..w.End()] == w.data }

  lemma PutOnRaw(raw: seq<byte>, w: WriteRequest)
    ensures OnRaw(FlatWrite(raw, w.offset, w.data), w)
  {
  }

  /** The request that covers an offset decides what is held there. */
  lemma HeldBy(l: seq<Req>, i: nat, x: nat)
    requires Ordered(l) && i < |l| && l[i].Covers(x)
    ensures CellAt(l, x) == CellOf(l[i], x)
  {
    ListEdits.OnlyHere(l, i, x);
    CellCutAt(l, i, x);
  }

  lemma SameRequest(l: seq<WriteRequest>, u: WriteRequest, w: WriteRequest, x: nat)
    requires Ordered(AbsAll(l)) && u in l && w in l && Abs(u).Covers(x) && Abs(w).Covers(x)
    ensures u == w
  {
    var i, k :| 0 <= i < |l| && l[i] == u && 0 <= k < |l| && l[k] == w;
    assert AbsAll(l)[i] == Abs(u) && AbsAll(l)[k] == Abs(w);
  }

  /** No dirty request of the new list covers an offset of a request that is gone or a replica. */
  lemma NotDirty(q: Priv, p: Priv, w: WriteRequest, x: nat)
    requires Ordered(AbsAll(q.requests)) && w in q.requests && Abs(w).Covers(x)
    requires forall u :: u in p.requests && u.state != Ip ==> u in q.requests && u != w
    ensures CellAt(AbsAll(p.requests), x).Held? ==> CellAt(AbsAll(p.requests), x).ip
  {
    var l := AbsAll(p.requests);
    var c := ListEdits.Cover(l, x);
    if c.Some? {
      var k :| 0 <= k < |l| && l[k] == c.value;
      var u := p.requests[k];
      assert l[k] == Abs(u) && u in p.requests;
      if u in q.requests { SameRequest(q.requests, u, w, x); }
    }
  }

  lemma FlushedByte(cs: nat, q: Priv, p: Priv, a: Interleave.Action, w: WriteRequest, x: nat)
    requires Interleave.Good(cs, View(q)) && a.Flush? && Step(cs, View(q), a, View(p))
    requires w in q.requests && w.state != Ip && Abs(w).Covers(x)
    requires forall u :: u in p.requests && u.state != Ip ==> u in q.requests && u != w
    ensures x < |p.raw| && p.raw[x] == w.data[x - w.offset]
  {
    hide Interleave.FlushFrom, Interleave.Content, Interleave.Reading;
    InterleaveProofs.FlushSame(cs, View(q), a);
    var l := AbsAll(q.requests);
    var i :| 0 <= i < |q.requests| && q.requests[i] == w;
    assert l[i] == Abs(w);
    HeldBy(l, i, x);
    NotDirty(q, p, w, x);
    assert ListEdits.SettledAt(l, q.raw, AbsAll(p.requests), p.raw, x);
  }

  lemma FlushedBytes(cs: nat, q: Priv, p: Priv, a: Interleave.Action, w: WriteRequest)
    requires Interleave.Good(cs, View(q)) && a.Flush? && Step(cs, View(q), a, View(p))
    requires w in q.requests && w.state != Ip
    requires forall u :: u in p.requests && u.state != Ip ==> u in q.requests && u != w
    ensures OnRaw(p.raw, w)
  {
    hide Interleave.Good, Step;
    NotEmpty(cs, q, w);
    forall x: nat | w.offset <= x < w.End() ensures x < |p.raw| && p.raw[x] == w.data[x - w.offset] {
      FlushedByte(cs, q, p, a, w, x);
    }
    FlushedByte(cs, q, p, a, w, w.End() - 1);
  }

  lemma NotEmpty(cs: nat, q: Priv, w: WriteRequest)
    requires Interleave.Good(cs, View(q)) && w in q.requests
    ensures w.data != []
  {
    var i :| 0 <= i < |q.requests| && q.requests[i] == w;
    assert AbsAll(q.requests)[i] == Abs(w);
  }

  /** With nothing but replicas in the list, the file is what is on the data partition. */
  lemma AllReplicas(cs: nat, f: Interleave.File)
    requires Interleave.Good(cs, f) && f.flight == [] && !f.ios.IosTruncate?
    requires forall i :: 0 <= i < |f.reqs| ==> f.reqs[i].ip
    ensures Interleave.Content(f) == f.raw
  {
    forall x: nat ensures CellAt(f.reqs, x).Held? ==> CellAt(f.reqs, x).ip {
      var c := ListEdits.Cover(f.reqs, x);
      if c.Some? { var k :| 0 <= k < |f.reqs| && f.reqs[k] == c.value; }
    }
    assert f.size == |f.raw|;
    forall x | 0 <= x < f.size ensures Interleave.Content(f)[x] == f.raw[x] {
      assert Interleave.ByteAt(f, x) == f.raw[x];
    }
  }

  /** What is left of a file's list and what is on tape after a flush of everything, or of the full blocks only. */
  ghost predicate Settled(q: Priv, p: Priv, all: bool) {
    && (all ==> (forall w :: w in p.requests ==> w.state == Ip) && p.raw == Interleave.Content(View(p)))
    && (all && !q.writeIp ==> p.requests == [])
    && (!all ==> forall w :: w in p.requests && w.state != Ip ==> w.state == Partial)
    && (!all ==> forall w: WriteRequest :: w.state == Partial ==> (w in p.requests <==> w in q.requests))
    && (forall w :: w in q.requests && (w.state == Dp || (all && w.state == Partial)) ==> OnRaw(p.raw, w))
  }

  lemma FlushSettled(cs: nat, q: Priv, p: Priv, a: Interleave.Action, all: bool)
    requires Interleave.Good(cs, View(q)) && Interleave.Good(cs, View(p)) && a.Flush? && Step(cs, View(q), a, View(p))
    requires Flushed(q.requests, p.requests, q.writeIp, all)
    ensures Settled(q, p, all)
  {
    IdleAfter(cs, View(q), a, View(p));
    if !q.writeIp { DirtyOnly(cs, q); }
    hide Interleave.Good, Step, NoReplica;
    forall w | w in q.requests && (w.state == Dp || (all && w.state == Partial)) ensures OnRaw(p.raw, w) {
      FlushedBytes(cs, q, p, a, w);
    }
    if all {
      forall i | 0 <= i < |p.requests| ensures AbsAll(p.requests)[i].ip { assert p.requests[i] in p.requests; }
      AllReplicas(cs, View(p));
      if p.requests != [] { assert p.requests[0] in p.requests; }
    }
  }

  lemma IdleAfter(cs: nat, f: Interleave.File, a: Interleave.Action, g: Interleave.File)
    requires Interleave.Good(cs, f) && a.Flush? && Step(cs, f, a, g)
    ensures g.flight == [] && !g.ios.IosTruncate?
  {
    hide Interleave.FlushFrom;
  }

  lemma DirtyOnly(cs: nat, q: Priv)
    requires Interleave.Good(cs, View(q)) && !q.writeIp
    ensures NoReplica(q.requests)
  {
    NoneIp(q.requests);
  }

  method FlushFile(cs: nat, files: map<nat, Priv>, b: Books, d: nat, all: bool) returns (p: Priv, b1: Books)
    requires Ok(cs, files, b) && d in files &&
             Interleave.Enabled(cs, View(files[d]), Interleave.Flush(Offsets(files[d].requests, all)))
    ensures Ok(cs, files[d := p], b1)
    ensures Stepped(cs, files, files[d := p], d, Interleave.Flush(Offsets(files[d].requests, all)))
    ensures Settled(files[d], p, all)
  {
    hide Ok, Sound, Later, Interleave.Good, WellFormed, Interleave.FlushFrom, Offsets, Flushed, Settled;
    JobSound(cs, files, b, d);
    var r, tape := FlushRequests(JobOf(cs, files, b, d), Hidden(files), files[d].raw, all);
    p := files[d].(requests := r.l, raw := tape);
    Stored(cs, files, b, d, Interleave.Flush(Offsets(files[d].requests, all)), r, p);
    JobSound(cs, files[d := p], r.b, d);
    FlushSettled(cs, files[d], p, Interleave.Flush(Offsets(files[d].requests, all)), all);
    b1 := r.b;
  }

  /** Everything, or exactly the full and promoted blocks, moves to the writer's private list. */
  ghost predicate Taken(l: seq<WriteRequest>, left: seq<WriteRequest>, flight: seq<WriteRequest>, all: bool) {
    if all then left == [] && flight == l
    else (forall w :: w in left <==> w in l && w.state == Partial) &&
         (forall w :: w in flight <==> w in l && w.state == Dp)
  }

  method TakeFile(cs: nat, files: map<nat, Priv>, b: Books, d: nat, all: bool) returns (p: Priv, b1: Books)
    requires Ok(cs, files, b) && d in files &&
             Interleave.Enabled(cs, View(files[d]), Interleave.Take(Offsets(files[d].requests, all)))
    ensures Ok(cs, files[d := p], b1)
    ensures Stepped(cs, files, files[d := p], d, Interleave.Take(Offsets(files[d].requests, all)))
    ensures Taken(files[d].requests, p.requests, p.flight, all)
  {
    JobSound(cs, files, b, d);
    assert Interleave.AllDirty(AbsAll(files[d].requests));
    hide Ok, Sound, Later, Interleave.Good, WellFormed, Interleave.Left, Interleave.Taken, Offsets, Interleave.AllDirty;
    var r, flight := TakeRequests(JobOf(cs, files, b, d), Hidden(files), all);
    p := files[d].(requests := r.l, flight := flight, io := Interleave.IoWriter);
    Stored(cs, files, b, d, Interleave.Take(Offsets(files[d].requests, all)), r, p);
    b1 := r.b;
  }

  /** The replicas are gone, and everything else is there. */
  ghost predicate NoCopies(l: seq<WriteRequest>, r: seq<WriteRequest>) {
    forall w :: w in r <==> w in l && w.state != Ip
  }

  method DropReplicasOf(cs: nat, files: map<nat, Priv>, b: Books, d: nat) returns (p: Priv, b1: Books)
    requires Ok(cs, files, b) && d in files && Interleave.Enabled(cs, View(files[d]), Interleave.IndexQueue)
    ensures Ok(cs, files[d := p], b1) && Stepped(cs, files, files[d := p], d, Interleave.IndexQueue)
    ensures p == files[d].(requests := p.requests) && NoCopies(files[d].requests, p.requests)
  {
    hide Ok, Sound, Later, Interleave.Good, WellFormed, Interleave.DropIp;
    JobSound(cs, files, b, d);
    var r := DropReplicas(JobOf(cs, files, b, d), Hidden(files));
    p := files[d].(requests := r.l);
    Stored(cs, files, b, d, Interleave.IndexQueue, r, p);
    b1 := r.b;
  }

  method UnsetWriteIpOf(cs: nat, files: map<nat, Priv>, b: Books, d: nat) returns (p: Priv, b1: Books)
    requires Ok(cs, files, b) && d in files && files[d].writeIp &&
             Interleave.Enabled(cs, View(files[d]), Interleave.UnsetIp)
    ensures Ok(cs, files[d := p], b1) && Stepped(cs, files, files[d := p], d, Interleave.UnsetIp)
    ensures p == files[d].(requests := p.requests, writeIp := false) && NoCopies(files[d].requests, p.requests)
  {
    hide Ok, Sound, Later, Interleave.Good, WellFormed, Interleave.DropIp;
    JobSound(cs, files, b, d);
    var r := DropReplicas(JobOf(cs, files, b, d), Hidden(files));
    p := files[d].(requests := r.l, writeIp := false);
    Switched(cs, files, b, d, Interleave.UnsetIp, r, p);
    b1 := Switch(r.b, d, false);
  }

  method SetWriteIpOf(cs: nat, files: map<nat, Priv>, b: Books, d: nat) returns (p: Priv, b1: Books)
    requires Ok(cs, files, b) && d in files && !files[d].writeIp &&
             Interleave.Enabled(cs, View(files[d]), Interleave.SetIp)
    ensures Ok(cs, files[d := p], b1) && Stepped(cs, files, files[d := p], d, Interleave.SetIp)
    ensures p == files[d].(writeIp := true)
  {
    var j := JobOf(cs, files, b, d);
    LaterSelf(j);
    hide Ok, Sound, Later, Interleave.Good, WellFormed;
    JobSound(cs, files, b, d);
    p := files[d].(writeIp := true);
    Switched(cs, files, b, d, Interleave.SetIp, j, p);
    b1 := Switch(b, d, true);
  }

  /** The next request of the writer's private list goes to tape. */
  method SendOne(cs: nat, q: Priv) returns (p: Priv)
    requires Interleave.Enabled(cs, View(q), Interleave.WriteOne)
    ensures p == q.(raw := p.raw, flight := p.flight)
    ensures 0 < cs && WellFormed(View(q).reqs, cs) ==> View(p) == Interleave.Do(cs, View(q), Interleave.WriteOne)
    ensures q.flight != [] && q.flight == [q.flight[0]] + p.flight && OnRaw(p.raw, q.flight[0])
  {
    PutOnRaw(q.raw, q.flight[0]);
    hide OnRaw, FlatWrite;
    p := q.(raw := FlatWrite(q.raw, q.flight[0].offset, q.flight[0].data), flight := q.flight[1..]);
    assert View(p).flight == View(q).flight[1..];
  }

  // ----- copies on the index partition

  /** The blocks of the index partition, and every file's alt_extentlist. */
  datatype Side = Side(index: Partition, alts: map<nat, seq<Extents.Extent>>)

  /** Block size and number of the index partition. */
  datatype Layout = Layout(bs: nat, ip: nat)

  ghost predicate Copied(k: Layout, files: map<nat, Priv>, s: Side, missed: map<nat, set<nat>>, d: nat)
    requires d in files
  {
    d in s.alts && d in missed && Joint(k.bs, k.ip, s.index, View(files[d]), Copies(s.alts[d], missed[d]))
  }

  /** Every file's list is in step with its requests and its data. */
  ghost predicate Synced(k: Layout, files: map<nat, Priv>, s: Side, missed: map<nat, set<nat>>) {
    0 < k.bs && forall d :: d in files ==> Copied(k, files, s, missed, d)
  }

  /** What a step on file d does to the copies. */
  ghost predicate SideStepped(k: Layout, cs: nat, files: map<nat, Priv>, s: Side, missed: map<nat, set<nat>>, d: nat,
                              a: Interleave.Action, room: nat, s1: Side, missed1: map<nat, set<nat>>) {
    && d in files && d in s.alts && d in missed
    && 0 < k.bs && 0 < cs && WellFormed(AbsAll(files[d].requests), cs) && Interleave.Enabled(cs, View(files[d]), a)
    && var (c, t) := NextCopies(k.bs, k.ip, cs, View(files[d]), a, room, Copies(s.alts[d], missed[d]), s.index);
       s1 == Side(t, s.alts[d := c.alt]) && missed1 == missed[d := c.missed]
  }

  lemma SyncedKeeps(k: Layout, cs: nat, files: map<nat, Priv>, b: Books, s: Side, missed: map<nat, set<nat>>, d: nat,
                    a: Interleave.Action, room: nat, g: map<nat, Priv>, s1: Side, missed1: map<nat, set<nat>>)
    requires Ok(cs, files, b) && Synced(k, files, s, missed) && Stepped(cs, files, g, d, a)
    requires SideStepped(k, cs, files, s, missed, d, a, room, s1, missed1) && Interleave.Smooth(cs, View(files[d]), a)
    ensures Synced(k, g, s1, missed1)
  {
    JobSound(cs, files, b, d);
    hide Ok, Interleave.Good, Joint, NextCopies, Interleave.Do, Interleave.Enabled, WellFormed, View;
    assert Copied(k, files, s, missed, d);
    JointKeeps(k.bs, k.ip, cs, s.index, View(files[d]), Copies(s.alts[d], missed[d]), a, room);
    forall e | e in g ensures Copied(k, g, s1, missed1, e) {
      if e != d {
        assert Copied(k, files, s, missed, e);
        JointGrows(k.bs, k.ip, s.index, s1.index, View(files[e]), Copies(s.alts[e], missed[e]));
      }
    }
  }

  /** Steps that do not touch the lists. */
  predicate CopiesStay(a: Interleave.Action) { !a.Write? && !a.TruncateBegin? && !a.UnsetIp? && !a.IndexQueue? }

  lemma SideStays(k: Layout, cs: nat, files: map<nat, Priv>, b: Books, s: Side, missed: map<nat, set<nat>>, d: nat,
                  a: Interleave.Action, g: map<nat, Priv>)
    requires Ok(cs, files, b) && Synced(k, files, s, missed) && Stepped(cs, files, g, d, a) && CopiesStay(a)
    ensures Synced(k, g, s, missed)
  {
    hide Ok, Joint, Interleave.Do, WellFormed;
    assert Copied(k, files, s, missed, d);
    assert s.alts[d := s.alts[d]] == s.alts && missed[d := missed[d]] == missed;
    SyncedKeeps(k, cs, files, b, s, missed, d, a, 0, g, s, missed);
  }

  /** The loop of `_unified_process_index_queue`: replicas are written and their extents added until the partition
      has no room left. */
  method CopyReplicas(k: Layout, l: seq<WriteRequest>, room: nat, alt: seq<Extents.Extent>, t: Partition,
                      ghost missed: set<nat>, ghost cs: nat) returns (alt1: seq<Extents.Extent>, t1: Partition)
    requires 0 < k.bs && AltExtents.AltOk(k.bs, k.ip, |t| * k.bs, alt) && Fits(AbsAll(l), cs)
    ensures var (c, u) := Spill(k.bs, k.ip, AbsAll(l), room, Copies(alt, missed), t); alt1 == c.alt && t1 == u
  {
    hide AltExtents.AltOk, Copy;
    ghost var all := AbsAll(l);
    ghost var m := missed;
    alt1, t1 := alt, t;
    var left := room;
    assert all[0..] == all && all[|l|..] == [];
    for i := 0 to |l|
      invariant AltExtents.AltOk(k.bs, k.ip, |t1| * k.bs, alt1)
      invariant Spill(k.bs, k.ip, all[i..], left, Copies(alt1, m), t1) ==
                Spill(k.bs, k.ip, all, room, Copies(alt, missed), t)
    {
      assert all[i..][0] == Abs(l[i]) && all[i..][1..] == all[i + 1..];
      if l[i].state == Ip {
        if left == 0 {
          m := m + Range(l[i].offset, l[i].End());
        } else {
          alt1, t1 := CopyReplica(k, l[i], alt1, t1, m);
          m := m - Range(l[i].offset, l[i].End());
          left := left - 1;
        }
      }
    }
  }

  method CopyReplica(k: Layout, w: WriteRequest, alt: seq<Extents.Extent>, t: Partition, ghost m: set<nat>)
    returns (alt1: seq<Extents.Extent>, t1: Partition)
    requires 0 < k.bs && AltExtents.AltOk(k.bs, k.ip, |t| * k.bs, alt) && w.data != []
    ensures (Copies(alt1, m - Range(w.offset, w.End())), t1) == Copy(k.bs, k.ip, Abs(w), Copies(alt, m), t)
    ensures AltExtents.AltOk(k.bs, k.ip, |t1| * k.bs, alt1)
  {
    hide AltExtents.AltOk;
    CopyFresh(k.bs, k.ip, Abs(w), t);
    t1 := RawTape.WriteBlocks(k.bs, t, w.data);
    alt1 := AltExtents.UpdateAltExtentList(k.bs, alt, Extents.Extent(k.ip, |t|, 0, |w.data|, w.offset),
                                           k.ip, |t| * k.bs, |t1| * k.bs);
  }

  lemma WriteSide(k: Layout, cs: nat, files: map<nat, Priv>, b: Books, s: Side, missed: map<nat, set<nat>>, d: nat,
                  a: Interleave.Action) returns (m: map<nat, set<nat>>)
    requires Ok(cs, files, b) && Synced(k, files, s, missed) && d in files && a.Write?
    requires Interleave.Enabled(cs, View(files[d]), a)
    ensures SideStepped(k, cs, files, s, missed, d, a, 0, s, m)
  {
    hide Ok, Joint, WellFormed, Interleave.Good, Interleave.Consumed;
    JobSound(cs, files, b, d);
    assert Copied(k, files, s, missed, d);
    var c := Copies(s.alts[d], missed[d]);
    m := missed[d := NextCopies(k.bs, k.ip, cs, View(files[d]), a, 0, c, s.index).0.missed];
    assert s.alts[d := s.alts[d]] == s.alts;
  }

  /** The alt_extentlist part of `unified_truncate`. */
  method TruncateSide(k: Layout, cs: nat, files: map<nat, Priv>, ghost b: Books, s: Side,
                      ghost missed: map<nat, set<nat>>, d: nat, len: nat)
    returns (s1: Side, ghost m: map<nat, set<nat>>)
    requires Ok(cs, files, b) && Synced(k, files, s, missed) && d in files
    requires Interleave.Enabled(cs, View(files[d]), Interleave.TruncateBegin(len))
    ensures SideStepped(k, cs, files, s, missed, d, Interleave.TruncateBegin(len), 0, s1, m)
  {
    hide Ok, Joint, WellFormed, Interleave.Good;
    JobSound(cs, files, b, d);
    assert Copied(k, files, s, missed, d);
    var l := s.alts[d];
    if len < files[d].size { l := AltExtents.CutList(l, len); }
    s1 := s.(alts := s.alts[d := l]);
    ghost var c := Copies(s.alts[d], missed[d]);
    m := missed[d := NextCopies(k.bs, k.ip, cs, View(files[d]), Interleave.TruncateBegin(len), 0, c, s.index).0.missed];
  }

  method QueueSide(k: Layout, ghost cs: nat, files: map<nat, Priv>, ghost b: Books, s: Side,
                   ghost missed: map<nat, set<nat>>, d: nat, room: nat) returns (s1: Side, ghost m: map<nat, set<nat>>)
    requires Ok(cs, files, b) && Synced(k, files, s, missed) && d in files
    requires Interleave.Enabled(cs, View(files[d]), Interleave.IndexQueue)
    ensures SideStepped(k, cs, files, s, missed, d, Interleave.IndexQueue, room, s1, m)
  {
    hide Ok, Spill, Interleave.Good, AltExtents.AltOk, Fine;
    JobSound(cs, files, b, d);
    assert Copied(k, files, s, missed, d);
    var l, t := CopyReplicas(k, files[d].requests, room, s.alts[d], s.index, missed[d], cs);
    s1 := Side(t, s.alts[d := l]);
    ghost var c := Copies(s.alts[d], missed[d]);
    m := missed[d := Spill(k.bs, k.ip, AbsAll(files[d].requests), room, c, s.index).0.missed];
  }

  /** A scan of the list and what it makes of the file's private data. */
  method ScanFile(ghost cs: nat, f: Priv, id: nat, off: nat, buf: seq<byte>)
    returns (p: Priv, b: seq<byte>, q: seq<ReadRequest>, n: nat, done: bool)
    requires Interleave.Good(cs, View(f)) && Interleave.Enabled(cs, View(f), Interleave.ReadScan(id, off, |buf|))
    ensures p.requests == f.requests && p.writeIp == f.writeIp
    ensures Step(cs, View(f), Interleave.ReadScan(id, off, |buf|), View(p))
    ensures done ==> b == FlatRead(Interleave.Content(View(f)), off, |buf|)
    ensures !done ==> id in p.readers && Matches(p.readers[id], b, q, n) && p.readers[id].off == off
  {
    var l := AbsAll(f.requests);
    assert Ordered(l);
    hide Interleave.Good, Interleave.PlanFor, Interleave.Content, Planned, Matches, Queued;
    b, q, n := Scan(l, off, buf);
    var r := Interleave.Pending(off, |buf|, Interleave.PlanFor(l, off, |buf|),
                                FlatRead(Interleave.Content(View(f)), off, |buf|));
    PlannedMatches(l, off, b, q, n, r);
    NothingQueued(r, b, q, n);
    done := q == [] && n == |buf|;
    if done {
      CachedRead(cs, View(f), r);
      p := f.(replies := f.replies + [Interleave.Reply(b, r.snap)]);
    } else {
      p := f.(readers := f.readers[id := r], ios := Interleave.IosRead(id));
    }
    GoodShape(cs, View(f));
  }

  lemma CachedRead(cs: nat, f: Interleave.File, p: Interleave.Pending)
    requires Interleave.Good(cs, f) && p.plan == Interleave.PlanFor(f.reqs, p.off, p.count) && Interleave.AllCached(p)
    ensures Interleave.Result(p, []) == FlatRead(Interleave.Content(f), p.off, p.count)
  {
    InterleaveProofs.CachedIsContent(cs, f, p);
  }

  lemma GoodShape(cs: nat, f: Interleave.File)
    requires Interleave.Good(cs, f)
    ensures 0 < cs && WellFormed(f.reqs, cs)
  {
  }

  /** A reader that holds io_lock will return what the file held when it scanned the list. */
  lemma GoodRead(cs: nat, f: Interleave.File, id: nat)
    requires Interleave.Good(cs, f) && f.io == Interleave.IoRead(id) && f.ios != Interleave.IosRead(id)
    ensures id in f.readers && |f.readers[id].plan| <= f.readers[id].count
    ensures f.readers[id].snap == Interleave.Result(f.readers[id], f.raw)
  {
    assert Interleave.ReadOk(f, id);
  }

  lemma OpenSide(k: Layout, files: map<nat, Priv>, s: Side, missed: map<nat, set<nat>>, d: nat, p: Priv)
    requires Synced(k, files, s, missed) && d !in files
    ensures Synced(k, files[d := p], s.(alts := s.alts[d := []]), missed[d := {}])
  {
    hide Joint;
    var g, s1, m := files[d := p], s.(alts := s.alts[d := []]), missed[d := {}];
    forall e | e in g ensures Copied(k, g, s1, m, e) {
      if e == d {
        JointNone(k.bs, k.ip, s.index, View(p), Copies([], {}));
      } else {
        assert Copied(k, files, s, missed, e);
      }
    }
  }

  lemma FreeSide(k: Layout, files: map<nat, Priv>, s: Side, missed: map<nat, set<nat>>, d: nat)
    requires Synced(k, files, s, missed)
    ensures Synced(k, files - {d}, s.(alts := s.alts - {d}), missed - {d})
  {
    hide Joint;
    var g, s1, m := files - {d}, s.(alts := s.alts - {d}), missed - {d};
    forall e | e in g ensures Copied(k, g, s1, m, e) { assert Copied(k, files, s, missed, e); }
  }

  /** The copies that libltfs takes agree with the data partition wherever they are in doubt. */
  ghost predicate Harmless(k: Layout, t: Partition, f: Interleave.File, c: Copies, took: seq<bool>)
    requires 0 < k.bs && |took| == |c.alt|
  {
    forall x: nat :: Doubtful(f, c, took, x) ==> Agrees(k.bs, t, f.raw, AltExtents.Kept(c.alt, took), x)
  }

  /** A file that is given up with requests in its list leaves counters behind that count nothing. */
  lemma LeftBehind(cs: nat, files: map<nat, Priv>, b: Books, d: nat)
    requires Ok(cs, files, b) && d in files && files[d].requests != []
    ensures !Ok(cs, files - {d}, b)
  {
    assert FileOk(cs, files, b, d);
    var s := files[d].requests[0].state;
    assert Count(files[d].requests, s) > 0;
    assert b.Of(s).Count(d) > 0;
    assert !FileOk(cs, files - {d}, b, d);
  }

  class UnifiedData {
    const cacheSize: nat
    const layout: Layout
    var files: map<nat, Priv>
    var books: Books
    var side: Side
    ghost var missed: map<nat, set<nat>>

    ghost predicate Valid() reads this { Ok(cacheSize, files, books) && Synced(layout, files, side, missed) }

    constructor (cs: nat, bs: nat, ip: nat, index: Partition)
      requires 0 < cs && 0 < bs
      ensures Valid() && cacheSize == cs && layout == Layout(bs, ip) && files == map[] && side.index == index
    {
      cacheSize, layout, files, books := cs, Layout(bs, ip), map[], Books(EMPTY, EMPTY, EMPTY);
      side, missed := Side(index, map[]), map[];
    }

    predicate May(d: nat, a: Interleave.Action)
      reads this
    {
      d in files && Interleave.Enabled(cacheSize, View(files[d]), a)
    }

    /** One stretch of `unified_write` with iosched_lock held. What is left over when the pool runs out of
        blocks is for the next call, which holds the block it waited for. The invariant is kept exactly if the write
        is smooth; the counters are exact in any case. */
    method Write(d: nat, off: nat, buf: seq<byte>, spare: bool, grants: nat) returns (rest: seq<byte>)
      requires Valid() && May(d, Interleave.Write(off, buf, spare, grants))
      modifies this
      ensures Stepped(cacheSize, old(files), files, d, Interleave.Write(off, buf, spare, grants))
      ensures Valid() <==> Interleave.Smooth(cacheSize, View(old(files)[d]), Interleave.Write(off, buf, spare, grants))
      ensures OkBut(cacheSize, files, books, d)
      ensures |rest| <= |buf| && rest == buf[|buf| - |rest|..]
      ensures Interleave.Smooth(cacheSize, View(old(files)[d]), Interleave.Write(off, buf, spare, grants)) ==>
                var was, got := Interleave.Content(View(old(files)[d])), buf[..|buf| - |rest|];
                Interleave.Content(View(files[d])) == if got == [] then was else FlatWrite(was, off, got)
      ensures LeftOver(cacheSize, View(old(files)[d]), Interleave.Write(off, buf, spare, grants), rest)
      ensures SideStepped(layout, cacheSize, old(files), old(side), old(missed), d,
                          Interleave.Write(off, buf, spare, grants), 0, side, missed)
    {
      hide Ok, OkBut, Synced, SideStepped, LeftOver, View, Interleave.Enabled, Interleave.Smooth, Step,
           Interleave.Content;
      ghost var a := Interleave.Write(off, buf, spare, grants);
      var p, b;
      p, b, rest := WriteFile(cacheSize, files, books, d, Interleave.Write(off, buf, spare, grants));
      ghost var m := WriteSide(layout, cacheSize, files, books, side, missed, d, a);
      if Interleave.Smooth(cacheSize, View(files[d]), a) {
        SyncedKeeps(layout, cacheSize, files, books, side, missed, d, a, 0, files[d := p], side, m);
      }
      files, books, missed := files[d := p], b, m;
    }

    /** The part of `unified_truncate` before it waits for the tape. */
    method Truncate(d: nat, len: nat)
      requires Valid() && May(d, Interleave.TruncateBegin(len))
      modifies this
      ensures Valid() && Stepped(cacheSize, old(files), files, d, Interleave.TruncateBegin(len))
      ensures Interleave.Content(View(files[d])) == Resize(Interleave.Content(View(old(files)[d])), len)
      ensures SideStepped(layout, cacheSize, old(files), old(side), old(missed), d,
                          Interleave.TruncateBegin(len), 0, side, missed)
    {
      hide Ok, Synced, SideStepped, View, Interleave.Enabled, Step, Interleave.Content;
      var p, b := TruncateFile(cacheSize, files, books, d, len);
      var s;
      ghost var m;
      s, m := TruncateSide(layout, cacheSize, files, books, side, missed, d, len);
      SyncedKeeps(layout, cacheSize, files, books, side, missed, d, Interleave.TruncateBegin(len), 0,
                  files[d := p], s, m);
      files, books, side, missed := files[d := p], b, s, m;
    }

    /** `_unified_flush_unlocked` (all set), or `_unified_process_data_queue` on a file bound for the index
        partition. */
    method Flush(d: nat, all: bool)
      requires Valid() && d in files && May(d, Interleave.Flush(Offsets(files[d].requests, all)))
      modifies this
      ensures Valid() && d in old(files) && side == old(side) && missed == old(missed)
      ensures Stepped(cacheSize, old(files), files, d, Interleave.Flush(Offsets(old(files)[d].requests, all)))
      ensures Settled(old(files)[d], files[d], all)
    {
      var p, b := FlushFile(cacheSize, files, books, d, all);
      Put(d, Interleave.Flush(Offsets(files[d].requests, all)), p, b);
    }

    /** A step that leaves the lists of copies alone. */
    method Put(d: nat, ghost a: Interleave.Action, p: Priv, b: Books)
      requires Valid() && CopiesStay(a) && Ok(cacheSize, files[d := p], b) &&
               Stepped(cacheSize, files, files[d := p], d, a)
      modifies this
      ensures Valid() && files == old(files)[d := p] && side == old(side) && missed == old(missed)
    {
      hide Ok, Synced, Stepped;
      SideStays(layout, cacheSize, files, books, side, missed, d, a, files[d := p]);
      files, books := files[d := p], b;
    }

    /** `_unified_process_data_queue` up to where it drops iosched_lock. */
    method Take(d: nat, all: bool)
      requires Valid() && d in files && May(d, Interleave.Take(Offsets(files[d].requests, all)))
      modifies this
      ensures Valid() && d in old(files) && side == old(side) && missed == old(missed)
      ensures Stepped(cacheSize, old(files), files, d, Interleave.Take(Offsets(old(files)[d].requests, all)))
      ensures Taken(old(files)[d].requests, files[d].requests, files[d].flight, all)
    {
      var p, b := TakeFile(cacheSize, files, books, d, all);
      Put(d, Interleave.Take(Offsets(files[d].requests, all)), p, b);
    }

    /** `_unified_process_index_queue` for one file, on an index partition with room for the given number of
        requests. */
    method ProcessIndexQueue(d: nat, room: nat)
      requires Valid() && May(d, Interleave.IndexQueue)
      modifies this
      ensures Valid() && Stepped(cacheSize, old(files), files, d, Interleave.IndexQueue)
      ensures NoCopies(old(files)[d].requests, files[d].requests)
      ensures SideStepped(layout, cacheSize, old(files), old(side), old(missed), d,
                          Interleave.IndexQueue, room, side, missed)
    {
      hide Ok, Synced, SideStepped, View, Interleave.Enabled, Step, NoCopies;
      var s;
      ghost var m;
      s, m := QueueSide(layout, cacheSize, files, books, side, missed, d, room);
      var p, b := DropReplicasOf(cacheSize, files, books, d);
      SyncedKeeps(layout, cacheSize, files, books, side, missed, d, Interleave.IndexQueue, room, files[d := p], s, m);
      files, books, side, missed := files[d := p], b, s, m;
    }

    /** Other users of the index partition only append to it. */
    method IndexGrows(blocks: Partition)
      requires Valid()
      modifies this
      ensures Valid() && files == old(files) && side == old(side).(index := old(side).index + blocks) &&
              missed == old(missed)
    {
      var s := side.(index := side.index + blocks);
      forall e | e in files ensures Copied(layout, files, s, missed, e) {
        assert Copied(layout, files, side, missed, e);
        JointGrows(layout.bs, layout.ip, side.index, s.index, View(files[e]), Copies(side.alts[e], missed[e]));
      }
      side := s;
    }

    /** `_unified_set_write_ip` */
    method SetWriteIp(d: nat)
      requires Valid() && May(d, Interleave.SetIp) && !files[d].writeIp
      modifies this
      ensures Valid() && Stepped(cacheSize, old(files), files, d, Interleave.SetIp)
      ensures files[d] == old(files)[d].(writeIp := true)
      ensures side == old(side) && missed == old(missed)
    {
      var p, b := SetWriteIpOf(cacheSize, files, books, d);
      Put(d, Interleave.SetIp, p, b);
    }

    /** `_unified_unset_write_ip` */
    method UnsetWriteIp(d: nat)
      requires Valid() && May(d, Interleave.UnsetIp) && files[d].writeIp
      modifies this
      ensures Valid() && Stepped(cacheSize, old(files), files, d, Interleave.UnsetIp)
      ensures !files[d].writeIp && NoCopies(old(files)[d].requests, files[d].requests)
      ensures d in side.alts && side.alts[d] == []
      ensures SideStepped(layout, cacheSize, old(files), old(side), old(missed), d, Interleave.UnsetIp, 0, side, missed)
    {
      hide Ok, View, Interleave.Good, Joint, Step, WellFormed, NoCopies;
      var p, b := UnsetWriteIpOf(cacheSize, files, books, d);
      assert Copied(layout, files, side, missed, d);
      JobSound(cacheSize, files, books, d);
      var s := side.(alts := side.alts[d := []]);
      ghost var m := missed[d := {}];
      SyncedKeeps(layout, cacheSize, files, books, side, missed, d, Interleave.UnsetIp, 0, files[d := p], s, m);
      files, books, side, missed := files[d := p], b, s, m;
    }

    /** The background writer sends the next request of its private list to tape. */
    method WriteOne(d: nat)
      requires Valid() && May(d, Interleave.WriteOne)
      modifies this
      ensures Valid() && Stepped(cacheSize, old(files), files, d, Interleave.WriteOne)
      ensures old(files)[d].flight != [] && old(files)[d].flight == [old(files)[d].flight[0]] + files[d].flight
      ensures OnRaw(files[d].raw, old(files)[d].flight[0])
      ensures side == old(side) && missed == old(missed)
    {
      hide OnRaw, Ok, Synced, Interleave.Do, WellFormed;
      var p := SendOne(cacheSize, files[d]);
      StoredRest(cacheSize, files, books, d, Interleave.WriteOne, p);
      Put(d, Interleave.WriteOne, p, books);
    }

    /** The background writer is through with a file. */
    method WriterDone(d: nat)
      requires Valid() && May(d, Interleave.WriterDone)
      modifies this
      ensures Valid() && Stepped(cacheSize, old(files), files, d, Interleave.WriterDone)
      ensures side == old(side) && missed == old(missed)
    {
      var p := files[d].(io := Interleave.IoFree);
      StoredRest(cacheSize, files, books, d, Interleave.WriterDone, p);
      Put(d, Interleave.WriterDone, p, books);
    }

    /** The end of `unified_truncate`: the file on tape is cut or grown. */
    method TruncateRaw(d: nat)
      requires Valid() && May(d, Interleave.TruncateEnd)
      modifies this
      ensures Valid() && Stepped(cacheSize, old(files), files, d, Interleave.TruncateEnd)
      ensures side == old(side) && missed == old(missed)
    {
      var p := files[d].(raw := Resize(files[d].raw, files[d].ios.len), ios := Interleave.IosFree);
      StoredRest(cacheSize, files, books, d, Interleave.TruncateEnd, p);
      Put(d, Interleave.TruncateEnd, p, books);
    }

    /** `unified_read` while it holds iosched_lock: the list is scanned into the buffer. The read is done if that
        filled it; else the rest is to come from tape. */
    method ReadScan(d: nat, id: nat, off: nat, buf: seq<byte>)
      returns (b: seq<byte>, q: seq<ReadRequest>, n: nat, done: bool)
      requires Valid() && May(d, Interleave.ReadScan(id, off, |buf|))
      modifies this
      ensures Valid() && Stepped(cacheSize, old(files), files, d, Interleave.ReadScan(id, off, |buf|))
      ensures side == old(side) && missed == old(missed)
      ensures done ==> b == FlatRead(Interleave.Content(View(old(files)[d])), off, |buf|)
      ensures !done ==>
                id in files[d].readers && Matches(files[d].readers[id], b, q, n) && files[d].readers[id].off == off
    {
      JobSound(cacheSize, files, books, d);
      var p;
      p, b, q, n, done := ScanFile(cacheSize, files[d], id, off, buf);
      StoredRest(cacheSize, files, books, d, Interleave.ReadScan(id, off, |buf|), p);
      Put(d, Interleave.ReadScan(id, off, |buf|), p, books);
    }

    /** The reader takes io_lock and then lets go of iosched_lock. */
    method ReadLock(d: nat, id: nat)
      requires Valid() && May(d, Interleave.ReadLock(id))
      modifies this
      ensures Valid() && Stepped(cacheSize, old(files), files, d, Interleave.ReadLock(id))
      ensures side == old(side) && missed == old(missed)
    {
      var p := files[d].(ios := Interleave.IosFree, io := Interleave.IoRead(id));
      StoredRest(cacheSize, files, books, d, Interleave.ReadLock(id), p);
      Put(d, Interleave.ReadLock(id), p, books);
    }

    /** `unified_read` with io_lock held. It returns what the file held when the list was scanned. */
    method ReadTape(d: nat, id: nat, off: nat, b: seq<byte>, q: seq<ReadRequest>, n: nat) returns (got: seq<byte>)
      requires Valid() && May(d, Interleave.ReadTape(id)) && id in files[d].readers
      requires Matches(files[d].readers[id], b, q, n) && files[d].readers[id].off == off
      modifies this
      ensures Valid() && Stepped(cacheSize, old(files), files, d, Interleave.ReadTape(id))
      ensures side == old(side) && missed == old(missed)
      ensures got == old(files)[d].readers[id].snap
    {
      hide Ok, Synced, Interleave.Good, Matches, Interleave.Result, WellFormed;
      JobSound(cacheSize, files, books, d);
      GoodRead(cacheSize, View(files[d]), id);
      var f := files[d];
      got := Complete(f.readers[id], off, b, q, n, f.raw);
      var p := f.(io := Interleave.IoFree, readers := f.readers - {id},
                  replies := f.replies + [Interleave.Reply(got, f.readers[id].snap)]);
      StoredRest(cacheSize, files, books, d, Interleave.ReadTape(id), p);
      Put(d, Interleave.ReadTape(id), p, books);
    }

    /** `_unified_get_dentry_priv` for a file that has no private data yet. */
    method Open(d: nat, raw: seq<byte>, writeIp: bool)
      requires Valid() && d !in files
      modifies this
      ensures Valid()
      ensures files == old(files)[d := Fresh(raw, writeIp)]
      ensures Interleave.Content(View(files[d])) == raw
      ensures side == old(side).(alts := old(side).alts[d := []]) && missed == old(missed)[d := {}]
    {
      var p := Fresh(raw, writeIp);
      OpenOk(cacheSize, files, books, d, p);
      OpenSide(layout, files, side, missed, d, p);
      files, side, missed := files[d := p], side.(alts := side.alts[d := []]), missed[d := {}];
    }

    /** `_unified_free_dentry_priv_conditional`: only a file without requests and without extents for the index
        partition is given up, and only if no handle keeps it. */
    method Free(d: nat, unused: bool) returns (freed: bool)
      requires Valid() && d in files && files[d].io == Interleave.IoFree
      modifies this
      ensures Valid() && d in old(side).alts
      ensures freed == (unused && old(files)[d].requests == [] && old(side).alts[d] == [])
      ensures if freed then files == old(files) - {d} && side == old(side).(alts := old(side).alts - {d})
              else files == old(files) && side == old(side)
    {
      assert Copied(layout, files, side, missed, d);
      freed := unused && files[d].requests == [] && side.alts[d] == [];
      if freed { Forget(d); }
    }

    method Forget(d: nat)
      requires Valid() && d in files
      modifies this
      ensures Valid() <==> old(files)[d].requests == []
      ensures files == old(files) - {d} && side == old(side).(alts := old(side).alts - {d})
    {
      if files[d].requests == [] {
        FreeOk(cacheSize, files, books, d);
      } else {
        LeftBehind(cacheSize, files, books, d);
      }
      FreeSide(layout, files, side, missed, d);
      files, side, missed := files - {d}, side.(alts := side.alts - {d}), missed - {d};
    }

    /** `_unified_free_dentry_priv`: a file is given up, and its extents on the index partition go to libltfs. If it
        still has requests, the source only warns: they stay behind in the counters. The file keeps its bytes on the
        data partition exactly if the copies that libltfs takes agree wherever they are in doubt. */
    method Release(d: nat, entry: Extents.Dentry, push: seq<AltExtents.Push>, ghost tape: RawTape.Tape)
      returns (r: Extents.Dentry, took: seq<bool>)
      requires Valid() && d in files && files[d].io == Interleave.IoFree
      requires d in side.alts && |push| == |side.alts[d]|
      requires layout.ip in tape && tape[layout.ip] == side.index && Extents.Ok(entry) && 0 < layout.bs
      requires RawTape.Contents(layout.bs, tape, entry) == files[d].raw
      modifies this
      ensures files == old(files) - {d} && (Valid() <==> old(files)[d].requests == []) && d in old(missed)
      ensures (r.extents, took) == AltExtents.Pushed(layout.bs, entry.extents, old(side).alts[d], push)
      ensures AltExtents.Saved(layout.bs, entry, AltExtents.Kept(old(side).alts[d], took), r) && r.size == entry.size
      ensures RawTape.Contents(layout.bs, tape, r) == old(files)[d].raw <==>
              Harmless(layout, old(side).index, View(old(files)[d]), Copies(old(side).alts[d], old(missed)[d]), took)
      ensures Idle(View(old(files)[d])) ==> old(files)[d].raw == Interleave.Content(View(old(files)[d]))
    {
      assert Copied(layout, files, side, missed, d);
      JobSound(cacheSize, files, books, d);
      assert !files[d].writeIp ==> side.alts[d] == [];
      hide Ok, Interleave.Good, Joint, AltExtents.Saved, AltExtents.Kept, AltExtents.Pushed, Agrees, Doubtful;
      r, took := AltExtents.SaveAltExtentList(layout.bs, entry, side.alts[d], push);
      PartSaveExact(layout.bs, layout.ip, tape, View(files[d]), Copies(side.alts[d], missed[d]), entry, took, r);
      if Idle(View(files[d])) { IdleIsRaw(cacheSize, View(files[d])); }
      Forget(d);
    }
  }
}
