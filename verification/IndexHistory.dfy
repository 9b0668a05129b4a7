/** What every run of index writes, successful or not, leaves on tape. */
module IndexHistory {
  import opened IndexWriter

  // ----- `ltfs_sync_index`

  /** What a sync writes, if anything. */
  function Wants(c: Config, v: Vol, k: Kind): bool {
    v.st.dirty && (k == Full || v.st.incDirty || (k == Auto && Due(c, v)))
  }

  function Target(c: Config, v: Vol, kind: Kind): nat {
    if kind == Incremental then c.dp else if v.st.dpEnd && !v.st.ipEnd then c.ip else c.dp
  }

  /** With writePerm the failure was a permanent write error, and the index goes to the index partition
      instead. */
  function Synced(c: Config, v: Vol, k: Kind, dev: Device, writePerm: bool, dev2: Device): Outcome {
    if !Wants(c, v, k) then Outcome(v, [], true)
    else
      var kind := Resolve(c, v, k);
      var part := Target(c, v, kind);
      var o := WriteIndex(c, v, part, kind, false, dev);
      if !o.ok && writePerm && part == c.dp then
        var p := WriteIndex(c, o.v, c.ip, Full, true, dev2);
        Outcome(p.v, o.written + p.written, false)
      else o
  }

  method SyncIndex(vol: Index, k: Kind, dev: Device, writePerm: bool, dev2: Device) returns (ok: bool)
    modifies vol
    ensures var o := Synced(vol.c, old(vol.v), k, dev, writePerm, dev2); vol.v == o.v && ok == o.ok
  {
    hide WriteIndex;
    var dirty := vol.v.st.dirty;
    if k != Full && !vol.v.st.incDirty && !(k == Auto && Due(vol.c, vol.v)) { dirty := false; }
    var kind := Resolve(vol.c, vol.v, k);
    var dpEnd, ipEnd := vol.v.st.dpEnd, vol.v.st.ipEnd;
    if !dirty { return true; }
    var part := if kind == Incremental then vol.c.dp else if dpEnd && !ipEnd then vol.c.ip else vol.c.dp;
    ok := vol.Write(part, kind, false, dev);
    if !ok && writePerm && part == vol.c.dp {
      var moved := vol.Write(vol.c.ip, Full, true, dev2);
    }
  }

  /** A full sync of a dirty volume, without a fault, writes one full index of a new generation: behind the data on the
      index partition, if only the data partition ends in an index, and on the data partition otherwise. After it there
      is nothing to write. */
  lemma FullSyncWrites(c: Config, v: Vol, dev: Device, writePerm: bool, dev2: Device)
    requires ConfigOk(c) && v.st.dirty && dev.outer.fault == NoFault
    ensures var o := Synced(c, v, Full, dev, writePerm, dev2);
            && o.ok && |o.written| == 1 && o.written[0].kind == Full && o.written[0].generation == v.generation + 1
            && o.written[0].self == (if v.st.dpEnd && !v.st.ipEnd then Ptr(c.ip, dev.outer.ipPos + 1)
                                     else Ptr(c.dp, v.dpPos + 1))
            && !o.v.st.dirty && !o.v.st.incDirty && !o.v.st.atimeDirty
  {
  }

  /** Without a fault: an automatic sync writes an index exactly if there are changes that are on no index yet, or if
      there are incremental indexes and the interval is used up. It is an incremental one, on the data partition,
      exactly if the interval is not used up and the journal is fit for it. */
  lemma AutoSyncWrites(c: Config, v: Vol, dev: Device, writePerm: bool, dev2: Device)
    requires ConfigOk(c) && dev.outer.fault == NoFault
    ensures var o := Synced(c, v, Auto, dev, writePerm, dev2);
            var due := c.interval >= 0 && v.st.toGo == 0;
            && o.ok && (o.written == [] ==> o.v == v)
            && (o.written != [] <==> v.st.dirty && (v.st.incDirty || due))
            && (o.written != [] ==>
                  && |o.written| == 1 && !o.v.st.incDirty && o.written[0].generation == v.generation + 1
                  && (o.written[0].kind == Incremental <==>
                      !due && c.incAllowed && !v.st.journalErr && v.st.journal > 0)
                  && (o.written[0].kind == Incremental ==>
                        o.written[0].self == Ptr(c.dp, v.dpPos + 1) && o.v.st.dirty)
                  && (o.written[0].kind == Full ==> !o.v.st.dirty))
  {
  }

  /** With nothing dirty a sync does nothing, whatever it is asked for. */
  lemma CleanSyncIdles(c: Config, v: Vol, k: Kind, dev: Device, writePerm: bool, dev2: Device)
    requires ConfigOk(c) && dev.outer.fault == NoFault
    ensures Synced(c, v, k, dev, writePerm, dev2).written == [] <==>
            !v.st.dirty || (k != Full && !v.st.incDirty && !(k == Auto && c.interval >= 0 && v.st.toGo == 0))
    ensures Synced(c, v, k, dev, writePerm, dev2).written == [] ==> Synced(c, v, k, dev, writePerm, dev2).v == v
  {
  }

  // ----- runs

  datatype Event =
    | Write(part: nat, k: Kind, writePerm: bool, dev: Device)
    | Sync(k: Kind, dev: Device, writePerm: bool, dev2: Device)
    | Change(atime: bool, journaled: bool)
    | Data(part: nat, blocks: nat)

  predicate Possible(c: Config, e: Event) { e.Write? ==> e.part == c.dp || e.part == c.ip }

  function Happen(c: Config, v: Vol, e: Event): Outcome {
    match e
    case Write(part, k, writePerm, dev) => WriteIndex(c, v, part, k, writePerm, dev)
    case Sync(k, dev, writePerm, dev2) => Synced(c, v, k, dev, writePerm, dev2)
    case Change(atime, journaled) =>
      var st := if atime then v.st.(atimeDirty := true) else v.st.(dirty := true, incDirty := true);
      Outcome(v.(st := st.(journal := if journaled then st.journal + 1 else st.journal)), [], true)
    case Data(part, blocks) =>
      Outcome(if part == c.dp then v.(dpPos := v.dpPos + blocks, st := v.st.(dpEnd := false))
              else v.(st := v.st.(ipEnd := false)), [], true)
  }

  /** State and everything written so far. */
  function Run(c: Config, v: Vol, es: seq<Event>): (Vol, seq<Rec>) {
    if es == [] then (v, [])
    else
      var (w, h) := Run(c, v, es[..|es| - 1]);
      var o := Happen(c, w, es[|es| - 1]);
      (o.v, h + o.written)
  }

  // ----- the chains

  function Fulls(c: Config, h: seq<Rec>): seq<Rec> {
    if h == [] then []
    else
      var r := h[|h| - 1];
      Fulls(c, h[..|h| - 1]) + (if r.kind == Full && r.self.part == c.dp then [r] else [])
  }

  /** The incremental indexes since the last full one. */
  function Tail(h: seq<Rec>): seq<Rec> {
    if h == [] then []
    else
      var r := h[|h| - 1];
      if r.kind == Full then [] else Tail(h[..|h| - 1]) + [r]
  }

  /** Where index k should point back to. */
  function Previous(f: seq<Rec>, k: nat): Ptr
    requires k <= |f|
  {
    if k == 0 then NIL else f[k - 1].self
  }

  /** Each index points back to the one before it, and lies behind it; head is the newest. */
  ghost predicate Linked(f: seq<Rec>, head: Ptr, limit: nat) {
    && head == Previous(f, |f|)
    && (forall k {:trigger f[k].back} :: 0 <= k < |f| ==> f[k].back == Previous(f, k))
    && (forall k :: 0 <= k < |f| ==> f[k].self.part != 0 && f[k].self.block < limit)
    && (forall i, j :: 0 <= i < j < |f| ==> f[i].self.block < f[j].self.block)
  }

  lemma LinkedMore(f: seq<Rec>, head: Ptr, limit: nat, r: Rec, limit1: nat)
    requires Linked(f, head, limit) && r.back == head && r.self.part != 0 && limit <= r.self.block < limit1
    ensures Linked(f + [r], r.self, limit1)
  {
    var g := f + [r];
    forall k | 0 <= k < |g| ensures g[k].back == Previous(g, k) {
      if k < |f| { assert f[k].back == Previous(f, k); }
    }
    forall i, j | 0 <= i < j < |g| ensures g[i].self.block < g[j].self.block {
      if j == |f| {
        assert f[i].self.block < limit;
      } else {
        assert f[i].self.block < f[j].self.block;
      }
    }
  }

  /** The head of the chain on the data partition. */
  function Head(c: Config, p: Pointers): Ptr { if p.self.part == c.dp then p.self else p.back }

  /** full_index_to_go */
  predicate Counted(c: Config, v: Vol, h: seq<Rec>) {
    c.interval > 0 ==> v.st.toGo == if |Tail(h)| < c.interval then c.interval - |Tail(h)| else 0
  }

  ghost predicate Good(c: Config, v: Vol, h: seq<Rec>) {
    && ConfigOk(c) && Linked(Fulls(c, h), Head(c, v.p), v.dpPos) && Linked(Tail(h), v.p.selfInc, v.dpPos)
    && Counted(c, v, h)
  }

  lemma Grow(f: seq<Rec>, head: Ptr, limit: nat, limit1: nat)
    requires Linked(f, head, limit) && limit <= limit1
    ensures Linked(f, head, limit1)
  {
  }

  lemma Snoc(c: Config, h: seq<Rec>, r: Rec)
    ensures Fulls(c, h + [r]) == if r.kind == Full && r.self.part == c.dp then Fulls(c, h) + [r] else Fulls(c, h)
    ensures Tail(h + [r]) == if r.kind == Full then [] else Tail(h) + [r]
  {
    assert (h + [r])[..|h|] == h;
  }

  lemma OneKeeps(c: Config, v: Vol, h: seq<Rec>, part: nat, full: bool, io: Io)
    requires Good(c, v, h) && (part == c.dp || (part == c.ip && full))
    ensures var o := One(c, v, part, full, io); Good(c, o.v, h + o.written)
  {
    hide Linked;
    var o := One(c, v, part, full, io);
    var f, g := Fulls(c, h), Tail(h);
    assert v.dpPos <= o.v.dpPos;
    Grow(f, Head(c, v.p), v.dpPos, o.v.dpPos);
    Grow(g, v.p.selfInc, v.dpPos, o.v.dpPos);
    if o.ok {
      var r := o.written[0];
      Snoc(c, h, r);
      if full {
        if part == c.dp { LinkedMore(f, Head(c, v.p), v.dpPos, r, o.v.dpPos); }
        LinkedNone(o.v.dpPos);
      } else {
        LinkedMore(g, v.p.selfInc, v.dpPos, r, o.v.dpPos);
      }
    } else {
      assert h + [] == h;
    }
  }

  lemma LinkedNone(limit: nat)
    ensures Linked([], NIL, limit)
  {
  }

  lemma WriteKeeps(c: Config, v: Vol, h: seq<Rec>, part: nat, k: Kind, writePerm: bool, dev: Device)
    requires Good(c, v, h) && (part == c.dp || part == c.ip)
    ensures var o := WriteIndex(c, v, part, k, writePerm, dev); Good(c, o.v, h + o.written)
  {
    hide Linked, One, Fulls, Tail;
    if NeedsDp(c, v, part, writePerm) {
      var v1 := v.(st := v.st.(journal := 0, journalErr := false));
      var a := One(c, v1, c.dp, true, dev.inner);
      OneKeeps(c, v1, h, c.dp, true, dev.inner);
      if a.ok || !dev.innerStops {
        OneKeeps(c, a.v, h + a.written, part, true, dev.outer);
        var b := One(c, a.v, part, true, dev.outer);
        assert h + a.written + b.written == h + (a.written + b.written);
      }
    } else {
      OneKeeps(c, v, h, part, KindFor(c, v, part, k) == Full, dev.outer);
    }
  }

  lemma SyncKeeps(c: Config, v: Vol, h: seq<Rec>, k: Kind, dev: Device, writePerm: bool, dev2: Device)
    requires Good(c, v, h)
    ensures var o := Synced(c, v, k, dev, writePerm, dev2); Good(c, o.v, h + o.written)
  {
    hide Linked, Fulls, Tail, WriteIndex;
    assert h + [] == h;
    if Wants(c, v, k) {
      var kind := Resolve(c, v, k);
      var part := Target(c, v, kind);
      var o := WriteIndex(c, v, part, kind, false, dev);
      WriteKeeps(c, v, h, part, kind, false, dev);
      if !o.ok && writePerm && part == c.dp {
        WriteKeeps(c, o.v, h + o.written, c.ip, Full, true, dev2);
        var p := WriteIndex(c, o.v, c.ip, Full, true, dev2);
        assert h + o.written + p.written == h + (o.written + p.written);
      }
    }
  }

  lemma HappenKeeps(c: Config, v: Vol, h: seq<Rec>, e: Event)
    requires Good(c, v, h) && Possible(c, e)
    ensures var o := Happen(c, v, e); Good(c, o.v, h + o.written)
  {
    hide Fulls, Tail, WriteIndex, Synced;
    assert h + [] == h;
    match e
    case Write(part, k, writePerm, dev) => WriteKeeps(c, v, h, part, k, writePerm, dev);
    case Sync(k, dev, writePerm, dev2) => SyncKeeps(c, v, h, k, dev, writePerm, dev2);
    case Change(_, _) =>
    case Data(_, _) =>
      var w := Happen(c, v, e).v;
      Grow(Fulls(c, h), Head(c, v.p), v.dpPos, w.dpPos);
      Grow(Tail(h), v.p.selfInc, v.dpPos, w.dpPos);
  }

  /** A volume without any index. */
  predicate Fresh(c: Config, v: Vol) {
    ConfigOk(c) && v.p == Pointers(NIL, NIL, NIL, NIL) && v.st.toGo == c.interval
  }

  lemma {:induction false} RunKeeps(c: Config, v: Vol, es: seq<Event>)
    requires Fresh(c, v) && forall i :: 0 <= i < |es| ==> Possible(c, es[i])
    ensures var (w, h) := Run(c, v, es); Good(c, w, h)
    decreases |es|
  {
    if es != [] {
      hide Good, Happen;
      RunKeeps(c, v, es[..|es| - 1]);
      var (w, h) := Run(c, v, es[..|es| - 1]);
      HappenKeeps(c, w, h, es[|es| - 1]);
    }
  }

  // ----- reading the chain back

  /** The indexes on tape, by their position. */
  function OnTape(f: seq<Rec>): map<Ptr, Rec> {
    if f == [] then map[] else OnTape(f[..|f| - 1])[f[|f| - 1].self := f[|f| - 1]]
  }

  /** Following back pointers for at most n steps. */
  function Walk(t: map<Ptr, Rec>, p: Ptr, n: nat): seq<Ptr>
    decreases n
  {
    if n == 0 || p !in t then [] else [p] + Walk(t, t[p].back, n - 1)
  }

  function Newest(f: seq<Rec>): seq<Ptr> {
    if f == [] then [] else [f[|f| - 1].self] + Newest(f[..|f| - 1])
  }

  lemma {:induction false} TapeAt(f: seq<Rec>, k: nat)
    requires k < |f| && forall i, j :: 0 <= i < j < |f| ==> f[i].self.block < f[j].self.block
    ensures f[k].self in OnTape(f) && OnTape(f)[f[k].self] == f[k]
    decreases |f|
  {
    if k < |f| - 1 { TapeAt(f[..|f| - 1], k); }
  }

  lemma {:induction false} NilNotOnTape(f: seq<Rec>)
    requires forall k :: 0 <= k < |f| ==> f[k].self.part != 0
    ensures NIL !in OnTape(f)
    decreases |f|
  {
    if f != [] { NilNotOnTape(f[..|f| - 1]); }
  }

  lemma LinkedAt(f: seq<Rec>, head: Ptr, limit: nat)
    requires Linked(f, head, limit)
    ensures forall k {:trigger f[k].back} :: 0 <= k < |f| ==> f[k].back == Previous(f, k)
    ensures forall k :: 0 <= k < |f| ==> f[k].self.part != 0
    ensures forall i, j :: 0 <= i < j < |f| ==> f[i].self.block < f[j].self.block
  {
  }

  lemma {:induction false} WalkFrom(f: seq<Rec>, head: Ptr, limit: nat, k: nat, n: nat)
    requires Linked(f, head, limit) && k <= |f| <= n + (|f| - k)
    ensures Walk(OnTape(f), Previous(f, k), n) == Newest(f[..k])
    decreases k
  {
    LinkedAt(f, head, limit);
    hide Linked, OnTape;
    if k == 0 {
      NilNotOnTape(f);
    } else {
      TapeAt(f, k - 1);
      assert f[k - 1].back == Previous(f, k - 1);
      WalkFrom(f, head, limit, k - 1, n - 1);
      assert f[..k][..k - 1] == f[..k - 1];
    }
  }

  predicate Decreasing(s: seq<Ptr>) { forall i, j :: 0 <= i < j < |s| ==> s[j].block < s[i].block }

  lemma NewestPair(f: seq<Rec>, i: nat, j: nat)
    requires i < j < |f| && forall i, j :: 0 <= i < j < |f| ==> f[i].self.block < f[j].self.block
    ensures |Newest(f)| == |f| && Newest(f)[j].block < Newest(f)[i].block
  {
    NewestAt(f, i);
    NewestAt(f, j);
  }

  lemma NewestDecreases(f: seq<Rec>)
    requires forall i, j :: 0 <= i < j < |f| ==> f[i].self.block < f[j].self.block
    ensures Decreasing(Newest(f))
  {
    if f != [] {
      NewestAt(f, 0);
      hide Newest;
      forall i, j | 0 <= i < j < |Newest(f)| ensures Newest(f)[j].block < Newest(f)[i].block { NewestPair(f, i, j); }
    }
  }

  lemma {:induction false} NewestAt(f: seq<Rec>, i: nat)
    requires i < |f|
    ensures |Newest(f)| == |f| && Newest(f)[i] == f[|f| - 1 - i].self
    decreases |f|
  {
    var g := f[..|f| - 1];
    if |g| == 0 {
    } else if i == 0 {
      NewestAt(g, 0);
    } else {
      NewestAt(g, i - 1);
    }
  }

  /** After any run, following back pointers from the current index visits every full index that was
      written to the data partition, newest first, and then stops; the block numbers only decrease. */
  lemma BackPointersVisitAll(c: Config, v: Vol, es: seq<Event>, n: nat)
    requires Fresh(c, v) && (forall i :: 0 <= i < |es| ==> Possible(c, es[i]))
    requires n >= |Fulls(c, Run(c, v, es).1)|
    ensures var (w, h) := Run(c, v, es);
            Walk(OnTape(Fulls(c, h)), Head(c, w.p), n) == Newest(Fulls(c, h)) && Decreasing(Newest(Fulls(c, h)))
  {
    RunKeeps(c, v, es);
    var (w, h) := Run(c, v, es);
    hide Run;
    var f := Fulls(c, h);
    WalkFrom(f, Head(c, w.p), w.dpPos, |f|, n);
    assert f[..|f|] == f;
    NewestDecreases(f);
  }

  /** The same for the incremental indexes since the last full one. */
  lemma IncrementalsVisitAll(c: Config, v: Vol, es: seq<Event>, n: nat)
    requires Fresh(c, v) && (forall i :: 0 <= i < |es| ==> Possible(c, es[i]))
    requires n >= |Tail(Run(c, v, es).1)|
    ensures var (w, h) := Run(c, v, es); Walk(OnTape(Tail(h)), w.p.selfInc, n) == Newest(Tail(h))
  {
    RunKeeps(c, v, es);
    var (w, h) := Run(c, v, es);
    hide Run;
    var f := Tail(h);
    WalkFrom(f, w.p.selfInc, w.dpPos, |f|, n);
    assert f[..|f|] == f;
  }

  // ----- failures

  /** A failed attempt leaves all pointers and flags as they were. It leaves the generation exactly if a full
      index was to be written, the seek failed, or nothing was dirty, and the journal exactly if a full index
      was to be written, the journal was not reached, or there was nothing in it. */
  lemma FailureRestores(c: Config, v: Vol, part: nat, full: bool, io: Io)
    requires Strikes(c, v, part, io)
    ensures var w := Attempted(c, v, part, full, io);
            && w.p == v.p && w.st.(journal := v.st.journal, journalErr := v.st.journalErr) == v.st
            && (w.generation == v.generation <==> full || io.fault == SeekFails || !IsDirty(c, v))
            && (w.st == v.st <==> full || io.fault != XmlFails || v.st == Cleared(v.st))
  {
  }

  /** A failed write of a full index, with or without the index on the data partition before it: the
      pointers are those of the last index that was written, and a generation is used up only by an index
      that is on tape. */
  lemma FullFailureRestores(c: Config, v: Vol, part: nat, writePerm: bool, dev: Device)
    requires ConfigOk(c) && (part == c.dp || part == c.ip)
    ensures var o := WriteIndex(c, v, part, Full, writePerm, dev);
            && (!o.ok && o.written == [] ==> o.v.p == v.p && o.v.generation == v.generation)
            && (!o.ok && o.written != [] ==>
                  && |o.written| == 1 && o.v.p.self == o.written[0].self && o.v.p.back == o.written[0].back
                  && o.v.generation == o.written[0].generation)
  {
  }

  /** An index partition that gets its index through the data partition carries the same generation, and
      points back to the index written just before it. */
  lemma BothPartitionsAgree(c: Config, v: Vol, k: Kind, dev: Device)
    requires ConfigOk(c) && NeedsDp(c, v, c.ip, false)
    ensures var o := WriteIndex(c, v, c.ip, k, false, dev);
            |o.written| == 2 ==>
              o.written[0].generation == o.written[1].generation && o.written[1].back == o.written[0].self
                                 && o.written[0].self.part == c.dp && o.written[1].self.part == c.ip
  {
  }

  // ----- the interval of full indexes

  /** An automatic sync writes a full index once the interval is used up, whatever was asked for and
      whatever failed in between. */
  lemma AutoSyncKeepsInterval(c: Config, v: Vol, es: seq<Event>, dev: Device, writePerm: bool, dev2: Device)
    requires Fresh(c, v) && c.interval > 0 && forall i :: 0 <= i < |es| ==> Possible(c, es[i])
    ensures var (w, h) := Run(c, v, es);
            var o := Synced(c, w, Auto, dev, writePerm, dev2);
            && w.st.toGo == (if |Tail(h)| < c.interval then c.interval - |Tail(h)| else 0)
            && (|Tail(h)| >= c.interval ==> forall r :: r in o.written ==> r.kind == Full)
  {
    RunKeeps(c, v, es);
    var (w, h) := Run(c, v, es);
    hide Run, Linked, Fulls, Tail;
    if |Tail(h)| >= c.interval { DueWritesFull(c, w, dev, writePerm, dev2); }
  }

  lemma DueWritesFull(c: Config, v: Vol, dev: Device, writePerm: bool, dev2: Device)
    requires Due(c, v)
    ensures forall r :: r in Synced(c, v, Auto, dev, writePerm, dev2).written ==> r.kind == Full
  {
    hide Attempted, Strikes;
    assert Resolve(c, v, Auto) == Full;
  }

  // ----- does an incremental index describe all changes?

  /** An event empties the journal before an index is safely on tape: an index for both partitions, or an
      incremental one that fails after its writer has gone through the journal. */
  predicate Exposes(c: Config, v: Vol, e: Event) {
    match e
    case Write(part, k, writePerm, dev) =>
      NeedsDp(c, v, part, writePerm) || Empties(KindFor(c, v, part, k) == Full, dev.outer)
    case Sync(k, dev, _, _) => Wants(c, v, k) && Empties(Resolve(c, v, k) == Full, dev.outer)
    case _ => false
  }

  /** The faults by which it does so and no index is written in its place: on an index for both partitions, one on
      the data partition, and one on the index partition unless that was not tried; on an incremental index, one
      behind the journal, and one on the index in its place, if that was tried. */
  predicate Loses(c: Config, v: Vol, e: Event) {
    match e
    case Write(part, k, writePerm, dev) =>
      if NeedsDp(c, v, part, writePerm) then
        Strikes(c, v, c.dp, dev.inner) && (dev.innerStops || Strikes(c, v, part, dev.outer))
      else Empties(KindFor(c, v, part, k) == Full, dev.outer)
    case Sync(k, dev, writePerm, dev2) =>
      && Wants(c, v, k) && Empties(Resolve(c, v, k) == Full, dev.outer)
      && (writePerm ==> Strikes(c, v, c.ip, dev2.outer))
    case _ => false
  }

  /** Those are exactly the events that expose the journal and write nothing. */
  lemma LosesExactly(c: Config, v: Vol, e: Event)
    requires ConfigOk(c) && Possible(c, e)
    ensures Loses(c, v, e) <==> Exposes(c, v, e) && Happen(c, v, e).written == []
  {
  }

  function Recorded(e: Event): nat { if e.Change? && e.journaled then 1 else 0 }

  lemma OneJournal(c: Config, v: Vol, part: nat, full: bool, io: Io)
    ensures var o := One(c, v, part, full, io);
            if o.written != [] then o.v.st.journal == 0
            else o.v.st == if Empties(full, io) then Cleared(v.st) else v.st
  {
  }

  lemma WriteJournal(c: Config, v: Vol, part: nat, k: Kind, writePerm: bool, dev: Device)
    ensures var o := WriteIndex(c, v, part, k, writePerm, dev);
            if o.written != [] then o.v.st.journal == 0
            else o.v.st == if Exposes(c, v, Write(part, k, writePerm, dev)) then Cleared(v.st) else v.st
  {
    hide One;
    if NeedsDp(c, v, part, writePerm) {
      var v1 := v.(st := Cleared(v.st));
      OneJournal(c, v1, c.dp, true, dev.inner);
      OneJournal(c, One(c, v1, c.dp, true, dev.inner).v, part, true, dev.outer);
    } else {
      OneJournal(c, v, part, KindFor(c, v, part, k) == Full, dev.outer);
    }
  }

  /** The second write of a sync, to the index partition, exposes nothing. */
  lemma SyncJournal(c: Config, v: Vol, k: Kind, dev: Device, writePerm: bool, dev2: Device)
    requires ConfigOk(c)
    ensures var o := Synced(c, v, k, dev, writePerm, dev2);
            if o.written != [] then o.v.st.journal == 0
            else o.v.st == if Exposes(c, v, Sync(k, dev, writePerm, dev2)) then Cleared(v.st) else v.st
  {
    if Wants(c, v, k) {
      var kind := Resolve(c, v, k);
      var part := Target(c, v, kind);
      var o := WriteIndex(c, v, part, kind, false, dev);
      WriteJournal(c, v, part, kind, false, dev);
      WriteJournal(c, o.v, c.ip, Full, true, dev2);
      assert Exposes(c, v, Write(part, kind, false, dev)) == Exposes(c, v, Sync(k, dev, writePerm, dev2));
      hide WriteIndex;
    }
  }

  /** After one event: an index that was written leaves the journal empty; otherwise the journal has grown by
      what was recorded, exactly if the event does not lose one that was not empty. */
  lemma HappenJournal(c: Config, v: Vol, e: Event)
    requires ConfigOk(c) && Possible(c, e)
    ensures var o := Happen(c, v, e);
            && (o.written != [] ==> o.v.st.journal == 0)
            && (o.written == [] ==> o.v.st.journal == if Loses(c, v, e) then 0 else v.st.journal + Recorded(e))
            && (Loses(c, v, e) ==> o.v.st == Cleared(v.st) && Recorded(e) == 0)
  {
    LosesExactly(c, v, e);
    hide Loses;
    match e
    case Write(part, k, writePerm, dev) => WriteJournal(c, v, part, k, writePerm, dev);
    case Sync(k, dev, writePerm, dev2) => SyncJournal(c, v, k, dev, writePerm, dev2);
    case Change(_, _) =>
    case Data(_, _) =>
  }

  /** How many changes were recorded since the last index that was written, and how many of them were lost. */
  datatype Account = Account(recorded: nat, lost: nat)

  function Tally(c: Config, v: Vol, es: seq<Event>): Account {
    if es == [] then Account(0, 0)
    else
      var pre, e := es[..|es| - 1], es[|es| - 1];
      var w, a := Run(c, v, pre).0, Tally(c, v, pre);
      if Happen(c, w, e).written != [] then Account(0, 0)
      else Account(a.recorded + Recorded(e), a.lost + if Loses(c, w, e) then w.st.journal else 0)
  }

  /** The position behind the last event that wrote an index. */
  function Since(c: Config, v: Vol, es: seq<Event>): (n: nat)
    ensures n <= |es|
  {
    if es == [] then 0
    else
      var pre := es[..|es| - 1];
      if Happen(c, Run(c, v, pre).0, es[|es| - 1]).written != [] then |es| else Since(c, v, pre)
  }

  /** Event i, when it happens, loses changes that were recorded. */
  ghost predicate LosesAt(c: Config, v: Vol, es: seq<Event>, i: nat)
    requires i < |es|
  {
    var w := Run(c, v, es[..i]).0;
    Loses(c, w, es[i]) && w.st.journal > 0
  }

  ghost predicate LostSince(c: Config, v: Vol, es: seq<Event>) {
    exists i :: Since(c, v, es) <= i < |es| && LosesAt(c, v, es, i)
  }

  /** Every recorded change is in the journal or lost. */
  lemma {:induction false} JournalAccount(c: Config, v: Vol, es: seq<Event>)
    requires ConfigOk(c) && v.st.journal == 0 && forall i :: 0 <= i < |es| ==> Possible(c, es[i])
    ensures var a := Tally(c, v, es); Run(c, v, es).0.st.journal + a.lost == a.recorded
    decreases |es|
  {
    if es != [] {
      var pre, e := es[..|es| - 1], es[|es| - 1];
      hide Happen, Loses;
      JournalAccount(c, v, pre);
      HappenJournal(c, Run(c, v, pre).0, e);
    }
  }

  lemma {:induction false} LostExactly(c: Config, v: Vol, es: seq<Event>)
    ensures Tally(c, v, es).lost > 0 <==> LostSince(c, v, es)
    decreases |es|
  {
    if es != [] {
      var pre, e := es[..|es| - 1], es[|es| - 1];
      hide Happen, Loses;
      LostExactly(c, v, pre);
      if Happen(c, Run(c, v, pre).0, e).written == [] {
        forall i | 0 <= i < |pre| ensures LosesAt(c, v, pre, i) == LosesAt(c, v, es, i) { assert pre[..i] == es[..i]; }
        LostMore(c, v, es);
      }
    }
  }

  lemma LostMore(c: Config, v: Vol, es: seq<Event>)
    requires es != [] && Happen(c, Run(c, v, es[..|es| - 1]).0, es[|es| - 1]).written == []
    requires forall i :: 0 <= i < |es| - 1 ==> LosesAt(c, v, es[..|es| - 1], i) == LosesAt(c, v, es, i)
    ensures LostSince(c, v, es) <==> LostSince(c, v, es[..|es| - 1]) || LosesAt(c, v, es, |es| - 1)
  {
    hide Happen, Run, Loses, LosesAt;
    var pre := es[..|es| - 1];
    assert Since(c, v, es) == Since(c, v, pre);
    hide Since;
    if LostSince(c, v, pre) {
      var i :| Since(c, v, pre) <= i < |pre| && LosesAt(c, v, pre, i);
      assert LosesAt(c, v, es, i);
    }
    if LostSince(c, v, es) && !LosesAt(c, v, es, |es| - 1) {
      var i :| Since(c, v, es) <= i < |es| && LosesAt(c, v, es, i);
      assert LosesAt(c, v, pre, i);
    }
  }

  /** After any run the journal holds every change recorded since the last index, so that an incremental index
      describes them all, exactly if no event since that index lost a journal that was not empty. */
  lemma JournalComplete(c: Config, v: Vol, es: seq<Event>)
    requires ConfigOk(c) && v.st.journal == 0 && forall i :: 0 <= i < |es| ==> Possible(c, es[i])
    ensures Run(c, v, es).0.st.journal == Tally(c, v, es).recorded <==> !LostSince(c, v, es)
  {
    JournalAccount(c, v, es);
    LostExactly(c, v, es);
  }

  lemma RunSnoc(c: Config, v: Vol, es: seq<Event>, e: Event)
    ensures var (w, h) := Run(c, v, es);
            var o, a := Happen(c, w, e), Tally(c, v, es);
            && Run(c, v, es + [e]) == (o.v, h + o.written)
            && Tally(c, v, es + [e]) == (
              if o.written != [] then Account(0, 0)
              else Account(a.recorded + Recorded(e), a.lost + if Loses(c, w, e) then w.st.journal else 0))
            && Run(c, v, []) == (v, []) && Tally(c, v, []) == Account(0, 0)
  {
    assert (es + [e])[..|es|] == es;
    hide Happen, Loses;
  }

  /** Of two changes since the last index one is lost, and the next automatic sync, if nothing fails, writes an
      incremental index all the same. */
  predicate MissesOne(c: Config, v: Vol, es: seq<Event>) {
    var good := Device(Io(NoFault, 4, 0), false, Io(NoFault, 4, 0));
    var w := Run(c, v, es).0;
    var h := Happen(c, w, Sync(Auto, good, false, good)).written;
    && Tally(c, v, es) == Account(2, 1) && w.st.journal == 1
    && |h| == 1 && h[0].kind == Incremental && h[0].self == Ptr(1, 5)
  }

  /** A change, an event that loses it, and another change: the next automatic sync writes an incremental index
      that misses the first. */
  lemma Forgets(c: Config, v: Vol, e: Event)
    requires c == Config(1, 2, false, true, 5)
    requires v == Vol(Pointers(NIL, NIL, NIL, NIL), 1, 4, Status(false, false, false, false, false, 5, 0, false))
    requires var w1 := v.(st := Status(true, true, false, false, false, 5, 1, false));
             var o := Happen(c, w1, e);
             && o.written == [] && Loses(c, w1, e) && o.v.dpPos == 4 && o.v.p == v.p && Recorded(e) == 0
             && o.v.st == Status(true, true, false, false, false, 5, 0, false)
    ensures MissesOne(c, v, [Change(false, true), e, Change(false, true)])
  {
    hide Run, Tally, Happen, Loses, Resolve;
    var e1 := Change(false, true);
    RunSnoc(c, v, [], e1);
    RunSnoc(c, v, [e1], e);
    RunSnoc(c, v, [e1, e], e1);
    assert [] + [e1] == [e1] && [e1] + [e] == [e1, e] && [e1, e] + [e1] == [e1, e, e1];
    var w1 := v.(st := Status(true, true, false, false, false, 5, 1, false));
    ChangeHappens(c, v);
    assert Run(c, v, [e1]).0 == w1;
    var w2 := Happen(c, w1, e).v;
    assert Run(c, v, [e1, e]).0 == w2;
    ChangeHappens(c, w2);
    AutoHappens(c, w2.(st := Status(true, true, false, false, false, 5, 1, false)));
  }

  lemma ChangeHappens(c: Config, v: Vol)
    ensures var o := Happen(c, v, Change(false, true));
            o.v == v.(st := v.st.(dirty := true, incDirty := true, journal := v.st.journal + 1)) && o.written == []
    ensures !Loses(c, v, Change(false, true))
  {
  }

  lemma AutoHappens(c: Config, v: Vol)
    requires c == Config(1, 2, false, true, 5) && v.dpPos == 4
    requires v.st == Status(true, true, false, false, false, 5, 1, false)
    ensures var good := Device(Io(NoFault, 4, 0), false, Io(NoFault, 4, 0));
            var h := Happen(c, v, Sync(Auto, good, false, good)).written;
            |h| == 1 && h[0].kind == Incremental && h[0].self == Ptr(1, 5)
  {
  }

  /** Lost to an index that fails on both partitions, and to an incremental index that fails on tape. */
  lemma ChangesForgotten()
    ensures var c := Config(1, 2, false, true, 5);
            var v := Vol(Pointers(NIL, NIL, NIL, NIL), 1, 4, Status(false, false, false, false, false, 5, 0, false));
            var both := Io(FilemarkFails, 4, 0);
            var late := Io(XmlFails, 4, 0);
            var twice := [Change(false, true), Write(2, Full, false, Device(both, false, both)), Change(false, true)];
            var once := [Change(false, true), Sync(Auto, Device(late, false, late), false, Device(late, false, late)),
                         Change(false, true)];
            MissesOne(c, v, twice) && MissesOne(c, v, once)
  {
    var c := Config(1, 2, false, true, 5);
    var v := Vol(Pointers(NIL, NIL, NIL, NIL), 1, 4, Status(false, false, false, false, false, 5, 0, false));
    var both, late := Io(FilemarkFails, 4, 0), Io(XmlFails, 4, 0);
    Forgets(c, v, Write(2, Full, false, Device(both, false, both)));
    Forgets(c, v, Sync(Auto, Device(late, false, late), false, Device(late, false, late)));
  }
}
