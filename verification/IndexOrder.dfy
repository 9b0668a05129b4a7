/**
 Which index stands behind what on the two partitions (src/libltfs/ltfs.c, `ltfs_write_index`), and what the
 data path adds to it (`ltfs_write_index_conditional`, src/libltfs/ltfs_internal.c).
 */
module IndexOrder {
  import opened IndexWriter
  import opened IndexHistory

  // ----- what lies on the tape

  /** What was put on tape, oldest first, and the changes of the tree in between. */
  datatype Mark = Wrote(r: Rec) | Filled(part: nat) | Changed(atime: bool)

  predicate MarkOn(x: Mark, p: nat) { (x.Wrote? && x.r.self.part == p) || (x.Filled? && x.part == p) }

  predicate FullMark(x: Mark) { x.Wrote? && x.r.kind == Full }

  /** The newest mark on a partition. */
  function LastOn(m: seq<Mark>, p: nat): (k: int)
    ensures -1 <= k < |m| && (k >= 0 ==> MarkOn(m[k], p)) && forall i :: k < i < |m| ==> !MarkOn(m[i], p)
  {
    if m == [] then -1 else if MarkOn(m[|m| - 1], p) then |m| - 1 else LastOn(m[..|m| - 1], p)
  }

  /** The newest full index. */
  function LastFull(m: seq<Mark>): (k: int)
    ensures -1 <= k < |m| && (k >= 0 ==> FullMark(m[k])) && forall i :: k < i < |m| ==> !FullMark(m[i])
  {
    if m == [] then -1 else if FullMark(m[|m| - 1]) then |m| - 1 else LastFull(m[..|m| - 1])
  }

  /** The newest full index on a partition. */
  function LastFullOn(m: seq<Mark>, p: nat): (k: int)
    ensures -1 <= k < |m| && (k >= 0 ==> FullMark(m[k]) && MarkOn(m[k], p))
    ensures forall i :: k < i < |m| ==> !(FullMark(m[i]) && MarkOn(m[i], p))
  {
    if m == [] then -1
    else if FullMark(m[|m| - 1]) && MarkOn(m[|m| - 1], p) then |m| - 1
    else LastFullOn(m[..|m| - 1], p)
  }

  lemma LastMore(m: seq<Mark>, x: Mark, p: nat)
    ensures LastOn(m + [x], p) == if MarkOn(x, p) then |m| else LastOn(m, p)
    ensures LastFull(m + [x]) == if FullMark(x) then |m| else LastFull(m)
    ensures LastFullOn(m + [x], p) == if FullMark(x) && MarkOn(x, p) then |m| else LastFullOn(m, p)
  {
    assert (m + [x])[..|m|] == m;
  }

  function PtrAt(m: seq<Mark>, k: int): Ptr
    requires k < |m| && (k >= 0 ==> m[k].Wrote?)
  {
    if k < 0 then NIL else m[k].r.self
  }

  predicate EndsFull(m: seq<Mark>, p: nat) { LastOn(m, p) >= 0 && FullMark(m[LastOn(m, p)]) }

  predicate EndsIndex(m: seq<Mark>, p: nat) { LastOn(m, p) >= 0 && m[LastOn(m, p)].Wrote? }

  /** A change since the newest full index. */
  ghost predicate ChangedSince(m: seq<Mark>, atime: bool) {
    exists k :: LastFull(m) < k < |m| && m[k] == Changed(atime)
  }

  /** The volume, and what lies on its tape. */
  datatype Tape = Tape(v: Vol, m: seq<Mark>)

  /** What the volume knows about its tape is so. */
  ghost predicate Knows(c: Config, z: Tape) {
    && ConfigOk(c) && (forall x :: x in z.m && x.Wrote? ==> x.r.self.part == c.dp || x.r.self.part == c.ip)
    && (z.v.st.dpEnd <==> EndsFull(z.m, c.dp)) && (z.v.st.ipEnd <==> EndsIndex(z.m, c.ip))
    && z.v.p.self == PtrAt(z.m, LastFull(z.m)) && Head(c, z.v.p) == PtrAt(z.m, LastFullOn(z.m, c.dp))
    && (z.v.st.dirty <==> ChangedSince(z.m, false)) && (z.v.st.atimeDirty <==> ChangedSince(z.m, true))
  }

  // ----- one mark more

  lemma EndsMore(m: seq<Mark>, x: Mark, p: nat)
    ensures EndsFull(m + [x], p) <==> if MarkOn(x, p) then FullMark(x) else EndsFull(m, p)
    ensures EndsIndex(m + [x], p) <==> if MarkOn(x, p) then x.Wrote? else EndsIndex(m, p)
  {
    LastMore(m, x, p);
  }

  lemma PtrMore(m: seq<Mark>, x: Mark, p: nat)
    ensures PtrAt(m + [x], LastFull(m + [x])) == if FullMark(x) then x.r.self else PtrAt(m, LastFull(m))
    ensures PtrAt(m + [x], LastFullOn(m + [x], p)) ==
            if FullMark(x) && MarkOn(x, p) then x.r.self else PtrAt(m, LastFullOn(m, p))
  {
    LastMore(m, x, p);
  }

  lemma ChangedMore(m: seq<Mark>, x: Mark, atime: bool)
    ensures ChangedSince(m + [x], atime) <==> !FullMark(x) && (ChangedSince(m, atime) || x == Changed(atime))
  {
    LastMore(m, x, 0);
    if !FullMark(x) {
      if ChangedSince(m, atime) {
        var k :| LastFull(m) < k < |m| && m[k] == Changed(atime);
        assert (m + [x])[k] == Changed(atime);
      }
      if x == Changed(atime) { assert (m + [x])[|m|] == x; }
      if ChangedSince(m + [x], atime) {
        var k :| LastFull(m + [x]) < k < |m + [x]| && (m + [x])[k] == Changed(atime);
        assert k < |m| ==> m[k] == Changed(atime);
      }
    }
  }

  /** What one more mark makes of what there is to know. */
  lemma KnowsMore(c: Config, z: Tape, x: Mark, w: Vol)
    requires Knows(c, z) && (x.Wrote? ==> x.r.self.part == c.dp || x.r.self.part == c.ip)
    requires w.st.dpEnd <==> if MarkOn(x, c.dp) then FullMark(x) else z.v.st.dpEnd
    requires w.st.ipEnd <==> if MarkOn(x, c.ip) then x.Wrote? else z.v.st.ipEnd
    requires w.p.self == if FullMark(x) then x.r.self else z.v.p.self
    requires Head(c, w.p) == if FullMark(x) && MarkOn(x, c.dp) then x.r.self else Head(c, z.v.p)
    requires w.st.dirty <==> !FullMark(x) && (z.v.st.dirty || x == Changed(false))
    requires w.st.atimeDirty <==> !FullMark(x) && (z.v.st.atimeDirty || x == Changed(true))
    ensures Knows(c, Tape(w, z.m + [x]))
  {
    EndsMore(z.m, x, c.dp);
    EndsMore(z.m, x, c.ip);
    PtrMore(z.m, x, c.dp);
    ChangedMore(z.m, x, false);
    ChangedMore(z.m, x, true);
    hide EndsFull, EndsIndex, PtrAt, LastFull, LastFullOn, LastOn, ChangedSince, MarkOn, FullMark, Head;
  }

  // ----- what happens

  function Placed(w: seq<Rec>): seq<Mark> { seq(|w|, i requires 0 <= i < |w| => Wrote(w[i])) }

  function Marks(c: Config, v: Vol, e: Event): seq<Mark> {
    match e
    case Change(atime, _) => [Changed(atime)]
    case Data(part, _) => [Filled(if part == c.dp then c.dp else c.ip)]
    case _ => Placed(Happen(c, v, e).written)
  }

  function After(c: Config, z: Tape, e: Event): Tape { Tape(Happen(c, z.v, e).v, z.m + Marks(c, z.v, e)) }

  /** `ltfs_write_index_conditional`: what a partition lacks before data goes to the other one. */
  predicate Lacks(c: Config, v: Vol, p: nat) {
    if p == c.ip then !v.st.ipEnd else !v.st.dpEnd || (v.st.ipEnd && v.p.self.part == c.ip)
  }

  /** Data goes to a partition (src/libltfs/ltfs_fsops_raw.c), or something else happens. */
  datatype Act = Append(part: nat, blocks: nat, dev: Device) | Does(e: Event)

  function Other(c: Config, p: nat): nat { if p == c.ip then c.dp else c.ip }

  function Acted(c: Config, z: Tape, a: Act): Tape {
    match a
    case Does(e) => After(c, z, e)
    case Append(p, blocks, dev) =>
      var e := Write(Other(c, p), Full, false, dev);
      if !Lacks(c, z.v, Other(c, p)) then After(c, z, Data(p, blocks))
      else if Happen(c, z.v, e).ok then After(c, After(c, z, e), Data(p, blocks))
      else After(c, z, e)
  }

  function Acts(c: Config, z: Tape, acts: seq<Act>): Tape {
    if acts == [] then z else Acted(c, Acts(c, z, acts[..|acts| - 1]), acts[|acts| - 1])
  }

  predicate CanAct(c: Config, a: Act) {
    match a
    case Does(e) => Possible(c, e)
    case Append(p, _, _) => p == c.dp || p == c.ip
  }

  // ----- a volume keeps knowing its tape, whatever fails

  lemma PlacedMore(m: seq<Mark>, a: seq<Rec>, b: seq<Rec>)
    ensures m + Placed(a) + Placed(b) == m + Placed(a + b)
    ensures m + Placed([]) == m
  {
  }

  lemma OneKnows(c: Config, z: Tape, part: nat, full: bool, io: Io)
    requires Knows(c, z) && (part == c.dp || (part == c.ip && full))
    ensures var o := One(c, z.v, part, full, io); Knows(c, Tape(o.v, z.m + Placed(o.written)))
  {
    var o := One(c, z.v, part, full, io);
    if o.written == [] {
      assert z.m + Placed(o.written) == z.m;
    } else {
      assert Placed(o.written) == [Wrote(o.written[0])];
      KnowsMore(c, z, Wrote(o.written[0]), o.v);
    }
  }

  lemma ClearedKnows(c: Config, z: Tape)
    requires Knows(c, z)
    ensures Knows(c, z.(v := z.v.(st := Cleared(z.v.st))))
  {
  }

  lemma WriteKnows(c: Config, z: Tape, part: nat, k: Kind, writePerm: bool, dev: Device)
    requires Knows(c, z) && (part == c.dp || part == c.ip)
    ensures var o := WriteIndex(c, z.v, part, k, writePerm, dev); Knows(c, Tape(o.v, z.m + Placed(o.written)))
  {
    hide Knows, One, Placed;
    KnowsConfig(c, z);
    if NeedsDp(c, z.v, part, writePerm) {
      var v1 := z.v.(st := Cleared(z.v.st));
      ClearedKnows(c, z);
      var a := One(c, v1, c.dp, true, dev.inner);
      var z1 := Tape(a.v, z.m + Placed(a.written));
      OneKnows(c, Tape(v1, z.m), c.dp, true, dev.inner);
      if a.ok || !dev.innerStops {
        OneKnows(c, z1, part, true, dev.outer);
        PlacedMore(z.m, a.written, One(c, a.v, part, true, dev.outer).written);
      }
    } else {
      OneKnows(c, z, part, KindFor(c, z.v, part, k) == Full, dev.outer);
    }
  }

  lemma KnowsConfig(c: Config, z: Tape)
    requires Knows(c, z)
    ensures ConfigOk(c)
  {
  }

  lemma SyncKnows(c: Config, z: Tape, k: Kind, dev: Device, writePerm: bool, dev2: Device)
    requires Knows(c, z)
    ensures var o := Synced(c, z.v, k, dev, writePerm, dev2); Knows(c, Tape(o.v, z.m + Placed(o.written)))
  {
    hide Knows, WriteIndex, Placed;
    PlacedMore(z.m, [], []);
    if Wants(c, z.v, k) {
      var kind := Resolve(c, z.v, k);
      var part := Target(c, z.v, kind);
      var o := WriteIndex(c, z.v, part, kind, false, dev);
      WriteKnows(c, z, part, kind, false, dev);
      if !o.ok && writePerm && part == c.dp {
        WriteKnows(c, Tape(o.v, z.m + Placed(o.written)), c.ip, Full, true, dev2);
        PlacedMore(z.m, o.written, WriteIndex(c, o.v, c.ip, Full, true, dev2).written);
      }
    }
  }

  lemma AfterKnows(c: Config, z: Tape, e: Event)
    requires Knows(c, z) && Possible(c, e)
    ensures Knows(c, After(c, z, e))
  {
    match e
    case Write(part, k, writePerm, dev) => WriteKnows(c, z, part, k, writePerm, dev);
    case Sync(k, dev, writePerm, dev2) => SyncKnows(c, z, k, dev, writePerm, dev2);
    case Change(atime, journaled) => KnowsMore(c, z, Changed(atime), Happen(c, z.v, e).v);
    case Data(part, _) =>
      KnowsConfig(c, z);
      KnowsMore(c, z, Filled(if part == c.dp then c.dp else c.ip), Happen(c, z.v, e).v);
  }

  lemma ActedKnows(c: Config, z: Tape, a: Act)
    requires Knows(c, z) && CanAct(c, a)
    ensures Knows(c, Acted(c, z, a))
  {
    hide Knows, After, Happen;
    match a
    case Does(e) => AfterKnows(c, z, e);
    case Append(p, blocks, dev) =>
      var e := Write(Other(c, p), Full, false, dev);
      AfterKnows(c, z, e);
      AfterKnows(c, z, Data(p, blocks));
      AfterKnows(c, After(c, z, e), Data(p, blocks));
  }

  /** After any run, whatever fails: the flags say exactly whether the partitions end in an index, the pointers are
      those of the newest full index and of the newest one on the data partition, and the volume is dirty exactly if
      there was a change since the newest full index. */
  lemma {:induction false} ActsKnow(c: Config, z: Tape, acts: seq<Act>)
    requires Knows(c, z) && forall i :: 0 <= i < |acts| ==> CanAct(c, acts[i])
    ensures Knows(c, Acts(c, z, acts))
    decreases |acts|
  {
    hide Knows, Acted, CanAct;
    if acts != [] {
      ActsKnow(c, z, acts[..|acts| - 1]);
      ActedKnows(c, Acts(c, z, acts[..|acts| - 1]), acts[|acts| - 1]);
    }
  }

  // ----- behind what an index on the index partition stands

  predicate OnIp(c: Config, x: Mark) { x.Wrote? && x.r.self.part == c.ip }

  /** The data partition ends in a full index, to which the full index r points back; and unless there is data on the
      index partition, that index is newer than the last one there. */
  predicate Behind(c: Config, m: seq<Mark>, r: Rec) {
    && r.kind == Full && EndsFull(m, c.dp) && r.back == m[LastOn(m, c.dp)].r.self
    && !(EndsIndex(m, c.ip) && PtrAt(m, LastFull(m)).part == c.ip)
  }

  ghost predicate Ordered(c: Config, m: seq<Mark>) {
    forall j :: 0 <= j < |m| && OnIp(c, m[j]) ==> Behind(c, m[..j], m[j].r)
  }

  lemma OrderedMore(c: Config, m: seq<Mark>, x: Mark)
    ensures Ordered(c, m + [x]) <==> Ordered(c, m) && (OnIp(c, x) ==> Behind(c, m, x.r))
  {
    hide Behind;
    var n := m + [x];
    assert n[..|m|] == m && n[|m|] == x;
    forall j | 0 <= j < |m| ensures n[j] == m[j] && n[..j] == m[..j] { }
    if Ordered(c, n) {
      forall j | 0 <= j < |m| && OnIp(c, m[j]) ensures Behind(c, m[..j], m[j].r) { assert OnIp(c, n[j]); }
      assert OnIp(c, x) ==> OnIp(c, n[|m|]);
    }
  }

  /** The newest full index on a partition that ends in one. */
  lemma EndIsLast(m: seq<Mark>, p: nat)
    requires EndsFull(m, p)
    ensures LastFullOn(m, p) == LastOn(m, p)
  {
  }

  /** What the flags say about the place for an index on the index partition. */
  predicate Room(c: Config, v: Vol) { v.st.dpEnd && !(v.st.ipEnd && v.p.self.part == c.ip) }

  /** A full index on the index partition is in its place exactly if the flags say so. */
  lemma OneInPlace(c: Config, z: Tape, part: nat, full: bool, io: Io)
    requires Knows(c, z) && (part == c.dp || (part == c.ip && full))
    ensures var o := One(c, z.v, part, full, io);
            Ordered(c, z.m + Placed(o.written)) <==>
            Ordered(c, z.m) && (part == c.ip && o.ok ==> Room(c, z.v))
  {
    var o := One(c, z.v, part, full, io);
    if o.written == [] {
      assert z.m + Placed(o.written) == z.m;
    } else {
      var r := o.written[0];
      assert Placed(o.written) == [Wrote(r)];
      OrderedMore(c, z.m, Wrote(r));
      if EndsFull(z.m, c.dp) { EndIsLast(z.m, c.dp); }
      hide Ordered, Placed, LastOn, LastFull, LastFullOn, EndsFull, EndsIndex, ChangedSince;
    }
  }

  lemma DpGivesRoom(c: Config, z: Tape, io: Io)
    requires Knows(c, z)
    ensures var o := One(c, z.v, c.dp, true, io); o.ok ==> Room(c, o.v)
    ensures var o := One(c, z.v, c.dp, true, io); !o.ok ==> (Room(c, o.v) <==> Room(c, z.v))
  {
    hide Knows;
    KnowsConfig(c, z);
  }

  /** An index that goes to the index partition ends up in its place exactly if there was room for it, or an index was
      put on the data partition first: without a permanent write error, and without a failure there that is passed
      over. */
  lemma WriteInPlace(c: Config, z: Tape, part: nat, k: Kind, writePerm: bool, dev: Device)
    requires Knows(c, z) && Ordered(c, z.m) && (part == c.dp || part == c.ip)
    ensures var o := WriteIndex(c, z.v, part, k, writePerm, dev);
            Ordered(c, z.m + Placed(o.written)) <==>
            (part == c.ip && o.ok ==> Room(c, z.v) || (!writePerm && !Strikes(c, z.v, c.dp, dev.inner)))
  {
    KnowsConfig(c, z);
    hide Knows, Attempted, Placed, Ordered;
    if NeedsDp(c, z.v, part, writePerm) {
      var v1 := z.v.(st := Cleared(z.v.st));
      ClearedKnows(c, z);
      var a := One(c, v1, c.dp, true, dev.inner);
      var z1 := Tape(a.v, z.m + Placed(a.written));
      OneKnows(c, Tape(v1, z.m), c.dp, true, dev.inner);
      OneInPlace(c, Tape(v1, z.m), c.dp, true, dev.inner);
      DpGivesRoom(c, Tape(v1, z.m), dev.inner);
      if a.ok || !dev.innerStops {
        OneInPlace(c, z1, part, true, dev.outer);
        PlacedMore(z.m, a.written, One(c, a.v, part, true, dev.outer).written);
      }
    } else {
      OneInPlace(c, z, part, KindFor(c, z.v, part, k) == Full, dev.outer);
    }
  }

  /** Nothing is passed over: no permanent write error on the way, and a failure on the data partition stops the index
      that was to stand behind it. */
  predicate Orderly(c: Config, a: Act) {
    match a
    case Does(Write(part, _, writePerm, dev)) =>
      part == c.ip ==> !writePerm && (dev.inner.fault == NoFault || dev.innerStops)
    case Does(Sync(_, dev, writePerm, _)) => writePerm ==> dev.outer.fault == NoFault
    case Append(part, _, dev) => part != c.ip ==> dev.inner.fault == NoFault || dev.innerStops
    case _ => true
  }

  lemma SyncInPlace(c: Config, z: Tape, k: Kind, dev: Device, writePerm: bool, dev2: Device)
    requires Knows(c, z) && Ordered(c, z.m) && (writePerm ==> dev.outer.fault == NoFault)
    ensures Ordered(c, z.m + Placed(Synced(c, z.v, k, dev, writePerm, dev2).written))
  {
    KnowsConfig(c, z);
    hide Knows, Attempted, Placed, Ordered;
    PlacedMore(z.m, [], []);
    if Wants(c, z.v, k) {
      var kind := Resolve(c, z.v, k);
      WriteInPlace(c, z, Target(c, z.v, kind), kind, false, dev);
    }
  }

  lemma AfterOrdered(c: Config, z: Tape, e: Event)
    requires Knows(c, z) && Ordered(c, z.m) && Possible(c, e) && Orderly(c, Does(e))
    ensures Ordered(c, After(c, z, e).m)
  {
    hide Knows, Ordered, WriteIndex, Synced;
    match e
    case Write(part, k, writePerm, dev) =>
      WriteInPlace(c, z, part, k, writePerm, dev);
      if part == c.ip { StopsOrWrites(c, z.v, k, dev); }
    case Sync(k, dev, writePerm, dev2) => SyncInPlace(c, z, k, dev, writePerm, dev2);
    case Change(atime, _) => OrderedMore(c, z.m, Changed(atime));
    case Data(part, _) => OrderedMore(c, z.m, Filled(if part == c.dp then c.dp else c.ip));
  }

  lemma StopsOrWrites(c: Config, v: Vol, k: Kind, dev: Device)
    requires dev.inner.fault == NoFault || dev.innerStops
    ensures WriteIndex(c, v, c.ip, k, false, dev).ok ==> Room(c, v) || !Strikes(c, v, c.dp, dev.inner)
  {
  }

  lemma ActedOrdered(c: Config, z: Tape, a: Act)
    requires Knows(c, z) && Ordered(c, z.m) && CanAct(c, a) && Orderly(c, a)
    ensures Ordered(c, Acted(c, z, a).m)
  {
    KnowsConfig(c, z);
    hide Knows, After, Happen, Ordered;
    match a
    case Does(e) => AfterOrdered(c, z, e);
    case Append(p, blocks, dev) =>
      var e := Write(Other(c, p), Full, false, dev);
      AfterKnows(c, z, e);
      AfterOrdered(c, z, e);
      AfterOrdered(c, z, Data(p, blocks));
      AfterOrdered(c, After(c, z, e), Data(p, blocks));
  }

  lemma {:induction false} ActsOrdered(c: Config, z: Tape, acts: seq<Act>)
    requires Knows(c, z) && Ordered(c, z.m)
    requires forall i :: 0 <= i < |acts| ==> CanAct(c, acts[i]) && Orderly(c, acts[i])
    ensures Ordered(c, Acts(c, z, acts).m)
    decreases |acts|
  {
    hide Knows, Ordered, Acted, CanAct, Orderly;
    if acts != [] {
      var pre := acts[..|acts| - 1];
      ActsOrdered(c, z, pre);
      ActsKnow(c, z, pre);
      ActedOrdered(c, Acts(c, z, pre), acts[|acts| - 1]);
    }
  }

  /** Mark i is the full index on the data partition that mark j stands behind and points back to. */
  ghost predicate Backs(c: Config, m: seq<Mark>, i: int, j: int)
    requires 0 <= i < j < |m|
  {
    && FullMark(m[i]) && m[i].r.self.part == c.dp && m[j].Wrote? && m[j].r.back == m[i].r.self
    && forall k :: i < k < j ==> !MarkOn(m[k], c.dp)
  }

  /** Two indexes on the index partition without another index between them. */
  ghost predicate Neighbours(c: Config, m: seq<Mark>, i: int, j: int)
    requires 0 <= i < j < |m|
  {
    OnIp(c, m[i]) && OnIp(c, m[j]) && forall k :: i < k < j ==> !m[k].Wrote?
  }

  lemma HasBack(c: Config, m: seq<Mark>, j: int)
    requires ConfigOk(c) && 0 <= j < |m| && OnIp(c, m[j]) && Behind(c, m[..j], m[j].r)
    ensures exists i :: 0 <= i < j && Backs(c, m, i, j)
  {
    var i := LastOn(m[..j], c.dp);
    forall k | i < k < j ensures !MarkOn(m[k], c.dp) { assert m[..j][k] == m[k]; }
    assert Backs(c, m, i, j);
  }

  lemma HasData(c: Config, m: seq<Mark>, i: int, j: int)
    requires ConfigOk(c) && 0 <= i < j < |m| && Neighbours(c, m, i, j)
    requires FullMark(m[i]) && Behind(c, m[..j], m[j].r)
    ensures exists k :: i < k < j && m[k] == Filled(c.ip)
  {
    var n := m[..j];
    assert n[i] == m[i] && FullMark(n[i]) && MarkOn(n[i], c.ip);
    forall k | i < k < j ensures !n[k].Wrote? { }
    assert LastFull(n) == i;
    var k := LastOn(n, c.ip);
    assert k >= i;
    if k > i { assert m[k] == Filled(c.ip); }
  }

  /** Every index on the index partition is a full one, stands behind a full index on the data partition that has
      neither data nor another index behind it there, and points back to it. Two indexes on the index partition are
      never neighbours unless data went there in between. */
  lemma IndexesInOrder(c: Config, z: Tape, acts: seq<Act>)
    requires Knows(c, z) && Ordered(c, z.m)
    requires forall i :: 0 <= i < |acts| ==> CanAct(c, acts[i]) && Orderly(c, acts[i])
    ensures var m := Acts(c, z, acts).m;
            && (forall j :: 0 <= j < |m| && OnIp(c, m[j]) ==>
                  FullMark(m[j]) && exists i :: 0 <= i < j && Backs(c, m, i, j))
            && (forall i, j :: 0 <= i < j < |m| && Neighbours(c, m, i, j) ==>
                  exists k :: i < k < j && m[k] == Filled(c.ip))
  {
    KnowsConfig(c, z);
    ActsOrdered(c, z, acts);
    hide Knows, Acts, CanAct, Orderly, Backs;
    var m := Acts(c, z, acts).m;
    forall j | 0 <= j < |m| && OnIp(c, m[j])
      ensures FullMark(m[j]) && exists i :: 0 <= i < j && Backs(c, m, i, j)
    {
      HasBack(c, m, j);
    }
    forall i, j | 0 <= i < j < |m| && Neighbours(c, m, i, j) ensures exists k :: i < k < j && m[k] == Filled(c.ip) {
      HasData(c, m, i, j);
    }
  }

  /** A volume without any index. */
  lemma BlankInOrder(c: Config, v: Vol)
    requires Fresh(c, v) && !v.st.dirty && !v.st.atimeDirty && !v.st.dpEnd && !v.st.ipEnd
    ensures Knows(c, Tape(v, [])) && Ordered(c, []) && AllSecured(c, [])
  {
  }

  /** A volume that was mounted: both partitions end in an index, and the one on the index partition was read. */
  predicate Mounted(c: Config, v: Vol, d: Rec, i: Rec) {
    && ConfigOk(c) && d.kind == i.kind == Full && d.self.part == c.dp && i.self.part == c.ip && i.back == d.self
    && v.p.self == i.self && v.p.back == i.back
    && v.st.dpEnd && v.st.ipEnd && !v.st.dirty && !v.st.atimeDirty
  }

  lemma MountedInOrder(c: Config, v: Vol, d: Rec, i: Rec)
    requires Mounted(c, v, d, i)
    ensures var m := [Wrote(d), Wrote(i)]; Knows(c, Tape(v, m)) && Ordered(c, m) && AllSecured(c, m)
  {
    var st := v.st.(dpEnd := false, ipEnd := false);
    var v0 := v.(p := Pointers(NIL, NIL, NIL, NIL), st := st.(toGo := c.interval));
    var v1 := v.(p := v.p.(self := d.self), st := st.(dpEnd := true));
    var m := [Wrote(d)];
    assert [] + [Wrote(d)] == m && m + [Wrote(i)] == [Wrote(d), Wrote(i)];
    BlankInOrder(c, v0);
    KnowsMore(c, Tape(v0, []), Wrote(d), v1);
    KnowsMore(c, Tape(v1, m), Wrote(i), v);
    OrderedMore(c, [], Wrote(d));
    OrderedMore(c, m, Wrote(i));
    EndsMore([], Wrote(d), c.dp);
    EndsMore([], Wrote(d), c.ip);
    hide Knows, Ordered, LastFull;
  }

  // ----- data on one partition, an index at the end of the other

  /** Before data goes to a partition, the other one ends in an index; and if that is the data partition, in a full one
      that is newer than the index on the index partition, unless there is data behind that. */
  predicate Secured(c: Config, m: seq<Mark>, p: nat) {
    if p == c.ip then EndsFull(m, c.dp) && !(EndsIndex(m, c.ip) && PtrAt(m, LastFull(m)).part == c.ip)
    else EndsIndex(m, c.ip)
  }

  ghost predicate AllSecured(c: Config, m: seq<Mark>) {
    forall j :: 0 <= j < |m| && m[j].Filled? ==>
      (m[j].part == c.dp || m[j].part == c.ip) && Secured(c, m[..j], m[j].part)
  }

  lemma SecuredMore(c: Config, m: seq<Mark>, x: Mark)
    requires AllSecured(c, m) && (x.Filled? ==> (x.part == c.dp || x.part == c.ip) && Secured(c, m, x.part))
    ensures AllSecured(c, m + [x])
  {
    hide Secured;
    var n := m + [x];
    assert n[..|m|] == m;
    forall j | 0 <= j < |m| ensures n[j] == m[j] && n[..j] == m[..j] { }
  }

  lemma {:induction false} SecuredPlaced(c: Config, m: seq<Mark>, w: seq<Rec>)
    requires AllSecured(c, m)
    ensures AllSecured(c, m + Placed(w))
    decreases |w|
  {
    hide AllSecured;
    if w == [] {
      assert m + Placed(w) == m;
    } else {
      var pre := w[..|w| - 1];
      SecuredPlaced(c, m, pre);
      SecuredMore(c, m + Placed(pre), Wrote(w[|w| - 1]));
      assert m + Placed(w) == m + Placed(pre) + [Wrote(w[|w| - 1])];
    }
  }

  /** A partition that got its index lacks nothing. */
  lemma WriteSupplies(c: Config, v: Vol, p: nat, dev: Device)
    requires ConfigOk(c) && (p == c.dp || p == c.ip)
    ensures var o := WriteIndex(c, v, p, Full, false, dev); o.ok ==> !Lacks(c, o.v, p)
  {
  }

  lemma FillSecured(c: Config, z: Tape, p: nat, blocks: nat)
    requires Knows(c, z) && AllSecured(c, z.m) && (p == c.dp || p == c.ip) && !Lacks(c, z.v, Other(c, p))
    ensures AllSecured(c, After(c, z, Data(p, blocks)).m)
  {
    SecuredMore(c, z.m, Filled(p));
  }

  lemma ActedSecured(c: Config, z: Tape, a: Act)
    requires Knows(c, z) && AllSecured(c, z.m) && CanAct(c, a) && (a.Does? ==> !a.e.Data?)
    ensures AllSecured(c, Acted(c, z, a).m)
  {
    KnowsConfig(c, z);
    match a
    case Does(e) =>
      hide Knows, AllSecured, WriteIndex, Synced;
      if e.Change? {
        SecuredMore(c, z.m, Changed(e.atime));
      } else {
        SecuredPlaced(c, z.m, Happen(c, z.v, e).written);
      }
    case Append(p, blocks, dev) =>
      var e := Write(Other(c, p), Full, false, dev);
      AfterKnows(c, z, e);
      WriteSupplies(c, z.v, Other(c, p), dev);
      SecuredPlaced(c, z.m, Happen(c, z.v, e).written);
      hide Knows, AllSecured, WriteIndex, Lacks;
      if !Lacks(c, z.v, Other(c, p)) {
        FillSecured(c, z, p, blocks);
      } else if Happen(c, z.v, e).ok {
        FillSecured(c, After(c, z, e), p, blocks);
      }
  }

  /** Once anything is on the tape, one of the partitions ends in an index. */
  lemma {:induction false} OneEndsInIndex(c: Config, m: seq<Mark>)
    requires ConfigOk(c) && AllSecured(c, m)
    requires forall x :: x in m && x.Wrote? ==> x.r.self.part == c.dp || x.r.self.part == c.ip
    requires exists x :: x in m && !x.Changed?
    ensures EndsIndex(m, c.dp) || EndsIndex(m, c.ip)
    decreases |m|
  {
    var pre, x := m[..|m| - 1], m[|m| - 1];
    assert m == pre + [x];
    EndsMore(pre, x, c.dp);
    EndsMore(pre, x, c.ip);
    hide EndsIndex, EndsFull;
    if x.Changed? {
      forall j | 0 <= j < |pre| ensures pre[j] == m[j] && pre[..j] == m[..j] { }
      OneEndsInIndex(c, pre);
    } else if x.Filled? {
      assert Secured(c, pre, x.part);
      if x.part == c.ip { FullIsIndex(pre, c.dp); }
    }
  }

  lemma FullIsIndex(m: seq<Mark>, p: nat)
    requires EndsFull(m, p)
    ensures EndsIndex(m, p)
  {
  }

  lemma {:induction false} ActsSecured(c: Config, z: Tape, acts: seq<Act>)
    requires Knows(c, z) && AllSecured(c, z.m)
    requires forall i :: 0 <= i < |acts| ==> CanAct(c, acts[i]) && (acts[i].Does? ==> !acts[i].e.Data?)
    ensures AllSecured(c, Acts(c, z, acts).m)
    decreases |acts|
  {
    hide Knows, AllSecured, Acted, CanAct;
    if acts != [] {
      var pre := acts[..|acts| - 1];
      ActsSecured(c, z, pre);
      ActsKnow(c, z, pre);
      ActedSecured(c, Acts(c, z, pre), acts[|acts| - 1]);
    }
  }

  /** As long as data goes to tape on the data path only, and whatever fails: all data was written with an index at the
      end of the other partition, and at any time one of the partitions ends in an index. */
  lemma DataIsSecured(c: Config, z: Tape, acts: seq<Act>)
    requires Knows(c, z) && AllSecured(c, z.m) && exists x :: x in z.m && !x.Changed?
    requires forall i :: 0 <= i < |acts| ==> CanAct(c, acts[i]) && (acts[i].Does? ==> !acts[i].e.Data?)
    ensures var m := Acts(c, z, acts).m; AllSecured(c, m) && (EndsIndex(m, c.dp) || EndsIndex(m, c.ip))
  {
    KnowsConfig(c, z);
    ActsSecured(c, z, acts);
    ActsKnow(c, z, acts);
    ActsGrow(c, z, acts);
    var x :| x in z.m && !x.Changed?;
    assert x in Acts(c, z, acts).m;
    hide Acts, AllSecured, EndsIndex;
    OneEndsInIndex(c, Acts(c, z, acts).m);
  }

  lemma {:induction false} ActsGrow(c: Config, z: Tape, acts: seq<Act>)
    ensures z.m <= Acts(c, z, acts).m
    decreases |acts|
  {
    if acts != [] {
      ActsGrow(c, z, acts[..|acts| - 1]);
      ActedGrows(c, Acts(c, z, acts[..|acts| - 1]), acts[|acts| - 1]);
      hide Acted;
    }
  }

  lemma ActedGrows(c: Config, z: Tape, a: Act)
    ensures z.m <= Acted(c, z, a).m
  {
    hide Marks, Happen, Lacks;
  }

  // ----- generations

  /** The generation of the newest index, or g. */
  function GenerationAt(g: nat, m: seq<Mark>): nat {
    if m == [] then g
    else if m[|m| - 1].Wrote? then m[|m| - 1].r.generation
    else GenerationAt(g, m[..|m| - 1])
  }

  /** A change that counts since the newest full index. */
  ghost predicate Counts(c: Config, m: seq<Mark>) { ChangedSince(m, false) || (c.useAtime && ChangedSince(m, true)) }

  ghost function NextGeneration(c: Config, g: nat, m: seq<Mark>): nat {
    GenerationAt(g, m) + if Counts(c, m) then 1 else 0
  }

  predicate AtLeast(exact: bool, a: nat, b: nat) { a >= b && (exact ==> a == b) }

  /** Every index has the generation of the one before it, and one more if there was a change that counts; or a
      greater one, unless exact. */
  ghost predicate Grown(exact: bool, c: Config, g: nat, m: seq<Mark>) {
    forall j :: 0 <= j < |m| && m[j].Wrote? ==> AtLeast(exact, m[j].r.generation, NextGeneration(c, g, m[..j]))
  }

  ghost predicate Counting(exact: bool, c: Config, g: nat, z: Tape) {
    Knows(c, z) && Grown(exact, c, g, z.m) && AtLeast(exact, z.v.generation, GenerationAt(g, z.m))
  }

  lemma GrownMore(exact: bool, c: Config, g: nat, m: seq<Mark>, x: Mark)
    requires Grown(exact, c, g, m)
    requires x.Wrote? ==> AtLeast(exact, x.r.generation, NextGeneration(c, g, m))
    ensures Grown(exact, c, g, m + [x])
    ensures GenerationAt(g, m + [x]) == if x.Wrote? then x.r.generation else GenerationAt(g, m)
  {
    hide NextGeneration, AtLeast;
    var n := m + [x];
    assert n[..|m|] == m;
    forall j | 0 <= j < |m| ensures n[j] == m[j] && n[..j] == m[..j] { }
  }

  /** An incremental index that fails behind the seek uses up a generation. */
  predicate Spends(full: bool, io: Io) { !full && io.fault !in {NoFault, SeekFails, FlushFails} }

  lemma DirtyCounts(c: Config, z: Tape)
    requires Knows(c, z)
    ensures IsDirty(c, z.v) <==> Counts(c, z.m)
  {
  }

  lemma OneGeneration(c: Config, v: Vol, part: nat, full: bool, io: Io)
    requires ConfigOk(c) && (part == c.dp || full)
    ensures var o := One(c, v, part, full, io);
            if o.written == [] then
              o.v.generation == v.generation || (Spends(full, io) && o.v.generation == Generation(c, v))
            else |o.written| == 1 && o.v.generation == o.written[0].generation == Generation(c, v)
  {
  }

  lemma OneCounting(exact: bool, c: Config, g: nat, z: Tape, part: nat, full: bool, io: Io)
    requires Counting(exact, c, g, z) && (part == c.dp || (part == c.ip && full)) && (exact ==> !Spends(full, io))
    ensures var o := One(c, z.v, part, full, io); Counting(exact, c, g, Tape(o.v, z.m + Placed(o.written)))
  {
    KnowsConfig(c, z);
    OneKnows(c, z, part, full, io);
    DirtyCounts(c, z);
    OneGeneration(c, z.v, part, full, io);
    hide Knows, Grown, GenerationAt, Counts, One, IsDirty, Spends;
    var o := One(c, z.v, part, full, io);
    if o.written == [] {
      assert z.m + Placed(o.written) == z.m;
    } else {
      assert Placed(o.written) == [Wrote(o.written[0])];
      GrownMore(exact, c, g, z.m, Wrote(o.written[0]));
    }
  }

  lemma WriteCounting(exact: bool, c: Config, g: nat, z: Tape, part: nat, k: Kind, writePerm: bool, dev: Device)
    requires Counting(exact, c, g, z) && (part == c.dp || part == c.ip)
    requires exact ==> !Spends(k == Full || part == c.ip, dev.outer)
    ensures var o := WriteIndex(c, z.v, part, k, writePerm, dev);
            Counting(exact, c, g, Tape(o.v, z.m + Placed(o.written)))
  {
    KnowsConfig(c, z);
    ClearedKnows(c, z);
    hide Knows, Grown, One, Placed;
    if NeedsDp(c, z.v, part, writePerm) {
      var v1 := z.v.(st := Cleared(z.v.st));
      var a := One(c, v1, c.dp, true, dev.inner);
      var z1 := Tape(a.v, z.m + Placed(a.written));
      OneCounting(exact, c, g, Tape(v1, z.m), c.dp, true, dev.inner);
      if a.ok || !dev.innerStops {
        OneCounting(exact, c, g, z1, part, true, dev.outer);
        PlacedMore(z.m, a.written, One(c, a.v, part, true, dev.outer).written);
      }
    } else {
      OneCounting(exact, c, g, z, part, KindFor(c, z.v, part, k) == Full, dev.outer);
    }
  }

  lemma SyncCounting(exact: bool, c: Config, g: nat, z: Tape, k: Kind, dev: Device, writePerm: bool, dev2: Device)
    requires Counting(exact, c, g, z) && (exact ==> !Spends(k == Full, dev.outer))
    ensures var o := Synced(c, z.v, k, dev, writePerm, dev2);
            Counting(exact, c, g, Tape(o.v, z.m + Placed(o.written)))
  {
    hide Counting, WriteIndex, Placed;
    PlacedMore(z.m, [], []);
    if Wants(c, z.v, k) {
      var kind := Resolve(c, z.v, k);
      var part := Target(c, z.v, kind);
      var o := WriteIndex(c, z.v, part, kind, false, dev);
      WriteCounting(exact, c, g, z, part, kind, false, dev);
      if !o.ok && writePerm && part == c.dp {
        WriteCounting(exact, c, g, Tape(o.v, z.m + Placed(o.written)), c.ip, Full, true, dev2);
        PlacedMore(z.m, o.written, WriteIndex(c, o.v, c.ip, Full, true, dev2).written);
      }
    }
  }

  /** An incremental index is asked for, and a fault behind the seek is in its way. */
  predicate MaySpend(c: Config, a: Act) {
    match a
    case Does(Write(part, k, _, dev)) => Spends(k == Full || part == c.ip, dev.outer)
    case Does(Sync(k, dev, _, _)) => Spends(k == Full, dev.outer)
    case _ => false
  }

  lemma AfterCounting(exact: bool, c: Config, g: nat, z: Tape, e: Event)
    requires Counting(exact, c, g, z) && Possible(c, e) && (exact ==> !MaySpend(c, Does(e)))
    ensures Counting(exact, c, g, After(c, z, e))
  {
    AfterKnows(c, z, e);
    match e
    case Write(part, k, writePerm, dev) => WriteCounting(exact, c, g, z, part, k, writePerm, dev);
    case Sync(k, dev, writePerm, dev2) => SyncCounting(exact, c, g, z, k, dev, writePerm, dev2);
    case Change(atime, journaled) =>
      hide Knows, Grown;
      GrownMore(exact, c, g, z.m, Changed(atime));
    case Data(part, _) =>
      hide Knows, Grown;
      GrownMore(exact, c, g, z.m, Filled(if part == c.dp then c.dp else c.ip));
  }

  lemma ActedCounting(exact: bool, c: Config, g: nat, z: Tape, a: Act)
    requires Counting(exact, c, g, z) && CanAct(c, a) && (exact ==> !MaySpend(c, a))
    ensures Counting(exact, c, g, Acted(c, z, a))
  {
    hide Counting, After, Happen;
    match a
    case Does(e) => AfterCounting(exact, c, g, z, e);
    case Append(p, blocks, dev) =>
      var e := Write(Other(c, p), Full, false, dev);
      AfterCounting(exact, c, g, z, e);
      AfterCounting(exact, c, g, z, Data(p, blocks));
      AfterCounting(exact, c, g, After(c, z, e), Data(p, blocks));
  }

  /** Generations never go back, and grow with every index that is written after a change that counts. They grow by
      one, and only then, unless an incremental index failed behind the seek. */
  lemma {:induction false} GenerationsGrow(exact: bool, c: Config, g: nat, z: Tape, acts: seq<Act>)
    requires Counting(exact, c, g, z)
    requires forall i :: 0 <= i < |acts| ==> CanAct(c, acts[i]) && (exact ==> !MaySpend(c, acts[i]))
    ensures Grown(exact, c, g, Acts(c, z, acts).m) && Counting(exact, c, g, Acts(c, z, acts))
    decreases |acts|
  {
    if acts != [] {
      hide Knows, Grown, Acted, CanAct, MaySpend;
      GenerationsGrow(exact, c, g, z, acts[..|acts| - 1]);
      ActedCounting(exact, c, g, Acts(c, z, acts[..|acts| - 1]), acts[|acts| - 1]);
    }
  }
}
