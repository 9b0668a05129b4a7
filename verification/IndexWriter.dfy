/**
 Writing indexes (`ltfs_write_index`, `ltfs_sync_index`, src/libltfs/ltfs.c): self and back pointers,
 generation, dirty flags and the interval of full indexes, with every step that can fail.
 */
module IndexWriter {

  /** struct tape_offset */
  datatype Ptr = Ptr(part: nat, block: nat)

  /** Partition 0 is no partition: the pointer of an index that does not exist. */
  const NIL: Ptr := Ptr(0, 0)

  datatype Kind = Auto | Full | Incremental

  /** Where a write fails, if it does. The index text can fail before its writer has come to the changes of
      the session, or afterwards: on tape, say, when the last blocks go out. */
  datatype Fault = NoFault | SeekFails | PositionFails | FlushFails | FilemarkFails | XmlHeaderFails | XmlFails

  /** What the device does: where it fails, where the index partition's append position is, and how many
      blocks are lost to an attempt. */
  datatype Io = Io(fault: Fault, ipPos: nat, extra: nat)

  /** The volume's constants: partition ids, whether access times count, whether the format knows
      incremental indexes, and full_index_interval. */
  datatype Config = Config(dp: nat, ip: nat, useAtime: bool, incAllowed: bool, interval: int)

  predicate ConfigOk(c: Config) { 0 != c.dp && 0 != c.ip && c.dp != c.ip }

  /** The pointers of the last full index and of the last incremental one. */
  datatype Pointers = Pointers(self: Ptr, back: Ptr, selfInc: Ptr, backInc: Ptr)

  /** Flags and counters, and how many changes the journal holds. */
  datatype Status = Status(dirty: bool, incDirty: bool, atimeDirty: bool, dpEnd: bool, ipEnd: bool,
                           toGo: int, journal: nat, journalErr: bool)

  datatype Vol = Vol(p: Pointers, generation: nat, dpPos: nat, st: Status)

  predicate IsDirty(c: Config, v: Vol) { v.st.dirty || (c.useAtime && v.st.atimeDirty) }

  /** `_ltfs_full_index_due` */
  predicate Due(c: Config, v: Vol) { c.interval >= 0 && v.st.toGo == 0 }

  /** `_ltfs_resolve_index_type` */
  function Resolve(c: Config, v: Vol, k: Kind): (r: Kind)
    ensures r != Auto
    ensures r == Incremental <==>
            (k == Incremental || (k == Auto && !Due(c, v))) && c.incAllowed && !v.st.journalErr && v.st.journal > 0
  {
    var j := if k == Auto then (if Due(c, v) || !c.incAllowed then Full else Incremental) else k;
    if j == Incremental && (!c.incAllowed || v.st.journalErr || v.st.journal == 0) then Full else j
  }

  /** The fault that actually strikes: data is flushed only in front of an index partition that does not
      end in an index. */
  predicate Strikes(c: Config, v: Vol, part: nat, io: Io) {
    io.fault != NoFault && (io.fault == FlushFails ==> part == c.ip && !v.st.ipEnd)
  }

  function Position(c: Config, v: Vol, part: nat, io: Io): nat { if part == c.dp then v.dpPos else io.ipPos }

  function Generation(c: Config, v: Vol): nat { if IsDirty(c, v) then v.generation + 1 else v.generation }

  /** A full index points back to the last one on the data partition; an incremental one to the last
      incremental one. */
  function Pointed(c: Config, p: Pointers, full: bool, at: Ptr): Pointers {
    if full then p.(self := at, back := if p.self.part == c.dp then p.self else p.back)
    else p.(selfInc := at, backInc := p.selfInc)
  }

  function Settled(c: Config, st: Status, part: nat, full: bool): Status {
    if full then Status(false, false, false, st.dpEnd || part != c.ip, st.ipEnd || part == c.ip, c.interval, 0, false)
    else Cleared(st).(incDirty := false, dpEnd := false, toGo := if st.toGo > 0 then st.toGo - 1 else st.toGo)
  }

  /** The writer of an incremental index empties the journal as it goes through it, and resets its error flag;
      if the index fails after that, the journal is gone. */
  predicate Empties(full: bool, io: Io) { !full && io.fault == XmlFails }

  function Cleared(st: Status): Status { st.(journal := 0, journalErr := false) }

  /** What one attempt is meant to do. Of a failed one there remains a generation, if an incremental index
      fails after the seek, and an empty journal, if it fails after the journal was read. */
  function Attempted(c: Config, v: Vol, part: nat, full: bool, io: Io): Vol {
    var end := if part == c.dp then v.dpPos + io.extra else v.dpPos;
    if Strikes(c, v, part, io) then
      v.(generation := if full || io.fault == SeekFails then v.generation else Generation(c, v), dpPos := end,
         st := if Empties(full, io) then Cleared(v.st) else v.st)
    else
      var p := Pointed(c, v.p, full, Ptr(part, Position(c, v, part, io) + 1));
      Vol(if full then p.(selfInc := NIL, backInc := NIL) else p, Generation(c, v),
          if part == c.dp then end + 2 else end,
          Settled(c, v.st, part, full))
  }

  /** The index partition gets an index only behind one on the data partition. */
  predicate NeedsDp(c: Config, v: Vol, part: nat, writePerm: bool) {
    part == c.ip && !writePerm && (!v.st.dpEnd || (v.st.ipEnd && v.p.self.part == c.ip))
  }

  function KindFor(c: Config, v: Vol, part: nat, k: Kind): Kind {
    var r := Resolve(c, v, k);
    if r == Incremental && part != c.dp then Full else r
  }

  datatype Device = Device(inner: Io, innerStops: bool, outer: Io)

  /** What was written successfully, oldest first: kind, partition, and the pointers it carries. */
  datatype Rec = Rec(kind: Kind, self: Ptr, back: Ptr, generation: nat)

  function RecOf(v: Vol, full: bool): Rec {
    if full then Rec(Full, v.p.self, v.p.back, v.generation)
    else Rec(Incremental, v.p.selfInc, v.p.backInc, v.generation)
  }

  datatype Outcome = Outcome(v: Vol, written: seq<Rec>, ok: bool)

  function One(c: Config, v: Vol, part: nat, full: bool, io: Io): Outcome {
    var w := Attempted(c, v, part, full, io);
    if Strikes(c, v, part, io) then Outcome(w, [], false) else Outcome(w, [RecOf(w, full)], true)
  }

  /** `ltfs_write_index` with its recursive call. */
  function WriteIndex(c: Config, v: Vol, part: nat, k: Kind, writePerm: bool, dev: Device): Outcome {
    var kind := KindFor(c, v, part, k);
    if NeedsDp(c, v, part, writePerm) then
      var a := One(c, v.(st := Cleared(v.st)), c.dp, true, dev.inner);
      if !a.ok && dev.innerStops then a
      else
        var b := One(c, a.v, part, true, dev.outer);
        b.(written := a.written + b.written)
    else One(c, v, part, kind == Full, dev.outer)
  }

  // ----- in place

  /** `xml_schema_to_tape`: the text of an incremental index is made of the journal, entry by entry, and
      what has been read is disposed of. */
  method WriteXml(st: Status, full: bool, io: Io) returns (r: Status, failed: bool)
    ensures failed == (io.fault == XmlHeaderFails || io.fault == XmlFails)
    ensures r == if !full && io.fault != XmlHeaderFails then Cleared(st) else st
  {
    r := st;
    if io.fault == XmlHeaderFails { return r, true; }
    if !full { r := Cleared(r); }
    failed := io.fault == XmlFails;
  }

  /** What follows a successful write. */
  method Finish(c: Config, st: Status, part: nat, full: bool) returns (r: Status)
    requires !full ==> st == Cleared(st)
    ensures r == Settled(c, st, part, full)
  {
    r := st;
    if full {
      r := Cleared(r);
      r := if part == c.ip then r.(ipEnd := true) else r.(dpEnd := true);
      r := r.(dirty := false, incDirty := false, atimeDirty := false);
      r := r.(toGo := c.interval);
    } else {
      r := r.(dpEnd := false);
      r := r.(incDirty := false);
      if r.toGo > 0 { r := r.(toGo := r.toGo - 1); }
    }
  }

  /** The body of `ltfs_write_index` behind the recursive call: pointers and generation are changed
      first, and put back when a later step fails. */
  method Attempt(c: Config, v: Vol, part: nat, full: bool, io: Io) returns (w: Vol, ok: bool)
    ensures w == Attempted(c, v, part, full, io) && ok == !Strikes(c, v, part, io)
  {
    var generation, p, was := v.generation, v.p, v.p;
    var incremented := IsDirty(c, v);
    if incremented { generation := generation + 1; }
    var pos := Position(c, v, part, io);
    var end := if part == c.dp then v.dpPos + io.extra else v.dpPos;
    if io.fault == SeekFails {
      if incremented { generation := generation - 1; }
      return Vol(p, generation, end, v.st), false;
    }
    if full {
      if p.self.part == c.dp { p := p.(back := p.self); }
    } else {
      p := p.(backInc := p.selfInc);
    }
    if io.fault == PositionFails {
      if full {
        if incremented { generation := generation - 1; }
        p := p.(back := was.back);
      } else {
        p := p.(backInc := was.backInc);
      }
      return Vol(p, generation, end, v.st), false;
    }
    p := if full then p.(self := Ptr(part, pos + 1)) else p.(selfInc := Ptr(part, pos + 1));
    var st := v.st;
    var failed := (part == c.ip && !st.ipEnd && io.fault == FlushFails) || io.fault == FilemarkFails;
    if !failed {
      st, failed := WriteXml(st, full, io);
    }
    if failed {
      if full {
        if incremented { generation := generation - 1; }
        p := p.(back := was.back, self := was.self);
      } else {
        p := p.(backInc := was.backInc, selfInc := was.selfInc);
      }
      return Vol(p, generation, end, st), false;
    }
    st := Finish(c, st, part, full);
    if full { p := p.(selfInc := NIL, backInc := NIL); }
    w := Vol(p, generation, if part == c.dp then end + 2 else end, st);
    ok := true;
  }

  class Index {
    const c: Config
    var v: Vol

    /** `ltfs_write_index` */
    method Write(part: nat, k: Kind, writePerm: bool, dev: Device) returns (ok: bool)
      modifies this
      ensures var o := WriteIndex(c, old(v), part, k, writePerm, dev); v == o.v && ok == o.ok
    {
      hide Attempted, Strikes;
      var kind := Resolve(c, v, k);
      if kind == Incremental && part != c.dp { kind := Full; }
      if NeedsDp(c, v, part, writePerm) {
        kind := Full;
        v := v.(st := Cleared(v.st));
        var inner;
        v, inner := Attempt(c, v, c.dp, true, dev.inner);
        if !inner && dev.innerStops { return false; }
      }
      v, ok := Attempt(c, v, part, kind == Full, dev.outer);
    }
  }
}
