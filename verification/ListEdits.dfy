/** What filtering, trimming and flushing a request list does to the bytes it holds. */
module ListEdits {
  import opened Bytes
  import opened Requests
  import opened Cells
  import opened WriteProofs
  import opened WriteTheorem
  import opened Interleave

  datatype Option<T> = None | Some(value: T)

  /** The request that decides what is held at x. */
  function Cover(l: seq<Req>, x: nat): (c: Option<Req>)
    ensures CellAt(l, x) == if c.Some? then CellOf(c.value, x) else Hole
    ensures c.Some? ==> c.value in l && c.value.Covers(x)
  {
    if l == [] then None else if l[0].Covers(x) then Some(l[0]) else Cover(l[1..], x)
  }

  lemma {:induction false} KeepMembers(l: seq<Req>, test: Req -> bool)
    ensures forall r :: r in Keep(l, test) <==> r in l && test(r)
  {
    if l != [] { KeepMembers(l[1..], test); }
  }

  lemma {:induction false} KeepBound(l: seq<Req>, test: Req -> bool, n: nat, cs: nat)
    requires Fits(l, cs) && forall i :: 0 <= i < |l| ==> n <= l[i].offset
    ensures Fits(Keep(l, test), cs) && forall i :: 0 <= i < |Keep(l, test)| ==> n <= Keep(l, test)[i].offset
  {
    if l != [] { KeepBound(l[1..], test, n, cs); }
  }

  lemma {:induction false} KeepOrdered(l: seq<Req>, test: Req -> bool, cs: nat)
    requires WellFormed(l, cs)
    ensures WellFormed(Keep(l, test), cs)
  {
    if l != [] {
      KeepOrdered(l[1..], test, cs);
      KeepBound(l[1..], test, l[0].End(), cs);
      var rest := Keep(l[1..], test);
      assert Keep(l, test) == if test(l[0]) then [l[0]] + rest else rest;
      hide Keep;
      if test(l[0]) { OrderedJoin([l[0]] + rest, 1); }
    }
  }

  lemma {:induction false} KeepCover(l: seq<Req>, test: Req -> bool, x: nat)
    requires Ordered(l)
    ensures Cover(Keep(l, test), x) == var c := Cover(l, x); if c.Some? && test(c.value) then c else None
  {
    if l != [] {
      KeepCover(l[1..], test, x);
      var rest := Keep(l[1..], test);
      assert ([l[0]] + rest)[1..] == rest && [] + rest == rest;
      if l[0].Covers(x) {
        forall j | 0 <= j < |l[1..]| ensures !l[1..][j].Covers(x) { assert l[0].End() <= l[j + 1].offset; }
        CellHole(l[1..], x);
      }
    }
  }

  lemma KeepDirty(l: seq<Req>, test: Req -> bool)
    requires AllDirty(l) || forall r: Req :: test(r) ==> !r.ip
    ensures AllDirty(Keep(l, test))
  {
    KeepMembers(l, test);
    forall i | 0 <= i < |Keep(l, test)| ensures !Keep(l, test)[i].ip { assert Keep(l, test)[i] in l; }
  }

  lemma TakenShape(l: seq<Req>, pick: set<nat>, cs: nat)
    requires WellFormed(l, cs) && AllDirty(l)
    ensures WellFormed(Left(l, pick), cs) && WellFormed(Taken(l, pick), cs)
    ensures AllDirty(Left(l, pick)) && AllDirty(Taken(l, pick))
  {
    var take, leave := (r: Req) => r.offset in pick, (r: Req) => r.offset !in pick;
    KeepOrdered(l, take, cs);
    KeepOrdered(l, leave, cs);
    KeepDirty(l, take);
    KeepDirty(l, leave);
  }

  lemma DropIpShape(l: seq<Req>, cs: nat)
    requires WellFormed(l, cs)
    ensures WellFormed(DropIp(l), cs) && AllDirty(DropIp(l))
  {
    KeepOrdered(l, (r: Req) => !r.ip, cs);
    KeepDirty(l, (r: Req) => !r.ip);
  }

  /** Dropping the replicas leaves exactly the dirty bytes. */
  lemma DropIpCells(l: seq<Req>, x: nat)
    requires Ordered(l)
    ensures CellAt(DropIp(l), x) == var c := CellAt(l, x); if c.Held? && c.ip then Hole else c
  {
    KeepCover(l, (r: Req) => !r.ip, x);
  }

  /** Every held byte is either taken or left. */
  lemma TakenCells(l: seq<Req>, pick: set<nat>, x: nat)
    requires Ordered(l)
    ensures CellAt(l, x) == Or(CellAt(Left(l, pick), x), CellAt(Taken(l, pick), x))
  {
    KeepCover(l, (r: Req) => r.offset in pick, x);
    KeepCover(l, (r: Req) => r.offset !in pick, x);
  }

  lemma {:induction false} TrimToKeeps(l: seq<Req>, len: nat, cs: nat)
    requires WellFormed(l, cs)
    ensures WellFormed(TrimTo(l, len), cs)
    ensures AllDirty(l) ==> AllDirty(TrimTo(l, len))
    decreases |l|
  {
    if l != [] && l[|l| - 1].offset >= len { TrimToKeeps(l[..|l| - 1], len, cs); }
  }

  lemma {:induction false} TrimToCells(l: seq<Req>, len: nat, x: nat)
    requires Ordered(l)
    ensures CellAt(TrimTo(l, len), x) == if x < len then CellAt(l, x) else Hole
    decreases |l|
  {
    if l != [] {
      var pre, last := l[..|l| - 1], l[|l| - 1];
      CellCutAt(l, |l| - 1, x);
      assert l[|l|..] == [];
      if last.offset >= len {
        TrimToCells(pre, len, x);
      } else {
        if len <= x { LastHole(l, x); }
        if last.End() > len {
          CellConcat(pre, [last.(data := last.data[..len - last.offset])], x);
        }
      }
    }
  }

  /** Nothing is held past the end of the last request, and its last byte is. */
  lemma HeldBelow(l: seq<Req>, cs: nat)
    requires WellFormed(l, cs)
    ensures Below(l, LastEnd(l))
    ensures l != [] ==> CellAt(l, LastEnd(l) - 1).Held?
  {
    forall x: nat | CellAt(l, x).Held? ensures x < LastEnd(l) {
      if LastEnd(l) <= x {
        forall j | 0 <= j < |l| ensures !l[j].Covers(x) { assert j < |l| - 1 ==> l[j].End() <= l[|l| - 1].offset; }
        CellHole(l, x);
      }
    }
    if l != [] {
      LastHole(l, LastEnd(l) - 1);
      CellCutAt(l, |l| - 1, LastEnd(l) - 1);
    }
  }

  lemma {:induction false} DirtyHolds(l: seq<Req>, x: nat)
    requires AllDirty(l)
    ensures CellAt(l, x).Held? ==> !CellAt(l, x).ip
  {
    if l != [] { DirtyHolds(l[1..], x); }
  }

  lemma DirtyIf(l: seq<Req>, cs: nat)
    requires WellFormed(l, cs) && forall x: nat :: CellAt(l, x).Held? ==> !CellAt(l, x).ip
    ensures AllDirty(l)
  {
    forall i | 0 <= i < |l| ensures !l[i].ip {
      OnlyHere(l, i, l[i].offset);
      CellCutAt(l, i, l[i].offset);
      assert CellAt(l, l[i].offset) == Held(l[i].data[0], l[i].ip);
    }
  }

  // ----- flushing

  /** The list over the tape. */
  function Over(l: seq<Req>, raw: seq<byte>, x: nat): byte {
    if CellAt(l, x).Held? then CellAt(l, x).b else At(raw, x)
  }

  predicate SettledAt(l: seq<Req>, raw: seq<byte>, l1: seq<Req>, raw1: seq<byte>, x: nat) {
    && Over(l1, raw1, x) == Over(l, raw, x)
    && (CellAt(l1, x).Held? ==> CellAt(l, x).Held?)
    && (CellAt(l, x).Held? ==> CellAt(l1, x).Held? || x < |raw1|)
  }

  /** Moving bytes from the list to the tape changes nothing that can be read. */
  ghost predicate Settled(cs: nat, l: seq<Req>, raw: seq<byte>, l1: seq<Req>, raw1: seq<byte>) {
    && WellFormed(l1, cs) && Replica(l1, raw1)
    && |raw| <= |raw1| && (|raw1| == |raw| || CellAt(l, |raw1| - 1).Held?)
    && forall x: nat :: SettledAt(l, raw, l1, raw1, x)
  }

  lemma SettledTrans(cs: nat, l: seq<Req>, raw: seq<byte>, l1: seq<Req>, raw1: seq<byte>, l2: seq<Req>, raw2: seq<byte>)
    requires Settled(cs, l, raw, l1, raw1) && Settled(cs, l1, raw1, l2, raw2)
    ensures Settled(cs, l, raw, l2, raw2)
  {
    assert |raw2| == |raw1| || SettledAt(l, raw, l1, raw1, |raw2| - 1);
    forall x: nat ensures SettledAt(l, raw, l2, raw2, x) {
      assert SettledAt(l, raw, l1, raw1, x) && SettledAt(l1, raw1, l2, raw2, x);
    }
  }

  lemma MergeAtSettles(cs: nat, l: seq<Req>, i: nat, raw: seq<byte>)
    requires WellFormed(l, cs) && i < |l| && Replica(l, raw)
    ensures Settled(cs, l, raw, MergeAt(cs, l, i).0, raw)
  {
    var l1 := MergeAt(cs, l, i).0;
    if 0 < i {
      MergeOrdered(cs, l, i);
      assert l[i - 1].End() <= l[i].offset;
      forall x: nat ensures CellAt(l1, x) == CellAt(l, x) { CellMerge(cs, l, i, x); }
    }
    hide MergeAt;
    assert forall x: nat :: CellAt(l1, x) == CellAt(l, x);
  }

  /** The bytes of request i in an ordered list. */
  lemma OnlyHere(l: seq<Req>, i: nat, x: nat)
    requires Ordered(l) && i < |l|
    ensures l[i].Covers(x) ==> CellAt(l[..i], x) == Hole && CellAt(l[i + 1..], x) == Hole
  {
    if l[i].Covers(x) {
      var pre := l[..i];
      forall j | 0 <= j < |pre| ensures !pre[j].Covers(x) { assert l[j].End() <= l[i].offset; }
      CellHole(pre, x);
      After(l, i, x);
    }
  }

  lemma ReplicateSettles(cs: nat, l: seq<Req>, i: nat, raw: seq<byte>)
    requires WellFormed(l, cs) && i < |l| && Replica(l, raw)
    ensures Settled(cs, l, raw, l[i := l[i].(ip := true)], FlatWrite(raw, l[i].offset, l[i].data))
  {
    var l1, raw1 := l[i := l[i].(ip := true)], FlatWrite(raw, l[i].offset, l[i].data);
    forall x: nat ensures SettledAt(l, raw, l1, raw1, x) &&
                          (CellAt(l1, x).Held? && CellAt(l1, x).ip ==> x < |raw1| && raw1[x] == CellAt(l1, x).b)
    {
      CellSet(l, i, l[i].(ip := true), x);
      CellCutAt(l, i, x);
      OnlyHere(l, i, x);
    }
    OnlyHere(l, i, l[i].End() - 1);
    CellCutAt(l, i, l[i].End() - 1);
  }

  lemma WriteOutSettles(cs: nat, l: seq<Req>, i: nat, raw: seq<byte>)
    requires WellFormed(l, cs) && i < |l| && Replica(l, raw)
    ensures Settled(cs, l, raw, Removed(l, i), FlatWrite(raw, l[i].offset, l[i].data))
  {
    var l1, raw1 := Removed(l, i), FlatWrite(raw, l[i].offset, l[i].data);
    forall x: nat ensures SettledAt(l, raw, l1, raw1, x) &&
                          (CellAt(l1, x).Held? && CellAt(l1, x).ip ==> x < |raw1| && raw1[x] == CellAt(l1, x).b)
    {
      CellRemove(l, i, x);
      CellCutAt(l, i, x);
      OnlyHere(l, i, x);
    }
    OnlyHere(l, i, l[i].End() - 1);
    CellCutAt(l, i, l[i].End() - 1);
    hide Removed;
    assert Ordered(l1);
  }

  lemma FlushOneSettles(cs: nat, l: seq<Req>, i: nat, raw: seq<byte>, writeIp: bool, pick: set<nat>)
    requires WellFormed(l, cs) && i < |l| && Replica(l, raw)
    ensures var (l1, _, raw1) := FlushOne(cs, l, i, raw, writeIp, pick); Settled(cs, l, raw, l1, raw1)
    ensures !writeIp && AllDirty(l) ==> AllDirty(FlushOne(cs, l, i, raw, writeIp, pick).0)
  {
    if l[i].ip {
      MergeAtSettles(cs, l, i, raw);
    } else if l[i].offset in pick {
      var raw1 := FlatWrite(raw, l[i].offset, l[i].data);
      if writeIp {
        var l1 := l[i := l[i].(ip := true)];
        ReplicateSettles(cs, l, i, raw);
        MergeAtSettles(cs, l1, i, raw1);
        SettledTrans(cs, l, raw, l1, raw1, MergeAt(cs, l1, i).0, raw1);
      } else {
        WriteOutSettles(cs, l, i, raw);
      }
    }
  }

  lemma {:induction false} FlushSettles(cs: nat, l: seq<Req>, i: nat, raw: seq<byte>, writeIp: bool, pick: set<nat>)
    requires WellFormed(l, cs) && i <= |l| && Replica(l, raw)
    ensures var (l1, raw1) := FlushFrom(cs, l, i, raw, writeIp, pick); Settled(cs, l, raw, l1, raw1)
    ensures !writeIp && AllDirty(l) ==> AllDirty(FlushFrom(cs, l, i, raw, writeIp, pick).0)
    decreases |l| - i
  {
    if i < |l| {
      var (l1, i1, raw1) := FlushOne(cs, l, i, raw, writeIp, pick);
      FlushOneSettles(cs, l, i, raw, writeIp, pick);
      hide FlushOne, AllDirty;
      FlushSettles(cs, l1, i1, raw1, writeIp, pick);
      var (l2, raw2) := FlushFrom(cs, l1, i1, raw1, writeIp, pick);
      SettledTrans(cs, l, raw, l1, raw1, l2, raw2);
    }
  }
}
