/**
 The side list of index-partition extents (`_unified_update_alt_extentlist`,
 `_unified_clear_alt_extentlist`): entries may overlap, and pushing the list through add_extent in order
 lets later entries win.
 */
module AltExtents {
  import opened Bytes
  import opened Extents

  /** What the list says about offset x once it is pushed in order: the last entry that covers it. */
  function Override(bs: nat, l: seq<Extent>, x: nat): Phys
    requires 0 < bs
  {
    if l == [] then Unmapped
    else
      var r := Override(bs, l[1..], x);
      if r.Phys? then r else if l[0].Covers(x) then Where(bs, l[0], x) else Unmapped
  }

  /** The tape position just behind an extent's last byte. */
  function TapeEnd(bs: nat, e: Extent): nat { e.block * bs + e.byteoffset + e.bytecount }

  predicate Each(bs: nat, ip: nat, top: nat, e: Extent) { e.part == ip && 0 < e.bytecount && TapeEnd(bs, e) <= top }

  /** a before b: sorted by start, and if b reaches past the end of a then a does not end at the end of
      the tape, so that nothing can be joined to it any more. */
  predicate Pair(bs: nat, top: nat, a: Extent, b: Extent) {
    a.fileoffset <= b.fileoffset && (b.fileoffset < a.End() < b.End() ==> TapeEnd(bs, a) < top)
  }

  ghost predicate AltOk(bs: nat, ip: nat, top: nat, l: seq<Extent>) {
    && (forall e :: e in l ==> Each(bs, ip, top, e))
    && (forall i, j :: 0 <= i < j < |l| ==> Pair(bs, top, l[i], l[j]))
  }

  /** n has just been written behind everything else on the index partition. */
  predicate Fresh(bs: nat, ip: nat, top: nat, top1: nat, n: Extent) {
    Each(bs, ip, top1, n) && n.byteoffset == 0 && top <= n.block * bs
  }

  predicate Joins(bs: nat, e: Extent, n: Extent)
    requires 0 < bs
  {
    && e.End() == n.fileoffset && n.byteoffset == 0 && Rem(e.byteoffset + e.bytecount, bs) == 0
    && e.block + Quot(e.byteoffset + e.bytecount, bs) == n.block
  }

  lemma JoinsEnds(bs: nat, e: Extent, n: Extent)
    requires 0 < bs && Joins(bs, e, n)
    ensures TapeEnd(bs, e) == n.block * bs && TapeEnd(bs, e.(bytecount := e.bytecount + n.bytecount)) == TapeEnd(bs, n)
  {
    var m := e.byteoffset + e.bytecount;
    assert m == (m / bs) * bs;
    assert (e.block + m / bs) * bs == e.block * bs + (m / bs) * bs;
  }

  lemma TrimmedEnds(bs: nat, e: Extent, cut: nat)
    requires 0 < bs && cut <= e.bytecount
    ensures TapeEnd(bs, Trimmed(bs, e, cut)) == TapeEnd(bs, e)
  {
    var m := cut + e.byteoffset;
    assert m == (m / bs) * bs + m % bs;
    assert (e.block + m / bs) * bs == e.block * bs + (m / bs) * bs;
  }

  /** What becomes of an entry. */
  function Piece(bs: nat, e: Extent, n: Extent): seq<Extent>
    requires 0 < bs
  {
    if e.End() < n.fileoffset then [e]
    else if e.End() == n.fileoffset then
      if Joins(bs, e, n) then [e.(bytecount := e.bytecount + n.bytecount)] else [e]
    else if e.fileoffset < n.fileoffset then
      if e.End() <= n.End() then [e.(bytecount := n.fileoffset - e.fileoffset)] else [e]
    else if e.End() <= n.End() then []
    else if e.fileoffset < n.End() then [Trimmed(bs, e, n.End() - e.fileoffset)]
    else [e]
  }

  function Updated(bs: nat, l: seq<Extent>, n: Extent, used: bool): seq<Extent>
    requires 0 < bs
  {
    if l == [] then if used then [] else [n]
    else
      var ins := !used && n.fileoffset <= l[0].fileoffset;
      (if ins then [n] else []) + Piece(bs, l[0], n) + Updated(bs, l[1..], n, used || ins || Joins(bs, l[0], n))
  }

  // ----- the invariant

  lemma PieceEach(bs: nat, ip: nat, top: nat, top1: nat, e: Extent, n: Extent)
    requires 0 < bs && Each(bs, ip, top, e) && Fresh(bs, ip, top, top1, n)
    ensures forall p :: p in Piece(bs, e, n) ==> Each(bs, ip, top1, p) && (Joins(bs, e, n) || TapeEnd(bs, p) <= top)
  {
    if Joins(bs, e, n) { JoinsEnds(bs, e, n); }
    if n.fileoffset <= e.fileoffset < n.End() < e.End() { TrimmedEnds(bs, e, n.End() - e.fileoffset); }
  }

  lemma PiecePair(bs: nat, ip: nat, top: nat, top1: nat, a: Extent, b: Extent, n: Extent)
    requires 0 < bs && Each(bs, ip, top, a) && Each(bs, ip, top, b) && Fresh(bs, ip, top, top1, n) &&
             Pair(bs, top, a, b)
    ensures forall p, q :: p in Piece(bs, a, n) && q in Piece(bs, b, n) ==> Pair(bs, top1, p, q)
  {
    PieceEach(bs, ip, top, top1, a, n);
    if Joins(bs, a, n) { JoinsEnds(bs, a, n); }
    hide TapeEnd;
    forall p, q | p in Piece(bs, a, n) && q in Piece(bs, b, n) ensures Pair(bs, top1, p, q) { }
  }

  ghost predicate From(bs: nat, l: seq<Extent>, n: Extent, r: Extent)
    requires 0 < bs
  {
    exists e :: e in l && r in Piece(bs, e, n)
  }

  lemma {:induction false} UpdatedMembers(bs: nat, l: seq<Extent>, n: Extent, used: bool)
    requires 0 < bs
    ensures forall r :: r in Updated(bs, l, n, used) ==> (r == n && !used) || From(bs, l, n, r)
  {
    hide Piece;
    if l != [] {
      var ins := !used && n.fileoffset <= l[0].fileoffset;
      var rest := Updated(bs, l[1..], n, used || ins || Joins(bs, l[0], n));
      UpdatedMembers(bs, l[1..], n, used || ins || Joins(bs, l[0], n));
      forall r | r in Updated(bs, l, n, used) ensures (r == n && !used) || From(bs, l, n, r) {
        if r in Piece(bs, l[0], n) {
        } else if r in rest && !(r == n && !used) {
          var e :| e in l[1..] && r in Piece(bs, e, n);
          assert e in l;
        }
      }
    }
  }

  ghost predicate Before(bs: nat, top: nat, a: seq<Extent>, b: seq<Extent>) {
    forall p, q :: p in a && q in b ==> Pair(bs, top, p, q)
  }

  lemma JoinOk(bs: nat, ip: nat, top: nat, a: seq<Extent>, b: seq<Extent>)
    requires AltOk(bs, ip, top, a) && AltOk(bs, ip, top, b) && Before(bs, top, a, b)
    ensures AltOk(bs, ip, top, a + b)
  {
    var l := a + b;
    forall i, j | 0 <= i < j < |l| ensures Pair(bs, top, l[i], l[j]) {
      if i < |a| <= j { assert l[i] in a && l[j] in b; }
    }
  }

  lemma TailOk(bs: nat, ip: nat, top: nat, l: seq<Extent>)
    requires l != [] && AltOk(bs, ip, top, l)
    ensures AltOk(bs, ip, top, l[1..]) && Each(bs, ip, top, l[0]) && forall e :: e in l[1..] ==> Pair(bs, top, l[0], e)
  {
    forall e | e in l[1..] ensures Pair(bs, top, l[0], e) {
      var k :| 0 <= k < |l[1..]| && l[1..][k] == e;
      assert l[k + 1] == e;
    }
  }

  /** The new extent and what is left of an entry that starts at or behind it. */
  lemma NewPair(bs: nat, ip: nat, top: nat, top1: nat, e: Extent, n: Extent)
    requires 0 < bs && Each(bs, ip, top, e) && Fresh(bs, ip, top, top1, n) &&
             (n.fileoffset <= e.fileoffset || !Joins(bs, e, n))
    ensures n.fileoffset <= e.fileoffset ==> forall p :: p in Piece(bs, e, n) ==> Pair(bs, top1, n, p)
    ensures e.fileoffset < n.fileoffset ==> forall p :: p in Piece(bs, e, n) ==> Pair(bs, top1, p, n)
  {
    PieceEach(bs, ip, top, top1, e, n);
    hide Joins;
  }

  lemma PieceOk(bs: nat, ip: nat, top: nat, top1: nat, e: Extent, n: Extent)
    requires 0 < bs && Each(bs, ip, top, e) && Fresh(bs, ip, top, top1, n)
    ensures AltOk(bs, ip, top1, Piece(bs, e, n))
  {
    PieceEach(bs, ip, top, top1, e, n);
  }

  /** What is left of the first entry goes before everything made of the others. */
  lemma PieceBefore(bs: nat, ip: nat, top: nat, top1: nat, l: seq<Extent>, n: Extent, used: bool)
    requires 0 < bs && l != [] && AltOk(bs, ip, top, l) && Fresh(bs, ip, top, top1, n)
    requires !used ==> l[0].fileoffset < n.fileoffset && !Joins(bs, l[0], n)
    ensures Before(bs, top1, Piece(bs, l[0], n), Updated(bs, l[1..], n, used))
  {
    TailOk(bs, ip, top, l);
    UpdatedMembers(bs, l[1..], n, used);
    hide Updated, Pair, Each, Fresh, Joins, Piece;
    var a := Piece(bs, l[0], n);
    forall p, q | p in a && q in Updated(bs, l[1..], n, used) ensures Pair(bs, top1, p, q) {
      if q == n && !used {
        NewPair(bs, ip, top, top1, l[0], n);
      } else {
        var e :| e in l[1..] && q in Piece(bs, e, n);
        PiecePair(bs, ip, top, top1, l[0], e, n);
      }
    }
  }

  lemma NewBefore(bs: nat, ip: nat, top: nat, top1: nat, l: seq<Extent>, n: Extent)
    requires 0 < bs && AltOk(bs, ip, top, l) && Fresh(bs, ip, top, top1, n) &&
             forall e :: e in l ==> n.fileoffset <= e.fileoffset
    ensures Before(bs, top1, [n], Updated(bs, l, n, true))
  {
    UpdatedMembers(bs, l, n, true);
    hide Updated, Pair, Fresh, Joins, Piece;
    forall p, q | p in [n] && q in Updated(bs, l, n, true) ensures Pair(bs, top1, p, q) {
      var e :| e in l && q in Piece(bs, e, n);
      NewPair(bs, ip, top, top1, e, n);
    }
  }

  /** The list stays sorted, and nothing behind an entry that can still be joined reaches past its end. */
  lemma {:induction false} UpdatedOk(bs: nat, ip: nat, top: nat, top1: nat, l: seq<Extent>, n: Extent, used: bool)
    requires 0 < bs && AltOk(bs, ip, top, l) && Fresh(bs, ip, top, top1, n)
    ensures AltOk(bs, ip, top1, Updated(bs, l, n, used))
    decreases |l|, !used
  {
    assert Each(bs, ip, top1, n);
    hide Fresh, Piece, Joins;
    if l == [] {
    } else if !used && n.fileoffset <= l[0].fileoffset {
      UpdatedOk(bs, ip, top, top1, l, n, true);
      TailOk(bs, ip, top, l);
      NewBefore(bs, ip, top, top1, l, n);
      JoinOk(bs, ip, top1, [n], Updated(bs, l, n, true));
      assert Updated(bs, l, n, false) == [n] + Updated(bs, l, n, true);
    } else {
      var u := used || Joins(bs, l[0], n);
      TailOk(bs, ip, top, l);
      UpdatedOk(bs, ip, top, top1, l[1..], n, u);
      PieceOk(bs, ip, top, top1, l[0], n);
      PieceBefore(bs, ip, top, top1, l, n, u);
      JoinOk(bs, ip, top1, Piece(bs, l[0], n), Updated(bs, l[1..], n, u));
      assert Updated(bs, l, n, used) == Piece(bs, l[0], n) + Updated(bs, l[1..], n, u);
    }
  }

  // ----- newest wins

  lemma {:induction false} OverrideConcat(bs: nat, a: seq<Extent>, b: seq<Extent>, x: nat)
    requires 0 < bs
    ensures Override(bs, a + b, x) == if Override(bs, b, x).Phys? then Override(bs, b, x) else Override(bs, a, x)
  {
    if a == [] {
      assert a + b == b;
    } else {
      assert (a + b)[1..] == a[1..] + b;
      OverrideConcat(bs, a[1..], b, x);
    }
  }

  /** No entry that starts before n reaches into it. */
  ghost predicate Clear(l: seq<Extent>, n: Extent) {
    forall e :: e in l ==> n.fileoffset <= e.fileoffset || e.End() <= n.fileoffset
  }

  lemma PieceAt(bs: nat, ip: nat, e: Extent, n: Extent, x: nat)
    requires 0 < bs && e.part == n.part == ip && 0 < e.bytecount
    ensures !n.Covers(x) ==> Override(bs, Piece(bs, e, n), x) == Override(bs, [e], x)
    ensures n.Covers(x) && (n.fileoffset <= e.fileoffset || e.End() <= n.fileoffset) ==>
              Override(bs, Piece(bs, e, n), x) == if Joins(bs, e, n) then Where(bs, n, x) else Unmapped
  {
    if Joins(bs, e, n) && n.fileoffset <= x { ContinuesWhere(bs, e, n, x); }
    if n.fileoffset <= e.fileoffset < n.End() < e.End() && n.End() <= x {
      TrimmedWhere(bs, e, n.End() - e.fileoffset, x);
    }
  }

  /** Once n is in the list or joined to an entry, nothing behind it covers n's bytes with anything else. */
  lemma {:induction false} UpdatedRest(bs: nat, ip: nat, l: seq<Extent>, n: Extent, x: nat)
    requires 0 < bs && n.part == ip && n.Covers(x) && (forall e :: e in l ==> e.part == ip && 0 < e.bytecount) &&
             Clear(l, n)
    ensures var o := Override(bs, Updated(bs, l, n, true), x); o.Phys? ==> o == Where(bs, n, x)
  {
    if l != [] {
      UpdatedRest(bs, ip, l[1..], n, x);
      hide Piece, Joins;
      assert l[0] in l;
      PieceAt(bs, ip, l[0], n, x);
      OverrideConcat(bs, Piece(bs, l[0], n), Updated(bs, l[1..], n, true), x);
      assert Updated(bs, l, n, true) == Piece(bs, l[0], n) + Updated(bs, l[1..], n, true);
    }
  }

  /** Nothing but n's bytes changes. */
  lemma {:induction false} UpdatedOther(bs: nat, ip: nat, l: seq<Extent>, n: Extent, used: bool, x: nat)
    requires 0 < bs && n.part == ip && !n.Covers(x) && (forall e :: e in l ==> e.part == ip && 0 < e.bytecount)
    ensures Override(bs, Updated(bs, l, n, used), x) == Override(bs, l, x)
    decreases |l|, !used
  {
    hide Piece, Joins;
    if l == [] {
    } else if !used && n.fileoffset <= l[0].fileoffset {
      UpdatedOther(bs, ip, l, n, true, x);
      OverrideConcat(bs, [n], Updated(bs, l, n, true), x);
      assert Updated(bs, l, n, false) == [n] + Updated(bs, l, n, true);
    } else {
      var u := used || Joins(bs, l[0], n);
      UpdatedOther(bs, ip, l[1..], n, u, x);
      assert l[0] in l;
      PieceAt(bs, ip, l[0], n, x);
      OverrideConcat(bs, Piece(bs, l[0], n), Updated(bs, l[1..], n, u), x);
      OverrideConcat(bs, [l[0]], l[1..], x);
      assert Updated(bs, l, n, used) == Piece(bs, l[0], n) + Updated(bs, l[1..], n, u);
      assert l == [l[0]] + l[1..];
    }
  }

  /** An entry n is joined to ends at the end of the tape, so no later entry reaches past it. */
  lemma JoinedClear(bs: nat, ip: nat, top: nat, top1: nat, l: seq<Extent>, n: Extent)
    requires 0 < bs && l != [] && AltOk(bs, ip, top, l) && Fresh(bs, ip, top, top1, n) && Joins(bs, l[0], n)
    ensures Clear(l[1..], n)
  {
    JoinsEnds(bs, l[0], n);
    TailOk(bs, ip, top, l);
  }

  lemma {:induction false} UpdatedNew(bs: nat, ip: nat, top: nat, top1: nat, l: seq<Extent>, n: Extent, x: nat)
    requires 0 < bs && AltOk(bs, ip, top, l) && Fresh(bs, ip, top, top1, n) && n.Covers(x)
    ensures Override(bs, Updated(bs, l, n, false), x) == Where(bs, n, x)
  {
    if l == [] {
    } else {
      TailOk(bs, ip, top, l);
      if n.fileoffset <= l[0].fileoffset {
        hide Piece, Joins;
        UpdatedRest(bs, ip, l, n, x);
        OverrideConcat(bs, [n], Updated(bs, l, n, true), x);
        assert Updated(bs, l, n, false) == [n] + Updated(bs, l, n, true);
      } else if Joins(bs, l[0], n) {
        JoinedClear(bs, ip, top, top1, l, n);
        UpdatedRest(bs, ip, l[1..], n, x);
        PieceAt(bs, ip, l[0], n, x);
        hide Piece, Joins;
        OverrideConcat(bs, Piece(bs, l[0], n), Updated(bs, l[1..], n, true), x);
        assert Updated(bs, l, n, false) == Piece(bs, l[0], n) + Updated(bs, l[1..], n, true);
      } else {
        hide Piece, Joins;
        UpdatedNew(bs, ip, top, top1, l[1..], n, x);
        OverrideConcat(bs, Piece(bs, l[0], n), Updated(bs, l[1..], n, false), x);
        assert Updated(bs, l, n, false) == Piece(bs, l[0], n) + Updated(bs, l[1..], n, false);
      }
    }
  }

  /** Entries that lie past the end of n stay as they are. */
  lemma {:induction false} UpdatedPast(bs: nat, l: seq<Extent>, n: Extent)
    requires 0 < bs && 0 < n.bytecount && forall e :: e in l ==> n.End() <= e.fileoffset && 0 < e.bytecount
    ensures Updated(bs, l, n, true) == l
  {
    if l != [] {
      UpdatedPast(bs, l[1..], n);
      assert l[0] in l;
      assert Updated(bs, l, n, true) == [l[0]] + l[1..];
    }
  }

  lemma PastFrom(bs: nat, ip: nat, top: nat, l: seq<Extent>, i: nat, n: Extent)
    requires 0 < bs && 0 < n.bytecount && AltOk(bs, ip, top, l) && i < |l| && n.End() <= l[i].fileoffset
    ensures Updated(bs, l[i..], n, true) == l[i..]
  {
    forall e | e in l[i..] ensures n.End() <= e.fileoffset && 0 < e.bytecount {
      var k :| 0 <= k < |l[i..]| && l[i..][k] == e;
      assert l[i + k] == e && e in l && (k > 0 ==> Pair(bs, top, l[i], l[i + k]));
    }
    UpdatedPast(bs, l[i..], n);
  }

  /** `_unified_update_alt_extentlist`: the bytes of n now come from n, all others from where they came
      before, although entries around n are left overlapping instead of being split. */
  method UpdateAltExtentList(bs: nat, l: seq<Extent>, n: Extent, ghost ip: nat, ghost top: nat, ghost top1: nat)
    returns (r: seq<Extent>)
    requires 0 < bs && AltOk(bs, ip, top, l) && Fresh(bs, ip, top, top1, n)
    ensures r == Updated(bs, l, n, false) && AltOk(bs, ip, top1, r)
    ensures forall x: nat :: Override(bs, r, x) == if n.Covers(x) then Where(bs, n, x) else Override(bs, l, x)
  {
    r := EditList(bs, l, n, ip, top);
    UpdatedOk(bs, ip, top, top1, l, n, false);
    forall x: nat ensures Override(bs, r, x) == if n.Covers(x) then Where(bs, n, x) else Override(bs, l, x) {
      if n.Covers(x) { UpdatedNew(bs, ip, top, top1, l, n, x); } else { UpdatedOther(bs, ip, l, n, false, x); }
    }
  }

  /** What the loop body does to one entry, whether n's bytes were added to it, and whether it lies past
      the end of n. */
  method EditEntry(bs: nat, e: Extent, n: Extent) returns (piece: seq<Extent>, joined: bool, past: bool)
    requires 0 < bs && 0 < e.bytecount && 0 < n.bytecount
    ensures piece == Piece(bs, e, n) && joined == Joins(bs, e, n) && past == (n.End() <= e.fileoffset)
  {
    joined, past := false, false;
    if e.End() < n.fileoffset {
      piece := [e];
    } else if e.End() == n.fileoffset {
      piece := [e];
      var end := e.byteoffset + e.bytecount;
      if n.byteoffset == 0 && Rem(end, bs) == 0 && e.block + Quot(end, bs) == n.block {
        piece := [e.(bytecount := e.bytecount + n.bytecount)];
        joined := true;
      }
    } else if e.fileoffset < n.fileoffset {
      if e.End() <= n.End() {
        piece := [e.(bytecount := n.fileoffset - e.fileoffset)];
      } else {
        piece := [e];
      }
    } else if e.End() <= n.End() {
      piece := [];
    } else if e.fileoffset < n.End() {
      piece := [Trimmed(bs, e, n.End() - e.fileoffset)];
    } else {
      piece, past := [e], true;
    }
  }

  /** One entry of the list, seen from the list that is being built. */
  lemma UpdatedStep(bs: nat, l: seq<Extent>, i: nat, n: Extent, used: bool, r: seq<Extent>)
    requires 0 < bs && i < |l|
    ensures var first := if !used && n.fileoffset <= l[i].fileoffset then [n] else [];
            var u := used || first != [];
            && r + Updated(bs, l[i..], n, used) == r + first + Updated(bs, l[i..], n, u)
            && r + first + Updated(bs, l[i..], n, u) ==
               r + first + Piece(bs, l[i], n) + Updated(bs, l[i + 1..], n, u || Joins(bs, l[i], n))
  {
    hide Piece, Joins;
    var first := if !used && n.fileoffset <= l[i].fileoffset then [n] else [];
    var u := used || first != [];
    var rest := Updated(bs, l[i + 1..], n, u || Joins(bs, l[i], n));
    assert l[i..][1..] == l[i + 1..] && l[i..][0] == l[i];
    assert Updated(bs, l[i..], n, used) == first + Piece(bs, l[i], n) + rest;
    assert Updated(bs, l[i..], n, u) == [] + Piece(bs, l[i], n) + rest == Piece(bs, l[i], n) + rest;
    assert r + (first + Piece(bs, l[i], n) + rest) == r + first + Piece(bs, l[i], n) + rest;
    assert r + first + (Piece(bs, l[i], n) + rest) == r + first + Piece(bs, l[i], n) + rest;
  }

  method EditList(bs: nat, l: seq<Extent>, n: Extent, ghost ip: nat, ghost top: nat) returns (r: seq<Extent>)
    requires 0 < bs && AltOk(bs, ip, top, l) && 0 < n.bytecount
    ensures r == Updated(bs, l, n, false)
  {
    if l == [] { return [n]; }
    forall i | 0 <= i < |l| ensures 0 < l[i].bytecount { assert l[i] in l; }
    r := [];
    var used := false;
    assert l[0..] == l;
    assert [] + Updated(bs, l, n, false) == Updated(bs, l, n, false);
    hide Piece, Joins, AltOk, Updated;
    for i := 0 to |l|
      invariant r + Updated(bs, l[i..], n, used) == Updated(bs, l, n, false)
    {
      UpdatedStep(bs, l, i, n, used, r);
      var first := if !used && n.fileoffset <= l[i].fileoffset then [n] else [];
      used := used || first != [];
      var piece, joined, past := EditEntry(bs, l[i], n);
      if past {
        PastFrom(bs, ip, top, l, i, n);
        return r + first + l[i..];
      }
      r := r + first + piece;
      used := used || joined;
    }
    assert l[|l|..] == [];
    UpdatedEnd(bs, n, used);
    if !used { r := r + [n]; }
  }

  lemma UpdatedEnd(bs: nat, n: Extent, used: bool)
    requires 0 < bs
    ensures Updated(bs, [], n, used) == if used then [] else [n]
  {
  }

  // ----- truncation and hand-over to libltfs

  /** The alt_extentlist loop of `unified_truncate`. */
  function Cut(l: seq<Extent>, len: nat): seq<Extent> {
    if l == [] then [] else CutOne(l[0], len) + Cut(l[1..], len)
  }

  function CutOne(e: Extent, len: nat): seq<Extent> {
    if e.fileoffset >= len then []
    else if e.End() > len then [e.(bytecount := len - e.fileoffset)]
    else [e]
  }

  lemma CutStep(l: seq<Extent>, len: nat, i: nat, r: seq<Extent>)
    requires i < |l|
    ensures r + Cut(l[i..], len) == r + CutOne(l[i], len) + Cut(l[i + 1..], len)
  {
    hide CutOne;
    assert l[i..][0] == l[i] && l[i..][1..] == l[i + 1..];
  }

  method CutList(l: seq<Extent>, len: nat) returns (r: seq<Extent>)
    ensures r == Cut(l, len)
  {
    r := [];
    assert l[0..] == l;
    assert l[|l|..] == [];
    for i := 0 to |l|
      invariant r + Cut(l[i..], len) == Cut(l, len)
    {
      hide Cut;
      CutStep(l, len, i, r);
      if l[i].fileoffset >= len {
      } else if l[i].End() > len {
        r := r + [l[i].(bytecount := len - l[i].fileoffset)];
      } else {
        r := r + [l[i]];
      }
    }
  }

  lemma {:induction false} CutMembers(l: seq<Extent>, len: nat)
    ensures forall r :: r in Cut(l, len) ==>
              exists e :: e in l && e.fileoffset < len && r == e.(bytecount := Min(e.bytecount, len - e.fileoffset))
  {
    if l != [] {
      CutMembers(l[1..], len);
      forall r | r in Cut(l, len)
        ensures exists e :: e in l && e.fileoffset < len && r == e.(bytecount := Min(e.bytecount, len - e.fileoffset))
      {
        if r in Cut(l[1..], len) {
          var e :| e in l[1..] && e.fileoffset < len && r == e.(bytecount := Min(e.bytecount, len - e.fileoffset));
          assert e in l;
        } else {
          assert l[0] in l;
        }
      }
    }
  }

  lemma {:induction false} CutOk(bs: nat, ip: nat, top: nat, l: seq<Extent>, len: nat)
    requires AltOk(bs, ip, top, l)
    ensures AltOk(bs, ip, top, Cut(l, len))
  {
    if l != [] {
      TailOk(bs, ip, top, l);
      CutOk(bs, ip, top, l[1..], len);
      CutMembers(l[1..], len);
      var a := CutOne(l[0], len);
      forall p, q | p in a && q in Cut(l[1..], len) ensures Pair(bs, top, p, q) {
        var e :| e in l[1..] && e.fileoffset < len && q == e.(bytecount := Min(e.bytecount, len - e.fileoffset));
        assert Pair(bs, top, l[0], e);
      }
      JoinOk(bs, ip, top, a, Cut(l[1..], len));
    }
  }

  lemma {:induction false} CutOverride(bs: nat, l: seq<Extent>, len: nat, x: nat)
    requires 0 < bs
    ensures Override(bs, Cut(l, len), x) == if x < len then Override(bs, l, x) else Unmapped
  {
    if l != [] {
      CutOverride(bs, l[1..], len, x);
      var a := CutOne(l[0], len);
      OverrideConcat(bs, a, Cut(l[1..], len), x);
    }
  }

  /** What libltfs makes of an extent: it is refused outright (a partition is read-only, or there is no memory
      for the copy), or taken unless an entry has to be split and there is no memory for that. */
  datatype Push = Refused | Tried(canSplit: bool)

  /** The end of the last byte, when l is added to a file of n bytes. */
  function Reach(n: nat, l: seq<Extent>): nat {
    if l == [] then n else Max(Reach(n, l[..|l| - 1]), l[|l| - 1].End())
  }

  /** r is d after the extents of l were added in order. */
  ghost predicate Saved(bs: nat, d: Dentry, l: seq<Extent>, r: Dentry)
    requires 0 < bs
  {
    && Ok(r) && r.size == Reach(d.size, l)
    && forall x: nat :: SavedAt(bs, d, l, r, x)
  }

  predicate SavedAt(bs: nat, d: Dentry, l: seq<Extent>, r: Dentry, x: nat)
    requires 0 < bs
  {
    MapAt(bs, r.extents, x) == var o := Override(bs, l, x); if o.Phys? then o else MapAt(bs, d.extents, x)
  }

  lemma SavedMore(bs: nat, d: Dentry, l: seq<Extent>, q: Dentry, e: Extent, r: Dentry)
    requires 0 < bs && Saved(bs, d, l, q) && Added(bs, q, e, r)
    ensures Saved(bs, d, l + [e], r)
  {
    hide Ok;
    assert (l + [e])[..|l|] == l;
    forall x: nat ensures SavedAt(bs, d, l + [e], r, x) {
      assert SavedAt(bs, d, l, q, x);
      OverrideConcat(bs, l, [e], x);
    }
  }

  /** The entries that were taken. */
  function Kept<T>(l: seq<T>, took: seq<bool>): seq<T>
    requires |took| <= |l|
  {
    if took == [] then []
    else Kept(l, took[..|took| - 1]) + if took[|took| - 1] then [l[|took| - 1]] else []
  }

  lemma {:induction false} KeptAll<T>(l: seq<T>, took: seq<bool>)
    requires |took| <= |l| && forall i :: 0 <= i < |took| ==> took[i]
    ensures Kept(l, took) == l[..|took|]
    decreases |took|
  {
    if took != [] { KeptAll(l, took[..|took| - 1]); }
  }

  /** libltfs takes an extent: it is not refused, and no entry has to be split or there is memory for that. */
  predicate Takes(m: seq<Extent>, e: Extent, p: Push) { p.Tried? && (p.canSplit || !Splits(m, e)) }

  /** The file's own list m after the entries of l were pushed in order, and which of them were taken. */
  function Pushed(bs: nat, m: seq<Extent>, l: seq<Extent>, push: seq<Push>): (r: (seq<Extent>, seq<bool>))
    requires 0 < bs && |push| == |l|
    ensures |r.1| == |l|
  {
    if l == [] then (m, [])
    else
      var k := |l| - 1;
      var (n, took) := Pushed(bs, m, l[..k], push[..k]);
      var ok := Takes(n, l[k], push[k]);
      (if ok then Spliced(bs, n, l[k]) else n, took + [ok])
  }

  /** Entry i is taken or not, depending on the file's list before it. */
  lemma {:induction false} PushedAt(bs: nat, m: seq<Extent>, l: seq<Extent>, push: seq<Push>, i: nat)
    requires 0 < bs && |push| == |l| && i < |l|
    ensures Pushed(bs, m, l, push).1[i] <==> Takes(Pushed(bs, m, l[..i], push[..i]).0, l[i], push[i])
    decreases |l|
  {
    var k := |l| - 1;
    if i < k {
      PushedAt(bs, m, l[..k], push[..k], i);
      assert l[..k][..i] == l[..i] && push[..k][..i] == push[..i];
    }
  }

  /** `_unified_clear_alt_extentlist` with save set: the extents go to libltfs in list order, and those it
      does not take are dropped. */
  method SaveAltExtentList(bs: nat, d: Dentry, l: seq<Extent>, push: seq<Push>) returns (r: Dentry, took: seq<bool>)
    requires 0 < bs && Ok(d) && |push| == |l|
    ensures (r.extents, took) == Pushed(bs, d.extents, l, push) && |took| == |l|
    ensures Saved(bs, d, Kept(l, took), r)
    ensures forall i :: 0 <= i < |l| ==>
              (took[i] <==> push[i] == Tried(true) ||
                            (push[i] == Tried(false) && !Splits(Pushed(bs, d.extents, l[..i], push[..i]).0, l[i])))
  {
    hide Ok, Saved, Added, Splits, Spliced, Pushed;
    r, took := d, [];
    SavedNone(bs, d);
    PushedNone(bs, d.extents, l, push);
    for i := 0 to |l|
      invariant Ok(r) && |took| == i && Saved(bs, d, Kept(l, took), r)
      invariant (r.extents, took) == Pushed(bs, d.extents, l[..i], push[..i])
    {
      var ok := false;
      ghost var q := r;
      PushedNext(bs, d.extents, l, push, i);
      if push[i].Tried? {
        r, ok := AddExtent(bs, r, l[i], push[i].canSplit);
        if ok {
          SavedMore(bs, d, Kept(l, took), q, l[i], r);
          AddedOk(bs, q, l[i], r);
        }
      }
      assert (took + [ok])[..i] == took && Kept(l, took) + [] == Kept(l, took);
      took := took + [ok];
    }
    assert l[..|l|] == l && push[..|l|] == push;
    forall i | 0 <= i < |l| ensures took[i] <==> Takes(Pushed(bs, d.extents, l[..i], push[..i]).0, l[i], push[i]) {
      PushedAt(bs, d.extents, l, push, i);
    }
  }

  lemma PushedNone(bs: nat, m: seq<Extent>, l: seq<Extent>, push: seq<Push>)
    requires 0 < bs && |push| == |l|
    ensures Pushed(bs, m, l[..0], push[..0]) == (m, [])
  {
  }

  lemma PushedNext(bs: nat, m: seq<Extent>, l: seq<Extent>, push: seq<Push>, i: nat)
    requires 0 < bs && |push| == |l| && i < |l|
    ensures var (n, took) := Pushed(bs, m, l[..i], push[..i]);
            var ok := Takes(n, l[i], push[i]);
            Pushed(bs, m, l[..i + 1], push[..i + 1]) == (if ok then Spliced(bs, n, l[i]) else n, took + [ok])
  {
    assert l[..i + 1][..i] == l[..i] && push[..i + 1][..i] == push[..i];
  }

  /** Where no entry that was dropped covers x, the entries that were taken say what all of them say. */
  lemma {:induction false} KeptOverride(bs: nat, l: seq<Extent>, took: seq<bool>, x: nat)
    requires 0 < bs && |took| <= |l| && forall i :: 0 <= i < |took| && !took[i] ==> !l[i].Covers(x)
    ensures Override(bs, Kept(l, took), x) == Override(bs, l[..|took|], x)
    decreases |took|
  {
    if took != [] {
      var k := |took| - 1;
      KeptOverride(bs, l, took[..k], x);
      assert l[..|took|] == l[..k] + [l[k]];
      OverrideConcat(bs, l[..k], [l[k]], x);
      if took[k] { OverrideConcat(bs, Kept(l, took[..k]), [l[k]], x); }
      else { assert Kept(l, took) == Kept(l, took[..k]); }
    } else {
      assert l[..0] == [];
    }
  }

  /** Where no entry that was taken covers x, the list says nothing. */
  lemma {:induction false} KeptNothing(bs: nat, l: seq<Extent>, took: seq<bool>, x: nat)
    requires 0 < bs && |took| <= |l| && forall i :: 0 <= i < |took| && took[i] ==> !l[i].Covers(x)
    ensures Override(bs, Kept(l, took), x) == Unmapped
    decreases |took|
  {
    if took != [] {
      var k := |took| - 1;
      KeptNothing(bs, l, took[..k], x);
      if took[k] { OverrideConcat(bs, Kept(l, took[..k]), [l[k]], x); }
      else { assert Kept(l, took) == Kept(l, took[..k]); }
    }
  }

  lemma SavedNone(bs: nat, d: Dentry)
    requires 0 < bs && Ok(d)
    ensures Saved(bs, d, [], d)
  {
  }

  lemma AddedOk(bs: nat, d: Dentry, e: Extent, r: Dentry)
    requires 0 < bs && Added(bs, d, e, r)
    ensures Ok(r)
  {
  }

  // ----- every run

  datatype AltOp = Add(n: Extent, top: nat) | TruncateTo(len: nat)

  /** Every added extent has just been written behind everything before it; top is the end of the
      partition afterwards. */
  predicate FreshRun(bs: nat, ip: nat, top: nat, ops: seq<AltOp>) {
    ops == [] || (FreshRun(bs, ip, top, ops[..|ops| - 1]) &&
                  (ops[|ops| - 1].Add? ==>
                    Fresh(bs, ip, Top(top, ops[..|ops| - 1]), ops[|ops| - 1].top, ops[|ops| - 1].n)))
  }

  function Top(top: nat, ops: seq<AltOp>): nat {
    if ops == [] then top else var o := ops[|ops| - 1]; if o.Add? then o.top else Top(top, ops[..|ops| - 1])
  }

  function AltRun(bs: nat, ops: seq<AltOp>): seq<Extent>
    requires 0 < bs
  {
    if ops == [] then []
    else
      var l := AltRun(bs, ops[..|ops| - 1]);
      match ops[|ops| - 1]
      case Add(n, _) => Updated(bs, l, n, false)
      case TruncateTo(len) => Cut(l, len)
  }

  /** The newest extent that covers x and was not cut off since. */
  function Newest(bs: nat, ops: seq<AltOp>, x: nat): Phys
    requires 0 < bs
  {
    if ops == [] then Unmapped
    else match ops[|ops| - 1]
      case Add(n, _) => if n.Covers(x) then Where(bs, n, x) else Newest(bs, ops[..|ops| - 1], x)
      case TruncateTo(len) => if x < len then Newest(bs, ops[..|ops| - 1], x) else Unmapped
  }

  lemma {:induction false} NewestWins(bs: nat, ip: nat, top: nat, ops: seq<AltOp>)
    requires 0 < bs && FreshRun(bs, ip, top, ops)
    ensures AltOk(bs, ip, Top(top, ops), AltRun(bs, ops))
    ensures forall x: nat :: Override(bs, AltRun(bs, ops), x) == Newest(bs, ops, x)
    decreases |ops|
  {
    if ops != [] {
      var pre, o := ops[..|ops| - 1], ops[|ops| - 1];
      NewestWins(bs, ip, top, pre);
      var l, t := AltRun(bs, pre), Top(top, pre);
      if o.Add? { UpdatedOk(bs, ip, t, o.top, l, o.n, false); } else { CutOk(bs, ip, t, l, o.len); }
      forall x: nat ensures Override(bs, AltRun(bs, ops), x) == Newest(bs, ops, x) {
        assert Override(bs, l, x) == Newest(bs, pre, x);
        if o.TruncateTo? { CutOverride(bs, l, o.len, x); }
        else if o.n.Covers(x) { UpdatedNew(bs, ip, t, o.top, l, o.n, x); }
        else { UpdatedOther(bs, ip, l, o.n, false, x); }
      }
    }
  }
}
