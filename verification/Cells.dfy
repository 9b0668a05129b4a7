/** What editing a request list does to the bytes it holds. */
module Cells {
  import opened Bytes
  import opened Requests

  function Or(a: Cell, b: Cell): Cell { if a.Held? then a else b }

  lemma {:induction false} CellConcat(a: seq<Req>, b: seq<Req>, x: nat)
    ensures CellAt(a + b, x) == Or(CellAt(a, x), CellAt(b, x))
  {
    if a == [] {
      assert a + b == b;
    } else {
      assert (a + b)[1..] == a[1..] + b;
      CellConcat(a[1..], b, x);
    }
  }

  lemma {:induction false} CellHole(l: seq<Req>, x: nat)
    requires forall j :: 0 <= j < |l| ==> !l[j].Covers(x)
    ensures CellAt(l, x) == Hole
  {
    if l != [] { CellHole(l[1..], x); }
  }

  /** Cells of a list cut around the stretch [i, j). */
  lemma CellCut(l: seq<Req>, i: nat, j: nat, x: nat)
    requires i <= j <= |l|
    ensures CellAt(l, x) == Or(CellAt(l[..i], x), Or(CellAt(l[i..j], x), CellAt(l[j..], x)))
  {
    assert l == l[..i] + (l[i..j] + l[j..]);
    CellConcat(l[..i], l[i..j] + l[j..], x);
    CellConcat(l[i..j], l[j..], x);
  }

  lemma CellCutAt(l: seq<Req>, i: nat, x: nat)
    requires i < |l|
    ensures CellAt(l, x) == Or(CellAt(l[..i], x), Or(CellOf(l[i], x), CellAt(l[i + 1..], x)))
  {
    CellCut(l, i, i + 1, x);
    assert l[i..i + 1] == [l[i]];
    assert CellAt([l[i]], x) == CellOf(l[i], x);
  }

  lemma CellSet(l: seq<Req>, i: nat, r: Req, x: nat)
    requires i < |l|
    ensures CellAt(l[i := r], x) == Or(CellAt(l[..i], x), Or(CellOf(r, x), CellAt(l[i + 1..], x)))
  {
    var m := l[i := r];
    CellCutAt(m, i, x);
    assert m[..i] == l[..i] && m[i + 1..] == l[i + 1..];
  }

  lemma CellInsert(l: seq<Req>, i: nat, r: Req, x: nat)
    requires i <= |l|
    ensures CellAt(l[..i] + [r] + l[i..], x) == Or(CellAt(l[..i], x), Or(CellOf(r, x), CellAt(l[i..], x)))
  {
    var m := l[..i] + [r] + l[i..];
    CellCutAt(m, i, x);
    assert m[..i] == l[..i] && m[i + 1..] == l[i..] && m[i] == r;
  }

  lemma CellRemove(l: seq<Req>, i: nat, x: nat)
    requires i < |l|
    ensures CellAt(l[..i] + l[i + 1..], x) == Or(CellAt(l[..i], x), CellAt(l[i + 1..], x))
  {
    CellConcat(l[..i], l[i + 1..], x);
  }

  lemma CellSplitInTwo(l: seq<Req>, i: nat, h: Req, t: Req, x: nat)
    requires i < |l|
    ensures CellAt(SplitInTwo(l, i, h, t), x) ==
            Or(CellAt(l[..i], x), Or(CellOf(h, x), Or(CellOf(t, x), CellAt(l[i + 1..], x))))
  {
    var m := SplitInTwo(l, i, h, t);
    CellCutAt(m, i, x);
    CellCutAt(m[i + 1..], 0, x);
    assert m[..i] == l[..i] && m[i + 1..][1..] == l[i + 1..];
  }

  lemma CellGrown(r: Req, o: nat, buf: seq<byte>, x: nat)
    requires r.offset <= o <= r.End()
    ensures CellOf(Grown(r, o, buf), x) == if o <= x < o + |buf| then Held(buf[x - o], r.ip) else CellOf(r, x)
  {
  }

  lemma CellUpdate(cs: nat, l: seq<Req>, k: nat, o: nat, buf: seq<byte>, x: nat)
    requires k < |l| && l[k].offset <= o <= l[k].End() && |l[k].data| <= cs
    ensures var n := Min(Room(cs, l[k], o), |buf|);
            CellAt(Update(cs, l, k, o, buf), x) ==
            Or(CellAt(l[..k], x),
               Or(if o <= x < o + n then Held(buf[x - o], l[k].ip) else CellOf(l[k], x), CellAt(l[k + 1..], x)))
  {
    var n := Min(Room(cs, l[k], o), |buf|);
    var g := Grown(l[k], o, buf[..n]);
    CellSet(l, k, g, x);
    CellGrown(l[k], o, buf[..n], x);
  }

  lemma CellTwo(l: seq<Req>, i: nat, d: Req, s: Req, x: nat)
    requires 0 < i < |l|
    ensures CellAt(l[i - 1 := d][i := s], x) ==
            Or(CellAt(l[..i - 1], x), Or(CellOf(d, x), Or(CellOf(s, x), CellAt(l[i + 1..], x))))
  {
    var m := l[i - 1 := d][i := s];
    CellCutAt(m, i - 1, x);
    CellCutAt(m[i..], 0, x);
    assert m[..i - 1] == l[..i - 1] && m[i..][1..] == l[i + 1..] && m[i..][0] == s;
  }

  lemma CellRemoveNext(l: seq<Req>, i: nat, d: Req, x: nat)
    requires 0 < i < |l|
    ensures CellAt(l[..i - 1] + [d] + l[i + 1..], x) ==
            Or(CellAt(l[..i - 1], x), Or(CellOf(d, x), CellAt(l[i + 1..], x)))
  {
    var m := l[..i - 1] + [d] + l[i + 1..];
    CellCutAt(m, i - 1, x);
    assert m[..i - 1] == l[..i - 1] && m[i..] == l[i + 1..];
  }

  /** Bytes handed from src to dest stay in the same place. */
  lemma CellPassOn(dest: Req, src: Req, d: Req, moved: seq<byte>, x: nat)
    requires dest.offset <= src.offset <= dest.End() && d == Grown(dest, dest.End(), moved)
    requires moved != [] ==> dest.ip == src.ip && dest.End() + |moved| <= src.End() &&
                             moved == src.data[dest.End() - src.offset..][..|moved|]
    ensures var cut := dest.End() - src.offset + |moved|;
            && (cut < |src.data| ==>
                Or(CellOf(d, x), CellOf(Req(src.offset + cut, src.data[cut..], src.ip), x)) ==
                  Or(CellOf(dest, x), CellOf(src, x)))
            && (cut >= |src.data| ==> CellOf(d, x) == Or(CellOf(dest, x), CellOf(src, x)))
  {
    CellGrown(dest, dest.End(), moved, x);
  }

  /** A merge never changes what the list holds at any offset. */
  lemma CellMerge(cs: nat, l: seq<Req>, i: nat, x: nat)
    requires 0 < i < |l| && Fits(l, cs) && l[i - 1].offset <= l[i].offset
    ensures CellAt(Merge(cs, l, i).l, x) == CellAt(l, x)
  {
    hide Moved, CellOf, CellAt;
    var dest, src := l[i - 1], l[i];
    if src.offset <= dest.End() {
      var d, cut := Taker(cs, dest, src), Cut(cs, dest, src);
      CellTwo(l, i, dest, src, x);
      assert l[i - 1 := dest][i := src] == l;
      CellPassOn(dest, src, d, Moved(cs, dest, src), x);
      hide Taker;
      if 0 < cut < |src.data| {
        CellTwo(l, i, d, Req(src.offset + cut, src.data[cut..], src.ip), x);
      } else if 0 < cut {
        CellRemoveNext(l, i, d, x);
      }
    }
  }
}
