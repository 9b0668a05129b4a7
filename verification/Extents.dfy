/**
 Extent lists (`struct extent_info`, src/libltfs/ltfs_fsops_raw.c): which byte of which block on which
 partition holds a byte of a file, and how `_ltfs_fsraw_add_extent_unlocked` and `ltfs_fsraw_truncate`
 edit that mapping.
 */
module Extents {
  import opened Bytes

  datatype Extent = Extent(part: nat, block: nat, byteoffset: nat, bytecount: nat, fileoffset: nat) {
    function End(): nat { fileoffset + bytecount }
    predicate Covers(x: nat) { fileoffset <= x < End() }
  }

  /** Where a file byte is on tape. */
  datatype Phys = Unmapped | Phys(part: nat, block: nat, byte: nat)

  /** Whole blocks in m bytes, and the bytes left over. */
  function Quot(m: nat, bs: nat): nat
    requires 0 < bs
  {
    m / bs
  }

  function Rem(m: nat, bs: nat): (r: nat)
    requires 0 < bs
    ensures r < bs
  {
    m % bs
  }

  function Where(bs: nat, e: Extent, x: nat): Phys
    requires 0 < bs && e.fileoffset <= x
  {
    var m := e.byteoffset + (x - e.fileoffset);
    Phys(e.part, e.block + Quot(m, bs), Rem(m, bs))
  }

  function MapAt(bs: nat, l: seq<Extent>, x: nat): Phys
    requires 0 < bs
  {
    if l == [] then Unmapped else if l[0].Covers(x) then Where(bs, l[0], x) else MapAt(bs, l[1..], x)
  }

  /** Sorted and disjoint. */
  predicate Sorted(l: seq<Extent>) { forall i, j :: 0 <= i < j < |l| ==> l[i].End() <= l[j].fileoffset }

  predicate Within(l: seq<Extent>, n: nat) { forall i :: 0 <= i < |l| ==> l[i].End() <= n }

  predicate NonEmpty(l: seq<Extent>) { forall i :: 0 <= i < |l| ==> 0 < l[i].bytecount }

  function Sum(l: seq<Extent>): nat { if l == [] then 0 else l[0].bytecount + Sum(l[1..]) }

  /** The parts of `struct dentry` that describe its data. */
  datatype Dentry = Dentry(extents: seq<Extent>, size: nat, realsize: nat)

  predicate Ok(d: Dentry) { Sorted(d.extents) && Within(d.extents, d.size) && d.realsize == Sum(d.extents) }

  // ----- block arithmetic

  lemma DivAdd(bs: nat, q: nat, y: nat)
    requires 0 < bs
    ensures (q * bs + y) / bs == q + y / bs && (q * bs + y) % bs == y % bs
  {
    var a := q * bs + y;
    assert a == (q + y / bs) * bs + y % bs;
    DivUnique(a, bs, q + y / bs, y % bs);
  }

  lemma AtLeast(k: nat, bs: nat)
    requires 0 < k
    ensures bs <= k * bs
  {
    var j: nat := k - 1;
    assert k * bs == j * bs + bs;
  }

  lemma DivShift(bs: nat, m: nat, k: nat)
    requires 0 < bs
    ensures Quot(m + k, bs) == Quot(m, bs) + Quot(Rem(m, bs) + k, bs) && Rem(m + k, bs) == Rem(Rem(m, bs) + k, bs)
  {
    DivAdd(bs, m / bs, m % bs + k);
    assert m + k == (m / bs) * bs + (m % bs + k);
  }

  lemma DivUnique(a: nat, bs: nat, q: nat, r: nat)
    requires 0 < bs && r < bs && a == q * bs + r
    ensures a / bs == q && a % bs == r
  {
    var p := a / bs;
    assert a == p * bs + a % bs;
    if p > q {
      AtLeast(p - q, bs);
    } else if q > p {
      AtLeast(q - p, bs);
    }
  }

  /** An extent without its first cut bytes. */
  function Trimmed(bs: nat, e: Extent, cut: nat): Extent
    requires 0 < bs && cut <= e.bytecount
  {
    var m := cut + e.byteoffset;
    Extent(e.part, e.block + Quot(m, bs), Rem(m, bs), e.bytecount - cut, e.fileoffset + cut)
  }

  /** Trimming moves no byte. */
  lemma TrimmedWhere(bs: nat, e: Extent, cut: nat, x: nat)
    requires 0 < bs && cut <= e.bytecount && e.fileoffset + cut <= x
    ensures Where(bs, Trimmed(bs, e, cut), x) == Where(bs, e, x)
  {
    hide Quot, Rem;
    DivShift(bs, cut + e.byteoffset, x - e.fileoffset - cut);
  }

  /** ext continues e on tape as well as in the file. */
  predicate Continues(bs: nat, e: Extent, ext: Extent)
    requires 0 < bs
  {
    && ext.fileoffset == e.End() && e.part == ext.part && Rem(e.byteoffset + e.bytecount, bs) == 0
    && e.block + Quot(e.byteoffset + e.bytecount, bs) == ext.block && ext.byteoffset == 0
  }

  lemma ContinuesWhere(bs: nat, e: Extent, ext: Extent, x: nat)
    requires 0 < bs && Continues(bs, e, ext) && ext.fileoffset <= x
    ensures Where(bs, e, x) == Where(bs, ext, x)
  {
    hide Quot, Rem;
    DivShift(bs, e.byteoffset + e.bytecount, x - ext.fileoffset);
  }

  // ----- lists

  lemma SumOne(e: Extent)
    ensures Sum([e]) == e.bytecount
  {
  }

  lemma SumNone()
    ensures Sum([]) == 0
  {
  }

  lemma {:induction false} SumConcat(a: seq<Extent>, b: seq<Extent>)
    ensures Sum(a + b) == Sum(a) + Sum(b)
  {
    if a == [] {
      assert a + b == b;
    } else {
      assert (a + b)[1..] == a[1..] + b;
      SumConcat(a[1..], b);
    }
  }

  lemma {:induction false} MapConcat(bs: nat, a: seq<Extent>, b: seq<Extent>, x: nat)
    requires 0 < bs
    ensures MapAt(bs, a + b, x) == if MapAt(bs, a, x).Phys? then MapAt(bs, a, x) else MapAt(bs, b, x)
  {
    if a == [] {
      assert a + b == b;
    } else {
      assert (a + b)[1..] == a[1..] + b;
      MapConcat(bs, a[1..], b, x);
    }
  }

  lemma {:induction false} MapNone(bs: nat, l: seq<Extent>, x: nat)
    requires 0 < bs && forall i :: 0 <= i < |l| ==> !l[i].Covers(x)
    ensures MapAt(bs, l, x) == Unmapped
  {
    if l != [] { MapNone(bs, l[1..], x); }
  }

  lemma {:induction false} MapSome(bs: nat, l: seq<Extent>, i: nat, x: nat)
    requires 0 < bs && Sorted(l) && i < |l| && l[i].Covers(x)
    ensures MapAt(bs, l, x) == Where(bs, l[i], x)
  {
    if i > 0 { MapSome(bs, l[1..], i - 1, x); }
  }

  /** left is what l maps below n. */
  ghost predicate Left(bs: nat, l: seq<Extent>, n: nat, left: seq<Extent>)
    requires 0 < bs
  {
    && Sorted(left) && Within(left, n)
    && forall x: nat :: MapAt(bs, left, x) == if x < n then MapAt(bs, l, x) else Unmapped
  }

  /** right is what l maps from n on. */
  ghost predicate Right(bs: nat, l: seq<Extent>, n: nat, right: seq<Extent>)
    requires 0 < bs
  {
    && Sorted(right) && (forall i :: 0 <= i < |right| ==> n <= right[i].fileoffset)
    && forall x: nat :: MapAt(bs, right, x) == if x < n then Unmapped else MapAt(bs, l, x)
  }

  /** l with the bytes of ext mapped to ext, and no other byte moved. */
  ghost predicate Overridden(bs: nat, l: seq<Extent>, ext: Extent, r: seq<Extent>)
    requires 0 < bs
  {
    forall x: nat :: MapAt(bs, r, x) == if ext.Covers(x) then Where(bs, ext, x) else MapAt(bs, l, x)
  }

  lemma AssembleSorted(left: seq<Extent>, ext: Extent, right: seq<Extent>)
    requires Sorted(left) && Within(left, ext.fileoffset) && Sorted(right)
    requires forall i :: 0 <= i < |right| ==> ext.End() <= right[i].fileoffset
    ensures Sorted(left + [ext] + right)
  {
  }

  lemma Assemble(bs: nat, l: seq<Extent>, left: seq<Extent>, ext: Extent, right: seq<Extent>)
    requires 0 < bs && Left(bs, l, ext.fileoffset, left) && Right(bs, l, ext.End(), right)
    ensures Sorted(left + [ext] + right) && Overridden(bs, l, ext, left + [ext] + right)
  {
    AssembleSorted(left, ext, right);
    var r := left + [ext] + right;
    forall x: nat ensures MapAt(bs, r, x) == if ext.Covers(x) then Where(bs, ext, x) else MapAt(bs, l, x) {
      MapConcat(bs, left + [ext], right, x);
      MapConcat(bs, left, [ext], x);
    }
  }

  // ----- `_ltfs_fsraw_add_extent_unlocked`

  /** From position i on, the list has been cleared of ext's bytes. */
  ghost predicate Cleared(bs: nat, l: seq<Extent>, i: nat, ext: Extent, right: seq<Extent>)
    requires 0 < bs && i <= |l|
  {
    && (forall j :: i <= j < |l| ==> ext.fileoffset <= l[j].fileoffset)
    && Right(bs, l[i..], ext.End(), right)
  }

  lemma RightConcat(bs: nat, e: Extent, l: seq<Extent>, n: nat, mid: seq<Extent>, right: seq<Extent>)
    requires 0 < bs && Sorted([e] + l) && Right(bs, [e], n, mid) && Right(bs, l, n, right)
    requires |mid| <= 1 && (mid != [] ==> mid[0].End() == e.End())
    requires forall i :: 0 <= i < |right| ==> e.End() <= right[i].fileoffset
    ensures Right(bs, [e] + l, n, mid + right)
  {
    forall x: nat ensures MapAt(bs, mid + right, x) == if x < n then Unmapped else MapAt(bs, [e] + l, x) {
      MapConcat(bs, mid, right, x);
      MapConcat(bs, [e], l, x);
    }
  }

  /** What remains of an entry that starts inside ext or after it. */
  function Behind(bs: nat, e: Extent, n: nat): seq<Extent>
    requires 0 < bs
  {
    if n <= e.fileoffset then [e] else if e.End() <= n then [] else [Trimmed(bs, e, n - e.fileoffset)]
  }

  lemma BehindIsRight(bs: nat, e: Extent, n: nat)
    requires 0 < bs
    ensures Right(bs, [e], n, Behind(bs, e, n))
  {
    var b := Behind(bs, e, n);
    forall x: nat ensures MapAt(bs, b, x) == if x < n then Unmapped else MapAt(bs, [e], x) {
      if e.fileoffset < n < e.End() && n <= x { TrimmedWhere(bs, e, n - e.fileoffset, x); }
    }
  }

  lemma RightWiden(bs: nat, l: seq<Extent>, k: nat, n: nat, right: seq<Extent>)
    requires 0 < bs && k <= |l| && Right(bs, l[k..], n, right) && Within(l[..k], n)
    ensures Right(bs, l, n, right)
  {
    forall x: nat ensures MapAt(bs, right, x) == if x < n then Unmapped else MapAt(bs, l, x) {
      assert l == l[..k] + l[k..];
      MapConcat(bs, l[..k], l[k..], x);
      if n <= x {
        var pre := l[..k];
        forall i | 0 <= i < |pre| ensures !pre[i].Covers(x) { assert pre[i].End() <= n; }
        MapNone(bs, pre, x);
      }
    }
  }

  /** The entry at k, cut off at n. */
  function Ahead(e: Extent, n: nat): Extent
    requires e.fileoffset <= n
  {
    if n < e.End() then e.(bytecount := n - e.fileoffset) else e
  }

  lemma LeftPart(bs: nat, l: seq<Extent>, k: nat, n: nat)
    requires 0 < bs && Sorted(l) && k < |l| && l[k].fileoffset <= n && forall j :: k < j < |l| ==> n <= l[j].fileoffset
    ensures Left(bs, l, n, l[..k] + [Ahead(l[k], n)])
  {
    LeftSorted(l, k, n);
    hide Sorted, Within, Ahead;
    forall x: nat ensures MapAt(bs, l[..k] + [Ahead(l[k], n)], x) == if x < n then MapAt(bs, l, x) else Unmapped {
      LeftAt(bs, l, k, n, x);
    }
  }

  lemma LeftSorted(l: seq<Extent>, k: nat, n: nat)
    requires Sorted(l) && k < |l| && l[k].fileoffset <= n
    ensures Sorted(l[..k] + [Ahead(l[k], n)]) && Within(l[..k] + [Ahead(l[k], n)], n)
  {
  }

  lemma LeftAt(bs: nat, l: seq<Extent>, k: nat, n: nat, x: nat)
    requires 0 < bs && Sorted(l) && k < |l| && l[k].fileoffset <= n && forall j :: k < j < |l| ==> n <= l[j].fileoffset
    ensures MapAt(bs, l[..k] + [Ahead(l[k], n)], x) == if x < n then MapAt(bs, l, x) else Unmapped
  {
    var pre, head, post := l[..k], Ahead(l[k], n), l[k + 1..];
    forall j | 0 <= j < |post| ensures x < n ==> !post[j].Covers(x) { assert post[j] == l[k + 1 + j]; }
    forall j | 0 <= j < |pre| ensures n <= x ==> !pre[j].Covers(x) { assert pre[j].End() <= l[k].fileoffset; }
    assert l == pre + ([l[k]] + post);
    hide Sorted;
    MapConcat(bs, pre, [l[k]] + post, x);
    MapConcat(bs, pre, [head], x);
    MapConcat(bs, [l[k]], post, x);
    MapOne(bs, l[k], x);
    MapOne(bs, head, x);
    hide MapAt, Where;
    if x < n { MapNone(bs, post, x); } else { MapNone(bs, pre, x); }
  }

  lemma MapOne(bs: nat, e: Extent, x: nat)
    requires 0 < bs
    ensures MapAt(bs, [e], x) == if e.Covers(x) then Where(bs, e, x) else Unmapped
  {
    assert [e][1..] == [];
  }

  /** Putting ext behind head: as its continuation or as an entry of its own. */
  function Placed(bs: nat, head: Extent, ext: Extent): seq<Extent>
    requires 0 < bs
  {
    if Continues(bs, head, ext) then [head.(bytecount := head.bytecount + ext.bytecount)] else [head, ext]
  }

  lemma PlacedSorted(bs: nat, pre: seq<Extent>, head: Extent, ext: Extent, right: seq<Extent>)
    requires 0 < bs && Sorted((pre + [head]) + [ext] + right)
    ensures Sorted(pre + Placed(bs, head, ext) + right)
  {
    var l := (pre + [head]) + [ext] + right;
    var j := pre + Placed(bs, head, ext) + right;
    if Continues(bs, head, ext) {
      forall i, k | 0 <= i < k < |j| ensures j[i].End() <= j[k].fileoffset {
        var i', k' := if i < |pre| then i else i + 1, if k <= |pre| then k else k + 1;
        assert l[i'].End() <= l[k'].fileoffset;
      }
    } else {
      assert j == l;
    }
  }

  lemma PlacedSum(bs: nat, pre: seq<Extent>, head: Extent, ext: Extent, right: seq<Extent>)
    requires 0 < bs
    ensures Sum(pre + Placed(bs, head, ext) + right) == Sum(pre) + head.bytecount + ext.bytecount + Sum(right)
  {
    SumConcat(pre + Placed(bs, head, ext), right);
    SumConcat(pre, Placed(bs, head, ext));
    SumConcat([head], [ext]);
    assert [head] + [ext] == [head, ext];
  }

  /** Joining ext to the entry it continues on tape moves no byte. */
  lemma PlacedMap(bs: nat, head: Extent, ext: Extent, x: nat)
    requires 0 < bs
    ensures MapAt(bs, Placed(bs, head, ext), x) == MapAt(bs, [head, ext], x)
  {
    if Continues(bs, head, ext) && ext.fileoffset <= x { ContinuesWhere(bs, head, ext, x); }
    assert [head, ext] == [head] + [ext];
    MapConcat(bs, [head], [ext], x);
    MapOne(bs, head, x);
    MapOne(bs, ext, x);
    MapOne(bs, head.(bytecount := head.bytecount + ext.bytecount), x);
  }

  lemma PlacedOverrides(bs: nat, l: seq<Extent>, pre: seq<Extent>, head: Extent, ext: Extent, right: seq<Extent>)
    requires 0 < bs && Left(bs, l, ext.fileoffset, pre + [head]) && Right(bs, l, ext.End(), right)
    ensures var r := pre + Placed(bs, head, ext) + right; Sorted(r) && Overridden(bs, l, ext, r)
  {
    Assemble(bs, l, pre + [head], ext, right);
    PlacedSorted(bs, pre, head, ext, right);
    hide Left, Right, Placed, Sorted;
    var r, q := pre + Placed(bs, head, ext) + right, (pre + [head]) + [ext] + right;
    assert q == pre + [head, ext] + right;
    forall x: nat ensures MapAt(bs, r, x) == if ext.Covers(x) then Where(bs, ext, x) else MapAt(bs, l, x) {
      assert MapAt(bs, q, x) == if ext.Covers(x) then Where(bs, ext, x) else MapAt(bs, l, x);
      PlacedMap(bs, head, ext, x);
      MapConcat(bs, pre + Placed(bs, head, ext), right, x);
      MapConcat(bs, pre, Placed(bs, head, ext), x);
      MapConcat(bs, pre + [head, ext], right, x);
      MapConcat(bs, pre, [head, ext], x);
    }
  }

  lemma WholeBlocks(m: nat, bs: nat)
    requires 0 < bs && 0 < m
    ensures Rem(m, bs) == 0 ==> Quot(m, bs) > 0
  {
    assert m == m / bs * bs + m % bs;
  }

  /** An empty extent at block 0 never continues a non-empty one. */
  lemma PlacedNonEmpty(bs: nat, pre: seq<Extent>, head: Extent, ext: Extent, right: seq<Extent>)
    requires 0 < bs && NonEmpty(pre) && 0 < head.bytecount && NonEmpty(right)
    ensures 0 < ext.bytecount ==> NonEmpty(pre + Placed(bs, head, ext) + right)
    ensures ext.bytecount == 0 == ext.block ==> !NonEmpty(pre + Placed(bs, head, ext) + right)
  {
    var r := pre + Placed(bs, head, ext) + right;
    if ext.bytecount == 0 == ext.block {
      WholeBlocks(head.byteoffset + head.bytecount, bs);
      assert r[|pre| + 1] == ext;
    }
  }

  /** A file whose data maps exactly as described, after ext has been added. */
  ghost predicate Added(bs: nat, d: Dentry, ext: Extent, r: Dentry)
    requires 0 < bs
  {
    && Ok(r) && Overridden(bs, d.extents, ext, r.extents) && r.size == Max(d.size, ext.End())
    && (NonEmpty(d.extents) && 0 < ext.bytecount ==> NonEmpty(r.extents))
    && (NonEmpty(d.extents) && ext.bytecount == 0 == ext.block ==> !NonEmpty(r.extents))
  }

  /** ext lies strictly inside an entry, so that one has to be split. */
  predicate Splits(l: seq<Extent>, ext: Extent) {
    exists i :: 0 <= i < |l| && l[i].fileoffset < ext.fileoffset && ext.End() < l[i].End()
  }

  /** The list after ext has been added. Seen from the end: entries that start at or behind ext's start keep what
      lies behind its end; ext goes behind the next entry, which is cut off where ext starts. */
  function Spliced(bs: nat, l: seq<Extent>, ext: Extent): seq<Extent>
    requires 0 < bs
  {
    if l == [] then [ext]
    else
      var pre, e := l[..|l| - 1], l[|l| - 1];
      if ext.fileoffset <= e.fileoffset && (e.fileoffset < ext.End() || ext.fileoffset < e.End()) then
        Spliced(bs, pre, ext) + Behind(bs, e, ext.End())
      else if e.End() <= ext.fileoffset then pre + Placed(bs, e, ext)
      else pre + Placed(bs, Ahead(e, ext.fileoffset), ext) + Behind(bs, e, ext.End())
  }

  /** The loop goes on past entry k. */
  lemma SplicedNext(bs: nat, l: seq<Extent>, k: nat, ext: Extent, right: seq<Extent>)
    requires 0 < bs && k < |l| && ext.fileoffset <= l[k].fileoffset
    requires l[k].fileoffset < ext.End() || ext.fileoffset < l[k].End()
    ensures Spliced(bs, l[..k + 1], ext) + right == Spliced(bs, l[..k], ext) + (Behind(bs, l[k], ext.End()) + right)
  {
    hide Behind;
    assert l[..k + 1][..k] == l[..k];
  }

  /** The loop ends at entry k. */
  lemma SplicedHere(bs: nat, l: seq<Extent>, k: nat, ext: Extent, right: seq<Extent>)
    requires 0 < bs && k < |l| && l[k].fileoffset <= ext.fileoffset
    requires ext.fileoffset <= l[k].fileoffset ==> ext.End() <= l[k].fileoffset && l[k].End() <= ext.fileoffset
    ensures Spliced(bs, l[..k + 1], ext) + right ==
            l[..k] + Placed(bs, Ahead(l[k], ext.fileoffset), ext)
            + ((if l[k].End() <= ext.fileoffset then [] else Behind(bs, l[k], ext.End())) + right)
  {
    hide Behind, Placed;
    assert l[..k + 1][..k] == l[..k];
  }

  /** ext goes behind entry k, which is cut off where ext starts. */
  method FinishBehind(bs: nat, d: Dentry, k: nat, ext: Extent, right: seq<Extent>, used: nat) returns (r: Dentry)
    requires 0 < bs && Ok(d) && k < |d.extents| && d.extents[k].fileoffset <= ext.fileoffset
    requires forall j :: k < j < |d.extents| ==> ext.fileoffset <= d.extents[j].fileoffset
    requires Right(bs, d.extents, ext.End(), right) && Within(right, d.size) &&
             (NonEmpty(d.extents) ==> NonEmpty(right))
    requires NonEmpty(d.extents) ==> d.extents[k].fileoffset < ext.fileoffset
    requires used == Sum(d.extents[..k]) + Ahead(d.extents[k], ext.fileoffset).bytecount + Sum(right)
    ensures Added(bs, d, ext, r)
    ensures r.extents == d.extents[..k] + Placed(bs, Ahead(d.extents[k], ext.fileoffset), ext) + right
  {
    hide Right, Overridden;
    var l := d.extents;
    var pre, head := l[..k], Ahead(l[k], ext.fileoffset);
    LeftPart(bs, l, k, ext.fileoffset);
    PlacedOverrides(bs, l, pre, head, ext, right);
    PlacedSum(bs, pre, head, ext, right);
    if NonEmpty(l) { PlacedNonEmpty(bs, pre, head, ext, right); }
    hide Sorted;
    r := Dentry(pre + Placed(bs, head, ext) + right, Max(d.size, ext.End()), used + ext.bytecount);
  }

  lemma FirstOverrides(bs: nat, l: seq<Extent>, ext: Extent, right: seq<Extent>)
    requires 0 < bs && Cleared(bs, l, 0, ext, right)
    ensures Sorted([ext] + right) && Overridden(bs, l, ext, [ext] + right)
  {
    assert l[0..] == l;
    forall x: nat ensures MapAt(bs, [], x) == if x < ext.fileoffset then MapAt(bs, l, x) else Unmapped {
      if x < ext.fileoffset { MapNone(bs, l, x); }
    }
    Assemble(bs, l, [], ext, right);
    assert [] + [ext] + right == [ext] + right;
  }

  /** No entry starts before ext: it becomes the first one. */
  method FinishFirst(bs: nat, d: Dentry, ext: Extent, right: seq<Extent>, used: nat) returns (r: Dentry)
    requires 0 < bs && Ok(d) && Cleared(bs, d.extents, 0, ext, right)
    requires Within(right, d.size) && (NonEmpty(d.extents) ==> NonEmpty(right)) && used == Sum(right)
    ensures Added(bs, d, ext, r) && r.extents == [ext] + right
  {
    FirstOverrides(bs, d.extents, ext, right);
    hide Right, Overridden, Sorted;
    SumConcat([ext], right);
    SumOne(ext);
    r := Dentry([ext] + right, Max(d.size, ext.End()), used + ext.bytecount);
    assert ext.bytecount == 0 ==> r.extents[0] == ext;
  }

  /** The loop goes on past entry k: it lies behind ext's start. */
  lemma ClearedNext(bs: nat, l: seq<Extent>, k: nat, ext: Extent, right: seq<Extent>)
    requires 0 < bs && Sorted(l) && k < |l| && Cleared(bs, l, k + 1, ext, right) && ext.fileoffset <= l[k].fileoffset
    requires forall i :: 0 <= i < |right| ==> l[k].End() <= right[i].fileoffset
    ensures Cleared(bs, l, k, ext, Behind(bs, l[k], ext.End()) + right)
  {
    hide Right;
    RightFrom(bs, l, k, ext.End(), right);
  }

  /** What is left of the entries up to k, whatever happened behind them. */
  lemma CutTail(l: seq<Extent>, k: nat)
    requires k < |l|
    ensures Sum(l) == Sum(l[..k]) + l[k].bytecount + Sum(l[k + 1..]) && Sum(l[k..]) == l[k].bytecount + Sum(l[k + 1..])
    ensures Sum(l) == Sum(l[..k]) + Sum(l[k..])
  {
    assert l == l[..k] + l[k..] && l[k..] == [l[k]] + l[k + 1..];
    SumConcat(l[..k], l[k..]);
    SumConcat([l[k]], l[k + 1..]);
  }

  /** The part of the list behind position i is done: cleared, in place, and accounted for. */
  ghost predicate Done(bs: nat, d: Dentry, i: nat, ext: Extent, right: seq<Extent>, used: nat)
    requires 0 < bs && i <= |d.extents|
  {
    && Cleared(bs, d.extents, i, ext, right)
    && (forall j :: 0 <= j < |right| ==> 0 < i ==> d.extents[i - 1].End() <= right[j].fileoffset)
    && Within(right, d.size) && (NonEmpty(d.extents) ==> NonEmpty(right))
    && used == Sum(d.extents[..i]) + Sum(right)
  }

  lemma DoneStart(bs: nat, d: Dentry, ext: Extent)
    requires 0 < bs && Ok(d)
    ensures Done(bs, d, |d.extents|, ext, [], d.realsize)
  {
    assert d.extents[|d.extents|..] == [] && d.extents[..|d.extents|] == d.extents;
  }

  lemma DoneSums(bs: nat, d: Dentry, k: nat, ext: Extent, right: seq<Extent>, used: nat)
    requires 0 < bs && k < |d.extents| && Done(bs, d, k + 1, ext, right, used)
    ensures used == Sum(d.extents[..k]) + d.extents[k].bytecount + Sum(right)
  {
    var l := d.extents[..k + 1];
    CutTail(l, k);
    assert l[..k] == d.extents[..k] && l[k + 1..] == [];
  }

  /** One more entry that starts at or behind ext's start. */
  lemma DoneNext(bs: nat, d: Dentry, k: nat, ext: Extent, right: seq<Extent>, used: nat)
    requires 0 < bs && Ok(d) && k < |d.extents| && Done(bs, d, k + 1, ext, right, used) &&
             ext.fileoffset <= d.extents[k].fileoffset
    ensures var b := Behind(bs, d.extents[k], ext.End());
            used + Sum(b) - d.extents[k].bytecount >= 0 &&
            Done(bs, d, k, ext, b + right, used + Sum(b) - d.extents[k].bytecount)
  {
    hide Right, Sum, MapAt;
    DoneSums(bs, d, k, ext, right, used);
    ClearedNext(bs, d.extents, k, ext, right);
    SumConcat(Behind(bs, d.extents[k], ext.End()), right);
  }

  /** The entry ext starts in, or the one it goes behind, has been found. */
  lemma DoneBehind(bs: nat, d: Dentry, k: nat, ext: Extent, right: seq<Extent>, used: nat)
    requires 0 < bs && Ok(d) && k < |d.extents| && Done(bs, d, k + 1, ext, right, used) &&
             d.extents[k].fileoffset < ext.fileoffset
    ensures Right(bs, d.extents, ext.End(), Behind(bs, d.extents[k], ext.End()) + right)
  {
    RightFrom(bs, d.extents, k, ext.End(), right);
    hide Right, Behind, Sum, NonEmpty;
    RightWiden(bs, d.extents, k, ext.End(), Behind(bs, d.extents[k], ext.End()) + right);
  }

  lemma RightFrom(bs: nat, l: seq<Extent>, k: nat, n: nat, right: seq<Extent>)
    requires 0 < bs && Sorted(l) && k < |l| && Right(bs, l[k + 1..], n, right)
    requires forall i :: 0 <= i < |right| ==> l[k].End() <= right[i].fileoffset
    ensures Right(bs, l[k..], n, Behind(bs, l[k], n) + right)
  {
    hide Right;
    BehindIsRight(bs, l[k], n);
    assert l[k..] == [l[k]] + l[k + 1..];
    RightConcat(bs, l[k], l[k + 1..], n, Behind(bs, l[k], n), right);
  }

  lemma DoneAfter(bs: nat, d: Dentry, k: nat, ext: Extent, right: seq<Extent>, used: nat)
    requires 0 < bs && Ok(d) && k < |d.extents| && Done(bs, d, k + 1, ext, right, used) &&
             d.extents[k].End() <= ext.fileoffset
    ensures Right(bs, d.extents, ext.End(), right)
  {
    var pre := d.extents[..k + 1];
    forall i | 0 <= i < |pre| ensures pre[i].End() <= ext.End() {
      assert i < k ==> d.extents[i].End() <= d.extents[k].fileoffset;
    }
    RightWiden(bs, d.extents, k + 1, ext.End(), right);
  }

  lemma NoSplit(bs: nat, d: Dentry, i: nat, ext: Extent, right: seq<Extent>, used: nat)
    requires 0 < bs && Ok(d) && i <= |d.extents| && Done(bs, d, i, ext, right, used)
    requires 0 < i ==> d.extents[i - 1].fileoffset <= ext.fileoffset && d.extents[i - 1].End() <= ext.End()
    ensures !Splits(d.extents, ext)
  {
    hide Right;
    forall j | 0 <= j < |d.extents|
      ensures !(d.extents[j].fileoffset < ext.fileoffset && ext.End() < d.extents[j].End())
    {
      assert j < i - 1 ==> d.extents[j].End() <= d.extents[i - 1].fileoffset;
    }
  }

  lemma DoneFirst(bs: nat, d: Dentry, ext: Extent, right: seq<Extent>, used: nat)
    requires 0 < bs && Done(bs, d, 0, ext, right, used)
    ensures Cleared(bs, d.extents, 0, ext, right) && Within(right, d.size) &&
            (NonEmpty(d.extents) ==> NonEmpty(right)) && used == Sum(right)
  {
    assert d.extents[..0] == [];
  }

  lemma DoneRight(bs: nat, d: Dentry, k: nat, ext: Extent, right: seq<Extent>, used: nat)
    requires 0 < bs && k < |d.extents| && Done(bs, d, k + 1, ext, right, used)
    ensures forall j :: k < j < |d.extents| ==> ext.fileoffset <= d.extents[j].fileoffset
    ensures Within(right, d.size) && (NonEmpty(d.extents) ==> NonEmpty(right))
  {
    hide Right;
  }

  /** `_ltfs_fsraw_add_extent_unlocked`. The reverse loop deletes, trims or splits the entries ext
      overlaps, until it finds the entry ext goes behind. It fails only if an entry has to be split and
      there is no memory for the second half, and then nothing has changed. */
  method AddExtent(bs: nat, d: Dentry, ext: Extent, canSplit: bool) returns (r: Dentry, ok: bool)
    requires 0 < bs && Ok(d)
    ensures ok <==> canSplit || !Splits(d.extents, ext)
    ensures ok ==> Added(bs, d, ext, r) && r.extents == Spliced(bs, d.extents, ext)
    ensures !ok ==> r == d
  {
    hide Done, Right, Added, Splits, Sorted, Sum, Within, Spliced, Placed;
    var l, end := d.extents, ext.End();
    var i, right, used: nat := |l|, [], d.realsize;
    DoneStart(bs, d, ext);
    assert l[..|l|] == l && Spliced(bs, l, ext) + [] == Spliced(bs, l, ext);
    while 0 < i
      invariant 0 <= i <= |l| && Done(bs, d, i, ext, right, used)
      invariant Spliced(bs, l[..i], ext) + right == Spliced(bs, l, ext)
    {
      var e := l[i - 1];
      DoneSums(bs, d, i - 1, ext, right, used);
      if ext.fileoffset <= e.fileoffset && end > e.fileoffset {
        DoneNext(bs, d, i - 1, ext, right, used);
        SplicedNext(bs, l, i - 1, ext, right);
        if e.End() <= end {
          SumNone();
          assert [] + right == right;
          used := used - e.bytecount;
        } else {
          SumOne(Trimmed(bs, e, end - e.fileoffset));
          right := [Trimmed(bs, e, end - e.fileoffset)] + right;
          used := used - (end - e.fileoffset);
        }
      } else if ext.fileoffset > e.fileoffset && ext.fileoffset < e.End() {
        r, ok := Inside(bs, d, i - 1, ext, canSplit, right, used);
        return;
      } else if ext.fileoffset >= e.End() {
        NoSplit(bs, d, i, ext, right, used);
        DoneRight(bs, d, i - 1, ext, right, used);
        DoneAfter(bs, d, i - 1, ext, right, used);
        SplicedHere(bs, l, i - 1, ext, right);
        r := FinishBehind(bs, d, i - 1, ext, right, used);
        return r, true;
      } else {
        DoneNext(bs, d, i - 1, ext, right, used);
        SplicedNext(bs, l, i - 1, ext, right);
        SumOne(e);
        right := [e] + right;
      }
      i := i - 1;
    }
    NoSplit(bs, d, 0, ext, right, used);
    SplicedFirst(bs, ext);
    DoneFirst(bs, d, ext, right, used);
    r := FinishFirst(bs, d, ext, right, used);
    ok := true;
  }

  lemma SplicedFirst(bs: nat, ext: Extent)
    requires 0 < bs
    ensures Spliced(bs, [], ext) == [ext]
  {
  }

  /** ext starts inside entry k: the entry is cut off there, or split in two. */
  method Inside(bs: nat, d: Dentry, k: nat, ext: Extent, canSplit: bool, right: seq<Extent>, used: nat)
    returns (r: Dentry, ok: bool)
    requires 0 < bs && Ok(d) && k < |d.extents| && Done(bs, d, k + 1, ext, right, used)
    requires d.extents[k].fileoffset < ext.fileoffset < d.extents[k].End()
    ensures ok <==> canSplit || !Splits(d.extents, ext)
    ensures ok ==> Added(bs, d, ext, r) && r.extents == Spliced(bs, d.extents[..k + 1], ext) + right
    ensures !ok ==> r == d
  {
    hide Right, Added, Spliced, Placed;
    var e, end := d.extents[k], ext.End();
    DoneSums(bs, d, k, ext, right, used);
    DoneBehind(bs, d, k, ext, right, used);
    SplicedHere(bs, d.extents, k, ext, right);
    if end >= e.End() {
      NoSplit(bs, d, k + 1, ext, right, used);
      assert [] + right == right;
      r := FinishBehind(bs, d, k, ext, right, used - (e.End() - ext.fileoffset));
      ok := true;
    } else if !canSplit {
      r, ok := d, false;
    } else {
      var split := Trimmed(bs, e, end - e.fileoffset);
      SumConcat([split], right);
      r := FinishBehind(bs, d, k, ext, [split] + right, used - ext.bytecount);
      ok := true;
    }
  }

  // ----- `ltfs_fsraw_truncate`

  ghost predicate Truncated(bs: nat, d: Dentry, len: nat, r: Dentry)
    requires 0 < bs
  {
    && Ok(r) && r.size == len && (NonEmpty(d.extents) ==> NonEmpty(r.extents))
    && forall x: nat :: MapAt(bs, r.extents, x) == if x < len then MapAt(bs, d.extents, x) else Unmapped
  }

  /** Where the reverse loop stands: everything from i on lies past the new end, except for a cut-off
      piece of entry i. */
  predicate Cutting(l: seq<Extent>, i: nat, len: nat, tail: seq<Extent>)
    requires i <= |l|
  {
    && (forall j :: i < j < |l| ==> len <= l[j].fileoffset)
    && if tail == [] then i < |l| ==> len <= l[i].fileoffset
       else i < |l| && l[i].fileoffset < len < l[i].End() && tail == [Ahead(l[i], len)]
  }

  lemma CutIsLeft(bs: nat, l: seq<Extent>, i: nat, len: nat, tail: seq<Extent>)
    requires 0 < bs && Sorted(l) && i <= |l| && Cutting(l, i, len, tail) &&
             (0 < i && tail == [] ==> l[i - 1].End() <= len)
    ensures Left(bs, l, len, l[..i] + tail)
  {
    if tail != [] {
      LeftPart(bs, l, i, len);
    } else if 0 < i {
      LeftPart(bs, l, i - 1, len);
      assert l[..i] + tail == l[..i - 1] + [l[i - 1]];
    } else {
      forall x: nat | x < len ensures MapAt(bs, l, x) == Unmapped { MapNone(bs, l, x); }
    }
  }

  lemma GrownIsLeft(bs: nat, d: Dentry, len: nat)
    requires 0 < bs && Ok(d) && d.size <= len
    ensures Left(bs, d.extents, len, d.extents)
  {
    forall x: nat | len <= x ensures MapAt(bs, d.extents, x) == Unmapped {
      forall i | 0 <= i < |d.extents| ensures !d.extents[i].Covers(x) { assert d.extents[i].End() <= d.size; }
      MapNone(bs, d.extents, x);
    }
  }

  lemma TruncatedBy(bs: nat, d: Dentry, i: nat, len: nat, tail: seq<Extent>, used: nat)
    requires 0 < bs && Ok(d) && i <= |d.extents| && Cutting(d.extents, i, len, tail) &&
             used == Sum(d.extents[..i]) + Sum(tail)
    requires 0 < i && tail == [] ==> d.extents[i - 1].End() <= len
    ensures Truncated(bs, d, len, Dentry(d.extents[..i] + tail, len, used))
  {
    CutIsLeft(bs, d.extents, i, len, tail);
    CutNonEmpty(d.extents, i, len, tail);
    SumConcat(d.extents[..i], tail);
    hide Cutting, NonEmpty, Sorted, Within, MapAt, Sum;
  }

  lemma CutNonEmpty(l: seq<Extent>, i: nat, len: nat, tail: seq<Extent>)
    requires i <= |l| && Cutting(l, i, len, tail)
    ensures NonEmpty(l) ==> NonEmpty(l[..i] + tail)
  {
  }

  method Truncate(bs: nat, d: Dentry, len: nat) returns (r: Dentry)
    requires 0 < bs && Ok(d)
    ensures Truncated(bs, d, len, r)
  {
    if d.size <= len {
      GrownIsLeft(bs, d, len);
      return d.(size := len);
    }
    var l := d.extents;
    var i, tail, used: nat := |l|, [], d.realsize;
    assert l[..|l|] == l;
    assert Cutting(l, i, len, tail);
    hide Sorted, Within, Truncated, Cutting, Sum;
    SumNone();
    while 0 < i
      invariant 0 <= i <= |l| && Cutting(l, i, len, tail) && used == Sum(l[..i]) + Sum(tail)
      decreases i
    {
      var e := l[i - 1];
      CutNext(l, i, len, tail);
      if e.fileoffset >= len || len == 0 {
        used := used - e.bytecount;
        i := i - 1;
      } else if e.End() > len {
        used := used - (e.End() - len);
        tail := [e.(bytecount := len - e.fileoffset)];
        i := i - 1;
      } else {
        break;
      }
    }
    TruncatedBy(bs, d, i, len, tail, used);
    r := Dentry(l[..i] + tail, len, used);
  }

  /** Once an entry has been cut off, the entry before it ends below the new length. */
  lemma CutNext(l: seq<Extent>, i: nat, len: nat, tail: seq<Extent>)
    requires Sorted(l) && 0 < i <= |l| && Cutting(l, i, len, tail)
    ensures var e := l[i - 1];
            && Sum(l[..i]) == Sum(l[..i - 1]) + e.bytecount
            && (e.fileoffset >= len ==> tail == [] && Cutting(l, i - 1, len, []))
            && (e.fileoffset < len < e.End() ==>
                  tail == [] && Cutting(l, i - 1, len, [Ahead(e, len)]) &&
                  Sum([Ahead(e, len)]) == len - e.fileoffset && Sum(tail) == 0)
  {
    CutTail(l[..i], i - 1);
    assert l[..i][..i - 1] == l[..i - 1] && l[..i][i..] == [];
  }
}
