/** Path names as the incremental journal compares them (`_is_same_or_under`, strcmp in `_by_path`). */
module Paths {

  /** A path as the list of its components; the root directory is the empty list. */
  type Path = seq<string>

  predicate NameOk(n: string) { n != "" && '/' !in n }

  predicate PathOk(p: Path) { forall i :: 0 <= i < |p| ==> NameOk(p[i]) }

  /** x is d or lies below it. */
  predicate Under(x: Path, d: Path) { d <= x }

  /** The full path as a string. */
  function Str(p: Path): string { if p == [] then "" else "/" + p[0] + Str(p[1..]) }

  /** "%s/%s" in `incj_create` */
  lemma {:induction false} StrSnoc(p: Path, n: string)
    ensures Str(p + [n]) == Str(p) + "/" + n
  {
    if p == [] {
      assert p + [n] == [n];
    } else {
      StrSnoc(p[1..], n);
      assert (p + [n])[1..] == p[1..] + [n];
    }
  }

  /** `_is_same_or_under`: strncmp over the length of dir, then the character behind it. */
  predicate IsSameOrUnder(path: string, dir: string) {
    dir <= path && (|path| == |dir| || path[|dir|] == '/')
  }

  lemma Peel(n: string, a: string, b: string)
    ensures IsSameOrUnder("/" + n + a, "/" + n + b) <==> IsSameOrUnder(a, b)
  {
    var x, y, h := "/" + n + a, "/" + n + b, "/" + n;
    assert x == h + a && y == h + b;
    if b <= a { assert y <= x; }
    if y <= x {
      assert forall i :: 0 <= i < |b| ==> b[i] == y[|h| + i] && a[i] == x[|h| + i];
    }
  }

  /** Different first components cannot be confused, not even if one name starts with the other. */
  lemma Differ(n: string, m: string, a: string, b: string)
    requires NameOk(n) && NameOk(m) && n != m
    requires a == "" || a[0] == '/'
    requires b == "" || b[0] == '/'
    ensures !IsSameOrUnder("/" + n + a, "/" + m + b)
  {
    var x, y := "/" + n + a, "/" + m + b;
    if |m| < |n| {
      assert x[1 + |m|] == n[|m|] && (b != "" ==> y[1 + |m|] == '/');
    } else if |n| < |m| {
      assert y[1 + |n|] == m[|n|] && (a != "" ==> x[1 + |n|] == '/');
    } else {
      var i :| 0 <= i < |n| && n[i] != m[i];
      assert x[1 + i] == n[i] && y[1 + i] == m[i];
    }
  }

  lemma StrStart(p: Path)
    ensures Str(p) == "" || Str(p)[0] == '/'
    ensures p != [] ==> Str(p) != ""
  {
  }

  /** The string test says exactly that one path is a prefix of the other, component by component. */
  lemma {:induction false} SameOrUnderIsPrefix(p: Path, d: Path)
    requires PathOk(p) && PathOk(d)
    ensures IsSameOrUnder(Str(p), Str(d)) <==> Under(p, d)
    decreases |p|
  {
    StrStart(p);
    StrStart(d);
    if d != [] && p != [] {
      StrStart(p[1..]);
      StrStart(d[1..]);
      if p[0] == d[0] {
        SameOrUnderIsPrefix(p[1..], d[1..]);
        Peel(p[0], Str(p[1..]), Str(d[1..]));
        assert d <= p <==> d[1..] <= p[1..] by {
          if d[1..] <= p[1..] { assert d == [d[0]] + d[1..] && p == [p[0]] + p[1..]; }
        }
      } else {
        Differ(p[0], d[0], Str(p[1..]), Str(d[1..]));
      }
    }
  }

  /** strcmp(a, b) < 0 */
  predicate Less(a: string, b: string) {
    b != "" && (a == "" || a[0] < b[0] || (a[0] == b[0] && Less(a[1..], b[1..])))
  }

  lemma {:induction false} LessPrefix(a: string, b: string)
    requires a < b
    ensures Less(a, b) && !Less(b, a)
    decreases |a|
  {
    if a != "" { LessPrefix(a[1..], b[1..]); }
  }

  lemma {:induction false} StrPrefix(p: Path, q: Path)
    requires p <= q
    ensures Str(p) <= Str(q)
    decreases |p|
  {
    if p != [] { StrPrefix(p[1..], q[1..]); }
  }

  lemma {:induction false} StrLonger(p: Path, q: Path)
    requires p <= q && p != q
    ensures Str(p) < Str(q)
    decreases |p|
  {
    StrPrefix(p, q);
    if p == [] {
      StrStart(q);
    } else {
      StrLonger(p[1..], q[1..]);
    }
  }

  /** A directory sorts before everything in it. */
  lemma ParentFirst(p: Path, q: Path)
    requires Under(q, p) && p != q
    ensures Less(Str(p), Str(q)) && !Less(Str(q), Str(p))
  {
    StrLonger(p, q);
    LessPrefix(Str(p), Str(q));
  }

  lemma {:induction false} LessIrreflexive(a: string)
    ensures !Less(a, a)
  {
    if a != "" { LessIrreflexive(a[1..]); }
  }

  /** Two ancestors of one path are comparable. */
  lemma Comparable(a: Path, b: Path, x: Path)
    requires Under(x, a) && Under(x, b)
    ensures Under(b, a) || Under(a, b)
  {
    assert a == x[..|a|] && b == x[..|b|];
  }

  lemma UnderTrans(x: Path, b: Path, a: Path)
    requires Under(x, b) && Under(b, a)
    ensures Under(x, a)
  {
  }

  lemma UnderSelf(x: Path)
    ensures Under(x, x)
  {
  }

  lemma UnderBoth(x: Path, a: Path)
    requires Under(x, a) && Under(a, x)
    ensures x == a
  {
  }

  /** What lies below a path other than the path itself lies below it through its parent. */
  lemma UnderParent(x: Path, a: Path)
    requires x != []
    ensures Under(Parent(x), a) ==> Under(x, a) && x != a
    ensures Under(x, a) && x != a ==> Under(Parent(x), a)
  {
  }

  function Parent(p: Path): Path
    requires p != []
  {
    p[..|p| - 1]
  }
}
