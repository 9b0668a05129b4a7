/**
 The file name matcher of src/libltfs/index_criteria.c: "*" and "?" over names split into grapheme
 clusters, with a backtracking stack that never holds more than two positions.
 */
module Glob {

  /** A grapheme cluster. */
  type Cluster = string

  /** What a pattern means. */
  predicate Matches(p: seq<Cluster>, n: seq<Cluster>)
    decreases |p| + |n|
  {
    if p == [] then n == []
    else if p[0] == "*" then Matches(p[1..], n) || (n != [] && Matches(p, n[1..]))
    else n != [] && (p[0] == "?" || p[0] == n[0]) && Matches(p[1..], n[1..])
  }

  /** A remembered position: an asterisk stands before c, and cluster f was taken for c. */
  datatype Mark = Mark(c: nat, f: nat)

  /** The variables of the matcher. */
  datatype State = State(c: nat, f: nat, star: bool, stack: seq<Mark>) {
    function Top(): Mark
      requires stack != []
    {
      stack[|stack| - 1]
    }
  }

  predicate From(p: seq<Cluster>, n: seq<Cluster>, c: nat, f: nat)
    requires c <= |p| && f <= |n|
  {
    Matches(p[c..], n[f..])
  }

  /** The rest of the pattern, with an asterisk in front of it. */
  predicate StarFrom(p: seq<Cluster>, n: seq<Cluster>, c: nat, f: nat)
    requires c <= |p| && f <= |n|
    decreases |n| - f
  {
    From(p, n, c, f) || (f < |n| && StarFrom(p, n, c, f + 1))
  }

  predicate Takes(p: seq<Cluster>, n: seq<Cluster>, c: nat, f: nat)
    requires c < |p| && f < |n|
  {
    p[c] == "?" || p[c] == n[f]
  }

  lemma FromStep(p: seq<Cluster>, n: seq<Cluster>, c: nat, f: nat)
    requires c < |p| && f <= |n| && p[c] != "*"
    ensures From(p, n, c, f) <==> f < |n| && Takes(p, n, c, f) && From(p, n, c + 1, f + 1)
  {
    assert p[c..][1..] == p[c + 1..];
    if f < |n| { assert n[f..][1..] == n[f + 1..]; }
  }

  lemma {:induction false} FromStar(p: seq<Cluster>, n: seq<Cluster>, c: nat, f: nat)
    requires c < |p| && f <= |n| && p[c] == "*"
    ensures From(p, n, c, f) <==> StarFrom(p, n, c + 1, f)
    decreases |n| - f
  {
    assert p[c..][1..] == p[c + 1..];
    if f < |n| {
      assert n[f..][1..] == n[f + 1..];
      FromStar(p, n, c, f + 1);
    }
  }

  /** Two asterisks in a row are one. */
  lemma {:induction false} StarStar(p: seq<Cluster>, n: seq<Cluster>, c: nat, f: nat)
    requires c < |p| && f <= |n| && p[c] == "*"
    ensures StarFrom(p, n, c, f) <==> StarFrom(p, n, c + 1, f)
    decreases |n| - f
  {
    FromStar(p, n, c, f);
    if f < |n| { StarStar(p, n, c, f + 1); }
  }

  lemma {:induction false} StarLater(p: seq<Cluster>, n: seq<Cluster>, c: nat, f: nat, g: nat)
    requires c <= |p| && f <= g <= |n| && StarFrom(p, n, c, g)
    ensures StarFrom(p, n, c, f)
    decreases g - f
  {
    if f < g { StarLater(p, n, c, f + 1, g); }
  }

  lemma {:induction false} StarAtEnd(p: seq<Cluster>, n: seq<Cluster>, f: nat)
    requires f <= |n|
    ensures StarFrom(p, n, |p|, f)
    decreases |n| - f
  {
    assert p[|p|..] == [];
    if f < |n| { StarAtEnd(p, n, f + 1); } else { assert n[f..] == []; }
  }

  /** A stretch of pattern without asterisk takes exactly as many clusters as it is long. */
  predicate NoStar(p: seq<Cluster>, c: nat, d: nat) { forall i :: c <= i < d <= |p| ==> p[i] != "*" }

  lemma {:induction false} Stretch(p: seq<Cluster>, n: seq<Cluster>, c: nat, d: nat, f: nat)
    requires c <= d <= |p| && f <= |n| && NoStar(p, c, d) && From(p, n, c, f)
    ensures f + (d - c) <= |n| && From(p, n, d, f + (d - c))
    decreases d - c
  {
    if c < d {
      FromStep(p, n, c, f);
      Stretch(p, n, c + 1, d, f + 1);
    }
  }

  /** Going back to the last mark gains nothing once the next asterisk has been reached: whatever a
      later start would match, the new asterisk reaches as well. */
  lemma {:induction false} MarkUseless(p: seq<Cluster>, n: seq<Cluster>, c: nat, d: nat, g: nat, f: nat)
    requires c <= d < |p| && p[d] == "*" && NoStar(p, c, d) && f <= |n| && f <= g + (d - c) && g <= |n| &&
             StarFrom(p, n, c, g)
    ensures StarFrom(p, n, d + 1, f)
    decreases |n| - g
  {
    if From(p, n, c, g) {
      Stretch(p, n, c, d, g);
      FromStar(p, n, d, g + (d - c));
      StarLater(p, n, d + 1, f, g + (d - c));
    } else {
      MarkUseless(p, n, c, d, g + 1, f);
    }
  }

  // ----- the invariant

  predicate InRange(p: seq<Cluster>, n: seq<Cluster>, s: State) {
    && s.c <= |p| && s.f <= |n| && |s.stack| <= 2 && (s.star ==> s.c < |p|)
    && (forall i :: 0 <= i < |s.stack| ==> s.stack[i].c < |p| && s.stack[i].f < s.f)
    && (forall i, j :: 0 <= i < j < |s.stack| ==> s.stack[i].f < s.stack[j].f)
  }

  /** What is still to be matched from here, ignoring the stack. */
  predicate Current(p: seq<Cluster>, n: seq<Cluster>, s: State)
    requires InRange(p, n, s)
  {
    if s.star then StarFrom(p, n, s.c, s.f) else From(p, n, s.c, s.f)
  }

  /** What going back to a mark would try. */
  predicate Retry(p: seq<Cluster>, n: seq<Cluster>, m: Mark)
    requires m.c <= |p| && m.f < |n|
  {
    StarFrom(p, n, m.c, m.f + 1)
  }

  /** Since the newest mark, pattern and name have advanced in step. */
  predicate InStep(p: seq<Cluster>, s: State) {
    !s.star && s.stack != [] ==> s.Top().c <= s.c && s.c - s.Top().c == s.f - s.Top().f && NoStar(p, s.Top().c, s.c)
  }

  /** Nothing that can still be tried is a false match, and the newest mark is the only one that can
      still be needed. */
  predicate Inv(p: seq<Cluster>, n: seq<Cluster>, s: State) {
    && InRange(p, n, s) && InStep(p, s)
    && (Current(p, n, s) ==> Matches(p, n))
    && (forall i :: 0 <= i < |s.stack| ==> (Retry(p, n, s.stack[i]) ==> Matches(p, n)))
    && (Matches(p, n) ==> Current(p, n, s) || (!s.star && s.stack != [] && Retry(p, n, s.Top())))
  }

  // ----- the steps

  /** One asterisk of the pattern, not the last cluster. */
  lemma StarSeen(p: seq<Cluster>, n: seq<Cluster>, s: State)
    requires Inv(p, n, s) && s.c < |p| && p[s.c] == "*"
    ensures StarFrom(p, n, s.c + 1, s.f) <==> Matches(p, n)
    ensures s.c + 1 < |p| ==> Inv(p, n, s.(c := s.c + 1, star := true))
  {
    hide Matches, From, StarFrom;
    if s.star { StarStar(p, n, s.c, s.f); } else { FromStar(p, n, s.c, s.f); }
    if Matches(p, n) && !Current(p, n, s) {
      MarkUseless(p, n, s.Top().c, s.c, s.Top().f + 1, s.f);
    }
  }

  /** The cluster goes to the asterisk. */
  lemma Subsumed(p: seq<Cluster>, n: seq<Cluster>, s: State)
    requires Inv(p, n, s) && s.star && p[s.c] != "*" && s.f < |n| && !Takes(p, n, s.c, s.f)
    ensures Inv(p, n, s.(f := s.f + 1))
  {
    FromStep(p, n, s.c, s.f);
  }

  /** `_push_ustack`: a third mark replaces the second. */
  function Push(stack: seq<Mark>, m: Mark): seq<Mark> { if stack == [] then [m] else [stack[0], m] }

  lemma Marked(p: seq<Cluster>, n: seq<Cluster>, s: State)
    requires Inv(p, n, s) && s.star && p[s.c] != "*" && s.f < |n| && Takes(p, n, s.c, s.f)
    ensures Inv(p, n, State(s.c + 1, s.f + 1, false, Push(s.stack, Mark(s.c, s.f))))
  {
    FromStep(p, n, s.c, s.f);
  }

  lemma Taken(p: seq<Cluster>, n: seq<Cluster>, s: State)
    requires Inv(p, n, s) && !s.star && s.c < |p| && p[s.c] != "*" && s.f < |n| && Takes(p, n, s.c, s.f)
    ensures Inv(p, n, s.(c := s.c + 1, f := s.f + 1))
  {
    FromStep(p, n, s.c, s.f);
  }

  /** Nothing is left to try from here: back to the newest mark, or no match. */
  lemma Stuck(p: seq<Cluster>, n: seq<Cluster>, s: State)
    requires Inv(p, n, s) && !Current(p, n, s)
    ensures s.stack == [] ==> !Matches(p, n)
    ensures s.stack != [] ==> Inv(p, n, State(s.Top().c, s.Top().f + 1, true, s.stack[..|s.stack| - 1]))
  {
  }

  lemma NameDone(p: seq<Cluster>, n: seq<Cluster>, s: State)
    requires InRange(p, n, s) && s.c < |p| && p[s.c] != "*" && s.f == |n|
    ensures !Current(p, n, s)
  {
    FromStep(p, n, s.c, s.f);
  }

  lemma Mismatch(p: seq<Cluster>, n: seq<Cluster>, s: State)
    requires InRange(p, n, s) && !s.star && s.c < |p| && p[s.c] != "*" && s.f < |n| && !Takes(p, n, s.c, s.f)
    ensures !Current(p, n, s)
  {
    FromStep(p, n, s.c, s.f);
  }

  lemma PatternDone(p: seq<Cluster>, n: seq<Cluster>, s: State)
    requires InRange(p, n, s) && s.c == |p|
    ensures Current(p, n, s) <==> s.f == |n|
  {
    assert p[s.c..] == [];
  }

  // ----- the matcher

  /** How far the name has been used up for good: before the base mark, before the second mark, and by
      the current attempt. */
  function Base(s: State): nat { if s.stack == [] then s.f else s.stack[0].f }

  function Second(s: State): nat { if |s.stack| < 2 then s.f else s.stack[1].f }

  predicate NotBehind(s: State, t: State) {
    || Base(s) > Base(t)
    || (Base(s) == Base(t) &&
        (Second(s) > Second(t) ||
         (Second(s) == Second(t) && (s.f > t.f || (s.f == t.f && s.c >= t.c)))))
  }

  /** One turn of the inner loop behind the asterisks. */
  method Turn(p: seq<Cluster>, n: seq<Cluster>, s: State) returns (t: State, fail: bool)
    requires Inv(p, n, s) && s.c < |p| && p[s.c] != "*" && s.f < |n|
    ensures fail ==> !Matches(p, n)
    ensures !fail ==> Inv(p, n, t) && NotBehind(t, s) && !NotBehind(s, t)
  {
    hide Matches, From, StarFrom, Inv;
    Bounds(p, n, s);
    fail, t := false, s;
    if s.star {
      if Takes(p, n, s.c, s.f) {
        Marked(p, n, s);
        t := State(s.c + 1, s.f + 1, false, Push(s.stack, Mark(s.c, s.f)));
      } else {
        Subsumed(p, n, s);
        t := s.(f := s.f + 1);
      }
    } else if Takes(p, n, s.c, s.f) {
      Taken(p, n, s);
      t := s.(c := s.c + 1, f := s.f + 1);
    } else {
      Mismatch(p, n, s);
      t, fail := Back(p, n, s);
    }
  }

  lemma Bounds(p: seq<Cluster>, n: seq<Cluster>, s: State)
    requires Inv(p, n, s)
    ensures InRange(p, n, s) && Base(s) <= |n| && Second(s) <= |n|
  {
  }

  /** `_pop_ustack` and what follows it. */
  method Back(p: seq<Cluster>, n: seq<Cluster>, s: State) returns (t: State, fail: bool)
    requires Inv(p, n, s) && !Current(p, n, s)
    ensures fail ==> !Matches(p, n)
    ensures !fail ==> Inv(p, n, t) && NotBehind(t, s) && !NotBehind(s, t)
  {
    hide Matches, From, StarFrom, Inv, Current;
    Bounds(p, n, s);
    Stuck(p, n, s);
    fail, t := s.stack == [], s;
    if !fail {
      var m := s.Top();
      t := State(m.c, m.f + 1, true, s.stack[..|s.stack| - 1]);
    }
  }

  /** The loop over sequential asterisks. */
  method SkipStars(p: seq<Cluster>, n: seq<Cluster>, s: State) returns (t: State, accept: bool)
    requires Inv(p, n, s) && s.c < |p|
    ensures accept ==> Matches(p, n)
    ensures !accept ==> Inv(p, n, t) && s.c <= t.c < |p| && p[t.c] != "*" && t == s.(c := t.c, star := t.star)
  {
    hide Matches, From, StarFrom, Inv;
    t := s;
    while p[t.c] == "*"
      invariant s.c <= t.c < |p| && Inv(p, n, t) && t == s.(c := t.c, star := t.star)
      decreases |p| - t.c
    {
      StarSeen(p, n, t);
      if t.c + 1 == |p| {
        Bounds(p, n, t);
        StarAtEnd(p, n, t.f);
        return t, true;
      }
      t := t.(c := t.c + 1, star := true);
    }
    accept := false;
  }

  /** The inner loop: to the end of the pattern or of the name, or to a verdict. */
  method Advance(p: seq<Cluster>, n: seq<Cluster>, s: State) returns (t: State, done: bool, verdict: bool)
    requires Inv(p, n, s)
    ensures done ==> verdict == Matches(p, n)
    ensures !done ==> Inv(p, n, t) && NotBehind(t, s) && (t.c == |p| || (t.c < |p| && p[t.c] != "*" && t.f == |n|))
  {
    hide Matches, From, StarFrom, Inv;
    t, done, verdict := s, false, false;
    Bounds(p, n, s);
    while t.c < |p|
      invariant Inv(p, n, t) && NotBehind(t, s) && t.c <= |p| && t.f <= |n| && Base(t) <= |n| && Second(t) <= |n|
      decreases |n| - Base(t), |n| - Second(t), |n| - t.f, |p| - t.c
    {
      var u, accept := SkipStars(p, n, t);
      if accept { return t, true, true; }
      if u.f == |n| { return u, false, false; }
      var fail;
      t, fail := Turn(p, n, u);
      if fail { return t, true, false; }
      Bounds(p, n, t);
    }
  }

  /** `_matches_name_criteria_caseless` */
  method MatchesNameCriteria(p: seq<Cluster>, n: seq<Cluster>) returns (matches: bool)
    ensures matches == Matches(p, n)
  {
    if p == [] { return n == []; }
    var s := State(0, 0, false, []);
    Start(p, n);
    hide Matches, From, StarFrom, Inv, Current;
    while true
      invariant Inv(p, n, s) && Base(s) <= |n| && Second(s) <= |n| && s.f <= |n| && s.c <= |p|
      decreases |n| - Base(s), |n| - Second(s), |n| - s.f, |p| - s.c
    {
      var t, done, verdict := Advance(p, n, s);
      if done { return verdict; }
      Bounds(p, n, t);
      if t.c == |p| {
        PatternDone(p, n, t);
        if t.f == |n| {
          Accept(p, n, t);
          return true;
        }
      } else {
        NameDone(p, n, t);
      }
      var fail;
      s, fail := Back(p, n, t);
      if fail { return false; }
      Bounds(p, n, s);
    }
  }

  lemma Start(p: seq<Cluster>, n: seq<Cluster>)
    ensures Inv(p, n, State(0, 0, false, []))
  {
    assert p[0..] == p && n[0..] == n;
  }

  lemma Accept(p: seq<Cluster>, n: seq<Cluster>, s: State)
    requires Inv(p, n, s) && Current(p, n, s)
    ensures Matches(p, n)
  {
  }
}
