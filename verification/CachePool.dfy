/** The block pool of src/iosched/cache_manager.c: it grows by doubling and shrinks block by block. */
module CachePool {

  /** The capacity an empty pool grows to. */
  function NewSize(current: nat, max: nat): nat {
    if current * 2 < max then if current > 0 then current * 2 else max / 2 else max
  }

  function Min(a: nat, b: nat): nat { if a <= b then a else b }

  /** An empty pool below its maximum doubles, up to the maximum, and from nothing grows to half the maximum. It grows
      by at least one block, unless it is above the maximum or is to grow from nothing to one. */
  lemma GrowsExactly(current: nat, max: nat)
    requires current != max
    ensures NewSize(current, max) == if current == 0 then max / 2 else Min(current + current, max)
    ensures NewSize(current, max) > current <==> !(current > max || (current == 0 && max == 1))
    ensures NewSize(current, max) <= max
  {
    if current == 0 && max >= 2 { assert max / 2 >= 1; }
  }

  /** The settings under which the pool keeps its promises. */
  predicate Sane(initial: nat, max: nat) { initial <= max && (initial >= 1 || max >= 2) }

  datatype Op = Alloc(memory: nat) | Get(obj: nat) | Free(obj: nat)

  function Allocs(ops: seq<Op>): nat {
    if ops == [] then 0 else Allocs(ops[..|ops| - 1]) + if ops[|ops| - 1].Alloc? then 1 else 0
  }

  class Pool {
    const initial: nat
    const max: nat
    var current: nat
    /** Free objects, in list order. */
    var pool: seq<nat>
    /** Reference counts of the objects handed out. */
    var refs: map<nat, nat>
    /** Identity of the next object to be created. */
    var next: nat

    predicate Distinct()
      reads this
    {
      && (forall i, j :: 0 <= i < j < |pool| ==> pool[i] != pool[j])
      && (forall i :: 0 <= i < |pool| ==> pool[i] < next && pool[i] !in refs)
      && (forall o :: o in refs ==> o < next && refs[o] >= 1)
    }

    /** Free plus outstanding objects are the current capacity, which stays between the initial capacity
        and the larger of initial and maximum capacity. */
    predicate Valid()
      reads this
    {
      Distinct() && |pool| + |refs| == current && initial <= current && (current <= initial || current <= max)
    }

    /** `_cache_manager_create_object`, until the pool has n more objects or memory is used up. */
    method Create(n: nat, memory: nat) returns (made: nat)
      requires Distinct()
      modifies this
      ensures Distinct() && made == Min(n, memory)
      ensures |pool| == old(|pool|) + made && pool[..old(|pool|)] == old(pool)
      ensures refs == old(refs) && current == old(current)
    {
      made := 0;
      while made < n && made < memory
        invariant made <= n && made <= memory && Distinct() && refs == old(refs) && current == old(current)
        invariant |pool| == old(|pool|) + made && pool[..old(|pool|)] == old(pool)
      {
        pool := pool + [next];
        next := next + 1;
        made := made + 1;
      }
    }

    /** `cache_manager_init` */
    constructor (initial: nat, max: nat)
      ensures Valid() && this.initial == initial && this.max == max && |pool| == initial && refs == map[]
    {
      this.initial, this.max, this.current := initial, max, initial;
      pool, refs, next := [], map[], 0;
      new;
      var made := Create(initial, initial);
    }

    /** `cache_manager_has_room` */
    predicate HasRoom()
      reads this
    {
      !(pool == [] && current == max)
    }

    /** The pool would have to grow, but cannot. */
    predicate CannotGrow()
      reads this
    {
      pool == [] && (current > max || (current == 0 && max == 1))
    }

    /** `cache_manager_allocate_object`: it succeeds, given memory for one block, exactly if the pool has
        room and can grow where it must. The first free block is handed out; if there is none, the pool doubles as far
        as maximum and memory allow. */
    method Allocate(memory: nat) returns (obj: nat, ok: bool)
      requires Valid()
      modifies this
      ensures Valid() && ok == (old(HasRoom()) && !old(CannotGrow()) && (old(pool) == [] ==> memory > 0))
      ensures Sane(initial, max) && memory > 0 ==> ok == old(HasRoom())
      ensures ok ==> obj !in old(refs) && refs == old(refs)[obj := 1]
      ensures ok && old(pool) != [] ==> [obj] + pool == old(pool) && current == old(current)
      ensures ok && old(pool) == [] ==>
                var size := if old(current) == 0 then max / 2 else Min(old(current) + old(current), max);
                current == Min(size, old(current) + memory)
      ensures !ok ==> refs == old(refs) && pool == old(pool) && current == old(current)
    {
      if pool != [] {
        obj, ok := pool[0], true;
        pool := pool[1..];
        HandOut(refs, obj);
        refs := refs[obj := 1];
        return;
      }
      if current == max { return 0, false; }
      GrowsExactly(current, max);
      var size := NewSize(current, max);
      var made := Create(if size > current then size - current else 0, memory);
      current := current + made;
      if made == 0 { return 0, false; }
      obj, ok := pool[|pool| - 1], true;
      pool := pool[..|pool| - 1];
      HandOut(refs, obj);
      refs := refs[obj := 1];
    }

    /** `cache_manager_get_object` */
    method GetObject(obj: nat)
      requires Valid() && obj in refs
      modifies this
      ensures Valid() && refs == old(refs)[obj := old(refs)[obj] + 1] && pool == old(pool) && current == old(current)
    {
      Recount(refs, obj, refs[obj] + 1);
      refs := refs[obj := refs[obj] + 1];
    }

    /** `cache_manager_free_object`: the last reference gives the object back to the pool, or to the
        system while the pool is above its initial capacity. */
    method FreeObject(obj: nat)
      requires Valid() && obj in refs
      modifies this
      ensures Valid()
      ensures old(refs)[obj] > 1 ==>
                refs == old(refs)[obj := old(refs)[obj] - 1] && pool == old(pool) && current == old(current)
      ensures old(refs)[obj] == 1 ==> refs == old(refs) - {obj}
      ensures old(refs)[obj] == 1 && old(current) > initial ==> pool == old(pool) && current == old(current) - 1
      ensures old(refs)[obj] == 1 && old(current) <= initial ==> pool == old(pool) + [obj] && current == old(current)
    {
      if refs[obj] > 1 {
        Recount(refs, obj, refs[obj] - 1);
        refs := refs[obj := refs[obj] - 1];
        return;
      }
      TakeBack(refs, obj);
      refs := refs - {obj};
      if current > initial {
        current := current - 1;
      } else {
        pool := pool + [obj];
      }
    }

    /** Any sequence of calls: as long as there is memory, an allocation succeeds exactly if the pool says
        it has room. */
    method Run(ops: seq<Op>) returns (room: seq<bool>, got: seq<bool>)
      requires Valid() && Sane(initial, max)
      modifies this
      ensures Valid() && initial <= current <= max && |room| == |got| == Allocs(ops)
      ensures (forall i :: 0 <= i < |ops| && ops[i].Alloc? ==> ops[i].memory > 0) ==> room == got
    {
      room, got := [], [];
      for k := 0 to |ops|
        invariant Valid() && |room| == |got| == Allocs(ops[..k])
        invariant (forall i :: 0 <= i < |ops| && ops[i].Alloc? ==> ops[i].memory > 0) ==> room == got
      {
        assert ops[..k + 1][..k] == ops[..k];
        match ops[k]
        case Alloc(memory) =>
          var r := HasRoom();
          var obj, ok := Allocate(memory);
          room, got := room + [r], got + [ok];
        case Get(obj) =>
          if obj in refs { GetObject(obj); }
        case Free(obj) =>
          if obj in refs { FreeObject(obj); }
      }
      assert ops[..|ops|] == ops;
    }
  }

  lemma HandOut(m: map<nat, nat>, k: nat)
    requires k !in m
    ensures |m[k := 1]| == |m| + 1
  {
    assert m[k := 1].Keys == m.Keys + {k};
  }

  lemma Recount(m: map<nat, nat>, k: nat, v: nat)
    requires k in m
    ensures |m[k := v]| == |m|
  {
    assert m[k := v].Keys == m.Keys;
  }

  lemma TakeBack(m: map<nat, nat>, k: nat)
    requires k in m
    ensures |m - {k}| == |m| - 1
  {
    assert (m - {k}).Keys == m.Keys - {k};
  }
}
