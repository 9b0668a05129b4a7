/**
 A run of two writes in which the second one is not read back. Cache blocks hold four bytes, and
 the file has two full blocks of zeros waiting to be copied to the index partition.
 */
module WriteExample {
  import opened Bytes
  import opened Requests
  import opened Cells
  import opened WriteProofs
  import opened WriteTheorem

  const BLOCKS: seq<Req> := [Req(0, [0, 0, 0, 0], true), Req(4, [0, 0, 0, 0], true)]

  /** The list after writing 9 at offset 1. */
  const PIECES: seq<Req> := [Req(0, [0], true), Req(1, [9], false), Req(2, [0, 0], true), Req(4, [0, 0, 0, 0], true)]

  /** The list after writing 7 at offset 4. */
  const BROKEN: seq<Req> :=
    [Req(0, [0], true), Req(1, [9], false), Req(2, [0, 0, 0, 0], true), Req(4, [7], false), Req(6, [0, 0], true)]

  lemma FirstSplit()
    ensures Visit(4, Walk(BLOCKS, 0, false, 1, [9], false, 2)) ==
            Retry(Walk([PIECES[0], PIECES[2], PIECES[3]], 1, true, 1, [9], false, 1))
  {
    var q := BLOCKS[0];
    assert q.data[..1] == [0] && q.data[2..] == [0, 0];
    assert SplitInTwo(BLOCKS, 0, PIECES[0], PIECES[2]) == [PIECES[0], PIECES[2], PIECES[3]];
  }

  lemma FirstInsert()
    ensures Visit(4, Walk([PIECES[0], PIECES[2], PIECES[3]], 1, true, 1, [9], false, 1)) ==
            Leave(Outcome(Walk(PIECES, 3, true, 2, [], false, 0), Finished))
  {
    var m := Walk([PIECES[0], PIECES[2], PIECES[3]], 1, true, 1, [9], false, 1);
    assert Chunk(4, 1, [9]).data == [9];
    assert Inserted(4, m).l == PIECES && Inserted(4, m).buf == [];
    assert InsertRun(4, m, 2) == Outcome(Walk(PIECES, 2, true, 2, [], false, 0), EndOfList);
  }

  lemma SecondMerge()
    ensures Visit(4, Walk(PIECES, 3, true, 4, [7], false, 1)) ==
            Retry(Walk([BROKEN[0], BROKEN[1], BROKEN[2], BROKEN[4]], 3, true, 4, [7], false, 1))
  {
    assert Moved(4, PIECES[2], PIECES[3]) == [0, 0];
    assert Taker(4, PIECES[2], PIECES[3]).data == [0, 0, 0, 0] && PIECES[3].data[2..] == [0, 0];
    assert Merge(4, PIECES, 3).l == [BROKEN[0], BROKEN[1], BROKEN[2], BROKEN[4]];
  }

  lemma SecondInsert()
    ensures Visit(4, Walk([BROKEN[0], BROKEN[1], BROKEN[2], BROKEN[4]], 3, true, 4, [7], false, 1)) ==
            Leave(Outcome(Walk(BROKEN, 5, true, 5, [], false, 0), Finished))
  {
    var m := Walk([BROKEN[0], BROKEN[1], BROKEN[2], BROKEN[4]], 3, true, 4, [7], false, 1);
    assert Chunk(4, 4, [7]).data == [7];
    assert Inserted(4, m).l == BROKEN && Inserted(4, m).buf == [];
    assert InsertRun(4, m, 6) == Outcome(Walk(BROKEN, 4, true, 5, [], false, 0), EndOfList);
  }

  lemma FirstWrite()
    ensures Write(4, Walk(BLOCKS, 0, false, 1, [9], false, 2)) ==
            Outcome(Walk(PIECES, 3, true, 2, [], false, 0), Finished)
  {
    FirstSplit();
    FirstInsert();
    hide Visit;
  }

  lemma SecondWrite()
    ensures Write(4, Walk(PIECES, 0, false, 4, [7], false, 1)) ==
            Outcome(Walk(BROKEN, 5, true, 5, [], false, 0), Finished)
  {
    var a := Walk(PIECES, 0, false, 4, [7], false, 1);
    SkipTo(4, a, 2);
    ClashMeet(4, a.(i := 2));
    SecondMerge();
    SecondInsert();
    hide Visit;
    PassIsResume(4, Walk(PIECES, 3, true, 4, [7], false, 1));
  }

  /** Both writes report success; the first is right, the second leaves the old byte in front. */
  lemma SecondWriteLost()
    ensures WellFormed(BLOCKS, 4) && WellFormed(PIECES, 4) && !Ordered(BROKEN)
    ensures Write(4, Walk(BLOCKS, 0, false, 1, [9], false, 2)).w.l == PIECES
    ensures Write(4, Walk(PIECES, 0, false, 4, [7], false, 1)).w.l == BROKEN
    ensures NoClash(4, BLOCKS, 1) && Clash(4, PIECES, 2, 4)
    ensures CellAt(PIECES, 1) == Held(9, false) && CellAt(BROKEN, 4) == Held(0, true)
  {
    FirstWrite();
    SecondWrite();
    hide Write;
    CellCutAt(BROKEN, 2, 4);
    CellHole(BROKEN[..2], 4);
    CellCutAt(PIECES, 1, 1);
    CellHole(PIECES[..1], 1);
    assert BROKEN[2].End() > BROKEN[3].offset;
  }
}
