/** A run in which nothing but the precedence of compactL0 is at fault: the older of two flushed values
    wins the merge. */
module StaleMerge {
  import opened Prelude
  import opened Keys
  import opened Tables
  import opened Compaction
  import opened LevelCompaction
  import opened Writes
  import opened EngineMachine
  import opened EngineInvariant
  import W = SnapshotWindow

  const NewerWrite := Writes.Record([1], Some([2]))
  const NewMem: Mem := map[[1] := Some([2])]
  const NewerTable := Table(2, [Entry([1], Some([2]))])
  const StaleTable := Table(3, [Entry([1], Some([1]))])

  /** One key written and flushed twice, and the L0 compaction after that. */
  const StaleSteps: seq<Step> := [
    Write([W.FirstWrite]), Freeze, FlushList(W.FirstTable), FlushAppend, FlushRemove, FlushPurge,
    Write([NewerWrite]), Freeze, FlushList(NewerTable), FlushAppend, FlushRemove, FlushPurge,
    StartL0([1], [1], [StaleTable]), Install]

  // The engines between these steps, from the seventh on.
  const OneFlushed: seq<Level> := [[W.FirstTable], []]
  const TwoFlushed: seq<Level> := [[W.FirstTable, NewerTable], []]
  const TwoLogs := [WalFile(2, [NewerWrite]), WalFile(3, [])]
  const G7 := Engine([WalFile(2, [NewerWrite])], NewMem, [], OneFlushed, OneFlushed, 2, Resting, NoJob)
  const G8 := Engine(TwoLogs, map[], [Frozen(NewMem, 2)], OneFlushed, OneFlushed, 2, Resting, NoJob)
  const G9 := Engine(TwoLogs, map[], [Frozen(NewMem, 2)], OneFlushed, TwoFlushed, 3, Listed(NewerTable), NoJob)
  const G10 := Engine(TwoLogs, map[], [Frozen(NewMem, 2)], TwoFlushed, TwoFlushed, 3, Appended, NoJob)
  const G11 := Engine(TwoLogs, map[], [], TwoFlushed, TwoFlushed, 3, Removed(2), NoJob)
  const G12 := Engine([WalFile(3, [])], map[], [], TwoFlushed, TwoFlushed, 3, Resting, NoJob)
  const StaleJob := L0Job(2, {1, 2}, [1], [1], [StaleTable])
  const G13 := Engine([WalFile(3, [])], map[], [], TwoFlushed, TwoFlushed, 4, Resting, StaleJob)
  const G14 := Engine([WalFile(3, [])], map[], [], [[], [StaleTable]], [[], [StaleTable]], 4, Resting, NoJob)

  const StaleRun: seq<Engine> :=
    [W.E0, W.E1, W.E2, W.E3, W.E4, W.E5, W.E6, G7, G8, G9, G10, G11, G12, G13, G14]

  lemma {:induction false} NewerWritten()
    ensures W.Goes(W.E6, StaleSteps[6], G7) && W.Goes(G7, StaleSteps[7], G8)
  {
    W.OneRecord(NewerWrite);
    assert [] + [NewerWrite] == [NewerWrite];
    var d6 := Do(W.E6, StaleSteps[6]);
    assert d6.wal == G7.wal;
    assert d6.active == G7.active;
    var d7 := Do(G7, StaleSteps[7]);
    assert d7.wal == G8.wal;
    assert d7.imms == G8.imms;
  }

  lemma {:induction false} NewerListed()
    ensures W.Goes(G8, StaleSteps[8], G9) && W.Goes(G9, StaleSteps[9], G10)
  {
    W.OneEntryTable(2, [1], [2], NewMem);
    var d8 := Do(G8, StaleSteps[8]);
    assert d8.listed[0] == G9.listed[0];
    assert d8.listed == G9.listed;
    var d9 := Do(G9, StaleSteps[9]);
    assert d9.levels[0] == G10.levels[0];
    assert d9.levels == G10.levels;
  }

  lemma {:induction false} NewerPurged()
    ensures W.Goes(G10, StaleSteps[10], G11) && W.Goes(G11, StaleSteps[11], G12)
  {
    BeyondAppend([G11.wal[0]], [G11.wal[1]], 2);
    var d10 := Do(G10, StaleSteps[10]);
    assert d10.imms == G11.imms;
    var d11 := Do(G11, StaleSteps[11]);
    assert d11.wal == G12.wal;
  }

  /** The merge as the code makes it: the oldest file first. */
  lemma {:induction false} OldestWins()
    ensures MergesDown(TwoFlushed[0], [], [1], [1], [StaleTable])
  {
    var t1, t2 := W.FirstTable, NewerTable;
    var outs := [StaleTable];
    assert Overlapping([], [1], [1]) == [];
    assert outs[1..] == [] && Flat([]) == [];
    assert Flat(outs) == StaleTable.entries + [] == t1.entries;
    forall q
      ensures Hit(Flat(outs), q) == FirstHit(Runs([t1, t2]) + Runs([]), q)
    {
      assert Runs([t1, t2]) + Runs([]) == [t1.entries, t2.entries];
      assert [t1.entries, t2.entries][1..] == [t2.entries] && [t2.entries][1..] == [];
      assert FirstHit([t2.entries], q) == Hit(t2.entries, q);
      assert t1.entries[1..] == [] && t2.entries[1..] == [];
      assert Hit([], q).None?;
    }
  }

  lemma {:induction false} MergeStarts()
    ensures W.Goes(G12, StaleSteps[12], G13)
  {
    OldestWins();
    hide MergesDown;
    assert W.FirstTable in G12.listed[0] && NewerTable in G12.listed[0];
    assert Nums(G12.listed[0]) == {1, 2};
    assert [StaleTable][1..] == [] && NumAfter([], 3) == 3;
    var d := Do(G12, StaleSteps[12]);
    assert d.nextNum == G13.nextNum;
    assert d.job == G13.job;
  }

  lemma {:induction false} MergeInstalls()
    ensures W.Goes(G13, StaleSteps[13], G14)
  {
    var two := TwoFlushed[0];
    assert two[..2] == two;
    assert W.FirstTable in two && NewerTable in two;
    assert Nums(two) == {1, 2};
    WithoutFirst(two, 2, {1, 2});
    assert Overlapping([], [1], [1]) == [] && Nums([]) == {};
    assert Pushed([], [1], [1], [StaleTable]) == [StaleTable];
    var d := Do(G13, StaleSteps[13]);
    assert d.levels[0] == G14.levels[0];
    assert d.levels == G14.levels;
    assert d.listed == G14.listed;
  }

  lemma {:induction false} StaleRunIsRun()
    ensures W.IsAnyRun(StaleRun, StaleSteps)
  {
    hide Enabled;
    hide Do;
    assert Init(StaleRun[0]);
    W.FirstWritten();
    W.FirstListed();
    W.FirstPurged();
    NewerWritten();
    NewerListed();
    NewerPurged();
    MergeStarts();
    MergeInstalls();
    forall i | 0 <= i < |StaleSteps|
      ensures W.Goes(StaleRun[i], StaleSteps[i], StaleRun[i + 1])
    {
      assert i < 6 ==> StaleSteps[i] == W.LossySteps[i];
    }
  }

  lemma {:induction false} StaleWrites()
    ensures AllWrites(StaleSteps) == [W.FirstWrite, NewerWrite]
  {
    hide AllWrites;
    W.TwoWrites(StaleSteps, 6, [W.FirstWrite], [NewerWrite], 14);
    assert StaleSteps[..14] == StaleSteps;
  }

  lemma {:induction false} ReadsAroundTheMerge()
    ensures EngineHit(G13, [1]) == Some(Some([2])) && EngineHit(G14, [1]) == Some(Some([1]))
    ensures !OldestAgrees(G13.levels, 2)
  {
    hide LevelHit;
    var k: Key := [1];
    var two := TwoFlushed[0];
    assert two[2..] == [] && two[..2] == two && Reversed<Table>([]) == [];
    assert LevelHit([], k).None? by { LevelMiss([], k); }
    NewestFirst(two, 1, k);
    assert two[1..] == [NewerTable] && Reversed([NewerTable]) == [NewerTable];
    One(NewerTable, k);
    One(StaleTable, k);
    OldestSays(k);
    assert G14.levels[1..][0] == [StaleTable];
    assert LevelHit(two, k) != LevelHit(Reversed(two), k);
  }

  lemma {:induction false} OldestSays(k: Key)
    requires k == [1]
    ensures LevelHit(TwoFlushed[0], k) == Some(Some([1]))
  {
    assert Runs(TwoFlushed[0])[0] == W.FirstTable.entries;
  }

  /** A run whose only fault is the install of an L0 compaction: the value written second is read before
      it, and the one written first after it. */
  lemma {:induction false} StaleMergeLosesAWrite()
    ensures W.IsAnyRun(StaleRun, StaleSteps)
    ensures forall i :: 0 <= i < 14 ==> (Benign(StaleRun[i], StaleSteps[i]) <==> i != 13)
    ensures EngineHit(StaleRun[13], [1]) == Some(Some([2])) == Last(AllWrites(StaleSteps), [1])
    ensures EngineHit(StaleRun[14], [1]) == Some(Some([1]))
  {
    hide W.IsAnyRun;
    hide AllWrites;
    hide EngineHit;
    hide OldestAgrees;
    StaleRunIsRun();
    StaleWrites();
    ReadsAroundTheMerge();
  }
}
