/** What a compaction does that takes its L0 snapshot while a flush is between its manifest record
    and its reader: the manifest forgets the table in the window, the readers do not. */
module SnapshotWindow {
  import opened Prelude
  import opened Keys
  import opened Tables
  import opened Compaction
  import opened LevelCompaction
  import opened Writes
  import opened EngineMachine
  import opened EngineInvariant
  import opened EngineRefinement

  /** The manifest's L0 and the readers' L0 are the same files exactly when no flush is between its
      manifest record and its reader. */
  lemma {:induction false} SnapshotAligned(e: Engine, h: Trace)
    requires Inv(e, h)
    ensures Nums(e.listed[0]) == Nums(e.levels[0]) <==> !e.stage.Listed?
  {
    hide MemsOk;
    hide StoreOk;
    hide WalOk;
    hide JobOk;
    if e.stage.Listed? {
      var t := e.stage.table;
      assert t in e.listed[0];
      assert t.num in Nums(e.listed[0]);
      forall u | u in e.levels[0]
        ensures u.num != t.num
      {
        var i :| 0 <= i < |e.levels[0]| && e.levels[0][i] == u;
        assert e.listed[0][i] == u && e.listed[0][|e.levels[0]|] == t;
      }
    }
  }

  // ---------- before the install ----------

  /** The engine as it would be had the snapshot of the manifest been that of the readers. */
  ghost function Aligned(e: Engine): (r: Engine)
    requires e.job.L0Job? && |e.listed| > 0 && e.job.count <= |e.listed[0]|
  {
    e.(job := e.job.(metas := Nums(e.listed[0][..e.job.count])))
  }

  /** The compaction will remove `t` from the manifest without having merged it. */
  ghost predicate Pending(e: Engine, h: Trace, t: Table)
  {
    && e.job.L0Job? && |e.listed| > 0 && e.job.count < |e.listed[0]|
    && e.listed[0][e.job.count] == t
    && e.job.metas == Nums(e.listed[0][..e.job.count + 1])
    && Inv(Aligned(e), h)
  }

  lemma {:induction false} SnapshotTaken(e: Engine, h: Trace, step: Step)
    requires Inv(e, h) && e.stage.Listed? && step.StartL0? && Enabled(e, step)
    ensures Pending(Do(e, step), h, e.stage.table)
  {
    hide StoreHit;
    hide MergesDown;
    hide Chron;
    hide L0Ok;
    hide SaysLast;
    hide WalOk;
    var e' := Do(e, step);
    var n := |e.levels[0]|;
    assert e.levels[0][..n] == e.levels[0] && e.listed[0][..n] == e.levels[0];
    assert e.listed[0][..n + 1] == e.listed[0];
    StartShape(e, step);
    WalFields(e, Aligned(e'), h);
  }

  /** Until the install everything goes on as if the snapshot had been aligned. */
  lemma {:induction false} PendingStep(e: Engine, h: Trace, t: Table, step: Step)
    requires Pending(e, h, t) && Enabled(e, step) && !step.Install? && !step.Crash?
    ensures Pending(Do(e, step), After(e, h, step), t)
    ensures After(e, h, step).logged == h.logged + Adds(step)
  {
    hide Inv;
    hide MergesDown;
    var a := Aligned(e);
    StepInv(a, h, step);
    var e' := Do(e, step);
    var n := e.job.count;
    assert e'.listed[0][..n] == e.listed[0][..n] && e'.listed[0][..n + 1] == e.listed[0][..n + 1];
    assert Aligned(e') == Do(a, step);
    assert After(e, h, step) == After(a, h, step);
  }

  // ---------- after the install ----------

  /** The engine as it would be had the manifest not forgotten `t`, the oldest L0 file by now. */
  ghost function Remembered(e: Engine, t: Table): (r: Engine)
    requires |e.listed| > 0
  {
    e.(listed := e.listed[0 := [t] + e.listed[0]],
       job := if e.job.L0Job? then e.job.(metas := e.job.metas + {t.num}) else e.job)
  }

  ghost predicate Forgot(e: Engine, h: Trace, t: Table)
  {
    |e.listed| > 0 && Inv(Remembered(e, t), h)
  }

  lemma {:induction false} InstallForgets(e: Engine, h: Trace, t: Table)
    requires Pending(e, h, t) && Enabled(e, Install) && Benign(e, Install)
    ensures Forgot(Do(e, Install), h, t)
  {
    hide Inv;
    hide MergesDown;
    hide OldestAgrees;
    hide Installed;
    var a := Aligned(e);
    StepInv(a, h, Install);
    DistinctListed(a, h);
    InstallBoth(e, t);
  }

  lemma {:induction false} InstallBoth(e: Engine, t: Table)
    requires e.job.L0Job? && |e.levels| >= 2 && |e.listed| >= 2 && e.job.count <= |e.levels[0]|
    requires e.job.count < |e.listed[0]| && e.listed[0][e.job.count] == t && DistinctNums(e.listed[0])
    requires e.job.metas == Nums(e.listed[0][..e.job.count + 1])
    ensures Installed(e).job.NoJob? && |Installed(e).listed| > 0
    ensures Remembered(Installed(e), t) == Installed(Aligned(e))
  {
    hide Without;
    hide Nums;
    hide DistinctNums;
    hide Pushed;
    var n := e.job.count;
    NewerRemain(e.listed[0], n);
    NewerRemain(e.listed[0], n + 1);
    assert e.listed[0][n..] == [t] + e.listed[0][n + 1..];
  }

  lemma {:induction false} DistinctListed(e: Engine, h: Trace)
    requires Inv(e, h)
    ensures |e.levels| >= 2 && |e.listed| >= 2 && DistinctNums(e.listed[0])
  {
    hide LevelOk;
    hide StoreOk;
    hide MemsOk;
    hide TraceOk;
    hide WalOk;
    hide JobOk;
  }

  /** Until the next L0 compaction is installed everything goes on as if the table were listed. */
  lemma {:induction false} ForgotStep(e: Engine, h: Trace, t: Table, step: Step)
    requires Forgot(e, h, t) && Enabled(e, step) && Benign(e, step) && !step.Crash?
    requires !(step.Install? && e.job.L0Job?)
    ensures Forgot(Do(e, step), After(e, h, step), t)
    ensures After(e, h, step).logged == h.logged + Adds(step)
  {
    hide Inv;
    hide MergesDown;
    hide LevelCompacted;
    hide OldestAgrees;
    var m := Remembered(e, t);
    StepInv(m, h, step);
    var e' := Do(e, step);
    if step.Install? {
      RememberedInstall(e, t);
    } else {
      if step.FlushList? {
        assert [t] + (e.listed[0] + [step.table]) == ([t] + e.listed[0]) + [step.table];
      } else if step.StartL0? {
        NumsWith(t, e.listed[0]);
      }
      assert Remembered(e', t) == Do(m, step);
    }
    assert After(e, h, step) == After(m, h, step);
  }

  lemma {:induction false} NumsWith(t: Table, ts: Level)
    ensures Nums([t] + ts) == Nums(ts) + {t.num}
  {
    forall n | n in Nums(ts) + {t.num}
      ensures n in Nums([t] + ts)
    {
      if n == t.num {
        assert t in [t] + ts;
      } else {
        var u :| u in ts && u.num == n;
        assert u in [t] + ts;
      }
    }
  }

  lemma {:induction false} RememberedInstall(e: Engine, t: Table)
    requires |e.levels| >= 2 && |e.listed| >= 2 && !e.job.L0Job?
    ensures |Installed(e).listed| > 0 && Remembered(Installed(e), t) == Installed(Remembered(e, t))
  {
    hide Pushed;
    if e.job.LevelJob? {
      var l := e.job.level;
      assert 1 <= l < |e.listed| ==> Remembered(e, t).listed[l] == e.listed[l];
    }
  }

  /** The next L0 compaction has the forgotten table among its inputs, since it is still read, and lists
      what it merged: from its install on nothing is missing. */
  lemma {:induction false} NextInstallHeals(e: Engine, h: Trace, t: Table)
    requires Forgot(e, h, t) && Enabled(e, Install) && Benign(e, Install) && e.job.L0Job?
    ensures Inv(Do(e, Install), h)
  {
    hide Inv;
    hide MergesDown;
    hide OldestAgrees;
    hide Installed;
    var m := Remembered(e, t);
    StepInv(m, h, Install);
    DistinctListed(m, h);
    InstallSame(e, t);
  }

  lemma {:induction false} InstallSame(e: Engine, t: Table)
    requires e.job.L0Job? && |e.levels| >= 2 && |e.listed| >= 2 && e.job.count <= |e.levels[0]|
    requires DistinctNums([t] + e.listed[0])
    ensures Installed(Remembered(e, t)) == Installed(e)
  {
    hide Pushed;
    var m := Remembered(e, t);
    assert m.listed[0][1..] == e.listed[0];
    forall u | u in e.listed[0]
      ensures u.num != t.num
    {
      var i :| 0 <= i < |e.listed[0]| && e.listed[0][i] == u;
      assert m.listed[0][0] == t && m.listed[0][i + 1] == u;
    }
    hide DistinctNums;
    WithoutOther(e.listed[0], e.job.metas, t.num);
    assert m.listed[1] == e.listed[1];
  }

  lemma {:induction false} WithoutOther(ts: Level, gone: set<nat>, n: nat)
    requires forall t :: t in ts ==> t.num != n
    ensures Without(ts, gone + {n}) == Without(ts, gone)
  {
    if ts != [] {
      WithoutOther(ts[1..], gone, n);
    }
  }

  // ---------- reading ----------

  lemma {:induction false} RememberedHit(e: Engine, t: Table, k: Key)
    requires |e.listed| > 0
    ensures StoreHit(Remembered(e, t).listed, k) ==
            Over(LevelHit(Reversed(e.listed[0]), k), Over(Hit(t.entries, k), DeepHit(e.listed[1..], k)))
  {
    hide LevelHit;
    var ts := [t] + e.listed[0];
    NewestFirst(ts, 1, k);
    assert ts[1..] == e.listed[0] && ts[..1] == [t];
    assert Reversed([t]) == [t];
    One(t, k);
    assert Remembered(e, t).listed[1..] == e.listed[1..];
  }

  /** What only the forgotten table says about a key. */
  ghost predicate OnlyThere(e: Engine, t: Table, partial: Records, k: Key)
    requires |e.listed| > 0
  {
    && Last(AllRecords(e.wal) + partial, k).None?
    && LevelHit(Reversed(e.listed[0]), k).None?
    && Hit(t.entries, k).Some?
    && Hit(t.entries, k) != DeepHit(e.listed[1..], k)
  }

  lemma {:induction false} ForgotExact(e: Engine, h: Trace, t: Table, partial: Records, k: Key)
    requires Forgot(e, h, t)
    ensures EngineHit(Reopened(e, partial), k) == Last(h.logged + partial, k) <==> !OnlyThere(e, t, partial, k)
  {
    hide Inv;
    hide EngineHit;
    hide Reopened;
    hide LevelHit;
    hide AllRecords;
    var m := Remembered(e, t);
    LevelsExist(m, h);
    StepCrash(m, h, partial);
    ReadsLast(Reopened(m, partial), After(m, h, Crash(partial)), k);
    ReopenedHit(m, partial, k);
    ReopenedHit(e, partial, k);
    RememberedHit(e, t, k);
  }

  lemma {:induction false} PendingRecovers(e: Engine, h: Trace, t: Table, partial: Records, k: Key)
    requires Pending(e, h, t)
    ensures EngineHit(Reopened(e, partial), k) == Last(h.logged + partial, k)
  {
    hide Inv;
    hide EngineHit;
    var a := Aligned(e);
    LevelsExist(a, h);
    StepCrash(a, h, partial);
    assert Reopened(e, partial) == Reopened(a, partial);
    ReadsLast(Reopened(a, partial), After(a, h, Crash(partial)), k);
  }

  lemma {:induction false} LiveRead(e: Engine, h: Trace, t: Table, k: Key)
    requires Pending(e, h, t) || Forgot(e, h, t) || Inv(e, h)
    ensures |e.levels| > 0 && EngineHit(e, k) == Last(h.logged, k)
  {
    hide Inv;
    var e' := if Pending(e, h, t) then Aligned(e) else if Forgot(e, h, t) then Remembered(e, t) else e;
    LevelsExist(e', h);
    ReadsLast(e', h, k);
  }

  // ---------- runs ----------

  /** A run that begins with a snapshot in the window of `t` and goes on with harmless steps. */
  ghost predicate WindowRun(run: seq<Engine>, steps: seq<Step>, t: Table)
  {
    && |run| == |steps| + 1 && |steps| > 0
    && run[0].stage == Listed(t) && steps[0].StartL0?
    && (forall i :: 0 <= i < |steps| ==> Enabled(run[i], steps[i]) && run[i + 1] == Do(run[i], steps[i]))
    && (forall i :: 1 <= i < |steps| ==> Benign(run[i], steps[i]) && !steps[i].Crash?)
  }

  /** How many L0 compactions were installed in the first j steps. */
  ghost function L0Installs(run: seq<Engine>, steps: seq<Step>, j: nat): (r: nat)
    requires j <= |steps| && j <= |run|
  {
    if j == 0 then 0
    else L0Installs(run, steps, j - 1) + if steps[j - 1].Install? && run[j - 1].job.L0Job? then 1 else 0
  }

  /** None installed, one, or more: about to forget, forgotten, healed. */
  ghost predicate Phase(e: Engine, h: Trace, t: Table, installs: nat)
  {
    if installs == 0 then Pending(e, h, t) else if installs == 1 then Forgot(e, h, t) else Inv(e, h)
  }

  lemma {:induction false} PhaseStep(e: Engine, h: Trace, t: Table, installs: nat, step: Step)
    requires Phase(e, h, t, installs) && Enabled(e, step) && Benign(e, step) && !step.Crash?
    ensures Phase(Do(e, step), After(e, h, step), t, installs + if step.Install? && e.job.L0Job? then 1 else 0)
    ensures After(e, h, step).logged == h.logged + Adds(step)
  {
    hide Inv;
    hide Benign;
    hide Do;
    hide Forgot;
    if installs == 0 {
      if step.Install? {
        InstallForgets(e, h, t);
        assert h.logged + [] == h.logged;
      } else {
        PendingStep(e, h, t, step);
      }
    } else if installs == 1 {
      if step.Install? && e.job.L0Job? {
        NextInstallHeals(e, h, t);
        assert h.logged + [] == h.logged;
      } else {
        ForgotStep(e, h, t, step);
      }
    } else {
      StepInv(e, h, step);
    }
  }

  lemma {:induction false} WindowTrace(run: seq<Engine>, steps: seq<Step>, t: Table, h0: Trace, j: nat)
    returns (h: Trace)
    requires WindowRun(run, steps, t) && Inv(run[0], h0) && 1 <= j < |run|
    ensures h.logged == h0.logged + AllWrites(steps[..j]) && Phase(run[j], h, t, L0Installs(run, steps, j))
    decreases j
  {
    hide Inv;
    hide Enabled;
    hide Benign;
    hide Do;
    hide Pending;
    hide Forgot;
    assert steps[..j][..j - 1] == steps[..j - 1];
    var e, step := run[j - 1], steps[j - 1];
    if j == 1 {
      SnapshotTaken(e, h0, step);
      h := h0;
      assert L0Installs(run, steps, 0) == 0;
      assert AllWrites(steps[..0]) == [];
    } else {
      hide Phase;
      var h1 := WindowTrace(run, steps, t, h0, j - 1);
      h := After(e, h1, step);
      PhaseStep(e, h1, t, L0Installs(run, steps, j - 1), step);
    }
  }

  /** From a snapshot in the window on, whatever is written, frozen, flushed and compacted: the
      running engine answers right, and until the install so does a reopened one. After the install
      a reopened engine answers right for exactly the keys that the log, a newer L0 file or no
      table but the forgotten one speaks for, or on which the deeper levels say the same. The install
      of the next L0 compaction brings everything back. */
  lemma {:induction false} SnapshotWindowExact(run: seq<Engine>, steps: seq<Step>, t: Table, h: Trace, j: nat,
                                               partial: Records, k: Key)
    requires WindowRun(run, steps, t) && Inv(run[0], h) && 1 <= j < |run|
    ensures |run[j].levels| > 0 && |run[j].listed| > 0
    ensures EngineHit(run[j], k) == Last(h.logged + AllWrites(steps[..j]), k)
    ensures EngineHit(Reopened(run[j], partial), k) == Last(h.logged + AllWrites(steps[..j]) + partial, k) <==>
            (L0Installs(run, steps, j) == 1 ==> !OnlyThere(run[j], t, partial, k))
  {
    hide Inv;
    hide Enabled;
    hide Benign;
    hide Do;
    hide OnlyThere;
    hide EngineHit;
    hide Reopened;
    hide AllWrites;
    hide Pending;
    hide Forgot;
    hide L0Installs;
    var h' := WindowTrace(run, steps, t, h, j);
    LiveRead(run[j], h', t, k);
    var installs := L0Installs(run, steps, j);
    if installs == 0 {
      PendingListed(run[j], h', t);
      PendingRecovers(run[j], h', t, partial, k);
    } else if installs == 1 {
      ForgotListed(run[j], h', t);
      ForgotExact(run[j], h', t, partial, k);
    } else {
      LevelsExist(run[j], h');
      RecoversLast(run[j], h', partial, k);
    }
  }

  lemma {:induction false} PendingListed(e: Engine, h: Trace, t: Table)
    requires Pending(e, h, t)
    ensures |e.listed| > 0
  {
    hide Inv;
  }

  lemma {:induction false} ForgotListed(e: Engine, h: Trace, t: Table)
    requires Forgot(e, h, t)
    ensures |e.listed| > 0
  {
    hide Inv;
  }

  lemma {:induction false} RecoversLast(e: Engine, h: Trace, partial: Records, k: Key)
    requires Inv(e, h) && |e.listed| > 0
    ensures EngineHit(Reopened(e, partial), k) == Last(h.logged + partial, k)
  {
    hide Inv;
    hide EngineHit;
    hide Reopened;
    LevelsExist(e, h);
    StepCrash(e, h, partial);
    ReadsLast(Reopened(e, partial), After(e, h, Crash(partial)), k);
  }

  // ---------- a lost write ----------

  /** A run without the hypotheses on L0 compaction. */
  ghost predicate IsAnyRun(run: seq<Engine>, steps: seq<Step>)
  {
    && |run| == |steps| + 1
    && Init(run[0])
    && forall i :: 0 <= i < |steps| ==> Enabled(run[i], steps[i]) && run[i + 1] == Do(run[i], steps[i])
  }

  const FirstTable := Table(1, [Entry([1], Some([1]))])
  const SecondTable := Table(2, [Entry([2], Some([2]))])
  const MergedTable := Table(3, [Entry([1], Some([1]))])

  lemma {:induction false} OneEntryTable(n: nat, k: Key, v: Value, m: Mem)
    requires m == map[k := Some(v)]
    ensures Holds(Table(n, [Entry(k, Some(v))]), m)
  {
    forall q
      ensures Hit([Entry(k, Some(v))], q) == MemHit(m, q)
    {
      assert [Entry(k, Some(v))][1..] == [];
      assert Hit([], q).None?;
    }
  }

  lemma {:induction false} MergesAlone(t: Table, o: Table)
    requires TableOk(t) && o.entries == t.entries
    ensures MergesDown([t], [], MinKey(t), MaxKey(t), [o])
  {
    assert [o][1..] == [] && Flat([]) == [];
    assert Flat([o]) == o.entries + [] == t.entries;
    assert Overlapping([], MinKey(t), MaxKey(t)) == [];
    assert Runs([t]) + Runs([]) == Runs([t]);
    assert MinKey(t) == t.entries[0].key && MaxKey(t) == t.entries[|t.entries| - 1].key;
    forall k
      ensures Hit(Flat([o]), k) == FirstHit(Runs([t]), k)
    {
      One(t, k);
    }
  }

  const FirstWrite := Writes.Record([1], Some([1]))
  const SecondWrite := Writes.Record([2], Some([2]))

  /** One write flushed, a second one frozen and in the window, and the L0 compaction meanwhile. */
  const LossySteps: seq<Step> := [
    Write([FirstWrite]), Freeze, FlushList(FirstTable), FlushAppend, FlushRemove, FlushPurge,
    Write([SecondWrite]), Freeze, FlushList(SecondTable),
    StartL0([1], [1], [MergedTable]),
    FlushAppend, FlushRemove, FlushPurge, Install, Crash([])]

  const OneMem: Mem := map[[1] := Some([1])]
  const TwoMem: Mem := map[[2] := Some([2])]
  const LossyJob := L0Job(1, {1, 2}, [1], [1], [MergedTable])

  // The engines between these steps.
  const E0 := Engine([WalFile(1, [])], map[], [], [[], []], [[], []], 1, Resting, NoJob)
  const E1 := Engine([WalFile(1, [FirstWrite])], OneMem, [], [[], []], [[], []], 1, Resting, NoJob)
  const E2 := Engine([WalFile(1, [FirstWrite]), WalFile(2, [])], map[], [Frozen(OneMem, 1)], [[], []], [[], []], 1,
      Resting, NoJob)
  const E3 := Engine([WalFile(1, [FirstWrite]), WalFile(2, [])], map[], [Frozen(OneMem, 1)], [[], []],
      [[FirstTable], []], 2, Listed(FirstTable), NoJob)
  const E4 := Engine([WalFile(1, [FirstWrite]), WalFile(2, [])], map[], [Frozen(OneMem, 1)], [[FirstTable], []],
      [[FirstTable], []], 2, Appended, NoJob)
  const E5 := Engine([WalFile(1, [FirstWrite]), WalFile(2, [])], map[], [], [[FirstTable], []], [[FirstTable], []], 2,
      Removed(1), NoJob)
  const E6 := Engine([WalFile(2, [])], map[], [], [[FirstTable], []], [[FirstTable], []], 2, Resting, NoJob)
  const E7 := Engine([WalFile(2, [SecondWrite])], TwoMem, [], [[FirstTable], []], [[FirstTable], []], 2, Resting, NoJob)
  const E8 := Engine([WalFile(2, [SecondWrite]), WalFile(3, [])], map[], [Frozen(TwoMem, 2)], [[FirstTable], []],
      [[FirstTable], []], 2, Resting, NoJob)
  const E9 := Engine([WalFile(2, [SecondWrite]), WalFile(3, [])], map[], [Frozen(TwoMem, 2)], [[FirstTable], []],
      [[FirstTable, SecondTable], []], 3, Listed(SecondTable), NoJob)
  const E10 := Engine([WalFile(2, [SecondWrite]), WalFile(3, [])], map[], [Frozen(TwoMem, 2)], [[FirstTable], []],
      [[FirstTable, SecondTable], []], 4, Listed(SecondTable), LossyJob)
  const E11 := Engine([WalFile(2, [SecondWrite]), WalFile(3, [])], map[], [Frozen(TwoMem, 2)],
      [[FirstTable, SecondTable], []], [[FirstTable, SecondTable], []], 4, Appended, LossyJob)
  const E12 := Engine([WalFile(2, [SecondWrite]), WalFile(3, [])], map[], [], [[FirstTable, SecondTable], []],
      [[FirstTable, SecondTable], []], 4, Removed(2), LossyJob)
  const E13 := Engine([WalFile(3, [])], map[], [], [[FirstTable, SecondTable], []], [[FirstTable, SecondTable], []], 4,
      Resting, LossyJob)
  const E14 := Engine([WalFile(3, [])], map[], [], [[SecondTable], [MergedTable]], [[], [MergedTable]], 4, Resting,
      NoJob)
  const E15 := Engine([WalFile(3, [])], map[], [], [[], [MergedTable]], [[], [MergedTable]], 4, Resting, NoJob)

  ghost predicate Goes(e: Engine, step: Step, e': Engine)
  {
    Enabled(e, step) && e' == Do(e, step)
  }

  lemma {:induction false} OneRecord(r: Writes.Record)
    ensures ApplyAll(map[], [r]) == map[r.key := r.value]
  {
    assert [r][..0] == [];
    assert ApplyAll(map[], []) == map[];
  }

  lemma {:induction false} FirstWritten()
    ensures Goes(E0, LossySteps[0], E1) && Goes(E1, LossySteps[1], E2)
  {
    OneRecord(FirstWrite);
    assert [] + [FirstWrite] == [FirstWrite];
    var d0 := Do(E0, LossySteps[0]);
    assert d0.wal == E1.wal;
    assert d0.active == E1.active;
    var d1 := Do(E1, LossySteps[1]);
    assert d1.wal == E2.wal;
    assert d1.imms == E2.imms;
  }

  lemma {:induction false} FirstListed()
    ensures Goes(E2, LossySteps[2], E3) && Goes(E3, LossySteps[3], E4)
  {
    OneEntryTable(1, [1], [1], OneMem);
    var d2 := Do(E2, LossySteps[2]);
    assert d2.listed[0] == E3.listed[0];
    assert d2.listed == E3.listed;
    var d3 := Do(E3, LossySteps[3]);
    assert d3.levels[0] == E4.levels[0];
    assert d3.levels == E4.levels;
  }

  lemma {:induction false} FirstPurged()
    ensures Goes(E4, LossySteps[4], E5) && Goes(E5, LossySteps[5], E6)
  {
    BeyondAppend([E5.wal[0]], [E5.wal[1]], 1);
    var d4 := Do(E4, LossySteps[4]);
    assert d4.imms == E5.imms;
    var d5 := Do(E5, LossySteps[5]);
    assert d5.wal == E6.wal;
  }

  lemma {:induction false} SecondWritten()
    ensures Goes(E6, LossySteps[6], E7) && Goes(E7, LossySteps[7], E8)
  {
    OneRecord(SecondWrite);
    assert [] + [SecondWrite] == [SecondWrite];
    var d6 := Do(E6, LossySteps[6]);
    assert d6.wal == E7.wal;
    assert d6.active == E7.active;
    var d7 := Do(E7, LossySteps[7]);
    assert d7.wal == E8.wal;
    assert d7.imms == E8.imms;
  }

  lemma {:induction false} SecondListed()
    ensures Goes(E8, LossySteps[8], E9)
  {
    OneEntryTable(2, [2], [2], TwoMem);
    var d8 := Do(E8, LossySteps[8]);
    assert d8.listed[0] == E9.listed[0];
    assert d8.listed == E9.listed;
  }

  lemma {:induction false} InTheWindow()
    ensures Goes(E9, LossySteps[9], E10) && Goes(E10, LossySteps[10], E11)
  {
    MergesAlone(FirstTable, MergedTable);
    assert FirstTable in E9.listed[0] && SecondTable in E9.listed[0];
    assert Nums(E9.listed[0]) == {1, 2};
    assert [MergedTable][1..] == [] && NumAfter([], 3) == 3;
    var d9 := Do(E9, LossySteps[9]);
    assert d9.job == E10.job;
    assert d9.nextNum == E10.nextNum;
    var d10 := Do(E10, LossySteps[10]);
    assert d10.levels[0] == E11.levels[0];
    assert d10.levels == E11.levels;
  }

  lemma {:induction false} SecondPurged()
    ensures Goes(E11, LossySteps[11], E12) && Goes(E12, LossySteps[12], E13)
  {
    BeyondAppend([E12.wal[0]], [E12.wal[1]], 2);
    var d11 := Do(E11, LossySteps[11]);
    assert d11.imms == E12.imms;
    var d12 := Do(E12, LossySteps[12]);
    assert d12.wal == E13.wal;
  }

  lemma {:induction false} NumbersAfterMerge()
    ensures NumAfterAll(E14.listed) == 4
  {
    assert E14.listed[1..] == [[MergedTable]] && [[MergedTable]][1..] == [];
    assert [MergedTable][1..] == [] && NumAfter([], 1) == 1;
    assert NumAfterAll([]) == 1;
    assert NumAfterAll([[MergedTable]]) == NumAfter([MergedTable], 1) == 4;
  }

  lemma {:induction false} Forgotten()
    ensures Goes(E13, LossySteps[13], E14) && Goes(E14, LossySteps[14], E15)
  {
    assert [FirstTable][..1] == [FirstTable] == E13.levels[0][..1];
    assert Nums([FirstTable]) == {1} by { assert FirstTable in [FirstTable]; }
    WithoutFirst([FirstTable, SecondTable], 1, {1});
    WithoutFirst([FirstTable, SecondTable], 2, {1, 2});
    assert Overlapping([], [1], [1]) == [] && Nums([]) == {};
    assert Pushed([], [1], [1], [MergedTable]) == [MergedTable];
    var d13 := Do(E13, LossySteps[13]);
    assert d13.levels[0] == E14.levels[0];
    assert d13.levels == E14.levels;
    assert d13.listed[0] == E14.listed[0];
    assert d13.listed == E14.listed;
    NumbersAfterMerge();
    var d14 := Do(E14, LossySteps[14]);
    assert d14.wal == E15.wal;
    assert d14.active == E15.active;
    assert d14.nextNum == E15.nextNum;
  }

  const LossyRun: seq<Engine> := [E0, E1, E2, E3, E4, E5, E6, E7, E8, E9, E10, E11, E12, E13, E14, E15]

  lemma {:induction false} LossyRunGoes(i: nat)
    requires i < 15
    ensures Goes(LossyRun[i], LossySteps[i], LossyRun[i + 1])
  {
    hide Goes;
    FirstWritten();
    FirstListed();
    FirstPurged();
    SecondWritten();
    SecondListed();
    InTheWindow();
    SecondPurged();
    Forgotten();
  }

  /** Steps of which only the first and the one at p write. */
  lemma {:induction false} TwoWrites(steps: seq<Step>, p: nat, a: Records, b: Records, n: nat)
    requires p > 0 && n <= |steps|
    requires forall i :: 0 <= i < |steps| ==> Adds(steps[i]) == if i == 0 then a else if i == p then b else []
    ensures AllWrites(steps[..n]) == (if n > 0 then a else []) + (if n > p then b else [])
  {
    if n > 0 {
      TwoWrites(steps, p, a, b, n - 1);
      assert steps[..n][..n - 1] == steps[..n - 1];
    }
  }

  lemma {:induction false} LossyWrites()
    ensures AllWrites(LossySteps) == [FirstWrite, SecondWrite]
  {
    hide AllWrites;
    TwoWrites(LossySteps, 6, [FirstWrite], [SecondWrite], 15);
    assert LossySteps[..15] == LossySteps;
  }

  lemma {:induction false} LossyRunIsRun()
    ensures IsAnyRun(LossyRun, LossySteps)
  {
    hide Enabled;
    hide Do;
    assert Init(LossyRun[0]);
    forall i | 0 <= i < |LossySteps|
      ensures Enabled(LossyRun[i], LossySteps[i]) && LossyRun[i + 1] == Do(LossyRun[i], LossySteps[i])
    {
      LossyRunGoes(i);
    }
  }

  lemma {:induction false} OneFileAgrees(ls: seq<Level>)
    requires |ls| > 0 && |ls[0]| >= 1
    ensures OldestAgrees(ls, 1)
  {
    assert Reversed(ls[0][..1]) == ls[0][..1];
  }

  lemma {:induction false} ReadsAroundTheCrash()
    ensures EngineHit(E14, [2]) == Some(Some([2])) && EngineHit(E15, [2]).None?
  {
    hide LevelHit;
    var k: Key := [2];
    assert Reversed([SecondTable]) == [SecondTable] && Reversed<Table>([]) == [];
    One(SecondTable, k);
    One(MergedTable, k);
    assert LevelHit([], k).None? by { LevelMiss([], k); }
    assert MergedTable.entries[1..] == [] && Hit([], k).None?;
    assert E15.levels[1..] == [[MergedTable]] && [[MergedTable]][1..] == [];
    assert DeepHit([[MergedTable]], k).None?;
    assert FrozenHit([], k).None? && StoreHit(E15.levels, k).None?;
  }

  /** A run whose only fault is the snapshot in the window: the second write is acknowledged, read,
      flushed, and gone after the crash. */
  lemma {:induction false} SnapshotLosesAWrite()
    ensures IsAnyRun(LossyRun, LossySteps) && LossySteps[14] == Crash([])
    ensures forall i :: 0 <= i < 15 ==> (Benign(LossyRun[i], LossySteps[i]) <==> i != 9)
    ensures EngineHit(LossyRun[14], [2]) == Some(Some([2])) == Last(AllWrites(LossySteps), [2])
    ensures EngineHit(LossyRun[15], [2]).None?
  {
    hide Enabled;
    hide Do;
    hide EngineHit;
    hide OldestAgrees;
    hide IsAnyRun;
    hide AllWrites;
    LossyRunIsRun();
    LossyWrites();
    OneFileAgrees(E13.levels);
    ReadsAroundTheCrash();
  }
}
