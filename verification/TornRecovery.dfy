/** Recovery from a log whose active file was torn: what is lost is a suffix of the writes. */
module TornRecovery {
  import opened Keys
  import opened Compaction
  import opened LevelCompaction
  import opened Writes
  import opened EngineMachine
  import opened EngineInvariant
  import opened EngineRefinement

  function LastRecords(wal: seq<WalFile>): (r: Records)
  {
    if wal == [] then [] else wal[|wal| - 1].records
  }

  /** The log with only the first n records of its active file. */
  function CutWal(wal: seq<WalFile>, n: nat): (r: seq<WalFile>)
    requires n <= |LastRecords(wal)|
    ensures |r| == |wal|
  {
    if wal == [] then []
    else wal[|wal| - 1 := WalFile(wal[|wal| - 1].id, wal[|wal| - 1].records[..n])]
  }

  function CutAt(e: Engine, n: nat): (r: Engine)
    requires n <= |LastRecords(e.wal)|
  {
    e.(wal := CutWal(e.wal, n))
  }

  lemma {:induction false} NothingCut(e: Engine)
    ensures CutAt(e, |LastRecords(e.wal)|) == e
  {
    if e.wal != [] {
      var f := e.wal[|e.wal| - 1];
      assert f.records[..|f.records|] == f.records;
    }
  }

  /** No table in the manifest holds a record of the active log file. */
  ghost predicate ActiveUnlisted(e: Engine, h: Trace)
  {
    |LastRecords(e.wal)| + h.listedTo <= |h.logged|
  }

  lemma {:induction false} LastWithin(wal: seq<WalFile>)
    requires |wal| > 0
    ensures AllRecords(wal) == AllRecords(wal[..|wal| - 1]) + LastRecords(wal)
  {
    var n := |wal| - 1;
    assert wal == wal[..n] + [wal[n]];
    AllRecordsAppend(wal[..n], [wal[n]]);
    OneFile(wal[n]);
  }

  lemma {:induction false} LastBeyond(wal: seq<WalFile>, id: nat)
    requires |wal| > 0 && Ascending(wal) && id < LastId(wal)
    ensures |Beyond(wal, id)| > 0 && LastRecords(Beyond(wal, id)) == LastRecords(wal)
    ensures |LastRecords(wal)| <= |AllRecords(Beyond(wal, id))|
  {
    hide AllRecords;
    var c := BeyondIsTail(wal, id);
    assert c < |wal|;
    LastWithin(Beyond(wal, id));
  }

  lemma {:induction false} ListKeepsUnlisted(e: Engine, h: Trace, t: Table)
    requires Inv(e, h) && Enabled(e, FlushList(t))
    ensures ActiveUnlisted(Do(e, FlushList(t)), After(e, h, FlushList(t)))
  {
    hide StoreOk;
    hide ShapeOk;
    hide JobOk;
    hide Beyond;
    hide AllRecords;
    hide Chron;
    hide Holds;
    var n := |e.imms| - 1;
    OldestWrites(h);
    assert FrozenWalOk(e, h, n);
    LastBeyond(e.wal, e.imms[n].walId);
  }

  lemma {:induction false} PurgeKeepsUnlisted(e: Engine, h: Trace)
    requires Inv(e, h) && Enabled(e, FlushPurge) && ActiveUnlisted(e, h)
    ensures ActiveUnlisted(Do(e, FlushPurge), After(e, h, FlushPurge))
  {
    hide StoreOk;
    hide ShapeOk;
    hide JobOk;
    hide Beyond;
    hide AllRecords;
    hide Chron;
    LastBeyond(e.wal, e.stage.walId);
  }

  lemma {:induction false} InstallKeepsLog(e: Engine)
    requires |e.levels| >= 2 && |e.listed| >= 2
    ensures Installed(e).wal == e.wal
  {
  }

  lemma {:induction false} StepUnlisted(e: Engine, h: Trace, step: Step)
    requires Inv(e, h) && Enabled(e, step) && ActiveUnlisted(e, h)
    ensures ActiveUnlisted(Do(e, step), After(e, h, step))
  {
    TraceWithin(e, h);
    match step
    case FlushList(t) => ListKeepsUnlisted(e, h, t);
    case FlushPurge => PurgeKeepsUnlisted(e, h);
    case Install => InstallKeepsLog(e);
    case _ =>
      hide Inv;
      hide MergesDown;
      hide AllRecords;
      hide NumAfterAll;
  }

  lemma {:induction false} TraceWithin(e: Engine, h: Trace)
    requires Inv(e, h)
    ensures h.listedTo <= |h.logged|
  {
    hide ShapeOk;
    hide JobOk;
    hide StoreOk;
    hide MemsOk;
    hide WalOk;
  }

  /** The trace of a run, with the active file apart from the tables. */
  lemma {:induction false} RunUnlisted(run: seq<Engine>, steps: seq<Step>, i: nat) returns (h: Trace)
    requires IsRun(run, steps) && i < |run|
    ensures Inv(run[i], h) && h.logged == AllWrites(steps[..i]) && ActiveUnlisted(run[i], h)
    decreases i
  {
    hide Inv;
    hide Enabled;
    hide Benign;
    hide Do;
    if i == 0 {
      InitInv(run[0]);
      h := NoTrace;
    } else {
      hide Init;
      var h0 := RunUnlisted(run, steps, i - 1);
      StepInv(run[i - 1], h0, steps[i - 1]);
      StepUnlisted(run[i - 1], h0, steps[i - 1]);
      h := After(run[i - 1], h0, steps[i - 1]);
      assert steps[..i][..i - 1] == steps[..i - 1];
    }
  }

  // ---------- reopening ----------

  /** The writes left when the active file keeps n records. */
  ghost function Left(e: Engine, h: Trace, n: nat): (r: Records)
    requires n <= |LastRecords(e.wal)| && ActiveUnlisted(e, h)
  {
    h.logged[..|h.logged| - (|LastRecords(e.wal)| - n)]
  }

  ghost function TornTrace(e: Engine, h: Trace, n: nat): (r: Trace)
    requires n <= |LastRecords(e.wal)| && ActiveUnlisted(e, h)
  {
    var all, rs := Left(e, h, n), AllRecords(CutWal(e.wal, n));
    Trace(all, if |rs| <= |all| then |all| - |rs| else 0, h.listedTo, h.listedTo, [], rs)
  }

  lemma {:induction false} CutRecords(wal: seq<WalFile>, n: nat)
    requires |wal| > 0 && n <= |LastRecords(wal)|
    ensures |LastRecords(wal)| <= |AllRecords(wal)|
    ensures AllRecords(CutWal(wal, n)) == AllRecords(wal)[..|AllRecords(wal)| - (|LastRecords(wal)| - n)]
  {
    hide AllRecords;
    LastWithin(wal);
    LastWithin(CutWal(wal, n));
    assert CutWal(wal, n)[..|wal| - 1] == wal[..|wal| - 1];
  }

  lemma {:induction false} TornWal(e: Engine, h: Trace, n: nat)
    requires WalOk(e, h) && h.start <= h.listedTo && n <= |LastRecords(e.wal)| && ActiveUnlisted(e, h)
    ensures var e', h' := Reopened(CutAt(e, n), []), TornTrace(e, h, n);
            && WalOk(e', h') && h'.start <= h'.listedTo <= |h'.logged| && h'.logged[h'.start..] == h'.current
  {
    hide AllRecords;
    hide Beyond;
    hide ApplyAll;
    hide NumAfterAll;
    var cut := CutWal(e.wal, n);
    LoggedRecords(cut, []);
    CutRecords(e.wal, n);
    var a, c := AllRecords(e.wal), AllRecords(cut);
    assert c + [] == c;
    var all, gone := Left(e, h, n), |LastRecords(e.wal)| - n;
    assert h.logged[|h.logged| - |a|..][..|a| - gone] == all[|all| - |c|..];
  }

  /** Reopening with a torn active file: the invariant holds for the writes left. */
  lemma {:induction false} TornInv(e: Engine, h: Trace, n: nat)
    requires Inv(e, h) && n <= |LastRecords(e.wal)| && ActiveUnlisted(e, h)
    ensures Inv(Reopened(CutAt(e, n), []), TornTrace(e, h, n))
  {
    hide StoreHit;
    hide L0Ok;
    hide AllRecords;
    hide Beyond;
    hide ApplyAll;
    hide SaysLast;
    hide WalOk;
    hide CutWal;
    var h' := TornTrace(e, h, n);
    TornWal(e, h, n);
    EmptySaysNothing();
    SaysLastAfter(map[], [], h'.current);
    assert [] + h'.current == h'.current;
    assert h'.logged[..h.listedTo] == h.logged[..h.listedTo];
    assert Chron([]) == [];
    CrashNums(e.listed);
    TornMemtable(e, n);
  }

  lemma {:induction false} TornMemtable(e: Engine, n: nat)
    requires n <= |LastRecords(e.wal)|
    ensures Reopened(CutAt(e, n), []).active == ApplyAll(map[], AllRecords(CutWal(e.wal, n)))
  {
    hide NumAfterAll;
    var cut := CutWal(e.wal, n);
    if cut != [] {
      LoggedRecords(cut, []);
      assert AllRecords(cut) + [] == AllRecords(cut);
    }
  }

  /** From any reachable state, with the active log file cut to any number of its records: reopening
      gives all writes but the last ones, as many as were cut off. */
  lemma {:induction false} TornRecoveryIsPrefix(run: seq<Engine>, steps: seq<Step>, i: nat, n: nat, k: Key)
    requires IsRun(run, steps) && i < |run| && n <= |LastRecords(run[i].wal)|
    ensures |run[i].listed| > 0
    ensures var lost := |LastRecords(run[i].wal)| - n;
            var writes := AllWrites(steps[..i]);
            lost <= |writes| && EngineHit(Reopened(CutAt(run[i], n), []), k) == Last(writes[..|writes| - lost], k)
  {
    hide Inv;
    hide EngineHit;
    hide Reopened;
    hide IsRun;
    hide AllWrites;
    hide CutAt;
    var h := RunUnlisted(run, steps, i);
    LevelsExist(run[i], h);
    TornInv(run[i], h, n);
    ReadsLast(Reopened(CutAt(run[i], n), []), TornTrace(run[i], h, n), k);
  }
}
