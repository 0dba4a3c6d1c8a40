/** The engine refines a plain map over every run, crashes included. */
module EngineRefinement {
  import opened Prelude
  import opened Keys
  import opened Tables
  import opened Compaction
  import opened LevelCompaction
  import opened Writes
  import opened EngineMachine
  import opened EngineInvariant

  lemma {:induction false} SaysLastAfter(m: Mem, rs: Records, more: Records)
    requires SaysLast(m, rs)
    ensures SaysLast(ApplyAll(m, more), rs + more)
  {
    forall k
      ensures MemHit(ApplyAll(m, more), k) == Last(rs + more, k)
    {
      assert MemHit(m, k) == Last(rs, k);
      ApplyAllHit(m, more, k);
      LastAppend(rs, more, k);
    }
  }

  // ---------- writing and freezing ----------

  lemma {:induction false} StepWrite(e: Engine, h: Trace, rs: Records)
    requires Inv(e, h) && Enabled(e, Write(rs))
    ensures Inv(Do(e, Write(rs)), After(e, h, Write(rs)))
  {
    hide StoreHit;
    hide MergesDown;
    hide L0Ok;
    var e', h' := Do(e, Write(rs)), After(e, h, Write(rs));
    SaysLastAfter(e.active, h.current, rs);
    LoggedRecords(e.wal, rs);
    assert h'.logged[h.start..] == h.logged[h.start..] + rs;
    assert Chron(h.frozen) + h'.current == (Chron(h.frozen) + h.current) + rs;
    assert h'.logged[..h.covered] == h.logged[..h.covered];
    assert h'.logged[..h.listedTo] == h.logged[..h.listedTo];
    WriteWal(e, h, rs);
  }

  lemma {:induction false} WriteWal(e: Engine, h: Trace, rs: Records)
    requires WalOk(e, h) && Enabled(e, Write(rs))
    ensures WalOk(Do(e, Write(rs)), After(e, h, Write(rs)))
  {
    hide Beyond;
    hide AllRecords;
    hide Logged;
    var e', h' := Do(e, Write(rs)), After(e, h, Write(rs));
    LoggedRecords(e.wal, rs);
    LoggedNotEmpty(e.wal, rs);
    var a := AllRecords(e.wal);
    assert h'.logged[|h'.logged| - |a + rs|..] == h.logged[|h.logged| - |a|..] + rs;
    forall i | 0 <= i < |e.imms|
      ensures FrozenWalOk(e', h', i)
    {
      assert FrozenWalOk(e, h, i);
      LoggedBeyond(e.wal, rs, e.imms[i].walId);
      assert Chron(h.frozen[..i]) + (h.current + rs) == (Chron(h.frozen[..i]) + h.current) + rs;
    }
    if e.stage.Removed? {
      LoggedBeyond(e.wal, rs, e.stage.walId);
      assert Chron(h.frozen) + (h.current + rs) == (Chron(h.frozen) + h.current) + rs;
    }
  }

  lemma {:induction false} LoggedNotEmpty(wal: seq<WalFile>, rs: Records)
    requires |wal| > 0
    ensures |Logged(wal, rs)| == |wal|
  {
  }

  lemma {:induction false} StepFreeze(e: Engine, h: Trace)
    requires Inv(e, h) && Enabled(e, Freeze)
    ensures Inv(Do(e, Freeze), After(e, h, Freeze))
  {
    hide StoreHit;
    hide MergesDown;
    hide L0Ok;
    var e', h' := Do(e, Freeze), After(e, h, Freeze);
    assert h'.frozen[1..] == h.frozen;
    assert Chron(h'.frozen) + h'.current == Chron(h.frozen) + h.current;
    assert SaysLast(map[], []);
    assert |h'.frozen| > 0 ==> h.start + |h'.frozen[|h'.frozen| - 1]| >= h.listedTo by {
      if |h.frozen| == 0 {
        assert Chron(h.frozen) == [];
        assert |h.logged[h.start..]| == |h.current|;
      } else {
        assert h'.frozen[|h'.frozen| - 1] == h.frozen[|h.frozen| - 1];
      }
    }
    FreezeMems(e, h);
    FreezeWal(e, h);
  }

  lemma {:induction false} FreezeMems(e: Engine, h: Trace)
    requires MemsOk(e, h) && Enabled(e, Freeze)
    ensures MemsOk(Do(e, Freeze), After(e, h, Freeze))
  {
    hide SaysLast;
    assert SaysLast(map[], []) by { EmptySaysNothing(); }
    var e', h' := Do(e, Freeze), After(e, h, Freeze);
    forall i | 0 <= i < |e'.imms|
      ensures SaysLast(e'.imms[i].mem, h'.frozen[i])
    {
      if i > 0 {
        assert e'.imms[i] == e.imms[i - 1] && h'.frozen[i] == h.frozen[i - 1];
      }
    }
  }

  lemma {:induction false} EmptySaysNothing()
    ensures SaysLast(map[], [])
  {
  }

  lemma {:induction false} FreezeWal(e: Engine, h: Trace)
    requires WalOk(e, h) && Enabled(e, Freeze)
    ensures WalOk(Do(e, Freeze), After(e, h, Freeze))
  {
    hide Beyond;
    hide AllRecords;
    var e', h' := Do(e, Freeze), After(e, h, Freeze);
    RotatedBeyond(e.wal, LastId(e.wal));
    assert h'.frozen[1..] == h.frozen;
    forall i | 0 <= i < |e'.imms|
      ensures FrozenWalOk(e', h', i)
    {
      if i == 0 {
        assert Chron(h'.frozen[..0]) == [];
      } else {
        assert e'.imms[i] == e.imms[i - 1];
        assert FrozenWalOk(e, h, i - 1);
        RotatedBeyond(e.wal, e.imms[i - 1].walId);
        assert h'.frozen[..i][1..] == h.frozen[..i - 1];
        assert Chron(h'.frozen[..i]) + [] == Chron(h.frozen[..i - 1]) + h.current;
      }
    }
    forall i, j | 0 <= i < j < |e'.imms|
      ensures e'.imms[i].walId > e'.imms[j].walId
    {
      assert e'.imms[j] == e.imms[j - 1];
      assert FrozenWalOk(e, h, j - 1);
      if i > 0 {
        assert e'.imms[i] == e.imms[i - 1];
      }
    }
    if e.stage.Removed? {
      RotatedBeyond(e.wal, e.stage.walId);
      assert Chron(h'.frozen) + [] == Chron(h.frozen) + h.current;
      forall i | 0 <= i < |e'.imms|
        ensures e'.imms[i].walId > e.stage.walId
      {
        if i > 0 {
          assert e'.imms[i] == e.imms[i - 1];
        }
      }
    }
  }

  // ---------- flushing ----------

  /** The oldest frozen memtable holds the writes right after `start`. */
  lemma {:induction false} ChronOldest(frozen: seq<Records>)
    requires |frozen| > 0
    ensures Chron(frozen) == frozen[|frozen| - 1] + Chron(frozen[..|frozen| - 1])
  {
    var n := |frozen| - 1;
    if n == 0 {
      assert frozen[1..] == [] && frozen[..0] == [];
      assert Chron([]) == [];
    } else {
      ChronOldest(frozen[1..]);
      assert frozen[1..][..n - 1] == frozen[..n][1..];
      assert frozen[1..][n - 1] == frozen[n];
    }
  }

  lemma {:induction false} OldestWrites(h: Trace)
    requires h.start <= |h.logged| && h.logged[h.start..] == Chron(h.frozen) + h.current && |h.frozen| > 0
    ensures var ws := h.frozen[|h.frozen| - 1];
            && h.start + |ws| <= |h.logged|
            && h.logged[h.start..h.start + |ws|] == ws
            && h.logged[h.start + |ws|..] == Chron(h.frozen[..|h.frozen| - 1]) + h.current
  {
    hide Chron;
    var ws := h.frozen[|h.frozen| - 1];
    var rest := Chron(h.frozen[..|h.frozen| - 1]);
    ChronOldest(h.frozen);
    var t := h.logged[h.start..];
    assert t == ws + (rest + h.current);
    assert t[..|ws|] == ws && t[|ws|..] == rest + h.current;
    assert h.logged[h.start..h.start + |ws|] == t[..|ws|];
    assert h.logged[h.start + |ws|..] == t[|ws|..];
  }

  /** A table with the oldest frozen writes on top of tables that cover at least what came before. */
  lemma {:induction false} CoverMore(rs: Records, p: nat, q: nat, r: nat, k: Key)
    requires p <= q <= r <= |rs|
    ensures Over(Last(rs[p..r], k), Last(rs[..q], k)) == Last(rs[..r], k)
  {
    Overlap(rs[..r], p, q, k);
    assert rs[..r][p..] == rs[p..r] && rs[..r][..q] == rs[..q];
  }

  lemma {:induction false} AddedHit(ls: seq<Level>, t: Table, k: Key)
    requires |ls| > 0
    ensures StoreHit(AddToL0(ls, t), k) == Over(Hit(t.entries, k), StoreHit(ls, k))
  {
    var ts := ls[0] + [t];
    NewestFirst(ts, |ls[0]|, k);
    assert ts[|ls[0]|..] == [t] && ts[..|ls[0]|] == ls[0];
    assert Reversed([t]) == [t];
    One(t, k);
    assert AddToL0(ls, t)[1..] == ls[1..];
  }

  lemma {:induction false} AddedShape(ls: seq<Level>, t: Table, num: nat)
    requires L0Ok(ls) && TableOk(t)
    requires forall i, u :: 0 <= i < |ls| && u in ls[i] ==> u.num < num
    requires t.num >= num
    ensures L0Ok(AddToL0(ls, t))
  {
    var ls' := AddToL0(ls, t);
    forall i | 0 <= i < |ls'|
      ensures LevelOk(ls'[i])
    {
      assert LevelOk(ls[i]);
    }
    forall i, j | 0 <= i < j < |ls'[0]|
      ensures ls'[0][i].num != ls'[0][j].num
    {
      assert ls[0][i] in ls[0];
    }
  }

  lemma {:induction false} StepFlushList(e: Engine, h: Trace, t: Table)
    requires Inv(e, h) && Enabled(e, FlushList(t))
    ensures Inv(Do(e, FlushList(t)), After(e, h, FlushList(t)))
  {
    hide StoreHit;
    hide MergesDown;
    hide Chron;
    hide WalOk;
    var e', h' := Do(e, FlushList(t)), After(e, h, FlushList(t));
    AddedShape(e.levels, t, e.nextNum);
    ListShape(e, t);
    FlushListStore(e, h, t);
    SameWal(e, h, e', h');
  }

  lemma {:induction false} ListShape(e: Engine, t: Table)
    requires ShapeOk(e) && JobOk(e) && Enabled(e, FlushList(t)) && L0Ok(AddToL0(e.levels, t))
    ensures ShapeOk(Do(e, FlushList(t))) && JobOk(Do(e, FlushList(t)))
  {
    hide MergesDown;
    hide L0Ok;
    var e' := Do(e, FlushList(t));
    forall i, u | 0 <= i < |e'.listed| && u in e'.listed[i]
      ensures u.num < e'.nextNum
    {
      assert u in e.listed[i] || u == t;
    }
  }

  /** Steps that leave the log files and the memtables alone. */
  lemma {:induction false} SameWal(e: Engine, h: Trace, e': Engine, h': Trace)
    requires WalOk(e, h) && e'.wal == e.wal && e'.imms == e.imms && !e'.stage.Removed?
    requires h'.logged == h.logged && h'.start == h.start && h'.frozen == h.frozen && h'.current == h.current
    ensures WalOk(e', h')
  {
    forall i | 0 <= i < |e'.imms|
      ensures FrozenWalOk(e', h', i)
    {
      assert FrozenWalOk(e, h, i);
    }
  }

  lemma {:induction false} FlushListStore(e: Engine, h: Trace, t: Table)
    requires Enabled(e, FlushList(t)) && ShapeOk(e) && TraceOk(e, h) && MemsOk(e, h) && StoreOk(e, h)
    ensures var e', h' := Do(e, FlushList(t)), After(e, h, FlushList(t));
            TraceOk(e', h') && MemsOk(e', h') && StoreOk(e', h')
  {
    hide StoreHit;
    hide L0Ok;
    hide Chron;
    var e', h' := Do(e, FlushList(t)), After(e, h, FlushList(t));
    OldestWrites(h);
    var n := |h.frozen| - 1;
    var ws := h.frozen[n];
    assert SaysLast(e.imms[n].mem, ws);
    forall k
      ensures StoreHit(e'.listed, k) == Last(h'.logged[..h'.listedTo], k)
    {
      AddedHit(e.listed, t, k);
      assert Hit(t.entries, k) == MemHit(e.imms[n].mem, k) == Last(ws, k);
      CoverMore(h.logged, h.start, h.listedTo, h.start + |ws|, k);
    }
  }

  lemma {:induction false} StepFlushAppend(e: Engine, h: Trace)
    requires Inv(e, h) && Enabled(e, FlushAppend)
    ensures Inv(Do(e, FlushAppend), After(e, h, FlushAppend))
  {
    hide StoreHit;
    hide MergesDown;
    hide Chron;
    hide WalOk;
    hide L0Ok;
    hide SaysLast;
    var e', h' := Do(e, FlushAppend), After(e, h, FlushAppend);
    AppendKeepsJob(e);
    SameWal(e, h, e', h');
  }

  lemma {:induction false} AppendKeepsJob(e: Engine)
    requires ShapeOk(e) && JobOk(e) && Enabled(e, FlushAppend)
    ensures ShapeOk(Do(e, FlushAppend)) && JobOk(Do(e, FlushAppend))
  {
    hide MergesDown;
    hide L0Ok;
    var e' := Do(e, FlushAppend);
    match e.job
    case NoJob =>
    case LevelJob(l, outs) => assert e'.levels[l] == e.levels[l] && e'.levels[l + 1] == e.levels[l + 1];
    case L0Job(n, metas, lo, hi, outs) => assert e'.levels[0][..n] == e.levels[0][..n];
  }

  lemma {:induction false} StepFlushRemove(e: Engine, h: Trace)
    requires Inv(e, h) && Enabled(e, FlushRemove)
    ensures Inv(Do(e, FlushRemove), After(e, h, FlushRemove))
  {
    hide StoreHit;
    hide MergesDown;
    hide Chron;
    hide WalOk;
    hide L0Ok;
    hide SaysLast;
    var e', h' := Do(e, FlushRemove), After(e, h, FlushRemove);
    OldestWrites(h);
    DropOldest(h);
    RemoveWal(e, h);
  }

  /** Once the oldest is gone, the next one reaches at least as far as the tables. */
  lemma {:induction false} DropOldest(h: Trace)
    requires |h.frozen| > 0 && h.start + |h.frozen[|h.frozen| - 1]| == h.listedTo
    ensures |h.frozen| > 1 ==> h.listedTo + |h.frozen[..|h.frozen| - 1][|h.frozen| - 2]| >= h.listedTo
  {
  }

  lemma {:induction false} RemoveWal(e: Engine, h: Trace)
    requires WalOk(e, h) && TraceOk(e, h) && Enabled(e, FlushRemove)
    ensures WalOk(Do(e, FlushRemove), After(e, h, FlushRemove))
  {
    hide Beyond;
    hide AllRecords;
    hide Chron;
    var e', h' := Do(e, FlushRemove), After(e, h, FlushRemove);
    var n := |e.imms| - 1;
    assert FrozenWalOk(e, h, n);
    forall i | 0 <= i < n
      ensures FrozenWalOk(e', h', i)
    {
      assert FrozenWalOk(e, h, i);
      assert h'.frozen[..i] == h.frozen[..i];
    }
  }

  lemma {:induction false} StepFlushEmpty(e: Engine, h: Trace)
    requires Inv(e, h) && Enabled(e, FlushEmpty)
    ensures Inv(Do(e, FlushEmpty), After(e, h, FlushEmpty))
  {
    hide StoreHit;
    hide MergesDown;
    hide L0Ok;
    var n := |h.frozen| - 1;
    NothingWritten(e.imms[n].mem, h.frozen[n]);
    OldestWrites(h);
    hide Chron;
    hide SaysLast;
    var e', h' := Do(e, FlushEmpty), After(e, h, FlushEmpty);
    assert h.start == h.listedTo;
    EmptyWal(e, h);
  }

  lemma {:induction false} NothingWritten(m: Mem, rs: Records)
    requires SaysLast(m, rs) && m == map[]
    ensures rs == []
  {
    var k := if rs == [] then [] else rs[|rs| - 1].key;
    assert MemHit(m, k) == Last(rs, k);
  }

  lemma {:induction false} EmptyWal(e: Engine, h: Trace)
    requires WalOk(e, h) && Enabled(e, FlushEmpty) && |h.frozen| > 0 && h.frozen[|h.frozen| - 1] == []
    ensures WalOk(Do(e, FlushEmpty), After(e, h, FlushEmpty))
  {
    hide Beyond;
    hide AllRecords;
    var e', h' := Do(e, FlushEmpty), After(e, h, FlushEmpty);
    var n := |e.imms| - 1;
    ChronOldest(h.frozen);
    forall i | 0 <= i < n
      ensures FrozenWalOk(e', h', i)
    {
      assert FrozenWalOk(e, h, i);
      assert h'.frozen[..i] == h.frozen[..i];
    }
  }

  lemma {:induction false} StepFlushPurge(e: Engine, h: Trace)
    requires Inv(e, h) && Enabled(e, FlushPurge)
    ensures Inv(Do(e, FlushPurge), After(e, h, FlushPurge))
  {
    hide StoreHit;
    hide MergesDown;
    hide Chron;
    hide L0Ok;
    hide SaysLast;
    hide Beyond;
    hide AllRecords;
    PurgeWal(e, h);
    hide WalOk;
  }

  lemma {:induction false} PurgeWal(e: Engine, h: Trace)
    requires WalOk(e, h) && TraceOk(e, h) && Enabled(e, FlushPurge)
    ensures WalOk(Do(e, FlushPurge), After(e, h, FlushPurge))
  {
    hide Beyond;
    hide AllRecords;
    hide Chron;
    var e', h' := Do(e, FlushPurge), After(e, h, FlushPurge);
    var w := e.stage.walId;
    var c := BeyondIsTail(e.wal, w);
    assert c < |e.wal|;
    assert Ascending(e'.wal) && LastId(e'.wal) == LastId(e.wal);
    assert AllRecords(e'.wal) == h.logged[h.start..];
    forall i | 0 <= i < |e'.imms|
      ensures FrozenWalOk(e', h', i)
    {
      assert FrozenWalOk(e, h, i);
      BeyondTwice(e.wal, w, e.imms[i].walId);
    }
  }

  // ---------- compaction ----------

  lemma {:induction false} StepStart(e: Engine, h: Trace, step: Step)
    requires Inv(e, h) && Enabled(e, step) && Benign(e, step) && (step.StartLevel? || step.StartL0?)
    ensures Inv(Do(e, step), After(e, h, step))
  {
    hide StoreHit;
    hide MergesDown;
    hide Chron;
    hide L0Ok;
    hide SaysLast;
    hide WalOk;
    var e' := Do(e, step);
    if step.StartL0? {
      assert e.levels[0][..|e.levels[0]|] == e.levels[0];
    }
    StartShape(e, step);
    WalFields(e, e', h);
  }

  lemma {:induction false} StartShape(e: Engine, step: Step)
    requires ShapeOk(e) && Enabled(e, step) && (step.StartLevel? || step.StartL0?)
    ensures ShapeOk(Do(e, step))
  {
    hide MergesDown;
    hide L0Ok;
  }

  lemma {:induction false} WalFields(e: Engine, e': Engine, h: Trace)
    requires WalOk(e, h) && e'.wal == e.wal && e'.imms == e.imms && e'.stage == e.stage
    ensures WalOk(e', h)
  {
    forall i | 0 <= i < |e'.imms|
      ensures FrozenWalOk(e', h, i)
    {
      assert FrozenWalOk(e, h, i);
    }
  }

  lemma {:induction false} StepInstall(e: Engine, h: Trace)
    requires Inv(e, h) && Enabled(e, Install) && Benign(e, Install)
    ensures Inv(Do(e, Install), After(e, h, Install))
  {
    hide StoreHit;
    hide MergesDown;
    hide Chron;
    hide L0Ok;
    hide SaysLast;
    hide WalOk;
    hide Installed;
    hide OldestAgrees;
    if e.job.LevelJob? {
      LevelInstalled(e);
    } else {
      L0Installed(e);
    }
    var e' := Installed(e);
    WalFields(e, e', h);
  }

  /** What an install leaves as it was. */
  ghost predicate OnlyLevels(e: Engine, e': Engine)
  {
    e' == e.(levels := e'.levels, listed := e'.listed, job := NoJob)
  }

  lemma {:induction false} LevelInstalled(e: Engine)
    requires ShapeOk(e) && JobOk(e) && e.job.LevelJob?
    ensures var e' := Installed(e);
            && OnlyLevels(e, e') && ShapeOk(e') && JobOk(e')
            && (forall k :: StoreHit(e'.levels, k) == StoreHit(e.levels, k))
            && (forall k :: StoreHit(e'.listed, k) == StoreHit(e.listed, k))
  {
    hide StoreHit;
    hide MergesDown;
    var l, outs := e.job.level, e.job.outs;
    var e' := Installed(e);
    assert e.listed[l] == e.levels[l] && e.listed[l + 1] == e.levels[l + 1];
    LevelCompactionPreserves(e.levels, l, outs);
    LevelCompactionPreserves(e.listed, l, outs);
    assert e'.levels[0] == e.levels[0] && e'.listed[0] == e.listed[0];
    LevelNums(e, e');
    if e.stage.Listed? {
      assert e'.listed == AddToL0(e'.levels, e.stage.table);
    }
  }

  lemma {:induction false} LevelNums(e: Engine, e': Engine)
    requires ShapeOk(e) && JobOk(e) && e.job.LevelJob? && e' == Installed(e)
    requires |e.listed[e.job.level]| > 0
    ensures forall i, t :: 0 <= i < |e'.listed| && t in e'.listed[i] ==> t.num < e'.nextNum
  {
    hide MergesDown;
    hide L0Ok;
    forall i, t | 0 <= i < |e'.listed| && t in e'.listed[i]
      ensures t.num < e'.nextNum
    {
      assert t in e.listed[i] || t in e.job.outs;
    }
  }

  lemma {:induction false} L0Installed(e: Engine)
    requires ShapeOk(e) && JobOk(e) && e.job.L0Job? && OldestAgrees(e.levels, e.job.count)
    ensures var e' := Installed(e);
            && OnlyLevels(e, e') && ShapeOk(e') && JobOk(e')
            && (forall k :: StoreHit(e'.levels, k) == StoreHit(e.levels, k))
            && (forall k :: StoreHit(e'.listed, k) == StoreHit(e.listed, k))
  {
    hide StoreHit;
    hide MergesDown;
    hide LevelOk;
    hide DistinctNums;
    hide OldestAgrees;
    var L0Job(n, metas, lo, hi, outs) := e.job;
    var e' := Installed(e);
    L0CompactionExact(e.levels, n, lo, hi, outs);
    L0CompactedShape(e.levels, n, e.levels[0][..n], lo, hi, outs);
    assert e.listed[0][..n] == e.levels[0][..n] && e.listed[1] == e.levels[1];
    assert e'.listed == L0Compacted(e.listed, n, lo, hi, outs);
    StillAgrees(e, n);
    L0CompactionExact(e.listed, n, lo, hi, outs);
    L0CompactedShape(e.listed, n, e.levels[0][..n], lo, hi, outs);
    if e.stage.Listed? {
      ListedAfterL0(e, n, lo, hi, outs);
    }
    L0Nums(e, e');
  }

  lemma {:induction false} ListedAfterL0(e: Engine, n: nat, lo: Key, hi: Key, outs: Level)
    requires ShapeOk(e) && e.stage.Listed? && n <= |e.levels[0]|
    ensures L0Compacted(e.listed, n, lo, hi, outs) == AddToL0(L0Compacted(e.levels, n, lo, hi, outs), e.stage.table)
  {
    NewerRemain(e.levels[0], n);
    NewerRemain(e.listed[0], n);
    assert e.listed[0][..n] == e.levels[0][..n];
    assert e.listed[0][n..] == e.levels[0][n..] + [e.stage.table];
  }

  lemma {:induction false} L0Nums(e: Engine, e': Engine)
    requires ShapeOk(e) && JobOk(e) && e.job.L0Job? && e' == Installed(e)
    ensures forall i, t :: 0 <= i < |e'.listed| && t in e'.listed[i] ==> t.num < e'.nextNum
  {
    hide MergesDown;
    hide LevelOk;
    hide DistinctNums;
    forall i, t | 0 <= i < |e'.listed| && t in e'.listed[i]
      ensures t.num < e'.nextNum
    {
      assert t in e.listed[i] || t in e.job.outs;
    }
  }

  /** A table listed since does not spoil the agreement. */
  lemma {:induction false} StillAgrees(e: Engine, n: nat)
    requires ShapeOk(e) && n <= |e.levels[0]| && OldestAgrees(e.levels, n)
    ensures n <= |e.listed[0]| && OldestAgrees(e.listed, n)
  {
    if e.stage.Listed? {
      var t := e.stage.table;
      assert e.listed[0][..n] == e.levels[0][..n];
      assert e.listed[0][n..] == e.levels[0][n..] + [t];
      forall k
        ensures LevelHit(Reversed(e.listed[0][n..]), k).Some?
                || LevelHit(e.listed[0][..n], k) == LevelHit(Reversed(e.listed[0][..n]), k)
      {
        var newer := e.levels[0][n..];
        NewestFirst(newer + [t], |newer|, k);
        assert (newer + [t])[..|newer|] == newer;
      }
    }
  }

  // ---------- crash ----------

  lemma {:induction false} StepCrash(e: Engine, h: Trace, partial: Records)
    requires Inv(e, h) && Enabled(e, Crash(partial))
    ensures Inv(Do(e, Crash(partial)), After(e, h, Crash(partial)))
  {
    hide StoreHit;
    hide L0Ok;
    hide AllRecords;
    hide Beyond;
    hide Logged;
    hide ApplyAll;
    hide SaysLast;
    hide WalOk;
    var e', h' := Do(e, Crash(partial)), After(e, h, Crash(partial));
    CrashWal(e, h, partial);
    EmptySaysNothing();
    SaysLastAfter(map[], [], h'.current);
    assert [] + h'.current == h'.current;
    var all := h.logged + partial;
    assert all[..h.listedTo] == h.logged[..h.listedTo];
    assert Chron([]) == [];
    CrashNums(e.listed);
  }

  lemma {:induction false} CrashNums(ls: seq<Level>)
    ensures forall i, t :: 0 <= i < |ls| && t in ls[i] ==> t.num < NumAfterAll(ls)
  {
    forall i, t | 0 <= i < |ls| && t in ls[i]
      ensures t.num < NumAfterAll(ls)
    {
      assert ls[i] in ls;
    }
  }

  lemma {:induction false} CrashWal(e: Engine, h: Trace, partial: Records)
    requires WalOk(e, h) && Enabled(e, Crash(partial)) && h.start <= h.listedTo
    ensures var e', h' := Do(e, Crash(partial)), After(e, h, Crash(partial));
            && WalOk(e', h') && h'.start <= h'.listedTo && h'.logged == h.logged + partial
            && h'.start <= |h'.logged| && h'.logged[h'.start..] == h'.current
  {
    hide AllRecords;
    hide Beyond;
    hide Logged;
    hide ApplyAll;
    hide NumAfterAll;
    LoggedRecords(e.wal, partial);
    LoggedNotEmpty(e.wal, partial);
    var a := AllRecords(e.wal);
    var all := h.logged + partial;
    assert all[|all| - |a + partial|..] == h.logged[|h.logged| - |a|..] + partial;
  }

  /** What a reopened engine says of a key: its log first, then the tables in the manifest. */
  lemma {:induction false} ReopenedHit(e: Engine, partial: Records, k: Key)
    requires |e.wal| > 0 && |e.listed| > 0
    ensures EngineHit(Reopened(e, partial), k) == Over(Last(AllRecords(e.wal) + partial, k), StoreHit(e.listed, k))
  {
    hide StoreHit;
    hide AllRecords;
    hide NumAfterAll;
    LoggedRecords(e.wal, partial);
    ApplyAllHit(map[], AllRecords(e.wal) + partial, k);
  }

  // ---------- runs ----------

  lemma {:induction false} StepInv(e: Engine, h: Trace, step: Step)
    requires Inv(e, h) && Enabled(e, step) && Benign(e, step)
    ensures Inv(Do(e, step), After(e, h, step))
    ensures After(e, h, step).logged == h.logged + Adds(step)
  {
    hide Inv;
    hide Enabled;
    hide Benign;
    hide Do;
    match step
    case Write(rs) => StepWrite(e, h, rs);
    case Freeze => StepFreeze(e, h);
    case FlushEmpty => StepFlushEmpty(e, h);
    case FlushList(t) => StepFlushList(e, h, t);
    case FlushAppend => StepFlushAppend(e, h);
    case FlushRemove => StepFlushRemove(e, h);
    case FlushPurge => StepFlushPurge(e, h);
    case StartLevel(l, outs) => StepStart(e, h, step);
    case StartL0(lo, hi, outs) => StepStart(e, h, step);
    case Install => StepInstall(e, h);
    case Crash(partial) => StepCrash(e, h, partial);
  }

  const NoTrace := Trace([], 0, 0, 0, [], [])

  lemma {:induction false} InitInv(e: Engine)
    requires Init(e)
    ensures Inv(e, NoTrace)
  {
    EmptySaysNothing();
    OneFile(e.wal[0]);
    forall k
      ensures StoreHit(e.levels, k).None?
    {
      EmptyStore(e.levels, k);
    }
    assert Chron([]) == [];
  }

  lemma {:induction false} EmptyStore(ls: seq<Level>, k: Key)
    requires |ls| > 0 && forall i :: 0 <= i < |ls| ==> ls[i] == []
    ensures StoreHit(ls, k).None?
  {
    assert Runs(Reversed(ls[0])) == [];
    EmptyDeep(ls[1..], k);
  }

  lemma {:induction false} EmptyDeep(ls: seq<Level>, k: Key)
    requires forall i :: 0 <= i < |ls| ==> ls[i] == []
    ensures DeepHit(ls, k).None?
  {
    if ls != [] {
      assert Runs(ls[0]) == [];
      EmptyDeep(ls[1..], k);
    }
  }

  lemma {:induction false} RunTrace(run: seq<Engine>, steps: seq<Step>, i: nat) returns (h: Trace)
    requires IsRun(run, steps) && i < |run|
    ensures Inv(run[i], h) && h.logged == AllWrites(steps[..i])
    decreases i
  {
    hide Inv;
    hide Enabled;
    hide Benign;
    hide Do;
    hide Init;
    if i == 0 {
      InitInv(run[0]);
      h := NoTrace;
    } else {
      var h0 := RunTrace(run, steps, i - 1);
      StepInv(run[i - 1], h0, steps[i - 1]);
      h := After(run[i - 1], h0, steps[i - 1]);
      assert steps[..i][..i - 1] == steps[..i - 1];
    }
  }

  /** Over every run of writes, batches, freezes, flushes, compactions and crashes, Get answers
      as the plain map does that has seen the same writes. */
  lemma {:induction false} EngineRefinesMap(run: seq<Engine>, steps: seq<Step>, i: nat, k: Key)
    requires IsRun(run, steps) && i < |run|
    ensures |run[i].levels| > 0
    ensures var m := Outcome(map[], AllWrites(steps[..i]));
            Visible(EngineHit(run[i], k)) == if k in m then Some(m[k]) else None
  {
    hide Inv;
    hide EngineHit;
    hide Enabled;
    hide Benign;
    hide Do;
    hide Init;
    var h := RunTrace(run, steps, i);
    LevelsExist(run[i], h);
    ReadsLast(run[i], h, k);
    OutcomeIsLast(map[], AllWrites(steps[..i]), k);
  }

  /** Crash recovery: from any reachable state, reopening what is on disk gives every write made,
      those of an unfinished batch up to where it got. */
  lemma {:induction false} RecoveryIsComplete(run: seq<Engine>, steps: seq<Step>, i: nat, partial: Records, k: Key)
    requires IsRun(run, steps) && i < |run|
    ensures |run[i].listed| > 0
    ensures EngineHit(Reopened(run[i], partial), k) == Last(AllWrites(steps[..i]) + partial, k)
  {
    hide Inv;
    hide EngineHit;
    hide Reopened;
    hide Benign;
    hide Init;
    hide IsRun;
    hide AllWrites;
    var h := RunTrace(run, steps, i);
    LevelsExist(run[i], h);
    StepCrash(run[i], h, partial);
    ReadsLast(Reopened(run[i], partial), After(run[i], h, Crash(partial)), k);
  }

  lemma {:induction false} LevelsExist(e: Engine, h: Trace)
    requires Inv(e, h)
    ensures |e.levels| >= 2 && |e.listed| >= 2 && |e.wal| > 0
  {
    hide LevelOk;
    hide DistinctNums;
    hide StoreOk;
    hide MemsOk;
    hide TraceOk;
    hide JobOk;
  }

  /** At every moment the log files hold a suffix of the writes, in order, and the tables in the
      manifest speak for everything before it. */
  lemma {:induction false} LogsCoverTheRest(run: seq<Engine>, steps: seq<Step>, i: nat)
    returns (from: nat, covered: nat)
    requires IsRun(run, steps) && i < |run|
    ensures from <= covered <= |AllWrites(steps[..i])| && |run[i].listed| > 0
    ensures AllRecords(run[i].wal) == AllWrites(steps[..i])[from..]
    ensures forall k :: StoreHit(run[i].listed, k) == Last(AllWrites(steps[..i])[..covered], k)
  {
    hide IsRun;
    hide StoreHit;
    hide AllRecords;
    var h := RunTrace(run, steps, i);
    from := |h.logged| - |AllRecords(run[i].wal)|;
    covered := h.listedTo;
  }

  /** Nothing is excluded: at any moment of a run the engine may take any writes, freeze, crash within any
      batch, and flush the oldest frozen memtable as any table that holds it under the next number. */
  lemma {:induction false} NothingIsExcluded(run: seq<Engine>, steps: seq<Step>, i: nat)
    requires IsRun(run, steps) && i < |run|
    ensures var e := run[i];
            && Enabled(e, Freeze)
            && (forall rs :: Enabled(e, Write(rs))) && (forall rs :: Enabled(e, Crash(rs)))
            && (e.stage.Resting? && |e.imms| > 0 ==>
                  && (e.imms[|e.imms| - 1].mem == map[] ==> Enabled(e, FlushEmpty))
                  && (forall t: Table :: t.num == e.nextNum && Holds(t, e.imms[|e.imms| - 1].mem) ==>
                        Enabled(e, FlushList(t))))
            && (!e.job.NoJob? ==> Enabled(e, Install))
  {
    hide Inv;
    hide IsRun;
    hide Holds;
    var h := RunTrace(run, steps, i);
    LevelsExist(run[i], h);
  }
}
