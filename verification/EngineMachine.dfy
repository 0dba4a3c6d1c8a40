/** The storage engine as a machine: writes, rotation, every separate part of a flush, compaction
    and crash are steps. What is on disk survives a crash, the rest is rebuilt by Open. */
module EngineMachine {
  import opened Prelude
  import opened Keys
  import opened Tables
  import opened Compaction
  import opened LevelCompaction
  import opened Writes

  datatype WalFile = WalFile(id: nat, records: Records)

  /** A frozen memtable and the number of the log file that was active when it was frozen. */
  datatype Frozen = Frozen(mem: Mem, walId: nat)

  /** How far the flush of the oldest frozen memtable has come. */
  datatype Stage =
    | Resting
    | Listed(table: Table)    // the manifest has the table, the readers do not yet
    | Appended                // the reader is in L0, the memtable is still there
    | Removed(walId: nat)     // the memtable is gone, its log files are not

  /** A compaction that has read its inputs and is about to install its outputs. */
  datatype Job =
    | NoJob
    | LevelJob(level: nat, outs: Level)
    | L0Job(count: nat, metas: set<nat>, lo: Key, hi: Key, outs: Level)

  datatype Engine = Engine(
    wal: seq<WalFile>,
    active: Mem,
    imms: seq<Frozen>,        // newest first
    levels: seq<Level>,       // open readers
    listed: seq<Level>,       // the manifest
    nextNum: nat,
    stage: Stage,
    job: Job)

  datatype Step =
    | Write(records: Records)
    | Freeze
    | FlushEmpty
    | FlushList(table: Table)
    | FlushAppend
    | FlushRemove
    | FlushPurge
    | StartLevel(level: nat, outs: Level)
    | StartL0(lo: Key, hi: Key, outs: Level)
    | Install
    | Crash(partial: Records)   // what a batch under way had put in the log

  // ---------- reading ----------

  function FrozenHit(imms: seq<Frozen>, k: Key): (r: Finding)
  {
    if imms == [] then None else Over(MemHit(imms[0].mem, k), FrozenHit(imms[1..], k))
  }

  /** Get: memtable, frozen memtables newest first, tables. */
  function EngineHit(e: Engine, k: Key): (r: Finding)
    requires |e.levels| > 0
  {
    Over(MemHit(e.active, k), Over(FrozenHit(e.imms, k), StoreHit(e.levels, k)))
  }

  // ---------- log files ----------

  function AllRecords(wal: seq<WalFile>): (r: Records)
  {
    if wal == [] then [] else wal[0].records + AllRecords(wal[1..])
  }

  /** The files PurgeOlderThan leaves. */
  function Beyond(wal: seq<WalFile>, id: nat): (r: seq<WalFile>)
    ensures forall f :: f in r <==> f in wal && f.id > id
  {
    if wal == [] then []
    else
      assert wal == [wal[0]] + wal[1..];
      if wal[0].id > id then [wal[0]] + Beyond(wal[1..], id) else Beyond(wal[1..], id)
  }

  function LastId(wal: seq<WalFile>): (r: nat)
  {
    if wal == [] then 0 else wal[|wal| - 1].id
  }

  /** Append to the active file. */
  function Logged(wal: seq<WalFile>, rs: Records): (r: seq<WalFile>)
  {
    if wal == [] then []
    else wal[|wal| - 1 := WalFile(wal[|wal| - 1].id, wal[|wal| - 1].records + rs)]
  }

  // ---------- steps ----------

  function AddToL0(ls: seq<Level>, t: Table): (r: seq<Level>)
    requires |ls| > 0
  {
    ls[0 := ls[0] + [t]]
  }

  ghost predicate Fresh(outs: Level, num: nat)
  {
    (forall o :: o in outs ==> o.num >= num)
    && forall o, o' :: o in outs && o' in outs && o.num == o'.num ==> o == o'
  }

  function NumAfter(ts: Level, num: nat): (r: nat)
    ensures r >= num && forall t :: t in ts ==> t.num < r
  {
    if ts == [] then num
    else
      assert ts == [ts[0]] + ts[1..];
      Max(ts[0].num + 1, NumAfter(ts[1..], num))
  }

  function NumAfterAll(ls: seq<Level>): (r: nat)
    ensures forall l, t :: l in ls && t in l ==> t.num < r
  {
    if ls == [] then 1
    else
      assert ls == [ls[0]] + ls[1..];
      NumAfter(ls[0], NumAfterAll(ls[1..]))
  }

  ghost predicate Holds(t: Table, m: Mem)
  {
    TableOk(t) && forall k :: Hit(t.entries, k) == MemHit(m, k)
  }

  /** When the code can take the step. Writers and mergers are described by what they produce. */
  ghost predicate Enabled(e: Engine, step: Step)
  {
    && |e.levels| >= 2 && |e.listed| >= 2 && |e.wal| > 0
    && match step
       case Write(rs) => true
       case Freeze => true
       case FlushEmpty => e.stage.Resting? && |e.imms| > 0 && e.imms[|e.imms| - 1].mem == map[]
       case FlushList(t) =>
         e.stage.Resting? && |e.imms| > 0 && t.num == e.nextNum && Holds(t, e.imms[|e.imms| - 1].mem)
       case FlushAppend => e.stage.Listed?
       case FlushRemove => e.stage.Appended? && |e.imms| > 0
       case FlushPurge => e.stage.Removed?
       case StartLevel(l, outs) =>
         && e.job.NoJob? && 1 <= l < |e.levels| - 1 && |e.levels[l]| > 0 && Fresh(outs, e.nextNum)
         && MergesDown([e.levels[l][0]], e.levels[l + 1], MinKey(e.levels[l][0]), MaxKey(e.levels[l][0]), outs)
       case StartL0(lo, hi, outs) =>
         && e.job.NoJob? && |e.levels[0]| > 0 && Fresh(outs, e.nextNum)
         && MergesDown(e.levels[0], e.levels[1], lo, hi, outs)
       case Install => !e.job.NoJob?
       case Crash(partial) => true
  }

  function Do(e: Engine, step: Step): (r: Engine)
    requires Enabled(e, step)
  {
    match step
    case Write(rs) => e.(wal := Logged(e.wal, rs), active := ApplyAll(e.active, rs))
    case Freeze =>
      e.(imms := [Frozen(e.active, LastId(e.wal))] + e.imms,
         wal := e.wal + [WalFile(LastId(e.wal) + 1, [])],
         active := map[])
    case FlushEmpty => e.(imms := e.imms[..|e.imms| - 1], nextNum := e.nextNum + 1)
    case FlushList(t) => e.(listed := AddToL0(e.listed, t), stage := Listed(t), nextNum := e.nextNum + 1)
    case FlushAppend => e.(levels := AddToL0(e.levels, e.stage.table), stage := Appended)
    case FlushRemove => e.(imms := e.imms[..|e.imms| - 1], stage := Removed(e.imms[|e.imms| - 1].walId))
    case FlushPurge => e.(wal := Beyond(e.wal, e.stage.walId), stage := Resting)
    case StartLevel(l, outs) => e.(job := LevelJob(l, outs), nextNum := NumAfter(outs, e.nextNum))
    case StartL0(lo, hi, outs) =>
      e.(job := L0Job(|e.levels[0]|, Nums(e.listed[0]), lo, hi, outs), nextNum := NumAfter(outs, e.nextNum))
    case Install => Installed(e)
    case Crash(partial) => Reopened(e, partial)
  }

  /** The write-locked part of a compaction, on the readers and on the manifest. */
  function Installed(e: Engine): (r: Engine)
    requires |e.levels| >= 2 && |e.listed| >= 2
  {
    match e.job
    case NoJob => e
    case LevelJob(l, outs) =>
      if 1 <= l < |e.levels| - 1 && |e.levels[l]| > 0 && |e.listed| == |e.levels| && |e.listed[l]| > 0 then
        e.(levels := LevelCompacted(e.levels, l, outs), listed := LevelCompacted(e.listed, l, outs), job := NoJob)
      else e
    case L0Job(n, metas, lo, hi, outs) =>
      if n <= |e.levels[0]| then
        e.(levels := L0Compacted(e.levels, n, lo, hi, outs),
           listed := e.listed[0 := Without(e.listed[0], metas)][1 := Pushed(e.listed[1], lo, hi, outs)],
           job := NoJob)
      else e
  }

  /** Open on what is on disk: tables as listed, the log files replayed into one memtable. */
  function Reopened(e: Engine, partial: Records): (r: Engine)
  {
    var wal := Logged(e.wal, partial);
    Engine(wal, ApplyAll(map[], AllRecords(wal)), [], e.listed, e.listed, NumAfterAll(e.listed), Resting, NoJob)
  }

  /** What the step adds to the writes made so far. */
  function Adds(step: Step): (r: Records)
  {
    match step
    case Write(rs) => rs
    case Crash(partial) => partial
    case _ => []
  }

  /** The two hypotheses on L0 compaction: its files are snapshot while readers and manifest agree,
      and its precedence (oldest first) happens to be harmless. */
  ghost predicate Benign(e: Engine, step: Step)
  {
    && (step.StartL0? ==> !e.stage.Listed?)
    && (step.Install? && e.job.L0Job? ==>
          |e.levels| > 0 && e.job.count <= |e.levels[0]| && OldestAgrees(e.levels, e.job.count))
  }

  ghost predicate Init(e: Engine)
  {
    && e.wal == [WalFile(1, [])] && e.active == map[] && e.imms == []
    && |e.levels| >= 2 && (forall i :: 0 <= i < |e.levels| ==> e.levels[i] == [])
    && e.listed == e.levels && e.nextNum == 1 && e.stage == Resting && e.job == NoJob
  }

  ghost predicate IsRun(run: seq<Engine>, steps: seq<Step>)
  {
    && |run| == |steps| + 1
    && Init(run[0])
    && forall i :: 0 <= i < |steps| ==>
         Enabled(run[i], steps[i]) && Benign(run[i], steps[i]) && run[i + 1] == Do(run[i], steps[i])
  }

  /** All writes made in the run. */
  function AllWrites(steps: seq<Step>): (r: Records)
  {
    if steps == [] then [] else AllWrites(steps[..|steps| - 1]) + Adds(steps[|steps| - 1])
  }
}
