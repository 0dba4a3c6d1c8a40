/** The flush channel with its sixteen places. A freeze that finds it full leaves its memtable
    without a flush task; later tasks then overtake it. The machine here is the engine's with the
    channel in front of the flush loop. */
module FlushQueue {
  import opened Prelude
  import opened Keys
  import opened Tables
  import opened Compaction
  import opened LevelCompaction
  import opened Writes
  import opened EngineMachine
  import opened EngineInvariant
  import opened EngineRefinement

  /** The capacity of flushCh. */
  const CAPACITY: nat := 16

  /** The engine, the tasks in the channel and the task of the flush loop. A task is named by the
      log file of its memtable. */
  datatype Queued = Queued(e: Engine, queue: seq<nat>, busy: Option<nat>)

  datatype QueueStep =
    | Plain(step: Step)       // writing, a reader's append, compaction: as without the channel
    | Send                    // freeze, and send the task if there is room
    | Take                    // the flush loop receives the next task
    | SkipEmpty
    | ListTask(table: Table)
    | RemoveTask
    | FinishTask

  /** The memtable of a task, if it is still among the frozen ones. */
  function TaskMem(imms: seq<Frozen>, id: nat): (r: Option<Mem>)
  {
    if imms == [] then None
    else if imms[0].walId == id then Some(imms[0].mem)
    else TaskMem(imms[1..], id)
  }

  /** removeImmutable. */
  function WithoutTask(imms: seq<Frozen>, id: nat): (r: seq<Frozen>)
  {
    if imms == [] then []
    else if imms[0].walId == id then imms[1..]
    else [imms[0]] + WithoutTask(imms[1..], id)
  }

  ghost predicate Allowed(q: Queued, step: QueueStep)
  {
    && |q.e.levels| >= 2 && |q.e.listed| >= 2 && |q.e.wal| > 0
    && match step
       case Plain(s) =>
         && (s.Write? || s.FlushAppend? || s.StartLevel? || s.StartL0? || s.Install?)
         && Enabled(q.e, s) && Benign(q.e, s)
       case Send => true
       case Take => q.busy.None? && |q.queue| > 0
       case SkipEmpty => q.busy.Some? && q.e.stage.Resting? && TaskMem(q.e.imms, q.busy.value) == Some(map[])
       case ListTask(t) =>
         && q.busy.Some? && q.e.stage.Resting? && t.num == q.e.nextNum
         && TaskMem(q.e.imms, q.busy.value).Some? && Holds(t, TaskMem(q.e.imms, q.busy.value).value)
       case RemoveTask => q.busy.Some? && q.e.stage.Appended?
       case FinishTask => q.busy.Some? && q.e.stage.Removed?
  }

  function Next(q: Queued, step: QueueStep): (r: Queued)
    requires Allowed(q, step)
  {
    match step
    case Plain(s) => q.(e := Do(q.e, s))
    case Send =>
      Queued(Do(q.e, Freeze), if |q.queue| < CAPACITY then q.queue + [LastId(q.e.wal)] else q.queue, q.busy)
    case Take => q.(queue := q.queue[1..], busy := Some(q.queue[0]))
    case SkipEmpty =>
      q.(e := q.e.(imms := WithoutTask(q.e.imms, q.busy.value), nextNum := q.e.nextNum + 1), busy := None)
    case ListTask(t) =>
      q.(e := q.e.(listed := AddToL0(q.e.listed, t), stage := Listed(t), nextNum := q.e.nextNum + 1))
    case RemoveTask =>
      q.(e := q.e.(imms := WithoutTask(q.e.imms, q.busy.value), stage := Removed(q.busy.value)))
    case FinishTask => q.(e := Do(q.e, FlushPurge), busy := None)
  }

  function Written(step: QueueStep): (r: Records)
  {
    if step.Plain? then Adds(step.step) else []
  }

  ghost predicate IsQueueRun(run: seq<Queued>, steps: seq<QueueStep>)
  {
    && |run| == |steps| + 1
    && Init(run[0].e) && run[0].queue == [] && run[0].busy.None?
    && forall i :: 0 <= i < |steps| ==> Allowed(run[i], steps[i]) && run[i + 1] == Next(run[i], steps[i])
  }

  function WrittenBy(steps: seq<QueueStep>): (r: Records)
  {
    if steps == [] then [] else WrittenBy(steps[..|steps| - 1]) + Written(steps[|steps| - 1])
  }

  // ---------- the ledger ----------

  /** What became of the writes: those of each frozen memtable, oldest first, with its log file, and
      those in the active one. `fin` are the memtables whose flush is over, `tasks` those whose task
      is with the flush loop or in the channel, `dropped` those that found it full. The log files
      reach back to memtable `from`. */
  datatype Ledger = Ledger(
    segs: seq<Records>, ids: seq<nat>, current: Records,
    fin: set<nat>, tasks: seq<nat>, dropped: set<nat>, from: nat)

  const NoLedger := Ledger([], [], [], {}, [], {}, 0)

  ghost function Entered(q: Queued, h: Ledger, step: QueueStep): (r: Ledger)
  {
    match step
    case Plain(s) => h.(current := h.current + Adds(s))
    case Send =>
      var n := |h.segs|;
      var h' := h.(segs := h.segs + [h.current], ids := h.ids + [LastId(q.e.wal)], current := []);
      if |q.queue| < CAPACITY then h'.(tasks := h.tasks + [n]) else h'.(dropped := h.dropped + {n})
    case SkipEmpty => if h.tasks == [] then h else h.(fin := h.fin + {h.tasks[0]}, tasks := h.tasks[1..])
    case FinishTask =>
      if h.tasks == [] then h
      else h.(fin := h.fin + {h.tasks[0]}, tasks := h.tasks[1..], from := h.tasks[0] + 1)
    case _ => h
  }

  ghost function LedgerOf(run: seq<Queued>, steps: seq<QueueStep>, j: nat): (r: Ledger)
    requires j <= |steps| && j <= |run|
  {
    if j == 0 then NoLedger else Entered(run[j - 1], LedgerOf(run, steps, j - 1), steps[j - 1])
  }

  /** The last write to a key in the memtables of `s` among the first n. */
  ghost function LastIn(segs: seq<Records>, s: set<nat>, n: nat, k: Key): (r: Finding)
    requires n <= |segs|
  {
    if n == 0 then None
    else Over(if n - 1 in s then Last(segs[n - 1], k) else None, LastIn(segs, s, n - 1, k))
  }

  ghost function Join(segs: seq<Records>): (r: Records)
  {
    if segs == [] then [] else Join(segs[..|segs| - 1]) + segs[|segs| - 1]
  }

  ghost function Members(s: seq<nat>): (r: set<nat>)
  {
    set i | i in s
  }

  /** The memtables that the manifest's tables hold. */
  ghost function ListedSet(q: Queued, h: Ledger): (r: set<nat>)
  {
    if q.e.stage.Resting? || h.tasks == [] then h.fin else h.fin + {h.tasks[0]}
  }

  /** Those that the readers' tables hold. */
  ghost function DoneSet(q: Queued, h: Ledger): (r: set<nat>)
  {
    if q.e.stage.Resting? || q.e.stage.Listed? || h.tasks == [] then h.fin else h.fin + {h.tasks[0]}
  }

  /** Those still in memory. */
  ghost function WaitingSet(q: Queued, h: Ledger): (r: set<nat>)
  {
    h.dropped + Members(if q.e.stage.Removed? && h.tasks != [] then h.tasks[1..] else h.tasks)
  }

  // ---------- the invariant ----------

  /** The frozen memtables are those of `s` among the first n, newest first. */
  ghost predicate ImmsFor(imms: seq<Frozen>, h: Ledger, s: set<nat>, n: nat)
    requires n <= |h.segs| && n <= |h.ids|
    decreases n
  {
    if n == 0 then imms == []
    else if n - 1 in s then
      && |imms| > 0 && imms[0].walId == h.ids[n - 1] && SaysLast(imms[0].mem, h.segs[n - 1])
      && ImmsFor(imms[1..], h, s, n - 1)
    else ImmsFor(imms, h, s, n - 1)
  }

  ghost predicate Rising(s: seq<nat>)
  {
    forall i, j :: 0 <= i < j < |s| ==> s[i] < s[j]
  }

  /** The task of the flush loop and those in the channel. */
  ghost function InHand(q: Queued): (r: seq<nat>)
  {
    (if q.busy.Some? then [q.busy.value] else []) + q.queue
  }

  /** Every memtable is in one of the three groups, and the tasks are newer than all flushed ones. */
  ghost predicate Groups(h: Ledger)
  {
    && (forall i :: 0 <= i < |h.tasks| ==> h.from <= h.tasks[i] < |h.segs|)
    && (forall x :: x in h.tasks ==> x !in h.dropped)
    && (forall x, y :: x in h.fin && y in h.tasks ==> x < y)
    && (forall x :: x in h.fin ==> x < |h.segs| && x !in h.dropped)
    && (forall x :: x in h.dropped ==> x < |h.segs|)
    && (forall x :: 0 <= x < |h.segs| ==> x in h.fin || x in h.tasks || x in h.dropped)
  }

  ghost predicate TasksOk(q: Queued, h: Ledger)
  {
    && |h.ids| == |h.segs| && Rising(h.ids) && Rising(h.tasks) && Groups(h)
    && |h.tasks| == |InHand(q)|
    && (forall i :: 0 <= i < |h.tasks| ==> InHand(q)[i] == h.ids[h.tasks[i]])
    && (!q.e.stage.Resting? ==> q.busy.Some?)
    && (q.e.stage.Removed? ==> q.busy == Some(q.e.stage.walId))
  }

  ghost predicate TablesSay(q: Queued, h: Ledger)
    requires |q.e.levels| > 0 && |q.e.listed| > 0
  {
    && (forall k :: StoreHit(q.e.levels, k) == LastIn(h.segs, DoneSet(q, h), |h.segs|, k))
    && (forall k :: StoreHit(q.e.listed, k) == LastIn(h.segs, ListedSet(q, h), |h.segs|, k))
  }

  ghost predicate LogsSay(q: Queued, h: Ledger)
    requires |h.ids| == |h.segs|
  {
    && |q.e.wal| > 0 && Ascending(q.e.wal) && h.from <= |h.segs|
    && AllRecords(q.e.wal) == Join(h.segs[h.from..]) + h.current
    && forall i :: h.from <= i < |h.segs| ==> LogBeyond(q, h, i)
  }

  ghost predicate LogBeyond(q: Queued, h: Ledger, i: nat)
    requires |h.ids| == |h.segs| && i < |h.segs|
  {
    && h.ids[i] < LastId(q.e.wal)
    && AllRecords(Beyond(q.e.wal, h.ids[i])) == Join(h.segs[i + 1..]) + h.current
  }

  ghost predicate IdsBelow(q: Queued, h: Ledger)
  {
    forall i :: 0 <= i < |h.ids| ==> h.ids[i] < LastId(q.e.wal)
  }

  ghost predicate MemsSay(q: Queued, h: Ledger)
    requires |h.ids| == |h.segs|
  {
    ImmsFor(q.e.imms, h, WaitingSet(q, h), |h.segs|) && SaysLast(q.e.active, h.current)
  }

  ghost predicate QueueInv(q: Queued, h: Ledger)
  {
    ShapeOk(q.e) && JobOk(q.e) && TasksOk(q, h) && TablesSay(q, h) && MemsSay(q, h) && LogsSay(q, h) && IdsBelow(q, h)
  }

  // ---------- findings of sets of memtables ----------

  lemma {:induction false} LastInSame(segs: seq<Records>, segs': seq<Records>, s: set<nat>, s': set<nat>, n: nat,
                                      k: Key)
    requires n <= |segs| && n <= |segs'| && segs[..n] == segs'[..n]
    requires forall i :: 0 <= i < n ==> (i in s <==> i in s')
    ensures LastIn(segs, s, n, k) == LastIn(segs', s', n, k)
  {
    if n > 0 {
      assert segs[n - 1] == segs[..n][n - 1] == segs'[n - 1];
      assert segs[..n - 1] == segs[..n][..n - 1] == segs'[..n - 1];
      LastInSame(segs, segs', s, s', n - 1, k);
    }
  }

  lemma {:induction false} LastInBeyond(segs: seq<Records>, s: set<nat>, m: nat, n: nat, k: Key)
    requires m <= n <= |segs| && forall i :: m <= i < n ==> i !in s || Last(segs[i], k).None?
    ensures LastIn(segs, s, n, k) == LastIn(segs, s, m, k)
  {
    if m < n {
      LastInBeyond(segs, s, m, n - 1, k);
    }
  }

  /** A memtable newer than those of the set, added to it. */
  lemma {:induction false} LastInAdd(segs: seq<Records>, s: set<nat>, b: nat, k: Key)
    requires b < |segs| && forall i :: i in s ==> i < b
    ensures LastIn(segs, s + {b}, |segs|, k) == Over(Last(segs[b], k), LastIn(segs, s, |segs|, k))
  {
    LastInBeyond(segs, s + {b}, b + 1, |segs|, k);
    LastInBeyond(segs, s, b, |segs|, k);
    LastInSame(segs, segs, s + {b}, s, b, k);
  }

  lemma {:induction false} LastInAll(segs: seq<Records>, s: set<nat>, k: Key)
    requires forall i :: 0 <= i < |segs| ==> i in s
    ensures LastIn(segs, s, |segs|, k) == Last(Join(segs), k)
  {
    if segs != [] {
      var n := |segs| - 1;
      LastInAll(segs[..n], s, k);
      LastInSame(segs, segs[..n], s, s, n, k);
      LastAppend(Join(segs[..n]), segs[n], k);
    }
  }

  lemma {:induction false} JoinAppend(a: seq<Records>, b: seq<Records>)
    ensures Join(a + b) == Join(a) + Join(b)
  {
    if b == [] {
      assert a + b == a;
    } else {
      assert (a + b)[..|a + b| - 1] == a + b[..|b| - 1];
      JoinAppend(a, b[..|b| - 1]);
    }
  }

  lemma {:induction false} JoinOne(a: Records)
    ensures Join([a]) == a
  {
    assert [a][..0] == [] && Join([]) == [];
  }

  // ---------- frozen memtables ----------

  lemma {:induction false} ImmsHit(imms: seq<Frozen>, h: Ledger, s: set<nat>, n: nat, k: Key)
    requires n <= |h.segs| && n <= |h.ids| && ImmsFor(imms, h, s, n)
    ensures FrozenHit(imms, k) == LastIn(h.segs, s, n, k)
  {
    if n > 0 {
      ImmsHit(if n - 1 in s then imms[1..] else imms, h, s, n - 1, k);
    }
  }

  lemma {:induction false} ImmsSame(imms: seq<Frozen>, h: Ledger, h': Ledger, s: set<nat>, s': set<nat>, n: nat)
    requires n <= |h.segs| && n <= |h.ids| && n <= |h'.segs| && n <= |h'.ids| && ImmsFor(imms, h, s, n)
    requires forall i :: 0 <= i < n ==> h'.segs[i] == h.segs[i] && h'.ids[i] == h.ids[i] && (i in s <==> i in s')
    ensures ImmsFor(imms, h', s', n)
  {
    if n > 0 {
      ImmsSame(if n - 1 in s then imms[1..] else imms, h, h', s, s', n - 1);
    }
  }

  /** The memtable of a task that waits, and the others once it is removed. */
  lemma {:induction false} ImmsTask(imms: seq<Frozen>, h: Ledger, s: set<nat>, n: nat, b: nat)
    requires n <= |h.segs| && n <= |h.ids| && ImmsFor(imms, h, s, n) && Rising(h.ids) && b < n && b in s
    ensures TaskMem(imms, h.ids[b]).Some? && SaysLast(TaskMem(imms, h.ids[b]).value, h.segs[b])
    ensures ImmsFor(WithoutTask(imms, h.ids[b]), h, s - {b}, n)
  {
    hide SaysLast;
    if n - 1 == b {
      ImmsSame(imms[1..], h, h, s, s - {b}, n - 1);
    } else if n - 1 in s {
      assert h.ids[b] < h.ids[n - 1];
      ImmsTask(imms[1..], h, s, n - 1, b);
      assert WithoutTask(imms, h.ids[b])[1..] == WithoutTask(imms[1..], h.ids[b]);
    } else {
      ImmsTask(imms, h, s, n - 1, b);
    }
  }

  // ---------- steps ----------

  lemma {:induction false} PlainTasks(q: Queued, h: Ledger, s: Step)
    requires TasksOk(q, h) && Allowed(q, Plain(s))
    ensures TasksOk(Next(q, Plain(s)), Entered(q, h, Plain(s)))
  {
    hide MergesDown;
    hide Installed;
    hide OldestAgrees;
    StageKept(q.e, s);
  }

  lemma {:induction false} StageKept(e: Engine, s: Step)
    requires Enabled(e, s) && (s.Write? || s.FlushAppend? || s.StartLevel? || s.StartL0? || s.Install?)
    ensures Do(e, s).stage == if s.FlushAppend? then Appended else e.stage
    ensures Do(e, s).imms == e.imms
    ensures !s.Write? ==> Do(e, s).wal == e.wal && Do(e, s).active == e.active && Adds(s) == []
  {
    hide MergesDown;
  }

  lemma {:induction false} PlainTables(q: Queued, h: Ledger, s: Step)
    requires ShapeOk(q.e) && JobOk(q.e) && TablesSay(q, h) && Allowed(q, Plain(s))
    ensures ShapeOk(Do(q.e, s)) && JobOk(Do(q.e, s))
    ensures TablesSay(Next(q, Plain(s)), Entered(q, h, Plain(s)))
  {
    hide MergesDown;
    hide OldestAgrees;
    hide StoreHit;
    hide LastIn;
    hide L0Ok;
    hide Installed;
    StageKept(q.e, s);
    match s
    case Write(rs) =>
    case FlushAppend => AppendKeepsJob(q.e);
    case Install =>
      if q.e.job.LevelJob? { LevelInstalled(q.e); } else { L0Installed(q.e); }
    case _ => StartTables(q.e, s);
  }

  lemma {:induction false} StartTables(e: Engine, s: Step)
    requires ShapeOk(e) && JobOk(e) && Enabled(e, s) && Benign(e, s) && (s.StartLevel? || s.StartL0?)
    ensures ShapeOk(Do(e, s)) && JobOk(Do(e, s)) && Do(e, s).levels == e.levels && Do(e, s).listed == e.listed
  {
    hide MergesDown;
    hide L0Ok;
    StartShape(e, s);
    if s.StartL0? {
      assert e.levels[0][..|e.levels[0]|] == e.levels[0];
    }
  }

  lemma {:induction false} PlainLogs(q: Queued, h: Ledger, s: Step)
    requires |h.ids| == |h.segs| && LogsSay(q, h) && IdsBelow(q, h) && Allowed(q, Plain(s))
    ensures LogsSay(Next(q, Plain(s)), Entered(q, h, Plain(s))) && IdsBelow(Next(q, Plain(s)), Entered(q, h, Plain(s)))
  {
    hide MergesDown;
    hide Join;
    hide AllRecords;
    hide Beyond;
    hide Installed;
    hide Benign;
    hide LogBeyond;
    var q', h' := Next(q, Plain(s)), Entered(q, h, Plain(s));
    StageKept(q.e, s);
    var rs := Adds(s);
    if s.Write? {
      LoggedRecords(q.e.wal, rs);
      assert (Join(h.segs[h.from..]) + h.current) + rs == Join(h.segs[h.from..]) + h'.current;
    } else {
      assert h.current + [] == h.current;
    }
    forall i | h.from <= i < |h.segs|
      ensures LogBeyond(q', h', i)
    {
      PlainBeyond(q, h, s, i);
    }
  }

  lemma {:induction false} PlainBeyond(q: Queued, h: Ledger, s: Step, i: nat)
    requires |h.ids| == |h.segs| && i < |h.segs| && LogBeyond(q, h, i) && Allowed(q, Plain(s))
    ensures LogBeyond(Next(q, Plain(s)), Entered(q, h, Plain(s)), i)
  {
    hide MergesDown;
    hide Join;
    hide AllRecords;
    hide Beyond;
    hide Installed;
    hide Benign;
    StageKept(q.e, s);
    var rs := Adds(s);
    if s.Write? {
      LoggedRecords(q.e.wal, rs);
      LoggedBeyond(q.e.wal, rs, h.ids[i]);
      assert (Join(h.segs[i + 1..]) + h.current) + rs == Join(h.segs[i + 1..]) + (h.current + rs);
    } else {
      assert h.current + [] == h.current;
    }
  }

  lemma {:induction false} PlainMems(q: Queued, h: Ledger, s: Step)
    requires |h.ids| == |h.segs| && MemsSay(q, h) && Allowed(q, Plain(s))
    ensures MemsSay(Next(q, Plain(s)), Entered(q, h, Plain(s)))
  {
    hide MergesDown;
    hide Installed;
    hide Benign;
    hide SaysLast;
    StageKept(q.e, s);
    var q', h' := Next(q, Plain(s)), Entered(q, h, Plain(s));
    if s.Write? {
      SaysLastAfter(q.e.active, h.current, s.records);
    } else {
      assert h.current + [] == h.current;
    }
    ImmsSame(q.e.imms, h, h', WaitingSet(q, h), WaitingSet(q', h'), |h.segs|);
  }

  lemma {:induction false} StepPlain(q: Queued, h: Ledger, s: Step)
    requires QueueInv(q, h) && Allowed(q, Plain(s))
    ensures QueueInv(Next(q, Plain(s)), Entered(q, h, Plain(s)))
  {
    hide TablesSay;
    hide MemsSay;
    hide LogsSay;
    hide IdsBelow;
    hide Groups;
    hide Enabled;
    hide Do;
    PlainTasks(q, h, s);
    PlainTables(q, h, s);
    PlainLogs(q, h, s);
    PlainMems(q, h, s);
  }

  lemma {:induction false} SendTasks(q: Queued, h: Ledger)
    requires TasksOk(q, h) && IdsBelow(q, h) && h.from <= |h.segs| && Allowed(q, Send)
    ensures TasksOk(Next(q, Send), Entered(q, h, Send))
  {
    hide Allowed;
    var q', h' := Next(q, Send), Entered(q, h, Send);
    var n := |h.segs|;
    if |q.queue| < CAPACITY {
      assert InHand(q') == InHand(q) + [LastId(q.e.wal)];
    } else {
      assert InHand(q') == InHand(q);
    }
    SendGroups(q, h);
  }

  lemma {:induction false} SendGroups(q: Queued, h: Ledger)
    requires Groups(h) && h.from <= |h.segs|
    ensures Groups(Entered(q, h, Send))
  {
    var h', n := Entered(q, h, Send), |h.segs|;
    forall x, y | x in h'.fin && y in h'.tasks
      ensures x < y
    {
      assert y in h.tasks || y == n;
    }
  }

  lemma {:induction false} MembersAppend(s: seq<nat>, n: nat)
    ensures Members(s + [n]) == Members(s) + {n}
  {
  }

  lemma {:induction false} SendWaits(q: Queued, h: Ledger)
    requires TasksOk(q, h) && Allowed(q, Send)
    ensures WaitingSet(Next(q, Send), Entered(q, h, Send)) == WaitingSet(q, h) + {|h.segs|}
    ensures |h.segs| !in WaitingSet(q, h)
  {
    hide Allowed;
    var n := |h.segs|;
    assert n !in h.tasks && n !in h.dropped;
    assert q.e.stage.Removed? ==> h.tasks != [];
    assert n !in WaitingSet(q, h);
    hide TasksOk;
    hide Members;
    MembersAppend(h.tasks, n);
    if q.e.stage.Removed? {
      assert (h.tasks + [n])[1..] == h.tasks[1..] + [n];
      MembersAppend(h.tasks[1..], n);
    }
  }

  lemma {:induction false} SendMems(q: Queued, h: Ledger)
    requires TasksOk(q, h) && MemsSay(q, h) && Allowed(q, Send)
    ensures MemsSay(Next(q, Send), Entered(q, h, Send))
  {
    hide Allowed;
    hide SaysLast;
    hide WaitingSet;
    var q', h' := Next(q, Send), Entered(q, h, Send);
    var n := |h.segs|;
    assert |h.ids| == n;
    hide TasksOk;
    SendWaits(q, h);
    ImmsSame(q.e.imms, h, h', WaitingSet(q, h), WaitingSet(q', h'), n);
    assert q'.e.imms[1..] == q.e.imms;
    EmptySaysNothing();
  }

  lemma {:induction false} SendSets(q: Queued, h: Ledger)
    requires TasksOk(q, h) && Allowed(q, Send)
    ensures DoneSet(Next(q, Send), Entered(q, h, Send)) == DoneSet(q, h) && |h.segs| !in DoneSet(q, h)
    ensures ListedSet(Next(q, Send), Entered(q, h, Send)) == ListedSet(q, h) && |h.segs| !in ListedSet(q, h)
  {
    hide Allowed;
    if q.busy.Some? {
      FirstTask(q, h);
    }
  }

  lemma {:induction false} SendTables(q: Queued, h: Ledger)
    requires ShapeOk(q.e) && JobOk(q.e) && TablesSay(q, h) && TasksOk(q, h) && Allowed(q, Send)
    ensures ShapeOk(Next(q, Send).e) && JobOk(Next(q, Send).e)
    ensures TablesSay(Next(q, Send), Entered(q, h, Send))
  {
    hide Allowed;
    hide MergesDown;
    hide L0Ok;
    hide StoreHit;
    var q', h' := Next(q, Send), Entered(q, h, Send);
    var n := |h.segs|;
    assert h'.segs[..n] == h.segs;
    SendSets(q, h);
    hide DoneSet;
    hide ListedSet;
    hide TasksOk;
    forall k
      ensures LastIn(h'.segs, DoneSet(q, h), n + 1, k) == LastIn(h.segs, DoneSet(q, h), n, k)
      ensures LastIn(h'.segs, ListedSet(q, h), n + 1, k) == LastIn(h.segs, ListedSet(q, h), n, k)
    {
      LastInSame(h.segs, h'.segs, DoneSet(q, h), DoneSet(q, h), n, k);
      LastInSame(h.segs, h'.segs, ListedSet(q, h), ListedSet(q, h), n, k);
    }
  }

  lemma {:induction false} SendLogs(q: Queued, h: Ledger)
    requires |h.ids| == |h.segs| && LogsSay(q, h) && IdsBelow(q, h) && Allowed(q, Send)
    ensures LogsSay(Next(q, Send), Entered(q, h, Send)) && IdsBelow(Next(q, Send), Entered(q, h, Send))
  {
    hide Allowed;
    hide Join;
    hide AllRecords;
    hide Beyond;
    hide LogBeyond;
    var q', h' := Next(q, Send), Entered(q, h, Send);
    RotatedBeyond(q.e.wal, LastId(q.e.wal));
    JoinSent(h, h', h.from);
    forall i | h.from <= i < |h'.segs|
      ensures LogBeyond(q', h', i)
    {
      if i < |h.segs| { SendBeyond(q, h, i); } else { SentBeyond(q, h); }
    }
  }

  lemma {:induction false} JoinSent(h: Ledger, h': Ledger, i: nat)
    requires i <= |h.segs| && h'.segs == h.segs + [h.current] && h'.current == []
    ensures Join(h'.segs[i..]) + h'.current == Join(h.segs[i..]) + h.current
  {
    hide Join;
    assert h'.segs[i..] == h.segs[i..] + [h.current];
    JoinAppend(h.segs[i..], [h.current]);
    JoinOne(h.current);
  }

  lemma {:induction false} SendBeyond(q: Queued, h: Ledger, i: nat)
    requires |h.ids| == |h.segs| && Ascending(q.e.wal) && Allowed(q, Send) && i < |h.segs| && LogBeyond(q, h, i)
    ensures LogBeyond(Next(q, Send), Entered(q, h, Send), i)
  {
    hide Allowed;
    hide AllRecords;
    hide Beyond;
    hide Join;
    RotatedWal(q, h.ids[i]);
    JoinSent(h, Entered(q, h, Send), i + 1);
  }

  lemma {:induction false} SentBeyond(q: Queued, h: Ledger)
    requires |h.ids| == |h.segs| && Ascending(q.e.wal) && Allowed(q, Send)
    ensures LogBeyond(Next(q, Send), Entered(q, h, Send), |h.segs|)
  {
    hide Allowed;
    hide AllRecords;
    hide Beyond;
    hide Join;
    hide LastId;
    RotatedWal(q, LastId(q.e.wal));
    assert Entered(q, h, Send).segs[|h.segs| + 1..] == [];
    JoinNone();
  }

  lemma {:induction false} JoinNone()
    ensures Join([]) == []
  {
  }

  lemma {:induction false} RotatedWal(q: Queued, id: nat)
    requires Allowed(q, Send) && Ascending(q.e.wal) && id <= LastId(q.e.wal)
    ensures LastId(Next(q, Send).e.wal) == LastId(q.e.wal) + 1
    ensures AllRecords(Beyond(Next(q, Send).e.wal, id)) == AllRecords(Beyond(q.e.wal, id))
    ensures id == LastId(q.e.wal) ==> AllRecords(Beyond(q.e.wal, id)) == []
  {
    hide AllRecords;
    hide Beyond;
    RotatedBeyond(q.e.wal, id);
  }

  lemma {:induction false} StepSend(q: Queued, h: Ledger)
    requires QueueInv(q, h) && Allowed(q, Send)
    ensures QueueInv(Next(q, Send), Entered(q, h, Send))
  {
    hide TablesSay;
    hide MemsSay;
    hide IdsBelow;
    hide LogBeyond;
    hide Groups;
    SendTasks(q, h);
    SendMems(q, h);
    SendTables(q, h);
    SendLogs(q, h);
  }

  /** Steps that leave the log files and their account alone. */
  lemma {:induction false} LogsKept(q: Queued, h: Ledger, q': Queued, h': Ledger)
    requires |h.ids| == |h.segs| && LogsSay(q, h) && IdsBelow(q, h) && q'.e.wal == q.e.wal
    requires h'.segs == h.segs && h'.ids == h.ids && h'.current == h.current && h'.from == h.from
    ensures LogsSay(q', h') && IdsBelow(q', h')
  {
    forall i | h.from <= i < |h.segs|
      ensures LogBeyond(q', h', i)
    {
      assert LogBeyond(q, h, i);
    }
  }

  lemma {:induction false} StepTake(q: Queued, h: Ledger)
    requires QueueInv(q, h) && Allowed(q, Take)
    ensures QueueInv(Next(q, Take), Entered(q, h, Take))
  {
    hide StoreHit;
    hide LastIn;
    hide MergesDown;
    hide L0Ok;
    hide SaysLast;
    hide LogsSay;
    hide IdsBelow;
    hide Groups;
    var q' := Next(q, Take);
    assert InHand(q') == InHand(q);
    LogsKept(q, h, q', h);
  }

  /** The task of the flush loop is the oldest, and no flushed memtable is newer. */
  lemma {:induction false} FirstTask(q: Queued, h: Ledger)
    requires TasksOk(q, h) && q.busy.Some?
    ensures h.tasks != [] && q.busy.value == h.ids[h.tasks[0]] && h.from <= h.tasks[0] < |h.segs|
    ensures h.tasks[0] !in h.fin && forall x :: x in h.fin ==> x < h.tasks[0]
    ensures forall x :: x in h.tasks[1..] ==> h.tasks[0] < x && x in h.tasks
  {
    assert InHand(q)[0] == h.ids[h.tasks[0]];
    assert h.tasks[0] in h.tasks;
  }

  /** The first task over: the groups stay right. */
  lemma {:induction false} TaskOver(h: Ledger, h': Ledger)
    requires Groups(h) && Rising(h.tasks) && h.tasks != [] && h'.segs == h.segs && h'.dropped == h.dropped
    requires h'.fin == h.fin + {h.tasks[0]} && h'.tasks == h.tasks[1..]
    requires h'.from == h.from || h'.from == h.tasks[0] + 1
    ensures Groups(h') && Rising(h'.tasks)
  {
    var b := h.tasks[0];
    assert h.tasks == [b] + h'.tasks;
    assert b in h.tasks;
    forall i | 0 <= i < |h'.tasks|
      ensures h'.from <= h'.tasks[i] < |h.segs| && b < h'.tasks[i]
    {
      assert h'.tasks[i] == h.tasks[i + 1];
    }
  }

  lemma {:induction false} TaskEnds(q: Queued, h: Ledger, q': Queued, h': Ledger)
    requires TasksOk(q, h) && q.busy.Some? && q'.busy.None? && q'.queue == q.queue && q'.e.stage.Resting?
    requires h.tasks != [] && h'.segs == h.segs && h'.dropped == h.dropped && h'.ids == h.ids
    requires h'.fin == h.fin + {h.tasks[0]} && h'.tasks == h.tasks[1..]
    requires h'.from == h.from || h'.from == h.tasks[0] + 1
    ensures TasksOk(q', h')
  {
    hide Groups;
    TaskOver(h, h');
    assert InHand(q) == [q.busy.value] + q.queue && InHand(q') == q.queue;
    forall i | 0 <= i < |h'.tasks|
      ensures InHand(q')[i] == h.ids[h'.tasks[i]]
    {
      assert h'.tasks[i] == h.tasks[i + 1] && InHand(q)[i + 1] == q.queue[i];
    }
  }

  /** The flush loop's memtable, and the others without it. */
  lemma {:induction false} TaskRemoved(q: Queued, h: Ledger)
    requires TasksOk(q, h) && MemsSay(q, h) && q.busy.Some? && !q.e.stage.Removed?
    ensures h.tasks != [] && h.tasks[0] < |h.segs|
    ensures var m := TaskMem(q.e.imms, q.busy.value); m.Some? && SaysLast(m.value, h.segs[h.tasks[0]])
    ensures ImmsFor(WithoutTask(q.e.imms, q.busy.value), h, h.dropped + Members(h.tasks[1..]), |h.segs|)
  {
    hide SaysLast;
    hide ImmsFor;
    FirstTask(q, h);
    var b := h.tasks[0];
    assert b in h.tasks;
    var s := WaitingSet(q, h);
    ImmsTask(q.e.imms, h, s, |h.segs|, b);
    assert h.tasks == [b] + h.tasks[1..];
    assert s - {b} == h.dropped + Members(h.tasks[1..]);
  }

  lemma {:induction false} StepSkipEmpty(q: Queued, h: Ledger)
    requires QueueInv(q, h) && Allowed(q, SkipEmpty)
    ensures QueueInv(Next(q, SkipEmpty), Entered(q, h, SkipEmpty))
  {
    hide LastIn;
    hide StoreHit;
    hide MergesDown;
    hide L0Ok;
    hide LogsSay;
    hide IdsBelow;
    hide ImmsFor;
    hide Groups;
    var q', h' := Next(q, SkipEmpty), Entered(q, h, SkipEmpty);
    FirstTask(q, h);
    TaskEnds(q, h, q', h');
    TaskRemoved(q, h);
    NothingWritten(map[], h.segs[h.tasks[0]]);
    hide SaysLast;
    ImmsSame(q'.e.imms, h, h', WaitingSet(q', h'), WaitingSet(q', h'), |h.segs|);
    forall k
      ensures LastIn(h.segs, h'.fin, |h.segs|, k) == LastIn(h.segs, h.fin, |h.segs|, k)
    {
      LastInAdd(h.segs, h.fin, h.tasks[0], k);
    }
    LogsKept(q, h, q', h');
  }

  lemma {:induction false} ListTaskShape(e: Engine, t: Table)
    requires |e.listed| >= 2 && ShapeOk(e) && JobOk(e) && e.stage.Resting? && t.num == e.nextNum && TableOk(t)
    ensures var e' := e.(listed := AddToL0(e.listed, t), stage := Listed(t), nextNum := e.nextNum + 1);
            ShapeOk(e') && JobOk(e')
  {
    hide MergesDown;
    hide L0Ok;
    AddedShape(e.levels, t, e.nextNum);
    var e' := e.(listed := AddToL0(e.listed, t), stage := Listed(t), nextNum := e.nextNum + 1);
    forall i, u | 0 <= i < |e'.listed| && u in e'.listed[i]
      ensures u.num < e'.nextNum
    {
      assert u in e.listed[i] || u == t;
    }
  }

  lemma {:induction false} StepListTask(q: Queued, h: Ledger, t: Table)
    requires QueueInv(q, h) && Allowed(q, ListTask(t))
    ensures QueueInv(Next(q, ListTask(t)), Entered(q, h, ListTask(t)))
  {
    hide LastIn;
    hide StoreHit;
    hide L0Ok;
    hide LogsSay;
    hide IdsBelow;
    hide ImmsFor;
    hide Groups;
    hide ShapeOk;
    hide JobOk;
    var q' := Next(q, ListTask(t));
    FirstTask(q, h);
    TaskRemoved(q, h);
    ListTaskShape(q.e, t);
    assert WaitingSet(q', h) == WaitingSet(q, h);
    forall k
      ensures StoreHit(q'.e.listed, k) == LastIn(h.segs, ListedSet(q', h), |h.segs|, k)
    {
      AddedHit(q.e.listed, t, k);
      LastInAdd(h.segs, h.fin, h.tasks[0], k);
    }
    LogsKept(q, h, q', h);
  }

  lemma {:induction false} StepRemoveTask(q: Queued, h: Ledger)
    requires QueueInv(q, h) && Allowed(q, RemoveTask)
    ensures QueueInv(Next(q, RemoveTask), Entered(q, h, RemoveTask))
  {
    hide LastIn;
    hide StoreHit;
    hide L0Ok;
    hide LogsSay;
    hide IdsBelow;
    hide ImmsFor;
    hide Groups;
    hide SaysLast;
    hide MergesDown;
    var q' := Next(q, RemoveTask);
    FirstTask(q, h);
    TaskRemoved(q, h);
    LogsKept(q, h, q', h);
  }

  lemma {:induction false} FinishLogs(q: Queued, h: Ledger)
    requires TasksOk(q, h) && LogsSay(q, h) && IdsBelow(q, h) && Allowed(q, FinishTask)
    ensures LogsSay(Next(q, FinishTask), Entered(q, h, FinishTask))
            && IdsBelow(Next(q, FinishTask), Entered(q, h, FinishTask))
  {
    hide AllRecords;
    hide Beyond;
    hide Join;
    hide Groups;
    var q', h' := Next(q, FinishTask), Entered(q, h, FinishTask);
    FirstTask(q, h);
    var b := h.tasks[0];
    assert LogBeyond(q, h, b);
    var c := BeyondIsTail(q.e.wal, h.ids[b]);
    assert c < |q.e.wal|;
    assert Ascending(q'.e.wal) && LastId(q'.e.wal) == LastId(q.e.wal);
    forall i | h'.from <= i < |h.segs|
      ensures LogBeyond(q', h', i)
    {
      assert LogBeyond(q, h, i);
      assert h.ids[b] < h.ids[i];
      BeyondTwice(q.e.wal, h.ids[b], h.ids[i]);
    }
  }

  lemma {:induction false} StepFinishTask(q: Queued, h: Ledger)
    requires QueueInv(q, h) && Allowed(q, FinishTask)
    ensures QueueInv(Next(q, FinishTask), Entered(q, h, FinishTask))
  {
    hide LastIn;
    hide StoreHit;
    hide L0Ok;
    hide LogsSay;
    hide IdsBelow;
    hide ImmsFor;
    hide Groups;
    hide SaysLast;
    hide MergesDown;
    hide Beyond;
    var q', h' := Next(q, FinishTask), Entered(q, h, FinishTask);
    FirstTask(q, h);
    TaskEnds(q, h, q', h');
    FinishLogs(q, h);
    ImmsSame(q.e.imms, h, h', WaitingSet(q, h), WaitingSet(q', h'), |h.segs|);
  }

  lemma {:induction false} QueueStepInv(q: Queued, h: Ledger, step: QueueStep)
    requires QueueInv(q, h) && Allowed(q, step)
    ensures QueueInv(Next(q, step), Entered(q, h, step))
    ensures Join(Entered(q, h, step).segs) + Entered(q, h, step).current == Join(h.segs) + h.current + Written(step)
  {
    hide QueueInv;
    hide Allowed;
    hide Next;
    hide Join;
    var h' := Entered(q, h, step);
    match step
    case Plain(s) =>
      StepPlain(q, h, s);
      assert Join(h.segs) + (h.current + Adds(s)) == Join(h.segs) + h.current + Adds(s);
    case Send =>
      StepSend(q, h);
      JoinAppend(h.segs, [h.current]);
      JoinOne(h.current);
    case Take => StepTake(q, h);
    case SkipEmpty => StepSkipEmpty(q, h);
    case ListTask(t) => StepListTask(q, h, t);
    case RemoveTask => StepRemoveTask(q, h);
    case FinishTask => StepFinishTask(q, h);
  }

  // ---------- reads ----------

  /** The memtable `i` waits while a newer one, `j`, is in the tables; both have the key, nothing
      newer than `j` has it, and they say different things about it. */
  ghost predicate Stale(q: Queued, h: Ledger, k: Key)
  {
    Last(h.current, k).None? &&
    exists i, j :: 0 <= i < j < |h.segs| && StalePair(h, WaitingSet(q, h), DoneSet(q, h), i, j, k)
  }

  ghost predicate StalePair(h: Ledger, waiting: set<nat>, done: set<nat>, i: nat, j: nat, k: Key)
    requires i < j < |h.segs|
  {
    && i in waiting && j in done && j !in waiting
    && Last(h.segs[i], k).Some? && Last(h.segs[j], k).Some? && Last(h.segs[i], k) != Last(h.segs[j], k)
    && (forall m :: i < m < |h.segs| && m in waiting ==> Last(h.segs[m], k).None?)
    && (forall m :: j < m < |h.segs| ==> Last(h.segs[m], k).None?)
  }

  /** The memtable `i` is in no table of the manifest, its log file is gone, the last write to the
      key was there, and the tables with older memtables say something else. */
  ghost predicate Lost(q: Queued, h: Ledger, partial: Records, k: Key)
    requires h.from <= |h.segs|
  {
    && Last(h.current + partial, k).None?
    && exists i :: 0 <= i < h.from && LostAt(h, ListedSet(q, h), i, k)
  }

  ghost predicate LostAt(h: Ledger, listed: set<nat>, i: nat, k: Key)
    requires i < |h.segs|
  {
    && i !in listed && Last(h.segs[i], k).Some?
    && (forall m :: i < m < |h.segs| ==> Last(h.segs[m], k).None?)
    && LastIn(h.segs, listed, i, k) != Last(h.segs[i], k)
  }

  /** The newest memtable of a set that has the key. */
  lemma {:induction false} NewestIn(segs: seq<Records>, s: set<nat>, n: nat, k: Key) returns (i: nat)
    requires n <= |segs| && LastIn(segs, s, n, k).Some?
    ensures i < n && i in s && Last(segs[i], k) == LastIn(segs, s, n, k)
    ensures forall m :: i < m < n && m in s ==> Last(segs[m], k).None?
  {
    if n - 1 in s && Last(segs[n - 1], k).Some? {
      i := n - 1;
    } else {
      i := NewestIn(segs, s, n - 1, k);
    }
  }

  lemma {:induction false} NoneIn(segs: seq<Records>, s: set<nat>, n: nat, k: Key, i: nat)
    requires n <= |segs| && i < n && i in s && Last(segs[i], k).Some?
    ensures LastIn(segs, s, n, k).Some?
  {
    if i < n - 1 {
      NoneIn(segs, s, n - 1, k, i);
    }
  }

  /** The newest member with the key decides. */
  lemma {:induction false} NewestDecides(segs: seq<Records>, s: set<nat>, n: nat, k: Key, i: nat)
    requires n <= |segs| && i < n && i in s && Last(segs[i], k).Some?
    requires forall m :: i < m < n && m in s ==> Last(segs[m], k).None?
    ensures LastIn(segs, s, n, k) == Last(segs[i], k)
  {
    LastInBeyond(segs, s, i + 1, n, k);
  }

  lemma {:induction false} LiveFinding(q: Queued, h: Ledger, k: Key)
    requires QueueInv(q, h)
    ensures EngineHit(q.e, k) ==
            Over(Last(h.current, k),
                Over(LastIn(h.segs, WaitingSet(q, h), |h.segs|, k), LastIn(h.segs, DoneSet(q, h), |h.segs|, k)))
  {
    hide LastIn;
    hide StoreHit;
    hide ShapeOk;
    hide JobOk;
    hide LogsSay;
    hide WaitingSet;
    hide DoneSet;
    ImmsHit(q.e.imms, h, WaitingSet(q, h), |h.segs|, k);
    assert SaysLast(q.e.active, h.current);
  }

  lemma {:induction false} EverySegment(q: Queued, h: Ledger)
    requires TasksOk(q, h)
    ensures forall i :: 0 <= i < |h.segs| ==> i in WaitingSet(q, h) || i in DoneSet(q, h)
  {
    forall i | 0 <= i < |h.segs|
      ensures i in WaitingSet(q, h) || i in DoneSet(q, h)
    {
      if i in h.tasks && q.e.stage.Removed? {
        assert h.tasks == [h.tasks[0]] + h.tasks[1..];
      }
    }
  }

  /** Waiting memtables are asked before tables: for which keys that gives the last write. */
  lemma {:induction false} WaitingFirst(h: Ledger, waiting: set<nat>, done: set<nat>, k: Key)
    requires forall i :: 0 <= i < |h.segs| ==> i in waiting || i in done
    ensures Over(LastIn(h.segs, waiting, |h.segs|, k), LastIn(h.segs, done, |h.segs|, k)) == Last(Join(h.segs), k) <==>
            !exists i, j :: 0 <= i < j < |h.segs| && StalePair(h, waiting, done, i, j, k)
  {
    var n := |h.segs|;
    var all := waiting + done;
    LastInAll(h.segs, all, k);
    var a, w, d := LastIn(h.segs, all, n, k), LastIn(h.segs, waiting, n, k), LastIn(h.segs, done, n, k);
    if exists i, j :: 0 <= i < j < n && StalePair(h, waiting, done, i, j, k) {
      var i, j :| 0 <= i < j < n && StalePair(h, waiting, done, i, j, k);
      NewestDecides(h.segs, all, n, k, j);
      NewestDecides(h.segs, waiting, n, k, i);
    } else if a.Some? {
      var j := NewestIn(h.segs, all, n, k);
      if w.Some? {
        var i := NewestIn(h.segs, waiting, n, k);
        if i != j {
          assert !(i < j && StalePair(h, waiting, done, i, j, k));
        }
      } else {
        assert j in waiting ==> w.Some? by { if j in waiting { NoneIn(h.segs, waiting, n, k, j); } }
        NewestDecides(h.segs, done, n, k, j);
      }
    } else {
      NoneFound(h.segs, waiting, all, n, k);
      NoneFound(h.segs, done, all, n, k);
    }
  }

  lemma {:induction false} NoneFound(segs: seq<Records>, s: set<nat>, all: set<nat>, n: nat, k: Key)
    requires n <= |segs| && LastIn(segs, all, n, k).None? && forall i :: 0 <= i < n && i in s ==> i in all
    ensures LastIn(segs, s, n, k).None?
  {
    if n > 0 {
      NoneFound(segs, s, all, n - 1, k);
    }
  }

  /** A read of the running engine is right exactly for the keys that are not stale. */
  lemma {:induction false} LiveExact(q: Queued, h: Ledger, k: Key)
    requires QueueInv(q, h)
    ensures EngineHit(q.e, k) == Last(Join(h.segs) + h.current, k) <==> !Stale(q, h, k)
  {
    hide LastIn;
    hide WaitingSet;
    hide DoneSet;
    hide EngineHit;
    hide StalePair;
    LiveFinding(q, h, k);
    EverySegment(q, h);
    WaitingFirst(h, WaitingSet(q, h), DoneSet(q, h), k);
    LastAppend(Join(h.segs), h.current, k);
  }

  lemma {:induction false} RecoveredFinding(q: Queued, h: Ledger, partial: Records, k: Key)
    requires QueueInv(q, h)
    ensures EngineHit(Reopened(q.e, partial), k) ==
            Over(Last(h.current + partial, k),
                 Over(Last(Join(h.segs[h.from..]), k), LastIn(h.segs, ListedSet(q, h), |h.segs|, k)))
  {
    hide LastIn;
    hide StoreHit;
    hide ShapeOk;
    hide JobOk;
    hide ListedSet;
    hide Join;
    hide MemsSay;
    assert |q.e.listed| > 0 by { TablesExist(q.e); }
    var log := Join(h.segs[h.from..]);
    ReopenedHit(q.e, partial, k);
    assert (log + h.current) + partial == log + (h.current + partial);
    LastAppend(log, h.current + partial, k);
  }

  lemma {:induction false} TablesExist(e: Engine)
    requires ShapeOk(e)
    ensures |e.levels| >= 2 && |e.listed| >= 2
  {
  }

  lemma {:induction false} JoinNoKey(segs: seq<Records>, k: Key)
    ensures Last(Join(segs), k).None? <==> forall i :: 0 <= i < |segs| ==> Last(segs[i], k).None?
  {
    if segs != [] {
      var n := |segs| - 1;
      JoinNoKey(segs[..n], k);
      LastAppend(Join(segs[..n]), segs[n], k);
      assert forall i :: 0 <= i < n ==> segs[..n][i] == segs[i];
    }
  }

  /** Logs from `from` on over the listed tables: for which keys that gives the last write. */
  lemma {:induction false} LogsFirst(h: Ledger, listed: set<nat>, all: set<nat>, k: Key)
    requires h.from <= |h.segs| && forall i :: 0 <= i < |h.segs| ==> i in all
    ensures Over(Last(Join(h.segs[h.from..]), k), LastIn(h.segs, listed, |h.segs|, k)) == Last(Join(h.segs), k) <==>
            !exists i :: 0 <= i < h.from && LostAt(h, listed, i, k)
  {
    var n, p := |h.segs|, h.from;
    assert h.segs == h.segs[..p] + h.segs[p..];
    JoinAppend(h.segs[..p], h.segs[p..]);
    LastAppend(Join(h.segs[..p]), Join(h.segs[p..]), k);
    JoinNoKey(h.segs[p..], k);
    if Last(Join(h.segs[p..]), k).Some? {
      var m :| 0 <= m < n - p && Last(h.segs[p..][m], k).Some?;
      assert h.segs[p..][m] == h.segs[p + m];
    } else {
      forall m | p <= m < n
        ensures Last(h.segs[m], k).None?
      {
        assert h.segs[m] == h.segs[p..][m - p];
      }
      LastInBeyond(h.segs, listed, p, n, k);
      ListedBelow(h, listed, all, k);
    }
  }

  lemma {:induction false} ListedBelow(h: Ledger, listed: set<nat>, all: set<nat>, k: Key)
    requires h.from <= |h.segs| && forall m :: h.from <= m < |h.segs| ==> Last(h.segs[m], k).None?
    requires forall i :: 0 <= i < |h.segs| ==> i in all
    ensures LastIn(h.segs, listed, h.from, k) == Last(Join(h.segs[..h.from]), k) <==>
            !exists i :: 0 <= i < h.from && LostAt(h, listed, i, k)
  {
    hide Last;
    var p := h.from;
    LastInAll(h.segs[..p], all, k);
    LastInSame(h.segs[..p], h.segs, all, all, p, k);
    if LastIn(h.segs, all, p, k).Some? {
      var j := NewestIn(h.segs, all, p, k);
      if j in listed {
        NewestDecides(h.segs, listed, p, k, j);
      } else {
        LastInBeyond(h.segs, listed, j, p, k);
        assert LostAt(h, listed, j, k) <==> LastIn(h.segs, listed, p, k) != Last(h.segs[j], k);
      }
    } else {
      NoneFound(h.segs, listed, all, p, k);
      forall i | 0 <= i < p
        ensures Last(h.segs[i], k).None?
      {
        if Last(h.segs[i], k).Some? { NoneIn(h.segs, all, p, k, i); }
      }
    }
  }

  /** A read after a crash is right exactly for the keys that are not lost. */
  lemma {:induction false} CrashExact(q: Queued, h: Ledger, partial: Records, k: Key)
    requires QueueInv(q, h)
    ensures EngineHit(Reopened(q.e, partial), k) == Last(Join(h.segs) + h.current + partial, k) <==>
              !Lost(q, h, partial, k)
  {
    hide LastIn;
    hide ListedSet;
    hide EngineHit;
    hide Reopened;
    hide LostAt;
    hide Join;
    RecoveredFinding(q, h, partial, k);
    LogsFirst(h, ListedSet(q, h), h.fin + Members(h.tasks) + h.dropped, k);
    assert Join(h.segs) + h.current + partial == Join(h.segs) + (h.current + partial);
    LastAppend(Join(h.segs), h.current + partial, k);
  }

  // ---------- runs ----------

  lemma {:induction false} QueueInitInv(q: Queued)
    requires Init(q.e) && q.queue == [] && q.busy.None?
    ensures QueueInv(q, NoLedger)
  {
    hide L0Ok;
    InitInv(q.e);
    OneFile(q.e.wal[0]);
    EmptySaysNothing();
    JoinNone();
    forall k
      ensures StoreHit(q.e.levels, k).None?
    {
      EmptyStore(q.e.levels, k);
    }
  }

  lemma {:induction false} LedgerInv(run: seq<Queued>, steps: seq<QueueStep>, j: nat)
    requires IsQueueRun(run, steps) && j < |run|
    ensures QueueInv(run[j], LedgerOf(run, steps, j))
    ensures Join(LedgerOf(run, steps, j).segs) + LedgerOf(run, steps, j).current == WrittenBy(steps[..j])
    decreases j
  {
    hide QueueInv;
    hide Allowed;
    hide Next;
    hide Entered;
    hide Init;
    if j == 0 {
      QueueInitInv(run[0]);
      JoinNone();
    } else {
      LedgerInv(run, steps, j - 1);
      QueueStepInv(run[j - 1], LedgerOf(run, steps, j - 1), steps[j - 1]);
      assert steps[..j][..j - 1] == steps[..j - 1];
    }
  }

  /** Over every run with the channel: which reads of the running engine, and which after a crash,
      give the last write. */
  lemma {:induction false} DroppedFlushExact(run: seq<Queued>, steps: seq<QueueStep>, j: nat, partial: Records, k: Key)
    requires IsQueueRun(run, steps) && j < |run|
    ensures |run[j].e.levels| > 0 && |run[j].e.listed| > 0
    ensures LedgerOf(run, steps, j).from <= |LedgerOf(run, steps, j).segs|
    ensures EngineHit(run[j].e, k) == Last(WrittenBy(steps[..j]), k) <==> !Stale(run[j], LedgerOf(run, steps, j), k)
    ensures EngineHit(Reopened(run[j].e, partial), k) == Last(WrittenBy(steps[..j]) + partial, k) <==>
            !Lost(run[j], LedgerOf(run, steps, j), partial, k)
  {
    hide Stale;
    hide Lost;
    hide EngineHit;
    hide Reopened;
    hide Allowed;
    hide Next;
    hide Init;
    hide LedgerOf;
    hide Join;
    hide TablesSay;
    hide MemsSay;
    LedgerInv(run, steps, j);
    var h := LedgerOf(run, steps, j);
    TablesExist(run[j].e);
    LiveExact(run[j], h, k);
    CrashExact(run[j], h, partial, k);
  }

  lemma {:induction false} NothingDropped(run: seq<Queued>, steps: seq<QueueStep>, j: nat)
    requires IsQueueRun(run, steps) && j < |run|
    requires forall i :: 0 <= i < j && steps[i].Send? ==> |run[i].queue| < CAPACITY
    ensures LedgerOf(run, steps, j).dropped == {}
    decreases j
  {
    hide IsQueueRun;
    if j > 0 {
      NothingDropped(run, steps, j - 1);
    }
  }

  /** As long as every task found room, no read is wrong, before or after a crash. */
  lemma {:induction false} NoFullChannelNoFault(run: seq<Queued>, steps: seq<QueueStep>, j: nat, partial: Records,
                                                k: Key)
    requires IsQueueRun(run, steps) && j < |run|
    requires forall i :: 0 <= i < j && steps[i].Send? ==> |run[i].queue| < CAPACITY
    ensures |run[j].e.levels| > 0 && |run[j].e.listed| > 0
    ensures EngineHit(run[j].e, k) == Last(WrittenBy(steps[..j]), k)
    ensures EngineHit(Reopened(run[j].e, partial), k) == Last(WrittenBy(steps[..j]) + partial, k)
  {
    hide EngineHit;
    hide Reopened;
    hide Allowed;
    hide Next;
    hide Init;
    hide Stale;
    hide Lost;
    hide LedgerOf;
    hide TablesSay;
    hide MemsSay;
    hide ShapeOk;
    hide JobOk;
    LedgerInv(run, steps, j);
    NothingDropped(run, steps, j);
    DroppedFlushExact(run, steps, j, partial, k);
    InOrder(run[j], LedgerOf(run, steps, j), partial, k);
  }

  lemma {:induction false} InOrder(q: Queued, h: Ledger, partial: Records, k: Key)
    requires TasksOk(q, h) && h.dropped == {} && h.from <= |h.segs|
    ensures !Stale(q, h, k) && !Lost(q, h, partial, k)
  {
    hide Last;
    if q.busy.Some? {
      FirstTask(q, h);
    }
  }
}
