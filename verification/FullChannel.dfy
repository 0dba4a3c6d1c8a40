/** A run in which the flush channel is full: seventeen freezes before the flush loop gets on, so the
    seventeenth memtable has no task, and the eighteenth overtakes it. */
module FullChannel {
  import opened Prelude
  import opened Keys
  import opened Tables
  import opened Compaction
  import opened Writes
  import opened EngineMachine
  import opened EngineInvariant
  import opened FlushQueue

  lemma {:induction false} LedgerPrefix(run: seq<Queued>, run': seq<Queued>, steps: seq<QueueStep>,
                                        steps': seq<QueueStep>, j: nat)
    requires j <= |steps| && j <= |run| && steps <= steps' && run <= run'
    ensures LedgerOf(run', steps', j) == LedgerOf(run, steps, j)
  {
    hide Entered;
    if j > 0 {
      LedgerPrefix(run, run', steps, steps', j - 1);
    }
  }

  ghost function End(run: seq<Queued>): (r: Queued)
    requires |run| > 0
  {
    run[|run| - 1]
  }

  /** A run, where it ends, its ledger and what it wrote. */
  ghost predicate LeadsTo(run: seq<Queued>, steps: seq<QueueStep>, q: Queued, h: Ledger)
  {
    IsQueueRun(run, steps) && End(run) == q && LedgerOf(run, steps, |steps|) == h
  }

  lemma {:induction false} Extend(run: seq<Queued>, steps: seq<QueueStep>, q: Queued, h: Ledger, step: QueueStep)
    returns (run': seq<Queued>, steps': seq<QueueStep>)
    requires LeadsTo(run, steps, q, h) && Allowed(q, step)
    ensures run <= run' && steps <= steps' && steps' == steps + [step]
            && LeadsTo(run', steps', Next(q, step), Entered(q, h, step))
    ensures QueueInv(q, h) && QueueInv(Next(q, step), Entered(q, h, step))
  {
    hide QueueInv;
    hide Allowed;
    hide Next;
    hide Entered;
    hide Init;
    run', steps' := run + [Next(q, step)], steps + [step];
    LedgerInv(run, steps, |steps|);
    QueueStepInv(q, h, step);
    LedgerPrefix(run, run', steps, steps', |steps|);
  }

  /** A frozen memtable with this one record. */
  ghost predicate OneWrite(rs: Records, k: Key, v: Value)
  {
    rs == [Writes.Record(k, Some(v))]
  }

  lemma {:induction false} OneWriteTable(n: nat, m: Mem, rs: Records, k: Key, v: Value)
    requires OneWrite(rs, k, v) && SaysLast(m, rs)
    ensures Holds(Table(n, [Entry(k, Some(v))]), m)
  {
    assert rs[..0] == [];
    forall q
      ensures Hit([Entry(k, Some(v))], q) == MemHit(m, q)
    {
      assert [Entry(k, Some(v))][1..] == [];
      assert Hit([], q).None? && Last([], q).None?;
      assert MemHit(m, q) == Last(rs, q);
    }
  }

  /** The flush loop is idle and the channel has this many tasks. */
  ghost predicate Idle(q: Queued, n: nat)
  {
    q.busy.None? && q.e.stage.Resting? && |q.queue| == n
  }

  /** One whole flush of a memtable with one write. */
  lemma {:induction false} FlushOne(run: seq<Queued>, steps: seq<QueueStep>, q: Queued, h: Ledger, k: Key, v: Value)
    returns (run': seq<Queued>, steps': seq<QueueStep>, q': Queued)
    requires LeadsTo(run, steps, q, h) && |q.queue| > 0 && Idle(q, |q.queue|)
    requires h.tasks != [] && h.tasks[0] < |h.segs| && OneWrite(h.segs[h.tasks[0]], k, v)
    ensures run <= run' && steps <= steps' && Idle(q', |q.queue| - 1)
    ensures LeadsTo(run', steps', q', h.(fin := h.fin + {h.tasks[0]}, tasks := h.tasks[1..], from := h.tasks[0] + 1))
    ensures WrittenBy(steps') == WrittenBy(steps)
  {
    hide QueueInv;
    hide LeadsTo;
    hide Holds;
    hide WrittenBy;
    LevelsThere(run, steps, q, h);
    var r1, s1 := Extend(run, steps, q, h, Take);
    var q1 := Next(q, Take);
    var t := TaskTable(q1, h, k, v);
    var r2, s2 := Extend(r1, s1, q1, h, ListTask(t));
    var q2 := Next(q1, ListTask(t));
    LevelsThere(r2, s2, q2, h);
    var r3, s3 := Extend(r2, s2, q2, h, Plain(FlushAppend));
    var q3 := Next(q2, Plain(FlushAppend));
    assert h.current + [] == h.current;
    var r4, s4 := Extend(r3, s3, q3, h, RemoveTask);
    var q4 := Next(q3, RemoveTask);
    var r5, s5 := Extend(r4, s4, q4, h, FinishTask);
    run', steps', q' := r5, s5, Next(q4, FinishTask);
    WrittenMore(steps, Take);
    WrittenMore(s1, ListTask(t));
    WrittenMore(s2, Plain(FlushAppend));
    WrittenMore(s3, RemoveTask);
    WrittenMore(s4, FinishTask);
  }

  lemma {:induction false} WrittenMore(steps: seq<QueueStep>, step: QueueStep)
    ensures WrittenBy(steps + [step]) == WrittenBy(steps) + Written(step)
  {
    assert (steps + [step])[..|steps|] == steps;
  }

  lemma {:induction false} LevelsThere(run: seq<Queued>, steps: seq<QueueStep>, q: Queued, h: Ledger)
    requires LeadsTo(run, steps, q, h)
    ensures |q.e.levels| >= 2 && |q.e.listed| >= 2 && |q.e.wal| > 0
  {
    hide TablesSay;
    hide MemsSay;
    hide TasksOk;
    hide IsQueueRun;
    LedgerInvAtEnd(run, steps, q, h);
    TablesExist(q.e);
  }

  lemma {:induction false} LedgerInvAtEnd(run: seq<Queued>, steps: seq<QueueStep>, q: Queued, h: Ledger)
    requires LeadsTo(run, steps, q, h)
    ensures QueueInv(q, h) && Join(h.segs) + h.current == WrittenBy(steps)
  {
    hide QueueInv;
    hide Join;
    hide Allowed;
    hide Next;
    hide Init;
    LedgerInv(run, steps, |steps|);
    assert steps[..|steps|] == steps;
  }

  lemma {:induction false} TaskTable(q: Queued, h: Ledger, k: Key, v: Value) returns (t: Table)
    requires QueueInv(q, h) && q.busy.Some? && q.e.stage.Resting?
    requires h.tasks != [] && h.tasks[0] < |h.segs| && OneWrite(h.segs[h.tasks[0]], k, v)
    ensures Allowed(q, ListTask(t))
  {
    hide TablesSay;
    hide LogBeyond;
    hide Groups;
    hide Holds;
    hide JobOk;
    hide SaysLast;
    TaskRemoved(q, h);
    TablesExist(q.e);
    t := Table(q.e.nextNum, [Entry(k, Some(v))]);
    OneWriteTable(q.e.nextNum, TaskMem(q.e.imms, q.busy.value).value, h.segs[h.tasks[0]], k, v);
  }

  // ---------- the run ----------

  const Filler := Writes.Record([0], Some([9]))
  const OldOne := Writes.Record([1], Some([1]))
  const OnlyTwo := Writes.Record([2], Some([2]))
  const NewOne := Writes.Record([1], Some([2]))

  /** A write and a freeze that sends its task, or drops it. */
  lemma {:induction false} WriteAndSend(run: seq<Queued>, steps: seq<QueueStep>, q: Queued, h: Ledger, rs: Records)
    returns (run': seq<Queued>, steps': seq<QueueStep>, q': Queued, h': Ledger)
    requires LeadsTo(run, steps, q, h) && h.current == [] && Idle(q, |q.queue|)
    ensures run <= run' && steps <= steps' && LeadsTo(run', steps', q', h')
    ensures |steps'| == |steps| + 2 && steps'[|steps| + 1] == Send && run'[|steps| + 1].queue == q.queue
    ensures Idle(q', if |q.queue| < CAPACITY then |q.queue| + 1 else |q.queue|)
    ensures h'.segs == h.segs + [rs] && h'.current == [] && h'.fin == h.fin && h'.from == h.from
    ensures if |q.queue| < CAPACITY then h'.tasks == h.tasks + [|h.segs|] && h'.dropped == h.dropped
            else h'.tasks == h.tasks && h'.dropped == h.dropped + {|h.segs|}
  {
    hide QueueInv;
    hide IsQueueRun;
    hide LedgerOf;
    LevelsThere(run, steps, q, h);
    var r1, s1 := Extend(run, steps, q, h, Plain(Write(rs)));
    var q1, h1 := Next(q, Plain(Write(rs))), Entered(q, h, Plain(Write(rs)));
    assert [] + rs == rs;
    LevelsThere(r1, s1, q1, h1);
    run', steps' := Extend(r1, s1, q1, h1, Send);
    q', h' := Next(q1, Send), Entered(q1, h1, Send);
    RunLength(run, steps, q, h);
    RunLength(r1, s1, q1, h1);
    assert run'[|r1| - 1] == r1[|r1| - 1] == q1;
  }

  lemma {:induction false} RunLength(run: seq<Queued>, steps: seq<QueueStep>, q: Queued, h: Ledger)
    requires LeadsTo(run, steps, q, h)
    ensures |run| == |steps| + 1
  {
    hide Allowed;
    hide Next;
    hide Init;
  }

  ghost function Numbers(n: nat): (r: seq<nat>)
    ensures |r| == n && forall i :: 0 <= i < n ==> r[i] == i
  {
    seq(n, i => i)
  }

  ghost function Fillers(n: nat): (r: seq<Records>)
    ensures |r| == n && forall i :: 0 <= i < n ==> r[i] == [Filler]
  {
    seq(n, i => [Filler])
  }

  lemma {:induction false} Start() returns (run: seq<Queued>, steps: seq<QueueStep>, q: Queued)
    ensures LeadsTo(run, steps, q, NoLedger) && Idle(q, 0)
  {
    q := Queued(Engine([WalFile(1, [])], map[], [], [[], []], [[], []], 1, Resting, NoJob), [], None);
    run, steps := [q], [];
  }

  /** n small memtables frozen, all their tasks in the channel. */
  lemma {:induction false} Fill(n: nat) returns (run: seq<Queued>, steps: seq<QueueStep>, q: Queued, h: Ledger)
    requires n <= CAPACITY
    ensures LeadsTo(run, steps, q, h) && Idle(q, n)
    ensures h.segs == Fillers(n) && h.current == [] && h.fin == {} && h.tasks == Numbers(n) && h.dropped == {}
  {
    hide LeadsTo;
    if n == 0 {
      run, steps, q := Start();
      h := NoLedger;
    } else {
      var r0, s0, q0, h0 := Fill(n - 1);
      run, steps, q, h := WriteAndSend(r0, s0, q0, h0, [Filler]);
    }
  }

  /** The flush loop works off the first n tasks, all small. */
  lemma {:induction false} WorkOff(run: seq<Queued>, steps: seq<QueueStep>, q: Queued, h: Ledger, n: nat)
    returns (run': seq<Queued>, steps': seq<QueueStep>, q': Queued, h': Ledger)
    requires LeadsTo(run, steps, q, h) && Idle(q, |q.queue|) && n <= |h.tasks| && |q.queue| == |h.tasks|
    requires forall i :: 0 <= i < n ==> h.tasks[i] < |h.segs| && h.segs[h.tasks[i]] == [Filler]
    ensures run <= run' && steps <= steps' && LeadsTo(run', steps', q', h') && Idle(q', |q.queue| - n)
    ensures h'.segs == h.segs && h'.current == h.current && h'.dropped == h.dropped && h'.tasks == h.tasks[n..]
    ensures h'.fin == h.fin + Members(h.tasks[..n])
    decreases n
  {
    hide LeadsTo;
    if n == 0 {
      run', steps', q', h' := run, steps, q, h;
    } else {
      var r1, s1, q1 := FlushOne(run, steps, q, h, [0], [9]);
      var h1 := h.(fin := h.fin + {h.tasks[0]}, tasks := h.tasks[1..], from := h.tasks[0] + 1);
      run', steps', q', h' := WorkOff(r1, s1, q1, h1, n - 1);
      assert h.tasks[..n] == [h.tasks[0]] + h1.tasks[..n - 1];
      assert h1.tasks[n - 1..] == h.tasks[n..];
    }
  }

  /** Where the run ends: the seventeenth memtable dropped, all others flushed. */
  ghost predicate Overtaken(q: Queued, h: Ledger)
  {
    && h.segs == Fillers(16) + [[OldOne, OnlyTwo], [NewOne]] && h.current == [] && h.from == 18
    && h.fin == Members(Numbers(16)) + {17} && h.tasks == [] && h.dropped == {16} && Idle(q, 0)
  }

  lemma {:induction false} OvertakingRun() returns (run: seq<Queued>, steps: seq<QueueStep>, j: nat, h: Ledger)
    ensures |run| > 0 && LeadsTo(run, steps, End(run), h) && Overtaken(End(run), h)
    ensures j < |steps| && j < |run| && steps[j] == Send && |run[j].queue| == CAPACITY
  {
    hide LeadsTo;
    var r0, s0, q0, h0 := Fill(16);
    var r1, s1, q1, h1 := WriteAndSend(r0, s0, q0, h0, [OldOne, OnlyTwo]);
    j := |s0| + 1;
    RunLength(r1, s1, q1, h1);
    var r2, s2, q2, h2 := WorkOff(r1, s1, q1, h1, 16);
    assert h1.tasks[..16] == Numbers(16);
    var r3, s3, q3, h3 := WriteAndSend(r2, s2, q2, h2, [NewOne]);
    assert h3.segs == Fillers(16) + [[OldOne, OnlyTwo], [NewOne]];
    var r4, s4, q4 := FlushOne(r3, s3, q3, h3, [1], [2]);
    assert h3.tasks[1..] == [] && h3.tasks[0] == 17;
    run, steps, h := r4, s4, h3.(fin := h3.fin + {17}, tasks := [], from := 18);
    RunLength(r4, s4, q4, h);
    EndOf(r4, s4, q4, h);
  }

  lemma {:induction false} EndOf(run: seq<Queued>, steps: seq<QueueStep>, q: Queued, h: Ledger)
    requires LeadsTo(run, steps, q, h)
    ensures |run| > 0 && End(run) == q
  {
    hide Allowed;
    hide Next;
    hide Init;
  }

  lemma {:induction false} FillerSays(k: Key)
    ensures Last([Filler], k) == if k == [0] then Some(Some([9])) else None
  {
    assert [Filler][..0] == [] && Last([], k).None?;
  }

  lemma {:induction false} LateWrites()
    ensures Last([OldOne, OnlyTwo], [1]) == Some(Some([1])) && Last([OldOne, OnlyTwo], [2]) == Some(Some([2]))
    ensures Last([NewOne], [1]) == Some(Some([2])) && Last([NewOne], [2]).None?
  {
    assert [OldOne, OnlyTwo][..1] == [OldOne];
    assert [NewOne][..0] == [] && Last([], [2]).None?;
  }

  lemma {:induction false} FillersSilent(h: Ledger, q: Queued, s: set<nat>, k: Key)
    requires Overtaken(q, h) && k != [0]
    ensures LastIn(h.segs, s, 16, k).None?
  {
    forall i | 0 <= i < 16
      ensures Last(h.segs[i], k).None?
    {
      FillerSays(k);
      assert h.segs[i] == [Filler];
    }
    LastInBeyond(h.segs, s, 0, 16, k);
  }

  /** The running engine answers with the older of two values. */
  lemma {:induction false} StaleRead(q: Queued, h: Ledger)
    requires QueueInv(q, h) && Overtaken(q, h)
    ensures |q.e.levels| > 0
    ensures EngineHit(q.e, [1]) == Some(Some([1])) && Last(Join(h.segs) + h.current, [1]) == Some(Some([2]))
  {
    hide QueueInv;
    hide EngineHit;
    hide LastIn;
    hide Last;
    LateWrites();
    LiveFinding(q, h, [1]);
    assert h.segs[16] == [OldOne, OnlyTwo] && h.segs[17] == [NewOne];
    assert WaitingSet(q, h) == {16};
    NewestDecides(h.segs, {16}, 18, [1], 16);
    NothingLast([1]);
    SegmentsSay(q, h, 17, [1]);
    LevelsHere(q, h);
  }

  lemma {:induction false} LevelsHere(q: Queued, h: Ledger)
    requires QueueInv(q, h)
    ensures |q.e.levels| >= 2 && |q.e.listed| >= 2
  {
    hide TablesSay;
    hide MemsSay;
    hide LogsSay;
    hide TasksOk;
    TablesExist(q.e);
  }

  lemma {:induction false} NothingLast(k: Key)
    ensures Last([], k).None?
  {
  }

  /** The newest memtable with the key has the last write. */
  lemma {:induction false} SegmentsSay(q: Queued, h: Ledger, i: nat, k: Key)
    requires Overtaken(q, h) && i < 18 && Last(h.segs[i], k).Some?
    requires forall m :: i < m < 18 ==> Last(h.segs[m], k).None?
    ensures Last(Join(h.segs) + h.current, k) == Last(h.segs[i], k)
  {
    hide Last;
    hide LastIn;
    hide Join;
    var all := Members(Numbers(18));
    forall x | 0 <= x < 18
      ensures x in all
    {
      assert Numbers(18)[x] == x;
    }
    LastInAll(h.segs, all, k);
    NewestDecides(h.segs, all, 18, k, i);
    assert Join(h.segs) + [] == Join(h.segs);
  }

  /** After a crash the dropped memtable's only write to a key is gone. */
  lemma {:induction false} LostWrite(q: Queued, h: Ledger)
    requires QueueInv(q, h) && Overtaken(q, h)
    ensures |q.e.listed| > 0
    ensures EngineHit(Reopened(q.e, []), [2]).None? && Last(Join(h.segs) + h.current, [2]) == Some(Some([2]))
  {
    hide QueueInv;
    hide EngineHit;
    hide LastIn;
    hide Last;
    hide Reopened;
    LateWrites();
    LevelsHere(q, h);
    RecoveredFinding(q, h, [], [2]);
    assert h.current + [] == [] && h.segs[18..] == [];
    JoinNone();
    NothingLast([2]);
    var listed := ListedSet(q, h);
    assert 16 !in listed by { NotAmong(16); }
    assert h.segs[16] == [OldOne, OnlyTwo] && h.segs[17] == [NewOne];
    LastInBeyond(h.segs, listed, 16, 18, [2]);
    FillersSilent(h, q, listed, [2]);
    SegmentsSay(q, h, 16, [2]);
  }

  lemma {:induction false} NotAmong(n: nat)
    ensures n !in Members(Numbers(n))
  {
  }

  /** A run in which a freeze finds sixteen tasks in the channel: later the running engine answers
      with a value that has been overwritten, and after a crash an acknowledged write is gone. */
  lemma {:induction false} OvertakingLosesAWrite() returns (run: seq<Queued>, steps: seq<QueueStep>, j: nat)
    ensures IsQueueRun(run, steps) && j < |steps| && steps[j] == Send && |run[j].queue| == CAPACITY
    ensures |End(run).e.levels| > 0 && |End(run).e.listed| > 0
    ensures EngineHit(End(run).e, [1]) == Some(Some([1])) && Last(WrittenBy(steps), [1]) == Some(Some([2]))
    ensures EngineHit(Reopened(End(run).e, []), [2]).None? && Last(WrittenBy(steps), [2]) == Some(Some([2]))
  {
    hide EngineHit;
    hide Reopened;
    hide QueueInv;
    hide Overtaken;
    hide Last;
    hide WrittenBy;
    hide Allowed;
    hide Next;
    hide Init;
    var h: Ledger;
    run, steps, j, h := OvertakingRun();
    LedgerInvAtEnd(run, steps, End(run), h);
    StaleRead(End(run), h);
    LostWrite(End(run), h);
  }
}
