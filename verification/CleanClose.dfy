/** Close (engine/engine.go) with memtables whose flush was dropped: it flushes the active memtable
    first and the waiting ones after it, so that these become the newest tables. */
module CleanClose {
  import opened Prelude
  import opened Keys
  import opened Tables
  import opened Compaction
  import opened Writes
  import opened EngineMachine
  import opened EngineInvariant
  import opened EngineRefinement
  import opened FlushQueue
  import opened FullChannel

  /** What flushMemtable makes of a memtable: no file for an empty one. */
  ghost predicate TableFor(o: Option<Table>, m: Mem)
  {
    if m == map[] then o.None? else o.Some? && Holds(o.value, m)
  }

  /** The tables of Close: the active memtable's, and those of the waiting ones, oldest first. */
  ghost predicate ClosesWith(e: Engine, active: Option<Table>, waiting: seq<Option<Table>>)
  {
    && TableFor(active, e.active) && |waiting| == |e.imms|
    && forall i :: 0 <= i < |waiting| ==> TableFor(waiting[i], e.imms[|e.imms| - 1 - i].mem)
  }

  function Added(ls: seq<Level>, ts: seq<Option<Table>>): (r: seq<Level>)
    requires |ls| > 0
    ensures |r| == |ls|
  {
    if ts == [] then ls
    else
      var n := |ts| - 1;
      if ts[n].Some? then AddToL0(Added(ls, ts[..n]), ts[n].value) else Added(ls, ts[..n])
  }

  /** The engine after Close: no log file was purged, since these flushes carry no log number. */
  function Closed(e: Engine, active: Option<Table>, waiting: seq<Option<Table>>): (r: Engine)
    requires |e.levels| > 0 && |e.listed| > 0
  {
    e.(listed := Added(e.listed, [active] + waiting), levels := Added(e.levels, [active] + waiting), imms := [])
  }

  lemma {:induction false} TableSays(o: Option<Table>, m: Mem, ls: seq<Level>, k: Key)
    requires TableFor(o, m) && |ls| > 0
    ensures StoreHit(if o.Some? then AddToL0(ls, o.value) else ls, k) == Over(MemHit(m, k), StoreHit(ls, k))
  {
    hide StoreHit;
    if o.Some? {
      AddedHit(ls, o.value, k);
    }
  }

  /** The waiting memtables on top, the newest first, then the active one, then the tables before. */
  lemma {:induction false} ClosedTables(ls: seq<Level>, active: Option<Table>, m: Mem, waiting: seq<Option<Table>>,
                                        imms: seq<Frozen>, k: Key)
    requires |ls| > 0 && TableFor(active, m) && |waiting| == |imms|
    requires forall i :: 0 <= i < |waiting| ==> TableFor(waiting[i], imms[|imms| - 1 - i].mem)
    ensures StoreHit(Added(ls, [active] + waiting), k) == Over(FrozenHit(imms, k), Over(MemHit(m, k), StoreHit(ls, k)))
    decreases |imms|
  {
    hide StoreHit;
    hide TableFor;
    var ts := [active] + waiting;
    var n := |waiting|;
    assert ts[..n] == if n == 0 then [] else [active] + waiting[..n - 1];
    if n == 0 {
      assert ts[n] == active;
      TableSays(active, m, ls, k);
    } else {
      assert ts[n] == waiting[n - 1];
      ClosedTables(ls, active, m, waiting[..n - 1], imms[1..], k);
      TableSays(waiting[n - 1], imms[0].mem, Added(ls, ts[..n]), k);
    }
  }

  /** What is read after Close and the next Open: the log, the waiting memtables, the tables before. */
  lemma {:induction false} ClosedFinding(q: Queued, h: Ledger, active: Option<Table>, waiting: seq<Option<Table>>,
                                         k: Key)
    requires QueueInv(q, h) && q.busy.None? && q.queue == [] && ClosesWith(q.e, active, waiting)
    ensures |q.e.levels| > 0 && |q.e.listed| > 0
    ensures EngineHit(Reopened(Closed(q.e, active, waiting), []), k) ==
            Over(Last(Join(h.segs[h.from..]) + h.current, k),
                 Over(LastIn(h.segs, h.dropped, |h.segs|, k), LastIn(h.segs, h.fin, |h.segs|, k)))
  {
    hide StoreHit;
    hide LastIn;
    hide Join;
    hide JobOk;
    hide TableFor;
    hide EngineHit;
    hide Reopened;
    TablesExist(q.e);
    hide ShapeOk;
    var e' := Closed(q.e, active, waiting);
    var log := Join(h.segs[h.from..]);
    NobodyWaits(q, h);
    ImmsHit(q.e.imms, h, WaitingSet(q, h), |h.segs|, k);
    assert MemHit(q.e.active, k) == Last(h.current, k);
    ClosedTables(q.e.listed, active, q.e.active, waiting, q.e.imms, k);
    assert (log + h.current) + [] == log + h.current;
    ReopenedHit(e', [], k);
    LastAppend(log, h.current, k);
  }

  lemma {:induction false} NobodyWaits(q: Queued, h: Ledger)
    requires TasksOk(q, h) && q.busy.None? && q.queue == []
    ensures h.tasks == [] && WaitingSet(q, h) == h.dropped && ListedSet(q, h) == h.fin
    ensures forall i :: 0 <= i < |h.segs| ==> i in h.dropped || i in h.fin
  {
    assert InHand(q) == [];
  }

  /** A dropped memtable hides a newer flushed value when the engine is opened again: the key is not in the log. */
  ghost predicate StaleOnReopening(h: Ledger, k: Key)
    requires h.from <= |h.segs|
  {
    && Last(Join(h.segs[h.from..]) + h.current, k).None?
    && exists i, j :: 0 <= i < j < |h.segs| && StalePair(h, h.dropped, h.fin, i, j, k)
  }

  lemma {:induction false} LogIsLast(h: Ledger, k: Key)
    requires h.from <= |h.segs|
    ensures var log := Join(h.segs[h.from..]) + h.current;
            && (Last(log, k).Some? ==> Last(Join(h.segs) + h.current, k) == Last(log, k))
            && (Last(log, k).None? ==> Last(Join(h.segs) + h.current, k) == Last(Join(h.segs), k))
  {
    hide Last;
    hide Join;
    var a, b := h.segs[..h.from], h.segs[h.from..];
    assert h.segs == a + b;
    JoinAppend(a, b);
    LastAppend(Join(a), Join(b), k);
    LastAppend(Join(h.segs), h.current, k);
    LastAppend(Join(b), h.current, k);
  }

  /** Nothing is missing in memtables and tables together. */
  lemma {:induction false} SomewhereFound(h: Ledger, k: Key)
    requires forall i :: 0 <= i < |h.segs| ==> i in h.dropped || i in h.fin
    ensures Over(LastIn(h.segs, h.dropped, |h.segs|, k), LastIn(h.segs, h.fin, |h.segs|, k)).Some? <==>
            Last(Join(h.segs), k).Some?
  {
    hide Last;
    hide Join;
    var n, all := |h.segs|, h.dropped + h.fin;
    LastInAll(h.segs, all, k);
    if LastIn(h.segs, all, n, k).Some? {
      var i := NewestIn(h.segs, all, n, k);
      if i in h.dropped {
        NoneIn(h.segs, h.dropped, n, k, i);
      } else {
        NoneIn(h.segs, h.fin, n, k, i);
      }
    } else {
      NoneFound(h.segs, h.dropped, all, n, k);
      NoneFound(h.segs, h.fin, all, n, k);
    }
  }

  /** Over every run with the channel: once the flush loop has ended, Close and the next Open lose no
      key, and a key is read right exactly if it is not stale on reopening. */
  lemma {:induction false} CloseExact(run: seq<Queued>, steps: seq<QueueStep>, j: nat, active: Option<Table>,
                                      waiting: seq<Option<Table>>, k: Key)
    requires IsQueueRun(run, steps) && j < |run| && run[j].busy.None? && run[j].queue == []
    requires ClosesWith(run[j].e, active, waiting)
    ensures |run[j].e.levels| > 0 && |run[j].e.listed| > 0
    ensures LedgerOf(run, steps, j).from <= |LedgerOf(run, steps, j).segs|
    ensures var found := EngineHit(Reopened(Closed(run[j].e, active, waiting), []), k);
            var last := Last(WrittenBy(steps[..j]), k);
            (found.Some? <==> last.Some?) && (found == last <==> !StaleOnReopening(LedgerOf(run, steps, j), k))
  {
    hide EngineHit;
    hide Reopened;
    hide Closed;
    hide ClosesWith;
    hide LastIn;
    hide Last;
    hide LedgerOf;
    hide Allowed;
    hide Next;
    hide Init;
    hide Join;
    hide StalePair;
    hide TablesSay;
    hide MemsSay;
    var q, h := run[j], LedgerOf(run, steps, j);
    LedgerInv(run, steps, j);
    ClosedFinding(q, h, active, waiting, k);
    NobodyWaits(q, h);
    LogIsLast(h, k);
    SomewhereFound(h, k);
    WaitingFirst(h, h.dropped, h.fin, k);
  }

  // ---------- the run with the full channel, closed at its end ----------

  lemma {:induction false} NoneFrozen(imms: seq<Frozen>, h: Ledger, s: set<nat>, n: nat)
    requires n <= |h.segs| && n <= |h.ids| && ImmsFor(imms, h, s, n) && forall i :: 0 <= i < n ==> i !in s
    ensures imms == []
  {
    if n > 0 {
      NoneFrozen(imms, h, s, n - 1);
    }
  }

  lemma {:induction false} OneWaits(q: Queued, h: Ledger)
    requires TasksOk(q, h) && MemsSay(q, h) && Overtaken(q, h)
    ensures |q.e.imms| == 1 && SaysLast(q.e.imms[0].mem, [OldOne, OnlyTwo]) && q.e.active == map[]
  {
    NobodyWaits(q, h);
    assert h.segs[16] == [OldOne, OnlyTwo];
    var imms := q.e.imms;
    assert ImmsFor(imms, h, {16}, 17);
    assert ImmsFor(imms[1..], h, {16}, 16);
    NoneFrozen(imms[1..], h, {16}, 16);
    forall k
      ensures k !in q.e.active
    {
      assert MemHit(q.e.active, k) == Last([], k);
    }
  }

  const DroppedTable := Table(18, [Entry([1], Some([1])), Entry([2], Some([2]))])

  lemma {:induction false} TwoSay(k: Key)
    ensures Hit(DroppedTable.entries, k) == Last([OldOne, OnlyTwo], k)
  {
    var es := DroppedTable.entries;
    assert es[1..] == [es[1]] && [es[1]][1..] == [];
    assert Hit([], k).None?;
    assert Hit([es[1]], k) == if k == [2] then Some(Some([2])) else None;
    var ws := [OldOne, OnlyTwo];
    assert ws[..1] == [OldOne] && [OldOne][..0] == [] && Last([], k).None?;
    assert Last([OldOne], k) == if k == [1] then Some(Some([1])) else None;
  }

  lemma {:induction false} DroppedHolds(m: Mem)
    requires SaysLast(m, [OldOne, OnlyTwo])
    ensures Holds(DroppedTable, m) && m != map[]
  {
    LateWrites();
    assert Compare([1], [2]) < 0;
    var es := DroppedTable.entries;
    forall k
      ensures Hit(es, k) == MemHit(m, k)
    {
      TwoSay(k);
      assert MemHit(m, k) == Last([OldOne, OnlyTwo], k);
    }
    assert MemHit(m, [1]).Some?;
  }

  lemma {:induction false} ClosedReads(q: Queued, h: Ledger, waiting: seq<Option<Table>>)
    requires QueueInv(q, h) && Overtaken(q, h) && ClosesWith(q.e, None, waiting)
    ensures |q.e.levels| > 0 && |q.e.listed| > 0
    ensures EngineHit(Reopened(Closed(q.e, None, waiting), []), [1]) == Some(Some([1]))
    ensures Last(Join(h.segs) + h.current, [1]) == Some(Some([2]))
  {
    hide QueueInv;
    hide EngineHit;
    hide Reopened;
    hide Closed;
    hide ClosesWith;
    hide LastIn;
    hide Last;
    ClosedFinding(q, h, None, waiting, [1]);
    LateWrites();
    assert h.segs[16] == [OldOne, OnlyTwo] && h.segs[17] == [NewOne];
    assert h.segs[18..] == [];
    JoinNone();
    assert Join(h.segs[h.from..]) + h.current == [];
    NothingLast([1]);
    NewestDecides(h.segs, {16}, 18, [1], 16);
    SegmentsSay(q, h, 17, [1]);
  }

  /** A run with a full channel, closed properly at its end: the overwritten value is read from then on. */
  lemma {:induction false} CloseKeepsStaleValue()
    returns (run: seq<Queued>, steps: seq<QueueStep>, waiting: seq<Option<Table>>)
    ensures IsQueueRun(run, steps) && End(run).busy.None? && End(run).queue == []
    ensures |End(run).e.levels| > 0 && |End(run).e.listed| > 0 && ClosesWith(End(run).e, None, waiting)
    ensures EngineHit(Reopened(Closed(End(run).e, None, waiting), []), [1]) == Some(Some([1]))
    ensures Last(WrittenBy(steps), [1]) == Some(Some([2]))
  {
    hide EngineHit;
    hide Reopened;
    hide Closed;
    hide Last;
    hide WrittenBy;
    hide Allowed;
    hide Next;
    hide Init;
    hide Holds;
    hide TablesSay;
    hide LogsSay;
    hide ShapeOk;
    hide JobOk;
    hide IdsBelow;
    hide MemsSay;
    hide TasksOk;
    var j, h;
    run, steps, j, h := OvertakingRun();
    var q := End(run);
    LedgerInvAtEnd(run, steps, q, h);
    OneWaits(q, h);
    DroppedHolds(q.e.imms[0].mem);
    waiting := [Some(DroppedTable)];
    assert ClosesWith(q.e, None, waiting);
    ClosedReads(q, h, waiting);
  }
}
