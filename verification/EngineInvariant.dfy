/** The invariant of the engine: how log files, memtables and tables share out the writes made. */
module EngineInvariant {
  import opened Keys
  import opened Compaction
  import opened LevelCompaction
  import opened Writes
  import opened EngineMachine

  /** Where the writes made so far are: the memtables hold those from `start` on, the readers'
      tables speak for the first `covered`, the manifest's tables for the first `listedTo`. */
  datatype Trace = Trace(
    logged: Records,
    start: nat,
    covered: nat,
    listedTo: nat,
    frozen: seq<Records>,    // newest first, like the frozen memtables
    current: Records)

  /** The writes in frozen memtables, in the order they were made. */
  ghost function Chron(frozen: seq<Records>): (r: Records)
  {
    if frozen == [] then [] else Chron(frozen[1..]) + frozen[0]
  }

  ghost predicate SuffixOf(a: Records, b: Records)
  {
    |a| <= |b| && b[|b| - |a|..] == a
  }

  ghost predicate ShapeOk(e: Engine)
  {
    && L0Ok(e.levels)
    && e.listed == (if e.stage.Listed? then AddToL0(e.levels, e.stage.table) else e.levels)
    && L0Ok(e.listed)
    && (forall i, t :: 0 <= i < |e.listed| && t in e.listed[i] ==> t.num < e.nextNum)
  }

  ghost predicate JobOk(e: Engine)
    requires |e.levels| >= 2
  {
    match e.job
    case NoJob => true
    case LevelJob(l, outs) =>
      && 1 <= l < |e.levels| - 1 && |e.levels[l]| > 0
      && MergesDown([e.levels[l][0]], e.levels[l + 1], MinKey(e.levels[l][0]), MaxKey(e.levels[l][0]), outs)
      && (forall o :: o in outs ==> o.num < e.nextNum)
    case L0Job(n, metas, lo, hi, outs) =>
      && n <= |e.levels[0]| && metas == Nums(e.levels[0][..n])
      && MergesDown(e.levels[0][..n], e.levels[1], lo, hi, outs)
      && (forall o :: o in outs ==> o.num < e.nextNum)
  }

  ghost predicate TraceOk(e: Engine, h: Trace)
  {
    && h.start <= h.covered <= h.listedTo <= |h.logged|
    && h.logged[h.start..] == Chron(h.frozen) + h.current
    && (|h.frozen| > 0 ==> h.start + |h.frozen[|h.frozen| - 1]| >= h.listedTo)
    && (e.stage.Listed? || e.stage.Appended? ==>
          |h.frozen| > 0 && h.listedTo == h.start + |h.frozen[|h.frozen| - 1]|)
    && (e.stage.Listed? || h.covered == h.listedTo)
  }

  ghost predicate SaysLast(m: Mem, rs: Records)
  {
    forall k :: MemHit(m, k) == Last(rs, k)
  }

  ghost predicate MemsOk(e: Engine, h: Trace)
  {
    && |h.frozen| == |e.imms|
    && (forall i :: 0 <= i < |e.imms| ==> SaysLast(e.imms[i].mem, h.frozen[i]))
    && SaysLast(e.active, h.current)
  }

  ghost predicate StoreOk(e: Engine, h: Trace)
    requires |e.levels| > 0 && |e.listed| > 0 && h.covered <= |h.logged| && h.listedTo <= |h.logged|
  {
    && (forall k :: StoreHit(e.levels, k) == Last(h.logged[..h.covered], k))
    && (forall k :: StoreHit(e.listed, k) == Last(h.logged[..h.listedTo], k))
  }

  ghost predicate Ascending(wal: seq<WalFile>)
  {
    forall i, j :: 0 <= i < j < |wal| ==> wal[i].id < wal[j].id
  }

  /** The log files are a suffix of the writes that reaches back at least to `start`, and what lies
      beyond a frozen memtable's file is exactly what was written after it was frozen. */
  ghost predicate WalOk(e: Engine, h: Trace)
  {
    && |e.wal| > 0 && Ascending(e.wal)
    && SuffixOf(AllRecords(e.wal), h.logged)
    && |h.logged| - |AllRecords(e.wal)| <= h.start
    && |h.frozen| == |e.imms|
    && (forall i, j :: 0 <= i < j < |e.imms| ==> e.imms[i].walId > e.imms[j].walId)
    && (forall i :: 0 <= i < |e.imms| ==> FrozenWalOk(e, h, i))
    && (e.stage.Removed? ==>
          && e.stage.walId < LastId(e.wal)
          && AllRecords(Beyond(e.wal, e.stage.walId)) == Chron(h.frozen) + h.current
          && forall i :: 0 <= i < |e.imms| ==> e.imms[i].walId > e.stage.walId)
  }

  ghost predicate FrozenWalOk(e: Engine, h: Trace, i: nat)
    requires i < |e.imms| && i < |h.frozen|
  {
    && e.imms[i].walId < LastId(e.wal)
    && AllRecords(Beyond(e.wal, e.imms[i].walId)) == Chron(h.frozen[..i]) + h.current
  }

  ghost predicate Inv(e: Engine, h: Trace)
  {
    ShapeOk(e) && JobOk(e) && TraceOk(e, h) && MemsOk(e, h) && StoreOk(e, h) && WalOk(e, h)
  }

  /** The trace after a step. */
  ghost function After(e: Engine, h: Trace, step: Step): (r: Trace)
    requires Enabled(e, step)
  {
    match step
    case Write(rs) => h.(logged := h.logged + rs, current := h.current + rs)
    case Freeze => h.(frozen := [h.current] + h.frozen, current := [])
    case FlushEmpty => if |h.frozen| > 0 then h.(frozen := h.frozen[..|h.frozen| - 1]) else h
    case FlushList(t) =>
      if |h.frozen| > 0 then h.(listedTo := h.start + |h.frozen[|h.frozen| - 1]|) else h
    case FlushAppend => h.(covered := h.listedTo)
    case FlushRemove =>
      if |h.frozen| > 0
      then h.(start := h.listedTo, frozen := h.frozen[..|h.frozen| - 1])
      else h
    case Crash(partial) =>
      var rs := AllRecords(Logged(e.wal, partial));
      var all := h.logged + partial;
      Trace(all, if |rs| <= |all| then |all| - |rs| else 0, h.listedTo, h.listedTo, [], rs)
    case _ => h
  }

  // ---------- reading ----------

  lemma {:induction false} ChronHit(imms: seq<Frozen>, frozen: seq<Records>, k: Key)
    requires |imms| == |frozen| && forall i :: 0 <= i < |imms| ==> SaysLast(imms[i].mem, frozen[i])
    ensures FrozenHit(imms, k) == Last(Chron(frozen), k)
  {
    if imms != [] {
      assert SaysLast(imms[0].mem, frozen[0]);
      ChronHit(imms[1..], frozen[1..], k);
      LastAppend(Chron(frozen[1..]), frozen[0], k);
    }
  }

  /** In every state the invariant allows, a read finds the last write. */
  lemma {:induction false} ReadsLast(e: Engine, h: Trace, k: Key)
    requires Inv(e, h)
    ensures EngineHit(e, k) == Last(h.logged, k)
  {
    hide ShapeOk;
    hide JobOk;
    hide WalOk;
    hide StoreHit;
    ChronHit(e.imms, h.frozen, k);
    LastAppend(Chron(h.frozen), h.current, k);
    Overlap(h.logged, h.start, h.covered, k);
    assert SaysLast(e.active, h.current);
  }

  // ---------- log files ----------

  lemma {:induction false} AllRecordsAppend(a: seq<WalFile>, b: seq<WalFile>)
    ensures AllRecords(a + b) == AllRecords(a) + AllRecords(b)
  {
    if a == [] {
      assert a + b == b;
    } else {
      assert (a + b)[1..] == a[1..] + b;
      AllRecordsAppend(a[1..], b);
    }
  }

  lemma {:induction false} BeyondAppend(a: seq<WalFile>, b: seq<WalFile>, id: nat)
    ensures Beyond(a + b, id) == Beyond(a, id) + Beyond(b, id)
  {
    if a == [] {
      assert a + b == b;
    } else {
      assert (a + b)[1..] == a[1..] + b;
      BeyondAppend(a[1..], b, id);
    }
  }

  lemma {:induction false} BeyondNone(a: seq<WalFile>, id: nat)
    requires forall f :: f in a ==> f.id <= id
    ensures Beyond(a, id) == []
  {
    if a != [] {
      BeyondNone(a[1..], id);
    }
  }

  lemma {:induction false} BeyondAll(a: seq<WalFile>, id: nat)
    requires forall f :: f in a ==> f.id > id
    ensures Beyond(a, id) == a
  {
    if a != [] {
      assert forall f :: f in a[1..] ==> f in a;
      BeyondAll(a[1..], id);
      assert a[0] in a;
      assert a == [a[0]] + a[1..];
    }
  }

  lemma {:induction false} BeyondTwice(a: seq<WalFile>, id: nat, id': nat)
    requires id <= id'
    ensures Beyond(Beyond(a, id), id') == Beyond(a, id')
  {
    if a != [] {
      BeyondTwice(a[1..], id, id');
      if a[0].id > id {
        assert Beyond(a, id)[1..] == Beyond(a[1..], id);
      }
    }
  }

  lemma {:induction false} LoggedRecords(wal: seq<WalFile>, rs: Records)
    requires |wal| > 0
    ensures AllRecords(Logged(wal, rs)) == AllRecords(wal) + rs
    ensures LastId(Logged(wal, rs)) == LastId(wal) && (Ascending(wal) ==> Ascending(Logged(wal, rs)))
  {
    var n := |wal| - 1;
    var f := WalFile(wal[n].id, wal[n].records + rs);
    assert wal == wal[..n] + [wal[n]];
    assert Logged(wal, rs) == wal[..n] + [f];
    AllRecordsAppend(wal[..n], [wal[n]]);
    AllRecordsAppend(wal[..n], [f]);
    OneFile(wal[n]);
    OneFile(f);
  }

  lemma {:induction false} OneFile(f: WalFile)
    ensures AllRecords([f]) == f.records
  {
    assert [f][1..] == [];
    assert AllRecords([]) == [];
  }

  lemma {:induction false} LoggedBeyond(wal: seq<WalFile>, rs: Records, id: nat)
    requires |wal| > 0 && id < LastId(wal)
    ensures AllRecords(Beyond(Logged(wal, rs), id)) == AllRecords(Beyond(wal, id)) + rs
  {
    hide Beyond;
    hide AllRecords;
    var n := |wal| - 1;
    var f := WalFile(wal[n].id, wal[n].records + rs);
    assert wal == wal[..n] + [wal[n]];
    assert Logged(wal, rs) == wal[..n] + [f];
    BeyondAppend(wal[..n], [wal[n]], id);
    BeyondAppend(wal[..n], [f], id);
    BeyondAll([wal[n]], id);
    BeyondAll([f], id);
    AllRecordsAppend(Beyond(wal[..n], id), [wal[n]]);
    AllRecordsAppend(Beyond(wal[..n], id), [f]);
    OneFile(wal[n]);
    OneFile(f);
    var b := AllRecords(Beyond(wal[..n], id));
    assert b + (wal[n].records + rs) == (b + wal[n].records) + rs;
  }

  lemma {:induction false} RotatedBeyond(wal: seq<WalFile>, id: nat)
    requires |wal| > 0 && Ascending(wal) && id <= LastId(wal)
    ensures var wal' := wal + [WalFile(LastId(wal) + 1, [])];
            && AllRecords(wal') == AllRecords(wal)
            && AllRecords(Beyond(wal', id)) == AllRecords(Beyond(wal, id))
            && Ascending(wal') && LastId(wal') == LastId(wal) + 1
            && (id == LastId(wal) ==> AllRecords(Beyond(wal', id)) == [])
  {
    hide Beyond;
    hide AllRecords;
    var f := WalFile(LastId(wal) + 1, []);
    AllRecordsAppend(wal, [f]);
    OneFile(f);
    BeyondAppend(wal, [f], id);
    BeyondAll([f], id);
    AllRecordsAppend(Beyond(wal, id), [f]);
    if id == LastId(wal) {
      forall g | g in wal
        ensures g.id <= id
      {
        var i :| 0 <= i < |wal| && wal[i] == g;
        assert i < |wal| - 1 ==> wal[i].id < wal[|wal| - 1].id;
      }
      BeyondNone(wal, id);
      NoFiles();
    }
  }

  lemma {:induction false} NoFiles()
    ensures AllRecords([]) == []
  {
  }

  lemma {:induction false} FirstIsLeast(wal: seq<WalFile>, id: nat)
    requires Ascending(wal) && |wal| > 0 && wal[0].id > id
    ensures Beyond(wal, id) == wal
  {
    hide Beyond;
    forall f | f in wal
      ensures f.id > id
    {
      var j :| 0 <= j < |wal| && wal[j] == f;
      assert j > 0 ==> wal[0].id < wal[j].id;
    }
    BeyondAll(wal, id);
  }

  /** Ascending files: those beyond a number are the last ones. */
  lemma {:induction false} BeyondIsTail(wal: seq<WalFile>, id: nat) returns (i: nat)
    requires Ascending(wal)
    ensures i <= |wal| && Beyond(wal, id) == wal[i..]
    ensures i == |wal| ==> LastId(wal) <= id
  {
    if wal == [] {
      i := 0;
    } else if wal[0].id > id {
      i := 0;
      FirstIsLeast(wal, id);
      assert wal[0..] == wal;
    } else {
      var j := BeyondIsTail(wal[1..], id);
      i := j + 1;
      assert wal[1..][j..] == wal[i..];
    }
  }
}
