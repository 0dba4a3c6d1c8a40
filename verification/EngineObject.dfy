/** The engine as the object it is (engine/engine.go): a log of bytes, a skip list that is written in
    place, frozen skip lists, table files and their readers, and a manifest. Each method is the
    machine's step, and the bytes on disk are enough to open it again. */
module EngineObject {
  import opened Prelude
  import opened Keys
  import opened Tables
  import opened Compaction
  import opened LevelCompaction
  import opened Writes
  import opened ByteCodec
  import opened EngineMachine
  import opened EngineInvariant
  import opened WalFormat
  import opened WalStore
  import opened TornRecovery
  import opened Reads
  import opened TableFiles
  import S = SkipLists
  import SSTables
  import SSTableFormat
  import SSTableReader
  import Bloom
  import M = ManifestLog
  import L = ManifestListing

  /** A frozen memtable and the log file that was active when it was frozen. */
  datatype FrozenList = FrozenList(list: S.SkipList, walId: nat)

  lemma {:induction false} OneRecord(r: Record, crc: Checksum)
    ensures FileData([r], crc) == EncodeRecord(ToWal(r), crc)
  {
    hide EncodeRecord;
    assert ToWals([r]) == [ToWal(r)];
    assert [ToWal(r)][1..] == [];
    NoData(crc);
  }

  lemma {:induction false} OneApplied(m: Mem, r: Record)
    ensures ApplyAll(m, [r]) == m[r.key := r.value]
  {
    assert [r][..0] == [];
  }

  lemma {:induction false} AppliedSnoc(m: Mem, rs: Records, i: nat)
    requires i < |rs|
    ensures ApplyAll(m, rs[..i + 1]) == ApplyAll(m, rs[..i])[rs[i].key := rs[i].value]
  {
    assert rs[..i + 1][..i] == rs[..i];
  }

  // ---------- the machine's steps, one by one ----------

  ghost predicate Sized(e: EngineMachine.Engine)
  {
    && LevelsOk(e.levels) && |e.levels| >= 2 && |e.listed| >= 2 && |e.wal| > 0
    && (forall i :: 0 <= i < |e.imms| ==> e.imms[i].walId < LastId(e.wal))
    && (forall i, t :: 0 <= i < |e.levels| && t in e.levels[i] ==> t.num < e.nextNum)
    && e.stage.Resting? && e.listed == e.levels
  }

  /** The machine can take the step, and it leads there. */
  ghost predicate Stepped(e: EngineMachine.Engine, step: Step, e': EngineMachine.Engine)
  {
    Enabled(e, step) && e' == Do(e, step)
  }

  lemma {:induction false} DoWrite(e: EngineMachine.Engine, rs: Records) returns (e': EngineMachine.Engine)
    requires Sized(e)
    ensures Stepped(e, EngineMachine.Write(rs), e') && Sized(e')
    ensures e' == e.(wal := Logged(e.wal, rs), active := ApplyAll(e.active, rs))
  {
    hide LevelsOk;
    LoggedRecords(e.wal, rs);
    e' := Do(e, EngineMachine.Write(rs));
  }

  lemma {:induction false} DoFreeze(e: EngineMachine.Engine) returns (e': EngineMachine.Engine)
    requires Sized(e)
    ensures Stepped(e, Freeze, e') && Sized(e')
    ensures e'.imms == [Frozen(e.active, LastId(e.wal))] + e.imms && e'.active == map[]
    ensures e'.wal == e.wal + [WalFile(LastId(e.wal) + 1, [])] && e'.levels == e.levels && e'.listed == e.listed
            && e'.nextNum == e.nextNum
  {
    hide LevelsOk;
    e' := Do(e, Freeze);
  }

  lemma {:induction false} DoFlushEmpty(e: EngineMachine.Engine) returns (e': EngineMachine.Engine)
    requires Sized(e) && |e.imms| > 0 && e.imms[|e.imms| - 1].mem == map[]
    ensures Stepped(e, FlushEmpty, e') && Sized(e')
    ensures e' == e.(imms := e.imms[..|e.imms| - 1], nextNum := e.nextNum + 1)
  {
    hide LevelsOk;
    e' := Do(e, FlushEmpty);
  }

  /** A flush as the machine has it: four steps in a row. */
  ghost predicate Flushed(e: EngineMachine.Engine, t: Table, e': EngineMachine.Engine)
  {
    exists s1, s2, s3 ::
      Stepped(e, FlushList(t), s1) && Stepped(s1, FlushAppend, s2) && Stepped(s2, FlushRemove, s3)
          && Stepped(s3, FlushPurge, e')
  }

  ghost function AfterFlush(e: EngineMachine.Engine, t: Table): (r: EngineMachine.Engine)
    requires |e.imms| > 0 && |e.levels| > 0 && |e.listed| > 0
  {
    var n := |e.imms| - 1;
    e.(wal := Beyond(e.wal, e.imms[n].walId), imms := e.imms[..n], levels := AddToL0(e.levels, t),
       listed := AddToL0(e.listed, t), nextNum := e.nextNum + 1)
  }

  lemma {:induction false} DoFlush(e: EngineMachine.Engine, t: Table)
    requires Sized(e) && |e.imms| > 0 && t.num == e.nextNum && Holds(t, e.imms[|e.imms| - 1].mem)
    ensures Flushed(e, t, AfterFlush(e, t))
  {
    hide LevelsOk;
    hide Beyond;
    hide Holds;
    var s1 := Do(e, FlushList(t));
    var s2 := Do(s1, FlushAppend);
    var s3 := Do(s2, FlushRemove);
    assert Stepped(e, FlushList(t), s1) && Stepped(s1, FlushAppend, s2) && Stepped(s2, FlushRemove, s3);
    assert Stepped(s3, FlushPurge, AfterFlush(e, t));
  }

  lemma {:induction false} FlushSized(e: EngineMachine.Engine, t: Table)
    requires Sized(e) && |e.imms| > 0 && t.num == e.nextNum && Holds(t, e.imms[|e.imms| - 1].mem)
    ensures Sized(AfterFlush(e, t))
  {
    hide LevelsOk;
    hide Beyond;
    LastKept(e.wal, e.imms[|e.imms| - 1].walId);
    LevelsWith(e.levels, t, e.nextNum);
  }

  /** The active file is never purged. */
  lemma {:induction false} LastKept(wal: seq<WalFile>, id: nat)
    requires |wal| > 0 && id < LastId(wal)
    ensures |Beyond(wal, id)| > 0 && LastId(Beyond(wal, id)) == LastId(wal)
  {
    hide Beyond;
    var n := |wal| - 1;
    assert wal == wal[..n] + [wal[n]];
    BeyondAppend(wal[..n], [wal[n]], id);
    BeyondOne(wal[n], id);
  }

  lemma {:induction false} LevelsWith(ls: seq<Level>, t: Table, num: nat)
    requires LevelsOk(ls) && TableOk(t) && t.num == num && forall i, u :: 0 <= i < |ls| && u in ls[i] ==> u.num < num
    ensures LevelsOk(AddToL0(ls, t)) && forall i, u :: 0 <= i < |ls| && u in AddToL0(ls, t)[i] ==> u.num < num + 1
  {
    hide TableOk;
    var ls' := AddToL0(ls, t);
    assert LevelOk(ls[0]);
    assert LevelOk(ls'[0]);
    forall i | 0 <= i < |ls'|
      ensures LevelOk(ls'[i]) && (i > 0 ==> Disjoint(ls'[i]))
    {
      assert i > 0 ==> ls'[i] == ls[i];
    }
  }

  lemma {:induction false} DoReopen(e: EngineMachine.Engine) returns (r: EngineMachine.Engine)
    requires LevelsOk(e.listed) && |e.wal| > 0
    ensures r == Reopened(e, []) && Sized(r)
    ensures r.wal == e.wal && r.active == ApplyAll(map[], AllRecords(e.wal)) && r.imms == []
    ensures r.levels == e.listed == r.listed && r.nextNum == NumAfterAll(e.listed)
  {
    LoggedNothingNew(e.wal);
    r := Reopened(e, []);
    forall i, t | 0 <= i < |e.listed| && t in e.listed[i]
      ensures t.num < r.nextNum
    {
      assert e.listed[i] in e.listed;
    }
  }

  // ---------- what the objects stand for ----------

  ghost predicate LogIs(wal: Wal, files: seq<WalFile>)
    reads wal
  {
    wal.Valid() && Represents(wal.files, files, wal.crc)
  }

  ghost predicate ManifestIs(manifest: M.Manifest, listed: seq<Level>)
    reads manifest
  {
    manifest.Valid() && L.Describes(manifest.levels, listed)
  }

  ghost predicate ListIs(list: S.SkipList, m: Mem)
    reads list, list.all
  {
    list.Valid() && S.AsMap(list.Contents()) == m
  }

  ghost predicate Outside(list: S.SkipList, objects: set<object>)
    reads list
  {
    list !in objects && forall q :: 0 <= q < |list.all| ==> list.all[q] !in objects
  }

  ghost predicate Inside(list: S.SkipList, objects: set<object>)
    reads list
  {
    list in objects && forall q :: 0 <= q < |list.all| ==> list.all[q] in objects
  }

  ghost function With(list: S.SkipList, objects: set<object>): (r: set<object>)
    reads list
  {
    objects + {list} + set x | x in list.all
  }

  lemma {:induction false} WithInside(list: S.SkipList, objects: set<object>)
    ensures Inside(list, With(list, objects)) && objects <= With(list, objects)
    ensures forall o :: o in With(list, objects) ==> o in objects || o == list || o in list.all
  {
  }

  /** Freezing one list and starting another adds the objects of the new one. */
  lemma {:induction false} WithNext(list: S.SkipList, next: S.SkipList, objects: set<object>, others: set<object>,
                                    o: object)
    requires o in With(next, others + With(list, objects)) && o !in With(list, others + objects)
    ensures o == next || o in next.all
  {
  }

  ghost predicate FrozenAre(fs: seq<FrozenList>, imms: seq<Frozen>, objects: set<object>)
    reads objects
  {
    && |fs| == |imms|
    && forall i :: 0 <= i < |fs| ==>
         fs[i].list in objects && Inside(fs[i].list, objects) && ListIs(fs[i].list, imms[i].mem)
             && fs[i].walId == imms[i].walId
  }

  lemma {:induction false} OneMoreFrozen(fs: seq<FrozenList>, imms: seq<Frozen>, objects: set<object>,
                                         list: S.SkipList, m: Mem, id: nat, objects': set<object>)
    requires FrozenAre(fs, imms, objects) && objects <= objects' && Inside(list, objects') && ListIs(list, m)
    ensures FrozenAre([FrozenList(list, id)] + fs, [Frozen(m, id)] + imms, objects')
  {
    hide ListIs;
    forall i | 0 <= i < |fs| + 1
      ensures var f, g := ([FrozenList(list, id)] + fs)[i], ([Frozen(m, id)] + imms)[i];
              f.list in objects' && Inside(f.list, objects') && ListIs(f.list, g.mem) && f.walId == g.walId
    {
      if i > 0 {
        assert fs[i - 1].list in objects && Inside(fs[i - 1].list, objects);
      }
    }
  }

  /** The active list and the frozen ones, which share no object. */
  ghost predicate MemoryIs(list: S.SkipList, fs: seq<FrozenList>, objects: set<object>, active: Mem, imms: seq<Frozen>)
    reads list, list.all, objects
  {
    ListIs(list, active) && Outside(list, objects) && FrozenAre(fs, imms, objects)
  }

  lemma {:induction false} OldestGone(list: S.SkipList, fs: seq<FrozenList>, objects: set<object>, active: Mem,
                                      imms: seq<Frozen>)
    requires MemoryIs(list, fs, objects, active, imms) && |fs| > 0
    ensures |fs| == |imms| && MemoryIs(list, fs[..|fs| - 1], objects, active, imms[..|imms| - 1])
    ensures ListIs(fs[|fs| - 1].list, imms[|imms| - 1].mem) && fs[|fs| - 1].walId == imms[|imms| - 1].walId
  {
    hide ListIs;
    hide Outside;
    OldestIs(fs, imms, objects);
    FewerFrozen(fs, imms, objects);
  }

  lemma {:induction false} FrozenHitFrom(imms: seq<Frozen>, i: nat, k: Key)
    requires i < |imms|
    ensures FrozenHit(imms[i..], k) == Over(MemHit(imms[i].mem, k), FrozenHit(imms[i + 1..], k))
  {
    assert imms[i..][1..] == imms[i + 1..];
  }

  class Engine {
    const wal: Wal
    const manifest: M.Manifest
    const crc: Checksum
    const hash: Bloom.Hash
    var memtable: S.SkipList
    var immutables: seq<FrozenList>    // newest first
    var levels: seq<seq<SSTableReader.Reader>>
    var disk: Disk                     // the table files of the directory
    var nextFileNum: nat
    ghost var state: EngineMachine.Engine
    ghost var frozen: set<object>      // the frozen lists and their nodes
    ghost var filters: Filters         // the readers' filters

    /** All that reading needs: everything but the log. */
    ghost predicate Serves()
      reads this, manifest, memtable, memtable.all, frozen, filters
    {
      && this !in frozen && wal !in frozen && manifest !in frozen && manifest.crc == crc
      && MemoryIs(memtable, immutables, frozen, state.active, state.imms) && Sized(state)
      && ReadersAre(levels, state.levels, filters) && nextFileNum == state.nextNum
      && ManifestIs(manifest, state.listed) && OnDisk(disk, manifest.levels, state.listed, crc, hash)
    }

    ghost predicate Valid()
      reads this, wal, manifest, memtable, memtable.all, frozen, filters
    {
      Serves() && wal.crc == crc && LogIs(wal, state.wal)
    }

    /** The objects the engine is made of. */
    ghost function Repr(): (r: set<object>)
      reads this, memtable
    {
      With(memtable, {this, wal, manifest} + frozen + filters)
    }

    /** The fields Open sets. */
    constructor (wal: Wal, manifest: M.Manifest, crc: Checksum, hash: Bloom.Hash, disk: Disk,
                 readers: seq<seq<SSTableReader.Reader>>, num: nat, list: S.SkipList,
                 ghost filters: Filters, ghost next: EngineMachine.Engine)
      ensures this.wal == wal && this.manifest == manifest && this.crc == crc && this.hash == hash && this.disk == disk
      ensures memtable == list && immutables == [] && levels == readers && nextFileNum == num
      ensures state == next && frozen == {} && this.filters == filters
    {
      this.wal, this.manifest, this.crc, this.hash, this.disk := wal, manifest, crc, hash, disk;
      memtable, immutables, levels, nextFileNum := list, [], readers, num;
      state, frozen, this.filters := next, {}, filters;
    }

    /** What is on disk is what a crash leaves of the state, provided the manifest found when the engine
        was opened had no torn record. */
    lemma {:induction false} Durable()
      requires Valid() && manifest.sound
      ensures Leaves(state, Directory(wal.files, manifest.file, disk), crc, hash)
    {
      hide M.Fits;
      hide M.Data;
      hide M.Readable;
      hide OnDisk;
      hide L.Describes;
      hide Represents;
      hide ReadersAre;
      hide ListIs;
      hide FrozenAre;
      hide Outside;
      hide LevelOk;
      hide Disjoint;
      UncutLog(wal.files, state.wal, crc);
      hide TornLog;
      M.AllReadable(manifest.calls, crc);
      L.DescribesSize(manifest.levels, state.listed);
    }

    method LogBatch(rs: Records)
      requires LogIs(wal, state.wal) && AllFit(rs) && |state.wal| > 0
      modifies wal
      ensures LogIs(wal, Logged(state.wal, rs))
    {
      hide Fits;
      AppendRepresents(wal.files, state.wal, wal.crc, rs);
      hide Represents;
      wal.AppendBatch(ToWals(rs));
    }

    method LogOne(r: Record)
      requires LogIs(wal, state.wal) && Fits(ToWal(r)) && |state.wal| > 0
      modifies wal
      ensures LogIs(wal, Logged(state.wal, [r]))
    {
      hide EncodeRecord;
      OneRecord(r, wal.crc);
      AppendRepresents(wal.files, state.wal, wal.crc, [r]);
      hide Represents;
      wal.Append(ToWal(r));
    }

    /** Put and Delete, with the height drawn for a new node. */
    method Write(r: Record, height: nat)
      requires Valid() && Fits(ToWal(r)) && 1 <= height <= S.MAX_LEVEL
      modifies this, wal, memtable, memtable.all
      ensures Valid() && Stepped(old(state), EngineMachine.Write([r]), state)
      ensures fresh(Repr() - old(Repr()))
    {
      hide ReadersAre;
      hide OnDisk;
      hide ManifestIs;
      hide S.AsMap;
      hide S.Upserted;
      hide S.SkipList.Valid;
      hide S.SkipList.Contents;
      hide Stepped;
      hide FrozenAre;
      hide LogIs;
      hide Fits;
      hide LevelsOk;
      OneApplied(state.active, r);
      ghost var next := DoWrite(state, [r]);
      LogOne(r);
      memtable.Put(r.key, r.value, height);
      hide Sized;
      state := next;
    }

    /** BatchPut: one log write, then one record after the other into the memtable. */
    method BatchPut(rs: Records, heights: seq<nat>)
      requires Valid() && AllFit(rs) && |heights| == |rs|
      requires forall i :: 0 <= i < |heights| ==> 1 <= heights[i] <= S.MAX_LEVEL
      modifies this, wal, memtable, memtable.all
      ensures Valid() && Stepped(old(state), EngineMachine.Write(rs), state)
      ensures fresh(Repr() - old(Repr()))
    {
      hide ReadersAre;
      hide OnDisk;
      hide ManifestIs;
      hide S.AsMap;
      hide S.SkipList.Valid;
      hide S.SkipList.Contents;
      hide Stepped;
      hide FrozenAre;
      hide LogIs;
      hide AllFit;
      hide LevelsOk;
      ghost var next := DoWrite(state, rs);
      LogBatch(rs);
      PutBatch(rs, heights);
      hide Sized;
      state := next;
    }

    method PutBatch(rs: Records, heights: seq<nat>)
      requires ListIs(memtable, state.active) && Outside(memtable, frozen) && |heights| == |rs|
      requires forall i :: 0 <= i < |heights| ==> 1 <= heights[i] <= S.MAX_LEVEL
      modifies memtable, memtable.all
      ensures ListIs(memtable, ApplyAll(state.active, rs)) && Outside(memtable, frozen)
      ensures forall q :: 0 <= q < |memtable.all| ==> memtable.all[q] in old(memtable.all) || fresh(memtable.all[q])
    {
      hide S.AsMap;
      hide S.Upserted;
      hide S.SkipList.Valid;
      hide S.SkipList.Contents;
      NothingApplied(state.active);
      assert rs[..0] == [];
      for i := 0 to |rs|
        invariant ListIs(memtable, ApplyAll(state.active, rs[..i])) && Outside(memtable, frozen)
        invariant forall q :: 0 <= q < |memtable.all| ==> memtable.all[q] in old(memtable.all) || fresh(memtable.all[q])
      {
        AppliedSnoc(state.active, rs, i);
        memtable.Put(rs[i].key, rs[i].value, heights[i]);
      }
      assert rs[..|rs|] == rs;
    }

    /** Get: the active memtable, the frozen ones newest first, then the tables through their filters,
        indexes and blocks. */
    method Get(key: Key) returns (r: Option<Bytes>, err: bool)
      requires Serves()
      ensures !err && r == Visible(EngineHit(state, key))
    {
      hide S.AsMap;
      hide S.SkipList.Valid;
      hide S.SkipList.Contents;
      hide LogIs;
      hide OnDisk;
      hide FrozenHit;
      hide LevelIs;
      hide L.Describes;
      var value, found := memtable.Get(key);
      if found {
        return value, false;
      }
      var hit := GetFrozenLists(key);
      if hit.Some? {
        return hit.value, false;
      }
      var table, failed := GetTables(key);
      if failed {
        return None, true;
      }
      return if table.Some? then table.value else None, false;
    }

    method GetTables(key: Key) returns (r: Finding, err: bool)
      requires ReadersAre(levels, state.levels, filters) && ManifestIs(manifest, state.listed) && Sized(state)
      ensures !err && |state.levels| > 0 && r == StoreHit(state.levels, key)
    {
      hide LevelHit;
      hide DeepHit;
      hide LevelIs;
      hide Disjoint;
      hide L.Describes;
      assert LevelOk(state.levels[0]);
      var top, failed := GetL0(levels[0], key, state.levels[0], filters);
      if failed {
        return None, true;
      }
      if top.Some? {
        return top, false;
      }
      r, err := GetDeep(levels, manifest.levels, key, state.levels, filters);
    }

    method GetFrozenLists(key: Key) returns (r: Finding)
      requires FrozenAre(immutables, state.imms, frozen)
      ensures r == FrozenHit(state.imms, key)
    {
      hide S.AsMap;
      hide S.SkipList.Valid;
      hide S.SkipList.Contents;
      hide FrozenHit;
      NoneFrozen(key);
      assert state.imms[0..] == state.imms;
      for i := 0 to |immutables|
        invariant FrozenHit(state.imms, key) == FrozenHit(state.imms[i..], key)
      {
        FrozenHitFrom(state.imms, i, key);
        var value, found := immutables[i].list.Get(key);
        if found {
          return Some(value);
        }
      }
      assert state.imms[|immutables|..] == [];
      return None;
    }

    method PurgeLog(id: nat)
      requires LogIs(wal, state.wal) && id < LastId(state.wal)
      modifies wal
      ensures LogIs(wal, Beyond(state.wal, id))
    {
      PurgeRepresents(wal.files, state.wal, wal.crc, id);
      SameActive(wal.files, state.wal, wal.crc);
      hide Represents;
      hide Beyond;
      wal.PurgeOlderThan(id);
    }

    method ListFile(f: M.FileMetadata, ghost t: Table)
      requires ManifestIs(manifest, state.listed) && |state.listed| > 0
      requires f.level == 0 && L.DescribesTable(f, t) && M.Fits(M.ManifestRecord(M.ADD_FILE, f))
      modifies manifest
      ensures ManifestIs(manifest, AddToL0(state.listed, t)) && manifest.sound == old(manifest.sound)
      ensures |old(manifest.levels)| > 0 && manifest.levels == old(manifest.levels)[0 := old(manifest.levels)[0] + [f]]
    {
      L.DescribesSize(manifest.levels, state.listed);
      L.AddDescribes(manifest.levels, state.listed, f, t);
      hide L.Describes;
      hide M.Fits;
      manifest.AddFile(f);
    }

    /** flushMemtable on the oldest frozen memtable: an empty one is dropped; else its table is written
        to a file and opened, listed in the manifest, read from L0, the memtable removed and its log
        purged. */
    method Flush(blockSize: int, fileSize: nat) returns (ghost table: Option<Table>)
      requires Valid() && |immutables| > 0 && SSTables.Moderate(immutables[|immutables| - 1].list.Contents())
      requires nextFileNum < TWO64 && fileSize < TWO64
      modifies this, wal, manifest
      ensures Valid()
      ensures table.None? ==> Stepped(old(state), FlushEmpty, state)
      ensures table.Some? ==> Flushed(old(state), table.value, state)
      ensures fresh(Repr() - old(Repr())) && manifest.sound == old(manifest.sound)
    {
      hide LogIs;
      hide ListIs;
      hide Stepped;
      hide Flushed;
      hide Serves;
      hide Valid;
      hide With;
      hide SSTables.Moderate;
      hide S.AsMap;
      hide S.InOrder;
      hide NoEmptyValues;
      hide S.SkipList.Valid;
      hide S.SkipList.Contents;
      var n := |immutables| - 1;
      OldestFrozen();
      ghost var was := Repr();
      var items := Collected(immutables[n].list, state.imms[n].mem);
      assert Repr() == was;
      if items == [] {
        NoItems();
        DropOldest();
        table := None;
      } else {
        label Collecting:
        table := FlushItems(items, blockSize, fileSize);
        forall o | o in Repr() && o !in was
          ensures fresh(o)
        {
          assert o in Repr() - old@Collecting(Repr());
          assert fresh@Collecting(o);
        }
      }
    }

    lemma {:induction false} OldestFrozen()
      requires Valid() && |immutables| > 0
      ensures |immutables| == |state.imms|
              && ListIs(immutables[|immutables| - 1].list, state.imms[|state.imms| - 1].mem)
    {
      hide ManifestIs;
      hide LogIs;
      hide ListIs;
      hide Sized;
      hide ReadersAre;
      hide OnDisk;
      hide Outside;
      OldestIs(immutables, state.imms, frozen);
    }

    method FlushItems(items: S.Items, blockSize: int, fileSize: nat) returns (ghost table: Option<Table>)
      requires Valid() && |immutables| > 0 && |state.imms| == |immutables| && nextFileNum < TWO64 && fileSize < TWO64
      requires items != [] && S.InOrder(items) && NoEmptyValues(items) && SSTables.Moderate(items)
      requires S.AsMap(items) == state.imms[|state.imms| - 1].mem
      modifies this, wal, manifest
      ensures Valid() && table.Some? && Flushed(old(state), table.value, state)
      ensures fresh(Repr() - old(Repr())) && manifest.sound == old(manifest.sound)
    {
      hide ManifestIs;
      hide LogIs;
      hide ListIs;
      hide Sized;
      hide Flushed;
      hide ReadersAre;
      hide OnDisk;
      hide MemoryIs;
      hide Holds;
      hide S.AsMap;
      hide S.InOrder;
      hide NoEmptyValues;
      hide SSTables.Moderate;
      hide SSTables.FileFor;
      hide SSTables.ReadsAs;
      hide L.DescribesTable;
      hide M.Fits;
      ghost var m := state.imms[|state.imms| - 1].mem;
      var file, reader, meta, t := BuildTable(items, m, nextFileNum, blockSize, crc, hash, fileSize);
      Install(file, reader, meta, t);
      table := Some(t);
    }

    method DropOldest()
      requires Valid() && |immutables| > 0 && |state.imms| == |immutables| && state.imms[|state.imms| - 1].mem == map[]
      modifies this
      ensures Valid() && Stepped(old(state), FlushEmpty, state) && Repr() == old(Repr())
    {
      hide ReadersAre;
      hide OnDisk;
      hide ManifestIs;
      hide LogIs;
      hide ListIs;
      hide Sized;
      hide Stepped;
      OldestGone(memtable, immutables, frozen, state.active, state.imms);
      hide MemoryIs;
      ghost var next := DoFlushEmpty(state);
      immutables, nextFileNum, state := immutables[..|immutables| - 1], nextFileNum + 1, next;
    }

    /** The machine's four steps, and the new readers and files. */
    lemma {:induction false} Installing(file: Bytes, reader: SSTableReader.Reader, meta: M.FileMetadata, t: Table,
                                        more: Filters)
      requires |state.imms| > 0 && Sized(state) && nextFileNum == state.nextNum
      requires ReadersAre(levels, state.levels, filters) && OnDisk(disk, manifest.levels, state.listed, crc, hash)
      requires t.num == nextFileNum && Holds(t, state.imms[|state.imms| - 1].mem) && L.DescribesTable(meta, t)
      requires SSTables.FileFor(file, SSTables.AsItems(t.entries), crc, hash)
               && SSTables.ReadsAs(reader, SSTables.AsItems(t.entries))
      requires more == filters + {reader.bloom}
      ensures |state.levels| > 0 && |state.listed| > 0 && |levels| > 0 && |manifest.levels| > 0
      ensures Flushed(state, t, AfterFlush(state, t)) && Sized(AfterFlush(state, t))
      ensures ReadersAre(levels[0 := levels[0] + [reader]], AddToL0(state.levels, t), more)
      ensures OnDisk(disk[nextFileNum := file], manifest.levels[0 := manifest.levels[0] + [meta]],
              AddToL0(state.listed, t), crc, hash)
    {
      hide Flushed;
      hide Holds;
      hide L.DescribesTable;
      hide SSTables.FileFor;
      hide SSTables.ReadsAs;
      hide AfterFlush;
      hide LevelsOk;
      hide LevelIs;
      hide LevelOnDisk;
      DoFlush(state, t);
      FlushSized(state, t);
      ListedNums(state);
      assert TableIs(reader, t, more);
      ReadersSnoc(levels, state.levels, reader, t, filters, more);
      DiskWith(disk, manifest.levels, state.listed, crc, hash, file, meta, t, nextFileNum);
    }

    method Install(file: Bytes, reader: SSTableReader.Reader, meta: M.FileMetadata, ghost t: Table)
      requires Valid() && |immutables| > 0 && |state.imms| == |immutables|
      requires t.num == nextFileNum && Holds(t, state.imms[|state.imms| - 1].mem)
      requires SSTables.FileFor(file, SSTables.AsItems(t.entries), crc, hash)
               && SSTables.ReadsAs(reader, SSTables.AsItems(t.entries))
      requires meta.level == 0 && L.DescribesTable(meta, t) && M.Fits(M.ManifestRecord(M.ADD_FILE, meta))
      modifies this, wal, manifest
      ensures Valid() && Flushed(old(state), t, state)
      ensures memtable == old(memtable) && memtable.all == old(memtable.all) && frozen == old(frozen)
      ensures filters == old(filters) + {reader.bloom} && manifest.sound == old(manifest.sound)
    {
      hide ManifestIs;
      hide LogIs;
      hide ListIs;
      hide Sized;
      hide Flushed;
      hide Holds;
      hide L.DescribesTable;
      hide M.Fits;
      hide SSTables.FileFor;
      hide SSTables.ReadsAs;
      hide ReadersAre;
      hide OnDisk;
      hide Beyond;
      hide AddToL0;
      OldestGone(memtable, immutables, frozen, state.active, state.imms);
      hide MemoryIs;
      ghost var more := filters + {reader.bloom};
      Installing(file, reader, meta, t, more);
      AfterFlushIs(state, t);
      hide AfterFlush;
      ListFile(meta, t);
      PurgeLog(immutables[|immutables| - 1].walId);
      Adopt(file, reader, more, AfterFlush(state, t));
    }

    /** The fields after a flush. */
    method Adopt(file: Bytes, reader: SSTableReader.Reader, ghost more: Filters, ghost next: EngineMachine.Engine)
      requires |immutables| > 0 && |levels| > 0 && |next.imms| == |immutables| - 1 && Sized(next)
      requires this !in frozen && wal !in frozen && manifest !in frozen && manifest.crc == crc && wal.crc == crc
      requires MemoryIs(memtable, immutables[..|immutables| - 1], frozen, next.active, next.imms)
      requires ReadersAre(levels[0 := levels[0] + [reader]], next.levels, more) && nextFileNum + 1 == next.nextNum
      requires ManifestIs(manifest, next.listed) && LogIs(wal, next.wal)
      requires OnDisk(disk[nextFileNum := file], manifest.levels, next.listed, crc, hash)
      modifies this
      ensures Valid() && state == next && memtable == old(memtable) && frozen == old(frozen) && filters == more
    {
      hide ManifestIs;
      hide LogIs;
      hide Sized;
      hide ReadersAre;
      hide OnDisk;
      hide MemoryIs;
      immutables, levels, disk, nextFileNum, filters, state :=
        immutables[..|immutables| - 1], levels[0 := levels[0] + [reader]], disk[nextFileNum := file], nextFileNum + 1,
        more, next;
    }

    method RotateLog() returns (oldID: nat)
      requires LogIs(wal, state.wal)
      modifies wal
      ensures LogIs(wal, state.wal + [WalFile(LastId(state.wal) + 1, [])]) && oldID == LastId(state.wal)
    {
      RotateRepresents(wal.files, state.wal, wal.crc);
      SameActive(wal.files, state.wal, wal.crc);
      hide Represents;
      oldID := wal.Rotate();
    }

    /** The freezing part of maybeScheduleFlush: the log is rotated, the memtable joins the frozen ones
        and a new one takes its place. */
    method Rotate()
      requires Valid()
      modifies this, wal
      ensures Valid() && Stepped(old(state), Freeze, state)
      ensures fresh(Repr() - old(Repr()))
    {
      assert wal !in frozen;
      hide Serves;
      hide LogIs;
      hide Stepped;
      hide With;
      ghost var list, kept := memtable, frozen;
      ghost var others: set<object> := {this, wal, manifest} + filters;
      assert {this, wal, manifest} + frozen + filters == others + kept;
      var oldID := RotateLog();
      FreezeList(oldID);
      assert {this, wal, manifest} + frozen + filters == others + With(list, kept);
      forall o | o in Repr() && o !in old(Repr())
        ensures fresh(o)
      {
        WithNext(list, memtable, kept, others, o);
      }
    }

    method FreezeList(oldID: nat)
      requires Serves() && wal.crc == crc && oldID == LastId(state.wal)
      requires LogIs(wal, state.wal + [WalFile(LastId(state.wal) + 1, [])])
      modifies this
      ensures Valid() && Stepped(old(state), Freeze, state)
      ensures fresh(memtable) && fresh(memtable.all) && filters == old(filters) && frozen == old(With(memtable, frozen))
    {
      hide ReadersAre;
      hide OnDisk;
      hide ManifestIs;
      hide S.AsMap;
      hide S.SkipList.Valid;
      hide S.SkipList.Contents;
      hide LogIs;
      hide Sized;
      hide Stepped;
      hide FrozenAre;
      hide Inside;
      hide With;
      NoItems();
      ghost var next := DoFreeze(state);
      ghost var more := With(memtable, frozen);
      WithInside(memtable, frozen);
      OneMoreFrozen(immutables, state.imms, frozen, memtable, state.active, oldID, more);
      var list := new S.SkipList();
      assert Outside(list, more);
      frozen, immutables, memtable, state :=
        more, [FrozenList(memtable, oldID)] + immutables, list, next;
    }
  }

  lemma {:induction false} ListedNums(e: EngineMachine.Engine)
    requires Sized(e)
    ensures forall i, t :: 0 <= i < |e.listed| && t in e.listed[i] ==> t.num < e.nextNum
  {
    hide LevelsOk;
  }

  /** A file under a new number joins the directory. */
  lemma {:induction false} DiskWith(disk: Disk, listing: M.Listing, levels: seq<Level>, crc: Checksum, hash: Bloom.Hash,
                                    file: Bytes, f: M.FileMetadata, t: Table, num: nat)
    requires OnDisk(disk, listing, levels, crc, hash) && |levels| > 0 && t.num == num && L.DescribesTable(f, t)
    requires forall i, u :: 0 <= i < |levels| && u in levels[i] ==> u.num < num
    requires SSTables.FileFor(file, SSTables.AsItems(t.entries), crc, hash)
    ensures OnDisk(disk[num := file], listing[0 := listing[0] + [f]], AddToL0(levels, t), crc, hash)
  {
    hide SSTables.FileFor;
    hide L.DescribesTable;
    var disk', listing', levels' := disk[num := file], listing[0 := listing[0] + [f]], AddToL0(levels, t);
    forall l | 0 <= l < |levels|
      ensures LevelOnDisk(disk', listing'[l], levels'[l], crc, hash)
    {
      assert LevelOnDisk(disk, listing[l], levels[l], crc, hash);
      forall i | 0 <= i < |levels'[l]|
        ensures levels'[l][i].num in disk'
                && SSTables.FileFor(disk'[levels'[l][i].num], SSTables.AsItems(levels'[l][i].entries), crc, hash)
      {
        if l > 0 || i < |levels[l]| {
          assert levels'[l][i] == levels[l][i] && levels[l][i] in levels[l];
        }
      }
    }
  }

  lemma {:induction false} FewerFrozen(fs: seq<FrozenList>, imms: seq<Frozen>, objects: set<object>)
    requires FrozenAre(fs, imms, objects) && |fs| > 0
    ensures FrozenAre(fs[..|fs| - 1], imms[..|imms| - 1], objects)
  {
    hide ListIs;
    hide Inside;
  }

  lemma {:induction false} OldestIs(fs: seq<FrozenList>, imms: seq<Frozen>, objects: set<object>)
    requires FrozenAre(fs, imms, objects) && |fs| > 0
    ensures |fs| == |imms| && ListIs(fs[|fs| - 1].list, imms[|imms| - 1].mem)
            && fs[|fs| - 1].walId == imms[|imms| - 1].walId
  {
    hide ListIs;
    hide Inside;
  }

  lemma {:induction false} AfterFlushIs(e: EngineMachine.Engine, t: Table)
    requires Sized(e) && |e.imms| > 0
    ensures var r := AfterFlush(e, t);
            var n := |e.imms| - 1;
            && e.imms[n].walId < LastId(e.wal) && r.wal == Beyond(e.wal, e.imms[n].walId) && r.active == e.active
            && r.imms == e.imms[..n] && r.levels == AddToL0(e.levels, t) && r.listed == AddToL0(e.listed, t)
            && r.nextNum == e.nextNum + 1 && |e.listed| > 0 && |e.levels| > 0
  {
    hide LevelsOk;
    hide Beyond;
  }

  /** The iteration of flushMemtable over a frozen list. */
  method Collected(list: S.SkipList, ghost m: Mem) returns (items: S.Items)
    requires ListIs(list, m)
    ensures items == old(list.Contents()) && S.InOrder(items) && S.AsMap(items) == m && NoEmptyValues(items)
  {
    ListInOrder(list, m);
    hide S.AsMap;
    hide S.SkipList.Valid;
    hide S.SkipList.Contents;
    hide S.InOrder;
    hide NoEmptyValues;
    items := S.Collect(list);
    ValuesOf(items, m);
  }

  lemma {:induction false} ListInOrder(list: S.SkipList, m: Mem)
    requires ListIs(list, m)
    ensures S.InOrder(list.Contents()) && S.AsMap(list.Contents()) == m
  {
    hide S.AsMap;
    hide S.Linked;
    hide S.SizeOf;
    hide S.AllDistinct;
    S.ItemsInOrder(list.all);
  }

  lemma {:induction false} ValuesOf(items: S.Items, m: Mem)
    requires S.InOrder(items) && S.AsMap(items) == m
    ensures NoEmptyValues(items)
  {
    hide S.AsMap;
    forall i | 0 <= i < |items| && items[i].value.Some?
      ensures |items[i].value.value| > 0
    {
      S.MapOf(items, items[i].key);
      assert m[items[i].key] == items[i].value;
    }
  }

  /** The table of a memtable, written to a file and opened, and its metadata. */
  method BuildTable(items: S.Items, ghost m: Mem, num: nat, blockSize: int, crc: Checksum, hash: Bloom.Hash,
                    fileSize: nat)
    returns (file: Bytes, reader: SSTableReader.Reader, f: M.FileMetadata, ghost t: Table)
    requires items != [] && S.InOrder(items) && S.AsMap(items) == m && NoEmptyValues(items) && SSTables.Moderate(items)
    requires num < TWO64 && fileSize < TWO64
    ensures t.num == num && Holds(t, m)
    ensures SSTables.FileFor(file, SSTables.AsItems(t.entries), crc, hash)
            && SSTables.ReadsAs(reader, SSTables.AsItems(t.entries))
    ensures fresh(reader.bloom)
    ensures f.level == 0 && L.DescribesTable(f, t) && M.Fits(M.ManifestRecord(M.ADD_FILE, f))
  {
    hide SSTables.Moderate;
    hide L.DescribesTable;
    hide M.Fits;
    hide Holds;
    hide S.AsMap;
    hide S.InOrder;
    hide NoEmptyValues;
    hide SSTableReader.Reader.For;
    hide SSTables.FileFor;
    var r: Option<SSTableReader.Reader>;
    file, r := SSTables.WriteTable(items, blockSize, crc, hash);
    reader := r.value;
    t := Table(num, ToEntries(items));
    assert SSTables.AsItems(t.entries) == items;
    f := M.FileMetadata(num, 0, fileSize, reader.minKey.value, reader.maxKey.value);
    Built(items, m, t, f);
  }

  lemma {:induction false} Built(items: S.Items, m: Mem, t: Table, f: M.FileMetadata)
    requires items != [] && S.InOrder(items) && S.AsMap(items) == m && NoEmptyValues(items) && SSTables.Moderate(items)
    requires t == Table(t.num, ToEntries(items)) && t.num < TWO64 && f.size < TWO64
    requires f == M.FileMetadata(t.num, 0, f.size, items[0].key, SSTableFormat.LastKey(items))
    ensures Holds(t, m) && L.DescribesTable(f, t) && M.Fits(M.ManifestRecord(M.ADD_FILE, f))
  {
    hide S.AsMap;
    hide S.InOrder;
    SkipListListsMem(items, m);
    SSTables.EntriesSize(items);
    hide SSTableFormat.EncodeEntries;
  }

  lemma {:induction false} NoneFrozen(key: Key)
    ensures FrozenHit([], key).None?
  {
  }

  lemma {:induction false} SameActive(files: seq<DiskFile>, wal: seq<WalFile>, crc: Checksum)
    requires Represents(files, wal, crc)
    ensures ActiveId(files) == LastId(wal)
  {
  }

  lemma {:induction false} NothingApplied(m: Mem)
    ensures ApplyAll(m, []) == m
  {
  }

  lemma {:induction false} LoggedNothingNew(wal: seq<WalFile>)
    ensures Logged(wal, []) == wal
  {
    if wal != [] {
      var n := |wal| - 1;
      assert wal[n].records + [] == wal[n].records;
    }
  }

  lemma {:induction false} NoItems()
    ensures S.AsMap([]) == map[] && ApplyAll(map[], []) == map[]
  {
  }

  /** The first file number not in use: one more than the highest listed. */
  method NextFileNum(listing: M.Listing, ghost levels: seq<Level>) returns (n: nat)
    ensures L.Describes(listing, levels) ==> n == NumAfterAll(levels)
  {
    hide NumAfterAll;
    var maxNum := 0;
    ghost var at: (nat, nat) := (0, 0);
    for l := 0 to |listing|
      invariant forall m, i :: 0 <= m < l && 0 <= i < |listing[m]| ==> listing[m][i].fileNum <= maxNum
      invariant maxNum > 0 ==> at.0 < |listing| && at.1 < |listing[at.0]| && listing[at.0][at.1].fileNum == maxNum
    {
      for i := 0 to |listing[l]|
        invariant forall m, i' :: 0 <= m < l && 0 <= i' < |listing[m]| ==> listing[m][i'].fileNum <= maxNum
        invariant forall i' :: 0 <= i' < i ==> listing[l][i'].fileNum <= maxNum
        invariant maxNum > 0 ==> at.0 < |listing| && at.1 < |listing[at.0]| && listing[at.0][at.1].fileNum == maxNum
      {
        if listing[l][i].fileNum > maxNum {
          maxNum, at := listing[l][i].fileNum, (l, i);
        }
      }
    }
    n := maxNum + 1;
    if L.Describes(listing, levels) {
      NumsBelow(listing, levels, n);
      NumAfterAllLeast(levels, n);
      NumAfterAllPositive(levels);
      if maxNum > 0 {
        assert L.DescribesLevel(listing[at.0], levels[at.0]);
        assert levels[at.0][at.1] in levels[at.0] && levels[at.0] in levels;
        AboveAll(levels, levels[at.0], levels[at.0][at.1]);
      }
    }
  }

  lemma {:induction false} NumsBelow(listing: M.Listing, levels: seq<Level>, n: nat)
    requires L.Describes(listing, levels) && forall m, i :: 0 <= m < |listing| && 0 <= i < |listing[m]| ==>
               listing[m][i].fileNum < n
    ensures forall l, t :: l in levels && t in l ==> t.num < n
  {
    forall l, t | l in levels && t in l
      ensures t.num < n
    {
      var m :| 0 <= m < |levels| && levels[m] == l;
      var i :| 0 <= i < |l| && l[i] == t;
      assert L.DescribesLevel(listing[m], levels[m]);
      assert listing[m][i].fileNum == t.num;
    }
  }

  lemma {:induction false} AboveAll(levels: seq<Level>, l: Level, t: Table)
    requires l in levels && t in l
    ensures t.num < NumAfterAll(levels)
  {
  }

  lemma {:induction false} NumAfterAllPositive(levels: seq<Level>)
    ensures NumAfterAll(levels) >= 1
  {
    if levels != [] {
      NumAfterAllPositive(levels[1..]);
    }
  }

  lemma {:induction false} NumAfterLeast(ts: Level, from: nat, n: nat)
    requires from <= n && forall t :: t in ts ==> t.num < n
    ensures NumAfter(ts, from) <= n
  {
    if ts != [] {
      NumAfterLeast(ts[1..], from, n);
    }
  }

  lemma {:induction false} NumAfterAllLeast(levels: seq<Level>, n: nat)
    requires n >= 1 && forall l, t :: l in levels && t in l ==> t.num < n
    ensures NumAfterAll(levels) <= n
  {
    if levels != [] {
      assert levels[0] in levels;
      NumAfterAllLeast(levels[1..], n);
      NumAfterLeast(levels[0], NumAfterAll(levels[1..]), n);
    }
  }

  /** What is on disk: log files, manifest file and table files. */
  datatype Directory = Directory(logs: seq<DiskFile>, manifest: Bytes, tables: Disk)

  /** The directory is what a crash leaves of the state `e`: the log's active file may be cut at any byte. */
  ghost predicate Leaves(e: EngineMachine.Engine, d: Directory, crc: Checksum, hash: Bloom.Hash)
  {
    && IdsAscend(d.logs) && TornLog(OpenedFiles(d.logs), e.wal, crc) && LevelsOk(e.listed)
    && var listing := M.AppliedAll(M.NoFiles(|e.listed|), M.Readable(d.manifest, crc));
       L.Describes(listing, e.listed) && OnDisk(d.tables, listing, e.listed, crc, hash)
  }

  /** An engine opened on what a crash left of `e`, of whose active log file n records are whole. It can
      be written to further if the cut was between records. */
  ghost predicate Reopens(r: Engine, e: EngineMachine.Engine, d: Directory, crc: Checksum, hash: Bloom.Hash, n: nat)
    reads r, r.wal, r.manifest, r.memtable, r.memtable.all, r.frozen, r.filters
  {
    && KeepsRecords(OpenedFiles(d.logs), e.wal, crc, n) && r.Serves() && r.state == Reopened(CutAt(e, n), [])
    && (CutCleanly(OpenedFiles(d.logs), e.wal, crc, n) ==> r.Valid())
    && r.wal.files == OpenedFiles(d.logs) && r.manifest.file == d.manifest && r.disk == d.tables
    && r.crc == crc && r.hash == hash
    && (r.manifest.sound <==> d.manifest == M.Data(M.Readable(d.manifest, crc), crc))
  }

  /** Open on any directory: refused exactly if a listed table is missing or does not parse. On what a
      crash left of the state `e` it is the machine's reopening. */
  method Open(d: Directory, maxLevels: nat, crc: Checksum, hash: Bloom.Hash, heights: nat -> nat,
              ghost e: EngineMachine.Engine) returns (r: Option<Engine>, ghost n: nat)
    requires IdsAscend(d.logs) && forall i :: 1 <= heights(i) <= S.MAX_LEVEL
    ensures var listing := M.AppliedAll(M.NoFiles(maxLevels), M.Readable(d.manifest, crc));
            r.Some? <==> forall l, i :: 0 <= l < |listing| && 0 <= i < |listing[l]| ==>
                  Opens(d.tables, listing[l][i], crc)
    ensures r.Some? ==> fresh(r.value) && fresh(r.value.Repr())
    ensures Leaves(e, d, crc, hash) && maxLevels == |e.listed| ==> r.Some? && Reopens(r.value, e, d, crc, hash, n)
  {
    hide M.Readable;
    hide M.AppliedAll;
    hide M.Data;
    hide M.Fits;
    hide TornLog;
    hide KeepsRecords;
    hide CutCleanly;
    hide OnDisk;
    hide L.Describes;
    hide ReadersAre;
    hide Opens;
    hide LevelsOk;
    hide Reopened;
    hide NumAfterAll;
    hide CutAt;
    hide Engine.Serves;
    hide Engine.Valid;
    hide Engine.Repr;
    var manifest := new M.Manifest(d.manifest, maxLevels, crc);
    ghost var listing := M.AppliedAll(M.NoFiles(maxLevels), M.Readable(d.manifest, crc));
    assert manifest.levels == listing;
    var num := NextFileNum(manifest.levels, e.listed);
    var readers, filters := OpenAll(d.tables, manifest.levels, crc, hash, e.listed);
    assert readers.Some? <==> forall l, i :: 0 <= l < |listing| && 0 <= i < |listing[l]| ==>
             Opens(d.tables, listing[l][i], crc);
    if readers.None? {
      return None, 0;
    }
    label TablesOpen:
    var engine, kept := OpenLog(d, manifest, crc, hash, readers.value, num, heights, filters, e);
    forall o | o in engine.Repr()
      ensures fresh(o)
    {
      assert o == manifest || o in filters || fresh@TablesOpen(o);
    }
    r, n := Some(engine), kept;
  }

  /** Readers, manifest and files are those of the listed tables. */
  ghost predicate TablesAre(manifest: M.Manifest, crc: Checksum, hash: Bloom.Hash, disk: Disk,
                            readers: seq<seq<SSTableReader.Reader>>, num: nat, filters: Filters, listed: seq<Level>)
    reads manifest, filters
  {
    && manifest.crc == crc && num == NumAfterAll(listed) && ReadersAre(readers, listed, filters)
    && ManifestIs(manifest, listed) && OnDisk(disk, manifest.levels, listed, crc, hash) && LevelsOk(listed)
  }

  /** The second half of Open: the log, its replay and the engine. */
  method OpenLog(d: Directory, manifest: M.Manifest, crc: Checksum, hash: Bloom.Hash,
                 readers: seq<seq<SSTableReader.Reader>>, num: nat, heights: nat -> nat,
                 ghost filters: Filters, ghost e: EngineMachine.Engine) returns (r: Engine, ghost n: nat)
    requires IdsAscend(d.logs) && forall i :: 1 <= heights(i) <= S.MAX_LEVEL
    ensures fresh(r) && fresh(r.Repr() - {manifest} - filters) && r.manifest == manifest
    ensures r.wal.files == OpenedFiles(d.logs) && r.disk == d.tables && r.crc == crc && r.hash == hash
    ensures TablesAre(manifest, crc, hash, d.tables, readers, num, filters, e.listed)
            && TornLog(OpenedFiles(d.logs), e.wal, crc) ==>
              && KeepsRecords(OpenedFiles(d.logs), e.wal, crc, n) && n <= |LastRecords(e.wal)|
              && r.Serves() && r.state == Reopened(CutAt(e, n), [])
              && (CutCleanly(OpenedFiles(d.logs), e.wal, crc, n) ==> r.Valid())
  {
    hide TornLog;
    hide KeepsRecords;
    hide CutCleanly;
    hide Represents;
    hide OnDisk;
    hide ManifestIs;
    hide ReadersAre;
    hide ListIs;
    hide LevelsOk;
    hide Reopened;
    hide NumAfterAll;
    hide Sized;
    hide CutWal;
    hide CutAt;
    hide Engine.Serves;
    var wal := new Wal(d.logs, crc);
    var list, kept := Recovered(wal, heights, e.wal);
    n := kept;
    ghost var next := e;
    if TornLog(OpenedFiles(d.logs), e.wal, crc) && LevelsOk(e.listed) {
      next := DoReopenTorn(e, d, crc, kept);
    }
    r := Assembled(wal, manifest, crc, hash, d.tables, readers, num, list, filters, next);
  }

  /** The parts of an engine stand for the state. */
  ghost predicate PartsAre(manifest: M.Manifest, crc: Checksum, hash: Bloom.Hash, disk: Disk,
                           readers: seq<seq<SSTableReader.Reader>>, num: nat, list: S.SkipList, filters: Filters,
                           e: EngineMachine.Engine)
    reads manifest, list, list.all, filters
  {
    && manifest.crc == crc && ListIs(list, e.active) && e.imms == [] && Sized(e) && num == e.nextNum
    && ReadersAre(readers, e.levels, filters) && ManifestIs(manifest, e.listed)
    && OnDisk(disk, manifest.levels, e.listed, crc, hash)
  }

  method Assembled(wal: Wal, manifest: M.Manifest, crc: Checksum, hash: Bloom.Hash, disk: Disk,
                   readers: seq<seq<SSTableReader.Reader>>, num: nat, list: S.SkipList,
                   ghost filters: Filters, ghost next: EngineMachine.Engine) returns (r: Engine)
    ensures fresh(r) && r.Repr() == With(list, {r, wal, manifest} + filters)
    ensures r.wal == wal && r.manifest == manifest && r.crc == crc && r.hash == hash && r.disk == disk
            && r.state == next
    ensures PartsAre(manifest, crc, hash, disk, readers, num, list, filters, next) ==> r.Serves()
  {
    hide ListIs;
    hide Sized;
    hide ReadersAre;
    hide ManifestIs;
    hide OnDisk;
    hide With;
    r := new Engine(wal, manifest, crc, hash, disk, readers, num, list, filters, next);
    assert {r, wal, manifest} + {} + filters == {r, wal, manifest} + filters;
  }

  lemma {:induction false} DoReopenTorn(e: EngineMachine.Engine, d: Directory, crc: Checksum, n: nat)
    returns (r: EngineMachine.Engine)
    requires TornLog(OpenedFiles(d.logs), e.wal, crc) && LevelsOk(e.listed) && n <= |LastRecords(e.wal)|
    ensures r == Reopened(CutAt(e, n), []) && Sized(r)
    ensures r.wal == CutWal(e.wal, n) && r.active == ApplyAll(map[], AllRecords(CutWal(e.wal, n))) && r.imms == []
    ensures r.levels == e.listed == r.listed && r.nextNum == NumAfterAll(e.listed)
    ensures CutCleanly(OpenedFiles(d.logs), e.wal, crc, n) ==> Represents(OpenedFiles(d.logs), r.wal, crc)
  {
    hide LevelsOk;
    hide Represents;
    hide NumAfterAll;
    if CutCleanly(OpenedFiles(d.logs), e.wal, crc, n) {
      CleanCut(OpenedFiles(d.logs), e.wal, crc, n);
    }
    r := DoReopen(CutAt(e, n));
  }

  /** The memtable Open builds: of a torn log, from the records that are whole. */
  method Recovered(wal: Wal, heights: nat -> nat, ghost files: seq<WalFile>) returns (list: S.SkipList, ghost n: nat)
    requires wal.Valid() && forall i :: 1 <= heights(i) <= S.MAX_LEVEL
    ensures fresh(list) && forall q :: 0 <= q < |list.all| ==> fresh(list.all[q])
    ensures TornLog(wal.files, files, wal.crc) ==>
              && KeepsRecords(wal.files, files, wal.crc, n) && n <= |LastRecords(files)|
              && ListIs(list, ApplyAll(map[], AllRecords(CutWal(files, n))))
  {
    hide HaveEffects;
    hide ListIs;
    hide KeepsRecords;
    n := 0;
    ghost var rs: Records := [];
    if TornLog(wal.files, files, wal.crc) {
      n := TornEffects(wal.files, files, wal.crc);
      rs := AllRecords(CutWal(files, n));
    }
    hide TornLog;
    var recs := wal.Replay();
    list := ReplayInto(recs, heights, rs);
  }

  /** The replay of Open: every record goes to the new memtable; other types are passed over. */
  method ReplayInto(recs: seq<WalRecord>, heights: nat -> nat, ghost rs: Records) returns (list: S.SkipList)
    requires forall i :: 1 <= heights(i) <= S.MAX_LEVEL
    ensures fresh(list) && forall q :: 0 <= q < |list.all| ==> fresh(list.all[q])
    ensures HaveEffects(recs, rs) ==> ListIs(list, ApplyAll(map[], rs))
  {
    hide S.Upserted;
    hide S.SkipList.Valid;
    hide S.SkipList.Contents;
    hide S.AsMap;
    NoItems();
    list := new S.SkipList();
    ghost var good := HaveEffects(recs, rs);
    for i := 0 to |recs|
      invariant fresh(list) && list.Valid() && forall q :: 0 <= q < |list.all| ==> fresh(list.all[q])
      invariant good ==> S.AsMap(list.Contents()) == ApplyAll(map[], rs[..i])
    {
      if good {
        AppliedSnoc(map[], rs, i);
      }
      if recs[i].typ == PUT {
        list.Put(recs[i].key, recs[i].value, heights(i));
      } else if recs[i].typ == DELETE {
        list.Put(recs[i].key, None, heights(i));
      }
    }
    assert good ==> rs[..|recs|] == rs;
  }
}
