/** Clients of the engine object: any calls, over any number of openings, leave a plain map. */
module EngineClient {
  import opened Prelude
  import opened Keys
  import opened Compaction
  import opened LevelCompaction
  import opened Writes
  import opened ByteCodec
  import opened EngineInvariant
  import opened EngineRefinement
  import opened TornRecovery
  import opened WalFormat
  import opened WalStore
  import opened EngineObject
  import E = EngineMachine
  import S = SkipLists
  import SSTables
  import SSTableFormat
  import TableFiles
  import Bloom
  import M = ManifestLog
  import L = ManifestListing

  // ---------- what a state stands for ----------

  /** The state is one the engine can be in after exactly these writes. */
  ghost predicate StandsFor(s: E.Engine, ws: Records)
  {
    exists h :: Inv(s, h) && ActiveUnlisted(s, h) && h.logged == ws
  }

  lemma {:induction false} StandsInit(s: E.Engine)
    requires E.Init(s)
    ensures StandsFor(s, [])
  {
    hide Inv;
    InitInv(s);
    assert ActiveUnlisted(s, NoTrace);
  }

  lemma {:induction false} StandsStep(s: E.Engine, ws: Records, step: E.Step, s': E.Engine)
    requires StandsFor(s, ws) && Stepped(s, step, s') && E.Benign(s, step)
    ensures StandsFor(s', ws + E.Adds(step))
  {
    hide Inv;
    hide ActiveUnlisted;
    hide E.Enabled;
    hide E.Do;
    hide E.Benign;
    var h :| Inv(s, h) && ActiveUnlisted(s, h) && h.logged == ws;
    StepInv(s, h, step);
    StepUnlisted(s, h, step);
    var h' := After(s, h, step);
    assert Inv(s', h') && ActiveUnlisted(s', h');
  }

  lemma {:induction false} StandsFlush(s: E.Engine, ws: Records, t: Table, s': E.Engine)
    requires StandsFor(s, ws) && Flushed(s, t, s')
    ensures StandsFor(s', ws)
  {
    hide StandsFor;
    hide Stepped;
    var s1, s2, s3 :|
      Stepped(s, E.FlushList(t), s1) && Stepped(s1, E.FlushAppend, s2)
      && Stepped(s2, E.FlushRemove, s3) && Stepped(s3, E.FlushPurge, s');
    StandsStep(s, ws, E.FlushList(t), s1);
    assert ws + [] == ws;
    StandsStep(s1, ws, E.FlushAppend, s2);
    StandsStep(s2, ws, E.FlushRemove, s3);
    StandsStep(s3, ws, E.FlushPurge, s');
  }

  /** Reopening with n records of the active file left. */
  lemma {:induction false} StandsTorn(s: E.Engine, ws: Records, n: nat)
    requires StandsFor(s, ws) && n <= |LastRecords(s.wal)|
    ensures |LastRecords(s.wal)| - n <= |ws|
    ensures StandsFor(E.Reopened(CutAt(s, n), []), ws[..|ws| - (|LastRecords(s.wal)| - n)])
  {
    hide Inv;
    hide E.NumAfterAll;
    hide ApplyAll;
    var h :| Inv(s, h) && ActiveUnlisted(s, h) && h.logged == ws;
    TornInv(s, h, n);
    LevelsExist(s, h);
    var s', h' := E.Reopened(CutAt(s, n), []), TornTrace(s, h, n);
    assert |LastRecords(s'.wal)| == n;
    assert ActiveUnlisted(s', h');
  }

  function Lookup(m: Store, k: Key): (r: Option<Bytes>)
  {
    if k in m then Some(m[k]) else None
  }

  lemma {:induction false} StandsRead(s: E.Engine, ws: Records, k: Key)
    requires StandsFor(s, ws)
    ensures |s.levels| > 0 && Visible(E.EngineHit(s, k)) == Lookup(Outcome(map[], ws), k)
  {
    hide Inv;
    hide E.EngineHit;
    hide Outcome;
    var h :| Inv(s, h) && ActiveUnlisted(s, h) && h.logged == ws;
    LevelsExist(s, h);
    ReadsLast(s, h, k);
    OutcomeIsLast(map[], ws, k);
  }

  // ---------- calls ----------

  /** What a client or the background loops may call. */
  datatype Call =
    | Write(record: Record, height: nat)
    | Batch(records: Records, heights: seq<nat>)
    | Rotate
    | Flush(blockSize: int, fileSize: nat)

  ghost predicate CallOk(c: Call)
  {
    match c
    case Write(r, height) => Fits(ToWal(r)) && 1 <= height <= S.MAX_LEVEL
    case Batch(rs, heights) =>
      AllFit(rs) && |heights| == |rs| && forall i :: 0 <= i < |heights| ==> 1 <= heights[i] <= S.MAX_LEVEL
    case Rotate => true
    case Flush(_, fileSize) => fileSize < TWO64
  }

  ghost predicate CallsOk(calls: seq<Call>)
  {
    forall i :: 0 <= i < |calls| ==> CallOk(calls[i])
  }

  function WrittenBy(c: Call): (r: Records)
  {
    match c
    case Write(r, _) => [r]
    case Batch(rs, _) => rs
    case _ => []
  }

  function Written(calls: seq<Call>): (r: Records)
  {
    if calls == [] then [] else Written(calls[..|calls| - 1]) + WrittenBy(calls[|calls| - 1])
  }

  const ONE_GIB: int := 0x4000_0000

  /** The size a skip list keeps is more than its entries take on disk. */
  lemma {:induction false} SizeBounds(items: S.Items, heights: seq<nat>)
    requires |items| == |heights|
    ensures |SSTableFormat.EncodeEntries(items)| <= S.SizeOf(items, heights)
  {
    if items != [] {
      var n := |items| - 1;
      SizeBounds(items[..n], heights[..n]);
    }
  }

  lemma {:induction false} SmallList(list: S.SkipList)
    requires list.Valid() && list.size < ONE_GIB
    ensures SSTables.Moderate(list.Contents())
  {
    hide S.Linked;
    hide S.KeysInOrder;
    hide S.AllDistinct;
    SizeBounds(S.ItemsOf(list.all[1..]), S.Heights(list.all[1..]));
  }

  /** One call. A flush with nothing frozen, of a memtable of a gibibyte or without file numbers left
      does nothing. */
  method Serve(e: Engine, c: Call, ghost ws: Records)
    requires e.Valid() && StandsFor(e.state, ws) && CallOk(c)
    modifies e.Repr()
    ensures e.Valid() && StandsFor(e.state, ws + WrittenBy(c)) && fresh(e.Repr() - old(e.Repr()))
    ensures e.manifest.sound == old(e.manifest.sound) && |e.state.listed| == old(|e.state.listed|)
  {
    hide StandsFor;
    hide Engine.Valid;
    hide Engine.Serves;
    hide AllFit;
    hide Fits;
    hide Stepped;
    hide Flushed;
    ghost var was := e.state;
    assert ws + [] == ws;
    match c
    case Write(r, height) =>
      e.Write(r, height);
      StandsStep(was, ws, E.Write([r]), e.state);
      SameListing(was, E.Write([r]), e.state);
    case Batch(rs, heights) =>
      e.BatchPut(rs, heights);
      StandsStep(was, ws, E.Write(rs), e.state);
      SameListing(was, E.Write(rs), e.state);
    case Rotate =>
      e.Rotate();
      StandsStep(was, ws, E.Freeze, e.state);
      SameListing(was, E.Freeze, e.state);
    case Flush(blockSize, fileSize) =>
      ServeFlush(e, blockSize, fileSize, ws);
  }

  lemma {:induction false} SameListing(s: E.Engine, step: E.Step, s': E.Engine)
    requires Stepped(s, step, s') && (step.Write? || step.Freeze? || step.FlushEmpty?)
    ensures s'.listed == s.listed
  {
  }

  lemma {:induction false} FlushListing(s: E.Engine, t: Table, s': E.Engine)
    requires Flushed(s, t, s')
    ensures |s'.listed| == |s.listed|
  {
  }

  method ServeFlush(e: Engine, blockSize: int, fileSize: nat, ghost ws: Records)
    requires e.Valid() && StandsFor(e.state, ws) && fileSize < TWO64
    modifies e, e.wal, e.manifest
    ensures e.Valid() && StandsFor(e.state, ws) && fresh(e.Repr() - old(e.Repr()))
    ensures e.manifest.sound == old(e.manifest.sound) && |e.state.listed| == old(|e.state.listed|)
  {
    hide StandsFor;
    hide Engine.Serves;
    hide Stepped;
    hide Flushed;
    hide LogIs;
    if |e.immutables| == 0 || e.nextFileNum >= TWO64 {
      return;
    }
    ghost var was := e.state;
    assert ws + [] == ws;
    var oldest := e.immutables[|e.immutables| - 1].list;
    e.OldestFrozen();
    if oldest.size >= ONE_GIB {
      return;
    }
    SmallList(oldest);
    hide SSTables.Moderate;
    hide S.SkipList.Valid;
    var table := e.Flush(blockSize, fileSize);
    if table.None? {
      StandsStep(was, ws, E.FlushEmpty, e.state);
      SameListing(was, E.FlushEmpty, e.state);
    } else {
      StandsFlush(was, ws, table.value, e.state);
      FlushListing(was, table.value, e.state);
    }
  }

  /** Any calls, one after the other. */
  method ServeAll(e: Engine, calls: seq<Call>, ghost ws: Records)
    requires e.Valid() && StandsFor(e.state, ws) && CallsOk(calls)
    modifies e.Repr()
    ensures e.Valid() && StandsFor(e.state, ws + Written(calls)) && fresh(e.Repr() - old(e.Repr()))
    ensures e.manifest.sound == old(e.manifest.sound) && |e.state.listed| == old(|e.state.listed|)
  {
    hide StandsFor;
    hide Engine.Valid;
    hide CallOk;
    assert ws + [] == ws;
    for i := 0 to |calls|
      invariant e.Valid() && StandsFor(e.state, ws + Written(calls[..i])) && fresh(e.Repr() - old(e.Repr()))
      invariant e.manifest.sound == old(e.manifest.sound) && |e.state.listed| == old(|e.state.listed|)
    {
      assert calls[..i + 1][..i] == calls[..i];
      assert ws + Written(calls[..i + 1]) == ws + Written(calls[..i]) + WrittenBy(calls[i]);
      Serve(e, calls[i], ws + Written(calls[..i]));
    }
    assert calls[..|calls|] == calls;
  }

  // ---------- openings ----------

  /** The options every opening is made with, and the heights its replay draws. */
  datatype Options = Options(maxLevels: nat, crc: Checksum, hash: Bloom.Hash, heights: nat -> nat)

  ghost predicate OptionsOk(o: Options)
  {
    o.maxLevels >= 2 && forall i :: 1 <= o.heights(i) <= S.MAX_LEVEL
  }

  /** An engine ready for more calls, standing for the writes. */
  ghost predicate Ready(e: Engine, o: Options, ws: Records)
    reads e, e.wal, e.manifest, e.memtable, e.memtable.all, e.frozen, e.filters
  {
    && e.Valid() && e.manifest.sound && e.crc == o.crc && e.hash == o.hash
    && |e.state.listed| == o.maxLevels && StandsFor(e.state, ws)
  }

  ghost function NewState(maxLevels: nat): (r: E.Engine)
  {
    var none: seq<Level> := seq(maxLevels, i => []);
    E.Engine([E.WalFile(1, [])], map[], [], none, none, 1, E.Resting, E.NoJob)
  }

  lemma {:induction false} NewLeaves(o: Options)
    requires OptionsOk(o)
    ensures E.Init(NewState(o.maxLevels)) && Leaves(NewState(o.maxLevels), Directory([], [], map[]), o.crc, o.hash)
    ensures M.Readable([], o.crc) == [] && M.Data([], o.crc) == []
  {
    var s := NewState(o.maxLevels);
    M.NothingReadable(o.crc);
    var files := OpenedFiles([]);
    assert files[..0] == [] && s.wal[..0] == [];
    assert E.Init(s);
  }

  lemma {:induction false} AllKept(files: seq<DiskFile>, s: E.Engine, crc: Checksum, n: nat)
    requires |files| > 0 && Represents(files, s.wal, crc) && KeepsRecords(files, s.wal, crc, n)
    ensures n == |LastRecords(s.wal)| && CutCleanly(files, s.wal, crc, n) && CutAt(s, n) == s
  {
    hide Represents;
    hide KeepsRecords;
    hide CutCleanly;
    UncutLog(files, s.wal, crc);
    NothingCut(s);
  }

  lemma {:induction false} NewLog(s: E.Engine, crc: Checksum)
    requires s.wal == [E.WalFile(1, [])]
    ensures Represents(OpenedFiles([]), s.wal, crc)
  {
    NoData(crc);
    assert ToWals([]) == [];
  }

  /** The first opening, on an empty directory. */
  method OpenNew(o: Options) returns (e: Engine)
    requires OptionsOk(o)
    ensures Ready(e, o, []) && fresh(e) && fresh(e.Repr())
  {
    hide StandsFor;
    hide Leaves;
    hide Represents;
    hide KeepsRecords;
    hide CutCleanly;
    hide Engine.Valid;
    hide Engine.Serves;
    hide Engine.Repr;
    hide M.Readable;
    ghost var s := NewState(o.maxLevels);
    NewLeaves(o);
    var r, n := Open(Directory([], [], map[]), o.maxLevels, o.crc, o.hash, o.heights, s);
    e := r.value;
    NewLog(s, o.crc);
    AllKept(OpenedFiles([]), s, o.crc, n);
    StandsInit(s);
    StandsTorn(s, [], n);
    ghost var none: Records := [];
    assert none[..0] == none;
  }

  /** The bytes an engine has on disk. */
  function OnDiskOf(e: Engine): (d: Directory)
    reads e, e.wal, e.manifest
  {
    Directory(e.wal.files, e.manifest.file, e.disk)
  }

  lemma {:induction false} ReadyLog(e: Engine, o: Options, ws: Records)
    requires Ready(e, o, ws)
    ensures |e.wal.files| > 0 && IdsAscend(e.wal.files) && Represents(e.wal.files, e.state.wal, o.crc)
    ensures OpenedFiles(e.wal.files) == e.wal.files
  {
    hide StandsFor;
    hide Engine.Serves;
    hide Represents;
  }

  lemma {:induction false} SoundFile(e: Engine, o: Options, ws: Records)
    requires Ready(e, o, ws)
    ensures e.manifest.file == M.Data(M.Readable(e.manifest.file, o.crc), o.crc)
  {
    hide StandsFor;
    hide M.Data;
    hide M.Readable;
    hide M.Fits;
    hide L.Describes;
    hide TableFiles.OnDisk;
    hide TableFiles.ReadersAre;
    hide MemoryIs;
    hide LogIs;
    hide Sized;
    M.AllReadable(e.manifest.calls, e.manifest.crc);
  }

  /** A crash between calls, and the next opening. */
  method Restart(e: Engine, o: Options, ghost ws: Records) returns (r: Engine)
    requires OptionsOk(o) && Ready(e, o, ws)
    ensures Ready(r, o, ws) && fresh(r) && fresh(r.Repr())
  {
    hide StandsFor;
    hide Leaves;
    hide Represents;
    hide KeepsRecords;
    hide CutCleanly;
    hide Engine.Valid;
    hide Engine.Serves;
    hide Engine.Repr;
    hide M.Readable;
    hide M.Data;
    hide CutAt;
    ghost var s, d := e.state, OnDiskOf(e);
    ReadyLog(e, o, ws);
    SoundFile(e, o, ws);
    e.Durable();
    var again, n := Open(OnDiskOf(e), o.maxLevels, o.crc, o.hash, o.heights, s);
    r := again.value;
    AllKept(d.logs, s, o.crc, n);
    StandsTorn(s, ws, n);
    assert ws[..|ws|] == ws;
    ReopenedListing(s);
  }

  lemma {:induction false} ReopenedListing(s: E.Engine)
    ensures E.Reopened(s, []).listed == s.listed
  {
  }

  function AllWritten(lives: seq<seq<Call>>): (r: Records)
  {
    if lives == [] then [] else AllWritten(lives[..|lives| - 1]) + Written(lives[|lives| - 1])
  }

  /** An engine opened on an empty directory, and again and again after crashes between calls, with any
      calls in each life: at the end Get answers as the plain map that has seen all writes. */
  method Lives(lives: seq<seq<Call>>, o: Options, key: Key) returns (r: Option<Bytes>, err: bool)
    requires OptionsOk(o) && forall i :: 0 <= i < |lives| ==> CallsOk(lives[i])
    ensures !err && r == Lookup(Outcome(map[], AllWritten(lives)), key)
  {
    hide StandsFor;
    hide Engine.Valid;
    hide Engine.Serves;
    hide Engine.Repr;
    hide Written;
    hide CallsOk;
    hide OptionsOk;
    hide Outcome;
    var e := OpenNew(o);
    for i := 0 to |lives|
      invariant Ready(e, o, AllWritten(lives[..i])) && fresh(e) && fresh(e.Repr())
    {
      assert lives[..i + 1][..i] == lives[..i];
      ServeAll(e, lives[i], AllWritten(lives[..i]));
      e := Restart(e, o, AllWritten(lives[..i + 1]));
    }
    assert lives[..|lives|] == lives;
    r, err := Answer(e, o, AllWritten(lives), key);
  }

  method Answer(e: Engine, o: Options, ghost ws: Records, key: Key) returns (r: Option<Bytes>, err: bool)
    requires Ready(e, o, ws)
    ensures !err && r == Lookup(Outcome(map[], ws), key)
  {
    hide StandsFor;
    hide Engine.Serves;
    hide LogIs;
    hide Outcome;
    hide E.EngineHit;
    StandsRead(e.state, ws, key);
    r, err := e.Get(key);
  }

  /** The directory with its active log file cut at a byte. */
  function CutDirectory(d: Directory, cut: nat): (r: Directory)
    requires |d.logs| > 0 && cut <= |d.logs[|d.logs| - 1].data|
    ensures |r.logs| == |d.logs|
  {
    var last := d.logs[|d.logs| - 1];
    d.(logs := d.logs[|d.logs| - 1 := DiskFile(last.id, last.data[..cut])])
  }

  lemma {:induction false} CutLeaves(s: E.Engine, d: Directory, crc: Checksum, hash: Bloom.Hash, cut: nat)
    requires |d.logs| > 0 && Leaves(s, d, crc, hash) && cut <= |d.logs[|d.logs| - 1].data|
    ensures Leaves(s, CutDirectory(d, cut), crc, hash)
  {
    hide Represents;
    hide FileData;
    hide AllFit;
    hide M.Readable;
    hide M.AppliedAll;
    hide L.Describes;
    hide TableFiles.OnDisk;
    hide LevelsOk;
    var d', last := CutDirectory(d, cut), |d.logs| - 1;
    assert d'.logs[..last] == d.logs[..last];
  }

  /** A crash that tears the active log file at any byte: the engine opened then answers as the plain
      map that has seen all writes but a last part, exactly those not whole in that file. */
  method TornRestart(e: Engine, o: Options, cut: nat, key: Key, ghost ws: Records)
    returns (r: Option<Bytes>, err: bool, ghost n: nat)
    requires OptionsOk(o) && Ready(e, o, ws) && |e.wal.files| > 0 && cut <= |e.wal.files[|e.wal.files| - 1].data|
    ensures KeepsRecords(CutDirectory(OnDiskOf(e), cut).logs, e.state.wal, o.crc, n)
    ensures n <= |LastRecords(e.state.wal)| && |LastRecords(e.state.wal)| - n <= |ws|
    ensures !err && r == Lookup(Outcome(map[], ws[..|ws| - (|LastRecords(e.state.wal)| - n)]), key)
  {
    hide StandsFor;
    hide Leaves;
    hide Represents;
    hide KeepsRecords;
    hide CutCleanly;
    hide Engine.Valid;
    hide Engine.Serves;
    hide Engine.Repr;
    hide M.Readable;
    hide M.Data;
    hide CutAt;
    hide Outcome;
    hide E.EngineHit;
    hide E.Reopened;
    ReadyLog(e, o, ws);
    e.Durable();
    CutLeaves(e.state, OnDiskOf(e), o.crc, o.hash, cut);
    var d := CutDirectory(OnDiskOf(e), cut);
    assert IdsAscend(d.logs);
    var again, kept := Open(d, o.maxLevels, o.crc, o.hash, o.heights, e.state);
    n := kept;
    KeptWithin(d.logs, e.state.wal, o.crc, n);
    StandsTorn(e.state, ws, n);
    ghost var left := ws[..|ws| - (|LastRecords(e.state.wal)| - n)];
    StandsRead(again.value.state, left, key);
    r, err := again.value.Get(key);
  }

  lemma {:induction false} KeptWithin(files: seq<DiskFile>, wal: seq<E.WalFile>, crc: Checksum, n: nat)
    requires |files| > 0 && KeepsRecords(files, wal, crc, n)
    ensures n <= |LastRecords(wal)|
  {
  }
}
