/** The log as an object over its files: appending, rotating, purging and replaying bytes, and that
    this is what the engine's machine takes the log to be. */
module WalStore {
  import opened Prelude
  import opened Writes
  import opened ByteCodec
  import opened EngineMachine
  import opened EngineInvariant
  import opened TornRecovery
  import opened WalFormat

  datatype DiskFile = DiskFile(id: nat, data: Bytes)

  function ActiveId(files: seq<DiskFile>): (r: nat)
  {
    if files == [] then 0 else files[|files| - 1].id
  }

  ghost predicate IdsAscend(files: seq<DiskFile>)
  {
    forall i, j :: 0 <= i < j < |files| ==> files[i].id < files[j].id
  }

  function Extended(files: seq<DiskFile>, more: Bytes): (r: seq<DiskFile>)
    requires |files| > 0
  {
    var n := |files| - 1;
    files[n := DiskFile(files[n].id, files[n].data + more)]
  }

  /** The files with a number beyond the given one, in order. */
  function Kept(files: seq<DiskFile>, id: nat): (r: seq<DiskFile>)
  {
    if files == [] then []
    else
      var n := |files| - 1;
      Kept(files[..n], id) + if files[n].id > id then [files[n]] else []
  }

  function ReplayedAll(files: seq<DiskFile>, crc: Checksum): (r: seq<WalRecord>)
  {
    if files == [] then []
    else ReplayedAll(files[..|files| - 1], crc) + Replayed(files[|files| - 1].data, crc)
  }

  /** replayFile. */
  method ReplayFile(data: Bytes, crc: Checksum) returns (recs: seq<WalRecord>)
    ensures recs == Replayed(data, crc)
  {
    hide DecodePayload;
    hide FromU32;
    recs := [];
    var pos := 0;
    assert data[0..] == data;
    while true
      invariant 0 <= pos <= |data| && recs + Replayed(data[pos..], crc) == Replayed(data, crc)
      decreases |data| - pos
    {
      ghost var rest := data[pos..];
      if pos + 8 > |data| {
        break;
      }
      var storedCRC := FromU32(data[pos..pos + 4]);
      var dataLen := FromU32(data[pos + 4..pos + 8]);
      assert rest[..4] == data[pos..pos + 4] && rest[4..8] == data[pos + 4..pos + 8];
      if pos + 8 + dataLen > |data| {
        break;
      }
      var payload := data[pos + 8..pos + 8 + dataLen];
      assert rest[8..8 + dataLen] == payload && rest[8 + dataLen..] == data[pos + 8 + dataLen..];
      if crc(payload) != storedCRC {
        break;
      }
      var rec := DecodePayload(payload);
      if rec.None? {
        break;
      }
      recs, pos := recs + [rec.value], pos + 8 + dataLen;
    }
  }

  class Wal {
    const crc: Checksum
    var files: seq<DiskFile>     // the directory, sorted by number
    var fileID: nat
    var size: nat

    ghost predicate Valid()
      reads this
    {
      |files| > 0 && IdsAscend(files) && fileID == ActiveId(files) && size == |files[|files| - 1].data|
    }

    /** Open on the files found, or with a first one. */
    constructor (found: seq<DiskFile>, crc: Checksum)
      requires IdsAscend(found)
      ensures Valid() && this.crc == crc && files == OpenedFiles(found)
    {
      this.crc := crc;
      var fs := OpenedFiles(found);
      files := fs;
      fileID := fs[|fs| - 1].id;
      size := |fs[|fs| - 1].data|;
    }

    method Append(rec: WalRecord)
      requires Valid()
      modifies `files, `size
      ensures Valid() && files == Extended(old(files), EncodeRecord(rec, crc))
    {
      hide EncodeRecord;
      var data := EncodeRecord(rec, crc);
      files, size := Extended(files, data), size + |data|;
    }

    /** One flush for all records. */
    method AppendBatch(recs: seq<WalRecord>)
      requires Valid()
      modifies `files, `size
      ensures Valid() && files == Extended(old(files), Data(recs, crc))
    {
      hide EncodeRecord;
      var buf: Bytes := [];
      NoData(crc);
      for i := 0 to |recs|
        invariant Valid() && files == old(files) && buf == Data(recs[..i], crc)
      {
        var data := EncodeRecord(recs[i], crc);
        OneMoreRecord(recs, i, crc);
        buf := buf + data;
      }
      assert recs[..|recs|] == recs;
      files, size := Extended(files, buf), size + |buf|;
    }

    /** Returns the number of the file that was active. */
    method Rotate() returns (oldID: nat)
      requires Valid()
      modifies this
      ensures Valid() && oldID == old(fileID) == ActiveId(old(files))
      ensures files == old(files) + [DiskFile(oldID + 1, [])]
    {
      oldID := fileID;
      fileID := fileID + 1;
      files, size := files + [DiskFile(fileID, [])], 0;
    }

    /** Deletes the files up to a number. The engine passes numbers that have been rotated away; else
        the active file would be deleted too. */
    method PurgeOlderThan(id: nat)
      requires Valid()
      modifies `files
      ensures files == Kept(old(files), id) && (id < fileID ==> Valid())
    {
      var kept: seq<DiskFile> := [];
      for i := 0 to |files|
        invariant files == old(files) && kept == Kept(files[..i], id)
      {
        assert files[..i + 1][..i] == files[..i];
        if files[i].id > id {
          kept := kept + [files[i]];
        }
      }
      assert files[..|files|] == files;
      if id < fileID {
        KeptShape(files, id);
      }
      files := kept;
    }

    /** All records of all files, in order of their numbers. */
    method Replay() returns (recs: seq<WalRecord>)
      ensures recs == ReplayedAll(files, crc)
    {
      recs := [];
      for i := 0 to |files|
        invariant recs == ReplayedAll(files[..i], crc)
      {
        assert files[..i + 1][..i] == files[..i];
        var part := ReplayFile(files[i].data, crc);
        recs := recs + part;
      }
      assert files[..|files|] == files;
    }
  }

  lemma {:induction false} NoData(crc: Checksum)
    ensures Data([], crc) == []
  {
  }

  lemma {:induction false} OneMoreRecord(recs: seq<WalRecord>, i: nat, crc: Checksum)
    requires i < |recs|
    ensures Data(recs[..i + 1], crc) == Data(recs[..i], crc) + EncodeRecord(recs[i], crc)
  {
    hide EncodeRecord;
    assert recs[..i + 1] == recs[..i] + [recs[i]];
    DataAppend(recs[..i], [recs[i]], crc);
    assert [recs[i]][1..] == [];
    NoData(crc);
  }

  lemma {:induction false} KeptShape(files: seq<DiskFile>, id: nat)
    requires IdsAscend(files) && |files| > 0 && id < ActiveId(files)
    ensures IdsAscend(Kept(files, id)) && |Kept(files, id)| > 0
    ensures Kept(files, id)[|Kept(files, id)| - 1] == files[|files| - 1]
  {
    KeptMembers(files, id);
  }

  lemma {:induction false} KeptMembers(files: seq<DiskFile>, id: nat)
    requires IdsAscend(files)
    ensures IdsAscend(Kept(files, id)) && forall f :: f in Kept(files, id) ==> f in files
  {
    if files != [] {
      var n := |files| - 1;
      KeptMembers(files[..n], id);
      forall f | f in Kept(files[..n], id)
        ensures f.id < files[n].id
      {
        var i :| 0 <= i < n && files[..n][i] == f;
      }
    }
  }

  // ---------- the machine's log ----------

  /** The files hold the bytes of the machine's log files. */
  ghost predicate Represents(files: seq<DiskFile>, wal: seq<WalFile>, crc: Checksum)
  {
    && |files| == |wal|
    && forall i :: 0 <= i < |files| ==>
         files[i].id == wal[i].id && files[i].data == FileData(wal[i].records, crc) && AllFit(wal[i].records)
  }

  lemma {:induction false} FileDataAppend(a: Records, b: Records, crc: Checksum)
    ensures FileData(a + b, crc) == FileData(a, crc) + FileData(b, crc)
  {
    assert ToWals(a + b) == ToWals(a) + ToWals(b);
    DataAppend(ToWals(a), ToWals(b), crc);
  }

  /** AppendBatch is the machine's write to the log. */
  lemma {:induction false} AppendRepresents(files: seq<DiskFile>, wal: seq<WalFile>, crc: Checksum, rs: Records)
    requires |files| > 0 && Represents(files, wal, crc) && AllFit(rs)
    ensures Represents(Extended(files, FileData(rs, crc)), Logged(wal, rs), crc)
  {
    hide Fits;
    hide FileData;
    FileDataAppend(wal[|wal| - 1].records, rs, crc);
  }

  /** Rotate is the machine's new file. */
  lemma {:induction false} RotateRepresents(files: seq<DiskFile>, wal: seq<WalFile>, crc: Checksum)
    requires |files| > 0 && Represents(files, wal, crc)
    ensures Represents(files + [DiskFile(ActiveId(files) + 1, [])], wal + [WalFile(LastId(wal) + 1, [])], crc)
  {
    hide Fits;
    NoData(crc);
    assert ToWals([]) == [];
  }

  /** PurgeOlderThan is the machine's purge. */
  lemma {:induction false} PurgeRepresents(files: seq<DiskFile>, wal: seq<WalFile>, crc: Checksum, id: nat)
    requires Represents(files, wal, crc)
    ensures Represents(Kept(files, id), Beyond(wal, id), crc)
  {
    hide Fits;
    hide FileData;
    hide Kept;
    hide Beyond;
    KeptSnoc(files, id);
    if files == [] {
      NoneBeyond(id);
    } else {
      var n := |files| - 1;
      PurgeRepresents(files[..n], wal[..n], crc, id);
      assert wal == wal[..n] + [wal[n]];
      BeyondAppend(wal[..n], [wal[n]], id);
      BeyondOne(wal[n], id);
      hide Represents;
      RepresentsAt(files, wal, crc, n);
      if wal[n].id > id {
        RepresentsMore(Kept(files[..n], id), Beyond(wal[..n], id), crc, files[n], wal[n]);
      } else {
        assert Beyond(wal[..n], id) + [] == Beyond(wal[..n], id);
      }
    }
  }

  lemma {:induction false} KeptSnoc(files: seq<DiskFile>, id: nat)
    ensures files == [] ==> Kept(files, id) == []
    ensures files != [] ==>
              var n := |files| - 1;
              Kept(files, id) == if files[n].id > id then Kept(files[..n], id) + [files[n]] else Kept(files[..n], id)
  {
  }

  lemma {:induction false} NoneBeyond(id: nat)
    ensures Beyond([], id) == []
  {
  }

  lemma {:induction false} RepresentsAt(files: seq<DiskFile>, wal: seq<WalFile>, crc: Checksum, i: nat)
    requires Represents(files, wal, crc) && i < |files|
    ensures i < |wal| && files[i].id == wal[i].id && files[i].data == FileData(wal[i].records, crc)
            && AllFit(wal[i].records)
  {
    hide Fits;
    hide FileData;
  }

  lemma {:induction false} RepresentsMore(files: seq<DiskFile>, wal: seq<WalFile>, crc: Checksum, f: DiskFile,
                                          g: WalFile)
    requires Represents(files, wal, crc)
    requires f.id == g.id && f.data == FileData(g.records, crc) && AllFit(g.records)
    ensures Represents(files + [f], wal + [g], crc)
  {
    hide Fits;
    hide FileData;
  }

  lemma {:induction false} BeyondOne(f: WalFile, id: nat)
    ensures Beyond([f], id) == if f.id > id then [f] else []
  {
    assert [f][1..] == [];
    assert Beyond([], id) == [];
  }

  lemma {:induction false} EffectsAppend(a: seq<WalRecord>, ra: Records, b: seq<WalRecord>, rb: Records)
    requires HaveEffects(a, ra) && HaveEffects(b, rb)
    ensures HaveEffects(a + b, ra + rb)
  {
  }

  /** Replay of an uncut log delivers the writes of all files, in order. */
  lemma {:induction false} ReplayRepresents(files: seq<DiskFile>, wal: seq<WalFile>, crc: Checksum)
    requires Represents(files, wal, crc)
    ensures HaveEffects(ReplayedAll(files, crc), AllRecords(wal))
  {
    hide Replayed;
    hide FileData;
    hide Fits;
    if files != [] {
      var n := |files| - 1;
      ReplayRepresents(files[..n], wal[..n], crc);
      EngineReplayAll(wal[n].records, crc);
      EffectsAppend(ReplayedAll(files[..n], crc), AllRecords(wal[..n]), Replayed(files[n].data, crc), wal[n].records);
      assert wal == wal[..n] + [wal[n]];
      AllRecordsAppend(wal[..n], [wal[n]]);
      OneFile(wal[n]);
    }
  }

  /** A crash that tears the last file at any byte loses only what was not yet whole. */
  lemma {:induction false} TornReplay(files: seq<DiskFile>, wal: seq<WalFile>, crc: Checksum, c: nat) returns (n: nat)
    requires |files| > 0 && Represents(files, wal, crc) && c <= |files[|files| - 1].data|
    ensures var last := |files| - 1;
            && n <= |wal[last].records| && |FileData(wal[last].records[..n], crc)| <= c
            && (n < |wal[last].records| ==> c < |FileData(wal[last].records[..n + 1], crc)|)
            && HaveEffects(ReplayedAll(files[last := DiskFile(files[last].id, files[last].data[..c])], crc),
                           AllRecords(wal[..last]) + wal[last].records[..n])
  {
    hide Replayed;
    hide FileData;
    hide Fits;
    hide HaveEffects;
    var last := |files| - 1;
    n := EngineReplay(wal[last].records, crc, c);
    ReplayRepresents(files[..last], wal[..last], crc);
    var torn := files[last := DiskFile(files[last].id, files[last].data[..c])];
    assert torn[..last] == files[..last];
    EffectsAppend(ReplayedAll(files[..last], crc), AllRecords(wal[..last]),
                  Replayed(files[last].data[..c], crc), wal[last].records[..n]);
  }

  // ---------- a torn active file ----------

  /** The files Open works with: a first one if there were none. */
  function OpenedFiles(found: seq<DiskFile>): (r: seq<DiskFile>)
    ensures |r| > 0
  {
    if found == [] then [DiskFile(1, [])] else found
  }

  /** The files hold the bytes of the machine's log files, the active one cut at any byte. */
  ghost predicate TornLog(files: seq<DiskFile>, wal: seq<WalFile>, crc: Checksum)
    requires |files| > 0
  {
    var last := |files| - 1;
    && |files| == |wal| && Represents(files[..last], wal[..last], crc)
    && files[last].id == wal[last].id && AllFit(wal[last].records)
    && files[last].data <= FileData(wal[last].records, crc)
  }

  /** Of the records of the active file, the first n are there whole, and no more. */
  ghost predicate KeepsRecords(files: seq<DiskFile>, wal: seq<WalFile>, crc: Checksum, n: nat)
    requires |files| > 0
  {
    var rs, size := LastRecords(wal), |files[|files| - 1].data|;
    && n <= |rs| && |FileData(rs[..n], crc)| <= size && (n < |rs| ==> size < |FileData(rs[..n + 1], crc)|)
  }

  /** The cut is between two records. */
  ghost predicate CutCleanly(files: seq<DiskFile>, wal: seq<WalFile>, crc: Checksum, n: nat)
    requires |files| > 0
  {
    n <= |LastRecords(wal)| && |files[|files| - 1].data| == |FileData(LastRecords(wal)[..n], crc)|
  }

  lemma {:induction false} TornEffects(files: seq<DiskFile>, wal: seq<WalFile>, crc: Checksum) returns (n: nat)
    requires |files| > 0 && TornLog(files, wal, crc)
    ensures KeepsRecords(files, wal, crc, n) && n <= |LastRecords(wal)|
    ensures HaveEffects(ReplayedAll(files, crc), AllRecords(CutWal(wal, n)))
  {
    hide FileData;
    hide AllFit;
    hide HaveEffects;
    hide ReplayedAll;
    hide AllRecords;
    var last := |files| - 1;
    var whole := DiskFile(files[last].id, FileData(wal[last].records, crc));
    var full := files[last := whole];
    RepresentsMore(files[..last], wal[..last], crc, whole, wal[last]);
    assert full == files[..last] + [whole] && wal == wal[..last] + [wal[last]];
    hide Represents;
    n := TornReplay(full, wal, crc, |files[last].data|);
    assert whole.data[..|files[last].data|] == files[last].data;
    assert full[last := DiskFile(whole.id, files[last].data)] == files;
    LastWithin(CutWal(wal, n));
    assert CutWal(wal, n)[..last] == wal[..last];
  }

  lemma {:induction false} FileDataPrefix(rs: Records, n: nat, crc: Checksum)
    requires n <= |rs|
    ensures FileData(rs[..n], crc) <= FileData(rs, crc)
  {
    hide FileData;
    assert rs == rs[..n] + rs[n..];
    FileDataAppend(rs[..n], rs[n..], crc);
  }

  /** A log cut between two records is the log of the records kept. */
  lemma {:induction false} CleanCut(files: seq<DiskFile>, wal: seq<WalFile>, crc: Checksum, n: nat)
    requires |files| > 0 && TornLog(files, wal, crc) && n <= |LastRecords(wal)| && CutCleanly(files, wal, crc, n)
    ensures Represents(files, CutWal(wal, n), crc)
  {
    hide FileData;
    hide Fits;
    var last := |files| - 1;
    var cut := CutWal(wal, n);
    FileDataPrefix(wal[last].records, n, crc);
    assert files[last].data == FileData(cut[last].records, crc);
    assert cut[..last] == wal[..last];
    assert AllFit(cut[last].records);
    RepresentsMore(files[..last], cut[..last], crc, files[last], cut[last]);
    hide Represents;
    assert files == files[..last] + [files[last]] && cut == cut[..last] + [cut[last]];
  }

  /** An uncut log keeps all its records. */
  lemma {:induction false} UncutLog(files: seq<DiskFile>, wal: seq<WalFile>, crc: Checksum)
    requires |files| > 0 && Represents(files, wal, crc)
    ensures TornLog(files, wal, crc) && CutCleanly(files, wal, crc, |LastRecords(wal)|)
    ensures forall n :: KeepsRecords(files, wal, crc, n) ==> n == |LastRecords(wal)|
  {
    hide FileData;
    hide Fits;
    var last := |files| - 1;
    var rs := LastRecords(wal);
    assert rs[..|rs|] == rs;
    forall n: nat | KeepsRecords(files, wal, crc, n)
      ensures n == |rs|
    {
      if n < |rs| {
        FileDataPrefix(rs, n + 1, crc);
      }
    }
  }
}
