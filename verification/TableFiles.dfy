/** The tables as their open readers and as files on disk: what a lookup through filter, index and
    blocks finds is what the machine's tables say. */
module TableFiles {
  import opened Prelude
  import opened Keys
  import opened Tables
  import opened Compaction
  import opened ByteCodec
  import opened TableSearch
  import opened SSTableReader
  import opened SSTables
  import SSTableFormat
  import Bloom
  import S = SkipLists
  import M = ManifestLog
  import L = ManifestListing

  type Filters = set<Bloom.BloomFilter>

  // ---------- what the readers stand for ----------

  ghost predicate TableIs(r: Reader, t: Table, filters: Filters)
    reads filters
  {
    r.bloom in filters && ReadsAs(r, AsItems(t.entries))
  }

  ghost predicate LevelIs(rs: seq<Reader>, ts: Level, filters: Filters)
    reads filters
  {
    |rs| == |ts| && forall i :: 0 <= i < |rs| ==> TableIs(rs[i], ts[i], filters)
  }

  ghost predicate ReadersAre(ls: seq<seq<Reader>>, levels: seq<Level>, filters: Filters)
    reads filters
  {
    |ls| == |levels| && forall i :: 0 <= i < |ls| ==> LevelIs(ls[i], levels[i], filters)
  }

  lemma {:induction false} LevelMore(rs: seq<Reader>, ts: Level, filters: Filters, more: Filters)
    requires LevelIs(rs, ts, filters) && filters <= more
    ensures LevelIs(rs, ts, more)
  {
    hide ReadsAs;
    forall i | 0 <= i < |rs|
      ensures TableIs(rs[i], ts[i], more)
    {
      assert TableIs(rs[i], ts[i], filters);
    }
  }

  lemma {:induction false} LevelSnoc(rs: seq<Reader>, ts: Level, r: Reader, t: Table, filters: Filters, more: Filters)
    requires LevelIs(rs, ts, filters) && filters <= more && TableIs(r, t, more)
    ensures LevelIs(rs + [r], ts + [t], more)
  {
    hide TableIs;
    LevelMore(rs, ts, filters, more);
  }

  /** A new table's reader at the end of L0. */
  lemma {:induction false} ReadersSnoc(ls: seq<seq<Reader>>, levels: seq<Level>, r: Reader, t: Table, filters: Filters,
                                       more: Filters)
    requires ReadersAre(ls, levels, filters) && filters <= more && TableIs(r, t, more) && |ls| > 0
    ensures ReadersAre(ls[0 := ls[0] + [r]], levels[0 := levels[0] + [t]], more)
  {
    hide LevelIs;
    hide TableIs;
    LevelSnoc(ls[0], levels[0], r, t, filters, more);
    forall i | 0 < i < |ls|
      ensures LevelIs(ls[i], levels[i], more)
    {
      LevelMore(ls[i], levels[i], filters, more);
    }
  }

  // ---------- lookups ----------

  lemma {:induction false} NewestFrom(ts: Level, i: nat, k: Key)
    requires i < |ts|
    ensures LevelHit(Reversed(ts[..i + 1]), k) == Over(Hit(ts[i].entries, k), LevelHit(Reversed(ts[..i]), k))
  {
    var a := Runs(Reversed(ts[..i + 1]));
    assert a[0] == ts[i].entries;
    assert a[1..] == Runs(Reversed(ts[..i]));
  }

  lemma {:induction false} NoTablesReversed(k: Key)
    ensures LevelHit(Reversed([]), k).None?
  {
    assert Runs(Reversed([])) == [];
  }

  lemma {:induction false} DeeperFrom(ls: seq<Level>, l: nat, k: Key)
    requires l < |ls|
    ensures DeepHit(ls[l..], k) == Over(LevelHit(ls[l], k), DeepHit(ls[l + 1..], k))
  {
    assert ls[l..][1..] == ls[l + 1..];
  }

  /** One file: its filter, then its Get. */
  method Ask(r: Reader, key: Key, ghost t: Table, ghost filters: Filters) returns (f: Finding, err: bool)
    requires TableIs(r, t, filters) && TableOk(t)
    ensures !err && f == Hit(t.entries, key)
  {
    hide ReadsAs;
    hide S.AsMap;
    hide Hit;
    hide Sorted;
    TableHit(t.entries, key);
    var may := MayContain(r, key, AsItems(t.entries));
    if !may {
      return None, false;
    }
    var value, found, failed := Lookup(r, key, AsItems(t.entries));
    if failed || !found {
      return None, failed;
    }
    assert value == Hit(t.entries, key).value;
    return Some(value), false;
  }

  /** L0, the last file first. */
  method GetL0(rs: seq<Reader>, key: Key, ghost ts: Level, ghost filters: Filters) returns (r: Finding, err: bool)
    requires LevelIs(rs, ts, filters) && TablesOk(ts)
    ensures !err && r == LevelHit(Reversed(ts), key)
  {
    hide LevelHit;
    hide Reversed;
    hide TableIs;
    var i: nat := |rs|;
    assert ts[..i] == ts;
    while i > 0
      invariant i <= |rs| && LevelHit(Reversed(ts), key) == LevelHit(Reversed(ts[..i]), key)
    {
      i := i - 1;
      NewestFrom(ts, i, key);
      assert ts[i] in ts;
      var found, failed := Ask(rs[i], key, ts[i], filters);
      if failed {
        return None, true;
      }
      if found.Some? {
        return found, false;
      }
    }
    assert ts[..0] == [];
    NoTablesReversed(key);
    return None, false;
  }

  function EndsOfAll(rs: seq<Reader>): (r: seq<Ends>)
    ensures |r| == |rs| && forall i :: 0 <= i < |rs| ==> r[i] == Ends(rs[i].minKey, rs[i].maxKey)
  {
    seq(|rs|, i requires 0 <= i < |rs| => Ends(rs[i].minKey, rs[i].maxKey))
  }

  function MetasFrom(fs: seq<M.FileMetadata>): (r: seq<Meta>)
    ensures |r| == |fs| && forall i :: 0 <= i < |fs| ==> r[i] == Meta(fs[i].fileNum, fs[i].minKey, fs[i].maxKey)
  {
    seq(|fs|, i requires 0 <= i < |fs| => Meta(fs[i].fileNum, fs[i].minKey, fs[i].maxKey))
  }

  lemma {:induction false} EndsFit(rs: seq<Reader>, ts: Level, filters: Filters)
    requires LevelIs(rs, ts, filters) && TablesOk(ts)
    ensures EndsAre(EndsOfAll(rs), ts)
  {
    forall i | 0 <= i < |rs|
      ensures rs[i].minKey == Some(MinKey(ts[i])) && rs[i].maxKey == Some(MaxKey(ts[i]))
    {
      assert TableIs(rs[i], ts[i], filters);
      assert TableOk(ts[i]);
    }
  }

  /** One level below L0: the file found by the manifest's key ranges. */
  method GetLevel(rs: seq<Reader>, fs: seq<M.FileMetadata>, key: Key, ghost ts: Level, ghost filters: Filters)
    returns (r: Finding, err: bool)
    requires LevelIs(rs, ts, filters) && L.DescribesLevel(fs, ts) && TablesOk(ts) && Disjoint(ts)
    ensures !err && r == LevelHit(ts, key)
  {
    hide LevelHit;
    hide Disjoint;
    hide TableIs;
    hide Rank;
    EndsFit(rs, ts, filters);
    assert MetasFrom(fs) == MetasOf(ts);
    var i := FindTableForKey(EndsOfAll(rs), MetasFrom(fs), key, ts);
    CandidateDecides(ts, i, key);
    if i.None? {
      return None, false;
    }
    assert ts[i.value] in ts;
    r, err := Ask(rs[i.value], key, ts[i.value], filters);
  }

  /** L1 and below: at most one file a level. */
  method GetDeep(ls: seq<seq<Reader>>, listing: M.Listing, key: Key, ghost levels: seq<Level>, ghost filters: Filters)
    returns (r: Finding, err: bool)
    requires ReadersAre(ls, levels, filters) && L.Describes(listing, levels) && LevelsOk(levels)
    ensures !err && r == DeepHit(levels[1..], key)
  {
    hide LevelHit;
    hide DeepHit;
    hide Disjoint;
    hide LevelIs;
    hide TablesOk;
    hide L.DescribesLevel;
    for l := 1 to |ls|
      invariant DeepHit(levels[1..], key) == DeepHit(levels[l..], key)
    {
      DeeperFrom(levels, l, key);
      assert LevelOk(levels[l]);
      var found, failed := GetLevel(ls[l], listing[l], key, levels[l], filters);
      if failed {
        return None, true;
      }
      if found.Some? {
        return found, false;
      }
    }
    assert levels[|ls|..] == [];
    NothingBelow(key);
    return None, false;
  }

  lemma {:induction false} NothingBelow(key: Key)
    ensures DeepHit([], key).None?
  {
  }

  // ---------- the directory ----------

  type Disk = map<nat, Bytes>

  /** The file of every listed table is there. */
  ghost predicate LevelOnDisk(disk: Disk, fs: seq<M.FileMetadata>, ts: Level, crc: Checksum, hash: Bloom.Hash)
  {
    L.DescribesLevel(fs, ts) &&
    forall i :: 0 <= i < |ts| ==> ts[i].num in disk && FileFor(disk[ts[i].num], AsItems(ts[i].entries), crc, hash)
  }

  ghost predicate OnDisk(disk: Disk, listing: M.Listing, levels: seq<Level>, crc: Checksum, hash: Bloom.Hash)
  {
    |listing| == |levels| && forall i :: 0 <= i < |levels| ==> LevelOnDisk(disk, listing[i], levels[i], crc, hash)
  }

  /** The file of the metadata can be opened. */
  predicate Opens(disk: Disk, f: M.FileMetadata, crc: Checksum)
  {
    f.fileNum in disk && SSTableFormat.Open(disk[f.fileNum], crc).Some?
  }

  /** Opening the files of one level: refused if one is missing or does not parse; else, if they are
      those of the tables, readers of the tables. */
  method OpenLevel(disk: Disk, fs: seq<M.FileMetadata>, crc: Checksum, hash: Bloom.Hash, ghost ts: Level)
    returns (r: Option<seq<Reader>>, ghost filters: Filters)
    ensures r.Some? <==> forall i :: 0 <= i < |fs| ==> Opens(disk, fs[i], crc)
    ensures LevelOnDisk(disk, fs, ts, crc, hash) ==> r.Some? && LevelIs(r.value, ts, filters)
    ensures fresh(filters)
  {
    hide FileFor;
    hide ReadsAs;
    hide SSTableFormat.Open;
    filters := {};
    var rs: seq<Reader> := [];
    ghost var good := LevelOnDisk(disk, fs, ts, crc, hash);
    for i := 0 to |fs|
      invariant fresh(filters) && (forall j :: 0 <= j < i ==> Opens(disk, fs[j], crc))
      invariant good ==> LevelIs(rs, ts[..i], filters)
    {
      if fs[i].fileNum !in disk {
        return None, filters;
      }
      var o := OpenTable(disk[fs[i].fileNum], crc, hash, if good then AsItems(ts[i].entries) else []);
      if o.None? {
        return None, filters;
      }
      ghost var more := filters + {o.value.bloom};
      if good {
        assert TableIs(o.value, ts[i], more);
        LevelSnoc(rs, ts[..i], o.value, ts[i], filters, more);
        assert ts[..i + 1] == ts[..i] + [ts[i]];
      }
      rs, filters := rs + [o.value], more;
    }
    assert good ==> ts[..|fs|] == ts;
    r := Some(rs);
  }

  /** Opening all files the manifest lists. */
  method OpenAll(disk: Disk, listing: M.Listing, crc: Checksum, hash: Bloom.Hash, ghost levels: seq<Level>)
    returns (r: Option<seq<seq<Reader>>>, ghost filters: Filters)
    ensures r.Some? <==> forall l, i :: 0 <= l < |listing| && 0 <= i < |listing[l]| ==> Opens(disk, listing[l][i], crc)
    ensures OnDisk(disk, listing, levels, crc, hash) ==> r.Some? && ReadersAre(r.value, levels, filters)
    ensures fresh(filters)
  {
    hide LevelIs;
    hide LevelOnDisk;
    hide Opens;
    filters := {};
    var ls: seq<seq<Reader>> := [];
    ghost var good := OnDisk(disk, listing, levels, crc, hash);
    for l := 0 to |listing|
      invariant fresh(filters) && |ls| == l
      invariant forall m, i :: 0 <= m < l && 0 <= i < |listing[m]| ==> Opens(disk, listing[m][i], crc)
      invariant good ==> ReadersAre(ls, levels[..l], filters)
    {
      var o, fs := OpenLevel(disk, listing[l], crc, hash, if good then levels[l] else []);
      if o.None? {
        return None, filters;
      }
      ghost var more := filters + fs;
      if good {
        LevelMore(o.value, levels[l], fs, more);
        ReadersMore(ls, levels[..l], filters, more);
        assert levels[..l + 1] == levels[..l] + [levels[l]];
      }
      ls, filters := ls + [o.value], more;
    }
    assert good ==> levels[..|listing|] == levels;
    r := Some(ls);
  }

  lemma {:induction false} ReadersMore(ls: seq<seq<Reader>>, levels: seq<Level>, filters: Filters, more: Filters)
    requires ReadersAre(ls, levels, filters) && filters <= more
    ensures ReadersAre(ls, levels, more)
  {
    hide LevelIs;
    forall i | 0 <= i < |ls|
      ensures LevelIs(ls[i], levels[i], more)
    {
      LevelMore(ls[i], levels[i], filters, more);
    }
  }
}
