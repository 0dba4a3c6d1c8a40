/** A crash in the middle of a compaction's install. The manifest is written call by call, removals
    first, so a cut leaves some of the inputs and some of the outputs listed. */
module TornInstalls {
  import opened Prelude
  import opened Keys
  import opened Tables
  import opened Compaction
  import opened LevelCompaction
  import opened Writes
  import opened EngineMachine
  import opened EngineInvariant
  import opened EngineRefinement
  import opened ManifestListing
  import opened ByteCodec
  import W = SnapshotWindow
  import M = ManifestLog

  // ---------- how far the install got ----------

  /** How many of `size` calls, that follow `before` others, are among the first j. */
  function Reached(j: nat, before: nat, size: nat): (r: nat)
    ensures r <= size
  {
    if j <= before then 0 else Min(j - before, size)
  }

  /** The levels after the first j calls of an install that takes the first n files of level l and
      those of the next level that meet [lo, hi]. */
  function Torn(ls: seq<Level>, l: nat, n: nat, lo: Key, hi: Key, outs: Level, j: nat): (r: seq<Level>)
    requires l + 1 < |ls| && n <= |ls[l]|
    ensures |r| == |ls|
  {
    var sel := Overlapping(ls[l + 1], lo, hi);
    var a, b, c := Reached(j, 0, n), Reached(j, n, |sel|), Reached(j, n + |sel|, |outs|);
    ls[l := Without(ls[l], Nums(ls[l][..a]))][l + 1 := Without(ls[l + 1], Nums(sel[..b])) + outs[..c]]
  }

  function NumList(ts: Level): (r: seq<nat>)
    ensures |r| == |ts| && forall i :: 0 <= i < |ts| ==> r[i] == ts[i].num
  {
    seq(|ts|, i requires 0 <= i < |ts| => ts[i].num)
  }

  /** The calls of the whole install. */
  function Calls(ls: seq<Level>, l: nat, n: nat, lo: Key, hi: Key,
                 metas: seq<M.FileMetadata>): (r: seq<M.ManifestRecord>)
    requires l + 1 < |ls| && n <= |ls[l]|
  {
    InstallCalls(NumList(ls[l][..n]), l, NumList(Overlapping(ls[l + 1], lo, hi)), metas)
  }

  lemma {:induction false} ListedNums(ts: Level, i: nat)
    requires i <= |ts|
    ensures AsSet(NumList(ts)[..i]) == Nums(ts[..i])
  {
    var s := NumList(ts)[..i];
    forall x | x in Nums(ts[..i])
      ensures x in s
    {
      var t :| t in ts[..i] && t.num == x;
      var p :| 0 <= p < i && ts[..i][p] == t;
      assert s[p] == x;
    }
    forall x | x in s
      ensures x in Nums(ts[..i])
    {
      var p :| 0 <= p < i && s[p] == x;
      assert ts[..i][p] in ts[..i];
    }
  }

  /** After any number of the calls, the lists describe the torn levels. */
  lemma {:induction false} TornDescribes(ls: M.Listing, levels: seq<Level>, l: nat, n: nat, lo: Key, hi: Key,
                                         metas: seq<M.FileMetadata>, outs: Level, j: nat)
    requires Describes(ls, levels) && l + 1 < |levels| && n <= |levels[l]| && DistinctNums(levels[l])
             && DistinctNums(levels[l + 1])
    requires DescribesLevel(metas, outs) && forall i :: 0 <= i < |metas| ==> metas[i].level == l + 1
    requires j <= |Calls(levels, l, n, lo, hi, metas)|
    ensures Describes(M.AppliedAll(ls, Calls(levels, l, n, lo, hi, metas)[..j]), Torn(levels, l, n, lo, hi, outs, j))
  {
    hide Describes;
    hide DistinctNums;
    hide Without;
    hide AsSet;
    hide M.AppliedAll;
    hide Overlapping;
    hide DescribesTable;
    DescribesSize(ls, levels);
    var sel := Overlapping(levels[l + 1], lo, hi);
    var src, dst := NumList(levels[l][..n]), NumList(sel);
    var a, b, c := Reached(j, 0, n), Reached(j, n, |sel|), Reached(j, n + |sel|, |outs|);
    InstallDescribes(ls, levels, l, src[..a], dst[..b], metas[..c], outs[..c]);
    CallsCut(src, l, dst, metas, j);
    ListedNums(levels[l][..n], a);
    ListedNums(sel, b);
    assert levels[l][..n][..a] == levels[l][..a];
  }

  lemma {:induction false} CallsCut(src: seq<nat>, l: nat, dst: seq<nat>, metas: seq<M.FileMetadata>, j: nat)
    requires j <= |src| + |dst| + |metas|
    ensures |InstallCalls(src, l, dst, metas)| == |src| + |dst| + |metas|
    ensures InstallCalls(src, l, dst, metas)[..j] ==
            InstallCalls(src[..Reached(j, 0, |src|)], l, dst[..Reached(j, |src|, |dst|)],
                metas[..Reached(j, |src| + |dst|, |metas|)])
  {
    var x, y, z := Removals(src, l), Removals(dst, l + 1), Additions(metas);
    var a, b, c := Reached(j, 0, |src|), Reached(j, |src|, |dst|), Reached(j, |src| + |dst|, |metas|);
    assert Removals(src[..a], l) == x[..a];
    assert Removals(dst[..b], l + 1) == y[..b];
    assert Additions(metas[..c]) == z[..c];
    assert (x + y + z)[..j] == x[..a] + y[..b] + z[..c];
  }

  /** A manifest file cut at any byte of the install reads as the torn levels for some j. */
  lemma {:induction false} CutInstall(calls: seq<M.ManifestRecord>, levels: seq<Level>, l: nat, n: nat, lo: Key,
                                      hi: Key,
                                      metas: seq<M.FileMetadata>, outs: Level, crc: Checksum, cut: nat) returns (j: nat)
    requires Describes(M.AppliedAll(M.NoFiles(|levels|), calls), levels)
    requires l + 1 < |levels| && n <= |levels[l]| && DistinctNums(levels[l]) && DistinctNums(levels[l + 1])
    requires DescribesLevel(metas, outs) && forall i :: 0 <= i < |metas| ==> metas[i].level == l + 1
    requires var all := calls + Calls(levels, l, n, lo, hi, metas);
             (forall i :: 0 <= i < |all| ==> M.Fits(all[i])) && |M.Data(calls, crc)| <= cut <= |M.Data(all, crc)|
    ensures j <= |Calls(levels, l, n, lo, hi, metas)|
    ensures var data := M.Data(calls + Calls(levels, l, n, lo, hi, metas), crc);
            Describes(M.AppliedAll(M.NoFiles(|levels|), M.Readable(data[..cut], crc)),
                Torn(levels, l, n, lo, hi, outs, j))
  {
    hide Describes;
    hide DescribesLevel;
    hide DistinctNums;
    hide M.Fits;
    hide M.AppliedAll;
    hide M.Readable;
    hide Torn;
    hide Calls;
    var more := Calls(levels, l, n, lo, hi, metas);
    var all := calls + more;
    var whole := M.Whole(all, crc, cut);
    M.CutReads(all, crc, cut);
    WholeCalls(calls, more, crc, cut);
    j := whole - |calls|;
    assert all[..whole] == calls + more[..j];
    AppliedTwo(M.NoFiles(|levels|), calls, more[..j]);
    TornDescribes(M.AppliedAll(M.NoFiles(|levels|), calls), levels, l, n, lo, hi, metas, outs, j);
  }

  lemma {:induction false} WholeCalls(a: seq<M.ManifestRecord>, b: seq<M.ManifestRecord>, crc: Checksum, cut: nat)
    requires |M.Data(a, crc)| <= cut
    ensures M.Whole(a + b, crc, cut) >= |a|
  {
    if a != [] {
      assert (a + b)[1..] == a[1..] + b;
      WholeCalls(a[1..], b, crc, cut - |M.Encoded(a[0], crc)|);
    }
  }

  // ---------- what is read then ----------

  /** What the levels above l say, and level l itself. */
  ghost function Above(ls: seq<Level>, l: nat, k: Key): (r: Finding)
    requires l < |ls|
  {
    if l == 0 then None else Over(LevelHit(Reversed(ls[0]), k), DeepHit(ls[1..l], k))
  }

  ghost function SaidAt(ts: Level, l: nat, k: Key): (r: Finding)
  {
    if l == 0 then LevelHit(Reversed(ts), k) else LevelHit(ts, k)
  }

  lemma {:induction false} AroundLevel(ls: seq<Level>, l: nat, k: Key)
    requires l + 1 < |ls|
    ensures StoreHit(ls, k) ==
            Over(Above(ls, l, k), Over(SaidAt(ls[l], l, k), Over(LevelHit(ls[l + 1], k), DeepHit(ls[l + 2..], k))))
  {
    hide LevelHit;
    if l > 0 {
      DeepHitAround(ls, l, k);
    } else {
      assert ls[1..][0] == ls[1] && ls[1..][1..] == ls[2..];
    }
  }

  /** Which reads the first j calls leave as they were. A key is safe if a table above or a source
      still listed speaks for it. Otherwise, if a listed output has it, the merge must have preferred
      right; if none has it, no table taken off the lists may have had it, unless it agrees with what
      is found further down. */
  ghost predicate ReadKept(ls: seq<Level>, l: nat, n: nat, lo: Key, hi: Key, outs: Level, j: nat, k: Key)
    requires l + 1 < |ls| && n <= |ls[l]|
  {
    var sel := Overlapping(ls[l + 1], lo, hi);
    var a, b, c := Reached(j, 0, n), Reached(j, n, |sel|), Reached(j, n + |sel|, |outs|);
    var targets := LevelHit(Without(ls[l + 1], Nums(sel[..b])), k);
    var rest := Over(targets, DeepHit(ls[l + 2..], k));
    var gone := Over(LevelHit(Reversed(ls[l][..a]), k), if targets.Some? then None else LevelHit(sel[..b], k));
    || Above(ls, l, k).Some?
    || SaidAt(Without(ls[l], Nums(ls[l][..a])), l, k).Some?
    || if LevelHit(outs[..c], k).Some? then LevelHit(ls[l][..n], k) == LevelHit(Reversed(ls[l][..n]), k)
       else gone.None? || gone == rest
  }

  /** compactL0 takes files from the front of L0, compactLevel one file. */
  ghost predicate Compactable(ls: seq<Level>, l: nat, n: nat, lo: Key, hi: Key, outs: Level)
  {
    && L0Ok(ls) && l + 1 < |ls| && n <= |ls[l]| && (l == 0 || n == 1)
    && MergesDown(ls[l][..n], ls[l + 1], lo, hi, outs)
  }

  lemma {:induction false} SourcesGone(ls: seq<Level>, l: nat, n: nat, a: nat, k: Key)
    requires L0Ok(ls) && l < |ls| && a <= n <= |ls[l]| && (l == 0 || n == 1)
    ensures SaidAt(ls[l], l, k) ==
            Over(SaidAt(Without(ls[l], Nums(ls[l][..a])), l, k), LevelHit(Reversed(ls[l][..a]), k))
  {
    hide LevelHit;
    hide Without;
    hide LevelOk;
    hide Disjoint;
    if l == 0 {
      NewerRemain(ls[0], a);
      NewestFirst(ls[0], a, k);
    } else if a == 0 {
      assert ls[l][..0] == [] && Nums([]) == {};
      NoneGone(ls[l]);
      assert Reversed<Table>([]) == [];
      assert LevelHit([], k).None? by { LevelMiss([], k); }
    } else {
      var src := ls[l][0];
      assert ls[l][..1] == [src] && Reversed([src]) == [src];
      assert Nums([src]) == {src.num} by { assert src in [src]; }
      TakenOut(ls[l], src, k);
    }
  }

  /** A level without overlaps, divided: the part that has the key decides. */
  lemma {:induction false} DividedHit(ts: Level, kept: Level, gone: Level, k: Key)
    requires TablesOk(ts) && Disjoint(ts)
    requires (forall t :: t in ts ==> t in kept || t in gone) && (forall t :: t in kept || t in gone ==> t in ts)
    ensures LevelHit(ts, k) == Over(LevelHit(kept, k), LevelHit(gone, k))
  {
    hide LevelHit;
    hide TableOk;
    hide Apart;
    LevelMiss(ts, k);
    LevelMiss(kept, k);
    LevelMiss(gone, k);
    if LevelHit(kept, k).Some? {
      var t := LevelHitSome(kept, k);
      LevelHitMember(ts, t, k);
    } else if LevelHit(gone, k).Some? {
      var t := LevelHitSome(gone, k);
      LevelHitMember(ts, t, k);
    }
  }

  lemma {:induction false} TargetsGone(ts: Level, lo: Key, hi: Key, b: nat, k: Key)
    requires LevelOk(ts) && Disjoint(ts) && b <= |Overlapping(ts, lo, hi)|
    ensures var sel := Overlapping(ts, lo, hi);
            LevelHit(ts, k) == Over(LevelHit(Without(ts, Nums(sel[..b])), k), LevelHit(sel[..b], k))
  {
    hide LevelHit;
    hide Overlaps;
    hide Apart;
    hide TableOk;
    var sel := Overlapping(ts, lo, hi);
    var gone := sel[..b];
    forall t | t in gone
      ensures t in ts
    {
      assert t in sel;
    }
    forall t | t in ts
      ensures t in Without(ts, Nums(gone)) || t in gone
    {
      if t.num in Nums(gone) {
        var u :| u in gone && u.num == t.num;
        assert u in ts;
      }
    }
    DividedHit(ts, Without(ts, Nums(gone)), gone, k);
  }

  /** A listed output that has the key says what the merge said, and no file left below has the key. */
  lemma {:induction false} OutputListed(srcs: Level, ts: Level, lo: Key, hi: Key, outs: Level, c: nat, k: Key)
    requires LevelOk(ts) && Disjoint(ts) && MergesDown(srcs, ts, lo, hi, outs)
    requires c <= |outs| && LevelHit(outs[..c], k).Some?
    ensures LevelHit(outs[..c], k) == Over(LevelHit(srcs, k), LevelHit(Overlapping(ts, lo, hi), k))
    ensures LevelHit(Without(ts, Nums(Overlapping(ts, lo, hi))), k).None?
  {
    hide LevelHit;
    hide Overlaps;
    hide Apart;
    hide TableOk;
    var sel := Overlapping(ts, lo, hi);
    PushedShape(srcs, ts, lo, hi, outs);
    var pushed := Pushed(ts, lo, hi, outs);
    var o := LevelHitSome(outs[..c], k);
    assert o in outs;
    MergedHit(srcs, ts, lo, hi, outs, k);
    hide MergesDown;
    OutsShape(srcs, ts, lo, hi, outs);
    LevelHitMember(outs, o, k);
    var left := Without(ts, Nums(sel));
    LevelMiss(left, k);
    forall t | t in left
      ensures Hit(t.entries, k).None?
    {
      NumbersDiffer(srcs, ts, lo, hi, outs, o, t);
      assert o in pushed && t in pushed;
      ApartMiss(o, t, k);
    }
  }

  lemma {:induction false} NumbersDiffer(srcs: Level, ts: Level, lo: Key, hi: Key, outs: Level, o: Table, t: Table)
    requires MergesDown(srcs, ts, lo, hi, outs) && o in outs && t in ts
    ensures o != t
  {
  }

  lemma {:induction false} OutsShape(srcs: Level, ts: Level, lo: Key, hi: Key, outs: Level)
    requires MergesDown(srcs, ts, lo, hi, outs)
    ensures TablesOk(outs) && Disjoint(outs)
  {
    hide Disjoint;
    SplitsSorted(srcs, ts, lo, hi, outs);
    SplitsDisjoint(outs, Flat(outs));
  }

  lemma {:induction false} MergedHit(srcs: Level, ts: Level, lo: Key, hi: Key, outs: Level, k: Key)
    requires MergesDown(srcs, ts, lo, hi, outs)
    ensures LevelHit(outs, k) == Over(LevelHit(srcs, k), LevelHit(Overlapping(ts, lo, hi), k))
  {
    var sel := Overlapping(ts, lo, hi);
    FlatHit(outs, k);
    FirstHitAppend(Runs(srcs), Runs(sel), k);
  }

  lemma {:induction false} TwoParts(a: Level, b: Level, k: Key)
    ensures LevelHit(a + b, k) == Over(LevelHit(a, k), LevelHit(b, k))
  {
    assert Runs(a + b) == Runs(a) + Runs(b);
    FirstHitAppend(Runs(a), Runs(b), k);
  }

  lemma {:induction false} ReadTorn(ls: seq<Level>, l: nat, n: nat, lo: Key, hi: Key, outs: Level, j: nat, k: Key)
    requires l + 1 < |ls| && n <= |ls[l]|
    ensures var sel := Overlapping(ls[l + 1], lo, hi);
            var a, b, c := Reached(j, 0, n), Reached(j, n, |sel|), Reached(j, n + |sel|, |outs|);
            StoreHit(Torn(ls, l, n, lo, hi, outs, j), k) ==
            Over(Above(ls, l, k),
                 Over(SaidAt(Without(ls[l], Nums(ls[l][..a])), l, k),
                      Over(Over(LevelHit(Without(ls[l + 1], Nums(sel[..b])), k), LevelHit(outs[..c], k)),
                          DeepHit(ls[l + 2..], k))))
  {
    hide LevelHit;
    hide Without;
    hide Overlapping;
    hide DeepHit;
    hide StoreHit;
    var sel := Overlapping(ls[l + 1], lo, hi);
    var b, c := Reached(j, n, |sel|), Reached(j, n + |sel|, |outs|);
    var ls' := Torn(ls, l, n, lo, hi, outs, j);
    AroundLevel(ls', l, k);
    TwoParts(Without(ls[l + 1], Nums(sel[..b])), outs[..c], k);
    assert ls'[l + 2..] == ls[l + 2..];
    assert l > 0 ==> ls'[1..l] == ls[1..l];
  }

  /** After any number of the calls of an install, the tables listed answer as before exactly for the
      keys that ReadKept describes. */
  lemma {:induction false} TornReadExact(ls: seq<Level>, l: nat, n: nat, lo: Key, hi: Key, outs: Level, j: nat, k: Key)
    requires Compactable(ls, l, n, lo, hi, outs)
    ensures StoreHit(Torn(ls, l, n, lo, hi, outs, j), k) == StoreHit(ls, k) <==> ReadKept(ls, l, n, lo, hi, outs, j, k)
  {
    hide LevelHit;
    hide DeepHit;
    hide StoreHit;
    hide Without;
    hide Overlapping;
    hide MergesDown;
    hide Nums;
    hide Torn;
    hide Above;
    hide SaidAt;
    LevelsShape(ls, l);
    hide L0Ok;
    hide LevelOk;
    hide Disjoint;
    var sel := Overlapping(ls[l + 1], lo, hi);
    var a, b, c := Reached(j, 0, n), Reached(j, n, |sel|), Reached(j, n + |sel|, |outs|);
    ReadTorn(ls, l, n, lo, hi, outs, j, k);
    AroundLevel(ls, l, k);
    SourcesGone(ls, l, n, a, k);
    TargetsGone(ls[l + 1], lo, hi, b, k);
    if LevelHit(outs[..c], k).Some? {
      assert c > 0 by { if c == 0 { assert outs[..0] == []; LevelMiss([], k); } }
      assert a == n && b == |sel| && sel[..b] == sel && ls[l][..a] == ls[l][..n];
      OutputListed(ls[l][..n], ls[l + 1], lo, hi, outs, c, k);
      SameFiles(ls[l][..n], k);
    }
  }

  lemma {:induction false} LevelsShape(ls: seq<Level>, l: nat)
    requires L0Ok(ls) && l + 1 < |ls|
    ensures LevelOk(ls[l + 1]) && Disjoint(ls[l + 1])
  {
  }

  // ---------- reopening after the crash ----------

  /** What a compaction under way takes: level, number of files, key range and outputs. */
  datatype Taking = Taking(level: nat, count: nat, lo: Key, hi: Key, outs: Level)

  ghost function Takes(e: Engine): (r: Taking)
    requires !e.job.NoJob?
  {
    match e.job
    case LevelJob(l, outs) =>
      if l < |e.listed| && |e.listed[l]| > 0
      then Taking(l, 1, MinKey(e.listed[l][0]), MaxKey(e.listed[l][0]), outs)
      else Taking(l, 0, [], [], outs)
    case L0Job(n, metas, lo, hi, outs) => Taking(0, n, lo, hi, outs)
  }

  lemma {:induction false} JobCompactable(e: Engine)
    requires ShapeOk(e) && JobOk(e) && !e.job.NoJob?
    ensures var t := Takes(e); Compactable(e.listed, t.level, t.count, t.lo, t.hi, t.outs)
  {
    hide MergesDown;
    match e.job
    case LevelJob(l, outs) =>
      assert e.listed[l] == e.levels[l] && e.listed[l + 1] == e.levels[l + 1];
      assert e.listed[l][..1] == [e.levels[l][0]];
    case L0Job(n, metas, lo, hi, outs) =>
      assert e.listed[0][..n] == e.levels[0][..n] && e.listed[1] == e.levels[1];
  }

  /** The disk after the first j calls of the install. */
  ghost function TornEngine(e: Engine, j: nat): (r: Engine)
    requires !e.job.NoJob? && Takes(e).level + 1 < |e.listed| && Takes(e).count <= |e.listed[Takes(e).level]|
  {
    var t := Takes(e);
    e.(listed := Torn(e.listed, t.level, t.count, t.lo, t.hi, t.outs, j))
  }

  /** From any state the invariant allows, a crash after j calls of an install of either compaction:
      a key is read back right exactly if the log has it or its read is kept by the tables. */
  lemma {:induction false} TornInstallExact(e: Engine, h: Trace, j: nat, partial: Records, k: Key)
    requires Inv(e, h) && !e.job.NoJob?
    ensures var t := Takes(e);
            && t.level + 1 < |e.listed| && t.count <= |e.listed[t.level]|
            && (EngineHit(Reopened(TornEngine(e, j), partial), k) == Last(h.logged + partial, k) <==>
                || Last(AllRecords(e.wal) + partial, k).Some?
                || ReadKept(e.listed, t.level, t.count, t.lo, t.hi, t.outs, j, k))
  {
    hide ReadKept;
    hide EngineHit;
    hide Reopened;
    hide StoreHit;
    hide AllRecords;
    hide Torn;
    hide Inv;
    hide Takes;
    hide MergesDown;
    hide L0Ok;
    var t := Takes(e);
    Listings(e, h);
    ReopenedLast(e, h, partial, k);
    ReopenedHit(TornEngine(e, j), partial, k);
    TornReadExact(e.listed, t.level, t.count, t.lo, t.hi, t.outs, j, k);
  }

  lemma {:induction false} ReopenedLast(e: Engine, h: Trace, partial: Records, k: Key)
    requires Inv(e, h)
    ensures |e.wal| > 0 && |e.listed| > 0
    ensures Over(Last(AllRecords(e.wal) + partial, k), StoreHit(e.listed, k)) == Last(h.logged + partial, k)
  {
    hide Inv;
    hide EngineHit;
    hide Reopened;
    hide StoreHit;
    hide AllRecords;
    LevelsExist(e, h);
    StepCrash(e, h, partial);
    ReadsLast(Reopened(e, partial), After(e, h, Crash(partial)), k);
    ReopenedHit(e, partial, k);
  }

  lemma {:induction false} Listings(e: Engine, h: Trace)
    requires Inv(e, h) && !e.job.NoJob?
    ensures var t := Takes(e); Compactable(e.listed, t.level, t.count, t.lo, t.hi, t.outs)
  {
    hide ShapeOk;
    hide JobOk;
    hide Compactable;
    JobCompactable(e);
  }

  // ---------- a lost table ----------

  const Output := Table(2, [Entry([1], Some([1]))])

  /** One write, flushed, and its L0 file about to be compacted. */
  const FlushedSteps: seq<Step> :=
    [Write([W.FirstWrite]), Freeze, FlushList(W.FirstTable), FlushAppend, FlushRemove, FlushPurge,
        StartL0([1], [1], [Output])]

  const Compacting :=
    Engine([WalFile(2, [])], map[], [], [[W.FirstTable], []], [[W.FirstTable], []], 3, Resting,
        L0Job(1, {1}, [1], [1], [Output]))

  const FlushedRun: seq<Engine> := [W.E0, W.E1, W.E2, W.E3, W.E4, W.E5, W.E6, Compacting]

  lemma {:induction false} StartsCompacting()
    ensures W.Goes(W.E6, FlushedSteps[6], Compacting)
  {
    W.MergesAlone(W.FirstTable, Output);
    assert Nums([W.FirstTable]) == {1} by { assert W.FirstTable in [W.FirstTable]; }
    assert [Output][1..] == [] && NumAfter([], 2) == 2;
  }

  lemma {:induction false} FlushedRunIsRun()
    ensures IsRun(FlushedRun, FlushedSteps)
  {
    hide Enabled;
    hide Do;
    W.FirstWritten();
    W.FirstListed();
    W.FirstPurged();
    StartsCompacting();
    assert Init(FlushedRun[0]);
    forall i | 0 <= i < |FlushedSteps|
      ensures W.Goes(FlushedRun[i], FlushedSteps[i], FlushedRun[i + 1]) && Benign(FlushedRun[i], FlushedSteps[i])
    {
      assert FlushedSteps[i] == W.LossySteps[i] || i == 6;
    }
  }

  lemma {:induction false} FlushedWrites()
    ensures AllWrites(FlushedSteps) == [W.FirstWrite]
  {
    hide AllWrites;
    W.TwoWrites(FlushedSteps, 7, [W.FirstWrite], [], 7);
    assert FlushedSteps[..7] == FlushedSteps;
  }

  /** The listing after the removal is empty; after the addition it has the output. */
  lemma {:induction false} TornListings()
    ensures TornEngine(Compacting, 1) == Compacting.(listed := [[], []])
    ensures TornEngine(Compacting, 2) == Compacting.(listed := [[], [Output]])
  {
    var one := [W.FirstTable];
    var ls: seq<Level> := [one, []];
    assert Nums(one) == {1} by { assert W.FirstTable in one; }
    assert Without(one, {1}) == [] by { WithoutFirst(one, 1, {1}); }
    assert ls[0][..1] == one;
    var sel := Overlapping(ls[1], [1], [1]);
    assert sel == [] && sel[..0] == [] && Nums([]) == {};
    assert Without([], {}) == [];
    var outs := [Output];
    assert outs[..0] == [] && outs[..1] == outs;
    var one' := Without(ls[0], Nums(ls[0][..1]));
    var none := Without(ls[1], Nums(sel[..0]));
    assert one' == [] && none == [];
    assert none + outs[..0] == [] && none + outs[..1] == outs;
    assert ls[0 := one'][1 := none + outs[..0]] == [[], []];
    assert ls[0 := one'][1 := none + outs[..1]] == [[], outs];
    assert Torn(ls, 0, 1, [1], [1], outs, 1) == [[], []];
    assert Torn(ls, 0, 1, [1], [1], outs, 2) == [[], outs];
  }

  lemma {:induction false} EmptyListing(k: Key)
    ensures StoreHit([[], []], k).None?
  {
    EmptyStore([[], []], k);
  }

  lemma {:induction false} OutputListing()
    ensures StoreHit([[], [Output]], [1]) == Some(Some([1]))
  {
    hide LevelHit;
    var ls: seq<Level> := [[], [Output]];
    assert Reversed(ls[0]) == [];
    LevelMiss([], [1]);
    One(Output, [1]);
    assert ls[1..][0] == [Output];
  }

  /** A run of one write, its flush and the start of a compaction, all harmless: if the crash comes
      between the two calls of the install, the write is gone; after both it is there. */
  lemma {:induction false} TornInstallLosesAWrite()
    ensures IsRun(FlushedRun, FlushedSteps) && Last(AllWrites(FlushedSteps), [1]) == Some(Some([1]))
    ensures FlushedRun[7] == Compacting
    ensures EngineHit(Reopened(TornEngine(Compacting, 1), []), [1]).None?
    ensures EngineHit(Reopened(TornEngine(Compacting, 2), []), [1]) == Some(Some([1]))
  {
    hide IsRun;
    hide AllWrites;
    hide EngineHit;
    hide Reopened;
    hide StoreHit;
    FlushedRunIsRun();
    FlushedWrites();
    TornListings();
    hide TornEngine;
    OneFile(WalFile(2, []));
    ReopenedHit(TornEngine(Compacting, 1), [], [1]);
    ReopenedHit(TornEngine(Compacting, 2), [], [1]);
    EmptyListing([1]);
    OutputListing();
  }
}
