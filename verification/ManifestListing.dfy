/** The manifest's calls as the engine's machine sees them: the lists describe the machine's listed
    tables through flush and both installs. */
module ManifestListing {
  import opened Compaction
  import opened LevelCompaction
  import opened ByteCodec
  import opened EngineMachine
  import M = ManifestLog

  ghost predicate DescribesTable(f: M.FileMetadata, t: Table)
  {
    f.fileNum == t.num && f.minKey == MinKey(t) && f.maxKey == MaxKey(t)
  }

  ghost predicate DescribesLevel(fs: seq<M.FileMetadata>, ts: Level)
  {
    |fs| == |ts| && forall i :: 0 <= i < |fs| ==> DescribesTable(fs[i], ts[i])
  }

  /** The lists describe the levels. */
  ghost predicate Describes(ls: M.Listing, levels: seq<Level>)
  {
    |ls| == |levels| && forall i :: 0 <= i < |ls| ==> DescribesLevel(ls[i], levels[i])
  }

  // ---------- many calls on one level ----------

  function Removals(nums: seq<nat>, l: nat): (r: seq<M.ManifestRecord>)
    ensures |r| == |nums| && forall i :: 0 <= i < |nums| ==> r[i] == M.Removal(nums[i], l)
  {
    seq(|nums|, i requires 0 <= i < |nums| => M.Removal(nums[i], l))
  }

  function Additions(metas: seq<M.FileMetadata>): (r: seq<M.ManifestRecord>)
    ensures |r| == |metas| && forall i :: 0 <= i < |metas| ==> r[i] == M.ManifestRecord(M.ADD_FILE, metas[i])
  {
    seq(|metas|, i requires 0 <= i < |metas| => M.ManifestRecord(M.ADD_FILE, metas[i]))
  }

  lemma {:induction false} AppliedTwo(ls: M.Listing, a: seq<M.ManifestRecord>, b: seq<M.ManifestRecord>)
    ensures M.AppliedAll(ls, a + b) == M.AppliedAll(M.AppliedAll(ls, a), b)
  {
    hide M.Applied;
    if b == [] {
      assert a + b == a;
    } else {
      assert (a + b)[..|a + b| - 1] == a + b[..|b| - 1];
      AppliedTwo(ls, a, b[..|b| - 1]);
    }
  }

  lemma {:induction false} NumsGone(ts: Level, gone: set<nat>, num: nat)
    ensures Without(Without(ts, gone), {num}) == Without(ts, gone + {num})
  {
    if ts != [] {
      NumsGone(ts[1..], gone, num);
      if ts[0].num !in gone {
        assert Without(ts, gone)[1..] == Without(ts[1..], gone);
      }
    }
  }

  lemma {:induction false} NoneGone(ts: Level)
    ensures Without(ts, {}) == ts
  {
    if ts != [] {
      NoneGone(ts[1..]);
    }
  }

  lemma {:induction false} NotThere(ts: Level, num: nat)
    requires forall t :: t in ts ==> t.num != num
    ensures Without(ts, {num}) == ts
  {
    if ts != [] {
      NotThere(ts[1..], num);
    }
  }

  lemma {:induction false} DescribesTail(fs: seq<M.FileMetadata>, ts: Level)
    requires DescribesLevel(fs, ts) && ts != []
    ensures fs != [] && DescribesTable(fs[0], ts[0]) && fs[0].fileNum == ts[0].num && DescribesLevel(fs[1..], ts[1..])
  {
  }

  lemma {:induction false} DescribesCons(f: M.FileMetadata, t: Table, fs: seq<M.FileMetadata>, ts: Level)
    requires DescribesTable(f, t) && DescribesLevel(fs, ts)
    ensures DescribesLevel([f] + fs, [t] + ts)
  {
    hide DescribesTable;
  }

  lemma {:induction false} DistinctTail(ts: Level)
    requires DistinctNums(ts) && ts != []
    ensures DistinctNums(ts[1..]) && forall t :: t in ts[1..] ==> t.num != ts[0].num
  {
    forall t | t in ts[1..]
      ensures t.num != ts[0].num
    {
      var i :| 0 <= i < |ts[1..]| && ts[1..][i] == t;
      assert ts[i + 1] == t;
    }
  }

  /** RemoveFile drops the one table of that number. */
  lemma {:induction false} RemoveDescribes(fs: seq<M.FileMetadata>, ts: Level, num: nat)
    requires DescribesLevel(fs, ts) && DistinctNums(ts)
    ensures DescribesLevel(M.WithoutFirst(fs, num), Without(ts, {num}))
  {
    hide DistinctNums;
    if ts != [] {
      DescribesTail(fs, ts);
      DistinctTail(ts);
      hide DescribesLevel;
      hide DescribesTable;
      if ts[0].num == num {
        NotThere(ts[1..], num);
      } else {
        RemoveDescribes(fs[1..], ts[1..], num);
        DescribesCons(fs[0], ts[0], M.WithoutFirst(fs[1..], num), Without(ts[1..], {num}));
      }
    }
  }

  lemma {:induction false} RemovalDescribes(ls: M.Listing, levels: seq<Level>, l: nat, num: nat)
    requires Describes(ls, levels) && l < |ls| && DistinctNums(levels[l])
    ensures Describes(M.Applied(ls, M.Removal(num, l)), levels[l := Without(levels[l], {num})])
  {
    hide DescribesTable;
    hide DistinctNums;
    hide M.WithoutFirst;
    RemoveDescribes(ls[l], levels[l], num);
  }

  lemma {:induction false} WithoutDistinct(ts: Level, gone: set<nat>)
    requires DistinctNums(ts)
    ensures DistinctNums(Without(ts, gone))
  {
    if ts != [] {
      DistinctTail(ts);
      WithoutDistinct(ts[1..], gone);
    }
  }

  function AsSet(nums: seq<nat>): (r: set<nat>)
  {
    set n | n in nums
  }

  /** The removals of a compaction, one RemoveFile after the other. */
  lemma {:induction false} RemovalsDescribe(ls: M.Listing, levels: seq<Level>, l: nat, nums: seq<nat>)
    requires Describes(ls, levels) && l < |ls| && DistinctNums(levels[l])
    ensures Describes(M.AppliedAll(ls, Removals(nums, l)), levels[l := Without(levels[l], AsSet(nums))])
  {
    hide Describes;
    hide DistinctNums;
    DescribesSize(ls, levels);
    if nums == [] {
      NoneGone(levels[l]);
      assert AsSet(nums) == {};
      assert levels[l := levels[l]] == levels;
    } else {
      var n := |nums| - 1;
      RemovalsDescribe(ls, levels, l, nums[..n]);
      assert Removals(nums, l)[..n] == Removals(nums[..n], l);
      var levels1 := levels[l := Without(levels[l], AsSet(nums[..n]))];
      WithoutDistinct(levels[l], AsSet(nums[..n]));
      var ls1 := M.AppliedAll(ls, Removals(nums[..n], l));
      hide M.Applied;
      RemovalDescribes(ls1, levels1, l, nums[n]);
      NumsGone(levels[l], AsSet(nums[..n]), nums[n]);
      assert AsSet(nums) == AsSet(nums[..n]) + {nums[n]} by {
        assert nums == nums[..n] + [nums[n]];
      }
      assert levels1[l := Without(levels1[l], {nums[n]})] == levels[l := Without(levels[l], AsSet(nums))];
    }
  }

  lemma {:induction false} AddDescribes(ls: M.Listing, levels: seq<Level>, f: M.FileMetadata, t: Table)
    requires Describes(ls, levels) && f.level < |ls| && DescribesTable(f, t)
    ensures Describes(M.Applied(ls, M.ManifestRecord(M.ADD_FILE, f)), levels[f.level := levels[f.level] + [t]])
  {
    hide DescribesTable;
  }

  lemma {:induction false} AdditionsDescribe(ls: M.Listing, levels: seq<Level>, l: nat, metas: seq<M.FileMetadata>,
                                             outs: Level)
    requires Describes(ls, levels) && l < |ls| && DescribesLevel(metas, outs) && forall i :: 0 <= i < |metas| ==>
               metas[i].level == l
    ensures Describes(M.AppliedAll(ls, Additions(metas)), levels[l := levels[l] + outs])
  {
    hide DescribesTable;
    if outs == [] {
      assert levels[l] + outs == levels[l];
      assert levels[l := levels[l]] == levels;
    } else {
      var n := |outs| - 1;
      AdditionsDescribe(ls, levels, l, metas[..n], outs[..n]);
      assert Additions(metas)[..n] == Additions(metas[..n]);
      var ls1, levels1 := M.AppliedAll(ls, Additions(metas[..n])), levels[l := levels[l] + outs[..n]];
      hide M.Applied;
      AddDescribes(ls1, levels1, metas[n], outs[n]);
      assert levels1[l] + [outs[n]] == levels[l] + outs by {
        assert outs == outs[..n] + [outs[n]];
      }
    }
  }

  // ---------- the machine's steps ----------

  /** The flush's AddFile, written to the manifest and read at the next opening. */
  lemma {:induction false} FlushListed(calls: seq<M.ManifestRecord>, listed: seq<Level>, t: Table, f: M.FileMetadata,
                                       crc: Checksum)
    requires Describes(M.AppliedAll(M.NoFiles(|listed|), calls), listed) && |listed| > 0
    requires DescribesTable(f, t) && f.level == 0
    requires forall i :: 0 <= i < |calls| ==> M.Fits(calls[i])
    requires M.Fits(M.ManifestRecord(M.ADD_FILE, f))
    ensures var data := M.Data(calls, crc) + M.Encoded(M.ManifestRecord(M.ADD_FILE, f), crc);
            Describes(M.AppliedAll(M.NoFiles(|listed|), M.Readable(data, crc)), AddToL0(listed, t))
  {
    hide DescribesTable;
    hide Describes;
    hide M.Applied;
    hide M.Fits;
    hide M.Encoded;
    hide M.Readable;
    var add := M.ManifestRecord(M.ADD_FILE, f);
    var ls := M.AppliedAll(M.NoFiles(|listed|), calls);
    M.DataSnoc(calls, add, crc);
    M.AllReadable(calls + [add], crc);
    M.AppliedSnoc(M.NoFiles(|listed|), calls, add);
    DescribesSize(ls, listed);
    AddDescribes(ls, listed, f, t);
  }

  /** The manifest part of an install: the sources and overlapping targets go, the outputs come. */
  function InstallCalls(srcNums: seq<nat>, srcLevel: nat, dstNums: seq<nat>,
                        metas: seq<M.FileMetadata>): (r: seq<M.ManifestRecord>)
  {
    Removals(srcNums, srcLevel) + Removals(dstNums, srcLevel + 1) + Additions(metas)
  }

  lemma {:induction false} InstallDescribes(ls: M.Listing, levels: seq<Level>, l: nat, srcNums: seq<nat>,
                                            dstNums: seq<nat>,
                                            metas: seq<M.FileMetadata>, outs: Level)
    requires Describes(ls, levels) && l + 1 < |ls| && DistinctNums(levels[l]) && DistinctNums(levels[l + 1])
    requires DescribesLevel(metas, outs) && forall i :: 0 <= i < |metas| ==> metas[i].level == l + 1
    ensures Describes(M.AppliedAll(ls, InstallCalls(srcNums, l, dstNums, metas)),
                      levels[l := Without(levels[l], AsSet(srcNums))]
                            [l + 1 := Without(levels[l + 1], AsSet(dstNums)) + outs])
  {
    hide Describes;
    hide DescribesLevel;
    hide DistinctNums;
    hide Without;
    hide M.AppliedAll;
    hide AsSet;
    assert |ls| == |levels| by { DescribesSize(ls, levels); }
    var a, b, c := Removals(srcNums, l), Removals(dstNums, l + 1), Additions(metas);
    AppliedTwo(ls, a + b, c);
    AppliedTwo(ls, a, b);
    RemovalsDescribe(ls, levels, l, srcNums);
    var ls1, levels1 := M.AppliedAll(ls, a), levels[l := Without(levels[l], AsSet(srcNums))];
    RemovalsDescribe(ls1, levels1, l + 1, dstNums);
    var ls2, levels2 := M.AppliedAll(ls1, b), levels1[l + 1 := Without(levels[l + 1], AsSet(dstNums))];
    AdditionsDescribe(ls2, levels2, l + 1, metas, outs);
    assert levels2[l + 1 := levels2[l + 1] + outs] == levels1[l + 1 := Without(levels[l + 1], AsSet(dstNums)) + outs];
  }

  lemma {:induction false} DescribesSize(ls: M.Listing, levels: seq<Level>)
    requires Describes(ls, levels)
    ensures |ls| == |levels|
  {
  }

  /** compactLevel's calls lead to the machine's listing after a LevelJob. */
  lemma {:induction false} LevelInstallListed(ls: M.Listing, levels: seq<Level>, l: nat, dstNums: seq<nat>,
                                              metas: seq<M.FileMetadata>, outs: Level)
    requires Describes(ls, levels) && 1 <= l < |levels| - 1 && |levels[l]| > 0
    requires DistinctNums(levels[l]) && DistinctNums(levels[l + 1])
    requires AsSet(dstNums) == Nums(Overlapping(levels[l + 1], MinKey(levels[l][0]), MaxKey(levels[l][0])))
    requires DescribesLevel(metas, outs) && forall i :: 0 <= i < |metas| ==> metas[i].level == l + 1
    ensures Describes(M.AppliedAll(ls, InstallCalls([levels[l][0].num], l, dstNums, metas)),
            LevelCompacted(levels, l, outs))
  {
    hide Describes;
    hide DescribesLevel;
    hide DistinctNums;
    DescribesSize(ls, levels);
    InstallDescribes(ls, levels, l, [levels[l][0].num], dstNums, metas, outs);
    assert AsSet([levels[l][0].num]) == {levels[l][0].num};
  }

  /** compactL0's calls lead to the machine's listing after an L0Job. */
  lemma {:induction false} L0InstallListed(ls: M.Listing, e: Engine, srcNums: seq<nat>, dstNums: seq<nat>,
                                           metas: seq<M.FileMetadata>)
    requires Describes(ls, e.listed) && e.job.L0Job? && |e.levels| >= 2 && |e.listed| >= 2
             && e.job.count <= |e.levels[0]|
    requires DistinctNums(e.listed[0]) && DistinctNums(e.listed[1]) && AsSet(srcNums) == e.job.metas
    requires AsSet(dstNums) == Nums(Overlapping(e.listed[1], e.job.lo, e.job.hi))
    requires DescribesLevel(metas, e.job.outs) && forall i :: 0 <= i < |metas| ==> metas[i].level == 1
    ensures Describes(M.AppliedAll(ls, InstallCalls(srcNums, 0, dstNums, metas)), Installed(e).listed)
  {
    hide Describes;
    hide DescribesLevel;
    hide DistinctNums;
    hide L0Compacted;
    DescribesSize(ls, e.listed);
    InstallDescribes(ls, e.listed, 0, srcNums, dstNums, metas, e.job.outs);
  }
}
