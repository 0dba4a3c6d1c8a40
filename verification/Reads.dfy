/** ReadRange (engine/engine.go): the heap merge over all sources answers from the same view as Get. */
module Reads {
  import opened Prelude
  import opened Keys
  import opened Tables
  import opened Compaction
  import opened LevelCompaction
  import opened Writes
  import opened EngineMachine
  import opened EngineRefinement
  import opened MergeOrder
  import opened MergeIterators
  import opened CompactionRun
  import SkipLists

  lemma {:induction false} NoLevels(k: Key)
    ensures DeepHit([], k).None?
  {
  }

  // ---------- ReadRange ----------

  datatype Pair = Pair(key: Key, value: Value)

  ghost predicate ListsMem(run: EntryList, m: Mem)
  {
    Sorted(run) && forall k :: Hit(run, k) == MemHit(m, k)
  }

  /** The contents of the memtables, active first, as their iterators deliver them. */
  ghost predicate ListsMems(e: Engine, runs: seq<EntryList>)
  {
    && |runs| == 1 + |e.imms| && ListsMem(runs[0], e.active)
    && forall i :: 0 <= i < |e.imms| ==> ListsMem(runs[1 + i], e.imms[i].mem)
  }

  function DeepRuns(ls: seq<Level>): (r: seq<EntryList>)
  {
    if ls == [] then [] else DeepRuns(ls[..|ls| - 1]) + Runs(ls[|ls| - 1])
  }

  lemma {:induction false} DeepRunsHit(ls: seq<Level>, k: Key)
    ensures FirstHit(DeepRuns(ls), k) == DeepHit(ls, k)
  {
    if ls != [] {
      var n := |ls| - 1;
      DeepRunsHit(ls[..n], k);
      FirstHitAppend(DeepRuns(ls[..n]), Runs(ls[n]), k);
      DeepHitAppend(ls[..n], [ls[n]], k);
      assert ls[..n] + [ls[n]] == ls;
      OneLevel(ls[n], k);
    }
  }

  lemma {:induction false} OneLevel(l: Level, k: Key)
    ensures DeepHit([l], k) == LevelHit(l, k)
  {
    assert [l][1..] == [];
    NoLevels(k);
  }

  lemma {:induction false} FrozenRunsHit(imms: seq<Frozen>, runs: seq<EntryList>, k: Key)
    requires |runs| == |imms| && forall i :: 0 <= i < |imms| ==> ListsMem(runs[i], imms[i].mem)
    ensures FirstHit(runs, k) == FrozenHit(imms, k)
  {
    if imms != [] {
      assert ListsMem(runs[0], imms[0].mem);
      FrozenRunsHit(imms[1..], runs[1..], k);
    }
  }

  /** All iterators of ReadRange, in the order of their numbers. */
  function AllRuns(e: Engine, runs: seq<EntryList>): (r: seq<EntryList>)
    requires |e.levels| > 0
  {
    runs + Runs(Reversed(e.levels[0])) + DeepRuns(e.levels[1..])
  }

  lemma {:induction false} AllRunsHit(e: Engine, runs: seq<EntryList>, k: Key)
    requires |e.levels| > 0 && ListsMems(e, runs)
    ensures FirstHit(AllRuns(e, runs), k) == EngineHit(e, k)
  {
    hide DeepHit;
    hide FrozenHit;
    FirstHitAppend(runs + Runs(Reversed(e.levels[0])), DeepRuns(e.levels[1..]), k);
    FirstHitAppend(runs, Runs(Reversed(e.levels[0])), k);
    DeepRunsHit(e.levels[1..], k);
    FrozenRunsHit(e.imms, runs[1..], k);
    assert ListsMem(runs[0], e.active);
  }

  ghost predicate AllSortedRuns(runs: seq<EntryList>)
  {
    forall i :: 0 <= i < |runs| ==> Sorted(runs[i])
  }

  lemma {:induction false} LevelRunsSorted(ts: Level)
    requires TablesOk(ts)
    ensures AllSortedRuns(Runs(ts)) && AllSortedRuns(Runs(Reversed(ts)))
  {
    hide Sorted;
    forall i | 0 <= i < |ts|
      ensures Sorted(Runs(ts)[i]) && Sorted(Runs(Reversed(ts))[i])
    {
      assert TableOk(ts[i]) && TableOk(ts[|ts| - 1 - i]);
    }
  }

  lemma {:induction false} DeepRunsSorted(ls: seq<Level>)
    requires forall i :: 0 <= i < |ls| ==> TablesOk(ls[i])
    ensures AllSortedRuns(DeepRuns(ls))
  {
    hide Sorted;
    if ls != [] {
      DeepRunsSorted(ls[..|ls| - 1]);
      LevelRunsSorted(ls[|ls| - 1]);
    }
  }

  lemma {:induction false} AllRunsSorted(e: Engine, runs: seq<EntryList>)
    requires LevelsOk(e.levels) && ListsMems(e, runs)
    ensures AllSortedRuns(AllRuns(e, runs))
  {
    hide Sorted;
    hide Disjoint;
    LevelRunsSorted(e.levels[0]);
    forall i | 0 <= i < |e.levels[1..]|
      ensures TablesOk(e.levels[1..][i])
    {
      assert LevelOk(e.levels[i + 1]);
    }
    DeepRunsSorted(e.levels[1..]);
    forall i | 0 <= i < |runs|
      ensures Sorted(runs[i])
    {
      assert i > 0 ==> ListsMem(runs[1 + (i - 1)], e.imms[i - 1].mem);
    }
  }

  /** The live pairs of a stream. */
  function Live(s: EntryList): (r: seq<Pair>)
  {
    if s == [] then []
    else
      var e := s[|s| - 1];
      Live(s[..|s| - 1]) + if e.value.Some? then [Pair(e.key, e.value.value)] else []
  }

  lemma {:induction false} LiveOrder(s: EntryList)
    requires Sorted(s)
    ensures forall i :: 0 <= i < |Live(s)| ==> |s| > 0 && Rank(Live(s)[i].key) <= Rank(s[|s| - 1].key)
    ensures forall i, j :: 0 <= i < j < |Live(s)| ==> Rank(Live(s)[i].key) < Rank(Live(s)[j].key)
  {
    hide RankFrom;
    if |s| == 0 {
      assert Live(s) == [];
    } else {
      LiveOrder(s[..|s| - 1]);
      assert |s| > 1 ==> Rank(s[..|s| - 1][|s| - 2].key) < Rank(s[|s| - 1].key);
    }
  }

  lemma {:induction false} LiveMember(s: EntryList, p: Pair)
    requires Sorted(s)
    ensures p in Live(s) <==> Hit(s, p.key) == Some(Some(p.value))
  {
    hide RankFrom;
    if |s| > 0 {
      var n := |s| - 1;
      LiveMember(s[..n], p);
      assert s == s[..n] + [s[n]];
      HitAppend(s[..n], [s[n]], p.key);
      assert Hit([s[n]], p.key) == if s[n].key == p.key then Some(s[n].value) else None by {
        assert [s[n]][1..] == [];
      }
      HitNone(s[..n], s[n].key);
    }
  }

  /** The pairs of a range: in order, and exactly those Get would report. */
  ghost predicate IsRange(e: Engine, lo: Key, hi: Key, pairs: seq<Pair>)
    requires |e.levels| > 0
  {
    && (forall i, j :: 0 <= i < j < |pairs| ==> Rank(pairs[i].key) < Rank(pairs[j].key))
    && forall p :: p in pairs <==>
         Rank(lo) <= Rank(p.key) <= Rank(hi) && Visible(EngineHit(e, p.key)) == Some(p.value)
  }

  method GatherIterators(e: Engine, runs: seq<EntryList>) returns (iters: seq<EntryList>, priorities: seq<int>)
    requires |e.levels| > 0 && |runs| > 0
    ensures iters == AllRuns(e, runs) && priorities == CountUp(|iters|)
  {
    iters, priorities := [runs[0]], [0];
    for i := 1 to |runs|
      invariant iters == runs[..i] && priorities == CountUp(|iters|)
    {
      iters, priorities := iters + [runs[i]], priorities + [|iters|];
    }
    assert iters == runs;
    iters, priorities := GatherL0(e.levels[0], iters, priorities);
    assert e.levels[1..1] == [];
    assert DeepRuns([]) == [];
    ghost var above := iters;
    assert above + [] == above;
    for l := 1 to |e.levels|
      invariant iters == above + DeepRuns(e.levels[1..l]) && priorities == CountUp(|iters|)
    {
      ghost var before := DeepRuns(e.levels[1..l]);
      iters, priorities := GatherLevel(e.levels[l], iters, priorities);
      assert e.levels[1..l + 1][..|e.levels[1..l + 1]| - 1] == e.levels[1..l];
      assert (above + before) + Runs(e.levels[l]) == above + (before + Runs(e.levels[l]));
    }
    assert e.levels[1..|e.levels|] == e.levels[1..];
  }

  method GatherL0(l0: Level, iters0: seq<EntryList>, priorities0: seq<int>)
    returns (iters: seq<EntryList>, priorities: seq<int>)
    requires priorities0 == CountUp(|iters0|)
    ensures iters == iters0 + Runs(Reversed(l0)) && priorities == CountUp(|iters|)
  {
    iters, priorities := iters0, priorities0;
    var i: nat := |l0|;
    assert iters0 + [] == iters0;
    while i > 0
      invariant i <= |l0| && iters == iters0 + Runs(Reversed(l0))[..|l0| - i] && priorities == CountUp(|iters|)
    {
      i := i - 1;
      iters, priorities := iters + [l0[i].entries], priorities + [|iters|];
    }
  }

  method GatherLevel(ts: Level, iters0: seq<EntryList>, priorities0: seq<int>)
    returns (iters: seq<EntryList>, priorities: seq<int>)
    requires priorities0 == CountUp(|iters0|)
    ensures iters == iters0 + Runs(ts) && priorities == CountUp(|iters|)
  {
    iters, priorities := iters0, priorities0;
    assert iters0 + [] == iters0;
    for i := 0 to |ts|
      invariant iters == iters0 + Runs(ts)[..i] && priorities == CountUp(|iters|)
    {
      iters, priorities := iters + [ts[i].entries], priorities + [|iters|];
    }
  }

  lemma {:induction false} UpToHit(s: EntryList, n: nat, hi: Key, k: Key)
    requires Sorted(s) && n <= |s|
    requires (forall i :: 0 <= i < n ==> Rank(s[i].key) <= Rank(hi)) && (n < |s| ==> Rank(s[n].key) > Rank(hi))
    ensures Sorted(s[..n]) && Hit(s[..n], k) == if Rank(k) <= Rank(hi) then Hit(s, k) else None
  {
    hide RankFrom;
    assert s == s[..n] + s[n..];
    HitAppend(s[..n], s[n..], k);
    if Rank(k) <= Rank(hi) {
      BelowHead(s[n..], k);
    } else {
      HitNone(s[..n], k);
    }
  }

  lemma {:induction false} RangeDone(e: Engine, runs: seq<EntryList>, merged: EntryList, lo: Key, hi: Key, n: nat)
    requires |e.levels| > 0 && ListsMems(e, runs) && IsMerge(AllRuns(e, runs), merged) && n <= |From(merged, lo)|
    requires var s := From(merged, lo);
             (forall i :: 0 <= i < n ==> Rank(s[i].key) <= Rank(hi)) && (n < |s| ==> Rank(s[n].key) > Rank(hi))
    ensures IsRange(e, lo, hi, Live(From(merged, lo)[..n]))
  {
    hide RankFrom;
    hide From;
    hide EngineHit;
    hide ListsMems;
    hide Live;
    hide AllRuns;
    hide Hit;
    var s := From(merged, lo);
    FromHit(merged, lo, lo);
    UpToHit(s, n, hi, lo);
    LiveOrder(s[..n]);
    forall p: Pair
      ensures p in Live(s[..n]) <==>
                Rank(lo) <= Rank(p.key) <= Rank(hi) && Visible(EngineHit(e, p.key)) == Some(p.value)
    {
      LiveMember(s[..n], p);
      UpToHit(s, n, hi, p.key);
      FromHit(merged, lo, p.key);
      AllRunsHit(e, runs, p.key);
      assert Hit(merged, p.key) == FirstHit(AllRuns(e, runs), p.key);
    }
  }

  /** ReadRange. */
  method ReadRange(e: Engine, runs: seq<EntryList>, lo: Key, hi: Key) returns (pairs: seq<Pair>)
    requires LevelsOk(e.levels) && ListsMems(e, runs)
    ensures IsRange(e, lo, hi, pairs)
  {
    hide IsRange;
    hide Live;
    hide LevelOk;
    hide Disjoint;
    hide ListsMem;
    hide Merged;
    hide Loaded;
    hide Leads;
    hide Rests;
    hide From;
    hide AllRuns;
    hide Sorted;
    hide IsPriorityMerge;
    hide IsMerge;
    var iters, priorities := GatherIterators(e, runs);
    AllRunsSorted(e, runs);
    var mi := new MergeIterator(iters, priorities);
    ghost var merged := Merged(iters, priorities);
    InListOrder(iters, priorities, merged);
    mi.Seek(lo);
    ghost var stream, n := From(merged, lo), 0;
    hide Sources;
    pairs := [];
    NothingLive();
    assert stream[0..] == stream;
    var entry := mi.Current();
    while entry.Some?
      invariant mi.Inv() && 0 <= n <= |stream| && mi.Stream() == stream[n..]
      invariant entry.None? <==> mi.Stream() == []
      invariant entry.Some? ==> entry.value == mi.Stream()[0]
      invariant pairs == Live(stream[..n]) && forall i :: 0 <= i < n ==> Rank(stream[i].key) <= Rank(hi)
      decreases |stream| - n
    {
      var cur := entry.value;
      if Compare(cur.key, hi) > 0 {
        break;
      }
      LiveOneMore(stream, n);
      if cur.value.Some? {
        pairs := pairs + [Pair(cur.key, cur.value.value)];
      }
      mi.Next();
      n := n + 1;
      entry := mi.Current();
    }
    RangeDone(e, runs, merged, lo, hi, n);
  }

  lemma {:induction false} NothingLive()
    ensures Live([]) == []
  {
  }

  lemma {:induction false} LiveOneMore(s: EntryList, n: nat)
    requires n < |s|
    ensures s[n..][0] == s[n] && s[n..][1..] == s[n + 1..]
    ensures Live(s[..n + 1]) == Live(s[..n]) + if s[n].value.Some? then [Pair(s[n].key, s[n].value.value)] else []
  {
    assert s[..n + 1][..n] == s[..n];
  }

  /** In every run, a range read lists the plain map between the bounds. */
  lemma {:induction false} RangeIsMap(run: seq<Engine>, steps: seq<Step>, i: nat, lo: Key, hi: Key, pairs: seq<Pair>)
    requires IsRun(run, steps) && i < |run| && |run[i].levels| > 0 && IsRange(run[i], lo, hi, pairs)
    ensures var m := Outcome(map[], AllWrites(steps[..i]));
            forall p :: p in pairs <==> Rank(lo) <= Rank(p.key) <= Rank(hi) && p.key in m && m[p.key] == p.value
  {
    hide Enabled;
    hide Benign;
    hide Do;
    hide Init;
    hide EngineHit;
    hide RankFrom;
    var m := Outcome(map[], AllWrites(steps[..i]));
    forall p: Pair
      ensures p in pairs <==> Rank(lo) <= Rank(p.key) <= Rank(hi) && p.key in m && m[p.key] == p.value
    {
      EngineRefinesMap(run, steps, i, p.key);
    }
  }

  // ---------- memtables ----------

  /** Empty values aside, what a skip list holds is a run of entries. */
  predicate NoEmptyValues(items: SkipLists.Items)
  {
    forall i :: 0 <= i < |items| && items[i].value.Some? ==> |items[i].value.value| > 0
  }

  function ToEntry(item: SkipLists.Item): (r: Entry)
    requires item.value.Some? ==> |item.value.value| > 0
    ensures r.key == item.key && r.value == item.value
  {
    Entry(item.key, if item.value.None? then None else Some(item.value.value))
  }

  function ToEntries(items: SkipLists.Items): (r: EntryList)
    requires NoEmptyValues(items)
    ensures |r| == |items| && forall i :: 0 <= i < |r| ==> r[i].key == items[i].key && r[i].value == items[i].value
  {
    seq(|items|, i requires 0 <= i < |items| => ToEntry(items[i]))
  }

  /** The skip list's order of items is the run that the memtable's map asks for. */
  lemma {:induction false} SkipListListsMem(items: SkipLists.Items, m: Mem)
    requires SkipLists.InOrder(items) && NoEmptyValues(items) && SkipLists.AsMap(items) == m
    ensures ListsMem(ToEntries(items), m)
  {
    hide SkipLists.AsMap;
    hide RankFrom;
    var run := ToEntries(items);
    forall k
      ensures Hit(run, k) == MemHit(m, k)
    {
      SkipLists.MapOf(items, k);
      HitNone(run, k);
      if Hit(run, k).Some? {
        var i := HitWitness(run, k);
        assert items[i].key == k;
      } else {
        assert forall i :: 0 <= i < |items| ==> run[i].key == items[i].key;
      }
    }
  }
}
