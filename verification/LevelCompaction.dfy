/** What installing a compaction does to every read: compactLevel never changes one, compactL0
    changes one exactly where its precedence is the wrong way round. */
module LevelCompaction {
  import opened Prelude
  import opened Keys
  import opened Tables
  import opened Compaction

  /** What Get reports for a finding: a tombstone reads as absent. */
  function Visible(f: Finding): (r: Option<Value>)
  {
    if f.None? then None else f.value
  }

  // ---------- compactLevel ----------

  /** The levels after the first file of level l went down one level as `outs`. */
  function LevelCompacted(ls: seq<Level>, l: nat, outs: Level): (r: seq<Level>)
    requires 1 <= l < |ls| - 1 && |ls[l]| > 0
  {
    var src := ls[l][0];
    ls[l := Without(ls[l], {src.num})][l + 1 := Pushed(ls[l + 1], MinKey(src), MaxKey(src), outs)]
  }

  lemma {:induction false} TakenOut(ts: Level, src: Table, k: Key)
    requires LevelOk(ts) && Disjoint(ts) && src in ts
    ensures LevelOk(Without(ts, {src.num})) && Disjoint(Without(ts, {src.num}))
    ensures LevelHit(ts, k) == Over(LevelHit(Without(ts, {src.num}), k), LevelHit([src], k))
    ensures LevelHit([src], k).Some? ==> LevelHit(Without(ts, {src.num}), k).None?
  {
    var rest := Without(ts, {src.num});
    assert LevelHit([src], k) == Hit(src.entries, k) by { One(src, k); }
    LevelMiss(rest, k);
    if Hit(src.entries, k).Some? {
      LevelHitMember(ts, src, k);
      forall t | t in rest
        ensures Hit(t.entries, k).None?
      {
        ApartMiss(src, t, k);
      }
    } else if LevelHit(ts, k).Some? {
      var t := LevelHitSome(ts, k);
      assert t in rest;
      LevelHitMember(rest, t, k);
    } else {
      LevelMiss(ts, k);
    }
  }

  lemma {:induction false} One(t: Table, k: Key)
    ensures LevelHit([t], k) == Hit(t.entries, k)
  {
    assert Runs([t]) == [t.entries];
    assert FirstHit([], k).None?;
    assert Runs([t])[1..] == [];
  }

  lemma {:induction false} DeepHitAround(ls: seq<Level>, l: nat, k: Key)
    requires 1 <= l < |ls| - 1
    ensures DeepHit(ls[1..], k) ==
            Over(DeepHit(ls[1..l], k),
                 Over(Over(LevelHit(ls[l], k), LevelHit(ls[l + 1], k)), DeepHit(ls[l + 2..], k)))
  {
    assert ls[1..] == ls[1..l] + ls[l..];
    DeepHitAppend(ls[1..l], ls[l..], k);
    assert ls[l..][1..] == ls[l + 1..] && ls[l + 1..][1..] == ls[l + 2..];
  }

  /** compactLevel preserves every read, whatever has been flushed to L0 in the meantime, and
      keeps the files of each deeper level disjoint. */
  lemma {:induction false} LevelCompactionPreserves(ls: seq<Level>, l: nat, outs: Level)
    requires LevelsOk(ls) && 1 <= l < |ls| - 1 && |ls[l]| > 0
    requires MergesDown([ls[l][0]], ls[l + 1], MinKey(ls[l][0]), MaxKey(ls[l][0]), outs)
    ensures LevelsOk(LevelCompacted(ls, l, outs))
    ensures forall k :: StoreHit(LevelCompacted(ls, l, outs), k) == StoreHit(ls, k)
  {
    hide MergesDown;
    var src := ls[l][0];
    var ls' := LevelCompacted(ls, l, outs);
    var lo, hi := MinKey(src), MaxKey(src);
    PushedShape([src], ls[l + 1], lo, hi, outs);
    TakenOut(ls[l], src, []);
    forall k
      ensures StoreHit(ls', k) == StoreHit(ls, k)
    {
      TakenOut(ls[l], src, k);
      PushedHit([src], ls[l + 1], lo, hi, outs, k);
      DeepHitAround(ls, l, k);
      DeepHitAround(ls', l, k);
      assert ls'[1..l] == ls[1..l] && ls'[l + 2..] == ls[l + 2..];
    }
  }

  // ---------- compactL0 ----------

  /** The levels after the first `n` files of L0, with keys in [lo, hi], went down as `outs`. */
  function L0Compacted(ls: seq<Level>, n: nat, lo: Key, hi: Key, outs: Level): (r: seq<Level>)
    requires |ls| >= 2 && n <= |ls[0]|
  {
    ls[0 := Without(ls[0], Nums(ls[0][..n]))][1 := Pushed(ls[1], lo, hi, outs)]
  }

  lemma {:induction false} WithoutFirst(ts: Level, n: nat, gone: set<nat>)
    requires n <= |ts|
    requires forall i :: 0 <= i < |ts| ==> (ts[i].num in gone <==> i < n)
    ensures Without(ts, gone) == ts[n..]
  {
    if ts != [] {
      WithoutFirst(ts[1..], if n > 0 then n - 1 else 0, gone);
      assert n == 0 ==> ts == [ts[0]] + ts[1..];
    }
  }

  ghost predicate DistinctNums(ts: Level)
  {
    forall i, j :: 0 <= i < j < |ts| ==> ts[i].num != ts[j].num
  }

  /** The files flushed since: all the others, since numbers are not reused. */
  lemma {:induction false} NewerRemain(ts: Level, n: nat)
    requires n <= |ts| && DistinctNums(ts)
    ensures Without(ts, Nums(ts[..n])) == ts[n..]
  {
    var gone := Nums(ts[..n]);
    forall i | 0 <= i < |ts|
      ensures ts[i].num in gone <==> i < n
    {
      if i < n {
        assert ts[..n][i] == ts[i];
        assert ts[i] in ts[..n];
      } else {
        OtherNums(ts, n, i);
      }
    }
    WithoutFirst(ts, n, gone);
  }

  lemma {:induction false} OtherNums(ts: Level, n: nat, i: nat)
    requires n <= i < |ts| && DistinctNums(ts)
    ensures ts[i].num !in Nums(ts[..n])
  {
    forall t | t in ts[..n]
      ensures t.num != ts[i].num
    {
      var j :| 0 <= j < |ts[..n]| && ts[..n][j] == t;
    }
  }

  lemma {:induction false} NewestFirst(ts: Level, n: nat, k: Key)
    requires n <= |ts|
    ensures LevelHit(Reversed(ts), k) == Over(LevelHit(Reversed(ts[n..]), k), LevelHit(Reversed(ts[..n]), k))
  {
    assert Runs(Reversed(ts)) == Runs(Reversed(ts[n..])) + Runs(Reversed(ts[..n]));
    FirstHitAppend(Runs(Reversed(ts[n..])), Runs(Reversed(ts[..n])), k);
  }

  ghost predicate L0Ok(ls: seq<Level>)
  {
    LevelsOk(ls) && DistinctNums(ls[0])
  }

  /** A read after the compaction: files flushed since, then the merged files with the precedence
      they were merged with, then what was below. */
  lemma {:induction false} L0CompactedHit(ls: seq<Level>, n: nat, srcs: Level, lo: Key, hi: Key, outs: Level, k: Key)
    requires L0Ok(ls) && n <= |ls[0]| && MergesDown(srcs, ls[1], lo, hi, outs)
    ensures StoreHit(L0Compacted(ls, n, lo, hi, outs), k) ==
            Over(LevelHit(Reversed(ls[0][n..]), k), Over(LevelHit(srcs, k), DeepHit(ls[1..], k)))
    ensures StoreHit(ls, k) ==
            Over(LevelHit(Reversed(ls[0][n..]), k), Over(LevelHit(Reversed(ls[0][..n]), k), DeepHit(ls[1..], k)))
  {
    hide MergesDown;
    var ls' := L0Compacted(ls, n, lo, hi, outs);
    NewerRemain(ls[0], n);
    PushedHit(srcs, ls[1], lo, hi, outs, k);
    NewestFirst(ls[0], n, k);
    assert ls'[1..][0] == ls'[1] && ls[1..][0] == ls[1];
    assert ls'[1..][1..] == ls[1..][1..];
  }

  lemma {:induction false} L0CompactedShape(ls: seq<Level>, n: nat, srcs: Level, lo: Key, hi: Key, outs: Level)
    requires L0Ok(ls) && n <= |ls[0]| && MergesDown(srcs, ls[1], lo, hi, outs)
    ensures L0Ok(L0Compacted(ls, n, lo, hi, outs))
  {
    hide MergesDown;
    NewerRemain(ls[0], n);
    PushedShape(srcs, ls[1], lo, hi, outs);
  }

  /** With the newest file taking precedence, compactL0 would preserve every read. */
  lemma {:induction false} NewestFirstPreserves(ls: seq<Level>, n: nat, lo: Key, hi: Key, outs: Level)
    requires L0Ok(ls) && n <= |ls[0]| && MergesDown(Reversed(ls[0][..n]), ls[1], lo, hi, outs)
    ensures forall k :: StoreHit(L0Compacted(ls, n, lo, hi, outs), k) == StoreHit(ls, k)
  {
    hide MergesDown;
    forall k
      ensures StoreHit(L0Compacted(ls, n, lo, hi, outs), k) == StoreHit(ls, k)
    {
      L0CompactedHit(ls, n, Reversed(ls[0][..n]), lo, hi, outs, k);
    }
  }

  /** For every key not in a file flushed since, the oldest and the newest merged file that have
      the key agree on it. */
  ghost predicate OldestAgrees(ls: seq<Level>, n: nat)
    requires |ls| > 0 && n <= |ls[0]|
  {
    forall k :: LevelHit(Reversed(ls[0][n..]), k).Some?
                || LevelHit(ls[0][..n], k) == LevelHit(Reversed(ls[0][..n]), k)
  }

  lemma {:induction false} SameFiles(ts: Level, k: Key)
    ensures LevelHit(ts, k).Some? <==> LevelHit(Reversed(ts), k).Some?
  {
    LevelMiss(ts, k);
    LevelMiss(Reversed(ts), k);
    forall t | t in ts
      ensures t in Reversed(ts)
    {
      var i :| 0 <= i < |ts| && ts[i] == t;
      assert Reversed(ts)[|ts| - 1 - i] == t;
    }
  }

  /** With the numbers the code gives (file i of the slice gets number i, and the lowest number
      wins), compactL0 preserves every Get exactly when the oldest merged file with a key agrees
      with the newest one. */
  lemma {:induction false} L0CompactionExact(ls: seq<Level>, n: nat, lo: Key, hi: Key, outs: Level)
    requires L0Ok(ls) && n <= |ls[0]| && MergesDown(ls[0][..n], ls[1], lo, hi, outs)
    ensures (forall k :: Visible(StoreHit(L0Compacted(ls, n, lo, hi, outs), k)) == Visible(StoreHit(ls, k)))
            <==> OldestAgrees(ls, n)
    ensures OldestAgrees(ls, n) ==>
              forall k :: StoreHit(L0Compacted(ls, n, lo, hi, outs), k) == StoreHit(ls, k)
  {
    hide MergesDown;
    var ls' := L0Compacted(ls, n, lo, hi, outs);
    forall k
      ensures OldestAgrees(ls, n) ==> StoreHit(ls', k) == StoreHit(ls, k)
      ensures Visible(StoreHit(ls', k)) == Visible(StoreHit(ls, k)) ==>
                LevelHit(Reversed(ls[0][n..]), k).Some?
                || LevelHit(ls[0][..n], k) == LevelHit(Reversed(ls[0][..n]), k)
    {
      L0CompactedHit(ls, n, ls[0][..n], lo, hi, outs, k);
      SameFiles(ls[0][..n], k);
    }
  }

  /** The key written twice comes back with its first value. */
  lemma {:induction false} L0CompactionLosesAWrite(a: Value, b: Value)
    requires a != b
    ensures var k: Key := [];
            var ls := [[Table(1, [Entry(k, Some(a))]), Table(2, [Entry(k, Some(b))])], []];
            var outs := [Table(3, [Entry(k, Some(a))])];
            && L0Ok(ls) && MergesDown(ls[0], ls[1], k, k, outs)
            && Visible(StoreHit(ls, k)) == Some(b)
            && Visible(StoreHit(L0Compacted(ls, 2, k, k, outs), k)) == Some(a)
  {
    var k: Key := [];
    var t1, t2 := Table(1, [Entry(k, Some(a))]), Table(2, [Entry(k, Some(b))]);
    var ls: seq<Level> := [[t1, t2], []];
    var outs := [Table(3, [Entry(k, Some(a))])];
    assert Overlapping(ls[1], k, k) == [];
    assert Flat(outs) == outs[0].entries + Flat(outs[1..]);
    assert Flat(outs) == outs[0].entries;
    forall q
      ensures Hit(Flat(outs), q) == FirstHit(Runs(ls[0]) + Runs([]), q)
    {
      assert Runs(ls[0]) + Runs([]) == [t1.entries, t2.entries];
      assert [t1.entries, t2.entries][1..] == [t2.entries];
      assert [t2.entries][1..] == [];
      assert FirstHit([t2.entries], q) == Hit(t2.entries, q);
      assert t1.entries[1..] == [] && t2.entries[1..] == [];
      assert Hit([], q).None?;
    }
    assert ls[0][..2] == ls[0];
    L0CompactedHit(ls, 2, ls[0], k, k, outs, k);
    assert Reversed(ls[0][2..]) == [];
    assert LevelHit([], k).None?;
    assert Runs(ls[0])[0] == t1.entries;
    assert Runs(Reversed(ls[0]))[0] == t2.entries;
  }
}
