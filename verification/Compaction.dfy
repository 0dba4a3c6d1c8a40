/** The levels of SSTables and their compaction (engine/compaction.go), as values. */
module Compaction {
  import opened Prelude
  import opened Keys
  import opened Tables

  /** An SSTable: its file number and its entries. */
  datatype Table = Table(num: nat, entries: EntryList)

  type Level = seq<Table>

  ghost predicate TableOk(t: Table)
  {
    |t.entries| > 0 && Sorted(t.entries)
  }

  function MinKey(t: Table): (r: Key)
  {
    if |t.entries| == 0 then [] else t.entries[0].key
  }

  function MaxKey(t: Table): (r: Key)
  {
    if |t.entries| == 0 then [] else t.entries[|t.entries| - 1].key
  }

  ghost predicate TablesOk(ts: Level)
  {
    forall t :: t in ts ==> TableOk(t)
  }

  function Runs(ts: Level): (r: seq<EntryList>)
    ensures |r| == |ts| && forall i :: 0 <= i < |ts| ==> r[i] == ts[i].entries
  {
    seq(|ts|, i requires 0 <= i < |ts| => ts[i].entries)
  }

  function Reversed<T>(s: seq<T>): (r: seq<T>)
    ensures |r| == |s| && forall i :: 0 <= i < |s| ==> r[i] == s[|s| - 1 - i]
  {
    seq(|s|, i requires 0 <= i < |s| => s[|s| - 1 - i])
  }

  function LevelHit(ts: Level, k: Key): (r: Finding)
  {
    FirstHit(Runs(ts), k)
  }

  function DeepHit(ls: seq<Level>, k: Key): (r: Finding)
  {
    if ls == [] then None else Over(LevelHit(ls[0], k), DeepHit(ls[1..], k))
  }

  /** What the tables say about a key: the newest L0 file first, then level by level. */
  function StoreHit(ls: seq<Level>, k: Key): (r: Finding)
    requires |ls| > 0
  {
    Over(LevelHit(Reversed(ls[0]), k), DeepHit(ls[1..], k))
  }

  ghost predicate Apart(a: Table, b: Table)
  {
    Rank(MaxKey(a)) < Rank(MinKey(b)) || Rank(MaxKey(b)) < Rank(MinKey(a))
  }

  ghost predicate Disjoint(ts: Level)
  {
    forall a, b :: a in ts && b in ts && a != b ==> Apart(a, b)
  }

  // ---------- findings in one table and in one level ----------

  lemma {:induction false} HitInRange(t: Table, k: Key)
    requires TableOk(t) && Hit(t.entries, k).Some?
    ensures Rank(MinKey(t)) <= Rank(k) <= Rank(MaxKey(t))
  {
    var i := HitWitness(t.entries, k);
  }

  lemma {:induction false} ApartMiss(a: Table, b: Table, k: Key)
    requires TableOk(a) && TableOk(b) && Apart(a, b) && Hit(a.entries, k).Some?
    ensures Hit(b.entries, k).None?
  {
    HitInRange(a, k);
    if Hit(b.entries, k).Some? {
      HitInRange(b, k);
    }
  }

  /** In a level without overlaps the file that has the key decides, wherever it stands. */
  lemma {:induction false} LevelHitMember(ts: Level, t: Table, k: Key)
    requires TablesOk(ts) && Disjoint(ts) && t in ts && Hit(t.entries, k).Some?
    ensures LevelHit(ts, k) == Hit(t.entries, k)
  {
    var i :| 0 <= i < |ts| && ts[i] == t;
    FirstHitNone(Runs(ts), k);
    assert Runs(ts)[i] == t.entries;
    var j := FirstHitWitness(Runs(ts), k);
    if ts[i] != ts[j] {
      ApartMiss(ts[i], ts[j], k);
    }
  }

  lemma {:induction false} LevelMiss(ts: Level, k: Key)
    ensures LevelHit(ts, k).None? <==> forall t :: t in ts ==> Hit(t.entries, k).None?
  {
    FirstHitNone(Runs(ts), k);
    if LevelHit(ts, k).None? {
      forall t | t in ts
        ensures Hit(t.entries, k).None?
      {
        var i :| 0 <= i < |ts| && ts[i] == t;
        assert Runs(ts)[i] == t.entries;
      }
    } else {
      var i :| 0 <= i < |Runs(ts)| && Hit(Runs(ts)[i], k).Some?;
      assert ts[i] in ts;
    }
  }

  lemma {:induction false} LevelHitSome(ts: Level, k: Key) returns (t: Table)
    requires LevelHit(ts, k).Some?
    ensures t in ts && Hit(t.entries, k) == LevelHit(ts, k)
  {
    var i := FirstHitWitness(Runs(ts), k);
    t := ts[i];
  }

  lemma {:induction false} DeepHitAppend(a: seq<Level>, b: seq<Level>, k: Key)
    ensures DeepHit(a + b, k) == Over(DeepHit(a, k), DeepHit(b, k))
  {
    if a == [] {
      assert a + b == b;
    } else {
      assert (a + b)[1..] == a[1..] + b;
      DeepHitAppend(a[1..], b, k);
    }
  }

  // ---------- selecting ----------

  /** removeReaders: all but the given files, in order. */
  function Without(ts: Level, gone: set<nat>): (r: Level)
    ensures forall t :: t in r <==> t in ts && t.num !in gone
  {
    if ts == [] then []
    else
      assert ts == [ts[0]] + ts[1..];
      if ts[0].num in gone then Without(ts[1..], gone)
      else [ts[0]] + Without(ts[1..], gone)
  }

  predicate Overlaps(t: Table, lo: Key, hi: Key)
  {
    !(Compare(MinKey(t), hi) > 0 || Compare(MaxKey(t), lo) < 0)
  }

  /** findOverlapping: the files whose range meets [lo, hi], in order. */
  function Overlapping(ts: Level, lo: Key, hi: Key): (r: Level)
    ensures forall t :: t in r <==> t in ts && Overlaps(t, lo, hi)
  {
    if ts == [] then []
    else
      assert ts == [ts[0]] + ts[1..];
      if Overlaps(ts[0], lo, hi) then [ts[0]] + Overlapping(ts[1..], lo, hi)
      else Overlapping(ts[1..], lo, hi)
  }

  function Nums(ts: Level): (r: set<nat>)
  {
    set t | t in ts :: t.num
  }

  function Flat(ts: Level): (r: EntryList)
  {
    if ts == [] then [] else ts[0].entries + Flat(ts[1..])
  }

  lemma {:induction false} FlatHit(ts: Level, k: Key)
    ensures Hit(Flat(ts), k) == LevelHit(ts, k)
  {
    if ts != [] {
      FlatHit(ts[1..], k);
      HitAppend(ts[0].entries, Flat(ts[1..]), k);
      assert Runs(ts)[1..] == Runs(ts[1..]);
    } else {
      assert Runs(ts) == [];
    }
  }

  // ---------- the shape of the levels ----------

  /** Every table is sorted and not empty, and no file number stands for two tables of a level. */
  ghost predicate LevelOk(ts: Level)
  {
    TablesOk(ts) && forall a, b :: a in ts && b in ts && a.num == b.num ==> a == b
  }

  ghost predicate LevelsOk(ls: seq<Level>)
  {
    && |ls| >= 2
    && (forall i :: 0 <= i < |ls| ==> LevelOk(ls[i]))
    && (forall i :: 1 <= i < |ls| ==> Disjoint(ls[i]))
  }

  /** The new tables of a compaction: not empty, and in order they hold the merged stream. */
  ghost predicate Splits(outs: Level, stream: EntryList)
  {
    Flat(outs) == stream && forall t :: t in outs ==> |t.entries| > 0
  }

  lemma {:induction false} FlatMember(ts: Level, j: nat, p: nat) returns (q: nat)
    requires j < |ts| && p < |ts[j].entries|
    ensures q < |Flat(ts)| && Flat(ts)[q] == ts[j].entries[p]
  {
    var e := ts[0].entries;
    if j == 0 {
      q := p;
    } else {
      assert ts[1..][j - 1] == ts[j];
      q := FlatMember(ts[1..], j - 1, p);
      assert (e + Flat(ts[1..]))[|e| + q] == Flat(ts[1..])[q];
      q := |e| + q;
    }
  }

  lemma {:induction false} HeadApart(outs: Level, b: Table)
    requires outs != [] && Splits(outs, Flat(outs)) && Sorted(Flat(outs)) && b in outs[1..]
    ensures Apart(outs[0], b) && Apart(b, outs[0])
  {
    hide RankFrom;
    var e, f := outs[0].entries, Flat(outs[1..]);
    var j :| 0 <= j < |outs[1..]| && outs[1..][j] == b;
    assert outs[0] in outs && b in outs;
    var q := FlatMember(outs[1..], j, 0);
    assert Flat(outs)[|e| - 1] == e[|e| - 1] && Flat(outs)[|e| + q] == f[q];
  }

  /** Tables split from one strictly increasing stream are sorted and pairwise apart. */
  lemma {:induction false} SplitsDisjoint(outs: Level, stream: EntryList)
    requires Splits(outs, stream) && Sorted(stream)
    ensures TablesOk(outs) && Disjoint(outs)
  {
    hide Apart;
    if outs != [] {
      var e, f := outs[0].entries, Flat(outs[1..]);
      assert outs == [outs[0]] + outs[1..];
      assert stream[0..0 + |e|] == e && stream[|e|..|e| + |f|] == f;
      SliceSorted(stream, 0, e);
      SliceSorted(stream, |e|, f);
      hide Sorted;
      SplitsDisjoint(outs[1..], f);
      forall b | b in outs[1..]
        ensures Apart(outs[0], b) && Apart(b, outs[0])
      {
        HeadApart(outs, b);
      }
    }
  }

  lemma {:induction false} SliceSorted(s: EntryList, at: nat, e: EntryList)
    requires Sorted(s) && at + |e| <= |s| && s[at..at + |e|] == e
    ensures Sorted(e)
  {
    forall i, j | 0 <= i < j < |e|
      ensures Rank(e[i].key) < Rank(e[j].key)
    {
      assert e[i] == s[at + i] && e[j] == s[at + j];
    }
  }

  // ---------- pushing tables down one level ----------

  /** The target level after `srcs`, whose keys lie in [lo, hi], were merged into it as `outs`. */
  function Pushed(ts: Level, lo: Key, hi: Key, outs: Level): (r: Level)
  {
    Without(ts, Nums(Overlapping(ts, lo, hi))) + outs
  }

  /** `outs` come from merging `srcs`, in order of precedence, with the overlapping targets. */
  ghost predicate MergesDown(srcs: Level, ts: Level, lo: Key, hi: Key, outs: Level)
  {
    && TablesOk(srcs)
    && (forall s :: s in srcs ==> Rank(lo) <= Rank(MinKey(s)) && Rank(MaxKey(s)) <= Rank(hi))
    && Splits(outs, Flat(outs))
    && IsMerge(Runs(srcs) + Runs(Overlapping(ts, lo, hi)), Flat(outs))
    && (forall o, t :: o in outs && t in ts ==> o.num != t.num)
    && (forall o, o' :: o in outs && o' in outs && o.num == o'.num ==> o == o')
  }

  lemma {:induction false} UnselectedIff(ts: Level, lo: Key, hi: Key, t: Table)
    requires LevelOk(ts) && t in ts
    ensures t in Without(ts, Nums(Overlapping(ts, lo, hi))) <==> !Overlaps(t, lo, hi)
  {
    var sel := Overlapping(ts, lo, hi);
    if Overlaps(t, lo, hi) {
      assert t in sel;
      assert t.num in Nums(sel);
    }
  }

  /** A key of the merged stream lies in the range of a source or of a selected target. */
  lemma {:induction false} StreamKey(srcs: Level, sel: Level, stream: EntryList, i: nat) returns (t: Table)
    requires TablesOk(srcs) && TablesOk(sel) && IsMerge(Runs(srcs) + Runs(sel), stream) && i < |stream|
    ensures t in srcs || t in sel
    ensures Rank(MinKey(t)) <= Rank(stream[i].key) <= Rank(MaxKey(t))
  {
    var k := stream[i].key;
    HitAt(stream, i);
    var all := srcs + sel;
    assert Runs(srcs) + Runs(sel) == Runs(all);
    assert FirstHit(Runs(all), k).Some?;
    t := LevelHitSome(all, k);
    HitInRange(t, k);
  }

  /** An unselected file stays clear of everything that is merged: the selected ranges and the
      source range form one interval. */
  lemma {:induction false} UnselectedApart(srcs: Level, ts: Level, lo: Key, hi: Key, outs: Level, u: Table, o: Table)
    requires LevelOk(ts) && Disjoint(ts) && MergesDown(srcs, ts, lo, hi, outs)
    requires u in ts && !Overlaps(u, lo, hi) && o in outs && TableOk(o)
    ensures Apart(u, o) && Apart(o, u)
  {
    hide Flat;
    hide IsMerge;
    hide RankFrom;
    hide Hit;
    hide Sorted;
    var sel := Overlapping(ts, lo, hi);
    var stream := Flat(outs);
    var j :| 0 <= j < |outs| && outs[j] == o;
    var a := FlatMember(outs, j, 0);
    var b := FlatMember(outs, j, |o.entries| - 1);
    var s := StreamKey(srcs, sel, stream, a);
    var t := StreamKey(srcs, sel, stream, b);
    UnselectedSide(srcs, ts, lo, hi, u, s);
    UnselectedSide(srcs, ts, lo, hi, u, t);
  }

  lemma {:induction false} UnselectedSide(srcs: Level, ts: Level, lo: Key, hi: Key, u: Table, t: Table)
    requires TablesOk(srcs) && LevelOk(ts) && Disjoint(ts) && u in ts && !Overlaps(u, lo, hi)
    requires forall s :: s in srcs ==> Rank(lo) <= Rank(MinKey(s)) && Rank(MaxKey(s)) <= Rank(hi)
    requires t in srcs || t in Overlapping(ts, lo, hi)
    ensures Rank(MaxKey(u)) < Rank(lo) ==> Rank(MaxKey(u)) < Rank(MinKey(t))
    ensures Rank(MinKey(u)) > Rank(hi) ==> Rank(MaxKey(t)) < Rank(MinKey(u))
  {
    if t !in srcs {
      assert Apart(u, t);
      assert TableOk(u) && TableOk(t);
    }
  }

  lemma {:induction false} SplitsSorted(srcs: Level, ts: Level, lo: Key, hi: Key, outs: Level)
    requires MergesDown(srcs, ts, lo, hi, outs)
    ensures Sorted(Flat(outs))
  {
  }

  lemma {:induction false} PushedShape(srcs: Level, ts: Level, lo: Key, hi: Key, outs: Level)
    requires LevelOk(ts) && Disjoint(ts) && MergesDown(srcs, ts, lo, hi, outs)
    ensures LevelOk(Pushed(ts, lo, hi, outs)) && Disjoint(Pushed(ts, lo, hi, outs))
  {
    hide Flat;
    hide IsMerge;
    hide RankFrom;
    hide Sorted;
    hide Apart;
    SplitsSorted(srcs, ts, lo, hi, outs);
    SplitsDisjoint(outs, Flat(outs));
    var kept := Without(ts, Nums(Overlapping(ts, lo, hi)));
    forall u, o | u in kept && o in outs
      ensures Apart(u, o) && Apart(o, u)
    {
      UnselectedIff(ts, lo, hi, u);
      UnselectedApart(srcs, ts, lo, hi, outs, u, o);
    }
  }

  /** The level afterwards says what the pushed tables said, and else what it said before. */
  lemma {:induction false} PushedHit(srcs: Level, ts: Level, lo: Key, hi: Key, outs: Level, k: Key)
    requires LevelOk(ts) && Disjoint(ts) && MergesDown(srcs, ts, lo, hi, outs)
    ensures LevelHit(Pushed(ts, lo, hi, outs), k) == Over(LevelHit(srcs, k), LevelHit(ts, k))
  {
    var sel := Overlapping(ts, lo, hi);
    var ts' := Pushed(ts, lo, hi, outs);
    PushedShape(srcs, ts, lo, hi, outs);
    FlatHit(outs, k);
    FirstHitAppend(Runs(srcs), Runs(sel), k);
    var found := Over(LevelHit(srcs, k), LevelHit(sel, k));
    assert LevelHit(outs, k) == found;
    if found.Some? {
      var o := LevelHitSome(outs, k);
      LevelHitMember(ts', o, k);
      if LevelHit(srcs, k).None? {
        var t := LevelHitSome(sel, k);
        LevelHitMember(ts, t, k);
      }
    } else {
      LevelMiss(sel, k);
      LevelMiss(outs, k);
      UnselectedHit(ts, lo, hi, outs, k);
    }
  }

  lemma {:induction false} UnselectedHit(ts: Level, lo: Key, hi: Key, outs: Level, k: Key)
    requires LevelOk(ts) && Disjoint(ts)
    requires LevelOk(Pushed(ts, lo, hi, outs)) && Disjoint(Pushed(ts, lo, hi, outs))
    requires LevelHit(Overlapping(ts, lo, hi), k).None? && LevelHit(outs, k).None?
    ensures LevelHit(Pushed(ts, lo, hi, outs), k) == LevelHit(ts, k)
  {
    var ts' := Pushed(ts, lo, hi, outs);
    LevelMiss(Overlapping(ts, lo, hi), k);
    LevelMiss(outs, k);
    if LevelHit(ts, k).Some? {
      var t := LevelHitSome(ts, k);
      UnselectedIff(ts, lo, hi, t);
      LevelHitMember(ts', t, k);
    } else {
      LevelMiss(ts, k);
      LevelMiss(ts', k);
    }
  }
}
