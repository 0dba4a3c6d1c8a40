/** Finding the files of a level by key range: findOverlapping and findSSTableForKey, which look in
    the manifest's metadata and match a reader to it by its range. */
module TableSearch {
  import opened Prelude
  import opened Keys
  import opened Tables
  import opened Compaction

  datatype Meta = Meta(num: nat, minKey: Key, maxKey: Key)

  function MetaOf(t: Table): (r: Meta)
  {
    Meta(t.num, MinKey(t), MaxKey(t))
  }

  function MetasOf(ts: Level): (r: seq<Meta>)
    ensures |r| == |ts| && forall i :: 0 <= i < |ts| ==> r[i] == MetaOf(ts[i])
  {
    seq(|ts|, i requires 0 <= i < |ts| => MetaOf(ts[i]))
  }

  /** In a level without overlaps the range identifies the file. */
  lemma {:induction false} RangeIdentifies(ts: Level, a: Table, b: Table)
    requires TablesOk(ts) && Disjoint(ts) && a in ts && b in ts && MinKey(a) == MinKey(b)
    ensures a == b
  {
    assert TableOk(a) && TableOk(b);
    assert a != b ==> Apart(a, b);
  }

  /** The first reader with the range of the metadata. */
  method ReaderFor(readers: Level, m: Meta) returns (r: Option<Table>)
    ensures r.Some? ==> r.value in readers && MinKey(r.value) == m.minKey && MaxKey(r.value) == m.maxKey
    ensures r.None? ==> forall t :: t in readers ==> MinKey(t) != m.minKey || MaxKey(t) != m.maxKey
  {
    for i := 0 to |readers|
      invariant forall t :: t in readers[..i] ==> MinKey(t) != m.minKey || MaxKey(t) != m.maxKey
    {
      if MinKey(readers[i]) == m.minKey && MaxKey(readers[i]) == m.maxKey {
        return Some(readers[i]);
      }
    }
    assert readers[..|readers|] == readers;
    return None;
  }

  lemma {:induction false} OverlappingNothing(lo: Key, hi: Key)
    ensures Overlapping([], lo, hi) == []
  {
  }

  lemma {:induction false} OverlappingAppend(ts: Level, t: Table, lo: Key, hi: Key)
    ensures Overlapping(ts + [t], lo, hi) == Overlapping(ts, lo, hi) + (if Overlaps(t, lo, hi) then [t] else [])
  {
    if ts == [] {
      assert ts + [t] == [t];
      assert [t][1..] == [];
    } else {
      assert (ts + [t])[1..] == ts[1..] + [t];
      OverlappingAppend(ts[1..], t, lo, hi);
    }
  }

  /** findOverlapping: exactly the files that meet the range, with their metadata. */
  method FindOverlapping(readers: Level, metas: seq<Meta>, lo: Key, hi: Key)
    returns (found: Level, foundMetas: seq<Meta>)
    requires TablesOk(readers) && Disjoint(readers) && metas == MetasOf(readers)
    ensures found == Overlapping(readers, lo, hi) && foundMetas == MetasOf(found)
    ensures forall t :: t in found <==> t in readers && Rank(MinKey(t)) <= Rank(hi) && Rank(lo) <= Rank(MaxKey(t))
  {
    hide Disjoint;
    hide TablesOk;
    hide Overlapping;
    hide MetasOf;
    hide Rank;
    found, foundMetas := [], [];
    OverlappingNothing(lo, hi);
    for i := 0 to |metas|
      invariant found == Overlapping(readers[..i], lo, hi) && foundMetas == MetasOf(found)
    {
      OverlappingAppend(readers[..i], readers[i], lo, hi);
      assert readers[..i] + [readers[i]] == readers[..i + 1];
      if Compare(metas[i].minKey, hi) > 0 || Compare(metas[i].maxKey, lo) < 0 {
        continue;
      }
      var r := ReaderFor(readers, metas[i]);
      assert readers[i] in readers;
      if r.Some? {
        RangeIdentifies(readers, r.value, readers[i]);
        found, foundMetas := found + [r.value], foundMetas + [metas[i]];
      }
    }
    assert readers[..|readers|] == readers;
  }

  // ---------- one file for one key ----------

  ghost predicate Covers(t: Table, k: Key)
  {
    Rank(MinKey(t)) <= Rank(k) <= Rank(MaxKey(t))
  }

  ghost predicate HasMeta(ts: Level, m: Meta)
  {
    exists t :: t in ts && MetaOf(t) == m
  }

  ghost predicate ByMinKey(ms: seq<Meta>)
  {
    forall i, j :: 0 <= i < j < |ms| ==> Rank(ms[i].minKey) <= Rank(ms[j].minKey)
  }

  lemma {:induction false} NoneByMinKey()
    ensures ByMinKey([])
  {
  }

  lemma {:induction false} InsertedAt(r: seq<Meta>, j: nat, m: Meta)
    requires ByMinKey(r) && j <= |r|
    requires (forall x :: j <= x < |r| ==> Rank(r[x].minKey) > Rank(m.minKey))
             && (j > 0 ==> Rank(r[j - 1].minKey) <= Rank(m.minKey))
    ensures ByMinKey(r[..j] + [m] + r[j..])
  {
    hide Rank;
    var r' := r[..j] + [m] + r[j..];
    forall a, b | 0 <= a < b < |r'|
      ensures Rank(r'[a].minKey) <= Rank(r'[b].minKey)
    {
      assert r'[a] == if a < j then r[a] else if a == j then m else r[a - 1];
      assert r'[b] == if b < j then r[b] else if b == j then m else r[b - 1];
    }
  }

  lemma {:induction false} InsertedMembers(r: seq<Meta>, j: nat, m: Meta)
    requires j <= |r|
    ensures forall x :: x in r[..j] + [m] + r[j..] <==> x in r || x == m
  {
    assert r == r[..j] + r[j..];
  }

  /** sort.Slice on the metadata: by smallest key, nothing lost. */
  method SortByMinKey(metas: seq<Meta>) returns (r: seq<Meta>)
    ensures ByMinKey(r) && |r| == |metas| && forall m :: m in r <==> m in metas
  {
    hide ByMinKey;
    hide Rank;
    NoneByMinKey();
    r := [];
    for i := 0 to |metas|
      invariant ByMinKey(r) && |r| == i && forall m :: m in r <==> m in metas[..i]
    {
      var j: nat := |r|;
      while j > 0 && Compare(r[j - 1].minKey, metas[i].minKey) > 0
        invariant 0 <= j <= |r| && forall x :: j <= x < |r| ==> Rank(r[x].minKey) > Rank(metas[i].minKey)
      {
        j := j - 1;
      }
      InsertedAt(r, j, metas[i]);
      InsertedMembers(r, j, metas[i]);
      assert metas[..i + 1] == metas[..i] + [metas[i]];
      r := r[..j] + [metas[i]] + r[j..];
    }
    assert metas[..|metas|] == metas;
  }

  /** sort.Search for the first metadata whose smallest key is beyond the key. */
  method FirstBeyond(ms: seq<Meta>, key: Key) returns (n: nat)
    requires ByMinKey(ms)
    ensures n <= |ms| && (forall i :: 0 <= i < n ==> Rank(ms[i].minKey) <= Rank(key))
    ensures forall i :: n <= i < |ms| ==> Rank(ms[i].minKey) > Rank(key)
  {
    var i, j := 0, |ms|;
    while i < j
      invariant 0 <= i <= j <= |ms|
      invariant forall x :: 0 <= x < i ==> Rank(ms[x].minKey) <= Rank(key)
      invariant forall x :: j <= x < |ms| ==> Rank(ms[x].minKey) > Rank(key)
    {
      var h := (i + j) / 2;
      if Compare(ms[h].minKey, key) <= 0 {
        i := h + 1;
      } else {
        j := h;
      }
    }
    n := i;
  }

  /** The only file that can hold the key is the last one that does not begin after it. */
  lemma {:induction false} OnlyCandidate(ts: Level, ms: seq<Meta>, n: nat, key: Key, t: Table)
    requires TablesOk(ts) && Disjoint(ts) && ByMinKey(ms) && n <= |ms| && t in ts && Covers(t, key)
    requires forall i :: 0 <= i < |ms| ==> HasMeta(ts, ms[i])
    requires MetaOf(t) in ms
    requires (forall i :: 0 <= i < n ==> Rank(ms[i].minKey) <= Rank(key)) && forall i :: n <= i < |ms| ==>
               Rank(ms[i].minKey) > Rank(key)
    ensures n > 0 && ms[n - 1] == MetaOf(t)
  {
    hide RankFrom;
    var i :| 0 <= i < |ms| && ms[i] == MetaOf(t);
    assert HasMeta(ts, ms[n - 1]);
    var u :| u in ts && MetaOf(u) == ms[n - 1];
    if u != t {
      assert TableOk(u) && TableOk(t) && Apart(t, u);
      assert Rank(MinKey(u)) <= Rank(MaxKey(u));
    }
  }

  /** MinKey and MaxKey of a reader, which are nil for a file without entries. */
  datatype Ends = Ends(min: Option<Key>, max: Option<Key>)

  ghost predicate EndsAre(ends: seq<Ends>, ts: Level)
  {
    |ends| == |ts| && forall i :: 0 <= i < |ts| ==> ends[i] == Ends(Some(MinKey(ts[i])), Some(MaxKey(ts[i])))
  }

  /** findSSTableForKey: the place of the file that decides about the key, or none if no file does. */
  method FindTableForKey(ends: seq<Ends>, metas: seq<Meta>, key: Key, ghost ts: Level) returns (r: Option<nat>)
    requires TablesOk(ts) && Disjoint(ts) && metas == MetasOf(ts) && EndsAre(ends, ts)
    ensures r.Some? ==> r.value < |ts| && Covers(ts[r.value], key)
    ensures r.None? ==> forall t :: t in ts ==> !Covers(t, key)
  {
    if |ends| == 0 || |metas| == 0 {
      return None;
    }
    var ms := SortByMinKey(metas);
    SortedMetas(ts, metas, ms);
    var n := FirstBeyond(ms, key);
    forall t | t in ts && Covers(t, key)
      ensures n > 0 && ms[n - 1] == MetaOf(t)
    {
      OnlyCandidate(ts, ms, n, key, t);
    }
    if n == 0 || Compare(key, ms[n - 1].maxKey) > 0 {
      return None;
    }
    r := EndsFor(ends, ms[n - 1], ts);
    if r.None? {
      r := FirstCovering(ends, key, ts);
    }
  }

  /** The first reader whose keys are those of the metadata. */
  method EndsFor(ends: seq<Ends>, m: Meta, ghost ts: Level) returns (r: Option<nat>)
    requires EndsAre(ends, ts)
    ensures r.Some? ==> r.value < |ts| && MinKey(ts[r.value]) == m.minKey && MaxKey(ts[r.value]) == m.maxKey
  {
    for i := 0 to |ends|
    {
      if ends[i].min.Some? && ends[i].max.Some? {
        if ends[i].min.value == m.minKey && ends[i].max.value == m.maxKey {
          return Some(i);
        }
      }
    }
    return None;
  }

  lemma {:induction false} SortedMetas(ts: Level, metas: seq<Meta>, ms: seq<Meta>)
    requires metas == MetasOf(ts) && forall m :: m in ms <==> m in metas
    ensures forall i :: 0 <= i < |ms| ==> HasMeta(ts, ms[i])
    ensures forall t :: t in ts ==> MetaOf(t) in ms
  {
    forall i | 0 <= i < |ms|
      ensures HasMeta(ts, ms[i])
    {
      assert ms[i] in metas;
      var j :| 0 <= j < |metas| && metas[j] == ms[i];
      assert ts[j] in ts && MetaOf(ts[j]) == ms[i];
    }
    forall t | t in ts
      ensures MetaOf(t) in ms
    {
      var j :| 0 <= j < |ts| && ts[j] == t;
      assert metas[j] in ms;
    }
  }

  /** The linear search findSSTableForKey falls back on. */
  method FirstCovering(ends: seq<Ends>, key: Key, ghost ts: Level) returns (r: Option<nat>)
    requires EndsAre(ends, ts)
    ensures r.Some? ==> r.value < |ts| && Covers(ts[r.value], key)
    ensures r.None? ==> forall t :: t in ts ==> !Covers(t, key)
  {
    for i := 0 to |ends|
      invariant forall j :: 0 <= j < i ==> !Covers(ts[j], key)
    {
      if ends[i].min.None? || ends[i].max.None? {
        continue;
      }
      if Compare(key, ends[i].min.value) >= 0 && Compare(key, ends[i].max.value) <= 0 {
        return Some(i);
      }
    }
    return None;
  }

  /** Asking that one file is asking the level. */
  lemma {:induction false} CandidateDecides(ts: Level, r: Option<nat>, k: Key)
    requires TablesOk(ts) && Disjoint(ts)
    requires r.Some? ==> r.value < |ts| && Covers(ts[r.value], k)
    requires r.None? ==> forall t :: t in ts ==> !Covers(t, k)
    ensures LevelHit(ts, k) == if r.None? then None else Hit(ts[r.value].entries, k)
  {
    if LevelHit(ts, k).Some? {
      var t := LevelHitSome(ts, k);
      assert TableOk(t);
      HitInRange(t, k);
      assert Covers(t, k);
      assert t != ts[r.value] ==> Apart(t, ts[r.value]);
    } else {
      LevelMiss(ts, k);
    }
  }
}
