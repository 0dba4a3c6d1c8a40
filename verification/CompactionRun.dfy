/** How the two compactions produce their outputs: the key range, the overlapping files, the merge
    iterator with its numbers, and the splitting of its stream into files. */
module CompactionRun {
  import opened Prelude
  import opened Keys
  import opened Tables
  import opened Compaction
  import opened EngineMachine
  import opened MergeOrder
  import opened MergeIterators
  import opened TableSearch

  const TARGET_FILE_SIZE: nat := 2 * 1024 * 1024

  function ValueLength(e: Entry): (r: nat)
  {
    if e.value.Some? then |e.value.value| else 0
  }

  function Size(es: EntryList): (r: nat)
  {
    if es == [] then 0
    else Size(es[..|es| - 1]) + |es[|es| - 1].key| + ValueLength(es[|es| - 1]) + 9
  }

  /** The bytes of all keys, and of all values that are there. */
  ghost function KeyBytes(es: EntryList): (r: Bytes)
  {
    if es == [] then [] else es[0].key + KeyBytes(es[1..])
  }

  ghost function ValueBytes(es: EntryList): (r: Bytes)
  {
    if es == [] then []
    else if es[0].value.Some? then es[0].value.value + ValueBytes(es[1..])
    else ValueBytes(es[1..])
  }

  /** All keys and values together, and nine bytes an entry, are two mebibytes or more. */
  ghost predicate Reaches(es: EntryList)
  {
    |KeyBytes(es)| + |ValueBytes(es)| + 9 * |es| >= 0x20_0000
  }

  lemma {:induction false} BytesSnoc(es: EntryList)
    requires es != []
    ensures var n := |es| - 1;
            && |KeyBytes(es)| == |KeyBytes(es[..n])| + |es[n].key|
            && |ValueBytes(es)| == |ValueBytes(es[..n])| + if es[n].value.Some? then |es[n].value.value| else 0
  {
    var n := |es| - 1;
    if n == 0 {
      assert es[1..] == [] && es[..0] == [];
      assert KeyBytes([]) == [] && ValueBytes([]) == [];
    } else {
      BytesSnoc(es[1..]);
      assert es[1..][..n - 1] == es[..n][1..] && es[1..][n - 1] == es[n];
    }
  }

  lemma {:induction false} SizeReaches(es: EntryList)
    ensures Size(es) == |KeyBytes(es)| + |ValueBytes(es)| + 9 * |es|
    ensures Reaches(es) <==> Size(es) >= TARGET_FILE_SIZE
  {
    hide KeyBytes;
    hide ValueBytes;
    if es == [] {
      NoBytes();
    } else {
      SizeReaches(es[..|es| - 1]);
      BytesSnoc(es);
    }
  }

  lemma {:induction false} NoBytes()
    ensures KeyBytes([]) == [] && ValueBytes([]) == []
  {
  }

  /** A file is closed when, and only when, its entries reach the target. */
  ghost predicate WellSized(outs: Level)
  {
    && (forall i :: 0 <= i < |outs| - 1 ==> Reaches(outs[i].entries))
    && (forall i :: 0 <= i < |outs| && |outs[i].entries| > 0 ==>
          !Reaches(outs[i].entries[..|outs[i].entries| - 1]))
  }

  ghost predicate Numbered(outs: Level, first: nat)
  {
    forall i :: 0 <= i < |outs| ==> outs[i].num == first + i
  }

  lemma {:induction false} FlatAppend(ts: Level, t: Table)
    ensures Flat(ts + [t]) == Flat(ts) + t.entries
  {
    if ts == [] {
      assert ts + [t] == [t];
      assert [t][1..] == [];
      assert Flat([]) == [];
    } else {
      assert (ts + [t])[1..] == ts[1..] + [t];
      FlatAppend(ts[1..], t);
    }
  }

  /** Every closed file reached the target with its last entry. */
  ghost predicate Closed(outs: Level)
  {
    forall i :: 0 <= i < |outs| ==>
      && |outs[i].entries| > 0 && Size(outs[i].entries) >= TARGET_FILE_SIZE
      && Size(outs[i].entries[..|outs[i].entries| - 1]) < TARGET_FILE_SIZE
  }

  /** The closed files, the open one and what is still to come are the stream. */
  ghost predicate Progress(outs: Level, cur: EntryList, rest: EntryList, stream: EntryList, first: nat)
  {
    Flat(outs) + cur + rest == stream && Closed(outs) && Size(cur) < TARGET_FILE_SIZE && Numbered(outs, first)
  }

  lemma {:induction false} Begin(stream: EntryList, first: nat)
    ensures Progress([], [], stream, stream, first)
  {
    assert [] + [] + stream == stream;
  }

  lemma {:induction false} OneMore(outs: Level, cur: EntryList, rest: EntryList, stream: EntryList, first: nat)
    requires rest != [] && Progress(outs, cur, rest, stream, first)
    ensures var cur' := cur + [rest[0]];
            && Size(cur') == Size(cur) + |rest[0].key| + ValueLength(rest[0]) + 9
            && (if Size(cur') < TARGET_FILE_SIZE
                then Progress(outs, cur', rest[1..], stream, first)
                else Progress(outs + [Table(first + |outs|, cur')], [], rest[1..], stream, first))
  {
    hide Flat;
    var cur' := cur + [rest[0]];
    assert cur'[..|cur'| - 1] == cur;
    assert Size([]) == 0;
    assert Size(cur') == Size(cur) + |rest[0].key| + ValueLength(rest[0]) + 9;
    hide Size;
    hide ValueLength;
    var a := Flat(outs);
    assert a + cur + rest == a + cur' + rest[1..];
    FlatAppend(outs, Table(first + |outs|, cur'));
    assert a + cur' + [] == a + cur';
  }

  lemma {:induction false} End(outs: Level, cur: EntryList, stream: EntryList, first: nat)
    requires Progress(outs, cur, [], stream, first)
    ensures var all := if cur == [] then outs else outs + [Table(first + |outs|, cur)];
            Splits(all, stream) && WellSized(all) && Numbered(all, first)
  {
    hide Flat;
    hide Reaches;
    var t := Table(first + |outs|, cur);
    FlatAppend(outs, t);
    var a := Flat(outs);
    assert a + cur + [] == a + cur;
    if cur == [] {
      assert a + cur == a;
    } else {
      assert Size(cur[..|cur| - 1]) < Size(cur);
    }
    hide Size;
    var all := if cur == [] then outs else outs + [t];
    forall i | 0 <= i < |all|
      ensures i < |all| - 1 ==> Reaches(all[i].entries)
      ensures |all[i].entries| > 0 ==> !Reaches(all[i].entries[..|all[i].entries| - 1])
    {
      SizeReaches(all[i].entries);
      if |all[i].entries| > 0 {
        SizeReaches(all[i].entries[..|all[i].entries| - 1]);
      }
    }
  }

  /** writeCompactionOutput: the stream, cut into files in order. */
  method WriteCompactionOutput(mi: MergeIterator, nextNum: nat) returns (outs: Level, next: nat)
    requires mi.Inv()
    modifies mi
    ensures Splits(outs, old(mi.Stream())) && WellSized(outs)
    ensures Numbered(outs, nextNum) && next == nextNum + |outs|
  {
    hide Progress;
    hide Splits;
    hide WellSized;
    hide Numbered;
    hide Size;
    hide Merged;
    hide Loaded;
    hide Leads;
    hide Sources;
    hide Rests;
    outs, next := [], nextNum;
    var writer: Option<EntryList> := None;
    var num, size := 0, 0;
    ghost var stream, cur := mi.Stream(), [];
    Begin(stream, nextNum);
    var entry := mi.Current();
    while entry.Some?
      invariant mi.Inv() && (entry.None? <==> mi.Stream() == [])
      invariant entry.Some? ==> entry.value == mi.Stream()[0]
      invariant Progress(outs, cur, mi.Stream(), stream, nextNum)
      invariant writer == (if cur == [] then None else Some(cur))
      invariant next == nextNum + |outs| + |if cur == [] then [] else [num]|
      invariant cur != [] ==> size == Size(cur) && num == nextNum + |outs|
      decreases |mi.Stream()|
    {
      if writer.None? {
        num, next := next, next + 1;
        writer, size := Some([]), 0;
        EmptySize();
      }
      OneMore(outs, cur, mi.Stream(), stream, nextNum);
      var e := entry.value;
      writer := Some(writer.value + [e]);
      size := size + |e.key| + ValueLength(e) + 9;
      cur := cur + [e];
      mi.Next();
      if size >= TARGET_FILE_SIZE {
        outs := outs + [Table(num, writer.value)];
        writer, cur := None, [];
      }
      entry := mi.Current();
    }
    End(outs, cur, stream, nextNum);
    if writer.Some? {
      outs := outs + [Table(num, writer.value)];
    }
  }

  lemma {:induction false} EmptySize()
    ensures Size([]) == 0
  {
  }

  // ---------- compactLevel ----------

  /** The numbers 0, 1, 2, ... */
  function CountUp(n: nat): (r: seq<int>)
    ensures |r| == n && forall i :: 0 <= i < n ==> r[i] == i
  {
    seq(n, i => i)
  }

  ghost predicate Fits(outs: Level, first: nat, next: nat)
  {
    Fresh(outs, first) && forall o :: o in outs ==> o.num < next
  }

  lemma {:induction false} NumberedFits(outs: Level, first: nat)
    requires Numbered(outs, first)
    ensures Fits(outs, first, first + |outs|)
  {
    forall o, o' | o in outs && o' in outs && o.num == o'.num
      ensures o == o'
    {
      var i :| 0 <= i < |outs| && outs[i] == o;
      var j :| 0 <= j < |outs| && outs[j] == o';
    }
  }

  /** A merge of the sources and the overlapping targets, cut into new files, merges down. */
  lemma {:induction false} Merges(srcs: Level, ts: Level, lo: Key, hi: Key, outs: Level, first: nat)
    requires TablesOk(srcs) && forall s :: s in srcs ==> Rank(lo) <= Rank(MinKey(s)) && Rank(MaxKey(s)) <= Rank(hi)
    requires Splits(outs, Flat(outs)) && IsMerge(Runs(srcs) + Runs(Overlapping(ts, lo, hi)), Flat(outs))
    requires Numbered(outs, first) && forall t :: t in ts ==> t.num < first
    ensures MergesDown(srcs, ts, lo, hi, outs) && Fits(outs, first, first + |outs|)
  {
    hide IsMerge;
    hide Flat;
    hide Sorted;
    hide Runs;
    hide Overlapping;
    NumberedFits(outs, first);
  }

  /** compactLevel up to its install: the file that goes down takes precedence. */
  method CompactLevel(src: Table, targets: Level, nextNum: nat) returns (outs: Level, next: nat)
    requires TableOk(src) && LevelOk(targets) && Disjoint(targets) && forall t :: t in targets ==> t.num < nextNum
    ensures MergesDown([src], targets, MinKey(src), MaxKey(src), outs)
    ensures Fits(outs, nextNum, next) && WellSized(outs)
  {
    hide Rank;
    hide Disjoint;
    hide IsMerge;
    hide Flat;
    hide Size;
    hide Merged;
    hide Overlapping;
    hide Loaded;
    hide WellSized;
    hide MergesDown;
    hide Fits;
    hide Sorted;
    hide IsPriorityMerge;
    var lo, hi := MinKey(src), MaxKey(src);
    var sel, metas := FindOverlapping(targets, MetasOf(targets), lo, hi);
    var iters, priorities := [src.entries], [0];
    for i := 0 to |sel|
      invariant iters == [src.entries] + Runs(sel)[..i] && priorities == CountUp(1 + i)
    {
      iters, priorities := iters + [sel[i].entries], priorities + [i + 1];
    }
    assert iters == Runs([src]) + Runs(sel);
    AllSorted([src], sel);
    var mi := new MergeIterator(iters, priorities);
    mi.SeekToFirst();
    InListOrder(iters, priorities, mi.Stream());
    outs, next := WriteCompactionOutput(mi, nextNum);
    OwnRange(src);
    Merges([src], targets, lo, hi, outs, nextNum);
  }

  lemma {:induction false} OwnRange(src: Table)
    requires TableOk(src)
    ensures TablesOk([src])
    ensures forall s :: s in [src] ==> Rank(MinKey(src)) <= Rank(MinKey(s)) && Rank(MaxKey(s)) <= Rank(MaxKey(src))
  {
  }

  lemma {:induction false} AllSorted(srcs: Level, sel: Level)
    requires TablesOk(srcs) && TablesOk(sel)
    ensures var runs := Runs(srcs) + Runs(sel); forall i :: 0 <= i < |runs| ==> Sorted(runs[i])
  {
    hide Sorted;
    forall i | 0 <= i < |srcs| + |sel|
      ensures Sorted((Runs(srcs) + Runs(sel))[i])
    {
      if i < |srcs| {
        assert TableOk(srcs[i]);
      } else {
        assert TableOk(sel[i - |srcs|]);
      }
    }
  }

  // ---------- compactL0 ----------

  /** The key range of the L0 files. */
  method KeyRange(l0: Level) returns (lo: Key, hi: Key)
    requires |l0| > 0
    ensures forall t :: t in l0 ==> Rank(lo) <= Rank(MinKey(t)) && Rank(MaxKey(t)) <= Rank(hi)
    ensures (exists t :: t in l0 && MinKey(t) == lo) && (exists t :: t in l0 && MaxKey(t) == hi)
  {
    hide Rank;
    hide MinKey;
    hide MaxKey;
    lo, hi := MinKey(l0[0]), MaxKey(l0[0]);
    ghost var least, greatest := 0, 0;
    for i := 1 to |l0|
      invariant forall j :: 0 <= j < i ==> Rank(lo) <= Rank(MinKey(l0[j])) && Rank(MaxKey(l0[j])) <= Rank(hi)
      invariant 0 <= least < |l0| && MinKey(l0[least]) == lo && 0 <= greatest < |l0| && MaxKey(l0[greatest]) == hi
    {
      if Compare(MinKey(l0[i]), lo) < 0 {
        lo, least := MinKey(l0[i]), i;
      }
      if Compare(MaxKey(l0[i]), hi) > 0 {
        hi, greatest := MaxKey(l0[i]), i;
      }
    }
    assert l0[least] in l0 && l0[greatest] in l0;
  }

  /** The iterators of compactL0 and their numbers: newest file first, but numbered by index. */
  method L0Iterators(l0: Level, sel: Level) returns (iters: seq<EntryList>, priorities: seq<int>)
    ensures iters == Reversed(Runs(l0)) + Runs(sel) && priorities == L0Numbers(|l0|, |sel|)
  {
    iters, priorities := [], [];
    var i: nat := |l0|;
    while i > 0
      invariant i <= |l0| && |iters| == |priorities| == |l0| - i
      invariant forall j :: 0 <= j < |iters| ==> iters[j] == l0[|l0| - 1 - j].entries && priorities[j] == |l0| - 1 - j
    {
      i := i - 1;
      iters, priorities := iters + [l0[i].entries], priorities + [i];
    }
    for i := 0 to |sel|
      invariant |iters| == |priorities| == |l0| + i
      invariant forall j :: 0 <= j < |l0| ==> iters[j] == l0[|l0| - 1 - j].entries && priorities[j] == |l0| - 1 - j
      invariant forall j :: 0 <= j < i ==> iters[|l0| + j] == sel[j].entries && priorities[|l0| + j] == |l0| + j
    {
      iters, priorities := iters + [sel[i].entries], priorities + [|l0| + i];
    }
    forall j | 0 <= j < |l0| + |sel|
      ensures iters[j] == (Reversed(Runs(l0)) + Runs(sel))[j] && priorities[j] == L0Numbers(|l0|, |sel|)[j]
    {
      if j >= |l0| {
        assert iters[|l0| + (j - |l0|)] == sel[j - |l0|].entries;
      }
    }
  }

  lemma {:induction false} L0Sources(l0: Level, sel: Level)
    requires TablesOk(l0) && TablesOk(sel)
    ensures Sources(Reversed(Runs(l0)) + Runs(sel), L0Numbers(|l0|, |sel|))
  {
    hide Sorted;
    AllSorted(l0, sel);
    var runs := Runs(l0) + Runs(sel);
    var srcs := Reversed(Runs(l0)) + Runs(sel);
    forall i | 0 <= i < |srcs|
      ensures Sorted(srcs[i])
    {
      if i < |l0| {
        assert srcs[i] == runs[|l0| - 1 - i];
      } else {
        assert srcs[i] == runs[i];
      }
    }
  }

  /** compactL0 up to its install: the oldest L0 file takes precedence, against what is meant. */
  method CompactL0(l0: Level, l1: Level, nextNum: nat) returns (lo: Key, hi: Key, outs: Level, next: nat)
    requires |l0| > 0 && TablesOk(l0) && LevelOk(l1) && Disjoint(l1) && forall t :: t in l1 ==> t.num < nextNum
    ensures MergesDown(l0, l1, lo, hi, outs)
    ensures Fits(outs, nextNum, next) && WellSized(outs)
  {
    hide Disjoint;
    hide IsMerge;
    hide Flat;
    hide Size;
    hide Merged;
    hide Overlapping;
    hide Loaded;
    hide WellSized;
    hide MergesDown;
    hide Fits;
    hide Sorted;
    hide IsPriorityMerge;
    hide L0Numbers;
    hide Reversed;
    lo, hi := KeyRange(l0);
    var sel, metas := FindOverlapping(l1, MetasOf(l1), lo, hi);
    var iters, priorities := L0Iterators(l0, sel);
    L0Sources(l0, sel);
    var mi := new MergeIterator(iters, priorities);
    mi.SeekToFirst();
    L0NumbersPreferOldest(Runs(l0), Runs(sel), mi.Stream());
    outs, next := WriteCompactionOutput(mi, nextNum);
    Merges(l0, l1, lo, hi, outs, nextNum);
  }
}
