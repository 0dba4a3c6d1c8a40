/** Merging sorted runs by priority number: the lowest number that has a key supplies its entry. */
module MergeOrder {
  import opened Prelude
  import opened Keys
  import opened Tables
  import opened Compaction

  ghost predicate Distinct(prios: seq<int>)
  {
    forall i, j :: 0 <= i < j < |prios| ==> prios[i] != prios[j]
  }

  ghost predicate Sources(srcs: seq<EntryList>, prios: seq<int>)
  {
    |srcs| == |prios| && Distinct(prios) && forall i :: 0 <= i < |srcs| ==> Sorted(srcs[i])
  }

  /** The source with the lowest number among those that have the key. */
  function Winner(srcs: seq<EntryList>, prios: seq<int>, k: Key): (r: Option<nat>)
    requires |srcs| == |prios|
    ensures r.None? <==> forall i :: 0 <= i < |srcs| ==> Hit(srcs[i], k).None?
    ensures r.Some? ==>
              && r.value < |srcs| && Hit(srcs[r.value], k).Some?
              && forall j :: 0 <= j < |srcs| && Hit(srcs[j], k).Some? ==> prios[r.value] <= prios[j]
  {
    if srcs == [] then None
    else
      var n := |srcs| - 1;
      var w := Winner(srcs[..n], prios[..n], k);
      if Hit(srcs[n], k).Some? && (w.None? || prios[n] < prios[w.value]) then Some(n) else w
  }

  function PriorityHit(srcs: seq<EntryList>, prios: seq<int>, k: Key): (r: Finding)
    requires |srcs| == |prios|
  {
    var w := Winner(srcs, prios, k);
    if w.None? then None else Hit(srcs[w.value], k)
  }

  ghost predicate IsPriorityMerge(srcs: seq<EntryList>, prios: seq<int>, out: EntryList)
    requires |srcs| == |prios|
  {
    Sorted(out) && forall k :: Hit(out, k) == PriorityHit(srcs, prios, k)
  }

  lemma {:induction false} PriorityMergeUnique(srcs: seq<EntryList>, prios: seq<int>, a: EntryList, b: EntryList)
    requires |srcs| == |prios| && IsPriorityMerge(srcs, prios, a) && IsPriorityMerge(srcs, prios, b)
    ensures a == b
  {
    forall k
      ensures Hit(a, k) == Hit(b, k)
    {
      assert Hit(a, k) == PriorityHit(srcs, prios, k);
    }
    SortedUnique(a, b);
  }

  lemma {:induction false} WinnerIs(srcs: seq<EntryList>, prios: seq<int>, k: Key, i: nat)
    requires |srcs| == |prios| && Distinct(prios) && i < |srcs| && Hit(srcs[i], k).Some?
    requires forall j :: 0 <= j < |srcs| && Hit(srcs[j], k).Some? ==> prios[i] <= prios[j]
    ensures PriorityHit(srcs, prios, k) == Hit(srcs[i], k)
  {
    hide Hit;
    var w := Winner(srcs, prios, k).value;
    assert prios[w] == prios[i];
    if w < i {
      assert false;
    } else if i < w {
      assert false;
    }
  }

  lemma {:induction false} SameFindings(a: seq<EntryList>, b: seq<EntryList>, prios: seq<int>, k: Key)
    requires |a| == |b| == |prios| && forall i :: 0 <= i < |a| ==> Hit(a[i], k) == Hit(b[i], k)
    ensures PriorityHit(a, prios, k) == PriorityHit(b, prios, k)
  {
    SameWinner(a, b, prios, k);
  }

  lemma {:induction false} SameWinner(a: seq<EntryList>, b: seq<EntryList>, prios: seq<int>, k: Key)
    requires |a| == |b| == |prios| && forall i :: 0 <= i < |a| ==> Hit(a[i], k) == Hit(b[i], k)
    ensures Winner(a, prios, k) == Winner(b, prios, k)
  {
    hide Hit;
    if a != [] {
      var n := |a| - 1;
      SameWinner(a[..n], b[..n], prios[..n], k);
    }
  }

  // ---------- taking entries away ----------

  lemma {:induction false} TailHit(s: EntryList, k: Key)
    requires Sorted(s) && s != []
    ensures Sorted(s[1..])
    ensures Hit(s[1..], k) == if k == s[0].key then None else Hit(s, k)
  {
    if k == s[0].key {
      TailMisses(s);
    }
  }

  lemma {:induction false} BelowHead(s: EntryList, k: Key)
    requires Sorted(s) && (s == [] || Rank(k) < Rank(s[0].key))
    ensures Hit(s, k).None?
  {
    HitNone(s, k);
    forall i | 0 <= i < |s|
      ensures s[i].key != k
    {
      assert Rank(s[0].key) <= Rank(s[i].key);
    }
  }

  function Dropped(srcs: seq<EntryList>, j: nat): (r: seq<EntryList>)
    requires j < |srcs| && srcs[j] != []
  {
    srcs[j := srcs[j][1..]]
  }

  lemma {:induction false} DroppedSources(srcs: seq<EntryList>, prios: seq<int>, j: nat)
    requires Sources(srcs, prios) && j < |srcs| && srcs[j] != []
    ensures Sources(Dropped(srcs, j), prios)
  {
    TailHit(srcs[j], srcs[j][0].key);
  }

  /** A source with a higher number may skip an entry whose key another source still has. */
  lemma {:induction false} DropDuplicateHit(srcs: seq<EntryList>, prios: seq<int>, w: nat, j: nat, k: Key)
    requires Sources(srcs, prios) && w < |srcs| && j < |srcs| && prios[w] < prios[j]
    requires srcs[w] != [] && srcs[j] != [] && srcs[w][0].key == srcs[j][0].key
    ensures PriorityHit(Dropped(srcs, j), prios, k) == PriorityHit(srcs, prios, k)
  {
    hide Sorted;
    hide Winner;
    var srcs' := Dropped(srcs, j);
    TailHit(srcs[j], k);
    if k == srcs[j][0].key {
      var v := Winner(srcs, prios, k).value;
      assert Hit(srcs[w], k).Some?;
      assert v != j;
      assert srcs'[v] == srcs[v];
      WinnerIs(srcs', prios, k, v);
    } else {
      SameFindings(srcs', srcs, prios, k);
    }
  }

  lemma {:induction false} DropDuplicate(srcs: seq<EntryList>, prios: seq<int>, w: nat, j: nat, out: EntryList)
    requires Sources(srcs, prios) && w < |srcs| && j < |srcs| && prios[w] < prios[j]
    requires srcs[w] != [] && srcs[j] != [] && srcs[w][0].key == srcs[j][0].key
    ensures IsPriorityMerge(Dropped(srcs, j), prios, out) <==> IsPriorityMerge(srcs, prios, out)
  {
    hide PriorityHit;
    hide Sorted;
    hide Hit;
    forall k
      ensures PriorityHit(Dropped(srcs, j), prios, k) == PriorityHit(srcs, prios, k)
    {
      DropDuplicateHit(srcs, prios, w, j, k);
    }
  }

  /** The head of `w` is below the heads of all other sources. */
  ghost predicate Leads(srcs: seq<EntryList>, w: nat)
  {
    && w < |srcs| && srcs[w] != []
    && forall j :: 0 <= j < |srcs| && j != w && srcs[j] != [] ==> Rank(srcs[w][0].key) < Rank(srcs[j][0].key)
  }

  lemma {:induction false} DropLeaderHit(srcs: seq<EntryList>, prios: seq<int>, w: nat, k: Key)
    requires Sources(srcs, prios) && Leads(srcs, w)
    ensures Rank(k) <= Rank(srcs[w][0].key) ==> PriorityHit(Dropped(srcs, w), prios, k).None?
    ensures k == srcs[w][0].key ==> PriorityHit(srcs, prios, k) == Some(srcs[w][0].value)
    ensures k != srcs[w][0].key ==> PriorityHit(Dropped(srcs, w), prios, k) == PriorityHit(srcs, prios, k)
  {
    var srcs' := Dropped(srcs, w);
    TailHit(srcs[w], k);
    if Rank(k) <= Rank(srcs[w][0].key) {
      forall j | 0 <= j < |srcs|
        ensures Hit(srcs'[j], k).None? && (j != w ==> Hit(srcs[j], k).None?)
      {
        if j == w {
          LeaderTail(srcs[w], k);
        } else {
          BelowHead(srcs[j], k);
        }
      }
    }
    if k == srcs[w][0].key {
      WinnerIs(srcs, prios, k, w);
    } else {
      SameFindings(srcs', srcs, prios, k);
    }
  }

  lemma {:induction false} LeaderTail(s: EntryList, k: Key)
    requires Sorted(s) && s != [] && Rank(k) <= Rank(s[0].key)
    ensures Hit(s[1..], k).None?
  {
    BelowHead(s[1..], k);
  }

  /** Putting the leading entry in front of the merge of the rest gives the merge. */
  lemma {:induction false} DropLeader(srcs: seq<EntryList>, prios: seq<int>, w: nat, out: EntryList)
    requires Sources(srcs, prios) && Leads(srcs, w) && IsPriorityMerge(Dropped(srcs, w), prios, out)
    ensures IsPriorityMerge(srcs, prios, [srcs[w][0]] + out)
  {
    hide PriorityHit;
    var e := srcs[w][0];
    var all := [e] + out;
    forall k
      ensures Hit(all, k) == PriorityHit(srcs, prios, k)
    {
      DropLeaderHit(srcs, prios, w, k);
      assert all[1..] == out;
    }
    forall i | 0 <= i < |out|
      ensures Rank(e.key) < Rank(out[i].key)
    {
      HitAt(out, i);
      DropLeaderHit(srcs, prios, w, out[i].key);
      assert Hit(out, out[i].key) == PriorityHit(Dropped(srcs, w), prios, out[i].key);
    }
    assert forall i :: 0 < i < |all| ==> all[i] == out[i - 1];
  }

  // ---------- there is a merge ----------

  ghost function Total(srcs: seq<EntryList>): (r: nat)
  {
    if srcs == [] then 0 else Total(srcs[..|srcs| - 1]) + |srcs[|srcs| - 1]|
  }

  lemma {:induction false} TotalDropped(srcs: seq<EntryList>, j: nat)
    requires j < |srcs| && srcs[j] != []
    ensures Total(Dropped(srcs, j)) == Total(srcs) - 1
  {
    var n := |srcs| - 1;
    if j < n {
      TotalDropped(srcs[..n], j);
      assert Dropped(srcs, j)[..n] == Dropped(srcs[..n], j);
    } else {
      assert Dropped(srcs, j)[..n] == srcs[..n];
    }
  }

  /** Less of the heap: by key, then by number. */
  predicate Less(srcs: seq<EntryList>, prios: seq<int>, a: nat, b: nat)
    requires |srcs| == |prios| && a < |srcs| && b < |srcs| && srcs[a] != [] && srcs[b] != []
  {
    var c := Compare(srcs[a][0].key, srcs[b][0].key);
    if c != 0 then c < 0 else prios[a] < prios[b]
  }

  lemma {:induction false} Least(srcs: seq<EntryList>, prios: seq<int>, n: nat) returns (w: Option<nat>)
    requires |srcs| == |prios| && n <= |srcs|
    ensures w.None? ==> forall i :: 0 <= i < n ==> srcs[i] == []
    ensures w.Some? ==>
              && w.value < n && srcs[w.value] != []
              && forall i :: 0 <= i < n && srcs[i] != [] ==> !Less(srcs, prios, i, w.value)
  {
    if n == 0 {
      w := None;
    } else {
      w := Least(srcs, prios, n - 1);
      if srcs[n - 1] != [] && (w.None? || Less(srcs, prios, n - 1, w.value)) {
        w := Some(n - 1);
      }
    }
  }

  lemma {:induction false} PriorityMergeExists(srcs: seq<EntryList>, prios: seq<int>)
    requires Sources(srcs, prios)
    ensures exists out :: IsPriorityMerge(srcs, prios, out)
    decreases Total(srcs)
  {
    hide IsPriorityMerge;
    hide Sorted;
    hide Rank;
    var least := Least(srcs, prios, |srcs|);
    if least.None? {
      NothingToMerge(srcs, prios);
    } else {
      var w := least.value;
      if j :| 0 <= j < |srcs| && j != w && srcs[j] != [] && srcs[j][0].key == srcs[w][0].key {
        assert !Less(srcs, prios, j, w);
        assert prios[w] < prios[j];
        DroppedSources(srcs, prios, j);
        TotalDropped(srcs, j);
        PriorityMergeExists(Dropped(srcs, j), prios);
        var out :| IsPriorityMerge(Dropped(srcs, j), prios, out);
        DropDuplicate(srcs, prios, w, j, out);
      } else {
        LeastLeads(srcs, prios, w);
        DroppedSources(srcs, prios, w);
        TotalDropped(srcs, w);
        PriorityMergeExists(Dropped(srcs, w), prios);
        var out :| IsPriorityMerge(Dropped(srcs, w), prios, out);
        DropLeader(srcs, prios, w, out);
      }
    }
  }

  lemma {:induction false} LeastLeads(srcs: seq<EntryList>, prios: seq<int>, w: nat)
    requires |srcs| == |prios| && w < |srcs| && srcs[w] != []
    requires forall i :: 0 <= i < |srcs| && srcs[i] != [] ==> !Less(srcs, prios, i, w)
    requires forall j :: 0 <= j < |srcs| && j != w && srcs[j] != [] ==> srcs[j][0].key != srcs[w][0].key
    ensures Leads(srcs, w)
  {
    forall j | 0 <= j < |srcs| && j != w && srcs[j] != []
      ensures Rank(srcs[w][0].key) < Rank(srcs[j][0].key)
    {
      assert !Less(srcs, prios, j, w);
    }
  }

  lemma {:induction false} NothingToMerge(srcs: seq<EntryList>, prios: seq<int>)
    requires |srcs| == |prios| && forall i :: 0 <= i < |srcs| ==> srcs[i] == []
    ensures IsPriorityMerge(srcs, prios, [])
  {
  }

  /** The merge. */
  ghost function Merged(srcs: seq<EntryList>, prios: seq<int>): (r: EntryList)
    requires Sources(srcs, prios)
    ensures IsPriorityMerge(srcs, prios, r)
  {
    PriorityMergeExists(srcs, prios);
    var out :| IsPriorityMerge(srcs, prios, out);
    out
  }

  lemma {:induction false} MergedIs(srcs: seq<EntryList>, prios: seq<int>, out: EntryList)
    requires Sources(srcs, prios) && IsPriorityMerge(srcs, prios, out)
    ensures Merged(srcs, prios) == out
  {
    PriorityMergeUnique(srcs, prios, Merged(srcs, prios), out);
  }

  // ---------- numbers in list order, and those of compactL0 ----------

  /** Increasing numbers: earlier sources take precedence, as compactLevel and ReadRange mean it. */
  lemma {:induction false} InListOrder(srcs: seq<EntryList>, prios: seq<int>, out: EntryList)
    requires |srcs| == |prios| && forall i, j :: 0 <= i < j < |prios| ==> prios[i] < prios[j]
    ensures IsPriorityMerge(srcs, prios, out) <==> IsMerge(srcs, out)
  {
    forall k
      ensures PriorityHit(srcs, prios, k) == FirstHit(srcs, k)
    {
      FirstHitNone(srcs, k);
      if FirstHit(srcs, k).Some? {
        var i := FirstHitWitness(srcs, k);
        WinnerIs(srcs, prios, k, i);
      }
    }
  }

  /** The numbers compactL0 gives: the L0 files from the last back to the first keep their index,
      the L1 files follow. */
  function L0Numbers(n: nat, m: nat): (r: seq<int>)
    ensures |r| == n + m
  {
    seq(n, i requires 0 <= i < n => n - 1 - i) + seq(m, i requires 0 <= i < m => n + i)
  }

  /** So the first, that is the oldest, L0 file takes precedence. */
  lemma {:induction false} L0NumbersPreferOldest(l0: seq<EntryList>, l1: seq<EntryList>, out: EntryList)
    ensures IsPriorityMerge(Reversed(l0) + l1, L0Numbers(|l0|, |l1|), out) <==> IsMerge(l0 + l1, out)
  {
    var srcs, prios := Reversed(l0) + l1, L0Numbers(|l0|, |l1|);
    var all := l0 + l1;
    var n := |l0|;
    forall k
      ensures PriorityHit(srcs, prios, k) == FirstHit(all, k)
    {
      FirstHitNone(all, k);
      if FirstHit(all, k).Some? {
        var i := FirstHitWitness(all, k);
        var at := if i < n then n - 1 - i else i;
        assert srcs[at] == all[i] && prios[at] == i;
        forall j | 0 <= j < |srcs| && Hit(srcs[j], k).Some?
          ensures prios[at] <= prios[j]
        {
          assert srcs[j] == all[prios[j]];
        }
        WinnerIs(srcs, prios, k, at);
      } else {
        forall j | 0 <= j < |srcs|
          ensures Hit(srcs[j], k).None?
        {
          assert srcs[j] == all[prios[j]];
        }
      }
    }
  }

  // ---------- seeking ----------

  /** Where Seek lands: the first entry whose key is not below the target. */
  function SeekPos(s: EntryList, k: Key): (r: nat)
    ensures r <= |s|
    ensures forall i :: 0 <= i < r ==> Rank(s[i].key) < Rank(k)
    ensures r < |s| ==> Rank(s[r].key) >= Rank(k)
  {
    if s == [] || Compare(s[0].key, k) >= 0 then 0
    else
      assert forall i :: 0 < i < |s| ==> s[i] == s[1..][i - 1];
      1 + SeekPos(s[1..], k)
  }

  function From(s: EntryList, k: Key): (r: EntryList)
  {
    s[SeekPos(s, k)..]
  }

  lemma {:induction false} FromHit(s: EntryList, k: Key, x: Key)
    requires Sorted(s)
    ensures Sorted(From(s, k))
    ensures Hit(From(s, k), x) == if Rank(x) < Rank(k) then None else Hit(s, x)
  {
    var p := SeekPos(s, k);
    var a, b := s[..p], s[p..];
    assert s == a + b;
    HitAppend(a, b, x);
    if Rank(x) < Rank(k) {
      BelowHead(b, x);
    } else {
      HitNone(a, x);
    }
  }

  function AllFrom(srcs: seq<EntryList>, k: Key): (r: seq<EntryList>)
    ensures |r| == |srcs| && forall i :: 0 <= i < |srcs| ==> r[i] == From(srcs[i], k)
  {
    seq(|srcs|, i requires 0 <= i < |srcs| => From(srcs[i], k))
  }

  /** Seeking in every source seeks in the merge. */
  lemma {:induction false} SeekMerge(srcs: seq<EntryList>, prios: seq<int>, k: Key)
    requires Sources(srcs, prios)
    ensures Sources(AllFrom(srcs, k), prios)
    ensures Merged(AllFrom(srcs, k), prios) == From(Merged(srcs, prios), k)
  {
    hide Merged;
    hide From;
    hide Hit;
    var m := Merged(srcs, prios);
    forall i | 0 <= i < |srcs|
      ensures Sorted(AllFrom(srcs, k)[i])
    {
      FromHit(srcs[i], k, k);
    }
    FromHit(m, k, k);
    forall x
      ensures Hit(From(m, k), x) == PriorityHit(AllFrom(srcs, k), prios, x)
    {
      FromHit(m, k, x);
      SeekHit(srcs, prios, k, x);
    }
    MergedIs(AllFrom(srcs, k), prios, From(m, k));
  }

  lemma {:induction false} SeekHit(srcs: seq<EntryList>, prios: seq<int>, k: Key, x: Key)
    requires Sources(srcs, prios)
    ensures PriorityHit(AllFrom(srcs, k), prios, x) == if Rank(x) < Rank(k) then None else PriorityHit(srcs, prios, x)
  {
    hide From;
    hide Hit;
    forall i | 0 <= i < |srcs|
      ensures Hit(AllFrom(srcs, k)[i], x) == if Rank(x) < Rank(k) then None else Hit(srcs[i], x)
    {
      FromHit(srcs[i], k, x);
    }
    if Rank(x) >= Rank(k) {
      SameFindings(AllFrom(srcs, k), srcs, prios, x);
    }
  }
}
