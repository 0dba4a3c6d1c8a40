/** The binary heap of the merge iterator: a list of source numbers, ordered by their heads. */
module MergeHeap {
  import opened Keys
  import opened Tables
  import opened MergeOrder

  ghost predicate Heads(srcs: seq<EntryList>, prios: seq<int>, h: seq<nat>)
  {
    |srcs| == |prios| && forall i :: 0 <= i < |h| ==> h[i] < |srcs| && srcs[h[i]] != []
  }

  ghost predicate Le(srcs: seq<EntryList>, prios: seq<int>, a: nat, b: nat)
    requires |srcs| == |prios| && a < |srcs| && b < |srcs| && srcs[a] != [] && srcs[b] != []
  {
    !Less(srcs, prios, b, a)
  }

  ghost predicate Child(p: nat, c: nat)
  {
    c == 2 * p + 1 || c == 2 * p + 2
  }

  /** No entry of the first n is below its parent, for parents from `lo` on. */
  ghost predicate Ordered(srcs: seq<EntryList>, prios: seq<int>, h: seq<nat>, lo: nat, n: nat)
    requires Heads(srcs, prios, h)
  {
    n <= |h| && forall p: nat, c: nat :: lo <= p && c < n && Child(p, c) ==> Le(srcs, prios, h[p], h[c])
  }

  /** The same but for the children of i, which are not below i's parent. */
  ghost predicate Sinking(srcs: seq<EntryList>, prios: seq<int>, h: seq<nat>, lo: nat, n: nat, i: nat)
    requires Heads(srcs, prios, h)
  {
    && n <= |h|
    && (forall p: nat, c: nat :: lo <= p && p != i && c < n && Child(p, c) ==> Le(srcs, prios, h[p], h[c]))
    && (forall p: nat, c: nat :: lo <= p && i < n && Child(p, i) && c < n && Child(i, c) ==>
          Le(srcs, prios, h[p], h[c]))
  }

  /** The same but for j against its parent. */
  ghost predicate Rising(srcs: seq<EntryList>, prios: seq<int>, h: seq<nat>, j: nat)
    requires Heads(srcs, prios, h)
  {
    && j < |h|
    && (forall p: nat, c: nat :: c != j && c < |h| && Child(p, c) ==> Le(srcs, prios, h[p], h[c]))
    && (forall p: nat, c: nat :: Child(p, j) && c < |h| && Child(j, c) ==> Le(srcs, prios, h[p], h[c]))
  }

  function Swapped(h: seq<nat>, i: nat, j: nat): (r: seq<nat>)
    requires i < |h| && j < |h|
  {
    h[i := h[j]][j := h[i]]
  }

  lemma {:induction false} SwapKeeps(h: seq<nat>, i: nat, j: nat)
    requires i < |h| && j < |h|
    ensures multiset(Swapped(h, i, j)) == multiset(h)
  {
  }

  lemma {:induction false} SinkOne(srcs: seq<EntryList>, prios: seq<int>, h: seq<nat>, lo: nat, n: nat, i: nat, j: nat)
    requires Heads(srcs, prios, h) && Sinking(srcs, prios, h, lo, n, i) && lo <= i && Child(i, j) && j < n
    requires Less(srcs, prios, h[j], h[i])
    requires forall c: nat :: c < n && Child(i, c) ==> Le(srcs, prios, h[j], h[c])
    ensures Heads(srcs, prios, Swapped(h, i, j)) && Sinking(srcs, prios, Swapped(h, i, j), lo, n, j)
  {
    hide Rank;
    hide Compare;
  }

  lemma {:induction false} SinkEnd(srcs: seq<EntryList>, prios: seq<int>, h: seq<nat>, lo: nat, n: nat, i: nat)
    requires Heads(srcs, prios, h) && Sinking(srcs, prios, h, lo, n, i)
    requires forall c: nat :: c < n && Child(i, c) ==> Le(srcs, prios, h[i], h[c])
    ensures Ordered(srcs, prios, h, lo, n)
  {
  }

  lemma {:induction false} RiseOne(srcs: seq<EntryList>, prios: seq<int>, h: seq<nat>, p: nat, j: nat)
    requires Heads(srcs, prios, h) && Rising(srcs, prios, h, j) && Child(p, j)
    requires Less(srcs, prios, h[j], h[p])
    ensures Heads(srcs, prios, Swapped(h, p, j)) && Rising(srcs, prios, Swapped(h, p, j), p)
  {
    hide Compare;
    hide Rank;
  }

  lemma {:induction false} RootIsLeast(srcs: seq<EntryList>, prios: seq<int>, h: seq<nat>, n: nat, c: nat)
    requires Heads(srcs, prios, h) && Ordered(srcs, prios, h, 0, n) && c < n
    ensures Le(srcs, prios, h[0], h[c])
  {
    if c > 0 {
      var p := (c - 1) / 2;
      assert Child(p, c);
      RootIsLeast(srcs, prios, h, n, p);
    }
  }
}
