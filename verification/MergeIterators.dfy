/** The merge iterator (engine/merge_iterator.go): a heap of source iterators that are advanced in
    place, delivering the priority merge one entry at a time. */
module MergeIterators {
  import opened Prelude
  import opened Keys
  import opened Tables
  import opened MergeOrder
  import opened MergeHeap

  /** What each source iterator has still to deliver. */
  function Rests(sources: seq<EntryList>, pos: seq<nat>): (r: seq<EntryList>)
    requires |pos| == |sources| && forall i :: 0 <= i < |pos| ==> pos[i] <= |sources[i]|
    ensures |r| == |sources| && forall i :: 0 <= i < |r| ==> r[i] == sources[i][pos[i]..]
  {
    seq(|sources|, i requires 0 <= i < |sources| => sources[i][pos[i]..])
  }

  ghost predicate NoDuplicates(h: seq<nat>)
  {
    forall x :: multiset(h)[x] <= 1
  }

  /** The heap holds every source that has entries left, but for the current one. */
  ghost predicate Loaded(srcs: seq<EntryList>, prios: seq<int>, h: seq<nat>, cur: Option<nat>)
  {
    && Heads(srcs, prios, h) && Ordered(srcs, prios, h, 0, |h|) && NoDuplicates(h)
    && (forall i: nat :: i < |srcs| && srcs[i] != [] && cur != Some(i) ==> i in h)
    && (cur.Some? ==> cur.value !in h)
  }

  /** The current source is not after any source in the heap. */
  ghost predicate Ahead(srcs: seq<EntryList>, prios: seq<int>, h: seq<nat>, w: nat)
    requires Heads(srcs, prios, h)
  {
    w < |srcs| && srcs[w] != [] && forall i :: 0 <= i < |h| ==> Le(srcs, prios, w, h[i])
  }

  lemma {:induction false} PopLoaded(srcs: seq<EntryList>, prios: seq<int>, h: seq<nat>, h': seq<nat>, x: nat,
                                     cur: Option<nat>)
    requires Loaded(srcs, prios, h, cur) && multiset(h) == multiset(h') + multiset{x}
    ensures x !in h' && (forall y :: y in h <==> y in h' || y == x) && NoDuplicates(h')
  {
    assert multiset(h)[x] <= 1;
    forall y
      ensures y in h <==> y in h' || y == x
    {
      assert y in h <==> y in multiset(h);
      assert y in h' <==> y in multiset(h');
    }
    assert x !in multiset(h');
    forall y
      ensures multiset(h')[y] <= 1
    {
      assert multiset(h)[y] <= 1;
    }
  }

  /** Advancing a source that is not in the heap leaves the heap in order. */
  lemma {:induction false} OthersUnmoved(srcs: seq<EntryList>, prios: seq<int>, h: seq<nat>, x: nat)
    requires Heads(srcs, prios, h) && Ordered(srcs, prios, h, 0, |h|) && x !in h && x < |srcs| && srcs[x] != []
    ensures Heads(Dropped(srcs, x), prios, h) && Ordered(Dropped(srcs, x), prios, h, 0, |h|)
  {
    hide Compare;
    var srcs' := Dropped(srcs, x);
    assert forall i :: 0 <= i < |h| ==> h[i] in h && srcs'[h[i]] == srcs[h[i]];
  }

  lemma {:induction false} StillAhead(srcs: seq<EntryList>, prios: seq<int>, h: seq<nat>, w: nat, x: nat)
    requires Sources(srcs, prios) && Heads(srcs, prios, h) && w != x && x < |srcs| && srcs[x] != [] && x !in h
    requires Ahead(srcs, prios, h, w) && srcs[x][0].key == srcs[w][0].key
    ensures Heads(Dropped(srcs, x), prios, h) && Ahead(Dropped(srcs, x), prios, h, w)
    ensures Dropped(srcs, x)[x] != [] ==> Le(Dropped(srcs, x), prios, w, x)
  {
    hide Rank;
    var srcs' := Dropped(srcs, x);
    assert srcs'[w] == srcs[w];
    assert forall i :: 0 <= i < |h| ==> h[i] in h && srcs'[h[i]] == srcs[h[i]];
    if srcs'[x] != [] {
      assert srcs'[x][0] == srcs[x][1];
    }
  }

  /** Once the least source in the heap has another key, the current source leads. */
  lemma {:induction false} AheadLeads(srcs: seq<EntryList>, prios: seq<int>, h: seq<nat>, w: nat)
    requires Loaded(srcs, prios, h, Some(w)) && Ahead(srcs, prios, h, w)
    requires |h| > 0 ==> srcs[h[0]][0].key != srcs[w][0].key
    ensures Leads(srcs, w)
  {
    hide Rank;
    hide Compare;
    forall j: nat | j < |srcs| && j != w && srcs[j] != []
      ensures Rank(srcs[w][0].key) < Rank(srcs[j][0].key)
    {
      assert j in h;
      var i :| 0 <= i < |h| && h[i] == j;
      RootIsLeast(srcs, prios, h, |h|, i);
      ThreeInOrder(srcs, prios, w, h[0], j);
    }
  }

  lemma {:induction false} ThreeInOrder(srcs: seq<EntryList>, prios: seq<int>, a: nat, b: nat, c: nat)
    requires |srcs| == |prios| && a < |srcs| && b < |srcs| && c < |srcs|
    requires srcs[a] != [] && srcs[b] != [] && srcs[c] != []
    requires Le(srcs, prios, a, b) && Le(srcs, prios, b, c) && srcs[a][0].key != srcs[b][0].key
    ensures Rank(srcs[a][0].key) < Rank(srcs[c][0].key)
  {
    var c1 := Compare(srcs[b][0].key, srcs[a][0].key);
    var c2 := Compare(srcs[c][0].key, srcs[b][0].key);
  }

  lemma {:induction false} MergedDuplicate(srcs: seq<EntryList>, prios: seq<int>, w: nat, x: nat)
    requires Sources(srcs, prios) && w < |srcs| && x < |srcs| && w != x && srcs[w] != [] && srcs[x] != []
    requires srcs[x][0].key == srcs[w][0].key && Le(srcs, prios, w, x)
    ensures Sources(Dropped(srcs, x), prios) && Merged(Dropped(srcs, x), prios) == Merged(srcs, prios)
    ensures Total(Dropped(srcs, x)) < Total(srcs)
  {
    hide IsPriorityMerge;
    hide Rank;
    DroppedSources(srcs, prios, x);
    TotalDropped(srcs, x);
    if prios[w] == prios[x] {
      if w < x {
        assert false;
      } else {
        assert false;
      }
    }
    DropDuplicate(srcs, prios, w, x, Merged(srcs, prios));
    MergedIs(Dropped(srcs, x), prios, Merged(srcs, prios));
  }

  /** The leading source supplies the first entry of the merge. */
  lemma {:induction false} MergedLeader(srcs: seq<EntryList>, prios: seq<int>, w: nat)
    requires Sources(srcs, prios) && Leads(srcs, w)
    ensures Sources(Dropped(srcs, w), prios)
    ensures Merged(srcs, prios) == [srcs[w][0]] + Merged(Dropped(srcs, w), prios)
  {
    hide IsPriorityMerge;
    hide Rank;
    DroppedSources(srcs, prios, w);
    var out := Merged(Dropped(srcs, w), prios);
    DropLeader(srcs, prios, w, out);
    MergedIs(srcs, prios, [srcs[w][0]] + out);
  }

  lemma {:induction false} MergedNothing(srcs: seq<EntryList>, prios: seq<int>)
    requires Sources(srcs, prios) && forall i :: 0 <= i < |srcs| ==> srcs[i] == []
    ensures Merged(srcs, prios) == []
  {
    NothingToMerge(srcs, prios);
    MergedIs(srcs, prios, []);
  }

  lemma {:induction false} RestsStep(sources: seq<EntryList>, pos: seq<nat>, x: nat)
    requires |pos| == |sources| && (forall i :: 0 <= i < |pos| ==> pos[i] <= |sources[i]|)
    requires x < |sources| && pos[x] < |sources[x]|
    ensures Rests(sources, pos)[x] != []
    ensures Rests(sources, pos[x := pos[x] + 1]) == Dropped(Rests(sources, pos), x)
  {
  }

  class MergeIterator {
    const sources: seq<EntryList>
    const priorities: seq<int>
    var pos: seq<nat>
    var h: seq<nat>
    var cur: Option<nat>

    ghost predicate Good()
      reads this`pos
    {
      && Sources(sources, priorities)
      && |pos| == |sources| && (forall i :: 0 <= i < |pos| ==> pos[i] <= |sources[i]|)
      && Sources(Rests(sources, pos), priorities)
    }

    ghost function Left(): (r: seq<EntryList>)
      requires Good()
      reads this`pos
    {
      Rests(sources, pos)
    }

    ghost predicate Inv()
      reads this
    {
      && Good() && Loaded(Left(), priorities, h, cur)
      && (cur.Some? ==> Leads(Left(), cur.value))
      && (cur.None? ==> h == [])
    }

    /** The entries still to come, the current one first. */
    ghost function Stream(): (r: EntryList)
      requires Good()
      reads this`pos
    {
      Merged(Left(), priorities)
    }

    /** NewMergeIterator; the source iterators stand nowhere yet. */
    constructor (srcs: seq<EntryList>, prios: seq<int>)
      requires Sources(srcs, prios)
      ensures sources == srcs && priorities == prios && Inv() && Stream() == []
    {
      sources, priorities := srcs, prios;
      pos := seq(|srcs|, i requires 0 <= i < |srcs| => |srcs[i]|);
      h, cur := [], None;
      new;
      MergedNothing(Left(), priorities);
    }

    predicate Before(i: nat, j: nat)
      requires Good() && i < |h| && j < |h| && Heads(Left(), priorities, h)
      reads this
    {
      Less(Rests(sources, pos), priorities, h[i], h[j])
    }

    /** heap.down. */
    method Down(i0: nat, n: nat)
      requires Good() && Heads(Left(), priorities, h) && Ordered(Left(), priorities, h, i0 + 1, n)
      modifies this`h
      ensures Heads(Left(), priorities, h) && Ordered(Left(), priorities, h, i0, n)
      ensures |h| == old(|h|) && multiset(h) == old(multiset(h)) && h[n..] == old(h[n..])
    {
      hide Less;
      var i := i0;
      while 2 * i + 1 < n
        invariant i0 <= i && n <= |h| == old(|h|)
        invariant Heads(Left(), priorities, h) && Sinking(Left(), priorities, h, i0, n, i)
        invariant multiset(h) == old(multiset(h)) && h[n..] == old(h[n..])
        decreases n - i
      {
        var j1 := 2 * i + 1;
        var j := j1;
        if j1 + 1 < n && Before(j1 + 1, j1) {
          j := j1 + 1;
        }
        LesserChild(Left(), priorities, h, i, j, n);
        if !Before(j, i) {
          EndOfSink(Left(), priorities, h, i0, n, i, j);
          return;
        }
        SinkOne(Left(), priorities, h, i0, n, i, j);
        SwapKeeps(h, i, j);
        h := Swapped(h, i, j);
        i := j;
      }
      SinkEnd(Left(), priorities, h, i0, n, i);
    }

    /** heap.up from the last place. */
    method Up()
      requires Good() && |h| > 0 && Heads(Left(), priorities, h) && Rising(Left(), priorities, h, |h| - 1)
      modifies this`h
      ensures Heads(Left(), priorities, h) && Ordered(Left(), priorities, h, 0, |h|)
      ensures multiset(h) == old(multiset(h))
    {
      hide Less;
      var j: nat := |h| - 1;
      while j > 0 && Before(j, (j - 1) / 2)
        invariant j < |h| && Heads(Left(), priorities, h) && Rising(Left(), priorities, h, j)
        invariant multiset(h) == old(multiset(h))
      {
        var i := (j - 1) / 2;
        RiseOne(Left(), priorities, h, i, j);
        SwapKeeps(h, i, j);
        h := Swapped(h, i, j);
        j := i;
      }
    }

    /** heap.Push. */
    method HeapPush(x: nat)
      requires Good() && Heads(Left(), priorities, h) && Ordered(Left(), priorities, h, 0, |h|)
      requires x < |sources| && Left()[x] != []
      modifies this`h
      ensures Heads(Left(), priorities, h) && Ordered(Left(), priorities, h, 0, |h|)
      ensures multiset(h) == old(multiset(h)) + multiset{x}
    {
      hide Less;
      h := h + [x];
      Up();
    }

    /** heap.Pop. */
    method HeapPop() returns (x: nat)
      requires Good() && |h| > 0 && Heads(Left(), priorities, h) && Ordered(Left(), priorities, h, 0, |h|)
      modifies this`h
      ensures x == old(h[0]) && x < |sources| && Left()[x] != []
      ensures Heads(Left(), priorities, h) && Ordered(Left(), priorities, h, 0, |h|)
      ensures old(multiset(h)) == multiset(h) + multiset{x}
      ensures Ahead(Left(), priorities, h, x)
    {
      hide Less;
      hide Ordered;
      hide Ahead;
      ghost var h0 := h;
      var n := |h| - 1;
      SwapRoot(Left(), priorities, h);
      h := Swapped(h, 0, n);
      Down(0, n);
      x := h[n];
      assert x == h[n..][0] == Swapped(h0, 0, n)[n..][0];
      CutLast(Left(), priorities, h);
      h := h[..n];
      LeastOfAll(Left(), priorities, h0, h);
    }

    method BuildHeap()
      requires Good()
      modifies this`h
      ensures Loaded(Left(), priorities, h, None)
    {
      hide Less;
      h := [];
      for i := 0 to |sources|
        invariant Heads(Left(), priorities, h)
        invariant forall x :: x in h ==> x < i
        invariant forall x: nat :: x < i && Left()[x] != [] ==> x in h
        invariant NoDuplicates(h)
      {
        if pos[i] < |sources[i]| {
          AppendNew(h, i);
          h := h + [i];
        }
      }
      ghost var h0 := h;
      var n := |h|;
      var i: nat := n / 2;
      while i > 0
        invariant |h| == n && Heads(Left(), priorities, h) && Ordered(Left(), priorities, h, i, n)
        invariant multiset(h) == multiset(h0)
      {
        i := i - 1;
        Down(i, n);
      }
      SameMembers(h0, h);
    }

    /** Makes the least head current and skips its key in the other sources. */
    method Advance()
      requires Good() && Loaded(Left(), priorities, h, None)
      modifies this
      ensures Inv() && Stream() == old(Stream())
    {
      hide Less;
      hide Ordered;
      hide Merged;
      hide Total;
      cur := None;
      if |h| == 0 {
        return;
      }
      ghost var h0 := h;
      var winner := HeapPop();
      PopLoaded(Left(), priorities, h0, h, winner, None);
      cur := Some(winner);
      var winKey := sources[winner][pos[winner]].key;
      while |h| > 0 && sources[h[0]][pos[h[0]]].key == winKey
        invariant Good() && Loaded(Left(), priorities, h, Some(winner)) && Ahead(Left(), priorities, h, winner)
        invariant Left()[winner][0].key == winKey && cur == Some(winner)
        invariant Stream() == old(Stream())
        decreases Total(Left())
      {
        SkipOne(winner);
      }
      AheadLeads(Left(), priorities, h, winner);
    }

    /** One round of the skipping loop: the least source in the heap moves on. */
    method SkipOne(winner: nat)
      requires Good() && Loaded(Left(), priorities, h, Some(winner)) && Ahead(Left(), priorities, h, winner)
      requires |h| > 0 && Left()[h[0]][0].key == Left()[winner][0].key
      modifies this`h, this`pos
      ensures Good() && Loaded(Left(), priorities, h, Some(winner)) && Ahead(Left(), priorities, h, winner)
      ensures Left()[winner] == old(Left()[winner]) && Stream() == old(Stream()) && Total(Left()) < old(Total(Left()))
    {
      hide Less;
      hide Ordered;
      hide Merged;
      hide Total;
      ghost var h0, before := h, Left();
      assert h0[0] in h0;
      var dup := HeapPop();
      PopLoaded(before, priorities, h0, h, dup, Some(winner));
      FewerAhead(before, priorities, h0, h, winner);
      RestsStep(sources, pos, dup);
      MergedDuplicate(before, priorities, winner, dup);
      OthersUnmoved(before, priorities, h, dup);
      StillAhead(before, priorities, h, winner, dup);
      pos := pos[dup := pos[dup] + 1];
      assert Left() == Dropped(before, dup);
      ghost var h1 := h;
      if pos[dup] < |sources[dup]| {
        HeapPush(dup);
        PushLoaded(h1, h, dup);
        PushAhead(Left(), priorities, h1, h, dup, winner);
      }
    }

    /** From the start: the whole merge. */
    method SeekToFirst()
      requires Inv()
      modifies this
      ensures Inv() && Stream() == Merged(sources, priorities)
    {
      hide Merged;
      hide Loaded;
      for i := 0 to |sources|
        invariant |pos| == |sources| && forall j :: 0 <= j < |pos| ==> pos[j] <= |sources[j]|
        invariant forall j :: 0 <= j < i ==> pos[j] == 0
      {
        pos := pos[i := 0];
      }
      assert Rests(sources, pos) == sources;
      BuildHeap();
      Advance();
    }

    /** From a key: the part of the merge that is not below it. */
    method Seek(key: Key)
      requires Inv()
      modifies this
      ensures Inv() && Stream() == From(Merged(sources, priorities), key)
    {
      hide Merged;
      hide Loaded;
      hide SeekPos;
      for i := 0 to |sources|
        invariant |pos| == |sources| && forall j :: 0 <= j < |pos| ==> pos[j] <= |sources[j]|
        invariant forall j :: 0 <= j < i ==> pos[j] == SeekPos(sources[j], key)
      {
        pos := pos[i := SeekPos(sources[i], key)];
      }
      assert Rests(sources, pos) == AllFrom(sources, key);
      SeekMerge(sources, priorities, key);
      BuildHeap();
      Advance();
    }

    /** One entry on. */
    method Next()
      requires Inv()
      modifies this
      ensures Inv() && Stream() == if old(Stream()) == [] then [] else old(Stream())[1..]
    {
      hide Less;
      hide Ordered;
      hide Merged;
      if cur.None? {
        AllDelivered(Left(), priorities, h);
        return;
      }
      ghost var before := Left();
      var w := cur.value;
      MergedLeader(before, priorities, w);
      RestsStep(sources, pos, w);
      OthersUnmoved(before, priorities, h, w);
      pos := pos[w := pos[w] + 1];
      assert Left() == Dropped(before, w);
      ghost var h1 := h;
      if pos[w] < |sources[w]| {
        HeapPush(w);
        PushLoaded(h1, h, w);
      }
      Advance();
    }

    predicate Valid()
      reads this`cur
    {
      cur.Some?
    }

    /** Key, Value and IsTombstone: the first of the entries to come. */
    method Current() returns (e: Option<Entry>)
      requires Inv()
      ensures e.Some? == Valid() && (e.None? <==> Stream() == [])
      ensures e.Some? ==> e.value == Stream()[0]
    {
      hide Merged;
      if cur.None? {
        AllDelivered(Left(), priorities, h);
        return None;
      }
      MergedLeader(Left(), priorities, cur.value);
      return Some(sources[cur.value][pos[cur.value]]);
    }
  }

  lemma {:induction false} AllDelivered(srcs: seq<EntryList>, prios: seq<int>, h: seq<nat>)
    requires Sources(srcs, prios) && Loaded(srcs, prios, h, None) && h == []
    ensures Merged(srcs, prios) == []
  {
    hide Merged;
    MergedNothing(srcs, prios);
  }

  lemma {:induction false} AppendNew(h: seq<nat>, x: nat)
    requires NoDuplicates(h) && x !in h
    ensures NoDuplicates(h + [x])
  {
    assert x !in multiset(h);
    assert multiset(h + [x]) == multiset(h) + multiset{x};
  }

  lemma {:induction false} SameMembers(h: seq<nat>, h': seq<nat>)
    requires multiset(h) == multiset(h')
    ensures forall x :: x in h <==> x in h'
    ensures NoDuplicates(h) ==> NoDuplicates(h')
  {
    forall x
      ensures x in h <==> x in h'
    {
      assert x in h <==> x in multiset(h);
      assert x in h' <==> x in multiset(h');
    }
  }

  lemma {:induction false} PushLoaded(h: seq<nat>, h': seq<nat>, x: nat)
    requires multiset(h') == multiset(h) + multiset{x} && NoDuplicates(h) && x !in h
    ensures NoDuplicates(h') && forall y :: y in h' <==> y in h || y == x
  {
    AppendNew(h, x);
    assert multiset(h + [x]) == multiset(h');
    SameMembers(h + [x], h');
  }

  lemma {:induction false} FewerAhead(srcs: seq<EntryList>, prios: seq<int>, h: seq<nat>, h': seq<nat>, w: nat)
    requires Heads(srcs, prios, h) && Heads(srcs, prios, h') && Ahead(srcs, prios, h, w)
    requires forall y :: y in h' ==> y in h
    ensures Ahead(srcs, prios, h', w)
  {
    hide Less;
    forall i | 0 <= i < |h'|
      ensures Le(srcs, prios, w, h'[i])
    {
      assert h'[i] in h;
    }
  }

  lemma {:induction false} PushAhead(srcs: seq<EntryList>, prios: seq<int>, h: seq<nat>, h': seq<nat>, x: nat, w: nat)
    requires Heads(srcs, prios, h) && Heads(srcs, prios, h') && Ahead(srcs, prios, h, w)
    requires forall y :: y in h' <==> y in h || y == x
    requires x < |srcs| && srcs[x] != [] && Le(srcs, prios, w, x)
    ensures Ahead(srcs, prios, h', w)
  {
    hide Less;
    forall i | 0 <= i < |h'|
      ensures Le(srcs, prios, w, h'[i])
    {
      assert h'[i] in h || h'[i] == x;
    }
  }

  lemma {:induction false} SwapRoot(srcs: seq<EntryList>, prios: seq<int>, h: seq<nat>)
    requires |h| > 0 && Heads(srcs, prios, h) && Ordered(srcs, prios, h, 0, |h|)
    ensures var h' := Swapped(h, 0, |h| - 1);
            && Heads(srcs, prios, h') && Ordered(srcs, prios, h', 1, |h| - 1)
            && multiset(h') == multiset(h) && h'[|h| - 1] == h[0]
  {
    hide Less;
    SwapKeeps(h, 0, |h| - 1);
  }

  lemma {:induction false} CutLast(srcs: seq<EntryList>, prios: seq<int>, h: seq<nat>)
    requires |h| > 0 && Heads(srcs, prios, h) && Ordered(srcs, prios, h, 0, |h| - 1)
    ensures var h' := h[..|h| - 1];
            && Heads(srcs, prios, h') && Ordered(srcs, prios, h', 0, |h'|)
            && multiset(h) == multiset(h') + multiset{h[|h| - 1]}
  {
    hide Less;
    assert h == h[..|h| - 1] + [h[|h| - 1]];
  }

  lemma {:induction false} LesserChild(srcs: seq<EntryList>, prios: seq<int>, h: seq<nat>, i: nat, j: nat, n: nat)
    requires Heads(srcs, prios, h) && n <= |h| && j < n && Child(i, j)
    requires j == 2 * i + 1 ==> 2 * i + 2 >= n || !Less(srcs, prios, h[2 * i + 2], h[2 * i + 1])
    requires j == 2 * i + 2 ==> Less(srcs, prios, h[2 * i + 2], h[2 * i + 1])
    ensures forall c: nat :: c < n && Child(i, c) ==> Le(srcs, prios, h[j], h[c])
  {
  }

  lemma {:induction false} EndOfSink(srcs: seq<EntryList>, prios: seq<int>, h: seq<nat>, lo: nat, n: nat, i: nat,
                                     j: nat)
    requires Heads(srcs, prios, h) && Sinking(srcs, prios, h, lo, n, i) && Child(i, j) && j < n
    requires forall c: nat :: c < n && Child(i, c) ==> Le(srcs, prios, h[j], h[c])
    requires !Less(srcs, prios, h[j], h[i])
    ensures Ordered(srcs, prios, h, lo, n)
  {
    hide Rank;
    hide Compare;
    SinkEnd(srcs, prios, h, lo, n, i);
  }

  lemma {:induction false} LeastOfAll(srcs: seq<EntryList>, prios: seq<int>, h: seq<nat>, h': seq<nat>)
    requires Heads(srcs, prios, h) && |h| > 0 && Ordered(srcs, prios, h, 0, |h|) && Heads(srcs, prios, h')
    requires multiset(h) == multiset(h') + multiset{h[0]}
    ensures Ahead(srcs, prios, h', h[0])
  {
    hide Less;
    forall i | 0 <= i < |h'|
      ensures Le(srcs, prios, h[0], h'[i])
    {
      assert h'[i] in multiset(h);
      var c :| 0 <= c < |h| && h[c] == h'[i];
      RootIsLeast(srcs, prios, h, |h|, c);
    }
  }
}
