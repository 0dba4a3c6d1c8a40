/** The skip list (memtable/skiplist.go): linked nodes of any heights, updated in place, which
    together are a sorted association list. */
module SkipLists {
  import opened Prelude
  import opened Keys

  const MAX_LEVEL: nat := 20

  /** No value is a tombstone. */
  datatype Item = Item(key: Key, value: Option<Bytes>)

  type Items = seq<Item>

  // ---------- the sorted association list ----------

  ghost predicate InOrder(s: Items)
  {
    forall i, j :: 0 <= i < j < |s| ==> Rank(s[i].key) < Rank(s[j].key)
  }

  /** The place of the first key that is not below k. */
  function Place(s: Items, k: Key): (r: nat)
    ensures r <= |s| && (forall i :: 0 <= i < r ==> Rank(s[i].key) < Rank(k))
    ensures r < |s| ==> Rank(s[r].key) >= Rank(k)
  {
    if s == [] || Compare(s[0].key, k) >= 0 then 0
    else
      assert forall i :: 0 < i < |s| ==> s[i] == s[1..][i - 1];
      1 + Place(s[1..], k)
  }

  function Upserted(s: Items, k: Key, v: Option<Bytes>): (r: Items)
  {
    var p := Place(s, k);
    if p < |s| && s[p].key == k then s[p := Item(k, v)] else s[..p] + [Item(k, v)] + s[p..]
  }

  function AsMap(s: Items): (r: map<Key, Option<Bytes>>)
  {
    if s == [] then map[] else AsMap(s[..|s| - 1])[s[|s| - 1].key := s[|s| - 1].value]
  }

  lemma {:induction false} PlaceIs(s: Items, k: Key, p: nat)
    requires InOrder(s) && p <= |s| && (p > 0 ==> Rank(s[p - 1].key) < Rank(k))
             && (p < |s| ==> Rank(s[p].key) >= Rank(k))
    ensures Place(s, k) == p
  {
    hide RankFrom;
    var q := Place(s, k);
  }

  lemma {:induction false} MapOf(s: Items, k: Key)
    requires InOrder(s)
    ensures k in AsMap(s) <==> exists i :: 0 <= i < |s| && s[i].key == k
    ensures forall i :: 0 <= i < |s| && s[i].key == k ==> AsMap(s)[k] == s[i].value
  {
    hide RankFrom;
    if s != [] {
      var n := |s| - 1;
      MapOf(s[..n], k);
      assert forall i :: 0 <= i < n ==> s[..n][i] == s[i];
      forall i | 0 <= i < |s| && s[i].key == k
        ensures k in AsMap(s) && AsMap(s)[k] == s[i].value
      {
        if i < n {
          assert s[..n][i].key == k;
          assert Rank(s[i].key) < Rank(s[n].key);
        }
      }
      if k in AsMap(s) && k != s[n].key {
        var i :| 0 <= i < n && s[..n][i].key == k;
        assert s[i].key == k;
      }
    }
  }

  lemma {:induction false} UpsertedInOrder(s: Items, k: Key, v: Option<Bytes>)
    requires InOrder(s)
    ensures InOrder(Upserted(s, k, v))
  {
    hide Rank;
    var p := Place(s, k);
    if p == |s| || s[p].key != k {
      assert p < |s| ==> Compare(s[p].key, k) != 0;
      hide Place;
      InsertedInOrder(s, p, Item(k, v));
    }
  }

  lemma {:induction false} InsertedInOrder(s: Items, p: nat, e: Item)
    requires InOrder(s) && p <= |s|
    requires (p > 0 ==> Rank(s[p - 1].key) < Rank(e.key)) && (p < |s| ==> Rank(s[p].key) > Rank(e.key))
    ensures InOrder(s[..p] + [e] + s[p..])
  {
    hide Rank;
    var s' := s[..p] + [e] + s[p..];
    forall i, j | 0 <= i < j < |s'|
      ensures Rank(s'[i].key) < Rank(s'[j].key)
    {
      assert i == p || s'[i] == s[if i < p then i else i - 1];
      assert j == p || s'[j] == s[if j < p then j else j - 1];
    }
  }

  /** The list after an upsert stands for the updated map. */
  lemma {:induction false} UpsertedMap(s: Items, k: Key, v: Option<Bytes>)
    requires InOrder(s)
    ensures AsMap(Upserted(s, k, v)) == AsMap(s)[k := v]
  {
    hide AsMap;
    var s' := Upserted(s, k, v);
    UpsertedInOrder(s, k, v);
    forall x
      ensures x in AsMap(s') <==> x in AsMap(s) || x == k
      ensures x in AsMap(s') ==> AsMap(s')[x] == if x == k then v else AsMap(s)[x]
    {
      MapOf(s, x);
      MapOf(s', x);
      UpsertedAt(s, k, v, x);
    }
  }

  lemma {:induction false} OldItem(s: Items, k: Key, v: Option<Bytes>, i: nat)
    requires i < |s| && s[i].key != k
    ensures exists j :: 0 <= j < |Upserted(s, k, v)| && Upserted(s, k, v)[j] == s[i]
  {
    hide Rank;
    var p := Place(s, k);
    var there := p < |s| && s[p].key == k;
    assert Upserted(s, k, v)[if there || i < p then i else i + 1] == s[i];
  }

  lemma {:induction false} NewItem(s: Items, k: Key, v: Option<Bytes>, j: nat)
    requires j < |Upserted(s, k, v)| && Upserted(s, k, v)[j].key != k
    ensures exists i :: 0 <= i < |s| && s[i] == Upserted(s, k, v)[j]
  {
    hide Rank;
    var p := Place(s, k);
    var there := p < |s| && s[p].key == k;
    assert s[if there || j < p then j else j - 1] == Upserted(s, k, v)[j];
  }

  lemma {:induction false} KeyItem(s: Items, k: Key, v: Option<Bytes>)
    ensures exists i :: 0 <= i < |Upserted(s, k, v)| && Upserted(s, k, v)[i] == Item(k, v)
  {
    hide Rank;
    assert Upserted(s, k, v)[Place(s, k)] == Item(k, v);
  }

  lemma {:induction false} UpsertedAt(s: Items, k: Key, v: Option<Bytes>, x: Key)
    ensures var s' := Upserted(s, k, v);
            && (exists i :: 0 <= i < |s'| && s'[i] == Item(k, v))
            && (x != k ==> forall i :: 0 <= i < |s| && s[i].key == x ==> exists j :: 0 <= j < |s'| && s'[j] == s[i])
            && (forall j :: 0 <= j < |s'| && s'[j].key == x && x != k ==> exists i :: 0 <= i < |s| && s[i] == s'[j])
  {
    hide Upserted;
    var s' := Upserted(s, k, v);
    KeyItem(s, k, v);
    if x != k {
      forall i | 0 <= i < |s| && s[i].key == x
        ensures exists j :: 0 <= j < |s'| && s'[j] == s[i]
      {
        OldItem(s, k, v, i);
      }
      forall j | 0 <= j < |s'| && s'[j].key == x
        ensures exists i :: 0 <= i < |s| && s[i] == s'[j]
      {
        NewItem(s, k, v, j);
      }
    }
  }

  // ---------- nodes ----------

  class Node {
    const key: Key
    const height: nat
    var value: Option<Bytes>
    var forward: seq<Node?>

    constructor (key: Key, value: Option<Bytes>, height: nat)
      ensures this.key == key && this.value == value && this.height == height
      ensures forward == seq(height, i => null)
    {
      this.key, this.value, this.height := key, value, height;
      forward := seq(height, i => null);
    }
  }

  /** The first node from a place on that is taller than i. */
  ghost function NextTall(all: seq<Node>, from: nat, i: nat): (q: nat)
    requires from <= |all|
    ensures from <= q <= |all| && (forall r :: from <= r < q ==> all[r].height <= i)
    ensures q < |all| ==> all[q].height > i
    decreases |all| - from
  {
    if from == |all| || all[from].height > i then from else NextTall(all, from + 1, i)
  }

  ghost function At(all: seq<Node>, q: nat): (r: Node?)
  {
    if q < |all| then all[q] else null
  }

  lemma {:induction false} NextTallIs(all: seq<Node>, from: nat, i: nat, q: nat)
    requires from <= q <= |all| && (forall r :: from <= r < q ==> all[r].height <= i)
             && (q < |all| ==> all[q].height > i)
    ensures NextTall(all, from, i) == q
  {
  }

  /** Each level links the nodes tall enough for it, in order. */
  ghost predicate Linked(all: seq<Node>)
    reads all`forward
  {
    && (forall p :: 0 <= p < |all| ==> |all[p].forward| == all[p].height)
    && forall p: nat, i: nat :: p < |all| && i < all[p].height ==>
         all[p].forward[i] == At(all, NextTall(all, p + 1, i))
  }

  ghost predicate KeysInOrder(all: seq<Node>)
  {
    forall i, j :: 1 <= i < j < |all| ==> Rank(all[i].key) < Rank(all[j].key)
  }

  ghost predicate HeightsIn(all: seq<Node>, level: nat)
  {
    forall p :: 1 <= p < |all| ==> 1 <= all[p].height <= level
  }

  ghost predicate AllDistinct(all: seq<Node>)
  {
    forall i, j :: 0 <= i < j < |all| ==> all[i] != all[j]
  }

  ghost function ItemsOf(nodes: seq<Node>): (r: Items)
    reads nodes`value
    ensures |r| == |nodes| && forall i :: 0 <= i < |nodes| ==> r[i] == Item(nodes[i].key, nodes[i].value)
  {
    if nodes == [] then []
    else
      var n := |nodes| - 1;
      ItemsOf(nodes[..n]) + [Item(nodes[n].key, nodes[n].value)]
  }

  function ValueSize(v: Option<Bytes>): (r: nat)
  {
    if v.Some? then |v.value| else 0
  }

  ghost function Heights(nodes: seq<Node>): (r: seq<nat>)
    ensures |r| == |nodes| && forall i :: 0 <= i < |nodes| ==> r[i] == nodes[i].height
  {
    seq(|nodes|, i requires 0 <= i < |nodes| => nodes[i].height)
  }

  /** What the nodes take by the source's reckoning. */
  ghost function SizeOf(s: Items, heights: seq<nat>): (r: int)
    requires |s| == |heights|
  {
    if s == [] then 0
    else
      var n := |s| - 1;
      SizeOf(s[..n], heights[..n]) + |s[n].key| + ValueSize(s[n].value) + heights[n] * 8 + 64
  }

  lemma {:induction false} SizeReplaced(s: Items, hs: seq<nat>, p: nat, v: Option<Bytes>)
    requires |s| == |hs| && p < |s|
    ensures SizeOf(s[p := Item(s[p].key, v)], hs) == SizeOf(s, hs) + ValueSize(v) - ValueSize(s[p].value)
  {
    var n := |s| - 1;
    var s' := s[p := Item(s[p].key, v)];
    if p < n {
      SizeReplaced(s[..n], hs[..n], p, v);
      assert s'[..n] == s[..n][p := Item(s[p].key, v)];
    } else {
      assert s'[..n] == s[..n];
    }
  }

  lemma {:induction false} SizeInserted(s: Items, hs: seq<nat>, p: nat, e: Item, h: nat)
    requires |s| == |hs| && p <= |s|
    ensures SizeOf(s[..p] + [e] + s[p..], hs[..p] + [h] + hs[p..]) ==
            SizeOf(s, hs) + |e.key| + ValueSize(e.value) + h * 8 + 64
  {
    var s', hs' := s[..p] + [e] + s[p..], hs[..p] + [h] + hs[p..];
    var n := |s|;
    if p < n {
      SizeInserted(s[..n - 1], hs[..n - 1], p, e, h);
      assert s'[..n] == s[..n - 1][..p] + [e] + s[..n - 1][p..];
      assert hs'[..n] == hs[..n - 1][..p] + [h] + hs[..n - 1][p..];
      assert s'[n] == s[n - 1] && hs'[n] == hs[n - 1];
    } else {
      assert s'[..n] == s && hs'[..n] == hs;
    }
  }

  /** After a search: the node at u is the last below the key that is taller than i. */
  ghost predicate LastBelow(all: seq<Node>, key: Key, i: nat, u: nat)
  {
    && u < |all| && all[u].height > i && (u == 0 || Rank(all[u].key) < Rank(key))
    && var q := NextTall(all, u + 1, i); q < |all| ==> Rank(all[q].key) >= Rank(key)
  }

  class SkipList {
    var head: Node
    var level: nat
    var count: nat
    var size: int
    ghost var all: seq<Node>      // head, then the nodes in order

    ghost predicate Valid()
      reads this, all
    {
      && |all| > 0 && all[0] == head && head.height == MAX_LEVEL
      && AllDistinct(all) && KeysInOrder(all) && Linked(all)
      && level <= MAX_LEVEL && HeightsIn(all, level)
      && count == |all| - 1 && size == SizeOf(ItemsOf(all[1..]), Heights(all[1..]))
    }

    ghost function Contents(): (r: Items)
      reads this, all
      requires Valid()
    {
      ItemsOf(all[1..])
    }

    constructor ()
      ensures Valid() && Contents() == [] && fresh(all)
    {
      head := new Node([], None, MAX_LEVEL);
      level, count, size := 0, 0, 0;
      new;
      all := [head];
    }

    /** The search loops: down the levels, along each as long as keys are below the target. */
    method Descend(key: Key) returns (current: Node, update: seq<Node?>, ghost p: nat, ghost ups: seq<nat>)
      requires Valid()
      ensures p < |all| && current == all[p] && (p == 0 || Rank(all[p].key) < Rank(key))
      ensures p + 1 < |all| ==> Rank(all[p + 1].key) >= Rank(key)
      ensures |update| == MAX_LEVEL && |ups| == MAX_LEVEL
      ensures forall j :: 0 <= j < level ==> LastBelow(all, key, j, ups[j]) && update[j] == all[ups[j]]
    {
      hide AllDistinct;
      hide KeysInOrder;
      hide SizeOf;
      hide ItemsOf;
      hide Heights;
      hide NextTall;
      hide Rank;
      update, ups := seq(MAX_LEVEL, i => null), seq(MAX_LEVEL, i => 0);
      current, p := head, 0;
      var i := level;
      while i > 0
        invariant 0 <= i <= level && |update| == MAX_LEVEL && |ups| == MAX_LEVEL
        invariant p < |all| && current == all[p] && (p == 0 || Rank(all[p].key) < Rank(key)) && all[p].height >= i
        invariant forall j :: i <= j < level ==> LastBelow(all, key, j, ups[j]) && update[j] == all[ups[j]]
        invariant i < level ==> LastBelow(all, key, i, p)
      {
        i := i - 1;
        while current.forward[i] != null && Compare(current.forward[i].key, key) < 0
          invariant p < |all| && current == all[p] && (p == 0 || Rank(all[p].key) < Rank(key)) && all[p].height > i
          decreases |all| - p
        {
          p := NextTall(all, p + 1, i);
          current := current.forward[i];
        }
        update, ups := update[i := current], ups[i := p];
      }
      if level > 0 && p + 1 < |all| {
        NextTallIs(all, p + 1, 0, p + 1);
      }
    }

    /** Get; a tombstone is found with no value. */
    method Get(key: Key) returns (value: Option<Bytes>, found: bool)
      requires Valid()
      ensures found <==> key in AsMap(Contents())
      ensures found ==> value == AsMap(Contents())[key]
    {
      hide LastBelow;
      hide AsMap;
      hide AllDistinct;
      hide KeysInOrder;
      hide Linked;
      hide SizeOf;
      hide Heights;
      hide Rank;
      hide HeightsIn;
      var current, update, p, ups := Descend(key);
      value, found := None, false;
      AfterDescend(all, p, level);
      var target := current.forward[0];
      ContentsAt(all, key, p);
      if target != null && target.key == key {
        value, found := target.value, true;
      }
    }

    /** Put with the height drawn for a new node; no value is Delete. */
    method Put(key: Key, value: Option<Bytes>, lvl: nat)
      requires Valid() && 1 <= lvl <= MAX_LEVEL
      modifies this, all
      ensures Valid() && Contents() == Upserted(old(Contents()), key, value)
      ensures AsMap(Contents()) == old(AsMap(Contents()))[key := value]
      ensures forall q :: 0 <= q < |all| ==> all[q] in old(all) || fresh(all[q])
    {
      hide LastBelow;
      hide AsMap;
      hide AllDistinct;
      hide KeysInOrder;
      hide Linked;
      hide SizeOf;
      hide Heights;
      hide Upserted;
      hide Place;
      hide Rank;
      hide HeightsIn;
      ItemsInOrder(all);
      UpsertedMap(Contents(), key, value);
      var current, update, p, ups := Descend(key);
      AfterDescend(all, p, level);
      var target := current.forward[0];
      ContentsAt(all, key, p);
      assert target != null && target.key != key ==> Compare(target.key, key) != 0;
      if target != null && target.key == key {
        Replace(key, target, p, value);
      } else {
        Insert(key, value, lvl, update, p, ups);
      }
    }

    method Replace(key: Key, target: Node, ghost p: nat, value: Option<Bytes>)
      requires Valid() && p + 1 < |all| && target == all[p + 1] && target.key == key && Place(Contents(), key) == p
      modifies this`size, target`value
      ensures Valid() && Contents() == Upserted(old(Contents()), key, value)
    {
      hide AsMap;
      hide Rank;
      hide KeysInOrder;
      hide Linked;
      hide SizeOf;
      hide Heights;
      hide Place;
      ghost var s, hs := Contents(), Heights(all[1..]);
      SizeReplaced(s, hs, p, value);
      size := size + ValueSize(value) - ValueSize(target.value);
      target.value := value;
      assert ItemsOf(all[1..]) == s[p := Item(key, value)];
    }

    /** The head is what precedes a new node on levels not used so far. */
    method Extend(key: Key, lvl: nat, update0: seq<Node?>, ghost ups0: seq<nat>)
      returns (update: seq<Node?>, ghost ups: seq<nat>)
      requires Valid() && lvl <= MAX_LEVEL && |update0| == MAX_LEVEL && |ups0| == MAX_LEVEL
      requires forall j :: 0 <= j < level ==> LastBelow(all, key, j, ups0[j]) && update0[j] == all[ups0[j]]
      ensures |update| == MAX_LEVEL && |ups| == MAX_LEVEL
      ensures forall j :: 0 <= j < lvl ==> LastBelow(all, key, j, ups[j]) && update[j] == all[ups[j]]
    {
      hide NextTall;
      hide Rank;
      hide AllDistinct;
      hide KeysInOrder;
      hide Linked;
      update, ups := update0, ups0;
      if lvl > level {
        for i := level to lvl
          invariant |update| == MAX_LEVEL && |ups| == MAX_LEVEL
          invariant forall j :: 0 <= j < i ==> LastBelow(all, key, j, ups[j]) && update[j] == all[ups[j]]
        {
          HeadIsLast(all, key, i);
          update, ups := update[i := head], ups[i := 0];
        }
      }
    }

    /** A new node behind place p. */
    method Insert(key: Key, value: Option<Bytes>, lvl: nat, update0: seq<Node?>, ghost p: nat, ghost ups0: seq<nat>)
      requires Valid() && 1 <= lvl <= MAX_LEVEL && p < |all| && Place(Contents(), key) == p
      requires (p == 0 || Rank(all[p].key) < Rank(key)) && (p + 1 < |all| ==> Rank(all[p + 1].key) > Rank(key))
      requires |update0| == MAX_LEVEL && |ups0| == MAX_LEVEL
      requires forall j :: 0 <= j < level ==> LastBelow(all, key, j, ups0[j]) && update0[j] == all[ups0[j]]
      modifies this, all
      ensures Valid() && Contents() == Upserted(old(Contents()), key, value)
      ensures forall q :: 0 <= q < |all| ==> all[q] in old(all) || fresh(all[q])
    {
      hide Rank;
      hide HeightsIn;
      hide NextTall;
      hide AllDistinct;
      hide KeysInOrder;
      hide SizeOf;
      hide Heights;
      hide ItemsOf;
      hide LastBelow;
      hide Place;
      hide AsMap;
      hide With;
      hide Upserted;
      hide Linked;
      var update, ups := Extend(key, lvl, update0, ups0);
      var n := new Node(key, value, lvl);
      ghost var all0, s, level0 := all, ItemsOf(all[1..]), level;
      Link(n, update, p, ups);
      level, count, size := if lvl > level then lvl else level, count + 1, size + |key| + ValueSize(value) + lvl * 8 +
          64;
      assert ItemsOf(all0[1..]) == s;
      WithItems(all0, p, n);
      InsertedShape(all0, all, n, p, level0, level);
      MissingKey(s, key, value, p);
      WithMembers(all0, p, n);
    }

    /** The new node takes its place on every level it reaches. */
    method Link(n: Node, update: seq<Node?>, ghost p: nat, ghost ups: seq<nat>)
      requires p < |all| && AllDistinct(all) && KeysInOrder(all) && Linked(all)
      requires (p == 0 || Rank(all[p].key) < Rank(n.key)) && (p + 1 < |all| ==> Rank(all[p + 1].key) > Rank(n.key))
      requires n !in all && |n.forward| == n.height && n.height <= |update| && n.height <= |ups|
      requires forall j :: 0 <= j < n.height ==> LastBelow(all, n.key, j, ups[j]) && update[j] == all[ups[j]]
      modifies this`all, n`forward, all`forward
      ensures all == With(old(all), p, n) && Linked(all)
    {
      hide Rank;
      hide NextTall;
      hide AllDistinct;
      hide KeysInOrder;
      hide LastBelow;
      hide With;
      hide Spliced;
      hide WasLinked;
      hide Linked;
      ghost var was := Forwards(all);
      NowLinked(all);
      RecordedTall(all, n.key, n.height, ups);
      Splice(n, update, ups);
      InsertLinks(all, n, p, n.key, ups, was);
      all := With(all, p, n);
    }

    /** The linking loop. */
    method Splice(n: Node, update: seq<Node?>, ghost ups: seq<nat>)
      requires |update| >= n.height && |ups| >= n.height && |n.forward| == n.height && n !in all && AllDistinct(all)
      requires forall r :: 0 <= r < |all| ==> |all[r].forward| == all[r].height
      requires forall i :: 0 <= i < n.height ==> ups[i] < |all| && update[i] == all[ups[i]] && i < all[ups[i]].height
      modifies n`forward, all`forward
      ensures Spliced(all, n, ups, old(Forwards(all)))
    {
      ghost var was := Forwards(all);
      for i := 0 to n.height
        invariant |n.forward| == n.height && forall j :: 0 <= j < i ==> n.forward[j] == was[ups[j]][j]
        invariant forall r :: 0 <= r < |all| ==> |all[r].forward| == all[r].height
        invariant forall r, j :: 0 <= r < |all| && 0 <= j < all[r].height ==>
                    all[r].forward[j] == if j < i && ups[j] == r then n else was[r][j]
      {
        var u := update[i];
        n.forward := n.forward[i := u.forward[i]];
        u.forward := u.forward[i := n];
      }
    }
  }

  ghost predicate WasLinked(all: seq<Node>, was: seq<seq<Node?>>)
  {
    && |was| == |all| && (forall r :: 0 <= r < |all| ==> |was[r]| == all[r].height)
    && forall r: nat, i: nat :: r < |all| && i < all[r].height ==> was[r][i] == At(all, NextTall(all, r + 1, i))
  }

  /** On each level of n the recorded node now leads to n, and n to where that node led. */
  ghost predicate Spliced(all: seq<Node>, n: Node, ups: seq<nat>, was: seq<seq<Node?>>)
    reads all`forward, n`forward
  {
    && |was| == |all| && n.height <= |ups| && |n.forward| == n.height
    && (forall r :: 0 <= r < |all| ==> |was[r]| == all[r].height == |all[r].forward|)
    && (forall i :: 0 <= i < n.height ==> ups[i] < |all| && i < all[ups[i]].height && n.forward[i] == was[ups[i]][i])
    && (forall r, i :: 0 <= r < |all| && 0 <= i < all[r].height ==>
          all[r].forward[i] == if i < n.height && ups[i] == r then n else was[r][i])
  }

  ghost function Forwards(all: seq<Node>): (r: seq<seq<Node?>>)
    reads all
    ensures |r| == |all| && forall p :: 0 <= p < |all| ==> r[p] == all[p].forward
  {
    seq(|all|, p requires 0 <= p < |all| reads all => all[p].forward)
  }

  lemma {:induction false} NowLinked(all: seq<Node>)
    requires Linked(all)
    ensures WasLinked(all, Forwards(all)) && forall r :: 0 <= r < |all| ==> |all[r].forward| == all[r].height
  {
    hide NextTall;
  }

  lemma {:induction false} RecordedTall(all: seq<Node>, key: Key, lvl: nat, ups: seq<nat>)
    requires lvl <= |ups| && forall i :: 0 <= i < lvl ==> LastBelow(all, key, i, ups[i])
    ensures forall i :: 0 <= i < lvl ==> ups[i] < |all| && i < all[ups[i]].height
  {
    hide Rank;
    hide NextTall;
  }

  lemma {:induction false} WithItems(all: seq<Node>, p: nat, n: Node)
    requires p < |all|
    ensures var all' := With(all, p, n);
            var s := ItemsOf(all[1..]);
            var e := Item(n.key, n.value);
            && |s| == |all| - 1
            && ItemsOf(all'[1..]) == s[..p] + [e] + s[p..]
            && SizeOf(ItemsOf(all'[1..]), Heights(all'[1..])) ==
               SizeOf(s, Heights(all[1..])) + |n.key| + ValueSize(n.value) + n.height * 8 + 64
  {
    hide SizeOf;
    var all' := With(all, p, n);
    var s, hs := ItemsOf(all[1..]), Heights(all[1..]);
    var e := Item(n.key, n.value);
    SizeInserted(s, hs, p, e, n.height);
    forall i | 0 <= i < |all|
      ensures ItemsOf(all'[1..])[i] == (s[..p] + [e] + s[p..])[i]
      ensures Heights(all'[1..])[i] == (hs[..p] + [n.height] + hs[p..])[i]
    {
      assert i == p || all'[i + 1] == all[if i < p then i + 1 else i];
    }
    assert ItemsOf(all'[1..]) == s[..p] + [e] + s[p..];
    assert Heights(all'[1..]) == hs[..p] + [n.height] + hs[p..];
  }

  lemma {:induction false} WithMembers(all: seq<Node>, p: nat, n: Node)
    requires p < |all|
    ensures forall x :: x in With(all, p, n) ==> x in all || x == n
  {
  }

  lemma {:induction false} MissingKey(s: Items, key: Key, v: Option<Bytes>, p: nat)
    requires Place(s, key) == p && (p < |s| ==> s[p].key != key)
    ensures Upserted(s, key, v) == s[..p] + [Item(key, v)] + s[p..]
  {
  }

  lemma {:induction false} HeadIsLast(all: seq<Node>, key: Key, i: nat)
    requires |all| > 0 && all[0].height > i && forall p :: 1 <= p < |all| ==> all[p].height <= i
    ensures LastBelow(all, key, i, 0)
  {
  }

  /** Where the levels run past place p: from the recorded node, over no other tall enough. */
  lemma {:induction false} LastBelowIs(all: seq<Node>, key: Key, i: nat, u: nat, p: nat)
    requires KeysInOrder(all) && LastBelow(all, key, i, u) && p < |all|
    requires (p == 0 || Rank(all[p].key) < Rank(key)) && (p + 1 < |all| ==> Rank(all[p + 1].key) > Rank(key))
    ensures u <= p && NextTall(all, u + 1, i) > p
  {
    hide Rank;
    hide NextTall;
  }

  /** Of the nodes up to place p that are tall enough, exactly the recorded one links past p. */
  lemma {:induction false} OnlyRecorded(all: seq<Node>, key: Key, i: nat, u: nat, p: nat, r: nat)
    requires KeysInOrder(all) && LastBelow(all, key, i, u) && p < |all| && r < |all| && all[r].height > i
    requires (p == 0 || Rank(all[p].key) < Rank(key)) && (p + 1 < |all| ==> Rank(all[p + 1].key) > Rank(key))
    ensures u <= p && (r <= p ==> (r == u <==> NextTall(all, r + 1, i) > p))
  {
    LastBelowIs(all, key, i, u, p);
    hide Rank;
    hide NextTall;
    hide KeysInOrder;
  }

  ghost function With(all: seq<Node>, p: nat, n: Node): (r: seq<Node>)
    requires p < |all|
    ensures |r| == |all| + 1
  {
    all[..p + 1] + [n] + all[p + 1..]
  }

  lemma {:induction false} WithAt(all: seq<Node>, p: nat, n: Node)
    requires p < |all|
    ensures var all' := With(all, p, n);
            && all'[p + 1] == n
            && (forall q :: 0 <= q <= p ==> all'[q] == all[q])
            && (forall q :: p < q < |all| ==> all'[q + 1] == all[q])
  {
  }

  lemma {:induction false} NextTallEarly(all: seq<Node>, p: nat, n: Node, from: nat, i: nat)
    requires p < |all| && from <= p + 1
    ensures var q := NextTall(all, from, i);
            NextTall(With(all, p, n), from, i) == if q <= p then q else if n.height > i then p + 1 else q + 1
  {
    var all' := With(all, p, n);
    var q := NextTall(all, from, i);
    var q' := if q <= p then q else if n.height > i then p + 1 else q + 1;
    forall r | from <= r < q'
      ensures all'[r].height <= i
    {
      assert all'[r] == if r <= p then all[r] else if r == p + 1 then n else all[r - 1];
    }
    assert q' < |all'| ==> all'[q'] == if q <= p then all[q] else if n.height > i then n else all[q];
    NextTallIs(all', from, i, q');
  }

  lemma {:induction false} NextTallLate(all: seq<Node>, p: nat, n: Node, from: nat, i: nat)
    requires p < |all| && p < from <= |all|
    ensures NextTall(With(all, p, n), from + 1, i) == NextTall(all, from, i) + 1
  {
    var all' := With(all, p, n);
    var q := NextTall(all, from, i);
    forall r | from + 1 <= r < q + 1
      ensures all'[r].height <= i
    {
      assert all'[r] == all[r - 1];
    }
    assert q < |all| ==> all'[q + 1] == all[q];
    NextTallIs(all', from + 1, i, q + 1);
  }

  /** The link a node should have after the insertion, from the one it had before. */
  lemma {:induction false} LinkAfter(all: seq<Node>, n: Node, p: nat, key: Key, i: nat, u: nat, r: nat)
    requires KeysInOrder(all) && p < |all| && r < |all| && i < all[r].height
    requires (p == 0 || Rank(all[p].key) < Rank(key)) && (p + 1 < |all| ==> Rank(all[p + 1].key) > Rank(key))
    requires i < n.height ==> LastBelow(all, key, i, u)
    ensures var r' := if r <= p then r else r + 1;
            At(With(all, p, n), NextTall(With(all, p, n), r' + 1, i)) ==
            if i < n.height && r == u then n else At(all, NextTall(all, r + 1, i))
  {
    hide Rank;
    hide With;
    hide NextTall;
    hide LastBelow;
    hide KeysInOrder;
    var q := NextTall(all, r + 1, i);
    WithAt(all, p, n);
    if i < n.height {
      OnlyRecorded(all, key, i, u, p, r);
    }
    if r <= p {
      NextTallEarly(all, p, n, r + 1, i);
    } else {
      NextTallLate(all, p, n, r + 1, i);
    }
  }

  lemma {:induction false} SplicedOld(all: seq<Node>, n: Node, p: nat, key: Key, ups: seq<nat>, was: seq<seq<Node?>>,
                                      r: nat, i: nat)
    requires KeysInOrder(all) && p < |all| && r < |all| && i < all[r].height && WasLinked(all, was)
             && Spliced(all, n, ups, was)
    requires (p == 0 || Rank(all[p].key) < Rank(key)) && (p + 1 < |all| ==> Rank(all[p + 1].key) > Rank(key))
    requires i < n.height ==> LastBelow(all, key, i, ups[i])
    ensures var r' := if r <= p then r else r + 1;
            |all[r].forward| == all[r].height
                && all[r].forward[i] == At(With(all, p, n), NextTall(With(all, p, n), r' + 1, i))
  {
    hide Rank;
    hide With;
    hide LastBelow;
    hide NextTall;
    hide KeysInOrder;
    hide At;
    hide Spliced;
    hide WasLinked;
    SplicedAt(all, n, ups, was, r, i);
    LinkAfter(all, n, p, key, i, if i < n.height then ups[i] else 0, r);
  }

  lemma {:induction false} SplicedAt(all: seq<Node>, n: Node, ups: seq<nat>, was: seq<seq<Node?>>, r: nat, i: nat)
    requires WasLinked(all, was) && Spliced(all, n, ups, was) && r < |all| && i < all[r].height
    ensures n.height <= |ups| && |all[r].forward| == all[r].height
    ensures all[r].forward[i] == if i < n.height && ups[i] == r then n else At(all, NextTall(all, r + 1, i))
  {
    hide NextTall;
    hide At;
    assert was[r][i] == At(all, NextTall(all, r + 1, i));
  }

  lemma {:induction false} SplicedNew(all: seq<Node>, n: Node, p: nat, key: Key, ups: seq<nat>, was: seq<seq<Node?>>,
                                      i: nat)
    requires KeysInOrder(all) && p < |all| && i < n.height && WasLinked(all, was) && Spliced(all, n, ups, was)
    requires (p == 0 || Rank(all[p].key) < Rank(key)) && (p + 1 < |all| ==> Rank(all[p + 1].key) > Rank(key))
    requires LastBelow(all, key, i, ups[i])
    ensures |n.forward| == n.height && n.forward[i] == At(With(all, p, n), NextTall(With(all, p, n), p + 2, i))
  {
    hide Rank;
    hide With;
    hide LastBelow;
    hide NextTall;
    hide KeysInOrder;
    hide At;
    NewLink(all, n, p, key, i, ups[i]);
  }

  lemma {:induction false} InsertLinks(all: seq<Node>, n: Node, p: nat, key: Key, ups: seq<nat>, was: seq<seq<Node?>>)
    requires KeysInOrder(all) && p < |all| && n.height <= |ups| && WasLinked(all, was) && Spliced(all, n, ups, was)
    requires (p == 0 || Rank(all[p].key) < Rank(key)) && (p + 1 < |all| ==> Rank(all[p + 1].key) > Rank(key))
    requires forall i :: 0 <= i < n.height ==> LastBelow(all, key, i, ups[i])
    ensures Linked(With(all, p, n))
  {
    hide Rank;
    hide With;
    hide LastBelow;
    hide NextTall;
    hide KeysInOrder;
    hide WasLinked;
    hide At;
    var all' := With(all, p, n);
    WithAt(all, p, n);
    SplicedSizes(all, n, p, ups, was);
    hide Spliced;
    forall r': nat, i: nat | r' < |all'| && i < all'[r'].height
      ensures all'[r'].forward[i] == At(all', NextTall(all', r' + 1, i))
    {
      if r' == p + 1 {
        SplicedNew(all, n, p, key, ups, was, i);
      } else {
        var r := if r' <= p then r' else r' - 1;
        assert all'[r'] == all[r];
        SplicedOld(all, n, p, key, ups, was, r, i);
      }
    }
  }

  lemma {:induction false} SplicedSizes(all: seq<Node>, n: Node, p: nat, ups: seq<nat>, was: seq<seq<Node?>>)
    requires p < |all| && Spliced(all, n, ups, was)
    ensures var all' := With(all, p, n); forall r :: 0 <= r < |all'| ==> |all'[r].forward| == all'[r].height
  {
    var all' := With(all, p, n);
    forall r | 0 <= r < |all'|
      ensures |all'[r].forward| == all'[r].height
    {
      assert r == p + 1 || all'[r] == all[if r <= p then r else r - 1];
    }
  }

  lemma {:induction false} NewLink(all: seq<Node>, n: Node, p: nat, key: Key, i: nat, u: nat)
    requires KeysInOrder(all) && p < |all| && i < n.height && LastBelow(all, key, i, u)
    requires (p == 0 || Rank(all[p].key) < Rank(key)) && (p + 1 < |all| ==> Rank(all[p + 1].key) > Rank(key))
    ensures At(With(all, p, n), NextTall(With(all, p, n), p + 2, i)) == At(all, NextTall(all, u + 1, i))
  {
    hide Rank;
    hide With;
    hide NextTall;
    WithAt(all, p, n);
    LastBelowIs(all, key, i, u, p);
    NextTallLate(all, p, n, p + 1, i);
    var q := NextTall(all, u + 1, i);
    NextTallIs(all, p + 1, i, q);
  }

  lemma {:induction false} InsertedShape(all: seq<Node>, all': seq<Node>, n: Node, p: nat, level0: nat, level: nat)
    requires p < |all| && all' == With(all, p, n) && AllDistinct(all) && KeysInOrder(all) && n !in all
    requires (p == 0 || Rank(all[p].key) < Rank(n.key)) && (p + 1 < |all| ==> Rank(all[p + 1].key) > Rank(n.key))
    requires HeightsIn(all, level0) && level0 <= level && 1 <= n.height <= level
    ensures AllDistinct(all') && KeysInOrder(all') && all'[0] == all[0]
    ensures HeightsIn(all', level)
  {
    hide Rank;
    forall i, j | 0 <= i < j < |all'|
      ensures all'[i] != all'[j] && (1 <= i ==> Rank(all'[i].key) < Rank(all'[j].key))
    {
      var a := if i <= p then i else i - 1;
      var b := if j <= p then j else j - 1;
      assert i == p + 1 || all'[i] == all[a];
      assert j == p + 1 || all'[j] == all[b];
    }
    forall q | 1 <= q < |all'|
      ensures 1 <= all'[q].height <= level
    {
      assert q == p + 1 || all'[q] == all[if q <= p then q else q - 1];
    }
  }

  lemma {:induction false} AfterDescend(all: seq<Node>, p: nat, level: nat)
    requires p < |all| && Linked(all) && all[0].height == MAX_LEVEL
    requires HeightsIn(all, level)
    ensures |all[p].forward| > 0 && all[p].forward[0] == At(all, p + 1)
  {
    NextTallIs(all, p + 1, 0, p + 1);
  }

  lemma {:induction false} ItemsInOrder(all: seq<Node>)
    requires |all| > 0 && KeysInOrder(all)
    ensures InOrder(ItemsOf(all[1..]))
  {
    hide RankFrom;
  }

  lemma {:induction false} ContentsAt(all: seq<Node>, key: Key, p: nat)
    requires |all| > 0 && KeysInOrder(all) && p < |all|
    requires (p == 0 || Rank(all[p].key) < Rank(key)) && (p + 1 < |all| ==> Rank(all[p + 1].key) >= Rank(key))
    ensures var s := ItemsOf(all[1..]);
            && Place(s, key) == p && InOrder(s)
            && (key in AsMap(s) <==> p + 1 < |all| && all[p + 1].key == key)
            && (key in AsMap(s) ==> AsMap(s)[key] == all[p + 1].value)
  {
    hide RankFrom;
    hide AsMap;
    var s := ItemsOf(all[1..]);
    ItemsInOrder(all);
    PlaceIs(s, key, p);
    MapOf(s, key);
    if key in AsMap(s) {
      var i :| 0 <= i < |s| && s[i].key == key;
      assert i == p;
    } else if p + 1 < |all| {
      assert s[p].key == all[p + 1].key;
    }
  }

  // ---------- iterating ----------

  class ListIterator {
    const list: SkipList
    var current: Node?
    ghost var at: nat

    ghost predicate Inv()
      reads this, list, list.all
    {
      list.Valid() && at < |list.all| && current == At(list.all, at + 1)
    }

    /** The items from the current one on. */
    ghost function Rest(): (r: Items)
      requires Inv()
      reads this, list, list.all
    {
      list.Contents()[at..]
    }

    constructor (list: SkipList)
      requires list.Valid()
      ensures this.list == list && Inv() && Rest() == []
    {
      this.list, current := list, null;
      at := |list.all| - 1;
    }

    method SeekToFirst()
      requires Inv()
      modifies `current, `at
      ensures Inv() && Rest() == list.Contents() && at == 0
    {
      hide KeysInOrder;
      hide AllDistinct;
      hide Linked;
      hide HeightsIn;
      hide SizeOf;
      hide Heights;
      AfterDescend(list.all, 0, list.level);
      current, at := list.head.forward[0], 0;
    }

    /** At the first key that is not below the target. */
    method Seek(target: Key)
      requires Inv()
      modifies `current, `at
      ensures Inv() && Rest() == list.Contents()[Place(list.Contents(), target)..]
    {
      hide KeysInOrder;
      hide AllDistinct;
      hide Linked;
      hide SizeOf;
      hide LastBelow;
      hide HeightsIn;
      hide Heights;
      hide AsMap;
      hide Place;
      hide Rank;
      hide NextTall;
      hide ItemsOf;
      var node, update, p, ups := list.Descend(target);
      AfterDescend(list.all, p, list.level);
      ContentsAt(list.all, target, p);
      current, at := node.forward[0], p;
    }

    method Next()
      requires Inv()
      modifies `current, `at
      ensures Inv() && Rest() == if old(Rest()) == [] then [] else old(Rest())[1..]
      ensures at == if old(at) < |list.Contents()| then old(at) + 1 else old(at)
    {
      hide KeysInOrder;
      hide AllDistinct;
      hide Linked;
      hide HeightsIn;
      hide SizeOf;
      hide Heights;
      if current != null {
        AfterDescend(list.all, at + 1, list.level);
        current, at := current.forward[0], at + 1;
      }
    }

    /** Valid, Key, Value and IsTombstone. */
    method Current() returns (e: Option<Item>)
      requires Inv()
      ensures e == if Rest() == [] then None else Some(Rest()[0])
      ensures at <= |list.Contents()| && e == if at == |list.Contents()| then None else Some(list.Contents()[at])
    {
      if current == null {
        return None;
      }
      return Some(Item(current.key, current.value));
    }
  }

  /** The iteration of a flush: all items, in order. */
  method Collect(list: SkipList) returns (items: Items)
    requires list.Valid()
    ensures items == old(list.Contents())
  {
    hide SkipList.Valid;
    hide SkipList.Contents;
    hide ListIterator.Inv;
    hide ListIterator.Rest;
    ghost var contents := list.Contents();
    items := [];
    var it := new ListIterator(list);
    it.SeekToFirst();
    var e := it.Current();
    while e.Some?
      invariant it.Inv() && it.list == list && list.Valid() && list.Contents() == contents
      invariant |items| == it.at <= |contents| && items == contents[..|items|]
      invariant e == if it.at == |contents| then None else Some(contents[it.at])
      decreases |contents| - it.at
    {
      items := items + [e.value];
      it.Next();
      e := it.Current();
    }
  }

  // ---------- any sequence of operations ----------

  /** The items after the operations, in order; no value is Delete. */
  function Built(ops: Items): (r: Items)
  {
    if ops == [] then [] else Upserted(Built(ops[..|ops| - 1]), ops[|ops| - 1].key, ops[|ops| - 1].value)
  }

  /** A list of operations read as a map: the last one to a key stands. */
  function Folded(ops: Items): (r: map<Key, Option<Bytes>>)
  {
    if ops == [] then map[] else Folded(ops[..|ops| - 1])[ops[|ops| - 1].key := ops[|ops| - 1].value]
  }

  lemma {:induction false} BuiltIsMap(ops: Items)
    ensures InOrder(Built(ops)) && AsMap(Built(ops)) == Folded(ops)
  {
    if ops != [] {
      var e := ops[|ops| - 1];
      BuiltIsMap(ops[..|ops| - 1]);
      UpsertedInOrder(Built(ops[..|ops| - 1]), e.key, e.value);
      UpsertedMap(Built(ops[..|ops| - 1]), e.key, e.value);
    }
  }

  /** NewSkipList and Put after Put, with any heights. */
  method PutAll(ops: Items, heights: seq<nat>) returns (list: SkipList)
    requires |heights| == |ops| && forall i :: 0 <= i < |heights| ==> 1 <= heights[i] <= MAX_LEVEL
    ensures list.Valid() && list.Contents() == Built(ops)
  {
    hide AllDistinct;
    hide KeysInOrder;
    hide Linked;
    hide HeightsIn;
    hide SizeOf;
    hide Upserted;
    list := new SkipList();
    for i := 0 to |ops|
      invariant fresh(list) && list.Valid() && list.Contents() == Built(ops[..i])
      invariant forall q :: 0 <= q < |list.all| ==> fresh(list.all[q])
    {
      assert ops[..i + 1][..i] == ops[..i];
      list.Put(ops[i].key, ops[i].value, heights[i]);
    }
    assert ops[..|ops|] == ops;
  }
}
