/** Sorted runs of entries: what a memtable, an SSTable or a merge stream holds. */
module Tables {
  import opened Prelude
  import opened Keys

  /** Values are non-empty: an empty value does not survive the file formats (see SSTableFormat). */
  type Value = v: Bytes | |v| > 0 witness [0]

  /** A missing value is a tombstone. */
  datatype Entry = Entry(key: Key, value: Option<Value>)

  type EntryList = seq<Entry>

  ghost predicate Sorted(s: EntryList)
  {
    forall i, j :: 0 <= i < j < |s| ==> Rank(s[i].key) < Rank(s[j].key)
  }

  /** What a source says about a key: nothing, or a value or tombstone. */
  type Finding = Option<Option<Value>>

  function Over(a: Finding, b: Finding): (r: Finding)
  {
    if a.Some? then a else b
  }

  /** Linear search. */
  function Hit(s: EntryList, k: Key): (r: Finding)
  {
    if s == [] then None
    else if s[0].key == k then Some(s[0].value)
    else Hit(s[1..], k)
  }

  /** The finding of the first source that has one. */
  function FirstHit(srcs: seq<EntryList>, k: Key): (r: Finding)
  {
    if srcs == [] then None else Over(Hit(srcs[0], k), FirstHit(srcs[1..], k))
  }

  lemma {:induction false} HitWitness(s: EntryList, k: Key) returns (i: nat)
    requires Hit(s, k).Some?
    ensures i < |s| && s[i].key == k && Hit(s, k) == Some(s[i].value)
  {
    if s[0].key == k {
      i := 0;
    } else {
      i := HitWitness(s[1..], k);
      i := i + 1;
    }
  }

  lemma {:induction false} HitNone(s: EntryList, k: Key)
    ensures Hit(s, k).None? <==> forall i :: 0 <= i < |s| ==> s[i].key != k
  {
    if s != [] {
      HitNone(s[1..], k);
      assert s == [s[0]] + s[1..];
      if Hit(s, k).None? {
        forall i | 0 <= i < |s|
          ensures s[i].key != k
        {
          if i > 0 {
            assert s[i] == s[1..][i - 1];
          }
        }
      } else if s[0].key != k {
        var j := HitWitness(s, k);
      }
    }
  }

  lemma {:induction false} HitAt(s: EntryList, i: nat)
    requires Sorted(s) && i < |s|
    ensures Hit(s, s[i].key) == Some(s[i].value)
  {
    if i > 0 {
      assert s[0].key != s[i].key;
      assert s[1..][i - 1] == s[i];
      HitAt(s[1..], i - 1);
    }
  }

  lemma {:induction false} HitAppend(a: EntryList, b: EntryList, k: Key)
    ensures Hit(a + b, k) == Over(Hit(a, k), Hit(b, k))
  {
    if a == [] {
      assert a + b == b;
    } else {
      assert (a + b)[1..] == a[1..] + b;
      HitAppend(a[1..], b, k);
    }
  }

  lemma {:induction false} FirstHitAppend(a: seq<EntryList>, b: seq<EntryList>, k: Key)
    ensures FirstHit(a + b, k) == Over(FirstHit(a, k), FirstHit(b, k))
  {
    if a == [] {
      assert a + b == b;
    } else {
      assert (a + b)[1..] == a[1..] + b;
      FirstHitAppend(a[1..], b, k);
    }
  }

  lemma {:induction false} FirstHitNone(srcs: seq<EntryList>, k: Key)
    ensures FirstHit(srcs, k).None? <==> forall i :: 0 <= i < |srcs| ==> Hit(srcs[i], k).None?
  {
    if srcs != [] {
      FirstHitNone(srcs[1..], k);
      if FirstHit(srcs, k).None? {
        forall i | 0 <= i < |srcs|
          ensures Hit(srcs[i], k).None?
        {
          if i > 0 {
            assert srcs[i] == srcs[1..][i - 1];
          }
        }
      } else {
        if Hit(srcs[0], k).None? {
          var i :| 0 <= i < |srcs[1..]| && Hit(srcs[1..][i], k).Some?;
          assert srcs[i + 1] == srcs[1..][i];
        }
      }
    }
  }

  /** A finding of the first source with one comes from some source. */
  lemma {:induction false} FirstHitWitness(srcs: seq<EntryList>, k: Key) returns (i: nat)
    requires FirstHit(srcs, k).Some?
    ensures i < |srcs| && Hit(srcs[i], k) == FirstHit(srcs, k)
    ensures forall j :: 0 <= j < i ==> Hit(srcs[j], k).None?
  {
    if Hit(srcs[0], k).Some? {
      i := 0;
    } else {
      var i' := FirstHitWitness(srcs[1..], k);
      i := i' + 1;
      forall j | 0 <= j < i
        ensures Hit(srcs[j], k).None?
      {
        if j > 0 {
          assert srcs[j] == srcs[1..][j - 1];
        }
      }
    }
  }

  /** `out` is the merge of `srcs`, earlier sources taking precedence. */
  ghost predicate IsMerge(srcs: seq<EntryList>, out: EntryList)
  {
    Sorted(out) && forall k :: Hit(out, k) == FirstHit(srcs, k)
  }

  /** A sorted run is determined by its findings, so a merge is unique. */
  lemma {:induction false} SortedUnique(a: EntryList, b: EntryList)
    requires Sorted(a) && Sorted(b) && forall k :: Hit(a, k) == Hit(b, k)
    ensures a == b
  {
    if a == [] {
      if b != [] {
        HitAt(b, 0);
      }
    } else {
      HitAt(a, 0);
      var i := HitWitness(b, a[0].key);
      HitAt(b, 0);
      var j := HitWitness(a, b[0].key);
      assert Rank(b[0].key) <= Rank(b[i].key) && Rank(a[0].key) <= Rank(a[j].key);
      SameRank(a[0].key, b[0].key);
      assert a[0] == b[0];
      forall k
        ensures Hit(a[1..], k) == Hit(b[1..], k)
      {
        if k == a[0].key {
          TailMisses(a);
          TailMisses(b);
        } else {
          assert Hit(a, k) == Hit(b, k);
        }
      }
      SortedUnique(a[1..], b[1..]);
      assert a == [a[0]] + a[1..] && b == [b[0]] + b[1..];
    }
  }

  lemma {:induction false} TailMisses(a: EntryList)
    requires Sorted(a) && a != []
    ensures Hit(a[1..], a[0].key).None?
  {
    HitNone(a[1..], a[0].key);
    forall i | 0 <= i < |a[1..]|
      ensures a[1..][i].key != a[0].key
    {
      assert a[1..][i] == a[i + 1];
    }
  }
}
