/** Logged writes, what the last of them says about a key, and memtables as their fold. */
module Writes {
  import opened Prelude
  import opened Keys
  import opened Tables

  /** A write-ahead-log record; no value means Delete. */
  datatype Record = Record(key: Key, value: Option<Value>)

  type Records = seq<Record>

  /** A memtable as a map; no value means tombstone. */
  type Mem = map<Key, Option<Value>>

  /** The plain map that the store stands for. */
  type Store = map<Key, Value>

  /** What the last write to the key was, if any. */
  function Last(rs: Records, k: Key): (r: Finding)
  {
    if rs == [] then None
    else if rs[|rs| - 1].key == k then Some(rs[|rs| - 1].value)
    else Last(rs[..|rs| - 1], k)
  }

  function MemHit(m: Mem, k: Key): (r: Finding)
  {
    if k in m then Some(m[k]) else None
  }

  /** memtable.Put and memtable.Delete. */
  function ApplyAll(m: Mem, rs: Records): (r: Mem)
  {
    if rs == [] then m
    else
      var e := rs[|rs| - 1];
      ApplyAll(m, rs[..|rs| - 1])[e.key := e.value]
  }

  /** The effect of the writes on a plain map. */
  function Outcome(s: Store, rs: Records): (r: Store)
  {
    if rs == [] then s
    else
      var e := rs[|rs| - 1];
      var s' := Outcome(s, rs[..|rs| - 1]);
      if e.value.Some? then s'[e.key := e.value.value] else s' - {e.key}
  }

  lemma {:induction false} LastAppend(a: Records, b: Records, k: Key)
    ensures Last(a + b, k) == Over(Last(b, k), Last(a, k))
  {
    if b == [] {
      assert a + b == a;
    } else {
      assert (a + b)[..|a + b| - 1] == a + b[..|b| - 1];
      LastAppend(a, b[..|b| - 1], k);
    }
  }

  lemma {:induction false} ApplyAllHit(m: Mem, rs: Records, k: Key)
    ensures MemHit(ApplyAll(m, rs), k) == Over(Last(rs, k), MemHit(m, k))
  {
    if rs != [] {
      ApplyAllHit(m, rs[..|rs| - 1], k);
    }
  }

  /** The plain map after the writes: the last write to a key decides, else the old value. */
  lemma {:induction false} OutcomeIsLast(s: Store, rs: Records, k: Key)
    ensures k in Outcome(s, rs) <==>
              (if Last(rs, k).Some? then Last(rs, k).value.Some? else k in s)
    ensures k in Outcome(s, rs) ==>
              Outcome(s, rs)[k] == if Last(rs, k).Some? then Last(rs, k).value.value else s[k]
  {
    if rs != [] {
      OutcomeIsLast(s, rs[..|rs| - 1], k);
    }
  }

  /** Replaying from p over tables that cover the first q writes: the overlap is harmless as long
      as the replay starts within what is covered. */
  lemma {:induction false} Overlap(rs: Records, p: nat, q: nat, k: Key)
    requires p <= q <= |rs|
    ensures Over(Last(rs[p..], k), Last(rs[..q], k)) == Last(rs, k)
  {
    assert rs == rs[..p] + rs[p..];
    LastAppend(rs[..p], rs[p..], k);
    assert rs[..q] == rs[..p] + rs[p..q];
    LastAppend(rs[..p], rs[p..q], k);
    assert rs[p..] == rs[p..q] + rs[q..];
    LastAppend(rs[p..q], rs[q..], k);
  }
}
