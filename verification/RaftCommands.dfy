/** Commands as log data (raft/log.go) and their application to the engine (raft/node.go). */
module RaftCommands {
  import opened Prelude
  import opened Keys
  import opened Writes
  import opened ByteCodec
  import opened RaftLog

  const CMD_PUT: Byte := 1
  const CMD_DELETE: Byte := 2
  const CMD_BATCH_PUT: Byte := 3

  datatype Pair = Pair(key: Bytes, value: Bytes)

  // ---------- encoding ----------

  /** EncodePutCommand. */
  function EncodePut(p: Pair): (r: Bytes)
    ensures |r| == 8 + |p.key| + |p.value|
  {
    U32(|p.key|) + p.key + U32(|p.value|) + p.value
  }

  /** DecodePutCommand, with the bytes it takes; none where the source would index out of range. */
  function DecodePut(data: Bytes): (r: Option<(Pair, nat)>)
    ensures r.Some? ==> 0 < r.value.1 <= |data|
  {
    if |data| < 4 then None
    else
      var keyEnd := 4 + FromU32(data[..4]);
      if keyEnd + 4 > |data| then None
      else
        var end := keyEnd + 4 + FromU32(data[keyEnd..keyEnd + 4]);
        if end > |data| then None else Some((Pair(data[4..keyEnd], data[keyEnd + 4..end]), end))
  }

  /** EncodeDeleteCommand. */
  function EncodeDelete(key: Bytes): (r: Bytes)
  {
    U32(|key|) + key
  }

  function DecodeDelete(data: Bytes): (r: Option<Bytes>)
  {
    if |data| < 4 || 4 + FromU32(data[..4]) > |data| then None else Some(data[4..4 + FromU32(data[..4])])
  }

  function EncodePairs(ps: seq<Pair>): (r: Bytes)
  {
    if ps == [] then [] else EncodePut(ps[0]) + EncodePairs(ps[1..])
  }

  /** EncodeBatchPutCommand. */
  function EncodeBatch(ps: seq<Pair>): (r: Bytes)
  {
    U32(|ps|) + EncodePairs(ps)
  }

  function DecodePairs(data: Bytes, n: nat): (r: Option<seq<Pair>>)
  {
    if n == 0 then Some([])
    else
      var first := DecodePut(data);
      if first.None? then None
      else
        var rest := DecodePairs(data[first.value.1..], n - 1);
        if rest.None? then None else Some([first.value.0] + rest.value)
  }

  /** DecodeBatchPutCommand. */
  function DecodeBatch(data: Bytes): (r: Option<seq<Pair>>)
  {
    if |data| < 4 then None else DecodePairs(data[4..], FromU32(data[..4]))
  }

  predicate PairFits(p: Pair)
  {
    |p.key| < TWO32 && |p.value| < TWO32
  }

  lemma {:induction false} PutBack(p: Pair, rest: Bytes)
    requires PairFits(p)
    ensures DecodePut(EncodePut(p) + rest) == Some((p, |EncodePut(p)|))
    ensures (EncodePut(p) + rest)[|EncodePut(p)|..] == rest
  {
    hide U32;
    hide FromU32;
    var d := EncodePut(p) + rest;
    var keyEnd := 4 + |p.key|;
    assert d[..4] == U32(|p.key|);
    assert d[4..keyEnd] == p.key;
    assert d[keyEnd..keyEnd + 4] == U32(|p.value|);
    assert d[keyEnd + 4..keyEnd + 4 + |p.value|] == p.value;
    U32Back(|p.key|);
    U32Back(|p.value|);
  }

  lemma {:induction false} DeleteBack(key: Bytes)
    requires |key| < TWO32
    ensures DecodeDelete(EncodeDelete(key)) == Some(key)
  {
    hide U32;
    hide FromU32;
    var d := EncodeDelete(key);
    assert d[..4] == U32(|key|);
    assert d[4..4 + |key|] == key;
    U32Back(|key|);
  }

  lemma {:induction false} PairsBack(ps: seq<Pair>, rest: Bytes)
    requires forall i :: 0 <= i < |ps| ==> PairFits(ps[i])
    ensures DecodePairs(EncodePairs(ps) + rest, |ps|) == Some(ps)
  {
    hide EncodePut;
    hide DecodePut;
    hide PairFits;
    if ps != [] {
      var a, b := EncodePut(ps[0]), EncodePairs(ps[1..]);
      assert a + b + rest == a + (b + rest);
      PutBack(ps[0], b + rest);
      PairsBack(ps[1..], rest);
      assert ps == [ps[0]] + ps[1..];
    }
  }

  lemma {:induction false} BatchBack(ps: seq<Pair>)
    requires |ps| < TWO32 && forall i :: 0 <= i < |ps| ==> PairFits(ps[i])
    ensures DecodeBatch(EncodeBatch(ps)) == Some(ps)
  {
    hide U32;
    hide FromU32;
    hide EncodePairs;
    hide DecodePairs;
    var d := EncodeBatch(ps);
    assert d[..4] == U32(|ps|);
    assert d[4..] == EncodePairs(ps) == EncodePairs(ps) + [];
    U32Back(|ps|);
    PairsBack(ps, []);
  }

  // ---------- the encoding and decoding loops ----------

  lemma {:induction false} PairsSnoc(ps: seq<Pair>, p: Pair)
    ensures EncodePairs(ps + [p]) == EncodePairs(ps) + EncodePut(p)
  {
    hide EncodePut;
    if ps == [] {
      assert ps + [p] == [p];
      assert [p][1..] == [];
      assert EncodePairs([]) == [];
    } else {
      assert (ps + [p])[1..] == ps[1..] + [p];
      PairsSnoc(ps[1..], p);
    }
  }

  function PairUp(keys: seq<Bytes>, values: seq<Bytes>): (r: seq<Pair>)
    requires |keys| == |values|
    ensures |r| == |keys| && forall i :: 0 <= i < |keys| ==> r[i] == Pair(keys[i], values[i])
  {
    seq(|keys|, i requires 0 <= i < |keys| => Pair(keys[i], values[i]))
  }

  method EncodeBatchPutCommand(keys: seq<Bytes>, values: seq<Bytes>) returns (buf: Bytes)
    requires |keys| == |values|
    ensures buf == EncodeBatch(PairUp(keys, values))
  {
    hide U32;
    ghost var ps := PairUp(keys, values);
    buf := U32(|keys|);
    assert ps[..0] == [];
    assert EncodePairs([]) == [];
    for i := 0 to |keys|
      invariant buf == U32(|keys|) + EncodePairs(ps[..i])
    {
      PairsSnoc(ps[..i], ps[i]);
      assert ps[..i + 1] == ps[..i] + [ps[i]];
      buf := buf + (U32(|keys[i]|) + keys[i] + U32(|values[i]|) + values[i]);
    }
    assert ps[..|keys|] == ps;
  }

  /** On data that does not decode the source indexes out of range; that is the answer None here. */
  method DecodeBatchPutCommand(data: Bytes) returns (r: Option<(seq<Bytes>, seq<Bytes>)>)
    ensures r.None? <==> DecodeBatch(data).None?
    ensures r.Some? ==> |r.value.0| == |r.value.1| && DecodeBatch(data) == Some(PairUp(r.value.0, r.value.1))
  {
    hide DecodePut;
    hide FromU32;
    if |data| < 4 {
      return None;
    }
    var count := FromU32(data[..4]);
    var off := 4;
    var keys: seq<Bytes>, values: seq<Bytes> := [], [];
    BeforeNothing(DecodePairs(data[off..], count));
    assert PairUp(keys, values) == [];
    for i := 0 to count
      invariant 4 <= off <= |data| && |keys| == |values| == i
      invariant DecodeBatch(data) == Before(PairUp(keys, values), DecodePairs(data[off..], count - i))
    {
      var p := DecodePut(data[off..]);
      if p.None? {
        return None;
      }
      assert data[off..][p.value.1..] == data[off + p.value.1..];
      BeforeOne(PairUp(keys, values), p.value.0, DecodePairs(data[off + p.value.1..], count - i - 1));
      assert PairUp(keys + [p.value.0.key], values + [p.value.0.value]) == PairUp(keys, values) + [p.value.0];
      keys, values, off := keys + [p.value.0.key], values + [p.value.0.value], off + p.value.1;
    }
    assert PairUp(keys, values) + [] == PairUp(keys, values);
    return Some((keys, values));
  }

  ghost function Before(ps: seq<Pair>, rest: Option<seq<Pair>>): (r: Option<seq<Pair>>)
  {
    if rest.None? then None else Some(ps + rest.value)
  }

  lemma {:induction false} BeforeNothing(rest: Option<seq<Pair>>)
    ensures Before([], rest) == rest
  {
    if rest.Some? {
      assert [] + rest.value == rest.value;
    }
  }

  lemma {:induction false} BeforeOne(ps: seq<Pair>, p: Pair, rest: Option<seq<Pair>>)
    ensures Before(ps, Before([p], rest)) == Before(ps + [p], rest)
  {
    if rest.Some? {
      assert ps + ([p] + rest.value) == ps + [p] + rest.value;
    }
  }

  // ---------- application ----------

  /** The engine writes of a command; none for unknown types, as in applyEntry. */
  function Ops(e: LogEntry): (r: Option<seq<(Key, Option<Bytes>)>>)
  {
    if e.cmdType == CMD_PUT then
      var p := DecodePut(e.data);
      if p.None? then None else Some([(p.value.0.key, Some(p.value.0.value))])
    else if e.cmdType == CMD_DELETE then
      var k := DecodeDelete(e.data);
      if k.None? then None else Some([(k.value, None)])
    else if e.cmdType == CMD_BATCH_PUT then
      var ps := DecodeBatch(e.data);
      if ps.None? then None
      else Some(seq(|ps.value|, i requires 0 <= i < |ps.value| => (ps.value[i].key, Some(ps.value[i].value))))
    else Some([])
  }

  /** The entry decodes and puts no empty value. */
  ghost predicate Clean(e: LogEntry)
  {
    Ops(e).Some? && forall i :: 0 <= i < |Ops(e).value| ==> Ops(e).value[i].1 != Some([])
  }

  ghost predicate AllClean(es: Entries)
  {
    forall i :: 0 <= i < |es| ==> Clean(es[i])
  }

  ghost function AsRecord(op: (Key, Option<Bytes>)): (r: Record)
    requires op.1 != Some([])
  {
    Record(op.0, if op.1.None? then None else assert |op.1.value| > 0; Some(op.1.value))
  }

  ghost function EntryRecords(e: LogEntry): (r: Records)
    requires Clean(e)
  {
    var ops := Ops(e).value;
    seq(|ops|, i requires 0 <= i < |ops| => AsRecord(ops[i]))
  }

  /** What the node writes to its engine for the entries, in order. */
  ghost function RecordsOf(es: Entries): (r: Records)
    requires AllClean(es)
  {
    if es == [] then [] else RecordsOf(es[..|es| - 1]) + EntryRecords(es[|es| - 1])
  }

  lemma {:induction false} RecordsPrefix(a: Entries, b: Entries)
    requires AllClean(b) && a <= b
    ensures AllClean(a) && RecordsOf(a) <= RecordsOf(b)
  {
    hide Clean;
    hide EntryRecords;
    if |a| < |b| {
      RecordsPrefix(a, b[..|b| - 1]);
    } else {
      assert a == b;
    }
  }

  lemma {:induction false} OutcomeAppend(s: Store, a: Records, b: Records)
    ensures Outcome(s, a + b) == Outcome(Outcome(s, a), b)
  {
    if b == [] {
      assert a + b == a;
    } else {
      assert (a + b)[..|a + b| - 1] == a + b[..|b| - 1];
      OutcomeAppend(s, a, b[..|b| - 1]);
    }
  }

  /** Writing a list again over what a prefix of it left is writing it once. */
  lemma {:induction false} Rewriting(s: Store, p: Records, c: Records)
    requires p <= c
    ensures Outcome(Outcome(s, p), c) == Outcome(s, c)
  {
    hide Outcome;
    forall k
      ensures k in Outcome(Outcome(s, p), c) <==> k in Outcome(s, c)
      ensures k in Outcome(s, c) ==> Outcome(Outcome(s, p), c)[k] == Outcome(s, c)[k]
    {
      OutcomeIsLast(Outcome(s, p), c, k);
      OutcomeIsLast(s, c, k);
      OutcomeIsLast(s, p, k);
      assert c == p + c[|p|..];
      LastAppend(p, c[|p|..], k);
    }
  }
}
