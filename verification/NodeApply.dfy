/** A node's engine under Raft: every node writes the same commands in the same order, and a node
    that applies them again after a restart ends where the others are. */
module NodeApply {
  import opened Prelude
  import opened Keys
  import opened Writes
  import opened ByteCodec
  import opened LevelCompaction
  import opened EngineRefinement
  import E = EngineMachine
  import opened RaftLog
  import opened RaftNode
  import opened RaftNetwork
  import opened RaftSafety
  import opened RaftCommands

  /** The plain map after the entries. */
  ghost function StoreOf(es: Entries): (r: Store)
    requires AllClean(es)
  {
    Outcome(map[], RecordsOf(es))
  }

  ghost function Deliveries(run: seq<Net>, i: nat, n: NodeId): (r: Entries)
    requires i < |run| && n in run[i].nodes
  {
    run[i].nodes[n].apply.delivered
  }

  /** Of two nodes, at any two times, the one that has applied fewer commands has applied a prefix. */
  lemma {:induction false} DeliveredPrefix(run: seq<Net>, steps: seq<Step>, i: nat, j: nat, n: NodeId, m: NodeId)
    requires IsRun(run, steps) && i < |run| && j < |run| && n in run[i].nodes && m in run[j].nodes
    requires |Deliveries(run, i, n)| <= |Deliveries(run, j, m)|
    ensures Deliveries(run, i, n) <= Deliveries(run, j, m)
  {
    hide IsRun;
    var a, b := Deliveries(run, i, n), Deliveries(run, j, m);
    forall k | 0 <= k < |a|
      ensures a[k] == b[k]
    {
      DeliveriesAgree(run, steps, i, j, n, m, k);
    }
  }

  /** Nodes that have applied equally many commands have the same map, and the one that is ahead has
      the other's map and more writes on top of it. */
  lemma {:induction false} StoresAgree(run: seq<Net>, steps: seq<Step>, i: nat, j: nat, n: NodeId, m: NodeId)
    requires IsRun(run, steps) && i < |run| && j < |run| && n in run[i].nodes && m in run[j].nodes
    requires AllClean(Deliveries(run, j, m)) && |Deliveries(run, i, n)| <= |Deliveries(run, j, m)|
    ensures AllClean(Deliveries(run, i, n))
    ensures var a, b := RecordsOf(Deliveries(run, i, n)), RecordsOf(Deliveries(run, j, m));
            a <= b && StoreOf(Deliveries(run, j, m)) == Outcome(StoreOf(Deliveries(run, i, n)), b[|a|..])
    ensures |Deliveries(run, i, n)| == |Deliveries(run, j, m)| ==>
              StoreOf(Deliveries(run, i, n)) == StoreOf(Deliveries(run, j, m))
  {
    hide IsRun;
    hide Outcome;
    hide RecordsOf;
    hide AllClean;
    DeliveredPrefix(run, steps, i, j, n, m);
    RecordsPrefix(Deliveries(run, i, n), Deliveries(run, j, m));
    var a, b := RecordsOf(Deliveries(run, i, n)), RecordsOf(Deliveries(run, j, m));
    assert b == a + b[|a|..];
    OutcomeAppend(map[], a, b[|a|..]);
    assert |Deliveries(run, i, n)| == |Deliveries(run, j, m)| ==> Deliveries(run, i, n) == Deliveries(run, j, m);
  }

  /** What the engine is given over several lives of the process, each of which applies from the
      first entry again. */
  ghost function AllLives(lives: seq<Records>): (r: Records)
  {
    if lives == [] then [] else lives[0] + AllLives(lives[1..])
  }

  lemma {:induction false} LivesCollapse(s: Store, lives: seq<Records>, last: Records)
    requires forall t :: 0 <= t < |lives| ==> lives[t] <= last
    ensures Outcome(s, AllLives(lives) + last) == Outcome(s, last)
    decreases |lives|
  {
    hide Outcome;
    if lives == [] {
      assert [] + last == last;
    } else {
      var p, rest := lives[0], AllLives(lives[1..]);
      assert (p + rest) + last == p + (rest + last);
      OutcomeAppend(s, p, rest + last);
      LivesCollapse(Outcome(s, p), lives[1..], last);
      Rewriting(s, p, last);
    }
  }

  /** The node's earlier lives: what each wrote is a prefix of the records of the entries delivered to
      it, which may end within a batch. */
  ghost predicate LivesOf(run: seq<Net>, n: NodeId, ends: seq<nat>, lives: seq<Records>, j: nat)
    requires j < |run| && n in run[j].nodes
  {
    && |ends| == |lives| && AllClean(Deliveries(run, j, n))
    && forall t :: 0 <= t < |ends| ==>
         && ends[t] < |run| && n in run[ends[t]].nodes
         && |Deliveries(run, ends[t], n)| <= |Deliveries(run, j, n)| && AllClean(Deliveries(run, ends[t], n))
         && lives[t] <= RecordsOf(Deliveries(run, ends[t], n))
  }

  /** A node after any number of restarts: once it has applied again as much as it ever had, its map
      is that of the committed commands, as if it had never stopped. */
  lemma {:induction false} RestartsConverge(run: seq<Net>, steps: seq<Step>, ends: seq<nat>, lives: seq<Records>,
                                            j: nat, n: NodeId)
    requires IsRun(run, steps) && j < |run| && n in run[j].nodes && LivesOf(run, n, ends, lives, j)
    ensures Outcome(map[], AllLives(lives) + RecordsOf(Deliveries(run, j, n))) == StoreOf(Deliveries(run, j, n))
  {
    hide IsRun;
    hide Outcome;
    hide RecordsOf;
    hide AllClean;
    hide AllLives;
    var last := Deliveries(run, j, n);
    forall t | 0 <= t < |lives|
      ensures lives[t] <= RecordsOf(last)
    {
      DeliveredPrefix(run, steps, ends[t], j, n, n);
      RecordsPrefix(Deliveries(run, ends[t], n), last);
    }
    LivesCollapse(map[], lives, RecordsOf(last));
  }

  /** And its engine, through all its crashes: given these writes, whatever it froze, flushed,
      compacted and recovered meanwhile, Get answers from the committed commands. */
  lemma {:induction false} EngineConverges(run: seq<Net>, steps: seq<Step>, ends: seq<nat>, lives: seq<Records>, j: nat,
                                           n: NodeId,
                                           engines: seq<E.Engine>, moves: seq<E.Step>, i: nat, k: Key)
    requires IsRun(run, steps) && j < |run| && n in run[j].nodes && LivesOf(run, n, ends, lives, j)
    requires E.IsRun(engines, moves) && i < |engines|
    requires E.AllWrites(moves[..i]) == AllLives(lives) + RecordsOf(Deliveries(run, j, n))
    ensures |engines[i].levels| > 0
    ensures var m := StoreOf(Deliveries(run, j, n));
            Visible(E.EngineHit(engines[i], k)) == if k in m then Some(m[k]) else None
  {
    hide IsRun;
    hide E.IsRun;
    hide Outcome;
    hide RecordsOf;
    hide AllClean;
    hide AllLives;
    hide E.EngineHit;
    hide LivesOf;
    RestartsConverge(run, steps, ends, lives, j, n);
    EngineRefinesMap(engines, moves, i, k);
  }

  // ---------- what commands mean ----------

  /** What a client asks for, before it becomes bytes. */
  datatype Command =
    | Put(key: Bytes, value: Bytes)
    | Delete(key: Bytes)
    | BatchPut(pairs: seq<Pair>)
    | Unknown(cmdType: Byte, data: Bytes)

  /** Keys, values and batches fit their 32-bit lengths, and no value is empty. */
  ghost predicate Proper(c: Command)
  {
    match c
    case Put(k, v) => |k| < TWO32 && 0 < |v| < TWO32
    case Delete(k) => |k| < TWO32
    case BatchPut(ps) =>
      |ps| < TWO32 && forall i :: 0 <= i < |ps| ==> |ps[i].key| < TWO32 && 0 < |ps[i].value| < TWO32
    case Unknown(cmdType, _) => cmdType != 1 && cmdType != 2 && cmdType != 3
  }

  /** The entry carries the command as the encoders write it. */
  ghost predicate Carries(e: LogEntry, c: Command)
  {
    match c
    case Put(k, v) => e.cmdType == 1 && e.data == EncodePut(Pair(k, v))
    case Delete(k) => e.cmdType == 2 && e.data == EncodeDelete(k)
    case BatchPut(ps) => e.cmdType == 3 && e.data == EncodeBatch(ps)
    case Unknown(cmdType, data) => e.cmdType == cmdType && e.data == data
  }

  /** The pairs written one after the other. */
  ghost function AllPut(m: Store, ps: seq<Pair>): (r: Store)
    requires forall i :: 0 <= i < |ps| ==> |ps[i].value| > 0
    decreases |ps|
  {
    if ps == [] then m else AllPut(m[ps[0].key := ps[0].value], ps[1..])
  }

  /** What the command does to a plain map. */
  ghost function Meaning(m: Store, c: Command): (r: Store)
    requires Proper(c)
  {
    match c
    case Put(k, v) => m[k := v]
    case Delete(k) => m - {k}
    case BatchPut(ps) => AllPut(m, ps)
    case Unknown(_, _) => m
  }

  ghost function AllMeaning(cs: seq<Command>): (r: Store)
    requires forall i :: 0 <= i < |cs| ==> Proper(cs[i])
  {
    if cs == [] then map[] else Meaning(AllMeaning(cs[..|cs| - 1]), cs[|cs| - 1])
  }

  lemma {:induction false} OneWritten(m: Store, r: Record)
    ensures Outcome(m, [r]) == if r.value.Some? then m[r.key := r.value.value] else m - {r.key}
  {
    assert [r][..0] == [] && Outcome(m, []) == m;
  }

  lemma {:induction false} PutMeaning(e: LogEntry, k: Bytes, v: Bytes, m: Store)
    requires e.cmdType == 1 && e.data == EncodePut(Pair(k, v)) && |k| < TWO32 && 0 < |v| < TWO32
    ensures Clean(e) && Outcome(m, EntryRecords(e)) == m[k := v]
  {
    hide EncodePut;
    hide DecodePut;
    hide Outcome;
    PutBack(Pair(k, v), []);
    assert EncodePut(Pair(k, v)) + [] == e.data;
    assert Ops(e) == Some([(k, Some(v))]);
    assert EntryRecords(e) == [Record.Record(k, Some(v))];
    OneWritten(m, Record.Record(k, Some(v)));
  }

  lemma {:induction false} DeleteMeaning(e: LogEntry, k: Bytes, m: Store)
    requires e.cmdType == 2 && e.data == EncodeDelete(k) && |k| < TWO32
    ensures Clean(e) && Outcome(m, EntryRecords(e)) == m - {k}
  {
    hide EncodeDelete;
    hide DecodeDelete;
    hide Outcome;
    DeleteBack(k);
    assert Ops(e) == Some([(k, None)]);
    assert EntryRecords(e) == [Record.Record(k, None)];
    OneWritten(m, Record.Record(k, None));
  }

  lemma {:induction false} UnknownMeaning(e: LogEntry, m: Store)
    requires e.cmdType != 1 && e.cmdType != 2 && e.cmdType != 3
    ensures Clean(e) && Outcome(m, EntryRecords(e)) == m
  {
    assert Ops(e) == Some([]);
    assert EntryRecords(e) == [];
  }

  /** Records that put the pairs, in order. */
  ghost predicate PutsPairs(rs: Records, ps: seq<Pair>)
  {
    |rs| == |ps| && forall i :: 0 <= i < |ps| ==> rs[i].key == ps[i].key && rs[i].value == Some(ps[i].value)
  }

  lemma {:induction false} PairsMeaning(m: Store, rs: Records, ps: seq<Pair>)
    requires (forall i :: 0 <= i < |ps| ==> |ps[i].value| > 0) && PutsPairs(rs, ps)
    ensures Outcome(m, rs) == AllPut(m, ps)
    decreases |ps|
  {
    hide Outcome;
    if ps == [] {
      NothingWritten(m);
    } else {
      assert rs == [rs[0]] + rs[1..];
      OutcomeAppend(m, [rs[0]], rs[1..]);
      OneWritten(m, rs[0]);
      PairsMeaning(m[ps[0].key := ps[0].value], rs[1..], ps[1..]);
    }
  }

  lemma {:induction false} NothingWritten(m: Store)
    ensures Outcome(m, []) == m
  {
  }

  lemma {:induction false} BatchMeaning(e: LogEntry, ps: seq<Pair>, m: Store)
    requires e.cmdType == 3 && e.data == EncodeBatch(ps) && Proper(BatchPut(ps))
    ensures Clean(e) && Outcome(m, EntryRecords(e)) == AllPut(m, ps)
  {
    hide EncodeBatch;
    hide DecodeBatch;
    hide Outcome;
    hide AllPut;
    BatchBack(ps);
    var ops := Ops(e).value;
    assert |ops| == |ps| && forall i :: 0 <= i < |ps| ==> ops[i] == (ps[i].key, Some(ps[i].value));
    PairsMeaning(m, EntryRecords(e), ps);
  }

  lemma {:induction false} CommandMeaning(e: LogEntry, c: Command, m: Store)
    requires Proper(c) && Carries(e, c)
    ensures Clean(e) && Outcome(m, EntryRecords(e)) == Meaning(m, c)
  {
    hide Clean;
    hide EntryRecords;
    hide Outcome;
    match c
    case Put(k, v) => PutMeaning(e, k, v, m);
    case Delete(k) => DeleteMeaning(e, k, m);
    case BatchPut(ps) => BatchMeaning(e, ps, m);
    case Unknown(_, _) => UnknownMeaning(e, m);
  }

  /** The entries carry these commands. */
  ghost predicate CarryAll(es: Entries, cs: seq<Command>)
  {
    |es| == |cs| && forall i :: 0 <= i < |cs| ==> Proper(cs[i]) && Carries(es[i], cs[i])
  }

  /** Applying entries that carry commands does to the map what the commands mean, in order. */
  lemma {:induction false} CommandsApplied(es: Entries, cs: seq<Command>)
    requires CarryAll(es, cs)
    ensures AllClean(es) && StoreOf(es) == AllMeaning(cs)
    decreases |es|
  {
    hide Clean;
    hide EntryRecords;
    hide Carries;
    hide Proper;
    hide Meaning;
    hide Outcome;
    if es == [] {
      NothingWritten(map[]);
    } else {
      var n := |es| - 1;
      CommandsApplied(es[..n], cs[..n]);
      CommandMeaning(es[n], cs[n], StoreOf(es[..n]));
      OutcomeAppend(map[], RecordsOf(es[..n]), EntryRecords(es[n]));
    }
  }

  /** A node whose delivered entries carry these commands, after any number of restarts: its engine's Get
      answers from the map the commands mean. */
  lemma {:induction false} NodeAnswers(run: seq<Net>, steps: seq<Step>, ends: seq<nat>, lives: seq<Records>, j: nat,
                                       n: NodeId, cs: seq<Command>, engines: seq<E.Engine>, moves: seq<E.Step>,
                                       i: nat, k: Key)
    requires IsRun(run, steps) && j < |run| && n in run[j].nodes && LivesOf(run, n, ends, lives, j)
    requires CarryAll(Deliveries(run, j, n), cs) && E.IsRun(engines, moves) && i < |engines|
    requires E.AllWrites(moves[..i]) == AllLives(lives) + RecordsOf(Deliveries(run, j, n))
    ensures |engines[i].levels| > 0
    ensures Visible(E.EngineHit(engines[i], k)) == if k in AllMeaning(cs) then Some(AllMeaning(cs)[k]) else None
  {
    hide IsRun;
    hide E.IsRun;
    hide Outcome;
    hide RecordsOf;
    hide AllClean;
    hide AllLives;
    hide E.EngineHit;
    hide AllMeaning;
    hide LivesOf;
    hide CarryAll;
    CommandsApplied(Deliveries(run, j, n), cs);
    EngineConverges(run, steps, ends, lives, j, n, engines, moves, i, k);
  }
}
