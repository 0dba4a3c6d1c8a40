/** The in-memory Raft log of raft/log.go: a list of entries that carry their own index. */
module RaftLog {
  import opened Prelude

  datatype LogEntry = LogEntry(term: nat, index: nat, cmdType: Byte, data: Bytes)

  type Entries = seq<LogEntry>

  /** Entries are numbered 1, 2, 3, ... without gaps. */
  ghost predicate Indexed(log: Entries)
  {
    forall i :: 0 <= i < |log| ==> log[i].index == i + 1
  }

  /** Entries are numbered consecutively from the first one's own index. */
  ghost predicate Consecutive(log: Entries)
  {
    forall i :: 0 <= i < |log| ==> log[i].index == log[0].index + i
  }

  function LastIndex(log: Entries): (r: nat)
  {
    if |log| == 0 then 0 else log[|log| - 1].index
  }

  function LastTerm(log: Entries): (r: nat)
  {
    if |log| == 0 then 0 else log[|log| - 1].term
  }

  /** GetEntry: the position is computed from the index of the first entry. The bounds test
      on the position never fails on a consecutive log; it makes the function total. */
  function EntryAt(log: Entries, index: nat): (r: Option<LogEntry>)
  {
    if index == 0 || |log| == 0 then None
    else if index < log[0].index || index > LastIndex(log) then None
    else
      var pos := index - log[0].index;
      if pos < |log| then Some(log[pos]) else None
  }

  /** GetEntriesFrom. */
  function EntriesFrom(log: Entries, index: nat): (r: Entries)
  {
    if |log| == 0 || index == 0 then []
    else
      var from := if index < log[0].index then log[0].index else index;
      if from > LastIndex(log) || from - log[0].index > |log| then []
      else log[from - log[0].index..]
  }

  /** TruncateFrom. */
  function TruncatedFrom(log: Entries, index: nat): (r: Entries)
  {
    if |log| == 0 || index == 0 then log
    else if index < log[0].index then []
    else if index <= LastIndex(log) && index - log[0].index <= |log| then log[..index - log[0].index]
    else log
  }

  /** On a log numbered from 1 the index arithmetic is plain positional access. */
  lemma {:induction false} IndexedAccess(log: Entries, index: nat)
    requires Indexed(log)
    ensures LastIndex(log) == |log|
    ensures EntryAt(log, index) == (if 1 <= index <= |log| then Some(log[index - 1]) else None)
    ensures EntriesFrom(log, index) == (if 1 <= index <= |log| then log[index - 1..] else [])
    ensures TruncatedFrom(log, index) == (if 1 <= index <= |log| then log[..index - 1] else log)
  {
    if |log| > 0 {
      assert log[0].index == 1;
      assert log[|log| - 1].index == |log|;
    }
  }
}
