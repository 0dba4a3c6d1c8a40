/** The replica as it is written: an object whose methods update its fields in place, each proved
    to do to the fields what the protocol step says. */
module RaftReplica {
  import opened Prelude
  import opened RaftLog
  import opened RaftNode

  /** raft/log.go: the entry list, changed in place. Index arithmetic is safe on a consecutive log. */
  class Log {
    var entries: Entries

    constructor ()
      ensures entries == []
    {
      entries := [];
    }

    method Append(es: Entries)
      modifies this
      ensures entries == old(entries) + es
    {
      var i := 0;
      while i < |es|
        invariant 0 <= i <= |es|
        invariant entries == old(entries) + es[..i]
      {
        entries := entries + [es[i]];
        i := i + 1;
      }
    }

    method GetEntry(index: nat) returns (e: Option<LogEntry>)
      requires Consecutive(entries)
      ensures e == EntryAt(entries, index)
    {
      if index == 0 || |entries| == 0 {
        return None;
      }
      var firstIdx := entries[0].index;
      if index < firstIdx || index > entries[|entries| - 1].index {
        return None;
      }
      var pos := index - firstIdx;
      e := Some(entries[pos]);
    }

    method GetEntriesFrom(index: nat) returns (es: Entries)
      requires Consecutive(entries)
      ensures es == EntriesFrom(entries, index)
    {
      if |entries| == 0 || index == 0 {
        return [];
      }
      var firstIdx := entries[0].index;
      var from := index;
      if from < firstIdx {
        from := firstIdx;
      }
      if from > entries[|entries| - 1].index {
        return [];
      }
      es := entries[from - firstIdx..];
    }

    method TruncateFrom(index: nat)
      requires Consecutive(entries)
      modifies this
      ensures entries == TruncatedFrom(old(entries), index)
    {
      if |entries| == 0 || index == 0 {
        return;
      }
      var firstIdx := entries[0].index;
      if index < firstIdx {
        entries := [];
      } else if index <= entries[|entries| - 1].index {
        entries := entries[..index - firstIdx];
      }
    }
  }

  lemma {:induction false} ResolvedSnoc(ps: Entries, i: nat, c: nat)
    requires i < |ps|
    ensures StillWaiting(ps[..i + 1], c) == StillWaiting(ps[..i], c) + (if ps[i].index <= c then [] else [ps[i]])
    ensures AnsweredBy(ps[..i + 1], c) == AnsweredBy(ps[..i], c) + (if ps[i].index <= c then [ps[i]] else [])
  {
    assert ps[..i + 1][..i] == ps[..i];
  }

  lemma {:induction false} NoneResolved(c: nat)
    ensures StillWaiting([], c) == [] && AnsweredBy([], c) == []
  {
  }

  class Raft {
    const self: NodeId
    const peers: seq<NodeId>
    const log: Log
    var currentTerm: nat
    var votedFor: Option<NodeId>
    var role: Role
    var leaderId: Option<NodeId>
    var commitIndex: nat
    var nextIndex: map<NodeId, nat>
    var matchIndex: map<NodeId, nat>
    var tally: map<nat, set<NodeId>>
    var proposals: Entries    // the waiting calls; the source keeps their indices and channels
    var answered: Entries     // those whose channel was sent nil
    var signal: bool
    var applier: Applier
    var lastApplied: nat
    var delivered: Entries

    ghost predicate Valid()
      reads this, log
    {
      && Indexed(log.entries)
      && self !in peers
      && (forall i, j :: 0 <= i < j < |peers| ==> peers[i] != peers[j])
    }

    ghost function Ids(): (r: set<NodeId>)
    {
      {self} + Members(peers)
    }

    function View(): (r: NodeState)
      reads this, log
    {
      NodeState(currentTerm, votedFor, log.entries, role, leaderId, commitIndex, nextIndex, matchIndex, tally,
                ApplyState(signal, applier, lastApplied, delivered), Proposals(proposals, answered))
    }

    constructor (self: NodeId, peers: seq<NodeId>)
      requires self !in peers
      requires forall i, j :: 0 <= i < j < |peers| ==> peers[i] != peers[j]
      ensures Valid() && View() == FreshNode && fresh(log)
    {
      this.self, this.peers := self, peers;
      log := new Log();
      currentTerm, votedFor, role, leaderId := 0, None, Follower, None;
      commitIndex, nextIndex, matchIndex, tally := 0, map[], map[], map[];
      proposals, answered := [], [];
      signal, applier, lastApplied, delivered := false, Idle, 0, [];
    }

    method BecomeFollowerLocked(term: nat, leader: Option<NodeId>)
      modifies this
      ensures View() == BecomeFollower(old(View()), term, leader)
    {
      role := Follower;
      currentTerm := term;
      votedFor := None;
      if leader.Some? {
        leaderId := leader;
      }
    }

    method BeginElection() returns (a: VoteArgs)
      modifies this
      ensures View() == StartElection(old(View()), self)
      ensures a == VoteRequest(View(), self)
    {
      role := Candidate;
      currentTerm := currentTerm + 1;
      votedFor := Some(self);
      leaderId := None;
      tally := tally[currentTerm := {self}];
      a := VoteArgs(currentTerm, self, LastIndex(log.entries), LastTerm(log.entries));
    }

    /** The fresh per-peer indices of a new leader. */
    method InitialIndices(lastIdx: nat) returns (next: map<NodeId, nat>, matched: map<NodeId, nat>)
      requires Valid()
      ensures next == InitialNext(self, Ids(), lastIdx)
      ensures matched == InitialMatch(self, Ids(), lastIdx)
    {
      next, matched := map[], map[];
      var i := 0;
      while i < |peers|
        invariant 0 <= i <= |peers|
        invariant forall p :: p in next <==> p in peers[..i]
        invariant forall p :: p in matched <==> p in peers[..i]
        invariant forall p :: p in peers[..i] ==> next[p] == lastIdx + 1 && matched[p] == 0
      {
        assert peers[..i + 1] == peers[..i] + [peers[i]];
        next := next[peers[i] := lastIdx + 1];
        matched := matched[peers[i] := 0];
        i := i + 1;
      }
      assert peers[..i] == peers;
      IsInitialNext(next, self, Ids(), lastIdx);
      matched := matched[self := lastIdx];
      IsInitialMatch(matched, self, Ids(), lastIdx);
    }

    method BecomeLeaderLocked()
      requires Valid()
      modifies this
      ensures View() == BecomeLeader(old(View()), self, Ids())
    {
      hide InitialNext;
      hide InitialMatch;
      role := Leader;
      leaderId := Some(self);
      nextIndex, matchIndex := InitialIndices(LastIndex(log.entries));
    }

    method HandleRequestVote(a: VoteArgs) returns (term: nat, granted: bool)
      modifies this
      ensures (View(), term, granted) == HandleVoteRequest(old(View()), a)
    {
      term, granted := currentTerm, false;
      if a.term < currentTerm {
        return;
      }
      if a.term > currentTerm {
        BecomeFollowerLocked(a.term, None);
        term := currentTerm;
      }
      if votedFor.Some? && votedFor.value != a.candidate {
        return;
      }
      var lastTerm, lastIndex := LastTerm(log.entries), LastIndex(log.entries);
      if a.lastTerm < lastTerm {
        return;
      }
      if a.lastTerm == lastTerm && a.lastIndex < lastIndex {
        return;
      }
      votedFor := Some(a.candidate);
      granted := true;
    }

    /** The append loop: skip, truncate at a conflict, append the rest. */
    method AppendNew(es: Entries)
      requires Valid()
      modifies log
      ensures log.entries == AppendLoop(old(log.entries), es, 0)
    {
      hide EntryAt;
      hide TruncatedFrom;
      var i := 0;
      while i < |es|
        invariant 0 <= i <= |es|
        invariant log.entries == old(log.entries)
        invariant AppendLoop(log.entries, es, 0) == AppendLoop(log.entries, es, i)
      {
        var existing := log.GetEntry(es[i].index);
        if existing.Some? && existing.value.term != es[i].term {
          log.TruncateFrom(es[i].index);
          log.Append(es[i..]);
          return;
        } else if existing.None? {
          log.Append(es[i..]);
          return;
        }
        i := i + 1;
      }
    }

    /** The log stays numbered if the request's entries are numbered from its predecessor on, as all
        requests of a run are. */
    method HandleAppendEntries(a: AppendArgs) returns (term: nat, success: bool)
      requires Valid()
      modifies this, log
      ensures (View(), term, success) == HandleAppend(old(View()), a)
      ensures Numbered(a) ==> Valid()
    {
      hide AppendLoop;
      hide EntryAt;
      hide TruncatedFrom;
      term, success := currentTerm, false;
      if a.term < currentTerm {
        return;
      }
      if a.term > currentTerm || role != Follower {
        BecomeFollowerLocked(a.term, Some(a.leader));
        term := currentTerm;
      } else {
        leaderId := Some(a.leader);
      }
      IndexedAccess(log.entries, a.prevIndex);
      if a.prevIndex > 0 {
        var entry := log.GetEntry(a.prevIndex);
        if entry.None? {
          return;
        }
        if entry.value.term != a.prevTerm {
          log.TruncateFrom(a.prevIndex);
          return;
        }
      }
      if Numbered(a) {
        AppendLoopNumbered(log.entries, a.prevIndex, a.entries, 0);
      }
      AppendNew(a.entries);
      success := true;
      FollowLeaderCommit(a.leaderCommit);
    }

    method FollowLeaderCommit(leaderCommit: nat)
      modifies this
      ensures View() == FollowCommit(old(View()), leaderCommit)
    {
      if leaderCommit > commitIndex {
        var lastIdx := LastIndex(log.entries);
        if leaderCommit < lastIdx {
          commitIndex := leaderCommit;
        } else {
          commitIndex := lastIdx;
        }
        signal := true;
      }
    }

    /** Propose, up to the wait for the answer. */
    method ProposeLocked(cmdType: Byte, data: Bytes) returns (index: Option<nat>)
      requires Valid()
      modifies this, log
      ensures Valid()
      ensures old(role) != Leader ==> index == None && View() == old(View())
      ensures old(role) == Leader ==>
                View() == ProposeEntry(old(View()), self, cmdType, data) && index == Some(|log.entries|)
    {
      if role != Leader {
        return None;
      }
      IndexedAccess(log.entries, 0);
      var e := LogEntry(currentTerm, LastIndex(log.entries) + 1, cmdType, data);
      log.Append([e]);
      proposals := proposals + [e];
      matchIndex := matchIndex[self := e.index];
      index := Some(e.index);
    }

    /** replicateTo, up to the sending of the request. */
    method RequestFor(peer: NodeId) returns (a: AppendArgs)
      requires Valid()
      ensures a == AppendRequest(View(), self, peer)
    {
      var nextIdx := At(nextIndex, peer);
      var prevIndex, prevTerm := 0, 0;
      if nextIdx > 1 {
        prevIndex := nextIdx - 1;
        var entry := log.GetEntry(prevIndex);
        if entry.Some? {
          prevTerm := entry.value.term;
        }
      }
      var entries := log.GetEntriesFrom(nextIdx);
      a := AppendArgs(currentTerm, self, peer, prevIndex, prevTerm, entries, commitIndex);
    }

    /** How many nodes hold index n: this one and the peers whose matchIndex reaches n. */
    method CountHolders(n: nat) returns (count: nat)
      requires Valid()
      ensures count == 1 + |Holders(View(), self, Ids(), n)|
    {
      count := 1;
      var i := 0;
      while i < |peers|
        invariant 0 <= i <= |peers|
        invariant count == 1 + CountIn(peers[..i], matchIndex, n)
      {
        assert peers[..i + 1][..i] == peers[..i];
        if At(matchIndex, peers[i]) >= n {
          count := count + 1;
        }
        i := i + 1;
      }
      assert peers[..i] == peers;
      CountInIsHolders(peers, View(), self, n);
    }

    method ResolveProposalsLocked()
      modifies `proposals, `answered
      ensures View() == old(View()).(proposals := Resolved(old(View()).proposals, commitIndex))
    {
      hide StillWaiting;
      hide AnsweredBy;
      var remaining: Entries := [];
      var i := 0;
      assert proposals[..0] == [];
      NoneResolved(commitIndex);
      while i < |proposals|
        invariant 0 <= i <= |proposals| && proposals == old(proposals)
        invariant remaining == StillWaiting(proposals[..i], commitIndex)
        invariant answered == old(answered) + AnsweredBy(proposals[..i], commitIndex)
      {
        ResolvedSnoc(proposals, i, commitIndex);
        if proposals[i].index <= commitIndex {
          answered := answered + [proposals[i]];
        } else {
          remaining := remaining + [proposals[i]];
        }
        i := i + 1;
      }
      assert proposals[..i] == proposals;
      proposals := remaining;
    }

    /** The downward search for the highest index of this term that a majority holds. */
    method AdvanceCommitIndexLocked()
      requires Valid()
      modifies this
      ensures View() == AdvanceCommit(old(View()), self, Ids())
    {
      var n: nat := LastIndex(log.entries);
      ghost var x := View();
      assert |Ids()| == |peers| + 1 by { IdsSize(); }
      while n > commitIndex
        invariant View() == x
        invariant Advance(x, self, Ids(), LastIndex(x.log)) == Advance(x, self, Ids(), n)
        decreases n
      {
        var entry := log.GetEntry(n);
        if entry.Some? && entry.value.term == currentTerm {
          var count := CountHolders(n);
          var total := |peers| + 1;
          if count > total / 2 {
            commitIndex := n;
            signal := true;
            ResolveProposalsLocked();
            return;
          }
        }
        n := n - 1;
      }
    }

    lemma {:induction false} IdsSize()
      requires Valid()
      ensures |Ids()| == |peers| + 1
    {
      DistinctSize(peers);
    }

    method Acknowledge(a: AppendArgs)
      modifies this
      ensures View() == Acknowledged(old(View()), a)
    {
      if |a.entries| > 0 {
        nextIndex := nextIndex[a.to := a.entries[|a.entries| - 1].index + 1];
        matchIndex := matchIndex[a.to := a.entries[|a.entries| - 1].index];
      }
    }

    /** The reply half of replicateTo. */
    method HandleReply(a: AppendArgs, term: nat, success: bool)
      requires Valid()
      modifies this
      ensures Valid() && View() == HandleAppendReply(old(View()), self, Ids(), a, term, success)
    {
      hide AdvanceCommit;
      hide Acknowledged;
      if term > currentTerm {
        BecomeFollowerLocked(term, None);
        return;
      }
      if role != Leader || currentTerm != a.term {
        return;
      }
      if success {
        Acknowledge(a);
        AdvanceCommitIndexLocked();
      } else if At(nextIndex, a.to) > 1 {
        nextIndex := nextIndex[a.to := At(nextIndex, a.to) - 1];
      }
    }

    /** applyCommitted with nobody else at work: everything committed is delivered, in order. */
    method ApplyCommitted()
      requires Valid() && lastApplied == |delivered| <= commitIndex <= |log.entries|
      requires delivered == log.entries[..|delivered|]
      modifies this
      ensures Valid() && lastApplied == commitIndex == old(commitIndex) && delivered == log.entries[..commitIndex]
      ensures View() == old(View()).(apply := View().apply)
    {
      var idx := lastApplied + 1;
      while idx <= commitIndex
        invariant lastApplied == |delivered| == idx - 1 <= commitIndex <= |log.entries|
        invariant delivered == log.entries[..|delivered|]
        invariant Valid() && View() == old(View()).(apply := View().apply)
        decreases commitIndex - idx
      {
        IndexedAccess(log.entries, idx);
        var entry := log.GetEntry(idx);
        if entry.None? {
          break;
        }
        delivered := delivered + [entry.value];
        lastApplied := idx;
        idx := idx + 1;
      }
    }
  }

  ghost predicate Numbered(a: AppendArgs)
  {
    forall i :: 0 <= i < |a.entries| ==> a.entries[i].index == a.prevIndex + 1 + i
  }

  /** A request whose entries follow its predecessor leaves the log numbered. */
  lemma {:induction false} AppendLoopNumbered(log: Entries, prev: nat, es: Entries, i: nat)
    requires Indexed(log) && i <= |es| && prev + i <= |log|
    requires forall j :: 0 <= j < |es| ==> es[j].index == prev + 1 + j
    ensures Indexed(AppendLoop(log, es, i))
    decreases |es| - i
  {
    if i < |es| {
      IndexedAccess(log, es[i].index);
      var e := EntryAt(log, es[i].index);
      if e.Some? && e.value.term == es[i].term {
        AppendLoopNumbered(log, prev, es, i + 1);
      }
    }
  }

  function CountIn(s: seq<NodeId>, m: map<NodeId, nat>, n: nat): (r: nat)
  {
    if s == [] then 0
    else CountIn(s[..|s| - 1], m, n) + (if At(m, s[|s| - 1]) >= n then 1 else 0)
  }

  lemma {:induction false} CountInSize(s: seq<NodeId>, m: map<NodeId, nat>, n: nat, a: set<NodeId>)
    requires forall i, j :: 0 <= i < j < |s| ==> s[i] != s[j]
    requires forall p :: p in a <==> p in s && At(m, p) >= n
    ensures CountIn(s, m, n) == |a|
  {
    if s == [] {
      assert a == {};
    } else {
      var k := |s| - 1;
      assert s == s[..k] + [s[k]];
      CountInSize(s[..k], m, n, a - {s[k]});
    }
  }

  lemma {:induction false} CountInIsHolders(s: seq<NodeId>, x: NodeState, self: NodeId, n: nat)
    requires self !in s && forall i, j :: 0 <= i < j < |s| ==> s[i] != s[j]
    ensures CountIn(s, x.matchIndex, n) == |Holders(x, self, {self} + Members(s), n)|
  {
    CountInSize(s, x.matchIndex, n, Holders(x, self, {self} + Members(s), n));
  }

  lemma {:induction false} IsInitialNext(m: map<NodeId, nat>, self: NodeId, ids: set<NodeId>, k: nat)
    requires forall p :: p in m <==> p in ids && p != self
    requires forall p :: p in m ==> m[p] == k + 1
    ensures m == InitialNext(self, ids, k)
  {
  }

  lemma {:induction false} IsInitialMatch(m: map<NodeId, nat>, self: NodeId, ids: set<NodeId>, k: nat)
    requires forall p :: p in m <==> p in ids
    requires forall p :: p in m ==> m[p] == if p == self then k else 0
    ensures m == InitialMatch(self, ids, k)
  {
  }

  function Members(s: seq<NodeId>): (r: set<NodeId>)
  {
    set p | p in s
  }

  lemma {:induction false} DistinctSize(s: seq<NodeId>)
    requires forall i, j :: 0 <= i < j < |s| ==> s[i] != s[j]
    ensures |Members(s)| == |s|
  {
    if s == [] {
      assert Members(s) == {};
    } else {
      var k := |s| - 1;
      DistinctSize(s[..k]);
      assert s[k] !in Members(s[..k]);
      assert s == s[..k] + [s[k]];
      assert Members(s) == Members(s[..k]) + {s[k]};
    }
  }
}
