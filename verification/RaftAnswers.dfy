/** What the handlers answer and change, said by terms, indices and entries alone, on logs numbered
    from 1. The protocol's functions do not occur in the conditions. */
module RaftAnswers {
  import opened Prelude
  import opened RaftLog
  import opened RaftNode

  function Larger(a: nat, b: nat): (r: nat)
    ensures r >= a && r >= b && (r == a || r == b)
  {
    if a < b then b else a
  }

  /** The term of the entry at an index, zero where there is none. */
  function TermAt(log: Entries, index: nat): (r: nat)
  {
    if 1 <= index <= |log| then log[index - 1].term else 0
  }

  /** What a step may leave as it was. */
  ghost predicate OnlyVote(x: NodeState, y: NodeState)
  {
    y == x.(currentTerm := y.currentTerm, votedFor := y.votedFor, role := y.role)
  }

  // ---------- votes ----------

  /** The candidate's last entry is not older than the voter's. */
  ghost predicate NotBehind(lastTerm: nat, lastIndex: nat, log: Entries)
  {
    lastTerm > TermAt(log, |log|) || (lastTerm == TermAt(log, |log|) && lastIndex >= |log|)
  }

  /** The vote is free for the candidate: a new term, no vote yet, or the same candidate again. */
  ghost predicate VoteFree(x: NodeState, term: nat, candidate: NodeId)
  {
    term > x.currentTerm || (term == x.currentTerm && (x.votedFor.None? || x.votedFor == Some(candidate)))
  }

  lemma {:induction false} VoteAnswer(x: NodeState, a: VoteArgs)
    requires Indexed(x.log)
    ensures var (y, term, granted) := HandleVoteRequest(x, a);
            && term == Larger(x.currentTerm, a.term) == y.currentTerm && OnlyVote(x, y)
            && (granted <==> VoteFree(x, a.term, a.candidate) && NotBehind(a.lastTerm, a.lastIndex, x.log))
            && y.votedFor ==
                (if granted then Some(a.candidate) else if a.term > x.currentTerm then None else x.votedFor)
            && y.role == (if a.term > x.currentTerm then Follower else x.role)
  {
    IndexedAccess(x.log, 0);
  }

  /** A reply of a higher term makes the receiver a follower of that term; others change nothing. */
  lemma {:induction false} TermAnswer(x: NodeState, term: nat)
    ensures var y := ObserveTerm(x, term);
            && y.currentTerm == Larger(x.currentTerm, term) && OnlyVote(x, y)
            && (term > x.currentTerm ==> y.role == Follower && y.votedFor.None?)
            && (term <= x.currentTerm ==> y == x)
  {
  }

  // ---------- requests ----------

  /** The predecessor the request names is in the log, with its term. */
  ghost predicate HasPrevious(log: Entries, a: AppendArgs)
  {
    a.prevIndex == 0 || (a.prevIndex <= |log| && log[a.prevIndex - 1].term == a.prevTerm)
  }

  /** The commit index after an accepted request. */
  function CommitAfter(commitIndex: nat, leaderCommit: nat, size: nat): (r: nat)
    ensures leaderCommit <= size ==> r == Larger(commitIndex, leaderCommit)
  {
    if leaderCommit <= commitIndex then commitIndex else if leaderCommit < size then leaderCommit else size
  }

  /** Old requests change nothing; others make the node a follower of the leader that sent them. */
  ghost predicate Follows(x: NodeState, a: AppendArgs, y: NodeState)
  {
    if a.term < x.currentTerm then y == x
    else
      && y.currentTerm == a.term && y.role == Follower && y.leaderId == Some(a.leader)
      && y.votedFor == (if a.term == x.currentTerm && x.role == Follower then x.votedFor else None)
      && y == x.(currentTerm := y.currentTerm, role := y.role, leaderId := y.leaderId, votedFor := y.votedFor,
                 log := y.log, commitIndex := y.commitIndex, apply := y.apply)
  }

  lemma {:induction false} OldAnswer(x: NodeState, a: AppendArgs)
    requires a.term < x.currentTerm
    ensures HandleAppend(x, a) == (x, x.currentTerm, false)
  {
  }

  /** The fields before the log is looked at. */
  ghost function Heeded(x: NodeState, a: AppendArgs): (r: NodeState)
  {
    x.(currentTerm := a.term, role := Follower, leaderId := Some(a.leader),
       votedFor := if a.term == x.currentTerm && x.role == Follower then x.votedFor else None)
  }

  lemma {:induction false} RefusedAnswer(x: NodeState, a: AppendArgs)
    requires Indexed(x.log) && a.term >= x.currentTerm && !HasPrevious(x.log, a)
    ensures HandleAppend(x, a) ==
            (Heeded(x, a).(log := if a.prevIndex <= |x.log| then x.log[..a.prevIndex - 1] else x.log), a.term, false)
  {
    hide AppendLoop;
    hide LastIndex;
    hide EntryAt;
    hide TruncatedFrom;
    IndexedAccess(x.log, a.prevIndex);
  }

  lemma {:induction false} AcceptedAnswer(x: NodeState, a: AppendArgs)
    requires Indexed(x.log) && a.term >= x.currentTerm && HasPrevious(x.log, a)
    ensures var (y, term, success) := HandleAppend(x, a);
            && success && term == a.term
                && y == Heeded(x, a).(log := y.log, commitIndex := y.commitIndex, apply := y.apply)
            && y.commitIndex == CommitAfter(x.commitIndex, a.leaderCommit, LastIndex(y.log))
  {
    hide AppendLoop;
    hide LastIndex;
    hide EntryAt;
    hide TruncatedFrom;
    IndexedAccess(x.log, a.prevIndex);
  }

  lemma {:induction false} AppendAnswer(x: NodeState, a: AppendArgs)
    requires Indexed(x.log)
    ensures var (y, term, success) := HandleAppend(x, a);
            && term == Larger(x.currentTerm, a.term) && Follows(x, a, y)
            && (success <==> a.term >= x.currentTerm && HasPrevious(x.log, a))
            && (!success ==> y.commitIndex == x.commitIndex && y.apply == x.apply)
            && (!success && a.term >= x.currentTerm ==>
                  y.log == if a.prevIndex <= |x.log| then x.log[..a.prevIndex - 1] else x.log)
            && (success ==> y.commitIndex == CommitAfter(x.commitIndex, a.leaderCommit, LastIndex(y.log)))
  {
    hide HandleAppend;
    hide LastIndex;
    hide CommitAfter;
    if a.term < x.currentTerm {
      OldAnswer(x, a);
    } else if HasPrevious(x.log, a) {
      AcceptedAnswer(x, a);
    } else {
      RefusedAnswer(x, a);
    }
  }

  // ---------- replies to requests ----------

  /** Nothing but the indices kept for one peer differs. */
  ghost predicate OnlyPeer(x: NodeState, y: NodeState, p: NodeId)
  {
    && (forall q :: q != p ==> At(y.nextIndex, q) == At(x.nextIndex, q) && At(y.matchIndex, q) == At(x.matchIndex, q))
    && y == x.(nextIndex := y.nextIndex, matchIndex := y.matchIndex)
  }

  lemma {:induction false} RefusalAnswer(x: NodeState, self: NodeId, ids: set<NodeId>, a: AppendArgs, term: nat)
    requires x.role == Leader && x.currentTerm == a.term && term <= x.currentTerm
    ensures var y := HandleAppendReply(x, self, ids, a, term, false);
            && OnlyPeer(x, y, a.to) && At(y.matchIndex, a.to) == At(x.matchIndex, a.to)
            && At(y.nextIndex, a.to) ==
                if At(x.nextIndex, a.to) > 1 then At(x.nextIndex, a.to) - 1 else At(x.nextIndex, a.to)
  {
  }

  /** The peers that hold an index, and the leader, are more than half. */
  ghost predicate MajorityHolds(x: NodeState, self: NodeId, ids: set<NodeId>, m: nat)
  {
    2 * (1 + |set p | p in ids && p != self && At(x.matchIndex, p) >= m|) > |ids|
  }

  /** An index the leader of the current term may commit. */
  ghost predicate MayCommit(x: NodeState, self: NodeId, ids: set<NodeId>, m: nat)
  {
    1 <= m <= |x.log| && x.log[m - 1].term == x.currentTerm && MajorityHolds(x, self, ids, m)
  }

  lemma {:induction false} MayCommitIs(x: NodeState, self: NodeId, ids: set<NodeId>, m: nat)
    requires Indexed(x.log)
    ensures MayCommit(x, self, ids, m) <==> Commitable(x, self, ids, m)
  {
    IndexedAccess(x.log, m);
    assert Holders(x, self, ids, m) == set p | p in ids && p != self && At(x.matchIndex, p) >= m;
  }

  /** The highest index that may be committed, or the old commit index if none above it may. */
  lemma {:induction false} AdvanceAnswer(x: NodeState, self: NodeId, ids: set<NodeId>)
    requires Indexed(x.log)
    ensures var y := AdvanceCommit(x, self, ids);
            && (forall m :: MayCommit(x, self, ids, m) ==> y.commitIndex >= m)
            && y.commitIndex >= x.commitIndex
            && (y.commitIndex > x.commitIndex ==> MayCommit(x, self, ids, y.commitIndex))
            && y == x.(commitIndex := y.commitIndex, apply := y.apply, proposals := y.proposals)
  {
    hide Commitable;
    hide Resolved;
    hide MayCommit;
    IndexedAccess(x.log, 0);
    var c := Advance(x, self, ids, LastIndex(x.log));
    forall m | MayCommit(x, self, ids, m)
      ensures c >= m
    {
      MayCommitIs(x, self, ids, m);
      MayCommitWithin(x, self, ids, m);
    }
    MayCommitIs(x, self, ids, c);
  }

  lemma {:induction false} MayCommitWithin(x: NodeState, self: NodeId, ids: set<NodeId>, m: nat)
    requires MayCommit(x, self, ids, m)
    ensures m <= |x.log|
  {
  }

  /** An accepted request of the leader's own term, with the leader's entries from a place on. */
  lemma {:induction false} AcceptanceAnswer(x: NodeState, self: NodeId, ids: set<NodeId>, a: AppendArgs, term: nat)
    requires Indexed(x.log) && x.role == Leader && x.currentTerm == a.term && term <= x.currentTerm
    requires forall i :: 0 <= i < |a.entries| ==> a.entries[i].index == a.prevIndex + 1 + i
    ensures var y := HandleAppendReply(x, self, ids, a, term, true);
            var top := a.prevIndex + |a.entries|;
            && At(y.matchIndex, a.to) == (if a.entries == [] then At(x.matchIndex, a.to) else top)
            && At(y.nextIndex, a.to) == (if a.entries == [] then At(x.nextIndex, a.to) else top + 1)
            && OnlyPeer(x.(commitIndex := y.commitIndex, apply := y.apply, proposals := y.proposals), y, a.to)
            && y.commitIndex >= x.commitIndex
            && (forall m :: MayCommit(y, self, ids, m) ==> y.commitIndex >= m)
            && (y.commitIndex > x.commitIndex ==> MayCommit(y, self, ids, y.commitIndex))
  {
    hide AdvanceCommit;
    var z := Acknowledged(x, a);
    AdvanceAnswer(z, self, ids);
    var y := AdvanceCommit(z, self, ids);
    forall m
      ensures MayCommit(y, self, ids, m) <==> MayCommit(z, self, ids, m)
    {
    }
    hide MayCommit;
  }

  /** Once the commit index rises, exactly the calls it has reached are answered. */
  lemma {:induction false} CallsAnswer(x: NodeState, self: NodeId, ids: set<NodeId>, a: AppendArgs, term: nat,
                                       success: bool)
    ensures var y := HandleAppendReply(x, self, ids, a, term, success);
            y.commitIndex > x.commitIndex ==>
              && (forall e :: e in y.proposals.waiting <==> e in x.proposals.waiting && e.index > y.commitIndex)
              && (forall e :: e in y.proposals.answered <==>
                    e in x.proposals.answered || (e in x.proposals.waiting && e.index <= y.commitIndex))
  {
    hide Advance;
    hide LastIndex;
  }
}
