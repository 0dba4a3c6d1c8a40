/** What the steps of a run achieve, beside being safe: votes that must be granted, requests and replies
    as they are sent, followers that catch up, old leaders that step down, back-off and commitment. */
module RaftProgress {
  import opened Prelude
  import opened RaftLog
  import opened RaftNode
  import opened RaftNetwork
  import opened RaftHistory
  import opened RaftReplication
  import opened RaftSafety
  import opened RaftAnswers

  // ---------- one step of a run ----------

  lemma {:induction false} StepAt(run: seq<Net>, steps: seq<Step>, i: nat)
    requires IsRun(run, steps) && i < |steps|
    ensures |run| == |steps| + 1 && Enabled(run[i], steps[i]) && run[i + 1] == Do(run[i], steps[i])
    ensures steps[i].n in run[i].nodes && steps[i].n in run[i + 1].nodes
    ensures run[i + 1].nodes[steps[i].n] == NodeAfter(run[i], steps[i])
    ensures run[i].sent + MessagesOf(run[i], steps[i]) == run[i + 1].sent
  {
    hide NodeAfter;
    hide MessagesOf;
  }

  lemma {:induction false} NumberedAt(run: seq<Net>, steps: seq<Step>, i: nat, n: NodeId)
    requires IsRun(run, steps) && i < |run| && n in run[i].nodes
    ensures Indexed(run[i].nodes[n].log) && LastIndex(run[i].nodes[n].log) == |run[i].nodes[n].log|
  {
    hide IsRun;
    LogsOrdered(run, steps, i, n);
    IndexedAccess(run[i].nodes[n].log, 0);
  }

  // ---------- votes ----------

  /** The reply to a vote request: its term is the larger of both, and the vote is granted exactly if it
      is free and the candidate's last entry is not behind the voter's. */
  lemma {:induction false} VoteReplied(run: seq<Net>, steps: seq<Step>, i: nat) returns (granted: bool)
    requires IsRun(run, steps) && i < |steps| && steps[i].OnVoteRequest?
    ensures var n, v := steps[i].n, steps[i].vote;
            && n in run[i].nodes && n in run[i + 1].nodes
            && var x, y := run[i].nodes[n], run[i + 1].nodes[n];
               && VoteReply(v, n, Larger(x.currentTerm, v.term), granted) in run[i + 1].sent
               && (granted <==> VoteFree(x, v.term, v.candidate) && NotBehind(v.lastTerm, v.lastIndex, x.log))
               && y.currentTerm == Larger(x.currentTerm, v.term) && OnlyVote(x, y)
               && (granted ==> y.votedFor == Some(v.candidate))
               && (v.term > x.currentTerm ==> y.role == Follower)
  {
    hide IsRun;
    hide VoteFree;
    hide NotBehind;
    hide HandleVoteRequest;
    StepAt(run, steps, i);
    var n, v := steps[i].n, steps[i].vote;
    NumberedAt(run, steps, i, n);
    VoteAnswer(run[i].nodes[n], v);
    granted := HandleVoteRequest(run[i].nodes[n], v).2;
  }

  lemma {:induction false} CampaignAt(run: seq<Net>, steps: seq<Step>, p: nat)
    requires IsRun(run, steps) && p < |steps| && steps[p].Timeout? && steps[p].n in run[p].nodes
    ensures |run| == |steps| + 1
    ensures var c, h := (steps[p].n, run[p].nodes[steps[p].n].currentTerm + 1), HistoryAt(run, steps, p + 1);
            c in h.campaigns && h.campaigns[c] == run[p].nodes[steps[p].n].log
  {
    hide After;
    hide Do;
    assert Enabled(run[p], steps[p]);
    var h := HistoryAt(run, steps, p);
    assert HistoryAt(run, steps, p + 1) == After(run[p], h, steps[p]);
    hide Enabled;
    CampaignBegun(run[p], h, steps[p]);
  }

  /** What a vote request says of the candidate's log is what that was when the candidacy began. */
  lemma {:induction false} CampaignLog(run: seq<Net>, steps: seq<Step>, p: nat, q: nat, v: VoteArgs)
    requires IsRun(run, steps) && p < q < |run| && p < |steps| && steps[p] == Timeout(v.candidate)
    requires v.candidate in run[p].nodes && v.term == run[p].nodes[v.candidate].currentTerm + 1
    requires RequestVote(v) in run[q].sent
    ensures var log := run[p].nodes[v.candidate].log; v.lastIndex == |log| && v.lastTerm == TermAt(log, |log|)
  {
    hide Inv;
    hide Grows;
    hide IsRun;
    hide HistoryAt;
    CampaignAt(run, steps, p);
    HistoryInv(run, steps, q);
    HistoryGrows(run, steps, p + 1, q);
    CampaignKept(HistoryAt(run, steps, p + 1), HistoryAt(run, steps, q), (v.candidate, v.term));
    CampaignTold(run[q], HistoryAt(run, steps, q), v);
    NumberedAt(run, steps, p, v.candidate);
  }

  lemma {:induction false} CampaignBegun(s: Net, h: History, step: Step)
    requires Enabled(s, step) && step.Timeout?
    ensures var c := (step.n, s.nodes[step.n].currentTerm + 1);
            c in After(s, h, step).campaigns && After(s, h, step).campaigns[c] == s.nodes[step.n].log
  {
  }

  lemma {:induction false} CampaignKept(h: History, h': History, c: (NodeId, nat))
    requires Grows(h, h') && c in h.campaigns
    ensures c in h'.campaigns && h'.campaigns[c] == h.campaigns[c]
  {
  }

  lemma {:induction false} CampaignTold(s: Net, h: History, v: VoteArgs)
    requires Inv(s, h) && RequestVote(v) in s.sent
    ensures (v.candidate, v.term) in h.campaigns
    ensures var log := h.campaigns[(v.candidate, v.term)]; v.lastIndex == LastIndex(log) && v.lastTerm == LastTerm(log)
  {
    hide HistoryOk;
    hide NodeOk;
    assert MessageOk(s.ids, h, RequestVote(v));
  }

  /** A candidate whose log, when it began, held all that the voter has now gets the vote of every node
      that is still in a lower term. */
  lemma {:induction false} AheadCandidateGetsVote(run: seq<Net>, steps: seq<Step>, p: nat, q: nat)
    requires IsRun(run, steps) && p < q < |steps| && steps[q].OnVoteRequest?
             && steps[p] == Timeout(steps[q].vote.candidate)
    requires steps[p].n in run[p].nodes && steps[q].vote.term == run[p].nodes[steps[p].n].currentTerm + 1
    requires steps[q].n in run[q].nodes && run[q].nodes[steps[q].n].currentTerm < steps[q].vote.term
    requires run[q].nodes[steps[q].n].log <= run[p].nodes[steps[p].n].log
    ensures var n, v := steps[q].n, steps[q].vote;
            && VoteReply(v, n, v.term, true) in run[q + 1].sent
            && n in run[q + 1].nodes && run[q + 1].nodes[n].votedFor == Some(v.candidate)
  {
    var n, v := steps[q].n, steps[q].vote;
    var mine, theirs := run[q].nodes[n].log, run[p].nodes[steps[p].n].log;
    StepAt(run, steps, q);
    assert RequestVote(v) in run[q].sent;
    CampaignLog(run, steps, p, q, v);
    LogsOrdered(run, steps, p, steps[p].n);
    hide IsRun;
    if mine != [] {
      assert mine[|mine| - 1] == theirs[|mine| - 1];
      assert theirs[|mine| - 1].term <= theirs[|theirs| - 1].term;
      assert |mine| < |theirs| || mine == theirs;
    }
    var granted := VoteReplied(run, steps, q);
  }

  // ---------- replies of a higher term ----------

  /** Whoever hears of a higher term, in either kind of reply, becomes a follower of it. */
  lemma {:induction false} HigherTermStepsDown(run: seq<Net>, steps: seq<Step>, i: nat)
    requires IsRun(run, steps) && i < |steps| && (steps[i].OnVoteReply? || steps[i].OnAppendReply?)
    ensures var n := steps[i].n;
            && n in run[i].nodes && n in run[i + 1].nodes
            && var x, y := run[i].nodes[n], run[i + 1].nodes[n];
               && y.currentTerm == Larger(x.currentTerm, steps[i].term)
               && (steps[i].term > x.currentTerm ==> y.role == Follower && y.votedFor.None? && OnlyVote(x, y))
  {
    hide IsRun;
    StepAt(run, steps, i);
    var x := run[i].nodes[steps[i].n];
    if steps[i].OnAppendReply? {
      ReplyTerms(x, steps[i].n, run[i].ids, steps[i].args, steps[i].term, steps[i].success);
    } else {
      TermAnswer(x, steps[i].term);
    }
  }

  lemma {:induction false} ReplyTerms(x: NodeState, self: NodeId, ids: set<NodeId>, a: AppendArgs, term: nat,
                                      success: bool)
    ensures var y := HandleAppendReply(x, self, ids, a, term, success);
            && y.currentTerm == Larger(x.currentTerm, term)
            && (term > x.currentTerm ==> y.role == Follower && y.votedFor.None? && OnlyVote(x, y))
  {
    hide Advance;
    hide LastIndex;
    hide Resolved;
  }

  // ---------- requests and their replies ----------

  /** A Replicate step sends the rest of the log from the peer's next index, its predecessor, and the
      commit index of that moment. */
  lemma {:induction false} RequestSent(run: seq<Net>, steps: seq<Step>, i: nat) returns (a: AppendArgs)
    requires IsRun(run, steps) && i < |steps| && steps[i].Replicate?
    ensures steps[i].n in run[i].nodes && Append(a) in run[i + 1].sent
    ensures var x := run[i].nodes[steps[i].n];
            && a.leader == steps[i].n && a.to == steps[i].peer && a.term == x.currentTerm
            && 1 <= At(x.nextIndex, a.to) <= |x.log| + 1 && a.prevIndex + 1 == At(x.nextIndex, a.to)
            && a.prevTerm == TermAt(x.log, a.prevIndex) && a.entries == x.log[a.prevIndex..]
            && a.leaderCommit == x.commitIndex
  {
    hide Inv;
    hide Grows;
    hide NodeOk;
    hide HistoryOk;
    StepAt(run, steps, i);
    var n, p := steps[i].n, steps[i].peer;
    hide IsRun;
    var hs := RunHistories(run, steps);
    NodeLog(run[i], hs[i], hs[i], n);
    ReplicatedRequest(run[i].ids, hs[i], n, run[i].nodes[n], p);
    NumberedAt(run, steps, i, n);
    a := AppendRequest(run[i].nodes[n], n, p);
    IndexedAccess(run[i].nodes[n].log, a.prevIndex);
  }

  /** The reply to a request: its term is the larger of both, and it is accepted exactly if it is not
      old and its predecessor is in the log. */
  lemma {:induction false} AppendReplied(run: seq<Net>, steps: seq<Step>, i: nat) returns (success: bool)
    requires IsRun(run, steps) && i < |steps| && steps[i].OnAppend?
    ensures var n, a := steps[i].n, steps[i].args;
            && n in run[i].nodes && n in run[i + 1].nodes
            && var x, y := run[i].nodes[n], run[i + 1].nodes[n];
               && AppendReply(a, Larger(x.currentTerm, a.term), success) in run[i + 1].sent
               && (success <==> a.term >= x.currentTerm && HasPrevious(x.log, a)) && Follows(x, a, y)
               && (!success && a.term >= x.currentTerm ==>
                     y.log == (if a.prevIndex <= |x.log| then x.log[..a.prevIndex - 1] else x.log)
                     && y.commitIndex == x.commitIndex)
               && (success ==> y.commitIndex == CommitAfter(x.commitIndex, a.leaderCommit, |y.log|))
  {
    hide IsRun;
    hide Follows;
    hide HasPrevious;
    hide HandleAppend;
    StepAt(run, steps, i);
    var n, a := steps[i].n, steps[i].args;
    NumberedAt(run, steps, i, n);
    NumberedAt(run, steps, i + 1, n);
    AppendAnswer(run[i].nodes[n], a);
    success := HandleAppend(run[i].nodes[n], a).2;
  }

  /** An old leader's request is refused with the node's own term, and handling that reply the old
      leader steps down into a term at least as high. */
  lemma {:induction false} OldLeaderStepsDown(run: seq<Net>, steps: seq<Step>, i: nat, j: nat)
    requires IsRun(run, steps) && i < |steps| && j < |steps| && steps[i].OnAppend? && steps[i].n in run[i].nodes
    requires steps[i].args.term < run[i].nodes[steps[i].n].currentTerm
    requires steps[j] == OnAppendReply(steps[i].args.leader, steps[i].args, run[i].nodes[steps[i].n].currentTerm, false)
    requires steps[j].n in run[j].nodes && run[j].nodes[steps[j].n].role == Leader
    requires run[j].nodes[steps[j].n].currentTerm == steps[i].args.term
    ensures AppendReply(steps[i].args, run[i].nodes[steps[i].n].currentTerm, false) in run[i + 1].sent
    ensures steps[j].n in run[j + 1].nodes
    ensures var y := run[j + 1].nodes[steps[j].n];
            y.role == Follower && y.currentTerm == run[i].nodes[steps[i].n].currentTerm
  {
    hide IsRun;
    var refused := AppendReplied(run, steps, i);
    HigherTermStepsDown(run, steps, j);
  }

  // ---------- catching up ----------

  /** The handler accepts: the new log is that of the append loop. */
  lemma {:induction false} AcceptedIs(x: NodeState, a: AppendArgs)
    requires Indexed(x.log) && a.term >= x.currentTerm && HasPrevious(x.log, a)
    ensures HandleAppend(x, a).0.log == AppendLoop(Heard(x, a).log, a.entries, 0) && Heard(x, a).log == x.log
  {
    hide AppendLoop;
    hide EntryAt;
    hide TruncatedFrom;
    hide LastIndex;
    IndexedAccess(x.log, a.prevIndex);
  }

  /** An accepted request brings the log up to the leader's as far as it was sent. */
  lemma {:induction false} AcceptedLog(ids: set<NodeId>, h: History, n: NodeId, x: NodeState, a: AppendArgs)
    requires HistoryOk(ids, h) && NodeOk(ids, h, n, x) && AppendArgsOk(ids, h, a) && a.to == n
    requires Indexed(x.log) && a.term >= x.currentTerm && HasPrevious(x.log, a)
    ensures h.reigns[a.term].log[..a.prevIndex + |a.entries|] <= HandleAppend(x, a).0.log
  {
    hide HistoryOk;
    hide NodeOk;
    hide AppendLoop;
    hide Genuine;
    hide ReignsOk;
    hide Committed;
    hide EntryAt;
    hide HandleAppend;
    hide Heard;
    var w := Heard(x, a);
    AcceptedIs(x, a);
    HeardOk(ids, h, n, x, a);
    FollowerFacts(ids, h, n, w);
    IndexedAccess(w.log, a.prevIndex);
    AcceptedNode(ids, h, n, w, a);
  }

  /** After an accepted request the follower's log begins with all the leader had when it sent it, and
      its commit index is at least the leader's of that moment. */
  lemma {:induction false} FollowerCatchesUp(run: seq<Net>, steps: seq<Step>, q: nat) returns (p: nat)
    requires IsRun(run, steps) && q < |steps| && steps[q].OnAppend? && steps[q].n in run[q].nodes
    requires steps[q].args.term >= run[q].nodes[steps[q].n].currentTerm
    requires HasPrevious(run[q].nodes[steps[q].n].log, steps[q].args)
    ensures p < q && steps[p] == Replicate(steps[q].args.leader, steps[q].n)
    ensures steps[p].n in run[p].nodes && steps[q].n in run[q + 1].nodes
    ensures var x, y := run[p].nodes[steps[p].n], run[q + 1].nodes[steps[q].n];
            x.log <= y.log && x.commitIndex <= y.commitIndex
  {
    hide Inv;
    hide Grows;
    hide HandleAppend;
    hide NodeOk;
    hide HistoryOk;
    hide ReignsOk;
    hide Genuine;
    hide HasPrevious;
    hide Follows;
    StepAt(run, steps, q);
    var n, a := steps[q].n, steps[q].args;
    p := AppendsAreSound(run, steps, q, a);
    hide IsRun;
    var hs := RunHistories(run, steps);
    MessageAt(run[q], hs[q], Append(a));
    NodeLog(run[q], hs[q], hs[q], n);
    NumberedAt(run, steps, q, n);
    AcceptedLog(run[q].ids, hs[q], n, run[q].nodes[n], a);
    LeaderReign(run[p], hs[p], hs[q], a.leader);
    var x, y := run[p].nodes[a.leader], run[q + 1].nodes[n];
    assert |x.log| == a.prevIndex + |a.entries|;
    assert x.log == hs[q].reigns[a.term].log[..|x.log|];
    var success := AppendReplied(run, steps, q);
  }

  // ---------- back-off ----------

  /** The leader of the request's term handles a refusal: the next index for that peer is one lower, but
      not below 1, and nothing else has changed. */
  lemma {:induction false} RefusalBacksOff(run: seq<Net>, steps: seq<Step>, i: nat)
    requires IsRun(run, steps) && i < |steps| && steps[i].OnAppendReply? && !steps[i].success
    requires steps[i].n in run[i].nodes && run[i].nodes[steps[i].n].role == Leader
    requires steps[i].term <= run[i].nodes[steps[i].n].currentTerm == steps[i].args.term
    ensures steps[i].n in run[i + 1].nodes
    ensures var x, y, p := run[i].nodes[steps[i].n], run[i + 1].nodes[steps[i].n], steps[i].args.to;
            && OnlyPeer(x, y, p) && At(y.matchIndex, p) == At(x.matchIndex, p)
            && 1 <= At(x.nextIndex, p) && At(y.nextIndex, p) == Larger(1, At(x.nextIndex, p) - 1)
  {
    hide IsRun;
    hide HandleAppendReply;
    hide OnlyPeer;
    StepAt(run, steps, i);
    var n, a := steps[i].n, steps[i].args;
    NextIndexPositive(run, steps, i);
    RefusalAnswer(run[i].nodes[n], n, run[i].ids, a, steps[i].term);
  }

  lemma {:induction false} NextIndexPositive(run: seq<Net>, steps: seq<Step>, i: nat)
    requires IsRun(run, steps) && i < |steps| && steps[i].OnAppendReply? && steps[i].n in run[i].nodes
    requires run[i].nodes[steps[i].n].role == Leader
    ensures At(run[i].nodes[steps[i].n].nextIndex, steps[i].args.to) >= 1
  {
    hide Inv;
    hide Grows;
    hide HandleAppendReply;
    StepAt(run, steps, i);
    hide IsRun;
    var hs := RunHistories(run, steps);
    PeerIndex(run[i], hs[i], steps[i].n, steps[i].args, steps[i].term, steps[i].success);
  }

  lemma {:induction false} PeerIndex(s: Net, h: History, n: NodeId, a: AppendArgs, term: nat, success: bool)
    requires Inv(s, h) && n in s.nodes && s.nodes[n].role == Leader && AppendReply(a, term, success) in s.sent
             && a.leader == n
    ensures At(s.nodes[n].nextIndex, a.to) >= 1 && a.to in s.ids && a.to != n
  {
    hide HistoryOk;
    assert MessageOk(s.ids, h, AppendReply(a, term, success));
    assert NodeOk(s.ids, h, n, s.nodes[n]);
    hide Committed;
    hide AckerOk;
    hide VoterOk;
    hide TallyOk;
    assert PeerOk(h, s.nodes[n], a.to);
  }

  /** k refusals of a leader's own term by one peer, in a row. */
  ghost predicate RefusedInARow(run: seq<Net>, steps: seq<Step>, i: nat, k: nat, n: NodeId, p: NodeId)
  {
    && i + k <= |steps| && |run| == |steps| + 1 && n in run[i].nodes && run[i].nodes[n].role == Leader
    && forall r :: i <= r < i + k ==>
         && steps[r].OnAppendReply? && steps[r].n == n && !steps[r].success && steps[r].args.to == p
         && steps[r].term <= run[i].nodes[n].currentTerm == steps[r].args.term
  }

  lemma {:induction false} RefusalsLower(run: seq<Net>, steps: seq<Step>, i: nat, k: nat, n: NodeId, p: NodeId)
    requires IsRun(run, steps) && RefusedInARow(run, steps, i, k, n, p) && At(run[i].nodes[n].nextIndex, p) >= 1
    ensures n in run[i + k].nodes
    ensures var x, y := run[i].nodes[n], run[i + k].nodes[n];
            && y.role == Leader && y.currentTerm == x.currentTerm && y.log == x.log
            && At(y.nextIndex, p) == if At(x.nextIndex, p) > k then At(x.nextIndex, p) - k else 1
  {
    hide IsRun;
    if k > 0 {
      RefusalsLower(run, steps, i, k - 1, n, p);
      RefusalBacksOff(run, steps, i + k - 1);
    }
  }

  /** Enough refusals in a row, and the next request begins at the first entry: it carries the whole log
      and no peer of that or a lower term can refuse it. */
  lemma {:induction false} RefusalsReachTheStart(run: seq<Net>, steps: seq<Step>, i: nat, k: nat, n: NodeId, p: NodeId)
    returns (a: AppendArgs)
    requires IsRun(run, steps) && RefusedInARow(run, steps, i, k, n, p) && i + k < |steps|
    requires 1 <= At(run[i].nodes[n].nextIndex, p) <= k + 1 && steps[i + k] == Replicate(n, p)
    ensures Append(a) in run[i + k + 1].sent && a.leader == n && a.to == p && a.term == run[i].nodes[n].currentTerm
    ensures a.prevIndex == 0 && a.entries == run[i].nodes[n].log
    ensures forall q :: i + k < q < |steps| && steps[q] == OnAppend(p, a) && p in run[q].nodes
                        && run[q].nodes[p].currentTerm <= a.term ==>
              p in run[q + 1].nodes && run[i].nodes[n].log <= run[q + 1].nodes[p].log
  {
    hide IsRun;
    RefusalsLower(run, steps, i, k, n, p);
    a := RequestSent(run, steps, i + k);
    assert run[i + k].nodes[n].log[0..] == run[i + k].nodes[n].log;
    forall q | i + k < q < |steps| && steps[q] == OnAppend(p, a) && p in run[q].nodes
               && run[q].nodes[p].currentTerm <= a.term
      ensures p in run[q + 1].nodes && run[i].nodes[n].log <= run[q + 1].nodes[p].log
    {
      WholeLogArrives(run, steps, q);
    }
  }

  /** A request from the first entry on is never refused by a node of that or a lower term. */
  lemma {:induction false} WholeLogArrives(run: seq<Net>, steps: seq<Step>, q: nat)
    requires IsRun(run, steps) && q < |steps| && steps[q].OnAppend? && steps[q].n in run[q].nodes
    requires steps[q].args.term >= run[q].nodes[steps[q].n].currentTerm && steps[q].args.prevIndex == 0
    ensures steps[q].n in run[q + 1].nodes && steps[q].args.entries <= run[q + 1].nodes[steps[q].n].log
    ensures AppendReply(steps[q].args, steps[q].args.term, true) in run[q + 1].sent
  {
    hide Inv;
    hide Grows;
    hide HandleAppend;
    hide NodeOk;
    hide HistoryOk;
    StepAt(run, steps, q);
    var n, a := steps[q].n, steps[q].args;
    hide IsRun;
    var hs := RunHistories(run, steps);
    MessageAt(run[q], hs[q], Append(a));
    NodeLog(run[q], hs[q], hs[q], n);
    NumberedAt(run, steps, q, n);
    AcceptedLog(run[q].ids, hs[q], n, run[q].nodes[n], a);
    assert a.entries == hs[q].reigns[a.term].log[..|a.entries|];
    var success := AppendReplied(run, steps, q);
  }

  // ---------- commitment ----------

  /** After a reply that accepts a request of its own term, a leader's indices for the peer are those of
      the last entry sent, and its commit index has reached every index of its term that more than half
      of the nodes hold; it never goes beyond such an index. */
  lemma {:induction false} MajorityCommits(run: seq<Net>, steps: seq<Step>, i: nat)
    requires IsRun(run, steps) && i < |steps| && steps[i].OnAppendReply? && steps[i].success
    requires steps[i].n in run[i].nodes && run[i].nodes[steps[i].n].role == Leader
    requires steps[i].term <= run[i].nodes[steps[i].n].currentTerm == steps[i].args.term
    ensures steps[i].n in run[i + 1].nodes
    ensures var n, a := steps[i].n, steps[i].args;
            var x, y, ids, top := run[i].nodes[n], run[i + 1].nodes[n], run[i].ids, a.prevIndex + |a.entries|;
            && At(y.matchIndex, a.to) == (if a.entries == [] then At(x.matchIndex, a.to) else top)
            && At(y.nextIndex, a.to) == (if a.entries == [] then At(x.nextIndex, a.to) else top + 1)
            && OnlyPeer(x.(commitIndex := y.commitIndex, apply := y.apply, proposals := y.proposals), y, a.to)
            && (forall m :: MayCommit(y, n, ids, m) ==> y.commitIndex >= m)
            && (y.commitIndex != x.commitIndex ==> y.commitIndex > x.commitIndex && MayCommit(y, n, ids, y.commitIndex))
            && (y.commitIndex > x.commitIndex ==>
                  forall e :: e in x.proposals.waiting && e.index <= y.commitIndex ==> e in y.proposals.answered)
  {
    hide IsRun;
    hide HandleAppendReply;
    hide OnlyPeer;
    hide MayCommit;
    StepAt(run, steps, i);
    var n, a := steps[i].n, steps[i].args;
    NumberedAt(run, steps, i, n);
    EntriesNumbered(run, steps, i);
    AcceptanceAnswer(run[i].nodes[n], n, run[i].ids, a, steps[i].term);
    CallsAnswer(run[i].nodes[n], n, run[i].ids, a, steps[i].term, true);
  }

  lemma {:induction false} EntriesNumbered(run: seq<Net>, steps: seq<Step>, i: nat)
    requires IsRun(run, steps) && i < |steps| && steps[i].OnAppendReply?
    ensures var a := steps[i].args; forall j :: 0 <= j < |a.entries| ==> a.entries[j].index == a.prevIndex + 1 + j
  {
    hide Inv;
    hide Grows;
    hide HandleAppendReply;
    StepAt(run, steps, i);
    hide IsRun;
    var hs := RunHistories(run, steps);
    var a := steps[i].args;
    MessageAt(run[i], hs[i], AppendReply(a, steps[i].term, steps[i].success));
    HistoryReigns(run[i], hs[i]);
    SentNumbered(run[i].ids, hs[i], a);
  }

  lemma {:induction false} SentNumbered(ids: set<NodeId>, h: History, a: AppendArgs)
    requires ReignsOk(h) && AppendArgsOk(ids, h, a)
    ensures forall j :: 0 <= j < |a.entries| ==> a.entries[j].index == a.prevIndex + 1 + j
  {
    hide Committed;
    assert Indexed(h.reigns[a.term].log) by { assert ReignLogOk(h, a.term); }
    hide ReignsOk;
    var lead := h.reigns[a.term].log;
    forall j | 0 <= j < |a.entries|
      ensures a.entries[j].index == a.prevIndex + 1 + j
    {
      assert a.entries[j] == lead[a.prevIndex + j];
    }
  }

  // ---------- elections ----------

  /** A timeout makes the node a candidate of the next term that has its own vote and asks for others with
      the index and term of its last entry. */
  lemma {:induction false} CandidacyBegins(run: seq<Net>, steps: seq<Step>, i: nat)
    requires IsRun(run, steps) && i < |steps| && steps[i].Timeout?
    ensures var n := steps[i].n;
            && n in run[i].nodes && n in run[i + 1].nodes
            && var x, y := run[i].nodes[n], run[i + 1].nodes[n];
               && y.role == Candidate && y.currentTerm == x.currentTerm + 1 && y.votedFor == Some(n)
               && y.log == x.log && y.currentTerm in y.tally && y.tally[y.currentTerm] == {n}
               && RequestVote(VoteArgs(y.currentTerm, n, |x.log|, TermAt(x.log, |x.log|))) in run[i + 1].sent
  {
    hide IsRun;
    StepAt(run, steps, i);
    NumberedAt(run, steps, i, steps[i].n);
  }

  /** A granted reply to one of its elections counts its sender. */
  lemma {:induction false} VoteCounts(run: seq<Net>, steps: seq<Step>, i: nat)
    requires IsRun(run, steps) && i < |steps| && steps[i].CountReply?
    ensures var n, t := steps[i].n, steps[i].vote.term;
            && n in run[i].nodes && n in run[i + 1].nodes
            && var x, y := run[i].nodes[n], run[i + 1].nodes[n];
               && y == x.(tally := y.tally)
               && (t in x.tally ==> y.tally == x.tally[t := x.tally[t] + {steps[i].from}])
  {
    hide IsRun;
    StepAt(run, steps, i);
  }

  /** A candidate becomes leader exactly if more than half of all nodes voted for it in its term; it then
      sends every peer nothing but the place of its last entry first. */
  lemma {:induction false} MajorityWins(run: seq<Net>, steps: seq<Step>, i: nat, n: NodeId, t: nat)
    requires IsRun(run, steps) && i < |run| && n in run[i].nodes
    ensures var x := run[i].nodes[n];
            Enabled(run[i], Win(n, t)) <==>
            x.role == Candidate && x.currentTerm == t && t in x.tally && 2 * |x.tally[t]| > |run[i].ids|
    ensures i < |steps| && steps[i] == Win(n, t) ==>
              && n in run[i + 1].nodes
              && var x, y := run[i].nodes[n], run[i + 1].nodes[n];
                 && y.role == Leader && y.leaderId == Some(n)
                 && y == x.(role := y.role, leaderId := y.leaderId, nextIndex := y.nextIndex, matchIndex :=
                     y.matchIndex)
                 && forall p :: p in run[i].ids && p != n ==>
                      At(y.nextIndex, p) == |x.log| + 1 && At(y.matchIndex, p) == 0
  {
    WellFormedAt(run, steps, i);
    NumberedAt(run, steps, i, n);
    if i < |steps| {
      StepAt(run, steps, i);
    }
  }

  lemma {:induction false} WellFormedAt(run: seq<Net>, steps: seq<Step>, i: nat)
    requires IsRun(run, steps) && i < |run|
    ensures WellFormed(run[i])
  {
    hide Inv;
    HistoryInv(run, steps, i);
    InvWellFormed(run[i], HistoryAt(run, steps, i));
  }

  lemma {:induction false} InvWellFormed(s: Net, h: History)
    requires Inv(s, h)
    ensures WellFormed(s)
  {
  }

  /** A restart keeps term, vote and log, and nothing else. */
  lemma {:induction false} RestartKeeps(run: seq<Net>, steps: seq<Step>, i: nat)
    requires IsRun(run, steps) && i < |steps| && steps[i].Restart?
    ensures var n := steps[i].n;
            && n in run[i].nodes && n in run[i + 1].nodes
            && var x, y := run[i].nodes[n], run[i + 1].nodes[n];
               && y.currentTerm == x.currentTerm && y.votedFor == x.votedFor && y.log == x.log && y.role == Follower
               && y.commitIndex == 0 && y.apply == ApplyState(false, Idle, 0, []) && y.proposals == Proposals([], [])
  {
    hide IsRun;
    StepAt(run, steps, i);
  }

  // ---------- what may happen ----------

  /** Nothing is excluded: at any moment of a run any node may time out or restart, any message ever sent
      may be delivered to its addressee, again or for the first time, and a leader may propose and send. */
  lemma {:induction false} NothingIsExcluded(run: seq<Net>, steps: seq<Step>, i: nat, n: NodeId)
    requires IsRun(run, steps) && i < |run| && n in run[i].ids
    ensures var s := run[i];
            && n in s.nodes && Enabled(s, Timeout(n)) && Enabled(s, Restart(n))
            && (forall v :: RequestVote(v) in s.sent && v.candidate != n ==> Enabled(s, OnVoteRequest(n, v)))
            && (forall v, from, term, granted :: VoteReply(v, from, term, granted) in s.sent && v.candidate == n ==>
                  Enabled(s, OnVoteReply(n, v, from, term, granted))
                  && (granted ==> Enabled(s, CountReply(n, v, from, term))))
            && (forall a :: Append(a) in s.sent && a.to == n ==> Enabled(s, OnAppend(n, a)))
            && (forall a, term, success :: AppendReply(a, term, success) in s.sent && a.leader == n ==>
                  Enabled(s, OnAppendReply(n, a, term, success)))
            && (s.nodes[n].role == Leader ==>
                  && (forall cmdType, data :: Enabled(s, Propose(n, cmdType, data)))
                  && (forall p :: p in s.ids && p != n ==> Enabled(s, Replicate(n, p))))
  {
    WellFormedAt(run, steps, i);
  }
}
