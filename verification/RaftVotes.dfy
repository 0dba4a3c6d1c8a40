/** What becomes of "one vote a term": exactly when a node's vote changes within a term, what two
    votes in one term imply, and a run with two. */
module RaftVotes {
  import opened Prelude
  import opened RaftLog
  import opened RaftNode
  import opened RaftNetwork
  import opened RaftHistory
  import opened RaftElections
  import opened RaftSafety
  import P = RaftLostProposal

  // ---------- terms ----------

  lemma {:induction false} TermStep(s: Net, step: Step)
    requires Enabled(s, step)
    ensures NodeAfter(s, step).currentTerm >= s.nodes[step.n].currentTerm
  {
    var x := s.nodes[step.n];
    match step
    case OnAppend(_, args) => AppendTerm(x, args);
    case OnAppendReply(n, args, term, success) => ReplyTerm(x, n, s.ids, args, term, success);
    case _ =>
  }

  lemma {:induction false} AppendTerm(x: NodeState, a: AppendArgs)
    ensures HandleAppend(x, a).0.currentTerm == if a.term < x.currentTerm then x.currentTerm else a.term
    ensures HandleAppend(x, a).0.votedFor ==
            if a.term < x.currentTerm || (a.term == x.currentTerm && x.role == Follower) then x.votedFor else None
  {
    hide AppendLoop;
    hide EntryAt;
    hide TruncatedFrom;
    hide LastIndex;
  }

  lemma {:induction false} ReplyTerm(x: NodeState, self: NodeId, ids: set<NodeId>, a: AppendArgs, term: nat,
                                     success: bool)
    ensures var y := HandleAppendReply(x, self, ids, a, term, success);
            && y.currentTerm == (if term > x.currentTerm then term else x.currentTerm)
            && (term <= x.currentTerm ==> y.votedFor == x.votedFor)
  {
    hide Advance;
    hide LastIndex;
    hide Resolved;
  }

  /** A node's term never falls, over restarts too. */
  lemma {:induction false} TermsRise(run: seq<Net>, steps: seq<Step>, i: nat, j: nat, n: NodeId)
    requires IsRun(run, steps) && i <= j < |run| && n in run[i].nodes
    ensures n in run[j].nodes && run[i].nodes[n].currentTerm <= run[j].nodes[n].currentTerm
    decreases j
  {
    hide NodeAfter;
    hide MessagesOf;
    if i < j {
      TermsRise(run, steps, i, j - 1, n);
      assert Enabled(run[j - 1], steps[j - 1]) && run[j] == Do(run[j - 1], steps[j - 1]);
      hide Enabled;
      TermStep(run[j - 1], steps[j - 1]);
    }
  }

  // ---------- when a vote changes ----------

  /** A candidate hears from the leader of its own term. */
  ghost predicate StepsDown(s: Net, step: Step, n: NodeId)
  {
    && step.OnAppend? && step.n == n && n in s.nodes && s.nodes[n].role == Candidate
    && step.args.term == s.nodes[n].currentTerm
  }

  /** A leader gets no append request of its own term. */
  lemma {:induction false} LeaderHearsNone(s: Net, h: History, n: NodeId, args: AppendArgs)
    requires Inv(s, h) && Append(args) in s.sent && args.to == n && n in s.nodes && args.term == s.nodes[n].currentTerm
    ensures s.nodes[n].role != Leader
  {
    hide HistoryOk;
    assert MessageOk(s.ids, h, Append(args));
    assert NodeOk(s.ids, h, n, s.nodes[n]);
  }

  lemma {:induction false} VoteStep(s: Net, h: History, step: Step, n: NodeId, c: NodeId)
    requires Inv(s, h) && Enabled(s, step) && n in s.nodes && s.nodes[n].votedFor == Some(c)
    requires Do(s, step).nodes[n].currentTerm == s.nodes[n].currentTerm
    ensures Do(s, step).nodes[n].votedFor != Some(c) <==> StepsDown(s, step, n)
  {
    hide Inv;
    var x := s.nodes[n];
    if step.n == n {
      match step
      case OnAppend(_, args) =>
        AppendTerm(x, args);
        if args.term == x.currentTerm {
          LeaderHearsNone(s, h, n, args);
        }
      case OnAppendReply(_, args, term, success) => ReplyTerm(x, n, s.ids, args, term, success);
      case _ =>
    }
  }

  lemma {:induction false} VoteAtStep(run: seq<Net>, steps: seq<Step>, q: nat, n: NodeId, c: NodeId)
    requires IsRun(run, steps) && q < |steps| && n in run[q].nodes && n in run[q + 1].nodes
    requires run[q].nodes[n].votedFor == Some(c) && run[q + 1].nodes[n].currentTerm == run[q].nodes[n].currentTerm
    ensures run[q + 1].nodes[n].votedFor != Some(c) <==> StepsDown(run[q], steps[q], n)
  {
    hide Inv;
    hide Enabled;
    hide Do;
    hide StepsDown;
    HistoryInv(run, steps, q);
    VoteStep(run[q], HistoryAt(run, steps, q), steps[q], n, c);
  }

  lemma {:induction false} SteppedDown(run: seq<Net>, steps: seq<Step>, q: nat, n: NodeId)
    requires IsRun(run, steps) && q < |steps| && StepsDown(run[q], steps[q], n)
    ensures n in run[q + 1].nodes && run[q + 1].nodes[n].votedFor.None?
  {
    AppendTerm(run[q].nodes[n], steps[q].args);
  }

  /** Within one term a vote is left behind exactly if the node, as a candidate, hears from the
      term's leader in between. */
  lemma {:induction false} VoteLeftExactly(run: seq<Net>, steps: seq<Step>, i: nat, j: nat, n: NodeId, c: NodeId)
    requires IsRun(run, steps) && i <= j < |run| && n in run[i].nodes && n in run[j].nodes
    requires run[i].nodes[n].votedFor == Some(c) && run[i].nodes[n].currentTerm == run[j].nodes[n].currentTerm
    ensures (exists q :: i <= q <= j && n in run[q].nodes && run[q].nodes[n].votedFor != Some(c)) <==>
            (exists q :: i <= q < j && StepsDown(run[q], steps[q], n))
    decreases j
  {
    hide IsRun;
    hide StepsDown;
    RunLength(run, steps);
    if i < j {
      TermsRise(run, steps, i, j - 1, n);
      TermsRise(run, steps, j - 1, j, n);
      VoteLeftExactly(run, steps, i, j - 1, n, c);
      if run[j - 1].nodes[n].votedFor == Some(c) {
        VoteAtStep(run, steps, j - 1, n, c);
      } else {
        assert i <= j - 1 <= j && n in run[j - 1].nodes;
      }
      if StepsDown(run[j - 1], steps[j - 1], n) {
        SteppedDown(run, steps, j - 1, n);
      }
    }
  }

  lemma {:induction false} RunLength(run: seq<Net>, steps: seq<Step>)
    requires IsRun(run, steps)
    ensures |run| == |steps| + 1
  {
    hide Enabled;
    hide Do;
  }

  // ---------- two votes in one term ----------

  /** The step by which n votes for c in term t. */
  ghost predicate CastsVote(s: Net, step: Step, n: NodeId, t: nat, c: NodeId)
  {
    && n in s.nodes && step.n == n
    && match step
       case Timeout(_) => t == s.nodes[n].currentTerm + 1 && c == n
       case OnVoteRequest(_, vote) => t == vote.term && c == vote.candidate && HandleVoteRequest(s.nodes[n], vote).2
       case _ => false
  }

  lemma {:induction false} CastIsBallot(s: Net, h: History, step: Step, n: NodeId, t: nat, c: NodeId)
    requires Enabled(s, step) && CastsVote(s, step, n, t, c)
    ensures HasBallot(After(s, h, step), n, t, c) && After(s, h, step).reigns == h.reigns
  {
    hide HandleVoteRequest;
    var h' := After(s, h, step);
    if step.Timeout? {
      assert Ballot(n, t, n, s.nodes[n].log, t !in h.reigns) in h'.ballots;
    } else {
      assert Ballot(n, t, c, s.nodes[n].log, t !in h.reigns) in h'.ballots;
    }
  }

  lemma {:induction false} BallotGrows(h: History, h': History, v: NodeId, t: nat, c: NodeId)
    requires Grows(h, h') && HasBallot(h, v, t, c)
    ensures HasBallot(h', v, t, c)
  {
    var b :| b in h.ballots && b.voter == v && b.term == t && b.candidate == c;
    assert b in h'.ballots;
  }

  /** A reign in the history was won by a step of the run. */
  lemma {:induction false} ReignWon(run: seq<Net>, steps: seq<Step>, i: nat, t: nat) returns (r: nat, m: NodeId)
    requires IsRun(run, steps) && i < |run| && t in HistoryAt(run, steps, i).reigns
    ensures 0 < r <= i && m in run[r].nodes && run[r].nodes[m].role == Leader && run[r].nodes[m].currentTerm == t
    decreases i
  {
    var step := steps[i - 1];
    assert Enabled(run[i - 1], step) && run[i] == Do(run[i - 1], step);
    hide HandleVoteRequest;
    hide HandleAppend;
    hide HandleAppendReply;
    if t in HistoryAt(run, steps, i - 1).reigns {
      r, m := ReignWon(run, steps, i - 1, t);
    } else {
      r, m := i, step.n;
    }
  }

  /** Two different votes of a node in one term: by the second one the term had a leader. */
  lemma {:induction false} SecondVoteIsLate(run: seq<Net>, steps: seq<Step>, p: nat, q: nat, n: NodeId, t: nat,
                                            c: NodeId, d: NodeId)
    returns (r: nat, m: NodeId)
    requires IsRun(run, steps) && p < q < |steps| && c != d
    requires CastsVote(run[p], steps[p], n, t, c) && CastsVote(run[q], steps[q], n, t, d)
    ensures r <= q && m in run[r].nodes && run[r].nodes[m].role == Leader && run[r].nodes[m].currentTerm == t
  {
    hide Inv;
    hide Grows;
    hide CastsVote;
    hide After;
    hide Enabled;
    hide Do;
    hide HasBallot;
    assert Enabled(run[p], steps[p]) && Enabled(run[q], steps[q]);
    var h := HistoryAt(run, steps, q);
    var h' := HistoryAt(run, steps, q + 1);
    assert h' == After(run[q], h, steps[q]);
    CastIsBallot(run[p], HistoryAt(run, steps, p), steps[p], n, t, c);
    CastIsBallot(run[q], h, steps[q], n, t, d);
    HistoryGrows(run, steps, p + 1, q + 1);
    assert HistoryAt(run, steps, p + 1) == After(run[p], HistoryAt(run, steps, p), steps[p]);
    BallotGrows(HistoryAt(run, steps, p + 1), h', n, t, c);
    HistoryInv(run, steps, q + 1);
    Ballots(run[q + 1], h');
    assert t in h.reigns by {
      if t !in h'.reigns {
        TwoBallots(h', n, t, c, d);
      }
    }
    r, m := ReignWon(run, steps, q, t);
  }

  lemma {:induction false} Ballots(s: Net, h: History)
    requires Inv(s, h)
    ensures BallotsOk(h)
  {
  }

  lemma {:induction false} TwoBallots(h: History, n: NodeId, t: nat, c: NodeId, d: NodeId)
    requires BallotsOk(h) && t !in h.reigns && HasBallot(h, n, t, c) && HasBallot(h, n, t, d)
    ensures c == d
  {
    OneVote(h, c, n, t);
  }

  // ---------- a run with two votes ----------

  const Running := StartElection(FreshNode, 1)
  const Deposed := Running.(role := Follower, votedFor := None, leaderId := Some(2))
  const Late := VoteArgs(1, 2, 0, 0)

  /** The first heartbeat of node 2, and what it does to node 1. */
  lemma {:induction false} Heartbeat(leader: NodeState, args: AppendArgs)
    requires leader == P.Elected(FreshNode, 2, 3) && args == AppendRequest(leader, 2, 1)
    ensures leader.role == Leader && args.to == 1 && args.leader == 2
    ensures HandleAppend(Running, args) == (Deposed, 1, true)
  {
    P.TwoVotes(FreshNode, 2, 3);
    P.MapsOfTwo();
    assert leader.log == [] && leader.currentTerm == 1 && leader.commitIndex == 0;
    assert At(leader.nextIndex, 1) == 1;
    assert args == AppendArgs(1, 2, 1, 0, 0, [], 0);
  }

  lemma {:induction false} VotesAgain()
    ensures HandleVoteRequest(Deposed, Late) == (Deposed.(votedFor := Some(2)), 1, true)
    ensures Late == VoteRequest(StartElection(FreshNode, 2), 2)
  {
  }

  /** Nodes 1 and 2 become candidates of term 1, node 3 elects 2, whose heartbeat and then its late
      vote request reach 1: node 1 has voted for itself and for 2 in one term. */
  lemma {:induction false} TwoVotesInOneTerm() returns (run: seq<Net>, steps: seq<Step>)
    ensures IsRun(run, steps) && |steps| == 8 && |run| == 9
    ensures CastsVote(run[0], steps[0], 1, 1, 1) && CastsVote(run[7], steps[7], 1, 1, 2)
  {
    hide P.Reached;
    hide Enabled;
    hide Do;
    hide HandleAppend;
    hide HandleVoteRequest;
    hide P.Elected;
    hide P.Voted;
    hide AppendRequest;
    var s0 := P.Start();
    P.ATimeout(s0, 1);
    var s1 := P.Moved(s0, 1, Running, {RequestVote(VoteRequest(Running, 1))});
    var run1, steps1 := P.Then([s0], [], s0, Timeout(1), s1);
    Willing();
    var run2, steps2, s2 := P.Ballot(run1, steps1, s1, 2, 3);
    P.TwoVotes(FreshNode, 2, 3);
    P.AWin(s2, 2, 1);
    var leader := P.Elected(FreshNode, 2, 3);
    WinnerIs();
    var s3 := P.Moved(s2, 2, leader, {});
    var args := AppendRequest(leader, 2, 1);
    Heartbeat(leader, args);
    P.ARequest(s3, 2, 1, args);
    var s4 := P.Moved(s3, 2, leader, {Append(args)});
    P.AnAppend(s4, 1, args, Deposed, 1);
    var s5 := P.Moved(s4, 1, Deposed, {AppendReply(args, 1, true)});
    VotesAgain();
    P.AVote(s5, 1, Late, Deposed.(votedFor := Some(2)), 1);
    var s6 := P.Moved(s5, 1, Deposed.(votedFor := Some(2)), {VoteReply(Late, 1, 1, true)});
    var run3, steps3 := P.Then(run2, steps2, s2, Win(2, 1), s3);
    var run4, steps4 := P.Then(run3, steps3, s3, Replicate(2, 1), s4);
    var run5, steps5 := P.Then(run4, steps4, s4, OnAppend(1, args), s5);
    P.LastState(run5, steps5, s5);
    run, steps := P.Then(run5, steps5, s5, OnVoteRequest(1, Late), s6);
    Ran(run, steps, s6);
  }

  lemma {:induction false} Willing()
    ensures P.WillVote(FreshNode, FreshNode)
  {
  }

  lemma {:induction false} WinnerIs()
    ensures P.Elected(FreshNode, 2, 3) == BecomeLeader(CountVote(StartElection(FreshNode, 2), 1, 3), 2, P.IDS)
  {
  }

  lemma {:induction false} Ran(run: seq<Net>, steps: seq<Step>, s: Net)
    requires P.Reached(run, steps, s)
    ensures IsRun(run, steps)
  {
  }
}
