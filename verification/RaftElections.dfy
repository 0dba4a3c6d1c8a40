/** Elections: starting one, voting, counting and winning keep the invariant. */
module RaftElections {
  import opened Prelude
  import opened RaftLog
  import opened RaftNode
  import opened RaftNetwork
  import opened RaftHistory
  import opened RaftLogMatching
  import opened RaftCompleteness
  import opened RaftGrowth
  import opened RaftSteps

  // ---------- counting a vote ----------

  lemma {:induction false} StepCount(s: Net, h: History, step: Step)
    requires Inv(s, h) && Enabled(s, step) && step.CountReply?
    ensures Inv(Do(s, step), After(s, h, step)) && Grows(h, After(s, h, step))
  {
    var n := step.n;
    var x := s.nodes[n];
    assert NodeOk(s.ids, h, n, x);
    assert MessageOk(s.ids, h, VoteReply(step.vote, step.from, step.term, true));
    CountNode(s.ids, h, n, x, step.vote.term, step.from);
    AssembleSame(s, h, n, CountVote(x, step.vote.term, step.from), {});
  }

  lemma {:induction false} CountNode(ids: set<NodeId>, h: History, n: NodeId, x: NodeState, t: nat, from: NodeId)
    requires NodeOk(ids, h, n, x) && from in ids && HasBallot(h, from, t, n)
    ensures NodeOk(ids, h, n, CountVote(x, t, from))
  {
    hide ApplyOk;
    var y := CountVote(x, t, from);
    ApplyFields(x, y);
    SameVoter(h, n, x, y);
    AckerLater(h, n, x, y);
    SameLeader(ids, h, n, x, y);
  }

  lemma {:induction false} SameVoter(h: History, n: NodeId, x: NodeState, y: NodeState)
    requires VoterOk(h, n, x)
    requires y.currentTerm == x.currentTerm && y.votedFor == x.votedFor && (y.role == x.role || y.role == Follower)
    ensures VoterOk(h, n, y)
  {
    forall t | t in h.reigns && n in h.reigns[t].quorum
      ensures QuorumMemberOk(h, n, y, t)
    {
      assert QuorumMemberOk(h, n, x, t);
    }
  }

  lemma {:induction false} SameLeader(ids: set<NodeId>, h: History, n: NodeId, x: NodeState, y: NodeState)
    requires LeaderOk(ids, h, n, x)
    requires y.role == Leader ==> x.role == Leader
    requires y.currentTerm == x.currentTerm && y.log == x.log
    requires y.nextIndex == x.nextIndex && y.matchIndex == x.matchIndex
    ensures LeaderOk(ids, h, n, y)
  {
    forall p | p in ids && p != n && y.role == Leader
      ensures PeerOk(h, y, p)
    {
      assert PeerOk(h, x, p);
    }
  }

  // ---------- a new ballot ----------

  /** The history after node n votes. */
  ghost function Voted(h: History, b: Ballot): (r: History)
  {
    h.(ballots := h.ballots + {b})
  }

  lemma {:induction false} VotedGrows(h: History, b: Ballot)
    ensures Grows(h, Voted(h, b))
    ensures forall v :: v != b.voter ==> NotBy(h, Voted(h, b), v)
  {
  }

  /** A vote cast with the voter's own log, for a candidate that is up to date, by a node that
      has not voted otherwise in a term without a leader. */
  ghost predicate MayCast(h: History, b: Ballot)
  {
    && BallotOk(h, b) && b.early == (b.term !in h.reigns)
    && (forall a :: a in h.acks && a.voter == b.voter && a.term < b.term && b.early ==>
          AckOk(h, a) && Kept(h, a, b.log, b.term - 1))
    && (forall c :: c in h.ballots && c.voter == b.voter && c.term == b.term && b.early ==> c.candidate == b.candidate)
  }

  lemma {:induction false} VotedHistory(ids: set<NodeId>, h: History, b: Ballot)
    requires HistoryOk(ids, h) && MayCast(h, b)
    ensures HistoryOk(ids, Voted(h, b))
  {
    hide ReignsOk;
    hide ElectionsOk;
    hide CampaignsOk;
    hide CommitsOk;
    hide Grows;
    var h' := Voted(h, b);
    VotedGrows(h, b);
    SameReigns(h, h');
    ElectionsGrow(ids, h, h');
    CampaignsGrow(h, h');
    VotedBallots(h, b);
    VotedAcks(h, b);
    CommitsGrow(ids, h, h');
  }

  lemma {:induction false} VotedBallots(h: History, b: Ballot)
    requires BallotsOk(h) && MayCast(h, b)
    ensures BallotsOk(Voted(h, b))
  {
    hide Genuine;
    var h' := Voted(h, b);
    VotedGrows(h, b);
    GenuineGrows(h, h', b.log);
    assert BallotOk(h', b);
    BallotsGrow(h, h');
  }

  lemma {:induction false} VotedAcks(h: History, b: Ballot)
    requires AcksOk(h) && MayCast(h, b)
    ensures AcksOk(Voted(h, b))
  {
    var h' := Voted(h, b);
    VotedGrows(h, b);
    forall a | a in h.acks && a.voter == b.voter && a.term < b.term && b.early
      ensures AckOk(h', a) && Kept(h', a, b.log, b.term - 1)
    {
      KeptGrows(h, h', a, b.log, b.log, b.term - 1, b.term - 1);
    }
    AcksGrow(h, h');
  }

  // ---------- starting an election ----------

  ghost function Campaigned(h: History, n: NodeId, t: nat, log: Entries): (r: History)
  {
    h.(campaigns := h.campaigns[(n, t) := log])
  }

  /** Opening a campaign for a term the node never campaigned for. */
  lemma {:induction false} CampaignHistory(ids: set<NodeId>, h: History, n: NodeId, t: nat, log: Entries)
    requires HistoryOk(ids, h) && (n, t) !in h.campaigns && Genuine(h, log) && LastTerm(log) < t
    ensures HistoryOk(ids, Campaigned(h, n, t, log)) && Grows(h, Campaigned(h, n, t, log))
  {
    hide ReignsOk;
    hide ElectionsOk;
    hide CampaignsOk;
    hide BallotsOk;
    hide AcksOk;
    hide CommitsOk;
    var h' := Campaigned(h, n, t, log);
    assert Grows(h, h');
    SameReigns(h, h');
    ElectionsGrow(ids, h, h');
    GenuineGrows(h, h', log);
    CampaignsGrow(h, h');
    BallotsGrow(h, h');
    AcksGrow(h, h');
    CommitsGrow(ids, h, h');
  }

  lemma {:induction false} StepTimeout(s: Net, h: History, step: Step)
    requires Inv(s, h) && Enabled(s, step) && step.Timeout?
    ensures Inv(Do(s, step), After(s, h, step)) && Grows(h, After(s, h, step))
  {
    hide MessageOk;
    hide NodeOk;
    hide HistoryOk;
    var n := step.n;
    var x := s.nodes[n];
    var t := x.currentTerm + 1;
    var y := StartElection(x, n);
    var b := Ballot(n, t, n, x.log, t !in h.reigns);
    var h' := After(s, h, step);
    assert h' == Voted(Campaigned(h, n, t, x.log), b);
    TimeoutHistory(s.ids, h, n, x);
    TimeoutNode(s.ids, h, n, x);
    TimeoutQuiet(h, n, x);
    var m := RequestVote(VoteRequest(y, n));
    TimeoutMessage(s.ids, h', n, y);
    Assemble(s, h, n, y, {m}, h');
  }

  lemma {:induction false} TimeoutMessage(ids: set<NodeId>, h: History, n: NodeId, y: NodeState)
    requires n in ids && (n, y.currentTerm) in h.campaigns && h.campaigns[(n, y.currentTerm)] == y.log
    ensures MessageOk(ids, h, RequestVote(VoteRequest(y, n)))
  {
  }

  ghost function TimedOut(h: History, n: NodeId, x: NodeState): (r: History)
  {
    var t := x.currentTerm + 1;
    Voted(Campaigned(h, n, t, x.log), Ballot(n, t, n, x.log, t !in h.reigns))
  }

  lemma {:induction false} TimeoutQuiet(h: History, n: NodeId, x: NodeState)
    ensures forall v :: v != n ==> NotBy(h, TimedOut(h, n, x), v)
  {
  }

  lemma {:induction false} TimeoutHistory(ids: set<NodeId>, h: History, n: NodeId, x: NodeState)
    requires HistoryOk(ids, h) && NodeOk(ids, h, n, x)
    ensures HistoryOk(ids, TimedOut(h, n, x)) && Grows(h, TimedOut(h, n, x))
  {
    hide HistoryOk;
    var t := x.currentTerm + 1;
    var g := Campaigned(h, n, t, x.log);
    var b := Ballot(n, t, n, x.log, t !in h.reigns);
    CampaignHistory(ids, h, n, t, x.log);
    GenuineGrows(h, g, x.log);
    forall a | a in g.acks && a.voter == n && a.term < t
      ensures AckOk(g, a) && Kept(g, a, x.log, t - 1)
    {
      KeptGrows(h, g, a, x.log, x.log, x.currentTerm, x.currentTerm);
    }
    assert MayCast(g, b);
    VotedHistory(ids, g, b);
  }

  lemma {:induction false} TimeoutNode(ids: set<NodeId>, h: History, n: NodeId, x: NodeState)
    requires HistoryOk(ids, h) && NodeOk(ids, h, n, x) && n in ids
    requires Grows(h, TimedOut(h, n, x))
    ensures NodeOk(ids, TimedOut(h, n, x), n, StartElection(x, n))
  {
    hide ApplyOk;
    hide Committed;
    hide RoleOk;
    hide TallyOk;
    hide VoterOk;
    hide AckerOk;
    hide Genuine;
    hide ReignsOk;
    hide CampaignsOk;
    hide BallotsOk;
    hide AcksOk;
    hide CommitsOk;
    var t := x.currentTerm + 1;
    var y := StartElection(x, n);
    var h' := TimedOut(h, n, x);
    GenuineGrows(h, h', x.log);
    ApplyFields(x, y);
    CommittedGrows(h, h', x.log[..At(h.known, n)], x.currentTerm, t);
    TimeoutRole(ids, h, n, x);
    TimeoutVoter(h, n, x);
    AckerMoves(h, h', n, x, y);
  }

  /** The acks of a node that made none, when its log and term only grow. */
  lemma {:induction false} AckerMoves(h: History, h': History, n: NodeId, x: NodeState, y: NodeState)
    requires Grows(h, h') && AckerOk(h, n, x) && x.log <= y.log && x.currentTerm <= y.currentTerm
    requires forall a :: a in h'.acks && a.voter == n ==> a in h.acks
    ensures AckerOk(h', n, y)
  {
    forall a | a in h'.acks && a.voter == n
      ensures a.term <= y.currentTerm && AckOk(h', a) && Kept(h', a, y.log, y.currentTerm)
    {
      KeptGrows(h, h', a, x.log, y.log, x.currentTerm, y.currentTerm);
    }
  }

  lemma {:induction false} TimeoutRole(ids: set<NodeId>, h: History, n: NodeId, x: NodeState)
    requires ElectionsOk(ids, h) && RoleOk(h, n, x) && TallyOk(ids, h, n, x) && n in ids
    requires Grows(h, TimedOut(h, n, x))
    ensures RoleOk(TimedOut(h, n, x), n, StartElection(x, n))
    ensures TallyOk(ids, TimedOut(h, n, x), n, StartElection(x, n))
  {
    var t := x.currentTerm + 1;
    var y := StartElection(x, n);
    var h' := TimedOut(h, n, x);
    if t in h.reigns {
      assert ElectionOk(ids, h, t);
    }
    assert Ballot(n, t, n, x.log, t !in h.reigns) in h'.ballots;
    assert HasBallot(h', n, t, n);
    forall u, v | u in y.tally && v in y.tally[u]
      ensures v in ids && HasBallot(h', v, u, n)
    {
      if u != t {
        BallotGrows(h, h', v, u, n);
      }
    }
  }

  lemma {:induction false} TimeoutVoter(h: History, n: NodeId, x: NodeState)
    requires VoterOk(h, n, x)
    ensures VoterOk(TimedOut(h, n, x), n, StartElection(x, n))
  {
    var y := StartElection(x, n);
    var h' := TimedOut(h, n, x);
    forall t | t in h'.reigns && n in h'.reigns[t].quorum
      ensures QuorumMemberOk(h', n, y, t)
    {
      assert QuorumMemberOk(h, n, x, t);
    }
  }

  // ---------- granting a vote ----------

  lemma {:induction false} StepVoteRequest(s: Net, h: History, step: Step)
    requires Inv(s, h) && Enabled(s, step) && step.OnVoteRequest?
    ensures Inv(Do(s, step), After(s, h, step)) && Grows(h, After(s, h, step))
  {
    hide NodeOk;
    hide HistoryOk;
    var n := step.n;
    var x := s.nodes[n];
    var vote := step.vote;
    assert NodeOk(s.ids, h, n, x);
    assert MessageOk(s.ids, h, RequestVote(vote));
    var (z, term, granted) := HandleVoteRequest(x, vote);
    if vote.term < x.currentTerm {
      AssembleSame(s, h, n, z, {VoteReply(vote, n, term, granted)});
    } else {
      var y := if vote.term > x.currentTerm then BecomeFollower(x, vote.term, None) else x;
      if vote.term > x.currentTerm {
        StepDown(s.ids, h, n, x, vote.term, None);
      }
      assert NodeOk(s.ids, h, n, y);
      if granted {
        GrantStep(s, h, n, y, vote, term);
      } else {
        AssembleSame(s, h, n, y, {VoteReply(vote, n, term, granted)});
      }
    }
  }

  lemma {:induction false} GrantStep(s: Net, h: History, n: NodeId, y: NodeState, vote: VoteArgs, term: nat)
    requires Inv(s, h) && n in s.ids && NodeOk(s.ids, h, n, y) && VoteArgsOk(s.ids, h, vote)
    requires vote.term == y.currentTerm && vote.candidate != n
    requires y.votedFor.None? || y.votedFor.value == vote.candidate
    requires UpToDate(vote.lastTerm, vote.lastIndex, y.log)
    ensures var b := Ballot(n, vote.term, vote.candidate, y.log, vote.term !in h.reigns);
            var z := y.(votedFor := Some(vote.candidate));
            && Inv(s.(nodes := s.nodes[n := z], sent := s.sent + {VoteReply(vote, n, term, true)}), Voted(h, b))
            && Grows(h, Voted(h, b))
  {
    hide NodeOk;
    hide HistoryOk;
    var b := Ballot(n, vote.term, vote.candidate, y.log, vote.term !in h.reigns);
    var z := y.(votedFor := Some(vote.candidate));
    var h' := Voted(h, b);
    GrantAllowed(s.ids, h, n, y, vote);
    VotedHistory(s.ids, h, b);
    VotedGrows(h, b);
    GrantNode(s.ids, h, n, y, b);
    assert b in h'.ballots;
    assert HasBallot(h', n, vote.term, vote.candidate);
    Assemble(s, h, n, z, {VoteReply(vote, n, term, true)}, h');
  }

  lemma {:induction false} GrantAllowed(ids: set<NodeId>, h: History, n: NodeId, y: NodeState, vote: VoteArgs)
    requires NodeOk(ids, h, n, y) && VoteArgsOk(ids, h, vote)
    requires vote.term == y.currentTerm
    requires y.votedFor.None? || y.votedFor.value == vote.candidate
    requires UpToDate(vote.lastTerm, vote.lastIndex, y.log)
    ensures MayCast(h, Ballot(n, vote.term, vote.candidate, y.log, vote.term !in h.reigns))
  {
    hide ApplyOk;
    hide Committed;
    var b := Ballot(n, vote.term, vote.candidate, y.log, vote.term !in h.reigns);
    forall a | a in h.acks && a.voter == n && a.term < b.term && b.early
      ensures AckOk(h, a) && Kept(h, a, b.log, b.term - 1)
    {
      assert Kept(h, a, y.log, y.currentTerm);
      if LostBy(h, a, y.currentTerm) {
        var u :| u in h.reigns && a.term < u <= y.currentTerm && !(Acked(h, a) <= h.reigns[u].start);
        assert u <= b.term - 1;
        assert LostBy(h, a, b.term - 1);
      }
    }
  }

  lemma {:induction false} GrantNode(ids: set<NodeId>, h: History, n: NodeId, y: NodeState, b: Ballot)
    requires NodeOk(ids, h, n, y) && b.voter == n && b.term == y.currentTerm && b.candidate != n
    requires y.votedFor.None? || y.votedFor.value == b.candidate
    requires Grows(h, Voted(h, b))
    ensures NodeOk(ids, Voted(h, b), n, y.(votedFor := Some(b.candidate)))
  {
    hide ApplyOk;
    hide Committed;
    hide AckerOk;
    hide PeerOk;
    hide HasBallot;
    hide Grows;
    var z := y.(votedFor := Some(b.candidate));
    var h' := Voted(h, b);
    GenuineGrows(h, h', y.log);
    ApplyFields(y, z);
    CommittedGrows(h, h', y.log[..At(h.known, n)], y.currentTerm, y.currentTerm);
    TallyGrows(ids, h, h', n, y);
    GrantVoter(h, n, y, b);
    AckerMoves(h, h', n, y, z);
    LeaderGrows(ids, h, h', n, y);
    SameLeader(ids, h', n, y, z);
  }

  lemma {:induction false} GrantVoter(h: History, n: NodeId, y: NodeState, b: Ballot)
    requires VoterOk(h, n, y) && b.voter == n && b.term == y.currentTerm
    requires y.votedFor.None? || y.votedFor.value == b.candidate
    ensures VoterOk(Voted(h, b), n, y.(votedFor := Some(b.candidate)))
  {
    var z := y.(votedFor := Some(b.candidate));
    var h' := Voted(h, b);
    forall t | t in h'.reigns && n in h'.reigns[t].quorum
      ensures QuorumMemberOk(h', n, z, t)
    {
      assert QuorumMemberOk(h, n, y, t);
    }
  }

  // ---------- winning ----------

  /** Election Safety, at the moment of a second victory: there is none. */
  lemma {:induction false} NoSecondWinner(s: Net, h: History, n: NodeId)
    requires Inv(s, h) && n in s.ids
    requires var x := s.nodes[n];
             && x.role == Candidate && x.currentTerm in x.tally && |x.tally[x.currentTerm]| >= Majority(|s.ids|)
    ensures s.nodes[n].currentTerm !in h.reigns
    ensures IsQuorum(s.ids, s.nodes[n].tally[s.nodes[n].currentTerm])
  {
    hide MessageOk;
    hide HistoryOk;
    hide LogOk;
    hide AckerOk;
    hide CommitOk;
    hide LeaderOk;
    hide ApplyOk;
    hide VoterOk;
    var x := s.nodes[n];
    var t := x.currentTerm;
    assert NodeOk(s.ids, h, n, x);
    var q := x.tally[t];
    assert q <= s.ids;
    if t in h.reigns {
      ElectionAt(s.ids, h, t);
      var v := QuorumsMeet(s.ids, q, h.reigns[t].quorum);
      assert NodeOk(s.ids, h, v, s.nodes[v]);
      MemberVote(h, v, s.nodes[v], t, n);
      assert false;
    }
  }

  /** A member of the winning quorum voted for the winner only. */
  lemma {:induction false} MemberVote(h: History, v: NodeId, y: NodeState, t: nat, n: NodeId)
    requires VoterOk(h, v, y) && t in h.reigns && v in h.reigns[t].quorum && HasBallot(h, v, t, n)
    ensures h.reigns[t].leader == n
  {
    assert QuorumMemberOk(h, v, y, t);
  }

  lemma {:induction false} ElectionAt(ids: set<NodeId>, h: History, t: nat)
    requires HistoryOk(ids, h) && t in h.reigns
    ensures ElectionOk(ids, h, t)
  {
  }

  ghost function Crowned(h: History, n: NodeId, t: nat, q: set<NodeId>, log: Entries): (r: History)
  {
    h.(reigns := h.reigns[t := Reign(n, q, log, log)])
  }

  lemma {:induction false} StepWin(s: Net, h: History, step: Step)
    requires Inv(s, h) && Enabled(s, step) && step.Win?
    ensures Inv(Do(s, step), After(s, h, step)) && Grows(h, After(s, h, step))
  {
    hide MessageOk;
    hide NodeOk;
    hide HistoryOk;
    hide QuorumMemberOk;
    var n := step.n;
    var x := s.nodes[n];
    var t := step.electionTerm;
    var q := x.tally[t];
    var h' := Crowned(h, n, t, q, x.log);
    NoSecondWinner(s, h, n);
    assert NodeOk(s.ids, h, n, x);
    CrownedGrows(h, n, t, q, x.log);
    CrownedHistory(s.ids, h, n, x);
    WinNode(s.ids, h, n, x);
    forall v | v in s.ids && v in q
      ensures QuorumMemberOk(h', v, s.nodes[v], t)
    {
      WinMember(s.ids, h, n, x, v, s.nodes[v]);
    }
    Assemble(s, h, n, BecomeLeader(x, n, s.ids), {}, h');
  }

  lemma {:induction false} CrownedGrows(h: History, n: NodeId, t: nat, q: set<NodeId>, log: Entries)
    requires t !in h.reigns
    ensures Grows(h, Crowned(h, n, t, q, log))
    ensures forall v :: v != n ==> NotBy(h, Crowned(h, n, t, q, log), v)
  {
  }

  /** Every node whose vote counted still stands by it. */
  lemma {:induction false} WinMember(ids: set<NodeId>, h: History, n: NodeId, x: NodeState, v: NodeId, y: NodeState)
    requires HistoryOk(ids, h) && NodeOk(ids, h, n, x) && NodeOk(ids, h, v, y)
    requires x.currentTerm !in h.reigns && x.currentTerm in x.tally && v in x.tally[x.currentTerm]
    ensures var t := x.currentTerm;
            QuorumMemberOk(Crowned(h, n, t, x.tally[t], x.log), v, y, t)
  {
    hide ReignsOk;
    hide ElectionsOk;
    hide CampaignsOk;
    hide BallotsOk;
    hide AcksOk;
    hide CommitsOk;
    hide ApplyOk;
    hide AckerOk;
    hide Committed;
    var t := x.currentTerm;
    assert HasBallot(h, v, t, n);
    OneVote(h, n, v, t);
    WinVoter(h, n, v, t, y);
  }

  lemma {:induction false} WinVoter(h: History, n: NodeId, v: NodeId, t: nat, y: NodeState)
    requires VoterOk(h, v, y) && t !in h.reigns && HasBallot(h, v, t, n)
    ensures t <= y.currentTerm && (t == y.currentTerm ==> y.votedFor == Some(n))
  {
  }

  /** While a term has no leader, no node has voted for two candidates of that term. */
  lemma {:induction false} OneVote(h: History, n: NodeId, v: NodeId, t: nat)
    requires BallotsOk(h) && t !in h.reigns && HasBallot(h, v, t, n)
    ensures forall b :: b in h.ballots && b.voter == v && b.term == t ==> b.candidate == n
  {
    var c :| c in h.ballots && c.voter == v && c.term == t && c.candidate == n;
    forall b | b in h.ballots && b.voter == v && b.term == t
      ensures b.candidate == n
    {
      assert BallotOk(h, b) && BallotOk(h, c);
      assert SameRound(b, c);
    }
  }

  lemma {:induction false} CrownedHistory(ids: set<NodeId>, h: History, n: NodeId, x: NodeState)
    requires HistoryOk(ids, h) && NodeOk(ids, h, n, x) && n in ids
    requires x.role == Candidate && x.currentTerm !in h.reigns && x.currentTerm in x.tally
    requires IsQuorum(ids, x.tally[x.currentTerm])
    ensures HistoryOk(ids, Crowned(h, n, x.currentTerm, x.tally[x.currentTerm], x.log))
  {
    hide CampaignsOk;
    hide BallotsOk;
    hide AcksOk;
    hide CommitsOk;
    hide ReignsOk;
    hide ElectionsOk;
    hide ApplyOk;
    hide AckerOk;
    hide VoterOk;
    hide Committed;
    hide IsQuorum;
    hide Genuine;
    var t := x.currentTerm;
    var h' := Crowned(h, n, t, x.tally[t], x.log);
    CrownedGrows(h, n, t, x.tally[t], x.log);
    CampaignBelow(h, n, x);
    CrownedReigns(h, n, t, x.tally[t], x.log);
    CrownedElection(ids, h, n, x);
    ElectionsGrow(ids, h, h');
    CampaignsGrow(h, h');
    BallotsGrow(h, h');
    AcksGrow(h, h');
    CommitsGrow(ids, h, h');
  }

  lemma {:induction false} CampaignBelow(h: History, n: NodeId, x: NodeState)
    requires CampaignsOk(h) && RoleOk(h, n, x) && x.role == Candidate
    ensures LastTerm(x.log) < x.currentTerm
  {
  }

  lemma {:induction false} CrownedElection(ids: set<NodeId>, h: History, n: NodeId, x: NodeState)
    requires BallotsOk(h) && RoleOk(h, n, x) && TallyOk(ids, h, n, x) && n in ids
    requires x.role == Candidate && x.currentTerm !in h.reigns && x.currentTerm in x.tally
    requires IsQuorum(ids, x.tally[x.currentTerm])
    ensures ElectionOk(ids, Crowned(h, n, x.currentTerm, x.tally[x.currentTerm], x.log), x.currentTerm)
  {
    var t := x.currentTerm;
    var h' := Crowned(h, n, t, x.tally[t], x.log);
    forall v | v in x.tally[t]
      ensures HasEarlyBallot(h', v, t, n)
    {
      assert HasBallot(h, v, t, n);
      var b :| b in h.ballots && b.voter == v && b.term == t && b.candidate == n;
      assert BallotOk(h, b);
    }
  }

  lemma {:induction false} CrownedReigns(h: History, n: NodeId, t: nat, q: set<NodeId>, log: Entries)
    requires ReignsOk(h) && t !in h.reigns && Genuine(h, log) && LastTerm(log) < t
    ensures ReignsOk(Crowned(h, n, t, q, log))
  {
    hide ReignsOk;
    hide Genuine;
    var h' := Crowned(h, n, t, q, log);
    CrownedGrows(h, n, t, q, log);
    forall i | 0 <= i < |log|
      ensures log[i].term in h.reigns && log[..i + 1] <= h.reigns[log[i].term].log
      ensures log[i].index == i + 1 && log[i].term < t
    {
      GenuineAt(h, log, i);
    }
    forall i, j | 0 <= i <= j < |log|
      ensures log[i].term <= log[j].term
    {
      GenuineSorted(h, log, i, j);
    }
    assert ReignLogOk(h', t);
    OldReigns(h, h', t);
  }

  lemma {:induction false} OldReigns(h: History, h': History, t: nat)
    requires ReignsOk(h) && Grows(h, h') && h'.reigns.Keys == h.reigns.Keys + {t}
    requires forall u :: u in h.reigns && u != t ==> h'.reigns[u].log == h.reigns[u].log
    requires t in h'.reigns && ReignLogOk(h', t)
    ensures ReignsOk(h')
  {
    forall u | u in h'.reigns
      ensures ReignLogOk(h', u)
    {
      if u != t {
        assert ReignLogOk(h, u);
        OldReign(h, h', u);
      }
    }
  }

  lemma {:induction false} OldReign(h: History, h': History, u: nat)
    requires Grows(h, h') && u in h.reigns && ReignLogOk(h, u) && h'.reigns[u].log == h.reigns[u].log
    ensures ReignLogOk(h', u)
  {
    var r := h.reigns[u].log;
    forall i | 0 <= i < |r|
      ensures r[i].term in h'.reigns && r[..i + 1] <= h'.reigns[r[i].term].log
    {
      assert h.reigns[r[i].term].log <= h'.reigns[r[i].term].log;
    }
  }

  lemma {:induction false} WinNode(ids: set<NodeId>, h: History, n: NodeId, x: NodeState)
    requires HistoryOk(ids, h) && NodeOk(ids, h, n, x) && n in ids
    requires x.role == Candidate && x.currentTerm !in h.reigns && x.currentTerm in x.tally
    ensures NodeOk(ids, Crowned(h, n, x.currentTerm, x.tally[x.currentTerm], x.log), n, BecomeLeader(x, n, ids))
  {
    hide ReignsOk;
    hide ElectionsOk;
    hide CampaignsOk;
    hide BallotsOk;
    hide AcksOk;
    hide CommitsOk;
    hide ApplyOk;
    hide AckerOk;
    hide VoterOk;
    hide TallyOk;
    hide Committed;
    hide Genuine;
    var t := x.currentTerm;
    var h' := Crowned(h, n, t, x.tally[t], x.log);
    var y := BecomeLeader(x, n, ids);
    CrownedGrows(h, n, t, x.tally[t], x.log);
    GenuineGrows(h, h', x.log);
    GenuineIndexed(h, x.log);
    ApplyFields(x, y);
    CommittedGrows(h, h', x.log[..At(h.known, n)], t, t);
    TallyGrows(ids, h, h', n, x);
    TallyFields(ids, h', n, x, y);
    AckerMoves(h, h', n, x, y);
    WinVoterSelf(ids, h, n, x);
    WinPeers(ids, h', n, x);
  }

  lemma {:induction false} TallyFields(ids: set<NodeId>, h: History, n: NodeId, x: NodeState, y: NodeState)
    requires TallyOk(ids, h, n, x) && y.tally == x.tally
    ensures TallyOk(ids, h, n, y)
  {
  }

  lemma {:induction false} WinPeers(ids: set<NodeId>, h: History, n: NodeId, x: NodeState)
    requires LastIndex(x.log) == |x.log|
    ensures LeaderOk(ids, h, n, BecomeLeader(x, n, ids))
  {
    var y := BecomeLeader(x, n, ids);
    forall p | p in ids && p != n
      ensures PeerOk(h, y, p)
    {
    }
  }

  lemma {:induction false} WinVoterSelf(ids: set<NodeId>, h: History, n: NodeId, x: NodeState)
    requires BallotsOk(h) && VoterOk(h, n, x) && RoleOk(h, n, x) && TallyOk(ids, h, n, x)
    requires x.role == Candidate && x.currentTerm !in h.reigns && x.currentTerm in x.tally
    ensures VoterOk(Crowned(h, n, x.currentTerm, x.tally[x.currentTerm], x.log), n, BecomeLeader(x, n, ids))
  {
    var t := x.currentTerm;
    var h' := Crowned(h, n, t, x.tally[t], x.log);
    var y := BecomeLeader(x, n, ids);
    forall u | u in h'.reigns && n in h'.reigns[u].quorum
      ensures QuorumMemberOk(h', n, y, u)
    {
      if u == t {
        assert HasBallot(h, n, t, n);
        OneVote(h, n, n, t);
      } else {
        assert QuorumMemberOk(h, n, x, u);
      }
    }
  }
}
