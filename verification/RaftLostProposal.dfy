/** A run in which a leader loses and regains leadership: its pending proposal is answered without
    an error although another leader's entry stands in its place. */
module RaftLostProposal {
  import opened Prelude
  import opened RaftLog
  import opened RaftNode
  import opened RaftNetwork

  const IDS: set<NodeId> := {1, 2, 3}

  const LOST := LogEntry(1, 1, 1, [1])
  const KEPT := LogEntry(2, 1, 1, [2])
  const NEXT := LogEntry(3, 2, 1, [3])

  /** Node 1 leading term 1, then a follower with the other leader's entry, then leading term 3. */
  const FIRST := NodeState(1, Some(1), [LOST], Leader, Some(1), 0, map[2 := 1, 3 := 1], map[1 := 1, 2 := 0, 3 := 0],
                           map[1 := {1, 2}], IdleApply, Proposals([LOST], []))

  const DEPOSED := FIRST.(role := Follower, currentTerm := 2, votedFor := None, leaderId := Some(2), log := [KEPT])

  const THIRD :=
      NodeState(3, Some(1), [KEPT, NEXT], Leader, Some(1), 0, map[2 := 2, 3 := 2], map[1 := 2, 2 := 0, 3 := 0],
                           map[1 := {1, 2}, 3 := {1, 3}], IdleApply, Proposals([LOST, NEXT], []))

  /** Node 2 voting in term 1, and leading term 2. */
  const VOTER := FreshNode.(currentTerm := 1, votedFor := Some(1))

  const SECOND := NodeState(2, Some(2), [KEPT], Leader, Some(2), 0, map[1 := 1, 3 := 1], map[1 := 0, 2 := 1, 3 := 0],
                            map[2 := {2, 3}], IdleApply, Proposals([KEPT], []))

  // ---------- runs and their last state ----------

  ghost predicate Reached(run: seq<Net>, steps: seq<Step>, s: Net)
  {
    IsRun(run, steps) && s == run[|steps|]
  }

  /** One more step. */
  lemma {:induction false} Then(run: seq<Net>, steps: seq<Step>, s: Net, step: Step, t: Net)
    returns (run': seq<Net>, steps': seq<Step>)
    requires Reached(run, steps, s) && Enabled(s, step) && t == Do(s, step)
    ensures Reached(run', steps', t) && run' == run + [t] && steps' == steps + [step]
  {
    hide Enabled;
    hide Do;
    run', steps' := run + [t], steps + [step];
  }

  /** The cluster after a step of one node. */
  ghost function Moved(s: Net, n: NodeId, x: NodeState, more: set<Message>): (r: Net)
  {
    Net(s.ids, s.nodes[n := x], s.sent + more)
  }

  ghost predicate Three(s: Net)
  {
    s.ids == IDS && s.nodes.Keys == IDS
  }

  // ---------- single steps ----------

  lemma {:induction false} ATimeout(s: Net, self: NodeId)
    requires Three(s) && self in IDS
    ensures var x := StartElection(s.nodes[self], self);
            Enabled(s, Timeout(self)) && Do(s, Timeout(self)) == Moved(s, self, x, {RequestVote(VoteRequest(x, self))})
  {
    hide StartElection;
  }

  lemma {:induction false} AVote(s: Net, peer: NodeId, vote: VoteArgs, y: NodeState, term: nat)
    requires Three(s) && peer in IDS && RequestVote(vote) in s.sent && vote.candidate != peer
    requires HandleVoteRequest(s.nodes[peer], vote) == (y, term, true)
    ensures Enabled(s, OnVoteRequest(peer, vote))
    ensures Do(s, OnVoteRequest(peer, vote)) == Moved(s, peer, y, {VoteReply(vote, peer, term, true)})
  {
    hide HandleVoteRequest;
  }

  lemma {:induction false} ACount(s: Net, self: NodeId, vote: VoteArgs, peer: NodeId, term: nat)
    requires Three(s) && self in IDS && VoteReply(vote, peer, term, true) in s.sent && vote.candidate == self
    ensures Enabled(s, CountReply(self, vote, peer, term))
    ensures Do(s, CountReply(self, vote, peer, term)) == Moved(s, self, CountVote(s.nodes[self], vote.term, peer), {})
  {
    hide CountVote;
  }

  lemma {:induction false} AWin(s: Net, self: NodeId, t: nat)
    requires Three(s) && self in IDS
    requires var x := s.nodes[self]; t in x.tally && |x.tally[t]| == 2 && x.role == Candidate && x.currentTerm == t
    ensures Enabled(s, Win(self, t))
            && Do(s, Win(self, t)) == Moved(s, self, BecomeLeader(s.nodes[self], self, IDS), {})
  {
    hide BecomeLeader;
    assert |IDS| == 3;
  }

  ghost function Proposed(x: NodeState, self: NodeId, e: LogEntry): (r: NodeState)
  {
    x.(log := x.log + [e], matchIndex := x.matchIndex[self := e.index],
       proposals := Proposals(x.proposals.waiting + [e], x.proposals.answered))
  }

  lemma {:induction false} AProposal(s: Net, self: NodeId, e: LogEntry)
    requires Three(s) && self in IDS && s.nodes[self].role == Leader
    requires e.term == s.nodes[self].currentTerm && e.index == LastIndex(s.nodes[self].log) + 1
    ensures Enabled(s, Propose(self, e.cmdType, e.data))
    ensures Do(s, Propose(self, e.cmdType, e.data)) == Moved(s, self, Proposed(s.nodes[self], self, e), {})
  {
  }

  lemma {:induction false} ARequest(s: Net, self: NodeId, peer: NodeId, args: AppendArgs)
    requires Three(s) && self in IDS && peer in IDS && self != peer && s.nodes[self].role == Leader
    requires args == AppendRequest(s.nodes[self], self, peer)
    ensures Enabled(s, Replicate(self, peer))
            && Do(s, Replicate(self, peer)) == Moved(s, self, s.nodes[self], {Append(args)})
  {
    hide AppendRequest;
  }

  lemma {:induction false} AnAppend(s: Net, peer: NodeId, args: AppendArgs, y: NodeState, term: nat)
    requires Three(s) && peer in IDS && Append(args) in s.sent && args.to == peer
    requires HandleAppend(s.nodes[peer], args) == (y, term, true)
    ensures Enabled(s, OnAppend(peer, args))
            && Do(s, OnAppend(peer, args)) == Moved(s, peer, y, {AppendReply(args, term, true)})
  {
    hide HandleAppend;
  }

  lemma {:induction false} AReply(s: Net, self: NodeId, args: AppendArgs, term: nat)
    requires Three(s) && self in IDS && AppendReply(args, term, true) in s.sent && args.leader == self
    ensures Enabled(s, OnAppendReply(self, args, term, true))
    ensures Do(s, OnAppendReply(self, args, term, true)) ==
            Moved(s, self, HandleAppendReply(s.nodes[self], self, IDS, args, term, true), {})
  {
    hide HandleAppendReply;
  }

  // ---------- an election ----------

  ghost predicate WillVote(x: NodeState, y: NodeState)
  {
    y.currentTerm <= x.currentTerm && UpToDate(LastTerm(x.log), LastIndex(x.log), y.log)
  }

  ghost function Voted(y: NodeState, term: nat, self: NodeId): (r: NodeState)
  {
    BecomeFollower(y, term, None).(votedFor := Some(self))
  }

  lemma {:induction false} Granted(x: NodeState, y: NodeState, self: NodeId)
    requires WillVote(x, y)
    ensures var vote := VoteRequest(StartElection(x, self), self);
            && vote.candidate == self && vote.term == x.currentTerm + 1
            && HandleVoteRequest(y, vote) == (Voted(y, x.currentTerm + 1, self), x.currentTerm + 1, true)
  {
  }

  ghost function Elected(x: NodeState, self: NodeId, peer: NodeId): (r: NodeState)
  {
    BecomeLeader(CountVote(StartElection(x, self), x.currentTerm + 1, peer), self, IDS)
  }

  lemma {:induction false} TwoVotes(x: NodeState, self: NodeId, peer: NodeId)
    requires self != peer
    ensures var z := CountVote(StartElection(x, self), x.currentTerm + 1, peer);
            && z == x.(role := Candidate, currentTerm := x.currentTerm + 1, votedFor := Some(self), leaderId := None,
                       tally := x.tally[x.currentTerm + 1 := {self, peer}])
            && |{self, peer}| == 2
  {
    assert {self} + {peer} == {self, peer};
  }

  /** The candidate asks and one peer agrees. */
  lemma {:induction false} Ballot(run: seq<Net>, steps: seq<Step>, s: Net, self: NodeId, peer: NodeId)
    returns (run': seq<Net>, steps': seq<Step>, s': Net)
    requires Reached(run, steps, s) && Three(s) && self in IDS && peer in IDS && self != peer
    requires WillVote(s.nodes[self], s.nodes[peer])
    ensures Reached(run', steps', s') && Three(s') && |steps'| == |steps| + 3 && |run'| == |run| + 3 && run <= run'
            && steps <= steps'
    ensures RequestVote(VoteRequest(StartElection(s.nodes[self], self), self)) in s'.sent
    ensures var x := s.nodes[self];
            s'.nodes == s.nodes[self := CountVote(StartElection(x, self), x.currentTerm + 1, peer)]
                               [peer := Voted(s.nodes[peer], x.currentTerm + 1, self)]
  {
    hide Reached;
    hide Enabled;
    hide Do;
    hide StartElection;
    hide CountVote;
    hide Voted;
    hide HandleVoteRequest;
    hide WillVote;
    hide VoteRequest;
    var x, y := s.nodes[self], s.nodes[peer];
    var t := x.currentTerm + 1;
    var vote := VoteRequest(StartElection(x, self), self);
    Granted(x, y, self);
    ATimeout(s, self);
    var s1 := Moved(s, self, StartElection(x, self), {RequestVote(vote)});
    AVote(s1, peer, vote, Voted(y, t, self), t);
    var s2 := Moved(s1, peer, Voted(y, t, self), {VoteReply(vote, peer, t, true)});
    ACount(s2, self, vote, peer, t);
    s' := Moved(s2, self, CountVote(s2.nodes[self], t, peer), {});
    var run1, steps1 := Then(run, steps, s, Timeout(self), s1);
    var run2, steps2 := Then(run1, steps1, s1, OnVoteRequest(peer, vote), s2);
    run', steps' := Then(run2, steps2, s2, CountReply(self, vote, peer, t), s');
  }

  /** Then it wins and proposes. */
  lemma {:induction false} Election(run: seq<Net>, steps: seq<Step>, s: Net, self: NodeId, peer: NodeId, e: LogEntry)
    returns (run': seq<Net>, steps': seq<Step>, s': Net)
    requires Reached(run, steps, s) && Three(s) && self in IDS && peer in IDS && self != peer
    requires WillVote(s.nodes[self], s.nodes[peer])
    requires e.term == s.nodes[self].currentTerm + 1 && e.index == LastIndex(s.nodes[self].log) + 1
    ensures Reached(run', steps', s') && Three(s') && |steps'| == |steps| + 5 && |run'| == |run| + 5 && run <= run'
            && steps <= steps'
    ensures steps'[|steps| + 4] == Propose(self, e.cmdType, e.data)
    ensures var x := s.nodes[self];
            s'.nodes == s.nodes[self := Proposed(Elected(x, self, peer), self, e)]
                               [peer := Voted(s.nodes[peer], x.currentTerm + 1, self)]
  {
    hide Reached;
    hide Enabled;
    hide Do;
    hide StartElection;
    hide CountVote;
    hide Voted;
    hide WillVote;
    var x := s.nodes[self];
    var t := x.currentTerm + 1;
    var run1, steps1, s1 := Ballot(run, steps, s, self, peer);
    TwoVotes(x, self, peer);
    AWin(s1, self, t);
    var s2 := Moved(s1, self, BecomeLeader(s1.nodes[self], self, IDS), {});
    AProposal(s2, self, e);
    s' := Moved(s2, self, Proposed(s2.nodes[self], self, e), {});
    var run2, steps2 := Then(run1, steps1, s1, Win(self, t), s2);
    run', steps' := Then(run2, steps2, s2, Propose(self, e.cmdType, e.data), s');
  }

  // ---------- the run ----------

  lemma {:induction false} MapsOfOne(last: nat)
    ensures InitialNext(1, IDS, last) == map[2 := last + 1, 3 := last + 1]
    ensures InitialMatch(1, IDS, last)[1 := last + 1] == map[1 := last + 1, 2 := 0, 3 := 0]
  {
  }

  lemma {:induction false} MapsOfTwo()
    ensures InitialNext(2, IDS, 0) == map[1 := 1, 3 := 1]
    ensures InitialMatch(2, IDS, 0)[2 := 1] == map[1 := 0, 2 := 1, 3 := 0]
  {
  }

  lemma {:induction false} FirstElection()
    ensures Proposed(Elected(FreshNode, 1, 2), 1, LOST) == FIRST && Voted(FreshNode, 1, 1) == VOTER
  {
    TwoVotes(FreshNode, 1, 2);
    MapsOfOne(0);
    hide CountVote;
    hide StartElection;
    hide InitialNext;
    hide InitialMatch;
    assert FreshNode.tally[1 := {1, 2}] == FIRST.tally;
  }

  lemma {:induction false} SecondElection()
    ensures Proposed(Elected(VOTER, 2, 3), 2, KEPT) == SECOND
  {
    TwoVotes(VOTER, 2, 3);
    MapsOfTwo();
    hide CountVote;
    hide StartElection;
    hide InitialNext;
    hide InitialMatch;
    assert VOTER.tally[2 := {2, 3}] == SECOND.tally;
  }

  lemma {:induction false} ThirdTally()
    ensures DEPOSED.tally[3 := {1, 3}] == THIRD.tally
  {
  }

  lemma {:induction false} ThirdElection()
    ensures Proposed(Elected(DEPOSED, 1, 3), 1, NEXT) == THIRD
  {
    TwoVotes(DEPOSED, 1, 3);
    MapsOfOne(1);
    ThirdTally();
    hide CountVote;
    hide StartElection;
    hide InitialNext;
    hide InitialMatch;
    assert [KEPT] + [NEXT] == [KEPT, NEXT];
  }

  /** The new leader's first request overwrites the pending entry. */
  lemma {:induction false} Overwrites(args: AppendArgs)
    requires args == AppendRequest(SECOND, 2, 1)
    ensures args.to == 1 && HandleAppend(FIRST, args) == (DEPOSED, 2, true)
  {
    assert SECOND.log[0..] == [KEPT];
    assert args.entries == [KEPT] && args.prevIndex == 0 && args.term == 2 && args.leader == 2
           && args.leaderCommit == 0;
    assert EntryAt([LOST], 1) == Some(LOST);
    assert TruncatedFrom([LOST], 1) == [];
    assert [KEPT][0..] == [KEPT];
    assert AppendLoop([LOST], [KEPT], 0) == [KEPT];
  }

  /** Node 2 has what precedes the entry of term 3, so it takes that entry. */
  lemma {:induction false} Follows(args: AppendArgs) returns (y: NodeState)
    requires args == AppendRequest(THIRD, 1, 2)
    ensures args.to == 2 && args.leader == 1 && args.term == 3 && args.entries == [NEXT]
    ensures HandleAppend(SECOND, args) == (y, 3, true)
  {
    assert THIRD.log[1..] == [NEXT];
    assert args.entries == [NEXT] && args.prevIndex == 1 && args.prevTerm == 2 && args.leaderCommit == 0;
    assert EntryAt([KEPT], 2) == None;
    y := HandleAppend(SECOND, args).0;
  }

  /** With that, both indices are committed at node 1. */
  lemma {:induction false} Commits(args: AppendArgs)
    requires args.to == 2 && args.leader == 1 && args.term == 3 && args.entries == [NEXT]
    ensures var z := HandleAppendReply(THIRD, 1, IDS, args, 3, true);
            z.role == Leader && z.commitIndex == 2 && z.log == [KEPT, NEXT] && LOST in z.proposals.answered
  {
    var z := Acknowledged(THIRD, args);
    assert At(z.matchIndex, 2) == 2;
    assert Holders(z, 1, IDS, 2) == {2};
    assert |IDS| == 3;
    assert EntryAt(z.log, 2) == Some(NEXT);
    assert Commitable(z, 1, IDS, 2);
  }

  lemma {:induction false} Start() returns (s: Net)
    ensures s == Net(IDS, map[1 := FreshNode, 2 := FreshNode, 3 := FreshNode], {}) && Three(s) && Reached([s], [], s)
  {
    s := Net(IDS, map[1 := FreshNode, 2 := FreshNode, 3 := FreshNode], {});
  }

  /** Up to the moment the pending entry is overwritten. */
  lemma {:induction false} Overwritten() returns (run: seq<Net>, steps: seq<Step>, s: Net)
    ensures Reached(run, steps, s) && Three(s) && |steps| == 12 && |run| == 13
    ensures steps[4] == Propose(1, LOST.cmdType, LOST.data) && run[5].nodes.Keys == IDS && run[5].nodes[1] == FIRST
    ensures s.nodes[1] == DEPOSED && s.nodes[2] == SECOND && s.nodes[3] == Voted(FreshNode, 2, 2)
  {
    hide Reached;
    hide Enabled;
    hide Do;
    hide Voted;
    hide Elected;
    hide HandleAppend;
    hide AppendRequest;
    var s0 := Start();
    var run1, steps1, s1 := Election([s0], [], s0, 1, 2, LOST);
    FirstElection();
    LastState(run1, steps1, s1);
    var run2, steps2, s2 := Election(run1, steps1, s1, 2, 3, KEPT);
    SecondElection();
    var args := AppendRequest(SECOND, 2, 1);
    Overwrites(args);
    ARequest(s2, 2, 1, args);
    var s3 := Moved(s2, 2, SECOND, {Append(args)});
    AnAppend(s3, 1, args, DEPOSED, 2);
    s := Moved(s3, 1, DEPOSED, {AppendReply(args, 2, true)});
    var run3, steps3 := Then(run2, steps2, s2, Replicate(2, 1), s3);
    run, steps := Then(run3, steps3, s3, OnAppend(1, args), s);
  }

  lemma {:induction false} LastState(run: seq<Net>, steps: seq<Step>, s: Net)
    requires Reached(run, steps, s)
    ensures |run| == |steps| + 1 && run[|steps|] == s
  {
    hide Enabled;
    hide Do;
  }

  /** Losing and regaining leadership: the call of step 4 waits until the last step answers it without
      an error, although the entry committed at its index is another. */
  lemma {:induction false} LostProposal() returns (run: seq<Net>, steps: seq<Step>)
    ensures IsRun(run, steps) && |steps| == 20 && |run| == 21
    ensures steps[4] == Propose(1, LOST.cmdType, LOST.data) && steps[19].OnAppendReply?
    ensures 1 in run[5].nodes && 1 in run[19].nodes && 1 in run[20].nodes
    ensures run[5].nodes[1].log == [LOST] && LOST in run[5].nodes[1].proposals.waiting
    ensures LOST in run[19].nodes[1].proposals.waiting && LOST !in run[19].nodes[1].proposals.answered
    ensures var y := run[20].nodes[1];
            LOST in y.proposals.answered && LOST.index == 1 <= y.commitIndex && |y.log| >= 1 && y.log[0] == KEPT != LOST
  {
    hide Enabled;
    hide Do;
    hide Voted;
    hide Elected;
    hide HandleAppend;
    hide HandleAppendReply;
    hide AppendRequest;
    var run1, steps1, s1 := Overwritten();
    StillVotes();
    var run2, steps2, s2 := Election(run1, steps1, s1, 1, 3, NEXT);
    ThirdElection();
    var args := AppendRequest(THIRD, 1, 2);
    var y := Follows(args);
    Commits(args);
    ARequest(s2, 1, 2, args);
    var s3 := Moved(s2, 1, THIRD, {Append(args)});
    AnAppend(s3, 2, args, y, 3);
    var s4 := Moved(s3, 2, y, {AppendReply(args, 3, true)});
    AReply(s4, 1, args, 3);
    var s5 := Moved(s4, 1, HandleAppendReply(THIRD, 1, IDS, args, 3, true), {});
    hide IsRun;
    var run3, steps3 := Then(run2, steps2, s2, Replicate(1, 2), s3);
    var run4, steps4 := Then(run3, steps3, s3, OnAppend(2, args), s4);
    run, steps := Then(run4, steps4, s4, OnAppendReply(1, args, 3, true), s5);
  }

  lemma {:induction false} StillVotes()
    ensures WillVote(DEPOSED, Voted(FreshNode, 2, 2))
  {
  }
}
