/** A cluster of replicas and every message ever sent. Any message may be delivered any number
    of times, in any order, or never; every critical section is one step. */
module RaftNetwork {
  import opened Prelude
  import opened RaftNode

  datatype Message =
    | RequestVote(vote: VoteArgs)
    | VoteReply(vote: VoteArgs, from: NodeId, term: nat, granted: bool)
    | Append(args: AppendArgs)
    | AppendReply(args: AppendArgs, term: nat, success: bool)

  datatype Net = Net(ids: set<NodeId>, nodes: map<NodeId, NodeState>, sent: set<Message>)

  datatype Step =
    | Timeout(n: NodeId)
    | OnVoteRequest(n: NodeId, vote: VoteArgs)
    | OnVoteReply(n: NodeId, vote: VoteArgs, from: NodeId, term: nat, granted: bool)
    | CountReply(n: NodeId, vote: VoteArgs, from: NodeId, term: nat)
    | Win(n: NodeId, electionTerm: nat)
    | Propose(n: NodeId, cmdType: Byte, data: Bytes)
    | Replicate(n: NodeId, peer: NodeId)
    | OnAppend(n: NodeId, args: AppendArgs)
    | OnAppendReply(n: NodeId, args: AppendArgs, term: nat, success: bool)
    | Wake(n: NodeId)
    | Read(n: NodeId)
    | Send(n: NodeId)
    | Record(n: NodeId)
    | Restart(n: NodeId)

  predicate WellFormed(s: Net)
  {
    s.nodes.Keys == s.ids
  }

  predicate Init(s: Net)
  {
    && WellFormed(s)
    && (forall n :: n in s.ids ==> s.nodes[n] == FreshNode)
    && s.sent == {}
  }

  predicate Enabled(s: Net, step: Step)
  {
    WellFormed(s) && step.n in s.ids &&
    var x := s.nodes[step.n];
    match step
    case Timeout(n) => true
    case OnVoteRequest(n, vote) => RequestVote(vote) in s.sent && vote.candidate != n
    case OnVoteReply(n, vote, from, term, granted) =>
      VoteReply(vote, from, term, granted) in s.sent && vote.candidate == n
    case CountReply(n, vote, from, term) =>
      VoteReply(vote, from, term, true) in s.sent && vote.candidate == n
    case Win(n, electionTerm) =>
      && electionTerm in x.tally && |x.tally[electionTerm]| >= Majority(|s.ids|)
      && x.role == Candidate && x.currentTerm == electionTerm
    case Propose(n, cmdType, data) => x.role == Leader
    case Replicate(n, peer) => x.role == Leader && peer in s.ids && peer != n
    case OnAppend(n, args) => Append(args) in s.sent && args.to == n
    case OnAppendReply(n, args, term, success) => AppendReply(args, term, success) in s.sent && args.leader == n
    case Wake(n) => x.apply.applier.Idle? && x.apply.signal
    case Read(n) => x.apply.applier.Reading?
    case Send(n) => x.apply.applier.Sending?
    case Record(n) => x.apply.applier.Recording?
    case Restart(n) => true
  }

  /** The fields of the stepping node afterwards. */
  function NodeAfter(s: Net, step: Step): (r: NodeState)
    requires Enabled(s, step)
  {
    var x := s.nodes[step.n];
    match step
    case Timeout(n) => StartElection(x, n)
    case OnVoteRequest(n, vote) => HandleVoteRequest(x, vote).0
    case OnVoteReply(n, vote, from, term, granted) => ObserveTerm(x, term)
    case CountReply(n, vote, from, term) => CountVote(x, vote.term, from)
    case Win(n, electionTerm) => BecomeLeader(x, n, s.ids)
    case Propose(n, cmdType, data) => ProposeEntry(x, n, cmdType, data)
    case Replicate(n, peer) => x
    case OnAppend(n, args) => HandleAppend(x, args).0
    case OnAppendReply(n, args, term, success) => HandleAppendReply(x, n, s.ids, args, term, success)
    case Wake(n) => x.(apply := ApplyWake(x.apply))
    case Read(n) => x.(apply := ApplyRead(x.apply, x.commitIndex))
    case Send(n) => x.(apply := ApplySend(x.apply, x.log))
    case Record(n) => x.(apply := ApplyRecord(x.apply))
    case Restart(n) => Restarted(x)
  }

  /** The messages the step sends. */
  function MessagesOf(s: Net, step: Step): (r: set<Message>)
    requires Enabled(s, step)
  {
    var x := s.nodes[step.n];
    match step
    case Timeout(n) => {RequestVote(VoteRequest(StartElection(x, n), n))}
    case OnVoteRequest(n, vote) =>
      var (_, term, granted) := HandleVoteRequest(x, vote);
      {VoteReply(vote, n, term, granted)}
    case Replicate(n, peer) => {Append(AppendRequest(x, n, peer))}
    case OnAppend(n, args) =>
      var (_, term, success) := HandleAppend(x, args);
      {AppendReply(args, term, success)}
    case _ => {}
  }

  function Do(s: Net, step: Step): (r: Net)
    requires Enabled(s, step)
  {
    s.(nodes := s.nodes[step.n := NodeAfter(s, step)], sent := s.sent + MessagesOf(s, step))
  }

  /** A run: from an initial cluster, each state is obtained from the one before by a step. */
  ghost predicate IsRun(run: seq<Net>, steps: seq<Step>)
  {
    && |run| == |steps| + 1
    && Init(run[0])
    && forall i :: 0 <= i < |steps| ==> Enabled(run[i], steps[i]) && run[i + 1] == Do(run[i], steps[i])
  }
}
