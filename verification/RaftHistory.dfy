/** What happened in a run so far, and the invariant that ties it to the nodes and messages.
    The history is bookkeeping for the proof: no step reads it. */
module RaftHistory {
  import opened Prelude
  import opened RaftLog
  import opened RaftNode
  import opened RaftNetwork

  /** A won election: who won, with whose votes, the log it was won with, and that log
      together with everything the winner appended while leading. */
  datatype Reign = Reign(leader: NodeId, quorum: set<NodeId>, start: Entries, log: Entries)

  /** A vote with the voter's log at that moment; early if the term had no leader yet. */
  datatype Ballot = Ballot(voter: NodeId, term: nat, candidate: NodeId, log: Entries, early: bool)

  /** `voter` held the first `index` entries of the reign of `term` while in that term. */
  datatype Ack = Ack(voter: NodeId, term: nat, index: nat)

  /** The leader of `term` advanced its commit index to `index` on the word of `quorum`. */
  datatype Commit = Commit(term: nat, index: nat, quorum: set<NodeId>)

  datatype History = History(
    reigns: map<nat, Reign>,
    campaigns: map<(NodeId, nat), Entries>,   // log at the start of a candidacy
    ballots: set<Ballot>,
    acks: set<Ack>,
    commits: set<Commit>,
    known: map<NodeId, nat>)                  // highest commit index a node ever had

  const NoHistory := History(map[], map[], {}, {}, {}, map[])

  function AcksUpTo(v: NodeId, t: nat, k: nat): (r: set<Ack>)
  {
    set j: nat | j <= k :: Ack(v, t, j)
  }

  function After(s: Net, h: History, step: Step): (r: History)
    requires Enabled(s, step)
  {
    var n := step.n;
    var x := s.nodes[n];
    var y := NodeAfter(s, step);
    match step
    case Timeout(_) =>
      h.(campaigns := h.campaigns[(n, y.currentTerm) := x.log],
         ballots := h.ballots + {Ballot(n, y.currentTerm, n, x.log, y.currentTerm !in h.reigns)})
    case OnVoteRequest(_, vote) =>
      if HandleVoteRequest(x, vote).2
      then h.(ballots := h.ballots + {Ballot(n, vote.term, vote.candidate, x.log, vote.term !in h.reigns)})
      else h
    case Win(_, t) => h.(reigns := h.reigns[t := Reign(n, x.tally[t], x.log, x.log)])
    case Propose(_, _, _) =>
      if x.currentTerm in h.reigns
      then h.(reigns := h.reigns[x.currentTerm := h.reigns[x.currentTerm].(log := y.log)])
      else h
    case OnAppend(_, args) =>
      if HandleAppend(x, args).2
      then h.(acks := h.acks + AcksUpTo(n, args.term, args.prevIndex + |args.entries|),
              known := h.known[n := Max(At(h.known, n), y.commitIndex)])
      else h
    case OnAppendReply(_, args, _, _) =>
      if y.commitIndex > x.commitIndex
      then h.(acks := h.acks + AcksUpTo(n, y.currentTerm, y.commitIndex),
              commits := h.commits + {Commit(y.currentTerm, y.commitIndex,
                                             {n} + Holders(y, n, s.ids, y.commitIndex))},
              known := h.known[n := Max(At(h.known, n), y.commitIndex)])
      else h
    case _ => h
  }

  // ---------- logs ----------

  /** A log is genuine if it is an initial part of the log of the reign that made its last entry. */
  ghost predicate Genuine(h: History, log: Entries)
  {
    |log| == 0 || (LastTerm(log) in h.reigns && log <= h.reigns[LastTerm(log)].log)
  }

  /** The part of the reign's log that an ack speaks of. */
  ghost function Acked(h: History, a: Ack): (r: Entries)
    requires a.term in h.reigns && a.index <= |h.reigns[a.term].log|
  {
    h.reigns[a.term].log[..a.index]
  }

  /** An initial part of what some leader of a term up to t committed. */
  ghost predicate Committed(h: History, p: Entries, t: nat)
  {
    |p| == 0 ||
    exists c :: c in h.commits && c.term <= t && c.term in h.reigns && c.index <= |h.reigns[c.term].log|
                && p <= h.reigns[c.term].log[..c.index]
  }

  ghost predicate IsQuorum(ids: set<NodeId>, q: set<NodeId>)
  {
    q <= ids && 2 * |q| > |ids|
  }

  // ---------- facts about the history alone ----------

  ghost predicate ReignLogOk(h: History, t: nat)
    requires t in h.reigns
  {
    var r := h.reigns[t];
    && r.start <= r.log
    && Indexed(r.log)
    && (forall i :: 0 <= i < |r.log| ==>
          r.log[i].term in h.reigns && r.log[..i + 1] <= h.reigns[r.log[i].term].log)
    && (forall i, j :: 0 <= i <= j < |r.log| ==> r.log[i].term <= r.log[j].term)
    && (forall i :: 0 <= i < |r.start| ==> r.log[i].term < t)
    && (forall i :: |r.start| <= i < |r.log| ==> r.log[i].term == t)
  }

  ghost predicate ReignsOk(h: History)
  {
    forall t :: t in h.reigns ==> ReignLogOk(h, t)
  }

  ghost predicate HasBallot(h: History, v: NodeId, t: nat, c: NodeId)
  {
    exists b :: b in h.ballots && b.voter == v && b.term == t && b.candidate == c
  }

  ghost predicate HasEarlyBallot(h: History, v: NodeId, t: nat, c: NodeId)
  {
    exists b :: b in h.ballots && b.voter == v && b.term == t && b.candidate == c && b.early
  }

  ghost predicate ElectionOk(ids: set<NodeId>, h: History, t: nat)
    requires t in h.reigns
  {
    var r := h.reigns[t];
    && r.leader in ids && IsQuorum(ids, r.quorum)
    && (r.leader, t) in h.campaigns && h.campaigns[(r.leader, t)] == r.start
    && (forall v :: v in r.quorum ==> HasEarlyBallot(h, v, t, r.leader))
  }

  ghost predicate ElectionsOk(ids: set<NodeId>, h: History)
  {
    forall t :: t in h.reigns ==> ElectionOk(ids, h, t)
  }

  ghost predicate CampaignsOk(h: History)
  {
    forall c :: c in h.campaigns ==> Genuine(h, h.campaigns[c]) && LastTerm(h.campaigns[c]) < c.1
  }

  ghost predicate BallotOk(h: History, b: Ballot)
  {
    && (b.candidate, b.term) in h.campaigns
    && var c := h.campaigns[(b.candidate, b.term)];
       && Genuine(h, b.log)
       && UpToDate(LastTerm(c), LastIndex(c), b.log)
       && (b.term !in h.reigns ==> b.early)
  }

  ghost predicate BallotsOk(h: History)
  {
    && (forall b :: b in h.ballots ==> BallotOk(h, b))
    && (forall b, b' :: b in h.ballots && b' in h.ballots && SameRound(b, b') ==> b.candidate == b'.candidate)
  }

  ghost predicate SameRound(b: Ballot, b': Ballot)
  {
    b.early && b'.early && b.voter == b'.voter && b.term == b'.term
  }

  ghost predicate AckOk(h: History, a: Ack)
  {
    a.term in h.reigns && a.index <= |h.reigns[a.term].log|
  }

  /** A log that should hold what was acked does, unless a reign between came to power without it. */
  ghost predicate Kept(h: History, a: Ack, log: Entries, t: nat)
    requires AckOk(h, a)
  {
    Acked(h, a) <= log || LostBy(h, a, t)
  }

  ghost predicate LostBy(h: History, a: Ack, t: nat)
    requires AckOk(h, a)
  {
    exists u :: u in h.reigns && a.term < u <= t && !(Acked(h, a) <= h.reigns[u].start)
  }

  ghost predicate AcksOk(h: History)
  {
    && (forall a :: a in h.acks ==> AckOk(h, a))
    && (forall a, b :: a in h.acks && b in h.ballots && a.voter == b.voter && a.term < b.term && b.early ==>
          Kept(h, a, b.log, b.term - 1))
  }

  ghost predicate HasAck(h: History, v: NodeId, t: nat, k: nat)
  {
    forall j: nat :: j <= k ==> Ack(v, t, j) in h.acks
  }

  ghost predicate CommitRecordOk(ids: set<NodeId>, h: History, c: Commit)
  {
    && c.term in h.reigns && 1 <= c.index <= |h.reigns[c.term].log|
    && h.reigns[c.term].log[c.index - 1].term == c.term
    && IsQuorum(ids, c.quorum)
    && (forall v :: v in c.quorum ==> HasAck(h, v, c.term, c.index))
  }

  ghost predicate CommitsOk(ids: set<NodeId>, h: History)
  {
    forall c :: c in h.commits ==> CommitRecordOk(ids, h, c)
  }

  ghost predicate HistoryOk(ids: set<NodeId>, h: History)
  {
    ReignsOk(h) && ElectionsOk(ids, h) && CampaignsOk(h) && BallotsOk(h) && AcksOk(h) && CommitsOk(ids, h)
  }

  // ---------- one node against the history ----------

  ghost predicate LogOk(h: History, x: NodeState)
  {
    Genuine(h, x.log) && LastTerm(x.log) <= x.currentTerm
  }

  ghost predicate RoleOk(h: History, n: NodeId, x: NodeState)
  {
    && (x.role == Leader ==> x.currentTerm in h.reigns && h.reigns[x.currentTerm].leader == n
                             && x.log == h.reigns[x.currentTerm].log)
    && (x.role == Candidate ==> (n, x.currentTerm) in h.campaigns && h.campaigns[(n, x.currentTerm)] == x.log
                                && (x.currentTerm in h.reigns ==> h.reigns[x.currentTerm].leader != n))
    && (x.role != Follower ==> x.votedFor == Some(n))
    && (forall t :: (n, t) in h.campaigns ==> t <= x.currentTerm)
  }

  ghost predicate TallyOk(ids: set<NodeId>, h: History, n: NodeId, x: NodeState)
  {
    forall t, v :: t in x.tally && v in x.tally[t] ==> v in ids && HasBallot(h, v, t, n)
  }

  /** The votes of n: its current vote is the early vote of the term until the term has a leader,
      and the vote of a member of the winning quorum stays with the winner for good. */
  ghost predicate VoterOk(h: History, n: NodeId, x: NodeState)
  {
    && (forall b :: b in h.ballots && b.voter == n ==>
          b.term <= x.currentTerm
          && (b.term == x.currentTerm && b.term !in h.reigns ==> x.votedFor == Some(b.candidate)))
    && (forall t :: t in h.reigns && n in h.reigns[t].quorum ==> QuorumMemberOk(h, n, x, t))
  }

  ghost predicate QuorumMemberOk(h: History, n: NodeId, x: NodeState, t: nat)
    requires t in h.reigns
  {
    var l := h.reigns[t].leader;
    && t <= x.currentTerm
    && (t == x.currentTerm ==> x.votedFor == Some(l) && (n != l ==> x.role == Follower))
    && (forall b :: b in h.ballots && b.voter == n && b.term == t ==> b.candidate == l)
  }

  ghost predicate AckerOk(h: History, n: NodeId, x: NodeState)
  {
    forall a :: a in h.acks && a.voter == n ==>
      a.term <= x.currentTerm && AckOk(h, a) && Kept(h, a, x.log, x.currentTerm)
  }

  ghost predicate CommitOk(h: History, n: NodeId, x: NodeState)
  {
    && x.commitIndex <= At(h.known, n) <= |x.log|
    && Committed(h, x.log[..At(h.known, n)], x.currentTerm)
  }

  ghost predicate PeerOk(h: History, x: NodeState, p: NodeId)
  {
    && 1 <= At(x.nextIndex, p) <= |x.log| + 1
    && At(x.matchIndex, p) <= |x.log|
    && (At(x.matchIndex, p) == 0 || HasAck(h, p, x.currentTerm, At(x.matchIndex, p)))
  }

  ghost predicate LeaderOk(ids: set<NodeId>, h: History, n: NodeId, x: NodeState)
  {
    x.role == Leader ==> forall p :: p in ids && p != n ==> PeerOk(h, x, p)
  }

  /** Entries reach the apply channel in index order, once each, and no wake-up is lost. */
  ghost predicate ApplyOk(x: NodeState)
  {
    var p := x.apply;
    && p.lastApplied <= |p.delivered| <= x.commitIndex <= |x.log|
    && p.delivered == x.log[..|p.delivered|]
    && (match p.applier
        case Idle => |p.delivered| == p.lastApplied && (!p.signal ==> p.lastApplied == x.commitIndex)
        case Reading => |p.delivered| == p.lastApplied
        case Sending(idx, upto) =>
          |p.delivered| == p.lastApplied && idx == p.lastApplied + 1 && idx <= upto <= x.commitIndex
          && (!p.signal ==> upto == x.commitIndex)
        case Recording(idx, upto) =>
          |p.delivered| == p.lastApplied + 1 && idx == p.lastApplied + 1 && idx <= upto <= x.commitIndex
          && (!p.signal ==> upto == x.commitIndex))
  }

  ghost predicate NodeOk(ids: set<NodeId>, h: History, n: NodeId, x: NodeState)
  {
    LogOk(h, x) && RoleOk(h, n, x) && TallyOk(ids, h, n, x) && VoterOk(h, n, x) && AckerOk(h, n, x)
    && CommitOk(h, n, x) && LeaderOk(ids, h, n, x) && ApplyOk(x)
  }

  // ---------- one message against the history ----------

  ghost predicate VoteArgsOk(ids: set<NodeId>, h: History, a: VoteArgs)
  {
    && a.candidate in ids && (a.candidate, a.term) in h.campaigns
    && var c := h.campaigns[(a.candidate, a.term)];
       a.lastIndex == LastIndex(c) && a.lastTerm == LastTerm(c)
  }

  ghost predicate AppendArgsOk(ids: set<NodeId>, h: History, a: AppendArgs)
  {
    && a.term in h.reigns
    && var r := h.reigns[a.term];
       && a.leader == r.leader && a.to in ids && a.to != a.leader
       && a.prevIndex + |a.entries| <= |r.log|
       && a.entries == r.log[a.prevIndex..a.prevIndex + |a.entries|]
       && (a.prevIndex > 0 ==> a.prevTerm == r.log[a.prevIndex - 1].term)
       && a.leaderCommit <= a.prevIndex + |a.entries|
       && Committed(h, r.log[..a.leaderCommit], a.term)
  }

  ghost predicate MessageOk(ids: set<NodeId>, h: History, m: Message)
  {
    match m
    case RequestVote(a) => VoteArgsOk(ids, h, a)
    case VoteReply(a, from, term, granted) => granted ==> from in ids && HasBallot(h, from, a.term, a.candidate)
    case Append(a) => AppendArgsOk(ids, h, a)
    case AppendReply(a, term, success) =>
      AppendArgsOk(ids, h, a) && (success ==> HasAck(h, a.to, a.term, a.prevIndex + |a.entries|))
  }

  ghost predicate Inv(s: Net, h: History)
  {
    && WellFormed(s)
    && HistoryOk(s.ids, h)
    && (forall n :: n in s.ids ==> NodeOk(s.ids, h, n, s.nodes[n]))
    && (forall m :: m in s.sent ==> MessageOk(s.ids, h, m))
  }

  // ---------- growth ----------

  /** What a later history still says. */
  ghost predicate Grows(h: History, h': History)
  {
    && (forall t :: t in h.reigns ==>
          && t in h'.reigns
          && h'.reigns[t].leader == h.reigns[t].leader && h'.reigns[t].quorum == h.reigns[t].quorum
          && h'.reigns[t].start == h.reigns[t].start && h.reigns[t].log <= h'.reigns[t].log)
    && (forall c :: c in h.campaigns ==> c in h'.campaigns && h'.campaigns[c] == h.campaigns[c])
    && h.ballots <= h'.ballots && h.acks <= h'.acks && h.commits <= h'.commits
    && (forall n :: At(h.known, n) <= At(h'.known, n))
  }
}
