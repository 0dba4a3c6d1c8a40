/** One Raft replica (raft/raft.go): its fields and, for every critical section under r.mu,
    the function from the old fields and the message to the new fields and the reply. */
module RaftNode {
  import opened Prelude
  import opened RaftLog

  type NodeId = nat

  datatype Role = Follower | Candidate | Leader

  /** The loop that hands committed entries to the apply channel (applyLoop, applyCommitted):
      waiting on the one-slot commit channel, about to read commitIndex, about to send entry
      `idx`, or about to record `idx` as applied. */
  datatype Applier =
    | Idle
    | Reading
    | Sending(idx: nat, upto: nat)
    | Recording(idx: nat, upto: nat)

  datatype ApplyState = ApplyState(
    signal: bool,          // the commit channel holds a token
    applier: Applier,
    lastApplied: nat,
    delivered: Entries)    // what this process has put on the apply channel

  /** Calls of Propose in this process, each by its entry: those waiting on their channel, and those
      that were sent a nil error. A waiting call is found by its index alone. */
  datatype Proposals = Proposals(waiting: Entries, answered: Entries)

  datatype NodeState = NodeState(
    currentTerm: nat,
    votedFor: Option<NodeId>,
    log: Entries,
    role: Role,
    leaderId: Option<NodeId>,
    commitIndex: nat,
    nextIndex: map<NodeId, nat>,
    matchIndex: map<NodeId, nat>,
    tally: map<nat, set<NodeId>>,   // votes counted by the elections this process started
    apply: ApplyState,
    proposals: Proposals)

  datatype VoteArgs = VoteArgs(term: nat, candidate: NodeId, lastIndex: nat, lastTerm: nat)

  datatype AppendArgs = AppendArgs(
    term: nat, leader: NodeId, to: NodeId, prevIndex: nat, prevTerm: nat,
    entries: Entries, leaderCommit: nat)

  const IdleApply := ApplyState(false, Idle, 0, [])

  const FreshNode := NodeState(0, None, [], Follower, None, 0, map[], map[], map[], IdleApply, Proposals([], []))

  /** Reading an absent key of a Go map gives zero. */
  function At(m: map<NodeId, nat>, p: NodeId): (r: nat)
  {
    if p in m then m[p] else 0
  }

  function Majority(total: nat): (r: nat)
  {
    total / 2 + 1
  }

  // ---------- role changes ----------

  function BecomeFollower(x: NodeState, term: nat, leader: Option<NodeId>): (r: NodeState)
  {
    x.(role := Follower,
       currentTerm := term,
       votedFor := None,
       leaderId := if leader.Some? then leader else x.leaderId)
  }

  /** startElection, up to the sending of the vote requests. */
  function StartElection(x: NodeState, self: NodeId): (r: NodeState)
  {
    x.(role := Candidate,
       currentTerm := x.currentTerm + 1,
       votedFor := Some(self),
       leaderId := None,
       tally := x.tally[x.currentTerm + 1 := {self}])
  }

  function VoteRequest(x: NodeState, self: NodeId): (r: VoteArgs)
  {
    VoteArgs(x.currentTerm, self, LastIndex(x.log), LastTerm(x.log))
  }

  function InitialNext(self: NodeId, ids: set<NodeId>, lastIdx: nat): (r: map<NodeId, nat>)
  {
    map p | p in ids && p != self :: lastIdx + 1
  }

  function InitialMatch(self: NodeId, ids: set<NodeId>, lastIdx: nat): (r: map<NodeId, nat>)
  {
    map p | p in ids :: if p == self then lastIdx else 0
  }

  /** becomeLeaderLocked. */
  function BecomeLeader(x: NodeState, self: NodeId, ids: set<NodeId>): (r: NodeState)
  {
    x.(role := Leader,
       leaderId := Some(self),
       nextIndex := InitialNext(self, ids, LastIndex(x.log)),
       matchIndex := InitialMatch(self, ids, LastIndex(x.log)))
  }

  /** NewRaft after a stop: the term, the vote and the log were persisted, the rest is lost. */
  function Restarted(x: NodeState): (r: NodeState)
  {
    FreshNode.(currentTerm := x.currentTerm, votedFor := x.votedFor, log := x.log)
  }

  // ---------- voting ----------

  predicate UpToDate(lastTerm: nat, lastIndex: nat, log: Entries)
  {
    lastTerm > LastTerm(log) || (lastTerm == LastTerm(log) && lastIndex >= LastIndex(log))
  }

  /** handleRequestVote: the new fields, the term in the reply and whether the vote was granted. */
  function HandleVoteRequest(x: NodeState, a: VoteArgs): (r: (NodeState, nat, bool))
  {
    if a.term < x.currentTerm then (x, x.currentTerm, false)
    else
      var y := if a.term > x.currentTerm then BecomeFollower(x, a.term, None) else x;
      if y.votedFor.Some? && y.votedFor.value != a.candidate then (y, y.currentTerm, false)
      else if !UpToDate(a.lastTerm, a.lastIndex, y.log) then (y, y.currentTerm, false)
      else (y.(votedFor := Some(a.candidate)), y.currentTerm, true)
  }

  /** The term check of a vote reply (and of an append reply). */
  function ObserveTerm(x: NodeState, term: nat): (r: NodeState)
  {
    if term > x.currentTerm then BecomeFollower(x, term, None) else x
  }

  /** votes++ for a granted reply to the election of `term`. */
  function CountVote(x: NodeState, term: nat, voter: NodeId): (r: NodeState)
  {
    if term in x.tally then x.(tally := x.tally[term := x.tally[term] + {voter}]) else x
  }

  // ---------- replication ----------

  /** Propose: append at the leader. */
  function ProposeEntry(x: NodeState, self: NodeId, cmdType: Byte, data: Bytes): (r: NodeState)
  {
    var e := LogEntry(x.currentTerm, LastIndex(x.log) + 1, cmdType, data);
    x.(log := x.log + [e], matchIndex := x.matchIndex[self := e.index],
       proposals := Proposals(x.proposals.waiting + [e], x.proposals.answered))
  }

  /** replicateTo, up to the sending of the request. */
  function AppendRequest(x: NodeState, self: NodeId, peer: NodeId): (r: AppendArgs)
  {
    var next := At(x.nextIndex, peer);
    var prevIndex := if next > 1 then next - 1 else 0;
    var prev := EntryAt(x.log, prevIndex);
    AppendArgs(x.currentTerm, self, peer, prevIndex,
               if prev.Some? then prev.value.term else 0,
               EntriesFrom(x.log, next), x.commitIndex)
  }

  /** The append loop of handleAppendEntries from entry `i` on: skip entries that are already
      there, truncate at the first conflict, append from the first missing one. */
  function AppendLoop(log: Entries, es: Entries, i: nat): (r: Entries)
    requires i <= |es|
    decreases |es| - i
  {
    if i == |es| then log
    else
      var existing := EntryAt(log, es[i].index);
      if existing.Some? && existing.value.term != es[i].term then
        TruncatedFrom(log, es[i].index) + es[i..]
      else if existing.None? then log + es[i..]
      else AppendLoop(log, es, i + 1)
  }

  /** handleAppendEntries: the new fields, the term in the reply and whether it succeeded. */
  function HandleAppend(x: NodeState, a: AppendArgs): (r: (NodeState, nat, bool))
  {
    if a.term < x.currentTerm then (x, x.currentTerm, false)
    else
      var y := if a.term > x.currentTerm || x.role != Follower
               then BecomeFollower(x, a.term, Some(a.leader))
               else x.(leaderId := Some(a.leader));
      var prev := EntryAt(y.log, a.prevIndex);
      if a.prevIndex > 0 && prev.None? then (y, y.currentTerm, false)
      else if a.prevIndex > 0 && prev.value.term != a.prevTerm then
        (y.(log := TruncatedFrom(y.log, a.prevIndex)), y.currentTerm, false)
      else
        var z := y.(log := AppendLoop(y.log, a.entries, 0));
        (FollowCommit(z, a.leaderCommit), z.currentTerm, true)
  }

  /** The follower's commit index: the leader's, capped by the follower's own last index. */
  function FollowCommit(x: NodeState, leaderCommit: nat): (r: NodeState)
  {
    if leaderCommit > x.commitIndex
    then x.(commitIndex := Min(leaderCommit, LastIndex(x.log)), apply := x.apply.(signal := true))
    else x
  }

  // ---------- commitment ----------

  /** The peers known to hold index n. */
  function Holders(x: NodeState, self: NodeId, ids: set<NodeId>, n: nat): (r: set<NodeId>)
  {
    set p | p in ids && p != self && At(x.matchIndex, p) >= n
  }

  predicate Commitable(x: NodeState, self: NodeId, ids: set<NodeId>, n: nat)
  {
    var e := EntryAt(x.log, n);
    e.Some? && e.value.term == x.currentTerm && 1 + |Holders(x, self, ids, n)| > |ids| / 2
  }

  /** The downward search of advanceCommitIndexLocked from n. */
  function Advance(x: NodeState, self: NodeId, ids: set<NodeId>, n: nat): (r: nat)
    ensures r == x.commitIndex || (x.commitIndex < r <= n && Commitable(x, self, ids, r))
    ensures forall k :: r < k <= n ==> !Commitable(x, self, ids, k)
  {
    if n <= x.commitIndex then x.commitIndex
    else if Commitable(x, self, ids, n) then n
    else Advance(x, self, ids, n - 1)
  }

  /** The proposals still waiting once the commit index is c, in order. */
  function StillWaiting(ps: Entries, c: nat): (r: Entries)
    ensures forall p :: p in r <==> p in ps && p.index > c
  {
    if ps == [] then []
    else
      var n := |ps| - 1;
      assert ps == ps[..n] + [ps[n]];
      StillWaiting(ps[..n], c) + if ps[n].index <= c then [] else [ps[n]]
  }

  /** Those answered then. */
  function AnsweredBy(ps: Entries, c: nat): (r: Entries)
    ensures forall p :: p in r <==> p in ps && p.index <= c
  {
    if ps == [] then []
    else
      var n := |ps| - 1;
      assert ps == ps[..n] + [ps[n]];
      AnsweredBy(ps[..n], c) + if ps[n].index <= c then [ps[n]] else []
  }

  /** resolveProposalsLocked. */
  function Resolved(ps: Proposals, c: nat): (r: Proposals)
  {
    Proposals(StillWaiting(ps.waiting, c), ps.answered + AnsweredBy(ps.waiting, c))
  }

  function AdvanceCommit(x: NodeState, self: NodeId, ids: set<NodeId>): (r: NodeState)
  {
    var c := Advance(x, self, ids, LastIndex(x.log));
    if c > x.commitIndex
    then x.(commitIndex := c, apply := x.apply.(signal := true), proposals := Resolved(x.proposals, c))
    else x
  }

  /** The reply half of replicateTo, for the request `a` its closure captured. */
  function HandleAppendReply(x: NodeState, self: NodeId, ids: set<NodeId>,
                             a: AppendArgs, term: nat, success: bool): (r: NodeState)
  {
    if term > x.currentTerm then BecomeFollower(x, term, None)
    else if x.role != Leader || x.currentTerm != a.term then x
    else if success then AdvanceCommit(Acknowledged(x, a), self, ids)
    else if At(x.nextIndex, a.to) > 1 then
      x.(nextIndex := x.nextIndex[a.to := At(x.nextIndex, a.to) - 1])
    else x
  }

  function Acknowledged(x: NodeState, a: AppendArgs): (r: NodeState)
  {
    if |a.entries| > 0 then
      x.(nextIndex := x.nextIndex[a.to := LastIndex(a.entries) + 1],
         matchIndex := x.matchIndex[a.to := LastIndex(a.entries)])
    else x
  }

  // ---------- applying ----------

  /** applyLoop takes the token. */
  function ApplyWake(p: ApplyState): (r: ApplyState)
  {
    p.(signal := false, applier := Reading)
  }

  /** applyCommitted reads commitIndex and lastApplied under the lock. */
  function ApplyRead(p: ApplyState, commitIndex: nat): (r: ApplyState)
  {
    p.(applier := if p.lastApplied + 1 <= commitIndex then Sending(p.lastApplied + 1, commitIndex) else Idle)
  }

  /** The entry goes on the channel; a missing entry ends the loop. */
  function ApplySend(p: ApplyState, log: Entries): (r: ApplyState)
    requires p.applier.Sending?
  {
    var e := EntryAt(log, p.applier.idx);
    if e.None? then p.(applier := Idle)
    else p.(applier := Recording(p.applier.idx, p.applier.upto), delivered := p.delivered + [e.value])
  }

  /** lastApplied is set, then the loop goes on or ends. */
  function ApplyRecord(p: ApplyState): (r: ApplyState)
    requires p.applier.Recording?
  {
    var idx, upto := p.applier.idx, p.applier.upto;
    p.(lastApplied := idx,
       applier := if idx + 1 <= upto then Sending(idx + 1, upto) else Idle)
  }
}
