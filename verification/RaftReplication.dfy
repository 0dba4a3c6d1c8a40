/** Replication: proposing, sending, accepting and acknowledging entries keep the invariant. */
module RaftReplication {
  import opened Prelude
  import opened RaftLog
  import opened RaftNode
  import opened RaftNetwork
  import opened RaftHistory
  import opened RaftLogMatching
  import opened RaftCompleteness
  import opened RaftGrowth
  import opened RaftSteps
  import opened RaftElections

  lemma {:induction false} CommittedPart(h: History, p: Entries, q: Entries, t: nat)
    requires Committed(h, p, t) && q <= p
    ensures Committed(h, q, t)
  {
    if |q| > 0 {
      var c :| c in h.commits && c.term <= t && c.term in h.reigns && c.index <= |h.reigns[c.term].log|
        && p <= h.reigns[c.term].log[..c.index];
      assert q <= h.reigns[c.term].log[..c.index];
    }
  }

  // ---------- proposing ----------

  ghost function Extended(h: History, t: nat, log: Entries): (r: History)
    requires t in h.reigns
  {
    h.(reigns := h.reigns[t := h.reigns[t].(log := log)])
  }

  lemma {:induction false} ExtendedGrows(h: History, n: NodeId, t: nat, log: Entries)
    requires t in h.reigns && h.reigns[t].leader == n && h.reigns[t].log <= log
    ensures Grows(h, Extended(h, t, log))
    ensures forall v :: v != n ==> NotBy(h, Extended(h, t, log), v)
  {
  }

  lemma {:induction false} ExtendedReigns(h: History, n: NodeId, t: nat, e: LogEntry)
    requires ReignsOk(h) && t in h.reigns && h.reigns[t].leader == n
    requires e.term == t && e.index == |h.reigns[t].log| + 1
    ensures ReignsOk(Extended(h, t, h.reigns[t].log + [e]))
  {
    var r := h.reigns[t].log;
    var h' := Extended(h, t, r + [e]);
    ExtendedGrows(h, n, t, r + [e]);
    assert ReignLogOk(h, t);
    ExtendedReign(h, t, e);
    OldReigns(h, h', t);
  }

  lemma {:induction false} ExtendedReign(h: History, t: nat, e: LogEntry)
    requires t in h.reigns && ReignLogOk(h, t)
    requires e.term == t && e.index == |h.reigns[t].log| + 1
    ensures ReignLogOk(Extended(h, t, h.reigns[t].log + [e]), t)
  {
    var r := h.reigns[t].log;
    var r' := r + [e];
    var h' := Extended(h, t, r');
    forall i | 0 <= i < |r'|
      ensures r'[i].term in h'.reigns && r'[..i + 1] <= h'.reigns[r'[i].term].log
    {
      if i < |r| {
        assert r'[i] == r[i];
        assert r'[..i + 1] == r[..i + 1];
        assert r[..i + 1] <= h.reigns[r[i].term].log;
      }
    }
  }

  lemma {:induction false} StepPropose(s: Net, h: History, step: Step)
    requires Inv(s, h) && Enabled(s, step) && step.Propose?
    ensures Inv(Do(s, step), After(s, h, step)) && Grows(h, After(s, h, step))
  {
    hide MessageOk;
    hide HistoryOk;
    hide NodeOk;
    var n := step.n;
    var x := s.nodes[n];
    var t := x.currentTerm;
    var y := ProposeEntry(x, n, step.cmdType, step.data);
    assert NodeOk(s.ids, h, n, x);
    LeaderFacts(s.ids, h, n, x);
    var h' := Extended(h, t, y.log);
    ExtendedGrows(h, n, t, y.log);
    ProposeHistory(s.ids, h, n, t, y.log[|x.log|]);
    ProposeNode(s.ids, h, n, x, y);
    Assemble(s, h, n, y, {}, h');
  }

  lemma {:induction false} LeaderFacts(ids: set<NodeId>, h: History, n: NodeId, x: NodeState)
    requires HistoryOk(ids, h) && NodeOk(ids, h, n, x) && x.role == Leader
    ensures x.currentTerm in h.reigns && h.reigns[x.currentTerm].leader == n
    ensures h.reigns[x.currentTerm].log == x.log
    ensures Indexed(x.log) && LastIndex(x.log) == |x.log|
  {
    hide ElectionsOk;
    hide CampaignsOk;
    hide BallotsOk;
    hide AcksOk;
    hide CommitsOk;
    hide VoterOk;
    hide AckerOk;
    hide CommitOk;
    hide ApplyOk;
    GenuineIndexed(h, x.log);
  }

  lemma {:induction false} ProposeHistory(ids: set<NodeId>, h: History, n: NodeId, t: nat, e: LogEntry)
    requires HistoryOk(ids, h) && t in h.reigns && h.reigns[t].leader == n
    requires e.term == t && e.index == |h.reigns[t].log| + 1
    ensures HistoryOk(ids, Extended(h, t, h.reigns[t].log + [e]))
  {
    hide ReignsOk;
    hide ElectionsOk;
    hide CampaignsOk;
    hide BallotsOk;
    hide AcksOk;
    hide CommitsOk;
    var h' := Extended(h, t, h.reigns[t].log + [e]);
    ExtendedReigns(h, n, t, e);
    ExtendedGrows(h, n, t, h.reigns[t].log + [e]);
    ElectionsGrow(ids, h, h');
    CampaignsGrow(h, h');
    BallotsGrow(h, h');
    AcksGrow(h, h');
    CommitsGrow(ids, h, h');
  }

  lemma {:induction false} ProposeNode(ids: set<NodeId>, h: History, n: NodeId, x: NodeState, y: NodeState)
    requires NodeOk(ids, h, n, x) && x.role == Leader
    requires x.log < y.log && LastTerm(y.log) == x.currentTerm
    requires y == x.(log := y.log, matchIndex := y.matchIndex, proposals := y.proposals)
    requires forall p :: p != n ==> At(y.matchIndex, p) == At(x.matchIndex, p)
    requires x.currentTerm in h.reigns && h.reigns[x.currentTerm].leader == n && h.reigns[x.currentTerm].log == x.log
    ensures NodeOk(ids, Extended(h, x.currentTerm, y.log), n, y)
  {
    hide AckerOk;
    hide VoterOk;
    hide TallyOk;
    hide LeaderOk;
    hide Committed;
    hide ApplyOk;
    var h' := Extended(h, x.currentTerm, y.log);
    ExtendedGrows(h, n, x.currentTerm, y.log);
    var k := At(h.known, n);
    assert y.log[..k] == x.log[..k];
    CommittedGrows(h, h', x.log[..k], x.currentTerm, x.currentTerm);
    TallyGrows(ids, h, h', n, x);
    TallyFields(ids, h', n, x, y);
    ProposeVoter(h, h', n, x, y);
    AckerMoves(h, h', n, x, y);
    ProposeLeader(ids, h, h', n, x, y);
    ApplyLonger(x, y);
  }

  lemma {:induction false} ProposeVoter(h: History, h': History, n: NodeId, x: NodeState, y: NodeState)
    requires VoterOk(h, n, x) && Grows(h, h') && h'.ballots == h.ballots && h'.reigns.Keys == h.reigns.Keys
    requires y.currentTerm == x.currentTerm && y.votedFor == x.votedFor && y.role == x.role
    ensures VoterOk(h', n, y)
  {
    forall t | t in h'.reigns && n in h'.reigns[t].quorum
      ensures QuorumMemberOk(h', n, y, t)
    {
      assert QuorumMemberOk(h, n, x, t);
    }
  }

  lemma {:induction false} ProposeLeader(ids: set<NodeId>, h: History, h': History, n: NodeId, x: NodeState,
                                         y: NodeState)
    requires LeaderOk(ids, h, n, x) && Grows(h, h')
    requires y.role == x.role && y.currentTerm == x.currentTerm && y.nextIndex == x.nextIndex && |x.log| <= |y.log|
    requires forall p :: p != n ==> At(y.matchIndex, p) == At(x.matchIndex, p)
    ensures LeaderOk(ids, h', n, y)
  {
    forall p | p in ids && p != n && y.role == Leader
      ensures PeerOk(h', y, p)
    {
      assert PeerOk(h, x, p);
    }
  }

  lemma {:induction false} ApplyLonger(x: NodeState, y: NodeState)
    requires ApplyOk(x) && x.commitIndex <= |y.log| && y.log[..x.commitIndex] == x.log[..x.commitIndex]
    requires y.commitIndex == x.commitIndex && y.apply == x.apply
    ensures ApplyOk(y)
  {
    var d := |x.apply.delivered|;
    assert x.log[..d] == x.log[..x.commitIndex][..d];
    assert y.log[..d] == y.log[..x.commitIndex][..d];
  }

  // ---------- sending ----------

  lemma {:induction false} StepReplicate(s: Net, h: History, step: Step)
    requires Inv(s, h) && Enabled(s, step) && step.Replicate?
    ensures Inv(Do(s, step), After(s, h, step)) && Grows(h, After(s, h, step))
  {
    hide HistoryOk;
    hide NodeOk;
    var n := step.n;
    var x := s.nodes[n];
    assert NodeOk(s.ids, h, n, x);
    RequestOk(s.ids, h, n, x, step.peer);
    AssembleSame(s, h, n, x, {Append(AppendRequest(x, n, step.peer))});
  }

  /** What a leader sends: a real predecessor, its whole log from there on, and a commit index
      that does not reach past what is sent. */
  lemma {:induction false} RequestOk(ids: set<NodeId>, h: History, n: NodeId, x: NodeState, peer: NodeId)
    requires HistoryOk(ids, h) && NodeOk(ids, h, n, x) && x.role == Leader && peer in ids && peer != n
    ensures AppendArgsOk(ids, h, AppendRequest(x, n, peer))
    ensures var a := AppendRequest(x, n, peer); a.prevIndex + |a.entries| == |x.log|
  {
    hide HistoryOk;
    hide VoterOk;
    hide AckerOk;
    hide ApplyOk;
    hide TallyOk;
    hide LogOk;
    hide EntryAt;
    hide EntriesFrom;
    hide Committed;
    LeaderFacts(ids, h, n, x);
    assert PeerOk(h, x, peer);
    var next := At(x.nextIndex, peer);
    var a := AppendRequest(x, n, peer);
    IndexedAccess(x.log, next);
    IndexedAccess(x.log, a.prevIndex);
    CommittedPart(h, x.log[..At(h.known, n)], x.log[..x.commitIndex], x.currentTerm);
  }

  // ---------- accepting ----------

  /** A follower of the current leader replaces its log, keeping all it shared with the leader. */
  lemma {:induction false} FollowerLog(ids: set<NodeId>, h: History, n: NodeId, y: NodeState, log': Entries)
    requires HistoryOk(ids, h) && NodeOk(ids, h, n, y) && y.role == Follower
    requires y.currentTerm in h.reigns && Retains(y.log, h.reigns[y.currentTerm].log, log')
    requires Genuine(h, log') && LastTerm(log') <= y.currentTerm
    ensures NodeOk(ids, h, n, y.(log := log'))
    ensures y.log[..At(h.known, n)] <= log'
  {
    hide HistoryOk;
    hide AckerOk;
    hide VoterOk;
    hide TallyOk;
    hide Genuine;
    hide Committed;
    hide ApplyOk;
    hide Retains;
    var z := y.(log := log');
    var k := At(h.known, n);
    var p := y.log[..k];
    CommittedInReign(ids, h, p, y.currentTerm, y.currentTerm);
    RetainsPrefix(y.log, h.reigns[y.currentTerm].log, log', p);
    assert log'[..k] == p;
    assert log'[..y.commitIndex] == p[..y.commitIndex] == y.log[..y.commitIndex];
    SameVoter(h, n, y, z);
    TallyFields(ids, h, n, y, z);
    FollowerAcks(ids, h, n, y, log');
    ApplyLonger(y, z);
  }

  lemma {:induction false} FollowerAcks(ids: set<NodeId>, h: History, n: NodeId, y: NodeState, log': Entries)
    requires HistoryOk(ids, h) && AckerOk(h, n, y)
    requires y.currentTerm in h.reigns && Retains(y.log, h.reigns[y.currentTerm].log, log')
    ensures AckerOk(h, n, y.(log := log'))
  {
    hide ElectionsOk;
    hide CampaignsOk;
    hide BallotsOk;
    hide AcksOk;
    hide CommitsOk;
    hide Retains;
    var t := y.currentTerm;
    var lead := h.reigns[t].log;
    assert h.reigns[t].start <= lead by { assert ReignLogOk(h, t); }
    hide ReignsOk;
    forall a | a in h.acks && a.voter == n
      ensures a.term <= t && AckOk(h, a) && Kept(h, a, log', t)
    {
      assert Kept(h, a, y.log, t);
      if Acked(h, a) <= y.log {
        if a.term == t || Acked(h, a) <= h.reigns[t].start {
          assert Acked(h, a) <= lead;
          RetainsPrefix(y.log, lead, log', Acked(h, a));
        } else {
          assert LostBy(h, a, t);
        }
      }
    }
  }

  lemma {:induction false} StepAppend(s: Net, h: History, step: Step)
    requires Inv(s, h) && Enabled(s, step) && step.OnAppend?
    ensures Inv(Do(s, step), After(s, h, step)) && Grows(h, After(s, h, step))
  {
    hide HistoryOk;
    hide NodeOk;
    hide AppendLoop;
    hide EntryAt;
    hide TruncatedFrom;
    var n := step.n;
    var x := s.nodes[n];
    var a := step.args;
    assert NodeOk(s.ids, h, n, x);
    assert MessageOk(s.ids, h, Append(a));
    var (z, term, success) := HandleAppend(x, a);
    if a.term < x.currentTerm {
      AssembleSame(s, h, n, z, {AppendReply(a, term, success)});
    } else {
      var y := Heard(x, a);
      HeardOk(s.ids, h, n, x, a);
      AcceptStep(s, h, n, y, a, term);
    }
  }

  /** The node after it has recognised the sender as leader of the term. */
  ghost function Heard(x: NodeState, a: AppendArgs): (r: NodeState)
  {
    if a.term > x.currentTerm || x.role != Follower
    then BecomeFollower(x, a.term, Some(a.leader))
    else x.(leaderId := Some(a.leader))
  }

  lemma {:induction false} HeardOk(ids: set<NodeId>, h: History, n: NodeId, x: NodeState, a: AppendArgs)
    requires NodeOk(ids, h, n, x) && AppendArgsOk(ids, h, a) && a.to == n && a.term >= x.currentTerm
    ensures var y := Heard(x, a);
            NodeOk(ids, h, n, y) && y.role == Follower && y.currentTerm == a.term
            && y.log == x.log && y.commitIndex == x.commitIndex && y.apply == x.apply
  {
    var y := Heard(x, a);
    if a.term > x.currentTerm || x.role != Follower {
      hide NodeOk;
      StepDown(ids, h, n, x, a.term, Some(a.leader));
    } else {
      hide AckerOk;
      hide VoterOk;
      hide TallyOk;
      hide Genuine;
      hide Committed;
      hide ApplyOk;
      SameVoter(h, n, x, y);
      TallyFields(ids, h, n, x, y);
      AckerLater(h, n, x, y);
      ApplyFields(x, y);
    }
  }

  lemma {:induction false} MissingStep(s: Net, h: History, n: NodeId, y: NodeState, a: AppendArgs, term: nat)
    requires Inv(s, h) && n in s.ids && NodeOk(s.ids, h, n, y) && AppendArgsOk(s.ids, h, a) && a.to == n
    ensures Inv(s.(nodes := s.nodes[n := y], sent := s.sent + {AppendReply(a, term, false)}), h)
  {
    hide NodeOk;
    hide HistoryOk;
    hide AppendArgsOk;
    assert MessageOk(s.ids, h, AppendReply(a, term, false));
    hide MessageOk;
    AssembleSame(s, h, n, y, {AppendReply(a, term, false)});
  }

  lemma {:induction false} ConflictStep(s: Net, h: History, n: NodeId, y: NodeState, a: AppendArgs, term: nat)
    requires Inv(s, h) && n in s.ids && NodeOk(s.ids, h, n, y) && AppendArgsOk(s.ids, h, a) && a.to == n
    requires y.role == Follower && y.currentTerm == a.term
    requires 0 < a.prevIndex <= |y.log| && y.log[a.prevIndex - 1].term != a.prevTerm
    ensures Inv(s.(nodes := s.nodes[n := y.(log := y.log[..a.prevIndex - 1])],
                   sent := s.sent + {AppendReply(a, term, false)}), h)
  {
    hide Inv;
    hide NodeOk;
    hide HistoryOk;
    hide AppendArgsOk;
    InvHistory(s, h);
    ConflictNode(s.ids, h, n, y, a);
    MissingStep(s, h, n, y.(log := y.log[..a.prevIndex - 1]), a, term);
  }

  lemma {:induction false} InvHistory(s: Net, h: History)
    requires Inv(s, h)
    ensures HistoryOk(s.ids, h)
  {
    hide HistoryOk;
  }

  /** The three ways the handler goes on from there. */
  lemma {:induction false} AcceptStep(s: Net, h: History, n: NodeId, y: NodeState, a: AppendArgs, term: nat)
    requires Inv(s, h) && n in s.ids && NodeOk(s.ids, h, n, y) && AppendArgsOk(s.ids, h, a) && a.to == n
    requires y.role == Follower && y.currentTerm == a.term
    ensures forall c :: Grows(h, Accepted(h, n, a, c))
    ensures Grows(h, h)
    ensures var prev := EntryAt(y.log, a.prevIndex);
            if a.prevIndex > 0 && prev.None? then
              Inv(s.(nodes := s.nodes[n := y], sent := s.sent + {AppendReply(a, term, false)}), h)
            else if a.prevIndex > 0 && prev.value.term != a.prevTerm then
              Inv(s.(nodes := s.nodes[n := y.(log := TruncatedFrom(y.log, a.prevIndex))],
                     sent := s.sent + {AppendReply(a, term, false)}), h)
            else
              var z := FollowCommit(y.(log := AppendLoop(y.log, a.entries, 0)), a.leaderCommit);
              Inv(s.(nodes := s.nodes[n := z], sent := s.sent + {AppendReply(a, term, true)}),
                  Accepted(h, n, a, z.commitIndex))
  {
    hide Inv;
    hide NodeOk;
    hide HistoryOk;
    hide AppendArgsOk;
    hide AppendLoop;
    hide EntryAt;
    hide TruncatedFrom;
    hide FollowCommit;
    GrowsSelf(h, n);
    forall c
      ensures Grows(h, Accepted(h, n, a, c))
    {
      AcceptedGrows(h, n, a, c);
    }
    hide Grows;
    hide Accepted;
    InvHistory(s, h);
    FollowerFacts(s.ids, h, n, y);
    IndexedAccess(y.log, a.prevIndex);
    if a.prevIndex > |y.log| {
      MissingStep(s, h, n, y, a, term);
    } else if a.prevIndex > 0 && y.log[a.prevIndex - 1].term != a.prevTerm {
      ConflictStep(s, h, n, y, a, term);
    } else {
      AcceptedStep(s, h, n, y, a, term);
    }
  }

  lemma {:induction false} FollowerFacts(ids: set<NodeId>, h: History, n: NodeId, y: NodeState)
    requires HistoryOk(ids, h) && NodeOk(ids, h, n, y)
    ensures ReignsOk(h) && Genuine(h, y.log) && LastTerm(y.log) <= y.currentTerm
    ensures Indexed(y.log) && LastIndex(y.log) == |y.log|
  {
    GenuineIndexed(h, y.log);
  }

  lemma {:induction false} ConflictNode(ids: set<NodeId>, h: History, n: NodeId, y: NodeState, a: AppendArgs)
    requires HistoryOk(ids, h) && NodeOk(ids, h, n, y) && AppendArgsOk(ids, h, a)
    requires y.role == Follower && y.currentTerm == a.term
    requires 1 <= a.prevIndex <= |y.log| && y.log[a.prevIndex - 1].term != a.prevTerm
    ensures NodeOk(ids, h, n, y.(log := y.log[..a.prevIndex - 1]))
  {
    hide HistoryOk;
    hide NodeOk;
    hide Retains;
    hide Committed;
    FollowerFacts(ids, h, n, y);
    hide ReignsOk;
    hide Genuine;
    var lead := h.reigns[a.term].log;
    var k := a.prevIndex - 1;
    GenuineTake(h, y.log, k);
    ConflictRetains(y.log, lead, k);
    FollowerLog(ids, h, n, y, y.log[..k]);
  }

  lemma {:induction false} ConflictRetains(log: Entries, lead: Entries, k: nat)
    requires k < |log| && k < |lead| && log[k].term != lead[k].term
    ensures Retains(log, lead, log[..k])
  {
    var r := log[..k];
    forall m | 0 <= m <= |log| && m <= |lead| && log[..m] == lead[..m]
      ensures m <= |r| && r[..m] == log[..m]
    {
      SharedBound(log, lead, m, k);
    }
  }

  ghost function Accepted(h: History, n: NodeId, a: AppendArgs, commit: nat): (r: History)
  {
    h.(acks := h.acks + AcksUpTo(n, a.term, a.prevIndex + |a.entries|),
       known := h.known[n := Max(At(h.known, n), commit)])
  }

  lemma {:induction false} AcceptedGrows(h: History, n: NodeId, a: AppendArgs, commit: nat)
    ensures Grows(h, Accepted(h, n, a, commit))
    ensures forall v :: v != n ==> NotBy(h, Accepted(h, n, a, commit), v)
    ensures HasAck(Accepted(h, n, a, commit), n, a.term, a.prevIndex + |a.entries|)
  {
  }

  lemma {:induction false} AcceptedStep(s: Net, h: History, n: NodeId, y: NodeState, a: AppendArgs, term: nat)
    requires Inv(s, h) && n in s.ids && NodeOk(s.ids, h, n, y) && AppendArgsOk(s.ids, h, a) && a.to == n
    requires y.role == Follower && y.currentTerm == a.term
    requires a.prevIndex <= |y.log| && (a.prevIndex > 0 ==> y.log[a.prevIndex - 1].term == a.prevTerm)
    ensures var z := FollowCommit(y.(log := AppendLoop(y.log, a.entries, 0)), a.leaderCommit);
            Inv(s.(nodes := s.nodes[n := z], sent := s.sent + {AppendReply(a, term, true)}),
                Accepted(h, n, a, z.commitIndex))
  {
    hide NodeOk;
    hide HistoryOk;
    hide AppendLoop;
    hide Grows;
    hide Committed;
    var log' := AppendLoop(y.log, a.entries, 0);
    var w := y.(log := log');
    var z := FollowCommit(w, a.leaderCommit);
    var h' := Accepted(h, n, a, z.commitIndex);
    AcceptedNode(s.ids, h, n, y, a);
    AcceptedHistory(s.ids, h, n, w, a, z.commitIndex);
    AcceptedCommit(s.ids, h, n, w, a);
    AcceptedGrows(h, n, a, z.commitIndex);
    AppendArgsGrow(s.ids, h, h', a);
    Assemble(s, h, n, z, {AppendReply(a, term, true)}, h');
  }

  lemma {:induction false} AcceptedNode(ids: set<NodeId>, h: History, n: NodeId, y: NodeState, a: AppendArgs)
    requires HistoryOk(ids, h) && NodeOk(ids, h, n, y) && AppendArgsOk(ids, h, a)
    requires y.role == Follower && y.currentTerm == a.term
    requires a.prevIndex <= |y.log| && (a.prevIndex > 0 ==> y.log[a.prevIndex - 1].term == a.prevTerm)
    ensures var log' := AppendLoop(y.log, a.entries, 0);
            && NodeOk(ids, h, n, y.(log := log'))
            && h.reigns[a.term].log[..a.prevIndex + |a.entries|] <= log'
  {
    hide HistoryOk;
    hide NodeOk;
    hide AppendLoop;
    hide Committed;
    hide Retains;
    hide Genuine;
    hide ReignsOk;
    FollowerFacts(ids, h, n, y);
    AcceptedLog(ids, h, y, a);
    FollowerLog(ids, h, n, y, AppendLoop(y.log, a.entries, 0));
  }

  /** The log after a successful append. */
  lemma {:induction false} AcceptedLog(ids: set<NodeId>, h: History, y: NodeState, a: AppendArgs)
    requires ReignsOk(h) && Genuine(h, y.log) && AppendArgsOk(ids, h, a)
    requires LastTerm(y.log) <= y.currentTerm == a.term
    requires a.prevIndex <= |y.log| && (a.prevIndex > 0 ==> y.log[a.prevIndex - 1].term == a.prevTerm)
    ensures var lead := h.reigns[a.term].log;
            var log' := AppendLoop(y.log, a.entries, 0);
            && Genuine(h, log') && LastTerm(log') <= a.term
            && lead[..a.prevIndex + |a.entries|] <= log' && Retains(y.log, lead, log')
  {
    hide AppendLoop;
    hide Committed;
    hide Retains;
    hide Genuine;
    hide ReignsOk;
    var lead := h.reigns[a.term].log;
    ReignGenuine(h, a.term);
    if a.prevIndex > 0 {
      AgreeUpTo(h, y.log, lead, a.prevIndex - 1);
    }
    AppendLoopEffect(h, y.log, lead, a.prevIndex, a.entries, 0);
    GenuineTake(h, lead, a.prevIndex + |a.entries|);
  }

  lemma {:induction false} AcceptedHistory(ids: set<NodeId>, h: History, n: NodeId, w: NodeState, a: AppendArgs,
                                           commit: nat)
    requires HistoryOk(ids, h) && NodeOk(ids, h, n, w) && AppendArgsOk(ids, h, a) && w.currentTerm == a.term
    ensures HistoryOk(ids, Accepted(h, n, a, commit))
  {
    hide ReignsOk;
    hide ElectionsOk;
    hide CampaignsOk;
    hide BallotsOk;
    hide AcksOk;
    hide CommitsOk;
    hide AckerOk;
    hide ApplyOk;
    hide Committed;
    hide Genuine;
    hide Grows;
    var h' := Accepted(h, n, a, commit);
    AcceptedGrows(h, n, a, commit);
    SameReigns(h, h');
    ElectionsGrow(ids, h, h');
    CampaignsGrow(h, h');
    BallotsGrow(h, h');
    AcksGrow(h, h');
    CommitsGrow(ids, h, h');
  }

  lemma {:induction false} AcceptedCommit(ids: set<NodeId>, h: History, n: NodeId, w: NodeState, a: AppendArgs)
    requires HistoryOk(ids, h) && NodeOk(ids, h, n, w) && AppendArgsOk(ids, h, a)
    requires w.role == Follower && w.currentTerm == a.term
    requires h.reigns[a.term].log[..a.prevIndex + |a.entries|] <= w.log
    ensures var z := FollowCommit(w, a.leaderCommit);
            NodeOk(ids, Accepted(h, n, a, z.commitIndex), n, z)
  {
    hide HistoryOk;
    hide AckerOk;
    hide VoterOk;
    hide TallyOk;
    hide Genuine;
    hide Committed;
    hide ApplyOk;
    hide ReignsOk;
    hide Grows;
    hide HasAck;
    var z := FollowCommit(w, a.leaderCommit);
    var h' := Accepted(h, n, a, z.commitIndex);
    FollowerFacts(ids, h, n, w);
    AcceptedGrows(h, n, a, z.commitIndex);
    GenuineGrows(h, h', w.log);
    TallyGrows(ids, h, h', n, w);
    TallyFields(ids, h', n, w, z);
    ProposeVoter(h, h', n, w, z);
    AcceptedAcks(h, h', n, w, z, a);
    ApplyRaised(w, z);
    RaisedCommit(ids, h, h', n, w, a);
  }

  lemma {:induction false} RaisedCommit(ids: set<NodeId>, h: History, h': History, n: NodeId, w: NodeState,
                                        a: AppendArgs)
    requires CommitOk(h, n, w) && AppendArgsOk(ids, h, a) && Grows(h, h') && LastIndex(w.log) == |w.log|
    requires w.currentTerm == a.term && h.reigns[a.term].log[..a.prevIndex + |a.entries|] <= w.log
    requires At(h'.known, n) == Max(At(h.known, n), FollowCommit(w, a.leaderCommit).commitIndex)
    ensures CommitOk(h', n, FollowCommit(w, a.leaderCommit))
  {
    hide Committed;
    var lead := h.reigns[a.term].log;
    assert w.log[..a.leaderCommit] == lead[..a.leaderCommit];
    CommittedGrows(h, h', w.log[..At(h.known, n)], w.currentTerm, w.currentTerm);
    CommittedGrows(h, h', lead[..a.leaderCommit], a.term, w.currentTerm);
  }

  lemma {:induction false} AcceptedAcks(h: History, h': History, n: NodeId, w: NodeState, z: NodeState, a: AppendArgs)
    requires AckerOk(h, n, w) && Grows(h, h') && z.log == w.log && z.currentTerm == w.currentTerm == a.term
    requires h'.acks == h.acks + AcksUpTo(n, a.term, a.prevIndex + |a.entries|)
    requires a.term in h.reigns && h'.reigns == h.reigns
    requires a.prevIndex + |a.entries| <= |h.reigns[a.term].log|
    requires h.reigns[a.term].log[..a.prevIndex + |a.entries|] <= w.log
    ensures AckerOk(h', n, z)
  {
    forall b | b in h'.acks && b.voter == n
      ensures b.term <= z.currentTerm && AckOk(h', b) && Kept(h', b, z.log, z.currentTerm)
    {
      if b in h.acks {
        KeptGrows(h, h', b, w.log, z.log, w.currentTerm, z.currentTerm);
      } else {
        assert b in AcksUpTo(n, a.term, a.prevIndex + |a.entries|);
        assert Acked(h', b) <= h.reigns[a.term].log[..a.prevIndex + |a.entries|];
      }
    }
  }

  lemma {:induction false} ApplyRaised(w: NodeState, z: NodeState)
    requires ApplyOk(w) && z.log == w.log && w.commitIndex <= z.commitIndex <= |z.log|
    requires z.apply == w.apply || z.apply == w.apply.(signal := true)
    requires z.commitIndex == w.commitIndex || z.apply.signal
    ensures ApplyOk(z)
  {
  }

  // ---------- acknowledging ----------

  lemma {:induction false} StepAppendReply(s: Net, h: History, step: Step)
    requires Inv(s, h) && Enabled(s, step) && step.OnAppendReply?
    ensures Inv(Do(s, step), After(s, h, step)) && Grows(h, After(s, h, step))
  {
    hide HistoryOk;
    hide NodeOk;
    hide Advance;
    var n := step.n;
    var x := s.nodes[n];
    var a := step.args;
    assert NodeOk(s.ids, h, n, x);
    assert MessageOk(s.ids, h, AppendReply(a, step.term, step.success));
    if step.term > x.currentTerm {
      StepDown(s.ids, h, n, x, step.term, None);
      AssembleSame(s, h, n, BecomeFollower(x, step.term, None), {});
    } else if x.role != Leader || x.currentTerm != a.term {
      AssembleSame(s, h, n, x, {});
    } else if step.success {
      AcknowledgedNode(s.ids, h, n, x, a);
      AdvanceStep(s, h, n, Acknowledged(x, a));
    } else {
      BackedOffNode(s.ids, h, n, x, a.to);
      AssembleSame(s, h, n, BackedOff(x, a.to), {});
    }
  }

  ghost function BackedOff(x: NodeState, p: NodeId): (r: NodeState)
  {
    if At(x.nextIndex, p) > 1 then x.(nextIndex := x.nextIndex[p := At(x.nextIndex, p) - 1]) else x
  }

  lemma {:induction false} LeaderMoves(ids: set<NodeId>, h: History, n: NodeId, x: NodeState, y: NodeState, p: NodeId)
    requires NodeOk(ids, h, n, x) && x.role == Leader
    requires y == x.(nextIndex := y.nextIndex, matchIndex := y.matchIndex)
    requires forall q :: q != p ==>
               At(y.nextIndex, q) == At(x.nextIndex, q) && At(y.matchIndex, q) == At(x.matchIndex, q)
    requires p in ids && p != n ==> PeerOk(h, y, p)
    ensures NodeOk(ids, h, n, y)
  {
    hide AckerOk;
    hide VoterOk;
    hide TallyOk;
    hide Genuine;
    hide Committed;
    hide ApplyOk;
    SameVoter(h, n, x, y);
    TallyFields(ids, h, n, x, y);
    AckerLater(h, n, x, y);
    ApplyFields(x, y);
    forall q | q in ids && q != n
      ensures PeerOk(h, y, q)
    {
      assert PeerOk(h, x, q);
    }
  }

  lemma {:induction false} BackedOffNode(ids: set<NodeId>, h: History, n: NodeId, x: NodeState, p: NodeId)
    requires NodeOk(ids, h, n, x) && x.role == Leader
    ensures NodeOk(ids, h, n, BackedOff(x, p))
  {
    var y := BackedOff(x, p);
    if p in ids && p != n {
      assert PeerOk(h, x, p);
    }
    LeaderMoves(ids, h, n, x, y, p);
  }

  lemma {:induction false} AcknowledgedNode(ids: set<NodeId>, h: History, n: NodeId, x: NodeState, a: AppendArgs)
    requires HistoryOk(ids, h) && NodeOk(ids, h, n, x) && x.role == Leader && x.currentTerm == a.term
    requires AppendArgsOk(ids, h, a) && HasAck(h, a.to, a.term, a.prevIndex + |a.entries|)
    ensures NodeOk(ids, h, n, Acknowledged(x, a))
  {
    hide HistoryOk;
    hide NodeOk;
    var y := Acknowledged(x, a);
    LeaderFacts(ids, h, n, x);
    if |a.entries| > 0 {
      assert a.entries[|a.entries| - 1] == x.log[a.prevIndex + |a.entries| - 1];
      LeaderMoves(ids, h, n, x, y, a.to);
    }
  }

  ghost function CommittedHistory(h: History, n: NodeId, ids: set<NodeId>, y: NodeState, c: nat): (r: History)
  {
    h.(acks := h.acks + AcksUpTo(n, y.currentTerm, c),
       commits := h.commits + {Commit(y.currentTerm, c, {n} + Holders(y, n, ids, c))},
       known := h.known[n := Max(At(h.known, n), c)])
  }

  /** Raising the commit index of a leader to what a majority holds. */
  lemma {:induction false} AdvanceStep(s: Net, h: History, n: NodeId, y: NodeState)
    requires Inv(s, h) && n in s.ids && NodeOk(s.ids, h, n, y) && y.role == Leader
    ensures var z := AdvanceCommit(y, n, s.ids);
            Grows(h, if z.commitIndex > y.commitIndex then CommittedHistory(h, n, s.ids, z, z.commitIndex) else h)
    ensures var z := AdvanceCommit(y, n, s.ids);
            Inv(s.(nodes := s.nodes[n := z], sent := s.sent + {}),
                if z.commitIndex > y.commitIndex then CommittedHistory(h, n, s.ids, z, z.commitIndex) else h)
  {
    hide HistoryOk;
    hide NodeOk;
    hide MessageOk;
    hide Resolved;
    var z := AdvanceCommit(y, n, s.ids);
    var c := z.commitIndex;
    if c > y.commitIndex {
      var h' := CommittedHistory(h, n, s.ids, z, c);
      assert Commitable(y, n, s.ids, c);
      LeaderFacts(s.ids, h, n, y);
      IndexedAccess(y.log, c);
      assert Holders(z, n, s.ids, c) == Holders(y, n, s.ids, c);
      CommittedHistoryGrows(h, n, s.ids, z, c);
      NewCommit(s.ids, h, n, y, z, c);
      AdvanceHistory(s.ids, h, n, y, z, c);
      AdvanceNode(s.ids, h, n, y, z, c);
      Assemble(s, h, n, z, {}, h');
    } else {
      AssembleSame(s, h, n, z, {});
    }
  }

  lemma {:induction false} CommittedHistoryGrows(h: History, n: NodeId, ids: set<NodeId>, z: NodeState, c: nat)
    ensures Grows(h, CommittedHistory(h, n, ids, z, c))
    ensures forall v :: v != n ==> NotBy(h, CommittedHistory(h, n, ids, z, c), v)
    ensures HasAck(CommittedHistory(h, n, ids, z, c), n, z.currentTerm, c)
  {
  }

  /** The commit rests on a quorum: the leader itself and every peer whose matchIndex reaches c. */
  lemma {:induction false} NewCommit(ids: set<NodeId>, h: History, n: NodeId, y: NodeState, z: NodeState, c: nat)
    requires HistoryOk(ids, h) && NodeOk(ids, h, n, y) && y.role == Leader && n in ids
    requires z == y.(commitIndex := c, apply := z.apply, proposals := z.proposals) && 1 <= c <= |y.log|
    requires y.log[c - 1].term == y.currentTerm
    requires 1 + |Holders(z, n, ids, c)| > |ids| / 2
    ensures CommitRecordOk(ids, CommittedHistory(h, n, ids, z, c),
                           Commit(z.currentTerm, c, {n} + Holders(z, n, ids, c)))
  {
    hide HistoryOk;
    hide NodeOk;
    hide IsQuorum;
    hide HasAck;
    hide Grows;
    var h' := CommittedHistory(h, n, ids, z, c);
    var hs := Holders(z, n, ids, c);
    LeaderFacts(ids, h, n, y);
    CommittedHistoryGrows(h, n, ids, z, c);
    WithLeader(ids, n, hs);
    forall v | v in hs
      ensures HasAck(h', v, z.currentTerm, c)
    {
      HolderAck(ids, h, h', n, y, v, c);
    }
  }

  lemma {:induction false} WithLeader(ids: set<NodeId>, n: NodeId, hs: set<NodeId>)
    requires n in ids && n !in hs && hs <= ids && 1 + |hs| > |ids| / 2
    ensures IsQuorum(ids, {n} + hs)
  {
    assert |{n} + hs| == 1 + |hs|;
  }

  lemma {:induction false} HolderAck(ids: set<NodeId>, h: History, h': History, n: NodeId, y: NodeState, v: NodeId,
                                     c: nat)
    requires NodeOk(ids, h, n, y) && y.role == Leader && Grows(h, h') && c >= 1
    requires v in Holders(y, n, ids, c)
    ensures HasAck(h', v, y.currentTerm, c)
  {
    hide AckerOk;
    hide VoterOk;
    hide TallyOk;
    hide Genuine;
    hide Committed;
    hide ApplyOk;
    assert PeerOk(h, y, v);
  }

  lemma {:induction false} AdvanceHistory(ids: set<NodeId>, h: History, n: NodeId, y: NodeState, z: NodeState, c: nat)
    requires HistoryOk(ids, h) && NodeOk(ids, h, n, y) && z.currentTerm == y.currentTerm
    requires CommitRecordOk(ids, CommittedHistory(h, n, ids, z, c),
                            Commit(z.currentTerm, c, {n} + Holders(z, n, ids, c)))
    ensures HistoryOk(ids, CommittedHistory(h, n, ids, z, c))
  {
    hide ReignsOk;
    hide ElectionsOk;
    hide CampaignsOk;
    hide BallotsOk;
    hide AcksOk;
    hide CommitsOk;
    hide AckerOk;
    hide ApplyOk;
    hide Committed;
    hide Genuine;
    hide Grows;
    var h' := CommittedHistory(h, n, ids, z, c);
    CommittedHistoryGrows(h, n, ids, z, c);
    SameReigns(h, h');
    ElectionsGrow(ids, h, h');
    CampaignsGrow(h, h');
    BallotsGrow(h, h');
    AcksGrow(h, h');
    CommitsGrow(ids, h, h');
  }

  lemma {:induction false} AdvanceNode(ids: set<NodeId>, h: History, n: NodeId, y: NodeState, z: NodeState, c: nat)
    requires HistoryOk(ids, h) && NodeOk(ids, h, n, y) && y.role == Leader
    requires z == y.(commitIndex := c, apply := y.apply.(signal := true), proposals := z.proposals)
    requires y.commitIndex < c <= |y.log|
    ensures NodeOk(ids, CommittedHistory(h, n, ids, z, c), n, z)
  {
    hide HistoryOk;
    hide AckerOk;
    hide VoterOk;
    hide TallyOk;
    hide Genuine;
    hide Committed;
    hide ApplyOk;
    var h' := CommittedHistory(h, n, ids, z, c);
    LeaderFacts(ids, h, n, y);
    CommittedHistoryGrows(h, n, ids, z, c);
    GenuineGrows(h, h', y.log);
    TallyGrows(ids, h, h', n, y);
    TallyFields(ids, h', n, y, z);
    ProposeVoter(h, h', n, y, z);
    ProposeLeader(ids, h, h', n, y, z);
    CommittedGrows(h, h', y.log[..At(h.known, n)], y.currentTerm, y.currentTerm);
    CommittedNow(h', Commit(z.currentTerm, c, {n} + Holders(z, n, ids, c)), z.log);
    AdvanceAcks(h, h', n, y, z, c);
    ApplyRaised(y, z);
  }

  lemma {:induction false} CommittedNow(h: History, c: Commit, log: Entries)
    requires c in h.commits && c.term in h.reigns && h.reigns[c.term].log == log && c.index <= |log|
    ensures Committed(h, log[..c.index], c.term)
  {
  }

  lemma {:induction false} AdvanceAcks(h: History, h': History, n: NodeId, y: NodeState, z: NodeState, c: nat)
    requires AckerOk(h, n, y) && Grows(h, h') && z.log == y.log && z.currentTerm == y.currentTerm
    requires h'.acks == h.acks + AcksUpTo(n, z.currentTerm, c)
    requires z.currentTerm in h.reigns && h'.reigns == h.reigns
    requires c <= |z.log| && h.reigns[z.currentTerm].log == z.log
    ensures AckerOk(h', n, z)
  {
    forall b | b in h'.acks && b.voter == n
      ensures b.term <= z.currentTerm && AckOk(h', b) && Kept(h', b, z.log, z.currentTerm)
    {
      if b in h.acks {
        KeptGrows(h, h', b, y.log, z.log, y.currentTerm, z.currentTerm);
      } else {
        assert b in AcksUpTo(n, z.currentTerm, c);
        assert Acked(h', b) <= z.log;
      }
    }
  }
}
