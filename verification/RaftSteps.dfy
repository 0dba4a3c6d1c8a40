/** Every step keeps the invariant: elections and the steps that only touch the stepping node. */
module RaftSteps {
  import opened Prelude
  import opened RaftLog
  import opened RaftNode
  import opened RaftNetwork
  import opened RaftHistory
  import opened RaftLogMatching
  import opened RaftGrowth

  lemma {:induction false} GrowsSelf(h: History, v: NodeId)
    ensures Grows(h, h) && NotBy(h, h, v)
  {
  }

  /** A step that adds nothing to the history. */
  lemma {:induction false} AssembleSame(s: Net, h: History, n: NodeId, x': NodeState, ms: set<Message>)
    requires Inv(s, h) && n in s.ids && NodeOk(s.ids, h, n, x')
    requires forall m :: m in ms ==> MessageOk(s.ids, h, m)
    ensures Inv(s.(nodes := s.nodes[n := x'], sent := s.sent + ms), h) && Grows(h, h)
  {
    GrowsSelf(h, n);
    hide HistoryOk;
    hide NodeOk;
    hide MessageOk;
  }

  // ---------- the node alone ----------

  lemma {:induction false} AckerLater(h: History, n: NodeId, x: NodeState, x': NodeState)
    requires AckerOk(h, n, x) && x.log <= x'.log && x.currentTerm <= x'.currentTerm
    ensures AckerOk(h, n, x')
  {
    GrowsSelf(h, n);
    forall a | a in h.acks && a.voter == n
      ensures a.term <= x'.currentTerm && AckOk(h, a) && Kept(h, a, x'.log, x'.currentTerm)
    {
      KeptGrows(h, h, a, x.log, x'.log, x.currentTerm, x'.currentTerm);
    }
  }

  /** Stepping down to a later term, or to the same term from a lost candidacy. */
  lemma {:induction false} StepDown(ids: set<NodeId>, h: History, n: NodeId, x: NodeState, t: nat,
                                    leader: Option<NodeId>)
    requires NodeOk(ids, h, n, x)
    requires t > x.currentTerm
             || (t == x.currentTerm && x.role != Follower && t in h.reigns && h.reigns[t].leader != n)
    ensures NodeOk(ids, h, n, BecomeFollower(x, t, leader))
  {
    hide ApplyOk;
    var y := BecomeFollower(x, t, leader);
    assert ApplyOk(y) by { ApplyFields(x, y); }
    StepDownVoter(h, n, x, t, leader);
    AckerLater(h, n, x, y);
    GrowsSelf(h, n);
    CommittedGrows(h, h, x.log[..At(h.known, n)], x.currentTerm, t);
  }

  lemma {:induction false} ApplyFields(x: NodeState, y: NodeState)
    requires ApplyOk(x) && y.log == x.log && y.commitIndex == x.commitIndex && y.apply == x.apply
    ensures ApplyOk(y)
  {
  }

  lemma {:induction false} StepDownVoter(h: History, n: NodeId, x: NodeState, t: nat, leader: Option<NodeId>)
    requires VoterOk(h, n, x)
    requires t > x.currentTerm
             || (t == x.currentTerm && x.role != Follower && t in h.reigns && h.reigns[t].leader != n)
    ensures VoterOk(h, n, BecomeFollower(x, t, leader))
  {
    var y := BecomeFollower(x, t, leader);
    forall u | u in h.reigns && n in h.reigns[u].quorum
      ensures QuorumMemberOk(h, n, y, u)
    {
      assert QuorumMemberOk(h, n, x, u);
    }
  }

  lemma {:induction false} ApplyNode(ids: set<NodeId>, h: History, n: NodeId, x: NodeState, p: ApplyState)
    requires NodeOk(ids, h, n, x) && ApplyOk(x.(apply := p))
    ensures NodeOk(ids, h, n, x.(apply := p))
  {
    hide ApplyOk;
    var y := x.(apply := p);
    forall t | t in h.reigns && n in h.reigns[t].quorum
      ensures QuorumMemberOk(h, n, y, t)
    {
      assert QuorumMemberOk(h, n, x, t);
    }
    assert AckerOk(h, n, y) by { AckerLater(h, n, x, y); }
    assert LeaderOk(ids, h, n, y) by {
      forall q | q in ids && q != n && x.role == Leader
        ensures PeerOk(h, y, q)
      {
        assert PeerOk(h, x, q);
      }
    }
  }

  /** The apply loop keeps its order and loses no wake-up, whatever its next move. */
  lemma {:induction false} ApplyStepOk(x: NodeState, p: ApplyState)
    requires ApplyOk(x) && Indexed(x.log)
    requires (x.apply.applier.Idle? && x.apply.signal && p == ApplyWake(x.apply))
             || (x.apply.applier.Reading? && p == ApplyRead(x.apply, x.commitIndex))
             || (x.apply.applier.Sending? && p == ApplySend(x.apply, x.log))
             || (x.apply.applier.Recording? && p == ApplyRecord(x.apply))
    ensures ApplyOk(x.(apply := p))
  {
    if x.apply.applier.Sending? {
      var idx := x.apply.applier.idx;
      IndexedAccess(x.log, idx);
      assert x.log[..idx] == x.log[..idx - 1] + [x.log[idx - 1]];
    }
  }

  lemma {:induction false} ApplyFacts(ids: set<NodeId>, h: History, n: NodeId, x: NodeState)
    requires HistoryOk(ids, h) && NodeOk(ids, h, n, x)
    ensures ApplyOk(x) && Indexed(x.log)
  {
    GenuineIndexed(h, x.log);
  }

  lemma {:induction false} StepApply(s: Net, h: History, step: Step)
    requires Inv(s, h) && Enabled(s, step)
    requires step.Wake? || step.Read? || step.Send? || step.Record?
    ensures Inv(Do(s, step), After(s, h, step)) && Grows(h, After(s, h, step))
  {
    hide HistoryOk;
    hide NodeOk;
    hide MessageOk;
    var n := step.n;
    var x := s.nodes[n];
    assert NodeOk(s.ids, h, n, x);
    var p := NodeAfter(s, step).apply;
    ApplyFacts(s.ids, h, n, x);
    ApplyStepOk(x, p);
    ApplyNode(s.ids, h, n, x, p);
    AssembleSame(s, h, n, x.(apply := p), {});
  }

  lemma {:induction false} StepRestart(s: Net, h: History, step: Step)
    requires Inv(s, h) && Enabled(s, step) && step.Restart?
    ensures Inv(Do(s, step), After(s, h, step)) && Grows(h, After(s, h, step))
  {
    hide HistoryOk;
    hide NodeOk;
    hide MessageOk;
    var n := step.n;
    var x := s.nodes[n];
    assert NodeOk(s.ids, h, n, x);
    RestartNode(s.ids, h, n, x);
    AssembleSame(s, h, n, Restarted(x), {});
  }

  lemma {:induction false} RestartNode(ids: set<NodeId>, h: History, n: NodeId, x: NodeState)
    requires NodeOk(ids, h, n, x)
    ensures NodeOk(ids, h, n, Restarted(x))
  {
    var y := Restarted(x);
    forall t | t in h.reigns && n in h.reigns[t].quorum
      ensures QuorumMemberOk(h, n, y, t)
    {
      assert QuorumMemberOk(h, n, x, t);
    }
    AckerLater(h, n, x, y);
  }

  lemma {:induction false} StepVoteReply(s: Net, h: History, step: Step)
    requires Inv(s, h) && Enabled(s, step) && step.OnVoteReply?
    ensures Inv(Do(s, step), After(s, h, step)) && Grows(h, After(s, h, step))
  {
    hide HistoryOk;
    hide NodeOk;
    hide MessageOk;
    var n := step.n;
    var x := s.nodes[n];
    assert NodeOk(s.ids, h, n, x);
    if step.term > x.currentTerm {
      StepDown(s.ids, h, n, x, step.term, None);
    }
    AssembleSame(s, h, n, ObserveTerm(x, step.term), {});
  }
}
