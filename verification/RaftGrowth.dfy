/** Nothing the invariant says about an uninvolved node or an old message is undone by growth. */
module RaftGrowth {
  import opened RaftLog
  import opened RaftNode
  import opened RaftNetwork
  import opened RaftHistory

  lemma {:induction false} GenuineGrows(h: History, h': History, log: Entries)
    requires Grows(h, h') && Genuine(h, log)
    ensures Genuine(h', log)
  {
    if |log| > 0 {
      assert h.reigns[LastTerm(log)].log <= h'.reigns[LastTerm(log)].log;
    }
  }

  lemma {:induction false} CommittedGrows(h: History, h': History, p: Entries, t: nat, t': nat)
    requires Grows(h, h') && Committed(h, p, t) && t <= t'
    ensures Committed(h', p, t')
  {
    if |p| > 0 {
      var c :| c in h.commits && c.term <= t && c.term in h.reigns && c.index <= |h.reigns[c.term].log|
        && p <= h.reigns[c.term].log[..c.index];
      assert h.reigns[c.term].log[..c.index] == h'.reigns[c.term].log[..c.index];
    }
  }

  lemma {:induction false} AckedGrows(h: History, h': History, a: Ack)
    requires Grows(h, h') && AckOk(h, a)
    ensures AckOk(h', a) && Acked(h', a) == Acked(h, a)
  {
    assert h.reigns[a.term].log <= h'.reigns[a.term].log;
  }

  lemma {:induction false} LostByGrows(h: History, h': History, a: Ack, t: nat, t': nat)
    requires Grows(h, h') && AckOk(h, a) && LostBy(h, a, t) && t <= t'
    ensures AckOk(h', a) && LostBy(h', a, t')
  {
    AckedGrows(h, h', a);
    var u :| u in h.reigns && a.term < u <= t && !(Acked(h, a) <= h.reigns[u].start);
    assert u in h'.reigns && !(Acked(h', a) <= h'.reigns[u].start);
  }

  lemma {:induction false} KeptGrows(h: History, h': History, a: Ack, log: Entries, log': Entries, t: nat, t': nat)
    requires Grows(h, h') && AckOk(h, a) && Kept(h, a, log, t) && t <= t' && log <= log'
    ensures AckOk(h', a) && Kept(h', a, log', t')
  {
    AckedGrows(h, h', a);
    if LostBy(h, a, t) {
      LostByGrows(h, h', a, t, t');
    } else {
      assert Acked(h', a) <= log';
    }
  }

  lemma {:induction false} BallotGrows(h: History, h': History, v: NodeId, t: nat, c: NodeId)
    requires Grows(h, h')
    ensures HasBallot(h, v, t, c) ==> HasBallot(h', v, t, c)
    ensures HasEarlyBallot(h, v, t, c) ==> HasEarlyBallot(h', v, t, c)
  {
  }

  lemma {:induction false} AppendArgsGrow(ids: set<NodeId>, h: History, h': History, a: AppendArgs)
    requires Grows(h, h') && AppendArgsOk(ids, h, a)
    ensures AppendArgsOk(ids, h', a)
  {
    var r, r' := h.reigns[a.term].log, h'.reigns[a.term].log;
    assert r <= r';
    var k := a.prevIndex + |a.entries|;
    assert r'[a.prevIndex..k] == r[a.prevIndex..k];
    assert r'[..a.leaderCommit] == r[..a.leaderCommit];
    CommittedGrows(h, h', r[..a.leaderCommit], a.term, a.term);
  }

  lemma {:induction false} MessageGrows(ids: set<NodeId>, h: History, h': History, m: Message)
    requires Grows(h, h') && MessageOk(ids, h, m)
    ensures MessageOk(ids, h', m)
  {
    match m
    case RequestVote(a) =>
    case VoteReply(a, from, term, granted) => BallotGrows(h, h', from, a.term, a.candidate);
    case Append(a) => AppendArgsGrow(ids, h, h', a);
    case AppendReply(a, term, success) => AppendArgsGrow(ids, h, h', a);
  }

  /** Everything new in h' is the doing of a node other than v. */
  ghost predicate NotBy(h: History, h': History, v: NodeId)
  {
    && (forall t :: t in h'.reigns && h'.reigns[t].leader == v ==> t in h.reigns && h.reigns[t].log == h'.reigns[t].log)
    && (forall t :: (v, t) in h'.campaigns ==> (v, t) in h.campaigns)
    && (forall b :: b in h'.ballots && b.voter == v ==> b in h.ballots)
    && (forall a :: a in h'.acks && a.voter == v ==> a in h.acks)
    && At(h'.known, v) == At(h.known, v)
  }

  lemma {:induction false} RoleGrows(h: History, h': History, v: NodeId, x: NodeState)
    requires Grows(h, h') && NotBy(h, h', v) && RoleOk(h, v, x)
    ensures RoleOk(h', v, x)
  {
  }

  lemma {:induction false} TallyGrows(ids: set<NodeId>, h: History, h': History, v: NodeId, x: NodeState)
    requires Grows(h, h') && TallyOk(ids, h, v, x)
    ensures TallyOk(ids, h', v, x)
  {
    forall t, u | t in x.tally && u in x.tally[t]
      ensures HasBallot(h', u, t, v)
    {
      BallotGrows(h, h', u, t, v);
    }
  }

  lemma {:induction false} VoterGrows(h: History, h': History, v: NodeId, x: NodeState)
    requires Grows(h, h') && NotBy(h, h', v) && VoterOk(h, v, x)
    requires forall t :: t in h'.reigns && t !in h.reigns && v in h'.reigns[t].quorum ==> QuorumMemberOk(h', v, x, t)
    ensures VoterOk(h', v, x)
  {
    forall t | t in h'.reigns && v in h'.reigns[t].quorum
      ensures QuorumMemberOk(h', v, x, t)
    {
      if t in h.reigns {
        assert QuorumMemberOk(h, v, x, t);
      }
    }
  }

  lemma {:induction false} AckerGrows(h: History, h': History, v: NodeId, x: NodeState)
    requires Grows(h, h') && NotBy(h, h', v) && AckerOk(h, v, x)
    ensures AckerOk(h', v, x)
  {
    forall a | a in h'.acks && a.voter == v
      ensures a.term <= x.currentTerm && AckOk(h', a) && Kept(h', a, x.log, x.currentTerm)
    {
      KeptGrows(h, h', a, x.log, x.log, x.currentTerm, x.currentTerm);
    }
  }

  lemma {:induction false} LeaderGrows(ids: set<NodeId>, h: History, h': History, v: NodeId, x: NodeState)
    requires Grows(h, h') && LeaderOk(ids, h, v, x)
    ensures LeaderOk(ids, h', v, x)
  {
    if x.role == Leader {
      forall p | p in ids && p != v
        ensures PeerOk(h', x, p)
      {
        assert PeerOk(h, x, p);
      }
    }
  }

  lemma {:induction false} NodeGrows(ids: set<NodeId>, h: History, h': History, v: NodeId, x: NodeState)
    requires Grows(h, h') && NotBy(h, h', v) && NodeOk(ids, h, v, x)
    requires forall t :: t in h'.reigns && t !in h.reigns && v in h'.reigns[t].quorum ==> QuorumMemberOk(h', v, x, t)
    ensures NodeOk(ids, h', v, x)
  {
    hide ApplyOk;
    GenuineGrows(h, h', x.log);
    RoleGrows(h, h', v, x);
    TallyGrows(ids, h, h', v, x);
    VoterGrows(h, h', v, x);
    AckerGrows(h, h', v, x);
    CommittedGrows(h, h', x.log[..At(h.known, v)], x.currentTerm, x.currentTerm);
    LeaderGrows(ids, h, h', v, x);
  }

  // ---------- the history itself ----------

  lemma {:induction false} SameReigns(h: History, h': History)
    requires ReignsOk(h) && h'.reigns == h.reigns
    ensures ReignsOk(h')
  {
    forall t | t in h'.reigns
      ensures ReignLogOk(h', t)
    {
      assert ReignLogOk(h, t);
    }
  }

  lemma {:induction false} ElectionsGrow(ids: set<NodeId>, h: History, h': History)
    requires Grows(h, h') && ElectionsOk(ids, h)
    requires forall t :: t in h'.reigns && t !in h.reigns ==> ElectionOk(ids, h', t)
    ensures ElectionsOk(ids, h')
  {
    hide HasEarlyBallot;
    forall t | t in h.reigns
      ensures ElectionOk(ids, h', t)
    {
      assert ElectionOk(ids, h, t);
      forall v | v in h.reigns[t].quorum
        ensures HasEarlyBallot(h', v, t, h.reigns[t].leader)
      {
        BallotGrows(h, h', v, t, h.reigns[t].leader);
      }
    }
  }

  lemma {:induction false} CampaignsGrow(h: History, h': History)
    requires Grows(h, h') && CampaignsOk(h)
    requires forall c :: c in h'.campaigns && c !in h.campaigns ==>
                           Genuine(h', h'.campaigns[c]) && LastTerm(h'.campaigns[c]) < c.1
    ensures CampaignsOk(h')
  {
    hide Genuine;
    forall c | c in h.campaigns
      ensures Genuine(h', h'.campaigns[c])
    {
      GenuineGrows(h, h', h.campaigns[c]);
    }
  }

  lemma {:induction false} BallotsGrow(h: History, h': History)
    requires Grows(h, h') && BallotsOk(h)
    requires forall b :: b in h'.ballots && b !in h.ballots ==> BallotOk(h', b)
    requires forall b, b' :: b in h'.ballots && b' in h'.ballots && b' !in h.ballots && SameRound(b, b') ==>
                               b.candidate == b'.candidate
    ensures BallotsOk(h')
  {
    hide Genuine;
    forall b | b in h.ballots
      ensures BallotOk(h', b)
    {
      assert BallotOk(h, b);
      GenuineGrows(h, h', b.log);
    }
    forall b, b' | b in h'.ballots && b' in h'.ballots && SameRound(b, b')
      ensures b.candidate == b'.candidate
    {
      assert SameRound(b', b);
    }
  }

  lemma {:induction false} AcksGrow(h: History, h': History)
    requires Grows(h, h') && AcksOk(h)
    requires forall a :: a in h'.acks && a !in h.acks ==> AckOk(h', a)
    requires forall a, b :: a in h'.acks && b in h'.ballots && (a !in h.acks || b !in h.ballots) && AckOk(h', a)
                              && a.voter == b.voter && a.term < b.term && b.early ==>
                              Kept(h', a, b.log, b.term - 1)
    ensures AcksOk(h')
  {
    forall a | a in h'.acks
      ensures AckOk(h', a)
    {
      if a in h.acks {
        AckedGrows(h, h', a);
      }
    }
    forall a, b | a in h'.acks && b in h'.ballots && a.voter == b.voter && a.term < b.term && b.early
      ensures Kept(h', a, b.log, b.term - 1)
    {
      if a in h.acks && b in h.ballots {
        KeptGrows(h, h', a, b.log, b.log, b.term - 1, b.term - 1);
      }
    }
  }

  lemma {:induction false} CommitsGrow(ids: set<NodeId>, h: History, h': History)
    requires Grows(h, h') && CommitsOk(ids, h)
    requires forall c :: c in h'.commits && c !in h.commits ==> CommitRecordOk(ids, h', c)
    ensures CommitsOk(ids, h')
  {
    forall c | c in h.commits
      ensures CommitRecordOk(ids, h', c)
    {
      assert CommitRecordOk(ids, h, c);
      forall v | v in c.quorum
        ensures HasAck(h', v, c.term, c.index)
      {
        assert HasAck(h, v, c.term, c.index);
      }
    }
  }

  /** The invariant after a step of node n, from what the step itself touched. */
  lemma {:induction false} Assemble(s: Net, h: History, n: NodeId, x': NodeState, ms: set<Message>, h': History)
    requires Inv(s, h) && n in s.ids
    requires Grows(h, h') && HistoryOk(s.ids, h') && NodeOk(s.ids, h', n, x')
    requires forall v :: v in s.ids && v != n ==> NotBy(h, h', v)
    requires forall v, t :: v in s.ids && v != n && t in h'.reigns && t !in h.reigns && v in h'.reigns[t].quorum ==>
                              QuorumMemberOk(h', v, s.nodes[v], t)
    requires forall m :: m in ms ==> MessageOk(s.ids, h', m)
    ensures Inv(s.(nodes := s.nodes[n := x'], sent := s.sent + ms), h')
  {
    hide HistoryOk;
    hide NodeOk;
    hide MessageOk;
    hide Grows;
    hide NotBy;
    forall v | v in s.ids && v != n
      ensures NodeOk(s.ids, h', v, s.nodes[v])
    {
      NodeGrows(s.ids, h, h', v, s.nodes[v]);
    }
    forall m | m in s.sent
      ensures MessageOk(s.ids, h', m)
    {
      MessageGrows(s.ids, h, h', m);
    }
  }
}
