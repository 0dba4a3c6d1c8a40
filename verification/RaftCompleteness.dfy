/** Leader Completeness, from the history alone: what one leader committed, every later leader
    came to power with. */
module RaftCompleteness {
  import opened RaftLog
  import opened RaftNode
  import opened RaftHistory
  import opened RaftLogMatching

  lemma {:induction false} QuorumsMeet(ids: set<NodeId>, q: set<NodeId>, q': set<NodeId>) returns (v: NodeId)
    requires IsQuorum(ids, q) && IsQuorum(ids, q')
    ensures v in q && v in q'
  {
    assert q + q' <= ids;
    SubsetSize(q + q', ids);
    assert |q * q'| > 0;
    v :| v in q * q';
  }

  lemma {:induction false} SubsetSize<T>(a: set<T>, b: set<T>)
    requires a <= b
    ensures |a| <= |b|
  {
    if a != {} {
      var x :| x in a;
      SubsetSize(a - {x}, b - {x});
    }
  }

  /** A log that is at least as up to date as one that holds p, where every reign between
      the term of p and t came to power with p, holds p as well. */
  lemma {:induction false} UpToDateHolds(h: History, p: Entries, voter: Entries, cand: Entries, t: nat)
    requires ReignsOk(h) && Genuine(h, voter) && Genuine(h, cand)
    requires |p| > 0 && p <= voter
    requires LastTerm(cand) < t && UpToDate(LastTerm(cand), LastIndex(cand), voter)
    requires forall u :: u in h.reigns && LastTerm(p) < u < t ==> p <= h.reigns[u].start
    ensures p <= cand
  {
    GenuineIndexed(h, voter);
    GenuineIndexed(h, cand);
    GenuineAt(h, voter, |p| - 1);
    assert LastTerm(p) <= LastTerm(voter);
    if LastTerm(cand) == LastTerm(voter) {
      SameLastTerm(h, p, voter, cand);
    } else {
      LaterLastTerm(h, p, cand);
    }
  }

  lemma {:induction false} SameLastTerm(h: History, p: Entries, voter: Entries, cand: Entries)
    requires ReignsOk(h) && Genuine(h, voter) && Genuine(h, cand)
    requires |p| > 0 && p <= voter && |voter| <= |cand| && LastTerm(cand) == LastTerm(voter)
    ensures p <= cand
  {
    var r := h.reigns[LastTerm(cand)].log;
    assert voter <= r && cand <= r;
  }

  lemma {:induction false} LaterLastTerm(h: History, p: Entries, cand: Entries)
    requires ReignsOk(h) && Genuine(h, cand)
    requires |p| > 0 && |cand| > 0 && LastTerm(p) < LastTerm(cand)
    requires p <= h.reigns[LastTerm(cand)].start
    ensures p <= cand
  {
    var u := LastTerm(cand);
    var r := h.reigns[u];
    assert ReignLogOk(h, u);
    assert p <= r.log && cand <= r.log;
    if |cand| < |p| {
      assert false;
    }
  }

  /** Leader Completeness (section 5.4 of the Raft paper). */
  lemma {:induction false} LeaderCompleteness(ids: set<NodeId>, h: History, c: Commit, t: nat)
    requires HistoryOk(ids, h)
    requires c in h.commits && t in h.reigns && c.term < t
    ensures h.reigns[c.term].log[..c.index] <= h.reigns[t].start
    decreases t
  {
    assert CommitRecordOk(ids, h, c);
    var p := h.reigns[c.term].log[..c.index];
    assert LastTerm(p) == c.term;
    forall u | u in h.reigns && c.term < u < t
      ensures p <= h.reigns[u].start
    {
      LeaderCompleteness(ids, h, c, u);
    }
    var b := DecisiveBallot(ids, h, c, t);
    assert BallotOk(h, b);
    UpToDateHolds(h, p, b.log, h.reigns[t].start, t);
  }

  /** The vote of a node that also vouched for the commit. */
  lemma {:induction false} DecisiveBallot(ids: set<NodeId>, h: History, c: Commit, t: nat) returns (b: Ballot)
    requires ElectionsOk(ids, h) && AcksOk(h) && CommitsOk(ids, h)
    requires c in h.commits && t in h.reigns && c.term < t
    requires c.term in h.reigns && c.index <= |h.reigns[c.term].log|
    requires forall u :: u in h.reigns && c.term < u < t ==> h.reigns[c.term].log[..c.index] <= h.reigns[u].start
    ensures b in h.ballots && b.term == t && b.candidate == h.reigns[t].leader
    ensures h.reigns[c.term].log[..c.index] <= b.log
  {
    assert CommitRecordOk(ids, h, c);
    assert ElectionOk(ids, h, t);
    var v := QuorumsMeet(ids, c.quorum, h.reigns[t].quorum);
    assert HasAck(h, v, c.term, c.index);
    var a := Ack(v, c.term, c.index);
    assert HasEarlyBallot(h, v, t, h.reigns[t].leader);
    b :| b in h.ballots && b.voter == v && b.term == t && b.candidate == h.reigns[t].leader && b.early;
    assert Kept(h, a, b.log, b.term - 1);
  }

  /** What a node may regard as committed in term t is in the log of every leader from t on. */
  lemma {:induction false} CommittedInReign(ids: set<NodeId>, h: History, p: Entries, t: nat, u: nat)
    requires HistoryOk(ids, h) && Committed(h, p, t) && t <= u && u in h.reigns
    ensures p <= h.reigns[u].log
  {
    hide ElectionsOk;
    hide CampaignsOk;
    hide BallotsOk;
    hide AcksOk;
    hide CommitsOk;
    if |p| > 0 {
      var c :| c in h.commits && c.term <= t && c.term in h.reigns && c.index <= |h.reigns[c.term].log|
        && p <= h.reigns[c.term].log[..c.index];
      assert ReignLogOk(h, u);
      if c.term < u {
        LeaderCompleteness(ids, h, c, u);
      }
    }
  }

  lemma {:induction false} CommitsAgree(ids: set<NodeId>, h: History, c: Commit, c': Commit)
    requires HistoryOk(ids, h) && c in h.commits && c' in h.commits && c.term <= c'.term
    ensures CommitRecordOk(ids, h, c) && CommitRecordOk(ids, h, c')
    ensures h.reigns[c.term].log[..c.index] <= h.reigns[c'.term].log
  {
    assert CommitRecordOk(ids, h, c) && CommitRecordOk(ids, h, c');
    if c.term < c'.term {
      assert ReignLogOk(h, c'.term);
      LeaderCompleteness(ids, h, c, c'.term);
    }
  }

  /** Two committed initial parts never disagree. */
  lemma {:induction false} CommittedAgree(ids: set<NodeId>, h: History, p: Entries, t: nat, q: Entries, u: nat, i: nat)
    requires HistoryOk(ids, h) && Committed(h, p, t) && Committed(h, q, u)
    requires i < |p| && i < |q|
    ensures p[i] == q[i]
  {
    hide ElectionsOk;
    hide CampaignsOk;
    hide BallotsOk;
    hide AcksOk;
    hide CommitsOk;
    hide ReignsOk;
    var c :| c in h.commits && c.term <= t && c.term in h.reigns && c.index <= |h.reigns[c.term].log|
      && p <= h.reigns[c.term].log[..c.index];
    var d :| d in h.commits && d.term <= u && d.term in h.reigns && d.index <= |h.reigns[d.term].log|
      && q <= h.reigns[d.term].log[..d.index];
    if c.term <= d.term {
      CommitsAgree(ids, h, c, d);
    } else {
      CommitsAgree(ids, h, d, c);
    }
  }
}
