/** Safety over whole runs, with message loss, delay, duplication, reordering and restarts.
    The statements speak of states and steps only; the history serves the proofs. */
module RaftSafety {
  import opened RaftLog
  import opened RaftNode
  import opened RaftNetwork
  import opened RaftHistory
  import opened RaftLogMatching
  import opened RaftCompleteness
  import opened RaftGrowth
  import opened RaftSteps
  import opened RaftElections
  import opened RaftReplication

  lemma {:induction false} InitInv(s: Net)
    requires Init(s)
    ensures Inv(s, NoHistory)
  {
    forall n | n in s.ids
      ensures NodeOk(s.ids, NoHistory, n, s.nodes[n])
    {
    }
  }

  /** Every step keeps the invariant. */
  lemma {:induction false} StepInv(s: Net, h: History, step: Step)
    requires Inv(s, h) && Enabled(s, step)
    ensures Inv(Do(s, step), After(s, h, step)) && Grows(h, After(s, h, step))
  {
    hide Inv;
    hide Grows;
    hide Do;
    hide After;
    hide Enabled;
    match step
    case Timeout(_) => StepTimeout(s, h, step);
    case OnVoteRequest(_, _) => StepVoteRequest(s, h, step);
    case OnVoteReply(_, _, _, _, _) => StepVoteReply(s, h, step);
    case CountReply(_, _, _, _) => StepCount(s, h, step);
    case Win(_, _) => StepWin(s, h, step);
    case Propose(_, _, _) => StepPropose(s, h, step);
    case Replicate(_, _) => StepReplicate(s, h, step);
    case OnAppend(_, _) => StepAppend(s, h, step);
    case OnAppendReply(_, _, _, _) => StepAppendReply(s, h, step);
    case Wake(_) => StepApply(s, h, step);
    case Read(_) => StepApply(s, h, step);
    case Send(_) => StepApply(s, h, step);
    case Record(_) => StepApply(s, h, step);
    case Restart(_) => StepRestart(s, h, step);
  }

  /** The histories of a run. */
  ghost predicate Explains(run: seq<Net>, steps: seq<Step>, hs: seq<History>)
  {
    && |hs| == |run|
    && (forall i :: 0 <= i < |run| ==> Inv(run[i], hs[i]))
    && (forall i, j :: 0 <= i <= j < |run| ==> Grows(hs[i], hs[j]))
  }

  /** The history after i steps. */
  ghost function HistoryAt(run: seq<Net>, steps: seq<Step>, i: nat): (r: History)
    requires IsRun(run, steps) && i < |run|
  {
    if i == 0 then NoHistory else After(run[i - 1], HistoryAt(run, steps, i - 1), steps[i - 1])
  }

  lemma {:induction false} HistoryInv(run: seq<Net>, steps: seq<Step>, i: nat)
    requires IsRun(run, steps) && i < |run|
    ensures Inv(run[i], HistoryAt(run, steps, i))
    ensures i > 0 ==> Grows(HistoryAt(run, steps, i - 1), HistoryAt(run, steps, i))
    decreases i
  {
    hide Inv;
    hide Grows;
    hide Enabled;
    hide After;
    hide Do;
    hide Init;
    if i == 0 {
      InitInv(run[0]);
    } else {
      HistoryInv(run, steps, i - 1);
      StepInv(run[i - 1], HistoryAt(run, steps, i - 1), steps[i - 1]);
    }
  }

  lemma {:induction false} HistoryGrows(run: seq<Net>, steps: seq<Step>, i: nat, j: nat)
    requires IsRun(run, steps) && i <= j < |run|
    ensures Grows(HistoryAt(run, steps, i), HistoryAt(run, steps, j))
    decreases j
  {
    hide Grows;
    hide HistoryAt;
    hide IsRun;
    if i == j {
      GrowsSelf(HistoryAt(run, steps, i), 0);
    } else {
      HistoryGrows(run, steps, i, j - 1);
      HistoryInv(run, steps, j);
      GrowsTrans(HistoryAt(run, steps, i), HistoryAt(run, steps, j - 1), HistoryAt(run, steps, j));
    }
  }

  lemma {:induction false} RunHistories(run: seq<Net>, steps: seq<Step>) returns (hs: seq<History>)
    requires IsRun(run, steps)
    ensures Explains(run, steps, hs)
  {
    hide Inv;
    hide Grows;
    hide HistoryAt;
    hide IsRun;
    hs := seq(|run|, i requires 0 <= i < |run| => HistoryAt(run, steps, i));
    forall i | 0 <= i < |run|
      ensures Inv(run[i], hs[i])
    {
      HistoryInv(run, steps, i);
    }
    forall i, j | 0 <= i <= j < |run|
      ensures Grows(hs[i], hs[j])
    {
      HistoryGrows(run, steps, i, j);
    }
  }

  lemma {:induction false} GrowsTrans(a: History, b: History, c: History)
    requires Grows(a, b) && Grows(b, c)
    ensures Grows(a, c)
  {
    forall n
      ensures At(a.known, n) <= At(c.known, n)
    {
      assert At(a.known, n) <= At(b.known, n) <= At(c.known, n);
    }
    forall t | t in a.reigns
      ensures a.reigns[t].log <= c.reigns[t].log
    {
      assert a.reigns[t].log <= b.reigns[t].log <= c.reigns[t].log;
    }
  }

  // ---------- Election Safety ----------

  lemma {:induction false} LeaderReign(s: Net, h: History, g: History, n: NodeId)
    requires Inv(s, h) && Grows(h, g) && n in s.nodes && s.nodes[n].role == Leader
    ensures var t := s.nodes[n].currentTerm;
            t in g.reigns && g.reigns[t].leader == n && s.nodes[n].log <= g.reigns[t].log
            && g.reigns[t].start <= s.nodes[n].log
  {
    hide MessageOk;
    hide Grows;
    hide HistoryOk;
    assert NodeOk(s.ids, h, n, s.nodes[n]);
    LeaderFacts(s.ids, h, n, s.nodes[n]);
    hide NodeOk;
    StartWithin(s.ids, h, g, s.nodes[n].currentTerm);
  }

  lemma {:induction false} StartWithin(ids: set<NodeId>, h: History, g: History, t: nat)
    requires HistoryOk(ids, h) && Grows(h, g) && t in h.reigns
    ensures t in g.reigns && g.reigns[t].leader == h.reigns[t].leader
    ensures g.reigns[t].start <= h.reigns[t].log <= g.reigns[t].log
  {
    assert ReignLogOk(h, t);
  }

  /** At most one node ever leads in a term, although a candidate that steps down within the term
      forgets its vote and may vote again in it. */
  lemma {:induction false} ElectionSafety(run: seq<Net>, steps: seq<Step>, i: nat, j: nat, n: NodeId, m: NodeId)
    requires IsRun(run, steps) && i < |run| && j < |run|
    requires n in run[i].nodes && m in run[j].nodes
    requires run[i].nodes[n].role == Leader && run[j].nodes[m].role == Leader
    requires run[i].nodes[n].currentTerm == run[j].nodes[m].currentTerm
    ensures n == m
  {
    hide Inv;
    hide Grows;
    hide IsRun;
    var hs := RunHistories(run, steps);
    var g := hs[|run| - 1];
    LeaderReign(run[i], hs[i], g, n);
    LeaderReign(run[j], hs[j], g, m);
  }

  // ---------- Log Matching ----------

  lemma {:induction false} NodeLog(s: Net, h: History, g: History, n: NodeId)
    requires Inv(s, h) && Grows(h, g) && n in s.nodes
    ensures n in s.ids && NodeOk(s.ids, h, n, s.nodes[n])
    ensures HistoryOk(s.ids, h) && ReignsOk(h)
    ensures Genuine(h, s.nodes[n].log) && Genuine(g, s.nodes[n].log)
  {
    hide MessageOk;
    hide Grows;
    assert NodeOk(s.ids, h, n, s.nodes[n]);
    GenuineGrows(h, g, s.nodes[n].log);
  }

  lemma {:induction false} HistoryReigns(s: Net, h: History)
    requires Inv(s, h)
    ensures HistoryOk(s.ids, h) && ReignsOk(h)
  {
  }

  /** In every reachable state logs are numbered from 1 without gaps, with non-decreasing terms
      up to the node's own term. */
  lemma {:induction false} LogsOrdered(run: seq<Net>, steps: seq<Step>, i: nat, n: NodeId)
    requires IsRun(run, steps) && i < |run| && n in run[i].nodes
    ensures var x := run[i].nodes[n];
            && (forall k :: 0 <= k < |x.log| ==> x.log[k].index == k + 1 && x.log[k].term <= x.currentTerm)
            && (forall k, l :: 0 <= k <= l < |x.log| ==> x.log[k].term <= x.log[l].term)
  {
    hide Inv;
    hide Grows;
    hide IsRun;
    hide NodeOk;
    hide HistoryOk;
    hide ReignsOk;
    hide Genuine;
    var hs := RunHistories(run, steps);
    var x := run[i].nodes[n];
    NodeLog(run[i], hs[i], hs[i], n);
    FollowerFacts(run[i].ids, hs[i], n, x);
    GenuineOrdered(hs[i], x.log, x.currentTerm);
  }

  lemma {:induction false} GenuineOrdered(h: History, log: Entries, t: nat)
    requires ReignsOk(h) && Genuine(h, log) && LastTerm(log) <= t
    ensures forall k :: 0 <= k < |log| ==> log[k].index == k + 1 && log[k].term <= t
    ensures forall k, l :: 0 <= k <= l < |log| ==> log[k].term <= log[l].term
  {
    hide ReignsOk;
    hide Genuine;
    forall k | 0 <= k < |log|
      ensures log[k].index == k + 1 && log[k].term <= t
    {
      GenuineAt(h, log, k);
    }
    forall k, l | 0 <= k <= l < |log|
      ensures log[k].term <= log[l].term
    {
      GenuineSorted(h, log, k, l);
    }
  }

  /** Two logs, of any nodes at any moments, that agree on a term at an index agree up to it. */
  lemma {:induction false} LogMatching(run: seq<Net>, steps: seq<Step>, i: nat, j: nat, n: NodeId, m: NodeId, k: nat)
    requires IsRun(run, steps) && i < |run| && j < |run| && n in run[i].nodes && m in run[j].nodes
    requires k < |run[i].nodes[n].log| && k < |run[j].nodes[m].log|
    requires run[i].nodes[n].log[k].term == run[j].nodes[m].log[k].term
    ensures run[i].nodes[n].log[..k + 1] == run[j].nodes[m].log[..k + 1]
  {
    hide Inv;
    hide Grows;
    hide IsRun;
    hide NodeOk;
    hide HistoryOk;
    hide ReignsOk;
    hide Genuine;
    var hs := RunHistories(run, steps);
    var g := hs[|run| - 1];
    NodeLog(run[i], hs[i], g, n);
    NodeLog(run[j], hs[j], g, m);
    HistoryReigns(run[|run| - 1], g);
    AgreeUpTo(g, run[i].nodes[n].log, run[j].nodes[m].log, k);
  }

  // ---------- Leader Completeness and State Machine Safety ----------

  /** What a node regards as committed, as the final history sees it. */
  lemma {:induction false} NodeCommitted(s: Net, h: History, g: History, n: NodeId)
    requires Inv(s, h) && Grows(h, g) && n in s.nodes
    ensures var x := s.nodes[n];
            && x.commitIndex <= At(h.known, n) <= |x.log|
            && Committed(g, x.log[..x.commitIndex], x.currentTerm)
            && Committed(g, x.log[..At(h.known, n)], x.currentTerm)
  {
    hide MessageOk;
    hide HistoryOk;
    hide Committed;
    var x := s.nodes[n];
    assert NodeOk(s.ids, h, n, x);
    var k := At(h.known, n);
    CommittedGrows(h, g, x.log[..k], x.currentTerm, x.currentTerm);
    CommittedPart(g, x.log[..k], x.log[..x.commitIndex], x.currentTerm);
  }

  /** No two nodes, at any two moments, have different entries at an index both regard as
      committed. */
  lemma {:induction false} StateMachineSafety(run: seq<Net>, steps: seq<Step>, i: nat, j: nat, n: NodeId, m: NodeId,
                                              k: nat)
    requires IsRun(run, steps) && i < |run| && j < |run| && n in run[i].nodes && m in run[j].nodes
    requires 1 <= k <= run[i].nodes[n].commitIndex && k <= run[j].nodes[m].commitIndex
    ensures k <= |run[i].nodes[n].log| && k <= |run[j].nodes[m].log|
    ensures run[i].nodes[n].log[k - 1] == run[j].nodes[m].log[k - 1]
  {
    hide Inv;
    hide Grows;
    hide IsRun;
    hide HistoryOk;
    hide ReignsOk;
    hide Committed;
    var hs := RunHistories(run, steps);
    var g := hs[|run| - 1];
    var x, y := run[i].nodes[n], run[j].nodes[m];
    NodeCommitted(run[i], hs[i], g, n);
    NodeCommitted(run[j], hs[j], g, m);
    HistoryReigns(run[|run| - 1], g);
    CommittedAgree(run[|run| - 1].ids, g, x.log[..x.commitIndex], x.currentTerm,
                   y.log[..y.commitIndex], y.currentTerm, k - 1);
  }

  lemma {:induction false} CommittedAtStart(ids: set<NodeId>, h: History, p: Entries, t: nat, u: nat)
    requires HistoryOk(ids, h) && Committed(h, p, t) && t < u && u in h.reigns
    ensures p <= h.reigns[u].start
  {
    hide ElectionsOk;
    hide CampaignsOk;
    hide BallotsOk;
    hide AcksOk;
    hide CommitsOk;
    hide ReignsOk;
    if |p| > 0 {
      var c :| c in h.commits && c.term <= t && c.term in h.reigns && c.index <= |h.reigns[c.term].log|
        && p <= h.reigns[c.term].log[..c.index];
      LeaderCompleteness(ids, h, c, u);
    }
  }

  /** Whatever a node in term T regards as committed is in the log of every leader of a later
      term, whichever of the two moments comes first. */
  lemma {:induction false} LeadersHoldCommitted(run: seq<Net>, steps: seq<Step>, i: nat, j: nat, n: NodeId, m: NodeId)
    requires IsRun(run, steps) && i < |run| && j < |run| && n in run[i].nodes && m in run[j].nodes
    requires run[j].nodes[m].role == Leader && run[i].nodes[n].currentTerm < run[j].nodes[m].currentTerm
    ensures run[i].nodes[n].commitIndex <= |run[i].nodes[n].log|
    ensures run[i].nodes[n].log[..run[i].nodes[n].commitIndex] <= run[j].nodes[m].log
  {
    hide Inv;
    hide Grows;
    hide IsRun;
    hide HistoryOk;
    hide ReignsOk;
    hide Committed;
    var hs := RunHistories(run, steps);
    var g := hs[|run| - 1];
    var x, y := run[i].nodes[n], run[j].nodes[m];
    NodeCommitted(run[i], hs[i], g, n);
    LeaderReign(run[j], hs[j], g, m);
    HistoryReigns(run[|run| - 1], g);
    CommittedAtStart(run[|run| - 1].ids, g, x.log[..x.commitIndex], x.currentTerm, y.currentTerm);
  }

  /** What a node once regarded as committed stays in its log for good: no truncation reaches it,
      not even after a restart has reset the commit index. */
  lemma {:induction false} CommittedStays(run: seq<Net>, steps: seq<Step>, i: nat, j: nat, n: NodeId)
    requires IsRun(run, steps) && i <= j < |run| && n in run[i].nodes && n in run[j].nodes
    ensures run[i].nodes[n].commitIndex <= |run[i].nodes[n].log|
    ensures run[i].nodes[n].log[..run[i].nodes[n].commitIndex] <= run[j].nodes[n].log
  {
    hide Inv;
    hide Grows;
    hide IsRun;
    hide HistoryOk;
    hide ReignsOk;
    hide Committed;
    var hs := RunHistories(run, steps);
    var g := hs[|run| - 1];
    var x, y := run[i].nodes[n], run[j].nodes[n];
    NodeCommitted(run[i], hs[i], g, n);
    NodeCommitted(run[j], hs[j], g, n);
    KnownGrows(hs[i], hs[j], n);
    HistoryReigns(run[|run| - 1], g);
    var k := At(hs[j].known, n);
    forall l | 0 <= l < x.commitIndex
      ensures x.log[l] == y.log[l]
    {
      CommittedAgree(run[|run| - 1].ids, g, x.log[..x.commitIndex], x.currentTerm, y.log[..k], y.currentTerm, l);
    }
  }

  lemma {:induction false} KnownGrows(h: History, h': History, n: NodeId)
    requires Grows(h, h')
    ensures At(h.known, n) <= At(h'.known, n)
  {
  }

  // ---------- messages and truncation ----------

  /** Every AppendEntries request ever sent was sent by a leader whose next index for the peer
      lay within its log or just past it; so the predecessor is real, the entries are the whole
      rest of the leader's log, and the commit index is the leader's and does not reach past them. */
  lemma {:induction false} AppendsAreSound(run: seq<Net>, steps: seq<Step>, i: nat, a: AppendArgs) returns (j: nat)
    requires IsRun(run, steps) && i < |run| && Append(a) in run[i].sent
    ensures j < i && steps[j] == Replicate(a.leader, a.to) && a.leader in run[j].nodes
    ensures var x := run[j].nodes[a.leader];
            && x.role == Leader && x.currentTerm == a.term
            && 1 <= At(x.nextIndex, a.to) <= |x.log| + 1
            && a.prevIndex + 1 == At(x.nextIndex, a.to)
            && (a.prevIndex > 0 ==> a.prevTerm == x.log[a.prevIndex - 1].term)
            && a.entries == x.log[a.prevIndex..]
            && a.leaderCommit == x.commitIndex <= a.prevIndex + |a.entries|
    decreases i
  {
    hide Inv;
    hide Grows;
    hide Do;
    hide Enabled;
    assert i > 0;
    var step := steps[i - 1];
    assert Enabled(run[i - 1], step) && run[i] == Do(run[i - 1], step);
    if Append(a) in run[i - 1].sent {
      j := AppendsAreSound(run, steps, i - 1, a);
    } else {
      AppendOrigin(run[i - 1], step, a);
      j := i - 1;
      hide IsRun;
      hide NodeOk;
      hide HistoryOk;
      hide AppendRequest;
      var hs := RunHistories(run, steps);
      NodeLog(run[j], hs[j], hs[j], step.n);
      ReplicatedRequest(run[j].ids, hs[j], step.n, run[j].nodes[step.n], step.peer);
    }
  }

  lemma {:induction false} AppendOrigin(s: Net, step: Step, a: AppendArgs)
    requires Enabled(s, step) && Append(a) in Do(s, step).sent && Append(a) !in s.sent
    ensures step == Replicate(a.leader, a.to) && step.n in s.nodes && step.n != step.peer && step.peer in s.ids
    ensures s.nodes[step.n].role == Leader && s.nodes[step.n].currentTerm == a.term
    ensures a == AppendRequest(s.nodes[step.n], step.n, step.peer)
  {
    hide EntryAt;
    hide EntriesFrom;
    hide HandleAppend;
    hide HandleVoteRequest;
    assert Append(a) in MessagesOf(s, step);
  }

  lemma {:induction false} ReplicatedRequest(ids: set<NodeId>, h: History, n: NodeId, x: NodeState, peer: NodeId)
    requires HistoryOk(ids, h) && NodeOk(ids, h, n, x) && x.role == Leader && peer in ids && peer != n
    ensures var a := AppendRequest(x, n, peer);
            && 1 <= At(x.nextIndex, peer) <= |x.log| + 1
            && a.prevIndex + 1 == At(x.nextIndex, peer)
            && (a.prevIndex > 0 ==> a.prevTerm == x.log[a.prevIndex - 1].term)
            && a.entries == x.log[a.prevIndex..]
            && a.leaderCommit == x.commitIndex <= a.prevIndex + |a.entries|
  {
    hide HistoryOk;
    hide EntryAt;
    hide EntriesFrom;
    RequestOk(ids, h, n, x, peer);
    LeaderFacts(ids, h, n, x);
    assert PeerOk(h, x, peer);
    hide NodeOk;
    var a := AppendRequest(x, n, peer);
    assert x.log[a.prevIndex..] == x.log[a.prevIndex..a.prevIndex + |a.entries|];
  }

  /** A follower raises its commit index only over entries it has just checked against the
      leader's: never past the entries sent, so the cap by its own last index never bites. */
  lemma {:induction false} FollowerCommitChecked(run: seq<Net>, steps: seq<Step>, i: nat)
    requires IsRun(run, steps) && i < |steps| && steps[i].OnAppend?
    requires steps[i].n in run[i].nodes && steps[i].n in run[i + 1].nodes
    requires run[i + 1].nodes[steps[i].n].commitIndex > run[i].nodes[steps[i].n].commitIndex
    ensures var a := steps[i].args;
            var y := run[i + 1].nodes[steps[i].n];
            && y.commitIndex == a.leaderCommit <= a.prevIndex + |a.entries| <= |y.log|
            && y.log[a.prevIndex..a.prevIndex + |a.entries|] == a.entries
            && (a.prevIndex > 0 ==> y.log[a.prevIndex - 1].term == a.prevTerm)
  {
    hide Inv;
    hide Grows;
    hide IsRun;
    hide HandleAppend;
    hide NodeOk;
    hide HistoryOk;
    hide ReignsOk;
    hide Genuine;
    var n := steps[i].n;
    var a := steps[i].args;
    AppendDone(run, steps, i);
    var hs := RunHistories(run, steps);
    MessageAt(run[i], hs[i], Append(a));
    NodeLog(run[i], hs[i], hs[i], n);
    CheckedCommit(run[i].ids, hs[i], n, run[i].nodes[n], a);
  }

  lemma {:induction false} AppendDone(run: seq<Net>, steps: seq<Step>, i: nat)
    requires IsRun(run, steps) && i < |steps| && steps[i].OnAppend?
    requires steps[i].n in run[i].nodes && steps[i].n in run[i + 1].nodes
    ensures run[i + 1].nodes[steps[i].n] == HandleAppend(run[i].nodes[steps[i].n], steps[i].args).0
    ensures i + 1 < |run| && Append(steps[i].args) in run[i].sent && steps[i].args.to == steps[i].n
  {
    hide HandleAppend;
    assert Enabled(run[i], steps[i]) && run[i + 1] == Do(run[i], steps[i]);
  }

  lemma {:induction false} MessageAt(s: Net, h: History, m: Message)
    requires Inv(s, h) && m in s.sent
    ensures MessageOk(s.ids, h, m)
  {
  }

  lemma {:induction false} CheckedCommit(ids: set<NodeId>, h: History, n: NodeId, x: NodeState, a: AppendArgs)
    requires HistoryOk(ids, h) && NodeOk(ids, h, n, x) && AppendArgsOk(ids, h, a) && a.to == n
    requires HandleAppend(x, a).0.commitIndex > x.commitIndex
    ensures var y := HandleAppend(x, a).0;
            && y.commitIndex == a.leaderCommit <= a.prevIndex + |a.entries| <= |y.log|
            && y.log[a.prevIndex..a.prevIndex + |a.entries|] == a.entries
            && (a.prevIndex > 0 ==> y.log[a.prevIndex - 1].term == a.prevTerm)
  {
    hide HistoryOk;
    hide NodeOk;
    hide AppendLoop;
    hide Genuine;
    hide ReignsOk;
    hide Committed;
    hide EntryAt;
    hide HandleAppend;
    hide Heard;
    var w := Heard(x, a);
    AppendSucceeded(x, a);
    HeardOk(ids, h, n, x, a);
    FollowerFacts(ids, h, n, w);
    IndexedAccess(w.log, a.prevIndex);
    AcceptedNode(ids, h, n, w, a);
    FollowerFacts(ids, h, n, w.(log := AppendLoop(w.log, a.entries, 0)));
    CheckedEntries(ids, h, w, AppendLoop(w.log, a.entries, 0), a);
  }

  /** Only a successful append raises the commit index. */
  lemma {:induction false} AppendSucceeded(x: NodeState, a: AppendArgs)
    requires HandleAppend(x, a).0.commitIndex > x.commitIndex
    ensures a.term >= x.currentTerm
    ensures var w := Heard(x, a);
            && (a.prevIndex > 0 ==>
                  EntryAt(w.log, a.prevIndex).Some? && EntryAt(w.log, a.prevIndex).value.term == a.prevTerm)
            && HandleAppend(x, a).0 == FollowCommit(w.(log := AppendLoop(w.log, a.entries, 0)), a.leaderCommit)
            && a.leaderCommit > w.commitIndex
  {
    hide AppendLoop;
    hide EntryAt;
    hide TruncatedFrom;
  }

  lemma {:induction false} CheckedEntries(ids: set<NodeId>, h: History, w: NodeState, log: Entries, a: AppendArgs)
    requires AppendArgsOk(ids, h, a) && a.leaderCommit > w.commitIndex && LastIndex(log) == |log|
    requires h.reigns[a.term].log[..a.prevIndex + |a.entries|] <= log
    ensures var y := FollowCommit(w.(log := log), a.leaderCommit);
            && y.commitIndex == a.leaderCommit <= a.prevIndex + |a.entries| <= |y.log|
            && y.log[a.prevIndex..a.prevIndex + |a.entries|] == a.entries
            && (a.prevIndex > 0 ==> y.log[a.prevIndex - 1].term == a.prevTerm)
  {
    hide Committed;
    var lead := h.reigns[a.term].log;
    var k := a.prevIndex + |a.entries|;
    assert log[a.prevIndex..k] == lead[..k][a.prevIndex..k];
    if a.prevIndex > 0 {
      assert log[a.prevIndex - 1] == lead[..k][a.prevIndex - 1];
    }
  }

  // ---------- applying ----------

  /** Entries go on the apply channel in index order without gaps or repeats, only committed
      ones, and a loop that sleeps on an empty signal has delivered everything committed. */
  lemma {:induction false} AppliedInOrder(run: seq<Net>, steps: seq<Step>, i: nat, n: NodeId)
    requires IsRun(run, steps) && i < |run| && n in run[i].nodes
    ensures var x := run[i].nodes[n];
            && |x.apply.delivered| <= x.commitIndex <= |x.log|
            && x.apply.delivered == x.log[..|x.apply.delivered|]
            && x.apply.lastApplied <= |x.apply.delivered| <= x.apply.lastApplied + 1
            && (x.apply.applier.Idle? && !x.apply.signal ==>
                  |x.apply.delivered| == x.apply.lastApplied == x.commitIndex)
  {
    hide Inv;
    hide Grows;
    hide IsRun;
    hide HistoryOk;
    var hs := RunHistories(run, steps);
    NodeLog(run[i], hs[i], hs[i], n);
  }

  /** A process never takes back or repeats a delivery: its deliveries only get longer. */
  lemma {:induction false} DeliveriesGrow(run: seq<Net>, steps: seq<Step>, i: nat, n: NodeId)
    requires IsRun(run, steps) && i < |steps| && n in run[i].nodes && steps[i] != Restart(n)
    ensures n in run[i + 1].nodes
    ensures run[i].nodes[n].apply.delivered <= run[i + 1].nodes[n].apply.delivered
  {
    hide NodeAfter;
    hide MessagesOf;
    assert Enabled(run[i], steps[i]) && run[i + 1] == Do(run[i], steps[i]);
    if steps[i].n == n {
      DeliveryStep(run[i], steps[i]);
    }
  }

  lemma {:induction false} DeliveryStep(s: Net, step: Step)
    requires Enabled(s, step) && !step.Restart?
    ensures s.nodes[step.n].apply.delivered <= NodeAfter(s, step).apply.delivered
  {
    hide HandleAppend;
    hide HandleAppendReply;
    hide HandleVoteRequest;
    hide EntryAt;
    hide LastIndex;
    match step
    case OnVoteRequest(n, vote) => VotesDeliverNothing(s.nodes[n], vote);
    case OnAppend(n, args) => AppendsDeliverNothing(s.nodes[n], args);
    case OnAppendReply(n, args, term, success) =>
      RepliesDeliverNothing(s.nodes[n], n, s.ids, args, term, success);
    case _ =>
  }

  lemma {:induction false} VotesDeliverNothing(x: NodeState, vote: VoteArgs)
    ensures HandleVoteRequest(x, vote).0.apply == x.apply
  {
  }

  lemma {:induction false} AppendsDeliverNothing(x: NodeState, a: AppendArgs)
    ensures HandleAppend(x, a).0.apply.delivered == x.apply.delivered
  {
    hide AppendLoop;
    hide EntryAt;
    hide TruncatedFrom;
    hide LastIndex;
  }

  lemma {:induction false} RepliesDeliverNothing(x: NodeState, self: NodeId, ids: set<NodeId>, a: AppendArgs, term: nat,
                                                 success: bool)
    ensures HandleAppendReply(x, self, ids, a, term, success).apply.delivered == x.apply.delivered
  {
    hide Advance;
    hide LastIndex;
  }

  /** All nodes apply the same commands in the same order. */
  lemma {:induction false} DeliveriesAgree(run: seq<Net>, steps: seq<Step>, i: nat, j: nat, n: NodeId, m: NodeId,
                                           k: nat)
    requires IsRun(run, steps) && i < |run| && j < |run| && n in run[i].nodes && m in run[j].nodes
    requires k < |run[i].nodes[n].apply.delivered| && k < |run[j].nodes[m].apply.delivered|
    ensures run[i].nodes[n].apply.delivered[k] == run[j].nodes[m].apply.delivered[k]
  {
    hide IsRun;
    AppliedInOrder(run, steps, i, n);
    AppliedInOrder(run, steps, j, m);
    StateMachineSafety(run, steps, i, j, n, m, k + 1);
  }
}
