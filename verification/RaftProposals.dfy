/** What a nil answer to Propose is worth, over all runs. */
module RaftProposals {
  import opened Prelude
  import opened RaftLog
  import opened RaftNode
  import opened RaftNetwork
  import opened RaftHistory
  import opened RaftLogMatching
  import opened RaftSteps
  import opened RaftSafety
  import opened RaftVotes

  /** The entry was appended by the leader of its term. */
  ghost predicate WasAppended(h: History, e: LogEntry)
  {
    && e.term in h.reigns && 1 <= e.index <= |h.reigns[e.term].log|
    && h.reigns[e.term].log[e.index - 1] == e
  }

  ghost predicate CallsOk(h: History, x: NodeState)
  {
    && (forall e :: e in x.proposals.waiting || e in x.proposals.answered ==> WasAppended(h, e))
    && (forall e :: e in x.proposals.answered ==> e.index <= x.commitIndex)
  }

  lemma {:induction false} AppendedGrows(h: History, h': History, e: LogEntry)
    requires WasAppended(h, e) && Grows(h, h')
    ensures WasAppended(h', e)
  {
    assert h.reigns[e.term].log <= h'.reigns[e.term].log;
  }

  lemma {:induction false} CallsGrow(h: History, h': History, x: NodeState, y: NodeState)
    requires CallsOk(h, x) && Grows(h, h') && y.proposals == x.proposals && y.commitIndex >= x.commitIndex
    ensures CallsOk(h', y)
  {
    hide Grows;
    hide WasAppended;
    forall e | e in y.proposals.waiting || e in y.proposals.answered
      ensures WasAppended(h', e)
    {
      AppendedGrows(h, h', e);
    }
  }

  // ---------- the commit index of a process only rises ----------

  lemma {:induction false} KnownWithin(s: Net, h: History, n: NodeId)
    requires Inv(s, h) && n in s.nodes
    ensures s.nodes[n].commitIndex <= At(h.known, n) <= |s.nodes[n].log| == LastIndex(s.nodes[n].log)
  {
    hide MessageOk;
    assert NodeOk(s.ids, h, n, s.nodes[n]);
    hide HistoryOk;
    hide AckerOk;
    hide VoterOk;
    hide TallyOk;
    hide LeaderOk;
    hide RoleOk;
    NodeLog(s, h, h, n);
    GenuineIndexed(h, s.nodes[n].log);
    IndexedAccess(s.nodes[n].log, 0);
  }

  lemma {:induction false} AppendCommit(x: NodeState, a: AppendArgs)
    requires x.commitIndex <= LastIndex(HandleAppend(x, a).0.log)
    ensures HandleAppend(x, a).0.commitIndex >= x.commitIndex
    ensures HandleAppend(x, a).0.proposals == x.proposals
  {
    hide AppendLoop;
    hide EntryAt;
    hide TruncatedFrom;
    hide LastIndex;
  }

  lemma {:induction false} VoteKeepsCalls(x: NodeState, v: VoteArgs)
    ensures HandleVoteRequest(x, v).0.proposals == x.proposals && HandleVoteRequest(x, v).0.commitIndex == x.commitIndex
  {
    hide UpToDate;
  }

  lemma {:induction false} AppendKeepsCalls(s: Net, h: History, step: Step)
    requires Inv(s, h) && Enabled(s, step) && step.OnAppend?
    requires Inv(Do(s, step), After(s, h, step)) && Grows(h, After(s, h, step))
    ensures NodeAfter(s, step).proposals == s.nodes[step.n].proposals
    ensures NodeAfter(s, step).commitIndex >= s.nodes[step.n].commitIndex
  {
    hide Inv;
    hide After;
    hide HandleAppend;
    var n := step.n;
    assert Do(s, step).nodes[n] == NodeAfter(s, step) == HandleAppend(s.nodes[n], step.args).0;
    KnownRises(h, After(s, h, step), n);
    hide Grows;
    KnownWithin(s, h, n);
    KnownWithin(Do(s, step), After(s, h, step), n);
    AppendCommit(s.nodes[n], step.args);
  }

  lemma {:induction false} KnownRises(h: History, h': History, n: NodeId)
    requires Grows(h, h')
    ensures At(h.known, n) <= At(h'.known, n)
  {
  }

  /** Steps other than proposing, a reply, and a restart leave the calls as they are. */
  lemma {:induction false} CallsKept(s: Net, h: History, step: Step)
    requires Inv(s, h) && Enabled(s, step) && !step.Propose? && !step.OnAppendReply? && !step.Restart?
    requires Inv(Do(s, step), After(s, h, step)) && Grows(h, After(s, h, step))
    ensures NodeAfter(s, step).proposals == s.nodes[step.n].proposals
    ensures NodeAfter(s, step).commitIndex >= s.nodes[step.n].commitIndex
  {
    hide Inv;
    hide After;
    hide Grows;
    hide HandleAppend;
    hide HandleVoteRequest;
    hide EntryAt;
    if step.OnAppend? {
      AppendKeepsCalls(s, h, step);
    } else if step.OnVoteRequest? {
      VoteKeepsCalls(s.nodes[step.n], step.vote);
    }
  }

  // ---------- proposing and answering ----------

  lemma {:induction false} ProposeCalls(h: History, h': History, n: NodeId, x: NodeState, cmdType: Byte, data: Bytes)
    requires CallsOk(h, x) && Grows(h, h') && LastIndex(x.log) == |x.log|
    requires x.currentTerm in h'.reigns && h'.reigns[x.currentTerm].log == ProposeEntry(x, n, cmdType, data).log
    ensures CallsOk(h', ProposeEntry(x, n, cmdType, data))
  {
    hide Grows;
    hide LastIndex;
    var y := ProposeEntry(x, n, cmdType, data);
    var e := y.log[|x.log|];
    assert WasAppended(h', e);
    hide WasAppended;
    forall f | f in y.proposals.waiting || f in y.proposals.answered
      ensures WasAppended(h', f)
    {
      if f != e {
        AppendedGrows(h, h', f);
      }
    }
  }

  lemma {:induction false} CallsAfterPropose(s: Net, h: History, step: Step)
    requires Inv(s, h) && Enabled(s, step) && step.Propose? && CallsOk(h, s.nodes[step.n])
    requires Grows(h, After(s, h, step))
    ensures CallsOk(After(s, h, step), NodeAfter(s, step))
  {
    hide Grows;
    hide Inv;
    hide CallsOk;
    hide ProposeEntry;
    var n := step.n;
    KnownWithin(s, h, n);
    GrowsSelf(h, 0);
    LeaderReign(s, h, h, n);
    ProposeCalls(h, After(s, h, step), n, s.nodes[n], step.cmdType, step.data);
  }

  /** A reply may raise the commit index and then answers the calls it has reached. */
  lemma {:induction false} ReplyCalls(x: NodeState, self: NodeId, ids: set<NodeId>, a: AppendArgs, term: nat,
                                      success: bool)
    ensures var y := HandleAppendReply(x, self, ids, a, term, success);
            && y.commitIndex >= x.commitIndex
            && y.proposals ==
                (if y.commitIndex > x.commitIndex then Resolved(x.proposals, y.commitIndex) else x.proposals)
            && (y.commitIndex > x.commitIndex ==>
                  x.role == Leader == y.role && y.currentTerm == x.currentTerm == a.term && y.log == x.log)
  {
    hide Advance;
    hide LastIndex;
    hide Resolved;
  }

  lemma {:induction false} CallsAfterReply(h: History, h': History, x: NodeState, y: NodeState)
    requires CallsOk(h, x) && Grows(h, h') && y.commitIndex >= x.commitIndex
    requires y.proposals == Resolved(x.proposals, y.commitIndex)
    ensures CallsOk(h', y)
  {
    hide Grows;
    hide WasAppended;
    forall e | e in y.proposals.waiting || e in y.proposals.answered
      ensures WasAppended(h', e)
    {
      assert e in x.proposals.waiting || e in x.proposals.answered;
      AppendedGrows(h, h', e);
    }
  }

  lemma {:induction false} CallsStep(s: Net, h: History, step: Step)
    requires Inv(s, h) && Enabled(s, step) && CallsOk(h, s.nodes[step.n])
    requires Inv(Do(s, step), After(s, h, step)) && Grows(h, After(s, h, step))
    ensures CallsOk(After(s, h, step), NodeAfter(s, step))
  {
    hide Inv;
    hide After;
    hide Grows;
    var n := step.n;
    var x, y, h' := s.nodes[n], NodeAfter(s, step), After(s, h, step);
    match step
    case Propose(_, _, _) =>
      hide CallsOk;
      CallsAfterPropose(s, h, step);
    case OnAppendReply(_, args, term, success) =>
      hide HandleAppendReply;
      hide CallsOk;
      ReplyCalls(x, n, s.ids, args, term, success);
      if y.commitIndex > x.commitIndex {
        CallsAfterReply(h, h', x, y);
      } else {
        CallsGrow(h, h', x, y);
      }
    case Restart(_) =>
    case _ =>
      hide CallsOk;
      hide NodeAfter;
      CallsKept(s, h, step);
      CallsGrow(h, h', x, y);
  }

  lemma {:induction false} CallsAt(run: seq<Net>, steps: seq<Step>, i: nat, n: NodeId)
    requires IsRun(run, steps) && i < |run| && n in run[i].nodes
    ensures CallsOk(HistoryAt(run, steps, i), run[i].nodes[n])
    decreases i
  {
    hide Inv;
    hide CallsOk;
    hide Grows;
    hide NodeAfter;
    hide MessagesOf;
    hide After;
    if i == 0 {
      NoCalls(run[0], n);
    } else {
      var step := steps[i - 1];
      assert Enabled(run[i - 1], step) && run[i] == Do(run[i - 1], step);
      hide Enabled;
      HistoryInv(run, steps, i - 1);
      HistoryInv(run, steps, i);
      var h, h' := HistoryAt(run, steps, i - 1), HistoryAt(run, steps, i);
      CallsAt(run, steps, i - 1, n);
      if step.n == n {
        CallsStep(run[i - 1], h, step);
      } else {
        CallsGrow(h, h', run[i - 1].nodes[n], run[i].nodes[n]);
      }
    }
  }

  lemma {:induction false} NoCalls(s: Net, n: NodeId)
    requires Init(s) && n in s.nodes
    ensures CallsOk(NoHistory, s.nodes[n])
  {
  }

  // ---------- what the answer is worth ----------

  lemma {:induction false} AppendedMatches(h: History, log: Entries, e: LogEntry)
    requires ReignsOk(h) && Genuine(h, log) && WasAppended(h, e) && e.index <= |log|
    ensures log[e.index - 1] == e <==> log[e.index - 1].term == e.term
  {
    hide ReignsOk;
    hide Genuine;
    var k := e.index - 1;
    GenuineAt(h, log, k);
    assert log[..k + 1][k] == log[k];
  }

  /** A proposal that was answered is committed exactly if the entry at its index has its term. */
  lemma {:induction false} ProposalAnswer(run: seq<Net>, steps: seq<Step>, i: nat, n: NodeId, e: LogEntry)
    requires IsRun(run, steps) && i < |run| && n in run[i].nodes && e in run[i].nodes[n].proposals.answered
    ensures var x := run[i].nodes[n];
            && 1 <= e.index <= x.commitIndex <= |x.log|
            && (x.log[e.index - 1] == e <==> x.log[e.index - 1].term == e.term)
  {
    hide Inv;
    hide IsRun;
    hide HistoryAt;
    hide Genuine;
    hide ReignsOk;
    hide Grows;
    hide NodeOk;
    hide HistoryOk;
    var h := HistoryAt(run, steps, i);
    var x := run[i].nodes[n];
    HistoryInv(run, steps, i);
    CallsAt(run, steps, i, n);
    KnownWithin(run[i], h, n);
    GrowsSelf(h, 0);
    NodeLog(run[i], h, h, n);
    AppendedMatches(h, x.log, e);
  }

  lemma {:induction false} AnsweringStep(s: Net, h: History, step: Step, n: NodeId, e: LogEntry)
    requires Inv(s, h) && Enabled(s, step) && n in s.nodes
    requires Inv(Do(s, step), After(s, h, step)) && Grows(h, After(s, h, step))
    requires e in Do(s, step).nodes[n].proposals.answered && e !in s.nodes[n].proposals.answered
    ensures step.OnAppendReply? && step.n == n && e in s.nodes[n].proposals.waiting
    ensures var x, y := s.nodes[n], Do(s, step).nodes[n];
            x.role == Leader && x.commitIndex < y.commitIndex && e.index <= y.commitIndex && y.log == x.log
  {
    hide Inv;
    hide After;
    hide Grows;
    assert step.n == n;
    var x, y := s.nodes[n], NodeAfter(s, step);
    match step
    case Propose(_, _, _) =>
    case OnAppendReply(_, args, term, success) =>
      hide HandleAppendReply;
      ReplyCalls(x, n, s.ids, args, term, success);
    case Restart(_) =>
    case _ =>
      hide NodeAfter;
      CallsKept(s, h, step);
  }

  /** The step that answers a call is a reply that raises a leader's commit index. The answer is
      right if the leader is still in the term of the proposal. */
  lemma {:induction false} SameTermAnswer(run: seq<Net>, steps: seq<Step>, i: nat, n: NodeId, e: LogEntry)
    requires IsRun(run, steps) && i < |steps| && n in run[i].nodes && n in run[i + 1].nodes
    requires e in run[i + 1].nodes[n].proposals.answered && e !in run[i].nodes[n].proposals.answered
    ensures steps[i].OnAppendReply? && steps[i].n == n && e in run[i].nodes[n].proposals.waiting
    ensures var x, y := run[i].nodes[n], run[i + 1].nodes[n];
            && x.role == Leader && x.commitIndex < y.commitIndex && 1 <= e.index <= y.commitIndex <= |y.log|
            && (x.currentTerm == e.term ==> y.log[e.index - 1] == e)
  {
    hide Inv;
    hide Grows;
    hide Do;
    hide After;
    var step := steps[i];
    assert Enabled(run[i], step) && run[i + 1] == Do(run[i], step);
    hide Enabled;
    ProposalAnswer(run, steps, i + 1, n, e);
    CallsAt(run, steps, i, n);
    HistoryInv(run, steps, i);
    HistoryInv(run, steps, i + 1);
    var h := HistoryAt(run, steps, i);
    assert HistoryAt(run, steps, i + 1) == After(run[i], h, step);
    AnsweringStep(run[i], h, step, n, e);
    LeaderLog(run[i], h, n);
  }

  lemma {:induction false} LeaderLog(s: Net, h: History, n: NodeId)
    requires Inv(s, h) && n in s.nodes && s.nodes[n].role == Leader
    ensures s.nodes[n].currentTerm in h.reigns && h.reigns[s.nodes[n].currentTerm].log == s.nodes[n].log
  {
    hide MessageOk;
    hide HistoryOk;
    assert NodeOk(s.ids, h, n, s.nodes[n]);
  }

  // ---------- which steps make an answer wrong ----------

  ghost predicate Has(log: Entries, e: LogEntry)
  {
    1 <= e.index <= |log| && log[e.index - 1] == e
  }

  ghost predicate InLog(run: seq<Net>, q: nat, n: NodeId, e: LogEntry)
  {
    q < |run| && n in run[q].nodes && Has(run[q].nodes[n].log, e)
  }

  /** The node takes a request of a later term than the entry's and loses the entry by it. */
  ghost predicate Replaced(run: seq<Net>, steps: seq<Step>, q: nat, n: NodeId, e: LogEntry)
  {
    && q < |steps| && steps[q].OnAppend? && steps[q].n == n && steps[q].args.term > e.term
    && InLog(run, q, n, e) && !InLog(run, q + 1, n, e)
  }

  /** It takes a request and gets the entry back. */
  ghost predicate Restored(run: seq<Net>, steps: seq<Step>, q: nat, n: NodeId, e: LogEntry)
  {
    && q < |steps| && steps[q].OnAppend? && steps[q].n == n
    && !InLog(run, q, n, e) && InLog(run, q + 1, n, e)
  }

  /** The node led the entry's term and appended it. */
  ghost predicate MadeBy(h: History, e: LogEntry, n: NodeId)
  {
    WasAppended(h, e) && h.reigns[e.term].leader == n
  }

  lemma {:induction false} MadeGrows(h: History, h': History, e: LogEntry, n: NodeId)
    requires MadeBy(h, e, n) && Grows(h, h')
    ensures MadeBy(h', e, n)
  {
    AppendedGrows(h, h', e);
  }

  lemma {:induction false} ProposeKeepsLog(x: NodeState, self: NodeId, cmdType: Byte, data: Bytes, e: LogEntry)
    requires LastIndex(x.log) == |x.log| && (x.currentTerm == e.term ==> e.index <= |x.log|)
    ensures Has(ProposeEntry(x, self, cmdType, data).log, e) <==> Has(x.log, e)
  {
    hide LastIndex;
  }

  lemma {:induction false} ReplyKeepsLog(x: NodeState, self: NodeId, ids: set<NodeId>, a: AppendArgs, term: nat,
                                         success: bool)
    ensures HandleAppendReply(x, self, ids, a, term, success).log == x.log
  {
    hide Advance;
    hide LastIndex;
    hide Resolved;
  }

  lemma {:induction false} VoteKeepsLog(x: NodeState, v: VoteArgs)
    ensures HandleVoteRequest(x, v).0.log == x.log
  {
    hide UpToDate;
  }

  lemma {:induction false} OldRequest(x: NodeState, a: AppendArgs)
    requires a.term < x.currentTerm
    ensures HandleAppend(x, a).0 == x
  {
  }

  /** Only a request changes whether the entry is in its maker's log. */
  lemma {:induction false} OnlyAppends(s: Net, h: History, step: Step, e: LogEntry)
    requires Inv(s, h) && Enabled(s, step) && MadeBy(h, e, step.n) && !step.OnAppend?
    ensures Has(NodeAfter(s, step).log, e) <==> Has(s.nodes[step.n].log, e)
  {
    hide Inv;
    hide Has;
    var n := step.n;
    var x := s.nodes[n];
    match step
    case Propose(_, cmdType, data) =>
      KnownWithin(s, h, n);
      LeaderLog(s, h, n);
      ProposeKeepsLog(x, n, cmdType, data, e);
    case OnAppendReply(_, args, term, success) => ReplyKeepsLog(x, n, s.ids, args, term, success);
    case OnVoteRequest(_, vote) => VoteKeepsLog(x, vote);
    case _ =>
  }

  /** A request of its own term cannot reach the node that led it. */
  lemma {:induction false} LaterRequest(s: Net, h: History, e: LogEntry, args: AppendArgs, n: NodeId)
    requires Inv(s, h) && Append(args) in s.sent && args.to == n && MadeBy(h, e, n)
    ensures args.term != e.term
  {
    hide HistoryOk;
    hide NodeOk;
    assert MessageOk(s.ids, h, Append(args));
  }

  lemma {:induction false} EntryStep(s: Net, h: History, step: Step, n: NodeId, e: LogEntry)
    requires Inv(s, h) && Enabled(s, step) && n in s.nodes && MadeBy(h, e, n) && e.term <= s.nodes[n].currentTerm
    ensures Has(Do(s, step).nodes[n].log, e) != Has(s.nodes[n].log, e) ==>
              step.OnAppend? && step.n == n && step.args.term > e.term
  {
    hide Inv;
    hide Has;
    hide MadeBy;
    hide HandleAppend;
    hide HandleVoteRequest;
    hide HandleAppendReply;
    if step.n == n {
      if step.OnAppend? {
        LaterRequest(s, h, e, step.args, n);
        if step.args.term < s.nodes[n].currentTerm {
          OldRequest(s.nodes[n], step.args);
        }
      } else {
        OnlyAppends(s, h, step, e);
      }
    }
  }

  /** The entry a Propose step appends. */
  ghost function Proposed(run: seq<Net>, steps: seq<Step>, i: nat): (r: LogEntry)
    requires i < |steps| && i < |run| && steps[i].n in run[i].nodes && steps[i].Propose?
  {
    var x := run[i].nodes[steps[i].n];
    LogEntry(x.currentTerm, LastIndex(x.log) + 1, steps[i].cmdType, steps[i].data)
  }

  lemma {:induction false} ProposedIs(run: seq<Net>, steps: seq<Step>, i: nat)
    requires IsRun(run, steps) && i < |steps| && steps[i].Propose? && steps[i].n in run[i].nodes
    ensures var e, n := Proposed(run, steps, i), steps[i].n;
            && InLog(run, i + 1, n, e) && run[i + 1].nodes[n].currentTerm == e.term
            && MadeBy(HistoryAt(run, steps, i + 1), e, n)
  {
    hide Inv;
    hide After;
    hide MadeBy;
    var n := steps[i].n;
    assert Enabled(run[i], steps[i]) && run[i + 1] == Do(run[i], steps[i]);
    var h := HistoryAt(run, steps, i);
    HistoryInv(run, steps, i);
    assert HistoryAt(run, steps, i + 1) == After(run[i], h, steps[i]);
    KnownWithin(run[i], h, n);
    ProposedMade(run[i], h, steps[i], Proposed(run, steps, i));
  }

  lemma {:induction false} ProposedMade(s: Net, h: History, step: Step, e: LogEntry)
    requires Inv(s, h) && Enabled(s, step) && step.Propose?
    requires e == LogEntry(s.nodes[step.n].currentTerm, LastIndex(s.nodes[step.n].log) + 1, step.cmdType, step.data)
    ensures MadeBy(After(s, h, step), e, step.n)
  {
    hide Inv;
    KnownWithin(s, h, step.n);
    LeaderMakes(s, h, step.n);
  }

  lemma {:induction false} LeaderMakes(s: Net, h: History, n: NodeId)
    requires Inv(s, h) && n in s.nodes && s.nodes[n].role == Leader
    ensures var t := s.nodes[n].currentTerm;
            t in h.reigns && h.reigns[t].leader == n && h.reigns[t].log == s.nodes[n].log
  {
    hide MessageOk;
    hide HistoryOk;
    assert NodeOk(s.ids, h, n, s.nodes[n]);
  }

  lemma {:induction false} EntryAtStep(run: seq<Net>, steps: seq<Step>, i: nat, q: nat)
    requires IsRun(run, steps) && i < q < |steps| && steps[i].Propose? && steps[i].n in run[i].nodes
    ensures var e, n := Proposed(run, steps, i), steps[i].n;
            && (InLog(run, q, n, e) && !InLog(run, q + 1, n, e) ==> Replaced(run, steps, q, n, e))
            && (!InLog(run, q, n, e) && InLog(run, q + 1, n, e) ==> Restored(run, steps, q, n, e))
  {
    hide Inv;
    hide Grows;
    hide Has;
    hide MadeBy;
    hide Enabled;
    hide Do;
    hide HistoryAt;
    hide Proposed;
    var e, n := Proposed(run, steps, i), steps[i].n;
    ProposedIs(run, steps, i);
    TermsRise(run, steps, i + 1, q, n);
    TermsRise(run, steps, q, q + 1, n);
    HistoryInv(run, steps, q);
    HistoryGrows(run, steps, i + 1, q);
    MadeGrows(HistoryAt(run, steps, i + 1), HistoryAt(run, steps, q), e, n);
    EntryStep(run[q], HistoryAt(run, steps, q), steps[q], n, e);
  }

  /** After its proposal an entry is missing from its leader's log exactly if a request of a later
      leader replaced it and no request since has brought it back. */
  lemma {:induction false} EntryLostExactly(run: seq<Net>, steps: seq<Step>, i: nat, j: nat)
    requires IsRun(run, steps) && i < j < |run| && steps[i].Propose? && steps[i].n in run[i].nodes
    ensures var e, n := Proposed(run, steps, i), steps[i].n;
            !InLog(run, j, n, e) <==>
            exists q :: i < q < j && Replaced(run, steps, q, n, e) && forall r :: q < r < j ==>
                  !Restored(run, steps, r, n, e)
    decreases j
  {
    hide IsRun;
    hide Proposed;
    hide InLog;
    Lengths(run, steps);
    var e, n := Proposed(run, steps, i), steps[i].n;
    if j == i + 1 {
      ProposedIs(run, steps, i);
    } else {
      var p := j - 1;
      EntryLostExactly(run, steps, i, p);
      EntryAtStep(run, steps, i, p);
      if InLog(run, p, n, e) {
        forall q | i < q < p && Replaced(run, steps, q, n, e)
          ensures exists r :: q < r < j && Restored(run, steps, r, n, e)
        {
          var r :| q < r < p && Restored(run, steps, r, n, e);
        }
        assert !InLog(run, j, n, e) ==> Replaced(run, steps, p, n, e);
      } else {
        var q :| i < q < p && Replaced(run, steps, q, n, e) && forall r :: q < r < p ==> !Restored(run, steps, r, n, e);
        if InLog(run, j, n, e) {
          assert Restored(run, steps, p, n, e);
        } else {
          assert forall r :: q < r < j ==> !Restored(run, steps, r, n, e);
        }
      }
    }
  }

  lemma {:induction false} Lengths(run: seq<Net>, steps: seq<Step>)
    requires IsRun(run, steps)
    ensures |run| == |steps| + 1
  {
    hide Enabled;
    hide Do;
  }

  /** A proposal that was answered is not in the log of the node that answered it exactly if, since the
      call, a later leader's request replaced it there and none has brought it back. */
  lemma {:induction false} AnswerWrongExactly(run: seq<Net>, steps: seq<Step>, i: nat, j: nat)
    requires IsRun(run, steps) && i < j < |run| && steps[i].Propose? && steps[i].n in run[i].nodes
             && steps[i].n in run[j].nodes
    requires Proposed(run, steps, i) in run[j].nodes[steps[i].n].proposals.answered
    ensures var e, n := Proposed(run, steps, i), steps[i].n;
            && 1 <= e.index <= run[j].nodes[n].commitIndex <= |run[j].nodes[n].log|
            && (run[j].nodes[n].log[e.index - 1] != e <==>
                exists q :: i < q < j && Replaced(run, steps, q, n, e)
                            && forall r :: q < r < j ==> !Restored(run, steps, r, n, e))
  {
    hide IsRun;
    hide Proposed;
    hide Replaced;
    hide Restored;
    Lengths(run, steps);
    ProposalAnswer(run, steps, j, steps[i].n, Proposed(run, steps, i));
    EntryLostExactly(run, steps, i, j);
  }
}
