/** Log Matching: what genuine logs have in common, and what the append loop does to them. */
module RaftLogMatching {
  import opened RaftLog
  import opened RaftNode
  import opened RaftHistory

  /** Every entry of a genuine log was made by a reign that agrees up to it. */
  lemma {:induction false} GenuineAt(h: History, log: Entries, i: nat)
    requires ReignsOk(h) && Genuine(h, log) && i < |log|
    ensures log[i].term in h.reigns && log[..i + 1] <= h.reigns[log[i].term].log
    ensures log[i].index == i + 1
    ensures log[i].term <= LastTerm(log)
  {
    var t := LastTerm(log);
    assert ReignLogOk(h, t);
    var r := h.reigns[t].log;
    assert r[i] == log[i];
    assert log[..i + 1] == r[..i + 1];
    assert r[|log| - 1].term == t;
  }

  lemma {:induction false} GenuineIndexed(h: History, log: Entries)
    requires ReignsOk(h) && Genuine(h, log)
    ensures Indexed(log) && LastIndex(log) == |log|
  {
    forall i | 0 <= i < |log|
      ensures log[i].index == i + 1
    {
      GenuineAt(h, log, i);
    }
  }

  lemma {:induction false} GenuineTake(h: History, log: Entries, k: nat)
    requires ReignsOk(h) && Genuine(h, log) && k <= |log|
    ensures Genuine(h, log[..k])
    ensures LastTerm(log[..k]) <= LastTerm(log)
  {
    if k > 0 {
      GenuineAt(h, log, k - 1);
    }
  }

  lemma {:induction false} GenuineSorted(h: History, log: Entries, i: nat, j: nat)
    requires ReignsOk(h) && Genuine(h, log) && i <= j < |log|
    ensures log[i].term <= log[j].term
  {
    GenuineTake(h, log, j + 1);
    GenuineAt(h, log[..j + 1], i);
  }

  lemma {:induction false} ReignGenuine(h: History, t: nat)
    requires ReignsOk(h) && t in h.reigns
    ensures Genuine(h, h.reigns[t].log)
    ensures LastTerm(h.reigns[t].log) <= t
  {
    var r := h.reigns[t].log;
    assert ReignLogOk(h, t);
    if |r| > 0 {
      assert r[..|r| - 1 + 1] == r;
    }
  }

  /** Log Matching: logs that agree on a term at an index agree up to that index. */
  lemma {:induction false} AgreeUpTo(h: History, a: Entries, b: Entries, i: nat)
    requires ReignsOk(h) && Genuine(h, a) && Genuine(h, b)
    requires i < |a| && i < |b| && a[i].term == b[i].term
    ensures a[..i + 1] == b[..i + 1]
  {
    GenuineAt(h, a, i);
    GenuineAt(h, b, i);
    var r := h.reigns[a[i].term].log;
    assert a[..i + 1] == r[..i + 1] == b[..i + 1];
  }

  /** Whatever `log` and `lead` had in common from the start is still in `log'`. */
  ghost predicate Retains(log: Entries, lead: Entries, log': Entries)
  {
    forall k :: 0 <= k <= |log| && k <= |lead| && log[..k] == lead[..k] ==>
      k <= |log'| && log'[..k] == log[..k]
  }

  /** A shared initial part ends before the first difference. */
  lemma {:induction false} SharedBound(log: Entries, lead: Entries, m: nat, k: nat)
    requires m <= |log| && m <= |lead| && log[..m] == lead[..m]
    requires k < |log| && k < |lead| && log[k].term != lead[k].term
    ensures m <= k
  {
    if k < m {
      assert false;
    }
  }

  /** Cutting the log before its first difference from the leader, with or without the leader's
      entries put back, loses nothing shared. */
  lemma {:induction false} CutRetains(log: Entries, lead: Entries, k: nat, log': Entries)
    requires k <= |log| && k <= |lead| && log[..k] == lead[..k] && log[..k] <= log'
    requires k < |log| && k < |lead| ==> log[k].term != lead[k].term
    requires k == |log| || k < |lead|
    ensures Retains(log, lead, log')
  {
    forall m | 0 <= m <= |log| && m <= |lead| && log[..m] == lead[..m]
      ensures m <= |log'| && log'[..m] == log[..m]
    {
      if k < |log| {
        SharedBound(log, lead, m, k);
      }
      assert log'[..m] == log[..k][..m];
      assert log[..k][..m] == log[..m];
    }
  }

  /** One turn of the append loop that ends it: the follower now has the leader's entries. */
  lemma {:induction false} AppendTurn(log: Entries, lead: Entries, prev: nat, es: Entries, i: nat)
    requires Indexed(log) && Indexed(lead)
    requires i < |es| && prev + |es| <= |lead| && es == lead[prev..prev + |es|]
    requires prev + i <= |log| && log[..prev + i] == lead[..prev + i]
    ensures var k := prev + i;
            if k < |log| && log[k].term == lead[k].term
            then AppendLoop(log, es, i) == AppendLoop(log, es, i + 1)
            else AppendLoop(log, es, i) == lead[..prev + |es|]
  {
    var k := prev + i;
    assert es[i] == lead[k];
    IndexedAccess(log, es[i].index);
    assert log[..k] + es[i..] == lead[..prev + |es|];
    if k == |log| {
      assert log[..k] == log;
    }
  }

  /** The append loop, given agreement before entry i: afterwards the follower agrees with the
      leader through the last entry sent, its log is its old one or exactly the leader's part,
      and nothing the two shared was lost. */
  lemma {:induction false} AppendLoopEffect(h: History, log: Entries, lead: Entries, prev: nat, es: Entries, i: nat)
    requires ReignsOk(h) && Genuine(h, log) && Genuine(h, lead)
    requires i <= |es| && prev + |es| <= |lead| && es == lead[prev..prev + |es|]
    requires prev + i <= |log| && log[..prev + i] == lead[..prev + i]
    ensures var r := AppendLoop(log, es, i);
            && lead[..prev + |es|] <= r
            && (r == log || r == lead[..prev + |es|])
            && Retains(log, lead, r)
    decreases |es| - i
  {
    hide Genuine;
    hide ReignsOk;
    hide EntryAt;
    if i < |es| {
      GenuineIndexed(h, log);
      GenuineIndexed(h, lead);
      AppendTurn(log, lead, prev, es, i);
      var k := prev + i;
      if k < |log| && log[k].term == lead[k].term {
        AgreeUpTo(h, log, lead, k);
        AppendLoopEffect(h, log, lead, prev, es, i + 1);
      } else {
        assert lead[..k] == lead[..prev + |es|][..k];
        CutRetains(log, lead, k, lead[..prev + |es|]);
      }
    }
  }

  lemma {:induction false} RetainsPrefix(log: Entries, lead: Entries, log': Entries, p: Entries)
    requires Retains(log, lead, log') && p <= log && p <= lead
    ensures p <= log'
  {
    assert log[..|p|] == p == lead[..|p|];
    assert log'[..|p|] == p;
  }
}
