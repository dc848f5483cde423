/**
 Where a campaign's status comes from: a finished status was once exactly what the jobs said, and a run
 that has answered has left its campaign under way.
 */
module LedgerVerdicts {
  import opened Ledger
  import opened LedgerCampaigns
  import opened LedgerSafety
  import opened RateLimiter
  import opened Schema

  // ---- Verdicts -----------------------------------------------------------------------------------

  predicate IsVerdict(status: CampaignStatus)
  {
    status == Completed || status == PartiallyFailed
  }

  ghost predicate SomeFailed(rows: Rows, c: CampaignId)
  {
    exists id :: id in rows && rows[id].campaign == c && rows[id].status == Failed
  }

  /** Nothing of the campaign is pending, and the status says whether some job is FAILED. */
  ghost predicate Fits(rows: Rows, c: CampaignId, status: CampaignStatus)
  {
    && (forall id :: id in rows && rows[id].campaign == c ==> rows[id].status != Scheduled && rows[id].status != Processing)
    && status == if SomeFailed(rows, c) then PartiallyFailed else Completed
  }

  /** The status fitted the jobs after the first `k` actions. */
  ghost predicate FittedAt(policy: Policy, trace: seq<Action>, k: nat, c: CampaignId, status: CampaignStatus)
  {
    k <= |trace| && Fits(Exec(policy, EMPTY, trace[..k]).rows, c, status)
  }

  ghost predicate Fitted(policy: Policy, trace: seq<Action>, c: CampaignId, status: CampaignStatus)
  {
    exists k: nat :: FittedAt(policy, trace, k, c, status)
  }

  lemma FittedStays(policy: Policy, trace: seq<Action>, a: Action, c: CampaignId, status: CampaignStatus)
    requires Fitted(policy, trace, c, status)
    ensures Fitted(policy, trace + [a], c, status)
  {
    var k: nat :| FittedAt(policy, trace, k, c, status);
    assert (trace + [a])[..k] == trace[..k];
    assert FittedAt(policy, trace + [a], k, c, status);
  }

  lemma FitsNow(policy: Policy, trace: seq<Action>, a: Action, c: CampaignId, status: CampaignStatus)
    requires Fits(Exec(policy, EMPTY, trace).rows, c, status)
    ensures Fitted(policy, trace + [a], c, status)
  {
    assert (trace + [a])[..|trace|] == trace;
    assert FittedAt(policy, trace + [a], |trace|, c, status);
  }

  lemma CountFits(rows: Rows, c: CampaignId)
    requires NonePending(rows, c)
    ensures Fits(rows, c, if FailedIds(rows, c) != {} then PartiallyFailed else Completed)
  {
    if SomeFailed(rows, c) {
      var id :| id in rows && rows[id].campaign == c && rows[id].status == Failed;
      assert id in FailedIds(rows, c);
    }
    if !SomeFailed(rows, c) {
      assert forall id :: id !in FailedIds(rows, c);
    }
  }

  /** Every verdict, written or about to be, has fitted. */
  ghost predicate VerdictsFitted(policy: Policy, trace: seq<Action>, s: State)
  {
    && (forall c :: c in s.campaigns && IsVerdict(s.campaigns[c]) ==> Fitted(policy, trace, c, s.campaigns[c]))
    && (forall r :: r in s.runs && s.runs[r].pc.ToWriteCampaign? && s.runs[r].job in s.rows ==>
          Fitted(policy, trace, CampaignOf(s, r), s.runs[r].pc.verdict))
  }

  lemma NextVerdictFitted(policy: Policy, trace: seq<Action>, a: Action, s: State, c: CampaignId)
    requires s == Exec(policy, EMPTY, trace) && VerdictsFitted(policy, trace, s)
    requires c in Next(policy, s, a).campaigns && IsVerdict(Next(policy, s, a).campaigns[c])
    ensures Fitted(policy, trace + [a], c, Next(policy, s, a).campaigns[c])
  {
    hide Next, Fitted;
    StatusStep(policy, s, a, c);
    if c in s.campaigns && Next(policy, s, a).campaigns[c] == s.campaigns[c] {
      FittedStays(policy, trace, a, c, s.campaigns[c]);
    } else {
      FittedStays(policy, trace, a, c, s.runs[a.run].pc.verdict);
    }
  }

  lemma NextWriterFitted(policy: Policy, trace: seq<Action>, a: Action, s: State, r: RunId)
    requires s == Exec(policy, EMPTY, trace) && VerdictsFitted(policy, trace, s) && VerdictInv(s, {})
    requires r in Next(policy, s, a).runs && Next(policy, s, a).runs[r].pc.ToWriteCampaign?
    requires Next(policy, s, a).runs[r].job in Next(policy, s, a).rows
    ensures Fitted(policy, trace + [a], CampaignOf(Next(policy, s, a), r), Next(policy, s, a).runs[r].pc.verdict)
  {
    hide Fitted;
    var s' := Next(policy, s, a);
    KnowledgeStep(policy, s, a, r);
    assert KnowledgeHolds(s, r, {}) && s.runs[r].job in s.rows;
    CampaignIsStable(policy, s, a, s.runs[r].job);
    if s'.runs[r].pc == s.runs[r].pc {
      FittedStays(policy, trace, a, CampaignOf(s, r), s.runs[r].pc.verdict);
    } else {
      OwnKnowledgeStep(policy, s, r, a.input);
      CountFits(s.rows, CampaignOf(s, r));
      FitsNow(policy, trace, a, CampaignOf(s, r), s'.runs[r].pc.verdict);
    }
    hide Next;
  }

  lemma {:induction false} RunFitsVerdicts(policy: Policy, trace: seq<Action>)
    ensures VerdictInv(Exec(policy, EMPTY, trace), {})
    ensures VerdictsFitted(policy, trace, Exec(policy, EMPTY, trace))
    decreases |trace|
  {
    EveryRunSparesNone(policy, EMPTY, trace);
    RunKeepsVerdictInv(policy, EMPTY, trace, {});
    if trace != [] {
      var init, a := trace[..|trace| - 1], trace[|trace| - 1];
      assert trace == init + [a];
      RunFitsVerdicts(policy, init);
      ExecOneMore(policy, EMPTY, init, a);
      var s := Exec(policy, EMPTY, init);
      hide Next, Fitted, VerdictInv;
      forall c | c in Next(policy, s, a).campaigns && IsVerdict(Next(policy, s, a).campaigns[c])
        ensures Fitted(policy, trace, c, Next(policy, s, a).campaigns[c])
      {
        NextVerdictFitted(policy, init, a, s, c);
      }
      forall r | r in Next(policy, s, a).runs && Next(policy, s, a).runs[r].pc.ToWriteCampaign?
                 && Next(policy, s, a).runs[r].job in Next(policy, s, a).rows
        ensures Fitted(policy, trace, CampaignOf(Next(policy, s, a), r), Next(policy, s, a).runs[r].pc.verdict)
      {
        NextWriterFitted(policy, init, a, s, r);
      }
    }
  }

  /**
   In every run, whatever throws or crashes: a COMPLETED or PARTIALLY_FAILED campaign had at some moment no
   job SCHEDULED or PROCESSING, and at that moment some job FAILED if and only if it is PARTIALLY_FAILED.
   */
  lemma FinishedStatusHasFitted(policy: Policy, trace: seq<Action>, c: CampaignId)
    requires c in Exec(policy, EMPTY, trace).campaigns
    requires var status := Exec(policy, EMPTY, trace).campaigns[c]; status == Completed || status == PartiallyFailed
    ensures Fitted(policy, trace, c, Exec(policy, EMPTY, trace).campaigns[c])
  {
    RunFitsVerdicts(policy, trace);
  }

  // ---- Campaigns under way ------------------------------------------------------------------------

  /** The run has been through `maybeFinalizeCampaign`. */
  predicate PastFinalize(pc: Pc)
  {
    pc.ToReturn? || pc == Done(SentOutcome) || pc == Done(FailedOutcome)
  }

  /** The campaign of the run's job has left SCHEDULED. */
  predicate UnderWay(s: State, r: RunId)
    requires r in s.runs
  {
    && s.runs[r].job in s.rows
    && CampaignOf(s, r) in s.campaigns
    && s.campaigns[CampaignOf(s, r)] != CampaignScheduled
  }

  lemma LeftScheduledStays(policy: Policy, s: State, a: Action, c: CampaignId)
    requires VerdictInv(s, {}) && c in s.campaigns && s.campaigns[c] != CampaignScheduled
    ensures c in Next(policy, s, a).campaigns && Next(policy, s, a).campaigns[c] != CampaignScheduled
  {
    hide Next;
    CampaignsStay(policy, s, a);
    StatusStep(policy, s, a, c);
    if a.Work? && a.run in s.runs {
      assert KnowledgeHolds(s, a.run, {});
    }
  }

  lemma FinalizeLeavesScheduled(policy: Policy, s: State, r: RunId, input: Input)
    requires VerdictInv(s, {}) && r in s.runs && (s.runs[r].pc.ToMarkProcessing? || s.runs[r].pc.ToWriteCampaign?)
    ensures UnderWay(Next(policy, s, Work(r, input)), r)
  {
    assert KnowledgeHolds(s, r, {}) && Live(s.runs[r].pc);
    assert s.runs[r].job in s.rows && CampaignOf(s, r) in s.campaigns;
    match s.runs[r].pc {
      case ToMarkProcessing(_) =>
      case ToWriteCampaign(_, _) =>
    }
  }

  lemma NextKeepsUnderWay(policy: Policy, s: State, a: Action, r: RunId)
    requires VerdictInv(s, {}) && (r in s.runs && PastFinalize(s.runs[r].pc) ==> UnderWay(s, r))
    requires r in Next(policy, s, a).runs && PastFinalize(Next(policy, s, a).runs[r].pc)
    ensures UnderWay(Next(policy, s, a), r)
  {
    hide Next, VerdictInv;
    if r !in s.runs {
      NewRunIsNew(policy, s, a, r);
    } else {
      NextOnRun(policy, s, a, r);
      if PastFinalize(s.runs[r].pc) {
        CampaignIsStable(policy, s, a, s.runs[r].job);
        LeftScheduledStays(policy, s, a, CampaignOf(s, r));
      } else {
        FinalizeLeavesScheduled(policy, s, r, a.input);
      }
    }
  }

  ghost predicate AllUnderWay(s: State)
  {
    forall r :: r in s.runs && PastFinalize(s.runs[r].pc) ==> UnderWay(s, r)
  }

  lemma {:induction false} RunKeepsUnderWay(policy: Policy, s: State, trace: seq<Action>)
    requires VerdictInv(s, {}) && AllUnderWay(s)
    ensures AllUnderWay(Exec(policy, s, trace))
    decreases |trace|
  {
    if trace != [] {
      var s1 := Next(policy, s, trace[0]);
      NextKeepsVerdictInv(policy, s, trace[0], {});
      forall r | r in s1.runs && PastFinalize(s1.runs[r].pc)
        ensures UnderWay(s1, r)
      {
        NextKeepsUnderWay(policy, s, trace[0], r);
      }
      RunKeepsUnderWay(policy, s1, trace[1..]);
    }
    hide Next, VerdictInv;
  }

  /** In every run, once a worker has answered "sent" or "failed", the campaign of its job is no longer SCHEDULED. */
  lemma AnsweredCampaignsAreUnderWay(policy: Policy, trace: seq<Action>, r: RunId)
    requires r in Exec(policy, EMPTY, trace).runs
    requires var pc := Exec(policy, EMPTY, trace).runs[r].pc; pc == Done(SentOutcome) || pc == Done(FailedOutcome)
    ensures var s := Exec(policy, EMPTY, trace);
            && s.runs[r].job in s.rows
            && s.rows[s.runs[r].job].campaign in s.campaigns
            && s.campaigns[s.rows[s.runs[r].job].campaign] != CampaignScheduled
  {
    RunKeepsUnderWay(policy, EMPTY, trace);
    assert UnderWay(Exec(policy, EMPTY, trace), r);
  }
}
