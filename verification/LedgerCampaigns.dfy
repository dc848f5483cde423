/**
 The campaign's status, rolled forward by `maybeFinalizeCampaign` from counts that are separate
 statements: a finished status is never wrong about unfinished jobs, and COMPLETED is wrong about failed
 ones exactly when a late `catch` has failed a job that was SENT.
 */
module LedgerCampaigns {
  import opened Ledger
  import opened LedgerLimits
  import opened LedgerOutcomes
  import opened LedgerReach
  import opened LedgerSafety
  import opened RateLimiter
  import opened Schema

  ghost predicate NonePending(rows: Rows, c: CampaignId)
  {
    forall id :: id in rows && rows[id].campaign == c ==> rows[id].status != Scheduled && rows[id].status != Processing
  }

  ghost predicate OnlySentOrCancelled(rows: Rows, c: CampaignId)
  {
    forall id :: id in rows && rows[id].campaign == c ==> rows[id].status == Sent || rows[id].status == Cancelled
  }

  lemma CountsMean(rows: Rows, c: CampaignId)
    ensures PendingIds(rows, c) == {} <==> NonePending(rows, c)
    ensures PendingIds(rows, c) == {} && FailedIds(rows, c) == {} <==> OnlySentOrCancelled(rows, c)
  {
    if NonePending(rows, c) {
      assert forall id :: id !in PendingIds(rows, c);
    }
    if PendingIds(rows, c) == {} {
      forall id | id in rows && rows[id].campaign == c
        ensures Terminal(rows[id].status)
      {
        assert id !in PendingIds(rows, c);
      }
    }
    if PendingIds(rows, c) == {} && FailedIds(rows, c) == {} {
      forall id | id in rows && rows[id].campaign == c
        ensures rows[id].status == Sent || rows[id].status == Cancelled
      {
        assert id !in PendingIds(rows, c) && id !in FailedIds(rows, c);
      }
    }
    if OnlySentOrCancelled(rows, c) {
      assert forall id :: id !in FailedIds(rows, c) && id !in PendingIds(rows, c);
    }
  }

  // ---- Finished statuses are right ----------------------------------------------------------------

  /** A run that has written SENT writes FAILED over a job of campaign `c`. */
  predicate LateCatchIn(s: State, a: Action, c: CampaignId)
  {
    && a.Work? && a.run in s.runs && s.runs[a.run].job in s.rows
    && s.rows[s.runs[a.run].job].campaign == c
    && LateCatch(s, a, s.runs[a.run].job)
  }

  /** What a finished status says of the jobs; `sure` says whether no late `catch` has hit the campaign. */
  ghost predicate VerdictHolds(rows: Rows, c: CampaignId, status: CampaignStatus, sure: bool)
  {
    && (status == Completed || status == PartiallyFailed ==> NonePending(rows, c))
    && (sure && status == Completed ==> OnlySentOrCancelled(rows, c))
  }

  ghost predicate RowsHaveCampaigns(s: State)
  {
    forall id :: id in s.rows ==> s.rows[id].campaign in s.campaigns
  }

  /** What a run has learnt about its campaign is still true when it acts on it. */
  ghost predicate KnowledgeHolds(s: State, r: RunId, sure: set<CampaignId>)
    requires r in s.runs
  {
    s.runs[r].job in s.rows ==>
      && (s.runs[r].pc.ToCountFailed? ==> NonePending(s.rows, CampaignOf(s, r)))
      && (s.runs[r].pc.ToWriteCampaign? ==>
            && (s.runs[r].pc.verdict == Completed || s.runs[r].pc.verdict == PartiallyFailed)
            && VerdictHolds(s.rows, CampaignOf(s, r), s.runs[r].pc.verdict, CampaignOf(s, r) in sure))
  }

  /** For every campaign in `sure`, a COMPLETED verdict also means that no job has failed. */
  ghost predicate VerdictInv(s: State, sure: set<CampaignId>)
  {
    && (sure != {} ==> Inv(s))
    && LiveRunsHaveRows(s)
    && RowsHaveCampaigns(s)
    && (forall c :: c in s.campaigns ==> VerdictHolds(s.rows, c, s.campaigns[c], c in sure))
    && (forall r :: r in s.runs ==> KnowledgeHolds(s, r, sure))
  }

  /** The step is no hazard and no late `catch` in a campaign of `sure`. */
  ghost predicate Spares(s: State, a: Action, sure: set<CampaignId>)
  {
    sure != {} ==> !Hazard(s, a) && forall c :: c in sure ==> !LateCatchIn(s, a, c)
  }

  lemma CampaignIsStable(policy: Policy, s: State, a: Action, id: JobId)
    requires id in s.rows
    ensures id in Next(policy, s, a).rows && Next(policy, s, a).rows[id].campaign == s.rows[id].campaign
  {
    hide WorkStep;
    if a.Work? && a.run in s.runs {
      WorkHasEffect(policy, s, a.run, a.input);
    }
  }

  /** Rows that a step adds belong to a campaign that did not exist before. */
  lemma NewRowsAreElsewhere(policy: Policy, s: State, a: Action, id: JobId)
    requires id !in s.rows && id in Next(policy, s, a).rows
    ensures a.Create? && Next(policy, s, a).rows[id].campaign == a.campaign
    ensures a.campaign !in s.campaigns && a.campaign in Next(policy, s, a).campaigns
    ensures Next(policy, s, a).rows[id].status == Scheduled
  {
    if a.Work? && a.run in s.runs {
      WorkHasEffect(policy, s, a.run, a.input);
    }
  }

  lemma NonePendingStays(policy: Policy, s: State, a: Action, c: CampaignId)
    requires NonePending(s.rows, c) && c in s.campaigns
    ensures NonePending(Next(policy, s, a).rows, c)
  {
    var s' := Next(policy, s, a);
    forall id | id in s'.rows && s'.rows[id].campaign == c
      ensures Terminal(s'.rows[id].status)
    {
      if id in s.rows {
        CampaignIsStable(policy, s, a, id);
        TerminalStep(policy, s, a, id);
      } else {
        NewRowsAreElsewhere(policy, s, a, id);
      }
    }
  }

  lemma StaysSentOrCancelled(policy: Policy, s: State, a: Action, c: CampaignId, id: JobId)
    requires Inv(s) && OnlySentOrCancelled(s.rows, c) && c in s.campaigns && !LateCatchIn(s, a, c)
    requires id in Next(policy, s, a).rows && Next(policy, s, a).rows[id].campaign == c
    ensures var status := Next(policy, s, a).rows[id].status; status == Sent || status == Cancelled
  {
    hide Next;
    if id in s.rows {
      CampaignIsStable(policy, s, a, id);
      if s.rows[id].status == Sent {
        SentIsLostExactly(policy, s, a, id);
      } else {
        CancelledStep(policy, s, a, id);
      }
    } else {
      NewRowsAreElsewhere(policy, s, a, id);
    }
  }

  /** When all jobs are SENT or CANCELLED, the one step after which they are not. */
  lemma SentOrCancelledIsLostExactly(policy: Policy, s: State, a: Action, c: CampaignId)
    requires Inv(s) && OnlySentOrCancelled(s.rows, c) && c in s.campaigns
    ensures OnlySentOrCancelled(Next(policy, s, a).rows, c) <==> !LateCatchIn(s, a, c)
  {
    if LateCatchIn(s, a, c) {
      var id := s.runs[a.run].job;
      CampaignIsStable(policy, s, a, id);
      assert RunOk(s, a.run);
      SentIsLostExactly(policy, s, a, id);
      TerminalStep(policy, s, a, id);
      assert HasStatus(s.rows, id, Sent);
      assert Next(policy, s, a).rows[id].status == Failed;
    } else {
      forall id | id in Next(policy, s, a).rows && Next(policy, s, a).rows[id].campaign == c
        ensures Next(policy, s, a).rows[id].status == Sent || Next(policy, s, a).rows[id].status == Cancelled
      {
        StaysSentOrCancelled(policy, s, a, c, id);
      }
    }
  }

  lemma VerdictStays(policy: Policy, s: State, a: Action, c: CampaignId, status: CampaignStatus, sure: bool)
    requires VerdictHolds(s.rows, c, status, sure) && c in s.campaigns
    requires sure ==> Inv(s) && !LateCatchIn(s, a, c)
    ensures VerdictHolds(Next(policy, s, a).rows, c, status, sure)
  {
    if status == Completed || status == PartiallyFailed {
      NonePendingStays(policy, s, a, c);
    }
    if sure && status == Completed {
      SentOrCancelledIsLostExactly(policy, s, a, c);
    }
  }

  /** A status changes only by creation, cancellation, the PROCESSING mark or a run's verdict. */
  lemma StatusStep(policy: Policy, s: State, a: Action, c: CampaignId)
    requires c in Next(policy, s, a).campaigns
    ensures var s' := Next(policy, s, a);
            || (c in s.campaigns && s'.campaigns[c] == s.campaigns[c])
            || (c !in s.campaigns && s'.campaigns[c] == CampaignScheduled)
            || (Cancels(s, a, c) && s'.campaigns[c] == CampaignCancelled)
            || (c in s.campaigns && s.campaigns[c] == CampaignScheduled && s'.campaigns[c] == CampaignProcessing)
            || (a.Work? && a.run in s.runs && s.runs[a.run].job in s.rows && CampaignOf(s, a.run) == c
                && s.runs[a.run].pc.ToWriteCampaign? && s'.campaigns[c] == s.runs[a.run].pc.verdict)
  {
    hide WorkStep;
    if a.Work? && a.run in s.runs {
      WorkHasEffect(policy, s, a.run, a.input);
    }
  }

  lemma CampaignsStay(policy: Policy, s: State, a: Action)
    ensures s.campaigns.Keys <= Next(policy, s, a).campaigns.Keys
  {
    hide WorkStep;
    if a.Work? && a.run in s.runs {
      WorkHasEffect(policy, s, a.run, a.input);
    }
  }

  lemma NextKeepsCampaigns(policy: Policy, s: State, a: Action)
    requires RowsHaveCampaigns(s)
    ensures RowsHaveCampaigns(Next(policy, s, a))
    ensures s.campaigns.Keys <= Next(policy, s, a).campaigns.Keys
  {
    hide Next;
    CampaignsStay(policy, s, a);
    forall id | id in Next(policy, s, a).rows
      ensures Next(policy, s, a).rows[id].campaign in Next(policy, s, a).campaigns
    {
      if id in s.rows {
        CampaignIsStable(policy, s, a, id);
      } else {
        NewRowsAreElsewhere(policy, s, a, id);
      }
    }
  }

  lemma NextKeepsVerdict(policy: Policy, s: State, a: Action, c: CampaignId, sure: set<CampaignId>)
    requires VerdictInv(s, sure) && Spares(s, a, sure) && c in Next(policy, s, a).campaigns
    ensures VerdictHolds(Next(policy, s, a).rows, c, Next(policy, s, a).campaigns[c], c in sure)
  {
    StatusStep(policy, s, a, c);
    var s' := Next(policy, s, a);
    if c in s.campaigns && s'.campaigns[c] == s.campaigns[c] {
      VerdictStays(policy, s, a, c, s.campaigns[c], c in sure);
    } else if s'.campaigns[c] == Completed || s'.campaigns[c] == PartiallyFailed {
      assert KnowledgeHolds(s, a.run, sure);
      VerdictStays(policy, s, a, c, s.runs[a.run].pc.verdict, c in sure);
    }
  }

  /** A run comes to know something only by its own count. */
  lemma OwnKnowledgeStep(policy: Policy, s: State, r: RunId, input: Input)
    requires r in s.runs && r in WorkStep(policy, s, r, input).runs
    requires WorkStep(policy, s, r, input).runs[r].pc.ToCountFailed? || WorkStep(policy, s, r, input).runs[r].pc.ToWriteCampaign?
    requires WorkStep(policy, s, r, input).runs[r].pc != s.runs[r].pc
    ensures var pc, pc' := s.runs[r].pc, WorkStep(policy, s, r, input).runs[r].pc;
            && s.runs[r].job in s.rows
            && (|| (pc.ToCountPending? && pc'.ToCountFailed? && PendingIds(s.rows, CampaignOf(s, r)) == {})
                || (pc.ToCountFailed? && pc'.ToWriteCampaign?
                    && pc'.verdict == if FailedIds(s.rows, CampaignOf(s, r)) != {} then PartiallyFailed else Completed))
  {
    match s.runs[r].pc {
      case ToLoad =>
      case ToClaim =>
      case ToCheckRate =>
      case ToReleaseDenied =>
      case ToSend(_) =>
      case ToMarkSent(_) =>
      case ToHandleFailure(_) =>
      case _ =>
    }
  }

  predicate Knowing(pc: Pc)
  {
    pc.ToCountFailed? || pc.ToWriteCampaign?
  }

  lemma KnowledgeStep(policy: Policy, s: State, a: Action, r: RunId)
    requires r in Next(policy, s, a).runs && Knowing(Next(policy, s, a).runs[r].pc)
    ensures r in s.runs && Next(policy, s, a).runs[r].job == s.runs[r].job
    ensures Next(policy, s, a).runs[r].pc == s.runs[r].pc || (a.Work? && a.run == r)
  {
    if r !in s.runs {
      NewRunIsNew(policy, s, a, r);
    } else {
      OtherRunsUntouched(policy, s, a, r);
    }
  }

  lemma NextKeepsKnowledge(policy: Policy, s: State, a: Action, r: RunId, sure: set<CampaignId>)
    requires VerdictInv(s, sure) && Spares(s, a, sure) && r in Next(policy, s, a).runs
    ensures KnowledgeHolds(Next(policy, s, a), r, sure)
  {
    var s' := Next(policy, s, a);
    var pc' := s'.runs[r].pc;
    if Knowing(pc') {
      KnowledgeStep(policy, s, a, r);
      if pc' != s.runs[r].pc {
        OwnKnowledgeStep(policy, s, r, a.input);
      }
      assert KnowledgeHolds(s, r, sure) && s.runs[r].job in s.rows;
      CampaignIsStable(policy, s, a, s.runs[r].job);
      var c := CampaignOf(s, r);
      CountsMean(s.rows, c);
      if pc'.ToCountFailed? {
        NonePendingStays(policy, s, a, c);
      } else {
        VerdictStays(policy, s, a, c, pc'.verdict, c in sure);
      }
    }
  }

  lemma NextKeepsVerdictInv(policy: Policy, s: State, a: Action, sure: set<CampaignId>)
    requires VerdictInv(s, sure) && Spares(s, a, sure)
    ensures VerdictInv(Next(policy, s, a), sure)
  {
    if sure != {} {
      NextKeepsInv(policy, s, a);
    }
    NextKeepsLiveRows(policy, s, a);
    NextKeepsCampaigns(policy, s, a);
    forall c | c in Next(policy, s, a).campaigns
      ensures VerdictHolds(Next(policy, s, a).rows, c, Next(policy, s, a).campaigns[c], c in sure)
    {
      NextKeepsVerdict(policy, s, a, c, sure);
    }
    forall r | r in Next(policy, s, a).runs
      ensures KnowledgeHolds(Next(policy, s, a), r, sure)
    {
      NextKeepsKnowledge(policy, s, a, r, sure);
    }
  }

  ghost predicate SparedRun(policy: Policy, s: State, trace: seq<Action>, sure: set<CampaignId>)
  {
    Along(policy, s, trace, (t: State, a: Action) => Spares(t, a, sure))
  }

  /** Over every run; and for the campaigns of `sure`, what is known of them as well. */
  lemma {:induction false} RunKeepsVerdictInv(policy: Policy, s: State, trace: seq<Action>, sure: set<CampaignId>)
    requires VerdictInv(s, sure) && SparedRun(policy, s, trace, sure)
    ensures VerdictInv(Exec(policy, s, trace), sure)
    decreases |trace|
  {
    if trace != [] {
      NextKeepsVerdictInv(policy, s, trace[0], sure);
      RunKeepsVerdictInv(policy, Next(policy, s, trace[0]), trace[1..], sure);
    }
  }

  lemma {:induction false} EveryRunSparesNone(policy: Policy, s: State, trace: seq<Action>)
    ensures SparedRun(policy, s, trace, {})
    decreases |trace|
  {
    if trace != [] {
      EveryRunSparesNone(policy, Next(policy, s, trace[0]), trace[1..]);
    }
  }

  /**
   In every reachable state, whatever throws, crashes or hazards led to it, a COMPLETED or
   PARTIALLY_FAILED campaign has no SCHEDULED or PROCESSING job.
   */
  lemma FinishedCampaignsHaveNonePending(policy: Policy, trace: seq<Action>, c: CampaignId)
    requires c in Exec(policy, EMPTY, trace).campaigns
    ensures var s := Exec(policy, EMPTY, trace);
            s.campaigns[c] == Completed || s.campaigns[c] == PartiallyFailed ==>
              forall id :: id in s.rows && s.rows[id].campaign == c ==>
                s.rows[id].status != Scheduled && s.rows[id].status != Processing
  {
    EveryRunSparesNone(policy, EMPTY, trace);
    RunKeepsVerdictInv(policy, EMPTY, trace, {});
    var s := Exec(policy, EMPTY, trace);
    assert VerdictHolds(s.rows, c, s.campaigns[c], false);
  }

  // ---- A COMPLETED campaign -----------------------------------------------------------------------

  ghost predicate NoLateCatchIn(policy: Policy, s: State, trace: seq<Action>, c: CampaignId)
  {
    Along(policy, s, trace, (t: State, a: Action) => !LateCatchIn(t, a, c))
  }

  lemma {:induction false} SparesOne(policy: Policy, s: State, trace: seq<Action>, c: CampaignId)
    requires NoHazard(policy, s, trace) && NoLateCatchIn(policy, s, trace, c)
    ensures SparedRun(policy, s, trace, {c})
    decreases |trace|
  {
    if trace != [] {
      SparesOne(policy, Next(policy, s, trace[0]), trace[1..], c);
    }
  }

  ghost predicate HasFailed(rows: Rows, c: CampaignId, id: JobId)
  {
    HasStatus(rows, id, Failed) && rows[id].campaign == c
  }

  /** A failure written over SENT is there to stay. */
  lemma {:induction false} LateCatchLeavesFailure(policy: Policy, s: State, trace: seq<Action>, c: CampaignId)
    requires SureInv(s) && NoHazard(policy, s, trace) && !NoLateCatchIn(policy, s, trace, c)
    ensures exists id :: HasFailed(Exec(policy, s, trace).rows, c, id)
    decreases |trace|
  {
    var a, s1 := trace[0], Next(policy, s, trace[0]);
    NextKeepsSure(policy, s, a);
    if LateCatchIn(s, a, c) {
      var id := s.runs[a.run].job;
      LateCatchFails(policy, s, a, id);
      UnheldFailureStays(policy, s1, trace[1..], id);
      CampaignIsStable(policy, s, a, id);
      JobsAreKept(policy, s1, trace[1..], id);
      assert HasFailed(Exec(policy, s, trace).rows, c, id);
    } else {
      LateCatchLeavesFailure(policy, s1, trace[1..], c);
      var id :| HasFailed(Exec(policy, s1, trace[1..]).rows, c, id);
      assert HasFailed(Exec(policy, s, trace).rows, c, id);
    }
  }

  /**
   Over every hazard-free run: the jobs of a COMPLETED campaign are all SENT or CANCELLED if and only
   if no late `catch` has written FAILED over one of them.
   */
  lemma CompletedCampaignsAreSentExactly(policy: Policy, trace: seq<Action>, c: CampaignId)
    requires NoHazard(policy, EMPTY, trace) && c in Exec(policy, EMPTY, trace).campaigns
    requires Exec(policy, EMPTY, trace).campaigns[c] == Completed
    ensures OnlySentOrCancelled(Exec(policy, EMPTY, trace).rows, c) <==> NoLateCatchIn(policy, EMPTY, trace, c)
  {
    var s := Exec(policy, EMPTY, trace);
    if NoLateCatchIn(policy, EMPTY, trace, c) {
      SparesOne(policy, EMPTY, trace, c);
      RunKeepsVerdictInv(policy, EMPTY, trace, {c});
      assert VerdictHolds(s.rows, c, s.campaigns[c], true);
    } else {
      LateCatchLeavesFailure(policy, EMPTY, trace, c);
      var id :| HasFailed(s.rows, c, id);
    }
  }

  /** A reachable state: the run is about to write COMPLETED. */
  lemma WritingState(policy: Policy, last: bool) returns (s: State)
    requires policy.Cap("s") >= 1
    ensures Reachable(policy, s) && s.cancels == map[] && s.campaigns == map[1 := CampaignScheduled]
    ensures s.rows.Keys == {5} && s.rows[5].campaign == 1
    ensures s.runs == map[7 := Run(5, last, ToWriteCampaign(true, Completed))]
  {
    var s0 := CountingState(policy, last);
    var work := Work(7, Input(0, 0, true));
    assert PendingIds(s0.rows, 1) == {} && FailedIds(s0.rows, 1) == {};
    var s1 := Next(policy, s0, work);
    ReachableStep(policy, s0, work);
    s := Next(policy, s1, work);
    ReachableStep(policy, s1, work);
  }

  /** A reachable state: the run has written COMPLETED on its last attempt and has not returned. */
  lemma CompletedState(policy: Policy) returns (s: State)
    requires policy.Cap("s") >= 1
    ensures Reachable(policy, s) && s.campaigns == map[1 := Completed]
    ensures s.rows.Keys == {5} && s.rows[5].campaign == 1 && s.runs == map[7 := Run(5, true, ToReturn(true))]
  {
    hide Reachable;
    var s0 := WritingState(policy, true);
    s := Next(policy, s0, Work(7, Input(0, 0, true)));
    ReachableStep(policy, s0, Work(7, Input(0, 0, true)));
  }

  lemma LateCatchOfCompleted(policy: Policy, s: State) returns (s': State)
    requires Reachable(policy, s) && s.campaigns == map[1 := Completed]
    requires s.rows.Keys == {5} && s.rows[5].campaign == 1 && s.runs == map[7 := Run(5, true, ToReturn(true))]
    ensures Reachable(policy, s') && s'.campaigns == map[1 := Completed] && HasFailed(s'.rows, 1, 5)
    ensures s'.runs == map[7 := Run(5, true, ToCountPending(false))]
  {
    hide Reachable;
    var s1 := Next(policy, s, Throw(7));
    s' := Next(policy, s1, Work(7, Input(0, 0, true)));
    ReachableStep(policy, s, Throw(7));
    ReachableStep(policy, s1, Work(7, Input(0, 0, true)));
  }

  /**
   A reachable case: the status write commits and then throws, the `catch` block fails the job, and the
   worker dies.
   */
  lemma CompletedCampaignHasFailedJob(policy: Policy)
    requires policy.Cap("s") >= 1
    ensures exists s, id :: Reachable(policy, s) && (forall r :: r in s.runs ==> s.runs[r].pc.Done?)
                            && s.campaigns == map[1 := Completed] && HasFailed(s.rows, 1, id)
  {
    hide Reachable;
    var s0 := CompletedState(policy);
    var s1 := LateCatchOfCompleted(policy, s0);
    var s := Next(policy, s1, Crash(7));
    ReachableStep(policy, s1, Crash(7));
    assert HasFailed(s.rows, 1, 5);
  }

  // ---- A CANCELLED campaign ---------------------------------------------------------------------------

  /** CANCELLED is overwritten exactly by a run that had counted the campaign before. */
  lemma CancelledStatusStep(policy: Policy, s: State, a: Action, c: CampaignId)
    requires VerdictInv(s, {}) && c in s.campaigns && s.campaigns[c] == CampaignCancelled
    ensures c in Next(policy, s, a).campaigns
    ensures Next(policy, s, a).campaigns[c] != CampaignCancelled <==>
              a.Work? && a.run in s.runs && s.runs[a.run].pc.ToWriteCampaign? && CampaignOf(s, a.run) == c
  {
    if a.Work? && a.run in s.runs {
      assert KnowledgeHolds(s, a.run, {});
      if s.runs[a.run].pc.ToWriteCampaign? {
        assert Next(policy, s, a).campaigns == s.campaigns[CampaignOf(s, a.run) := s.runs[a.run].pc.verdict];
      } else {
        WorkHasEffect(policy, s, a.run, a.input);
      }
    }
  }

  /** A reachable case: a cancelled campaign becomes COMPLETED. */
  lemma CancelledStatusIsOverwritten(policy: Policy)
    requires policy.Cap("s") >= 1
    ensures exists s, a :: Reachable(policy, s) && 1 in s.campaigns && s.campaigns[1] == CampaignCancelled
                           && 1 in Next(policy, s, a).campaigns && Next(policy, s, a).campaigns[1] == Completed
  {
    var s0 := WritingState(policy, false);
    var s := CancelledState(policy, s0);
    assert Next(policy, s, Work(7, Input(0, 0, true))).campaigns[1] == Completed;
  }

  lemma CancelledState(policy: Policy, s: State) returns (s': State)
    requires Reachable(policy, s) && s.campaigns == map[1 := CampaignScheduled] && 0 !in s.cancels
    requires s.rows.Keys == {5} && s.rows[5].campaign == 1
    ensures Reachable(policy, s') && s'.runs == s.runs && s'.campaigns == map[1 := CampaignCancelled]
    ensures s'.rows.Keys == {5} && s'.rows[5].campaign == 1
  {
    var s1 := Next(policy, s, CancelLoad(0, 1));
    ReachableStep(policy, s, CancelLoad(0, 1));
    s' := Next(policy, s1, CancelCommit(0));
    ReachableStep(policy, s1, CancelCommit(0));
  }
}
