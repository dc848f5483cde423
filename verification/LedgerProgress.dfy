/**
 No campaign is left open for want of a finaliser.

 The counts and the status write are separate statements and workers finish concurrently, yet whoever
 writes the last final row status is still to count, and finds nothing pending.  It is enough that no
 run stops between that write and its campaign update, and that no stale-failing pass fails a row.
 No assumption about throws elsewhere is needed.  `LedgerStranding` has the exact condition.
 */
module LedgerProgress {
  import opened Ledger
  import opened LedgerCampaigns
  import opened LedgerOutcomes
  import opened LedgerSafety
  import opened RateLimiter
  import opened Schema

  predicate FinalizingPc(pc: Pc)
  {
    pc.ToCountPending? || pc.ToCountFailed? || pc.ToWriteCampaign?
  }

  /** The run will still update campaign `c`. */
  predicate Finalizing(s: State, r: RunId, c: CampaignId)
  {
    && r in s.runs
    && FinalizingPc(s.runs[r].pc)
    && s.runs[r].job in s.rows
    && s.rows[s.runs[r].job].campaign == c
  }

  predicate KeepsFinalizers(s: State, a: Action)
  {
    && ((a.Throw? || a.Crash?) && a.run in s.runs ==> !FinalizingPc(s.runs[a.run].pc))
    && (a.FailStale? ==> forall id :: id in s.rows ==> !Stale(s.rows[id], a.cutoff))
  }

  ghost predicate Progress(s: State, c: CampaignId)
    requires c in s.campaigns
  {
    NonePending(s.rows, c) ==> Finished(s.campaigns[c]) || exists r :: Finalizing(s, r, c)
  }

  /** What every run, whatever stops in it, leaves in place. */
  ghost predicate GroundInv(s: State)
  {
    && RowsHaveCampaigns(s)
    && (forall c :: c in s.campaigns ==> exists id :: id in s.rows && s.rows[id].campaign == c)
    && (forall k :: k in s.cancels ==> s.cancels[k] in s.campaigns)
    && (forall r :: r in s.runs ==> Grounded(s, r))
  }

  ghost predicate ProgressInv(s: State)
  {
    GroundInv(s) && forall c :: c in s.campaigns ==> Progress(s, c)
  }

  predicate Grounded(s: State, r: RunId)
    requires r in s.runs
  {
    && (Live(s.runs[r].pc) ==> s.runs[r].job in s.rows)
    && (s.runs[r].pc.ToWriteCampaign? ==> Finished(s.runs[r].pc.verdict))
  }

  lemma WorkStaysLive(policy: Policy, s: State, r: RunId, input: Input)
    requires r in s.runs && r in WorkStep(policy, s, r, input).runs && Live(WorkStep(policy, s, r, input).runs[r].pc)
    ensures Live(s.runs[r].pc) || (s.runs[r].pc.ToLoad? && s.runs[r].job in s.rows)
    ensures var pc' := WorkStep(policy, s, r, input).runs[r].pc;
            pc'.ToWriteCampaign? ==> pc' == s.runs[r].pc || Finished(pc'.verdict)
  {
    hide WorkStep;
    WorkHasEffect(policy, s, r, input);
  }

  lemma NextKeepsGrounded(policy: Policy, s: State, a: Action, r: RunId)
    requires GroundInv(s) && r in Next(policy, s, a).runs
    ensures Grounded(Next(policy, s, a), r)
  {
    if r !in s.runs {
      NewRunIsNew(policy, s, a, r);
    } else {
      assert Grounded(s, r);
      OtherRunsUntouched(policy, s, a, r);
      if s.runs[r].job in s.rows {
        CampaignIsStable(policy, s, a, s.runs[r].job);
      }
      if a.Work? && a.run == r && Live(Next(policy, s, a).runs[r].pc) {
        WorkStaysLive(policy, s, r, a.input);
      }
    }
  }

  lemma FinishedStays(policy: Policy, s: State, a: Action, c: CampaignId)
    requires GroundInv(s) && c in s.campaigns && Finished(s.campaigns[c])
    ensures c in Next(policy, s, a).campaigns && Finished(Next(policy, s, a).campaigns[c])
  {
    NextKeepsCampaigns(policy, s, a);
    StatusStep(policy, s, a, c);
    if a.Work? && a.run in s.runs {
      assert Grounded(s, a.run);
    }
  }

  /** With nothing pending, a finaliser's next statement brings it nearer to a finished status. */
  lemma FinalizerAdvances(policy: Policy, s: State, a: Action, c: CampaignId, r: RunId)
    requires ProgressInv(s) && KeepsFinalizers(s, a) && c in s.campaigns
    requires NonePending(s.rows, c) && Finalizing(s, r, c)
    ensures c in Next(policy, s, a).campaigns
    ensures Finalizing(Next(policy, s, a), r, c) || Finished(Next(policy, s, a).campaigns[c])
  {
    NextKeepsCampaigns(policy, s, a);
    OtherRunsUntouched(policy, s, a, r);
    CampaignIsStable(policy, s, a, s.runs[r].job);
    if a.Work? && a.run == r {
      assert Grounded(s, r);
      CountsMean(s.rows, c);
      FinalizeAdvances(s, r, c);
      assert Next(policy, s, a) == Finalize(s, r);
    }
  }

  lemma FinalizeAdvances(s: State, r: RunId, c: CampaignId)
    requires Finalizing(s, r, c) && PendingIds(s.rows, c) == {} && Grounded(s, r)
    ensures Finalizing(Finalize(s, r), r, c)
         || (c in Finalize(s, r).campaigns && Finished(Finalize(s, r).campaigns[c]))
  {
  }

  /** Whoever finishes a row goes on to finalise its campaign, or has cancelled it. */
  lemma FinisherFinalizes(policy: Policy, s: State, a: Action, id: JobId)
    requires KeepsFinalizers(s, a) && id in s.rows && Pending(s.rows[id].status)
    requires id in Next(policy, s, a).rows && Terminal(Next(policy, s, a).rows[id].status)
    ensures var c, s' := s.rows[id].campaign, Next(policy, s, a);
            || (a.Work? && Finalizing(s', a.run, c))
            || (a.CancelCommit? && c in s'.campaigns && s'.campaigns[c] == CampaignCancelled)
  {
    if a.Work? && a.run in s.runs {
      WorkFinishes(policy, s, a.run, a.input, id);
    }
  }

  lemma WorkFinishes(policy: Policy, s: State, r: RunId, input: Input, id: JobId)
    requires r in s.runs && id in s.rows && Pending(s.rows[id].status)
    requires id in WorkStep(policy, s, r, input).rows && Terminal(WorkStep(policy, s, r, input).rows[id].status)
    ensures Finalizing(WorkStep(policy, s, r, input), r, s.rows[id].campaign)
  {
    WorkHasEffect(policy, s, r, input);
  }

  lemma NextKeepsProgress(policy: Policy, s: State, a: Action, c: CampaignId)
    requires ProgressInv(s) && KeepsFinalizers(s, a) && c in Next(policy, s, a).campaigns
    ensures Progress(Next(policy, s, a), c)
  {
    var s' := Next(policy, s, a);
    if NonePending(s'.rows, c) {
      if c !in s.campaigns {
        NewCampaignIsPending(policy, s, a, c);
      } else if NonePending(s.rows, c) {
        assert Progress(s, c);
        if Finished(s.campaigns[c]) {
          FinishedStays(policy, s, a, c);
        } else {
          var r :| Finalizing(s, r, c);
          FinalizerAdvances(policy, s, a, c, r);
        }
      } else {
        var id :| id in s.rows && s.rows[id].campaign == c && Pending(s.rows[id].status);
        CampaignIsStable(policy, s, a, id);
        FinisherFinalizes(policy, s, a, id);
      }
    }
  }

  lemma SomeRow(rows: Rows)
    ensures rows == map[] || exists id :: id in rows
  {
    assert (forall id :: id !in rows) ==> rows == map[];
  }

  lemma NewCampaignIsPending(policy: Policy, s: State, a: Action, c: CampaignId)
    requires GroundInv(s) && c !in s.campaigns && c in Next(policy, s, a).campaigns
    ensures a.Create? && exists id :: id in Next(policy, s, a).rows && Next(policy, s, a).rows[id].campaign == c
                                      && Next(policy, s, a).rows[id].status == Scheduled
  {
    NewCampaignIsCreated(policy, s, a, c);
    SomeRow(a.newRows);
    var id :| id in a.newRows;
    assert Next(policy, s, a).rows[id] == a.newRows[id];
  }

  lemma WorkWritesKnownCampaigns(policy: Policy, s: State, r: RunId, input: Input)
    requires RowsHaveCampaigns(s) && r in s.runs
    ensures WorkStep(policy, s, r, input).campaigns.Keys == s.campaigns.Keys
  {
    hide WorkStep;
    WorkHasEffect(policy, s, r, input);
  }

  lemma NewCampaignIsCreated(policy: Policy, s: State, a: Action, c: CampaignId)
    requires GroundInv(s) && c !in s.campaigns && c in Next(policy, s, a).campaigns
    ensures a.Create? && a.campaign == c && CanCreate(s, c, a.newRows)
  {
    if a.Work? && a.run in s.runs {
      WorkWritesKnownCampaigns(policy, s, a.run, a.input);
    }
  }

  lemma NextKeepsRowsOf(policy: Policy, s: State, a: Action, c: CampaignId)
    requires GroundInv(s) && c in Next(policy, s, a).campaigns
    ensures exists id :: id in Next(policy, s, a).rows && Next(policy, s, a).rows[id].campaign == c
  {
    if c in s.campaigns {
      var id :| id in s.rows && s.rows[id].campaign == c;
      CampaignIsStable(policy, s, a, id);
    } else {
      NewCampaignIsPending(policy, s, a, c);
    }
  }

  lemma CancelsStep(policy: Policy, s: State, a: Action, k: CallerId)
    requires k in Next(policy, s, a).cancels
    ensures (k in s.cancels && Next(policy, s, a).cancels[k] == s.cancels[k]) || Next(policy, s, a).cancels[k] in s.campaigns
  {
    hide WorkStep;
    if a.Work? && a.run in s.runs {
      WorkHasEffect(policy, s, a.run, a.input);
    }
  }

  lemma NextKeepsCancels(policy: Policy, s: State, a: Action)
    requires GroundInv(s)
    ensures forall k :: k in Next(policy, s, a).cancels ==> Next(policy, s, a).cancels[k] in Next(policy, s, a).campaigns
  {
    hide Next;
    NextKeepsCampaigns(policy, s, a);
    forall k | k in Next(policy, s, a).cancels
      ensures Next(policy, s, a).cancels[k] in Next(policy, s, a).campaigns
    {
      CancelsStep(policy, s, a, k);
    }
  }

  lemma NextKeepsGroundInv(policy: Policy, s: State, a: Action)
    requires GroundInv(s)
    ensures GroundInv(Next(policy, s, a))
  {
    NextKeepsCampaigns(policy, s, a);
    NextKeepsCancels(policy, s, a);
    forall c | c in Next(policy, s, a).campaigns
      ensures exists id :: id in Next(policy, s, a).rows && Next(policy, s, a).rows[id].campaign == c
    {
      NextKeepsRowsOf(policy, s, a, c);
    }
    forall r | r in Next(policy, s, a).runs
      ensures Grounded(Next(policy, s, a), r)
    {
      NextKeepsGrounded(policy, s, a, r);
    }
  }

  lemma {:induction false} RunKeepsGroundInv(policy: Policy, s: State, trace: seq<Action>)
    requires GroundInv(s)
    ensures GroundInv(Exec(policy, s, trace))
    decreases |trace|
  {
    if trace != [] {
      NextKeepsGroundInv(policy, s, trace[0]);
      RunKeepsGroundInv(policy, Next(policy, s, trace[0]), trace[1..]);
    }
  }

  lemma NextKeepsProgressInv(policy: Policy, s: State, a: Action)
    requires ProgressInv(s) && KeepsFinalizers(s, a)
    ensures ProgressInv(Next(policy, s, a))
  {
    NextKeepsGroundInv(policy, s, a);
    forall c | c in Next(policy, s, a).campaigns
      ensures Progress(Next(policy, s, a), c)
    {
      NextKeepsProgress(policy, s, a, c);
    }
  }

  ghost predicate FinalizersKept(policy: Policy, s: State, trace: seq<Action>)
  {
    Along(policy, s, trace, (t: State, a: Action) => KeepsFinalizers(t, a))
  }

  lemma {:induction false} RunKeepsProgressInv(policy: Policy, s: State, trace: seq<Action>)
    requires ProgressInv(s) && FinalizersKept(policy, s, trace)
    ensures ProgressInv(Exec(policy, s, trace))
    decreases |trace|
  {
    if trace != [] {
      NextKeepsProgressInv(policy, s, trace[0]);
      RunKeepsProgressInv(policy, Next(policy, s, trace[0]), trace[1..]);
    }
  }

  ghost predicate NoneInFlight(s: State)
  {
    forall r :: r in s.runs ==> s.runs[r].pc.Done?
  }

  /**
   Once no run is in flight and no job of a campaign is SCHEDULED or PROCESSING, the campaign is
   COMPLETED, PARTIALLY_FAILED or CANCELLED.
   */
  lemma QuietCampaignsAreFinished(policy: Policy, trace: seq<Action>, c: CampaignId)
    requires FinalizersKept(policy, EMPTY, trace)
    requires c in Exec(policy, EMPTY, trace).campaigns
    requires NoneInFlight(Exec(policy, EMPTY, trace)) && NonePending(Exec(policy, EMPTY, trace).rows, c)
    ensures var status := Exec(policy, EMPTY, trace).campaigns[c];
            status == Completed || status == PartiallyFailed || status == CampaignCancelled
  {
    RunKeepsProgressInv(policy, EMPTY, trace);
    var s := Exec(policy, EMPTY, trace);
    assert Progress(s, c);
  }
}
