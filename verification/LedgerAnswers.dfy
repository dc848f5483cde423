/**
 What the answers of finished runs mean, over every hazard-free run.

 "failed" can be the answer for a message that SMTP has accepted: exactly when a statement after the
 acceptance threw (`LateThrow`) in a run on its last attempt.
 */
module LedgerAnswers {
  import opened Ledger
  import opened LedgerOutcomes
  import opened LedgerReach
  import opened LedgerSafety
  import opened RateLimiter
  import opened Schema

  ghost function AcceptCount(accepts: seq<Accept>, id: JobId): nat
  {
    if accepts == [] then 0
    else AcceptCount(accepts[..|accepts| - 1], id) + if accepts[|accepts| - 1].job == id then 1 else 0
  }

  lemma {:induction false} CountsAcceptance(accepts: seq<Accept>, id: JobId)
    requires forall i, j :: 0 <= i < j < |accepts| ==> accepts[i].job != accepts[j].job
    ensures AcceptCount(accepts, id) == if exists i :: 0 <= i < |accepts| && accepts[i].job == id then 1 else 0
  {
    if accepts != [] {
      var n := |accepts| - 1;
      CountsAcceptance(accepts[..n], id);
      if accepts[n].job != id && exists i :: 0 <= i < |accepts| && accepts[i].job == id {
        var i :| 0 <= i < |accepts| && accepts[i].job == id;
        assert accepts[..n][i].job == id;
      }
    }
  }

  // ---- What happened to a run ----------------------------------------------------------------------

  ghost predicate NoLateThrow(policy: Policy, s: State, trace: seq<Action>, r: RunId)
  {
    Along(policy, s, trace, (t: State, a: Action) => !LateThrow(t, a, r))
  }

  /** Where a run is, against whether its message was accepted and whether a late throw has hit it. */
  predicate Traced(pc: Pc, accepted: bool, late: bool)
  {
    && (Early(pc) || pc.ToSend? ==> !accepted && !late)
    && (pc.ToMarkSent? || pc == Done(SentOutcome) ==> accepted && !late)
    && (WroteSent(pc) ==> accepted && (late <==> pc.ToHandleFailure?))
    && (pc == ToHandleFailure(false) || FailedForGood(pc) ==> (accepted <==> late))
  }

  /** Only a run's own send adds an acceptance for it, and takes it to the write of SENT. */
  lemma AcceptanceStep(policy: Policy, s: State, a: Action, r: RunId, id: JobId)
    requires r in s.runs && s.runs[r].job == id
    ensures r in Next(policy, s, a).runs
    ensures AcceptedFor(Next(policy, s, a), r, id) <==>
              AcceptedFor(s, r, id) || (s.runs[r].pc.ToSend? && Next(policy, s, a).runs[r].pc.ToMarkSent?)
  {
    var s' := Next(policy, s, a);
    NextOnRun(policy, s, a, r);
    AcceptsGrow(policy, s, a);
    assert forall i :: 0 <= i < |s.accepts| ==> s'.accepts[i] == s.accepts[i];
    if a.Work? && a.run in s.runs && a.run != r {
      WorkHasEffect(policy, s, a.run, a.input);
    } else if a.Work? && a.run == r && s.runs[r].pc.ToSend? {
      SendIsAccepted(policy, s, r, a.input);
    } else if a.Work? && a.run == r {
      WorkHasEffect(policy, s, r, a.input);
    }
    hide WorkStep;
  }

  /** A run that does not exist has sent nothing; one that does is where its history says. */
  ghost predicate TracedIn(s: State, r: RunId, id: JobId, late: bool)
  {
    if r in s.runs then s.runs[r].job == id ==> Traced(s.runs[r].pc, AcceptedFor(s, r, id), late)
    else !AcceptedFor(s, r, id) && !late
  }

  lemma NothingIsAcceptedFor(policy: Policy, s: State, a: Action, r: RunId, id: JobId)
    requires r !in s.runs && !AcceptedFor(s, r, id)
    ensures !AcceptedFor(Next(policy, s, a), r, id)
  {
    hide WorkStep;
    var s' := Next(policy, s, a);
    if a.Work? && a.run in s.runs {
      WorkHasEffect(policy, s, a.run, a.input);
      assert forall i :: 0 <= i < |s'.accepts| ==> i < |s.accepts| || s'.accepts[i].run == a.run;
    }
  }

  lemma NewRunIsTraced(policy: Policy, s: State, a: Action, r: RunId, id: JobId)
    requires r !in s.runs && !AcceptedFor(s, r, id)
    ensures TracedIn(Next(policy, s, a), r, id, false)
  {
    hide Next, AcceptedFor;
    NothingIsAcceptedFor(policy, s, a, r, id);
    if r in Next(policy, s, a).runs {
      NewRunIsNew(policy, s, a, r);
    }
  }

  lemma NextKeepsTraced(policy: Policy, s: State, a: Action, r: RunId, id: JobId, late: bool)
    requires TracedIn(s, r, id, late)
    ensures TracedIn(Next(policy, s, a), r, id, late || LateThrow(s, a, r))
  {
    hide Next, AcceptedFor;
    if r in s.runs {
      NextOnRun(policy, s, a, r);
      if s.runs[r].job == id {
        AcceptanceStep(policy, s, a, r, id);
      }
    } else {
      NewRunIsTraced(policy, s, a, r, id);
    }
  }

  lemma {:induction false} RunIsTraced(policy: Policy, s: State, trace: seq<Action>, r: RunId, id: JobId, late: bool)
    requires TracedIn(s, r, id, late)
    ensures TracedIn(Exec(policy, s, trace), r, id, late || !NoLateThrow(policy, s, trace, r))
    decreases |trace|
  {
    hide TracedIn;
    if trace != [] {
      NextKeepsTraced(policy, s, trace[0], r, id, late);
      RunIsTraced(policy, Next(policy, s, trace[0]), trace[1..], r, id, late || LateThrow(s, trace[0], r));
    }
  }

  /**
   What a finished run's answer means, over every hazard-free run.  `sent`: the row is SENT and was
   accepted exactly once.  `failed`: the row is FAILED, and its message was accepted, once, if and only
   if a statement after the acceptance threw in this run.
   */
  lemma OutcomesAreTrue(policy: Policy, trace: seq<Action>, r: RunId)
    requires NoHazard(policy, EMPTY, trace) && r in Exec(policy, EMPTY, trace).runs
    ensures var s := Exec(policy, EMPTY, trace);
            var id := s.runs[r].job;
            && (s.runs[r].pc == Done(SentOutcome) ==> HasStatus(s.rows, id, Sent) && AcceptCount(s.accepts, id) == 1)
            && (s.runs[r].pc == Done(FailedOutcome) ==>
                  && HasStatus(s.rows, id, Failed)
                  && AcceptCount(s.accepts, id) == if NoLateThrow(policy, EMPTY, trace, r) then 0 else 1)
  {
    RunKeepsSure(policy, EMPTY, trace);
    var s := Exec(policy, EMPTY, trace);
    var id := s.runs[r].job;
    assert RunSure(s, r);
    CountsAcceptance(s.accepts, id);
    RunIsTraced(policy, EMPTY, trace, r, id, false);
    assert AcceptedFor(s, r, id) ==> Accepted(s, id);
    assert Accepted(s, id) <==> exists i :: 0 <= i < |s.accepts| && s.accepts[i].job == id;
  }

  // ---- A reachable case -------------------------------------------------------------------------------

  /** The run answers "failed" although its message was accepted. */
  ghost predicate FailedButAccepted(s: State, r: RunId)
  {
    r in s.runs && s.runs[r].pc == Done(FailedOutcome) && AcceptedFor(s, r, s.runs[r].job)
  }

  lemma ReachableIsSure(policy: Policy, s: State)
    requires Reachable(policy, s)
    ensures SureInv(s)
  {
    var trace :| NoHazard(policy, EMPTY, trace) && Exec(policy, EMPTY, trace) == s;
    RunKeepsSure(policy, EMPTY, trace);
  }

  /** A reachable state: the SENT write has thrown on the last attempt, and FAILED was written instead. */
  lemma AcceptedThenFailedState(policy: Policy) returns (s: State)
    requires policy.Cap("s") >= 1
    ensures Reachable(policy, s) && AcceptedFor(s, 7, 5)
    ensures s.rows.Keys == {5} && s.rows[5].campaign == 1 && s.rows[5].status == Failed
    ensures s.campaigns == map[1 := CampaignScheduled] && s.runs == map[7 := Run(5, true, ToCountPending(false))]
  {
    var s0 := AcceptedState(policy, true);
    ReachableIsSure(policy, s0);
    assert RunSure(s0, 7);
    var s1 := Next(policy, s0, Throw(7));
    ReachableStep(policy, s0, Throw(7));
    AcceptedForStays(policy, s0, Throw(7), 7, 5);
    var work := Work(7, Input(0, 0, true));
    s := Next(policy, s1, work);
    ReachableStep(policy, s1, work);
    AcceptedForStays(policy, s1, work, 7, 5);
  }

  /** The next statement of such a run, when it writes no row. */
  lemma FailureGoesOn(policy: Policy, s: State, pc: Pc) returns (s': State)
    requires Reachable(policy, s) && AcceptedFor(s, 7, 5) && s.runs == map[7 := Run(5, true, pc)]
    requires s.rows.Keys == {5} && s.rows[5].campaign == 1 && s.rows[5].status == Failed
    requires FailedForGood(pc) && pc != Done(FailedOutcome) && !pc.ToMarkProcessing?
    ensures Reachable(policy, s') && AcceptedFor(s', 7, 5) && s'.rows == s.rows
    ensures s'.runs == map[7 := Run(5, true, match pc
                                             case ToCountPending(_) => ToCountFailed(false)
                                             case ToCountFailed(_) => ToWriteCampaign(false, PartiallyFailed)
                                             case ToWriteCampaign(_, _) => ToReturn(false)
                                             case _ => Done(FailedOutcome))]
  {
    hide AcceptedFor, Reachable;
    var work := Work(7, Input(0, 0, true));
    assert PendingIds(s.rows, 1) == {} && 5 in FailedIds(s.rows, 1);
    s' := Next(policy, s, work);
    ReachableStep(policy, s, work);
    AcceptedForStays(policy, s, work, 7, 5);
  }

  /** A throw of the SENT write itself, on the last attempt. */
  lemma AcceptedMessageIsReportedFailed(policy: Policy)
    requires policy.Cap("s") >= 1
    ensures exists s, r :: Reachable(policy, s) && FailedButAccepted(s, r)
  {
    var s := AcceptedThenFailedState(policy);
    s := FailureGoesOn(policy, s, ToCountPending(false));
    s := FailureGoesOn(policy, s, ToCountFailed(false));
    s := FailureGoesOn(policy, s, ToWriteCampaign(false, PartiallyFailed));
    s := FailureGoesOn(policy, s, ToReturn(false));
    assert FailedButAccepted(s, 7);
  }
}
