/**
 What final statuses and answers mean, over every hazard-free run.

 A statement after SMTP acceptance may throw (`LateThrow`).  Its run then enters the `catch` block, and
 on the last attempt that writes FAILED, without a guard, over whatever the row says (`LateCatch`).
 The results say exactly what these two events change, and that nothing else does.
 */
module LedgerOutcomes {
  import opened Ledger
  import opened LedgerReach
  import opened LedgerSafety
  import opened RateLimiter
  import opened Schema

  /** A statement of run `r` throws although SMTP has accepted its message; the `catch` block follows. */
  predicate LateThrow(s: State, a: Action, r: RunId)
  {
    && a == Throw(r) && r in s.runs
    && (s.runs[r].pc.ToMarkSent? || (WroteSent(s.runs[r].pc) && !s.runs[r].pc.ToHandleFailure?))
  }

  /** The `catch` block of a run that has already written SENT, on its last attempt. */
  predicate LateCatch(s: State, a: Action, id: JobId)
  {
    && a.Work? && a.run in s.runs && s.runs[a.run].job == id
    && s.runs[a.run].pc == ToHandleFailure(true) && s.runs[a.run].isLastAttempt
  }

  /** The run has recorded that its last attempt failed. */
  predicate FailedForGood(pc: Pc)
  {
    || pc == ToCountPending(false) || pc == ToMarkProcessing(false) || pc == ToCountFailed(false)
    || (pc.ToWriteCampaign? && !pc.sent) || pc == ToReturn(false) || pc == Done(FailedOutcome)
  }

  ghost predicate HeldBySomeone(s: State, id: JobId)
  {
    exists r :: Holder(s, r, id)
  }

  /** The row was accepted for run `r` itself. */
  ghost predicate AcceptedFor(s: State, r: RunId, id: JobId)
  {
    exists i :: 0 <= i < |s.accepts| && s.accepts[i].run == r && s.accepts[i].job == id
  }

  ghost predicate RunSure(s: State, r: RunId)
    requires r in s.runs
  {
    var run := s.runs[r];
    && (run.pc.ToMarkSent? || WroteSent(run.pc) || run.pc == Done(SentOutcome) ==> AcceptedFor(s, r, run.job))
    && (WroteSent(run.pc) || run.pc == Done(SentOutcome) ==> HasStatus(s.rows, run.job, Sent))
    && (FailedForGood(run.pc) ==> HasStatus(s.rows, run.job, Failed) && !HeldBySomeone(s, run.job))
    && (FailedForGood(run.pc) || run.pc == ToHandleFailure(false) ==>
          (Accepted(s, run.job) ==> AcceptedFor(s, r, run.job)))
  }

  /** A row with a time of sending is done with: nobody holds it. */
  ghost predicate StampSure(s: State, id: JobId)
    requires id in s.rows
  {
    s.rows[id].sentAt.Some? ==> (s.rows[id].status == Sent || s.rows[id].status == Failed) && !HeldBySomeone(s, id)
  }

  ghost predicate SureInv(s: State)
  {
    && Inv(s)
    && (forall r :: r in s.runs ==> RunSure(s, r))
    && (forall id :: id in s.rows ==> StampSure(s, id))
  }

  lemma RunIsSure(s: State, r: RunId)
    requires SureInv(s) && r in s.runs
    ensures Inv(s) && RunOk(s, r) && RunSure(s, r)
  {
  }

  /** A row is accepted for one run only. */
  lemma OneSender(s: State, r1: RunId, r2: RunId, id: JobId)
    requires Inv(s) && AcceptedFor(s, r1, id) && AcceptedFor(s, r2, id)
    ensures r1 == r2
  {
    var i :| 0 <= i < |s.accepts| && s.accepts[i].run == r1 && s.accepts[i].job == id;
    var j :| 0 <= j < |s.accepts| && s.accepts[j].run == r2 && s.accepts[j].job == id;
  }

  // ---- One step ---------------------------------------------------------------------------------

  /** How one step, of any kind, may change a stored row. */
  ghost predicate RowStep(s: State, a: Action, s': State, id: JobId)
    requires id in s.rows
  {
    && id in s'.rows
    && SameJob(s.rows[id], s'.rows[id])
    && (s.rows[id].sentAt.Some? ==> s'.rows[id].sentAt == s.rows[id].sentAt)
    && match s.rows[id].status
       case Sent => s'.rows[id].status == if LateCatch(s, a, id) then Failed else Sent
       case Cancelled => s'.rows[id].status == Cancelled
       case Failed =>
         || s'.rows[id].status == Failed
         || (s'.rows[id].status == Sent && a.Work? && Holder(s, a.run, id) && s.runs[a.run].pc.ToMarkSent?)
       case _ => true
  }

  lemma StepOnRow(policy: Policy, s: State, a: Action, id: JobId)
    requires SureInv(s) && id in s.rows
    ensures RowStep(s, a, Next(policy, s, a), id)
  {
    hide WorkStep;
    if a.Work? && a.run in s.runs {
      WorkOnRow(policy, s, a.run, a.input, id);
    }
  }

  lemma WorkOnRow(policy: Policy, s: State, r: RunId, input: Input, id: JobId)
    requires SureInv(s) && r in s.runs && id in s.rows
    ensures RowStep(s, Work(r, input), WorkStep(policy, s, r, input), id)
  {
    hide WorkStep, Accepted, AcceptedFor;
    assert RunOk(s, r) && RunSure(s, r) && StampSure(s, id);
    WorkHasEffect(policy, s, r, input);
    assert s.runs[r].pc.ToMarkSent? ==> Holder(s, r, s.runs[r].job);
  }

  lemma ClaimTakesScheduledOnly(policy: Policy, s: State, r: RunId, input: Input)
    requires r in s.runs && !Holds(s.runs[r].pc)
    requires Holds(WorkStep(policy, s, r, input).runs[r].pc)
    ensures HasStatus(s.rows, s.runs[r].job, Scheduled)
  {
    hide WorkStep;
    WorkHasEffect(policy, s, r, input);
  }

  lemma OtherRunsUntouched(policy: Policy, s: State, a: Action, r: RunId)
    requires r in s.runs
    ensures var s' := Next(policy, s, a);
            r in s'.runs && s'.runs[r].job == s.runs[r].job
            && (!((a.Work? || a.Throw? || a.Crash?) && a.run == r) ==> s'.runs[r] == s.runs[r])
  {
    if a.Work? && a.run in s.runs {
      WorkHasEffect(policy, s, a.run, a.input);
    }
  }

  /** A row that is not SCHEDULED gets no new holder. */
  lemma NoNewHolder(policy: Policy, s: State, a: Action, id: JobId, r: RunId)
    requires id in s.rows && s.rows[id].status != Scheduled && Holder(Next(policy, s, a), r, id)
    requires Inv(s)
    ensures Holder(s, r, id)
  {
    if r in s.runs {
      NextOnRun(policy, s, a, r);
      if a.Work? && a.run == r && !Holds(s.runs[r].pc) {
        ClaimTakesScheduledOnly(policy, s, r, a.input);
      }
    } else {
      NewRunIsNew(policy, s, a, r);
    }
    hide Next, WorkStep;
  }

  lemma AcceptedAfterWork(policy: Policy, s: State, r: RunId, input: Input, id: JobId)
    requires r in s.runs
    ensures Accepted(WorkStep(policy, s, r, input), id) ==>
              Accepted(s, id) || (s.runs[r].pc.ToSend? && input.smtpAccepts && s.runs[r].job == id)
  {
    var s' := WorkStep(policy, s, r, input);
    WorkHasEffect(policy, s, r, input);
    if s'.accepts != s.accepts {
      AcceptGrows(s, s', s'.accepts[|s.accepts|]);
    }
  }

  /** A failure with no holder stays: nobody can hold, and so nobody can send, the row again. */
  lemma FailureStays(policy: Policy, s: State, a: Action, id: JobId)
    requires SureInv(s) && HasStatus(s.rows, id, Failed) && !HeldBySomeone(s, id)
    ensures var s' := Next(policy, s, a);
            && HasStatus(s'.rows, id, Failed) && !HeldBySomeone(s', id)
            && (Accepted(s', id) ==> Accepted(s, id))
  {
    StepOnRow(policy, s, a, id);
    forall r
      ensures !Holder(Next(policy, s, a), r, id)
    {
      if Holder(Next(policy, s, a), r, id) {
        NoNewHolder(policy, s, a, id, r);
      }
    }
    if a.Work? && a.run in s.runs {
      AcceptedAfterWork(policy, s, a.run, a.input, id);
      assert !Holder(s, a.run, id);
    }
  }

  lemma AcceptedForStays(policy: Policy, s: State, a: Action, r: RunId, id: JobId)
    requires AcceptedFor(s, r, id)
    ensures AcceptedFor(Next(policy, s, a), r, id)
  {
    var i :| 0 <= i < |s.accepts| && s.accepts[i].run == r && s.accepts[i].job == id;
    AcceptsGrow(policy, s, a);
    assert Next(policy, s, a).accepts[i] == s.accepts[i];
  }

  lemma SentStays(policy: Policy, s: State, a: Action, r: RunId)
    requires SureInv(s) && r in s.runs && (WroteSent(s.runs[r].pc) || s.runs[r].pc == Done(SentOutcome))
    requires !(a.Work? && a.run == r && s.runs[r].pc == ToHandleFailure(true))
    ensures HasStatus(Next(policy, s, a).rows, s.runs[r].job, Sent)
  {
    var id := s.runs[r].job;
    assert RunSure(s, r);
    StepOnRow(policy, s, a, id);
    if LateCatch(s, a, id) {
      assert RunSure(s, a.run);
      OneSender(s, a.run, r, id);
    }
  }

  // ---- Every step keeps what is sure of a run ------------------------------------------------------

  predicate Early(pc: Pc)
  {
    pc.ToLoad? || pc.ToClaim? || pc.ToCheckRate? || pc.ToReleaseDenied?
  }

  /** The gates before the send lead to no statement about the row's final status. */
  lemma EarlyStepIsNeutral(policy: Policy, s: State, r: RunId, input: Input)
    requires r in s.runs && Early(s.runs[r].pc)
    ensures r in WorkStep(policy, s, r, input).runs
    ensures var pc := WorkStep(policy, s, r, input).runs[r].pc;
            Early(pc) || pc.ToSend? || pc == Done(DeferredOutcome) || (pc.Done? && pc.outcome.SkippedOutcome?)
  {
    hide WorkStep;
    WorkHasEffect(policy, s, r, input);
  }

  lemma EarlyStepKeepsRunSure(policy: Policy, s: State, r: RunId, input: Input)
    requires r in s.runs && Early(s.runs[r].pc)
    ensures r in WorkStep(policy, s, r, input).runs && RunSure(WorkStep(policy, s, r, input), r)
  {
    hide WorkStep, Accepted, AcceptedFor, HeldBySomeone;
    EarlyStepIsNeutral(policy, s, r, input);
  }

  lemma SendIsAccepted(policy: Policy, s: State, r: RunId, input: Input)
    requires r in s.runs && s.runs[r].pc.ToSend?
    ensures r in WorkStep(policy, s, r, input).runs
    ensures var s' := WorkStep(policy, s, r, input);
            if s'.runs[r].pc.ToMarkSent?
            then s'.accepts == s.accepts + [s'.accepts[|s'.accepts| - 1]]
                 && s'.accepts[|s'.accepts| - 1].run == r && s'.accepts[|s'.accepts| - 1].job == s.runs[r].job
            else s'.accepts == s.accepts
  {
  }

  lemma SendStepKeepsRunSure(policy: Policy, s: State, r: RunId, input: Input)
    requires SureInv(s) && r in s.runs && s.runs[r].pc.ToSend?
    ensures r in WorkStep(policy, s, r, input).runs && RunSure(WorkStep(policy, s, r, input), r)
  {
    hide WorkStep, SureInv, Inv, HeldBySomeone;
    var s' := WorkStep(policy, s, r, input);
    RunIsSure(s, r);
    WorkHasEffect(policy, s, r, input);
    SendIsAccepted(policy, s, r, input);
  }

  /** Writing SENT, and what follows it in the `try`. */
  lemma LateStepKeepsRunSure(policy: Policy, s: State, r: RunId, input: Input)
    requires SureInv(s) && r in s.runs && (s.runs[r].pc.ToMarkSent? || WroteSent(s.runs[r].pc))
    requires s.runs[r].pc != ToHandleFailure(true)
    ensures r in WorkStep(policy, s, r, input).runs && RunSure(WorkStep(policy, s, r, input), r)
  {
    hide WorkStep, Accepted, AcceptedFor, HeldBySomeone, CampaignEffect, SureInv, Inv;
    var s' := WorkStep(policy, s, r, input);
    RunIsSure(s, r);
    WorkHasEffect(policy, s, r, input);
    AcceptedForStays(policy, s, Work(r, input), r, s.runs[r].job);
    assert WroteSent(s'.runs[r].pc) || s'.runs[r].pc == Done(SentOutcome) || s'.runs[r].pc == s.runs[r].pc;
  }

  /** Recording the failure ends the hold, or overwrites SENT: either way nobody holds the row. */
  lemma LastFailureEndsHold(policy: Policy, s: State, r: RunId, input: Input)
    requires SureInv(s) && r in s.runs && s.runs[r].pc.ToHandleFailure? && s.runs[r].isLastAttempt
    ensures !HeldBySomeone(WorkStep(policy, s, r, input), s.runs[r].job)
  {
    hide AcceptedFor, Accepted;
    var s' := WorkStep(policy, s, r, input);
    assert RunOk(s, r) && RunSure(s, r);
    forall r2
      ensures !Holder(s', r2, s.runs[r].job)
    {
      if r2 in s.runs {
        assert RunOk(s, r2);
      }
    }
  }

  lemma LastFailureIsWritten(policy: Policy, s: State, r: RunId, input: Input)
    requires r in s.runs && RunOk(s, r) && s.runs[r].pc.ToHandleFailure? && s.runs[r].isLastAttempt
    ensures var s' := WorkStep(policy, s, r, input);
            && r in s'.runs && s'.runs[r] == s.runs[r].(pc := ToCountPending(false))
            && HasStatus(s'.rows, s.runs[r].job, Failed) && s'.accepts == s.accepts
  {
  }

  lemma LastFailureKeepsRunSure(policy: Policy, s: State, r: RunId, input: Input)
    requires SureInv(s) && r in s.runs && s.runs[r].pc.ToHandleFailure? && s.runs[r].isLastAttempt
    ensures r in WorkStep(policy, s, r, input).runs && RunSure(WorkStep(policy, s, r, input), r)
  {
    hide SureInv, Inv, WorkStep, HeldBySomeone;
    RunIsSure(s, r);
    LastFailureIsWritten(policy, s, r, input);
    LastFailureEndsHold(policy, s, r, input);
    assert Accepted(WorkStep(policy, s, r, input), s.runs[r].job) ==> Accepted(s, s.runs[r].job);
  }

  lemma RetryKeepsRunSure(policy: Policy, s: State, r: RunId, input: Input)
    requires SureInv(s) && r in s.runs && s.runs[r].pc.ToHandleFailure? && !s.runs[r].isLastAttempt
    ensures r in WorkStep(policy, s, r, input).runs && RunSure(WorkStep(policy, s, r, input), r)
  {
    hide Accepted, AcceptedFor, HeldBySomeone;
    assert RunOk(s, r);
  }

  lemma FailedMovesOn(policy: Policy, s: State, r: RunId, input: Input)
    requires r in s.runs && FailedForGood(s.runs[r].pc)
    ensures var s' := WorkStep(policy, s, r, input);
            r in s'.runs && s'.runs[r].job == s.runs[r].job && FailedForGood(s'.runs[r].pc)
  {
    hide WorkStep;
    WorkHasEffect(policy, s, r, input);
  }

  lemma FailedStepKeepsRunSure(policy: Policy, s: State, r: RunId, input: Input)
    requires SureInv(s) && r in s.runs && FailedForGood(s.runs[r].pc)
    ensures r in WorkStep(policy, s, r, input).runs && RunSure(WorkStep(policy, s, r, input), r)
  {
    hide WorkStep, Accepted, AcceptedFor, HeldBySomeone, SureInv, Inv;
    var id := s.runs[r].job;
    RunIsSure(s, r);
    FailureStays(policy, s, Work(r, input), id);
    FailedMovesOn(policy, s, r, input);
    if Accepted(s, id) {
      AcceptedForStays(policy, s, Work(r, input), r, id);
    }
  }

  lemma OwnStepKeepsRunSure(policy: Policy, s: State, r: RunId, input: Input)
    requires SureInv(s) && r in s.runs
    ensures r in WorkStep(policy, s, r, input).runs && RunSure(WorkStep(policy, s, r, input), r)
  {
    hide WorkStep, RunSure;
    var pc := s.runs[r].pc;
    if Early(pc) {
      EarlyStepKeepsRunSure(policy, s, r, input);
    } else if pc.ToSend? {
      SendStepKeepsRunSure(policy, s, r, input);
    } else if pc.ToHandleFailure? {
      if s.runs[r].isLastAttempt {
        LastFailureKeepsRunSure(policy, s, r, input);
      } else {
        RetryKeepsRunSure(policy, s, r, input);
      }
    } else if pc.ToMarkSent? || WroteSent(pc) {
      LateStepKeepsRunSure(policy, s, r, input);
    } else if FailedForGood(pc) {
      FailedStepKeepsRunSure(policy, s, r, input);
    } else {
      DoneStepKeepsRunSure(policy, s, r, input);
    }
  }

  lemma DoneStepKeepsRunSure(policy: Policy, s: State, r: RunId, input: Input)
    requires SureInv(s) && r in s.runs && s.runs[r].pc.Done?
    ensures r in WorkStep(policy, s, r, input).runs && RunSure(WorkStep(policy, s, r, input), r)
  {
    hide RunSure;
  }

  lemma NobodyElseSends(s: State, r: RunId, r2: RunId)
    requires SureInv(s) && r in s.runs && (FailedForGood(s.runs[r].pc) || s.runs[r].pc == ToHandleFailure(false))
    requires r2 in s.runs && r2 != r && s.runs[r2].job == s.runs[r].job
    ensures !s.runs[r2].pc.ToSend?
  {
    assert RunSure(s, r);
    assert s.runs[r2].pc.ToSend? ==> Holder(s, r2, s.runs[r].job);
  }

  /** Somebody else's step accepts no row whose failure this run handles or has recorded. */
  lemma OtherAcceptsElsewhere(policy: Policy, s: State, a: Action, r: RunId)
    requires SureInv(s) && r in s.runs && (FailedForGood(s.runs[r].pc) || s.runs[r].pc == ToHandleFailure(false))
    requires !(a.Work? && a.run == r)
    ensures Accepted(Next(policy, s, a), s.runs[r].job) ==> Accepted(s, s.runs[r].job)
  {
    if a.Work? && a.run in s.runs {
      if s.runs[a.run].job == s.runs[r].job {
        NobodyElseSends(s, r, a.run);
      }
      AcceptedAfterWork(policy, s, a.run, a.input, s.runs[r].job);
    }
    hide WorkStep, SureInv;
  }

  lemma StepKeepsOtherSure(policy: Policy, s: State, a: Action, r: RunId)
    requires SureInv(s) && r in s.runs
    requires !((a.Work? || a.Throw? || a.Crash?) && a.run == r)
    ensures r in Next(policy, s, a).runs && RunSure(Next(policy, s, a), r)
  {
    hide Next, Accepted, AcceptedFor, HeldBySomeone;
    assert RunSure(s, r);
    var pc, id := s.runs[r].pc, s.runs[r].job;
    OtherRunsUntouched(policy, s, a, r);
    if WroteSent(pc) || pc == Done(SentOutcome) {
      SentStays(policy, s, a, r);
    }
    if FailedForGood(pc) {
      FailureStays(policy, s, a, id);
    }
    if FailedForGood(pc) || pc == ToHandleFailure(false) {
      OtherAcceptsElsewhere(policy, s, a, r);
    }
    if AcceptedFor(s, r, id) {
      AcceptedForStays(policy, s, a, r, id);
    }
  }

  /** A throw or a crash writes nothing; it only moves its run: into the `catch` block, or to its end. */
  lemma StopOnlyMoves(policy: Policy, s: State, a: Action)
    requires (a.Throw? || a.Crash?) && a.run in s.runs && !s.runs[a.run].pc.Done?
    ensures var s' := Next(policy, s, a);
            && s'.rows == s.rows && s'.accepts == s.accepts
            && a.run in s'.runs && s'.runs[a.run].job == s.runs[a.run].job
            && (s'.runs[a.run].pc == Done(ThrewOutcome)
                || (s'.runs[a.run].pc == ToHandleFailure(true) && WroteSent(s.runs[a.run].pc))
                || (s'.runs[a.run].pc == ToHandleFailure(false) && (s.runs[a.run].pc.ToSend? || s.runs[a.run].pc.ToMarkSent?)))
  {
  }

  lemma StopOfDone(policy: Policy, s: State, a: Action)
    requires (a.Throw? || a.Crash?) && a.run in s.runs && s.runs[a.run].pc.Done?
    ensures Next(policy, s, a) == s
  {
    assert s.runs[a.run := s.runs[a.run]] == s.runs;
  }

  lemma StopKeepsRunSure(policy: Policy, s: State, a: Action)
    requires SureInv(s) && (a.Throw? || a.Crash?) && a.run in s.runs
    ensures a.run in Next(policy, s, a).runs && RunSure(Next(policy, s, a), a.run)
  {
    hide Next, SureInv, Inv, HeldBySomeone;
    var s', id := Next(policy, s, a), s.runs[a.run].job;
    RunIsSure(s, a.run);
    if s.runs[a.run].pc.Done? {
      StopOfDone(policy, s, a);
    } else {
      StopOnlyMoves(policy, s, a);
      assert Accepted(s', id) <==> Accepted(s, id);
      assert AcceptedFor(s', a.run, id) <==> AcceptedFor(s, a.run, id);
    }
  }

  lemma NextKeepsRunSure(policy: Policy, s: State, a: Action, r: RunId)
    requires SureInv(s) && r in Next(policy, s, a).runs
    ensures RunSure(Next(policy, s, a), r)
  {
    if r !in s.runs {
      NewRunIsNew(policy, s, a, r);
    } else if a.Work? && a.run == r {
      OwnStepKeepsRunSure(policy, s, r, a.input);
    } else if (a.Throw? || a.Crash?) && a.run == r {
      StopKeepsRunSure(policy, s, a);
    } else {
      StepKeepsOtherSure(policy, s, a, r);
    }
  }

  // ---- Every step keeps what is sure of a row ------------------------------------------------------

  /** A time of sending is new exactly when a holder writes SENT. */
  lemma StampIsWritten(policy: Policy, s: State, a: Action, id: JobId)
    requires id in Next(policy, s, a).rows && Next(policy, s, a).rows[id].sentAt.Some?
    requires id in s.rows ==> s.rows[id].sentAt.None?
    ensures id in s.rows && a.Work? && a.run in s.runs && s.runs[a.run].job == id && s.runs[a.run].pc.ToMarkSent?
    ensures Next(policy, s, a).rows[id].status == Sent
    ensures a.run in Next(policy, s, a).runs && Next(policy, s, a).runs[a.run].pc == ToCountPending(true)
  {
    hide WorkStep;
    if a.Work? && a.run in s.runs {
      WorkHasEffect(policy, s, a.run, a.input);
      if s.runs[a.run].pc.ToMarkSent? && id in s.rows && s.runs[a.run].job == id {
        MarkSentMovesOn(policy, s, a.run, a.input);
      }
    }
  }

  lemma MarkSentMovesOn(policy: Policy, s: State, r: RunId, input: Input)
    requires r in s.runs && s.runs[r].pc.ToMarkSent? && s.runs[r].job in s.rows
    ensures r in WorkStep(policy, s, r, input).runs && WorkStep(policy, s, r, input).runs[r].pc == ToCountPending(true)
  {
  }

  lemma NextKeepsStampSure(policy: Policy, s: State, a: Action, id: JobId)
    requires SureInv(s) && id in Next(policy, s, a).rows
    ensures StampSure(Next(policy, s, a), id)
  {
    hide Next;
    var s' := Next(policy, s, a);
    if s'.rows[id].sentAt.Some? {
      if id in s.rows && s.rows[id].sentAt.Some? {
        assert StampSure(s, id);
        StepOnRow(policy, s, a, id);
      } else {
        StampIsWritten(policy, s, a, id);
        assert RunOk(s, a.run) && Holder(s, a.run, id);
      }
      forall r
        ensures !Holder(s', r, id)
      {
        if Holder(s', r, id) {
          NoNewHolder(policy, s, a, id, r);
        }
      }
    }
  }

  lemma NextKeepsSure(policy: Policy, s: State, a: Action)
    requires SureInv(s) && !Hazard(s, a)
    ensures SureInv(Next(policy, s, a))
  {
    hide Next, RunSure, StampSure;
    NextKeepsInv(policy, s, a);
    forall r | r in Next(policy, s, a).runs
      ensures RunSure(Next(policy, s, a), r)
    {
      NextKeepsRunSure(policy, s, a, r);
    }
    forall id | id in Next(policy, s, a).rows
      ensures StampSure(Next(policy, s, a), id)
    {
      NextKeepsStampSure(policy, s, a, id);
    }
  }

  lemma {:induction false} RunKeepsSure(policy: Policy, s: State, trace: seq<Action>)
    requires SureInv(s) && NoHazard(policy, s, trace)
    ensures SureInv(Exec(policy, s, trace))
    decreases |trace|
  {
    if trace != [] {
      NextKeepsSure(policy, s, trace[0]);
      RunKeepsSure(policy, Next(policy, s, trace[0]), trace[1..]);
    }
  }

  // ---- Final statuses -----------------------------------------------------------------------------

  /** CANCELLED is final even when statements throw, short of the hazard. */
  lemma {:induction false} CancelledIsFinal(policy: Policy, s: State, trace: seq<Action>, id: JobId)
    requires Inv(s) && NoHazard(policy, s, trace) && HasStatus(s.rows, id, Cancelled)
    ensures HasStatus(Exec(policy, s, trace).rows, id, Cancelled)
    decreases |trace|
  {
    if trace != [] {
      CancelledStep(policy, s, trace[0], id);
      NextKeepsInv(policy, s, trace[0]);
      CancelledIsFinal(policy, Next(policy, s, trace[0]), trace[1..], id);
    }
  }

  lemma CancelledStep(policy: Policy, s: State, a: Action, id: JobId)
    requires Inv(s) && HasStatus(s.rows, id, Cancelled)
    ensures HasStatus(Next(policy, s, a).rows, id, Cancelled)
  {
    hide WorkStep;
    if a.Work? && a.run in s.runs {
      assert RunOk(s, a.run);
      WorkHasEffect(policy, s, a.run, a.input);
    }
  }

  /** With no assumption on throws, the one step that takes a row out of SENT. */
  lemma SentIsLostExactly(policy: Policy, s: State, a: Action, id: JobId)
    requires Inv(s) && HasStatus(s.rows, id, Sent)
    ensures HasStatus(Next(policy, s, a).rows, id, Sent) <==> !LateCatch(s, a, id)
  {
    hide WorkStep;
    if a.Work? && a.run in s.runs {
      assert RunOk(s, a.run);
      WorkHasEffect(policy, s, a.run, a.input);
    }
  }

  ghost predicate NoLateCatch(policy: Policy, s: State, trace: seq<Action>, id: JobId)
  {
    Along(policy, s, trace, (t: State, a: Action) => !LateCatch(t, a, id))
  }

  lemma {:induction false} UnheldFailureStays(policy: Policy, s: State, trace: seq<Action>, id: JobId)
    requires SureInv(s) && NoHazard(policy, s, trace) && HasStatus(s.rows, id, Failed) && !HeldBySomeone(s, id)
    ensures HasStatus(Exec(policy, s, trace).rows, id, Failed)
    decreases |trace|
  {
    if trace != [] {
      FailureStays(policy, s, trace[0], id);
      NextKeepsSure(policy, s, trace[0]);
      UnheldFailureStays(policy, Next(policy, s, trace[0]), trace[1..], id);
    }
  }

  lemma LateCatchFails(policy: Policy, s: State, a: Action, id: JobId)
    requires SureInv(s) && LateCatch(s, a, id)
    ensures HasStatus(s.rows, id, Sent)
    ensures HasStatus(Next(policy, s, a).rows, id, Failed) && !HeldBySomeone(Next(policy, s, a), id)
  {
    assert RunSure(s, a.run);
    LastFailureKeepsRunSure(policy, s, a.run, a.input);
    assert Next(policy, s, a).runs[a.run].pc == ToCountPending(false);
  }

  /** Over any hazard-free run a SENT row stays SENT if and only if no late `catch` writes FAILED over it. */
  lemma {:induction false} SentIsFinalExactly(policy: Policy, s: State, trace: seq<Action>, id: JobId)
    requires SureInv(s) && NoHazard(policy, s, trace) && HasStatus(s.rows, id, Sent)
    ensures HasStatus(Exec(policy, s, trace).rows, id, Sent) <==> NoLateCatch(policy, s, trace, id)
    decreases |trace|
  {
    if trace != [] {
      var a, s1 := trace[0], Next(policy, s, trace[0]);
      NextKeepsSure(policy, s, a);
      SentIsLostExactly(policy, s, a, id);
      if LateCatch(s, a, id) {
        LateCatchFails(policy, s, a, id);
        UnheldFailureStays(policy, s1, trace[1..], id);
      } else {
        SentIsFinalExactly(policy, s1, trace[1..], id);
      }
    }
  }

  lemma {:induction false} SentOrFailedStays(policy: Policy, s: State, trace: seq<Action>, id: JobId)
    requires SureInv(s) && NoHazard(policy, s, trace) && (HasStatus(s.rows, id, Failed) || HasStatus(s.rows, id, Sent))
    ensures var rows := Exec(policy, s, trace).rows; HasStatus(rows, id, Failed) || HasStatus(rows, id, Sent)
    decreases |trace|
  {
    if trace != [] {
      StepOnRow(policy, s, trace[0], id);
      NextKeepsSure(policy, s, trace[0]);
      SentOrFailedStays(policy, Next(policy, s, trace[0]), trace[1..], id);
    }
  }

  /** FAILED can only change to SENT, and only through a run that already held the row. */
  lemma FailedChangesOnlyThroughItsHolder(policy: Policy, s: State, trace: seq<Action>, id: JobId)
    requires SureInv(s) && NoHazard(policy, s, trace) && HasStatus(s.rows, id, Failed)
    ensures var s' := Exec(policy, s, trace);
            || HasStatus(s'.rows, id, Failed)
            || (HasStatus(s'.rows, id, Sent) && HeldBySomeone(s, id))
  {
    if !HeldBySomeone(s, id) {
      UnheldFailureStays(policy, s, trace, id);
    } else {
      SentOrFailedStays(policy, s, trace, id);
    }
  }

  /** A job stays the same job; in particular the time of sending, once written, is never written again. */
  lemma {:induction false} JobsAreKept(policy: Policy, s: State, trace: seq<Action>, id: JobId)
    requires SureInv(s) && NoHazard(policy, s, trace) && id in s.rows
    ensures id in Exec(policy, s, trace).rows && KeepsJob(s.rows[id], Exec(policy, s, trace).rows[id])
    decreases |trace|
  {
    if trace != [] {
      StepOnRow(policy, s, trace[0], id);
      NextKeepsSure(policy, s, trace[0]);
      JobsAreKept(policy, Next(policy, s, trace[0]), trace[1..], id);
    }
  }

  lemma TerminalStep(policy: Policy, s: State, a: Action, id: JobId)
    requires id in s.rows && Terminal(s.rows[id].status)
    ensures id in Next(policy, s, a).rows && Terminal(Next(policy, s, a).rows[id].status)
    ensures Next(policy, s, a).rows[id].campaign == s.rows[id].campaign
  {
    if a.Work? && a.run in s.runs {
      WorkHasEffect(policy, s, a.run, a.input);
    }
  }

  /** No row with a final status becomes SCHEDULED or PROCESSING again, whatever throws or crashes. */
  lemma {:induction false} TerminalIsForever(policy: Policy, s: State, trace: seq<Action>, id: JobId)
    requires HasStatus(s.rows, id, Sent) || HasStatus(s.rows, id, Failed) || HasStatus(s.rows, id, Cancelled)
    ensures var rows := Exec(policy, s, trace).rows;
            HasStatus(rows, id, Sent) || HasStatus(rows, id, Failed) || HasStatus(rows, id, Cancelled)
    decreases |trace|
  {
    if trace != [] {
      TerminalStep(policy, s, trace[0], id);
      TerminalIsForever(policy, Next(policy, s, trace[0]), trace[1..], id);
    }
  }

  lemma StampStep(policy: Policy, s: State, a: Action)
    requires SentRowsStamped(s.rows)
    ensures SentRowsStamped(Next(policy, s, a).rows)
  {
    hide WorkStep;
    if a.Work? && a.run in s.runs {
      WorkHasEffect(policy, s, a.run, a.input);
    }
  }

  /** In every run, whatever throws or crashes, a SENT row carries the time it was sent. */
  lemma {:induction false} SentRowsStayStamped(policy: Policy, s: State, trace: seq<Action>)
    requires SentRowsStamped(s.rows)
    ensures SentRowsStamped(Exec(policy, s, trace).rows)
    decreases |trace|
  {
    if trace != [] {
      StampStep(policy, s, trace[0]);
      SentRowsStayStamped(policy, Next(policy, s, trace[0]), trace[1..]);
    }
  }

  /** A SENT row turns FAILED when the next statement of run `r` throws. */
  ghost predicate Unsends(policy: Policy, s: State, r: RunId, input: Input, id: JobId)
  {
    HasStatus(s.rows, id, Sent)
    && HasStatus(Next(policy, Next(policy, s, Throw(r)), Work(r, input)).rows, id, Failed)
  }

  /** A throw just after SENT was written, on the last attempt. */
  lemma LateThrowUnsendsARow(policy: Policy)
    requires policy.Cap("s") >= 1
    ensures exists s, r, input, id :: Reachable(policy, s) && LateThrow(s, Throw(r), r) && Unsends(policy, s, r, input, id)
  {
    var s := CountingState(policy, true);
    var s1 := Next(policy, s, Throw(7));
    assert s1.runs[7] == Run(5, true, ToHandleFailure(true));
    assert HasStatus(Next(policy, s1, Work(7, Input(0, 0, true))).rows, 5, Failed);
    assert Unsends(policy, s, 7, Input(0, 0, true), 5);
  }
}
