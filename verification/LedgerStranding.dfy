/**
 Exactly when a campaign is left open for good.

 A campaign with nothing pending can still be closed if and only if some run of it may yet count it
 (`Closer`).  When none is left it is stranded: only a cancellation finishes it.  `Strands` says which
 single steps strand a campaign.
 */
module LedgerStranding {
  import opened Ledger
  import opened LedgerCampaigns
  import opened LedgerProgress
  import opened LedgerReach
  import opened LedgerSafety
  import opened RateLimiter
  import opened Schema

  /** The run may yet write its campaign's status; `throws` says whether statements may throw from now on. */
  predicate MayClose(run: Run, throws: bool)
  {
    || run.pc.ToCheckRate? || run.pc.ToSend? || run.pc.ToMarkSent?
    || run.pc.ToCountPending? || run.pc.ToCountFailed? || run.pc.ToWriteCampaign?
    || (run.pc.ToHandleFailure? && run.isLastAttempt)
    || (throws && (run.pc == ToMarkProcessing(true) || run.pc == ToReturn(true)) && run.isLastAttempt)
  }

  predicate Closer(s: State, r: RunId, c: CampaignId, throws: bool)
  {
    && r in s.runs
    && s.runs[r].job in s.rows
    && s.rows[s.runs[r].job].campaign == c
    && MayClose(s.runs[r], throws)
  }

  /** Unfinished, although no job of the campaign is SCHEDULED or PROCESSING. */
  ghost predicate Idle(s: State, c: CampaignId)
  {
    && c in s.campaigns && (s.campaigns[c] == CampaignScheduled || s.campaigns[c] == CampaignProcessing)
    && NonePending(s.rows, c)
  }

  ghost predicate NoCloser(s: State, c: CampaignId, throws: bool)
  {
    forall r :: !Closer(s, r, c, throws)
  }

  predicate IsFinished(s: State, c: CampaignId)
  {
    && c in s.campaigns
    && (s.campaigns[c] == Completed || s.campaigns[c] == PartiallyFailed || s.campaigns[c] == CampaignCancelled)
  }

  ghost predicate Uncancelled(policy: Policy, s: State, trace: seq<Action>, c: CampaignId, throws: bool)
  {
    Along(policy, s, trace, (t: State, a: Action) => !Cancels(t, a, c) && (a.Throw? ==> throws))
  }

  /** Some continuation without a cancellation finishes the campaign. */
  ghost predicate CanClose(policy: Policy, s: State, c: CampaignId, throws: bool)
  {
    exists trace :: Uncancelled(policy, s, trace, c, throws) && IsFinished(Exec(policy, s, trace), c)
  }

  // ---- With no closer left, nothing but a cancellation closes it ------------------------------------

  /** A step that leaves nothing pending makes no closer. */
  lemma CloserWasCloser(policy: Policy, s: State, a: Action, c: CampaignId, r: RunId, throws: bool)
    requires GroundInv(s) && NonePending(s.rows, c) && (a.Throw? ==> throws) && Closer(Next(policy, s, a), r, c, throws)
    ensures Closer(s, r, c, throws)
  {
    hide WorkStep;
    if r in s.runs {
      NextOnRun(policy, s, a, r);
      assert Grounded(s, r);
      if a.Work? && a.run == r {
        WorkHasEffect(policy, s, r, a.input);
      }
      if s.runs[r].job in s.rows {
        CampaignIsStable(policy, s, a, s.runs[r].job);
      }
    } else {
      NewRunIsNew(policy, s, a, r);
    }
  }

  lemma StaysStranded(policy: Policy, s: State, a: Action, c: CampaignId, throws: bool)
    requires GroundInv(s) && Idle(s, c) && NoCloser(s, c, throws) && !Cancels(s, a, c) && (a.Throw? ==> throws)
    ensures Idle(Next(policy, s, a), c) && NoCloser(Next(policy, s, a), c, throws)
  {
    NextKeepsCampaigns(policy, s, a);
    NonePendingStays(policy, s, a, c);
    StatusStep(policy, s, a, c);
    if a.Work? && a.run in s.runs && s.runs[a.run].pc.ToWriteCampaign? {
      assert !Closer(s, a.run, c, throws);
    }
    forall r
      ensures !Closer(Next(policy, s, a), r, c, throws)
    {
      if Closer(Next(policy, s, a), r, c, throws) {
        CloserWasCloser(policy, s, a, c, r, throws);
      }
    }
  }

  lemma {:induction false} StrandedForGood(policy: Policy, s: State, trace: seq<Action>, c: CampaignId, throws: bool)
    requires GroundInv(s) && Idle(s, c) && NoCloser(s, c, throws) && Uncancelled(policy, s, trace, c, throws)
    ensures Idle(Exec(policy, s, trace), c) && NoCloser(Exec(policy, s, trace), c, throws)
    decreases |trace|
  {
    if trace != [] {
      StaysStranded(policy, s, trace[0], c, throws);
      NextKeepsGroundInv(policy, s, trace[0]);
      StrandedForGood(policy, Next(policy, s, trace[0]), trace[1..], c, throws);
    }
  }

  // ---- A closer can close it ------------------------------------------------------------------------

  lemma CloseStep(policy: Policy, s: State, a: Action, c: CampaignId, throws: bool)
    requires !Cancels(s, a, c) && (a.Throw? ==> throws) && CanClose(policy, Next(policy, s, a), c, throws)
    ensures CanClose(policy, s, c, throws)
  {
    var s1 := Next(policy, s, a);
    var trace :| Uncancelled(policy, s1, trace, c, throws) && IsFinished(Exec(policy, s1, trace), c);
    var longer := [a] + trace;
    assert longer[0] == a && longer[1..] == trace;
    assert Uncancelled(policy, s, longer, c, throws) && IsFinished(Exec(policy, s, longer), c);
  }

  /** Run `r` of campaign `c` at `pc`, with nothing of the campaign pending. */
  ghost predicate At(s: State, r: RunId, c: CampaignId, pc: Pc)
  {
    && r in s.runs && s.runs[r].pc == pc
    && s.runs[r].job in s.rows && s.rows[s.runs[r].job].campaign == c
    && NonePending(s.rows, c)
  }

  lemma WriteCloses(policy: Policy, s: State, r: RunId, c: CampaignId, sent: bool, verdict: CampaignStatus, throws: bool)
    requires At(s, r, c, ToWriteCampaign(sent, verdict)) && Finished(verdict)
    ensures CanClose(policy, s, c, throws)
  {
    var a := Work(r, Input(0, 0, true));
    assert [a][1..] == [] && Exec(policy, s, [a]) == Next(policy, s, a);
    assert Uncancelled(policy, s, [a], c, throws) && IsFinished(Exec(policy, s, [a]), c);
  }

  lemma CountFailedCloses(policy: Policy, s: State, r: RunId, c: CampaignId, sent: bool, throws: bool)
    requires At(s, r, c, ToCountFailed(sent))
    ensures CanClose(policy, s, c, throws)
  {
    var a := Work(r, Input(0, 0, true));
    var s1 := Next(policy, s, a);
    assert s1.runs[r].pc.ToWriteCampaign? && s1.rows == s.rows;
    WriteCloses(policy, s1, r, c, s1.runs[r].pc.sent, s1.runs[r].pc.verdict, throws);
    CloseStep(policy, s, a, c, throws);
  }

  lemma CountPendingCloses(policy: Policy, s: State, r: RunId, c: CampaignId, sent: bool, throws: bool)
    requires At(s, r, c, ToCountPending(sent))
    ensures CanClose(policy, s, c, throws)
  {
    CountsMean(s.rows, c);
    var a := Work(r, Input(0, 0, true));
    assert At(Next(policy, s, a), r, c, ToCountFailed(sent));
    CountFailedCloses(policy, Next(policy, s, a), r, c, sent, throws);
    CloseStep(policy, s, a, c, throws);
  }

  lemma MarkSentCloses(policy: Policy, s: State, r: RunId, c: CampaignId, decidedAt: nat, throws: bool)
    requires At(s, r, c, ToMarkSent(decidedAt))
    ensures CanClose(policy, s, c, throws)
  {
    var a := Work(r, Input(0, 0, true));
    assert At(Next(policy, s, a), r, c, ToCountPending(true));
    CountPendingCloses(policy, Next(policy, s, a), r, c, true, throws);
    CloseStep(policy, s, a, c, throws);
  }

  lemma LastFailureCloses(policy: Policy, s: State, r: RunId, c: CampaignId, sent: bool, throws: bool)
    requires At(s, r, c, ToHandleFailure(sent)) && s.runs[r].isLastAttempt
    ensures CanClose(policy, s, c, throws)
  {
    var a := Work(r, Input(0, 0, true));
    assert At(Next(policy, s, a), r, c, ToCountPending(false));
    CountPendingCloses(policy, Next(policy, s, a), r, c, false, throws);
    CloseStep(policy, s, a, c, throws);
  }

  lemma LateThrowCloses(policy: Policy, s: State, r: RunId, c: CampaignId)
    requires At(s, r, c, ToMarkProcessing(true)) || At(s, r, c, ToReturn(true))
    requires s.runs[r].isLastAttempt
    ensures CanClose(policy, s, c, true)
  {
    assert At(Next(policy, s, Throw(r)), r, c, ToHandleFailure(true));
    LastFailureCloses(policy, Next(policy, s, Throw(r)), r, c, true, true);
    CloseStep(policy, s, Throw(r), c, true);
  }

  lemma SendCloses(policy: Policy, s: State, r: RunId, c: CampaignId, decidedAt: nat, throws: bool)
    requires At(s, r, c, ToSend(decidedAt))
    ensures CanClose(policy, s, c, throws)
  {
    var a := Work(r, Input(0, 0, true));
    assert At(Next(policy, s, a), r, c, ToMarkSent(decidedAt));
    MarkSentCloses(policy, Next(policy, s, a), r, c, decidedAt, throws);
    CloseStep(policy, s, a, c, throws);
  }

  lemma CheckRateCloses(policy: Policy, s: State, r: RunId, c: CampaignId, throws: bool)
    requires At(s, r, c, ToCheckRate) && AllExpire(s.redis) && policy.Cap(s.rows[s.runs[r].job].sender) >= 1
    ensures CanClose(policy, s, c, throws)
  {
    var input := LateInput(s);
    AllowedWhenAllExpired(policy, s.redis, LimiterCall(s, r, input));
    assert At(Next(policy, s, Work(r, input)), r, c, ToSend(input.now));
    SendCloses(policy, Next(policy, s, Work(r, input)), r, c, input.now, throws);
    CloseStep(policy, s, Work(r, input), c, throws);
  }

  lemma CloserCloses(policy: Policy, s: State, r: RunId, c: CampaignId, throws: bool)
    requires GroundInv(s) && NonePending(s.rows, c) && Closer(s, r, c, throws)
    requires AllExpire(s.redis) && policy.Cap(s.rows[s.runs[r].job].sender) >= 1
    ensures CanClose(policy, s, c, throws)
  {
    assert Grounded(s, r);
    match s.runs[r].pc {
      case ToCheckRate => CheckRateCloses(policy, s, r, c, throws);
      case ToSend(at) => SendCloses(policy, s, r, c, at, throws);
      case ToMarkSent(at) => MarkSentCloses(policy, s, r, c, at, throws);
      case ToHandleFailure(sent) => LastFailureCloses(policy, s, r, c, sent, throws);
      case ToCountPending(sent) => CountPendingCloses(policy, s, r, c, sent, throws);
      case ToCountFailed(sent) => CountFailedCloses(policy, s, r, c, sent, throws);
      case ToWriteCampaign(sent, verdict) => WriteCloses(policy, s, r, c, sent, verdict, throws);
      case ToMarkProcessing(_) => LateThrowCloses(policy, s, r, c);
      case ToReturn(_) => LateThrowCloses(policy, s, r, c);
    }
  }

  /**
   An unfinished campaign with nothing pending can still be finished without a cancellation if and only
   if a closer is left, whether or not statements may throw on the way.
   */
  lemma CanCloseIffSomeCloser(policy: Policy, s: State, c: CampaignId, throws: bool)
    requires GroundInv(s) && AllExpire(s.redis) && Idle(s, c)
    requires forall id :: id in s.rows && s.rows[id].campaign == c ==> policy.Cap(s.rows[id].sender) >= 1
    ensures CanClose(policy, s, c, throws) <==> exists r :: Closer(s, r, c, throws)
  {
    if r :| Closer(s, r, c, throws) {
      CloserCloses(policy, s, r, c, throws);
    } else if CanClose(policy, s, c, throws) {
      var trace :| Uncancelled(policy, s, trace, c, throws) && IsFinished(Exec(policy, s, trace), c);
      StrandedForGood(policy, s, trace, c, throws);
      assert false;
    }
  }

  // ---- Stranded campaigns -----------------------------------------------------------------------------

  /** No run will ever close the campaign, even with throws. */
  ghost predicate Stranded(s: State, c: CampaignId)
  {
    Idle(s, c) && NoCloser(s, c, true)
  }

  lemma StrandedCannotClose(policy: Policy, s: State, c: CampaignId)
    requires GroundInv(s) && Stranded(s, c)
    ensures !CanClose(policy, s, c, true)
  {
    if CanClose(policy, s, c, true) {
      var trace :| Uncancelled(policy, s, trace, c, true) && IsFinished(Exec(policy, s, trace), c);
      StrandedForGood(policy, s, trace, c, true);
      assert false;
    }
  }

  /**
   In every run, whatever throws and crashes: once no run is in flight and nothing of a campaign is
   pending, it is finished, or nothing but a cancellation will ever finish it.
   */
  lemma QuietMeansFinishedOrStranded(policy: Policy, trace: seq<Action>, c: CampaignId)
    requires var s := Exec(policy, EMPTY, trace); c in s.campaigns && NoneInFlight(s) && NonePending(s.rows, c)
    ensures var s := Exec(policy, EMPTY, trace); Finished(s.campaigns[c]) <==> CanClose(policy, s, c, true)
  {
    var s := Exec(policy, EMPTY, trace);
    RunKeepsGroundInv(policy, EMPTY, trace);
    if Finished(s.campaigns[c]) {
      assert Uncancelled(policy, s, [], c, true) && IsFinished(Exec(policy, s, []), c);
    } else {
      assert Stranded(s, c);
      StrandedCannotClose(policy, s, c);
    }
  }

  ghost predicate OnlyCloser(s: State, r: RunId, c: CampaignId)
  {
    Closer(s, r, c, true) && forall r2 :: Closer(s, r2, c, true) ==> r2 == r
  }

  /** The step takes run `r` off the way to the campaign's status without writing it. */
  predicate GivesUp(policy: Policy, s: State, a: Action, r: RunId)
    requires r in s.runs && s.runs[r].job in s.rows
  {
    var run := s.runs[r];
    match a
    case Crash(_) => true
    case Throw(_) => !MayClose(run.(pc := ThrowTarget(run.pc)), true)
    case Work(_, input) =>
      || (run.pc.ToCheckRate? && input.redisTime >= s.clock
          && !Check(policy, s.redis, LimiterCall(s, r, input)).1.allowed)
      || (run.pc.ToSend? && !input.smtpAccepts && !run.isLastAttempt)
      || run.pc.ToReturn?
    case _ => false
  }

  /**
   The steps that strand campaign `c`: its only closer gives up when nothing is pending, or a pass fails
   all that is pending while no closer is left.
   */
  ghost predicate Strands(policy: Policy, s: State, a: Action, c: CampaignId)
  {
    || (a.FailStale? && NoCloser(s, c, true) && !NonePending(s.rows, c)
        && forall id :: id in s.rows && s.rows[id].campaign == c && Pending(s.rows[id].status) ==> Stale(s.rows[id], a.cutoff))
    || ((a.Work? || a.Throw? || a.Crash?) && NonePending(s.rows, c)
        && OnlyCloser(s, a.run, c) && GivesUp(policy, s, a, a.run))
  }

  /** A step that is not about run `r` leaves it the closer it was. */
  lemma OtherStaysCloser(policy: Policy, s: State, a: Action, c: CampaignId, r: RunId)
    requires Closer(s, r, c, true) && !((a.Work? || a.Throw? || a.Crash?) && a.run == r)
    ensures Closer(Next(policy, s, a), r, c, true)
  {
    hide Next;
    NextOnRun(policy, s, a, r);
    CampaignIsStable(policy, s, a, s.runs[r].job);
  }

  lemma GateOfCloser(policy: Policy, s: State, r: RunId, input: Input, c: CampaignId)
    requires GroundInv(s) && NonePending(s.rows, c) && Closer(s, r, c, true) && !IsFinished(s, c)
    requires s.runs[r].pc.ToCheckRate? || s.runs[r].pc.ToSend?
    ensures var s' := WorkStep(policy, s, r, input);
            !Closer(s', r, c, true) && !IsFinished(s', c) <==> GivesUp(policy, s, Work(r, input), r)
  {
    hide Check;
    match s.runs[r].pc {
      case ToCheckRate =>
      case ToSend(_) =>
    }
  }

  lemma WorkOfCloser(policy: Policy, s: State, r: RunId, input: Input, c: CampaignId)
    requires GroundInv(s) && NonePending(s.rows, c) && Closer(s, r, c, true) && !IsFinished(s, c)
    ensures var s' := WorkStep(policy, s, r, input);
            !Closer(s', r, c, true) && !IsFinished(s', c) <==> GivesUp(policy, s, Work(r, input), r)
  {
    if s.runs[r].pc.ToCheckRate? || s.runs[r].pc.ToSend? {
      GateOfCloser(policy, s, r, input, c);
      hide *;
    } else {
      FinishingOfCloser(policy, s, r, input, c);
      hide *;
    }
  }

  lemma WritingOfCloser(policy: Policy, s: State, r: RunId, input: Input, c: CampaignId)
    requires GroundInv(s) && NonePending(s.rows, c) && Closer(s, r, c, true) && !IsFinished(s, c)
    requires s.runs[r].pc.ToMarkSent? || s.runs[r].pc.ToHandleFailure? || s.runs[r].pc.ToReturn?
    ensures var s' := WorkStep(policy, s, r, input);
            !Closer(s', r, c, true) && !IsFinished(s', c) <==> GivesUp(policy, s, Work(r, input), r)
  {
    hide CheckRate, Send, Load, Claim, Finalize;
    match s.runs[r].pc {
      case ToMarkSent(_) =>
      case ToHandleFailure(_) =>
      case ToReturn(_) =>
    }
  }

  lemma CountingOfCloser(policy: Policy, s: State, r: RunId, input: Input, c: CampaignId)
    requires GroundInv(s) && NonePending(s.rows, c) && Closer(s, r, c, true) && !IsFinished(s, c)
    requires s.runs[r].pc.ToCountPending? || s.runs[r].pc.ToCountFailed? || s.runs[r].pc.ToMarkProcessing?
          || s.runs[r].pc.ToWriteCampaign?
    ensures var s' := WorkStep(policy, s, r, input);
            !Closer(s', r, c, true) && !IsFinished(s', c) <==> GivesUp(policy, s, Work(r, input), r)
  {
    hide CheckRate, Send, Load, Claim, HandleFailure;
    assert Grounded(s, r);
    CountsMean(s.rows, c);
    match s.runs[r].pc {
      case ToCountPending(_) =>
      case ToCountFailed(_) =>
      case ToMarkProcessing(_) =>
      case ToWriteCampaign(_, _) =>
    }
  }

  lemma FinishingOfCloser(policy: Policy, s: State, r: RunId, input: Input, c: CampaignId)
    requires GroundInv(s) && NonePending(s.rows, c) && Closer(s, r, c, true) && !IsFinished(s, c)
    requires !s.runs[r].pc.ToCheckRate? && !s.runs[r].pc.ToSend?
    ensures var s' := WorkStep(policy, s, r, input);
            !Closer(s', r, c, true) && !IsFinished(s', c) <==> GivesUp(policy, s, Work(r, input), r)
  {
    if s.runs[r].pc.ToMarkSent? || s.runs[r].pc.ToHandleFailure? || s.runs[r].pc.ToReturn? {
      WritingOfCloser(policy, s, r, input, c);
      hide *;
    } else {
      CountingOfCloser(policy, s, r, input, c);
      hide *;
    }
  }

  /** A closer's own step: it stays a closer, finishes the campaign, or gives up. */
  lemma OwnStepOfCloser(policy: Policy, s: State, a: Action, c: CampaignId)
    requires (a.Work? || a.Throw? || a.Crash?) && GroundInv(s) && NonePending(s.rows, c)
    requires Closer(s, a.run, c, true) && !IsFinished(s, c)
    ensures !Closer(Next(policy, s, a), a.run, c, true) && !IsFinished(Next(policy, s, a), c)
       <==> GivesUp(policy, s, a, a.run)
  {
    if a.Work? {
      WorkOfCloser(policy, s, a.run, a.input, c);
      hide WorkStep;
    }
  }

  lemma StepWithNonePending(policy: Policy, s: State, a: Action, c: CampaignId)
    requires GroundInv(s) && Idle(s, c) && !Stranded(s, c) && !Cancels(s, a, c)
    ensures Stranded(Next(policy, s, a), c) <==> Strands(policy, s, a, c)
  {
    var s' := Next(policy, s, a);
    NextKeepsCampaigns(policy, s, a);
    NonePendingStays(policy, s, a, c);
    if Stranded(s', c) {
      var r :| Closer(s, r, c, true);
      forall r2 | Closer(s, r2, c, true)
        ensures (a.Work? || a.Throw? || a.Crash?) && r2 == a.run
      {
        if !((a.Work? || a.Throw? || a.Crash?) && r2 == a.run) {
          OtherStaysCloser(policy, s, a, c, r2);
        }
      }
      OwnStepOfCloser(policy, s, a, c);
    }
    if Strands(policy, s, a, c) {
      OwnStepOfCloser(policy, s, a, c);
      forall r
        ensures !Closer(s', r, c, true)
      {
        if Closer(s', r, c, true) {
          CloserWasCloser(policy, s, a, c, r, true);
        }
      }
    }
  }

  /** The rows of `c` all reach a final status in one step: by a pass, or by a run that goes on to count. */
  lemma LastPendingStep(policy: Policy, s: State, a: Action, c: CampaignId)
    requires !NonePending(s.rows, c) && NonePending(Next(policy, s, a).rows, c) && !Cancels(s, a, c)
    ensures a.FailStale? || (a.Work? && Closer(Next(policy, s, a), a.run, c, true))
  {
    hide WorkStep;
    var id :| id in s.rows && s.rows[id].campaign == c && Pending(s.rows[id].status);
    CampaignIsStable(policy, s, a, id);
    assert Terminal(Next(policy, s, a).rows[id].status);
    if a.Work? && a.run in s.runs {
      WorkFinishes(policy, s, a.run, a.input, id);
    }
  }

  lemma PassMovesNoRun(policy: Policy, s: State, a: Action, c: CampaignId)
    requires a.FailStale?
    ensures NoCloser(s, c, true) <==> NoCloser(Next(policy, s, a), c, true)
    ensures NonePending(Next(policy, s, a).rows, c) <==>
              forall id :: id in s.rows && s.rows[id].campaign == c && Pending(s.rows[id].status) ==> Stale(s.rows[id], a.cutoff)
    ensures Next(policy, s, a).campaigns == s.campaigns
  {
    var s' := Next(policy, s, a);
    assert forall r :: Closer(s', r, c, true) <==> Closer(s, r, c, true);
    assert forall id :: id in s.rows <==> id in s'.rows;
    assert forall id :: id in s.rows ==>
             (Terminal(s'.rows[id].status) <==> Terminal(s.rows[id].status) || Stale(s.rows[id], a.cutoff));
  }

  lemma StepWithPending(policy: Policy, s: State, a: Action, c: CampaignId)
    requires c in s.campaigns && !Finished(s.campaigns[c]) && !NonePending(s.rows, c) && !Cancels(s, a, c)
    ensures Stranded(Next(policy, s, a), c) <==> Strands(policy, s, a, c)
  {
    if a.FailStale? {
      PassMovesNoRun(policy, s, a, c);
    } else if Stranded(Next(policy, s, a), c) {
      LastPendingStep(policy, s, a, c);
      assert false;
    }
  }

  /** `Strands` is exact: it says which steps, short of cancellations, leave an open campaign stranded. */
  lemma StrandingIsExact(policy: Policy, s: State, a: Action, c: CampaignId)
    requires GroundInv(s) && c in s.campaigns && !Finished(s.campaigns[c]) && !Stranded(s, c) && !Cancels(s, a, c)
    ensures Stranded(Next(policy, s, a), c) <==> Strands(policy, s, a, c)
  {
    if NonePending(s.rows, c) {
      StepWithNonePending(policy, s, a, c);
    } else {
      StepWithPending(policy, s, a, c);
    }
  }

  ghost predicate NeverStrands(policy: Policy, s: State, trace: seq<Action>, c: CampaignId)
  {
    Along(policy, s, trace, (t: State, a: Action) => IsFinished(t, c) || !Strands(policy, t, a, c))
  }

  lemma {:induction false} FinishedForGood(policy: Policy, s: State, trace: seq<Action>, c: CampaignId)
    requires GroundInv(s) && IsFinished(s, c)
    ensures IsFinished(Exec(policy, s, trace), c) && NeverStrands(policy, s, trace, c)
    decreases |trace|
  {
    if trace != [] {
      FinishedStays(policy, s, trace[0], c);
      NextKeepsGroundInv(policy, s, trace[0]);
      FinishedForGood(policy, Next(policy, s, trace[0]), trace[1..], c);
    }
  }

  /**
   Exactly when an open campaign ends up stranded: over any run without a cancellation of it, whatever
   throws and crashes, it does if and only if some step of the run strands it.
   */
  lemma {:induction false} StrandedIffSomeStepStrands(policy: Policy, s: State, trace: seq<Action>, c: CampaignId)
    requires GroundInv(s) && c in s.campaigns && !Stranded(s, c) && Uncancelled(policy, s, trace, c, true)
    ensures Stranded(Exec(policy, s, trace), c) <==> !NeverStrands(policy, s, trace, c)
    decreases |trace|
  {
    if IsFinished(s, c) {
      FinishedForGood(policy, s, trace, c);
    } else if trace != [] {
      var s' := Next(policy, s, trace[0]);
      StrandingIsExact(policy, s, trace[0], c);
      NextKeepsGroundInv(policy, s, trace[0]);
      NextKeepsCampaigns(policy, s, trace[0]);
      if Stranded(s', c) {
        StrandedForGood(policy, s', trace[1..], c, true);
      } else {
        StrandedIffSomeStepStrands(policy, s', trace[1..], c);
      }
    }
  }

  /** Hence a quiet campaign is unfinished if and only if some step stranded it. */
  lemma QuietIsUnfinishedIffStranded(policy: Policy, s: State, trace: seq<Action>, c: CampaignId)
    requires GroundInv(s) && c in s.campaigns && !Stranded(s, c) && Uncancelled(policy, s, trace, c, true)
    requires var s' := Exec(policy, s, trace); NoneInFlight(s') && NonePending(s'.rows, c)
    ensures IsFinished(Exec(policy, s, trace), c) <==> NeverStrands(policy, s, trace, c)
  {
    var s' := Exec(policy, s, trace);
    StrandedIffSomeStepStrands(policy, s, trace, c);
    StaysKnown(policy, s, trace, c);
    assert NoCloser(s', c, true);
  }

  lemma {:induction false} StaysKnown(policy: Policy, s: State, trace: seq<Action>, c: CampaignId)
    requires GroundInv(s) && c in s.campaigns
    ensures c in Exec(policy, s, trace).campaigns
    decreases |trace|
  {
    if trace != [] {
      NextKeepsCampaigns(policy, s, trace[0]);
      NextKeepsGroundInv(policy, s, trace[0]);
      StaysKnown(policy, Next(policy, s, trace[0]), trace[1..], c);
    }
  }

  // ---- Two ways to strand a campaign ------------------------------------------------------------------

  lemma ReachableIsGrounded(policy: Policy, s: State)
    requires Reachable(policy, s)
    ensures GroundInv(s)
  {
    var trace :| NoHazard(policy, EMPTY, trace) && Exec(policy, EMPTY, trace) == s;
    RunKeepsGroundInv(policy, EMPTY, trace);
  }

  lemma DoneIsStranded(policy: Policy, s: State)
    requires Reachable(policy, s) && s.runs.Keys == {7} && s.runs[7].pc.Done?
    requires s.rows.Keys == {5} && Terminal(s.rows[5].status) && s.campaigns == map[1 := CampaignScheduled]
    ensures Idle(s, 1) && !CanClose(policy, s, 1, true)
  {
    ReachableIsGrounded(policy, s);
    assert Stranded(s, 1);
    StrandedCannotClose(policy, s, 1);
  }

  /** A worker that dies after writing SENT and before its count leaves the campaign open for good. */
  lemma LostFinalizerStrandsCampaign(policy: Policy)
    requires policy.Cap("s") >= 1
    ensures exists s :: Reachable(policy, s) && Idle(s, 1) && !CanClose(policy, s, 1, true)
  {
    var s := CountingState(policy, false);
    var s' := Next(policy, s, Crash(7));
    ReachableStep(policy, s, Crash(7));
    assert s'.runs.Keys == {7} && s'.runs[7].pc.Done? && s'.rows == s.rows && s'.campaigns == s.campaigns;
    DoneIsStranded(policy, s');
  }

  /** So does a stale-failing pass that fails the last PROCESSING row of a dead worker. */
  lemma StalePassStrandsCampaign(policy: Policy)
    ensures exists s :: Reachable(policy, s) && Idle(s, 1) && !CanClose(policy, s, 1, true)
  {
    var s0 := ClaimedState(policy, false);
    var s1 := Next(policy, s0, Crash(7));
    ReachableStep(policy, s0, Crash(7));
    var s2 := Next(policy, s1, FailStale(1));
    ReachableStep(policy, s1, FailStale(1));
    assert s2.runs.Keys == {7} && s2.runs[7].pc.Done? && s2.rows.Keys == {5} && s2.rows[5].status == Failed;
    assert s2.campaigns == map[1 := CampaignScheduled];
    DoneIsStranded(policy, s2);
  }
}
