/**
 Safety of the ledger over every interleaving: unique holders, and at most one SMTP acceptance per row.
 */
module LedgerSafety {
  import opened Ledger
  import opened RateLimiter
  import opened Schema

  /** A run holds its row from the claim until it lets the row go or writes a final status. */
  predicate Holds(pc: Pc)
  {
    pc.ToCheckRate? || pc.ToReleaseDenied? || pc.ToSend? || pc.ToMarkSent? || pc == ToHandleFailure(false)
  }

  /** The run has written SENT and is still inside its `try`. */
  predicate WroteSent(pc: Pc)
  {
    || pc == ToHandleFailure(true) || pc == ToCountPending(true) || pc == ToMarkProcessing(true)
    || pc == ToCountFailed(true) || (pc.ToWriteCampaign? && pc.sent) || pc == ToReturn(true)
  }

  predicate Live(pc: Pc)
  {
    !pc.ToLoad? && !pc.Done?
  }

  ghost predicate Accepted(s: State, job: JobId)
  {
    exists i :: 0 <= i < |s.accepts| && s.accepts[i].job == job
  }

  predicate Holder(s: State, r: RunId, job: JobId)
  {
    r in s.runs && s.runs[r].job == job && Holds(s.runs[r].pc)
  }

  /** The run may yet lead to a first acceptance of its row. */
  predicate MayStillSend(s: State, r: RunId)
    requires r in s.runs
  {
    var run := s.runs[r];
    || run.pc.ToCheckRate? || run.pc.ToReleaseDenied? || run.pc.ToSend?
    || (run.pc == ToHandleFailure(false) && !run.isLastAttempt && HasStatus(s.rows, run.job, Processing))
  }

  ghost predicate RunOk(s: State, r: RunId)
    requires r in s.runs
  {
    var run := s.runs[r];
    && (Live(run.pc) ==> run.job in s.rows)
    && (Holds(run.pc) ==> HasStatus(s.rows, run.job, Processing) || HasStatus(s.rows, run.job, Failed))
    && (WroteSent(run.pc) ==> HasStatus(s.rows, run.job, Sent) || HasStatus(s.rows, run.job, Failed))
    && (MayStillSend(s, r) ==> !Accepted(s, run.job))
    && (run.pc.ToMarkSent? ==> Accepted(s, run.job))
  }

  ghost predicate UniqueHolders(s: State)
  {
    forall r1, r2 ::
      && r1 in s.runs && Holds(s.runs[r1].pc)
      && r2 in s.runs && Holds(s.runs[r2].pc)
      && s.runs[r1].job == s.runs[r2].job
      ==> r1 == r2
  }

  ghost predicate AcceptedOnce(s: State)
  {
    forall i, j :: 0 <= i < j < |s.accepts| ==> s.accepts[i].job != s.accepts[j].job
  }

  ghost predicate AcceptedRowsOk(s: State)
  {
    forall i :: 0 <= i < |s.accepts| ==>
      var job := s.accepts[i].job;
      job in s.rows && s.rows[job].status != Scheduled && s.rows[job].status != Cancelled
  }

  ghost predicate SentRowsAccepted(s: State)
  {
    forall id :: id in s.rows && s.rows[id].status == Sent ==> Accepted(s, id)
  }

  ghost predicate Inv(s: State)
  {
    && (forall r :: r in s.runs ==> RunOk(s, r))
    && UniqueHolders(s)
    && AcceptedOnce(s)
    && AcceptedRowsOk(s)
    && SentRowsAccepted(s)
  }

  lemma RunIsOk(s: State, r: RunId)
    requires Inv(s) && r in s.runs
    ensures RunOk(s, r)
  {
  }

  /**
   The one dangerous event: the write of SENT throws although SMTP has accepted, the row is still
   PROCESSING, and the run has attempts left, so its `catch` block hands the row to a retry.
   */
  predicate Hazard(s: State, a: Action)
  {
    && a.Throw?
    && a.run in s.runs
    && s.runs[a.run].pc.ToMarkSent?
    && !s.runs[a.run].isLastAttempt
    && HasStatus(s.rows, s.runs[a.run].job, Processing)
  }

  // ---- Every action keeps the invariant --------------------------------------------------------

  /** Where the program counter of run `r` may go without harm, when nothing else about rows changes. */
  ghost predicate SafeMove(s: State, r: RunId, pc: Pc)
    requires r in s.runs
  {
    var run := s.runs[r];
    && (Live(pc) ==> run.job in s.rows)
    && (Holds(pc) ==> Holds(run.pc))
    && (WroteSent(pc) ==> WroteSent(run.pc))
    && (MayStillSend(SetPc(s, r, pc), r) ==> !Accepted(s, run.job))
    && (pc.ToMarkSent? ==> Accepted(s, run.job))
  }

  lemma PcMoveKeepsInv(s: State, r: RunId, pc: Pc, campaigns: Campaigns)
    requires Inv(s) && r in s.runs && SafeMove(s, r, pc)
    ensures Inv(SetPc(s.(campaigns := campaigns), r, pc))
  {
    var s' := SetPc(s.(campaigns := campaigns), r, pc);
    assert forall job :: Accepted(s', job) <==> Accepted(s, job);
    forall r2 | r2 in s'.runs
      ensures RunOk(s', r2)
    {
      assert RunOk(s, r2);
    }
  }

  lemma LoadKeepsInv(s: State, r: RunId)
    requires Inv(s) && r in s.runs && s.runs[r].pc.ToLoad?
    ensures Inv(Load(s, r))
  {
    PcMoveKeepsInv(s, r, Load(s, r).runs[r].pc, s.campaigns);
  }

  lemma ClaimKeepsInv(s: State, r: RunId, now: nat)
    requires Inv(s) && r in s.runs && s.runs[r].pc.ToClaim?
    ensures Inv(Claim(s, r, now))
  {
    var s' := Claim(s, r, now);
    assert forall job :: Accepted(s', job) <==> Accepted(s, job);
    forall r2 | r2 in s'.runs
      ensures RunOk(s', r2)
    {
      assert RunOk(s, r2);
    }
  }

  lemma CheckRateKeepsInv(policy: Policy, s: State, r: RunId, input: Input)
    requires Inv(s) && r in s.runs && s.runs[r].pc.ToCheckRate?
    ensures Inv(CheckRate(policy, s, r, input))
  {
  }

  lemma AcceptGrows(s: State, s': State, a: Accept)
    requires s'.accepts == s.accepts + [a]
    ensures forall job :: Accepted(s', job) <==> Accepted(s, job) || job == a.job
  {
    forall job
      ensures Accepted(s', job) <==> Accepted(s, job) || job == a.job
    {
      assert s'.accepts[|s.accepts|] == a;
      assert forall i :: 0 <= i < |s.accepts| ==> s'.accepts[i] == s.accepts[i];
    }
  }

  lemma SendKeepsInv(s: State, r: RunId, decidedAt: nat, accepted: bool)
    requires Inv(s) && r in s.runs && s.runs[r].pc == ToSend(decidedAt)
    ensures Inv(Send(s, r, decidedAt, accepted))
  {
    if accepted {
      AcceptGrows(s, Send(s, r, decidedAt, accepted),
                  Accept(r, s.runs[r].job, s.rows[s.runs[r].job].sender, decidedAt));
    }
  }

  lemma MarkSentKeepsInv(s: State, r: RunId, now: nat)
    requires Inv(s) && r in s.runs && s.runs[r].pc.ToMarkSent?
    ensures s.runs[r].job in s.rows
    ensures Inv(SetPc(s.(rows := MarkedSent(s.rows, s.runs[r].job, now)), r, ToCountPending(true)))
  {
  }

  /** Letting a row go, or marking it FAILED, ends the hold on it. */
  lemma RowMoveKeepsInv(s: State, r: RunId, rows: Rows, pc: Pc)
    requires Inv(s) && r in s.runs && s.runs[r].job in s.rows && !Holds(pc) && !WroteSent(pc)
    requires || (rows == MarkedFailed(s.rows, s.runs[r].job) && s.runs[r].pc.ToHandleFailure?)
             || (rows == Released(s.rows, s.runs[r].job)
                 && (s.runs[r].pc.ToReleaseDenied? || (s.runs[r].pc.ToHandleFailure? && !s.runs[r].isLastAttempt)))
    ensures Inv(SetPc(s.(rows := rows), r, pc))
  {
    var s' := SetPc(s.(rows := rows), r, pc);
    assert forall job :: Accepted(s', job) <==> Accepted(s, job);
    assert RunOk(s, r);
    forall r2 | r2 in s'.runs
      ensures RunOk(s', r2)
    {
      assert RunOk(s, r2);
    }
  }

  lemma ReleaseKeepsInv(s: State, r: RunId)
    requires Inv(s) && r in s.runs && s.runs[r].pc.ToReleaseDenied?
    ensures Inv(SetPc(s.(rows := Released(s.rows, s.runs[r].job)), r, Done(DeferredOutcome)))
  {
    assert RunOk(s, r);
    RowMoveKeepsInv(s, r, Released(s.rows, s.runs[r].job), Done(DeferredOutcome));
  }

  lemma HandleFailureKeepsInv(s: State, r: RunId)
    requires Inv(s) && r in s.runs && s.runs[r].pc.ToHandleFailure?
    ensures Inv(HandleFailure(s, r))
  {
    assert RunOk(s, r);
    if s.runs[r].isLastAttempt {
      RowMoveKeepsInv(s, r, MarkedFailed(s.rows, s.runs[r].job), ToCountPending(false));
    } else {
      RowMoveKeepsInv(s, r, Released(s.rows, s.runs[r].job), Done(ThrewOutcome));
    }
  }

  lemma FinalizeKeepsInv(s: State, r: RunId)
    requires Inv(s) && r in s.runs
    requires s.runs[r].pc.ToCountPending? || s.runs[r].pc.ToMarkProcessing? || s.runs[r].pc.ToCountFailed?
          || s.runs[r].pc.ToWriteCampaign?
    ensures Inv(Finalize(s, r))
  {
    hide Finalize, CampaignEffect;
    var s' := Finalize(s, r);
    assert RunOk(s, r);
    FinalizeIsMove(s, r);
    PcMoveKeepsInv(s, r, s'.runs[r].pc, s'.campaigns);
  }

  lemma WorkKeepsInv(policy: Policy, s: State, r: RunId, input: Input)
    requires Inv(s) && r in s.runs
    ensures Inv(WorkStep(policy, s, r, input))
  {
    hide Inv;
    match s.runs[r].pc {
      case ToLoad => LoadKeepsInv(s, r);
      case ToClaim => ClaimKeepsInv(s, r, input.now);
      case ToCheckRate => CheckRateKeepsInv(policy, s, r, input);
      case ToReleaseDenied => ReleaseKeepsInv(s, r);
      case ToSend(decidedAt) => SendKeepsInv(s, r, decidedAt, input.smtpAccepts);
      case ToMarkSent(_) => MarkSentKeepsInv(s, r, input.now);
      case ToHandleFailure(_) => HandleFailureKeepsInv(s, r);
      case ToReturn(sent) => PcMoveKeepsInv(s, r, Done(OutcomeOf(sent)), s.campaigns);
      case Done(_) =>
      case _ => FinalizeKeepsInv(s, r);
    }
  }

  lemma ThrowKeepsInv(policy: Policy, s: State, r: RunId)
    requires Inv(s) && r in s.runs && !Hazard(s, Throw(r))
    ensures Inv(Next(policy, s, Throw(r)))
  {
    assert RunOk(s, r);
    PcMoveKeepsInv(s, r, ThrowTarget(s.runs[r].pc), s.campaigns);
  }

  lemma CrashKeepsInv(policy: Policy, s: State, r: RunId)
    requires Inv(s)
    ensures Inv(Next(policy, s, Crash(r)))
  {
    if r in s.runs && !s.runs[r].pc.Done? {
      PcMoveKeepsInv(s, r, Done(ThrewOutcome), s.campaigns);
    }
  }

  /** A bulk statement only fails PROCESSING rows and cancels SCHEDULED ones. */
  ghost predicate BulkMove(rows: Rows, rows': Rows)
  {
    && rows'.Keys == rows.Keys
    && forall id :: id in rows ==>
         || rows'[id].status == rows[id].status
         || (rows[id].status == Processing && rows'[id].status == Failed)
         || (rows[id].status == Scheduled && rows'[id].status == Cancelled)
  }

  lemma BulkKeepsInv(s: State, rows: Rows, campaigns: Campaigns, cancels: map<CallerId, CampaignId>)
    requires Inv(s) && BulkMove(s.rows, rows)
    ensures Inv(s.(rows := rows, campaigns := campaigns, cancels := cancels))
  {
    var s' := s.(rows := rows, campaigns := campaigns, cancels := cancels);
    assert forall job :: Accepted(s', job) <==> Accepted(s, job);
    forall r | r in s'.runs
      ensures RunOk(s', r)
    {
      assert RunOk(s, r);
    }
  }

  lemma CreateKeepsInv(policy: Policy, s: State, campaign: CampaignId, newRows: Rows)
    requires Inv(s)
    ensures Inv(Next(policy, s, Create(campaign, newRows)))
  {
  }

  lemma NewRunKeepsInv(s: State, r: RunId, run: Run)
    requires Inv(s) && r !in s.runs && run.pc == ToLoad
    ensures Inv(s.(runs := s.runs[r := run]))
  {
    var s' := s.(runs := s.runs[r := run]);
    assert forall job :: Accepted(s', job) <==> Accepted(s, job);
    forall r2 | r2 in s'.runs
      ensures RunOk(s', r2)
    {
      assert r2 in s.runs ==> RunOk(s, r2);
    }
  }

  lemma NextKeepsInv(policy: Policy, s: State, a: Action)
    requires Inv(s) && !Hazard(s, a)
    ensures Inv(Next(policy, s, a))
  {
    hide Inv;
    match a {
      case Work(r, input) => if r in s.runs { WorkKeepsInv(policy, s, r, input); }
      case Throw(r) => if r in s.runs { ThrowKeepsInv(policy, s, r); }
      case Crash(r) => CrashKeepsInv(policy, s, r);
      case Create(campaign, newRows) => CreateKeepsInv(policy, s, campaign, newRows);
      case Start(r, job, attemptsMade, attempts) =>
        if r !in s.runs { NewRunKeepsInv(s, r, Run(job, attemptsMade + 1 >= attempts, ToLoad)); }
      case FailStale(cutoff) => BulkKeepsInv(s, StaleFailed(s.rows, cutoff), s.campaigns, s.cancels);
      case CancelLoad(_, _) => BulkKeepsInv(s, s.rows, s.campaigns, Next(policy, s, a).cancels);
      case CancelCommit(caller) =>
        if caller in s.cancels {
          var c := s.cancels[caller];
          BulkKeepsInv(s, ScheduledCancelled(s.rows, c), s.campaigns[c := CampaignCancelled], s.cancels - {caller});
        }
    }
  }

  // ---- Whole runs ---------------------------------------------------------------------------------

  ghost predicate NoHazard(policy: Policy, s: State, trace: seq<Action>)
  {
    Along(policy, s, trace, (t: State, a: Action) => !Hazard(t, a))
  }

  lemma {:induction false} RunKeepsInv(policy: Policy, s: State, trace: seq<Action>)
    requires Inv(s) && NoHazard(policy, s, trace)
    ensures Inv(Exec(policy, s, trace))
    decreases |trace|
  {
    if trace != [] {
      NextKeepsInv(policy, s, trace[0]);
      RunKeepsInv(policy, Next(policy, s, trace[0]), trace[1..]);
    }
  }

  /** In every reachable state a row has at most one live holder, and a held row is PROCESSING or FAILED. */
  lemma OneHolderPerRow(policy: Policy, trace: seq<Action>, r1: RunId, r2: RunId, job: JobId)
    requires NoHazard(policy, EMPTY, trace)
    requires Holder(Exec(policy, EMPTY, trace), r1, job) && Holder(Exec(policy, EMPTY, trace), r2, job)
    ensures r1 == r2
    ensures var rows := Exec(policy, EMPTY, trace).rows; HasStatus(rows, job, Processing) || HasStatus(rows, job, Failed)
  {
    RunKeepsInv(policy, EMPTY, trace);
    assert RunOk(Exec(policy, EMPTY, trace), r1);
  }

  /**
   Across every interleaving of workers, duplicate runs, cancellations, stale-failing passes, crashes
   and throws, each row is accepted by SMTP at most once, as long as no hazard occurs.
   */
  lemma AtMostOneAcceptance(policy: Policy, trace: seq<Action>)
    requires NoHazard(policy, EMPTY, trace)
    ensures AcceptedOnce(Exec(policy, EMPTY, trace))
  {
    RunKeepsInv(policy, EMPTY, trace);
  }
}
